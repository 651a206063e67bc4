/** The Python string operations the extraction code relies on: substring
    search (`in`), `str.split` with an explicit separator, and `str.join`. */
module Text {
  import opened Results

  /** `pat` occurs in `s` starting at position `i`. */
  predicate OccursAt(s: string, pat: string, i: nat)
  {
    i + |pat| <= |s| && forall k :: 0 <= k < |pat| ==> s[i + k] == pat[k]
  }

  /** The first position at or after `from` where `pat` occurs in `s`. */
  function FindFrom(s: string, pat: string, from: nat): (r: Option<nat>)
    ensures r.Some? ==> from <= r.value && OccursAt(s, pat, r.value)
    ensures r.Some? ==> forall j :: from <= j < r.value ==> !OccursAt(s, pat, j)
    ensures r.None? ==> forall j :: from <= j ==> !OccursAt(s, pat, j)
    decreases |s| - from
  {
    if from + |pat| > |s| then None
    else if OccursAt(s, pat, from) then Some(from)
    else FindFrom(s, pat, from + 1)
  }

  /** Python `s.find(pat)`, with `None` for -1. */
  function Find(s: string, pat: string): (r: Option<nat>)
    ensures r.Some? ==> OccursAt(s, pat, r.value)
    ensures r.Some? ==> forall j :: 0 <= j < r.value ==> !OccursAt(s, pat, j)
    ensures r.None? ==> forall j :: !OccursAt(s, pat, j)
  {
    FindFrom(s, pat, 0)
  }

  /** Python `pat in s`. */
  predicate Contains(s: string, pat: string)
  {
    Find(s, pat).Some?
  }

  /** Python `s.split(sep)` for a non-empty separator: the pieces between
      successive left-most non-overlapping occurrences of `sep`. */
  function Split(s: string, sep: string): (parts: seq<string>)
    requires |sep| > 0
    ensures |parts| >= 1
    decreases |s|
  {
    match Find(s, sep)
    case None => [s]
    case Some(i) => [s[..i]] + Split(s[i + |sep|..], sep)
  }

  /** Python `sep.join(parts)`. */
  function Join(parts: seq<string>, sep: string): string
  {
    if |parts| == 0 then ""
    else if |parts| == 1 then parts[0]
    else parts[0] + sep + Join(parts[1..], sep)
  }

  /** Splitting and re-joining with the same separator gives back the text. */
  lemma {:induction false} JoinSplit(s: string, sep: string)
    requires |sep| > 0
    ensures Join(Split(s, sep), sep) == s
    decreases |s|
  {
    match Find(s, sep)
    case None =>
    case Some(i) =>
      var tail := s[i + |sep|..];
      var rest := Split(tail, sep);
      JoinSplit(tail, sep);
      assert Split(s, sep) == [s[..i]] + rest;
      assert ([s[..i]] + rest)[1..] == rest;
      assert s[i..i + |sep|] == sep;
      assert s == s[..i] + s[i..i + |sep|] + tail;
  }

  /** The first piece of a split is the text before the first separator. */
  lemma SplitHead(s: string, sep: string)
    requires |sep| > 0
    ensures Find(s, sep).None? ==> Split(s, sep) == [s]
    ensures Find(s, sep).Some? ==> Split(s, sep)[0] == s[..Find(s, sep).value]
    ensures Find(s, sep).Some? ==>
      |Split(s, sep)| >= 2 && Split(s, sep)[1] == Split(s[Find(s, sep).value + |sep|..], sep)[0]
  {
  }

  /** A known occurrence with none before it is what `Find` reports. */
  lemma FindIsFirst(s: string, pat: string, i: nat)
    requires OccursAt(s, pat, i)
    requires forall j :: 0 <= j < i ==> !OccursAt(s, pat, j)
    ensures Find(s, pat) == Some(i)
  {
  }

  /** Each character of an occurrence is the pattern's character. */
  lemma CharOfOccurrence(s: string, pat: string, j: nat, k: nat)
    requires OccursAt(s, pat, j) && k < |pat|
    ensures s[j + k] == pat[k]
  {
  }

  /** A position holding a character the pattern lacks cannot lie inside an
      occurrence. */
  lemma Uncovered(s: string, pat: string, j: nat, x: nat)
    requires j <= x < j + |pat| && x < |s| && s[x] !in pat
    ensures !OccursAt(s, pat, j)
  {
    assert pat[x - j] in pat;
  }

  /** Occurrences that start inside the back part of `a + b` are occurrences in `b`. */
  lemma OccursAtSuffix(a: string, b: string, pat: string, j: nat)
    requires |a| <= j
    ensures OccursAt(a + b, pat, j) <==> OccursAt(b, pat, j - |a|)
  {
    if j + |pat| <= |a + b| {
      forall k | 0 <= k < |pat|
        ensures ((a + b)[j + k] == pat[k]) == (b[j - |a| + k] == pat[k])
      {
      }
    }
  }

  /** Occurrences that end inside the front part of `a + b` are occurrences in `a`. */
  lemma OccursAtPrefix(a: string, b: string, pat: string, j: nat)
    requires j + |pat| <= |a|
    ensures OccursAt(a + b, pat, j) <==> OccursAt(a, pat, j)
  {
    forall k | 0 <= k < |pat|
      ensures ((a + b)[j + k] == pat[k]) == (a[j + k] == pat[k])
    {
    }
  }

  /** A pattern placed right after `h` occurs there; if it starts nowhere
      inside `h`, that is the first occurrence. */
  lemma FirstAfter(h: string, pat: string, r: string)
    ensures OccursAt(h + (pat + r), pat, |h|)
    ensures (forall j: nat :: j < |h| ==> !OccursAt(h + (pat + r), pat, j))
      ==> Find(h + (pat + r), pat) == Some(|h|)
  {
    var s := h + (pat + r);
    forall k | 0 <= k < |pat|
      ensures s[|h| + k] == pat[k]
    {
    }
    if forall j: nat :: j < |h| ==> !OccursAt(s, pat, j) {
      FindIsFirst(s, pat, |h|);
    }
  }

  /** Text with no occurrence at any position does not contain the pattern. */
  lemma NoOccurrence(s: string, pat: string)
    requires forall j: nat :: !OccursAt(s, pat, j)
    ensures !Contains(s, pat)
  {
  }

  /** A tag that does not contain the pattern's first character cannot hide
      an occurrence of the pattern in front of a value that has none. */
  lemma LabelledAvoids(tag: string, v: string, pat: string)
    requires |pat| > 0 && pat[0] !in tag
    requires !Contains(v, pat)
    ensures !Contains(tag + v, pat)
  {
    var s := tag + v;
    forall j: nat
      ensures !OccursAt(s, pat, j)
    {
      if j < |tag| {
        assert s[j + 0] == tag[j] && tag[j] in tag;
      } else {
        OccursAtSuffix(tag, v, pat, j);
      }
    }
    NoOccurrence(s, pat);
  }

  /** Joining pieces that avoid a pattern, with a separator sharing no
      character with the pattern, gives text that avoids the pattern. */
  lemma {:induction false} JoinAvoids(parts: seq<string>, sep: string, pat: string)
    requires |pat| > 0 && |sep| > 0
    requires forall c :: c in sep ==> c !in pat
    requires forall i :: 0 <= i < |parts| ==> !Contains(parts[i], pat)
    ensures !Contains(Join(parts, sep), pat)
    decreases |parts|
  {
    if |parts| >= 2 {
      JoinAvoids(parts[1..], sep, pat);
      var a := parts[0];
      var b := Join(parts[1..], sep);
      ConcatAvoids(a, sep, b, pat);
    }
  }

  /** An occurrence in `a + m + b` that starts before `b` must lie inside `a`
      when no character of `m` is in the pattern; so if `a` has none, there
      is none before `b`. */
  lemma EarlyAvoids(a: string, m: string, b: string, pat: string)
    requires |pat| > 0 && |m| > 0
    requires forall c :: c in m ==> c !in pat
    requires !Contains(a, pat)
    ensures forall j: nat :: j < |a| + |m| ==> !OccursAt(a + m + b, pat, j)
  {
    var s := a + m + b;
    assert s == a + (m + b);
    forall j: nat | j < |a| + |m|
      ensures !OccursAt(s, pat, j)
    {
      if j + |pat| <= |a| {
        OccursAtPrefix(a, m + b, pat, j);
      } else {
        // the occurrence would cover some position of `m`
        var x := if j < |a| then |a| else j;
        assert s[x] == m[x - |a|] && m[x - |a|] in m;
        Uncovered(s, pat, j, x);
      }
    }
  }

  /** An occurrence in `a + m + b`, when no character of `m` is in the
      pattern, lies wholly inside `a` or wholly inside `b`. */
  lemma ConcatAvoids(a: string, m: string, b: string, pat: string)
    requires |pat| > 0 && |m| > 0
    requires forall c :: c in m ==> c !in pat
    requires !Contains(a, pat) && !Contains(b, pat)
    ensures !Contains(a + m + b, pat)
  {
    var s := a + m + b;
    EarlyAvoids(a, m, b, pat);
    forall j: nat | |a| + |m| <= j
      ensures !OccursAt(s, pat, j)
    {
      OccursAtSuffix(a + m, b, pat, j);
    }
    NoOccurrence(s, pat);
  }

  /** The text before the first occurrence of `sep` has no occurrence of it. */
  lemma BeforeFirstAvoids(s: string, sep: string)
    requires |sep| > 0 && Find(s, sep).Some?
    ensures !Contains(s[..Find(s, sep).value], sep)
  {
    var i := Find(s, sep).value;
    var p := s[..i];
    assert s == p + s[i..];
    forall j: nat
      ensures !OccursAt(p, sep, j)
    {
      if j + |sep| <= |p| {
        OccursAtPrefix(p, s[i..], sep, j);
      }
    }
    NoOccurrence(p, sep);
  }

  /** No piece of a split contains the separator. */
  lemma {:induction false} SplitPiecesAvoid(s: string, sep: string)
    requires |sep| > 0
    ensures forall i :: 0 <= i < |Split(s, sep)| ==> !Contains(Split(s, sep)[i], sep)
    decreases |s|
  {
    match Find(s, sep)
    case None =>
    case Some(i) =>
      BeforeFirstAvoids(s, sep);
      SplitPiecesAvoid(s[i + |sep|..], sep);
  }

  /** Text avoids a one-character pattern exactly when it lacks the character. */
  lemma AvoidsChar(s: string, c: char)
    ensures !Contains(s, [c]) <==> c !in s
  {
    if c in s {
      var i :| 0 <= i < |s| && s[i] == c;
      assert OccursAt(s, [c], i);
    }
    if Contains(s, [c]) {
      var i := Find(s, [c]).value;
      CharOfOccurrence(s, [c], i, 0);
    }
  }

  /** Joining non-empty lists: `sep.join(a + b) == sep.join(a) + sep + sep.join(b)`. */
  lemma {:induction false} JoinAppend(a: seq<string>, b: seq<string>, sep: string)
    requires |a| > 0 && |b| > 0
    ensures Join(a + b, sep) == Join(a, sep) + sep + Join(b, sep)
    decreases |a|
  {
    if |a| > 1 {
      JoinAppend(a[1..], b, sep);
      assert (a + b)[1..] == a[1..] + b;
    } else {
      assert (a + b)[1..] == b;
    }
  }

  /** When each piece, followed by the separator, first shows the separator
      right after itself, splitting the joined text recovers the pieces. */
  lemma {:induction false} SplitJoin(parts: seq<string>, sep: string)
    requires |sep| > 0 && |parts| > 0
    requires forall i :: 0 <= i < |parts| ==> Find(parts[i] + sep, sep) == Some(|parts[i]|)
    ensures Split(Join(parts, sep), sep) == parts
    decreases |parts|
  {
    var p := parts[0];
    assert Find(p + sep, sep) == Some(|p|);
    forall j: nat
      ensures !OccursAt(p, sep, j)
    {
      if j + |sep| <= |p| {
        OccursAtPrefix(p, sep, sep, j);
      }
    }
    NoOccurrence(p, sep);
    if |parts| > 1 {
      var rest := Join(parts[1..], sep);
      var s := p + sep + rest;
      assert s == (p + sep) + rest;
      OccursAtPrefix(p + sep, rest, sep, |p|);
      forall j: nat | j < |p|
        ensures !OccursAt(s, sep, j)
      {
        OccursAtPrefix(p + sep, rest, sep, j);
      }
      FindIsFirst(s, sep, |p|);
      assert s[|p| + |sep|..] == rest;
      assert s[..|p|] == p;
      SplitJoin(parts[1..], sep);
      assert parts == [p] + parts[1..];
    }
  }
}
