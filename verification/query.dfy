/** The search request: the Lucene-style query string built by
    `generate_query`, the form type that `mass_extract_from_API` recovers from
    that string, and the request record built by `generate_payload`. */
module Query {
  import opened Results
  import opened Text
  import opened Decimal

  /** A value given to `generate_query`; the f-string renders an integer
      with `str`. */
  datatype Scalar = Number(n: int) | Word(s: string)

  function Render(v: Scalar): string
  {
    match v
    case Number(n) => IntToText(n)
    case Word(s) => s
  }

  /** The keyword arguments of `generate_query`; `None` leaves a predicate out. */
  datatype QueryArgs = QueryArgs(
    cik: Option<Scalar>,
    ticker: Option<Scalar>,
    companyName: Option<Scalar>,
    formType: Option<Scalar>,
    filedAt: Option<Scalar>)

  const Conjunction := " AND "
  const FormTypeField := "formType"
  const FormTypeKey := "formType:"

  /** The `name:value` predicate for one argument, or nothing when it is
      `None`; `key` is the name with its colon. */
  function Term(key: string, v: Option<Scalar>): seq<string>
  {
    if v.None? then [] else [key + Render(v.value)]
  }

  /** The predicates that come before the form type. */
  function LeadingTerms(a: QueryArgs): seq<string>
  {
    Term("cik:", a.cik) + Term("ticker:", a.ticker) + Term("companyName:", a.companyName)
  }

  /** The list `query_parameters`, in the fixed order cik, ticker,
      companyName, formType, filedAt. */
  function QueryTerms(a: QueryArgs): seq<string>
  {
    LeadingTerms(a) + Term(FormTypeKey, a.formType) + Term("filedAt:", a.filedAt)
  }

  predicate NoArguments(a: QueryArgs)
  {
    a.cik.None? && a.ticker.None? && a.companyName.None? && a.formType.None? && a.filedAt.None?
  }

  /** `generate_query`: the predicates joined with `" AND "`. The string is
      empty exactly when no argument was given. */
  function GenerateQuery(a: QueryArgs): (q: string)
    ensures q == "" <==> NoArguments(a)
  {
    var terms := QueryTerms(a);
    assert forall i :: 0 <= i < |terms| ==> |terms[i]| > 0;
    JoinNonEmpty(terms, Conjunction);
    Join(terms, Conjunction)
  }

  lemma JoinNonEmpty(parts: seq<string>, sep: string)
    requires forall i :: 0 <= i < |parts| ==> |parts[i]| > 0
    ensures Join(parts, sep) == "" <==> |parts| == 0
  {
    if |parts| > 1 {
      assert |Join(parts, sep)| >= |parts[0]|;
    }
  }

  /** The form type `mass_extract_from_API` filters on: when the query
      mentions `formType`, the text after the first `formType:` up to the next
      `formType:` and then up to the first space. The recovered value never
      holds a space or `formType:`; a query that mentions `formType` without a
      colon after it fails with `IndexError`, as `split(...)[1]` does. */
  function ParseFormType(q: string): (r: Result<Option<string>>)
    ensures r.Err? <==> Contains(q, FormTypeField) && !Contains(q, FormTypeKey)
    ensures r.Ok? ==> (r.value.Some? <==> Contains(q, FormTypeField))
    ensures r.Ok? && r.value.Some? ==> ' ' !in r.value.value && !Contains(r.value.value, FormTypeKey)
  {
    if !Contains(q, FormTypeField) then Ok(None)
    else
      var pieces := Split(q, FormTypeKey);
      SplitHead(q, FormTypeKey);
      if |pieces| < 2 then Err(IndexError("query_string.split(\"formType:\")[1]"))
      else
        var segment := pieces[1];
        SplitPiecesAvoid(q, FormTypeKey);
        assert !Contains(segment, FormTypeKey);
        FirstFieldClean(segment, FormTypeKey);
        var v := Split(segment, " ")[0];
        Ok(Some(v))
  }

  /** A prefix of text that avoids a pattern avoids it too. */
  lemma SegmentPrefixAvoids(s: string, i: nat, pat: string)
    requires i <= |s| && !Contains(s, pat)
    ensures !Contains(s[..i], pat)
  {
    assert s == s[..i] + s[i..];
    forall j: nat
      ensures !OccursAt(s[..i], pat, j)
    {
      if j + |pat| <= i {
        OccursAtPrefix(s[..i], s[i..], pat, j);
      }
    }
    NoOccurrence(s[..i], pat);
  }

  /** The arguments given before the form type do not mention `formType:`. */
  predicate LeadAvoidsKey(a: QueryArgs)
  {
    && (a.cik.Some? ==> !Contains(Render(a.cik.value), FormTypeKey))
    && (a.ticker.Some? ==> !Contains(Render(a.ticker.value), FormTypeKey))
    && (a.companyName.Some? ==> !Contains(Render(a.companyName.value), FormTypeKey))
  }

  /** The part of the query in front of the form-type predicate. */
  function QueryHead(a: QueryArgs): string
  {
    if |LeadingTerms(a)| == 0 then "" else Join(LeadingTerms(a), Conjunction) + Conjunction
  }

  /** The part of the query after the form-type predicate. */
  function QueryTail(a: QueryArgs): string
  {
    var tail := Term("filedAt:", a.filedAt);
    if |tail| == 0 then "" else Conjunction + Join(tail, Conjunction)
  }

  /** With a form type given, the query is its head, `formType:<value>`, and its tail. */
  lemma QueryShape(a: QueryArgs)
    requires a.formType.Some?
    ensures GenerateQuery(a) == QueryHead(a) + (FormTypeKey + Render(a.formType.value)) + QueryTail(a)
  {
    var x := FormTypeKey + Render(a.formType.value);
    var lead := LeadingTerms(a);
    var tail := Term("filedAt:", a.filedAt);
    assert QueryTerms(a) == lead + ([x] + tail);
    JoinWithLead(lead, [x] + tail, Conjunction);
    JoinWithTail(x, tail, Conjunction);
  }

  /** No `formType:` starts inside the head of the query, whatever follows it. */
  lemma HeadAvoidsKey(a: QueryArgs, rest: string)
    requires LeadAvoidsKey(a)
    ensures forall j: nat :: j < |QueryHead(a)| ==> !OccursAt(QueryHead(a) + rest, FormTypeKey, j)
  {
    var lead := LeadingTerms(a);
    if |lead| > 0 {
      var body := Join(lead, Conjunction);
      LeadingTermsAvoid(a);
      JoinAvoids(lead, Conjunction, FormTypeKey);
      EarlyAvoids(body, Conjunction, rest, FormTypeKey);
      assert QueryHead(a) + rest == body + Conjunction + rest;
    }
  }

  lemma Regroup(h: string, k: string, x: string, t: string)
    ensures h + (k + x) + t == h + (k + (x + t))
  {
  }

  /** The first `formType:` in the query is the one the form-type argument put there. */
  lemma KeyFoundAfterHead(a: QueryArgs)
    requires a.formType.Some? && LeadAvoidsKey(a)
    ensures Find(GenerateQuery(a), FormTypeKey) == Some(|QueryHead(a)|)
    ensures Contains(GenerateQuery(a), FormTypeField)
  {
    var h := QueryHead(a);
    var r := Render(a.formType.value) + QueryTail(a);
    QueryShape(a);
    Regroup(h, FormTypeKey, Render(a.formType.value), QueryTail(a));
    HeadAvoidsKey(a, FormTypeKey + r);
    FirstAfter(h, FormTypeKey, r);
    assert FormTypeKey + r == FormTypeField + (":" + r);
    FirstAfter(h, FormTypeField, ":" + r);
  }

  /** What follows the first `formType:` is the form-type value and then the tail. */
  lemma AfterKey(a: QueryArgs)
    requires a.formType.Some? && LeadAvoidsKey(a)
    ensures |Split(GenerateQuery(a), FormTypeKey)| >= 2
    ensures Split(GenerateQuery(a), FormTypeKey)[1]
         == Split(Render(a.formType.value) + QueryTail(a), FormTypeKey)[0]
  {
    var q := GenerateQuery(a);
    var h := QueryHead(a);
    var r := Render(a.formType.value) + QueryTail(a);
    QueryShape(a);
    Regroup(h, FormTypeKey, Render(a.formType.value), QueryTail(a));
    KeyFoundAfterHead(a);
    SplitHead(q, FormTypeKey);
    DropFront(h, FormTypeKey, r);
  }

  lemma DropFront(h: string, k: string, r: string)
    ensures (h + (k + r))[|h| + |k|..] == r
  {
  }

  /** Building the query and reading the form type back out of it gives the
      form type that was put in, provided it has no space and no `formType:`
      of its own, and no earlier argument mentions `formType:`. */
  lemma {:induction false} FormTypeRoundTrip(a: QueryArgs)
    requires a.formType.Some?
    requires ' ' !in Render(a.formType.value)
    requires !Contains(Render(a.formType.value), FormTypeKey)
    requires LeadAvoidsKey(a)
    ensures ParseFormType(GenerateQuery(a)) == Ok(Some(Render(a.formType.value)))
  {
    var f := Render(a.formType.value);
    var q := GenerateQuery(a);
    KeyFoundAfterHead(a);
    AfterKey(a);
    assert QueryTail(a) == "" || QueryTail(a)[0] == ' ';
    SegmentBeforeSpace(f, QueryTail(a));
    SplitHead(q, FormTypeKey);
  }

  /** The first space-separated field of a text has no space, and avoids
      any pattern the text avoids. */
  lemma FirstFieldClean(segment: string, pat: string)
    ensures ' ' !in Split(segment, " ")[0]
    ensures !Contains(segment, pat) ==> !Contains(Split(segment, " ")[0], pat)
  {
    SplitHead(segment, " ");
    var v := Split(segment, " ")[0];
    assert " " == [' '];
    if Find(segment, " ").Some? {
      BeforeFirstAvoids(segment, " ");
      if !Contains(segment, pat) {
        SegmentPrefixAvoids(segment, Find(segment, " ").value, pat);
      }
    }
    AvoidsChar(v, ' ');
  }

  /** What follows `formType:<f>` is the end of the query or a space and
      more; either way the recovered field reads back as `f`. */
  lemma SegmentBeforeSpace(f: string, post: string)
    requires ' ' !in f && !Contains(f, FormTypeKey)
    requires post == "" || post[0] == ' '
    ensures Split(Split(f + post, FormTypeKey)[0], " ")[0] == f
  {
    var s := f + post;
    SplitHead(s, FormTypeKey);
    var seg := Split(s, FormTypeKey)[0];
    if post == "" {
      assert s == f;
      FirstFieldIs(f, f);
    } else {
      SegmentKeepsSpace(f, post);
      FirstFieldIs(seg, f);
    }
  }

  /** The key cannot start inside `f` or at the space after it, so the
      first segment still holds `f` and that space. */
  lemma SegmentKeepsSpace(f: string, post: string)
    requires ' ' !in f && !Contains(f, FormTypeKey)
    requires |post| > 0 && post[0] == ' '
    ensures var seg := Split(f + post, FormTypeKey)[0];
      |seg| > |f| && seg[..|f|] == f && seg[|f|] == ' '
  {
    var s := f + post;
    SplitHead(s, FormTypeKey);
    assert s == f + [post[0]] + post[1..];
    EarlyAvoids(f, [post[0]], post[1..], FormTypeKey);
    assert s[..|f|] == f && s[|f|] == ' ';
    var r := Find(s, FormTypeKey);
    if r.Some? {
      assert r.value > |f|;
      assert Split(s, FormTypeKey)[0] == s[..r.value];
    }
  }

  /** A text that is `f` alone, or `f` followed by a space, has `f` as its
      first space-separated field. */
  lemma FirstFieldIs(seg: string, f: string)
    requires ' ' !in f
    requires seg == f || (|seg| > |f| && seg[..|f|] == f && seg[|f|] == ' ')
    ensures Split(seg, " ")[0] == f
  {
    assert " " == [' '];
    SplitHead(seg, " ");
    if seg == f {
      AvoidsChar(f, ' ');
    } else {
      forall j: nat | j < |f|
        ensures !OccursAt(seg, " ", j)
      {
        assert seg[j] == f[j] && f[j] in f;
        Uncovered(seg, " ", j, j);
      }
      assert OccursAt(seg, " ", |f|);
      FindIsFirst(seg, " ", |f|);
    }
  }

  /** The leading predicates avoid `formType:`: their names hold no `f`. */
  lemma LeadingTermsAvoid(a: QueryArgs)
    requires LeadAvoidsKey(a)
    ensures forall t :: t in LeadingTerms(a) ==> !Contains(t, FormTypeKey)
  {
    assert FormTypeKey[0] == 'f';
    TermAvoids("cik:", a.cik);
    TermAvoids("ticker:", a.ticker);
    TermAvoids("companyName:", a.companyName);
  }

  lemma TermAvoids(key: string, v: Option<Scalar>)
    requires FormTypeKey[0] !in key
    requires v.Some? ==> !Contains(Render(v.value), FormTypeKey)
    ensures forall t :: t in Term(key, v) ==> !Contains(t, FormTypeKey)
  {
    if v.Some? {
      LabelledAvoids(key, Render(v.value), FormTypeKey);
    }
  }

  /** Joining `[x] + tail` puts `x` first, then the separator and the
      joined tail if there is one. */
  lemma JoinWithTail(x: string, tail: seq<string>, sep: string)
    ensures Join([x] + tail, sep) == x + (if |tail| == 0 then "" else sep + Join(tail, sep))
  {
    if |tail| == 0 {
      assert [x] + tail == [x];
    } else {
      assert ([x] + tail)[1..] == tail;
    }
  }

  /** Joining `lead + m`, for a non-empty `m`, puts the joined lead and a
      separator, if there is a lead, before the joined `m`. */
  lemma JoinWithLead(lead: seq<string>, m: seq<string>, sep: string)
    requires |m| > 0
    ensures Join(lead + m, sep) == (if |lead| == 0 then "" else Join(lead, sep) + sep) + Join(m, sep)
  {
    if |lead| == 0 {
      assert lead + m == m;
    } else {
      JoinAppend(lead, m, sep);
    }
  }

  /** When no predicate's value can be mistaken for the separator, splitting
      the query on `" AND "` gives back the predicates in their fixed order. */
  lemma QueryTermsRecovered(a: QueryArgs)
    requires !NoArguments(a)
    requires forall i :: 0 <= i < |QueryTerms(a)| ==>
      Find(QueryTerms(a)[i] + Conjunction, Conjunction) == Some(|QueryTerms(a)[i]|)
    ensures Split(GenerateQuery(a), Conjunction) == QueryTerms(a)
  {
    SplitJoin(QueryTerms(a), Conjunction);
  }

  /** A Python argument to `generate_payload`: `isinstance(x, int)` holds for
      integers and also for booleans. */
  datatype PyArg = IntArg(i: int) | BoolArg(b: bool) | OtherArg

  predicate IsPyInt(x: PyArg)
  {
    !x.OtherArg?
  }

  /** The integer a Python int or bool stands for (`True == 1`). */
  function IntValue(x: PyArg): int
    requires IsPyInt(x)
  {
    match x
    case IntArg(i) => i
    case BoolArg(b) => if b then 1 else 0
  }

  /** `str(x)` for an int or bool. */
  function PyStr(x: PyArg): string
    requires IsPyInt(x)
  {
    match x
    case IntArg(i) => IntToText(i)
    case BoolArg(b) => if b then "True" else "False"
  }

  datatype SortKey = SortKey(field: string, order: string)

  /** The JSON body sent to the metadata API. */
  datatype Payload = Payload(query: string, from: string, size: string, sort: seq<SortKey>)

  /** `generate_payload(start, length)`: `None` unless both arguments are
      Python ints; the query is carried as it is and results are sorted by
      filing date, newest first. */
  function GeneratePayload(query: string, start: PyArg, length: PyArg): (p: Option<Payload>)
    ensures p.Some? <==> IsPyInt(start) && IsPyInt(length)
    ensures p.Some? ==> p.value.query == query && p.value.sort == [SortKey("filedAt", "desc")]
  {
    if IsPyInt(length) && IsPyInt(start) then
      Some(Payload(query, PyStr(start), IntToText(IntValue(start) + IntValue(length)),
                   [SortKey("filedAt", "desc")]))
    else
      None
  }

  /** The payload's `from` reads back as `start` and its `size` as
      `start + length`, not `length`; a boolean `start` is written as
      `True` or `False`. */
  lemma PayloadReadsBack(query: string, start: PyArg, length: PyArg)
    requires IsPyInt(start) && IsPyInt(length)
    ensures var p := GeneratePayload(query, start, length).value;
      && (start.IntArg? ==> ParseInt(p.from) == Some(start.i))
      && (start.BoolArg? ==> p.from == (if start.b then "True" else "False"))
      && ParseInt(p.size) == Some(IntValue(start) + IntValue(length))
  {
    ParseRendered(IntValue(start) + IntValue(length));
    ParseRendered(IntValue(start));
  }
}
