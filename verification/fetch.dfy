/** `request_filing_data`: every URL of the `'Filing Details URL'` column is
    fetched, and its content is stored under `url_list.index(url)`, the
    position of the URL's first occurrence. A fetch that raises leaves its
    entry out (the thread pool swallows the exception). The model is generic
    in the locator type `L` (a cell may be NaN) and in the content type `C`
    (the parsed document). */
module Fetch {
  import opened Results

  /** `url_list.index(u)`: the first position holding `u`. */
  function FirstIndex<L(==)>(urls: seq<L>, u: L): (i: nat)
    requires u in urls
    ensures i < |urls| && urls[i] == u
    ensures forall j :: 0 <= j < i ==> urls[j] != u
  {
    if urls[0] == u then 0 else 1 + FirstIndex(urls[1..], u)
  }

  /** Position `k` holds the first occurrence of its URL. */
  predicate IsFirst<L(==)>(urls: seq<L>, k: nat)
  {
    k < |urls| && forall j :: 0 <= j < k ==> urls[j] != urls[k]
  }

  /** The reference map for the first `n` positions: every first occurrence
      whose fetch succeeded, holding what the fetch returned. */
  function IndexedUpTo<L(==), C>(urls: seq<L>, fetch: L -> Option<C>, n: nat): map<nat, C>
    requires n <= |urls|
  {
    map k: nat | k < n && IsFirst(urls, k) && fetch(urls[k]).Some? :: fetch(urls[k]).value
  }

  function Indexed<L(==), C>(urls: seq<L>, fetch: L -> Option<C>): map<nat, C>
  {
    IndexedUpTo(urls, fetch, |urls|)
  }

  /** What each worker obtained, by position in `url_list`: the parsed
      content, or `None` when its request raised. Two workers holding the
      same URL make separate requests, so their answers need not agree. */
  type Answers<C> = nat -> Option<C>

  /** The answers when every request for a URL gets what `fetch` gives. */
  function Answer<L, C>(urls: seq<L>, fetch: L -> Option<C>): Answers<C>
  {
    (p: nat) => if p < |urls| then fetch(urls[p]) else None
  }

  /** One worker (`individual_function`) for the URL at position `p`: if
      its request succeeded, the content is stored under the URL's first
      index, replacing whatever was there. */
  function Store<L(==), C>(m: map<nat, C>, urls: seq<L>, got: Answers<C>, p: nat): map<nat, C>
    requires p < |urls|
  {
    match got(p)
    case None => m
    case Some(c) => m[FirstIndex(urls, urls[p]) := c]
  }

  /** The workers run to completion in the order `order` (positions of
      `url_list`); the thread pool fixes no such order. */
  function Deliver<L(==), C>(urls: seq<L>, got: Answers<C>, order: seq<nat>): map<nat, C>
    requires forall j :: 0 <= j < |order| ==> order[j] < |urls|
    decreases |order|
  {
    if |order| == 0 then map[]
    else Store(Deliver(urls, got, order[..|order| - 1]), urls, got, order[|order| - 1])
  }

  /** Workers holding the same URL obtained the same answer. */
  ghost predicate Agree<L, C>(urls: seq<L>, got: Answers<C>)
  {
    forall p, q :: 0 <= p < |urls| && 0 <= q < |urls| && urls[p] == urls[q] ==> got(p) == got(q)
  }

  /** The reference map for per-worker answers: every first occurrence
      whose worker succeeded, holding that worker's content. */
  function Reference<L(==), C>(urls: seq<L>, got: Answers<C>): map<nat, C>
  {
    map k: nat | k < |urls| && IsFirst(urls, k) && got(k).Some? :: got(k).value
  }

  /** The first index of the URL at a first occurrence is that position. */
  lemma FirstIndexOfFirst<L>(urls: seq<L>, k: nat)
    requires IsFirst(urls, k)
    ensures FirstIndex(urls, urls[k]) == k
  {
  }

  /** What the workers have stored after running in `order`: an entry sits at
      the first index of a URL, and holds what one of the workers for that
      URL obtained; every worker that succeeded has an entry at its URL's
      first index. */
  lemma {:induction false} DeliverContents<L, C>(urls: seq<L>, got: Answers<C>, order: seq<nat>)
    requires forall j :: 0 <= j < |order| ==> order[j] < |urls|
    ensures forall k :: k in Deliver(urls, got, order) ==>
      IsFirst(urls, k)
      && exists j :: 0 <= j < |order| && urls[order[j]] == urls[k] && got(order[j]) == Some(Deliver(urls, got, order)[k])
    ensures forall j :: 0 <= j < |order| && got(order[j]).Some? ==>
      FirstIndex(urls, urls[order[j]]) in Deliver(urls, got, order)
    decreases |order|
  {
    if |order| > 0 {
      var init := order[..|order| - 1];
      var p := order[|order| - 1];
      var before := Deliver(urls, got, init);
      var after := Deliver(urls, got, order);
      DeliverContents(urls, got, init);
      var f := FirstIndex(urls, urls[p]);
      assert IsFirst(urls, f);
      forall j | 0 <= j < |order| - 1
        ensures order[j] == init[j]
      {
      }
      forall k | k in after
        ensures IsFirst(urls, k)
        ensures exists j :: 0 <= j < |order| && urls[order[j]] == urls[k] && got(order[j]) == Some(after[k])
      {
        if got(p).Some? && k == f {
          assert urls[order[|order| - 1]] == urls[k] && got(order[|order| - 1]) == Some(after[k]);
        } else {
          assert k in before && after[k] == before[k];
          var j :| 0 <= j < |init| && urls[init[j]] == urls[k] && got(init[j]) == Some(before[k]);
          assert order[j] == init[j];
        }
      }
    }
  }

  /** However the thread pool interleaves the workers, once every position
      has been handled the stored map is the reference map, provided the
      workers for one URL obtained the same answer: the indexing then keeps
      the order straight, as the docstring of `request_filing_data`
      intends. */
  lemma CompletionOrderIrrelevant<L, C>(urls: seq<L>, got: Answers<C>, order: seq<nat>)
    requires forall j :: 0 <= j < |order| ==> order[j] < |urls|
    requires forall p :: 0 <= p < |urls| ==> p in order
    requires Agree(urls, got)
    ensures Deliver(urls, got, order) == Reference(urls, got)
  {
    var d := Deliver(urls, got, order);
    var r := Reference(urls, got);
    forall k | k in d
      ensures k in r && r[k] == d[k]
    {
      StoredIsReference(urls, got, order, k);
    }
    forall k | k in r
      ensures k in d
    {
      ReferenceIsStored(urls, got, order, k);
    }
    assert d.Keys == r.Keys;
  }

  /** A stored entry agrees with the reference map. */
  lemma StoredIsReference<L, C>(urls: seq<L>, got: Answers<C>, order: seq<nat>, k: nat)
    requires forall j :: 0 <= j < |order| ==> order[j] < |urls|
    requires Agree(urls, got)
    requires k in Deliver(urls, got, order)
    ensures k in Reference(urls, got) && Reference(urls, got)[k] == Deliver(urls, got, order)[k]
  {
    var d := Deliver(urls, got, order);
    DeliverContents(urls, got, order);
    var j :| 0 <= j < |order| && urls[order[j]] == urls[k] && got(order[j]) == Some(d[k]);
    assert got(k) == got(order[j]);
  }

  /** A reference entry is stored once its position has been handled. */
  lemma ReferenceIsStored<L, C>(urls: seq<L>, got: Answers<C>, order: seq<nat>, k: nat)
    requires forall j :: 0 <= j < |order| ==> order[j] < |urls|
    requires k in order
    requires k in Reference(urls, got)
    ensures k in Deliver(urls, got, order)
  {
    DeliverContents(urls, got, order);
    var j :| 0 <= j < |order| && order[j] == k;
    FirstIndexOfFirst(urls, k);
  }

  /** With distinct URLs no two workers share an index, and any order of
      completion gives the reference map. */
  lemma DistinctOrderIrrelevant<L, C>(urls: seq<L>, got: Answers<C>, order: seq<nat>)
    requires forall j :: 0 <= j < |order| ==> order[j] < |urls|
    requires forall p :: 0 <= p < |urls| ==> p in order
    requires forall i, j :: 0 <= i < j < |urls| ==> urls[i] != urls[j]
    ensures Deliver(urls, got, order) == Reference(urls, got)
  {
    assert Agree(urls, got);
    CompletionOrderIrrelevant(urls, got, order);
  }

  /** When two requests for one URL bring different content, the order
      of completion decides the result: the worker that finishes last
      wins, and both orders handle every position. */
  lemma CompletionOrderMatters<L, C>(urls: seq<L>, got: Answers<C>)
    requires |urls| == 2 && urls[0] == urls[1]
    requires got(0).Some? && got(1).Some? && got(0) != got(1)
    ensures Deliver(urls, got, [0, 1]) == map[0 := got(1).value]
    ensures Deliver(urls, got, [1, 0]) == map[0 := got(0).value]
    ensures Deliver(urls, got, [0, 1]) != Deliver(urls, got, [1, 0])
  {
    assert FirstIndex(urls, urls[1]) == 0;
    assert [0, 1][..1] == [0] && [0][..0] == [];
    assert [1, 0][..1] == [1] && [1][..0] == [];
    assert Deliver(urls, got, [0, 1])[0] != Deliver(urls, got, [1, 0])[0];
  }

  /** With a web that answers every request for a URL the same way, the
      reference map is `Indexed`, and any order of completion gives it. */
  lemma WebOrderIrrelevant<L, C>(urls: seq<L>, fetch: L -> Option<C>, order: seq<nat>)
    requires forall j :: 0 <= j < |order| ==> order[j] < |urls|
    requires forall p :: 0 <= p < |urls| ==> p in order
    ensures Deliver(urls, Answer(urls, fetch), order) == Indexed(urls, fetch)
  {
    var got := Answer(urls, fetch);
    assert Agree(urls, got);
    CompletionOrderIrrelevant(urls, got, order);
    assert Reference(urls, got).Keys == Indexed(urls, fetch).Keys;
  }

  /** Handling position `i` after positions `0..i-1` extends the reference
      map by position `i`: a repeated URL rewrites the content already stored
      at its first index. */
  lemma IndexedStep<L, C>(urls: seq<L>, fetch: L -> Option<C>, i: nat)
    requires i < |urls|
    ensures Store(IndexedUpTo(urls, fetch, i), urls, Answer(urls, fetch), i) == IndexedUpTo(urls, fetch, i + 1)
  {
    var m := IndexedUpTo(urls, fetch, i);
    var f := FirstIndex(urls, urls[i]);
    if IsFirst(urls, i) {
      FirstIndexOfFirst(urls, i);
    } else {
      assert IsFirst(urls, f);
    }
  }

  /** The sequential reading of `request_filing_data`, with a web that
      answers each URL the same way every time: the workers run one after
      another over `url_list`. Every entry sits at a first occurrence and
      holds that URL's content, so a failed fetch leaves its position out;
      every URL fetched successfully is found at its first index. */
  method RequestFilingData<L(==), C>(urls: seq<L>, fetch: L -> Option<C>) returns (m: map<nat, C>)
    ensures forall k :: k in m ==> IsFirst(urls, k) && fetch(urls[k]) == Some(m[k])
    ensures forall p :: 0 <= p < |urls| && fetch(urls[p]).Some? ==> FirstIndex(urls, urls[p]) in m
    ensures m == Indexed(urls, fetch)
  {
    m := map[];
    var i := 0;
    while i < |urls|
      invariant i <= |urls|
      invariant m == IndexedUpTo(urls, fetch, i)
    {
      IndexedStep(urls, fetch, i);
      m := Store(m, urls, Answer(urls, fetch), i);
      i := i + 1;
    }
    forall p | 0 <= p < |urls| && fetch(urls[p]).Some?
      ensures FirstIndex(urls, urls[p]) in m
    {
      assert IsFirst(urls, FirstIndex(urls, urls[p]));
    }
  }

  /** With distinct URLs the map is faithful: entry `k` exists exactly when
      the fetch of URL `k` succeeded, and holds its content. */
  lemma DistinctIndexed<L, C>(urls: seq<L>, fetch: L -> Option<C>)
    requires forall i, j :: 0 <= i < j < |urls| ==> urls[i] != urls[j]
    ensures forall k: nat :: k in Indexed(urls, fetch) <==> k < |urls| && fetch(urls[k]).Some?
    ensures forall k :: k in Indexed(urls, fetch) ==> Indexed(urls, fetch)[k] == fetch(urls[k]).value
  {
    forall k: nat | k < |urls|
      ensures IsFirst(urls, k)
    {
    }
  }

  /** A repeated URL never has an entry of its own: its content sits at the
      index of the URL's first occurrence. */
  lemma DuplicateCollapses<L, C>(urls: seq<L>, fetch: L -> Option<C>, i: nat, j: nat)
    requires i < j < |urls| && urls[i] == urls[j]
    ensures j !in Indexed(urls, fetch)
    ensures fetch(urls[j]).Some? ==>
      (FirstIndex(urls, urls[j]) in Indexed(urls, fetch)
       && Indexed(urls, fetch)[FirstIndex(urls, urls[j])] == fetch(urls[j]).value)
  {
    if fetch(urls[j]).Some? {
      var f := FirstIndex(urls, urls[j]);
      assert IsFirst(urls, f);
    }
  }
}
