/** `mass_extract_from_API`: request pages of filing metadata at offsets
    0, 200, 400, ... until a page comes back empty, keep the filings whose form
    type is exactly the one asked for, and append one row per kept filing
    holding the selected API columns. */
module Pagination {
  import opened Results
  import opened Decimal
  import opened Query
  import opened Table

  /** One entry of the API's `filings` list, as decoded JSON. */
  type Record = map<string, string>

  /** The metadata API: the decoded `filings` list answering a request body,
      or `None` when the request or its decoding fails. */
  type Api = Payload -> Option<seq<Record>>

  const PageSize := 200

  /** The offset of page number `n`: the loop asks for `N * 200`. */
  function Offset(n: nat): nat
  {
    n * PageSize
  }

  /** `individual_extraction_from_API(start)`: one request, with the payload
      `generate_payload(start, 200)`. */
  function RequestPage(api: Api, query: string, start: int): Result<seq<Record>>
  {
    var payload := GeneratePayload(query, IntArg(start), IntArg(PageSize));
    match api(payload.value)
    case None => Err(TransportError(start))
    case Some(filings) => Ok(filings)
  }

  /** A DataFrame column filled from the API, and the JSON key it is read from. */
  datatype Source = Source(column: string, key: string)

  const CikColumn := "CIK"
  const NameColumn := "Company Name"
  const UrlColumn := "Filing Details URL"

  /** The API columns the extractor knows, in the order it fills them. */
  const Sources := [
    Source(CikColumn, "cik"),
    Source(NameColumn, "companyName"),
    Source(UrlColumn, "linkToFilingDetails")]

  /** Copy one field when its column is selected; a selected field the record
      lacks raises `KeyError`. */
  function CopyColumn(cells: map<string, string>, rec: Record, columns: seq<string>, s: Source): Result<map<string, string>>
  {
    if s.column !in columns then Ok(cells)
    else if s.key !in rec then Err(KeyError(s.key))
    else Ok(cells[s.column := rec[s.key]])
  }

  /** The `new_data` row for one filing. */
  function BuildRow(rec: Record, columns: seq<string>): Result<map<string, string>>
  {
    var withCik :- CopyColumn(map[], rec, columns, Sources[0]);
    var withName :- CopyColumn(withCik, rec, columns, Sources[1]);
    CopyColumn(withName, rec, columns, Sources[2])
  }

  /** A row holds exactly the selected known columns, each read from its
      JSON key, and nothing else; building it fails exactly when a selected
      column's key is missing from the record. */
  lemma BuildRowFields(rec: Record, columns: seq<string>)
    ensures BuildRow(rec, columns).Ok? <==> forall s :: s in Sources && s.column in columns ==> s.key in rec
    ensures var r := BuildRow(rec, columns);
      r.Ok? ==> forall c :: c in r.value <==> c in columns && c in [CikColumn, NameColumn, UrlColumn]
    ensures var r := BuildRow(rec, columns);
      r.Ok? ==> forall s :: s in Sources && s.column in columns ==> r.value[s.column] == rec[s.key]
  {
  }

  const FormTypeKeyOfRecord := "formType"

  /** The client-side form-type filter: with no form type everything is kept;
      otherwise only an exact match is, because the API also answers `'D'`
      with `'10-D'`. Reading `formType` from a record without it raises. */
  function Keep(rec: Record, formType: Option<string>): Result<bool>
  {
    if formType.None? then Ok(true)
    else if FormTypeKeyOfRecord !in rec then Err(KeyError(FormTypeKeyOfRecord))
    else Ok(formType.value == rec[FormTypeKeyOfRecord])
  }

  /** The reference filter: the records whose form type equals the wanted
      one exactly, in their original order. */
  function Matching(records: seq<Record>, formType: Option<string>): (m: seq<Record>)
    ensures |m| <= |records|
    ensures formType.Some? ==> forall r :: r in m ==> FormTypeKeyOfRecord in r && r[FormTypeKeyOfRecord] == formType.value
  {
    if |records| == 0 then []
    else
      var head := records[0];
      var keep := formType.None? || (FormTypeKeyOfRecord in head && head[FormTypeKeyOfRecord] == formType.value);
      (if keep then [head] else []) + Matching(records[1..], formType)
  }

  /** When every record is of the wanted form type (or no form type is
      wanted), the filter keeps them all. */
  lemma {:induction false} MatchingAll(records: seq<Record>, formType: Option<string>)
    requires forall i :: 0 <= i < |records| ==> Keep(records[i], formType) == Ok(true)
    ensures Matching(records, formType) == records
    decreases |records|
  {
    if |records| > 0 {
      assert forall i :: 0 <= i < |records| - 1 ==> records[1..][i] == records[i + 1];
      MatchingAll(records[1..], formType);
      assert records == [records[0]] + records[1..];
    }
  }

  /** A record that stops the loop: its form type cannot be read, or it is
      kept and a selected field cannot be read. */
  predicate Unreadable(rec: Record, formType: Option<string>, columns: seq<string>)
  {
    Keep(rec, formType).Err? || (Keep(rec, formType) == Ok(true) && BuildRow(rec, columns).Err?)
  }

  /** The inner `for` loop over one page: one unflagged row per kept
      filing, in page order; the first unreadable record raises. */
  function ProcessPage(page: seq<Record>, formType: Option<string>, columns: seq<string>): (r: Result<seq<Row>>)
    ensures r.Ok? ==> |r.value| <= |page|
    decreases |page|
  {
    if |page| == 0 then Ok([])
    else
      var keep :- Keep(page[0], formType);
      if !keep then ProcessPage(page[1..], formType, columns)
      else
        var cells :- BuildRow(page[0], columns);
        var rest :- ProcessPage(page[1..], formType, columns);
        Ok([Row(cells, None)] + rest)
  }

  /** The loop over a page fails exactly when some record on it is unreadable. */
  lemma {:induction false} ProcessPageFails(page: seq<Record>, formType: Option<string>, columns: seq<string>)
    ensures ProcessPage(page, formType, columns).Ok? <==> forall i :: 0 <= i < |page| ==> !Unreadable(page[i], formType, columns)
    decreases |page|
  {
    if |page| > 0 {
      ProcessPageFails(page[1..], formType, columns);
      assert forall i :: 1 <= i < |page| ==> page[i] == page[1..][i - 1];
    }
  }

  /** When it succeeds, the loop over a page appends one unflagged row per
      exactly-matching record, in page order, holding that record's
      selected fields. */
  lemma {:induction false} ProcessPageRows(page: seq<Record>, formType: Option<string>, columns: seq<string>)
    requires ProcessPage(page, formType, columns).Ok?
    ensures var rows := ProcessPage(page, formType, columns).value;
      && |rows| == |Matching(page, formType)|
      && forall i :: 0 <= i < |rows| ==>
           rows[i].flag.None? && BuildRow(Matching(page, formType)[i], columns) == Ok(rows[i].cells)
    decreases |page|
  {
    if |page| > 0 {
      var tail := ProcessPage(page[1..], formType, columns);
      var keep := Keep(page[0], formType);
      assert keep.Ok?;
      var m := Matching(page[1..], formType);
      if keep.value {
        var cells := BuildRow(page[0], columns);
        assert cells.Ok? && tail.Ok?;
        ProcessPageRows(page[1..], formType, columns);
        var rows := [Row(cells.value, None)] + tail.value;
        assert ProcessPage(page, formType, columns) == Ok(rows);
        var mm := [page[0]] + m;
        assert Matching(page, formType) == mm;
        forall i | 0 <= i < |rows|
          ensures rows[i].flag.None? && BuildRow(mm[i], columns) == Ok(rows[i].cells)
        {
          if i > 0 {
            assert rows[i] == tail.value[i - 1] && mm[i] == m[i - 1];
          }
        }
      } else {
        assert ProcessPage(page, formType, columns) == tail;
        ProcessPageRows(page[1..], formType, columns);
        assert Matching(page, formType) == m;
      }
    }
  }

  /** What the loop accumulates: the rows appended so far and the page
      counter `N` it ends with. */
  datatype Harvest = Harvest(rows: seq<Row>, pages: nat)

  /** `rows` in front of what the rest of the loop gathers; the first failure wins. */
  function Prepend(rows: Result<seq<Row>>, rest: Result<Harvest>): Result<Harvest>
  {
    if rows.Err? then Err(rows.error)
    else if rest.Err? then rest
    else Ok(Harvest(rows.value + rest.value.rows, rest.value.pages))
  }

  /** The requests the loop makes, by page number: page `n` asks for
      `N * 200` onwards. */
  type Fetcher = nat -> Result<seq<Record>>

  function PageRequests(api: Api, query: string): Fetcher
  {
    (n: nat) => RequestPage(api, query, Offset(n))
  }

  /** The `while` loop from page `n` on, given that page's records `active`.
      `fuel` bounds the number of non-empty pages; the original has no such
      bound and loops for as long as the API keeps answering. */
  function Paginate(fetch: Fetcher, formType: Option<string>, columns: seq<string>,
                    active: seq<Record>, n: nat, fuel: nat): (r: Result<Harvest>)
    ensures r.Ok? ==> n <= r.value.pages <= n + fuel
    ensures r.Ok? ==> (r.value.pages == n <==> |active| == 0)
    decreases fuel
  {
    if |active| == 0 then Ok(Harvest([], n))
    else if fuel == 0 then Err(PageLimit)
    else
      Prepend(ProcessPage(active, formType, columns),
              match fetch(n + 1)
              case Err(e) => Err(e)
              case Ok(next) => Paginate(fetch, formType, columns, next, n + 1, fuel - 1))
  }

  /** `mass_extract_from_API`: the first page is fetched unless one is
      already held (`initiated`), the form type is read from the query, and
      the loop runs from page counter 0. */
  function MassExtract(api: Api, query: string, columns: seq<string>,
                       held: Option<seq<Record>>, fuel: nat): Result<Harvest>
  {
    var first :- if held.Some? then Ok(held.value) else RequestPage(api, query, 0);
    var formType :- ParseFormType(query);
    Paginate(PageRequests(api, query), formType, columns, first, 0, fuel)
  }

  /** `pages` are the answers to page numbers `from`, `from + 1`, ..., all
      non-empty, and the page after them is empty. */
  ghost predicate Exhausts(fetch: Fetcher, pages: seq<seq<Record>>, from: nat)
    decreases |pages|
  {
    if |pages| == 0 then fetch(from) == Ok([])
    else fetch(from) == Ok(pages[0]) && |pages[0]| > 0 && Exhausts(fetch, pages[1..], from + 1)
  }

  function Flatten(pages: seq<seq<Record>>): seq<Record>
  {
    if |pages| == 0 then [] else pages[0] + Flatten(pages[1..])
  }

  /** The rows of two lists processed one after the other: the first
      failure wins, otherwise the rows are concatenated. */
  function AppendRows(x: Result<seq<Row>>, y: Result<seq<Row>>): Result<seq<Row>>
  {
    if x.Err? then x else if y.Err? then y else Ok(x.value + y.value)
  }

  /** Processing two pages one after the other is processing them as one. */
  lemma {:induction false} ProcessPageAppend(a: seq<Record>, b: seq<Record>, formType: Option<string>, columns: seq<string>)
    ensures ProcessPage(a + b, formType, columns)
         == AppendRows(ProcessPage(a, formType, columns), ProcessPage(b, formType, columns))
    decreases |a|
  {
    if |a| == 0 {
      assert a + b == b;
      var other := ProcessPage(b, formType, columns);
      if other.Ok? {
        assert [] + other.value == other.value;
      }
    } else {
      var ab := a + b;
      assert ab[0] == a[0];
      assert ab[1..] == a[1..] + b;
      ProcessPageAppend(a[1..], b, formType, columns);
      var tail := ProcessPage(a[1..], formType, columns);
      var other := ProcessPage(b, formType, columns);
      var keep := Keep(a[0], formType);
      var cells := BuildRow(a[0], columns);
      if keep.Ok? && keep.value && cells.Ok? && tail.Ok? && other.Ok? {
        assert [Row(cells.value, None)] + (tail.value + other.value)
            == ([Row(cells.value, None)] + tail.value) + other.value;
      }
    }
  }

  /** One turn of the `while` loop, when the next page arrives: the rows of
      this page, followed by what the rest of the loop appends. */
  lemma PaginateStep(fetch: Fetcher, formType: Option<string>, columns: seq<string>,
                     active: seq<Record>, n: nat, fuel: nat)
    requires |active| > 0 && fuel > 0
    requires fetch(n + 1).Ok?
    ensures Paginate(fetch, formType, columns, active, n, fuel)
         == Prepend(ProcessPage(active, formType, columns),
                    Paginate(fetch, formType, columns, fetch(n + 1).value, n + 1, fuel - 1))
  {
  }

  /** What the loop yields for the rows of all pages and the final counter. */
  function Collected(rows: Result<seq<Row>>, pages: nat): Result<Harvest>
  {
    if rows.Err? then Err(rows.error) else Ok(Harvest(rows.value, pages))
  }

  /** From page `n` on: when the answers from page `n` are `pages`, all
      non-empty, and then an empty one, and the bound allows them, the loop
      appends exactly what processing the concatenated pages gives and ends
      with the counter at `n + |pages|`. */
  lemma {:induction false} PaginateCollects(fetch: Fetcher, formType: Option<string>, columns: seq<string>,
                                            pages: seq<seq<Record>>, n: nat, fuel: nat)
    requires Exhausts(fetch, pages, n)
    requires |pages| <= fuel
    ensures Paginate(fetch, formType, columns, fetch(n).value, n, fuel)
         == Collected(ProcessPage(Flatten(pages), formType, columns), n + |pages|)
    decreases |pages|
  {
    if |pages| > 0 {
      var rest := pages[1..];
      var here := ProcessPage(pages[0], formType, columns);
      var later := ProcessPage(Flatten(rest), formType, columns);
      PaginateStep(fetch, formType, columns, pages[0], n, fuel);
      PaginateCollects(fetch, formType, columns, rest, n + 1, fuel - 1);
      ProcessPageAppend(pages[0], Flatten(rest), formType, columns);
      assert Flatten(pages) == pages[0] + Flatten(rest);
      PrependCollected(here, later, n + |pages|);
    }
  }

  lemma PrependCollected(here: Result<seq<Row>>, later: Result<seq<Row>>, pages: nat)
    ensures Prepend(here, Collected(later, pages)) == Collected(AppendRows(here, later), pages)
  {
  }

  /** `mass_extract_from_API` from scratch: when the API's pages for the
      query are `pages`, all non-empty, followed by an empty one, the run
      fails only if the query's form type cannot be read back or a record is
      unreadable; otherwise it appends exactly the rows of the matching
      records of all pages, in order, and counts `|pages|` pages. */
  lemma MassExtractCollects(api: Api, query: string, columns: seq<string>, pages: seq<seq<Record>>, fuel: nat)
    requires Exhausts(PageRequests(api, query), pages, 0)
    requires |pages| <= fuel
    ensures MassExtract(api, query, columns, None, fuel)
         == match ParseFormType(query)
            case Err(e) => Err(e)
            case Ok(formType) => Collected(ProcessPage(Flatten(pages), formType, columns), |pages|)
  {
    var fetch := PageRequests(api, query);
    assert fetch(0) == RequestPage(api, query, 0);
    match ParseFormType(query)
    case Err(_) =>
    case Ok(formType) =>
      PaginateCollects(fetch, formType, columns, pages, 0, fuel);
  }

  /** Every row the loop appends is a fresh one: its `'Required Data Point?'`
      flag is still unset (NaN). */
  lemma {:induction false} PaginateUnflagged(fetch: Fetcher, formType: Option<string>, columns: seq<string>,
                                             active: seq<Record>, n: nat, fuel: nat)
    requires Paginate(fetch, formType, columns, active, n, fuel).Ok?
    ensures var rows := Paginate(fetch, formType, columns, active, n, fuel).value.rows;
      forall i :: 0 <= i < |rows| ==> rows[i].flag.None?
    decreases fuel
  {
    if |active| > 0 && fuel > 0 {
      var here := ProcessPage(active, formType, columns);
      ProcessPageRows(active, formType, columns);
      var next := fetch(n + 1);
      var rest := Paginate(fetch, formType, columns, next.value, n + 1, fuel - 1);
      PaginateUnflagged(fetch, formType, columns, next.value, n + 1, fuel - 1);
      var rows := here.value + rest.value.rows;
      assert Paginate(fetch, formType, columns, active, n, fuel).value.rows == rows;
      forall i | |here.value| <= i < |rows|
        ensures rows[i].flag.None?
      {
        assert rows[i] == rest.value.rows[i - |here.value|];
      }
    }
  }

  lemma MassExtractUnflagged(api: Api, query: string, columns: seq<string>, held: Option<seq<Record>>, fuel: nat)
    requires MassExtract(api, query, columns, held, fuel).Ok?
    ensures var rows := MassExtract(api, query, columns, held, fuel).value.rows;
      forall i :: 0 <= i < |rows| ==> rows[i].flag.None?
  {
    var first := if held.Some? then Ok(held.value) else RequestPage(api, query, 0);
    PaginateUnflagged(PageRequests(api, query), ParseFormType(query).value, columns, first.value, 0, fuel);
  }
}
