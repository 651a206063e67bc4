/** `parse_filing_documents` as a whole, and the script's run from query to
    final table: `generate_query`, `mass_extract_from_API`,
    `request_filing_data`, `parse_filing_documents` and its finalisation. */
module Extraction {
  import opened Results
  import opened Query
  import opened Table
  import opened Pagination
  import opened Fetch
  import opened Filing

  /** The DataFrame rows after the loop, and the validation messages printed
      on the way, in order. */
  datatype Parsed = Parsed(rows: seq<Row>, warnings: seq<string>)

  function Apply(row: Row, o: Outcome): Row
  {
    match o
    case Skipped => row
    case Committed(r, _) => r
  }

  function Printed(o: Outcome): seq<string>
  {
    if o.Committed? && o.warning.Some? then [o.warning.value] else []
  }

  /** What happens to row `k`: the outcome of its document, or nothing when
      no document is stored under its index. */
  function Visit(rows: seq<Row>, soups: map<nat, Doc>, restrictions: seq<string>,
                 apiColumns: seq<string>, filingColumns: seq<string>, k: nat): Result<Outcome>
    requires k < |rows|
  {
    if k in soups then ProcessDoc(rows[k], soups[k], restrictions, apiColumns, filingColumns)
    else Ok(Skipped)
  }

  /** The loop from row `k` on. Documents are taken in ascending index,
      the order in which a sequential `request_filing_data` stores them;
      the first document that raises ends the run. */
  function ParseFrom(rows: seq<Row>, soups: map<nat, Doc>, restrictions: seq<string>,
                     apiColumns: seq<string>, filingColumns: seq<string>, k: nat): (r: Result<Parsed>)
    requires k <= |rows|
    ensures r.Ok? ==> |r.value.rows| == |rows| - k
    decreases |rows| - k
  {
    if k == |rows| then Ok(Parsed([], []))
    else
      var o :- Visit(rows, soups, restrictions, apiColumns, filingColumns, k);
      var rest :- ParseFrom(rows, soups, restrictions, apiColumns, filingColumns, k + 1);
      Ok(Parsed([Apply(rows[k], o)] + rest.rows, Printed(o) + rest.warnings))
  }

  /** The loop of `parse_filing_documents` (lines 236-298), before the
      table is finalised. Its argument is what `request_filing_data`
      returns, so every key is a row position. */
  function ParseFilingDocuments(rows: seq<Row>, soups: map<nat, Doc>, restrictions: seq<string>,
                                apiColumns: seq<string>, filingColumns: seq<string>): Result<Parsed>
    requires forall k :: k in soups ==> k < |rows|
  {
    ParseFrom(rows, soups, restrictions, apiColumns, filingColumns, 0)
  }

  /** The loop fails exactly when some stored document raises. */
  lemma {:induction false} ParseFromFails(rows: seq<Row>, soups: map<nat, Doc>, restrictions: seq<string>,
                                          apiColumns: seq<string>, filingColumns: seq<string>, k: nat)
    requires k <= |rows|
    ensures ParseFrom(rows, soups, restrictions, apiColumns, filingColumns, k).Ok? <==>
      forall i :: k <= i < |rows| ==> Visit(rows, soups, restrictions, apiColumns, filingColumns, i).Ok?
    decreases |rows| - k
  {
    if k < |rows| {
      ParseFromFails(rows, soups, restrictions, apiColumns, filingColumns, k + 1);
    }
  }

  /** When the loop succeeds, row `i` is what its document made of it, and
      every other row is untouched. */
  lemma {:induction false} ParseFromRows(rows: seq<Row>, soups: map<nat, Doc>, restrictions: seq<string>,
                                         apiColumns: seq<string>, filingColumns: seq<string>, k: nat)
    requires k <= |rows|
    requires ParseFrom(rows, soups, restrictions, apiColumns, filingColumns, k).Ok?
    ensures var out := ParseFrom(rows, soups, restrictions, apiColumns, filingColumns, k).value.rows;
      forall i :: k <= i < |rows| ==>
        Visit(rows, soups, restrictions, apiColumns, filingColumns, i).Ok?
        && out[i - k] == Apply(rows[i], Visit(rows, soups, restrictions, apiColumns, filingColumns, i).value)
    decreases |rows| - k
  {
    if k < |rows| {
      ParseFromRows(rows, soups, restrictions, apiColumns, filingColumns, k + 1);
      var o := Visit(rows, soups, restrictions, apiColumns, filingColumns, k).value;
      var rest := ParseFrom(rows, soups, restrictions, apiColumns, filingColumns, k + 1).value.rows;
      var out := [Apply(rows[k], o)] + rest;
      assert ParseFrom(rows, soups, restrictions, apiColumns, filingColumns, k).value.rows == out;
      forall j | 1 <= j < |out|
        ensures out[j] == rest[j - 1]
      {
      }
    }
  }

  /** Row `i` has a document, and processing it printed `w`. */
  predicate WarnsAt(rows: seq<Row>, soups: map<nat, Doc>, restrictions: seq<string>,
                    apiColumns: seq<string>, filingColumns: seq<string>, i: nat, w: string)
  {
    && i < |rows| && i in soups
    && var v := Visit(rows, soups, restrictions, apiColumns, filingColumns, i);
    && v.Ok? && Printed(v.value) == [w]
  }

  /** The messages printed by a successful loop are those of the
      documents that were committed with a validation message, at most one
      per row. */
  lemma {:induction false} ParseFromWarnings(rows: seq<Row>, soups: map<nat, Doc>, restrictions: seq<string>,
                                             apiColumns: seq<string>, filingColumns: seq<string>, k: nat)
    requires k <= |rows|
    requires ParseFrom(rows, soups, restrictions, apiColumns, filingColumns, k).Ok?
    ensures var ws := ParseFrom(rows, soups, restrictions, apiColumns, filingColumns, k).value.warnings;
      && |ws| <= |rows| - k
      && forall w :: w in ws <==>
           exists i :: k <= i && WarnsAt(rows, soups, restrictions, apiColumns, filingColumns, i, w)
    decreases |rows| - k
  {
    if k < |rows| {
      ParseFromWarnings(rows, soups, restrictions, apiColumns, filingColumns, k + 1);
      var v := Visit(rows, soups, restrictions, apiColumns, filingColumns, k);
      var rest := ParseFrom(rows, soups, restrictions, apiColumns, filingColumns, k + 1).value.warnings;
      var ws := ParseFrom(rows, soups, restrictions, apiColumns, filingColumns, k).value.warnings;
      assert v.Ok? && ws == Printed(v.value) + rest;
      forall w
        ensures w in ws <==> exists i :: k <= i && WarnsAt(rows, soups, restrictions, apiColumns, filingColumns, i, w)
      {
        if w in ws && w !in rest {
          assert Printed(v.value) == [w];
          assert k in soups;
          assert WarnsAt(rows, soups, restrictions, apiColumns, filingColumns, k, w);
        }
        if exists i :: k <= i && WarnsAt(rows, soups, restrictions, apiColumns, filingColumns, i, w) {
          var i :| k <= i && WarnsAt(rows, soups, restrictions, apiColumns, filingColumns, i, w);
          if i == k {
            assert w in Printed(v.value);
          } else {
            assert w in rest;
          }
        }
      }
    }
  }

  /** Starting from fresh rows, a successful loop flags row `i` exactly when
      a document is stored under `i` and it passes the listed restrictions;
      every row left unflagged is as it was. */
  lemma ParseFlags(rows: seq<Row>, soups: map<nat, Doc>, restrictions: seq<string>,
                   apiColumns: seq<string>, filingColumns: seq<string>)
    requires forall k :: k in soups ==> k < |rows|
    requires forall i :: 0 <= i < |rows| ==> rows[i].flag.None?
    requires ParseFilingDocuments(rows, soups, restrictions, apiColumns, filingColumns).Ok?
    ensures var out := ParseFilingDocuments(rows, soups, restrictions, apiColumns, filingColumns).value.rows;
      && |out| == |rows|
      && (forall i :: 0 <= i < |rows| ==>
            (Flagged(out[i]) <==> i in soups && Admit(soups[i], restrictions) == Ok(true)))
      && (forall i :: 0 <= i < |rows| && !Flagged(out[i]) ==> out[i] == rows[i])
  {
    ParseFromRows(rows, soups, restrictions, apiColumns, filingColumns, 0);
    var out := ParseFilingDocuments(rows, soups, restrictions, apiColumns, filingColumns).value.rows;
    forall i | 0 <= i < |rows|
      ensures Flagged(out[i]) <==> i in soups && Admit(soups[i], restrictions) == Ok(true)
      ensures !Flagged(out[i]) ==> out[i] == rows[i]
    {
      var v := Visit(rows, soups, restrictions, apiColumns, filingColumns, i);
      assert v.Ok? && out[i - 0] == Apply(rows[i], v.value);
      if i in soups {
        ProcessDocMeaning(rows[i], soups[i], restrictions, apiColumns, filingColumns);
      }
    }
  }

  /** After finalisation the table is the flagged rows, in their original
      order and renumbered: its entry `j` is the `j`-th row, by index, whose
      document was stored and passed the restrictions. Rows without a
      document are gone. */
  lemma FinalTable(rows: seq<Row>, soups: map<nat, Doc>, restrictions: seq<string>,
                   apiColumns: seq<string>, filingColumns: seq<string>)
    requires forall k :: k in soups ==> k < |rows|
    requires forall i :: 0 <= i < |rows| ==> rows[i].flag.None?
    requires ParseFilingDocuments(rows, soups, restrictions, apiColumns, filingColumns).Ok?
    ensures var out := ParseFilingDocuments(rows, soups, restrictions, apiColumns, filingColumns).value.rows;
      var ps := FlaggedPositions(out, 0);
      && Ascending(ps)
      && (forall k :: k in ps <==> 0 <= k < |rows| && k in soups && Admit(soups[k], restrictions) == Ok(true))
      && |Finalize(out)| == |ps|
      && (forall j :: 0 <= j < |ps| ==> Finalize(out)[j] == out[ps[j]].cells)
  {
    var out := ParseFilingDocuments(rows, soups, restrictions, apiColumns, filingColumns).value.rows;
    ParseFlags(rows, soups, restrictions, apiColumns, filingColumns);
    FlaggedPositionsFlagged(out, 0);
    FlaggedPositionsComplete(out, 0);
    FlaggedPositionsAscending(out, 0);
    FinalizeSelects(out);
  }

  /** `self.df['Filing Details URL'].tolist()`: the column must exist; a row
      that never had the field holds NaN, here `None`. */
  function UrlList(rows: seq<Row>, columns: seq<string>): (r: Result<seq<Option<string>>>)
    ensures r.Err? <==> UrlColumn !in columns
    ensures r.Err? ==> r.error == KeyError(UrlColumn)
    ensures r.Ok? ==> |r.value| == |rows|
    ensures r.Ok? ==> forall i :: 0 <= i < |rows| ==>
      && (r.value[i].Some? <==> UrlColumn in rows[i].cells)
      && (r.value[i].Some? ==> r.value[i].value == rows[i].cells[UrlColumn])
  {
    if UrlColumn !in columns then Err(KeyError(UrlColumn))
    else Ok(seq(|rows|, i requires 0 <= i < |rows| =>
                if UrlColumn in rows[i].cells then Some(rows[i].cells[UrlColumn]) else None))
  }

  /** `requests.get(url).text` parsed with BeautifulSoup, for a locator that
      may be NaN: fetching NaN raises, and so does a failed request
      (`web` answers `None`). */
  function Download(web: string -> Option<Doc>): Option<string> -> Option<Doc>
  {
    (loc: Option<string>) => if loc.None? then None else web(loc.value)
  }

  /** The stages of the script's run, up to the loop of
      `parse_filing_documents`. */
  function Extract(api: Api, args: QueryArgs, apiColumns: seq<string>, filingColumns: seq<string>,
                   restrictions: seq<string>, web: string -> Option<Doc>, fuel: nat): Result<Parsed>
  {
    var harvest :- MassExtract(api, GenerateQuery(args), apiColumns, None, fuel);
    var urls :- UrlList(harvest.rows, apiColumns + filingColumns);
    var soups := Indexed(urls, Download(web));
    ParseFilingDocuments(harvest.rows, soups, restrictions, apiColumns, filingColumns)
  }

  /** The script's run: query, mass extraction, fetching, parsing and
      finalisation. */
  function Run(api: Api, args: QueryArgs, apiColumns: seq<string>, filingColumns: seq<string>,
               restrictions: seq<string>, web: string -> Option<Doc>, fuel: nat): Result<seq<map<string, string>>>
  {
    var parsed :- Extract(api, args, apiColumns, filingColumns, restrictions, web, fuel);
    Ok(Finalize(parsed.rows))
  }

  /** Of two rows with the same filing URL, only the first can reach the
      final table: the later one's document is stored under the earlier
      index, so the later row is never flagged and is dropped. */
  lemma DuplicateUrlDropped(rows: seq<Row>, columns: seq<string>, web: string -> Option<Doc>,
                            restrictions: seq<string>, apiColumns: seq<string>, filingColumns: seq<string>,
                            i: nat, j: nat)
    requires UrlList(rows, columns).Ok?
    requires i < j < |rows| && UrlList(rows, columns).value[i] == UrlList(rows, columns).value[j]
    requires forall k :: 0 <= k < |rows| ==> rows[k].flag.None?
    requires ParseFilingDocuments(rows, Indexed(UrlList(rows, columns).value, Download(web)),
                                  restrictions, apiColumns, filingColumns).Ok?
    ensures var out := ParseFilingDocuments(rows, Indexed(UrlList(rows, columns).value, Download(web)),
                                            restrictions, apiColumns, filingColumns).value.rows;
      !Flagged(out[j]) && j !in FlaggedPositions(out, 0)
  {
    var urls := UrlList(rows, columns).value;
    var soups := Indexed(urls, Download(web));
    DuplicateCollapses(urls, Download(web), i, j);
    ParseFlags(rows, soups, restrictions, apiColumns, filingColumns);
    var out := ParseFilingDocuments(rows, soups, restrictions, apiColumns, filingColumns).value.rows;
    FlaggedPositionsFlagged(out, 0);
  }

  /** End to end: when the run succeeds, the final table is, in order, the
      rows of the extracted filings whose document could be fetched and
      passed the restrictions. */
  lemma RunSelects(api: Api, args: QueryArgs, apiColumns: seq<string>, filingColumns: seq<string>,
                   restrictions: seq<string>, web: string -> Option<Doc>, fuel: nat)
    requires Run(api, args, apiColumns, filingColumns, restrictions, web, fuel).Ok?
    ensures var harvest := MassExtract(api, GenerateQuery(args), apiColumns, None, fuel).value;
      var urls := UrlList(harvest.rows, apiColumns + filingColumns).value;
      var soups := Indexed(urls, Download(web));
      var out := Extract(api, args, apiColumns, filingColumns, restrictions, web, fuel).value.rows;
      var ps := FlaggedPositions(out, 0);
      && Ascending(ps)
      && (forall k :: k in ps <==> 0 <= k < |harvest.rows| && k in soups && Admit(soups[k], restrictions) == Ok(true))
      && Run(api, args, apiColumns, filingColumns, restrictions, web, fuel).value == Finalize(out)
      && |Finalize(out)| == |ps|
      && (forall j :: 0 <= j < |ps| ==> Finalize(out)[j] == out[ps[j]].cells)
  {
    var harvest := MassExtract(api, GenerateQuery(args), apiColumns, None, fuel).value;
    MassExtractUnflagged(api, GenerateQuery(args), apiColumns, None, fuel);
    var urls := UrlList(harvest.rows, apiColumns + filingColumns).value;
    var soups := Indexed(urls, Download(web));
    FinalTable(harvest.rows, soups, restrictions, apiColumns, filingColumns);
  }
}
