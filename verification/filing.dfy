/** One pass of the loop in `parse_filing_documents`: the restrictions that
    may skip a document, the fields read from it, the CIK cross-check, and
    the write-back into the document's DataFrame row. A filing document is
    abstracted to the values the BeautifulSoup lookups reach; a landmark the
    document lacks is `None`, and the lookup chained on it raises. */
module Filing {
  import opened Results
  import opened Decimal
  import opened Table
  import opened Pagination

  /** What the lookups of a filing document see.
      - `yearSpans`: the texts of the `FormData` spans of the "Year of
        Incorporation/Organization" table (`None`: no such table).
      - `industryLabels`: for each `FormData` span of the "Industry Group,
        Banking & Financial Services" table, the text of the `FormText` cell
        of its row (`None` for a span whose row has none).
      - `entityCells`: the texts of the cells of the row holding the first
        `FormData` span of the "Table with Multiple boxes" inside "Issuer
        Identity Information" (`None`: a landmark on that path is missing).
      - `cityRows`: for each row of the "Principal Place of Business and
        Contact Information" table, the text of its first cell.
      - `identityRows`: for each row of the "Issuer Identity Information"
        table, the text of its first link. */
  datatype Doc = Doc(
    yearSpans: Option<seq<string>>,
    industryLabels: Option<seq<Option<string>>>,
    entityCells: Option<seq<string>>,
    cityRows: Option<seq<Option<string>>>,
    identityRows: Option<seq<Option<string>>>)

  const YearRestriction := "year_of_incorp=2020"
  const FundRestriction := "investment_group=pooled_investment_fund, no other"

  const YearTable := "Year of Incorporation/Organization"
  const IndustryTable := "Industry Group, Banking & Financial Services"
  const IdentityTable := "Issuer Identity Information"
  const PlaceTable := "Principal Place of Business and Contact Information"
  const LabelCell := "td.FormText"

  const PooledFund := "Pooled Investment Fund"
  const OtherFund := "Other Investment Fund"

  const EntityTypeColumn := "Entity Type"
  const FundTypeColumn := "Pooled Investment Fund Type"
  const CityColumn := "Principal Place of Business (City)"

  /** The year restriction: the last `FormData` span of the year table reads
      `2020`. */
  function YearPasses(d: Doc): Result<bool>
  {
    match d.yearSpans
    case None => Err(AttributeError(YearTable))
    case Some(spans) =>
      if |spans| == 0 then Err(IndexError("find_all(\"span\")[-1]"))
      else Ok(spans[|spans| - 1] == "2020")
  }

  /** The list comprehension over the industry spans: every span's row must
      have a label cell, or `.text` is taken of `None`. */
  function LabelTexts(labels: seq<Option<string>>): (r: Result<seq<string>>)
    ensures r.Ok? <==> forall i :: 0 <= i < |labels| ==> labels[i].Some?
    ensures r.Ok? ==> |r.value| == |labels| && forall i :: 0 <= i < |labels| ==> labels[i] == Some(r.value[i])
    ensures r.Err? ==> r.error == AttributeError(LabelCell)
  {
    if |labels| == 0 then Ok([])
    else match labels[0]
      case None => Err(AttributeError(LabelCell))
      case Some(t) =>
        var rest :- LabelTexts(labels[1..]);
        Ok([t] + rest)
  }

  /** The pooled-fund restriction: at least two industry spans, the first
      labelled as a pooled investment fund and the second not as another
      investment fund. Fewer than two spans skips the document before any
      label is read. */
  function FundPasses(d: Doc): Result<bool>
  {
    match d.industryLabels
    case None => Err(AttributeError(IndustryTable))
    case Some(labels) =>
      if |labels| < 2 then Ok(false)
      else
        var text :- LabelTexts(labels);
        Ok(text[0] == PooledFund && text[1] != OtherFund)
  }

  /** Both restrictions, year first, each only when its name is listed;
      `Ok(false)` is `continue`. Other names in the list are ignored. */
  function Admit(d: Doc, restrictions: seq<string>): Result<bool>
  {
    var yearOk :- if YearRestriction in restrictions then YearPasses(d) else Ok(true);
    if !yearOk then Ok(false)
    else if FundRestriction in restrictions then FundPasses(d)
    else Ok(true)
  }

  /** The year test in terms of the document. */
  predicate YearIs2020(d: Doc)
  {
    d.yearSpans.Some? && |d.yearSpans.value| > 0 && d.yearSpans.value[|d.yearSpans.value| - 1] == "2020"
  }

  /** The pooled-fund test in terms of the document. */
  predicate PooledNotOther(d: Doc)
  {
    && d.industryLabels.Some?
    && var labels := d.industryLabels.value;
    && |labels| >= 2
    && (forall i :: 0 <= i < |labels| ==> labels[i].Some?)
    && labels[0] == Some(PooledFund)
    && labels[1] != Some(OtherFund)
  }

  /** A document is admitted exactly when every listed restriction holds of
      it; which restrictions apply depends only on the names being listed,
      not on their order. */
  lemma AdmitMeaning(d: Doc, restrictions: seq<string>)
    ensures Admit(d, restrictions) == Ok(true) <==>
      (YearRestriction in restrictions ==> YearIs2020(d))
      && (FundRestriction in restrictions ==> PooledNotOther(d))
  {
    if FundRestriction in restrictions && d.industryLabels.Some? && |d.industryLabels.value| >= 2 {
      var labels := d.industryLabels.value;
      var r := LabelTexts(labels);
      if r.Ok? {
        assert labels[0] == Some(r.value[0]) && labels[1] == Some(r.value[1]);
      }
    }
  }

  /** The restrictions run year first: a document whose year table cannot be
      read raises even when the pooled-fund test would have skipped it, and
      one whose year is not 2020 is skipped before its industry table is
      looked at. */
  lemma YearFirst(d: Doc, restrictions: seq<string>)
    requires YearRestriction in restrictions
    ensures YearPasses(d).Err? ==> Admit(d, restrictions) == Err(YearPasses(d).error)
    ensures YearPasses(d) == Ok(false) ==> Admit(d, restrictions) == Ok(false)
  {
  }

  /** Which documents make the restrictions raise rather than skip: a
      missing or empty year table when the year restriction is listed;
      and, once the year passes or is not restricted, a missing industry
      table, or two or more industry spans one of which has no label cell,
      when the fund restriction is listed. */
  lemma AdmitFails(d: Doc, restrictions: seq<string>)
    ensures Admit(d, restrictions).Err? <==>
      (YearRestriction in restrictions && (d.yearSpans.None? || |d.yearSpans.value| == 0))
      || ((YearRestriction !in restrictions || YearIs2020(d))
          && FundRestriction in restrictions
          && (d.industryLabels.None?
              || (|d.industryLabels.value| >= 2
                  && exists i :: 0 <= i < |d.industryLabels.value| && d.industryLabels.value[i].None?)))
    ensures YearRestriction in restrictions && d.yearSpans.None? ==>
      Admit(d, restrictions) == Err(AttributeError(YearTable))
    ensures (YearRestriction !in restrictions || YearIs2020(d)) && FundRestriction in restrictions
            && d.industryLabels.None? ==>
      Admit(d, restrictions) == Err(AttributeError(IndustryTable))
    ensures (YearRestriction !in restrictions || YearIs2020(d)) && FundRestriction in restrictions
            && d.industryLabels.Some? && |d.industryLabels.value| >= 2
            && (exists i :: 0 <= i < |d.industryLabels.value| && d.industryLabels.value[i].None?) ==>
      Admit(d, restrictions) == Err(AttributeError(LabelCell))
  {
  }

  /** Fewer than two industry spans skip the document before any label is
      read, whether or not the spans have label cells. */
  lemma FewSpansSkipped(d: Doc, restrictions: seq<string>)
    ensures (YearRestriction !in restrictions || YearIs2020(d)) && FundRestriction in restrictions
            && d.industryLabels.Some? && |d.industryLabels.value| < 2 ==>
      Admit(d, restrictions) == Ok(false)
  {
  }

  /** `Entity Type`: the last cell of the row holding the entity-type box. */
  function EntityType(d: Doc): Result<string>
  {
    match d.entityCells
    case None => Err(AttributeError(IdentityTable))
    case Some(cells) =>
      if |cells| == 0 then Err(IndexError("find_all(\"td\")[-1]"))
      else Ok(cells[|cells| - 1])
  }

  /** `Pooled Investment Fund Type`: the label of the second industry span. */
  function FundType(d: Doc): Result<string>
  {
    match d.industryLabels
    case None => Err(AttributeError(IndustryTable))
    case Some(labels) =>
      var text :- LabelTexts(labels);
      if |text| < 2 then Err(IndexError("text[1]"))
      else Ok(text[1])
  }

  /** `Principal Place of Business (City)`: the first cell of the last row
      of the address table. */
  function City(d: Doc): Result<string>
  {
    match d.cityRows
    case None => Err(AttributeError(PlaceTable))
    case Some(rows) =>
      if |rows| == 0 then Err(IndexError("find_all(\"tr\")[-1]"))
      else match rows[|rows| - 1]
        case None => Err(AttributeError("td"))
        case Some(t) => Ok(t)
  }

  /** Store a field in `new_data` when its column is wanted. */
  function AddField(fields: map<string, string>, wanted: bool, column: string, v: Result<string>): Result<map<string, string>>
  {
    if !wanted then Ok(fields)
    else
      var x :- v;
      Ok(fields[column := x])
  }

  /** `new_data`: the known filing columns that were asked for, read in the
      fixed order entity type, fund type, city. */
  function ExtractFields(d: Doc, filingColumns: seq<string>): Result<map<string, string>>
  {
    var f1 :- AddField(map[], EntityTypeColumn in filingColumns, EntityTypeColumn, EntityType(d));
    var f2 :- AddField(f1, FundTypeColumn in filingColumns, FundTypeColumn, FundType(d));
    AddField(f2, CityColumn in filingColumns, CityColumn, City(d))
  }

  predicate KnownField(c: string)
  {
    c == EntityTypeColumn || c == FundTypeColumn || c == CityColumn
  }

  /** `new_data` holds exactly the known columns that were asked for, each
      read from its place in the document; reading fails exactly when a
      wanted field cannot be read. */
  lemma ExtractFieldsMeaning(d: Doc, filingColumns: seq<string>)
    ensures ExtractFields(d, filingColumns).Ok? <==>
      (EntityTypeColumn in filingColumns ==> EntityType(d).Ok?)
      && (FundTypeColumn in filingColumns ==> FundType(d).Ok?)
      && (CityColumn in filingColumns ==> City(d).Ok?)
    ensures ExtractFields(d, filingColumns).Ok? ==>
      var fields := ExtractFields(d, filingColumns).value;
      && (forall c :: c in fields <==> KnownField(c) && c in filingColumns)
      && (EntityTypeColumn in fields ==> fields[EntityTypeColumn] == d.entityCells.value[|d.entityCells.value| - 1])
      && (FundTypeColumn in fields ==> d.industryLabels.value[1] == Some(fields[FundTypeColumn]))
      && (CityColumn in fields ==> d.cityRows.value[|d.cityRows.value| - 1] == Some(fields[CityColumn]))
  {
    if ExtractFields(d, filingColumns).Ok? && FundTypeColumn in filingColumns {
      var text := LabelTexts(d.industryLabels.value);
      assert d.industryLabels.value[1] == Some(text.value[1]);
    }
  }

  /** `int(...)` of a text, or the `ValueError` it raises. */
  function ToInt(text: string): Result<int>
  {
    match ParseInt(text)
    case None => Err(ValueError(text))
    case Some(v) => Ok(v)
  }

  /** The CIK printed in the document: the first link in the third row of
      the issuer table. */
  function EmbeddedCik(d: Doc): Result<string>
  {
    match d.identityRows
    case None => Err(AttributeError(IdentityTable))
    case Some(rows) =>
      if |rows| < 3 then Err(IndexError("find_all(\"tr\")[2]"))
      else match rows[2]
        case None => Err(AttributeError("a"))
        case Some(t) => Ok(t)
  }

  /** The validation of lines 290-293, when `CIK` is an API column: the
      document's CIK and the row's CIK are compared as integers. A mismatch
      only yields the message that is printed; `None` means nothing is
      printed. A row cell that was never written is NaN: `int` of it raises
      `ValueError` and concatenating it raises `TypeError`. */
  function CrossCheck(d: Doc, cells: map<string, string>, apiColumns: seq<string>, columns: seq<string>): Result<Option<string>>
  {
    if CikColumn !in apiColumns then Ok(None)
    else
      var embeddedText :- EmbeddedCik(d);
      var embedded :- ToInt(embeddedText);
      var listed :- if CikColumn in cells then ToInt(cells[CikColumn]) else Err(ValueError("nan"));
      if embedded == listed then Ok(None)
      else if NameColumn !in columns then Err(KeyError(NameColumn))
      else if NameColumn !in cells then Err(TypeError(NameColumn))
      else Ok(Some("validation failed: " + cells[NameColumn]))
  }

  /** The check only ever prints a message when `CIK` is an API column and
      the two CIKs differ as integers, and the message names the company;
      it is silent exactly when both CIKs can be read and agree. */
  lemma CrossCheckMeaning(d: Doc, cells: map<string, string>, apiColumns: seq<string>, columns: seq<string>)
    ensures CikColumn !in apiColumns ==> CrossCheck(d, cells, apiColumns, columns) == Ok(None)
    ensures var r := CrossCheck(d, cells, apiColumns, columns);
      CikColumn in apiColumns && r == Ok(None) <==>
        && CikColumn in apiColumns
        && EmbeddedCik(d).Ok? && CikColumn in cells
        && ParseInt(EmbeddedCik(d).value).Some? && ParseInt(cells[CikColumn]).Some?
        && ParseInt(EmbeddedCik(d).value).value == ParseInt(cells[CikColumn]).value
    ensures var r := CrossCheck(d, cells, apiColumns, columns);
      r.Ok? && r.value.Some? ==>
        && CikColumn in apiColumns && NameColumn in columns && NameColumn in cells
        && r.value.value == "validation failed: " + cells[NameColumn]
        && ParseInt(EmbeddedCik(d).value).value != ParseInt(cells[CikColumn]).value
    ensures
      && CikColumn in apiColumns
      && EmbeddedCik(d).Ok? && CikColumn in cells
      && ParseInt(EmbeddedCik(d).value).Some? && ParseInt(cells[CikColumn]).Some?
      && ParseInt(EmbeddedCik(d).value).value != ParseInt(cells[CikColumn]).value
      && NameColumn in columns && NameColumn in cells
      ==> CrossCheck(d, cells, apiColumns, columns) == Ok(Some("validation failed: " + cells[NameColumn]))
  {
  }

  /** A mismatch is not harmless when the company name cannot be printed:
      without a `Company Name` column `df.loc[index]['Company Name']`
      raises `KeyError`, and with a NaN name the concatenation raises
      `TypeError`. */
  lemma MismatchRaises(d: Doc, cells: map<string, string>, apiColumns: seq<string>, columns: seq<string>)
    requires CikColumn in apiColumns && EmbeddedCik(d).Ok? && CikColumn in cells
    requires ParseInt(EmbeddedCik(d).value).Some? && ParseInt(cells[CikColumn]).Some?
    requires ParseInt(EmbeddedCik(d).value).value != ParseInt(cells[CikColumn]).value
    ensures NameColumn !in columns ==> CrossCheck(d, cells, apiColumns, columns) == Err(KeyError(NameColumn))
    ensures NameColumn in columns && NameColumn !in cells ==> CrossCheck(d, cells, apiColumns, columns) == Err(TypeError(NameColumn))
  {
  }

  /** A CIK written with leading zeros in the document passes the check
      against the same number in the row: `int` drops the zeros. */
  lemma LeadingZerosMatch(d: Doc, cells: map<string, string>, apiColumns: seq<string>, columns: seq<string>, zeros: nat, n: nat)
    requires EmbeddedCik(d) == Ok(Zeros(zeros) + NatToText(n))
    requires CikColumn in cells && cells[CikColumn] == NatToText(n)
    ensures CrossCheck(d, cells, apiColumns, columns) == Ok(None)
  {
    ParseIgnoresLeadingZeros(zeros, n);
    ParseIgnoresLeadingZeros(0, n);
    assert Zeros(0) + NatToText(n) == NatToText(n);
  }

  /** The write-back loop `self.df[column][index] = new_data[column]` over
      the filing columns, in order; a column with no value in `new_data`
      raises `KeyError`. */
  function Fill(cells: map<string, string>, fields: map<string, string>, filingColumns: seq<string>): Result<map<string, string>>
    decreases |filingColumns|
  {
    if |filingColumns| == 0 then Ok(cells)
    else if filingColumns[0] !in fields then Err(KeyError(filingColumns[0]))
    else Fill(cells[filingColumns[0] := fields[filingColumns[0]]], fields, filingColumns[1..])
  }

  /** Filling succeeds exactly when every filing column has a value, and
      then overwrites just those columns of the row with their values;
      otherwise it fails on the first column that has none. */
  lemma {:induction false} FillMeaning(cells: map<string, string>, fields: map<string, string>, filingColumns: seq<string>)
    ensures Fill(cells, fields, filingColumns).Ok? <==> forall i :: 0 <= i < |filingColumns| ==> filingColumns[i] in fields
    ensures Fill(cells, fields, filingColumns).Ok? ==>
      var r := Fill(cells, fields, filingColumns).value;
      && (forall c :: c in r <==> c in cells || c in filingColumns)
      && (forall c :: c in r ==> r[c] == if c in filingColumns then fields[c] else cells[c])
    ensures Fill(cells, fields, filingColumns).Err? ==>
      exists i :: 0 <= i < |filingColumns| && filingColumns[i] !in fields
        && Fill(cells, fields, filingColumns).error == KeyError(filingColumns[i])
        && forall j :: 0 <= j < i ==> filingColumns[j] in fields
    decreases |filingColumns|
  {
    if |filingColumns| > 0 {
      var c0 := filingColumns[0];
      var rest := filingColumns[1..];
      assert forall c :: c in filingColumns <==> c == c0 || c in rest;
      if c0 in fields {
        FillMeaning(cells[c0 := fields[c0]], fields, rest);
        assert forall i :: 0 < i < |filingColumns| ==> filingColumns[i] == rest[i - 1];
        var r := Fill(cells, fields, filingColumns);
        if r.Err? {
          var i :| 0 <= i < |rest| && rest[i] !in fields && r.error == KeyError(rest[i])
            && forall j :: 0 <= j < i ==> rest[j] in fields;
          assert filingColumns[i + 1] == rest[i];
        }
      } else {
        assert filingColumns[0] !in fields;
      }
    }
  }

  /** What processing one document does to its row. */
  datatype Outcome =
    /** a restriction failed: `continue`, the row is left as it was */
    | Skipped
    /** the row, filled and flagged `'yes'`, and the validation message
        printed on the way, if any */
    | Committed(row: Row, warning: Option<string>)

  /** The body of the loop in `parse_filing_documents` for the document
      stored under a row's index. */
  function ProcessDoc(row: Row, d: Doc, restrictions: seq<string>, apiColumns: seq<string>, filingColumns: seq<string>): Result<Outcome>
  {
    var admitted :- Admit(d, restrictions);
    if !admitted then Ok(Skipped)
    else
      var fields :- ExtractFields(d, filingColumns);
      var warning :- CrossCheck(d, row.cells, apiColumns, apiColumns + filingColumns);
      var cells :- Fill(row.cells, fields, filingColumns);
      Ok(Committed(Row(cells, Some(Yes)), warning))
  }

  /** A document that fails a restriction is never flagged, one that passes
      them and is processed without error is flagged `'yes'`, with its
      filing columns set from `new_data` and every other cell kept. */
  lemma ProcessDocMeaning(row: Row, d: Doc, restrictions: seq<string>, apiColumns: seq<string>, filingColumns: seq<string>)
    requires ProcessDoc(row, d, restrictions, apiColumns, filingColumns).Ok?
    ensures Admit(d, restrictions).Ok?
    ensures var o := ProcessDoc(row, d, restrictions, apiColumns, filingColumns).value;
      && (o.Skipped? <==> Admit(d, restrictions) == Ok(false))
      && (o.Committed? ==>
            && Flagged(o.row)
            && (forall c :: c in o.row.cells <==> c in row.cells || c in filingColumns)
            && (forall c :: c in o.row.cells && c !in filingColumns ==> o.row.cells[c] == row.cells[c])
            && (forall c :: c in filingColumns ==>
                 KnownField(c) && o.row.cells[c] == ExtractFields(d, filingColumns).value[c])
            && o.warning == CrossCheck(d, row.cells, apiColumns, apiColumns + filingColumns).value)
  {
    if Admit(d, restrictions) == Ok(true) {
      var fields := ExtractFields(d, filingColumns).value;
      ExtractFieldsMeaning(d, filingColumns);
      FillMeaning(row.cells, fields, filingColumns);
      forall c | c in filingColumns
        ensures c in fields
      {
        var i :| 0 <= i < |filingColumns| && filingColumns[i] == c;
      }
    }
  }

  /** A CIK mismatch changes nothing but what is printed: a document that
      differs only in its printed CIK, as long as that CIK reads as an
      integer and the company name can be printed, skips or fills the row
      exactly as the original does, and prints the validation message
      exactly when its CIK differs from the row's. */
  lemma MismatchOnlyWarns(row: Row, d: Doc, otherCik: Option<seq<Option<string>>>,
                          restrictions: seq<string>, apiColumns: seq<string>, filingColumns: seq<string>)
    requires ProcessDoc(row, d, restrictions, apiColumns, filingColumns).Ok?
    requires CikColumn in apiColumns ==>
      && EmbeddedCik(d.(identityRows := otherCik)).Ok?
      && ParseInt(EmbeddedCik(d.(identityRows := otherCik)).value).Some?
      && NameColumn in apiColumns + filingColumns && NameColumn in row.cells
    ensures ProcessDoc(row, d.(identityRows := otherCik), restrictions, apiColumns, filingColumns).Ok?
    ensures var o := ProcessDoc(row, d, restrictions, apiColumns, filingColumns).value;
      var o' := ProcessDoc(row, d.(identityRows := otherCik), restrictions, apiColumns, filingColumns).value;
      && o.Skipped? == o'.Skipped?
      && (o.Committed? ==> o.row == o'.row)
    ensures var o' := ProcessDoc(row, d.(identityRows := otherCik), restrictions, apiColumns, filingColumns).value;
      o'.Committed? ==> o'.warning == CrossCheck(d.(identityRows := otherCik), row.cells, apiColumns, apiColumns + filingColumns).value
  {
    var d' := d.(identityRows := otherCik);
    var columns := apiColumns + filingColumns;
    CikIrrelevant(d, otherCik, restrictions, filingColumns);
    if Admit(d, restrictions) == Ok(true) {
      assert CrossCheck(d, row.cells, apiColumns, columns).Ok?;
      OtherCikReadable(d, d', row.cells, apiColumns, columns);
    }
  }

  /** The restrictions and the fields never look at the issuer's CIK. */
  lemma CikIrrelevant(d: Doc, otherCik: Option<seq<Option<string>>>, restrictions: seq<string>, filingColumns: seq<string>)
    ensures Admit(d.(identityRows := otherCik), restrictions) == Admit(d, restrictions)
    ensures ExtractFields(d.(identityRows := otherCik), filingColumns) == ExtractFields(d, filingColumns)
  {
    var d' := d.(identityRows := otherCik);
    assert YearPasses(d') == YearPasses(d) && FundPasses(d') == FundPasses(d);
    assert EntityType(d') == EntityType(d) && FundType(d') == FundType(d) && City(d') == City(d);
  }

  /** When the row's CIK passed the check against one document, the check
      against another whose CIK reads as an integer cannot raise, provided
      the company name can be printed. */
  lemma OtherCikReadable(d: Doc, d': Doc, cells: map<string, string>, apiColumns: seq<string>, columns: seq<string>)
    requires CrossCheck(d, cells, apiColumns, columns).Ok?
    requires CikColumn in apiColumns ==>
      EmbeddedCik(d').Ok? && ParseInt(EmbeddedCik(d').value).Some? && NameColumn in columns && NameColumn in cells
    ensures CrossCheck(d', cells, apiColumns, columns).Ok?
  {
    if CikColumn in apiColumns {
      assert CikColumn in cells && ParseInt(cells[CikColumn]).Some?;
    }
  }
}
