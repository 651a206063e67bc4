/** Concrete instances: the configuration of the script at the bottom of
    the module (API columns CIK, company name and filing URL; form type `D`
    filed in June 2020; both restrictions), a metadata API that answers
    pages of 200, 200, 37 and 0 filings, and single documents. */
module Scenarios {
  import opened Results
  import opened Text
  import opened Decimal
  import opened Query
  import opened Table
  import opened Pagination
  import opened Fetch
  import opened Filing
  import opened Extraction

  const ScriptFiledAt := "{2020-06-01 TO 2020-06-30}"
  const ScriptArgs := QueryArgs(None, None, None, Some(Word("D")), Some(Word(ScriptFiledAt)))
  /** `formType:D AND filedAt:{2020-06-01 TO 2020-06-30}` */
  const ScriptQuery := "formType:D" + Conjunction + ("filedAt:" + ScriptFiledAt)
  const ScriptApiColumns := [CikColumn, NameColumn, UrlColumn]
  const ScriptFilingColumns := [EntityTypeColumn, CityColumn, FundTypeColumn]
  const ScriptRestrictions := [YearRestriction, FundRestriction]

  /** The script's query string. */
  lemma ScriptQueryText()
    ensures GenerateQuery(ScriptArgs) == ScriptQuery
  {
    var x := "formType:D";
    var y := "filedAt:" + ScriptFiledAt;
    assert FormTypeKey + Render(Word("D")) == x;
    assert LeadingTerms(ScriptArgs) == [];
    assert QueryTerms(ScriptArgs) == [x, y];
    JoinPair(x, y, Conjunction);
  }

  lemma JoinPair(x: string, y: string, sep: string)
    ensures Join([x, y], sep) == x + sep + y
  {
    assert [x, y][1..] == [y];
  }

  lemma ScriptFormTypeClean()
    ensures ' ' !in Render(Word("D")) && !Contains(Render(Word("D")), FormTypeKey)
    ensures LeadAvoidsKey(ScriptArgs)
  {
  }

  /** The form type read back from the script's query is `D`. */
  lemma ScriptQueryReadsD()
    ensures ParseFormType(ScriptQuery) == Ok(Some("D"))
  {
    ScriptQueryText();
    ScriptFormTypeClean();
    FormTypeRoundTrip(ScriptArgs);
  }

  /** A Form D filing as the API lists it. */
  const FormD: Record := map[
    "formType" := "D",
    "cik" := "118421",
    "companyName" := "Example Fund LP",
    "linkToFilingDetails" := "https://www.sec.gov/Archives/edgar/data/118421/example-index.htm"]

  /** A filing the API also returns for `formType:D`. */
  const Form10D: Record := FormD["formType" := "10-D"]

  function Page(n: nat): seq<Record>
  {
    seq(n, i => FormD)
  }

  /** An API that has 437 Form D filings for the script's query, and answers
      each request by its `from` offset. */
  function ScriptApi(p: Payload): Option<seq<Record>>
  {
    if p.from == "0" || p.from == "200" then Some(Page(200))
    else if p.from == "400" then Some(Page(37))
    else Some([])
  }

  lemma OffsetTexts()
    ensures IntToText(0) == "0" && IntToText(200) == "200"
    ensures IntToText(400) == "400" && IntToText(600) == "600"
  {
    assert NatToText(2) == "2" && NatToText(20) == "20" && NatToText(200) == "200";
    assert NatToText(4) == "4" && NatToText(40) == "40" && NatToText(400) == "400";
    assert NatToText(6) == "6" && NatToText(60) == "60" && NatToText(600) == "600";
  }

  /** The page the API answers for page number `n` of the loop. */
  function ScriptAnswer(n: nat): seq<Record>
  {
    if n < 2 then Page(200) else if n == 2 then Page(37) else []
  }

  lemma AnswerAt(n: nat)
    requires n <= 3
    ensures PageRequests(ScriptApi, ScriptQuery)(n) == Ok(ScriptAnswer(n))
  {
    OffsetTexts();
    var p := GeneratePayload(ScriptQuery, IntArg(Offset(n)), IntArg(PageSize));
    assert p.value.from == IntToText(n * 200);
  }

  /** Offsets 0, 200 and 400 bring pages of 200, 200 and 37 filings, and
      offset 600 an empty page. */
  lemma ScriptPages()
    ensures Exhausts(PageRequests(ScriptApi, ScriptQuery), [Page(200), Page(200), Page(37)], 0)
  {
    AnswerAt(0);
    AnswerAt(1);
    AnswerAt(2);
    AnswerAt(3);
    var pages := [Page(200), Page(200), Page(37)];
    assert pages[1..] == [Page(200), Page(37)];
    assert pages[1..][1..] == [Page(37)];
    assert pages[1..][1..][1..] == [];
  }

  lemma ScriptFilings()
    ensures Flatten([Page(200), Page(200), Page(37)]) == Page(437)
  {
    var pages := [Page(200), Page(200), Page(37)];
    assert pages[1..] == [Page(200), Page(37)];
    assert pages[1..][1..] == [Page(37)];
    assert pages[1..][1..][1..] == [];
    assert Flatten(pages) == Page(200) + (Page(200) + (Page(37) + []));
  }

  /** A page of `n` Form D filings gives `n` rows. */
  lemma FormDRows(n: nat)
    ensures ProcessPage(Page(n), Some("D"), ScriptApiColumns).Ok?
    ensures |ProcessPage(Page(n), Some("D"), ScriptApiColumns).value| == n
  {
    BuildRowFields(FormD, ScriptApiColumns);
    ProcessPageFails(Page(n), Some("D"), ScriptApiColumns);
    ProcessPageRows(Page(n), Some("D"), ScriptApiColumns);
    MatchingAll(Page(n), Some("D"));
  }

  /** Pages of 200, 200, 37 and 0 matching filings give 437 rows, and the
      loop ends with its page counter at 3. */
  lemma FourHundredThirtySevenRows()
    ensures var h := MassExtract(ScriptApi, ScriptQuery, ScriptApiColumns, None, 10);
      h.Ok? && |h.value.rows| == 437 && h.value.pages == 3
  {
    ScriptPages();
    ScriptQueryReadsD();
    MassExtractCollects(ScriptApi, ScriptQuery, ScriptApiColumns, [Page(200), Page(200), Page(37)], 10);
    ScriptFilings();
    FormDRows(437);
  }

  /** The row built from `FormD` with the script's API columns. */
  const FormDCells := map[
    CikColumn := "118421",
    NameColumn := "Example Fund LP",
    UrlColumn := "https://www.sec.gov/Archives/edgar/data/118421/example-index.htm"]

  lemma FormDRow()
    ensures BuildRow(FormD, ScriptApiColumns) == Ok(FormDCells)
  {
    BuildRowFields(FormD, ScriptApiColumns);
    var cells := BuildRow(FormD, ScriptApiColumns).value;
    assert cells.Keys == FormDCells.Keys;
  }

  /** The API's loose match is tightened: a `10-D` filing on a page is
      dropped when the form type is `D`. */
  lemma TenDDropped()
    ensures ProcessPage([Form10D, FormD], Some("D"), ScriptApiColumns) == Ok([Row(FormDCells, None)])
  {
    var p := [Form10D, FormD];
    assert Keep(Form10D, Some("D")) == Ok(false);
    assert Keep(FormD, Some("D")) == Ok(true);
    FormDRow();
    assert p[1..] == [FormD];
    assert [FormD][1..] == [];
    assert ProcessPage([FormD], Some("D"), ScriptApiColumns) == Ok([Row(FormDCells, None)] + []);
    assert ProcessPage(p, Some("D"), ScriptApiColumns) == ProcessPage([FormD], Some("D"), ScriptApiColumns);
    assert [Row(FormDCells, None)] + [] == [Row(FormDCells, None)];
  }

  lemma CikNumeral()
    ensures NatToText(118421) == "118421"
  {
    assert NatToText(1) == "1";
    assert NatToText(11) == "11";
    assert NatToText(118) == "118";
    assert NatToText(1184) == "1184";
    assert NatToText(11842) == "11842";
  }

  /** `int("0000118421")` is 118421. */
  lemma CikWithLeadingZeros()
    ensures ParseInt("0000118421") == Some(118421)
  {
    CikNumeral();
    ParseIgnoresLeadingZeros(4, 118421);
    assert Zeros(4) + NatToText(118421) == "0000118421";
  }

  /** A company name that mentions `formType` without a colon after it:
      the query passes the `"formType" in` test, but splitting on
      `formType:` gives one piece and `[1]` raises `IndexError`. */
  const NameWithFormType := QueryArgs(None, None, Some(Word("formType")), None, None)

  lemma FormTypeInNameRaises()
    ensures ParseFormType(GenerateQuery(NameWithFormType)).Err?
  {
    var h := "companyName:";
    var q := h + FormTypeField;
    assert QueryTerms(NameWithFormType) == [q];
    assert GenerateQuery(NameWithFormType) == q;
    FirstAfter(h, FormTypeField, "");
    assert h + (FormTypeField + "") == q;
    forall j: nat
      ensures !OccursAt(q, FormTypeKey, j)
    {
      if j + |FormTypeKey| <= |q| {
        if j <= 4 {
          assert q[4] == 'a';
          Uncovered(q, FormTypeKey, j, 4);
        } else if j <= 8 {
          assert q[8] == 'a';
          Uncovered(q, FormTypeKey, j, 8);
        } else {
          assert q[j] != FormTypeKey[0];
        }
      }
    }
    NoOccurrence(q, FormTypeKey);
  }

  /** A Form D filing document of a pooled hedge fund incorporated in
      2020, whose issuer table prints the CIK with leading zeros. */
  const FundDoc := Doc(
    Some(["2020"]),
    Some([Some(PooledFund), Some("Hedge Fund")]),
    Some(["", "Limited Partnership"]),
    Some([Some("Street Address 1"), Some("NEW YORK")]),
    Some([None, None, Some("0000118421")]))

  lemma FundDocAdmitted()
    ensures Admit(FundDoc, ScriptRestrictions) == Ok(true)
  {
    AdmitMeaning(FundDoc, ScriptRestrictions);
  }

  /** A fund labelled "Other Investment Fund" is skipped. */
  lemma OtherFundSkipped()
    ensures Admit(FundDoc.(industryLabels := Some([Some(PooledFund), Some(OtherFund)])), ScriptRestrictions) == Ok(false)
  {
  }

  /** A document without a year table raises, even though its single
      industry span would have had it skipped by the second restriction. */
  lemma MissingYearTableRaises()
    ensures Admit(FundDoc.(yearSpans := None, industryLabels := Some([Some(PooledFund)])), ScriptRestrictions)
         == Err(AttributeError(YearTable))
  {
  }

  /** The fields `FundDoc` gives for the script's filing columns. */
  const FundFields := map[
    EntityTypeColumn := "Limited Partnership",
    CityColumn := "NEW YORK",
    FundTypeColumn := "Hedge Fund"]

  lemma FundDocReads()
    ensures EntityType(FundDoc) == Ok("Limited Partnership")
    ensures FundType(FundDoc) == Ok("Hedge Fund")
    ensures City(FundDoc) == Ok("NEW YORK")
  {
    var t := LabelTexts(FundDoc.industryLabels.value);
    assert t.Ok? && t.value[1] == "Hedge Fund";
  }

  lemma FundDocFields()
    ensures ExtractFields(FundDoc, ScriptFilingColumns) == Ok(FundFields)
  {
    FundDocReads();
    var f1 := map[EntityTypeColumn := "Limited Partnership"];
    var f2 := f1[FundTypeColumn := "Hedge Fund"];
    assert ExtractFields(FundDoc, ScriptFilingColumns) == Ok(f2[CityColumn := "NEW YORK"]);
    assert EntityTypeColumn != CityColumn && EntityTypeColumn != FundTypeColumn && FundTypeColumn != CityColumn;
    assert f2[CityColumn := "NEW YORK"] == FundFields;
  }

  lemma FundDocCik()
    ensures EmbeddedCik(FundDoc) == Ok(Zeros(4) + NatToText(118421))
  {
    CikNumeral();
    assert Zeros(4) + NatToText(118421) == "0000118421";
  }

  /** `"0000118421"` in the document and `"118421"` in the row agree, so
      nothing is printed, whatever the columns. */
  lemma FundDocCikMatches(columns: seq<string>)
    ensures CrossCheck(FundDoc, FormDCells, ScriptApiColumns, columns) == Ok(None)
  {
    FundDocCik();
    CikNumeral();
    assert FormDCells[CikColumn] == NatToText(118421);
    LeadingZerosMatch(FundDoc, FormDCells, ScriptApiColumns, columns, 4, 118421);
  }

  lemma FundDocFilled()
    ensures Fill(FormDCells, FundFields, ScriptFilingColumns) == Ok(FormDCells + FundFields)
  {
    var c1 := FormDCells[EntityTypeColumn := "Limited Partnership"];
    var c2 := c1[CityColumn := "NEW YORK"];
    var c3 := c2[FundTypeColumn := "Hedge Fund"];
    assert ScriptFilingColumns[1..] == [CityColumn, FundTypeColumn];
    assert Fill(FormDCells, FundFields, ScriptFilingColumns) == Fill(c1, FundFields, [CityColumn, FundTypeColumn]);
    assert [CityColumn, FundTypeColumn][1..] == [FundTypeColumn];
    assert Fill(c1, FundFields, [CityColumn, FundTypeColumn]) == Fill(c2, FundFields, [FundTypeColumn]);
    assert Fill(c2, FundFields, [FundTypeColumn]) == Ok(c3);
    assert c3 == FormDCells + FundFields;
  }

  /** The script's row for `FundDoc` is filled and flagged `'yes'`. */
  lemma FundDocCommitted()
    ensures ProcessDoc(Row(FormDCells, None), FundDoc, ScriptRestrictions, ScriptApiColumns, ScriptFilingColumns)
         == Ok(Committed(Row(FormDCells + FundFields, Some(Yes)), None))
  {
    FundDocAdmitted();
    FundDocFields();
    FundDocCikMatches(ScriptApiColumns + ScriptFilingColumns);
    FundDocFilled();
  }

  /** A filing column the extractor does not know raises `KeyError` once a
      document passes the restrictions. */
  lemma UnknownColumnRaises()
    ensures ProcessDoc(Row(FormDCells, None), FundDoc, ScriptRestrictions, ScriptApiColumns, ["Revenue Range"])
         == Err(KeyError("Revenue Range"))
  {
    FundDocAdmitted();
    FundDocCikMatches(ScriptApiColumns + ["Revenue Range"]);
    assert ExtractFields(FundDoc, ["Revenue Range"]) == Ok(map[]);
    assert Fill(FormDCells, map[], ["Revenue Range"]) == Err(KeyError("Revenue Range"));
  }

  /** Three rows whose first and third share a URL: the third row's content
      lands under index 0, and index 2 stays empty. */
  lemma RepeatedUrl(a: string, b: string, web: string -> Option<Doc>)
    requires a != b && web(a).Some? && web(b).Some?
    ensures Indexed([Some(a), Some(b), Some(a)], Download(web)).Keys == {0, 1}
  {
    var urls := [Some(a), Some(b), Some(a)];
    DuplicateCollapses(urls, Download(web), 0, 2);
    assert IsFirst(urls, 0) && IsFirst(urls, 1);
  }
}
