# Extractatron: a Dafny model of the filing-extraction pipeline

This project models the `Extractatron` class of `financial_extractions.py`.
The class does four things:

- It builds a Lucene-style query for regulatory filings.
- It pages through a filing-metadata search API, 200 filings at a time. It
  keeps the filings whose form type matches exactly and appends one
  DataFrame row per filing.
- It fetches every filing's document and stores it under the position of
  the first row holding that URL. A row whose URL already appeared earlier
  gets no document of its own.
- It applies two restrictions to each document (year of incorporation 2020;
  pooled investment fund, not "other"), reads three fields, cross-checks the
  CIK against the metadata, flags the rows that qualify and finalises the
  table.

Modules, one per stage of the class:

| module | file | models |
|---|---|---|
| `Results` | `results.dfy` | `Option`, `Result` and the Python exceptions the code can raise |
| `Text` | `text.dfy` | `str.find`, `in`, `str.split` and `str.join` |
| `Decimal` | `decimal.dfy` | `str(int)` and `int(str)` in base 10 |
| `Query` | `query.dfy` | `generate_query`, the form-type re-parse in `mass_extract_from_API`, `generate_payload` |
| `Table` | `table.dfy` | DataFrame rows, the `'Required Data Point?'` flag and the finalisation |
| `Pagination` | `pagination.dfy` | `individual_extraction_from_API` and `mass_extract_from_API` |
| `Fetch` | `fetch.dfy` | `request_filing_data`: which content ends up under which index |
| `Filing` | `filing.dfy` | one pass of the loop in `parse_filing_documents` |
| `Extraction` | `extraction.dfy` | the whole loop of `parse_filing_documents` and the run from query to final table |
| `Scenarios` | `scenarios.dfy` | the script's own configuration, a 437-filing API, and sample documents |

External effects are parameters of the model:

- The metadata API is a function from the request body to the decoded
  `filings` list, or `None` when the request fails.
- The web is a function from a URL to a parsed document, or `None` when the
  fetch fails.
- A filing document is abstracted to the values that its BeautifulSoup
  lookups reach (`Filing.Doc`). A missing landmark is `None`, and the lookup
  chained on it raises.
- `print` output is modelled only where it carries information: the
  validation messages are collected in `Parsed.warnings`.

Every Python exception that ends a run is an `Err` carrying the kind of
error: `AttributeError`, `IndexError`, `KeyError`, `TypeError` or
`ValueError`.

Three behaviours of the code are worth stating up front:

- **Missing landmarks raise.** When a restriction's or a field's landmark
  is missing from a document, the lookup chained on it raises, and the
  exception ends `parse_filing_documents` (lines 243-282). The only quiet
  exclusions are a year other than 2020 (line 246), fewer than two industry
  spans (line 254) and labels that do not match (line 261). A document with
  fewer than two industry spans is skipped even if its spans have no label
  cells. `Filing.AdmitFails` states exactly when the restrictions raise and
  with which error; `Filing.FewSpansSkipped` states the skip.
- **Restriction order is fixed.** The code always tests the year first and
  then the fund type. The list only says which of the two apply, so the
  order of names in it is irrelevant (`Filing.AdmitMeaning`). A document
  whose year is not 2020 is skipped before its industry table is read, even
  when reading that table would raise (`Filing.YearFirst`).
- **`size` is `start + length`.** The payload's `size` is
  `str(start + length)`, which passes 200 from the second page on
  (`Query.PayloadReadsBack`). How the API treats such a size is not known,
  so the model keeps the value as written and lets the API function answer
  any payload.

## Model

| member | source | states |
|---|---|---|
| Query.GenerateQuery | financial_extractions.py:64-77 | the query string is empty exactly when no argument was given |
| Query.QueryTermsRecovered | financial_extractions.py:64-76 | when no predicate holds `" AND "` early, splitting the query on `" AND "` gives back the predicates, in the order cik, ticker, companyName, formType, filedAt |
| Query.ParseFormType | financial_extractions.py:155-159 | the re-parse fails (IndexError) exactly when the query mentions `formType` but never `formType:`; it yields a form type exactly when the query mentions `formType`; the value holds no space and no `formType:` |
| Query.FormTypeRoundTrip | financial_extractions.py:155-159 | reading the form type back from a generated query gives the form type put in, when that value has no space or `formType:` and no earlier argument contains `formType:` |
| Query.GeneratePayload | financial_extractions.py:89-101 | a payload exists exactly when both arguments are Python ints (bools included); it carries the query unchanged and sorts by `filedAt` descending |
| Query.PayloadReadsBack | financial_extractions.py:95-100 | `from` reads back as `start` (or is `True`/`False` for a bool), and `size` reads back as `start + length`, not `length` |
| Decimal.NatToTextDigits | financial_extractions.py:66 | `str(n)` is all digits, has no leading zero and reads as `n` |
| Decimal.ParseRendered | financial_extractions.py:97-98 | `int(str(n)) == n` for every integer, negative ones included |
| Decimal.ParseIgnoresLeadingZeros | financial_extractions.py:292 | `int` reads a numeral with any number of leading zeros as the number itself |
| Pagination.BuildRowFields | financial_extractions.py:170-180 | a row holds exactly the selected known API columns, each copied from its JSON key; building fails exactly when a selected key is missing |
| Pagination.MatchingAll | financial_extractions.py:163-168 | when every filing has the wanted form type (or none is wanted), the client-side filter keeps them all |
| Pagination.ProcessPageFails | financial_extractions.py:163-183 | the loop over a page raises exactly when some filing's form type cannot be read, or a kept filing lacks a selected key |
| Pagination.ProcessPageRows | financial_extractions.py:163-183 | a page yields one unflagged row per filing whose form type equals the wanted one exactly, in page order, built from that filing |
| Pagination.ProcessPageAppend | financial_extractions.py:162-188 | processing two pages one after the other is the same as processing their concatenation |
| Pagination.Paginate | financial_extractions.py:161-188 | the page counter ends at least at its start and within the page bound, and stays at its start exactly when the first page is empty |
| Pagination.PaginateCollects | financial_extractions.py:161-188 | when the API answers non-empty pages and then an empty one, the loop appends exactly the rows of the concatenated pages and counts one per non-empty page |
| Pagination.MassExtractCollects | financial_extractions.py:138-189 | a run from scratch fails only if the form type cannot be read back or a filing is unreadable; otherwise its rows are those of all pages' matching filings, in order, and `N` is the number of non-empty pages |
| Pagination.PaginateUnflagged | financial_extractions.py:183 | every appended row has its `'Required Data Point?'` flag unset |
| Pagination.MassExtractUnflagged | financial_extractions.py:138-189 | the same for a whole run, whether or not a first page was already held |
| Fetch.FirstIndex | financial_extractions.py:206 | `url_list.index(u)` is a position holding `u`, and no earlier position does |
| Fetch.DeliverContents | financial_extractions.py:205-213 | for any completion order of the workers, and whatever each worker's request returned, each stored index is the first occurrence of its URL and holds what some worker for that URL obtained; every successful request has an entry at its URL's first index |
| Fetch.CompletionOrderIrrelevant | financial_extractions.py:210-214 | when the workers for one URL all obtained the same answer, the stored map is the same for every completion order: each first occurrence holds its URL's content when the request succeeded |
| Fetch.DistinctOrderIrrelevant | financial_extractions.py:200-213 | with distinct URLs, the completion order never matters, whatever each request returned |
| Fetch.CompletionOrderMatters | financial_extractions.py:205-213 | when a URL appears twice and its two requests return different pages, the worker that finishes last decides what is stored under the first index |
| Fetch.WebOrderIrrelevant | financial_extractions.py:210-214 | with a web that answers each URL the same way every time, every completion order stores the indexed map of the sequential model |
| Fetch.IndexedStep | financial_extractions.py:205-208 | handling position `i` after positions before it extends the reference map by position `i` |
| Fetch.RequestFilingData | financial_extractions.py:200-222 | the indexed map holds content only at first occurrences, each being what its URL's fetch returned; every successful fetch is found at its URL's first index |
| Fetch.DistinctIndexed | financial_extractions.py:200-208 | with distinct URLs, index `k` is present exactly when fetching URL `k` succeeded, and holds its content |
| Fetch.DuplicateCollapses | financial_extractions.py:206-208 | a repeated URL never gets an index of its own; its content sits under the first occurrence's index |
| Filing.LabelTexts | financial_extractions.py:259 | the label list exists exactly when every industry span's row has a label cell, and then lists those labels in order; otherwise it is an AttributeError |
| Filing.AdmitMeaning | financial_extractions.py:243-265 | a document is admitted exactly when every listed restriction holds of it: the last year span reads 2020; there are at least two industry spans, all labelled, the first "Pooled Investment Fund" and the second not "Other Investment Fund" |
| Filing.AdmitFails | financial_extractions.py:243-265 | the restrictions raise exactly when the year table is missing or empty, or the year passes and the industry table is missing or has two or more spans of which some lack a label cell; each case raises the AttributeError of its landmark |
| Filing.FewSpansSkipped | financial_extractions.py:252-257 | with the year passed, fewer than two industry spans skip the document without raising, whatever their label cells |
| Filing.YearFirst | financial_extractions.py:243-257 | the year test runs first: an unreadable year table raises whatever the fund test would say, and a year other than 2020 skips the document |
| Filing.ExtractFieldsMeaning | financial_extractions.py:269-282 | `new_data` holds exactly the known filing columns that were asked for, each read from its place in the document; it fails exactly when a wanted field cannot be read |
| Filing.CrossCheckMeaning | financial_extractions.py:290-293 | with `CIK` among the API columns, the check is silent exactly when both CIKs read as integers and are equal; a message is printed only for differing CIKs and reads `validation failed: ` followed by the row's company name, and conversely differing readable CIKs with a known company name always print that message; without `CIK` nothing is checked |
| Filing.MismatchRaises | financial_extractions.py:290-293 | differing CIKs raise KeyError when `Company Name` is not a column, and TypeError when the row's name is missing |
| Filing.LeadingZerosMatch | financial_extractions.py:290-293 | a CIK printed with leading zeros in the document agrees with the same number in the row, so nothing is printed |
| Filing.FillMeaning | financial_extractions.py:296-297 | the write-back succeeds exactly when every filing column has a value; it then sets just those columns and keeps every other cell; otherwise it raises KeyError for the first column without one |
| Filing.ProcessDocMeaning | financial_extractions.py:236-298 | a document that fails a restriction leaves its row alone; one processed without error flags its row `'yes'`, sets the filing columns from `new_data`, keeps every other cell, and prints what the CIK check yields |
| Filing.MismatchOnlyWarns | financial_extractions.py:290-293 | a CIK mismatch changes only what is printed: when a document is processed without error, replacing its printed CIK by any other readable one (with the row's company name present) still processes without error, skips or fills the row the same way, and prints what the CIK check yields for the new CIK |
| Extraction.ParseFromFails | financial_extractions.py:236-298 | the loop raises exactly when some stored document raises |
| Extraction.ParseFromRows | financial_extractions.py:236-298 | after the loop, each row is what its own document made of it |
| Extraction.ParseFromWarnings | financial_extractions.py:236-298 | the loop prints at most one message per row, and a message appears exactly when some row's document was processed and printed it |
| Extraction.ParseFlags | financial_extractions.py:236-298 | starting from fresh rows, row `i` is flagged exactly when a document is stored under `i` and passes the listed restrictions; every unflagged row is unchanged |
| Extraction.FinalTable | financial_extractions.py:300-308 | the final table is the flagged rows, in ascending original index, renumbered from 0, with the flag column gone |
| Extraction.UrlList | financial_extractions.py:201 | the URL list has one entry per row and is a KeyError when the URL column does not exist |
| Extraction.DuplicateUrlDropped | financial_extractions.py:201-208 | of two rows with the same filing URL, the later one is never flagged and never reaches the final table |
| Extraction.RunSelects | financial_extractions.py:318-321 | end to end, the final table is, in order, the extracted rows whose document was fetched and passed the restrictions |
| Table.FlaggedPositionsFlagged | financial_extractions.py:301 | every selected position holds a row flagged `'yes'` |
| Table.FlaggedPositionsComplete | financial_extractions.py:301 | every row flagged `'yes'` is selected |
| Table.FlaggedPositionsAscending | financial_extractions.py:306-308 | the selected positions keep their original order, each once |
| Table.FinalizeSelects | financial_extractions.py:300-308 | entry `i` of the final table is the cells of the `i`-th flagged row |
| Scenarios.ScriptQueryText | financial_extractions.py:314-318 | the script's arguments give `formType:D AND filedAt:{2020-06-01 TO 2020-06-30}` |
| Scenarios.ScriptQueryReadsD | financial_extractions.py:155-157 | the form type read back from the script's query is `D` |
| Scenarios.FormTypeInNameRaises | financial_extractions.py:155-157 | a company name `formType` with no form type makes the re-parse raise IndexError |
| Scenarios.FourHundredThirtySevenRows | financial_extractions.py:161-189 | API pages of 200, 200, 37 and 0 Form D filings give 437 rows, with the counter `N` at 3 |
| Scenarios.TenDDropped | financial_extractions.py:153-166 | a `10-D` filing the API returns for `formType:D` is dropped, and the `D` filing beside it kept |
| Scenarios.CikWithLeadingZeros | financial_extractions.py:292 | `int("0000118421")` is 118421 |
| Scenarios.FundDocAdmitted | financial_extractions.py:243-265 | a pooled hedge fund incorporated in 2020 passes both of the script's restrictions |
| Scenarios.OtherFundSkipped | financial_extractions.py:259-265 | a fund whose second label is "Other Investment Fund" is skipped |
| Scenarios.MissingYearTableRaises | financial_extractions.py:243-244 | a document with no year table raises, although its single industry span would have had it skipped |
| Scenarios.FundDocCikMatches | financial_extractions.py:290-293 | `0000118421` in the document matches `118421` in the row, and nothing is printed |
| Scenarios.FundDocCommitted | financial_extractions.py:269-298 | the sample document's row gets entity type, city and fund type and is flagged `'yes'` |
| Scenarios.UnknownColumnRaises | financial_extractions.py:296-297 | a filing column the extractor has no reader for raises KeyError once a document is admitted |
| Scenarios.RepeatedUrl | financial_extractions.py:205-208 | with rows holding URLs a, b, a, only indices 0 and 1 get documents |

## Left out

- HTTP, JSON encoding and the API key. The request and the decoded answer
  are the `Api` function. A response without a `filings` key, and any other
  transport or decoding failure, is `None`, which the model reports as a
  `TransportError`.
- The thread pool. Workers are modelled as running to completion one at a
  time, in any order, each with its own answer (`Fetch.Deliver`). Two
  workers writing the dict at the same instant are not modelled.
- Fetch.RequestFilingData requests each URL once and gives every
  occurrence of a repeated URL that one answer. The code requests a
  repeated URL once per occurrence; when those requests return different
  pages, the stored page is that of the last worker to finish
  (`Fetch.CompletionOrderMatters`).
- Extraction.RunSelects and Extraction.DuplicateUrlDropped rest on the
  same one-answer-per-URL web as `Fetch.RequestFilingData`.
- A failed fetch. In the code the exception is raised inside
  `executor.map` and never collected, so the model leaves that index out.
- The `if __name__ == "__main__"` guard in `request_filing_data`. It holds
  when the file runs as a script, which is the case modelled. When the
  module is imported, nothing is fetched.
- BeautifulSoup and lxml. A document is the values its lookups reach, and a
  lookup that returns `None` raises, as described above.
- Extraction.ParseFilingDocuments: documents are visited in ascending
  index, and the messages in `Parsed.warnings` are in that order. The
  code visits the dict in the order in which the workers finished. That
  order decides the order of the `validation failed` messages, which of
  several failing documents raises, and which messages are printed before
  the raise. It does not change what a run that raises nothing does to the
  rows, since each document writes only its own row
  (`Extraction.ParseFromRows`).
- Extraction.ParseFilingDocuments requires every key to be a row
  position. `request_filing_data` guarantees this, since its keys are
  positions in `url_list`.
- Pagination.Paginate takes a bound `fuel` on the number of non-empty
  pages, and exceeding it is `PageLimit`. The code loops for as long as the
  API keeps answering; the theorems assume enough fuel.
- pandas mechanics: dtypes, `SettingWithCopy` and chained assignment (taken
  to write through). A row is a map of its non-NaN cells. A filing with no
  selected API column appends a row with no cells; how `DataFrame.append`
  treats an empty dict is not modelled further.
- `int()` accepts Unicode digits from scripts other than ASCII. The model
  accepts ASCII digits only, with whitespace, sign and underscore grouping.
- The `print` of `N`, the "integer arguments" message of
  `generate_payload`, the CSV export and the final `print` of the table.
- Query.GeneratePayload: a `None` payload is never used by the loop,
  because it always passes integers. In the code, `json.dumps(None)` would
  send `null`.
- Query.FormTypeRoundTrip assumes that no argument before the form type
  contains `formType:`. When one does, the form type read back is whatever
  follows that earlier occurrence. `Scenarios.FormTypeInNameRaises` shows
  the related case that raises.
