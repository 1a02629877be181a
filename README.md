# O2 bill konnector — amount extraction and bill shaping, in Dafny

This project models the core of the O2 konnector. The konnector logs in to the O2 customer portal and lists the bills of every year. It downloads each bill's PDF and reads the bill's amount from the layout of the PDF's first page. Then it saves each bill, one at a time, through the storage library's `saveBills`.

The model covers the deterministic logic of `src/index.js`:

- **Locator** (`locator.dfy`): the amount locator inside `findAndAddAmount`. The first text item whose string contains `"SOLDE NET"` fixes a row (its `transform[5]`). The first item of the page on that row is taken as the amount. Its text is normalised by replacing the first `","` with `"."` and then the first `" €"` with nothing.
- **Text** (`text.dfy`): the JavaScript string operations this relies on. `indexOf` returns the first occurrence. `replace` with a string pattern rewrites only the first occurrence.
- **Bills** (`bills.dfy`): the records.
  - Bills are JavaScript objects, so they are modelled as maps from field names to values. `{ ...bill, f: v }` is a map update and `delete` is a key removal.
  - The `bills.map` of `handleBills` adds `filename` (`YYYY-MM_o2.pdf`), `vendor`, `currency` and `metadata`.
  - `findAndAddAmount` completes a copy of a bill with `amount` and `filestream` and drops `fileurl`.
- **Numerals** (`numerals.dfy`): the zero-padded decimal numerals in the file name, and reading them back.
- **Pipeline** (`pipeline.dfy`):
  - the per-year `concat` loop;
  - the `bluebird.mapSeries` loop, which completes and saves one bill at a time, recorded as a log of `saveBills` calls;
  - the decision `authenticate` makes on the login response;
  - `start`, which saves nothing unless the login succeeds.

I/O is taken as input:
- the stubs scraped for each year (`pages`);
- for the i-th bill, its download (`docs(i)`): the PDF bytes and the text items pdf.js lists on page 1;
- the clock read while decorating the i-th bill (`now(i)`);
- the result of `JSON.parse` on the login response (`None` when it throws).

In four places the code does not do what one might expect of a bill importer. The model follows the code:

- **No label means a thrown error, not a null amount.** When no item contains `"SOLDE NET"`, the code reads `.transform` of `undefined`. This raises a TypeError, so `mapSeries` rejects and the run stops. One might expect a null amount and the bill stored as a plain file instead, but the code has no plain-file route: every bill goes through `saveBills`.
- **The row search can return the label item itself.** The second `find` scans from the start of the page and includes the label item. So "the other item on the label's row" is returned only when it comes *before* the label in page order. If the label comes first, its own text (`"SOLDE NET"`) is returned (`Locator.LabelListedFirst`). One might expect the one other item on the row to give the amount whatever the order.
- **An unreadable PDF aborts the run.** `pdfjs.getDocument` rejects when the download is not a PDF, and `getPage(1)` rejects when there is no first page (src/index.js:121-122). Nothing catches either, so `findAndAddAmount` rejects and so does the whole `mapSeries` run (src/index.js:94-96). One might expect a parse failure to leave the amount null and the run to go on. This path is not in the model (see "Left out").
- **A malformed amount is not an error.** `parseFloat` never throws; it yields `NaN`. The code has no "amount parse error".

## Model

| member | source | states |
|---|---|---|
| `Text.IndexOf` | src/index.js:127 | `indexOf` gives a position where the pattern occurs with no occurrence before it, or nothing when it occurs nowhere |
| `Text.Contains` | src/index.js:127 | `indexOf(p) !== -1` can hold only when `p` is no longer than the text; `Text.ContainsIff` gives the exact condition |
| `Text.FirstOccurrence` | src/index.js:127 | the position `indexOf` finds is an occurrence of the pattern with none before it, and none means the pattern occurs nowhere |
| `Text.ContainsIff` | src/index.js:127 | `str.indexOf(p) !== -1` holds exactly when `p` occurs somewhere in `str` |
| `Text.ReplaceFirst` | src/index.js:135 | `replace` with a string pattern and a replacement free of '$' rewrites only the first occurrence and keeps the text around it; with no occurrence the text is unchanged |
| `Text.IndexOfAfter` | src/index.js:135 | the first occurrence in `a + pat + b` is at `|a|` when no occurrence starts inside `a` |
| `Text.IndexOfAfterPrefix` | src/index.js:135 | when the pattern's first character is absent from `a`, the first occurrence in `a + pat + b` is at `|a|` |
| `Text.ReplaceFirstAfterPrefix` | src/index.js:135 | replacing in `a + pat + b` gives `a + rep + b`: later occurrences in `b` stay |
| `Locator.FindFirst` | src/index.js:126-133 | `Array.prototype.find` returns the first element satisfying the predicate, or nothing when none does |
| `Locator.LabelIndexIsFirstLabel` | src/index.js:126-128 | the label row comes from the first item, in list order, whose text contains "SOLDE NET"; later matches are ignored |
| `Locator.Normalize` | src/index.js:135 | the two replacements keep the length of the text or shorten it by the two characters of " €"; `Locator.NormalizeAmount` and the examples below give the result |
| `Locator.LocateAmount` | src/index.js:126-135 | extraction succeeds exactly when some item contains the label; otherwise it fails with the TypeError of reading `transform` of `undefined`, never with a null amount |
| `Locator.RowSearchSucceeds` | src/index.js:131-133 | once the label is found, the same-row search always succeeds; its index is at most the label's and is the smallest index whose `y` equals the label's row |
| `Locator.LabelAloneOnItsRow` | src/index.js:131-135 | if no item before the label shares its row, the "amount" is the normalised text of the label item itself |
| `Locator.AmountBeforeLabel` | src/index.js:131-135 | an item before the label that is the first on the label's row is the one whose normalised text is returned |
| `Locator.AmountBeforeOrAtLabel` | src/index.js:131-135 | both of the above together: the first item on the label's row, at or before the label, gives the amount |
| `Locator.LocateIgnoresLaterItems` | src/index.js:126-135 | items appended after a page that already has the label never change the result |
| `Locator.NormalizeAmount` | src/index.js:135 | normalising `whole + "," + rest + " €"` gives `whole + "." + rest` whenever " €" does not already occur in `whole + "." + rest`: only the first comma becomes a period, later commas and spaces stay, and the currency suffix is dropped |
| `Locator.NormalizeKeepsPlainText` | src/index.js:135 | text with no ',' and no '€' is left as it is |
| `Locator.NormalizeWithCents` | src/index.js:135 | "12,34 €" normalises to "12.34" |
| `Locator.NormalizeZero` | src/index.js:135 | "0,00 €" normalises to "0.00" |
| `Locator.NormalizeOnlyFirstComma` | src/index.js:135 | "1,234,56 €" normalises to "1.234,56": only the first comma is rewritten |
| `Locator.NormalizeThousands` | src/index.js:135 | "1 234,56 €", with a space as thousands separator, normalises to "1 234.56" |
| `Locator.AmountListedFirst` | src/index.js:126-135 | a page listing "45,67 €" and then "SOLDE NET" on the same row yields "45.67" |
| `Locator.LabelListedFirst` | src/index.js:126-135 | a page listing the label and then the amount on the same row yields the label's own text, whatever the amount says |
| `Numerals.DecimalOfDigits` | src/index.js:83 | the decimal text of a number reads back as that number |
| `Numerals.DecimalIgnoresLeadingZeros` | src/index.js:83 | zero padding does not change the value a numeral reads as |
| `Numerals.PaddedRoundTrip` | src/index.js:83 | a zero-padded year or month reads back as the number written |
| `Bills.YearMonth` | src/index.js:83 | `format(date, 'YYYY-MM')` of a valid date is at least four digits, a '-' and two digits; `Bills.YearMonthRoundTrip` reads it back |
| `Bills.Filename` | src/index.js:83 | every file name ends in "_o2.pdf"; `Bills.FilenameRoundTrip` and `Bills.FilenameDeterminedByDate` say what comes before it |
| `Bills.YearMonthRoundTrip` | src/index.js:83 | the "YYYY-MM" text of a month reads back as that month |
| `Bills.FilenameRoundTrip` | src/index.js:83 | the file name gives back the date of the bill it was made for, and no date for a bill with none |
| `Bills.FilenameDeterminedByDate` | src/index.js:83 | two bills get the same file name exactly when they carry the same year and month: the name depends only on the date |
| `Bills.Decorate` | src/index.js:81-90 | a decorated bill keeps every original field except the four it writes, and gets the file name of its date, vendor 'O2', currency '€' and metadata with version 1 |
| `Bills.DecorateAll` | src/index.js:81-90 | the map decorates every bill, in order, and keeps their number |
| `Bills.DecorateKeepsDate` | src/index.js:81-90 | decoration leaves the date, hence the file name, as it was |
| `Bills.Amend` | src/index.js:110-142 | the completed record has the input's fields minus `fileurl`, plus `amount` (the located text) and `filestream` (the PDF bytes); it fails exactly when the page has no label |
| `Bills.AmendDecorated` | src/index.js:81-142 | a decorated stub, once completed, keeps its decoration and its other fields and trades `fileurl` for the amount and the stream |
| `Bills.FindAndAddAmount` | src/index.js:109-143 | the method that completes a copy field by field gives exactly the record (or error) described above; the input record is a value and cannot change |
| `Pipeline.Concat` | src/index.js:55 | the list `bills.concat(...)` builds year after year; `Pipeline.ConcatContents` and `Pipeline.ConcatLength` say what it holds |
| `Pipeline.CollectBills` | src/index.js:44-78 | the per-year loop gathers the concatenation of every year's stubs, in year order |
| `Pipeline.ConcatContents` | src/index.js:55 | a stub is gathered exactly when it was scraped for some year |
| `Pipeline.ConcatLength` | src/index.js:55 | the number of stubs gathered is the sum of the per-year counts |
| `Pipeline.Outcomes` | src/index.js:94-96 | each bill's outcome is `findAndAddAmount` applied to it and to its own download |
| `Pipeline.SaveOf` | src/index.js:99-102 | the call saving one completed bill: the list `[result]`, the folder path, identifiers ['o2'] and content type "application/pdf"; `Pipeline.SeriesOnSuccess` states which calls are made |
| `Pipeline.Series` | src/index.js:94-104 | `mapSeries` from bill `i` on makes at most one call per remaining bill, and when it completes it makes exactly one call and returns exactly one result per remaining bill |
| `Pipeline.SaveInSeries` | src/index.js:94-104 | the sequential loop makes exactly the calls and returns exactly the results that the one-at-a-time specification does, stopping at the first rejection |
| `Pipeline.SeriesSucceedsIff` | src/index.js:94-104 | the loop completes exactly when no bill is rejected |
| `Pipeline.SeriesOnSuccess` | src/index.js:94-104 | a completed loop makes exactly N `saveBills` calls for N bills, in bill order, each with a one-element list, identifiers ['o2'] and content type PDF; the results are the completed bills in the same order |
| `Pipeline.SeriesOnFailure` | src/index.js:94-104 | when bill k is the first rejected, the run rejects with its error after saving exactly the k bills before it, in order |
| `Pipeline.OutcomesRejectUnlabelled` | src/index.js:94-96 | a bill is rejected exactly when its first page lacks the label, and then with the missing-label TypeError |
| `Pipeline.RunCompletesIffEveryPageLabelled` | src/index.js:94-135 | the whole save loop completes exactly when every downloaded first page carries the label; otherwise it fails with the missing-label TypeError |
| `Pipeline.SavedInCall` | src/index.js:94-104 | in a completed run, the j-th call saves the j-th completed bill alone |
| `Pipeline.SavedBillShape` | src/index.js:81-104 | when every page carries the label, the run completes and the j-th bill saved is the j-th stub, decorated and completed from its own download |
| `Pipeline.HandleBills` | src/index.js:33-105 | `handleBills` gathers, decorates and then saves the bills in series, with exactly the calls and results of that specification |
| `Pipeline.Truthy` | src/index.js:166 | the `!json` test: JavaScript truthiness of a parsed value; `Pipeline.Authenticate` states the decision it takes part in |
| `Pipeline.State` | src/index.js:166 | `json.state`, absent unless the value is an object with that member; `Pipeline.Authenticate` states the decision it takes part in |
| `Pipeline.Authenticate` | src/index.js:157-168 | an unparsable response gives VENDOR_DOWN; a parsed value passes only when it is an object whose `state` is the string "success"; every other value gives LOGIN_FAILED |
| `Pipeline.Start` | src/index.js:25-31 | a failed login ends the run with its error and no `saveBills` call; after a successful login the run is that of `handleBills` |

## Left out

- HTTP requests, the cookie jar and `requestFactory`: network I/O. Downloads are inputs: `docs(i)` is what the i-th bill's `fileurl` returns. Transport failures, which would also reject the run, are not modelled.
- Scraping with cheerio: the agency id, the list of years, the `href` of each bill and the `JSON.parse` of its `endDate`. The stubs scraped for each year are inputs (`pages`).
- pdf.js (`getDocument`, `getPage`, `getTextContent`): a foreign PDF parser. The text items of page 1 are inputs.
- The rejection of `getDocument` for bytes that are not a PDF, and of `getPage(1)` for a PDF with no first page (src/index.js:121-122): `Document` cannot represent an unreadable download. Such a rejection would also reject `findAndAddAmount` and the whole `mapSeries` run. So `Bills.Amend`, `Pipeline.OutcomesRejectUnlabelled` and `Pipeline.RunCompletesIffEveryPageLabelled` ("fails exactly when a page has no label") hold only for downloads that pdf.js parses.
- Text.ReplaceFirst: a replacement string holding '$' is not modelled. JavaScript would expand `$&`, `$$`, `` $` `` and `$'` in it; the konnector only replaces with "." and "".
- `parseFloat`: floating-point conversion. The `amount` field holds the normalised text (`Amount(text)` stands for `parseFloat(text)`). So the `NaN` that non-numeric text gives is not represented.
- `transform[5]`: a float in the source. It is modelled as an integer, since it is only compared with `===`. A `NaN` coordinate, which `===` never matches, is not modelled.
- `stream.PassThrough`: modelled as `Stream(bytes)`, a stream that delivers the downloaded bytes.
- `saveBills`: only its arguments are recorded. What it stores and any rejection of its own are not modelled.
- `log`: not modelled. This includes line 97, which logs the input bill's `amount`, not the completed record's.
- date-fns `format`:
  - a valid date is modelled as its year and month only. Time zones, days and negative years are left out.
  - an invalid date gives the text "Invalid Date", as date-fns 1.x formats it.
- `new Date()` for `metadata.importDate`: the clock is an input, read once per bill.
- JavaScript property order and object identity are not modelled. Records are immutable map values, so the shallow copy of line 110 cannot alias its input.
- `authenticate`: the POST and `result.trim()` are left out. The model starts from the parse result. JSON numbers are integers here; only whether a value is truthy matters.
- `BaseKonnector`: how it reports the error a run ends with is not modelled.
