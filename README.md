# Bhutan Wine Company loyalty app — Dafny model

This project models the core of a small loyalty web app. A customer enters a
name and an e-mail address on a welcome page, which stores a customer document
(no account is created and nothing is signed in), and moves on to an engagement
page. There they can leave a Google review and follow the company on Instagram.
Each completed action is recorded in the customer's engagement document, and
once both are done a celebration is shown. A discount panel component computes
the earned merchandise discount, 5% plus 5% per action, and counts the displayed
percentage up to it; no page of the app renders it. Staff use an admin
dashboard for three things:

- search customers by name or e-mail;
- redeem the discount of a customer who did at least one action;
- export customers, all of them or a date range, as a CSV file.

The modules:

- `Store` (store.dfy): the two document collections (`customers` and
  `engagement`), the engagement document's fields, and the partial updates the
  pages write. A missing or null field is `None`. Whether a store call throws
  is a parameter.
- `Csv` (csv.dfy): the CSV text the exports produce (quote doubling, comma
  wrapping, joining with `,` and line feeds), and a reader for exactly that
  dialect. The round trip is proved against this reader.
- `Query` (query.dfy):
  - the queries sent to the `customers` collection;
  - `Answers`, what it means for a list of documents to answer one (filtered,
    ordered, limited, complete);
  - the local-day arithmetic behind the export's date range.
- `Export` (export.dfy): the header, one row per customer, the loop that reads
  each customer's engagement document, and the outcome of an export.
- `Search` (search.dfy): case-insensitive substring matching, the search loop,
  the search outcome, and the local update after a redemption.
- `Discount` (discount_display.dfy): the discount, the count-up animation of
  the displayed percentage, and the message under it.
- `Engage` (engage_page.dfy): the engagement page.
  - As a state machine: load, the two action handlers, and the celebration
    effect.
  - As a class that also writes to the store.
- `AdminDashboard` (admin_dashboard.dfy): the dashboard's state and its
  handlers for search, redeem and the two exports.

Time is a parameter: `now`, the server's and the browser's time, and the
browser's offset from UTC. Date formatting (`toLocaleDateString`) is the
function parameter `fmt`.

## Model

| member | source | states |
|---|---|---|
| `Store.NewEngagement` | src/pages/EngagePage.js:30-34 | the created document has both action flags false, is not redeemed, and is stamped with the creation time |
| `Store.Apply` | src/pages/EngagePage.js:96-99 | a partial update sets its action's flag to true and its timestamp, and leaves every other action's flag and timestamp and `createdAt` unchanged |
| `Store.ApplyKeepsFlags` | src/pages/AdminDashboard.js:124-127 | no update ever clears a flag that was set |
| `Store.EngagementStore.Create` | src/pages/EngagePage.js:30-34 | `setDoc` stores the whole document under the id when the write goes through; otherwise nothing changes |
| `Store.EngagementStore.Update` | src/pages/AdminDashboard.js:123-127 | `updateDoc` succeeds exactly when the write goes through and the document exists; it then merges the action's fields, otherwise nothing changes |
| `Csv.DoubleQuotes` | src/pages/AdminDashboard.js:283 | every `"` is doubled: the length grows by the number of quotes, the quote count doubles, and no other character appears or disappears |
| `Csv.EscapeCell` | src/pages/AdminDashboard.js:281-284 | an escaped cell contains a comma iff the cell does, and every character other than `"` is kept |
| `Csv.NoQuotesUnchanged` | src/pages/AdminDashboard.js:283 | a text without quotes is left as it is by the quote doubling |
| `Csv.CommaCellIsWrapped` | src/pages/AdminDashboard.js:282-284 | `A,B` becomes `"A,B"` |
| `Csv.QuoteCellIsDoubledOnly` | src/pages/AdminDashboard.js:282-284 | `C"D` becomes `C""D`, without wrapping |
| `Csv.JoinedChars` | src/pages/AdminDashboard.js:285-286 | every character of a joined line is the separator or comes from one of the parts |
| `Csv.JoinWith` | src/pages/AdminDashboard.js:285-286 | `join`: `Csv.JoinedChars` bounds its characters, and `Csv.SplitJoin` splits it back into the parts |
| `Csv.FormatRow` | src/pages/AdminDashboard.js:280-285 | one CSV line: `Csv.RowRoundTrip` reads it back as its cells, and `Csv.FormattedRowLineFree` shows it has no line feed unless a cell has one |
| `Csv.Serialize` | src/pages/AdminDashboard.js:280-286 | the whole CSV text: `Csv.DocumentRoundTrip` reads it back as the rows when no cell holds a line feed, and `Csv.LineFeedSplitsRecord` shows what a line feed in a cell does |
| `Csv.CellRoundTrip` | src/pages/AdminDashboard.js:281-284 | reading an escaped cell back gives the original cell, for every cell |
| `Csv.DoubledQuoteState` | src/pages/AdminDashboard.js:283 | after a quote-doubled text, a reader is back in the quote state it started in, and every comma was read in that state |
| `Csv.EscapedCellBalanced` | src/pages/AdminDashboard.js:284 | every comma of an escaped cell lies inside quotes, and the cell ends outside quotes |
| `Csv.SplitFormattedRow` | src/pages/AdminDashboard.js:280-285 | splitting a formatted row at the commas outside quotes gives back exactly the escaped cells |
| `Csv.RowRoundTrip` | src/pages/AdminDashboard.js:280-285 | a formatted row with at least one cell reads back as its cells |
| `Csv.SplitJoin` | src/pages/AdminDashboard.js:286 | lines joined with a line feed split back into the same lines when none holds a line feed |
| `Csv.DocumentRoundTrip` | src/pages/AdminDashboard.js:280-286 | a serialised table reads back as the same rows when no cell holds a line feed |
| `Csv.LineFeedSplitsRecord` | src/pages/AdminDashboard.js:284 | a line feed in a cell is not quoted, so the cell `a\nb` reads back as two records |
| `Query.InclusiveWindow` | src/pages/AdminDashboard.js:166-190 | with the bounds taken from the chosen local days, an instant lies within them iff its local day lies between the chosen days, both ends included |
| `Query.LocalDayBounds` | src/pages/AdminDashboard.js:168-181 | every instant lies between local 00:00:00.000 and 23:59:59.999 of its own local day |
| `Query.AsWrittenStartBound` | src/pages/AdminDashboard.js:167-168 | the lower bound as computed: `Query.AsWrittenAgreesEastOfUtc` and `Query.AsWrittenIsOneDayEarlyWestOfUtc` say which local day it starts |
| `Query.AsWrittenEndBound` | src/pages/AdminDashboard.js:180-181 | the upper bound as computed: the same two lemmas say which local day it ends |
| `Query.AsWrittenAgreesEastOfUtc` | src/pages/AdminDashboard.js:166-190 | at UTC or east of it, the bounds as computed are those of the chosen days |
| `Query.AsWrittenIsOneDayEarlyWestOfUtc` | src/pages/AdminDashboard.js:166-190 | west of UTC, both bounds as computed belong to the day before the chosen one |
| `Query.AsWrittenDropsLastDay` | src/pages/AdminDashboard.js:179-190 | at UTC-5, a customer added at local noon on the chosen end day falls outside the range as computed |
| `Query.ExportWithoutDatesIsDirect` | src/pages/AdminDashboard.js:163-195 | with neither date set, the filtered export sends the same query as "Export All", both as computed and with the corrected bounds |
| `Query.AsWrittenExportQueryEastOfUtc` | src/pages/AdminDashboard.js:163-190 | at UTC or east of it, the query the filtered export sends is the one with the chosen days' bounds |
| `Query.SearchQuery` | src/pages/AdminDashboard.js:48-62 | ordered by the searched field, ascending, at most 100 documents: `Query.SearchScanCap` states what an answer to it then holds |
| `Query.AsWrittenExportQuery` | src/pages/AdminDashboard.js:163-190 | the filtered export's query as sent, newest first with the computed bounds: `Query.AsWrittenExportQueryEastOfUtc` ties it to the corrected query |
| `Query.ExportQuery` | src/pages/AdminDashboard.js:163-190 | the filtered export's query with the chosen days' bounds: `Query.InclusiveWindow` shows an instant passes it iff its local day is in range, and `Query.JanuaryExportExample` works one range through |
| `Query.DirectExportQuery` | src/pages/AdminDashboard.js:316-317 | every customer, newest first: `Query.ExportWithoutDatesIsDirect` |
| `Query.SearchScanCap` | src/pages/AdminDashboard.js:48-64 | a search sees at most 100 candidates; an answer shorter than 100 holds every customer that has the searched field |
| `Query.JanuaryExportExample` | src/pages/AdminDashboard.js:163-197 | for customers added on 1 Jan, 15 Jan and 1 Feb, the range 1–31 January answers exactly the first two, newest first |
| `Export.DataRow` | src/pages/AdminDashboard.js:268-276 | a row has 7 cells: the name and the e-mail when present and non-empty, `N/A` otherwise; the formatted date added; three cells that read `Yes` iff the flag is true and `No` otherwise; the formatted redemption date or `N/A`. Without an engagement document the row ends `No, No, No, N/A` |
| `Export.CsvRows` | src/pages/AdminDashboard.js:214-277 | the header, then one 7-cell row per customer in query order, each joined with that customer's own engagement document |
| `Export.BuildRows` | src/pages/AdminDashboard.js:228-277 | the loop yields the header and all rows when every engagement read succeeds, and fails otherwise |
| `Export.ExportRows` | src/pages/AdminDashboard.js:214-277 | the header and rows, or a failure when any engagement read throws: `Export.BuildRows` is proved equal to it |
| `Export.ExportResult` | src/pages/AdminDashboard.js:197-306 | the outcome of an export: `Export.ExportFile` is proved equal to it, and `Export.ExportReadsBack` says when it produces a file and what the file reads back as |
| `Export.ExportFile` | src/pages/AdminDashboard.js:197-286 | the export of a query's answer: nothing to export for an empty answer, a failure when the query or any engagement read throws, otherwise the serialised header and rows |
| `Export.DataRowLineFree` | src/pages/AdminDashboard.js:268-276 | a row holds no line feed when the customer's name and e-mail and the formatted dates hold none |
| `Export.ExportSucceedsIff` | src/pages/AdminDashboard.js:197-306 | for every input: an export produces a file iff the query succeeded with a non-empty answer and every engagement read succeeds, and has nothing to export iff the answer is empty |
| `Export.ExportReadsBack` | src/pages/AdminDashboard.js:197-286 | when no name, e-mail or formatted date holds a line feed: an export produces a file iff the answer is non-empty and every engagement read succeeds, and the file then reads back as the header and the rows |
| `Search.Lower` | src/pages/AdminDashboard.js:73 | lower-casing keeps the length, maps each upper-case letter to the letter 32 code points above it, keeps every other character, and leaves no upper-case letter |
| `Search.LowerIdempotent` | src/pages/AdminDashboard.js:85-86 | lower-casing twice is lower-casing once |
| `Search.ContainsIffOccurs` | src/pages/AdminDashboard.js:86 | `includes` holds iff the term occurs at some position of the text |
| `Search.Contains` | src/pages/AdminDashboard.js:86 | `includes`: `Search.ContainsIffOccurs` ties it to an occurrence at some position |
| `Search.Matches` | src/pages/AdminDashboard.js:83-91 | the searched field is present and its lower-cased form contains the lower-cased term: `Search.MatchIgnoresTermCase`, `Search.EmptyTermMatchesPresent` and `Search.KeepExactlyMatches` |
| `Search.MatchIgnoresTermCase` | src/pages/AdminDashboard.js:83-91 | a customer matches a term iff they match its lower-cased form |
| `Search.EmptyTermMatchesPresent` | src/pages/AdminDashboard.js:85-90 | the empty term matches exactly the customers whose searched field is present and non-empty |
| `Search.Keep` | src/pages/AdminDashboard.js:76-104 | the filter keeps no more candidates than there were |
| `Search.KeepExactlyMatches` | src/pages/AdminDashboard.js:76-104 | the kept candidates are exactly the candidates that match |
| `Search.KeepPreservesOrder` | src/pages/AdminDashboard.js:76-104 | the kept candidates keep the query's order |
| `Search.Entries` | src/pages/AdminDashboard.js:94-102 | one entry per kept customer, in the same order, each carrying that customer's engagement document or the empty document when there is none |
| `Search.CollectMatches` | src/pages/AdminDashboard.js:72-104 | the loop returns the matches merged with their engagement data when every read of a match succeeds, and fails otherwise |
| `Search.SearchFindsExactlyMatches` | src/pages/AdminDashboard.js:64-110 | "no customers" iff the answer is empty; "no matches" iff there were candidates and none matched; failure iff there were candidates and the engagement document of some match cannot be read; entries iff some candidate matches and every match's engagement document can be read, and then between 1 and 100 entries, exactly the matches, entry k being the k-th match in the answer's order |
| `Search.SearchResult` | src/pages/AdminDashboard.js:64-110 | the outcome of a search: a failed query fails it; on an answer, `Search.SearchFindsExactlyMatches` states when each of the four outcomes (entries, no customers, no matches, failure) occurs, and `Search.CollectMatches` computes its entries |
| `Search.CanRedeem` | src/pages/AdminDashboard.js:549 | the redeem button is offered: `Search.RedeemWithdrawsOffer` and `AdminDashboard.RedeemableHasEarned` |
| `Search.RedeemLocal` | src/pages/AdminDashboard.js:130-134 | the table keeps its length and its customers; entries of the redeemed customer gain the redemption fields; all other entries are unchanged |
| `Search.RedeemWithdrawsOffer` | src/pages/AdminDashboard.js:549 | after a redemption, the redeemed customer is no longer offered the button and keeps their action flags; every other entry is offered exactly as before |
| `Search.RedeemTwice` | src/pages/AdminDashboard.js:130-134 | redeeming twice is redeeming once at the later time |
| `Discount.TotalDiscount` | src/components/DiscountDisplay.js:10 | the discount is a multiple of 5 between 5 and 15; it is 15 iff both actions are done, and 5 iff neither is |
| `Discount.TotalDiscountMonotone` | src/components/DiscountDisplay.js:10 | completing an action never lowers the discount |
| `Discount.Tick` | src/components/DiscountDisplay.js:17 | a firing below the total adds exactly one and never passes the total; it reaches the total iff one more step would |
| `Discount.Ticks` | src/components/DiscountDisplay.js:15-25 | the display after `k` firings: `Discount.TicksCountUp` shows it is `min(start + k, total)` |
| `Discount.TicksCountUp` | src/components/DiscountDisplay.js:15-25 | from a value at or below the total, `k` firings give `min(start + k, total)` |
| `Discount.TicksFromZero` | src/components/DiscountDisplay.js:5-25 | from 0, the display after `k` firings is `min(k, total)` |
| `Discount.Messages` | src/components/DiscountDisplay.js:40-49 | the messages under the percentage: `Discount.ExactlyOneMessage` shows none while the message flag is off and exactly one, chosen by the discount, once it is on |
| `Discount.ExactlyOneMessage` | src/components/DiscountDisplay.js:40-49 | while the message flag is off (until the first animation ends; nothing resets it), no message; once it is on, exactly one, chosen by the current discount: the congratulations iff both actions are done |
| `Discount.DiscountDisplay.constructor` | src/components/DiscountDisplay.js:5-7 | the display starts at 0, not animating, with no message |
| `Discount.DiscountDisplay.OnTotalChange` | src/components/DiscountDisplay.js:12-15 | the interval starts iff the display is below the total |
| `Discount.DiscountDisplay.TickOnce` | src/components/DiscountDisplay.js:16-24 | a firing sets the display to `min(prev + 1, total)`; on reaching the total it stops the animation and shows the message |
| `Discount.DiscountDisplay.Animate` | src/components/DiscountDisplay.js:12-27 | a total at or below the display changes nothing; otherwise the display counts up to the total in `total - start` firings, the animation ends and the message shows |
| `Engage.Celebrate` | src/pages/EngagePage.js:51-56 | after the effect, the confetti is on iff it was on or both actions are done; nothing else changes |
| `Engage.Handle` | src/pages/EngagePage.js:23-120 | what the load and the two handlers do to the page: `Engage.LoadedShowsDocument` and `Engage.HandlersRaiseFlags` |
| `Engage.Step` | src/pages/EngagePage.js:51-56 | an event followed by the celebration effect: `Engage.HandlersCelebrateBoth` |
| `Engage.Run` | src/pages/EngagePage.js:90-120 | a visit as a run of events: `Engage.ConfettiStays`, `Engage.ConfettiFlipsOnce` and `Engage.BothActionsCelebrateOnce` |
| `Engage.LoadedShowsDocument` | src/pages/EngagePage.js:23-46 | loading always ends; a found document's flags become the check marks, and a missing flag shows none; no document, or a failed read, leaves the check marks as they were |
| `Engage.ConfettiStays` | src/pages/EngagePage.js:51-56 | once on, the confetti stays on whatever happens next |
| `Engage.ConfettiFlipsOnce` | src/pages/EngagePage.js:51-56 | the confetti is turned on at most once in any run, and exactly once when it was off and ends on |
| `Engage.HandlersRaiseFlags` | src/pages/EngagePage.js:90-120 | between loads, a check mark is on iff it was on before or that action's update succeeded; loading is untouched |
| `Engage.HandlersCelebrateBoth` | src/pages/EngagePage.js:51-56 | from a settled state, where the confetti is on exactly when both check marks are (as after the first load of the page), the handlers keep it settled: the confetti is then on exactly when each action was recorded or succeeded |
| `Engage.BothActionsCelebrateOnce` | src/pages/EngagePage.js:90-120 | whatever the load gave, a visit where both actions succeed, in either order and among failures, ends with the confetti on, turned on once |
| `Engage.NoConfettiWithoutReview` | src/pages/EngagePage.js:23-56 | a visit whose load did not show a recorded review (a fresh document with both flags false, no document, or a failed read) and whose review never succeeds gets no confetti, however often the customer follows |
| `Engage.EngagePage.constructor` | src/pages/EngagePage.js:14-17 | the page starts with no check marks, no confetti, and loading |
| `Engage.EngagePage.CelebrationEffect` | src/pages/EngagePage.js:51-56 | the fields change as `Celebrate` says |
| `Engage.EngagePage.Initialize` | src/pages/EngagePage.js:23-46 | the page takes the load step for what the read found; the store gains the new document only when the read found none and the write went through; a check mark shown is always one the store records |
| `Engage.EngagePage.HandleGoogleReview` | src/pages/EngagePage.js:90-104 | the store records the review iff the update succeeds; only then does the check mark turn on, followed by the effect; a shown check mark stays recorded |
| `Engage.EngagePage.HandleInstagramFollow` | src/pages/EngagePage.js:106-120 | the same for the follow |
| `AdminDashboard.RedeemableHasEarned` | src/pages/AdminDashboard.js:549 | a customer offered the redeem button has earned at least 10% |
| `AdminDashboard.Dashboard.constructor` | src/pages/AdminDashboard.js:12-22 | the initial state: empty table, no messages, nothing running, no dates |
| `AdminDashboard.Dashboard.SetDates` | src/pages/AdminDashboard.js:463-478 | the date inputs set the range; the table, the messages, the downloads and the three busy flags are unchanged |
| `AdminDashboard.Dashboard.RedeemEnabled` | src/pages/AdminDashboard.js:549-558 | the redeem button is shown and enabled: offered by `Search.CanRedeem` and not disabled by a running redemption; `AdminDashboard.Dashboard.RedeemDiscount` re-enables it exactly where it is offered |
| `AdminDashboard.Dashboard.Search` | src/pages/AdminDashboard.js:36-118 | a search clears the success message and ends loading; the table holds exactly the found entries, or nothing; the error line is the one for the outcome |
| `AdminDashboard.Dashboard.RedeemDiscount` | src/pages/AdminDashboard.js:120-144 | on success, the store records the redemption at the server's time, the table entry shows it at the browser's time, and the success message is set; otherwise only the error is set; the running flag is cleared in both cases, so, by the definition of `RedeemEnabled`, the button is enabled again exactly for the entries that offer it; loading, exporting, the dates and the downloads are unchanged |
| `AdminDashboard.Dashboard.ShowExport` | src/pages/AdminDashboard.js:207-307 | a produced file is appended to the downloads with the success message; an empty answer or a failure sets the matching error line and hands nothing over |
| `AdminDashboard.Dashboard.RunExport` | src/pages/AdminDashboard.js:155-307 | a file is handed over iff the export succeeds, and it is the serialised rows; the error line is the one for the outcome; the export ends not running |
| `AdminDashboard.Dashboard.ExportCsv` | src/pages/AdminDashboard.js:155-307 | the shared export over the query as the dashboard computes it for the chosen dates; an empty answer reports no customers matching the date criteria; the table, loading, redeeming and the dates are unchanged |
| `AdminDashboard.Dashboard.DirectExportCsv` | src/pages/AdminDashboard.js:309-422 | the shared export over the unfiltered query; an empty answer reports no customers in the database; the table, loading, redeeming and the dates are unchanged |

## Left out

- Store execution: the store, its query engine and the network are not
  modelled. Each handler receives the answer of its query, which must satisfy
  `Query.Answers`, plus whether each read or write throws.
- Staff authentication on the dashboard: sign-out, the redirect of signed-out staff, and
  navigation are not modelled.
- The download mechanism: the Blob, the object URL, the hidden link, and the
  file names (`bhutan-customers-<date>.csv` and `bhutan-customers-all-<date>.csv`)
  are not modelled. The exported text is appended to `downloads`.
- `Export.DataRow`: the date cells use the parameter `fmt` in place of
  `toLocaleDateString`. The three timestamp representations (a store
  timestamp, `{seconds}`, and a plain date) are one `Timestamp`.
- `Search.Lower`: lower-cases ASCII letters only. `toLowerCase` also maps other
  Unicode letters, and there is no Unicode case mapping here.
- `Csv.DocumentRoundTrip`: the reader is defined for the dialect the export
  emits, not for a general CSV reader. The round trip holds only for cells
  without line feeds, as `Csv.LineFeedSplitsRecord` shows. The reader also
  undoubles quotes in a field that is not wrapped, which an RFC 4180 reader
  does not: a cell `C"D` is written as `C""D`, which this reader reads back as
  `C"D` and a standard reader would not.
- `Query.LocalDay`: the browser's offset from UTC is one constant, so a
  daylight-saving change inside the chosen date range is not modelled.
- `Engage.HandlersCelebrateBoth`: its settled precondition holds after the
  first load of a page. A later load, when the customer id changes without the
  page being left, copies the new document's flags but never clears the
  confetti, so the confetti can then be on while both check marks are off.
- Timers:
  - The 100 ms interval is modelled as a sequence of firings.
  - Clearing the success message after 3 seconds is left out.
  - Overlapping intervals are left out. A total that changes mid-animation
    can leave an old interval running; such a stale interval pulls the
    display down to its own total.
- Concurrency: the interleaving of the engagement page's load with a handler
  is not covered by the monotonicity lemmas. A load that finishes after a
  handler overwrites the check marks with the document's flags; the lemmas
  cover the handlers between loads.
- The confetti canvas, its settings, `window.open` of the review and Instagram
  links, and all console logging are not modelled.
- The welcome page, the router, and the `Button`, `InputField` and `Header`
  components are not part of this model.
- Search entries pair the customer with its engagement data, where the source
  spreads both into one object. No field name is shared, so nothing is lost.
- `serverTimestamp()` and the browser's `new Date()` are two separate
  parameters of the redemption.
- A field stored as null and a field that is absent are both `None`.
- `Query.Answers`: because of that, an answer may leave out a stored document
  whose order field is `None`. The store leaves out such documents only when
  the field is absent; it lists them when the field is null, first in
  ascending order and last in descending order (as `Query.InOrder` places
  `None`). So the model
  admits more answers than the store gives, and every handler contract holds
  for the store's own answers as well.

## Findings

| source | as written | input that shows it | evidently intended | confidence | as-written member | corrected member |
|---|---|---|---|---|---|---|
| src/pages/AdminDashboard.js:166-190 | `new Date("YYYY-MM-DD")` parses a date-only string as midnight UTC, and `setHours` then moves to the start or end of the local day containing that instant. West of UTC this is the day before the chosen one, for both bounds. | browser at UTC-5, end date 2024-01-31, a customer added at local noon on 2024-01-31: excluded | both bounds follow the chosen local days, so the range includes both end days | high (date-only strings parse as UTC per the ECMAScript date format), not executed | `Query.AsWrittenIsOneDayEarlyWestOfUtc` | `Query.InclusiveWindow` |
