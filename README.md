# Union dues dashboard: a Dafny model of app.js

This project models the browser dashboard in `app.js`. On that dashboard an
institution logs in against a credentials document, views its summary totals and
members, views and exports its payment history, and logs a new payment,
optionally with a schedule file attached. Backend answers, the user's input and
the page's elements are represented as values. The handlers that change the
page's state are methods of classes, and each method is tied to pure functions
whose properties are proved as lemmas.

Files and modules:

- `wrappers.dfy` (`Wrappers`): `Option` for a property that may be missing, and
  `Fetch` for a fetch whose body was received and decoded, or which failed.
- `text.dfy` (`Text`): ASCII `toLowerCase`, `includes`, `join` and its inverse
  `Split`, with the round-trip lemmas the CSV export needs.
- `session.dfy` (`Session`): the institution list, the ID→password map
  built from it, the login test, and the `SessionManager` class. That class
  holds the module-level variables of app.js lines 5-9, and its methods are the
  credentials callback, the login handler and the logout handler.
- `members.dfy` (`Members`): the member search filter and the `MemberList`
  class, which holds the fetched snapshot and the displayed rows.
- `payments.dfy` (`Payments`): the CSV text of the download button and the
  `PaymentHistory` class.
- `summary.dfy` (`Summary`): the `|| 0` defaults of the summary cards.
- `submission.dfy` (`Submission`): one payment submission as a trace of events,
  plus the `PaymentForm` class whose callbacks produce it.

Two behaviours of the code worth knowing; the model follows the code:

- Clearing the member search does not always restore the full snapshot. With
  the empty query, a member whose MemberID, Name and JobTitle are all missing or
  empty fails the `m.X && ...` guards and is dropped
  (`Members.ClearedSearchRestoresIff`, `Members.ClearedSearchDropsBlankMember`).
- A failed login sets the `login-error` text. Neither a later successful
  login nor a logout clears it (`Session.SessionManager.Login`,
  `Session.SessionManager.Logout`).

The delegated login variant, where a remote `login` action decides and returns
a session context, is not in this code. Only the local credential map is modelled.

## Model

| member | source | states |
|---|---|---|
| Session.CredentialMapKeys | app.js:23 | the credential map has a key exactly for each ID that occurs in the institution list |
| Session.CredentialMapLast | app.js:23 | when an ID appears more than once, the map holds the password of the last entry with that ID |
| Session.AcceptsIff | app.js:23-37 | login is accepted iff the entered password is non-empty and equals the password of the last list entry with the selected ID; both directions |
| Session.DisplayName | app.js:39 | the shown name comes from the first entry with the ID (or '' when it has none); it is '' when no entry has that ID |
| Session.DuplicateIdLastPasswordWins | app.js:23-39 | with a duplicated ID, the earlier entry's password is refused and the later one's accepted, while the name still comes from the earlier entry |
| Session.SessionManager.constructor | app.js:5-9 | the initial state: empty list and map, no institution, `session = {}`, login form shown |
| Session.SessionManager.OnCredentialsLoaded | app.js:19-30 | a received document's `institutions` (or []) becomes the list and the map is rebuilt from it; a failed fetch leaves the list; the session is untouched either way |
| Session.SessionManager.Login | app.js:32-45 | the result is exactly the login test; on success the ID, the name, the session and the dashboard are set; on failure only the error text changes |
| Session.SessionManager.Logout | app.js:59-68 | the session, ID and name are cleared and the login form is shown, whatever the prior state; on a logged-out state nothing changes (idempotent) |
| Text.Lower | app.js:103-107 | the result has the same length and no upper-case letter; each upper-case letter becomes its lower-case letter (code point + 32) and every other character is kept |
| Text.LowerIdempotent | app.js:103-107 | lower-casing twice is the same as lower-casing once |
| Text.IncludesEmpty | app.js:105-107 | every string includes the empty string |
| Text.SplitPieces | app.js:149 | splitting at a separator gives one more piece than the number of separators in the text |
| Text.JoinSplit | app.js:149 | joining the pieces of a split with the same separator gives the text back |
| Text.SplitJoin | app.js:149 | splitting a join of parts free of the separator gives the parts back |
| Text.SplitJoinOverflows | app.js:149 | when some part contains the separator, splitting the join gives more pieces than there were parts |
| Text.JoinEachExcludes | app.js:149 | a character that is neither the separator nor in any field is in no joined line |
| Members.Filter | app.js:104-108 | the view is a subsequence of the snapshot in original order; every member in it matches; each matching member occurs in it exactly as often as in the snapshot (duplicates kept) and no other member occurs |
| Members.FilterMembership | app.js:104-108 | a member is in the view iff it is in the snapshot and matches the query |
| Members.FilterIdempotent | app.js:102-110 | filtering the view again by the same query changes nothing |
| Members.FilterCommutes | app.js:102-110 | filtering by two queries in either order gives the same view |
| Members.EmptyQueryMatches | app.js:103-108 | the empty query matches a member iff it has a non-empty MemberID, Name or JobTitle |
| Members.FilterKeepsAllIff | app.js:104-108 | the view is the whole snapshot iff every member matches |
| Members.ClearedSearchRestoresIff | app.js:102-110 | clearing the search restores the snapshot exactly iff every member has a non-empty searchable field |
| Members.ClearedSearchDropsBlankMember | app.js:104-108 | a member with no MemberID, no Name and an empty JobTitle is dropped by the empty query |
| Members.CaseInsensitive | app.js:103-107 | a query selects the same members as its lower-cased form |
| Members.FilterSameMatches | app.js:104-108 | two queries that match the same members give the same view |
| Members.MemberList.OnMembersLoaded | app.js:98-102 | a received `members` (or []) becomes the snapshot and is shown in full, and the search is bound; a failed fetch changes nothing |
| Members.MemberList.OnSearchInput | app.js:102-110 | once bound, the view is recomputed from the whole snapshot (never from the previous view); the snapshot is unchanged |
| Payments.CsvLineValues | app.js:140-149 | the export has one line per payment plus the header line first, and line i+1 is payment i's fields joined by commas |
| Payments.CsvLines | app.js:149 | when no field holds a line break, splitting the export at line breaks gives the header line and then each payment's line, in snapshot order |
| Payments.LinesFree | app.js:149 | when no field holds a line break, no joined line does |
| Payments.CsvFields | app.js:140-149 | when no field holds a comma or a line break, line i+1 splits back into payment i's nine fields in header order |
| Payments.RowRoundTrip | app.js:144-149 | a row whose fields hold no comma splits back into its fields |
| Payments.EmptyHistoryCsv | app.js:140-149 | with no payments the export is the header line alone |
| Payments.CommaInFieldShiftsColumns | app.js:144-149 | fields are not escaped: a comma in any field makes the line read back with more than nine columns |
| Payments.BuildRows | app.js:140-148 | the loop builds the header then one row per payment in order; a missing ReceiptNumber, PickupDate or ScheduleFileLink becomes '' |
| Payments.PaymentHistory.OnHistoryLoaded | app.js:135-139 | a received `payments` (or []) becomes the snapshot and the download is bound to it; a failed fetch changes nothing |
| Payments.PaymentHistory.DownloadCsv | app.js:139-149 | once bound, the download yields the CSV text of the latest snapshot; before that, nothing |
| Summary.OrZero | app.js:86-89 | the result is truthy or the number 0; a truthy value is kept; a value is replaced only if it is falsy, and then by 0 |
| Summary.OrZeroIdempotent | app.js:86-89 | defaulting twice is the same as defaulting once |
| Summary.Shown | app.js:85-91 | a failed fetch leaves the cards as they were; for a received summary every card is truthy or 0, and each of the four cards shows its figure when truthy and 0 when falsy |
| Summary.ReceivedIgnoresPrior | app.js:85-89 | a received summary replaces all four cards, whatever they showed before |
| Summary.TruthyShownAsIs | app.js:86-89 | a summary whose four figures are all truthy is shown exactly as received |
| Submission.Count | app.js:188-252 | the count is at most the trace length, and it is zero iff no event of that kind occurs |
| Submission.CountAppend | app.js:188-252 | counting distributes over concatenation of traces |
| Submission.OutcomeCounts | app.js:240-251 | an answer's effects issue no request; one message iff the backend answered; one history reload, one summary reload and one reset iff it answered with success |
| Submission.NoRequestsAmongEffects | app.js:240-251 | an answer's handlers issue no upload or log request, and a transport error sets no message |
| Submission.FailureCount | app.js:246-249 | an answer without success gives one message and no reload or reset |
| Submission.SuccessCount | app.js:241-245 | an answer with success gives exactly one message, one history reload, one summary reload and one reset |
| Submission.RequestCounts | app.js:209-233 | an upload is issued exactly once when a file is attached and read, and never otherwise; `logPayment` is issued exactly once unless the file's read or upload failed, and then never |
| Submission.NoFileDraft | app.js:200-227 | without a file, the first request is `logPayment` with the session's institution, the five form values and no schedule link, and nothing is uploaded |
| Submission.UploadPrecedesLog | app.js:209-225 | with a file: an unread file sends nothing; a failed upload is the only event; otherwise the upload comes first and `logPayment` follows carrying `scheduleFileLink = fileUrl`; every upload precedes every log request |
| Submission.SuccessEffects | app.js:241-249 | after a success answer: exactly one history reload, one summary reload and one reset, ending with message, reloads, reset and a 4000 ms clear, in that order |
| Submission.FailureEffects | app.js:246-249 | after an answer without success: no reload and no reset; it ends with the failure message and a 4000 ms clear |
| Submission.TransportErrorEffects | app.js:251 | a transport or decoding error after `logPayment` only logs to the console: no message, no reload |
| Submission.EffectCounts | app.js:209-251 | the reload, reset, message, timer and console counts of a whole submission are those of its answer's effects |
| Submission.PaymentForm.constructor | app.js:188-189 | the form starts empty, with no message and no events |
| Submission.PaymentForm.Fill | app.js:192-198 | the user's input replaces the form values; message and trace are untouched |
| Submission.PaymentForm.SubmitPayment | app.js:232-238 | exactly one `logPayment` request carrying the draft is appended to the trace |
| Submission.PaymentForm.OnSubmit | app.js:190-229 | builds the draft from the session ID and the inputs; with a file it sends nothing yet and leaves the reader's `onload` waiting, otherwise it issues `logPayment` at once |
| Submission.PaymentForm.OnFileRead | app.js:210-225 | only a completed read sends the upload request for the file and leaves the upload callback waiting; a failed read sends nothing and changes nothing |
| Submission.PaymentForm.OnUploadAnswer | app.js:219-223 | on an upload answer the draft gets `scheduleFileLink = fileUrl` and is submitted; otherwise nothing happens |
| Submission.PaymentForm.OnLogAnswer | app.js:239-251 | appends exactly the answer's effects; success empties the form and sets the success message; failure sets the failure message; a transport error touches neither |
| Submission.PaymentForm.OnMessageTimeout | app.js:249 | the timer empties the message and nothing else |
| Submission.PaymentForm.Submit | app.js:188-252 | one submission run to its end extends the trace by exactly the submission trace; the form is emptied iff `logPayment` was issued and answered with success; the message becomes the success or failure text iff `logPayment` was answered, and is untouched otherwise |

## Left out

- The DOM (tabs, the `<option>` list, table rendering, element visibility beyond one flag) is not modelled, nor are `populateMembersTable`, `populatePaymentsTable` and `statusLabel`. They only render HTML.
- The network is not modelled. `fetch`, `res.json()` and CORS are replaced by a `Fetch` or outcome value given as an input.
- The base64 data URL and the `fileData` content are not modelled. An attachment is represented by its file name only. Of the `FileReader`, only whether `onload` fires is modelled.
- The `Blob`, the object URL and the click that downloads `payment_history.csv` are not modelled. The model stops at the CSV text.
- Real timers are not modelled. `setTimeout` is an event recording the 4000 ms delay, and the timer firing is a separate method.
- Asynchronous interleaving is not modelled: two submissions in flight, late responses after logout, or a reload racing a search. Each callback is a method the caller invokes with its answer. `Submit` runs one chain straight through.
- `showDashboard` (app.js:49-57) triggers the three loads and binds the form. In the model these are the separate `On...Loaded` methods, not events of the login.
- The credentials document is fetched once at page load. The model lets `OnCredentialsLoaded` be called at any time.
- Text.Lower: only ASCII letters are case-folded; JavaScript's `toLowerCase` also folds other Unicode letters.
- Members.Matches: searchable fields are strings or missing. A non-string JSON value (for example a numeric MemberID) would make `toLowerCase` throw in the source; that case is not modelled.
- Payments.Row: amounts, counts, status and date are kept as the text `join` writes. JavaScript writes a missing or null required field as '', and that conversion is not modelled. CSV escaping is absent in the source, and `Payments.CommaInFieldShiftsColumns` shows the consequence.
- Summary.Shown: amounts are opaque JSON values, and number formatting by `textContent` is not modelled.
- Submission.UploadOutcome: neither a failed read (no `onerror`) nor a failed upload (no `.catch`) is handled in the source. The model records no event after them, and an unhandled rejection is not modelled.
- Session.Institution: `ID` and `Password` are modelled as strings. A numeric JSON `Password` never equals the typed text under `===`, so that institution can never log in. A numeric `ID` is turned into a string key by `Object.fromEntries`, so the login is accepted, but the `find` at app.js:39 compares `===` against the string and gives the name ''. Neither case is modelled.
- The console messages for failed credential, summary, member and history fetches are not modelled as events. Only the payment submission's console error is recorded.
