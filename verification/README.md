# Event-registration portal: verified kernel

This project models the logic core of a small event-registration portal.
Participants fill in a form for one of five fixed events (Paper Quest,
Hack'n'Hammer, Byte Fest, Cinephile, e-sports). The form checks the phone
number, checks for an already-registered e-mail and checks the team size.
It uploads a presentation when the event asks for one, then inserts the
record through the registrations hook. After that the hook calls the
"on-duty" e-mail function and refetches the table. The portal page is meant
to close a category's tabs and forms once 50 registrations are in it. As
written it never does, because the counts it reads are undefined (see
"## Findings"). The page guards an admin dashboard behind a password. The dashboard filters and searches the
loaded records, counts uploaded files and shapes the rows of its spreadsheet
and PDF exports.

The hosted backend is abstract (`Backend`). It has a table kept newest row
first, and a log `calls` of every request made, in order. Each request's
failure is an input. Given those, the model states which requests each
operation makes, in which order, and what state it leaves behind.

Modules follow the source files:

| module | source |
|---|---|
| `Catalog` | `src/types/registration.ts` (and the configuration lookups that use it) |
| `Intake`, `RegistrationForm` | `src/components/RegistrationForm.tsx` (pure rules; the component's state and handlers) |
| `AdminDashboard` | `src/components/AdminDashboard.tsx` |
| `IndexPage` | `src/pages/Index.tsx` |
| `RegistrationsHook` | `src/hooks/useRegistrations.ts` |
| `Backend` | the backend requests the hook and the form make |
| `Text`, `Listing`, `Wrappers` | JavaScript string built-ins, `Array.filter`, Option/Result |

Stateful parts are classes whose methods are proved against specification
functions. `RegistrationsView.SubmitRegistration` is specified by
`SubmitSpec`. `Form.HandleSubmit` is specified by `SubmitFlow`.
`RegistrationsView.FetchRegistrations` is specified by `AfterFetch`. The
lemmas state the source's promises about those functions.

## Model

| member | source | states |
|---|---|---|
| `Catalog.Events` | src/types/registration.ts:19-25 | the event list has exactly five entries, in display order, with no duplicates |
| `Catalog.EventsComplete` | src/types/registration.ts:17-25 | every event of the `EventName` union appears in the list |
| `Catalog.LabelInjective` | src/types/registration.ts:17 | two events have the same stored name only if they are the same event |
| `Catalog.EventNameUnrestricted` | src/types/registration.ts:1-15 | the record's `event_name` is a plain string: a record can name an event outside the catalog |
| `Catalog.FindConfig` | src/pages/Index.tsx:30 | `find` returns a configuration stored under the name; it returns none iff no configuration has that name |
| `Catalog.FindConfigFirst` | src/pages/Index.tsx:168 | `find` returns the first configuration with the name |
| `Catalog.OrEmpty` | src/components/AdminDashboard.tsx:78-84 | `x \|\| ''`: an absent field becomes `''`, and a present non-empty one is kept |
| `Text.NatString` | src/components/AdminDashboard.tsx:117 | `toString` of a number yields a non-empty string of digits |
| `Text.ParseNatString` | src/components/RegistrationForm.tsx:115 | `parseInt` applied to what `toString` wrote gives the number back |
| `Text.TrimEmptyIffBlank` | src/components/RegistrationForm.tsx:101 | `s.trim()` is empty iff every character of `s` is white space |
| `Text.IncludesIff` | src/components/AdminDashboard.tsx:42-44 | `includes` holds iff the term occurs at some position |
| `Listing.Keep` | src/components/AdminDashboard.tsx:37-45 | `filter` keeps exactly the elements that pass and never lengthens the sequence |
| `Listing.KeepIsSubsequence` | src/components/AdminDashboard.tsx:33-49 | a filter result is an order-preserving subsequence of its input |
| `Listing.KeepPreservesSubsequence` | src/components/AdminDashboard.tsx:40-46 | a second filter applied to a subsequence still gives a subsequence |
| `Listing.SubsequenceLength` | src/components/AdminDashboard.tsx:270 | a subsequence is no longer than the sequence ("Showing n of m") |
| `Listing.KeepCountsPositions` | src/components/AdminDashboard.tsx:210 | `filter(...).length` is the number of positions whose element passes |
| `Backend.Stamped` | src/hooks/useRegistrations.ts:29-33 | the stored row is the submitted one plus a server id and timestamp, and it agrees with it everywhere else |
| `Backend.LookupReply` | src/hooks/useRegistrations.ts:70-74 | a single-row lookup finds only a stored row with exactly that e-mail; with no fault, "no row" means no row has that e-mail |
| `Backend.Store.List` | src/hooks/useRegistrations.ts:12-15 | the list request returns the whole table, newest first, or the fault |
| `Backend.Store.FindByEmail` | src/hooks/useRegistrations.ts:70-74 | the lookup request answers as `LookupReply` and is logged |
| `Backend.Store.Insert` | src/hooks/useRegistrations.ts:29-33 | an accepted insert puts the stamped row in front of the table; a failed one changes nothing |
| `Backend.Store.Upload` | src/components/RegistrationForm.tsx:65-73 | the upload request returns the storage path, or the fault |
| `Backend.Store.Invoke` | src/hooks/useRegistrations.ts:39-46 | the e-mail function request is logged with its body; its reply is the fault, if any |
| `RegistrationsHook.FetchOutcome` | src/hooks/useRegistrations.ts:10-25 | after a fetch `loading` is false; on success the view is the table and `totalCount` its length; on failure rows and count are unchanged |
| `RegistrationsHook.RegistrationsView.constructor` | src/hooks/useRegistrations.ts:6-8 | a new hook has no rows, count 0, and is loading |
| `RegistrationsHook.RegistrationsView.FetchRegistrations` | src/hooks/useRegistrations.ts:10-25 | makes one list request; the new state is `AfterFetch` of the old one and keeps `totalCount == \|registrations\|` |
| `RegistrationsHook.EmailExistsIff` | src/hooks/useRegistrations.ts:68-77 | with a working backend and at most one row per e-mail, the check says yes iff some row has exactly that e-mail |
| `RegistrationsHook.EmailCheckFailsOpen` | src/hooks/useRegistrations.ts:76-81 | a failed lookup, or an e-mail stored twice, reads as "not registered" |
| `RegistrationsHook.RegistrationsView.CheckEmailExists` | src/hooks/useRegistrations.ts:68-82 | makes one lookup request and returns `EmailExists` of the table |
| `RegistrationsHook.FailureMessage` | src/hooks/useRegistrations.ts:63 | the failure text is the store's message when it has one, otherwise "Registration failed"; it is never empty |
| `RegistrationsHook.SubmitChecksNothing` | src/hooks/useRegistrations.ts:27-33 | the first request is the insert, and the result and requests do not depend on what the table holds: no capacity or duplicate check |
| `RegistrationsHook.InsertFailureIsFinal` | src/hooks/useRegistrations.ts:35-64 | a failed insert returns `success: false` with the message, makes no e-mail request or refetch, and changes nothing |
| `RegistrationsHook.InsertSuccessRefetches` | src/hooks/useRegistrations.ts:37-58 | an accepted insert is followed by the e-mail request and a refetch; the result is the stored row, which equals the submitted record apart from the server-assigned id and timestamp; a working refetch shows it first |
| `RegistrationsHook.RegistrationsView.SubmitRegistration` | src/hooks/useRegistrations.ts:27-66 | result, table, requests and view are those of `SubmitSpec`, whatever the e-mail function replied |
| `Intake.DigitsOnly` | src/components/RegistrationForm.tsx:79 | `replace(/\D/g, '')` yields only digits, is no longer than its input, and leaves a digit string unchanged |
| `Intake.DigitsOnlyKeepsDigits` | src/components/RegistrationForm.tsx:79 | the digits of the input are all kept, in order, and nothing else: the result is the input filtered by "is a digit" |
| `Intake.SanitizePhone` | src/components/RegistrationForm.tsx:227-231 | the phone field holds the input's digits in order, the first 10 of them when there are more; a digit string of length at most 10 is kept as is |
| `Intake.SanitizeIdempotent` | src/components/RegistrationForm.tsx:229 | sanitising twice is sanitising once |
| `Intake.PhoneRejectedIff` | src/components/RegistrationForm.tsx:79 | a phone is refused iff it is non-empty and its digits are not exactly ten |
| `Intake.SanitizedPhoneCheck` | src/components/RegistrationForm.tsx:79 | a phone typed through the input passes iff it is empty or has 10 digits |
| `Intake.TeamTooLargeIff` | src/components/RegistrationForm.tsx:101 | the team check refuses iff the event takes 2 members and the third member has a visible character |
| `Intake.Set` | src/components/RegistrationForm.tsx:43-48 | `handleInputChange` changes the named field and no other |
| `Intake.YearValue` | src/components/RegistrationForm.tsx:115 | a selected year parses to 1..4, and the option is the text of that number |
| `Intake.YearRoundTrip` | src/components/RegistrationForm.tsx:115 | writing the parsed year back as text gives the selected option |
| `Intake.RecordCarriesForm` | src/components/RegistrationForm.tsx:113-118 | the inserted record carries every form field unchanged, the selected event's name and the upload path, and no id or timestamp |
| `RegistrationForm.UploadKey` | src/components/RegistrationForm.tsx:66 | the storage key starts with the e-mail and a dash and ends with a dash and the file's name, with the upload time between |
| `RegistrationForm.Form.constructor` | src/components/RegistrationForm.tsx:22-34 | a new form has every field empty, no file, and is not submitting |
| `RegistrationForm.PhoneCheckedFirst` | src/components/RegistrationForm.tsx:79-87 | the outcome is "invalid phone" iff the phone is refused, and then no request is made |
| `RegistrationForm.DuplicateEmailStops` | src/components/RegistrationForm.tsx:89-98 | after a "registered" answer only the lookup was made: no team check, upload or insert |
| `RegistrationForm.TeamSizeRefusedIff` | src/components/RegistrationForm.tsx:100-108 | past the first two checks, the team refusal happens iff the team rule refuses, before any upload or insert |
| `RegistrationForm.UploadOnlyWhenDue` | src/components/RegistrationForm.tsx:109-112 | an upload request is made iff all checks passed and the event wants a file that is selected |
| `RegistrationForm.InsertedRecord` | src/components/RegistrationForm.tsx:109-119 | an insert happens only after every check passed and any upload succeeded; the record carries the form, the event and the path, or no path when no file was due |
| `RegistrationForm.RegisteredIsStored` | src/components/RegistrationForm.tsx:119-120 | an accepted registration is in front of the table, with the form's fields and a server id and timestamp |
| `RegistrationForm.Form.InputChange` | src/components/RegistrationForm.tsx:43-48 | only `formData` changes, by `Set` |
| `RegistrationForm.Form.PhoneInput` | src/components/RegistrationForm.tsx:227-231 | the stored phone is the sanitised input: digits only, at most 10 |
| `RegistrationForm.Form.FileChange` | src/components/RegistrationForm.tsx:49-64 | an allowed MIME type replaces the file; otherwise the file is unchanged |
| `RegistrationForm.Form.HandleSubmit` | src/components/RegistrationForm.tsx:74-161 | outcome, requests, table and hook state are those of `SubmitFlow`; the form is reset to empty fields and no file exactly when registered, and kept otherwise; `submitting` is false at the end |
| `AdminDashboard.FilteredAsWritten` | src/components/AdminDashboard.tsx:33-49 | a record is shown iff it is loaded, its `event_name` equals the filter (unless "all"), and it matches a non-empty search |
| `AdminDashboard.FilteredAsWrittenIsSubsequence` | src/components/AdminDashboard.tsx:33-49 | the shown records keep their order and are no more than the loaded ones |
| `AdminDashboard.FilteredAsWrittenIdentity` | src/components/AdminDashboard.tsx:36-40 | "all" with an empty search shows every record in order |
| `AdminDashboard.SearchIff` | src/components/AdminDashboard.tsx:40-46 | the search keeps a record iff the lower-cased term occurs in the lower-cased name, e-mail or college |
| `AdminDashboard.CategoryOptionMatchesNothing` | src/components/AdminDashboard.tsx:36-38 | the "technical" and "non-technical" options, compared literally with `event_name`, show nothing over records that name catalog events |
| `AdminDashboard.Filtered` | src/components/AdminDashboard.tsx:33-49 | the same filter with the category options selecting by configured category |
| `AdminDashboard.FilteredProperties` | src/components/AdminDashboard.tsx:33-49 | the corrected filter keeps order, is the identity for "all" with no search, and agrees with the written one on every other option |
| `AdminDashboard.CategoryOptionSelectsCategory` | src/components/AdminDashboard.tsx:244-245 | with the correction, a category option shows exactly that category's records, in order |
| `AdminDashboard.FilesUploadedCounts` | src/components/AdminDashboard.tsx:210 | "Files Uploaded" is the number of records with a non-empty upload path |
| `AdminDashboard.FilterSlug` | src/components/AdminDashboard.tsx:92 | the file-name part is "all" for the "all" filter; otherwise position by position it keeps each `[A-Za-z0-9]` character of the filter and turns every other character into `_` |
| `AdminDashboard.FilterSlugIdempotent` | src/components/AdminDashboard.tsx:92 | alphanumeric characters are kept, so a slug is its own slug |
| `AdminDashboard.ExportFileName` | src/components/AdminDashboard.tsx:92 | the export file name is `registrations_`, the safe filter part, `_`, then the date and the extension |
| `AdminDashboard.Sheet` | src/components/AdminDashboard.tsx:72-86 | row i of the spreadsheet holds record i: its 13 named columns carry that record's fields, with the year as a number and absent optional fields as `''` |
| `AdminDashboard.PdfBody` | src/components/AdminDashboard.tsx:106-125 | row i of the PDF table holds record i in 12 cells, as many as the header: its fields in header order, with the year as decimal text and absent optional fields as `''` |
| `AdminDashboard.ExportSheet` | src/components/AdminDashboard.tsx:71-86 | the spreadsheet export has one row per record the table shows (the filter as written), in the same order, and no more rows than loaded |
| `AdminDashboard.ExportPdf` | src/components/AdminDashboard.tsx:96-125 | the PDF export has one row per record the table shows (the filter as written), in the same order, and no more rows than loaded |
| `AdminDashboard.ExportsAgree` | src/components/AdminDashboard.tsx:72-125 | every field but the year and the timestamp holds the same text in both exports; the year is a number in the spreadsheet and its decimal text in the PDF; absent optional fields are `''` in both |
| `IndexPage.CategoryCountsBounded` | src/pages/Index.tsx:27-28 | the Technical and Non-Technical counts add up to at most the number of registrations |
| `IndexPage.CountStep` | src/pages/Index.tsx:27-28 | a new registration adds one to its own category's count; a full category stays full, and the 50th registration closes it |
| `IndexPage.FlagsOf` | src/pages/Index.tsx:27-28 | a category is full iff its count of loaded registrations is at least 50 |
| `IndexPage.FlagsAsWritten` | src/pages/Index.tsx:22-28 | the capacity flags as the page computes them from the counts it reads are never set |
| `IndexPage.NothingClosedAsWritten` | src/pages/Index.tsx:107-175 | with those flags no tab and no form is disabled, and the "all events are closed" notice never shows |
| `IndexPage.NeverFullAsWritten` | src/pages/Index.tsx:22-28 | as written, the flag is not set even with 50 Technical registrations loaded |
| `IndexPage.SelectedEventFull` | src/pages/Index.tsx:30-31 | the selected event is full per the Technical flag iff its configuration is Technical; otherwise, a missing configuration included, per the Non-Technical flag |
| `IndexPage.TabDisabledIff` | src/pages/Index.tsx:167-175 | a tab is disabled iff its category is full, and exactly then its form is disabled too |
| `IndexPage.AllClosedDisablesEveryTab` | src/pages/Index.tsx:107 | when both categories are full (the "all closed" notice) every tab is disabled |
| `IndexPage.Portal.Shown` | src/pages/Index.tsx:50-52 | the dashboard is shown iff `showAdmin` is set |
| `IndexPage.Portal.constructor` | src/pages/Index.tsx:16-20 | the page starts on Paper Quest with every session field cleared |
| `IndexPage.Portal.OpenLogin` | src/pages/Index.tsx:98 | the login button opens the panel |
| `IndexPage.Portal.EnterPassword` | src/pages/Index.tsx:129 | typing sets the password field |
| `IndexPage.Portal.Login` | src/pages/Index.tsx:33-41 | the right password sets `showAdmin`, hides the panel and clears the error; a wrong one only sets "Invalid password" |
| `IndexPage.Portal.Logout` | src/pages/Index.tsx:43-48 | all four session fields return to their initial values and the portal is shown |
| `IndexPage.Portal.Cancel` | src/pages/Index.tsx:142-146 | clears password and error and hides the panel, leaving `showAdmin` unchanged |
| `IndexPage.Portal.SelectEvent` | src/pages/Index.tsx:165-175 | a click on a disabled tab changes nothing and any other click selects that event; with the flags as written (never set) every click selects |
| `IndexPage.Portal.FormDisabled` | src/pages/Index.tsx:232-235 | the selected event's form is disabled exactly when its tab is; with the flags as written (never set) it is never disabled |

## Left out

- The e-mail function's HTTP handler, its e-mail provider and its HTML template. The model keeps only the request and the fact that its reply is ignored.
- File storage contents and signed download links. An upload is one logged request. Its key includes the upload time, which is an input (`Replies.now`).
- Spreadsheet and PDF file writing, column widths, and every date or locale rendering. Timestamps are passed through formatting functions given as inputs.
- The event configuration values and `getEventConfig`. They are not part of the type file. The configuration list, and the category lookup used by the exports, are inputs.
- Progress bars (float percentages) and the display-only "20 participants" and "/100" texts. Neither is enforced anywhere.
- Rendering, toasts, DOM queries and clearing the file input element.
- Concurrency. One sequential caller is modelled. The race between the e-mail check and the insert across clients is not.
- The mount-time fetch of the hook is not a separate member. It is the constructor followed by one `FetchRegistrations`.
- Intake.YearValue: `parseInt` is modelled only on the four selectable years. `HandleSubmit` requires a selected year, so the NaN case is not modelled.
- Text.Lower: `toLowerCase` is modelled on A–Z only. Other letters are not case-folded, so the search's case-insensitivity covers ASCII letters only.
- Backend.LookupReply: an e-mail stored in two or more rows makes the single-row query report error code PGRST116 with no row. This follows the client library's `maybeSingle`. The source treats that code as "no row".
- The table's `ORDER BY created_at DESC` is modelled as insertion order. An accepted insert goes in front of the table, and `created_at` values are never compared. So "newest first" holds by construction, for a server whose timestamps grow.
- The corrected category filter (`AdminDashboard.Filtered`) is not used by the exports. The exports follow the source and use the filter as written.
- Browser form validation (`required`, `type="email"`) is not modelled. The handlers' own checks are.

## Findings

| source | as written | input that shows it | evidently intended | confidence | as-written member | corrected member |
|---|---|---|---|---|---|---|
| src/pages/Index.tsx:22-28 | `technicalCount` and `nonTechnicalCount` are read from the registrations hook, which returns neither (src/hooks/useRegistrations.ts:88-95). Both are `undefined`, and `undefined >= 50` is false | 50 loaded registrations for a Technical event: no tab or form is disabled | a category closes once 50 loaded registrations belong to it | high; not executed | `IndexPage.NeverFullAsWritten` | `IndexPage.FlagsOf` |
| src/components/AdminDashboard.tsx:36-38 | the "Technical Events" and "Non-Technical Events" options have values `technical` and `non-technical`. These are compared with `event_name`, which holds an event's name | any loaded records naming catalog events, with the "Technical Events" option selected: nothing is shown | the two options select records by their event's category | high; not executed | `AdminDashboard.CategoryOptionMatchesNothing` | `AdminDashboard.CategoryOptionSelectsCategory` |
