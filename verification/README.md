# macro-tracker, modelled in Dafny

This project models the decision logic of the macro-tracker food logger, a
Next.js application. The server side covers resolving a request's bearer
token to a user, creating and listing food entries, storing an uploaded
image and cleaning up the vision model's reply. The client side covers the
macro arithmetic (dashboard summary, daily totals, chart slices) and the
small state machines of the pages: the session context, the fetch helpers,
the auth guard and form, the macro editor, the image picker and the add-entry
form.

Every route handler and event handler is a pure function. Every effect is a
parameter:

- `Auth.Verifier` is the token verifier.
- `Auth.UserTable` is the user store.
- `FoodEntries.Insert` is the database insert, and `FoodEntries.Read` says whether the listing query answers or rejects.
- `UploadImage.Put` is the blob store.
- `AnalyzeFood.ModelReply` is the model call.
- The `parse` and `parseText` oracles are `JSON.parse` and `parseFloat` of text.
- `DayBounds` gives the local day of a date string.
- `fetch`, `localStorage`, `FileReader` and the HEIC converter are outcome
  datatypes, and the stored token is a state field.

Numbers are `real`, so the sums are exact sums.

Layout, one module per source file plus shared ones:

- **Shared:** `Wrappers` (Option), `Strings` (prefix/suffix, ECMAScript
  whitespace and `trim`, ASCII lower-casing, `split`), `Js` (JSON values,
  truthiness, `parseFloat` results, `x || 0`), `Nutrition` (the four macros
  and entry sums).
- **Server:** `Bearer` and `Auth`, `FoodEntries`, `UploadImage`, `AnalyzeFood`.
- **Client:** `Dashboard`, `MacroChart`, `FoodLog`, `MacroEditor`,
  `ImageUpload`, `FoodEntryForm`, `AuthContext`, `ApiClient`, `AuthForm`,
  `AuthGuard`.
- **Cross-component:** `Flows`, which holds properties that span several of
  these modules and the add-entry page with its mounted macro editor.

## Model

| member | source | states |
|---|---|---|
| Bearer.Credentials | src/lib/api.ts:5 | the client's header value is `Bearer ` followed by the token, so dropping its first seven characters gives the token back |
| Auth.GetUserFromRequest | src/lib/auth.ts:33-54 | no exact case-sensitive `Bearer ` prefix means no user, and neither the verifier nor the store is consulted; the verifier sees the header minus seven characters; a rejected token means no lookup; an accepted token gives a user iff its id is stored, with the stored email |
| Auth.NonBearerIgnoresOracles | src/lib/auth.ts:34-38 | a missing or non-bearer header resolves identically under any verifier and any store |
| Auth.LowerCaseSchemeRejected | src/lib/auth.ts:36 | `bearer ` in lower case never resolves to a user |
| Auth.ClientHeaderResolves | src/lib/auth.ts:40-53 | a header built by the client for a verified token of a stored user resolves to that user, with the stored email rather than the payload's |
| Auth.DeletedUserRejected | src/lib/auth.ts:47-53 | a token that verifies but whose user id is no longer stored yields no user |
| FoodEntries.Post | src/app/api/food-entries/route.ts:6-46 | 401 without a user, 400 when `imagePath` is falsy or a macro is `undefined`, 500 on a bad body or failed insert; on success exactly one entry is appended, owned by the caller, with a falsy description stored as null and each macro run through `parseFloat` |
| FoodEntries.ZeroMacrosAccepted | src/app/api/food-entries/route.ts:18 | a body whose four macros are `0` is accepted, because the test is `=== undefined` |
| FoodEntries.CreatedEntryBelongsToCaller | src/app/api/food-entries/route.ts:25-35 | the created row's owner is the authenticated user and its numeric macros are the body's numbers |
| FoodEntries.WindowOf | src/app/api/food-entries/route.ts:58-76 | no or empty `date` means no time restriction; otherwise the local day's bounds, or an invalid day when the date does not parse |
| FoodEntries.SelectEntries | src/app/api/food-entries/route.ts:61-79 | the result holds exactly the store's rows that are the owner's and inside the window, with their multiplicities |
| FoodEntries.SortNewestFirst | src/app/api/food-entries/route.ts:80 | the result is ordered by `createdAt` descending and is a permutation of its input |
| FoodEntries.List | src/app/api/food-entries/route.ts:48-92 | 401 without a user; 500 exactly when the date is unparseable or the `findMany` read rejects; otherwise a newest-first permutation of the caller's rows inside the inclusive day window |
| FoodEntries.ListedRowsSelected | src/app/api/food-entries/route.ts:61-81 | every listed row is stored, is the caller's, and has `createdAt` within the inclusive day bounds when a date is given |
| FoodEntries.CreatedThenListed | src/app/api/food-entries/route.ts:25-81 | a row the caller creates appears in the caller's listing for any window containing its timestamp |
| UploadImage.Extension | src/app/api/upload-image/route.ts:29 | the extension is never empty: `jpg` exactly when the name is empty or ends in a dot, otherwise the dot-free text after the last dot, or the whole name when there is no dot |
| UploadImage.ExtensionIsSplitPop | src/app/api/upload-image/route.ts:29 | the extension is the last element of the name split on `.`, or `jpg` when that element is empty |
| UploadImage.DotlessNameIsExtension | src/app/api/upload-image/route.ts:29 | a non-empty name without a dot is its own extension |
| UploadImage.StoredNameKeepsExtension | src/app/api/upload-image/route.ts:29-30 | the stored name `<uuid>.<ext>` has the uploaded file's extension |
| UploadImage.Upload | src/app/api/upload-image/route.ts:6-50 | 401 before the form is read, 400 `No file uploaded` for a missing field, 400 `Invalid file type` for a non-image type with nothing stored, storage under `<uuid>.<ext>` exactly for an image file, `{success, filename, path}` with the storage URL, 500 on a storage failure |
| AnalyzeFood.ContextIffTruthy | src/app/api/analyze-food/route.ts:44 | the prompt carries `Additional context: <description>` iff the description is truthy |
| AnalyzeFood.StripClosingFence | src/app/api/analyze-food/route.ts:91 | `/\s*```$/` removes the final fence together with all whitespace before it, and nothing otherwise |
| AnalyzeFood.StripOpening | src/app/api/analyze-food/route.ts:91-93 | `/^marker\s*/` removes the marker and every whitespace character after it |
| AnalyzeFood.CleanReply | src/app/api/analyze-food/route.ts:87-94 | the text handed to `JSON.parse` has no whitespace at either end and is no longer than the trimmed reply; a reply that does not open with a fence is only trimmed |
| AnalyzeFood.UnfencedReplyOnlyTrimmed | src/app/api/analyze-food/route.ts:87-94 | a reply whose trimmed text does not start with a fence reaches the parser only trimmed |
| AnalyzeFood.JsonFencedRoundTrip | src/app/api/analyze-food/route.ts:87-94 | for JSON text without surrounding whitespace, a ```` ```json ```` fenced block cleans to that text |
| AnalyzeFood.BareFencedRoundTrip | src/app/api/analyze-food/route.ts:87-94 | a bare ```` ``` ```` fenced block cleans to its text |
| AnalyzeFood.JsonTagTestedFirst | src/app/api/analyze-food/route.ts:90-93 | the `json` tag is removed because its test comes first; the bare branch alone would leave `json` in front of the text |
| AnalyzeFood.Analyze | src/app/api/analyze-food/route.ts:22-113 | 401 without a user; 400 and no model call without an image; the model is called exactly for an authenticated request with an image; a result is exactly what the parser made of the cleaned reply; otherwise 500 |
| AnalyzeFood.MissingContentFails | src/app/api/analyze-food/route.ts:83-103 | a reply without content is parsed as `""`, which fails with 500 |
| Dashboard.ReduceAddsSums | src/components/Dashboard.tsx:17-25 | the left fold adds each field's sum over the entries to its accumulator |
| Dashboard.CalculateMacroSummary | src/components/Dashboard.tsx:16-26 | each total is the sum of that field over all entries |
| Dashboard.EmptyListSummary | src/components/Dashboard.tsx:24 | the summary of no entries is all zero |
| Dashboard.SummaryOfConcat | src/components/Dashboard.tsx:16-26 | the summary of a concatenation is the field-wise sum of the two summaries |
| Dashboard.IsToday | src/components/Dashboard.tsx:59 | the selected date counts as today exactly when it is the text of the clock's ISO timestamp before its `T` |
| Strings.FirstSegmentIsSplit | src/components/Dashboard.tsx:59 | `split(sep)[0]` is the one prefix that contains no separator and ends at the first separator or at the end |
| Dashboard.View | src/components/Dashboard.tsx:75-102 | loading shows only the spinner; the chart shows iff total calories are positive, with the summed grams; the list shows iff there is an entry, with its count |
| Dashboard.ZeroCalorieDayListsWithoutChart | src/components/Dashboard.tsx:84-99 | a day whose entries all have zero calories lists them without a chart |
| MacroChart.ChartData | src/components/MacroChart.tsx:12-16 | three slices in the order Protein, Fats, Carbs, grams unchanged, value grams times 4, 9 or 4 |
| MacroChart.ChartEnergy | src/components/MacroChart.tsx:13-15 | the slice values add up to 4·protein + 9·fats + 4·carbs |
| MacroChart.ZeroAndSign | src/components/MacroChart.tsx:13-15 | all-zero grams give all-zero values, and non-negative grams give non-negative values |
| FoodLog.Fetch | src/components/FoodLog.tsx:12-26 | loading ends false on every outcome, and the entries are replaced only on an ok response |
| FoodLog.FailedRefetchKeepsEntries | src/components/FoodLog.tsx:17-24 | a failed fetch after a successful one keeps the earlier list |
| FoodLog.SumFieldIsSum | src/components/FoodLog.tsx:131 | the `reduce` with initial 0 equals the field's sum |
| FoodLog.DailyTotals | src/components/FoodLog.tsx:131-149 | each daily total is the sum of that field over the fetched entries |
| FoodLog.TotalsMatchDashboard | src/components/FoodLog.tsx:131-149 | the log's totals equal the dashboard summary of the same entries |
| FoodLog.CardOf | src/components/FoodLog.tsx:68-88 | a plain image exactly for paths under `/api/images/`, the optimised one otherwise; a falsy description shows `Food Entry` |
| FoodLog.View | src/components/FoodLog.tsx:48-63 | loading shows the spinner, an empty list shows the empty view, otherwise one card per entry plus the totals |
| MacroEditor.Mount | src/components/MacroEditor.tsx:14 | the editor starts with the props' values |
| MacroEditor.HandleChange | src/components/MacroEditor.tsx:16-21 | the edited field becomes the parsed number or 0, the other three are unchanged, and `onUpdate` receives the new local record |
| MacroEditor.BlankOrZeroInputIsZero | src/components/MacroEditor.tsx:17 | text that does not parse and `0` both set the field to 0 |
| MacroEditor.LastEditWins | src/components/MacroEditor.tsx:16-21 | two edits of one field equal the later edit alone |
| MacroEditor.DistinctEditsCommute | src/components/MacroEditor.tsx:16-21 | edits of different fields commute |
| ImageUpload.RenameHeic | src/components/ImageUpload.tsx:33 | a trailing `.heic`/`.heif` in any letter case becomes `.jpg`; other names are unchanged |
| ImageUpload.SuffixTestsAgree | src/components/ImageUpload.tsx:24-33 | the regex's case-insensitive suffix test agrees with the lower-cased `endsWith` test |
| ImageUpload.Converted | src/components/ImageUpload.tsx:26-35 | a converted file has type `image/jpeg` and the renamed name |
| ImageUpload.HandleFileSelect | src/components/ImageUpload.tsx:16-55 | HEIC files are converted and others pass unchanged; a file is handed on only when its processed type starts with `image/`; `converting` ends false on success, on an unsupported type and on a conversion error |
| ImageUpload.ConvertedHeicPasses | src/components/ImageUpload.tsx:24-46 | a HEIC file that converts and is read is handed on as a JPEG |
| ImageUpload.HandleDrag | src/components/ImageUpload.tsx:64-72 | dragenter and dragover activate, dragleave deactivates, other events change nothing |
| ImageUpload.HandleDrop | src/components/ImageUpload.tsx:74-83 | a drop deactivates and hands its first file to the file handler |
| FoodEntryForm.HandleImageSelect | src/components/FoodEntryForm.tsx:24-30 | a new image clears macros, confidence and detected foods, and keeps the rest |
| FoodEntryForm.OptionalText | src/components/FoodEntryForm.tsx:41 | the description is sent trimmed, and is absent exactly when it is all whitespace |
| FoodEntryForm.AnalyzeFood | src/components/FoodEntryForm.tsx:32-63 | no request without both a file and a preview; a request carries the preview and the optional description; an ok result sets macros, confidence and foods, and any other outcome leaves them unchanged |
| FoodEntryForm.SaveFoodEntry | src/components/FoodEntryForm.tsx:65-110 | nothing happens without a file; the entry is posted only after a successful upload, with that path; success resets every field the handler sets; failure only alerts |
| FoodEntryForm.ImageSelectHidesEditor | src/components/FoodEntryForm.tsx:24-30 | after a new image the editor and save button are hidden |
| FoodEntryForm.SaveThenSaveIsNoOp | src/components/FoodEntryForm.tsx:65-99 | after a successful save nothing can be saved again |
| AuthContext.AuthHeaders | src/contexts/AuthContext.tsx:39-42 | an Authorization header exactly when a non-empty token is stored, with value `Bearer <token>` |
| AuthContext.CheckAuth | src/contexts/AuthContext.tsx:44-68 | no request without a token; an ok reply sets the user; a non-ok reply or an error removes the token; loading ends false on every path |
| AuthContext.Authenticate | src/contexts/AuthContext.tsx:77-84 | acceptance stores the token and sets the user; failure throws the server's error text or the fallback, and changes neither |
| AuthContext.Login | src/contexts/AuthContext.tsx:70-85 | sends email and password; acceptance stores the returned token and user; a rejection without error text fails with `Login failed` |
| AuthContext.Signup | src/contexts/AuthContext.tsx:87-102 | sends email, password and optional name; acceptance stores the returned token and user; a rejection without error text fails with `Signup failed` |
| AuthContext.RejectionMessages | src/contexts/AuthContext.tsx:77-97 | a rejection with missing or empty error text throws the handler's own fallback |
| AuthContext.Logout | src/contexts/AuthContext.tsx:104-107 | the token and the user are cleared |
| AuthContext.LoginThenCheckUsesToken | src/contexts/AuthContext.tsx:39-107 | after a login the next check sends the new token, and after a logout it sends nothing |
| AuthContext.UseAuth | src/contexts/AuthContext.tsx:23-29 | using the session outside a provider throws, and only there |
| ApiClient.DefaultHeaders | src/lib/api.ts:1-7 | always `Content-Type: application/json`, plus `Authorization: Bearer <token>` exactly when a token is stored, and nothing else |
| ApiClient.HandleReply | src/lib/api.ts:18-25 | a 401 clears the token, reloads and throws `Session expired`; any other response is returned unchanged; a fetch error propagates |
| ApiClient.ApiCall | src/lib/api.ts:9-26 | the caller's headers override same-named defaults, and the defaults fill in the rest |
| ApiClient.ApiCallFormData | src/lib/api.ts:28-49 | always POST; the only header is Authorization, present exactly with a stored token, so no Content-Type is ever set |
| ApiClient.UnauthorizedAlwaysExpires | src/lib/api.ts:18-46 | both helpers turn a 401 into `Session expired` and clear the token |
| AuthForm.BeginSubmit | src/components/AuthForm.tsx:22-23 | a submit first clears the error and sets loading |
| AuthForm.CallFor | src/components/AuthForm.tsx:26-30 | login mode calls login; signup mode calls signup and passes an empty name as absent |
| AuthForm.HandleSubmit | src/components/AuthForm.tsx:20-36 | the error shown is the Error's message, or `An error occurred` for anything else; loading ends false on every outcome |
| AuthForm.RetryClearsError | src/components/AuthForm.tsx:22-32 | a successful retry clears the previous failure's message |
| AuthGuard.View | src/components/AuthGuard.tsx:11-38 | loading shows the spinner whatever the user; otherwise the form in the current mode without a user, and the page with one |
| AuthGuard.SwitchMode | src/components/AuthGuard.tsx:31 | the switch always changes the mode |
| AuthGuard.SwitchTwiceRestores | src/components/AuthGuard.tsx:31 | switching twice restores the mode |
| AuthGuard.LogoutShowsForm | src/components/AuthGuard.tsx:26-35 | logging out of a loaded session shows the form in the current mode |
| Strings.Trim | src/app/api/analyze-food/route.ts:87 | `trim` leaves no whitespace at either end, and the result is a contiguous slice of the input with only whitespace before and after it |
| Strings.TrimIdempotent | src/app/api/analyze-food/route.ts:87 | trimming twice is trimming once |
| Strings.ToLowerAscii | src/components/ImageUpload.tsx:24 | lower-casing keeps the length and maps each character on its own |
| Strings.LastOfSplit | src/app/api/upload-image/route.ts:29 | `split(sep).pop()` is the text after the last separator |
| Js.OrZero | src/components/MacroEditor.tsx:17 | `parseFloat(x) \|\| 0` is the parsed number, or 0 for NaN or 0 |
| Js.ParseFloat | src/app/api/food-entries/route.ts:30-33 | a number passes through, a string goes through the text parser, and `undefined`, `null` and booleans give NaN |
| Nutrition.With | src/components/MacroEditor.tsx:18 | setting a field changes that field only |
| Nutrition.SumOfConcat | src/components/Dashboard.tsx:16-26 | a field's sum over a concatenation is the sum of the two sums |
| Flows.StoredTokenReachesVerifier | src/lib/auth.ts:36-41 | the session's and the fetch helper's Authorization headers agree, and the server resolves them to the stored user |
| Flows.ExpiredSessionShowsSignIn | src/lib/api.ts:18-23 | after a 401 and the reload, the session check makes no request and the guard shows the sign-in form |
| Flows.AsCallResult | src/components/AuthForm.tsx:31-32 | a session handler's throw reaches the form as an Error carrying the same message |
| Flows.RefusedLoginMessage | src/contexts/AuthContext.tsx:77-80 | a refused sign-in leaves the session alone, and the form shows the server's text or `Login failed` |
| Flows.FormAfter | src/components/FoodEntryForm.tsx:144-166 | an edit reaches the form only through a mounted editor, and the form stores exactly the record the editor reports |
| Flows.KeepMounted | src/components/MacroEditor.tsx:14 | as written, a mounted editor keeps its own values across re-renders, and only a newly shown editor copies the props |
| Flows.StepAsWritten | src/components/FoodEntryForm.tsx:144-166 | as written, the editor is mounted exactly while the form shows it; an editor that stays mounted through any event other than its own edit keeps its old values; its own edits keep a synced page synced |
| Flows.FollowProps | src/components/FoodEntryForm.tsx:144-166 | the corrected editor is shown exactly when the form shows it, and then holds the form's macros |
| Flows.Step | src/components/FoodEntryForm.tsx:144-166 | every corrected step leaves the editor in step with the form |
| Flows.EditChangesOnlyThatField | src/components/MacroEditor.tsx:16-21 | on a synced page, an edit changes exactly the edited field of the form's macros |
| Flows.StepAsWrittenKeepsSynced | src/components/FoodEntryForm.tsx:144-166 | as written, every event except a successful analysis while the editor is mounted keeps the editor in step with the form |
| Flows.RunAsWrittenStaysSynced | src/components/FoodEntryForm.tsx:144-166 | a run as written with no successful analysis under a mounted editor stays synced and ends where the corrected page does |
| Flows.AsWrittenAgreesWhileSynced | src/components/FoodEntryForm.tsx:144-166 | the page as written and the corrected page take the same step whenever the written one stays synced |
| Flows.StaleEditorOverwritesAnalysis | src/components/MacroEditor.tsx:14-21 | as written, an edit after a second analysis writes the first analysis's values back into the other three fields |
| Flows.CorrectedEditKeepsAnalysis | src/components/MacroEditor.tsx:16-21 | on the corrected page the same four events leave the second analysis's values in the fields that were not edited |
| Flows.ReanalysisRevertsUneditedFields | src/components/FoodEntryForm.tsx:45-57 | as written, on any page showing an analysis, a second analysis followed by an edit leaves the unedited fields at the first analysis's values |
| Flows.ReanalysisKeepsUneditedFields | src/components/FoodEntryForm.tsx:45-57 | on the corrected page, the same sequence leaves the unedited fields at the second analysis's values |

## Left out

- Auth.GetUserFromRequest: a rejected `prisma.user.findUnique` is not modelled, because the user table always answers. Each route calls the lookup inside its `try`, so a failed lookup answers 500, which no route contract here promises.
- Password hashing and token signing/verification are not modelled. They are foreign-library cryptography; the verifier is an oracle returning an optional payload.
- Prisma, the blob store, `randomUUID`, the OpenAI request, `heic2any`, `FileReader`, `localStorage`, `fetch`, `window.location.reload` and `alert` are I/O. Their results are parameters or outcome datatypes. The model name, token budget and prompt wording other than the context line are not modelled.
- Date parsing and time zones are not modelled. Timestamps are integer milliseconds, and the local day of a date string is a parameter (`FoodEntries.DayBounds`). Clients' `toISOString` dates are plain strings, and the dashboard's `isToday` takes the clock's ISO timestamp as a parameter.
- Display formatting is not modelled: `Math.round`, one-decimal rounding, locale date/time text, and IEEE float rounding and associativity. Sums are over `real`.
- FoodEntries.SortNewestFirst: the database's order among rows with equal `createdAt` is unspecified. The model sorts stably, and the contract constrains only the descending order and the permutation.
- Js.ParseFloat: `parseFloat` infinities are not modelled. The text parser returns NaN or a finite number.
- Strings.ToLowerAscii: `toLowerCase` is modelled for ASCII letters only. The HEIC suffix test compares against ASCII text, so only ASCII case matters there.
- AnalyzeFood.Analyze: the parsed JSON is returned as whatever `JSON.parse` produced, without checking it against the result shape. The code only casts it, so the model follows the code rather than a stricter reading of the response type.
- FoodEntryForm.SaveFoodEntry: a successful save resets every field the handler sets, but `analyzing` is not among them. The model keeps `analyzing` unchanged, as the code does.
- ImageUpload.HandleFileSelect: a reader that never fires `onload` leaves `converting` true. This is what the code does.
- ApiClient.ApiCall: caller headers are modelled as a plain record. A `Headers` object or an array of pairs spreads differently in JavaScript and is not modelled.
- The `src/app/api/images/[filename]` route is outside the modelled core. It validates the filename against a letters/digits/dot/dash pattern with 400 `Invalid filename`, serves a placeholder SVG with caching headers, and answers 500 on error. `Navigation` and `DailySummary` are presentation only and are not part of this model. JSX layout, styling and chart colours are left out too.
- React effect scheduling and async interleaving are not modelled, for example a double click or a second `checkAuth` racing the first. Each handler is one atomic step.

## Findings

| source | as written | input that shows it | evidently intended | confidence | as-written member | corrected member |
|---|---|---|---|---|---|---|
| src/components/MacroEditor.tsx:14 | the editor copies its props into `useState` only when it mounts, and the add-entry form keeps it mounted while confidence stays positive, so a second analysis leaves the editor holding the first result and an edit sends all four stale fields to `setMacros` | choose an image; the analysis returns 10/5/20/200 g at confidence 0.5; analyse again, returning 30/15/40/500 g at 0.9; type 35 into Protein: the form's macros become 35/5/20/200 | 35/15/40/500: an edit changes only the edited field of the current macros | medium, not executed | Flows.ReanalysisRevertsUneditedFields | Flows.ReanalysisKeepsUneditedFields |
