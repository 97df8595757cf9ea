# Field triage: a verified model of the report-to-ticket path

A field technician writes a free-text report, optionally with a machine identifier
and a photo. The report form validates the fields and posts them to the triage
endpoint. The endpoint asks a text-generation backend (Gemini) to classify the report
(severity, category, title), creates a Trello card named after the classification,
and, when there is a photo, uploads it to an asset store (Cloudinary) and attaches
its URL to the card. A second endpoint lists the cards of the Trello list in a reduced
form for the dashboard.

The model covers three files:

- `triage.dfy` (module `Triage`) models `src/app/api/triage/route.ts`. It has the
  classifier's defensive parsing as pure functions: the default record, the brace
  span the regular expression `/\{[\s\S]*\}/` extracts, and the `??` merge. It also
  has the card name and description, and the request handler `POST` as a method over
  abstract collaborator outcomes. The method returns the response and the trace of
  external calls it made.
- `report_form.dfy` (module `ReportForm`) models `src/app/components/ReportForm.tsx`.
  The class `ReportForm` holds the component's seven state fields; its methods are the
  event handlers. Validation, payload assembly and the reading of the server's reply
  are pure functions that the methods follow.
- `reports.dfy` (module `Reports`) models `src/app/api/reports/route.ts`: the card
  projection and the endpoint's success and failure results.

Three support modules come with them. `wrappers.dfy` has `Option` and `Result`.
`text.dfy` has JavaScript's `trim` and decimal rendering. `json.dfy` has JSON values
and how a template literal renders them.

Every network call, the backend's reply and `JSON.parse` are inputs: the handler is
proved for every possible outcome of each one. `JSON.parse` is a function parameter
`string -> Option<map<string, JsonValue>>`. A successful parse is always an object,
because the text handed to it starts with `{` and ends with `}`.

The model follows the code, including these behaviours a reader might not expect:

- The classifier takes the text from the first `{` to the last `}`, whether or not
  that stretch is a single well-formed object. A reply holding two objects with commentary between them
  yields the whole stretch, which normally fails to parse and gives the default
  (`BraceSpanSkipsCommentary` with empty `before` and `after`).
- No severity or category is checked against the expected values, and a parsed title
  may be empty or not a string. Any non-null value replaces the default.
- An upload that throws escapes to the handler's `catch`: the request fails with
  status 500 although the card was already created.
- A refused attachment is only logged when its error body is valid JSON. Reading a
  non-JSON error body throws, and the request fails with status 500.
- The card reply is read as JSON before its status is checked. A refused creation
  with a non-JSON body therefore fails with that parse error's message, not with
  "Failed to create Trello card".
- Reading the backend's reply as JSON happens outside the classifier's `try`. The
  classifier therefore fails, and the request with it, only when the call or that read
  throws. Once a body has been read, it always returns a record with all three fields
  set.

## Model

| member | source | states |
|---|---|---|
| `Text.Trim` | src/app/components/ReportForm.tsx:24 | `trim` leaves no whitespace at either end, and gives the empty string exactly when the text is blank |
| `Text.TrimIsInnerSlice` | src/app/api/triage/route.ts:57 | the trimmed text is a slice of the original with only whitespace cut off before and after it |
| `Text.NatToDecimal` | src/app/components/ReportForm.tsx:58 | a status code renders as a non-empty string of decimal digits with no leading zero, and 0 as `0` |
| `Text.DecimalRoundTrip` | src/app/components/ReportForm.tsx:58 | reading the rendered digits back gives the number |
| `Text.IntToDecimal` | src/app/api/triage/route.ts:105 | an integer renders non-empty, with a leading minus exactly when it is negative, followed by digits that read back as its magnitude, with no leading zero except for 0 itself |
| `Json.Render` | src/app/api/triage/route.ts:105 | a string value is interpolated as itself |
| `Json.RenderItems` | src/app/api/triage/route.ts:105 | an empty array is interpolated as the empty string |
| `Json.RenderItemsAppend` | src/app/api/triage/route.ts:105 | an interpolated array is its elements joined by `,`: joining two non-empty parts puts exactly one comma between their texts |
| `Triage.Slice` | src/app/api/triage/route.ts:51 | `slice(0, n)` is the prefix of length min(n, length) |
| `Triage.DefaultResult` | src/app/api/triage/route.ts:48-52 | the default is Minor / General with a title that is a prefix of the report of length at most 40, and the whole report when it is shorter |
| `Triage.FirstIndexOf` | src/app/api/triage/route.ts:60 | the position found holds the character and none before it does; none is found only when the character is absent |
| `Triage.LastIndexOf` | src/app/api/triage/route.ts:60 | the position found holds the character and none after it does; none is found only when the character is absent |
| `Triage.BraceSpan` | src/app/api/triage/route.ts:60-62 | an extracted span starts with `{`, ends with `}` and has at least two characters |
| `Triage.BraceSpanMatchesRegex` | src/app/api/triage/route.ts:60 | there is no span exactly when the pattern matches nowhere (no `}` after any `{`); otherwise the span is the leftmost-longest match, and that match is unique |
| `Triage.BraceSpanSkipsCommentary` | src/app/api/triage/route.ts:59-60 | text before the object without `{` and text after it without `}` is ignored, so the span is exactly the object |
| `Triage.BraceSpanOfTrim` | src/app/api/triage/route.ts:56-60 | trimming the reply before matching does not change the span |
| `Triage.Merge` | src/app/api/triage/route.ts:63-67 | each field takes the parsed value whenever it is present and non-null (empty strings and unexpected words included) and keeps the default otherwise |
| `Triage.ClassifyText` | src/app/api/triage/route.ts:47-79 | no field is ever null; with no span, or a span that does not parse, the result is exactly the default; otherwise it is the merge onto the default |
| `Triage.ClassifyWithGemini` | src/app/api/triage/route.ts:36-79 | classification fails only when the backend call or reading its body throws; once a body is read it always succeeds |
| `Triage.FallbackWithoutBraces` | src/app/api/triage/route.ts:60-70 | a reply with no `}` after any `{` gives exactly the default record |
| `Triage.RawText` | src/app/api/triage/route.ts:57 | an absent or null text gives the empty string, a string its trimmed form, and any other value the TypeError that the classifier's `catch` (line 71) turns into the default |
| `Triage.CandidateSpanOfCommentary` | src/app/api/triage/route.ts:56-60 | for a text reply with commentary before and after the object, the candidate handed to the parser is the object alone |
| `Triage.BraceSpanOfInner` | src/app/api/triage/route.ts:60 | cutting brace-free text off both ends leaves the span unchanged |
| `Triage.ClassifyIgnoresCommentary` | src/app/api/triage/route.ts:56-67 | commentary around the object does not change the classification: it equals parsing the object alone |
| `Triage.CardName` | src/app/api/triage/route.ts:105 | the name is `[`, the rendered severity, ` - `, the rendered category, `] ` and the rendered title, each read back at its position |
| `Triage.FallbackCardName` | src/app/api/triage/route.ts:105 | a defaulted classification names the card `[Minor - General] ` followed by the first 40 characters of the report |
| `Triage.CardDescription` | src/app/api/triage/route.ts:106 | the description starts with the report; it equals the report exactly when no non-empty machine id was sent, and otherwise continues with a blank line and `Machine: <id>` |
| `Triage.ExpectedCalls` | src/app/api/triage/route.ts:97-134 | at most four external calls are made per request |
| `Triage.StatusIsSuccessFlag` | src/app/api/triage/route.ts:89-94 | only the statuses 200, 400 and 500 occur, `success` holds exactly for 200, and a failure carries neither a card URL nor a classification |
| `Triage.UnreadableFormFails` | src/app/api/triage/route.ts:83-84 | a body that cannot be read as a form gives 500 with the parser's message and no call is made |
| `Triage.MissingReportRejected` | src/app/api/triage/route.ts:89-94 | status 400 comes exactly from a missing or empty report, with `No report text provided` and no call at all |
| `Triage.ClassifiesFirst` | src/app/api/triage/route.ts:96-97 | an admitted report is classified before anything else; a backend call that throws gives 500 with its message and no further call |
| `Triage.CardFromClassification` | src/app/api/triage/route.ts:104-118 | the second call creates the card named from the classification with the composed description; a creation that throws or is refused gives 500 (its own message, or `Failed to create Trello card`) and nothing is uploaded |
| `Triage.UploadOnlyAfterCard` | src/app/api/triage/route.ts:122-126 | a third call happens exactly when the card exists and a photo was sent, and uploads that photo to the `reports` folder; an upload that throws gives 500 with `Failed to upload image to Cloudinary` and no attachment |
| `Triage.AttachOnlyWithUrl` | src/app/api/triage/route.ts:128-134 | a fourth call happens exactly when the upload returned a non-empty URL, and attaches that URL to the new card |
| `Triage.AttachErrorIsFatal` | src/app/api/triage/route.ts:129-137 | an attachment call that throws, or a refusal whose body is not JSON, gives 500 with that error's message |
| `Triage.SucceedsExactlyWhen` | src/app/api/triage/route.ts:115-147 | success exactly when the card was created, an attempted upload did not throw and an attempted attachment did not throw (a refusal with a JSON body is only logged); success returns the fixed message, the card URL and the classification |
| `Triage.Post` | src/app/api/triage/route.ts:82-155 | the handler's response and its trace of external calls are those of the two reference definitions `ExpectedResponse` (the first step that throws decides a 500 with its message, a missing report a 400, otherwise success) and `ExpectedCalls` (classification, card, upload, attachment, each only once the step before allows it), about which the lemmas above are proved |
| `ReportForm.ValidationError` | src/app/components/ReportForm.tsx:23-33 | the report message appears exactly when the text is blank, and this is checked first; the photo message appears exactly when the text is not blank and the photo exceeds 5·1024·1024 bytes, so exactly 5 MB passes |
| `ReportForm.BuildPayload` | src/app/components/ReportForm.tsx:46-49 | the payload holds the trimmed report, the trimmed machine id only when it is not blank, and the photo when one is selected |
| `ReportForm.ValidPayloadIsAdmitted` | src/app/components/ReportForm.tsx:46-49 | a payload from valid fields passes the handler's report check, and the card description names the machine exactly when a non-blank one was typed |
| `ReportForm.SubmitOutcome` | src/app/components/ReportForm.tsx:56-76 | success exactly for an ok reply whose body says `success`; a non-ok reply shows its body text, or `Server responded <status>` when that is empty, never an empty error; `success: false` shows its message or `Triage failed on the server.`; an ok reply whose body is not JSON shows the parse error's message; a success shows the message or `Ticket dispatched successfully.` only when it is absent, and keeps the link only when it is truthy |
| `ReportForm.StatusReadBack` | src/app/components/ReportForm.tsx:58 | the empty-body error message is `Server responded ` followed by digits that read back as the status |
| `ReportForm.ReportForm.constructor` | src/app/components/ReportForm.tsx:14-20 | the form starts empty, idle and without messages |
| `ReportForm.ReportForm.SetReportText` | src/app/components/ReportForm.tsx:97 | typing in the report field sets only that field |
| `ReportForm.ReportForm.SetMachineId` | src/app/components/ReportForm.tsx:113 | typing in the machine field sets only that field |
| `ReportForm.ReportForm.SetPhoto` | src/app/components/ReportForm.tsx:127 | choosing a file sets only the photo |
| `ReportForm.ReportForm.Validate` | src/app/components/ReportForm.tsx:23-33 | returns whether the fields are acceptable and, when not, shows the validation message; run idle with no success message shown, as `onSubmit` does, it keeps the form's invariant |
| `ReportForm.ReportForm.BeginSubmit` | src/app/components/ReportForm.tsx:35-49 | messages cleared, then validated; when validation fails no payload is produced and loading is not set; otherwise loading is set and the payload is built from the fields |
| `ReportForm.ReportForm.FinishSubmit` | src/app/components/ReportForm.tsx:56-79 | a failure shows its error and keeps the fields; a success shows its message and link and clears report, machine id and photo; loading is off afterwards on every path |
| `ReportForm.ReportForm.OnSubmit` | src/app/components/ReportForm.tsx:35-80 | the whole handler: no request when validation fails, otherwise the reply's outcome as above, loading off at the end, and an error and a success message never shown together |
| `ReportForm.ReportForm.Reset` | src/app/components/ReportForm.tsx:168-175 | clears the three fields and the three messages and leaves the loading flag alone |
| `Reports.AttachmentUrls` | src/app/api/reports/route.ts:24 | the attachments' URLs in order, and the empty list when the card has no attachments field |
| `Reports.Project` | src/app/api/reports/route.ts:19-25 | one report per card, in the same order, each with the card's id, name, description and URL and its attachments' URLs |
| `Reports.ProjectAppend` | src/app/api/reports/route.ts:19 | projecting a concatenation is concatenating the projections: no card is reordered, dropped or merged |
| `Reports.Get` | src/app/api/reports/route.ts:3-35 | success with status 200 and the projected list exactly when the fetch was ok and the body was a card list; otherwise status 500, a message and no data |

## Left out

- The session-scoped, discovery-based ticketing path (streaming RPC client, event-stream decoding, session creation, tool discovery and selection, the tiered fallback) is not part of this model. The repository's code implements only the direct REST path.
- The HTTP calls to Gemini, Trello and Cloudinary, the environment variables and the prompt text are not modelled. Their outcomes are inputs (`GeminiReply`, `CardReply`, `UploadReply`, `AttachReply`, `ServerReply`, `CardsFetch`).
- `JSON.parse` is a parameter, because it is a library call. The multipart parsing of the request is an input `Result<Form>`, for the same reason.
- The base64 encoding of the photo is not modelled: the upload call in the trace carries the photo and the folder.
- Console logging is not modelled. A logged-only failure shows up as a successful response.
- Json.Render: JSON numbers are integers rendered in plain decimal. Fractions and the exponent form JavaScript uses from 10^21 on are not modelled. Every object renders as `[object Object]`: a parsed object (at any depth of an array) with its own `toString` key, for which the template literal at src/app/api/triage/route.ts:105 throws a `TypeError` and the request fails with 500 before a card is created, is assumed not to occur.
- Strings are sequences of Unicode scalar values, while JavaScript counts UTF-16 code units. The model assumes text without characters beyond U+FFFF, where the two agree. For a report that holds such characters, `slice(0, 40)` takes fewer characters than `DefaultResult` does.
- Because of that assumption, the failure path where the card name or description holds any lone surrogate (from `slice(0, 40)` splitting a pair, a parsed `\uD800` escape, or the report text itself), so that `encodeURIComponent` (src/app/api/triage/route.ts:109-111) throws a `URIError`, giving status 500 and no card, is not modelled.
- Trello's card and list replies are records of strings. A non-string `id` or `url` and a missing attachment `url` are not modelled.
- `Form` assumes each multipart field has its expected kind. A report or machine id sent as a file (which puts `[object File]` into the description) and a text `photo` field (which passes `if (photo)` and makes `photo.arrayBuffer()` throw, a 500 after the card exists) are not modelled.
- Rendering, routing to the reports page and React's re-render timing are not modelled. `onSubmit` is split at its `await` into `BeginSubmit` and `FinishSubmit`, and `OnSubmit` runs both in sequence.
- ReportForm.ReportForm.BeginSubmit and OnSubmit require the form to be idle. The submit button is disabled while loading (ReportForm.tsx:145), so the handler never runs otherwise.
- The dashboard component, the page components, the Tailwind configuration and `deleteFromCloudinary` are left out. They are presentation or unused by the core.
