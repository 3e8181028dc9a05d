# Smart Shala mobile client: a verified model of its screen logic

Smart Shala is a school-attendance app written in React Native. Teachers
use it to:

- sign in;
- manage classrooms and their students;
- onboard and edit students;
- take attendance, with optional SMS to the parents of absentees.

Each screen keeps component state. Button and text handlers replace that
state. The handlers call a small REST client, which checks statuses and
builds auth headers.

This project models in Dafny the state changes, derived views, validators,
payload builders and response classification of those screens. It also
models the build-time `.env` parser in `app.config.js`.

**How the model is shaped**

- A screen whose handlers replace state fields is a `class`. The fields are
  the screen's state, and each handler is a `method` with `modifies this`.
  Each method's `ensures` gives the whole new state in terms of
  specification functions.
- The pure `map`/`filter` expressions, and the messages and payloads, are
  functions. The properties the screens promise are lemmas about those
  functions.

**What stands in for the outside world**

- Network round trips are parameters:
  - a `Result` carries an outcome as `handleApiResponse` would hand it over;
  - `NetworkFailure` is a fetch or JSON-read failure on the login screen.
- The signed-in user is an `Option<User>` parameter.
- `encodeURIComponent` is a function parameter.
- The `.env` file is an `Option<string>` (`None` when it is missing).

**Shared modules**

- `Outcomes`: `Option`, `Result` and `Alert`, plus JavaScript's `a || b` on
  strings.
- `Seqs`: order-preserving `filter` and `map`.
- `JsString`:
  - `trim`, with the ECMAScript whitespace set;
  - `toLowerCase` on ASCII;
  - `indexOf`, `includes`, `replace` of the first occurrence, and `split`.
- `Decimal`: number-to-text conversion.
- `Session`: the signed-in user and the 24-hex-digit school-id guard.
- `Roster`: the student records and the shared name/registration-id search.
- `ApiHelpers`: `handleApiResponse` and `createAuthFetchOptions`.

**One module per screen**

- `TakeAttendance`, `ConfirmAbsentees`, `AddStudentsToClassroom`,
  `ClassroomStudents`, `Students` and `Home`.
- `EditStudent`, `AddStudent`, `ResetPassword`, `EditProfile`, `Login` and
  `ClassroomDetails`.
- `EnvConfig`, for `app.config.js`.

**Where the model follows the code rather than the screens' intent**

- *Search on Students and ClassroomStudents.* Students filters on the raw
  query, so a query of spaces filters literally
  (`Roster.WhitespaceQueryFiltersLiterally`). TakeAttendance and
  ClassroomStudents first check the trimmed query.
- *Search on Home.* The search effect of `Home.tsx` depends on `search`
  only, so a fetch shows every class whatever the search box holds
  (`Home.ClassList.FetchClasses`).
- *EditStudent's changed-fields check.* `EditStudent.tsx` loads the parent
  language and occupation from `additionalInfo` but compares them with
  top-level fields of the stored record. When those top-level fields are
  absent, the payload is never empty, even for an untouched form
  (`EditStudent.MissingTopLevelLanguageAlwaysChanges`). A key set to
  `undefined` is dropped by `JSON.stringify`, so such a PATCH may carry no
  field at all.
- *EditStudent's missing-data branch.* When the student record or its
  mobile is missing, the source's `studentData.mobile.replace` throws a
  `TypeError`. That error reaches the error classifier, modelled as the
  `Crashed` plan whose runtime message is a parameter.
- *SMS switch on ConfirmAbsentees.* `toggleAllSms(false)` on an empty
  absentee list leaves `sendToAll` false while the (empty) `every` is
  true. The invariant `sendToAll == every(sendSms)` is therefore only
  proved for a non-empty list. The SMS switch is not shown in that case.

## Model

| member | source | states |
|---|---|---|
| Outcomes.OrElse | app/screens/AddStudent.tsx:114-115 | `a \|\| b` on strings: the first operand when non-empty, otherwise the fallback |
| Outcomes.OptionOrElse | app/screens/EditStudent.tsx:89 | `x \|\| fallback` for a possibly missing string: the value when present and non-empty, otherwise the fallback |
| Seqs.Filter | app/screens/TakeAttendance.tsx:108-110 | the filtered list is no longer than the input, holds only elements satisfying the predicate, and holds every input element that satisfies it |
| Seqs.Map | app/screens/TakeAttendance.tsx:108-110 | the mapped list has the input's length and holds f of each element at the same index |
| Seqs.FilterConcat | app/screens/TakeAttendance.tsx:108-110 | filtering distributes over concatenation |
| Seqs.FilterKeepsAll | app/screens/TakeAttendance.tsx:108-110 | a filter every element passes returns the list unchanged |
| Seqs.FilterDropsOne | app/screens/AddStudentsToClassroom.tsx:239 | filtering out one failing element between two passing runs joins the runs in their order |
| Seqs.FilterKeepsNone | app/screens/TakeAttendance.tsx:108-110 | a filter no element passes returns the empty list |
| Seqs.FilterTwice | app/screens/TakeAttendance.tsx:108-110 | filtering by p and then by q equals filtering by their conjunction |
| Seqs.FilterPartition | app/screens/TakeAttendance.tsx:68-71 | the elements that pass a predicate and those that fail it add up to the whole list |
| Seqs.MapConcat | app/screens/TakeAttendance.tsx:108-110 | mapping distributes over concatenation |
| JsString.LeadingSpaceSpec | app/screens/EditStudent.tsx:113 | `LeadingSpace` is the length of the longest whitespace prefix |
| JsString.TrailingSpaceSpec | app/screens/EditStudent.tsx:113 | `TrailingSpace` is the length of the longest whitespace suffix |
| JsString.TrimStartSpec | app/screens/EditStudent.tsx:113 | `TrimStart` is a suffix of the input that drops only whitespace and starts with a non-whitespace character |
| JsString.TrimEndSpec | app/screens/EditStudent.tsx:113 | `TrimEnd` is a prefix of the input that drops only whitespace and ends with a non-whitespace character |
| JsString.TrimShape | app/screens/EditStudent.tsx:113 | `trim()` returns a contiguous slice of the input, and everything cut on either side is whitespace; a non-empty result starts and ends with non-whitespace |
| JsString.BlankIff | app/screens/EditStudent.tsx:113 | `!s.trim()` holds exactly when every character is whitespace |
| JsString.TrimIdempotent | app/screens/EditStudent.tsx:148 | trimming twice is trimming once |
| JsString.TrimNoWhitespace | app/screens/AddStudent.tsx:112 | a string with no whitespace is its own trim |
| JsString.LowerChar | app/screens/TakeAttendance.tsx:80 | upper-case ASCII letters map to lower case and every other character is unchanged |
| JsString.ToLower | app/screens/TakeAttendance.tsx:80 | `toLowerCase()` keeps the length and lowers each character in place |
| JsString.ToLowerIdempotent | app/screens/TakeAttendance.tsx:84-85 | lowering twice is lowering once |
| JsString.IndexOf | app/screens/EditStudent.tsx:90 | `indexOf` gives the first position where the pattern occurs, or none when it occurs nowhere |
| JsString.ContainsIff | app/screens/TakeAttendance.tsx:84-85 | `includes` holds exactly when the pattern occurs at some position |
| JsString.ContainsMiddle | app/utils/apiHelpers.ts:18 | a string contains any piece it is built around |
| JsString.AbsentCharNotContained | app/screens/Students.tsx:112-121 | a one-character pattern that never appears is not included |
| JsString.ContainsEmpty | app/screens/Students.tsx:112-121 | every string includes the empty string |
| JsString.RemoveFirst | app/screens/EditStudent.tsx:90 | `replace(pat, "")` with a string pattern removes exactly the first occurrence, and leaves the string alone when there is none |
| JsString.RemoveFirstOfPrefixed | app/screens/EditStudent.tsx:90 | removing the first `pat` from `pat + rest` gives `rest` |
| JsString.RemoveFirstAbsent | app/screens/EditStudent.tsx:90 | removing an absent pattern changes nothing |
| JsString.Split | app.config.js:14 | `split` gives at least one part, and no part contains the separator |
| JsString.JoinSplit | app.config.js:14 | joining the parts of `split` with the separator gives back the input |
| Decimal.DigitChar | app/screens/ClassroomDetails.tsx:471 | the digit character of d is a digit whose value is d |
| Decimal.NatToString | app/screens/ClassroomDetails.tsx:471 | a non-negative number's text is all digits, is non-empty, and has no leading zero |
| Decimal.IntToString | app/screens/AddStudentsToClassroom.tsx:108 | an integer's text is its magnitude's, with a minus sign when negative |
| Decimal.NatToStringRoundTrip | app/screens/ClassroomDetails.tsx:471 | reading the decimal text of n gives back n |
| Decimal.NatToStringInjective | app/screens/ClassroomDetails.tsx:471 | different numbers have different texts |
| Decimal.LeadingDigits | app/screens/AddStudentsToClassroom.tsx:108 | the length of the leading run of digits is at most the length |
| Decimal.LeadingDigitsOf | app/screens/AddStudentsToClassroom.tsx:108 | the leading digit run of digits followed by a non-digit is exactly those digits |
| Decimal.SpellingBeforeNonDigit | app/screens/AddStudentsToClassroom.tsx:108 | a number followed by a non-digit is decoded uniquely |
| Session.SchoolCheck | app/screens/AddStudentsToClassroom.tsx:89-105 | no alert exactly when a user is signed in with a 24-hex-digit school id; "School information not available" exactly when the user or school is missing; "School ID is not valid" exactly otherwise |
| Roster.StudentsOnly | app/screens/Students.tsx:88-90 | the kept users are exactly the input users whose role is "student" |
| Roster.NameOrIdFilter | app/screens/Students.tsx:112-121 | the view is no longer than the list; it keeps only entries whose lowered name or registration id includes the lowered query, and it keeps every such entry |
| Roster.TrimmedSearch | app/screens/TakeAttendance.tsx:74-88 | a blank query shows the whole list; otherwise the view is the name/registration-id filter on the untrimmed query |
| Roster.EmptyQueryKeepsAll | app/screens/Students.tsx:112-121 | the empty query keeps every entry, in order |
| Roster.NoSpaceNoMatch | app/screens/Students.tsx:112-121 | text without spaces, once lowered, does not include a space |
| Roster.WhitespaceQueryFiltersLiterally | app/screens/Students.tsx:112-121 | with no trim check, a query of one space hides a student whose name and id have no spaces, while the trimmed search shows it |
| ApiHelpers.ApiErrorMessage | app/utils/apiHelpers.ts:23-26 | the body's non-empty `message` when there is one, otherwise "API Error: " and the status |
| ApiHelpers.HandleApiResponse | app/utils/apiHelpers.ts:4-29 | 401 with a logout callback schedules the logout and fails with the session-expired text; any other non-ok status fails with the API error message; an ok status returns the parsed body, or fails when the body is not valid JSON |
| ApiHelpers.HandleOkIff | app/utils/apiHelpers.ts:8-28 | a response succeeds exactly when its status is 2xx and its body parses; a 401 never succeeds, with or without a callback |
| ApiHelpers.ApiErrorsHaveMessages | app/utils/apiHelpers.ts:23-26 | every non-ok status fails with a non-empty message |
| ApiHelpers.SessionExpiredIsRecognised | app/utils/apiHelpers.ts:18 | the session-expired text includes "session has expired", the phrase the screens test for |
| ApiHelpers.FetchFailureAlert | app/screens/Students.tsx:93-99 | a failed fetch shows no alert exactly when its message includes "session has expired"; otherwise it shows "Error" with the message or the fallback |
| ApiHelpers.ExpiredSessionIsSilent | app/utils/apiHelpers.ts:8-19 | a 401 handled with a logout callback never brings up the screens' error alert |
| ApiHelpers.AuthorizationValue | app/utils/apiHelpers.ts:41 | "Bearer " and the token when the token is truthy, otherwise "" |
| ApiHelpers.CreateAuthFetchOptions | app/utils/apiHelpers.ts:32-44 | the caller's option fields are kept; the headers are the caller's plus Content-Type and Authorization; Content-Type is always application/json; every other caller header is unchanged |
| ApiHelpers.CreateAuthFetchOptionsIdempotent | app/utils/apiHelpers.ts:36-43 | building the options again from their own result changes nothing |
| EnvConfig.KeyPrefixLength | app.config.js:15 | the length of the longest run of `[A-Za-z0-9_]` at the start of a line |
| EnvConfig.MatchLine | app.config.js:15 | a match splits the line into key, "=" and value |
| EnvConfig.MatchLineIff | app.config.js:15 | the direct matcher succeeds exactly when `/^([A-Za-z0-9_]+)=(.*)$/` matches at some split, and then at the split it returns |
| EnvConfig.CarriageReturnNeverMatches | app.config.js:14-15 | a line still holding a `\r` never matches, because `.` excludes line terminators |
| EnvConfig.StripQuotes | app.config.js:20-22 | a value starting and ending with `"` loses its first and last character, a lone `"` becomes empty, and any other value is kept |
| EnvConfig.ParseLineKey | app.config.js:15-17 | a matching line yields an entry whose key is the matched key group |
| EnvConfig.KeyGroupTrimmed | app.config.js:17 | the `trim()` of the key group changes nothing |
| EnvConfig.KeyCharNotWhitespace | app.config.js:15-17 | no key character is whitespace |
| EnvConfig.ParseEnvContent | app.config.js:12-27 | the `forEach` loop over the lines produces the left fold of the parsed lines |
| EnvConfig.ParseEnvFile | app.config.js:5-32 | a missing file gives the empty object; otherwise the fold of its lines |
| EnvConfig.FoldEntriesKeys | app.config.js:23 | a key is defined exactly when some parsed entry defines it |
| EnvConfig.FoldEntriesLast | app.config.js:23 | a key's value is the one from its last defining entry |
| EnvConfig.FoldKeys | app.config.js:14-25 | a key is in the result exactly when some line defines it |
| EnvConfig.LastDuplicateWins | app.config.js:23 | the value of a key is the one on the last line that defines it |
| EnvConfig.EnvOr | app.config.js:53-57 | the parsed value when present and non-empty, otherwise the default |
| EnvConfig.MissingFileGivesDefaults | app.config.js:51-57 | without a `.env` file every `extra` entry takes its literal default |
| EnvConfig.ExtraTakesLastDefinition | app.config.js:23-55 | APP_ENV takes the value on its last defining line, or "development" when that value is empty |
| EnvConfig.KeyPrefixLengthOf | app.config.js:15 | the key run of a key followed by a non-key character is exactly that key |
| EnvConfig.MatchLineOf | app.config.js:15 | `KEY=value` with no line terminator matches with that key and value |
| EnvConfig.ParseLineOf | app.config.js:15-23 | `KEY=value` is stored as the key with the trimmed, unquoted value |
| EnvConfig.QuotedValue | app.config.js:20-22 | `KEY="v"` is stored as v |
| EnvConfig.LoneQuoteValue | app.config.js:20-22 | `KEY="` is stored as the empty string |
| EnvConfig.CommentLineSkipped | app.config.js:15-16 | a line starting with a character outside `[A-Za-z0-9_]` (a `#` comment, say) is ignored |
| TakeAttendance.Flip | app/screens/TakeAttendance.tsx:96 | the toggled status always differs from the old one |
| TakeAttendance.StudentsOf | app/screens/TakeAttendance.tsx:57-62 | the students of a draft, index by index |
| TakeAttendance.InitialEntries | app/screens/TakeAttendance.tsx:57-62 | the draft holds the passed roster index by index, with every status present |
| TakeAttendance.Toggled | app/screens/TakeAttendance.tsx:90-101 | toggling keeps the students and the length; it flips the status of every entry with the id, and leaves every other entry alone |
| TakeAttendance.AllPresent | app/screens/TakeAttendance.tsx:103-105 | every entry, including those hidden by the search, is present, and the students are unchanged |
| TakeAttendance.ProceedParamsOf | app/screens/TakeAttendance.tsx:107-120 | the navigation parameters carry the absent entries in roster order, their ids index by index, and the roster length |
| TakeAttendance.ToggleTwice | app/screens/TakeAttendance.tsx:90-101 | toggling the same id twice restores the draft |
| TakeAttendance.CountsAddUp | app/screens/TakeAttendance.tsx:68-71 | the absent count is at most the length; the present count is the number of present entries; the two add up to the length |
| TakeAttendance.AllPresentHasNoAbsentees | app/screens/TakeAttendance.tsx:103-105 | after "all present" there are no absentees and the present count is the length |
| TakeAttendance.AbsentIdsIff | app/screens/TakeAttendance.tsx:108-110 | an id is among the absent ids exactly when some entry with that id is absent |
| TakeAttendance.AbsentIdsAgreeWithMarks | app/screens/TakeAttendance.tsx:108-110 | when equal ids share a status, an entry's id is among the absent ids exactly when that entry is absent |
| TakeAttendance.TogglePreservesSameIdSameStatus | app/screens/TakeAttendance.tsx:90-101 | toggling keeps equal ids in equal statuses |
| TakeAttendance.AllPresentPreservesSameIdSameStatus | app/screens/TakeAttendance.tsx:103-105 | "all present" leaves equal ids in equal statuses |
| TakeAttendance.InitialSameIdSameStatus | app/screens/TakeAttendance.tsx:57-62 | the initial draft has equal ids in equal statuses |
| TakeAttendance.AttendanceSheet.constructor | app/screens/TakeAttendance.tsx:57-64 | the draft starts from the roster, all present, with an empty search and the full list in view |
| TakeAttendance.AttendanceSheet.ToggleStudentStatus | app/screens/TakeAttendance.tsx:90-101 | the draft becomes the toggled draft, the search is kept, and the view is refreshed |
| TakeAttendance.AttendanceSheet.HandleAllPresent | app/screens/TakeAttendance.tsx:103-105 | the draft becomes all present, the search is kept, and the view is refreshed |
| TakeAttendance.AttendanceSheet.SetSearch | app/screens/TakeAttendance.tsx:74-88 | the search is replaced, the draft is unchanged, and the view is the trimmed-search filter of the draft |
| TakeAttendance.AttendanceSheet.HandleProceed | app/screens/TakeAttendance.tsx:107-120 | the parameters are those of the current draft; an entry's id is sent as absent exactly when the entry is marked absent; the total is the roster length |
| ConfirmAbsentees.AbsenteeStudents | app/screens/ConfirmAbsentees.tsx:57-62 | the students of the SMS list, index by index |
| ConfirmAbsentees.InitialAbsentStudents | app/screens/ConfirmAbsentees.tsx:56-62 | the SMS list holds the absentees in order, every one switched on |
| ConfirmAbsentees.WithSms | app/screens/ConfirmAbsentees.tsx:67-72 | every switch takes the given value, and the students are unchanged |
| ConfirmAbsentees.ToggledSms | app/screens/ConfirmAbsentees.tsx:75-80 | only the switches of entries with the id flip; the students are unchanged |
| ConfirmAbsentees.BuildRecords | app/screens/ConfirmAbsentees.tsx:105-113 | one record per fetched roster id, in order, present exactly when the id is not among the absent ids |
| ConfirmAbsentees.SubmissionRequest | app/screens/ConfirmAbsentees.tsx:94-130 | a failed roster fetch fails with its message; an empty roster fails with "No student records found for attendance" and nothing is posted; otherwise the body carries the records, the switched-on ids and `sendToAll` |
| ConfirmAbsentees.SubmitAlert | app/screens/ConfirmAbsentees.tsx:134-161 | success names the classroom and the SMS count; any failure shows its message or the fallback |
| ConfirmAbsentees.FilterEmptyIffNone | app/screens/ConfirmAbsentees.tsx:280-284 | no id is kept exactly when no absentee has SMS switched on |
| ConfirmAbsentees.ButtonTitleIff | app/screens/ConfirmAbsentees.tsx:280-284 | the title gets " & Send SMS" exactly when some SMS id will be sent |
| ConfirmAbsentees.SmsIdsAreSwitchedOnAbsentees | app/screens/ConfirmAbsentees.tsx:94-96 | every SMS id belongs to an absentee whose switch is on |
| ConfirmAbsentees.AllSwitchedOnSendsToEveryone | app/screens/ConfirmAbsentees.tsx:94-96 | with every switch on, the SMS ids are all absentee ids in order |
| ConfirmAbsentees.AllSwitchedOffSendsToNoone | app/screens/ConfirmAbsentees.tsx:94-96 | with every switch off, no SMS id is sent |
| ConfirmAbsentees.PresentDisplayMatchesDraft | app/screens/ConfirmAbsentees.tsx:217 | the displayed present count equals the attendance draft's present count |
| ConfirmAbsentees.RecordsMatchDraft | app/screens/ConfirmAbsentees.tsx:105-113 | when the fetched roster is the draft's roster, each record is present exactly when the draft marks that student present |
| ConfirmAbsentees.RecordsFollowFetchedRoster | app/screens/ConfirmAbsentees.tsx:105-113 | an id gets a record exactly when it is in the fetched roster, so absent ids missing from it add nothing |
| ConfirmAbsentees.AbsenteeReview.constructor | app/screens/ConfirmAbsentees.tsx:56-64 | every absentee starts switched on and `sendToAll` starts true |
| ConfirmAbsentees.AbsenteeReview.ToggleAllSms | app/screens/ConfirmAbsentees.tsx:67-72 | every switch and `sendToAll` take the value |
| ConfirmAbsentees.AbsenteeReview.ToggleStudentSms | app/screens/ConfirmAbsentees.tsx:75-86 | only the matching switches flip, and `sendToAll` becomes the `every` of the new switches |
| ConfirmAbsentees.AbsenteeReview.SubmitAttendance | app/screens/ConfirmAbsentees.tsx:89-161 | the request is the submission built from the state; `sendSmsToAllAbsent` is `sendToAll`, which for a non-empty list is whether every switch is on; the alert follows the outcome |
| AddStudentsToClassroom.ToggleSelection | app/screens/AddStudentsToClassroom.tsx:237-243 | a selected id is removed everywhere and nothing else is; an unselected id is appended at the end |
| AddStudentsToClassroom.ToggleSelectionTwice | app/screens/AddStudentsToClassroom.tsx:237-243 | selecting and deselecting an unselected id restores the list |
| AddStudentsToClassroom.DeselectKeepsOrder | app/screens/AddStudentsToClassroom.tsx:239 | deselecting an id held once, at any position, leaves the other ids in their order |
| AddStudentsToClassroom.TagCandidates | app/screens/AddStudentsToClassroom.tsx:131-136 | one candidate per student-role user, in order; `inClass` holds exactly when the id is among the class's current ids |
| AddStudentsToClassroom.CandidatesAreStudents | app/screens/AddStudentsToClassroom.tsx:131-133 | every candidate comes from a fetched user whose role is "student" |
| AddStudentsToClassroom.CeilDiv | app/screens/AddStudentsToClassroom.tsx:141 | `Math.ceil(n / d)`: zero for zero, otherwise the least q with n <= q·d |
| AddStudentsToClassroom.TotalPages | app/screens/AddStudentsToClassroom.tsx:51-141 | the server's page count when non-zero; otherwise the ceiling of total over 20 |
| AddStudentsToClassroom.PageNumber | app/screens/AddStudentsToClassroom.tsx:71 | an explicit page wins; otherwise page 1 on reset and the current page otherwise |
| AddStudentsToClassroom.QueryUrlSearchSuffix | app/screens/AddStudentsToClassroom.tsx:108-113 | the URL is `{base}/users/school/{school}?page=P&limit=L`, followed by `&search=` and the encoded query exactly when the query is non-empty |
| AddStudentsToClassroom.QueryUrlPageInjective | app/screens/AddStudentsToClassroom.tsx:108 | different page numbers give different URLs |
| AddStudentsToClassroom.StudentPicker.constructor | app/screens/AddStudentsToClassroom.tsx:43-53 | an empty list and selection on page 1, with the current ids defaulting to none |
| AddStudentsToClassroom.StudentPicker.FetchStudents | app/screens/AddStudentsToClassroom.tsx:59-170 | a failing school check shows its alert and changes nothing; otherwise a page replaces the list by the tagged students and sets the totals; a timeout shows the connection alert; any other failure shows the fetch-failure alert |
| AddStudentsToClassroom.StudentPicker.HandleSearchChange | app/screens/AddStudentsToClassroom.tsx:197-220 | the search is replaced; an empty text refetches at once, anything else waits for the debounce |
| AddStudentsToClassroom.StudentPicker.ToggleStudentSelection | app/screens/AddStudentsToClassroom.tsx:237-243 | the selection is toggled and nothing else changes |
| AddStudentsToClassroom.StudentPicker.TapStudent | app/screens/AddStudentsToClassroom.tsx:296-307 | a student already in the class cannot be toggled; any other is |
| AddStudentsToClassroom.StudentPicker.AddStudents | app/screens/AddStudentsToClassroom.tsx:245-289 | an empty selection shows "No Students Selected" and sends nothing; otherwise it sends the selection and reports the count or the error |
| ClassroomStudents.RemoveById | app/screens/ClassroomStudents.tsx:91 | the kept entries are exactly those whose id differs, and the list does not grow |
| ClassroomStudents.RemoveByIdConcat | app/screens/ClassroomStudents.tsx:91 | removal works piecewise, so the survivors keep their order |
| ClassroomStudents.RemoveAbsentId | app/screens/ClassroomStudents.tsx:91 | removing an id nobody has changes nothing |
| ClassroomStudents.RemoveUniqueId | app/screens/ClassroomStudents.tsx:91 | removing a unique id drops exactly that entry |
| ClassroomStudents.CountLabelSingularIff | app/screens/ClassroomStudents.tsx:158 | "student" exactly when the count is 1, otherwise "students" |
| ClassroomStudents.ClassRoster.constructor | app/screens/ClassroomStudents.tsx:44-47 | the list and the view both start as the passed roster |
| ClassroomStudents.ClassRoster.SetSearch | app/screens/ClassroomStudents.tsx:51-65 | the view is the trimmed-search filter of the unchanged list |
| ClassroomStudents.ClassRoster.RemoveStudent | app/screens/ClassroomStudents.tsx:67-110 | the confirmation names the student; a cancel or a failed DELETE leaves the list; a successful DELETE removes exactly that id |
| Students.StudentDirectory.constructor | app/screens/Students.tsx:46-48 | empty lists and an empty search |
| Students.StudentDirectory.FetchStudents | app/screens/Students.tsx:57-121 | the request is made exactly when the school check passes; a fetched list keeps only students and with an empty search all of them are in view; a failure shows the fetch-failure alert |
| Students.StudentDirectory.SetSearch | app/screens/Students.tsx:112-121 | the view is the untrimmed name/registration-id filter of the unchanged list |
| Home.NameFilter | app/screens/Home.tsx:87-90 | the view keeps exactly the classes whose lowered name includes the lowered search |
| Home.EmptySearchKeepsAll | app/screens/Home.tsx:87-90 | the empty search keeps every class, in order |
| Home.ClassList.constructor | app/screens/Home.tsx:37-39 | no classes and an empty search |
| Home.ClassList.FetchClasses | app/screens/Home.tsx:47-74 | a fetch puts every fetched class in view whatever the search; a failure shows the fetch-failure alert |
| Home.ClassList.SetSearch | app/screens/Home.tsx:87-90 | the view is the name filter of the unchanged classes |
| EditStudent.NameError | app/screens/EditStudent.tsx:113-118 | "Name is required" exactly when the name is blank, otherwise no error |
| EditStudent.MobileError | app/screens/EditStudent.tsx:121-129 | "required" when blank, "valid 10-digit" when the trimmed length is under 10, otherwise no error |
| EditStudent.OrUndefined | app/screens/EditStudent.tsx:156-160 | `s \|\| undefined`: undefined exactly for the empty string |
| EditStudent.LoadedFields | app/screens/EditStudent.tsx:89-92 | the name or ""; the mobile with its first "+91" removed, or ""; the parent fields from `additionalInfo`, or "" |
| EditStudent.BuildPayload | app/screens/EditStudent.tsx:144-161 | each key is present exactly when its field differs from the stored value; name is trimmed, mobile is "+91" and the trimmed number, and the parent fields become undefined when empty |
| EditStudent.ClassifyError | app/screens/EditStudent.tsx:193-208 | "forbidden" or "403" gives Permission Denied; otherwise "not found" or "404" gives Not Found; anything else gives Error with the message or the fallback |
| EditStudent.UntouchedFormHasNoChanges | app/screens/EditStudent.tsx:89-164 | a form left as loaded sends nothing when the stored record has the fields it is compared with |
| EditStudent.MissingTopLevelLanguageAlwaysChanges | app/screens/EditStudent.tsx:155-164 | with no top-level `parentLanguage` the payload is never empty, and an empty language gives a key that JSON leaves out |
| EditStudent.MobileRoundTrip | app/screens/EditStudent.tsx:90-153 | a trimmed number stored with "+91" loads back as that number and is sent back unchanged |
| EditStudent.StudentForm.constructor | app/screens/EditStudent.tsx:61-73 | empty fields and errors, with no record loaded |
| EditStudent.StudentForm.Load | app/screens/EditStudent.tsx:85-92 | the record is stored and the fields take their loaded values |
| EditStudent.StudentForm.ValidateForm | app/screens/EditStudent.tsx:109-132 | both errors are set from their checks, and the form is valid exactly when neither is set |
| EditStudent.StudentForm.HandleUpdateStudent | app/screens/EditStudent.tsx:135-212 | an invalid form sends nothing; a missing record or mobile fails into the classifier; an empty payload gives "No Changes"; otherwise the payload is patched and the outcome reported |
| AddStudent.EmailCheckSound | app/screens/AddStudent.tsx:54 | everything the direct check accepts matches `/^[^\s@]+@[^\s@]+\.[^\s@]+$/` |
| AddStudent.EmailCheckComplete | app/screens/AddStudent.tsx:54 | every split the pattern matches is accepted by the direct check |
| AddStudent.EmailIff | app/screens/AddStudent.tsx:54 | the direct check accepts exactly the addresses the pattern matches |
| AddStudent.ValidEmailIsTrimmed | app/screens/AddStudent.tsx:54-112 | an accepted address is its own trim, so the payload sends it as typed |
| AddStudent.NameError | app/screens/AddStudent.tsx:46-51 | an error exactly when the name is blank |
| AddStudent.EmailError | app/screens/AddStudent.tsx:53-63 | no error exactly when the address is non-blank and matches the pattern; "required" when blank, "valid email" otherwise |
| AddStudent.MobileError | app/screens/AddStudent.tsx:66-74 | no error exactly when the trimmed number has at least 10 characters; "required" when blank, "valid mobile" otherwise |
| AddStudent.Payload | app/screens/AddStudent.tsx:108-116 | trimmed name and email, role "student", "+91" and the trimmed mobile, and the parent fields trimmed or defaulting to "hindi" and "Not specified" |
| AddStudent.PayloadParentsNonEmpty | app/screens/AddStudent.tsx:114-115 | the parent fields sent are never empty |
| AddStudent.OnboardMobileRoundTrip | app/screens/AddStudent.tsx:113 | the stored mobile loads back on the edit screen as the trimmed number typed here |
| AddStudent.StudentDraft.constructor | app/screens/AddStudent.tsx:42-77 | empty fields and errors |
| AddStudent.StudentDraft.ValidateForm | app/screens/AddStudent.tsx:42-77 | all three checks run and set their errors; valid exactly when none is set |
| AddStudent.StudentDraft.HandleAddStudent | app/screens/AddStudent.tsx:80-149 | posted exactly when the form is valid and the school check passes; the payload has the defaults; the alert is the school alert, the success with the registration id or "Generated", or the error |
| ResetPassword.ResetErrors | app/screens/ResetPassword.tsx:39-66 | the current-password key exactly when it is blank; the new-password key when blank ("required") or shorter than 8 as typed; the confirm key when blank or different from the new password; no key exactly when the fields are acceptable |
| ResetPassword.PasswordForm.constructor | app/screens/ResetPassword.tsx:36-37 | all three fields empty and no errors |
| ResetPassword.PasswordForm.ValidateForm | app/screens/ResetPassword.tsx:39-67 | the error object is `ResetErrors` of the fields; valid exactly when no key is set, which is when the fields are acceptable |
| ResetPassword.PasswordForm.HandleResetPassword | app/screens/ResetPassword.tsx:69-101 | the error object is `ResetErrors` of the fields; the untrimmed passwords are sent exactly when the fields are acceptable; the alert follows the outcome |
| EditProfile.EmailCheckSound | app/screens/EditProfile.tsx:54 | everything the direct check accepts matches `/^\S+@\S+\.\S+$/` |
| EditProfile.EmailCheckComplete | app/screens/EditProfile.tsx:54 | every match of the pattern is accepted by the direct check |
| EditProfile.EmailIff | app/screens/EditProfile.tsx:54 | the direct check accepts exactly what the pattern matches, '@' and '.' allowed inside the parts |
| EditProfile.MobileIff | app/screens/EditProfile.tsx:59 | dropping a leading plus and counting 10 to 15 digits is `/^\+?[0-9]{10,15}$/` |
| EditProfile.ProfileErrors | app/screens/EditProfile.tsx:39-64 | the name key exactly when the name is blank; the e-mail key when blank ("required") or not matching the pattern; the mobile key only for a typed mobile that does not match; no key exactly when all three are acceptable |
| EditProfile.MergeUser | app/screens/EditProfile.tsx:86-93 | the user takes the returned name, email and mobile, and every other field is unchanged |
| EditProfile.ProfileForm.constructor | app/screens/EditProfile.tsx:29-31 | the fields start from the user, or empty without one |
| EditProfile.ProfileForm.ValidateForm | app/screens/EditProfile.tsx:39-65 | the error object is `ProfileErrors` of the fields; valid exactly when no key is set |
| EditProfile.ProfileForm.HandleUpdateProfile | app/screens/EditProfile.tsx:67-110 | the error object is `ProfileErrors` of the fields; the fields are sent as typed exactly when the name is filled, the e-mail matches and the mobile is empty or matches; the user is replaced by the merge exactly when there is a user and response data; the alert follows the outcome |
| Login.LoginErrors | app/screens/Login.tsx:27-33 | an entry, with its message, exactly for each blank field; no key exactly when both fields are filled in |
| Login.LoginOutcome | app/screens/Login.tsx:46-56 | a session starts exactly when the response is ok with a non-empty token; otherwise "Login Failed" with the message or "Invalid credentials", or "Network Error" |
| Login.LoginOutcomeExclusive | app/screens/Login.tsx:47-56 | exactly one of a session and an alert happens |
| Login.LoginRequestUnauthenticated | app/screens/Login.tsx:42 | the login request's Authorization header is empty and it is sent as JSON |
| Login.LoginForm.constructor | app/screens/Login.tsx:20-23 | empty fields, password hidden, no errors |
| Login.LoginForm.Validate | app/screens/Login.tsx:27-34 | the error object is `LoginErrors` of the fields; valid exactly when both are filled in |
| Login.LoginForm.ChangeRegistrationId | app/screens/Login.tsx:72-75 | the id is replaced and its error cleared; the password error is unchanged |
| Login.LoginForm.ChangePassword | app/screens/Login.tsx:85-88 | the password is replaced and its error cleared; the id error is unchanged |
| Login.LoginForm.ToggleShowPassword | app/screens/Login.tsx:93 | visibility flips and nothing else changes |
| Login.LoginForm.HandleLogin | app/screens/Login.tsx:36-57 | the error object is `LoginErrors` of the fields and the password visibility is unchanged; the fields are posted exactly when both are filled, without a token; the outcome is the login outcome of the response |
| ClassroomDetails.SubmitGuard | app/screens/ClassroomDetails.tsx:256-281 | no alert exactly when a user with an id and a 24-hex-digit school is signed in; a missing user or id says so first, then the school check |
| ClassroomDetails.RequestBody | app/screens/ClassroomDetails.tsx:286-322 | trimmed name and description; the create body, with the user's id as teacher and school, exactly when creating |
| ClassroomDetails.StudentCountTextCases | app/screens/ClassroomDetails.tsx:470-474 | "No students in this class yet." exactly for 0; "student" for 1 and "students" above |
| ClassroomDetails.ClassForm.constructor | app/screens/ClassroomDetails.tsx:77-87 | empty fields, no errors, not submitting |
| ClassroomDetails.ClassForm.LoadForEdit | app/screens/ClassroomDetails.tsx:146-168 | a fetched class fills the fields, or "" for missing ones; a failure sets "Could not load classroom details" |
| ClassroomDetails.ClassForm.ValidateForm | app/screens/ClassroomDetails.tsx:92-103 | "Class name is required" exactly when the name is blank, and cleared otherwise |
| ClassroomDetails.ClassForm.ChangeClassName | app/screens/ClassroomDetails.tsx:214-217 | the name is replaced; the error is cleared only by a non-blank text |
| ClassroomDetails.ClassForm.Submit | app/screens/ClassroomDetails.tsx:252-351 | a request is sent exactly when the name is valid and the guard passes, with the trimmed body; the alert is the guard's or the fixed text for the mode and outcome; a press on a button that `disabled` leaves enabled (not submitting, non-blank name) always passes validation and reaches the guard |

## Left out

- Paging buttons. The disabled rules (AddStudentsToClassroom.tsx:455 and
  475) are the predicates `PrevDisabled` and `NextDisabled`. No property
  is proved about the pages they lead to, because `page` and `totalPages`
  come from the server response and nothing keeps the page within range.
- Network, JSON and timeouts. Every `fetch`, its `AbortController`
  timeout, and JSON encoding and decoding are left out. Their outcomes are
  parameters.
- Loading and refreshing flags. The `loading`, `refreshing` and
  `searchLoading` state is not modelled; it only drives spinners.
- Timing. The 500 ms search debounce (AddStudentsToClassroom.tsx:196-235)
  and the 300 ms delayed logout (apiHelpers.ts:14-16) are timing only. The
  model records that a logout is scheduled and that a search waits.
- Navigation. `navigation.navigate`/`goBack` calls and all rendering are
  left out. The `TakeAttendance.ProceedParams` value stands for the route
  parameters.
- JS string semantics. `toLowerCase` is modelled on ASCII letters only,
  because full Unicode case mapping has no Dafny counterpart. `trim` and
  `\s` use the ECMAScript whitespace set. Strings are sequences of Unicode
  code points (Dafny `char`s), not UTF-16 code units, so JavaScript's
  `.length` agrees with `|s|` only for text without characters outside the
  Basic Multilingual Plane (an emoji counts 2 in JavaScript and 1 here).
  This affects the length checks on passwords and mobile numbers.
- URL encoding. `encodeURIComponent` is a function parameter of the URL
  builder; its percent-encoding is not modelled.
- Dates. The default date from the clock (TakeAttendance.tsx:44) and all
  locale date formatting are left out; the date is a parameter.
- Storage and startup. `app/hooks/authContext.tsx` (storage persistence)
  and `App.tsx` are not part of this model, nor are the splash, tab,
  settings and shared UI components.
- Config. `app/config/env.ts` and `app/config/api.ts` are not part of this
  model; their `Number(...)` conversion is floating point.
- Attendance records. `AttendanceRecords.tsx` and
  `AttendanceRecordDetails.tsx` are display only.
- The `.env` file. Reading it from disk, and the exception branch of
  `parseEnvFile`, are left out; the file is an `Option<string>`.
- `handleCreateClass` (ClassroomDetails.tsx:106-140) is not modelled: no
  button at the lines read calls it. The submit handler at 252-351 is
  modelled instead.
- A caller `Headers` instance. `createAuthFetchOptions` merges
  `options.headers` as a plain object. A `Headers` instance spread that way
  contributes no keys; the model treats headers as a string map.
- ConfirmAbsentees.AbsenteeReview.ToggleAllSms: its invariant
  (`sendToAll` equals the `every` of the switches) is proved only for a
  non-empty absentee list. `toggleAllSms(false)` on an empty list breaks
  it, and the switch is hidden then.
- EditStudent.StudentForm.HandleUpdateStudent: the `TypeError` message
  thrown for a missing record or mobile is a parameter. Its exact text
  comes from the JavaScript engine.
- EditProfile.ProfileForm.HandleUpdateProfile: the response's `name` and
  `email` are modelled as strings; a response lacking them would store
  `undefined`.
- Login.LoginForm.HandleLogin: a response whose body is not JSON is
  reported as a network error, as the source's single `catch` does. The
  model folds it into `NetworkFailure`.
- The profile modal on the Students screen shows a fixed mock user. It is
  rendering only, and is left out.
