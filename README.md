# Job application tracker: a verified model of its decision logic

The application is a single-page job-application tracker. A visitor signs in or
registers against a JSON server. The application then remembers the signed-in
user in the browser's `localStorage` and gates its pages on that session. The
dashboard keeps a list of job applications, each with a company, a role, a
status and free-text details. That list lives in memory and is written through
to `localStorage` after every change. On the dashboard a user can:

- add a job through a validated form;
- click a job's status badge to move it along the cycle Applied → Pending → Rejected → Applied;
- delete a job after confirming;
- search by company or role and filter by status;
- see per-status counts.

Job cards show long descriptions and requirement lists shortened.

The model is split into these modules:

- `Text`: the string primitives the pages use, over `seq<char>`. White space for `trim` and `\s` and the letters for `toLowerCase` are the ASCII ones:
  - `trim`
  - `toLowerCase`
  - `includes`
  - the `\s+` → `-` replacement
  - `substring` truncation
  - decimal rendering of numbers
  - JavaScript's `length` in UTF-16 code units
- `BrowserStorage`: `localStorage` as a class over a `map<string, string>`. JSON is a `Codec`, a serialiser paired with a partial parser, passed in from outside. `Faithful` is the round-trip property that `JSON.stringify`/`JSON.parse` provide.
- `StorageService`: the storage helper's typed read, with its fallback to `[]`, and its write.
- `Entities`: users, jobs, the add-job form and its field names. Also the status datatype, with `Other` for any status string off the cycle, and the click-to-advance cycle.
- `JobList`: the dashboard's pure computations:
  - the status click over the list
  - deletion
  - the search-and-status filter
  - the statistics
  - the badge CSS class
  - the shortened card texts
- `Dashboard`: the dashboard page as a class. Its fields are the page state; its methods are the page's event handlers; it holds the store it writes to.
- `Api`: what the REST client does with a response (`login`, `checkUsername`, the create bodies, `getJob`) and `handleAPIError`'s three-way message. Every HTTP exchange is an input `Attempt`: it either answered with data or threw an error.
- `App`: the session state (`user`, `isAuthenticated`), its restore, login and logout against the `jobTracker_user` key, and the route table as a function of path and session.
- `Login`, `Register`: the two forms' submit handlers as classes. The server's answers are parameters. Each handler returns the requests it sends and the sign-in it hands to the application.

Inputs from outside the program are parameters:

- `Date.now()` ids
- today's date
- the answer to `confirm()`
- the server's answers

`src/pages/Home/Home.tsx` and `src/pages/Home/Home_backup.tsx` share their
logic block line for line, so one `Dashboard` class models both. The two files
differ in how a job card shows its description and requirements. `JobList.Shortened`
covers the current page and `JobList.InFull` the earlier one.

A few facts about the code shape the model:

- The statuses used are Applied, Pending and Rejected. `src/components/Types/Index.ts` declares an `Interviewed` status, which no page uses.
- No page modelled here sorts jobs or edits one. The REST client's `updateJob` is not called by any of these pages, and the dashboard does not call the REST client at all. The job-details page that `/job/:id` routes to is not part of this model.
- The dashboard's mount-time load has no loading or error state. A stored list that does not parse throws out of the effect. No error boundary catches it, so React takes the page down. The model marks that outcome as a parse failure and follows the page no further.

## Model

| member | source | states |
|---|---|---|
| Text.ToLower | src/pages/Home/Home.tsx:132-133 | lower-casing keeps the length and maps each character independently; upper-case letters become lower-case and nothing else changes |
| Text.LowerChar | src/pages/Home/Home.tsx:132-133 | an upper-case letter becomes the lower-case letter at the same position in the alphabet; the result is never upper-case, and any other character is unchanged |
| Text.ToLowerAppend | src/pages/Home/Home.tsx:132-133 | lower-casing distributes over concatenation |
| Text.NoSpaceToLower | src/pages/Home/Home.tsx:50 | lower-casing a string without white space creates none |
| Text.Trim | src/pages/Home/Home.tsx:99 | `trim()`, front then back; never longer than the input, and characterised by Text.TrimSpec |
| Text.TrimEmptyIff | src/pages/Home/Home.tsx:99 | a string trims to empty exactly when it is all white space |
| Text.TrimStartSpec | src/pages/Home/Home.tsx:99 | what is removed at the front is all white space, what remains is a suffix not starting with white space |
| Text.TrimEndSpec | src/pages/Home/Home.tsx:99 | what is removed at the back is all white space, what remains is a prefix not ending with white space |
| Text.TrimSpec | src/pages/Home/Home.tsx:99 | the trimmed string is a contiguous piece of the original, neither starting nor ending with white space, with only white space cut off on either side |
| Text.Includes | src/pages/Home/Home.tsx:132-133 | `includes`, as a scan from the left; characterised by Text.IncludesIff (the predicate carries no ensures of its own) |
| Text.IncludesIff | src/pages/Home/Home.tsx:132-133 | the left-to-right scan succeeds exactly when the pattern occurs at some index |
| Text.CollapseSpaces | src/pages/Home/Home.tsx:50 | replacing white-space runs by `-` leaves no white space and never lengthens the string |
| Text.CollapseSpacesIdentity | src/pages/Home/Home.tsx:50 | a string without white space is unchanged by the replacement |
| Text.CollapseSpacesIdempotent | src/pages/Home/Home.tsx:50 | replacing twice is replacing once |
| Text.CollapseSpacesOfRun | src/pages/Home/Home.tsx:50 | a non-empty run of white space on its own becomes exactly one `-` |
| Text.CollapseSpacesAppend | src/pages/Home/Home.tsx:50 | the replacement distributes over a cut between a non-space character and white space |
| Text.CollapseSpacesSplit | src/pages/Home/Home.tsx:50 | a maximal run of white space between two pieces becomes one `-` between the pieces' own replacements |
| Text.CollapseLowerSplit | src/pages/Home/Home.tsx:50 | the same split holds for lower-casing followed by the replacement, as the badge class applies them |
| Text.Truncate | src/pages/Home/Home.tsx:319-322 | a text within the limit is returned as is; a longer one becomes its first `limit` characters plus `...`, `limit + 3` characters in all |
| Text.NatToDecimal | src/services/api.ts:87 | the rendering of a status code is a non-empty digit string; it starts with `0` only for zero, which renders as `0` alone |
| Text.DecimalRoundTrip | src/services/api.ts:87 | reading the rendered digits back gives the number |
| Text.LeadingDigitsOf | src/services/api.ts:87 | a digit string followed by a non-digit is exactly the leading run of digits, so it can be cut off again |
| Text.Utf16Length | src/pages/Register/Register.tsx:32 | JavaScript's `length`: between one and two code units per character; one character takes two units exactly when it lies above the Basic Multilingual Plane |
| Text.Utf16LengthAppend | src/pages/Register/Register.tsx:32 | the code-unit length of a concatenation is the sum of the lengths, so the length of any string is the sum over its characters |
| Text.Utf16LengthIsCount | src/pages/Register/Register.tsx:32 | the code-unit length equals the character count exactly when every character is in the Basic Multilingual Plane |
| BrowserStorage.LocalStorage.GetItem | src/components/Services/StorageService.ts:3 | returns the stored string exactly when the key is present |
| BrowserStorage.LocalStorage.SetItem | src/components/Services/StorageService.ts:11 | overwrites one key and no other |
| BrowserStorage.LocalStorage.RemoveItem | src/App.tsx:38 | deletes one key and no other |
| StorageService.StoredData | src/components/Services/StorageService.ts:1-8 | the value `getStoredData` returns, a function of the store; characterised by StorageService.UnreadableIsEmpty, StorageService.ParsedStringIsRead and StorageService.StoredDataSource |
| StorageService.GetStoredData | src/components/Services/StorageService.ts:1-8 | returns the parsed list for a non-empty string that parses and `[]` otherwise |
| StorageService.SetStoredData | src/components/Services/StorageService.ts:10-12 | sets the key to the serialised data and leaves every other key unchanged |
| StorageService.UnreadableIsEmpty | src/components/Services/StorageService.ts:3-7 | a missing key, an empty string and a parse failure all read as `[]` |
| StorageService.StoredDataSource | src/components/Services/StorageService.ts:4 | a non-empty read result is what the stored string parses to |
| StorageService.ParsedStringIsRead | src/components/Services/StorageService.ts:3-4 | a present, non-empty string that parses reads as what it parses to, canonical rendering or not |
| StorageService.ReadAfterWrite | src/components/Services/StorageService.ts:4-11 | with a faithful codec, reading a key after writing it gives the data back, and other keys read as before |
| Entities.ParseStatus | src/pages/Home/Home.tsx:89-92 | every status string names exactly one status, and naming it gives the string back |
| Entities.StatusNameInjective | src/pages/Home/Home.tsx:134 | two statuses have the same name exactly when they are equal |
| Entities.NextStatus | src/pages/Home/Home.tsx:58-70 | the next status is always on the cycle and differs from any status already on it |
| Entities.NextStatusCycle | src/pages/Home/Home_backup.tsx:58-70 | the table Applied→Pending→Rejected→Applied, anything else→Applied; three steps return each cycle state to itself, no state is a fixed point |
| Entities.WithField | src/pages/Home/Home.tsx:87-93 | the named field reads back the new value and every other field is unchanged |
| Entities.EmptyForm | src/pages/Home/Home.tsx:115-128 | the reset form: every text field empty, status Applied, today's date; Entities.CanSubmitIff shows it never passes the guard |
| Entities.CanSubmit | src/pages/Home/Home.tsx:99 | the submit guard on trimmed company name and role; characterised by Entities.CanSubmitIff |
| Entities.CanSubmitIff | src/pages/Home/Home.tsx:99-102 | the guard passes exactly when company name and role each contain a non-space character; a reset form never passes |
| Entities.NewJob | src/pages/Home/Home.tsx:104-107 | the new job carries the given id and exactly the form's values, untrimmed |
| JobList.Keep | src/pages/Home/Home.tsx:131-136 | the filter result is no longer than the list and every element satisfies the predicate |
| JobList.KeepSpec | src/pages/Home/Home.tsx:81 | the filter result is an order-preserving subsequence, each satisfying element kept as often as it occurs, others dropped |
| JobList.KeepAll | src/pages/Home/Home.tsx:131-136 | filtering by a predicate all elements satisfy changes nothing |
| JobList.KeepConcat | src/pages/Home/Home.tsx:109 | filtering distributes over appending |
| JobList.WithStatusCycled | src/pages/Home/Home.tsx:55-74 | length and order kept; only `status` changes, and it advances in exactly the records with the clicked id |
| JobList.CycleUnknownId | src/pages/Home/Home.tsx:55-74 | a click on an id no record carries changes nothing |
| JobList.CycleThrice | src/pages/Home/Home.tsx:58-70 | three clicks on an id whose records are on the cycle restore the list |
| JobList.Without | src/pages/Home/Home.tsx:81 | the result is exactly the records with another id, as a subsequence in original order, each as often as before |
| JobList.WithoutUnknownId | src/pages/Home/Home_backup.tsx:79-84 | deleting an id no record carries changes nothing |
| JobList.WithoutMembership | src/pages/Home/Home.tsx:81 | a record survives deletion exactly when it was present and has another id |
| JobList.FilteredJobs | src/pages/Home/Home.tsx:131-136 | an order-preserving subsequence of the list holding exactly the jobs that match both the search and the status filter, each as often as in the list |
| JobList.MatchesSearch | src/pages/Home/Home.tsx:132-133 | the search predicate; characterised by JobList.MatchesSearchIff |
| JobList.MatchesStatus | src/pages/Home/Home.tsx:134 | the status-filter predicate; characterised by JobList.MatchesStatusIff |
| JobList.MatchesSearchIff | src/pages/Home/Home.tsx:132-133 | a job matches the search exactly when the term occurs, ignoring case, in its company name or role; the empty term matches every job |
| JobList.MatchesStatusIff | src/pages/Home/Home.tsx:134 | filtering by a status name keeps exactly the jobs with that status, every job when the name is `All` |
| JobList.FilterEverything | src/pages/Home/Home_backup.tsx:131-136 | the empty search with the `All` filter shows the whole list |
| JobList.FilterIdempotent | src/pages/Home/Home.tsx:131-136 | filtering the filtered list again changes nothing |
| JobList.CountStatus | src/pages/Home/Home.tsx:29-31 | the number of records with one status, never more than the list holds |
| JobList.CountStatusStep | src/pages/Home/Home.tsx:29-31 | a status count goes one record at a time |
| JobList.ComputeStats | src/pages/Home/Home.tsx:27-32 | the total is the length of the list; which status each other field counts is stated by JobList.StatsFields |
| JobList.StatsFields | src/pages/Home/Home.tsx:27-32 | the empty list counts nothing; appending a job adds one to the total and one to `pending`, `applied` or `rejected` as its status is Pending, Applied or Rejected, and to no other field |
| JobList.StatsSum | src/pages/Home/Home.tsx:27-32 | the three status counts add up to at most the total, and to the total exactly when no job is off the cycle |
| JobList.StatsAfterAppend | src/pages/Home/Home.tsx:109 | appending a job raises only the count of its own status, by one |
| JobList.StatusClass | src/pages/Home/Home.tsx:49-51 | the badge class is the class of the status's name, starting with `status-` and a single token without white space |
| JobList.NameClass | src/pages/Home/Home.tsx:50 | the class of a status string starts with `status-` and holds no white space |
| JobList.NameClassOfWords | src/pages/Home/Home.tsx:50 | a maximal white-space run in the name becomes one `-` in the class, between the lower-cased replacements of the two sides |
| JobList.NameClassOfTwoWords | src/pages/Home/Home.tsx:50 | two words separated by white space give `status-<first>-<second>`, lower-cased |
| JobList.StatusClassOfPlainName | src/pages/Home/Home.tsx:50 | a name without white space gives `status-` plus the lower-cased name |
| JobList.StatusClassOfCycle | src/pages/Home/Home.tsx:49-51 | Applied, Pending and Rejected each get `status-` plus the lower-cased name, as one token |
| JobList.Shortened | src/pages/Home/Home.tsx:316-337 | an empty section is not shown; a shown text is at most `limit + 3` long, unchanged within the limit and cut to `limit` characters plus `...` beyond it |
| JobList.InFull | src/pages/Home/Home_backup.tsx:235-250 | an empty section is not shown, any other text is shown whole |
| JobList.CardDescription | src/pages/Home/Home.tsx:316-325 | a card's description section is the description shortened at 150 characters: absent exactly when empty, whole within the limit, otherwise the first 150 characters plus `...` |
| JobList.CardRequirements | src/pages/Home/Home.tsx:327-337 | a card's requirements section is the requirements shortened at 100 characters: absent exactly when empty, whole within the limit, otherwise the first 100 characters plus `...` |
| JobList.CardOf | src/pages/Home/Home.tsx:305-337 | a card's badge is the job status's class, and its two sections are the shortened description and requirements |
| JobList.ShortenedAgreesIff | src/pages/Home/Home.tsx:319-334 | the two page versions show the same text exactly when it fits the limit or its last three characters over the limit are already `...` |
| Dashboard.LoadResult | src/pages/Home/Home.tsx:35-40 | nothing happens for a missing or empty stored string; a parsing string gives its list; a non-parsing one is a parse failure |
| Dashboard.ReloadRestoresSaved | src/pages/Home/Home.tsx:35-46 | with a faithful codec, the list `saveJobs` wrote is the list the next mount loads |
| Dashboard.Dashboard.constructor | src/pages/Home/Home.tsx:7-24 | no jobs, no search, the `All` filter, the form closed and empty |
| Dashboard.Dashboard.Load | src/pages/Home/Home.tsx:35-40 | the list becomes the stored list when it parses, is untouched when nothing is stored, and a parse failure is reported as the outcome where the page would throw |
| Dashboard.Dashboard.SaveJobs | src/pages/Home/Home.tsx:43-46 | the list is replaced and written to its key, other keys untouched; memory and store then agree |
| Dashboard.Dashboard.UpdateJobStatus | src/pages/Home/Home.tsx:54-76 | the list becomes the status-cycled list and is persisted |
| Dashboard.Dashboard.DeleteJob | src/pages/Home/Home.tsx:79-84 | without confirmation nothing changes; with it the list loses exactly the records with that id and is persisted |
| Dashboard.Dashboard.HandleInputChange | src/pages/Home/Home.tsx:87-93 | one field of the form takes the value |
| Dashboard.Dashboard.ResetForm | src/pages/Home/Home.tsx:115-128 | the form is empty with status Applied and today's date |
| Dashboard.Dashboard.HandleSubmit | src/pages/Home/Home.tsx:96-112 | a blank company or role raises the alert and changes nothing; otherwise exactly one job built from the form is appended and persisted, and the form is closed and reset |
| Dashboard.Dashboard.OpenAddForm | src/pages/Home/Home.tsx:178 | the form is shown |
| Dashboard.Dashboard.CloseAddForm | src/pages/Home/Home.tsx:373 | the form is hidden |
| Dashboard.Dashboard.SetSearchTerm | src/pages/Home/Home.tsx:242 | the search term takes the typed value |
| Dashboard.Dashboard.SetStatusFilter | src/pages/Home/Home.tsx:250 | the status filter takes the selected value |
| Dashboard.Dashboard.View | src/pages/Home/Home.tsx:27-32 | the page shows the filtered list, one card per listed job in the same order, and the statistics of the whole list, changing nothing |
| Dashboard.AddThenDelete | src/pages/Home/Home.tsx:79-112 | adding a job with a fresh id and then deleting it with confirmation restores the list, and a reload agrees |
| Api.HandleApiError | src/services/api.ts:84-95 | a response gives the server-error message with status and reason whether or not a request is set; otherwise a request gives the network message; otherwise `Error: ` plus the message |
| Api.ErrorMessageClassifies | src/services/api.ts:84-95 | the three messages never collide: the message tells which kind of failure happened |
| Api.ErrorMessageNonEmpty | src/services/api.ts:84-95 | every failure yields a message to show |
| Api.ServerErrorCarriesStatus | src/services/api.ts:87 | the status code's digits follow the 14-character prefix, end at the space before the reason, and read back as the status |
| Api.ServerErrorStatusDetermined | src/services/api.ts:87 | two server errors with the same message had the same status code and the same reason |
| Api.LoginResult | src/services/api.ts:23-26 | the first user found, or null exactly when nothing was found |
| Api.UsernameTaken | src/services/api.ts:29-32 | a name is taken exactly when the lookup found a user |
| Api.WithGeneratedId | src/services/api.ts:35-41 | the body holds the given fields plus `id`, and the generated `id` wins over any `id` in the fields |
| Api.CreateUserRequest | src/services/api.ts:35-41 | the account request carries exactly the username, the password and the generated id |
| Api.CreateJobRequest | src/services/api.ts:63-69 | the job request body is the job fields with the generated id written last |
| Api.GetJobResult | src/services/api.ts:53-60 | null exactly when the request threw, otherwise the job answered |
| App.RestoreResult | src/App.tsx:19-27 | no session for a missing or empty stored string; a parsing string restores its user; a non-parsing one is a failure |
| App.SessionSurvivesReload | src/App.tsx:19-39 | with a faithful codec, a user stored at login is restored on the next mount, and after logout no session is found |
| App.AppState.constructor | src/App.tsx:16-17 | nobody is signed in and the two session fields agree |
| App.AppState.Restore | src/App.tsx:19-27 | authenticates with the parsed user only when the stored string is present, non-empty and parses; with nothing stored the state is untouched; a parse failure is reported as the outcome where the page would throw; the session fields agree after it |
| App.AppState.HandleLogin | src/App.tsx:29-33 | the user is signed in and stored under `jobTracker_user`, overwriting any earlier value, other keys untouched |
| App.AppState.HandleLogout | src/App.tsx:35-39 | nobody is signed in and the stored user is removed, other keys untouched |
| App.AppState.Show | src/App.tsx:50-86 | the page shown is the route table's element for the path and the session |
| App.Route | src/App.tsx:50-86 | the route table; a redirect only ever goes to `/login`, `/home` or `/404`, and a visitor who is not signed in is only shown the landing, sign-in, registration or error page |
| App.IsJobPath | src/App.tsx:77 | the `/job/:id` pattern: the prefix and one non-empty segment; App.StaticPathsAreNotJobPaths shows it is disjoint from the fixed paths |
| App.Protected | src/App.tsx:41-43 | the page renders exactly when signed in, otherwise the visitor is sent to `/login` |
| App.ProtectedPaths | src/App.tsx:68-83 | `/home` and `/job/:id` render their page exactly when signed in and otherwise redirect to `/login`; a job path shows the job its segment names |
| App.GuestPaths | src/App.tsx:52-67 | `/login` and `/register` redirect to `/home` when signed in and show their form otherwise |
| App.PublicAndUnknownPaths | src/App.tsx:51-85 | `/` always shows the landing page, `/404` the error page, and any unmatched path redirects to `/404` |
| App.RedirectsSettle | src/App.tsx:50-86 | the target of every redirect renders a page in the same session, so routing never loops |
| App.StaticPathsAreNotJobPaths | src/App.tsx:76-77 | none of the fixed paths matches the job pattern |
| App.CompleteSignIn | src/pages/Register/Register.tsx:50-51 | a finished sign-in from either form stores the session and lands on the dashboard; a form that stays writes nothing |
| Login.LoginEffect | src/pages/Login/Login.tsx:26-35 | where a submit ends for each lookup outcome; characterised by Login.LoginSignsInFirstMatch |
| Login.LoginError | src/pages/Login/Login.tsx:26-35 | the error a submit leaves for each lookup outcome; characterised by Login.LoginSignsInFirstMatch and Login.LoginErrorIffStay |
| Login.LoginSignsInFirstMatch | src/pages/Login/Login.tsx:26-35 | the user signed in is the first one found; no match gives the invalid-credentials message; a thrown error gives its classified message |
| Login.LoginErrorIffStay | src/pages/Login/Login.tsx:28-35 | an error is shown exactly when nobody was signed in |
| Login.LoginForm.constructor | src/pages/Login/Login.tsx:13-16 | empty fields, no error, not loading |
| Login.LoginForm.SetUsername | src/pages/Login/Login.tsx:13 | the username takes the typed value |
| Login.LoginForm.SetPassword | src/pages/Login/Login.tsx:14 | the password takes the typed value |
| Login.LoginForm.Begin | src/pages/Login/Login.tsx:21-22 | while the lookup is out the error is cleared and the form is loading |
| Login.LoginForm.Settle | src/pages/Login/Login.tsx:28-38 | once the lookup settles, the form signs in or shows the error the outcome calls for, and stops loading |
| Login.LoginForm.HandleSubmit | src/pages/Login/Login.tsx:19-39 | sends the lookup for the typed credentials; signs in or leaves an error as the lookup's result says; ends not loading |
| Register.Registered | src/pages/Register/Register.tsx:20-57 | a submit's requests, outcome and error for each form value and server answer, with the length counted in UTF-16 code units; characterised by the lemmas below |
| Register.LocalChecksFirst | src/pages/Register/Register.tsx:27-35 | a password mismatch is reported before the length check, and neither check sends a request |
| Register.ThrownCallsShowTheirError | src/pages/Register/Register.tsx:38-53 | a lookup that throws stops after the lookup with `handleAPIError`'s message; an account request that throws, after a free name, leaves that request's message after sending both requests |
| Register.TakenNameCreatesNothing | src/pages/Register/Register.tsx:38-42 | a taken username stops after the lookup with its message and no account request |
| Register.SignedInIff | src/pages/Register/Register.tsx:27-51 | registration signs in exactly the user the server created, exactly when all three checks pass and both requests answer, after sending the lookup and the account request |
| Register.ErrorIffStay | src/pages/Register/Register.tsx:22-55 | an error is shown exactly when nobody was signed in; the requests sent are a prefix of lookup then account request |
| Register.RegisterForm.constructor | src/pages/Register/Register.tsx:13-17 | empty fields, no error, not loading |
| Register.RegisterForm.SetUsername | src/pages/Register/Register.tsx:13 | the username takes the typed value |
| Register.RegisterForm.SetPassword | src/pages/Register/Register.tsx:14 | the password takes the typed value |
| Register.RegisterForm.SetConfirmPassword | src/pages/Register/Register.tsx:15 | the confirmation takes the typed value |
| Register.RegisterForm.Begin | src/pages/Register/Register.tsx:22-23 | while the checks and requests run the error is cleared and the form is loading |
| Register.RegisterForm.RunChecks | src/pages/Register/Register.tsx:25-53 | the checks and requests with their early returns give exactly the registration the page specifies |
| Register.RegisterForm.HandleSubmit | src/pages/Register/Register.tsx:20-57 | begins, then does what the page specifies, and ends not loading on every path |

## Left out

- `formatDate` and the stat-trend figure on the dashboard depend on the wall clock, floating-point rounding and locale formatting.
- JSX rendering, layout CSS and the modal wiring beyond `showAddForm` are presentation only.
- The landing page, the error page and the header are left out. The header's logout delegates to `App.AppState.HandleLogout` and then navigates.
- `src/index.ts` only re-exports other modules.
- `src/components/Types/Index.ts` only declares types.
- The axios transport, query-string construction and the network are modelled as `Attempt` inputs. `getUsers`, `getUserJobs`, `updateJob` and `deleteJob` only pass the response through, and are not modelled.
- Serialisation and parsing are the abstract `Codec`. JSON's own grammar is not modelled.
- An exception thrown by `localStorage` itself, which the storage helper's `catch` would also turn into `[]`, is not modelled.
- `StorageService.GetStoredData`: JSON that parses to something other than a list (the text `null`, say) is returned as is by the helper. The model's `decode` reports it as a parse failure, so it reads as `[]`.
- `Dashboard.Dashboard.Load`: JSON that parses to something other than a list (the text `null`, say) is set as the page's list, and the next render throws at `jobs.length`. The model's `decode` reports it as a parse failure instead.
- `Dashboard.Dashboard.Load`, `App.AppState.Restore`: after a parse failure the page or application has been taken down. The model keeps its state and only reports the outcome.
- `App.AppState.Restore`: a stored string that parses to something other than a user (the text `null`, say) would authenticate in the page with that value. The codec's `decode` reports it as a parse failure instead.
- `Text.IsSpace`, `Text.LowerChar`: only ASCII white space and ASCII letters are modelled. Unicode white space and case mapping are not.
- `Text.Truncate`, `JobList.Shortened`, `JobList.CardDescription`, `JobList.CardRequirements`: lengths and cuts count characters, not UTF-16 code units. A text of characters above the Basic Multilingual Plane is cut later than in the page, or not at all. A cut inside a surrogate pair has no counterpart among Dafny characters.
- `Entities.WithField`: inputs are limited to the form's own field names. A `name` outside them would add a stray key in the page.
- `App.Route`: routes match exactly. Case-insensitive matching and trailing slashes are not modelled, and the `:id` segment is not URL-decoded.
- React's scheduling and batching of state updates are not modelled. Each handler runs atomically on the current state.
- `Date.now()` ids are parameters, and nothing assumes they are unique, because the code does not ensure it.
- `confirm()` and `alert()` are a boolean input and an outcome value.
