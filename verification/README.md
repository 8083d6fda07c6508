# Job board core in Dafny

A Dafny model of the data and validation core of a React Native job board
(candidates, companies, job postings, applications). It covers these parts:

- **The generic keyed record store** (`BaseStorageService`). It keeps one array of `{ id }`
  records per storage key and rewrites the whole array on every operation. The operations are
  get-all, get-by-id, create, shallow-merge update, delete, clear, exists, find-by, find-one-by,
  count and seed-if-empty.
- **The entity services**:
  - candidate and company services over the store, each seeded once per "initialized" flag;
  - the unified user service over both;
  - the in-memory job list service (lookup, case-insensitive search, category filter);
  - the append-only application service;
  - the authentication service (a user list plus the signed-in user);
  - the two application filters next to the demonstration data.
- **Date rehydration** (`deserializeDates`). This is a shallow copy in which listed top-level
  fields holding a parsable date string are replaced by the date.
- **Validation and filter rules from four screens**:
  - registration;
  - profile editing, including the skills prefill;
  - job creation, including requirement-line parsing and the company check;
  - the job list's category and search filter.

Everything is a pure function from state to new state and answer.

- **Store state.** The persistent key-value storage is a map from storage key to a `Slot`:
  either a parsed array or data that does not parse. Both an absent key and unparsable data read
  as the empty array, as the source's `catch` does.
- **Service state.** The services' static fields (the job list, the application list, the
  authentication state, the seeding flags and their seed data) are explicit state values.
- **Exceptions.** A caller-supplied predicate that may throw returns a three-valued `Verdict`,
  so `findBy` and `findOneBy` are modelled with the paths where they swallow an exception.
  Thrown service errors are the `Thrown` alternative of `AuthService.Attempt`.
- **JavaScript string semantics** (`Text`):
  - `trim` uses the ECMAScript white-space and line-terminator set;
  - `includes` is substring containment;
  - `split` on a one-character separator and `join` behave as in JavaScript;
  - `length` counts UTF-16 code units.
- **Inputs from outside the program are parameters:**
  - the current time;
  - generated ids;
  - the JavaScript `Date` string parser;
  - the seed arrays.

The repository's documentation also describes nested date-field paths, a duplicate-application
check and an applications counter. The code has none of them, and the model follows the code:
- `deserializeDates` looks only at top-level fields;
- `applyToJob` appends without any check;
- nothing counts applications.

## Model

| member | source | states |
|---|---|---|
| BaseStorage.GetAll | src/services/baseStorage.ts:17-25 | An absent key or data that does not parse reads as the empty array; no error escapes |
| BaseStorage.SaveAll | src/services/baseStorage.ts:109-116 | Reading back after a save gives exactly the saved array, and no other storage key changes |
| BaseStorage.GetById | src/services/baseStorage.ts:30-38 | The result is the first record carrying the id, and null exactly when no record carries it |
| BaseStorage.Create | src/services/baseStorage.ts:43-61 | A supplied non-empty id is kept, and an absent, `undefined` or empty id is replaced by the fresh one. The new record is appended last (length grows by one) and is what is returned. Its keys are the item's keys plus `id`, with every other field copied |
| BaseStorage.Update | src/services/baseStorage.ts:66-84 | An unknown id gives null and writes nothing. Otherwise only the first matching position is replaced, by the shallow merge with the updates winning; untouched fields, other positions and the length stay as they were |
| BaseStorage.Delete | src/services/baseStorage.ts:89-104 | The result is true exactly when some record carried the id. Then no record carries it afterwards, and every other record survives in order and as often as it occurred (a subsequence with the same count of each). When none carried it, nothing is written |
| BaseStorage.Clear | src/services/baseStorage.ts:121-128 | The key is removed, the collection reads as empty and other keys are untouched |
| BaseStorage.Exists | src/services/baseStorage.ts:133-136 | `exists` holds exactly when some stored record carries the id |
| BaseStorage.ExistsIffGetById | src/services/baseStorage.ts:133-136 | `exists` agrees with `getById` returning a record |
| BaseStorage.FilterOrThrow | src/services/baseStorage.ts:141-149 | `items.filter(p)`: throws exactly when the predicate throws on some record; otherwise the records it accepts, in order |
| BaseStorage.FindBy | src/services/baseStorage.ts:141-149 | `findBy` is the empty array if the predicate throws on any record, and otherwise the accepted records in order; either way a subsequence of the stored records |
| BaseStorage.FindOrThrow | src/services/baseStorage.ts:154-162 | `items.find(p)`: the first record accepted when every earlier call returned false; nothing when there is no accepted record without an earlier throw |
| BaseStorage.FindOneBy | src/services/baseStorage.ts:154-162 | The first record the predicate accepts, provided every earlier call returned false. Null exactly when each accepted record has a throwing call before it (the exception is caught), which includes no record being accepted |
| BaseStorage.FindNoRaise | src/services/baseStorage.ts:154-162 | With a predicate that never throws, the throwing search equals the plain first-match search |
| BaseStorage.Count | src/services/baseStorage.ts:167-175 | The count is zero exactly when the collection reads as empty |
| BaseStorage.ClearThenCount | src/services/baseStorage.ts:121-128 | After `clear`, `getAll` is empty and `count` is zero |
| BaseStorage.InitializeWithDefaults | src/services/baseStorage.ts:187-198 | An empty collection becomes the defaults; a non-empty one leaves the storage unchanged; other keys are untouched |
| BaseStorage.InitializeIdempotent | src/services/baseStorage.ts:187-198 | Seeding twice is the same as seeding once |
| BaseStorage.CreateThenGetById | src/services/baseStorage.ts:43-56 | A created record whose id no earlier record carries is found again by `getById` |
| UserServices.KeyOf | src/services/userServices.ts:9 | Candidates live under "@candidates" and companies under "@companies", each kind under its own key |
| UserServices.Initialize | src/services/userServices.ts:15-20 | Afterwards the flag is up. With the flag already up nothing changes; with the flag down an empty store is seeded and a non-empty one kept. The other service is untouched |
| UserServices.InitializeOnce | src/services/userServices.ts:15-20 | Initializing a second time changes nothing |
| UserServices.GetAllOf | src/services/userServices.ts:25-28 | Seeds first, then returns exactly the stored collection. This is the defaults on the first call against an empty store, and an empty store stays empty once seeded |
| UserServices.GetByIdOf | src/services/userServices.ts:33-36 | After seeding: null exactly when no stored record has the id, otherwise the first stored record with it |
| UserServices.GetByFieldOf | src/services/userServices.ts:41-44 | Lookup by e-mail (and, for companies, by e-mail or name at lines 155-166) is null exactly when no record's field equals the text. Otherwise it is the first record whose field equals it exactly |
| UserServices.CreateOf | src/services/userServices.ts:49-60 | The created record carries `userType` "candidate" (or "company", lines 171-182) and the clock parameter as `createdAt` and `updatedAt`. Its id is the supplied non-empty one, else the fresh one, and its keys are the given keys plus `id`, `userType`, `createdAt` and `updatedAt`. It keeps every other given field and is appended to the seeded collection; the other service is untouched |
| UserServices.UpdateOf | src/services/userServices.ts:65-74 | Null exactly when the seeded collection has no record with the id, and then nothing changes beyond seeding. Otherwise the first record with the id is merged with the updates plus `updatedAt` = now, in place: its other fields and every other position stay |
| UserServices.UpdateSeeded | src/services/userServices.ts:68-73 | On an already seeded service: the first record with the id is replaced, in place, by its merge with the updates and `updatedAt`; null and no change when no record has the id |
| UserServices.DeleteOf | src/services/userServices.ts:79-82 | True exactly when the seeded collection had the id. Afterwards no record has it, and every other record survives in order and as often as it occurred; when none had it nothing changes |
| UserServices.ClearAllOf | src/services/userServices.ts:113-116 | The collection is empty and the flag is lowered; the other service is untouched |
| UserServices.ClearThenReseed | src/services/userServices.ts:113-116 | After clearing, the next read returns the seed data again |
| UserServices.SkillHit | src/services/userServices.ts:92-94 | On string skills: never throws, and accepts exactly when some skill contains the query ignoring ASCII case |
| UserServices.AnyQueryHit | src/services/userServices.ts:91-95 | On string skills: never throws, and accepts exactly when some query skill is contained in some skill |
| UserServices.KeptBySkills | src/services/userServices.ts:87-97 | Without query skills the search keeps nothing. On well-formed candidates it keeps exactly those with a skill containing some query skill, each as often as it occurs. The result is always a subsequence of the input |
| UserServices.SearchCandidatesBySkills | src/services/userServices.ts:87-97 | `searchCandidatesBySkills`: an empty query list gives an empty result. Otherwise it keeps exactly the candidates that match on well-formed data, each as often as it is stored, in order |
| UserServices.KeptByLocation | src/services/userServices.ts:105-107 | The location filter keeps nothing once a location is neither a string nor missing; otherwise exactly the candidates whose string location contains the text, each as often as it occurs |
| UserServices.GetCandidatesByLocation | src/services/userServices.ts:102-108 | Every returned candidate has a string location containing the text, ignoring ASCII case (never one without a location). Every such candidate is returned as often as it is stored, in stored order, unless some location is neither a string nor missing/null |
| UserServices.KeptWhereContains | src/services/userServices.ts:212-214 | The containment filter keeps nothing once a field is not a string; otherwise exactly the records whose field contains the text, each as often as it occurs |
| UserServices.GetCompaniesWhereContains | src/services/userServices.ts:209-235 | Industry and location filters: case-insensitive containment in stored order, each match as often as it is stored, and empty as soon as some company's field is not a string |
| UserServices.GetCompaniesBySize | src/services/userServices.ts:220-224 | Exactly the companies whose size equals the requested one, each as often as it is stored, in stored order |
| UserServices.KeptWithField | src/services/userServices.ts:220-224 | The equality filter never throws and keeps exactly the records whose field equals the text, each as often as it occurs, as a subsequence |
| UserServices.OtherStoredUnchanged | src/services/userServices.ts:9 | An operation of one service leaves the other service's stored collection as it was |
| UserServices.GetAllUsers | src/services/userServices.ts:253-260 | All candidates followed by all companies, after both are seeded |
| UserServices.GetUserById | src/services/userServices.ts:265-272 | A candidate with the id is preferred; otherwise the company with it; null when neither has it |
| UserServices.GetUserByEmail | src/services/userServices.ts:277-284 | The first candidate with the e-mail is preferred; with no candidate match it is the first company with the e-mail; null exactly when neither has it |
| UserServices.DeleteUser | src/services/userServices.ts:289-296 | Deletes from both services; true exactly when either had the id. In both collections afterwards no record has it and every other record survives in order. Both flags are up, the seed data and the other store keys are unchanged, and when nothing was deleted the state is just both services seeded |
| UserServices.ClearAllUsers | src/services/userServices.ts:301-306 | Both collections are empty and both flags are lowered; the seed data and the other store keys are unchanged |
| UserServices.ClearAllThenReseed | src/services/userServices.ts:301-306 | After the reset, the next read of either service returns its seed data again |
| JobService.GetAllJobs | src/services/jobService.ts:7-11 | The full list is what a blank search and the "Todas" category return |
| JobService.GetJobById | src/services/jobService.ts:13-17 | The first job with the id, and null exactly when no job has it |
| JobService.SearchJobs | src/services/jobService.ts:19-34 | A blank query gives every job. Otherwise it keeps exactly the jobs whose lower-cased title, company, category or location contains the lower-cased untrimmed query, each as often as it occurs. The result is always a subsequence |
| JobService.SearchIgnoresCase | src/services/jobService.ts:27-33 | Lower-casing the query first does not change the search result |
| JobService.GetJobsByCategory | src/services/jobService.ts:36-45 | "Todas" gives every job. Any other category keeps exactly the jobs with that exact category, in order and with their repetitions |
| DateUtils.ParseDate | src/utils/dateUtils.ts:62-65 | Null exactly when the date the string denotes is invalid. For a non-empty string this is the same test the rehydration of a field applies: the field becomes the date `parseDate` gives, and stays a string when it gives null |
| DateUtils.Revive | src/utils/dateUtils.ts:21-26 | A listed field changes exactly when it holds a non-empty string that parses, and then becomes that date. Non-strings (dates included) are untouched |
| DateUtils.ReviveFields | src/utils/dateUtils.ts:20-28 | Same keys; every listed field is revived and every other field is unchanged |
| DateUtils.DeserializeDates | src/utils/dateUtils.ts:15-31 | A falsy or non-object value is returned as is. An object gives a copy with the same own keys, listed fields revived and the rest identical |
| DateUtils.DeserializeIdempotent | src/utils/dateUtils.ts:20-28 | Rehydrating twice with the same fields is rehydrating once |
| DateUtils.RoundTrip | src/utils/dateUtils.ts:21-26 | A field holding a parsable date string comes back as that date, and a field already holding the date keeps it |
| DateUtils.DeserializeDatesInArray | src/utils/dateUtils.ts:36-38 | Same length and order, `deserializeDates` element by element |
| AuthService.Login | src/services/authService.ts:46-59 | An unknown e-mail throws "Usuário não encontrado" and changes nothing. Otherwise the first user with the e-mail is signed in, whatever the password, and the users stay |
| AuthService.Register | src/services/authService.ts:61-84 | A registered e-mail throws "E-mail já cadastrado" and changes nothing. Otherwise exactly one user is appended and signed in, with the given fields; `company` is the name for a company and the given company otherwise |
| AuthService.Logout | src/services/authService.ts:86-90 | Nobody is signed in afterwards and the users stay |
| AuthService.IsAuthenticated | src/services/authService.ts:96-98 | True exactly when `getCurrentUser` returns a user |
| AuthService.InitialUniqueEmails | src/services/authService.ts:28-44 | The built-in users have distinct e-mails |
| AuthService.RegisterKeepsUniqueEmails | src/services/authService.ts:66-81 | A successful registration keeps e-mails unique |
| AuthService.RegisterThenLogin | src/services/authService.ts:61-84 | From any state, after registering, logging in with the same e-mail signs in exactly the new user |
| ApplicationService.PlaceholderJob | src/services/applicationService.ts:87-98 | The embedded job carries the applied-to job id |
| ApplicationService.ApplyToJob | src/services/applicationService.ts:77-103 | The new application is pending, has the given job and candidate, and embeds a job with that id. It is appended as the only change to the list |
| ApplicationService.ApplyTwiceStoresTwo | src/services/applicationService.ts:77-103 | With no duplicate check, applying twice for the same pair stores two applications |
| ApplicationService.GetApplicationById | src/services/applicationService.ts:105-109 | The first application with the id, and null exactly when none has it |
| ApplicationService.ApplyThenLookup | src/services/applicationService.ts:101-109 | Right after applying, the new id can be looked up |
| ApplicationService.GetUserApplications | src/services/applicationService.ts:6-75 | Three applications (reviewing, approved, rejected) with distinct ids, all for the user, each embedding its own job |
| ApplicationsMock.ConvertJobCandidateToCandidate | src/mocks/applications.mock.ts:6-18 | Undefined for a falsy argument. Otherwise exactly the eight candidate properties, each copied from the argument (undefined where it lacks one) |
| ApplicationsMock.GetApplicationsForUser | src/mocks/applications.mock.ts:135-137 | Exactly the applications of the user, each as often as it occurs, as a subsequence |
| ApplicationsMock.GetApplicationsForCompany | src/mocks/applications.mock.ts:140-145 | An application is kept exactly when the first job with its `jobId` is posted by the company, so never one whose `jobId` matches no job. Each kept application occurs as often as in the input, and the result is a subsequence |
| RegisterForm.HandleRegister | src/screens/Register/hook/useRegister.ts:15-31 | Checks run in order: every field filled, then a password of at least 6 UTF-16 units, then an '@' in the e-mail. The first failure gives its message, and the form is accepted exactly when all pass |
| RegisterForm.BlankSkillsAccepted | src/screens/Register/hook/useRegister.ts:16 | Skills are not trimmed, so any non-empty whitespace-only skills field passes |
| RegisterForm.PasswordCheckedBeforeEmail | src/screens/Register/hook/useRegister.ts:21-29 | A password shorter than 6 units is reported even when the e-mail has no '@' |
| EditProfile.Prefill | src/screens/EditProfile/hooks/useEditProfile.ts:30-43 | Name and e-mail are copied. A candidate's skills are joined with ", ", and a company's description is copied when present |
| EditProfile.PrefillSkillsRoundTrip | src/screens/EditProfile/hooks/useEditProfile.ts:35-37 | The prefilled skills text splits on "," back into the skills, each after the first with the space the join added |
| EditProfile.PasswordError | src/screens/EditProfile/hooks/useEditProfile.ts:63-78 | Only a non-empty new password is checked: first the current password is present, then the new one has at least 6 units, then the two match |
| EditProfile.HandleSaveProfile | src/screens/EditProfile/hooks/useEditProfile.ts:45-85 | Checks run in order: name and e-mail present, then the kind-specific field non-blank, then the password block, then the '@'. The first failure gives its message, and the form is accepted exactly when all pass |
| EditProfile.EmptyNewPasswordSkipsChecks | src/screens/EditProfile/hooks/useEditProfile.ts:63 | With an empty new password, the current and confirmation fields do not matter |
| EditProfile.PasswordBeforeEmail | src/screens/EditProfile/hooks/useEditProfile.ts:63-83 | A password error is reported before a malformed e-mail |
| Text.TrimIsSlice | src/screens/CreateJob/hooks/useCreateJob.ts:72-76 | `trim()` removes only a whitespace prefix and a whitespace suffix: the result is the slice of the text between them |
| Text.JoinSplit | src/screens/CreateJob/hooks/useCreateJob.ts:67 | `split('\n')` loses nothing: joining the parts with the separator gives back the text |
| Text.SplitCount | src/screens/CreateJob/hooks/useCreateJob.ts:67 | The split has one more part than the text has separators |
| CreateJob.ValidateForm | src/screens/CreateJob/hooks/useCreateJob.ts:23-50 | The first blank field among title, description, requirements, location and category gives its message; the form passes exactly when none is blank |
| CreateJob.TrimmedLines | src/screens/CreateJob/hooks/useCreateJob.ts:66-68 | One trimmed entry per line of the requirements text |
| CreateJob.ParseRequirements | src/screens/CreateJob/hooks/useCreateJob.ts:66-69 | The items are the non-empty trimmed lines, in line order and each as often as it occurs; every item is non-empty and trimmed, and there are no more items than lines |
| CreateJob.RequirementsNotEmpty | src/screens/CreateJob/hooks/useCreateJob.ts:66-69 | A requirements text that passes validation (not blank, line 34) yields at least one requirement |
| CreateJob.SalaryField | src/screens/CreateJob/hooks/useCreateJob.ts:78 | A blank salary becomes undefined; otherwise it is the trimmed salary |
| CreateJob.BuildJob | src/screens/CreateJob/hooks/useCreateJob.ts:71-81 | The text fields are the form's, trimmed. After validation each is non-empty and trimmed and there is at least one requirement; every requirement is non-empty and trimmed. A blank salary is left out. Company and company id are the user object's `name` and `id` |
| CreateJob.HandleCreateJob | src/screens/CreateJob/hooks/useCreateJob.ts:52-81 | As written: form errors first. Then a missing user, or a user object whose `userType` is not "company", gets "Apenas empresas podem criar vagas". Otherwise the job data is built |
| CreateJob.UserObject | src/services/authService.ts:1-9 | The signed-in user as an object carries `id`, `name` and `type`, and no `userType` |
| CreateJob.SignedInUserAlwaysRejected | src/screens/CreateJob/hooks/useCreateJob.ts:57-60 | As written, every signed-in user is rejected, companies included |
| CreateJob.HandleCreateJobIntended | src/screens/CreateJob/hooks/useCreateJob.ts:52-81 | With the check on `type`: a valid form from a signed-in company is built with the company's name and id, and anyone else is rejected |
| CreateJob.CompanyCanCreateJob | src/screens/CreateJob/hooks/useCreateJob.ts:57-81 | With the intended check, a signed-in company posting a valid form gets its job built under its own name |
| JobsList.SomeSkillMatches | src/screens/JobsList/hooks/useJobsList.ts:95 | True exactly when some lower-cased skill contains the lower-cased query |
| JobsList.ByCategory | src/screens/JobsList/hooks/useJobsList.ts:85-87 | "Todas" keeps everything; any other category keeps exactly the jobs of that exact category, in order and with their repetitions |
| JobsList.BySearch | src/screens/JobsList/hooks/useJobsList.ts:90-97 | A blank query keeps everything; otherwise exactly the jobs whose title, company or some skill contains the query ignoring ASCII case, in order and with their repetitions |
| JobsList.FilteredJobs | src/screens/JobsList/hooks/useJobsList.ts:81-100 | A job is listed exactly when it passes the category filter ("Todas" or equal) and the search (blank query, or title, company or some skill contains it ignoring ASCII case). It is listed as often as it occurs, and the list is a subsequence of the jobs |
| JobsList.FilteredIsSubsequence | src/screens/JobsList/hooks/useJobsList.ts:81-100 | Category then search yields a subsequence of the jobs |
| JobsList.FiltersCommute | src/screens/JobsList/hooks/useJobsList.ts:81-100 | Searching first and filtering by category second gives the same list |

## Left out

- AsyncStorage and JSON: storage is an in-memory map, so a stored value reads back exactly as written. JSON serialisation is not modelled: its dropping of `undefined`, its turning of dates into strings, and its failures other than unparsable data reading as empty. In the program, the `createdAt` and `updatedAt` dates the user services stamp (src/services/userServices.ts:55-56, 70) read back from storage as ISO strings, because no code calls `deserializeDates` on what it reads. In the model they read back as dates.
- Write failures: `saveAll`, `clear` and the rethrows in `create`, `update` and `initializeWithDefaults` cannot fail in the model, because the in-memory map cannot fail. `delete`'s catch returning false on a failed write is left out for the same reason.
- Console logging in every catch block: it has no effect on results.
- Id and clock generation (`Date.now()`, `Math.random()`, `new Date()`): these are parameters. `applyToJob` reads the clock twice, and `createCandidate` and `createCompany` read it once for `createdAt` and again for `updatedAt`. The model uses one instant for both dates in each case, so the two stamps are equal in the model and may differ by a millisecond in the program.
- Simulated latency (`setTimeout`) and `Promise.all`: calls are sequential. `getAllUsers`, `getUserById`, `getUserByEmail`, `deleteUser` and `clearAllUsers` run the candidate call, then the company call.
- `toLowerCase` is modelled on ASCII letters only: full Unicode case mapping is a foreign table.
- JavaScript numbers are integers: no `NaN` or fractions. `NaN` being falsy is not modelled.
- Property reads see own properties only: inherited properties (such as `Object.prototype` members) are not modelled.
- `JobService.createJob`, called from the job-creation screen, is not part of this model: it is not defined in the service. The model stops at the job data built for it.
- `src/services/dataInitialization.ts`: orchestration over `Promise.all` that calls service methods not defined in the services.
- `formatDate` and the `Intl` formatting: these are foreign locale calls.
- The unused `DateFields` type: no code reads it.
- Screens, components, navigation, `AuthContext`, alerts and the loading flags: these are UI. Each validation is modelled up to the point where it sets loading, and the simulated submissions after it are left out.
- Seed data: the candidate and company seed arrays (`jobUsers.mock` is not part of this model), the mock job and application arrays and the job list screen's mock jobs are parameters.
- EditProfile.Prefill: models the first fill from an empty form. When a later user change fails the `skills` or `companyDescription` condition, the hook keeps the previous text, and that is not modelled.
- UserServices.SearchCandidatesBySkills: the membership characterisation is stated only when every stored candidate has an array of string skills. With a malformed candidate, the result depends on evaluation order, and only the empty-query and subsequence facts are stated.
- BaseStorage.Count: states that the count is zero exactly when the collection reads as empty; that it is the collection's length is its definition.
- AuthService.GetCurrentUser: has no contract of its own, since it returns the signed-in user; `AuthService.IsAuthenticated` states its relation to it.

## Findings

| source | as written | input that shows it | evidently intended | confidence | as-written member | corrected member |
|---|---|---|---|---|---|---|
| src/screens/CreateJob/hooks/useCreateJob.ts:57 | `if (!user \|\| user.userType !== 'company')` | any signed-in company, e.g. the built-in user "TechCorp" with `type: 'company'`: its object has no `userType`, so the check rejects it | `user.type !== 'company'`, the field the signed-in `User` carries | high, not executed | CreateJob.SignedInUserAlwaysRejected | CreateJob.CompanyCanCreateJob |
