# Job marketplace: request logic, schemas and client filters

This project models the decision logic of a job-marketplace web application.
Companies post jobs, developers apply to them and keep a portfolio of projects,
and a React client filters and edits what the server returns.

The parts modelled are:

- the two request guards: `verifyToken` turns the Authorization header into the requesting user or a 401, and `authorize(...roles)` is the role gate;
- the job, application and portfolio controllers. Each is a method over an in-memory store (`Database.Store`), holding one map per collection and an id generator. Every branch's response and the store's new state are stated in terms of the old state;
- the four Mongoose schemas, as validity predicates. Their setters (trim, lowercase) and defaults are modelled, along with the unique indexes on user emails and on application (job, developer) pairs. `UserDocument.Save` fails on an address another stored user already has, as the email index does;
- the user document's pre-save hook, which rehashes a password only when it was modified;
- the client's job-listing filter, the developer-portfolio filter, and the profile page's state transformers: normalisation of the fetched user, routing a changed field, parsing the comma-separated skills, and cancelling.

Some supporting modules:

- `Persistence` models what the controllers need from the database:
  - `findOne` returns the first match in natural (ascending id) order;
  - `find().sort('-field')` yields each match once, newest first.
- `Text` models the JavaScript string operations used: `trim`, `split`, `join`, `includes`, `startsWith` and ASCII `toLowerCase`.
- `Sequences` models `Array.prototype.filter`.

Every handler's `try/catch` is modelled for the errors it can meet here: a failed schema validation, and in `UpdateApplicationStatus` the `TypeError` thrown when the application's job is gone, so populating it gives `null`. Each becomes `500 "Server error"` and the store is unchanged. The global invariant `Store.Valid()` says:

- every stored document passed validation. For a user this leaves out the password length, because the stored password is the hash;
- both unique indexes hold;
- each user owns at most one portfolio. The schema declares no such index; only the controllers' lookup keeps this.

Every mutating handler preserves it.

Inputs from outside the model are parameters:

- the clock is an integer `now`;
- `jwt.verify`'s check of signature and expiry is an oracle `verify: string -> Option<ObjectId>`;
- `bcrypt.genSalt` and `bcrypt.hash` are a `salt` string and a `hash` function;
- a response is its status code and its `message` field.

## Model

| member | source | states |
|---|---|---|
| AuthMiddleware.VerifyToken | server/middleware/auth.middleware.js:5-34 | Exactly one response is sent or `next` is called once, never both. A header that is absent, empty or not starting with `Bearer` gets 401 "no token". A token that fails verification, including a missing token piece, gets 401 "token failed". A verified id with no user gets 401 "User not found". `next` is called iff the token verifies and the user exists, and `req.user` is then that user without the password. |
| AuthMiddleware.JwtVerify | server/middleware/auth.middleware.js:15 | Verification succeeds only on a present, non-empty token. |
| AuthMiddleware.BearerTokenOf | server/middleware/auth.middleware.js:12 | The token of `Bearer <t>` is `t`, the second space-separated piece. |
| AuthMiddleware.BareBearerFails | server/middleware/auth.middleware.js:9-15 | The header `Bearer` passes the prefix check, but its missing token fails verification; it is not a "no token" case. |
| AuthMiddleware.PrefixWithoutSpace | server/middleware/auth.middleware.js:9-12 | The prefix check has no trailing space: `Bearerxyz t` is accepted, and its token is `t`. |
| AuthMiddleware.Authorize | server/middleware/auth.middleware.js:37-45 | Passes iff the user's role is listed. Otherwise it gives 403 with a message that names the role. |
| UserModel.MatchesEmailPattern | server/models/user.model.js:15 | `/^\S+@\S+\.\S+$/`: a non-empty whitespace-free run, `@`, a run, `.`, a run. Characterised by `EmailPatternIff`. |
| UserModel.ValidUser | server/models/user.model.js:5-27 | Schema validation of a user: name, email and password present and non-empty, the email pattern, a password of at least 6 characters, and the role in the enum. |
| UserModel.EmailPatternIff | server/models/user.model.js:15 | `^\S+@\S+\.\S+$` holds iff the address has no whitespace and has an `@` after the first character, then, at least two places later, a `.` that is not last. |
| UserModel.LowercaseKeepsEmailPattern | server/models/user.model.js:14-15 | Lower-casing an address (the setter) never changes whether it matches the pattern. |
| UserModel.InsertKeepsUniqueEmails | server/models/user.model.js:13 | The unique email index admits a new user exactly when no stored user has the same address, that is, when the address is not among the stored ones. |
| UserModel.StoredEmails | server/models/user.model.js:13 | The index holds an address iff some stored user has it. |
| UserModel.StoredUserValid | server/models/user.model.js:5-27 | What validation leaves true of a stored user: a non-empty name, a matching email and a listed role. The password is then the hash. |
| UserModel.SavedUserValid | server/models/user.model.js:5-64 | A user that passed validation is stored valid, whatever hash the pre-save hook wrote. |
| UserModel.UserDocument.constructor | server/models/user.model.js:5-27 | The name is trimmed, the email lower-cased, the role defaults to `developer`, and a new password path counts as modified. |
| UserModel.UserDocument.SetPassword | server/models/user.model.js:17-22 | Assigning the password marks the path modified and changes no other field. |
| UserModel.UserDocument.Save | server/models/user.model.js:5-64 | The save succeeds iff validation passes (required fields, email pattern, password of at least 6 characters, role enum) and no other stored user has the address (the unique index). A failed validation changes nothing. Otherwise the pre-save hook has hashed a modified password, and only a successful write clears the change tracking. Name, email and role never change. |
| JobModel.ValidJob | server/models/job.model.js:3-47 | Schema validation of a job: title, description and location non-empty, and `jobType`, `experienceLevel` and `status` in their enums. |
| JobModel.NewJob | server/controllers/job.controller.js:13-16 | `Job.create({ company: req.user._id, ...req.body })` with the schema's trim setter and defaults applied. Its properties are stated by `NewJobValidation`, `NewJobDefaults`, `NewJobIsActive` and `BodyCompanyWins`. |
| JobModel.NewJobDefaults | server/models/job.model.js:30-52 | Without a body value, the experience level is `entry`, the salary currency `CAD` and the posting date now. A body value is kept, including a salary's min, max and currency. |
| JobModel.Overwrite | server/controllers/job.controller.js:82-86 | `findByIdAndUpdate(id, req.body)`: each path in the body replaces the stored one, the title through its trim setter, and every other path is kept. Its properties are stated by `UpdateValidation`, `OverwriteNothing` and `OverwriteIdempotent`. |
| JobModel.NewJobValidation | server/models/job.model.js:4-47 | A created job validates iff the title (after trim), description and location are present and non-empty, `jobType` is one of the four types, and any given `experienceLevel` or `status` is listed. |
| JobModel.NewJobIsActive | server/models/job.model.js:43-47 | A job created without a status is `active`, so it accepts applications. |
| JobModel.BodyCompanyWins | server/controllers/job.controller.js:13-16 | The created job's company is the caller unless the body supplies one, which then wins. The body's status and title are kept. |
| JobModel.UpdateValidation | server/controllers/job.controller.js:82-86 | On a valid job, the updated job validates iff the paths present in the body pass their validators (`runValidators` checks only those). |
| JobModel.OverwriteNothing | server/controllers/job.controller.js:82-86 | An update with an empty body leaves the job as it was. |
| JobModel.OverwriteIdempotent | server/controllers/job.controller.js:82-86 | Applying the same update twice equals applying it once. |
| Database.Store.Valid | server/models/user.model.js:13 | The store invariant. Every stored user, job, application and portfolio passed its validation and has an id below `nextId`. The email index and the (job, developer) index hold, and each user owns at most one portfolio. Every mutating handler's contract preserves it. |
| Database.Store.constructor | server/models/user.model.js:5-27 | A store holding the given validated users, with pairwise different emails and ids 0, 1, ..., and no other documents. |
| JobController.CreateJob | server/controllers/job.controller.js:6-26 | A non-company caller gets 403 and nothing changes. An invalid job gets 500 and nothing changes. Otherwise 201, and the job store grows by exactly the new job under a fresh id; the other collections are unchanged. |
| JobController.GetAllJobs | server/controllers/job.controller.js:31-45 | Holds exactly the active jobs, each once, with `postedAt` non-increasing. |
| JobController.GetJobById | server/controllers/job.controller.js:50-64 | Returns the job iff the id exists, else 404. |
| JobController.UpdateJob | server/controllers/job.controller.js:69-96 | A missing id gets 404 before the ownership check, and a non-owner gets 403; both change nothing. A failed validation gets 500 and changes nothing. Otherwise 200: exactly the body's paths of that job are overwritten (company and status included), and every other job and collection is unchanged. |
| JobController.UpdateMayTransferAndReopen | server/controllers/job.controller.js:82-86 | An owner's update may reassign `company` and reopen the job; it validates. |
| JobController.DeleteJob | server/controllers/job.controller.js:101-121 | 404 before 403, changing nothing. The owner's delete removes that job only; applications naming it are left as they are. |
| JobController.GetJobsByCompany | server/controllers/job.controller.js:126-140 | Holds exactly the company's jobs, whatever their status, each once, with `postedAt` non-increasing. |
| ApplicationModel.NewApplication | server/controllers/application.controller.js:37-42 | `Application.create({ job, developer, coverLetter, resume })` with status `pending` and the current time. Its validity is stated by `NewApplicationValidation`. |
| ApplicationModel.NewApplicationValidation | server/models/application.model.js:14-23 | A new application validates iff its cover letter is present and non-empty. Its status is `pending`. |
| ApplicationModel.InsertKeepsUniquePairs | server/models/application.model.js:35 | Adding an application for a (job, developer) pair that has none keeps the pair index unique. |
| ApplicationModel.StatusChangeKeepsUniquePairs | server/controllers/application.controller.js:126-127 | Changing only an application's status keeps the pair index unique. |
| ApplicationModel.AnyStatusChange | server/models/application.model.js:19-23 | Any listed status may replace any other, with no transition order; an unlisted one fails validation. |
| ApplicationController.ApplyToJob | server/controllers/application.controller.js:7-52 | Checks in a fixed order: not a developer → 403; no such job (or no `jobId`) → 404; job not active → 400; already applied → 400; missing cover letter → 500. Each of these changes nothing. Otherwise 201, and the store grows by exactly one application with that job, the caller and status `pending`. 201 holds iff the application store grew by one. |
| ApplicationController.InsertApplication | server/controllers/application.controller.js:37-42 | A valid application for a pair without one is stored under a fresh id, and the store invariant keeps holding. |
| ApplicationController.GetMyApplications | server/controllers/application.controller.js:57-78 | Holds exactly the caller's applications, each once, with `appliedAt` non-increasing. |
| ApplicationController.GetApplicationsForJob | server/controllers/application.controller.js:83-108 | 404 for a missing job, then 403 for a non-owner. Otherwise it holds exactly that job's applications, each once, with `appliedAt` non-increasing. |
| ApplicationController.UpdateApplicationStatus | server/controllers/application.controller.js:113-137 | A missing application gets 404. An application whose job is gone gets 500. A caller who does not own the job gets 403. All three change nothing. An unlisted status fails validation: 500, nothing changes. Otherwise 200, and only that application's status changes. There is no role check. |
| ApplicationController.DeleteApplication | server/controllers/application.controller.js:142-162 | 404 before 403, changing nothing. Only the applying developer's delete removes the application. |
| PortfolioModel.NewProject | server/models/portfolio.model.js:9-28 | A request body cast to a project subdocument: the given paths, `featured` defaulting to false, and a fresh id. Its validity is stated by `NewProjectValidation`. |
| PortfolioModel.NewProjectValidation | server/models/portfolio.model.js:9-28 | A cast project validates iff its body has a non-empty title and description. `featured` defaults to false. |
| PortfolioModel.NewProjectsValidation | server/models/portfolio.model.js:9-28 | A portfolio of cast projects validates iff every body does. |
| PortfolioModel.FindProject | server/controllers/portfolio.controller.js:158 | `projects.id(id)` finds the first project with that id, and finds nothing iff no project has it. |
| PortfolioModel.Merge | server/controllers/portfolio.controller.js:165 | `Object.assign(project, req.body)`: each path in the body replaces the project's, and the id is kept. Its properties are stated by `MergeNothing`, `MergeIdempotent` and `MergeValidation`. |
| PortfolioModel.MergeNothing | server/controllers/portfolio.controller.js:165 | Merging an empty body changes nothing. |
| PortfolioModel.MergeIdempotent | server/controllers/portfolio.controller.js:165 | Merging the same body twice equals merging it once. |
| PortfolioModel.MergeValidation | server/controllers/portfolio.controller.js:165-166 | A merge into a valid project validates iff it does not empty the title or the description. |
| PortfolioModel.Pull | server/controllers/portfolio.controller.js:189 | The result has no project with the id, and holds exactly the other projects. |
| PortfolioModel.PullAppend | server/controllers/portfolio.controller.js:189 | `pull` distributes over concatenation, so the kept projects stay in order. |
| PortfolioModel.PullAbsent | server/controllers/portfolio.controller.js:189 | Pulling an id no project has leaves the list unchanged. |
| PortfolioModel.PullIdempotent | server/controllers/portfolio.controller.js:189 | Deleting a project twice equals deleting it once. |
| PortfolioModel.PullKeepsValid | server/controllers/portfolio.controller.js:189-190 | Removing projects keeps a valid portfolio valid. |
| PortfolioModel.FindByUser | server/controllers/portfolio.controller.js:31 | `findOne({ user })` finds a portfolio of that user iff the user has one. |
| PortfolioModel.SchemaAllowsSecondPortfolio | server/models/portfolio.model.js:3-8 | The schema alone admits two valid portfolios of one user: one-per-user does not follow from it. |
| PortfolioModel.InsertKeepsOnePerUser | server/controllers/portfolio.controller.js:31-48 | Creating a portfolio for a user who has none keeps one portfolio per user. |
| PortfolioModel.OnlyPortfolio | server/controllers/portfolio.controller.js:31 | With one portfolio per user, the one `findOne` returns is the user's only portfolio. |
| PortfolioController.GetAllPortfolios | server/controllers/portfolio.controller.js:7-21 | Holds every portfolio once, with `createdAt` non-increasing. |
| PortfolioController.CreateOrUpdatePortfolio | server/controllers/portfolio.controller.js:26-58 | An existing portfolio's projects are replaced by the cast input (200); otherwise a portfolio holding them is created (201). Invalid projects get 500 and change nothing. Afterwards the caller has exactly one portfolio, whose projects are the cast input. No other user's portfolio changes. |
| PortfolioController.InsertPortfolio | server/controllers/portfolio.controller.js:45-48 | A valid portfolio for a user without one is stored under a fresh id, and the store invariant keeps holding. |
| PortfolioController.ReplaceKeepsOnePerUser | server/controllers/portfolio.controller.js:33-36 | Replacing a portfolio by one with the same owner keeps one portfolio per user. |
| PortfolioController.GetPortfolioByUserId | server/controllers/portfolio.controller.js:63-77 | 404 iff the user has no portfolio; otherwise that user's portfolio. |
| PortfolioController.GetMyPortfolio | server/controllers/portfolio.controller.js:82-96 | 404 iff the caller has no portfolio; otherwise the caller's portfolio. |
| PortfolioController.DeletePortfolio | server/controllers/portfolio.controller.js:101-121 | 404 before 403, changing nothing. The owner's delete removes that portfolio only. |
| PortfolioController.SaveProjects | server/controllers/portfolio.controller.js:135 | Saving valid projects into the caller's portfolio changes that portfolio's projects and nothing else, and keeps the store invariant. |
| PortfolioController.AddProject | server/controllers/portfolio.controller.js:126-145 | A caller without a portfolio gets 404. A body without title or description gets 500. Both change nothing. Otherwise 201, and the cast project is appended after the existing projects, which keep their order. |
| PortfolioController.UpdateProject | server/controllers/portfolio.controller.js:150-176 | A missing portfolio gets 404, then a missing project id gets 404. Otherwise the body is merged into that one project and every other project is unchanged; a merge that empties a required field gets 500 and changes nothing. |
| PortfolioController.DeleteProject | server/controllers/portfolio.controller.js:181-200 | A missing portfolio gets 404. Otherwise the answer is 200, and every project with the id is removed while the rest keep their order. An absent id leaves the store as it was. |
| JobListings.FilteredJobs | client/src/pages/JobListings.jsx:90-100 | A job is kept iff it matches all four filters, and the result is a subsequence of the jobs in their order. |
| JobListings.NoFiltersKeepAll | client/src/pages/JobListings.jsx:91-99 | With every filter empty, every job is kept. |
| JobListings.FilteredJobsAppend | client/src/pages/JobListings.jsx:90-100 | Filtering a concatenation of lists equals filtering each list. |
| JobListings.NoSkillsFailSkillFilter | client/src/pages/JobListings.jsx:95-97 | A job without skills fails a non-empty skill filter. |
| JobListings.JobTypeIsCaseSensitive | client/src/pages/JobListings.jsx:94 | The job-type filter is exact: `Full-time` does not select `full-time` jobs. |
| JobListings.SearchIgnoresCase | client/src/pages/JobListings.jsx:91-92 | The search gives the same answer for a term and its lower-case form. |
| PortfoliosPage.FilteredUsers | client/src/pages/Portfolios.jsx:169-180 | A developer is kept iff they match the search and the skill filter, and the result is a subsequence of the users in their order. |
| PortfoliosPage.EmptySearchMatches | client/src/pages/Portfolios.jsx:171 | An empty search term matches every developer. |
| PortfoliosPage.NoFiltersKeepAll | client/src/pages/Portfolios.jsx:169-180 | With both inputs empty, every developer is kept. |
| PortfoliosPage.NoBioMatchesByNameOnly | client/src/pages/Portfolios.jsx:170-172 | A developer without a bio, or with an empty one, matches only by name. |
| PortfoliosPage.NoSkillsExcluded | client/src/pages/Portfolios.jsx:174-177 | A developer without skills fails a non-empty skill filter. |
| PortfoliosPage.FilteredUsersAppend | client/src/pages/Portfolios.jsx:169-180 | Filtering a concatenation of lists equals filtering each list. |
| ProfilePage.Normalize | client/src/pages/Profile.jsx:83-94 | The fetched user spread into the form, with every profile field defaulting to `''` and the skills to `[]`. Characterised by `NormalizeEmbed`, `NormalizeIdempotent` and `NormalizeMissingProfile`. |
| ProfilePage.NormalizeEmbed | client/src/pages/Profile.jsx:83-94 | Normalising data that already has the form's shape gives it back. |
| ProfilePage.NormalizeIdempotent | client/src/pages/Profile.jsx:83-94 | Normalising twice equals normalising once. |
| ProfilePage.NormalizeMissingProfile | client/src/pages/Profile.jsx:83-94 | A user without a profile gets empty strings and `[]` skills; every top-level field is kept. |
| ProfilePage.FetchProfile | client/src/pages/Profile.jsx:61-105 | On data without an `error`, the saved profile and the form both become the normalised data and the error is cleared. Otherwise the profile and the form are kept and a non-empty message is set: the server's `error`, or the session and failure messages. |
| ProfilePage.HandleChange | client/src/pages/Profile.jsx:110-136 | A changed input written into `formData.profile` for the six profile names, or at the top level otherwise. Characterised by `HandleChangeWritesOnePlace`. |
| ProfilePage.HandleChangeWritesOnePlace | client/src/pages/Profile.jsx:110-136 | The six profile names are written into `formData.profile` and every other name at the top level. Exactly that place gets the value; every other place, the skills, the saved profile and the editing flag are unchanged. |
| ProfilePage.TrimAll | client/src/pages/Profile.jsx:143 | `map(s => s.trim())`: the same length, each piece trimmed, and no result starts or ends with whitespace. |
| ProfilePage.ParseSkills | client/src/pages/Profile.jsx:140-144 | No parsed skill is empty, has leading or trailing whitespace, or contains a comma. |
| ProfilePage.TrimmedPieces | client/src/pages/Profile.jsx:143-144 | After trimming each piece and dropping the empty ones, exactly the non-empty trimmed pieces remain. |
| ProfilePage.ParseSkillsMembers | client/src/pages/Profile.jsx:140-144 | A skill is parsed iff it is non-empty and is the trimmed form of some comma-separated piece of the text. |
| ProfilePage.ParseSkillsAppend | client/src/pages/Profile.jsx:140-144 | The text on each side of a comma is parsed on its own, and the results are concatenated in order. |
| ProfilePage.ParseSkillsPiece | client/src/pages/Profile.jsx:140-144 | A comma-free text parses to its trimmed form, or to no skill when that is empty. |
| ProfilePage.TrimAllAppend | client/src/pages/Profile.jsx:143 | Trimming each piece distributes over concatenation. |
| ProfilePage.SplitAfterSpace | client/src/pages/Profile.jsx:142 | A space in front of the text stays in the first comma-separated piece; the other pieces are unchanged. |
| ProfilePage.TrimAllSameButFirst | client/src/pages/Profile.jsx:143 | Two piece lists that agree after the first piece, and whose first pieces trim the same, trim to the same list. |
| ProfilePage.TrimAllSplitAfterSpace | client/src/pages/Profile.jsx:141-143 | A space after a comma is trimmed away. |
| ProfilePage.TrimSplitJoin | client/src/pages/Profile.jsx:487 | Splitting the displayed `join(', ')` of trimmed, comma-free skills on commas and trimming gives the skills back. |
| ProfilePage.ParseDisplayedSkills | client/src/pages/Profile.jsx:487 | Round trip: parsing the displayed `skills.join(', ')` gives back the list when every skill is non-empty, trimmed and comma-free. |
| ProfilePage.ParseDisplayedKeepsNonEmpty | client/src/pages/Profile.jsx:140-144 | For trimmed, comma-free skills, parsing the displayed `join(', ')` gives exactly the non-empty skills, in order. So the round trip loses only the empty ones. |
| ProfilePage.ParseDropsEmptySkills | client/src/pages/Profile.jsx:141-144 | An empty skill does not survive the round trip: `["a", ""]` displays as `a, ` and parses back to `["a"]`. |
| ProfilePage.HandleSkillsChange | client/src/pages/Profile.jsx:140-153 | The parsed skills text written into `formData.profile.skills`. Characterised by `HandleSkillsChangeOnlySkills`. |
| ProfilePage.HandleSkillsChangeOnlySkills | client/src/pages/Profile.jsx:140-153 | Only `formData.profile.skills` changes, to the parsed text. |
| ProfilePage.HandleCancel | client/src/pages/Profile.jsx:196-199 | The form goes back to the saved profile and editing stops. |
| ProfilePage.CancelDiscardsChange | client/src/pages/Profile.jsx:196-199 | Cancelling after a field change equals cancelling without it. |
| ProfilePage.CancelDiscardsSkillsChange | client/src/pages/Profile.jsx:196-199 | Cancelling after a skills change equals cancelling without it. |
| Sequences.Filter | client/src/pages/JobListings.jsx:90 | `filter` keeps exactly the passing elements, as a subsequence. |
| Sequences.FilterAppend | client/src/pages/Portfolios.jsx:169 | Filtering distributes over concatenation. |
| Sequences.FilterAll | client/src/pages/JobListings.jsx:90 | A filter every element passes keeps the whole sequence. |
| Sequences.FilterIdempotent | client/src/pages/Profile.jsx:144 | Filtering twice by one test equals filtering once. |
| Text.ToLowerIdempotent | client/src/pages/JobListings.jsx:91 | Lower-casing twice equals lower-casing once. |
| Text.ToLowerKeepsWhitespace | server/models/user.model.js:14-15 | Lower-casing never turns a character into or out of whitespace. |
| Text.IncludesIff | client/src/pages/JobListings.jsx:91 | `includes` finds `t` iff `t` occurs in `s` at some index. |
| Text.IncludesAt | client/src/pages/JobListings.jsx:91 | An occurrence at any index is found by `includes`. |
| Text.IncludesWitness | client/src/pages/JobListings.jsx:91 | Whatever `includes` finds occurs at some index. |
| Text.IncludesEmpty | client/src/pages/Portfolios.jsx:171 | Every string includes the empty string. |
| Text.IncludesMiddle | server/middleware/auth.middleware.js:41 | A string includes each of its middle parts. |
| Text.Split | server/middleware/auth.middleware.js:12 | `split` always yields at least one piece. |
| Text.SplitPiecesOmitSeparator | client/src/pages/Profile.jsx:142 | No piece of a split contains the separator. |
| Text.JoinSplit | client/src/pages/Profile.jsx:142 | Joining a split's pieces with the separator gives back the string. |
| Text.SplitWithoutSeparator | client/src/pages/Profile.jsx:142 | A separator-free string splits into itself alone. |
| Text.SplitAtFirstSeparator | server/middleware/auth.middleware.js:12 | The separator-free text before the first separator is the first piece. |
| Text.JoinAppend | client/src/pages/Profile.jsx:487 | Joining a concatenation of two non-empty lists joins each and puts the separator between them. |
| Text.SplitAround | client/src/pages/Profile.jsx:142 | Splitting at a separator splits each side, and the pieces are concatenated in order. |
| Text.SplitJoin | client/src/pages/Profile.jsx:142 | Splitting a join of separator-free pieces gives them back. |
| Text.SkipWhitespaceSpec | server/models/job.model.js:12 | The scan from an index skips only whitespace and stops at the end or at a non-whitespace character. |
| Text.SkipWhitespaceAfter | server/models/job.model.js:12 | Scanning `w + s` from a position inside `s` ends where the scan of `s` alone ends, shifted by the length of `w`. |
| Text.SkipWhitespacePrefix | server/models/job.model.js:12 | Scanning from inside an all-whitespace prefix `w` passes all of `w` and then the leading whitespace of `s`. |
| Text.DropTrailingWhitespaceSpec | server/models/job.model.js:12 | The backward scan drops only whitespace and stops at the lower bound or at a non-whitespace character. |
| Text.DropTrailingWhitespaceAfter | server/models/job.model.js:12 | Scanning `w + s` backwards between two positions inside `s` ends where the scan of `s` alone ends, shifted by the length of `w`. |
| Text.TrimIsTrimmed | server/models/job.model.js:12 | The result of `trim` neither starts nor ends with whitespace. |
| Text.Trim | server/models/job.model.js:12 | `String.prototype.trim` (also the `trim: true` setter): the text between the leading and the trailing whitespace. Characterised by `TrimSpec`, `TrimIsTrimmed` and `TrimOfTrimmed`. |
| Text.TrimSpec | server/models/job.model.js:12 | `trim` gives a string that neither starts nor ends with whitespace: the middle of the input between its leading and trailing whitespace. |
| Text.TrimKeepsChars | client/src/pages/Profile.jsx:143 | Trimming only drops characters. |
| Text.TrimOfTrimmed | server/models/job.model.js:12 | Trimming leaves a trimmed string alone. |
| Text.TrimDropsLeadingWhitespace | client/src/pages/Profile.jsx:143 | Leading whitespace never survives trimming. |
| Persistence.Min | server/controllers/portfolio.controller.js:31 | The least id of a non-empty set is in the set and no greater than any member. |
| Persistence.NaturalOrder | server/controllers/portfolio.controller.js:9 | `find()` without a sort returns each matching document exactly once, in ascending id order. |
| Persistence.FindFirst | server/controllers/portfolio.controller.js:31 | `findOne` finds nothing iff nothing matches, else the first match in natural order. |
| Persistence.FindSortedDesc | server/controllers/job.controller.js:33-35 | `find().sort('-field')` returns the matching ids as a permutation, with keys non-increasing. |
| Persistence.SortDesc | server/controllers/job.controller.js:35 | Sorting permutes the ids into non-increasing key order. |
| Persistence.InsertDesc | server/controllers/job.controller.js:35 | Inserting into a sorted sequence adds the id and keeps it sorted. |
| Persistence.OnceEach | server/controllers/application.controller.js:68 | A sequence with a set's multiset holds each member of the set exactly once. |

## Left out

- Cryptography: `bcrypt` hashing and comparison and `jwt.verify`'s signature and expiry check are parameters (a salt, a hash function, a verification oracle). `comparePassword` (server/models/user.model.js:67-69) is only a call of the comparison and is not modelled.
- Mongoose machinery: `populate`, `select`, the text index and the search controller. Lists are modelled as sequences of ids, and the populated fields are not rebuilt. The password's `select: false` is the `PublicUser` type, which has no password.
- Clock: `Date.now`, the default dates and the pre-save `updatedAt` hooks. The current time is an integer parameter, and `updatedAt` is not stored.
- Concurrency: the race between the duplicate check and the create, which the unique index settles. The store is sequential.
- The client's rating sort, React rendering, layout and navigation, and the network and session-storage calls. `FetchProfile` takes the fetch's outcome as a parameter.
- `handleSave` on the profile page: it sends the form to the user controller's update endpoint, which is not part of this model.
- The auth and user controllers and the routes are not part of this model. So `authorize('company')` in front of `createJob` is not composed with it; `CreateJob` makes its own role check, as the handler does.
- Character handling: `toLowerCase` is modelled on ASCII letters only; other letters are left as they are. `trim` and the regex class `\s` share the `IsWhitespace` predicate, which lists ECMAScript's WhiteSpace and LineTerminator characters. Lengths count Unicode scalar values, while JavaScript counts UTF-16 code units: the password's `minlength: 6` (server/models/user.model.js:20) accepts three characters outside the Basic Multilingual Plane, and `ValidUser` refuses them.
- Ids: a malformed id string (a failed ObjectId cast, which Mongoose answers with a thrown error and so 500) is not modelled; ids are naturals. A body-supplied `_id` for a project, and an explicit `_id` in `Job.create`, are ignored; every new document gets the next id from the store's counter.
- Database errors other than validation failures and the email index's duplicate key (a lost connection, a timeout) are not modelled.
- The `error` field of 500 responses (the thrown message) is not part of `Response`.
- Body fields sent as `null`: a body's `Option` fields tell only present from absent. In the source, `null` reaches the document and then fails a `required` path with 500. This happens when the `company` in `createJob`'s spread replaces the caller (server/controllers/job.controller.js:13-16), when the `$set` of `updateJob` runs the validators (server/controllers/job.controller.js:82-86), and when `Object.assign` in `updateProject` writes a `null` title (server/controllers/portfolio.controller.js:165). The model answers 201 or 200 while keeping the caller or the old value.
- Values of the wrong JSON type: the model's bodies are typed, so a number where a string is expected, a `skills` that is not an array on the server, or a non-string field in a fetched profile are not modelled. On the client, a `skills` that is not an array is `None`.
- `CreateOrUpdatePortfolio`: a request without `projects` is not modelled. The input list is always present.
- `UpdateApplicationStatus`: a request without `status` is not modelled. In the source the path is then assigned `undefined`; the model's status is always a string.
- `HandleChange`: requires `name != "profile"`. Every input of the page has a fixed name (name, email, location, github, linkedin, portfolio, bio, experience, industry, size, founded), and none of them is `profile`. A field called `profile` would replace the nested object with a string, which the typed form cannot hold.
- `Authorize`: the middleware's `next()` is not simulated. Its outcome `Pass` stands for the call, and it never changes the request.
- `adminDeleteJob`: the job routes import it, but server/controllers/job.controller.js does not define it, so there is nothing to model.
