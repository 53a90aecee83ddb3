# CareerFlow core, modelled in Dafny

CareerFlow is a job-application tracker. An Express/MongoDB backend keeps one
collection of user accounts and one of job applications. Every job belongs to
one account, and every job route is behind a JSON Web Token check. A React
dashboard draws analytics from the job list of the account that is logged in.
This project models three parts of it:

- `backend/models/Job.js`: the application record, its required paths, the
  status enumeration, its defaults and its automatic timestamps (module
  `JobModel`, file `job_model.dfy`).
- `backend/server.js`:
  - the `auth` middleware, `/register` and `/login` (module `Auth`);
  - the four `/jobs` routes over a `Server` class that holds both
    collections and hands out ObjectIds (module `Store`);
  - the reply shapes (module `Http`);
  - the item mapping of `/api/recommendations` (module `Discovery`).
- `frontend/src/Dashboard.js`: the status table, search filter, status
  counts, funnel and pie series, interview rate, recent activity, the
  calendar's day marks, the "→" next-status button and the list shown
  right after a delete (module `Dashboard`).

`Seqs` holds generic sequence helpers (filter, descending sort, prefix,
substring search, ASCII lowercase) and their lemmas. `Wrappers` holds
`Option` and `Result`.

The bcrypt and jsonwebtoken primitives are foreign code. They are a record
of function values (`Auth.Crypto`). All the model knows about them is the
predicate `Auth.Sound`:

- a password matches its own hash;
- a signed token is never empty;
- until it expires, a token verifies to the claims it was signed with;
- `verify` never accepts an expired token.

Clocks are parameters: milliseconds for documents, and whole seconds
(`now / 1000`) for tokens. A database call that throws is a `fault` flag.

The model follows the code:

- PUT on an id the caller does not own answers 200 with `null`.
- DELETE on such an id answers 200 with `"Job deleted"`.
- No route answers 404.
- A body that fails validation makes `save()` throw, and the `catch` block
  answers 500 (`Http.Cause.Invalid`). It never answers 400.
- The status enumeration is checked only when a job is created.
  `findOneAndUpdate` runs no validators, so PUT can store any status. That is
  why the sum of the status counts equals the number of jobs only when every
  status is one of the five.
- Status changes are unrestricted. Any body may set any status.

## Model

| member | source | states |
|---|---|---|
| `JobModel.Violations` | backend/models/Job.js:5-18 | one `required` error for each missing owner and each missing or empty company or position, and one enum error for a status outside the five; no other error and no error twice; there are no errors exactly when the body is admissible |
| `JobModel.Create` | backend/models/Job.js:3-27 | saving succeeds exactly when the body is admissible; a saved document has a non-empty company and position, a status in the enumeration, the given id and owner, and `createdAt == updatedAt == now` |
| `JobModel.CreateDefaults` | backend/models/Job.js:12-24 | a body with only owner, company and position gets status `applied`, job type `Full-time`, work mode `On-site`, empty strings elsewhere, applied date `now` and no deadline or next round |
| `JobModel.CreatePaths` | backend/models/Job.js:10-26 | for any admissible body, path by path: a supplied value is stored as given, and an omitted path gets its default (`""`, `applied`, `Full-time`, `On-site`, or `now` for the applied date) |
| `JobModel.CreateFromOwnFields` | backend/models/Job.js:3-27 | supplied values are stored as given: re-creating a valid document from its own fields gives it back, with fresh timestamps |
| `JobModel.BlankRequiredRefused` | backend/models/Job.js:10-11 | a missing or empty company or position always fails validation, and the error names that path |
| `Auth.Authenticate` | backend/server.js:35-45 | no header or an empty one gives 401 "No token, authorization denied"; a token `verify` rejects gives 400 "Token is not valid"; the request passes exactly when `verify` accepts, and it carries the decoded claims |
| `Auth.IssuedTokenPasses` | backend/server.js:60 | a token signed for account `id` at second `iat` lets requests through as `id` for the next 36000 seconds |
| `Auth.PassedTokenUnexpired` | backend/server.js:39 | no request gets past the middleware with an expired token |
| `Auth.FindUser` | backend/server.js:51 | `User.findOne({ username })` finds an account with that name, or nothing exactly when no account has it |
| `Auth.Register` | backend/server.js:48-63 | a thrown database call gives 500 and changes nothing; a taken name gives 400 "User already exists" and changes nothing; otherwise one user is appended with the bcrypt hash of the password, and the reply holds a token for the new id and `{ id, username }` |
| `Auth.Login` | backend/server.js:65-77 | an unknown name gives 400 "User does not exist"; a wrong password gives 400 "Invalid credentials"; a found name whose hash matches the password gives a session with a token for that account and `{ id, username }`; a success names an account with that username whose hash matches, and carries a token for it |
| `Auth.RegisterKeepsNamesUnique` | backend/server.js:51-58 | registration keeps usernames unique |
| `Auth.FindUserUnique` | backend/server.js:68 | with unique names, looking up an account's name finds that account |
| `Auth.RegisterThenLogin` | backend/server.js:48-77 | registering a free name and then logging in with the same password succeeds, with a token for the new account |
| `Store.OwnedBy` | backend/server.js:82 | `Job.find({ user })` holds exactly the caller's documents and no document more often than the collection does |
| `Store.ListJobs` | backend/server.js:80-85 | GET /jobs holds exactly the caller's documents, each as often as the collection holds it, sorted by applied date, newest first |
| `Store.FindOwned` | backend/server.js:97 | the filter `{ _id, user }` matches the first document with that id and owner, and matches none exactly when no document has both |
| `Store.PatchAsWritten` | backend/server.js:97 | the update as the code performs it keeps the id and creation time, sets `updatedAt` to `now`, and takes the owner from the body when the body has one |
| `Store.PatchPaths` | backend/server.js:97 | path by path, a path the body supplies takes the body's value and a path it leaves out keeps the document's |
| `Store.PatchStatusOnly` | backend/server.js:97 | the body `{ status }` changes the status and `updatedAt` and nothing else |
| `Store.PatchAgrees` | backend/server.js:97 | for a body without `user`, the update as written and the corrected one agree |
| `Store.Patch` | backend/server.js:97 | the corrected update keeps the document's id, owner and creation time, and sets `updatedAt` to `now` |
| `Store.PatchEmpty` | backend/server.js:97 | in the corrected update, an empty body changes nothing but `updatedAt` |
| `Store.PatchSuppliedFields` | backend/server.js:97 | in the corrected update, a body that supplies every field of `k` turns the document into `k`, keeping only its own id, owner and creation time |
| `Store.UpdateOwned` | backend/server.js:95-100 | PUT as written changes only the first document matching id and owner, applies the whole body to it, and answers it; with no match, it changes nothing and answers `null` |
| `Store.DeleteOwned` | backend/server.js:104 | with no match, `findOneAndDelete` changes nothing; otherwise the collection is one shorter |
| `Store.DeleteOwnedRemovesOne` | backend/server.js:104 | DELETE removes exactly one copy of the matched document and nothing else |
| `Store.DeleteOwnedShrinks` | backend/server.js:104 | after DELETE, every document left was there before |
| `Store.DeleteKeepsUniqueIds` | backend/server.js:104 | DELETE keeps document ids unique |
| `Store.UpdateIsolation` | backend/server.js:97 | the corrected PUT, which drops a `user` from the body, leaves every other account's documents exactly as they were; for a body without `user` this is the source's PUT |
| `Store.DeleteIsolation` | backend/server.js:104 | DELETE leaves every other account's documents exactly as they were |
| `Store.DeleteRemovesOwned` | backend/server.js:104 | with unique ids, the caller owns no document with that id after DELETE |
| `Store.ForeignIdUntouched` | backend/server.js:95-107 | PUT and DELETE on the id of another account's document change nothing, and PUT answers `null` |
| `Store.PutBodyReassignsOwner` | backend/server.js:97 | as written, a PUT body with `user: 2` moves account 1's job 7 into account 2's list |
| `Store.Server.constructor` | backend/server.js:13-15 | models a fresh database: no users and no jobs, in a valid state |
| `Store.Server.Register` | backend/server.js:48-63 | POST /register leaves the collections as `Auth.Register` says, with the token clock in seconds; it keeps the server state valid and leaves the jobs untouched |
| `Store.Server.Login` | backend/server.js:65-77 | POST /login answers as `Auth.Login` says, and a session names the username that logged in |
| `Store.Server.GetJobs` | backend/server.js:80-85 | GET /jobs answers 500 on a fault; otherwise it answers exactly the caller's jobs, newest first |
| `Store.Server.PostJob` | backend/server.js:87-93 | POST /jobs succeeds exactly when there is no fault and the body with the owner set to the caller is admissible; it then appends the created job and answers it; a body that fails validation answers 500 with its violations; other accounts' jobs never change |
| `Store.Server.PutJob` | backend/server.js:95-100 | PUT /jobs/:id changes the collection and answers as `UpdateOwned` says, applying the body as written, or answers 500 and changes nothing on a fault; with no `user` in the body, other accounts' jobs never change; the state stays valid |
| `Store.Server.DeleteJob` | backend/server.js:102-107 | DELETE /jobs/:id answers "Job deleted" and removes as `DeleteOwned` says, or answers 500 and changes nothing; afterwards the caller owns no document with that id; no document appears, other accounts' jobs never change, and ids stay unique |
| `Store.Server.Handle` | backend/server.js:80-107 | a job route runs only behind the middleware: a refused token answers its 401/400 and changes nothing; a passed token runs the requested route for the account it names, and the reply and new collection are those of GET (`ListJobs`), POST (`Create`, appended), PUT (`UpdateOwned`) or DELETE (`DeleteOwned`), or 500 on a fault; other accounts' jobs never change, except through a PUT body that names a `user` |
| `Discovery.ToListing` | backend/server.js:113-122 | each feed item becomes a listing whose id is its index, whose location falls back to "Remote" and whose single tag falls back to "Dev" |
| `Discovery.Recommendations` | backend/server.js:110-125 | the route answers one listing per feed item, in feed order, or `[]` when the fetch or the mapping throws |
| `Discovery.RecommendationsShape` | backend/server.js:113-122 | every listing has a distinct id, a non-empty location, exactly one non-empty tag, and the feed item's company, title, link, date and logo |
| `Dashboard.StatusTableMatchesSchema` | frontend/src/Dashboard.js:110-116 | the dashboard lists the schema's five statuses in the schema's order |
| `Dashboard.StatusCount` | frontend/src/Dashboard.js:125 | a status count never exceeds the number of jobs |
| `Dashboard.CountsAddUp` | frontend/src/Dashboard.js:125 | the five status counts add up to the number of jobs whose status is one of the five |
| `Dashboard.CountsSumToTotal` | frontend/src/Dashboard.js:125 | when every status is one of the five, the counts add up to `jobs.length` |
| `Dashboard.FunnelData` | frontend/src/Dashboard.js:128-132 | one entry per status, in table order, with its label, its colour and its count |
| `Dashboard.FunnelTotal` | frontend/src/Dashboard.js:128-132 | the funnel accounts for every job whose status is known, and for every job when all statuses are known |
| `Dashboard.PieData` | frontend/src/Dashboard.js:134 | the pie holds exactly the funnel entries with a positive count, in funnel order |
| `Dashboard.PieTotal` | frontend/src/Dashboard.js:134 | dropping the empty slices keeps the total |
| `Dashboard.InterviewRate` | frontend/src/Dashboard.js:136-143 | 0 without jobs; otherwise the share of interview and offer jobs as a whole percent, rounded to the nearest integer with halves up, never above 100 |
| `Dashboard.RoundedPercent` | frontend/src/Dashboard.js:141 | integer half-up rounding of `100 a / n` lies in 0..100 and is within half a unit of the exact ratio |
| `Dashboard.RecentActivity` | frontend/src/Dashboard.js:145-147 | at most five jobs, taken from the list, ordered by `updatedAt`, falling back to `appliedDate`, newest first; no job left out is newer than one shown |
| `Dashboard.FilteredJobs` | frontend/src/Dashboard.js:118-123 | a job is kept exactly when the lowercased term occurs at some offset in its lowercased company or position; kept jobs keep their order |
| `Dashboard.EmptySearchKeepsAll` | frontend/src/Dashboard.js:118-123 | an empty search shows every job |
| `Dashboard.SearchIgnoresCase` | frontend/src/Dashboard.js:120-121 | searching for a term and for its lowercase shows the same jobs |
| `Dashboard.IndexOf` | frontend/src/Dashboard.js:443 | `findIndex` answers the first index with that id, or -1 exactly when no status has it |
| `Dashboard.NextStatus` | frontend/src/Dashboard.js:443 | the status "→" sends is always one of the five, and there is none exactly for `rejected` |
| `Dashboard.NextStatusOrder` | frontend/src/Dashboard.js:443 | "→" moves each status to the next one in the table; `rejected` has none; an unknown status goes to `applied` |
| `Dashboard.AdvanceRejectedOnlyTouches` | frontend/src/Dashboard.js:98-107 | pressing "→" on a rejected card sends an empty body, which refreshes `updatedAt` only |
| `Dashboard.AdvanceMovesToNext` | frontend/src/Dashboard.js:98-107 | pressing "→" on a card of any other column moves the job to the next column and refreshes `updatedAt`; nothing else changes |
| `Dashboard.WithoutId` | frontend/src/Dashboard.js:90 | the list shown right after a delete holds exactly the jobs with another id, in order |
| `Dashboard.OptimisticDeleteAgrees` | frontend/src/Dashboard.js:88-96 | with unique ids, dropping the id from the caller's jobs in store order gives the caller's jobs, in store order, after the server's DELETE |
| `Dashboard.OptimisticListAgrees` | frontend/src/Dashboard.js:88-96 | with unique ids, the list shown right after a delete (the GET /jobs reply without the id) holds the same jobs, each as often, as the GET /jobs reply refetched after the DELETE; only the contents are stated, because the order among equal applied dates is not fixed |
| `Dashboard.FindEvent` | frontend/src/Dashboard.js:152-158 | `find` answers a job whose next round is on the tile's local year, month and day, or nothing exactly when no job has one there |
| `Dashboard.TileMarked` | frontend/src/Dashboard.js:150-161 | a tile is marked exactly when the view is the month view and some job's next round is on the tile's local year, month and day |

## Findings

| source | as written | input that shows it | evidently intended | confidence | as-written member | corrected member |
|---|---|---|---|---|---|---|
| backend/server.js:97 | `findOneAndUpdate` receives the whole request body, so a `user` path in the body overwrites the owner | account 1 sends PUT `/jobs/7` with body `{ "user": 2 }` for its own job 7; the job then belongs to account 2 | the owner comes from the token, as in POST /jobs, and a body cannot change it | not executed | `Store.PutBodyReassignsOwner` | `Store.Patch` |

`Store.PatchAsWritten` is the update as the code performs it, and
`Store.UpdateOwned` and `Store.Server.PutJob` run it.
`Store.PutBodyReassignsOwner` shows where it goes wrong. `Store.Patch` is the
corrected update, which ignores a `user` in the body. `Store.UpdateIsolation`
proves that with this correction, PUT leaves every other account's documents
untouched. `Store.PatchAgrees` shows that the two agree for a body without
`user`.

## Left out

- Network, database and process I/O are not modelled: `mongoose.connect`, `app.listen`, environment variables, CORS and JSON parsing. A database call that throws is the `fault` parameter.
- The HTTP fetch of `/api/recommendations` is not modelled; it is the `feed` argument, and `None` stands for every way the fetch or mapping throws.
- bcrypt and jsonwebtoken are foreign code. They are abstract functions constrained only by `Auth.Sound`. Salt generation is a parameter, and so is the new ObjectId.
- `backend/models/User.js` is not part of this model. Users are `{ id, username, password }`, and no uniqueness index is assumed beyond the `findOne` check.
- Request bodies are modelled as present or absent fields. Not modelled: `null` values, values of the wrong type and Mongoose's casting, client-supplied `_id`, `createdAt` or `updatedAt`, and a missing username or password in `/register` and `/login`.
- Concurrency is not modelled. Requests run one at a time, so two racing registrations of one name are not modelled.
- `Dashboard.InterviewRate`: `toFixed(0)` formats a floating-point number. The model uses exact integer arithmetic with halves rounded up, so floating-point rounding at exact halves is not captured.
- `Dashboard.LocalDay`: the browser time zone is a fixed offset. Daylight-saving changes are not modelled.
- `Seqs.Lower`: `toLowerCase` is modelled for ASCII letters only.
- `Dashboard.RecentActivity`: the order among jobs with equal activity times is not stated, and neither is the stability of `Array.prototype.sort`.
- `Store.ListJobs`: the order among jobs with equal applied dates is not stated, because MongoDB does not promise one.
- The React rendering, modals, form state, `fetchJobs` refreshes, `alert` messages, the discovery view's fetch and the `handleAddJob` client-side check are not modelled. They are presentation or calls to foreign services.
- The OpenAI client that `backend/server.js` constructs is not modelled, because no route calls it.
- The `statuses` Tailwind class names (`bg`, `text`, `bgLight`) are left out because they only style the page.
