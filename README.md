# Ownership and authorisation core of the to-do list service

This project models the part of the to-do list service (volnamax/bmstu_team_development)
that decides who may touch what, together with the task and category store it protects:

- the user repository's lookups and its two ownership queries (a user owns a task; a user
  owns every category of a list);
- the task and category repositories, over an in-memory store of three tables (users, tasks,
  categories) plus the task-category join rows, each operation one atomic step;
- the authentication gate (JWT in the `Authorization` header) and the two ownership gates
  (task id in the path, category ids in the body), each an early-return decision chain that
  ends in exactly one error response or one call of the next handler;
- the token handler (issue, validate, parse a JWT; strip the `Bearer ` prefix);
- the credential service (sign-up and sign-in) and the thin task and category services, which
  delegate to a repository and wrap its errors;
- the task routes composed from those parts in the order the router wires them.

Cryptography and parsing libraries (HS256 signing, bcrypt, `uuid.Parse`, JSON decoding,
time formatting) are parameters: records of functions (`Tokens.Jwt`, `Tokens.Codec`,
`AuthService.Bcrypt`) or function arguments. A database failure is an argument `fault` of
the call it affects; a failed transaction changes nothing. Ids the database generates are an
argument `newId`.

The central property is `Schema.LinksOwned`: every category linked to a task belongs to the
task's owner. `Routes.CreateTaskRoute` and `Routes.UpdateTaskRoute` preserve it whenever
every category records its owner (`Schema.OwnersRecorded`). They rely on two facts. The
repository links only ids that exist (`TaskRepository.NewTaskLinksOwned`,
`TaskRepository.UpdatedLinksOwned`). A store failure during the check cannot make the gate
pass (`Routes.CategoryGateImpliesOwned`). A stand-alone fact explains why unknown ids are
harmless to the check: they do not change its verdict (`UserRepository.UnknownIdsDoNotMatter`). The repository's own `CreateCategory` writes no
owner, so the precondition fails for the code as written; see Findings.

Three behaviours of the code are worth noting:

- an empty `Authorization` header is refused with 400, not 401 (internal/middleware/auth.go:30-35);
- the gate's 400 for `ErrParsingToken` never fires, because `ParseToken` wraps every error
  (internal/pkg/authUtils/tokenCreator.go:71-92); all token failures get 401
  (`AuthGate.TokenFailuresAreUnauthorized`);
- the category listing is not filtered by user (internal/repository/category.go:53-76).

## Model

| member | source | states |
|---|---|---|
| Base.Cause | internal/repository/user.go:54 | the model's own notion of the underlying error of a chain built by `errors.Wrap` or `fmt.Errorf` with `%w` (the library's `Cause` is never called): the innermost error, never a wrapper; an unwrapped error is its own cause |
| Base.Is | internal/repository/user.go:51 | `errors.Is`: an error matches itself; an unwrapped error matches only itself; a non-wrapper target found in a chain is the chain's underlying error |
| Base.Wrap | internal/adapters/task.go:30-35 | `errors.Wrap` on an error result: nil stays nil; an error gets the call site's message and keeps its cause |
| Base.WrapResult | internal/adapters/task.go:47-51 | wrapping a (value, error) result: a value passes through unchanged; an error is wrapped and keeps its cause |
| Base.WrapKeepsCause | internal/repository/user.go:51-54 | wrapping keeps the cause, and `errors.Is` still finds every error of the inner chain |
| Base.IsCause | internal/repository/user.go:51-54 | `errors.Is(e, errors.Cause(e))` holds for every error chain |
| UserRepository.ToDaUser | internal/repository/user.go:20-25 | the row written for a sign-up record carries its login and password verbatim, and no id: the database assigns it |
| UserRepository.FromDaUser | internal/repository/user.go:27-33 | a stored row is read back under its key, and writing it back gives the same row |
| UserRepository.DaUserRoundTrip | internal/repository/user.go:20-33 | storing a sign-up record and reading it back gives the same login and password under the assigned id |
| UserRepository.GetUserByID | internal/repository/user.go:45-63 | for a non-nil id, succeeds iff the id is stored and the read did not fail, returning that row; for the nil id `First` has no condition and returns the user with the smallest key, if any; "no row" is ErrUserNotFound; other failures are wrapped and keep their cause |
| UserRepository.NilIdReadsLeastUser | internal/repository/user.go:46-49 | on a table of two users, the nil id reads the one with the smaller key |
| UserRepository.GetUserByName | internal/repository/user.go:65-83 | succeeds iff some user has that login, returning that user's id and hash; otherwise ErrUserNotFound or a wrapped failure |
| UserRepository.CheckTaskOwnership | internal/repository/user.go:100-117 | true iff a task with that id exists and belongs to the user; a missing task is false, not an error; a failure is an error, never true |
| UserRepository.CheckCategoriesOwnership | internal/repository/user.go:119-148 | an empty list is owned without a query; true means no listed category has another owner; no other owner means true; a failure of a non-empty check is a wrapped error |
| UserRepository.TaskOwnedByOneUser | internal/repository/user.go:103-106 | another user's task is never reported as owned; the owner's is, when the query succeeds |
| UserRepository.CategoriesCheckReadsSet | internal/repository/user.go:132-137 | the verdict depends only on the set of ids, not on their order or repetition |
| UserRepository.UnknownIdsDoNotMatter | internal/repository/user.go:132-137 | appending ids that name no category does not change a non-empty check's verdict |
| UserRepository.ForeignCategoryRefusesList | internal/repository/user.go:133-137 | one listed category of another user makes the whole list not owned |
| TaskRepository.ExistingCategories | internal/repository/task.go:47-50 | the `IN` lookup finds exactly the listed ids that name a category: no unknown id and no unlisted one |
| TaskRepository.NewTask | internal/repository/task.go:35-56 | the inserted task has the new id, the user, the title and description, is not done, and links exactly the listed ids that name categories |
| TaskRepository.Updated | internal/repository/task.go:64-86 | only title and description change; a nil list keeps the links; a list replaces them with the listed existing categories |
| TaskRepository.Toggled | internal/repository/task.go:151-163 | the done flag is negated and nothing else changes |
| TaskRepository.ToggleTwice | internal/repository/task.go:157-159 | toggling twice restores the row |
| TaskRepository.NewTaskLinksOwned | internal/repository/task.go:46-56 | when the category check passed for the user, every category the new task links belongs to that user |
| TaskRepository.UpdatedLinksOwned | internal/repository/task.go:76-86 | for a task of the user, when the check passed for the new list, every linked category still belongs to the user |
| TaskRepository.TitleLeTotal | internal/repository/task.go:123 | any two titles are ordered one way or the other |
| TaskRepository.InsertByTitle | internal/repository/task.go:121-126 | inserting a row into a title-sorted listing keeps it sorted and adds exactly that row |
| TaskRepository.Page | internal/repository/task.go:119-126 | the page starts at `(pageIndex-1)*recordsPerPage` (when positive), holds consecutive rows, at most `recordsPerPage` of them and exactly that many when enough rows follow; past the end it is empty |
| TaskRepository.PagesArePrefix | internal/repository/task.go:119-126 | for one fixed listing, pages 1 to k laid end to end are exactly its first k*recordsPerPage rows: paging that listing neither skips nor repeats |
| TaskRepository.SecondPageOfFive | internal/repository/task.go:119 | page 2 of 5 rows is rows 5 to 9 |
| Store.Store.CreateUser | internal/repository/user.go:85-98 | stores login and password verbatim under the new id; fails, changing nothing, when the read fails or the id or login is taken |
| Store.Store.DeleteUser | internal/repository/user.go:150-165 | removes exactly the user with that id; ErrUserNotFound when there was none; a failure is wrapped |
| Store.Store.CreateTask | internal/repository/task.go:33-60 | all or nothing: on success exactly the new task row is added; on failure the tables are unchanged; after a passed category check the ownership invariant is preserved |
| Store.Store.Update | internal/repository/task.go:62-90 | a missing task is "record not found"; otherwise only that row changes, as `Updated` says; the ownership invariant is preserved under the gates' conditions |
| Store.Store.Delete | internal/repository/task.go:144-149 | removes the task with that id if any; deleting a missing task is not an error |
| Store.Store.ToggleDone | internal/repository/task.go:151-164 | negates the done flag of an existing task only; a missing task is "record not found" |
| Store.Store.GetByID | internal/repository/task.go:92-115 | returns the stored title, description and done flag and each linked category once, with its name |
| Store.Store.OrderByTitle | internal/repository/task.go:121-123 | the listing holds each of the user's tasks once, no other row, sorted by title |
| Store.Store.GetAll | internal/repository/task.go:117-142 | the result is the requested page of the user's title-sorted tasks, each as id, title and done flag |
| Store.Store.CreateCategory | internal/repository/category.go:27-38 | adds one category under a free name, owned by its creator, after which exactly the creator passes the check for it |
| Store.Store.CreateCategoryAsWritten | internal/repository/category.go:27-38 | as written the row gets no owner, and then every user passes the ownership check for it |
| Store.Store.DeleteCategory | internal/repository/category.go:40-51 | removes the category and its join rows; ErrCategoryNotFound when there was none; the ownership invariant is preserved |
| Store.Store.GetAllCategories | internal/repository/category.go:53-76 | the requested page of all categories, not filtered by user, each row mapped in order to its id and name |
| Tokens.IssuedClaims | internal/pkg/authUtils/tokenCreator.go:40-46 | the signed claims are exactly "exprires", "name" and "ID", with the user's name and id; there is no "login" claim |
| Tokens.GenerateToken | internal/pkg/authUtils/tokenCreator.go:39-53 | the token is the signature of the user's claims under the key; a signing failure is wrapped |
| Tokens.ValidateToken | internal/pkg/authUtils/tokenCreator.go:55-69 | ErrParsingToken iff the library fails to parse; ErrInvalidToken iff it parses but is invalid; nil iff valid |
| Tokens.ParseTokenAsWritten | internal/pkg/authUtils/tokenCreator.go:71-92 | parse errors are wrapped; a non-UUID "ID" is a wrapped error; on decoded claims it panics exactly when the "ID" string claim is missing, or the ID parses and the "login" string claim is missing; a success carries the "login" claim and the parsed ID |
| Tokens.ParseToken | internal/pkg/authUtils/tokenCreator.go:71-92 | corrected: a success carries the "name" and the parsed "ID" claims; every error is wrapped or names the missing claim, so it is never ErrParsingToken |
| Tokens.IssuedTokenPanicsAsWritten | internal/pkg/authUtils/tokenCreator.go:86-89 | parsing any token GenerateToken issued panics, as written |
| Tokens.IssuedTokenParses | internal/pkg/authUtils/tokenCreator.go:39-92 | with the correction, an issued token parses back to the user's name and id |
| Tokens.ExtractTokenFromReq | internal/pkg/authUtils/tokenCreator.go:94-99 | one leading "Bearer " is removed; a header without it, or an empty one, is returned unchanged |
| Tokens.ExtractRemovesOnePrefix | internal/pkg/authUtils/tokenCreator.go:97 | only one prefix goes: "Bearer " + t gives t, even when t starts with "Bearer " |
| AuthGate.JwtAuth | internal/middleware/auth.go:27-57 | an empty header gets 400; the request passes iff the stripped token parses, carrying the payload's id; a parse error gets 400 iff it is ErrParsingToken itself and 401 otherwise, with the error's text |
| AuthGate.RejectionsAreClientErrors | internal/middleware/auth.go:30-49 | every rejection carries an error body and the status 400 or 401 |
| AuthGate.TokenFailuresAreUnauthorized | internal/middleware/auth.go:38-50 | with the token handler's ParseToken, no token failure gets 400: the comparison with ErrParsingToken never holds |
| AuthGate.IssuedTokenAuthenticates | internal/middleware/auth.go:36-55 | "Bearer " plus an issued token passes the gate with that user's id (with the corrected ParseToken) |
| AuthGate.JwtAuthAsWritten | internal/middleware/auth.go:29-50 | as written, the body is rendered before the status is set, so every rejection goes out with status 200 |
| AuthGate.MissingHeaderAnsweredOk | internal/middleware/auth.go:30-35 | a request without the header is answered 200 with an error body, where 400 was meant |
| OwnershipGate.RequestBody.ReadAll | internal/middleware/ownership.go:49-58 | returns the whole body or the read error, and drains the stream |
| OwnershipGate.RequestBody.Restore | internal/middleware/ownership.go:118 | the next reader gets exactly the buffered bytes |
| OwnershipGate.CategoriesDecision | internal/middleware/ownership.go:41-121 | read failure 400; missing user 401; decode failure 400; check error 500; not owned 403; passes iff the list is owned, forwarding the body as read |
| OwnershipGate.CheckCategoriesMiddleware | internal/middleware/ownership.go:41-121 | makes that decision on the body it reads; on a pass the next handler reads byte-identical content; on a rejection the body stays consumed |
| OwnershipGate.MissingUserBeforeDecode | internal/middleware/ownership.go:60-82 | the user id is checked before the body is decoded: neither decoder nor check affect that answer |
| OwnershipGate.CategoriesRejections | internal/middleware/ownership.go:54-111 | every rejection is an error body with status 400, 401, 403 or 500 |
| OwnershipGate.CheckTaskMiddleware | internal/middleware/ownership.go:123-201 | empty id 400, then bad UUID 400, then missing user 401, then check error 500, not owned 403; passes iff the task is owned |
| OwnershipGate.MalformedIdBeforeUser | internal/middleware/ownership.go:130-161 | a missing or malformed id gets 400 whatever the user id |
| AuthService.CheckCandidate | internal/adapters/auth.go:39-47 | fails iff the login or the password is empty, the login checked first |
| AuthService.SignUpRecord | internal/adapters/auth.go:37-55 | the repository receives a copy of the candidate whose password is the bcrypt hash; a hashing failure is wrapped |
| AuthService.SignUp | internal/adapters/auth.go:37-63 | a validation failure is returned as is; success iff hashing and the repository succeed; a repository error is wrapped with the login |
| AuthService.SignUpValidatesFirst | internal/adapters/auth.go:39-47 | an empty login or password fails whatever the repository would do |
| AuthService.SignIn | internal/adapters/auth.go:65-95 | corrected: validation, then lookup, then the stored hash compared with the password; on success exactly the handler's token for the stored user and key; each failure wrapped with the login |
| AuthService.NoTokenOnMismatch | internal/adapters/auth.go:84-89 | a password mismatch fails whatever the token handler would do |
| AuthService.SignUpThenSignIn | internal/adapters/auth.go:37-95 | a user signed up and stored signs in with the same password and gets the token issued for the stored user |
| AuthService.Swapped | internal/adapters/auth.go:84 | the same bcrypt with the arguments of the comparison exchanged |
| AuthService.SignInAsWritten | internal/adapters/auth.go:65-95 | as written, the comparison takes the plaintext as the hash; a failing swapped comparison means no token |
| AuthService.SwappedCompareRefusesOwnPassword | internal/adapters/auth.go:84 | as written, a user who signed up as ("ann", "pw") cannot sign in with "pw" |
| AuthService.CheckTaskOwnership | internal/adapters/auth.go:97-103 | the repository's verdict unchanged, or its error wrapped |
| AuthService.CheckCategoriesOwnership | internal/adapters/auth.go:105-111 | the repository's verdict unchanged, or its error wrapped |
| AuthService.DeleteUser | internal/adapters/auth.go:113-119 | nil iff the repository returns nil; otherwise its error wrapped with the user id |
| AuthService.DeleteUserKeepsNotFound | internal/adapters/auth.go:113-119 | a missing user is still recognisable as ErrUserNotFound through the wrapper |
| TaskService.CreateTask | internal/adapters/task.go:29-36 | nil iff the repository returns nil; otherwise "failed to create task" around its error |
| TaskService.Update | internal/adapters/task.go:38-44 | nil iff the repository returns nil; otherwise its error wrapped with the task id |
| TaskService.GetByID | internal/adapters/task.go:46-52 | the repository's task unchanged, or no task and its error wrapped with the id |
| TaskService.GetAll | internal/adapters/task.go:54-60 | the repository's list unchanged, or no list and its error wrapped |
| TaskService.Delete | internal/adapters/task.go:62-68 | nil iff the repository returns nil; otherwise its error wrapped with the task id |
| TaskService.ToggleDone | internal/adapters/task.go:70-76 | nil iff the repository returns nil; otherwise its error wrapped with the task id |
| TaskService.MissingTaskStillRecognised | internal/adapters/task.go:38-76 | "record not found" stays recognisable through the wrappers of Update, ToggleDone and GetByID |
| CategoryService.CreateCategory | internal/adapters/category.go:26-33 | nil iff the repository returns nil; otherwise "failed to create category" around its error |
| CategoryService.Delete | internal/adapters/category.go:35-41 | nil iff the repository returns nil; otherwise "failed to delete category" around its error |
| CategoryService.GetAll | internal/adapters/category.go:43-49 | the repository's list unchanged, or no list and its error wrapped |
| CategoryService.DeleteKeepsNotFound | internal/adapters/category.go:35-41 | an unknown category stays recognisable as ErrCategoryNotFound through the wrapper |
| Routes.CategoryGateImpliesOwned | internal/middleware/ownership.go:92-111 | a category list the gate lets through is owned on a fault-free read of the table |
| Routes.TaskGateImpliesOwner | internal/middleware/ownership.go:172-199 | a task the gate lets through exists and belongs to the requesting user |
| Routes.OtherUsersTaskForbidden | internal/middleware/ownership.go:172-192 | another user's task is refused with 403, or 500 on a store failure |
| Routes.CreateTaskRoute | internal/api/handlers/handlers.go:52-57 | the ownership invariant holds after every request; a refused or failed request changes nothing; a success adds exactly the new task of the authenticated user, with the decoded title, description and existing listed categories, and leaves every other row as it was |
| Routes.UpdateTaskRoute | internal/api/handlers/handlers.go:59-74 | the ownership invariant holds after every request; only the owner's request reaches the store; a success replaces that task by its update with the decoded body and list, and nothing else; the two gates' queries fail independently |
| Routes.DeleteTaskRoute | internal/api/handlers/handlers.go:59-76 | only the owner's request reaches the store; a success removes exactly that task |

## Findings

| source | as written | input that shows it | evidently intended | confidence | as-written member | corrected member |
|---|---|---|---|---|---|---|
| internal/repository/category.go:27-38 | the inserted category carries only its name; the ownership query compares the category's `user_id`, and a NULL owner never differs from anyone | user A creates category C; user B creates a task listing C: the category gate passes and the task links A's category | a category records the user who created it, and only that user passes the check for it | medium, not executed | Store.Store.CreateCategoryAsWritten | Store.Store.CreateCategory |
| internal/pkg/authUtils/tokenCreator.go:87 | ParseToken asserts a string "login" claim, which GenerateToken never writes (it writes "name") | any token GenerateToken issued: the assertion panics (`Tokens.IssuedTokenPanicsAsWritten`) | read the "name" claim; an issued token parses back to the user (`Tokens.IssuedTokenParses`) | high, not executed | Tokens.ParseTokenAsWritten | Tokens.ParseToken |
| internal/adapters/auth.go:84 | `CompareHashAndPassword` gets the candidate's plaintext as the hash and the stored hash as the password | sign up as ("ann", "pw"), then sign in with "pw": refused (`AuthService.SwappedCompareRefusesOwnPassword`) | compare the stored hash with the candidate's password; sign-up then sign-in succeeds (`AuthService.SignUpThenSignIn`) | high, not executed | AuthService.SignInAsWritten | AuthService.SignIn |
| internal/middleware/auth.go:32-33 | each rejection renders the JSON body before `render.Status`, so the status is set after the response was written with 200 | a request with no Authorization header: 200 with an error body (`AuthGate.MissingHeaderAnsweredOk`) | 400 for a missing header and 400 or 401 for a bad token (`AuthGate.RejectionsAreClientErrors`) | high, not executed | AuthGate.JwtAuthAsWritten | AuthGate.JwtAuth |

## Left out

- HTTP, routing and logging: chi, `render` and zerolog are not modelled; a gate's answer is a `Decision`, a status and an error body, or one call of the next handler.
- Context deadlines and the `ctx.Err()` checks after each query are not modelled (time and cancellation).
- HS256 signing and verification, bcrypt, `uuid.Parse`, JSON decoding, the clock and time formatting are function parameters; their behaviour is only assumed where a lemma says so (`Tokens.RoundTrips`, `AuthService.Consistent`).
- SQL and GORM mechanics are not modelled: raw SQL text, `pq.Array`, transactions as a mechanism. Each repository call is one atomic step on the tables.
- The column and table names disagree across the repository files. The category struct has column `id` and no `user_id`, while the queries use `id_category`, `user_id` and table `category`. The model assumes each query runs against the columns it names.
- The database schema is not part of this model. Deleting a task or a category is assumed to remove its join rows, as an `ON DELETE CASCADE` would.
- Database-generated ids are the argument `newId`; an id already in use is refused as a unique violation.
- Title order is character-code order, not the database collation.
- TaskRepository.PagesArePrefix: holds for one fixed listing only. Each page is a separate `ORDER BY title` query, and tasks with equal titles may come back in a different order each time, so across separate page requests such tasks can be skipped or repeated; `Store.Store.GetAll` chooses its listing afresh on every call.
- Concurrency: the routes model one request at a time; each gate's check and the store write run on the same state. The code runs the ownership check and the write as separate queries on concurrent requests, without a transaction, so another request can change ownership in between; that interleaving is not modelled.
- The row order of the category listing and of a task's categories is any order the database picks; the model fixes none.
- Go's 64-bit `int` is not modelled: `(pageIndex-1)*recordsPerPage` is computed without overflow.
- An empty category listing is nil in Go (JSON `null`); the model returns an empty sequence.
- The loop at internal/repository/user.go:125-128 only converts ids to strings and is modelled as set membership.
- The definitions of the two user-id context keys (`handlers.UserIDContextKey`, `middleware.UserIDContextKey`) are not part of this model; the routes assume they are the same key.
- The handlers are empty in the repository; the routes assume a handler decodes the forwarded body and calls the service once.
- Routes: only the create, update and delete task routes are composed; the toggle, get and list routes use the same gates and store methods, which are modelled separately.
- The adapter interfaces omit the user id and category ids that the repositories take; the model uses the repositories' signatures.
- A panic in the as-written ParseToken is the value `Panicked`; the authentication gate is modelled over a parser that returns, so the as-written parser is not composed with it.
- `SignUp` copies the candidate instead of changing it; datatypes are values here, so this holds by construction.
- ValidateToken is modelled but nothing in the core calls it; ParseToken, like the code as written, does not look at the library's validity verdict or at any expiry claim.
