# Mannequin reclaim scripts, modelled in Dafny

Three command-line scripts take a CSV of GitHub Enterprise mannequins (placeholder
accounts left by a migration) and give the real users the access the mannequins had:

- `scripts/process_mannequins.py` reads rows `mannequin_username, mannequin_id, role, target`.
  For each row it validates the fields and maps the source role label to a GitHub permission.
  It then looks the user up, by username or, for an identifier containing `@`, by email search with a fallback to the part before `@`.
  Finally it either invites the user to an organization (`POST /orgs/{org}/invitations`)
  or adds them as a collaborator on a repository (`PUT /repos/{owner}/{repo}/collaborators/{user}`),
  depending on whether the target contains `/`.
- `scripts/add_to_orgs.py` and `scripts/add_to_repos.py` read five-column rows
  `mannequin_user, mannequin_id, target_user, role, target`.
  The first handles only organization targets (no `/`) and sends invitations.
  The second handles only repository targets (with `/`) and adds collaborators.

Every script carries its own copy of `make_request`. It makes at most `max_retries` (3) attempts.
A 403 whose body mentions "rate limit" makes it sleep until just past the `X-RateLimit-Reset` epoch, and that attempt is used up.
A transport error or an error status (`raise_for_status`) makes it sleep `2^attempt` seconds.
On the last attempt such an error is re-raised.
It returns `None` exactly when its last attempt is reached and meets a rate-limited reply with a readable `X-RateLimit-Reset` header, whatever the attempts before it met; an unreadable header raises `ValueError` instead.

The model files:

- `text.dfy` (module `Text`) covers `str.lower`, `str.split` on one character, and substring search.
- `http.dfy` (module `Http`) covers `make_request`.
  - The network is a script of transport outcomes consumed one per call.
  - The clock is an integer that only the recorded sleeps advance.
  - The copies' differing method dispatch is a parameter: the set of supported verbs.
  - The world also logs, in order, the users the scripts ask for (`GET /users/{name}` or `GET /search/users?q={email}`), so the contracts can say who is looked up.
  - `Attempts` is the specification of the loop; `MakeRequest` is the loop itself, proved equal to it, with one pass of its body in `Iteration`.
- `grants.dfy` (module `Grants`) holds what the scripts share once a row is read.
  - The two grant requests.
  - How a row ends up (`Disposition`).
  - The row handler's `except ValueError` / `except Exception` clauses.
  - The per-row loop, as a function `Fold` and a method `ProcessRows` proved equal to it.
  - `process_csv`, which `add_to_orgs.py` and `add_to_repos.py` share line for line, parameterised by the row handler.
- `mannequins.dfy` (module `ProcessMannequins`) covers the live part of `process_mannequins.py`.
- `orgs.dfy` (module `AddToOrgs`) covers `add_to_orgs.py`.
- `repos.dfy` (module `AddToRepos`) covers `add_to_repos.py`.
- `routing.dfy` (module `Routing`) covers how the two five-column scripts split a file between them.

Behaviours of the code worth knowing, which the model follows:

- A rate-limit wait consumes one of the three attempts. A rate-limited reply on the last attempt ends the loop with `None`, not with an exception.
- In `process_mannequins.py` that `None` makes `get_user_id` fail with `AttributeError`, which is logged as an unexpected error.
  It makes `add_user_to_target` log success without anything having been granted (`Submitted(g, answered := false)`).
- `add_to_orgs.py` and `add_to_repos.py` re-raise a failed grant request. Their row handler then logs it as an unexpected error.
  The model records this as `Failed(grant)`, so "never unexpected" in the rows below means no exception other than that re-raised one.
- In `add_to_orgs.py` a failed lookup aborts the row before anything is posted.
  The model records this as `Unexpected(RequestException)`.
- `validate_input` in `process_mannequins.py` tests the role label case-sensitively against the six table keys.
  The five-column scripts lower-case the role first.

## Model

| member | source | states |
|---|---|---|
| Text.Lower | scripts/process_mannequins.py:282 | `lower()` keeps the length, maps each character by itself, leaves no upper-case letter, and leaves an already lower-case string unchanged |
| Text.Split | scripts/process_mannequins.py:280 | `split(sep)` yields at least one part and no part contains the separator |
| Text.JoinSplit | scripts/process_mannequins.py:280 | joining the parts of a split with the separator gives back the original string |
| Text.SplitCount | scripts/process_mannequins.py:280 | a split has exactly one more part than the string has separators |
| Text.SplitHead | scripts/process_mannequins.py:260 | the first part is a prefix of the string; there are two or more parts exactly when the separator occurs; without it the split is the string alone |
| Text.SplitTwo | scripts/process_mannequins.py:280-281 | when a split has exactly two parts, `owner + "/" + repo` is the original target |
| Http.Classify | scripts/process_mannequins.py:234-243 | an outcome is throttling exactly when it is a 403 whose lower-cased body contains "rate limit"; it is a failure exactly when it is a transport error or another 400–599 status; anything else is returned as it is |
| Http.RateLimitWait | scripts/process_mannequins.py:235-238 | the rate-limit sleep is at least one second and ends just past the reset epoch (exactly one second when the epoch has passed) |
| Http.Iteration | scripts/process_mannequins.py:226-248 | one pass of the loop body: it either returns or raises exactly as the specification's current iteration does, or sleeps the rate-limit wait or the backoff and leaves the rest of the run to the next attempt |
| Http.MakeRequest | scripts/process_mannequins.py:220-248 | the attempt loop returns, raises, sleeps and calls exactly as the recursive specification `Attempts` of the loop's iterations says |
| Http.AttemptsFrame | scripts/add_to_orgs.py:30-56 | at most one transport call per remaining attempt, none for a method the copy does not dispatch; every sleep is at least one second and the clock moves by exactly the time slept; the only exceptions are `RequestException` and `ValueError`, or `UnboundLocalError` for an undispatched method |
| Http.SumAtLeastLength | scripts/process_mannequins.py:238 | sleeps of at least a second each add up to at least their count, so the clock never moves back |
| Http.SumBackoffs | scripts/process_mannequins.py:248 | the backoffs `2^lo … 2^(hi-1)` add up to `2^hi - 2^lo` |
| Http.ExhaustedRetries | scripts/process_mannequins.py:241-248 | when every remaining attempt fails, the loop makes one call per attempt, sleeps `2^attempt` after each but the last, and raises `RequestException` |
| Http.TotalBackoff | scripts/process_mannequins.py:225-248 | when every call fails, the total backoff is `2^(max_retries-1) - 1`; with the default three attempts the sleeps are 1 then 2 seconds |
| Http.AllThrottled | scripts/process_mannequins.py:225-239 | when every remaining attempt is rate-limited, the loop sleeps once per attempt, makes one call per attempt and returns `None` without raising |
| Http.NoneExactlyWhenLastThrottled | scripts/process_mannequins.py:225-248 | the loop returns `None` if and only if it makes a call on every attempt and the last call's reply is rate-limited with a readable reset header |
| Http.ThrottledThenAccepted | scripts/process_mannequins.py:225-242 | a rate-limited reply followed by a success costs one wait, ends past the reset epoch, and returns the second reply after two calls |
| Http.ErrorStatusIsNetError | scripts/add_to_repos.py:49-56 | an error status is handled exactly as a transport error: replacing one by the other changes neither the answer, nor the sleeps, nor the call count, nor the clock |
| Grants.Submit | scripts/process_mannequins.py:292-296 | with a method the copy dispatches, the grant request is always made and the row ends by its answer: submitted (with or without a reply) when it returns, failed when it raises `RequestException`, and as the handler catches any other exception, in the world the request left; with a dispatched method that leaves only invalid input (an unreadable reset header); with a method the copy does not dispatch, no call is made and the row ends with `UnboundLocalError`; at most `max_retries` calls |
| Grants.SubmitThrottledThenAccepted | scripts/process_mannequins.py:234-242 | a grant request rate-limited once and then accepted ends submitted with a reply, after two calls and one rate-limit wait |
| Grants.Fold | scripts/process_mannequins.py:310-324 | the loop gives every row exactly one disposition |
| Grants.FoldAppend | scripts/process_mannequins.py:310-324 | handling a file in two parts, the second started in the world the first left, is handling it whole: no row's outcome stops later rows |
| Grants.FoldRow | scripts/process_mannequins.py:317-324 | each row's disposition is what the handler makes of that row alone, in the world the rows before it left |
| Grants.ProcessRows | scripts/add_to_repos.py:72-82 | the row loop returns the dispositions and final world that `Fold` specifies |
| Grants.ProcessCsv | scripts/add_to_orgs.py:80-84 | an empty file escapes with `StopIteration` and no request; otherwise every row after the first gets a disposition, as `Fold` specifies (`add_to_repos.py` has the same function at lines 68-72) |
| ProcessMannequins.DetermineRole | scripts/process_mannequins.py:199-211 | the result is a lower-case GitHub permission; any label outside the six table keys gives `pull`; the result is `admin` exactly for the label `Admin` |
| ProcessMannequins.ValidInputMeans | scripts/process_mannequins.py:213-218 | validation passes exactly for three non-empty fields and one of the six labels spelt exactly, after which `determine_role` never falls back to `pull` |
| ProcessMannequins.LocalPart | scripts/process_mannequins.py:260 | the part before `@` is a prefix of the identifier without `@` that ends right at its first `@`, and is the identifier itself when it has no `@` |
| ProcessMannequins.GetUserId | scripts/process_mannequins.py:250-271 | the identifier is asked for by email search when it has `@` and by name otherwise, and at most once more, by name, for its local part; an email gives the first search hit's id, or when the search finds nobody the lookup of its local part; a username gives the user's `id` (`KeyError` without one); a `RequestException` gives `None`, a `None` reply `AttributeError`, a bad reset header `ValueError`; at most one round of attempts (two for an email), and the clock only moves forward |
| ProcessMannequins.EmailFallback | scripts/process_mannequins.py:254-260 | an email the search does not find resolves as its local part would, in the world the search left: a second request asks for the local part by name, and the result is that user's id, or `None` when that lookup fails |
| ProcessMannequins.AddUserToTarget | scripts/process_mannequins.py:273-296 | no user is asked for beyond the identifier's lookup; a lookup error ends as the handler catches it and a `None` as user-not-found; with an id, a target without `/` gets the invitation, a target with one `/` the collaborator grant, both through `Submit` in the lookup's world, and a target with two or more `/` ends as invalid input with no request |
| ProcessMannequins.SentGrant | scripts/process_mannequins.py:279-290 | a grant sent is a collaborator grant on exactly the `owner/name` target for the identifier with the lower-cased role, or an invitation to the target organization for the looked-up id with role `admin` exactly for an admin role and `member` otherwise |
| ProcessMannequins.NothingSentWithoutUser | scripts/process_mannequins.py:274-277 | when the lookup finds nobody, the row ends as user-not-found and nothing more is sent |
| ProcessMannequins.RowRouting | scripts/process_mannequins.py:308-324 | a row is skipped only when blank; an invalid row ends as invalid input with no request; a valid row goes to `add_user_to_target` with the identifier, target and mapped permission; the first user a valid row asks for is its `mannequin_id`; any grant sent is the one its target and label call for, to the user its lookup found |
| ProcessMannequins.BatchRouting | scripts/process_mannequins.py:308-324 | for every data row of an accepted file, the batch's disposition is skipped only for a blank row, any grant sent matches the row, and an invitation goes to the id found for the row's identifier in the world the earlier rows left |
| ProcessMannequins.ProcessRowsOf | scripts/process_mannequins.py:308-311 | for a file with the exact header (which `main` checks first, and which the by-name cell reads need), the loop over the `DictReader` gives one disposition per row after the header, as `Fold` specifies |
| ProcessMannequins.Provision | scripts/process_mannequins.py:298-332 | a file whose first row is not the exact header is refused with `ValueError` before any request; otherwise every data row is handled |
| AddToOrgs.ValidInputMeans | scripts/add_to_orgs.py:23-28 | for every role, validation passes exactly when it passes for the lower-cased role; a lower-case role passes exactly when it is `admin`, `member` or `owner` |
| AddToOrgs.GetUserId | scripts/add_to_orgs.py:71-78 | the username is asked for by name, once; the lookup returns the user's `id` (`KeyError` without one), re-raises whatever `make_request` raised, raises `AttributeError` on a `None` reply, and makes at most one round of attempts |
| AddToOrgs.AddUserToOrg | scripts/add_to_orgs.py:58-69 | a lookup error ends as the handler catches it, before anything is posted; a found id always leads to the invitation of that id with the lower-cased role, through `Submit`; the only user asked for is the invitee's username; never `UnboundLocalError` |
| AddToOrgs.RowRouting | scripts/add_to_orgs.py:84-94 | a row is skipped exactly when it is not a five-column organization row, with no request; an invalid row ends as invalid input with no request; a valid row goes to `add_user_to_org` with its third, fifth and fourth columns; a valid row asks for exactly one user, its third column, and any invitation goes to the last column's organization for the id found for that user, with an organization role; no other row asks for anyone |
| AddToOrgs.BatchRouting | scripts/add_to_orgs.py:83-94 | every data row's disposition in the batch is skipped exactly when the row is not an organization row, and any invitation matches the row's organization and role and goes to the id found for its third column in the world the earlier rows left |
| AddToRepos.ValidInputMeans | scripts/add_to_repos.py:23-28 | for every permission, validation passes exactly when it passes for the lower-cased permission; a lower-case permission passes exactly when it is `pull`, `push` or `admin` |
| AddToRepos.AddUserToRepo | scripts/add_to_repos.py:58-66 | the PUT for the repository verbatim, the username and the lower-cased permission is always made; the row ends submitted when it returns, failed when it raises `RequestException` (the source's re-raise, logged as an unexpected error), invalid input on a bad reset header; at most `max_retries` calls |
| AddToRepos.RowRouting | scripts/add_to_repos.py:72-82 | a row is skipped exactly when it is not a five-column repository row, with no request; an invalid row ends as invalid input with no request; a valid row goes to `add_user_to_repo` with its third, fifth and fourth columns; no user is looked up; besides the re-raised `RequestException` (recorded as `Failed`) nothing unexpected ends it, and its grant matches its columns |
| AddToRepos.ThrottledRowIsGranted | scripts/add_to_repos.py:72-82 | a valid repository row whose PUT is rate-limited once and then accepted ends submitted with a reply for exactly the grant its columns describe, after two calls |
| AddToRepos.BatchRouting | scripts/add_to_repos.py:71-82 | every data row's disposition in the batch is skipped exactly when the row is not a repository row, never unexpected apart from the re-raise recorded as `Failed`, and any grant matches the row |
| Routing.ExactlyOneScript | scripts/add_to_repos.py:73-75 | run over the same file, each five-column row is handled by exactly one of the two five-column scripts, and rows of any other width by neither |

## Left out

- The commented-out first half of `scripts/process_mannequins.py` (lines 1-175) is dead code and is not modelled.
- HTTP itself is not modelled: URLs, headers, the token and JSON encoding are abstracted. A reply is a status, a body, the reset header and the parts of the JSON the scripts read.
  A body that is not JSON (an exception from `.json()`) is not modelled.
- JSON bodies that are not objects, search items without `id`, and an `items` value that is not a list of objects are not modelled.
  On such bodies the source raises `AttributeError` or `TypeError` (`process_mannequins.py:255,257,268`, `add_to_orgs.py:75`). The model's `Json` has only objects with or without `id` or `items`.
- URLs are not built. A lookup is recorded as the user it asks for; a grant carries the organization, or the repository and user, its URL is made of.
- `requests.utils.quote` on the collaborator name in `process_mannequins.py` is not modelled; the grant records the raw identifier.
- `time.time()` is a float. The model's clock is whole seconds and is advanced only by the script's own sleeps, so time spent in requests is not modelled.
- A script of transport outcomes that runs out answers every further call with a transport error. This stands in for a network that is down.
- Python's `str.lower` is modelled on ASCII letters only. Unicode case mapping is not modelled.
- `raise_for_status` is modelled as raising for every status from 400 to 599.
- Environment variables, the `GITHUB_TOKEN`/`CSV_FILE` checks, `sys.exit`, file existence and opening (`FileNotFoundError`), and the `csv` module's parsing of text are not modelled. A file is given as its already-parsed rows.
- Logging is not modelled. Each log line is represented by the row's `Disposition`.
