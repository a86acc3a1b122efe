/** `scripts/add_to_repos.py`: add the users of a five-column CSV as
    collaborators on the repositories named in its last column, skipping
    organization rows. */
module AddToRepos {
  import opened Text
  import opened Http
  import opened Grants

  /** This copy of `make_request` dispatches GET and PUT only. */
  const Supported: set<Verb> := {Get, Put}

  /** `valid_permissions`, compared with the lower-cased permission. */
  const ValidPermissions: set<string> := {"pull", "push", "admin"}

  /** `validate_input`: raises `ValueError` unless this holds; case is ignored
      in the permission. */
  predicate ValidInput(username: string, repo: string, permission: string)
  {
    username != "" && repo != "" && permission != "" && Lower(permission) in ValidPermissions
  }

  /** `validate_input` ignores the case of the permission: a permission
      passes exactly when its lower-cased form does, and one already in lower
      case passes exactly when it is one of the three repository
      permissions. */
  lemma ValidInputMeans(username: string, repo: string, permission: string)
    ensures ValidInput(username, repo, permission) == ValidInput(username, repo, Lower(permission))
    ensures NoUpper(permission) ==>
      (ValidInput(username, repo, permission) <==> username != "" && repo != "" && permission in {"pull", "push", "admin"})
  {
  }

  /** `add_user_to_repo`: the repository string goes into the URL as it is
      (any number of `/`), the username as the collaborator, and the
      permission lower-cased into the body. No user lookup is made. */
  function AddUserToRepo(username: string, repo: string, permission: string, env: Env): (h: Handled)
    ensures !h.disposition.Skipped? && !h.disposition.UserNotFound? && !h.disposition.Unexpected?
    ensures h.disposition.Failed? || h.disposition.Submitted? ==>
      h.disposition.grant == Collaborate(repo, username, Lower(permission))
    ensures env.calls <= h.env.calls <= env.calls + MaxRetries
    ensures var run := Attempts(Put, Supported, env, 0, MaxRetries);
      var g := Collaborate(repo, username, Lower(permission));
      && h.env == run.env
      && (run.answer.Ok? ==> h.disposition == Submitted(g, run.answer.value.Some?))
      && (run.answer == Raised(RequestException) ==> h.disposition == Failed(g))
      && (run.answer == Raised(ValueError) ==> h.disposition == InvalidInput)
  {
    Submit(Collaborate(repo, username, Lower(permission)), Supported, env)
  }

  /** The rows `process_csv` works on: exactly five columns and a target
      with `/`. */
  predicate Handles(row: seq<string>)
  {
    |row| == 5 && '/' in row[4]
  }

  /** The body of the loop in `process_csv` for one row
      `mannequin_user, mannequin_id, target_user, role, target`. */
  function HandleRow(row: seq<string>, env: Env): (h: Handled)
  {
    if !Handles(row) then Handled(Skipped, env)
    else if !ValidInput(row[2], row[4], row[3]) then Handled(InvalidInput, env)
    else AddUserToRepo(row[2], row[4], row[3], env)
  }

  /** A row is passed over exactly when it is not a five-column repository
      row, and then without any request; a row that fails validation ends as
      invalid input without a request; any other goes to `add_user_to_repo`
      with its third, fifth and fourth columns. A handled row never ends as
      an unexpected error other than the re-raised `RequestException`, which
      the model records as `Failed`: the only other exception its one request
      can raise is the `ValueError` of a bad rate-limit header (invalid
      input). A request it sends targets the repository in its last column
      verbatim, for the user its third column names, with the lower-cased
      role as permission. This script looks no user up: the username goes
      into the request as it is. */
  lemma RowRouting(row: seq<string>, env: Env)
    ensures var h := HandleRow(row, env);
      && (h.disposition.Skipped? <==> !Handles(row))
      && (!Handles(row) ==> h.env == env)
      && (Handles(row) && !ValidInput(row[2], row[4], row[3]) ==> h == Handled(InvalidInput, env))
      && (Handles(row) && ValidInput(row[2], row[4], row[3]) ==> h == AddUserToRepo(row[2], row[4], row[3], env))
      && !h.disposition.Unexpected?
      && !h.disposition.UserNotFound?
      && h.env.lookups == env.lookups
      && (h.disposition.Failed? || h.disposition.Submitted? ==>
            && Handles(row)
            && h.disposition.grant == Collaborate(row[4], row[2], Lower(row[3]))
            && h.disposition.grant.permission in {"pull", "push", "admin"})
  {
  }

  /** The end-to-end case: a valid repository row whose PUT is rate-limited
      once and then accepted ends submitted, with an answer, for exactly the
      grant its columns describe, after one wait and two calls. */
  lemma ThrottledRowIsGranted(row: seq<string>, env: Env, reset: int, reply: Reply)
    requires Handles(row) && ValidInput(row[2], row[4], row[3])
    requires Classify(At(env.script, env.calls)) == Throttled(Epoch(reset))
    requires Classify(At(env.script, env.calls + 1)) == Accepted(reply)
    ensures var h := HandleRow(row, env);
      && h.disposition == Submitted(Collaborate(row[4], row[2], Lower(row[3])), true)
      && h.env.calls == env.calls + 2
  {
    SubmitThrottledThenAccepted(Collaborate(row[4], row[2], Lower(row[3])), Supported, env, reset, reply);
  }

  /** For every row after the first, the batch gives the disposition the row
      alone calls for; in particular no row of this script ever ends as an
      unexpected error. */
  lemma BatchRouting(rows: seq<seq<string>>, env: Env, i: nat)
    requires 1 <= i < |rows|
    ensures var d := Fold(HandleRow, rows[1..], env).dispositions[i - 1];
      && (d.Skipped? <==> !Handles(rows[i]))
      && !d.Unexpected?
      && (d.Failed? || d.Submitted? ==> d.grant == Collaborate(rows[i][4], rows[i][2], Lower(rows[i][3])))
  {
    assert rows[1..][i - 1] == rows[i];
    FoldRow(HandleRow, rows[1..], env, i - 1);
    RowRouting(rows[i], Fold(HandleRow, rows[1..][..i - 1], env).env);
  }
}
