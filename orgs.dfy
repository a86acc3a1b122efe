/** `scripts/add_to_orgs.py`: invite the users of a five-column CSV to the
    organizations named in its last column, skipping repository rows. */
module AddToOrgs {
  import opened Text
  import opened Http
  import opened Grants

  /** This copy of `make_request` dispatches GET and POST only. */
  const Supported: set<Verb> := {Get, Post}

  /** `valid_roles`, compared with the lower-cased role. */
  const ValidRoles: set<string> := {"admin", "member", "owner"}

  /** `validate_input`: raises `ValueError` unless this holds. The role test
      lower-cases first, so it ignores case. */
  predicate ValidInput(username: string, org: string, role: string)
  {
    username != "" && org != "" && role != "" && Lower(role) in ValidRoles
  }

  /** `validate_input` ignores the case of the role: a role passes exactly
      when its lower-cased form does, and a role already in lower case passes
      exactly when it is one of the three organization roles. */
  lemma ValidInputMeans(username: string, org: string, role: string)
    ensures ValidInput(username, org, role) == ValidInput(username, org, Lower(role))
    ensures NoUpper(role) ==>
      (ValidInput(username, org, role) <==> username != "" && org != "" && role in {"admin", "member", "owner"})
  {
  }

  /** `get_user_id`: asks for `username` by name; every error propagates, a
      `RequestException` being logged and raised again. */
  function GetUserId(username: string, env: Env): (r: Effect<int>)
    ensures env.calls <= r.env.calls <= env.calls + MaxRetries
    ensures r.env.lookups == env.lookups + [ByName(username)]
    ensures r.result.Raised? ==> r.result.exc in {RequestException, ValueError, AttributeError, KeyError}
    ensures var run := Attempts(Get, Supported, Asking(env, ByName(username)), 0, MaxRetries);
      && r.env == run.env
      && (run.answer.Raised? ==> r.result == Raised(run.answer.exc))
      && (run.answer == Ok(None) ==> r.result == Raised(AttributeError))
      && (run.answer.Ok? && run.answer.value.Some? ==>
            var json := run.answer.value.value.json;
            r.result == if json.UserJson? then Ok(json.id) else Raised(KeyError))
  {
    var run := Attempts(Get, Supported, Asking(env, ByName(username)), 0, MaxRetries);
    AttemptsFrame(Get, Supported, Asking(env, ByName(username)), 0, MaxRetries);
    match run.answer
    case Raised(e) => Effect(Raised(e), run.env)
    case Ok(None) => Effect(Raised(AttributeError), run.env)
    case Ok(Some(reply)) =>
      if reply.json.UserJson? then Effect(Ok(reply.json.id), run.env)
      else Effect(Raised(KeyError), run.env)
  }

  /** `add_user_to_org`: the invitee id comes from looking the user up (an
      error there propagates before anything is posted), the role is sent
      lower-cased. */
  function AddUserToOrg(username: string, org: string, role: string, env: Env): (h: Handled)
    ensures !h.disposition.Skipped? && !h.disposition.UserNotFound?
    ensures h.disposition != Unexpected(UnboundLocalError)
    ensures h.env.lookups == env.lookups + [ByName(username)]
    ensures h.disposition.Failed? || h.disposition.Submitted? ==>
      && GetUserId(username, env).result.Ok?
      && h.disposition.grant == Invite(org, GetUserId(username, env).result.value, Lower(role))
    ensures var lookup := GetUserId(username, env);
      && (lookup.result.Raised? ==> h == Catch(lookup.result.exc, lookup.env))
      && (lookup.result.Ok? ==> h == Submit(Invite(org, lookup.result.value, Lower(role)), Supported, lookup.env))
  {
    var lookup := GetUserId(username, env);
    match lookup.result
    case Raised(e) => Catch(e, lookup.env)
    case Ok(userId) =>
      assert VerbOf(Invite(org, userId, Lower(role))) in Supported;
      Submit(Invite(org, userId, Lower(role)), Supported, lookup.env)
  }

  /** The rows `process_csv` works on: exactly five columns and a target
      without `/`. */
  predicate Handles(row: seq<string>)
  {
    |row| == 5 && '/' !in row[4]
  }

  /** The body of the loop in `process_csv` for one row
      `mannequin_user, mannequin_id, target_user, role, target`. */
  function HandleRow(row: seq<string>, env: Env): (h: Handled)
  {
    if !Handles(row) then Handled(Skipped, env)
    else if !ValidInput(row[2], row[4], row[3]) then Handled(InvalidInput, env)
    else AddUserToOrg(row[2], row[4], row[3], env)
  }

  /** A row is passed over exactly when it is not a five-column organization
      row, and then without any request; a row that fails validation ends as
      invalid input without a request; any other goes to `add_user_to_org`
      with its third, fifth and fourth columns. A row that reaches an
      invitation invites the organization in its last column, with a role
      that is an organization role. A handled valid row asks for exactly one
      user, the one its third column names (not the mannequin id), and
      invites the id found for that name; no other row asks for anyone. Such
      a row never ends with an unexpected `UnboundLocalError`: POST is a
      method this copy dispatches. */
  lemma RowRouting(row: seq<string>, env: Env)
    ensures var h := HandleRow(row, env);
      && (h.disposition.Skipped? <==> !Handles(row))
      && (!Handles(row) ==> h.env == env)
      && (Handles(row) && !ValidInput(row[2], row[4], row[3]) ==> h == Handled(InvalidInput, env))
      && (Handles(row) && ValidInput(row[2], row[4], row[3]) ==> h == AddUserToOrg(row[2], row[4], row[3], env))
      && h.env.lookups == env.lookups + (if Handles(row) && ValidInput(row[2], row[4], row[3]) then [ByName(row[2])] else [])
      && (h.disposition.Failed? || h.disposition.Submitted? ==>
            && Handles(row)
            && h.disposition.grant.Invite?
            && h.disposition.grant.org == row[4]
            && h.disposition.grant.role == Lower(row[3])
            && h.disposition.grant.role in {"admin", "member", "owner"}
            && GetUserId(row[2], env).result == Ok(h.disposition.grant.inviteeId))
      && h.disposition != Unexpected(UnboundLocalError)
  {
  }

  /** For every row after the first, the batch gives the disposition the row
      alone calls for: skipped exactly when it is not a five-column
      organization row, and otherwise an invitation as `RowRouting` says: of
      the row's organization, with its role, for the id that looking up the
      row's third column found in the world the earlier rows left. */
  lemma BatchRouting(rows: seq<seq<string>>, env: Env, i: nat)
    requires 1 <= i < |rows|
    ensures var d := Fold(HandleRow, rows[1..], env).dispositions[i - 1];
      && (d.Skipped? <==> !Handles(rows[i]))
      && (d.Failed? || d.Submitted? ==>
            && d.grant.Invite? && d.grant.org == rows[i][4] && d.grant.role == Lower(rows[i][3])
            && GetUserId(rows[i][2], Fold(HandleRow, rows[1..][..i - 1], env).env).result == Ok(d.grant.inviteeId))
  {
    assert rows[1..][i - 1] == rows[i];
    FoldRow(HandleRow, rows[1..], env, i - 1);
    RowRouting(rows[i], Fold(HandleRow, rows[1..][..i - 1], env).env);
  }
}
