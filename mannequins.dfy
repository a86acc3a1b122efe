/** `scripts/process_mannequins.py` (its live second half): reclaim mannequins
    listed in a four-column CSV by inviting each user to an organization or
    adding them as a collaborator on a repository, depending on the target. */
module ProcessMannequins {
  import opened Text
  import opened Http
  import opened Grants

  /** The header `validate_csv` insists on. */
  const Header: seq<string> := ["mannequin_username", "mannequin_id", "role", "target"]

  /** This copy of `make_request` dispatches all three methods. */
  const Supported: set<Verb> := {Get, Post, Put}

  /** `get_github_roles()`: source role label to GitHub permission. */
  const GithubRoles: map<string, string> := map[
    "Admin" := "admin",
    "Member" := "member",
    "Owner" := "owner",
    "Read" := "pull",
    "Write" := "push",
    "Contributor" := "pull"
  ]

  /** `determine_role`: total; the six labels of the table map to their entry
      and every other label to `pull`. The result is a lower-case permission,
      and it is `admin` exactly for the label `Admin`. */
  function DetermineRole(mannequinRole: string): (permission: string)
    ensures permission in {"admin", "member", "owner", "pull", "push"}
    ensures mannequinRole !in {"Admin", "Member", "Owner", "Read", "Write", "Contributor"} ==> permission == "pull"
    ensures permission == "admin" <==> mannequinRole == "Admin"
    ensures NoUpper(permission)
  {
    if mannequinRole in GithubRoles then GithubRoles[mannequinRole] else "pull"
  }

  /** A CSV field as `csv.DictReader` gives it: `None` when the row is too
      short to have that column. */
  function Cell(row: seq<string>, k: nat): (c: Option<string>)
    ensures c.Some? <==> k < |row|
    ensures c.Some? ==> c.value == row[k]
  {
    if k < |row| then Some(row[k]) else None
  }

  /** Python truthiness of a field: present and not empty. */
  predicate Provided(c: Option<string>)
  {
    c.Some? && c.value != ""
  }

  /** `validate_input`: raises `ValueError` unless this holds. The role test is
      membership in the table's keys, so it is case-sensitive. */
  predicate ValidInput(identifier: Option<string>, target: Option<string>, role: Option<string>)
  {
    Provided(identifier) && Provided(target) && Provided(role) && role.value in GithubRoles
  }

  /** `validate_input` passes exactly for three non-empty fields and one of the
      six labels, spelt exactly; after it passes, `determine_role` finds the
      label in the table, so its `pull` default is never used by the batch. */
  lemma ValidInputMeans(identifier: Option<string>, target: Option<string>, role: Option<string>)
    ensures ValidInput(identifier, target, role) <==>
      && identifier.Some? && identifier.value != ""
      && target.Some? && target.value != ""
      && role.Some? && role.value in {"Admin", "Member", "Owner", "Read", "Write", "Contributor"}
    ensures ValidInput(identifier, target, role) ==> DetermineRole(role.value) == GithubRoles[role.value]
  {
  }

  /** `identifier.split('@')[0]`: the identifier up to its first `@`, or the
      whole identifier when it has none. */
  function LocalPart(identifier: string): (local: string)
    ensures '@' !in local
    ensures local <= identifier
    ensures '@' !in identifier ==> local == identifier
    ensures '@' in identifier ==> |local| < |identifier| && identifier[|local|] == '@'
  {
    var parts := Split(identifier, '@');
    SplitHead(identifier, '@');
    JoinSplit(identifier, '@');
    if |parts| >= 2 then
      assert Join(parts, '@') == parts[0] + ['@'] + Join(parts[1..], '@');
      parts[0]
    else parts[0]
  }

  /** The request `get_user_id` makes for an identifier: a user search for an
      email, the user by name otherwise. */
  function LookupOf(identifier: string): Lookup
  {
    if '@' in identifier then ByEmail(identifier) else ByName(identifier)
  }

  /** `get_user_id`: an identifier with `@` is searched for as an email and,
      when the search finds nobody, looked up again by its local part; any
      other identifier is looked up as a username. A `RequestException` gives
      `None`; other exceptions propagate. Since the local part has no `@`, the
      fallback is one level deep: a lookup asks for the identifier and at
      most once more for its local part, makes at most one round of attempts
      per request, and the clock only moves forward. */
  function GetUserId(identifier: string, env: Env): (r: Effect<Option<int>>)
    ensures env.calls <= r.env.calls <= env.calls + (if '@' in identifier then 2 else 1) * MaxRetries
    ensures env.now <= r.env.now
    ensures r.env.lookups == env.lookups + [LookupOf(identifier)]
         || ('@' in identifier && r.env.lookups == env.lookups + [ByEmail(identifier), ByName(LocalPart(identifier))])
    ensures r.result.Raised? ==> r.result.exc in {ValueError, AttributeError, KeyError}
    ensures var run := Attempts(Get, Supported, Asking(env, LookupOf(identifier)), 0, MaxRetries);
      && (run.answer == Raised(RequestException) ==> r == Effect(Ok(None), run.env))
      && (run.answer == Raised(ValueError) ==> r == Effect(Raised(ValueError), run.env))
      && (run.answer == Ok(None) ==> r == Effect(Raised(AttributeError), run.env))
      && (run.answer.Ok? && run.answer.value.Some? ==>
            var json := run.answer.value.value.json;
            && ('@' in identifier && json.SearchJson? && json.items != [] ==>
                  r == Effect(Ok(Some(json.items[0])), run.env))
            && ('@' in identifier && (!json.SearchJson? || json.items == []) ==>
                  r == GetUserId(LocalPart(identifier), run.env))
            && ('@' !in identifier && json.UserJson? ==> r == Effect(Ok(Some(json.id)), run.env))
            && ('@' !in identifier && !json.UserJson? ==> r == Effect(Raised(KeyError), run.env)))
    decreases if '@' in identifier then 1 else 0
  {
    var run := Attempts(Get, Supported, Asking(env, LookupOf(identifier)), 0, MaxRetries);
    AttemptsFrame(Get, Supported, Asking(env, LookupOf(identifier)), 0, MaxRetries);
    SumAtLeastLength(run.sleeps);
    match run.answer
    case Raised(e) => Effect(if e == RequestException then Ok(None) else Raised(e), run.env)
    case Ok(None) => Effect(Raised(AttributeError), run.env)
    case Ok(Some(reply)) =>
      if '@' in identifier then
        var users := if reply.json.SearchJson? then reply.json.items else [];
        if users != [] then Effect(Ok(Some(users[0])), run.env)
        else
          var r := GetUserId(LocalPart(identifier), run.env);
          assert (env.lookups + [ByEmail(identifier)]) + [ByName(LocalPart(identifier))]
              == env.lookups + [ByEmail(identifier), ByName(LocalPart(identifier))];
          r
      else if reply.json.UserJson? then Effect(Ok(Some(reply.json.id)), run.env)
      else Effect(Raised(KeyError), run.env)
  }

  /** An email the search does not find is resolved exactly as its local
      part (the text before its first `@`) would be, in the world the search
      left: a second request asks for that name, and the result is the id of
      that username, or `None` when that lookup fails. */
  lemma EmailFallback(identifier: string, env: Env, reply: Reply)
    requires '@' in identifier
    requires Attempts(Get, Supported, Asking(env, ByEmail(identifier)), 0, MaxRetries).answer == Ok(Some(reply))
    requires !reply.json.SearchJson? || reply.json.items == []
    ensures var searched := Attempts(Get, Supported, Asking(env, ByEmail(identifier)), 0, MaxRetries).env;
      var byName := Attempts(Get, Supported, Asking(searched, ByName(LocalPart(identifier))), 0, MaxRetries);
      && GetUserId(identifier, env) == GetUserId(LocalPart(identifier), searched)
      && GetUserId(identifier, env).env.lookups == env.lookups + [ByEmail(identifier), ByName(LocalPart(identifier))]
      && (byName.answer.Ok? && byName.answer.value.Some? && byName.answer.value.value.json.UserJson? ==>
            GetUserId(identifier, env).result == Ok(Some(byName.answer.value.value.json.id)))
      && (byName.answer == Raised(RequestException) ==> GetUserId(identifier, env).result == Ok(None))
  {
    var searched := Attempts(Get, Supported, Asking(env, ByEmail(identifier)), 0, MaxRetries).env;
    AttemptsFrame(Get, Supported, Asking(env, ByEmail(identifier)), 0, MaxRetries);
    assert '@' !in LocalPart(identifier);
    assert GetUserId(identifier, env) == GetUserId(LocalPart(identifier), searched);
    assert (env.lookups + [ByEmail(identifier)]) + [ByName(LocalPart(identifier))]
        == env.lookups + [ByEmail(identifier), ByName(LocalPart(identifier))];
  }

  /** `add_user_to_target`: nothing is sent without a user id. A target with
      `/` must split into exactly `owner` and `name` (else `ValueError`) and
      gets a PUT on that repository for the identifier, with the lower-cased
      role; any other target gets an invitation to the found user whose role
      is `admin` when the role is `admin` in any case, and `member` otherwise. */
  function AddUserToTarget(identifier: string, target: string, role: string, env: Env): (h: Handled)
    ensures !h.disposition.Skipped?
    ensures h.env.lookups == GetUserId(identifier, env).env.lookups
    ensures var lookup := GetUserId(identifier, env);
      && (lookup.result.Raised? ==> h == Catch(lookup.result.exc, lookup.env))
      && (lookup.result == Ok(None) ==> h == Handled(UserNotFound, lookup.env))
      && (lookup.result.Ok? && lookup.result.value.Some? ==>
            var userId := lookup.result.value.value;
            && ('/' !in target ==>
                  h == Submit(Invite(target, userId, if Lower(role) == "admin" then "admin" else "member"), Supported, lookup.env))
            && (Count(target, '/') == 1 ==>
                  h == Submit(Collaborate(target, identifier, Lower(role)), Supported, lookup.env))
            && (Count(target, '/') >= 2 ==> h == Handled(InvalidInput, lookup.env)))
  {
    var lookup := GetUserId(identifier, env);
    match lookup.result
    case Raised(e) => Catch(e, lookup.env)
    case Ok(None) => Handled(UserNotFound, lookup.env)
    case Ok(Some(userId)) =>
      if '/' in target then
        var parts := Split(target, '/');
        SplitHead(target, '/');
        SplitCount(target, '/');
        if |parts| != 2 then Catch(ValueError, lookup.env)
        else
          SplitTwo(target, '/');
          Submit(Collaborate(parts[0] + "/" + parts[1], identifier, Lower(role)), Supported, lookup.env)
      else
        Submit(Invite(target, userId, if Lower(role) == "admin" then "admin" else "member"), Supported, lookup.env)
  }

  /** A grant `add_user_to_target` sends is the one its target calls for: a
      collaborator grant on exactly that `owner/name` (one `/`) for the
      identifier with the lower-cased role, or an invitation to the
      organization for the looked-up id with role `admin` exactly when the
      role is admin, and `member` otherwise. */
  lemma SentGrant(identifier: string, target: string, role: string, env: Env)
    ensures var h := AddUserToTarget(identifier, target, role, env);
      h.disposition.Failed? || h.disposition.Submitted? ==>
      var g := h.disposition.grant;
      && (g.Collaborate? <==> '/' in target)
      && (g.Collaborate? ==> g == Collaborate(target, identifier, Lower(role)) && Count(target, '/') == 1)
      && (g.Invite? ==>
            && g.org == target && g.role in {"admin", "member"}
            && (g.role == "admin" <==> Lower(role) == "admin")
            && GetUserId(identifier, env).result == Ok(Some(g.inviteeId)))
  {
    var lookup := GetUserId(identifier, env);
    var h := AddUserToTarget(identifier, target, role, env);
    SplitHead(target, '/');
    SplitCount(target, '/');
    if lookup.result.Raised? {
      assert h == Catch(lookup.result.exc, lookup.env);
    } else if lookup.result.value.None? {
      assert h.disposition == UserNotFound;
    } else if Count(target, '/') >= 2 {
      assert h.disposition == InvalidInput;
    } else {
      var userId := lookup.result.value.value;
      if '/' !in target {
        var g := Invite(target, userId, if Lower(role) == "admin" then "admin" else "member");
        assert h == Submit(g, Supported, lookup.env);
        assert h.disposition.Failed? || h.disposition.Submitted? ==> h.disposition.grant == g;
      } else {
        var g := Collaborate(target, identifier, Lower(role));
        assert h == Submit(g, Supported, lookup.env);
        assert h.disposition.Failed? || h.disposition.Submitted? ==> h.disposition.grant == g;
      }
    }
  }

  /** A lookup that finds nobody ends the row without sending anything more. */
  lemma NothingSentWithoutUser(identifier: string, target: string, role: string, env: Env)
    requires GetUserId(identifier, env).result == Ok(None)
    ensures AddUserToTarget(identifier, target, role, env) == Handled(UserNotFound, GetUserId(identifier, env).env)
  {
  }

  /** The grant a row produced, as it relates to the row: repository targets
      (those with `/`) get a collaborator request on exactly that `owner/name`
      for the identifier, with the mapped permission; organization targets get
      an invitation whose role is `admin` for the label `Admin` and `member`
      for every other label, `Owner` included. The label is one of the table's
      keys, so the mapped permission is never the `pull` default. */
  predicate Routed(row: seq<string>, g: Grant)
  {
    && |row| >= 4
    && row[2] in GithubRoles
    && (g.Collaborate? <==> '/' in row[3])
    && (g.Collaborate? ==>
          && g.repo == row[3] && Count(row[3], '/') == 1
          && g.user == row[1] && g.permission == GithubRoles[row[2]])
    && (g.Invite? ==>
          && g.org == row[3] && g.role in {"admin", "member"}
          && (g.role == "admin" <==> row[2] == "Admin"))
  }

  /** Whatever the network does, a row that reaches a grant request sends the
      request its target calls for, to the user its lookup found; a row is
      skipped only when it is blank, ends as invalid input without a request
      when validation fails, and otherwise goes to `add_user_to_target` with
      the identifier, the target and the mapped permission. The first user
      such a row asks for is the one in its `mannequin_id` column, not its
      `mannequin_username`. */
  lemma RowRouting(row: seq<string>, env: Env)
    ensures var h := HandleRow(row, env);
      var d := h.disposition;
      && (d.Skipped? <==> row == [])
      && (row == [] ==> h.env == env)
      && (row != [] && !ValidInput(Cell(row, 1), Cell(row, 3), Cell(row, 2)) ==> h == Handled(InvalidInput, env))
      && (row != [] && ValidInput(Cell(row, 1), Cell(row, 3), Cell(row, 2)) ==>
            && h == AddUserToTarget(row[1], row[3], GithubRoles[row[2]], env)
            && |env.lookups| < |h.env.lookups|
            && h.env.lookups[|env.lookups|] == LookupOf(row[1]))
      && (d.Failed? || d.Submitted? ==>
            && Routed(row, d.grant)
            && (d.grant.Invite? ==> GetUserId(row[1], env).result == Ok(Some(d.grant.inviteeId))))
  {
    if row != [] && ValidInput(Cell(row, 1), Cell(row, 3), Cell(row, 2)) {
      var role := DetermineRole(row[2]);
      assert Lower(role) == role;
      SentGrant(row[1], row[3], role, env);
    }
  }

  /** The same for the batch: for every data row of an accepted file, the
      row's disposition is `Skipped` only for a blank row, and any request
      sent for it is the one `Routed` describes; an invitation goes to the id
      found for the row's identifier in the world the earlier rows left. */
  lemma BatchRouting(rows: seq<seq<string>>, env: Env, i: nat)
    requires ValidCsv(rows) && 1 <= i < |rows|
    ensures var d := Fold(HandleRow, rows[1..], env).dispositions[i - 1];
      && (d.Skipped? <==> rows[i] == [])
      && (d.Failed? || d.Submitted? ==> Routed(rows[i], d.grant))
      && (d.Failed? || d.Submitted? ==> d.grant.Invite? ==>
            GetUserId(rows[i][1], Fold(HandleRow, rows[1..][..i - 1], env).env).result == Ok(Some(d.grant.inviteeId)))
  {
    assert rows[1..][i - 1] == rows[i];
    FoldRow(HandleRow, rows[1..], env, i - 1);
    RowRouting(rows[i], Fold(HandleRow, rows[1..][..i - 1], env).env);
  }

  /** The body of the loop in `process_mannequins` for one `DictReader` row
      (blank rows never reach it). */
  function HandleRow(row: seq<string>, env: Env): (h: Handled)
  {
    if row == [] then Handled(Skipped, env)
    else
      var identifier, role, target := Cell(row, 1), Cell(row, 2), Cell(row, 3);
      if !ValidInput(identifier, target, role) then Handled(InvalidInput, env)
      else AddUserToTarget(identifier.value, target.value, DetermineRole(role.value), env)
  }

  /** `validate_csv`, header part: the first row must be exactly the header. */
  predicate ValidCsv(rows: seq<seq<string>>)
  {
    |rows| > 0 && rows[0] == Header
  }

  /** `process_mannequins`: `DictReader` takes the first row as field names
      and the loop handles every later row. The cells are read by field name
      outside the per-row `try`, so reading them by position is only right
      once the header is the exact one `main` has already checked. */
  method ProcessRowsOf(rows: seq<seq<string>>, env: Env) returns (dispositions: seq<Disposition>, env': Env)
    requires ValidCsv(rows)
    ensures Folded(dispositions, env') == Fold(HandleRow, rows[1..], env)
    ensures |dispositions| == |rows| - 1
  {
    dispositions, env' := ProcessRows(HandleRow, rows[1..], env);
  }

  /** `main`: a file whose header is wrong is refused with `ValueError` (exit
      status 1) before any row is handled or any request made; otherwise every
      data row gets a disposition. */
  method Provision(rows: seq<seq<string>>, env: Env) returns (batch: Batch, env': Env)
    ensures !ValidCsv(rows) <==> batch.Aborted?
    ensures batch.Aborted? ==> batch.exc == ValueError && env' == env
    ensures batch.Completed? ==>
      Folded(batch.dispositions, env') == Fold(HandleRow, rows[1..], env) && |batch.dispositions| == |rows| - 1
  {
    if !ValidCsv(rows) {
      return Aborted(ValueError), env;
    }
    var dispositions;
    dispositions, env' := ProcessRowsOf(rows, env);
    batch := Completed(dispositions);
  }
}
