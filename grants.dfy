/** What the three scripts share once a row has been read: the two grant
    requests they send, how a row ends up, and the loop over the rows in which
    each row's exception is caught so the next row is still processed. */
module Grants {
  import opened Text
  import opened Http

  /** The two write requests: `POST /orgs/{org}/invitations` with body
      `{invitee_id, role}`, and
      `PUT /repos/{repo}/collaborators/{user}` with body `{permission}`, where
      `repo` is the `owner/name` path. */
  datatype Grant =
    | Invite(org: string, inviteeId: int, role: string)
    | Collaborate(repo: string, user: string, permission: string)

  function VerbOf(g: Grant): (v: Verb)
    ensures v == Post || v == Put
    ensures v == Post <==> g.Invite?
  {
    match g
    case Invite(_, _, _) => Post
    case Collaborate(_, _, _) => Put
  }

  /** How one row ends up. */
  datatype Disposition =
    | Skipped                                // the script's loop passes over the row silently
    | InvalidInput                           // a `ValueError` reached the row's handler
    | Unexpected(exc: Exc)                   // any other exception reached the row's handler
    | UserNotFound                           // the lookup gave no id; logged, nothing sent
    | Failed(grant: Grant)                   // the grant request raised after its last attempt
    | Submitted(grant: Grant, answered: bool) // the grant request returned; `answered` is false
                                             // when every attempt was rate-limited

  /** A row's disposition and the world after handling it. */
  datatype Handled = Handled(disposition: Disposition, env: Env)

  /** The row handler's two `except` clauses: `ValueError` is logged as invalid
      input, every other exception as unexpected. */
  function Catch(e: Exc, env: Env): (h: Handled)
    ensures h.env == env
    ensures h.disposition == InvalidInput <==> e == ValueError
    ensures h.disposition.Unexpected? <==> e != ValueError
  {
    Handled(if e == ValueError then InvalidInput else Unexpected(e), env)
  }

  /** Sends grant `g` through a `make_request` that dispatches `supported`.
      The request is always made: the row ends as `Submitted(g)` when the
      call returns, `Failed(g)` when it raises `RequestException`, and as the
      row handler catches any other exception; the world is the one the
      request left. With a dispatched method, the only other exception is the
      `ValueError` of an unparsable rate-limit header. */
  function Submit(g: Grant, supported: set<Verb>, env: Env): (h: Handled)
    ensures var run := Attempts(VerbOf(g), supported, env, 0, MaxRetries);
      && h.env == run.env
      && (run.answer.Ok? ==> h.disposition == Submitted(g, run.answer.value.Some?))
      && (run.answer == Raised(RequestException) ==> h.disposition == Failed(g))
      && (run.answer.Raised? && run.answer.exc != RequestException ==> h == Catch(run.answer.exc, run.env))
    ensures VerbOf(g) in supported ==>
      h.disposition.Submitted? || h.disposition.Failed? || h.disposition == InvalidInput
    ensures VerbOf(g) !in supported ==> h == Handled(Unexpected(UnboundLocalError), env)
    ensures env.calls <= h.env.calls <= env.calls + MaxRetries
    ensures h.env.lookups == env.lookups
  {
    var run := Attempts(VerbOf(g), supported, env, 0, MaxRetries);
    AttemptsFrame(VerbOf(g), supported, env, 0, MaxRetries);
    match run.answer
    case Ok(response) => Handled(Submitted(g, response.Some?), run.env)
    case Raised(e) => if e == RequestException then Handled(Failed(g), run.env) else Catch(e, run.env)
  }

  /** The end-to-end case of a rate-limited grant request: a rate-limited
      reply and then an accepted one send the grant after one wait, and the
      row ends submitted with an answer. */
  lemma SubmitThrottledThenAccepted(g: Grant, supported: set<Verb>, env: Env, reset: int, reply: Reply)
    requires VerbOf(g) in supported
    requires Classify(At(env.script, env.calls)) == Throttled(Epoch(reset))
    requires Classify(At(env.script, env.calls + 1)) == Accepted(reply)
    ensures var h := Submit(g, supported, env);
      && h.disposition == Submitted(g, true)
      && h.env.calls == env.calls + 2
      && h.env.now == env.now + RateLimitWait(reset, env.now)
  {
    ThrottledThenAccepted(VerbOf(g), supported, env, reset, reply);
    AttemptsFrame(VerbOf(g), supported, env, 0, MaxRetries);
  }

  /** The dispositions of a run of rows and the world after the last one. */
  datatype Folded = Folded(dispositions: seq<Disposition>, env: Env)

  /** Handles the rows in order, threading the world through; every row gets
      exactly one disposition, whatever happened to the rows before it. */
  function Fold(handle: (seq<string>, Env) -> Handled, rows: seq<seq<string>>, env: Env): (r: Folded)
    ensures |r.dispositions| == |rows|
    decreases |rows|
  {
    if rows == [] then Folded([], env)
    else
      var first := handle(rows[0], env);
      var rest := Fold(handle, rows[1..], first.env);
      Folded([first.disposition] + rest.dispositions, rest.env)
  }

  function Then(done: seq<Disposition>, r: Folded): Folded
  {
    r.(dispositions := done + r.dispositions)
  }

  /** Per-row isolation: a batch is its first part followed by its second part
      started in the world the first part left, so no outcome of an earlier row
      stops a later row from being handled. */
  lemma {:induction false} FoldAppend(handle: (seq<string>, Env) -> Handled, a: seq<seq<string>>, b: seq<seq<string>>, env: Env)
    ensures Fold(handle, a + b, env) == Then(Fold(handle, a, env).dispositions, Fold(handle, b, Fold(handle, a, env).env))
    decreases |a|
  {
    if a != [] {
      var first := handle(a[0], env);
      assert (a + b)[0] == a[0];
      assert (a + b)[1..] == a[1..] + b;
      FoldAppend(handle, a[1..], b, first.env);
    } else {
      assert a + b == b;
    }
  }

  /** Row `i`'s disposition is what the handler makes of row `i` alone, in
      the world the rows before it left. */
  lemma FoldRow(handle: (seq<string>, Env) -> Handled, rows: seq<seq<string>>, env: Env, i: nat)
    requires i < |rows|
    ensures Fold(handle, rows, env).dispositions[i]
         == handle(rows[i], Fold(handle, rows[..i], env).env).disposition
  {
    var before := Fold(handle, rows[..i], env);
    assert rows == rows[..i] + rows[i..];
    FoldAppend(handle, rows[..i], rows[i..], env);
    assert rows[i..][0] == rows[i];
  }

  /** How a whole run of a script ends: every data row handled, or an
      exception that escaped before the loop began (the process exits 1). */
  datatype Batch = Completed(dispositions: seq<Disposition>) | Aborted(exc: Exc)

  /** `for row in reader:` with `try … except` around each row's work. */
  method ProcessRows(handle: (seq<string>, Env) -> Handled, rows: seq<seq<string>>, env: Env)
    returns (dispositions: seq<Disposition>, env': Env)
    ensures Folded(dispositions, env') == Fold(handle, rows, env)
  {
    dispositions, env' := [], env;
    var i := 0;
    while i < |rows|
      invariant 0 <= i <= |rows|
      invariant Fold(handle, rows, env) == Then(dispositions, Fold(handle, rows[i..], env'))
    {
      var h := handle(rows[i], env');
      assert rows[i..][1..] == rows[i + 1..];
      dispositions := dispositions + [h.disposition];
      env' := h.env;
      i := i + 1;
    }
    assert rows[i..] == [];
  }

  /** `process_csv` of the five-column scripts: `next(csv_reader)` drops the
      first row unread, and raises `StopIteration` out of the function when
      there is none; every later row gets a disposition from `handle`. */
  method ProcessCsv(handle: (seq<string>, Env) -> Handled, rows: seq<seq<string>>, env: Env)
    returns (batch: Batch, env': Env)
    ensures rows == [] <==> batch.Aborted?
    ensures batch.Aborted? ==> batch.exc == StopIteration && env' == env
    ensures batch.Completed? ==>
      Folded(batch.dispositions, env') == Fold(handle, rows[1..], env) && |batch.dispositions| == |rows| - 1
  {
    if rows == [] {
      return Aborted(StopIteration), env;
    }
    var dispositions;
    dispositions, env' := ProcessRows(handle, rows[1..], env);
    batch := Completed(dispositions);
  }
}
