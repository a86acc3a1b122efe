/** `make_request`, the authenticated request helper each script carries a copy
    of. The network is a scripted sequence of transport outcomes, the clock an
    integer, and `time.sleep` is recorded instead of performed. The three
    copies differ only in which HTTP methods they dispatch, so the model takes
    that set as a parameter. */
module Http {
  import opened Text

  /** The default `max_retries` of every copy of `make_request`. */
  const MaxRetries := 3

  datatype Option<T> = None | Some(value: T)

  /** The `method` argument of `make_request`. */
  datatype Verb = Get | Post | Put

  /** The Python exceptions that can leave the scripts' helpers. */
  datatype Exc =
    | RequestException   // a `requests` error: a transport failure or `raise_for_status`
    | ValueError         // `int()` of a bad header, `validate_input`, a failed unpack, the header check
    | KeyError           // `response.json()['id']` on a body without `id`
    | AttributeError     // `.json()` on the `None` that `make_request` can return
    | UnboundLocalError  // `response` read when the method matched no branch
    | StopIteration      // `next()` on a reader that has no rows

  /** A Python call either returns a value or raises. */
  datatype Result<T> = Ok(value: T) | Raised(exc: Exc)

  /** The `X-RateLimit-Reset` header: missing (read as 0), an epoch in
      seconds, or text that `int()` rejects. */
  datatype ResetHeader = NoHeader | Epoch(seconds: int) | Unparsable

  /** The decoded JSON body, as far as the scripts look into it: a user
      (`{"id": …}`), a search result (`{"items": [{"id": …}, …]}`, kept as the
      list of ids), or any other JSON object. */
  datatype Json = UserJson(id: int) | SearchJson(items: seq<int>) | OtherJson

  datatype Reply = Reply(status: int, body: string, reset: ResetHeader, json: Json)

  /** What one transport call yields: an HTTP reply, or a connection-level
      `RequestException`. */
  datatype Outcome = Answered(reply: Reply) | NetError

  /** The user a `get_user_id` round asks GitHub for: `GET /users/{name}`,
      or `GET /search/users?q={query}` for an email. */
  datatype Lookup = ByName(name: string) | ByEmail(query: string)

  /** The world `make_request` talks to: `script[k]` answers the k-th
      transport call (past its end, the network is down), `calls` counts the
      calls made so far, `now` is the clock in whole seconds, and `lookups`
      lists, in order, the users the scripts have asked for. */
  datatype Env = Env(script: seq<Outcome>, calls: nat, now: int, lookups: seq<Lookup>)

  /** The world in which a lookup of `l` is about to be requested. */
  function Asking(env: Env, l: Lookup): Env
  {
    env.(lookups := env.lookups + [l])
  }

  /** A result together with the world after producing it. */
  datatype Effect<T> = Effect(result: Result<T>, env: Env)

  /** One run of `make_request`: what it returned or raised, the durations
      it slept in order, and the world afterwards. */
  datatype Run = Run(answer: Result<Option<Reply>>, sleeps: seq<int>, env: Env)

  function At(script: seq<Outcome>, k: nat): Outcome
  {
    if k < |script| then script[k] else NetError
  }

  function Max(a: int, b: int): int
  {
    if a < b then b else a
  }

  function Pow2(n: nat): (p: nat)
    ensures p >= 1
  {
    if n == 0 then 1 else 2 * Pow2(n - 1)
  }

  function Sum(s: seq<int>): int
  {
    if s == [] then 0 else s[0] + Sum(s[1..])
  }

  /** Sleeping only positive amounts never moves the clock back. */
  lemma {:induction false} SumAtLeastLength(s: seq<int>)
    requires forall j :: 0 <= j < |s| ==> s[j] >= 1
    ensures Sum(s) >= |s|
  {
    if s != [] {
      SumAtLeastLength(s[1..]);
    }
  }

  /** `'rate limit' in response.text.lower()`. */
  predicate MentionsRateLimit(body: string)
  {
    Contains(Lower(body), "rate limit")
  }

  /** The statuses `raise_for_status` turns into an `HTTPError`, which is a
      `RequestException`. */
  predicate IsHttpError(status: int)
  {
    400 <= status < 600
  }

  /** How the body of the attempt loop treats one transport outcome. */
  datatype Verdict = Accepted(reply: Reply) | Throttled(reset: ResetHeader) | Failure

  /** A 403 that mentions the rate limit is throttling; every other error
      status fails exactly as a transport error does; the rest is returned. */
  function Classify(o: Outcome): (v: Verdict)
    ensures v.Throttled? <==> o.Answered? && o.reply.status == 403 && MentionsRateLimit(o.reply.body)
    ensures v.Failure? <==> o.NetError? || (IsHttpError(o.reply.status) && !v.Throttled?)
    ensures v.Accepted? ==> o == Answered(v.reply)
    ensures v.Throttled? ==> v.reset == o.reply.reset
  {
    match o
    case NetError => Failure
    case Answered(r) =>
      if r.status == 403 && MentionsRateLimit(r.body) then Throttled(r.reset)
      else if IsHttpError(r.status) then Failure
      else Accepted(r)
  }

  /** `int(response.headers.get('X-RateLimit-Reset', 0))` when it parses. */
  function ResetEpoch(h: ResetHeader): int
    requires !h.Unparsable?
  {
    if h.Epoch? then h.seconds else 0
  }

  /** `max(reset_time - time.time(), 0) + 1`: at least one second, and long
      enough that the clock has passed the reset epoch when it ends. */
  function RateLimitWait(reset: int, now: int): (wait: int)
    ensures wait >= 1
    ensures now + wait > reset
    ensures reset <= now ==> wait == 1
    ensures reset > now ==> now + wait == reset + 1
  {
    Max(reset - now, 0) + 1
  }

  function Prepend(s: seq<int>, run: Run): Run
  {
    run.(sleeps := s + run.sleeps)
  }

  /** The iterations `attempt`, `attempt + 1`, … of
      `for attempt in range(max_retries)`. */
  function Attempts(verb: Verb, supported: set<Verb>, env: Env, attempt: nat, maxRetries: int): Run
    decreases maxRetries - attempt
  {
    if attempt >= maxRetries then Run(Ok(None), [], env)
    else if verb !in supported then Run(Raised(UnboundLocalError), [], env)
    else
      var called := env.(calls := env.calls + 1);
      match Classify(At(env.script, env.calls))
      case Accepted(r) => Run(Ok(Some(r)), [], called)
      case Throttled(h) =>
        if h.Unparsable? then Run(Raised(ValueError), [], called)
        else
          var wait := RateLimitWait(ResetEpoch(h), env.now);
          Prepend([wait], Attempts(verb, supported, called.(now := env.now + wait), attempt + 1, maxRetries))
      case Failure =>
        if attempt == maxRetries - 1 then Run(Raised(RequestException), [], called)
        else
          var backoff := Pow2(attempt);
          Prepend([backoff], Attempts(verb, supported, called.(now := env.now + backoff), attempt + 1, maxRetries))
  }

  lemma PrependTwice(a: seq<int>, b: seq<int>, run: Run)
    ensures Prepend(a, Prepend(b, run)) == Prepend(a + b, run)
  {
    assert a + (b + run.sleeps) == (a + b) + run.sleeps;
  }

  /** The two ways an iteration ends in `sleep` and the next attempt: a
      rate-limit wait, or the backoff after a failure that is not the last. */
  function RetryDelay(v: Verdict, attempt: nat, maxRetries: int, now: int): Option<int>
  {
    if v.Throttled? && !v.reset.Unparsable? then Some(RateLimitWait(ResetEpoch(v.reset), now))
    else if v.Failure? && attempt < maxRetries - 1 then Some(Pow2(attempt))
    else None
  }

  lemma StepRetry(verb: Verb, supported: set<Verb>, env: Env, attempt: nat, maxRetries: int, delay: int, next: Env)
    requires attempt < maxRetries && verb in supported
    requires RetryDelay(Classify(At(env.script, env.calls)), attempt, maxRetries, env.now) == Some(delay)
    requires next == env.(calls := env.calls + 1, now := env.now + delay)
    ensures Attempts(verb, supported, env, attempt, maxRetries)
         == Prepend([delay], Attempts(verb, supported, next, attempt + 1, maxRetries))
  {
  }

  lemma StepStop(verb: Verb, supported: set<Verb>, env: Env, attempt: nat, maxRetries: int)
    requires attempt < maxRetries && verb in supported
    requires RetryDelay(Classify(At(env.script, env.calls)), attempt, maxRetries, env.now).None?
    ensures var run := Attempts(verb, supported, env, attempt, maxRetries);
      run.sleeps == [] && run.env == env.(calls := env.calls + 1)
    ensures var v := Classify(At(env.script, env.calls));
      Attempts(verb, supported, env, attempt, maxRetries).answer
      == if v.Accepted? then Ok(Some(v.reply)) else if v.Throttled? then Raised(ValueError) else Raised(RequestException)
  {
  }

  /** How one iteration of the attempt loop ends: it returns or raises, or it
      sleeps and goes on to the next attempt. */
  datatype Step = Stop(answer: Result<Option<Reply>>) | Sleep(delay: int)

  /** The body of `for attempt in range(max_retries)` for one attempt. */
  method Iteration(verb: Verb, supported: set<Verb>, env: Env, attempt: nat, maxRetries: int)
    returns (step: Step, env': Env)
    requires attempt < maxRetries
    ensures step.Stop? ==> Attempts(verb, supported, env, attempt, maxRetries) == Run(step.answer, [], env')
    ensures step.Sleep? ==>
      Attempts(verb, supported, env, attempt, maxRetries)
      == Prepend([step.delay], Attempts(verb, supported, env', attempt + 1, maxRetries))
  {
    if verb !in supported {
      return Stop(Raised(UnboundLocalError)), env;
    }
    var verdict := Classify(At(env.script, env.calls));
    env' := env.(calls := env.calls + 1);
    if verdict.Throttled? {
      if verdict.reset.Unparsable? {
        StepStop(verb, supported, env, attempt, maxRetries);
        return Stop(Raised(ValueError)), env';
      }
      var wait := RateLimitWait(ResetEpoch(verdict.reset), env.now);
      StepRetry(verb, supported, env, attempt, maxRetries, wait, env'.(now := env.now + wait));
      return Sleep(wait), env'.(now := env.now + wait);
    }
    if verdict.Accepted? {
      StepStop(verb, supported, env, attempt, maxRetries);
      return Stop(Ok(Some(verdict.reply))), env';
    }
    if attempt == maxRetries - 1 {
      StepStop(verb, supported, env, attempt, maxRetries);
      return Stop(Raised(RequestException)), env';
    }
    StepRetry(verb, supported, env, attempt, maxRetries, Pow2(attempt), env'.(now := env.now + Pow2(attempt)));
    return Sleep(Pow2(attempt)), env'.(now := env.now + Pow2(attempt));
  }

  /** `make_request(url, method, data, max_retries)`, with the network and
      the clock in `env`. */
  method MakeRequest(verb: Verb, supported: set<Verb>, env: Env, maxRetries: int)
    returns (answer: Result<Option<Reply>>, sleeps: seq<int>, env': Env)
    ensures Run(answer, sleeps, env') == Attempts(verb, supported, env, 0, maxRetries)
  {
    sleeps, env' := [], env;
    var attempt: nat := 0;
    while attempt < maxRetries
      invariant Attempts(verb, supported, env, 0, maxRetries)
             == Prepend(sleeps, Attempts(verb, supported, env', attempt, maxRetries))
      decreases maxRetries - attempt
    {
      var step;
      step, env' := Iteration(verb, supported, env', attempt, maxRetries);
      if step.Stop? {
        assert sleeps + [] == sleeps;
        answer := step.answer;
        return;
      }
      PrependTwice(sleeps, [step.delay], Attempts(verb, supported, env', attempt + 1, maxRetries));
      sleeps := sleeps + [step.delay];
      attempt := attempt + 1;
    }
    answer := Ok(None);
  }

  /** Every run: at most one transport call per remaining attempt and none
      with an unsupported method; every sleep lasts at least a second and
      the clock advances by exactly the time slept; the only exceptions are
      `RequestException` and the `ValueError` of a bad reset header, or
      `UnboundLocalError` for a method the copy does not dispatch. */
  lemma {:induction false} AttemptsFrame(verb: Verb, supported: set<Verb>, env: Env, attempt: nat, maxRetries: int)
    ensures var run := Attempts(verb, supported, env, attempt, maxRetries);
      && run.env.script == env.script
      && run.env.lookups == env.lookups
      && env.calls <= run.env.calls <= env.calls + Max(maxRetries - attempt, 0)
      && (verb !in supported ==> run.env.calls == env.calls)
      && run.env.now == env.now + Sum(run.sleeps)
      && (forall j :: 0 <= j < |run.sleeps| ==> run.sleeps[j] >= 1)
      && (run.answer.Raised? ==>
            if verb in supported then run.answer.exc == RequestException || run.answer.exc == ValueError
            else run.answer.exc == UnboundLocalError)
    decreases maxRetries - attempt
  {
    if attempt < maxRetries && verb in supported {
      var delay := RetryDelay(Classify(At(env.script, env.calls)), attempt, maxRetries, env.now);
      if delay.Some? {
        var next := env.(calls := env.calls + 1, now := env.now + delay.value);
        StepRetry(verb, supported, env, attempt, maxRetries, delay.value, next);
        AttemptsFrame(verb, supported, next, attempt + 1, maxRetries);
        var rest := Attempts(verb, supported, next, attempt + 1, maxRetries).sleeps;
        assert ([delay.value] + rest)[1..] == rest;
      } else {
        StepStop(verb, supported, env, attempt, maxRetries);
      }
    }
  }

  /** The backoff sleeps of attempts `lo` … `hi - 1`: 2^lo, …, 2^(hi-1). */
  function Backoffs(lo: nat, hi: nat): seq<int>
    decreases if lo < hi then hi - lo else 0
  {
    if lo >= hi then [] else [Pow2(lo)] + Backoffs(lo + 1, hi)
  }

  /** The backoffs add up to 2^hi - 2^lo; from attempt 0 that is 2^hi - 1. */
  lemma {:induction false} SumBackoffs(lo: nat, hi: nat)
    requires lo <= hi
    ensures Sum(Backoffs(lo, hi)) == Pow2(hi) - Pow2(lo)
    decreases hi - lo
  {
    if lo < hi {
      SumBackoffs(lo + 1, hi);
    }
  }

  predicate FailsAt(script: seq<Outcome>, k: nat)
  {
    Classify(At(script, k)).Failure?
  }

  /** When every remaining attempt fails (a transport error or an error
      status), the loop makes one call per attempt, sleeps 2^attempt after
      each but the last, and re-raises the last `RequestException`. */
  lemma {:induction false} ExhaustedRetries(verb: Verb, supported: set<Verb>, env: Env, attempt: nat, maxRetries: int)
    requires verb in supported && attempt < maxRetries
    requires forall k :: env.calls <= k < env.calls + (maxRetries - attempt) ==> FailsAt(env.script, k)
    ensures var run := Attempts(verb, supported, env, attempt, maxRetries);
      && run.answer == Raised(RequestException)
      && run.sleeps == Backoffs(attempt, maxRetries - 1)
      && run.env.calls == env.calls + (maxRetries - attempt)
    decreases maxRetries - attempt
  {
    assert FailsAt(env.script, env.calls);
    if attempt < maxRetries - 1 {
      var next := env.(calls := env.calls + 1, now := env.now + Pow2(attempt));
      StepRetry(verb, supported, env, attempt, maxRetries, Pow2(attempt), next);
      ExhaustedRetries(verb, supported, next, attempt + 1, maxRetries);
    } else {
      StepStop(verb, supported, env, attempt, maxRetries);
    }
  }

  /** With the default three attempts and every call failing, the loop
      sleeps 1 and then 2 seconds and raises after the third call; in
      general the backoff before the final error totals 2^(max_retries-1) - 1. */
  lemma TotalBackoff(verb: Verb, supported: set<Verb>, env: Env, maxRetries: int)
    requires verb in supported && maxRetries >= 1
    requires forall k :: env.calls <= k < env.calls + maxRetries ==> FailsAt(env.script, k)
    ensures var run := Attempts(verb, supported, env, 0, maxRetries);
      && run.answer == Raised(RequestException)
      && Sum(run.sleeps) == Pow2(maxRetries - 1) - 1
      && (maxRetries == MaxRetries ==> run.sleeps == [1, 2])
  {
    ExhaustedRetries(verb, supported, env, 0, maxRetries);
    SumBackoffs(0, maxRetries - 1);
  }

  predicate ThrottledAt(script: seq<Outcome>, k: nat)
  {
    var v := Classify(At(script, k));
    v.Throttled? && !v.reset.Unparsable?
  }

  /** A rate-limit wait uses up its attempt: when every remaining attempt is
      throttled the loop runs out, sleeps once per attempt, and returns
      `None` instead of raising. */
  lemma {:induction false} AllThrottled(verb: Verb, supported: set<Verb>, env: Env, attempt: nat, maxRetries: int)
    requires verb in supported && attempt <= maxRetries
    requires forall k :: env.calls <= k < env.calls + (maxRetries - attempt) ==> ThrottledAt(env.script, k)
    ensures var run := Attempts(verb, supported, env, attempt, maxRetries);
      && run.answer == Ok(None)
      && |run.sleeps| == maxRetries - attempt
      && run.env.calls == env.calls + (maxRetries - attempt)
    decreases maxRetries - attempt
  {
    if attempt < maxRetries {
      assert ThrottledAt(env.script, env.calls);
      var h := Classify(At(env.script, env.calls)).reset;
      var wait := RateLimitWait(ResetEpoch(h), env.now);
      var next := env.(calls := env.calls + 1, now := env.now + wait);
      StepRetry(verb, supported, env, attempt, maxRetries, wait, next);
      AllThrottled(verb, supported, next, attempt + 1, maxRetries);
    }
  }

  /** The loop falls through to `None` exactly when it reaches its last
      iteration and that iteration's reply is rate-limited with a readable
      reset header, whatever the earlier iterations met (a transport error,
      an error status or throttling). */
  lemma {:induction false} NoneExactlyWhenLastThrottled(verb: Verb, supported: set<Verb>, env: Env, attempt: nat, maxRetries: int)
    requires attempt < maxRetries
    ensures var run := Attempts(verb, supported, env, attempt, maxRetries);
      run.answer == Ok(None) <==>
        && verb in supported
        && run.env.calls == env.calls + (maxRetries - attempt)
        && ThrottledAt(env.script, run.env.calls - 1)
    decreases maxRetries - attempt
  {
    if verb in supported {
      var delay := RetryDelay(Classify(At(env.script, env.calls)), attempt, maxRetries, env.now);
      if delay.Some? {
        var next := env.(calls := env.calls + 1, now := env.now + delay.value);
        StepRetry(verb, supported, env, attempt, maxRetries, delay.value, next);
        if attempt + 1 < maxRetries {
          NoneExactlyWhenLastThrottled(verb, supported, next, attempt + 1, maxRetries);
        } else {
          assert ThrottledAt(env.script, env.calls);
        }
      } else {
        StepStop(verb, supported, env, attempt, maxRetries);
      }
    }
  }

  /** One rate-limited reply followed by a success: the loop sleeps once,
      until just past the reset epoch, and returns the second reply. */
  lemma ThrottledThenAccepted(verb: Verb, supported: set<Verb>, env: Env, reset: int, reply: Reply)
    requires verb in supported
    requires Classify(At(env.script, env.calls)) == Throttled(Epoch(reset))
    requires Classify(At(env.script, env.calls + 1)) == Accepted(reply)
    ensures var run := Attempts(verb, supported, env, 0, MaxRetries);
      && run.answer == Ok(Some(reply))
      && run.sleeps == [RateLimitWait(reset, env.now)]
      && run.env.calls == env.calls + 2
      && run.env.now > reset
  {
    var wait := RateLimitWait(reset, env.now);
    var next := env.(calls := env.calls + 1, now := env.now + wait);
    assert Attempts(verb, supported, next, 1, MaxRetries) == Run(Ok(Some(reply)), [], next.(calls := env.calls + 2));
  }

  /** Replacing an outcome that fails by a transport error leaves the
      verdict on every call unchanged. */
  lemma SameVerdict(script: seq<Outcome>, k: nat, c: nat)
    requires k < |script| && FailsAt(script, k)
    ensures Classify(At(script[k := NetError], c)) == Classify(At(script, c))
  {
  }

  /** Only how an outcome is classified matters: replacing an error-status
      reply by a transport error anywhere in the script changes neither the
      result, nor the sleeps, nor the number of calls, nor the clock. */
  lemma {:induction false} ErrorStatusIsNetError(verb: Verb, supported: set<Verb>, env: Env, k: nat, attempt: nat, maxRetries: int)
    requires k < |env.script| && FailsAt(env.script, k)
    ensures var run := Attempts(verb, supported, env, attempt, maxRetries);
      var run' := Attempts(verb, supported, env.(script := env.script[k := NetError]), attempt, maxRetries);
      && run'.answer == run.answer && run'.sleeps == run.sleeps
      && run'.env.calls == run.env.calls && run'.env.now == run.env.now
    decreases maxRetries - attempt
  {
    var env' := env.(script := env.script[k := NetError]);
    if attempt < maxRetries && verb in supported {
      SameVerdict(env.script, k, env.calls);
      var delay := RetryDelay(Classify(At(env.script, env.calls)), attempt, maxRetries, env.now);
      if delay.Some? {
        var next := env.(calls := env.calls + 1, now := env.now + delay.value);
        var next' := env'.(calls := env.calls + 1, now := env.now + delay.value);
        assert next' == next.(script := env'.script);
        StepRetry(verb, supported, env, attempt, maxRetries, delay.value, next);
        StepRetry(verb, supported, env', attempt, maxRetries, delay.value, next');
        ErrorStatusIsNetError(verb, supported, next, k, attempt + 1, maxRetries);
      } else {
        StepStop(verb, supported, env, attempt, maxRetries);
        StepStop(verb, supported, env', attempt, maxRetries);
      }
    }
  }
}
