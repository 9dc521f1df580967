/** Calling a tool with bounded retries and a bound on the total time. */
module Recovery {
  import opened Common

  datatype Failure = Failure(code: string, retryable: bool)

  /** What one POST came back with and how long it took. */
  datatype Post = Responded(elapsed: real, response: string) | Refused(elapsed: real, error: Failure)

  /** What one status request came back with. */
  datatype Check =
    | Status(elapsed: real, status: string, execution: string)
    | CheckTimedOut(elapsed: real)
    | CheckRefused(elapsed: real, error: Failure)

  /** The surroundings of one call: the outcome of the k-th POST and of the k-th status request. */
  datatype World = World(post: nat -> Post, check: nat -> Check)

  datatype Act =
    | Posted(toolCallId: string, arguments: string, outcome: Post)
    | StatusAsked(toolCallId: string, bound: real, reply: Check)
    | Slept(delay: real)

  datatype Outcome =
    | Response(response: string, retryCount: nat)
    | Execution(execution: string, retryCount: nat)
    | Raised(error: Failure, retryCount: nat)

  const STATUS_BOUND: real := 5.0

  predicate NonRetryableCode(code: string) {
    code == "INVALID_BUFFER_DISTANCE" || code == "INVALID_HOUSING_SEARCH_ARGUMENT" || code == "TOOL_CALL_CONFLICT"
  }

  predicate EndedStatus(status: string) {
    status == "SUCCEEDED" || status == "FAILED" || status == "REJECTED"
  }

  function Power2(n: nat): real {
    if n == 0 then 1.0 else 2.0 * Power2(n - 1)
  }

  function Delay(attempt: nat): real {
    0.25 * Power2(attempt)
  }

  function Duration(a: Act): real {
    match a
    case Posted(_, _, o) => o.elapsed
    case StatusAsked(_, _, o) => o.elapsed
    case Slept(d) => d
  }

  function TotalTime(acts: seq<Act>): real {
    if acts == [] then 0.0 else TotalTime(acts[..|acts| - 1]) + Duration(acts[|acts| - 1])
  }

  function PostCount(acts: seq<Act>): nat {
    if acts == [] then 0 else PostCount(acts[..|acts| - 1]) + (if acts[|acts| - 1].Posted? then 1 else 0)
  }

  /** A POST may take the client timeout; the status request is cut off at its own bound. */
  ghost predicate Respects(w: World, timeout: real) {
    && (forall k :: 0.0 <= w.post(k).elapsed <= timeout)
    && (forall k :: 0.0 <= w.check(k).elapsed)
  }

  /** The status request never lasts longer than the bound it is given. */
  function Bounded(c: Check, bound: real): Check {
    if c.elapsed <= bound then c else CheckTimedOut(bound)
  }

  /** After this action nothing more is posted. */
  predicate Final(a: Act) {
    match a
    case Posted(_, _, Responded(_, _)) => true
    case Posted(_, _, Refused(_, e)) => !e.retryable || NonRetryableCode(e.code)
    case StatusAsked(_, _, Status(_, s, _)) => EndedStatus(s)
    case StatusAsked(_, _, CheckRefused(_, e)) => e.code != "EXECUTION_NOT_FOUND" && !e.retryable
    case _ => false
  }

  /** All POSTs repeat the same call, each but the first follows a status request and a pause, and
      nothing follows a final action. */
  predicate Orderly(acts: seq<Act>, id: string, arguments: string) {
    acts == [] ||
      var n := |acts| - 1;
      && Orderly(acts[..n], id, arguments)
      && (n > 0 ==> !Final(acts[n - 1]))
      && (acts[n].Posted? ==>
          && acts[n].toolCallId == id && acts[n].arguments == arguments
          && (n > 0 ==> n >= 3 && acts[n - 1].Slept? && acts[n - 2].StatusAsked?))
  }

  /** A response, an error that cannot be retried, an execution that has ended, or a status request that failed
      for good. */
  predicate Stops(a: Act) {
    match a
    case Posted(_, _, Responded(_, _)) => true
    case Posted(_, _, Refused(_, e)) =>
      !e.retryable || e.code in {"INVALID_BUFFER_DISTANCE", "INVALID_HOUSING_SEARCH_ARGUMENT", "TOOL_CALL_CONFLICT"}
    case StatusAsked(_, _, Status(_, s, _)) => s in {"SUCCEEDED", "FAILED", "REJECTED"}
    case StatusAsked(_, _, CheckRefused(_, e)) => !e.retryable && e.code != "EXECUTION_NOT_FOUND"
    case _ => false
  }

  lemma {:induction false} OrderlyMeans(acts: seq<Act>, id: string, arguments: string, i: nat)
    requires Orderly(acts, id, arguments) && i < |acts|
    ensures acts[i].Posted? ==> acts[i].toolCallId == id && acts[i].arguments == arguments
    ensures acts[i].Posted? && i > 0 ==> i >= 3 && acts[i - 1].Slept? && acts[i - 2].StatusAsked?
    ensures Stops(acts[i]) ==> i == |acts| - 1
    ensures Stops(acts[i]) <==> Final(acts[i])
  {
    if i < |acts| - 1 {
      OrderlyMeans(acts[..|acts| - 1], id, arguments, i);
      if i == |acts| - 2 {
        assert acts[|acts| - 1 - 1] == acts[i];
      }
    }
  }

  /** The last pause so far. */
  function LastPause(acts: seq<Act>): Option<real> {
    if acts == [] then None
    else if acts[|acts| - 1].Slept? then Some(acts[|acts| - 1].delay)
    else LastPause(acts[..|acts| - 1])
  }

  /** The k-th POST and the k-th status request come back with what the surroundings have for them, a
      status request is cut off after five seconds or when the time is over, and pauses start at a
      quarter of a second and double. */
  ghost predicate Timed(acts: seq<Act>, w: World, id: string, maxRecovery: real) {
    acts == [] ||
      var init := acts[..|acts| - 1];
      Timed(init, w, id, maxRecovery) && TimedNext(init, acts[|acts| - 1], w, id, maxRecovery)
  }

  ghost predicate TimedNext(init: seq<Act>, a: Act, w: World, id: string, maxRecovery: real) {
    match a
    case Posted(_, _, outcome) => outcome == w.post(PostCount(init))
    case StatusAsked(asked, bound, reply) =>
      && asked == id && PostCount(init) > 0 && 0.0 < bound <= 5.0 && bound <= maxRecovery - TotalTime(init)
      && (bound == 5.0 || bound == maxRecovery - TotalTime(init))
      && var check := w.check(PostCount(init) - 1);
         reply == if check.elapsed <= bound then check else CheckTimedOut(bound)
    case Slept(delay) =>
      delay == match LastPause(init) case None => 0.25 case Some(before) => 2.0 * before
  }

  lemma TimedSnoc(acts: seq<Act>, a: Act, w: World, id: string, maxRecovery: real)
    requires Timed(acts, w, id, maxRecovery) && TimedNext(acts, a, w, id, maxRecovery)
    ensures Timed(acts + [a], w, id, maxRecovery)
    ensures LastPause(acts + [a]) == if a.Slept? then Some(a.delay) else LastPause(acts)
  {
    assert (acts + [a])[..|acts|] == acts;
  }

  /** The pause before an attempt. */
  ghost predicate PausedFor(acts: seq<Act>, attempt: nat) {
    LastPause(acts) == if attempt == 0 then None else Some(Delay(attempt - 1))
  }

  lemma TotalSnoc(acts: seq<Act>, a: Act)
    ensures TotalTime(acts + [a]) == TotalTime(acts) + Duration(a)
    ensures PostCount(acts + [a]) == PostCount(acts) + (if a.Posted? then 1 else 0)
  {
    assert (acts + [a])[..|acts|] == acts;
  }

  lemma {:induction false} PowerPositive(n: nat)
    ensures Power2(n) >= 1.0
  {
    if n > 0 {
      PowerPositive(n - 1);
    }
  }

  lemma OrderSnoc(acts: seq<Act>, a: Act, id: string, arguments: string)
    requires Orderly(acts, id, arguments)
    requires acts != [] ==> !Final(acts[|acts| - 1])
    requires a.Posted? ==>
      && a.toolCallId == id && a.arguments == arguments
      && (acts == [] || (|acts| >= 3 && acts[|acts| - 1].Slept? && acts[|acts| - 2].StatusAsked?))
    ensures Orderly(acts + [a], id, arguments)
  {
    assert (acts + [a])[..|acts|] == acts;
  }

  /** What the result says about the last actions taken, `last` being the number of the last attempt. The
      error that is raised is that of the action that ended the call, or else that of the last POST. */
  ghost predicate Explains(outcome: Outcome, acts: seq<Act>, w: World, last: nat) {
    acts != [] &&
    var final := acts[|acts| - 1];
    match outcome
    case Response(r, n) => final.Posted? && w.post(last).Responded? && w.post(last).response == r && n == last
    case Execution(x, n) =>
      && final.StatusAsked? && w.check(last).Status?
      && w.check(last).execution == x && EndedStatus(w.check(last).status) && n == last
    case Raised(error, n) =>
      if final.StatusAsked? && Final(final)
      then w.check(last).CheckRefused? && error == w.check(last).error && n == 0
      else w.post(last).Refused? && error == w.post(last).error && n == if Final(final) then 0 else last
  }

  /** The call gave up although its last action was not final: no retry or no time was left. */
  ghost predicate Exhausted(acts: seq<Act>, last: nat, maxRetries: nat, timeout: real, maxRecovery: real) {
    last == maxRetries || maxRecovery - TotalTime(acts) < timeout + Delay(last)
  }

  /** Start an attempt: every call that is made keeps the order and fits the time that is left. */
  lemma PostFits(acts: seq<Act>, post: Post, id: string, arguments: string, timeout: real, maxRecovery: real)
    requires Orderly(acts, id, arguments) && post.elapsed <= timeout
    requires TotalTime(acts) + timeout <= maxRecovery
    requires acts != [] ==>
      |acts| >= 3 && acts[|acts| - 1].Slept? && acts[|acts| - 2].StatusAsked?
    ensures Orderly(acts + [Posted(id, arguments, post)], id, arguments)
    ensures TotalTime(acts + [Posted(id, arguments, post)]) == TotalTime(acts) + post.elapsed <= maxRecovery
    ensures PostCount(acts + [Posted(id, arguments, post)]) == PostCount(acts) + 1
  {
    TotalSnoc(acts, Posted(id, arguments, post));
    OrderSnoc(acts, Posted(id, arguments, post), id, arguments);
  }

  lemma CheckFits(acts: seq<Act>, check: Check, bound: real, id: string, arguments: string)
    requires Orderly(acts, id, arguments) && acts != [] && !Final(acts[|acts| - 1])
    ensures Orderly(acts + [StatusAsked(id, bound, check)], id, arguments)
    ensures TotalTime(acts + [StatusAsked(id, bound, check)]) == TotalTime(acts) + check.elapsed
    ensures PostCount(acts + [StatusAsked(id, bound, check)]) == PostCount(acts)
  {
    TotalSnoc(acts, StatusAsked(id, bound, check));
    OrderSnoc(acts, StatusAsked(id, bound, check), id, arguments);
  }

  lemma SleepFits(acts: seq<Act>, delay: real, id: string, arguments: string)
    requires Orderly(acts, id, arguments) && acts != [] && !Final(acts[|acts| - 1])
    ensures Orderly(acts + [Slept(delay)], id, arguments)
    ensures TotalTime(acts + [Slept(delay)]) == TotalTime(acts) + delay
    ensures PostCount(acts + [Slept(delay)]) == PostCount(acts)
  {
    TotalSnoc(acts, Slept(delay));
    OrderSnoc(acts, Slept(delay), id, arguments);
  }

  /** The actions so far leave room for one more POST. */
  ghost predicate Resumable(
    acts: seq<Act>, w: World, attempt: nat, id: string, arguments: string, timeout: real, maxRecovery: real)
  {
    && PostCount(acts) == attempt && TotalTime(acts) + timeout <= maxRecovery && Orderly(acts, id, arguments)
    && Timed(acts, w, id, maxRecovery) && PausedFor(acts, attempt)
    && (acts != [] ==> |acts| >= 3 && acts[|acts| - 1].Slept? && acts[|acts| - 2].StatusAsked?)
  }

  /** The state in which a call has ended. */
  ghost predicate Ended(
    outcome: Outcome, acts: seq<Act>, w: World, attempt: nat, id: string, arguments: string,
    maxRetries: nat, timeout: real, maxRecovery: real)
  {
    && TotalTime(acts) <= maxRecovery && PostCount(acts) == attempt + 1 && Orderly(acts, id, arguments)
    && Timed(acts, w, id, maxRecovery)
    && Explains(outcome, acts, w, attempt)
    && (outcome.Raised? && acts[|acts| - 1].Posted? && !Final(acts[|acts| - 1]) ==> maxRecovery <= TotalTime(acts))
    && (outcome.Raised? && !Final(acts[|acts| - 1]) ==> Exhausted(acts, attempt, maxRetries, timeout, maxRecovery))
  }

  /** The last action is the POST of this attempt. */
  ghost predicate JustPosted(acts: seq<Act>, w: World, attempt: nat, id: string, arguments: string, maxRecovery: real) {
    && acts != [] && acts[|acts| - 1] == Posted(id, arguments, w.post(attempt))
    && PostCount(acts) == attempt + 1 && TotalTime(acts) <= maxRecovery && Orderly(acts, id, arguments)
    && Timed(acts, w, id, maxRecovery) && PausedFor(acts, attempt)
  }

  lemma PostIsNext(
    acts: seq<Act>, w: World, attempt: nat, id: string, arguments: string, timeout: real, maxRecovery: real)
    requires 0.0 <= timeout && Respects(w, timeout)
    requires Resumable(acts, w, attempt, id, arguments, timeout, maxRecovery)
    ensures JustPosted(acts + [Posted(id, arguments, w.post(attempt))], w, attempt, id, arguments, maxRecovery)
  {
    PostFits(acts, w.post(attempt), id, arguments, timeout, maxRecovery);
    TimedSnoc(acts, Posted(id, arguments, w.post(attempt)), w, id, maxRecovery);
  }

  /** The last action is the status request of this attempt. */
  ghost predicate JustAsked(
    acts: seq<Act>, w: World, attempt: nat, bound: real, id: string, arguments: string, maxRecovery: real)
  {
    && |acts| >= 2 && acts[|acts| - 1] == StatusAsked(id, bound, Bounded(w.check(attempt), bound))
    && acts[|acts| - 2].Posted?
    && PostCount(acts) == attempt + 1 && TotalTime(acts) <= maxRecovery && Orderly(acts, id, arguments)
    && Timed(acts, w, id, maxRecovery) && PausedFor(acts, attempt)
  }

  lemma StatusIsNext(
    acts: seq<Act>, w: World, attempt: nat, bound: real, id: string, arguments: string, timeout: real,
    maxRecovery: real)
    requires Respects(w, timeout) && JustPosted(acts, w, attempt, id, arguments, maxRecovery)
    requires !Final(acts[|acts| - 1]) && TotalTime(acts) < maxRecovery
    requires bound ==
             if STATUS_BOUND <= maxRecovery - TotalTime(acts) then STATUS_BOUND else maxRecovery - TotalTime(acts)
    ensures JustAsked(
              acts + [StatusAsked(id, bound, Bounded(w.check(attempt), bound))], w, attempt, bound, id, arguments,
              maxRecovery)
  {
    CheckFits(acts, Bounded(w.check(attempt), bound), bound, id, arguments);
    TimedSnoc(acts, StatusAsked(id, bound, Bounded(w.check(attempt), bound)), w, id, maxRecovery);
  }

  lemma PauseIsNext(
    acts: seq<Act>, w: World, attempt: nat, bound: real, id: string, arguments: string, timeout: real,
    maxRecovery: real)
    requires JustAsked(acts, w, attempt, bound, id, arguments, maxRecovery) && !Final(acts[|acts| - 1])
    requires timeout + Delay(attempt) <= maxRecovery - TotalTime(acts)
    ensures Resumable(acts + [Slept(Delay(attempt))], w, attempt + 1, id, arguments, timeout, maxRecovery)
  {
    SleepFits(acts, Delay(attempt), id, arguments);
    TimedSnoc(acts, Slept(Delay(attempt)), w, id, maxRecovery);
  }

  /** A refused POST: ask for the status, then either end or pause before the next attempt. */
  method AfterRefusal(
    w: World, before: seq<Act>, attempt: nat, lastError: Failure, id: string, arguments: string,
    maxRetries: nat, timeout: real, maxRecovery: real
  ) returns (ended: Option<Outcome>, acts: seq<Act>)
    requires 0.0 <= timeout && Respects(w, timeout) && attempt <= maxRetries
    requires JustPosted(before, w, attempt, id, arguments, maxRecovery) && !Final(before[|before| - 1])
    requires w.post(attempt).Refused? && w.post(attempt).error == lastError
    ensures ended.Some? ==> Ended(ended.value, acts, w, attempt, id, arguments, maxRetries, timeout, maxRecovery)
    ensures ended.None? ==> attempt < maxRetries && Resumable(acts, w, attempt + 1, id, arguments, timeout, maxRecovery)
  {
    acts := before;
    var remaining := maxRecovery - TotalTime(acts);
    if remaining <= 0.0 {
      PowerPositive(attempt);
      return Some(Raised(lastError, attempt)), acts;
    }
    var bound := if STATUS_BOUND <= remaining then STATUS_BOUND else remaining;
    var check := Bounded(w.check(attempt), bound);
    StatusIsNext(acts, w, attempt, bound, id, arguments, timeout, maxRecovery);
    acts := acts + [StatusAsked(id, bound, check)];
    if check.Status? && EndedStatus(check.status) {
      return Some(Execution(check.execution, attempt)), acts;
    }
    if check.CheckRefused? && check.error.code != "EXECUTION_NOT_FOUND" && !check.error.retryable {
      return Some(Raised(check.error, 0)), acts;
    }
    if attempt >= maxRetries {
      return Some(Raised(lastError, attempt)), acts;
    }
    var delay := Delay(attempt);
    remaining := maxRecovery - TotalTime(acts);
    if remaining < timeout + delay {
      return Some(Raised(lastError, attempt)), acts;
    }
    PauseIsNext(acts, w, attempt, bound, id, arguments, timeout, maxRecovery);
    acts := acts + [Slept(delay)];
    return None, acts;
  }

  lemma PostEnds(
    acts: seq<Act>, w: World, attempt: nat, id: string, arguments: string, maxRetries: nat, timeout: real,
    maxRecovery: real)
    requires JustPosted(acts, w, attempt, id, arguments, maxRecovery) && Final(acts[|acts| - 1])
    ensures var outcome :=
              match w.post(attempt)
              case Responded(_, response) => Response(response, attempt)
              case Refused(_, error) => Raised(error, 0);
            Ended(outcome, acts, w, attempt, id, arguments, maxRetries, timeout, maxRecovery)
  {
  }

  /** Main result: whatever the POSTs and status requests return, the call ends within its time
      budget, after at most `maxRetries + 1` identical POSTs, in the order `Orderly` describes, and
      its result is that of the last attempt. */
  method InvokeWithRecovery(
    w: World, id: string, arguments: string, maxRetries: nat, timeout: real, maxRecovery: real
  ) returns (outcome: Outcome, acts: seq<Act>, last: nat)
    requires 0.0 <= timeout <= maxRecovery && Respects(w, timeout)
    ensures last <= maxRetries
    ensures Ended(outcome, acts, w, last, id, arguments, maxRetries, timeout, maxRecovery)
  {
    acts := [];
    last := 0;
    while last <= maxRetries
      invariant last <= maxRetries
      invariant Resumable(acts, w, last, id, arguments, timeout, maxRecovery)
      decreases maxRetries - last
    {
      var post := w.post(last);
      PostIsNext(acts, w, last, id, arguments, timeout, maxRecovery);
      acts := acts + [Posted(id, arguments, post)];
      if post.Responded? {
        PostEnds(acts, w, last, id, arguments, maxRetries, timeout, maxRecovery);
        outcome := Response(post.response, last);
        return;
      }
      if !post.error.retryable || NonRetryableCode(post.error.code) {
        PostEnds(acts, w, last, id, arguments, maxRetries, timeout, maxRecovery);
        outcome := Raised(post.error, 0);
        return;
      }
      var ended: Option<Outcome>;
      ended, acts := AfterRefusal(w, acts, last, post.error, id, arguments, maxRetries, timeout, maxRecovery);
      if ended.Some? {
        outcome := ended.value;
        return;
      }
      last := last + 1;
    }
    assert false;
  }
}
