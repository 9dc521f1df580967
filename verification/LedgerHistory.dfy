/** What the tables hold after any interleaving, read off the actions themselves: every row and every
    event is what the accepted transactions asked for. */
module LedgerHistory {
  import opened Common
  import opened ConversationState
  import opened Ledger
  import opened LedgerInvariant
  import opened Text

  ghost predicate AcceptedLast(trace: seq<Action>) {
    trace != [] && Accepted(Exec(trace[..|trace| - 1]), trace[|trace| - 1])
  }

  // ----- the event log

  /** The accepted writes to a run in order, numbered from one and stamped with their own time. */
  ghost function Written(trace: seq<Action>, r: RunId): seq<Event> {
    if trace == [] then []
    else
      var before, a := Written(trace[..|trace| - 1], r), trace[|trace| - 1];
      if AcceptedLast(trace) then Longer(before, a, r) else before
  }

  function Longer(log: seq<Event>, a: Action, r: RunId): seq<Event> {
    match a
    case Append(o, b, _, now) => if o == r then log + [Event(r, |log| + 1, b, now)] else log
    case Complete(o, _, answer, _, _, _, now) =>
      if o == r then log + [Event(r, |log| + 1, RunCompleted(answer), now)] else log
    case _ => log
  }

  lemma WriteExtendsLog(l: Ledger, a: Action, r: RunId)
    requires Inv(l) && Accepted(l, a)
    ensures Log(Apply(l, a).events, r) == Longer(Log(l.events, r), a, r)
  {
    if a.Append? || a.Complete? {
      assert RunOk(l, a.run);
      var b := if a.Append? then a.body else RunCompleted(a.answer);
      LogSnoc(l.events, Event(a.run, l.runs[a.run].lastSequence + 1, b, a.now), r);
    }
  }

  /** The log of a run is the list of the writes that were accepted for it, each with its body and its
      own time. */
  lemma {:induction false} LogIsHistory(trace: seq<Action>, r: RunId)
    ensures Log(Exec(trace).events, r) == Written(trace, r)
  {
    if trace != [] {
      var init := trace[..|trace| - 1];
      LogIsHistory(init, r);
      EveryTraceKeepsInv(init);
      StepExtendsLog(Exec(init), trace[|trace| - 1], r);
    }
  }

  lemma StepExtendsLog(l: Ledger, a: Action, r: RunId)
    requires Inv(l)
    ensures Log(Apply(l, a).events, r) ==
            if Accepted(l, a) then Longer(Log(l.events, r), a, r) else Log(l.events, r)
  {
    if Accepted(l, a) {
      WriteExtendsLog(l, a, r);
    }
  }

  // ----- the rows of runs

  /** The accepted creates, in order. */
  ghost function Creates(trace: seq<Action>): seq<Action> {
    if trace == [] then []
    else
      var before, a := Creates(trace[..|trace| - 1]), trace[|trace| - 1];
      if AcceptedLast(trace) && a.Create? then before + [a] else before
  }

  predicate AsAsked(run: Run, a: Action) {
    && a.Create? && run.scope == a.scope && run.message == a.message && run.requestHash == a.hash
    && run.query == a.query && run.dependsOn == a.dep && run.createdAt == a.now
  }

  lemma RowStaysAsAsked(l: Ledger, a: Action, r: RunId, ask: Action)
    requires Known(l, r) && AsAsked(l.runs[r], ask)
    ensures Known(Apply(l, a), r) && AsAsked(Apply(l, a).runs[r], ask)
  {
  }

  lemma CreateAddsRow(l: Ledger, a: Action)
    ensures |Apply(l, a).runs| == |l.runs| + (if Accepted(l, a) && a.Create? then 1 else 0)
    ensures Accepted(l, a) && a.Create? ==> AsAsked(Apply(l, a).runs[|l.runs|], a)
  {
  }

  /** The r-th run is what the r-th accepted create asked for, and stays so. */
  lemma {:induction false} RunsAreCreates(trace: seq<Action>)
    ensures |Exec(trace).runs| == |Creates(trace)|
    ensures forall r: RunId :: Known(Exec(trace), r) ==> AsAsked(Exec(trace).runs[r], Creates(trace)[r])
  {
    if trace != [] {
      var init, a := trace[..|trace| - 1], trace[|trace| - 1];
      RunsAreCreates(init);
      CreateAddsRow(Exec(init), a);
      forall r: RunId | Known(Exec(trace), r) ensures AsAsked(Exec(trace).runs[r], Creates(trace)[r]) {
        if Known(Exec(init), r) {
          RowStaysAsAsked(Exec(init), a, r, Creates(init)[r]);
        }
      }
    }
  }

  /** Which stored run a repeated message meets: exactly one, with the hash of the first request. */
  lemma RepeatedMessageMeetsFirst(trace: seq<Action>, k: nat, r: RunId)
    requires k < |Creates(trace)| && Known(Exec(trace), r)
    requires Creates(trace)[k].Create?
    ensures SameMessage(Exec(trace).runs[r], Creates(trace)[k].scope, Creates(trace)[k].message) <==> r == k
    ensures r == k ==> Exec(trace).runs[r].requestHash == Creates(trace)[k].hash
  {
    RunsAreCreates(trace);
    EveryTraceKeepsInv(trace);
    var l := Exec(trace);
    assert Known(l, k) && AsAsked(l.runs[k], Creates(trace)[k]);
    if r < k {
      assert !SameMessage(l.runs[r], l.runs[k].scope, l.runs[k].message);
    } else if k < r {
      assert !SameMessage(l.runs[k], l.runs[r].scope, l.runs[r].message);
    }
  }

  /** The route given last among the accepted appends of a run. */
  ghost function LastRoute(trace: seq<Action>, r: RunId): Option<string> {
    if trace == [] then None
    else
      var a := trace[|trace| - 1];
      if AcceptedLast(trace) && a.Append? && a.run == r && a.route.Some? then a.route
      else LastRoute(trace[..|trace| - 1], r)
  }

  /** The version of the conversation when the run was created or last claimed. */
  ghost function VersionRead(trace: seq<Action>, r: RunId): nat {
    if trace == [] then 0
    else
      var init, a := trace[..|trace| - 1], trace[|trace| - 1];
      if AcceptedLast(trace) && a.Create? && |Exec(init).runs| == r then Version(Exec(init), a.scope)
      else if AcceptedLast(trace) && a.Claim? && a.run == r then Version(Exec(init), Exec(init).runs[r].scope)
      else VersionRead(init, r)
  }

  lemma {:induction false} LastRouteOfUnknown(trace: seq<Action>, r: RunId)
    requires !Known(Exec(trace), r)
    ensures LastRoute(trace, r) == None
  {
    if trace != [] {
      LastRouteOfUnknown(trace[..|trace| - 1], r);
    }
  }

  lemma RouteMoves(l: Ledger, a: Action, r: RunId)
    requires Known(Apply(l, a), r)
    ensures Apply(l, a).runs[r].route ==
            if Accepted(l, a) && a.Append? && a.run == r && a.route.Some? then a.route
            else if Known(l, r) then l.runs[r].route else None
  {
  }

  lemma {:induction false} RouteIsLastGiven(trace: seq<Action>, r: RunId)
    requires Known(Exec(trace), r)
    ensures Exec(trace).runs[r].route == LastRoute(trace, r)
  {
    if trace != [] {
      var init := trace[..|trace| - 1];
      RouteMoves(Exec(init), trace[|trace| - 1], r);
      if Known(Exec(init), r) {
        RouteIsLastGiven(init, r);
      } else {
        LastRouteOfUnknown(init, r);
      }
    }
  }

  lemma BaseMoves(l: Ledger, a: Action, r: RunId)
    requires Known(Apply(l, a), r)
    ensures Apply(l, a).runs[r].baseVersion ==
            if Accepted(l, a) && a.Create? && |l.runs| == r then Version(l, a.scope)
            else if Accepted(l, a) && a.Claim? && a.run == r then Version(l, l.runs[r].scope)
            else if Known(l, r) then l.runs[r].baseVersion else 0
    ensures !Known(l, r) ==> Accepted(l, a) && a.Create? && |l.runs| == r
  {
  }

  lemma {:induction false} BaseIsVersionRead(trace: seq<Action>, r: RunId)
    requires Known(Exec(trace), r)
    ensures Exec(trace).runs[r].baseVersion == VersionRead(trace, r)
  {
    if trace != [] {
      var init := trace[..|trace| - 1];
      BaseMoves(Exec(init), trace[|trace| - 1], r);
      if Known(Exec(init), r) {
        BaseIsVersionRead(init, r);
      }
    }
  }

  // ----- the active run of a conversation

  /** The run created last in a conversation, until a completion with a state clears it. */
  ghost function ActiveRun(trace: seq<Action>, s: Scope): Option<RunId> {
    if trace == [] then None
    else
      var init, a := trace[..|trace| - 1], trace[|trace| - 1];
      if AcceptedLast(trace) && a.Create? && a.scope == s then Some(|Creates(init)|)
      else if AcceptedLast(trace) && a.Complete? && a.state.Some? && Exec(init).runs[a.run].scope == s then None
      else ActiveRun(init, s)
  }

  function ActiveIn(l: Ledger, s: Scope): Option<RunId> {
    if s in l.states then l.states[s].active else None
  }

  lemma ActiveMoves(l: Ledger, a: Action, s: Scope)
    ensures ActiveIn(Apply(l, a), s) ==
            if Accepted(l, a) && a.Create? && a.scope == s then Some(|l.runs|)
            else if Accepted(l, a) && a.Complete? && a.state.Some? && l.runs[a.run].scope == s then None
            else ActiveIn(l, s)
  {
  }

  lemma {:induction false} ActiveIsLastCreated(trace: seq<Action>, s: Scope)
    ensures ActiveIn(Exec(trace), s) == ActiveRun(trace, s)
  {
    if trace != [] {
      var init := trace[..|trace| - 1];
      ActiveIsLastCreated(init, s);
      ActiveMoves(Exec(init), trace[|trace| - 1], s);
      RunsAreCreates(init);
    }
  }

  // ----- the queue limit

  ghost function OpenRuns(runs: seq<Run>): set<RunId> {
    set r: RunId | r < |runs| && !Terminal(runs[r].status)
  }

  lemma {:induction false} CountIsOpenRuns(runs: seq<Run>)
    ensures OpenCount(runs) == |OpenRuns(runs)|
  {
    if runs != [] {
      var n := |runs| - 1;
      CountIsOpenRuns(runs[..n]);
      var before := OpenRuns(runs[..n]);
      if Terminal(runs[n].status) {
        assert OpenRuns(runs) == before;
      } else {
        assert OpenRuns(runs) == before + {n} && n !in before;
      }
    }
  }

  ghost predicate Bounded(trace: seq<Action>, limit: nat) {
    forall k :: 0 <= k < |trace| && trace[k].Create? ==> trace[k].maxOpen.Some? && trace[k].maxOpen.value <= limit
  }

  lemma OpenRunsMove(l: Ledger, a: Action)
    requires Inv(l)
    ensures OpenRuns(Apply(l, a).runs) <=
            OpenRuns(l.runs) + (if Accepted(l, a) && a.Create? then {|l.runs|} else {})
  {
  }

  /** With every create under the same limit there are never more open runs than that, and a create of a
      new message is refused exactly when so many are open. */
  lemma {:induction false} QueueNeverOverflows(trace: seq<Action>, limit: nat)
    requires Bounded(trace, limit)
    ensures |OpenRuns(Exec(trace).runs)| <= limit
  {
    if trace != [] {
      var init, a := trace[..|trace| - 1], trace[|trace| - 1];
      QueueNeverOverflows(init, limit);
      EveryTraceKeepsInv(init);
      OpenRunsMove(Exec(init), a);
      CountIsOpenRuns(Exec(init).runs);
      var open, bound := OpenRuns(Exec(trace).runs), OpenRuns(Exec(init).runs);
      if AcceptedLast(trace) && a.Create? {
        assert |bound| < limit;
        SubsetCount(open, bound + {|Exec(init).runs|});
      } else {
        assert bound + {} == bound;
        SubsetCount(open, bound);
      }
    } else {
      assert OpenRuns([]) == {};
    }
  }

  lemma {:induction false} SubsetCount(a: set<RunId>, b: set<RunId>)
    requires a <= b
    ensures |a| <= |b|
  {
    assert b == a + (b - a);
  }

  lemma CreateIsAcceptedIff(l: Ledger, s: Scope, message: string, hash: string, query: string, limit: nat, now: int)
    ensures (exists dep :: Accepted(l, Create(s, message, hash, query, Some(limit), dep, now))) <==>
            && (forall r: RunId :: Known(l, r) ==> !SameMessage(l.runs[r], s, message))
            && |OpenRuns(l.runs)| < limit
  {
    CountIsOpenRuns(l.runs);
    var dep := NewestExists(l, s, |l.runs|);
    if (forall r: RunId :: Known(l, r) ==> !SameMessage(l.runs[r], s, message)) && |OpenRuns(l.runs)| < limit {
      assert Accepted(l, Create(s, message, hash, query, Some(limit), dep, now));
    }
  }

  lemma {:induction false} NewestExists(l: Ledger, s: Scope, bound: nat) returns (dep: Option<RunId>)
    requires bound <= |l.runs|
    ensures dep.None? ==> forall r: RunId :: r < bound ==> !OpenIn(l, s, r)
    ensures dep.Some? ==>
              && OpenIn(l, s, dep.value) && dep.value < bound
              && forall r: RunId :: r < bound && OpenIn(l, s, r) ==> l.runs[r].createdAt <= l.runs[dep.value].createdAt
    decreases bound
  {
    if bound == 0 {
      dep := None;
    } else {
      dep := NewestExists(l, s, bound - 1);
      if OpenIn(l, s, bound - 1) && (dep.None? || l.runs[dep.value].createdAt < l.runs[bound - 1].createdAt) {
        dep := Some(bound - 1);
      }
    }
  }

  // ----- status and state

  /** The status that an accepted transaction gives a run, if any. */
  function StatusGiven(a: Action, r: RunId): Option<Status> {
    match a
    case Claim(o, _, _, _) => if o == r then Some(Running) else None
    case Release(o, _, _, requeue) => if o == r && requeue then Some(Queued) else None
    case Append(o, b, _, _) =>
      if o != r then None
      else (match b
            case RunCompleted(_) => Some(Succeeded)
            case RunFailed(_) => Some(Failed)
            case RunCancelled(_) => Some(Cancelled)
            case _ => None)
    case Complete(o, _, _, _, _, _, _) => if o == r then Some(Succeeded) else None
    case _ => None
  }

  /** The status given last; a run begins as queued. */
  ghost function LastStatus(trace: seq<Action>, r: RunId): Status {
    if trace == [] then Queued
    else
      var given := StatusGiven(trace[|trace| - 1], r);
      if AcceptedLast(trace) && given.Some? then given.value else LastStatus(trace[..|trace| - 1], r)
  }

  lemma StatusMoves(l: Ledger, a: Action, r: RunId)
    requires Known(Apply(l, a), r)
    ensures Apply(l, a).runs[r].status ==
            if Accepted(l, a) && StatusGiven(a, r).Some? then StatusGiven(a, r).value
            else if Known(l, r) then l.runs[r].status else Queued
    ensures !Known(l, r) && Accepted(l, a) ==> StatusGiven(a, r).None?
  {
  }

  lemma {:induction false} UnknownIsQueued(trace: seq<Action>, r: RunId)
    requires !Known(Exec(trace), r)
    ensures LastStatus(trace, r) == Queued
  {
    if trace != [] {
      var init, a := trace[..|trace| - 1], trace[|trace| - 1];
      UnknownIsQueued(init, r);
      assert Accepted(Exec(init), a) ==> StatusGiven(a, r).None?;
    }
  }

  /** The status of a run is the one that an accepted transaction gave it last. */
  lemma {:induction false} StatusIsLastGiven(trace: seq<Action>, r: RunId)
    requires Known(Exec(trace), r)
    ensures Exec(trace).runs[r].status == LastStatus(trace, r)
  {
    if trace != [] {
      var init := trace[..|trace| - 1];
      StatusMoves(Exec(init), trace[|trace| - 1], r);
      if Known(Exec(init), r) {
        StatusIsLastGiven(init, r);
      } else {
        UnknownIsQueued(init, r);
      }
    }
  }

  /** The state committed last in a conversation, by whomever. */
  ghost function LastState(trace: seq<Action>, s: Scope): BusinessState {
    if trace == [] then DefaultState
    else
      var init, a := trace[..|trace| - 1], trace[|trace| - 1];
      if AcceptedLast(trace) && a.Complete? && a.state.Some? && Exec(init).runs[a.run].scope == s then a.state.value
      else LastState(init, s)
  }

  lemma StateMoves(l: Ledger, a: Action, s: Scope)
    ensures StateOf(Apply(l, a), s) ==
            if Accepted(l, a) && a.Complete? && a.state.Some? && l.runs[a.run].scope == s then a.state.value
            else StateOf(l, s)
  {
  }

  lemma {:induction false} StateIsLastCommitted(trace: seq<Action>, s: Scope)
    ensures StateOf(Exec(trace), s) == LastState(trace, s)
  {
    if trace != [] {
      StateIsLastCommitted(trace[..|trace| - 1], s);
      StateMoves(Exec(trace[..|trace| - 1]), trace[|trace| - 1], s);
    }
  }

  // ----- memory rows

  /** The row was written by an accepted completion, with its texts in their stored form and its route. */
  ghost predicate WrittenBy(trace: seq<Action>, row: MemoryRow) {
    trace != [] &&
      var init, a := trace[..|trace| - 1], trace[|trace| - 1];
      || WrittenBy(init, row)
      || (AcceptedLast(trace) && a.Complete? && row.run == a.run && row.scope == Exec(init).runs[a.run].scope &&
          row.route == a.route && StoredForm(row.query, a.query) && StoredForm(row.answer, a.answer))
  }

  /** The text without surrounding white space, cut after four thousand characters. */
  predicate StoredForm(stored: string, text: string) {
    && stored <= Strip(text) && |stored| <= 4000
    && (|stored| < 4000 ==> stored == Strip(text))
  }

  lemma ClipIsStoredForm(text: string)
    ensures StoredForm(Clip(text), text)
  {
  }

  lemma MemoryGrows(l: Ledger, a: Action, row: MemoryRow)
    requires row in Apply(l, a).memory && row !in l.memory
    ensures Accepted(l, a) && a.Complete?
    ensures row == MemoryRow(a.run, l.runs[a.run].scope, Clip(a.query), Clip(a.answer), a.route)
  {
    assert Accepted(l, a) && a.Complete?;
    RememberedKeeps(
      l.memory, MemoryRow(a.run, l.runs[a.run].scope, Clip(a.query), Clip(a.answer), a.route), a.limit);
  }

  /** Every row of the memory comes from a completion that was accepted. */
  lemma {:induction false} MemoryIsWritten(trace: seq<Action>, row: MemoryRow)
    requires row in Exec(trace).memory
    ensures WrittenBy(trace, row)
  {
    if trace != [] {
      var init, a := trace[..|trace| - 1], trace[|trace| - 1];
      if row in Exec(init).memory {
        MemoryIsWritten(init, row);
      } else {
        MemoryGrows(Exec(init), a, row);
        ClipIsStoredForm(a.query);
        ClipIsStoredForm(a.answer);
      }
    }
  }

  // ----- memory bounds and texts

  /** However large or small the requested bound is, between one and twenty rows are kept. */
  lemma MemoryIsBounded(memory: seq<MemoryRow>, limit: int)
    ensures 1 <= KeptRows(limit) <= 20
    ensures 1 <= limit <= 20 ==> KeptRows(limit) == limit
    ensures limit > 20 ==> KeptRows(limit) == 20
    ensures limit < 1 ==> KeptRows(limit) == 1
  {
  }
}
