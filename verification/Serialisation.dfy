/** Runs of one conversation execute one at a time and in order, as long as runs end at the edges
    of their conversation's queue. */
module Serialisation {
  import opened Common
  import opened Ledger
  import opened LedgerInvariant

  ghost predicate SameConversation(l: Ledger, i: RunId, j: RunId) {
    Known(l, i) && Known(l, j) && l.runs[i].scope == l.runs[j].scope
  }

  /** An open run of the same conversation inserted before `r`. */
  ghost predicate HasElder(l: Ledger, r: RunId) {
    exists o: RunId :: o < r && Open(l, o) && SameConversation(l, o, r)
  }

  ghost predicate HasYounger(l: Ledger, r: RunId) {
    exists o: RunId :: r < o && Open(l, o) && SameConversation(l, o, r)
  }

  /** `d` is the open run of the conversation just before `r`. */
  ghost predicate JustBefore(l: Ledger, d: RunId, r: RunId) {
    && d < r && Open(l, d) && SameConversation(l, d, r)
    && forall o: RunId :: d < o < r && Open(l, o) ==> !SameConversation(l, o, r)
  }

  /** The open runs of a conversation form one chain in creation order: an open run waits for the
      open run just before it, and only the first of them waits for nothing. */
  ghost predicate Linked(l: Ledger, r: RunId)
    requires Known(l, r)
  {
    match l.runs[r].dependsOn
    case Some(d) => if Open(l, d) then JustBefore(l, d, r) else !HasElder(l, r)
    case None => !HasElder(l, r)
  }

  ghost predicate Chained(l: Ledger) {
    forall r: RunId :: Open(l, r) ==> Linked(l, r)
  }

  /** A run that was ever handed to a worker and is still open is the first of its conversation. */
  ghost predicate OnlyFirstStarted(l: Ledger) {
    forall r: RunId :: Open(l, r) && l.runs[r].leaseGeneration > 0 ==> !HasElder(l, r)
  }

  ghost predicate CreationOrdered(l: Ledger) {
    forall i, j :: 0 <= i < j < |l.runs| ==> l.runs[i].createdAt < l.runs[j].createdAt
  }

  ghost predicate SerialInv(l: Ledger) {
    Inv(l) && CreationOrdered(l) && Chained(l) && OnlyFirstStarted(l)
  }

  /** Ending `r` now does not cut the chain: it is the first or the last open run. */
  ghost predicate AtEdge(l: Ledger, r: RunId) {
    !HasElder(l, r) || !HasYounger(l, r)
  }

  /** The run that an accepted transaction moves to a terminal status. */
  ghost predicate Ends(l: Ledger, a: Action, r: RunId) {
    && Accepted(l, a)
    && ((a.Append? && a.run == r && Closing(a.body)) || (a.Complete? && a.run == r))
  }

  // ----- one step

  /** Known runs keep their conversation and their dependency, and none is reopened. */
  ghost predicate Continues(l: Ledger, l': Ledger) {
    && |l.runs| <= |l'.runs|
    && forall o: RunId :: Known(l, o) ==>
         && l'.runs[o].scope == l.runs[o].scope && l'.runs[o].dependsOn == l.runs[o].dependsOn
         && (Open(l', o) ==> Open(l, o))
  }

  lemma EldersShrink(l: Ledger, l': Ledger, r: RunId)
    requires Continues(l, l') && Known(l, r) && HasElder(l', r)
    ensures HasElder(l, r)
  {
    var o: RunId :| o < r && Open(l', o) && SameConversation(l', o, r);
    assert Open(l, o) && SameConversation(l, o, r);
  }

  lemma JustBeforeStays(l: Ledger, l': Ledger, d: RunId, r: RunId)
    requires Continues(l, l') && Known(l, r) && JustBefore(l, d, r) && Open(l', d)
    ensures JustBefore(l', d, r)
  {
    forall o: RunId | d < o < r && Open(l', o) ensures !SameConversation(l', o, r) {
      assert Open(l, o) && !SameConversation(l, o, r);
    }
  }

  /** A run stays linked unless the open run it waits for ends. */
  lemma LinkStays(l: Ledger, l': Ledger, r: RunId)
    requires Inv(l) && Continues(l, l') && Known(l, r) && Linked(l, r)
    requires l.runs[r].dependsOn.Some? && Open(l, l.runs[r].dependsOn.value) ==> Open(l', l.runs[r].dependsOn.value)
    ensures Linked(l', r)
  {
    assert DependencyOk(l, r);
    if l.runs[r].dependsOn.Some? && Open(l, l.runs[r].dependsOn.value) {
      JustBeforeStays(l, l', l.runs[r].dependsOn.value, r);
    } else if HasElder(l', r) {
      EldersShrink(l, l', r);
    }
  }

  lemma SameShapeKeepsChain(l: Ledger, l': Ledger)
    requires Inv(l) && Chained(l) && Continues(l, l') && |l.runs| == |l'.runs|
    requires forall r: RunId :: Open(l, r) ==> Open(l', r)
    ensures Chained(l')
  {
    forall r: RunId | Open(l', r) ensures Linked(l', r) {
      assert Open(l, r);
      LinkStays(l, l', r);
    }
  }

  lemma StartedStaysFirst(l: Ledger, l': Ledger)
    requires OnlyFirstStarted(l) && Continues(l, l')
    requires forall r: RunId :: Open(l', r) && l'.runs[r].leaseGeneration > 0 ==>
      Known(l, r) && (l.runs[r].leaseGeneration > 0 || !HasElder(l, r))
    ensures OnlyFirstStarted(l')
  {
    forall r: RunId | Open(l', r) && l'.runs[r].leaseGeneration > 0 ensures !HasElder(l', r) {
      assert Open(l, r) && !HasElder(l, r);
      if HasElder(l', r) {
        EldersShrink(l, l', r);
      }
    }
  }

  lemma CreateKeepsSerial(l: Ledger, s: Scope, m: string, h: string, q: string, dep: Option<RunId>, now: int)
    requires SerialInv(l) && !MessageSeen(l, s, m) && NewestOpen(l, s, dep)
    requires forall r: RunId :: Known(l, r) ==> l.runs[r].createdAt < now
    ensures SerialInv(Created(l, s, m, h, q, dep, now))
  {
    var l' := Created(l, s, m, h, q, dep, now);
    var n := |l.runs|;
    CreateKeepsInv(l, s, m, h, q, dep, now);
    assert forall r: RunId :: Known(l, r) ==> l'.runs[r] == l.runs[r];
    forall r: RunId | Open(l', r) ensures Linked(l', r) {
      if r < n {
        assert Open(l, r);
        LinkStays(l, l', r);
      } else {
        NewRunIsLinked(l, s, m, h, q, dep, now);
      }
    }
    StartedStaysFirst(l, l');
  }

  lemma NewRunIsLinked(l: Ledger, s: Scope, m: string, h: string, q: string, dep: Option<RunId>, now: int)
    requires CreationOrdered(l) && NewestOpen(l, s, dep)
    ensures Linked(Created(l, s, m, h, q, dep, now), |l.runs|)
  {
    var l' := Created(l, s, m, h, q, dep, now);
    var n := |l.runs|;
    assert forall o: RunId :: o < n && Open(l', o) && SameConversation(l', o, n) ==> OpenIn(l, s, o);
    if dep.Some? {
      var d := dep.value;
      assert OpenIn(l, s, d);
      forall o: RunId | d < o < n && Open(l', o) ensures !SameConversation(l', o, n) {
        assert l.runs[d].createdAt < l.runs[o].createdAt;
        assert !OpenIn(l, s, o);
      }
    }
  }

  lemma ClaimKeepsSerial(l: Ledger, r: RunId, worker: string, now: int, seconds: nat)
    requires SerialInv(l) && Claimable(l, r, now)
    ensures Inv(Claimed(l, r, worker, now, seconds)) ==> SerialInv(Claimed(l, r, worker, now, seconds))
    ensures !HasElder(l, r)
  {
    assert Linked(l, r);
    assert !HasElder(l, r);
    SameShapeKeepsChain(l, Claimed(l, r, worker, now, seconds));
    StartedStaysFirst(l, Claimed(l, r, worker, now, seconds));
  }

  /** Ledgers that differ only in that `r` has become terminal (and in what nobody here looks at). */
  ghost predicate OnlyEnds(l: Ledger, l': Ledger, r: RunId) {
    && Open(l, r) && |l.runs| == |l'.runs| && Terminal(l'.runs[r].status)
    && l'.runs[r].scope == l.runs[r].scope && l'.runs[r].dependsOn == l.runs[r].dependsOn
    && l'.runs[r].createdAt == l.runs[r].createdAt
    && forall o: RunId :: Known(l, o) && o != r ==> l'.runs[o] == l.runs[o]
  }

  lemma EndAtEdgeKeepsChain(l: Ledger, l': Ledger, r: RunId)
    requires Inv(l) && Chained(l) && OnlyEnds(l, l', r) && AtEdge(l, r)
    ensures Chained(l')
  {
    forall x: RunId | Open(l', x) ensures Linked(l', x) {
      assert Open(l, x) && Linked(l, x) && DependencyOk(l, x);
      if l.runs[x].dependsOn == Some(r) {
        SuccessorBecomesFirst(l, l', r, x);
      } else {
        LinkStays(l, l', x);
      }
    }
  }

  lemma SuccessorBecomesFirst(l: Ledger, l': Ledger, r: RunId, x: RunId)
    requires OnlyEnds(l, l', r) && AtEdge(l, r) && Open(l, x) && JustBefore(l, r, x)
    ensures !HasElder(l', x)
  {
    assert SameConversation(l, x, r);
    assert HasYounger(l, r);
    forall o: RunId | o < x && Open(l', o) ensures !SameConversation(l', o, x) {
      assert Open(l, o) && o != r;
      if r < o {
        assert !SameConversation(l, o, x);
      } else {
        assert !SameConversation(l, o, r);
      }
    }
  }

  lemma {:induction false} NextYounger(l: Ledger, r: RunId, o: RunId) returns (next: RunId)
    requires r < o && Open(l, o) && SameConversation(l, o, r)
    ensures r < next && Open(l, next) && SameConversation(l, next, r)
    ensures forall x: RunId :: r < x < next && Open(l, x) ==> !SameConversation(l, x, r)
    decreases o
  {
    if x: RunId :| r < x < o && Open(l, x) && SameConversation(l, x, r) {
      next := NextYounger(l, r, x);
    } else {
      next := o;
    }
  }

  /** A run cancelled from the middle of the chain frees its successor beside its predecessor. */
  lemma EndInMiddleBreaksChain(l: Ledger, l': Ledger, r: RunId) returns (freed: RunId)
    requires Inv(l) && Chained(l) && OnlyEnds(l, l', r) && !AtEdge(l, r)
    ensures Open(l', freed) && DependencyMet(l', l'.runs[freed]) && HasElder(l', freed) && !Linked(l', freed)
  {
    var o: RunId :| r < o && Open(l, o) && SameConversation(l, o, r);
    freed := NextYounger(l, r, o);
    var elder: RunId :| elder < r && Open(l, elder) && SameConversation(l, elder, r);
    assert SameConversation(l, elder, freed);
    assert HasElder(l, freed);
    assert Linked(l, freed);
    var d := l.runs[freed].dependsOn.value;
    assert JustBefore(l, d, freed);
    assert SameConversation(l, r, freed) && d == r;
    assert Open(l', elder) && SameConversation(l', elder, freed);
  }

  /** Exactly when ending a run keeps the conversation serial: it must be the first or the last
      open run of its conversation. Both sides can be read off before the run is ended. */
  lemma EndKeepsChainIffAtEdge(l: Ledger, l': Ledger, r: RunId)
    requires Inv(l) && Chained(l) && OnlyEnds(l, l', r)
    ensures Chained(l') <==> AtEdge(l, r)
  {
    if AtEdge(l, r) {
      EndAtEdgeKeepsChain(l, l', r);
    } else {
      var freed := EndInMiddleBreaksChain(l, l', r);
    }
  }

  lemma EndedRunShape(l: Ledger, a: Action, r: RunId)
    requires Inv(l) && Ends(l, a, r)
    ensures OnlyEnds(l, Apply(l, a), r)
  {
  }

  lemma EndKeepsSerial(l: Ledger, a: Action, r: RunId)
    requires SerialInv(l) && Ends(l, a, r) && AtEdge(l, r)
    ensures SerialInv(Apply(l, a))
  {
    var l' := Apply(l, a);
    EndedRunShape(l, a, r);
    ApplyKeepsInv(l, a);
    EndAtEdgeKeepsChain(l, l', r);
    StartedStaysFirst(l, l');
  }

  /** The run rows keep everything the order of the queue depends on. */
  ghost predicate SameQueue(l: Ledger, l': Ledger) {
    && |l.runs| == |l'.runs|
    && forall o: RunId :: Known(l, o) ==>
         && l'.runs[o].scope == l.runs[o].scope && l'.runs[o].dependsOn == l.runs[o].dependsOn
         && l'.runs[o].createdAt == l.runs[o].createdAt && l'.runs[o].leaseGeneration == l.runs[o].leaseGeneration
         && (Terminal(l'.runs[o].status) <==> Terminal(l.runs[o].status))
  }

  lemma QuietKeepsQueue(l: Ledger, a: Action)
    requires Accepted(l, a)
    requires a.Renew? || a.Release? || (a.Append? && !Closing(a.body))
    ensures SameQueue(l, Apply(l, a))
  {
  }

  lemma SameQueueIsSerial(l: Ledger, l': Ledger)
    requires SerialInv(l) && SameQueue(l, l') && Inv(l')
    ensures SerialInv(l')
  {
    assert forall r: RunId :: Open(l', r) <==> Open(l, r);
    SameShapeKeepsChain(l, l');
    StartedStaysFirst(l, l');
  }

  lemma QuietKeepsSerial(l: Ledger, a: Action)
    requires SerialInv(l) && Accepted(l, a)
    requires a.Renew? || a.Release? || (a.Append? && !Closing(a.body))
    ensures SerialInv(Apply(l, a))
  {
    ApplyKeepsInv(l, a);
    QuietKeepsQueue(l, a);
    SameQueueIsSerial(l, Apply(l, a));
  }

  // ----- whole traces

  /** Creation times strictly increase, and a run that no worker ever started ends only at an edge
      of its conversation's queue. Started runs need no discipline: they are first anyway. */
  ghost predicate OrderlyStep(l: Ledger, a: Action) {
    && CreatedLater(l, a)
    && (forall r: RunId :: Ends(l, a, r) && l.runs[r].leaseGeneration == 0 ==> AtEdge(l, r))
  }

  ghost predicate CreatedLater(l: Ledger, a: Action) {
    a.Create? ==> forall r: RunId :: Known(l, r) ==> l.runs[r].createdAt < a.now
  }

  ghost predicate OrderlyTrace(trace: seq<Action>) {
    trace != [] ==>
      OrderlyTrace(trace[..|trace| - 1]) && OrderlyStep(Exec(trace[..|trace| - 1]), trace[|trace| - 1])
  }

  lemma EndsAtEdge(l: Ledger, a: Action, r: RunId)
    requires SerialInv(l) && OrderlyStep(l, a) && Ends(l, a, r)
    ensures AtEdge(l, r)
  {
    if l.runs[r].leaseGeneration > 0 {
      assert Open(l, r) && !HasElder(l, r);
    }
  }

  lemma ApplyKeepsSerial(l: Ledger, a: Action)
    requires SerialInv(l) && OrderlyStep(l, a)
    ensures SerialInv(Apply(l, a))
  {
    if Accepted(l, a) {
      match a
      case Create(s, m, h, q, _, dep, now) => CreateKeepsSerial(l, s, m, h, q, dep, now);
      case Claim(r, w, now, seconds) =>
        ApplyKeepsInv(l, a);
        ClaimKeepsSerial(l, r, w, now, seconds);
      case Renew(_, _, _, _, _) => QuietKeepsSerial(l, a);
      case Release(_, _, _, _) => QuietKeepsSerial(l, a);
      case Append(r, b, _, _) =>
        if Closing(b) {
          EndsAtEdge(l, a, r);
          EndKeepsSerial(l, a, r);
        } else {
          QuietKeepsSerial(l, a);
        }
      case Complete(r, _, _, _, _, _, _) =>
        EndsAtEdge(l, a, r);
        EndKeepsSerial(l, a, r);
    }
  }

  lemma {:induction false} OrderlyTraceIsSerial(trace: seq<Action>)
    requires OrderlyTrace(trace)
    ensures SerialInv(Exec(trace))
  {
    if trace != [] {
      OrderlyTraceIsSerial(trace[..|trace| - 1]);
      ApplyKeepsSerial(Exec(trace[..|trace| - 1]), trace[|trace| - 1]);
    }
  }

  ghost predicate Leased(l: Ledger, r: RunId) {
    Open(l, r) && l.runs[r].leaseOwner.Some?
  }

  /** Main result: in every orderly interleaving at most one open run of a conversation holds a
      lease, and whatever can be claimed is the first open run of its conversation. */
  lemma OneRunPerConversation(trace: seq<Action>, i: RunId, j: RunId, now: int)
    requires OrderlyTrace(trace) && SameConversation(Exec(trace), i, j)
    ensures Leased(Exec(trace), i) && Leased(Exec(trace), j) ==> i == j
    ensures Claimable(Exec(trace), i, now) && Open(Exec(trace), j) ==> i <= j
  {
    OrderlyTraceIsSerial(trace);
    var l := Exec(trace);
    assert RunOk(l, i) && RunOk(l, j);
    if Claimable(l, i, now) {
      ClaimKeepsSerial(l, i, "", now, 0);
    }
  }

  // ----- order of ending

  lemma ApplyContinues(l: Ledger, a: Action)
    ensures Continues(l, Apply(l, a))
  {
  }

  /** Creation times strictly increase, and a run ends only after the run it depends on has ended. */
  ghost predicate WaitingStep(l: Ledger, a: Action) {
    && CreatedLater(l, a)
    && forall r: RunId :: Ends(l, a, r) ==> DependencyMet(l, l.runs[r])
  }

  ghost predicate WaitingTrace(trace: seq<Action>) {
    trace != [] ==>
      WaitingTrace(trace[..|trace| - 1]) && WaitingStep(Exec(trace[..|trace| - 1]), trace[|trace| - 1])
  }

  lemma MetDependencyIsFirst(l: Ledger, r: RunId)
    requires Chained(l) && Open(l, r) && DependencyMet(l, l.runs[r])
    ensures !HasElder(l, r)
  {
    assert Linked(l, r);
  }

  /** Waiting for the one direct dependency is enough for the whole conversation to be serial. */
  lemma {:induction false} WaitingTraceIsOrderly(trace: seq<Action>)
    requires WaitingTrace(trace)
    ensures OrderlyTrace(trace)
  {
    if trace != [] {
      var n := |trace| - 1;
      WaitingTraceIsOrderly(trace[..n]);
      OrderlyTraceIsSerial(trace[..n]);
      WaitingStepIsOrderly(Exec(trace[..n]), trace[n]);
    }
  }

  lemma WaitingStepIsOrderly(l: Ledger, a: Action)
    requires Chained(l) && WaitingStep(l, a)
    ensures OrderlyStep(l, a)
  {
    forall r: RunId | Ends(l, a, r) ensures AtEdge(l, r) {
      MetDependencyIsFirst(l, r);
    }
  }

  lemma OnlyEndingEnds(l: Ledger, a: Action, r: RunId)
    requires !(Known(l, r) && Terminal(l.runs[r].status))
    requires Known(Apply(l, a), r) && Terminal(Apply(l, a).runs[r].status)
    ensures Ends(l, a, r) && Known(l, r)
  {
  }

  /** Runs of a conversation end in creation order, at every moment of every interleaving in which
      runs are created at increasing times and each ends after its own dependency: whenever a run
      has ended, no older run of its conversation is open. */
  lemma {:induction false} RunsEndInOrder(trace: seq<Action>, r: RunId)
    requires WaitingTrace(trace)
    requires Known(Exec(trace), r) && Terminal(Exec(trace).runs[r].status)
    ensures !HasElder(Exec(trace), r)
  {
    if trace != [] {
      var n := |trace| - 1;
      var l, a := Exec(trace[..n]), trace[n];
      if Known(l, r) && Terminal(l.runs[r].status) {
        RunsEndInOrder(trace[..n], r);
      } else {
        OnlyEndingEnds(l, a, r);
        WaitingTraceIsOrderly(trace[..n]);
        OrderlyTraceIsSerial(trace[..n]);
        MetDependencyIsFirst(l, r);
      }
      if HasElder(Exec(trace), r) {
        ApplyContinues(l, a);
        EldersShrink(l, Apply(l, a), r);
      }
    }
  }

  /** Under the same discipline at most one run of a conversation is leased at any time. */
  lemma WaitingRunsAreSerial(trace: seq<Action>, i: RunId, j: RunId, now: int)
    requires WaitingTrace(trace) && SameConversation(Exec(trace), i, j)
    ensures Leased(Exec(trace), i) && Leased(Exec(trace), j) ==> i == j
    ensures Claimable(Exec(trace), i, now) && Open(Exec(trace), j) ==> i <= j
  {
    WaitingTraceIsOrderly(trace);
    OneRunPerConversation(trace, i, j, now);
  }

  // ----- the discipline is needed

  lemma ExecSnoc(trace: seq<Action>, a: Action)
    ensures Exec(trace + [a]) == Apply(Exec(trace), a)
  {
    assert (trace + [a])[..|trace|] == trace;
  }

  function Waiting(s: Scope, message: string, dep: Option<RunId>, now: int): Run {
    Run(s, message, "hash", "query", Queued, 0, None, None, None, None, None, 0, dep, 0, now)
  }

  function Asks(s: Scope, message: string, dep: Option<RunId>, now: int): Action {
    Create(s, message, "hash", "query", None, dep, now)
  }

  lemma AskingAppends(l: Ledger, s: Scope, message: string, dep: Option<RunId>, now: int)
    requires !MessageSeen(l, s, message) && NewestOpen(l, s, dep) && Version(l, s) == 0
    ensures Apply(l, Asks(s, message, dep, now)).runs == l.runs + [Waiting(s, message, dep, now)]
    ensures Version(Apply(l, Asks(s, message, dep, now)), s) == 0
    ensures StateOf(Apply(l, Asks(s, message, dep, now)), s) == StateOf(l, s)
  {
  }

  lemma ThreeWaiting(s: Scope) returns (trace: seq<Action>)
    ensures Exec(trace).runs == [Waiting(s, "m1", None, 1), Waiting(s, "m2", Some(0), 2), Waiting(s, "m3", Some(1), 3)]
    ensures Version(Exec(trace), s) == 0 && StateOf(Exec(trace), s) == StateOf(Empty, s)
    ensures forall k :: 0 <= k < |trace| ==> trace[k].Create?
  {
    AskingAppends(Empty, s, "m1", None, 1);
    ExecSnoc([], Asks(s, "m1", None, 1));
    trace := [] + [Asks(s, "m1", None, 1)];
    var l1 := Exec(trace);
    assert l1.runs == [Waiting(s, "m1", None, 1)] && OpenIn(l1, s, 0);
    AskingAppends(l1, s, "m2", Some(0), 2);
    ExecSnoc(trace, Asks(s, "m2", Some(0), 2));
    trace := trace + [Asks(s, "m2", Some(0), 2)];
    var l2 := Exec(trace);
    assert l2.runs == [Waiting(s, "m1", None, 1), Waiting(s, "m2", Some(0), 2)] && OpenIn(l2, s, 1);
    AskingAppends(l2, s, "m3", Some(1), 3);
    ExecSnoc(trace, Asks(s, "m3", Some(1), 3));
    trace := trace + [Asks(s, "m3", Some(1), 3)];
  }

  lemma ClaimApplies(trace: seq<Action>, r: RunId, now: int)
    requires OldestClaimable(Exec(trace), r, now)
    ensures Exec(trace + [Claim(r, "w", now, 30)]) == Claimed(Exec(trace), r, "w", now, 30)
  {
    ExecSnoc(trace, Claim(r, "w", now, 30));
  }

  lemma CancelApplies(trace: seq<Action>, r: RunId, now: int)
    requires Open(Exec(trace), r)
    ensures Exec(trace + [Append(r, RunCancelled("user"), None, now)]) ==
            Appended(Exec(trace), r, RunCancelled("user"), None, now)
  {
    ExecSnoc(trace, Append(r, RunCancelled("user"), None, now));
  }

  /** Three messages of one conversation: the first is running, the second is cancelled while it
      waits, and the third is handed out beside the first. */
  lemma CancelledMiddleRunsTwo(s: Scope) returns (trace: seq<Action>)
    ensures SameConversation(Exec(trace), 0, 2) && Leased(Exec(trace), 0) && Leased(Exec(trace), 2)
  {
    trace := ThreeWaiting(s);
    var l3 := Exec(trace);
    assert Claimable(l3, 0, 4) && !Claimable(l3, 1, 4) && !Claimable(l3, 2, 4);
    ClaimApplies(trace, 0, 4);
    trace := trace + [Claim(0, "w", 4, 30)];
    CancelApplies(trace, 1, 5);
    trace := trace + [Append(1, RunCancelled("user"), None, 5)];
    var l5 := Exec(trace);
    assert Claimable(l5, 2, 6) && !Claimable(l5, 0, 6) && !Claimable(l5, 1, 6);
    ClaimApplies(trace, 2, 6);
    trace := trace + [Claim(2, "w", 6, 30)];
  }
}
