/** Workers load the conversation state, build the next one and commit it by version comparison. */
module LostUpdates {
  import opened Common
  import opened ConversationState
  import opened Ledger
  import opened LedgerInvariant
  import Serialisation

  /** What an execution read; `resumed` when a checkpoint of the conversation replaced its own reading by
      that of an earlier execution. */
  datatype Loaded = Loaded(version: nat, state: BusinessState, resumed: bool)

  /** One execution: the run and the generation its claim returned. */
  datatype Worker = Worker(run: RunId, generation: nat, loaded: Option<Loaded>)

  /** `turns` records, per conversation, the turns whose commit was accepted. */
  datatype System = System(ledger: Ledger, workers: seq<Worker>, turns: map<Scope, seq<Turn>>)

  const Initial: System := System(Empty, [], map[])

  datatype Step =
    | Traffic(action: Action)
    | Start(run: RunId, worker: string, now: int, seconds: nat)
    | Load(index: nat)
    | Resume(index: nat, earlier: nat)
    | Commit(index: nat, turn: Turn, now: int)

  function TurnsOf(sys: System, s: Scope): seq<Turn> {
    if s in sys.turns then sys.turns[s] else []
  }

  function CommitAction(w: Worker, t: Turn, now: int): Action
    requires w.loaded.Some?
  {
    Complete(w.run, t.query, t.answer, t.intent, MEMORY_LIMIT, Some(Committed(w.loaded.value.state, t)), now)
  }

  /** The commit is attempted by an execution that has read a state, and the store accepts it. */
  ghost predicate CommitAccepted(sys: System, index: nat, t: Turn, now: int) {
    && index < |sys.workers| && sys.workers[index].loaded.Some?
    && Accepted(sys.ledger, CommitAction(sys.workers[index], t, now))
  }

  /** Checkpoints are kept per conversation, so the restored reading may belong to another of its runs. */
  predicate Resumable(sys: System, i: nat, j: nat) {
    && i < |sys.workers| && j < |sys.workers| && sys.workers[j].loaded.Some?
    && Known(sys.ledger, sys.workers[i].run) && Known(sys.ledger, sys.workers[j].run)
    && sys.ledger.runs[sys.workers[i].run].scope == sys.ledger.runs[sys.workers[j].run].scope
  }

  ghost function Next(sys: System, step: Step): System {
    match step
    case Traffic(a) => if a.Complete? then sys else sys.(ledger := Apply(sys.ledger, a))
    case Start(r, worker, now, seconds) =>
      if !Accepted(sys.ledger, Claim(r, worker, now, seconds)) then sys
      else
        var l := Apply(sys.ledger, Claim(r, worker, now, seconds));
        sys.(ledger := l, workers := sys.workers + [Worker(r, l.runs[r].leaseGeneration, None)])
    case Load(i) =>
      if i >= |sys.workers| || !Known(sys.ledger, sys.workers[i].run) then sys
      else
        var s := sys.ledger.runs[sys.workers[i].run].scope;
        sys.(workers := sys.workers[i := sys.workers[i].(
          loaded := Some(Loaded(Version(sys.ledger, s), StateOf(sys.ledger, s), false)))])
    case Resume(i, j) =>
      if !Resumable(sys, i, j) then sys
      else sys.(workers := sys.workers[i := sys.workers[i].(
          loaded := Some(sys.workers[j].loaded.value.(resumed := true)))])
    case Commit(i, t, now) =>
      if !CommitAccepted(sys, i, t, now) then sys
      else
        var s := sys.ledger.runs[sys.workers[i].run].scope;
        sys.(ledger := Apply(sys.ledger, CommitAction(sys.workers[i], t, now)),
            turns := sys.turns[s := TurnsOf(sys, s) + [t]])
  }

  ghost function Play(steps: seq<Step>): System {
    if steps == [] then Initial else Next(Play(steps[..|steps| - 1]), steps[|steps| - 1])
  }

  /** The committer still holds the generation it claimed, and it did not resume from a checkpoint. */
  predicate Current(sys: System, w: Worker) {
    && Known(sys.ledger, w.run) && sys.ledger.runs[w.run].leaseGeneration == w.generation
    && w.loaded.Some? && !w.loaded.value.resumed
  }

  ghost predicate FencedStep(sys: System, step: Step) {
    step.Commit? && CommitAccepted(sys, step.index, step.turn, step.now) ==> Current(sys, sys.workers[step.index])
  }

  ghost predicate FencedSteps(steps: seq<Step>) {
    steps != [] ==> FencedSteps(steps[..|steps| - 1]) && FencedStep(Play(steps[..|steps| - 1]), steps[|steps| - 1])
  }

  // ----- invariant

  /** A reading is never from the future, and one with the current version is the current state. A
      current execution that did not resume read no earlier than its claim. */
  ghost predicate WorkerOk(l: Ledger, w: Worker) {
    && Known(l, w.run) && w.generation <= l.runs[w.run].leaseGeneration
    && (w.loaded.Some? ==>
        var s := l.runs[w.run].scope;
        && w.loaded.value.version <= Version(l, s)
        && (w.loaded.value.version == Version(l, s) ==> w.loaded.value.state == StateOf(l, s))
        && (!w.loaded.value.resumed && w.generation == l.runs[w.run].leaseGeneration ==>
              l.runs[w.run].baseVersion <= w.loaded.value.version))
  }

  ghost predicate WorkersOk(sys: System) {
    forall i :: 0 <= i < |sys.workers| ==> WorkerOk(sys.ledger, sys.workers[i])
  }

  /** The stored state of every conversation is the fold of its committed turns. */
  ghost predicate Folded(sys: System) {
    forall s: Scope ::
      StateOf(sys.ledger, s) == Fold(TurnsOf(sys, s)) && Version(sys.ledger, s) == |TurnsOf(sys, s)|
  }

  ghost predicate SystemInv(sys: System) {
    Inv(sys.ledger) && WorkersOk(sys)
  }

  lemma WorkerStaysOk(l: Ledger, a: Action, w: Worker)
    requires Inv(l) && WorkerOk(l, w)
    ensures WorkerOk(Apply(l, a), w)
  {
    var l' := Apply(l, a);
    var s := l.runs[w.run].scope;
    assert RunOk(l, w.run);
    assert l'.runs[w.run].scope == s;
    assert Version(l, s) <= Version(l', s);
    assert Version(l, s) == Version(l', s) ==> StateOf(l, s) == StateOf(l', s);
  }

  lemma ResumeKeepsWorkers(sys: System, i: nat, j: nat)
    requires SystemInv(sys)
    ensures SystemInv(Next(sys, Resume(i, j)))
  {
    if Resumable(sys, i, j) {
      assert WorkerOk(sys.ledger, sys.workers[i]) && WorkerOk(sys.ledger, sys.workers[j]);
    }
  }

  lemma NextKeepsSystemInv(sys: System, step: Step)
    requires SystemInv(sys)
    ensures SystemInv(Next(sys, step))
  {
    var sys' := Next(sys, step);
    match step
    case Traffic(a) => ApplyKeepsWorkers(sys, a);
    case Start(r, worker, now, seconds) => ApplyKeepsWorkers(sys, Claim(r, worker, now, seconds));
    case Load(i) =>
      if i < |sys.workers| {
        assert WorkerOk(sys.ledger, sys.workers[i]);
        assert RunOk(sys.ledger, sys.workers[i].run);
      }
    case Resume(i, j) => ResumeKeepsWorkers(sys, i, j);
    case Commit(i, t, now) =>
      if CommitAccepted(sys, i, t, now) {
        ApplyKeepsWorkers(sys, CommitAction(sys.workers[i], t, now));
      }
  }

  lemma ApplyKeepsWorkers(sys: System, a: Action)
    requires SystemInv(sys)
    ensures Inv(Apply(sys.ledger, a))
    ensures forall i :: 0 <= i < |sys.workers| ==> WorkerOk(Apply(sys.ledger, a), sys.workers[i])
  {
    ApplyKeepsInv(sys.ledger, a);
    forall i | 0 <= i < |sys.workers| ensures WorkerOk(Apply(sys.ledger, a), sys.workers[i]) {
      WorkerStaysOk(sys.ledger, a, sys.workers[i]);
    }
  }

  lemma {:induction false} EveryPlayKeepsSystemInv(steps: seq<Step>)
    ensures SystemInv(Play(steps))
  {
    if steps != [] {
      EveryPlayKeepsSystemInv(steps[..|steps| - 1]);
      NextKeepsSystemInv(Play(steps[..|steps| - 1]), steps[|steps| - 1]);
    }
  }

  // ----- main results

  /** Which accepted commits lose updates can be told before the commit, resumed or not: those whose
      reading is not the base version of the run row. With the base version an execution commits on top of the very
      state that is stored; with any other it read before some commit that its own now overwrites. */
  lemma CommitReplacesWhatItReadIff(steps: seq<Step>, i: nat, t: Turn, now: int)
    requires CommitAccepted(Play(steps), i, t, now)
    ensures
      var sys := Play(steps);
      var w := sys.workers[i];
      var s := sys.ledger.runs[w.run].scope;
      var after := StateOf(Next(sys, Commit(i, t, now)).ledger, s);
      if w.loaded.value.version == sys.ledger.runs[w.run].baseVersion
      then w.loaded.value.state == StateOf(sys.ledger, s) && after == Committed(StateOf(sys.ledger, s), t)
      else w.loaded.value.version < Version(sys.ledger, s) && after == Committed(w.loaded.value.state, t)
  {
    EveryPlayKeepsSystemInv(steps);
    assert WorkerOk(Play(steps).ledger, Play(steps).workers[i]);
  }

  /** With the fencing generation still current, a commit can only replace the state it read. */
  lemma FencedCommitLosesNothing(steps: seq<Step>, i: nat, t: Turn, now: int)
    requires CommitAccepted(Play(steps), i, t, now) && Current(Play(steps), Play(steps).workers[i])
    ensures
      var sys := Play(steps);
      var s := sys.ledger.runs[sys.workers[i].run].scope;
      var sys' := Next(sys, Commit(i, t, now));
      && sys.workers[i].loaded.value.state == StateOf(sys.ledger, s)
      && StateOf(sys'.ledger, s) == Committed(StateOf(sys.ledger, s), t)
      && Version(sys'.ledger, s) == Version(sys.ledger, s) + 1
  {
    EveryPlayKeepsSystemInv(steps);
    CurrentCommit(Play(steps), i, t, now);
  }

  lemma CurrentCommit(sys: System, i: nat, t: Turn, now: int)
    requires SystemInv(sys) && CommitAccepted(sys, i, t, now) && Current(sys, sys.workers[i])
    ensures
      var s := sys.ledger.runs[sys.workers[i].run].scope;
      var sys' := Next(sys, Commit(i, t, now));
      && sys.workers[i].loaded.value.state == StateOf(sys.ledger, s)
      && StateOf(sys'.ledger, s) == Committed(StateOf(sys.ledger, s), t)
      && Version(sys'.ledger, s) == Version(sys.ledger, s) + 1
  {
    assert WorkerOk(sys.ledger, sys.workers[i]);
  }

  lemma OtherStepKeepsFold(sys: System, a: Action)
    requires Folded(sys) && !a.Complete?
    ensures Folded(sys.(ledger := Apply(sys.ledger, a)))
  {
    var l, l' := sys.ledger, Apply(sys.ledger, a);
    forall s: Scope ensures StateOf(l', s) == StateOf(l, s) && Version(l', s) == Version(l, s) {
    }
    forall s: Scope
      ensures StateOf(l', s) == Fold(TurnsOf(sys, s)) && Version(l', s) == |TurnsOf(sys, s)|
    {
      assert StateOf(l, s) == Fold(TurnsOf(sys, s));
    }
  }

  /** Whatever the interleaving, if every accepted commit was fenced, the state of each conversation
      is the left fold of its committed turns in commit order. */
  lemma {:induction false} StateIsFoldOfCommits(steps: seq<Step>)
    requires FencedSteps(steps)
    ensures Folded(Play(steps))
  {
    if steps != [] {
      var n := |steps| - 1;
      var sys := Play(steps[..n]);
      StateIsFoldOfCommits(steps[..n]);
      match steps[n]
      case Traffic(a) =>
        if !a.Complete? {
          OtherStepKeepsFold(sys, a);
        }
      case Start(r, worker, now, seconds) => OtherStepKeepsFold(sys, Claim(r, worker, now, seconds));
      case Load(_) =>
      case Resume(_, _) =>
      case Commit(i, t, now) =>
        if CommitAccepted(sys, i, t, now) {
          FencedCommitLosesNothing(steps[..n], i, t, now);
          CommitExtendsFold(sys, i, t, now);
        }
    }
  }

  /** What a commit does to one conversation, and that it does nothing to the others. */
  lemma CommitInScope(sys: System, i: nat, t: Turn, now: int, s: Scope)
    requires CommitAccepted(sys, i, t, now)
    ensures var w, sys' := sys.workers[i], Next(sys, Commit(i, t, now));
            if s == sys.ledger.runs[w.run].scope
            then TurnsOf(sys', s) == TurnsOf(sys, s) + [t] && Version(sys'.ledger, s) == Version(sys.ledger, s) + 1 &&
                 StateOf(sys'.ledger, s) == Committed(w.loaded.value.state, t)
            else TurnsOf(sys', s) == TurnsOf(sys, s) && Version(sys'.ledger, s) == Version(sys.ledger, s) &&
                 StateOf(sys'.ledger, s) == StateOf(sys.ledger, s)
  {
  }

  lemma FoldSnoc(turns: seq<Turn>, t: Turn)
    ensures Fold(turns + [t]) == Committed(Fold(turns), t)
  {
    assert (turns + [t])[..|turns|] == turns;
  }

  lemma CommitExtendsFold(sys: System, i: nat, t: Turn, now: int)
    requires Folded(sys) && CommitAccepted(sys, i, t, now)
    requires sys.workers[i].loaded.value.state == StateOf(sys.ledger, sys.ledger.runs[sys.workers[i].run].scope)
    ensures Folded(Next(sys, Commit(i, t, now)))
  {
    var sys' := Next(sys, Commit(i, t, now));
    forall s: Scope
      ensures StateOf(sys'.ledger, s) == Fold(TurnsOf(sys', s)) && Version(sys'.ledger, s) == |TurnsOf(sys', s)|
    {
      assert StateOf(sys.ledger, s) == Fold(TurnsOf(sys, s));
      CommitInScope(sys, i, t, now, s);
      FoldSnoc(TurnsOf(sys, s), t);
    }
  }

  /** So the digest a conversation shows is that of its last twelve committed turns, and its query
      context that of the last map turn among them. */
  lemma CommittedHistoryIsVisible(steps: seq<Step>, s: Scope, k: nat)
    requires FencedSteps(steps)
    requires k < |TurnsOf(Play(steps), s)| && Recognised(TurnsOf(Play(steps), s)[k])
    requires forall i :: k < i < |TurnsOf(Play(steps), s)| ==> !Recognised(TurnsOf(Play(steps), s)[i])
    ensures
      var turns := TurnsOf(Play(steps), s);
      && StateOf(Play(steps).ledger, s).digest == LastN(Digests(turns), 12)
      && StateOf(Play(steps).ledger, s).query == QueryFrom(turns[k])
  {
    StateIsFoldOfCommits(steps);
    DigestIsLastTwelve(TurnsOf(Play(steps), s));
    QueryComesFromLastMapTurn(TurnsOf(Play(steps), s), k);
  }

  // ----- the fence is needed

  lemma PlaySnoc(steps: seq<Step>, step: Step)
    ensures Play(steps + [step]) == Next(Play(steps), step)
  {
    assert (steps + [step])[..|steps|] == steps;
  }

  lemma {:induction false} TrafficAlone(trace: seq<Action>) returns (steps: seq<Step>)
    requires forall k :: 0 <= k < |trace| ==> !trace[k].Complete?
    ensures Play(steps) == System(Exec(trace), [], map[])
  {
    steps := [];
    if trace != [] {
      var n := |trace| - 1;
      steps := TrafficAlone(trace[..n]);
      PlaySnoc(steps, Traffic(trace[n]));
      steps := steps + [Traffic(trace[n])];
    }
  }

  ghost predicate Situation(sys: System, s: Scope, runs: seq<Run>, workers: seq<Worker>, turns: seq<Turn>,
      state: BusinessState) {
    && sys.ledger.runs == runs && sys.workers == workers && TurnsOf(sys, s) == turns
    && Version(sys.ledger, s) == |turns| && StateOf(sys.ledger, s) == state
  }

  function Held(run: Run, worker: string, until: int, generation: nat, base: nat): Run {
    run.(status := Running, leaseOwner := Some(worker), leaseUntil := Some(until),
         leaseGeneration := generation, baseVersion := base)
  }

  function Reader(r: RunId): Worker {
    Worker(r, 1, Some(Loaded(0, DefaultState, false)))
  }

  /** A claim followed by the reading of the conversation state. */
  lemma ClaimAndRead(sys: System, s: Scope, runs: seq<Run>, workers: seq<Worker>, r: RunId, now: int)
    requires Situation(sys, s, runs, workers, [], DefaultState)
    requires OldestClaimable(sys.ledger, r, now) && runs[r].scope == s && runs[r].leaseGeneration == 0
    ensures
      var sys' := Next(Next(sys, Start(r, "w", now, 30)), Load(|workers|));
      Situation(sys', s, runs[r := Held(runs[r], "w", now + 30, 1, 0)], workers + [Reader(r)], [], DefaultState)
  {
    var mid := Next(sys, Start(r, "w", now, 30));
    assert mid.ledger == Claimed(sys.ledger, r, "w", now, 30);
    assert mid.workers == workers + [Worker(r, 1, None)];
  }

  lemma CommitInSituation(
    sys: System, s: Scope, runs: seq<Run>, workers: seq<Worker>, turns: seq<Turn>, state: BusinessState,
    i: nat, t: Turn, now: int)
    requires Situation(sys, s, runs, workers, turns, state)
    requires i < |workers| && workers[i].run < |runs| && workers[i].loaded.Some?
    requires var run := runs[workers[i].run]; run.scope == s && !Terminal(run.status) && run.baseVersion == |turns|
    ensures
      var r := workers[i].run;
      Situation(
        Next(sys, Commit(i, t, now)), s, runs[r := RunAfter(runs[r], RunCompleted(t.answer), None)], workers,
        turns + [t], Committed(workers[i].loaded.value.state, t))
  {
    assert CommitAccepted(sys, i, t, now);
  }

  lemma TwoReaders(s: Scope) returns (steps: seq<Step>, runs: seq<Run>)
    ensures Situation(Play(steps), s, runs, [Reader(0), Reader(2)], [], DefaultState)
    ensures |runs| == 3 && runs[0] == Held(Serialisation.Waiting(s, "m1", None, 1), "w", 34, 1, 0)
    ensures Terminal(runs[1].status) && runs[2] == Held(Serialisation.Waiting(s, "m3", Some(1), 3), "w", 36, 1, 0)
  {
    var trace := Serialisation.ThreeWaiting(s);
    steps := TrafficAlone(trace);
    runs := Exec(trace).runs;
    var l := Exec(trace);
    assert Claimable(l, 0, 4) && !Claimable(l, 1, 4) && !Claimable(l, 2, 4);
    ClaimAndRead(Play(steps), s, runs, [], 0, 4);
    PlaySnoc(steps, Start(0, "w", 4, 30));
    steps := steps + [Start(0, "w", 4, 30)];
    PlaySnoc(steps, Load(0));
    steps := steps + [Load(0)];
    runs := runs[0 := Held(runs[0], "w", 34, 1, 0)];
    steps, runs := SecondReads(s, steps, runs);
  }

  lemma SecondReads(s: Scope, before: seq<Step>, runs: seq<Run>) returns (steps: seq<Step>, after: seq<Run>)
    requires Situation(Play(before), s, runs, [Reader(0)], [], DefaultState)
    requires |runs| == 3 && runs[0] == Held(Serialisation.Waiting(s, "m1", None, 1), "w", 34, 1, 0)
    requires runs[1] == Serialisation.Waiting(s, "m2", Some(0), 2) &&
            runs[2] == Serialisation.Waiting(s, "m3", Some(1), 3)
    ensures Situation(Play(steps), s, after, [Reader(0), Reader(2)], [], DefaultState)
    ensures |after| == 3 && after[0] == runs[0] && Terminal(after[1].status)
    ensures after[2] == Held(runs[2], "w", 36, 1, 0)
  {
    var cancel := Append(1, RunCancelled("user"), None, 5);
    PlaySnoc(before, Traffic(cancel));
    steps := before + [Traffic(cancel)];
    after := runs[1 := RunAfter(runs[1], RunCancelled("user"), None)];
    var sys := Play(steps);
    assert Situation(sys, s, after, [Reader(0)], [], DefaultState);
    assert Claimable(sys.ledger, 2, 6) && !Claimable(sys.ledger, 0, 6) && !Claimable(sys.ledger, 1, 6);
    ClaimAndRead(sys, s, after, [Reader(0)], 2, 6);
    PlaySnoc(steps, Start(2, "w", 6, 30));
    steps := steps + [Start(2, "w", 6, 30)];
    PlaySnoc(steps, Load(1));
    steps := steps + [Load(1)];
    after := after[2 := Held(after[2], "w", 36, 1, 0)];
  }

  /** The second execution commits; the first lost its lease, its run was claimed again, and its own
      late commit is accepted too: two turns were committed and only one is left in the state. */
  lemma UpdateIsLost(s: Scope, first: Turn, second: Turn) returns (steps: seq<Step>)
    ensures TurnsOf(Play(steps), s) == [first, second]
    ensures StateOf(Play(steps).ledger, s) == Committed(DefaultState, second)
    ensures StateOf(Play(steps).ledger, s) != Fold(TurnsOf(Play(steps), s))
  {
    var runs: seq<Run>;
    steps, runs := TwoReaders(s);
    var readers := [Reader(0), Reader(2)];
    CommitInSituation(Play(steps), s, runs, readers, [], DefaultState, 1, first, 7);
    PlaySnoc(steps, Commit(1, first, 7));
    steps := steps + [Commit(1, first, 7)];
    runs := runs[2 := RunAfter(runs[2], RunCompleted(first.answer), None)];
    assert [] + [first] == [first];
    steps, runs := FirstReclaimed(s, steps, runs, readers, first);
    CommitInSituation(Play(steps), s, runs, readers, [first], Committed(DefaultState, first), 0, second, 41);
    PlaySnoc(steps, Commit(0, second, 41));
    steps := steps + [Commit(0, second, 41)];
    assert [first] + [second] == [first, second];
    FoldKeepsBoth(first, second);
  }

  lemma FoldKeepsBoth(first: Turn, second: Turn)
    ensures Fold([first, second]) != Committed(DefaultState, second)
  {
    DigestIsLastTwelve([first, second]);
    assert |Fold([first, second]).digest| == 2;
    assert |Committed(DefaultState, second).digest| == 1;
  }

  lemma FirstReclaimed(s: Scope, before: seq<Step>, runs: seq<Run>, workers: seq<Worker>, first: Turn)
    returns (steps: seq<Step>, after: seq<Run>)
    requires Situation(Play(before), s, runs, workers, [first], Committed(DefaultState, first))
    requires |runs| == 3 && runs[0] == Held(Serialisation.Waiting(s, "m1", None, 1), "w", 34, 1, 0)
    requires Terminal(runs[1].status) && Terminal(runs[2].status)
    ensures Situation(Play(steps), s, after, workers, [first], Committed(DefaultState, first))
    ensures |after| == 3 && after[0].scope == s && after[0].status == Running && after[0].baseVersion == 1
  {
    ClaimInSituation(Play(before), s, runs, workers, [first], Committed(DefaultState, first));
    PlaySnoc(before, Traffic(Claim(0, "v", 40, 30)));
    steps := before + [Traffic(Claim(0, "v", 40, 30))];
    after := runs[0 := Held(runs[0], "v", 70, 2, 1)];
  }

  lemma ClaimInSituation(
    sys: System, s: Scope, runs: seq<Run>, workers: seq<Worker>, turns: seq<Turn>, state: BusinessState)
    requires Situation(sys, s, runs, workers, turns, state)
    requires |runs| == 3 && runs[0] == Held(Serialisation.Waiting(s, "m1", None, 1), "w", 34, 1, 0)
    requires Terminal(runs[1].status) && Terminal(runs[2].status)
    ensures Situation(Next(sys, Traffic(Claim(0, "v", 40, 30))), s, runs[0 := Held(runs[0], "v", 70, 2, |turns|)],
                      workers, turns, state)
  {
    assert Claimable(sys.ledger, 0, 40) && !Claimable(sys.ledger, 1, 40) && !Claimable(sys.ledger, 2, 40);
    assert Next(sys, Traffic(Claim(0, "v", 40, 30))).ledger == Claimed(sys.ledger, 0, "v", 40, 30);
  }
}
