/** Executions that look a tool event up and write it in separate transactions, and failures that list
    the open calls and close them one by one, interleaved with each other and with all other traffic. */
module ToolWriters {
  import opened Common
  import opened Ledger
  import opened LedgerInvariant
  import opened ToolEvents

  /** How far one emission or one failure has come. `Cleared` found no event of its call and kind;
      `Ending` still has to close the listed calls before it writes the failure. */
  datatype Stage =
    | Looking(body: Body) | Cleared(body: Body)
    | Reading(code: string) | Opening(code: string) | Listing(code: string) | Ending(code: string, calls: seq<Call>)
    | Gone

  datatype Writer = Writer(run: RunId, stage: Stage)

  datatype System = System(ledger: Ledger, writers: seq<Writer>)

  const Initial: System := System(Empty, [])

  /** `Look` is the next read of a writer and `Write` its next append. An append that the store
      refuses ends the writer, and a writer can stop at any moment. */
  datatype Step =
    | Traffic(action: Action)
    | Enter(run: RunId, stage: Stage)
    | Look(writer: nat)
    | Write(writer: nat, now: int)
    | Abandon(writer: nat)

  predicate ToolBody(b: Body) {
    b.ToolStarted? || b.ToolCompleted?
  }

  /** Traffic other than the writers' writes no tool event. */
  predicate NoToolBody(a: Action) {
    a.Append? ==> !ToolBody(a.body)
  }

  predicate Entrance(stage: Stage) {
    stage.Reading? || (stage.Looking? && ToolBody(stage.body))
  }

  /** Between its first read and its last append. */
  predicate InFlight(stage: Stage) {
    stage.Cleared? || stage.Opening? || stage.Listing? || stage.Ending?
  }

  function AfterLook(l: Ledger, w: Writer): Stage {
    match w.stage
    case Looking(b) => if Present(LogOf(l, w.run), b) then Gone else Cleared(b)
    case Reading(code) =>
      if !Open(l, w.run) then Gone else if l.runs[w.run].lastSequence == 0 then Opening(code) else Listing(code)
    case Listing(code) => Ending(code, Pending(LogOf(l, w.run)))
    case _ => w.stage
  }

  function NextBody(stage: Stage): Option<Body> {
    match stage
    case Cleared(b) => Some(b)
    case Opening(_) => Some(RunStarted)
    case Ending(code, calls) => Some(if calls == [] then RunFailed(code) else Closure(calls[0]))
    case _ => None
  }

  function AfterWrite(stage: Stage): Stage {
    match stage
    case Opening(code) => Listing(code)
    case Ending(code, calls) => if calls == [] then Gone else Ending(code, calls[1..])
    case _ => Gone
  }

  ghost function Next(sys: System, step: Step): System {
    match step
    case Traffic(a) => if NoToolBody(a) then sys.(ledger := Apply(sys.ledger, a)) else sys
    case Enter(r, stage) => if Entrance(stage) then sys.(writers := sys.writers + [Writer(r, stage)]) else sys
    case Look(i) =>
      if i >= |sys.writers| then sys
      else sys.(writers := sys.writers[i := sys.writers[i].(stage := AfterLook(sys.ledger, sys.writers[i]))])
    case Write(i, now) =>
      if i >= |sys.writers| || NextBody(sys.writers[i].stage).None? then sys
      else Wrote(sys, i, now)
    case Abandon(i) =>
      if i >= |sys.writers| then sys else sys.(writers := sys.writers[i := sys.writers[i].(stage := Gone)])
  }

  function Wrote(sys: System, i: nat, now: int): System
    requires i < |sys.writers| && NextBody(sys.writers[i].stage).Some?
  {
    var w := sys.writers[i];
    if !Open(sys.ledger, w.run) then sys.(writers := sys.writers[i := w.(stage := Gone)])
    else System(
      Appended(sys.ledger, w.run, NextBody(w.stage).value, None, now),
      sys.writers[i := w.(stage := AfterWrite(w.stage))])
  }

  ghost function PlayFrom(sys: System, steps: seq<Step>): System {
    if steps == [] then sys else Next(PlayFrom(sys, steps[..|steps| - 1]), steps[|steps| - 1])
  }

  ghost function Play(steps: seq<Step>): System {
    PlayFrom(Initial, steps)
  }

  // ----- counting by kind

  predicate SameKind(a: Body, b: Body) {
    if b.ToolStarted? then StartOf(a, b.callId) else b.ToolCompleted? && CompletionOf(a, b.callId)
  }

  /** How many events of the call and kind of `b` a log holds. */
  function Alike(bodies: seq<Body>, b: Body): nat
    requires ToolBody(b)
  {
    if b.ToolStarted? then Starts(bodies, b.callId) else Completions(bodies, b.callId)
  }

  lemma PresentMeansAlike(bodies: seq<Body>, b: Body)
    requires ToolBody(b) && b.callId != ""
    ensures Present(bodies, b) <==> Alike(bodies, b) > 0
  {
    CountZeroIffAbsent(bodies, b.callId);
  }

  lemma {:induction false} AlikeConcat(first: seq<Body>, second: seq<Body>, b: Body)
    requires ToolBody(b)
    ensures Alike(first + second, b) == Alike(first, b) + Alike(second, b)
    ensures Alike(second, b) == 0 <==> forall k :: 0 <= k < |second| ==> !SameKind(second[k], b)
  {
    CountZeroIffAbsent(second, b.callId);
    if second == [] {
      assert first + second == first;
    } else {
      var init, last := second[..|second| - 1], second[|second| - 1];
      AlikeConcat(first, init, b);
      assert first + second == (first + init) + [last] && second == init + [last];
      StartsSnoc(first + init, last, b.callId);
      StartsSnoc(init, last, b.callId);
    }
  }

  // ----- the log under one step

  lemma StepExtendsLog(sys: System, step: Step, r: RunId)
    ensures LogOf(sys.ledger, r) <= LogOf(Next(sys, step).ledger, r)
  {
    match step
    case Traffic(a) => ApplyExtendsLog(sys.ledger, a, r);
    case Write(i, now) =>
      if i < |sys.writers| && NextBody(sys.writers[i].stage).Some? && Open(sys.ledger, sys.writers[i].run) {
        AppendedBodies(sys.ledger, sys.writers[i].run, NextBody(sys.writers[i].stage).value, None, now, r);
      }
    case _ =>
  }

  lemma {:induction false} PlayExtendsLog(sys: System, steps: seq<Step>, r: RunId)
    ensures LogOf(sys.ledger, r) <= LogOf(PlayFrom(sys, steps).ledger, r)
  {
    if steps != [] {
      PlayExtendsLog(sys, steps[..|steps| - 1], r);
      StepExtendsLog(PlayFrom(sys, steps[..|steps| - 1]), steps[|steps| - 1], r);
    }
  }

  // ----- exactly when an emission stays single

  /** What was written to a run since its log read `before`. */
  ghost function Since(before: seq<Body>, l: Ledger, r: RunId): seq<Body> {
    var log := LogOf(l, r);
    if before <= log then log[|before|..] else []
  }

  lemma {:induction false} GoneStaysGone(sys: System, i: nat, steps: seq<Step>)
    requires i < |sys.writers|
    ensures i < |PlayFrom(sys, steps).writers| && PlayFrom(sys, steps).writers[i].run == sys.writers[i].run
    ensures sys.writers[i].stage.Gone? ==> PlayFrom(sys, steps).writers[i].stage.Gone?
  {
    if steps != [] {
      GoneStaysGone(sys, i, steps[..|steps| - 1]);
    }
  }

  /** A writer that is still about to append what its lookup cleared. */
  ghost predicate StillCleared(sys: System, i: nat, b: Body) {
    i < |sys.writers| && sys.writers[i].stage == Cleared(b) && Open(sys.ledger, sys.writers[i].run)
  }

  /** Whatever happens between a writer's lookup and its append, the append adds no second event of
      its call and kind if and only if none was written since the lookup. */
  lemma WriteStaysSingleIff(sys: System, i: nat, b: Body, rest: seq<Step>, now: int)
    requires i < |sys.writers| && sys.writers[i].stage == Looking(b) && ToolBody(b) && b.callId != ""
    requires StillCleared(PlayFrom(Next(sys, Look(i)), rest), i, b)
    ensures var later, r := PlayFrom(Next(sys, Look(i)), rest), sys.writers[i].run;
            var since := Since(LogOf(sys.ledger, r), later.ledger, r);
            Alike(LogOf(Next(later, Write(i, now)).ledger, r), b) <= 1
            <==> forall k :: 0 <= k < |since| ==> !SameKind(since[k], b)
  {
    var looked, r := Next(sys, Look(i)), sys.writers[i].run;
    var later := PlayFrom(looked, rest);
    GoneStaysGone(looked, i, rest);
    var before := LogOf(sys.ledger, r);
    PresentMeansAlike(before, b);
    PlayExtendsLog(looked, rest, r);
    var since := Since(before, later.ledger, r);
    assert LogOf(later.ledger, r) == before + since;
    AlikeConcat(before, since, b);
    AppendedBodies(later.ledger, r, b, None, now, r);
    OneMoreAlike(before + since, b);
  }

  lemma OneMoreAlike(bodies: seq<Body>, b: Body)
    requires ToolBody(b)
    ensures Alike(bodies + [b], b) == Alike(bodies, b) + 1
  {
    StartsSnoc(bodies, b, b.callId);
  }

  // ----- one executor at a time

  /** No two writers of one run are in flight together. */
  ghost predicate OneExecutor(sys: System) {
    forall i, j :: 0 <= i < j < |sys.writers| && InFlight(sys.writers[i].stage) && InFlight(sys.writers[j].stage) ==>
      sys.writers[i].run != sys.writers[j].run
  }

  ghost predicate Solo(steps: seq<Step>) {
    OneExecutor(Play(steps)) && (steps != [] ==> Solo(steps[..|steps| - 1]))
  }

  /** A failure written outside a writer, such as that of a rejected quota, finds no open call. */
  ghost predicate FairStep(sys: System, step: Step) {
    step.Traffic? && step.action.Append? && step.action.body.RunFailed? ==>
      Pending(LogOf(sys.ledger, step.action.run)) == []
  }

  ghost predicate Fair(steps: seq<Step>) {
    steps != [] ==> Fair(steps[..|steps| - 1]) && FairStep(Play(steps[..|steps| - 1]), steps[|steps| - 1])
  }

  ghost predicate LogsOk(l: Ledger) {
    forall r: RunId :: OnceEach(LogOf(l, r)) && FailureClosed(LogOf(l, r))
  }

  /** The listed calls are exactly the open ones. */
  ghost predicate ListsOpenCalls(calls: seq<Call>, bodies: seq<Body>) {
    && DistinctIds(calls)
    && forall id :: id != "" ==> (Lists(calls, id) <==> Starts(bodies, id) > 0 && Completions(bodies, id) == 0)
  }

  /** What a writer in flight has read is still true of its run. */
  ghost predicate StageOk(stage: Stage, bodies: seq<Body>) {
    && (stage.Looking? || stage.Cleared? ==> ToolBody(stage.body))
    && (stage.Cleared? && stage.body.callId != "" ==> Alike(bodies, stage.body) == 0)
    && (stage.Ending? ==> ListsOpenCalls(stage.calls, bodies))
  }

  ghost predicate WritersOk(sys: System) {
    forall i :: 0 <= i < |sys.writers| ==> StageOk(sys.writers[i].stage, LogOf(sys.ledger, sys.writers[i].run))
  }

  ghost predicate WriterInv(sys: System) {
    LogsOk(sys.ledger) && WritersOk(sys)
  }

  lemma PendingListsOpenCalls(bodies: seq<Body>)
    ensures ListsOpenCalls(Pending(bodies), bodies)
  {
    forall id ensures DistinctIds(Pending(bodies)) && (id != "" ==>
                (Lists(Pending(bodies), id) <==> Starts(bodies, id) > 0 && Completions(bodies, id) == 0))
    {
      StartedCallsListStarts(bodies, id);
      UncompletedLists(StartedCalls(bodies), bodies, id);
    }
    StartedCallsListStarts(bodies, "");
    UncompletedLists(StartedCalls(bodies), bodies, "");
  }

  /** A body that is no tool event and no failure changes nothing that matters here. */
  lemma PlainBody(bodies: seq<Body>, b: Body)
    requires !ToolBody(b)
    ensures forall id ::
              Starts(bodies + [b], id) == Starts(bodies, id) && Completions(bodies + [b], id) == Completions(bodies, id)
    ensures OnceEach(bodies) && !b.RunFailed? ==> OnceEach(bodies + [b]) && FailureClosed(bodies + [b])
    ensures forall stage :: StageOk(stage, bodies) ==> StageOk(stage, bodies + [b])
  {
    forall id ensures Starts(bodies + [b], id) == Starts(bodies, id) &&
        Completions(bodies + [b], id) == Completions(bodies, id) {
      StartsSnoc(bodies, b, id);
    }
  }

  /** A failure closes the log when no call is open. */
  lemma FailureBody(bodies: seq<Body>, code: string, calls: seq<Call>)
    requires OnceEach(bodies) && ListsOpenCalls(calls, bodies) && calls == []
    ensures OnceEach(bodies + [RunFailed(code)]) && FailureClosed(bodies + [RunFailed(code)])
  {
    PlainBody(bodies, RunFailed(code));
    forall id | id != "" && Starts(bodies, id) > 0 ensures Completions(bodies, id) == 1 {
      assert !Lists(calls, id);
    }
  }

  /** A tool event that is the first of its call and kind keeps the log in order. */
  lemma FirstOfItsKind(bodies: seq<Body>, b: Body)
    requires OnceEach(bodies) && ToolBody(b) && (b.callId != "" ==> Alike(bodies, b) == 0)
    ensures OnceEach(bodies + [b]) && FailureClosed(bodies + [b])
  {
    forall id | id != "" ensures Starts(bodies + [b], id) <= 1 && Completions(bodies + [b], id) <= 1 {
      StartsSnoc(bodies, b, id);
    }
  }

  /** Closing the first listed call leaves exactly the others open. */
  lemma CloseFirst(bodies: seq<Body>, calls: seq<Call>)
    requires ListsOpenCalls(calls, bodies) && calls != []
    ensures ListsOpenCalls(calls[1..], bodies + [Closure(calls[0])])
    ensures calls[0].callId != "" ==> Alike(bodies, Closure(calls[0])) == 0
  {
    var c, rest := calls[0], calls[1..];
    assert Lists(calls, c.callId);
    forall i, j | 0 <= i < j < |rest| ensures rest[i].callId != rest[j].callId {
      assert calls[i + 1].callId != calls[j + 1].callId;
    }
    forall id | id != ""
      ensures Lists(rest, id) <==> Starts(bodies + [Closure(c)], id) > 0 && Completions(bodies + [Closure(c)], id) == 0
    {
      StartsSnoc(bodies, Closure(c), id);
      ListsTail(calls, id);
    }
  }

  lemma ListsTail(calls: seq<Call>, id: string)
    requires DistinctIds(calls) && calls != []
    ensures Lists(calls[1..], id) <==> Lists(calls, id) && calls[0].callId != id
  {
    if Lists(calls[1..], id) {
      var i :| 0 <= i < |calls[1..]| && calls[1..][i].callId == id;
      assert calls[i + 1].callId == id && calls[0].callId != calls[i + 1].callId;
    }
    if Lists(calls, id) && calls[0].callId != id {
      var i :| 0 <= i < |calls| && calls[i].callId == id;
      assert calls[1..][i - 1].callId == id;
    }
  }

  // ----- every step keeps the logs in order

  lemma TrafficKeepsLog(l: Ledger, a: Action, r: RunId)
    requires LogsOk(l) && NoToolBody(a)
    requires a.Append? && a.body.RunFailed? ==> Pending(LogOf(l, a.run)) == []
    ensures OnceEach(LogOf(Apply(l, a), r)) && FailureClosed(LogOf(Apply(l, a), r))
    ensures forall stage :: StageOk(stage, LogOf(l, r)) ==> StageOk(stage, LogOf(Apply(l, a), r))
  {
    var log := LogOf(l, r);
    ApplyExtendsLog(l, a, r);
    if LogOf(Apply(l, a), r) != log {
      var b := if a.Append? then a.body else RunCompleted(a.answer);
      PlainBody(log, b);
      if b.RunFailed? {
        PendingListsOpenCalls(log);
        FailureBody(log, b.code, Pending(log));
      }
    }
  }

  lemma TrafficKeepsInv(sys: System, a: Action)
    requires WriterInv(sys) && FairStep(sys, Traffic(a))
    ensures WriterInv(Next(sys, Traffic(a)))
  {
    if NoToolBody(a) {
      forall r: RunId ensures OnceEach(LogOf(Apply(sys.ledger, a), r)) &&
          FailureClosed(LogOf(Apply(sys.ledger, a), r)) {
        TrafficKeepsLog(sys.ledger, a, r);
      }
      forall i | 0 <= i < |sys.writers|
        ensures StageOk(sys.writers[i].stage, LogOf(Apply(sys.ledger, a), sys.writers[i].run))
      {
        TrafficKeepsLog(sys.ledger, a, sys.writers[i].run);
      }
    }
  }

  lemma LookKeepsInv(sys: System, i: nat)
    requires WriterInv(sys)
    ensures WriterInv(Next(sys, Look(i)))
  {
    if i < |sys.writers| {
      var w := sys.writers[i];
      var log := LogOf(sys.ledger, w.run);
      assert StageOk(w.stage, log);
      PendingListsOpenCalls(log);
      if w.stage.Looking? && w.stage.body.callId != "" {
        PresentMeansAlike(log, w.stage.body);
      }
      assert StageOk(AfterLook(sys.ledger, w), log);
    }
  }

  /** What one append of a writer does to the log of its run and to its own reading. */
  lemma OwnWriteKeeps(stage: Stage, log: seq<Body>)
    requires StageOk(stage, log) && OnceEach(log) && NextBody(stage).Some?
    ensures OnceEach(log + [NextBody(stage).value]) && FailureClosed(log + [NextBody(stage).value])
    ensures StageOk(AfterWrite(stage), log + [NextBody(stage).value])
  {
    match stage
    case Cleared(b) => FirstOfItsKind(log, b);
    case Opening(_) => PlainBody(log, RunStarted);
    case Ending(code, calls) =>
      if calls == [] {
        FailureBody(log, code, calls);
      } else {
        CloseFirst(log, calls);
        FirstOfItsKind(log, Closure(calls[0]));
      }
  }

  lemma WriteKeepsLogs(sys: System, i: nat, now: int, r: RunId)
    requires WriterInv(sys) && i < |sys.writers| && NextBody(sys.writers[i].stage).Some?
    requires Open(sys.ledger, sys.writers[i].run)
    ensures OnceEach(LogOf(Wrote(sys, i, now).ledger, r)) && FailureClosed(LogOf(Wrote(sys, i, now).ledger, r))
  {
    var w := sys.writers[i];
    assert StageOk(w.stage, LogOf(sys.ledger, w.run));
    OwnWriteKeeps(w.stage, LogOf(sys.ledger, w.run));
    AppendedBodies(sys.ledger, w.run, NextBody(w.stage).value, None, now, r);
    assert r != w.run ==> LogOf(sys.ledger, r) + [] == LogOf(sys.ledger, r);
  }

  lemma WriteKeepsWriter(sys: System, i: nat, now: int, j: nat)
    requires WriterInv(sys) && OneExecutor(sys)
    requires i < |sys.writers| && j < |sys.writers| && NextBody(sys.writers[i].stage).Some?
    requires Open(sys.ledger, sys.writers[i].run)
    ensures StageOk(Wrote(sys, i, now).writers[j].stage, LogOf(Wrote(sys, i, now).ledger, sys.writers[j].run))
  {
    var w, v := sys.writers[i], sys.writers[j];
    assert StageOk(w.stage, LogOf(sys.ledger, w.run)) && StageOk(v.stage, LogOf(sys.ledger, v.run));
    AppendedBodies(sys.ledger, w.run, NextBody(w.stage).value, None, now, v.run);
    if i == j {
      OwnWriteKeeps(w.stage, LogOf(sys.ledger, w.run));
    } else if InFlight(v.stage) {
      assert v.run != w.run;
      assert LogOf(sys.ledger, v.run) + [] == LogOf(sys.ledger, v.run);
    }
  }

  lemma WriteKeepsInv(sys: System, i: nat, now: int)
    requires WriterInv(sys) && OneExecutor(sys)
    ensures WriterInv(Next(sys, Write(i, now)))
  {
    if i < |sys.writers| && NextBody(sys.writers[i].stage).Some? && Open(sys.ledger, sys.writers[i].run) {
      var sys' := Wrote(sys, i, now);
      forall r: RunId ensures OnceEach(LogOf(sys'.ledger, r)) && FailureClosed(LogOf(sys'.ledger, r)) {
        WriteKeepsLogs(sys, i, now, r);
      }
      forall j | 0 <= j < |sys'.writers|
          ensures StageOk(sys'.writers[j].stage, LogOf(sys'.ledger, sys'.writers[j].run)) {
        WriteKeepsWriter(sys, i, now, j);
      }
    }
  }

  lemma StepKeepsInv(sys: System, step: Step)
    requires WriterInv(sys) && OneExecutor(sys) && FairStep(sys, step)
    ensures WriterInv(Next(sys, step))
  {
    match step
    case Traffic(a) => TrafficKeepsInv(sys, a);
    case Look(i) => LookKeepsInv(sys, i);
    case Write(i, now) => WriteKeepsInv(sys, i, now);
    case _ =>
  }

  lemma {:induction false} SoloPlayKeepsInv(steps: seq<Step>)
    requires Solo(steps) && Fair(steps)
    ensures WriterInv(Play(steps))
  {
    if steps != [] {
      SoloPlayKeepsInv(steps[..|steps| - 1]);
      StepKeepsInv(Play(steps[..|steps| - 1]), steps[|steps| - 1]);
    }
  }

  /** Main result: with one executor of a run at a time, across any number of takeovers, replays,
      crashes between lookup and append and failures, every call is started at most once and completed
      at most once, and a failed run leaves no call open. */
  lemma ToolEventsAreOnceAndClosed(steps: seq<Step>, r: RunId)
    requires Solo(steps) && Fair(steps)
    ensures OnceEach(LogOf(Play(steps).ledger, r)) && FailureClosed(LogOf(Play(steps).ledger, r))
  {
    SoloPlayKeepsInv(steps);
  }

  // ----- two executors

  lemma PlaySnoc(steps: seq<Step>, step: Step)
    ensures Play(steps + [step]) == Next(Play(steps), step)
  {
    assert (steps + [step])[..|steps|] == steps;
  }

  function Asks(s: Scope): Action {
    Create(s, "m1", "hash", "query", None, None, 1)
  }

  /** A run is handed to one worker and, after its lease ran out, to another. */
  lemma TakenOver(s: Scope) returns (steps: seq<Step>)
    ensures Open(Play(steps).ledger, 0) && Play(steps).ledger.runs[0].leaseGeneration == 2
    ensures LogOf(Play(steps).ledger, 0) == [] && Play(steps).writers == []
  {
    var l1 := Apply(Empty, Asks(s));
    assert l1.runs == [NewRun(Empty, s, "m1", "hash", "query", None, 1)];
    assert OldestClaimable(l1, 0, 4);
    var l2 := Apply(l1, Claim(0, "w", 4, 30));
    assert OldestClaimable(l2, 0, 40);
    PlaySnoc([], Traffic(Asks(s)));
    steps := [] + [Traffic(Asks(s))];
    PlaySnoc(steps, Traffic(Claim(0, "w", 4, 30)));
    steps := steps + [Traffic(Claim(0, "w", 4, 30))];
    PlaySnoc(steps, Traffic(Claim(0, "v", 40, 30)));
    steps := steps + [Traffic(Claim(0, "v", 40, 30))];
  }

  /** Two emitters of the same event: both look before either writes. */
  lemma BothLook(before: seq<Step>, r: RunId, b: Body) returns (steps: seq<Step>)
    requires Play(before).writers == [] && ToolBody(b) && !Present(LogOf(Play(before).ledger, r), b)
    ensures Play(steps).ledger == Play(before).ledger
    ensures Play(steps).writers == [Writer(r, Cleared(b)), Writer(r, Cleared(b))]
  {
    steps := before;
    PlaySnoc(steps, Enter(r, Looking(b)));
    steps := steps + [Enter(r, Looking(b))];
    PlaySnoc(steps, Enter(r, Looking(b)));
    steps := steps + [Enter(r, Looking(b))];
    PlaySnoc(steps, Look(0));
    steps := steps + [Look(0)];
    PlaySnoc(steps, Look(1));
    steps := steps + [Look(1)];
  }

  /** A write of an event that opens or closes a call on an open run. */
  lemma WriteApplies(before: seq<Step>, i: nat, now: int)
    requires var sys := Play(before);
             i < |sys.writers| && sys.writers[i].stage.Cleared? && ToolBody(sys.writers[i].stage.body) &&
             Open(sys.ledger, sys.writers[i].run)
    ensures var sys, sys' := Play(before), Play(before + [Write(i, now)]);
            var r := sys.writers[i].run;
            && LogOf(sys'.ledger, r) == LogOf(sys.ledger, r) + [sys.writers[i].stage.body]
            && sys'.writers == sys.writers[i := sys.writers[i].(stage := Gone)]
            && |sys'.ledger.runs| == |sys.ledger.runs| && Open(sys'.ledger, r)
            && sys'.ledger.runs[r].leaseGeneration == sys.ledger.runs[r].leaseGeneration
  {
    PlaySnoc(before, Write(i, now));
    AppendedBodies(Play(before).ledger, Play(before).writers[i].run, Play(before).writers[i].stage.body, None, now,
                   Play(before).writers[i].run);
  }

  /** Appends are not fenced by the lease: the worker that lost its lease and the one that took over
      both find no start of a call, and both write one. */
  lemma TakeoverStartsTwice(s: Scope) returns (steps: seq<Step>)
    ensures Play(steps).ledger.runs != [] && Play(steps).ledger.runs[0].leaseGeneration == 2
    ensures Starts(LogOf(Play(steps).ledger, 0), "c") == 2
  {
    var b := ToolStarted("c", "t");
    steps := TakenOver(s);
    steps := BothLook(steps, 0, b);
    var before := LogOf(Play(steps).ledger, 0);
    WriteApplies(steps, 0, 50);
    steps := steps + [Write(0, 50)];
    WriteApplies(steps, 1, 51);
    steps := steps + [Write(1, 51)];
    StartsSnoc(before, b, "c");
    StartsSnoc(before + [b], b, "c");
  }

  // ----- without interruption

  /** A lookup and an append that nothing separates are the emission the store object performs. */
  lemma UninterruptedEmission(sys: System, i: nat, now: int)
    requires i < |sys.writers| && sys.writers[i].stage.Looking?
    ensures Next(Next(sys, Look(i)), Write(i, now)).ledger ==
            Emitted(sys.ledger, sys.writers[i].run, sys.writers[i].stage.body, now)
  {
  }

  lemma {:induction false} PlayFromPrepend(sys: System, step: Step, rest: seq<Step>)
    ensures PlayFrom(sys, [step] + rest) == PlayFrom(Next(sys, step), rest)
    decreases |rest|
  {
    var all := [step] + rest;
    if rest == [] {
      assert all[..0] == [];
    } else {
      PlayFromPrepend(sys, step, rest[..|rest| - 1]);
      assert all[..|all| - 1] == [step] + rest[..|rest| - 1];
    }
  }

  lemma {:induction false} UninterruptedEnding(sys: System, i: nat, clock: nat -> int) returns (steps: seq<Step>)
    requires i < |sys.writers| && sys.writers[i].stage.Ending? && Open(sys.ledger, sys.writers[i].run)
    ensures var w := sys.writers[i];
            PlayFrom(sys, steps).ledger ==
            AppendAll(sys.ledger, w.run, Closures(w.stage.calls) + [RunFailed(w.stage.code)], clock)
    decreases |sys.writers[i].stage.calls|
  {
    var w := sys.writers[i];
    var calls := w.stage.calls;
    var next := Next(sys, Write(i, clock(0)));
    if calls == [] {
      steps := [Write(i, clock(0))];
      PlayFromPrepend(sys, Write(i, clock(0)), []);
      assert [Write(i, clock(0))] + [] == steps;
      AppendAllSnoc(sys.ledger, w.run, [], RunFailed(w.stage.code), clock);
    } else {
      var rest := UninterruptedEnding(next, i, Later(clock, 1));
      steps := [Write(i, clock(0))] + rest;
      PlayFromPrepend(sys, Write(i, clock(0)), rest);
      EndingUnfolds(sys.ledger, w.run, calls, w.stage.code, clock);
    }
  }

  lemma EndingUnfolds(l: Ledger, r: RunId, calls: seq<Call>, code: string, clock: nat -> int)
    requires Known(l, r) && calls != []
    ensures AppendAll(l, r, Closures(calls) + [RunFailed(code)], clock) ==
            AppendAll(
              Appended(l, r, Closure(calls[0]), None, clock(0)), r, Closures(calls[1..]) + [RunFailed(code)],
              Later(clock, 1))
  {
    var first := Closure(calls[0]);
    var others := Closures(calls[1..]) + [RunFailed(code)];
    AppendAllSnoc(l, r, [], first, clock);
    AppendAllConcat(l, r, [first], others, clock);
    assert [] + [first] == [first];
    assert Closures(calls) == [first] + Closures(calls[1..]);
    assert Closures(calls) + [RunFailed(code)] == [first] + others;
  }

  lemma SilentFailure(sys: System, i: nat, clock: nat -> int) returns (steps: seq<Step>)
    requires i < |sys.writers| && sys.writers[i].stage.Opening? && Open(sys.ledger, sys.writers[i].run)
    requires LogOf(sys.ledger, sys.writers[i].run) == []
    ensures PlayFrom(sys, steps).ledger ==
            FailedRun(sys.ledger, sys.writers[i].run, sys.writers[i].stage.code, clock)
  {
    var r, code := sys.writers[i].run, sys.writers[i].stage.code;
    var begun := Next(sys, Write(i, clock(0)));
    AppendedBodies(sys.ledger, r, RunStarted, None, clock(0), r);
    assert LogOf(begun.ledger, r) == [RunStarted];
    PendingOfStart();
    var listed := Next(begun, Look(i));
    var rest := UninterruptedEnding(listed, i, Later(clock, 1));
    PlayFromPrepend(begun, Look(i), rest);
    PlayFromPrepend(sys, Write(i, clock(0)), [Look(i)] + rest);
    steps := [Write(i, clock(0))] + ([Look(i)] + rest);
    SilentBodies(sys.ledger, r, code, clock);
  }

  lemma SilentBodies(l: Ledger, r: RunId, code: string, clock: nat -> int)
    requires Known(l, r) && LogOf(l, r) == []
    ensures FailedRun(l, r, code, clock) ==
            AppendAll(
              Appended(l, r, RunStarted, None, clock(0)), r, Closures(Pending([])) + [RunFailed(code)], Later(clock, 1))
  {
    var ending := Closures(Pending([])) + [RunFailed(code)];
    AppendAllSnoc(l, r, [], RunStarted, clock);
    assert [] + [RunStarted] == [RunStarted];
    AppendAllConcat(l, r, [RunStarted], ending, clock);
    assert FailureBodies([], code) == [RunStarted] + ending;
  }

  lemma FailureCloses(l: Ledger, r: RunId, code: string, clock: nat -> int)
    requires Known(l, r)
    ensures OnceEach(LogOf(l, r)) ==>
              OnceEach(LogOf(FailedRun(l, r, code, clock), r)) && FailureClosed(LogOf(FailedRun(l, r, code, clock), r))
  {
    AppendAllBodies(l, r, FailureBodies(LogOf(l, r), code), clock, r);
    if OnceEach(LogOf(l, r)) {
      FailedRunIsClosed(LogOf(l, r), code);
    }
  }

  /** A failure that nothing interrupts is the one the store object performs, and leaves no call open. */
  lemma UninterruptedFailure(sys: System, i: nat, clock: nat -> int) returns (steps: seq<Step>)
    requires i < |sys.writers| && sys.writers[i].stage.Reading? && Open(sys.ledger, sys.writers[i].run)
    requires RunOk(sys.ledger, sys.writers[i].run)
    ensures PlayFrom(sys, steps).ledger ==
            FailedRun(sys.ledger, sys.writers[i].run, sys.writers[i].stage.code, clock)
    ensures OnceEach(LogOf(sys.ledger, sys.writers[i].run)) ==>
              OnceEach(LogOf(PlayFrom(sys, steps).ledger, sys.writers[i].run)) &&
              FailureClosed(LogOf(PlayFrom(sys, steps).ledger, sys.writers[i].run))
  {
    FailureCloses(sys.ledger, sys.writers[i].run, sys.writers[i].stage.code, clock);
    var bodies := LogOf(sys.ledger, sys.writers[i].run);
    var read := Next(sys, Look(i));
    var rest;
    if bodies == [] {
      rest := SilentFailure(read, i, clock);
    } else {
      var ending := UninterruptedEnding(Next(read, Look(i)), i, clock);
      PlayFromPrepend(read, Look(i), ending);
      rest := [Look(i)] + ending;
      var code := sys.writers[i].stage.code;
      assert FailureBodies(bodies, code) == Closures(Pending(bodies)) + [RunFailed(code)];
    }
    PlayFromPrepend(sys, Look(i), rest);
    steps := [Look(i)] + rest;
  }

  lemma PendingOfStart()
    ensures Pending([RunStarted]) == Pending([])
  {
    assert [RunStarted][..0] == [];
  }
}
