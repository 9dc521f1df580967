/** When at most one run of a conversation is leased in the document store: what claims guarantee in
    every interleaving, and which endings and commits keep the open runs in one chain. */
module MongoSerial {
  import opened Common
  import opened MongoStore
  import Ledger

  // ----- who can still come

  /** A request that swapped, whose run is neither open nor to be stored any more. */
  predicate Over(sys: System, d: RunId) {
    d < |sys.creators| && sys.creators[d].stage in {Rejected, Finished} && !OpenDoc(sys.db, d)
  }

  /** The name of a request of the conversation that has swapped, or of none. */
  predicate Swept(sys: System, s: Scope, d: Option<RunId>) {
    d.Some? ==>
      && d.value < |sys.creators| && sys.creators[d.value].scope == s
      && sys.creators[d.value].stage in {Swapped, Rejected, Finished}
  }

  /** Tails and dependencies name requests that have swapped, documents remember their request. */
  ghost predicate Sound(sys: System) {
    && DocsFresh(sys)
    && (forall s: Scope :: Swept(sys, s, Tail(sys.db, s)))
    && (forall i: RunId :: i < |sys.creators| ==>
         Swept(sys, sys.creators[i].scope, sys.creators[i].dependsOn))
    && (forall id :: id in sys.db.docs ==> id < |sys.creators| && Remembered(sys.db.docs[id], sys.creators[id]))
  }

  predicate Remembered(d: Doc, c: Creator) {
    d.dependsOn == c.dependsOn && d.scope == c.scope && (d.leaseOwner.Some? ==> d.leaseGeneration > 0)
  }

  lemma StaysSwept(sys: System, step: Step, s: Scope, d: Option<RunId>)
    requires Swept(sys, s, d)
    ensures Swept(Next(sys, step), s, d)
  {
  }

  /** A document keeps its dependency, and its generation never falls. */
  predicate Follows(d: Doc, d': Doc) {
    && d'.dependsOn == d.dependsOn && d'.scope == d.scope && d.leaseGeneration <= d'.leaseGeneration
    && (d'.leaseOwner.Some? && d.leaseOwner.None? ==> d'.leaseGeneration > 0)
  }

  lemma CreatorStepFollows(sys: System, i: nat, step: Step, id: RunId)
    requires DocsFresh(sys) && i < |sys.creators| && id in sys.db.docs
    ensures var sys' := CreatorNext(sys, i, step);
            && id in sys'.db.docs && sys'.db.docs[id] == sys.db.docs[id]
            && id < |sys'.creators| && sys'.creators[id] == sys.creators[id]
  {
  }

  lemma ClaimerStepFollows(sys: System, w: nat, step: Step, id: RunId)
    requires w < |sys.claimers| && id in sys.db.docs
    ensures var sys' := ClaimerNext(sys, w, step);
            sys'.creators == sys.creators && id in sys'.db.docs && Follows(sys.db.docs[id], sys'.db.docs[id])
  {
  }

  lemma StoreStepFollows(sys: System, step: Step, id: RunId)
    requires id in sys.db.docs
    ensures var sys' := StoreNext(sys, step);
            && sys'.creators == sys.creators && id in sys'.db.docs && Follows(sys.db.docs[id], sys'.db.docs[id])
            && sys'.db.docs[id].leaseGeneration == sys.db.docs[id].leaseGeneration
  {
  }

  predicate Creating(step: Step) {
    step.Begin? || step.Lookup? || step.Swap? || step.Insert? || step.Rollback?
  }

  predicate Claiming(step: Step) {
    step.StartClaim? || step.Pick? || step.CheckDependency? || step.ReadVersion? || step.Take?
  }

  lemma CreatingFollows(sys: System, step: Step, id: RunId)
    requires DocsFresh(sys) && id in sys.db.docs && Creating(step)
    ensures var sys' := Next(sys, step);
            && id in sys'.db.docs && sys'.db.docs[id] == sys.db.docs[id]
            && id < |sys'.creators| && sys'.creators[id] == sys.creators[id]
  {
    match step
    case Lookup(i, _) => if i < |sys.creators| { CreatorStepFollows(sys, i, step, id); }
    case Swap(i) => if i < |sys.creators| { CreatorStepFollows(sys, i, step, id); }
    case Insert(i) => if i < |sys.creators| { CreatorStepFollows(sys, i, step, id); }
    case Rollback(i, _) => if i < |sys.creators| { CreatorStepFollows(sys, i, step, id); }
    case _ =>
  }

  lemma ClaimingFollows(sys: System, step: Step, id: RunId)
    requires id in sys.db.docs && Claiming(step)
    ensures var sys' := Next(sys, step);
            sys'.creators == sys.creators && id in sys'.db.docs && Follows(sys.db.docs[id], sys'.db.docs[id])
  {
    match step
    case Pick(w, _) => if w < |sys.claimers| { ClaimerStepFollows(sys, w, step, id); }
    case CheckDependency(w) => if w < |sys.claimers| { ClaimerStepFollows(sys, w, step, id); }
    case ReadVersion(w) => if w < |sys.claimers| { ClaimerStepFollows(sys, w, step, id); }
    case Take(w) => if w < |sys.claimers| { ClaimerStepFollows(sys, w, step, id); }
    case _ =>
  }

  lemma NextFollows(sys: System, step: Step, id: RunId)
    requires DocsFresh(sys) && id in sys.db.docs
    ensures var sys' := Next(sys, step);
            && id in sys'.db.docs && Follows(sys.db.docs[id], sys'.db.docs[id])
            && id < |sys'.creators| && sys'.creators[id] == sys.creators[id]
  {
    if Creating(step) {
      CreatingFollows(sys, step, id);
    } else if Claiming(step) {
      ClaimingFollows(sys, step, id);
    } else {
      StoreStepFollows(sys, step, id);
    }
  }

  /** A document appears only when its own request inserts it. */
  lemma NewDocIsInserted(sys: System, step: Step, id: RunId)
    requires DocsFresh(sys) && id in Next(sys, step).db.docs && id !in sys.db.docs
    ensures step == Insert(id) && id < |sys.creators| && id < |Next(sys, step).creators|
    ensures var sys' := Next(sys, step);
            && sys'.db.docs[id] == NewDoc(sys.creators[id])
            && sys'.creators[id] == sys.creators[id].(stage := Finished)
  {
  }

  lemma NextKeepsDoc(sys: System, step: Step, id: RunId)
    requires Sound(sys) && id in Next(sys, step).db.docs
    ensures var sys' := Next(sys, step);
            id < |sys'.creators| && Remembered(sys'.db.docs[id], sys'.creators[id])
  {
    if id in sys.db.docs {
      assert Remembered(sys.db.docs[id], sys.creators[id]);
      NextFollows(sys, step, id);
    } else {
      NewDocIsInserted(sys, step, id);
    }
  }

  lemma NextTail(sys: System, step: Step, s: Scope)
    requires Sound(sys)
    ensures Swept(Next(sys, step), s, Tail(Next(sys, step).db, s))
  {
    StaysSwept(sys, step, s, Tail(sys.db, s));
  }

  lemma NextDependency(sys: System, step: Step, i: RunId)
    requires Sound(sys) && i < |Next(sys, step).creators|
    ensures Swept(Next(sys, step), Next(sys, step).creators[i].scope, Next(sys, step).creators[i].dependsOn)
  {
    if i < |sys.creators| {
      var s := sys.creators[i].scope;
      StaysSwept(sys, step, s, sys.creators[i].dependsOn);
      StaysSwept(sys, step, s, Tail(sys.db, s));
    }
  }

  lemma NextKeepsSound(sys: System, step: Step)
    requires Sound(sys)
    ensures Sound(Next(sys, step))
  {
    NextEvolves(sys, step);
    forall id | id in Next(sys, step).db.docs
      ensures id < |Next(sys, step).creators| &&
              Remembered(Next(sys, step).db.docs[id], Next(sys, step).creators[id])
    {
      NextKeepsDoc(sys, step, id);
    }
    forall s: Scope ensures Swept(Next(sys, step), s, Tail(Next(sys, step).db, s)) {
      NextTail(sys, step, s);
    }
    forall i: RunId | i < |Next(sys, step).creators|
      ensures Swept(Next(sys, step), Next(sys, step).creators[i].scope, Next(sys, step).creators[i].dependsOn)
    {
      NextDependency(sys, step, i);
    }
  }

  lemma OverStaysOver(sys: System, step: Step, d: RunId)
    requires DocsFresh(sys) && Over(sys, d)
    ensures Over(Next(sys, step), d)
  {
    NextEvolves(sys, step);
  }

  // ----- what claims guarantee

  /** A claim does not check a dependency that is still to be stored. */
  ghost predicate PatientStep(sys: System, step: Step) {
    step.CheckDependency? && step.claimer < |sys.claimers| && sys.claimers[step.claimer].stage == Picked ==>
      var d := sys.claimers[step.claimer].dependsOn;
      d.Some? ==> !Pending(sys, d.value)
  }

  ghost predicate Patient(steps: seq<Step>) {
    steps != [] ==> Patient(steps[..|steps| - 1]) && PatientStep(Play(steps[..|steps| - 1]), steps[|steps| - 1])
  }

  predicate DependencyOver(sys: System, d: Option<RunId>) {
    d.Some? ==> Over(sys, d.value)
  }

  predicate HasChecked(c: Claimer) {
    c.stage.Checked? || c.stage.Ready?
  }

  /** Whoever was ever leased, and whoever is about to be, waits for nobody. */
  ghost predicate Released(sys: System) {
    && (forall id :: id in sys.db.docs && sys.db.docs[id].leaseGeneration > 0 ==>
         DependencyOver(sys, sys.db.docs[id].dependsOn))
    && (forall w :: 0 <= w < |sys.claimers| && HasChecked(sys.claimers[w]) ==>
         DependencyOver(sys, sys.claimers[w].dependsOn))
  }

  ghost predicate SerialInv(sys: System) {
    Sound(sys) && ClaimInv(sys) && Released(sys)
  }

  lemma DependencyStaysOver(sys: System, step: Step, d: Option<RunId>)
    requires DocsFresh(sys) && DependencyOver(sys, d)
    ensures DependencyOver(Next(sys, step), d)
  {
    if d.Some? {
      OverStaysOver(sys, step, d.value);
    }
  }

  lemma CheckFindsOver(sys: System, w: nat)
    requires SerialInv(sys) && PatientStep(sys, CheckDependency(w))
    requires w < |sys.claimers| && sys.claimers[w].stage == Picked
    requires HasChecked(Next(sys, CheckDependency(w)).claimers[w])
    ensures DependencyOver(sys, sys.claimers[w].dependsOn)
  {
    var c := sys.claimers[w];
    assert ClaimerOk(sys.db, c);
    assert Remembered(sys.db.docs[c.candidate], sys.creators[c.candidate]);
    assert Swept(sys, sys.creators[c.candidate].scope, sys.creators[c.candidate].dependsOn);
  }

  lemma ClaimerAfter(sys: System, step: Step, w: nat)
    requires SerialInv(sys) && PatientStep(sys, step)
    requires w < |Next(sys, step).claimers| && HasChecked(Next(sys, step).claimers[w])
    ensures DependencyOver(Next(sys, step), Next(sys, step).claimers[w].dependsOn)
  {
    var c' := Next(sys, step).claimers[w];
    assert w < |sys.claimers| && c'.dependsOn == sys.claimers[w].dependsOn;
    if !HasChecked(sys.claimers[w]) {
      CheckFindsOver(sys, w);
    }
    DependencyStaysOver(sys, step, c'.dependsOn);
  }

  /** Only the conditional update of a claim makes a generation positive. */
  lemma OnlyTakingRaises(sys: System, step: Step, id: RunId)
    requires DocsFresh(sys) && id in sys.db.docs && id in Next(sys, step).db.docs
    requires sys.db.docs[id].leaseGeneration == 0 && Next(sys, step).db.docs[id].leaseGeneration > 0
    ensures step.Take? && step.claimer < |sys.claimers| && sys.claimers[step.claimer].stage.Ready?
    ensures sys.claimers[step.claimer].candidate == id
  {
    if Creating(step) {
      CreatingFollows(sys, step, id);
    } else if !Claiming(step) {
      StoreStepFollows(sys, step, id);
    }
  }

  lemma DocAfter(sys: System, step: Step, id: RunId)
    requires SerialInv(sys) && id in Next(sys, step).db.docs && Next(sys, step).db.docs[id].leaseGeneration > 0
    ensures DependencyOver(Next(sys, step), Next(sys, step).db.docs[id].dependsOn)
  {
    if id in sys.db.docs {
      NextFollows(sys, step, id);
      if sys.db.docs[id].leaseGeneration == 0 {
        OnlyTakingRaises(sys, step, id);
        assert ClaimerOk(sys.db, sys.claimers[step.claimer]);
      }
      DependencyStaysOver(sys, step, sys.db.docs[id].dependsOn);
    } else {
      NewDocIsInserted(sys, step, id);
    }
  }

  lemma NextKeepsSerialInv(sys: System, step: Step)
    requires SerialInv(sys) && PatientStep(sys, step)
    ensures SerialInv(Next(sys, step))
  {
    NextKeepsSound(sys, step);
    NextKeepsClaimInv(sys, step);
    var sys' := Next(sys, step);
    forall id | id in sys'.db.docs && sys'.db.docs[id].leaseGeneration > 0
      ensures DependencyOver(sys', sys'.db.docs[id].dependsOn)
    {
      DocAfter(sys, step, id);
    }
    forall w | 0 <= w < |sys'.claimers| && HasChecked(sys'.claimers[w])
      ensures DependencyOver(sys', sys'.claimers[w].dependsOn)
    {
      ClaimerAfter(sys, step, w);
    }
  }

  lemma {:induction false} EveryPatientPlayKeepsSerialInv(steps: seq<Step>)
    requires Patient(steps)
    ensures SerialInv(Play(steps))
  {
    if steps != [] {
      EveryPatientPlayKeepsSerialInv(steps[..|steps| - 1]);
      NextKeepsSerialInv(Play(steps[..|steps| - 1]), steps[|steps| - 1]);
    }
  }

  // ----- one leased run

  /** The live runs of a conversation, each waiting for the one before it; the first waits for nobody,
      and the next create will wait for the last. */
  ghost predicate LiveChain(sys: System, s: Scope, live: seq<RunId>) {
    && Distinct(live)
    && (forall id: RunId :: Live(sys, s, id) <==> id in live)
    && (forall k :: 0 <= k < |live| ==> LiveLink(sys, live, k))
    && (live != [] ==> Tail(sys.db, s) == LastOf(live))
  }

  ghost predicate LiveLink(sys: System, live: seq<RunId>, k: nat)
    requires k < |live|
  {
    && live[k] < |sys.creators|
    && if k == 0 then DependencyOver(sys, sys.creators[live[k]].dependsOn)
       else sys.creators[live[k]].dependsOn == Some(live[k - 1])
  }

  ghost predicate Leased(sys: System, s: Scope, id: RunId) {
    OpenIn(sys.db, s, id) && sys.db.docs[id].leaseOwner.Some?
  }

  lemma WaitsForNobodyIsFirst(sys: System, s: Scope, live: seq<RunId>, id: RunId)
    requires DocsFresh(sys) && LiveChain(sys, s, live) && id in live
    requires id < |sys.creators| && DependencyOver(sys, sys.creators[id].dependsOn)
    ensures live[0] == id
  {
    forall k | 0 < k < |live| ensures live[k] != id {
      assert LiveLink(sys, live, k) && live[k - 1] in live;
    }
  }

  lemma LeasedIsFirst(sys: System, s: Scope, live: seq<RunId>, id: RunId)
    requires SerialInv(sys) && LiveChain(sys, s, live) && OpenIn(sys.db, s, id) && sys.db.docs[id].leaseGeneration > 0
    ensures live != [] && live[0] == id
  {
    assert Live(sys, s, id) && Remembered(sys.db.docs[id], sys.creators[id]);
    WaitsForNobodyIsFirst(sys, s, live, id);
  }

  /** Main result: however everything interleaves, as long as no claim checked a dependency that was still
      to be stored, the live runs of a conversation being one chain now is enough for at most one of
      them to be leased now. */
  lemma OneRunPerConversation(steps: seq<Step>, s: Scope, live: seq<RunId>, i: RunId, j: RunId)
    requires Patient(steps) && LiveChain(Play(steps), s, live)
    requires Leased(Play(steps), s, i) && Leased(Play(steps), s, j)
    ensures live != [] && i == j == live[0]
  {
    EveryPatientPlayKeepsSerialInv(steps);
    var sys := Play(steps);
    assert Remembered(sys.db.docs[i], sys.creators[i]) && Remembered(sys.db.docs[j], sys.creators[j]);
    LeasedIsFirst(sys, s, live, i);
    LeasedIsFirst(sys, s, live, j);
  }

  // ----- which endings keep the chain

  lemma EndingEndsOne(sys: System, s: Scope, r: RunId, status: Status, id: RunId)
    requires DocsFresh(sys) && OpenIn(sys.db, s, r) && Ledger.Terminal(status)
    ensures Live(Next(sys, End(r, status)), s, id) <==> Live(sys, s, id) && id != r
    ensures Over(Next(sys, End(r, status)), id) <==> Over(sys, id) || id == r
  {
  }

  lemma EndingFirstKeepsChain(sys: System, s: Scope, live: seq<RunId>, status: Status)
    requires DocsFresh(sys) && LiveChain(sys, s, live) && live != [] && OpenIn(sys.db, s, live[0])
    requires Ledger.Terminal(status)
    ensures LiveChain(Next(sys, End(live[0], status)), s, live[1..])
  {
    var sys', rest := Next(sys, End(live[0], status)), live[1..];
    forall id: RunId ensures Live(sys', s, id) <==> id in rest {
      EndingEndsOne(sys, s, live[0], status, id);
      if id in rest {
        var k :| 0 <= k < |rest| && rest[k] == id;
        assert live[k + 1] == id && live[k + 1] != live[0];
      }
      assert live == [live[0]] + rest;
    }
    forall k | 0 <= k < |rest| ensures LiveLink(sys', rest, k) {
      assert LiveLink(sys, live, k + 1) && rest[k] == live[k + 1];
      EndingEndsOne(sys, s, live[0], status, live[0]);
    }
  }

  lemma EndingLaterBreaksChain(
    sys: System, s: Scope, live: seq<RunId>, k: nat, status: Status, after: seq<RunId>)
    requires DocsFresh(sys) && LiveChain(sys, s, live) && 0 < k < |live| && OpenIn(sys.db, s, live[k])
    requires Ledger.Terminal(status)
    ensures !LiveChain(Next(sys, End(live[k], status)), s, after)
  {
    var sys', r := Next(sys, End(live[k], status)), live[k];
    assert live[0] in live && LiveLink(sys, live, 0) && live[0] != live[k];
    EndingEndsOne(sys, s, r, status, r);
    EndingEndsOne(sys, s, r, status, live[0]);
    if k == |live| - 1 {
      assert Tail(sys'.db, s) == Some(r) && !Live(sys', s, r) && Live(sys', s, live[0]);
      assert after != [] ==> after[|after| - 1] in after;
    } else {
      var next := live[k + 1];
      assert next in live && LiveLink(sys, live, k + 1) && next != live[k] && next != live[0];
      EndingEndsOne(sys, s, r, status, next);
      StillOver(sys, r, status, sys.creators[live[0]].dependsOn);
      TwoHeadsAreNoChain(sys', s, live[0], next, after);
    }
  }

  lemma TwoHeadsAreNoChain(sys: System, s: Scope, x: RunId, y: RunId, after: seq<RunId>)
    requires DocsFresh(sys) && x != y && Live(sys, s, x) && Live(sys, s, y)
    requires x < |sys.creators| && DependencyOver(sys, sys.creators[x].dependsOn)
    requires y < |sys.creators| && DependencyOver(sys, sys.creators[y].dependsOn)
    ensures !LiveChain(sys, s, after)
  {
    if LiveChain(sys, s, after) {
      WaitsForNobodyIsFirst(sys, s, after, x);
      WaitsForNobodyIsFirst(sys, s, after, y);
    }
  }

  lemma StillOver(sys: System, r: RunId, status: Status, d: Option<RunId>)
    requires DocsFresh(sys) && DependencyOver(sys, d)
    ensures DependencyOver(Next(sys, End(r, status)), d)
  {
    DependencyStaysOver(sys, End(r, status), d);
  }

  ghost predicate HasLiveChain(sys: System, s: Scope) {
    exists live :: LiveChain(sys, s, live)
  }

  /** Ending an open run keeps its conversation one chain exactly when it is the first live run. Unlike
      in the ledger the last one is no exception: the tail keeps naming it. */
  lemma EndKeepsLiveChainIff(start: seq<Step>, s: Scope, live: seq<RunId>, r: RunId, status: Status)
    requires LiveChain(Play(start), s, live) && OpenIn(Play(start).db, s, r) && Ledger.Terminal(status)
    ensures HasLiveChain(Next(Play(start), End(r, status)), s) <==> live != [] && r == live[0]
  {
    var sys := Play(start);
    EveryPlayKeepsClaimInv(start);
    assert Live(sys, s, r) && r in live && live != [];
    if r == live[0] {
      EndingFirstKeepsChain(sys, s, live, status);
    } else {
      var k :| 0 <= k < |live| && live[k] == r;
      forall after ensures !LiveChain(Next(sys, End(r, status)), s, after) {
        EndingLaterBreaksChain(sys, s, live, k, status, after);
      }
    }
  }

  // ----- orderly interleavings

  /** No insert is rejected, a run that was never leased ends only when it waits for nobody, a run commits
      only when it is the last live one, and claims are patient. */
  ghost predicate OrderlyStep(sys: System, step: Step) {
    && PatientStep(sys, step)
    && (step.Insert? && step.creator < |sys.creators| && sys.creators[step.creator].stage == Swapped ==>
          !Taken(sys.db, sys.creators[step.creator].scope, sys.creators[step.creator].message))
    && (step.End? && OpenDoc(sys.db, step.run) && sys.db.docs[step.run].leaseGeneration == 0 ==>
          DependencyOver(sys, sys.db.docs[step.run].dependsOn))
    && (step.Commit? && Committable(sys.db, step.run) ==>
          forall id: RunId :: Live(sys, sys.db.docs[step.run].scope, id) ==> id == step.run)
  }

  ghost predicate Orderly(steps: seq<Step>) {
    steps != [] ==> Orderly(steps[..|steps| - 1]) && OrderlyStep(Play(steps[..|steps| - 1]), steps[|steps| - 1])
  }

  lemma {:induction false} OrderlyIsPatient(steps: seq<Step>)
    requires Orderly(steps)
    ensures Patient(steps)
  {
    if steps != [] {
      OrderlyIsPatient(steps[..|steps| - 1]);
    }
  }

  /** A step that leaves the live runs, their dependencies and the tail of a conversation alone. */
  ghost predicate Untouched(sys: System, sys': System, s: Scope) {
    && |sys.creators| <= |sys'.creators| && Tail(sys'.db, s) == Tail(sys.db, s)
    && (forall i: RunId :: i < |sys.creators| && Live(sys, s, i) ==>
         sys'.creators[i].dependsOn == sys.creators[i].dependsOn)
    && (forall i: RunId :: Live(sys', s, i) <==> Live(sys, s, i))
  }

  lemma UntouchedKeepsChain(sys: System, step: Step, s: Scope, live: seq<RunId>)
    requires DocsFresh(sys) && LiveChain(sys, s, live) && Untouched(sys, Next(sys, step), s)
    ensures LiveChain(Next(sys, step), s, live)
  {
    forall k | 0 <= k < |live| ensures LiveLink(Next(sys, step), live, k) {
      assert LiveLink(sys, live, k) && live[k] in live;
      if k == 0 {
        DependencyStaysOver(sys, step, sys.creators[live[0]].dependsOn);
      }
    }
  }

  lemma SwapKeepsLive(sys: System, i: nat, live: seq<RunId>)
    requires Sound(sys) && i < |sys.creators| && sys.creators[i].stage == LookedUp
    requires LiveChain(sys, sys.creators[i].scope, live)
    ensures LiveChain(Next(sys, Swap(i)), sys.creators[i].scope, live + [i])
  {
    var s, sys', more := sys.creators[i].scope, Next(sys, Swap(i)), live + [i];
    assert !Live(sys, s, i) && i !in live;
    StillDistinct(live, i);
    forall id: RunId ensures Live(sys', s, id) <==> id in more {
    }
    forall k | 0 <= k < |more| ensures LiveLink(sys', more, k) {
      if k < |live| {
        assert LiveLink(sys, live, k) && live[k] in live;
        if k == 0 {
          DependencyStaysOver(sys, Swap(i), sys.creators[live[0]].dependsOn);
        }
      } else if live == [] {
        TailIsOver(sys, s);
        DependencyStaysOver(sys, Swap(i), Tail(sys.db, s));
      }
    }
  }

  /** Without live runs the tail names nobody who can still come. */
  lemma TailIsOver(sys: System, s: Scope)
    requires Sound(sys) && LiveChain(sys, s, [])
    ensures DependencyOver(sys, Tail(sys.db, s))
  {
    var t := Tail(sys.db, s);
    if t.Some? {
      assert Swept(sys, s, t) && !Live(sys, s, t.value);
    }
  }

  ghost predicate NoneRejected(sys: System) {
    forall i: RunId :: i < |sys.creators| ==> sys.creators[i].stage != Rejected
  }

  lemma NextRejectsNone(sys: System, step: Step)
    requires NoneRejected(sys) && OrderlyStep(sys, step)
    ensures NoneRejected(Next(sys, step))
  {
  }

  lemma EndKeepsLive(sys: System, s: Scope, live: seq<RunId>, r: RunId, status: Status)
    requires SerialInv(sys) && LiveChain(sys, s, live) && OrderlyStep(sys, End(r, status))
    requires OpenIn(sys.db, s, r) && Ledger.Terminal(status)
    ensures live != [] && LiveChain(Next(sys, End(r, status)), s, live[1..])
  {
    assert Live(sys, s, r) && Remembered(sys.db.docs[r], sys.creators[r]);
    WaitsForNobodyIsFirst(sys, s, live, r);
    EndingFirstKeepsChain(sys, s, live, status);
  }

  lemma CommitKeepsLive(sys: System, s: Scope, r: RunId)
    requires Sound(sys) && OrderlyStep(sys, Commit(r)) && Committable(sys.db, r) && sys.db.docs[r].scope == s
    ensures LiveChain(Next(sys, Commit(r)), s, [])
  {
    assert forall id: RunId :: Live(Next(sys, Commit(r)), s, id) ==> Live(sys, s, id) && id != r;
  }

  lemma CreatorStepLeaves(sys: System, step: Step, s: Scope)
    requires Sound(sys) && NoneRejected(sys) && OrderlyStep(sys, step)
    requires step.Begin? || step.Lookup? || step.Insert? || step.Rollback? ||
             (step.Swap? && (step.creator < |sys.creators| ==>
                sys.creators[step.creator].stage != LookedUp || sys.creators[step.creator].scope != s))
    ensures Untouched(sys, Next(sys, step), s)
  {
  }

  ghost predicate LeavesOpen(sys: System, step: Step, s: Scope) {
    || step.Extend? || step.Free?
    || (step.End? && !(OpenIn(sys.db, s, step.run) && Ledger.Terminal(step.status)))
    || (step.Commit? && !(Committable(sys.db, step.run) && sys.db.docs[step.run].scope == s))
  }

  lemma StoreStepLeavesOne(sys: System, step: Step, s: Scope, id: RunId)
    requires LeavesOpen(sys, step, s)
    ensures Live(Next(sys, step), s, id) <==> Live(sys, s, id)
    ensures Next(sys, step).creators == sys.creators && Tail(Next(sys, step).db, s) == Tail(sys.db, s)
  {
  }

  lemma StoreStepLeaves(sys: System, step: Step, s: Scope)
    requires LeavesOpen(sys, step, s)
    ensures Untouched(sys, Next(sys, step), s)
  {
    StoreStepLeavesOne(sys, step, s, 0);
    forall id: RunId ensures Live(Next(sys, step), s, id) <==> Live(sys, s, id) {
      StoreStepLeavesOne(sys, step, s, id);
    }
  }

  lemma ClaimerStepLeaves(sys: System, step: Step, s: Scope)
    requires Sound(sys)
    requires Claiming(step)
    ensures Untouched(sys, Next(sys, step), s)
  {
  }

  lemma NextKeepsLive(sys: System, step: Step, s: Scope, live: seq<RunId>)
    requires SerialInv(sys) && NoneRejected(sys) && OrderlyStep(sys, step) && LiveChain(sys, s, live)
    ensures HasLiveChain(Next(sys, step), s)
  {
    match step
    case Swap(i) =>
      if i < |sys.creators| && sys.creators[i].stage == LookedUp && sys.creators[i].scope == s {
        SwapKeepsLive(sys, i, live);
      } else {
        CreatorStepLeaves(sys, step, s);
        UntouchedKeepsChain(sys, step, s, live);
      }
    case End(r, status) =>
      if OpenIn(sys.db, s, r) && Ledger.Terminal(status) {
        EndKeepsLive(sys, s, live, r, status);
      } else {
        StoreStepLeaves(sys, step, s);
        UntouchedKeepsChain(sys, step, s, live);
      }
    case Commit(r) =>
      if Committable(sys.db, r) && sys.db.docs[r].scope == s {
        CommitKeepsLive(sys, s, r);
      } else {
        StoreStepLeaves(sys, step, s);
        UntouchedKeepsChain(sys, step, s, live);
      }
    case _ =>
      if step.Extend? || step.Free? {
        StoreStepLeaves(sys, step, s);
      } else if step.Begin? || step.Lookup? || step.Insert? || step.Rollback? {
        CreatorStepLeaves(sys, step, s);
      } else {
        ClaimerStepLeaves(sys, step, s);
      }
      UntouchedKeepsChain(sys, step, s, live);
  }

  lemma {:induction false} OrderlyPlayHasLiveChain(steps: seq<Step>, s: Scope)
    requires Orderly(steps)
    ensures HasLiveChain(Play(steps), s) && NoneRejected(Play(steps))
  {
    if steps == [] {
      assert LiveChain(Initial, s, []);
    } else {
      var n := |steps| - 1;
      OrderlyPlayHasLiveChain(steps[..n], s);
      OrderlyIsPatient(steps[..n]);
      EveryPatientPlayKeepsSerialInv(steps[..n]);
      var live :| LiveChain(Play(steps[..n]), s, live);
      NextRejectsNone(Play(steps[..n]), steps[n]);
      NextKeepsLive(Play(steps[..n]), steps[n], s, live);
    }
  }

  /** Main result: in every orderly interleaving at most one run of a conversation is leased. */
  lemma OrderlyPlayIsSerial(steps: seq<Step>, s: Scope, i: RunId, j: RunId)
    requires Orderly(steps) && Leased(Play(steps), s, i) && Leased(Play(steps), s, j)
    ensures i == j
  {
    OrderlyPlayHasLiveChain(steps, s);
    OrderlyIsPatient(steps);
    var live :| LiveChain(Play(steps), s, live);
    OneRunPerConversation(steps, s, live, i, j);
  }
}
