/** What the document store holds after any interleaving, read off the operations themselves: stored
    requests, leases, versions, and how far the queue limit can be exceeded. */
module MongoHistory {
  import opened Common
  import opened MongoStore
  import opened MongoSerial
  import Ledger

  // ----- the operations that take effect

  predicate Takes(sys: System, step: Step, r: RunId) {
    && step.Take? && step.claimer < |sys.claimers| && sys.claimers[step.claimer].stage.Ready?
    && sys.claimers[step.claimer].candidate == r && Takeable(sys.db, r, sys.claimers[step.claimer].now)
  }

  predicate Commits(sys: System, step: Step, s: Scope) {
    step.Commit? && Committable(sys.db, step.run) && sys.db.docs[step.run].scope == s
  }

  /** A claim reads the version of its candidate's conversation. */
  predicate Reads(sys: System, step: Step, w: nat) {
    && step == ReadVersion(w) && w < |sys.claimers| && sys.claimers[w].stage.Checked?
    && sys.claimers[w].candidate in sys.db.docs
  }

  predicate Swaps(sys: System, step: Step, i: RunId) {
    step == Swap(i) && i < |sys.creators| && sys.creators[i].stage == LookedUp
  }

  /** A renewal, release, ending or commit of the run. */
  predicate Moves(sys: System, step: Step, r: RunId) {
    && OpenDoc(sys.db, r)
    && match step
       case Extend(o, _) => o == r
       case Free(o, _) => o == r
       case End(o, status) => o == r && Ledger.Terminal(status)
       case Commit(o) => o == r && Committable(sys.db, r)
       case _ => false
  }

  // ----- what was asked for

  /** The requests in the order of their arrival. */
  function Requests(steps: seq<Step>): seq<Step> {
    if steps == [] then []
    else
      var before, step := Requests(steps[..|steps| - 1]), steps[|steps| - 1];
      if step.Begin? then before + [step] else before
  }

  /** The claims in the order of their start. */
  function Claims(steps: seq<Step>): seq<Step> {
    if steps == [] then []
    else
      var before, step := Claims(steps[..|steps| - 1]), steps[|steps| - 1];
      if step.StartClaim? then before + [step] else before
  }

  predicate Asked(c: Creator, step: Step) {
    step == Begin(c.scope, c.message, c.hash)
  }

  predicate Started(c: Claimer, step: Step) {
    step == StartClaim(c.worker, c.now, c.until)
  }

  lemma CreatorStepKeepsAsked(sys: System, i: nat, step: Step, j: nat)
    requires i < |sys.creators| && j < |sys.creators|
    ensures var sys' := CreatorNext(sys, i, step);
            && sys'.claimers == sys.claimers && |sys'.creators| == |sys.creators|
            && sys'.creators[j].scope == sys.creators[j].scope && sys'.creators[j].message == sys.creators[j].message
            && sys'.creators[j].hash == sys.creators[j].hash
  {
  }

  lemma ClaimerStepKeepsStarted(sys: System, w: nat, step: Step, j: nat)
    requires w < |sys.claimers| && j < |sys.claimers|
    ensures var sys' := ClaimerNext(sys, w, step);
            && sys'.creators == sys.creators && |sys'.claimers| == |sys.claimers|
            && sys'.claimers[j].worker == sys.claimers[j].worker && sys'.claimers[j].now == sys.claimers[j].now
            && sys'.claimers[j].until == sys.claimers[j].until
  {
  }

  lemma NextKeepsAsked(sys: System, step: Step, i: nat, ask: Step)
    requires i < |sys.creators| && Asked(sys.creators[i], ask)
    ensures i < |Next(sys, step).creators| && Asked(Next(sys, step).creators[i], ask)
  {
    match step
    case Lookup(o, _) => if o < |sys.creators| { CreatorStepKeepsAsked(sys, o, step, i); }
    case Swap(o) => if o < |sys.creators| { CreatorStepKeepsAsked(sys, o, step, i); }
    case Insert(o) => if o < |sys.creators| { CreatorStepKeepsAsked(sys, o, step, i); }
    case Rollback(o, _) => if o < |sys.creators| { CreatorStepKeepsAsked(sys, o, step, i); }
    case _ =>
  }

  lemma NextKeepsStarted(sys: System, step: Step, w: nat, start: Step)
    requires w < |sys.claimers| && Started(sys.claimers[w], start)
    ensures w < |Next(sys, step).claimers| && Started(Next(sys, step).claimers[w], start)
  {
    match step
    case Pick(o, _) => if o < |sys.claimers| { ClaimerStepKeepsStarted(sys, o, step, w); }
    case CheckDependency(o) => if o < |sys.claimers| { ClaimerStepKeepsStarted(sys, o, step, w); }
    case ReadVersion(o) => if o < |sys.claimers| { ClaimerStepKeepsStarted(sys, o, step, w); }
    case Take(o) => if o < |sys.claimers| { ClaimerStepKeepsStarted(sys, o, step, w); }
    case _ =>
  }

  lemma ArrivalsAdd(sys: System, step: Step)
    ensures |Next(sys, step).creators| == |sys.creators| + (if step.Begin? then 1 else 0)
    ensures |Next(sys, step).claimers| == |sys.claimers| + (if step.StartClaim? then 1 else 0)
    ensures step.Begin? ==> Asked(Next(sys, step).creators[|sys.creators|], step)
    ensures step.StartClaim? ==> Started(Next(sys, step).claimers[|sys.claimers|], step)
  {
  }

  lemma {:induction false} EveryoneIsAsBegun(steps: seq<Step>)
    ensures |Play(steps).creators| == |Requests(steps)| && |Play(steps).claimers| == |Claims(steps)|
    ensures forall i: nat :: i < |Play(steps).creators| ==> Asked(Play(steps).creators[i], Requests(steps)[i])
    ensures forall w: nat :: w < |Play(steps).claimers| ==> Started(Play(steps).claimers[w], Claims(steps)[w])
  {
    if steps != [] {
      var init, step := steps[..|steps| - 1], steps[|steps| - 1];
      var sys := Play(init);
      EveryoneIsAsBegun(init);
      ArrivalsAdd(sys, step);
      forall i: nat | i < |Play(steps).creators| ensures Asked(Play(steps).creators[i], Requests(steps)[i]) {
        if i < |sys.creators| {
          NextKeepsAsked(sys, step, i, Requests(init)[i]);
        }
      }
      forall w: nat | w < |Play(steps).claimers| ensures Started(Play(steps).claimers[w], Claims(steps)[w]) {
        if w < |sys.claimers| {
          NextKeepsStarted(sys, step, w, Claims(init)[w]);
        }
      }
    }
  }

  /** A stored run carries the conversation, the message and the content of its own request, however the
      operations interleave. */
  lemma {:induction false} StoredAsAsked(steps: seq<Step>, r: RunId)
    requires r in Play(steps).db.docs
    ensures r < |Requests(steps)|
    ensures var d := Play(steps).db.docs[r]; Requests(steps)[r] == Begin(d.scope, d.message, d.hash)
  {
    EveryoneIsAsBegun(steps);
    DocsKeepContent(steps, r);
  }

  predicate SameContent(d: Doc, c: Creator) {
    d.scope == c.scope && d.message == c.message && d.hash == c.hash
  }

  lemma StoreStepKeepsContent(sys: System, step: Step, r: RunId, c: Creator)
    requires r in sys.db.docs && SameContent(sys.db.docs[r], c)
    ensures r in StoreNext(sys, step).db.docs && SameContent(StoreNext(sys, step).db.docs[r], c)
  {
  }

  lemma ClaimerStepKeepsContent(sys: System, w: nat, step: Step, r: RunId, c: Creator)
    requires w < |sys.claimers| && r in sys.db.docs && SameContent(sys.db.docs[r], c)
    ensures r in ClaimerNext(sys, w, step).db.docs && SameContent(ClaimerNext(sys, w, step).db.docs[r], c)
  {
  }

  lemma NextKeepsContent(sys: System, step: Step, r: RunId, c: Creator)
    requires DocsFresh(sys) && r in sys.db.docs && SameContent(sys.db.docs[r], c)
    ensures r in Next(sys, step).db.docs && SameContent(Next(sys, step).db.docs[r], c)
  {
    if Creating(step) {
      CreatingFollows(sys, step, r);
    } else {
      match step
      case Pick(w, _) => if w < |sys.claimers| { ClaimerStepKeepsContent(sys, w, step, r, c); }
      case CheckDependency(w) => if w < |sys.claimers| { ClaimerStepKeepsContent(sys, w, step, r, c); }
      case ReadVersion(w) => if w < |sys.claimers| { ClaimerStepKeepsContent(sys, w, step, r, c); }
      case Take(w) => if w < |sys.claimers| { ClaimerStepKeepsContent(sys, w, step, r, c); }
      case StartClaim(_, _, _) =>
      case _ => StoreStepKeepsContent(sys, step, r, c);
    }
  }

  lemma {:induction false} DocsKeepContent(steps: seq<Step>, r: RunId)
    requires r in Play(steps).db.docs
    ensures r < |Play(steps).creators| && SameContent(Play(steps).db.docs[r], Play(steps).creators[r])
  {
    if steps != [] {
      var init, step := steps[..|steps| - 1], steps[|steps| - 1];
      EveryPlayKeepsClaimInv(init);
      if r in Play(init).db.docs {
        DocsKeepContent(init, r);
        NextKeepsContent(Play(init), step, r, Play(init).creators[r]);
        NextFollows(Play(init), step, r);
      } else {
        NewDocIsInserted(Play(init), step, r);
      }
    }
  }

  // ----- versions

  /** How many commits of the conversation have taken effect. */
  ghost function CommitsOf(steps: seq<Step>, s: Scope): nat {
    if steps == [] then 0
    else
      var init := steps[..|steps| - 1];
      CommitsOf(init, s) + if Commits(Play(init), steps[|steps| - 1], s) then 1 else 0
  }

  lemma VersionMoves(sys: System, step: Step, s: Scope)
    ensures VersionOf(Next(sys, step).db, s) == VersionOf(sys.db, s) + if Commits(sys, step, s) then 1 else 0
  {
  }

  lemma {:induction false} VersionCountsCommits(steps: seq<Step>, s: Scope)
    ensures VersionOf(Play(steps).db, s) == CommitsOf(steps, s)
  {
    if steps != [] {
      var init := steps[..|steps| - 1];
      VersionCountsCommits(init, s);
      VersionMoves(Play(init), steps[|steps| - 1], s);
    }
  }

  /** The commits of the conversation that a claim saw when it last read the version. */
  ghost function SeenBy(steps: seq<Step>, w: nat): nat {
    if steps == [] then 0
    else
      var init := steps[..|steps| - 1];
      var sys := Play(init);
      if Reads(sys, steps[|steps| - 1], w) then CommitsOf(init, sys.db.docs[sys.claimers[w].candidate].scope)
      else SeenBy(init, w)
  }

  /** The commits that had taken effect when the run's version was read: by the claim that leased it last,
      or by its own tail swap. */
  ghost function Base(steps: seq<Step>, r: RunId): nat {
    if steps == [] then 0
    else
      var init, step := steps[..|steps| - 1], steps[|steps| - 1];
      var sys := Play(init);
      if Takes(sys, step, r) then SeenBy(init, step.claimer)
      else if Swaps(sys, step, r) then CommitsOf(init, sys.creators[r].scope)
      else Base(init, r)
  }

  lemma ClaimerReads(sys: System, step: Step, w: nat)
    requires w < |Next(sys, step).claimers| && Next(sys, step).claimers[w].stage.Ready?
    ensures w < |sys.claimers|
    ensures if Reads(sys, step, w)
            then
              Next(sys, step).claimers[w].baseVersion == VersionOf(sys.db, sys.db.docs[sys.claimers[w].candidate].scope)
            else sys.claimers[w].stage.Ready? && Next(sys, step).claimers[w].baseVersion == sys.claimers[w].baseVersion
  {
  }

  lemma {:induction false} ReadyClaimHasSeen(steps: seq<Step>, w: nat)
    requires w < |Play(steps).claimers| && Play(steps).claimers[w].stage.Ready?
    ensures Play(steps).claimers[w].baseVersion == SeenBy(steps, w)
  {
    if steps != [] {
      var init, step := steps[..|steps| - 1], steps[|steps| - 1];
      ClaimerReads(Play(init), step, w);
      if Reads(Play(init), step, w) {
        VersionCountsCommits(init, Play(init).db.docs[Play(init).claimers[w].candidate].scope);
      } else {
        ReadyClaimHasSeen(init, w);
      }
    }
  }

  /** The version a request carries from its swap to its insert. */
  lemma SwapReads(sys: System, step: Step, i: nat)
    requires i < |Next(sys, step).creators| && Next(sys, step).creators[i].stage == Swapped
    ensures i < |sys.creators|
    ensures if Swaps(sys, step, i)
            then Next(sys, step).creators[i].baseVersion == VersionOf(sys.db, sys.creators[i].scope)
            else sys.creators[i].stage == Swapped &&
                 Next(sys, step).creators[i].baseVersion == sys.creators[i].baseVersion
  {
  }

  lemma {:induction false} SwappedHasBase(steps: seq<Step>, i: nat)
    requires i < |Play(steps).creators| && Play(steps).creators[i].stage == Swapped
    ensures Play(steps).creators[i].baseVersion == Base(steps, i)
  {
    if steps != [] {
      var init, step := steps[..|steps| - 1], steps[|steps| - 1];
      EveryPlayKeepsClaimInv(init);
      SwapReads(Play(init), step, i);
      if Swaps(Play(init), step, i) {
        VersionCountsCommits(init, Play(init).creators[i].scope);
      } else {
        SwappedHasBase(init, i);
      }
    }
  }

  lemma BaseMoves(sys: System, step: Step, r: RunId)
    requires DocsFresh(sys) && r in sys.db.docs
    ensures r in Next(sys, step).db.docs
    ensures Next(sys, step).db.docs[r].baseVersion ==
            if Takes(sys, step, r) then sys.claimers[step.claimer].baseVersion else sys.db.docs[r].baseVersion
  {
    NextFollows(sys, step, r);
    if Creating(step) {
      CreatingFollows(sys, step, r);
    }
  }

  lemma {:induction false} BaseIsWhatWasRead(steps: seq<Step>, r: RunId)
    requires r in Play(steps).db.docs
    ensures Play(steps).db.docs[r].baseVersion == Base(steps, r)
  {
    if steps != [] {
      var init, step := steps[..|steps| - 1], steps[|steps| - 1];
      var sys := Play(init);
      EveryPlayKeepsClaimInv(init);
      if r in sys.db.docs {
        BaseMoves(sys, step, r);
        BaseIsWhatWasRead(init, r);
        if Takes(sys, step, r) {
          ReadyClaimHasSeen(init, step.claimer);
        }
      } else {
        NewDocIsInserted(sys, step, r);
        SwappedHasBase(init, r);
      }
    }
  }

  /** Main result: a completion with a state succeeds exactly when its run is open and no commit of the
      conversation took effect since the run's version was read, by the claim that leased it last or, never
      leased, by its tail swap. */
  lemma CommitSucceedsIff(steps: seq<Step>, r: RunId)
    requires r in Play(steps).db.docs
    ensures Committable(Play(steps).db, r) <==>
            OpenDoc(Play(steps).db, r) && CommitsOf(steps, Play(steps).db.docs[r].scope) == Base(steps, r)
  {
    VersionCountsCommits(steps, Play(steps).db.docs[r].scope);
    BaseIsWhatWasRead(steps, r);
  }

  // ----- leases

  /** How often the run was leased. */
  ghost function TakesOf(steps: seq<Step>, r: RunId): nat {
    if steps == [] then 0
    else
      var init := steps[..|steps| - 1];
      TakesOf(init, r) + if Takes(Play(init), steps[|steps| - 1], r) then 1 else 0
  }

  /** The lease given last: by a claim until the end it asked for, by a renewal, or taken away. */
  ghost function LeaseGiven(steps: seq<Step>, r: RunId): Option<int> {
    if steps == [] then None
    else
      var init, step := steps[..|steps| - 1], steps[|steps| - 1];
      var sys := Play(init);
      if Takes(sys, step, r) && step.claimer < |Claims(init)| && Claims(init)[step.claimer].StartClaim?
      then Some(Claims(init)[step.claimer].until)
      else if Moves(sys, step, r) then (if step.Extend? then Some(step.until) else None)
      else LeaseGiven(init, r)
  }

  /** Who was given the lease last. */
  ghost function HolderGiven(steps: seq<Step>, r: RunId): Option<string> {
    if steps == [] then None
    else
      var init, step := steps[..|steps| - 1], steps[|steps| - 1];
      var sys := Play(init);
      if Takes(sys, step, r) && step.claimer < |Claims(init)| && Claims(init)[step.claimer].StartClaim?
      then Some(Claims(init)[step.claimer].worker)
      else if Moves(sys, step, r) && !step.Extend? then None
      else HolderGiven(init, r)
  }

  /** The status given last; a run begins as queued. */
  ghost function StatusGiven(steps: seq<Step>, r: RunId): Status {
    if steps == [] then Ledger.Queued
    else
      var init, step := steps[..|steps| - 1], steps[|steps| - 1];
      var sys := Play(init);
      if Takes(sys, step, r) then Ledger.Running
      else if Moves(sys, step, r) && step.Free? then (if step.requeue then Ledger.Queued else Ledger.Running)
      else if Moves(sys, step, r) && step.End? then step.status
      else if Moves(sys, step, r) && step.Commit? then Ledger.Succeeded
      else StatusGiven(init, r)
  }

  predicate AsGiven(d: Doc, status: Status, holder: Option<string>, until: Option<int>, takes: nat) {
    d.status == status && d.leaseOwner == holder && d.leaseUntil == until && d.leaseGeneration == takes
  }

  lemma TakingMoves(sys: System, step: Step, r: RunId)
    requires r in sys.db.docs && Takes(sys, step, r)
    ensures var c := sys.claimers[step.claimer];
            && r in Next(sys, step).db.docs
            && AsGiven(Next(sys, step).db.docs[r], Ledger.Running, Some(c.worker), Some(c.until),
                       sys.db.docs[r].leaseGeneration + 1)
  {
  }

  lemma ClaimingLeaves(sys: System, step: Step, r: RunId)
    requires r in sys.db.docs && Claiming(step) && !Takes(sys, step, r)
    ensures r in Next(sys, step).db.docs && Next(sys, step).db.docs[r] == sys.db.docs[r]
  {
  }

  lemma StoreMoves(sys: System, step: Step, r: RunId)
    requires r in sys.db.docs && !Creating(step) && !Claiming(step)
    ensures r in Next(sys, step).db.docs
    ensures var d, d' := sys.db.docs[r], Next(sys, step).db.docs[r];
            if !Moves(sys, step, r) then d' == d
            else if step.Extend? then AsGiven(d', d.status, d.leaseOwner, Some(step.until), d.leaseGeneration)
            else if step.Free?
            then AsGiven(d', if step.requeue then Ledger.Queued else Ledger.Running, None, None, d.leaseGeneration)
            else if step.End? then AsGiven(d', step.status, None, None, d.leaseGeneration)
            else AsGiven(d', Ledger.Succeeded, None, None, d.leaseGeneration)
  {
  }

  lemma {:induction false} NothingGivenBefore(steps: seq<Step>, r: RunId)
    requires r !in Play(steps).db.docs
    ensures AsGiven(Doc(Ledger.Scope("", "", ""), "", "", Ledger.Queued, None, None, 0, None, 0),
                    StatusGiven(steps, r), HolderGiven(steps, r), LeaseGiven(steps, r), TakesOf(steps, r))
  {
    if steps != [] {
      var init, step := steps[..|steps| - 1], steps[|steps| - 1];
      EveryPlayKeepsClaimInv(init);
      if r in Play(init).db.docs {
        NextFollows(Play(init), step, r);
      }
      NothingGivenBefore(init, r);
    }
  }

  /** Main result: status, holder, end of the lease and generation of a stored run are those that the
      claims, renewals, releases, endings and commits which took effect gave it last, in every
      interleaving. */
  lemma {:induction false} LeaseIsLastGiven(steps: seq<Step>, r: RunId)
    requires r in Play(steps).db.docs
    ensures AsGiven(Play(steps).db.docs[r], StatusGiven(steps, r), HolderGiven(steps, r), LeaseGiven(steps, r),
                    TakesOf(steps, r))
  {
    if steps != [] {
      var init, step := steps[..|steps| - 1], steps[|steps| - 1];
      var sys := Play(init);
      EveryPlayKeepsClaimInv(init);
      if r in sys.db.docs {
        LeaseIsLastGiven(init, r);
        if Creating(step) {
          CreatingFollows(sys, step, r);
        } else if Takes(sys, step, r) {
          EveryoneIsAsBegun(init);
          TakingMoves(sys, step, r);
        } else if Claiming(step) {
          ClaimingLeaves(sys, step, r);
        } else {
          StoreMoves(sys, step, r);
        }
      } else {
        NewDocIsInserted(sys, step, r);
        NothingGivenBefore(init, r);
      }
    }
  }

  /** What that means for a claim: its conditional update leases the run exactly when the run has not
      ended and the lease given last has run out by the claim's own time. */
  lemma TakeSucceedsIff(steps: seq<Step>, r: RunId, now: int)
    requires r in Play(steps).db.docs
    ensures Takeable(Play(steps).db, r, now) <==>
            && !Ledger.Terminal(StatusGiven(steps, r))
            && (LeaseGiven(steps, r).None? || LeaseGiven(steps, r).value <= now)
  {
    LeaseIsLastGiven(steps, r);
  }

  // ----- the queue limit

  ghost function InFlight(sys: System): set<RunId> {
    set i: RunId | i < |sys.creators| && sys.creators[i].stage in {LookedUp, Swapped}
  }

  /** Runs that are open and requests that may still store one. */
  ghost function Coming(sys: System): set<RunId> {
    OpenIds(sys.db) + InFlight(sys)
  }

  ghost predicate Limited(steps: seq<Step>, limit: nat) {
    forall k :: 0 <= k < |steps| && steps[k].Lookup? ==> steps[k].limit == Some(limit)
  }

  /** Never more than `n` requests stand between their lookup and their insert. */
  ghost predicate AtMostInFlight(steps: seq<Step>, n: nat) {
    forall k :: 0 <= k <= |steps| ==> |InFlight(Play(steps[..k]))| <= n
  }

  /** Only a lookup that finds the queue below its limit lets somebody in. */
  lemma ComingMoves(sys: System, step: Step, limit: nat)
    requires DocsFresh(sys) && (step.Lookup? ==> step.limit == Some(limit))
    ensures Coming(Next(sys, step)) <= Coming(sys) || (step.Lookup? && |OpenIds(sys.db)| < limit)
    ensures step.Lookup? ==> Next(sys, step).db == sys.db
  {
    if Creating(step) {
      CreatingComing(sys, step, limit);
    } else {
      assert Next(sys, step).creators == sys.creators;
      NextEvolves(sys, step);
      NothingAppears(sys, step);
    }
  }

  lemma NothingAppears(sys: System, step: Step)
    requires DocsFresh(sys) && !Creating(step)
    ensures Next(sys, step).db.docs.Keys == sys.db.docs.Keys
  {
  }

  lemma CreatingComing(sys: System, step: Step, limit: nat)
    requires DocsFresh(sys) && Creating(step) && (step.Lookup? ==> step.limit == Some(limit))
    ensures Coming(Next(sys, step)) <= Coming(sys) || (step.Lookup? && |OpenIds(sys.db)| < limit)
    ensures step.Lookup? ==> Next(sys, step).db == sys.db
  {
    match step
    case Begin(_, _, _) => assert Next(sys, step).db == sys.db;
    case Lookup(i, _) => LookupComing(sys, i, limit);
    case Swap(i) => SwapComing(sys, i);
    case Insert(i) => InsertComing(sys, i);
    case Rollback(i, existing) => RollbackComing(sys, i, existing);
  }

  lemma LookupComing(sys: System, i: nat, limit: nat)
    ensures Coming(Next(sys, Lookup(i, Some(limit)))) <= Coming(sys) || |OpenIds(sys.db)| < limit
    ensures Next(sys, Lookup(i, Some(limit))).db == sys.db
  {
  }

  lemma SwapComing(sys: System, i: nat)
    ensures Coming(Next(sys, Swap(i))) <= Coming(sys)
  {
    assert Next(sys, Swap(i)).db.docs == sys.db.docs;
  }

  lemma InsertComing(sys: System, i: nat)
    ensures Coming(Next(sys, Insert(i))) <= Coming(sys)
  {
    var sys' := Next(sys, Insert(i));
    assert forall id: RunId :: id != i ==> (id in sys'.db.docs <==> id in sys.db.docs);
    assert forall id: RunId :: id != i && id in sys.db.docs ==> sys'.db.docs[id] == sys.db.docs[id];
    assert forall k: RunId :: k != i && k < |sys.creators| ==> sys'.creators[k] == sys.creators[k];
  }

  lemma RollbackComing(sys: System, i: nat, existing: RunId)
    ensures Coming(Next(sys, Rollback(i, existing))) <= Coming(sys)
  {
    assert Next(sys, Rollback(i, existing)).db.docs == sys.db.docs;
  }

  lemma Together<T>(a: set<T>, b: set<T>)
    ensures |a + b| <= |a| + |b| && |a| <= |a + b|
  {
    assert a + b == a + (b - a) && b == (b - a) + (b * a);
  }

  lemma Fewer<T>(a: set<T>, b: set<T>)
    requires a <= b
    ensures |a| <= |b|
  {
    assert b == a + (b - a);
  }

  /** Looking up and inserting are separate, so the limit can be exceeded, but never by more than the
      number of requests that stand between the two at once, less one. */
  lemma {:induction false} OverflowIsBounded(steps: seq<Step>, limit: nat, n: nat)
    requires Limited(steps, limit) && AtMostInFlight(steps, n) && n >= 1
    ensures |Coming(Play(steps))| <= Max(0, limit + n - 1)
    ensures |OpenIds(Play(steps).db)| <= Max(0, limit + n - 1)
  {
    if steps == [] {
      assert Coming(Play(steps)) == {};
    } else {
      var init, step := steps[..|steps| - 1], steps[|steps| - 1];
      assert AtMostInFlight(init, n) by {
        assert forall k :: 0 <= k <= |init| ==> init[..k] == steps[..k];
      }
      OverflowIsBounded(init, limit, n);
      EveryPlayKeepsClaimInv(init);
      ComingMoves(Play(init), step, limit);
      if Coming(Play(steps)) <= Coming(Play(init)) {
        Fewer(Coming(Play(steps)), Coming(Play(init)));
      } else {
        assert steps[..|steps|] == steps;
        Together(OpenIds(Play(steps).db), InFlight(Play(steps)));
      }
    }
    Together(OpenIds(Play(steps).db), InFlight(Play(steps)));
  }

  lemma LimitedSnoc(steps: seq<Step>, step: Step, limit: nat)
    requires Limited(steps, limit) && (step.Lookup? ==> step.limit == Some(limit))
    ensures Limited(steps + [step], limit)
  {
  }

  lemma TwoLookedUp(s: Scope) returns (steps: seq<Step>)
    ensures Limited(steps, 1) && Play(steps).db == Initial.db
    ensures Play(steps).creators == [Asks(s, "m1"), Asks(s, "m2")]
  {
    steps := [];
    assert OpenIds(Initial.db) == {};
    var asks := [Begin(s, "m1", "hash"), Begin(s, "m2", "hash"), Lookup(0, Some(1)), Lookup(1, Some(1))];
    for i := 0 to 4
      invariant Limited(steps, 1) && Play(steps).db == Initial.db
      invariant Play(steps).creators == [
        Asks(s, "m1").(stage := if i < 3 then Begun else LookedUp),
        Asks(s, "m2").(stage := if i < 4 then Begun else LookedUp)][..Min(i, 2)]
    {
      PlaySnoc(steps, asks[i]);
      LimitedSnoc(steps, asks[i], 1);
      steps := steps + [asks[i]];
    }
  }

  lemma StoreAfterLookup(before: seq<Step>, i: nat) returns (steps: seq<Step>)
    requires Limited(before, 1)
    ensures Limited(steps, 1) && Play(steps) == Next(Next(Play(before), Swap(i)), Insert(i))
  {
    PlaySnoc(before, Swap(i));
    LimitedSnoc(before, Swap(i), 1);
    PlaySnoc(before + [Swap(i)], Insert(i));
    LimitedSnoc(before + [Swap(i)], Insert(i), 1);
    steps := before + [Swap(i)] + [Insert(i)];
  }

  /** The bound is reached: under a limit of one, two requests that both look up first are both stored. */
  lemma TwoPassTheLimit(s: Scope) returns (steps: seq<Step>)
    ensures Limited(steps, 1) && OpenIds(Play(steps).db) == {0, 1}
  {
    var before := TwoLookedUp(s);
    SwapAndInsert(Play(before), 0);
    steps := StoreAfterLookup(before, 0);
    SwapAndInsert(Play(steps), 1);
    steps := StoreAfterLookup(steps, 1);
  }
}
