/** Fencing generations and progress, over whole traces. */
module Leases {
  import opened Common
  import opened Ledger
  import opened LedgerInvariant

  ghost predicate ClaimedAt(trace: seq<Action>, i: nat, r: RunId) {
    i < |trace| && trace[i].Claim? && trace[i].run == r && Accepted(Exec(trace[..i]), trace[i])
  }

  ghost predicate ReleasedAt(trace: seq<Action>, i: nat, r: RunId) {
    i < |trace| && trace[i].Release? && trace[i].run == r && Accepted(Exec(trace[..i]), trace[i])
  }

  /** How often a run was handed out so far. */
  ghost function ClaimCount(trace: seq<Action>, r: RunId): nat {
    if trace == [] then 0
    else ClaimCount(trace[..|trace| - 1], r) + (if ClaimedAt(trace, |trace| - 1, r) then 1 else 0)
  }

  ghost function Generation(l: Ledger, r: RunId): nat {
    if Known(l, r) then l.runs[r].leaseGeneration else 0
  }

  lemma ApplyMovesGeneration(l: Ledger, a: Action, r: RunId)
    ensures Generation(Apply(l, a), r) ==
      Generation(l, r) + (if Accepted(l, a) && a.Claim? && a.run == r then 1 else 0)
  {
  }

  /** Generations of a run are 1, 2, 3, ... in claim order: the generation counts the claims. */
  lemma {:induction false} GenerationCountsClaims(trace: seq<Action>, r: RunId)
    ensures Generation(Exec(trace), r) == ClaimCount(trace, r)
  {
    if trace != [] {
      var n := |trace| - 1;
      GenerationCountsClaims(trace[..n], r);
      ApplyMovesGeneration(Exec(trace[..n]), trace[n], r);
    }
  }

  lemma {:induction false} ClaimCountMonotone(trace: seq<Action>, i: nat, r: RunId)
    requires i <= |trace|
    ensures ClaimCount(trace[..i], r) <= ClaimCount(trace, r)
  {
    if i < |trace| {
      var n := |trace| - 1;
      ClaimCountMonotone(trace[..n], i, r);
      assert trace[..n][..i] == trace[..i];
    } else {
      assert trace[..i] == trace;
    }
  }

  lemma ClaimedAtPrefix(trace: seq<Action>, i: nat, m: nat, r: RunId)
    requires i < m <= |trace|
    ensures ClaimedAt(trace[..m], i, r) <==> ClaimedAt(trace, i, r)
    ensures ReleasedAt(trace[..m], i, r) <==> ReleasedAt(trace, i, r)
  {
    assert trace[..m][..i] == trace[..i];
  }

  lemma CountsUpTo(trace: seq<Action>, i: nat, j: nat, r: RunId)
    requires i <= j <= |trace|
    ensures ClaimCount(trace[..i], r) <= ClaimCount(trace[..j], r)
  {
    assert trace[..j][..i] == trace[..i];
    ClaimCountMonotone(trace[..j], i, r);
  }

  lemma CountsOne(trace: seq<Action>, j: nat, r: RunId)
    requires j < |trace| && ClaimedAt(trace, j, r)
    ensures ClaimCount(trace[..j + 1], r) == ClaimCount(trace[..j], r) + 1
  {
    ClaimedAtPrefix(trace, j, j + 1, r);
    assert trace[..j + 1][..j] == trace[..j];
  }

  lemma LaterClaimCounts(trace: seq<Action>, i: nat, j: nat, m: nat, r: RunId)
    requires i < j < m <= |trace|
    requires ClaimedAt(trace, i, r) && ClaimedAt(trace, j, r)
    ensures ClaimCount(trace[..i + 1], r) < ClaimCount(trace[..m], r)
  {
    CountsUpTo(trace, i + 1, j, r);
    CountsOne(trace, j, r);
    CountsUpTo(trace, j + 1, m, r);
  }

  lemma WrongGenerationIsIgnored(
    l: Ledger, r: RunId, worker: string, generation: nat, now: int, seconds: nat, requeue: bool)
    requires Known(l, r) ==> l.runs[r].leaseGeneration != generation
    ensures Apply(l, Renew(r, worker, Some(generation), now, seconds)) == l
    ensures Apply(l, Release(r, worker, Some(generation), requeue)) == l
  {
  }

  /** A worker that was handed the run at step `i`, after which the run was claimed again, can
      change nothing any more: its renewals and releases leave the whole store as it was. */
  lemma StaleHolderIsPowerless(
    trace: seq<Action>, i: nat, j: nat, m: nat, r: RunId, worker: string, now: int, seconds: nat, requeue: bool)
    requires i < j < m <= |trace|
    requires ClaimedAt(trace, i, r) && ClaimedAt(trace, j, r)
    ensures
      var generation := Some(Generation(Exec(trace[..i + 1]), r));
      var l := Exec(trace[..m]);
      && Apply(l, Renew(r, worker, generation, now, seconds)) == l
      && Apply(l, Release(r, worker, generation, requeue)) == l
  {
    GenerationCountsClaims(trace[..i + 1], r);
    GenerationCountsClaims(trace[..m], r);
    LaterClaimCounts(trace, i, j, m, r);
    WrongGenerationIsIgnored(
      Exec(trace[..m]), r, worker, Generation(Exec(trace[..i + 1]), r), now, seconds, requeue);
  }

  /** Between two claims of a run the first lease was given back, or it had run out. */
  lemma ClaimsAreSeparated(trace: seq<Action>, i: nat, j: nat, r: RunId)
    requires i < j && ClaimedAt(trace, i, r) && ClaimedAt(trace, j, r)
    ensures
      || (exists k :: i < k < j && ReleasedAt(trace, k, r))
      || (var until := Exec(trace[..j]).runs[r].leaseUntil; until.Some? && until.value <= trace[j].now)
  {
    if Exec(trace[..j]).runs[r].leaseUntil.None? {
      LeaseDropped(trace, i, j, r);
    }
  }

  /** A lease disappears from an open run only by a release. */
  lemma {:induction false} LeaseDropped(trace: seq<Action>, i: nat, j: nat, r: RunId)
    requires i < j <= |trace| && ClaimedAt(trace, i, r)
    requires Open(Exec(trace[..j]), r) && Exec(trace[..j]).runs[r].leaseUntil.None?
    ensures exists k :: i < k < j && ReleasedAt(trace, k, r)
    decreases j
  {
    var before := Exec(trace[..j - 1]);
    ExecNext(trace, j);
    if j - 1 > i && !ReleasedAt(trace, j - 1, r) {
      KnownSince(trace, i, j - 1, r);
      LeaseKeptUnlessReleased(before, trace[j - 1], r);
      LeaseDropped(trace, i, j - 1, r);
    }
  }

  lemma {:induction false} KnownSince(trace: seq<Action>, i: nat, j: nat, r: RunId)
    requires i < j <= |trace| && ClaimedAt(trace, i, r)
    ensures Known(Exec(trace[..j]), r)
    decreases j
  {
    assert trace[..j][..j - 1] == trace[..j - 1];
    if j - 1 > i {
      KnownSince(trace, i, j - 1, r);
    }
  }

  lemma LeaseKeptUnlessReleased(l: Ledger, a: Action, r: RunId)
    requires Known(l, r) && Open(Apply(l, a), r) && Apply(l, a).runs[r].leaseUntil.None?
    requires !(a.Release? && a.run == r && Accepted(l, a))
    ensures Open(l, r) && l.runs[r].leaseUntil.None?
  {
  }

  // ----- how long a lease lasts

  /** A claim or a renewal of the run was accepted at this place. */
  ghost predicate LeasedAt(trace: seq<Action>, i: nat, r: RunId) {
    && i < |trace| && (trace[i].Claim? || trace[i].Renew?) && trace[i].run == r
    && Accepted(Exec(trace[..i]), trace[i])
  }

  /** When the lease that was given at this place runs out. */
  function LeaseEnd(a: Action): int
    requires a.Claim? || a.Renew?
  {
    a.now + a.seconds
  }

  predicate Closes(a: Action) {
    (a.Append? && Closing(a.body)) || a.Complete?
  }

  /** An accepted action that gives the lease back or ends the run. */
  ghost predicate EndsLease(l: Ledger, a: Action, r: RunId) {
    Accepted(l, a) && (a.Release? || Closes(a)) && a.run == r
  }

  ghost predicate MovesLease(l: Ledger, a: Action, r: RunId) {
    EndsLease(l, a, r) || (Accepted(l, a) && (a.Claim? || a.Renew?) && a.run == r)
  }

  /** Nothing ended the lease between two places. */
  ghost predicate Uninterrupted(trace: seq<Action>, i: nat, j: nat, r: RunId) {
    forall k :: i < k < j && k < |trace| ==> !EndsLease(Exec(trace[..k]), trace[k], r)
  }

  /** Nothing touched the lease after a place. */
  ghost predicate Undisturbed(trace: seq<Action>, i: nat, r: RunId) {
    forall k :: i < k < |trace| ==> !MovesLease(Exec(trace[..k]), trace[k], r)
  }

  ghost predicate LeasedUntil(l: Ledger, r: RunId, until: int) {
    Open(l, r) && l.runs[r].leaseUntil == Some(until)
  }

  ghost predicate LeasedAtLeast(l: Ledger, r: RunId, until: int) {
    Open(l, r) && l.runs[r].leaseUntil.Some? && until <= l.runs[r].leaseUntil.value
  }

  lemma LeaseIsGiven(l: Ledger, a: Action)
    requires Inv(l) && Accepted(l, a) && (a.Claim? || a.Renew?)
    ensures LeasedUntil(Apply(l, a), a.run, LeaseEnd(a))
  {
    assert RunOk(l, a.run);
  }

  lemma LeaseIsLeftAlone(l: Ledger, a: Action, r: RunId)
    requires Open(l, r) && !MovesLease(l, a, r)
    ensures Open(Apply(l, a), r) && Apply(l, a).runs[r].leaseUntil == l.runs[r].leaseUntil
    ensures Apply(l, a).runs[r].leaseOwner == l.runs[r].leaseOwner
    ensures Apply(l, a).runs[r].status == l.runs[r].status && Apply(l, a).runs[r].dependsOn == l.runs[r].dependsOn
  {
  }

  /** Claims only lengthen a lease that has not ended; renewals may shorten it and are left out here. */
  lemma ClaimLengthens(l: Ledger, a: Action, r: RunId, until: int)
    requires LeasedAtLeast(l, r, until) && !EndsLease(l, a, r)
    requires !(Accepted(l, a) && a.Renew? && a.run == r)
    ensures LeasedAtLeast(Apply(l, a), r, until)
  {
  }

  ghost predicate NoRenewal(trace: seq<Action>, i: nat, j: nat, r: RunId) {
    forall k :: i < k < j && k < |trace| ==>
      !(Accepted(Exec(trace[..k]), trace[k]) && trace[k].Renew? && trace[k].run == r)
  }

  lemma ExecNext(trace: seq<Action>, j: nat)
    requires 0 < j <= |trace|
    ensures Exec(trace[..j]) == Apply(Exec(trace[..j - 1]), trace[j - 1])
  {
    assert trace[..j][..j - 1] == trace[..j - 1];
  }

  lemma LeaseStarts(trace: seq<Action>, i: nat, r: RunId)
    requires LeasedAt(trace, i, r)
    ensures LeasedUntil(Exec(trace[..i + 1]), r, LeaseEnd(trace[i]))
  {
    ExecNext(trace, i + 1);
    EveryTraceKeepsInv(trace[..i]);
    LeaseIsGiven(Exec(trace[..i]), trace[i]);
  }

  lemma LeaseHoldsOn(trace: seq<Action>, j: nat, r: RunId, until: int)
    requires 0 < j <= |trace| && LeasedAtLeast(Exec(trace[..j - 1]), r, until)
    requires !EndsLease(Exec(trace[..j - 1]), trace[j - 1], r)
    requires !(Accepted(Exec(trace[..j - 1]), trace[j - 1]) && trace[j - 1].Renew? && trace[j - 1].run == r)
    ensures LeasedAtLeast(Exec(trace[..j]), r, until)
  {
    ExecNext(trace, j);
    ClaimLengthens(Exec(trace[..j - 1]), trace[j - 1], r, until);
  }

  lemma {:induction false} LeaseHolds(trace: seq<Action>, i: nat, j: nat, r: RunId)
    requires i < j <= |trace| && LeasedAt(trace, i, r) && Uninterrupted(trace, i, j, r) && NoRenewal(trace, i, j, r)
    ensures LeasedAtLeast(Exec(trace[..j]), r, LeaseEnd(trace[i]))
    decreases j
  {
    if j - 1 > i {
      LeaseHolds(trace, i, j - 1, r);
      LeaseHoldsOn(trace, j, r, LeaseEnd(trace[i]));
    } else {
      LeaseStarts(trace, i, r);
    }
  }

  /** For as long as a claim or renewal asked, and until a release, a later renewal or the end of the run,
      nobody is handed the run. */
  lemma NobodyClaimsWithinLease(trace: seq<Action>, i: nat, j: nat, r: RunId)
    requires i < j && LeasedAt(trace, i, r) && ClaimedAt(trace, j, r)
    requires Uninterrupted(trace, i, j, r) && NoRenewal(trace, i, j, r)
    ensures LeaseEnd(trace[i]) <= trace[j].now
  {
    LeaseHolds(trace, i, j, r);
  }

  lemma LeaseStaysOn(trace: seq<Action>, j: nat, r: RunId, until: int)
    requires 0 < j <= |trace| && LeasedUntil(Exec(trace[..j - 1]), r, until)
    requires !MovesLease(Exec(trace[..j - 1]), trace[j - 1], r)
    ensures LeasedUntil(Exec(trace[..j]), r, until)
  {
    ExecNext(trace, j);
    LeaseIsLeftAlone(Exec(trace[..j - 1]), trace[j - 1], r);
  }

  lemma {:induction false} LeaseStays(trace: seq<Action>, i: nat, j: nat, r: RunId)
    requires i < j <= |trace| && LeasedAt(trace, i, r) && Undisturbed(trace, i, r)
    ensures LeasedUntil(Exec(trace[..j]), r, LeaseEnd(trace[i]))
    decreases j
  {
    if j - 1 > i {
      LeaseStays(trace, i, j - 1, r);
      LeaseStaysOn(trace, j, r, LeaseEnd(trace[i]));
    } else {
      LeaseStarts(trace, i, r);
    }
  }

  /** And it can be handed out again from exactly that moment on, once its dependency has ended. */
  lemma LeaseRunsOutExactly(trace: seq<Action>, i: nat, r: RunId, now: int)
    requires LeasedAt(trace, i, r) && Undisturbed(trace, i, r)
    ensures Known(Exec(trace), r)
    ensures Claimable(Exec(trace), r, now) <==>
            DependencyMet(Exec(trace), Exec(trace).runs[r]) && LeaseEnd(trace[i]) <= now
  {
    assert trace[..|trace|] == trace;
    LeaseStays(trace, i, |trace|, r);
  }

  // ----- who controls a leased run

  ghost predicate HeldBy(l: Ledger, r: RunId, worker: string) {
    Open(l, r) && l.runs[r].leaseOwner == Some(worker) && l.runs[r].status == Running
  }

  /** Nobody else was handed the run and nothing ended its lease. */
  ghost predicate StillHeld(trace: seq<Action>, i: nat, r: RunId) {
    forall k :: i < k < |trace| ==>
      !EndsLease(Exec(trace[..k]), trace[k], r) && !ClaimedAt(trace, k, r)
  }

  lemma HolderStays(l: Ledger, a: Action, r: RunId, worker: string)
    requires HeldBy(l, r, worker) && !EndsLease(l, a, r) && !(Accepted(l, a) && a.Claim? && a.run == r)
    ensures HeldBy(Apply(l, a), r, worker)
  {
  }

  lemma HolderStaysOn(trace: seq<Action>, j: nat, r: RunId, worker: string)
    requires 0 < j <= |trace| && HeldBy(Exec(trace[..j - 1]), r, worker)
    requires !EndsLease(Exec(trace[..j - 1]), trace[j - 1], r) && !ClaimedAt(trace, j - 1, r)
    ensures HeldBy(Exec(trace[..j]), r, worker)
  {
    ExecNext(trace, j);
    HolderStays(Exec(trace[..j - 1]), trace[j - 1], r, worker);
  }

  lemma {:induction false} HolderHolds(trace: seq<Action>, i: nat, j: nat, r: RunId)
    requires i < j <= |trace| && ClaimedAt(trace, i, r) && StillHeld(trace, i, r)
    ensures HeldBy(Exec(trace[..j]), r, trace[i].worker)
    decreases j
  {
    if j - 1 > i {
      HolderHolds(trace, i, j - 1, r);
      HolderStaysOn(trace, j, r, trace[i].worker);
    } else {
      ExecNext(trace, j);
    }
  }

  /** Whoever was handed the run last, and nobody else, can renew and release it, as long as the lease was
      not ended; a call that names a generation has to name the number of claims so far. */
  lemma ExactlyHolderControls(
    trace: seq<Action>, i: nat, r: RunId, worker: string, generation: Option<nat>, now: int, seconds: nat,
    requeue: bool)
    requires ClaimedAt(trace, i, r) && StillHeld(trace, i, r)
    ensures var mine := worker == trace[i].worker && (generation.Some? ==> generation.value == ClaimCount(trace, r));
            && (Accepted(Exec(trace), Renew(r, worker, generation, now, seconds)) <==> mine)
            && (Accepted(Exec(trace), Release(r, worker, generation, requeue)) <==> mine)
  {
    assert trace[..|trace|] == trace;
    HolderHolds(trace, i, |trace|, r);
    GenerationCountsClaims(trace, r);
  }

  /** A release frees the run at once: it can be claimed at any time once its dependency has ended, and
      nobody can renew it. It is queued again if that was asked for. */
  lemma ReleaseFrees(trace: seq<Action>, r: RunId, worker: string, generation: Option<nat>, requeue: bool, now: int)
    requires Accepted(Exec(trace), Release(r, worker, generation, requeue))
    ensures var l := Apply(Exec(trace), Release(r, worker, generation, requeue));
            && Known(l, r) && (Claimable(l, r, now) <==> DependencyMet(l, l.runs[r]))
            && (l.runs[r].status == Queued <==> requeue)
            && forall w, g, t, n :: !Accepted(l, Renew(r, w, g, t, n)) && !Accepted(l, Release(r, w, g, requeue))
  {
    EveryTraceKeepsInv(trace);
    assert RunOk(Exec(trace), r);
  }

  // ----- progress

  /** The claim query has an answer as soon as one run qualifies. */
  lemma {:induction false} OldestExists(l: Ledger, now: int, r: RunId, bound: nat) returns (oldest: RunId)
    requires Claimable(l, r, now) && r < bound
    ensures Claimable(l, oldest, now)
    ensures forall o: RunId :: o < bound && Claimable(l, o, now) ==> l.runs[oldest].createdAt <= l.runs[o].createdAt
    decreases bound
  {
    var n := bound - 1;
    var smaller := set o: RunId | o < n && o < |l.runs| && Claimable(l, o, now);
    if smaller == {} {
      oldest := r;
      forall o: RunId | o < bound && Claimable(l, o, now) ensures o == r {
        assert o !in smaller && r !in smaller;
      }
    } else {
      var o :| o in smaller;
      oldest := OldestExists(l, now, o, n);
      if Claimable(l, n, now) && l.runs[n].createdAt < l.runs[oldest].createdAt {
        oldest := n;
      }
    }
  }

  lemma {:induction false} FirstOpen(l: Ledger, r: RunId) returns (first: RunId)
    requires Open(l, r)
    ensures Open(l, first) && forall o: RunId :: o < first ==> !Open(l, o)
  {
    if o: RunId :| o < r && Open(l, o) {
      first := FirstOpen(l, o);
    } else {
      first := r;
    }
  }

  /** No deadlock: dependencies point backwards, so an open run and no live lease always leave
      something to claim, whatever was cancelled before. */
  lemma ClaimFindsWork(trace: seq<Action>, r: RunId, now: int) returns (next: RunId)
    requires Open(Exec(trace), r)
    requires forall o: RunId :: Open(Exec(trace), o) ==> Unleased(Exec(trace).runs[o], now)
    ensures OldestClaimable(Exec(trace), next, now)
  {
    EveryTraceKeepsInv(trace);
    next := WorkExists(Exec(trace), r, now);
  }

  lemma WorkExists(l: Ledger, r: RunId, now: int) returns (next: RunId)
    requires Inv(l) && Open(l, r)
    requires forall o: RunId :: Open(l, o) ==> Unleased(l.runs[o], now)
    ensures OldestClaimable(l, next, now)
  {
    var first := FirstOpen(l, r);
    assert DependencyOk(l, first);
    next := OldestExists(l, now, first, |l.runs|);
  }

  lemma {:induction false} ClosingLowersOpenCount(runs: seq<Run>, r: RunId, run: Run)
    requires r < |runs| && !Terminal(runs[r].status) && Terminal(run.status)
    ensures OpenCount(runs[r := run]) == OpenCount(runs) - 1
  {
    var n := |runs| - 1;
    if r < n {
      ClosingLowersOpenCount(runs[..n], r, run);
      assert runs[r := run][..n] == runs[..n][r := run];
    } else {
      assert runs[r := run][..n] == runs[..n];
    }
  }

  lemma {:induction false} SameOpenCount(runs: seq<Run>, r: RunId, run: Run)
    requires r < |runs| && (Terminal(runs[r].status) <==> Terminal(run.status))
    ensures OpenCount(runs[r := run]) == OpenCount(runs)
  {
    var n := |runs| - 1;
    if r < n {
      SameOpenCount(runs[..n], r, run);
      assert runs[r := run][..n] == runs[..n][r := run];
    } else {
      assert runs[r := run][..n] == runs[..n];
    }
  }

  ghost predicate WorkerStep(a: Action) {
    a.Claim? || (a.Append? && Closing(a.body))
  }

  ghost predicate Idle(l: Ledger, now: int) {
    forall o: RunId :: Open(l, o) ==> Unleased(l.runs[o], now)
  }

  /** Claiming a run and ending it takes one run out of the queue and leaves the others alone. */
  lemma ClaimAndEnd(l: Ledger, next: RunId, worker: string, now: int, seconds: nat)
    requires Inv(l) && Idle(l, now) && OldestClaimable(l, next, now)
    ensures var l' := Apply(Apply(l, Claim(next, worker, now, seconds)),
            Append(next, RunFailed("INTERNAL_ERROR"), None, now));
            Inv(l') && Idle(l', now) && |l'.runs| == |l.runs| && OpenCount(l'.runs) == OpenCount(l.runs) - 1
  {
    var claim, end := Claim(next, worker, now, seconds), Append(next, RunFailed("INTERNAL_ERROR"), None, now);
    var mid := Apply(l, claim);
    assert mid == Claimed(l, next, worker, now, seconds);
    ApplyKeepsInv(l, claim);
    SameOpenCount(l.runs, next, mid.runs[next]);
    var l' := Apply(mid, end);
    assert l' == Appended(mid, next, RunFailed("INTERNAL_ERROR"), None, now);
    ApplyKeepsInv(mid, end);
    ClosingLowersOpenCount(mid.runs, next, l'.runs[next]);
    forall o: RunId | Open(l', o) ensures Unleased(l'.runs[o], now) {
      assert o != next && Open(l, o) && l'.runs[o] == l.runs[o];
    }
  }

  /** The queue can always be emptied by workers alone: claim, end, claim, end, ... */
  lemma {:induction false} QueueDrains(l: Ledger, worker: string, now: int, seconds: nat) returns (rest: seq<Action>)
    requires Inv(l) && Idle(l, now)
    ensures forall r: RunId :: Known(ExecFrom(l, rest), r) ==> Terminal(ExecFrom(l, rest).runs[r].status)
    ensures |ExecFrom(l, rest).runs| == |l.runs|
    ensures forall k :: 0 <= k < |rest| ==> WorkerStep(rest[k])
    decreases OpenCount(l.runs)
  {
    if r: RunId :| Open(l, r) {
      var next := WorkExists(l, r, now);
      var claim, end := Claim(next, worker, now, seconds), Append(next, RunFailed("INTERNAL_ERROR"), None, now);
      ClaimAndEnd(l, next, worker, now, seconds);
      var tail := QueueDrains(Apply(Apply(l, claim), end), worker, now, seconds);
      rest := [claim] + ([end] + tail);
      ExecFromPrepend(l, claim, [end] + tail);
      ExecFromPrepend(Apply(l, claim), end, tail);
    } else {
      rest := [];
    }
  }

  lemma {:induction false} ExecFromPrepend(l: Ledger, a: Action, rest: seq<Action>)
    ensures ExecFrom(l, [a] + rest) == ExecFrom(Apply(l, a), rest)
    decreases |rest|
  {
    var all := [a] + rest;
    if rest == [] {
      assert all[..0] == [];
    } else {
      var n := |rest| - 1;
      ExecFromPrepend(l, a, rest[..n]);
      assert all[..|all| - 1] == [a] + rest[..n];
    }
  }
}
