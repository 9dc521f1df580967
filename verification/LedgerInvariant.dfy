/** What every transaction keeps, hence what holds after every interleaving. */
module LedgerInvariant {
  import opened Common
  import opened ConversationState
  import opened Ledger

  // ----- the event log of one run

  /** Sequences are 1..last without gap or repetition, and only the last event may be a terminal one. */
  ghost predicate LogWellFormed(log: seq<Event>) {
    && (forall k :: 0 <= k < |log| ==> log[k].sequence == k + 1)
    && (forall k :: 0 <= k < |log| - 1 ==> !Closing(log[k].body))
  }

  ghost predicate Ended(log: seq<Event>) {
    log != [] && Closing(log[|log| - 1].body)
  }

  /** The run row agrees with the log: length, status, answer, error and lease. */
  ghost predicate RowMatchesLog(run: Run, log: seq<Event>) {
    && run.lastSequence == |log|
    && (Terminal(run.status) <==> Ended(log))
    && (Ended(log) ==> run.status == StatusAfter(Running, log[|log| - 1].body))
    && (run.answer == if Ended(log) && log[|log| - 1].body.RunCompleted? then Some(log[|log| - 1].body.answer)
         else None)
    && (run.error == if Ended(log) && log[|log| - 1].body.RunFailed? then Some(log[|log| - 1].body.code) else None)
  }

  ghost predicate LeaseConsistent(run: Run) {
    && (run.leaseOwner.None? <==> run.leaseUntil.None?)
    && (run.leaseOwner.Some? ==> run.status == Running)
    && (run.status == Running ==> run.leaseGeneration > 0)
  }

  ghost predicate RunOk(l: Ledger, r: RunId)
    requires Known(l, r)
  {
    && LogWellFormed(Log(l.events, r))
    && RowMatchesLog(l.runs[r], Log(l.events, r))
    && LeaseConsistent(l.runs[r])
    && l.runs[r].baseVersion <= Version(l, l.runs[r].scope)
    && l.runs[r].scope in l.states
  }

  ghost predicate DependencyOk(l: Ledger, r: RunId)
    requires Known(l, r)
  {
    match l.runs[r].dependsOn
    case None => true
    case Some(d) => d < r && l.runs[d].scope == l.runs[r].scope
  }

  ghost predicate MessagesUnique(l: Ledger) {
    forall i, j :: 0 <= i < j < |l.runs| ==> !SameMessage(l.runs[i], l.runs[j].scope, l.runs[j].message)
  }

  ghost predicate EventsKnown(l: Ledger) {
    forall k :: 0 <= k < |l.events| ==> Known(l, l.events[k].run)
  }

  ghost predicate MemoryOk(l: Ledger) {
    forall k :: 0 <= k < |l.memory| ==>
      && Known(l, l.memory[k].run)
      && l.runs[l.memory[k].run].status == Succeeded
      && l.runs[l.memory[k].run].scope == l.memory[k].scope
  }

  ghost predicate Inv(l: Ledger) {
    && (forall r: RunId :: Known(l, r) ==> RunOk(l, r))
    && (forall r: RunId :: Known(l, r) ==> DependencyOk(l, r))
    && MessagesUnique(l)
    && EventsKnown(l)
    && MemoryOk(l)
  }

  // ----- helpers about the event table

  lemma LogSnoc(events: seq<Event>, e: Event, r: RunId)
    ensures Log(events + [e], r) == Log(events, r) + (if e.run == r then [e] else [])
  {
    assert (events + [e])[..|events|] == events;
  }

  lemma {:induction false} LogOfUnknown(events: seq<Event>, r: RunId)
    requires forall k :: 0 <= k < |events| ==> events[k].run != r
    ensures Log(events, r) == []
  {
    if events != [] {
      LogOfUnknown(events[..|events| - 1], r);
    }
  }

  lemma {:induction false} DropOldestKeeps(memory: seq<MemoryRow>, s: Scope, k: nat)
    ensures forall i :: 0 <= i < |DropOldest(memory, s, k)| ==> DropOldest(memory, s, k)[i] in memory
  {
    if memory != [] {
      if k > 0 && memory[0].scope == s {
        DropOldestKeeps(memory[1..], s, k - 1);
      } else {
        DropOldestKeeps(memory[1..], s, k);
      }
    }
  }

  lemma RememberedKeeps(memory: seq<MemoryRow>, row: MemoryRow, limit: int)
    ensures forall i :: 0 <= i < |Remembered(memory, row, limit)| ==>
      Remembered(memory, row, limit)[i] in memory || Remembered(memory, row, limit)[i] == row
  {
    var grown := if exists i :: 0 <= i < |memory| && memory[i].run == row.run then memory else memory + [row];
    var count := |RowsOf(grown, row.scope)|;
    DropOldestKeeps(grown, row.scope, if count > KeptRows(limit) then count - KeptRows(limit) else 0);
  }

  // ----- preservation

  /** Writing one row of the run table leaves the invariant alone when that row stays consistent. */
  lemma RowUpdateKeepsInv(l: Ledger, r: RunId, run: Run)
    requires Inv(l) && Known(l, r)
    requires run.scope == l.runs[r].scope && run.message == l.runs[r].message
    requires run.dependsOn == l.runs[r].dependsOn
    requires run.status == Succeeded <==> l.runs[r].status == Succeeded
    requires RowMatchesLog(run, Log(l.events, r)) && LeaseConsistent(run)
    requires run.baseVersion <= Version(l, run.scope)
    ensures Inv(l.(runs := l.runs[r := run]))
  {
    var l' := l.(runs := l.runs[r := run]);
    forall o: RunId | Known(l', o) ensures RunOk(l', o) && DependencyOk(l', o) {
      assert Known(l, o) && RunOk(l, o) && DependencyOk(l, o);
    }
    assert MessagesUnique(l') by {
      forall i, j | 0 <= i < j < |l'.runs| ensures !SameMessage(l'.runs[i], l'.runs[j].scope, l'.runs[j].message) {
        assert !SameMessage(l.runs[i], l.runs[j].scope, l.runs[j].message);
      }
    }
    assert MemoryOk(l');
  }

  lemma CreateKeepsInv(l: Ledger, s: Scope, m: string, h: string, q: string, dep: Option<RunId>, now: int)
    requires Inv(l) && !MessageSeen(l, s, m) && NewestOpen(l, s, dep)
    ensures Inv(Created(l, s, m, h, q, dep, now))
  {
    var l' := Created(l, s, m, h, q, dep, now);
    var n := |l.runs|;
    forall r: RunId | Known(l', r) ensures RunOk(l', r) && DependencyOk(l', r) {
      if r < n {
        assert Known(l, r) && RunOk(l, r) && DependencyOk(l, r);
        assert l'.runs[r] == l.runs[r];
      } else {
        LogOfUnknown(l.events, n);
      }
    }
    forall i, j | 0 <= i < j < |l'.runs| ensures !SameMessage(l'.runs[i], l'.runs[j].scope, l'.runs[j].message) {
      if j == n {
        assert l'.runs[i] == l.runs[i];
      } else {
        assert !SameMessage(l.runs[i], l.runs[j].scope, l.runs[j].message);
      }
    }
    assert MemoryOk(l') by {
      forall k | 0 <= k < |l'.memory|
          ensures Known(l', l'.memory[k].run) && l'.runs[l'.memory[k].run] == l.runs[l.memory[k].run] {
        assert Known(l, l.memory[k].run);
      }
    }
    assert EventsKnown(l') by {
      forall k | 0 <= k < |l'.events| ensures Known(l', l'.events[k].run) { assert Known(l, l.events[k].run); }
    }
  }

  lemma AppendedRowOk(run: Run, log: seq<Event>, e: Event, b: Body, route: Option<string>)
    requires LogWellFormed(log) && RowMatchesLog(run, log) && LeaseConsistent(run)
    requires !Terminal(run.status) && e.sequence == |log| + 1 && e.body == b
    ensures LogWellFormed(log + [e]) && RowMatchesLog(RunAfter(run, b, route), log + [e])
    ensures LeaseConsistent(RunAfter(run, b, route))
  {
    assert (log + [e])[|log|] == e;
  }

  lemma AppendedSelfOk(l: Ledger, r: RunId, b: Body, route: Option<string>, now: int)
    requires Open(l, r) && RunOk(l, r)
    ensures RunOk(Appended(l, r, b, route, now), r)
  {
    var e := Event(r, l.runs[r].lastSequence + 1, b, now);
    LogSnoc(l.events, e, r);
    AppendedRowOk(l.runs[r], Log(l.events, r), e, b, route);
  }

  lemma AppendedOtherOk(l: Ledger, r: RunId, b: Body, route: Option<string>, now: int, o: RunId)
    requires Open(l, r) && Known(l, o) && o != r && RunOk(l, o)
    ensures RunOk(Appended(l, r, b, route, now), o)
  {
    LogSnoc(l.events, Event(r, l.runs[r].lastSequence + 1, b, now), o);
    assert Log(Appended(l, r, b, route, now).events, o) == Log(l.events, o);
  }

  lemma AppendKeepsInv(l: Ledger, r: RunId, b: Body, route: Option<string>, now: int)
    requires Inv(l) && Open(l, r)
    ensures Inv(Appended(l, r, b, route, now))
  {
    var l' := Appended(l, r, b, route, now);
    forall o: RunId | Known(l', o) ensures RunOk(l', o) && DependencyOk(l', o) {
      assert Known(l, o) && DependencyOk(l, o);
      assert RunOk(l, o) && RunOk(l, r);
      if o == r {
        AppendedSelfOk(l, r, b, route, now);
      } else {
        AppendedOtherOk(l, r, b, route, now, o);
      }
    }
    forall i, j | 0 <= i < j < |l'.runs| ensures !SameMessage(l'.runs[i], l'.runs[j].scope, l'.runs[j].message) {
      assert !SameMessage(l.runs[i], l.runs[j].scope, l.runs[j].message);
    }
    assert MemoryOk(l') && EventsKnown(l');
  }

  /** Advancing conversation versions, or adding conversations, touches no run. */
  lemma StatesKeepInv(l: Ledger, states: map<Scope, ConversationRow>)
    requires Inv(l)
    requires forall s :: s in l.states ==> s in states && l.states[s].version <= states[s].version
    ensures Inv(l.(states := states))
  {
    var l' := l.(states := states);
    forall o: RunId | Known(l', o) ensures RunOk(l', o) && DependencyOk(l', o) {
      assert Known(l, o) && RunOk(l, o) && DependencyOk(l, o);
    }
    forall i, j | 0 <= i < j < |l'.runs| ensures !SameMessage(l'.runs[i], l'.runs[j].scope, l'.runs[j].message) {
      assert !SameMessage(l.runs[i], l.runs[j].scope, l.runs[j].message);
    }
  }

  lemma RememberingKeepsInv(l: Ledger, row: MemoryRow, limit: int)
    requires Inv(l) && Known(l, row.run)
    requires l.runs[row.run].status == Succeeded && l.runs[row.run].scope == row.scope
    ensures Inv(l.(memory := Remembered(l.memory, row, limit)))
  {
    var l' := l.(memory := Remembered(l.memory, row, limit));
    RememberedKeeps(l.memory, row, limit);
    forall k | 0 <= k < |l'.memory|
      ensures Known(l', l'.memory[k].run) && l'.runs[l'.memory[k].run].status == Succeeded
      ensures l'.runs[l'.memory[k].run].scope == l'.memory[k].scope
    {
      if l'.memory[k] != row {
        assert l'.memory[k] in l.memory;
      }
    }
    forall o: RunId | Known(l', o) ensures RunOk(l', o) && DependencyOk(l', o) {
      assert Known(l, o) && RunOk(l, o) && DependencyOk(l, o);
    }
    assert MessagesUnique(l') && EventsKnown(l');
  }

  /** The completing transaction is three writes: conversation, event with run row, memory. */
  lemma CompletionIsThreeWrites(
    l: Ledger, r: RunId, query: string, answer: string, route: Option<string>,
    limit: int, state: Option<BusinessState>, now: int)
    requires Known(l, r)
    ensures var mid := l.(states := if state.Some? then Stored(l, r, state.value) else l.states);
            var row := MemoryRow(r, l.runs[r].scope, Clip(query), Clip(answer), route);
            var done := Appended(mid, r, RunCompleted(answer), None, now);
            Completed(l, r, query, answer, route, limit, state, now) ==
                done.(memory := Remembered(done.memory, row, limit))
  {
  }

  lemma CompleteKeepsInv(
    l: Ledger, r: RunId, query: string, answer: string, route: Option<string>,
    limit: int, state: Option<BusinessState>, now: int)
    requires Inv(l) && Completable(l, r, state)
    ensures Inv(Completed(l, r, query, answer, route, limit, state, now))
  {
    var mid := l.(states := if state.Some? then Stored(l, r, state.value) else l.states);
    StatesKeepInv(l, mid.states);
    AppendKeepsInv(mid, r, RunCompleted(answer), None, now);
    var done := Appended(mid, r, RunCompleted(answer), None, now);
    RememberingKeepsInv(done, MemoryRow(r, l.runs[r].scope, Clip(query), Clip(answer), route), limit);
    CompletionIsThreeWrites(l, r, query, answer, route, limit, state, now);
  }

  /** One transaction, accepted or refused, keeps the invariant. */
  lemma ApplyKeepsInv(l: Ledger, a: Action)
    requires Inv(l)
    ensures Inv(Apply(l, a))
  {
    if Accepted(l, a) {
      match a
      case Create(s, m, h, q, _, dep, now) => CreateKeepsInv(l, s, m, h, q, dep, now);
      case Claim(r, w, now, seconds) =>
        assert RunOk(l, r);
        RowUpdateKeepsInv(l, r, Claimed(l, r, w, now, seconds).runs[r]);
      case Renew(r, _, _, now, seconds) =>
        assert RunOk(l, r);
        RowUpdateKeepsInv(l, r, Renewed(l, r, now, seconds).runs[r]);
      case Release(r, _, _, requeue) =>
        assert RunOk(l, r);
        RowUpdateKeepsInv(l, r, Released(l, r, requeue).runs[r]);
      case Append(r, b, route, now) => AppendKeepsInv(l, r, b, route, now);
      case Complete(r, query, answer, route, limit, state, now) =>
        CompleteKeepsInv(l, r, query, answer, route, limit, state, now);
    }
  }

  /** Main result: every interleaving whatsoever leaves a consistent ledger. */
  lemma {:induction false} EveryTraceKeepsInv(trace: seq<Action>)
    ensures Inv(Exec(trace))
  {
    if trace != [] {
      EveryTraceKeepsInv(trace[..|trace| - 1]);
      ApplyKeepsInv(Exec(trace[..|trace| - 1]), trace[|trace| - 1]);
    }
  }

  // ----- history only grows

  /** A terminal run is frozen: no later transaction changes its row or its log. */
  lemma ApplyFreezesTerminal(l: Ledger, a: Action, r: RunId)
    requires Known(l, r) && Terminal(l.runs[r].status)
    ensures Known(Apply(l, a), r) && Apply(l, a).runs[r] == l.runs[r]
    ensures Log(Apply(l, a).events, r) == Log(l.events, r)
  {
    if Accepted(l, a) && (a.Append? || a.Complete?) {
      var b := if a.Append? then a.body else RunCompleted(a.answer);
      LogSnoc(l.events, Event(a.run, l.runs[a.run].lastSequence + 1, b, a.now), r);
    }
  }

  ghost function ExecFrom(l: Ledger, trace: seq<Action>): Ledger {
    if trace == [] then l else Apply(ExecFrom(l, trace[..|trace| - 1]), trace[|trace| - 1])
  }

  lemma {:induction false} ExecSplits(first: seq<Action>, rest: seq<Action>)
    ensures Exec(first + rest) == ExecFrom(Exec(first), rest)
  {
    if rest == [] {
      assert first + rest == first;
    } else {
      var n := |rest| - 1;
      ExecSplits(first, rest[..n]);
      assert (first + rest)[..|first + rest| - 1] == first + rest[..n];
      assert (first + rest)[|first + rest| - 1] == rest[n];
    }
  }

  lemma {:induction false} TerminalRunsAreFrozen(l: Ledger, trace: seq<Action>, r: RunId)
    requires Known(l, r) && Terminal(l.runs[r].status)
    ensures Known(ExecFrom(l, trace), r) && ExecFrom(l, trace).runs[r] == l.runs[r]
    ensures Log(ExecFrom(l, trace).events, r) == Log(l.events, r)
  {
    if trace != [] {
      var n := |trace| - 1;
      TerminalRunsAreFrozen(l, trace[..n], r);
      ApplyFreezesTerminal(ExecFrom(l, trace[..n]), trace[n], r);
    }
  }
}
