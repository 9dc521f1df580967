/** The run store as an object: each method is one database transaction over the mutable tables. */
module AgentStore {
  import opened Common
  import opened ConversationState
  import opened Text
  import opened Ledger
  import opened LedgerInvariant
  import opened ToolEvents
  import Replay

  datatype CreateOutcome =
    | CreatedRun(id: RunId)
    | AttachedTo(id: RunId)
    | MessageConflict
    | QueueIsFull(limit: nat)

  datatype WriteOutcome =
    | Written(sequence: nat)
    | RunMissing
    | RunEnded
    | VersionConflict(expected: nat, actual: nat)

  method HasMemory(memory: seq<MemoryRow>, r: RunId) returns (known: bool)
    ensures known <==> exists i :: 0 <= i < |memory| && memory[i].run == r
  {
    for i := 0 to |memory|
      invariant forall j :: 0 <= j < i ==> memory[j].run != r
    {
      if memory[i].run == r {
        return true;
      }
    }
    return false;
  }

  method CountRows(memory: seq<MemoryRow>, s: Scope) returns (count: nat)
    ensures count == |RowsOf(memory, s)|
  {
    count := 0;
    for i := 0 to |memory|
      invariant count == |RowsOf(memory[..i], s)|
    {
      assert memory[..i + 1][..i] == memory[..i];
      if memory[i].scope == s {
        count := count + 1;
      }
    }
    assert memory[..|memory|] == memory;
  }

  method DeleteOldest(memory: seq<MemoryRow>, s: Scope, k: nat) returns (kept: seq<MemoryRow>)
    ensures kept == DropOldest(memory, s, k)
  {
    var surplus := k;
    kept := [];
    for i := 0 to |memory|
      invariant DropOldest(memory, s, k) == kept + DropOldest(memory[i..], s, surplus)
    {
      assert memory[i..][1..] == memory[i + 1..];
      if surplus > 0 && memory[i].scope == s {
        surplus := surplus - 1;
      } else {
        kept := kept + [memory[i]];
      }
    }
  }

  /** Insert-unless-present, then trim the conversation to its newest rows. */
  method SaveMemory(memory: seq<MemoryRow>, row: MemoryRow, limit: int) returns (kept: seq<MemoryRow>)
    ensures kept == Remembered(memory, row, limit)
  {
    var grown := memory;
    var known := HasMemory(memory, row.run);
    if !known {
      grown := memory + [row];
    }
    var count := CountRows(grown, row.scope);
    kept := DeleteOldest(grown, row.scope, if count > KeptRows(limit) then count - KeptRows(limit) else 0);
  }

  class AgentStore {
    var runs: seq<Run>
    var events: seq<Event>
    var memory: seq<MemoryRow>
    var states: map<Scope, ConversationRow>
    const retention: nat

    ghost function View(): Ledger
      reads this
    {
      Ledger(runs, events, memory, states)
    }

    constructor (retention: nat)
      ensures View() == Empty && this.retention == retention
    {
      this.retention := retention;
      runs, events, memory, states := [], [], [], map[];
    }

    method FindMessage(s: Scope, message: string) returns (found: Option<RunId>)
      ensures found.None? ==> !MessageSeen(View(), s, message)
      ensures found.Some? ==> found.value < |runs| && SameMessage(runs[found.value], s, message)
    {
      for i := 0 to |runs|
        invariant forall j :: 0 <= j < i ==> !SameMessage(runs[j], s, message)
      {
        if SameMessage(runs[i], s, message) {
          return Some(i);
        }
      }
      return None;
    }

    method CountOpen() returns (count: nat)
      ensures count == OpenCount(runs)
    {
      count := 0;
      for i := 0 to |runs|
        invariant count == OpenCount(runs[..i])
      {
        assert runs[..i + 1][..i] == runs[..i];
        if !Terminal(runs[i].status) {
          count := count + 1;
        }
      }
      assert runs[..|runs|] == runs;
    }

    method FindNewestOpen(s: Scope) returns (newest: Option<RunId>)
      ensures NewestOpen(View(), s, newest)
    {
      newest := None;
      for i := 0 to |runs|
        invariant newest.None? ==> forall r: RunId :: r < i ==> !OpenIn(View(), s, r)
        invariant newest.Some? ==>
          && newest.value < i && OpenIn(View(), s, newest.value)
          && forall r: RunId :: r < i && OpenIn(View(), s, r) ==> runs[r].createdAt <= runs[newest.value].createdAt
      {
        if !Terminal(runs[i].status) && runs[i].scope == s {
          if newest.None? || runs[newest.value].createdAt < runs[i].createdAt {
            newest := Some(i);
          }
        }
      }
    }

    method CreateOrAttach(s: Scope, message: string, hash: string, query: string, maxOpen: Option<nat>, now: int)
      returns (outcome: CreateOutcome)
      modifies this
      ensures outcome.CreatedRun? ==>
        && outcome.id == |old(runs)| && outcome.id < |runs|
        && var create := Create(s, message, hash, query, maxOpen, runs[outcome.id].dependsOn, now);
           Accepted(old(View()), create) && View() == Apply(old(View()), create)
      ensures !outcome.CreatedRun? ==> View() == old(View())
      ensures outcome.AttachedTo? ==>
        outcome.id < |runs| && SameMessage(runs[outcome.id], s, message) && runs[outcome.id].requestHash == hash
      ensures outcome.MessageConflict? ==>
        exists r :: 0 <= r < |runs| && SameMessage(runs[r], s, message) && runs[r].requestHash != hash
      ensures outcome.QueueIsFull? ==>
              !MessageSeen(View(), s, message) && maxOpen == Some(outcome.limit) && QueueFull(View(), maxOpen)
    {
      var existing := FindMessage(s, message);
      if existing.Some? {
        if runs[existing.value].requestHash != hash {
          return MessageConflict;
        }
        return AttachedTo(existing.value);
      }
      if maxOpen.Some? {
        var count := CountOpen();
        if count >= maxOpen.value {
          return QueueIsFull(maxOpen.value);
        }
      }
      var base := if s in states then states[s].version else 0;
      var dependency := FindNewestOpen(s);
      var id := |runs|;
      runs := runs + [Run(s, message, hash, query, Queued, 0, None, None, None, None, None, 0, dependency, base, now)];
      if s in states {
        states := states[s := states[s].(active := Some(id))];
      } else {
        states := states[s := ConversationRow(0, None, Some(id), DefaultState)];
      }
      return CreatedRun(id);
    }

    method ClaimNextRun(worker: string, now: int, seconds: nat) returns (claimed: Option<RunId>)
      modifies this`runs
      ensures claimed.None? ==> View() == old(View()) && forall r: RunId :: !Claimable(View(), r, now)
      ensures claimed.Some? ==>
        && OldestClaimable(old(View()), claimed.value, now)
        && View() == Apply(old(View()), Claim(claimed.value, worker, now, seconds))
    {
      claimed := None;
      for i := 0 to |runs|
        invariant claimed.None? ==> forall r: RunId :: r < i ==> !Claimable(View(), r, now)
        invariant claimed.Some? ==>
          && claimed.value < i && Claimable(View(), claimed.value, now)
          && forall r: RunId ::
               r < i && Claimable(View(), r, now) ==> runs[claimed.value].createdAt <= runs[r].createdAt
      {
        var run := runs[i];
        var ready := match run.dependsOn case None => true case Some(d) => d < |runs| && Terminal(runs[d].status);
        var free := match run.leaseUntil case None => true case Some(until) => until <= now;
        if !Terminal(run.status) && free && ready {
          assert Claimable(View(), i, now);
          if claimed.None? || run.createdAt < runs[claimed.value].createdAt {
            claimed := Some(i);
          }
        } else {
          assert !Claimable(View(), i, now);
        }
      }
      if claimed.Some? {
        var run := runs[claimed.value];
        runs := runs[claimed.value := run.(
          status := Running, leaseOwner := Some(worker), leaseUntil := Some(now + seconds),
          leaseGeneration := run.leaseGeneration + 1,
          baseVersion := if run.scope in states then states[run.scope].version else 0)];
      }
    }

    method RenewLease(r: RunId, worker: string, generation: Option<nat>, now: int, seconds: nat) returns (renewed: bool)
      modifies this`runs
      ensures renewed == Renewable(old(View()), r, worker, generation)
      ensures View() == Apply(old(View()), Renew(r, worker, generation, now, seconds))
    {
      if r >= |runs| {
        return false;
      }
      var run := runs[r];
      if run.leaseOwner != Some(worker) || run.status != Running {
        return false;
      }
      if generation.Some? && run.leaseGeneration != generation.value {
        return false;
      }
      runs := runs[r := run.(leaseUntil := Some(now + seconds))];
      return true;
    }

    method ReleaseLease(r: RunId, worker: string, generation: Option<nat>, requeue: bool) returns (released: bool)
      modifies this`runs
      ensures released == Releasable(old(View()), r, worker, generation)
      ensures View() == Apply(old(View()), Release(r, worker, generation, requeue))
    {
      if r >= |runs| {
        return false;
      }
      var run := runs[r];
      if run.leaseOwner != Some(worker) || Terminal(run.status) {
        return false;
      }
      if generation.Some? && run.leaseGeneration != generation.value {
        return false;
      }
      if requeue {
        run := run.(status := Queued);
      }
      runs := runs[r := run.(leaseOwner := None, leaseUntil := None)];
      return true;
    }

    method AppendEvent(r: RunId, b: Body, route: Option<string>, now: int) returns (outcome: WriteOutcome)
      modifies this`runs, this`events
      ensures View() == Apply(old(View()), Append(r, b, route, now))
      ensures outcome ==
        if !Known(old(View()), r) then RunMissing
        else if !Open(old(View()), r) then RunEnded
        else Written(old(runs[r].lastSequence) + 1)
    {
      if r >= |runs| {
        return RunMissing;
      }
      var run := runs[r];
      if Terminal(run.status) {
        return RunEnded;
      }
      var sequence := run.lastSequence + 1;
      events := events + [Event(r, sequence, b, now)];
      run := run.(lastSequence := sequence);
      if route.Some? {
        run := run.(route := route);
      }
      match b {
        case RunCompleted(answer) => run := run.(status := Succeeded, answer := Some(answer));
        case RunFailed(code) => run := run.(status := Failed, error := Some(code));
        case RunCancelled(_) => run := run.(status := Cancelled);
        case _ =>
      }
      if Terminal(run.status) {
        run := run.(leaseOwner := None, leaseUntil := None);
      }
      runs := runs[r := run];
      return Written(sequence);
    }

    method CompleteRunWithMemory(
      r: RunId, query: string, answer: string, route: Option<string>,
      limit: int, state: Option<BusinessState>, now: int
    ) returns (outcome: WriteOutcome)
      modifies this
      ensures View() == Apply(old(View()), Complete(r, query, answer, route, limit, state, now))
      ensures outcome ==
        if !Known(old(View()), r) then RunMissing
        else if state.Some? && VersionMoved(old(View()), r)
          then VersionConflict(old(runs[r].baseVersion), Version(old(View()), old(runs[r].scope)))
        else if !Open(old(View()), r) then RunEnded
        else Written(old(runs[r].lastSequence) + 1)
    {
      if r >= |runs| {
        return RunMissing;
      }
      var run := runs[r];
      var s := run.scope;
      var rows := SaveMemory(memory, MemoryRow(r, s, Clip(query), Clip(answer), route), limit);
      var conversations := states;
      if state.Some? {
        var current := if s in states then states[s].version else 0;
        if current != run.baseVersion {
          return VersionConflict(run.baseVersion, current);
        }
        conversations := states[s := ConversationRow(current + 1, Some(r), None, state.value)];
      }
      if Terminal(run.status) {
        return RunEnded;
      }
      memory, states := rows, conversations;
      outcome := AppendEvent(r, RunCompleted(answer), None, now);
    }

    method ListEvents(r: RunId, after: nat, now: int) returns (listing: Replay.Listing)
      ensures listing == Replay.ListEvents(View(), r, after, now - retention)
    {
      if r >= |runs| {
        return Replay.NotFound;
      }
      var cutoff := now - retention;
      var earliest: Option<nat> := None;
      var rows: seq<Event> := [];
      for i := 0 to |events|
        invariant earliest == Replay.Earliest(Replay.Retained(Log(events[..i], r), cutoff))
        invariant rows == Replay.After(Replay.Retained(Log(events[..i], r), cutoff), after)
      {
        var e := events[i];
        assert events[..i + 1][..i] == events[..i];
        ghost var log := Log(events[..i], r);
        if e.run == r {
          assert (log + [e])[..|log|] == log;
          if e.createdAt >= cutoff {
            ghost var kept := Replay.Retained(log, cutoff);
            assert (kept + [e])[..|kept|] == kept;
            earliest := match earliest
                        case None => Some(e.sequence)
                        case Some(m) => Some(if e.sequence < m then e.sequence else m);
            if e.sequence > after {
              rows := rows + [e];
            }
          }
        }
      }
      assert events[..|events|] == events;
      if earliest.None? && runs[r].lastSequence > after {
        return Replay.HistoryExpired;
      }
      if earliest.Some? && after + 1 < earliest.value {
        return Replay.HistoryExpired;
      }
      return Replay.Rows(rows);
    }

    method HasToolEvent(r: RunId, b: Body) returns (found: bool)
      ensures found <==> Present(Bodies(Log(events, r)), b)
    {
      found := false;
      var id := "";
      if b.ToolStarted? || b.ToolCompleted? {
        id := b.callId;
      }
      if id == "" {
        return;
      }
      for i := 0 to |events|
        invariant found <==> Present(Bodies(Log(events[..i], r)), b)
      {
        assert events[..i + 1][..i] == events[..i];
        var e := events[i];
        var hit := e.run == r && (if b.ToolStarted? then StartOf(e.body, id) else CompletionOf(e.body, id));
        ghost var before := Bodies(Log(events[..i], r));
        if e.run == r {
          assert Bodies(Log(events[..i + 1], r)) == before + [e.body];
          PresentSnoc(before, e.body, b);
        }
        found := found || hit;
      }
      assert events[..|events|] == events;
    }

    method PendingToolCalls(r: RunId) returns (pending: seq<Call>)
      ensures pending == Pending(Bodies(Log(events, r)))
    {
      var started: seq<Call> := [];
      var completed: set<string> := {};
      for i := 0 to |events|
        invariant started == StartedCalls(Bodies(Log(events[..i], r)))
        invariant forall id :: id in completed <==> id != "" && Completions(Bodies(Log(events[..i], r)), id) > 0
      {
        assert events[..i + 1][..i] == events[..i];
        var e := events[i];
        if e.run == r {
          ghost var before := Bodies(Log(events[..i], r));
          assert Bodies(Log(events[..i + 1], r)) == before + [e.body];
          assert (before + [e.body])[..|before|] == before;
          if e.body.ToolStarted? && e.body.callId != "" {
            started := Put(started, Call(e.body.callId, e.body.toolName));
          } else if e.body.ToolCompleted? && e.body.callId != "" {
            completed := completed + {e.body.callId};
          }
        }
      }
      assert events[..|events|] == events;
      ghost var bodies := Bodies(Log(events, r));
      NoEmptyIds(bodies);
      pending := [];
      for i := 0 to |started|
        invariant pending == Uncompleted(started[..i], bodies)
      {
        assert started[..i + 1][..i] == started[..i];
        if started[i].callId !in completed {
          pending := pending + [started[i]];
        }
      }
      assert started[..|started|] == started;
    }
  }

  lemma PresentSnoc(bodies: seq<Body>, last: Body, b: Body)
    ensures Present(bodies + [last], b) <==>
      Present(bodies, b)
      || (b.ToolStarted? && b.callId != "" && StartOf(last, b.callId))
      || (b.ToolCompleted? && b.callId != "" && CompletionOf(last, b.callId))
  {
    var all := bodies + [last];
    assert all[|bodies|] == last;
    assert forall i :: 0 <= i < |bodies| ==> all[i] == bodies[i];
  }

  lemma NoEmptyIds(bodies: seq<Body>)
    ensures forall c :: c in StartedCalls(bodies) ==> c.callId != ""
  {
    StartedCallsListStarts(bodies, "");
  }
}
