/** Success, conversation state, memory and terminal event always move together. */
module CommitHistory {
  import opened Common
  import opened ConversationState
  import opened Ledger
  import opened LedgerInvariant

  /** Traffic as the runtime produces it: `run.completed` is written only by the completing
      transaction, which always carries a state, the request's own query and the fixed memory bound. */
  ghost predicate RuntimeAction(l: Ledger, a: Action) {
    match a
    case Append(_, b, _, _) => !b.RunCompleted?
    case Complete(r, query, _, _, limit, state, _) =>
      state.Some? && limit == 12 && (Known(l, r) ==> query == l.runs[r].query)
    case _ => true
  }

  ghost predicate RuntimeTrace(trace: seq<Action>) {
    trace != [] ==>
      RuntimeTrace(trace[..|trace| - 1]) && RuntimeAction(Exec(trace[..|trace| - 1]), trace[|trace| - 1])
  }

  ghost predicate CommitOf(l: Ledger, s: Scope, e: Event) {
    e.body.RunCompleted? && Known(l, e.run) && l.runs[e.run].scope == s
  }

  /** The completions of one conversation in commit order, read off the event table. */
  ghost function Commits(l: Ledger, s: Scope, events: seq<Event>): seq<Event> {
    if events == [] then []
    else
      var n := |events| - 1;
      if CommitOf(l, s, events[n]) then Commits(l, s, events[..n]) + [events[n]] else Commits(l, s, events[..n])
  }

  /** A memory row and the completion that wrote it. */
  ghost predicate Remembers(l: Ledger, row: MemoryRow, e: Event) {
    && e.body.RunCompleted? && row.run == e.run && Known(l, e.run)
    && row.query == Clip(l.runs[e.run].query) && row.answer == Clip(e.body.answer)
  }

  ghost predicate MemoryTracks(l: Ledger, s: Scope) {
    var rows := RowsOf(l.memory, s);
    var kept := LastN(Commits(l, s, l.events), 12);
    |rows| == |kept| && forall k :: 0 <= k < |rows| ==> Remembers(l, rows[k], kept[k])
  }

  ghost predicate StateTracks(l: Ledger, s: Scope) {
    var commits := Commits(l, s, l.events);
    && Version(l, s) == |commits|
    && (s in l.states && commits != [] ==> l.states[s].lastCommitted == Some(commits[|commits| - 1].run))
    && (s in l.states && commits == [] ==> l.states[s].lastCommitted == None)
  }

  ghost predicate CommitInv(l: Ledger) {
    && Inv(l)
    && forall s: Scope :: StateTracks(l, s) && MemoryTracks(l, s)
  }

  // ----- table lemmas

  /** Completions depend on the run table only through scopes, which never change. */
  lemma {:induction false} CommitsStable(l: Ledger, l': Ledger, s: Scope, events: seq<Event>)
    requires forall k :: 0 <= k < |events| ==> Known(l, events[k].run)
    requires |l.runs| <= |l'.runs| && forall r: RunId :: Known(l, r) ==> l'.runs[r].scope == l.runs[r].scope
    ensures Commits(l', s, events) == Commits(l, s, events)
    decreases |events|
  {
    if events != [] {
      CommitsStable(l, l', s, events[..|events| - 1]);
    }
  }

  lemma {:induction false} CommitsAreCommits(l: Ledger, s: Scope, events: seq<Event>)
    ensures forall k :: 0 <= k < |Commits(l, s, events)| ==> CommitOf(l, s, Commits(l, s, events)[k])
    decreases |events|
  {
    if events != [] {
      CommitsAreCommits(l, s, events[..|events| - 1]);
    }
  }

  lemma {:induction false} RowsOfPrepend(row: MemoryRow, rest: seq<MemoryRow>, s: Scope)
    ensures RowsOf([row] + rest, s) == (if row.scope == s then [row] else []) + RowsOf(rest, s)
    decreases |rest|
  {
    if rest == [] {
      assert [row] + rest == [row];
      assert [row][..0] == [];
    } else {
      var n := |rest| - 1;
      RowsOfPrepend(row, rest[..n], s);
      assert ([row] + rest)[..n + 1] == [row] + rest[..n];
    }
  }

  lemma {:induction false} RowsOfDropOldest(memory: seq<MemoryRow>, s: Scope, k: nat, o: Scope)
    ensures o != s ==> RowsOf(DropOldest(memory, s, k), o) == RowsOf(memory, o)
    ensures k <= |RowsOf(memory, s)| ==> RowsOf(DropOldest(memory, s, k), s) == RowsOf(memory, s)[k..]
    decreases |memory|
  {
    if memory != [] {
      var rest := memory[1..];
      assert memory == [memory[0]] + rest;
      RowsOfPrepend(memory[0], rest, s);
      RowsOfPrepend(memory[0], rest, o);
      if k > 0 && memory[0].scope == s {
        RowsOfDropOldest(rest, s, k - 1, o);
      } else {
        RowsOfDropOldest(rest, s, k, o);
        RowsOfPrepend(memory[0], DropOldest(rest, s, k), s);
        RowsOfPrepend(memory[0], DropOldest(rest, s, k), o);
      }
    }
  }

  /** What the insert-then-trim pair does to the rows of every conversation. */
  lemma RowsOfRemembered(memory: seq<MemoryRow>, row: MemoryRow, limit: int, o: Scope)
    requires forall i :: 0 <= i < |memory| ==> memory[i].run != row.run
    ensures RowsOf(Remembered(memory, row, limit), row.scope) ==
            LastN(RowsOf(memory, row.scope) + [row], KeptRows(limit))
    ensures o != row.scope ==> RowsOf(Remembered(memory, row, limit), o) == RowsOf(memory, o)
  {
    var grown := memory + [row];
    assert grown[..|memory|] == memory;
    assert RowsOf(grown, row.scope) == RowsOf(memory, row.scope) + [row];
    var count := |RowsOf(grown, row.scope)|;
    var k := if count > KeptRows(limit) then count - KeptRows(limit) else 0;
    RowsOfDropOldest(grown, row.scope, k, o);
    assert RowsOf(grown, o) == if o == row.scope then RowsOf(memory, o) + [row] else RowsOf(memory, o);
  }

  // ----- preservation

  /** Steps that write no completion only need to keep rows, scopes and versions. */
  lemma QuietStepKeepsCommitInv(l: Ledger, l': Ledger, s: Scope)
    requires CommitInv(l) && |l.runs| <= |l'.runs|
    requires forall r: RunId ::
            Known(l, r) ==> l'.runs[r].scope == l.runs[r].scope && l'.runs[r].query == l.runs[r].query
    requires l'.memory == l.memory
    requires l'.events == l.events ||
      (|l'.events| == |l.events| + 1 && l'.events[..|l.events|] == l.events &&
          !l'.events[|l.events|].body.RunCompleted?)
    requires Version(l', s) == Version(l, s)
    requires s in l'.states ==> l'.states[s].lastCommitted == if s in l.states then l.states[s].lastCommitted else None
    requires s in l.states ==> s in l'.states
    ensures StateTracks(l', s) && MemoryTracks(l', s)
  {
    assert StateTracks(l, s) && MemoryTracks(l, s);
    CommitsStable(l, l', s, l.events);
    assert Commits(l', s, l'.events) == Commits(l, s, l.events);
    assert s !in l.states ==> Version(l, s) == 0;
    var rows := RowsOf(l'.memory, s);
    var kept := LastN(Commits(l, s, l.events), MEMORY_LIMIT);
    forall k | 0 <= k < |rows| ensures Remembers(l', rows[k], kept[k]) {
      assert Remembers(l, rows[k], kept[k]);
    }
  }

  lemma NotYetRemembered(l: Ledger, r: RunId)
    requires Inv(l) && Open(l, r)
    ensures forall i :: 0 <= i < |l.memory| ==> l.memory[i].run != r
  {
  }

  /** A completion is one more commit of its own conversation and of no other. */
  lemma CompletionIsACommit(
    l: Ledger, r: RunId, answer: string, route: Option<string>, state: BusinessState, now: int, s: Scope)
    requires CommitInv(l) && Completable(l, r, Some(state))
    ensures var l' := Completed(l, r, l.runs[r].query, answer, route, MEMORY_LIMIT, Some(state), now);
            Commits(l', s, l'.events) ==
            Commits(l, s, l.events) +
            (if s == l.runs[r].scope then [Event(r, l.runs[r].lastSequence + 1, RunCompleted(answer), now)] else [])
  {
    var l' := Completed(l, r, l.runs[r].query, answer, route, MEMORY_LIMIT, Some(state), now);
    var e := Event(r, l.runs[r].lastSequence + 1, RunCompleted(answer), now);
    assert l'.events == l.events + [e];
    CommitsStable(l, l', s, l.events);
    assert l'.events[..|l.events|] == l.events;
  }

  lemma {:induction false} RemembersStays(l: Ledger, l': Ledger, rows: seq<MemoryRow>, kept: seq<Event>)
    requires |rows| == |kept| && forall k :: 0 <= k < |rows| ==> Remembers(l, rows[k], kept[k])
    requires |l.runs| <= |l'.runs| && forall r: RunId :: Known(l, r) ==> l'.runs[r].query == l.runs[r].query
    ensures forall k :: 0 <= k < |rows| ==> Remembers(l', rows[k], kept[k])
  {
    forall k | 0 <= k < |rows| ensures Remembers(l', rows[k], kept[k]) {
      assert Remembers(l, rows[k], kept[k]);
    }
  }

  lemma CompletionIsRemembered(
    l: Ledger, r: RunId, answer: string, route: Option<string>, state: BusinessState, now: int, s: Scope)
    requires CommitInv(l) && Completable(l, r, Some(state))
    ensures MemoryTracks(Completed(l, r, l.runs[r].query, answer, route, MEMORY_LIMIT, Some(state), now), s)
  {
    var query := l.runs[r].query;
    var l' := Completed(l, r, query, answer, route, MEMORY_LIMIT, Some(state), now);
    var row := MemoryRow(r, l.runs[r].scope, Clip(query), Clip(answer), route);
    var e := Event(r, l.runs[r].lastSequence + 1, RunCompleted(answer), now);
    CompletionIsACommit(l, r, answer, route, state, now, s);
    NotYetRemembered(l, r);
    RowsOfRemembered(l.memory, row, MEMORY_LIMIT, s);
    assert MemoryTracks(l, s);
    var commits, rows := Commits(l, s, l.events), RowsOf(l.memory, s);
    RemembersStays(l, l', rows, LastN(commits, MEMORY_LIMIT));
    if s == row.scope {
      assert Remembers(l', row, e);
      OneMoreRemembered(l', rows, row, commits, e);
    }
  }

  lemma OneMoreRemembered(l: Ledger, rows: seq<MemoryRow>, row: MemoryRow, commits: seq<Event>, e: Event)
    requires |rows| == |LastN(commits, MEMORY_LIMIT)| && Remembers(l, row, e)
    requires forall k :: 0 <= k < |rows| ==> Remembers(l, rows[k], LastN(commits, MEMORY_LIMIT)[k])
    ensures var kept, events := LastN(rows + [row], MEMORY_LIMIT), LastN(commits + [e], MEMORY_LIMIT);
            |kept| == |events| && forall k :: 0 <= k < |kept| ==> Remembers(l, kept[k], events[k])
  {
    LastNSnoc(commits, e, MEMORY_LIMIT);
    var grown, events := rows + [row], LastN(commits, MEMORY_LIMIT) + [e];
    forall k | 0 <= k < |grown| ensures Remembers(l, grown[k], events[k]) {
    }
  }

  lemma CompleteKeepsCommitInv(
    l: Ledger, r: RunId, answer: string, route: Option<string>, state: BusinessState, now: int, s: Scope)
    requires CommitInv(l) && Completable(l, r, Some(state))
    ensures StateTracks(Completed(l, r, l.runs[r].query, answer, route, MEMORY_LIMIT, Some(state), now), s)
    ensures MemoryTracks(Completed(l, r, l.runs[r].query, answer, route, MEMORY_LIMIT, Some(state), now), s)
  {
    assert StateTracks(l, s);
    CompletionIsACommit(l, r, answer, route, state, now, s);
    CompletionIsRemembered(l, r, answer, route, state, now, s);
  }

  /** Every accepted transaction but a completion is quiet. */
  lemma OtherStepsAreQuiet(l: Ledger, a: Action, s: Scope)
    requires CommitInv(l) && RuntimeAction(l, a) && Accepted(l, a) && !a.Complete?
    ensures StateTracks(Apply(l, a), s) && MemoryTracks(Apply(l, a), s)
  {
    var l' := Apply(l, a);
    match a
    case Create(_, _, _, _, _, _, _) => QuietStepKeepsCommitInv(l, l', s);
    case Claim(_, _, _, _) => QuietStepKeepsCommitInv(l, l', s);
    case Renew(_, _, _, _, _) => QuietStepKeepsCommitInv(l, l', s);
    case Release(_, _, _, _) => QuietStepKeepsCommitInv(l, l', s);
    case Append(_, _, _, _) => QuietStepKeepsCommitInv(l, l', s);
  }

  lemma ApplyKeepsCommitInv(l: Ledger, a: Action)
    requires CommitInv(l) && RuntimeAction(l, a)
    ensures CommitInv(Apply(l, a))
  {
    ApplyKeepsInv(l, a);
    if Accepted(l, a) {
      var l' := Apply(l, a);
      forall s: Scope ensures StateTracks(l', s) && MemoryTracks(l', s) {
        if a.Complete? {
          CompleteKeepsCommitInv(l, a.run, a.answer, a.route, a.state.value, a.now, s);
        } else {
          OtherStepsAreQuiet(l, a, s);
        }
      }
    }
  }

  lemma {:induction false} EveryRuntimeTraceKeepsCommitInv(trace: seq<Action>)
    requires RuntimeTrace(trace)
    ensures CommitInv(Exec(trace))
  {
    if trace != [] {
      EveryRuntimeTraceKeepsCommitInv(trace[..|trace| - 1]);
      ApplyKeepsCommitInv(Exec(trace[..|trace| - 1]), trace[|trace| - 1]);
    } else {
      assert Exec(trace) == Empty;
    }
  }

  // ----- main result

  lemma {:induction false} LogHoldsCommit(l: Ledger, s: Scope, events: seq<Event>, r: RunId)
    requires Known(l, r) && l.runs[r].scope == s
    ensures (exists k :: 0 <= k < |Log(events, r)| && Log(events, r)[k].body.RunCompleted?)
       <==> (exists k :: 0 <= k < |Commits(l, s, events)| && Commits(l, s, events)[k].run == r)
    decreases |events|
  {
    if events != [] {
      var n := |events| - 1;
      var log, commits := Log(events[..n], r), Commits(l, s, events[..n]);
      LogHoldsCommit(l, s, events[..n], r);
      if CommitOf(l, s, events[n]) && events[n].run == r {
        assert Log(events, r)[|log|] == events[n] && Commits(l, s, events)[|commits|] == events[n];
      } else {
        assert forall k :: 0 <= k < |log| ==> Log(events, r)[k] == log[k];
        assert forall k :: 0 <= k < |commits| ==> Commits(l, s, events)[k] == commits[k];
      }
    }
  }

  lemma SucceededIffCommitted(l: Ledger, r: RunId)
    requires Inv(l) && Known(l, r)
    ensures l.runs[r].status == Succeeded <==>
      exists k :: 0 <= k < |Commits(l, l.runs[r].scope, l.events)| && Commits(l, l.runs[r].scope, l.events)[k].run == r
  {
    assert RunOk(l, r);
    LogHoldsCommit(l, l.runs[r].scope, l.events, r);
    var log := Log(l.events, r);
    if l.runs[r].status == Succeeded {
      assert log[|log| - 1].body.RunCompleted?;
    }
  }

  /** After any runtime interleaving a run has succeeded exactly when its completion is among the
      commits of its conversation; the conversation version counts those commits, and the memory
      table holds exactly the last twelve of them, in order, with their texts. */
  lemma CommitsMoveTogether(trace: seq<Action>, r: RunId)
    requires RuntimeTrace(trace) && Known(Exec(trace), r)
    ensures
      var l := Exec(trace);
      var s := l.runs[r].scope;
      var commits := Commits(l, s, l.events);
      && (l.runs[r].status == Succeeded <==> exists k :: 0 <= k < |commits| && commits[k].run == r)
      && Version(l, s) == |commits|
      && MemoryTracks(l, s)
  {
    EveryRuntimeTraceKeepsCommitInv(trace);
    SucceededIffCommitted(Exec(trace), r);
    assert StateTracks(Exec(trace), Exec(trace).runs[r].scope);
  }
}
