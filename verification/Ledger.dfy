/** The tables of the run store and what each database transaction does to them.
    A run is named by its insertion position: identifiers are fresh and never reused. */
module Ledger {
  import opened Common
  import opened ConversationState
  import opened Text

  type RunId = nat

  datatype Scope = Scope(tenant: string, user: string, conversation: string)

  datatype Status = Queued | Running | Succeeded | Failed | Cancelled

  datatype Body =
    | RunStarted
    | RouteSelected(intent: string)
    | RetrievalCompleted(documents: nat)
    | CitationAdded(citation: string)
    | ToolStarted(callId: string, toolName: string)
    | ToolCompleted(callId: string, toolName: string, outcome: string, durationMs: nat)
    | MapResultReady(result: string)
    | AnswerDelta(content: string)
    | RunCompleted(answer: string)
    | RunFailed(code: string)
    | RunCancelled(reason: string)

  datatype Event = Event(run: RunId, sequence: nat, body: Body, createdAt: int)

  datatype Run = Run(
    scope: Scope, message: string, requestHash: string, query: string,
    status: Status, lastSequence: nat, route: Option<string>, answer: Option<string>, error: Option<string>,
    leaseOwner: Option<string>, leaseUntil: Option<int>, leaseGeneration: nat,
    dependsOn: Option<RunId>, baseVersion: nat, createdAt: int)

  datatype MemoryRow = MemoryRow(run: RunId, scope: Scope, query: string, answer: string, route: Option<string>)

  datatype ConversationRow = ConversationRow(
    version: nat, lastCommitted: Option<RunId>, active: Option<RunId>, state: BusinessState)

  /** `memory` holds its rows in the order of their autoincrement key. */
  datatype Ledger = Ledger(
    runs: seq<Run>, events: seq<Event>, memory: seq<MemoryRow>, states: map<Scope, ConversationRow>)

  const Empty: Ledger := Ledger([], [], [], map[])

  const MEMORY_LIMIT: nat := 12
  const TEXT_LIMIT: nat := 4000

  // ----- reading

  predicate Terminal(s: Status) {
    s == Succeeded || s == Failed || s == Cancelled
  }

  predicate Closing(b: Body) {
    b.RunCompleted? || b.RunFailed? || b.RunCancelled?
  }

  /** The status a terminal event announces. */
  function StatusAfter(s: Status, b: Body): Status {
    match b
    case RunCompleted(_) => Succeeded
    case RunFailed(_) => Failed
    case RunCancelled(_) => Cancelled
    case _ => s
  }

  predicate Known(l: Ledger, r: RunId) {
    r < |l.runs|
  }

  predicate Open(l: Ledger, r: RunId) {
    r < |l.runs| && !Terminal(l.runs[r].status)
  }

  predicate OpenIn(l: Ledger, s: Scope, r: RunId) {
    Open(l, r) && l.runs[r].scope == s
  }

  function Version(l: Ledger, s: Scope): nat {
    if s in l.states then l.states[s].version else 0
  }

  function StateOf(l: Ledger, s: Scope): BusinessState {
    if s in l.states then l.states[s].state else DefaultState
  }

  /** The rows of one run, in insertion order. */
  function Log(events: seq<Event>, r: RunId): seq<Event> {
    if events == [] then []
    else
      var n := |events| - 1;
      if events[n].run == r then Log(events[..n], r) + [events[n]] else Log(events[..n], r)
  }

  function OpenCount(runs: seq<Run>): nat {
    if runs == [] then 0
    else OpenCount(runs[..|runs| - 1]) + (if Terminal(runs[|runs| - 1].status) then 0 else 1)
  }

  /** The dependency a new run of `s` gets: an open run of that conversation created last. */
  ghost predicate NewestOpen(l: Ledger, s: Scope, d: Option<RunId>) {
    match d
    case None => forall r: RunId :: !OpenIn(l, s, r)
    case Some(id) =>
      OpenIn(l, s, id) && forall r: RunId :: OpenIn(l, s, r) ==> l.runs[r].createdAt <= l.runs[id].createdAt
  }

  predicate Unleased(run: Run, now: int) {
    match run.leaseUntil
    case None => true
    case Some(until) => until <= now
  }

  predicate DependencyMet(l: Ledger, run: Run) {
    match run.dependsOn
    case None => true
    case Some(d) => d < |l.runs| && Terminal(l.runs[d].status)
  }

  predicate Claimable(l: Ledger, r: RunId, now: int) {
    Open(l, r) && Unleased(l.runs[r], now) && DependencyMet(l, l.runs[r])
  }

  ghost predicate OldestClaimable(l: Ledger, r: RunId, now: int) {
    Claimable(l, r, now) && forall o: RunId :: Claimable(l, o, now) ==> l.runs[r].createdAt <= l.runs[o].createdAt
  }

  predicate SameMessage(run: Run, s: Scope, message: string) {
    run.scope == s && run.message == message
  }

  predicate MessageSeen(l: Ledger, s: Scope, message: string) {
    exists r :: 0 <= r < |l.runs| && SameMessage(l.runs[r], s, message)
  }

  predicate QueueFull(l: Ledger, maxOpen: Option<nat>) {
    match maxOpen
    case None => false
    case Some(n) => OpenCount(l.runs) >= n
  }

  // ----- writing

  function NewRun(l: Ledger, s: Scope, message: string, hash: string, query: string, dep: Option<RunId>,
      now: int): Run {
    Run(s, message, hash, query, Queued, 0, None, None, None, None, None, 0, dep, Version(l, s), now)
  }

  function Created(l: Ledger, s: Scope, message: string, hash: string, query: string, dep: Option<RunId>,
      now: int): Ledger {
    l.(runs := l.runs + [NewRun(l, s, message, hash, query, dep, now)],
       states := l.states[s :=
         if s in l.states then l.states[s].(active := Some(|l.runs|))
         else ConversationRow(0, None, Some(|l.runs|), DefaultState)])
  }

  function Claimed(l: Ledger, r: RunId, worker: string, now: int, seconds: nat): Ledger
    requires Known(l, r)
  {
    var run := l.runs[r];
    l.(runs := l.runs[r := run.(
      status := Running, leaseOwner := Some(worker), leaseUntil := Some(now + seconds),
      leaseGeneration := run.leaseGeneration + 1, baseVersion := Version(l, run.scope))])
  }

  /** The guard shared by renewal and release; no generation means an unfenced call. */
  predicate Holds(run: Run, worker: string, generation: Option<nat>) {
    && run.leaseOwner == Some(worker)
    && (generation.None? || generation.value == run.leaseGeneration)
  }

  predicate Renewable(l: Ledger, r: RunId, worker: string, generation: Option<nat>) {
    Known(l, r) && Holds(l.runs[r], worker, generation) && l.runs[r].status == Running
  }

  function Renewed(l: Ledger, r: RunId, now: int, seconds: nat): Ledger
    requires Known(l, r)
  {
    l.(runs := l.runs[r := l.runs[r].(leaseUntil := Some(now + seconds))])
  }

  predicate Releasable(l: Ledger, r: RunId, worker: string, generation: Option<nat>) {
    Known(l, r) && Holds(l.runs[r], worker, generation) && !Terminal(l.runs[r].status)
  }

  function Released(l: Ledger, r: RunId, requeue: bool): Ledger
    requires Known(l, r)
  {
    var run := l.runs[r];
    l.(runs := l.runs[r := run.(
      status := if requeue then Queued else run.status, leaseOwner := None, leaseUntil := None)])
  }

  function RunAfter(run: Run, b: Body, route: Option<string>): Run {
    var closed := Terminal(StatusAfter(run.status, b));
    run.(
      lastSequence := run.lastSequence + 1,
      status := StatusAfter(run.status, b),
      route := if route.Some? then route else run.route,
      answer := if b.RunCompleted? then Some(b.answer) else run.answer,
      error := if b.RunFailed? then Some(b.code) else run.error,
      leaseOwner := if closed then None else run.leaseOwner,
      leaseUntil := if closed then None else run.leaseUntil)
  }

  function Appended(l: Ledger, r: RunId, b: Body, route: Option<string>, now: int): Ledger
    requires Known(l, r)
  {
    l.(runs := l.runs[r := RunAfter(l.runs[r], b, route)],
       events := l.events + [Event(r, l.runs[r].lastSequence + 1, b, now)])
  }

  /** The memory rows of one conversation, oldest first. */
  function RowsOf(memory: seq<MemoryRow>, s: Scope): seq<MemoryRow> {
    if memory == [] then []
    else
      var n := |memory| - 1;
      if memory[n].scope == s then RowsOf(memory[..n], s) + [memory[n]] else RowsOf(memory[..n], s)
  }

  /** Delete the oldest `k` rows of one conversation. */
  function DropOldest(memory: seq<MemoryRow>, s: Scope, k: nat): seq<MemoryRow> {
    if memory == [] then []
    else if k > 0 && memory[0].scope == s then DropOldest(memory[1..], s, k - 1)
    else [memory[0]] + DropOldest(memory[1..], s, k)
  }

  function KeptRows(limit: int): nat {
    Max(1, Min(limit, 20))
  }

  /** Insert unless the run has a row already, then keep only the newest rows of the conversation. */
  function Remembered(memory: seq<MemoryRow>, row: MemoryRow, limit: int): seq<MemoryRow> {
    var grown := if exists i :: 0 <= i < |memory| && memory[i].run == row.run then memory else memory + [row];
    var count := |RowsOf(grown, row.scope)|;
    DropOldest(grown, row.scope, if count > KeptRows(limit) then count - KeptRows(limit) else 0)
  }

  /** The stored form of a query or an answer. */
  function Clip(text: string): string {
    FirstN(Strip(text), TEXT_LIMIT)
  }

  predicate VersionMoved(l: Ledger, r: RunId)
    requires Known(l, r)
  {
    Version(l, l.runs[r].scope) != l.runs[r].baseVersion
  }

  predicate Completable(l: Ledger, r: RunId, state: Option<BusinessState>) {
    Open(l, r) && (state.Some? ==> !VersionMoved(l, r))
  }

  function Stored(l: Ledger, r: RunId, state: BusinessState): map<Scope, ConversationRow>
    requires Known(l, r)
  {
    var s := l.runs[r].scope;
    l.states[s := ConversationRow(Version(l, s) + 1, Some(r), None, state)]
  }

  /** Memory, conversation state and the terminal event are written by one transaction. */
  function Completed(
    l: Ledger, r: RunId, query: string, answer: string, route: Option<string>,
    limit: int, state: Option<BusinessState>, now: int
  ): Ledger
    requires Known(l, r)
  {
    var row := MemoryRow(r, l.runs[r].scope, Clip(query), Clip(answer), route);
    var written := l.(
      memory := Remembered(l.memory, row, limit),
      states := if state.Some? then Stored(l, r, state.value) else l.states);
    Appended(written, r, RunCompleted(answer), None, now)
  }

  // ----- one transaction

  datatype Action =
    | Create(scope: Scope, message: string, hash: string, query: string, maxOpen: Option<nat>, dep: Option<RunId>,
        now: int)
    | Claim(run: RunId, worker: string, now: int, seconds: nat)
    | Renew(run: RunId, worker: string, generation: Option<nat>, now: int, seconds: nat)
    | Release(run: RunId, worker: string, generation: Option<nat>, requeue: bool)
    | Append(run: RunId, body: Body, route: Option<string>, now: int)
    | Complete(
        run: RunId, query: string, answer: string, route: Option<string>,
        limit: int, state: Option<BusinessState>, now: int)

  /** The guard of each transaction. `dep` and the claimed run are the rows a query picked: any row
      of the requested order may come first when creation times tie. */
  ghost predicate Accepted(l: Ledger, a: Action) {
    match a
    case Create(s, m, _, _, maxOpen, dep, _) => !MessageSeen(l, s, m) && !QueueFull(l, maxOpen) && NewestOpen(l, s, dep)
    case Claim(r, _, now, _) => OldestClaimable(l, r, now)
    case Renew(r, w, g, _, _) => Renewable(l, r, w, g)
    case Release(r, w, g, _) => Releasable(l, r, w, g)
    case Append(r, _, _, _) => Open(l, r)
    case Complete(r, _, _, _, _, state, _) => Completable(l, r, state)
  }

  /** A refused transaction is rolled back as a whole. */
  ghost function Apply(l: Ledger, a: Action): Ledger {
    if !Accepted(l, a) then l
    else match a
      case Create(s, m, h, q, _, dep, now) => Created(l, s, m, h, q, dep, now)
      case Claim(r, w, now, seconds) => Claimed(l, r, w, now, seconds)
      case Renew(r, _, _, now, seconds) => Renewed(l, r, now, seconds)
      case Release(r, _, _, requeue) => Released(l, r, requeue)
      case Append(r, b, route, now) => Appended(l, r, b, route, now)
      case Complete(r, query, answer, route, limit, state, now) =>
        Completed(l, r, query, answer, route, limit, state, now)
  }

  /** Any interleaving of transactions by API threads, workers and cancellers, as one sequence. */
  ghost function Exec(trace: seq<Action>): Ledger {
    if trace == [] then Empty else Apply(Exec(trace[..|trace| - 1]), trace[|trace| - 1])
  }
}
