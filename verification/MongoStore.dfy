/** The document-database store: the same queue, but creating and claiming a run take several
    separate database operations that other processes may interleave with. */
module MongoStore {
  import opened Common
  import Ledger

  type RunId = Ledger.RunId
  type Scope = Ledger.Scope
  type Status = Ledger.Status

  datatype Doc = Doc(
    scope: Scope, message: string, hash: string, status: Status,
    leaseOwner: Option<string>, leaseUntil: Option<int>, leaseGeneration: nat,
    dependsOn: Option<RunId>, baseVersion: nat)

  datatype Conversation = Conversation(version: nat, active: Option<RunId>)

  datatype Db = Db(docs: map<RunId, Doc>, conversations: map<Scope, Conversation>)

  // ----- single operations

  predicate OpenDoc(db: Db, id: RunId) {
    id in db.docs && !Ledger.Terminal(db.docs[id].status)
  }

  predicate Matches(d: Doc, s: Scope, message: string) {
    d.scope == s && d.message == message
  }

  /** The unique index on conversation and message. */
  ghost predicate Taken(db: Db, s: Scope, message: string) {
    exists id :: id in db.docs && Matches(db.docs[id], s, message)
  }

  function Tail(db: Db, s: Scope): Option<RunId> {
    if s in db.conversations then db.conversations[s].active else None
  }

  function VersionOf(db: Db, s: Scope): nat {
    if s in db.conversations then db.conversations[s].version else 0
  }

  /** Read the old tail and install a new one, in one atomic operation. */
  function TailSwapped(db: Db, s: Scope, id: RunId): Db {
    db.(conversations := db.conversations[s := Conversation(VersionOf(db, s), Some(id))])
  }

  function Inserted(db: Db, id: RunId, d: Doc): Db {
    db.(docs := db.docs[id := d])
  }

  /** Give the tail back to the run that already holds the message, if nobody swapped since. */
  function TailRestored(db: Db, s: Scope, own: RunId, existing: RunId): Db {
    if Tail(db, s) == Some(own)
    then db.(conversations := db.conversations[s := Conversation(VersionOf(db, s), Some(existing))])
    else db
  }

  predicate FreeAt(d: Doc, now: int) {
    match d.leaseUntil
    case None => true
    case Some(until) => until <= now
  }

  /** The guard of the conditional update that takes a lease. */
  predicate Takeable(db: Db, id: RunId, now: int) {
    OpenDoc(db, id) && FreeAt(db.docs[id], now)
  }

  function Taking(db: Db, id: RunId, worker: string, until: int, base: nat): Db
    requires id in db.docs
  {
    var d := db.docs[id];
    Inserted(db, id, d.(
      status := Ledger.Running, leaseOwner := Some(worker), leaseUntil := Some(until),
      leaseGeneration := d.leaseGeneration + 1, baseVersion := base))
  }

  function EndedDoc(db: Db, id: RunId, status: Status): Db
    requires id in db.docs
  {
    Inserted(db, id, db.docs[id].(status := status, leaseOwner := None, leaseUntil := None))
  }

  /** A completion with a state compares versions before it commits. */
  predicate Committable(db: Db, id: RunId) {
    OpenDoc(db, id) && VersionOf(db, db.docs[id].scope) == db.docs[id].baseVersion
  }

  /** A committing completion also moves the version and clears the tail, whoever holds it. */
  function CommittedDoc(db: Db, id: RunId): Db
    requires id in db.docs
  {
    var s := db.docs[id].scope;
    var ended := EndedDoc(db, id, Ledger.Succeeded);
    ended.(conversations := ended.conversations[s := Conversation(VersionOf(db, s) + 1, None)])
  }

  // ----- the store object: one method per operation, and the create composed of them

  datatype CreateOutcome = CreatedRun(id: RunId) | AttachedTo(id: RunId) | MessageConflict | QueueFull

  ghost function OpenIds(db: Db): set<RunId> {
    set id | id in db.docs && OpenDoc(db, id)
  }

  /** The queue limit counts the open runs of all conversations. */
  ghost predicate Full(db: Db, limit: Option<nat>) {
    limit.Some? && |OpenIds(db)| >= limit.value
  }

  class MongoAgentStore {
    var docs: map<RunId, Doc>
    var conversations: map<Scope, Conversation>

    ghost function View(): Db
      reads this
    {
      Db(docs, conversations)
    }

    constructor ()
      ensures View() == Db(map[], map[])
    {
      docs, conversations := map[], map[];
    }

    method FindMessage(s: Scope, message: string) returns (found: Option<RunId>)
      ensures found.None? ==> !Taken(View(), s, message)
      ensures found.Some? ==> found.value in docs && Matches(docs[found.value], s, message)
    {
      var ids := docs.Keys;
      while ids != {}
        invariant ids <= docs.Keys
        invariant forall id :: id in docs.Keys - ids ==> !Matches(docs[id], s, message)
        decreases ids
      {
        var id :| id in ids;
        if Matches(docs[id], s, message) {
          return Some(id);
        }
        ids := ids - {id};
      }
      return None;
    }

    method SwapTail(s: Scope, id: RunId) returns (previous: Option<Conversation>)
      modifies this`conversations
      ensures View() == TailSwapped(old(View()), s, id)
      ensures previous == if s in old(conversations) then Some(old(conversations)[s]) else None
    {
      if s in conversations {
        previous := Some(conversations[s]);
        conversations := conversations[s := conversations[s].(active := Some(id))];
      } else {
        previous := None;
        conversations := conversations[s := Conversation(0, Some(id))];
      }
    }

    method InsertRun(id: RunId, d: Doc) returns (inserted: bool)
      modifies this`docs
      ensures inserted <==> !Taken(old(View()), d.scope, d.message)
      ensures View() == if inserted then Inserted(old(View()), id, d) else old(View())
    {
      var duplicate := FindMessage(d.scope, d.message);
      inserted := duplicate.None?;
      if inserted {
        docs := docs[id := d];
      }
    }

    method RestoreTail(s: Scope, own: RunId, existing: RunId)
      modifies this`conversations
      ensures View() == TailRestored(old(View()), s, own, existing)
    {
      if s in conversations && conversations[s].active == Some(own) {
        conversations := conversations[s := conversations[s].(active := Some(existing))];
      }
    }

    method CountOpen() returns (count: nat)
      ensures count == |OpenIds(View())|
    {
      var ids := docs.Keys;
      count := 0;
      ghost var seen: set<RunId> := {};
      while ids != {}
        invariant ids <= docs.Keys
        invariant seen == set id | id in docs.Keys - ids && OpenDoc(View(), id)
        invariant count == |seen|
        decreases ids
      {
        assert (forall id :: id !in ids) ==> ids == {};
        var id :| id in ids;
        ids := ids - {id};
        if !Ledger.Terminal(docs[id].status) {
          assert id !in seen;
          seen := seen + {id};
          count := count + 1;
        }
      }
      assert seen == OpenIds(View());
    }

    /** Inserting the run after the tail was swapped; a duplicate message gives the tail back to the
        run that has it, or is a conflict that gives nothing back. */
    method InsertOrAttach(id: RunId, d: Doc) returns (outcome: CreateOutcome)
      modifies this
      ensures !Taken(old(View()), d.scope, d.message) ==>
                outcome == CreatedRun(id) && View() == Inserted(old(View()), id, d)
      ensures Taken(old(View()), d.scope, d.message) ==> outcome.AttachedTo? || outcome.MessageConflict?
      ensures outcome.AttachedTo? ==>
                && outcome.id in old(docs) && Matches(old(docs)[outcome.id], d.scope, d.message)
                && old(docs)[outcome.id].hash == d.hash
                && View() == TailRestored(old(View()), d.scope, id, outcome.id)
      ensures outcome.MessageConflict? ==>
                && View() == old(View())
                && exists other ::
                     other in docs && Matches(docs[other], d.scope, d.message) && docs[other].hash != d.hash
    {
      var inserted := InsertRun(id, d);
      if inserted {
        return CreatedRun(id);
      }
      var existing := FindMessage(d.scope, d.message);
      if docs[existing.value].hash != d.hash {
        return MessageConflict;
      }
      RestoreTail(d.scope, id, existing.value);
      return AttachedTo(existing.value);
    }

    /** The create of one process that is not interrupted between its operations. */
    method CreateOrAttach(s: Scope, message: string, hash: string, id: RunId, limit: Option<nat>)
      returns (outcome: CreateOutcome)
      requires id !in docs
      modifies this
      ensures Taken(old(View()), s, message) ==> outcome.AttachedTo? || outcome.MessageConflict?
      ensures !Taken(old(View()), s, message) && Full(old(View()), limit) ==> outcome.QueueFull?
      ensures Taken(old(View()), s, message) || Full(old(View()), limit) ==> View() == old(View())
      ensures !Taken(old(View()), s, message) && !Full(old(View()), limit) ==>
                && outcome == CreatedRun(id)
                && View() == Inserted(
                     TailSwapped(old(View()), s, id), id,
                     Doc(s, message, hash, Ledger.Queued, None, None, 0, Tail(old(View()), s),
                         VersionOf(old(View()), s)))
      ensures outcome.AttachedTo? ==>
                outcome.id in docs && Matches(docs[outcome.id], s, message) && docs[outcome.id].hash == hash
      ensures outcome.MessageConflict? ==>
                exists other :: other in docs && Matches(docs[other], s, message) && docs[other].hash != hash
    {
      var existing := FindMessage(s, message);
      if existing.Some? {
        if docs[existing.value].hash != hash {
          return MessageConflict;
        }
        return AttachedTo(existing.value);
      }
      if limit.Some? {
        var open := CountOpen();
        if open >= limit.value {
          return QueueFull;
        }
      }
      var previous := SwapTail(s, id);
      var base := if previous.Some? then previous.value.version else 0;
      var dependency := if previous.Some? then previous.value.active else None;
      outcome := InsertOrAttach(id, Doc(s, message, hash, Ledger.Queued, None, None, 0, dependency, base));
    }

    method TakeLease(id: RunId, worker: string, now: int, until: int, base: nat) returns (taken: bool)
      modifies this`docs
      ensures taken <==> Takeable(old(View()), id, now)
      ensures View() == if taken then Taking(old(View()), id, worker, until, base) else old(View())
    {
      if id !in docs || Ledger.Terminal(docs[id].status) {
        return false;
      }
      var d := docs[id];
      if d.leaseUntil.Some? && d.leaseUntil.value > now {
        return false;
      }
      docs := docs[id := d.(
        status := Ledger.Running, leaseOwner := Some(worker), leaseUntil := Some(until),
        leaseGeneration := d.leaseGeneration + 1, baseVersion := base)];
      return true;
    }
  }

  // ----- interleaved processes

  datatype Stage = Begun | LookedUp | Swapped | Rejected | Finished

  /** A creating request; the fresh run id it draws is its own position. */
  datatype Creator = Creator(
    scope: Scope, message: string, hash: string, stage: Stage, dependsOn: Option<RunId>, baseVersion: nat)

  datatype ClaimStage =
    Searching | Picked | Checked(dependencyPresent: bool) | Ready(dependencyPresent: bool) | Done

  datatype Claimer = Claimer(
    worker: string, now: int, until: int, stage: ClaimStage,
    candidate: RunId, dependsOn: Option<RunId>, baseVersion: nat)

  /** `swaps` lists, per conversation, the requests that swapped the tail, in order. */
  datatype System = System(
    db: Db, creators: seq<Creator>, claimers: seq<Claimer>, swaps: map<Scope, seq<RunId>>)

  const Initial: System := System(Db(map[], map[]), [], [], map[])

  datatype Step =
    | Begin(scope: Scope, message: string, hash: string)
    | Lookup(creator: nat, limit: Option<nat>)
    | Swap(creator: nat)
    | Insert(creator: nat)
    | Rollback(creator: nat, existing: RunId)
    | StartClaim(worker: string, now: int, until: int)
    | Pick(claimer: nat, candidate: RunId)
    | CheckDependency(claimer: nat)
    | ReadVersion(claimer: nat)
    | Take(claimer: nat)
    | Extend(run: RunId, until: int)
    | Free(run: RunId, requeue: bool)
    | End(run: RunId, status: Status)
    | Commit(run: RunId)

  function SwapsOf(sys: System, s: Scope): seq<RunId> {
    if s in sys.swaps then sys.swaps[s] else []
  }

  function NewDoc(c: Creator): Doc {
    Doc(c.scope, c.message, c.hash, Ledger.Queued, None, None, 0, c.dependsOn, c.baseVersion)
  }

  ghost function CreatorNext(sys: System, i: nat, step: Step): System
    requires i < |sys.creators|
  {
    var c := sys.creators[i];
    match step
    case Lookup(_, limit) =>
      if c.stage != Begun then sys
      else
        var stop := Taken(sys.db, c.scope, c.message) || Full(sys.db, limit);
        sys.(creators := sys.creators[i := c.(stage := if stop then Finished else LookedUp)])
    case Swap(_) =>
      if c.stage != LookedUp then sys
      else sys.(
        creators := sys.creators[i := c.(
          stage := Swapped, dependsOn := Tail(sys.db, c.scope), baseVersion := VersionOf(sys.db, c.scope))],
        db := TailSwapped(sys.db, c.scope, i),
        swaps := sys.swaps[c.scope := SwapsOf(sys, c.scope) + [i]])
    case Insert(_) =>
      if c.stage != Swapped then sys
      else if Taken(sys.db, c.scope, c.message) then sys.(creators := sys.creators[i := c.(stage := Rejected)])
      else sys.(creators := sys.creators[i := c.(stage := Finished)], db := Inserted(sys.db, i, NewDoc(c)))
    case Rollback(_, existing) =>
      if c.stage != Rejected || existing !in sys.db.docs || !Matches(sys.db.docs[existing], c.scope, c.message) then sys
      else sys.(
        creators := sys.creators[i := c.(stage := Finished)],
        db := if sys.db.docs[existing].hash == c.hash then TailRestored(sys.db, c.scope, i, existing) else sys.db)
    case _ => sys
  }

  function ClaimerNext(sys: System, w: nat, step: Step): System
    requires w < |sys.claimers|
  {
    var c := sys.claimers[w];
    match step
    case Pick(_, id) =>
      if c.stage != Searching || !Takeable(sys.db, id, c.now) then sys
      else sys.(claimers := sys.claimers[w := c.(
        stage := Picked, candidate := id, dependsOn := sys.db.docs[id].dependsOn)])
    case CheckDependency(_) =>
      if c.stage != Picked then sys
      else
        var present := c.dependsOn.Some? && c.dependsOn.value in sys.db.docs;
        sys.(claimers := sys.claimers[w := c.(
          stage := if present && OpenDoc(sys.db, c.dependsOn.value) then Searching else Checked(present))])
    case ReadVersion(_) =>
      if !c.stage.Checked? || c.candidate !in sys.db.docs then sys
      else sys.(claimers := sys.claimers[w := c.(
        stage := Ready(c.stage.dependencyPresent),
        baseVersion := VersionOf(sys.db, sys.db.docs[c.candidate].scope))])
    case Take(_) =>
      if !c.stage.Ready? then sys
      else if !Takeable(sys.db, c.candidate, c.now) then sys.(claimers := sys.claimers[w := c.(stage := Searching)])
      else sys.(
        claimers := sys.claimers[w := c.(stage := Done)],
        db := Taking(sys.db, c.candidate, c.worker, c.until, c.baseVersion))
    case _ => sys
  }

  /** Renewals, releases, ends and commits by whoever holds the run. */
  function StoreNext(sys: System, step: Step): System {
    match step
    case Extend(r, until) =>
      if !OpenDoc(sys.db, r) then sys else sys.(db := Inserted(sys.db, r, sys.db.docs[r].(leaseUntil := Some(until))))
    case Free(r, requeue) =>
      if !OpenDoc(sys.db, r) then sys
      else sys.(db := Inserted(sys.db, r, sys.db.docs[r].(
        status := if requeue then Ledger.Queued else Ledger.Running, leaseOwner := None, leaseUntil := None)))
    case End(r, status) =>
      if !OpenDoc(sys.db, r) || !Ledger.Terminal(status) then sys else sys.(db := EndedDoc(sys.db, r, status))
    case Commit(r) => if !Committable(sys.db, r) then sys else sys.(db := CommittedDoc(sys.db, r))
    case _ => sys
  }

  ghost function Next(sys: System, step: Step): System {
    match step
    case Begin(s, m, h) => sys.(creators := sys.creators + [Creator(s, m, h, Begun, None, 0)])
    case StartClaim(worker, now, until) =>
      sys.(claimers := sys.claimers + [Claimer(worker, now, until, Searching, 0, None, 0)])
    case Extend(_, _) => StoreNext(sys, step)
    case Free(_, _) => StoreNext(sys, step)
    case End(_, _) => StoreNext(sys, step)
    case Commit(_) => StoreNext(sys, step)
    case Lookup(i, _) => if i < |sys.creators| then CreatorNext(sys, i, step) else sys
    case Swap(i) => if i < |sys.creators| then CreatorNext(sys, i, step) else sys
    case Insert(i) => if i < |sys.creators| then CreatorNext(sys, i, step) else sys
    case Rollback(i, _) => if i < |sys.creators| then CreatorNext(sys, i, step) else sys
    case Pick(w, _) => if w < |sys.claimers| then ClaimerNext(sys, w, step) else sys
    case CheckDependency(w) => if w < |sys.claimers| then ClaimerNext(sys, w, step) else sys
    case ReadVersion(w) => if w < |sys.claimers| then ClaimerNext(sys, w, step) else sys
    case Take(w) => if w < |sys.claimers| then ClaimerNext(sys, w, step) else sys
  }

  ghost function Play(steps: seq<Step>): System {
    if steps == [] then Initial else Next(Play(steps[..|steps| - 1]), steps[|steps| - 1])
  }

  // ----- creating: one linear chain

  ghost predicate DistinctMessages(sys: System) {
    forall i, j :: 0 <= i < j < |sys.creators| ==>
      !(sys.creators[i].scope == sys.creators[j].scope && sys.creators[i].message == sys.creators[j].message)
  }

  function Before(order: seq<RunId>, k: nat): Option<RunId>
    requires k < |order|
  {
    if k == 0 then None else Some(order[k - 1])
  }

  ghost predicate Distinct(order: seq<RunId>) {
    forall i, j :: 0 <= i < j < |order| ==> order[i] != order[j]
  }

  /** A request that swapped the tail and whose run is stored or still can be. */
  predicate Member(sys: System, i: RunId)
    requires i < |sys.creators|
  {
    sys.creators[i].stage == Swapped || (sys.creators[i].stage == Finished && i in sys.db.docs)
  }

  ghost predicate LinkAt(sys: System, s: Scope, order: seq<RunId>, k: nat)
    requires k < |order|
  {
    && order[k] < |sys.creators| && sys.creators[order[k]].scope == s
    && Member(sys, order[k])
    && sys.creators[order[k]].dependsOn == Before(order, k)
  }

  /** Each swapper took over from the previous one. */
  ghost predicate LinkedOrder(sys: System, s: Scope, order: seq<RunId>) {
    (forall k :: 0 <= k < |order| ==> LinkAt(sys, s, order, k)) && Distinct(order)
  }

  function LastOf(order: seq<RunId>): Option<RunId> {
    if order == [] then None else Some(order[|order| - 1])
  }

  ghost predicate ChainOf(sys: System, s: Scope, order: seq<RunId>) {
    LinkedOrder(sys, s, order) && Tail(sys.db, s) == LastOf(order)
  }

  /** A document is the one its creator wrote, apart from status and lease. */
  ghost predicate DocOk(sys: System, id: RunId)
    requires id in sys.db.docs
  {
    && id < |sys.creators| && sys.creators[id].stage == Finished
    && Matches(sys.db.docs[id], sys.creators[id].scope, sys.creators[id].message)
    && sys.db.docs[id].dependsOn == sys.creators[id].dependsOn
    && id in SwapsOf(sys, sys.creators[id].scope)
  }

  ghost predicate CreatorOk(sys: System, i: nat)
    requires i < |sys.creators|
  {
    var c := sys.creators[i];
    && (c.stage in {Begun, LookedUp} ==> i !in SwapsOf(sys, c.scope) && i !in sys.db.docs)
    && (c.stage == Swapped ==> i in SwapsOf(sys, c.scope) && i !in sys.db.docs)
    && c.stage != Rejected
  }

  ghost predicate ChainInv(sys: System) {
    && (forall s: Scope :: ChainOf(sys, s, SwapsOf(sys, s)))
    && (forall id :: id in sys.db.docs ==> DocOk(sys, id))
    && (forall i: nat :: i < |sys.creators| ==> CreatorOk(sys, i))
  }

  lemma DistinctMessagesBefore(sys: System, step: Step)
    requires DistinctMessages(Next(sys, step))
    ensures DistinctMessages(sys)
  {
    var sys' := Next(sys, step);
    assert |sys.creators| <= |sys'.creators|;
    assert forall i :: 0 <= i < |sys.creators| ==>
      sys'.creators[i].scope == sys.creators[i].scope && sys'.creators[i].message == sys.creators[i].message;
    forall i, j | 0 <= i < j < |sys.creators|
      ensures !(sys.creators[i].scope == sys.creators[j].scope && sys.creators[i].message == sys.creators[j].message)
    {
      assert sys'.creators[i].scope == sys.creators[i].scope;
    }
  }

  lemma NotTaken(sys: System, i: nat)
    requires ChainInv(sys) && DistinctMessages(sys) && i < |sys.creators| && i !in sys.db.docs
    ensures !Taken(sys.db, sys.creators[i].scope, sys.creators[i].message)
  {
    forall id | id in sys.db.docs ensures !Matches(sys.db.docs[id], sys.creators[i].scope, sys.creators[i].message) {
      assert DocOk(sys, id) && id != i;
    }
  }

  /** Links survive as long as the creators in the order keep stage and dependency. */
  lemma LinksStay(sys: System, sys': System, s: Scope, order: seq<RunId>)
    requires LinkedOrder(sys, s, order) && |sys.creators| <= |sys'.creators|
    requires forall i: nat :: i < |sys.creators| && i in order ==>
      && sys'.creators[i].scope == sys.creators[i].scope && sys'.creators[i].dependsOn == sys.creators[i].dependsOn
      && Member(sys', i)
    ensures LinkedOrder(sys', s, order)
  {
    forall k | 0 <= k < |order| ensures LinkAt(sys', s, order, k) {
      assert LinkAt(sys, s, order, k) && order[k] in order;
    }
  }

  lemma LinkSnoc(sys: System, s: Scope, order: seq<RunId>, i: RunId)
    requires LinkedOrder(sys, s, order) && i !in order
    requires i < |sys.creators| && sys.creators[i].scope == s && sys.creators[i].stage == Swapped
    requires sys.creators[i].dependsOn == LastOf(order)
    ensures LinkedOrder(sys, s, order + [i])
  {
    var longer := order + [i];
    StillDistinct(order, i);
    forall k | 0 <= k < |longer| ensures LinkAt(sys, s, longer, k) {
      if k < |order| {
        assert longer[k] == order[k] && LinkAt(sys, s, order, k);
      } else {
        assert longer[k] == i;
      }
    }
  }

  lemma StillDistinct(order: seq<RunId>, i: RunId)
    requires Distinct(order) && i !in order
    ensures Distinct(order + [i])
  {
  }

  lemma SwapExtendsOrder(sys: System, i: nat, s: Scope)
    requires ChainInv(sys) && i < |sys.creators| && sys.creators[i].stage == LookedUp
    ensures ChainOf(Next(sys, Swap(i)), s, SwapsOf(Next(sys, Swap(i)), s))
  {
    var sys' := Next(sys, Swap(i));
    var order := SwapsOf(sys, s);
    assert ChainOf(sys, s, order);
    assert i !in order by {
      assert CreatorOk(sys, i);
      forall k | 0 <= k < |order| ensures order[k] != i {
        assert LinkAt(sys, s, order, k);
      }
    }
    forall j: nat | j < |sys.creators| && j in order ensures sys'.creators[j] == sys.creators[j] && Member(sys, j) {
      var k :| 0 <= k < |order| && order[k] == j;
      assert LinkAt(sys, s, order, k);
    }
    LinksStay(sys, sys', s, order);
    if s == sys.creators[i].scope {
      LinkSnoc(sys', s, order, i);
    }
  }

  lemma SwapKeepsDoc(sys: System, i: nat, id: RunId)
    requires i < |sys.creators| && sys.creators[i].stage == LookedUp
    requires id in sys.db.docs && DocOk(sys, id)
    ensures DocOk(Next(sys, Swap(i)), id)
  {
    assert id != i;
  }

  lemma SwapKeepsCreator(sys: System, i: nat, j: nat)
    requires i < |sys.creators| && sys.creators[i].stage == LookedUp && CreatorOk(sys, i)
    requires j < |sys.creators| && CreatorOk(sys, j)
    ensures CreatorOk(Next(sys, Swap(i)), j)
  {
    var s := sys.creators[j].scope;
    var sys' := Next(sys, Swap(i));
    assert SwapsOf(sys', s) == if s == sys.creators[i].scope then SwapsOf(sys, s) + [i] else SwapsOf(sys, s);
  }

  lemma SwapKeepsChain(sys: System, i: nat)
    requires ChainInv(sys) && i < |sys.creators| && sys.creators[i].stage == LookedUp
    ensures ChainInv(Next(sys, Swap(i)))
  {
    var sys' := Next(sys, Swap(i));
    forall s: Scope ensures ChainOf(sys', s, SwapsOf(sys', s)) {
      SwapExtendsOrder(sys, i, s);
    }
    assert sys'.db.docs == sys.db.docs && |sys'.creators| == |sys.creators|;
    forall id | id in sys'.db.docs ensures DocOk(sys', id) {
      SwapKeepsDoc(sys, i, id);
    }
    forall j: nat | j < |sys'.creators| ensures CreatorOk(sys', j) {
      assert CreatorOk(sys, i) && CreatorOk(sys, j);
      SwapKeepsCreator(sys, i, j);
    }
  }

  lemma InsertKeepsDoc(sys: System, i: nat, id: RunId)
    requires i < |sys.creators| && sys.creators[i].stage == Swapped && CreatorOk(sys, i)
    requires !Taken(sys.db, sys.creators[i].scope, sys.creators[i].message)
    requires id == i || (id in sys.db.docs && DocOk(sys, id))
    ensures id in Next(sys, Insert(i)).db.docs && DocOk(Next(sys, Insert(i)), id)
  {
  }

  lemma InsertKeepsCreator(sys: System, i: nat, j: nat)
    requires i < |sys.creators| && sys.creators[i].stage == Swapped
    requires !Taken(sys.db, sys.creators[i].scope, sys.creators[i].message)
    requires j < |sys.creators| && CreatorOk(sys, j)
    ensures CreatorOk(Next(sys, Insert(i)), j)
  {
  }

  lemma InsertKeepsOrder(sys: System, i: nat, s: Scope)
    requires ChainInv(sys) && i < |sys.creators| && sys.creators[i].stage == Swapped
    requires !Taken(sys.db, sys.creators[i].scope, sys.creators[i].message)
    ensures ChainOf(Next(sys, Insert(i)), s, SwapsOf(Next(sys, Insert(i)), s))
  {
    var order := SwapsOf(sys, s);
    assert ChainOf(sys, s, order);
    forall j: nat | j < |sys.creators| && j in order ensures Member(sys, j) {
      var k :| 0 <= k < |order| && order[k] == j;
      assert LinkAt(sys, s, order, k);
    }
    LinksStay(sys, Next(sys, Insert(i)), s, order);
  }

  lemma InsertKeepsChain(sys: System, i: nat)
    requires ChainInv(sys) && DistinctMessages(sys) && i < |sys.creators| && sys.creators[i].stage == Swapped
    ensures ChainInv(Next(sys, Insert(i)))
  {
    var sys' := Next(sys, Insert(i));
    assert CreatorOk(sys, i);
    NotTaken(sys, i);
    forall s: Scope ensures ChainOf(sys', s, SwapsOf(sys', s)) {
      InsertKeepsOrder(sys, i, s);
    }
    forall id | id in sys'.db.docs ensures DocOk(sys', id) {
      InsertKeepsDoc(sys, i, id);
    }
    forall j: nat | j < |sys'.creators| ensures CreatorOk(sys', j) {
      InsertKeepsCreator(sys, i, j);
    }
  }

  /** Steps that touch neither swaps, tails nor dependencies. */
  ghost predicate Quiet(sys: System, sys': System) {
    && sys'.swaps == sys.swaps && |sys.creators| <= |sys'.creators|
    && (forall s: Scope :: Tail(sys'.db, s) == Tail(sys.db, s))
    && (forall i: nat :: i < |sys.creators| ==>
         sys'.creators[i] == sys.creators[i]
         || (sys.creators[i].stage == Begun
             && exists stage :: stage in {LookedUp, Finished} && sys'.creators[i] == sys.creators[i].(stage := stage)))
    && (forall i: nat :: |sys.creators| <= i < |sys'.creators| ==> sys'.creators[i].stage == Begun)
    && sys'.db.docs.Keys == sys.db.docs.Keys
    && (forall id :: id in sys.db.docs ==>
         Matches(sys'.db.docs[id], sys.db.docs[id].scope, sys.db.docs[id].message)
         && sys'.db.docs[id].dependsOn == sys.db.docs[id].dependsOn)
  }

  lemma QuietKeepsOrder(sys: System, sys': System, s: Scope)
    requires ChainInv(sys) && Quiet(sys, sys')
    ensures ChainOf(sys', s, SwapsOf(sys', s))
  {
    var order := SwapsOf(sys, s);
    assert ChainOf(sys, s, order);
    forall i: nat | i < |sys.creators| && i in order ensures sys'.creators[i] == sys.creators[i] {
      var k :| 0 <= k < |order| && order[k] == i;
      assert LinkAt(sys, s, order, k);
    }
    assert LinkedOrder(sys, s, order);
    forall i: nat | i < |sys.creators| && i in order ensures Member(sys, i) {
      var k :| 0 <= k < |order| && order[k] == i;
      assert LinkAt(sys, s, order, k);
    }
    LinksStay(sys, sys', s, order);
  }

  lemma QuietKeepsCreator(sys: System, sys': System, j: nat)
    requires ChainInv(sys) && Quiet(sys, sys') && j < |sys'.creators|
    ensures CreatorOk(sys', j)
  {
    if j < |sys.creators| {
      assert CreatorOk(sys, j);
    } else {
      FreshCreator(sys, sys'.creators[j].scope, j);
    }
  }

  lemma QuietKeepsChain(sys: System, sys': System)
    requires ChainInv(sys) && Quiet(sys, sys')
    ensures ChainInv(sys')
  {
    forall s: Scope ensures ChainOf(sys', s, SwapsOf(sys', s)) {
      QuietKeepsOrder(sys, sys', s);
    }
    forall id | id in sys'.db.docs ensures DocOk(sys', id) {
      assert DocOk(sys, id);
    }
    forall j: nat | j < |sys'.creators| ensures CreatorOk(sys', j) {
      QuietKeepsCreator(sys, sys', j);
    }
  }

  lemma FreshCreator(sys: System, s: Scope, j: nat)
    requires ChainInv(sys) && j >= |sys.creators|
    ensures j !in SwapsOf(sys, s) && j !in sys.db.docs
  {
    var order := SwapsOf(sys, s);
    assert ChainOf(sys, s, order);
    forall k | 0 <= k < |order| ensures order[k] != j {
      assert LinkAt(sys, s, order, k);
    }
    assert forall id :: id in sys.db.docs ==> DocOk(sys, id);
  }

  lemma NextKeepsChain(sys: System, step: Step)
    requires ChainInv(sys) && DistinctMessages(Next(sys, step)) && !step.Commit?
    ensures ChainInv(Next(sys, step))
  {
    DistinctMessagesBefore(sys, step);
    match step
    case Swap(i) =>
      if i < |sys.creators| && sys.creators[i].stage == LookedUp {
        SwapKeepsChain(sys, i);
      }
    case Insert(i) =>
      if i < |sys.creators| && sys.creators[i].stage == Swapped {
        InsertKeepsChain(sys, i);
      }
    case Rollback(i, _) =>
      if i < |sys.creators| {
        assert CreatorOk(sys, i);
      }
    case _ =>
      StepIsQuiet(sys, step);
      QuietKeepsChain(sys, Next(sys, step));
  }

  lemma LookupIsQuiet(sys: System, i: nat, limit: Option<nat>)
    ensures Quiet(sys, Next(sys, Lookup(i, limit)))
  {
    if i < |sys.creators| && sys.creators[i].stage == Begun {
      var c, c' := sys.creators[i], Next(sys, Lookup(i, limit)).creators[i];
      assert c' == c.(stage := LookedUp) || c' == c.(stage := Finished);
    }
  }

  lemma ClaimerStepIsQuiet(sys: System, w: nat, step: Step)
    requires w < |sys.claimers|
    ensures Quiet(sys, ClaimerNext(sys, w, step))
  {
  }

  lemma StoreStepIsQuiet(sys: System, step: Step)
    requires !step.Commit?
    ensures Quiet(sys, StoreNext(sys, step))
  {
  }

  lemma StepIsQuiet(sys: System, step: Step)
    requires !step.Swap? && !step.Insert? && !step.Rollback? && !step.Commit?
    ensures Quiet(sys, Next(sys, step))
  {
    match step
    case Extend(_, _) => StoreStepIsQuiet(sys, step);
    case Free(_, _) => StoreStepIsQuiet(sys, step);
    case End(_, _) => StoreStepIsQuiet(sys, step);
    case Lookup(i, limit) => LookupIsQuiet(sys, i, limit);
    case Pick(w, _) => if w < |sys.claimers| { ClaimerStepIsQuiet(sys, w, step); }
    case CheckDependency(w) => if w < |sys.claimers| { ClaimerStepIsQuiet(sys, w, step); }
    case ReadVersion(w) => if w < |sys.claimers| { ClaimerStepIsQuiet(sys, w, step); }
    case Take(w) => if w < |sys.claimers| { ClaimerStepIsQuiet(sys, w, step); }
    case _ =>
  }

  lemma {:induction false} EveryPlayKeepsChain(steps: seq<Step>)
    requires DistinctMessages(Play(steps))
    requires forall k :: 0 <= k < |steps| ==> !steps[k].Commit?
    ensures ChainInv(Play(steps))
  {
    if steps != [] {
      var n := |steps| - 1;
      DistinctMessagesBefore(Play(steps[..n]), steps[n]);
      EveryPlayKeepsChain(steps[..n]);
      NextKeepsChain(Play(steps[..n]), steps[n]);
    }
  }

  /** Main result: however creates of distinct messages interleave, as long as nothing commits, the
      runs of a conversation form one chain in the order of their tail swaps, and no two runs share
      a dependency. */
  lemma CreatesFormOneChain(steps: seq<Step>, a: RunId, b: RunId)
    requires DistinctMessages(Play(steps))
    requires forall k :: 0 <= k < |steps| ==> !steps[k].Commit?
    requires a in Play(steps).db.docs && b in Play(steps).db.docs
    requires Play(steps).db.docs[a].scope == Play(steps).db.docs[b].scope
    ensures FollowsOrder(Play(steps), a)
    ensures Play(steps).db.docs[a].dependsOn == Play(steps).db.docs[b].dependsOn ==> a == b
  {
    EveryPlayKeepsChain(steps);
    ChainSeparates(Play(steps), a, b);
  }

  /** The run stands in the swap order of its conversation and waits for the run just before it. */
  ghost predicate FollowsOrder(sys: System, a: RunId)
    requires a in sys.db.docs
  {
    var order := SwapsOf(sys, sys.db.docs[a].scope);
    exists k :: 0 <= k < |order| && order[k] == a && sys.db.docs[a].dependsOn == Before(order, k)
  }

  lemma PlaceInOrder(sys: System, a: RunId, order: seq<RunId>) returns (k: nat)
    requires a in sys.db.docs && DocOk(sys, a)
    requires order == SwapsOf(sys, sys.db.docs[a].scope) && LinkedOrder(sys, sys.db.docs[a].scope, order)
    ensures k < |order| && order[k] == a
    ensures sys.db.docs[a].dependsOn == Before(order, k)
  {
    k :| 0 <= k < |order| && order[k] == a;
    assert LinkAt(sys, sys.db.docs[a].scope, order, k);
  }

  lemma SamePredecessor(order: seq<RunId>, i: nat, j: nat)
    requires i < |order| && j < |order| && Distinct(order)
    requires Before(order, i) == Before(order, j)
    ensures i == j
  {
  }

  lemma ChainSeparates(sys: System, a: RunId, b: RunId)
    requires ChainInv(sys) && a in sys.db.docs && b in sys.db.docs && sys.db.docs[a].scope == sys.db.docs[b].scope
    ensures FollowsOrder(sys, a)
    ensures sys.db.docs[a].dependsOn == sys.db.docs[b].dependsOn ==> a == b
  {
    var order := SwapsOf(sys, sys.db.docs[a].scope);
    assert DocOk(sys, a) && DocOk(sys, b) && ChainOf(sys, sys.db.docs[a].scope, order);
    var i := PlaceInOrder(sys, a, order);
    var j := PlaceInOrder(sys, b, order);
    if sys.db.docs[a].dependsOn == sys.db.docs[b].dependsOn {
      SamePredecessor(order, i, j);
    }
  }

  // ----- claiming: the checked dependency stays ended

  ghost predicate ClaimerOk(db: Db, c: Claimer) {
    && (c.stage.Picked? || c.stage.Checked? || c.stage.Ready? ==>
         c.candidate in db.docs && db.docs[c.candidate].dependsOn == c.dependsOn)
    && ((c.stage.Checked? || c.stage.Ready?) && c.stage.dependencyPresent ==>
        c.dependsOn.Some? && c.dependsOn.value in db.docs && !OpenDoc(db, c.dependsOn.value))
  }

  ghost predicate DocsFresh(sys: System) {
    && (forall id :: id in sys.db.docs ==> id < |sys.creators| && sys.creators[id].stage == Finished)
  }

  ghost predicate ClaimInv(sys: System) {
    DocsFresh(sys) && forall w :: 0 <= w < |sys.claimers| ==> ClaimerOk(sys.db, sys.claimers[w])
  }

  /** Documents stay, keep their dependency, and an ended one stays ended. */
  ghost predicate Evolves(db: Db, db': Db) {
    forall id :: id in db.docs ==>
      id in db'.docs && db'.docs[id].dependsOn == db.docs[id].dependsOn && (OpenDoc(db', id) ==> OpenDoc(db, id))
  }

  lemma CreatorStepEvolves(sys: System, i: nat, step: Step)
    requires DocsFresh(sys) && i < |sys.creators|
    ensures Evolves(sys.db, CreatorNext(sys, i, step).db) && DocsFresh(CreatorNext(sys, i, step))
  {
  }

  lemma ClaimerStepEvolves(sys: System, w: nat, step: Step)
    requires DocsFresh(sys) && w < |sys.claimers|
    ensures Evolves(sys.db, ClaimerNext(sys, w, step).db) && DocsFresh(ClaimerNext(sys, w, step))
  {
  }

  lemma StoreStepEvolves(sys: System, step: Step)
    requires DocsFresh(sys)
    ensures Evolves(sys.db, StoreNext(sys, step).db) && DocsFresh(StoreNext(sys, step))
  {
  }

  lemma NextEvolves(sys: System, step: Step)
    requires DocsFresh(sys)
    ensures Evolves(sys.db, Next(sys, step).db) && DocsFresh(Next(sys, step))
  {
    match step
    case Extend(_, _) => StoreStepEvolves(sys, step);
    case Free(_, _) => StoreStepEvolves(sys, step);
    case End(_, _) => StoreStepEvolves(sys, step);
    case Commit(_) => StoreStepEvolves(sys, step);
    case Lookup(i, _) => if i < |sys.creators| { CreatorStepEvolves(sys, i, step); }
    case Swap(i) => if i < |sys.creators| { CreatorStepEvolves(sys, i, step); }
    case Insert(i) => if i < |sys.creators| { CreatorStepEvolves(sys, i, step); }
    case Rollback(i, _) => if i < |sys.creators| { CreatorStepEvolves(sys, i, step); }
    case Pick(w, _) => if w < |sys.claimers| { ClaimerStepEvolves(sys, w, step); }
    case CheckDependency(w) => if w < |sys.claimers| { ClaimerStepEvolves(sys, w, step); }
    case ReadVersion(w) => if w < |sys.claimers| { ClaimerStepEvolves(sys, w, step); }
    case Take(w) => if w < |sys.claimers| { ClaimerStepEvolves(sys, w, step); }
    case _ =>
  }

  lemma ClaimerStaysOk(db: Db, db': Db, c: Claimer)
    requires ClaimerOk(db, c) && Evolves(db, db')
    ensures ClaimerOk(db', c)
  {
  }

  lemma NextKeepsClaimInv(sys: System, step: Step)
    requires ClaimInv(sys)
    ensures ClaimInv(Next(sys, step))
  {
    NextEvolves(sys, step);
    var sys' := Next(sys, step);
    forall w | 0 <= w < |sys'.claimers| ensures ClaimerOk(sys'.db, sys'.claimers[w]) {
      if w < |sys.claimers| {
        assert ClaimerOk(sys.db, sys.claimers[w]);
        ClaimerStaysOk(sys.db, sys'.db, sys.claimers[w]);
      }
    }
  }

  lemma {:induction false} EveryPlayKeepsClaimInv(steps: seq<Step>)
    ensures ClaimInv(Play(steps))
  {
    if steps != [] {
      EveryPlayKeepsClaimInv(steps[..|steps| - 1]);
      NextKeepsClaimInv(Play(steps[..|steps| - 1]), steps[|steps| - 1]);
    }
  }

  /** Main result: although check and update are separate, a lease is never taken on a run whose
      dependency is still open, unless the dependency's document was missing when it was checked. */
  lemma LeaseWaitsForDependency(steps: seq<Step>, w: nat)
    requires w < |Play(steps).claimers| && Play(steps).claimers[w].stage.Ready?
    requires Takeable(Play(steps).db, Play(steps).claimers[w].candidate, Play(steps).claimers[w].now)
    ensures
      var sys := Play(steps);
      var c := sys.claimers[w];
      var d := sys.db.docs[c.candidate].dependsOn;
      && (c.stage.dependencyPresent ==> d.Some? && d.value in sys.db.docs && !OpenDoc(sys.db, d.value))
      && (d.Some? && OpenDoc(sys.db, d.value) ==> !c.stage.dependencyPresent)
  {
    EveryPlayKeepsClaimInv(steps);
    assert ClaimerOk(Play(steps).db, Play(steps).claimers[w]);
  }

  // ----- where the protocol gives way

  /** After a duplicate's last operation the chain it joined holds without it exactly when it could give
      the tail back and the run that has the message is the one it would have waited for, or when
      the tail was not its own any more and stands at the end of the chain already. */
  lemma RollbackRejoinsChainIff(sys: System, i: nat, existing: RunId, order: seq<RunId>)
    requires i < |sys.creators| && sys.creators[i].stage == Rejected
    requires existing in sys.db.docs && Matches(sys.db.docs[existing], sys.creators[i].scope, sys.creators[i].message)
    requires LinkedOrder(sys, sys.creators[i].scope, order) && sys.creators[i].dependsOn == LastOf(order)
    ensures ChainOf(Next(sys, Rollback(i, existing)), sys.creators[i].scope, order) <==>
            if Tail(sys.db, sys.creators[i].scope) == Some(i) && sys.db.docs[existing].hash == sys.creators[i].hash
            then sys.creators[i].dependsOn == Some(existing)
            else Tail(sys.db, sys.creators[i].scope) == LastOf(order)
  {
    var s := sys.creators[i].scope;
    NotInOrder(sys, i, s, order);
    OrderWithout(sys, Next(sys, Rollback(i, existing)), i, s, order);
  }

  lemma NotInOrder(sys: System, i: nat, s: Scope, order: seq<RunId>)
    requires i < |sys.creators| && sys.creators[i].stage in {Begun, LookedUp, Rejected} && LinkedOrder(sys, s, order)
    ensures i !in order
  {
    forall k | 0 <= k < |order| ensures order[k] != i {
      assert LinkAt(sys, s, order, k);
    }
  }

  /** Links do not depend on a request outside the order. */
  lemma OrderWithout(sys: System, sys': System, i: nat, s: Scope, order: seq<RunId>)
    requires i < |sys.creators| == |sys'.creators| && i !in order && sys'.db.docs == sys.db.docs
    requires forall j :: 0 <= j < |sys.creators| && j != i ==> sys'.creators[j] == sys.creators[j]
    ensures LinkedOrder(sys', s, order) <==> LinkedOrder(sys, s, order)
  {
    forall k | 0 <= k < |order| ensures LinkAt(sys', s, order, k) <==> LinkAt(sys, s, order, k) {
      assert order[k] in order;
    }
  }

  ghost predicate OpenIn(db: Db, s: Scope, id: RunId) {
    OpenDoc(db, id) && db.docs[id].scope == s
  }

  /** A run of the conversation that is open, or that is about to be stored. */
  ghost predicate Live(sys: System, s: Scope, id: RunId) {
    || OpenIn(sys.db, s, id)
    || (id < |sys.creators| && sys.creators[id].scope == s && sys.creators[id].stage == Swapped)
  }

  // ----- exactly which claims overtake their dependency

  /** A claim that picked a run and has not checked yet that the run's dependency has ended. */
  ghost predicate WaitsFor(sys: System, w: nat, s: Scope, d: RunId) {
    && w < |sys.claimers| && sys.claimers[w].stage == Picked && sys.claimers[w].dependsOn == Some(d)
    && Live(sys, s, d)
  }

  predicate Pending(sys: System, d: RunId) {
    d < |sys.creators| && sys.creators[d].stage == Swapped
  }

  /** The check lets a run pass its live dependency exactly when that one is between swap and insert. */
  lemma CheckPassesIff(steps: seq<Step>, w: nat, s: Scope, d: RunId)
    requires WaitsFor(Play(steps), w, s, d)
    ensures Next(Play(steps), CheckDependency(w)).claimers[w].stage.Checked? <==> Pending(Play(steps), d)
  {
    EveryPlayKeepsClaimInv(steps);
  }

  /** Check, version read, conditional update, and the insert of the dependency after them. */
  ghost function ClaimThenInsert(sys: System, w: nat, d: RunId): System {
    Next(Next(Next(Next(sys, CheckDependency(w)), ReadVersion(w)), Take(w)), Insert(d))
  }

  /** The claim holds the run while the run's own dependency is open. */
  ghost predicate Overtook(sys: System, w: nat, candidate: RunId, d: RunId) {
    && w < |sys.claimers| && sys.claimers[w].stage == Done
    && OpenDoc(sys.db, candidate) && sys.db.docs[candidate].leaseOwner == Some(sys.claimers[w].worker)
    && sys.db.docs[candidate].dependsOn == Some(d) && OpenDoc(sys.db, d)
  }

  lemma TakingKeepsTaken(db: Db, id: RunId, worker: string, until: int, base: nat, s: Scope, message: string)
    requires id in db.docs
    ensures Taken(Taking(db, id, worker, until, base), s, message) <==> Taken(db, s, message)
  {
    var db' := Taking(db, id, worker, until, base);
    assert forall k :: k in db.docs ==> (Matches(db'.docs[k], s, message) <==> Matches(db.docs[k], s, message));
    if Taken(db, s, message) {
      var k :| k in db.docs && Matches(db.docs[k], s, message);
      assert k in db'.docs && Matches(db'.docs[k], s, message);
    }
  }

  lemma HeldBackClaimTakesNothing(sys: System, w: nat, s: Scope, d: RunId, candidate: RunId)
    requires ClaimInv(sys) && WaitsFor(sys, w, s, d) && !Pending(sys, d)
    ensures !Overtook(ClaimThenInsert(sys, w, d), w, candidate, d)
  {
    var checked := Next(sys, CheckDependency(w));
    assert checked.claimers[w].stage == Searching;
    assert Next(Next(checked, ReadVersion(w)), Take(w)) == checked;
    assert Next(checked, Insert(d)).claimers == checked.claimers;
  }

  lemma PassedClaimTakes(sys: System, w: nat, s: Scope, d: RunId) returns (base: nat)
    requires ClaimInv(sys) && WaitsFor(sys, w, s, d) && Pending(sys, d)
    ensures var c := sys.claimers[w];
            var taken := Next(Next(Next(sys, CheckDependency(w)), ReadVersion(w)), Take(w));
            && taken.creators == sys.creators && |taken.claimers| == |sys.claimers| && c.candidate in sys.db.docs
            && taken.claimers[w].worker == c.worker
            && if Takeable(sys.db, c.candidate, c.now)
               then taken.claimers[w].stage == Done && taken.db == Taking(sys.db, c.candidate, c.worker, c.until, base)
               else taken.claimers[w].stage == Searching && taken.db == sys.db
  {
    var c := sys.claimers[w];
    assert ClaimerOk(sys.db, c) && d !in sys.db.docs;
    base := VersionOf(sys.db, sys.db.docs[c.candidate].scope);
    var checked := Next(sys, CheckDependency(w));
    assert checked.claimers[w] == c.(stage := Checked(false)) && checked.db == sys.db;
    var ready := Next(checked, ReadVersion(w));
    assert ready.claimers[w] == c.(stage := Ready(false), baseVersion := base) && ready.db == sys.db;
  }

  lemma PassedClaimOvertakesIff(sys: System, w: nat, s: Scope, d: RunId)
    requires ClaimInv(sys) && WaitsFor(sys, w, s, d) && Pending(sys, d)
    ensures var c := sys.claimers[w];
            Overtook(ClaimThenInsert(sys, w, d), w, c.candidate, d) <==>
            Takeable(sys.db, c.candidate, c.now) && !Taken(sys.db, sys.creators[d].scope, sys.creators[d].message)
  {
    var c := sys.claimers[w];
    var base := PassedClaimTakes(sys, w, s, d);
    assert ClaimerOk(sys.db, c) && d !in sys.db.docs;
    var taken := Next(Next(Next(sys, CheckDependency(w)), ReadVersion(w)), Take(w));
    TakingKeepsTaken(sys.db, c.candidate, c.worker, c.until, base, sys.creators[d].scope, sys.creators[d].message);
    InsertsLast(taken, d);
  }

  lemma InsertsLast(sys: System, d: RunId)
    requires Pending(sys, d)
    ensures var sys', c := Next(sys, Insert(d)), sys.creators[d];
            && sys'.claimers == sys.claimers
            && sys'.db == if Taken(sys.db, c.scope, c.message) then sys.db else Inserted(sys.db, d, NewDoc(c))
  {
  }

  /** Main result: of all claims that wait for a live dependency, exactly those overtake it whose
      dependency has swapped the tail and is yet to be stored, as long as nothing else stops them:
      the run can still be taken and the message of the dependency is still free. */
  lemma ClaimOvertakesDependencyIff(steps: seq<Step>, w: nat, s: Scope, d: RunId)
    requires WaitsFor(Play(steps), w, s, d)
    ensures var sys, c := Play(steps), Play(steps).claimers[w];
            Overtook(ClaimThenInsert(sys, w, d), w, c.candidate, d) <==>
            && Pending(sys, d) && Takeable(sys.db, c.candidate, c.now)
            && !Taken(sys.db, sys.creators[d].scope, sys.creators[d].message)
  {
    EveryPlayKeepsClaimInv(steps);
    if Pending(Play(steps), d) {
      PassedClaimOvertakesIff(Play(steps), w, s, d);
    } else {
      HeldBackClaimTakesNothing(Play(steps), w, s, d, Play(steps).claimers[w].candidate);
    }
  }

  // ----- commits and the tail

  /** If the conversation has a live run, its tail names one, so the next create waits for it. */
  ghost predicate TailGuards(sys: System, s: Scope) {
    (exists id :: Live(sys, s, id)) ==> Tail(sys.db, s).Some? && Live(sys, s, Tail(sys.db, s).value)
  }

  lemma CommitEndsOne(steps: seq<Step>, r: RunId, id: RunId)
    requires Committable(Play(steps).db, r)
    ensures var sys, s := Play(steps), Play(steps).db.docs[r].scope;
            Live(Next(sys, Commit(r)), s, id) <==> Live(sys, s, id) && id != r
  {
    EveryPlayKeepsClaimInv(steps);
  }

  /** A commit leaves the conversation guarded exactly when no other run of it is open and no request
      of it stands between its tail swap and its insert. */
  lemma CommitKeepsTailIff(steps: seq<Step>, r: RunId)
    requires Committable(Play(steps).db, r)
    ensures var sys, s := Play(steps), Play(steps).db.docs[r].scope;
            TailGuards(Next(sys, Commit(r)), s) <==> forall id :: Live(sys, s, id) ==> id == r
  {
    forall id ensures Live(Next(Play(steps), Commit(r)), Play(steps).db.docs[r].scope, id) <==>
                      Live(Play(steps), Play(steps).db.docs[r].scope, id) && id != r
    {
      CommitEndsOne(steps, r, id);
    }
  }

  /** What that means for the next create: it waits for a live run, or there is none to wait for,
      exactly under the same condition. */
  lemma CreateAfterCommitWaitsIff(steps: seq<Step>, r: RunId, j: nat)
    requires Committable(Play(steps).db, r)
    requires j < |Play(steps).creators| && Play(steps).creators[j].stage == LookedUp
    requires Play(steps).creators[j].scope == Play(steps).db.docs[r].scope
    ensures var sys, s := Play(steps), Play(steps).db.docs[r].scope;
            var sys' := Next(Next(sys, Commit(r)), Swap(j));
            var waits := sys'.creators[j].dependsOn.Some? && Live(sys', s, sys'.creators[j].dependsOn.value);
            (waits || forall id :: Live(sys', s, id) ==> id == j) <==> forall id :: Live(sys, s, id) ==> id == r
  {
    var sys, s := Play(steps), Play(steps).db.docs[r].scope;
    var mid := Next(sys, Commit(r));
    var sys' := Next(mid, Swap(j));
    EveryPlayKeepsClaimInv(steps);
    assert j !in sys.db.docs;
    forall id ensures Live(sys', s, id) <==> (Live(sys, s, id) && id != r) || id == j {
      CommitEndsOne(steps, r, id);
    }
    assert !Live(sys, s, j);
  }

  lemma PlaySnoc(steps: seq<Step>, step: Step)
    ensures Play(steps + [step]) == Next(Play(steps), step)
  {
    assert (steps + [step])[..|steps|] == steps;
  }

  /** A create that runs without interruption when the message is new and the creator has looked up. */
  lemma SwapAndInsert(sys: System, i: nat)
    requires i < |sys.creators| && sys.creators[i].stage == LookedUp
    requires !Taken(sys.db, sys.creators[i].scope, sys.creators[i].message)
    ensures
      var c := sys.creators[i];
      var sys' := Next(Next(sys, Swap(i)), Insert(i));
      && sys'.creators == sys.creators[i := c.(
           stage := Finished, dependsOn := Tail(sys.db, c.scope), baseVersion := VersionOf(sys.db, c.scope))]
      && sys'.db.docs == sys.db.docs[i := NewDoc(sys'.creators[i])]
      && Tail(sys'.db, c.scope) == Some(i) && sys'.claimers == sys.claimers
      && VersionOf(sys'.db, c.scope) == VersionOf(sys.db, c.scope)
  {
    var mid := Next(sys, Swap(i));
    assert forall id :: id in sys.db.docs ==> !Matches(sys.db.docs[id], sys.creators[i].scope, sys.creators[i].message);
  }

  function Asks(s: Scope, message: string): Creator {
    Creator(s, message, "hash", LookedUp, None, 0)
  }

  /** Four requests of one conversation, the third a retry of the first, all past their lookup. */
  lemma FourLookedUp(s: Scope) returns (steps: seq<Step>)
    ensures Play(steps).creators == [Asks(s, "m1"), Asks(s, "m2"), Asks(s, "m1"), Asks(s, "m3")]
    ensures Play(steps).db == Db(map[], map[]) && Play(steps).claimers == []
  {
    steps := [];
    var messages := ["m1", "m2", "m1", "m3"];
    for i := 0 to 4
      invariant Play(steps).creators == seq(i, k requires 0 <= k < i => Asks(s, messages[k]))
      invariant Play(steps).db == Db(map[], map[]) && Play(steps).claimers == []
    {
      PlaySnoc(steps, Begin(s, messages[i], "hash"));
      steps := steps + [Begin(s, messages[i], "hash")];
      PlaySnoc(steps, Lookup(i, None));
      steps := steps + [Lookup(i, None)];
    }
  }

  /** A creator that finds its message stored by now gives the tail to the run that has it. */
  lemma SwapRejectRestore(before: seq<Step>, i: nat, existing: RunId) returns (steps: seq<Step>)
    requires var sys := Play(before);
             && i < |sys.creators| && sys.creators[i].stage == LookedUp && existing in sys.db.docs
             && Matches(sys.db.docs[existing], sys.creators[i].scope, sys.creators[i].message)
             && sys.db.docs[existing].hash == sys.creators[i].hash
    ensures var sys, sys' := Play(before), Play(steps);
            && sys'.db.docs == sys.db.docs && |sys'.creators| == |sys.creators|
            && (forall k :: 0 <= k < |sys.creators| && k != i ==> sys'.creators[k] == sys.creators[k])
            && Tail(sys'.db, sys.creators[i].scope) == Some(existing)
  {
    PlaySnoc(before, Swap(i));
    steps := before + [Swap(i)];
    PlaySnoc(steps, Insert(i));
    assert Taken(Play(steps).db, Play(before).creators[i].scope, Play(before).creators[i].message);
    steps := steps + [Insert(i)];
    PlaySnoc(steps, Rollback(i, existing));
    steps := steps + [Rollback(i, existing)];
  }

  /** A retried message can make two runs wait for the same predecessor: its rollback hands the tail
      to a run that already has a successor. */
  lemma RetrySharesDependency(s: Scope) returns (steps: seq<Step>)
    ensures
      var docs := Play(steps).db.docs;
      1 in docs && 3 in docs && docs[1].scope == docs[3].scope == s && docs[1].dependsOn == docs[3].dependsOn == Some(0)
  {
    steps := FourLookedUp(s);
    steps := CreateNext(steps, 0);
    steps := CreateNext(steps, 1);
    steps := SwapRejectRestore(steps, 2, 0);
    steps := CreateNext(steps, 3);
  }

  lemma CreateNext(before: seq<Step>, i: nat) returns (steps: seq<Step>)
    requires i < |Play(before).creators| && Play(before).creators[i].stage == LookedUp
    requires !Taken(Play(before).db, Play(before).creators[i].scope, Play(before).creators[i].message)
    ensures
      var sys, sys' := Play(before), Play(steps);
      var c := sys.creators[i];
      && sys'.creators == sys.creators[i := c.(
           stage := Finished, dependsOn := Tail(sys.db, c.scope), baseVersion := VersionOf(sys.db, c.scope))]
      && sys'.db.docs == sys.db.docs[i := NewDoc(sys'.creators[i])]
      && Tail(sys'.db, c.scope) == Some(i) && sys'.claimers == sys.claimers
      && VersionOf(sys'.db, c.scope) == VersionOf(sys.db, c.scope)
  {
    SwapAndInsert(Play(before), i);
    PlaySnoc(before, Swap(i));
    steps := before + [Swap(i)];
    PlaySnoc(steps, Insert(i));
    steps := steps + [Insert(i)];
  }

  /** Between the tail swap and the insert of a run its document is missing, and a claim takes the
      run that waits for it: both end up leased. */
  lemma MissingDependencyIsClaimed(s: Scope) returns (steps: seq<Step>)
    ensures
      var db := Play(steps).db;
      && OpenDoc(db, 0) && OpenDoc(db, 1) && db.docs[1].dependsOn == Some(0) &&
           db.docs[0].scope == db.docs[1].scope == s
      && db.docs[1].leaseOwner == Some("w") && db.docs[0].leaseOwner == Some("v")
  {
    steps := FourLookedUp(s);
    PlaySnoc(steps, Swap(0));
    steps := steps + [Swap(0)];
    steps := CreateNext(steps, 1);
    steps := ClaimNow(steps, 1, "w");
    PlaySnoc(steps, Insert(0));
    assert !Taken(Play(steps).db, s, "m1");
    steps := steps + [Insert(0)];
    steps := ClaimNow(steps, 0, "v");
  }

  /** A request that swapped behind a duplicate waits for a run that will never be stored, and its own
      run can be claimed beside the run of the duplicate's message. */
  lemma OvertakenDuplicateRunsTwo(s: Scope) returns (steps: seq<Step>)
    ensures var sys := Play(steps);
            && |sys.creators| == 4 && sys.creators[2].stage == Finished && 2 !in sys.db.docs &&
                 sys.creators[2].dependsOn == Some(0)
            && OpenDoc(sys.db, 0) && OpenDoc(sys.db, 3) && sys.db.docs[0].scope == sys.db.docs[3].scope == s
            && sys.db.docs[0].leaseOwner == Some("w") && sys.db.docs[3].leaseOwner == Some("v")
  {
    steps := FourLookedUp(s);
    steps := CreateNext(steps, 0);
    PlaySnoc(steps, Swap(2));
    steps := steps + [Swap(2)];
    steps := CreateNext(steps, 3);
    steps := RejectOvertaken(steps, 2, 0);
    steps := ClaimNow(steps, 0, "w");
    steps := ClaimNow(steps, 3, "v");
  }

  /** A duplicate that is not the tail any more ends without giving anything back. */
  lemma RejectOvertaken(before: seq<Step>, i: nat, existing: RunId) returns (steps: seq<Step>)
    requires var sys := Play(before);
             && i < |sys.creators| && sys.creators[i].stage == Swapped && existing in sys.db.docs
             && Matches(sys.db.docs[existing], sys.creators[i].scope, sys.creators[i].message)
             && Tail(sys.db, sys.creators[i].scope) != Some(i)
    ensures Play(steps).creators == Play(before).creators[i := Play(before).creators[i].(stage := Finished)]
    ensures Play(steps).db == Play(before).db && Play(steps).claimers == Play(before).claimers
  {
    PlaySnoc(before, Insert(i));
    assert Taken(Play(before).db, Play(before).creators[i].scope, Play(before).creators[i].message);
    steps := before + [Insert(i)];
    PlaySnoc(steps, Rollback(i, existing));
    steps := steps + [Rollback(i, existing)];
  }

  lemma SwapApplies(before: seq<Step>, i: nat)
    requires i < |Play(before).creators| && Play(before).creators[i].stage == LookedUp
    ensures var sys, sys', c := Play(before), Play(before + [Swap(i)]), Play(before).creators[i];
            && sys'.creators == sys.creators[i := c.(
                 stage := Swapped, dependsOn := Tail(sys.db, c.scope), baseVersion := VersionOf(sys.db, c.scope))]
            && sys'.db.docs == sys.db.docs && sys'.claimers == sys.claimers
            && VersionOf(sys'.db, c.scope) == VersionOf(sys.db, c.scope)
  {
    PlaySnoc(before, Swap(i));
  }

  lemma CommitApplies(before: seq<Step>, r: RunId)
    requires Committable(Play(before).db, r)
    ensures var sys, sys' := Play(before), Play(before + [Commit(r)]);
            && sys'.creators == sys.creators && sys'.claimers == sys.claimers
            && sys'.db.docs == EndedDoc(sys.db, r, Ledger.Succeeded).docs
            && Tail(sys'.db, sys.db.docs[r].scope) == None
  {
    PlaySnoc(before, Commit(r));
  }

  /** One run commits while another request stands between its tail swap and its insert. */
  lemma CommitBesidePending(s: Scope) returns (steps: seq<Step>)
    ensures var sys := Play(steps);
            && |sys.creators| == 4 && sys.claimers == [] && Tail(sys.db, s) == None
            && sys.creators[1] == Asks(s, "m2").(stage := Swapped, dependsOn := Some(0)) &&
                 sys.creators[3] == Asks(s, "m3")
            && sys.db.docs.Keys == {0} && sys.db.docs[0].message == "m1" && !OpenDoc(sys.db, 0)
  {
    steps := FourLookedUp(s);
    steps := CreateNext(steps, 0);
    SwapApplies(steps, 1);
    steps := steps + [Swap(1)];
    CommitApplies(steps, 0);
    steps := steps + [Commit(0)];
  }

  /** No other document is open when the run commits, and still two runs of the conversation end up
      leased together. */
  lemma CommitForgetsPendingRun(s: Scope) returns (steps: seq<Step>)
    ensures var db := Play(steps).db;
            && OpenDoc(db, 1) && OpenDoc(db, 3) && db.docs[1].scope == db.docs[3].scope == s
            && db.docs[3].dependsOn == None
            && db.docs[1].leaseOwner == Some("w") && db.docs[3].leaseOwner == Some("v")
  {
    steps := CommitBesidePending(s);
    assert !Taken(Play(steps).db, s, "m2");
    PlaySnoc(steps, Insert(1));
    steps := steps + [Insert(1)];
    assert !Taken(Play(steps).db, s, "m3");
    steps := CreateNext(steps, 3);
    steps := ClaimNow(steps, 1, "w");
    steps := ClaimNow(steps, 3, "v");
  }

  /** One claim from start to lease. */
  lemma ClaimNow(before: seq<Step>, id: RunId, worker: string) returns (steps: seq<Step>)
    requires OpenDoc(Play(before).db, id) && Play(before).db.docs[id].leaseUntil == None
    requires var d := Play(before).db.docs[id].dependsOn; d.Some? ==> !OpenDoc(Play(before).db, d.value)
    ensures Play(steps).creators == Play(before).creators
    ensures exists base :: Play(steps).db == Taking(Play(before).db, id, worker, 30, base)
  {
    var w := |Play(before).claimers|;
    PlaySnoc(before, StartClaim(worker, 0, 30));
    steps := before + [StartClaim(worker, 0, 30)];
    PlaySnoc(steps, Pick(w, id));
    steps := steps + [Pick(w, id)];
    PlaySnoc(steps, CheckDependency(w));
    steps := steps + [CheckDependency(w)];
    PlaySnoc(steps, ReadVersion(w));
    steps := steps + [ReadVersion(w)];
    var sys := Play(steps);
    PlaySnoc(steps, Take(w));
    steps := steps + [Take(w)];
    assert Play(steps).db == Taking(Play(before).db, id, worker, 30, sys.claimers[w].baseVersion);
  }
}
