/** When the queue of a conversation in the document store is one chain: a condition on the operations
    that wrote its tail, for any interleaving of creates, duplicates, commits and all other steps. */
module MongoChain {
  import opened Common
  import opened MongoStore

  /** The operations that move the tail of a conversation. */
  datatype Write = Took(who: RunId) | GaveBack(who: RunId, next: RunId) | Cleared

  function Value(w: Write): Option<RunId> {
    match w
    case Took(i) => Some(i)
    case GaveBack(_, id) => Some(id)
    case Cleared => None
  }

  /** Where the tail stands after some writes. */
  function Left(tail: Option<RunId>, writes: seq<Write>): Option<RunId> {
    if writes == [] then tail else Value(writes[|writes| - 1])
  }

  /** The rollback finds the tail where its own swap left it and the message stored for the same request. */
  predicate GivesBack(sys: System, i: nat, existing: RunId) {
    && i < |sys.creators| && sys.creators[i].stage == Rejected && existing in sys.db.docs
    && Matches(sys.db.docs[existing], sys.creators[i].scope, sys.creators[i].message)
    && sys.db.docs[existing].hash == sys.creators[i].hash && Tail(sys.db, sys.creators[i].scope) == Some(i)
  }

  function WriteOf(sys: System, step: Step, s: Scope): seq<Write> {
    match step
    case Swap(i) =>
      if i < |sys.creators| && sys.creators[i].stage == LookedUp && sys.creators[i].scope == s then [Took(i)] else []
    case Rollback(i, id) => if GivesBack(sys, i, id) && sys.creators[i].scope == s then [GaveBack(i, id)] else []
    case Commit(r) => if Committable(sys.db, r) && sys.db.docs[r].scope == s then [Cleared] else []
    case _ => []
  }

  ghost function PlayFrom(sys: System, steps: seq<Step>): System {
    if steps == [] then sys else Next(PlayFrom(sys, steps[..|steps| - 1]), steps[|steps| - 1])
  }

  ghost function WritesOf(sys: System, steps: seq<Step>, s: Scope): seq<Write> {
    if steps == [] then []
    else
      var init := steps[..|steps| - 1];
      WritesOf(sys, init, s) + WriteOf(PlayFrom(sys, init), steps[|steps| - 1], s)
  }

  // ----- what the writes decide

  lemma WriteSetsTail(sys: System, step: Step, s: Scope)
    ensures Tail(Next(sys, step).db, s) == Left(Tail(sys.db, s), WriteOf(sys, step, s))
  {
  }

  lemma {:induction false} TailIsLastWrite(sys: System, steps: seq<Step>, s: Scope)
    ensures Tail(PlayFrom(sys, steps).db, s) == Left(Tail(sys.db, s), WritesOf(sys, steps, s))
  {
    if steps != [] {
      TailIsLastWrite(sys, steps[..|steps| - 1], s);
      WriteSetsTail(PlayFrom(sys, steps[..|steps| - 1]), steps[|steps| - 1], s);
    }
  }

  predicate HasSwapped(c: Creator) {
    c.stage != Begun && c.stage != LookedUp
  }

  /** A request keeps its conversation, and the dependency it got from its swap. */
  ghost predicate KeepsSwap(sys: System, sys': System, i: nat) {
    && i < |sys.creators| && i < |sys'.creators| && sys'.creators[i].scope == sys.creators[i].scope
    && (HasSwapped(sys.creators[i]) ==>
          HasSwapped(sys'.creators[i]) && sys'.creators[i].dependsOn == sys.creators[i].dependsOn)
  }

  lemma StepKeepsSwap(sys: System, step: Step, i: nat)
    requires i < |sys.creators|
    ensures KeepsSwap(sys, Next(sys, step), i)
  {
  }

  lemma {:induction false} PlayKeepsSwap(sys: System, steps: seq<Step>, i: nat)
    requires i < |sys.creators|
    ensures KeepsSwap(sys, PlayFrom(sys, steps), i)
  {
    if steps != [] {
      PlayKeepsSwap(sys, steps[..|steps| - 1], i);
      StepKeepsSwap(PlayFrom(sys, steps[..|steps| - 1]), steps[|steps| - 1], i);
    }
  }

  lemma {:induction false} PlayEvolves(sys: System, steps: seq<Step>)
    requires DocsFresh(sys)
    ensures Evolves(sys.db, PlayFrom(sys, steps).db) && DocsFresh(PlayFrom(sys, steps))
  {
    if steps != [] {
      PlayEvolves(sys, steps[..|steps| - 1]);
      NextEvolves(PlayFrom(sys, steps[..|steps| - 1]), steps[|steps| - 1]);
    }
  }

  /** What a write says about the state reached since. */
  ghost predicate RecordedAt(before: System, sys: System, s: Scope, writes: seq<Write>, p: nat)
    requires p < |writes|
  {
    match writes[p]
    case Took(i) =>
      && i < |sys.creators| && sys.creators[i].scope == s && HasSwapped(sys.creators[i])
      && sys.creators[i].dependsOn == Left(Tail(before.db, s), writes[..p])
      && (i < |before.creators| ==> !HasSwapped(before.creators[i]))
      && (forall q :: 0 <= q < p ==> Value(writes[q]) != Some(i))
    case GaveBack(_, id) => id in sys.db.docs
    case Cleared => true
  }

  ghost predicate Recorded(before: System, sys: System, s: Scope, writes: seq<Write>) {
    forall p :: 0 <= p < |writes| ==> RecordedAt(before, sys, s, writes, p)
  }

  lemma StaysRecorded(before: System, sys: System, step: Step, s: Scope, writes: seq<Write>, more: seq<Write>)
    requires Recorded(before, sys, s, writes) && DocsFresh(sys)
    ensures forall p :: 0 <= p < |writes| ==> RecordedAt(before, Next(sys, step), s, writes + more, p)
  {
    NextEvolves(sys, step);
    forall p | 0 <= p < |writes| ensures RecordedAt(before, Next(sys, step), s, writes + more, p) {
      assert RecordedAt(before, sys, s, writes, p);
      assert (writes + more)[..p] == writes[..p];
      if writes[p].Took? {
        StepKeepsSwap(sys, step, writes[p].who);
      }
    }
  }

  lemma StepIsRecorded(before: System, sys: System, step: Step, s: Scope, writes: seq<Write>)
    requires Recorded(before, sys, s, writes) && DocsFresh(sys) && Tail(sys.db, s) == Left(Tail(before.db, s), writes)
    requires forall i :: 0 <= i < |before.creators| ==> KeepsSwap(before, sys, i)
    ensures Recorded(before, Next(sys, step), s, writes + WriteOf(sys, step, s))
  {
    var own := WriteOf(sys, step, s);
    StaysRecorded(before, sys, step, s, writes, own);
    if own != [] {
      NextEvolves(sys, step);
      assert (writes + own)[..|writes|] == writes;
      if own[0].Took? {
        var i := own[0].who;
        forall q | 0 <= q < |writes| ensures Value((writes + own)[q]) != Some(i) {
          assert RecordedAt(before, sys, s, writes, q) && (writes + own)[q] == writes[q];
        }
        assert i < |before.creators| ==> KeepsSwap(before, sys, i);
      }
      assert RecordedAt(before, Next(sys, step), s, writes + own, |writes|);
    }
  }

  lemma {:induction false} PlayIsRecorded(before: System, steps: seq<Step>, s: Scope)
    requires DocsFresh(before)
    ensures Recorded(before, PlayFrom(before, steps), s, WritesOf(before, steps, s))
  {
    if steps != [] {
      var init := steps[..|steps| - 1];
      PlayIsRecorded(before, init, s);
      PlayEvolves(before, init);
      TailIsLastWrite(before, init, s);
      forall i | 0 <= i < |before.creators| ensures KeepsSwap(before, PlayFrom(before, init), i) {
        PlayKeepsSwap(before, init, i);
      }
      StepIsRecorded(before, PlayFrom(before, init), steps[|steps| - 1], s, WritesOf(before, init, s));
    }
  }

  // ----- who belongs to the chain

  /** The request swapped the tail, and its run is stored or still can be. */
  predicate Stays(sys: System, i: RunId) {
    i < |sys.creators| && Member(sys, i)
  }

  /** The requests that took the tail and stay, in order. */
  function Staying(sys: System, writes: seq<Write>): seq<RunId> {
    if writes == [] then []
    else
      var w := writes[|writes| - 1];
      Staying(sys, writes[..|writes| - 1]) + (if w.Took? && Stays(sys, w.who) then [w.who] else [])
  }

  /** Every request that stays took the tail while it stood at the end of the chain so far. */
  ghost predicate Handed(sys: System, order: seq<RunId>, tail: Option<RunId>, writes: seq<Write>) {
    forall p :: 0 <= p < |writes| ==> HandedAt(sys, order, tail, writes, p)
  }

  ghost predicate HandedAt(sys: System, order: seq<RunId>, tail: Option<RunId>, writes: seq<Write>, p: nat)
    requires p < |writes|
  {
    writes[p].Took? && Stays(sys, writes[p].who) ==>
      Left(tail, writes[..p]) == LastOf(order + Staying(sys, writes[..p]))
  }

  /** All requests of the conversation that swapped and stay form one chain, and the tail is its end. */
  ghost predicate WholeChain(sys: System, s: Scope, order: seq<RunId>) {
    && ChainOf(sys, s, order)
    && forall i: RunId :: Stays(sys, i) && sys.creators[i].scope == s ==> i in order
  }

  lemma StepAddsNobody(sys: System, step: Step, s: Scope, i: RunId)
    requires DocsFresh(sys) && Stays(Next(sys, step), i) && Next(sys, step).creators[i].scope == s
    ensures Stays(sys, i) || WriteOf(sys, step, s) == [Took(i)]
    ensures i < |sys.creators| && sys.creators[i].scope == s
  {
  }

  /** Whoever stays has stayed from the beginning or took the tail since. */
  lemma {:induction false} PlayAddsTakers(before: System, steps: seq<Step>, s: Scope, i: RunId)
    requires DocsFresh(before) && Stays(PlayFrom(before, steps), i) && PlayFrom(before, steps).creators[i].scope == s
    ensures Stays(before, i) || Took(i) in WritesOf(before, steps, s)
  {
    if steps != [] {
      var init := steps[..|steps| - 1];
      PlayEvolves(before, init);
      StepAddsNobody(PlayFrom(before, init), steps[|steps| - 1], s, i);
      if Stays(PlayFrom(before, init), i) {
        PlayAddsTakers(before, init, s, i);
      } else {
        var writes := WritesOf(before, steps, s);
        assert writes[|writes| - 1] == Took(i);
      }
    }
  }

  lemma {:induction false} TakerIsStaying(sys: System, writes: seq<Write>, i: RunId)
    ensures i in Staying(sys, writes) <==> Took(i) in writes && Stays(sys, i)
  {
    if writes != [] {
      var init, w := writes[..|writes| - 1], writes[|writes| - 1];
      TakerIsStaying(sys, init, i);
      assert writes == init + [w];
    }
  }

  // ----- exactly when the links hold

  /** The old chain as its requests remember it, whether or not they stay. */
  ghost predicate Remembers(sys: System, s: Scope, order: seq<RunId>) {
    && Distinct(order)
    && forall k :: 0 <= k < |order| ==> RemembersAt(sys, s, order, k)
  }

  ghost predicate RemembersAt(sys: System, s: Scope, order: seq<RunId>, k: nat)
    requires k < |order|
  {
    && order[k] < |sys.creators| && sys.creators[order[k]].scope == s && HasSwapped(sys.creators[order[k]])
    && sys.creators[order[k]].dependsOn == Before(order, k)
  }

  ghost predicate AllStay(sys: System, order: seq<RunId>) {
    forall k :: 0 <= k < |order| ==> Stays(sys, order[k])
  }

  lemma LinkedIffAllStay(sys: System, s: Scope, order: seq<RunId>)
    requires Remembers(sys, s, order)
    ensures LinkedOrder(sys, s, order) <==> AllStay(sys, order)
  {
    if LinkedOrder(sys, s, order) {
      forall k | 0 <= k < |order| ensures Stays(sys, order[k]) {
        assert LinkAt(sys, s, order, k);
      }
    }
    if AllStay(sys, order) {
      forall k | 0 <= k < |order| ensures LinkAt(sys, s, order, k) {
        assert Stays(sys, order[k]) && RemembersAt(sys, s, order, k);
      }
    }
  }

  lemma LinkedSnocIff(sys: System, s: Scope, order: seq<RunId>, i: RunId)
    requires Stays(sys, i) && sys.creators[i].scope == s && i !in order
    ensures LinkedOrder(sys, s, order + [i]) <==>
            LinkedOrder(sys, s, order) && sys.creators[i].dependsOn == LastOf(order)
  {
    var longer := order + [i];
    assert Before(longer, |order|) == LastOf(order);
    if LinkedOrder(sys, s, longer) {
      assert LinkAt(sys, s, longer, |order|);
      forall k | 0 <= k < |order| ensures LinkAt(sys, s, order, k) {
        assert LinkAt(sys, s, longer, k);
      }
      forall j, k | 0 <= j < k < |order| ensures order[j] != order[k] {
        assert longer[j] != longer[k];
      }
    }
    if LinkedOrder(sys, s, order) && sys.creators[i].dependsOn == LastOf(order) {
      StillDistinct(order, i);
      forall k | 0 <= k < |longer| ensures LinkAt(sys, s, longer, k) {
        if k < |order| {
          assert LinkAt(sys, s, order, k);
        }
      }
    }
  }

  lemma HandedSnocIff(sys: System, order: seq<RunId>, tail: Option<RunId>, writes: seq<Write>, w: Write)
    ensures Handed(sys, order, tail, writes + [w]) <==>
            && Handed(sys, order, tail, writes)
            && (w.Took? && Stays(sys, w.who) ==> Left(tail, writes) == LastOf(order + Staying(sys, writes)))
  {
    var more := writes + [w];
    assert more[..|writes|] == writes;
    forall p | 0 <= p < |writes|
      ensures HandedAt(sys, order, tail, more, p) <==> HandedAt(sys, order, tail, writes, p)
    {
      assert more[..p] == writes[..p];
    }
    if Handed(sys, order, tail, more) {
      assert HandedAt(sys, order, tail, more, |writes|);
    }
  }

  lemma NotYetStaying(before: System, sys: System, s: Scope, order: seq<RunId>, writes: seq<Write>)
    requires writes != [] && Recorded(before, sys, s, writes) && Remembers(before, s, order)
    requires writes[|writes| - 1].Took?
    ensures writes[|writes| - 1].who !in order + Staying(sys, writes[..|writes| - 1])
  {
    var init, i := writes[..|writes| - 1], writes[|writes| - 1].who;
    assert RecordedAt(before, sys, s, writes, |writes| - 1);
    TakerIsStaying(sys, init, i);
    forall k | 0 <= k < |order| ensures order[k] != i {
      assert RemembersAt(before, s, order, k);
    }
  }

  lemma {:induction false} LinkedIffHanded(
    before: System, sys: System, s: Scope, order: seq<RunId>, writes: seq<Write>)
    requires Recorded(before, sys, s, writes) && Remembers(before, s, order) && Remembers(sys, s, order)
    ensures LinkedOrder(sys, s, order + Staying(sys, writes)) <==>
            AllStay(sys, order) && Handed(sys, order, Tail(before.db, s), writes)
    decreases |writes|
  {
    if writes == [] {
      assert order + Staying(sys, writes) == order;
      LinkedIffAllStay(sys, s, order);
    } else {
      var init := writes[..|writes| - 1];
      EarlierRecorded(before, sys, s, writes);
      LinkedIffHanded(before, sys, s, order, init);
      HandedSnocIff(sys, order, Tail(before.db, s), init, writes[|init|]);
      assert writes == init + [writes[|init|]];
      LastLinkIff(before, sys, s, order, writes);
    }
  }

  lemma EarlierRecorded(before: System, sys: System, s: Scope, writes: seq<Write>)
    requires writes != [] && Recorded(before, sys, s, writes)
    ensures Recorded(before, sys, s, writes[..|writes| - 1])
  {
    var init := writes[..|writes| - 1];
    forall p | 0 <= p < |init| ensures RecordedAt(before, sys, s, init, p) {
      assert RecordedAt(before, sys, s, writes, p) && init[..p] == writes[..p];
    }
  }

  lemma LastLinkIff(before: System, sys: System, s: Scope, order: seq<RunId>, writes: seq<Write>)
    requires writes != [] && Recorded(before, sys, s, writes) && Remembers(before, s, order)
    ensures var init, w := writes[..|writes| - 1], writes[|writes| - 1];
            LinkedOrder(sys, s, order + Staying(sys, writes)) <==>
            && LinkedOrder(sys, s, order + Staying(sys, init))
            && (w.Took? && Stays(sys, w.who) ==> Left(Tail(before.db, s), init) == LastOf(order + Staying(sys, init)))
  {
    var init, w := writes[..|writes| - 1], writes[|writes| - 1];
    if w.Took? && Stays(sys, w.who) {
      assert RecordedAt(before, sys, s, writes, |init|);
      NotYetStaying(before, sys, s, order, writes);
      LinkedSnocIff(sys, s, order + Staying(sys, init), w.who);
      assert order + Staying(sys, writes) == order + Staying(sys, init) + [w.who];
    } else {
      assert Staying(sys, writes) == Staying(sys, init);
    }
  }

  lemma StillRemembers(before: System, steps: seq<Step>, s: Scope, order: seq<RunId>)
    requires Remembers(before, s, order)
    ensures Remembers(PlayFrom(before, steps), s, order)
  {
    forall k | 0 <= k < |order| ensures RemembersAt(PlayFrom(before, steps), s, order, k) {
      assert RemembersAt(before, s, order, k);
      PlayKeepsSwap(before, steps, order[k]);
    }
  }

  lemma ChainIsRemembered(sys: System, s: Scope, order: seq<RunId>)
    requires LinkedOrder(sys, s, order)
    ensures Remembers(sys, s, order)
  {
    forall k | 0 <= k < |order| ensures RemembersAt(sys, s, order, k) {
      assert LinkAt(sys, s, order, k);
    }
  }

  /** Apart from completeness, whatever happens. */
  lemma ChainIff(before: System, steps: seq<Step>, s: Scope, order: seq<RunId>)
    requires DocsFresh(before) && Remembers(before, s, order)
    ensures var sys, writes := PlayFrom(before, steps), WritesOf(before, steps, s);
            var chain := order + Staying(sys, writes);
            ChainOf(sys, s, chain) <==>
            && AllStay(sys, order) && Handed(sys, order, Tail(before.db, s), writes)
            && Left(Tail(before.db, s), writes) == LastOf(chain)
  {
    PlayIsRecorded(before, steps, s);
    StillRemembers(before, steps, s, order);
    LinkedIffHanded(before, PlayFrom(before, steps), s, order, WritesOf(before, steps, s));
    TailIsLastWrite(before, steps, s);
  }

  // ----- no other order can be a chain

  /** Of the old chain exactly the first `m` requests stay. */
  ghost predicate KeptUpTo(sys: System, order: seq<RunId>, m: nat) {
    m <= |order| && forall k :: 0 <= k < |order| ==> (Stays(sys, order[k]) <==> k < m)
  }

  /** The old requests and the later takers, as far as they stay. */
  ghost predicate Holds(sys: System, c: seq<RunId>, order: seq<RunId>, writes: seq<Write>) {
    forall x: RunId :: x in c <==> Stays(sys, x) && (x in order || Took(x) in writes)
  }

  /** The tail stood at nobody who has yet to take it. */
  ghost predicate Grounded(before: System, s: Scope) {
    var tail := Tail(before.db, s);
    tail.Some? ==> tail.value < |before.creators| && HasSwapped(before.creators[tail.value])
  }

  lemma NotTheTaker(before: System, sys: System, s: Scope, writes: seq<Write>, q: nat)
    requires Recorded(before, sys, s, writes) && Grounded(before, s) && writes != [] && writes[|writes| - 1].Took?
    requires q < |writes|
    ensures Left(Tail(before.db, s), writes[..q]) != Some(writes[|writes| - 1].who)
  {
    assert RecordedAt(before, sys, s, writes, |writes| - 1);
    if q > 0 {
      assert writes[..q][q - 1] == writes[q - 1];
    }
  }

  /** Nobody who stays waits for the last taker. */
  lemma LastTakerIsLast(
    before: System, sys: System, s: Scope, order: seq<RunId>, writes: seq<Write>, c: seq<RunId>, k: nat)
    requires Recorded(before, sys, s, writes) && Remembers(before, s, order) && Remembers(sys, s, order)
    requires Grounded(before, s) && LinkedOrder(sys, s, c) && Holds(sys, c, order, writes)
    requires writes != [] && writes[|writes| - 1].Took? && k < |c| && c[k] == writes[|writes| - 1].who
    ensures k == |c| - 1
  {
    if k + 1 < |c| {
      var x, y := c[k], c[k + 1];
      assert LinkAt(sys, s, c, k + 1) && y in c;
      assert sys.creators[y].dependsOn == Some(x);
      if y in order {
        var j :| 0 <= j < |order| && order[j] == y;
        assert RemembersAt(sys, s, order, j);
        NotYetStaying(before, sys, s, order, writes);
      } else {
        var q :| 0 <= q < |writes| && writes[q] == Took(y);
        assert RecordedAt(before, sys, s, writes, q);
        NotTheTaker(before, sys, s, writes, q);
      }
    }
  }

  lemma LinkedPrefix(sys: System, s: Scope, c: seq<RunId>, n: nat)
    requires LinkedOrder(sys, s, c) && n <= |c|
    ensures LinkedOrder(sys, s, c[..n])
  {
    forall k | 0 <= k < n ensures LinkAt(sys, s, c[..n], k) {
      assert LinkAt(sys, s, c, k);
    }
  }

  /** A chain of all who stay ends with the later takers, in the order in which they took the tail. */
  lemma {:induction false} ChainEndsWithTakers(
    before: System, sys: System, s: Scope, order: seq<RunId>, writes: seq<Write>, c: seq<RunId>)
    returns (kept: seq<RunId>)
    requires Recorded(before, sys, s, writes) && Remembers(before, s, order) && Remembers(sys, s, order)
    requires Grounded(before, s) && LinkedOrder(sys, s, c) && Holds(sys, c, order, writes)
    ensures c == kept + Staying(sys, writes) && LinkedOrder(sys, s, kept) && Holds(sys, kept, order, [])
    decreases |writes|
  {
    if writes == [] {
      kept := c;
    } else {
      var init := writes[..|writes| - 1];
      EarlierRecorded(before, sys, s, writes);
      var shorter := LastTakerCut(before, sys, s, order, writes, c);
      kept := ChainEndsWithTakers(before, sys, s, order, init, shorter);
      assert c == kept + (Staying(sys, init) + c[|shorter|..]);
    }
  }

  /** The last write accounts for the last link of the chain, or for none. */
  lemma LastTakerCut(before: System, sys: System, s: Scope, order: seq<RunId>, writes: seq<Write>, c: seq<RunId>)
    returns (shorter: seq<RunId>)
    requires Recorded(before, sys, s, writes) && Remembers(before, s, order) && Remembers(sys, s, order)
    requires Grounded(before, s) && LinkedOrder(sys, s, c) && Holds(sys, c, order, writes) && writes != []
    ensures shorter <= c && LinkedOrder(sys, s, shorter) && Holds(sys, shorter, order, writes[..|writes| - 1])
    ensures Staying(sys, writes) == Staying(sys, writes[..|writes| - 1]) + c[|shorter|..]
  {
    var init, w := writes[..|writes| - 1], writes[|writes| - 1];
    assert writes == init + [w];
    if w.Took? && Stays(sys, w.who) {
      assert Took(w.who) in writes && w.who in c;
      var k :| 0 <= k < |c| && c[k] == w.who;
      LastTakerIsLast(before, sys, s, order, writes, c, k);
      LinkedPrefix(sys, s, c, k);
      WithoutLastTaker(before, sys, s, order, writes, c);
      shorter := c[..k];
      assert c[k..] == [w.who];
    } else {
      shorter := c;
      assert Staying(sys, init) + [] == Staying(sys, init);
    }
  }

  lemma WithoutLastTaker(
    before: System, sys: System, s: Scope, order: seq<RunId>, writes: seq<Write>, c: seq<RunId>)
    requires Recorded(before, sys, s, writes) && Remembers(before, s, order)
    requires LinkedOrder(sys, s, c) && Holds(sys, c, order, writes)
    requires writes != [] && writes[|writes| - 1].Took? && c != [] && c[|c| - 1] == writes[|writes| - 1].who
    ensures Holds(sys, c[..|c| - 1], order, writes[..|writes| - 1])
  {
    var init, i := writes[..|writes| - 1], writes[|writes| - 1].who;
    assert writes == init + [Took(i)] && c == c[..|c| - 1] + [i];
    NotYetStaying(before, sys, s, order, writes);
    assert RecordedAt(before, sys, s, writes, |writes| - 1);
    assert Took(i) !in init && i !in order by {
      forall k | 0 <= k < |order| ensures order[k] != i {
        assert RemembersAt(before, s, order, k);
      }
    }
  }

  /** What stays of the old chain is a first part of it. */
  lemma OldPartIsPrefix(sys: System, s: Scope, order: seq<RunId>, kept: seq<RunId>)
    requires Remembers(sys, s, order) && LinkedOrder(sys, s, kept) && Holds(sys, kept, order, [])
    ensures KeptUpTo(sys, order, |kept|) && kept == order[..|kept|]
  {
    OldPartInPlace(sys, s, order, kept, |kept|);
    forall k | 0 <= k < |order| ensures Stays(sys, order[k]) <==> k < |kept| {
      assert order[k] in order;
      if k < |kept| {
        assert order[k] == kept[k] && kept[k] in kept;
      } else {
        assert order[k] !in kept by {
          forall j | 0 <= j < |kept| ensures kept[j] != order[k] {
            assert kept[j] == order[j];
          }
        }
      }
    }
  }

  lemma {:induction false} OldPartInPlace(sys: System, s: Scope, order: seq<RunId>, kept: seq<RunId>, n: nat)
    requires Remembers(sys, s, order) && LinkedOrder(sys, s, kept) && Holds(sys, kept, order, []) && n <= |kept|
    ensures n <= |order| && kept[..n] == order[..n]
  {
    if n > 0 {
      OldPartInPlace(sys, s, order, kept, n - 1);
      assert LinkAt(sys, s, kept, n - 1) && kept[n - 1] in kept;
      var j :| 0 <= j < |order| && order[j] == kept[n - 1];
      assert RemembersAt(sys, s, order, j);
      assert n > 1 ==> kept[..n - 1][n - 2] == order[..n - 1][n - 2];
      assert j == n - 1;
      assert kept[..n] == kept[..n - 1] + [kept[n - 1]];
    }
  }

  /** The first `m` requests of the old chain are what stays of it; whenever a later request that stays
      took the tail, and now, the last operation on the tail had left it at the end of the chain. */
  ghost predicate HandedOn(sys: System, order: seq<RunId>, m: nat, tail: Option<RunId>, writes: seq<Write>) {
    && KeptUpTo(sys, order, m) && Handed(sys, order[..m], tail, writes)
    && Left(tail, writes) == LastOf(order[..m] + Staying(sys, writes))
  }

  /** The conversation's queue: all its requests that swapped and stay are one chain. */
  ghost predicate OneChain(sys: System, s: Scope) {
    exists chain :: WholeChain(sys, s, chain)
  }

  ghost predicate Covered(sys: System, s: Scope, order: seq<RunId>, writes: seq<Write>) {
    forall x: RunId :: Stays(sys, x) && sys.creators[x].scope == s ==> x in order || Took(x) in writes
  }

  lemma RememberedPrefix(sys: System, s: Scope, order: seq<RunId>, m: nat)
    requires Remembers(sys, s, order) && m <= |order|
    ensures Remembers(sys, s, order[..m])
  {
    forall k | 0 <= k < m ensures RemembersAt(sys, s, order[..m], k) {
      assert RemembersAt(sys, s, order, k);
    }
  }

  lemma HandedOnIsChain(before: System, steps: seq<Step>, s: Scope, order: seq<RunId>, m: nat)
    requires DocsFresh(before) && Remembers(before, s, order) && KeptUpTo(PlayFrom(before, steps), order, m)
    requires Covered(PlayFrom(before, steps), s, order, WritesOf(before, steps, s))
    ensures var sys, writes := PlayFrom(before, steps), WritesOf(before, steps, s);
            WholeChain(sys, s, order[..m] + Staying(sys, writes)) <==>
            HandedOn(sys, order, m, Tail(before.db, s), writes)
  {
    var sys, writes := PlayFrom(before, steps), WritesOf(before, steps, s);
    RememberedPrefix(before, s, order, m);
    ChainIff(before, steps, s, order[..m]);
    assert AllStay(sys, order[..m]);
    forall x: RunId | Stays(sys, x) && sys.creators[x].scope == s ensures x in order[..m] + Staying(sys, writes) {
      TakerIsStaying(sys, writes, x);
      if x in order {
        var k :| 0 <= k < |order| && order[k] == x;
        assert order[..m][k] == x;
      }
    }
  }

  /** Whatever is one chain in the end is what stays of the old one and then the later takers. */
  lemma OnlyThatChain(before: System, steps: seq<Step>, s: Scope, order: seq<RunId>, chain: seq<RunId>)
    returns (m: nat)
    requires DocsFresh(before) && Remembers(before, s, order) && Grounded(before, s)
    requires Covered(PlayFrom(before, steps), s, order, WritesOf(before, steps, s))
    requires WholeChain(PlayFrom(before, steps), s, chain)
    ensures var sys, writes := PlayFrom(before, steps), WritesOf(before, steps, s);
            KeptUpTo(sys, order, m) && chain == order[..m] + Staying(sys, writes)
  {
    var sys, writes := PlayFrom(before, steps), WritesOf(before, steps, s);
    PlayIsRecorded(before, steps, s);
    StillRemembers(before, steps, s, order);
    ChainHoldsAll(before, sys, s, order, writes, chain);
    var kept := ChainEndsWithTakers(before, sys, s, order, writes, chain);
    OldPartIsPrefix(sys, s, order, kept);
    m := |kept|;
  }

  lemma ChainHoldsAll(
    before: System, sys: System, s: Scope, order: seq<RunId>, writes: seq<Write>, chain: seq<RunId>)
    requires Recorded(before, sys, s, writes) && Remembers(sys, s, order) && Covered(sys, s, order, writes)
    requires WholeChain(sys, s, chain)
    ensures Holds(sys, chain, order, writes)
  {
    forall x: RunId ensures x in chain <==> Stays(sys, x) && (x in order || Took(x) in writes) {
      if x in chain {
        var k :| 0 <= k < |chain| && chain[k] == x;
        assert LinkAt(sys, s, chain, k);
      } else if x in order {
        var k :| 0 <= k < |order| && order[k] == x;
        assert RemembersAt(sys, s, order, k);
      } else if Took(x) in writes {
        var p :| 0 <= p < |writes| && writes[p] == Took(x);
        assert RecordedAt(before, sys, s, writes, p);
      }
    }
  }

  lemma OneChainIff(before: System, steps: seq<Step>, s: Scope, order: seq<RunId>)
    requires DocsFresh(before) && Remembers(before, s, order) && Grounded(before, s)
    requires Covered(PlayFrom(before, steps), s, order, WritesOf(before, steps, s))
    ensures var sys, writes := PlayFrom(before, steps), WritesOf(before, steps, s);
            OneChain(sys, s) <==> exists m: nat :: HandedOn(sys, order, m, Tail(before.db, s), writes)
  {
    if OneChain(PlayFrom(before, steps), s) {
      OneChainIsHandedOn(before, steps, s, order);
    }
    var sys, writes := PlayFrom(before, steps), WritesOf(before, steps, s);
    if exists m: nat :: HandedOn(sys, order, m, Tail(before.db, s), writes) {
      var m: nat :| HandedOn(sys, order, m, Tail(before.db, s), writes);
      HandedOnIsChain(before, steps, s, order, m);
    }
  }

  lemma OneChainIsHandedOn(before: System, steps: seq<Step>, s: Scope, order: seq<RunId>)
    requires DocsFresh(before) && Remembers(before, s, order) && Grounded(before, s)
    requires Covered(PlayFrom(before, steps), s, order, WritesOf(before, steps, s))
    requires OneChain(PlayFrom(before, steps), s)
    ensures exists m: nat ::
              HandedOn(PlayFrom(before, steps), order, m, Tail(before.db, s), WritesOf(before, steps, s))
  {
    var chain :| WholeChain(PlayFrom(before, steps), s, chain);
    var m := OnlyThatChain(before, steps, s, order, chain);
    HandedOnIsChain(before, steps, s, order, m);
  }

  // ----- main results

  /** Main result: let the queue of a conversation be one chain, and let anything happen. It is one chain
      again exactly when what stays of the old chain is a first part of it and, whenever a later
      request that stays took the tail, and now, the last operation on the tail had left it at the end of
      the chain so far. */
  lemma QueueIsOneChainIff(start: seq<Step>, rest: seq<Step>, s: Scope, order: seq<RunId>)
    requires WholeChain(Play(start), s, order)
    ensures var sys, writes := PlayFrom(Play(start), rest), WritesOf(Play(start), rest, s);
            OneChain(sys, s) <==> exists m: nat :: HandedOn(sys, order, m, LastOf(order), writes)
  {
    var before, sys := Play(start), PlayFrom(Play(start), rest);
    var writes := WritesOf(before, rest, s);
    EveryPlayKeepsClaimInv(start);
    ChainIsRemembered(before, s, order);
    forall x: RunId | Stays(sys, x) && sys.creators[x].scope == s ensures x in order || Took(x) in writes {
      PlayAddsTakers(before, rest, s, x);
      PlayStaysInScope(before, rest, x);
    }
    ChainIsGrounded(before, s, order);
    OneChainIff(before, rest, s, order);
  }

  lemma ChainIsGrounded(sys: System, s: Scope, order: seq<RunId>)
    requires Remembers(sys, s, order) && Tail(sys.db, s) == LastOf(order)
    ensures Grounded(sys, s)
  {
    if order != [] {
      assert RemembersAt(sys, s, order, |order| - 1);
    }
  }

  lemma PlayStaysInScope(before: System, steps: seq<Step>, i: RunId)
    ensures i < |before.creators| ==>
              i < |PlayFrom(before, steps).creators| &&
              PlayFrom(before, steps).creators[i].scope == before.creators[i].scope
  {
    if i < |before.creators| {
      PlayKeepsSwap(before, steps, i);
    }
  }

  /** The situation of a duplicate: its conversation was one chain when it swapped, anything happened
      since, and its insert was rejected. */
  ghost predicate Duplicate(before: System, i: nat, rest: seq<Step>, existing: RunId, order: seq<RunId>) {
    && i < |before.creators| && before.creators[i].stage == LookedUp
    && WholeChain(before, before.creators[i].scope, order)
    && var sys := PlayFrom(Next(before, Swap(i)), rest);
       && i < |sys.creators| && sys.creators[i].stage == Rejected && existing in sys.db.docs
       && Matches(sys.db.docs[existing], sys.creators[i].scope, sys.creators[i].message)
  }

  /** Once another operation moved the tail it never comes back to a request that is rejected. */
  lemma TailNeverReturns(before: System, steps: seq<Step>, s: Scope, i: nat)
    requires DocsFresh(before) && i < |before.creators| && HasSwapped(before.creators[i])
    requires i < |PlayFrom(before, steps).creators| && PlayFrom(before, steps).creators[i].stage == Rejected
    requires WritesOf(before, steps, s) != []
    ensures Left(Some(i), WritesOf(before, steps, s)) != Some(i)
  {
    var writes := WritesOf(before, steps, s);
    PlayIsRecorded(before, steps, s);
    PlayEvolves(before, steps);
    assert RecordedAt(before, PlayFrom(before, steps), s, writes, |writes| - 1);
  }

  lemma DuplicateNeverStays(before: System, i: nat, rest: seq<Step>, existing: RunId)
    requires DocsFresh(before) && i < |PlayFrom(before, rest).creators|
    requires PlayFrom(before, rest).creators[i].stage == Rejected
    ensures !Stays(Next(PlayFrom(before, rest), Rollback(i, existing)), i)
  {
    PlayEvolves(before, rest);
  }

  /** What the last operation of a duplicate adds to the writes. */
  lemma LastWriteOfDuplicate(before: System, i: nat, rest: seq<Step>, existing: RunId, order: seq<RunId>)
    requires DocsFresh(before) && Duplicate(before, i, rest, existing, order)
    ensures var mid, s := Next(before, Swap(i)), before.creators[i].scope;
            var sys, since := PlayFrom(mid, rest), WritesOf(mid, rest, s);
            WriteOf(sys, Rollback(i, existing), s) ==
            if since == [] && sys.db.docs[existing].hash == sys.creators[i].hash then [GaveBack(i, existing)] else []
  {
    var mid, s := Next(before, Swap(i)), before.creators[i].scope;
    NextEvolves(before, Swap(i));
    TailIsLastWrite(mid, rest, s);
    PlayKeepsSwap(mid, rest, i);
    if WritesOf(mid, rest, s) != [] {
      TailNeverReturns(mid, rest, s, i);
    }
  }

  lemma GivingBackMovesNobody(sys: System, order: seq<RunId>, tail: Option<RunId>, writes: seq<Write>, more: seq<Write>)
    requires |more| <= 1 && (more != [] ==> more[0].GaveBack?)
    ensures Staying(sys, writes + more) == Staying(sys, writes)
    ensures Handed(sys, order, tail, writes + more) <==> Handed(sys, order, tail, writes)
  {
    if more == [] {
      assert writes + more == writes;
    } else {
      assert writes + more == writes + [more[0]];
      HandedSnocIff(sys, order, tail, writes, more[0]);
      assert (writes + more)[..|writes|] == writes;
    }
  }

  /** What has to hold around a duplicate when the first `m` requests of the old chain are what stays of
      it. If nothing touched the tail since its swap, the duplicate asks for the same as the stored run,
      and that run is the last that stays. Otherwise others moved the tail on, and every request that
      stays, and the end, found it at the end of the chain without the duplicate. */
  ghost predicate FitsWithout(
    end: System, order: seq<RunId>, m: nat, i: nat, since: seq<Write>, existing: RunId, same: bool)
  {
    && KeptUpTo(end, order, m)
    && if since == [] then same && LastOf(order[..m]) == Some(existing) else HandedOn(end, order, m, Some(i), since)
  }

  /** Exactly when a duplicate leaves the queue of its conversation one chain, whatever happened between
      its swap and its rollback. */
  lemma DuplicateLeavesChainIff(start: seq<Step>, i: nat, rest: seq<Step>, existing: RunId, order: seq<RunId>)
    requires Duplicate(Play(start), i, rest, existing, order)
    ensures var mid, s := Next(Play(start), Swap(i)), Play(start).creators[i].scope;
            var sys, since := PlayFrom(mid, rest), WritesOf(mid, rest, s);
            var end, same := Next(sys, Rollback(i, existing)), sys.db.docs[existing].hash == sys.creators[i].hash;
            OneChain(end, s) <==> exists m: nat :: FitsWithout(end, order, m, i, since, existing, same)
  {
    var before, s := Play(start), Play(start).creators[i].scope;
    var mid := Next(before, Swap(i));
    var sys, since := PlayFrom(mid, rest), WritesOf(mid, rest, s);
    var own := WriteOf(sys, Rollback(i, existing), s);
    var end, same := Next(sys, Rollback(i, existing)), sys.db.docs[existing].hash == sys.creators[i].hash;
    EveryPlayKeepsClaimInv(start);
    LastWriteOfDuplicate(before, i, rest, existing, order);
    NotInOrder(before, i, s, order);
    DuplicateChainIff(before, i, rest, existing, order);
    forall m: nat ensures FitsWithout(end, order, m, i, since, existing, same) <==>
                     HandedOn(end, order, m, Some(i), since + own)
    {
      if KeptUpTo(end, order, m) {
        OwnWriteCounts(end, order[..m], i, since, own, existing, same);
      }
    }
    SameWitness(end, order, i, since, own, existing, same);
  }

  lemma SameWitness(
    end: System, order: seq<RunId>, i: nat, since: seq<Write>, own: seq<Write>, existing: RunId, same: bool)
    requires forall m: nat :: FitsWithout(end, order, m, i, since, existing, same) <==>
                         HandedOn(end, order, m, Some(i), since + own)
    ensures (exists m: nat :: FitsWithout(end, order, m, i, since, existing, same)) <==>
            exists m: nat :: HandedOn(end, order, m, Some(i), since + own)
  {
  }

  /** The condition with the duplicate's own last operation, and without it. */
  lemma OwnWriteCounts(
    end: System, order: seq<RunId>, i: nat, since: seq<Write>, own: seq<Write>, existing: RunId, same: bool)
    requires i !in order && own == if since == [] && same then [GaveBack(i, existing)] else []
    ensures Staying(end, since + own) == Staying(end, since)
    ensures Handed(end, order, Some(i), since + own) &&
            Left(Some(i), since + own) == LastOf(order + Staying(end, since + own)) <==>
            if since == [] then same && LastOf(order) == Some(existing)
            else Handed(end, order, Some(i), since) && Left(Some(i), since) == LastOf(order + Staying(end, since))
  {
    GivingBackMovesNobody(end, order, Some(i), since, own);
    if since == [] {
      assert order + Staying(end, since) == order && since + own == own;
    } else {
      assert since + own == since;
    }
  }

  lemma DuplicateChainIff(before: System, i: nat, rest: seq<Step>, existing: RunId, order: seq<RunId>)
    requires DocsFresh(before) && Duplicate(before, i, rest, existing, order)
    ensures var mid, s := Next(before, Swap(i)), before.creators[i].scope;
            var sys := PlayFrom(mid, rest);
            var end := Next(sys, Rollback(i, existing));
            var writes := WritesOf(mid, rest, s) + WriteOf(sys, Rollback(i, existing), s);
            OneChain(end, s) <==> exists m: nat :: HandedOn(end, order, m, Some(i), writes)
  {
    var mid, s := Next(before, Swap(i)), before.creators[i].scope;
    PlayOneMore(mid, rest, Rollback(i, existing), s);
    NextEvolves(before, Swap(i));
    AfterSwap(before, i, s, order);
    DuplicateIsLeftOut(before, i, rest, existing, order);
    OneChainIff(mid, rest + [Rollback(i, existing)], s, order);
  }

  lemma PlayOneMore(sys: System, rest: seq<Step>, step: Step, s: Scope)
    ensures PlayFrom(sys, rest + [step]) == Next(PlayFrom(sys, rest), step)
    ensures WritesOf(sys, rest + [step], s) == WritesOf(sys, rest, s) + WriteOf(PlayFrom(sys, rest), step, s)
  {
    assert (rest + [step])[..|rest|] == rest;
  }

  lemma AfterSwap(before: System, i: nat, s: Scope, order: seq<RunId>)
    requires i < |before.creators| && before.creators[i].stage == LookedUp && before.creators[i].scope == s
    requires ChainOf(before, s, order)
    ensures Remembers(Next(before, Swap(i)), s, order) && Tail(Next(before, Swap(i)).db, s) == Some(i)
  {
    ChainIsRemembered(before, s, order);
    var mid := Next(before, Swap(i));
    forall k | 0 <= k < |order| ensures RemembersAt(mid, s, order, k) {
      assert RemembersAt(before, s, order, k);
      StepKeepsSwap(before, Swap(i), order[k]);
    }
  }

  lemma DuplicateIsLeftOut(before: System, i: nat, rest: seq<Step>, existing: RunId, order: seq<RunId>)
    requires DocsFresh(before) && Duplicate(before, i, rest, existing, order)
    ensures var mid, s := Next(before, Swap(i)), before.creators[i].scope;
            var steps := rest + [Rollback(i, existing)];
            Covered(PlayFrom(mid, steps), s, order, WritesOf(mid, steps, s))
  {
    var mid, s := Next(before, Swap(i)), before.creators[i].scope;
    var steps := rest + [Rollback(i, existing)];
    var end := PlayFrom(mid, steps);
    PlayOneMore(mid, rest, Rollback(i, existing), s);
    NextEvolves(before, Swap(i));
    DuplicateNeverStays(mid, i, rest, existing);
    forall j: RunId | Stays(end, j) && end.creators[j].scope == s
      ensures j in order || Took(j) in WritesOf(mid, steps, s)
    {
      PlayAddsTakers(mid, steps, s, j);
      PlayStaysInScope(mid, steps, j);
      if Stays(mid, j) {
        assert Stays(before, j) && before.creators[j].scope == s;
      }
    }
  }
}
