/** Tool events of one run: emitted at most once each, and all closed when a run is failed. */
module ToolEvents {
  import opened Common
  import opened Ledger
  import opened LedgerInvariant

  datatype Call = Call(callId: string, toolName: string)

  function Bodies(log: seq<Event>): seq<Body> {
    seq(|log|, i requires 0 <= i < |log| => log[i].body)
  }

  function LogOf(l: Ledger, r: RunId): seq<Body> {
    Bodies(Log(l.events, r))
  }

  predicate StartOf(b: Body, id: string) {
    b.ToolStarted? && b.callId == id
  }

  predicate CompletionOf(b: Body, id: string) {
    b.ToolCompleted? && b.callId == id
  }

  function Starts(bodies: seq<Body>, id: string): nat {
    if bodies == [] then 0
    else Starts(bodies[..|bodies| - 1], id) + (if StartOf(bodies[|bodies| - 1], id) then 1 else 0)
  }

  function Completions(bodies: seq<Body>, id: string): nat {
    if bodies == [] then 0
    else Completions(bodies[..|bodies| - 1], id) + (if CompletionOf(bodies[|bodies| - 1], id) then 1 else 0)
  }

  /** The lookup that precedes the emission of a tool event. */
  predicate Present(bodies: seq<Body>, b: Body) {
    match b
    case ToolStarted(id, _) => id != "" && exists i :: 0 <= i < |bodies| && StartOf(bodies[i], id)
    case ToolCompleted(id, _, _, _) => id != "" && exists i :: 0 <= i < |bodies| && CompletionOf(bodies[i], id)
    case _ => false
  }

  function IndexOfCall(calls: seq<Call>, id: string): nat
    ensures IndexOfCall(calls, id) <= |calls|
    ensures IndexOfCall(calls, id) < |calls| ==> calls[IndexOfCall(calls, id)].callId == id
  {
    if calls == [] then 0
    else if calls[0].callId == id then 0
    else 1 + IndexOfCall(calls[1..], id)
  }

  /** A mapping keeps the position of a key that is written again. */
  function Put(calls: seq<Call>, c: Call): seq<Call> {
    var i := IndexOfCall(calls, c.callId);
    if i < |calls| then calls[i := c] else calls + [c]
  }

  /** The started calls by id, in order of first start. */
  function StartedCalls(bodies: seq<Body>): seq<Call> {
    if bodies == [] then []
    else
      var earlier := StartedCalls(bodies[..|bodies| - 1]);
      var b := bodies[|bodies| - 1];
      if b.ToolStarted? && b.callId != "" then Put(earlier, Call(b.callId, b.toolName)) else earlier
  }

  function Uncompleted(calls: seq<Call>, bodies: seq<Body>): seq<Call> {
    if calls == [] then []
    else
      var c := calls[|calls| - 1];
      Uncompleted(calls[..|calls| - 1], bodies) + (if Completions(bodies, c.callId) == 0 then [c] else [])
  }

  function Pending(bodies: seq<Body>): seq<Call> {
    Uncompleted(StartedCalls(bodies), bodies)
  }

  function Closure(c: Call): Body {
    ToolCompleted(c.callId, c.toolName, "FAILED", 0)
  }

  function Closures(calls: seq<Call>): seq<Body> {
    seq(|calls|, i requires 0 <= i < |calls| => Closure(calls[i]))
  }

  /** Everything that failing a run writes before its terminal event. */
  function FailurePrelude(bodies: seq<Body>): seq<Body> {
    (if bodies == [] then [RunStarted] else []) + Closures(Pending(bodies))
  }

  function FailureBodies(bodies: seq<Body>, code: string): seq<Body> {
    FailurePrelude(bodies) + [RunFailed(code)]
  }

  /** Several appends in a row; the k-th is stamped with the k-th reading of the clock. */
  function AppendAll(l: Ledger, r: RunId, bodies: seq<Body>, clock: nat -> int): Ledger
    requires Known(l, r)
    ensures Known(AppendAll(l, r, bodies, clock), r)
  {
    if bodies == [] then l
    else
      var n := |bodies| - 1;
      Appended(AppendAll(l, r, bodies[..n], clock), r, bodies[n], None, clock(n))
  }

  /** The readings that remain after the first `n`. */
  function Later(clock: nat -> int, n: nat): nat -> int {
    (k: nat) => clock(n + k)
  }

  function FailedRun(l: Ledger, r: RunId, code: string, clock: nat -> int): Ledger
    requires Known(l, r)
  {
    AppendAll(l, r, FailureBodies(Bodies(Log(l.events, r)), code), clock)
  }

  /** A lookup and an append with nothing in between. */
  ghost function Emitted(l: Ledger, r: RunId, b: Body, now: int): Ledger {
    if Open(l, r) && !Present(Bodies(Log(l.events, r)), b) then Appended(l, r, b, None, now) else l
  }

  // ----- counting

  lemma StartsSnoc(bodies: seq<Body>, b: Body, id: string)
    ensures Starts(bodies + [b], id) == Starts(bodies, id) + (if StartOf(b, id) then 1 else 0)
    ensures Completions(bodies + [b], id) == Completions(bodies, id) + (if CompletionOf(b, id) then 1 else 0)
  {
    assert (bodies + [b])[..|bodies|] == bodies;
  }

  lemma {:induction false} CountZeroIffAbsent(bodies: seq<Body>, id: string)
    ensures Starts(bodies, id) == 0 <==> forall i :: 0 <= i < |bodies| ==> !StartOf(bodies[i], id)
    ensures Completions(bodies, id) == 0 <==> forall i :: 0 <= i < |bodies| ==> !CompletionOf(bodies[i], id)
  {
    if bodies != [] {
      var n := |bodies| - 1;
      CountZeroIffAbsent(bodies[..n], id);
      assert bodies == bodies[..n] + [bodies[n]];
      assert forall i :: 0 <= i < n ==> bodies[i] == bodies[..n][i];
    }
  }

  ghost predicate DistinctIds(calls: seq<Call>) {
    forall i, j :: 0 <= i < j < |calls| ==> calls[i].callId != calls[j].callId
  }

  ghost predicate Lists(calls: seq<Call>, id: string) {
    exists i :: 0 <= i < |calls| && calls[i].callId == id
  }

  lemma {:induction false} IndexFindsListed(calls: seq<Call>, id: string)
    ensures IndexOfCall(calls, id) < |calls| <==> Lists(calls, id)
  {
    if calls != [] && calls[0].callId != id {
      IndexFindsListed(calls[1..], id);
      if Lists(calls, id) {
        var i :| 0 <= i < |calls| && calls[i].callId == id;
        assert calls[1..][i - 1].callId == id;
      }
      if Lists(calls[1..], id) {
        var i :| 0 <= i < |calls[1..]| && calls[1..][i].callId == id;
        assert calls[i + 1].callId == id;
      }
    }
  }

  lemma PutKeepsKeys(calls: seq<Call>, c: Call, id: string)
    requires DistinctIds(calls)
    ensures DistinctIds(Put(calls, c))
    ensures Lists(Put(calls, c), id) <==> Lists(calls, id) || id == c.callId
  {
    IndexFindsListed(calls, c.callId);
    var i := IndexOfCall(calls, c.callId);
    var put := Put(calls, c);
    if Lists(calls, id) {
      var k :| 0 <= k < |calls| && calls[k].callId == id;
      assert put[k].callId == id;
    }
    if Lists(put, id) {
      var k :| 0 <= k < |put| && put[k].callId == id;
      assert k < |calls| ==> calls[k].callId == id;
    }
    assert put[if i < |calls| then i else |calls|].callId == c.callId;
  }

  lemma {:induction false} StartedCallsListStarts(bodies: seq<Body>, id: string)
    ensures DistinctIds(StartedCalls(bodies))
    ensures Lists(StartedCalls(bodies), id) <==> id != "" && Starts(bodies, id) > 0
  {
    if bodies != [] {
      var n := |bodies| - 1;
      StartedCallsListStarts(bodies[..n], id);
      var b := bodies[n];
      if b.ToolStarted? && b.callId != "" {
        PutKeepsKeys(StartedCalls(bodies[..n]), Call(b.callId, b.toolName), id);
      }
    }
  }

  lemma ListsSnoc(calls: seq<Call>, c: Call, id: string)
    ensures Lists(calls + [c], id) <==> Lists(calls, id) || c.callId == id
  {
    var more := calls + [c];
    assert more[|calls|] == c;
    if Lists(calls, id) {
      var i :| 0 <= i < |calls| && calls[i].callId == id;
      assert more[i].callId == id;
    }
  }

  lemma {:induction false} UncompletedLists(calls: seq<Call>, bodies: seq<Body>, id: string)
    requires DistinctIds(calls)
    ensures DistinctIds(Uncompleted(calls, bodies))
    ensures forall c :: c in Uncompleted(calls, bodies) ==> c in calls
    ensures Lists(Uncompleted(calls, bodies), id) <==> Lists(calls, id) && Completions(bodies, id) == 0
  {
    if calls != [] {
      var n := |calls| - 1;
      UncompletedLists(calls[..n], bodies, id);
      var rest := Uncompleted(calls[..n], bodies);
      forall i | 0 <= i < |rest| ensures rest[i].callId != calls[n].callId {
        assert rest[i] in calls[..n];
      }
      assert calls == calls[..n] + [calls[n]];
      ListsSnoc(calls[..n], calls[n], id);
      ListsSnoc(rest, calls[n], id);
      assert Uncompleted(calls, bodies) ==
             if Completions(bodies, calls[n].callId) == 0 then rest + [calls[n]] else rest;
    }
  }

  /** Closing a list of calls adds exactly one completion to each of them. */
  lemma {:induction false} ClosuresCount(bodies: seq<Body>, calls: seq<Call>, id: string)
    requires DistinctIds(calls)
    ensures Starts(bodies + Closures(calls), id) == Starts(bodies, id)
    ensures Completions(bodies + Closures(calls), id) == Completions(bodies, id) + (if Lists(calls, id) then 1 else 0)
  {
    if calls == [] {
      assert bodies + Closures(calls) == bodies;
    } else {
      var init, last := calls[..|calls| - 1], calls[|calls| - 1];
      assert calls == init + [last];
      ClosuresCount(bodies, init, id);
      ClosuresSnoc(init, last);
      ListsSnoc(init, last, id);
      assert bodies + (Closures(init) + [Closure(last)]) == (bodies + Closures(init)) + [Closure(last)];
      StartsSnoc(bodies + Closures(init), Closure(last), id);
      LastIsNew(init, last);
    }
  }

  lemma ClosuresSnoc(calls: seq<Call>, c: Call)
    ensures Closures(calls + [c]) == Closures(calls) + [Closure(c)]
  {
  }

  lemma LastIsNew(calls: seq<Call>, c: Call)
    requires DistinctIds(calls + [c])
    ensures DistinctIds(calls) && !Lists(calls, c.callId)
  {
    var more := calls + [c];
    forall i | 0 <= i < |calls| ensures calls[i].callId != c.callId {
      assert more[i].callId != more[|calls|].callId;
    }
    forall i, j | 0 <= i < j < |calls| ensures calls[i].callId != calls[j].callId {
      assert more[i].callId != more[j].callId;
    }
  }

  /** Once the prelude is written every started call has a completion, and no call gained a second. */
  lemma PreludeClosesEveryCall(bodies: seq<Body>, id: string)
    requires id != "" && Completions(bodies, id) <= 1
    ensures
      var after := bodies + FailurePrelude(bodies);
      && Starts(after, id) == Starts(bodies, id)
      && Completions(after, id) <= 1
      && (Starts(after, id) > 0 ==> Completions(after, id) == 1)
      && (Starts(after, id) == 0 ==> Completions(after, id) == Completions(bodies, id))
  {
    StartedCallsListStarts(bodies, id);
    UncompletedLists(StartedCalls(bodies), bodies, id);
    var begun := bodies + (if bodies == [] then [RunStarted] else []);
    if bodies == [] {
      StartsSnoc(bodies, RunStarted, id);
      assert begun == bodies + [RunStarted];
    } else {
      assert begun == bodies;
    }
    ClosuresCount(begun, Pending(bodies), id);
    assert bodies + FailurePrelude(bodies) == begun + Closures(Pending(bodies));
  }

  // ----- which closings, and in which order

  /** The name under which a call was started last. */
  function LastName(bodies: seq<Body>, id: string): Option<string> {
    if bodies == [] then None
    else
      var b := bodies[|bodies| - 1];
      if StartOf(b, id) then Some(b.toolName) else LastName(bodies[..|bodies| - 1], id)
  }

  /** Where a call was started first, or the length of the log. */
  function FirstStart(bodies: seq<Body>, id: string): (n: nat)
    ensures n <= |bodies|
  {
    if bodies == [] then 0
    else if StartOf(bodies[0], id) then 0
    else 1 + FirstStart(bodies[1..], id)
  }

  lemma {:induction false} FirstStartMeans(bodies: seq<Body>, id: string)
    ensures FirstStart(bodies, id) < |bodies| ==> StartOf(bodies[FirstStart(bodies, id)], id)
    ensures forall i :: 0 <= i < FirstStart(bodies, id) ==> !StartOf(bodies[i], id)
  {
    if bodies != [] && !StartOf(bodies[0], id) {
      FirstStartMeans(bodies[1..], id);
      assert forall i :: 0 < i < |bodies| ==> bodies[i] == bodies[1..][i - 1];
    }
  }

  lemma FirstStartSnoc(bodies: seq<Body>, b: Body, id: string)
    ensures FirstStart(bodies + [b], id) ==
            if FirstStart(bodies, id) < |bodies| then FirstStart(bodies, id)
            else if StartOf(b, id) then |bodies| else |bodies| + 1
  {
    FirstStartMeans(bodies, id);
    FirstStartMeans(bodies + [b], id);
    var n := FirstStart(bodies + [b], id);
    assert n < |bodies| ==> (bodies + [b])[n] == bodies[n];
    assert (bodies + [b])[|bodies|] == b;
    assert FirstStart(bodies, id) < |bodies| ==>
        (bodies + [b])[FirstStart(bodies, id)] == bodies[FirstStart(bodies, id)];
  }

  predicate NamedAsStarted(calls: seq<Call>, bodies: seq<Body>) {
    forall i :: 0 <= i < |calls| ==>
      LastName(bodies, calls[i].callId) == Some(calls[i].toolName) &&
      FirstStart(bodies, calls[i].callId) < |bodies|
  }

  predicate InOrderOfStart(calls: seq<Call>, bodies: seq<Body>) {
    forall i, j :: 0 <= i < j < |calls| ==>
      FirstStart(bodies, calls[i].callId) < FirstStart(bodies, calls[j].callId)
  }

  lemma OneMoreBody(calls: seq<Call>, bodies: seq<Body>, b: Body)
    requires NamedAsStarted(calls, bodies) && InOrderOfStart(calls, bodies)
    ensures InOrderOfStart(calls, bodies + [b])
    ensures forall i :: 0 <= i < |calls| ==>
              && FirstStart(bodies + [b], calls[i].callId) < |bodies|
              && LastName(bodies + [b], calls[i].callId) ==
                 if StartOf(b, calls[i].callId) then Some(b.toolName) else Some(calls[i].toolName)
  {
    assert (bodies + [b])[..|bodies|] == bodies;
    forall i | 0 <= i < |calls|
      ensures FirstStart(bodies + [b], calls[i].callId) == FirstStart(bodies, calls[i].callId)
    {
      FirstStartSnoc(bodies, b, calls[i].callId);
    }
  }

  lemma NewCallIsLast(calls: seq<Call>, bodies: seq<Body>, id: string, name: string)
    requires id != "" && calls == StartedCalls(bodies) && !Lists(calls, id)
    ensures FirstStart(bodies + [ToolStarted(id, name)], id) == |bodies|
    ensures LastName(bodies + [ToolStarted(id, name)], id) == Some(name)
  {
    StartedCallsListStarts(bodies, id);
    CountZeroIffAbsent(bodies, id);
    FirstStartMeans(bodies, id);
    FirstStartSnoc(bodies, ToolStarted(id, name), id);
  }

  lemma PutNamesAndOrders(bodies: seq<Body>, id: string, name: string)
    requires id != "" && NamedAsStarted(StartedCalls(bodies), bodies)
    requires InOrderOfStart(StartedCalls(bodies), bodies)
    ensures var more, put := bodies + [ToolStarted(id, name)], Put(StartedCalls(bodies), Call(id, name));
            NamedAsStarted(put, more) && InOrderOfStart(put, more)
  {
    var calls := StartedCalls(bodies);
    StartedCallsListStarts(bodies, id);
    IndexFindsListed(calls, id);
    OneMoreBody(calls, bodies, ToolStarted(id, name));
    if !Lists(calls, id) {
      NewCallIsLast(calls, bodies, id, name);
    }
  }

  lemma {:induction false} StartedAreNamedInOrder(bodies: seq<Body>)
    ensures NamedAsStarted(StartedCalls(bodies), bodies) && InOrderOfStart(StartedCalls(bodies), bodies)
  {
    if bodies != [] {
      var init, b := bodies[..|bodies| - 1], bodies[|bodies| - 1];
      StartedAreNamedInOrder(init);
      assert bodies == init + [b];
      OneMoreBody(StartedCalls(init), init, b);
      if b.ToolStarted? && b.callId != "" {
        PutNamesAndOrders(init, b.callId, b.toolName);
      } else {
        forall i | 0 <= i < |StartedCalls(init)| ensures !StartOf(b, StartedCalls(init)[i].callId) {
          StartedCallsListStarts(init, StartedCalls(init)[i].callId);
          assert Lists(StartedCalls(init), StartedCalls(init)[i].callId);
        }
      }
    }
  }

  lemma {:induction false} UncompletedKeepsOrder(calls: seq<Call>, bodies: seq<Body>)
    requires NamedAsStarted(calls, bodies) && InOrderOfStart(calls, bodies)
    ensures NamedAsStarted(Uncompleted(calls, bodies), bodies) && InOrderOfStart(Uncompleted(calls, bodies), bodies)
    ensures forall c :: c in Uncompleted(calls, bodies) ==> c in calls
  {
    if calls != [] {
      var n := |calls| - 1;
      UncompletedKeepsOrder(calls[..n], bodies);
      var rest := Uncompleted(calls[..n], bodies);
      forall i | 0 <= i < |rest|
        ensures FirstStart(bodies, rest[i].callId) < FirstStart(bodies, calls[n].callId)
      {
        assert rest[i] in calls[..n];
        var k :| 0 <= k < n && calls[k] == rest[i];
      }
    }
  }

  /** The calls that a failing run closes: each is reported as failed, after no time, under the name of its last
      start, and in the order of first starts. */
  lemma ClosingsAreNamedInOrder(bodies: seq<Body>, i: nat)
    requires i < |Closures(Pending(bodies))|
    ensures var b := Closures(Pending(bodies))[i];
            && b.ToolCompleted? && b == ToolCompleted(b.callId, b.toolName, "FAILED", 0)
            && LastName(bodies, b.callId) == Some(b.toolName)
            && forall j :: 0 <= j < i ==>
                 Closures(Pending(bodies))[j].ToolCompleted? &&
                 FirstStart(bodies, Closures(Pending(bodies))[j].callId) < FirstStart(bodies, b.callId)
  {
    StartedAreNamedInOrder(bodies);
    UncompletedKeepsOrder(StartedCalls(bodies), bodies);
  }

  // ----- on the ledger

  lemma AppendedBodies(l: Ledger, r: RunId, b: Body, route: Option<string>, now: int, o: RunId)
    requires Known(l, r)
    ensures
      Bodies(Log(Appended(l, r, b, route, now).events, o)) ==
      Bodies(Log(l.events, o)) + (if o == r then [b] else [])
  {
    var e := Event(r, l.runs[r].lastSequence + 1, b, now);
    LogSnoc(l.events, e, o);
    assert Bodies(Log(l.events, o) + [e]) == Bodies(Log(l.events, o)) + [b];
  }

  /** The log of a run under any transaction. */
  lemma ApplyExtendsLog(l: Ledger, a: Action, r: RunId)
    ensures LogOf(Apply(l, a), r) ==
            LogOf(l, r) +
            (if Accepted(l, a) && a.Append? && a.run == r then [a.body]
             else if Accepted(l, a) && a.Complete? && a.run == r then [RunCompleted(a.answer)] else [])
  {
    if Accepted(l, a) && a.Append? {
      AppendedBodies(l, a.run, a.body, a.route, a.now, r);
    } else if Accepted(l, a) && a.Complete? {
      AppendedBodies(l, a.run, RunCompleted(a.answer), None, a.now, r);
      assert Apply(l, a).events == Appended(l, a.run, RunCompleted(a.answer), None, a.now).events;
    } else {
      assert Apply(l, a).events == l.events;
    }
  }

  lemma {:induction false} AppendAllBodies(l: Ledger, r: RunId, bodies: seq<Body>, clock: nat -> int, o: RunId)
    requires Known(l, r)
    ensures
      Bodies(Log(AppendAll(l, r, bodies, clock).events, o)) ==
      Bodies(Log(l.events, o)) + (if o == r then bodies else [])
  {
    if bodies != [] {
      var n := |bodies| - 1;
      AppendAllBodies(l, r, bodies[..n], clock, o);
      AppendedBodies(AppendAll(l, r, bodies[..n], clock), r, bodies[n], None, clock(n), o);
      assert bodies == bodies[..n] + [bodies[n]];
    }
  }

  lemma AppendAllSnoc(l: Ledger, r: RunId, bodies: seq<Body>, b: Body, clock: nat -> int)
    requires Known(l, r)
    ensures AppendAll(l, r, bodies + [b], clock) ==
            Appended(AppendAll(l, r, bodies, clock), r, b, None, clock(|bodies|))
  {
    assert (bodies + [b])[..|bodies|] == bodies;
  }

  lemma {:induction false} AppendAllConcat(l: Ledger, r: RunId, first: seq<Body>, second: seq<Body>, clock: nat -> int)
    requires Known(l, r)
    ensures AppendAll(l, r, first + second, clock) ==
            AppendAll(AppendAll(l, r, first, clock), r, second, Later(clock, |first|))
  {
    if second == [] {
      assert first + second == first;
    } else {
      var init, last := second[..|second| - 1], second[|second| - 1];
      AppendAllConcat(l, r, first, init, clock);
      AppendAllSnoc(l, r, first + init, last, clock);
      assert first + second == (first + init) + [last];
    }
  }

  lemma {:induction false} AppendAllKeepsInv(l: Ledger, r: RunId, bodies: seq<Body>, clock: nat -> int)
    requires Inv(l) && Open(l, r)
    requires forall i :: 0 <= i < |bodies| - 1 ==> !Closing(bodies[i])
    ensures
      var l' := AppendAll(l, r, bodies, clock);
      && Inv(l') && |l'.runs| == |l.runs|
      && (Open(l', r) <==> bodies == [] || !Closing(bodies[|bodies| - 1]))
  {
    if bodies != [] {
      var n := |bodies| - 1;
      AppendAllKeepsInv(l, r, bodies[..n], clock);
      assert n > 0 ==> !Closing(bodies[..n][n - 1]);
      AppendKeepsInv(AppendAll(l, r, bodies[..n], clock), r, bodies[n], None, clock(n));
    }
  }

  // ----- what a log of tool events should look like

  ghost predicate OnceEach(bodies: seq<Body>) {
    forall id :: id != "" ==> Starts(bodies, id) <= 1 && Completions(bodies, id) <= 1
  }

  /** Every call started before a failure is completed before it. */
  ghost predicate FailureClosed(bodies: seq<Body>) {
    bodies != [] && bodies[|bodies| - 1].RunFailed? ==>
      forall id :: id != "" && Starts(bodies, id) > 0 ==> Completions(bodies, id) == 1
  }

  /** Failing an open run without interruption leaves no call open and completes none twice. */
  lemma FailedRunIsClosed(bodies: seq<Body>, code: string)
    requires OnceEach(bodies)
    ensures OnceEach(bodies + FailureBodies(bodies, code)) && FailureClosed(bodies + FailureBodies(bodies, code))
  {
    assert bodies + FailureBodies(bodies, code) == bodies + FailurePrelude(bodies) + [RunFailed(code)];
    var after := bodies + FailurePrelude(bodies);
    forall id | id != ""
      ensures Starts(after + [RunFailed(code)], id) <= 1 && Completions(after + [RunFailed(code)], id) <= 1
      ensures Starts(after + [RunFailed(code)], id) > 0 ==> Completions(after + [RunFailed(code)], id) == 1
    {
      PreludeClosesEveryCall(bodies, id);
      StartsSnoc(after, RunFailed(code), id);
    }
  }
}
