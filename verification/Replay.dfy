/** Reading the event log back: the bounded listing and the stream built on it. */
module Replay {
  import opened Common
  import opened Ledger
  import opened LedgerInvariant

  datatype Listing = NotFound | HistoryExpired | Rows(rows: seq<Event>)

  /** The rows of a log that are still inside the retention window. */
  function Retained(log: seq<Event>, cutoff: int): seq<Event> {
    if log == [] then []
    else
      var n := |log| - 1;
      if log[n].createdAt >= cutoff then Retained(log[..n], cutoff) + [log[n]] else Retained(log[..n], cutoff)
  }

  function Earliest(log: seq<Event>): Option<nat> {
    if log == [] then None
    else
      var n := |log| - 1;
      match Earliest(log[..n])
      case None => Some(log[n].sequence)
      case Some(m) => Some(if log[n].sequence < m then log[n].sequence else m)
  }

  function After(log: seq<Event>, sequence: nat): seq<Event> {
    if log == [] then []
    else
      var n := |log| - 1;
      if log[n].sequence > sequence then After(log[..n], sequence) + [log[n]] else After(log[..n], sequence)
  }

  /** Two guards on the earliest retained row, then a query over the retained rows. */
  function ListLog(log: seq<Event>, last: nat, after: nat, cutoff: int): Listing {
    var kept := Retained(log, cutoff);
    match Earliest(kept)
    case None => if last > after then HistoryExpired else Rows([])
    case Some(first) => if after + 1 < first then HistoryExpired else Rows(After(kept, after))
  }

  function ListEvents(l: Ledger, r: RunId, after: nat, cutoff: int): Listing {
    if Known(l, r) then ListLog(Log(l.events, r), l.runs[r].lastSequence, after, cutoff) else NotFound
  }

  ghost predicate TimesOrdered(log: seq<Event>) {
    forall i, j :: 0 <= i < j < |log| ==> log[i].createdAt <= log[j].createdAt
  }

  function Suffix(log: seq<Event>, after: nat): seq<Event> {
    if after <= |log| then log[after..] else []
  }

  /** How many rows at the front of an ordered log have expired. */
  ghost function ExpiredCount(log: seq<Event>, cutoff: int): nat
    ensures ExpiredCount(log, cutoff) <= |log|
  {
    if log == [] then 0
    else
      var n := |log| - 1;
      ExpiredCount(log[..n], cutoff) + (if log[n].createdAt < cutoff then 1 else 0)
  }

  lemma {:induction false} ExpiredArePrefix(log: seq<Event>, cutoff: int)
    requires TimesOrdered(log)
    ensures forall k :: 0 <= k < |log| ==> (log[k].createdAt < cutoff <==> k < ExpiredCount(log, cutoff))
    ensures Retained(log, cutoff) == log[ExpiredCount(log, cutoff)..]
  {
    if log != [] {
      var n := |log| - 1;
      var init := log[..n];
      assert log == init + [log[n]] && forall k :: 0 <= k < n ==> init[k] == log[k];
      ExpiredArePrefix(init, cutoff);
      LastExpires(init, log[n], cutoff);
    }
  }

  lemma LastExpires(init: seq<Event>, e: Event, cutoff: int)
    requires TimesOrdered(init + [e])
    requires forall k :: 0 <= k < |init| ==> (init[k].createdAt < cutoff <==> k < ExpiredCount(init, cutoff))
    ensures e.createdAt < cutoff ==> ExpiredCount(init, cutoff) == |init|
    ensures init[ExpiredCount(init, cutoff)..] + [e] == (init + [e])[ExpiredCount(init, cutoff)..]
  {
    var n := ExpiredCount(init, cutoff);
    if n < |init| {
      assert (init + [e])[n] == init[n] && (init + [e])[|init|] == e;
    }
  }

  lemma {:induction false} EarliestOfNumbered(log: seq<Event>, first: nat)
    requires forall k :: 0 <= k < |log| ==> log[k].sequence == first + k
    ensures Earliest(log) == if log == [] then None else Some(first)
  {
    if log != [] {
      EarliestOfNumbered(log[..|log| - 1], first);
    }
  }

  lemma {:induction false} AfterOfNumbered(log: seq<Event>, first: nat, after: nat)
    requires forall k :: 0 <= k < |log| ==> log[k].sequence == first + k
    requires first <= after + 1
    ensures After(log, after) == Suffix(log, after + 1 - first)
  {
    if log != [] {
      var n := |log| - 1;
      AfterOfNumbered(log[..n], first, after);
      SuffixSnoc(log[..n], log[n], after + 1 - first);
      assert log == log[..n] + [log[n]];
    }
  }

  lemma SuffixSnoc(log: seq<Event>, e: Event, k: nat)
    ensures Suffix(log + [e], k) == if k <= |log| then Suffix(log, k) + [e] else []
  {
  }

  /** An event the reader has not seen yet is outside the retention window. */
  ghost predicate MissingHistory(log: seq<Event>, after: nat, cutoff: int) {
    exists k :: after <= k < |log| && log[k].createdAt < cutoff
  }

  lemma ListLogIsExact(log: seq<Event>, after: nat, cutoff: int)
    requires TimesOrdered(log) && forall k :: 0 <= k < |log| ==> log[k].sequence == k + 1
    ensures ListLog(log, |log|, after, cutoff) ==
      if MissingHistory(log, after, cutoff) then HistoryExpired else Rows(Suffix(log, after))
  {
    var e := ExpiredCount(log, cutoff);
    ExpiredArePrefix(log, cutoff);
    var kept := log[e..];
    EarliestOfNumbered(kept, e + 1);
    if after < e {
      assert log[after].createdAt < cutoff;
    } else {
      AfterOfNumbered(kept, e + 1, after);
      assert Suffix(kept, after - e) == Suffix(log, after);
      assert !MissingHistory(log, after, cutoff);
    }
  }

  /** The listing is exact: it fails precisely when an event the reader still needs has expired,
      and otherwise returns precisely the events after the given sequence. */
  lemma ListingIsExact(l: Ledger, r: RunId, after: nat, cutoff: int)
    requires Inv(l) && Known(l, r) && TimesOrdered(Log(l.events, r))
    ensures ListEvents(l, r, after, cutoff) ==
      if MissingHistory(Log(l.events, r), after, cutoff) then HistoryExpired else Rows(Suffix(Log(l.events, r), after))
  {
    assert RunOk(l, r);
    ListLogIsExact(Log(l.events, r), after, cutoff);
  }

  // ----- the log only grows, in time order

  lemma ApplyExtendsLog(l: Ledger, a: Action, r: RunId)
    ensures Log(l.events, r) <= Log(Apply(l, a).events, r)
    ensures Known(l, r) ==> Known(Apply(l, a), r)
  {
    if Accepted(l, a) && (a.Append? || a.Complete?) {
      var b := if a.Append? then a.body else RunCompleted(a.answer);
      LogSnoc(l.events, Event(a.run, l.runs[a.run].lastSequence + 1, b, a.now), r);
    }
  }

  ghost predicate EventsBefore(events: seq<Event>, now: int) {
    && TimesOrdered(events)
    && forall k :: 0 <= k < |events| ==> events[k].createdAt <= now
  }

  lemma {:induction false} OrderedTableOrderedLog(events: seq<Event>, r: RunId)
    requires TimesOrdered(events)
    ensures TimesOrdered(Log(events, r))
    ensures forall e :: e in Log(events, r) ==> e in events
  {
    if events != [] {
      var n := |events| - 1;
      OrderedTableOrderedLog(events[..n], r);
      var log := Log(events[..n], r);
      forall e | e in Log(events, r) ensures e in events {
        assert e in log ==> e in events[..n];
      }
      if events[n].run == r {
        forall i | 0 <= i < |log| ensures log[i].createdAt <= events[n].createdAt {
          assert log[i] in events[..n];
          var j :| 0 <= j < n && events[j] == log[i];
        }
      }
    }
  }

  // ----- the stream

  datatype Phase = Polling | Emitting | CompletedStream | FailedStream

  datatype Stream = Stream(after: nat, last: nat, pending: seq<Event>, sent: seq<Event>, phase: Phase)

  /** `clock` is the latest time at which an event was stamped. */
  datatype Session = Session(ledger: Ledger, stream: Stream, clock: int)

  datatype StreamStep =
    | Elsewhere(action: Action)
    | Poll(cutoff: int)
    | Emit
    | Check

  /** Appends and completions stamp their event; the clock does not run backwards. */
  predicate TimeMovesOn(clock: int, a: Action) {
    (a.Append? || a.Complete?) ==> clock <= a.now
  }

  ghost function Next(s: Session, r: RunId, step: StreamStep): Session {
    var st := s.stream;
    match step
    case Elsewhere(a) =>
      if !TimeMovesOn(s.clock, a) then s
      else s.(ledger := Apply(s.ledger, a), clock := if a.Append? || a.Complete? then a.now else s.clock)
    case Poll(cutoff) =>
      if st.phase != Polling then s
      else (match ListEvents(s.ledger, r, st.last, cutoff)
            case Rows(rows) => s.(stream := st.(pending := rows, phase := Emitting))
            case _ => s.(stream := st.(phase := FailedStream)))
    case Emit =>
      if st.phase != Emitting || st.pending == [] then s
      else s.(stream := st.(last := st.pending[0].sequence, sent := st.sent + [st.pending[0]],
          pending := st.pending[1..]))
    case Check =>
      if st.phase != Emitting || st.pending != [] then s
      else if Known(s.ledger, r) && Terminal(s.ledger.runs[r].status) && st.last >= s.ledger.runs[r].lastSequence
      then s.(stream := st.(phase := CompletedStream))
      else s.(stream := st.(phase := Polling))
  }

  ghost function Play(s: Session, r: RunId, steps: seq<StreamStep>): Session {
    if steps == [] then s else Next(Play(s, r, steps[..|steps| - 1]), r, steps[|steps| - 1])
  }

  /** Sent and listed events are the next ones of the log; a completed stream has sent all of it. */
  ghost predicate StreamFits(st: Stream, log: seq<Event>, ended: bool) {
    && st.sent + st.pending <= Suffix(log, st.after)
    && st.last == st.after + |st.sent|
    && (st.phase == Polling ==> st.pending == [])
    && (st.phase == CompletedStream ==> st.pending == [] && ended && st.sent == Suffix(log, st.after))
  }

  ghost predicate StreamInv(s: Session, r: RunId) {
    && Inv(s.ledger) && Known(s.ledger, r)
    && EventsBefore(s.ledger.events, s.clock)
    && StreamFits(s.stream, Log(s.ledger.events, r), Terminal(s.ledger.runs[r].status))
  }

  lemma SuffixGrows(log: seq<Event>, log': seq<Event>, after: nat)
    requires log <= log'
    ensures Suffix(log, after) <= Suffix(log', after)
  {
  }

  lemma FitsLongerLog(st: Stream, log: seq<Event>, log': seq<Event>, ended: bool, ended': bool)
    requires StreamFits(st, log, ended) && log <= log'
    requires ended ==> ended' && log' == log
    ensures StreamFits(st, log', ended')
  {
    SuffixGrows(log, log', st.after);
  }

  lemma TrafficIsStamped(s: Session, r: RunId, a: Action)
    requires EventsBefore(s.ledger.events, s.clock) && TimeMovesOn(s.clock, a)
    ensures var s' := Next(s, r, Elsewhere(a)); EventsBefore(s'.ledger.events, s'.clock)
  {
  }

  lemma ElsewhereKeepsStreamInv(s: Session, r: RunId, a: Action)
    requires StreamInv(s, r)
    ensures StreamInv(Next(s, r, Elsewhere(a)), r)
  {
    if TimeMovesOn(s.clock, a) {
      var l' := Apply(s.ledger, a);
      TrafficIsStamped(s, r, a);
      ApplyKeepsInv(s.ledger, a);
      ApplyExtendsLog(s.ledger, a, r);
      var ended := Terminal(s.ledger.runs[r].status);
      if ended {
        ApplyFreezesTerminal(s.ledger, a, r);
      }
      FitsLongerLog(s.stream, Log(s.ledger.events, r), Log(l'.events, r), ended, Terminal(l'.runs[r].status));
    }
  }

  /** Listing from the last sent event continues exactly where the stream stands. */
  lemma ListedRowsFit(st: Stream, log: seq<Event>, ended: bool)
    requires StreamFits(st, log, ended) && st.phase == Polling
    ensures StreamFits(st.(pending := Suffix(log, st.last), phase := Emitting), log, ended)
  {
    if st.sent != [] {
      assert Suffix(log, st.after) == st.sent + log[st.last..];
    }
  }

  lemma PollKeepsStreamInv(s: Session, r: RunId, cutoff: int)
    requires StreamInv(s, r)
    ensures StreamInv(Next(s, r, Poll(cutoff)), r)
  {
    if s.stream.phase == Polling {
      OrderedTableOrderedLog(s.ledger.events, r);
      ListingIsExact(s.ledger, r, s.stream.last, cutoff);
      ListedRowsFit(s.stream, Log(s.ledger.events, r), Terminal(s.ledger.runs[r].status));
    }
  }

  lemma CheckKeepsStreamInv(s: Session, r: RunId)
    requires StreamInv(s, r)
    ensures StreamInv(Next(s, r, Check), r)
  {
    assert RunOk(s.ledger, r);
  }

  lemma EmitKeepsStreamInv(s: Session, r: RunId)
    requires StreamInv(s, r)
    ensures StreamInv(Next(s, r, Emit), r)
  {
    var st := s.stream;
    if st.phase == Emitting && st.pending != [] {
      assert RunOk(s.ledger, r);
      var log := Log(s.ledger.events, r);
      assert (st.sent + st.pending)[|st.sent|] == Suffix(log, st.after)[|st.sent|] == log[st.last];
      assert (st.sent + [st.pending[0]]) + st.pending[1..] == st.sent + st.pending;
    }
  }

  lemma StepKeepsStreamInv(s: Session, r: RunId, step: StreamStep)
    requires StreamInv(s, r)
    ensures StreamInv(Next(s, r, step), r)
  {
    match step
    case Elsewhere(a) => ElsewhereKeepsStreamInv(s, r, a);
    case Poll(cutoff) => PollKeepsStreamInv(s, r, cutoff);
    case Emit => EmitKeepsStreamInv(s, r);
    case Check => CheckKeepsStreamInv(s, r);
  }

  lemma {:induction false} StartNeverMoves(s: Session, r: RunId, steps: seq<StreamStep>)
    ensures Play(s, r, steps).stream.after == s.stream.after
  {
    if steps != [] {
      StartNeverMoves(s, r, steps[..|steps| - 1]);
    }
  }

  lemma {:induction false} EveryInterleavingKeepsStreamInv(s: Session, r: RunId, steps: seq<StreamStep>)
    requires StreamInv(s, r)
    ensures StreamInv(Play(s, r, steps), r)
  {
    if steps != [] {
      var n := |steps| - 1;
      EveryInterleavingKeepsStreamInv(s, r, steps[..n]);
      var before := Play(s, r, steps[..n]);
      StepKeepsStreamInv(before, r, steps[n]);
    }
  }

  lemma SentIsNumberedSuffix(s: Session, r: RunId)
    requires StreamInv(s, r)
    ensures
      var log := Log(s.ledger.events, r);
      && s.stream.sent <= Suffix(log, s.stream.after)
      && (forall k :: 0 <= k < |s.stream.sent| ==> s.stream.sent[k].sequence == s.stream.after + k + 1)
  {
    assert RunOk(s.ledger, r);
    var st := s.stream;
    var log := Log(s.ledger.events, r);
    assert st.sent <= st.sent + st.pending;
    forall k | 0 <= k < |st.sent| ensures st.sent[k].sequence == st.after + k + 1 {
      assert st.sent[k] == (st.sent + st.pending)[k] == Suffix(log, st.after)[k] == log[st.after + k];
    }
  }

  /** A stream opened on any reachable ledger and interleaved with any store traffic: what it has
      sent is at every moment a gap-free, duplicate-free prefix of the events after its start, and
      a stream that stops as completed has sent all of them, the terminal event last. */
  lemma StreamIsExact(trace: seq<Action>, clock: int, r: RunId, after: nat, steps: seq<StreamStep>)
    requires EventsBefore(Exec(trace).events, clock) && Known(Exec(trace), r)
    ensures
      var end := Play(Session(Exec(trace), Stream(after, after, [], [], Polling), clock), r, steps);
      var log := Log(end.ledger.events, r);
      && end.stream.sent <= Suffix(log, after)
      && (forall k :: 0 <= k < |end.stream.sent| ==> end.stream.sent[k].sequence == after + k + 1)
      && (end.stream.phase == CompletedStream ==>
          && end.stream.sent == Suffix(log, after)
          && (after < |log| ==>
              end.stream.sent != [] && Closing(end.stream.sent[|end.stream.sent| - 1].body)))
  {
    EveryTraceKeepsInv(trace);
    var start := Session(Exec(trace), Stream(after, after, [], [], Polling), clock);
    EveryInterleavingKeepsStreamInv(start, r, steps);
    StartNeverMoves(start, r, steps);
    SentIsNumberedSuffix(Play(start, r, steps), r);
    assert RunOk(Play(start, r, steps).ledger, r);
  }

  // ----- the stream gets somewhere

  /** A poll fails exactly when an event the reader still needs has expired; otherwise all newer events wait to
      be sent. */
  lemma PollFailsIff(s: Session, r: RunId, cutoff: int)
    requires StreamInv(s, r) && s.stream.phase == Polling
    ensures var log, st := Log(s.ledger.events, r), Next(s, r, Poll(cutoff)).stream;
            && (st.phase == FailedStream <==> MissingHistory(log, s.stream.last, cutoff))
            && (st.phase != FailedStream ==> st.phase == Emitting && st.pending == Suffix(log, s.stream.last))
            && st.sent == s.stream.sent
  {
    OrderedTableOrderedLog(s.ledger.events, r);
    ListingIsExact(s.ledger, r, s.stream.last, cutoff);
  }

  function Emits(n: nat): seq<StreamStep> {
    seq(n, i => Emit)
  }

  lemma {:induction false} PlayConcat(s: Session, r: RunId, a: seq<StreamStep>, b: seq<StreamStep>)
    ensures Play(s, r, a + b) == Play(Play(s, r, a), r, b)
  {
    if b == [] {
      assert a + b == a;
    } else {
      var n := |b| - 1;
      PlayConcat(s, r, a, b[..n]);
      assert (a + b)[..|a + b| - 1] == a + b[..n];
    }
  }

  lemma OneEmit(s: Session, r: RunId, sent: seq<Event>, e: Event, pending: seq<Event>)
    requires s.stream.phase == Emitting && s.stream.sent == sent && s.stream.pending == [e] + pending
    ensures var s' := Next(s, r, Emit);
            && s'.ledger == s.ledger && s'.clock == s.clock && s'.stream.phase == Emitting
            && s'.stream.after == s.stream.after && s'.stream.sent == sent + [e] && s'.stream.pending == pending
  {
    assert ([e] + pending)[1..] == pending;
  }

  lemma {:induction false} EmitsSendAll(s: Session, r: RunId, n: nat)
    requires s.stream.phase == Emitting && n <= |s.stream.pending|
    ensures var s' := Play(s, r, Emits(n));
            && s'.ledger == s.ledger && s'.clock == s.clock && s'.stream.phase == Emitting
            && s'.stream.after == s.stream.after && s'.stream.pending == s.stream.pending[n..]
            && s'.stream.sent == s.stream.sent + s.stream.pending[..n]
  {
    if n > 0 {
      EmitsSendAll(s, r, n - 1);
      assert Emits(n)[..n - 1] == Emits(n - 1);
      var e, all := s.stream.pending[n - 1], s.stream.pending;
      assert all[n - 1..] == [e] + all[n..];
      OneEmit(Play(s, r, Emits(n - 1)), r, s.stream.sent + all[..n - 1], e, all[n..]);
      assert s.stream.sent + all[..n] == s.stream.sent + all[..n - 1] + [e];
    }
  }

  /** Once everything listed is sent, the check ends the stream exactly when the run has ended and nothing was
      written since the listing; otherwise it polls again. */
  lemma CheckEndsIff(s: Session, r: RunId)
    requires StreamInv(s, r) && s.stream.phase == Emitting && s.stream.pending == []
    ensures var log, phase := Log(s.ledger.events, r), Next(s, r, Check).stream.phase;
            && (phase == CompletedStream <==> Ended(log) && s.stream.last >= |log|)
            && (phase == Polling <==> phase != CompletedStream)
  {
    assert RunOk(s.ledger, r);
  }

  /** One round of polling and sending. */
  ghost function Round(s: Session, r: RunId, cutoff: int): seq<StreamStep> {
    [Poll(cutoff)] + Emits(|Next(s, r, Poll(cutoff)).stream.pending|) + [Check]
  }

  /** Main result: a polling stream of a run that has ended needs one undisturbed round to have sent all of the
      log after its start and stop as completed, unless an event it still needs has expired. */
  lemma EndedStreamCompletes(s: Session, r: RunId, cutoff: int)
    requires StreamInv(s, r) && s.stream.phase == Polling
    requires Ended(Log(s.ledger.events, r)) && !MissingHistory(Log(s.ledger.events, r), s.stream.last, cutoff)
    ensures var end := Play(s, r, Round(s, r, cutoff)).stream;
            end.phase == CompletedStream && end.sent == Suffix(Log(s.ledger.events, r), s.stream.after)
  {
    var sent := SendsEverything(s, r, cutoff);
    CheckEndsIff(sent, r);
    CheckKeepsStreamInv(sent, r);
  }

  lemma SendsEverything(s: Session, r: RunId, cutoff: int) returns (sent: Session)
    requires StreamInv(s, r) && s.stream.phase == Polling
    requires !MissingHistory(Log(s.ledger.events, r), s.stream.last, cutoff)
    ensures StreamInv(sent, r) && sent.stream.phase == Emitting && sent.stream.pending == []
    ensures sent.ledger == s.ledger && sent.stream.after == s.stream.after
    ensures sent.stream.last >= |Log(s.ledger.events, r)|
    ensures Play(s, r, Round(s, r, cutoff)) == Next(sent, r, Check)
  {
    var polled := Next(s, r, Poll(cutoff));
    var n := |polled.stream.pending|;
    PollFailsIff(s, r, cutoff);
    PollKeepsStreamInv(s, r, cutoff);
    EmitsSendAll(polled, r, n);
    EveryInterleavingKeepsStreamInv(polled, r, Emits(n));
    RoundIs(s, r, cutoff);
    sent := Play(polled, r, Emits(n));
    assert |sent.stream.sent| == |s.stream.sent| + |Suffix(Log(s.ledger.events, r), s.stream.last)|;
  }

  lemma RoundIs(s: Session, r: RunId, cutoff: int)
    ensures var polled := Next(s, r, Poll(cutoff));
            Play(s, r, Round(s, r, cutoff)) == Next(Play(polled, r, Emits(|polled.stream.pending|)), r, Check)
  {
    var n := |Next(s, r, Poll(cutoff)).stream.pending|;
    PlayConcat(s, r, [Poll(cutoff)] + Emits(n), [Check]);
    PlayConcat(s, r, [Poll(cutoff)], Emits(n));
    PlayOne(s, r, Poll(cutoff));
    PlayOne(Play(Next(s, r, Poll(cutoff)), r, Emits(n)), r, Check);
  }

  lemma PlayOne(s: Session, r: RunId, step: StreamStep)
    ensures Play(s, r, [step]) == Next(s, r, step)
  {
    assert [step][..0] == [];
  }

  // ----- the order of event times over a whole trace

  ghost predicate ClockOrdered(trace: seq<Action>, clock: int) {
    trace != [] ==>
      var last := trace[|trace| - 1];
      if last.Append? || last.Complete?
      then last.now <= clock && ClockOrdered(trace[..|trace| - 1], last.now)
      else ClockOrdered(trace[..|trace| - 1], clock)
  }

  /** Transactions stamped in order leave an event table stamped in order. */
  lemma {:induction false} OrderedTraceOrderedEvents(trace: seq<Action>, clock: int)
    requires ClockOrdered(trace, clock)
    ensures EventsBefore(Exec(trace).events, clock)
  {
    if trace != [] {
      var last := trace[|trace| - 1];
      OrderedTraceOrderedEvents(trace[..|trace| - 1], if last.Append? || last.Complete? then last.now else clock);
    }
  }
}
