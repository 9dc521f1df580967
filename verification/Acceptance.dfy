/** The reader's verdict on a whole event stream, and which logs of the ledger it accepts. */
module Acceptance {
  import opened Common
  import opened Ledger
  import opened ConversationState
  import opened LedgerInvariant
  import Transactions = Ledger
  import opened ToolEvents
  import AgentRuntime
  import Sse

  /** A parsed event: the run and number in its identifier, the schema version, run and number in its
      envelope, and its body. `timed` says that the payload has a whole number of milliseconds. */
  datatype Received = Received(
    idRun: RunId, idNumber: nat, schema: string, run: RunId, number: nat, body: Body, timed: bool)

  const SCHEMA: string := "1.1"

  /** What a scenario expects of its stream. */
  datatype Case = Case(terminal: string, structure: Option<seq<string>>, errorCode: Option<string>)

  datatype Verdict = Accepted | EmptyStream | WrongTerminal | WrongStructure | WrongEnvelope | WrongError | WrongAnswer

  function NameOf(b: Body): string {
    match b
    case RunStarted => "run.started"
    case RouteSelected(_) => "route.selected"
    case RetrievalCompleted(_) => "retrieval.completed"
    case CitationAdded(_) => "citation.added"
    case ToolStarted(_, _) => "tool.started"
    case ToolCompleted(_, _, _, _) => "tool.completed"
    case MapResultReady(_) => "map.result"
    case AnswerDelta(_) => "answer.delta"
    case RunCompleted(_) => "run.completed"
    case RunFailed(_) => "run.failed"
    case RunCancelled(_) => "run.cancelled"
  }

  function Names(events: seq<Received>): seq<string> {
    seq(|events|, i requires 0 <= i < |events| => NameOf(events[i].body))
  }

  function Terminals(events: seq<Received>): seq<string> {
    if events == [] then []
    else
      var e := events[|events| - 1];
      Terminals(events[..|events| - 1]) + (if Closing(e.body) then [NameOf(e.body)] else [])
  }

  predicate WellFormed(events: seq<Received>) {
    forall k :: 0 <= k < |events| ==> WellFormedAt(events, k)
  }

  predicate WellFormedAt(events: seq<Received>, k: nat)
    requires k < |events|
  {
    var e := events[k];
    && e.schema == SCHEMA && e.number == k + 1
    && e.idRun == e.run && e.idNumber == k + 1
    && (e.body.ToolCompleted? ==> e.timed)
  }

  function BodiesOf(events: seq<Received>): seq<Body> {
    seq(|events|, i requires 0 <= i < |events| => events[i].body)
  }

  function Text(events: seq<Received>): string {
    AgentRuntime.StreamedText(BodiesOf(events))
  }

  function ErrorOf(b: Body): Option<string> {
    if b.RunFailed? then Some(b.code) else None
  }

  function AnswerOf(b: Body): Option<string> {
    if b.RunCompleted? then Some(b.answer) else None
  }

  function Judge(c: Case, events: seq<Received>): Verdict {
    if events == [] then EmptyStream
    else
      var last := events[|events| - 1].body;
      if Terminals(events) != [c.terminal] || NameOf(last) != c.terminal then WrongTerminal
      else if c.structure.Some? && Sse.Structure(Names(events)) != c.structure.value then WrongStructure
      else if !WellFormed(events) then WrongEnvelope
      else if c.errorCode.GetOr("") != "" && ErrorOf(last) != c.errorCode then WrongError
      else if c.terminal == "run.completed" && Some(Text(events)) != AnswerOf(last) then WrongAnswer
      else Accepted
  }

  lemma OneMoreName(events: seq<Received>, i: nat)
    requires i < |events|
    ensures Names(events[..i + 1]) == Names(events[..i]) + [NameOf(events[i].body)]
    ensures Terminals(events[..i + 1]) ==
            Terminals(events[..i]) + (if Closing(events[i].body) then [NameOf(events[i].body)] else [])
  {
    assert events[..i + 1][..i] == events[..i];
  }

  method ListNames(events: seq<Received>) returns (names: seq<string>, terminals: seq<string>)
    ensures names == Names(events) && terminals == Terminals(events)
  {
    names, terminals := [], [];
    for i := 0 to |events|
      invariant terminals == Terminals(events[..i]) && names == Names(events[..i])
    {
      OneMoreName(events, i);
      names := names + [NameOf(events[i].body)];
      if Closing(events[i].body) {
        terminals := terminals + [NameOf(events[i].body)];
      }
    }
    assert events[..|events|] == events;
  }

  method CheckEnvelopes(events: seq<Received>) returns (ok: bool)
    ensures ok == WellFormed(events)
  {
    for i := 0 to |events|
      invariant forall k :: 0 <= k < i ==> WellFormedAt(events, k)
    {
      var e := events[i];
      if e.schema != SCHEMA || e.number != i + 1 {
        assert !WellFormedAt(events, i);
        return false;
      }
      if e.idRun != e.run || e.idNumber != i + 1 || (e.body.ToolCompleted? && !e.timed) {
        assert !WellFormedAt(events, i);
        return false;
      }
    }
    return true;
  }

  method JoinAnswer(events: seq<Received>) returns (answer: string)
    ensures answer == Text(events)
  {
    answer := "";
    ghost var bodies := BodiesOf(events);
    for i := 0 to |events|
      invariant answer == AgentRuntime.StreamedText(bodies[..i])
    {
      assert bodies[..i + 1][..i] == bodies[..i];
      if events[i].body.AnswerDelta? {
        answer := answer + events[i].body.content;
      }
    }
    assert bodies[..|events|] == bodies;
  }

  method ValidateSse(c: Case, events: seq<Received>) returns (v: Verdict)
    ensures v == Judge(c, events)
  {
    if events == [] {
      return EmptyStream;
    }
    var names, terminals := ListNames(events);
    if terminals != [c.terminal] || names[|names| - 1] != c.terminal {
      return WrongTerminal;
    }
    if c.structure.Some? && Sse.Structure(names) != c.structure.value {
      return WrongStructure;
    }
    var wellFormed := CheckEnvelopes(events);
    if !wellFormed {
      return WrongEnvelope;
    }
    var last := events[|events| - 1].body;
    if c.errorCode.GetOr("") != "" && ErrorOf(last) != c.errorCode {
      return WrongError;
    }
    if c.terminal == "run.completed" {
      var answer := JoinAnswer(events);
      if Some(answer) != AnswerOf(last) {
        return WrongAnswer;
      }
    }
    return Accepted;
  }

  // ----- what the verdict means

  lemma {:induction false} CountTerminals(events: seq<Received>, k: nat)
    requires k < |events| && Closing(events[k].body)
    ensures |Terminals(events)| >= 1
    ensures forall j :: 0 <= j < |events| && j != k && Closing(events[j].body) ==> |Terminals(events)| >= 2
  {
    var n := |events| - 1;
    if k < n {
      CountTerminals(events[..n], k);
    } else {
      forall j | 0 <= j < n && Closing(events[j].body) ensures |Terminals(events)| >= 2 {
        CountTerminals(events[..n], j);
      }
    }
  }

  /** The name under which the reader collapses pieces is that of answer pieces alone. */
  lemma OnlyPiecesAreCollapsed(b: Body)
    ensures NameOf(b) == Sse.DELTA <==> b.AnswerDelta?
    ensures NameOf(b) != Sse.DELTAS
  {
    assert NameOf(b)[0] == 'a' <==> b.AnswerDelta?;
    assert b.AnswerDelta? ==> |NameOf(b)| < |Sse.DELTAS|;
  }

  /** A body that is no ending has the name of none. */
  lemma OnlyEndingsAreNamedSo(a: Body, b: Body)
    requires Closing(a) && NameOf(a) == NameOf(b)
    ensures Closing(b)
  {
    assert NameOf(a)[0] == 'r' && NameOf(a)[1] == 'u' && NameOf(a)[4] in {'c', 'f'};
  }

  /** The last event ends the run as expected, and no other ends it. */
  predicate EndsOnce(c: Case, events: seq<Received>)
    requires events != []
  {
    var n := |events| - 1;
    && Closing(events[n].body) && NameOf(events[n].body) == c.terminal
    && forall k :: 0 <= k < n ==> !Closing(events[k].body)
  }

  lemma TerminalsMean(c: Case, events: seq<Received>)
    requires events != []
    ensures (Terminals(events) == [c.terminal] && NameOf(events[|events| - 1].body) == c.terminal) <==>
            EndsOnce(c, events)
  {
    var n := |events| - 1;
    if EndsOnce(c, events) {
      NoTerminals(events[..n]);
    }
    if Terminals(events) == [c.terminal] && NameOf(events[n].body) == c.terminal {
      var k := TerminalComesFrom(events);
      OnlyEndingsAreNamedSo(events[k].body, events[n].body);
      CountTerminals(events, n);
    }
  }

  lemma {:induction false} TerminalComesFrom(events: seq<Received>) returns (k: nat)
    requires |Terminals(events)| == 1
    ensures k < |events| && Closing(events[k].body) && NameOf(events[k].body) == Terminals(events)[0]
  {
    var n := |events| - 1;
    if Closing(events[n].body) {
      k := n;
    } else {
      k := TerminalComesFrom(events[..n]);
    }
  }

  /** The text of the answer pieces, in order. */
  predicate Tellings(events: seq<Received>, answer: string) {
    if events == [] then answer == ""
    else
      var n := |events| - 1;
      if events[n].body.AnswerDelta? then
        var piece := events[n].body.content;
        && |piece| <= |answer| && answer[|answer| - |piece|..] == piece
        && Tellings(events[..n], answer[..|answer| - |piece|])
      else Tellings(events[..n], answer)
  }

  lemma {:induction false} TextIsTold(events: seq<Received>, answer: string)
    ensures Tellings(events, answer) <==> answer == Text(events)
  {
    if events != [] {
      var n := |events| - 1;
      assert BodiesOf(events)[..n] == BodiesOf(events[..n]);
      if events[n].body.AnswerDelta? {
        var piece := events[n].body.content;
        if |piece| <= |answer| {
          TextIsTold(events[..n], answer[..|answer| - |piece|]);
        }
        TextIsTold(events[..n], Text(events[..n]));
        assert Text(events) == Text(events[..n]) + piece;
        assert |piece| <= |answer| ==> answer == answer[..|answer| - |piece|] + answer[|answer| - |piece|..];
      } else {
        TextIsTold(events[..n], answer);
        assert Text(events) == Text(events[..n]) + "" == Text(events[..n]);
      }
    }
  }

  /** The checks of a stream that is not empty. */
  predicate Passes(c: Case, events: seq<Received>, check: Verdict)
    requires events != []
  {
    var last := events[|events| - 1].body;
    match check
    case WrongTerminal => EndsOnce(c, events)
    case WrongStructure => c.structure.Some? ==> Sse.Structure(Names(events)) == c.structure.value
    case WrongEnvelope =>
      forall k :: 0 <= k < |events| ==>
        && events[k].schema == "1.1" && events[k].number == k + 1 && events[k].idNumber == k + 1
        && events[k].idRun == events[k].run && (events[k].body.ToolCompleted? ==> events[k].timed)
    case WrongError =>
      c.errorCode.Some? && c.errorCode.value != "" ==> last.RunFailed? && last.code == c.errorCode.value
    case WrongAnswer => last.RunCompleted? ==> Tellings(events, last.answer)
    case _ => true
  }

  /** Main result: a stream is accepted exactly when it ends once and as expected, has the expected structure,
      numbers its envelopes from one, carries the expected error and tells its answer; otherwise the verdict
      names the first of these that fails. */
  lemma VerdictIsFirstFailure(c: Case, events: seq<Received>)
    ensures Judge(c, events) == EmptyStream <==> events == []
    ensures events != [] ==>
              Judge(c, events) ==
              if !Passes(c, events, WrongTerminal) then WrongTerminal
              else if !Passes(c, events, WrongStructure) then WrongStructure
              else if !Passes(c, events, WrongEnvelope) then WrongEnvelope
              else if !Passes(c, events, WrongError) then WrongError
              else if !Passes(c, events, WrongAnswer) then WrongAnswer
              else Accepted
  {
    if events != [] {
      var last := events[|events| - 1].body;
      TerminalsMean(c, events);
      assert WellFormed(events) <==> Passes(c, events, WrongEnvelope) by {
        assert forall k :: 0 <= k < |events| ==> (WellFormedAt(events, k) <==>
            && events[k].schema == "1.1" && events[k].number == k + 1 && events[k].idNumber == k + 1
            && events[k].idRun == events[k].run && (events[k].body.ToolCompleted? ==> events[k].timed));
      }
      if last.RunCompleted? {
        TextIsTold(events, last.answer);
      }
      if EndsOnce(c, events) {
        assert NameOf(last)[4] == 'c' && NameOf(last)[5] == 'o' <==> last.RunCompleted?;
        assert "run.completed"[4] == 'c' && "run.completed"[5] == 'o';
      }
    }
  }

  // ----- what the validator says about the ledger

  /** The stream of a run, read from its first event on. */
  function Stream(log: seq<Event>): seq<Received> {
    seq(|log|, i requires 0 <= i < |log| =>
      Received(log[i].run, log[i].sequence, SCHEMA, log[i].run, log[i].sequence, log[i].body, true))
  }

  function EndName(s: Status): string {
    match s
    case Succeeded => "run.completed"
    case Failed => "run.failed"
    case Cancelled => "run.cancelled"
    case _ => ""
  }

  lemma {:induction false} NoTerminals(events: seq<Received>)
    requires forall k :: 0 <= k < |events| ==> !Closing(events[k].body)
    ensures Terminals(events) == []
  {
    if events != [] {
      NoTerminals(events[..|events| - 1]);
    }
  }

  lemma OnlyLastIsTerminal(log: seq<Event>)
    requires LogWellFormed(log) && Ended(log)
    ensures Terminals(Stream(log)) == [NameOf(log[|log| - 1].body)] && WellFormed(Stream(log))
  {
    var events := Stream(log);
    NoTerminals(events[..|events| - 1]);
  }

  lemma EndNamed(run: Run, log: seq<Event>)
    requires RowMatchesLog(run, log) && Ended(log)
    ensures NameOf(log[|log| - 1].body) == EndName(run.status)
    ensures ErrorOf(log[|log| - 1].body) == run.error && AnswerOf(log[|log| - 1].body) == run.answer
  {
  }

  lemma NamesOfEnds(s: Status)
    requires Terminal(s)
    ensures EndName(s) == "run.completed" <==> s == Succeeded
  {
    assert "run.failed"[4] == 'f' && "run.cancelled"[5] == 'a' && "run.completed"[4] == 'c' &&
        "run.completed"[5] == 'o';
  }

  lemma EndedLogIsAcceptedIff(run: Run, log: seq<Event>)
    requires LogWellFormed(log) && RowMatchesLog(run, log) && Terminal(run.status)
    ensures Judge(Case(EndName(run.status), None, run.error), Stream(log)) == Accepted
            <==> (run.status == Succeeded ==> Some(AgentRuntime.StreamedText(Bodies(log))) == run.answer)
  {
    OnlyLastIsTerminal(log);
    EndNamed(run, log);
    NamesOfEnds(run.status);
    assert BodiesOf(Stream(log)) == Bodies(log);
    assert Stream(log)[|log| - 1].body == log[|log| - 1].body;
  }

  /** After any interleaving whatsoever, the full stream of an ended run passes every check of the
      validator for its own status and error, but for one: a successful run passes if and only if
      the streamed pieces join to its stored answer. */
  lemma EndedRunIsAcceptedIff(trace: seq<Action>, r: RunId)
    requires Known(Exec(trace), r) && Terminal(Exec(trace).runs[r].status)
    ensures var run, log := Exec(trace).runs[r], Log(Exec(trace).events, r);
            Judge(Case(EndName(run.status), None, run.error), Stream(log)) == Accepted
            <==> (run.status == Succeeded ==> Some(AgentRuntime.StreamedText(Bodies(log))) == run.answer)
  {
    EveryTraceKeepsInv(trace);
    assert RunOk(Exec(trace), r);
    EndedLogIsAcceptedIff(Exec(trace).runs[r], Log(Exec(trace).events, r));
  }

  /** Runs that did not succeed are always accepted. */
  lemma UnsuccessfulRunIsAccepted(trace: seq<Action>, r: RunId)
    requires Known(Exec(trace), r) && Exec(trace).runs[r].status in {Failed, Cancelled}
    ensures var run := Exec(trace).runs[r];
            Judge(Case(EndName(run.status), None, run.error), Stream(Log(Exec(trace).events, r))) == Accepted
  {
    EndedRunIsAcceptedIff(trace, r);
  }

  // ----- which successful runs the reader accepts

  /** The transaction at this place is an accepted append of an answer piece. */
  ghost predicate Tells(trace: seq<Action>, p: nat, r: RunId) {
    && p < |trace| && trace[p].Append? && trace[p].run == r && trace[p].body.AnswerDelta?
    && Transactions.Accepted(Exec(trace[..p]), trace[p])
  }

  /** One execution streams its pieces at these places of an interleaving, in order. */
  ghost predicate Streams(trace: seq<Action>, mine: seq<nat>, r: RunId, pieces: seq<string>) {
    && |mine| == |pieces| && (forall j, k :: 0 <= j < k < |mine| ==> mine[j] < mine[k])
    && forall k :: 0 <= k < |mine| ==> Tells(trace, mine[k], r) && trace[mine[k]].body.content == pieces[k]
  }

  ghost predicate Completes(trace: seq<Action>, c: nat, r: RunId, answer: string) {
    && c < |trace| && trace[c].Complete? && trace[c].run == r && trace[c].answer == answer
    && Transactions.Accepted(Exec(trace[..c]), trace[c])
  }

  /** Nobody else streams anything for the run before place `n`. */
  ghost predicate OthersSilent(trace: seq<Action>, mine: seq<nat>, r: RunId, n: nat) {
    forall p :: 0 <= p < n && p !in mine && Tells(trace, p, r) ==> trace[p].body.content == ""
  }

  lemma StepText(trace: seq<Action>, p: nat, r: RunId)
    requires p < |trace|
    ensures AgentRuntime.StreamedText(LogOf(Exec(trace[..p + 1]), r)) ==
            AgentRuntime.StreamedText(LogOf(Exec(trace[..p]), r)) +
            (if Tells(trace, p, r) then trace[p].body.content else "")
  {
    var l, a := Exec(trace[..p]), trace[p];
    assert trace[..p + 1][..p] == trace[..p];
    ApplyExtendsLog(l, a, r);
    var text := AgentRuntime.StreamedText(LogOf(l, r));
    assert LogOf(l, r) + [] == LogOf(l, r) && text + "" == text;
    if LogOf(Apply(l, a), r) != LogOf(l, r) {
      var b := if a.Append? then a.body else RunCompleted(a.answer);
      assert (LogOf(l, r) + [b])[..|LogOf(l, r)|] == LogOf(l, r);
    }
  }

  /** The own pieces before place `n` are the first `m`. */
  ghost predicate CutAt(mine: seq<nat>, n: nat, m: nat) {
    && m <= |mine| && (forall k :: 0 <= k < m ==> mine[k] < n)
    && forall k :: m <= k < |mine| ==> n <= mine[k]
  }

  lemma SilentOneMore(trace: seq<Action>, mine: seq<nat>, r: RunId, p: nat)
    ensures OthersSilent(trace, mine, r, p + 1) <==>
            OthersSilent(trace, mine, r, p) && (p !in mine && Tells(trace, p, r) ==> trace[p].body.content == "")
  {
  }

  /** The place just before the cut is the last own piece, or none. */
  lemma CutOneLess(mine: seq<nat>, p: nat, m: nat)
    requires (forall j, k :: 0 <= j < k < |mine| ==> mine[j] < mine[k]) && CutAt(mine, p + 1, m)
    ensures if m > 0 && mine[m - 1] == p then p in mine && CutAt(mine, p, m - 1) else p !in mine && CutAt(mine, p, m)
  {
  }

  /** What is heard is the own pieces, or longer. */
  ghost predicate Heard(trace: seq<Action>, mine: seq<nat>, r: RunId, pieces: seq<string>, n: nat, m: nat)
    requires n <= |trace| && m <= |pieces|
  {
    var text := AgentRuntime.StreamedText(LogOf(Exec(trace[..n]), r));
    var own := AgentRuntime.StreamedText(AgentRuntime.Deltas(pieces[..m]));
    if OthersSilent(trace, mine, r, n) then text == own else |text| > |own|
  }

  lemma {:induction false} HeardBefore(
    trace: seq<Action>, mine: seq<nat>, r: RunId, pieces: seq<string>, n: nat, m: nat)
    requires Streams(trace, mine, r, pieces) && n <= |trace| && CutAt(mine, n, m)
    ensures Heard(trace, mine, r, pieces, n, m)
    decreases n
  {
    if n == 0 {
      assert trace[..0] == [] && pieces[..m] == [] && LogOf(Exec([]), r) == [];
    } else {
      var p := n - 1;
      CutOneLess(mine, p, m);
      if m > 0 && mine[m - 1] == p {
        HeardBefore(trace, mine, r, pieces, p, m - 1);
        OwnPieceHeard(trace, mine, r, pieces, p, m);
      } else {
        HeardBefore(trace, mine, r, pieces, p, m);
        OtherStepHeard(trace, mine, r, pieces, p, m);
      }
    }
  }

  lemma OwnPieceHeard(trace: seq<Action>, mine: seq<nat>, r: RunId, pieces: seq<string>, p: nat, m: nat)
    requires p < |trace| && 0 < m <= |pieces| && p in mine && Heard(trace, mine, r, pieces, p, m - 1)
    requires Tells(trace, p, r) && trace[p].body.content == pieces[m - 1]
    ensures Heard(trace, mine, r, pieces, p + 1, m)
  {
    StepText(trace, p, r);
    SilentOneMore(trace, mine, r, p);
    OneMorePiece(pieces, m);
  }

  lemma OtherStepHeard(trace: seq<Action>, mine: seq<nat>, r: RunId, pieces: seq<string>, p: nat, m: nat)
    requires p < |trace| && m <= |pieces| && p !in mine && Heard(trace, mine, r, pieces, p, m)
    ensures Heard(trace, mine, r, pieces, p + 1, m)
  {
    StepText(trace, p, r);
    SilentOneMore(trace, mine, r, p);
    var text := AgentRuntime.StreamedText(LogOf(Exec(trace[..p]), r));
    assert text + "" == text;
  }

  lemma OneMorePiece(pieces: seq<string>, m: nat)
    requires 0 < m <= |pieces|
    ensures AgentRuntime.StreamedText(AgentRuntime.Deltas(pieces[..m])) ==
            AgentRuntime.StreamedText(AgentRuntime.Deltas(pieces[..m - 1])) + pieces[m - 1]
  {
    assert AgentRuntime.Deltas(pieces[..m])[..m - 1] == AgentRuntime.Deltas(pieces[..m - 1]);
  }

  /** After an accepted completion the run has succeeded for good. */
  lemma CompletedForGood(trace: seq<Action>, c: nat, r: RunId, answer: string)
    requires Completes(trace, c, r, answer)
    ensures Known(Exec(trace), r)
    ensures var run := Exec(trace).runs[r];
            run.status == Succeeded && run.answer == Some(answer) && run.error == None
  {
    var first, rest := trace[..c + 1], trace[c + 1..];
    assert first[..c] == trace[..c] && trace == first + rest;
    EveryTraceKeepsInv(first);
    assert RunOk(Exec(first), r);
    ExecSplits(first, rest);
    TerminalRunsAreFrozen(Exec(first), rest, r);
  }

  /** Main result: in any interleaving, let one execution of a run stream its answer piece by piece and
      let the run be completed with that answer, by whomever and with anything in between. The reader
      accepts the run if and only if nobody else streamed anything for it, before, in between or
      after. */
  lemma AnsweredRunIsAcceptedIff(trace: seq<Action>, mine: seq<nat>, c: nat, r: RunId, answer: string)
    requires Streams(trace, mine, r, AgentRuntime.Pieces(answer)) && Completes(trace, c, r, answer)
    ensures Judge(Case("run.completed", None, None), Stream(Log(Exec(trace).events, r))) == Accepted
            <==> OthersSilent(trace, mine, r, |trace|)
  {
    CompletedForGood(trace, c, r, answer);
    EndedRunIsAcceptedIff(trace, r);
    var pieces := AgentRuntime.Pieces(answer);
    assert trace[..|trace|] == trace && pieces[..|mine|] == pieces;
    HeardBefore(trace, mine, r, pieces, |trace|, |mine|);
    AgentRuntime.PiecesRebuildAnswer(answer);
  }

  // ----- which logs the ledger can hold

  /** The log of a run that streams an answer and then completes with it. */
  lemma AnsweredLog(
    l: Ledger, r: RunId, query: string, answer: string, route: Option<string>, limit: int,
    state: Option<BusinessState>, clock: nat -> int, now: int)
    requires Known(l, r)
    ensures var told := AppendAll(l, r, AgentRuntime.Deltas(AgentRuntime.Pieces(answer)), clock);
            Bodies(Log(Completed(told, r, query, answer, route, limit, state, now).events, r)) ==
            Bodies(Log(l.events, r)) + AgentRuntime.Deltas(AgentRuntime.Pieces(answer)) + [RunCompleted(answer)]
  {
    var deltas := AgentRuntime.Deltas(AgentRuntime.Pieces(answer));
    var told := AppendAll(l, r, deltas, clock);
    AppendAllBodies(l, r, deltas, clock, r);
    AppendedBodies(told, r, RunCompleted(answer), None, now, r);
    assert Completed(told, r, query, answer, route, limit, state, now).events ==
           Appended(told, r, RunCompleted(answer), None, now).events;
  }

  lemma AnsweredRun(
    l: Ledger, r: RunId, query: string, answer: string, route: Option<string>, limit: int,
    state: Option<BusinessState>, clock: nat -> int, now: int)
    requires Inv(l) && Open(l, r)
    requires Completable(AppendAll(l, r, AgentRuntime.Deltas(AgentRuntime.Pieces(answer)), clock), r, state)
    ensures var told := AppendAll(l, r, AgentRuntime.Deltas(AgentRuntime.Pieces(answer)), clock);
            var done := Completed(told, r, query, answer, route, limit, state, now);
            Inv(done) && done.runs[r].status == Succeeded && done.runs[r].answer == Some(answer) &&
                done.runs[r].error == None
  {
    var deltas := AgentRuntime.Deltas(AgentRuntime.Pieces(answer));
    AppendAllKeepsInv(l, r, deltas, clock);
    var told := AppendAll(l, r, deltas, clock);
    CompleteKeepsInv(told, r, query, answer, route, limit, state, now);
    var done := Completed(told, r, query, answer, route, limit, state, now);
    assert RunOk(told, r) && RunOk(done, r);
  }

  /** If nothing comes between the pieces and the completion, what was streamed before decides. */
  lemma UninterruptedAnswerIsAcceptedIff(
    l: Ledger, r: RunId, query: string, answer: string, route: Option<string>, limit: int,
    state: Option<BusinessState>, clock: nat -> int, now: int)
    requires Inv(l) && Open(l, r)
    requires Completable(AppendAll(l, r, AgentRuntime.Deltas(AgentRuntime.Pieces(answer)), clock), r, state)
    ensures var told := AppendAll(l, r, AgentRuntime.Deltas(AgentRuntime.Pieces(answer)), clock);
            var done := Completed(told, r, query, answer, route, limit, state, now);
            Judge(Case("run.completed", None, None), Stream(Log(done.events, r))) == Accepted
            <==> AgentRuntime.NothingStreamed(Bodies(Log(l.events, r)))
  {
    var told := AppendAll(l, r, AgentRuntime.Deltas(AgentRuntime.Pieces(answer)), clock);
    var done := Completed(told, r, query, answer, route, limit, state, now);
    AnsweredRun(l, r, query, answer, route, limit, state, clock, now);
    assert RunOk(done, r);
    EndedLogIsAcceptedIff(done.runs[r], Log(done.events, r));
    AnsweredLog(l, r, query, answer, route, limit, state, clock, now);
    AgentRuntime.StreamedAnswerIsCompletedAnswerIff(Bodies(Log(l.events, r)), answer);
  }

  // ----- a takeover that streams twice

  function Told(r: RunId, bodies: seq<Body>, clock: nat -> int): seq<Action> {
    seq(|bodies|, i requires 0 <= i < |bodies| => Append(r, bodies[i], None, clock(i)))
  }

  predicate AllDeltas(bodies: seq<Body>) {
    forall i :: 0 <= i < |bodies| ==> bodies[i].AnswerDelta?
  }

  function Always(now: int): nat -> int {
    (k: nat) => now
  }

  predicate OnlyMoreEvents(l: Ledger, l': Ledger, r: RunId)
    requires Known(l, r)
  {
    && |l'.runs| == |l.runs| && l'.states == l.states
    && l'.runs[r] == l.runs[r].(lastSequence := l'.runs[r].lastSequence)
  }

  /** Pieces appended one by one move nothing but the event table and the sequence number of the run. */
  lemma {:induction false} DeltasKeepRow(l: Ledger, r: RunId, bodies: seq<Body>, clock: nat -> int)
    requires Open(l, r) && AllDeltas(bodies)
    ensures OnlyMoreEvents(l, AppendAll(l, r, bodies, clock), r)
  {
    if bodies != [] {
      DeltasKeepRow(l, r, bodies[..|bodies| - 1], clock);
    }
  }

  lemma {:induction false} ExecTold(trace: seq<Action>, r: RunId, bodies: seq<Body>, clock: nat -> int)
    requires Open(Exec(trace), r) && AllDeltas(bodies)
    ensures Exec(trace + Told(r, bodies, clock)) == AppendAll(Exec(trace), r, bodies, clock)
  {
    if bodies == [] {
      assert trace + Told(r, bodies, clock) == trace;
    } else {
      var n := |bodies| - 1;
      ExecTold(trace, r, bodies[..n], clock);
      DeltasKeepRow(Exec(trace), r, bodies[..n], clock);
      ExecSnoc(trace + Told(r, bodies[..n], clock), Append(r, bodies[n], None, clock(n)));
      assert trace + Told(r, bodies, clock) ==
             (trace + Told(r, bodies[..n], clock)) + [Append(r, bodies[n], None, clock(n))];
    }
  }

  lemma ExecSnoc(trace: seq<Action>, a: Action)
    ensures Exec(trace + [a]) == Apply(Exec(trace), a)
  {
    assert (trace + [a])[..|trace|] == trace;
  }

  /** The only run there is can be claimed while it is open and not leased. */
  lemma ClaimOnly(trace: seq<Action>, worker: string, now: int)
    requires |Exec(trace).runs| == 1 && Open(Exec(trace), 0) && Unleased(Exec(trace).runs[0], now)
    requires Exec(trace).runs[0].dependsOn == None
    ensures Exec(trace + [Claim(0, worker, now, 30)]) == Claimed(Exec(trace), 0, worker, now, 30)
  {
    assert OldestClaimable(Exec(trace), 0, now);
    ExecSnoc(trace, Claim(0, worker, now, 30));
  }

  lemma AskAndClaim(s: Scope) returns (trace: seq<Action>)
    ensures |Exec(trace).runs| == 1 && Open(Exec(trace), 0) && Exec(trace).runs[0].scope == s
    ensures Exec(trace).runs[0].dependsOn == None && Exec(trace).runs[0].leaseUntil == Some(34)
    ensures Version(Exec(trace), s) == 0
  {
    var ask := Create(s, "m1", "hash", "query", None, None, 1);
    assert Apply(Empty, ask) == Created(Empty, s, "m1", "hash", "query", None, 1);
    ExecSnoc([], ask);
    trace := [] + [ask];
    ClaimOnly(trace, "w", 4);
    trace := trace + [Claim(0, "w", 4, 30)];
  }

  function AnswerBodies(answer: string): seq<Body> {
    AgentRuntime.Deltas(AgentRuntime.Pieces(answer))
  }

  lemma TellAnswer(trace: seq<Action>, answer: string, now: int)
    requires Open(Exec(trace), 0)
    ensures var told := trace + Told(0, AnswerBodies(answer), Always(now));
            && Exec(told) == AppendAll(Exec(trace), 0, AnswerBodies(answer), Always(now))
            && OnlyMoreEvents(Exec(trace), Exec(told), 0)
            && Bodies(Log(Exec(told).events, 0)) == Bodies(Log(Exec(trace).events, 0)) + AnswerBodies(answer)
  {
    ExecTold(trace, 0, AnswerBodies(answer), Always(now));
    DeltasKeepRow(Exec(trace), 0, AnswerBodies(answer), Always(now));
    AppendAllBodies(Exec(trace), 0, AnswerBodies(answer), Always(now), 0);
  }

  /** A worker streams the answer and loses its lease, and another takes over. */
  lemma ToldAndTakenOver(s: Scope, answer: string) returns (trace: seq<Action>)
    requires answer != ""
    ensures |Exec(trace).runs| == 1 && Open(Exec(trace), 0) && !VersionMoved(Exec(trace), 0)
    ensures !AgentRuntime.NothingStreamed(Bodies(Log(Exec(trace).events, 0)))
  {
    trace := AskAndClaim(s);
    TellAnswer(trace, answer, 5);
    var told := trace + Told(0, AnswerBodies(answer), Always(5));
    AlreadyTold(Bodies(Log(Exec(trace).events, 0)), answer);
    ClaimOnly(told, "v", 40);
    trace := told + [Claim(0, "v", 40, 30)];
  }

  lemma CompleteApplies(trace: seq<Action>, answer: string)
    requires Open(Exec(trace), 0) && !VersionMoved(Exec(trace), 0)
    ensures Completable(Exec(trace), 0, Some(DefaultState))
    ensures var done := Exec(trace + [Complete(0, "query", answer, None, MEMORY_LIMIT, Some(DefaultState), 42)]);
            && done == Completed(Exec(trace), 0, "query", answer, None, MEMORY_LIMIT, Some(DefaultState), 42)
            && |done.runs| == |Exec(trace).runs|
  {
    ExecSnoc(trace, Complete(0, "query", answer, None, MEMORY_LIMIT, Some(DefaultState), 42));
    ApplyComplete(Exec(trace), 0, "query", answer, None, MEMORY_LIMIT, Some(DefaultState), 42);
  }

  lemma ApplyComplete(
    l: Ledger, r: RunId, query: string, answer: string, route: Option<string>, limit: int,
    state: Option<BusinessState>, now: int)
    requires Completable(l, r, state)
    ensures Apply(l, Complete(r, query, answer, route, limit, state, now)) ==
            Completed(l, r, query, answer, route, limit, state, now)
    ensures |Completed(l, r, query, answer, route, limit, state, now).runs| == |l.runs|
  {
  }

  /** Streaming and completing once more, whatever was streamed before. */
  lemma TellAndComplete(trace: seq<Action>, answer: string) returns (done: seq<Action>)
    requires |Exec(trace).runs| == 1 && Open(Exec(trace), 0) && !VersionMoved(Exec(trace), 0)
    ensures Exec(done) ==
            Completed(
              AppendAll(Exec(trace), 0, AnswerBodies(answer), Always(41)), 0, "query", answer, None, MEMORY_LIMIT,
              Some(DefaultState), 42)
    ensures Completable(AppendAll(Exec(trace), 0, AnswerBodies(answer), Always(41)), 0, Some(DefaultState))
    ensures |Exec(done).runs| == 1
  {
    TellAnswer(trace, answer, 41);
    var told := trace + Told(0, AnswerBodies(answer), Always(41));
    CompleteApplies(told, answer);
    done := told + [Complete(0, "query", answer, None, MEMORY_LIMIT, Some(DefaultState), 42)];
  }

  /** An interleaving that the reader rejects: the worker that takes over streams the answer again
      and completes the run. */
  lemma TakeoverStreamsTwice(s: Scope, answer: string) returns (trace: seq<Action>)
    requires answer != ""
    ensures |Exec(trace).runs| == 1 && Exec(trace).runs[0].status == Succeeded
    ensures Judge(Case("run.completed", None, None), Stream(Log(Exec(trace).events, 0))) != Accepted
  {
    var before := ToldAndTakenOver(s, answer);
    EveryTraceKeepsInv(before);
    trace := TellAndComplete(before, answer);
    UninterruptedAnswerIsAcceptedIff(
      Exec(before), 0, "query", answer, None, MEMORY_LIMIT, Some(DefaultState), Always(41), 42);
    AnsweredRun(Exec(before), 0, "query", answer, None, MEMORY_LIMIT, Some(DefaultState), Always(41), 42);
  }

  lemma AlreadyTold(before: seq<Body>, answer: string)
    requires answer != ""
    ensures !AgentRuntime.NothingStreamed(before + AnswerBodies(answer))
  {
    var bodies := before + AnswerBodies(answer);
    AgentRuntime.PiecesRebuildAnswer(answer);
    assert AgentRuntime.Pieces(answer) != [];
    assert bodies[|before|] == AnswerBodies(answer)[0];
  }
}
