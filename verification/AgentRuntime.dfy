/** What the runtime writes through the store: answers in pieces, guarded tool events, failures and
    cancellations. */
module AgentRuntime {
  import opened Common
  import opened ConversationState
  import opened Ledger
  import opened LedgerInvariant
  import opened ToolEvents
  import opened AgentStore

  const CHUNK: nat := 80

  /** The pieces in which an answer is streamed. */
  function Pieces(answer: string): seq<string>
    decreases |answer|
  {
    if answer == "" then []
    else if |answer| <= CHUNK then [answer]
    else [answer[..CHUNK]] + Pieces(answer[CHUNK..])
  }

  function Deltas(pieces: seq<string>): seq<Body> {
    seq(|pieces|, i requires 0 <= i < |pieces| => AnswerDelta(pieces[i]))
  }

  /** What a reader obtains by joining the streamed pieces of a log. */
  function StreamedText(bodies: seq<Body>): string {
    if bodies == [] then ""
    else
      StreamedText(bodies[..|bodies| - 1]) +
      (if bodies[|bodies| - 1].AnswerDelta? then bodies[|bodies| - 1].content else "")
  }

  lemma {:induction false} StreamedConcat(a: seq<Body>, b: seq<Body>)
    ensures StreamedText(a + b) == StreamedText(a) + StreamedText(b)
  {
    if b == [] {
      assert a + b == a;
    } else {
      var n := |b| - 1;
      StreamedConcat(a, b[..n]);
      assert (a + b)[..|a + b| - 1] == a + b[..n];
    }
  }

  lemma OnePiece(piece: string)
    ensures StreamedText(Deltas([piece])) == piece
  {
    assert Deltas([piece])[..0] == [];
    assert "" + piece == piece;
  }

  lemma {:induction false} PiecesRebuildAnswer(answer: string)
    ensures StreamedText(Deltas(Pieces(answer))) == answer
    ensures forall i :: 0 <= i < |Pieces(answer)| ==> 0 < |Pieces(answer)[i]| <= 80
    decreases |answer|
  {
    if |answer| > CHUNK {
      var head, tail := answer[..CHUNK], answer[CHUNK..];
      PiecesRebuildAnswer(tail);
      assert Deltas(Pieces(answer)) == Deltas([head]) + Deltas(Pieces(tail));
      StreamedConcat(Deltas([head]), Deltas(Pieces(tail)));
      OnePiece(head);
      assert answer == head + tail;
    } else if answer != "" {
      OnePiece(answer);
    }
  }

  /** Every piece but the last has exactly eighty characters. */
  lemma {:induction false} PiecesAreFull(answer: string)
    ensures forall i :: 0 <= i < |Pieces(answer)| - 1 ==> |Pieces(answer)[i]| == 80
    ensures |Pieces(answer)| == (|answer| + 79) / 80
    decreases |answer|
  {
    if |answer| > CHUNK {
      PiecesAreFull(answer[CHUNK..]);
    }
  }

  predicate NothingStreamed(bodies: seq<Body>) {
    forall i :: 0 <= i < |bodies| && bodies[i].AnswerDelta? ==> bodies[i].content == ""
  }

  lemma {:induction false} NothingStreamedIsSilent(bodies: seq<Body>)
    ensures NothingStreamed(bodies) <==> StreamedText(bodies) == ""
  {
    if bodies != [] {
      var n := |bodies| - 1;
      NothingStreamedIsSilent(bodies[..n]);
      assert forall i :: 0 <= i < n ==> bodies[..n][i] == bodies[i];
    }
  }

  /** Streaming an answer and completing with it leaves pieces that join to the completed answer if
      and only if nothing was streamed before. */
  lemma StreamedAnswerIsCompletedAnswerIff(before: seq<Body>, answer: string)
    ensures StreamedText(before + Deltas(Pieces(answer)) + [RunCompleted(answer)]) == answer <==>
            NothingStreamed(before)
  {
    NothingStreamedIsSilent(before);
    PiecesRebuildAnswer(answer);
    StreamedConcat(before, Deltas(Pieces(answer)));
    StreamedConcat(before + Deltas(Pieces(answer)), [RunCompleted(answer)]);
    assert [RunCompleted(answer)][..0] == [];
    assert StreamedText([RunCompleted(answer)]) == "";
    var told := StreamedText(before);
    assert told + answer + "" == told + answer;
    if told != "" {
      assert |told + answer| > |answer|;
    } else {
      assert told + answer == answer;
    }
  }

  class AgentRuntime {
    const store: AgentStore

    constructor (store: AgentStore)
      ensures this.store == store
    {
      this.store := store;
    }

    /** Append the next body of a planned sequence; the run must still be open. */
    method AppendNext(
      r: RunId, b: Body, now: int, ghost before: Ledger, ghost plan: seq<Body>, ghost k: nat, ghost clock: nat -> int)
      requires Inv(store.View()) && Open(store.View(), r) && Known(before, r)
      requires k < |plan| && plan[k] == b
      requires store.View() == AppendAll(before, r, plan[..k], clock) && now == clock(k)
      modifies store
      ensures Inv(store.View()) && store.View() == AppendAll(before, r, plan[..k + 1], clock)
      ensures Open(store.View(), r) <==> !Closing(b)
    {
      assert plan[..k + 1][..k] == plan[..k];
      AppendKeepsInv(store.View(), r, b, None, now);
      var outcome := store.AppendEvent(r, b, None, now);
    }

    /** The answer is written piece by piece, each with its own reading of the clock. */
    method EmitAnswer(r: RunId, answer: string, clock: nat -> int)
      requires Inv(store.View()) && Open(store.View(), r)
      modifies store
      ensures store.View() == AppendAll(old(store.View()), r, Deltas(Pieces(answer)), clock)
      ensures Inv(store.View()) && Open(store.View(), r)
    {
      var offset, sent := 0, 0;
      ghost var before := store.View();
      ghost var all := Pieces(answer);
      ghost var plan := Deltas(all);
      while offset < |answer|
        invariant 0 <= offset <= |answer| && sent <= |all|
        invariant all[sent..] == Pieces(answer[offset..])
        invariant store.View() == AppendAll(before, r, plan[..sent], clock)
        invariant Inv(store.View()) && Open(store.View(), r)
      {
        var end := Min(offset + CHUNK, |answer|);
        NextPiece(answer, offset);
        assert all[sent] == all[sent..][0];
        AppendNext(r, AnswerDelta(answer[offset..end]), clock(sent), before, plan, sent, clock);
        assert all[sent + 1..] == all[sent..][1..];
        offset, sent := end, sent + 1;
      }
      assert all[sent..] == [];
      assert plan[..sent] == plan;
    }

    /** A tool event is written unless its call already has one of that kind. */
    method EmitToolEvent(r: RunId, b: Body, now: int)
      modifies store
      ensures store.View() == Emitted(old(store.View()), r, b, now)
    {
      var present := store.HasToolEvent(r, b);
      if !present {
        var outcome := store.AppendEvent(r, b, None, now);
      }
    }

    /** A run that never wrote anything is started first. */
    method StartIfSilent(r: RunId, clock: nat -> int) returns (used: nat)
      requires Inv(store.View()) && Open(store.View(), r)
      modifies store
      ensures Inv(store.View()) && Open(store.View(), r)
      ensures var opening := OpeningOf(Bodies(Log(old(store.events), r)));
              store.View() == AppendAll(old(store.View()), r, opening, clock) && used == |opening|
      ensures Pending(Bodies(Log(store.events, r))) == Pending(Bodies(Log(old(store.events), r)))
    {
      ghost var before := store.View();
      ghost var bodies := Bodies(Log(store.events, r));
      assert RunOk(before, r);
      used := 0;
      if store.runs[r].lastSequence == 0 {
        OpeningApplied(before, r, clock);
        AppendKeepsInv(before, r, RunStarted, None, clock(0));
        var outcome := store.AppendEvent(r, RunStarted, None, clock(0));
        used := 1;
      }
    }

    method ClosePending(r: RunId, pending: seq<Call>, clock: nat -> int)
      requires Inv(store.View()) && Open(store.View(), r)
      modifies store
      ensures Inv(store.View()) && Open(store.View(), r)
      ensures store.View() == AppendAll(old(store.View()), r, Closures(pending), clock)
    {
      ghost var before := store.View();
      ghost var plan := Closures(pending);
      for i := 0 to |pending|
        invariant store.View() == AppendAll(before, r, plan[..i], clock)
        invariant Inv(store.View()) && Open(store.View(), r)
      {
        AppendNext(
          r, ToolCompleted(pending[i].callId, pending[i].toolName, "FAILED", 0), clock(i), before, plan, i, clock);
      }
      assert plan[..|pending|] == plan;
    }

    /** Everything that failing a run writes before its terminal event; `used` counts the events. */
    method WritePrelude(r: RunId, clock: nat -> int) returns (used: nat)
      requires Inv(store.View()) && Open(store.View(), r)
      modifies store
      ensures var bodies := Bodies(Log(old(store.events), r));
              && store.View() == AppendAll(old(store.View()), r, FailurePrelude(bodies), clock)
              && used == |FailurePrelude(bodies)|
      ensures Open(store.View(), r)
    {
      ghost var before := store.View();
      ghost var bodies := Bodies(Log(store.events, r));
      used := StartIfSilent(r, clock);
      var pending := store.PendingToolCalls(r);
      AppendAllConcat(before, r, OpeningOf(bodies), Closures(pending), clock);
      ClosePending(r, pending, Later(clock, used));
      used := used + |pending|;
    }

    method FailOpenRun(r: RunId, code: string, clock: nat -> int)
      requires Inv(store.View()) && Open(store.View(), r)
      modifies store
      ensures store.View() == FailedRun(old(store.View()), r, code, clock)
    {
      AppendAllSnoc(store.View(), r, FailurePrelude(Bodies(Log(store.events, r))), RunFailed(code), clock);
      var used := WritePrelude(r, clock);
      var outcome := store.AppendEvent(r, RunFailed(code), None, clock(used));
    }

    /** Close every pending call, then end the run as failed; an ended run is left alone. */
    method FailRun(r: RunId, code: string, clock: nat -> int)
      requires Inv(store.View())
      modifies store
      ensures store.View() ==
              if Open(old(store.View()), r) then FailedRun(old(store.View()), r, code, clock) else old(store.View())
    {
      if r < |store.runs| && !Terminal(store.runs[r].status) {
        FailOpenRun(r, code, clock);
      }
    }

    /** Cancellation of a run that no task of this process executes. */
    method CancelIdleRun(r: RunId, reason: string, clock: nat -> int) returns (known: bool)
      requires Inv(store.View())
      modifies store
      ensures known == Known(old(store.View()), r)
      ensures store.View() ==
              if !Open(old(store.View()), r) then old(store.View())
              else AppendAll(old(store.View()), r, CancelBodies(old(store.runs[r].lastSequence), reason), clock)
    {
      if r >= |store.runs| {
        return false;
      }
      known := true;
      if Terminal(store.runs[r].status) {
        return;
      }
      ghost var before := store.View();
      ghost var plan := CancelBodies(store.runs[r].lastSequence, reason);
      assert plan[..0] == [];
      var used := 0;
      if store.runs[r].lastSequence == 0 {
        AppendNext(r, RunStarted, clock(0), before, plan, 0, clock);
        used := 1;
      }
      AppendNext(r, RunCancelled(reason), clock(used), before, plan, used, clock);
      assert plan[..|plan|] == plan;
    }
  }

  function CancelBodies(lastSequence: nat, reason: string): seq<Body> {
    (if lastSequence == 0 then [RunStarted] else []) + [RunCancelled(reason)]
  }

  /** What a failure or a cancellation of an idle run writes: a start exactly when nothing was written yet, and
      the ending last. */
  lemma EndingsBeginWithStartIff(bodies: seq<Body>, code: string, reason: string)
    ensures var failed := FailureBodies(bodies, code);
            && (failed[0] == RunStarted <==> bodies == []) && failed[|failed| - 1] == RunFailed(code)
            && forall i :: 0 < i < |failed| ==> failed[i] != RunStarted
    ensures var cancelled := CancelBodies(|bodies|, reason);
            && cancelled[|cancelled| - 1] == RunCancelled(reason) && |cancelled| <= 2
            && (cancelled[0] == RunStarted <==> bodies == []) && (|cancelled| == 2 <==> bodies == [])
  {
    var failed := FailureBodies(bodies, code);
    assert bodies != [] && Pending(bodies) != [] ==> failed[0] == Closure(Pending(bodies)[0]);
  }

  function OpeningOf(bodies: seq<Body>): seq<Body> {
    if bodies == [] then [RunStarted] else []
  }

  lemma NextPiece(answer: string, offset: nat)
    requires offset < |answer|
    ensures
      var end := Min(offset + CHUNK, |answer|);
      Pieces(answer[offset..]) == [answer[offset..end]] + Pieces(answer[end..])
  {
    var end := Min(offset + CHUNK, |answer|);
    assert answer[offset..][..end - offset] == answer[offset..end];
    assert answer[offset..][end - offset..] == answer[end..];
    if end == |answer| {
      assert answer[end..] == "" && answer[offset..end] == answer[offset..];
    }
  }

  lemma OpeningApplied(l: Ledger, r: RunId, clock: nat -> int)
    requires Open(l, r) && Bodies(Log(l.events, r)) == []
    ensures AppendAll(l, r, [RunStarted], clock) == Appended(l, r, RunStarted, None, clock(0))
    ensures Pending(Bodies(Log(Appended(l, r, RunStarted, None, clock(0)).events, r))) == Pending([])
  {
    AppendAllSnoc(l, r, [], RunStarted, clock);
    assert [] + [RunStarted] == [RunStarted];
    AppendedBodies(l, r, RunStarted, None, clock(0), r);
    PendingIgnoresStart();
  }

  lemma PendingIgnoresStart()
    ensures Pending([RunStarted]) == Pending([])
  {
    assert [RunStarted][..0] == [];
  }
}
