/** What a map result tells the reader, said of the calls and the result alone: where each set comes from,
    which sets are incomplete, and which warnings there are. */
module MapReport {
  import opened Common
  import opened MapResult

  // ----- which records are looked at

  /** The n-th record of the k-th call is looked at: fewer than two hundred could be shown before it. */
  ghost predicate Seen(steps: seq<Step>, k: nat, n: nat) {
    && k < |steps| && n < |steps[k].features|
    && |AllMapped(steps[..k])| + |Kept(steps[k].features[..n])| < 200
  }

  lemma {:induction false} ExaminedIff(fs: seq<Feature>, room: nat, n: nat)
    requires n < |fs|
    ensures |Examined(fs, room)| <= |fs| && Examined(fs, room) == fs[..|Examined(fs, room)|]
    ensures n < |Examined(fs, room)| <==> |Kept(fs[..n])| < room
  {
    ExaminedFillsRoom(fs, room);
    var init := fs[..|fs| - 1];
    if n < |init| {
      ExaminedIff(init, room, n);
      ExaminedFillsRoom(init, room);
      assert init[..n] == fs[..n];
      KeptPrefix(init, n);
    } else {
      assert init == fs[..n];
      ExaminedFillsRoom(init, room);
    }
  }

  /** What the calls before it leave for one. */
  function RoomBefore(steps: seq<Step>, k: nat): nat
    requires k <= |steps|
  {
    Room(steps[..k])
  }

  lemma SeenIff(steps: seq<Step>, k: nat, n: nat)
    requires k < |steps| && n < |steps[k].features|
    ensures Seen(steps, k, n) <==> n < |Examined(steps[k].features, RoomBefore(steps, k))|
  {
    ExaminedIff(steps[k].features, RoomBefore(steps, k), n);
  }

  // ----- the identifying attribute

  /** The attributes that can identify a record, the most specific first. */
  predicate Identifies(f: Feature, field: IdField) {
    && f.hasAttributes && field in f.ids
    && (field == ObjectId ==> ObjectId12 !in f.ids)
    && (field == PlainId ==> ObjectId12 !in f.ids && ObjectId !in f.ids)
  }

  predicate Nameless(f: Feature) {
    ObjectId12 !in f.ids && ObjectId !in f.ids && PlainId !in f.ids
  }

  /** The first record that can be identified is identified by this attribute. */
  ghost predicate FirstIdentifiedBy(fs: seq<Feature>, field: IdField) {
    exists j :: 0 <= j < |fs| && Identifies(fs[j], field) && NoneIdentified(fs[..j])
  }

  predicate NoneIdentified(fs: seq<Feature>) {
    forall i :: 0 <= i < |fs| ==> !fs[i].hasAttributes || Nameless(fs[i])
  }

  lemma {:induction false} FieldOfIsFirst(fs: seq<Feature>)
    ensures FieldOf(fs).None? <==> NoneIdentified(fs)
    ensures FieldOf(fs).Some? ==> FirstIdentifiedBy(fs, FieldOf(fs).value)
  {
    if fs != [] {
      FieldOfIsFirst(fs[1..]);
      if Identified(fs[0]) {
        assert Identifies(fs[0], FieldOf(fs).value) && fs[..0] == [];
      } else if FieldOf(fs).Some? {
        FirstLater(fs, FieldOf(fs).value);
      } else {
        assert forall i :: 1 <= i < |fs| ==> fs[i] == fs[1..][i - 1];
      }
    }
  }

  lemma FirstLater(fs: seq<Feature>, field: IdField)
    requires fs != [] && (!fs[0].hasAttributes || Nameless(fs[0])) && FirstIdentifiedBy(fs[1..], field)
    ensures FirstIdentifiedBy(fs, field) && !NoneIdentified(fs)
  {
    var rest := fs[1..];
    var j :| 0 <= j < |rest| && Identifies(rest[j], field) && NoneIdentified(rest[..j]);
    assert fs[j + 1] == rest[j] && fs[..j + 1] == [fs[0]] + rest[..j];
  }

  lemma UniqueFirst(fs: seq<Feature>, x: IdField, y: IdField)
    requires FirstIdentifiedBy(fs, x) && FirstIdentifiedBy(fs, y)
    ensures x == y
  {
    var i :| 0 <= i < |fs| && Identifies(fs[i], x) && NoneIdentified(fs[..i]);
    var j :| 0 <= j < |fs| && Identifies(fs[j], y) && NoneIdentified(fs[..j]);
    NoneBefore(fs, i);
    NoneBefore(fs, j);
  }

  lemma NoneBefore(fs: seq<Feature>, i: nat)
    requires i <= |fs| && NoneIdentified(fs[..i])
    ensures forall n :: 0 <= n < i ==> !fs[n].hasAttributes || Nameless(fs[n])
  {
    forall n | 0 <= n < i ensures !fs[n].hasAttributes || Nameless(fs[n]) {
      assert fs[..i][n] == fs[n];
    }
  }

  /** A record can be shown exactly when it is identified the way the first identified one is. */
  lemma ShownIff(fs: seq<Feature>, n: nat)
    requires n < |fs|
    ensures Kept(fs[..n + 1]) ==
            Kept(fs[..n]) +
            if exists x :: FirstIdentifiedBy(fs[..n + 1], x) && Identifies(fs[n], x) then [fs[n]] else []
  {
    var part := fs[..n + 1];
    assert part == fs[..n] + [fs[n]];
    KeptSnoc(fs[..n], fs[n]);
    FieldOfIsFirst(part);
    forall x | FirstIdentifiedBy(part, x) ensures FieldOf(part) == Some(x) {
      NoneIdentifiedIff(part, x);
      UniqueFirst(part, x, FieldOf(part).value);
    }
    if Identified(fs[n]) {
      assert part[n] == fs[n] && !NoneIdentified(part);
      assert IdOf(fs[n]) == FieldOf(part) <==> Identifies(fs[n], FieldOf(part).value);
    }
    assert Kept(fs[..n]) + [] == Kept(fs[..n]);
  }

  lemma NoneIdentifiedIff(fs: seq<Feature>, x: IdField)
    requires FirstIdentifiedBy(fs, x)
    ensures !NoneIdentified(fs)
  {
  }

  // ----- the sets

  predicate FeatureReports(m: Mapped, field: IdField, step: Step) {
    && m.layerId == step.layerId && m.feature in step.features && Identifies(m.feature, field)
    && m.objectId == m.feature.ids[field]
  }

  /** A listed set says whose it is, and is incomplete exactly when its call said so or fewer records are
      shown than its call counted. */
  predicate SetReports(s: ResultSet, step: Step) {
    && s.toolCallId == step.toolCallId && s.layerId == step.layerId && s.total == step.total
    && s.returned == |s.features| > 0
    && (s.exceeded <==> step.exceeded || |s.features| < step.total)
    && forall m :: m in s.features ==> FeatureReports(m, s.idField, step)
  }

  lemma {:induction false} ChosenReport(fs: seq<Feature>, field: IdField)
    ensures forall f :: f in Chosen(fs, Some(field)) ==> f in fs && Identifies(f, field)
  {
    if fs != [] {
      ChosenReport(fs[..|fs| - 1], field);
      assert fs == fs[..|fs| - 1] + [fs[|fs| - 1]];
    }
  }

  lemma ShownReports(seen: seq<Feature>, step: Step)
    requires FieldOf(seen).Some? && forall f :: f in seen ==> f in step.features
    ensures forall m :: m in MappedOf(seen, step.layerId) ==> FeatureReports(m, FieldOf(seen).value, step)
  {
    ChosenReport(seen, FieldOf(seen).value);
    ChosenHasField(seen, FieldOf(seen));
    var mapped := MappedOf(seen, step.layerId);
    forall m | m in mapped ensures FeatureReports(m, FieldOf(seen).value, step) {
      var i :| 0 <= i < |mapped| && mapped[i] == m;
      assert Kept(seen)[i] in Kept(seen);
    }
  }

  lemma StepReports(step: Step, room: nat)
    ensures |SetsOf(step, room)| <= 1
    ensures SetsOf(step, room) != [] ==> SetReports(SetsOf(step, room)[0], step)
    ensures SetsOf(step, room) == [] <==> MappedOf(Examined(step.features, room), step.layerId) == []
  {
    var seen := Examined(step.features, room);
    ExaminedFillsRoom(step.features, room);
    if SetsOf(step, room) != [] {
      FieldOfIsFirst(seen);
      assert forall f :: f in seen ==> f in step.features;
      ShownReports(seen, step);
    }
  }

  /** Increasing positions of calls. */
  predicate Positions(ks: seq<nat>, bound: nat) {
    && (forall i :: 0 <= i < |ks| ==> ks[i] < bound)
    && forall i, j :: 0 <= i < j < |ks| ==> ks[i] < ks[j]
  }

  /** The i-th set reports the call at the i-th position. */
  predicate ComeFrom(sets: seq<ResultSet>, steps: seq<Step>, ks: seq<nat>) {
    && |ks| == |sets| && Positions(ks, |steps|)
    && forall i :: 0 <= i < |ks| ==> SetReports(sets[i], steps[ks[i]])
  }

  /** Each listed set is that of one call, in plan order. */
  lemma {:induction false} SetsComeFromCalls(steps: seq<Step>) returns (ks: seq<nat>)
    ensures ComeFrom(Sets(steps), steps, ks)
  {
    if steps == [] {
      ks := [];
    } else {
      var init, step := Init(steps), Last(steps);
      var before := SetsComeFromCalls(init);
      var own := SetsOf(step, Room(init));
      StepReports(step, Room(init));
      ks := if own == [] then before else before + [|init|];
      SetsExtend(Sets(init), own, init, step, before, ks);
      SameSets(steps);
      InitAndLast(steps);
    }
  }

  lemma SameSets(steps: seq<Step>)
    requires steps != []
    ensures Sets(steps) == Sets(Init(steps)) + SetsOf(Last(steps), Room(Init(steps)))
  {
  }

  lemma InitAndLast(steps: seq<Step>)
    requires steps != []
    ensures Init(steps) + [Last(steps)] == steps
  {
    ButLastAndLast(steps);
  }

  lemma SetsExtend(
    sets: seq<ResultSet>, own: seq<ResultSet>, steps: seq<Step>, step: Step, before: seq<nat>, ks: seq<nat>)
    requires ComeFrom(sets, steps, before)
    requires |own| <= 1 && (own != [] ==> SetReports(own[0], step))
    requires ks == if own == [] then before else before + [|steps|]
    ensures ComeFrom(sets + own, steps + [step], ks)
  {
  }

  // ----- the warnings

  /** Which records cause a warning of their own. */
  ghost predicate Causes(fs: seq<Feature>, n: nat, layer: int, w: Warning)
    requires n < |fs|
  {
    var f := fs[n];
    match w
    case NoAttributes(l) => l == layer && !f.hasAttributes
    case NoObjectId(l) => l == layer && f.hasAttributes && Nameless(f)
    case MixedIds(l) =>
      && l == layer && f.hasAttributes && !Nameless(f)
      && !exists x :: FirstIdentifiedBy(fs[..n + 1], x) && Identifies(f, x)
    case _ => false
  }

  lemma RemarkIff(fs: seq<Feature>, n: nat, layer: int, w: Warning)
    requires n < |fs|
    ensures w in Remark(fs[..n + 1], layer) <==> Causes(fs, n, layer, w)
  {
    var part, f := fs[..n + 1], fs[n];
    assert part[|part| - 1] == f;
    FieldOfIsFirst(part);
    if f.hasAttributes && !Nameless(f) {
      assert !NoneIdentified(part);
      var field := FieldOf(part).value;
      forall x | FirstIdentifiedBy(part, x) ensures x == field {
        UniqueFirst(part, x, field);
      }
      assert IdOf(f) == FieldOf(part) <==> Identifies(f, field);
    }
  }

  lemma {:induction false} RemarksIff(fs: seq<Feature>, layer: int, w: Warning)
    ensures w in Remarks(fs, layer) <==> exists n :: 0 <= n < |fs| && Causes(fs, n, layer, w)
  {
    if fs != [] {
      var last := |fs| - 1;
      var init := fs[..last];
      RemarksIff(init, layer, w);
      assert fs[..last + 1] == fs;
      RemarkIff(fs, last, layer, w);
      forall n | 0 <= n < last ensures Causes(init, n, layer, w) <==> Causes(fs, n, layer, w) {
        assert init[..n + 1] == fs[..n + 1];
      }
    }
  }

  /** When a call of the plan causes a warning. */
  ghost predicate Warns(steps: seq<Step>, w: Warning) {
    match w
    case Truncated => exists k, n :: 0 <= k < |steps| && 0 <= n < |steps[k].features| && !Seen(steps, k, n)
    case Partial(layer) =>
      exists i :: 0 <= i < |Sets(steps)| && Sets(steps)[i].layerId == layer && Sets(steps)[i].exceeded
    case _ =>
      exists k, n :: 0 <= k < |steps| && 0 <= n < |steps[k].features| && Seen(steps, k, n) &&
        Causes(steps[k].features, n, steps[k].layerId, w)
  }

  /** What the last call adds to the warnings. */
  ghost predicate LastWarns(steps: seq<Step>, w: Warning)
    requires steps != []
  {
    var step, k := Last(steps), |steps| - 1;
    match w
    case Truncated => exists n :: 0 <= n < |step.features| && !Seen(steps, k, n)
    case Partial(layer) =>
      var sets := SetsOf(step, Room(Init(steps)));
      sets != [] && sets[0].layerId == layer && sets[0].exceeded
    case _ => exists n :: 0 <= n < |step.features| && Seen(steps, k, n) && Causes(step.features, n, step.layerId, w)
  }

  /** The records of the last call that are looked at. */
  function SeenOfLast(steps: seq<Step>): seq<Feature>
    requires steps != []
  {
    Examined(Last(steps).features, Room(Init(steps)))
  }

  lemma SeenIffInLast(steps: seq<Step>, k: nat)
    requires k + 1 == |steps|
    ensures var fs, seen := Last(steps).features, SeenOfLast(steps);
            && |seen| <= |fs| && seen == fs[..|seen|]
            && forall n :: 0 <= n < |fs| ==> (Seen(steps, k, n) <==> n < |seen|)
  {
    var fs := Last(steps).features;
    ExaminedFillsRoom(fs, Room(Init(steps)));
    forall n | 0 <= n < |fs| ensures Seen(steps, k, n) <==> n < |SeenOfLast(steps)| {
      SeenIff(steps, k, n);
    }
  }

  lemma OwnTruncation(steps: seq<Step>)
    requires steps != []
    ensures SeenOfLast(steps) != Last(steps).features <==> LastWarns(steps, Truncated)
  {
    var fs, seen := Last(steps).features, SeenOfLast(steps);
    SeenIffInLast(steps, |steps| - 1);
    if |seen| < |fs| {
      assert !Seen(steps, |steps| - 1, |seen|);
    }
  }

  lemma OwnRecordRemarks(steps: seq<Step>, w: Warning)
    requires steps != [] && !w.Partial? && w != Truncated
    ensures w in Remarks(SeenOfLast(steps), Last(steps).layerId) <==> LastWarns(steps, w)
  {
    var fs, seen, layer := Last(steps).features, SeenOfLast(steps), Last(steps).layerId;
    SeenIffInLast(steps, |steps| - 1);
    RemarksIff(seen, layer, w);
    forall n | 0 <= n < |seen| ensures Causes(seen, n, layer, w) <==> Causes(fs, n, layer, w) {
      assert seen[..n + 1] == fs[..n + 1];
    }
  }

  lemma OwnRemarks(steps: seq<Step>, w: Warning)
    requires steps != [] && !w.Partial?
    ensures w in StepRemarks(Last(steps), Room(Init(steps))) <==> LastWarns(steps, w)
  {
    var seen := SeenOfLast(steps);
    RemarksNotTruncated(seen, Last(steps).layerId);
    if w == Truncated {
      OwnTruncation(steps);
    } else {
      OwnRecordRemarks(steps, w);
    }
  }

  lemma {:induction false} RemarksNotPartial(fs: seq<Feature>, layer: int, other: int)
    ensures Partial(other) !in Remarks(fs, layer)
  {
    if fs != [] {
      RemarksNotPartial(fs[..|fs| - 1], layer, other);
    }
  }

  lemma OwnWarnings(steps: seq<Step>, w: Warning)
    requires steps != []
    ensures w in StepWarnings(Last(steps), Room(Init(steps))) <==> LastWarns(steps, w)
  {
    var step, room := Last(steps), Room(Init(steps));
    StepReports(step, room);
    if w.Partial? {
      RemarksNotPartial(Examined(step.features, room), step.layerId, w.layer);
    } else {
      OwnRemarks(steps, w);
    }
  }

  lemma SeenEarlier(steps: seq<Step>, k: nat, n: nat)
    requires steps != [] && k < |steps| - 1
    ensures Seen(Init(steps), k, n) <==> Seen(steps, k, n)
  {
    assert Init(steps)[..k] == steps[..k];
  }

  lemma WarnsOneMore(steps: seq<Step>, w: Warning)
    requires steps != []
    ensures Warns(steps, w) <==> Warns(Init(steps), w) || LastWarns(steps, w)
  {
    if w.Partial? {
      PartialOneMore(steps, w.layer);
    } else {
      forall k, n | 0 <= k < |steps| - 1 ensures Seen(Init(steps), k, n) <==> Seen(steps, k, n) {
        if n >= 0 {
          SeenEarlier(steps, k, n);
        }
      }
      var last := |steps| - 1;
      assert steps[last] == Last(steps);
    }
  }

  lemma PartialOneMore(steps: seq<Step>, layer: int)
    requires steps != []
    ensures Warns(steps, Partial(layer)) <==> Warns(Init(steps), Partial(layer)) || LastWarns(steps, Partial(layer))
  {
    var before, own := Sets(Init(steps)), SetsOf(Last(steps), Room(Init(steps)));
    StepReports(Last(steps), Room(Init(steps)));
    assert Sets(steps) == before + own;
    if LastWarns(steps, Partial(layer)) {
      assert Sets(steps)[|before|] == own[0];
    }
    if Warns(Init(steps), Partial(layer)) {
      var i :| 0 <= i < |before| && before[i].layerId == layer && before[i].exceeded;
      assert Sets(steps)[i] == before[i];
    }
  }

  /** Exactly which warnings there are. */
  lemma {:induction false} WarningsIff(steps: seq<Step>, w: Warning)
    ensures w in Warnings(steps) <==> Warns(steps, w)
  {
    if steps != [] {
      WarningsIff(Init(steps), w);
      OwnWarnings(steps, w);
      WarnsOneMore(steps, w);
    } else {
      assert Sets(steps) == [];
    }
  }

  // ----- the whole result

  /** No record that is looked at in the k-th call has a bad geometry. */
  ghost predicate CallSound(steps: seq<Step>, k: nat)
    requires k < |steps|
  {
    forall n :: 0 <= n < |steps[k].features| && Seen(steps, k, n) ==> steps[k].features[n].geometryOk
  }

  lemma CallSoundEarlier(steps: seq<Step>, k: nat)
    requires steps != [] && k < |steps| - 1
    ensures CallSound(Init(steps), k) <==> CallSound(steps, k)
  {
    forall n | 0 <= n < |steps[k].features| ensures Seen(Init(steps), k, n) <==> Seen(steps, k, n) {
      SeenEarlier(steps, k, n);
    }
  }

  /** A result is built exactly when no record that is looked at has a bad geometry. */
  lemma {:induction false} SoundIff(steps: seq<Step>)
    ensures AllSound(steps) <==> forall k :: 0 <= k < |steps| ==> CallSound(steps, k)
  {
    if steps != [] {
      SoundIff(Init(steps));
      LastSoundIff(steps);
      forall k | 0 <= k < |steps| - 1 ensures CallSound(Init(steps), k) <==> CallSound(steps, k) {
        CallSoundEarlier(steps, k);
      }
    }
  }

  lemma SoundPrefix(fs: seq<Feature>, count: nat)
    requires count <= |fs|
    ensures Sound(fs[..count]) <==> forall n :: 0 <= n < count ==> fs[n].geometryOk
  {
    assert forall n :: 0 <= n < count ==> fs[..count][n] == fs[n];
  }

  lemma SoundWithin(fs: seq<Feature>, room: nat)
    ensures Sound(Examined(fs, room)) <==>
            forall n :: 0 <= n < |fs| && |Kept(fs[..n])| < room ==> fs[n].geometryOk
  {
    ExaminedFillsRoom(fs, room);
    var count := |Examined(fs, room)|;
    SoundPrefix(fs, count);
    forall n | 0 <= n < |fs| ensures n < count <==> |Kept(fs[..n])| < room {
      ExaminedIff(fs, room, n);
    }
  }

  lemma LastSoundIff(steps: seq<Step>)
    requires steps != []
    ensures Sound(Examined(Last(steps).features, Room(Init(steps)))) <==> CallSound(steps, |steps| - 1)
  {
    var k, fs, room := |steps| - 1, Last(steps).features, Room(Init(steps));
    SoundWithin(fs, room);
    forall n | 0 <= n < |fs| ensures Seen(steps, k, n) <==> |Kept(fs[..n])| < room {
      SeenInLast(steps, n);
    }
  }

  lemma SeenInLast(steps: seq<Step>, n: nat)
    requires steps != [] && n < |Last(steps).features|
    ensures Seen(steps, |steps| - 1, n) <==> |Kept(Last(steps).features[..n])| < Room(Init(steps))
  {
  }

  lemma {:induction false} FiltersAreAll(steps: seq<Step>)
    ensures Filters(steps) == FlatMap((step: Step) => step.filters, steps)
  {
    if steps != [] {
      FiltersAreAll(Init(steps));
    }
  }

  /** Where a warning stands first. */
  function FirstAt(ws: seq<Warning>, w: Warning): nat {
    if ws == [] || ws[0] == w then 0 else 1 + FirstAt(ws[1..], w)
  }

  lemma {:induction false} FirstAtSnoc(ws: seq<Warning>, last: Warning, w: Warning)
    ensures FirstAt(ws + [last], w) == if w in ws then FirstAt(ws, w) else if w == last then |ws| else |ws| + 1
    ensures FirstAt(ws, w) < |ws| <==> w in ws
  {
    if ws != [] && ws[0] != w {
      assert (ws + [last])[1..] == ws[1..] + [last];
      FirstAtSnoc(ws[1..], last, w);
    } else if ws == [] {
      assert (ws + [last])[1..] == [];
    }
  }

  predicate InFirstOrder(kept: seq<Warning>, ws: seq<Warning>) {
    forall i, j :: 0 <= i < j < |kept| ==> FirstAt(ws, kept[i]) < FirstAt(ws, kept[j])
  }

  /** Dropping repetitions leaves the warnings in the order in which each was given first. */
  lemma {:induction false} DedupedKeepsOrder(ws: seq<Warning>)
    ensures InFirstOrder(Deduped(ws), ws)
  {
    if ws != [] {
      var init, last := ws[..|ws| - 1], ws[|ws| - 1];
      var before := Deduped(init);
      assert ws == init + [last];
      DedupedKeepsOrder(init);
      DedupedIsExact(init);
      forall i | 0 <= i < |before| ensures FirstAt(ws, before[i]) == FirstAt(init, before[i]) < |init| {
        assert before[i] in before;
        FirstAtSnoc(init, last, before[i]);
      }
      FirstAtSnoc(init, last, last);
    }
  }

  /** Main result: what a built result says. Its sets are those of calls, in plan order, each with the id,
      layer and total of its call, and incomplete exactly when the call said so or not all are shown; a
      warning stands in it, once, exactly when something in the calls causes it. */
  lemma ResultReports(steps: seq<Step>, result: MapResult) returns (ks: seq<nat>)
    requires result ==
             MapResult(
               Filters(steps), Sets(steps), |FirstN(AllMapped(steps), 200)|, Deduped(Warnings(steps)))
    ensures ComeFrom(result.sets, steps, ks)
    ensures result.returned == SumReturned(result.sets) <= 200
    ensures forall w :: w in result.warnings <==> Warns(steps, w)
    ensures forall i, j :: 0 <= i < j < |result.warnings| ==> result.warnings[i] != result.warnings[j]
    ensures InFirstOrder(result.warnings, Warnings(steps))
    ensures result.filters == FlatMap((step: Step) => step.filters, steps)
  {
    ks := SetsComeFromCalls(steps);
    ShowsFirstFeaturesInPlanOrder(steps);
    FiltersAreAll(steps);
    DedupedIsExact(Warnings(steps));
    DedupedKeepsOrder(Warnings(steps));
    forall w ensures w in result.warnings <==> Warns(steps, w) {
      WarningsIff(steps, w);
    }
  }
}
