/** Collecting the features of several map queries into one result of at most 200 features. */
module MapResult {
  import opened Common

  const MAX_FEATURES: nat := 200

  /** The attribute names that can identify an object, tried in this order. */
  datatype IdField = ObjectId12 | ObjectId | PlainId

  /** A returned record. `geometryOk` is the verdict of the geometry check, `ids` holds the
      identifying attributes that are present and not null. */
  datatype Feature = Feature(geometryOk: bool, hasAttributes: bool, ids: map<IdField, string>, payload: string)

  /** A planned call together with what its tool returned. */
  datatype Step = Step(
    toolCallId: string, filters: seq<string>, layerId: int, total: int, exceeded: bool, features: seq<Feature>)

  datatype Mapped = Mapped(layerId: int, objectId: string, feature: Feature)

  datatype ResultSet = ResultSet(
    toolCallId: string, layerId: int, total: int, returned: nat, exceeded: bool, idField: IdField,
        features: seq<Mapped>)

  datatype Warning =
    | Truncated | NoAttributes(layer: int) | NoObjectId(layer: int) | MixedIds(layer: int) | Partial(layer: int)

  datatype MapResult = MapResult(
    filters: seq<string>, sets: seq<ResultSet>, returned: nat, warnings: seq<Warning>)

  datatype Outcome = Built(result: MapResult) | BadGeometry(layerId: int)

  function IdOf(f: Feature): Option<IdField> {
    if ObjectId12 in f.ids then Some(ObjectId12)
    else if ObjectId in f.ids then Some(ObjectId)
    else if PlainId in f.ids then Some(PlainId)
    else None
  }

  predicate Identified(f: Feature) {
    f.hasAttributes && IdOf(f).Some?
  }

  // ----- specification of one call

  /** The identifying attribute of a call is the one of its first identified record. */
  function FieldOf(fs: seq<Feature>): Option<IdField> {
    if fs == [] then None
    else if Identified(fs[0]) then IdOf(fs[0])
    else FieldOf(fs[1..])
  }

  /** The records that can be shown: those identified the way the first one is. */
  function Chosen(fs: seq<Feature>, field: Option<IdField>): seq<Feature> {
    if fs == [] then []
    else
      var rest := Chosen(fs[..|fs| - 1], field);
      var f := fs[|fs| - 1];
      if Identified(f) && IdOf(f) == field then rest + [f] else rest
  }

  function Kept(fs: seq<Feature>): seq<Feature> {
    Chosen(fs, FieldOf(fs))
  }

  /** The records looked at when there is room for `room` more: all of them, or those up to the one
      that fills the room. */
  function Examined(fs: seq<Feature>, room: nat): seq<Feature> {
    if fs == [] then []
    else
      var before := fs[..|fs| - 1];
      if |Kept(before)| >= room then Examined(before, room) else fs
  }

  predicate Sound(fs: seq<Feature>) {
    forall i :: 0 <= i < |fs| ==> fs[i].geometryOk
  }

  /** What is remarked about the last record of a call. */
  function Remark(fs: seq<Feature>, layer: int): seq<Warning>
    requires fs != []
  {
    var f := fs[|fs| - 1];
    if !f.hasAttributes then [NoAttributes(layer)]
    else if IdOf(f).None? then [NoObjectId(layer)]
    else if IdOf(f) != FieldOf(fs) then [MixedIds(layer)]
    else []
  }

  function Remarks(fs: seq<Feature>, layer: int): seq<Warning> {
    if fs == [] then [] else Remarks(fs[..|fs| - 1], layer) + Remark(fs, layer)
  }

  function Shown(fs: seq<Feature>, layer: int, field: IdField): seq<Mapped>
    requires forall f :: f in fs ==> field in f.ids
  {
    seq(|fs|, i requires 0 <= i < |fs| => Mapped(layer, fs[i].ids[field], fs[i]))
  }

  lemma {:induction false} ChosenHasField(fs: seq<Feature>, field: Option<IdField>)
    requires field.Some?
    ensures forall f :: f in Chosen(fs, field) ==> field.value in f.ids
  {
    if fs != [] {
      ChosenHasField(fs[..|fs| - 1], field);
    }
  }

  lemma {:induction false} FieldOfSnoc(fs: seq<Feature>, f: Feature)
    ensures FieldOf(fs + [f]) ==
            if FieldOf(fs).Some? then FieldOf(fs) else if Identified(f) then IdOf(f) else None
    ensures FieldOf(fs).None? ==> forall field :: Chosen(fs, field) == []
  {
    if fs != [] {
      FieldOfSnoc(fs[1..], f);
      assert (fs + [f])[1..] == fs[1..] + [f];
      if FieldOf(fs).None? {
        forall field ensures Chosen(fs, field) == [] {
          ChosenNothing(fs, field);
        }
      }
    } else {
      assert (fs + [f])[1..] == [];
    }
  }

  lemma {:induction false} ChosenNothing(fs: seq<Feature>, field: Option<IdField>)
    requires FieldOf(fs).None?
    ensures Chosen(fs, field) == []
  {
    if fs != [] {
      NotIdentified(fs, |fs| - 1);
      FieldOfPrefix(fs, |fs| - 1);
      ChosenNothing(fs[..|fs| - 1], field);
    }
  }

  lemma {:induction false} NotIdentified(fs: seq<Feature>, i: nat)
    requires i < |fs| && FieldOf(fs).None?
    ensures !Identified(fs[i])
  {
    if i > 0 {
      NotIdentified(fs[1..], i - 1);
    }
  }

  lemma {:induction false} FieldOfPrefix(fs: seq<Feature>, n: nat)
    requires n <= |fs|
    ensures FieldOf(fs[..n]).Some? ==> FieldOf(fs) == FieldOf(fs[..n])
  {
    if n > 0 && !Identified(fs[0]) {
      FieldOfPrefix(fs[1..], n - 1);
      assert fs[..n][1..] == fs[1..][..n - 1];
    }
  }

  lemma ChosenSnoc(fs: seq<Feature>, f: Feature, field: Option<IdField>)
    ensures Chosen(fs + [f], field) ==
            if Identified(f) && IdOf(f) == field then Chosen(fs, field) + [f] else Chosen(fs, field)
  {
    assert (fs + [f])[..|fs + [f]| - 1] == fs;
  }

  /** Keeping records one by one, with the field fixed on the way, is filtering by the final field. */
  lemma KeptSnoc(fs: seq<Feature>, f: Feature)
    ensures Kept(fs + [f]) == if Identified(f) && IdOf(f) == FieldOf(fs + [f]) then Kept(fs) + [f] else Kept(fs)
  {
    FieldOfSnoc(fs, f);
    var field := FieldOf(fs + [f]);
    assert Chosen(fs, field) == Kept(fs);
    ChosenSnoc(fs, f, field);
  }

  lemma {:induction false} KeptPrefix(fs: seq<Feature>, n: nat)
    requires n <= |fs|
    ensures Kept(fs[..n]) <= Kept(fs)
  {
    if n < |fs| {
      var init := fs[..|fs| - 1];
      assert fs == init + [fs[|fs| - 1]] && init[..n] == fs[..n];
      KeptPrefix(init, n);
      KeptSnoc(init, fs[|fs| - 1]);
    } else {
      assert fs[..n] == fs;
    }
  }

  lemma {:induction false} ExaminedStopsAt(fs: seq<Feature>, n: nat, room: nat)
    requires n <= |fs| && Examined(fs[..n], room) == fs[..n]
    requires n < |fs| ==> |Kept(fs[..n])| >= room
    ensures Examined(fs, room) == fs[..n]
  {
    if n < |fs| {
      var init := fs[..|fs| - 1];
      assert init[..n] == fs[..n];
      KeptPrefix(init, n);
      ExaminedStopsAt(init, n, room);
    } else {
      assert fs[..n] == fs;
    }
  }

  /** Stopping at a full result keeps exactly the first records that fit. */
  lemma {:induction false} ExaminedFillsRoom(fs: seq<Feature>, room: nat)
    ensures Kept(Examined(fs, room)) == FirstN(Kept(fs), room)
    ensures |Examined(fs, room)| <= |fs| && Examined(fs, room) == fs[..|Examined(fs, room)|]
    ensures Examined(fs, room) != fs <==> exists n :: 0 <= n < |fs| && |Kept(fs[..n])| >= room
  {
    if fs != [] {
      var init, f := fs[..|fs| - 1], fs[|fs| - 1];
      ExaminedFillsRoom(init, room);
      assert fs == init + [f];
      KeptSnoc(init, f);
      if |Kept(init)| < room {
        forall n | 0 <= n < |fs| ensures |Kept(fs[..n])| < room {
          KeptPrefix(init, n);
          assert fs[..n] == init[..n];
        }
      }
    }
  }

  // ----- specification of the whole plan

  /** What one call contributes when nothing limits it. */
  function MappedOf(fs: seq<Feature>, layer: int): (r: seq<Mapped>)
    ensures |r| == |Kept(fs)|
  {
    if FieldOf(fs).None? then
      (FieldOfSnoc(fs, Feature(true, false, map[], "")); [])
    else
      (ChosenHasField(fs, FieldOf(fs)); Shown(Kept(fs), layer, FieldOf(fs).value))
  }

  /** Every record that can be shown, call after call in plan order. */
  function AllMapped(steps: seq<Step>): seq<Mapped> {
    if steps == [] then []
    else AllMapped(Init(steps)) + MappedOf(Last(steps).features, Last(steps).layerId)
  }

  function Init(steps: seq<Step>): seq<Step>
    requires steps != []
  {
    steps[..|steps| - 1]
  }

  function Last(steps: seq<Step>): Step
    requires steps != []
  {
    steps[|steps| - 1]
  }

  /** The room left after the given calls. */
  function Room(steps: seq<Step>): nat {
    MAX_FEATURES - Min(|AllMapped(steps)|, MAX_FEATURES)
  }

  function SetsOf(step: Step, room: nat): seq<ResultSet> {
    var seen := Examined(step.features, room);
    var mapped := MappedOf(seen, step.layerId);
    if mapped == [] then []
    else (
      FieldOfSnoc(seen, Feature(true, false, map[], ""));
      [ResultSet(
         step.toolCallId, step.layerId, step.total, |mapped|, step.exceeded || |mapped| < step.total,
         FieldOf(seen).value, mapped)])
  }

  function Sets(steps: seq<Step>): seq<ResultSet> {
    if steps == [] then [] else Sets(Init(steps)) + SetsOf(Last(steps), Room(Init(steps)))
  }

  function StepRemarks(step: Step, room: nat): seq<Warning> {
    var seen := Examined(step.features, room);
    Remarks(seen, step.layerId) + (if seen != step.features then [Truncated] else [])
  }

  function StepWarnings(step: Step, room: nat): seq<Warning> {
    var sets := SetsOf(step, room);
    StepRemarks(step, room) + (if sets != [] && sets[0].exceeded then [Partial(step.layerId)] else [])
  }

  function Warnings(steps: seq<Step>): seq<Warning> {
    if steps == [] then [] else Warnings(Init(steps)) + StepWarnings(Last(steps), Room(Init(steps)))
  }

  predicate AllSound(steps: seq<Step>) {
    steps == [] || (AllSound(Init(steps)) && Sound(Examined(Last(steps).features, Room(Init(steps)))))
  }

  function Filters(steps: seq<Step>): seq<string> {
    if steps == [] then [] else Filters(Init(steps)) + Last(steps).filters
  }

  function Flatten(sets: seq<ResultSet>): seq<Mapped> {
    if sets == [] then [] else Flatten(sets[..|sets| - 1]) + sets[|sets| - 1].features
  }

  function SumReturned(sets: seq<ResultSet>): nat {
    if sets == [] then 0 else SumReturned(sets[..|sets| - 1]) + sets[|sets| - 1].returned
  }

  /** Repeated warnings are dropped, first occurrences stay in place. */
  function Deduped(ws: seq<Warning>): seq<Warning> {
    if ws == [] then []
    else
      var before := Deduped(ws[..|ws| - 1]);
      if ws[|ws| - 1] in before then before else before + [ws[|ws| - 1]]
  }

  // ----- the procedure

  method PlaceFeature(f: Feature, layer: int, mapped: seq<Mapped>, field: Option<IdField>, remarks: seq<Warning>,
                      ghost before: seq<Feature>)
    returns (mapped': seq<Mapped>, field': Option<IdField>, remarks': seq<Warning>)
    requires field == FieldOf(before) && mapped == MappedOf(before, layer) && remarks == Remarks(before, layer)
    ensures field' == FieldOf(before + [f]) && mapped' == MappedOf(before + [f], layer)
    ensures remarks' == Remarks(before + [f], layer)
  {
    FieldOfSnoc(before, f);
    MappedSnoc(before, f, layer);
    mapped', field', remarks' := mapped, field, remarks;
    if !f.hasAttributes {
      remarks' := remarks + [NoAttributes(layer)];
      return;
    }
    var current := IdOf(f);
    if current.None? {
      remarks' := remarks + [NoObjectId(layer)];
      return;
    }
    field' := if field.Some? then field else current;
    if current != field' {
      remarks' := remarks + [MixedIds(layer)];
      return;
    }
    mapped' := mapped + [Mapped(layer, f.ids[field'.value], f)];
  }

  /** What the scan of one call leaves behind. */
  predicate Scanned(
    step: Step, room: nat, sound: bool, mapped: seq<Mapped>, field: Option<IdField>, remarks: seq<Warning>)
  {
    var seen := Examined(step.features, room);
    && sound == Sound(seen)
    && (sound ==>
          && mapped == MappedOf(seen, step.layerId) && field == FieldOf(seen)
          && remarks == StepRemarks(step, room))
  }

  lemma ScanStopsFull(step: Step, i: nat, room: nat)
    requires i < |step.features| && |Kept(step.features[..i])| >= room
    requires Examined(step.features[..i], room) == step.features[..i] && Sound(step.features[..i])
    ensures Scanned(step, room, true, MappedOf(step.features[..i], step.layerId), FieldOf(step.features[..i]),
                    Remarks(step.features[..i], step.layerId) + [Truncated])
  {
    ExaminedStopsAt(step.features, i, room);
    assert |step.features[..i]| < |step.features|;
  }

  method MapFeatures(step: Step, returned: nat)
      returns (sound: bool, mapped: seq<Mapped>, field: Option<IdField>, remarks: seq<Warning>)
    requires returned <= MAX_FEATURES
    ensures Scanned(step, MAX_FEATURES - returned, sound, mapped, field, remarks)
  {
    var fs, layer := step.features, step.layerId;
    ghost var room := MAX_FEATURES - returned;
    mapped, field, remarks := [], None, [];
    for i := 0 to |fs|
      invariant Examined(fs[..i], room) == fs[..i] && Sound(fs[..i])
      invariant field == FieldOf(fs[..i]) && mapped == MappedOf(fs[..i], layer) && remarks == Remarks(fs[..i], layer)
    {
      if returned + |mapped| >= MAX_FEATURES {
        ScanStopsFull(step, i, room);
        return true, mapped, field, remarks + [Truncated];
      }
      ExaminedNext(fs, i, room);
      if !fs[i].geometryOk {
        BadRecordIsExamined(fs, i, room);
        return false, mapped, field, remarks;
      }
      assert fs[..i + 1] == fs[..i] + [fs[i]];
      mapped, field, remarks := PlaceFeature(fs[i], layer, mapped, field, remarks, fs[..i]);
    }
    assert fs[..|fs|] == fs;
    assert remarks + [] == remarks;
    sound := true;
  }

  lemma ExaminedNext(fs: seq<Feature>, i: nat, room: nat)
    requires i < |fs| && |Kept(fs[..i])| < room
    ensures Examined(fs[..i + 1], room) == fs[..i + 1]
  {
    assert fs[..i + 1][..i] == fs[..i];
  }

  lemma {:induction false} ExaminedGrows(fs: seq<Feature>, n: nat, room: nat)
    requires n <= |fs| && Examined(fs[..n], room) == fs[..n]
    ensures fs[..n] <= Examined(fs, room)
  {
    if n < |fs| {
      assert fs[..|fs| - 1][..n] == fs[..n];
      ExaminedGrows(fs[..|fs| - 1], n, room);
    } else {
      assert fs[..n] == fs;
    }
  }

  lemma BadRecordIsExamined(fs: seq<Feature>, i: nat, room: nat)
    requires i < |fs| && Examined(fs[..i + 1], room) == fs[..i + 1] && !fs[i].geometryOk
    ensures !Sound(Examined(fs, room))
  {
    ExaminedGrows(fs, i + 1, room);
    assert fs[..i + 1][i] == fs[i];
    assert Examined(fs, room)[i] == fs[i];
  }

  lemma MappedSnoc(fs: seq<Feature>, f: Feature, layer: int)
    ensures MappedOf(fs + [f], layer) ==
            if Identified(f) && IdOf(f) == FieldOf(fs + [f])
            then MappedOf(fs, layer) + [Mapped(layer, f.ids[IdOf(f).value], f)] else MappedOf(fs, layer)
    ensures forall l :: Remarks(fs + [f], l) == Remarks(fs, l) + Remark(fs + [f], l)
  {
    KeptSnoc(fs, f);
    FieldOfSnoc(fs, f);
    assert (fs + [f])[..|fs + [f]| - 1] == fs;
  }

  method BuildMapResult(steps: seq<Step>) returns (r: Outcome)
    ensures r.Built? <==> AllSound(steps)
    ensures r.Built? ==> r.result == MapResult(
                           Filters(steps), Sets(steps), |FirstN(AllMapped(steps), MAX_FEATURES)|,
                               Deduped(Warnings(steps)))
    ensures r.BadGeometry? ==> exists k ::
              0 <= k < |steps| && AllSound(steps[..k]) && !AllSound(steps[..k + 1]) && r.layerId == steps[k].layerId
  {
    var filters, sets, warnings, returned := [], [], [], 0;
    for i := 0 to |steps|
      invariant AllSound(steps[..i]) && filters == Filters(steps[..i])
      invariant sets == Sets(steps[..i]) && warnings == Warnings(steps[..i])
      invariant returned == MAX_FEATURES - Room(steps[..i])
    {
      PlanGrows(steps, i);
      filters := filters + steps[i].filters;
      if steps[i].features == [] {
        continue;
      }
      var sound, more, remarks, count := MapStep(steps[i], returned);
      if !sound {
        UnsoundStays(steps, i + 1);
        return BadGeometry(steps[i].layerId);
      }
      warnings, sets, returned := warnings + remarks, sets + more, returned + count;
    }
    assert steps[..|steps|] == steps;
    var unique := DropRepeats(warnings);
    return Built(MapResult(filters, sets, returned, unique));
  }

  lemma PlanGrows(steps: seq<Step>, i: nat)
    requires i < |steps|
    ensures var before, step := steps[..i], steps[i];
            && Room(steps[..i + 1]) == Room(before) - |MappedOf(Examined(step.features, Room(before)), step.layerId)|
            && AllSound(steps[..i + 1]) == (AllSound(before) && Sound(Examined(step.features, Room(before))))
            && Filters(steps[..i + 1]) == Filters(before) + step.filters
            && Sets(steps[..i + 1]) == Sets(before) + SetsOf(step, Room(before))
            && Warnings(steps[..i + 1]) == Warnings(before) + StepWarnings(step, Room(before))
  {
    assert Init(steps[..i + 1]) == steps[..i] && Last(steps[..i + 1]) == steps[i];
    assert steps[..i + 1] == steps[..i] + [steps[i]];
    RoomAfter(steps[..i], steps[i]);
  }

  method MapStep(step: Step, returned: nat)
      returns (sound: bool, sets: seq<ResultSet>, warnings: seq<Warning>, count: nat)
    requires returned <= MAX_FEATURES
    ensures var room := MAX_FEATURES - returned;
            && sound == Sound(Examined(step.features, room))
            && (sound ==> sets == SetsOf(step, room) && warnings == StepWarnings(step, room) &&
                          count == |MappedOf(Examined(step.features, room), step.layerId)|)
  {
    var mapped, field;
    sound, mapped, field, warnings := MapFeatures(step, returned);
    sets, count := [], |mapped|;
    if sound && mapped != [] {
      FieldOfSnoc(Examined(step.features, MAX_FEATURES - returned), step.features[0]);
      var exceeded := step.exceeded || |mapped| < step.total;
      if exceeded {
        warnings := warnings + [Partial(step.layerId)];
      }
      sets := [ResultSet(step.toolCallId, step.layerId, step.total, |mapped|, exceeded, field.value, mapped)];
    }
  }

  method DropRepeats(warnings: seq<Warning>) returns (unique: seq<Warning>)
    ensures unique == Deduped(warnings)
  {
    unique := [];
    for i := 0 to |warnings|
      invariant unique == Deduped(warnings[..i])
    {
      assert warnings[..i + 1][..i] == warnings[..i];
      if warnings[i] !in unique {
        unique := unique + [warnings[i]];
      }
    }
    assert warnings[..|warnings|] == warnings;
  }

  lemma {:induction false} UnsoundStays(steps: seq<Step>, n: nat)
    requires n <= |steps| && !AllSound(steps[..n])
    ensures !AllSound(steps)
  {
    if n < |steps| {
      assert Init(steps)[..n] == steps[..n];
      UnsoundStays(Init(steps), n);
    } else {
      assert steps[..n] == steps;
    }
  }

  /** A limited call contributes the first part of what it would contribute unlimited. */
  lemma MappedOfExamined(fs: seq<Feature>, layer: int, room: nat)
    ensures MappedOf(Examined(fs, room), layer) == FirstN(MappedOf(fs, layer), room)
  {
    ExaminedFillsRoom(fs, room);
    FieldOfPrefix(fs, |Examined(fs, room)|);
  }

  lemma RoomAfter(steps: seq<Step>, step: Step)
    ensures Room(steps + [step]) == Room(steps) - |MappedOf(Examined(step.features, Room(steps)), step.layerId)|
  {
    MappedOfExamined(step.features, step.layerId, Room(steps));
    assert Init(steps + [step]) == steps;
  }

  // ----- what the result promises

  /** The shown features are the first two hundred showable ones in plan order, and the counts add up. */
  lemma {:induction false} ShowsFirstFeaturesInPlanOrder(steps: seq<Step>)
    ensures Flatten(Sets(steps)) == FirstN(AllMapped(steps), 200)
    ensures SumReturned(Sets(steps)) == |Flatten(Sets(steps))| <= 200
  {
    if steps != [] {
      ShowsFirstFeaturesInPlanOrder(Init(steps));
      var room := Room(Init(steps));
      var step := Last(steps);
      MappedOfExamined(step.features, step.layerId, room);
      FirstNConcat(AllMapped(Init(steps)), MappedOf(step.features, step.layerId), MAX_FEATURES);
      var sets := Sets(Init(steps));
      if SetsOf(step, room) != [] {
        var s := SetsOf(step, room)[0];
        assert (sets + [s])[..|sets + [s]| - 1] == sets;
      } else {
        assert sets + SetsOf(step, room) == sets;
      }
    }
  }

  /** The share of the configured limit that each planned call may return. */
  function Budget(limit: nat, calls: nat): nat
    requires calls > 0
  {
    Max(1, limit / calls)
  }

  /** If every one of at most six tools honours its share of a limit of at most two hundred, every
      showable feature is shown and no truncation is reported. */
  lemma BudgetPreventsTruncation(steps: seq<Step>, limit: nat)
    requires 0 < |steps| <= 6 && limit <= 200
    requires forall k :: 0 <= k < |steps| ==> |steps[k].features| <= Budget(limit, |steps|)
    ensures Flatten(Sets(steps)) == AllMapped(steps)
    ensures Truncated !in Warnings(steps)
  {
    var budget := Budget(limit, |steps|);
    assert |steps| * budget <= MAX_FEATURES;
    WithinBudget(steps, budget);
    ShowsFirstFeaturesInPlanOrder(steps);
  }

  lemma {:induction false} WithinBudget(steps: seq<Step>, budget: nat)
    requires forall k :: 0 <= k < |steps| ==> |steps[k].features| <= budget
    requires |steps| * budget <= MAX_FEATURES
    ensures |AllMapped(steps)| <= |steps| * budget
    ensures Truncated !in Warnings(steps)
  {
    if steps != [] {
      var n := |steps|;
      assert n * budget == (n - 1) * budget + budget;
      WithinBudget(Init(steps), budget);
      var step, room := Last(steps), Room(Init(steps));
      KeptShrinks(step.features);
      ExaminedFillsRoom(step.features, room);
      forall j | 0 <= j < |step.features| ensures |Kept(step.features[..j])| < room {
        KeptShrinks(step.features[..j]);
      }
      RemarksNotTruncated(step.features, step.layerId);
    }
  }

  lemma {:induction false} KeptShrinks(fs: seq<Feature>)
    ensures |Kept(fs)| <= |fs|
  {
    if fs != [] {
      KeptShrinks(fs[..|fs| - 1]);
      assert fs == fs[..|fs| - 1] + [fs[|fs| - 1]];
      KeptSnoc(fs[..|fs| - 1], fs[|fs| - 1]);
    }
  }

  lemma {:induction false} RemarksNotTruncated(fs: seq<Feature>, layer: int)
    ensures Truncated !in Remarks(fs, layer)
  {
    if fs != [] {
      RemarksNotTruncated(fs[..|fs| - 1], layer);
    }
  }

  /** Dropping repeats loses no warning and leaves none twice. */
  lemma {:induction false} DedupedIsExact(ws: seq<Warning>)
    ensures forall w :: w in Deduped(ws) <==> w in ws
    ensures forall i, j :: 0 <= i < j < |Deduped(ws)| ==> Deduped(ws)[i] != Deduped(ws)[j]
  {
    if ws != [] {
      DedupedIsExact(ws[..|ws| - 1]);
      assert ws == ws[..|ws| - 1] + [ws[|ws| - 1]];
    }
  }
}
