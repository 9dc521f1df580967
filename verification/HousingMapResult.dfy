/** Turning the answer of the joint housing search into map layers without losing or reordering records. */
module HousingMapResult {
  import opened Common

  const MAX_FEATURES: nat := 200

  /** A returned record. `sound` says that the layer is a number and the geometry is valid. */
  datatype Item = Item(layerId: int, sound: bool, payload: string)

  datatype Role = HousingCandidates | ContributingRoads

  datatype Layer = Layer(role: Role, layerId: int, items: seq<Item>)

  datatype Reason = BadPoint | BadRoad | BadBuffer | TooMany

  datatype Outcome = Built(layers: seq<Layer>, overlays: seq<Item>) | Refused(reason: Reason)

  predicate AllSound(items: seq<Item>) {
    forall i :: 0 <= i < |items| ==> items[i].sound
  }

  /** The records of one layer in their original order. */
  function OfLayer(items: seq<Item>, layer: int): seq<Item> {
    if items == [] then []
    else
      var rest := OfLayer(items[..|items| - 1], layer);
      var item := items[|items| - 1];
      if item.layerId == layer then rest + [item] else rest
  }

  function LayersOf(items: seq<Item>): set<int> {
    if items == [] then {} else LayersOf(items[..|items| - 1]) + {items[|items| - 1].layerId}
  }

  predicate Increasing(s: seq<int>) {
    forall i, j :: 0 <= i < j < |s| ==> s[i] < s[j]
  }

  /** `layers` lists each layer of the records once, in increasing order, with all its records. */
  predicate Groups(layers: seq<Layer>, items: seq<Item>, role: Role) {
    var ids := seq(|layers|, i requires 0 <= i < |layers| => layers[i].layerId);
    && Increasing(ids)
    && (set id | id in ids) == LayersOf(items)
    && forall i :: 0 <= i < |layers| ==> layers[i] == Layer(role, layers[i].layerId, OfLayer(items, layers[i].layerId))
  }

  method GroupByLayer(items: seq<Item>) returns (sound: bool, byLayer: map<int, seq<Item>>)
    ensures sound == AllSound(items)
    ensures sound ==> byLayer.Keys == LayersOf(items) && forall l :: l in byLayer ==> byLayer[l] == OfLayer(items, l)
  {
    byLayer := map[];
    for i := 0 to |items|
      invariant AllSound(items[..i])
      invariant byLayer.Keys == LayersOf(items[..i])
      invariant forall l :: OfLayer(items[..i], l) == if l in byLayer then byLayer[l] else []
    {
      assert items[..i + 1][..i] == items[..i];
      var item := items[i];
      if !item.sound {
        return false, byLayer;
      }
      forall l ensures OfLayer(items[..i + 1], l) == OfLayer(items[..i], l) + if item.layerId == l then [item] else [] {
      }
      byLayer := byLayer[item.layerId := (if item.layerId in byLayer then byLayer[item.layerId] else []) + [item]];
    }
    assert items[..|items|] == items;
    sound := true;
  }

  predicate Least(m: int, s: set<int>) {
    m in s && forall k :: k in s ==> m <= k
  }

  lemma {:induction false} HasLeast(s: set<int>, x: int)
    requires x in s
    ensures exists m :: Least(m, s)
  {
    if s == {x} {
      assert Least(x, s);
    } else {
      var rest := s - {x};
      assert rest == {} ==> s == {x};
      assert (forall y :: y !in rest) ==> rest == {};
      var y :| y in rest;
      HasLeast(rest, y);
      var m :| Least(m, rest);
      assert forall k :: k in s ==> k == x || k in rest;
      assert Least(if x < m then x else m, s);
    }
  }

  method SortedIds(ids: set<int>) returns (sorted: seq<int>)
    ensures Increasing(sorted)
    ensures forall id :: id in sorted <==> id in ids
  {
    sorted := [];
    var rest := ids;
    while rest != {}
      invariant rest <= ids && Increasing(sorted)
      invariant forall id :: id in ids <==> id in sorted || id in rest
      invariant forall i, k :: 0 <= i < |sorted| && k in rest ==> sorted[i] < k
      decreases |rest|
    {
      assert (forall id :: id !in rest) ==> rest == {};
      var some :| some in rest;
      HasLeast(rest, some);
      var least :| Least(least, rest);
      sorted := sorted + [least];
      rest := rest - {least};
    }
  }

  method SortedLayers(byLayer: map<int, seq<Item>>, role: Role) returns (layers: seq<Layer>)
    ensures forall i, j :: 0 <= i < j < |layers| ==> layers[i].layerId < layers[j].layerId
    ensures forall i :: 0 <= i < |layers| ==>
              layers[i].layerId in byLayer && layers[i] == Layer(role, layers[i].layerId, byLayer[layers[i].layerId])
    ensures forall l :: l in byLayer ==> Listed(layers, l)
  {
    var ids := SortedIds(byLayer.Keys);
    layers := [];
    for i := 0 to |ids|
      invariant |layers| == i <= |ids|
      invariant forall j :: 0 <= j < i ==> ids[j] in byLayer && layers[j] == Layer(role, ids[j], byLayer[ids[j]])
    {
      assert ids[i] in ids;
      layers := layers + [Layer(role, ids[i], byLayer[ids[i]])];
    }
    forall l | l in byLayer ensures Listed(layers, l) {
      var i :| 0 <= i < |ids| && ids[i] == l;
      assert layers[i].layerId == l;
    }
  }

  predicate Listed(layers: seq<Layer>, id: int) {
    exists i :: 0 <= i < |layers| && layers[i].layerId == id
  }

  method CountRecords(layers: seq<Layer>) returns (total: nat)
    ensures total == Size(layers)
  {
    total := 0;
    for i := 0 to |layers|
      invariant total == Size(layers[..i])
    {
      assert layers[..i + 1][..i] == layers[..i];
      total := total + |layers[i].items|;
    }
    assert layers[..|layers|] == layers;
  }

  method CheckBuffers(buffers: seq<Item>) returns (sound: bool, overlays: seq<Item>)
    ensures sound == AllSound(buffers) && (sound ==> overlays == buffers)
  {
    overlays := [];
    for i := 0 to |buffers|
      invariant AllSound(buffers[..i]) && overlays == buffers[..i]
    {
      if !buffers[i].sound {
        return false, overlays;
      }
      overlays := overlays + [buffers[i]];
    }
    sound := true;
  }

  method BuildHousingMapResult(housing: seq<Item>, roads: seq<Item>, buffers: seq<Item>) returns (r: Outcome)
    ensures r.Refused? ==> r.reason ==
                           if !AllSound(housing) then BadPoint else if !AllSound(roads) then BadRoad
                           else if !AllSound(buffers) then BadBuffer else TooMany
    ensures r.Built? <==>
              AllSound(housing) && AllSound(roads) && AllSound(buffers) && |housing| + |roads| <= 200
    ensures r.Built? ==> r.overlays == buffers && exists n ::
                && 0 <= n <= |r.layers|
                && Groups(r.layers[..n], housing, HousingCandidates)
                && Groups(r.layers[n..], roads, ContributingRoads)
  {
    var ok, housingByLayer := GroupByLayer(housing);
    if !ok {
      return Refused(BadPoint);
    }
    var roadsByLayer;
    ok, roadsByLayer := GroupByLayer(roads);
    if !ok {
      return Refused(BadRoad);
    }
    var first := SortedLayers(housingByLayer, HousingCandidates);
    var second := SortedLayers(roadsByLayer, ContributingRoads);
    ListsEveryLayer(first, housing, HousingCandidates);
    ListsEveryLayer(second, roads, ContributingRoads);
    var overlays;
    ok, overlays := CheckBuffers(buffers);
    if !ok {
      return Refused(BadBuffer);
    }
    LayersHoldEveryRecord(first, housing, HousingCandidates);
    LayersHoldEveryRecord(second, roads, ContributingRoads);
    var candidates := CountRecords(first);
    var contributing := CountRecords(second);
    if candidates + contributing > MAX_FEATURES {
      return Refused(TooMany);
    }
    assert (first + second)[..|first|] == first && (first + second)[|first|..] == second;
    return Built(first + second, overlays);
  }

  lemma ListsEveryLayer(layers: seq<Layer>, items: seq<Item>, role: Role)
    requires forall i, j :: 0 <= i < j < |layers| ==> layers[i].layerId < layers[j].layerId
    requires forall i :: 0 <= i < |layers| ==>
               layers[i].layerId in LayersOf(items) &&
                   layers[i] == Layer(role, layers[i].layerId, OfLayer(items, layers[i].layerId))
    requires forall l :: l in LayersOf(items) ==> Listed(layers, l)
    ensures Groups(layers, items, role)
  {
    var ids := seq(|layers|, i requires 0 <= i < |layers| => layers[i].layerId);
    forall l | l in LayersOf(items) ensures l in ids {
      var i :| 0 <= i < |layers| && layers[i].layerId == l;
      assert ids[i] == l;
    }
  }

  function Size(layers: seq<Layer>): nat {
    if layers == [] then 0 else Size(layers[..|layers| - 1]) + |layers[|layers| - 1].items|
  }

  function Contents(layers: seq<Layer>): multiset<Item> {
    if layers == [] then multiset{} else Contents(layers[..|layers| - 1]) + multiset(layers[|layers| - 1].items)
  }

  /** Grouping neither drops nor repeats a record. */
  lemma LayersHoldEveryRecord(layers: seq<Layer>, items: seq<Item>, role: Role)
    requires Groups(layers, items, role)
    ensures Contents(layers) == multiset(items) && Size(layers) == |items|
  {
    ContentsAreRecords(layers, items, role);
    assert forall i :: 0 <= i < |layers| ==> layers[i].items == OfLayer(items, layers[i].layerId);
    SizeIsCount(layers);
  }

  lemma {:induction false} SizeIsCount(layers: seq<Layer>)
    ensures Size(layers) == |Contents(layers)|
  {
    if layers != [] {
      SizeIsCount(layers[..|layers| - 1]);
    }
  }

  lemma {:induction false} OfLayerCounts(items: seq<Item>, l: int, x: Item)
    ensures multiset(OfLayer(items, l))[x] == if x.layerId == l then multiset(items)[x] else 0
    ensures x in items ==> x.layerId in LayersOf(items)
  {
    if items != [] {
      OfLayerCounts(items[..|items| - 1], l, x);
      assert items == items[..|items| - 1] + [items[|items| - 1]];
    }
  }

  lemma {:induction false} PrefixCounts(layers: seq<Layer>, items: seq<Item>, x: Item, k: nat)
    requires k <= |layers|
    requires forall i, j :: 0 <= i < j < |layers| ==> layers[i].layerId < layers[j].layerId
    requires forall i :: 0 <= i < |layers| ==> layers[i].items == OfLayer(items, layers[i].layerId)
    ensures Contents(layers[..k])[x] ==
            if exists i :: 0 <= i < k && layers[i].layerId == x.layerId then multiset(items)[x] else 0
  {
    if k > 0 {
      PrefixCounts(layers, items, x, k - 1);
      assert layers[..k][..k - 1] == layers[..k - 1];
      OfLayerCounts(items, layers[k - 1].layerId, x);
      if layers[k - 1].layerId == x.layerId {
        assert forall i :: 0 <= i < k - 1 ==> layers[i].layerId < x.layerId;
      }
    }
  }

  lemma ContentsAreRecords(layers: seq<Layer>, items: seq<Item>, role: Role)
    requires Groups(layers, items, role)
    ensures Contents(layers) == multiset(items)
  {
    var ids := seq(|layers|, i requires 0 <= i < |layers| => layers[i].layerId);
    assert forall i :: 0 <= i < |layers| ==> ids[i] == layers[i].layerId;
    assert forall i :: 0 <= i < |layers| ==> layers[i].items == OfLayer(items, layers[i].layerId);
    forall x: Item ensures Contents(layers)[x] == multiset(items)[x] {
      PrefixCounts(layers, items, x, |layers|);
      assert layers[..|layers|] == layers;
      if x in items {
        OfLayerCounts(items, x.layerId, x);
        assert x.layerId in (set id | id in ids);
        var i :| 0 <= i < |ids| && ids[i] == x.layerId;
        assert layers[i].layerId == x.layerId;
      }
    }
  }

  /** How many of the first `i` records lie in the layer. */
  function Rank(items: seq<Item>, layer: int, i: nat): nat
    requires i <= |items|
  {
    if i == 0 then 0 else Rank(items, layer, i - 1) + if items[i - 1].layerId == layer then 1 else 0
  }

  lemma {:induction false} RankInPrefix(items: seq<Item>, layer: int, n: nat, i: nat)
    requires i <= n <= |items|
    ensures Rank(items[..n], layer, i) == Rank(items, layer, i)
  {
    if i > 0 {
      RankInPrefix(items, layer, n, i - 1);
    }
  }

  lemma {:induction false} LayerLength(items: seq<Item>, layer: int)
    ensures |OfLayer(items, layer)| == Rank(items, layer, |items|)
  {
    if items != [] {
      LayerLength(items[..|items| - 1], layer);
      RankInPrefix(items, layer, |items| - 1, |items| - 1);
    }
  }

  /** Within its layer a record stands behind exactly those of the layer that came before it. */
  lemma {:induction false} LayerKeepsOrder(items: seq<Item>, i: nat)
    requires i < |items|
    ensures var layer := OfLayer(items, items[i].layerId);
            && |layer| == Rank(items, items[i].layerId, |items|)
            && Rank(items, items[i].layerId, i) < |layer| && layer[Rank(items, items[i].layerId, i)] == items[i]
  {
    var n := |items| - 1;
    LayerLength(items, items[i].layerId);
    RankInPrefix(items, items[i].layerId, n, i);
    if i < n {
      LayerKeepsOrder(items[..n], i);
    } else {
      LayerLength(items[..n], items[i].layerId);
    }
  }
}
