/** Normalising the arguments a planner proposes for the joint housing search, so that the user's
    own words decide. Reading the words is left to `Query`; weights are real numbers. */
module HousingArguments {
  import opened Common

  datatype Name = Price | Convenience | Road

  const NAMES: seq<Name> := [Price, Convenience, Road]

  datatype Level = PreferLow | PreferHigh | High | VeryHigh

  /** A weight may be missing from the mapping, null, or a number. */
  datatype Weight = Absent | Null | Number(value: real)

  datatype Preference = Preference(enabled: bool, level: Level, weight: Weight)

  datatype Preferences = Preferences(price: Preference, convenience: Preference, road: Preference)

  datatype Mode = Rank | BufferFilter

  datatype Criteria = Criteria(wsMin: Option<real>, gviMin: Option<real>, noiMax: Option<real>)

  datatype Arguments = Arguments(
    mode: Mode, districts: seq<string>, priceMin: Option<real>, priceMax: Option<real>,
    preferences: Preferences, roadCriteria: Criteria, bufferMeters: Option<int>,
    includeRoads: bool, includeBuffers: bool, limit: int)

  datatype Reason =
    | NewWalkMetric | PlannedPricesConflict | PricesConflict | LimitOutOfRange | BufferUnreadable
    | BufferInvented | CriteriaUnreadable | NothingEnabled | WeightsPartial | WeightsNotPositive | FilterWithoutRoad

  datatype Reading<T> = Unreadable | Read(value: T)

  /** Everything the normaliser extracts from the query text. */
  datatype Query = Query(
    newWalk: bool, districts: seq<string>, priceMin: Option<real>, priceMax: Option<real>,
    wantsPrice: bool, wantsConvenience: bool, wantsRoad: bool,
    convenienceLevel: Level, roadLevel: Level, spatial: bool, explicitWeight: bool,
    limit: Option<int>, buffer: Reading<Option<int>>, criteria: Reading<Criteria>)

  datatype Outcome = Ok(arguments: Arguments) | Refused(reason: Reason)

  function Get(p: Preferences, n: Name): Preference {
    match n
    case Price => p.price
    case Convenience => p.convenience
    case Road => p.road
  }

  function With(p: Preferences, n: Name, x: Preference): Preferences {
    match n
    case Price => p.(price := x)
    case Convenience => p.(convenience := x)
    case Road => p.(road := x)
  }

  /** The place of a name in `NAMES`. */
  function Place(n: Name): nat {
    match n
    case Price => 0
    case Convenience => 1
    case Road => 2
  }

  predicate Wants(q: Query, n: Name) {
    match n
    case Price => q.wantsPrice
    case Convenience => q.wantsConvenience
    case Road => q.wantsRoad
  }

  predicate Above(low: Option<real>, high: Option<real>) {
    low.Some? && high.Some? && low.value > high.value
  }

  predicate HardRoad(q: Query) {
    q.wantsRoad && (q.roadLevel == High || q.roadLevel == VeryHigh)
  }

  // ----- specification

  /** The preferences once the user's words have replaced the planner's choices. */
  function Marked(p: Preferences, q: Query): Preferences {
    Preferences(MarkedOne(p, q, Price), MarkedOne(p, q, Convenience), MarkedOne(p, q, Road))
  }

  function MarkedOne(p: Preferences, q: Query, n: Name): Preference {
    Preference(
      Wants(q, n),
      match n
      case Price => PreferLow
      case Convenience => if q.wantsConvenience then q.convenienceLevel else p.convenience.level
      case Road => if q.wantsRoad then q.roadLevel else p.road.level,
      if !q.explicitWeight && Wants(q, n) then Null else Get(p, n).weight)
  }

  function EnabledCount(m: Preferences): nat {
    One(m.price.enabled) + One(m.convenience.enabled) + One(m.road.enabled)
  }

  function One(b: bool): nat {
    if b then 1 else 0
  }

  /** An enabled preference with a number for a weight. */
  predicate Weighted(m: Preferences, n: Name) {
    Get(m, n).enabled && Get(m, n).weight.Number?
  }

  function WeightedCount(m: Preferences): nat {
    One(Weighted(m, Price)) + One(Weighted(m, Convenience)) + One(Weighted(m, Road))
  }

  function Share(m: Preferences, n: Name): real {
    if Weighted(m, n) then Get(m, n).weight.value else 0.0
  }

  function Total(m: Preferences): real {
    Share(m, Price) + Share(m, Convenience) + Share(m, Road)
  }

  function WeightRefusal(m: Preferences): Option<Reason> {
    if EnabledCount(m) == 0 then Some(NothingEnabled)
    else if EnabledCount(m) == 1 || WeightedCount(m) == 0 then None
    else if WeightedCount(m) < EnabledCount(m) then Some(WeightsPartial)
    else if Total(m) <= 0.0 then Some(WeightsNotPositive)
    else None
  }

  function FinalWeight(m: Preferences, n: Name): Weight
    requires WeightRefusal(m).None?
  {
    if !Get(m, n).enabled then Number(0.0)
    else if EnabledCount(m) == 1 then Number(1.0)
    else if WeightedCount(m) > 0 then Number(Get(m, n).weight.value / Total(m))
    else if m.price.enabled then Number(1.0 / EnabledCount(m) as real)
    else Absent
  }

  function Weighed(m: Preferences): Preferences
    requires WeightRefusal(m).None?
  {
    Preferences(
      m.price.(weight := FinalWeight(m, Price)),
      m.convenience.(weight := FinalWeight(m, Convenience)),
      m.road.(weight := FinalWeight(m, Road)))
  }

  function LimitOf(q: Query): int {
    q.limit.GetOr(20)
  }

  /** The first rule that refuses, in the order in which the rules are applied. */
  function Refusal(p: Arguments, q: Query): Option<Reason> {
    if q.newWalk then Some(NewWalkMetric)
    else if Above(p.priceMin, p.priceMax) then Some(PlannedPricesConflict)
    else if Above(q.priceMin, q.priceMax) then Some(PricesConflict)
    else if !(1 <= LimitOf(q) <= 50) then Some(LimitOutOfRange)
    else if q.buffer.Unreadable? then Some(BufferUnreadable)
    else if q.buffer.value.None? && p.bufferMeters.Some? then Some(BufferInvented)
    else if q.criteria.Unreadable? then Some(CriteriaUnreadable)
    else if WeightRefusal(Marked(p.preferences, q)).Some? then WeightRefusal(Marked(p.preferences, q))
    else if !q.wantsRoad && p.mode == BufferFilter then Some(FilterWithoutRoad)
    else None
  }

  function Normalized(p: Arguments, q: Query): Outcome {
    if Refusal(p, q).Some? then Refused(Refusal(p, q).value)
    else Ok(Arguments(
      if HardRoad(q) && q.spatial then BufferFilter else Rank,
      q.districts, q.priceMin, q.priceMax, Weighed(Marked(p.preferences, q)),
      q.criteria.value, q.buffer.value, q.wantsRoad, q.wantsRoad, LimitOf(q)))
  }

  // ----- what the words decide

  predicate Admits(low: Option<real>, high: Option<real>, price: real) {
    (low.Some? ==> low.value <= price) && (high.Some? ==> price <= high.value)
  }

  /** The arguments search for what the words say: the same prices, districts, roads and amount, and each
      preference on exactly if it is wanted, at the level that is wanted. */
  ghost predicate FollowsWords(a: Arguments, q: Query) {
    && (forall price: real :: Admits(a.priceMin, a.priceMax, price) <==> Admits(q.priceMin, q.priceMax, price))
    && a.districts == q.districts
    && (a.mode == BufferFilter <==> q.wantsRoad && q.spatial && q.roadLevel in {High, VeryHigh})
    && q.criteria == Read(a.roadCriteria) && q.buffer == Read(a.bufferMeters)
    && (q.limit == Some(a.limit) || (q.limit == None && a.limit == 20)) && 1 <= a.limit <= 50
    && (a.includeRoads <==> q.wantsRoad) && (a.includeBuffers <==> q.wantsRoad)
    && (a.preferences.price.enabled <==> q.wantsPrice) && a.preferences.price.level == PreferLow
    && (a.preferences.convenience.enabled <==> q.wantsConvenience)
    && (q.wantsConvenience ==> a.preferences.convenience.level == q.convenienceLevel)
    && (a.preferences.road.enabled <==> q.wantsRoad)
    && (q.wantsRoad ==> a.preferences.road.level == q.roadLevel)
  }

  /** A preference that is not wanted keeps its planned level. */
  predicate IdleLevelsStay(a: Arguments, p: Arguments, q: Query) {
    && (!q.wantsConvenience ==> a.preferences.convenience.level == p.preferences.convenience.level)
    && (!q.wantsRoad ==> a.preferences.road.level == p.preferences.road.level)
  }

  predicate Named(p: Arguments, q: Query, n: Name) {
    Wants(q, n) && q.explicitWeight && Get(p.preferences, n).weight.Number?
  }

  function NamedValue(p: Arguments, q: Query, n: Name): real {
    if Named(p, q, n) then Get(p.preferences, n).weight.value else 0.0
  }

  function NamedSum(p: Arguments, q: Query): real {
    NamedValue(p, q, Price) + NamedValue(p, q, Convenience) + NamedValue(p, q, Road)
  }

  function WantedCount(q: Query): nat {
    One(q.wantsPrice) + One(q.wantsConvenience) + One(q.wantsRoad)
  }

  /** One wanted preference gets all the weight. Several get the proportions of the planned numbers if the
      user named weights and the plan has them, and equal shares otherwise, where convenience and road
      together get none. What is not wanted weighs nothing. */
  ghost predicate WeightsFollow(a: Arguments, p: Arguments, q: Query) {
    forall n :: WeightFollows(Get(a.preferences, n).weight, p, q, n)
  }

  predicate WeightFollows(w: Weight, p: Arguments, q: Query, n: Name) {
    if !Wants(q, n) then w == Number(0.0)
    else if WantedCount(q) == 1 then w == Number(1.0)
    else if exists o :: Named(p, q, o) then w.Number? && w.value * NamedSum(p, q) == NamedValue(p, q, n)
    else if q.wantsPrice then w.Number? && w.value * WantedCount(q) as real == 1.0
    else w == Absent
  }

  /** Each reason for a refusal, in terms of the plan and the words. */
  ghost predicate Fails(p: Arguments, q: Query, r: Reason) {
    match r
    case NewWalkMetric => q.newWalk
    case PlannedPricesConflict => Above(p.priceMin, p.priceMax)
    case PricesConflict => Above(q.priceMin, q.priceMax)
    case LimitOutOfRange => q.limit.Some? && (q.limit.value < 1 || q.limit.value > 50)
    case BufferUnreadable => q.buffer.Unreadable?
    case BufferInvented => q.buffer == Read(None) && p.bufferMeters.Some?
    case CriteriaUnreadable => q.criteria.Unreadable?
    case NothingEnabled => !q.wantsPrice && !q.wantsConvenience && !q.wantsRoad
    case WeightsPartial =>
      WantedCount(q) > 1 && (exists n :: Named(p, q, n)) && exists n :: Wants(q, n) && !Named(p, q, n)
    case WeightsNotPositive =>
      && WantedCount(q) > 1 && (exists n :: Named(p, q, n)) && (forall n :: Wants(q, n) ==> Named(p, q, n))
      && NamedSum(p, q) <= 0.0
    case FilterWithoutRoad => p.mode == BufferFilter && !q.wantsRoad
  }

  /** The order in which the rules are applied. */
  function RuleNumber(r: Reason): nat {
    match r
    case NewWalkMetric => 0
    case PlannedPricesConflict => 1
    case PricesConflict => 2
    case LimitOutOfRange => 3
    case BufferUnreadable => 4
    case BufferInvented => 5
    case CriteriaUnreadable => 6
    case NothingEnabled => 7
    case WeightsPartial => 8
    case WeightsNotPositive => 9
    case FilterWithoutRoad => 10
  }

  lemma CountsOfMarked(p: Arguments, q: Query)
    ensures var m := Marked(p.preferences, q);
            && EnabledCount(m) == WantedCount(q) && Total(m) == NamedSum(p, q)
            && (forall n :: Get(m, n).enabled == Wants(q, n)) && (forall n :: Weighted(m, n) <==> Named(p, q, n))
            && (forall n :: Share(m, n) == NamedValue(p, q, n))
            && (WeightedCount(m) > 0 <==> exists n :: Named(p, q, n))
            && (WeightedCount(m) < EnabledCount(m) <==> exists n :: Wants(q, n) && !Named(p, q, n))
  {
    var m := Marked(p.preferences, q);
    assert forall n :: Weighted(m, n) <==> Named(p, q, n);
    assert Named(p, q, Price) || Named(p, q, Convenience) || Named(p, q, Road) <==> WeightedCount(m) > 0;
    assert WeightedCount(m) < EnabledCount(m) <==>
           (Wants(q, Price) && !Named(p, q, Price)) || (Wants(q, Convenience) && !Named(p, q, Convenience)) ||
           (Wants(q, Road) && !Named(p, q, Road));
  }

  lemma ArgumentsFollowWords(p: Arguments, q: Query)
    ensures Normalized(p, q).Ok? ==>
              && FollowsWords(Normalized(p, q).arguments, q) && WeightsFollow(Normalized(p, q).arguments, p, q)
              && IdleLevelsStay(Normalized(p, q).arguments, p, q)
  {
    if Normalized(p, q).Ok? {
      forall n ensures WeightFollows(Get(Normalized(p, q).arguments.preferences, n).weight, p, q, n) {
        OneWeightFollows(p, q, n);
      }
    }
  }

  lemma OneWeightFollows(p: Arguments, q: Query, n: Name)
    requires WeightRefusal(Marked(p.preferences, q)).None?
    ensures WeightFollows(Get(Weighed(Marked(p.preferences, q)), n).weight, p, q, n)
  {
    CountsOfMarked(p, q);
    WeightIsShare(Marked(p.preferences, q), n);
  }

  lemma WeightIsShare(m: Preferences, n: Name)
    requires WeightRefusal(m).None?
    ensures EnabledCount(m) > 1 && Get(m, n).enabled && WeightedCount(m) > 0 ==>
              FinalWeight(m, n).Number? && FinalWeight(m, n).value * Total(m) == Share(m, n)
    ensures EnabledCount(m) > 1 && Get(m, n).enabled && WeightedCount(m) == 0 && m.price.enabled ==>
              FinalWeight(m, n).Number? && FinalWeight(m, n).value * EnabledCount(m) as real == 1.0
  {
    if EnabledCount(m) > 1 && Get(m, n).enabled {
      if WeightedCount(m) > 0 {
        Restore(Share(m, n), Total(m));
      } else {
        Restore(1.0, EnabledCount(m) as real);
      }
    }
  }

  lemma RefusalIsFirstFailure(p: Arguments, q: Query)
    ensures Refusal(p, q).None? <==> forall r :: !Fails(p, q, r)
    ensures Refusal(p, q).Some? ==>
              && Fails(p, q, Refusal(p, q).value)
              && forall r :: RuleNumber(r) < RuleNumber(Refusal(p, q).value) ==> !Fails(p, q, r)
  {
    CountsOfMarked(p, q);
    if Refusal(p, q).None? {
      forall r ensures !Fails(p, q, r) {
        NothingFails(p, q, r);
      }
    } else {
      assert Fails(p, q, Refusal(p, q).value);
    }
  }

  lemma NothingFails(p: Arguments, q: Query, r: Reason)
    requires Refusal(p, q).None?
    ensures !Fails(p, q, r)
  {
    CountsOfMarked(p, q);
    match r
    case WeightsPartial =>
    case WeightsNotPositive =>
    case _ =>
  }

  // ----- the procedure

  /** Marks what the user asked for and takes its level from the words. */
  method MarkRequested(p: Preferences, q: Query) returns (r: Preferences)
    ensures r == Marked(p, q)
  {
    r := p;
    for i := 0 to |NAMES|
      invariant forall n :: Get(r, n) == Get(p, n).(enabled := if Place(n) < i then Wants(q, n) else Get(p, n).enabled)
    {
      r := With(r, NAMES[i], Get(r, NAMES[i]).(enabled := Wants(q, NAMES[i])));
    }
    r := With(r, Price, Get(r, Price).(level := PreferLow));
    if q.wantsConvenience {
      r := With(r, Convenience, Get(r, Convenience).(level := q.convenienceLevel));
    }
    if q.wantsRoad {
      r := With(r, Road, Get(r, Road).(level := q.roadLevel));
    }
    if !q.explicitWeight {
      ghost var before := r;
      for i := 0 to |NAMES|
        invariant forall n ::
          Get(r, n) == if Place(n) < i && Wants(q, n) then Get(before, n).(weight := Null) else Get(before, n)
      {
        if Wants(q, NAMES[i]) {
          r := With(r, NAMES[i], Get(r, NAMES[i]).(weight := Null));
        }
      }
      assert forall n :: Get(r, n) == MarkedOne(p, q, n);
    }
    assert Get(r, Price) == MarkedOne(p, q, Price);
    assert Get(r, Convenience) == MarkedOne(p, q, Convenience);
    assert Get(r, Road) == MarkedOne(p, q, Road);
  }

  method Tally(m: Preferences) returns (enabled: nat, given: nat, total: real, r: Preferences)
    ensures enabled == EnabledCount(m) && given == WeightedCount(m) && total == Total(m)
    ensures forall n :: Get(r, n) == if Get(m, n).enabled then Get(m, n) else Get(m, n).(weight := Number(0.0))
  {
    r := m;
    enabled, given, total := 0, 0, 0.0;
    for i := 0 to |NAMES|
      invariant enabled == CountBefore(m, i) && given == GivenBefore(m, i) && total == TotalBefore(m, i)
      invariant forall n ::
        Get(r, n) == if Place(n) < i && !Get(m, n).enabled then Get(m, n).(weight := Number(0.0)) else Get(m, n)
    {
      var name := NAMES[i];
      if Get(m, name).enabled {
        enabled := enabled + 1;
        if Get(m, name).weight.Number? {
          given, total := given + 1, total + Get(m, name).weight.value;
        }
      } else {
        r := With(r, name, Get(r, name).(weight := Number(0.0)));
      }
    }
  }

  method Spread(m: Preferences, zeroed: Preferences, enabled: nat, given: nat, total: real) returns (r: Preferences)
    requires enabled == EnabledCount(m) && given == WeightedCount(m) && total == Total(m) && WeightRefusal(m).None?
    requires forall n :: Get(zeroed, n) == if Get(m, n).enabled then Get(m, n) else Get(m, n).(weight := Number(0.0))
    ensures r == Weighed(m)
  {
    r := zeroed;
    for i := 0 to |NAMES|
      invariant forall n ::
        Get(r, n) == if Place(n) < i then Get(m, n).(weight := FinalWeight(m, n)) else Get(zeroed, n)
    {
      var name := NAMES[i];
      if Get(m, name).enabled {
        var weight;
        if enabled == 1 {
          weight := Number(1.0);
        } else if given != 0 {
          assert Get(m, name).weight.Number?;
          weight := Number(Get(m, name).weight.value / total);
        } else if m.convenience.enabled && m.road.enabled && !m.price.enabled {
          weight := Absent;
        } else {
          weight := Number(1.0 / enabled as real);
        }
        r := With(r, name, Get(r, name).(weight := weight));
      }
    }
    assert Get(r, Price) == Get(m, Price).(weight := FinalWeight(m, Price));
    assert Get(r, Convenience) == Get(m, Convenience).(weight := FinalWeight(m, Convenience));
    assert Get(r, Road) == Get(m, Road).(weight := FinalWeight(m, Road));
  }

  /** Zeroes the disabled weights and makes the enabled ones add up. */
  method NormalizeWeights(m: Preferences) returns (refused: Option<Reason>, r: Preferences)
    ensures refused == WeightRefusal(m)
    ensures refused.None? ==> r == Weighed(m)
  {
    var enabled, given, total;
    enabled, given, total, r := Tally(m);
    if enabled == 0 {
      return Some(NothingEnabled), r;
    }
    if enabled > 1 && given != 0 && given != enabled {
      return Some(WeightsPartial), r;
    }
    if enabled > 1 && given != 0 && total <= 0.0 {
      return Some(WeightsNotPositive), r;
    }
    r := Spread(m, r, enabled, given, total);
    return None, r;
  }

  function CountBefore(m: Preferences, i: int): nat {
    One(i > 0 && m.price.enabled) + One(i > 1 && m.convenience.enabled) + One(i > 2 && m.road.enabled)
  }

  function GivenBefore(m: Preferences, i: int): nat {
    One(i > 0 && Weighted(m, Price)) + One(i > 1 && Weighted(m, Convenience)) + One(i > 2 && Weighted(m, Road))
  }

  function TotalBefore(m: Preferences, i: int): real {
    (if i > 0 then Share(m, Price) else 0.0) + (if i > 1 then Share(m, Convenience) else 0.0) +
    (if i > 2 then Share(m, Road) else 0.0)
  }

  /** A filter by distance comes out exactly when the words ask for good roads firmly and nearby. */
  method NormalizeArguments(planned: Arguments, q: Query) returns (outcome: Outcome)
    ensures outcome == Normalized(planned, q)
    ensures outcome.Ok? ==>
              && (outcome.arguments.mode == BufferFilter <==> HardRoad(q) && q.spatial)
              && (outcome.arguments.mode == BufferFilter ==>
                    var road := outcome.arguments.preferences.road;
                    road.enabled && road.level in {High, VeryHigh})
    ensures outcome.Ok? ==>
              && FollowsWords(outcome.arguments, q) && WeightsFollow(outcome.arguments, planned, q)
              && IdleLevelsStay(outcome.arguments, planned, q)
    ensures outcome.Ok? <==> forall r :: !Fails(planned, q, r)
    ensures outcome.Refused? ==>
              && Fails(planned, q, outcome.reason)
              && forall r :: RuleNumber(r) < RuleNumber(outcome.reason) ==> !Fails(planned, q, r)
  {
    ArgumentsFollowWords(planned, q);
    RefusalIsFirstFailure(planned, q);
    if q.newWalk {
      return Refused(NewWalkMetric);
    }
    var arguments := planned.(districts := q.districts);
    if Above(planned.priceMin, planned.priceMax) {
      return Refused(PlannedPricesConflict);
    }
    arguments := arguments.(priceMin := q.priceMin, priceMax := q.priceMax);
    if Above(q.priceMin, q.priceMax) {
      return Refused(PricesConflict);
    }
    var marked := MarkRequested(planned.preferences, q);
    if q.wantsRoad {
      var hard := marked.road.level == High || marked.road.level == VeryHigh;
      arguments := arguments.(mode := if hard && q.spatial then BufferFilter else Rank);
    }
    arguments := arguments.(includeRoads := q.wantsRoad, includeBuffers := q.wantsRoad, limit := q.limit.GetOr(20));
    if !(1 <= arguments.limit <= 50) {
      return Refused(LimitOutOfRange);
    }
    if q.buffer.Unreadable? {
      return Refused(BufferUnreadable);
    }
    if q.buffer.value.None? && planned.bufferMeters.Some? {
      return Refused(BufferInvented);
    }
    arguments := arguments.(bufferMeters := q.buffer.value);
    if q.criteria.Unreadable? {
      return Refused(CriteriaUnreadable);
    }
    arguments := arguments.(roadCriteria := q.criteria.value);
    var refused, weighed := NormalizeWeights(marked);
    if refused.Some? {
      return Refused(refused.value);
    }
    arguments := arguments.(preferences := weighed);
    if arguments.mode == BufferFilter &&
        !(weighed.road.enabled && (weighed.road.level == High || weighed.road.level == VeryHigh)) {
      return Refused(FilterWithoutRoad);
    }
    return Ok(arguments);
  }

  // ----- what the normaliser is for

  predicate EqualButForIdleLevels(a: Arguments, b: Arguments) {
    && a == b.(preferences := a.preferences)
    && forall n ::
         && Get(a.preferences, n) == Get(b.preferences, n).(level := Get(a.preferences, n).level)
         && (Get(a.preferences, n).enabled ==> Get(a.preferences, n) == Get(b.preferences, n))
  }

  /** Unless the user named weights, no plan can influence the search: any two plans that pass give
      the same arguments, save for the levels of preferences that are switched off. */
  lemma PlansDoNotInterfere(p1: Arguments, p2: Arguments, q: Query)
    requires !q.explicitWeight
    requires Normalized(p1, q).Ok? && Normalized(p2, q).Ok?
    ensures EqualButForIdleLevels(Normalized(p1, q).arguments, Normalized(p2, q).arguments)
  {
    var m1, m2 := Marked(p1.preferences, q), Marked(p2.preferences, q);
    assert EnabledCount(m1) == EnabledCount(m2) && WeightedCount(m1) == 0 && WeightedCount(m2) == 0;
    forall n ensures FinalWeight(m1, n) == FinalWeight(m2, n) {
    }
  }

  /** When the user named weights, two plans that pass end with the same weights exactly when the
      numbers they propose for the wanted preferences are in the same proportion. */
  lemma NamedWeightsMatterAsRatios(m1: Preferences, m2: Preferences)
    requires WeightRefusal(m1).None? && WeightRefusal(m2).None?
    requires forall n :: Get(m1, n).enabled == Get(m2, n).enabled
    requires EnabledCount(m1) > 1 && WeightedCount(m1) > 0 && WeightedCount(m2) > 0
    ensures (forall n :: FinalWeight(m1, n) == FinalWeight(m2, n)) <==>
            (forall n :: Share(m1, n) * Total(m2) == Share(m2, n) * Total(m1))
  {
    assert Get(m1, Price).enabled == Get(m2, Price).enabled && Get(m1, Road).enabled == Get(m2, Road).enabled;
    assert Get(m1, Convenience).enabled == Get(m2, Convenience).enabled;
    forall n ensures FinalWeight(m1, n) == FinalWeight(m2, n) <==>
        Share(m1, n) * Total(m2) == Share(m2, n) * Total(m1) {
      SameQuotient(Share(m1, n), Total(m1), Share(m2, n), Total(m2));
    }
  }

  lemma SameQuotient(a: real, s: real, b: real, t: real)
    requires s > 0.0 && t > 0.0
    ensures a / s == b / t <==> a * t == b * s
  {
    assert a == (a / s) * s && b == (b / t) * t;
    if a / s == b / t {
      assert a * t == (a / s) * s * t == (b / t) * t * s;
    }
    if a * t == b * s {
      assert a / s == (a * t) / (s * t) by { Cancel(a, s, t); }
      assert b / t == (b * s) / (t * s) by { Cancel(b, t, s); }
      assert s * t == t * s;
    }
  }

  lemma Cancel(a: real, s: real, t: real)
    requires s > 0.0 && t > 0.0
    ensures s * t > 0.0 && a / s == (a * t) / (s * t)
  {
    var x := a / s;
    assert x * s == a;
    assert x * (s * t) == (x * s) * t == a * t;
  }

  /** A plan for words without weights is refused for the words alone, or for one of three things
      the planner must not do. */
  lemma RefusedForPlanOnlyIf(p: Arguments, q: Query)
    requires !q.explicitWeight
    ensures Normalized(p, q).Ok? <==>
            && WordsAcceptable(q)
            && !Above(p.priceMin, p.priceMax)
            && (p.bufferMeters.Some? ==> q.buffer.value.Some?)
            && (p.mode == BufferFilter ==> q.wantsRoad)
  {
    assert WeightedCount(Marked(p.preferences, q)) == 0;
  }

  predicate WordsAcceptable(q: Query) {
    && !q.newWalk && !Above(q.priceMin, q.priceMax) && 1 <= LimitOf(q) <= 50
    && q.buffer.Read? && q.criteria.Read?
    && (q.wantsPrice || q.wantsConvenience || q.wantsRoad)
  }

  /** Normalising what was already normalised for the same words changes nothing. */
  lemma NormalizingTwiceIsOnce(p: Arguments, q: Query)
    requires Normalized(p, q).Ok?
    ensures Normalized(Normalized(p, q).arguments, q) == Normalized(p, q)
  {
    var a := Normalized(p, q).arguments;
    var m, m2 := Marked(p.preferences, q), Marked(a.preferences, q);
    assert EnabledCount(m2) == EnabledCount(m);
    WeightsAddUp(m);
    assert forall n :: Get(m2, n).enabled == Get(m, n).enabled && Get(m2, n).level == Get(m, n).level;
    if EnabledCount(m) > 1 && q.explicitWeight {
      assert Get(m2, Price).weight == FinalWeight(m, Price) &&
          Get(m2, Convenience).weight == FinalWeight(m, Convenience) &&
             Get(m2, Road).weight == FinalWeight(m, Road);
      if WeightedCount(m) == 0 && !m.price.enabled {
        assert WeightedCount(m2) == 0;
      } else {
        assert WeightedCount(m2) == EnabledCount(m);
        assert Total(m2) == 1.0;
      }
    }
    assert WeightRefusal(m2).None?;
    forall n ensures FinalWeight(m2, n) == FinalWeight(m, n) {
    }
  }

  /** The enabled weights add up to one, or they are left out for exactly convenience and road. */
  lemma WeightsAddUp(m: Preferences)
    requires WeightRefusal(m).None?
    ensures var w := Weighed(m);
            && (forall n :: !Get(w, n).enabled ==> Get(w, n).weight == Number(0.0))
            && (|| (WeightedCount(w) == EnabledCount(w) && Total(w) == 1.0)
                || (w.convenience.enabled && w.road.enabled && !w.price.enabled &&
                    w.convenience.weight == Absent && w.road.weight == Absent))
  {
    var w := Weighed(m);
    if EnabledCount(m) > 1 && WeightedCount(m) > 0 {
      SumOfQuotients(Share(m, Price), Share(m, Convenience), Share(m, Road), Total(m));
      assert forall n :: Share(w, n) == Share(m, n) / Total(m);
    }
  }

  lemma SumOfQuotients(a: real, b: real, c: real, t: real)
    requires t == a + b + c && t > 0.0
    ensures a / t + b / t + c / t == 1.0
  {
    Restore(a, t);
    Restore(b, t);
    Restore(c, t);
    FactorsSumToOne(a / t, b / t, c / t, a, b, c, t);
  }

  lemma Restore(a: real, t: real)
    requires t > 0.0
    ensures (a / t) * t == a
  {
  }

  lemma FactorsSumToOne(x: real, y: real, z: real, a: real, b: real, c: real, t: real)
    requires t > 0.0 && x * t == a && y * t == b && z * t == c && t == a + b + c
    ensures x + y + z == 1.0
  {
    assert (x + y + z - 1.0) * t == 0.0;
  }
}
