/** The business state of a conversation and the fold step that every committed turn applies to it. */
module ConversationState {
  import opened Common

  datatype MapFilter = MapFilter(field: string, operator: string, value: string)

  datatype HardFilters =
    | NoFilters
    | Planned(json: string)
    | FromMapQuery(priceMax: Option<string>, mapFilters: seq<MapFilter>)

  datatype ResultCount = ResultCount(role: string, layerId: int, total: int, returned: int)

  datatype MapReference = MapReference(queryId: Option<string>, summary: Option<string>, counts: seq<ResultCount>)

  datatype MapResult = MapResult(
    queryId: Option<string>, summary: Option<string>,
    resultSets: seq<ResultCount>, resultCounts: seq<ResultCount>)

  datatype EntityType = Housing | Road

  datatype EntityContext = EntityContext(
    entityType: Option<EntityType>, districts: seq<string>,
    businessObjectIds: seq<string>, selectedLayerIds: seq<int>)

  datatype ToolArguments = ToolArguments(
    districts: Option<seq<string>>, hardFilters: Option<string>, preferences: Option<string>,
    layerId: Option<int>, filters: seq<MapFilter>)

  datatype ToolCall = ToolCall(toolName: string, arguments: ToolArguments)

  datatype QueryContext = QueryContext(
    lastSuccessfulQuery: Option<string>, route: Option<string>, toolName: Option<string>,
    toolArguments: Option<ToolArguments>, hardFilters: HardFilters,
    preferences: Option<string>, resultRef: Option<MapReference>)

  datatype DigestEntry = DigestEntry(query: string, answer: string, route: string)

  datatype BusinessState = BusinessState(
    entity: EntityContext, query: QueryContext, mapContext: Option<string>,
    summary: string, digest: seq<DigestEntry>, updatedAt: Option<int>)

  /** What one execution hands to the commit. `mentioned` are the districts named in the query text. */
  datatype Turn = Turn(
    query: string, answer: string, intent: Option<string>, toolPlan: seq<ToolCall>,
    mapResult: Option<MapResult>, mapContext: Option<string>, businessObjectIds: seq<string>,
    mentioned: seq<string>, updatedAt: int)

  const DIGEST_LIMIT: nat := 12

  const DefaultState: BusinessState := BusinessState(
    EntityContext(None, [], [], []),
    QueryContext(None, None, None, None, NoFilters, None, None),
    None, "", [], None)

  function EntityOf(toolName: string): Option<EntityType> {
    if toolName == "searchHousingCandidates" || toolName == "queryMapPoints" then Some(Housing)
    else if toolName == "queryMapLines" then Some(Road)
    else None
  }

  /** Only a successful map query by a known tool replaces the reusable query state. */
  predicate Recognised(t: Turn) {
    t.intent == Some("MAP_QUERY") && t.toolPlan != [] && EntityOf(t.toolPlan[0].toolName).Some?
  }

  function Digest(t: Turn): DigestEntry {
    DigestEntry(FirstN(t.query, 500), FirstN(t.answer, 800), t.intent.GetOr(""))
  }

  predicate IsPriceCap(f: MapFilter) {
    f.field == "房价" && (f.operator == "<=" || f.operator == "<")
  }

  /** A later price cap overrides an earlier one. */
  function LastPriceCap(filters: seq<MapFilter>): Option<string> {
    if filters == [] then None
    else if IsPriceCap(filters[|filters| - 1]) then Some(filters[|filters| - 1].value)
    else LastPriceCap(filters[..|filters| - 1])
  }

  function Reference(m: Option<MapResult>): Option<MapReference> {
    match m
    case None => None
    case Some(r) =>
      Some(MapReference(r.queryId, r.summary, if r.resultSets != [] then r.resultSets else r.resultCounts))
  }

  function Layers(a: ToolArguments): seq<int> {
    match a.layerId
    case None => []
    case Some(id) => [id]
  }

  function EntityFrom(t: Turn): EntityContext
    requires Recognised(t)
  {
    var call := t.toolPlan[0];
    if call.toolName == "searchHousingCandidates"
    then EntityContext(Some(Housing), call.arguments.districts.GetOr(t.mentioned), t.businessObjectIds, [])
    else EntityContext(EntityOf(call.toolName), t.mentioned, t.businessObjectIds, Layers(call.arguments))
  }

  function QueryFrom(t: Turn): QueryContext
    requires Recognised(t)
  {
    var call := t.toolPlan[0];
    var a := call.arguments;
    var filters :=
      if call.toolName == "searchHousingCandidates" then
        (match a.hardFilters case None => NoFilters case Some(json) => Planned(json))
      else if call.toolName == "queryMapPoints" then FromMapQuery(LastPriceCap(a.filters), a.filters)
      else FromMapQuery(None, a.filters);
    QueryContext(
      Some(t.query), t.intent, Some(call.toolName), Some(a), filters,
      if call.toolName == "searchHousingCandidates" then a.preferences else None,
      Reference(t.mapResult))
  }

  /** The state after one committed turn. */
  function Committed(previous: BusinessState, t: Turn): BusinessState {
    BusinessState(
      if Recognised(t) then EntityFrom(t) else previous.entity.(businessObjectIds := t.businessObjectIds),
      if Recognised(t) then QueryFrom(t) else previous.query,
      t.mapContext,
      FirstN(t.answer, 2000),
      LastN(previous.digest + [Digest(t)], DIGEST_LIMIT),
      Some(t.updatedAt))
  }

  // ----- the committed state, field by field

  /** What every turn leaves: its map context, the first two thousand characters of its answer, the
      objects it selected, and one more entry in a history of at most twelve. */
  predicate CommonPart(state: BusinessState, previous: BusinessState, t: Turn) {
    && state.mapContext == t.mapContext && state.updatedAt == Some(t.updatedAt)
    && state.summary <= t.answer && |state.summary| == Min(|t.answer|, 2000)
    && state.entity.businessObjectIds == t.businessObjectIds
    && state.digest != [] && |state.digest| == Min(|previous.digest| + 1, 12)
    && state.digest[..|state.digest| - 1] == previous.digest[|previous.digest| - (|state.digest| - 1)..]
    && var entry := state.digest[|state.digest| - 1];
       && entry.query <= t.query && |entry.query| == Min(|t.query|, 500)
       && entry.answer <= t.answer && |entry.answer| == Min(|t.answer|, 800)
       && entry.route == match t.intent case Some(intent) => intent case None => ""
  }

  predicate MapQuery(t: Turn, toolName: string) {
    t.intent == Some("MAP_QUERY") && t.toolPlan != [] && t.toolPlan[0].toolName == toolName
  }

  /** The value of the last filter on the price with an upper bound. */
  ghost predicate CapOf(cap: Option<string>, filters: seq<MapFilter>) {
    match cap
    case None => forall i :: 0 <= i < |filters| ==> !UpperPrice(filters[i])
    case Some(value) =>
      exists i :: 0 <= i < |filters| && UpperPrice(filters[i]) && filters[i].value == value &&
        forall j :: i < j < |filters| ==> !UpperPrice(filters[j])
  }

  predicate UpperPrice(f: MapFilter) {
    f.field == "房价" && f.operator in {"<=", "<"}
  }

  predicate SelectsLayer(layers: seq<int>, a: ToolArguments) {
    match a.layerId
    case Some(id) => layers == [id]
    case None => layers == []
  }

  predicate RefersTo(ref: Option<MapReference>, m: Option<MapResult>) {
    match m
    case None => ref == None
    case Some(r) =>
      && ref.Some? && ref.value.queryId == r.queryId && ref.value.summary == r.summary
      && (r.resultSets != [] ==> ref.value.counts == r.resultSets)
      && (r.resultSets == [] ==> ref.value.counts == r.resultCounts)
  }

  /** The new query context is that of the turn's first call. */
  predicate QueryOf(q: QueryContext, t: Turn)
    requires t.toolPlan != []
  {
    && q.lastSuccessfulQuery == Some(t.query) && q.route == Some("MAP_QUERY")
    && q.toolName == Some(t.toolPlan[0].toolName) && q.toolArguments == Some(t.toolPlan[0].arguments)
    && RefersTo(q.resultRef, t.mapResult)
  }

  /** What each tool makes of the reusable query, and that nothing else touches it. */
  ghost predicate QueryPart(state: BusinessState, previous: BusinessState, t: Turn) {
    && (MapQuery(t, "searchHousingCandidates") ==>
          var a := t.toolPlan[0].arguments;
          && QueryOf(state.query, t) && state.entity.entityType == Some(Housing)
          && state.entity.districts == (match a.districts case Some(names) => names case None => t.mentioned)
          && state.entity.selectedLayerIds == []
          && state.query.hardFilters == (match a.hardFilters case Some(json) => Planned(json) case None => NoFilters)
          && state.query.preferences == a.preferences)
    && (MapQuery(t, "queryMapPoints") ==>
          var a := t.toolPlan[0].arguments;
          && QueryOf(state.query, t) && state.entity.entityType == Some(Housing)
          && state.entity.districts == t.mentioned && SelectsLayer(state.entity.selectedLayerIds, a)
          && state.query.hardFilters.FromMapQuery? && state.query.hardFilters.mapFilters == a.filters
          && CapOf(state.query.hardFilters.priceMax, a.filters) && state.query.preferences == None)
    && (MapQuery(t, "queryMapLines") ==>
          var a := t.toolPlan[0].arguments;
          && QueryOf(state.query, t) && state.entity.entityType == Some(Road)
          && state.entity.districts == t.mentioned && SelectsLayer(state.entity.selectedLayerIds, a)
          && state.query.hardFilters == FromMapQuery(None, a.filters) && state.query.preferences == None)
    && (!MapQuery(t, "searchHousingCandidates") && !MapQuery(t, "queryMapPoints") && !MapQuery(t, "queryMapLines") ==>
          && state.query == previous.query
          && state.entity == previous.entity.(businessObjectIds := t.businessObjectIds))
  }

  lemma {:induction false} CapIsLast(filters: seq<MapFilter>)
    ensures CapOf(LastPriceCap(filters), filters)
  {
    if filters != [] {
      var n := |filters| - 1;
      CapIsLast(filters[..n]);
      if !UpperPrice(filters[n]) {
        CapStays(LastPriceCap(filters[..n]), filters);
      }
    }
  }

  lemma CapStays(cap: Option<string>, filters: seq<MapFilter>)
    requires filters != [] && CapOf(cap, filters[..|filters| - 1]) && !UpperPrice(filters[|filters| - 1])
    ensures CapOf(cap, filters)
  {
    var init := filters[..|filters| - 1];
    assert forall i :: 0 <= i < |init| ==> init[i] == filters[i];
    if cap.Some? {
      var i :| 0 <= i < |init| && UpperPrice(init[i]) && init[i].value == cap.value &&
        forall j :: i < j < |init| ==> !UpperPrice(init[j]);
      assert UpperPrice(filters[i]);
    }
  }

  lemma DigestGrows(previous: seq<DigestEntry>, entry: DigestEntry)
    ensures var digest := LastN(previous + [entry], DIGEST_LIMIT);
            && digest != [] && |digest| == Min(|previous| + 1, 12) && digest[|digest| - 1] == entry
            && digest[..|digest| - 1] == previous[|previous| - (|digest| - 1)..]
  {
  }

  lemma CommittedSpelledOut(previous: BusinessState, t: Turn)
    ensures CommonPart(Committed(previous, t), previous, t) && QueryPart(Committed(previous, t), previous, t)
  {
    DigestGrows(previous.digest, Digest(t));
    ToolNamesDiffer();
    if MapQuery(t, "queryMapPoints") {
      CapIsLast(t.toolPlan[0].arguments.filters);
    }
  }

  lemma ToolNamesDiffer()
    ensures "searchHousingCandidates" != "queryMapPoints" && "searchHousingCandidates" != "queryMapLines"
    ensures "queryMapPoints" != "queryMapLines"
  {
    assert |"searchHousingCandidates"| > |"queryMapPoints"| > |"queryMapLines"|;
  }

  method BuildCommittedState(previous: BusinessState, t: Turn) returns (state: BusinessState)
    ensures state == Committed(previous, t)
    ensures CommonPart(state, previous, t) && QueryPart(state, previous, t)
  {
    CommittedSpelledOut(previous, t);
    state := previous;
    state := state.(mapContext := t.mapContext);
    state := state.(summary := FirstN(t.answer, 2000));
    state := state.(updatedAt := Some(t.updatedAt));
    state := state.(entity := state.entity.(businessObjectIds := t.businessObjectIds));
    state := state.(digest := LastN(state.digest + [Digest(t)], DIGEST_LIMIT));
    if t.intent != Some("MAP_QUERY") || t.toolPlan == [] {
      return;
    }
    var call := t.toolPlan[0];
    var a := call.arguments;
    var entityType: Option<EntityType> := None;
    var districts := t.mentioned;
    var hardFilters := NoFilters;
    var preferences: Option<string> := None;
    var layers: seq<int> := [];
    if call.toolName == "searchHousingCandidates" {
      entityType := Some(Housing);
      districts := a.districts.GetOr(districts);
      hardFilters := match a.hardFilters case None => NoFilters case Some(json) => Planned(json);
      preferences := a.preferences;
    } else if call.toolName == "queryMapPoints" {
      entityType := Some(Housing);
      layers := Layers(a);
      var cap: Option<string> := None;
      for i := 0 to |a.filters|
        invariant cap == LastPriceCap(a.filters[..i])
      {
        assert a.filters[..i + 1][..i] == a.filters[..i];
        if IsPriceCap(a.filters[i]) {
          cap := Some(a.filters[i].value);
        }
      }
      assert a.filters[..|a.filters|] == a.filters;
      hardFilters := FromMapQuery(cap, a.filters);
    } else if call.toolName == "queryMapLines" {
      entityType := Some(Road);
      layers := Layers(a);
      hardFilters := FromMapQuery(None, a.filters);
    }
    if entityType.None? {
      return;
    }
    state := state.(entity := EntityContext(entityType, districts, t.businessObjectIds, layers));
    state := state.(query := QueryContext(
      Some(t.query), t.intent, Some(call.toolName), Some(a), hardFilters, preferences, Reference(t.mapResult)));
  }

  /** The state after a whole history of committed turns, oldest first. */
  function Fold(turns: seq<Turn>): BusinessState {
    if turns == [] then DefaultState
    else Committed(Fold(turns[..|turns| - 1]), turns[|turns| - 1])
  }

  function Digests(turns: seq<Turn>): seq<DigestEntry> {
    seq(|turns|, i requires 0 <= i < |turns| => Digest(turns[i]))
  }

  lemma {:induction false} DigestIsLastTwelve(turns: seq<Turn>)
    ensures Fold(turns).digest == LastN(Digests(turns), 12)
  {
    if turns != [] {
      var n := |turns| - 1;
      DigestIsLastTwelve(turns[..n]);
      LastNSnoc(Digests(turns[..n]), Digest(turns[n]), DIGEST_LIMIT);
      assert Digests(turns) == Digests(turns[..n]) + [Digest(turns[n])];
    }
  }

  /** The reusable query state is exactly that of the last recognised map turn, however many other
      turns were committed after it; only the object selection follows the very last turn. */
  lemma {:induction false} QueryComesFromLastMapTurn(turns: seq<Turn>, k: nat)
    requires k < |turns| && Recognised(turns[k])
    requires forall i :: k < i < |turns| ==> !Recognised(turns[i])
    ensures Fold(turns).query == QueryFrom(turns[k])
    ensures Fold(turns).entity == EntityFrom(turns[k]).(businessObjectIds := turns[|turns| - 1].businessObjectIds)
  {
    var n := |turns| - 1;
    if k < n {
      QueryComesFromLastMapTurn(turns[..n], k);
    }
  }

  lemma {:induction false} QueryUntouchedWithoutMapTurn(turns: seq<Turn>)
    requires forall i :: 0 <= i < |turns| ==> !Recognised(turns[i])
    ensures Fold(turns).query == DefaultState.query
    ensures Fold(turns).entity.entityType == None
  {
    if turns != [] {
      QueryUntouchedWithoutMapTurn(turns[..|turns| - 1]);
    }
  }
}
