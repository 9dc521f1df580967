/** What a schema accepts, and that adapting it for the provider only widens that. The meaning follows
    the validation vocabulary of JSON Schema 2020-12 (sections 6.1 to 6.5) with `properties`,
    `additionalProperties`, `items` and `anyOf`. */
module SchemaWidening {
  import opened Common
  import opened ProviderSchema

  /** How `format` and `pattern` judge a string is left open. */
  type Oracle = (string, Json, string) -> bool

  function Number(v: Json): Option<real> {
    match v
    case Int(n) => Some(n as real)
    case Float(x) => Some(x)
    case _ => None
  }

  predicate SameValue(a: Json, b: Json) {
    a == b || (Number(a).Some? && Number(a) == Number(b))
  }

  predicate HasType(name: Json, v: Json) {
    match name
    case Str("null") => v.Null?
    case Str("boolean") => v.Bool?
    case Str("integer") => v.Int? || (v.Float? && v.x.Floor as real == v.x)
    case Str("number") => v.Int? || v.Float?
    case Str("string") => v.Str?
    case Str("array") => v.Arr?
    case Str("object") => v.Obj?
    case _ => false
  }

  predicate TypeAccepts(arg: Option<Json>, v: Json) {
    match arg
    case None => true
    case Some(Arr(names)) => exists i :: 0 <= i < |names| && HasType(names[i], v)
    case Some(name) => HasType(name, v)
  }

  predicate ConstAccepts(arg: Option<Json>, v: Json) {
    arg.Some? ==> SameValue(v, arg.value)
  }

  predicate EnumAccepts(arg: Option<Json>, v: Json) {
    arg.Some? && arg.value.Arr? ==> exists i :: 0 <= i < |arg.value.items| && SameValue(v, arg.value.items[i])
  }

  predicate RequiredAccepts(arg: Option<Json>, v: Json) {
    arg.Some? && arg.value.Arr? && v.Obj? ==>
      forall i :: 0 <= i < |arg.value.items| && arg.value.items[i].Str? ==> Has(v.fields, arg.value.items[i].s)
  }

  function Argument(fs: seq<Field>, key: string): Option<real> {
    if Has(fs, key) then Number(Find(fs, key).value) else None
  }

  function SizeOf(v: Json): Option<real> {
    match v
    case Str(s) => Some(|s| as real)
    case Arr(items) => Some(|items| as real)
    case _ => None
  }

  predicate Between(low: Option<real>, x: Option<real>, high: Option<real>) {
    x.Some? ==> (low.Some? ==> low.value <= x.value) && (high.Some? ==> x.value <= high.value)
  }

  /** The limits the provider does not support. */
  predicate LimitsAccept(fs: seq<Field>, v: Json, oracle: Oracle) {
    && Between(Argument(fs, "minimum"), Number(v), Argument(fs, "maximum"))
    && (v.Str? ==> Between(Argument(fs, "minLength"), SizeOf(v), Argument(fs, "maxLength")))
    && (v.Arr? ==> Between(Argument(fs, "minItems"), SizeOf(v), Argument(fs, "maxItems")))
    && (v.Str? && Has(fs, "pattern") ==> oracle("pattern", Find(fs, "pattern").value, v.s))
    && (v.Str? && Has(fs, "format") ==> oracle("format", Find(fs, "format").value, v.s))
    && (v.Arr? && Find(fs, "uniqueItems") == Some(Bool(true)) ==>
          forall i, j :: 0 <= i < j < |v.items| ==> !SameValue(v.items[i], v.items[j]))
  }

  predicate Accepts(schema: Json, v: Json, oracle: Oracle)
    decreases schema
  {
    match schema
    case Bool(b) => b
    case Obj(fs) =>
      && TypeAccepts(Find(fs, "type"), v) && ConstAccepts(Find(fs, "const"), v)
      && EnumAccepts(Find(fs, "enum"), v) && RequiredAccepts(Find(fs, "required"), v)
      && LimitsAccept(fs, v, oracle)
      && (Has(fs, "properties") && Find(fs, "properties").value.Obj? && v.Obj? ==>
            var ps := Find(fs, "properties").value.fields;
            forall i :: 0 <= i < |v.fields| && Has(ps, v.fields[i].key) ==>
              Accepts(Find(ps, v.fields[i].key).value, v.fields[i].value, oracle))
      && (Has(fs, "additionalProperties") && v.Obj? ==>
            forall i :: 0 <= i < |v.fields| && !Lists(fs, v.fields[i].key) ==>
              Accepts(Find(fs, "additionalProperties").value, v.fields[i].value, oracle))
      && (Has(fs, "items") && v.Arr? ==>
            forall i :: 0 <= i < |v.items| ==> Accepts(Find(fs, "items").value, v.items[i], oracle))
      && (Has(fs, "anyOf") && Find(fs, "anyOf").value.Arr? ==>
            var options := Find(fs, "anyOf").value.items;
            exists i :: 0 <= i < |options| && Accepts(options[i], v, oracle))
    case _ => false
  }

  /** The object schema names a property. */
  predicate Lists(fs: seq<Field>, name: string) {
    Has(fs, "properties") && Find(fs, "properties").value.Obj? && Has(Find(fs, "properties").value.fields, name)
  }

  // ----- the schemas considered

  const KNOWN: set<string> :=
    {"type", "const", "enum", "required", "properties", "additionalProperties", "items", "anyOf", "title",
     "description", "default"} + UNSUPPORTED

  /** Known keywords only, and subschemas where the keywords expect them. */
  predicate Fragment(schema: Json)
    decreases schema
  {
    match schema
    case Bool(_) => true
    case Obj(fs) =>
      && (forall i :: 0 <= i < |fs| ==> fs[i].key in KNOWN)
      && (Has(fs, "properties") ==>
            && Find(fs, "properties").value.Obj?
            && var ps := Find(fs, "properties").value.fields;
               forall i :: 0 <= i < |ps| ==> Fragment(ps[i].value))
      && (Has(fs, "additionalProperties") ==> Fragment(Find(fs, "additionalProperties").value))
      && (Has(fs, "items") ==> Fragment(Find(fs, "items").value))
      && (Has(fs, "anyOf") ==>
            && Find(fs, "anyOf").value.Arr?
            && var options := Find(fs, "anyOf").value.items;
               forall i :: 0 <= i < |options| ==> Fragment(options[i]))
    case _ => false
  }

  predicate Scalar(v: Json) {
    !v.Arr? && !v.Obj?
  }

  /** A list of properties that the adapter takes for a schema with a flat constant and no type. */
  predicate ConstCase(ps: seq<Field>) {
    Has(ps, "const") && !Has(ps, "type") && Scalar(Find(ps, "const").value)
  }

  /** Data that the adapter sends as it is. */
  predicate Untouched(d: Json)
    decreases d
  {
    match d
    case Obj(fs) => (forall i :: 0 <= i < |fs| ==> fs[i].key !in UNSUPPORTED && Untouched(fs[i].value)) &&
        !ConstCase(fs)
    case Arr(items) => forall i :: 0 <= i < |items| ==> Untouched(items[i])
    case _ => true
  }

  // ----- what an adapted schema means, read off the original

  /** The argument of a keyword as it is sent. */
  function Sent(fs: seq<Field>, key: string): Option<Json> {
    if Has(fs, key) then Some(Adapt(Find(fs, key).value, false)) else None
  }

  /** The name `type` in a list of properties that was taken for a schema. */
  predicate Misread(fs: seq<Field>, name: string) {
    name == "type" && Has(fs, "properties") && Find(fs, "properties").value.Obj? &&
    ConstCase(Find(fs, "properties").value.fields)
  }

  predicate StillListed(fs: seq<Field>, name: string) {
    Lists(fs, name) && name !in UNSUPPORTED
  }

  /** Acceptance without limits, without the properties named like one, and with `type` refused where
      the properties were misread. */
  predicate Loosely(schema: Json, v: Json)
    decreases schema
  {
    match schema
    case Bool(b) => b
    case Obj(fs) =>
      && TypeAccepts(Find(fs, "type"), v) && RequiredAccepts(Find(fs, "required"), v)
      && ConstAccepts(Sent(fs, "const"), v) && EnumAccepts(Sent(fs, "enum"), v)
      && (v.Obj? ==> forall i :: 0 <= i < |v.fields| ==> MemberLoosely(fs, v.fields[i].key, v.fields[i].value))
      && (Has(fs, "items") && v.Arr? ==>
            forall i :: 0 <= i < |v.items| ==> Loosely(Find(fs, "items").value, v.items[i]))
      && (Has(fs, "anyOf") && Find(fs, "anyOf").value.Arr? ==>
            var options := Find(fs, "anyOf").value.items;
            exists i :: 0 <= i < |options| && Loosely(options[i], v))
    case _ => false
  }

  predicate MemberLoosely(fs: seq<Field>, name: string, x: Json)
    decreases fs
  {
    && !Misread(fs, name)
    && (StillListed(fs, name) ==> Loosely(Find(Find(fs, "properties").value.fields, name).value, x))
    && (!StillListed(fs, name) && Has(fs, "additionalProperties") ==>
          Loosely(Find(fs, "additionalProperties").value, x))
  }

  // ----- the keywords of one node

  lemma {:induction false} ItemsAdapted(items: seq<Json>, i: nat)
    requires i < |items|
    ensures |AdaptItems(items, false)| == |items| && AdaptItems(items, false)[i] == Adapt(items[i], false)
  {
    if i > 0 {
      ItemsAdapted(items[1..], i - 1);
    } else if |items| > 1 {
      ItemsAdapted(items[1..], 0);
    }
  }

  function Done(fs: seq<Field>): seq<Field> {
    WithType(AdaptFields(fs, false))
  }

  lemma FindAfterType(kept: seq<Field>, key: string)
    ensures key != "type" || Has(kept, "type") ==> Find(WithType(kept), key) == Find(kept, key)
  {
    if Has(kept, "const") && !Has(kept, "type") && TypeName(Find(kept, "const").value).Some? {
      FindPut(kept, "type", Str(TypeName(Find(kept, "const").value).value), key);
    }
  }

  /** Every key but the type is kept, with its value adapted, or dropped as unsupported. */
  lemma FindInAdapted(fs: seq<Field>, key: string)
    requires key != "type"
    ensures Find(Done(fs), key) ==
            if key in UNSUPPORTED || !Has(fs, key) then None else Some(Adapt(Find(fs, key).value, false))
  {
    FindAdapted(fs, key, false);
    FindAfterType(AdaptFields(fs, false), key);
  }

  lemma KeyKept(fs: seq<Field>, key: string)
    requires key in KNOWN - UNSUPPORTED && key != "type"
    ensures Find(Done(fs), key) == if Has(fs, key) then Some(Adapt(Find(fs, key).value, false)) else None
  {
    FindInAdapted(fs, key);
  }

  /** The type is the one given, or follows from a flat constant. */
  lemma TypeInAdapted(fs: seq<Field>)
    ensures Find(Done(fs), "type") ==
            if Has(fs, "type") then Some(Adapt(Find(fs, "type").value, false))
            else if ConstCase(fs) then Some(Str(TypeName(Find(fs, "const").value).value))
            else None
  {
    KeywordsDiffer();
    var kept := AdaptFields(fs, false);
    FindAdapted(fs, "type", false);
    FindAdapted(fs, "const", false);
    FindAfterType(kept, "type");
    if ConstCase(fs) {
      FindPut(kept, "type", Str(TypeName(Find(kept, "const").value).value), "type");
    }
  }

  /** The type added beside a constant accepts whatever equals the constant. */
  lemma ConstHasType(v: Json, constant: Json)
    requires SameValue(v, constant) && Scalar(constant)
    ensures HasType(Str(TypeName(constant).value), v)
  {
  }

  lemma KeywordsDiffer()
    ensures {"type", "const", "enum", "required", "properties", "additionalProperties", "items", "anyOf"} !! UNSUPPORTED
  {
    assert forall k :: k in UNSUPPORTED ==> k[0] in {'f', 'm', 'p', 'u'};
    assert "properties"[1] == 'r' && "pattern"[1] == 'a';
    assert "properties" !in UNSUPPORTED;
  }

  lemma LimitsDropped(fs: seq<Field>, v: Json, oracle: Oracle)
    ensures LimitsAccept(Done(fs), v, oracle)
  {
    KeywordsDiffer();
    forall key | key in UNSUPPORTED ensures Find(Done(fs), key) == None {
      FindInAdapted(fs, key);
    }
  }

  lemma TypeAndRequiredSent(fs: seq<Field>, v: Json)
    ensures TypeAccepts(Sent(fs, "type"), v) == TypeAccepts(Find(fs, "type"), v)
    ensures RequiredAccepts(Sent(fs, "required"), v) == RequiredAccepts(Find(fs, "required"), v)
  {
    if Has(fs, "type") && Find(fs, "type").value.Arr? {
      SameStrings(Find(fs, "type").value.items);
    }
    if Has(fs, "required") && Find(fs, "required").value.Arr? {
      SameStrings(Find(fs, "required").value.items);
    }
  }

  /** Adapting a list keeps its strings in place and makes no others. */
  lemma SameStrings(items: seq<Json>)
    ensures |AdaptItems(items, false)| == |items|
    ensures forall i :: 0 <= i < |items| ==>
              if items[i].Str? then AdaptItems(items, false)[i] == items[i] else !AdaptItems(items, false)[i].Str?
  {
    forall i | 0 <= i < |items|
      ensures |AdaptItems(items, false)| == |items| && AdaptItems(items, false)[i] == Adapt(items[i], false)
    {
      ItemsAdapted(items, i);
    }
  }

  /** The keywords of an adapted node that are about the value itself. */
  lemma NodeMeaning(fs: seq<Field>, v: Json)
    ensures TypeAccepts(Find(Done(fs), "type"), v) && ConstAccepts(Find(Done(fs), "const"), v) <==>
            TypeAccepts(Find(fs, "type"), v) && ConstAccepts(Sent(fs, "const"), v)
    ensures EnumAccepts(Find(Done(fs), "enum"), v) == EnumAccepts(Sent(fs, "enum"), v)
    ensures RequiredAccepts(Find(Done(fs), "required"), v) == RequiredAccepts(Find(fs, "required"), v)
  {
    KeywordsDiffer();
    TypeInAdapted(fs);
    TypeAndRequiredSent(fs, v);
    KeyKept(fs, "const");
    KeyKept(fs, "enum");
    KeyKept(fs, "required");
    if ConstCase(fs) && ConstAccepts(Sent(fs, "const"), v) {
      ConstHasType(v, Find(fs, "const").value);
    }
  }

  // ----- members of objects

  predicate MemberAccepts(fs: seq<Field>, name: string, x: Json, oracle: Oracle) {
    && (Lists(fs, name) ==> Accepts(Find(Find(fs, "properties").value.fields, name).value, x, oracle))
    && (!Lists(fs, name) && Has(fs, "additionalProperties") ==>
          Accepts(Find(fs, "additionalProperties").value, x, oracle))
  }

  predicate MembersAccept(fs: seq<Field>, v: Json, oracle: Oracle) {
    v.Obj? ==> forall i :: 0 <= i < |v.fields| ==> MemberAccepts(fs, v.fields[i].key, v.fields[i].value, oracle)
  }

  predicate ItemsAccept(fs: seq<Field>, v: Json, oracle: Oracle) {
    Has(fs, "items") && v.Arr? ==>
      forall i :: 0 <= i < |v.items| ==> Accepts(Find(fs, "items").value, v.items[i], oracle)
  }

  predicate AnyAccepts(fs: seq<Field>, v: Json, oracle: Oracle) {
    Has(fs, "anyOf") && Find(fs, "anyOf").value.Arr? ==>
      var options := Find(fs, "anyOf").value.items;
      exists i :: 0 <= i < |options| && Accepts(options[i], v, oracle)
  }

  predicate ArrayPartAccepts(fs: seq<Field>, v: Json, oracle: Oracle) {
    ItemsAccept(fs, v, oracle) && AnyAccepts(fs, v, oracle)
  }

  predicate NodeAccepts(fs: seq<Field>, v: Json) {
    && TypeAccepts(Find(fs, "type"), v) && ConstAccepts(Find(fs, "const"), v)
    && EnumAccepts(Find(fs, "enum"), v) && RequiredAccepts(Find(fs, "required"), v)
  }

  /** The members of an object can be judged one by one. */
  lemma AcceptsByParts(fs: seq<Field>, v: Json, oracle: Oracle)
    ensures Accepts(Obj(fs), v, oracle) <==>
            NodeAccepts(fs, v) && LimitsAccept(fs, v, oracle) && MembersAccept(fs, v, oracle) &&
                ArrayPartAccepts(fs, v, oracle)
  {
    if Accepts(Obj(fs), v, oracle) && v.Obj? {
      forall i | 0 <= i < |v.fields| ensures MemberAccepts(fs, v.fields[i].key, v.fields[i].value, oracle) {
      }
    }
    if MembersAccept(fs, v, oracle) && v.Obj? {
      forall i | 0 <= i < |v.fields| && Lists(fs, v.fields[i].key)
        ensures Accepts(Find(Find(fs, "properties").value.fields, v.fields[i].key).value, v.fields[i].value, oracle)
      {
        assert MemberAccepts(fs, v.fields[i].key, v.fields[i].value, oracle);
      }
      forall i | 0 <= i < |v.fields| && !Lists(fs, v.fields[i].key) && Has(fs, "additionalProperties")
        ensures Accepts(Find(fs, "additionalProperties").value, v.fields[i].value, oracle)
      {
        assert MemberAccepts(fs, v.fields[i].key, v.fields[i].value, oracle);
      }
    }
  }

  /** What becomes of a property name: misread, kept with its schema adapted, or lost. */
  lemma PropertyAfter(fs: seq<Field>, name: string)
    requires Has(fs, "properties") ==> Find(fs, "properties").value.Obj?
    ensures Lists(Done(fs), name) <==> Misread(fs, name) || StillListed(fs, name)
    ensures Misread(fs, name) ==> Find(Find(Done(fs), "properties").value.fields, name).value.Str?
    ensures !Misread(fs, name) && StillListed(fs, name) ==>
              Find(Find(Done(fs), "properties").value.fields, name).value ==
              Adapt(Find(Find(fs, "properties").value.fields, name).value, false)
  {
    KeywordsDiffer();
    KeyKept(fs, "properties");
    if Has(fs, "properties") {
      var ps := Find(fs, "properties").value.fields;
      assert Adapt(Obj(ps), false) == Obj(Done(ps));
      if name == "type" {
        TypeInAdapted(ps);
      } else {
        FindInAdapted(ps, name);
      }
    }
  }

  lemma {:induction false} MemberMeaning(fs: seq<Field>, name: string, x: Json, oracle: Oracle)
    requires Fragment(Obj(fs))
    ensures MemberAccepts(Done(fs), name, x, oracle) <==> MemberLoosely(fs, name, x)
    decreases fs, 0
  {
    KeywordsDiffer();
    PropertyAfter(fs, name);
    KeyKept(fs, "additionalProperties");
    if StillListed(fs, name) {
      AdaptedMeaning(Find(Find(fs, "properties").value.fields, name).value, x, oracle);
    }
    if Has(fs, "additionalProperties") {
      AdaptedMeaning(Find(fs, "additionalProperties").value, x, oracle);
    }
  }

  predicate ItemsLoosely(fs: seq<Field>, v: Json) {
    Has(fs, "items") && v.Arr? ==>
      forall i :: 0 <= i < |v.items| ==> Loosely(Find(fs, "items").value, v.items[i])
  }

  predicate AnyLoosely(fs: seq<Field>, v: Json) {
    Has(fs, "anyOf") && Find(fs, "anyOf").value.Arr? ==>
      var options := Find(fs, "anyOf").value.items;
      exists i :: 0 <= i < |options| && Loosely(options[i], v)
  }

  predicate ArrayPartLoosely(fs: seq<Field>, v: Json) {
    ItemsLoosely(fs, v) && AnyLoosely(fs, v)
  }

  lemma {:induction false} ItemsMeaning(item: Json, items: seq<Json>, oracle: Oracle)
    requires Fragment(item)
    ensures (forall i :: 0 <= i < |items| ==> Accepts(Adapt(item, false), items[i], oracle)) <==>
            (forall i :: 0 <= i < |items| ==> Loosely(item, items[i]))
    decreases item, 2
  {
    forall i | 0 <= i < |items| ensures Accepts(Adapt(item, false), items[i], oracle) <==> Loosely(item, items[i]) {
      AdaptedMeaning(item, items[i], oracle);
    }
  }

  lemma {:induction false} ItemsPartMeaning(fs: seq<Field>, v: Json, oracle: Oracle)
    requires Fragment(Obj(fs))
    ensures ItemsAccept(Done(fs), v, oracle) <==> ItemsLoosely(fs, v)
    decreases fs, 0
  {
    KeywordsDiffer();
    KeyKept(fs, "items");
    if Has(fs, "items") && v.Arr? {
      ItemsMeaning(Find(fs, "items").value, v.items, oracle);
    }
  }

  lemma {:induction false} AnyPartMeaning(fs: seq<Field>, v: Json, oracle: Oracle)
    requires Fragment(Obj(fs))
    ensures AnyAccepts(Done(fs), v, oracle) <==> AnyLoosely(fs, v)
    decreases fs, 0
  {
    KeywordsDiffer();
    KeyKept(fs, "anyOf");
    if Has(fs, "anyOf") {
      AnyOfMeaning(Find(fs, "anyOf").value.items, v, oracle);
    }
  }

  lemma {:induction false} AnyOfMeaning(options: seq<Json>, v: Json, oracle: Oracle)
    requires forall i :: 0 <= i < |options| ==> Fragment(options[i])
    ensures (exists i ::
               0 <= i < |AdaptItems(options, false)| && Accepts(AdaptItems(options, false)[i], v, oracle)) <==>
            (exists i :: 0 <= i < |options| && Loosely(options[i], v))
    decreases options, 0
  {
    var sent := AdaptItems(options, false);
    SameStrings(options);
    forall i | 0 <= i < |options| ensures Accepts(sent[i], v, oracle) <==> Loosely(options[i], v) {
      ItemsAdapted(options, i);
      AdaptedMeaning(options[i], v, oracle);
    }
  }

  /** Main result: what the adapted schema accepts, read off the original schema, for every value. */
  lemma {:induction false} AdaptedMeaning(schema: Json, v: Json, oracle: Oracle)
    requires Fragment(schema)
    ensures Accepts(Adapt(schema, false), v, oracle) <==> Loosely(schema, v)
    decreases schema, 1
  {
    if schema.Obj? {
      var fs := schema.fields;
      AcceptsByParts(Done(fs), v, oracle);
      NodeMeaning(fs, v);
      LimitsDropped(fs, v, oracle);
      ItemsPartMeaning(fs, v, oracle);
      AnyPartMeaning(fs, v, oracle);
      if v.Obj? {
        forall i | 0 <= i < |v.fields|
          ensures MemberAccepts(Done(fs), v.fields[i].key, v.fields[i].value, oracle) <==>
                  MemberLoosely(fs, v.fields[i].key, v.fields[i].value)
        {
          MemberMeaning(fs, v.fields[i].key, v.fields[i].value, oracle);
        }
      }
    }
  }

  // ----- data that is rewritten

  /** Data survives adapting exactly when no object in it has a member named like an unsupported
      keyword, or a flat `const` without a `type`. */
  lemma {:induction false} DataSurvivesIff(d: Json)
    ensures Adapt(d, false) == d <==> Untouched(d)
    decreases d
  {
    match d
    case Obj(fs) => ObjectSurvivesIff(fs);
    case Arr(items) =>
      forall i | 0 <= i < |items|
        ensures |AdaptItems(items, false)| == |items|
        ensures AdaptItems(items, false)[i] == items[i] <==> Untouched(items[i])
      {
        ItemsAdapted(items, i);
        DataSurvivesIff(items[i]);
      }
    case _ =>
  }

  predicate NoneUnsupported(fs: seq<Field>) {
    forall i :: 0 <= i < |fs| ==> fs[i].key !in UNSUPPORTED
  }

  lemma {:induction false} ObjectSurvivesIff(fs: seq<Field>)
    ensures Adapt(Obj(fs), false) == Obj(fs) <==> Untouched(Obj(fs))
    decreases fs
  {
    if NoneUnsupported(fs) {
      forall i | 0 <= i < |fs| ensures Adapt(fs[i].value, false) == fs[i].value <==> Untouched(fs[i].value) {
        DataSurvivesIff(fs[i].value);
      }
      FieldsSurviveIff(fs);
    } else {
      NothingUnsupportedRemains(Obj(fs), false);
      assert !Clean(Obj(fs));
    }
  }

  lemma FieldsSurviveIff(fs: seq<Field>)
    requires NoneUnsupported(fs)
    requires forall i :: 0 <= i < |fs| ==> (Adapt(fs[i].value, false) == fs[i].value <==> Untouched(fs[i].value))
    ensures Done(fs) == fs <==> !ConstCase(fs) && forall i :: 0 <= i < |fs| ==> Untouched(fs[i].value)
  {
    FieldsInPlace(fs);
    ConstCaseKept(fs);
    var kept := AdaptFields(fs, false);
    if ConstCase(fs) {
      PutAppends(kept, "type", Str(TypeName(Find(fs, "const").value).value));
    }
  }

  lemma {:induction false} FieldsInPlace(fs: seq<Field>)
    requires forall i :: 0 <= i < |fs| ==> fs[i].key !in UNSUPPORTED
    ensures |AdaptFields(fs, false)| == |fs|
    ensures forall i :: 0 <= i < |fs| ==> AdaptFields(fs, false)[i] == Field(fs[i].key, Adapt(fs[i].value, false))
  {
    if fs != [] {
      FieldsInPlace(fs[1..]);
      var rest := AdaptFields(fs[1..], false);
      forall i | 0 < i < |fs| ensures AdaptFields(fs, false)[i] == Field(fs[i].key, Adapt(fs[i].value, false)) {
        assert rest[i - 1] == Field(fs[1..][i - 1].key, Adapt(fs[1..][i - 1].value, false));
      }
    }
  }

  lemma ConstCaseKept(fs: seq<Field>)
    ensures WithType(AdaptFields(fs, false)) ==
            if ConstCase(fs)
            then Put(AdaptFields(fs, false), "type", Str(TypeName(Find(fs, "const").value).value))
            else AdaptFields(fs, false)
    ensures ConstCase(fs) ==> Has(AdaptFields(fs, false), "const") && !Has(AdaptFields(fs, false), "type")
  {
    KeywordsDiffer();
    FindAdapted(fs, "const", false);
    FindAdapted(fs, "type", false);
  }

  lemma {:induction false} PutAppends(fs: seq<Field>, key: string, value: Json)
    requires !Has(fs, key)
    ensures |Put(fs, key, value)| == |fs| + 1
  {
    if fs != [] {
      PutAppends(fs[1..], key, value);
    }
  }

  /** A value equal to a constant is equal to the constant that is sent exactly when it is untouched. */
  lemma SentConstantIff(v: Json, constant: Json)
    requires SameValue(v, constant)
    ensures SameValue(v, Adapt(constant, false)) <==> Untouched(v)
  {
    DataSurvivesIff(constant);
  }

  /** No touched value is equal to anything that is sent. */
  lemma TouchedIsNeverSent(v: Json, item: Json)
    requires !Untouched(v)
    ensures !SameValue(v, Adapt(item, false))
  {
    DataSurvivesIff(v);
    AdaptingTwiceIsOnce(item, false);
  }

  lemma ConstStaysIff(fs: seq<Field>, v: Json)
    requires Has(fs, "const") && ConstAccepts(Find(fs, "const"), v)
    ensures ConstAccepts(Sent(fs, "const"), v) <==> Untouched(v)
  {
    SentConstantIff(v, Find(fs, "const").value);
  }

  lemma EnumStaysIff(fs: seq<Field>, v: Json)
    requires Has(fs, "enum") && Find(fs, "enum").value.Arr? && EnumAccepts(Find(fs, "enum"), v)
    ensures EnumAccepts(Sent(fs, "enum"), v) <==> Untouched(v)
  {
    var items := Find(fs, "enum").value.items;
    var sent := AdaptItems(items, false);
    SameStrings(items);
    forall i | 0 <= i < |items|
      ensures SameValue(v, items[i]) ==> (SameValue(v, sent[i]) <==> Untouched(v))
      ensures !Untouched(v) ==> !SameValue(v, sent[i])
    {
      ItemsAdapted(items, i);
      if SameValue(v, items[i]) {
        SentConstantIff(v, items[i]);
      }
      if !Untouched(v) {
        TouchedIsNeverSent(v, items[i]);
      }
    }
  }

  // ----- exactly which accepted values are lost

  predicate Fixed(fs: seq<Field>) {
    Has(fs, "const") || (Has(fs, "enum") && Find(fs, "enum").value.Arr?)
  }

  /** Somewhere a value that the schema accepts meets what the adapter breaks: a constant that is
      rewritten, a `type` member where the properties were misread, a listed member that lost its
      property and is refused as an additional one, or alternatives that all break. */
  predicate Trouble(schema: Json, v: Json, oracle: Oracle)
    decreases schema
  {
    match schema
    case Obj(fs) =>
      || (Fixed(fs) && !Untouched(v))
      || (v.Obj? && exists i :: 0 <= i < |v.fields| && MemberTrouble(fs, v.fields[i].key, v.fields[i].value, oracle))
      || (Has(fs, "items") && v.Arr? &&
            exists i :: 0 <= i < |v.items| && Trouble(Find(fs, "items").value, v.items[i], oracle))
      || (Has(fs, "anyOf") && Find(fs, "anyOf").value.Arr? &&
            var options := Find(fs, "anyOf").value.items;
            forall i :: 0 <= i < |options| ==>
              if Accepts(options[i], v, oracle) then Trouble(options[i], v, oracle) else !Loosely(options[i], v))
    case _ => false
  }

  predicate MemberTrouble(fs: seq<Field>, name: string, x: Json, oracle: Oracle)
    decreases fs
  {
    || Misread(fs, name)
    || (StillListed(fs, name) && Trouble(Find(Find(fs, "properties").value.fields, name).value, x, oracle))
    || (Lists(fs, name) && name in UNSUPPORTED && Has(fs, "additionalProperties") &&
          !Loosely(Find(fs, "additionalProperties").value, x))
    || (!Lists(fs, name) && Has(fs, "additionalProperties") &&
          Trouble(Find(fs, "additionalProperties").value, x, oracle))
  }

  lemma {:induction false} MemberStaysIff(fs: seq<Field>, name: string, x: Json, oracle: Oracle)
    requires Fragment(Obj(fs)) && MemberAccepts(fs, name, x, oracle)
    ensures MemberLoosely(fs, name, x) <==> !MemberTrouble(fs, name, x, oracle)
    decreases fs, 0
  {
    if StillListed(fs, name) {
      LooselyIff(Find(Find(fs, "properties").value.fields, name).value, x, oracle);
    }
    if !Lists(fs, name) && Has(fs, "additionalProperties") {
      LooselyIff(Find(fs, "additionalProperties").value, x, oracle);
    }
  }

  predicate ArrayTrouble(fs: seq<Field>, v: Json, oracle: Oracle) {
    || (Has(fs, "items") && v.Arr? &&
          exists i :: 0 <= i < |v.items| && Trouble(Find(fs, "items").value, v.items[i], oracle))
    || (Has(fs, "anyOf") && Find(fs, "anyOf").value.Arr? &&
          var options := Find(fs, "anyOf").value.items;
          forall i :: 0 <= i < |options| ==>
            if Accepts(options[i], v, oracle) then Trouble(options[i], v, oracle) else !Loosely(options[i], v))
  }

  lemma {:induction false} ArrayStaysIff(fs: seq<Field>, v: Json, oracle: Oracle)
    requires Fragment(Obj(fs)) && ArrayPartAccepts(fs, v, oracle)
    ensures ArrayPartLoosely(fs, v) <==> !ArrayTrouble(fs, v, oracle)
    decreases fs, 0
  {
    if Has(fs, "items") && v.Arr? {
      forall i | 0 <= i < |v.items|
        ensures Loosely(Find(fs, "items").value, v.items[i]) <==> !Trouble(Find(fs, "items").value, v.items[i], oracle)
      {
        LooselyIff(Find(fs, "items").value, v.items[i], oracle);
      }
    }
    if Has(fs, "anyOf") {
      var options := Find(fs, "anyOf").value.items;
      forall i | 0 <= i < |options| && Accepts(options[i], v, oracle)
        ensures Loosely(options[i], v) <==> !Trouble(options[i], v, oracle)
      {
        LooselyIff(options[i], v, oracle);
      }
    }
  }

  lemma NodeStaysIff(fs: seq<Field>, v: Json)
    requires NodeAccepts(fs, v)
    ensures TypeAccepts(Find(fs, "type"), v) && RequiredAccepts(Find(fs, "required"), v)
    ensures ConstAccepts(Sent(fs, "const"), v) && EnumAccepts(Sent(fs, "enum"), v) <==> !Fixed(fs) || Untouched(v)
  {
    if Has(fs, "const") {
      ConstStaysIff(fs, v);
    }
    if Has(fs, "enum") && Find(fs, "enum").value.Arr? {
      EnumStaysIff(fs, v);
    }
  }

  lemma {:induction false} LooselyIff(schema: Json, v: Json, oracle: Oracle)
    requires Fragment(schema) && Accepts(schema, v, oracle)
    ensures Loosely(schema, v) <==> !Trouble(schema, v, oracle)
    decreases schema, 1
  {
    if schema.Obj? {
      var fs := schema.fields;
      AcceptsByParts(fs, v, oracle);
      NodeStaysIff(fs, v);
      ArrayStaysIff(fs, v, oracle);
      if v.Obj? {
        forall i | 0 <= i < |v.fields|
          ensures MemberLoosely(fs, v.fields[i].key, v.fields[i].value) <==>
                  !MemberTrouble(fs, v.fields[i].key, v.fields[i].value, oracle)
        {
          MemberStaysIff(fs, v.fields[i].key, v.fields[i].value, oracle);
        }
      }
      TroubleByParts(fs, v, oracle);
      LooselyByParts(fs, v);
    }
  }

  predicate MembersTrouble(fs: seq<Field>, v: Json, oracle: Oracle) {
    v.Obj? && exists i :: 0 <= i < |v.fields| && MemberTrouble(fs, v.fields[i].key, v.fields[i].value, oracle)
  }

  lemma TroubleByParts(fs: seq<Field>, v: Json, oracle: Oracle)
    ensures Trouble(Obj(fs), v, oracle) <==>
            (Fixed(fs) && !Untouched(v)) || MembersTrouble(fs, v, oracle) || ArrayTrouble(fs, v, oracle)
  {
  }

  lemma LooselyByParts(fs: seq<Field>, v: Json)
    ensures Loosely(Obj(fs), v) <==>
            && TypeAccepts(Find(fs, "type"), v) && RequiredAccepts(Find(fs, "required"), v)
            && ConstAccepts(Sent(fs, "const"), v) && EnumAccepts(Sent(fs, "enum"), v)
            && (v.Obj? ==> forall i :: 0 <= i < |v.fields| ==> MemberLoosely(fs, v.fields[i].key, v.fields[i].value))
            && ArrayPartLoosely(fs, v)
  {
  }

  /** Main result: a value that a schema accepts is accepted by the adapted schema exactly when it
      meets none of the troubles. */
  lemma AcceptedStaysAcceptedIff(schema: Json, v: Json, oracle: Oracle)
    requires Fragment(schema) && Accepts(schema, v, oracle)
    ensures Accepts(Adapt(schema, false), v, oracle) <==> !Trouble(schema, v, oracle)
  {
    AdaptedMeaning(schema, v, oracle);
    LooselyIff(schema, v, oracle);
  }

  // ----- schemas that can only widen

  /** Constants are sent as they are, no list of properties is misread, and only open objects list a
      property named like an unsupported keyword. */
  predicate Safe(schema: Json)
    decreases schema
  {
    match schema
    case Obj(fs) =>
      && (Has(fs, "const") ==> Untouched(Find(fs, "const").value))
      && (Has(fs, "enum") && Find(fs, "enum").value.Arr? ==> Untouched(Find(fs, "enum").value))
      && (Has(fs, "properties") && Find(fs, "properties").value.Obj? ==>
            var ps := Find(fs, "properties").value.fields;
            && !ConstCase(ps)
            && (forall i :: 0 <= i < |ps| ==> ps[i].key in UNSUPPORTED || Safe(ps[i].value))
            && (Closed(fs) ==> forall i :: 0 <= i < |ps| ==> ps[i].key !in UNSUPPORTED))
      && (Has(fs, "additionalProperties") ==> Safe(Find(fs, "additionalProperties").value))
      && (Has(fs, "items") ==> Safe(Find(fs, "items").value))
      && (Has(fs, "anyOf") && Find(fs, "anyOf").value.Arr? ==>
            var options := Find(fs, "anyOf").value.items;
            forall i :: 0 <= i < |options| ==> Safe(options[i]))
    case _ => true
  }

  /** Members that are not listed are restricted. */
  predicate Closed(fs: seq<Field>) {
    Has(fs, "additionalProperties") && Find(fs, "additionalProperties").value != Bool(true)
  }

  lemma SafeMember(fs: seq<Field>, name: string, x: Json, oracle: Oracle)
    requires Safe(Obj(fs)) && MemberAccepts(fs, name, x, oracle) && Fragment(Obj(fs))
    ensures !MemberTrouble(fs, name, x, oracle)
    decreases fs, 0
  {
    if StillListed(fs, name) {
      SafeMeetsNoTrouble(Find(Find(fs, "properties").value.fields, name).value, x, oracle);
    }
    if !Lists(fs, name) && Has(fs, "additionalProperties") {
      SafeMeetsNoTrouble(Find(fs, "additionalProperties").value, x, oracle);
    }
  }

  lemma SafeArray(fs: seq<Field>, v: Json, oracle: Oracle)
    requires Safe(Obj(fs)) && ArrayPartAccepts(fs, v, oracle) && Fragment(Obj(fs))
    ensures !ArrayTrouble(fs, v, oracle)
    decreases fs, 0
  {
    if Has(fs, "items") && v.Arr? {
      forall i | 0 <= i < |v.items| ensures !Trouble(Find(fs, "items").value, v.items[i], oracle) {
        SafeMeetsNoTrouble(Find(fs, "items").value, v.items[i], oracle);
      }
    }
    if Has(fs, "anyOf") {
      var options := Find(fs, "anyOf").value.items;
      var i :| 0 <= i < |options| && Accepts(options[i], v, oracle);
      SafeMeetsNoTrouble(options[i], v, oracle);
    }
  }

  lemma SafeNode(fs: seq<Field>, v: Json)
    requires Safe(Obj(fs)) && NodeAccepts(fs, v)
    ensures Fixed(fs) ==> Untouched(v)
  {
  }

  lemma {:induction false} SafeMeetsNoTrouble(schema: Json, v: Json, oracle: Oracle)
    requires Safe(schema) && Fragment(schema) && Accepts(schema, v, oracle)
    ensures !Trouble(schema, v, oracle)
    decreases schema, 1
  {
    if schema.Obj? {
      var fs := schema.fields;
      AcceptsByParts(fs, v, oracle);
      SafeNode(fs, v);
      SafeArray(fs, v, oracle);
      if v.Obj? {
        forall i | 0 <= i < |v.fields| ensures !MemberTrouble(fs, v.fields[i].key, v.fields[i].value, oracle) {
          SafeMember(fs, v.fields[i].key, v.fields[i].value, oracle);
        }
      }
      TroubleByParts(fs, v, oracle);
    }
  }

  /** So on safe schemas adapting only widens. */
  lemma AdaptingOnlyWidens(schema: Json, v: Json, oracle: Oracle)
    requires Fragment(schema) && Safe(schema) && Accepts(schema, v, oracle)
    ensures Accepts(Adapt(schema, false), v, oracle)
  {
    SafeMeetsNoTrouble(schema, v, oracle);
    AcceptedStaysAcceptedIff(schema, v, oracle);
  }

  // ----- the troubles, one by one

  lemma LostMemberNotListed(fs: seq<Field>, name: string)
    requires name in UNSUPPORTED
    ensures !Lists(Done(fs), name)
  {
    KeywordsDiffer();
    FindInAdapted(fs, "properties");
    if Has(fs, "properties") && Find(fs, "properties").value.Obj? {
      FindInAdapted(Find(fs, "properties").value.fields, name);
    }
  }

  lemma ClosedStaysClosed(fs: seq<Field>)
    requires Find(fs, "additionalProperties") == Some(Bool(false))
    ensures Find(Done(fs), "additionalProperties") == Some(Bool(false))
  {
    KeywordsDiffer();
    FindInAdapted(fs, "additionalProperties");
  }

  lemma ClosedRefuses(fs: seq<Field>, v: Json, i: nat, oracle: Oracle)
    requires Find(fs, "additionalProperties") == Some(Bool(false))
    requires v.Obj? && i < |v.fields| && !Lists(fs, v.fields[i].key)
    ensures !Accepts(Obj(fs), v, oracle)
  {
    assert !Accepts(Bool(false), v.fields[i].value, oracle);
  }

  /** A closed object schema refuses, once adapted, every object with a member named like an
      unsupported keyword, whether or not the original listed that member. */
  lemma MemberNamedLikeKeywordIsRefused(fs: seq<Field>, v: Json, i: nat, oracle: Oracle)
    requires Find(fs, "additionalProperties") == Some(Bool(false))
    requires v.Obj? && i < |v.fields| && v.fields[i].key in UNSUPPORTED
    ensures !Accepts(Adapt(Obj(fs), false), v, oracle)
  {
    ClosedStaysClosed(fs);
    LostMemberNotListed(fs, v.fields[i].key);
    ClosedRefuses(Done(fs), v, i, oracle);
  }

  function ClosedWith(name: string): seq<Field> {
    [Field("properties", Obj([Field(name, Bool(true))])), Field("additionalProperties", Bool(false))]
  }

  lemma FindInClosed(name: string, key: string)
    ensures Find(ClosedWith(name), key) ==
            if key == "properties" then Some(Obj([Field(name, Bool(true))]))
            else if key == "additionalProperties" then Some(Bool(false)) else None
  {
    var fs := ClosedWith(name);
    assert fs[1..][1..] == [];
  }

  lemma ClosedHasNoLimits(name: string, v: Json, oracle: Oracle)
    ensures LimitsAccept(ClosedWith(name), v, oracle)
  {
    KeywordsDiffer();
    forall key | key in UNSUPPORTED ensures Find(ClosedWith(name), key) == None {
      FindInClosed(name, key);
    }
  }

  lemma ClosedHasNoOthers(name: string)
    ensures forall key :: key in {"type", "const", "enum", "required", "items", "anyOf"} ==>
            Find(ClosedWith(name), key) == None
  {
    forall key | key in {"type", "const", "enum", "required", "items", "anyOf"}
        ensures Find(ClosedWith(name), key) == None {
      FindInClosed(name, key);
      assert |key| < |"properties"| < |"additionalProperties"|;
    }
  }

  lemma ClosedAccepts(name: string, oracle: Oracle)
    ensures Accepts(Obj(ClosedWith(name)), Obj([Field(name, Null)]), oracle)
  {
    var fs, v := ClosedWith(name), Obj([Field(name, Null)]);
    ClosedHasNoLimits(name, v, oracle);
    ClosedHasNoOthers(name);
    FindInClosed(name, "properties");
    assert Find([Field(name, Bool(true))], name) == Some(Bool(true));
    assert Lists(fs, name);
  }

  /** So adapting does not widen a closed schema with a property named like an unsupported keyword:
      the object that has just that property is accepted before and refused after. */
  lemma PropertyNamedLikeKeywordIsLost(name: string, oracle: Oracle)
    requires name in UNSUPPORTED
    ensures Accepts(Obj(ClosedWith(name)), Obj([Field(name, Null)]), oracle)
    ensures !Accepts(Adapt(Obj(ClosedWith(name)), false), Obj([Field(name, Null)]), oracle)
  {
    ClosedAccepts(name, oracle);
    FindInClosed(name, "additionalProperties");
    MemberNamedLikeKeywordIsRefused(ClosedWith(name), Obj([Field(name, Null)]), 0, oracle);
  }

  /** An open schema whose properties are misread refuses, once adapted, every object with a member
      called `type`. */
  lemma MisreadMemberIsRefused(fs: seq<Field>, v: Json, i: nat, oracle: Oracle)
    requires Fragment(Obj(fs)) && v.Obj? && i < |v.fields| && Misread(fs, v.fields[i].key)
    ensures !Accepts(Adapt(Obj(fs), false), v, oracle)
  {
    AdaptedMeaning(Obj(fs), v, oracle);
    assert !MemberLoosely(fs, v.fields[i].key, v.fields[i].value);
    LooselyByParts(fs, v);
  }

  function OpenWithConst(): seq<Field> {
    [Field("properties", Obj([Field("const", Bool(true))]))]
  }

  lemma FindInOpenWithConst(key: string)
    ensures Find(OpenWithConst(), key) == if key == "properties" then Some(Obj([Field("const", Bool(true))])) else None
    ensures Find([Field("const", Bool(true))], key) == if key == "const" then Some(Bool(true)) else None
  {
    assert OpenWithConst()[1..] == [] && [Field("const", Bool(true))][1..] == [];
  }

  lemma OpenWithConstAccepts(oracle: Oracle)
    ensures Accepts(Obj(OpenWithConst()), Obj([Field("type", Null)]), oracle) && Fragment(Obj(OpenWithConst()))
  {
    var fs, v := OpenWithConst(), Obj([Field("type", Null)]);
    KeywordsDiffer();
    forall key ensures Find(fs, key) == if key == "properties" then Some(Obj([Field("const", Bool(true))])) else None {
      FindInOpenWithConst(key);
    }
    PropertiesIsAlone();
    assert NodeAccepts(fs, v) && LimitsAccept(fs, v, oracle) && ArrayPartAccepts(fs, v, oracle);
    FindInOpenWithConst("type");
    assert MemberAccepts(fs, "type", Null, oracle);
    AcceptsByParts(fs, v, oracle);
  }

  lemma PropertiesIsAlone()
    ensures "properties" !in {"type", "const", "enum", "items", "required", "additionalProperties", "anyOf"}
    ensures "type" != "const"
  {
    assert |"type"| < |"items"| == |"const"| < |"properties"|;
    assert "required"[0] != "properties"[0] && "additionalProperties"[0] != "properties"[0] &&
        "anyOf"[0] != "properties"[0];
  }

  /** A property called `const` with a boolean schema makes the adapter add a property `type` that no
      value satisfies: the original accepts the object that has it, the adapted schema does not. */
  lemma PropertyNamedConstIsMisread(oracle: Oracle)
    ensures Accepts(Obj(OpenWithConst()), Obj([Field("type", Null)]), oracle)
    ensures !Accepts(Adapt(Obj(OpenWithConst()), false), Obj([Field("type", Null)]), oracle)
  {
    OpenWithConstAccepts(oracle);
    FindInOpenWithConst("properties");
    FindInOpenWithConst("const");
    FindInOpenWithConst("type");
    assert "type" != "const" by {
      assert |"type"| < |"const"|;
    }
    MisreadMemberIsRefused(OpenWithConst(), Obj([Field("type", Null)]), 0, oracle);
  }

  /** A constant is still accepted by its own adapted schema exactly when it is untouched data. */
  lemma ConstantStaysAcceptedIff(d: Json, oracle: Oracle)
    ensures Accepts(Obj([Field("const", d)]), d, oracle)
    ensures Accepts(Adapt(Obj([Field("const", d)]), false), d, oracle) <==> Untouched(d)
  {
    var fs := [Field("const", d)];
    assert fs[1..] == [];
    forall key ensures Find(fs, key) == if key == "const" then Some(d) else None {
    }
    KeywordsDiffer();
    assert |"type"| == |"enum"| < |"const"| == |"items"| ==
        |"anyOf"| < |"required"| < |"properties"| < |"additionalProperties"|;
    assert "items"[0] != "const"[0] && "anyOf"[0] != "const"[0];
    assert LimitsAccept(fs, d, oracle);
    AcceptsByParts(fs, d, oracle);
    AcceptedStaysAcceptedIff(Obj(fs), d, oracle);
    TroubleByParts(fs, d, oracle);
  }
}
