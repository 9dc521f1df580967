/** Rewriting a JSON Schema for a provider that supports only part of the language. */
module ProviderSchema {
  import opened Common

  datatype Json =
    | Null | Bool(b: bool) | Int(n: int) | Float(x: real) | Str(s: string)
    | Arr(items: seq<Json>) | Obj(fields: seq<Field>)

  datatype Field = Field(key: string, value: Json)

  const UNSUPPORTED: set<string> :=
    {"format", "maxItems", "maxLength", "maximum", "minItems", "minLength", "minimum", "pattern", "uniqueItems"}

  /** The value of a key in an object. */
  function Find(fs: seq<Field>, key: string): (r: Option<Json>)
    ensures r.Some? ==> exists i :: 0 <= i < |fs| && fs[i].key == key && r.value == fs[i].value
    ensures r.None? ==> forall i :: 0 <= i < |fs| ==> fs[i].key != key
  {
    if fs == [] then None
    else if fs[0].key == key then Some(fs[0].value)
    else Find(fs[1..], key)
  }

  predicate Has(fs: seq<Field>, key: string) {
    Find(fs, key).Some?
  }

  /** Setting a key keeps its place when it is already there. */
  function Put(fs: seq<Field>, key: string, value: Json): seq<Field> {
    if fs == [] then [Field(key, value)]
    else if fs[0].key == key then [Field(key, value)] + fs[1..]
    else [fs[0]] + Put(fs[1..], key, value)
  }

  function Keys(fs: seq<Field>): seq<Json> {
    seq(|fs|, i requires 0 <= i < |fs| => Str(fs[i].key))
  }

  function TypeName(v: Json): Option<string> {
    match v
    case Null => Some("null")
    case Bool(_) => Some("boolean")
    case Int(_) => Some("integer")
    case Float(_) => Some("number")
    case Str(_) => Some("string")
    case _ => None
  }

  // ----- the adapter

  function Adapt(v: Json, requireAll: bool): Json
    decreases v
  {
    match v
    case Obj(fs) => Obj(WithRequired(WithType(AdaptFields(fs, requireAll)), requireAll))
    case Arr(items) => Arr(AdaptItems(items, requireAll))
    case _ => v
  }

  function AdaptFields(fs: seq<Field>, requireAll: bool): seq<Field>
    decreases fs
  {
    if fs == [] then []
    else
      var rest := AdaptFields(fs[1..], requireAll);
      if fs[0].key in UNSUPPORTED then rest
      else [Field(fs[0].key, Adapt(fs[0].value, requireAll))] + rest
  }

  function AdaptItems(items: seq<Json>, requireAll: bool): seq<Json>
    decreases items
  {
    if items == [] then [] else [Adapt(items[0], requireAll)] + AdaptItems(items[1..], requireAll)
  }

  function WithType(fs: seq<Field>): seq<Field> {
    if Has(fs, "const") && !Has(fs, "type") && TypeName(Find(fs, "const").value).Some?
    then Put(fs, "type", Str(TypeName(Find(fs, "const").value).value))
    else fs
  }

  function WithRequired(fs: seq<Field>, requireAll: bool): seq<Field> {
    if requireAll && Has(fs, "properties") && Find(fs, "properties").value.Obj?
    then Put(fs, "required", Arr(Keys(Find(fs, "properties").value.fields)))
    else fs
  }

  lemma {:induction false} FindPut(fs: seq<Field>, key: string, value: Json, other: string)
    ensures Find(Put(fs, key, value), other) == if other == key then Some(value) else Find(fs, other)
  {
    if fs != [] && fs[0].key != key {
      FindPut(fs[1..], key, value, other);
    }
  }

  lemma {:induction false} PutSame(fs: seq<Field>, key: string, value: Json)
    requires Find(fs, key) == Some(value)
    ensures Put(fs, key, value) == fs
  {
    if fs[0].key != key {
      PutSame(fs[1..], key, value);
    }
  }

  lemma {:induction false} FindAdapted(fs: seq<Field>, key: string, requireAll: bool)
    ensures Find(AdaptFields(fs, requireAll), key) ==
            if key in UNSUPPORTED || !Has(fs, key) then None else Some(Adapt(Find(fs, key).value, requireAll))
  {
    if fs != [] {
      FindAdapted(fs[1..], key, requireAll);
    }
  }

  // ----- what an adapted object says

  /** The keywords that the provider does not understand. */
  predicate Dropped(key: string) {
    || key == "format" || key == "pattern" || key == "minimum" || key == "maximum" || key == "minLength"
    || key == "maxLength" || key == "minItems" || key == "maxItems" || key == "uniqueItems"
  }

  /** The type that a constant brings along when the schema names none. */
  function TypeOfConstant(constant: Option<Json>): Option<Json> {
    match constant
    case Some(Null) => Some(Str("null"))
    case Some(Bool(_)) => Some(Str("boolean"))
    case Some(Int(_)) => Some(Str("integer"))
    case Some(Float(_)) => Some(Str("number"))
    case Some(Str(_)) => Some(Str("string"))
    case _ => None
  }

  predicate ListsProperties(fs: seq<Field>) {
    Has(fs, "properties") && Find(fs, "properties").value.Obj?
  }

  lemma DroppedIff(key: string)
    ensures key in UNSUPPORTED <==> Dropped(key)
  {
  }

  lemma KeywordsStay()
    ensures !Dropped("const") && !Dropped("type") && !Dropped("properties")
  {
    assert "const"[0] == 'c' && "type"[0] == 't' && |"properties"| == 10;
    assert |"uniqueItems"| == 11;
  }

  lemma KeptLookup(fs: seq<Field>, key: string, requireAll: bool)
    ensures Find(AdaptFields(fs, requireAll), key) ==
            if Dropped(key) || !Has(fs, key) then None else Some(Adapt(Find(fs, key).value, requireAll))
  {
    FindAdapted(fs, key, requireAll);
    DroppedIff(key);
  }

  lemma TypedLookup(kept: seq<Field>, key: string)
    ensures Find(WithType(kept), key) ==
            if key == "type" && !Has(kept, "type") then TypeOfConstant(Find(kept, "const")) else Find(kept, key)
  {
    if Has(kept, "const") && !Has(kept, "type") && TypeName(Find(kept, "const").value).Some? {
      FindPut(kept, "type", Str(TypeName(Find(kept, "const").value).value), key);
    }
  }

  lemma RequiredLookup(typed: seq<Field>, key: string, requireAll: bool)
    ensures Find(WithRequired(typed, requireAll), key) ==
            if key == "required" && requireAll && ListsProperties(typed)
            then Some(Arr(Keys(Find(typed, "properties").value.fields))) else Find(typed, key)
  {
    if requireAll && ListsProperties(typed) {
      FindPut(typed, "required", Arr(Keys(Find(typed, "properties").value.fields)), key);
    }
  }

  lemma TypeLookup(fs: seq<Field>, key: string, requireAll: bool)
    ensures Find(WithType(AdaptFields(fs, requireAll)), key) ==
            if key == "type" && !Has(fs, "type") then TypeOfConstant(Find(fs, "const"))
            else if Dropped(key) || !Has(fs, key) then None
            else Some(Adapt(Find(fs, key).value, requireAll))
  {
    KeywordsStay();
    KeptLookup(fs, "const", requireAll);
    KeptLookup(fs, "type", requireAll);
    KeptLookup(fs, key, requireAll);
    TypedLookup(AdaptFields(fs, requireAll), key);
  }

  /** Main result: every key of an adapted object, read off the original. Nine keywords are gone, a constant
      brings its type, required lists the properties when everything is required, and nothing else is
      added, dropped or changed but for being adapted itself. */
  lemma AdaptedLookup(fs: seq<Field>, key: string, requireAll: bool)
    ensures Adapt(Obj(fs), requireAll).Obj?
    ensures Find(Adapt(Obj(fs), requireAll).fields, key) ==
            if key == "required" && requireAll && ListsProperties(fs)
            then Some(Arr(Keys(Adapt(Find(fs, "properties").value, requireAll).fields)))
            else if key == "type" && !Has(fs, "type") then TypeOfConstant(Find(fs, "const"))
            else if Dropped(key) || !Has(fs, key) then None
            else Some(Adapt(Find(fs, key).value, requireAll))
  {
    KeywordsStay();
    TypeLookup(fs, key, requireAll);
    TypeLookup(fs, "properties", requireAll);
    RequiredLookup(WithType(AdaptFields(fs, requireAll)), key, requireAll);
    assert "properties"[0] != "type"[0];
  }

  /** Arrays are adapted element by element. */
  lemma {:induction false} AdaptedElements(items: seq<Json>, requireAll: bool)
    ensures Adapt(Arr(items), requireAll).Arr? && |Adapt(Arr(items), requireAll).items| == |items|
    ensures forall i :: 0 <= i < |items| ==> Adapt(Arr(items), requireAll).items[i] == Adapt(items[i], requireAll)
  {
    if items != [] {
      AdaptedElements(items[1..], requireAll);
      assert items == [items[0]] + items[1..];
    }
  }

  // ----- no unsupported keyword is left

  predicate Clean(v: Json)
    decreases v
  {
    match v
    case Obj(fs) => forall i :: 0 <= i < |fs| ==> fs[i].key !in UNSUPPORTED && Clean(fs[i].value)
    case Arr(items) => forall i :: 0 <= i < |items| ==> Clean(items[i])
    case _ => true
  }

  lemma {:induction false} PutClean(fs: seq<Field>, key: string, value: Json)
    requires Clean(Obj(fs)) && Clean(value) && key !in UNSUPPORTED
    ensures Clean(Obj(Put(fs, key, value)))
  {
    if fs != [] && fs[0].key != key {
      assert forall i :: 0 <= i < |fs| - 1 ==> fs[1..][i] == fs[i + 1];
      PutClean(fs[1..], key, value);
    }
  }

  /** Whatever is adapted, nothing at any depth carries an unsupported keyword. */
  lemma {:induction false} NothingUnsupportedRemains(v: Json, requireAll: bool)
    ensures Clean(Adapt(v, requireAll))
    decreases v
  {
    match v
    case Obj(fs) =>
      FieldsClean(fs, requireAll);
      var kept := AdaptFields(fs, requireAll);
      CompletedClean(kept, requireAll);
    case Arr(items) => ItemsClean(items, requireAll);
    case _ =>
  }

  lemma CompletedClean(fs: seq<Field>, requireAll: bool)
    requires Clean(Obj(fs))
    ensures Clean(Obj(WithRequired(WithType(fs), requireAll)))
  {
    if WithType(fs) != fs {
      PutClean(fs, "type", Str(TypeName(Find(fs, "const").value).value));
    }
    var typed := WithType(fs);
    if WithRequired(typed, requireAll) != typed {
      PutClean(typed, "required", Arr(Keys(Find(typed, "properties").value.fields)));
    }
  }

  lemma {:induction false} FieldsClean(fs: seq<Field>, requireAll: bool)
    ensures Clean(Obj(AdaptFields(fs, requireAll)))
    decreases fs
  {
    if fs != [] {
      FieldsClean(fs[1..], requireAll);
      NothingUnsupportedRemains(fs[0].value, requireAll);
    }
  }

  lemma {:induction false} ItemsClean(items: seq<Json>, requireAll: bool)
    ensures Clean(Arr(AdaptItems(items, requireAll)))
    decreases items
  {
    if items != [] {
      ItemsClean(items[1..], requireAll);
      NothingUnsupportedRemains(items[0], requireAll);
    }
  }

  // ----- adapting twice

  /** What adapting leaves behind is a fixed point of adapting. */
  lemma {:induction false} AdaptingTwiceIsOnce(v: Json, requireAll: bool)
    ensures Adapt(Adapt(v, requireAll), requireAll) == Adapt(v, requireAll)
    decreases v
  {
    match v
    case Obj(fs) =>
      FieldsTwice(fs, requireAll);
      CompletedIsFixed(AdaptFields(fs, requireAll), requireAll);
    case Arr(items) => ItemsTwice(items, requireAll);
    case _ =>
  }

  lemma {:induction false} FieldsTwice(fs: seq<Field>, requireAll: bool)
    ensures AdaptFields(AdaptFields(fs, requireAll), requireAll) == AdaptFields(fs, requireAll)
    decreases fs
  {
    if fs != [] {
      FieldsTwice(fs[1..], requireAll);
      AdaptingTwiceIsOnce(fs[0].value, requireAll);
      var rest := AdaptFields(fs[1..], requireAll);
      assert ([Field(fs[0].key, Adapt(fs[0].value, requireAll))] + rest)[1..] == rest;
    }
  }

  lemma {:induction false} ItemsTwice(items: seq<Json>, requireAll: bool)
    ensures AdaptItems(AdaptItems(items, requireAll), requireAll) == AdaptItems(items, requireAll)
    decreases items
  {
    if items != [] {
      ItemsTwice(items[1..], requireAll);
      AdaptingTwiceIsOnce(items[0], requireAll);
      var rest := AdaptItems(items[1..], requireAll);
      assert ([Adapt(items[0], requireAll)] + rest)[1..] == rest;
    }
  }

  lemma {:induction false} PutKeepsFixed(fs: seq<Field>, key: string, value: Json, requireAll: bool)
    requires AdaptFields(fs, requireAll) == fs && Adapt(value, requireAll) == value && key !in UNSUPPORTED
    ensures AdaptFields(Put(fs, key, value), requireAll) == Put(fs, key, value)
  {
    if fs != [] {
      FixedParts(fs, requireAll);
      if fs[0].key != key {
        PutKeepsFixed(fs[1..], key, value, requireAll);
        assert Put(fs, key, value)[1..] == Put(fs[1..], key, value);
      } else {
        assert Put(fs, key, value)[1..] == fs[1..];
      }
    }
  }

  lemma {:induction false} AdaptShrinks(fs: seq<Field>, requireAll: bool)
    ensures |AdaptFields(fs, requireAll)| <= |fs|
  {
    if fs != [] {
      AdaptShrinks(fs[1..], requireAll);
    }
  }

  lemma FixedParts(fs: seq<Field>, requireAll: bool)
    requires fs != [] && AdaptFields(fs, requireAll) == fs
    ensures fs[0].key !in UNSUPPORTED && Adapt(fs[0].value, requireAll) == fs[0].value
    ensures AdaptFields(fs[1..], requireAll) == fs[1..]
  {
    AdaptShrinks(fs[1..], requireAll);
    assert fs[0].key !in UNSUPPORTED;
    var again := [Field(fs[0].key, Adapt(fs[0].value, requireAll))] + AdaptFields(fs[1..], requireAll);
    assert fs == again;
    assert again[0] == fs[0] && again[1..] == AdaptFields(fs[1..], requireAll);
  }

  lemma {:induction false} StringsAreFixed(keys: seq<Json>, requireAll: bool)
    requires forall i :: 0 <= i < |keys| ==> !keys[i].Arr? && !keys[i].Obj?
    ensures AdaptItems(keys, requireAll) == keys
  {
    if keys != [] {
      StringsAreFixed(keys[1..], requireAll);
    }
  }

  lemma CompletedIsFixed(fs: seq<Field>, requireAll: bool)
    requires AdaptFields(fs, requireAll) == fs
    ensures var done := WithRequired(WithType(fs), requireAll);
            AdaptFields(done, requireAll) == done && WithRequired(WithType(done), requireAll) == done
  {
    var typed := WithType(fs);
    if Has(fs, "const") && !Has(fs, "type") && TypeName(Find(fs, "const").value).Some? {
      var name := Str(TypeName(Find(fs, "const").value).value);
      PutKeepsFixed(fs, "type", name, requireAll);
      FindPut(fs, "type", name, "type");
      FindPut(fs, "type", name, "const");
    }
    assert AdaptFields(typed, requireAll) == typed && WithType(typed) == typed;
    if requireAll && Has(typed, "properties") && Find(typed, "properties").value.Obj? {
      RequiredIsFixed(typed);
    }
  }

  lemma RequiredTouchesOnlyItself(fs: seq<Field>, names: Json)
    ensures var done := Put(fs, "required", names);
            && Find(done, "type") == Find(fs, "type") && Find(done, "const") == Find(fs, "const")
            && Find(done, "properties") == Find(fs, "properties") && Find(done, "required") == Some(names)
  {
    FindPut(fs, "required", names, "type");
    FindPut(fs, "required", names, "const");
    FindPut(fs, "required", names, "properties");
    FindPut(fs, "required", names, "required");
    assert |"required"| > |"const"| > |"type"| && "required"[0] != "properties"[0];
  }

  lemma RequiredAgain(done: seq<Field>, ps: seq<Field>)
    requires Find(done, "properties") == Some(Obj(ps)) && Find(done, "required") == Some(Arr(Keys(ps)))
    ensures WithRequired(done, true) == done
  {
    PutSame(done, "required", Arr(Keys(ps)));
  }

  lemma RequiredIsFixed(typed: seq<Field>)
    requires AdaptFields(typed, true) == typed && WithType(typed) == typed
    requires Has(typed, "properties") && Find(typed, "properties").value.Obj?
    ensures var done := WithRequired(typed, true);
            AdaptFields(done, true) == done && WithRequired(WithType(done), true) == done
  {
    var ps := Find(typed, "properties").value.fields;
    var names := Arr(Keys(ps));
    var done := Put(typed, "required", names);
    StringsAreFixed(names.items, true);
    assert AdaptFields(done, true) == done by {
      assert "required" !in UNSUPPORTED by { assert "required"[0] == 'r'; }
      PutKeepsFixed(typed, "required", names, true);
    }
    RequiredTouchesOnlyItself(typed, names);
    TypeStays(typed, done);
    RequiredAgain(done, ps);
  }

  lemma TypeStays(fs: seq<Field>, done: seq<Field>)
    requires WithType(fs) == fs && Find(done, "type") == Find(fs, "type") && Find(done, "const") == Find(fs, "const")
    ensures WithType(done) == done
  {
    if Has(fs, "const") && !Has(fs, "type") && TypeName(Find(fs, "const").value).Some? {
      FindPut(fs, "type", Str(TypeName(Find(fs, "const").value).value), "type");
    }
  }

  // ----- requiring everything

  /** Every object schema, at any depth, requires exactly the properties it lists. */
  predicate Strict(v: Json)
    decreases v
  {
    match v
    case Obj(fs) =>
      && (Has(fs, "properties") && Find(fs, "properties").value.Obj? ==>
            Find(fs, "required") == Some(Arr(Keys(Find(fs, "properties").value.fields))))
      && forall i :: 0 <= i < |fs| ==> Strict(fs[i].value)
    case Arr(items) => forall i :: 0 <= i < |items| ==> Strict(items[i])
    case _ => true
  }

  predicate StrictFields(fs: seq<Field>) {
    forall i :: 0 <= i < |fs| ==> Strict(fs[i].value)
  }

  lemma {:induction false} PutStrict(fs: seq<Field>, key: string, value: Json)
    requires StrictFields(fs) && Strict(value)
    ensures StrictFields(Put(fs, key, value))
  {
    if fs != [] && fs[0].key != key {
      assert forall i :: 0 <= i < |fs| - 1 ==> fs[1..][i] == fs[i + 1];
      PutStrict(fs[1..], key, value);
    }
  }

  lemma {:induction false} RequiringAllIsStrict(v: Json)
    ensures Strict(Adapt(v, true))
    decreases v
  {
    match v
    case Obj(fs) =>
      FieldsStrict(fs);
      CompletedStrict(AdaptFields(fs, true));
    case Arr(items) => ItemsStrict(items);
    case _ =>
  }

  lemma CompletedStrict(fs: seq<Field>)
    requires StrictFields(fs)
    ensures Strict(Obj(WithRequired(WithType(fs), true)))
  {
    if WithType(fs) != fs {
      PutStrict(fs, "type", Str(TypeName(Find(fs, "const").value).value));
    }
    var typed := WithType(fs);
    assert StrictFields(typed);
    if Has(typed, "properties") && Find(typed, "properties").value.Obj? {
      var names := Arr(Keys(Find(typed, "properties").value.fields));
      PutStrict(typed, "required", names);
      FindPut(typed, "required", names, "properties");
      FindPut(typed, "required", names, "required");
    }
  }

  lemma {:induction false} FieldsStrict(fs: seq<Field>)
    ensures StrictFields(AdaptFields(fs, true))
    decreases fs
  {
    if fs != [] {
      FieldsStrict(fs[1..]);
      RequiringAllIsStrict(fs[0].value);
    }
  }

  lemma {:induction false} ItemsStrict(items: seq<Json>)
    ensures Strict(Arr(AdaptItems(items, true)))
    decreases items
  {
    if items != [] {
      ItemsStrict(items[1..]);
      RequiringAllIsStrict(items[0]);
    }
  }
}
