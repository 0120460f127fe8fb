/** Where the evaluator differs from JSON Schema: the exact condition for schemas of one keyword, and
    documents and values on which they differ. */
module SchemaDiffers {
  import opened Options
  import opened Json
  import opened Schema
  import opened SchemaStandard
  import SchemaSound

  // ---------------------------------------------------------------- schemas of one keyword

  function Single(key: string, value: Json): Json { Obj([Field(key, value)]) }

  lemma SingleGet(key: string, value: Json, other: string)
    ensures Get([Field(key, value)], other) == if key == other then Some(value) else None
  {
    assert [Field(key, value)][1..] == [];
  }

  predicate Absent(f: seq<Field>, name: string, key: string) { name == key || Get(f, name).None? }

  /** No keyword but `key`. */
  predicate NoOther(f: seq<Field>, key: string) {
    && Absent(f, "allOf", key) && Absent(f, "anyOf", key) && Absent(f, "oneOf", key) && Absent(f, "enum", key)
    && Absent(f, "then", key) && Absent(f, "else", key) && Absent(f, "type", key) && Absent(f, "required", key)
    && Absent(f, "properties", key) && Absent(f, "minProperties", key) && Absent(f, "maxProperties", key) && Absent(f, "minItems", key)
    && Absent(f, "maxItems", key) && Absent(f, "minLength", key) && Absent(f, "maxLength", key) && Absent(f, "format", key)
    && Absent(f, "$ref", key) && Absent(f, "if", key) && Absent(f, "const", key) && Absent(f, "additionalProperties", key)
    && Absent(f, "propertyNames", key) && Absent(f, "items", key) && Absent(f, "uniqueItems", key) && Absent(f, "pattern", key)
    && Absent(f, "minimum", key) && Absent(f, "maximum", key)
  }

  lemma SingleAlone(key: string, value: Json)
    ensures NoOther([Field(key, value)], key) && Get([Field(key, value)], key) == Some(value)
  {
    SingleGet(key, value, key);
    SingleGet(key, value, "allOf"); SingleGet(key, value, "anyOf"); SingleGet(key, value, "oneOf"); SingleGet(key, value, "enum");
    SingleGet(key, value, "then"); SingleGet(key, value, "else"); SingleGet(key, value, "type"); SingleGet(key, value, "required");
    SingleGet(key, value, "properties"); SingleGet(key, value, "minProperties"); SingleGet(key, value, "maxProperties"); SingleGet(key, value, "minItems");
    SingleGet(key, value, "maxItems"); SingleGet(key, value, "minLength"); SingleGet(key, value, "maxLength"); SingleGet(key, value, "format");
    SingleGet(key, value, "$ref"); SingleGet(key, value, "if"); SingleGet(key, value, "const"); SingleGet(key, value, "additionalProperties");
    SingleGet(key, value, "propertyNames"); SingleGet(key, value, "items"); SingleGet(key, value, "uniqueItems"); SingleGet(key, value, "pattern");
    SingleGet(key, value, "minimum"); SingleGet(key, value, "maximum");
  }

  lemma ConstantAlone()
    ensures "const" != "allOf" && "const" != "anyOf" && "const" != "oneOf" && "const" != "enum" && "const" != "then"
    ensures "const" != "else" && "const" != "type" && "const" != "required" && "const" != "properties" && "const" != "minProperties"
    ensures "const" != "maxProperties" && "const" != "minItems" && "const" != "maxItems" && "const" != "minLength" && "const" != "maxLength"
    ensures "const" != "format" && "const" != "$ref" && "const" != "if" && "const" != "additionalProperties" && "const" != "propertyNames"
    ensures "const" != "items" && "const" != "uniqueItems" && "const" != "pattern" && "const" != "minimum" && "const" != "maximum"
  {
    assert "const"[0] != "allOf"[0] && "const"[0] != "anyOf"[0] && "const"[0] != "oneOf"[0] && "const"[0] != "items"[0];
  }

  lemma ConstantRead(rules: Rules, value: Json)
    ensures Read(rules, Single("const", value)) == Some(BARE.(constant := Some(value)))
  {
    ConstantAlone();
    SingleAlone("const", value);
    OnlyConstantRead(rules, [Field("const", value)], value);
  }

  lemma OnlyConstantRead(rules: Rules, f: seq<Field>, value: Json)
    requires NoOther(f, "const") && Get(f, "const") == Some(value)
    ensures Read(rules, Obj(f)) == Some(BARE.(constant := Some(value)))
  {
    ConstantAlone();
  }

  lemma ItemsAlone()
    ensures "items" != "allOf" && "items" != "anyOf" && "items" != "oneOf" && "items" != "enum" && "items" != "then"
    ensures "items" != "else" && "items" != "type" && "items" != "required" && "items" != "properties" && "items" != "minProperties"
    ensures "items" != "maxProperties" && "items" != "minItems" && "items" != "maxItems" && "items" != "minLength" && "items" != "maxLength"
    ensures "items" != "format" && "items" != "$ref" && "items" != "if" && "items" != "const" && "items" != "additionalProperties"
    ensures "items" != "propertyNames" && "items" != "uniqueItems" && "items" != "pattern" && "items" != "minimum" && "items" != "maximum"
  {
    assert "items"[0] != "allOf"[0] && "items"[0] != "anyOf"[0] && "items"[0] != "oneOf"[0] && "items"[0] != "const"[0];
  }

  lemma ItemsRead(rules: Rules, value: Json)
    ensures Read(rules, Single("items", value)) == Some(BARE.(items := AsSchema(rules, Some(value))))
  {
    ItemsAlone();
    SingleAlone("items", value);
    OnlyItemsRead(rules, [Field("items", value)], value);
  }

  lemma OnlyItemsRead(rules: Rules, f: seq<Field>, value: Json)
    requires NoOther(f, "items") && Get(f, "items") == Some(value)
    ensures Read(rules, Obj(f)) == Some(BARE.(items := AsSchema(rules, Some(value))))
  {
    ItemsAlone();
  }

  lemma NamesAlone()
    ensures "propertyNames" != "allOf" && "propertyNames" != "anyOf" && "propertyNames" != "oneOf" && "propertyNames" != "enum" && "propertyNames" != "then"
    ensures "propertyNames" != "else" && "propertyNames" != "type" && "propertyNames" != "required" && "propertyNames" != "properties" && "propertyNames" != "minProperties"
    ensures "propertyNames" != "maxProperties" && "propertyNames" != "minItems" && "propertyNames" != "maxItems" && "propertyNames" != "minLength" && "propertyNames" != "maxLength"
    ensures "propertyNames" != "format" && "propertyNames" != "$ref" && "propertyNames" != "if" && "propertyNames" != "const" && "propertyNames" != "additionalProperties"
    ensures "propertyNames" != "items" && "propertyNames" != "uniqueItems" && "propertyNames" != "pattern" && "propertyNames" != "minimum" && "propertyNames" != "maximum"
  {
    assert "propertyNames"[0] != "minProperties"[0] && "propertyNames"[0] != "maxProperties"[0];
  }

  lemma NamesRead(rules: Rules, value: Json)
    ensures Read(rules, Single("propertyNames", value)) == Some(BARE.(names := AsSchema(rules, Some(value))))
  {
    NamesAlone();
    SingleAlone("propertyNames", value);
    OnlyNamesRead(rules, [Field("propertyNames", value)], value);
  }

  lemma OnlyNamesRead(rules: Rules, f: seq<Field>, value: Json)
    requires NoOther(f, "propertyNames") && Get(f, "propertyNames") == Some(value)
    ensures Read(rules, Obj(f)) == Some(BARE.(names := AsSchema(rules, Some(value))))
  {
    NamesAlone();
  }

  lemma LimitAlone()
    ensures "maxItems" != "allOf" && "maxItems" != "anyOf" && "maxItems" != "oneOf" && "maxItems" != "enum" && "maxItems" != "then"
    ensures "maxItems" != "else" && "maxItems" != "type" && "maxItems" != "required" && "maxItems" != "properties" && "maxItems" != "minProperties"
    ensures "maxItems" != "maxProperties" && "maxItems" != "minItems" && "maxItems" != "minLength" && "maxItems" != "maxLength" && "maxItems" != "format"
    ensures "maxItems" != "$ref" && "maxItems" != "if" && "maxItems" != "const" && "maxItems" != "additionalProperties" && "maxItems" != "propertyNames"
    ensures "maxItems" != "items" && "maxItems" != "uniqueItems" && "maxItems" != "pattern" && "maxItems" != "minimum" && "maxItems" != "maximum"
  {
    assert "maxItems"[0] != "required"[0] && "maxItems"[1] != "minItems"[1];
  }

  lemma LimitRead(rules: Rules, value: Json)
    ensures Read(rules, Single("maxItems", value)) == Some(BARE.(length := Bounds(0.0, AsMost(rules, Some(value)))))
  {
    LimitAlone();
    SingleAlone("maxItems", value);
    OnlyLimitRead(rules, [Field("maxItems", value)], value);
  }

  lemma OnlyLimitRead(rules: Rules, f: seq<Field>, value: Json)
    requires NoOther(f, "maxItems") && Get(f, "maxItems") == Some(value)
    ensures Read(rules, Obj(f)) == Some(BARE.(length := Bounds(0.0, AsMost(rules, Some(value)))))
  {
    LimitAlone();
  }
  lemma BareArray(rules: Rules, W: Validity, k: Keywords, items: seq<Json>)
    requires !k.unique
    ensures ArrayHolds(rules, W, k, items) <==> Within(|items|, k.length) && SchemaSound.AllTake(W, k.items, items)
  {}

  lemma BareObject(W: Validity, k: Keywords, fields: seq<Field>)
    requires k.required == [] && k.properties == [] && k.additional == Anything && k.fields == Bounds(0.0, None)
    ensures ObjectHolds(W, k, fields) <==> SchemaSound.AllTake(W, k.names, SchemaSound.Names(fields))
  {
    forall i | 0 <= i < |fields| ensures FieldHolds(W, k, fields[i]) { assert Get(k.properties, fields[i].key) == None; }
    if ObjectHolds(W, k, fields) && k.names.Some? {
      forall i | 0 <= i < |fields| ensures W(k.names.value, SchemaSound.Names(fields)[i]) {
        assert SchemaSound.Names(fields)[i] == Str(fields[i].key);
      }
    }
    if SchemaSound.AllTake(W, k.names, SchemaSound.Names(fields)) && k.names.Some? {
      forall i | 0 <= i < |fields| ensures W(k.names.value, Str(fields[i].key)) {
        assert SchemaSound.Names(fields)[i] == Str(fields[i].key);
      }
    }
  }

  /** What a schema means that says nothing beyond constants, items, names and length. */
  lemma BareMeans(d: Document, W: Validity, s: Json, k: Keywords, v: Json)
    requires IsValidity(d, W) && d.good(s) && Read(d.rules, s) == Some(k)
    requires k == BARE.(constant := k.constant, choices := k.choices, items := k.items, names := k.names, length := k.length)
    ensures W(s, v) <==>
              && ConstantsHold(d.rules, k, v)
              && (v.Obj? ==> SchemaSound.AllTake(W, k.names, SchemaSound.Names(v.fields)))
              && (v.Arr? ==> Within(|v.items|, k.length) && SchemaSound.AllTake(W, k.items, v.items))
  {
    assert W(s, v) <==> Satisfies(d, W, s, v);
    if v.Obj? { BareObject(W, k, v.fields); }
    if v.Arr? { BareArray(d.rules, W, k, v.items); }
    BareRest(d, W, k, v);
  }

  lemma BareRest(d: Document, W: Validity, k: Keywords, v: Json)
    requires k == BARE.(constant := k.constant, choices := k.choices, items := k.items, names := k.names, length := k.length)
    ensures ApplicatorsHold(d, W, k, v) && KindsHold(d.rules, k, v)
    ensures v.Str? ==> TextHolds(d, k, v.text)
    ensures Number(v) ==> NumberHolds(k, Amount(v))
  {}

  /** In JSON Schema `true` admits every value and `false` none. */
  lemma BooleanMeans(d: Document, W: Validity, b: bool, v: Json)
    requires d.rules.Standard? && IsValidity(d, W) && d.good(Bool(b))
    ensures W(Bool(b), v) <==> b
  {
    BareMeans(d, W, Bool(b), ReadBoolean(b), v);
  }

  /** What `{"const": c}` admits. */
  lemma ConstantMeans(d: Document, W: Validity, c: Json, v: Json)
    requires d.good(Single("const", c)) && IsValidity(d, W)
    ensures W(Single("const", c), v) <==> SameConstant(d.rules, v, c)
  {
    ConstantRead(d.rules, c);
    BareMeans(d, W, Single("const", c), BARE.(constant := Some(c)), v);
  }

  lemma ConstantEvaluates(d: Document, c: Json, v: Json, at: seq<Step>)
    requires d.rules == Python && Acyclic(d) && Proper(d) && d.good(Single("const", c))
    ensures Evaluate(d, Single("const", c), v, at) == Some([]) <==> PythonEqual(v, c)
  {
    var V := SchemaSound.ValidityExists(d);
    SchemaSound.EvaluatorCorrect(d, V, Single("const", c), v, at);
    ConstantMeans(d, V, c, v);
  }

  /** On `{"const": c}` the evaluator agrees with JSON Schema about a value exactly when the value is not
      equal to `c` by confusing a boolean with a number. */
  lemma ConstantValueExact(d: Document, e: Document, W: Validity, c: Json, v: Json, at: seq<Step>)
    requires d.rules == Python && Acyclic(d) && Proper(d) && d.good(Single("const", c))
    requires e.rules.Standard? && IsValidity(e, W) && e.good(Single("const", c))
    ensures (Evaluate(d, Single("const", c), v, at) == Some([]) <==> W(Single("const", c), v)) <==> ClearConstant(v, c)
  {
    ConstantEvaluates(d, c, v, at);
    ConstantMeans(e, W, c, v);
    ConstantSame(e.rules, v, c);
  }

  /** It agrees about all values exactly when `c` holds no boolean and no number equal to 0 or 1. */
  lemma ConstantSchemaExact(d: Document, e: Document, W: Validity, c: Json, at: seq<Step>)
    requires d.rules == Python && Acyclic(d) && Proper(d) && d.good(Single("const", c)) && Keyed(c)
    requires e.rules.Standard? && IsValidity(e, W) && e.good(Single("const", c))
    ensures (forall v :: Evaluate(d, Single("const", c), v, at) == Some([]) <==> W(Single("const", c), v)) <==> EveryLeaf(Unambiguous, c)
  {
    forall v ensures Evaluate(d, Single("const", c), v, at) == Some([]) <==> PythonEqual(v, c) { ConstantEvaluates(d, c, v, at); }
    forall v ensures W(Single("const", c), v) <==> Equal(SameLeaf, v, c) { ConstantMeans(e, W, c, v); }
    ConstantsExact(c);
  }

  lemma ItemsMean(d: Document, W: Validity, b: bool, v: Json)
    requires Closed(d) && IsValidity(d, W) && d.good(Single("items", Bool(b)))
    ensures W(Single("items", Bool(b)), v) <==> d.rules.Python? || b || !v.Arr? || v.items == []
  {
    var s := Single("items", Bool(b));
    ItemsRead(d.rules, Bool(b));
    BareMeans(d, W, s, BARE.(items := AsSchema(d.rules, Some(Bool(b)))), v);
    if d.rules.Standard? {
      assert Below(d, s, Bool(b));
      forall x ensures W(Bool(b), x) <==> b { BooleanMeans(d, W, b, x); }
      if v.Arr? && v.items != [] { assert W(Bool(b), v.items[0]) <==> b; }
    }
  }

  /** The code passes over a boolean under `items`: it agrees with JSON Schema about all values exactly
      when the boolean is `true`. */
  lemma ItemsSchemaExact(d: Document, e: Document, W: Validity, b: bool, at: seq<Step>)
    requires d.rules == Python && Acyclic(d) && Proper(d) && d.good(Single("items", Bool(b)))
    requires e.rules.Standard? && Closed(e) && IsValidity(e, W) && e.good(Single("items", Bool(b)))
    ensures (forall v :: Evaluate(d, Single("items", Bool(b)), v, at) == Some([]) <==> W(Single("items", Bool(b)), v)) <==> b
  {
    var s := Single("items", Bool(b));
    var V := SchemaSound.ValidityExists(d);
    forall v ensures Evaluate(d, s, v, at) == Some([]) {
      SchemaSound.EvaluatorCorrect(d, V, s, v, at);
      ItemsMean(d, V, b, v);
    }
    forall v ensures W(s, v) <==> b || !v.Arr? || v.items == [] { ItemsMean(e, W, b, v); }
    assert W(s, Arr([Str("x")])) <==> b;
  }

  lemma NamesMean(d: Document, W: Validity, b: bool, v: Json)
    requires Closed(d) && IsValidity(d, W) && d.good(Single("propertyNames", Bool(b)))
    ensures W(Single("propertyNames", Bool(b)), v) <==> d.rules.Python? || b || !v.Obj? || v.fields == []
  {
    var s := Single("propertyNames", Bool(b));
    NamesRead(d.rules, Bool(b));
    BareMeans(d, W, s, BARE.(names := AsSchema(d.rules, Some(Bool(b)))), v);
    if d.rules.Standard? {
      assert Below(d, s, Bool(b));
      forall x ensures W(Bool(b), x) <==> b { BooleanMeans(d, W, b, x); }
      if v.Obj? && v.fields != [] { assert W(Bool(b), SchemaSound.Names(v.fields)[0]) <==> b; }
    }
  }

  /** So it does under `propertyNames`. */
  lemma NamesSchemaExact(d: Document, e: Document, W: Validity, b: bool, at: seq<Step>)
    requires d.rules == Python && Acyclic(d) && Proper(d) && d.good(Single("propertyNames", Bool(b)))
    requires e.rules.Standard? && Closed(e) && IsValidity(e, W) && e.good(Single("propertyNames", Bool(b)))
    ensures (forall v :: Evaluate(d, Single("propertyNames", Bool(b)), v, at) == Some([]) <==> W(Single("propertyNames", Bool(b)), v)) <==> b
  {
    var s := Single("propertyNames", Bool(b));
    var V := SchemaSound.ValidityExists(d);
    forall v ensures Evaluate(d, s, v, at) == Some([]) {
      SchemaSound.EvaluatorCorrect(d, V, s, v, at);
      NamesMean(d, V, b, v);
    }
    forall v ensures W(s, v) <==> b || !v.Obj? || v.fields == [] { NamesMean(e, W, b, v); }
    assert W(s, Obj([Field("x", Null)])) <==> b;
  }

  lemma LimitMeans(d: Document, W: Validity, limit: Json, v: Json)
    requires IsValidity(d, W) && d.good(Single("maxItems", limit))
    ensures W(Single("maxItems", limit), v) <==> (v.Arr? && AsMost(d.rules, Some(limit)).Some? ==> |v.items| <= AsMost(d.rules, Some(limit)).value)
  {
    LimitRead(d.rules, limit);
    BareMeans(d, W, Single("maxItems", limit), BARE.(length := Bounds(0.0, AsMost(d.rules, Some(limit)))), v);
  }

  /** An array too long for `limit`. */
  function Longer(limit: int): Json {
    Arr(seq(if limit < 0 then 0 else limit + 1, _ => Null))
  }

  /** The code passes over an upper bound spelled as a float: it agrees about all values exactly when the
      bound is spelled as an integer. */
  lemma LimitSchemaExact(d: Document, e: Document, W: Validity, limit: Json, at: seq<Step>)
    requires limit.Int? || !Spelled(limit)
    requires d.rules == Python && Acyclic(d) && Proper(d) && d.good(Single("maxItems", limit))
    requires e.rules.Standard? && IsValidity(e, W) && e.good(Single("maxItems", limit))
    ensures (forall v :: Evaluate(d, Single("maxItems", limit), v, at) == Some([]) <==> W(Single("maxItems", limit), v)) <==> limit.Int?
  {
    var s := Single("maxItems", limit);
    var V := SchemaSound.ValidityExists(d);
    forall v
      ensures Evaluate(d, s, v, at) == Some([]) <==>
              (v.Arr? && AsMost(Python, Some(limit)).Some? ==> |v.items| <= AsMost(Python, Some(limit)).value)
    {
      SchemaSound.EvaluatorCorrect(d, V, s, v, at);
      LimitMeans(d, V, limit, v);
    }
    forall v
      ensures W(s, v) <==> (v.Arr? && AsMost(e.rules, Some(limit)).Some? ==> |v.items| <= AsMost(e.rules, Some(limit)).value)
    {
      LimitMeans(e, W, limit, v);
    }
    if limit.Float? { assert !W(s, Longer(limit.number.Floor)); }
  }

  /** `type: integer` takes a value differently exactly when it is a float with an integral value. */
  lemma IntegerExact(unescape: string -> string, v: Json)
    ensures (KindHolds(Python, v, IntegerKind) <==> KindHolds(Standard(unescape), v, IntegerKind)) <==> Spelled(v)
    ensures !KindHolds(Python, Float(1.0), IntegerKind) && KindHolds(Standard(unescape), Float(1.0), IntegerKind)
  {
    assert 1.0.Floor == 1;
  }

  // ---------------------------------------------------------------- inputs on which they differ

  predicate Anywhere(pattern: string, text: string) { true }

  predicate Anytime(text: string) { true }

  function Unchanged(reference: string): string { reference }

  /** The document that is the schema `s` alone, beside the booleans. */
  function Alone(rules: Rules, s: Json): Document {
    Document(s, rules, Anywhere, Anytime, t => t == s || (rules.Standard? && t.Bool?), _ => 0)
  }

  lemma AloneIsProper(rules: Rules, s: Json, k: Keywords)
    requires s.Obj? && Read(rules, s) == Some(k)
    requires k == BARE.(constant := k.constant, choices := k.choices, items := k.items, names := k.names, length := k.length)
    requires k.items.Some? ==> rules.Standard? && k.items.value.Bool?
    requires k.names.Some? ==> rules.Standard? && k.names.value.Bool?
    ensures Acyclic(Alone(rules, s)) && Proper(Alone(rules, s)) && Alone(rules, s).good(s)
  {
    var d := Alone(rules, s);
    forall x, t | d.good(x) ensures !InPlace(d, x, t) {}
    forall x, t | d.good(x) && Below(d, x, t) ensures d.good(t) {}
    forall x | d.good(x) ensures Readable(d, x) {}
  }

  /** The evaluator accepts `["x"]` for `{"items": false}`; JSON Schema rejects it. */
  lemma ItemsFalse() returns (d: Document, e: Document, W: Validity)
    ensures d.rules == Python && Acyclic(d) && Proper(d) && d.good(Single("items", Bool(false)))
    ensures e == Alone(Standard(Unchanged), Single("items", Bool(false))) && IsValidity(e, W)
    ensures Evaluate(d, Single("items", Bool(false)), Arr([Str("x")]), []) == Some([]) && !W(Single("items", Bool(false)), Arr([Str("x")]))
  {
    var s := Single("items", Bool(false));
    d, e := Alone(Python, s), Alone(Standard(Unchanged), s);
    ItemsRead(Python, Bool(false));
    ItemsRead(Standard(Unchanged), Bool(false));
    AloneIsProper(Python, s, BARE.(items := None));
    AloneIsProper(Standard(Unchanged), s, BARE.(items := Some(Bool(false))));
    var V := SchemaSound.ValidityExists(d);
    W := SchemaSound.ValidityExists(e);
    SchemaSound.EvaluatorCorrect(d, V, s, Arr([Str("x")]), []);
    ItemsMean(d, V, false, Arr([Str("x")]));
    ItemsMean(e, W, false, Arr([Str("x")]));
  }

  /** The evaluator accepts `true` for `{"const": 1}`; JSON Schema rejects it. */
  lemma ConstantTrue() returns (d: Document, e: Document, W: Validity)
    ensures d.rules == Python && Acyclic(d) && Proper(d) && d.good(Single("const", Int(1)))
    ensures e == Alone(Standard(Unchanged), Single("const", Int(1))) && IsValidity(e, W)
    ensures Evaluate(d, Single("const", Int(1)), Bool(true), []) == Some([]) && !W(Single("const", Int(1)), Bool(true))
  {
    var s := Single("const", Int(1));
    d, e := Alone(Python, s), Alone(Standard(Unchanged), s);
    ConstantRead(Python, Int(1));
    ConstantRead(Standard(Unchanged), Int(1));
    AloneIsProper(Python, s, BARE.(constant := Some(Int(1))));
    AloneIsProper(Standard(Unchanged), s, BARE.(constant := Some(Int(1))));
    W := SchemaSound.ValidityExists(e);
    ConstantEvaluates(d, Int(1), Bool(true), []);
    ConstantMeans(e, W, Int(1), Bool(true));
    TrueIsOne();
  }
}
