/** Where the evaluator's assumptions hold: documents whose references are stratified are acyclic, and where
    the code reads a schema and compares values as JSON Schema does, the verdict is that of JSON Schema. */
module SchemaStandard {
  import opened Options
  import opened Json
  import opened Schema
  import SchemaSound

  // ---------------------------------------------------------------- size and level of a schema

  function Count(j: Json): nat {
    match j
    case Arr(items) => |items|
    case Obj(fields) => |fields|
    case _ => 0
  }

  function Child(j: Json, i: nat): (c: Json)
    requires i < Count(j)
    ensures c < j
  {
    if j.Arr? then j.items[i] else j.fields[i].value
  }

  function SizeUpTo(j: Json, n: nat): nat
    requires n <= Count(j)
    decreases j, n
  {
    if n == 0 then 1 else SizeUpTo(j, n - 1) + Size(Child(j, n - 1))
  }

  function Size(j: Json): nat
    decreases j, Count(j) + 1
  {
    SizeUpTo(j, Count(j))
  }

  /** The reference an object holds. */
  function Reference(j: Json): Option<string> {
    if j.Obj? then AsText(Get(j.fields, "$ref")) else None
  }

  function OwnHeight(level: string -> nat, j: Json): nat {
    match Reference(j)
    case None => 0
    case Some(r) => level(r) + 1
  }

  function Max(a: nat, b: nat): nat { if a < b then b else a }

  function HeightUpTo(level: string -> nat, j: Json, n: nat): nat
    requires n <= Count(j)
    decreases j, n
  {
    if n == 0 then OwnHeight(level, j) else Max(HeightUpTo(level, j, n - 1), Height(level, Child(j, n - 1)))
  }

  /** Above the level of every reference inside. */
  function Height(level: string -> nat, j: Json): nat
    decreases j, Count(j) + 1
  {
    HeightUpTo(level, j, Count(j))
  }

  /** `t` is smaller than `s` and no higher. */
  predicate Inside(level: string -> nat, t: Json, s: Json) {
    Size(t) < Size(s) && Height(level, t) <= Height(level, s)
  }

  lemma {:induction false} UpToGrows(level: string -> nat, j: Json, i: nat, n: nat)
    requires i < n <= Count(j)
    ensures SizeUpTo(j, n) >= 1 + Size(Child(j, i)) && HeightUpTo(level, j, n) >= Height(level, Child(j, i))
    ensures HeightUpTo(level, j, n) >= OwnHeight(level, j)
    decreases n
  {
    if i < n - 1 { UpToGrows(level, j, i, n - 1); } else { UpToStarts(level, j, n - 1); }
  }

  lemma {:induction false} UpToStarts(level: string -> nat, j: Json, n: nat)
    requires n <= Count(j)
    ensures SizeUpTo(j, n) >= 1 && HeightUpTo(level, j, n) >= OwnHeight(level, j)
    decreases n
  {
    if n > 0 { UpToStarts(level, j, n - 1); }
  }

  lemma ChildInside(level: string -> nat, j: Json, i: nat)
    requires i < Count(j)
    ensures Inside(level, Child(j, i), j)
  {
    UpToGrows(level, j, i, Count(j));
  }

  lemma MemberInside(level: string -> nat, fields: seq<Field>, key: string)
    requires Get(fields, key).Some?
    ensures Inside(level, Get(fields, key).value, Obj(fields))
  {
    GetMember(fields, key);
    var i :| 0 <= i < |fields| && fields[i].key == key && fields[i].value == Get(fields, key).value;
    ChildInside(level, Obj(fields), i);
  }

  lemma ElementInside(level: string -> nat, fields: seq<Field>, key: string, items: seq<Json>, t: Json)
    requires Get(fields, key) == Some(Arr(items)) && t in items
    ensures Inside(level, t, Obj(fields))
  {
    MemberInside(level, fields, key);
    var i :| 0 <= i < |items| && items[i] == t;
    ChildInside(level, Arr(items), i);
  }

  lemma EmptyInside(level: string -> nat, fields: seq<Field>, key: string)
    requires Get(fields, key).Some?
    ensures Inside(level, Obj([]), Obj(fields))
  {
    MemberInside(level, fields, key);
    UpToStarts(level, Get(fields, key).value, Count(Get(fields, key).value));
    assert Size(Obj([])) == 1 && Reference(Obj([])) == None;
  }

  // ---------------------------------------------------------------- what reading yields

  /** The schemas a schema applies in place, its reference aside, are inside it. */
  lemma ReadLists(rules: Rules, s: Json, k: Keywords, t: Json)
    requires Read(rules, s) == Some(k) && s.Obj?
    ensures t in k.allOf ==> Get(s.fields, "allOf") == Some(Arr(k.allOf))
    ensures k.anyOf.Some? ==> Get(s.fields, "anyOf") == Some(Arr(k.anyOf.value))
    ensures k.oneOf.Some? ==> Get(s.fields, "oneOf") == Some(Arr(k.oneOf.value))
  {}

  lemma ReadReference(rules: Rules, s: Json, k: Keywords)
    requires Read(rules, s) == Some(k) && s.Obj?
    ensures k.reference.Some? ==> Reference(s).Some? && k.reference.value == Target(rules, Reference(s).value)
  {}

  lemma ReadCondition(rules: Rules, s: Json, k: Keywords)
    requires Read(rules, s) == Some(k) && s.Obj?
    ensures k.condition.Some? ==> Get(s.fields, "if") == Some(k.condition.value)
  {}

  lemma ReadBranches(rules: Rules, s: Json, k: Keywords)
    requires Read(rules, s) == Some(k) && s.Obj?
    ensures k.whenTrue == Obj([]) || Get(s.fields, "then") == Some(k.whenTrue)
    ensures k.whenFalse == Obj([]) || Get(s.fields, "else") == Some(k.whenFalse)
  {}

  lemma InPlaceInside(d: Document, level: string -> nat, s: Json, t: Json)
    requires InPlace(d, s, t)
    ensures Inside(level, t, s) || (Reference(s).Some? && Resolve(d.root, Target(d.rules, Reference(s).value)) == Some(t))
  {
    var k := Read(d.rules, s).value;
    ReadLists(d.rules, s, k, t);
    ReadReference(d.rules, s, k);
    ReadCondition(d.rules, s, k);
    ReadBranches(d.rules, s, k);
    var f := s.fields;
    if t in k.allOf {
      ElementInside(level, f, "allOf", k.allOf, t);
    } else if k.anyOf.Some? && t in k.anyOf.value {
      ElementInside(level, f, "anyOf", k.anyOf.value, t);
    } else if k.oneOf.Some? && t in k.oneOf.value {
      ElementInside(level, f, "oneOf", k.oneOf.value, t);
    } else if k.condition.Some? && (t == k.condition.value || t == k.whenTrue || t == k.whenFalse) {
      EmptyInside(level, f, "if");
      MemberInside(level, f, "if");
      if Get(f, "then").Some? { MemberInside(level, f, "then"); }
      if Get(f, "else").Some? { MemberInside(level, f, "else"); }
    }
  }

  // ---------------------------------------------------------------- stratified documents

  /** What a reference names holds only references of lower level: no definition leads to itself. */
  ghost predicate Stratified(root: Json, rules: Rules, level: string -> nat) {
    forall r {:trigger Target(rules, r)} ::
      Resolve(root, Target(rules, r)).Some? ==> Height(level, Resolve(root, Target(rules, r)).value) <= level(r)
  }

  lemma {:induction false} WalkInside(level: string -> nat, j: Json, keys: seq<string>)
    requires Walk(j, keys).Some?
    ensures Size(Walk(j, keys).value) <= Size(j) && Height(level, Walk(j, keys).value) <= Height(level, j)
    decreases |keys|
  {
    if keys != [] {
      MemberInside(level, j.fields, keys[0]);
      WalkInside(level, Get(j.fields, keys[0]).value, keys[1..]);
    }
  }

  lemma ResolveInside(level: string -> nat, root: Json, r: string)
    requires Resolve(root, r).Some?
    ensures Size(Resolve(root, r).value) <= Size(root) && Height(level, Resolve(root, r).value) <= Height(level, root)
  {
    var parts := SplitAt(r[2..]);
    WalkInside(level, root, seq(|parts|, i requires 0 <= i < |parts| => Decode(parts[i])));
  }

  /** Height first, then size: a rank that falls along every reference of a stratified document. */
  function Rank(root: Json, level: string -> nat, s: Json): nat {
    Height(level, s) * (Size(root) + 1) + Size(s)
  }

  lemma RankFalls(height: nat, size: nat, higher: nat, larger: nat, most: nat)
    requires (height <= higher && size < larger) || (height < higher && size <= most)
    ensures height * (most + 1) + size < higher * (most + 1) + larger
  {
    if height < higher {
      assert (height + 1) * (most + 1) <= higher * (most + 1);
      assert (height + 1) * (most + 1) == height * (most + 1) + most + 1;
    } else {
      assert height * (most + 1) == higher * (most + 1);
    }
  }

  /** Every stratified document is acyclic, whichever schemas are in use. */
  lemma StratifiedIsAcyclic(d: Document, level: string -> nat)
    requires Stratified(d.root, d.rules, level) && Closed(d) && forall s :: d.rank(s) == Rank(d.root, level, s)
    ensures Acyclic(d)
  {
    forall s, t | d.good(s) && InPlace(d, s, t) ensures d.rank(t) < d.rank(s) {
      InPlaceInside(d, level, s, t);
      if !Inside(level, t, s) {
        ResolveInside(level, d.root, Target(d.rules, Reference(s).value));
        UpToStarts(level, s, Count(s));
      }
      RankFalls(Height(level, t), Size(t), Height(level, s), Size(s), Size(d.root));
    }
  }

  function Ground(r: string): nat { 0 }

  predicate ReferenceFree(j: Json)
    decreases j
  {
    Reference(j).None? && forall i :: 0 <= i < Count(j) ==> ReferenceFree(Child(j, i))
  }

  lemma {:induction false} ReferenceFreeIsFlat(j: Json, n: nat)
    requires ReferenceFree(j) && n <= Count(j)
    ensures HeightUpTo(Ground, j, n) == 0
    decreases j, n
  {
    if n > 0 {
      ReferenceFreeIsFlat(j, n - 1);
      ReferenceFreeIsFlat(Child(j, n - 1), Count(Child(j, n - 1)));
    }
  }

  /** In particular a document that holds no reference. */
  lemma ReferenceFreeIsStratified(root: Json, rules: Rules)
    requires ReferenceFree(root)
    ensures Stratified(root, rules, Ground)
  {
    ReferenceFreeIsFlat(root, Count(root));
    forall r | Resolve(root, Target(rules, r)).Some? ensures Height(Ground, Resolve(root, Target(rules, r)).value) <= Ground(r) {
      ResolveInside(Ground, root, Target(rules, r));
    }
  }

  /** On a stratified document whose schemas can all be read, the evaluator ends without raising and
      finds no error exactly when the value is valid; and there is such a validity. */
  lemma StratifiedDecided(d: Document, level: string -> nat, s: Json, v: Json, at: seq<Step>) returns (W: Validity)
    requires Stratified(d.root, d.rules, level) && Closed(d) && forall t :: d.rank(t) == Rank(d.root, level, t)
    requires Proper(d) && d.good(s)
    ensures Acyclic(d) && IsValidity(d, W)
    ensures Evaluate(d, s, v, at) == Some([]) <==> W(s, v)
    ensures Evaluate(d, s, v, at).Some?
  {
    StratifiedIsAcyclic(d, level);
    W := SchemaSound.ValidityExists(d);
    SchemaSound.EvaluatorCorrect(d, W, s, v, at);
  }

  // ---------------------------------------------------------------- reading as JSON Schema does

  predicate IsBoolean(j: Option<Json>) { j.Some? && j.value.Bool? }

  /** A boolean, or an integer spelled as a float. */
  predicate OddLimit(j: Option<Json>) { j.Some? && (j.value.Bool? || !Spelled(j.value)) }

  /** The schema has no boolean where the code passes over it, only integers as upper bounds, and no
      reference that percent-decoding changes. */
  predicate Plain(unescape: string -> string, s: Json) {
    s.Obj? ==>
      var f := s.fields;
      && !IsBoolean(Get(f, "if")) && !IsBoolean(Get(f, "items")) && !IsBoolean(Get(f, "propertyNames"))
      && !OddLimit(Get(f, "maxProperties")) && !OddLimit(Get(f, "maxItems")) && !OddLimit(Get(f, "maxLength"))
      && (Reference(s).Some? ==> unescape(Reference(s).value) == Reference(s).value)
  }

  lemma LimitExact(unescape: string -> string, j: Option<Json>)
    ensures AsMost(Python, j) == AsMost(Standard(unescape), j) <==> !OddLimit(j)
  {}

  /** What JSON Schema reads where the code reads `k`. */
  function Reread(unescape: string -> string, f: seq<Field>, k: Keywords): Keywords {
    var rules := Standard(unescape);
    k.(reference := AsReference(rules, Get(f, "$ref")), condition := AsSchema(rules, Get(f, "if")),
       names := AsSchema(rules, Get(f, "propertyNames")), items := AsSchema(rules, Get(f, "items")),
       fields := k.fields.(most := AsMost(rules, Get(f, "maxProperties"))), length := k.length.(most := AsMost(rules, Get(f, "maxItems"))),
       size := k.size.(most := AsMost(rules, Get(f, "maxLength"))))
  }

  lemma StandardReads(unescape: string -> string, s: Json)
    requires Read(Python, s).Some?
    ensures s.Obj? && Read(Standard(unescape), s) == Some(Reread(unescape, s.fields, Read(Python, s).value))
  {}

  lemma CodeReads(s: Json)
    requires Read(Python, s).Some?
    ensures s.Obj?
    ensures var f, k := s.fields, Read(Python, s).value;
            && k.reference == Reference(s) && k.condition == AsSchema(Python, Get(f, "if"))
            && k.names == AsSchema(Python, Get(f, "propertyNames")) && k.items == AsSchema(Python, Get(f, "items"))
            && k.fields.most == AsMost(Python, Get(f, "maxProperties")) && k.length.most == AsMost(Python, Get(f, "maxItems"))
            && k.size.most == AsMost(Python, Get(f, "maxLength"))
  {}

  lemma SchemaExact(unescape: string -> string, j: Option<Json>)
    ensures AsSchema(Python, j) == AsSchema(Standard(unescape), j) <==> !IsBoolean(j)
  {}

  /** A schema the code can read is read as JSON Schema reads it exactly when it is plain. */
  lemma ReadingExact(unescape: string -> string, s: Json)
    requires Read(Python, s).Some?
    ensures Read(Standard(unescape), s) == Read(Python, s) <==> Plain(unescape, s)
  {
    StandardReads(unescape, s);
    CodeReads(s);
    var f := s.fields;
    SchemaExact(unescape, Get(f, "if"));
    SchemaExact(unescape, Get(f, "items"));
    SchemaExact(unescape, Get(f, "propertyNames"));
    LimitExact(unescape, Get(f, "maxProperties"));
    LimitExact(unescape, Get(f, "maxItems"));
    LimitExact(unescape, Get(f, "maxLength"));
    RereadSame(unescape, s, Read(Python, s).value);
  }

  lemma RereadSame(unescape: string -> string, s: Json, k: Keywords)
    requires s.Obj? && k.reference == Reference(s)
    ensures var f, n := s.fields, Reread(unescape, s.fields, k);
            n == k <==>
              && (Reference(s).Some? ==> unescape(Reference(s).value) == Reference(s).value)
              && k.condition == AsSchema(Standard(unescape), Get(f, "if")) && k.names == AsSchema(Standard(unescape), Get(f, "propertyNames"))
              && k.items == AsSchema(Standard(unescape), Get(f, "items")) && k.fields.most == AsMost(Standard(unescape), Get(f, "maxProperties"))
              && k.length.most == AsMost(Standard(unescape), Get(f, "maxItems")) && k.size.most == AsMost(Standard(unescape), Get(f, "maxLength"))
  {}

  // ---------------------------------------------------------------- agreement with JSON Schema

  /** The constant is not confused with the value: for the constant 1, the value is not `true`. */
  predicate ClearConstant(v: Json, c: Json) {
    PythonEqual(v, c) ==> Unconfused(v, c)
  }

  predicate ClearConstants(k: Keywords, v: Json) {
    && (k.constant.Some? ==> ClearConstant(v, k.constant.value))
    && (k.choices.Some? ==> ClearChoices(v, k.choices.value))
  }

  /** If the value is one of the choices, it is one without confusion. */
  predicate ClearChoices(v: Json, choices: seq<Json>) {
    (exists i :: 0 <= i < |choices| && PythonEqual(v, choices[i])) ==>
      exists i :: 0 <= i < |choices| && PythonEqual(v, choices[i]) && Unconfused(v, choices[i])
  }

  /** A float with an integral value is not asked to be an integer. */
  predicate ClearKinds(k: Keywords, v: Json) {
    k.kinds.Some? && IntegerKind in k.kinds.value && NumberKind !in k.kinds.value ==> Spelled(v)
  }

  /** Elements that have to be distinct hold no integer spelled as a float. */
  predicate ClearItems(k: Keywords, v: Json) {
    k.unique && v.Arr? ==> forall i :: 0 <= i < |v.items| ==> EveryLeaf(Spelled, v.items[i])
  }

  /** The schema for the member `key`. */
  function MemberSchema(k: Keywords, key: string): Option<Json> {
    match Get(k.properties, key)
    case Some(t) => Some(t)
    case None => if k.additional.Only? then Some(k.additional.schema) else None
  }

  lemma MemberBelow(d: Document, s: Json, k: Keywords, key: string)
    requires Read(d.rules, s) == Some(k) && MemberSchema(k, key).Some?
    ensures Below(d, s, MemberSchema(k, key).value)
  {
    if Get(k.properties, key).Some? { PropertyBelow(d, s, k, key); }
  }

  /** Wherever the evaluation of `v` gets to, constants, integers and distinct elements are clear. */
  ghost predicate Clear(d: Document, s: Json, v: Json)
    requires Acyclic(d) && d.good(s)
    decreases Level(v), v, d.rank(s)
  {
    Read(d.rules, s).Some? ==>
      var k := Read(d.rules, s).value;
      && ClearConstants(k, v) && ClearKinds(k, v) && ClearItems(k, v)
      && (forall t :: InPlace(d, s, t) ==> Clear(d, t, v))
      && (v.Obj? ==> forall i :: 0 <= i < |v.fields| ==> ClearMember(d, s, v, i) && ClearName(d, s, v, i))
      && (v.Arr? ==> forall i :: 0 <= i < |v.items| ==> ClearElement(d, s, v, i))
  }

  ghost predicate ClearMember(d: Document, s: Json, v: Json, i: nat)
    requires Acyclic(d) && d.good(s) && Read(d.rules, s).Some? && v.Obj? && i < |v.fields|
    decreases Level(v), v, d.rank(s), 0
  {
    var t := MemberSchema(Read(d.rules, s).value, v.fields[i].key);
    t.Some? ==> (MemberBelow(d, s, Read(d.rules, s).value, v.fields[i].key); Clear(d, t.value, v.fields[i].value))
  }

  ghost predicate ClearName(d: Document, s: Json, v: Json, i: nat)
    requires Acyclic(d) && d.good(s) && Read(d.rules, s).Some? && v.Obj? && i < |v.fields|
    decreases Level(v), v, d.rank(s), 0
  {
    var t := Read(d.rules, s).value.names;
    t.Some? ==> (assert Below(d, s, t.value); Clear(d, t.value, Str(v.fields[i].key)))
  }

  ghost predicate ClearElement(d: Document, s: Json, v: Json, i: nat)
    requires Acyclic(d) && d.good(s) && Read(d.rules, s).Some? && v.Arr? && i < |v.items|
    decreases Level(v), v, d.rank(s), 0
  {
    var t := Read(d.rules, s).value.items;
    t.Some? ==> (assert Below(d, s, t.value); Clear(d, t.value, v.items[i]))
  }

  /** The verdicts on one constant agree exactly when it is clear. */
  lemma ConstantSame(rules: Rules, v: Json, c: Json)
    requires rules.Standard?
    ensures (SameConstant(Python, v, c) <==> SameConstant(rules, v, c)) <==> ClearConstant(v, c)
  {
    ConfusionExact(v, c);
  }

  lemma ChoicesSame(v: Json, choices: seq<Json>)
    ensures ((exists i :: 0 <= i < |choices| && PythonEqual(v, choices[i])) <==> (exists i :: 0 <= i < |choices| && Equal(SameLeaf, v, choices[i])))
            <==> ClearChoices(v, choices)
  {
    forall i | 0 <= i < |choices| ensures Equal(SameLeaf, v, choices[i]) <==> PythonEqual(v, choices[i]) && Unconfused(v, choices[i]) {
      ConfusionExact(v, choices[i]);
    }
    if i :| 0 <= i < |choices| && Equal(SameLeaf, v, choices[i]) { assert PythonEqual(v, choices[i]) && Unconfused(v, choices[i]); }
    if i :| 0 <= i < |choices| && PythonEqual(v, choices[i]) && Unconfused(v, choices[i]) { assert Equal(SameLeaf, v, choices[i]); }
  }

  lemma ConstantsSame(rules: Rules, k: Keywords, v: Json)
    requires ClearConstants(k, v) && rules.Standard?
    ensures ConstantsHold(Python, k, v) <==> ConstantsHold(rules, k, v)
  {
    if k.constant.Some? { ConstantSame(rules, v, k.constant.value); }
    if k.choices.Some? { ChoicesSame(v, k.choices.value); ChoiceHolds(rules, v, k.choices.value); }
  }

  lemma ChoiceHolds(rules: Rules, v: Json, choices: seq<Json>)
    requires rules.Standard?
    ensures (exists i :: 0 <= i < |choices| && SameConstant(Python, v, choices[i])) <==> (exists i :: 0 <= i < |choices| && PythonEqual(v, choices[i]))
    ensures (exists i :: 0 <= i < |choices| && SameConstant(rules, v, choices[i])) <==> (exists i :: 0 <= i < |choices| && Equal(SameLeaf, v, choices[i]))
  {
    if i :| 0 <= i < |choices| && SameConstant(Python, v, choices[i]) { assert PythonEqual(v, choices[i]); }
    if i :| 0 <= i < |choices| && PythonEqual(v, choices[i]) { assert SameConstant(Python, v, choices[i]); }
    if i :| 0 <= i < |choices| && SameConstant(rules, v, choices[i]) { assert Equal(SameLeaf, v, choices[i]); }
    if i :| 0 <= i < |choices| && Equal(SameLeaf, v, choices[i]) { assert SameConstant(rules, v, choices[i]); }
  }

  lemma KindsSame(rules: Rules, k: Keywords, v: Json)
    requires ClearKinds(k, v) && rules.Standard?
    ensures KindsHold(Python, k, v) <==> KindsHold(rules, k, v)
  {
    if k.kinds.Some? {
      var kinds := k.kinds.value;
      if i :| 0 <= i < |kinds| && KindHolds(Python, v, kinds[i]) { assert KindHolds(rules, v, kinds[i]); }
      if i :| 0 <= i < |kinds| && KindHolds(rules, v, kinds[i]) {
        if kinds[i] == IntegerKind && v.Float? {
          assert NumberKind in kinds;
          var j :| 0 <= j < |kinds| && kinds[j] == NumberKind;
          assert KindHolds(Python, v, kinds[j]);
        } else {
          assert KindHolds(Python, v, kinds[i]);
        }
      }
    }
  }

  lemma ItemsSame(rules: Rules, items: seq<Json>)
    requires rules.Standard? && forall i :: 0 <= i < |items| ==> EveryLeaf(Spelled, items[i])
    ensures Distinct(Python, items) <==> Distinct(rules, items)
  {
    forall i, j | 0 <= i < j < |items| ensures SameItem(Python, items[i], items[j]) <==> SameItem(rules, items[i], items[j]) {
      SpelledExact(items[i], items[j]);
    }
  }

  /** The same document with JSON Schema's notions. */
  function AsStandard(d: Document, unescape: string -> string): Document { d.(rules := Standard(unescape)) }

  /** Every schema in use is plain. */
  ghost predicate PlainDocument(d: Document, unescape: string -> string) {
    forall s {:trigger Plain(unescape, s)} :: d.good(s) ==> Plain(unescape, s)
  }

  lemma SameReading(d: Document, unescape: string -> string, s: Json)
    requires d.rules == Python && PlainDocument(d, unescape) && Proper(d) && d.good(s)
    ensures Read(Python, s).Some? && Read(Standard(unescape), s) == Read(Python, s)
  {
    assert Readable(d, s) && Plain(unescape, s);
    ReadingExact(unescape, s);
  }

  ghost predicate SameInPlace(d: Document, V: Validity, W: Validity, s: Json, v: Json) {
    forall t :: InPlace(d, s, t) ==> (V(t, v) <==> W(t, v))
  }

  ghost predicate SameOn(V: Validity, W: Validity, ts: seq<Json>, v: Json) {
    forall i :: 0 <= i < |ts| ==> (V(ts[i], v) <==> W(ts[i], v))
  }

  lemma OneOfSame(V: Validity, W: Validity, ts: seq<Json>, v: Json)
    requires SameOn(V, W, ts, v)
    ensures ExactlyOne(V, ts, v) <==> ExactlyOne(W, ts, v)
  {
    if i :| 0 <= i < |ts| && V(ts[i], v) && forall j :: 0 <= j < |ts| && j != i ==> !V(ts[j], v) { assert W(ts[i], v); }
    if i :| 0 <= i < |ts| && W(ts[i], v) && forall j :: 0 <= j < |ts| && j != i ==> !W(ts[j], v) { assert V(ts[i], v); }
  }

  lemma AnyOfSame(V: Validity, W: Validity, ts: seq<Json>, v: Json)
    requires SameOn(V, W, ts, v)
    ensures (exists i :: 0 <= i < |ts| && V(ts[i], v)) <==> (exists i :: 0 <= i < |ts| && W(ts[i], v))
  {
    if i :| 0 <= i < |ts| && V(ts[i], v) { assert W(ts[i], v); }
    if i :| 0 <= i < |ts| && W(ts[i], v) { assert V(ts[i], v); }
  }

  lemma AppliedSame(root: Json, d: Document, e: Document, V: Validity, W: Validity, k: Keywords, v: Json)
    requires d.root == root && e.root == root
    requires k.reference.Some? && Resolve(root, k.reference.value).Some? ==> SameOn(V, W, [Resolve(root, k.reference.value).value], v)
    requires SameOn(V, W, k.allOf, v) && (k.anyOf.Some? ==> SameOn(V, W, k.anyOf.value, v)) && (k.oneOf.Some? ==> SameOn(V, W, k.oneOf.value, v))
    requires k.condition.Some? ==> SameOn(V, W, [k.condition.value, k.whenTrue, k.whenFalse], v)
    ensures ApplicatorsHold(d, V, k, v) <==> ApplicatorsHold(e, W, k, v)
  {
    if k.anyOf.Some? { AnyOfSame(V, W, k.anyOf.value, v); }
    if k.oneOf.Some? { OneOfSame(V, W, k.oneOf.value, v); }
    if k.condition.Some? {
      var ts := [k.condition.value, k.whenTrue, k.whenFalse];
      assert (V(ts[0], v) <==> W(ts[0], v)) && (V(ts[1], v) <==> W(ts[1], v)) && (V(ts[2], v) <==> W(ts[2], v));
    }
    if k.reference.Some? && Resolve(root, k.reference.value).Some? {
      var ts := [Resolve(root, k.reference.value).value];
      assert V(ts[0], v) <==> W(ts[0], v);
    }
  }

  lemma ListSame(d: Document, V: Validity, W: Validity, s: Json, ts: seq<Json>, v: Json)
    requires SameInPlace(d, V, W, s, v) && forall i :: 0 <= i < |ts| ==> InPlace(d, s, ts[i])
    ensures SameOn(V, W, ts, v)
  {}

  lemma ApplicatorsSame(d: Document, e: Document, V: Validity, W: Validity, s: Json, k: Keywords, v: Json)
    requires Read(d.rules, s) == Some(k) && SameInPlace(d, V, W, s, v) && e.root == d.root
    ensures ApplicatorsHold(d, V, k, v) <==> ApplicatorsHold(e, W, k, v)
  {
    ListSame(d, V, W, s, k.allOf, v);
    if k.anyOf.Some? { ListSame(d, V, W, s, k.anyOf.value, v); }
    if k.oneOf.Some? { ListSame(d, V, W, s, k.oneOf.value, v); }
    if k.condition.Some? { ListSame(d, V, W, s, [k.condition.value, k.whenTrue, k.whenFalse], v); }
    if k.reference.Some? && Resolve(d.root, k.reference.value).Some? { ListSame(d, V, W, s, [Resolve(d.root, k.reference.value).value], v); }
    AppliedSame(d.root, d, e, V, W, k, v);
  }

  lemma ObjectSame(V: Validity, W: Validity, k: Keywords, fields: seq<Field>)
    requires forall i :: 0 <= i < |fields| && MemberSchema(k, fields[i].key).Some? ==>
               var t := MemberSchema(k, fields[i].key).value; V(t, fields[i].value) <==> W(t, fields[i].value)
    requires k.names.Some? ==> forall i :: 0 <= i < |fields| ==> (V(k.names.value, Str(fields[i].key)) <==> W(k.names.value, Str(fields[i].key)))
    ensures ObjectHolds(V, k, fields) <==> ObjectHolds(W, k, fields)
  {
    forall i | 0 <= i < |fields| ensures FieldHolds(V, k, fields[i]) <==> FieldHolds(W, k, fields[i]) {
      assert MemberSchema(k, fields[i].key).Some? ==> (V(MemberSchema(k, fields[i].key).value, fields[i].value) <==> W(MemberSchema(k, fields[i].key).value, fields[i].value));
    }
  }

  lemma ArraySame(rules: Rules, V: Validity, W: Validity, k: Keywords, items: seq<Json>)
    requires ClearItems(k, Arr(items)) && rules.Standard?
    requires k.items.Some? ==> forall i :: 0 <= i < |items| ==> (V(k.items.value, items[i]) <==> W(k.items.value, items[i]))
    ensures ArrayHolds(Python, V, k, items) <==> ArrayHolds(rules, W, k, items)
  {
    if k.unique { ItemsSame(rules, items); }
  }

  /** `V` is validity by Python's notions and `W` by those of JSON Schema. */
  ghost predicate Agreeing(d: Document, unescape: string -> string, V: Validity, W: Validity) {
    && d.rules == Python && Acyclic(d) && Proper(d) && PlainDocument(d, unescape)
    && IsValidity(d, V) && IsValidity(AsStandard(d, unescape), W)
  }

  lemma MembersAgree(d: Document, unescape: string -> string, V: Validity, W: Validity, s: Json, k: Keywords, v: Json)
    requires Agreeing(d, unescape, V, W) && d.good(s) && Clear(d, s, v) && Read(d.rules, s) == Some(k) && v.Obj?
    ensures ObjectHolds(V, k, v.fields) <==> ObjectHolds(W, k, v.fields)
    decreases Level(v), v, d.rank(s), 0
  {
    forall i | 0 <= i < |v.fields| && MemberSchema(k, v.fields[i].key).Some?
      ensures var t := MemberSchema(k, v.fields[i].key).value; V(t, v.fields[i].value) <==> W(t, v.fields[i].value)
    {
      assert ClearMember(d, s, v, i);
      MemberBelow(d, s, k, v.fields[i].key);
      VerdictsAgree(d, unescape, V, W, MemberSchema(k, v.fields[i].key).value, v.fields[i].value);
    }
    if k.names.Some? {
      forall i | 0 <= i < |v.fields| ensures V(k.names.value, Str(v.fields[i].key)) <==> W(k.names.value, Str(v.fields[i].key)) {
        assert ClearName(d, s, v, i);
        assert Below(d, s, k.names.value);
        VerdictsAgree(d, unescape, V, W, k.names.value, Str(v.fields[i].key));
      }
    }
    ObjectSame(V, W, k, v.fields);
  }

  lemma ElementsAgree(d: Document, unescape: string -> string, V: Validity, W: Validity, s: Json, k: Keywords, v: Json)
    requires Agreeing(d, unescape, V, W) && d.good(s) && Clear(d, s, v) && Read(d.rules, s) == Some(k) && v.Arr?
    ensures ArrayHolds(Python, V, k, v.items) <==> ArrayHolds(Standard(unescape), W, k, v.items)
    decreases Level(v), v, d.rank(s), 0
  {
    if k.items.Some? {
      forall i | 0 <= i < |v.items| ensures V(k.items.value, v.items[i]) <==> W(k.items.value, v.items[i]) {
        assert ClearElement(d, s, v, i);
        assert Below(d, s, k.items.value);
        VerdictsAgree(d, unescape, V, W, k.items.value, v.items[i]);
      }
    }
    ArraySame(Standard(unescape), V, W, k, v.items);
  }

  lemma SatisfiesSame(d: Document, unescape: string -> string, V: Validity, W: Validity, s: Json, k: Keywords, v: Json)
    requires d.rules == Python && Read(Python, s) == Some(k) && Read(Standard(unescape), s) == Some(k)
    requires SameInPlace(d, V, W, s, v) && ClearConstants(k, v) && ClearKinds(k, v)
    requires v.Obj? ==> (ObjectHolds(V, k, v.fields) <==> ObjectHolds(W, k, v.fields))
    requires v.Arr? ==> (ArrayHolds(Python, V, k, v.items) <==> ArrayHolds(Standard(unescape), W, k, v.items))
    ensures Satisfies(d, V, s, v) <==> Satisfies(AsStandard(d, unescape), W, s, v)
  {
    ApplicatorsSame(d, AsStandard(d, unescape), V, W, s, k, v);
    KindsSame(Standard(unescape), k, v);
    ConstantsSame(Standard(unescape), k, v);
  }

  /** On clear values the two notions of validity agree. */
  lemma {:induction false} VerdictsAgree(d: Document, unescape: string -> string, V: Validity, W: Validity, s: Json, v: Json)
    requires Agreeing(d, unescape, V, W) && d.good(s) && Clear(d, s, v)
    ensures V(s, v) <==> W(s, v)
    decreases Level(v), v, d.rank(s), 1
  {
    SameReading(d, unescape, s);
    var k := Read(Python, s).value;
    forall t | InPlace(d, s, t) ensures V(t, v) <==> W(t, v) { VerdictsAgree(d, unescape, V, W, t, v); }
    if v.Obj? { MembersAgree(d, unescape, V, W, s, k, v); }
    if v.Arr? { ElementsAgree(d, unescape, V, W, s, k, v); }
    SatisfiesSame(d, unescape, V, W, s, k, v);
    assert V(s, v) <==> Satisfies(d, V, s, v);
    assert W(s, v) <==> Satisfies(AsStandard(d, unescape), W, s, v);
  }

  lemma StandardApplies(d: Document, unescape: string -> string, s: Json, t: Json)
    requires d.rules == Python && PlainDocument(d, unescape) && Proper(d) && d.good(s)
    ensures InPlace(AsStandard(d, unescape), s, t) <==> InPlace(d, s, t)
    ensures Below(AsStandard(d, unescape), s, t) <==> Below(d, s, t)
    ensures Readable(AsStandard(d, unescape), s)
  {
    SameReading(d, unescape, s);
    assert Readable(d, s);
  }

  lemma StandardIsProper(d: Document, unescape: string -> string)
    requires d.rules == Python && Acyclic(d) && Proper(d) && PlainDocument(d, unescape)
    ensures Acyclic(AsStandard(d, unescape)) && Proper(AsStandard(d, unescape))
  {
    var e := AsStandard(d, unescape);
    forall s, t | e.good(s) && InPlace(e, s, t) ensures e.good(t) && e.rank(t) < e.rank(s) { StandardApplies(d, unescape, s, t); }
    forall s, t | e.good(s) && Below(e, s, t) ensures e.good(t) { StandardApplies(d, unescape, s, t); }
    forall s | e.good(s) ensures Readable(e, s) { StandardApplies(d, unescape, s, s); }
  }

  /** The evaluator decides JSON Schema's validity of every clear value of a plain document; and that
      validity exists. */
  lemma DecidesStandard(d: Document, unescape: string -> string, s: Json, v: Json, at: seq<Step>) returns (W: Validity)
    requires d.rules == Python && Acyclic(d) && Proper(d) && PlainDocument(d, unescape) && d.good(s) && Clear(d, s, v)
    ensures IsValidity(AsStandard(d, unescape), W)
    ensures Evaluate(d, s, v, at).Some? && (Evaluate(d, s, v, at) == Some([]) <==> W(s, v))
  {
    StandardIsProper(d, unescape);
    var V := SchemaSound.ValidityExists(d);
    W := SchemaSound.ValidityExists(AsStandard(d, unescape));
    VerdictsAgree(d, unescape, V, W, s, v);
    SchemaSound.EvaluatorCorrect(d, V, s, v, at);
  }
}
