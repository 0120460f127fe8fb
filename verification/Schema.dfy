/** The JSON Schema evaluator for release evidence. `Evaluate` collects errors; `Satisfies` says what
    the keywords mean. The evaluator finds no error exactly when the value is valid. */
module Schema {
  import opened Options
  import opened Json

  datatype Kind = ObjectKind | ArrayKind | StringKind | IntegerKind | NumberKind | BooleanKind | NullKind

  datatype Additional = Anything | Nothing | Only(schema: Json)

  /** The keywords of one schema object, as the evaluator reads them. */
  datatype Keywords = Keywords(
    reference: Option<string>, allOf: seq<Json>, anyOf: Option<seq<Json>>, oneOf: Option<seq<Json>>,
    condition: Option<Json>, whenTrue: Json, whenFalse: Json,
    kinds: Option<seq<Kind>>, constant: Option<Json>, choices: Option<seq<Json>>,
    required: seq<string>, properties: seq<Field>, additional: Additional, names: Option<Json>,
    fields: Bounds, items: Option<Json>, unique: bool, length: Bounds, size: Bounds,
    pattern: Option<string>, format: bool, minimum: Option<real>, maximum: Option<real>)

  /** A lower bound, zero by default, and an optional upper bound. */
  datatype Bounds = Bounds(least: real, most: Option<int>)

  predicate Within(n: int, b: Bounds) {
    !(n as real < b.least) && (b.most.Some? ==> n <= b.most.value)
  }

  /** Whose notions apply: Python's, as in the code, or those of JSON Schema, which takes references as
      URI fragments; `unescape` is percent-decoding (section 6 of RFC 6901). */
  datatype Rules = Python | Standard(unescape: string -> string)

  // ---------------------------------------------------------------- reading keywords

  function AsList(j: Option<Json>): Option<Option<seq<Json>>> {
    match j
    case None => Some(None)
    case Some(Arr(items)) => Some(Some(items))
    case _ => None
  }

  function AsText(j: Option<Json>): Option<string> {
    match j
    case Some(Str(text)) => Some(text)
    case _ => None
  }

  /** The code takes only an object for a schema here and passes over anything else; in JSON Schema a
      boolean is a schema too (section 4.3.2 of JSON Schema Core). */
  function AsSchema(rules: Rules, j: Option<Json>): Option<Json> {
    match j
    case Some(Obj(fields)) => Some(Obj(fields))
    case Some(Bool(truth)) => if rules.Standard? then Some(Bool(truth)) else None
    case _ => None
  }

  /** A branch of `if`; an absent one is the empty schema. */
  function AsBranch(rules: Rules, j: Option<Json>): Option<Json> {
    if j.None? then Some(Obj([])) else AsSchema(rules, j)
  }

  function AsProperties(j: Option<Json>): Option<seq<Field>> {
    match j
    case None => Some([])
    case Some(Obj(fields)) => Some(fields)
    case _ => None
  }

  function AsReference(rules: Rules, j: Option<Json>): Option<string> {
    match j
    case Some(Str(text)) => Some(Target(rules, text))
    case _ => None
  }

  function Target(rules: Rules, reference: string): string {
    if rules.Python? then reference else rules.unescape(reference)
  }

  function AsNumber(j: Option<Json>): Option<real> {
    match j
    case Some(value) => if Number(value) || value.Bool? then Some(Amount(value)) else None
    case None => None
  }

  /** In the code only an integer, or a boolean read as one, is an upper bound; in JSON Schema any number
      with an integral value is. */
  function AsMost(rules: Rules, j: Option<Json>): Option<int> {
    match j
    case Some(Int(n)) => Some(n)
    case Some(Bool(b)) => if rules.Python? then Some(if b then 1 else 0) else None
    case Some(Float(r)) => if rules.Standard? && r == r.Floor as real then Some(r.Floor) else None
    case _ => None
  }

  function AsBounds(rules: Rules, least: Option<Json>, most: Option<Json>): Option<Bounds> {
    if least.None? then Some(Bounds(0.0, AsMost(rules, most)))
    else
      match AsNumber(least)
      case None => None
      case Some(n) => Some(Bounds(n, AsMost(rules, most)))
  }

  function AsKind(j: Json): Option<Kind> {
    if j == Str("object") then Some(ObjectKind)
    else if j == Str("array") then Some(ArrayKind)
    else if j == Str("string") then Some(StringKind)
    else if j == Str("integer") then Some(IntegerKind)
    else if j == Str("number") then Some(NumberKind)
    else if j == Str("boolean") then Some(BooleanKind)
    else if j == Str("null") then Some(NullKind)
    else None
  }

  function AsKinds(js: seq<Json>): Option<seq<Kind>> {
    if js == [] then Some([])
    else
      match (AsKind(js[0]), AsKinds(js[1..]))
      case (Some(k), Some(ks)) => Some([k] + ks)
      case _ => None
  }

  function AsType(j: Option<Json>): Option<Option<seq<Kind>>> {
    match j
    case None => Some(None)
    case Some(Null) => Some(None)
    case Some(value) =>
      match AsKinds(if value.Arr? then value.items else [value])
      case None => None
      case Some(kinds) => Some(Some(kinds))
  }

  function AsTexts(js: seq<Json>): Option<seq<string>> {
    if js == [] then Some([])
    else
      match (js[0], AsTexts(js[1..]))
      case (Str(text), Some(texts)) => Some([text] + texts)
      case _ => None
  }

  function AsAdditional(j: Option<Json>): Additional {
    match j
    case Some(Bool(false)) => Nothing
    case Some(Obj(fields)) => Only(Obj(fields))
    case _ => Anything
  }

  /** The keywords of the empty schema. */
  const BARE := Keywords(None, [], None, None, None, Obj([]), Obj([]), None, None, None, [], [], Anything, None,
                         Bounds(0.0, None), None, false, Bounds(0.0, None), Bounds(0.0, None), None, false, None, None)

  /** `true` is the empty schema; `false` admits no value. */
  function ReadBoolean(truth: bool): Keywords {
    if truth then BARE else BARE.(choices := Some([]))
  }

  /** `schema.get` for each keyword; none if a keyword has a value that cannot be used. */
  function Read(rules: Rules, schema: Json): Option<Keywords> {
    if schema.Bool? && rules.Standard? then Some(ReadBoolean(schema.truth))
    else if !schema.Obj? then None
    else
      var f := schema.fields;
      var allOf, anyOf, oneOf, choices := AsList(Get(f, "allOf")), AsList(Get(f, "anyOf")), AsList(Get(f, "oneOf")), AsList(Get(f, "enum"));
      var whenTrue, whenFalse, kinds := AsBranch(rules, Get(f, "then")), AsBranch(rules, Get(f, "else")), AsType(Get(f, "type"));
      var requiredList, properties := AsList(Get(f, "required")), AsProperties(Get(f, "properties"));
      var fields := AsBounds(rules, Get(f, "minProperties"), Get(f, "maxProperties"));
      var length := AsBounds(rules, Get(f, "minItems"), Get(f, "maxItems"));
      var size := AsBounds(rules, Get(f, "minLength"), Get(f, "maxLength"));
      var format := AsText(Get(f, "format"));
      if allOf.None? || anyOf.None? || oneOf.None? || choices.None? || whenTrue.None? || whenFalse.None? || kinds.None?
         || requiredList.None? || properties.None? || fields.None? || length.None? || size.None? then None
      else if rules.Python? && format.Some? && format.value != "date-time" then None
      else
        match AsTexts(if requiredList.value.Some? then requiredList.value.value else [])
        case None => None
        case Some(required) => Some(Keywords(
            AsReference(rules, Get(f, "$ref")), if allOf.value.Some? then allOf.value.value else [], anyOf.value, oneOf.value,
            AsSchema(rules, Get(f, "if")), whenTrue.value, whenFalse.value, kinds.value, Get(f, "const"), choices.value, required,
            properties.value, AsAdditional(Get(f, "additionalProperties")), AsSchema(rules, Get(f, "propertyNames")), fields.value,
            AsSchema(rules, Get(f, "items")), Get(f, "uniqueItems") == Some(Bool(true)), length.value, size.value,
            AsText(Get(f, "pattern")), format == Some("date-time"), AsNumber(Get(f, "minimum")), AsNumber(Get(f, "maximum"))))
  }

  // ---------------------------------------------------------------- what the keywords mean

  /** A schema document: whose notions apply, the two text tests the evaluator borrows from Python, the
      schemas in use, and a rank that falls from every schema to those it applies to the same value. */
  datatype Document = Document(root: Json, rules: Rules,
                               search: (string, string) -> bool, dateTime: string -> bool, good: Json -> bool, rank: Json -> nat)

  /** `t` is applied to the same value as `s`. */
  predicate InPlace(d: Document, s: Json, t: Json) {
    && Read(d.rules, s).Some?
    && var k := Read(d.rules, s).value;
    || (k.reference.Some? && Resolve(d.root, k.reference.value) == Some(t))
    || t in k.allOf || (k.anyOf.Some? && t in k.anyOf.value) || (k.oneOf.Some? && t in k.oneOf.value)
    || (k.condition.Some? && (t == k.condition.value || t == k.whenTrue || t == k.whenFalse))
  }

  /** `t` is applied to a member, an element or a name of the value. */
  predicate Below(d: Document, s: Json, t: Json) {
    && Read(d.rules, s).Some?
    && var k := Read(d.rules, s).value;
    || (exists i :: 0 <= i < |k.properties| && k.properties[i].value == t)
    || k.additional == Only(t) || k.names == Some(t) || k.items == Some(t)
  }

  /** Schemas in use apply only schemas in use. */
  ghost predicate Closed(d: Document) {
    && (forall s, t {:trigger InPlace(d, s, t)} :: d.good(s) && InPlace(d, s, t) ==> d.good(t))
    && (forall s, t {:trigger Below(d, s, t)} :: d.good(s) && Below(d, s, t) ==> d.good(t))
  }

  /** Schemas applied to the same value are acyclic. */
  ghost predicate Acyclic(d: Document) {
    Closed(d) && forall s, t {:trigger InPlace(d, s, t)} :: d.good(s) && InPlace(d, s, t) ==> d.rank(t) < d.rank(s)
  }

  predicate Leads(d: Document, k: Keywords) {
    k.reference.Some? ==> Resolve(d.root, k.reference.value).Some?
  }

  /** The schema is readable and its reference leads somewhere. */
  predicate Readable(d: Document, s: Json) {
    Read(d.rules, s).Some? && Leads(d, Read(d.rules, s).value)
  }

  ghost predicate Proper(d: Document) {
    forall s {:trigger Readable(d, s)} :: d.good(s) ==> Readable(d, s)
  }

  /** `const` and `enum`. */
  predicate SameConstant(rules: Rules, a: Json, b: Json) {
    if rules.Python? then PythonEqual(a, b) else Equal(SameLeaf, a, b)
  }

  /** `uniqueItems`. */
  predicate SameItem(rules: Rules, a: Json, b: Json) {
    if rules.Python? then TextEqual(a, b) else Equal(SameLeaf, a, b)
  }

  /** Section 6.1.1 of JSON Schema Validation: any number with a zero fractional part is an integer. */
  predicate IsInteger(rules: Rules, v: Json) {
    v.Int? || (rules.Standard? && v.Float? && !Fractional(v))
  }

  predicate KindHolds(rules: Rules, v: Json, kind: Kind) {
    match kind
    case ObjectKind => v.Obj?
    case ArrayKind => v.Arr?
    case StringKind => v.Str?
    case IntegerKind => IsInteger(rules, v)
    case NumberKind => Number(v)
    case BooleanKind => v.Bool?
    case NullKind => v.Null?
  }

  type Validity = (Json, Json) -> bool

  ghost predicate ExactlyOne(W: Validity, ss: seq<Json>, v: Json) {
    exists i :: 0 <= i < |ss| && W(ss[i], v) && forall j :: 0 <= j < |ss| && j != i ==> !W(ss[j], v)
  }

  ghost predicate ApplicatorsHold(d: Document, W: Validity, k: Keywords, v: Json) {
    && (k.reference.Some? ==> Resolve(d.root, k.reference.value).Some? && W(Resolve(d.root, k.reference.value).value, v))
    && (forall i :: 0 <= i < |k.allOf| ==> W(k.allOf[i], v))
    && (k.anyOf.Some? ==> exists i :: 0 <= i < |k.anyOf.value| && W(k.anyOf.value[i], v))
    && (k.oneOf.Some? ==> ExactlyOne(W, k.oneOf.value, v))
    && (k.condition.Some? ==> W(Branch(k, W(k.condition.value, v)), v))
  }

  function Branch(k: Keywords, holds: bool): Json {
    if holds then k.whenTrue else k.whenFalse
  }

  predicate KindsHold(rules: Rules, k: Keywords, v: Json) {
    k.kinds.Some? ==> exists i :: 0 <= i < |k.kinds.value| && KindHolds(rules, v, k.kinds.value[i])
  }

  predicate ConstantsHold(rules: Rules, k: Keywords, v: Json) {
    && (k.constant.Some? ==> SameConstant(rules, v, k.constant.value))
    && (k.choices.Some? ==> exists i :: 0 <= i < |k.choices.value| && SameConstant(rules, v, k.choices.value[i]))
  }

  ghost predicate FieldHolds(W: Validity, k: Keywords, f: Field) {
    match Get(k.properties, f.key)
    case Some(schema) => W(schema, f.value)
    case None =>
      match k.additional
      case Anything => true
      case Nothing => false
      case Only(schema) => W(schema, f.value)
  }

  ghost predicate ObjectHolds(W: Validity, k: Keywords, fields: seq<Field>) {
    && (forall i :: 0 <= i < |k.required| ==> Get(fields, k.required[i]).Some?)
    && (forall i :: 0 <= i < |fields| ==> FieldHolds(W, k, fields[i]))
    && Within(|fields|, k.fields)
    && (k.names.Some? ==> forall i :: 0 <= i < |fields| ==> W(k.names.value, Str(fields[i].key)))
  }

  predicate Distinct(rules: Rules, items: seq<Json>) {
    forall i, j :: 0 <= i < j < |items| ==> !SameItem(rules, items[i], items[j])
  }

  ghost predicate ArrayHolds(rules: Rules, W: Validity, k: Keywords, items: seq<Json>) {
    && Within(|items|, k.length)
    && (k.unique ==> Distinct(rules, items))
    && (k.items.Some? ==> forall i :: 0 <= i < |items| ==> W(k.items.value, items[i]))
  }

  predicate TextHolds(d: Document, k: Keywords, text: string) {
    && Within(|text|, k.size)
    && (k.pattern.Some? ==> d.search(k.pattern.value, text))
    && (k.format ==> d.dateTime(text))
  }

  predicate NumberHolds(k: Keywords, n: real) {
    (k.minimum.Some? ==> k.minimum.value <= n) && (k.maximum.Some? ==> n <= k.maximum.value)
  }

  /** A value satisfies a schema: every keyword holds, given what subschemas accept. */
  ghost predicate Satisfies(d: Document, W: Validity, s: Json, v: Json)
    requires Read(d.rules, s).Some?
  {
    var k := Read(d.rules, s).value;
    && ApplicatorsHold(d, W, k, v) && KindsHold(d.rules, k, v) && ConstantsHold(d.rules, k, v)
    && (v.Obj? ==> ObjectHolds(W, k, v.fields))
    && (v.Arr? ==> ArrayHolds(d.rules, W, k, v.items))
    && (v.Str? ==> TextHolds(d, k, v.text))
    && (Number(v) ==> NumberHolds(k, Amount(v)))
  }

  /** `W` is validity: it accepts exactly what satisfies the keywords, `W` itself judging subschemas. */
  ghost predicate IsValidity(d: Document, W: Validity) {
    forall s, v {:trigger Satisfies(d, W, s, v)} :: d.good(s) && Read(d.rules, s).Some? ==> (W(s, v) <==> Satisfies(d, W, s, v))
  }

  // ---------------------------------------------------------------- the evaluator

  datatype Step = Member(key: string) | Element(index: nat) | PropertyName

  datatype Keyword =
    | AnyOf | OneOf | Type | Const | Enum | Required | AdditionalProperties | MinProperties | MaxProperties
    | MinItems | MaxItems | UniqueItems | MinLength | MaxLength | Pattern | Format | Minimum | Maximum

  datatype Error = Error(location: seq<Step>, keyword: Keyword)

  /** The errors found, or none at all if the evaluation raised. */
  type Outcome = Option<seq<Error>>

  function When(condition: bool, location: seq<Step>, keyword: Keyword): seq<Error> {
    if condition then [Error(location, keyword)] else []
  }

  function Sequence(parts: seq<Outcome>): Outcome {
    if parts == [] then Some([])
    else
      match (parts[0], Sequence(parts[1..]))
      case (Some(a), Some(b)) => Some(a + b)
      case _ => None
  }

  lemma {:induction false} SequenceMeans(parts: seq<Outcome>)
    ensures Sequence(parts).Some? <==> forall i :: 0 <= i < |parts| ==> parts[i].Some?
    ensures Sequence(parts) == Some([]) <==> forall i :: 0 <= i < |parts| ==> parts[i] == Some([])
  {
    if parts != [] {
      SequenceMeans(parts[1..]);
      assert forall i :: 0 <= i < |parts[1..]| ==> parts[1..][i] == parts[i + 1];
      if forall i :: 0 <= i < |parts| ==> parts[i].Some? {
        assert forall i :: 0 <= i < |parts[1..]| ==> parts[1..][i].Some?;
      }
      if Sequence(parts).Some? {
        forall i | 0 <= i < |parts| ensures parts[i].Some? { if i > 0 { assert parts[i] == parts[1..][i - 1]; } }
      }
      if Sequence(parts) == Some([]) {
        forall i | 0 <= i < |parts| ensures parts[i] == Some([]) { if i > 0 { assert parts[i] == parts[1..][i - 1]; } }
      }
    }
  }

  function Passing(parts: seq<Outcome>): nat {
    if parts == [] then 0 else (if parts[0] == Some([]) then 1 else 0) + Passing(parts[1..])
  }

  function Level(v: Json): nat {
    if v.Str? then 0 else 1
  }

  function Evaluate(d: Document, s: Json, v: Json, at: seq<Step>): Outcome
    requires Acyclic(d) && d.good(s)
    decreases Level(v), v, d.rank(s), 1
  {
    match Read(d.rules, s)
    case None => None
    case Some(k) =>
      Sequence(Parts(d, s, k, v, at))
  }

  /** A value of the wrong type is not looked at any further. */
  function Parts(d: Document, s: Json, k: Keywords, v: Json, at: seq<Step>): seq<Outcome>
    requires Acyclic(d) && d.good(s) && Read(d.rules, s) == Some(k)
    decreases Level(v), v, d.rank(s), 0, 4
  {
    var applied := AppliedErrors(d, s, k, v, at);
    if !KindsHold(d.rules, k, v) then [applied, Some([Error(at, Type)])]
    else [applied, Some(ConstantErrors(d.rules, k, v, at)), ObjectErrors(d, s, k, v, at), ArrayErrors(d, s, k, v, at),
          Some(TextErrors(d, k, v, at) + NumberErrors(k, v, at))]
  }

  /** The keywords that apply other schemas to the same value. */
  function AppliedParts(d: Document, s: Json, k: Keywords, v: Json, at: seq<Step>): seq<Outcome>
    requires Acyclic(d) && d.good(s) && Read(d.rules, s) == Some(k)
    decreases Level(v), v, d.rank(s), 0, 1
  {
    [ReferenceErrors(d, s, k, v, at), AllOfErrors(d, s, k, v, at), AnyOfErrors(d, s, k, v, at),
     OneOfErrors(d, s, k, v, at), ConditionErrors(d, s, k, v, at)]
  }

  function AppliedErrors(d: Document, s: Json, k: Keywords, v: Json, at: seq<Step>): Outcome
    requires Acyclic(d) && d.good(s) && Read(d.rules, s) == Some(k)
    decreases Level(v), v, d.rank(s), 0, 2
  {
    Sequence(AppliedParts(d, s, k, v, at))
  }

  function EvaluateAll(d: Document, s: Json, ts: seq<Json>, v: Json, at: seq<Step>): seq<Outcome>
    requires Acyclic(d) && d.good(s) && forall i :: 0 <= i < |ts| ==> InPlace(d, s, ts[i])
    decreases Level(v), v, d.rank(s), 0, 0, 0
  {
    seq(|ts|, i requires 0 <= i < |ts| && InPlace(d, s, ts[i]) => Evaluate(d, ts[i], v, at))
  }

  function ReferenceErrors(d: Document, s: Json, k: Keywords, v: Json, at: seq<Step>): Outcome
    requires Acyclic(d) && d.good(s) && Read(d.rules, s) == Some(k)
    decreases Level(v), v, d.rank(s), 0, 0
  {
    if k.reference.None? then Some([])
    else
      match Resolve(d.root, k.reference.value)
      case None => None
      case Some(t) => assert InPlace(d, s, t); Evaluate(d, t, v, at)
  }

  function AllOfErrors(d: Document, s: Json, k: Keywords, v: Json, at: seq<Step>): Outcome
    requires Acyclic(d) && d.good(s) && Read(d.rules, s) == Some(k)
    decreases Level(v), v, d.rank(s), 0, 0
  {
    Sequence(EvaluateAll(d, s, k.allOf, v, at))
  }

  function AnyOfErrors(d: Document, s: Json, k: Keywords, v: Json, at: seq<Step>): Outcome
    requires Acyclic(d) && d.good(s) && Read(d.rules, s) == Some(k)
    decreases Level(v), v, d.rank(s), 0, 0
  {
    if k.anyOf.None? then Some([])
    else
      var outcomes := EvaluateAll(d, s, k.anyOf.value, v, at);
      if Sequence(outcomes).None? then None else Some(When(Some([]) !in outcomes, at, AnyOf))
  }

  function OneOfErrors(d: Document, s: Json, k: Keywords, v: Json, at: seq<Step>): Outcome
    requires Acyclic(d) && d.good(s) && Read(d.rules, s) == Some(k)
    decreases Level(v), v, d.rank(s), 0, 0
  {
    if k.oneOf.None? then Some([])
    else
      var outcomes := EvaluateAll(d, s, k.oneOf.value, v, at);
      if Sequence(outcomes).None? then None else Some(When(Passing(outcomes) != 1, at, OneOf))
  }

  function ConditionErrors(d: Document, s: Json, k: Keywords, v: Json, at: seq<Step>): Outcome
    requires Acyclic(d) && d.good(s) && Read(d.rules, s) == Some(k)
    decreases Level(v), v, d.rank(s), 0, 0
  {
    if k.condition.None? then Some([])
    else
      assert InPlace(d, s, k.condition.value) && InPlace(d, s, k.whenTrue) && InPlace(d, s, k.whenFalse);
      Select(Evaluate(d, k.condition.value, v, at), Evaluate(d, k.whenTrue, v, at), Evaluate(d, k.whenFalse, v, at))
  }

  /** The branch that the condition selects; the other one does not count. */
  function Select(condition: Outcome, yes: Outcome, no: Outcome): Outcome {
    if condition.None? then None else if condition.value == [] then yes else no
  }

  function ConstantErrors(rules: Rules, k: Keywords, v: Json, at: seq<Step>): seq<Error> {
    When(k.constant.Some? && !SameConstant(rules, v, k.constant.value), at, Const) +
    When(k.choices.Some? && !exists i :: 0 <= i < |k.choices.value| && SameConstant(rules, v, k.choices.value[i]), at, Enum)
  }

  function RequiredErrors(required: seq<string>, fields: seq<Field>, at: seq<Step>): seq<Error> {
    if required == [] then []
    else When(Get(fields, required[0]).None?, at, Required) + RequiredErrors(required[1..], fields, at)
  }

  function BoundErrors(n: int, b: Bounds, at: seq<Step>, low: Keyword, high: Keyword): seq<Error> {
    When(n as real < b.least, at, low) + When(b.most.Some? && n > b.most.value, at, high)
  }

  function FieldErrors(d: Document, s: Json, k: Keywords, v: Json, i: nat, at: seq<Step>): Outcome
    requires Acyclic(d) && d.good(s) && Read(d.rules, s) == Some(k) && v.Obj? && i < |v.fields|
    decreases Level(v), v, d.rank(s), 0, 0
  {
    var f := v.fields[i];
    match Get(k.properties, f.key)
    case Some(t) => PropertyBelow(d, s, k, f.key); Evaluate(d, t, f.value, at + [Member(f.key)])
    case None =>
      match k.additional
      case Anything => Some([])
      case Nothing => Some([Error(at, AdditionalProperties)])
      case Only(t) => assert Below(d, s, t); Evaluate(d, t, f.value, at + [Member(f.key)])
  }

  lemma PropertyBelow(d: Document, s: Json, k: Keywords, key: string)
    requires Read(d.rules, s) == Some(k) && Get(k.properties, key).Some?
    ensures Below(d, s, Get(k.properties, key).value)
  {
    GetMember(k.properties, key);
  }

  function NameErrors(d: Document, s: Json, k: Keywords, v: Json, i: nat, at: seq<Step>): Outcome
    requires Acyclic(d) && d.good(s) && Read(d.rules, s) == Some(k) && v.Obj? && i < |v.fields|
    decreases Level(v), v, d.rank(s), 0, 0
  {
    if k.names.None? then Some([])
    else assert Below(d, s, k.names.value); Evaluate(d, k.names.value, Str(v.fields[i].key), at + [PropertyName])
  }

  function FieldOutcomes(d: Document, s: Json, k: Keywords, v: Json, at: seq<Step>): seq<Outcome>
    requires Acyclic(d) && d.good(s) && Read(d.rules, s) == Some(k) && v.Obj?
    decreases Level(v), v, d.rank(s), 0, 1
  {
    seq(|v.fields|, i requires 0 <= i < |v.fields| => FieldErrors(d, s, k, v, i, at))
  }

  function NameOutcomes(d: Document, s: Json, k: Keywords, v: Json, at: seq<Step>): seq<Outcome>
    requires Acyclic(d) && d.good(s) && Read(d.rules, s) == Some(k) && v.Obj?
    decreases Level(v), v, d.rank(s), 0, 1
  {
    seq(|v.fields|, i requires 0 <= i < |v.fields| => NameErrors(d, s, k, v, i, at))
  }

  function ObjectParts(d: Document, s: Json, k: Keywords, v: Json, at: seq<Step>): seq<Outcome>
    requires Acyclic(d) && d.good(s) && Read(d.rules, s) == Some(k) && v.Obj?
    decreases Level(v), v, d.rank(s), 0, 2
  {
    [Some(RequiredErrors(k.required, v.fields, at)), Sequence(FieldOutcomes(d, s, k, v, at)),
     Some(BoundErrors(|v.fields|, k.fields, at, MinProperties, MaxProperties)), Sequence(NameOutcomes(d, s, k, v, at))]
  }

  function ObjectErrors(d: Document, s: Json, k: Keywords, v: Json, at: seq<Step>): Outcome
    requires Acyclic(d) && d.good(s) && Read(d.rules, s) == Some(k)
    decreases Level(v), v, d.rank(s), 0, 3
  {
    if v.Obj? then Sequence(ObjectParts(d, s, k, v, at)) else Some([])
  }

  function ItemErrors(d: Document, s: Json, k: Keywords, v: Json, i: nat, at: seq<Step>): Outcome
    requires Acyclic(d) && d.good(s) && Read(d.rules, s) == Some(k) && v.Arr? && i < |v.items|
    decreases Level(v), v, d.rank(s), 0, 0
  {
    if k.items.None? then Some([])
    else assert Below(d, s, k.items.value); Evaluate(d, k.items.value, v.items[i], at + [Element(i)])
  }

  function ItemOutcomes(d: Document, s: Json, k: Keywords, v: Json, at: seq<Step>): seq<Outcome>
    requires Acyclic(d) && d.good(s) && Read(d.rules, s) == Some(k) && v.Arr?
    decreases Level(v), v, d.rank(s), 0, 1
  {
    seq(|v.items|, i requires 0 <= i < |v.items| => ItemErrors(d, s, k, v, i, at))
  }

  function ArrayParts(d: Document, s: Json, k: Keywords, v: Json, at: seq<Step>): seq<Outcome>
    requires Acyclic(d) && d.good(s) && Read(d.rules, s) == Some(k) && v.Arr?
    decreases Level(v), v, d.rank(s), 0, 2
  {
    [Some(BoundErrors(|v.items|, k.length, at, MinItems, MaxItems)),
     Some(When(k.unique && !Distinct(d.rules, v.items), at, UniqueItems)), Sequence(ItemOutcomes(d, s, k, v, at))]
  }

  function ArrayErrors(d: Document, s: Json, k: Keywords, v: Json, at: seq<Step>): Outcome
    requires Acyclic(d) && d.good(s) && Read(d.rules, s) == Some(k)
    decreases Level(v), v, d.rank(s), 0, 3
  {
    if v.Arr? then Sequence(ArrayParts(d, s, k, v, at)) else Some([])
  }

  function TextErrors(d: Document, k: Keywords, v: Json, at: seq<Step>): seq<Error> {
    if !v.Str? then []
    else BoundErrors(|v.text|, k.size, at, MinLength, MaxLength) +
         When(k.pattern.Some? && !d.search(k.pattern.value, v.text), at, Pattern) +
         When(k.format && !d.dateTime(v.text), at, Format)
  }

  function NumberErrors(k: Keywords, v: Json, at: seq<Step>): seq<Error> {
    if !Number(v) then []
    else When(k.minimum.Some? && Amount(v) < k.minimum.value, at, Minimum) +
         When(k.maximum.Some? && Amount(v) > k.maximum.value, at, Maximum)
  }
}
