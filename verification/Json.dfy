/** JSON documents as Python reads them, the equalities the verifier compares them with, and
    references into them (section 4 of RFC 6901). */
module Json {
  import opened Options

  datatype Field = Field(key: string, value: Json)

  datatype Json =
    | Null
    | Bool(truth: bool)
    | Int(whole: int)
    | Float(number: real)
    | Str(text: string)
    | Arr(items: seq<Json>)
    | Obj(fields: seq<Field>)

  function Get(fields: seq<Field>, key: string): Option<Json> {
    if fields == [] then None
    else if fields[0].key == key then Some(fields[0].value)
    else Get(fields[1..], key)
  }

  lemma {:induction false} GetFinds(fields: seq<Field>, key: string, i: nat)
    requires i < |fields| && fields[i].key == key && forall j :: 0 <= j < i ==> fields[j].key != key
    ensures Get(fields, key) == Some(fields[i].value)
  {
    if i > 0 { GetFinds(fields[1..], key, i - 1); }
  }

  lemma {:induction false} GetMember(fields: seq<Field>, key: string)
    requires Get(fields, key).Some?
    ensures exists i :: 0 <= i < |fields| && fields[i].key == key && fields[i].value == Get(fields, key).value
  {
    if fields[0].key != key {
      GetMember(fields[1..], key);
      var i :| 0 <= i < |fields[1..]| && fields[1..][i].key == key && fields[1..][i].value == Get(fields[1..], key).value;
      assert fields[i + 1].key == key;
    } else {
      assert fields[0].value == Get(fields, key).value;
    }
  }

  predicate DistinctKeys(fields: seq<Field>) {
    forall i, j :: 0 <= i < j < |fields| ==> fields[i].key != fields[j].key
  }

  /** A document without repeated members, the only kind the strict reader returns. */
  predicate Keyed(j: Json) {
    match j
    case Arr(items) => forall i :: 0 <= i < |items| ==> Keyed(items[i])
    case Obj(fields) => DistinctKeys(fields) && forall i :: 0 <= i < |fields| ==> Keyed(fields[i].value)
    case _ => true
  }

  // ---------------------------------------------------------------- equality

  predicate Leaf(j: Json) {
    !j.Arr? && !j.Obj?
  }

  /** Equality of documents, given equality of their leaves. */
  predicate Equal(leaf: (Json, Json) -> bool, a: Json, b: Json)
    decreases a
  {
    if a.Arr? && b.Arr? then
      |a.items| == |b.items| && forall i :: 0 <= i < |a.items| ==> Equal(leaf, a.items[i], b.items[i])
    else if a.Obj? && b.Obj? then
      |a.fields| == |b.fields| && forall i :: 0 <= i < |a.fields| ==>
        var other := Get(b.fields, a.fields[i].key);
        other.Some? && Equal(leaf, a.fields[i].value, other.value)
    else Leaf(a) && Leaf(b) && leaf(a, b)
  }

  predicate Number(j: Json) {
    j.Int? || j.Float?
  }

  function Amount(j: Json): real {
    match j
    case Int(i) => i as real
    case Float(r) => r
    case Bool(true) => 1.0
    case _ => 0.0
  }

  /** Section 4.2.2 of JSON Schema Core: numbers by value, everything else by kind. */
  predicate SameLeaf(a: Json, b: Json) {
    if Number(a) && Number(b) then Amount(a) == Amount(b) else a == b
  }

  /** Python's `==`: a boolean is also the number 0 or 1. */
  predicate PythonLeaf(a: Json, b: Json) {
    if (Number(a) || a.Bool?) && (Number(b) || b.Bool?) then Amount(a) == Amount(b) else a == b
  }

  predicate PythonEqual(a: Json, b: Json) { Equal(PythonLeaf, a, b) }

  /** Equality of canonical texts: an integer and a float never have the same text. */
  predicate TextEqual(a: Json, b: Json) { Equal(SameText, a, b) }

  predicate EveryLeaf(p: Json -> bool, j: Json)
    decreases j
  {
    match j
    case Arr(items) => forall i :: 0 <= i < |items| ==> EveryLeaf(p, items[i])
    case Obj(fields) => forall i :: 0 <= i < |fields| ==> EveryLeaf(p, fields[i].value)
    case _ => p(j)
  }

  function MapLeaves(f: Json -> Json, j: Json): Json
    decreases j
  {
    match j
    case Arr(items) => Arr(seq(|items|, i requires 0 <= i < |items| => MapLeaves(f, items[i])))
    case Obj(fields) =>
      Obj(seq(|fields|, i requires 0 <= i < |fields| => Field(fields[i].key, MapLeaves(f, fields[i].value))))
    case _ => f(j)
  }

  /** `fine` implies `coarse` on leaves; on leaves that satisfy `clear` they agree; `other` turns a leaf
      into one that `coarse` cannot tell from it, and `fine` can unless the leaf is clear. */
  ghost predicate Compares(fine: (Json, Json) -> bool, coarse: (Json, Json) -> bool, clear: Json -> bool, other: Json -> Json) {
    && (forall x, y :: Leaf(x) && Leaf(y) && fine(x, y) ==> coarse(x, y))
    && (forall x, y :: Leaf(x) && Leaf(y) && clear(y) && coarse(x, y) ==> fine(x, y))
    && (forall x :: Leaf(x) ==> Leaf(other(x)) && coarse(other(x), x) && (fine(other(x), x) ==> clear(x)))
  }

  lemma {:induction false} Coarser(fine: (Json, Json) -> bool, coarse: (Json, Json) -> bool, clear: Json -> bool, other: Json -> Json,
                                   a: Json, b: Json)
    requires Compares(fine, coarse, clear, other) && Equal(fine, a, b)
    ensures Equal(coarse, a, b)
    decreases a
  {
    if a.Arr? {
      forall i | 0 <= i < |a.items| ensures Equal(coarse, a.items[i], b.items[i]) {
        Coarser(fine, coarse, clear, other, a.items[i], b.items[i]);
      }
    } else if a.Obj? {
      forall i | 0 <= i < |a.fields| ensures Equal(coarse, a.fields[i].value, Get(b.fields, a.fields[i].key).value) {
        Coarser(fine, coarse, clear, other, a.fields[i].value, Get(b.fields, a.fields[i].key).value);
      }
    }
  }

  lemma {:induction false} ClearAgrees(fine: (Json, Json) -> bool, coarse: (Json, Json) -> bool, clear: Json -> bool, other: Json -> Json,
                                       v: Json, k: Json)
    requires Compares(fine, coarse, clear, other) && EveryLeaf(clear, k) && Equal(coarse, v, k)
    ensures Equal(fine, v, k)
    decreases v
  {
    if v.Arr? {
      forall i | 0 <= i < |v.items| ensures Equal(fine, v.items[i], k.items[i]) {
        ClearAgrees(fine, coarse, clear, other, v.items[i], k.items[i]);
      }
    } else if v.Obj? {
      forall i | 0 <= i < |v.fields| ensures Equal(fine, v.fields[i].value, Get(k.fields, v.fields[i].key).value) {
        GetMember(k.fields, v.fields[i].key);
        ClearAgrees(fine, coarse, clear, other, v.fields[i].value, Get(k.fields, v.fields[i].key).value);
      }
    }
  }

  lemma {:induction false} OtherEqual(fine: (Json, Json) -> bool, coarse: (Json, Json) -> bool, clear: Json -> bool, other: Json -> Json,
                                      j: Json)
    requires Compares(fine, coarse, clear, other) && Keyed(j)
    ensures Equal(coarse, MapLeaves(other, j), j)
    ensures Equal(fine, MapLeaves(other, j), j) ==> EveryLeaf(clear, j)
    decreases j
  {
    var t := MapLeaves(other, j);
    if j.Arr? {
      forall i | 0 <= i < |j.items|
        ensures Equal(coarse, t.items[i], j.items[i]) && (Equal(fine, t.items[i], j.items[i]) ==> EveryLeaf(clear, j.items[i]))
      {
        OtherEqual(fine, coarse, clear, other, j.items[i]);
      }
    } else if j.Obj? {
      forall i | 0 <= i < |j.fields|
        ensures t.fields[i].key == j.fields[i].key && Get(j.fields, j.fields[i].key) == Some(j.fields[i].value)
        ensures Equal(coarse, t.fields[i].value, j.fields[i].value)
        ensures Equal(fine, t.fields[i].value, j.fields[i].value) ==> EveryLeaf(clear, j.fields[i].value)
      {
        GetFinds(j.fields, j.fields[i].key, i);
        OtherEqual(fine, coarse, clear, other, j.fields[i].value);
      }
    }
  }

  /** Two equalities give the same verdict on every value compared with `k`. */
  ghost predicate SameVerdicts(coarse: (Json, Json) -> bool, fine: (Json, Json) -> bool, k: Json) {
    forall v :: Equal(coarse, v, k) <==> Equal(fine, v, k)
  }

  lemma ClearSuffices(fine: (Json, Json) -> bool, coarse: (Json, Json) -> bool, clear: Json -> bool, other: Json -> Json, k: Json)
    requires Compares(fine, coarse, clear, other) && EveryLeaf(clear, k)
    ensures SameVerdicts(coarse, fine, k)
  {
    forall v ensures Equal(coarse, v, k) <==> Equal(fine, v, k) {
      if Equal(fine, v, k) { Coarser(fine, coarse, clear, other, v, k); }
      if Equal(coarse, v, k) { ClearAgrees(fine, coarse, clear, other, v, k); }
    }
  }

  lemma ClearNeeded(fine: (Json, Json) -> bool, coarse: (Json, Json) -> bool, clear: Json -> bool, other: Json -> Json, k: Json)
    requires Compares(fine, coarse, clear, other) && Keyed(k) && SameVerdicts(coarse, fine, k)
    ensures EveryLeaf(clear, k)
  {
    OtherEqual(fine, coarse, clear, other, k);
  }

  /** Neither a boolean nor a number equal to one. */
  predicate Unambiguous(j: Json) {
    !j.Bool? && (Number(j) ==> Amount(j) != 0.0 && Amount(j) != 1.0)
  }

  function Toggled(j: Json): Json {
    if j.Bool? then Int(if j.truth then 1 else 0)
    else if !Unambiguous(j) then Bool(Amount(j) == 1.0)
    else j
  }

  /** `const` and `enum` compare with Python's equality. It is JSON Schema's for every value exactly when
      the constant holds no boolean and no number equal to 0 or 1. */
  lemma ConstantsExact(k: Json)
    requires Keyed(k)
    ensures EveryLeaf(Unambiguous, k) <==> SameVerdicts(PythonLeaf, SameLeaf, k)
  {
    assert Compares(SameLeaf, PythonLeaf, Unambiguous, Toggled);
    if EveryLeaf(Unambiguous, k) { ClearSuffices(SameLeaf, PythonLeaf, Unambiguous, Toggled, k); }
    if SameVerdicts(PythonLeaf, SameLeaf, k) { ClearNeeded(SameLeaf, PythonLeaf, Unambiguous, Toggled, k); }
  }

  /** In Python, true is 1; in JSON it is not. */
  lemma TrueIsOne()
    ensures PythonEqual(Bool(true), Int(1)) && !Equal(SameLeaf, Bool(true), Int(1))
  {}

  predicate SameText(a: Json, b: Json) { a == b }

  /** Not a number with an integral value. */
  predicate Fractional(j: Json) {
    Number(j) ==> Amount(j) != Amount(j).Floor as real
  }

  function Respelled(j: Json): Json {
    if Fractional(j) || !Number(j) then j else if j.Int? then Float(j.whole as real) else Int(j.number.Floor)
  }

  /** `uniqueItems` compares canonical texts, in which 1 and 1.0 differ. That is JSON Schema's equality
      against every element exactly when the element holds no integral number. */
  lemma UniqueExact(k: Json)
    requires Keyed(k)
    ensures EveryLeaf(Fractional, k) <==> SameVerdicts(SameLeaf, SameText, k)
  {
    assert Compares(SameText, SameLeaf, Fractional, Respelled);
    if EveryLeaf(Fractional, k) { ClearSuffices(SameText, SameLeaf, Fractional, Respelled, k); }
    if SameVerdicts(SameLeaf, SameText, k) { ClearNeeded(SameText, SameLeaf, Fractional, Respelled, k); }
  }

  /** A boolean and the number it equals in Python. */
  predicate Confused(a: Json, b: Json) {
    ((a.Bool? && Number(b)) || (Number(a) && b.Bool?)) && Amount(a) == Amount(b)
  }

  /** At no common place does one document hold a boolean and the other the number it equals. */
  predicate Unconfused(a: Json, b: Json)
    decreases a
  {
    if a.Arr? && b.Arr? then forall i :: 0 <= i < |a.items| && i < |b.items| ==> Unconfused(a.items[i], b.items[i])
    else if a.Obj? && b.Obj? then
      forall i :: 0 <= i < |a.fields| ==>
        var other := Get(b.fields, a.fields[i].key);
        other.Some? ==> Unconfused(a.fields[i].value, other.value)
    else !Confused(a, b)
  }

  /** JSON Schema's equality is Python's without confusion. */
  lemma {:induction false} ConfusionExact(a: Json, b: Json)
    ensures Equal(SameLeaf, a, b) <==> PythonEqual(a, b) && Unconfused(a, b)
    decreases a
  {
    if a.Arr? && b.Arr? && |a.items| == |b.items| {
      forall i | 0 <= i < |a.items|
        ensures Equal(SameLeaf, a.items[i], b.items[i]) <==> PythonEqual(a.items[i], b.items[i]) && Unconfused(a.items[i], b.items[i])
      {
        ConfusionExact(a.items[i], b.items[i]);
      }
    } else if a.Obj? && b.Obj? {
      forall i | 0 <= i < |a.fields| && Get(b.fields, a.fields[i].key).Some?
        ensures var x, y := a.fields[i].value, Get(b.fields, a.fields[i].key).value;
                Equal(SameLeaf, x, y) <==> PythonEqual(x, y) && Unconfused(x, y)
      {
        ConfusionExact(a.fields[i].value, Get(b.fields, a.fields[i].key).value);
      }
    }
  }

  /** Not an integer spelled as a float. */
  predicate Spelled(j: Json) {
    j.Float? ==> Fractional(j)
  }

  /** Without integers spelled as floats, equal values have equal texts. */
  lemma {:induction false} SpelledExact(a: Json, b: Json)
    requires EveryLeaf(Spelled, a) && EveryLeaf(Spelled, b)
    ensures Equal(SameLeaf, a, b) <==> TextEqual(a, b)
    decreases a
  {
    if a.Arr? && b.Arr? && |a.items| == |b.items| {
      forall i | 0 <= i < |a.items| ensures Equal(SameLeaf, a.items[i], b.items[i]) <==> TextEqual(a.items[i], b.items[i]) {
        SpelledExact(a.items[i], b.items[i]);
      }
    } else if a.Obj? && b.Obj? {
      forall i | 0 <= i < |a.fields| && Get(b.fields, a.fields[i].key).Some?
        ensures var x, y := a.fields[i].value, Get(b.fields, a.fields[i].key).value; Equal(SameLeaf, x, y) <==> TextEqual(x, y)
      {
        GetMember(b.fields, a.fields[i].key);
        SpelledExact(a.fields[i].value, Get(b.fields, a.fields[i].key).value);
      }
    }
  }

  /** In JSON, 1 is 1.0; their texts differ. */
  lemma OneIsOnePointZero()
    ensures Equal(SameLeaf, Int(1), Float(1.0)) && !TextEqual(Int(1), Float(1.0))
  {}

  // ---------------------------------------------------------------- references

  function SplitAt(s: string): (parts: seq<string>)
    ensures |parts| >= 1
  {
    if s == [] then [[]]
    else
      var rest := SplitAt(s[1..]);
      if s[0] == '/' then [[]] + rest else [[s[0]] + rest[0]] + rest[1..]
  }

  /** `str.replace` of the two characters `a`, `b` by `r`. */
  function Replace(s: string, a: char, b: char, r: char): string {
    if |s| >= 2 && s[0] == a && s[1] == b then [r] + Replace(s[2..], a, b, r)
    else if s == [] then []
    else [s[0]] + Replace(s[1..], a, b, r)
  }

  function Decode(s: string): string {
    Replace(Replace(s, '~', '1', '/'), '~', '0', '~')
  }

  function Walk(j: Json, keys: seq<string>): Option<Json>
    decreases |keys|
  {
    if keys == [] then Some(j)
    else if !j.Obj? then None
    else
      match Get(j.fields, keys[0])
      case None => None
      case Some(next) => Walk(next, keys[1..])
  }

  /** `schema_pointer`: the object a local reference names. */
  function Resolve(root: Json, reference: string): Option<Json> {
    if |reference| < 2 || reference[0] != '#' || reference[1] != '/' then None
    else
      var parts := SplitAt(reference[2..]);
      match Walk(root, seq(|parts|, i requires 0 <= i < |parts| => Decode(parts[i])))
      case None => None
      case Some(found) => if found.Obj? then Some(found) else None
  }

  /** Section 3 of RFC 6901. */
  function Escape(key: string): (s: string)
    ensures forall i :: 0 <= i < |s| ==> s[i] != '/'
  {
    if key == [] then []
    else (if key[0] == '~' then ['~', '0'] else if key[0] == '/' then ['~', '1'] else [key[0]]) + Escape(key[1..])
  }

  function HalfEscape(key: string): string {
    if key == [] then []
    else (if key[0] == '~' then ['~', '0'] else [key[0]]) + HalfEscape(key[1..])
  }

  lemma {:induction false} FirstReplace(key: string)
    ensures Replace(Escape(key), '~', '1', '/') == HalfEscape(key)
  {
    if key != [] {
      FirstReplace(key[1..]);
      var s, rest := Escape(key), Escape(key[1..]);
      if key[0] == '~' {
        assert s[1..] == ['0'] + rest && s[1..][1..] == rest;
        assert Replace(s[1..], '~', '1', '/') == ['0'] + Replace(rest, '~', '1', '/');
      } else if key[0] == '/' {
        assert s[2..] == rest;
      } else {
        assert s[1..] == rest;
      }
    }
  }

  lemma {:induction false} SecondReplace(key: string)
    ensures Replace(HalfEscape(key), '~', '0', '~') == key
  {
    if key != [] {
      SecondReplace(key[1..]);
      var s, rest := HalfEscape(key), HalfEscape(key[1..]);
      if key[0] == '~' { assert s[2..] == rest; } else { assert s[1..] == rest; }
      assert key == [key[0]] + key[1..];
    }
  }

  lemma DecodeEscape(key: string)
    ensures Decode(Escape(key)) == key
  {
    FirstReplace(key);
    SecondReplace(key);
  }

  function Joined(keys: seq<string>): string
    requires |keys| >= 1
  {
    if |keys| == 1 then Escape(keys[0]) else Escape(keys[0]) + ['/'] + Joined(keys[1..])
  }

  lemma {:induction false} SplitPlain(s: string)
    requires forall i :: 0 <= i < |s| ==> s[i] != '/'
    ensures SplitAt(s) == [s]
  {
    if s != [] {
      SplitPlain(s[1..]);
      assert [s[0]] + s[1..] == s;
    }
  }

  lemma {:induction false} SplitFirst(s: string, rest: string)
    requires forall i :: 0 <= i < |s| ==> s[i] != '/'
    ensures SplitAt(s + ['/'] + rest) == [s] + SplitAt(rest)
  {
    var whole := s + ['/'] + rest;
    if s == [] {
      assert whole[1..] == rest;
    } else {
      assert whole[1..] == s[1..] + ['/'] + rest;
      SplitFirst(s[1..], rest);
      assert [s[0]] + s[1..] == s;
    }
  }

  lemma {:induction false} SplitJoined(keys: seq<string>)
    requires |keys| >= 1
    ensures |SplitAt(Joined(keys))| == |keys|
    ensures forall i :: 0 <= i < |keys| ==> Decode(SplitAt(Joined(keys))[i]) == keys[i]
  {
    DecodeEscape(keys[0]);
    if |keys| == 1 {
      SplitPlain(Escape(keys[0]));
    } else {
      SplitJoined(keys[1..]);
      SplitFirst(Escape(keys[0]), Joined(keys[1..]));
    }
  }

  /** Every member path has a reference, and it resolves to what the path leads to. */
  lemma ReferenceRoundTrip(root: Json, keys: seq<string>)
    requires |keys| >= 1
    ensures Resolve(root, ['#', '/'] + Joined(keys)) ==
            match Walk(root, keys) case None => None case Some(found) => if found.Obj? then Some(found) else None
  {
    SplitJoined(keys);
    var reference := ['#', '/'] + Joined(keys);
    assert reference[2..] == Joined(keys);
    var parts := SplitAt(reference[2..]);
    assert seq(|parts|, i requires 0 <= i < |parts| => Decode(parts[i])) == keys;
  }
}
