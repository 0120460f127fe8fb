/** The evaluator against the meaning of the keywords, and against itself at another location. */
module SchemaSound {
  import opened Options
  import opened Json
  import opened Schema

  // ---------------------------------------------------------------- small facts

  /** An outcome that ended agrees with a verdict. */
  ghost predicate Agrees(r: Outcome, verdict: bool) {
    r.Some? ==> (r == Some([]) <==> verdict)
  }

  /** `W` is what the evaluator computes, at every location. */
  ghost predicate Tracks(d: Document, W: Validity)
    requires Acyclic(d)
  {
    forall s, v, at :: d.good(s) ==> Agrees(Evaluate(d, s, v, at), W(s, v))
  }

  ghost predicate Fits(d: Document, W: Validity)
    requires Acyclic(d)
  {
    IsValidity(d, W) || Tracks(d, W)
  }

  lemma {:induction false} RequiredMeans(required: seq<string>, fields: seq<Field>, at: seq<Step>)
    ensures RequiredErrors(required, fields, at) == [] <==> forall i :: 0 <= i < |required| ==> Get(fields, required[i]).Some?
  {
    if required != [] {
      RequiredMeans(required[1..], fields, at);
      assert forall i :: 0 <= i < |required[1..]| ==> required[1..][i] == required[i + 1];
      if Get(fields, required[0]).Some? && RequiredErrors(required[1..], fields, at) == [] {
        forall i | 0 <= i < |required| ensures Get(fields, required[i]).Some? { if i > 0 { assert required[i] == required[1..][i - 1]; } }
      }
    }
  }

  lemma {:induction false} PassingNone(parts: seq<Outcome>)
    ensures Passing(parts) == 0 <==> forall i :: 0 <= i < |parts| ==> parts[i] != Some([])
  {
    if parts != [] {
      PassingNone(parts[1..]);
      assert forall i :: 0 <= i < |parts[1..]| ==> parts[1..][i] == parts[i + 1];
      if Passing(parts) == 0 {
        forall i | 0 <= i < |parts| ensures parts[i] != Some([]) { if i > 0 { assert parts[i] == parts[1..][i - 1]; } }
      }
    }
  }

  ghost predicate OnlyPass(parts: seq<Outcome>, i: nat) {
    i < |parts| && parts[i] == Some([]) && forall j :: 0 <= j < |parts| && j != i ==> parts[j] != Some([])
  }

  /** Counting one pass is finding the only one. */
  lemma {:induction false} PassingOne(parts: seq<Outcome>)
    ensures Passing(parts) == 1 <==> exists i :: OnlyPass(parts, i)
  {
    if parts != [] {
      var rest := parts[1..];
      assert forall i :: 0 <= i < |rest| ==> rest[i] == parts[i + 1];
      PassingOne(rest);
      PassingNone(rest);
      if parts[0] == Some([]) {
        if Passing(parts) == 1 {
          forall j | 0 <= j < |parts| && j != 0 ensures parts[j] != Some([]) { assert parts[j] == rest[j - 1]; }
          assert OnlyPass(parts, 0);
        }
        if i: nat :| OnlyPass(parts, i) { assert i == 0; }
      } else {
        if i: nat :| OnlyPass(rest, i) {
          forall j | 0 <= j < |parts| && j != i + 1 ensures parts[j] != Some([]) { if j > 0 { assert parts[j] == rest[j - 1]; } }
          assert OnlyPass(parts, i + 1);
        }
        if i: nat :| OnlyPass(parts, i) { assert OnlyPass(rest, i - 1); }
      }
    }
  }

  lemma Pointwise(parts: seq<Outcome>, verdicts: seq<bool>)
    requires |parts| == |verdicts|
    ensures (forall i :: 0 <= i < |parts| ==> parts[i].Some?) ==> Sequence(parts).Some?
    ensures (forall i :: 0 <= i < |parts| ==> Agrees(parts[i], verdicts[i])) ==>
              Agrees(Sequence(parts), forall i :: 0 <= i < |verdicts| ==> verdicts[i])
  {
    SequenceMeans(parts);
    if Sequence(parts).Some? && forall i :: 0 <= i < |parts| ==> Agrees(parts[i], verdicts[i]) {
      if forall i :: 0 <= i < |verdicts| ==> verdicts[i] {
        forall i | 0 <= i < |parts| ensures parts[i] == Some([]) { assert verdicts[i]; }
      }
      if Sequence(parts) == Some([]) {
        forall i | 0 <= i < |verdicts| ensures verdicts[i] { assert parts[i] == Some([]); }
      }
    }
  }

  lemma Two(a: Outcome, b: Outcome)
    ensures Sequence([a, b]).Some? <==> a.Some? && b.Some?
    ensures Sequence([a, b]) == Some([]) <==> a == Some([]) && b == Some([])
  {
    var parts := [a, b];
    SequenceMeans(parts);
    assert parts[0] == a && parts[1] == b;
  }

  lemma Three(a: Outcome, b: Outcome, c: Outcome)
    ensures Sequence([a, b, c]).Some? <==> a.Some? && b.Some? && c.Some?
    ensures Sequence([a, b, c]) == Some([]) <==> a == Some([]) && b == Some([]) && c == Some([])
  {
    var parts := [a, b, c];
    SequenceMeans(parts);
    assert parts[0] == a && parts[1] == b && parts[2] == c;
  }

  lemma Four(a: Outcome, b: Outcome, c: Outcome, d: Outcome)
    ensures Sequence([a, b, c, d]).Some? <==> a.Some? && b.Some? && c.Some? && d.Some?
    ensures Sequence([a, b, c, d]) == Some([]) <==> a == Some([]) && b == Some([]) && c == Some([]) && d == Some([])
  {
    var parts := [a, b, c, d];
    SequenceMeans(parts);
    assert parts[0] == a && parts[1] == b && parts[2] == c && parts[3] == d;
  }

  lemma Five(a: Outcome, b: Outcome, c: Outcome, d: Outcome, e: Outcome)
    ensures Sequence([a, b, c, d, e]).Some? <==> a.Some? && b.Some? && c.Some? && d.Some? && e.Some?
    ensures Sequence([a, b, c, d, e]) == Some([]) <==>
              a == Some([]) && b == Some([]) && c == Some([]) && d == Some([]) && e == Some([])
  {
    var parts := [a, b, c, d, e];
    SequenceMeans(parts);
    assert parts[0] == a && parts[1] == b && parts[2] == c && parts[3] == d && parts[4] == e;
  }

  // ---------------------------------------------------------------- keyword by keyword

  ghost predicate NoneRaises(outcomes: seq<Outcome>) {
    forall i :: 0 <= i < |outcomes| ==> outcomes[i].Some?
  }

  ghost predicate AllAgree(W: Validity, ts: seq<Json>, v: Json, outcomes: seq<Outcome>) {
    |outcomes| == |ts| && forall i :: 0 <= i < |ts| ==> Agrees(outcomes[i], W(ts[i], v))
  }

  lemma AllSound(d: Document, W: Validity, s: Json, ts: seq<Json>, v: Json, at: seq<Step>)
    requires Acyclic(d) && d.good(s) && forall i :: 0 <= i < |ts| ==> InPlace(d, s, ts[i])
    ensures var r := EvaluateAll(d, s, ts, v, at); (Proper(d) ==> NoneRaises(r)) && (Fits(d, W) ==> AllAgree(W, ts, v, r))
    decreases Level(v), v, d.rank(s), 0, 0
  {
    forall i | 0 <= i < |ts|
      ensures Proper(d) ==> EvaluateAll(d, s, ts, v, at)[i].Some?
      ensures Fits(d, W) ==> Agrees(EvaluateAll(d, s, ts, v, at)[i], W(ts[i], v))
    {
      assert InPlace(d, s, ts[i]);
      Sound(d, W, ts[i], v, at);
    }
  }

  lemma ReferenceSound(d: Document, W: Validity, s: Json, k: Keywords, v: Json, at: seq<Step>)
    requires Acyclic(d) && d.good(s) && Read(d.rules, s) == Some(k)
    ensures var r := ReferenceErrors(d, s, k, v, at);
            && (Proper(d) ==> r.Some?)
            && (Fits(d, W) ==> Agrees(r, k.reference.Some? ==>
                 Resolve(d.root, k.reference.value).Some? && W(Resolve(d.root, k.reference.value).value, v)))
    decreases Level(v), v, d.rank(s), 0
  {
    if k.reference.Some? && Resolve(d.root, k.reference.value).Some? {
      var t := Resolve(d.root, k.reference.value).value;
      assert InPlace(d, s, t);
      Sound(d, W, t, v, at);
    }
    if Proper(d) { assert Readable(d, s); }
  }

  lemma AllOfAgrees(W: Validity, ts: seq<Json>, v: Json, outcomes: seq<Outcome>)
    ensures NoneRaises(outcomes) ==> Sequence(outcomes).Some?
    ensures AllAgree(W, ts, v, outcomes) ==> Agrees(Sequence(outcomes), forall i :: 0 <= i < |ts| ==> W(ts[i], v))
  {
    SequenceMeans(outcomes);
  }

  lemma AllOfSound(d: Document, W: Validity, s: Json, k: Keywords, v: Json, at: seq<Step>)
    requires Acyclic(d) && d.good(s) && Read(d.rules, s) == Some(k)
    ensures var r := AllOfErrors(d, s, k, v, at);
            && (Proper(d) ==> r.Some?)
            && (Fits(d, W) ==> Agrees(r, forall i :: 0 <= i < |k.allOf| ==> W(k.allOf[i], v)))
    decreases Level(v), v, d.rank(s), 0
  {
    var ts := k.allOf;
    AllSound(d, W, s, ts, v, at);
    AllOfAgrees(W, ts, v, EvaluateAll(d, s, ts, v, at));
  }

  lemma AnyOfAgrees(W: Validity, ts: seq<Json>, v: Json, outcomes: seq<Outcome>)
    ensures NoneRaises(outcomes) ==> Sequence(outcomes).Some?
    ensures AllAgree(W, ts, v, outcomes) && Sequence(outcomes).Some? ==>
              (Some([]) in outcomes <==> exists i :: 0 <= i < |ts| && W(ts[i], v))
  {
    SequenceMeans(outcomes);
    if AllAgree(W, ts, v, outcomes) && Sequence(outcomes).Some? { AnyOfFinds(W, ts, v, outcomes); }
  }

  lemma AnyOfSound(d: Document, W: Validity, s: Json, k: Keywords, v: Json, at: seq<Step>)
    requires Acyclic(d) && d.good(s) && Read(d.rules, s) == Some(k)
    ensures var r := AnyOfErrors(d, s, k, v, at);
            && (Proper(d) ==> r.Some?)
            && (Fits(d, W) ==>
                 Agrees(r, k.anyOf.Some? ==> exists i :: 0 <= i < |k.anyOf.value| && W(k.anyOf.value[i], v)))
    decreases Level(v), v, d.rank(s), 0
  {
    if k.anyOf.Some? {
      AllSound(d, W, s, k.anyOf.value, v, at);
      AnyOfAgrees(W, k.anyOf.value, v, EvaluateAll(d, s, k.anyOf.value, v, at));
    }
  }

  lemma OneOfAgrees(W: Validity, ts: seq<Json>, v: Json, outcomes: seq<Outcome>)
    ensures NoneRaises(outcomes) ==> Sequence(outcomes).Some?
    ensures AllAgree(W, ts, v, outcomes) && Sequence(outcomes).Some? ==> (Passing(outcomes) == 1 <==> ExactlyOne(W, ts, v))
  {
    SequenceMeans(outcomes);
    if AllAgree(W, ts, v, outcomes) && Sequence(outcomes).Some? { OneOfCounts(W, ts, v, outcomes); }
  }

  lemma OneOfSound(d: Document, W: Validity, s: Json, k: Keywords, v: Json, at: seq<Step>)
    requires Acyclic(d) && d.good(s) && Read(d.rules, s) == Some(k)
    ensures var r := OneOfErrors(d, s, k, v, at);
            && (Proper(d) ==> r.Some?)
            && (Fits(d, W) ==> Agrees(r, k.oneOf.Some? ==> ExactlyOne(W, k.oneOf.value, v)))
    decreases Level(v), v, d.rank(s), 0
  {
    if k.oneOf.Some? {
      AllSound(d, W, s, k.oneOf.value, v, at);
      OneOfAgrees(W, k.oneOf.value, v, EvaluateAll(d, s, k.oneOf.value, v, at));
    }
  }

  lemma AnyOfFinds(W: Validity, ts: seq<Json>, v: Json, outcomes: seq<Outcome>)
    requires |outcomes| == |ts| && forall i :: 0 <= i < |ts| ==> (outcomes[i] == Some([]) <==> W(ts[i], v))
    ensures Some([]) in outcomes <==> exists i :: 0 <= i < |ts| && W(ts[i], v)
  {
    if i :| 0 <= i < |ts| && W(ts[i], v) { assert outcomes[i] == Some([]); }
    if Some([]) in outcomes { var i :| 0 <= i < |outcomes| && outcomes[i] == Some([]); assert W(ts[i], v); }
  }

  lemma OneOfCounts(W: Validity, ts: seq<Json>, v: Json, outcomes: seq<Outcome>)
    requires |outcomes| == |ts| && forall i :: 0 <= i < |ts| ==> (outcomes[i] == Some([]) <==> W(ts[i], v))
    ensures Passing(outcomes) == 1 <==> ExactlyOne(W, ts, v)
  {
    PassingOne(outcomes);
    if i: nat :| OnlyPass(outcomes, i) {
      assert W(ts[i], v) && forall j :: 0 <= j < |ts| && j != i ==> !W(ts[j], v);
    }
    if ExactlyOne(W, ts, v) {
      var i :| 0 <= i < |ts| && W(ts[i], v) && forall j :: 0 <= j < |ts| && j != i ==> !W(ts[j], v);
      assert OnlyPass(outcomes, i);
    }
  }

  lemma SelectAgrees(condition: Outcome, yes: Outcome, no: Outcome, c: bool, y: bool, n: bool)
    ensures condition.Some? && yes.Some? && no.Some? ==> Select(condition, yes, no).Some?
    ensures Agrees(condition, c) && Agrees(yes, y) && Agrees(no, n) ==> Agrees(Select(condition, yes, no), if c then y else n)
  {}

  lemma SoundInPlace(d: Document, W: Validity, s: Json, t: Json, v: Json, at: seq<Step>)
    requires Acyclic(d) && d.good(s) && InPlace(d, s, t)
    ensures d.good(t) && (Proper(d) ==> Evaluate(d, t, v, at).Some?) && (Fits(d, W) ==> Agrees(Evaluate(d, t, v, at), W(t, v)))
    decreases Level(v), v, d.rank(s), 0, 0
  {
    Sound(d, W, t, v, at);
  }

  lemma ConditionSound(d: Document, W: Validity, s: Json, k: Keywords, v: Json, at: seq<Step>)
    requires Acyclic(d) && d.good(s) && Read(d.rules, s) == Some(k)
    ensures var r := ConditionErrors(d, s, k, v, at);
            && (Proper(d) ==> r.Some?)
            && (Fits(d, W) ==> Agrees(r, k.condition.Some? ==> W(Branch(k, W(k.condition.value, v)), v)))
    decreases Level(v), v, d.rank(s), 0, 1
  {
    if k.condition.Some? {
      var c := k.condition.value;
      SoundInPlace(d, W, s, c, v, at);
      SoundInPlace(d, W, s, k.whenTrue, v, at);
      SoundInPlace(d, W, s, k.whenFalse, v, at);
      SelectAgrees(Evaluate(d, c, v, at), Evaluate(d, k.whenTrue, v, at), Evaluate(d, k.whenFalse, v, at),
                   W(c, v), W(k.whenTrue, v), W(k.whenFalse, v));
      assert W(Branch(k, W(c, v)), v) == if W(c, v) then W(k.whenTrue, v) else W(k.whenFalse, v);
    }
  }

  lemma FieldSound(d: Document, W: Validity, s: Json, k: Keywords, v: Json, i: nat, at: seq<Step>)
    requires Acyclic(d) && d.good(s) && Read(d.rules, s) == Some(k) && v.Obj? && i < |v.fields|
    ensures var r := FieldErrors(d, s, k, v, i, at);
            (Proper(d) ==> r.Some?) && (Fits(d, W) ==> Agrees(r, FieldHolds(W, k, v.fields[i])))
    decreases Level(v), v, d.rank(s), 0, 0
  {
    var f := v.fields[i];
    match Get(k.properties, f.key)
    case Some(t) =>
      PropertyBelow(d, s, k, f.key);
      Sound(d, W, t, f.value, at + [Member(f.key)]);
    case None =>
      if k.additional.Only? {
        assert Below(d, s, k.additional.schema);
        Sound(d, W, k.additional.schema, f.value, at + [Member(f.key)]);
      }
  }

  lemma NameSound(d: Document, W: Validity, s: Json, k: Keywords, v: Json, i: nat, at: seq<Step>)
    requires Acyclic(d) && d.good(s) && Read(d.rules, s) == Some(k) && v.Obj? && i < |v.fields|
    ensures var r := NameErrors(d, s, k, v, i, at);
            && (Proper(d) ==> r.Some?)
            && (Fits(d, W) ==> Agrees(r, k.names.Some? ==> W(k.names.value, Str(v.fields[i].key))))
    decreases Level(v), v, d.rank(s), 0, 0
  {
    if k.names.Some? {
      assert Below(d, s, k.names.value);
      Sound(d, W, k.names.value, Str(v.fields[i].key), at + [PropertyName]);
    }
  }

  lemma ItemSound(d: Document, W: Validity, s: Json, k: Keywords, v: Json, i: nat, at: seq<Step>)
    requires Acyclic(d) && d.good(s) && Read(d.rules, s) == Some(k) && v.Arr? && i < |v.items|
    ensures var r := ItemErrors(d, s, k, v, i, at);
            (Proper(d) ==> r.Some?) && (Fits(d, W) ==> Agrees(r, k.items.Some? ==> W(k.items.value, v.items[i])))
    decreases Level(v), v, d.rank(s), 0, 0
  {
    if k.items.Some? {
      assert Below(d, s, k.items.value);
      Sound(d, W, k.items.value, v.items[i], at + [Element(i)]);
    }
  }

  /** A list of outcomes agrees with a list of verdicts. */
  lemma ListAgrees(parts: seq<Outcome>, verdicts: seq<bool>, all: bool)
    requires |parts| == |verdicts| && forall i :: 0 <= i < |parts| ==> Agrees(parts[i], verdicts[i])
    requires all <==> forall i :: 0 <= i < |verdicts| ==> verdicts[i]
    ensures Agrees(Sequence(parts), all)
  {
    Pointwise(parts, verdicts);
  }

  lemma FieldsAgree(W: Validity, k: Keywords, fields: seq<Field>, parts: seq<Outcome>)
    requires |parts| == |fields| && forall i :: 0 <= i < |fields| ==> Agrees(parts[i], FieldHolds(W, k, fields[i]))
    ensures Agrees(Sequence(parts), forall i :: 0 <= i < |fields| ==> FieldHolds(W, k, fields[i]))
  {
    var held := seq(|fields|, i requires 0 <= i < |fields| => FieldHolds(W, k, fields[i]));
    if forall i :: 0 <= i < |held| ==> held[i] {
      forall i | 0 <= i < |fields| ensures FieldHolds(W, k, fields[i]) { assert held[i]; }
    }
    ListAgrees(parts, held, forall i :: 0 <= i < |fields| ==> FieldHolds(W, k, fields[i]));
  }

  /** An optional schema applied to every value of a list. */
  ghost predicate AllTake(W: Validity, t: Option<Json>, values: seq<Json>) {
    t.Some? ==> forall i :: 0 <= i < |values| ==> W(t.value, values[i])
  }

  lemma ValuesAgree(W: Validity, t: Option<Json>, values: seq<Json>, parts: seq<Outcome>)
    requires |parts| == |values| && forall i :: 0 <= i < |values| ==> Agrees(parts[i], t.Some? ==> W(t.value, values[i]))
    ensures Agrees(Sequence(parts), AllTake(W, t, values))
  {
    var held := seq(|values|, i requires 0 <= i < |values| => t.Some? ==> W(t.value, values[i]));
    if t.Some? && forall i :: 0 <= i < |held| ==> held[i] {
      forall i | 0 <= i < |values| ensures W(t.value, values[i]) { assert held[i]; }
    }
    ListAgrees(parts, held, AllTake(W, t, values));
  }

  function Names(fields: seq<Field>): (names: seq<Json>)
    ensures |names| == |fields| && forall i :: 0 <= i < |fields| ==> names[i] == Str(fields[i].key)
  {
    seq(|fields|, i requires 0 <= i < |fields| => Str(fields[i].key))
  }

  lemma FieldsSound(d: Document, W: Validity, s: Json, k: Keywords, v: Json, at: seq<Step>)
    requires Acyclic(d) && d.good(s) && Read(d.rules, s) == Some(k) && v.Obj?
    ensures var r := Sequence(FieldOutcomes(d, s, k, v, at));
            && (Proper(d) ==> r.Some?)
            && (Fits(d, W) ==> Agrees(r, forall i :: 0 <= i < |v.fields| ==> FieldHolds(W, k, v.fields[i])))
    decreases Level(v), v, d.rank(s), 0, 1
  {
    var parts := FieldOutcomes(d, s, k, v, at);
    forall i | 0 <= i < |v.fields|
      ensures Proper(d) ==> parts[i].Some?
      ensures Fits(d, W) ==> Agrees(parts[i], FieldHolds(W, k, v.fields[i]))
    {
      FieldSound(d, W, s, k, v, i, at);
    }
    SequenceMeans(parts);
    if Fits(d, W) { FieldsAgree(W, k, v.fields, parts); }
  }

  lemma NamesSound(d: Document, W: Validity, s: Json, k: Keywords, v: Json, at: seq<Step>)
    requires Acyclic(d) && d.good(s) && Read(d.rules, s) == Some(k) && v.Obj?
    ensures var r := Sequence(NameOutcomes(d, s, k, v, at));
            (Proper(d) ==> r.Some?) && (Fits(d, W) ==> Agrees(r, AllTake(W, k.names, Names(v.fields))))
    decreases Level(v), v, d.rank(s), 0, 1
  {
    var parts := NameOutcomes(d, s, k, v, at);
    forall i | 0 <= i < |v.fields|
      ensures Proper(d) ==> parts[i].Some?
      ensures Fits(d, W) ==> Agrees(parts[i], k.names.Some? ==> W(k.names.value, Names(v.fields)[i]))
    {
      NameSound(d, W, s, k, v, i, at);
    }
    SequenceMeans(parts);
    if Fits(d, W) { ValuesAgree(W, k.names, Names(v.fields), parts); }
  }

  lemma ObjectAgrees(W: Validity, k: Keywords, fields: seq<Field>, r: Outcome, required: seq<Error>, members: Outcome, names: Outcome)
    requires required == [] <==> forall i :: 0 <= i < |k.required| ==> Get(fields, k.required[i]).Some?
    requires Agrees(members, forall i :: 0 <= i < |fields| ==> FieldHolds(W, k, fields[i]))
    requires Agrees(names, AllTake(W, k.names, Names(fields)))
    requires r.Some? ==> members.Some? && names.Some?
    requires r == Some([]) <==> required == [] && members == Some([]) && Within(|fields|, k.fields) && names == Some([])
    ensures Agrees(r, ObjectHolds(W, k, fields))
  {}

  lemma ObjectSound(d: Document, W: Validity, s: Json, k: Keywords, v: Json, at: seq<Step>)
    requires Acyclic(d) && d.good(s) && Read(d.rules, s) == Some(k)
    ensures var r := ObjectErrors(d, s, k, v, at);
            (Proper(d) ==> r.Some?) && (Fits(d, W) ==> Agrees(r, v.Obj? ==> ObjectHolds(W, k, v.fields)))
    decreases Level(v), v, d.rank(s), 0, 2
  {
    if v.Obj? {
      FieldsSound(d, W, s, k, v, at);
      NamesSound(d, W, s, k, v, at);
      RequiredMeans(k.required, v.fields, at);
      BoundsMean(|v.fields|, k.fields, at, MinProperties, MaxProperties);
      var members, names := Sequence(FieldOutcomes(d, s, k, v, at)), Sequence(NameOutcomes(d, s, k, v, at));
      Four(Some(RequiredErrors(k.required, v.fields, at)), members,
           Some(BoundErrors(|v.fields|, k.fields, at, MinProperties, MaxProperties)), names);
      assert ObjectErrors(d, s, k, v, at) == Sequence(ObjectParts(d, s, k, v, at));
      assert ObjectErrors(d, s, k, v, at) == Some([]) <==>
             RequiredErrors(k.required, v.fields, at) == [] && members == Some([]) && Within(|v.fields|, k.fields) && names == Some([]);
      if Fits(d, W) { ObjectAgrees(W, k, v.fields, ObjectErrors(d, s, k, v, at), RequiredErrors(k.required, v.fields, at), members, names); }
    }
  }

  lemma BoundsMean(n: int, bounds: Bounds, at: seq<Step>, low: Keyword, high: Keyword)
    ensures BoundErrors(n, bounds, at, low, high) == [] <==> Within(n, bounds)
  {
    var p, q := When(n as real < bounds.least, at, low), When(bounds.most.Some? && n > bounds.most.value, at, high);
    assert |p + q| == |p| + |q|;
  }

  lemma ItemsSound(d: Document, W: Validity, s: Json, k: Keywords, v: Json, at: seq<Step>)
    requires Acyclic(d) && d.good(s) && Read(d.rules, s) == Some(k) && v.Arr?
    ensures var r := Sequence(ItemOutcomes(d, s, k, v, at));
            (Proper(d) ==> r.Some?) && (Fits(d, W) ==> Agrees(r, AllTake(W, k.items, v.items)))
    decreases Level(v), v, d.rank(s), 0, 1
  {
    var parts := ItemOutcomes(d, s, k, v, at);
    forall i | 0 <= i < |v.items|
      ensures Proper(d) ==> parts[i].Some?
      ensures Fits(d, W) ==> Agrees(parts[i], k.items.Some? ==> W(k.items.value, v.items[i]))
    {
      ItemSound(d, W, s, k, v, i, at);
    }
    SequenceMeans(parts);
    if Fits(d, W) { ValuesAgree(W, k.items, v.items, parts); }
  }

  lemma ArraySound(d: Document, W: Validity, s: Json, k: Keywords, v: Json, at: seq<Step>)
    requires Acyclic(d) && d.good(s) && Read(d.rules, s) == Some(k)
    ensures var r := ArrayErrors(d, s, k, v, at);
            (Proper(d) ==> r.Some?) && (Fits(d, W) ==> Agrees(r, v.Arr? ==> ArrayHolds(d.rules, W, k, v.items)))
    decreases Level(v), v, d.rank(s), 0, 2
  {
    if v.Arr? {
      ItemsSound(d, W, s, k, v, at);
      BoundsMean(|v.items|, k.length, at, MinItems, MaxItems);
      var repeated := k.unique && !Distinct(d.rules, v.items);
      var items := Sequence(ItemOutcomes(d, s, k, v, at));
      Three(Some(BoundErrors(|v.items|, k.length, at, MinItems, MaxItems)), Some(When(repeated, at, UniqueItems)), items);
      assert ArrayErrors(d, s, k, v, at) == Sequence(ArrayParts(d, s, k, v, at));
      assert ArrayErrors(d, s, k, v, at) == Some([]) <==> Within(|v.items|, k.length) && !repeated && items == Some([]);
    }
  }

  lemma ScalarSound(d: Document, k: Keywords, v: Json, at: seq<Step>)
    ensures ConstantErrors(d.rules, k, v, at) == [] <==> ConstantsHold(d.rules, k, v)
    ensures TextErrors(d, k, v, at) == [] <==> (v.Str? ==> TextHolds(d, k, v.text))
    ensures NumberErrors(k, v, at) == [] <==> (Number(v) ==> NumberHolds(k, Amount(v)))
  {
    if v.Str? { BoundsMean(|v.text|, k.size, at, MinLength, MaxLength); }
  }

  lemma ApplicatorsSound(d: Document, W: Validity, s: Json, k: Keywords, v: Json, at: seq<Step>)
    requires Acyclic(d) && d.good(s) && Read(d.rules, s) == Some(k)
    ensures var r := AppliedErrors(d, s, k, v, at);
            (Proper(d) ==> r.Some?) && (Fits(d, W) ==> Agrees(r, ApplicatorsHold(d, W, k, v)))
    decreases Level(v), v, d.rank(s), 1
  {
    ReferenceSound(d, W, s, k, v, at);
    AllOfSound(d, W, s, k, v, at);
    AnyOfSound(d, W, s, k, v, at);
    OneOfSound(d, W, s, k, v, at);
    ConditionSound(d, W, s, k, v, at);
    Five(ReferenceErrors(d, s, k, v, at), AllOfErrors(d, s, k, v, at), AnyOfErrors(d, s, k, v, at),
         OneOfErrors(d, s, k, v, at), ConditionErrors(d, s, k, v, at));
  }

  lemma Combined(applied: Outcome, constants: seq<Error>, members: Outcome, elements: Outcome, text: seq<Error>, number: seq<Error>, at: seq<Step>)
    ensures var r := Sequence([applied, Some([Error(at, Type)])]); (r.Some? <==> applied.Some?) && r != Some([])
    ensures var r := Sequence([applied, Some(constants), members, elements, Some(text + number)]);
            && (r.Some? <==> applied.Some? && members.Some? && elements.Some?)
            && (r == Some([]) <==>
                applied == Some([]) && constants == [] && members == Some([]) && elements == Some([]) && text == [] && number == [])
  {
    Two(applied, Some([Error(at, Type)]));
    Five(applied, Some(constants), members, elements, Some(text + number));
    assert text + number == [] <==> text == [] && number == [] by { assert |text + number| == |text| + |number|; }
  }

  lemma PartsSound(d: Document, W: Validity, s: Json, k: Keywords, v: Json, at: seq<Step>)
    requires Acyclic(d) && d.good(s) && Read(d.rules, s) == Some(k)
    ensures Proper(d) ==> AppliedErrors(d, s, k, v, at).Some? && ObjectErrors(d, s, k, v, at).Some? && ArrayErrors(d, s, k, v, at).Some?
    ensures Fits(d, W) ==>
              && Agrees(AppliedErrors(d, s, k, v, at), ApplicatorsHold(d, W, k, v))
              && Agrees(ObjectErrors(d, s, k, v, at), v.Obj? ==> ObjectHolds(W, k, v.fields))
              && Agrees(ArrayErrors(d, s, k, v, at), v.Arr? ==> ArrayHolds(d.rules, W, k, v.items))
    decreases Level(v), v, d.rank(s), 2
  {
    ApplicatorsSound(d, W, s, k, v, at);
    ObjectSound(d, W, s, k, v, at);
    ArraySound(d, W, s, k, v, at);
  }

  /** The evaluator finds no error exactly when every keyword holds. */
  lemma KeywordsMean(d: Document, W: Validity, s: Json, v: Json, at: seq<Step>)
    requires Acyclic(d) && d.good(s) && Read(d.rules, s).Some?
    ensures Proper(d) ==> Evaluate(d, s, v, at).Some?
    ensures Fits(d, W) ==> Agrees(Evaluate(d, s, v, at), Satisfies(d, W, s, v))
    decreases Level(v), v, d.rank(s), 3
  {
    var k := Read(d.rules, s).value;
    PartsSound(d, W, s, k, v, at);
    ScalarSound(d, k, v, at);
    var applied, members, elements := AppliedErrors(d, s, k, v, at), ObjectErrors(d, s, k, v, at), ArrayErrors(d, s, k, v, at);
    Combined(applied, ConstantErrors(d.rules, k, v, at), members, elements, TextErrors(d, k, v, at), NumberErrors(k, v, at), at);
    assert Evaluate(d, s, v, at) == Sequence(Parts(d, s, k, v, at));
  }

  lemma {:induction false} Sound(d: Document, W: Validity, s: Json, v: Json, at: seq<Step>)
    requires Acyclic(d) && d.good(s)
    ensures Proper(d) ==> Evaluate(d, s, v, at).Some?
    ensures Fits(d, W) ==> Agrees(Evaluate(d, s, v, at), W(s, v))
    decreases Level(v), v, d.rank(s), 4
  {
    if Proper(d) { assert Readable(d, s); }
    if Read(d.rules, s).Some? {
      KeywordsMean(d, W, s, v, at);
      assert IsValidity(d, W) ==> (W(s, v) <==> Satisfies(d, W, s, v));
    }
  }

  /** Evaluator correctness: with acyclic references the evaluation ends; on a proper document it does
      not raise; and it finds no error exactly when the value is valid, wherever it starts. */
  lemma EvaluatorCorrect(d: Document, W: Validity, s: Json, v: Json, at: seq<Step>)
    requires Acyclic(d) && d.good(s) && IsValidity(d, W)
    ensures Proper(d) ==> Evaluate(d, s, v, at).Some?
    ensures Evaluate(d, s, v, at).Some? ==> (Evaluate(d, s, v, at).value == [] <==> W(s, v))
  {
    Sound(d, W, s, v, at);
  }

  // ---------------------------------------------------------------- another location

  function Prefixed(prefix: seq<Step>, errors: seq<Error>): seq<Error> {
    if errors == [] then []
    else seq(|errors|, i requires 0 <= i < |errors| => Error(prefix + errors[i].location, errors[i].keyword))
  }

  lemma WhenMoves(condition: bool, a: seq<Step>, b: seq<Step>, keyword: Keyword)
    ensures When(condition, a + b, keyword) == Prefixed(a, When(condition, b, keyword))
  {}

  function Moved(prefix: seq<Step>, r: Outcome): Outcome {
    if r.None? then None else Some(Prefixed(prefix, r.value))
  }

  ghost predicate AllMoved(prefix: seq<Step>, xs: seq<Outcome>, ys: seq<Outcome>) {
    |xs| == |ys| && forall i :: 0 <= i < |xs| ==> xs[i] == Moved(prefix, ys[i])
  }

  lemma PrefixedConcat(prefix: seq<Step>, a: seq<Error>, b: seq<Error>)
    ensures Prefixed(prefix, a + b) == Prefixed(prefix, a) + Prefixed(prefix, b)
  {}

  lemma {:induction false} SequenceMoves(prefix: seq<Step>, xs: seq<Outcome>, ys: seq<Outcome>)
    requires AllMoved(prefix, xs, ys)
    ensures Sequence(xs) == Moved(prefix, Sequence(ys))
    ensures Passing(xs) == Passing(ys)
    ensures Some([]) in xs <==> Some([]) in ys
  {
    if xs != [] {
      assert AllMoved(prefix, xs[1..], ys[1..]);
      SequenceMoves(prefix, xs[1..], ys[1..]);
      if ys[0].Some? && Sequence(ys[1..]).Some? { PrefixedConcat(prefix, ys[0].value, Sequence(ys[1..]).value); }
      assert xs[0] == Moved(prefix, ys[0]);
      assert xs == [xs[0]] + xs[1..] && ys == [ys[0]] + ys[1..];
    }
  }

  lemma AllMove(d: Document, s: Json, ts: seq<Json>, v: Json, a: seq<Step>, b: seq<Step>)
    requires Acyclic(d) && d.good(s) && forall i :: 0 <= i < |ts| ==> InPlace(d, s, ts[i])
    ensures AllMoved(a, EvaluateAll(d, s, ts, v, a + b), EvaluateAll(d, s, ts, v, b))
    decreases Level(v), v, d.rank(s), 0, 0
  {
    forall i | 0 <= i < |ts| ensures EvaluateAll(d, s, ts, v, a + b)[i] == Moved(a, EvaluateAll(d, s, ts, v, b)[i]) {
      assert InPlace(d, s, ts[i]);
      Relocates(d, ts[i], v, a, b);
    }
  }

  lemma ApplicatorsMove(d: Document, s: Json, k: Keywords, v: Json, a: seq<Step>, b: seq<Step>)
    requires Acyclic(d) && d.good(s) && Read(d.rules, s) == Some(k)
    ensures ReferenceErrors(d, s, k, v, a + b) == Moved(a, ReferenceErrors(d, s, k, v, b))
    ensures AllOfErrors(d, s, k, v, a + b) == Moved(a, AllOfErrors(d, s, k, v, b))
    decreases Level(v), v, d.rank(s), 1
  {
    if k.reference.Some? && Resolve(d.root, k.reference.value).Some? {
      var t := Resolve(d.root, k.reference.value).value;
      assert InPlace(d, s, t);
      Relocates(d, t, v, a, b);
    }
    AllMove(d, s, k.allOf, v, a, b);
    SequenceMoves(a, EvaluateAll(d, s, k.allOf, v, a + b), EvaluateAll(d, s, k.allOf, v, b));
  }

  lemma AnyOfMoves(d: Document, s: Json, k: Keywords, v: Json, a: seq<Step>, b: seq<Step>)
    requires Acyclic(d) && d.good(s) && Read(d.rules, s) == Some(k)
    ensures AnyOfErrors(d, s, k, v, a + b) == Moved(a, AnyOfErrors(d, s, k, v, b))
    decreases Level(v), v, d.rank(s), 1
  {
    if k.anyOf.Some? {
      var there, here := EvaluateAll(d, s, k.anyOf.value, v, a + b), EvaluateAll(d, s, k.anyOf.value, v, b);
      AllMove(d, s, k.anyOf.value, v, a, b);
      SequenceMoves(a, there, here);
      WhenMoves(Some([]) !in here, a, b, AnyOf);
    }
  }

  lemma OneOfMoves(d: Document, s: Json, k: Keywords, v: Json, a: seq<Step>, b: seq<Step>)
    requires Acyclic(d) && d.good(s) && Read(d.rules, s) == Some(k)
    ensures OneOfErrors(d, s, k, v, a + b) == Moved(a, OneOfErrors(d, s, k, v, b))
    decreases Level(v), v, d.rank(s), 1
  {
    if k.oneOf.Some? {
      var there, here := EvaluateAll(d, s, k.oneOf.value, v, a + b), EvaluateAll(d, s, k.oneOf.value, v, b);
      AllMove(d, s, k.oneOf.value, v, a, b);
      SequenceMoves(a, there, here);
      WhenMoves(Passing(here) != 1, a, b, OneOf);
    }
  }

  lemma SelectMoves(prefix: seq<Step>, condition: Outcome, yes: Outcome, no: Outcome)
    ensures Select(Moved(prefix, condition), Moved(prefix, yes), Moved(prefix, no)) == Moved(prefix, Select(condition, yes, no))
  {}

  lemma MovesInPlace(d: Document, s: Json, t: Json, v: Json, a: seq<Step>, b: seq<Step>)
    requires Acyclic(d) && d.good(s) && InPlace(d, s, t)
    ensures d.good(t) && Evaluate(d, t, v, a + b) == Moved(a, Evaluate(d, t, v, b))
    decreases Level(v), v, d.rank(s), 0, 0
  {
    Relocates(d, t, v, a, b);
  }

  lemma ConditionMoves(d: Document, s: Json, k: Keywords, v: Json, a: seq<Step>, b: seq<Step>)
    requires Acyclic(d) && d.good(s) && Read(d.rules, s) == Some(k)
    ensures ConditionErrors(d, s, k, v, a + b) == Moved(a, ConditionErrors(d, s, k, v, b))
    decreases Level(v), v, d.rank(s), 1
  {
    if k.condition.Some? {
      var c := k.condition.value;
      MovesInPlace(d, s, c, v, a, b);
      MovesInPlace(d, s, k.whenTrue, v, a, b);
      MovesInPlace(d, s, k.whenFalse, v, a, b);
      SelectMoves(a, Evaluate(d, c, v, b), Evaluate(d, k.whenTrue, v, b), Evaluate(d, k.whenFalse, v, b));
    }
  }

  lemma {:induction false} RequiredMoves(required: seq<string>, fields: seq<Field>, a: seq<Step>, b: seq<Step>)
    ensures RequiredErrors(required, fields, a + b) == Prefixed(a, RequiredErrors(required, fields, b))
  {
    if required != [] {
      RequiredMoves(required[1..], fields, a, b);
      PrefixedConcat(a, When(Get(fields, required[0]).None?, b, Required), RequiredErrors(required[1..], fields, b));
    }
  }

  lemma FieldsMove(d: Document, s: Json, k: Keywords, v: Json, i: nat, a: seq<Step>, b: seq<Step>)
    requires Acyclic(d) && d.good(s) && Read(d.rules, s) == Some(k) && v.Obj? && i < |v.fields|
    ensures FieldErrors(d, s, k, v, i, a + b) == Moved(a, FieldErrors(d, s, k, v, i, b))
    ensures NameErrors(d, s, k, v, i, a + b) == Moved(a, NameErrors(d, s, k, v, i, b))
    decreases Level(v), v, d.rank(s), 0
  {
    var f := v.fields[i];
    assert (a + b) + [Member(f.key)] == a + (b + [Member(f.key)]);
    assert (a + b) + [PropertyName] == a + (b + [PropertyName]);
    WhenMoves(true, a, b, AdditionalProperties);
    match Get(k.properties, f.key) {
      case Some(t) =>
        PropertyBelow(d, s, k, f.key);
        Relocates(d, t, f.value, a, b + [Member(f.key)]);
      case None =>
        if k.additional.Only? {
          assert Below(d, s, k.additional.schema);
          Relocates(d, k.additional.schema, f.value, a, b + [Member(f.key)]);
        }
    }
    if k.names.Some? {
      assert Below(d, s, k.names.value);
      Relocates(d, k.names.value, Str(f.key), a, b + [PropertyName]);
    }
  }

  lemma FieldListMoves(d: Document, s: Json, k: Keywords, v: Json, a: seq<Step>, b: seq<Step>)
    requires Acyclic(d) && d.good(s) && Read(d.rules, s) == Some(k) && v.Obj?
    ensures AllMoved(a, FieldOutcomes(d, s, k, v, a + b), FieldOutcomes(d, s, k, v, b))
    ensures AllMoved(a, NameOutcomes(d, s, k, v, a + b), NameOutcomes(d, s, k, v, b))
    decreases Level(v), v, d.rank(s), 1, 0
  {
    forall i | 0 <= i < |v.fields|
      ensures FieldOutcomes(d, s, k, v, a + b)[i] == Moved(a, FieldOutcomes(d, s, k, v, b)[i])
      ensures NameOutcomes(d, s, k, v, a + b)[i] == Moved(a, NameOutcomes(d, s, k, v, b)[i])
    {
      FieldsMove(d, s, k, v, i, a, b);
    }
  }

  lemma FourMoved(prefix: seq<Step>, a: Outcome, b: Outcome, c: Outcome, d: Outcome, p: Outcome, q: Outcome, r: Outcome, s: Outcome)
    requires p == Moved(prefix, a) && q == Moved(prefix, b) && r == Moved(prefix, c) && s == Moved(prefix, d)
    ensures AllMoved(prefix, [p, q, r, s], [a, b, c, d])
  {}

  lemma ObjectMoves(d: Document, s: Json, k: Keywords, v: Json, a: seq<Step>, b: seq<Step>)
    requires Acyclic(d) && d.good(s) && Read(d.rules, s) == Some(k)
    ensures ObjectErrors(d, s, k, v, a + b) == Moved(a, ObjectErrors(d, s, k, v, b))
    decreases Level(v), v, d.rank(s), 1, 1
  {
    if v.Obj? {
      FieldListMoves(d, s, k, v, a, b);
      SequenceMoves(a, FieldOutcomes(d, s, k, v, a + b), FieldOutcomes(d, s, k, v, b));
      SequenceMoves(a, NameOutcomes(d, s, k, v, a + b), NameOutcomes(d, s, k, v, b));
      RequiredMoves(k.required, v.fields, a, b);
      BoundMoves(|v.fields|, k.fields, a, b, MinProperties, MaxProperties);
      FourMoved(a, Some(RequiredErrors(k.required, v.fields, b)), Sequence(FieldOutcomes(d, s, k, v, b)),
                Some(BoundErrors(|v.fields|, k.fields, b, MinProperties, MaxProperties)), Sequence(NameOutcomes(d, s, k, v, b)),
                Some(RequiredErrors(k.required, v.fields, a + b)), Sequence(FieldOutcomes(d, s, k, v, a + b)),
                Some(BoundErrors(|v.fields|, k.fields, a + b, MinProperties, MaxProperties)), Sequence(NameOutcomes(d, s, k, v, a + b)));
      SequenceMoves(a, ObjectParts(d, s, k, v, a + b), ObjectParts(d, s, k, v, b));
    }
  }

  lemma BoundMoves(n: int, bounds: Bounds, a: seq<Step>, b: seq<Step>, low: Keyword, high: Keyword)
    ensures BoundErrors(n, bounds, a + b, low, high) == Prefixed(a, BoundErrors(n, bounds, b, low, high))
  {
    TwoMove(n as real < bounds.least, low, bounds.most.Some? && n > bounds.most.value, high, a, b);
  }

  lemma TwoMove(p: bool, first: Keyword, q: bool, second: Keyword, a: seq<Step>, b: seq<Step>)
    ensures When(p, a + b, first) + When(q, a + b, second) == Prefixed(a, When(p, b, first) + When(q, b, second))
  {
    WhenMoves(p, a, b, first);
    WhenMoves(q, a, b, second);
    PrefixedConcat(a, When(p, b, first), When(q, b, second));
  }

  lemma ItemMoves(d: Document, s: Json, k: Keywords, v: Json, i: nat, a: seq<Step>, b: seq<Step>)
    requires Acyclic(d) && d.good(s) && Read(d.rules, s) == Some(k) && v.Arr? && i < |v.items|
    ensures ItemErrors(d, s, k, v, i, a + b) == Moved(a, ItemErrors(d, s, k, v, i, b))
    decreases Level(v), v, d.rank(s), 0
  {
    if k.items.Some? {
      assert Below(d, s, k.items.value);
      assert (a + b) + [Element(i)] == a + (b + [Element(i)]);
      Relocates(d, k.items.value, v.items[i], a, b + [Element(i)]);
    }
  }

  lemma ItemListMoves(d: Document, s: Json, k: Keywords, v: Json, a: seq<Step>, b: seq<Step>)
    requires Acyclic(d) && d.good(s) && Read(d.rules, s) == Some(k) && v.Arr?
    ensures AllMoved(a, ItemOutcomes(d, s, k, v, a + b), ItemOutcomes(d, s, k, v, b))
    decreases Level(v), v, d.rank(s), 1, 0
  {
    forall i | 0 <= i < |v.items| ensures ItemOutcomes(d, s, k, v, a + b)[i] == Moved(a, ItemOutcomes(d, s, k, v, b)[i]) {
      ItemMoves(d, s, k, v, i, a, b);
    }
  }

  lemma ThreeMoved(prefix: seq<Step>, a: Outcome, b: Outcome, c: Outcome, p: Outcome, q: Outcome, r: Outcome)
    requires p == Moved(prefix, a) && q == Moved(prefix, b) && r == Moved(prefix, c)
    ensures AllMoved(prefix, [p, q, r], [a, b, c])
  {}

  lemma ArrayMoves(d: Document, s: Json, k: Keywords, v: Json, a: seq<Step>, b: seq<Step>)
    requires Acyclic(d) && d.good(s) && Read(d.rules, s) == Some(k)
    ensures ArrayErrors(d, s, k, v, a + b) == Moved(a, ArrayErrors(d, s, k, v, b))
    decreases Level(v), v, d.rank(s), 1, 1
  {
    if v.Arr? {
      ItemListMoves(d, s, k, v, a, b);
      SequenceMoves(a, ItemOutcomes(d, s, k, v, a + b), ItemOutcomes(d, s, k, v, b));
      BoundMoves(|v.items|, k.length, a, b, MinItems, MaxItems);
      var repeated := k.unique && !Distinct(d.rules, v.items);
      WhenMoves(repeated, a, b, UniqueItems);
      ThreeMoved(a, Some(BoundErrors(|v.items|, k.length, b, MinItems, MaxItems)), Some(When(repeated, b, UniqueItems)),
                 Sequence(ItemOutcomes(d, s, k, v, b)),
                 Some(BoundErrors(|v.items|, k.length, a + b, MinItems, MaxItems)), Some(When(repeated, a + b, UniqueItems)),
                 Sequence(ItemOutcomes(d, s, k, v, a + b)));
      SequenceMoves(a, ArrayParts(d, s, k, v, a + b), ArrayParts(d, s, k, v, b));
    }
  }

  lemma ConstantsMove(rules: Rules, k: Keywords, v: Json, a: seq<Step>, b: seq<Step>)
    ensures ConstantErrors(rules, k, v, a + b) == Prefixed(a, ConstantErrors(rules, k, v, b))
  {
    TwoMove(k.constant.Some? && !SameConstant(rules, v, k.constant.value), Const,
            k.choices.Some? && !exists i :: 0 <= i < |k.choices.value| && SameConstant(rules, v, k.choices.value[i]), Enum, a, b);
  }

  lemma TextMoves(d: Document, k: Keywords, v: Json, a: seq<Step>, b: seq<Step>)
    ensures TextErrors(d, k, v, a + b) == Prefixed(a, TextErrors(d, k, v, b))
  {
    if v.Str? {
      var bounds := BoundErrors(|v.text|, k.size, b, MinLength, MaxLength);
      var p, q := k.pattern.Some? && !d.search(k.pattern.value, v.text), k.format && !d.dateTime(v.text);
      BoundMoves(|v.text|, k.size, a, b, MinLength, MaxLength);
      WhenMoves(p, a, b, Pattern);
      WhenMoves(q, a, b, Format);
      PrefixedConcat(a, bounds, When(p, b, Pattern));
      PrefixedConcat(a, bounds + When(p, b, Pattern), When(q, b, Format));
    }
  }

  lemma ScalarsMove(d: Document, k: Keywords, v: Json, a: seq<Step>, b: seq<Step>)
    ensures TextErrors(d, k, v, a + b) + NumberErrors(k, v, a + b) == Prefixed(a, TextErrors(d, k, v, b) + NumberErrors(k, v, b))
  {
    TextMoves(d, k, v, a, b);
    if Number(v) {
      TwoMove(k.minimum.Some? && Amount(v) < k.minimum.value, Minimum, k.maximum.Some? && Amount(v) > k.maximum.value, Maximum, a, b);
    }
    PrefixedConcat(a, TextErrors(d, k, v, b), NumberErrors(k, v, b));
  }

  lemma AppliedMove(d: Document, s: Json, k: Keywords, v: Json, a: seq<Step>, b: seq<Step>)
    requires Acyclic(d) && d.good(s) && Read(d.rules, s) == Some(k)
    ensures AppliedErrors(d, s, k, v, a + b) == Moved(a, AppliedErrors(d, s, k, v, b))
    decreases Level(v), v, d.rank(s), 2
  {
    ApplicatorsMove(d, s, k, v, a, b);
    AnyOfMoves(d, s, k, v, a, b);
    OneOfMoves(d, s, k, v, a, b);
    ConditionMoves(d, s, k, v, a, b);
    FiveMoved(a, ReferenceErrors(d, s, k, v, b), AllOfErrors(d, s, k, v, b), AnyOfErrors(d, s, k, v, b),
              OneOfErrors(d, s, k, v, b), ConditionErrors(d, s, k, v, b),
              ReferenceErrors(d, s, k, v, a + b), AllOfErrors(d, s, k, v, a + b), AnyOfErrors(d, s, k, v, a + b),
              OneOfErrors(d, s, k, v, a + b), ConditionErrors(d, s, k, v, a + b));
    SequenceMoves(a, AppliedParts(d, s, k, v, a + b), AppliedParts(d, s, k, v, b));
  }

  lemma FiveMoved(prefix: seq<Step>, a: Outcome, b: Outcome, c: Outcome, d: Outcome, e: Outcome,
                  p: Outcome, q: Outcome, r: Outcome, s: Outcome, t: Outcome)
    requires p == Moved(prefix, a) && q == Moved(prefix, b) && r == Moved(prefix, c) && s == Moved(prefix, d) && t == Moved(prefix, e)
    ensures AllMoved(prefix, [p, q, r, s, t], [a, b, c, d, e])
  {}

  lemma PartsMove(d: Document, s: Json, k: Keywords, v: Json, a: seq<Step>, b: seq<Step>)
    requires Acyclic(d) && d.good(s) && Read(d.rules, s) == Some(k)
    ensures AllMoved(a, Parts(d, s, k, v, a + b), Parts(d, s, k, v, b))
    decreases Level(v), v, d.rank(s), 3
  {
    AppliedMove(d, s, k, v, a, b);
    if KindsHold(d.rules, k, v) {
      ObjectMoves(d, s, k, v, a, b);
      ArrayMoves(d, s, k, v, a, b);
      ConstantsMove(d.rules, k, v, a, b);
      ScalarsMove(d, k, v, a, b);
      FiveMoved(a, AppliedErrors(d, s, k, v, b), Some(ConstantErrors(d.rules, k, v, b)), ObjectErrors(d, s, k, v, b),
                ArrayErrors(d, s, k, v, b), Some(TextErrors(d, k, v, b) + NumberErrors(k, v, b)),
                AppliedErrors(d, s, k, v, a + b), Some(ConstantErrors(d.rules, k, v, a + b)), ObjectErrors(d, s, k, v, a + b),
                ArrayErrors(d, s, k, v, a + b), Some(TextErrors(d, k, v, a + b) + NumberErrors(k, v, a + b)));
    } else {
      WhenMoves(true, a, b, Type);
    }
  }

  /** The report about a value nested at a location is the report about it alone, moved there. */
  lemma {:induction false} Relocates(d: Document, s: Json, v: Json, a: seq<Step>, b: seq<Step>)
    requires Acyclic(d) && d.good(s)
    ensures Evaluate(d, s, v, a + b) == Moved(a, Evaluate(d, s, v, b))
    decreases Level(v), v, d.rank(s), 4
  {
    if Read(d.rules, s).Some? {
      var k := Read(d.rules, s).value;
      PartsMove(d, s, k, v, a, b);
      SequenceMoves(a, Parts(d, s, k, v, a + b), Parts(d, s, k, v, b));
    }
  }

  /** Validity exists: the evaluator's own verdict satisfies the keyword equations. */
  lemma ValidityExists(d: Document) returns (W: Validity)
    requires Acyclic(d) && Proper(d)
    ensures IsValidity(d, W)
  {
    W := (s: Json, v: Json) => if d.good(s) then Evaluate(d, s, v, []) == Some([]) else false;
    forall s, v, at | d.good(s) ensures Agrees(Evaluate(d, s, v, at), W(s, v)) {
      Relocates(d, s, v, at, []);
      assert at + [] == at;
    }
    forall s, v | d.good(s) && Read(d.rules, s).Some? ensures W(s, v) <==> Satisfies(d, W, s, v) {
      KeywordsMean(d, W, s, v, []);
    }
  }

  /** There is only one validity. */
  lemma ValidityUnique(d: Document, V: Validity, W: Validity, s: Json, v: Json)
    requires Acyclic(d) && Proper(d) && IsValidity(d, V) && IsValidity(d, W) && d.good(s)
    ensures V(s, v) <==> W(s, v)
  {
    EvaluatorCorrect(d, V, s, v, []);
    EvaluatorCorrect(d, W, s, v, []);
  }

  ghost predicate SameDocument(d: Document, e: Document) {
    d.root == e.root && d.rules == e.rules && d.search == e.search && d.dateTime == e.dateTime
  }

  /** The verdict does not depend on the rank, nor on which other schemas are in use. */
  lemma RankIndependent(d: Document, e: Document, s: Json, v: Json)
    requires Acyclic(d) && Proper(d) && Acyclic(e) && Proper(e) && SameDocument(d, e) && d.good(s) && e.good(s)
    ensures Evaluate(d, s, v, []) == Some([]) <==> Evaluate(e, s, v, []) == Some([])
  {
    var both := d.(good := x => d.good(x) && e.good(x));
    forall a, b | both.good(a) && InPlace(both, a, b) ensures both.good(b) && both.rank(b) < both.rank(a) {
      assert InPlace(d, a, b) && InPlace(e, a, b);
    }
    forall a, b | both.good(a) && Below(both, a, b) ensures both.good(b) { assert Below(d, a, b) && Below(e, a, b); }
    forall a | both.good(a) ensures Readable(both, a) { assert Readable(d, a); }
    var V := ValidityExists(d);
    var W := ValidityExists(e);
    Narrower(d, both, V);
    Narrower(e, both, W);
    ValidityUnique(both, V, W, s, v);
    EvaluatorCorrect(d, V, s, v, []);
    EvaluatorCorrect(e, W, s, v, []);
  }

  lemma Narrower(d: Document, both: Document, W: Validity)
    requires SameDocument(d, both) && IsValidity(d, W) && forall s :: both.good(s) ==> d.good(s)
    ensures IsValidity(both, W)
  {
    forall s, v | both.good(s) && Read(d.rules, s).Some? ensures W(s, v) <==> Satisfies(both, W, s, v) {
      assert Satisfies(both, W, s, v) == Satisfies(d, W, s, v);
    }
  }
}
