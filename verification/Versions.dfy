/** The version order of the framework registry: the key comparison is the precedence of section 11 of
    Semantic Versioning 2.0.0, and refines the coarse order used for server versions. */
module Versions {
  import Lex

  // ---------------------------------------------------------------- reading a version

  /** `str.partition("-")`. */
  function UpToDash(s: string): string {
    if s == [] || s[0] == '-' then [] else [s[0]] + UpToDash(s[1..])
  }

  predicate HasDash(s: string) { '-' in s }

  function AfterDash(s: string): string {
    if s == [] then [] else if s[0] == '-' then s[1..] else AfterDash(s[1..])
  }

  function SplitDots(s: string): (parts: seq<string>)
    ensures |parts| >= 1
  {
    if s == [] then [[]]
    else
      var rest := SplitDots(s[1..]);
      if s[0] == '.' then [[]] + rest else [[s[0]] + rest[0]] + rest[1..]
  }

  predicate IsDigit(c: char) { '0' <= c <= '9' }

  predicate Digits(s: string) {
    s != [] && forall i :: 0 <= i < |s| ==> IsDigit(s[i])
  }

  function Value(c: char): nat {
    if IsDigit(c) then c as int - '0' as int else 0
  }

  function Decimal(s: string): nat {
    if s == [] then 0 else 10 * Decimal(s[..|s| - 1]) + Value(s[|s| - 1])
  }

  /** A prerelease identifier: numeric, or text. */
  datatype Identifier = Numeric(number: nat) | Text(text: string)

  function AsIdentifier(part: string): Identifier {
    if Digits(part) then Numeric(Decimal(part)) else Text(part)
  }

  function Map<S, T>(f: S -> T, s: seq<S>): (r: seq<T>)
    ensures |r| == |s| && forall i :: 0 <= i < |s| ==> r[i] == f(s[i])
  {
    seq(|s|, i requires 0 <= i < |s| => f(s[i]))
  }

  /** The numbers as written. */
  function Numbers(v: string): seq<string> { SplitDots(UpToDash(v)) }

  /** Padded with zeros to three numbers. */
  function Core(v: string): seq<nat> {
    Map(Decimal, Numbers(v)) + seq(if |Numbers(v)| < 3 then 3 - |Numbers(v)| else 0, _ => 0)
  }

  function Prerelease(v: string): seq<string> { SplitDots(AfterDash(v)) }

  /** `_version_key`. */
  datatype Key = Key(core: seq<nat>, stable: bool, identifiers: seq<Identifier>)

  function VersionKey(v: string): Key {
    if HasDash(v) then Key(Core(v), false, Map(AsIdentifier, Prerelease(v))) else Key(Core(v), true, [])
  }

  // ---------------------------------------------------------------- comparing keys

  function CompareNumbers(a: nat, b: nat): int { a - b }

  function CompareChars(a: char, b: char): int { a as int - b as int }

  function CompareFlags(a: bool, b: bool): int { if a == b then 0 else if a then 1 else -1 }

  function CompareIdentifiers(a: Identifier, b: Identifier): int {
    match (a, b)
    case (Numeric(x), Numeric(y)) => x - y
    case (Text(x), Text(y)) => Lex.Compare(CompareChars, x, y)
    case (Numeric(_), Text(_)) => -1
    case (Text(_), Numeric(_)) => 1
  }

  function CompareCores(a: Key, b: Key): int { Lex.Compare(CompareNumbers, a.core, b.core) }

  function CompareStable(a: Key, b: Key): int { CompareFlags(a.stable, b.stable) }

  function CompareRest(a: Key, b: Key): int { Lex.Compare(CompareIdentifiers, a.identifiers, b.identifiers) }

  /** Python's comparison of the key tuples. */
  function CompareKeys(a: Key, b: Key): int {
    Lex.Then(CompareCores(a, b), CompareTail(a, b))
  }

  function CompareTail(a: Key, b: Key): int { Lex.Then(CompareStable(a, b), CompareRest(a, b)) }

  /** `semver_key`: the numbers, and whether the version is stable. */
  function CompareCoarse(a: Key, b: Key): int {
    Lex.Then(CompareCores(a, b), CompareStable(a, b))
  }

  lemma IdentifierTransitive(a: Identifier, b: Identifier, c: Identifier)
    requires CompareIdentifiers(a, b) <= 0 && CompareIdentifiers(b, c) <= 0
    ensures CompareIdentifiers(a, c) <= 0
  {
    if a.Text? && b.Text? && c.Text? { Lex.Transitive(CompareChars, a.text, b.text, c.text); }
  }

  lemma IdentifierSymmetric(a: Identifier, b: Identifier)
    ensures CompareIdentifiers(a, a) == 0
    ensures CompareIdentifiers(a, b) < 0 <==> CompareIdentifiers(b, a) > 0
  {
    if a.Text? { Lex.Reflexive(CompareChars, a.text); }
    if a.Text? && b.Text? { Lex.Antisymmetric(CompareChars, a.text, b.text); }
  }

  lemma IdentifierOrder()
    ensures Lex.Ordering(CompareIdentifiers)
  {
    forall a, b ensures CompareIdentifiers(a, a) == 0 && (CompareIdentifiers(a, b) < 0 <==> CompareIdentifiers(b, a) > 0) {
      IdentifierSymmetric(a, b);
    }
    forall a, b, c | CompareIdentifiers(a, b) <= 0 && CompareIdentifiers(b, c) <= 0 ensures CompareIdentifiers(a, c) <= 0 {
      IdentifierTransitive(a, b, c);
    }
  }

  lemma CoresOrder()
    ensures Lex.Ordering(CompareCores)
  {
    Lex.Lifts(CompareNumbers);
    var lifted := (a: seq<nat>, b: seq<nat>) => Lex.Compare(CompareNumbers, a, b);
    assert forall a: Key, b: Key :: CompareCores(a, b) == lifted(a.core, b.core);
  }

  lemma RestOrder()
    ensures Lex.Ordering(CompareRest)
  {
    IdentifierOrder();
    Lex.Lifts(CompareIdentifiers);
    var lifted := (a: seq<Identifier>, b: seq<Identifier>) => Lex.Compare(CompareIdentifiers, a, b);
    assert forall a: Key, b: Key :: CompareRest(a, b) == lifted(a.identifiers, b.identifiers);
  }

  lemma TailOrder()
    ensures Lex.Ordering(CompareTail)
  {
    RestOrder();
    Lex.ThenOrders(CompareStable, CompareRest);
    Lex.Transfer((a: Key, b: Key) => Lex.Then(CompareStable(a, b), CompareRest(a, b)), CompareTail);
  }

  /** The key order is a total preorder. */
  lemma KeyOrder()
    ensures Lex.Ordering(CompareKeys)
  {
    CoresOrder();
    TailOrder();
    Lex.ThenOrders(CompareCores, CompareTail);
    Lex.Transfer((a: Key, b: Key) => Lex.Then(CompareCores(a, b), CompareTail(a, b)), CompareKeys);
  }

  /** The key order refines the coarse one. */
  lemma Refines(a: Key, b: Key)
    ensures CompareCoarse(a, b) < 0 ==> CompareKeys(a, b) < 0
    ensures CompareKeys(a, b) <= 0 ==> CompareCoarse(a, b) <= 0
  {}

  // ---------------------------------------------------------------- section 11

  /** Section 11.4: numeric identifiers numerically and below others, which go by ASCII order. */
  ghost predicate LowerIdentifier(x: string, y: string) {
    if Digits(x) then Digits(y) ==> Decimal(x) < Decimal(y)
    else !Digits(y) && LowerText(x, y)
  }

  ghost predicate LowerText(x: string, y: string) {
    || x < y
    || exists k: nat :: k < |x| && k < |y| && x[..k] == y[..k] && x[k] < y[k]
  }

  predicate SameIdentifier(x: string, y: string) {
    if Digits(x) && Digits(y) then Decimal(x) == Decimal(y) else x == y
  }

  ghost predicate LowerField(a: seq<string>, b: seq<string>, k: nat) {
    k < |a| && k < |b| && (forall j :: 0 <= j < k ==> SameIdentifier(a[j], b[j])) && LowerIdentifier(a[k], b[k])
  }

  /** Section 11.4, left to right; 11.4.4: more fields are higher if the others are equal. */
  ghost predicate LowerPrerelease(a: seq<string>, b: seq<string>) {
    || (|a| < |b| && forall j :: 0 <= j < |a| ==> SameIdentifier(a[j], b[j]))
    || exists k: nat :: LowerField(a, b, k)
  }

  ghost predicate LowerNumber(a: seq<nat>, b: seq<nat>, k: nat) {
    k < |a| && k < |b| && a[..k] == b[..k] && a[k] < b[k]
  }

  /** Section 11.2 and 11.3: numbers first, then a prerelease below the release. */
  ghost predicate LowerPrecedence(a: string, b: string) {
    || (exists k: nat :: LowerNumber(Core(a), Core(b), k))
    || (Core(a) == Core(b) && HasDash(a) && (!HasDash(b) || LowerPrerelease(Prerelease(a), Prerelease(b))))
  }

  lemma TextMeans(x: string, y: string)
    ensures Lex.Compare(CompareChars, x, y) < 0 <==> LowerText(x, y)
    ensures Lex.Compare(CompareChars, x, y) == 0 <==> x == y
  {
    Lex.CompareMeans(CompareChars, x, y);
    if k: nat :| Lex.SmallerAt(CompareChars, x, y, k) { assert x[..k] == y[..k]; }
    if k: nat :| k < |x| && k < |y| && x[..k] == y[..k] && x[k] < y[k] {
      forall j | 0 <= j < k ensures CompareChars(x[j], y[j]) == 0 { assert x[..k][j] == y[..k][j]; }
      assert Lex.SmallerAt(CompareChars, x, y, k);
    }
    if Lex.RunsOut(CompareChars, x, y) { assert x == y[..|x|]; }
  }

  lemma IdentifierMeans(x: string, y: string)
    ensures CompareIdentifiers(AsIdentifier(x), AsIdentifier(y)) < 0 <==> LowerIdentifier(x, y)
    ensures CompareIdentifiers(AsIdentifier(x), AsIdentifier(y)) == 0 <==> SameIdentifier(x, y)
  {
    TextMeans(x, y);
  }

  lemma PrereleaseMeans(a: seq<string>, b: seq<string>)
    ensures Lex.Compare(CompareIdentifiers, Map(AsIdentifier, a), Map(AsIdentifier, b)) < 0 <==> LowerPrerelease(a, b)
  {
    var x, y := Map(AsIdentifier, a), Map(AsIdentifier, b);
    Lex.CompareMeans(CompareIdentifiers, x, y);
    forall j: nat | j < |a| && j < |b|
      ensures CompareIdentifiers(x[j], y[j]) < 0 <==> LowerIdentifier(a[j], b[j])
      ensures CompareIdentifiers(x[j], y[j]) == 0 <==> SameIdentifier(a[j], b[j])
    {
      IdentifierMeans(a[j], b[j]);
    }
    if k: nat :| Lex.SmallerAt(CompareIdentifiers, x, y, k) { assert LowerField(a, b, k); }
    if k: nat :| LowerField(a, b, k) { assert Lex.SmallerAt(CompareIdentifiers, x, y, k); }
    if Lex.RunsOut(CompareIdentifiers, x, y) {
      forall j | 0 <= j < |a| ensures SameIdentifier(a[j], b[j]) { assert CompareIdentifiers(x[j], y[j]) == 0; }
    }
    if |a| < |b| && forall j :: 0 <= j < |a| ==> SameIdentifier(a[j], b[j]) {
      forall j | 0 <= j < |x| ensures CompareIdentifiers(x[j], y[j]) == 0 { assert SameIdentifier(a[j], b[j]); }
    }
  }

  lemma CoreMeans(a: seq<nat>, b: seq<nat>)
    requires |a| == |b|
    ensures Lex.Compare(CompareNumbers, a, b) < 0 <==> exists k: nat :: LowerNumber(a, b, k)
    ensures Lex.Compare(CompareNumbers, a, b) == 0 <==> a == b
  {
    Lex.CompareMeans(CompareNumbers, a, b);
    if k: nat :| Lex.SmallerAt(CompareNumbers, a, b, k) { assert a[..k] == b[..k]; assert LowerNumber(a, b, k); }
    if k: nat :| LowerNumber(a, b, k) {
      forall j | 0 <= j < k ensures CompareNumbers(a[j], b[j]) == 0 { assert a[..k][j] == b[..k][j]; }
      assert Lex.SmallerAt(CompareNumbers, a, b, k);
    }
  }

  /** Key comparison is precedence; missing numbers count as zero. */
  lemma KeyIsPrecedence(a: string, b: string)
    requires |Numbers(a)| <= 3 && |Numbers(b)| <= 3
    ensures CompareKeys(VersionKey(a), VersionKey(b)) < 0 <==> LowerPrecedence(a, b)
  {
    CoreMeans(Core(a), Core(b));
    if HasDash(a) && HasDash(b) { PrereleaseMeans(Prerelease(a), Prerelease(b)); }
  }

  /** The tested range is accepted exactly when the latest version does not precede the minimum. */
  lemma RangeAccepted(minimum: string, latest: string)
    requires Conforms(minimum) && Conforms(latest)
    ensures CompareKeys(VersionKey(minimum), VersionKey(latest)) <= 0 <==> !LowerPrecedence(latest, minimum)
  {
    KeyOrder();
    KeyIsPrecedence(latest, minimum);
  }

  // ---------------------------------------------------------------- when a key identifies its text

  /** `0`, or digits that do not begin with a zero. */
  predicate Numeral(s: string) { Digits(s) && (s[0] == '0' ==> |s| == 1) }

  predicate IsLetter(c: char) { 'a' <= c <= 'z' || 'A' <= c <= 'Z' }

  predicate IsField(s: string) {
    s != [] && forall i :: 0 <= i < |s| ==> IsDigit(s[i]) || IsLetter(s[i]) || s[i] == '-'
  }

  /** `VERSION_RE`: three numerals, and after a dash at least one field, each separated by dots. */
  predicate Conforms(v: string) {
    && |Numbers(v)| == 3
    && (forall i :: 0 <= i < 3 ==> Numeral(Numbers(v)[i]))
    && (HasDash(v) ==> forall i :: 0 <= i < |Prerelease(v)| ==> IsField(Prerelease(v)[i]))
  }

  predicate Undotted(part: string) { '.' !in part }

  function JoinDots(parts: seq<string>): string
    requires parts != []
  {
    if |parts| == 1 then parts[0] else parts[0] + "." + JoinDots(parts[1..])
  }

  lemma {:induction false} SplitThenJoin(s: string)
    ensures JoinDots(SplitDots(s)) == s
    ensures forall i :: 0 <= i < |SplitDots(s)| ==> Undotted(SplitDots(s)[i])
  {
    if s != [] {
      SplitThenJoin(s[1..]);
      var rest := SplitDots(s[1..]);
      assert s == [s[0]] + s[1..];
      if s[0] == '.' {
        assert ([[]] + rest)[1..] == rest;
      } else {
        assert ([[s[0]] + rest[0]] + rest[1..])[1..] == rest[1..];
      }
    }
  }

  /** A dot in front starts a new part. */
  lemma {:induction false} SplitFront(part: string, rest: string)
    requires Undotted(part)
    ensures SplitDots(part) == [part]
    ensures SplitDots(part + "." + rest) == [part] + SplitDots(rest)
  {
    var s := part + "." + rest;
    if part == [] {
      assert s[1..] == rest;
    } else {
      SplitFront(part[1..], rest);
      assert s[1..] == part[1..] + "." + rest;
      assert part == [part[0]] + part[1..];
    }
  }

  lemma {:induction false} JoinThenSplit(parts: seq<string>)
    requires parts != [] && forall i :: 0 <= i < |parts| ==> Undotted(parts[i])
    ensures SplitDots(JoinDots(parts)) == parts
  {
    if |parts| == 1 {
      SplitFront(parts[0], []);
    } else {
      JoinThenSplit(parts[1..]);
      SplitFront(parts[0], JoinDots(parts[1..]));
      assert parts == [parts[0]] + parts[1..];
    }
  }

  lemma {:induction false} Dash(core: string, rest: string)
    requires '-' !in core
    ensures var v := core + "-" + rest; HasDash(v) && UpToDash(v) == core && AfterDash(v) == rest
  {
    var v := core + "-" + rest;
    if core != [] {
      assert v[1..] == core[1..] + "-" + rest;
      Dash(core[1..], rest);
      assert core == [core[0]] + core[1..];
    }
    assert v[|core|] == '-';
  }

  /** A version is its numbers, and its prerelease after a dash. */
  lemma {:induction false} Partition(v: string)
    ensures '-' !in UpToDash(v)
    ensures v == if HasDash(v) then UpToDash(v) + "-" + AfterDash(v) else UpToDash(v)
  {
    if v != [] && v[0] != '-' {
      Partition(v[1..]);
      assert v == [v[0]] + v[1..];
    } else if v != [] {
      assert v == [] + "-" + v[1..];
    }
  }

  lemma {:induction false} Positive(s: string)
    requires Digits(s) && s[0] != '0'
    ensures Decimal(s) >= 1
  {
    if |s| > 1 { Positive(s[..|s| - 1]); }
  }

  /** Without leading zeros the value determines the digits. */
  lemma {:induction false} NumeralsDiffer(x: string, y: string)
    requires Numeral(x) && Numeral(y) && Decimal(x) == Decimal(y)
    ensures x == y
  {
    var s, t := x[..|x| - 1], y[..|y| - 1];
    assert Decimal(s) == Decimal(t) && Value(x[|x| - 1]) == Value(y[|y| - 1]);
    if s != [] { Positive(s); }
    if t != [] { Positive(t); }
    if s != [] && t != [] { NumeralsDiffer(s, t); }
    assert x == s + [x[|x| - 1]] && y == t + [y[|y| - 1]];
  }

  /** A leading zero does not change what a numeric identifier stands for. */
  lemma LeadingZero(part: string)
    requires Digits(part)
    ensures AsIdentifier("0" + part) == AsIdentifier(part) && "0" + part != part
  {
    ZeroInFront(part);
    assert |"0" + part| == |part| + 1;
  }

  lemma {:induction false} ZeroInFront(s: string)
    ensures Decimal("0" + s) == Decimal(s)
  {
    var z := "0" + s;
    if s == [] {
      assert z[..0] == [];
    } else {
      ZeroInFront(s[..|s| - 1]);
      assert z[..|z| - 1] == "0" + s[..|s| - 1];
    }
  }

  lemma SameCore(a: string, b: string)
    requires Conforms(a) && Conforms(b) && Core(a) == Core(b)
    ensures UpToDash(a) == UpToDash(b)
  {
    forall i | 0 <= i < 3 ensures Numbers(a)[i] == Numbers(b)[i] {
      assert Core(a)[i] == Decimal(Numbers(a)[i]) && Core(b)[i] == Decimal(Numbers(b)[i]);
      NumeralsDiffer(Numbers(a)[i], Numbers(b)[i]);
    }
    assert Numbers(a) == Numbers(b);
    SplitThenJoin(UpToDash(a));
    SplitThenJoin(UpToDash(b));
  }

  lemma SamePrerelease(a: string, b: string)
    requires Map(AsIdentifier, Prerelease(a)) == Map(AsIdentifier, Prerelease(b))
    requires forall i :: 0 <= i < |Prerelease(a)| ==> !Digits(Prerelease(a)[i])
    ensures AfterDash(a) == AfterDash(b)
  {
    var x, y := Map(AsIdentifier, Prerelease(a)), Map(AsIdentifier, Prerelease(b));
    forall i | 0 <= i < |x| ensures Prerelease(a)[i] == Prerelease(b)[i] {
      assert x[i] == AsIdentifier(Prerelease(a)[i]) && y[i] == AsIdentifier(Prerelease(b)[i]);
    }
    assert Prerelease(a) == Prerelease(b);
    SplitThenJoin(AfterDash(a));
    SplitThenJoin(AfterDash(b));
  }

  /** `a` with a zero in front of its prerelease identifier `i`. */
  function Zeroed(a: string, i: nat): string
    requires i < |Prerelease(a)|
  {
    UpToDash(a) + "-" + JoinDots(Prerelease(a)[i := "0" + Prerelease(a)[i]])
  }

  lemma ZeroedCollides(a: string, i: nat)
    requires Conforms(a) && HasDash(a) && i < |Prerelease(a)| && Digits(Prerelease(a)[i])
    ensures var b := Zeroed(a, i); Conforms(b) && VersionKey(b) == VersionKey(a) && b != a
  {
    var parts := Prerelease(a);
    var changed := parts[i := "0" + parts[i]];
    SplitThenJoin(AfterDash(a));
    JoinThenSplit(changed);
    Partition(a);
    Dash(UpToDash(a), JoinDots(changed));
    LeadingZero(parts[i]);
    assert Prerelease(Zeroed(a, i)) == changed;
    assert IsField(parts[i]);
    assert Map(AsIdentifier, changed) == Map(AsIdentifier, parts);
  }

  predicate HasNumericIdentifier(v: string) {
    HasDash(v) && exists i :: 0 <= i < |Prerelease(v)| && Digits(Prerelease(v)[i])
  }

  /** Among conforming versions, a key identifies its text exactly when no prerelease identifier is
      numeric: the pattern forbids leading zeros in the numbers but not there. */
  lemma KeyIdentifies(a: string)
    requires Conforms(a)
    ensures (forall b :: Conforms(b) && VersionKey(b) == VersionKey(a) ==> b == a) <==> !HasNumericIdentifier(a)
  {
    if HasNumericIdentifier(a) {
      var i :| 0 <= i < |Prerelease(a)| && Digits(Prerelease(a)[i]);
      ZeroedCollides(a, i);
    } else {
      forall b | Conforms(b) && VersionKey(b) == VersionKey(a) ensures b == a {
        SameCore(a, b);
        if HasDash(a) { SamePrerelease(a, b); }
        Partition(a);
        Partition(b);
      }
    }
  }
}
