/** Lexicographic comparison of sequences, as Python compares strings, bytes and tuples. */
module Lex {

  /** A comparison that is a total preorder: negative, zero or positive. */
  ghost predicate Ordering<T(!new)>(compare: (T, T) -> int) {
    && (forall x :: compare(x, x) == 0)
    && (forall x, y :: compare(x, y) < 0 <==> compare(y, x) > 0)
    && (forall x, y, z :: compare(x, y) <= 0 && compare(y, z) <= 0 ==> compare(x, z) <= 0)
  }

  /** Only equal values compare as equal. */
  ghost predicate Strict<T(!new)>(compare: (T, T) -> int) {
    forall x, y :: compare(x, y) == 0 ==> x == y
  }

  function Compare<T>(compare: (T, T) -> int, a: seq<T>, b: seq<T>): int {
    if a == [] && b == [] then 0
    else if a == [] then -1
    else if b == [] then 1
    else if compare(a[0], b[0]) != 0 then compare(a[0], b[0])
    else Compare(compare, a[1..], b[1..])
  }

  lemma {:induction false} Reflexive<T(!new)>(compare: (T, T) -> int, a: seq<T>)
    requires Ordering(compare)
    ensures Compare(compare, a, a) == 0
  {
    if a != [] { Reflexive(compare, a[1..]); }
  }

  lemma {:induction false} Antisymmetric<T(!new)>(compare: (T, T) -> int, a: seq<T>, b: seq<T>)
    requires Ordering(compare)
    ensures Compare(compare, a, b) < 0 <==> Compare(compare, b, a) > 0
    ensures Compare(compare, a, b) == 0 <==> Compare(compare, b, a) == 0
  {
    if a != [] && b != [] { Antisymmetric(compare, a[1..], b[1..]); }
  }

  lemma {:induction false} Transitive<T(!new)>(compare: (T, T) -> int, a: seq<T>, b: seq<T>, c: seq<T>)
    requires Ordering(compare)
    requires Compare(compare, a, b) <= 0 && Compare(compare, b, c) <= 0
    ensures Compare(compare, a, c) <= 0
  {
    if a != [] && b != [] && c != [] {
      if compare(a[0], b[0]) == 0 && compare(b[0], c[0]) == 0 {
        assert compare(c[0], b[0]) == 0 && compare(b[0], a[0]) == 0;
        Transitive(compare, a[1..], b[1..], c[1..]);
      }
    }
  }

  lemma {:induction false} Equal<T(!new)>(compare: (T, T) -> int, a: seq<T>, b: seq<T>)
    requires Ordering(compare) && Strict(compare) && Compare(compare, a, b) == 0
    ensures a == b
  {
    if a != [] && b != [] { Equal(compare, a[1..], b[1..]); }
  }

  /** The lexicographic lifting of a total preorder is a total preorder, and keeps strictness. */
  lemma Lifts<T(!new)>(compare: (T, T) -> int)
    requires Ordering(compare)
    ensures Ordering((a: seq<T>, b: seq<T>) => Compare(compare, a, b))
    ensures Strict(compare) ==> Strict((a: seq<T>, b: seq<T>) => Compare(compare, a, b))
  {
    forall a: seq<T> { Reflexive(compare, a); }
    forall a: seq<T>, b: seq<T> { Antisymmetric(compare, a, b); }
    forall a: seq<T>, b: seq<T>, c: seq<T> | Compare(compare, a, b) <= 0 && Compare(compare, b, c) <= 0
      ensures Compare(compare, a, c) <= 0
    {
      Transitive(compare, a, b, c);
    }
    if Strict(compare) {
      forall a: seq<T>, b: seq<T> | Compare(compare, a, b) == 0 ensures a == b { Equal(compare, a, b); }
    }
  }

  predicate StrictlySorted<T>(compare: (T, T) -> int, s: seq<T>) {
    forall i, j :: 0 <= i < j < |s| ==> compare(s[i], s[j]) < 0
  }

  predicate Within<T(==)>(a: seq<T>, b: seq<T>) {
    forall i :: 0 <= i < |a| ==> a[i] in b
  }

  lemma IndexIn<T>(s: seq<T>, x: T) returns (i: nat)
    requires x in s
    ensures i < |s| && s[i] == x
  {
    i :| 0 <= i < |s| && s[i] == x;
  }

  lemma LaterIndex<T(!new)>(compare: (T, T) -> int, a: seq<T>, b: seq<T>, i: nat, k: nat)
    requires Ordering(compare) && StrictlySorted(compare, a) && i < |a| && k < |b| && b[k] == a[i]
    requires i <= |b| && forall j :: 0 <= j < i ==> a[j] == b[j]
    ensures i <= k && i < |b|
  {
    assert compare(a[i], a[i]) == 0;
  }

  /** Sorted sequences with the same elements that agree so far agree at the next position. */
  lemma NextSame<T(!new)>(compare: (T, T) -> int, a: seq<T>, b: seq<T>, i: nat)
    requires Ordering(compare) && StrictlySorted(compare, a) && StrictlySorted(compare, b) && Within(a, b) && Within(b, a)
    requires i < |a| && i <= |b| && forall j :: 0 <= j < i ==> a[j] == b[j]
    ensures i < |b| && a[i] == b[i]
  {
    var k := IndexIn(b, a[i]);
    LaterIndex(compare, a, b, i, k);
    var l := IndexIn(a, b[i]);
    LaterIndex(compare, b, a, i, l);
  }

  /** Of two strictly sorted sequences with the same elements, each is a prefix of the other. */
  lemma SortedSame<T(!new)>(compare: (T, T) -> int, a: seq<T>, b: seq<T>)
    requires Ordering(compare) && StrictlySorted(compare, a) && StrictlySorted(compare, b) && Within(a, b) && Within(b, a)
    ensures a <= b
  {
    for i := 0 to |a|
      invariant i <= |b| && forall j :: 0 <= j < i ==> a[j] == b[j]
    {
      NextSame(compare, a, b, i);
    }
  }

  lemma Below<T(!new)>(compare: (T, T) -> int, x: T, y: T, z: T)
    requires Ordering(compare) && compare(x, y) < 0 && compare(y, z) < 0
    ensures compare(x, z) < 0
  {
    if compare(x, z) >= 0 { assert compare(y, x) > 0; }
  }

  lemma StepSorted<T(!new)>(compare: (T, T) -> int, s: seq<T>, i: nat)
    requires Ordering(compare) && 0 < i < |s| && StrictlySorted(compare, s[..i]) && compare(s[i - 1], s[i]) < 0
    ensures StrictlySorted(compare, s[..i + 1])
  {
    forall j | 0 <= j < i ensures compare(s[j], s[i]) < 0 {
      if j < i - 1 {
        assert compare(s[..i][j], s[..i][i - 1]) < 0;
        Below(compare, s[j], s[i - 1], s[i]);
      }
    }
  }

  /** Neighbour by neighbour. */
  method IsStrictlySorted<T(!new)>(compare: (T, T) -> int, s: seq<T>) returns (sorted: bool)
    requires Ordering(compare)
    ensures sorted <==> StrictlySorted(compare, s)
  {
    if s == [] { return true; }
    for i := 1 to |s|
      invariant StrictlySorted(compare, s[..i])
    {
      if compare(s[i - 1], s[i]) >= 0 { return false; }
      StepSorted(compare, s, i);
    }
    assert s[..|s|] == s;
    sorted := true;
  }

  /** Largest first. */
  predicate Descending<T>(compare: (T, T) -> int, s: seq<T>) {
    forall i, j :: 0 <= i < j < |s| ==> compare(s[j], s[i]) < 0
  }

  function Insert<T>(compare: (T, T) -> int, x: T, s: seq<T>): seq<T> {
    if s == [] then [x] else if compare(x, s[0]) > 0 then [x] + s else [s[0]] + Insert(compare, x, s[1..])
  }

  lemma {:induction false} InsertMembers<T(!new)>(compare: (T, T) -> int, x: T, s: seq<T>, y: T)
    ensures y in Insert(compare, x, s) <==> y == x || y in s
  {
    if s != [] && compare(x, s[0]) <= 0 {
      InsertMembers(compare, x, s[1..], y);
      assert s == [s[0]] + s[1..];
    }
  }

  lemma InFront<T(!new)>(compare: (T, T) -> int, y: T, s: seq<T>)
    requires Descending(compare, s) && forall z :: z in s ==> compare(z, y) < 0
    ensures Descending(compare, [y] + s)
  {
    var t := [y] + s;
    forall i, j | 0 <= i < j < |t| ensures compare(t[j], t[i]) < 0 { assert t[j] == s[j - 1]; }
  }

  lemma {:induction false} InsertDescends<T(!new)>(compare: (T, T) -> int, x: T, s: seq<T>)
    requires Ordering(compare) && Strict(compare) && Descending(compare, s) && x !in s
    ensures Descending(compare, Insert(compare, x, s))
  {
    if s != [] {
      assert forall z :: z in s[1..] ==> compare(z, s[0]) < 0;
      if compare(x, s[0]) > 0 {
        forall z | z in s ensures compare(z, x) < 0 {
          if z != s[0] { assert z in s[1..]; Below(compare, z, s[0], x); }
        }
        InFront(compare, x, s);
      } else {
        InsertDescends(compare, x, s[1..]);
        assert compare(x, s[0]) < 0;
        forall z | z in Insert(compare, x, s[1..]) ensures compare(z, s[0]) < 0 { InsertMembers(compare, x, s[1..], z); }
        InFront(compare, s[0], Insert(compare, x, s[1..]));
      }
    }
  }

  method SortDescending<T(!new, ==)>(compare: (T, T) -> int, elements: set<T>) returns (s: seq<T>)
    requires Ordering(compare) && Strict(compare)
    ensures Descending(compare, s) && forall x :: x in s <==> x in elements
  {
    var rest := elements;
    s := [];
    while rest != {}
      invariant Descending(compare, s) && rest <= elements
      invariant forall x :: x in s <==> x in elements && x !in rest
      decreases |rest|
    {
      var x :| x in rest;
      InsertDescends(compare, x, s);
      forall y ensures y in Insert(compare, x, s) <==> y == x || y in s { InsertMembers(compare, x, s, y); }
      s := Insert(compare, x, s);
      rest := rest - {x};
    }
  }

  /** The first position where two sequences differ is `k`, and `a` is smaller there. */
  ghost predicate SmallerAt<T>(compare: (T, T) -> int, a: seq<T>, b: seq<T>, k: nat) {
    k < |a| && k < |b| && (forall j :: 0 <= j < k ==> compare(a[j], b[j]) == 0) && compare(a[k], b[k]) < 0
  }

  /** `a` runs out first, without a difference. */
  ghost predicate RunsOut<T>(compare: (T, T) -> int, a: seq<T>, b: seq<T>) {
    |a| < |b| && forall j :: 0 <= j < |a| ==> compare(a[j], b[j]) == 0
  }

  /** Lexicographic comparison, said directly. */
  lemma {:induction false} CompareMeans<T(!new)>(compare: (T, T) -> int, a: seq<T>, b: seq<T>)
    ensures Compare(compare, a, b) < 0 <==> RunsOut(compare, a, b) || exists k: nat :: SmallerAt(compare, a, b, k)
    ensures Compare(compare, a, b) == 0 <==> |a| == |b| && forall j :: 0 <= j < |a| ==> compare(a[j], b[j]) == 0
  {
    if a != [] && b != [] {
      var x, y := a[1..], b[1..];
      CompareMeans(compare, x, y);
      assert forall j :: 0 <= j < |x| ==> x[j] == a[j + 1];
      assert forall j :: 0 <= j < |y| ==> y[j] == b[j + 1];
      if compare(a[0], b[0]) < 0 { assert SmallerAt(compare, a, b, 0); }
      if compare(a[0], b[0]) == 0 {
        if k: nat :| SmallerAt(compare, x, y, k) {
          forall j | 0 <= j < k + 1 ensures compare(a[j], b[j]) == 0 { if j > 0 { assert compare(x[j - 1], y[j - 1]) == 0; } }
          assert SmallerAt(compare, a, b, k + 1);
        }
        if k: nat :| SmallerAt(compare, a, b, k) { assert SmallerAt(compare, x, y, k - 1); }
        if RunsOut(compare, x, y) {
          forall j | 0 <= j < |a| ensures compare(a[j], b[j]) == 0 { if j > 0 { assert compare(x[j - 1], y[j - 1]) == 0; } }
        }
        if Compare(compare, x, y) == 0 {
          forall j | 0 <= j < |a| ensures compare(a[j], b[j]) == 0 { if j > 0 { assert compare(x[j - 1], y[j - 1]) == 0; } }
        }
      }
    }
  }

  /** Comparing by one key, then by another. */
  function Then(first: int, second: int): int {
    if first != 0 then first else second
  }

  lemma ThenOrders<T(!new)>(f: (T, T) -> int, g: (T, T) -> int)
    requires Ordering(f) && Ordering(g)
    ensures Ordering((x: T, y: T) => Then(f(x, y), g(x, y)))
  {
    forall x: T, y: T, z: T | Then(f(x, y), g(x, y)) <= 0 && Then(f(y, z), g(y, z)) <= 0 ensures Then(f(x, z), g(x, z)) <= 0 {
      assert f(x, z) <= 0;
      if f(x, z) == 0 { assert f(z, x) == 0 && f(y, x) <= 0 && f(z, y) <= 0; }
    }
  }

  lemma Transfer<T(!new)>(f: (T, T) -> int, g: (T, T) -> int)
    requires Ordering(f) && forall x, y :: f(x, y) == g(x, y)
    ensures Ordering(g)
  {
    forall x, y, z | g(x, y) <= 0 && g(y, z) <= 0 ensures g(x, z) <= 0 { assert f(x, y) <= 0 && f(y, z) <= 0 && f(x, z) <= 0; }
    forall x ensures g(x, x) == 0 { assert f(x, x) == 0; }
    forall x, y ensures g(x, y) < 0 <==> g(y, x) > 0 { assert f(x, y) < 0 <==> f(y, x) > 0; }
  }
}
