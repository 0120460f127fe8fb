/** Merging the evidence trees of all domains into one output tree with a manifest. */
module Aggregate {
  import opened Options

  const MAXIMUM_TOTAL_BYTES := 768 * 1024 * 1024
  const MAXIMUM_FILES := 8192

  type Path = seq<nat>
  type bytes = seq<nat>
  type Digest = nat

  datatype Item = Item(path: Path, data: bytes)

  /** One input tree: its files in path order, and whether the walk met no link, special file or unsafe
      name. */
  datatype Domain = Domain(files: seq<Item>, sound: bool)

  /** The digest function, how a manifest is written, and the name it is written under. */
  datatype Context = Context(hash: bytes -> Digest, render: map<Path, Digest> -> bytes, manifest: Path)

  // ---------------------------------------------------------------- what can be merged

  /** Two files can be in one tree: equal paths have equal digests, and neither is above the other. */
  predicate Fits(c: Context, a: Item, b: Item) {
    && (a.path == b.path ==> c.hash(a.data) == c.hash(b.data))
    && !(a.path < b.path) && !(b.path < a.path)
  }

  predicate Compatible(c: Context, items: seq<Item>) {
    forall i, j :: 0 <= i < |items| && 0 <= j < |items| ==> Fits(c, items[i], items[j])
  }

  function Total(items: seq<Item>): nat {
    if items == [] then 0 else Total(items[..|items| - 1]) + |items[|items| - 1].data|
  }

  /** The merged files; the first domain to bring a path provides it. */
  function Union(items: seq<Item>): map<Path, bytes> {
    if items == [] then map[]
    else
      var before, last := Union(items[..|items| - 1]), items[|items| - 1];
      if last.path in before then before else before[last.path := last.data]
  }

  function AllItems(domains: seq<Domain>): seq<Item> {
    if domains == [] then [] else AllItems(domains[..|domains| - 1]) + domains[|domains| - 1].files
  }

  predicate Enumerable(d: Domain) {
    d.sound && |d.files| <= MAXIMUM_FILES
  }

  /** When a merge succeeds. */
  predicate Mergeable(c: Context, domains: seq<Domain>) {
    var items := AllItems(domains);
    && (forall i :: 0 <= i < |domains| ==> Enumerable(domains[i]))
    && Compatible(c, items) && Total(items) <= MAXIMUM_TOTAL_BYTES
    && forall i :: 0 <= i < |items| ==> !(c.manifest < items[i].path)
  }

  function Digests(c: Context, files: map<Path, bytes>): map<Path, Digest> {
    map p | p in files :: c.hash(files[p])
  }

  /** The output tree: the union, and the manifest over whatever was at its path. */
  function Output(c: Context, domains: seq<Domain>): map<Path, bytes> {
    var files := Union(AllItems(domains));
    files[c.manifest := c.render(Digests(c, files))]
  }

  // ---------------------------------------------------------------- the union

  ghost predicate Provides(items: seq<Item>, p: Path, data: bytes) {
    exists i :: 0 <= i < |items| && items[i] == Item(p, data)
  }

  ghost predicate HasPath(items: seq<Item>, p: Path) {
    exists i :: 0 <= i < |items| && items[i].path == p
  }

  /** The union holds exactly the paths of the items, each with the data of one of them. */
  lemma {:induction false} UnionHolds(items: seq<Item>, p: Path)
    ensures p in Union(items) <==> HasPath(items, p)
    ensures p in Union(items) ==> Provides(items, p, Union(items)[p])
  {
    if items != [] {
      var n := |items| - 1;
      var before, last := items[..n], items[n];
      UnionHolds(before, p);
      if HasPath(before, p) { var i :| 0 <= i < n && before[i].path == p; assert items[i].path == p; }
      if HasPath(items, p) { var i :| 0 <= i <= n && items[i].path == p; assert i < n ==> before[i].path == p; }
      if p in Union(before) {
        var i :| 0 <= i < n && before[i] == Item(p, Union(before)[p]);
        assert items[i] == Item(p, Union(before)[p]);
      } else if p == last.path {
        assert items[n] == Item(p, last.data);
      }
    }
  }

  lemma UnionDigest(c: Context, items: seq<Item>, i: nat)
    requires Compatible(c, items) && i < |items|
    ensures items[i].path in Union(items) && c.hash(Union(items)[items[i].path]) == c.hash(items[i].data)
  {
    var p := items[i].path;
    UnionHolds(items, p);
    assert HasPath(items, p);
    var k :| 0 <= k < |items| && items[k] == Item(p, Union(items)[p]);
    assert Fits(c, items[i], items[k]);
  }

  /** A file that shares a path with nothing incompatible can be added. */
  lemma Extend(c: Context, items: seq<Item>, x: Item)
    requires Compatible(c, items)
    requires forall q :: q in Union(items) ==> !(q < x.path) && !(x.path < q)
    requires x.path in Union(items) ==> c.hash(Union(items)[x.path]) == c.hash(x.data)
    ensures Compatible(c, items + [x])
  {
    var all := items + [x];
    forall i | 0 <= i < |items| ensures Fits(c, items[i], x) && Fits(c, x, items[i]) { UnionDigest(c, items, i); }
    forall i, j | 0 <= i < |all| && 0 <= j < |all| ensures Fits(c, all[i], all[j]) {
      if i < |items| && j < |items| { assert Fits(c, items[i], items[j]); }
    }
  }

  lemma NotAbove(c: Context, items: seq<Item>, x: Item, q: Path)
    requires q in Union(items) && (q < x.path || x.path < q)
    ensures !Compatible(c, items + [x])
  {
    UnionHolds(items, q);
    var i :| 0 <= i < |items| && items[i].path == q;
    var all := items + [x];
    assert all[i] == items[i] && all[|items|] == x;
    assert !Fits(c, all[i], all[|items|]);
  }

  lemma NotSame(c: Context, items: seq<Item>, x: Item)
    requires x.path in Union(items) && c.hash(Union(items)[x.path]) != c.hash(x.data)
    ensures !Compatible(c, items + [x])
  {
    UnionHolds(items, x.path);
    var i :| 0 <= i < |items| && items[i] == Item(x.path, Union(items)[x.path]);
    var all := items + [x];
    assert all[i] == items[i] && all[|items|] == x;
    assert !Fits(c, all[i], all[|items|]);
  }

  lemma Prefixes(c: Context, a: seq<Item>, b: seq<Item>)
    requires a <= b
    ensures Compatible(c, b) ==> Compatible(c, a)
    ensures Total(a) <= Total(b)
  {
    if Compatible(c, b) {
      forall i, j | 0 <= i < |a| && 0 <= j < |a| ensures Fits(c, a[i], a[j]) { assert Fits(c, b[i], b[j]); }
    }
    TotalPrefix(a, b);
  }

  lemma {:induction false} TotalPrefix(a: seq<Item>, b: seq<Item>)
    requires a <= b
    ensures Total(a) <= Total(b)
    decreases |b|
  {
    if |a| < |b| { TotalPrefix(a, b[..|b| - 1]); } else { assert a == b; }
  }

  // ---------------------------------------------------------------- order

  /** Digests identify contents. */
  ghost predicate Injective(c: Context) {
    forall a, b :: c.hash(a) == c.hash(b) ==> a == b
  }

  lemma SamePairs(c: Context, a: seq<Item>, b: seq<Item>)
    requires multiset(a) == multiset(b) && Compatible(c, a)
    ensures Compatible(c, b)
  {
    forall i, j | 0 <= i < |b| && 0 <= j < |b| ensures Fits(c, b[i], b[j]) {
      assert b[i] in multiset(b) && b[j] in multiset(b);
      var k :| 0 <= k < |a| && a[k] == b[i];
      var l :| 0 <= l < |a| && a[l] == b[j];
    }
  }

  lemma RemoveAt<T>(s: seq<T>, k: nat)
    requires k < |s|
    ensures multiset(Without(s, k)) == multiset(s) - multiset{s[k]}
  {
    assert s == s[..k] + [s[k]] + s[k + 1..];
  }

  /** Where the last element of one sequence is in a reordering of it. */
  lemma Partner<T>(a: seq<T>, b: seq<T>) returns (k: nat)
    requires multiset(a) == multiset(b) && a != []
    ensures k < |b| && b[k] == a[|a| - 1] && multiset(a[..|a| - 1]) == multiset(Without(b, k))
  {
    var n := |a| - 1;
    assert a[n] in multiset(b);
    k :| 0 <= k < |b| && b[k] == a[n];
    RemoveAt(a, n);
    RemoveAt(b, k);
    assert Without(a, n) == a[..n];
  }

  lemma NothingLeft<T>(b: seq<T>)
    requires multiset(b) == multiset{}
    ensures b == []
  {
    assert |multiset(b)| == |b|;
  }

  lemma {:induction false} SameTotal(a: seq<Item>, b: seq<Item>)
    requires multiset(a) == multiset(b)
    ensures Total(a) == Total(b)
    decreases |a|
  {
    if a == [] {
      NothingLeft(b);
    } else {
      var k := Partner(a, b);
      TotalWithout(b, k);
      SameTotal(a[..|a| - 1], Without(b, k));
    }
  }

  function Without<T>(s: seq<T>, k: nat): seq<T>
    requires k < |s|
  {
    s[..k] + s[k + 1..]
  }

  /** Removing from the front part of a sequence keeps its last element. */
  lemma WithoutFront<T>(s: seq<T>, k: nat)
    requires k < |s| - 1
    ensures Without(s, k) == Without(s[..|s| - 1], k) + [s[|s| - 1]]
  {}

  lemma TotalSnoc(s: seq<Item>, x: Item)
    ensures Total(s + [x]) == Total(s) + |x.data|
  {
    assert (s + [x])[..|s|] == s;
  }

  lemma {:induction false} TotalWithout(s: seq<Item>, k: nat)
    requires k < |s|
    ensures Total(s) == Total(Without(s, k)) + |s[k].data|
    decreases |s|
  {
    var n := |s| - 1;
    if k == n {
      assert Without(s, k) == s[..n];
    } else {
      TotalWithout(s[..n], k);
      WithoutFront(s, k);
      TotalSnoc(Without(s[..n], k), s[n]);
    }
  }

  lemma SameUnion(c: Context, a: seq<Item>, b: seq<Item>)
    requires multiset(a) == multiset(b) && Compatible(c, a) && Injective(c)
    ensures Union(a) == Union(b)
  {
    SamePairs(c, a, b);
    forall p ensures p in Union(a) <==> p in Union(b) {
      UnionHolds(a, p);
      UnionHolds(b, p);
      if HasPath(a, p) { var i :| 0 <= i < |a| && a[i].path == p; assert a[i] in multiset(b); assert HasPath(b, p); }
      if HasPath(b, p) { var i :| 0 <= i < |b| && b[i].path == p; assert b[i] in multiset(a); assert HasPath(a, p); }
    }
    forall p | p in Union(a) ensures Union(a)[p] == Union(b)[p] {
      UnionHolds(a, p);
      var i :| 0 <= i < |a| && a[i] == Item(p, Union(a)[p]);
      assert a[i] in multiset(b);
      var k :| 0 <= k < |b| && b[k] == a[i];
      UnionDigest(c, b, k);
    }
  }

  /** Merge order does not matter: whether a merge succeeds depends only on which files the domains bring,
      and with digests that identify contents so does the result. */
  lemma OrderIndependent(c: Context, a: seq<Domain>, b: seq<Domain>)
    requires multiset(a) == multiset(b)
    ensures Mergeable(c, a) ==> Mergeable(c, b)
    ensures Mergeable(c, a) && Injective(c) ==> Output(c, a) == Output(c, b)
  {
    SameItems(a, b);
    var x, y := AllItems(a), AllItems(b);
    if Mergeable(c, a) {
      SamePairs(c, x, y);
      SameTotal(x, y);
      forall i | 0 <= i < |b| ensures Enumerable(b[i]) { assert b[i] in multiset(a); }
      forall i | 0 <= i < |y| ensures !(c.manifest < y[i].path) { assert y[i] in multiset(x); }
      if Injective(c) { SameUnion(c, x, y); }
    }
  }

  lemma {:induction false} SameItems(a: seq<Domain>, b: seq<Domain>)
    requires multiset(a) == multiset(b)
    ensures multiset(AllItems(a)) == multiset(AllItems(b))
    decreases |a|
  {
    if a == [] {
      NothingLeft(b);
    } else {
      var n := |a| - 1;
      var k := Partner(a, b);
      assert a == a[..n] + [a[n]];
      ItemsSnoc(a[..n], a[n]);
      ItemsWithout(b, k);
      SameItems(a[..n], Without(b, k));
    }
  }

  lemma ItemsSnoc(s: seq<Domain>, d: Domain)
    ensures multiset(AllItems(s + [d])) == multiset(AllItems(s)) + multiset(d.files)
  {
    assert (s + [d])[..|s|] == s;
  }

  lemma {:induction false} ItemsWithout(s: seq<Domain>, k: nat)
    requires k < |s|
    ensures multiset(AllItems(s)) == multiset(AllItems(Without(s, k))) + multiset(s[k].files)
    decreases |s|
  {
    var n := |s| - 1;
    assert s == s[..n] + [s[n]];
    ItemsSnoc(s[..n], s[n]);
    if k == n {
      assert Without(s, k) == s[..n];
    } else {
      ItemsWithout(s[..n], k);
      WithoutFront(s, k);
      ItemsSnoc(Without(s[..n], k), s[n]);
    }
  }

  // ---------------------------------------------------------------- the manifest

  /** The manifest describes the output exactly when no domain brings a file under the manifest's own
      name, or that file happens to have the manifest's digest: it would be overwritten. */
  lemma ManifestDescribes(c: Context, domains: seq<Domain>)
    ensures var files := Union(AllItems(domains));
            var listed, output := Digests(c, files), Output(c, domains);
            && (forall p :: p in listed ==> p in output)
            && (c.manifest in listed <==> HasPath(AllItems(domains), c.manifest))
            && ((forall p :: p in listed ==> c.hash(output[p]) == listed[p]) <==>
                (c.manifest in listed ==> c.hash(c.render(listed)) == listed[c.manifest]))
  {
    UnionHolds(AllItems(domains), c.manifest);
  }

  lemma OneItem(c: Context, x: Item)
    ensures AllItems([Domain([x], true)]) == [x] && Total([x]) == |x.data| && Union([x]) == map[x.path := x.data]
    ensures Compatible(c, [x])
  {
    var domains := [Domain([x], true)];
    assert domains[..0] == [] && [x][..0] == [];
    assert AllItems(domains) == AllItems([]) + [x];
  }

  /** A file under the manifest's name is lost: the merge succeeds and its digest is listed, but the
      output holds the manifest there. */
  lemma ManifestOverwrites(c: Context, data: bytes)
    requires |data| <= MAXIMUM_TOTAL_BYTES
    ensures var domains := [Domain([Item(c.manifest, data)], true)];
            var listed := Digests(c, Union(AllItems(domains)));
            && Mergeable(c, domains) && c.manifest in listed && listed[c.manifest] == c.hash(data)
            && Output(c, domains)[c.manifest] == c.render(listed)
  {
    OneItem(c, Item(c.manifest, data));
  }

  // ---------------------------------------------------------------- the merge

  class Workspace {
    var staging: Option<map<Path, bytes>>
    var output: Option<map<Path, bytes>>

    constructor ()
      ensures staging == None && output == None
    {
      staging, output := None, None;
    }

    /** One file of one tree, copied unless it is there already. */
    method Place(c: Context, x: Item, total: nat, ghost done: seq<Item>) returns (ok: bool, sum: nat)
      requires Compatible(c, done) && total == Total(done) && staging == Some(Union(done))
      modifies this`staging
      ensures ok <==> Compatible(c, done + [x]) && Total(done + [x]) <= MAXIMUM_TOTAL_BYTES
      ensures ok ==> sum == Total(done + [x]) && staging == Some(Union(done + [x]))
    {
      assert (done + [x])[..|done|] == done;
      sum := total + |x.data|;
      if sum > MAXIMUM_TOTAL_BYTES { return false, sum; }
      var files := staging.value;
      if q :| q in files && (x.path < q || q < x.path) {
        NotAbove(c, done, x, q);
        return false, sum;
      }
      if x.path in files {
        if c.hash(files[x.path]) != c.hash(x.data) {
          NotSame(c, done, x);
          return false, sum;
        }
        Extend(c, done, x);
        return true, sum;
      }
      Extend(c, done, x);
      staging := Some(files[x.path := x.data]);
      ok := true;
    }

    /** One tree. */
    method PlaceTree(c: Context, files: seq<Item>, total: nat, ghost done: seq<Item>) returns (ok: bool, sum: nat)
      requires Compatible(c, done) && total == Total(done) <= MAXIMUM_TOTAL_BYTES && staging == Some(Union(done))
      modifies this`staging
      ensures ok <==> Compatible(c, done + files) && Total(done + files) <= MAXIMUM_TOTAL_BYTES
      ensures ok ==> sum == Total(done + files) && staging == Some(Union(done + files))
    {
      sum := total;
      assert done + files[..0] == done;
      for i := 0 to |files|
        invariant Compatible(c, done + files[..i]) && sum == Total(done + files[..i]) <= MAXIMUM_TOTAL_BYTES
        invariant staging == Some(Union(done + files[..i]))
      {
        assert done + files[..i + 1] == done + files[..i] + [files[i]];
        ok, sum := Place(c, files[i], sum, done + files[..i]);
        if !ok {
          Prefixes(c, done + files[..i + 1], done + files);
          return;
        }
      }
      assert files[..|files|] == files;
      ok := true;
    }

    method PlaceAll(c: Context, domains: seq<Domain>) returns (ok: bool)
      requires staging == Some(map[])
      modifies this`staging
      ensures ok <==> (forall i :: 0 <= i < |domains| ==> Enumerable(domains[i]))
                      && Compatible(c, AllItems(domains)) && Total(AllItems(domains)) <= MAXIMUM_TOTAL_BYTES
      ensures ok ==> staging == Some(Union(AllItems(domains)))
    {
      var total := 0;
      for i := 0 to |domains|
        invariant forall j :: 0 <= j < i ==> Enumerable(domains[j])
        invariant Compatible(c, AllItems(domains[..i])) && total == Total(AllItems(domains[..i])) <= MAXIMUM_TOTAL_BYTES
        invariant staging == Some(Union(AllItems(domains[..i])))
      {
        if !Enumerable(domains[i]) { return false; }
        assert domains[..i + 1][..i] == domains[..i];
        ok, total := PlaceTree(c, domains[i].files, total, AllItems(domains[..i]));
        if !ok {
          ItemsPrefix(domains, i + 1);
          Prefixes(c, AllItems(domains[..i + 1]), AllItems(domains));
          return;
        }
      }
      assert domains[..|domains|] == domains;
      ok := true;
    }

    /** `aggregate`: all or nothing. The output appears only as a whole, and staging never stays behind. */
    method Merge(c: Context, domains: seq<Domain>, valid: bool) returns (manifest: Option<map<Path, Digest>>)
      requires staging == None && |c.manifest| == 1
      modifies this
      ensures manifest.Some? <==> valid && old(output) == None && Mergeable(c, domains)
      ensures manifest.Some? ==> manifest.value == Digests(c, Union(AllItems(domains))) && output == Some(Output(c, domains))
      ensures manifest.None? ==> output == old(output)
      ensures staging == None
    {
      if !valid || output != None { return None; }
      staging := Some(map[]);
      var ok := PlaceAll(c, domains);
      if ok {
        var files := staging.value;
        ManifestFree(c, AllItems(domains));
        if !(exists q :: q in files && c.manifest < q) {
          manifest := Some(Digests(c, files));
          output := Some(files[c.manifest := c.render(manifest.value)]);
          staging := None;
          return;
        }
      }
      staging := None;
      manifest := None;
    }
  }

  lemma ManifestFree(c: Context, items: seq<Item>)
    ensures (exists q :: q in Union(items) && c.manifest < q) <==> exists i :: 0 <= i < |items| && c.manifest < items[i].path
  {
    if q :| q in Union(items) && c.manifest < q { UnionHolds(items, q); }
    if i :| 0 <= i < |items| && c.manifest < items[i].path { UnionHolds(items, items[i].path); assert HasPath(items, items[i].path); }
  }

  lemma {:induction false} ItemsPrefix(domains: seq<Domain>, i: nat)
    requires i <= |domains|
    ensures AllItems(domains[..i]) <= AllItems(domains)
    decreases |domains|
  {
    if i < |domains| {
      assert domains[..|domains| - 1][..i] == domains[..i];
      ItemsPrefix(domains[..|domains| - 1], i);
    } else {
      assert domains[..i] == domains;
    }
  }
}
