/** Writing generated documentation into a managed part of a file tree: a successful write leaves
    exactly the expected files there, and writing again changes nothing. */
module GeneratedTree {
  import opened Options
  import Lex

  /** File names, numbered in their sort order. */
  type Name = int
  /** A path below the public root, which is the empty path. */
  type Path = seq<Name>
  type bytes = seq<nat>

  datatype Node = File(data: bytes) | Directory | Link(resolves: bool) | Special

  type Nodes = map<Path, Node>

  function Parent(p: Path): Path
    requires p != []
  {
    p[..|p| - 1]
  }

  /** What a file system guarantees: everything is in a directory. */
  ghost predicate WellFormed(nodes: Nodes) {
    forall p :: p in nodes && p != [] ==> Parent(p) in nodes && nodes[Parent(p)] == Directory
  }

  lemma {:induction false} PrefixIsDirectory(nodes: Nodes, p: Path, k: nat)
    requires WellFormed(nodes) && p in nodes && k < |p|
    ensures p[..k] in nodes && nodes[p[..k]] == Directory
    decreases |p|
  {
    if k < |p| - 1 {
      PrefixIsDirectory(nodes, Parent(p), k);
      assert Parent(p)[..k] == p[..k];
    }
  }

  // ---------------------------------------------------------------- one destination

  predicate SafeDestination(nodes: Nodes, p: Path) {
    && [] in nodes && nodes[[]] == Directory
    && (forall k :: 0 <= k < |p| && p[..k] in nodes ==> nodes[p[..k]] == Directory)
    && (p in nodes ==> nodes[p].File?)
  }

  /** The tree with one file written, and the directories above it. */
  function Written(nodes: Nodes, p: Path, data: bytes): Nodes {
    map q | q in nodes.Keys + {p} + Above(p) :: if q == p then File(data) else if q in Above(p) then Directory else nodes[q]
  }

  function Above(p: Path): set<Path> {
    set k | 0 <= k < |p| :: p[..k]
  }

  lemma WrittenWellFormed(nodes: Nodes, p: Path, data: bytes)
    requires WellFormed(nodes) && SafeDestination(nodes, p)
    ensures WellFormed(Written(nodes, p, data))
  {
    var after := Written(nodes, p, data);
    forall q | q in after && q != [] ensures Parent(q) in after && after[Parent(q)] == Directory {
      if q == p {
        assert Parent(p) == p[..|p| - 1] && Parent(p) in Above(p);
      } else if q in Above(p) {
        var k :| 0 <= k < |p| && q == p[..k];
        assert Parent(q) == p[..k - 1];
        assert Parent(q) in Above(p);
      } else {
        assert q in nodes && nodes[Parent(q)] == Directory;
        assert Parent(q) != p;
      }
    }
  }

  lemma SameWritten(nodes: Nodes, p: Path)
    requires WellFormed(nodes) && p in nodes && nodes[p].File?
    ensures Written(nodes, p, nodes[p].data) == nodes
  {
    var after := Written(nodes, p, nodes[p].data);
    forall q | q in Above(p) ensures q in nodes && nodes[q] == Directory {
      var k :| 0 <= k < |p| && q == p[..k];
      PrefixIsDirectory(nodes, p, k);
    }
    assert after.Keys == nodes.Keys;
  }

  // ---------------------------------------------------------------- the managed part

  datatype Layout = Layout(roots: seq<Path>, singles: seq<Path>)
  {
    /** No managed root is inside another, and the public root itself is not managed. */
    ghost predicate Valid() {
      && [] !in singles
      && forall i, j :: 0 <= i < |roots| && 0 <= j < |roots| && i != j ==> !(roots[i] <= roots[j])
    }
  }

  predicate Below(p: Path, root: Path) {
    root < p
  }

  predicate Managed(l: Layout, p: Path) {
    p in l.singles || exists i :: 0 <= i < |l.roots| && Below(p, l.roots[i])
  }

  predicate SafeRoot(nodes: Nodes, root: Path) {
    && (root in nodes ==> nodes[root] == Directory || nodes[root] == Link(false))
    && forall p :: p in nodes && Below(p, root) ==> !nodes[p].Link?
  }

  /** When the managed part can be listed at all. */
  predicate Listable(l: Layout, nodes: Nodes) {
    && (forall i :: 0 <= i < |l.roots| ==> SafeRoot(nodes, l.roots[i]))
    && (forall i :: 0 <= i < |l.singles| ==> SafeDestination(nodes, l.singles[i]))
  }

  function ManagedFiles(l: Layout, nodes: Nodes): set<Path> {
    set p | p in nodes && nodes[p].File? && Managed(l, p)
  }

  /** `check_generated`: exactly the expected paths, with exactly the expected bytes. */
  predicate Agrees(l: Layout, nodes: Nodes, expected: map<Path, bytes>) {
    && Listable(l, nodes) && ManagedFiles(l, nodes) == expected.Keys
    && forall p :: p in expected ==> p in nodes && nodes[p] == File(expected[p])
  }

  predicate HasChild(nodes: Nodes, d: Path) {
    exists c :: c in nodes && c != [] && Parent(c) == d
  }

  /** No empty directory is left below a managed root. */
  ghost predicate Pruned(l: Layout, nodes: Nodes) {
    forall i :: 0 <= i < |l.roots| ==> PrunedRoot(nodes, l.roots[i])
  }

  ghost predicate PrunedRoot(nodes: Nodes, root: Path) {
    forall d :: d in nodes && nodes[d] == Directory && Below(d, root) ==> HasChild(nodes, d)
  }

  // ---------------------------------------------------------------- children first

  function CompareInts(a: int, b: int): int { a - b }

  function ComparePaths(a: Path, b: Path): int { Lex.Compare(CompareInts, a, b) }

  lemma PathOrder()
    ensures Lex.Ordering(ComparePaths) && Lex.Strict(ComparePaths)
  {
    Lex.Lifts(CompareInts);
    var lifted := (a: Path, b: Path) => Lex.Compare(CompareInts, a, b);
    assert forall a: Path, b: Path :: ComparePaths(a, b) == lifted(a, b);
  }

  lemma {:induction false} PrefixFirst(p: Path, q: Path)
    requires p < q
    ensures ComparePaths(p, q) < 0
  {
    if p != [] {
      assert p[0] == q[0];
      PrefixFirst(p[1..], q[1..]);
    }
  }

  // ---------------------------------------------------------------- taking nodes away

  /** `after` is `before` without some nodes. */
  ghost predicate Less(before: Nodes, after: Nodes) {
    forall q :: q in after ==> q in before && after[q] == before[q]
  }

  lemma LessListable(l: Layout, before: Nodes, after: Nodes)
    requires Listable(l, before) && Less(before, after) && ([] in before ==> [] in after)
    ensures Listable(l, after)
  {
    forall i | 0 <= i < |l.singles| ensures SafeDestination(after, l.singles[i]) { assert SafeDestination(before, l.singles[i]); }
    forall i | 0 <= i < |l.roots| ensures SafeRoot(after, l.roots[i]) { assert SafeRoot(before, l.roots[i]); }
  }

  lemma WithoutChildless(nodes: Nodes, d: Path)
    requires WellFormed(nodes) && !HasChild(nodes, d)
    ensures WellFormed(nodes - {d})
  {
    var after := nodes - {d};
    forall p | p in after && p != [] ensures Parent(p) in after && after[Parent(p)] == Directory {
      assert p in nodes && Parent(p) != d;
    }
  }

  lemma WithoutFiles(nodes: Nodes, files: set<Path>)
    requires WellFormed(nodes) && forall p :: p in files ==> p in nodes && nodes[p].File?
    ensures WellFormed(nodes - files)
  {}

  lemma SameRoot(c: Path, a: Path, b: Path)
    requires a < c && b < c
    ensures a <= b || b <= a
  {
    if |a| <= |b| { assert b[..|a|] == c[..|a|] == a; } else { assert a[..|b|] == c[..|b|] == b; }
  }

  ghost predicate OnlyBelow(before: Nodes, after: Nodes, root: Path) {
    Less(before, after) && forall q :: q in before && q !in after ==> before[q] == Directory && Below(q, root)
  }

  /** Pruning below one root leaves the directories below another as they are. */
  lemma PrunedKept(l: Layout, before: Nodes, after: Nodes, i: nat, j: nat)
    requires l.Valid() && i < |l.roots| && j < |l.roots| && i != j
    requires PrunedRoot(before, l.roots[i]) && OnlyBelow(before, after, l.roots[j])
    ensures PrunedRoot(after, l.roots[i])
  {
    forall d | d in after && after[d] == Directory && Below(d, l.roots[i]) ensures HasChild(after, d) {
      assert HasChild(before, d);
      var c :| c in before && c != [] && Parent(c) == d;
      assert l.roots[i] < c;
      if c !in after { SameRoot(c, l.roots[i], l.roots[j]); }
      assert c in after;
    }
  }

  class Tree {
    var nodes: Nodes

    constructor (nodes: Nodes)
      ensures this.nodes == nodes
    {
      this.nodes := nodes;
    }

    /** `validate_destination`: raises unless safe; otherwise says whether the file exists. */
    method ValidateDestination(p: Path) returns (safe: bool, present: bool)
      requires WellFormed(nodes)
      ensures safe <==> SafeDestination(nodes, p)
      ensures present <==> safe && p in nodes
    {
      present := false;
      if [] !in nodes || nodes[[]] != Directory { return false, false; }
      for k := 0 to |p|
        invariant forall j :: 0 <= j < k ==> p[..j] in nodes && nodes[p[..j]] == Directory
      {
        if p[..k] !in nodes {
          forall j | k <= j <= |p| ensures p[..j] !in nodes {
            assert p[..j][..k] == p[..k];
            if p[..j] in nodes && j > k { PrefixIsDirectory(nodes, p[..j], k); }
          }
          assert p[..|p|] == p;
          return true, false;
        }
        if nodes[p[..k]] != Directory { return false, false; }
      }
      if p !in nodes { return true, false; }
      safe := nodes[p].File?;
      present := safe;
    }

    /** `atomic_write`. */
    method AtomicWrite(p: Path, data: bytes) returns (ok: bool)
      requires WellFormed(nodes)
      modifies this
      ensures ok <==> SafeDestination(old(nodes), p)
      ensures nodes == if ok then Written(old(nodes), p, data) else old(nodes)
      ensures WellFormed(nodes)
    {
      var present;
      ok, present := ValidateDestination(p);
      if !ok { return; }
      if present && nodes[p].data == data {
        SameWritten(nodes, p);
        return;
      }
      WrittenWellFormed(nodes, p, data);
      nodes := Written(nodes, p, data);
    }

    /** `managed_existing`: raises unless the managed part can be listed. */
    method ListManaged(l: Layout) returns (files: Option<set<Path>>)
      requires WellFormed(nodes)
      ensures files.Some? <==> Listable(l, nodes)
      ensures files.Some? ==> files.value == ManagedFiles(l, nodes)
    {
      for i := 0 to |l.roots|
        invariant forall j :: 0 <= j < i ==> SafeRoot(nodes, l.roots[j])
      {
        if !SafeRoot(nodes, l.roots[i]) { return None; }
      }
      for i := 0 to |l.singles|
        invariant forall j :: 0 <= j < i ==> SafeDestination(nodes, l.singles[j])
      {
        var safe, present := ValidateDestination(l.singles[i]);
        if !safe { return None; }
      }
      files := Some(ManagedFiles(l, nodes));
    }

    /** `check_generated`. */
    method CheckGenerated(l: Layout, expected: map<Path, bytes>) returns (ok: bool)
      requires WellFormed(nodes)
      ensures ok <==> Agrees(l, nodes, expected)
    {
      var actual := ListManaged(l);
      if actual.None? || actual.value != expected.Keys { return false; }
      ok := forall p :: p in expected ==> p in nodes && nodes[p] == File(expected[p]);
    }

    /** Empty directories below a root are removed, children first. */
    method PruneRoot(root: Path)
      requires WellFormed(nodes)
      modifies this
      ensures WellFormed(nodes) && OnlyBelow(old(nodes), nodes, root)
      ensures PrunedRoot(nodes, root)
      ensures PrunedRoot(old(nodes), root) ==> nodes == old(nodes)
    {
      PathOrder();
      var dirs := Lex.SortDescending(ComparePaths, DirectoriesBelow(nodes, root));
      InOrder(nodes, root, dirs);
      for i := 0 to |dirs|
        invariant WellFormed(nodes) && OnlyBelow(old(nodes), nodes, root) && Handled(nodes, dirs, i)
        invariant PrunedRoot(old(nodes), root) ==> nodes == old(nodes)
      {
        if HasChild(nodes, dirs[i]) {
          assert Handled(nodes, dirs, i + 1);
        } else {
          WithoutChildless(nodes, dirs[i]);
          RemovalHandled(nodes, dirs, i);
          assert dirs[i] in DirectoriesBelow(old(nodes), root);
          nodes := nodes - {dirs[i]};
        }
      }
      AllHandled(old(nodes), nodes, root, dirs);
    }

    method Prune(l: Layout)
      requires WellFormed(nodes) && l.Valid()
      modifies this
      ensures WellFormed(nodes) && Less(old(nodes), nodes)
      ensures forall q :: q in old(nodes) && q !in nodes ==> old(nodes)[q] == Directory && Managed(l, q)
      ensures Pruned(l, nodes)
      ensures Pruned(l, old(nodes)) ==> nodes == old(nodes)
    {
      for i := 0 to |l.roots|
        invariant WellFormed(nodes) && Less(old(nodes), nodes)
        invariant forall q :: q in old(nodes) && q !in nodes ==> old(nodes)[q] == Directory && Managed(l, q)
        invariant forall j :: 0 <= j < i ==> PrunedRoot(nodes, l.roots[j])
        invariant Pruned(l, old(nodes)) ==> nodes == old(nodes)
      {
        ghost var before := nodes;
        PruneRoot(l.roots[i]);
        forall j | 0 <= j < i ensures PrunedRoot(nodes, l.roots[j]) { PrunedKept(l, before, nodes, j, i); }
      }
    }

    /** Every expected file is written, in the given order. */
    method WriteAll(expected: map<Path, bytes>, order: seq<Path>) returns (ok: bool)
      requires WellFormed(nodes) && Orders(order, expected) && [] !in expected
      modifies this
      ensures WellFormed(nodes)
      ensures WritesOnly(old(nodes), nodes, expected)
      ensures ok <==> AllSafe(old(nodes), expected)
      ensures ok ==> HasAll(nodes, expected) && Wrote(old(nodes), nodes, order)
      ensures HasAll(old(nodes), expected) ==> ok && nodes == old(nodes)
    {
      ok := true;
      for i := 0 to |order|
        invariant WellFormed(nodes) && Progress(old(nodes), nodes, order, expected, i)
        invariant HasAll(old(nodes), expected) ==> nodes == old(nodes)
      {
        ghost var before := nodes;
        if HasAll(old(nodes), expected) { HeldIsSafe(nodes, expected, order[i]); }
        ProgressNext(old(nodes), before, order, expected, i);
        ok := AtomicWrite(order[i], expected[order[i]]);
        if !ok { return; }
      }
      ProgressWhole(old(nodes), nodes, order, expected);
    }

    method UnlinkAll(extras: seq<Path>)
      modifies this
      ensures nodes.Keys == set q | q in old(nodes) && q !in extras
      ensures Less(old(nodes), nodes)
    {
      for i := 0 to |extras|
        invariant Less(old(nodes), nodes)
        invariant forall q :: q in nodes <==> q in old(nodes) && q !in extras[..i]
      {
        assert extras[..i + 1] == extras[..i] + [extras[i]];
        nodes := nodes - {extras[i]};
      }
      assert extras[..|extras|] == extras;
    }

    method Unlink(l: Layout, expected: map<Path, bytes>) returns (ok: bool)
      requires WellFormed(nodes)
      modifies this
      ensures WellFormed(nodes) && Less(old(nodes), nodes)
      ensures ok <==> Listable(l, old(nodes))
      ensures nodes == if ok then old(nodes) - (ManagedFiles(l, old(nodes)) - expected.Keys) else old(nodes)
    {
      var actual := ListManaged(l);
      if actual.None? { return false; }
      PathOrder();
      var doomed := actual.value - expected.Keys;
      var extras := Lex.SortDescending(ComparePaths, doomed);
      UnlinkAll(extras);
      assert nodes == old(nodes) - doomed;
      WithoutFiles(old(nodes), doomed);
      ok := true;
    }

    /** `write_generated`: it succeeds exactly on a tree in which every expected file has a place; the
        tree then agrees with what was expected. A failed write may leave expected files and
        directories for them behind, and removes nothing. A tree that agrees already, and has no empty
        directory to remove, is left untouched. */
    method WriteGenerated(l: Layout, expected: map<Path, bytes>, order: seq<Path>) returns (ok: bool)
      requires WellFormed(nodes) && l.Valid() && Orders(order, expected) && forall p :: p in expected ==> Managed(l, p)
      modifies this
      ensures WellFormed(nodes)
      ensures ok <==> Writable(l, old(nodes), expected)
      ensures !ok ==> WritesOnly(old(nodes), nodes, expected)
      ensures ok ==> Agrees(l, nodes, expected) && Pruned(l, nodes)
      ensures ok ==> Untouched(l, old(nodes), nodes)
      ensures Agrees(l, old(nodes), expected) && Pruned(l, old(nodes)) ==> ok && nodes == old(nodes)
    {
      ok := WriteAll(expected, order);
      if !ok { return; }
      ghost var written := nodes;
      ListableLater(l, old(nodes), nodes, expected, order);
      ok := Unlink(l, expected);
      if !ok { return; }
      ghost var unlinked := nodes;
      Unlinked(l, written, expected);
      Prune(l);
      StillAgrees(l, unlinked, nodes, expected);
      Outside(l, old(nodes), written, unlinked, nodes, expected);
      if HasAll(old(nodes), expected) { NothingDoomed(l, old(nodes), expected); }
    }
  }

  ghost predicate Orders(order: seq<Path>, expected: map<Path, bytes>) {
    forall p :: p in order <==> p in expected
  }

  ghost predicate Holds(nodes: Nodes, p: Path, data: bytes) {
    p in nodes && nodes[p] == File(data)
  }

  ghost predicate HoldsUpTo(nodes: Nodes, order: seq<Path>, expected: map<Path, bytes>, i: nat)
    requires Orders(order, expected) && i <= |order|
  {
    forall j :: 0 <= j < i ==> order[j] in expected && Holds(nodes, order[j], expected[order[j]])
  }

  lemma HoldsNext(before: Nodes, order: seq<Path>, expected: map<Path, bytes>, i: nat)
    requires Orders(order, expected) && i < |order| && HoldsUpTo(before, order, expected, i) && SafeDestination(before, order[i])
    ensures order[i] in expected && HoldsUpTo(Written(before, order[i], expected[order[i]]), order, expected, i + 1)
  {
    var p := order[i];
    assert p in order;
    forall j | 0 <= j <= i ensures order[j] in expected && Holds(Written(before, p, expected[p]), order[j], expected[order[j]]) {
      assert order[j] in order;
      if j < i { HeldStays(before, p, expected[p], order[j], expected[order[j]]); }
    }
  }

  lemma HoldsWhole(nodes: Nodes, order: seq<Path>, expected: map<Path, bytes>)
    requires Orders(order, expected) && HoldsUpTo(nodes, order, expected, |order|)
    ensures HasAll(nodes, expected)
  {
    forall p | p in expected ensures Holds(nodes, p, expected[p]) {
      assert p in order;
      var j :| 0 <= j < |order| && order[j] == p;
    }
  }

  ghost predicate HasAll(nodes: Nodes, expected: map<Path, bytes>) {
    forall p :: p in expected ==> Holds(nodes, p, expected[p])
  }

  /** Apart from the expected files, writing only adds directories. */
  ghost predicate WritesOnly(before: Nodes, after: Nodes, expected: map<Path, bytes>) {
    && (forall q :: q in before ==> q in after && (q in expected || after[q] == before[q]))
    && (forall q :: q in after && q !in before ==> q in expected || after[q] == Directory)
  }

  /** Every expected file has a safe destination, and none of them is above another. */
  ghost predicate AllSafe(nodes: Nodes, expected: map<Path, bytes>) {
    && (forall p :: p in expected ==> SafeDestination(nodes, p))
    && (forall p, q :: p in expected && q in expected ==> !(p < q))
  }

  /** Writing will succeed: the managed part can be listed and no expected file is in its way. */
  ghost predicate Writable(l: Layout, nodes: Nodes, expected: map<Path, bytes>) {
    && AllSafe(nodes, expected) && Listable(l, nodes)
    && (forall p, s :: p in expected && s in l.singles ==> !(p < s) && !(s < p))
    && (forall p :: p in expected ==> p !in l.roots)
  }

  /** `now` is `start` with the files `done` written: only they and the directories above them are new. */
  ghost predicate Wrote(start: Nodes, now: Nodes, done: seq<Path>) {
    AddsOnly(start, now, done) && Keeps(start, now, done) && HasFiles(start, now, done) && HasDirectories(now, done)
  }

  ghost predicate AddsOnly(start: Nodes, now: Nodes, done: seq<Path>) {
    forall q :: q in now ==> q in start || q in done || IsAbove(q, done)
  }

  ghost predicate IsAbove(q: Path, done: seq<Path>) {
    exists p :: p in done && q < p
  }

  ghost predicate Keeps(start: Nodes, now: Nodes, done: seq<Path>) {
    forall q :: q in start ==> q in now && (q in done || now[q] == start[q])
  }

  ghost predicate HasFiles(start: Nodes, now: Nodes, done: seq<Path>) {
    forall p :: p in done ==> p in now && now[p].File? && (p in start ==> start[p].File?) && [] in start && start[[]] == Directory
  }

  ghost predicate HasDirectories(now: Nodes, done: seq<Path>) {
    forall p, q :: p in done && q < p ==> q in now && now[q] == Directory
  }

  /** No path of `done` is above or below `p`. */
  ghost predicate Beside(done: seq<Path>, p: Path) {
    forall q :: q in done ==> !(q < p) && !(p < q)
  }

  lemma InAbove(q: Path, p: Path)
    ensures q in Above(p) <==> q < p
  {
    if q in Above(p) { var k :| 0 <= k < |p| && q == p[..k]; }
    if q < p { assert q == p[..|q|]; }
  }

  lemma WrittenAdds(start: Nodes, now: Nodes, done: seq<Path>, p: Path, data: bytes)
    requires AddsOnly(start, now, done)
    ensures AddsOnly(start, Written(now, p, data), done + [p])
  {
    var after, more := Written(now, p, data), done + [p];
    assert p in more && forall x :: x in done ==> x in more;
    forall q | q in after ensures q in start || q in more || IsAbove(q, more) {
      InAbove(q, p);
      if q in now && IsAbove(q, done) { var x :| x in done && q < x; assert x in more; }
    }
  }

  lemma WrittenKeeps(start: Nodes, now: Nodes, done: seq<Path>, p: Path, data: bytes)
    requires Keeps(start, now, done) && SafeDestination(start, p)
    ensures Keeps(start, Written(now, p, data), done + [p])
  {
    var after, more := Written(now, p, data), done + [p];
    assert p in more && forall x :: x in done ==> x in more;
    forall q | q in start ensures q in after && (q in more || after[q] == start[q]) {
      InAbove(q, p);
      assert q < p ==> p[..|q|] == q;
    }
  }

  lemma WrittenFiles(start: Nodes, now: Nodes, done: seq<Path>, p: Path, data: bytes)
    requires HasFiles(start, now, done) && SafeDestination(start, p) && forall q :: q in done ==> !(q < p)
    ensures HasFiles(start, Written(now, p, data), done + [p])
  {
    forall q | q in done ensures q !in Above(p) { InAbove(q, p); }
  }

  lemma WrittenDirectories(now: Nodes, done: seq<Path>, p: Path, data: bytes)
    requires HasDirectories(now, done) && forall q :: q in done ==> !(p < q)
    ensures HasDirectories(Written(now, p, data), done + [p])
  {
    var after := Written(now, p, data);
    forall x, q | x in done + [p] && q < x ensures q in after && after[q] == Directory {
      InAbove(q, p);
      if x != p { assert x in done && q != p; }
    }
  }

  lemma WroteNext(start: Nodes, now: Nodes, done: seq<Path>, p: Path, data: bytes)
    requires Wrote(start, now, done) && SafeDestination(start, p) && Beside(done, p)
    ensures Wrote(start, Written(now, p, data), done + [p])
  {
    WrittenAdds(start, now, done, p, data);
    WrittenKeeps(start, now, done, p, data);
    WrittenFiles(start, now, done, p, data);
    WrittenDirectories(now, done, p, data);
  }

  /** A destination is safe later exactly when it was safe at the start and no file written meanwhile is
      above or below it. */
  lemma SafeLater(start: Nodes, now: Nodes, done: seq<Path>, p: Path)
    requires Wrote(start, now, done) && p != []
    ensures SafeDestination(now, p) <==> SafeDestination(start, p) && Beside(done, p)
  {
    if SafeDestination(now, p) {
      forall q | q in done ensures !(q < p) && !(p < q) {
        if q < p { AboveIsDirectory(now, q, p); }
      }
      SafeBefore(start, now, done, p);
    }
    if SafeDestination(start, p) && Beside(done, p) { SafeAfter(start, now, done, p); }
  }

  lemma AboveIsDirectory(nodes: Nodes, q: Path, p: Path)
    requires SafeDestination(nodes, p) && q < p && q in nodes
    ensures nodes[q] == Directory
  {
    assert p[..|q|] == q;
  }

  lemma SafeBefore(start: Nodes, now: Nodes, done: seq<Path>, p: Path)
    requires Wrote(start, now, done) && p != [] && SafeDestination(now, p)
    ensures SafeDestination(start, p)
  {
    if done != [] { assert done[0] in done; }
    if done == [] { assert [] in start; }
    forall k | 0 <= k < |p| && p[..k] in start ensures start[p[..k]] == Directory {
      assert p[..k] in now && now[p[..k]] == Directory;
    }
  }

  lemma SafeAfter(start: Nodes, now: Nodes, done: seq<Path>, p: Path)
    requires Wrote(start, now, done) && p != [] && SafeDestination(start, p) && Beside(done, p)
    ensures SafeDestination(now, p)
  {
    assert p[..0] == [] && [] < p;
    forall k | 0 <= k < |p| && p[..k] in now ensures now[p[..k]] == Directory {
      assert p[..k] < p && p[..k] !in done;
    }
  }

  /** The first `i` destinations were safe and do not conflict. */
  ghost predicate SafeSoFar(nodes: Nodes, order: seq<Path>, i: nat)
    requires i <= |order|
  {
    && (forall j :: 0 <= j < i ==> SafeDestination(nodes, order[j]))
    && (forall j, k :: 0 <= j < i && 0 <= k < i ==> !(order[j] < order[k]))
  }

  lemma SafeNext(nodes: Nodes, order: seq<Path>, i: nat)
    requires i < |order| && SafeSoFar(nodes, order, i) && SafeDestination(nodes, order[i])
    requires Beside(order[..i], order[i])
    ensures SafeSoFar(nodes, order, i + 1)
  {
    forall j | 0 <= j < i ensures !(order[j] < order[i]) && !(order[i] < order[j]) { assert order[j] in order[..i]; }
  }

  lemma SafeWhole(nodes: Nodes, expected: map<Path, bytes>, order: seq<Path>)
    requires Orders(order, expected) && SafeSoFar(nodes, order, |order|)
    ensures AllSafe(nodes, expected)
  {
    forall p | p in expected ensures SafeDestination(nodes, p) {
      assert p in order;
      var j :| 0 <= j < |order| && order[j] == p;
    }
    forall p, q | p in expected && q in expected ensures !(p < q) {
      assert p in order && q in order;
      var j :| 0 <= j < |order| && order[j] == p;
      var k :| 0 <= k < |order| && order[k] == q;
    }
  }

  /** The first `i` files are written. */
  ghost predicate Progress(start: Nodes, now: Nodes, order: seq<Path>, expected: map<Path, bytes>, i: nat)
    requires Orders(order, expected) && i <= |order|
  {
    && WritesOnly(start, now, expected) && HoldsUpTo(now, order, expected, i)
    && Wrote(start, now, order[..i]) && SafeSoFar(start, order, i)
  }

  lemma ProgressNext(start: Nodes, now: Nodes, order: seq<Path>, expected: map<Path, bytes>, i: nat)
    requires Orders(order, expected) && i < |order| && [] !in expected && Progress(start, now, order, expected, i)
    ensures order[i] in expected
    ensures SafeDestination(now, order[i]) ==> Progress(start, Written(now, order[i], expected[order[i]]), order, expected, i + 1)
    ensures !SafeDestination(now, order[i]) ==> !AllSafe(start, expected)
  {
    var p := order[i];
    assert p in order;
    SafeLater(start, now, order[..i], p);
    if SafeDestination(now, p) {
      ProgressStep(start, now, Written(now, p, expected[p]), order, expected, i);
    } else {
      StuckAt(start, expected, order, i);
    }
  }

  lemma ProgressStep(start: Nodes, now: Nodes, after: Nodes, order: seq<Path>, expected: map<Path, bytes>, i: nat)
    requires Orders(order, expected) && i < |order| && order[i] in expected && Progress(start, now, order, expected, i)
    requires SafeDestination(now, order[i]) && SafeDestination(start, order[i]) && Beside(order[..i], order[i])
    requires after == Written(now, order[i], expected[order[i]])
    ensures Progress(start, after, order, expected, i + 1)
  {
    var p := order[i];
    HoldsNext(now, order, expected, i);
    WriteStep(start, now, after, expected, p);
    WroteNext(start, now, order[..i], p, expected[p]);
    SafeNext(start, order, i);
    ProgressJoin(start, after, order, expected, i);
  }

  lemma ProgressJoin(start: Nodes, after: Nodes, order: seq<Path>, expected: map<Path, bytes>, i: nat)
    requires Orders(order, expected) && i < |order| && WritesOnly(start, after, expected) && HoldsUpTo(after, order, expected, i + 1)
    requires Wrote(start, after, order[..i] + [order[i]]) && SafeSoFar(start, order, i + 1)
    ensures Progress(start, after, order, expected, i + 1)
  {
    assert order[..i + 1] == order[..i] + [order[i]];
  }

  lemma ProgressWhole(start: Nodes, now: Nodes, order: seq<Path>, expected: map<Path, bytes>)
    requires Orders(order, expected) && Progress(start, now, order, expected, |order|)
    ensures HasAll(now, expected) && Wrote(start, now, order) && AllSafe(start, expected)
  {
    HoldsWhole(now, order, expected);
    assert order[..|order|] == order;
    SafeWhole(start, expected, order);
  }

  lemma StuckAt(nodes: Nodes, expected: map<Path, bytes>, order: seq<Path>, i: nat)
    requires Orders(order, expected) && i < |order|
    requires !(SafeDestination(nodes, order[i]) && Beside(order[..i], order[i]))
    ensures !AllSafe(nodes, expected)
  {
    assert order[i] in order;
    if q :| q in order[..i] && (q < order[i] || order[i] < q) { assert q in order; }
  }

  lemma SinglesLater(singles: seq<Path>, start: Nodes, now: Nodes, expected: map<Path, bytes>, order: seq<Path>)
    requires [] !in singles && Orders(order, expected) && Wrote(start, now, order)
    ensures (forall i :: 0 <= i < |singles| ==> SafeDestination(now, singles[i])) <==>
            && (forall i :: 0 <= i < |singles| ==> SafeDestination(start, singles[i]))
            && (forall p, s :: p in expected && s in singles ==> !(p < s) && !(s < p))
  {
    forall i | 0 <= i < |singles|
      ensures SafeDestination(now, singles[i]) <==> SafeDestination(start, singles[i]) && Apart(expected, singles[i])
    {
      assert singles[i] in singles;
      SafeLater(start, now, order, singles[i]);
    }
    if forall i :: 0 <= i < |singles| ==> SafeDestination(now, singles[i]) {
      forall p, s | p in expected && s in singles ensures !(p < s) && !(s < p) {
        var i :| 0 <= i < |singles| && singles[i] == s;
        assert Apart(expected, singles[i]);
      }
    }
    if forall p, s :: p in expected && s in singles ==> !(p < s) && !(s < p) {
      forall i | 0 <= i < |singles| ensures Apart(expected, singles[i]) { assert singles[i] in singles; }
    }
  }

  ghost predicate Apart(expected: map<Path, bytes>, s: Path) {
    forall p :: p in expected ==> !(p < s) && !(s < p)
  }

  lemma RootsLater(roots: seq<Path>, start: Nodes, now: Nodes, expected: map<Path, bytes>, order: seq<Path>)
    requires Orders(order, expected) && Wrote(start, now, order)
    ensures (forall i :: 0 <= i < |roots| ==> SafeRoot(now, roots[i])) <==>
            (forall i :: 0 <= i < |roots| ==> SafeRoot(start, roots[i])) && (forall p :: p in expected ==> p !in roots)
  {
    forall i | 0 <= i < |roots| ensures SafeRoot(now, roots[i]) <==> SafeRoot(start, roots[i]) && roots[i] !in expected {
      RootLater(start, now, expected, order, roots[i]);
    }
    if forall p :: p in expected ==> p !in roots {
      forall i | 0 <= i < |roots| ensures roots[i] !in expected { assert roots[i] in roots; }
    }
  }

  /** After the files are written, the managed part can be listed exactly if it could be before and no
      expected file is in its way. */
  lemma ListableLater(l: Layout, start: Nodes, now: Nodes, expected: map<Path, bytes>, order: seq<Path>)
    requires l.Valid() && Orders(order, expected) && Wrote(start, now, order) && AllSafe(start, expected)
    ensures Listable(l, now) <==> Writable(l, start, expected)
  {
    SinglesLater(l.singles, start, now, expected, order);
    RootsLater(l.roots, start, now, expected, order);
  }

  lemma RootLater(start: Nodes, now: Nodes, expected: map<Path, bytes>, order: seq<Path>, root: Path)
    requires Orders(order, expected) && Wrote(start, now, order)
    ensures SafeRoot(now, root) <==> SafeRoot(start, root) && root !in expected
  {
    if root in expected { assert root in order && now[root].File?; }
    if SafeRoot(now, root) && root !in expected {
      forall p | p in start && Below(p, root) ensures !start[p].Link? {
        assert p in now;
        if p in order { assert start[p].File?; }
      }
    }
    if SafeRoot(start, root) && root !in expected {
      forall p | p in now && Below(p, root) ensures !now[p].Link? {}
      if root in now && root !in start { assert root !in order; }
    }
  }

  lemma HeldIsSafe(nodes: Nodes, expected: map<Path, bytes>, p: Path)
    requires WellFormed(nodes) && HasAll(nodes, expected) && p in expected && p != []
    ensures SafeDestination(nodes, p) && Written(nodes, p, expected[p]) == nodes
  {
    assert Holds(nodes, p, expected[p]);
    forall k | 0 <= k < |p| ensures p[..k] in nodes && nodes[p[..k]] == Directory { PrefixIsDirectory(nodes, p, k); }
    assert p[..0] == [];
    SameWritten(nodes, p);
  }

  /** A file written earlier survives a later write: it is not above the later destination. */
  lemma HeldStays(nodes: Nodes, p: Path, data: bytes, q: Path, kept: bytes)
    requires SafeDestination(nodes, p) && Holds(nodes, q, kept) && (q == p ==> kept == data)
    ensures Holds(Written(nodes, p, data), q, kept)
  {
    assert q !in Above(p);
  }

  lemma WriteStep(start: Nodes, before: Nodes, after: Nodes, expected: map<Path, bytes>, p: Path)
    requires p in expected && WritesOnly(start, before, expected) && SafeDestination(before, p) && after == Written(before, p, expected[p])
    ensures WritesOnly(start, after, expected)
  {
    forall q | q in Above(p) && q in before ensures before[q] == Directory { var k :| 0 <= k < |p| && q == p[..k]; }
  }

  /** What is not managed is as it was. */
  ghost predicate Untouched(l: Layout, before: Nodes, after: Nodes) {
    forall q :: q in before && !Managed(l, q) ==> q in after && after[q] == before[q]
  }

  lemma Outside(l: Layout, start: Nodes, written: Nodes, unlinked: Nodes, end: Nodes, expected: map<Path, bytes>)
    requires WritesOnly(start, written, expected) && forall p :: p in expected ==> Managed(l, p)
    requires unlinked == written - (ManagedFiles(l, written) - expected.Keys) && Less(unlinked, end)
    requires forall q :: q in unlinked && q !in end ==> Managed(l, q)
    ensures Untouched(l, start, end)
  {}

  lemma NothingDoomed(l: Layout, nodes: Nodes, expected: map<Path, bytes>)
    ensures Agrees(l, nodes, expected) ==> nodes - (ManagedFiles(l, nodes) - expected.Keys) == nodes
  {}

  lemma Unlinked(l: Layout, written: Nodes, expected: map<Path, bytes>)
    requires l.Valid() && Listable(l, written) && HasAll(written, expected) && forall p :: p in expected ==> Managed(l, p)
    ensures Agrees(l, written - (ManagedFiles(l, written) - expected.Keys), expected)
  {
    var doomed := ManagedFiles(l, written) - expected.Keys;
    var after := written - doomed;
    forall p | p in expected ensures Holds(after, p, expected[p]) && p in ManagedFiles(l, after) { assert Holds(written, p, expected[p]); }
    assert ManagedFiles(l, after) == expected.Keys;
    LessListable(l, written, after);
  }

  lemma StillAgrees(l: Layout, before: Nodes, after: Nodes, expected: map<Path, bytes>)
    requires l.Valid() && Agrees(l, before, expected) && Less(before, after)
    requires forall q :: q in before && q !in after ==> before[q] == Directory && Managed(l, q)
    ensures Agrees(l, after, expected)
  {
    forall p | p in expected ensures p in after && after[p] == File(expected[p]) { assert p in before; }
    assert ManagedFiles(l, after) == ManagedFiles(l, before);
    LessListable(l, before, after);
  }

  function DirectoriesBelow(nodes: Nodes, root: Path): set<Path> {
    set d | d in nodes && nodes[d] == Directory && Below(d, root)
  }

  /** The first `i` directories are gone or have a child; the others are still there. */
  ghost predicate Handled(nodes: Nodes, dirs: seq<Path>, i: nat) {
    && (forall j :: 0 <= j < i && j < |dirs| && dirs[j] in nodes ==> HasChild(nodes, dirs[j]))
    && (forall j :: i <= j < |dirs| ==> dirs[j] in nodes)
  }

  lemma InOrder(nodes: Nodes, root: Path, dirs: seq<Path>)
    requires forall d :: d in dirs <==> d in DirectoriesBelow(nodes, root)
    ensures Handled(nodes, dirs, 0) && forall j :: 0 <= j < |dirs| ==> dirs[j] in DirectoriesBelow(nodes, root)
  {
    forall j | 0 <= j < |dirs| ensures dirs[j] in DirectoriesBelow(nodes, root) { assert dirs[j] in dirs; }
  }

  lemma RemovalHandled(nodes: Nodes, dirs: seq<Path>, i: nat)
    requires Lex.Descending(ComparePaths, dirs) && i < |dirs| && Handled(nodes, dirs, i)
    ensures Handled(nodes - {dirs[i]}, dirs, i + 1)
  {
    PathOrder();
    var after := nodes - {dirs[i]};
    forall j | 0 <= j <= i && dirs[j] in after ensures HasChild(after, dirs[j]) {
      if j < i { ChildStays(nodes, dirs, i, j); }
    }
    forall j | i < j < |dirs| ensures dirs[j] in after { assert ComparePaths(dirs[j], dirs[i]) < 0; }
  }

  lemma AllHandled(before: Nodes, after: Nodes, root: Path, dirs: seq<Path>)
    requires Less(before, after) && Handled(after, dirs, |dirs|)
    requires forall d :: d in dirs <==> d in DirectoriesBelow(before, root)
    ensures PrunedRoot(after, root)
  {
    forall d | d in after && after[d] == Directory && Below(d, root) ensures HasChild(after, d) {
      assert d in DirectoriesBelow(before, root);
      var j :| 0 <= j < |dirs| && dirs[j] == d;
    }
  }

  /** Removing a directory cannot take a child from one that was handled before it. */
  lemma ChildStays(nodes: Nodes, dirs: seq<Path>, i: nat, j: nat)
    requires Lex.Descending(ComparePaths, dirs) && j < i < |dirs| && HasChild(nodes, dirs[j])
    ensures HasChild(nodes - {dirs[i]}, dirs[j])
  {
    PathOrder();
    var c :| c in nodes && c != [] && Parent(c) == dirs[j];
    assert ComparePaths(dirs[i], dirs[j]) < 0;
    if c == dirs[i] { PrefixFirst(dirs[j], dirs[i]); }
    assert c in nodes - {dirs[i]};
  }
}
