/** The strict acceptor for SDK documentation bundles: an archive is accepted exactly when it is the
    canonical archive of a valid set of files, so accepted archives are unique. */
module DocsBundle {
  import opened Options
  import Lex
  import opened Ustar
  import opened TarArchive

  const MAX_TAR_BYTES := 64 * 1024 * 1024
  const MAX_MEMBER_BYTES := 8 * 1024 * 1024
  const MAX_MEMBERS := 64
  const DOT: byte := 46
  const BACKSLASH: byte := 92
  const DELETE: byte := 127

  // ---------------------------------------------------------------- paths

  function Split(path: bytes): (parts: seq<bytes>)
    ensures |parts| >= 1
  {
    if path == [] then [[]]
    else
      var rest := Split(path[1..]);
      if path[0] == SLASH then [[]] + rest else [[path[0]] + rest[0]] + rest[1..]
  }

  function Join(parts: seq<bytes>): bytes
    requires |parts| >= 1
  {
    if |parts| == 1 then parts[0] else parts[0] + [SLASH] + Join(parts[1..])
  }

  lemma {:induction false} JoinSplit(path: bytes)
    ensures Join(Split(path)) == path
  {
    if path != [] {
      var rest := Split(path[1..]);
      JoinSplit(path[1..]);
      if path[0] == SLASH {
        assert ([[]] + rest)[1..] == rest;
      } else if |rest| > 1 {
        assert Split(path)[1..] == rest[1..];
      }
    }
  }

  /** `safe_relative`: a canonical printable relative path. */
  predicate SafePath(path: bytes) {
    && (forall i :: 0 <= i < |path| ==> path[i] >= 32 && path[i] != DELETE && path[i] != BACKSLASH)
    && forall i :: 0 <= i < |Split(path)| ==> Split(path)[i] != [] && Split(path)[i] != [DOT] && Split(path)[i] != [DOT, DOT]
  }

  /** A member name below the bundle root. */
  predicate MemberName(root: bytes, name: bytes) {
    SafePath(name) && |Split(name)| >= 2 && Split(name)[0] == root
  }

  function Relative(name: bytes): bytes {
    if |Split(name)| >= 2 then Join(Split(name)[1..]) else []
  }

  lemma NameFromRelative(root: bytes, name: bytes)
    requires MemberName(root, name)
    ensures name == root + [SLASH] + Relative(name)
  {
    JoinSplit(name);
  }

  // ---------------------------------------------------------------- valid bundles

  /** The bundle's coordinates: its root directory, its time, and which names decode as UTF-8. */
  datatype Bundle = Bundle(root: bytes, epoch: nat, decodable: bytes -> bool)
  {
    predicate Valid() { epoch < 0x1_0000_0000 }
  }

  predicate NameOk(b: Bundle, name: bytes) {
    MemberName(b.root, name) && |name| <= 100 && b.decodable(name)
  }

  /** What a bundle may contain. */
  ghost predicate ValidEntries(b: Bundle, es: seq<Entry>) {
    && 1 <= |es| <= MAX_MEMBERS
    && Lex.StrictlySorted(CompareNames, Names(es))
    && forall i :: 0 <= i < |es| ==> NameOk(b, es[i].name) && |es[i].data| <= MAX_MEMBER_BYTES
  }

  function FileMap(es: seq<Entry>): map<bytes, bytes> {
    if es == [] then map[] else FileMap(es[..|es| - 1])[Relative(es[|es| - 1].name) := es[|es| - 1].data]
  }

  lemma EntriesWritable(b: Bundle, es: seq<Entry>)
    requires b.Valid() && ValidEntries(b, es)
    ensures Writable(es, b.epoch)
  {
    assert Pow8(11) == 8589934592;
    forall i | 0 <= i < |es| ensures Representable(es[i].name, |es[i].data|, b.epoch) {
      assert NameOk(b, es[i].name);
      assert Split([]) == [[]];
    }
  }

  // ---------------------------------------------------------------- the acceptor's conditions

  /** A member's header and padding are exactly what would be written for it. */
  ghost predicate Canonical(f: Format, epoch: nat, tar: bytes, m: TarMember) {
    && m.header.Member?
    && var offset, size := m.offset, m.header.size;
    && offset + BLOCK + Padded(size) <= |tar|
    && tar[offset..offset + BLOCK] == f.header(m.header.name, size, epoch)
    && AllZero(tar[offset + BLOCK + size..offset + BLOCK + Padded(size)])
  }

  /** One member, against the archive bytes. */
  ghost predicate MemberOk(f: Format, b: Bundle, tar: bytes, m: TarMember) {
    Canonical(f, b.epoch, tar, m) && NameOk(b, m.header.name) && m.header.size <= MAX_MEMBER_BYTES
  }

  ghost predicate AllCanonical(f: Format, epoch: nat, tar: bytes, ms: seq<TarMember>) {
    forall i :: 0 <= i < |ms| ==> Canonical(f, epoch, tar, ms[i])
  }

  ghost predicate AllOk(f: Format, b: Bundle, tar: bytes, ms: seq<TarMember>) {
    forall i :: 0 <= i < |ms| ==> MemberOk(f, b, tar, ms[i])
  }

  /** Everything after the last payload: zeros, up to the canonical length. */
  ghost predicate EndOk(tar: bytes, end: nat) {
    end <= |tar| == CanonicalSize(end) && AllZero(tar[end..])
  }

  ghost predicate Accepted(f: Format, b: Bundle, tar: bytes) {
    && Members(f, tar, 0).Some?
    && var ms := Members(f, tar, 0).value;
    && 1 <= |ms| <= MAX_MEMBERS
    && AllOk(f, b, tar, ms)
    && Lex.StrictlySorted(CompareNames, MemberNames(ms))
    && EndOk(tar, EndOf(ms[|ms| - 1]))
    && |tar| <= MAX_TAR_BYTES
  }

  // ---------------------------------------------------------------- accepted means canonical

  lemma RecordOf(tar: bytes, offset: nat, size: nat, header: bytes)
    requires |header| == BLOCK && offset + BLOCK + Padded(size) <= |tar| && tar[offset..offset + BLOCK] == header
    requires AllZero(tar[offset + BLOCK + size..offset + BLOCK + Padded(size)])
    ensures tar[offset..offset + BLOCK + Padded(size)] == header + Payload(tar[offset + BLOCK..offset + BLOCK + size])
  {
    var data := offset + BLOCK;
    var padding := tar[data + size..data + Padded(size)];
    AllZeroIsZeros(padding);
    assert tar[offset..data + Padded(size)] == tar[offset..data] + (tar[data..data + size] + padding);
  }

  /** One accepted member occupies exactly its canonical record. */
  lemma MemberIsRecord(f: Format, epoch: nat, tar: bytes, m: TarMember)
    requires Faithful(f) && Canonical(f, epoch, tar, m)
    ensures tar[m.offset..EndOf(m)] == Record(f, EntryOf(tar, m), epoch)
  {
    RecordOf(tar, m.offset, m.header.size, f.header(m.header.name, m.header.size, epoch));
  }

  lemma Glue(tar: bytes, a: nat, b: nat, c: nat, left: bytes, right: bytes)
    requires a <= b <= c <= |tar| && tar[a..b] == left && tar[b..c] == right
    ensures tar[a..c] == left + right
  {}

  function LastEnd(offset: nat, ms: seq<TarMember>): nat {
    if ms == [] then offset else EndOf(ms[|ms| - 1])
  }

  lemma RecordsHead(f: Format, tar: bytes, ms: seq<TarMember>, mtime: nat)
    requires ms != []
    ensures Records(f, EntriesOf(tar, ms), mtime) == Record(f, EntryOf(tar, ms[0]), mtime) + Records(f, EntriesOf(tar, ms[1..]), mtime)
  {
    assert EntriesOf(tar, ms)[1..] == EntriesOf(tar, ms[1..]);
  }

  /** Members one after the other. */
  ghost predicate Chained(ms: seq<TarMember>, offset: nat, limit: nat)
    decreases |ms|
  {
    offset <= limit && (ms == [] || (ms[0].offset == offset && offset <= EndOf(ms[0]) && Chained(ms[1..], EndOf(ms[0]), limit)))
  }

  lemma {:induction false} WalkChained(f: Format, tar: bytes, offset: nat, ms: seq<TarMember>)
    requires offset <= |tar| && Members(f, tar, offset) == Some(ms)
    ensures Chained(ms, offset, |tar|)
    decreases |ms|
  {
    if ms != [] {
      WalkHead(f, tar, offset, ms);
      WalkChained(f, tar, EndOf(ms[0]), ms[1..]);
    }
  }

  lemma {:induction false} ChainEnds(ms: seq<TarMember>, offset: nat, limit: nat)
    requires Chained(ms, offset, limit)
    ensures offset <= LastEnd(offset, ms) <= limit
    decreases |ms|
  {
    if ms != [] { ChainEnds(ms[1..], EndOf(ms[0]), limit); }
  }

  lemma TailCanonical(f: Format, epoch: nat, tar: bytes, ms: seq<TarMember>)
    requires AllCanonical(f, epoch, tar, ms) && ms != []
    ensures Canonical(f, epoch, tar, ms[0]) && AllCanonical(f, epoch, tar, ms[1..])
  {}

  lemma RecordsGlue(f: Format, tar: bytes, offset: nat, ms: seq<TarMember>, epoch: nat)
    requires ms != [] && offset <= EndOf(ms[0]) <= LastEnd(EndOf(ms[0]), ms[1..]) <= |tar|
    requires tar[offset..EndOf(ms[0])] == Record(f, EntryOf(tar, ms[0]), epoch)
    requires tar[EndOf(ms[0])..LastEnd(EndOf(ms[0]), ms[1..])] == Records(f, EntriesOf(tar, ms[1..]), epoch)
    ensures LastEnd(EndOf(ms[0]), ms[1..]) == LastEnd(offset, ms)
    ensures tar[offset..LastEnd(offset, ms)] == Records(f, EntriesOf(tar, ms), epoch)
  {
    RecordsHead(f, tar, ms, epoch);
    Glue(tar, offset, EndOf(ms[0]), LastEnd(offset, ms), Record(f, EntryOf(tar, ms[0]), epoch), Records(f, EntriesOf(tar, ms[1..]), epoch));
  }

  /** Accepted members occupy their canonical records one after the other. */
  lemma {:induction false} MembersAreRecords(f: Format, epoch: nat, tar: bytes, offset: nat, ms: seq<TarMember>)
    requires Faithful(f) && Chained(ms, offset, |tar|) && AllCanonical(f, epoch, tar, ms)
    ensures offset <= LastEnd(offset, ms) <= |tar|
    ensures tar[offset..LastEnd(offset, ms)] == Records(f, EntriesOf(tar, ms), epoch)
    decreases |ms|
  {
    ChainEnds(ms, offset, |tar|);
    if ms != [] {
      TailCanonical(f, epoch, tar, ms);
      MembersAreRecords(f, epoch, tar, EndOf(ms[0]), ms[1..]);
      MemberIsRecord(f, epoch, tar, ms[0]);
      RecordsGlue(f, tar, offset, ms, epoch);
    }
  }

  lemma AcceptedEntriesValid(f: Format, b: Bundle, tar: bytes, ms: seq<TarMember>)
    requires 1 <= |ms| <= MAX_MEMBERS && AllOk(f, b, tar, ms) && Lex.StrictlySorted(CompareNames, MemberNames(ms))
    ensures ValidEntries(b, EntriesOf(tar, ms))
  {
    var es := EntriesOf(tar, ms);
    forall i | 0 <= i < |es| ensures NameOk(b, es[i].name) && |es[i].data| <= MAX_MEMBER_BYTES && es[i].name == ms[i].header.name {
      assert MemberOk(f, b, tar, ms[i]);
    }
    assert Names(es) == MemberNames(ms);
  }

  lemma WithEnd(tar: bytes, end: nat, records: bytes)
    requires EndOk(tar, end) && tar[0..end] == records
    ensures tar == records + Zeros(CanonicalSize(|records|) - |records|)
  {
    AllZeroIsZeros(tar[end..]);
    assert tar == tar[0..end] + tar[end..];
  }

  lemma AcceptedRecords(f: Format, epoch: nat, tar: bytes, ms: seq<TarMember>)
    requires Faithful(f) && Chained(ms, 0, |tar|) && ms != [] && AllCanonical(f, epoch, tar, ms) && EndOk(tar, EndOf(ms[|ms| - 1]))
    ensures tar == Archive(f, EntriesOf(tar, ms), epoch)
  {
    MembersAreRecords(f, epoch, tar, 0, ms);
    WithEnd(tar, EndOf(ms[|ms| - 1]), Records(f, EntriesOf(tar, ms), epoch));
  }

  lemma AcceptedIsArchive(f: Format, b: Bundle, tar: bytes)
    requires Faithful(f) && Accepted(f, b, tar)
    ensures ValidEntries(b, EntriesOf(tar, Members(f, tar, 0).value))
    ensures tar == Archive(f, EntriesOf(tar, Members(f, tar, 0).value), b.epoch)
  {
    var ms := Members(f, tar, 0).value;
    WalkChained(f, tar, 0, ms);
    AcceptedRecords(f, b.epoch, tar, ms);
    AcceptedEntriesValid(f, b, tar, ms);
  }

  // ---------------------------------------------------------------- canonical means accepted

  lemma CanonicalRecord(f: Format, epoch: nat, tar: bytes, m: TarMember, e: Entry)
    requires Faithful(f) && m.header.Member? && m.header.name == e.name && m.header.size == |e.data|
    requires EndOf(m) <= |tar| && tar[m.offset..EndOf(m)] == Record(f, e, epoch)
    ensures Canonical(f, epoch, tar, m)
  {
    RecordParts(f, e, epoch);
    SlicesOfRecord(tar, m.offset, Record(f, e, epoch), |e.data|);
  }

  lemma WrittenCanonical(f: Format, epoch: nat, es: seq<Entry>, i: nat)
    requires Faithful(f) && i < |es|
    ensures |MembersOf(es, epoch, 0)| == |es|
    ensures MembersOf(es, epoch, 0)[i].header == MemberOf(es[i], epoch, 0).header
    ensures Canonical(f, epoch, Archive(f, es, epoch), MembersOf(es, epoch, 0)[i])
    ensures i == |es| - 1 ==> EndOf(MembersOf(es, epoch, 0)[i]) == |Records(f, es, epoch)|
  {
    var tar, records := Archive(f, es, epoch), Records(f, es, epoch);
    ArchiveSplits(f, es, epoch);
    WrittenMembers(f, [], es, epoch, tar[|records|..], i);
    CanonicalRecord(f, epoch, tar, MembersOf(es, epoch, 0)[i], es[i]);
  }

  lemma WrittenMemberOk(f: Format, b: Bundle, es: seq<Entry>, i: nat)
    requires Faithful(f) && i < |es| && NameOk(b, es[i].name) && |es[i].data| <= MAX_MEMBER_BYTES
    ensures |MembersOf(es, b.epoch, 0)| == |es| && MemberOk(f, b, Archive(f, es, b.epoch), MembersOf(es, b.epoch, 0)[i])
    ensures i == |es| - 1 ==> EndOf(MembersOf(es, b.epoch, 0)[i]) == |Records(f, es, b.epoch)|
  {
    WrittenCanonical(f, b.epoch, es, i);
  }

  lemma WrittenAllOk(f: Format, b: Bundle, es: seq<Entry>)
    requires Faithful(f) && b.Valid() && ValidEntries(b, es)
    ensures var tar, ms := Archive(f, es, b.epoch), MembersOf(es, b.epoch, 0);
            && |ms| == |es| && AllOk(f, b, tar, ms) && EndOf(ms[|ms| - 1]) == |Records(f, es, b.epoch)|
  {
    var tar, ms := Archive(f, es, b.epoch), MembersOf(es, b.epoch, 0);
    WrittenMemberOk(f, b, es, |es| - 1);
    forall i | 0 <= i < |ms| ensures MemberOk(f, b, tar, ms[i]) { WrittenMemberOk(f, b, es, i); }
  }

  lemma AcceptsMembers(f: Format, b: Bundle, tar: bytes, ms: seq<TarMember>)
    requires Members(f, tar, 0) == Some(ms) && 1 <= |ms| <= MAX_MEMBERS && AllOk(f, b, tar, ms)
    requires Lex.StrictlySorted(CompareNames, MemberNames(ms)) && EndOk(tar, EndOf(ms[|ms| - 1])) && |tar| <= MAX_TAR_BYTES
    ensures Accepted(f, b, tar)
  {}

  lemma ArchiveIsAccepted(f: Format, b: Bundle, es: seq<Entry>)
    requires Faithful(f) && b.Valid() && ValidEntries(b, es) && |Archive(f, es, b.epoch)| <= MAX_TAR_BYTES
    ensures Accepted(f, b, Archive(f, es, b.epoch))
  {
    var tar, ms := Archive(f, es, b.epoch), MembersOf(es, b.epoch, 0);
    EntriesWritable(b, es);
    WalkArchive(f, es, b.epoch);
    ArchiveSplits(f, es, b.epoch);
    WrittenAllOk(f, b, es);
    EntriesBack(f, es, b.epoch);
    AcceptsMembers(f, b, tar, ms);
  }

  // ---------------------------------------------------------------- uniqueness

  ghost predicate DistinctPaths(es: seq<Entry>) {
    forall i, j :: 0 <= i < j < |es| ==> Relative(es[i].name) != Relative(es[j].name)
  }

  lemma EntriesDistinct(b: Bundle, es: seq<Entry>)
    requires ValidEntries(b, es)
    ensures DistinctPaths(es)
  {
    NameOrder();
    forall i, j | 0 <= i < j < |es| ensures Relative(es[i].name) != Relative(es[j].name) {
      assert NameOk(b, es[i].name) && NameOk(b, es[j].name);
      assert CompareNames(Names(es)[i], Names(es)[j]) < 0;
      NameFromRelative(b.root, es[i].name);
      NameFromRelative(b.root, es[j].name);
    }
  }

  function Paths(es: seq<Entry>): seq<bytes> {
    seq(|es|, i requires 0 <= i < |es| => Relative(es[i].name))
  }

  /** Building a map entry by entry, for distinct keys. */
  function MapOf(keys: seq<bytes>, es: seq<Entry>): map<bytes, bytes>
    requires |keys| == |es|
  {
    if es == [] then map[] else MapOf(keys[..|es| - 1], es[..|es| - 1])[keys[|es| - 1] := es[|es| - 1].data]
  }

  lemma {:induction false} FileMapIs(es: seq<Entry>)
    ensures FileMap(es) == MapOf(Paths(es), es)
  {
    if es != [] {
      FileMapIs(es[..|es| - 1]);
      assert Paths(es)[..|es| - 1] == Paths(es[..|es| - 1]);
    }
  }

  lemma {:induction false} MapHas(keys: seq<bytes>, es: seq<Entry>, i: nat)
    requires |keys| == |es| && i < |es| && forall j :: i < j < |es| ==> keys[i] != keys[j]
    ensures keys[i] in MapOf(keys, es) && MapOf(keys, es)[keys[i]] == es[i].data
  {
    var n := |es| - 1;
    if i < n { MapHas(keys[..n], es[..n], i); }
  }

  lemma {:induction false} MapOnly(keys: seq<bytes>, es: seq<Entry>, path: bytes) returns (i: nat)
    requires |keys| == |es| && path in MapOf(keys, es)
    ensures i < |es| && keys[i] == path
  {
    var n := |es| - 1;
    if path == keys[n] { i := n; } else { i := MapOnly(keys[..n], es[..n], path); }
  }

  /** The file map holds the entries, under their paths. */
  lemma FileMapHas(es: seq<Entry>, i: nat)
    requires DistinctPaths(es) && i < |es|
    ensures Relative(es[i].name) in FileMap(es) && FileMap(es)[Relative(es[i].name)] == es[i].data
  {
    FileMapIs(es);
    assert forall j :: i < j < |es| ==> Paths(es)[i] != Paths(es)[j];
    MapHas(Paths(es), es, i);
  }

  /** And nothing else. */
  lemma FileMapOnly(es: seq<Entry>, path: bytes) returns (i: nat)
    requires path in FileMap(es)
    ensures i < |es| && Relative(es[i].name) == path
  {
    FileMapIs(es);
    i := MapOnly(Paths(es), es, path);
  }

  lemma NamesFromMap(b: Bundle, xs: seq<Entry>, ys: seq<Entry>, i: nat)
    requires ValidEntries(b, xs) && ValidEntries(b, ys) && FileMap(xs) == FileMap(ys) && i < |xs|
    ensures xs[i].name in Names(ys)
  {
    EntriesDistinct(b, xs);
    EntriesDistinct(b, ys);
    FileMapHas(xs, i);
    var j := FileMapOnly(ys, Relative(xs[i].name));
    assert NameOk(b, xs[i].name) && NameOk(b, ys[j].name);
    NameFromRelative(b.root, xs[i].name);
    NameFromRelative(b.root, ys[j].name);
    assert Names(ys)[j] == xs[i].name;
  }

  lemma NamesWithin(b: Bundle, xs: seq<Entry>, ys: seq<Entry>)
    requires ValidEntries(b, xs) && ValidEntries(b, ys) && FileMap(xs) == FileMap(ys)
    ensures Lex.Within(Names(xs), Names(ys))
  {
    forall i | 0 <= i < |xs| ensures Names(xs)[i] in Names(ys) { NamesFromMap(b, xs, ys, i); }
  }

  lemma SameSorted(a: seq<bytes>, b: seq<bytes>)
    requires Lex.StrictlySorted(CompareNames, a) && Lex.StrictlySorted(CompareNames, b) && Lex.Within(a, b) && Lex.Within(b, a)
    ensures a == b
  {
    NameOrder();
    Lex.SortedSame(CompareNames, a, b);
    Lex.SortedSame(CompareNames, b, a);
  }

  lemma SameNames(b: Bundle, xs: seq<Entry>, ys: seq<Entry>)
    requires ValidEntries(b, xs) && ValidEntries(b, ys) && FileMap(xs) == FileMap(ys)
    ensures Names(xs) == Names(ys)
  {
    NamesWithin(b, xs, ys);
    NamesWithin(b, ys, xs);
    SameSorted(Names(xs), Names(ys));
  }

  lemma SameData(xs: seq<Entry>, ys: seq<Entry>)
    requires DistinctPaths(xs) && DistinctPaths(ys) && Names(xs) == Names(ys) && FileMap(xs) == FileMap(ys)
    ensures xs == ys
  {
    assert |xs| == |Names(xs)| == |Names(ys)| == |ys|;
    forall i | 0 <= i < |xs| ensures xs[i] == ys[i] {
      assert xs[i].name == Names(xs)[i] == Names(ys)[i] == ys[i].name;
      FileMapHas(xs, i);
      FileMapHas(ys, i);
    }
  }

  /** The file map determines the entries and their order. */
  lemma EntriesUnique(b: Bundle, xs: seq<Entry>, ys: seq<Entry>)
    requires ValidEntries(b, xs) && ValidEntries(b, ys) && FileMap(xs) == FileMap(ys)
    ensures xs == ys
  {
    SameNames(b, xs, ys);
    EntriesDistinct(b, xs);
    EntriesDistinct(b, ys);
    SameData(xs, ys);
  }

  /** The files an accepted payload holds. */
  function FilesOf(f: Format, tar: bytes): map<bytes, bytes> {
    match Members(f, tar, 0)
    case None => map[]
    case Some(ms) => FileMap(EntriesOf(tar, ms))
  }

  /** Canonical archive uniqueness: two accepted payloads of one bundle that hold the same files are
      equal byte for byte. */
  lemma AcceptedUnique(f: Format, b: Bundle, x: bytes, y: bytes)
    requires Faithful(f) && Accepted(f, b, x) && Accepted(f, b, y) && FilesOf(f, x) == FilesOf(f, y)
    ensures x == y
  {
    var xs, ys := EntriesOf(x, Members(f, x, 0).value), EntriesOf(y, Members(f, y, 0).value);
    AcceptedIsArchive(f, b, x);
    AcceptedIsArchive(f, b, y);
    EntriesUnique(b, xs, ys);
  }

  /** Reading the canonical archive of a valid bundle gives back exactly its files. */
  lemma ArchiveFiles(f: Format, b: Bundle, es: seq<Entry>)
    requires Faithful(f) && b.Valid() && ValidEntries(b, es)
    ensures FilesOf(f, Archive(f, es, b.epoch)) == FileMap(es)
  {
    EntriesWritable(b, es);
    WalkArchive(f, es, b.epoch);
    EntriesBack(f, es, b.epoch);
  }

  /** An accepted payload is as short as it can be: the least multiple of 10240 that leaves two zero
      blocks after the last member. */
  lemma AcceptedLength(f: Format, b: Bundle, tar: bytes, n: nat)
    requires Accepted(f, b, tar)
    ensures var ms := Members(f, tar, 0).value;
            var end := EndOf(ms[|ms| - 1]);
            && |tar| % RECORD == 0 && |tar| >= end + 2 * BLOCK
            && (n % RECORD == 0 && n >= end + 2 * BLOCK ==> |tar| <= n)
  {
    var ms := Members(f, tar, 0).value;
    var end := EndOf(ms[|ms| - 1]);
    if n % RECORD == 0 && n >= end + 2 * BLOCK { CanonicalSizeLeast(end, n); }
  }

  // ---------------------------------------------------------------- the acceptor

  method CheckPadding(tar: bytes, from: nat, to: nat) returns (ok: bool)
    requires from <= to <= |tar|
    ensures ok <==> AllZero(tar[from..to])
  {
    for i := from to to
      invariant forall j :: from <= j < i ==> tar[j] == 0
    {
      if tar[i] != 0 {
        assert tar[from..to][i - from] == tar[i];
        return false;
      }
    }
    ok := true;
  }

  method CheckMember(f: Format, b: Bundle, tar: bytes, m: TarMember) returns (ok: bool)
    requires m.header.Member? && m.offset + BLOCK + Padded(m.header.size) <= |tar|
    ensures ok <==> MemberOk(f, b, tar, m)
  {
    var name, size, data := m.header.name, m.header.size, m.offset + BLOCK;
    if !NameOk(b, name) { return false; }
    if tar[m.offset..data] != f.header(name, size, b.epoch) { return false; }
    if size > MAX_MEMBER_BYTES { return false; }
    ok := CheckPadding(tar, data + size, data + Padded(size));
  }

  lemma FileMapStep(es: seq<Entry>, i: nat)
    requires i < |es|
    ensures FileMap(es[..i + 1]) == FileMap(es[..i])[Relative(es[i].name) := es[i].data]
  {
    assert es[..i + 1][..i] == es[..i];
  }

  method CheckMembers(f: Format, b: Bundle, tar: bytes, ms: seq<TarMember>) returns (ok: bool)
    requires forall i :: 0 <= i < |ms| ==> ms[i].header.Member? && EndOf(ms[i]) <= |tar|
    ensures ok <==> AllOk(f, b, tar, ms)
  {
    for i := 0 to |ms|
      invariant forall j :: 0 <= j < i ==> MemberOk(f, b, tar, ms[j])
    {
      ok := CheckMember(f, b, tar, ms[i]);
      if !ok { return; }
    }
    ok := true;
  }

  method CollectFiles(entries: seq<Entry>) returns (files: map<bytes, bytes>)
    ensures files == FileMap(entries)
  {
    files := map[];
    for i := 0 to |entries|
      invariant files == FileMap(entries[..i])
    {
      FileMapStep(entries, i);
      files := files[Relative(entries[i].name) := entries[i].data];
    }
    assert entries[..|entries|] == entries;
  }

  /** `archive_members` on what a bundle decompresses to. */
  method ArchiveMembers(f: Format, b: Bundle, tar: bytes) returns (files: Option<map<bytes, bytes>>)
    ensures files.Some? <==> Accepted(f, b, tar)
    ensures files.Some? ==> files.value == FilesOf(f, tar)
  {
    if tar == [] || |tar| > MAX_TAR_BYTES || |tar| % RECORD != 0 { return None; }
    NameOrder();
    var found := Members(f, tar, 0);
    if found.None? { return None; }
    var ms := found.value;
    if ms == [] || |ms| > MAX_MEMBERS { return None; }
    WalkBounds(f, tar, 0, ms);
    var sorted := Lex.IsStrictlySorted(CompareNames, MemberNames(ms));
    if !sorted { return None; }
    var ok := CheckMembers(f, b, tar, ms);
    if !ok { return None; }
    var end := EndOf(ms[|ms| - 1]);
    if |tar| != CanonicalSize(end) || exists i :: end <= i < |tar| && tar[i] != 0 {
      NotEnd(tar, end);
      return None;
    }
    assert EndOk(tar, end);
    var collected := CollectFiles(EntriesOf(tar, ms));
    files := Some(collected);
  }

  /** The acceptor accepts exactly the canonical archives of valid bundles. */
  lemma AcceptedIffArchive(f: Format, b: Bundle, tar: bytes)
    requires Faithful(f) && b.Valid()
    ensures Accepted(f, b, tar) <==> |tar| <= MAX_TAR_BYTES && exists es :: ValidEntries(b, es) && tar == Archive(f, es, b.epoch)
  {
    if Accepted(f, b, tar) { AcceptedIsArchive(f, b, tar); }
    if |tar| <= MAX_TAR_BYTES && exists es :: ValidEntries(b, es) && tar == Archive(f, es, b.epoch) {
      var es :| ValidEntries(b, es) && tar == Archive(f, es, b.epoch);
      ArchiveIsAccepted(f, b, es);
    }
  }

  lemma NotEnd(tar: bytes, end: nat)
    requires end <= |tar| && (|tar| != CanonicalSize(end) || exists i :: end <= i < |tar| && tar[i] != 0)
    ensures !EndOk(tar, end)
  {
    if i :| end <= i < |tar| && tar[i] != 0 { assert tar[end..][i - end] == tar[i]; }
  }

}
