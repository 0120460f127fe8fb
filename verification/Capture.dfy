/** Sealing a deployment capture into one archive, and extracting it again: what is sealed always
    passes the extractor's checks and comes back unchanged. */
module Capture {
  import opened Options
  import Lex
  import opened Ustar
  import opened TarArchive

  const MAX_JSON_BYTES := 8 * 1024 * 1024
  const MAX_ARCHIVE_BYTES := 32 * 1024 * 1024
  const MAX_ARCHIVE_FILES := 64
  const MAX_TOTAL_EXTRACTED := 64 * 1024 * 1024
  const DOT: byte := 46

  /** The compressor, of which only the round trip is used. */
  datatype Gzip = Gzip(compress: bytes -> bytes, decompress: bytes -> Option<bytes>)

  ghost predicate Lossless(z: Gzip) {
    forall x :: z.decompress(z.compress(x)) == Some(x)
  }

  // ---------------------------------------------------------------- names

  function Ascii(s: string): (b: bytes)
    ensures |b| == |s|
    ensures forall i :: 0 <= i < |s| ==> b[i] == if s[i] < 128 as char then s[i] as int else 0
  {
    seq(|s|, i requires 0 <= i < |s| => if s[i] < 128 as char then s[i] as int else 0)
  }

  /** A path of one component. */
  predicate PlainName(name: bytes) {
    name != [] && SLASH !in name && name != [DOT] && name != [DOT, DOT]
  }

  /** The files of a capture, in the order the seal writes them. */
  function SealedNames(): seq<bytes> {
    [Ascii("control_plane.json"), Ascii("health.json"), Ascii("identity.json"), Ascii("manifest.json"),
     Ascii("migration.json"), Ascii("readiness.json"), Ascii("secrets.json"), Ascii("shutdown.json")]
  }

  lemma {:induction false} DiffersAt(a: bytes, b: bytes, k: nat)
    requires k < |a| && k < |b| && a[..k] == b[..k] && a[k] < b[k]
    ensures CompareNames(a, b) < 0
    decreases k
  {
    if k > 0 {
      assert a[0] == a[..k][0] == b[..k][0] == b[0];
      assert a[1..][..k - 1] == a[..k][1..] && b[1..][..k - 1] == b[..k][1..];
      DiffersAt(a[1..], b[1..], k - 1);
    }
  }

  lemma SealedBytes()
    ensures var n := SealedNames();
            && n[0][0] == 99 && n[1][0] == 104 && n[2][0] == 105 && n[3][0] == 109 && n[3][1] == 97
            && n[4][0] == 109 && n[4][1] == 105 && n[5][0] == 114 && n[6][0] == 115 && n[6][1] == 101
            && n[7][0] == 115 && n[7][1] == 104
  {}

  lemma NextSorted(s: seq<bytes>, i: nat, k: nat)
    requires 0 < i < |s| && Lex.StrictlySorted(CompareNames, s[..i])
    requires k <= 1 && k < |s[i - 1]| && k < |s[i]| && s[i - 1][k] < s[i][k] && (k == 1 ==> s[i - 1][0] == s[i][0])
    ensures Lex.StrictlySorted(CompareNames, s[..i + 1])
  {
    NameOrder();
    DiffersAt(s[i - 1], s[i], k);
    Lex.StepSorted(CompareNames, s, i);
  }

  lemma SealedNamesSorted()
    ensures Lex.StrictlySorted(CompareNames, SealedNames())
  {
    var n := SealedNames();
    SealedBytes();
    assert Lex.StrictlySorted(CompareNames, n[..1]);
    NextSorted(n, 1, 0);
    NextSorted(n, 2, 0);
    NextSorted(n, 3, 0);
    NextSorted(n, 4, 1);
    NextSorted(n, 5, 0);
    NextSorted(n, 6, 0);
    NextSorted(n, 7, 1);
    assert n[..8] == n;
  }

  predicate Letter(c: char) {
    'a' <= c <= 'z' || c == '_' || c == '.'
  }

  lemma LetterName(s: string)
    requires 2 < |s| <= 100 && forall i :: 0 <= i < |s| ==> Letter(s[i])
    ensures PlainName(Ascii(s)) && |Ascii(s)| <= 100 && NUL !in Ascii(s)
  {
    forall i | 0 <= i < |s| ensures Ascii(s)[i] != 0 && Ascii(s)[i] != SLASH { assert Letter(s[i]); }
  }

  lemma SealedNamesPlain(i: nat)
    requires i < 8
    ensures PlainName(SealedNames()[i]) && |SealedNames()[i]| <= 100 && NUL !in SealedNames()[i]
  {
    var text := ["control_plane.json", "health.json", "identity.json", "manifest.json",
                 "migration.json", "readiness.json", "secrets.json", "shutdown.json"][i];
    assert SealedNames()[i] == Ascii(text);
    LetterName(text);
  }

  // ---------------------------------------------------------------- extraction

  function ByName(es: seq<Entry>): map<bytes, bytes> {
    if es == [] then map[] else ByName(es[..|es| - 1])[es[|es| - 1].name := es[|es| - 1].data]
  }

  predicate RegularKind(kind: byte) {
    kind == REGULAR || kind == 0 || kind == 55
  }

  predicate EntrySafe(h: Parsed) {
    && h.Member? && RegularKind(h.kind) && PlainName(h.name)
    && h.uid == 0 && h.gid == 0 && h.mtime == 0 && h.mode == FILE_MODE
  }

  function Size(h: Parsed): nat {
    if h.Member? then h.size else 0
  }

  function Total(ms: seq<TarMember>): nat {
    if ms == [] then 0 else Total(ms[..|ms| - 1]) + Size(ms[|ms| - 1].header)
  }

  lemma {:induction false} TotalGrows(ms: seq<TarMember>, i: nat)
    requires i <= |ms|
    ensures Total(ms[..i]) <= Total(ms)
    decreases |ms|
  {
    if i < |ms| {
      assert ms[..|ms| - 1][..i] == ms[..i];
      TotalGrows(ms[..|ms| - 1], i);
    } else {
      assert ms[..i] == ms;
    }
  }

  predicate MembersExtractable(ms: seq<TarMember>) {
    && 1 <= |ms| <= MAX_ARCHIVE_FILES
    && (forall i :: 0 <= i < |ms| ==> EntrySafe(ms[i].header) && Size(ms[i].header) <= MAX_JSON_BYTES)
    && Total(ms) <= MAX_TOTAL_EXTRACTED
  }

  /** What the extractor accepts. */
  ghost predicate Extractable(f: Format, z: Gzip, archive: bytes) {
    && |archive| <= MAX_ARCHIVE_BYTES
    && z.decompress(archive).Some?
    && var tar := z.decompress(archive).value;
    && Members(f, tar, 0).Some?
    && var ms := Members(f, tar, 0).value;
    && MembersExtractable(ms)
    && Lex.StrictlySorted(CompareNames, MemberNames(ms))
  }

  ghost function Extracted(f: Format, z: Gzip, archive: bytes): map<bytes, bytes>
    requires Extractable(f, z, archive)
  {
    var tar := z.decompress(archive).value;
    ByName(EntriesOf(tar, Members(f, tar, 0).value))
  }

  method CheckMembers(ms: seq<TarMember>) returns (ok: bool)
    ensures ok <==> MembersExtractable(ms)
  {
    if !(1 <= |ms| <= MAX_ARCHIVE_FILES) { return false; }
    var total := 0;
    for i := 0 to |ms|
      invariant forall j :: 0 <= j < i ==> EntrySafe(ms[j].header) && Size(ms[j].header) <= MAX_JSON_BYTES
      invariant total == Total(ms[..i]) <= MAX_TOTAL_EXTRACTED
    {
      if !EntrySafe(ms[i].header) { return false; }
      total := total + ms[i].header.size;
      assert ms[..i + 1][..i] == ms[..i];
      if ms[i].header.size > MAX_JSON_BYTES || total > MAX_TOTAL_EXTRACTED {
        TotalGrows(ms, i + 1);
        return false;
      }
    }
    assert ms[..|ms|] == ms;
    ok := true;
  }

  /** `extract_capture`: the files written to the destination, if every check passes. */
  method ExtractCapture(f: Format, z: Gzip, archive: bytes) returns (files: Option<map<bytes, bytes>>)
    ensures files.Some? <==> Extractable(f, z, archive)
    ensures files.Some? ==> files.value == Extracted(f, z, archive)
  {
    if |archive| > MAX_ARCHIVE_BYTES { return None; }
    var unzipped := z.decompress(archive);
    if unzipped.None? { return None; }
    var tar := unzipped.value;
    var found := Members(f, tar, 0);
    if found.None? { return None; }
    var ms := found.value;
    var ok := CheckMembers(ms);
    if !ok { return None; }
    NameOrder();
    var sorted := Lex.IsStrictlySorted(CompareNames, MemberNames(ms));
    if !sorted { return None; }
    var written := WriteAll(EntriesOf(tar, ms));
    files := Some(written);
  }

  method WriteAll(es: seq<Entry>) returns (files: map<bytes, bytes>)
    ensures files == ByName(es)
  {
    files := map[];
    for i := 0 to |es|
      invariant files == ByName(es[..i])
    {
      assert es[..i + 1][..i] == es[..i];
      files := files[es[i].name := es[i].data];
    }
    assert es[..|es|] == es;
  }

  // ---------------------------------------------------------------- sealing

  datatype Node = File(data: bytes) | Directory | Link

  /** `validate_capture` reads every observation, bounding its size; what it concludes from their
      contents is `valid`. */
  predicate ReadableCapture(directory: map<bytes, Node>) {
    forall i :: 0 <= i < 8 ==>
      var name := SealedNames()[i];
      name in directory && directory[name].File? && |directory[name].data| <= MAX_JSON_BYTES
  }

  predicate OnlySealed(directory: map<bytes, Node>) {
    forall name :: name in directory ==> directory[name].File? && name in SealedNames()
  }

  function EntryAt(directory: map<bytes, Node>, name: bytes): Entry {
    Entry(name, if name in directory && directory[name].File? then directory[name].data else [])
  }

  function EntriesAt(directory: map<bytes, Node>, names: seq<bytes>): seq<Entry> {
    seq(|names|, i requires 0 <= i < |names| => EntryAt(directory, names[i]))
  }

  function SealedEntries(directory: map<bytes, Node>): seq<Entry> {
    EntriesAt(directory, SealedNames())
  }

  function Contents(directory: map<bytes, Node>): map<bytes, bytes> {
    map name | name in directory && directory[name].File? :: directory[name].data
  }

  /** The records of a capture, file by file. */
  method WriteRecords(f: Format, directory: map<bytes, Node>, names: seq<bytes>) returns (records: bytes)
    ensures records == Records(f, EntriesAt(directory, names), 0)
  {
    records := [];
    ghost var entries := EntriesAt(directory, names);
    for i := 0 to |names|
      invariant records == Records(f, entries[..i], 0)
    {
      var e := EntryAt(directory, names[i]);
      RecordsStep(f, entries, i);
      records := records + Record(f, e, 0);
    }
    assert entries[..|names|] == entries;
  }

  lemma RecordsStep(f: Format, entries: seq<Entry>, i: nat)
    requires i < |entries|
    ensures Records(f, entries[..i + 1], 0) == Records(f, entries[..i], 0) + Record(f, entries[i], 0)
  {
    var last := [entries[i]];
    assert entries[..i + 1] == entries[..i] + last;
    RecordsConcat(f, entries[..i], last, 0);
    assert last[1..] == [];
    assert Records(f, last, 0) == Record(f, entries[i], 0) + Records(f, [], 0) == Record(f, entries[i], 0);
  }

  /** `seal_capture`: one record per file, in name order, with fixed metadata. */
  method SealCapture(f: Format, z: Gzip, directory: map<bytes, Node>, valid: bool) returns (archive: Option<bytes>)
    ensures var sealed := z.compress(Archive(f, SealedEntries(directory), 0));
            archive == if valid && ReadableCapture(directory) && OnlySealed(directory) && |sealed| <= MAX_ARCHIVE_BYTES
                       then Some(sealed) else None
  {
    if !ReadableCapture(directory) || !valid || !OnlySealed(directory) { return None; }
    var records := WriteRecords(f, directory, SealedNames());
    var sealed := z.compress(records + Zeros(CanonicalSize(|records|) - |records|));
    if |sealed| > MAX_ARCHIVE_BYTES { return None; }
    archive := Some(sealed);
  }

  // ---------------------------------------------------------------- the round trip

  /** Entries an archive of plain files may have. */
  ghost predicate PlainEntries(es: seq<Entry>) {
    && Writable(es, 0) && Lex.StrictlySorted(CompareNames, Names(es))
    && forall i :: 0 <= i < |es| ==> PlainName(es[i].name)
  }

  function TotalData(es: seq<Entry>): nat {
    if es == [] then 0 else TotalData(es[..|es| - 1]) + |es[|es| - 1].data|
  }

  lemma {:induction false} TotalOfEntries(es: seq<Entry>, ms: seq<TarMember>)
    requires |es| == |ms| && forall i :: 0 <= i < |es| ==> Size(ms[i].header) == |es[i].data|
    ensures Total(ms) == TotalData(es)
    decreases |es|
  {
    if es != [] { TotalOfEntries(es[..|es| - 1], ms[..|ms| - 1]); }
  }

  lemma PlainMembers(f: Format, es: seq<Entry>)
    requires Faithful(f)
    ensures |MembersOf(es, 0, 0)| == |es|
    ensures forall i :: 0 <= i < |es| ==> MembersOf(es, 0, 0)[i].header == MemberOf(es[i], 0, 0).header
  {
    if es != [] { EntryBack(f, es, 0, 0); }
    forall i | 0 <= i < |es| ensures MembersOf(es, 0, 0)[i].header == MemberOf(es[i], 0, 0).header { EntryBack(f, es, 0, i); }
  }

  /** The size limits of the extractor. */
  predicate WithinLimits(es: seq<Entry>) {
    && 1 <= |es| <= MAX_ARCHIVE_FILES
    && (forall i :: 0 <= i < |es| ==> |es[i].data| <= MAX_JSON_BYTES)
    && TotalData(es) <= MAX_TOTAL_EXTRACTED
  }

  lemma ExtractsMembers(f: Format, z: Gzip, archive: bytes, tar: bytes, ms: seq<TarMember>)
    requires z.decompress(archive) == Some(tar) && Members(f, tar, 0) == Some(ms)
    ensures Extractable(f, z, archive) <==>
              |archive| <= MAX_ARCHIVE_BYTES && MembersExtractable(ms) && Lex.StrictlySorted(CompareNames, MemberNames(ms))
    ensures Extractable(f, z, archive) ==> Extracted(f, z, archive) == ByName(EntriesOf(tar, ms))
  {}

  /** The extractor's checks, on an archive of plain files: only the size limits can fire. */
  lemma ExtractableIff(f: Format, z: Gzip, es: seq<Entry>)
    requires Faithful(f) && Lossless(z) && PlainEntries(es)
    ensures var archive := z.compress(Archive(f, es, 0));
            && (Extractable(f, z, archive) <==> |archive| <= MAX_ARCHIVE_BYTES && WithinLimits(es))
            && (Extractable(f, z, archive) ==> Extracted(f, z, archive) == ByName(es))
  {
    var tar, ms := Archive(f, es, 0), MembersOf(es, 0, 0);
    WalkArchive(f, es, 0);
    EntriesBack(f, es, 0);
    PlainMembers(f, es);
    MembersExtractableIff(es, ms);
    assert z.decompress(z.compress(tar)) == Some(tar);
    ExtractsMembers(f, z, z.compress(tar), tar, ms);
  }

  lemma MembersExtractableIff(es: seq<Entry>, ms: seq<TarMember>)
    requires |ms| == |es| && forall i :: 0 <= i < |es| ==> PlainName(es[i].name) && ms[i].header == MemberOf(es[i], 0, 0).header
    ensures MembersExtractable(ms) <==> WithinLimits(es)
  {
    forall i | 0 <= i < |es| ensures EntrySafe(ms[i].header) && Size(ms[i].header) == |es[i].data| {
      assert ms[i].header == MemberOf(es[i], 0, 0).header;
    }
    TotalOfEntries(es, ms);
  }

  lemma {:induction false} EightFit(es: seq<Entry>)
    requires forall i :: 0 <= i < |es| ==> |es[i].data| <= MAX_JSON_BYTES
    ensures TotalData(es) <= |es| * MAX_JSON_BYTES
  {
    if es != [] { EightFit(es[..|es| - 1]); }
  }

  lemma {:induction false} ByNameHolds(es: seq<Entry>)
    requires forall i, j :: 0 <= i < j < |es| ==> es[i].name != es[j].name
    ensures forall name :: name in ByName(es) <==> exists i :: 0 <= i < |es| && es[i].name == name
    ensures forall i :: 0 <= i < |es| ==> es[i].name in ByName(es) && ByName(es)[es[i].name] == es[i].data
  {
    if es != [] {
      var before := es[..|es| - 1];
      ByNameHolds(before);
      forall name ensures name in ByName(es) <==> exists i :: 0 <= i < |es| && es[i].name == name {
        if name in ByName(before) { var i :| 0 <= i < |before| && before[i].name == name; assert es[i].name == name; }
        if i :| 0 <= i < |es| && es[i].name == name { assert i < |before| ==> before[i].name == name; }
      }
    }
  }

  lemma SealedEntriesPlain(directory: map<bytes, Node>)
    requires ReadableCapture(directory)
    ensures PlainEntries(SealedEntries(directory))
  {
    var es := SealedEntries(directory);
    assert Pow8(11) == 8589934592;
    forall i | 0 <= i < 8 ensures PlainName(es[i].name) && Representable(es[i].name, |es[i].data|, 0) {
      SealedNamesPlain(i);
    }
    SealedNamesSorted();
    assert Names(es) == SealedNames();
  }

  lemma ContentsOfNames(directory: map<bytes, Node>, names: seq<bytes>, es: seq<Entry>)
    requires |es| == |names| && forall i :: 0 <= i < |names| ==> es[i] == EntryAt(directory, names[i])
    requires forall i, j :: 0 <= i < j < |names| ==> names[i] != names[j]
    requires forall i :: 0 <= i < |names| ==> names[i] in directory && directory[names[i]].File?
    requires forall name :: name in directory ==> directory[name].File? && name in names
    ensures ByName(es) == Contents(directory)
  {
    ByNameHolds(es);
    var found, wanted := ByName(es), Contents(directory);
    forall name ensures name in found <==> name in wanted {
      if name in wanted { var i :| 0 <= i < |names| && names[i] == name; assert es[i].name == name; }
      if name in found { var i :| 0 <= i < |es| && es[i].name == name; assert names[i] == name; }
    }
    forall name | name in found ensures found[name] == wanted[name] {
      var i :| 0 <= i < |es| && es[i].name == name;
      assert es[i] == EntryAt(directory, names[i]);
    }
  }

  lemma SealedDistinct(i: nat, j: nat)
    requires i < j < 8
    ensures SealedNames()[i] != SealedNames()[j]
  {
    SealedNamesSorted();
    NameOrder();
    assert CompareNames(SealedNames()[i], SealedNames()[j]) < 0;
  }

  lemma SealedContents(directory: map<bytes, Node>)
    requires ReadableCapture(directory) && OnlySealed(directory)
    ensures ByName(SealedEntries(directory)) == Contents(directory)
  {
    var names := SealedNames();
    forall i, j | 0 <= i < j < 8 ensures names[i] != names[j] { SealedDistinct(i, j); }
    ContentsOfNames(directory, names, SealedEntries(directory));
  }

  /** Sealing and extracting: no check of the extractor fires on a sealed capture, and the files come
      back exactly. Eight files of 8 MiB fill the 64 MiB limit without passing it. */
  lemma SealThenExtract(f: Format, z: Gzip, directory: map<bytes, Node>)
    requires Faithful(f) && Lossless(z) && ReadableCapture(directory) && OnlySealed(directory)
    requires |z.compress(Archive(f, SealedEntries(directory), 0))| <= MAX_ARCHIVE_BYTES
    ensures Extractable(f, z, z.compress(Archive(f, SealedEntries(directory), 0)))
    ensures Extracted(f, z, z.compress(Archive(f, SealedEntries(directory), 0))) == Contents(directory)
  {
    var es := SealedEntries(directory);
    SealedEntriesPlain(directory);
    SealedContents(directory);
    EightFit(es);
    ExtractableIff(f, z, es);
  }

  /** So a sealed archive determines the capture it was made from. */
  lemma SealedInjective(f: Format, z: Gzip, a: map<bytes, Node>, b: map<bytes, Node>)
    requires Faithful(f) && Lossless(z)
    requires ReadableCapture(a) && OnlySealed(a) && ReadableCapture(b) && OnlySealed(b)
    requires z.compress(Archive(f, SealedEntries(a), 0)) == z.compress(Archive(f, SealedEntries(b), 0))
    ensures a == b
  {
    var left, right := SealedEntries(a), SealedEntries(b);
    assert z.decompress(z.compress(Archive(f, left, 0))) == Some(Archive(f, left, 0));
    assert z.decompress(z.compress(Archive(f, right, 0))) == Some(Archive(f, right, 0));
    SealedEntriesPlain(a);
    SealedEntriesPlain(b);
    WalkArchive(f, left, 0);
    WalkArchive(f, right, 0);
    EntriesBack(f, left, 0);
    EntriesBack(f, right, 0);
    SealedContents(a);
    SealedContents(b);
    SameContents(a, b);
  }

  lemma SameContents(a: map<bytes, Node>, b: map<bytes, Node>)
    requires OnlySealed(a) && OnlySealed(b) && Contents(a) == Contents(b)
    ensures a == b
  {
    forall name ensures (name in a <==> name in b) && (name in a && name in b ==> a[name] == b[name]) {
      assert name in Contents(a) <==> name in Contents(b);
    }
  }
}
