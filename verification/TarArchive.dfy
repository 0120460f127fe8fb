/** Whole archives: writing entries in order, and walking an archive header by header. */
module TarArchive {
  import opened Options
  import Lex
  import opened Ustar

  datatype Entry = Entry(name: bytes, data: bytes)

  function Padded(n: nat): (p: nat)
    ensures n <= p < n + BLOCK && p % BLOCK == 0
  {
    (n + 511) / 512 * 512
  }

  function Payload(data: bytes): (s: bytes)
    ensures |s| == Padded(|data|)
  {
    data + Zeros(Padded(|data|) - |data|)
  }

  function Record(f: Format, e: Entry, mtime: nat): bytes {
    f.header(e.name, |e.data|, mtime) + Payload(e.data)
  }

  ghost predicate Writable(es: seq<Entry>, mtime: nat) {
    forall i :: 0 <= i < |es| ==> Representable(es[i].name, |es[i].data|, mtime)
  }

  function Records(f: Format, es: seq<Entry>, mtime: nat): bytes {
    if es == [] then [] else Record(f, es[0], mtime) + Records(f, es[1..], mtime)
  }

  /** Two zero blocks at least, up to a whole 10240-byte record. */
  function CanonicalSize(end: nat): (size: nat)
    ensures size % RECORD == 0 && size >= end + 2 * BLOCK
  {
    (end + 1024 + 10239) / 10240 * 10240
  }

  lemma CanonicalSizeLeast(end: nat, n: nat)
    requires n % RECORD == 0 && n >= end + 2 * BLOCK
    ensures CanonicalSize(end) <= n
  {}

  /** The archive tarfile writes for `es`. */
  function Archive(f: Format, es: seq<Entry>, mtime: nat): bytes {
    var records := Records(f, es, mtime);
    records + Zeros(CanonicalSize(|records|) - |records|)
  }

  lemma {:induction false} RecordsConcat(f: Format, a: seq<Entry>, b: seq<Entry>, mtime: nat)
    ensures Records(f, a + b, mtime) == Records(f, a, mtime) + Records(f, b, mtime)
  {
    if a == [] {
      assert a + b == b;
    } else {
      assert (a + b)[1..] == a[1..] + b;
      RecordsConcat(f, a[1..], b, mtime);
    }
  }

  // ---------------------------------------------------------------- reading

  datatype TarMember = TarMember(header: Parsed, offset: nat)

  /** `TarFile.getmembers` from `offset` on: stops at a zero block, an invalid header or the end of
      the input; fails if the input is empty or starts with an invalid header, or if a payload runs
      past the end. */
  function Members(f: Format, tar: bytes, offset: nat): Option<seq<TarMember>>
    requires offset <= |tar|
    decreases |tar| - offset
  {
    if |tar| - offset < BLOCK then (if offset == 0 then None else Some([]))
    else
      var header := f.parse(tar[offset..offset + BLOCK]);
      match header
      case End => Some([])
      case Invalid => if offset == 0 then None else Some([])
      case Member(_, size, _, _, _, _, _) =>
        var next := offset + BLOCK + Padded(size);
        if next > |tar| then None
        else
          match Members(f, tar, next)
          case None => None
          case Some(rest) => Some([TarMember(header, offset)] + rest)
  }

  function MemberOf(e: Entry, mtime: nat, offset: nat): TarMember {
    TarMember(Member(e.name, |e.data|, FILE_MODE, 0, 0, mtime, REGULAR), offset)
  }

  /** The members of an archive of `es` that starts at `offset`. */
  function MembersOf(es: seq<Entry>, mtime: nat, offset: nat): seq<TarMember> {
    if es == [] then [] else [MemberOf(es[0], mtime, offset)] + MembersOf(es[1..], mtime, offset + BLOCK + Padded(|es[0].data|))
  }

  /** One step of the walk over a canonical header. */
  lemma WalkStep(f: Format, tar: bytes, offset: nat, e: Entry, mtime: nat, rest: seq<TarMember>)
    requires Faithful(f) && Representable(e.name, |e.data|, mtime)
    requires offset + BLOCK + Padded(|e.data|) <= |tar|
    requires tar[offset..offset + BLOCK] == f.header(e.name, |e.data|, mtime)
    requires Members(f, tar, offset + BLOCK + Padded(|e.data|)) == Some(rest)
    ensures Members(f, tar, offset) == Some([MemberOf(e, mtime, offset)] + rest)
  {}

  lemma WalkEnd(f: Format, tar: bytes, offset: nat)
    requires Faithful(f) && offset + BLOCK <= |tar| && AllZero(tar[offset..offset + BLOCK])
    ensures Members(f, tar, offset) == Some([])
  {}

  lemma Regroup(before: bytes, header: bytes, payload: bytes, others: bytes, after: bytes)
    requires |header| == BLOCK
    ensures var tar := before + ((header + payload + others) + after);
            && tar[|before|..|before| + BLOCK] == header
            && tar == (before + (header + payload)) + (others + after)
  {
    assert before + ((header + payload + others) + after) == before + (header + (payload + (others + after)));
  }

  lemma WalkRecord(f: Format, before: bytes, e: Entry, mtime: nat, others: bytes, after: bytes, ms: seq<TarMember>)
    requires Faithful(f) && Representable(e.name, |e.data|, mtime)
    requires Members(f, (before + Record(f, e, mtime)) + (others + after), |before + Record(f, e, mtime)|) == Some(ms)
    ensures Members(f, before + ((Record(f, e, mtime) + others) + after), |before|) == Some([MemberOf(e, mtime, |before|)] + ms)
  {
    var header, payload := f.header(e.name, |e.data|, mtime), Payload(e.data);
    Regroup(before, header, payload, others, after);
    WalkStep(f, before + ((header + payload + others) + after), |before|, e, mtime, ms);
  }

  lemma WalkNothing(f: Format, before: bytes, after: bytes)
    requires Faithful(f) && |after| >= BLOCK && AllZero(after)
    ensures Members(f, before + ([] + after), |before|) == Some([])
  {
    ZeroBlock(before, after);
    WalkEnd(f, before + after, |before|);
    assert [] + after == after;
  }

  lemma ZeroBlock(before: bytes, after: bytes)
    requires |after| >= BLOCK && AllZero(after)
    ensures AllZero((before + after)[|before|..|before| + BLOCK])
  {
    assert (before + after)[|before|..|before| + BLOCK] == after[..BLOCK];
  }

  /** Walking what was written yields the entries, wherever they start. */
  lemma {:induction false} WalkRecords(f: Format, before: bytes, es: seq<Entry>, mtime: nat, after: bytes)
    requires Faithful(f) && Writable(es, mtime) && |after| >= BLOCK && AllZero(after)
    ensures Members(f, before + (Records(f, es, mtime) + after), |before|) == Some(MembersOf(es, mtime, |before|))
    decreases |es|
  {
    if es == [] {
      WalkNothing(f, before, after);
    } else {
      var e, rest := es[0], es[1..];
      var record, others := Record(f, e, mtime), Records(f, rest, mtime);
      WalkRecords(f, before + record, rest, mtime, after);
      WalkRecord(f, before, e, mtime, others, after, MembersOf(rest, mtime, |before + record|));
    }
  }

  lemma ArchiveSplits(f: Format, es: seq<Entry>, mtime: nat)
    ensures var records, archive := Records(f, es, mtime), Archive(f, es, mtime);
            && |archive| == CanonicalSize(|records|) && |archive| >= |records| + 1024
            && archive[..|records|] == records && AllZero(archive[|records|..])
            && archive == [] + (records + archive[|records|..])
  {}

  lemma WalkArchive(f: Format, es: seq<Entry>, mtime: nat)
    requires Faithful(f) && Writable(es, mtime)
    ensures Members(f, Archive(f, es, mtime), 0) == Some(MembersOf(es, mtime, 0))
  {
    ArchiveSplits(f, es, mtime);
    WalkRecords(f, [], es, mtime, Archive(f, es, mtime)[|Records(f, es, mtime)|..]);
  }

  // ---------------------------------------------------------------- entries and members

  function CompareBytes(a: byte, b: byte): int {
    a - b
  }

  function CompareNames(a: bytes, b: bytes): int {
    Lex.Compare(CompareBytes, a, b)
  }

  lemma NameOrder()
    ensures Lex.Ordering(CompareNames) && Lex.Strict(CompareNames)
  {
    Lex.Lifts(CompareBytes);
    var lifted := (a: bytes, b: bytes) => Lex.Compare(CompareBytes, a, b);
    assert forall a: bytes, b: bytes :: CompareNames(a, b) == lifted(a, b);
  }

  function Names(es: seq<Entry>): seq<bytes> {
    seq(|es|, i requires 0 <= i < |es| => es[i].name)
  }

  function EndOf(m: TarMember): nat {
    if m.header.Member? then m.offset + BLOCK + Padded(m.header.size) else m.offset
  }

  function MemberNames(ms: seq<TarMember>): seq<bytes> {
    seq(|ms|, i requires 0 <= i < |ms| => if ms[i].header.Member? then ms[i].header.name else [])
  }

  function EntryOf(tar: bytes, m: TarMember): Entry {
    if m.header.Member? && m.offset + BLOCK + m.header.size <= |tar|
    then Entry(m.header.name, tar[m.offset + BLOCK..m.offset + BLOCK + m.header.size]) else Entry([], [])
  }

  function EntriesOf(tar: bytes, ms: seq<TarMember>): (es: seq<Entry>)
    ensures |es| == |ms|
    ensures forall i :: 0 <= i < |ms| ==> es[i] == EntryOf(tar, ms[i])
  {
    if ms == [] then [] else [EntryOf(tar, ms[0])] + EntriesOf(tar, ms[1..])
  }

  lemma WalkHead(f: Format, tar: bytes, offset: nat, ms: seq<TarMember>)
    requires offset <= |tar| && ms != [] && Members(f, tar, offset) == Some(ms)
    ensures ms[0].offset == offset && EndOf(ms[0]) <= |tar|
    ensures Members(f, tar, EndOf(ms[0])) == Some(ms[1..])
  {}

  lemma {:induction false} WalkBounds(f: Format, tar: bytes, offset: nat, ms: seq<TarMember>)
    requires offset <= |tar| && Members(f, tar, offset) == Some(ms)
    ensures forall i :: 0 <= i < |ms| ==> ms[i].header.Member? && EndOf(ms[i]) <= |tar|
    decreases |ms|
  {
    if ms != [] {
      WalkHead(f, tar, offset, ms);
      WalkBounds(f, tar, EndOf(ms[0]), ms[1..]);
    }
  }

  lemma {:induction false} WrittenMembers(f: Format, before: bytes, es: seq<Entry>, mtime: nat, after: bytes, i: nat)
    requires Faithful(f) && i < |es|
    ensures |MembersOf(es, mtime, |before|)| == |es|
    ensures var tar := before + (Records(f, es, mtime) + after);
            var m := MembersOf(es, mtime, |before|)[i];
            && m.header == MemberOf(es[i], mtime, 0).header
            && |before| <= m.offset && EndOf(m) <= |before| + |Records(f, es, mtime)|
            && tar[m.offset..EndOf(m)] == Record(f, es[i], mtime)
            && (i == |es| - 1 ==> EndOf(m) == |before| + |Records(f, es, mtime)|)
    decreases |es|
  {
    var e, rest := es[0], es[1..];
    var record, others := Record(f, e, mtime), Records(f, rest, mtime);
    assert before + (record + others + after) == (before + record) + (others + after);
    if |es| > 1 {
      WrittenMembers(f, before + record, rest, mtime, after, if i == 0 then 0 else i - 1);
    }
  }

  lemma RecordParts(f: Format, e: Entry, mtime: nat)
    requires Faithful(f)
    ensures var r := Record(f, e, mtime);
            && |r| == BLOCK + Padded(|e.data|)
            && r[..BLOCK] == f.header(e.name, |e.data|, mtime)
            && AllZero(r[BLOCK + |e.data|..])
  {}

  lemma SlicesOfRecord(tar: bytes, offset: nat, record: bytes, size: nat)
    requires |record| == BLOCK + Padded(size) && offset + |record| <= |tar| && tar[offset..offset + |record|] == record
    ensures tar[offset..offset + BLOCK] == record[..BLOCK]
    ensures tar[offset + BLOCK + size..offset + |record|] == record[BLOCK + size..]
  {}

  lemma PayloadOfRecord(tar: bytes, offset: nat, header: bytes, data: bytes)
    requires |header| == BLOCK && offset + BLOCK + Padded(|data|) <= |tar|
    requires tar[offset..offset + BLOCK + Padded(|data|)] == header + Payload(data)
    ensures tar[offset + BLOCK..offset + BLOCK + |data|] == data
  {
    var record := tar[offset..offset + BLOCK + Padded(|data|)];
    assert record[BLOCK..BLOCK + |data|] == data;
  }

  lemma EntryBack(f: Format, es: seq<Entry>, mtime: nat, i: nat)
    requires Faithful(f) && i < |es|
    ensures |MembersOf(es, mtime, 0)| == |es|
    ensures MembersOf(es, mtime, 0)[i].header == MemberOf(es[i], mtime, 0).header
    ensures EntryOf(Archive(f, es, mtime), MembersOf(es, mtime, 0)[i]) == es[i]
  {
    var tar, records := Archive(f, es, mtime), Records(f, es, mtime);
    ArchiveSplits(f, es, mtime);
    WrittenMembers(f, [], es, mtime, tar[|records|..], i);
    PayloadOfRecord(tar, MembersOf(es, mtime, 0)[i].offset, f.header(es[i].name, |es[i].data|, mtime), es[i].data);
  }

  /** Reading back a written archive gives the entries that were written. */
  lemma EntriesBack(f: Format, es: seq<Entry>, mtime: nat)
    requires Faithful(f)
    ensures EntriesOf(Archive(f, es, mtime), MembersOf(es, mtime, 0)) == es
    ensures MemberNames(MembersOf(es, mtime, 0)) == Names(es)
  {
    if es != [] { EntryBack(f, es, mtime, 0); }
    forall i | 0 <= i < |es|
      ensures EntryOf(Archive(f, es, mtime), MembersOf(es, mtime, 0)[i]) == es[i]
      ensures MembersOf(es, mtime, 0)[i].header == MemberOf(es[i], mtime, 0).header
    {
      EntryBack(f, es, mtime, i);
    }
    var found := EntriesOf(Archive(f, es, mtime), MembersOf(es, mtime, 0));
    assert forall i :: 0 <= i < |es| ==> found[i] == es[i];
  }
}
