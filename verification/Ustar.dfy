/** The ustar interchange format (pax utility, IEEE Std 1003.1) as Python's tarfile writes and reads
    it: one 512-byte header per member, the payload padded to whole blocks, zero blocks at the end. */
module Ustar {
  import opened Options

  type byte = x: int | 0 <= x < 256
  type bytes = seq<byte>

  const BLOCK := 512
  const RECORD := 10240
  const NUL: byte := 0
  const SPACE: byte := 32
  const SLASH: byte := 47
  const DIGIT: byte := 48
  const REGULAR: byte := 48
  const DIRECTORY: byte := 53
  const FILE_MODE := 420

  function Zeros(n: nat): (z: bytes)
    ensures |z| == n
    ensures forall i :: 0 <= i < n ==> z[i] == 0
  {
    seq(n, i => 0)
  }

  predicate AllZero(s: bytes) {
    forall i :: 0 <= i < |s| ==> s[i] == 0
  }

  lemma AllZeroIsZeros(s: bytes)
    requires AllZero(s)
    ensures s == Zeros(|s|)
  {}

  // ---------------------------------------------------------------- number fields

  function Pow8(d: nat): (p: nat)
    ensures p >= 1
  {
    if d == 0 then 1 else 8 * Pow8(d - 1)
  }

  /** `n` in octal, in exactly `d` digits. */
  function Octal(n: nat, d: nat): (s: bytes)
    ensures |s| == d
    ensures forall i :: 0 <= i < d ==> 48 <= s[i] < 56
  {
    if d == 0 then [] else Octal(n / 8, d - 1) + [DIGIT + n % 8]
  }

  function OctalValue(s: bytes): nat
    requires forall i :: 0 <= i < |s| ==> 48 <= s[i] < 56
  {
    if s == [] then 0 else 8 * OctalValue(s[..|s| - 1]) + (s[|s| - 1] - DIGIT)
  }

  lemma {:induction false} OctalRoundTrip(n: nat, d: nat)
    requires n < Pow8(d)
    ensures OctalValue(Octal(n, d)) == n
  {
    if d > 0 {
      OctalRoundTrip(n / 8, d - 1);
      var s := Octal(n, d);
      assert s[..|s| - 1] == Octal(n / 8, d - 1);
    }
  }

  /** A number field: octal digits and a terminating NUL. */
  function Number(n: nat, width: nat): (s: bytes)
    requires width >= 1
    ensures |s| == width
  {
    Octal(n, width - 1) + [NUL]
  }

  /** The field up to its first NUL. */
  function UpToNul(s: bytes): (t: bytes)
    ensures |t| <= |s| && t == s[..|t|]
    ensures NUL !in t
    ensures |t| < |s| ==> s[|t|] == NUL
  {
    if s == [] || s[0] == NUL then [] else [s[0]] + UpToNul(s[1..])
  }

  lemma {:induction false} UpToNulPadded(t: bytes, rest: bytes)
    requires NUL !in t && (rest == [] || rest[0] == NUL)
    ensures UpToNul(t + rest) == t
  {
    if t == [] {
      assert t + rest == rest;
    } else {
      assert (t + rest)[1..] == t[1..] + rest;
      UpToNulPadded(t[1..], rest);
      assert t == [t[0]] + t[1..];
    }
  }

  predicate IsOctal(s: bytes) {
    forall i :: 0 <= i < |s| ==> 48 <= s[i] < 56
  }

  /** What `str.strip` removes, among ASCII characters. */
  predicate IsSpace(b: byte) {
    b == SPACE || 9 <= b <= 13 || 28 <= b <= 31
  }

  function StripLeft(s: bytes): bytes {
    if s != [] && IsSpace(s[0]) then StripLeft(s[1..]) else s
  }

  function StripRight(s: bytes): bytes {
    if s != [] && IsSpace(s[|s| - 1]) then StripRight(s[..|s| - 1]) else s
  }

  /** Octal digits, with spaces around them ignored; an empty field is zero. */
  function ReadNumber(field: bytes): Option<nat> {
    var digits := StripRight(StripLeft(UpToNul(field)));
    if IsOctal(digits) then Some(OctalValue(digits)) else None
  }

  lemma DigitsRead(digits: bytes, tail: bytes)
    requires IsOctal(digits)
    ensures ReadNumber(digits + [NUL] + tail) == Some(OctalValue(digits))
  {
    assert digits + [NUL] + tail == digits + ([NUL] + tail);
    UpToNulPadded(digits, [NUL] + tail);
  }

  lemma NumberReads(n: nat, width: nat, tail: bytes)
    requires width >= 1 && n < Pow8(width - 1)
    ensures ReadNumber(Number(n, width) + tail) == Some(n)
  {
    DigitsRead(Octal(n, width - 1), tail);
    OctalRoundTrip(n, width - 1);
  }

  lemma Plain(n: nat, width: nat)
    requires width >= 1 && n < Pow8(width - 1)
    ensures ReadNumber(Number(n, width)) == Some(n)
  {
    NumberReads(n, width, []);
    assert Number(n, width) + [] == Number(n, width);
  }

  // ---------------------------------------------------------------- headers

  function Sum(s: bytes): nat {
    if s == [] then 0 else Sum(s[..|s| - 1]) + s[|s| - 1]
  }

  lemma {:induction false} SumBound(s: bytes)
    ensures Sum(s) <= 255 * |s|
  {
    if s != [] { SumBound(s[..|s| - 1]); }
  }

  predicate Representable(name: bytes, size: nat, mtime: nat) {
    0 < |name| <= 100 && NUL !in name && size < Pow8(11) && mtime < Pow8(11)
  }

  function NameField(name: bytes): (s: bytes)
    requires |name| <= 100
    ensures |s| == 100
  {
    name + Zeros(100 - |name|)
  }

  /** Name, mode 0644, uid and gid 0, size and time: the first 148 bytes. */
  function Front(name: bytes, size: nat, mtime: nat): (s: bytes)
    requires |name| <= 100
    ensures |s| == 148
  {
    NameField(name) + (Number(FILE_MODE, 8) + (Number(0, 8) + (Number(0, 8) + (Number(size, 12) + Number(mtime, 12)))))
  }

  /** Regular-file type, no link, the magic and version, and empty owner, device and prefix fields. */
  function Back(): (s: bytes)
    ensures |s| == 356
    ensures s[0] == REGULAR
  {
    [REGULAR] + (Zeros(100) + ([117, 115, 116, 97, 114, 0, 48, 48] + Zeros(247)))
  }

  function Checksum(front: bytes, back: bytes): nat {
    Sum(front) + 8 * SPACE + Sum(back)
  }

  /** The canonical header of a regular file. */
  function Header(name: bytes, size: nat, mtime: nat): (s: bytes)
    requires |name| <= 100
    ensures |s| == BLOCK
  {
    var front, back := Front(name, size, mtime), Back();
    front + (Octal(Checksum(front, back), 6) + [NUL, SPACE]) + back
  }

  datatype Parsed = End | Invalid | Member(name: bytes, size: nat, mode: nat, uid: nat, gid: nat, mtime: nat, kind: byte)

  function TrimSlashes(name: bytes): bytes {
    if name != [] && name[|name| - 1] == SLASH then TrimSlashes(name[..|name| - 1]) else name
  }

  /** An unmarked member whose name ends with a slash is a directory. */
  function ReadKind(name: bytes, kind: byte): byte {
    if kind == NUL && name != [] && name[|name| - 1] == SLASH then DIRECTORY else kind
  }

  /** The name of a directory loses its trailing slashes, and a prefix goes in front of the name except
      in the GNU kinds `K`, `L` and `S`. */
  function ReadName(name: bytes, kind: byte, prefix: bytes): bytes {
    var trimmed := if kind == DIRECTORY then TrimSlashes(name) else name;
    if prefix == [] || kind in {75, 76, 83} then trimmed else prefix + [SLASH] + trimmed
  }

  /** One header block as tarfile reads it: a zero block ends the archive, a wrong checksum or an
      unreadable number makes the block invalid. */
  function ParseHeader(block: bytes): Parsed {
    if |block| != BLOCK then Invalid
    else if AllZero(block) then End
    else
      var checksum := ReadNumber(block[148..156]);
      var mode, uid, gid := ReadNumber(block[100..108]), ReadNumber(block[108..116]), ReadNumber(block[116..124]);
      var size, mtime := ReadNumber(block[124..136]), ReadNumber(block[136..148]);
      if checksum != Some(Checksum(block[..148], block[156..])) then Invalid
      else if mode.None? || uid.None? || gid.None? || size.None? || mtime.None? then Invalid
      else if ReadNumber(block[329..337]).None? || ReadNumber(block[337..345]).None? then Invalid
      else
        var name := UpToNul(block[..100]);
        var kind := ReadKind(name, block[156]);
        Member(ReadName(name, kind, UpToNul(block[345..500])), size.value, mode.value, uid.value, gid.value, mtime.value, kind)
  }

  lemma FrontFields(name: bytes, size: nat, mtime: nat)
    requires |name| <= 100
    ensures var f := Front(name, size, mtime);
            && f[..100] == NameField(name) && f[100..108] == Number(FILE_MODE, 8)
            && f[108..116] == Number(0, 8) && f[116..124] == Number(0, 8)
            && f[124..136] == Number(size, 12) && f[136..148] == Number(mtime, 12)
  {
    SixFields(NameField(name), Number(FILE_MODE, 8), Number(0, 8), Number(0, 8), Number(size, 12), Number(mtime, 12));
  }

  lemma SixFields(a: bytes, b: bytes, c: bytes, d: bytes, e: bytes, g: bytes)
    requires |a| == 100 && |b| == 8 && |c| == 8 && |d| == 8 && |e| == 12 && |g| == 12
    ensures var f := a + (b + (c + (d + (e + g))));
            && |f| == 148 && f[..100] == a && f[100..108] == b && f[108..116] == c && f[116..124] == d && f[124..136] == e && f[136..148] == g
  {}

  lemma Slices(front: bytes, middle: bytes, back: bytes)
    requires |front| == 148 && |middle| == 8 && |back| == 356
    ensures var h := front + middle + back;
            && h[..148] == front && h[148..156] == middle && h[156..] == back && h[156] == back[0]
            && h[..100] == front[..100] && h[100..108] == front[100..108] && h[108..116] == front[108..116]
            && h[116..124] == front[116..124] && h[124..136] == front[124..136] && h[136..148] == front[136..148]
            && h[329..337] == back[173..181] && h[337..345] == back[181..189] && h[345..500] == back[189..344]
  {}

  /** The device fields read as zero and the prefix as empty. */
  lemma BackFields()
    ensures var b := Back(); ReadNumber(b[173..181]) == Some(0) && ReadNumber(b[181..189]) == Some(0) && UpToNul(b[189..344]) == []
  {
    var b := Back();
    assert forall i :: 109 <= i < 356 ==> b[i] == 0;
    EmptyReads(b[173..181]);
    EmptyReads(b[181..189]);
  }

  lemma EmptyReads(field: bytes)
    requires field != [] && field[0] == NUL
    ensures ReadNumber(field) == Some(0)
  {
    assert UpToNul(field) == [];
  }

  lemma ParsesTo(block: bytes, name: bytes, size: nat, mtime: nat)
    requires |block| == BLOCK && block[156] == REGULAR && UpToNul(block[..100]) == name
    requires ReadNumber(block[148..156]) == Some(Checksum(block[..148], block[156..]))
    requires ReadNumber(block[100..108]) == Some(FILE_MODE)
    requires ReadNumber(block[108..116]) == Some(0) && ReadNumber(block[116..124]) == Some(0)
    requires ReadNumber(block[124..136]) == Some(size) && ReadNumber(block[136..148]) == Some(mtime)
    requires ReadNumber(block[329..337]) == Some(0) && ReadNumber(block[337..345]) == Some(0) && UpToNul(block[345..500]) == []
    ensures ParseHeader(block) == Member(name, size, FILE_MODE, 0, 0, mtime, REGULAR)
  {}

  lemma ChecksumReads(front: bytes, back: bytes)
    requires |front| == 148 && |back| == 356
    ensures ReadNumber(Octal(Checksum(front, back), 6) + [NUL, SPACE]) == Some(Checksum(front, back))
  {
    var sum := Checksum(front, back);
    SumBound(front);
    SumBound(back);
    assert Pow8(6) == 262144;
    NumberReads(sum, 7, [SPACE]);
    assert Number(sum, 7) + [SPACE] == Octal(sum, 6) + [NUL, SPACE];
  }

  /** Reading the canonical header gives back the name, size and time it was written for. */
  lemma HeaderParses(name: bytes, size: nat, mtime: nat)
    requires Representable(name, size, mtime)
    ensures ParseHeader(Header(name, size, mtime)) == Member(name, size, FILE_MODE, 0, 0, mtime, REGULAR)
  {
    var front, back := Front(name, size, mtime), Back();
    var middle := Octal(Checksum(front, back), 6) + [NUL, SPACE];
    Slices(front, middle, back);
    ChecksumReads(front, back);
    FrontFields(name, size, mtime);
    assert Pow8(7) == 2097152;
    Plain(FILE_MODE, 8);
    Plain(0, 8);
    Plain(size, 12);
    Plain(mtime, 12);
    UpToNulPadded(name, Zeros(100 - |name|));
    BackFields();
    ParsesTo(front + middle + back, name, size, mtime);
  }

  // ---------------------------------------------------------------- the format as a pair of functions

  /** How headers are written and how they are read. */
  datatype Format = Format(header: (bytes, nat, nat) -> bytes, parse: bytes -> Parsed)

  /** Headers fill one block, reading undoes writing, and a zero block ends the archive. How a
      format reads any other block is left open. */
  ghost predicate Faithful(f: Format) {
    && (forall name, size, mtime :: |f.header(name, size, mtime)| == BLOCK)
    && (forall name, size, mtime :: Representable(name, size, mtime) ==>
          f.parse(f.header(name, size, mtime)) == Member(name, size, FILE_MODE, 0, 0, mtime, REGULAR))
    && (forall block :: |block| == BLOCK && AllZero(block) ==> f.parse(block) == End)
  }

  function HeaderBlock(name: bytes, size: nat, mtime: nat): bytes {
    if |name| <= 100 then Header(name, size, mtime) else Zeros(BLOCK)
  }

  const USTAR := Format(HeaderBlock, ParseHeader)

  lemma UstarFaithful()
    ensures Faithful(USTAR)
  {
    forall name: bytes, size: nat, mtime: nat | Representable(name, size, mtime)
      ensures USTAR.parse(USTAR.header(name, size, mtime)) == Member(name, size, FILE_MODE, 0, 0, mtime, REGULAR)
    {
      HeaderParses(name, size, mtime);
    }
  }
}
