/** The flash image of a linked program: the boot image the ROM reads, then the
    flash-mapped segments at their own offsets. */
module EspImage {
  import opened Common

  type Word = x: int | 0 <= x < 0x1_0000_0000

  const FLASH_MAP := 0x4020_0000
  const FLASH_MAP_SIZE := 0x10_0000
  const MAGIC: Byte := 0xE9
  const SEED: Byte := 0xEF
  const ERASED: Byte := 0xFF

  /** A program header, as far as the image depends on it. */
  datatype Header = Header(kind: Word, offset: Word, address: Word, filesz: Word)

  datatype Segment = Segment(address: Word, data: seq<Byte>)

  datatype Error =
    | NotElf
    | Truncated
    | PastMegabyte(address: Word)
    | SegmentCount(count: nat)
    | Unpackable(length: nat)
    | Overlap(address: Word, end: nat)

  datatype Result = Ok(image: seq<Byte>, bootLength: nat) | Err(error: Error)

  // ---- segments -----------------------------------------------------------

  predicate Loads(h: Header) {
    h.kind == 1 && h.filesz != 0
  }

  predicate IsMapped(h: Header) {
    FLASH_MAP <= h.address < FLASH_MAP + FLASH_MAP_SIZE
  }

  /** The bytes the file really holds for a segment, which may be fewer than it promises. */
  function Raw(elf: seq<Byte>, h: Header): (raw: seq<Byte>)
    ensures |raw| <= h.filesz
  {
    elf[Min(h.offset, |elf|)..Min(h.offset + h.filesz, |elf|)]
  }

  function Padded(n: nat): (r: nat)
    ensures n <= r < n + 4 && r % 4 == 0
  {
    (n + 3) / 4 * 4
  }

  function Zeros(n: nat): seq<Byte> {
    seq(n, _ => 0)
  }

  function Data(elf: seq<Byte>, h: Header): (data: seq<Byte>)
    ensures |data| == Padded(h.filesz)
  {
    var raw := Raw(elf, h);
    raw + Zeros(Padded(h.filesz) - |raw|)
  }

  function Ram(elf: seq<Byte>, hs: seq<Header>): seq<Segment> {
    if hs == [] then []
    else if Loads(hs[0]) && !IsMapped(hs[0])
    then [Segment(hs[0].address, Data(elf, hs[0]))] + Ram(elf, hs[1..])
    else Ram(elf, hs[1..])
  }

  function Mapped(elf: seq<Byte>, hs: seq<Header>): (ms: seq<Segment>)
    ensures forall m | m in ms :: FLASH_MAP <= m.address < FLASH_MAP + FLASH_MAP_SIZE && m.data != []
  {
    if hs == [] then []
    else if Loads(hs[0]) && IsMapped(hs[0])
    then [Segment(hs[0].address, Data(elf, hs[0]))] + Mapped(elf, hs[1..])
    else Mapped(elf, hs[1..])
  }

  predicate RunsPast(m: Segment) {
    m.address + |m.data| > FLASH_MAP + FLASH_MAP_SIZE
  }

  function FirstPast(ms: seq<Segment>): Option<Word> {
    if ms == [] then None else if RunsPast(ms[0]) then Some(ms[0].address) else FirstPast(ms[1..])
  }

  // ---- the boot image -----------------------------------------------------

  function Xor(a: Byte, b: Byte): Byte {
    ((a as bv8) ^ (b as bv8)) as int
  }

  function XorAll(c: Byte, bytes: seq<Byte>): Byte
    decreases bytes
  {
    if bytes == [] then c else XorAll(Xor(c, bytes[0]), bytes[1..])
  }

  function Checksum(c: Byte, segs: seq<Segment>): Byte
    decreases segs
  {
    if segs == [] then c else Checksum(XorAll(c, segs[0].data), segs[1..])
  }

  function Le32(x: nat): (b: seq<Byte>)
    ensures |b| == 4
  {
    [x % 0x100, x / 0x100 % 0x100, x / 0x1_0000 % 0x100, x / 0x100_0000 % 0x100]
  }

  function Word32(b: seq<Byte>, at: nat): Word
    requires at + 4 <= |b|
  {
    var b0: int, b1: int, b2: int, b3: int := b[at], b[at + 1], b[at + 2], b[at + 3];
    b0 + 0x100 * b1 + 0x1_0000 * b2 + 0x100_0000 * b3
  }

  function SegmentBytes(s: Segment): (b: seq<Byte>)
    ensures |b| == 8 + |s.data|
  {
    Le32(s.address) + Le32(|s.data|) + s.data
  }

  predicate Packs(segs: seq<Segment>) {
    forall s | s in segs :: |s.data| < 0x1_0000_0000
  }

  function AllBytes(segs: seq<Segment>): seq<Byte> {
    if segs == [] then [] else SegmentBytes(segs[0]) + AllBytes(segs[1..])
  }

  function FirstUnpackable(segs: seq<Segment>): Option<nat> {
    if segs == [] then None
    else if |segs[0].data| >= 0x1_0000_0000 then Some(|segs[0].data|)
    else FirstUnpackable(segs[1..])
  }

  function Head(entry: Word, count: Byte): (b: seq<Byte>)
    ensures |b| == 8
  {
    [MAGIC, count, 0, 0] + Le32(entry)
  }

  /** At least one byte of padding, up to a multiple of 16; the last is the checksum. */
  function Tail(length: nat, checksum: Byte): seq<Byte> {
    Zeros(15 - length % 16) + [checksum]
  }

  function Boot(entry: Word, segs: seq<Segment>): seq<Byte>
    requires |segs| < 0x100
  {
    var body := Head(entry, |segs|) + AllBytes(segs);
    body + Tail(|body|, Checksum(SEED, segs))
  }

  // ---- placing the mapped segments ----------------------------------------

  function Offset(m: Segment): int {
    m.address - FLASH_MAP
  }

  function End(m: Segment): int {
    Offset(m) + |m.data|
  }

  function InsertInto(ms: seq<Segment>, m: Segment): seq<Segment> {
    if ms == [] then [m]
    else if Offset(m) <= Offset(ms[0]) then [m] + ms
    else [ms[0]] + InsertInto(ms[1..], m)
  }

  /** The stable sort by flash offset. */
  function Sorted(ms: seq<Segment>): seq<Segment> {
    if ms == [] then [] else InsertInto(Sorted(ms[1..]), ms[0])
  }

  /** The first segment of the list that starts before everything ahead of it has ended. */
  function FirstClash(ms: seq<Segment>, end: nat): Option<(Word, nat)> {
    if ms == [] then None
    else if Offset(ms[0]) < end then Some((ms[0].address, end))
    else FirstClash(ms[1..], End(ms[0]))
  }

  function LastEnd(ms: seq<Segment>, end: nat): nat
    requires FirstClash(ms, end).None?
  {
    if ms == [] then end else LastEnd(ms[1..], End(ms[0]))
  }

  function Painted(image: seq<Byte>, m: Segment): (r: seq<Byte>)
    requires 0 <= Offset(m) && End(m) <= |image|
    ensures |r| == |image|
  {
    image[..Offset(m)] + m.data + image[End(m)..]
  }

  predicate Fit(ms: seq<Segment>, length: nat) {
    forall m | m in ms :: 0 <= Offset(m) && End(m) <= length
  }

  function PaintAll(image: seq<Byte>, ms: seq<Segment>): (r: seq<Byte>)
    requires Fit(ms, |image|)
    ensures |r| == |image|
    decreases ms
  {
    if ms == [] then image else PaintAll(Painted(image, ms[0]), ms[1..])
  }

  lemma {:induction false} ChainFits(ms: seq<Segment>, end: nat)
    requires FirstClash(ms, end).None?
    ensures LastEnd(ms, end) >= end
    ensures Fit(ms, LastEnd(ms, end))
  {
    if ms != [] {
      ChainFits(ms[1..], End(ms[0]));
    }
  }

  function Blank(boot: seq<Byte>, end: nat): seq<Byte>
    requires |boot| <= end
  {
    boot + seq(end - |boot|, _ => ERASED)
  }

  function Layout(boot: seq<Byte>, ms: seq<Segment>): seq<Byte>
    requires FirstClash(ms, |boot|).None?
  {
    ChainFits(ms, |boot|);
    PaintAll(Blank(boot, LastEnd(ms, |boot|)), ms)
  }

  lemma {:induction false} PacksUnless(segs: seq<Segment>)
    ensures FirstUnpackable(segs).None? <==> Packs(segs)
  {
    if segs != [] {
      PacksUnless(segs[1..]);
      assert forall s :: s in segs <==> s == segs[0] || s in segs[1..];
    }
  }

  /** The whole image, or the first complaint in the order the checks are made. */
  function Image(entry: Word, elf: seq<Byte>, hs: seq<Header>): Result {
    var ram, mapped := Ram(elf, hs), Sorted(Mapped(elf, hs));
    var past, unpackable := FirstPast(Mapped(elf, hs)), FirstUnpackable(ram);
    if past.Some? then Err(PastMegabyte(past.value))
    else if ram == [] || |ram| > 255 then Err(SegmentCount(|ram|))
    else if unpackable.Some? then Err(Unpackable(unpackable.value))
    else
      var boot := Boot(entry, ram);
      var clash := FirstClash(mapped, |boot|);
      if clash.Some? then Err(Overlap(clash.value.0, clash.value.1))
      else Ok(Layout(boot, mapped), |boot|)
  }

  // ---- the ELF file -------------------------------------------------------

  predicate IsElf(elf: seq<Byte>) {
    |elf| >= 52 && elf[..4] == [0x7F, 0x45, 0x4C, 0x46] && elf[4] == 1 && elf[5] == 1
  }

  function Half16(b: seq<Byte>, at: nat): nat
    requires at + 2 <= |b|
  {
    var b0: int, b1: int := b[at], b[at + 1];
    b0 + 0x100 * b1
  }

  function HeaderAt(elf: seq<Byte>, at: nat): Header
    requires at + 20 <= |elf|
  {
    Header(Word32(elf, at), Word32(elf, at + 4), Word32(elf, at + 12), Word32(elf, at + 16))
  }

  /** The program headers up to the first that the file does not hold, and
      whether it holds them all. */
  function Table(elf: seq<Byte>, at: nat, size: nat, n: nat): (seq<Header>, bool)
    decreases n
  {
    if n == 0 then ([], true)
    else if at + 20 > |elf| then ([], false)
    else
      var (rest, whole) := Table(elf, at + size, size, n - 1);
      ([HeaderAt(elf, at)] + rest, whole)
  }

  function Headers(elf: seq<Byte>): (seq<Header>, bool)
    requires IsElf(elf)
  {
    Table(elf, Word32(elf, 28), Half16(elf, 42), Half16(elf, 44))
  }

  function Entry(elf: seq<Byte>): Word
    requires IsElf(elf)
  {
    Word32(elf, 24)
  }

  /** The whole conversion: headers are unpacked one by one, so a segment past
      the megabyte is reported before a header the file does not hold. */
  function ElfImage(elf: seq<Byte>): Result {
    if !IsElf(elf) then Err(NotElf)
    else
      var (hs, whole) := Headers(elf);
      var past := FirstPast(Mapped(elf, hs));
      if past.Some? then Err(PastMegabyte(past.value))
      else if !whole then Err(Truncated)
      else Image(Entry(elf), elf, hs)
  }

  // ---- a reader of the boot format ----------------------------------------

  datatype BootImage = BootImage(entry: Word, segments: seq<Segment>, length: nat)

  /** `n` segments from `at` on, and where they end. */
  function ReadSegments(b: seq<Byte>, at: nat, n: nat): Option<(seq<Segment>, nat)>
    decreases n
  {
    if n == 0 then Some(([], at))
    else if at + 8 > |b| then None
    else
      var length := Word32(b, at + 4);
      if at + 8 + length > |b| then None
      else
        match ReadSegments(b, at + 8 + length, n - 1)
        case None => None
        case Some((rest, end)) =>
          Some(([Segment(Word32(b, at), b[at + 8..at + 8 + length])] + rest, end))
  }

  /** What the ROM makes of a flash image: nothing unless the magic byte is there
      and the byte that ends the 16-byte row after the data is the checksum. */
  function ReadBoot(b: seq<Byte>): Option<BootImage> {
    if |b| < 8 || b[0] != MAGIC then None
    else
      match ReadSegments(b, 8, b[1])
      case None => None
      case Some((segs, end)) =>
        var last := end - end % 16 + 15;
        if last >= |b| || b[last] != Checksum(SEED, segs) then None
        else Some(BootImage(Word32(b, 4), segs, last + 1))
  }

  lemma {:induction false} WordBack(x: Word)
    ensures x % 0x100 + 0x100 * (x / 0x100 % 0x100) + 0x1_0000 * (x / 0x1_0000 % 0x100) + 0x100_0000 * (x / 0x100_0000 % 0x100) == x
  {
    assert x / 0x1_0000 == x / 0x100 / 0x100;
    assert x / 0x100_0000 == x / 0x1_0000 / 0x100;
  }

  lemma {:induction false} Word32Back(b: seq<Byte>, at: nat, x: Word)
    requires at + 4 <= |b| && b[at..at + 4] == Le32(x)
    ensures Word32(b, at) == x
  {
    var w := b[at..at + 4];
    assert w[0] == b[at] && w[1] == b[at + 1] && w[2] == b[at + 2] && w[3] == b[at + 3];
    WordBack(x);
  }

  lemma {:induction false} SegmentFields(s: Segment)
    ensures var b := SegmentBytes(s);
            b[..4] == Le32(s.address) && b[4..8] == Le32(|s.data|) && b[8..] == s.data
  {
  }

  lemma {:induction false} SubSlice(b: seq<Byte>, at: nat, part: seq<Byte>, i: nat, j: nat)
    requires at + |part| <= |b| && b[at..at + |part|] == part && i <= j <= |part|
    ensures b[at + i..at + j] == part[i..j]
  {
    forall k | i <= k < j ensures b[at + k] == part[k] {
      assert b[at..at + |part|][k] == b[at + k];
    }
  }

  lemma {:induction false} SplitSlice(b: seq<Byte>, at: nat, x: seq<Byte>, y: seq<Byte>)
    requires at + |x| + |y| <= |b| && b[at..at + |x| + |y|] == x + y
    ensures b[at..at + |x|] == x && b[at + |x|..at + |x| + |y|] == y
  {
    SubSlice(b, at, x + y, 0, |x|);
    SubSlice(b, at, x + y, |x|, |x| + |y|);
  }

  lemma {:induction false} ReadOneBack(b: seq<Byte>, at: nat, s: Segment)
    requires |s.data| < 0x1_0000_0000
    requires at + 8 + |s.data| <= |b| && b[at..at + 8 + |s.data|] == SegmentBytes(s)
    ensures Word32(b, at) == s.address && Word32(b, at + 4) == |s.data|
    ensures b[at + 8..at + 8 + |s.data|] == s.data
  {
    hide Word32, Le32, SegmentBytes;
    var one := SegmentBytes(s);
    SegmentFields(s);
    SubSlice(b, at, one, 0, 4);
    SubSlice(b, at, one, 4, 8);
    SubSlice(b, at, one, 8, |one|);
    Word32Back(b, at, s.address);
    Word32Back(b, at + 4, |s.data|);
  }

  lemma {:induction false} ReadNone(b: seq<Byte>, at: nat)
    ensures ReadSegments(b, at, 0) == Some(([], at))
  {
  }

  lemma {:induction false} ReadNext(b: seq<Byte>, at: nat, s: Segment, n: nat)
    requires n > 0 && at + 8 + |s.data| <= |b|
    requires Word32(b, at) == s.address && Word32(b, at + 4) == |s.data| && b[at + 8..at + 8 + |s.data|] == s.data
    requires ReadSegments(b, at + 8 + |s.data|, n - 1).Some?
    ensures var (rest, end) := ReadSegments(b, at + 8 + |s.data|, n - 1).value;
            ReadSegments(b, at, n) == Some(([s] + rest, end))
  {
    hide Word32;
  }

  lemma {:induction false} PacksRest(segs: seq<Segment>)
    requires Packs(segs) && segs != []
    ensures |segs[0].data| < 0x1_0000_0000 && Packs(segs[1..])
  {
  }

  lemma {:induction false} ReadSegmentsBack(b: seq<Byte>, at: nat, segs: seq<Segment>)
    requires Packs(segs)
    requires at + |AllBytes(segs)| <= |b| && b[at..at + |AllBytes(segs)|] == AllBytes(segs)
    ensures ReadSegments(b, at, |segs|) == Some((segs, at + |AllBytes(segs)|))
    decreases segs
  {
    hide Word32, Le32, SegmentBytes, ReadSegments, Packs;
    if segs == [] {
      ReadNone(b, at);
    } else {
      var one, rest := SegmentBytes(segs[0]), AllBytes(segs[1..]);
      PacksRest(segs);
      SplitSlice(b, at, one, rest);
      ReadOneBack(b, at, segs[0]);
      ReadSegmentsBack(b, at + |one|, segs[1..]);
      ReadNext(b, at, segs[0], |segs|);
      assert [segs[0]] + segs[1..] == segs;
    }
  }

  /** Read from the front of any flash image that starts with it, the boot image
      gives back the entry point and every RAM segment, its checksum matches,
      and it ends at a multiple of 16. */
  lemma {:induction false} BootReadsBack(entry: Word, segs: seq<Segment>, rest: seq<Byte>)
    requires 0 < |segs| < 0x100 && Packs(segs)
    ensures ReadBoot(Boot(entry, segs) + rest) == Some(BootImage(entry, segs, |Boot(entry, segs)|))
    ensures |Boot(entry, segs)| % 16 == 0
  {
    hide Word32, Le32, ReadSegments, Checksum, AllBytes;
    var body := Head(entry, |segs|) + AllBytes(segs);
    var b := Boot(entry, segs) + rest;
    assert b[..|body|] == body;
    assert b[4..8] == body[4..8] == Le32(entry);
    Word32Back(b, 4, entry);
    assert b[8..|body|] == body[8..] == AllBytes(segs);
    ReadSegmentsBack(b, 8, segs);
    assert b[0] == body[0] && b[1] == body[1];
  }

  // ---- the mapped segments ------------------------------------------------

  predicate Apart(m: Segment, n: Segment) {
    End(m) <= Offset(n) || End(n) <= Offset(m)
  }

  predicate ApartFrom(m: Segment, ms: seq<Segment>) {
    forall n | n in ms :: Apart(m, n)
  }

  predicate AllApart(ms: seq<Segment>) {
    ms == [] || (ApartFrom(ms[0], ms[1..]) && AllApart(ms[1..]))
  }

  predicate AllAfter(ms: seq<Segment>, end: nat) {
    forall m | m in ms :: end <= Offset(m)
  }

  predicate InOrder(ms: seq<Segment>) {
    ms == [] || ((forall m | m in ms[1..] :: Offset(ms[0]) <= Offset(m)) && InOrder(ms[1..]))
  }

  lemma {:induction false} Members(ms: seq<Segment>, m: Segment)
    requires ms != []
    ensures m in ms <==> m == ms[0] || m in ms[1..]
  {
    assert ms == [ms[0]] + ms[1..];
  }

  lemma {:induction false} InsertMembers(ms: seq<Segment>, m: Segment, n: Segment)
    ensures n in InsertInto(ms, m) <==> n == m || n in ms
  {
    if ms != [] && Offset(m) > Offset(ms[0]) {
      InsertMembers(ms[1..], m, n);
      Members(ms, n);
    }
  }

  lemma {:induction false} SortedMembers(ms: seq<Segment>, n: Segment)
    ensures n in Sorted(ms) <==> n in ms
  {
    if ms != [] {
      SortedMembers(ms[1..], n);
      InsertMembers(Sorted(ms[1..]), ms[0], n);
      Members(ms, n);
    }
  }

  lemma {:induction false} InsertInOrder(ms: seq<Segment>, m: Segment)
    requires InOrder(ms)
    ensures InOrder(InsertInto(ms, m))
  {
    if ms != [] && Offset(m) > Offset(ms[0]) {
      InsertInOrder(ms[1..], m);
      var rest := InsertInto(ms[1..], m);
      assert InsertInto(ms, m)[1..] == rest;
      forall n | n in rest ensures Offset(ms[0]) <= Offset(n) {
        InsertMembers(ms[1..], m, n);
      }
    } else {
      assert InsertInto(ms, m)[1..] == ms;
      forall n | n in ms ensures Offset(m) <= Offset(n) {
        Members(ms, n);
      }
    }
  }

  lemma {:induction false} SortedInOrder(ms: seq<Segment>)
    ensures InOrder(Sorted(ms))
  {
    if ms != [] {
      SortedInOrder(ms[1..]);
      InsertInOrder(Sorted(ms[1..]), ms[0]);
    }
  }

  lemma {:induction false} InsertApart(ms: seq<Segment>, m: Segment)
    ensures AllApart(InsertInto(ms, m)) <==> ApartFrom(m, ms) && AllApart(ms)
  {
    if ms != [] && Offset(m) > Offset(ms[0]) {
      InsertApart(ms[1..], m);
      var rest := InsertInto(ms[1..], m);
      assert InsertInto(ms, m)[1..] == rest;
      forall n ensures n in rest <==> n == m || n in ms[1..] {
        InsertMembers(ms[1..], m, n);
      }
      assert ApartFrom(ms[0], rest) <==> Apart(ms[0], m) && ApartFrom(ms[0], ms[1..]) by {
        assert m in rest;
      }
      forall n ensures n in ms <==> n == ms[0] || n in ms[1..] {
        Members(ms, n);
      }
      assert ApartFrom(m, ms) <==> Apart(m, ms[0]) && ApartFrom(m, ms[1..]);
    } else {
      assert InsertInto(ms, m)[1..] == ms;
    }
  }

  lemma {:induction false} SortedApart(ms: seq<Segment>)
    ensures AllApart(Sorted(ms)) <==> AllApart(ms)
  {
    if ms != [] {
      SortedApart(ms[1..]);
      InsertApart(Sorted(ms[1..]), ms[0]);
      forall n ensures n in Sorted(ms[1..]) <==> n in ms[1..] {
        SortedMembers(ms[1..], n);
      }
    }
  }

  /** In offset order, comparing neighbours is comparing everything. */
  lemma {:induction false} NeighboursSuffice(ms: seq<Segment>, end: nat)
    requires InOrder(ms) && forall m | m in ms :: m.data != []
    ensures FirstClash(ms, end).None? <==> AllAfter(ms, end) && AllApart(ms)
  {
    if ms != [] {
      var e := End(ms[0]);
      forall m ensures m in ms <==> m == ms[0] || m in ms[1..] {
        Members(ms, m);
      }
      if e >= 0 {
        NeighboursSuffice(ms[1..], e);
      }
    }
  }

  lemma {:induction false} ApartByIndex(ms: seq<Segment>)
    ensures AllApart(ms) <==> forall i, j | 0 <= i < j < |ms| :: Apart(ms[i], ms[j])
  {
    if ms != [] {
      var rest := ms[1..];
      ApartByIndex(rest);
      assert forall i | 0 <= i < |rest| :: rest[i] == ms[i + 1];
      if AllApart(ms) {
        forall i, j | 0 <= i < j < |ms| ensures Apart(ms[i], ms[j]) {
          if i > 0 {
            assert Apart(rest[i - 1], rest[j - 1]);
          } else {
            assert rest[j - 1] in rest;
          }
        }
      }
      if forall i, j | 0 <= i < j < |ms| :: Apart(ms[i], ms[j]) {
        forall i, j | 0 <= i < j < |rest| ensures Apart(rest[i], rest[j]) {
          assert Apart(ms[i + 1], ms[j + 1]);
        }
        forall n | n in rest ensures Apart(ms[0], n) {
          var i :| 0 <= i < |rest| && rest[i] == n;
          assert ms[i + 1] == n;
        }
      }
    }
  }

  /** The boot image and the segments, in whatever order, are pairwise disjoint. */
  ghost predicate Disjoint(ms: seq<Segment>, boot: nat) {
    (forall m | m in ms :: boot <= Offset(m))
    && (forall i, j | 0 <= i < j < |ms| :: Apart(ms[i], ms[j]))
  }

  /** Every segment lies below the end of what the boot code maps. */
  ghost predicate WithinMap(ms: seq<Segment>) {
    forall m | m in ms :: End(m) <= FLASH_MAP_SIZE
  }

  /** The overlap check accepts exactly when all is disjoint. */
  lemma {:induction false} AcceptedIffDisjoint(ms: seq<Segment>, boot: nat)
    requires forall m | m in ms :: m.data != []
    ensures FirstClash(Sorted(ms), boot).None? <==> Disjoint(ms, boot)
  {
    hide FirstClash, Sorted, AllApart, Apart;
    forall m ensures m in Sorted(ms) <==> m in ms {
      SortedMembers(ms, m);
    }
    SortedInOrder(ms);
    NeighboursSuffice(Sorted(ms), boot);
    SortedApart(ms);
    ApartByIndex(ms);
  }

  // ---- what is painted where ----------------------------------------------

  predicate Covers(m: Segment, k: int) {
    Offset(m) <= k < End(m)
  }

  lemma {:induction false} PaintedElsewhere(image: seq<Byte>, ms: seq<Segment>, k: nat)
    requires Fit(ms, |image|) && k < |image|
    requires forall m | m in ms :: !Covers(m, k)
    ensures PaintAll(image, ms)[k] == image[k]
    decreases ms
  {
    if ms != [] {
      PaintedElsewhere(Painted(image, ms[0]), ms[1..], k);
    }
  }

  lemma {:induction false} PaintedThere(image: seq<Byte>, ms: seq<Segment>, end: nat, i: nat, j: nat)
    requires Fit(ms, |image|) && FirstClash(ms, end).None?
    requires i < |ms| && j < |ms[i].data|
    ensures PaintAll(image, ms)[Offset(ms[i]) + j] == ms[i].data[j]
    decreases ms
  {
    var first := Painted(image, ms[0]);
    if i == 0 {
      forall m | m in ms[1..] ensures !Covers(m, Offset(ms[0]) + j) {
        ChainAfter(ms[1..], End(ms[0]), m);
      }
      PaintedElsewhere(first, ms[1..], Offset(ms[0]) + j);
    } else {
      PaintedThere(first, ms[1..], End(ms[0]), i - 1, j);
    }
  }

  lemma {:induction false} ChainAfter(ms: seq<Segment>, end: nat, m: Segment)
    requires FirstClash(ms, end).None? && m in ms
    ensures end <= Offset(m)
    decreases ms
  {
    if m != ms[0] {
      Members(ms, m);
      ChainAfter(ms[1..], End(ms[0]), m);
    }
  }

  // ---- the image as a whole -----------------------------------------------

  lemma {:induction false} NonePast(ms: seq<Segment>)
    ensures FirstPast(ms).None? <==> WithinMap(ms)
  {
    hide WithinMap;
    WithinFirst(ms);
    if ms != [] {
      NonePast(ms[1..]);
    }
  }

  lemma {:induction false} WithinFirst(ms: seq<Segment>)
    ensures WithinMap(ms) <==> ms == [] || (!RunsPast(ms[0]) && WithinMap(ms[1..]))
  {
    if ms != [] {
      assert !RunsPast(ms[0]) <==> End(ms[0]) <= FLASH_MAP_SIZE;
      if WithinMap(ms) {
        forall m | m in ms[1..] ensures End(m) <= FLASH_MAP_SIZE {
          assert m in ms;
        }
        assert ms[0] in ms;
      } else {
        var m :| m in ms && End(m) > FLASH_MAP_SIZE;
        Members(ms, m);
      }
    }
  }

  /** Exactly which programs get an image. */
  lemma {:induction false} AcceptedIff(entry: Word, elf: seq<Byte>, hs: seq<Header>)
    ensures Image(entry, elf, hs).Ok? <==>
            var ram, mapped := Ram(elf, hs), Mapped(elf, hs);
            0 < |ram| <= 255 && Packs(ram) && WithinMap(mapped) && Disjoint(mapped, |Boot(entry, ram)|)
  {
    hide FirstPast, FirstUnpackable, FirstClash, Boot, Ram, Mapped, Sorted, Layout, Packs, WithinMap, Disjoint;
    var ram, mapped := Ram(elf, hs), Mapped(elf, hs);
    NonePast(mapped);
    PacksUnless(ram);
    if 0 < |ram| <= 255 && Packs(ram) {
      AcceptedIffDisjoint(mapped, |Boot(entry, ram)|);
    }
  }

  ghost predicate Holds(image: seq<Byte>, m: Segment) {
    0 <= Offset(m) && End(m) <= |image| && image[Offset(m)..End(m)] == m.data
  }

  /** A placed layout holds the boot image, every mapped segment at its own
      offset, erased bytes everywhere else, and nothing after the last of them. */
  lemma {:induction false} LayoutHolds(boot: seq<Byte>, ms: seq<Segment>)
    requires FirstClash(ms, |boot|).None?
    ensures var image := Layout(boot, ms);
            |image| == LastEnd(ms, |boot|) >= |boot| && image[..|boot|] == boot
            && (forall m | m in ms :: Holds(image, m))
            && (forall k | |boot| <= k < |image| && (forall m | m in ms :: !Covers(m, k)) :: image[k] == ERASED)
  {
    hide PaintAll, FirstClash, LastEnd;
    ChainFits(ms, |boot|);
    var blank := Blank(boot, LastEnd(ms, |boot|));
    var image := Layout(boot, ms);
    forall k: nat | k < |image| && (forall m | m in ms :: !Covers(m, k)) ensures image[k] == blank[k] {
      PaintedElsewhere(blank, ms, k);
    }
    forall k: nat | k < |boot| ensures image[k] == boot[k] {
      forall m | m in ms ensures !Covers(m, k) {
        ChainAfter(ms, |boot|, m);
      }
    }
    forall m | m in ms ensures Holds(image, m) {
      var i :| 0 <= i < |ms| && ms[i] == m;
      ChainAfter(ms, |boot|, m);
      forall j: nat | j < |m.data| ensures image[Offset(m) + j] == m.data[j] {
        PaintedThere(blank, ms, |boot|, i, j);
      }
    }
  }

  lemma {:induction false} LastEndIsAnEnd(ms: seq<Segment>, end: nat)
    requires FirstClash(ms, end).None?
    ensures LastEnd(ms, end) == end || exists m | m in ms :: LastEnd(ms, end) == End(m)
  {
    if ms != [] {
      LastEndIsAnEnd(ms[1..], End(ms[0]));
    }
  }

  /** The boot reader recovers the entry point and the RAM segments, every
      mapped segment lies at its own offset after the boot image, apart from
      every other, all other bytes are erased, and the image ends with the last
      of them. */
  ghost predicate Faithful(entry: Word, ram: seq<Segment>, mapped: seq<Segment>, image: seq<Byte>, length: nat) {
    ReadBoot(image) == Some(BootImage(entry, ram, length)) && length % 16 == 0
    && Disjoint(mapped, length)
    && (forall m | m in mapped :: Holds(image, m))
    && (forall k | length <= k < |image| && (forall m | m in mapped :: !Covers(m, k)) :: image[k] == ERASED)
    && (|image| == length || exists m | m in mapped :: |image| == End(m))
  }

  /** Every accepted program's image is faithful. */
  lemma {:induction false} ImageIsFaithful(entry: Word, elf: seq<Byte>, hs: seq<Header>)
    requires Image(entry, elf, hs).Ok?
    ensures var Ok(image, length) := Image(entry, elf, hs);
            Faithful(entry, Ram(elf, hs), Mapped(elf, hs), image, length)
  {
    hide FirstPast, FirstUnpackable, FirstClash, Boot, Ram, Mapped, Sorted, Apart, Layout, ReadBoot, LastEnd, Holds, Covers;
    var ram, mapped := Ram(elf, hs), Mapped(elf, hs);
    var boot, sorted := Boot(entry, ram), Sorted(mapped);
    var image := Layout(boot, sorted);
    AcceptedIff(entry, elf, hs);
    LayoutHolds(boot, sorted);
    LastEndIsAnEnd(sorted, |boot|);
    BootReadsBack(entry, ram, image[|boot|..]);
    assert image == boot + image[|boot|..];
    forall m ensures m in sorted <==> m in mapped {
      SortedMembers(mapped, m);
    }
  }

  /** The promise for the file itself. */
  lemma {:induction false} ElfIsFaithful(elf: seq<Byte>)
    ensures ElfImage(elf).Ok? <==> IsElf(elf) && Headers(elf).1 && Image(Entry(elf), elf, Headers(elf).0).Ok?
    ensures ElfImage(elf).Ok? ==>
              var Ok(image, length), hs := ElfImage(elf), Headers(elf).0;
              Faithful(Entry(elf), Ram(elf, hs), Mapped(elf, hs), image, length)
  {
    hide FirstClash, FirstUnpackable, Boot, Ram, Mapped, Sorted, Layout, Faithful, Headers, Entry;
    if ElfImage(elf).Ok? {
      ImageIsFaithful(Entry(elf), elf, Headers(elf).0);
    }
  }

  // ---- the program --------------------------------------------------------

  method Elf2Image(elf: seq<Byte>) returns (r: Result)
    ensures r == ElfImage(elf)
  {
    hide FirstPast, FirstClash, FirstUnpackable, Sorted, Boot, Layout, Ram, Mapped, Table, Word32, Half16;
    if |elf| < 52 || elf[..4] != [0x7F, 0x45, 0x4C, 0x46] || elf[4] != 1 || elf[5] != 1 {
      return Err(NotElf);
    }
    var entry, phoff := Word32(elf, 24), Word32(elf, 28);
    var phentsize, phnum := Half16(elf, 42), Half16(elf, 44);
    var segments, mapped, past, whole := LoadSegments(elf, phoff, phentsize, phnum);
    if past.Some? {
      return Err(PastMegabyte(past.value));
    }
    if !whole {
      return Err(Truncated);
    }
    if segments == [] || |segments| > 255 {
      return Err(SegmentCount(|segments|));
    }
    var boot, unpackable := BuildBoot(entry, segments);
    if unpackable.Some? {
      return Err(Unpackable(unpackable.value));
    }
    r := PlaceMapped(boot, Sorted(mapped));
  }

  method LoadSegments(elf: seq<Byte>, phoff: nat, phentsize: nat, phnum: nat)
    returns (segments: seq<Segment>, mapped: seq<Segment>, past: Option<Word>, whole: bool)
    ensures var (hs, all) := Table(elf, phoff, phentsize, phnum);
            past == FirstPast(Mapped(elf, hs))
            && (past.None? ==> whole == all && segments == Ram(elf, hs) && mapped == Mapped(elf, hs))
  {
    hide Data, FirstPast, Word32;
    ghost var hs := Table(elf, phoff, phentsize, phnum).0;
    segments, mapped, whole := [], [], true;
    var at: nat := phoff;
    for i := 0 to phnum
      invariant i <= |hs| && Table(elf, at, phentsize, phnum - i) == (hs[i..], Table(elf, phoff, phentsize, phnum).1)
      invariant Ram(elf, hs) == segments + Ram(elf, hs[i..])
      invariant Mapped(elf, hs) == mapped + Mapped(elf, hs[i..])
      invariant FirstPast(Mapped(elf, hs)) == FirstPast(Mapped(elf, hs[i..]))
    {
      if at + 20 > |elf| {
        NoneToPass();
        return segments, mapped, None, false;
      }
      var h := HeaderAt(elf, at);
      assert hs[i..][0] == h && hs[i..][1..] == hs[i + 1..];
      at := at + phentsize;
      if h.kind != 1 || h.filesz == 0 {
        continue;
      }
      var segment := Segment(h.address, Data(elf, h));
      if FLASH_MAP <= h.address < FLASH_MAP + FLASH_MAP_SIZE {
        FirstOf(segment, Mapped(elf, hs[i + 1..]));
        Regroup(mapped, [segment], Mapped(elf, hs[i + 1..]));
        if h.address + |segment.data| > FLASH_MAP + FLASH_MAP_SIZE {
          return segments, mapped, Some(h.address), true;
        }
        mapped := mapped + [segment];
      } else {
        Regroup(segments, [segment], Ram(elf, hs[i + 1..]));
        segments := segments + [segment];
      }
    }
    NoneToPass();
    past := None;
  }

  lemma {:induction false} NoneToPass()
    ensures FirstPast([]).None?
  {
  }

  lemma {:induction false} FirstOf(m: Segment, ms: seq<Segment>)
    ensures FirstPast([m] + ms) == if RunsPast(m) then Some(m.address) else FirstPast(ms)
  {
  }

  method BuildBoot(entry: Word, segs: seq<Segment>) returns (boot: seq<Byte>, unpackable: Option<nat>)
    requires |segs| < 0x100
    ensures unpackable == FirstUnpackable(segs)
    ensures unpackable.None? ==> boot == Boot(entry, segs)
  {
    hide Xor, Le32;
    boot := Head(entry, |segs|);
    var checksum := SEED;
    for i := 0 to |segs|
      invariant FirstUnpackable(segs) == FirstUnpackable(segs[i..])
      invariant boot + AllBytes(segs[i..]) == Head(entry, |segs|) + AllBytes(segs)
      invariant Checksum(checksum, segs[i..]) == Checksum(SEED, segs)
    {
      var data := segs[i].data;
      assert segs[i..][0] == segs[i] && segs[i..][1..] == segs[i + 1..];
      if |data| >= 0x1_0000_0000 {
        return boot, Some(|data|);
      }
      Regroup(boot, SegmentBytes(segs[i]), AllBytes(segs[i + 1..]));
      boot := boot + (Le32(segs[i].address) + Le32(|data|) + data);
      checksum := XorBytes(checksum, data);
    }
    unpackable := None;
    assert boot + [] == boot;
    boot := boot + (Zeros(15 - |boot| % 16) + [checksum]);
  }

  lemma {:induction false} Regroup<T>(a: seq<T>, b: seq<T>, c: seq<T>)
    ensures a + (b + c) == a + b + c
  {
  }

  method XorBytes(c: Byte, data: seq<Byte>) returns (checksum: Byte)
    ensures checksum == XorAll(c, data)
  {
    hide Xor;
    checksum := c;
    for j := 0 to |data|
      invariant XorAll(checksum, data[j..]) == XorAll(c, data)
    {
      assert data[j..][0] == data[j] && data[j..][1..] == data[j + 1..];
      checksum := Xor(checksum, data[j]);
    }
  }

  method PlaceMapped(boot: seq<Byte>, mapped: seq<Segment>) returns (r: Result)
    ensures r == match FirstClash(mapped, |boot|)
                 case Some(clash) => Err(Overlap(clash.0, clash.1))
                 case None => Ok(Layout(boot, mapped), |boot|)
  {
    hide PaintAll, Painted;
    var end := |boot|;
    for i := 0 to |mapped|
      invariant 0 <= end
      invariant FirstClash(mapped, |boot|) == FirstClash(mapped[i..], end)
      invariant FirstClash(mapped, |boot|).None? ==> LastEnd(mapped, |boot|) == LastEnd(mapped[i..], end)
    {
      assert mapped[i..][0] == mapped[i] && mapped[i..][1..] == mapped[i + 1..];
      if Offset(mapped[i]) < end {
        return Err(Overlap(mapped[i].address, end));
      }
      end := End(mapped[i]);
    }
    ChainFits(mapped, |boot|);
    var image := new Byte[end](k requires 0 <= k < end => if k < |boot| then boot[k] else ERASED);
    assert image[..] == Blank(boot, end);
    PaintMapped(image, mapped);
    r := Ok(image[..], |boot|);
  }

  method PaintMapped(image: array<Byte>, mapped: seq<Segment>)
    requires Fit(mapped, image.Length)
    modifies image
    ensures image[..] == PaintAll(old(image[..]), mapped)
  {
    hide Painted;
    for i := 0 to |mapped|
      invariant PaintAll(image[..], mapped[i..]) == PaintAll(old(image[..]), mapped)
    {
      assert mapped[i..][0] == mapped[i] && mapped[i..][1..] == mapped[i + 1..];
      Paint(image, mapped[i]);
    }
  }

  method Paint(image: array<Byte>, m: Segment)
    requires 0 <= Offset(m) && End(m) <= image.Length
    modifies image
    ensures image[..] == Painted(old(image[..]), m)
  {
    var off := Offset(m);
    for j := 0 to |m.data|
      invariant forall k | 0 <= k < j :: image[off + k] == m.data[k]
      invariant forall k | 0 <= k < off || off + j <= k < image.Length :: image[k] == old(image[k])
    {
      image[off + j] := m.data[j];
    }
  }
}
