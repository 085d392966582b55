/** The bytes of an ELF file, followed one by one into its flash image. */
module ElfBytes {
  import opened Common
  import opened EspImage

  /** The `n` bytes at `at` spell `x`, least significant first. */
  predicate Little(b: seq<Byte>, at: nat, n: nat, x: nat)
    decreases n
  {
    if n == 0 then x == 0 else at < |b| && b[at] == x % 0x100 && Little(b, at + 1, n - 1, x / 0x100)
  }

  predicate HoldsHeader(elf: seq<Byte>, at: nat, h: Header) {
    Little(elf, at, 4, h.kind) && Little(elf, at + 4, 4, h.offset)
    && Little(elf, at + 12, 4, h.address) && Little(elf, at + 16, 4, h.filesz)
  }

  /** What a header's segment holds at `k`: the file's byte, or 0 where the
      header promises none or the file has none. */
  function FileByte(elf: seq<Byte>, h: Header, k: nat): Byte {
    if k < h.filesz && h.offset + k < |elf| then elf[h.offset + k] else 0
  }

  predicate SegmentOf(s: Segment, elf: seq<Byte>, h: Header) {
    s.address == h.address
    && |s.data| % 4 == 0 && h.filesz <= |s.data| < h.filesz + 4
    && forall k: nat | k < |s.data| :: s.data[k] == FileByte(elf, h, k)
  }

  /** A segment for the RAM: loaded, and not below the flash map. */
  predicate ForRam(h: Header) {
    h.kind == 1 && h.filesz > 0 && !(0x4020_0000 <= h.address < 0x4030_0000)
  }

  predicate ForFlash(h: Header) {
    h.kind == 1 && h.filesz > 0 && 0x4020_0000 <= h.address < 0x4030_0000
  }

  function RamCount(hs: seq<Header>): (n: nat)
    ensures n <= |hs|
  {
    if hs == [] then 0 else (if ForRam(hs[0]) then 1 else 0) + RamCount(hs[1..])
  }

  // ---- what is read from the file -----------------------------------------

  lemma {:induction false} OneByte(b: seq<Byte>, at: nat, n: nat, rest: nat)
    requires at < |b| && Little(b, at + 1, n, rest)
    ensures Little(b, at, n + 1, b[at] as nat + 0x100 * rest)
  {
    var x := b[at] as nat + 0x100 * rest;
    assert x % 0x100 == b[at] && x / 0x100 == rest;
  }

  lemma {:induction false} SpelledWord(b: seq<Byte>, at: nat)
    requires at + 4 <= |b|
    ensures Little(b, at, 4, Word32(b, at))
  {
    var b1: int, b2: int, b3: int := b[at + 1], b[at + 2], b[at + 3];
    OneByte(b, at + 3, 0, 0);
    hide Little;
    OneByte(b, at + 2, 1, b3);
    OneByte(b, at + 1, 2, b2 + 0x100 * b3);
    OneByte(b, at, 3, b1 + 0x100 * (b2 + 0x100 * b3));
  }

  lemma {:induction false} SpelledHalf(b: seq<Byte>, at: nat)
    requires at + 2 <= |b|
    ensures Little(b, at, 2, Half16(b, at))
  {
    OneByte(b, at + 1, 0, 0);
    OneByte(b, at, 1, b[at + 1]);
  }

  lemma {:induction false} SpelledHeader(elf: seq<Byte>, at: nat)
    requires at + 20 <= |elf|
    ensures HoldsHeader(elf, at, HeaderAt(elf, at))
  {
    hide Word32, Little;
    SpelledWord(elf, at);
    SpelledWord(elf, at + 4);
    SpelledWord(elf, at + 12);
    SpelledWord(elf, at + 16);
  }

  /** The headers stand one after another, `size` apart, as far as the file holds them. */
  lemma {:induction false} TableIs(elf: seq<Byte>, at: nat, size: nat, n: nat)
    ensures var (hs, whole) := Table(elf, at, size, n);
            && |hs| <= n && whole == (|hs| == n)
            && (forall i: nat | i < |hs| :: HoldsHeader(elf, at + i * size, hs[i]))
            && (!whole ==> at + |hs| * size + 20 > |elf|)
    decreases n
  {
    hide HoldsHeader, HeaderAt;
    if n > 0 && at + 20 <= |elf| {
      var (hs, whole) := Table(elf, at, size, n);
      var rest := Table(elf, at + size, size, n - 1).0;
      SpelledHeader(elf, at);
      TableIs(elf, at + size, size, n - 1);
      forall i: nat | i < |hs| ensures HoldsHeader(elf, at + i * size, hs[i]) {
        if i > 0 {
          assert hs[i] == rest[i - 1];
          Step(at, i, size);
        }
      }
      Step(at, |hs|, size);
    }
  }

  lemma {:induction false} Step(at: nat, i: int, size: nat)
    ensures at + i * size == at + size + (i - 1) * size
  {
  }

  lemma {:induction false} DataIs(elf: seq<Byte>, h: Header)
    ensures SegmentOf(Segment(h.address, Data(elf, h)), elf, h)
  {
  }

  /** The loaded headers outside the flash map give the RAM segments, in order. */
  lemma {:induction false} RamIs(elf: seq<Byte>, hs: seq<Header>)
    ensures |Ram(elf, hs)| == RamCount(hs)
    ensures forall i: nat | i < |hs| && ForRam(hs[i]) ::
              RamCount(hs[..i]) < |Ram(elf, hs)| && SegmentOf(Ram(elf, hs)[RamCount(hs[..i])], elf, hs[i])
  {
    hide SegmentOf, Data;
    if hs != [] {
      RamIs(elf, hs[1..]);
      DataIs(elf, hs[0]);
      forall i: nat | i < |hs| && ForRam(hs[i])
        ensures RamCount(hs[..i]) < |Ram(elf, hs)| && SegmentOf(Ram(elf, hs)[RamCount(hs[..i])], elf, hs[i]) {
        if i > 0 {
          assert hs[..i][1..] == hs[1..][..i - 1] && hs[1..][i - 1] == hs[i];
        }
      }
    }
  }

  lemma {:induction false} MappedIs(elf: seq<Byte>, hs: seq<Header>, i: nat)
    requires i < |hs| && ForFlash(hs[i])
    ensures Segment(hs[i].address, Data(elf, hs[i])) in Mapped(elf, hs)
  {
    hide Data;
    if i > 0 {
      MappedIs(elf, hs[1..], i - 1);
    }
  }

  /** And no segment comes from anywhere else. */
  lemma {:induction false} MappedOnly(elf: seq<Byte>, hs: seq<Header>, m: Segment)
    requires m in Mapped(elf, hs)
    ensures exists i: nat | i < |hs| :: ForFlash(hs[i]) && SegmentOf(m, elf, hs[i])
  {
    hide SegmentOf, Data;
    DataIs(elf, hs[0]);
    if !(ForFlash(hs[0]) && m == Segment(hs[0].address, Data(elf, hs[0]))) {
      MappedOnly(elf, hs[1..], m);
      var i: nat :| i < |hs[1..]| && ForFlash(hs[1..][i]) && SegmentOf(m, elf, hs[1..][i]);
      assert hs[i + 1] == hs[1..][i];
    }
  }

  // ---- where the bytes go -------------------------------------------------

  /** `hs` are the program headers the file announces. */
  ghost predicate Announced(elf: seq<Byte>, hs: seq<Header>) {
    exists at: nat, size: nat ::
      Little(elf, 28, 4, at) && Little(elf, 42, 2, size) && Little(elf, 44, 2, |hs|)
      && forall i: nat | i < |hs| :: HoldsHeader(elf, at + i * size, hs[i])
  }

  /** The boot part gives the entry point and, in order, the RAM segments. */
  ghost predicate Booted(elf: seq<Byte>, hs: seq<Header>, image: seq<Byte>) {
    ReadBoot(image).Some?
    && var boot := ReadBoot(image).value;
    && Little(elf, 24, 4, boot.entry)
    && |boot.segments| == RamCount(hs)
    && forall i: nat | i < |hs| && ForRam(hs[i]) ::
         RamCount(hs[..i]) < |boot.segments| && SegmentOf(boot.segments[RamCount(hs[..i])], elf, hs[i])
  }

  /** Flash address `0x40200000 + k` shows the byte that belongs at it. */
  ghost predicate InFlash(elf: seq<Byte>, h: Header, image: seq<Byte>) {
    forall k: nat | k < Padded(h.filesz) ::
      0 <= h.address - 0x4020_0000 + k < |image| && image[h.address - 0x4020_0000 + k] == FileByte(elf, h, k)
  }

  /** A byte behind the boot part that no flash header claims is erased. */
  ghost predicate ElseErased(hs: seq<Header>, image: seq<Byte>, boot: nat) {
    forall k: nat | boot <= k < |image| ::
      image[k] == 0xFF
      || exists i: nat | i < |hs| :: ForFlash(hs[i]) && Claims(hs[i], k)
  }

  predicate Claims(h: Header, k: nat) {
    h.address - 0x4020_0000 <= k < h.address - 0x4020_0000 + Padded(h.filesz)
  }

  lemma {:induction false} AnnouncedHeaders(elf: seq<Byte>)
    requires IsElf(elf) && Headers(elf).1
    ensures Announced(elf, Headers(elf).0)
  {
    hide Little, HoldsHeader, Word32, Half16;
    var at, size, n := Word32(elf, 28), Half16(elf, 42), Half16(elf, 44);
    SpelledWord(elf, 28);
    SpelledHalf(elf, 42);
    SpelledHalf(elf, 44);
    TableIs(elf, at, size, n);
  }

  lemma {:induction false} FlashHolds(elf: seq<Byte>, h: Header, image: seq<Byte>)
    requires ForFlash(h) && Holds(image, Segment(h.address, Data(elf, h)))
    ensures InFlash(elf, h, image)
  {
    DataIs(elf, h);
    var m := Segment(h.address, Data(elf, h));
    hide Data;
    forall k: nat | k < Padded(h.filesz)
      ensures Offset(m) + k < |image| && image[Offset(m) + k] == FileByte(elf, h, k) {
      assert image[Offset(m)..End(m)][k] == m.data[k];
    }
  }

  lemma {:induction false} ErasedElse(elf: seq<Byte>, hs: seq<Header>, image: seq<Byte>, boot: nat)
    requires forall k | boot <= k < |image| && (forall m | m in Mapped(elf, hs) :: !Covers(m, k)) :: image[k] == ERASED
    ensures ElseErased(hs, image, boot)
  {
    hide Mapped, Padded;
    forall k: nat | boot <= k < |image| && image[k] != ERASED
      ensures exists i: nat | i < |hs| :: ForFlash(hs[i]) && Claims(hs[i], k) {
      var m :| m in Mapped(elf, hs) && Covers(m, k);
      MappedOnly(elf, hs, m);
      var i: nat :| i < |hs| && ForFlash(hs[i]) && SegmentOf(m, elf, hs[i]);
      RoundUp(hs[i].filesz, |m.data|);
      assert Claims(hs[i], k);
    }
  }

  lemma {:induction false} RoundUp(n: nat, r: nat)
    requires n <= r < n + 4 && r % 4 == 0
    ensures r == Padded(n)
  {
  }

  /** Every byte of every loaded segment of an accepted file is where it belongs. */
  lemma {:induction false} EveryByteLands(elf: seq<Byte>)
    requires ElfImage(elf).Ok?
    ensures IsElf(elf)
    ensures var Ok(image, length), hs := ElfImage(elf), Headers(elf).0;
            && Announced(elf, hs) && Booted(elf, hs, image)
            && (forall h | h in hs && ForFlash(h) :: InFlash(elf, h, image))
            && ElseErased(hs, image, length)
  {
    hide Little, Image, Headers, Announced, SegmentOf, InFlash, ReadBoot, Ram, Mapped, ForRam, ForFlash,
         Disjoint, Holds, ElseErased, Covers, Word32;
    ElfIsFaithful(elf);
    var Ok(image, length) := ElfImage(elf);
    var hs := Headers(elf).0;
    AnnouncedHeaders(elf);
    SpelledWord(elf, 24);
    RamIs(elf, hs);
    forall h | h in hs && ForFlash(h) ensures InFlash(elf, h, image) {
      var i :| 0 <= i < |hs| && hs[i] == h;
      MappedIs(elf, hs, i);
      FlashHolds(elf, h, image);
    }
    ErasedElse(elf, hs, image, length);
  }

  // ---- when there is no image ----------------------------------------------

  /** A segment in the flash map ends at flash offset `end`. */
  ghost predicate EndsAt(hs: seq<Header>, end: int) {
    exists h | h in hs :: ForFlash(h) && h.address - 0x4020_0000 + Padded(h.filesz) == end
  }

  /** What each complaint says of the file. */
  ghost predicate Complains(elf: seq<Byte>, e: Error) {
    match e
    case NotElf => !IsElf(elf)
    case Truncated => IsElf(elf) && !Headers(elf).1
    case PastMegabyte(a) =>
      IsElf(elf)
      && exists h | h in Headers(elf).0 :: ForFlash(h) && h.address == a && a + Padded(h.filesz) > 0x4030_0000
    case SegmentCount(n) => IsElf(elf) && n == RamCount(Headers(elf).0) && (n == 0 || n > 255)
    case Unpackable(n) =>
      IsElf(elf) && exists h | h in Headers(elf).0 :: ForRam(h) && n == Padded(h.filesz) && n >= 0x1_0000_0000
    case Overlap(a, end) =>
      IsElf(elf)
      && (exists h | h in Headers(elf).0 :: ForFlash(h) && h.address == a)
      && a - 0x4020_0000 < end
      && (EndsAt(Headers(elf).0, end)
          || end == |Boot(Entry(elf), RamLimited(elf))|)
  }

  /** The RAM segments, if a boot image can count them. */
  function RamLimited(elf: seq<Byte>): (ram: seq<Segment>)
    requires IsElf(elf)
    ensures |ram| <= 255
  {
    var ram := Ram(elf, Headers(elf).0);
    if |ram| <= 255 then ram else []
  }

  lemma {:induction false} RamOnly(elf: seq<Byte>, hs: seq<Header>, m: Segment)
    requires m in Ram(elf, hs)
    ensures exists h | h in hs :: ForRam(h) && SegmentOf(m, elf, h)
  {
    hide SegmentOf, Data;
    DataIs(elf, hs[0]);
    if !(ForRam(hs[0]) && m == Segment(hs[0].address, Data(elf, hs[0]))) {
      RamOnly(elf, hs[1..], m);
      var h :| h in hs[1..] && ForRam(h) && SegmentOf(m, elf, h);
      assert h in hs;
    }
  }

  lemma {:induction false} PastIs(ms: seq<Segment>)
    ensures FirstPast(ms).Some? ==> exists m | m in ms :: m.address == FirstPast(ms).value && RunsPast(m)
  {
    if ms != [] && !RunsPast(ms[0]) {
      PastIs(ms[1..]);
      if FirstPast(ms).Some? {
        var m :| m in ms[1..] && m.address == FirstPast(ms).value && RunsPast(m);
        assert m in ms;
      }
    }
  }

  lemma {:induction false} UnpackableIs(ms: seq<Segment>)
    ensures var n := FirstUnpackable(ms);
            n.Some? ==> n.value >= 0x1_0000_0000 && exists m | m in ms :: |m.data| == n.value
  {
    if ms != [] && |ms[0].data| < 0x1_0000_0000 {
      UnpackableIs(ms[1..]);
      if FirstUnpackable(ms).Some? {
        var m :| m in ms[1..] && |m.data| == FirstUnpackable(ms).value;
        assert m in ms;
      }
    }
  }

  ghost predicate ClashIn(ms: seq<Segment>, end: nat, a: Word, e: nat) {
    && (exists m | m in ms :: m.address == a && Offset(m) < e)
    && (e == end || exists m | m in ms :: End(m) == e)
  }

  lemma {:induction false} ClashIs(ms: seq<Segment>, end: nat)
    ensures FirstClash(ms, end).Some? ==>
              ClashIn(ms, end, FirstClash(ms, end).value.0, FirstClash(ms, end).value.1)
  {
    if ms != [] && Offset(ms[0]) >= end {
      ClashIs(ms[1..], End(ms[0]));
      if FirstClash(ms, end).Some? {
        var (a, e) := FirstClash(ms, end).value;
        var m :| m in ms[1..] && m.address == a && Offset(m) < e;
        assert m in ms && ms[0] in ms;
        assert forall n | n in ms[1..] :: n in ms;
      }
    }
  }

  lemma {:induction false} FlashSegment(elf: seq<Byte>, hs: seq<Header>, m: Segment) returns (h: Header)
    requires m in Mapped(elf, hs)
    ensures h in hs && ForFlash(h) && h.address == m.address && |m.data| == Padded(h.filesz)
  {
    hide Mapped, Padded;
    MappedOnly(elf, hs, m);
    var i: nat :| i < |hs| && ForFlash(hs[i]) && SegmentOf(m, elf, hs[i]);
    h := hs[i];
    RoundUp(h.filesz, |m.data|);
  }

  /** Whatever it complains of is so. */
  lemma {:induction false} ComplaintIsTrue(elf: seq<Byte>)
    requires ElfImage(elf).Err?
    ensures Complains(elf, ElfImage(elf).error)
  {
    hide Headers, Ram, Mapped, Sorted, FirstPast, FirstUnpackable, FirstClash, Boot, Layout, Padded, RunsPast, ForRam,
         ForFlash, SegmentOf, EndsAt, Entry;
    if IsElf(elf) {
      var hs := Headers(elf).0;
      match ElfImage(elf).error
      case PastMegabyte(a) => PastComplaint(elf, hs);
      case SegmentCount(n) => RamIs(elf, hs);
      case Unpackable(n) => UnpackableComplaint(elf, hs);
      case Overlap(a, end) => OverlapComplaint(elf, hs, |Boot(Entry(elf), Ram(elf, hs))|);
      case _ =>
    }
  }

  lemma {:induction false} PastComplaint(elf: seq<Byte>, hs: seq<Header>)
    requires FirstPast(Mapped(elf, hs)).Some?
    ensures var a := FirstPast(Mapped(elf, hs)).value;
            exists h | h in hs :: ForFlash(h) && h.address == a && a + Padded(h.filesz) > 0x4030_0000
  {
    hide Mapped, FirstPast, Padded, ForFlash;
    PastIs(Mapped(elf, hs));
    var m :| m in Mapped(elf, hs) && m.address == FirstPast(Mapped(elf, hs)).value && RunsPast(m);
    var h := FlashSegment(elf, hs, m);
  }

  lemma {:induction false} UnpackableComplaint(elf: seq<Byte>, hs: seq<Header>)
    requires FirstUnpackable(Ram(elf, hs)).Some?
    ensures var n := FirstUnpackable(Ram(elf, hs)).value;
            exists h | h in hs :: ForRam(h) && n == Padded(h.filesz) && n >= 0x1_0000_0000
  {
    hide Ram, FirstUnpackable, Padded, ForRam;
    UnpackableIs(Ram(elf, hs));
    var m :| m in Ram(elf, hs) && |m.data| == FirstUnpackable(Ram(elf, hs)).value;
    RamOnly(elf, hs, m);
    var h :| h in hs && ForRam(h) && SegmentOf(m, elf, h);
    RoundUp(h.filesz, |m.data|);
  }

  lemma {:induction false} OverlapComplaint(elf: seq<Byte>, hs: seq<Header>, boot: nat)
    requires FirstClash(Sorted(Mapped(elf, hs)), boot).Some?
    ensures var (a, end) := FirstClash(Sorted(Mapped(elf, hs)), boot).value;
            && (exists h | h in hs :: ForFlash(h) && h.address == a)
            && a - 0x4020_0000 < end && (end == boot || EndsAt(hs, end))
  {
    hide Mapped, Sorted, FirstClash, Padded, ForFlash;
    var ms := Sorted(Mapped(elf, hs));
    ClashIs(ms, boot);
    var (a, end) := FirstClash(ms, boot).value;
    forall m ensures m in ms <==> m in Mapped(elf, hs) {
      SortedMembers(Mapped(elf, hs), m);
    }
    var m :| m in ms && m.address == a && Offset(m) < end;
    var h := FlashSegment(elf, hs, m);
    if end != boot {
      var n :| n in ms && End(n) == end;
      var h1 := FlashSegment(elf, hs, n);
      assert h1 in hs && h1.address - 0x4020_0000 + Padded(h1.filesz) == end;
    }
  }

  // ---- the checksum -------------------------------------------------------

  predicate Set(x: bv8, n: bv8)
    requires n < 8
  {
    (x >> n) & 1 == 1
  }

  predicate Bit(x: Byte, n: nat)
    requires n < 8
  {
    Set(x as bv8, n as bv8)
  }

  /** How many of the bytes have bit `n` set. */
  function Ones(bytes: seq<Byte>, n: nat): nat
    requires n < 8
  {
    if bytes == [] then 0 else (if Bit(bytes[0], n) then 1 else 0) + Ones(bytes[1..], n)
  }

  predicate Odd(n: nat) {
    n % 2 == 1
  }

  lemma {:induction false} OddSum(a: nat, b: nat)
    ensures Odd(a + b) == (Odd(a) != Odd(b))
  {
  }

  function Joined(segs: seq<Segment>): seq<Byte> {
    if segs == [] then [] else segs[0].data + Joined(segs[1..])
  }

  lemma {:induction false} BitOfXor(a: bv8, b: bv8, n: bv8)
    requires n < 8
    ensures Set(a ^ b, n) == (Set(a, n) != Set(b, n))
  {
  }

  lemma {:induction false} Back(x: bv8)
    ensures (x as int) as bv8 == x
  {
  }

  lemma {:induction false} XorBit(a: Byte, b: Byte, n: nat)
    requires n < 8
    ensures Bit(Xor(a, b), n) == (Bit(a, n) != Bit(b, n))
  {
    hide Set;
    BitOfXor(a as bv8, b as bv8, n as bv8);
    Back((a as bv8) ^ (b as bv8));
  }

  lemma {:induction false} XorAllBits(c: Byte, bytes: seq<Byte>, n: nat)
    requires n < 8
    ensures Bit(XorAll(c, bytes), n) == (Bit(c, n) != Odd(Ones(bytes, n)))
    decreases bytes
  {
    hide Bit, Xor;
    if bytes != [] {
      OddSum(if Bit(bytes[0], n) then 1 else 0, Ones(bytes[1..], n));
      XorBit(c, bytes[0], n);
      XorAllBits(Xor(c, bytes[0]), bytes[1..], n);
    }
  }

  lemma {:induction false} OnesJoin(a: seq<Byte>, b: seq<Byte>, n: nat)
    requires n < 8
    ensures Ones(a + b, n) == Ones(a, n) + Ones(b, n)
  {
    hide Bit;
    if a == [] {
      assert a + b == b;
    } else {
      assert (a + b)[1..] == a[1..] + b;
      OnesJoin(a[1..], b, n);
    }
  }

  /** Bit by bit the checksum is the parity of the data, turned over where 0xEF has a 1. */
  lemma {:induction false} ChecksumIsParity(segs: seq<Segment>, c: Byte, n: nat)
    requires n < 8
    ensures Bit(Checksum(c, segs), n) == (Bit(c, n) != Odd(Ones(Joined(segs), n)))
    decreases segs
  {
    hide Bit, XorAll, Odd;
    if segs == [] {
      assert Checksum(c, segs) == c && Ones(Joined(segs), n) == 0;
      OddSum(0, 0);
    } else {
      OddSum(Ones(segs[0].data, n), Ones(Joined(segs[1..]), n));
      XorAllBits(c, segs[0].data, n);
      OnesJoin(segs[0].data, Joined(segs[1..]), n);
      ChecksumIsParity(segs[1..], XorAll(c, segs[0].data), n);
    }
  }

  /** What frames the segments of a boot image: the magic byte and the count ahead
      of them, and at its end the parity of all their bytes against 0xEF. */
  lemma {:induction false} BootFrame(image: seq<Byte>, n: nat)
    requires n < 8 && ReadBoot(image).Some?
    ensures var boot := ReadBoot(image).value;
            && 2 <= boot.length <= |image| && image[0] == 0xE9 && image[1] == |boot.segments|
            && Bit(image[boot.length - 1], n) == (Bit(0xEF, n) != Odd(Ones(Joined(boot.segments), n)))
  {
    hide Bit, Odd, Checksum, Joined, Word32, ReadSegments;
    var boot := ReadBoot(image).value;
    CountRead(image, 8, image[1]);
    ChecksumIsParity(boot.segments, SEED, n);
  }

  lemma {:induction false} CountRead(b: seq<Byte>, at: nat, n: nat)
    ensures var r := ReadSegments(b, at, n); r.Some? ==> |r.value.0| == n && at <= r.value.1
    decreases n
  {
    hide Word32;
    if n > 0 && at + 8 <= |b| && at + 8 + Word32(b, at + 4) <= |b| {
      CountRead(b, at + 8 + Word32(b, at + 4), n - 1);
    }
  }
}
