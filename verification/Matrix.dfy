/** A row of the matrix as the byte the hardware sees: bit 7 is the left column. */
module RowBytes {

  datatype Row = Row(bits: bv8)

  const BLANK := Row(0)

  /** The row-select table, which is also `0x80 >> x`. */
  function Mask(x: nat): bv8
    requires x < 8
  {
    if x == 0 then 0x80 else if x == 1 then 0x40 else if x == 2 then 0x20 else if x == 3 then 0x10
    else if x == 4 then 0x08 else if x == 5 then 0x04 else if x == 6 then 0x02 else 0x01
  }

  predicate Bit(r: Row, x: nat)
    requires x < 8
  {
    r.bits & Mask(x) != 0
  }

  function Left(r: Row): Row {
    Row(r.bits << 1)
  }

  function Right(r: Row): Row {
    Row(r.bits >> 1)
  }

  function Put(r: Row, x: nat, on: bool): Row
    requires x < 8
  {
    if on then Row(r.bits | Mask(x)) else Row(r.bits & !Mask(x))
  }

  /** The port is active low. */
  function Inverted(r: Row): Row {
    Row(!r.bits)
  }

  /** The pixels of a row, from its two planes, in one phase. */
  function Planes(p0: Row, p1: Row, phase: nat): Row {
    if phase == 0 then Row(p0.bits | p1.bits)
    else if phase == 1 then p1
    else Row(p0.bits & p1.bits)
  }

  lemma {:induction false} MaskIsShift(x: nat)
    requires x < 8
    ensures Mask(x) == (0x80 as bv8) >> x
  {
    assert x == 0 || x == 1 || x == 2 || x == 3 || x == 4 || x == 5 || x == 6 || x == 7;
  }

  lemma {:induction false} MaskOneOf(x: nat)
    requires x < 8
    ensures Mask(x) in {0x80, 0x40, 0x20, 0x10, 0x08, 0x04, 0x02, 0x01}
  {
  }

  lemma {:induction false} MasksApart(x: nat, x1: nat)
    requires x < 8 && x1 < 8
    ensures Mask(x) != 0
    ensures x != x1 ==> Mask(x) & Mask(x1) == 0
  {
  }

  lemma {:induction false} OneMask(b: bv8, m: bv8, m1: bv8)
    requires m1 != 0 && (m == m1 || m & m1 == 0)
    ensures (b | m) & m1 != 0 <==> m == m1 || b & m1 != 0
    ensures (b & !m) & m1 != 0 <==> m != m1 && b & m1 != 0
  {
  }

  lemma {:induction false} NoBit(x: nat)
    requires x < 8
    ensures !Bit(BLANK, x)
  {
  }

  lemma {:induction false} PutBit(r: Row, x: nat, on: bool, x1: nat)
    requires x < 8 && x1 < 8
    ensures Bit(Put(r, x, on), x1) <==> if x == x1 then on else Bit(r, x1)
  {
    hide Mask;
    MasksApart(x, x1);
    MasksApart(x1, x);
    OneMask(r.bits, Mask(x), Mask(x1));
  }

  /** The drawing helpers' way of putting a bit: a mask made by shifting. */
  method PutBitAt(r: Row, x: nat, on: bool) returns (put: Row)
    requires x < 8
    ensures put == Put(r, x, on)
  {
    var m: bv8 := (0x80 as bv8) >> x;
    MaskIsShift(x);
    put := if on then Row(r.bits | m) else Row(r.bits & !m);
  }

  method BitAt(r: Row, x: nat) returns (on: bool)
    requires x < 8
    ensures on == Bit(r, x)
  {
    var m: bv8 := (0x80 as bv8) >> x;
    MaskIsShift(x);
    on := r.bits & m != 0;
  }

  lemma {:induction false} LeftBit(r: Row, x: nat)
    requires x < 8
    ensures Bit(Left(r), x) <==> x < 7 && Bit(r, x + 1)
  {
    assert x == 0 || x == 1 || x == 2 || x == 3 || x == 4 || x == 5 || x == 6 || x == 7;
  }

  lemma {:induction false} RightBit(r: Row, x: nat)
    requires x < 8
    ensures Bit(Right(r), x) <==> x > 0 && Bit(r, x - 1)
  {
    assert x == 0 || x == 1 || x == 2 || x == 3 || x == 4 || x == 5 || x == 6 || x == 7;
  }

  lemma {:induction false} InvertedBit(r: Row, x: nat)
    requires x < 8
    ensures Bit(Inverted(r), x) <==> !Bit(r, x)
  {
    hide Mask;
    MaskOneOf(x);
    SingleBit(r.bits, r.bits, Mask(x));
  }

  /** Phase by phase the planes show the pixels whose two-bit level is above the phase. */
  lemma {:induction false} PlanesBit(p0: Row, p1: Row, phase: nat, x: nat)
    requires x < 8 && phase < 3
    ensures Bit(Planes(p0, p1, phase), x) <==>
            phase < (if Bit(p0, x) then 1 else 0) + (if Bit(p1, x) then 2 else 0)
  {
    hide Mask;
    MaskOneOf(x);
    SingleBit(p0.bits, p1.bits, Mask(x));
  }

  lemma {:induction false} SingleBit(p0: bv8, p1: bv8, m: bv8)
    requires m in {0x80, 0x40, 0x20, 0x10, 0x08, 0x04, 0x02, 0x01}
    ensures (p0 | p1) & m != 0 <==> p0 & m != 0 || p1 & m != 0
    ensures (p0 & p1) & m != 0 <==> p0 & m != 0 && p1 & m != 0
    ensures !p0 & m != 0 <==> p0 & m == 0
  {
  }

  // ---- a byte on its way through the shift register -----------------------

  /** The register takes in one bit at the bottom. */
  function TakeIn(register: bv8, on: bool): bv8 {
    (register << 1) | if on then 1 else 0
  }

  function TopBit(b: bv8): bool {
    b & 0x80 != 0
  }

  /** What is left of a byte after its `i` top bits have been shifted out. */
  function Remaining(b: bv8, i: nat): bv8 {
    if i == 0 then b else Remaining(b, i - 1) << 1
  }

  /** The register after `i` clocks. */
  function Clocked(b: bv8, i: nat): bv8 {
    if i == 0 then 0 else TakeIn(Clocked(b, i - 1), TopBit(Remaining(b, i - 1)))
  }

  lemma {:induction false} FourClocked(b: bv8)
    ensures Remaining(b, 4) == b << 4 && Clocked(b, 4) == b >> 4
  {
    assert Remaining(b, 1) == b << 1 && Clocked(b, 1) == b >> 7;
    assert Remaining(b, 2) == b << 2 && Clocked(b, 2) == b >> 6;
    assert Remaining(b, 3) == b << 3 && Clocked(b, 3) == b >> 5;
  }

  /** Eight clocks move the whole byte across, first bit out on top. */
  lemma {:induction false} AllClocked(b: bv8)
    ensures Clocked(b, 8) == b
  {
    FourClocked(b);
    assert Remaining(b, 5) == b << 5 && Clocked(b, 5) == b >> 3;
    assert Remaining(b, 6) == b << 6 && Clocked(b, 6) == b >> 2;
    assert Remaining(b, 7) == b << 7 && Clocked(b, 7) == b >> 1;
  }

  /** The data and clock pins: a byte goes into the shift register top bit first. */
  method ClockIn(r: Row) returns (register: Row)
    ensures register == r
  {
    hide TakeIn, TopBit;
    var rest := r.bits;
    var taken: bv8 := 0;
    for i := 0 to 8
      invariant rest == Remaining(r.bits, i)
      invariant taken == Clocked(r.bits, i)
    {
      taken := TakeIn(taken, TopBit(rest));
      rest := rest << 1;
    }
    AllClocked(r.bits);
    register := Row(taken);
  }
}

/** The 8x8 matrix: bit-plane frame buffer, drawing helpers and the per-tick scan. */
module Matrix {
  import opened Common
  import opened RowBytes

  const PLANES := 2
  const LEVELS := 4

  type Frame = f: seq<Row> | |f| == 16 witness
    [BLANK, BLANK, BLANK, BLANK, BLANK, BLANK, BLANK, BLANK, BLANK, BLANK, BLANK, BLANK, BLANK, BLANK, BLANK, BLANK]

  function Level(f: Frame, x: nat, y: nat): nat
    requires x < 8 && y < 8
  {
    (if Bit(f[y], x) then 1 else 0) + (if Bit(f[y + 8], x) then 2 else 0)
  }

  // ---- the display helpers, as functions ----------------------------------

  /** One row byte after a scroll: 0 left, 1 right, 2 up, anything else down. */
  function ScrolledByte(f: Frame, dir: nat, i: nat): Row
    requires i < 16
  {
    var row := i % 8;
    if dir == 0 then Left(f[i])
    else if dir == 1 then Right(f[i])
    else if dir == 2 then if row < 7 then f[i + 1] else BLANK
    else if row > 0 then f[i - 1] else BLANK
  }

  ghost predicate Scrolled(f: Frame, dir: nat, g: Frame) {
    forall i: nat | i < 16 :: g[i] == ScrolledByte(f, dir, i)
  }

  /** A scroll moves the picture by one pixel and clears the edge it leaves. */
  lemma {:induction false} ScrollMoves(f: Frame, dir: nat, g: Frame, x: nat, y: nat)
    requires x < 8 && y < 8
    requires Scrolled(f, dir, g)
    ensures Level(g, x, y) ==
            if dir == 0 then if x < 7 then Level(f, x + 1, y) else 0
            else if dir == 1 then if x > 0 then Level(f, x - 1, y) else 0
            else if dir == 2 then if y < 7 then Level(f, x, y + 1) else 0
            else if y > 0 then Level(f, x, y - 1) else 0
  {
    hide Bit, Left, Right;
    LeftBit(f[y], x);
    LeftBit(f[y + 8], x);
    RightBit(f[y], x);
    RightBit(f[y + 8], x);
    NoBit(x);
    assert g[y] == ScrolledByte(f, dir, y) && g[y + 8] == ScrolledByte(f, dir, y + 8);
  }

  /** Putting a level's two bits into the two planes sets that pixel and no other. */
  lemma {:induction false} PixelSet(f: Frame, g: Frame, x: nat, y: nat, level: nat)
    requires x < 8 && y < 8
    requires forall i: nat | i < 16 && i != y && i != y + 8 :: g[i] == f[i]
    requires g[y] == Put(f[y], x, level % 2 == 1)
    requires g[y + 8] == Put(f[y + 8], x, level / 2 % 2 == 1)
    ensures Level(g, x, y) == level % 4
    ensures forall x1: nat, y1: nat | x1 < 8 && y1 < 8 && (x1 != x || y1 != y) ::
              Level(g, x1, y1) == Level(f, x1, y1)
  {
    hide Bit, Put;
    forall x1: nat | x1 < 8
      ensures Bit(g[y], x1) <==> if x == x1 then level % 2 == 1 else Bit(f[y], x1)
      ensures Bit(g[y + 8], x1) <==> if x == x1 then level / 2 % 2 == 1 else Bit(f[y + 8], x1)
    {
      PutBit(f[y], x, level % 2 == 1, x1);
      PutBit(f[y + 8], x, level / 2 % 2 == 1, x1);
    }
  }

  // ---- the scan -----------------------------------------------------------

  /** The column byte of one tick: which pixels of the selected row are lit. */
  function Columns(f: Frame, dim: nat, scan: nat, phase: nat): Row
    requires scan < 8
  {
    if dim > phase then Planes(f[scan], f[scan + 8], phase) else BLANK
  }

  /** A pixel of the selected row is lit exactly in the phases below both its level and the dim. */
  lemma {:induction false} LitBelow(f: Frame, dim: nat, scan: nat, phase: nat, x: nat)
    requires scan < 8 && phase < 3 && x < 8
    ensures Bit(Columns(f, dim, scan, phase), x) <==> phase < Min(Level(f, x, scan), dim)
  {
    hide Bit, Planes;
    PlanesBit(f[scan], f[scan + 8], phase, x);
    NoBit(x);
  }

  /** Where the scan stands: row and phase in one number, stepping round 24. */
  function Place(scan: nat, phase: nat): nat {
    phase * 8 + scan
  }

  lemma {:induction false} PlaceIsExact(scan: nat, phase: nat, scan1: nat, phase1: nat)
    requires scan < 8 && phase < 3 && scan1 < 8 && phase1 < 3
    ensures Place(scan, phase) < 24
    ensures Place(scan, phase) == Place(scan1, phase1) ==> scan == scan1 && phase == phase1
  {
  }

  predicate Lit(f: Frame, dim: nat, place: nat, x: nat, y: nat)
    requires place < 24 && x < 8
  {
    place % 8 == y && Bit(Columns(f, dim, place % 8, place / 8), x)
  }

  /** In how many of the next `ticks` ticks a pixel is lit. */
  function TimesLit(f: Frame, dim: nat, place: nat, ticks: nat, x: nat, y: nat): nat
    requires place < 24 && x < 8
    decreases ticks
  {
    if ticks == 0 then 0
    else (if Lit(f, dim, place, x, y) then 1 else 0) + TimesLit(f, dim, (place + 1) % 24, ticks - 1, x, y)
  }

  lemma {:induction false} TimesLitNone(f: Frame, dim: nat, place: nat, x: nat, y: nat)
    requires place < 24 && x < 8
    ensures TimesLit(f, dim, place, 0, x, y) == 0
  {
  }

  lemma {:induction false} TimesLitCons(f: Frame, dim: nat, place: nat, ticks: nat, x: nat, y: nat)
    requires place < 24 && x < 8
    ensures TimesLit(f, dim, place, ticks + 1, x, y) ==
            (if Lit(f, dim, place, x, y) then 1 else 0) + TimesLit(f, dim, (place + 1) % 24, ticks, x, y)
  {
  }

  lemma {:induction false} TimesLitSnoc(f: Frame, dim: nat, place: nat, ticks: nat, x: nat, y: nat)
    requires place < 24 && x < 8
    ensures TimesLit(f, dim, place, ticks + 1, x, y) ==
            TimesLit(f, dim, place, ticks, x, y) + if Lit(f, dim, (place + ticks) % 24, x, y) then 1 else 0
    decreases ticks
  {
    hide Lit, TimesLit;
    if ticks == 0 {
      TimesLitNone(f, dim, place, x, y);
      TimesLitCons(f, dim, place, 0, x, y);
      TimesLitNone(f, dim, (place + 1) % 24, x, y);
    } else {
      TimesLitSnoc(f, dim, (place + 1) % 24, ticks - 1, x, y);
      TimesLitCons(f, dim, place, ticks, x, y);
      TimesLitCons(f, dim, place, ticks - 1, x, y);
      StepsAdd(place, ticks);
    }
  }

  lemma {:induction false} StepsNext(place: nat, ticks: nat)
    ensures ((place + ticks) % 24 + 1) % 24 == (place + (ticks + 1)) % 24
  {
  }

  lemma {:induction false} StepsAdd(place: nat, ticks: nat)
    requires ticks > 0
    ensures ((place + 1) % 24 + (ticks - 1)) % 24 == (place + ticks) % 24
  {
  }

  /** A whole cycle counts the same wherever it starts. */
  lemma {:induction false} CycleFromZero(f: Frame, dim: nat, place: nat, x: nat, y: nat)
    requires place < 24 && x < 8
    ensures TimesLit(f, dim, place, 24, x, y) == TimesLit(f, dim, 0, 24, x, y)
    decreases place
  {
    hide Lit, TimesLit;
    if place > 0 {
      var before := place - 1;
      CycleFromZero(f, dim, before, x, y);
      TimesLitSnoc(f, dim, place, 23, x, y);
      assert (place + 23) % 24 == before;
      TimesLitCons(f, dim, before, 23, x, y);
    }
  }

  lemma {:induction false} LitAt(f: Frame, dim: nat, place: nat, x: nat, y: nat)
    requires place < 24 && x < 8 && y < 8
    ensures Lit(f, dim, place, x, y) <==>
            var m := Min(Level(f, x, y), dim);
            (place == y && 0 < m) || (place == y + 8 && 1 < m) || (place == y + 16 && 2 < m)
  {
    hide Level, Columns, Bit, Min;
    LitBelow(f, dim, place % 8, place / 8, x);
    assert place == place / 8 * 8 + place % 8;
  }

  /** The ticks left in a cycle from `place`, counted phase by phase. */
  lemma {:induction false} CycleTail(f: Frame, dim: nat, place: nat, x: nat, y: nat)
    requires place <= 24 && x < 8 && y < 8
    ensures TimesLit(f, dim, place % 24, 24 - place, x, y) ==
            var m := Min(Level(f, x, y), dim);
            (if place <= y && 0 < m then 1 else 0) + (if place <= y + 8 && 1 < m then 1 else 0)
            + (if place <= y + 16 && 2 < m then 1 else 0)
    decreases 24 - place
  {
    hide Level, Lit, Min, TimesLit;
    if place < 24 {
      CycleTail(f, dim, place + 1, x, y);
      LitAt(f, dim, place, x, y);
      TimesLitCons(f, dim, place, 23 - place, x, y);
    } else {
      TimesLitNone(f, dim, 0, x, y);
    }
  }

  /** From any scan state, with the frame and the dim left alone, in any 24
      consecutive ticks each pixel is lit in exactly min(level, dim) ticks. */
  lemma {:induction false} BrightnessIsLevel(f: Frame, dim: nat, scan: nat, phase: nat, x: nat, y: nat)
    requires scan < 8 && phase < 3 && x < 8 && y < 8
    requires dim < LEVELS
    ensures TimesLit(f, dim, Place(scan, phase), 24, x, y) == Min(Level(f, x, y), dim)
  {
    hide TimesLit, Bit;
    CycleFromZero(f, dim, Place(scan, phase), x, y);
    CycleTail(f, dim, 0, x, y);
  }

  /** What the two ports show is what the scan state says is lit. */
  lemma {:induction false} Driven(f: Frame, dim: nat, scan: nat, phase: nat, x: nat, y: nat)
    requires scan < 8 && phase < 3 && x < 8 && y < 8
    ensures Lit(f, dim, Place(scan, phase), x, y) <==>
            Bit(Row(Mask(scan)), y) && !Bit(Inverted(Columns(f, dim, scan, phase)), x)
  {
    hide Columns, Inverted, Mask;
    InvertedBit(Columns(f, dim, scan, phase), x);
    MasksApart(scan, y);
    MasksApart(y, scan);
    Same(Mask(y));
  }

  lemma {:induction false} Same(m: bv8)
    ensures m & m == m
  {
  }

  function Apart(a: int, b: int): nat {
    if a < b then b - a else a - b
  }

  /** There is only one nearest level. */
  lemma {:induction false} OneNearest(v: int, a: nat, b: nat)
    requires a < LEVELS && b < LEVELS
    requires forall l: nat | l < LEVELS :: Apart(v, a) <= Apart(v, l)
    requires forall l: nat | l < LEVELS :: Apart(v, b) <= Apart(v, l)
    ensures a == b
  {
    var l := if a < b then a + 1 else if b < a then b + 1 else a;
    assert Apart(v, a) <= Apart(v, b) && Apart(v, b) <= Apart(v, a) && Apart(v, a) <= Apart(v, l);
  }

  // ---- the C state --------------------------------------------------------

  class Screen {
    const frame: array<Row>
    var scan: nat
    var phase: nat
    var dim: nat
    var columns: Row      // what the column port shows, active low
    var rows: Row         // what the shift register has latched

    ghost predicate Valid()
      reads this
    {
      frame.Length == 16 && scan < 8 && phase < 3 && dim < LEVELS
    }

    ghost function Picture(): Frame
      reads this, frame
      requires Valid()
    {
      frame[..]
    }

    constructor ()
      ensures Valid() && fresh(frame)
      ensures scan == phase == 0 && dim == LEVELS - 1
      ensures forall x: nat, y: nat | x < 8 && y < 8 :: Level(Picture(), x, y) == 0
    {
      frame := new Row[16](_ => BLANK);
      scan, phase, dim := 0, 0, LEVELS - 1;
      columns, rows := Row(0xFF), BLANK;
      new;
      forall x: nat, y: nat | x < 8 && y < 8 ensures Level(Picture(), x, y) == 0 {
        NoBit(x);
      }
    }

    /** `bw_scr_level`, then the store to the dim: of the four levels the one
        nearest to `v`. */
    method SetDim(v: int)
      requires Valid()
      modifies this`dim
      ensures Valid()
      ensures forall l: nat | l < LEVELS :: Apart(v, dim) <= Apart(v, l)
    {
      dim := if v < 0 then 0 else if v > LEVELS - 1 then LEVELS - 1 else v;
    }

    /** One timer tick: the row byte is clocked into the shift register bit by
        bit, the columns follow, and the place advances. */
    method Tick()
      requires Valid()
      modifies this`scan, this`phase, this`columns, this`rows
      ensures Valid()
      ensures rows == Row(Mask(old(scan)))
      ensures columns == Inverted(Columns(Picture(), dim, old(scan), old(phase)))
      ensures Place(scan, phase) == (Place(old(scan), old(phase)) + 1) % 24
    {
      hide Planes, Inverted, Mask;
      columns := Row(0xFF);
      rows := ClockIn(Row(Mask(scan)));
      var lit := BLANK;
      if dim > phase {
        lit := Planes(frame[scan], frame[scan + 8], phase);
      }
      columns := Inverted(lit);
      scan := scan + 1;
      if scan >= 8 {
        scan := 0;
        phase := phase + 1;
        if phase >= LEVELS - 1 {
          phase := 0;
        }
      }
    }

    /** Watches one pixel for a whole cycle of ticks: it is driven while its
        row is selected and its column line is low. */
    method Watch(x: nat, y: nat) returns (lit: nat)
      requires Valid() && x < 8 && y < 8
      modifies this`scan, this`phase, this`columns, this`rows
      ensures Valid() && lit == Min(Level(Picture(), x, y), dim)
      ensures scan == old(scan) && phase == old(phase)
    {
      hide Mask, Bit, Inverted, Level, Columns, TimesLit, Min, Place, Lit;
      ghost var f, start := Picture(), Place(scan, phase);
      PlaceIsExact(scan, phase, scan, phase);
      lit := 0;
      TimesLitNone(f, dim, start, x, y);
      for i := 0 to 24
        invariant Valid() && Picture() == f
        invariant Place(scan, phase) == (start + i) % 24
        invariant lit == TimesLit(f, dim, start, i, x, y)
      {
        Driven(f, dim, scan, phase, x, y);
        TimesLitSnoc(f, dim, start, i, x, y);
        StepsNext(start, i);
        Tick();
        if Bit(rows, y) && !Bit(columns, x) {
          lit := lit + 1;
        }
      }
      PlaceIsExact(scan, phase, old(scan), old(phase));
      BrightnessIsLevel(f, dim, old(scan), old(phase), x, y);
    }

    method Clear()
      requires Valid()
      modifies frame
      ensures forall x: nat, y: nat | x < 8 && y < 8 :: Level(Picture(), x, y) == 0
    {
      for i := 0 to 16
        invariant forall j | 0 <= j < i :: frame[j] == BLANK
      {
        frame[i] := BLANK;
      }
      forall x: nat, y: nat | x < 8 && y < 8 ensures Level(Picture(), x, y) == 0 {
        NoBit(x);
      }
    }

    /** Sets one pixel's level and disturbs no other; off-screen does nothing. */
    method SetPixel(x: nat, y: nat, level: nat)
      requires Valid()
      modifies frame
      ensures x > 7 || y > 7 ==> Picture() == old(Picture())
      ensures x <= 7 && y <= 7 ==> Level(Picture(), x, y) == level % 4
      ensures forall x1: nat, y1: nat | x1 < 8 && y1 < 8 && (x1 != x || y1 != y) ::
                Level(Picture(), x1, y1) == Level(old(Picture()), x1, y1)
    {
      hide Bit, Put, Level;
      if x > 7 || y > 7 {
        return;
      }
      var rest := level;
      for p := 0 to PLANES
        invariant rest == if p == 0 then level else if p == 1 then level / 2 else level / 4
        invariant forall i | 0 <= i < 16 && i != y && i != y + 8 :: frame[i] == old(frame[i])
        invariant frame[y] == if p > 0 then Put(old(frame[y]), x, level % 2 == 1) else old(frame[y])
        invariant frame[y + 8] == if p > 1 then Put(old(frame[y + 8]), x, level / 2 % 2 == 1) else old(frame[y + 8])
      {
        var row := PutBitAt(frame[y + 8 * p], x, rest % 2 == 1);
        frame[y + 8 * p] := row;
        rest := rest / 2;
      }
      PixelSet(old(Picture()), Picture(), x, y, level);
    }

    method GetPixel(x: nat, y: nat) returns (level: nat)
      requires Valid()
      ensures level == if x < 8 && y < 8 then Level(Picture(), x, y) else 0
    {
      hide Bit;
      level := 0;
      if x > 7 || y > 7 {
        return;
      }
      for p := 0 to PLANES
        invariant level == (if p > 0 && Bit(frame[y], x) then 1 else 0) + (if p > 1 && Bit(frame[y + 8], x) then 2 else 0)
      {
        var on := BitAt(frame[y + 8 * p], x);
        if on {
          level := level + if p == 0 then 1 else 2;
        }
      }
    }

    /** One plane of the scroll: eight row bytes from `8 * p`. */
    method ScrollPlane(p: nat, dir: nat)
      requires Valid() && p < PLANES
      modifies frame
      ensures forall i: nat | 8 * p <= i < 8 * p + 8 :: frame[i] == ScrolledByte(old(Picture()), dir, i)
      ensures forall i: nat | i < 8 * p || 8 * p + 8 <= i < 16 :: frame[i] == old(frame[i])
    {
      hide Left, Right;
      var base := 8 * p;
      ghost var f := Picture();
      if dir == 0 {
        for y := 0 to 8
          invariant forall i | base <= i < base + y :: frame[i] == Left(f[i])
          invariant forall i | 0 <= i < base || base + y <= i < 16 :: frame[i] == f[i]
        {
          frame[base + y] := Left(frame[base + y]);
        }
      } else if dir == 1 {
        for y := 0 to 8
          invariant forall i | base <= i < base + y :: frame[i] == Right(f[i])
          invariant forall i | 0 <= i < base || base + y <= i < 16 :: frame[i] == f[i]
        {
          frame[base + y] := Right(frame[base + y]);
        }
      } else if dir == 2 {
        for y := 0 to 7
          invariant forall i | base <= i < base + y :: frame[i] == f[i + 1]
          invariant forall i | 0 <= i < base || base + y <= i < 16 :: frame[i] == f[i]
        {
          frame[base + y] := frame[base + y + 1];
        }
        frame[base + 7] := BLANK;
      } else {
        var y := 7;
        while y != 0
          invariant 0 <= y <= 7
          invariant forall i | base + y < i < base + 8 :: frame[i] == f[i - 1]
          invariant forall i | 0 <= i <= base + y || base + 8 <= i < 16 :: frame[i] == f[i]
        {
          frame[base + y] := frame[base + y - 1];
          y := y - 1;
        }
        frame[base] := BLANK;
      }
    }

    method Scroll(dir: nat)
      requires Valid()
      modifies frame
      ensures Scrolled(old(Picture()), dir, Picture())
    {
      for p := 0 to PLANES
        invariant forall i: nat | i < 8 * p :: frame[i] == ScrolledByte(old(Picture()), dir, i)
        invariant forall i: nat | 8 * p <= i < 16 :: frame[i] == old(frame[i])
      {
        ghost var f := Picture();
        ScrollPlane(p, dir);
        forall i: nat | 8 * p <= i < 8 * p + 8 ensures frame[i] == ScrolledByte(old(Picture()), dir, i) {
          assert ScrolledByte(f, dir, i) == ScrolledByte(old(Picture()), dir, i);
        }
      }
    }
  }
}
