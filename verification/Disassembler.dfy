/** The linear sweep with branch-target anchors. */
module Disassembler {
  import opened Common
  import opened Mcs51

  datatype Text = Decoded(instr: Instr) | Data

  datatype Entry = Entry(address: nat, raw: seq<Byte>, text: Text)

  function Fetch(memory: Memory, a: nat): Byte {
    if a in memory then memory[a] else 0
  }

  function Slice(memory: Memory, a: nat, n: nat): (r: seq<Byte>)
    ensures |r| == n
    ensures forall k | 0 <= k < n :: r[k] == Fetch(memory, a + k)
  {
    if n == 0 then [] else Slice(memory, a, n - 1) + [Fetch(memory, a + n - 1)]
  }

  function Following(e: Entry): Address {
    (e.address + |e.raw|) % 0x1_0000
  }

  predicate IsBranch(op: Mnemonic) {
    op in {LJMP, AJMP, SJMP, LCALL, ACALL, JZ, JNZ, JC, JNC, JB, JNB, JBC, CJNE, DJNZ}
  }

  /** The control-flow targets an entry names. */
  function TargetsOf(e: Entry): set<nat> {
    if e.text.Data? || !IsBranch(e.text.instr.op) then {}
    else
      match e.text.instr.args
      case One(To(t)) => {t}
      case Two(_, To(t)) => {t}
      case Three(_, _, To(t)) => {t}
      case _ => {}
  }

  function Starts(entries: seq<Entry>): set<nat> {
    set e | e in entries && e.text.Decoded? :: e.address
  }

  function Targets(entries: seq<Entry>): set<nat> {
    set e, t | e in entries && t in TargetsOf(e) :: t
  }

  /** The first anchor strictly inside the `length` bytes at `a`, if any. */
  function Conflict(anchors: set<nat>, a: nat, length: nat): (r: nat)
    ensures r == 0 || (a < r < a + length && r in anchors)
    ensures forall b | b in anchors && a < b < a + length :: r != 0 && r <= b
    decreases length
  {
    if length <= 1 then 0
    else
      var sooner := Conflict(anchors, a, length - 1);
      if sooner != 0 then sooner else if a + length - 1 in anchors then a + length - 1 else 0
  }

  function DecodedAt(memory: Memory, a: nat): Entry
    requires a in memory
  {
    var raw := Slice(memory, a, FormOf(memory[a]).length);
    Entry(a, raw, Decoded(Decode(raw[0], raw[1..], (a + |raw|) % 0x1_0000)))
  }

  /** The entry the sweep makes at an address that holds a byte. */
  function EntryAt(memory: Memory, anchors: set<nat>, a: nat): (e: Entry)
    requires a in memory
    ensures e.address == a && 1 <= |e.raw| <= 3
  {
    var conflict := Conflict(anchors, a, FormOf(memory[a]).length);
    if conflict != 0 then Entry(a, Slice(memory, a, conflict - a), Data) else DecodedAt(memory, a)
  }

  function Sweep(memory: Memory, a: nat, last: nat, anchors: set<nat>): seq<Entry>
    decreases last + 1 - a
  {
    if a > last then []
    else if a !in memory then Sweep(memory, a + 1, last, anchors)
    else
      var e := EntryAt(memory, anchors, a);
      [e] + Sweep(memory, a + |e.raw|, last, anchors)
  }

  lemma {:induction false} SweepBounds(memory: Memory, a: nat, last: nat, anchors: set<nat>)
    ensures forall e | e in Sweep(memory, a, last, anchors) ::
              a <= e.address <= last && e.address in memory && e == EntryAt(memory, anchors, e.address)
    decreases last + 1 - a
  {
    if a > last {
    } else if a !in memory {
      SweepBounds(memory, a + 1, last, anchors);
    } else {
      SweepBounds(memory, a + |EntryAt(memory, anchors, a).raw|, last, anchors);
    }
  }

  /** An instruction is decoded whole unless an anchor lies strictly inside it;
      then the bytes before the first such anchor are data. */
  lemma {:induction false} EntryIs(memory: Memory, anchors: set<nat>, a: nat)
    requires a in memory
    ensures var e, n := EntryAt(memory, anchors, a), FormOf(memory[a]).length;
            && (e.text.Data? <==> exists b :: b in anchors && a < b < a + n)
            && (e.text.Decoded? ==> e == DecodedAt(memory, a) && |e.raw| == n)
            && (e.text.Data? ==> a + |e.raw| in anchors && forall b | b in anchors && a < b < a + n :: a + |e.raw| <= b)
  {
    hide FormOf;
  }

  // ---- what a branch names ------------------------------------------------

  function FieldsOf(form: Form): seq<Field> {
    match form.fields
    case F0 => []
    case F1(a) => [a]
    case F2(a, b) => [a, b]
    case F3(a, b, c) => [a, b, c]
  }

  /** The operand bytes `o` of an instruction that ends before `next` name `t`
      in the field: a signed distance from `next`, an address in its 2 KB page, or
      a whole address. No other field names a place in the program. */
  predicate Names(f: Field, o: seq<Byte>, next: Address, t: nat) {
    match f
    case Rel8(k) => t == (next + (if At(o, k) >= 128 then At(o, k) - 256 else At(o, k))) % 0x1_0000
    case Paged(page) => t / 2048 == next / 2048 && t % 2048 == page * 256 + At(o, 0)
    case Word16 => t == At(o, 0) * 256 + At(o, 1)
    case _ => false
  }

  lemma {:induction false} ReadNames(f: Field, o: seq<Byte>, next: Address, t: nat)
    requires f.Paged? ==> f.page < 8
    ensures Names(f, o, next, t) <==> Read(f, o, next).To? && Read(f, o, next).target == t
  {
    if f.Paged? {
      PageOfTarget(next, f.page, At(o, 0));
      var named := (next / 2048 * 2048 + f.page * 256 + At(o, 0)) % 0x1_0000;
      if t / 2048 == next / 2048 && t % 2048 == f.page * 256 + At(o, 0) {
        assert t == t / 2048 * 2048 + t % 2048;
        assert named == named / 2048 * 2048 + named % 2048;
      }
    }
  }

  predicate IsPlace(f: Field) {
    f.Rel8? || f.Paged? || f.Word16?
  }

  /** A place in the program stands only in a branch, and there last. */
  predicate PlacesLast(form: Form) {
    var fields := FieldsOf(form);
    && (forall k | 0 <= k < |fields| :: IsPlace(fields[k]) ==> k + 1 == |fields| && IsBranch(form.op))
    && (IsBranch(form.op) ==> fields != [] && IsPlace(fields[|fields| - 1]))
    && (forall k | 0 <= k < |fields| && fields[k].Paged? :: fields[k].page < 8)
  }

  lemma {:induction false} RegisterBranches(hi: nat, reg: Field)
    requires hi < 16 && (reg.FixedR? || reg.FixedAtR?)
    ensures PlacesLast(RegisterForm(hi, reg))
  {
  }

  lemma {:induction false} DirectBranches(hi: nat)
    requires hi < 16
    ensures PlacesLast(DirectForm(hi))
  {
  }

  lemma {:induction false} AccumulatorBranches(hi: nat)
    requires hi < 16
    ensures PlacesLast(AccumulatorForm(hi))
  {
  }

  lemma {:induction false} Column3Branches(hi: nat)
    requires hi < 16
    ensures PlacesLast(Column3Form(hi))
  {
  }

  lemma {:induction false} Column2Branches(hi: nat)
    requires hi < 16
    ensures PlacesLast(Column2Form(hi))
  {
  }

  lemma {:induction false} Column0Branches(hi: nat)
    requires hi < 16
    ensures PlacesLast(Column0Form(hi))
  {
  }

  lemma {:induction false} BranchesAre(opcode: Byte)
    ensures PlacesLast(FormOf(opcode))
  {
    hide RegisterForm, DirectForm, AccumulatorForm, Column3Form, Column2Form, Column0Form;
    var hi, lo := opcode / 16, opcode % 16;
    RegisterBranches(hi, FixedR(if lo >= 8 then lo - 8 else 0));
    RegisterBranches(hi, FixedAtR(if lo >= 6 then lo - 6 else 0));
    DirectBranches(hi);
    AccumulatorBranches(hi);
    Column3Branches(hi);
    Column2Branches(hi);
    Column0Branches(hi);
  }

  /** The targets of a decoded entry are exactly the places its fields name, for
      every opcode. */
  lemma {:induction false} TargetsAre(memory: Memory, a: nat, t: nat)
    requires a in memory
    ensures var e := DecodedAt(memory, a);
            t in TargetsOf(e) <==>
            exists f | f in FieldsOf(FormOf(memory[a])) :: Names(f, e.raw[1..], Following(e), t)
  {
    hide FormOf, Names, Read, IsBranch;
    var e, form := DecodedAt(memory, a), FormOf(memory[a]);
    var o, next, fields := e.raw[1..], Following(e), FieldsOf(form);
    assert e.raw[0] == memory[a];
    assert e.text.instr == Render(form, o, next);
    BranchesAre(memory[a]);
    InstrTargets(form, o, next, e, t);
    forall k | 0 <= k < |fields| ensures Names(fields[k], o, next, t) ==> k + 1 == |fields| && IsBranch(form.op) {
      NamesPlace(fields[k], o, next, t);
    }
  }

  lemma {:induction false} NamesPlace(f: Field, o: seq<Byte>, next: Address, t: nat)
    ensures Names(f, o, next, t) ==> IsPlace(f)
  {
  }

  lemma {:induction false} InstrTargets(form: Form, o: seq<Byte>, next: Address, e: Entry, t: nat)
    requires PlacesLast(form) && e.text == Decoded(Render(form, o, next))
    ensures var fields := FieldsOf(form);
            t in TargetsOf(e) <==> IsBranch(form.op) && fields != [] && Names(fields[|fields| - 1], o, next, t)
  {
    hide Names, Read, IsBranch;
    var fields := FieldsOf(form);
    if fields != [] {
      var last := fields[|fields| - 1];
      ReadNames(last, o, next, t);
      OnlyPlaces(last, o, next);
    }
    forall k | 0 <= k < |fields| ensures Read(fields[k], o, next).To? <==> IsPlace(fields[k]) {
      OnlyPlaces(fields[k], o, next);
    }
  }

  lemma {:induction false} OnlyPlaces(f: Field, o: seq<Byte>, next: Address)
    ensures Read(f, o, next).To? <==> IsPlace(f)
  {
  }

  // ---- the sweep as it runs ----------------------------------------------

  method SweepOnce(memory: Memory, first: nat, last: nat, anchors: set<nat>)
      returns (entries: seq<Entry>, starts: set<nat>, targets: set<nat>)
    ensures entries == Sweep(memory, first, last, anchors)
    ensures starts == Starts(entries)
    ensures targets == Targets(entries)
  {
    hide FormOf, Decode, IsBranch, TargetsOf, Starts, Targets, Conflict, Slice;
    NoEntries();
    entries, starts, targets := [], {}, {};
    var address := first;
    while address <= last
      invariant Sweep(memory, first, last, anchors) == entries + Sweep(memory, address, last, anchors)
      invariant starts == Starts(entries)
      invariant targets == Targets(entries)
      decreases last + 1 - address
    {
      if address !in memory {
        address := address + 1;
        continue;
      }
      var length := FormOf(memory[address]).length;
      var conflict := Conflict(anchors, address, length);
      var entry;
      if conflict != 0 {
        entry := Entry(address, Slice(memory, address, conflict - address), Data);
        assert entry == EntryAt(memory, anchors, address);
        NoTargets(entry);
        address := conflict;
      } else {
        var raw := Slice(memory, address, length);
        var following := (address + length) % 0x1_0000;
        entry := Entry(address, raw, Decoded(Decode(raw[0], raw[1..], following)));
        assert entry == EntryAt(memory, anchors, address);
        starts := starts + {address};
        targets := targets + TargetsOf(entry);
        address := address + length;
      }
      ghost var rest := Sweep(memory, address, last, anchors);
      assert entries + ([entry] + rest) == entries + [entry] + rest;
      StartsSnoc(entries, entry);
      entries := entries + [entry];
    }
    assert entries + [] == entries;
  }

  lemma {:induction false} NoTargets(e: Entry)
    requires e.text.Data?
    ensures TargetsOf(e) == {}
  {
  }

  lemma {:induction false} NoEntries()
    ensures Starts([]) == {} && Targets([]) == {}
  {
  }

  lemma {:induction false} StartsSnoc(entries: seq<Entry>, e: Entry)
    ensures Starts(entries + [e]) == Starts(entries) + if e.text.Decoded? then {e.address} else {}
    ensures Targets(entries + [e]) == Targets(entries) + TargetsOf(e)
  {
  }

  /** Targets that land inside the image but not on a known boundary. */
  function Fresh(memory: Memory, first: nat, last: nat, entries: seq<Entry>, anchors: set<nat>): set<nat> {
    set t | t in Targets(entries) && first <= t <= last && t in memory && t !in Starts(entries) && t !in anchors
  }

  lemma {:induction false} Smaller(all: set<nat>, known: set<nat>, found: set<nat>)
    requires found != {} && found <= all && found !! known
    ensures |all - (known + found)| < |all - known|
  {
    assert all - (known + found) == (all - known) - found;
    assert found <= all - known;
    assert |(all - known) - found| == |all - known| - |found|;
  }

  /** The anchors in force when no sweep proves another boundary wrong: every
      one was the target of a branch some earlier sweep decoded. */
  function FixedAnchors(memory: Memory, first: nat, last: nat, known: set<nat>): (r: set<nat>)
    requires known <= memory.Keys
    ensures known <= r <= memory.Keys
    ensures Fresh(memory, first, last, Sweep(memory, first, last, r), r) == {}
    decreases |memory.Keys - known|
  {
    var found := Fresh(memory, first, last, Sweep(memory, first, last, known), known);
    if found == {} then known
    else
      Smaller(memory.Keys, known, found);
      FixedAnchors(memory, first, last, known + found)
  }

  /** Sweeps until no branch proves a boundary wrong. */
  method Disassemble(memory: Memory, first: nat, last: nat, sync: bool) returns (entries: seq<Entry>)
    ensures entries == Sweep(memory, first, last, if sync then FixedAnchors(memory, first, last, {}) else {})
  {
    hide Sweep, Starts, Targets;
    var known: set<nat> := {};
    while true
      invariant known <= memory.Keys
      invariant if sync then FixedAnchors(memory, first, last, known) == FixedAnchors(memory, first, last, {}) else known == {}
      decreases |memory.Keys - known|
    {
      var starts, targets;
      entries, starts, targets := SweepOnce(memory, first, last, known);
      if !sync {
        return;
      }
      var found := set t | t in targets && first <= t <= last && t in memory && t !in starts && t !in known;
      assert found == Fresh(memory, first, last, entries, known);
      if found == {} {
        return;
      }
      Smaller(memory.Keys, known, found);
      known := known + found;
    }
  }

  // ---- what the listing covers -------------------------------------------

  ghost predicate Holds(e: Entry, a: nat) {
    e.address <= a < e.address + |e.raw|
  }

  lemma {:induction false} Ordered(memory: Memory, a: nat, last: nat, anchors: set<nat>, i: nat, j: nat)
    requires i < j < |Sweep(memory, a, last, anchors)|
    ensures var s := Sweep(memory, a, last, anchors);
            s[i].address + |s[i].raw| <= s[j].address
    decreases last + 1 - a
  {
    hide EntryAt;
    var s := Sweep(memory, a, last, anchors);
    if a !in memory {
      Ordered(memory, a + 1, last, anchors, i, j);
    } else {
      var b := a + |s[0].raw|;
      if i > 0 {
        Ordered(memory, b, last, anchors, i - 1, j - 1);
      } else {
        SweepBounds(memory, b, last, anchors);
        assert s[j] == Sweep(memory, b, last, anchors)[j - 1];
      }
    }
  }

  /** Every byte of the image in range is in exactly one entry, with its own value. */
  lemma {:induction false} CoversOnce(memory: Memory, a: nat, last: nat, anchors: set<nat>, x: nat)
    requires a <= x <= last && x in memory
    ensures var s := Sweep(memory, a, last, anchors);
            exists i :: 0 <= i < |s| && Holds(s[i], x) && s[i].raw[x - s[i].address] == memory[x]
                        && forall j | 0 <= j < |s| && Holds(s[j], x) :: j == i
  {
    var s := Sweep(memory, a, last, anchors);
    var i := Covering(memory, a, last, anchors, x);
    forall j | 0 <= j < |s| && Holds(s[j], x) ensures j == i {
      if i < j {
        Ordered(memory, a, last, anchors, i, j);
      } else if j < i {
        Ordered(memory, a, last, anchors, j, i);
      }
    }
  }

  lemma {:induction false} Covering(memory: Memory, a: nat, last: nat, anchors: set<nat>, x: nat) returns (i: nat)
    requires a <= x <= last && x in memory
    ensures var s := Sweep(memory, a, last, anchors);
            i < |s| && Holds(s[i], x) && s[i].raw[x - s[i].address] == memory[x]
    decreases last + 1 - a
  {
    if a !in memory {
      i := Covering(memory, a + 1, last, anchors, x);
    } else {
      var e := EntryAt(memory, anchors, a);
      if x < a + |e.raw| {
        i := 0;
        EntryBytes(memory, anchors, a);
        assert e.raw[x - a] == Fetch(memory, a + (x - a));
      } else {
        i := Covering(memory, a + |e.raw|, last, anchors, x);
        i := i + 1;
      }
    }
  }

  lemma {:induction false} EntryBytes(memory: Memory, anchors: set<nat>, a: nat)
    requires a in memory
    ensures var e := EntryAt(memory, anchors, a);
            e.raw == Slice(memory, a, |e.raw|)
  {
  }

  /** Decoding never runs across an anchor, so every anchor that holds a byte begins an entry. */
  lemma {:induction false} AnchorsBegin(memory: Memory, a: nat, last: nat, anchors: set<nat>, x: nat)
    requires a <= x <= last && x in memory && x in anchors
    ensures exists e :: e in Sweep(memory, a, last, anchors) && e.address == x
    decreases last + 1 - a
  {
    var s := Sweep(memory, a, last, anchors);
    if a !in memory {
      AnchorsBegin(memory, a + 1, last, anchors, x);
    } else if x == a {
      assert s[0] in s;
    } else {
      var e := EntryAt(memory, anchors, a);
      assert x >= a + |e.raw|;
      AnchorsBegin(memory, a + |e.raw|, last, anchors, x);
      var later :| later in Sweep(memory, a + |e.raw|, last, anchors) && later.address == x;
      assert later in s;
    }
  }

  lemma {:induction false} NoneFresh(memory: Memory, first: nat, last: nat, anchors: set<nat>, e: Entry, t: nat)
    requires var entries := Sweep(memory, first, last, anchors);
             e in entries && t in TargetsOf(e) && Fresh(memory, first, last, entries, anchors) == {}
    requires first <= t <= last && t in memory
    ensures exists f :: f in Sweep(memory, first, last, anchors) && f.address == t
  {
    var entries := Sweep(memory, first, last, anchors);
    assert t in Targets(entries);
    assert t !in Fresh(memory, first, last, entries, anchors);
    if t in Starts(entries) {
      var f :| f in entries && f.text.Decoded? && f.address == t;
      assert f in entries;
    } else {
      AnchorsBegin(memory, first, last, anchors, t);
    }
  }

  /** In the listing every place inside the image that a field of a decoded
      instruction names is the address of an entry. */
  lemma {:induction false} TargetsBegin(memory: Memory, first: nat, last: nat, a: nat, f: Field, t: nat)
    requires a in memory && f in FieldsOf(FormOf(memory[a]))
    requires var e := DecodedAt(memory, a);
             && e in Sweep(memory, first, last, FixedAnchors(memory, first, last, {}))
             && Names(f, e.raw[1..], Following(e), t)
    requires first <= t <= last && t in memory
    ensures exists e :: e in Sweep(memory, first, last, FixedAnchors(memory, first, last, {})) && e.address == t
  {
    hide Sweep, FormOf, Names, FieldsOf, TargetsOf;
    TargetsAre(memory, a, t);
    NoneFresh(memory, first, last, FixedAnchors(memory, first, last, {}), DecodedAt(memory, a), t);
  }

  /** An image whose plain sweep has every such place begin an instruction gains
      no anchor. */
  lemma {:induction false} InPhase(memory: Memory, first: nat, last: nat)
    requires forall t | t in Targets(Sweep(memory, first, last, {})) && first <= t <= last && t in memory ::
               t in Starts(Sweep(memory, first, last, {}))
    ensures FixedAnchors(memory, first, last, {}) == {}
  {
    hide Sweep, Targets, Starts;
    assert Fresh(memory, first, last, Sweep(memory, first, last, {}), {}) == {};
  }

  /** Every anchor was put there because a branch decoded in an earlier sweep,
      with fewer anchors, names it and nothing began there. */
  lemma {:induction false} AnchorsAreNeeded(memory: Memory, first: nat, last: nat, known: set<nat>, x: nat)
    requires known <= memory.Keys && x in FixedAnchors(memory, first, last, known) && x !in known
    ensures exists fewer: set<nat> | known <= fewer < FixedAnchors(memory, first, last, known) ::
              var entries := Sweep(memory, first, last, fewer);
              x !in fewer && x !in Starts(entries) && x in Targets(entries)
    decreases |memory.Keys - known|
  {
    hide Sweep, Targets, Starts;
    var found := Fresh(memory, first, last, Sweep(memory, first, last, known), known);
    if x !in found {
      Smaller(memory.Keys, known, found);
      AnchorsAreNeeded(memory, first, last, known + found, x);
    }
  }

  // ---- assembling the listing again --------------------------------------

  function Reassemble(e: Entry): Code {
    match e.text
    case Decoded(instr) => Assemble(instr, Following(e))
    case Data => Bytes(e.raw)
  }

  lemma {:induction false} EntryReassembles(memory: Memory, anchors: set<nat>, a: nat)
    requires a in memory
    ensures Reassemble(EntryAt(memory, anchors, a)) == Bytes(EntryAt(memory, anchors, a).raw)
  {
    var e := EntryAt(memory, anchors, a);
    if e.text.Decoded? {
      assert e == DecodedAt(memory, a) && e.raw[0] == memory[a];
      AssembleDecode(e.raw[0], e.raw[1..], Following(e));
      assert [e.raw[0]] + e.raw[1..] == e.raw;
    }
  }

  function Placed(a: nat, bytes: seq<Byte>): (r: map<nat, Byte>)
    ensures forall x :: x in r <==> a <= x < a + |bytes|
    ensures forall x | x in r :: r[x] == bytes[x - a]
    decreases |bytes|
  {
    if bytes == [] then map[]
    else
      var n := |bytes| - 1;
      Placed(a, bytes[..n])[a + n := bytes[n]]
  }

  /** What an assembler puts in memory for the whole listing. */
  function Rebuild(entries: seq<Entry>): map<nat, Byte> {
    if entries == [] then map[]
    else
      var code := Reassemble(entries[0]);
      (if code.Bytes? then Placed(entries[0].address, code.bytes) else map[]) + Rebuild(entries[1..])
  }

  lemma {:induction false} RebuildsByte(memory: Memory, a: nat, last: nat, anchors: set<nat>, x: nat)
    ensures var image := Rebuild(Sweep(memory, a, last, anchors));
            && (x in image ==> x >= a && image[x] == Fetch(memory, x))
            && (x in memory && a <= x <= last ==> x in image)
    decreases last + 1 - a
  {
    hide EntryAt, Reassemble, Placed, Slice;
    if a > last {
    } else if a !in memory {
      RebuildsByte(memory, a + 1, last, anchors, x);
    } else {
      var e := EntryAt(memory, anchors, a);
      var s := Sweep(memory, a, last, anchors);
      RebuildsByte(memory, a + |e.raw|, last, anchors, x);
      EntryReassembles(memory, anchors, a);
      EntryBytes(memory, anchors, a);
      assert s[0] == e && s[1..] == Sweep(memory, a + |e.raw|, last, anchors);
      assert Rebuild(s) == Placed(a, e.raw) + Rebuild(s[1..]);
      if x in Placed(a, e.raw) {
        assert e.raw[x - a] == Fetch(memory, a + (x - a));
      }
    }
  }

  /** Reassembling the whole listing gives back the image at every address it
      holds, and puts nothing but zeros in the holes it decoded across. */
  lemma {:induction false} RebuildsImage(memory: Memory, first: nat, last: nat, anchors: set<nat>)
    ensures var image := Rebuild(Sweep(memory, first, last, anchors));
            && (forall x | x in memory && first <= x <= last :: x in image && image[x] == memory[x])
            && (forall x | x in image && x !in memory :: image[x] == 0)
  {
    hide Rebuild, Sweep;
    forall x: nat
      ensures var image := Rebuild(Sweep(memory, first, last, anchors));
              && (x in memory && first <= x <= last ==> x in image && image[x] == memory[x])
              && (x in image && x !in memory ==> image[x] == 0)
    {
      RebuildsByte(memory, first, last, anchors, x);
    }
  }
}
