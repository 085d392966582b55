/** The 8051 instruction table, its decoder, and an assembler to hold it against. */
module Mcs51 {
  import opened Common

  type Address = x: int | 0 <= x < 0x1_0000

  datatype Mnemonic =
    | ADD | ADDC | ORL | ANL | XRL | SUBB | INC | DEC | MOV | XCH | XCHD | DJNZ | CJNE
    | AJMP | ACALL | LJMP | LCALL | SJMP | JMP | JC | JNC | JZ | JNZ | JB | JNB | JBC
    | NOP | RET | RETI | RR | RRC | RL | RLC | DIV | MUL | SWAP | DA | CLR | CPL | SETB
    | MOVC | MOVX | PUSH | POP | RESERVED

  /** Where an operand comes from: fixed by the opcode, or from operand byte `k`. */
  datatype Field =
    | FixedA | FixedAB | FixedC | FixedDPTR | FixedAtDPTR | FixedAtADPTR | FixedAtAPC
    | FixedR(r: nat) | FixedAtR(i: nat)
    | Imm8(k: nat) | Dir8(k: nat) | Bit8(k: nat) | NotBit8(k: nat)
    | Rel8(k: nat)          // signed displacement
    | Paged(page: nat)      // addr11: three bits in the opcode
    | Word16 | Imm16        // operand bytes 0 and 1

  datatype Fields = F0 | F1(a: Field) | F2(a: Field, b: Field) | F3(a: Field, b: Field, c: Field)

  datatype Form = Form(length: nat, op: Mnemonic, fields: Fields)

  datatype Operand =
    | A | AB | C | DPTR | AtDPTR | AtADPTR | AtAPC
    | R(r: nat) | AtR(i: nat)
    | Imm(value: Byte) | Word(word: Address)
    | Dir(address: Byte) | Bit(bit: Byte) | NotBit(bit: Byte)
    | To(target: Address)

  datatype Args = None | One(a: Operand) | Two(a: Operand, b: Operand) | Three(a: Operand, b: Operand, c: Operand)

  datatype Instr = Instr(op: Mnemonic, args: Args)

  // ---- the table, by column ----------------------------------------------

  /** The columns x6..xF: one register operand. */
  function RegisterForm(hi: nat, reg: Field): Form
    requires hi < 16
  {
    match hi
    case 0x0 => Form(1, INC, F1(reg))
    case 0x1 => Form(1, DEC, F1(reg))
    case 0x2 => Form(1, ADD, F2(FixedA, reg))
    case 0x3 => Form(1, ADDC, F2(FixedA, reg))
    case 0x4 => Form(1, ORL, F2(FixedA, reg))
    case 0x5 => Form(1, ANL, F2(FixedA, reg))
    case 0x6 => Form(1, XRL, F2(FixedA, reg))
    case 0x7 => Form(2, MOV, F2(reg, Imm8(0)))
    case 0x8 => Form(2, MOV, F2(Dir8(0), reg))
    case 0x9 => Form(1, SUBB, F2(FixedA, reg))
    case 0xA => Form(2, MOV, F2(reg, Dir8(0)))
    case 0xB => Form(3, CJNE, F3(reg, Imm8(0), Rel8(1)))
    case 0xC => Form(1, XCH, F2(FixedA, reg))
    case 0xD => if reg.FixedR? then Form(2, DJNZ, F2(reg, Rel8(0))) else Form(1, XCHD, F2(FixedA, reg))
    case 0xE => Form(1, MOV, F2(FixedA, reg))
    case _ => Form(1, MOV, F2(reg, FixedA))
  }

  function DirectForm(hi: nat): Form
    requires hi < 16
  {
    match hi
    case 0x0 => Form(2, INC, F1(Dir8(0)))
    case 0x1 => Form(2, DEC, F1(Dir8(0)))
    case 0x2 => Form(2, ADD, F2(FixedA, Dir8(0)))
    case 0x3 => Form(2, ADDC, F2(FixedA, Dir8(0)))
    case 0x4 => Form(2, ORL, F2(FixedA, Dir8(0)))
    case 0x5 => Form(2, ANL, F2(FixedA, Dir8(0)))
    case 0x6 => Form(2, XRL, F2(FixedA, Dir8(0)))
    case 0x7 => Form(3, MOV, F2(Dir8(0), Imm8(1)))
    case 0x8 => Form(3, MOV, F2(Dir8(1), Dir8(0)))   // source byte first in memory
    case 0x9 => Form(2, SUBB, F2(FixedA, Dir8(0)))
    case 0xA => Form(1, RESERVED, F0)
    case 0xB => Form(3, CJNE, F3(FixedA, Dir8(0), Rel8(1)))
    case 0xC => Form(2, XCH, F2(FixedA, Dir8(0)))
    case 0xD => Form(3, DJNZ, F2(Dir8(0), Rel8(1)))
    case 0xE => Form(2, MOV, F2(FixedA, Dir8(0)))
    case _ => Form(2, MOV, F2(Dir8(0), FixedA))
  }

  function AccumulatorForm(hi: nat): Form
    requires hi < 16
  {
    match hi
    case 0x0 => Form(1, INC, F1(FixedA))
    case 0x1 => Form(1, DEC, F1(FixedA))
    case 0x2 => Form(2, ADD, F2(FixedA, Imm8(0)))
    case 0x3 => Form(2, ADDC, F2(FixedA, Imm8(0)))
    case 0x4 => Form(2, ORL, F2(FixedA, Imm8(0)))
    case 0x5 => Form(2, ANL, F2(FixedA, Imm8(0)))
    case 0x6 => Form(2, XRL, F2(FixedA, Imm8(0)))
    case 0x7 => Form(2, MOV, F2(FixedA, Imm8(0)))
    case 0x8 => Form(1, DIV, F1(FixedAB))
    case 0x9 => Form(2, SUBB, F2(FixedA, Imm8(0)))
    case 0xA => Form(1, MUL, F1(FixedAB))
    case 0xB => Form(3, CJNE, F3(FixedA, Imm8(0), Rel8(1)))
    case 0xC => Form(1, SWAP, F1(FixedA))
    case 0xD => Form(1, DA, F1(FixedA))
    case 0xE => Form(1, CLR, F1(FixedA))
    case _ => Form(1, CPL, F1(FixedA))
  }

  function Column0Form(hi: nat): Form
    requires hi < 16
  {
    match hi
    case 0x0 => Form(1, NOP, F0)
    case 0x1 => Form(3, JBC, F2(Bit8(0), Rel8(1)))
    case 0x2 => Form(3, JB, F2(Bit8(0), Rel8(1)))
    case 0x3 => Form(3, JNB, F2(Bit8(0), Rel8(1)))
    case 0x4 => Form(2, JC, F1(Rel8(0)))
    case 0x5 => Form(2, JNC, F1(Rel8(0)))
    case 0x6 => Form(2, JZ, F1(Rel8(0)))
    case 0x7 => Form(2, JNZ, F1(Rel8(0)))
    case 0x8 => Form(2, SJMP, F1(Rel8(0)))
    case 0x9 => Form(3, MOV, F2(FixedDPTR, Imm16))
    case 0xA => Form(2, ORL, F2(FixedC, NotBit8(0)))
    case 0xB => Form(2, ANL, F2(FixedC, NotBit8(0)))
    case 0xC => Form(2, PUSH, F1(Dir8(0)))
    case 0xD => Form(2, POP, F1(Dir8(0)))
    case 0xE => Form(1, MOVX, F2(FixedA, FixedAtDPTR))
    case _ => Form(1, MOVX, F2(FixedAtDPTR, FixedA))
  }

  function Column2Form(hi: nat): Form
    requires hi < 16
  {
    match hi
    case 0x0 => Form(3, LJMP, F1(Word16))
    case 0x1 => Form(3, LCALL, F1(Word16))
    case 0x2 => Form(1, RET, F0)
    case 0x3 => Form(1, RETI, F0)
    case 0x4 => Form(2, ORL, F2(Dir8(0), FixedA))
    case 0x5 => Form(2, ANL, F2(Dir8(0), FixedA))
    case 0x6 => Form(2, XRL, F2(Dir8(0), FixedA))
    case 0x7 => Form(2, ORL, F2(FixedC, Bit8(0)))
    case 0x8 => Form(2, ANL, F2(FixedC, Bit8(0)))
    case 0x9 => Form(2, MOV, F2(Bit8(0), FixedC))
    case 0xA => Form(2, MOV, F2(FixedC, Bit8(0)))
    case 0xB => Form(2, CPL, F1(Bit8(0)))
    case 0xC => Form(2, CLR, F1(Bit8(0)))
    case 0xD => Form(2, SETB, F1(Bit8(0)))
    case 0xE => Form(1, MOVX, F2(FixedA, FixedAtR(0)))
    case _ => Form(1, MOVX, F2(FixedAtR(0), FixedA))
  }

  function Column3Form(hi: nat): Form
    requires hi < 16
  {
    match hi
    case 0x0 => Form(1, RR, F1(FixedA))
    case 0x1 => Form(1, RRC, F1(FixedA))
    case 0x2 => Form(1, RL, F1(FixedA))
    case 0x3 => Form(1, RLC, F1(FixedA))
    case 0x4 => Form(3, ORL, F2(Dir8(0), Imm8(1)))
    case 0x5 => Form(3, ANL, F2(Dir8(0), Imm8(1)))
    case 0x6 => Form(3, XRL, F2(Dir8(0), Imm8(1)))
    case 0x7 => Form(1, JMP, F1(FixedAtADPTR))
    case 0x8 => Form(1, MOVC, F2(FixedA, FixedAtAPC))
    case 0x9 => Form(1, MOVC, F2(FixedA, FixedAtADPTR))
    case 0xA => Form(1, INC, F1(FixedDPTR))
    case 0xB => Form(1, CPL, F1(FixedC))
    case 0xC => Form(1, CLR, F1(FixedC))
    case 0xD => Form(1, SETB, F1(FixedC))
    case 0xE => Form(1, MOVX, F2(FixedA, FixedAtR(1)))
    case _ => Form(1, MOVX, F2(FixedAtR(1), FixedA))
  }

  function FormOf(opcode: Byte): (f: Form)
    ensures 1 <= f.length <= 3
  {
    var hi, lo := opcode / 16, opcode % 16;
    if lo >= 8 then RegisterForm(hi, FixedR(lo - 8))
    else if lo >= 6 then RegisterForm(hi, FixedAtR(lo - 6))
    else if lo == 5 then DirectForm(hi)
    else if lo == 4 then AccumulatorForm(hi)
    else if lo == 3 then Column3Form(hi)
    else if lo == 2 then Column2Form(hi)
    else if lo == 1 then Form(2, if hi % 2 == 0 then AJMP else ACALL, F1(Paged(hi / 2)))
    else Column0Form(hi)
  }

  // ---- decoding -----------------------------------------------------------

  function Rel(offset: Byte, next: Address): Address {
    (next + (if offset > 127 then offset - 256 else offset)) % 0x1_0000
  }

  function At(o: seq<Byte>, k: nat): Byte {
    if k < |o| then o[k] else 0
  }

  function Read(f: Field, o: seq<Byte>, next: Address): Operand {
    match f
    case FixedA => A
    case FixedAB => AB
    case FixedC => C
    case FixedDPTR => DPTR
    case FixedAtDPTR => AtDPTR
    case FixedAtADPTR => AtADPTR
    case FixedAtAPC => AtAPC
    case FixedR(r) => R(r)
    case FixedAtR(i) => AtR(i)
    case Imm8(k) => Imm(At(o, k))
    case Dir8(k) => Dir(At(o, k))
    case Bit8(k) => Bit(At(o, k))
    case NotBit8(k) => NotBit(At(o, k))
    case Rel8(k) => To(Rel(At(o, k), next))
    case Paged(page) => To((next / 2048 * 2048 + page * 256 + At(o, 0)) % 0x1_0000)
    case Word16 => To(At(o, 0) * 256 + At(o, 1))
    case Imm16 => Word(At(o, 0) * 256 + At(o, 1))
  }

  function Decode(opcode: Byte, o: seq<Byte>, next: Address): Instr {
    Render(FormOf(opcode), o, next)
  }

  function Render(form: Form, o: seq<Byte>, next: Address): Instr {
    Instr(form.op,
          match form.fields
          case F0 => Args.None
          case F1(a) => One(Read(a, o, next))
          case F2(a, b) => Two(Read(a, o, next), Read(b, o, next))
          case F3(a, b, c) => Three(Read(a, o, next), Read(b, o, next), Read(c, o, next)))
  }

  // ---- an assembler -------------------------------------------------------

  datatype Code = Bytes(bytes: seq<Byte>) | NoSuchInstruction

  /** The displacement byte of a branch to `target`, if one reaches. */
  function Displacement(target: Address, next: Address): Code {
    var d := (target - next) % 0x1_0000;
    if d < 128 then Bytes([d]) else if d >= 0x1_0000 - 128 then Bytes([d - 0xFF00]) else NoSuchInstruction
  }

  function Then(head: seq<Byte>, tail: Code): Code {
    if tail.Bytes? then Bytes(head + tail.bytes) else tail
  }

  /** `A,source` in the rows of the two-operand arithmetic. */
  function WithA(row: nat, source: Operand): Code
    requires row < 16
  {
    match source
    case Imm(v) => Bytes([row * 16 + 4, v])
    case Dir(a) => Bytes([row * 16 + 5, a])
    case AtR(i) => if i < 2 then Bytes([row * 16 + 6 + i]) else NoSuchInstruction
    case R(r) => if r < 8 then Bytes([row * 16 + 8 + r]) else NoSuchInstruction
    case _ => NoSuchInstruction
  }

  function Logic(row: nat, carry: nat, notCarry: nat, args: Args): Code
    requires row < 16 && carry < 256 && notCarry < 256
  {
    match args
    case Two(A, source) => WithA(row, source)
    case Two(Dir(a), A) => Bytes([row * 16 + 2, a])
    case Two(Dir(a), Imm(v)) => Bytes([row * 16 + 3, a, v])
    case Two(C, Bit(b)) => if carry > 0 then Bytes([carry, b]) else NoSuchInstruction
    case Two(C, NotBit(b)) => if notCarry > 0 then Bytes([notCarry, b]) else NoSuchInstruction
    case _ => NoSuchInstruction
  }

  function Single(row: nat, args: Args): Code
    requires row < 16
  {
    match args
    case One(A) => Bytes([row * 16 + 4])
    case One(Dir(a)) => Bytes([row * 16 + 5, a])
    case One(AtR(i)) => if i < 2 then Bytes([row * 16 + 6 + i]) else NoSuchInstruction
    case One(R(r)) => if r < 8 then Bytes([row * 16 + 8 + r]) else NoSuchInstruction
    case One(DPTR) => if row == 0 then Bytes([0xA3]) else NoSuchInstruction
    case _ => NoSuchInstruction
  }

  function Move(args: Args): Code {
    match args
    case Two(A, Imm(v)) => Bytes([0x74, v])
    case Two(A, source) => WithA(0xE, source)
    case Two(AtR(i), source) =>
      if i >= 2 then NoSuchInstruction else
      (match source
       case Imm(v) => Bytes([0x76 + i, v])
       case Dir(a) => Bytes([0xA6 + i, a])
       case A => Bytes([0xF6 + i])
       case _ => NoSuchInstruction)
    case Two(R(r), source) =>
      if r >= 8 then NoSuchInstruction else
      (match source
       case Imm(v) => Bytes([0x78 + r, v])
       case Dir(a) => Bytes([0xA8 + r, a])
       case A => Bytes([0xF8 + r])
       case _ => NoSuchInstruction)
    case Two(Dir(a), source) =>
      (match source
       case A => Bytes([0xF5, a])
       case Imm(v) => Bytes([0x75, a, v])
       case Dir(b) => Bytes([0x85, b, a])
       case AtR(i) => if i < 2 then Bytes([0x86 + i, a]) else NoSuchInstruction
       case R(r) => if r < 8 then Bytes([0x88 + r, a]) else NoSuchInstruction
       case _ => NoSuchInstruction)
    case Two(Bit(b), C) => Bytes([0x92, b])
    case Two(C, Bit(b)) => Bytes([0xA2, b])
    case Two(DPTR, Word(w)) => Bytes([0x90, w / 256, w % 256])
    case _ => NoSuchInstruction
  }

  function Compare(args: Args, next: Address): Code {
    match args
    case Three(A, Imm(v), To(t)) => Then([0xB4, v], Displacement(t, next))
    case Three(A, Dir(a), To(t)) => Then([0xB5, a], Displacement(t, next))
    case Three(AtR(i), Imm(v), To(t)) => if i < 2 then Then([0xB6 + i, v], Displacement(t, next)) else NoSuchInstruction
    case Three(R(r), Imm(v), To(t)) => if r < 8 then Then([0xB8 + r, v], Displacement(t, next)) else NoSuchInstruction
    case _ => NoSuchInstruction
  }

  function Branch(opcode: Byte, args: Args, next: Address): Code {
    match args
    case One(To(t)) => Then([opcode], Displacement(t, next))
    case Two(Bit(b), To(t)) => Then([opcode, b], Displacement(t, next))
    case _ => NoSuchInstruction
  }

  /** A jump within the 2 KB page of the next instruction. */
  function InPage(column: nat, args: Args, next: Address): Code
    requires column < 32
  {
    match args
    case One(To(t)) =>
      if t / 2048 == next / 2048 then Bytes([column + t % 2048 / 256 * 32, t % 256]) else NoSuchInstruction
    case _ => NoSuchInstruction
  }

  /** An instruction of one byte, which takes just these operands. */
  function Alone(opcode: Byte, wanted: Args, args: Args): Code {
    if args == wanted then Bytes([opcode]) else NoSuchInstruction
  }

  /** The bytes of an instruction, `next` being the address after it. */
  function Assemble(instr: Instr, next: Address): Code {
    match instr.op
    case ADD => if instr.args.Two? && instr.args.a.A? then WithA(0x2, instr.args.b) else NoSuchInstruction
    case ADDC => if instr.args.Two? && instr.args.a.A? then WithA(0x3, instr.args.b) else NoSuchInstruction
    case SUBB => if instr.args.Two? && instr.args.a.A? then WithA(0x9, instr.args.b) else NoSuchInstruction
    case ORL => Logic(0x4, 0x72, 0xA0, instr.args)
    case ANL => Logic(0x5, 0x82, 0xB0, instr.args)
    case XRL => Logic(0x6, 0, 0, instr.args)
    case INC => Single(0x0, instr.args)
    case DEC => Single(0x1, instr.args)
    case MOV => Move(instr.args)
    case XCH => if instr.args.Two? && instr.args.a.A? && !instr.args.b.Imm? then WithA(0xC, instr.args.b) else NoSuchInstruction
    case XCHD =>
      (match instr.args
       case Two(A, AtR(i)) => if i < 2 then Bytes([0xD6 + i]) else NoSuchInstruction
       case _ => NoSuchInstruction)
    case DJNZ =>
      (match instr.args
       case Two(Dir(a), To(t)) => Then([0xD5, a], Displacement(t, next))
       case Two(R(r), To(t)) => if r < 8 then Then([0xD8 + r], Displacement(t, next)) else NoSuchInstruction
       case _ => NoSuchInstruction)
    case CJNE => Compare(instr.args, next)
    case AJMP => InPage(0x01, instr.args, next)
    case ACALL => InPage(0x11, instr.args, next)
    case LJMP => if instr.args.One? && instr.args.a.To? then Bytes([0x02, instr.args.a.target / 256, instr.args.a.target % 256]) else NoSuchInstruction
    case LCALL => if instr.args.One? && instr.args.a.To? then Bytes([0x12, instr.args.a.target / 256, instr.args.a.target % 256]) else NoSuchInstruction
    case SJMP => Branch(0x80, instr.args, next)
    case JC => Branch(0x40, instr.args, next)
    case JNC => Branch(0x50, instr.args, next)
    case JZ => Branch(0x60, instr.args, next)
    case JNZ => Branch(0x70, instr.args, next)
    case JBC => Branch(0x10, instr.args, next)
    case JB => Branch(0x20, instr.args, next)
    case JNB => Branch(0x30, instr.args, next)
    case JMP => Alone(0x73, One(AtADPTR), instr.args)
    case NOP => Alone(0x00, Args.None, instr.args)
    case RET => Alone(0x22, Args.None, instr.args)
    case RETI => Alone(0x32, Args.None, instr.args)
    case RR => Alone(0x03, One(A), instr.args)
    case RRC => Alone(0x13, One(A), instr.args)
    case RL => Alone(0x23, One(A), instr.args)
    case RLC => Alone(0x33, One(A), instr.args)
    case DIV => Alone(0x84, One(AB), instr.args)
    case MUL => Alone(0xA4, One(AB), instr.args)
    case SWAP => Alone(0xC4, One(A), instr.args)
    case DA => Alone(0xD4, One(A), instr.args)
    case RESERVED => Alone(0xA5, Args.None, instr.args)
    case CLR =>
      (match instr.args
       case One(A) => Bytes([0xE4])
       case One(C) => Bytes([0xC3])
       case One(Bit(b)) => Bytes([0xC2, b])
       case _ => NoSuchInstruction)
    case CPL =>
      (match instr.args
       case One(A) => Bytes([0xF4])
       case One(C) => Bytes([0xB3])
       case One(Bit(b)) => Bytes([0xB2, b])
       case _ => NoSuchInstruction)
    case SETB =>
      (match instr.args
       case One(C) => Bytes([0xD3])
       case One(Bit(b)) => Bytes([0xD2, b])
       case _ => NoSuchInstruction)
    case MOVC =>
      if instr.args.Two? && instr.args.b.AtAPC? then Alone(0x83, Two(A, AtAPC), instr.args)
      else Alone(0x93, Two(A, AtADPTR), instr.args)
    case MOVX =>
      (match instr.args
       case Two(A, AtDPTR) => Bytes([0xE0])
       case Two(AtDPTR, A) => Bytes([0xF0])
       case Two(A, AtR(i)) => if i < 2 then Bytes([0xE2 + i]) else NoSuchInstruction
       case Two(AtR(i), A) => if i < 2 then Bytes([0xF2 + i]) else NoSuchInstruction
       case _ => NoSuchInstruction)
    case PUSH => if instr.args.One? && instr.args.a.Dir? then Bytes([0xC0, instr.args.a.address]) else NoSuchInstruction
    case POP => if instr.args.One? && instr.args.a.Dir? then Bytes([0xD0, instr.args.a.address]) else NoSuchInstruction
  }

  // ---- decoding, then assembling ------------------------------------------

  lemma {:induction false} DisplacementOfRel(offset: Byte, next: Address)
    ensures Displacement(Rel(offset, next), next) == Bytes([offset])
  {
    var signed := if offset > 127 then offset - 256 else offset;
    var target := Rel(offset, next);
    assert target == next + signed || target == next + signed + 0x1_0000 || target == next + signed - 0x1_0000;
  }

  lemma {:induction false} PageOfTarget(next: Address, page: nat, low: Byte)
    requires page < 8
    ensures var t := (next / 2048 * 2048 + page * 256 + low) % 0x1_0000;
            t / 2048 == next / 2048 && t % 2048 / 256 == page && t % 256 == low
  {
    var t := next / 2048 * 2048 + page * 256 + low;
    assert t < 0x1_0000;
    assert t / 2048 == next / 2048 && t % 2048 == page * 256 + low;
  }

  ghost predicate Trips(form: Form, opcode: Byte, o: seq<Byte>, next: Address) {
    Assemble(Render(form, o, next), next) == Bytes([opcode] + o)
  }

  lemma {:induction false} OperandBytes(opcode: Byte, o: seq<Byte>, next: Address)
    requires |o| <= 2
    ensures [opcode] + o == if |o| == 0 then [opcode] else if |o| == 1 then [opcode, At(o, 0)] else [opcode, At(o, 0), At(o, 1)]
    ensures [opcode] + [At(o, 0)] == [opcode, At(o, 0)]
    ensures [opcode, At(o, 0)] + [At(o, 1)] == [opcode, At(o, 0), At(o, 1)]
    ensures Displacement(Rel(At(o, 0), next), next) == Bytes([At(o, 0)])
    ensures Displacement(Rel(At(o, 1), next), next) == Bytes([At(o, 1)])
  {
    DisplacementOfRel(At(o, 0), next);
    DisplacementOfRel(At(o, 1), next);
  }

  lemma {:induction false} RegisterArithmetic(hi: nat, r: nat, o: seq<Byte>, next: Address)
    requires (hi < 7 || hi == 9) && r < 8
    requires |o| + 1 == RegisterForm(hi, FixedR(r)).length
    ensures Trips(RegisterForm(hi, FixedR(r)), hi * 16 + 8 + r, o, next)
  {
    hide Displacement, Rel, InPage, Branch, Move, Compare;
    OperandBytes(hi * 16 + 8 + r, o, next);
  }

  lemma {:induction false} RegisterMoves(hi: nat, r: nat, o: seq<Byte>, next: Address)
    requires (hi == 7 || hi == 8 || hi == 10 || hi == 11) && r < 8
    requires |o| + 1 == RegisterForm(hi, FixedR(r)).length
    ensures Trips(RegisterForm(hi, FixedR(r)), hi * 16 + 8 + r, o, next)
  {
    hide Displacement, Rel, InPage, Branch, Logic, Single;
    OperandBytes(hi * 16 + 8 + r, o, next);
  }

  lemma {:induction false} RegisterLast(hi: nat, r: nat, o: seq<Byte>, next: Address)
    requires 12 <= hi < 16 && r < 8
    requires |o| + 1 == RegisterForm(hi, FixedR(r)).length
    ensures Trips(RegisterForm(hi, FixedR(r)), hi * 16 + 8 + r, o, next)
  {
    hide Displacement, Rel, InPage, Branch, Logic, Compare;
    OperandBytes(hi * 16 + 8 + r, o, next);
  }

  lemma {:induction false} RegisterTrips(hi: nat, r: nat, o: seq<Byte>, next: Address)
    requires hi < 16 && r < 8
    requires |o| + 1 == RegisterForm(hi, FixedR(r)).length
    ensures Trips(RegisterForm(hi, FixedR(r)), hi * 16 + 8 + r, o, next)
  {
    if hi < 7 || hi == 9 {
      RegisterArithmetic(hi, r, o, next);
    } else if hi < 12 {
      RegisterMoves(hi, r, o, next);
    } else {
      RegisterLast(hi, r, o, next);
    }
  }

  lemma {:induction false} IndirectArithmetic(hi: nat, i: nat, o: seq<Byte>, next: Address)
    requires (hi < 7 || hi == 9) && i < 2
    requires |o| + 1 == RegisterForm(hi, FixedAtR(i)).length
    ensures Trips(RegisterForm(hi, FixedAtR(i)), hi * 16 + 6 + i, o, next)
  {
    hide Displacement, Rel, InPage, Branch, Move, Compare;
    OperandBytes(hi * 16 + 6 + i, o, next);
  }

  lemma {:induction false} IndirectMoves(hi: nat, i: nat, o: seq<Byte>, next: Address)
    requires (hi == 7 || hi == 8 || hi == 10 || hi == 11) && i < 2
    requires |o| + 1 == RegisterForm(hi, FixedAtR(i)).length
    ensures Trips(RegisterForm(hi, FixedAtR(i)), hi * 16 + 6 + i, o, next)
  {
    hide Displacement, Rel, InPage, Branch, Logic, Single;
    OperandBytes(hi * 16 + 6 + i, o, next);
  }

  lemma {:induction false} IndirectLast(hi: nat, i: nat, o: seq<Byte>, next: Address)
    requires 12 <= hi < 16 && i < 2
    requires |o| + 1 == RegisterForm(hi, FixedAtR(i)).length
    ensures Trips(RegisterForm(hi, FixedAtR(i)), hi * 16 + 6 + i, o, next)
  {
    hide Displacement, Rel, InPage, Branch, Logic, Single;
    OperandBytes(hi * 16 + 6 + i, o, next);
  }

  lemma {:induction false} IndirectTrips(hi: nat, i: nat, o: seq<Byte>, next: Address)
    requires hi < 16 && i < 2
    requires |o| + 1 == RegisterForm(hi, FixedAtR(i)).length
    ensures Trips(RegisterForm(hi, FixedAtR(i)), hi * 16 + 6 + i, o, next)
  {
    if hi < 7 || hi == 9 {
      IndirectArithmetic(hi, i, o, next);
    } else if hi < 12 {
      IndirectMoves(hi, i, o, next);
    } else {
      IndirectLast(hi, i, o, next);
    }
  }

  lemma {:induction false} DirectArithmetic(hi: nat, o: seq<Byte>, next: Address)
    requires hi < 7 || hi == 9
    requires |o| + 1 == DirectForm(hi).length
    ensures Trips(DirectForm(hi), hi * 16 + 5, o, next)
  {
    hide Displacement, Rel, InPage, Branch, Move, Compare;
    OperandBytes(hi * 16 + 5, o, next);
  }

  lemma {:induction false} DirectMoves(hi: nat, o: seq<Byte>, next: Address)
    requires hi == 7 || hi == 8 || hi == 10 || hi == 11
    requires |o| + 1 == DirectForm(hi).length
    ensures Trips(DirectForm(hi), hi * 16 + 5, o, next)
  {
    hide Displacement, Rel, InPage, Branch, Logic, Single;
    OperandBytes(hi * 16 + 5, o, next);
  }

  lemma {:induction false} DirectLast(hi: nat, o: seq<Byte>, next: Address)
    requires 12 <= hi < 16
    requires |o| + 1 == DirectForm(hi).length
    ensures Trips(DirectForm(hi), hi * 16 + 5, o, next)
  {
    hide Displacement, Rel, InPage, Branch, Logic, Single;
    OperandBytes(hi * 16 + 5, o, next);
  }

  lemma {:induction false} DirectTrips(hi: nat, o: seq<Byte>, next: Address)
    requires hi < 16
    requires |o| + 1 == DirectForm(hi).length
    ensures Trips(DirectForm(hi), hi * 16 + 5, o, next)
  {
    if hi < 7 || hi == 9 {
      DirectArithmetic(hi, o, next);
    } else if hi < 12 {
      DirectMoves(hi, o, next);
    } else {
      DirectLast(hi, o, next);
    }
  }

  lemma {:induction false} AccumulatorLow(hi: nat, o: seq<Byte>, next: Address)
    requires hi < 8
    requires |o| + 1 == AccumulatorForm(hi).length
    ensures Trips(AccumulatorForm(hi), hi * 16 + 4, o, next)
  {
    hide Displacement, Rel, InPage, Branch;
    OperandBytes(hi * 16 + 4, o, next);
  }

  lemma {:induction false} AccumulatorHigh(hi: nat, o: seq<Byte>, next: Address)
    requires 8 <= hi < 16
    requires |o| + 1 == AccumulatorForm(hi).length
    ensures Trips(AccumulatorForm(hi), hi * 16 + 4, o, next)
  {
    hide Displacement, Rel, InPage, Branch;
    OperandBytes(hi * 16 + 4, o, next);
  }

  lemma {:induction false} AccumulatorTrips(hi: nat, o: seq<Byte>, next: Address)
    requires hi < 16
    requires |o| + 1 == AccumulatorForm(hi).length
    ensures Trips(AccumulatorForm(hi), hi * 16 + 4, o, next)
  {
    if hi < 8 {
      AccumulatorLow(hi, o, next);
    } else {
      AccumulatorHigh(hi, o, next);
    }
  }

  lemma {:induction false} Column3Low(hi: nat, o: seq<Byte>, next: Address)
    requires hi < 8
    requires |o| + 1 == Column3Form(hi).length
    ensures Trips(Column3Form(hi), hi * 16 + 3, o, next)
  {
    hide Displacement, Rel, InPage, Branch, Compare, Move, WithA, Then;
    OperandBytes(hi * 16 + 3, o, next);
  }

  lemma {:induction false} Column3High(hi: nat, o: seq<Byte>, next: Address)
    requires 8 <= hi < 16
    requires |o| + 1 == Column3Form(hi).length
    ensures Trips(Column3Form(hi), hi * 16 + 3, o, next)
  {
    hide Displacement, Rel, InPage, Branch, Compare, Move, WithA, Then;
    OperandBytes(hi * 16 + 3, o, next);
  }

  lemma {:induction false} Column3Trips(hi: nat, o: seq<Byte>, next: Address)
    requires hi < 16
    requires |o| + 1 == Column3Form(hi).length
    ensures Trips(Column3Form(hi), hi * 16 + 3, o, next)
  {
    if hi < 8 {
      Column3Low(hi, o, next);
    } else {
      Column3High(hi, o, next);
    }
  }

  lemma {:induction false} Column2Calls(hi: nat, o: seq<Byte>, next: Address)
    requires hi < 7
    requires |o| + 1 == Column2Form(hi).length
    ensures Trips(Column2Form(hi), hi * 16 + 2, o, next)
  {
    hide Displacement, Rel, InPage, Branch, Compare, Single, WithA, Then, Move;
    OperandBytes(hi * 16 + 2, o, next);
  }

  lemma {:induction false} Column2Bits(hi: nat, o: seq<Byte>, next: Address)
    requires 7 <= hi < 11
    requires |o| + 1 == Column2Form(hi).length
    ensures Trips(Column2Form(hi), hi * 16 + 2, o, next)
  {
    hide Displacement, Rel, InPage, Branch, Compare, Single, WithA, Then;
    OperandBytes(hi * 16 + 2, o, next);
  }

  lemma {:induction false} Column2Last(hi: nat, o: seq<Byte>, next: Address)
    requires 11 <= hi < 16
    requires |o| + 1 == Column2Form(hi).length
    ensures Trips(Column2Form(hi), hi * 16 + 2, o, next)
  {
    hide Displacement, Rel, InPage, Branch, Compare, Single, WithA, Then;
    OperandBytes(hi * 16 + 2, o, next);
  }

  lemma {:induction false} Column2Trips(hi: nat, o: seq<Byte>, next: Address)
    requires hi < 16
    requires |o| + 1 == Column2Form(hi).length
    ensures Trips(Column2Form(hi), hi * 16 + 2, o, next)
  {
    if hi < 7 {
      Column2Calls(hi, o, next);
    } else if hi < 11 {
      Column2Bits(hi, o, next);
    } else {
      Column2Last(hi, o, next);
    }
  }

  lemma {:induction false} Column0Branches(hi: nat, o: seq<Byte>, next: Address)
    requires 1 <= hi < 5
    requires |o| + 1 == Column0Form(hi).length
    ensures Trips(Column0Form(hi), hi * 16, o, next)
  {
    hide Displacement, Rel, InPage, Compare, Single, WithA, Move, Logic;
    OperandBytes(hi * 16, o, next);
  }

  lemma {:induction false} Column0Jumps(hi: nat, o: seq<Byte>, next: Address)
    requires 5 <= hi < 9
    requires |o| + 1 == Column0Form(hi).length
    ensures Trips(Column0Form(hi), hi * 16, o, next)
  {
    hide Displacement, Rel, InPage, Compare, Single, WithA, Move, Logic;
    OperandBytes(hi * 16, o, next);
  }

  lemma {:induction false} Column0Others(hi: nat, o: seq<Byte>, next: Address)
    requires hi == 0 || 9 <= hi < 12
    requires |o| + 1 == Column0Form(hi).length
    ensures Trips(Column0Form(hi), hi * 16, o, next)
  {
    hide Displacement, Rel, InPage, Compare, Single, WithA, Branch;
    OperandBytes(hi * 16, o, next);
  }

  lemma {:induction false} Column0Last(hi: nat, o: seq<Byte>, next: Address)
    requires 12 <= hi < 16
    requires |o| + 1 == Column0Form(hi).length
    ensures Trips(Column0Form(hi), hi * 16, o, next)
  {
    hide Displacement, Rel, InPage, Compare, Single, WithA, Branch;
    OperandBytes(hi * 16, o, next);
  }

  lemma {:induction false} Column0Trips(hi: nat, o: seq<Byte>, next: Address)
    requires hi < 16
    requires |o| + 1 == Column0Form(hi).length
    ensures Trips(Column0Form(hi), hi * 16, o, next)
  {
    if 1 <= hi < 5 {
      Column0Branches(hi, o, next);
    } else if 5 <= hi < 9 {
      Column0Jumps(hi, o, next);
    } else if hi < 12 {
      Column0Others(hi, o, next);
    } else {
      Column0Last(hi, o, next);
    }
  }

  /** Every opcode, with any operand bytes at any address, assembles back to the same bytes. */
  lemma {:induction false} AssembleDecode(opcode: Byte, o: seq<Byte>, next: Address)
    requires |o| + 1 == FormOf(opcode).length
    ensures Assemble(Decode(opcode, o, next), next) == Bytes([opcode] + o)
  {
    hide Assemble, Render, RegisterForm, DirectForm, AccumulatorForm, Column3Form, Column2Form, Column0Form;
    var hi, lo := opcode / 16, opcode % 16;
    if lo >= 8 {
      RegisterTrips(hi, lo - 8, o, next);
    } else if lo >= 6 {
      IndirectTrips(hi, lo - 6, o, next);
    } else if lo == 5 {
      DirectTrips(hi, o, next);
    } else if lo == 4 {
      AccumulatorTrips(hi, o, next);
    } else if lo == 3 {
      Column3Trips(hi, o, next);
    } else if lo == 2 {
      Column2Trips(hi, o, next);
    } else if lo == 1 {
      PageTrips(hi, o, next);
    } else {
      Column0Trips(hi, o, next);
    }
  }

  lemma {:induction false} PageTrips(hi: nat, o: seq<Byte>, next: Address)
    requires hi < 16 && |o| == 1
    ensures Trips(Form(2, if hi % 2 == 0 then AJMP else ACALL, F1(Paged(hi / 2))), hi * 16 + 1, o, next)
  {
    PageOfTarget(next, hi / 2, o[0]);
    OperandBytes(hi * 16 + 1, o, next);
  }
}
