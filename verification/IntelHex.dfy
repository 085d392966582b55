/** The Intel HEX writer and reader. */
module IntelHex {
  import opened Common

  // ---- hexadecimal text ---------------------------------------------------

  function Digit(n: int): char
    requires 0 <= n < 16
  {
    "0123456789ABCDEF"[n]
  }

  /** `bytes.fromhex` takes both cases. */
  function Value(c: char): (r: Option<int>)
    ensures r.Some? ==> 0 <= r.value < 16
  {
    if '0' <= c <= '9' then Some(c as int - '0' as int)
    else if 'A' <= c <= 'F' then Some(c as int - 'A' as int + 10)
    else if 'a' <= c <= 'f' then Some(c as int - 'a' as int + 10)
    else None
  }

  function Hex(bytes: seq<Byte>): string {
    if bytes == [] then "" else [Digit(bytes[0] / 16), Digit(bytes[0] % 16)] + Hex(bytes[1..])
  }

  /** `bytes.fromhex`: blanks may stand between bytes, not inside one. */
  function FromHex(text: string): Option<seq<Byte>> {
    if text == "" then Some([])
    else if Space(text[0]) then FromHex(text[1..])
    else if |text| == 1 || Value(text[0]).None? || Value(text[1]).None? then None
    else
      var rest := FromHex(text[2..]);
      if rest.None? then None
      else Some([Value(text[0]).value * 16 + Value(text[1]).value] + rest.value)
  }

  lemma {:induction false} FromHexPair(high: char, low: char, rest: string)
    requires Value(high).Some? && Value(low).Some?
    ensures FromHex([high, low] + rest) ==
            if FromHex(rest).None? then None
            else Some([Value(high).value * 16 + Value(low).value] + FromHex(rest).value)
  {
    hide Value, Space;
    NotBlank(high);
    var text := [high, low] + rest;
    assert text[0] == high && text[1] == low && text[2..] == rest;
  }

  lemma {:induction false} FromHexHex(bytes: seq<Byte>)
    ensures FromHex(Hex(bytes)) == Some(bytes)
    decreases bytes
  {
    hide Digit, Value, Space, FromHex;
    if bytes == [] {
      FromNothing();
    } else {
      var b := bytes[0];
      DigitValue(b / 16);
      DigitValue(b % 16);
      FromHexHex(bytes[1..]);
      FromHexPair(Digit(b / 16), Digit(b % 16), Hex(bytes[1..]));
      assert b / 16 * 16 + b % 16 == b;
      assert [b] + bytes[1..] == bytes;
    }
  }

  lemma {:induction false} FromNothing()
    ensures FromHex("") == Some([])
  {
  }

  lemma {:induction false} DigitValue(n: int)
    requires 0 <= n < 16
    ensures Value(Digit(n)) == Some(n)
  {
  }

  lemma {:induction false} NotBlank(c: char)
    requires Value(c).Some?
    ensures !Space(c)
  {
  }

  function StripStart(s: string): string {
    if s != "" && Space(s[0]) then StripStart(s[1..]) else s
  }

  function StripEnd(s: string): string {
    if s != "" && Space(s[|s| - 1]) then StripEnd(s[..|s| - 1]) else s
  }

  function Strip(s: string): string {
    StripEnd(StripStart(s))
  }

  /** A line that begins with a colon and ends in hexadecimal has no margin. */
  lemma {:induction false} NoMargin(bytes: seq<Byte>)
    requires bytes != []
    ensures Strip(":" + Hex(bytes)) == ":" + Hex(bytes)
  {
    hide Hex;
    HexLast(bytes);
    var s := ":" + Hex(bytes);
    assert s[0] == ':' && s[|s| - 1] == Hex(bytes)[|Hex(bytes)| - 1];
    NotBlank(s[|s| - 1]);
  }

  lemma {:induction false} HexLast(bytes: seq<Byte>)
    requires bytes != []
    ensures Hex(bytes) != "" && Value(Hex(bytes)[|Hex(bytes)| - 1]).Some?
    decreases bytes
  {
    hide Digit, Value;
    var b := bytes[0];
    var text := [Digit(b / 16), Digit(b % 16)] + Hex(bytes[1..]);
    DigitValue(b % 16);
    if |bytes| > 1 {
      HexLast(bytes[1..]);
      assert text[|text| - 1] == Hex(bytes[1..])[|Hex(bytes[1..])| - 1];
    } else {
      assert Hex(bytes[1..]) == "";
    }
  }

  function Sum(bytes: seq<Byte>): nat {
    if bytes == [] then 0 else var b: int := bytes[0]; b + Sum(bytes[1..])
  }

  lemma {:induction false} SumSnoc(bytes: seq<Byte>, b: Byte)
    ensures Sum(bytes + [b]) == Sum(bytes) + b
    decreases bytes
  {
    if bytes == [] {
      assert ([] + [b])[1..] == [];
    } else {
      assert (bytes + [b])[1..] == bytes[1..] + [b];
      SumSnoc(bytes[1..], b);
    }
  }

  // ---- the writer ---------------------------------------------------------

  /** The byte that brings the sum to zero modulo 256. */
  function Checksum(bytes: seq<Byte>): Byte {
    (0x100 - Sum(bytes) % 0x100) % 0x100
  }

  const EOF := ":00000001FF"

  function Low(address: nat): Byte {
    address % 0x100
  }

  function High(address: nat): Byte {
    address / 0x100 % 0x100
  }

  /** A data record and its checksum, as bytes. */
  function Record(chunk: seq<Byte>, address: nat): seq<Byte>
    requires |chunk| <= 16
  {
    var body := [|chunk|, High(address), Low(address), 0] + chunk;
    body + [Checksum(body)]
  }

  function Chunk(blob: seq<Byte>, offset: nat): (r: seq<Byte>)
    requires offset <= |blob|
    ensures |r| == if offset + 16 <= |blob| then 16 else |blob| - offset
  {
    if offset + 16 <= |blob| then blob[offset..offset + 16] else blob[offset..]
  }

  function Records(blob: seq<Byte>, origin: nat, offset: nat): seq<string>
    decreases |blob| - offset
  {
    if offset >= |blob| then [EOF]
    else [":" + Hex(Record(Chunk(blob, offset), origin + offset))] + Records(blob, origin, offset + 16)
  }

  lemma {:induction false} RecordIs(chunk: seq<Byte>, address: nat)
    requires |chunk| <= 16
    ensures var rec := [|chunk|, High(address), Low(address), 0] + chunk;
            Record(chunk, address) == rec + [Checksum(rec)]
  {
  }

  method IhexFromBin(blob: seq<Byte>, origin: nat) returns (lines: seq<string>)
    ensures lines == Records(blob, origin, 0)
  {
    hide Hex, Sum, Checksum, Record, Chunk, High, Low;
    lines := [];
    var offset := 0;
    while offset < |blob|
      invariant lines + Records(blob, origin, offset) == Records(blob, origin, 0)
    {
      var chunk := Chunk(blob, offset);
      var addr := origin + offset;
      var rec: seq<Byte> := [|chunk|, High(addr), Low(addr), 0] + chunk;
      var checksum := Checksum(rec);
      var line := ":" + Hex(rec + [checksum]);
      RecordIs(chunk, addr);
      assert lines + ([line] + Records(blob, origin, offset + 16)) == lines + [line] + Records(blob, origin, offset + 16);
      lines := lines + [line];
      offset := offset + 16;
    }
    lines := lines + [EOF];
  }

  /** Every record's bytes, checksum included, sum to zero modulo 256. */
  lemma {:induction false} RecordSums(chunk: seq<Byte>, address: nat)
    requires |chunk| <= 16
    ensures Sum(Record(chunk, address)) % 0x100 == 0
  {
    var body := [|chunk|, High(address), Low(address), 0] + chunk;
    SumSnoc(body, Checksum(body));
  }

  function Pair(high: Byte, low: Byte): nat {
    var h: int, l: int := high, low;
    h * 0x100 + l
  }

  // ---- the reader ---------------------------------------------------------

  function Store(memory: Memory, at: nat, payload: seq<Byte>): Memory
    decreases |payload|
  {
    if payload == [] then memory
    else
      var n := |payload| - 1;
      Store(memory, at, payload[..n])[at + n := payload[n]]
  }

  lemma {:induction false} StoreAt(memory: Memory, at: nat, payload: seq<Byte>, x: nat)
    ensures var m := Store(memory, at, payload);
            && (x in m <==> x in memory || at <= x < at + |payload|)
            && (x in m ==> m[x] == if at <= x < at + |payload| then payload[x - at] else memory[x])
    decreases |payload|
  {
    if payload != [] {
      StoreAt(memory, at, payload[..|payload| - 1], x);
    }
  }

  datatype State = State(memory: Memory, base: nat, done: bool)

  /** One line; `None` where the reader raises. */
  function Take(text: string, s: State): Option<State> {
    var line := Strip(text);
    if line == "" then Some(s)
    else if line[0] != ':' then None
    else
      match FromHex(line[1..])
      case None => None
      case Some(raw) =>
        if Sum(raw) % 0x100 != 0 || |raw| < 4 then None
        else
          var payload := raw[4..if 4 + raw[0] <= |raw| then 4 + raw[0] else |raw|];
          match raw[3]
          case 0x00 => Some(s.(memory := Store(s.memory, s.base + Pair(raw[1], raw[2]), payload)))
          case 0x01 => Some(s.(done := true))
          case 0x04 => if |payload| < 2 then None else Some(s.(base := Pair(payload[0], payload[1]) * 0x1_0000))
          case 0x02 => if |payload| < 2 then None else Some(s.(base := Pair(payload[0], payload[1]) * 0x10))
          case _ => Some(s)
  }

  function Read(lines: seq<string>, s: State): Option<Memory> {
    if lines == [] || s.done then Some(s.memory)
    else
      match Take(lines[0], s)
      case None => None
      case Some(next) => Read(lines[1..], next)
  }

  method ParseHex(lines: seq<string>) returns (r: Option<Memory>)
    ensures r == Read(lines, State(map[], 0, false))
  {
    hide Sum, FromHex, Strip;
    var memory: Memory, base: nat := map[], 0;
    for number := 0 to |lines|
      invariant Read(lines, State(map[], 0, false)) == Read(lines[number..], State(memory, base, false))
    {
      var line := Strip(lines[number]);
      ghost var s := State(memory, base, false);
      assert lines[number..][0] == lines[number] && lines[number..][1..] == lines[number + 1..];
      if line == "" {
        continue;
      }
      if line[0] != ':' {
        return None;
      }
      var raw := FromHex(line[1..]);
      if raw.None? || Sum(raw.value) % 0x100 != 0 || |raw.value| < 4 {
        return None;
      }
      var bytes := raw.value;
      var address, kind := Pair(bytes[1], bytes[2]), bytes[3];
      var payload := bytes[4..if 4 + bytes[0] <= |bytes| then 4 + bytes[0] else |bytes|];
      if kind == 0x00 {
        for index := 0 to |payload|
          invariant memory == Store(s.memory, base + address, payload[..index])
        {
          assert payload[..index + 1][..index] == payload[..index];
          memory := memory[base + address + index := payload[index]];
        }
        assert payload[..|payload|] == payload;
      } else if kind == 0x01 {
        return Some(memory);
      } else if kind == 0x04 || kind == 0x02 {
        if |payload| < 2 {
          return None;
        }
        base := Pair(payload[0], payload[1]) * if kind == 0x04 then 0x1_0000 else 0x10;
      }
    }
    return Some(memory);
  }

  // ---- round trip ---------------------------------------------------------

  /** What the reader has after the records of `blob` from `offset` on: the
      address field wraps at 64 KB, the bytes of one record do not. */
  function Scatter(blob: seq<Byte>, origin: nat, offset: nat, memory: Memory): Memory
    decreases |blob| - offset
  {
    if offset >= |blob| then memory
    else Scatter(blob, origin, offset + 16, Store(memory, (origin + offset) % 0x1_0000, Chunk(blob, offset)))
  }

  lemma {:induction false} TakeRecord(chunk: seq<Byte>, address: nat, s: State)
    requires |chunk| <= 16
    ensures Take(":" + Hex(Record(chunk, address)), s) ==
            Some(s.(memory := Store(s.memory, s.base + address % 0x1_0000, chunk)))
  {
    hide Hex, FromHex, Sum, Checksum, Store, Strip;
    var raw := Record(chunk, address);
    NoMargin(raw);
    var line := ":" + Hex(raw);
    assert line[1..] == Hex(raw);
    FromHexHex(raw);
    RecordSums(chunk, address);
    assert raw[4..4 + raw[0]] == chunk;
    assert Pair(raw[1], raw[2]) == address % 0x1_0000 by {
      assert address / 0x100 % 0x100 * 0x100 + address % 0x100 == address % 0x1_0000;
    }
  }

  lemma {:induction false} HexCons(b: Byte, rest: seq<Byte>)
    ensures Hex([b] + rest) == [Digit(b / 16), Digit(b % 16)] + Hex(rest)
    ensures Sum([b] + rest) == b as int + Sum(rest)
  {
    assert ([b] + rest)[1..] == rest;
  }

  lemma {:induction false} EofText()
    ensures EOF == ":" + Hex([0, 0, 0, 1, 0xFF])
    ensures Sum([0, 0, 0, 1, 0xFF]) == 0x100
  {
    hide Hex, Sum;
    EmptyHex();
    HexCons(0xFF, []);
    HexCons(1, [0xFF]);
    HexCons(0, [1, 0xFF]);
    HexCons(0, [0, 1, 0xFF]);
    HexCons(0, [0, 0, 1, 0xFF]);
    assert [0xFF] + [] == [0xFF] && [1] + [0xFF] == [1, 0xFF] && [0] + [1, 0xFF] == [0, 1, 0xFF]
        && [0] + [0, 1, 0xFF] == [0, 0, 1, 0xFF] && [0] + [0, 0, 1, 0xFF] == [0, 0, 0, 1, 0xFF];
    assert ":" + ("00" + ("00" + ("00" + ("01" + ("FF" + ""))))) == EOF;
  }

  lemma {:induction false} EmptyHex()
    ensures Hex([]) == "" && Sum([]) == 0
  {
  }

  lemma {:induction false} TakeEof(s: State)
    ensures Take(EOF, s) == Some(s.(done := true))
  {
    hide Hex, FromHex, Sum, Strip;
    EofText();
    NoMargin([0, 0, 0, 1, 0xFF]);
    FromHexHex([0, 0, 0, 1, 0xFF]);
    assert EOF[1..] == Hex([0, 0, 0, 1, 0xFF]);
  }

  lemma {:induction false} ReadRecords(blob: seq<Byte>, origin: nat, offset: nat, memory: Memory)
    ensures Read(Records(blob, origin, offset), State(memory, 0, false)) == Some(Scatter(blob, origin, offset, memory))
    decreases |blob| - offset
  {
    var lines := Records(blob, origin, offset);
    var s := State(memory, 0, false);
    if offset >= |blob| {
      TakeEof(s);
      assert lines[1..] == [];
    } else {
      TakeRecord(Chunk(blob, offset), origin + offset, s);
      assert lines[1..] == Records(blob, origin, offset + 16);
      ReadRecords(blob, origin, offset + 16, Store(memory, (origin + offset) % 0x1_0000, Chunk(blob, offset)));
    }
  }

  function Image(blob: seq<Byte>, origin: nat): Memory {
    Store(map[], origin, blob)
  }

  /** Where the last record starts. */
  function LastStart(blob: seq<Byte>, origin: nat): nat {
    if blob == [] then 0 else origin + (|blob| - 1) / 16 * 16
  }

  lemma {:induction false} StartsInRange(blob: seq<Byte>, origin: nat, offset: nat)
    requires offset < |blob| && offset % 16 == 0 && LastStart(blob, origin) < 0x1_0000
    ensures origin + offset < 0x1_0000
  {
    assert offset / 16 <= (|blob| - 1) / 16;
  }

  lemma {:induction false} ScatterInRange(blob: seq<Byte>, origin: nat, offset: nat, memory: Memory, x: nat)
    requires offset % 16 == 0
    requires LastStart(blob, origin) < 0x1_0000
    ensures var m := Scatter(blob, origin, offset, memory);
            && (x in m <==> x in memory || origin + offset <= x < origin + |blob|)
            && (x in m ==> m[x] == if origin + offset <= x < origin + |blob| then blob[x - origin] else memory[x])
    decreases |blob| - offset
  {
    hide Store, LastStart;
    if offset < |blob| {
      var at := origin + offset;
      StartsInRange(blob, origin, offset);
      StoreAt(memory, at, Chunk(blob, offset), x);
      ScatterInRange(blob, origin, offset + 16, Store(memory, at, Chunk(blob, offset)), x);
    }
  }

  /** An address past the 64 KB that begins a row is a row or more past any other
      row's beginning. */
  lemma {:induction false} WholeRowsApart(x: nat, origin: nat, offset: nat)
    requires x >= 0x1_0000 && (x - origin) % 16 == 0 && offset % 16 == 0
    ensures x >= (origin + offset) % 0x1_0000 + 16
  {
    var start := origin + offset;
    var at := start % 0x1_0000;
    var rows := (x - origin) / 16 - offset / 16 + start / 0x1_0000 * 4096;
    assert x - at == 16 * rows;
    assert x > at;
  }

  lemma {:induction false} ScatterMisses(blob: seq<Byte>, origin: nat, offset: nat, memory: Memory, x: nat)
    requires x >= 0x1_0000 && (x - origin) % 16 == 0 && offset % 16 == 0
    requires x !in memory
    ensures x !in Scatter(blob, origin, offset, memory)
    decreases |blob| - offset
  {
    if offset < |blob| {
      var at := (origin + offset) % 0x1_0000;
      WholeRowsApart(x, origin, offset);
      StoreAt(memory, at, Chunk(blob, offset), x);
      ScatterMisses(blob, origin, offset + 16, Store(memory, at, Chunk(blob, offset)), x);
    }
  }

  /** Reading what was written gives exactly the blob at its origin, if and only
      if the last record still starts inside the 64 KB its address field can name. */
  lemma {:induction false} RoundTrip(blob: seq<Byte>, origin: nat)
    ensures Read(Records(blob, origin, 0), State(map[], 0, false)) == Some(Image(blob, origin))
            <==> LastStart(blob, origin) < 0x1_0000
  {
    hide Scatter, Read, Records, Store, Take;
    ReadRecords(blob, origin, 0, map[]);
    var got, want := Scatter(blob, origin, 0, map[]), Image(blob, origin);
    if LastStart(blob, origin) < 0x1_0000 {
      forall x: nat ensures (x in got <==> x in want) && (x in got ==> got[x] == want[x]) {
        ScatterInRange(blob, origin, 0, map[], x);
        StoreAt(map[], origin, blob, x);
      }
      assert got == want;
    } else {
      var x := LastStart(blob, origin);
      StoreAt(map[], origin, blob, x);
      ScatterMisses(blob, origin, 0, map[], x);
      assert x in want && x !in got;
    }
  }
}
