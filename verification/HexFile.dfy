/** What an Intel HEX file says, told record by record from its characters, and
    the reader held against it. */
module HexFile {
  import opened Common
  import opened IntelHex

  // ---- the characters of a line -------------------------------------------

  predicate Blanks(t: string) {
    forall c | c in t :: Space(c)
  }

  predicate Types(c: char, n: nat)
    requires n < 16
  {
    c == "0123456789ABCDEF"[n] || c == "0123456789abcdef"[n]
  }

  /** The two digits of a byte, and the blanks before them. */
  datatype Typed = Typed(blanks: string, high: char, low: char)

  predicate Digits(p: Typed, b: Byte) {
    Blanks(p.blanks) && Types(p.high, b / 16) && Types(p.low, b % 16)
  }

  predicate AllDigits(ps: seq<Typed>, raw: seq<Byte>) {
    |ps| == |raw| && forall i | 0 <= i < |ps| :: Digits(ps[i], raw[i])
  }

  function Text(ps: seq<Typed>, tail: string): string {
    if ps == [] then tail else ps[0].blanks + ([ps[0].high, ps[0].low] + Text(ps[1..], tail))
  }

  /** `text` is the bytes in hexadecimal, either case, blanks between them or not. */
  ghost predicate Spells(text: string, raw: seq<Byte>) {
    exists ps, tail :: text == Text(ps, tail) && AllDigits(ps, raw) && Blanks(tail)
  }

  /** The line holds a colon and those bytes, and no more than blanks besides. */
  ghost predicate Carries(line: string, raw: seq<Byte>) {
    exists margin, text :: line == margin + (":" + text) && Blanks(margin) && Spells(text, raw)
  }

  lemma {:induction false} ValueIs(c: char, n: nat)
    requires n < 16
    ensures Value(c) == Some(n) <==> Types(c, n)
  {
  }

  lemma {:induction false} BlankPrefix(blanks: string, text: string)
    requires Blanks(blanks)
    ensures FromHex(blanks + text) == FromHex(text)
    decreases blanks
  {
    if blanks == "" {
      assert blanks + text == text;
    } else {
      assert blanks[0] in blanks;
      assert forall c | c in blanks[1..] :: c in blanks;
      assert (blanks + text)[1..] == blanks[1..] + text;
      BlankPrefix(blanks[1..], text);
    }
  }

  lemma {:induction false} BlankTail(text: string, tail: string)
    requires Blanks(tail)
    ensures FromHex(text + tail) == FromHex(text)
    decreases text
  {
    hide Value, Space;
    if text == "" {
      BlankPrefix(tail, "");
      assert tail + "" == tail && text + tail == tail;
    } else if Space(text[0]) {
      assert (text + tail)[1..] == text[1..] + tail;
      BlankTail(text[1..], tail);
    } else if |text| == 1 {
      if tail != "" {
        assert tail[0] in tail && (text + tail)[1] == tail[0];
        if Value(tail[0]).Some? {
          NotBlank(tail[0]);
        }
      } else {
        assert text + tail == text;
      }
    } else {
      assert (text + tail)[2..] == text[2..] + tail;
      BlankTail(text[2..], tail);
    }
  }

  lemma {:induction false} SpelledReads(ps: seq<Typed>, tail: string, raw: seq<Byte>)
    requires AllDigits(ps, raw) && Blanks(tail)
    ensures FromHex(Text(ps, tail)) == Some(raw)
    decreases ps
  {
    hide Value, Space, Types, Blanks, FromHex;
    if ps == [] {
      BlankPrefix(tail, "");
      FromNothing();
      assert tail + "" == tail && raw == [];
    } else {
      var p, b, rest := ps[0], raw[0], Text(ps[1..], tail);
      assert Digits(p, b);
      BlankPrefix(p.blanks, [p.high, p.low] + rest);
      ValueIs(p.high, b / 16);
      ValueIs(p.low, b % 16);
      SpelledReads(ps[1..], tail, raw[1..]);
      FromHexPair(p.high, p.low, rest);
      assert b / 16 * 16 + b % 16 == b;
      assert [b] + raw[1..] == raw;
    }
  }

  lemma {:induction false} ReadSpells(text: string) returns (ps: seq<Typed>, tail: string)
    requires FromHex(text).Some?
    ensures text == Text(ps, tail) && AllDigits(ps, FromHex(text).value) && Blanks(tail)
    decreases text
  {
    hide Value, Types;
    if text == "" {
      ps, tail := [], "";
    } else if Space(text[0]) {
      ps, tail := ReadSpells(text[1..]);
      ps, tail := BlankFirst(text, ps, tail, FromHex(text).value);
    } else {
      var raw := FromHex(text).value;
      ps, tail := ReadSpells(text[2..]);
      ValueIs(text[0], Value(text[0]).value);
      ValueIs(text[1], Value(text[1]).value);
      assert raw[0] / 16 == Value(text[0]).value && raw[0] % 16 == Value(text[1]).value;
      var first := Typed("", text[0], text[1]);
      assert text == "" + ([text[0], text[1]] + text[2..]);
      ps := [first] + ps;
    }
  }

  lemma {:induction false} BlankFirst(text: string, ps: seq<Typed>, tail: string, raw: seq<Byte>)
      returns (ps1: seq<Typed>, tail1: string)
    requires text != "" && Space(text[0])
    requires text[1..] == Text(ps, tail) && AllDigits(ps, raw) && Blanks(tail)
    ensures text == Text(ps1, tail1) && AllDigits(ps1, raw) && Blanks(tail1)
  {
    hide Types;
    ps1, tail1 := ps, tail;
    assert text == [text[0]] + text[1..];
    if ps == [] {
      tail1 := [text[0]] + tail;
    } else {
      MoreBlanks(text[0], ps, tail);
      ps1 := [Typed([text[0]] + ps[0].blanks, ps[0].high, ps[0].low)] + ps[1..];
    }
  }

  lemma {:induction false} MoreBlanks(c: char, ps: seq<Typed>, tail: string)
    requires ps != []
    ensures Text([Typed([c] + ps[0].blanks, ps[0].high, ps[0].low)] + ps[1..], tail) == [c] + Text(ps, tail)
  {
    var more := [Typed([c] + ps[0].blanks, ps[0].high, ps[0].low)] + ps[1..];
    assert more[1..] == ps[1..];
  }

  /** `bytes.fromhex` accepts exactly the texts that spell bytes. */
  lemma {:induction false} FromHexIs(text: string, raw: seq<Byte>)
    ensures FromHex(text) == Some(raw) <==> Spells(text, raw)
  {
    hide FromHex, Text, AllDigits, Blanks;
    if FromHex(text) == Some(raw) {
      var ps, tail := ReadSpells(text);
    }
    if Spells(text, raw) {
      var ps, tail :| text == Text(ps, tail) && AllDigits(ps, raw) && Blanks(tail);
      SpelledReads(ps, tail, raw);
    }
  }

  // ---- the margins --------------------------------------------------------

  lemma {:induction false} Margins(line: string) returns (left: string, right: string)
    ensures line == left + Strip(line) + right && Blanks(left) && Blanks(right)
    ensures Strip(line) != "" ==> !Space(Strip(line)[0])
  {
    hide Space;
    var rest := StripStart(line);
    left := LeftMargin(line);
    right := RightMargin(rest);
    assert line == left + (Strip(line) + right);
    if Strip(line) != "" {
      assert Strip(line)[0] == rest[0];
      FirstNotBlank(line);
    }
  }

  lemma {:induction false} FirstNotBlank(line: string)
    ensures StripStart(line) != "" ==> !Space(StripStart(line)[0])
  {
    if line != "" && Space(line[0]) {
      FirstNotBlank(line[1..]);
    }
  }

  lemma {:induction false} LeftMargin(line: string) returns (left: string)
    ensures line == left + StripStart(line) && Blanks(left)
    decreases line
  {
    if line != "" && Space(line[0]) {
      left := LeftMargin(line[1..]);
      left := [line[0]] + left;
      assert line == [line[0]] + line[1..];
    } else {
      left := "";
    }
  }

  lemma {:induction false} RightMargin(line: string) returns (right: string)
    ensures line == StripEnd(line) + right && Blanks(right)
    decreases |line|
  {
    if line != "" && Space(line[|line| - 1]) {
      right := RightMargin(line[..|line| - 1]);
      assert line == StripEnd(line) + (right + [line[|line| - 1]]);
      right := right + [line[|line| - 1]];
    } else {
      right := "";
    }
  }

  lemma {:induction false} BlankIffNothing(line: string)
    ensures Blanks(line) <==> Strip(line) == ""
  {
    hide Space, Strip;
    var left, right := Margins(line);
    if Strip(line) == "" {
      assert line == left + right;
    } else {
      assert line[|left|] == Strip(line)[0];
      assert line[|left|] in line;
    }
  }

  /** What the line carries is read from it, margins or not. */
  lemma {:induction false} CarriesIff(line: string, raw: seq<Byte>)
    ensures Carries(line, raw)
       <==> Strip(line) != "" && Strip(line)[0] == ':' && FromHex(Strip(line)[1..]) == Some(raw)
  {
    hide Space, Strip, FromHex, Spells;
    var left, right := Margins(line);
    var s := Strip(line);
    if s != "" {
      BlankTail(s[1..], right);
      FromHexIs(s[1..] + right, raw);
      assert line == left + ([s[0]] + (s[1..] + right));
    }
    if Carries(line, raw) {
      var margin, text :| line == margin + (":" + text) && Blanks(margin) && Spells(text, raw);
      ColonIsInk(line, |margin|);
      SameMargin(line, left, s + right, margin, ":" + text);
      assert (s + right)[1..] == s[1..] + right && (":" + text)[1..] == text;
    }
  }

  lemma {:induction false} ColonIsInk(line: string, k: nat)
    requires k < |line| && line[k] == ':'
    ensures Strip(line) != "" && !Space(':')
  {
    hide Strip;
    BlankIffNothing(line);
    assert line[k] in line;
  }

  lemma {:induction false} BlankAt(line: string, m: string, s: string, k: nat)
    requires line == m + s && Blanks(m) && k < |m|
    ensures Space(line[k])
  {
    hide Space;
    assert m[k] in m;
  }

  /** Where the blanks of the margin end is plain from the line. */
  lemma {:induction false} SameMargin(line: string, m: string, s: string, n: string, t: string)
    requires line == m + s == n + t && Blanks(m) && Blanks(n)
    requires s != "" && t != "" && !Space(s[0]) && !Space(t[0])
    ensures m == n && s == t
  {
    hide Space, Blanks;
    assert line[|m|] == s[0] && line[|n|] == t[0];
    if |m| > |n| {
      BlankAt(line, m, s, |n|);
    }
    if |m| < |n| {
      BlankAt(line, n, t, |m|);
    }
    assert m == line[..|m|] && n == line[..|n|];
    assert s == line[|m|..] && t == line[|n|..];
  }

  // ---- records ------------------------------------------------------------

  /** How many data bytes the record really has. */
  function Count(raw: seq<Byte>): nat
    requires |raw| >= 4
  {
    if 4 + raw[0] <= |raw| then raw[0] else |raw| - 4
  }

  /** A record the reader takes. */
  predicate Good(raw: seq<Byte>) {
    |raw| >= 4 && Sum(raw) % 0x100 == 0 && (raw[3] == 2 || raw[3] == 4 ==> Count(raw) >= 2)
  }

  type GoodRecord = raw: seq<Byte> | Good(raw) witness [0, 0, 0, 0]

  /** A line's record; a blank line has none. */
  type Rec = Option<GoodRecord>

  ghost predicate IsLine(line: string, r: Rec) {
    match r
    case None => Blanks(line)
    case Some(raw) => Carries(line, raw)
  }

  predicate IsEnd(r: Rec) {
    r.Some? && r.value[3] == 1
  }

  /** The base a record leaves in force: a linear one counts 64 KB, a segment 16 bytes. */
  function BaseAfter(raw: seq<Byte>, base: nat): nat
    requires Good(raw)
  {
    if raw[3] != 2 && raw[3] != 4 then base
    else
      var high: int, low: int := raw[4], raw[5];
      (0x100 * high + low) * if raw[3] == 4 then 0x1_0000 else 0x10
  }

  /** The base in force at record `i`: that of the last base record before it. */
  function BaseAt(recs: seq<Rec>, i: nat): nat
    requires i <= |recs|
  {
    if i == 0 then 0
    else if recs[i - 1].None? then BaseAt(recs, i - 1)
    else BaseAfter(recs[i - 1].value, BaseAt(recs, i - 1))
  }

  /** Where a record's data goes. */
  function Start(recs: seq<Rec>, i: nat): nat
    requires i < |recs| && recs[i].Some?
  {
    var high: int, low: int := recs[i].value[1], recs[i].value[2];
    BaseAt(recs, i) + 0x100 * high + low
  }

  predicate Covers(recs: seq<Rec>, i: nat, x: int)
    requires i < |recs|
  {
    recs[i].Some? && recs[i].value[3] == 0
    && Start(recs, i) <= x < Start(recs, i) + Count(recs[i].value)
  }

  /** The last of the first `n` records with a byte for `x` gives it `b`. */
  predicate Gives(recs: seq<Rec>, n: nat, x: int, b: Byte)
    requires n <= |recs|
  {
    exists i | 0 <= i < n ::
      Covers(recs, i, x) && recs[i].value[4 + (x - Start(recs, i))] == b
      && forall k | i < k < n :: !Covers(recs, k, x)
  }

  /** The lines hold these records, up to the first end record or the last line. */
  ghost predicate Whole(lines: seq<string>, recs: seq<Rec>) {
    && |recs| <= |lines|
    && (forall i | 0 <= i < |recs| :: IsLine(lines[i], recs[i]) && !IsEnd(recs[i]))
    && (|recs| < |lines| ==> exists r :: IsEnd(r) && IsLine(lines[|recs|], r))
  }

  // ---- the reader ---------------------------------------------------------

  lemma {:induction false} TakesRecord(line: string, raw: seq<Byte>, s: State)
    requires Carries(line, raw)
    ensures Take(line, s).Some? <==> Good(raw)
    ensures Good(raw) ==>
              var at := s.base + 0x100 * (raw[1] as int) + raw[2];
              var next := Take(line, s).value;
              && next.done == (s.done || raw[3] == 1)
              && next.base == BaseAfter(raw, s.base)
              && next.memory == if raw[3] == 0 then Store(s.memory, at, raw[4..4 + Count(raw)]) else s.memory
  {
    hide Strip, FromHex, Sum, Store;
    CarriesIff(line, raw);
  }

  lemma {:induction false} TakesBlank(line: string, s: State)
    requires Blanks(line)
    ensures Take(line, s) == Some(s)
  {
    hide Strip;
    BlankIffNothing(line);
  }

  /** A line is taken only if it is blank or carries a good record. */
  lemma {:induction false} TakenHolds(line: string, s: State) returns (r: Rec)
    requires Take(line, s).Some?
    ensures IsLine(line, r)
  {
    hide Strip, FromHex, Sum, Store, Blanks, Carries;
    BlankIffNothing(line);
    if Blanks(line) {
      r := None;
    } else {
      var raw := FromHex(Strip(line)[1..]).value;
      CarriesIff(line, raw);
      TakesRecord(line, raw, s);
      var record: GoodRecord := raw;
      r := Some(record);
    }
  }

  /** The memory that the first `n` records leave. */
  ghost predicate Holds(m: Memory, recs: seq<Rec>, n: nat)
    requires n <= |recs|
  {
    forall x: nat, b: Byte :: (x in m && m[x] == b) <==> Gives(recs, n, x, b)
  }

  lemma {:induction false} GivesNext(recs: seq<Rec>, n: nat, x: int, b: Byte)
    requires n < |recs|
    ensures Gives(recs, n + 1, x, b) <==>
            if Covers(recs, n, x) then recs[n].value[4 + (x - Start(recs, n))] == b else Gives(recs, n, x, b)
  {
    hide Covers, Start;
  }

  lemma {:induction false} HoldsNext(m: Memory, m1: Memory, recs: seq<Rec>, n: nat, line: string, s: State)
    requires n < |recs| && Holds(m, recs, n) && IsLine(line, recs[n])
    requires s.memory == m && s.base == BaseAt(recs, n)
    requires Take(line, s).Some? && Take(line, s).value.memory == m1
    ensures Holds(m1, recs, n + 1)
  {
    hide Take, Gives, Store, Carries, Blanks, Sum;
    var n1 := n + 1;
    match recs[n]
    case None =>
      TakesBlank(line, s);
      forall x: nat, b: Byte ensures (x in m1 && m1[x] == b) <==> Gives(recs, n1, x, b) {
        GivesNext(recs, n, x, b);
      }
    case Some(raw) =>
      TakesRecord(line, raw, s);
      forall x: nat, b: Byte ensures (x in m1 && m1[x] == b) <==> Gives(recs, n1, x, b) {
        GivesNext(recs, n, x, b);
        StoreAt(m, Start(recs, n), raw[4..4 + Count(raw)], x);
      }
  }

  /** After the first `n` lines. */
  lemma {:induction false} ReadsTo(lines: seq<string>, recs: seq<Rec>, n: nat) returns (m: Memory)
    requires n <= |recs| <= |lines|
    requires forall i | 0 <= i < |recs| :: IsLine(lines[i], recs[i]) && !IsEnd(recs[i])
    ensures Holds(m, recs, n)
    ensures Read(lines, State(map[], 0, false)) == Read(lines[n..], State(m, BaseAt(recs, n), false))
  {
    hide Take, Holds, IsLine;
    if n == 0 {
      m := map[];
      HoldsNothing(recs);
      assert lines[0..] == lines;
    } else {
      m := ReadsTo(lines, recs, n - 1);
      var s := State(m, BaseAt(recs, n - 1), false);
      assert lines[n - 1..][0] == lines[n - 1] && lines[n - 1..][1..] == lines[n..];
      Taken(lines[n - 1], recs[n - 1], s);
      var next := Take(lines[n - 1], s).value;
      HoldsNext(m, next.memory, recs, n - 1, lines[n - 1], s);
      m := next.memory;
    }
  }

  lemma {:induction false} Taken(line: string, r: Rec, s: State)
    requires IsLine(line, r)
    ensures Take(line, s).Some?
    ensures var next := Take(line, s).value;
            && next.done == (s.done || IsEnd(r))
            && next.base == (if r.None? then s.base else BaseAfter(r.value, s.base))
            && (IsEnd(r) ==> next.memory == s.memory)
  {
    hide Take, Carries, Blanks;
    match r
    case None => TakesBlank(line, s);
    case Some(raw) => TakesRecord(line, raw, s);
  }

  lemma {:induction false} HoldsNothing(recs: seq<Rec>)
    ensures Holds(map[], recs, 0)
  {
  }

  /** The records of a file the reader gets through. */
  lemma {:induction false} Records(lines: seq<string>, s: State) returns (recs: seq<Rec>)
    requires !s.done && Read(lines, s).Some?
    ensures Whole(lines, recs)
    decreases lines
  {
    hide Take, IsLine, IsEnd;
    if lines == [] {
      recs := [];
    } else {
      var r := TakenHolds(lines[0], s);
      var next := Take(lines[0], s).value;
      Taken(lines[0], r, s);
      if IsEnd(r) {
        recs := [];
      } else {
        var rest := Records(lines[1..], next);
        recs := [r] + rest;
        assert forall i | 0 <= i < |rest| :: recs[i + 1] == rest[i] && lines[1..][i] == lines[i + 1];
      }
    }
  }

  /** A file is read exactly if every line up to its end record is blank or a good
      record, and then each address holds the last byte a record gives it. */
  lemma {:induction false} ReadIs(lines: seq<string>)
    ensures Read(lines, State(map[], 0, false)).Some? <==> exists recs :: Whole(lines, recs)
    ensures forall recs | Whole(lines, recs) ::
              Read(lines, State(map[], 0, false)).Some?
              && Holds(Read(lines, State(map[], 0, false)).value, recs, |recs|)
  {
    hide Read, Whole, Holds;
    if Read(lines, State(map[], 0, false)).Some? {
      var recs := Records(lines, State(map[], 0, false));
    }
    forall recs | Whole(lines, recs)
      ensures Read(lines, State(map[], 0, false)).Some?
      ensures Holds(Read(lines, State(map[], 0, false)).value, recs, |recs|) {
      WholeReads(lines, recs);
    }
  }

  lemma {:induction false} WholeReads(lines: seq<string>, recs: seq<Rec>)
    requires Whole(lines, recs)
    ensures Read(lines, State(map[], 0, false)).Some?
    ensures Holds(Read(lines, State(map[], 0, false)).value, recs, |recs|)
  {
    hide Take, Holds, IsLine, BaseAt;
    var n := |recs|;
    var m := ReadsTo(lines, recs, n);
    var s := State(m, BaseAt(recs, n), false);
    if n < |lines| {
      var r :| IsEnd(r) && IsLine(lines[n], r);
      assert lines[n..][0] == lines[n];
      Taken(lines[n], r, s);
    }
  }
}
