/** When an insertion falls inside a statement that began on an earlier line. */
module SketchSplits {
  import opened Common
  import opened SketchMask
  import opened Sketch
  import opened SketchLines
  import opened SketchPlaces
  import opened SketchCases

  /** A file-scope statement has begun before `p` and is not over there. */
  ghost predicate Splits(g: Grammar, code: string, p: nat) {
    exists st | st in StmtsOf(g, code) :: st.start < p < st.end
  }

  // ---- lines --------------------------------------------------------------

  lemma {:induction false} SameLine(code: string, a: nat, b: nat)
    requires a <= b <= |code| && forall k | a <= k < b :: code[k] != '\n'
    ensures LineStart(code, b) == LineStart(code, a)
    decreases b
  {
    if a < b {
      SameLine(code, a, b - 1);
    }
  }

  lemma {:induction false} LineStartAtMost(code: string, p: nat, b: nat)
    requires p <= b <= |code| && IsLineStart(code, p)
    ensures p <= LineStart(code, b)
    decreases b
  {
    if p < b && code[b - 1] != '\n' {
      LineStartAtMost(code, p, b - 1);
    }
  }

  lemma {:induction false} NextLineSkips(code: string, pos: nat)
    requires pos < |code|
    ensures var p := NextLine(code, pos);
            pos < p && (forall k | pos <= k < p - 1 :: code[k] != '\n') && (p < |code| ==> code[p - 1] == '\n')
    decreases |code| - pos
  {
    if code[pos] != '\n' && pos + 1 < |code| {
      NextLineSkips(code, pos + 1);
    }
  }

  // ---- statements ---------------------------------------------------------

  /** What the scanner says of the statements, on the sketch's own text. */
  lemma {:induction false} StmtsAre(g: Grammar, code: string)
    ensures var stmts := StmtsOf(g, code);
            (forall k | 0 <= k < |stmts| ::
               stmts[k].start < stmts[k].end <= |code| && code[stmts[k].start] != '\n' && code[stmts[k].end - 1] != '\n')
            && (forall j, k | 0 <= j < k < |stmts| :: stmts[j].end <= stmts[k].start)
  {
    hide Masked, Statements;
    var stmts := StmtsOf(g, code);
    StatementsInOrder(g, Masked(code));
    forall k | 0 <= k < |stmts|
      ensures code[stmts[k].start] != '\n' && code[stmts[k].end - 1] != '\n'
    {
      MaskKeeps(code, stmts[k].start);
      MaskKeeps(code, stmts[k].end - 1);
    }
  }

  /** The first code of the sketch, whose line is the base line. */
  function FirstOfAll(g: Grammar, code: string): (x: nat)
    requires DefsOf(g, code) != []
    ensures x <= |code| && BaseOf(g, code) == LineStart(code, x)
  {
    var first := DefsOf(g, code)[0].start;
    Min(FirstCode(StmtsOf(g, code), first), first)
  }

  /** Statement `st` comes from an earlier line than the first code, and ends on
      its line before it, or has it in its midst. */
  ghost predicate LeadsIn(g: Grammar, code: string, st: Stmt)
    requires DefsOf(g, code) != []
  {
    var x := FirstOfAll(g, code);
    && st.start < st.end <= |code|
    && LineStart(code, st.start) < LineStart(code, x)
    && ((st.end <= x && LineStart(code, st.end - 1) == LineStart(code, x)) || st.start < x < st.end)
  }

  /** Statement `j` begins on the line on which statement `i` ends, and goes on past it. */
  ghost predicate RunsOn(code: string, stmts: seq<Stmt>, i: nat, j: nat) {
    && i < j < |stmts| && 0 < stmts[i].end <= |code| && stmts[j].start <= |code|
    && LineStart(code, stmts[j].start) == LineStart(code, stmts[i].end - 1)
    && NextLine(code, stmts[i].end - 1) < stmts[j].end
  }

  lemma {:induction false} LeadsInSplits(g: Grammar, code: string, st: Stmt)
    requires DefsOf(g, code) != [] && st.start < st.end <= |code| && code[st.end - 1] != '\n'
    ensures LeadsIn(g, code, st) <==> st.start < BaseOf(g, code) < st.end
  {
    hide FirstCode, DefsOf, StmtsOf, BaseOf;
    var x := FirstOfAll(g, code);
    var p := LineStart(code, x);
    if st.start < p {
      if p < st.end <= x {
        SameLine(code, p, st.end - 1);
        SameLine(code, p, x);
      }
    } else {
      LineStartAtMost(code, p, st.start);
    }
  }

  lemma {:induction false} RunsOnSplits(code: string, stmts: seq<Stmt>, i: nat, j: nat)
    requires i < j < |stmts| && 0 < stmts[i].end <= stmts[j].start < stmts[j].end <= |code|
    requires code[stmts[i].end - 1] != '\n' && code[stmts[j].start] != '\n'
    ensures RunsOn(code, stmts, i, j) <==> stmts[j].start < NextLine(code, stmts[i].end - 1) < stmts[j].end
  {
    var a, b := stmts[i].end - 1, stmts[j].start;
    var p := NextLine(code, a);
    NextLineSkips(code, a);
    if b < p {
      SameLine(code, a, b);
    } else {
      LineStartAtMost(code, p, b);
    }
  }

  lemma {:induction false} BaseSplits(g: Grammar, code: string)
    requires DefsOf(g, code) != []
    ensures Splits(g, code, BaseOf(g, code)) <==>
            exists st | st in StmtsOf(g, code) :: LeadsIn(g, code, st)
  {
    hide DefsOf, StmtsOf, BaseOf, LeadsIn;
    StmtsAre(g, code);
    forall st | st in StmtsOf(g, code)
      ensures LeadsIn(g, code, st) <==> st.start < BaseOf(g, code) < st.end
    {
      LeadsInSplits(g, code, st);
    }
  }

  lemma {:induction false} RunsOnIs(g: Grammar, code: string, i: nat, j: nat)
    requires i < |StmtsOf(g, code)|
    ensures var stmts := StmtsOf(g, code);
            0 < stmts[i].end <= |code|
            && (RunsOn(code, stmts, i, j) <==>
                i < j < |stmts| && stmts[j].start < NextLine(code, stmts[i].end - 1) < stmts[j].end)
  {
    hide StmtsOf, NextLine, LineStart;
    StmtsAre(g, code);
    if i < j < |StmtsOf(g, code)| {
      RunsOnSplits(code, StmtsOf(g, code), i, j);
    }
  }

  lemma {:induction false} EndsInOrder(g: Grammar, code: string, j: nat, i: nat)
    requires i < |StmtsOf(g, code)|
    ensures j <= i ==> StmtsOf(g, code)[j].end <= StmtsOf(g, code)[i].end
  {
    hide StmtsOf;
    StmtsAre(g, code);
  }

  lemma {:induction false} SplitComesLater(g: Grammar, code: string, i: nat) returns (j: nat)
    requires i < |StmtsOf(g, code)| && 0 < StmtsOf(g, code)[i].end <= |code|
    requires Splits(g, code, NextLine(code, StmtsOf(g, code)[i].end - 1))
    ensures RunsOn(code, StmtsOf(g, code), i, j)
  {
    hide StmtsOf, NextLine, RunsOn;
    StmtsAre(g, code);
    var stmts := StmtsOf(g, code);
    var p := NextLine(code, stmts[i].end - 1);
    NextLineSkips(code, stmts[i].end - 1);
    var st :| st in stmts && st.start < p < st.end;
    j :| 0 <= j < |stmts| && stmts[j] == st;
    EndsInOrder(g, code, j, i);
    RunsOnIs(g, code, i, j);
  }

  lemma {:induction false} AfterSplits(g: Grammar, code: string, i: nat)
    requires i < |StmtsOf(g, code)|
    ensures var stmts := StmtsOf(g, code);
            0 < stmts[i].end <= |code|
            && (Splits(g, code, NextLine(code, stmts[i].end - 1)) <==> exists j: nat :: RunsOn(code, stmts, i, j))
  {
    hide StmtsOf, NextLine, RunsOn;
    StmtsAre(g, code);
    var stmts := StmtsOf(g, code);
    if Splits(g, code, NextLine(code, stmts[i].end - 1)) {
      var j := SplitComesLater(g, code, i);
    }
    if j: nat :| RunsOn(code, stmts, i, j) {
      RunsOnIs(g, code, i, j);
      assert stmts[j] in stmts;
    }
  }

  /** A wanted line is the base line, or the line after a type that is named. */
  lemma {:induction false} WantedIs(g: Grammar, code: string, fn: Def, p: nat)
    requires fn in DefsOf(g, code) && WantedAt(g, code, fn, p)
    ensures p == BaseOf(g, code) || exists i: nat :: AfterType(g, code, fn, i, p)
  {
    hide DefsOf, BaseOf, AfterType, Fits, Earliest;
    EarliestIs(g, code, fn, p);
  }

  /** A statement that begins on the last line of a type `fn` names runs on past it. */
  ghost predicate RunsPast(g: Grammar, code: string, fn: Def, p: nat) {
    exists i: nat, j: nat | AfterType(g, code, fn, i, p) :: RunsOn(code, StmtsOf(g, code), i, j)
  }

  /** A line at which a prototype is wanted lies inside a statement exactly when
      it is the base line and a statement leads into it from an earlier line, or
      it comes after a type and a statement begins on the type's last line and
      runs on. */
  lemma {:induction false} WantedSplits(g: Grammar, code: string, fn: Def, p: nat)
    requires fn in DefsOf(g, code) && WantedAt(g, code, fn, p)
    ensures Splits(g, code, p) <==>
            (p == BaseOf(g, code) && exists st | st in StmtsOf(g, code) :: LeadsIn(g, code, st))
            || RunsPast(g, code, fn, p)
  {
    hide DefsOf, StmtsOf, BaseOf, NextLine, WantedAt, LeadsIn, RunsOn, Splits;
    WantedIs(g, code, fn, p);
    BaseSplits(g, code);
    forall i: nat | AfterType(g, code, fn, i, p)
      ensures Splits(g, code, p) <==> exists j: nat :: RunsOn(code, StmtsOf(g, code), i, j)
    {
      AfterSplits(g, code, i);
    }
  }

  /** No statement begins on a line on which another ends, and the first code is
      the beginning of a statement. */
  ghost predicate OneALine(g: Grammar, code: string) {
    var stmts := StmtsOf(g, code);
    && (forall i, j | 0 <= i < j < |stmts| :: LinesApart(code, stmts[i], stmts[j]))
    && (DefsOf(g, code) != [] ==> exists st | st in stmts :: st.start == FirstOfAll(g, code))
  }

  predicate LinesApart(code: string, a: Stmt, b: Stmt) {
    0 < a.end <= |code| && b.start <= |code| ==> LineStart(code, a.end - 1) != LineStart(code, b.start)
  }

  /** Then nothing is split. */
  lemma {:induction false} NothingSplit(g: Grammar, code: string, fn: Def, p: nat)
    requires fn in DefsOf(g, code) && WantedAt(g, code, fn, p)
    requires OneALine(g, code)
    ensures !Splits(g, code, p)
  {
    hide DefsOf, StmtsOf, BaseOf, WantedAt, Splits, LeadsIn, RunsOn, OneALine, AfterType;
    WantedSplits(g, code, fn, p);
    forall st | st in StmtsOf(g, code) ensures !LeadsIn(g, code, st) {
      NoneLeadsIn(g, code, st);
    }
    forall i: nat, j: nat ensures !RunsOn(code, StmtsOf(g, code), i, j) {
      NoneRunsOn(g, code, i, j);
    }
  }

  lemma {:induction false} NoneLeadsIn(g: Grammar, code: string, st: Stmt)
    requires OneALine(g, code) && DefsOf(g, code) != [] && st in StmtsOf(g, code)
    ensures !LeadsIn(g, code, st)
  {
    hide DefsOf, StmtsOf, BaseOf, LineStart;
    StmtsAre(g, code);
    var stmts := StmtsOf(g, code);
    var first :| first in stmts && first.start == FirstOfAll(g, code);
    var k :| 0 <= k < |stmts| && stmts[k] == first;
    var i :| 0 <= i < |stmts| && stmts[i] == st;
    if i < k {
      assert LinesApart(code, stmts[i], stmts[k]);
    } else if k < i {
      assert stmts[k].end <= stmts[i].start;
    }
  }

  lemma {:induction false} NoneRunsOn(g: Grammar, code: string, i: nat, j: nat)
    requires OneALine(g, code)
    ensures !RunsOn(code, StmtsOf(g, code), i, j)
  {
    hide DefsOf, StmtsOf, LineStart, NextLine;
    var stmts := StmtsOf(g, code);
    if i < j < |stmts| {
      assert LinesApart(code, stmts[i], stmts[j]);
    }
  }

  // ---- a sketch whose insertion cuts a declaration in two -----------------

  /** A declaration over two lines, and a function on the second. */
  const CUT_CODE := "int x =\n 1; int f(){}"

  predicate Quiet(c: char) {
    c !in "(){};"
  }

  ghost predicate CutShort(c: string) {
    && |c| == 21 && c[12..] == "int f(){}"
    && (forall k | 0 <= k < 21 :: PlainChar(c[k]))
    && (forall k | 0 <= k < 10 :: Quiet(c[k]))
    && !Space(c[0]) && c[7] == '\n' && c[10] == ';' && c[11] == ' '
    && (forall k | 0 <= k < 12 && k != 7 :: c[k] != '\n')
  }

  lemma {:induction false} CutExample()
    ensures CutShort(CUT_CODE)
  {
    var c, first, second, third := CUT_CODE, "int x =\n", " 1; ", "int f(){}";
    assert c == first + second + third;
    assert c[12..] == third;
    forall k | 0 <= k < 8 ensures PlainChar(c[k]) && Quiet(c[k]) && (k < 7 ==> c[k] != '\n') {
      assert c[k] == first[k];
    }
    forall k | 8 <= k < 12 ensures PlainChar(c[k]) && (k < 10 ==> Quiet(c[k])) && c[k] != '\n' {
      assert c[k] == second[k - 8];
    }
    forall k | 12 <= k < 21 ensures PlainChar(c[k]) {
      assert c[k] == third[k - 12];
    }
  }

  /** What follows the declaration. */
  lemma {:induction false} CutFunction(c: string)
    requires CutShort(c)
    ensures c[12] == 'i' && forall k | 11 <= k < 17 :: Quiet(c[k])
    ensures c[17] == '(' && c[18] == ')' && c[19] == '{' && c[20] == '}'
    ensures Lead(c[11..19]) == 1 && Strip(c[11..19]) == "int f()"
  {
    var f := c[12..];
    assert c[12] == f[0] && c[13] == f[1] && c[14] == f[2] && c[15] == f[3] && c[16] == f[4];
    assert c[17] == f[5] && c[18] == f[6] && c[19] == f[7] && c[20] == f[8];
    var text := c[11..19];
    assert text[0] == ' ' && text[1] == 'i';
    LeadIs(text, 1);
    assert text[1..] == f[..7] == "int f()";
    assert StripEnd("int f()") == "int f()";
  }

  lemma {:induction false} CutMasked(c: string)
    requires CutShort(c)
    ensures Masked(c) == c
  {
    hide MaskFrom, PlainChar, Space;
    var still := PlainRun(c, 0, 21, true);
    NothingMore(c, still);
    assert c[0..21] == c;
  }

  lemma {:induction false} DefsQuiet(g: Grammar, m: string, i: nat, j: nat)
    requires i <= j <= |m| && forall k | i <= k < j :: Quiet(m[k])
    ensures DefsTo(g, m, j) == DefsTo(g, m, i)
    decreases j - i
  {
    if i < j {
      DefsQuiet(g, m, i, j - 1);
      assert Quiet(m[j - 1]);
    }
  }

  lemma {:induction false} StmtsQuiet(g: Grammar, m: string, i: nat, j: nat)
    requires i <= j <= |m| && StmtsTo(g, m, i).start.Some? && forall k | i <= k < j :: Quiet(m[k])
    ensures StmtsTo(g, m, j) == StmtsTo(g, m, i)
    decreases j - i
  {
    if i < j {
      StmtsQuiet(g, m, i, j - 1);
      assert Quiet(m[j - 1]);
    }
  }

  lemma {:induction false} StmtsFirst(g: Grammar, m: string, i: nat)
    requires i < |m| && StmtsTo(g, m, i).start.None? && !Space(m[i])
    ensures StmtsTo(g, m, i + 1) ==
            var s := StmtsTo(g, m, i);
            StmtStep(g, m, i, i, StmtScan(s.depth, s.paren, Some(i), false, s.out))
  {
  }

  lemma {:induction false} CutDefs(g: Grammar, c: string)
    requires CutShort(c) && g.header("int f()") == Some("int f()")
    ensures Definitions(g, c) == [Def(12, "int f()")]
  {
    hide DefsTo, Strip, Lead, PlainChar, Space;
    CutFunction(c);
    assert DefsTo(g, c, 0) == DefScan(0, 0, 0, []) by {
      DefsIdle(g, c, 0);
    }
    DefsQuiet(g, c, 0, 10);
    DefsNext(g, c, 10);
    DefsQuiet(g, c, 11, 17);
    DefsNext(g, c, 17);
    DefsNext(g, c, 18);
    DefsNext(g, c, 19);
    DefsNext(g, c, 20);
  }

  lemma {:induction false} CutStmts(g: Grammar, c: string) returns (b: bool)
    requires CutShort(c)
    ensures Statements(g, c) == [Stmt(0, 11, false), Stmt(12, 21, b)]
  {
    hide StmtsTo, PlainChar, SkipBlanks;
    CutFunction(c);
    StmtsBegun(g, c, 0, 10);
    StmtsNext(g, c, 10, 0);
    StmtsRest(g, c, 11, 12);
    StmtsFirst(g, c, 12);
    StmtsQuiet(g, c, 13, 17);
    StmtsNext(g, c, 17, 12);
    StmtsNext(g, c, 18, 12);
    StmtsNext(g, c, 19, 12);
    b := StmtsTo(g, c, 20).code;
    StmtsNext(g, c, 20, 12);
    SkipsAll(c, 21);
  }

  lemma {:induction false} CutText(c: string)
    requires CutShort(c)
    ensures |c| == 21 && c[7] == '\n'
  {
  }

  lemma {:induction false} CutLines(c: string)
    requires CutShort(c)
    ensures LineStart(c, 12) == 8 && Newlines(c[..8]) == 1
  {
    assert LineStart(c, 8) == 8;
    SameLine(c, 8, 12);
    assert c[..8] == c[..7] + [c[7]];
    NewlinesAdd(c[..7], [c[7]]);
    assert [c[7]][1..] == "";
    NoNewlines(c[..7]);
  }

  lemma {:induction false} NoNewlines(s: string)
    requires '\n' !in s
    ensures Newlines(s) == 0
  {
    if s != "" {
      NoNewlines(s[1..]);
    }
  }

  lemma {:induction false} CutPlaced(g: Grammar, c: string)
    requires CutShort(c) && g.header("int f()") == Some("int f()")
    requires g.types(c, 0, 11) == [] && g.types(c, 12, 21) == []
    ensures Stmt(0, 11, false) in StmtsOf(g, c)
    ensures PlacedOf(g, c).at == map[8 := ["int f();"]]
  {
    hide Masked, Definitions, Statements, LineStart, CutShort, Newlines;
    CutMasked(c);
    CutDefs(g, c);
    var b := CutStmts(g, c);
    CutLines(c);
    CutText(c);
    var fn, stmts := Def(12, "int f()"), StmtsOf(g, c);
    assert stmts == [Stmt(0, 11, false), Stmt(12, 21, b)];
    assert FirstCode(stmts[2..], 12) == 12;
    assert stmts[1..] == [Stmt(12, 21, b)] && stmts[1..][1..] == stmts[2..];
    assert FirstCode(stmts, 12) == 12;
    assert BaseOf(g, c) == 8;
    assert ReadyTo(g, c, stmts, 0) == map[] && ReadyTo(g, c, stmts, 1) == map[];
    assert ReadyOf(g, c) == map[];
    LatestIs(8, map[], g.words("int f()"));
    assert fn.Prototype() == "int f();";
    var defs := DefsOf(g, c);
    assert PlaceTo(g, c, 8, map[], defs, 0) == Placed(map[], []);
    assert PlaceTo(g, c, 8, map[], defs, 1) == PlaceOne(g, c, 8, map[], fn, Placed(map[], []));
    assert At(Placed(map[], []), 8) + [fn.Prototype()] == ["int f();"];
  }

  lemma {:induction false} PiecesSkip(code: string, at: map<nat, seq<string>>, cursor: nat, p: nat, q: nat)
    requires cursor <= |code| && cursor <= p <= q <= |code| + 1 && forall k | p <= k < q :: k !in at
    ensures Pieces(code, at, cursor, p) == Pieces(code, at, cursor, q)
    decreases q - p
  {
    if p < q {
      PiecesSkip(code, at, cursor, p + 1, q);
    }
  }

  /** The prototype is wanted on the second line, and goes in front of the rest of
      a declaration that began on the first. The compiler does not see `int x = 1`. */
  lemma {:induction false} InsideAStatement(g: Grammar)
    requires g.header("int f()") == Some("int f()")
    requires g.types(CUT_CODE, 0, 11) == [] && g.types(CUT_CODE, 12, 21) == []
    ensures Stmt(0, 11, false) in StmtsOf(g, CUT_CODE)
    ensures Pieces(CUT_CODE, PlacedOf(g, CUT_CODE).at, 0, 0) ==
            [Kept("int x =\n"), Added(8, false, ["int f();"], 2), Kept(" 1; int f(){}")]
    ensures Splits(g, CUT_CODE, 8)
  {
    hide StmtsOf, PlacedOf, Pieces, CutShort, Newlines;
    var c := CUT_CODE;
    CutExample();
    CutPlaced(g, c);
    var at := PlacedOf(g, c).at;
    assert |c| == 21 && c[7] == '\n' && Newlines(c[..8]) == 1 by {
      CutLines(c);
      CutText(c);
    }
    PiecesSkip(c, at, 0, 0, 8);
    PiecesStep(c, at, 0, 8);
    PiecesSkip(c, at, 8, 9, 22);
    PiecesStep(c, at, 8, 22);
    assert c[0..8] == "int x =\n" && c[8..] == " 1; int f(){}";
  }
}
