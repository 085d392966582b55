/** Sketches whose insertions land where a compiler does not read them, and a
    class of sketches in which the masking itself tells. */
module SketchCases {
  import opened Common
  import opened SketchMask
  import opened Sketch
  import opened SketchLines
  import opened MaskReading
  import C = CppReader

  // ---- a sketch of one function -------------------------------------------

  /** Nothing but `int f(){}` at `a`. */
  predicate OneFunction(m: string, a: nat) {
    a + 9 <= |m| && m[a..a + 9] == "int f(){}"
    && (forall k | 0 <= k < a :: Space(m[k])) && (forall k | a + 9 <= k < |m| :: Space(m[k]))
  }

  predicate PlainHeader(g: Grammar, m: string, a: nat) {
    g.header("int f()") == Some("int f()") && g.types(m, a, a + 9) == []
  }

  lemma {:induction false} FunctionAt(m: string, a: nat)
    requires OneFunction(m, a)
    ensures forall k | 0 <= k < a + 5 :: m[k] !in "(){};"
    ensures m[a + 5] == '(' && m[a + 6] == ')' && m[a + 7] == '{' && m[a + 8] == '}'
    ensures !Space(m[a])
    ensures m[0..a + 7][a..] == "int f()"
  {
    var f := m[a..a + 9];
    assert f[0] == m[a] && f[1] == m[a + 1] && f[2] == m[a + 2] && f[3] == m[a + 3] && f[4] == m[a + 4];
    assert f[5] == m[a + 5] && f[6] == m[a + 6] && f[7] == m[a + 7] && f[8] == m[a + 8];
    assert m[0..a + 7][a..] == f[..7] == "int f()";
  }

  lemma {:induction false} DefsIdle(g: Grammar, m: string, i: nat)
    requires i <= |m| && forall k | 0 <= k < i :: m[k] !in "(){};"
    ensures DefsTo(g, m, i) == DefScan(0, 0, 0, [])
  {
    if i > 0 {
      DefsIdle(g, m, i - 1);
    }
  }

  lemma {:induction false} DefsRest(g: Grammar, m: string, i: nat, j: nat)
    requires i <= j <= |m| && forall k | i <= k < j :: Space(m[k])
    ensures DefsTo(g, m, j) == DefsTo(g, m, i)
    decreases j - i
  {
    if i < j {
      DefsRest(g, m, i, j - 1);
      assert Space(m[j - 1]);
    }
  }

  lemma {:induction false} DefsNext(g: Grammar, m: string, i: nat)
    requires i < |m|
    ensures DefsTo(g, m, i + 1) == DefStep(g, m, i, DefsTo(g, m, i))
  {
  }

  lemma {:induction false} DefsOne(g: Grammar, m: string, a: nat)
    requires OneFunction(m, a) && PlainHeader(g, m, a)
    ensures Definitions(g, m) == [Def(a, "int f()")]
  {
    hide Lead, Strip, DefsTo, OneFunction;
    FunctionAt(m, a);
    HeaderOf(m, a);
    DefsIdle(g, m, a + 5);
    DefsNext(g, m, a + 5);
    DefsNext(g, m, a + 6);
    DefsNext(g, m, a + 7);
    DefsNext(g, m, a + 8);
    assert forall k | a + 9 <= k < |m| :: Space(m[k]) by {
      SpaceAfter(m, a);
    }
    DefsRest(g, m, a + 9, |m|);
  }

  lemma {:induction false} SpaceAfter(m: string, a: nat)
    requires OneFunction(m, a)
    ensures a + 9 <= |m|
    ensures forall k | a + 9 <= k < |m| :: Space(m[k])
    ensures forall k | 0 <= k < a :: Space(m[k])
  {
  }

  lemma {:induction false} HeaderOf(m: string, a: nat)
    requires OneFunction(m, a)
    ensures a + 9 <= |m| && Lead(m[0..a + 7]) == a && Strip(m[0..a + 7]) == "int f()"
  {
    FunctionAt(m, a);
    LeadIs(m[0..a + 7], a);
    assert StripEnd("int f()") == "int f()";
  }

  lemma {:induction false} LeadIs(s: string, n: nat)
    requires n < |s| && !Space(s[n]) && forall k | 0 <= k < n :: Space(s[k])
    ensures Lead(s) == n
    decreases n
  {
    if n > 0 {
      LeadIs(s[1..], n - 1);
    }
  }

  lemma {:induction false} StmtsIdle(g: Grammar, m: string, i: nat)
    requires i <= |m| && forall k | 0 <= k < i :: Space(m[k])
    ensures StmtsTo(g, m, i) == StmtScan(0, 0, None, false, [])
  {
    if i > 0 {
      StmtsIdle(g, m, i - 1);
    }
  }

  lemma {:induction false} StmtsRest(g: Grammar, m: string, i: nat, j: nat)
    requires i <= j <= |m| && (forall k | i <= k < j :: Space(m[k])) && StmtsTo(g, m, i).start.None?
    ensures StmtsTo(g, m, j) == StmtsTo(g, m, i)
    decreases j - i
  {
    if i < j {
      StmtsRest(g, m, i, j - 1);
    }
  }

  lemma {:induction false} StmtsBegun(g: Grammar, m: string, from: nat, i: nat)
    requires from < i <= |m| && (forall k | 0 <= k < from :: Space(m[k])) && !Space(m[from])
    requires forall k | from <= k < i :: m[k] !in "(){};"
    ensures StmtsTo(g, m, i) == StmtScan(0, 0, Some(from), false, [])
  {
    if i == from + 1 {
      StmtsIdle(g, m, from);
    } else {
      StmtsBegun(g, m, from, i - 1);
    }
  }

  lemma {:induction false} StmtsNext(g: Grammar, m: string, i: nat, start: nat)
    requires i < |m| && StmtsTo(g, m, i).start == Some(start)
    ensures StmtsTo(g, m, i + 1) == StmtStep(g, m, i, start, StmtsTo(g, m, i))
  {
  }

  lemma {:induction false} SkipsAll(m: string, j: nat)
    requires j <= |m| && forall k | j <= k < |m| :: Space(m[k])
    ensures SkipBlanks(m, j) == |m| || m[SkipBlanks(m, j)] != ';'
    decreases |m| - j
  {
    if j < |m| && m[j] in " \t\r\n" {
      SkipsAll(m, j + 1);
    }
  }

  lemma {:induction false} StmtsOne(g: Grammar, m: string, a: nat) returns (b: bool)
    requires OneFunction(m, a)
    ensures Statements(g, m) == [Stmt(a, a + 9, b)]
  {
    hide StmtsTo, Space, OneFunction, SkipBlanks;
    FunctionAt(m, a);
    SpaceAfter(m, a);
    StmtsBegun(g, m, a, a + 5);
    StmtsNext(g, m, a + 5, a);
    StmtsNext(g, m, a + 6, a);
    StmtsNext(g, m, a + 7, a);
    StmtsNext(g, m, a + 8, a);
    SkipsAll(m, a + 9);
    b := StmtsTo(g, m, a + 8).code;
    assert StmtsTo(g, m, a + 9) == StmtScan(0, 0, None, b, [Stmt(a, a + 9, b)]);
    StmtsRest(g, m, a + 9, |m|);
  }

  /** The one prototype is wanted, and put, at the start of the function's line. */
  lemma {:induction false} PlacedOne(g: Grammar, code: string, a: nat)
    requires OneFunction(Masked(code), a) && PlainHeader(g, Masked(code), a)
    ensures DefsOf(g, code) == [Def(a, "int f()")] && a <= |code|
    ensures forall p: nat :: WantedAt(g, code, Def(a, "int f()"), p) <==> p == LineStart(code, a)
  {
    hide Masked, Definitions, Statements, OneFunction, LineStart;
    DefsOne(g, Masked(code), a);
    SpaceAfter(Masked(code), a);
    var b := StmtsOne(g, Masked(code), a);
    var fn, stmts := Def(a, "int f()"), StmtsOf(g, code);
    assert stmts == [Stmt(a, a + 9, b)];
    assert FirstCode(stmts, a) == a by {
      FirstOf(stmts[0], a);
    }
    assert BaseOf(g, code) == LineStart(code, a);
    assert ReadyTo(g, code, stmts, 0) == map[];
    assert ReadyOf(g, code) == map[];
    LatestIs(BaseOf(g, code), map[], g.words("int f()"));
  }

  lemma {:induction false} FirstOf(st: Stmt, otherwise: nat)
    requires st.start == otherwise
    ensures FirstCode([st], otherwise) == otherwise
  {
    assert [st][1..] == [];
    assert FirstCode([st][1..], otherwise) == otherwise;
  }

  lemma {:induction false} SaneExample()
    ensures C.Sane(Def(0, "int f()").Prototype())
  {
    hide C.Sane, C.Calm;
    var t := Def(0, "int f()").Prototype();
    assert t == "int f();";
    forall c | c in t ensures C.Calm(c) {
      ExampleCalm(c);
    }
    C.PlainIsSane(t);
  }

  lemma {:induction false} ExampleCalm(c: char)
    requires c in "int f();"
    ensures C.Calm(c)
  {
  }

  // ---- reading the mask ---------------------------------------------------

  /** No slash, hash, double quote or apostrophe. */
  predicate PlainChar(c: char) {
    c != '/' && c != '#' && c != 34 as char && c != 39 as char
  }

  lemma {:induction false} PlainStep(code: string, i: nat, bol: bool)
    requires i < |code| && PlainChar(code[i])
    ensures RegionEnd(code, i, bol) == i + 1 && RegionText(code, i, bol) == [code[i]]
    ensures code[i] == '\n' ==> StillBol(code, i, bol)
  {
    assert KindAt(code, i, bol) == Plain;
    assert RegionText(code, i, bol)[0] == RegionChar(code, i, bol, i);
  }

  /** Plain code is kept as it is; after a newline a line begins. */
  lemma {:induction false} PlainRun(code: string, i: nat, j: nat, bol: bool) returns (still: bool)
    requires i < j <= |code| && forall k | i <= k < j :: PlainChar(code[k])
    ensures MaskFrom(code, i, bol) == code[i..j] + MaskFrom(code, j, still)
    ensures code[j - 1] == '\n' ==> still
    ensures forall p | j <= p :: Reaches(code, i, bol, p) <==> Reaches(code, j, still, p)
    decreases j - i
  {
    hide RegionText, RegionEnd, StillBol, PlainChar;
    PlainStep(code, i, bol);
    still := StillBol(code, i, bol);
    if i + 1 == j {
      assert code[i..j] == [code[i]];
    } else {
      still := PlainRun(code, i + 1, j, still);
      var one, rest := [code[i]], code[i + 1..j];
      assert code[i..j] == one + rest;
      assert one + (rest + MaskFrom(code, j, still)) == one + rest + MaskFrom(code, j, still);
    }
  }

  /** A region that goes blank. */
  lemma {:induction false} BlankRun(code: string, i: nat, bol: bool)
    requires i < |code| && KindAt(code, i, bol) in {Directive, LineComment, BlockComment}
    ensures var e := RegionEnd(code, i, bol);
            MaskFrom(code, i, bol) == RegionText(code, i, bol) + MaskFrom(code, e, bol)
            && (forall k | 0 <= k < e - i :: Space(RegionText(code, i, bol)[k]))
            && (forall p | i < p :: Reaches(code, i, bol, p) <==> Reaches(code, e, bol, p))
  {
    var e := RegionEnd(code, i, bol);
    assert StillBol(code, i, bol) == bol;
    forall k | 0 <= k < e - i ensures Space(RegionText(code, i, bol)[k]) {
      assert RegionText(code, i, bol)[k] == RegionChar(code, i, bol, i + k);
    }
  }

  // ---- an insertion inside a comment --------------------------------------

  /** A function that starts on the line where a comment ends. */
  const COMMENT_THEN_CODE := "/*\n*/int f(){}"

  lemma {:induction false} CommentRegion(c: string)
    requires |c| > 4 && c[0] == '/' && c[1] == '*' && c[2] != '*' && c[3] == '*' && c[4] == '/'
    ensures KindAt(c, 0, true) == BlockComment && RegionEnd(c, 0, true) == 5
  {
    assert CommentEnd(c, 3) == 5;
    assert CommentEnd(c, 2) == 5;
  }

  lemma {:induction false} Parts(m: string, before: string, f: string, after: string)
    requires m == before + f + after && f == "int f(){}"
    requires (forall k | 0 <= k < |before| :: Space(before[k])) && (forall k | 0 <= k < |after| :: Space(after[k]))
    ensures OneFunction(m, |before|)
  {
    var a := |before|;
    assert |f| == 9;
    assert m[a..a + 9] == f;
    forall k | a + 9 <= k < |m| ensures Space(m[k]) {
      assert m[k] == after[k - a - 9];
    }
  }

  lemma {:induction false} CommentMasked()
    ensures OneFunction(Masked(COMMENT_THEN_CODE), 5)
  {
    hide MaskFrom, RegionText, RegionEnd, KindAt, Space;
    var c := COMMENT_THEN_CODE;
    CommentRegion(c);
    BlankRun(c, 0, true);
    assert forall k | 5 <= k < 14 :: PlainChar(c[k]);
    var still := PlainRun(c, 5, 14, true);
    NothingMore(c, still);
    assert c[5..14] == "int f(){}";
    assert Masked(c) == RegionText(c, 0, true) + c[5..14] + "";
    Parts(Masked(c), RegionText(c, 0, true), c[5..14], "");
  }

  lemma {:induction false} NothingMore(code: string, bol: bool)
    ensures MaskFrom(code, |code|, bol) == ""
  {
  }

  lemma {:induction false} InTheComment(h: C.Conditions)
    ensures StateAt(h, COMMENT_THEN_CODE, 3).lex.mode == C.Block
  {
    var t := COMMENT_THEN_CODE[..3];
    C.LexOfRead(h, t, C.FILE);
    assert t == "/*\n";
    ThreeChars();
  }

  lemma {:induction false} ThreeChars()
    ensures C.LexRead("/*\n", C.REST).mode == C.Block
  {
    var l1 := C.LexStep(C.REST, '/');
    var l2 := C.LexStep(l1, '*');
    C.LexOne('/', C.REST);
    C.LexOne('*', l1);
    C.LexOne('\n', l2);
    C.LexConcat("/", "*", C.REST);
    C.LexConcat("/*", "\n", C.REST);
    assert "/*" == "/" + "*" && "/*\n" == "/*" + "\n";
  }

  lemma {:induction false} ExampleDecided(g: Grammar, h: C.Conditions, code: string, name: string, a: nat)
    requires OneFunction(Masked(code), a) && PlainHeader(g, Masked(code), a)
    requires NameOk(name) && a <= |code| && NotSpliced(code, LineStart(code, a))
    ensures Compiled(h, name, Pieces(code, PlacedOf(g, code).at, 0, 0), C.Read(h, Head(name), C.FILE)) ==
            C.Numbers(h, code, C.FILE)
            <==> OpenAt(h, code, LineStart(code, a))
  {
    hide OneFunction, PlainHeader, Masked, NameOk, NotSpliced, OpenAt, WantedAt, Compiled, Pieces, PlacedOf, C.Sane, C.Read,
         C.Numbers, DefsOf, LineStart;
    var fn := Def(a, "int f()");
    PlacedOne(g, code, a);
    SaneExample();
    assert C.Sane(fn.Prototype());
    LinesKept(g, h, code, name);
    assert fn in DefsOf(g, code) && WantedAt(g, code, fn, LineStart(code, a));
  }

  /** The prototype and its `#line` go inside the comment, so the lines after
      them compile under the wrong numbers. */
  lemma {:induction false} InsideAComment(g: Grammar, h: C.Conditions, name: string)
    requires PlainHeader(g, Masked(COMMENT_THEN_CODE), 5) && NameOk(name)
    ensures var code := COMMENT_THEN_CODE;
            Compiled(h, name, Pieces(code, PlacedOf(g, code).at, 0, 0), C.Read(h, Head(name), C.FILE)) !=
            C.Numbers(h, code, C.FILE)
  {
    hide Compiled, Pieces, PlacedOf, C.Read, C.Numbers, Masked, StateAt;
    CommentMasked();
    assert LineStart(COMMENT_THEN_CODE, 5) == 3;
    InTheComment(h);
    ExampleDecided(g, h, COMMENT_THEN_CODE, name, 5);
  }

  // ---- an insertion inside a skipped group --------------------------------

  /** A function in a conditional group. */
  const GUARDED_CODE := "#if 0\nint f(){}\n#endif\n"

  lemma {:induction false} DirectiveRegion(c: string, i: nat, e: nat)
    requires i < e <= |c| && c[i] == '#' && (e < |c| ==> c[e] == '\n')
    requires forall k | i < k < e :: c[k] != '\n'
    requires c[e - 1] != '\\'
    ensures KindAt(c, i, true) == Directive && RegionEnd(c, i, true) == e
  {
    DirectiveRuns(c, i + 1, e);
  }

  lemma {:induction false} DirectiveRuns(c: string, j: nat, e: nat)
    requires 0 < j <= e <= |c| && (e < |c| ==> c[e] == '\n') && c[e - 1] != '\\'
    requires forall k | j <= k < e :: c[k] != '\n'
    ensures DirectiveEnd(c, j) == e
    decreases e - j
  {
    if j < e {
      DirectiveRuns(c, j + 1, e);
    }
  }

  /** A directive line, a function's line, a directive line. */
  ghost predicate Guarded(c: string) {
    |c| == 23 && c[0] == '#' && c[16] == '#' && c[5] == '\n' && c[15] == '\n' && c[22] == '\n'
    && c[4] != '\\' && c[21] != '\\' && c[6..15] == "int f(){}"
    && (forall k | 0 <= k < 5 || 16 <= k < 22 :: c[k] != '\n')
  }

  lemma {:induction false} GuardedMask(c: string)
    requires Guarded(c)
    ensures OneFunction(Masked(c), 6)
    ensures InCode(c, 6)
  {
    hide MaskFrom, RegionText, RegionEnd, KindAt, Reaches, Space, OneFunction;
    DirectiveRegion(c, 0, 5);
    BlankRun(c, 0, true);
    var b1 := PlainRun(c, 5, 6, true);
    ReachesItself(c, 6, b1);
    PlainFunction(c[6..15]);
    assert forall k | 6 <= k < 15 :: c[k] == c[6..15][k - 6];
    var b2 := PlainRun(c, 6, 15, b1);
    var b3 := PlainRun(c, 15, 16, b2);
    DirectiveRegion(c, 16, 22);
    BlankRun(c, 16, b3);
    var b4 := PlainRun(c, 22, 23, b3);
    NothingMore(c, b4);
    SpaceNewline();
    var r1, r2 := RegionText(c, 0, true), RegionText(c, 16, true);
    var before, after := r1 + "\n", "\n" + r2 + "\n";
    assert c[5..6] == "\n" && c[15..16] == "\n" && c[22..23] == "\n";
    assert Masked(c) == before + c[6..15] + after;
    Parts(Masked(c), before, c[6..15], after);
  }

  lemma {:induction false} PlainFunction(f: string)
    requires f == "int f(){}"
    ensures forall k | 0 <= k < |f| :: PlainChar(f[k])
  {
  }

  lemma {:induction false} GuardedExample()
    ensures Guarded(GUARDED_CODE)
  {
    var c, first, second, third := GUARDED_CODE, "#if 0\n", "int f(){}\n", "#endif\n";
    assert c == first + second + third;
    assert c[6..15] == second[..9] == "int f(){}";
    forall k | 0 <= k < 5 ensures c[k] != '\n' {
      assert c[k] == first[k];
    }
    forall k | 16 <= k < 22 ensures c[k] != '\n' {
      assert c[k] == third[k - 16];
    }
  }

  lemma {:induction false} GuardedMasked()
    ensures OneFunction(Masked(GUARDED_CODE), 6)
    ensures InCode(GUARDED_CODE, 6)
  {
    hide Masked, OneFunction, InCode, Guarded;
    GuardedExample();
    GuardedMask(GUARDED_CODE);
  }

  lemma {:induction false} SpaceNewline()
    ensures Space('\n')
  {
  }

  lemma {:induction false} ReachesItself(code: string, p: nat, bol: bool)
    requires p <= |code|
    ensures Reaches(code, p, bol, p)
  {
  }

  /** At the function's line the group is read if its condition holds. */
  lemma {:induction false} InTheGroup(h: C.Conditions)
    ensures OpenAt(h, GUARDED_CODE, 6) <==> h(0)
  {
    hide C.Read, C.Obey;
    var s := C.Reader(C.REST, [], 0, 2);
    assert GUARDED_CODE[..6] == "#" + "if 0" + "\n";
    ConditionCalm();
    C.ReadDirective(h, "if 0", C.FILE);
    ConditionObeyed(h, s);
    OneNewline();
    var r := StateAt(h, GUARDED_CODE, 6);
    assert r.groups == [C.Group(h(0), h(0))];
    assert C.Live(r) <==> r.groups[0].live;
  }

  lemma {:induction false} ConditionCalm()
    ensures forall c | c in "if 0" :: C.Calm(c)
  {
  }

  lemma {:induction false} ConditionObeyed(h: C.Conditions, s: C.Reader)
    requires s.groups == []
    ensures C.Obey(h, "if 0", s) == C.Reader(s.lex, [C.Group(h(s.asked), h(s.asked))], s.asked + 1, s.number)
  {
    assert "if 0" == "if" + " 0";
    C.LettersOf("if", " 0");
    assert C.AfterBlanks("if 0") == "if 0";
    assert s.groups + [C.Asked(h, s)] == [C.Asked(h, s)];
  }

  lemma {:induction false} OneNewline()
    ensures Newlines(GUARDED_CODE[..6]) == 1
  {
    var t := "#if 0";
    assert GUARDED_CODE[..6] == t + "\n";
    NewlinesAdd(t, "\n");
    NoneIn(t);
    NoneIn("");
    assert "\n"[1..] == "";
  }

  lemma {:induction false} NoneIn(t: string)
    requires '\n' !in t
    ensures Newlines(t) == 0
  {
    if t != "" {
      assert t[0] in t;
      assert forall c | c in t[1..] :: c in t;
      NoneIn(t[1..]);
    }
  }

  /** The masking takes the guarded function for code, but the lines compile
      under their own numbers exactly when the guard lets it be read. */
  lemma {:induction false} InsideAGroup(g: Grammar, h: C.Conditions, name: string)
    requires PlainHeader(g, Masked(GUARDED_CODE), 6) && NameOk(name)
    ensures InCode(GUARDED_CODE, 6)
    ensures var code := GUARDED_CODE;
            Compiled(h, name, Pieces(code, PlacedOf(g, code).at, 0, 0), C.Read(h, Head(name), C.FILE)) ==
            C.Numbers(h, code, C.FILE)
            <==> h(0)
  {
    hide Compiled, Pieces, PlacedOf, C.Read, C.Numbers, Masked, StateAt, OpenAt, InCode;
    GuardedMasked();
    assert LineStart(GUARDED_CODE, 6) == 6;
    InTheGroup(h);
    ExampleDecided(g, h, GUARDED_CODE, name, 6);
  }

  // ---- tame sketches ------------------------------------------------------

  /** In a tame sketch a line start is read exactly when the masking takes it for
      code and no conditional group skips it. */
  lemma {:induction false} ReadIsInCode(h: C.Conditions, code: string, p: nat)
    requires p < |code| && Tame(code, 0, true) && IsLineStart(code, p)
    ensures ReadAt(h, code, p) <==> InCode(code, p) && C.Live(StateAt(h, code, p))
  {
    hide C.LexRead, C.Read, InCode, Tame, C.Live;
    MaskAgrees(code, p);
    C.LexOfRead(h, code[..p], C.FILE);
  }

  // ---- an insertion after a spliced line ----------------------------------

  /** A line comment that a backslash carries over the function. */
  const SPLICED_CODE := "//\\\nint f(){}"

  lemma {:induction false} CommentLine(c: string)
    requires |c| > 3 && c[0] == '/' && c[1] == '/' && c[2] != '\n' && c[3] == '\n'
    ensures KindAt(c, 0, true) == LineComment && RegionEnd(c, 0, true) == 3
  {
    assert LineEnd(c, 3) == 3;
    assert LineEnd(c, 2) == 3;
  }

  lemma {:induction false} SplicedMasked()
    ensures OneFunction(Masked(SPLICED_CODE), 4)
  {
    hide MaskFrom, RegionText, RegionEnd, KindAt, Space;
    var c := SPLICED_CODE;
    CommentLine(c);
    BlankRun(c, 0, true);
    assert forall k | 3 <= k < 13 :: PlainChar(c[k]);
    var b := PlainRun(c, 3, 4, true);
    var still := PlainRun(c, 4, 13, b);
    NothingMore(c, still);
    assert c[3..4] == "\n" && c[4..13] == "int f(){}";
    SpaceNewline();
    var before := RegionText(c, 0, true) + "\n";
    assert Masked(c) == before + c[4..13] + "";
    Parts(Masked(c), before, c[4..13], "");
  }

  lemma {:induction false} InTheSplice(h: C.Conditions)
    ensures StateAt(h, SPLICED_CODE, 4) == C.Reader(C.Lex(C.LineComment, C.Blank, "", false), [], 0, 2)
  {
    var s0 := C.FILE;
    var s1 := C.ReadChar(h, s0, '/');
    var s2 := C.ReadChar(h, s1, '/');
    var s3 := C.ReadChar(h, s2, '\\');
    var s4 := C.ReadChar(h, s3, '\n');
    ReadOne(h, '/', s0);
    ReadOne(h, '/', s1);
    ReadOne(h, '\\', s2);
    ReadOne(h, '\n', s3);
    C.ReadConcat(h, "/", "/", s0);
    C.ReadConcat(h, "//", "\\", s0);
    C.ReadConcat(h, "//\\", "\n", s0);
    assert "//" == "/" + "/" && "//\\" == "//" + "\\" && SPLICED_CODE[..4] == "//\\" + "\n";
  }

  lemma {:induction false} ReadOne(h: C.Conditions, c: char, s: C.Reader)
    ensures C.Read(h, [c], s) == C.ReadChar(h, s, c)
  {
    hide C.ReadChar;
    assert [c][1..] == "";
    assert C.Read(h, [c], s) == C.Read(h, [c][1..], C.ReadChar(h, s, c));
  }

  lemma {:induction false} CommentGoesOn(t: string, l: C.Lex)
    requires l.mode.LineComment? && !l.pending && '\\' !in t && '\n' !in t
    ensures var r := C.LexRead(t, l); r.mode.LineComment? && !r.pending && r.kind == l.kind
    decreases t
  {
    if t != "" {
      assert t[0] in t;
      assert forall c | c in t[1..] :: c in t;
      CommentGoesOn(t[1..], C.LexStep(l, t[0]));
    }
  }

  lemma {:induction false} SameNumbers(h: C.Conditions, t: string, s: C.Reader, r: C.Reader)
    requires '\n' !in t && s.number == r.number
    ensures C.Numbers(h, t, s) == C.Numbers(h, t, r)
    decreases t
  {
    hide C.LexStep, C.Obey;
    if t != "" {
      assert t[0] in t;
      assert forall c | c in t[1..] :: c in t;
      SameNumbers(h, t[1..], C.ReadChar(h, s, t[0]), C.ReadChar(h, r, t[0]));
    }
  }

  /** The prototype ends the comment's line and the `#line` is obeyed. */
  lemma {:induction false} SpliceInsertion(h: C.Conditions, name: string, piece: Piece, t: string, s: C.Reader)
    requires SanePiece(name, piece) && piece.protos == [t] && '\\' !in t && '\n' !in t
    requires s.lex == C.Lex(C.LineComment, C.Blank, "", false) && C.Live(s)
    ensures C.Read(h, Render(name, piece), s).number == piece.line
  {
    hide C.Read, C.Live, C.Sane, C.Obey, Render, Sketch.Directive, C.LexRead, C.LexStep;
    RenderParts(name, piece);
    assert Join(piece.protos) == t;
    C.ReadConcat(h, t + "\n", Sketch.Directive(piece.line, name), s);
    C.ReadConcat(h, t, "\n", s);
    C.ReadWithin(h, t, s);
    CommentGoesOn(t, s.lex);
    C.ReadNewline(h, C.Read(h, t, s));
    var s1 := C.Reader(C.REST, s.groups, s.asked, s.number + 1);
    LineReadAtRest(h, piece.line, name, s1);
    SameGroups(s, s1);
  }

  /** With one insertion, on the last line, only the number there counts. */
  lemma {:induction false} OnTheLastLine(h: C.Conditions, code: string, name: string, at: map<nat, seq<string>>, p: nat)
    requires p < |code| && at.Keys == {p} && '\n' !in code[p..] && NameOk(name)
    requires C.Read(h, Render(name, Cut(code, at, p)), StateAt(h, code, p)).number == StateAt(h, code, p).number
    ensures Compiled(h, name, Pieces(code, at, 0, 0), C.Read(h, Head(name), C.FILE)) == C.Numbers(h, code, C.FILE)
  {
    hide Compiled, C.Read, C.Numbers, StateAt, Pieces, Render, Head, Newlines;
    var s, piece := StateAt(h, code, p), Cut(code, at, p);
    var r := C.Read(h, Render(name, piece), s);
    HeadReads(h, name);
    PiecesSkip(code, at, 0, 0, p);
    PiecesStep(code, at, 0, p);
    PiecesSkip(code, at, p, p + 1, |code| + 1);
    PiecesStep(code, at, p, |code| + 1);
    StateAtStart(h, code);
    StateLater(h, code, 0, p);
    assert code[0..p] == code[..p] && code[0..] == code;
    CompiledTwo(h, name, Kept(code[0..p]), piece, [Kept(code[p..])], C.FILE);
    CompiledOne(h, name, code[p..], r);
    SameNumbers(h, code[p..], r, s);
  }

  /** After a spliced line the numbers can be right at a line that is not open:
      the insertion ends the comment and makes the function code again. */
  lemma {:induction false} AfterASplice(h: C.Conditions, name: string)
    requires NameOk(name)
    ensures OneFunction(Masked(SPLICED_CODE), 4) && LineStart(SPLICED_CODE, 4) == 4
    ensures !OpenAt(h, SPLICED_CODE, 4) && !NotSpliced(SPLICED_CODE, 4)
    ensures Compiled(h, name, Pieces(SPLICED_CODE, map[4 := ["int f();"]], 0, 0), C.Read(h, Head(name), C.FILE)) ==
            C.Numbers(h, SPLICED_CODE, C.FILE)
  {
    hide Compiled, C.Read, C.Numbers, Masked, StateAt, Pieces, Render, OneFunction, Head, Newlines, C.Sane;
    var at := map[4 := ["int f();"]];
    SplicedMasked();
    InTheSplice(h);
    SaneExample();
    assert Def(0, "int f()").Prototype() == "int f();";
    SpliceLine();
    SpliceInsertion(h, name, Cut(SPLICED_CODE, at, 4), "int f();", StateAt(h, SPLICED_CODE, 4));
    OnTheLastLine(h, SPLICED_CODE, name, at, 4);
  }

  lemma {:induction false} SpliceLine()
    ensures Newlines(SPLICED_CODE[..4]) + 1 == 2
    ensures SPLICED_CODE[4 - 1] == '\n' && '\n' !in SPLICED_CODE[4..]
  {
    var t := "//\\";
    assert SPLICED_CODE[..4] == t + "\n" && SPLICED_CODE[4..] == "int f(){}";
    NewlinesAdd(t, "\n");
    NoneIn(t);
    NoneIn("");
    assert "\n"[1..] == "";
  }
}
