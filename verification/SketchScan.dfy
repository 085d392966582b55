/** What the two scanners find, said of the characters of the masked sketch. */
module SketchScan {
  import opened Common
  import opened SketchMask
  import opened Sketch

  // ---- nesting ------------------------------------------------------------

  /** How often `c` stands before `i`. */
  function Count(m: string, c: char, i: nat): nat
    requires i <= |m|
  {
    if i == 0 then 0 else Count(m, c, i - 1) + if m[i - 1] == c then 1 else 0
  }

  function Depth(m: string, i: nat): int
    requires i <= |m|
  {
    Count(m, '{', i) - Count(m, '}', i)
  }

  function Nesting(m: string, i: nat): int
    requires i <= |m|
  {
    Count(m, '(', i) - Count(m, ')', i)
  }

  predicate Blank(m: string, a: nat, b: nat)
    requires a <= b <= |m|
  {
    forall k | a <= k < b :: Space(m[k])
  }

  // ---- function definitions -----------------------------------------------

  /** A `;` at file scope, or the brace that closes the last block. */
  predicate Closes(m: string, j: nat)
    requires j < |m|
  {
    (m[j] == ';' && Depth(m, j) == 0 && Nesting(m, j) == 0) || (m[j] == '}' && Depth(m, j) == 1)
  }

  /** `from` is where the text since the last of those begins. */
  predicate Since(m: string, i: nat, from: nat)
    requires i <= |m|
  {
    from <= i && (from == 0 || Closes(m, from - 1)) && forall j | from <= j < i :: !Closes(m, j)
  }

  /** The text from `a` to `b` between two places, blanks on either side. */
  predicate Within(m: string, from: nat, a: nat, b: nat, to: nat)
    requires to <= |m|
  {
    from <= a < b <= to && Blank(m, from, a) && Blank(m, b, to) && !Space(m[a]) && !Space(m[b - 1])
  }

  /** The brace at `i` opens a function whose header begins at `start`. */
  ghost predicate Opens(g: Grammar, m: string, i: nat, start: nat, signature: string) {
    && i < |m| && m[i] == '{' && Depth(m, i) == 0 && Nesting(m, i) == 0
    && exists from: nat, b: nat | Since(m, i, from) && Within(m, from, start, b, i) ::
         g.header(m[start..b]) == Some(signature)
  }

  lemma {:induction false} OneSince(m: string, i: nat, from: nat, other: nat)
    requires i <= |m| && Since(m, i, from) && Since(m, i, other)
    ensures from == other
  {
    hide Closes;
  }

  lemma {:induction false} LeadOf(m: string, from: nat, a: nat, b: nat, i: nat)
    requires i <= |m| && Within(m, from, a, b, i)
    ensures from + Lead(m[from..i]) == a
    ensures Strip(m[from..i]) == m[a..b]
  {
    var text := m[from..i];
    LeadAt(text, a - from);
    assert text[a - from..] == m[a..i];
    StripEndAt(m[a..i], b - a);
    assert m[a..i][..b - a] == m[a..b];
  }

  lemma {:induction false} LeadAt(s: string, n: nat)
    requires n < |s| && !Space(s[n]) && forall k | 0 <= k < n :: Space(s[k])
    ensures Lead(s) == n
    decreases n
  {
    if n > 0 {
      LeadAt(s[1..], n - 1);
    }
  }

  lemma {:induction false} StripEndAt(s: string, n: nat)
    requires 0 < n <= |s| && !Space(s[n - 1]) && forall k | n <= k < |s| :: Space(s[k])
    ensures StripEnd(s) == s[..n]
    decreases |s|
  {
    if n < |s| {
      StripEndAt(s[..|s| - 1], n);
      assert s[..|s| - 1][..n] == s[..n];
    } else {
      assert s[..n] == s;
    }
  }

  /** Text that is not blank has such an inside. */
  lemma {:induction false} Inside(m: string, from: nat, i: nat) returns (b: nat)
    requires from <= i <= |m| && Strip(m[from..i]) != ""
    ensures Within(m, from, from + Lead(m[from..i]), b, i)
  {
    hide Space;
    var text := m[from..i];
    StripEmpty(text);
    var a := from + Lead(text);
    assert forall k | 0 <= k < Lead(text) :: text[k] == m[from + k];
    assert text[Lead(text)] == m[a];
    b := LastOf(m, a, i);
  }

  lemma {:induction false} LastOf(m: string, a: nat, i: nat) returns (b: nat)
    requires a < i <= |m| && !Space(m[a])
    ensures a < b <= i && Blank(m, b, i) && !Space(m[b - 1])
    decreases i
  {
    hide Space;
    b := i;
    if Space(m[i - 1]) {
      b := LastOf(m, a, i - 1);
    }
  }

  /** What the scan knows at `i`. */
  ghost predicate ScanIs(g: Grammar, m: string, i: nat, s: DefScan)
    requires i <= |m|
  {
    && s.depth == Depth(m, i) && s.paren == Nesting(m, i) && Since(m, i, s.from)
    && forall start: nat, signature ::
         Def(start, signature) in s.found <==> exists k: nat | k < i :: Opens(g, m, k, start, signature)
  }

  lemma {:induction false} OpensIs(g: Grammar, m: string, i: nat, s: DefScan, start: nat, signature: string)
    requires i < |m| && s.depth == Depth(m, i) && s.paren == Nesting(m, i) && Since(m, i, s.from)
    ensures Opens(g, m, i, start, signature) <==>
            var text := m[s.from..i];
            m[i] == '{' && s.depth == 0 && s.paren == 0 && start == s.from + Lead(text)
            && ParseHeader(g, Strip(text)) == Some(signature)
  {
    hide Depth, Nesting, Closes, Blank, Space, Lead, Strip;
    var text := m[s.from..i];
    if Opens(g, m, i, start, signature) {
      var from: nat, b: nat :| Since(m, i, from) && Within(m, from, start, b, i) && g.header(m[start..b]) == Some(signature);
      OneSince(m, i, from, s.from);
      LeadOf(m, from, start, b, i);
      Nonempty(m, from, start, b, i);
    }
    if Strip(text) != "" {
      var b := Inside(m, s.from, i);
      LeadOf(m, s.from, s.from + Lead(text), b, i);
    }
  }

  lemma {:induction false} Nonempty(m: string, from: nat, a: nat, b: nat, i: nat)
    requires i <= |m| && Within(m, from, a, b, i)
    ensures a < b <= |m| && m[a..b] != ""
  {
    assert |m[a..b]| == b - a;
  }

  lemma {:induction false} CountNext(m: string, c: char, i: nat)
    requires i < |m|
    ensures Count(m, c, i + 1) == Count(m, c, i) + if m[i] == c then 1 else 0
  {
  }

  lemma {:induction false} NestingNext(m: string, i: nat)
    requires i < |m|
    ensures Depth(m, i + 1) == Depth(m, i) + (if m[i] == '{' then 1 else if m[i] == '}' then -1 else 0)
    ensures Nesting(m, i + 1) == Nesting(m, i) + (if m[i] == '(' then 1 else if m[i] == ')' then -1 else 0)
  {
    CountNext(m, '{', i);
    CountNext(m, '}', i);
    CountNext(m, '(', i);
    CountNext(m, ')', i);
  }

  lemma {:induction false} SinceNext(m: string, i: nat, from: nat)
    requires i < |m| && Since(m, i, from)
    ensures Since(m, i + 1, if Closes(m, i) then i + 1 else from)
  {
    hide Closes;
  }

  /** What one character does to the scan. */
  lemma {:induction false} DefStepTells(g: Grammar, m: string, i: nat, s: DefScan)
    requires i < |m| && s.depth == Depth(m, i) && s.paren == Nesting(m, i) && Since(m, i, s.from)
    ensures var r := DefStep(g, m, i, s);
            && r.depth == Depth(m, i + 1) && r.paren == Nesting(m, i + 1) && Since(m, i + 1, r.from)
            && var text := m[s.from..i];
               var signature := ParseHeader(g, Strip(text));
               r.found == if m[i] == '{' && s.depth == 0 && s.paren == 0 && signature.Some?
                          then s.found + [Def(s.from + Lead(text), signature.value)] else s.found
  {
    hide Depth, Nesting, Since, Strip, Lead;
    NestingNext(m, i);
    SinceNext(m, i, s.from);
    SinceWithin(m, i, s.from);
  }

  lemma {:induction false} SinceWithin(m: string, i: nat, from: nat)
    requires i <= |m| && Since(m, i, from)
    ensures from <= i
  {
  }

  lemma {:induction false} DefsScan(g: Grammar, m: string, i: nat)
    requires i <= |m|
    ensures ScanIs(g, m, i, DefsTo(g, m, i))
    decreases i
  {
    hide DefStep, Opens, Depth, Nesting, Since, Strip, Lead;
    if i == 0 {
      StartScan(m);
    } else {
      DefsScan(g, m, i - 1);
      var s := DefsTo(g, m, i - 1);
      DefStepTells(g, m, i - 1, s);
      SinceWithin(m, i - 1, s.from);
      forall start: nat, signature
        ensures Def(start, signature) in DefsTo(g, m, i).found <==> exists k: nat | k < i :: Opens(g, m, k, start, signature)
      {
        OpensIs(g, m, i - 1, s, start, signature);
        assert (exists k: nat | k < i :: Opens(g, m, k, start, signature)) <==>
               (exists k: nat | k < i - 1 :: Opens(g, m, k, start, signature)) || Opens(g, m, i - 1, start, signature);
      }
    }
  }

  lemma {:induction false} StartScan(m: string)
    ensures Depth(m, 0) == 0 && Nesting(m, 0) == 0 && Since(m, 0, 0)
  {
  }

  /** A definition is found for every brace at file scope, outside parentheses,
      whose text since the last statement or block parses as a header, and for
      nothing else. */
  lemma {:induction false} DefinitionsAre(g: Grammar, m: string, start: nat, signature: string)
    ensures Def(start, signature) in Definitions(g, m) <==> exists i: nat :: Opens(g, m, i, start, signature)
  {
    hide Opens, Depth, Nesting, Since;
    DefsScan(g, m, |m|);
    forall i: nat | Opens(g, m, i, start, signature) ensures i < |m| {
      OpensInside(g, m, i, start, signature);
    }
  }

  lemma {:induction false} OpensInside(g: Grammar, m: string, i: nat, start: nat, signature: string)
    requires Opens(g, m, i, start, signature)
    ensures i < |m|
  {
  }

  // ---- file-scope statements ----------------------------------------------

  /** A `;` comes next, blanks aside. */
  ghost predicate SemicolonNext(m: string, j: nat)
    requires j <= |m|
  {
    exists k | j <= k < |m| :: m[k] == ';' && forall b | j <= b < k :: m[b] in " \t\r\n"
  }

  /** A statement ends with the character at `i`. */
  ghost predicate Ends(m: string, i: nat)
    requires i < |m|
  {
    || (m[i] == ';' && Depth(m, i) == 0 && Nesting(m, i) == 0)
    || (m[i] == '}' && Depth(m, i) == 1 && Nesting(m, i) == 0 && !SemicolonNext(m, i + 1))
  }

  ghost predicate SinceEnd(m: string, i: nat, from: nat)
    requires i <= |m|
  {
    from <= i && (from == 0 || Ends(m, from - 1)) && forall j | from <= j < i :: !Ends(m, j)
  }

  /** A function's body opens at `j`, in a statement that began at `start`. */
  predicate BodyAt(g: Grammar, m: string, start: nat, j: nat)
    requires start <= j < |m|
  {
    m[j] == '{' && g.body(m[if j - 120 > start then j - 120 else start..j])
  }

  ghost predicate HasBody(g: Grammar, m: string, start: nat, end: nat)
    requires end <= |m|
  {
    exists j | start <= j < end :: BodyAt(g, m, start, j)
  }

  ghost predicate IsStatement(g: Grammar, m: string, st: Stmt) {
    && st.start < st.end <= |m| && !Space(m[st.start]) && Ends(m, st.end - 1)
    && (st.code <==> HasBody(g, m, st.start, st.end))
    && exists from: nat :: SinceEnd(m, st.end - 1, from) && from <= st.start && Blank(m, from, st.start)
  }

  lemma {:induction false} SkipsTo(m: string, j: nat)
    requires j <= |m|
    ensures var r := SkipBlanks(m, j);
            (r == |m| || m[r] != ';') <==> !SemicolonNext(m, j)
    decreases |m| - j
  {
    if j < |m| && m[j] in " \t\r\n" {
      SkipsTo(m, j + 1);
      SkippedOne(m, j);
    }
  }

  lemma {:induction false} SkippedOne(m: string, j: nat)
    requires j < |m| && m[j] in " \t\r\n"
    ensures SemicolonNext(m, j) <==> SemicolonNext(m, j + 1)
  {
    if SemicolonNext(m, j) {
      var k :| j <= k < |m| && m[k] == ';' && forall b | j <= b < k :: m[b] in " \t\r\n";
      assert k != j;
    }
    if SemicolonNext(m, j + 1) {
      var k :| j + 1 <= k < |m| && m[k] == ';' && forall b | j + 1 <= b < k :: m[b] in " \t\r\n";
      assert forall b | j <= b < k :: m[b] in " \t\r\n";
    }
  }

  /** What the statement scan knows at `i`, `from` being where the last statement ended. */
  ghost predicate StmtsAre(g: Grammar, m: string, i: nat, from: nat, s: StmtScan)
    requires i <= |m|
  {
    && s.depth == Depth(m, i) && s.paren == Nesting(m, i) && SinceEnd(m, i, from)
    && Under(g, m, i, from, s.start, s.code)
    && forall st :: st in s.out <==> st.end <= i && IsStatement(g, m, st)
  }

  /** The statement under way, if there is one. */
  ghost predicate Under(g: Grammar, m: string, i: nat, from: nat, start: Option<nat>, code: bool)
    requires from <= i <= |m|
  {
    match start
    case None => Blank(m, from, i)
    case Some(st) => from <= st < i && Blank(m, from, st) && !Space(m[st]) && (code <==> HasBody(g, m, st, i))
  }

  lemma {:induction false} SinceEndNext(m: string, i: nat, from: nat)
    requires i < |m| && SinceEnd(m, i, from)
    ensures SinceEnd(m, i + 1, if Ends(m, i) then i + 1 else from)
  {
    hide Ends;
  }

  lemma {:induction false} BodyNext(g: Grammar, m: string, start: nat, i: nat)
    requires start <= i < |m|
    ensures HasBody(g, m, start, i + 1) <==> HasBody(g, m, start, i) || BodyAt(g, m, start, i)
  {
    hide BodyAt;
  }

  lemma {:induction false} OneSinceEnd(m: string, i: nat, from: nat, other: nat)
    requires i <= |m| && SinceEnd(m, i, from) && SinceEnd(m, i, other)
    ensures from == other
  {
    hide Ends;
  }

  /** The first character that is not blank is the start, wherever one looks for it. */
  lemma {:induction false} OneStart(m: string, from: nat, a: nat, b: nat)
    requires from <= a < |m| && from <= b < |m| && Blank(m, from, a) && Blank(m, from, b) && !Space(m[a]) && !Space(m[b])
    ensures a == b
  {
    hide Space;
  }

  /** Which statements end with the character at `i`. */
  lemma {:induction false} EndingAt(g: Grammar, m: string, i: nat, from: nat, start: nat, st: Stmt)
    requires i < |m| && SinceEnd(m, i, from) && from <= start <= i && Blank(m, from, start) && !Space(m[start])
    requires st.end == i + 1
    ensures IsStatement(g, m, st) <==> Ends(m, i) && st.start == start && (st.code <==> HasBody(g, m, start, i + 1))
  {
    hide Ends, HasBody, SinceEnd, Blank, Space;
    if IsStatement(g, m, st) {
      var other: nat :| SinceEnd(m, st.end - 1, other) && other <= st.start && Blank(m, other, st.start);
      OneSinceEnd(m, i, from, other);
      OneStart(m, from, start, st.start);
    }
  }

  /** A blank ends nothing. */
  lemma {:induction false} BlankStep(g: Grammar, m: string, i: nat, from: nat, s: StmtScan)
    requires i < |m| && StmtsAre(g, m, i, from, s) && s.start.None? && Space(m[i])
    ensures StmtsAre(g, m, i + 1, from, s)
  {
    hide IsStatement, Depth, Nesting;
    NestingNext(m, i);
    SinceEndNext(m, i, from);
    forall st: Stmt ensures st in s.out <==> st.end <= i + 1 && IsStatement(g, m, st) {
      if st.end == i + 1 && IsStatement(g, m, st) {
        EndIs(g, m, st);
      }
    }
  }

  lemma {:induction false} EndIs(g: Grammar, m: string, st: Stmt)
    requires IsStatement(g, m, st)
    ensures 0 < st.end <= |m| && (m[st.end - 1] == ';' || m[st.end - 1] == '}')
  {
  }

  /** One character of a statement that began at `start`. */
  lemma {:induction false} StmtStepTells(g: Grammar, m: string, i: nat, from: nat, start: nat, s: StmtScan)
      returns (from1: nat)
    requires i < |m| && s.depth == Depth(m, i) && s.paren == Nesting(m, i) && SinceEnd(m, i, from)
    requires from <= start <= i && Blank(m, from, start) && !Space(m[start])
    requires s.code <==> HasBody(g, m, start, i)
    requires forall st :: st in s.out <==> st.end <= i && IsStatement(g, m, st)
    ensures StmtsAre(g, m, i + 1, from1, StmtStep(g, m, i, start, s))
  {
    hide IsStatement, Depth, Nesting, SinceEnd, HasBody, SemicolonNext, Blank, Space;
    var r := StmtStep(g, m, i, start, s);
    NestingNext(m, i);
    SinceEndNext(m, i, from);
    BodyNext(g, m, start, i);
    SkipsTo(m, i + 1);
    MaxIs(start, i - 120);
    from1 := if Ends(m, i) then i + 1 else from;
    assert r.start.None? <==> Ends(m, i);
    NothingBlank(m, i + 1);
    forall st: Stmt ensures st in r.out <==> st.end <= i + 1 && IsStatement(g, m, st) {
      if st.end == i + 1 {
        EndingAt(g, m, i, from, start, st);
      }
    }
  }

  lemma {:induction false} MaxIs(a: nat, b: int)
    ensures Max(a, b) == if b > a then b else a
  {
  }

  lemma {:induction false} NothingBlank(m: string, i: nat)
    requires i <= |m|
    ensures Blank(m, i, i)
  {
  }

  lemma {:induction false} StmtsScan(g: Grammar, m: string, i: nat) returns (from: nat)
    requires i <= |m|
    ensures StmtsAre(g, m, i, from, StmtsTo(g, m, i))
    decreases i
  {
    hide StmtStep, IsStatement, Depth, Nesting, SinceEnd, HasBody, Blank, Space;
    if i == 0 {
      from := 0;
      StartStmts(g, m);
    } else {
      from := StmtsScan(g, m, i - 1);
      var s := StmtsTo(g, m, i - 1);
      if s.start.Some? {
        from := StmtStepTells(g, m, i - 1, from, s.start.value, s);
      } else if Space(m[i - 1]) {
        BlankStep(g, m, i - 1, from, s);
      } else {
        NoBody(g, m, i - 1);
        SinceEndFrom(m, i - 1, from);
        from := StmtStepTells(g, m, i - 1, from, i - 1, StmtScan(s.depth, s.paren, Some(i - 1), false, s.out));
      }
    }
  }

  lemma {:induction false} SinceEndFrom(m: string, i: nat, from: nat)
    requires i <= |m| && SinceEnd(m, i, from)
    ensures from <= i
  {
  }

  lemma {:induction false} NoBody(g: Grammar, m: string, i: nat)
    requires i <= |m|
    ensures !HasBody(g, m, i, i)
  {
  }

  lemma {:induction false} StartStmts(g: Grammar, m: string)
    ensures Depth(m, 0) == 0 && Nesting(m, 0) == 0 && SinceEnd(m, 0, 0) && Blank(m, 0, 0)
    ensures forall st: Stmt :: st.end <= 0 ==> !IsStatement(g, m, st)
  {
  }

  /** The statements found are exactly those of the text: from the first
      character after the last one to a `;` at file scope, or to the brace that
      closes its last block when no `;` follows; with a body if one opens in it. */
  lemma {:induction false} StatementsAre(g: Grammar, m: string, st: Stmt)
    ensures st in Statements(g, m) <==> IsStatement(g, m, st)
  {
    hide IsStatement, Depth, Nesting, SinceEnd, Under;
    var from := StmtsScan(g, m, |m|);
    if IsStatement(g, m, st) {
      EndIs(g, m, st);
    }
  }
}
