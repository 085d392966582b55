/** When the masking and a compiler agree on which lines are code. */
module MaskReading {
  import opened Common
  import opened SketchMask
  import C = CppReader

  function LexAt(code: string, k: nat): C.Lex
    requires k <= |code|
  {
    C.LexRead(code[..k], C.REST)
  }

  lemma {:induction false} LexLater(code: string, i: nat, k: nat)
    requires i <= k <= |code|
    ensures LexAt(code, k) == C.LexRead(code[i..k], LexAt(code, i))
  {
    assert code[..k] == code[..i] + code[i..k];
    C.LexConcat(code[..i], code[i..k], C.REST);
  }

  lemma {:induction false} LexNext(code: string, k: nat)
    requires k < |code|
    ensures LexAt(code, k + 1) == C.LexStep(LexAt(code, k), code[k])
  {
    LexLater(code, k, k + 1);
    assert code[k..k + 1] == [code[k]];
    C.LexOne(code[k], LexAt(code, k));
  }

  predicate WordChar(c: char) {
    C.Letter(c) || C.Digit(c)
  }

  // ---- tame regions -------------------------------------------------------

  /** A literal that closes on its own line and has no prefix. */
  predicate TameLiteral(code: string, i: nat, e: nat)
    requires i < e <= |code|
  {
    ClosingQuote(code, i + 1, code[i]) < |code| && (i > 0 ==> !WordChar(code[i - 1]))
    && forall k | i <= k < e :: code[k] != '\n'
  }

  /** A comment that closes, without spliced lines. */
  predicate TameComment(code: string, i: nat, e: nat)
    requires i < e <= |code|
  {
    i + 4 <= e && code[e - 2] == '*' && code[e - 1] == '/'
    && forall k | i <= k < e - 1 :: !(code[k] == '\\' && code[k + 1] == '\n')
  }

  /** What the two readings take alike: no spliced code, no directive that leaves
      a comment or a raw string open, literals on one line, closed comments. */
  predicate TameRegion(code: string, i: nat, bol: bool)
    requires i < |code|
  {
    var e := RegionEnd(code, i, bol);
    match KindAt(code, i, bol)
    case Plain => code[i] != '\\'
    case Directive => C.LineEnds(C.LexRead(code[i..e], C.REST)) && code[e - 1] != '\n'
    case LineComment => code[e - 1] != '\\'
    case BlockComment => TameComment(code, i, e)
    case Literal => TameLiteral(code, i, e)
  }

  predicate Tame(code: string, i: nat, bol: bool)
    requires i <= |code|
    decreases |code| - i
  {
    i < |code| ==> TameRegion(code, i, bol) && Tame(code, RegionEnd(code, i, bol), StillBol(code, i, bol))
  }

  /** Where the compiler stands when the masking starts a region at `i`. */
  predicate Together(code: string, i: nat, bol: bool)
    requires i <= |code|
  {
    var l := LexAt(code, i);
    !l.pending
    && (i > 0 && code[i - 1] == '\n' ==> bol)
    && ((l.mode.Plain? && (if bol then l == C.REST else l.kind.Text?)
         && (l.word != "" ==> i > 0 && WordChar(code[i - 1])))
        || (l.mode.Slash? && !bol && !l.kind.Directive? && (i < |code| ==> code[i] != '/' && code[i] != '*')
            && i > 0 && code[i - 1] == '/')
        || (C.LineEnds(l) && (i < |code| ==> code[i] == '\n') && (i > 0 ==> code[i - 1] != '\n')))
  }

  lemma {:induction false} PlainTogether(code: string, i: nat, bol: bool)
    requires i < |code| && Together(code, i, bol) && KindAt(code, i, bol) == Plain && TameRegion(code, i, bol)
    ensures Together(code, i + 1, StillBol(code, i, bol))
  {
    hide LexAt;
    LexNext(code, i);
  }

  // ---- directives ---------------------------------------------------------

  lemma {:induction false} DirectiveNewlines(code: string, j: nat, k: nat)
    requires j <= |code| && 0 < j <= k < DirectiveEnd(code, j)
    ensures code[k] == '\n' ==> code[k - 1] == '\\'
    decreases k - j
  {
    if j < k {
      DirectiveNewlines(code, j + 1, k);
    }
  }

  lemma {:induction false} AfterBackslash(l: C.Lex)
    ensures var r := C.LexStep(l, '\\'); r.pending || r.mode.Raw?
    ensures l.kind.Directive? ==> C.LexStep(l, '\\').kind.Directive?
  {
  }

  lemma {:induction false} StaysDirective(l: C.Lex, c: char)
    requires l.kind.Directive? && (c == '\n' ==> l.pending || l.mode.Raw?)
    ensures C.LexStep(l, c).kind.Directive?
  {
  }

  /** All through a directive's region the line is a directive's. */
  lemma {:induction false} InDirective(code: string, i: nat, k: nat)
    requires i < |code| && KindAt(code, i, true) == Directive && LexAt(code, i) == C.REST
    requires i < k <= RegionEnd(code, i, true)
    ensures LexAt(code, k).kind.Directive?
    ensures code[k - 1] == '\\' ==> LexAt(code, k).pending || LexAt(code, k).mode.Raw?
    decreases k
  {
    hide LexAt, C.LexStep, DirectiveEnd;
    LexNext(code, k - 1);
    if k == i + 1 {
      C.FirstHash();
    } else {
      InDirective(code, i, k - 1);
      DirectiveNewlines(code, i + 1, k - 1);
      AfterBackslash(LexAt(code, k - 1));
      StaysDirective(LexAt(code, k - 1), code[k - 1]);
    }
  }

  lemma {:induction false} DirectiveTogether(code: string, i: nat, bol: bool)
    requires i < |code| && Together(code, i, bol) && KindAt(code, i, bol) == Directive && TameRegion(code, i, bol)
    ensures LexAt(code, i) == C.REST
    ensures Together(code, RegionEnd(code, i, bol), bol)
  {
    hide LexAt, C.LexRead;
    var e := RegionEnd(code, i, bol);
    LexLater(code, i, e);
    DirectiveStops(code, i + 1);
  }

  lemma {:induction false} DirectiveStops(code: string, j: nat)
    requires j <= |code|
    ensures DirectiveEnd(code, j) < |code| ==> code[DirectiveEnd(code, j)] == '\n'
    decreases |code| - j
  {
    if j < |code| && !(code[j] == '\n' && (j == 0 || code[j - 1] != '\\')) {
      DirectiveStops(code, j + 1);
    }
  }

  // ---- line comments ------------------------------------------------------

  lemma {:induction false} InLineComment(code: string, i: nat, e: nat, k: nat)
    requires i + 2 <= k <= e <= |code| && LexAt(code, i + 2).mode.LineComment? && !LexAt(code, i + 2).pending
    requires forall m | i <= m < e :: code[m] != '\n'
    ensures var l := LexAt(code, k); l.mode.LineComment? && (l.pending ==> code[k - 1] == '\\')
    decreases k
  {
    hide LexAt;
    if k > i + 2 {
      InLineComment(code, i, e, k - 1);
      LexNext(code, k - 1);
    }
  }

  lemma {:induction false} CommentOpens(code: string, i: nat, bol: bool)
    requires i < |code| && Together(code, i, bol) && TameRegion(code, i, bol)
    requires KindAt(code, i, bol) == LineComment || KindAt(code, i, bol) == BlockComment
    ensures i + 2 <= |code|
    ensures var l := LexAt(code, i + 2);
            !l.pending && l.word == "" && (if bol then l.kind.Blank? else l.kind.Text?)
            && if code[i + 1] == '/' then l.mode.LineComment? else l.mode.Block?
  {
    hide LexAt;
    LexNext(code, i);
    LexNext(code, i + 1);
  }

  lemma {:induction false} LineCommentTogether(code: string, i: nat, bol: bool)
    requires i < |code| && Together(code, i, bol) && KindAt(code, i, bol) == LineComment && TameRegion(code, i, bol)
    ensures Together(code, RegionEnd(code, i, bol), bol)
  {
    hide LexAt;
    var e := RegionEnd(code, i, bol);
    CommentOpens(code, i, bol);
    assert forall m | i <= m < e :: code[m] != '\n';
    InLineComment(code, i, e, e);
  }

  // ---- block comments -----------------------------------------------------

  lemma {:induction false} FirstClose(code: string, j: nat, k: nat)
    requires j <= |code| && j <= k && k + 2 < CommentEnd(code, j)
    ensures !(code[k] == '*' && code[k + 1] == '/')
    decreases k - j
  {
    if j < k {
      FirstClose(code, j + 1, k);
    }
  }

  predicate InBlock(l: C.Lex, kind: C.Kind) {
    (l.mode.Block? || l.mode.BlockStar?) && l.kind == kind && l.word == ""
  }

  lemma {:induction false} BlockStep(l: C.Lex, c: char, kind: C.Kind)
    requires InBlock(l, kind) && (l.pending ==> c != '\n') && (l.mode.BlockStar? && !l.pending ==> c != '/')
    ensures var r := C.LexStep(l, c);
            InBlock(r, kind) && (r.pending ==> c == '\\') && (r.mode.BlockStar? && !r.pending ==> c == '*')
  {
  }

  /** All through a block comment's region the compiler is in the comment too. */
  lemma {:induction false} InBlockComment(code: string, i: nat, e: nat, kind: C.Kind, k: nat)
    requires i + 2 <= k < e <= |code| && e == CommentEnd(code, i + 2) && TameComment(code, i, e)
    requires InBlock(LexAt(code, i + 2), kind) && LexAt(code, i + 2).mode.Block? && !LexAt(code, i + 2).pending
    ensures var l := LexAt(code, k);
            InBlock(l, kind) && (l.pending ==> code[k - 1] == '\\')
            && (l.mode.BlockStar? && !l.pending ==> k > i + 2 && code[k - 1] == '*')
    decreases k
  {
    hide LexAt, C.LexStep, CommentEnd;
    if k > i + 2 {
      InBlockComment(code, i, e, kind, k - 1);
      LexNext(code, k - 1);
      if k > i + 3 {
        FirstClose(code, i + 2, k - 2);
      }
      BlockStep(LexAt(code, k - 1), code[k - 1], kind);
    }
  }

  lemma {:induction false} BlockCloses(l: C.Lex, kind: C.Kind)
    requires InBlock(l, kind)
    ensures var r := C.LexStep(C.LexStep(l, '*'), '/'); r == C.Lex(C.Plain, kind, "", false)
  {
  }

  lemma {:induction false} BlockTogether(code: string, i: nat, bol: bool)
    requires i < |code| && Together(code, i, bol) && KindAt(code, i, bol) == BlockComment && TameRegion(code, i, bol)
    ensures Together(code, RegionEnd(code, i, bol), bol)
  {
    hide LexAt, C.LexStep, CommentEnd;
    var e := RegionEnd(code, i, bol);
    CommentOpens(code, i, bol);
    var kind := LexAt(code, i + 2).kind;
    InBlockComment(code, i, e, kind, e - 2);
    LexNext(code, e - 2);
    LexNext(code, e - 1);
    BlockCloses(LexAt(code, e - 2), kind);
  }

  // ---- literals -----------------------------------------------------------

  predicate InLiteral(l: C.Lex, q: char) {
    l.kind.Text? && l.word == ""
    && ((l.mode == C.Quoted(q) && !l.pending) || (l.mode == C.Escape(q) && l.pending))
  }

  lemma {:induction false} LiteralReads(code: string, j: nat, q: char)
    requires j <= |code| && ClosingQuote(code, j, q) < |code| && (q == '"' || q == '\'')
    requires InLiteral(LexAt(code, j), q)
    requires forall k | j <= k < ClosingQuote(code, j, q) :: code[k] != '\n'
    ensures InLiteral(LexAt(code, ClosingQuote(code, j, q)), q) && code[ClosingQuote(code, j, q)] == q
    decreases |code| - j
  {
    hide LexAt;
    if code[j] != q {
      LexNext(code, j);
      if code[j] == '\\' {
        LexNext(code, j + 1);
        LiteralReads(code, j + 2, q);
      } else {
        LiteralReads(code, j + 1, q);
      }
    }
  }

  lemma {:induction false} LiteralTogether(code: string, i: nat, bol: bool)
    requires i < |code| && Together(code, i, bol) && KindAt(code, i, bol) == Literal && TameRegion(code, i, bol)
    ensures Together(code, RegionEnd(code, i, bol), false)
  {
    hide LexAt, ClosingQuote;
    var q, e := code[i], RegionEnd(code, i, bol);
    LexNext(code, i);
    LiteralOpens(LexAt(code, i), q, bol);
    LiteralReads(code, i + 1, q);
    LexNext(code, e - 1);
  }

  lemma {:induction false} LiteralOpens(l: C.Lex, q: char, bol: bool)
    requires (q == '"' || q == '\'') && !l.pending
    requires (l.mode.Plain? && (if bol then l == C.REST else l.kind.Text?) && l.word == "")
             || (l.mode.Slash? && !l.kind.Directive?)
    ensures InLiteral(C.LexStep(l, q), q)
  {
  }

  // ---- the two readings ---------------------------------------------------

  lemma {:induction false} NextTogether(code: string, i: nat, bol: bool)
    requires i < |code| && Together(code, i, bol) && TameRegion(code, i, bol)
    ensures Together(code, RegionEnd(code, i, bol), StillBol(code, i, bol))
  {
    hide Together, TameRegion, KindAt;
    match KindAt(code, i, bol)
    case Plain => PlainTogether(code, i, bol);
    case Directive => DirectiveTogether(code, i, bol);
    case LineComment => LineCommentTogether(code, i, bol);
    case BlockComment => BlockTogether(code, i, bol);
    case Literal => LiteralTogether(code, i, bol);
  }

  /** Inside a region no line starts afresh for the compiler either. */
  lemma {:induction false} WithinRegion(code: string, i: nat, bol: bool, p: nat)
    requires i < |code| && Together(code, i, bol) && TameRegion(code, i, bol)
    requires i < p < RegionEnd(code, i, bol) && code[p - 1] == '\n'
    ensures LexAt(code, p) != C.REST
  {
    hide LexAt, Together;
    match KindAt(code, i, bol)
    case Directive =>
      DirectiveTogether(code, i, bol);
      InDirective(code, i, p);
    case BlockComment =>
      CommentOpens(code, i, bol);
      InBlockComment(code, i, RegionEnd(code, i, bol), LexAt(code, i + 2).kind, p);
    case _ =>
  }

  lemma {:induction false} AtStart(code: string)
    ensures LexAt(code, 0) == C.REST
  {
  }

  lemma {:induction false} AgreeFrom(code: string, i: nat, bol: bool, p: nat)
    requires i <= p < |code| && Tame(code, i, bol) && Together(code, i, bol)
    requires p > 0 ==> code[p - 1] == '\n'
    requires p == 0 ==> bol
    ensures Reaches(code, i, bol, p) <==> LexAt(code, p) == C.REST
    decreases |code| - i
  {
    hide RegionEnd, StillBol, LexAt, TameRegion;
    AtStart(code);
    if i < p {
      var e, still := RegionEnd(code, i, bol), StillBol(code, i, bol);
      if p < e {
        WithinRegion(code, i, bol, p);
      } else {
        NextTogether(code, i, bol);
        AgreeFrom(code, e, still, p);
      }
    }
  }

  /** In a tame sketch a line start is code for the masking exactly when the
      compiler is at rest there, outside every comment, literal and directive. */
  lemma {:induction false} MaskAgrees(code: string, p: nat)
    requires p < |code| && Tame(code, 0, true) && (p > 0 ==> code[p - 1] == '\n')
    ensures InCode(code, p) <==> LexAt(code, p) == C.REST
  {
    AtStart(code);
    AgreeFrom(code, 0, true, p);
  }
}
