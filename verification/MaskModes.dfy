/** The masking told one character at a time, with nothing but what has been
    read and the next character to go by. */
module MaskModes {
  import opened Common
  import opened SketchMask

  /** What a character is part of; `bol` says that its line has been blank so far. */
  datatype Mode =
    | Code(bol: bool)
    | DirectiveText
    | LineText(bol: bool)
    | Star(bol: bool)            // the `*` that opens a comment
    | BlockText(bol: bool)
    | Slash(bol: bool)           // the `/` that closes one
    | LiteralText(quote: char)
    | Escaped(quote: char)

  /** Whether `second` comes after the character at `k`. */
  predicate Before(code: string, k: nat, second: char) {
    k + 1 < |code| && code[k + 1] == second
  }

  /** A line comment stops short of the newline, and so does a directive unless
      a backslash stands before it. */
  function Here(m: Mode, code: string, k: nat): Mode
    requires k < |code|
  {
    if code[k] != '\n' then m
    else if m.LineText? then Code(m.bol)
    else if m.DirectiveText? && k > 0 && code[k - 1] != '\\' then Code(true)
    else m
  }

  function Next(m: Mode, code: string, k: nat): Mode
    requires k < |code|
  {
    var c := code[k];
    match Here(m, code, k)
    case Code(bol) =>
      if bol && c == '#' then DirectiveText
      else if c == '/' && Before(code, k, '/') then LineText(bol)
      else if c == '/' && Before(code, k, '*') then Star(bol)
      else if c == '"' || c == '\'' then LiteralText(c)
      else Code(c == '\n' || (bol && Space(c)))
    case DirectiveText => DirectiveText
    case LineText(bol) => LineText(bol)
    case Star(bol) => BlockText(bol)
    case BlockText(bol) => if c == '*' && Before(code, k, '/') then Slash(bol) else BlockText(bol)
    case Slash(bol) => Code(bol)
    case LiteralText(q) => if c == q then Code(false) else if c == '\\' then Escaped(q) else LiteralText(q)
    case Escaped(q) => LiteralText(q)
  }

  function ModeAt(code: string, k: nat): Mode
    requires k <= |code|
  {
    if k == 0 then Code(true) else Next(ModeAt(code, k - 1), code, k - 1)
  }

  /** Code stays, save for what opens a comment or a directive; so do the two
      quotes of a literal, and its last character if the text ends inside it. */
  predicate Stays(m: Mode, code: string, k: nat)
    requires k < |code|
  {
    match Here(m, code, k)
    case Code(bol) =>
      !(bol && code[k] == '#') && !(code[k] == '/' && (Before(code, k, '/') || Before(code, k, '*')))
    case LiteralText(q) => code[k] == q || k + 1 == |code|
    case Escaped(_) => k + 1 == |code|
    case _ => false
  }

  /** Between regions the mode is code. */
  predicate AtRegion(code: string, i: nat, bol: bool)
    requires i <= |code|
  {
    i < |code| ==> Here(ModeAt(code, i), code, i) == Code(bol)
  }

  predicate InRegion(code: string, i: nat, bol: bool, k: nat)
    requires i < |code| && i <= k < RegionEnd(code, i, bol)
  {
    RegionChar(code, i, bol, k) == if Stays(ModeAt(code, k), code, k) then code[k] else Blanked(code[k])
  }

  lemma {:induction false} ModeNext(code: string, k: nat)
    requires k < |code|
    ensures ModeAt(code, k + 1) == Next(ModeAt(code, k), code, k)
  {
  }

  // ---- region by region ---------------------------------------------------

  lemma {:induction false} DirectiveModes(code: string, j: nat, k: nat)
    requires 0 < j <= |code| && j <= k <= DirectiveEnd(code, j) && ModeAt(code, j) == DirectiveText
    ensures ModeAt(code, k) == DirectiveText
    ensures k < |code| ==> Here(DirectiveText, code, k) == if k < DirectiveEnd(code, j) then DirectiveText else Code(true)
    decreases k
  {
    hide ModeAt;
    if k < |code| {
      DirectiveStop(code, j, k);
    }
    if j < k {
      DirectiveModes(code, j, k - 1);
      ModeNext(code, k - 1);
    }
  }

  lemma {:induction false} DirectiveStop(code: string, j: nat, k: nat)
    requires 0 < j <= |code| && j <= k <= DirectiveEnd(code, j) && k < |code|
    ensures k == DirectiveEnd(code, j) <==> code[k] == '\n' && code[k - 1] != '\\'
    decreases k - j
  {
    if j < k {
      DirectiveStop(code, j + 1, k);
    }
  }

  lemma {:induction false} LineModes(code: string, j: nat, bol: bool, k: nat)
    requires j <= |code| && j <= k <= LineEnd(code, j) && ModeAt(code, j) == LineText(bol)
    ensures ModeAt(code, k) == LineText(bol)
    decreases k
  {
    hide ModeAt;
    if j < k {
      LineModes(code, j, bol, k - 1);
      ModeNext(code, k - 1);
    }
  }

  /** `*` and `/` stand at `k` and after it. */
  predicate Pair(code: string, k: nat) {
    k < |code| && code[k] == '*' && Before(code, k, '/')
  }

  lemma {:induction false} CommentStop(code: string, j: nat)
    requires j <= |code|
    ensures forall k | j <= k && k + 2 < CommentEnd(code, j) :: !Pair(code, k)
    ensures CommentEnd(code, j) < |code| ==> j + 2 <= CommentEnd(code, j) && Pair(code, CommentEnd(code, j) - 2)
    decreases |code| - j
  {
    if j < CommentEnd(code, j) && !Pair(code, j) && j + 1 < |code| {
      CommentStop(code, j + 1);
    }
  }

  lemma {:induction false} BlockModes(code: string, j: nat, bol: bool, k: nat)
    requires j <= |code| && j <= k < CommentEnd(code, j) && ModeAt(code, j) == BlockText(bol)
    ensures ModeAt(code, k) == if k > j && Pair(code, k - 1) then Slash(bol) else BlockText(bol)
    decreases k
  {
    hide ModeAt, CommentEnd;
    if j < k {
      CommentStop(code, j);
      BlockModes(code, j, bol, k - 1);
      ModeNext(code, k - 1);
    }
  }

  predicate Within(m: Mode, q: char, c: char) {
    m == Escaped(q) || (m == LiteralText(q) && c != q)
  }

  lemma {:induction false} LiteralModes(code: string, j: nat, q: char)
    requires j <= |code| && ModeAt(code, j) == LiteralText(q)
    ensures var e := ClosingQuote(code, j, q);
            && (forall k | j <= k < |code| && k < e :: Within(ModeAt(code, k), q, code[k]))
            && (e < |code| ==> ModeAt(code, e) == LiteralText(q) && code[e] == q)
    decreases |code| - j
  {
    hide ModeAt;
    if j < |code| && code[j] != q {
      ModeNext(code, j);
      if code[j] != '\\' {
        LiteralModes(code, j + 1, q);
      } else if j + 1 < |code| {
        ModeNext(code, j + 1);
        LiteralModes(code, j + 2, q);
      }
    }
  }

  // ---- each region --------------------------------------------------------

  /** A region ends in code, and its characters are told apart rightly. */
  ghost predicate Told(code: string, i: nat, bol: bool)
    requires i < |code|
  {
    var e := RegionEnd(code, i, bol);
    AtRegion(code, e, StillBol(code, i, bol)) && forall k | i <= k < e :: InRegion(code, i, bol, k)
  }

  lemma {:induction false} PlainTold(code: string, i: nat, bol: bool)
    requires i < |code| && AtRegion(code, i, bol) && KindAt(code, i, bol) == Plain
    ensures Told(code, i, bol)
  {
    hide ModeAt;
    ModeNext(code, i);
  }

  lemma {:induction false} DirectiveTold(code: string, i: nat, bol: bool)
    requires i < |code| && AtRegion(code, i, bol) && KindAt(code, i, bol) == Directive
    ensures Told(code, i, bol)
  {
    hide ModeAt, DirectiveEnd;
    ModeNext(code, i);
    var e := RegionEnd(code, i, bol);
    forall k | i < k <= e
      ensures ModeAt(code, k) == DirectiveText
      ensures k < |code| ==> Here(DirectiveText, code, k) == if k < e then DirectiveText else Code(true) {
      DirectiveModes(code, i + 1, k);
    }
  }

  lemma {:induction false} LineTold(code: string, i: nat, bol: bool)
    requires i < |code| && AtRegion(code, i, bol) && KindAt(code, i, bol) == LineComment
    ensures Told(code, i, bol)
  {
    hide ModeAt, LineEnd;
    ModeNext(code, i);
    var e := RegionEnd(code, i, bol);
    forall k | i < k <= e ensures ModeAt(code, k) == LineText(bol) {
      LineModes(code, i + 1, bol, k);
    }
  }

  lemma {:induction false} BlockTold(code: string, i: nat, bol: bool)
    requires i < |code| && AtRegion(code, i, bol) && KindAt(code, i, bol) == BlockComment
    ensures Told(code, i, bol)
  {
    hide ModeAt, CommentEnd;
    ModeNext(code, i);
    ModeNext(code, i + 1);
    var e := RegionEnd(code, i, bol);
    forall k | i + 2 <= k < e
      ensures ModeAt(code, k) == if k > i + 2 && Pair(code, k - 1) then Slash(bol) else BlockText(bol) {
      BlockModes(code, i + 2, bol, k);
    }
    CommentStop(code, i + 2);
    if e < |code| {
      ModeNext(code, e - 2);
      ModeNext(code, e - 1);
    }
  }

  lemma {:induction false} LiteralTold(code: string, i: nat, bol: bool)
    requires i < |code| && AtRegion(code, i, bol) && KindAt(code, i, bol) == Literal
    ensures Told(code, i, bol)
  {
    hide ModeAt, ClosingQuote;
    ModeNext(code, i);
    LiteralModes(code, i + 1, code[i]);
    var e := ClosingQuote(code, i + 1, code[i]);
    if e < |code| {
      ModeNext(code, e);
    }
    forall k | i <= k < RegionEnd(code, i, bol) ensures InRegion(code, i, bol, k) {
      if i < k < e {
        assert Within(ModeAt(code, k), code[i], code[k]);
      }
    }
  }

  lemma {:induction false} RegionTold(code: string, i: nat, bol: bool)
    requires i < |code| && AtRegion(code, i, bol)
    ensures Told(code, i, bol)
  {
    hide Told, AtRegion;
    match KindAt(code, i, bol)
    case Plain => PlainTold(code, i, bol);
    case Directive => DirectiveTold(code, i, bol);
    case LineComment => LineTold(code, i, bol);
    case BlockComment => BlockTold(code, i, bol);
    case Literal => LiteralTold(code, i, bol);
  }

  lemma {:induction false} MaskFromIs(code: string, i: nat, bol: bool, k: nat)
    requires i <= k < |code| && AtRegion(code, i, bol)
    ensures MaskFrom(code, i, bol)[k - i] == if Stays(ModeAt(code, k), code, k) then code[k] else Blanked(code[k])
    decreases |code| - i
  {
    hide RegionEnd, StillBol, AtRegion, ModeAt, RegionChar, Stays;
    RegionTold(code, i, bol);
    var e := RegionEnd(code, i, bol);
    if k < e {
      assert InRegion(code, i, bol, k);
    } else {
      MaskFromIs(code, e, StillBol(code, i, bol), k);
    }
  }

  /** The region-by-region masking blanks exactly the characters that reading one
      at a time finds in comments, directives and inside literals. */
  lemma {:induction false} MaskIs(code: string, k: nat)
    requires k < |code|
    ensures Masked(code)[k] == if Stays(ModeAt(code, k), code, k) then code[k] else Blanked(code[k])
  {
    hide ModeAt, Stays, MaskFrom;
    StartsInCode(code);
    MaskFromIs(code, 0, true, k);
  }

  lemma {:induction false} StartsInCode(code: string)
    ensures AtRegion(code, 0, true)
  {
  }
}
