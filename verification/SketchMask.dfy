/** Blanking a sketch's comments, literals and preprocessor lines in place. */
module SketchMask {
  import opened Common

  // ---- where a region ends ------------------------------------------------

  function LineEnd(code: string, j: nat): (e: nat)
    requires j <= |code|
    ensures j <= e <= |code|
    ensures forall k | j <= k < e :: code[k] != '\n'
    ensures e < |code| ==> code[e] == '\n'
    decreases |code| - j
  {
    if j == |code| || code[j] == '\n' then j else LineEnd(code, j + 1)
  }

  /** A directive runs to a newline that no backslash precedes. */
  function DirectiveEnd(code: string, j: nat): (e: nat)
    requires j <= |code|
    ensures j <= e <= |code|
    decreases |code| - j
  {
    if j == |code| || (code[j] == '\n' && (j == 0 || code[j - 1] != '\\')) then j
    else DirectiveEnd(code, j + 1)
  }

  function CommentEnd(code: string, j: nat): (e: nat)
    requires j <= |code|
    ensures j <= e <= |code|
    decreases |code| - j
  {
    if j + 1 >= |code| then |code|
    else if code[j] == '*' && code[j + 1] == '/' then j + 2
    else CommentEnd(code, j + 1)
  }

  /** The closing quote, skipping escaped characters; past the end when there is none. */
  function ClosingQuote(code: string, j: nat, quote: char): (e: nat)
    requires j <= |code| + 1
    ensures j <= e <= |code| + 1
    decreases |code| + 1 - j
  {
    if j >= |code| || code[j] == quote then j
    else if code[j] == '\\' then ClosingQuote(code, j + 2, quote)
    else ClosingQuote(code, j + 1, quote)
  }

  // ---- regions ------------------------------------------------------------

  datatype Kind = Plain | Directive | LineComment | BlockComment | Literal

  predicate Opens(code: string, i: nat, second: char)
    requires i < |code|
  {
    code[i] == '/' && i + 1 < |code| && code[i + 1] == second
  }

  /** What starts at `i`; `bol` says that only blanks precede it on its line. */
  function KindAt(code: string, i: nat, bol: bool): Kind
    requires i < |code|
  {
    if bol && code[i] == '#' then Directive
    else if Opens(code, i, '/') then LineComment
    else if Opens(code, i, '*') then BlockComment
    else if code[i] == '"' || code[i] == '\'' then Literal
    else Plain
  }

  function RegionEnd(code: string, i: nat, bol: bool): (e: nat)
    requires i < |code|
    ensures i < e <= |code|
  {
    match KindAt(code, i, bol)
    case Plain => i + 1
    case Directive => assert code[i] != '\n'; DirectiveEnd(code, i + 1)
    case LineComment => LineEnd(code, i + 1)
    case BlockComment => CommentEnd(code, i + 2)
    case Literal => Min(ClosingQuote(code, i + 1, code[i]) + 1, |code|)
  }

  function StillBol(code: string, i: nat, bol: bool): bool
    requires i < |code|
  {
    match KindAt(code, i, bol)
    case Plain => if code[i] == '\n' then true else bol && Space(code[i])
    case Literal => false
    case _ => bol
  }

  function Blanked(c: char): char {
    if c == '\n' then c else ' '
  }

  /** What becomes of a region's characters: code stays, a literal keeps its two
      quotes, the rest goes blank. */
  function RegionChar(code: string, i: nat, bol: bool, k: nat): (c: char)
    requires i < |code| && i <= k < RegionEnd(code, i, bol)
  {
    match KindAt(code, i, bol)
    case Plain => code[k]
    case Literal => if i < k < RegionEnd(code, i, bol) - 1 then Blanked(code[k]) else code[k]
    case _ => Blanked(code[k])
  }

  function RegionText(code: string, i: nat, bol: bool): (r: string)
    requires i < |code|
    ensures |r| == RegionEnd(code, i, bol) - i
  {
    var e := RegionEnd(code, i, bol);
    seq(e - i, k requires 0 <= k < e - i => RegionChar(code, i, bol, i + k))
  }

  function MaskFrom(code: string, i: nat, bol: bool): (r: string)
    requires i <= |code|
    ensures |r| == |code| - i
    decreases |code| - i
  {
    if i == |code| then ""
    else RegionText(code, i, bol) + MaskFrom(code, RegionEnd(code, i, bol), StillBol(code, i, bol))
  }

  function Masked(code: string): (r: string)
    ensures |r| == |code|
  {
    MaskFrom(code, 0, true)
  }

  /** Reading region by region from `i`, a region starts at `p`. */
  predicate Reaches(code: string, i: nat, bol: bool, p: nat)
    requires i <= |code|
    decreases |code| - i
  {
    i == p || (i < |code| && i < p && Reaches(code, RegionEnd(code, i, bol), StillBol(code, i, bol), p))
  }

  /** `p` is not inside a comment, a literal or a directive. */
  predicate InCode(code: string, p: nat) {
    Reaches(code, 0, true, p)
  }

  // ---- what masking keeps -------------------------------------------------

  lemma {:induction false} RegionKeeps(code: string, i: nat, bol: bool, k: nat)
    requires i < |code| && i <= k < RegionEnd(code, i, bol)
    ensures var c := RegionText(code, i, bol)[k - i];
            (c == '\n' <==> code[k] == '\n') && (c == code[k] || c == ' ')
  {
    hide KindAt, RegionEnd;
    assert RegionText(code, i, bol)[k - i] == RegionChar(code, i, bol, k);
  }

  lemma {:induction false} MaskKeepsFrom(code: string, i: nat, bol: bool, k: nat)
    requires i <= k < |code|
    ensures var c := MaskFrom(code, i, bol)[k - i];
            (c == '\n' <==> code[k] == '\n') && (c == code[k] || c == ' ')
    decreases |code| - i
  {
    hide RegionText, RegionEnd, StillBol;
    var e := RegionEnd(code, i, bol);
    if k < e {
      RegionKeeps(code, i, bol, k);
    } else {
      MaskKeepsFrom(code, e, StillBol(code, i, bol), k);
    }
  }

  /** Masking keeps the length, every newline where it is, and every character it does not blank. */
  lemma {:induction false} MaskKeeps(code: string, k: nat)
    requires k < |code|
    ensures |Masked(code)| == |code|
    ensures Masked(code)[k] == '\n' <==> code[k] == '\n'
    ensures Masked(code)[k] == code[k] || Masked(code)[k] == ' '
  {
    hide MaskFrom;
    MaskKeepsFrom(code, 0, true, k);
  }

  // ---- in place -----------------------------------------------------------

  method BlankRange(out: array<char>, lo: nat, hi: nat)
    requires lo <= hi <= out.Length
    modifies out
    ensures forall m | lo <= m < hi :: out[m] == Blanked(old(out[m]))
    ensures forall m | 0 <= m < lo || hi <= m < out.Length :: out[m] == old(out[m])
  {
    for k := lo to hi
      invariant forall m | lo <= m < k :: out[m] == Blanked(old(out[m]))
      invariant forall m | 0 <= m < lo || k <= m < out.Length :: out[m] == old(out[m])
    {
      if out[k] != '\n' {
        out[k] := ' ';
      }
    }
  }

  method FindDirectiveEnd(code: string, i: nat) returns (j: nat)
    requires i < |code| && code[i] == '#'
    ensures j == DirectiveEnd(code, i + 1)
  {
    j := i;
    while j < |code| && !(code[j] == '\n' && code[j - 1] != '\\')
      invariant i <= j <= |code|
      invariant j == i || DirectiveEnd(code, j) == DirectiveEnd(code, i + 1)
    {
      j := j + 1;
    }
  }

  method FindClosingQuote(code: string, i: nat) returns (j: nat)
    requires i < |code|
    ensures j == ClosingQuote(code, i + 1, code[i])
  {
    j := i + 1;
    while j < |code| && code[j] != code[i]
      invariant j <= |code| + 1
      invariant ClosingQuote(code, j, code[i]) == ClosingQuote(code, i + 1, code[i])
    {
      j := j + if code[j] == '\\' then 2 else 1;
    }
  }

  /** One region's share of the masked text, and what remains. */
  lemma {:induction false} Advance(code: string, i: nat, bol: bool)
    requires i < |code| && Masked(code)[i..] == MaskFrom(code, i, bol)
    ensures var e := RegionEnd(code, i, bol);
            (forall k | i <= k < e :: Masked(code)[k] == RegionChar(code, i, bol, k))
            && Masked(code)[e..] == MaskFrom(code, e, StillBol(code, i, bol))
  {
    hide RegionChar, RegionEnd, StillBol, Masked;
    var e, text := RegionEnd(code, i, bol), RegionText(code, i, bol);
    var rest := MaskFrom(code, e, StillBol(code, i, bol));
    assert Masked(code)[i..] == text + rest;
    forall k | i <= k < e ensures Masked(code)[k] == RegionChar(code, i, bol, k) {
      assert Masked(code)[i..][k - i] == Masked(code)[k] == text[k - i];
    }
    assert Masked(code)[e..] == Masked(code)[i..][|text|..];
  }

  /** One round of the scan: blanks the region at `i` and steps past it. */
  method MaskRegion(out: array<char>, code: string, i: nat, lineStart: bool) returns (j: nat, stillStart: bool)
    requires i < |code| == out.Length
    requires forall k | i <= k < |code| :: out[k] == code[k]
    modifies out
    ensures j == RegionEnd(code, i, lineStart) && stillStart == StillBol(code, i, lineStart)
    ensures forall k | i <= k < j :: out[k] == RegionChar(code, i, lineStart, k)
    ensures forall k | 0 <= k < i || j <= k < |code| :: out[k] == old(out[k])
  {
    hide DirectiveEnd, LineEnd, CommentEnd, ClosingQuote;
    var n, c := |code|, code[i];
    stillStart := lineStart;
    if lineStart && c == '#' {
      j := FindDirectiveEnd(code, i);
      BlankRange(out, i, j);
      return;
    }
    if c == '/' && i + 1 < n && code[i + 1] == '/' {
      j := LineEnd(code, i + 1);
      BlankRange(out, i, j);
      return;
    }
    if c == '/' && i + 1 < n && code[i + 1] == '*' {
      j := CommentEnd(code, i + 2);
      BlankRange(out, i, j);
      return;
    }
    if c == '"' || c == '\'' {
      j := FindClosingQuote(code, i);
      j := Min(j + 1, n);
      if i + 1 < j {
        BlankRange(out, i + 1, j - 1);
      }
      stillStart := false;
      return;
    }
    if c == '\n' {
      stillStart := true;
    } else if !Space(c) {
      stillStart := false;
    }
    j := i + 1;
  }

  method Mask(code: string) returns (out: array<char>)
    ensures fresh(out) && out[..] == Masked(code)
  {
    hide Masked, MaskFrom, RegionEnd, RegionChar, StillBol;
    var n := |code|;
    out := new char[n](k requires 0 <= k < n => code[k]);
    var i, lineStart := 0, true;
    WholeMask(code);
    while i < n
      invariant 0 <= i <= n == out.Length && fresh(out)
      invariant forall k | 0 <= k < i :: out[k] == Masked(code)[k]
      invariant forall k | i <= k < n :: out[k] == code[k]
      invariant Masked(code)[i..] == MaskFrom(code, i, lineStart)
    {
      Advance(code, i, lineStart);
      i, lineStart := MaskRegion(out, code, i, lineStart);
    }
  }

  lemma {:induction false} WholeMask(code: string)
    ensures Masked(code)[0..] == MaskFrom(code, 0, true)
  {
  }
}
