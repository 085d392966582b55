/** What the indentation parser makes of the indents: only their order counts, and
    exactly which lines it refuses. */
module Indentation {
  import opened Script
  import opened Blocks

  // ---- any widths ---------------------------------------------------------

  ghost predicate Increasing(f: nat -> nat) {
    forall a: nat, b: nat | a < b :: f(a) < f(b)
  }

  function Reindent(f: nat -> nat, lines: seq<Line>): (r: seq<Line>)
    ensures |r| == |lines|
  {
    if lines == [] then [] else [Line(f(lines[0].indent), lines[0].text)] + Reindent(f, lines[1..])
  }

  function Reindented(f: nat -> nat, p: Parsed): Parsed {
    if p.Ok? then Ok(p.body, Reindent(f, p.rest)) else Bad
  }

  lemma {:induction false} SameOrder(f: nat -> nat, a: nat, b: nat)
    requires Increasing(f)
    ensures a <= b <==> f(a) <= f(b)
    ensures a == b <==> f(a) == f(b)
  {
  }

  lemma {:induction false} EndsSame(f: nat -> nat, lines: seq<Line>, parent: nat)
    requires Increasing(f)
    ensures Ends(Reindent(f, lines), f(parent)) <==> Ends(lines, parent)
  {
    if lines != [] {
      SameOrder(f, lines[0].indent, parent);
    }
  }

  lemma {:induction false} FirstOf(f: nat -> nat, lines: seq<Line>)
    requires lines != []
    ensures Reindent(f, lines)[0] == Line(f(lines[0].indent), lines[0].text)
    ensures Reindent(f, lines)[1..] == Reindent(f, lines[1..])
  {
  }

  lemma {:induction false} ConsSame(f: nat -> nat, s: Stmt, p: Parsed)
    ensures Reindented(f, Cons(s, p)) == Cons(s, Reindented(f, p))
  {
  }

  lemma {:induction false} ItemsSame(f: nat -> nat, lines: seq<Line>, parent: nat, indent: nat)
    requires Increasing(f)
    ensures ParseItems(Reindent(f, lines), f(parent), f(indent)) == Reindented(f, ParseItems(lines, parent, indent))
    decreases |lines|, 1
  {
    hide Increasing, Reindent, ParseBlock, ParseElse;
    EndsSame(f, lines, parent);
    if !Ends(lines, parent) {
      FirstOf(f, lines);
      SameOrder(f, lines[0].indent, indent);
      if lines[0].indent == indent {
        FirstItemSame(f, lines, parent, indent);
      }
    }
  }

  lemma {:induction false} FirstItemSame(f: nat -> nat, lines: seq<Line>, parent: nat, indent: nat)
    requires Increasing(f) && !Ends(lines, parent) && lines[0].indent == indent
    ensures ParseItems(Reindent(f, lines), f(parent), f(indent)) == Reindented(f, ParseItems(lines, parent, indent))
    decreases |lines|, 0
  {
    hide Increasing, Reindent, ParseBlock, ParseElse;
    EndsSame(f, lines, parent);
    FirstOf(f, lines);
    var rest, text := lines[1..], lines[0].text;
    if text.Leaf? {
      ItemsSame(f, rest, parent, indent);
    } else if text.ElseHead? {
    } else {
      BlockSame(f, rest, indent);
      var inner := ParseBlock(rest, indent);
      if inner.Ok? {
        if text.IfHead? {
          ElseSame(f, inner.rest, indent);
          var other := ParseElse(inner.rest, indent);
          if other.Ok? {
            ItemsSame(f, other.rest, parent, indent);
          }
        } else {
          ItemsSame(f, inner.rest, parent, indent);
        }
      }
    }
  }

  lemma {:induction false} ElseSame(f: nat -> nat, lines: seq<Line>, indent: nat)
    requires Increasing(f)
    ensures ParseElse(Reindent(f, lines), f(indent)) == Reindented(f, ParseElse(lines, indent))
    decreases |lines|, 3
  {
    hide Increasing, Reindent, ParseBlock;
    if lines != [] {
      FirstOf(f, lines);
      SameOrder(f, lines[0].indent, indent);
      BlockSame(f, lines[1..], indent);
    }
  }

  /** Parsing lines whose indents are mapped by anything that keeps their order
      gives the same statements from the same lines. */
  lemma {:induction false} BlockSame(f: nat -> nat, lines: seq<Line>, parent: nat)
    requires Increasing(f)
    ensures ParseBlock(Reindent(f, lines), f(parent)) == Reindented(f, ParseBlock(lines, parent))
    decreases |lines|, 2
  {
    hide Increasing, Reindent, ParseItems;
    EndsSame(f, lines, parent);
    if !Ends(lines, parent) {
      FirstOf(f, lines);
      ItemsSame(f, lines, parent, lines[0].indent);
    }
  }

  // ---- which lines are refused --------------------------------------------

  predicate IsHead(text: Text) {
    !text.Leaf?
  }

  /** Line `b` is the first since the last line less indented than line `k`. */
  predicate BlockStart(lines: seq<Line>, k: nat, b: nat)
    requires k < |lines|
  {
    b <= k && (forall j | b <= j < k :: lines[j].indent >= lines[k].indent)
    && (b == 0 || lines[b - 1].indent < lines[k].indent)
  }

  /** Line `k` is indented as the first line of its block, and only a head has a
      block under it. */
  predicate Aligned(lines: seq<Line>, k: nat)
    requires k < |lines|
  {
    forall b | 0 <= b <= k && BlockStart(lines, k, b) ::
      lines[b].indent == lines[k].indent && (0 < b == k ==> IsHead(lines[k - 1].text))
  }

  /** An ELSE closes an IF: the last line at its indent, with only deeper ones between. */
  predicate Matched(lines: seq<Line>, k: nat)
    requires k < |lines|
  {
    lines[k].text.ElseHead? ==>
      exists j | 0 <= j < k :: lines[j].indent == lines[k].indent && lines[j].text.IfHead?
                               && forall m | j < m < k :: lines[m].indent > lines[k].indent
  }

  predicate AllFine(lines: seq<Line>, a: nat, b: nat)
    requires b <= |lines|
  {
    forall k | a <= k < b :: Aligned(lines, k) && Matched(lines, k)
  }

  /** The lines from `s` to `e` are all that is deeper than `d`. */
  predicate Extent(lines: seq<Line>, s: nat, e: nat, d: nat) {
    s <= e <= |lines| && (forall k | s <= k < e :: lines[k].indent > d) && (e < |lines| ==> lines[e].indent <= d)
  }

  /** What stands over a block: nothing, or a head at `d`. */
  predicate Under(lines: seq<Line>, s: nat, d: nat) {
    0 < s <= |lines| ==> lines[s - 1].indent == d && IsHead(lines[s - 1].text)
  }

  /** Between two statements of the block that begins at `s`. */
  ghost predicate Between(lines: seq<Line>, s: nat, i: nat, e: nat, d: nat)
  {
    && Extent(lines, s, e, d) && Under(lines, s, d) && s < e && s <= i <= e
    && (forall k | s <= k < i :: lines[k].indent >= lines[s].indent)
    && (s < i < e && lines[i].indent > lines[s].indent ==>
          lines[i - 1].indent == lines[s].indent && lines[i - 1].text.Leaf?)
    && (i < e && lines[i] == Line(lines[s].indent, ElseHead) ==> !Matched(lines, i))
  }

  function EndOf(lines: seq<Line>, s: nat, d: nat): (e: nat)
    requires s <= |lines|
    ensures Extent(lines, s, e, d)
    decreases |lines| - s
  {
    if s == |lines| || lines[s].indent <= d then s else EndOf(lines, s + 1, d)
  }

  lemma {:induction false} OneStart(lines: seq<Line>, k: nat, a: nat, b: nat)
    requires k < |lines| && BlockStart(lines, k, a) && BlockStart(lines, k, b)
    ensures a == b
  {
  }

  /** A line at the block's own indent is aligned. */
  lemma {:induction false} AtIndent(lines: seq<Line>, s: nat, i: nat, e: nat, d: nat)
    requires Between(lines, s, i, e, d) && i < e && lines[i].indent == lines[s].indent
    ensures Aligned(lines, i)
  {
    hide Matched;
    assert BlockStart(lines, i, s);
    forall b | 0 <= b <= i && BlockStart(lines, i, b) ensures b == s {
      OneStart(lines, i, b, s);
    }
  }

  lemma {:induction false} OffIndent(lines: seq<Line>, s: nat, i: nat, e: nat, d: nat)
    requires Between(lines, s, i, e, d) && i < e && lines[i].indent != lines[s].indent
    ensures !Aligned(lines, i)
  {
    hide Matched;
    if lines[i].indent < lines[s].indent {
      assert BlockStart(lines, i, s);
    } else {
      assert BlockStart(lines, i, i);
    }
  }

  /** An ELSE after a statement at its own indent that is no IF. */
  lemma {:induction false} NoIfBefore(lines: seq<Line>, j: nat, i: nat)
    requires j < i < |lines| && lines[i].text.ElseHead? && lines[j].indent == lines[i].indent && !lines[j].text.IfHead?
    requires forall m | j < m < i :: lines[m].indent > lines[i].indent
    ensures !Matched(lines, i)
  {
  }

  lemma {:induction false} FirstIsNoElse(lines: seq<Line>, s: nat, d: nat)
    requires s < |lines| && lines[s].indent > d && Under(lines, s, d) && lines[s].text.ElseHead?
    ensures !Matched(lines, s)
  {
    forall j | 0 <= j < s && lines[j].indent == lines[s].indent
      ensures exists m | j < m < s :: lines[m].indent <= lines[s].indent
    {
      assert lines[s - 1].indent <= lines[s].indent;
    }
  }

  /** After a statement that took the lines from `i` to `j`, its last line at the
      block's indent being `last`. */
  lemma {:induction false} NextBetween(lines: seq<Line>, s: nat, i: nat, j: nat, e: nat, d: nat, last: nat)
    requires Between(lines, s, i, e, d) && i < j <= e && i <= last < j && lines[i].indent == lines[s].indent
    requires lines[last].indent == lines[s].indent
    requires forall k | i <= k < j :: lines[k].indent >= lines[s].indent
    requires forall k | last < k < j :: lines[k].indent > lines[s].indent
    requires j < e && lines[j].indent > lines[s].indent ==> j == last + 1 && lines[last].text.Leaf?
    requires j < e && lines[j] == Line(lines[s].indent, ElseHead) ==> !lines[last].text.IfHead?
    ensures Between(lines, s, j, e, d)
  {
    hide Matched, Aligned;
    if j < e && lines[j] == Line(lines[s].indent, ElseHead) {
      NoIfBefore(lines, last, j);
    }
  }

  /** What the parser says of the lines from `i` on, next to what `AllFine` says up to `e`. */
  ghost predicate Judged(lines: seq<Line>, i: nat, e: nat, p: Parsed) {
    e <= |lines| && (p.Ok? <==> AllFine(lines, i, e)) && (p.Ok? ==> p.rest == lines[e..])
  }

  lemma {:induction false} FineSplit(lines: seq<Line>, a: nat, b: nat, c: nat)
    requires a <= b <= c <= |lines|
    ensures AllFine(lines, a, c) <==> AllFine(lines, a, b) && AllFine(lines, b, c)
  {
    hide Aligned, Matched;
  }

  lemma {:induction false} FineOne(lines: seq<Line>, k: nat)
    requires k < |lines|
    ensures AllFine(lines, k, k + 1) <==> Aligned(lines, k) && Matched(lines, k)
  {
    hide Aligned, Matched;
  }

  lemma {:induction false} JudgeItems(lines: seq<Line>, s: nat, i: nat, e: nat, d: nat)
    requires Between(lines, s, i, e, d)
    ensures Judged(lines, i, e, ParseItems(lines[i..], d, lines[s].indent))
    decreases |lines| - i, 2
  {
    hide ParseItems, Aligned, Matched, AllFine, Between;
    BetweenIs(lines, s, i, e, d);
    var indent := lines[s].indent;
    if i == e {
      NoneLeft(lines[i..], d, indent);
      NoneFine(lines, i);
    } else {
      FineSplit(lines, i, i + 1, e);
      FineOne(lines, i);
      if lines[i].indent != indent {
        OffIndent(lines, s, i, e, d);
        ItemsEnd(lines[i..], d, indent);
      } else {
        AtIndent(lines, s, i, e, d);
        if lines[i].text.ElseHead? {
          ElseRefused(lines[i..], d, indent);
        } else {
          NotElse(lines, i);
          JudgeItem(lines, s, i, e, d);
        }
      }
    }
  }

  lemma {:induction false} BetweenIs(lines: seq<Line>, s: nat, i: nat, e: nat, d: nat)
    requires Between(lines, s, i, e, d)
    ensures s <= i <= e <= |lines| && s < e && lines[s].indent > d && Extent(lines, s, e, d)
    ensures i < e && lines[i] == Line(lines[s].indent, ElseHead) ==> !Matched(lines, i)
  {
    hide Matched;
  }

  lemma {:induction false} NoneFine(lines: seq<Line>, i: nat)
    requires i <= |lines|
    ensures AllFine(lines, i, i)
  {
  }

  lemma {:induction false} NotElse(lines: seq<Line>, k: nat)
    requires k < |lines| && !lines[k].text.ElseHead?
    ensures Matched(lines, k)
  {
  }

  lemma {:induction false} ElseRefused(lines: seq<Line>, parent: nat, indent: nat)
    requires lines != [] && lines[0] == Line(indent, ElseHead) && parent < indent
    ensures ParseItems(lines, parent, indent) == Bad
  {
  }

  /** What the parser does with a line at the block's indent that is no ELSE. */
  lemma {:induction false} ItemTells(lines: seq<Line>, parent: nat, indent: nat)
    requires lines != [] && lines[0].indent == indent && parent < indent && !lines[0].text.ElseHead?
    ensures var p, rest, text := ParseItems(lines, parent, indent), lines[1..], lines[0].text;
            if text.Leaf? then
              var q := ParseItems(rest, parent, indent); (p.Ok? <==> q.Ok?) && (p.Ok? ==> p.rest == q.rest)
            else
              var inner := ParseBlock(rest, indent);
              (inner.Bad? ==> p.Bad?)
              && (inner.Ok? ==>
                    var other := if text.IfHead? then ParseElse(inner.rest, indent) else Ok([], inner.rest);
                    (other.Bad? ==> p.Bad?)
                    && (other.Ok? ==>
                          var q := ParseItems(other.rest, parent, indent);
                          (p.Ok? <==> q.Ok?) && (p.Ok? ==> p.rest == q.rest)))
  {
    hide ParseBlock, ParseElse;
  }

  /** The block under line `i` ends inside the block of line `i`. */
  lemma {:induction false} EndWithin(lines: seq<Line>, s: nat, i: nat, e: nat, d: nat) returns (j: nat)
    requires Extent(lines, s, e, d) && s <= i < e && lines[i].indent > d
    ensures i < j <= e && Extent(lines, i + 1, j, lines[i].indent)
    ensures forall k | i < k < j :: lines[k].indent > lines[i].indent
    ensures j < e ==> lines[j].indent <= lines[i].indent
    ensures j < |lines| && lines[j].indent > d ==> j < e
  {
    j := EndOf(lines, i + 1, lines[i].indent);
  }

  lemma {:induction false} NoElseHere(lines: seq<Line>, indent: nat)
    requires lines == [] || lines[0] != Line(indent, ElseHead)
    ensures ParseElse(lines, indent) == Ok([], lines)
  {
  }

  lemma {:induction false} ElseHere(lines: seq<Line>, indent: nat)
    requires lines != [] && lines[0] == Line(indent, ElseHead)
    ensures ParseElse(lines, indent) == ParseBlock(lines[1..], indent)
  {
  }

  lemma {:induction false} JudgeItem(lines: seq<Line>, s: nat, i: nat, e: nat, d: nat)
    requires Between(lines, s, i, e, d) && i < e && lines[i].indent == lines[s].indent && !lines[i].text.ElseHead?
    requires Aligned(lines, i) && Matched(lines, i)
    ensures Judged(lines, i, e, ParseItems(lines[i..], d, lines[s].indent))
    decreases |lines| - i, 1
  {
    hide ParseItems, ParseBlock, ParseElse, Aligned, Matched, AllFine, Between, Extent;
    BetweenIs(lines, s, i, e, d);
    var indent := lines[s].indent;
    ItemTells(lines[i..], d, indent);
    assert lines[i..][0] == lines[i] && lines[i..][1..] == lines[i + 1..];
    FineSplit(lines, i, i + 1, e);
    FineOne(lines, i);
    if lines[i].text.Leaf? {
      NextBetween(lines, s, i, i + 1, e, d, i);
      JudgeItems(lines, s, i + 1, e, d);
    } else {
      var j := EndWithin(lines, s, i, e, d);
      JudgeBlock(lines, i + 1, j, indent);
      FineSplit(lines, i + 1, j, e);
      if AllFine(lines, i + 1, j) {
        if j < |lines| && lines[j] == Line(indent, ElseHead) && lines[i].text.IfHead? {
          JudgeElse(lines, s, i, j, e, d);
        } else {
          HeadOf(lines, j);
          if lines[i].text.IfHead? {
            NoElseHere(lines[j..], indent);
          }
          NextBetween(lines, s, i, j, e, d, i);
          JudgeItems(lines, s, j, e, d);
        }
      }
    }
  }

  /** The ELSE of an IF, and what comes after it. */
  lemma {:induction false} JudgeElse(lines: seq<Line>, s: nat, i: nat, j: nat, e: nat, d: nat)
    requires Between(lines, s, i, e, d) && i < j < |lines| && lines[i].indent == lines[s].indent > d && j <= e
    requires lines[i].text.IfHead? && lines[j] == Line(lines[s].indent, ElseHead)
    requires forall k | i < k < j :: lines[k].indent > lines[s].indent
    ensures var indent := lines[s].indent; var other := ParseElse(lines[j..], indent);
            if other.Bad? then !AllFine(lines, j, e) else Judged(lines, j, e, ParseItems(other.rest, d, indent))
    decreases |lines| - i, 0
  {
    hide ParseItems, ParseBlock, ParseElse, Aligned, AllFine, Between, Extent;
    BetweenIs(lines, s, i, e, d);
    ElseInside(lines, s, j, e, d);
    var indent := lines[s].indent;
    assert lines[j..][0] == lines[j] && lines[j..][1..] == lines[j + 1..];
    ElseHere(lines[j..], indent);
    ElseAligned(lines, s, i, j, e, d);
    FineSplit(lines, j, j + 1, e);
    FineOne(lines, j);
    var j2 := EndWithin(lines, s, j, e, d);
    JudgeBlock(lines, j + 1, j2, indent);
    FineSplit(lines, j + 1, j2, e);
    if AllFine(lines, j + 1, j2) {
      NextBetween(lines, s, i, j2, e, d, j);
      JudgeItems(lines, s, j2, e, d);
    }
  }

  lemma {:induction false} ElseInside(lines: seq<Line>, s: nat, j: nat, e: nat, d: nat)
    requires Extent(lines, s, e, d) && s <= j <= e && j < |lines| && lines[j].indent > d
    ensures j < e
  {
  }

  lemma {:induction false} ElseAligned(lines: seq<Line>, s: nat, i: nat, j: nat, e: nat, d: nat)
    requires Between(lines, s, i, e, d) && i < j < e && lines[i].indent == lines[s].indent == lines[j].indent
    requires lines[i].text.IfHead?
    requires forall k | i < k < j :: lines[k].indent > lines[s].indent
    ensures Aligned(lines, j) && Matched(lines, j)
  {
    assert BlockStart(lines, j, s);
    forall b | 0 <= b <= j && BlockStart(lines, j, b) ensures b == s {
      OneStart(lines, j, b, s);
    }
  }

  lemma {:induction false} HeadOf(lines: seq<Line>, j: nat)
    requires j <= |lines|
    ensures lines[j..] == [] || lines[j..][0] == lines[j]
  {
  }

  lemma {:induction false} JudgeBlock(lines: seq<Line>, s: nat, e: nat, d: nat)
    requires Extent(lines, s, e, d) && Under(lines, s, d)
    ensures Judged(lines, s, e, ParseBlock(lines[s..], d))
    decreases |lines| - s, 3
  {
    hide ParseItems, Aligned, Matched, AllFine;
    if s == e {
      NoneLeft(lines[s..], d, 0);
      NoneFine(lines, s);
    } else {
      assert lines[s..][0] == lines[s];
      BlockIsItems(lines[s..], d);
      if lines[s].text.ElseHead? {
        FirstIsNoElse(lines, s, d);
      }
      JudgeItems(lines, s, s, e, d);
    }
  }

  /** A block is refused exactly when one of its lines is indented unlike the
      first line of its own block, stands deeper under a line that is no head, or
      is an ELSE that closes no IF; otherwise it is taken to its end. */
  lemma {:induction false} RefusedExactly(lines: seq<Line>, parent: nat, e: nat)
    requires Extent(lines, 0, e, parent)
    ensures ParseBlock(lines, parent).Bad? <==>
            exists k | 0 <= k < e :: !Aligned(lines, k) || !Matched(lines, k)
    ensures ParseBlock(lines, parent).Ok? ==> ParseBlock(lines, parent).rest == lines[e..]
  {
    hide ParseBlock, Aligned, Matched;
    JudgeBlock(lines, 0, e, parent);
    assert lines[0..] == lines;
  }
}
