/** Which lines the indentation parser takes, for any widths of indentation. */
module Layout {
  import opened Script
  import opened Blocks

  // ---- how a block may be laid out ----------------------------------------

  /** All of `lines` are the statements `body`, each beginning at indent `d`. */
  ghost predicate Laid(lines: seq<Line>, d: nat, body: seq<Stmt>)
    decreases |lines|, 2
  {
    if body == [] then lines == []
    else exists k | 0 < k <= |lines| :: LaidOne(lines[..k], d, body[0]) && Laid(lines[k..], d, body[1..])
  }

  /** All of `lines` are the one statement `s`. */
  ghost predicate LaidOne(lines: seq<Line>, d: nat, s: Stmt)
    requires lines != []
    decreases |lines|, 1
  {
    && lines[0] == Line(d, Head(s))
    && match s
       case Forever(body) => LaidUnder(lines[1..], d, body)
       case Repeat(_, body) => LaidUnder(lines[1..], d, body)
       case Loop(_, _, body) => LaidUnder(lines[1..], d, body)
       case If(_, body, orelse) =>
         || (orelse == [] && LaidUnder(lines[1..], d, body))
         || exists k | 0 < k < |lines| ::
              LaidUnder(lines[1..k], d, body) && lines[k] == Line(d, ElseHead) && LaidUnder(lines[k + 1..], d, orelse)
       case _ => |lines| == 1
  }

  /** All of `lines` are a block under something at indent `d`: nothing at all, or
      statements at an indent of their own, deeper than `d`. */
  ghost predicate LaidUnder(lines: seq<Line>, d: nat, body: seq<Stmt>)
    decreases |lines|, 3
  {
    if lines == [] then body == [] else lines[0].indent > d && body != [] && Laid(lines, lines[0].indent, body)
  }

  // ---- what is laid out is read -------------------------------------------

  /** A head with a block under it. */
  lemma {:induction false} ItemsOfHead(s: Stmt, inner: seq<Line>, parent: nat, indent: nat, later: seq<Line>)
    requires s.Forever? || s.Repeat? || s.Loop?
    requires parent < indent && ParseBlock(inner, indent) == Ok(s.body, later)
    ensures ParseItems([Line(indent, Head(s))] + inner, parent, indent) == Cons(s, ParseItems(later, parent, indent))
  {
    hide ParseBlock;
    ConsLine(Line(indent, Head(s)), inner);
  }

  lemma {:induction false} ItemsOfLeaf(s: Stmt, later: seq<Line>, parent: nat, indent: nat)
    requires !s.Forever? && !s.Repeat? && !s.Loop? && !s.If? && parent < indent
    ensures ParseItems([Line(indent, Head(s))] + later, parent, indent) == Cons(s, ParseItems(later, parent, indent))
  {
    hide ParseBlock;
    ConsLine(Line(indent, Head(s)), later);
  }

  lemma {:induction false} HeadIsNoElse(s: Stmt)
    ensures Head(s) != ElseHead
  {
  }

  /** What stands at the head of some statements, and before something that ends a block. */
  lemma {:induction false} LaterEnds(lines: seq<Line>, d: nat, body: seq<Stmt>, after: seq<Line>, parent: nat)
    requires Laid(lines, d, body) && Ends(after, parent) && parent < d
    ensures Ends(lines + after, d)
    ensures lines + after != [] && (lines + after)[0].indent == d ==> (lines + after)[0].text != ElseHead
  {
    if body == [] {
      assert lines + after == after;
    } else {
      var k :| 0 < k <= |lines| && LaidOne(lines[..k], d, body[0]) && Laid(lines[k..], d, body[1..]);
      assert (lines + after)[0] == lines[..k][0];
      HeadIsNoElse(body[0]);
    }
  }

  lemma {:induction false} LaidSplit(lines: seq<Line>, d: nat, body: seq<Stmt>) returns (k: nat)
    requires Laid(lines, d, body) && body != []
    ensures 0 < k <= |lines| && LaidOne(lines[..k], d, body[0]) && Laid(lines[k..], d, body[1..])
  {
    hide LaidOne;
    k :| 0 < k <= |lines| && LaidOne(lines[..k], d, body[0]) && Laid(lines[k..], d, body[1..]);
  }

  lemma {:induction false} LaidNone(lines: seq<Line>, d: nat)
    requires Laid(lines, d, [])
    ensures lines == []
  {
  }

  lemma {:induction false} LaidItems(lines: seq<Line>, d: nat, body: seq<Stmt>, after: seq<Line>, parent: nat)
    requires Laid(lines, d, body) && Ends(after, parent) && parent < d
    ensures ParseItems(lines + after, parent, d) == Ok(body, after)
    decreases |lines|, 2
  {
    hide ParseItems, ParseBlock, LaidOne, Laid;
    if body == [] {
      LaidNone(lines, d);
      assert lines + after == after;
      NoneLeft(after, parent, d);
    } else {
      var k := LaidSplit(lines, d, body);
      LaterEnds(lines[k..], d, body[1..], after, parent);
      LaidOneItems(lines[..k], d, body[0], lines[k..] + after, parent);
      LaidItems(lines[k..], d, body[1..], after, parent);
      assert lines + after == lines[..k] + (lines[k..] + after);
      assert [body[0]] + body[1..] == body;
    }
  }

  lemma {:induction false} LaidOneItems(lines: seq<Line>, d: nat, s: Stmt, later: seq<Line>, parent: nat)
    requires lines != [] && LaidOne(lines, d, s) && parent < d && Ends(later, d)
    requires later != [] && later[0].indent == d ==> later[0].text != ElseHead
    ensures ParseItems(lines + later, parent, d) == Cons(s, ParseItems(later, parent, d))
    decreases |lines|, 1
  {
    hide ParseItems, ParseBlock, ParseElse, LaidUnder;
    var inner := lines[1..];
    assert lines + later == [Line(d, Head(s))] + (inner + later);
    match s
    case Forever(body) =>
      LaidBlock(inner, d, body, later);
      ItemsOfHead(s, inner + later, parent, d, later);
    case Repeat(_, body) =>
      LaidBlock(inner, d, body, later);
      ItemsOfHead(s, inner + later, parent, d, later);
    case Loop(_, _, body) =>
      LaidBlock(inner, d, body, later);
      ItemsOfHead(s, inner + later, parent, d, later);
    case If(_, _, _) => LaidIfItems(lines, d, s, later, parent);
    case _ =>
      assert inner + later == later;
      ItemsOfLeaf(s, later, parent, d);
  }

  /** An IF is laid out without an ELSE or with one. */
  lemma {:induction false} LaidIf(lines: seq<Line>, d: nat, s: Stmt) returns (k: nat)
    requires s.If? && lines != [] && LaidOne(lines, d, s)
    ensures lines[0] == Line(d, Head(s)) && 0 < k <= |lines| && LaidUnder(lines[1..k], d, s.body)
    ensures if k == |lines| then s.orelse == [] else lines[k] == Line(d, ElseHead) && LaidUnder(lines[k + 1..], d, s.orelse)
  {
    hide LaidUnder;
    if s.orelse == [] && LaidUnder(lines[1..], d, s.body) {
      k := |lines|;
      assert lines[1..k] == lines[1..];
    } else {
      k :| 0 < k < |lines| && LaidUnder(lines[1..k], d, s.body) && lines[k] == Line(d, ElseHead)
           && LaidUnder(lines[k + 1..], d, s.orelse);
    }
  }

  lemma {:induction false} LaidIfItems(lines: seq<Line>, d: nat, s: Stmt, later: seq<Line>, parent: nat)
    requires s.If? && lines != [] && LaidOne(lines, d, s) && parent < d && Ends(later, d)
    requires later != [] && later[0].indent == d ==> later[0].text != ElseHead
    ensures ParseItems(lines + later, parent, d) == Cons(s, ParseItems(later, parent, d))
    decreases |lines|, 0
  {
    hide ParseItems, ParseBlock, ParseElse, LaidUnder, LaidOne;
    var k := LaidIf(lines, d, s);
    if k == |lines| {
      assert lines + later == [Line(d, Head(s))] + (lines[1..k] + later);
      LaidBlock(lines[1..k], d, s.body, later);
      NoElse(later, d);
      ItemsOfIf(s, lines[1..k] + later, later, parent, d, later);
    } else {
      var other := lines[k + 1..] + later;
      var between := [Line(d, ElseHead)] + other;
      assert lines + later == [Line(d, Head(s))] + (lines[1..k] + between);
      LaidBlock(lines[1..k], d, s.body, between);
      LaidBlock(lines[k + 1..], d, s.orelse, later);
      ElseOf(other, d);
      ItemsOfIf(s, lines[1..k] + between, between, parent, d, later);
    }
  }

  /** A block laid out at any indents, in front of anything less indented, is read
      as the statements it lays out, and nothing more is taken. */
  lemma {:induction false} LaidBlock(lines: seq<Line>, parent: nat, body: seq<Stmt>, after: seq<Line>)
    requires LaidUnder(lines, parent, body) && Ends(after, parent)
    ensures ParseBlock(lines + after, parent) == Ok(body, after)
    decreases |lines|, 3
  {
    hide ParseItems, ParseBlock, Laid;
    if lines == [] {
      assert lines + after == after;
      NoneLeft(after, parent, 0);
    } else {
      LaidItems(lines, lines[0].indent, body, after, parent);
      BlockIsItems(lines + after, parent);
    }
  }

  // ---- what is read was laid out ------------------------------------------

  lemma {:induction false} LaidCons(lines: seq<Line>, k: nat, n: nat, d: nat, s: Stmt, rest: seq<Stmt>)
    requires 0 < k <= n <= |lines| && LaidOne(lines[..k], d, s) && Laid(lines[k..n], d, rest)
    ensures Laid(lines[..n], d, [s] + rest)
  {
    hide LaidOne;
    var all := lines[..n];
    assert all[..k] == lines[..k] && all[k..] == lines[k..n] && ([s] + rest)[1..] == rest;
  }

  lemma {:induction false} LaidHead(lines: seq<Line>, k: nat, d: nat, s: Stmt)
    requires 0 < k <= |lines| && lines[0] == Line(d, Head(s))
    requires s.Forever? || s.Repeat? || s.Loop? || (s.If? && s.orelse == [])
    requires LaidUnder(lines[1..k], d, s.body)
    ensures LaidOne(lines[..k], d, s)
  {
    hide LaidUnder;
    assert lines[..k][1..] == lines[1..k];
  }

  lemma {:induction false} LaidElse(lines: seq<Line>, j: nat, k: nat, d: nat, s: Stmt)
    requires 0 < j < k <= |lines| && lines[0] == Line(d, Head(s)) && s.If? && lines[j] == Line(d, ElseHead)
    requires LaidUnder(lines[1..j], d, s.body) && LaidUnder(lines[j + 1..k], d, s.orelse)
    ensures LaidOne(lines[..k], d, s)
  {
    hide LaidUnder;
    var all := lines[..k];
    assert all[1..j] == lines[1..j] && all[j + 1..] == lines[j + 1..k] && all[j] == lines[j];
  }

  lemma {:induction false} LaidLeaf(lines: seq<Line>, d: nat, s: Simple)
    requires lines != [] && lines[0] == Line(d, Leaf(s))
    ensures LaidOne(lines[..1], d, s)
  {
  }

  lemma {:induction false} LaidEmpty(lines: seq<Line>, d: nat)
    ensures Laid(lines[..0], d, [])
  {
  }

  /** The first statement of a block that is read, and where it stops. */
  lemma {:induction false} FirstRead(lines: seq<Line>, parent: nat, d: nat, body: seq<Stmt>, rest: seq<Line>)
      returns (k: nat)
    requires ParseItems(lines, parent, d) == Ok(body, rest) && parent < d && !Ends(lines, parent)
    ensures body != [] && 0 < k <= |lines| && LaidOne(lines[..k], d, body[0])
    ensures ParseItems(lines[k..], parent, d) == Ok(body[1..], rest)
    decreases |lines|, 2
  {
    hide ParseBlock, ParseElse, LaidUnder, LaidOne;
    var text := lines[0].text;
    if text.Leaf? {
      k := 1;
      LaidLeaf(lines, d, text.s);
    } else if text.IfHead? {
      var inner := ParseBlock(lines[1..], d);
      k := IfRead(lines, d, text.cond, inner.body, inner.rest);
    } else if text.ForeverHead? || text.RepeatHead? || text.LoopHead? {
      var inner := ParseBlock(lines[1..], d);
      k := UnderRead(lines, d, inner.body, inner.rest);
      LaidHead(lines, k, d, body[0]);
    } else {
      assert false;
    }
  }

  lemma {:induction false} UnderRead(lines: seq<Line>, d: nat, body: seq<Stmt>, rest: seq<Line>) returns (k: nat)
    requires lines != [] && ParseBlock(lines[1..], d) == Ok(body, rest)
    ensures 0 < k <= |lines| && LaidUnder(lines[1..k], d, body) && rest == lines[k..]
    decreases |lines|, 0
  {
    hide ParseBlock, LaidUnder;
    var after := lines[1..];
    var n := BlockRead(after, d, body, rest);
    k := 1 + n;
    assert after[..n] == lines[1..k] && after[n..] == lines[k..];
  }

  lemma {:induction false} IfRead(lines: seq<Line>, d: nat, c: nat, body: seq<Stmt>, between: seq<Line>) returns (k: nat)
    requires lines != [] && lines[0] == Line(d, IfHead(c)) && ParseBlock(lines[1..], d) == Ok(body, between)
    requires ParseElse(between, d).Ok?
    ensures var other := ParseElse(between, d);
            0 < k <= |lines| && LaidOne(lines[..k], d, If(c, body, other.body)) && other.rest == lines[k..]
    decreases |lines|, 1
  {
    hide ParseBlock, LaidUnder, LaidOne, ParseElse;
    var j := UnderRead(lines, d, body, between);
    var other := ParseElse(between, d);
    ElseCases(between, d);
    if between != [] && between[0] == Line(d, ElseHead) {
      assert between[1..] == lines[j..][1..];
      var m := UnderRead(lines[j..], d, other.body, other.rest);
      k := j + m;
      assert lines[j..][1..m] == lines[j + 1..k] && lines[j..][m..] == lines[k..];
      LaidElse(lines, j, k, d, If(c, body, other.body));
    } else {
      k := j;
      LaidHead(lines, k, d, If(c, body, other.body));
    }
  }

  lemma {:induction false} ElseCases(lines: seq<Line>, d: nat)
    ensures ParseElse(lines, d) ==
            if lines != [] && lines[0] == Line(d, ElseHead) then ParseBlock(lines[1..], d) else Ok([], lines)
  {
    hide ParseBlock;
  }

  lemma {:induction false} ItemsRead(lines: seq<Line>, parent: nat, d: nat, body: seq<Stmt>, rest: seq<Line>)
      returns (n: nat)
    requires ParseItems(lines, parent, d) == Ok(body, rest) && parent < d
    ensures n <= |lines| && rest == lines[n..] && Laid(lines[..n], d, body) && Ends(rest, parent)
    decreases |lines|, 3
  {
    hide ParseItems, LaidOne, Laid;
    if Ends(lines, parent) {
      NoneLeft(lines, parent, d);
      n := 0;
      LaidEmpty(lines, d);
    } else {
      var k := FirstRead(lines, parent, d, body, rest);
      var more := ItemsRead(lines[k..], parent, d, body[1..], rest);
      n := k + more;
      assert lines[k..][..more] == lines[k..n] && lines[k..][more..] == lines[n..];
      LaidCons(lines, k, n, d, body[0], body[1..]);
      assert [body[0]] + body[1..] == body;
    }
  }

  /** What is read as a block lays out what it is read as, and stops where the block ends. */
  lemma {:induction false} BlockRead(lines: seq<Line>, parent: nat, body: seq<Stmt>, rest: seq<Line>) returns (n: nat)
    requires ParseBlock(lines, parent) == Ok(body, rest)
    ensures n <= |lines| && rest == lines[n..] && LaidUnder(lines[..n], parent, body) && Ends(rest, parent)
    decreases |lines|, 4
  {
    hide ParseItems, Laid;
    if Ends(lines, parent) {
      n := 0;
    } else {
      var d := lines[0].indent;
      n := ItemsRead(lines, parent, d, body, rest);
      SomeLaid(lines, n, d, body);
    }
  }

  lemma {:induction false} SomeLaid(lines: seq<Line>, n: nat, d: nat, body: seq<Stmt>)
    requires n <= |lines| && Laid(lines[..n], d, body) && n > 0
    ensures body != []
  {
  }

  /** The parser takes exactly the blocks that can be laid out so, whatever the
      widths, and reads them as what they lay out. */
  lemma {:induction false} ReadsWhatIsLaid(lines: seq<Line>, parent: nat, body: seq<Stmt>, rest: seq<Line>)
    ensures ParseBlock(lines, parent) == Ok(body, rest) <==>
            exists n | 0 <= n <= |lines| :: rest == lines[n..] && LaidUnder(lines[..n], parent, body) && Ends(rest, parent)
  {
    hide ParseBlock, LaidUnder;
    if ParseBlock(lines, parent) == Ok(body, rest) {
      var n := BlockRead(lines, parent, body, rest);
    }
    if n :| 0 <= n <= |lines| && rest == lines[n..] && LaidUnder(lines[..n], parent, body) && Ends(rest, parent) {
      LaidBlock(lines[..n], parent, body, rest);
      assert lines[..n] + rest == lines;
    }
  }
}
