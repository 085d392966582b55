/** The indentation parser, and the printer it must undo. */
module Blocks {
  import opened Script

  /** Statements without a body. */
  type Simple = s: Stmt | s.Act? || s.Wait? || s.WaitUntil? || s.Stop? witness Stop

  /** What a line of pseudocode says. */
  datatype Text =
    | Leaf(s: Simple)
    | ForeverHead
    | RepeatHead(count: nat)
    | LoopHead(cond: nat, until: bool)
    | IfHead(cond: nat)
    | ElseHead

  datatype Line = Line(indent: nat, text: Text)

  // ---- the printer --------------------------------------------------------

  function Head(s: Stmt): Text {
    match s
    case Forever(_) => ForeverHead
    case Repeat(n, _) => RepeatHead(n)
    case Loop(c, until, _) => LoopHead(c, until)
    case If(c, _, _) => IfHead(c)
    case _ => Leaf(s)
  }

  /** The lines of one statement at `depth`, then `after`. */
  function Show(s: Stmt, depth: nat, after: seq<Line>): seq<Line>
    decreases s
  {
    var head := Line(2 * depth, Head(s));
    match s
    case Forever(body) => [head] + ShowAll(body, depth + 1, after)
    case Repeat(_, body) => [head] + ShowAll(body, depth + 1, after)
    case Loop(_, _, body) => [head] + ShowAll(body, depth + 1, after)
    case If(_, body, orelse) =>
      if orelse == [] then [head] + ShowAll(body, depth + 1, after)
      else [head] + ShowAll(body, depth + 1, [Line(2 * depth, ElseHead)] + ShowAll(orelse, depth + 1, after))
    case _ => [head] + after
  }

  function ShowAll(body: seq<Stmt>, depth: nat, after: seq<Line>): seq<Line>
    decreases body
  {
    if body == [] then after else Show(body[0], depth, ShowAll(body[1..], depth, after))
  }

  // ---- the parser ---------------------------------------------------------

  datatype Parsed = Ok(body: seq<Stmt>, rest: seq<Line>) | Bad

  function Cons(s: Stmt, p: Parsed): Parsed {
    if p.Ok? then Ok([s] + p.body, p.rest) else Bad
  }

  predicate Ends(lines: seq<Line>, parent: nat) {
    lines == [] || lines[0].indent <= parent
  }

  /** `parse_block`: the block's indent is whatever its first line uses. */
  function ParseBlock(lines: seq<Line>, parent: nat): (p: Parsed)
    ensures p.Ok? ==> |p.rest| <= |lines|
    decreases |lines|, 1
  {
    if Ends(lines, parent) then Ok([], lines) else ParseItems(lines, parent, lines[0].indent)
  }

  function ParseItems(lines: seq<Line>, parent: nat, indent: nat): (p: Parsed)
    ensures p.Ok? ==> |p.rest| <= |lines|
    decreases |lines|, 0
  {
    if Ends(lines, parent) then Ok([], lines)
    else if lines[0].indent != indent then Bad
    else
      var rest := lines[1..];
      match lines[0].text
      case Leaf(s) => Cons(s, ParseItems(rest, parent, indent))
      case ForeverHead =>
        var inner := ParseBlock(rest, indent);
        if inner.Bad? then Bad else Cons(Forever(inner.body), ParseItems(inner.rest, parent, indent))
      case RepeatHead(n) =>
        var inner := ParseBlock(rest, indent);
        if inner.Bad? then Bad else Cons(Repeat(n, inner.body), ParseItems(inner.rest, parent, indent))
      case LoopHead(c, until) =>
        var inner := ParseBlock(rest, indent);
        if inner.Bad? then Bad else Cons(Loop(c, until, inner.body), ParseItems(inner.rest, parent, indent))
      case IfHead(c) =>
        var inner := ParseBlock(rest, indent);
        if inner.Bad? then Bad
        else
          var other := ParseElse(inner.rest, indent);
          if other.Bad? then Bad
          else Cons(If(c, inner.body, other.body), ParseItems(other.rest, parent, indent))
      case ElseHead => Bad
  }

  /** An ELSE at exactly the indent of its IF. */
  function ParseElse(lines: seq<Line>, indent: nat): (p: Parsed)
    ensures p.Ok? ==> |p.rest| <= |lines|
    decreases |lines|, 2
  {
    if lines != [] && lines[0] == Line(indent, ElseHead) then ParseBlock(lines[1..], indent) else Ok([], lines)
  }

  // ---- round trip ---------------------------------------------------------

  lemma {:induction false} ConsLine(line: Line, rest: seq<Line>)
    ensures ([line] + rest)[0] == line && ([line] + rest)[1..] == rest
  {
  }

  lemma {:induction false} NoneLeft(lines: seq<Line>, parent: nat, indent: nat)
    requires Ends(lines, parent)
    ensures ParseItems(lines, parent, indent) == ParseBlock(lines, parent) == Ok([], lines)
  {
  }

  lemma {:induction false} BlockIsItems(lines: seq<Line>, parent: nat)
    requires !Ends(lines, parent)
    ensures ParseBlock(lines, parent) == ParseItems(lines, parent, lines[0].indent)
  {
  }

  /** What is printed at `depth` starts at `depth`, and never with an ELSE. */
  lemma {:induction false} FirstLine(body: seq<Stmt>, depth: nat, after: seq<Line>)
    ensures body == [] ==> ShowAll(body, depth, after) == after
    ensures body != [] ==>
              var lines := ShowAll(body, depth, after);
              lines != [] && lines[0].indent == 2 * depth && lines[0].text != ElseHead
  {
  }

  lemma {:induction false} ParseShown(body: seq<Stmt>, depth: nat, after: seq<Line>, parent: nat)
    requires parent < 2 * depth && Ends(after, parent)
    ensures ParseBlock(ShowAll(body, depth, after), parent) == Ok(body, after)
    ensures ParseItems(ShowAll(body, depth, after), parent, 2 * depth) == Ok(body, after)
    decreases body
  {
    hide ParseItems, ParseBlock, Show;
    var lines := ShowAll(body, depth, after);
    FirstLine(body, depth, after);
    if body == [] {
      NoneLeft(after, parent, 2 * depth);
    } else {
      BlockIsItems(lines, parent);
      var s, later := body[0], ShowAll(body[1..], depth, after);
      FirstLine(body[1..], depth, after);
      ParseShown(body[1..], depth, after, parent);
      ParseOne(s, depth, later, parent);
      assert [s] + body[1..] == body;
    }
  }

  /** One printed statement, with the lines after it left for its siblings. */
  lemma {:induction false} ParseOne(s: Stmt, depth: nat, later: seq<Line>, parent: nat)
    requires parent < 2 * depth && Ends(later, 2 * depth)
    requires later != [] && later[0].indent == 2 * depth ==> later[0].text != ElseHead
    ensures ParseItems(Show(s, depth, later), parent, 2 * depth) == Cons(s, ParseItems(later, parent, 2 * depth))
    decreases s, 1
  {
    hide ParseBlock, ShowAll;
    var head := Line(2 * depth, Head(s));
    match s
    case Forever(body) =>
      ConsLine(head, ShowAll(body, depth + 1, later));
      ParseShown(body, depth + 1, later, 2 * depth);
    case Repeat(_, body) =>
      ConsLine(head, ShowAll(body, depth + 1, later));
      ParseShown(body, depth + 1, later, 2 * depth);
    case Loop(_, _, body) =>
      ConsLine(head, ShowAll(body, depth + 1, later));
      ParseShown(body, depth + 1, later, 2 * depth);
    case If(_, _, _) => ParseIf(s, depth, later, parent);
    case _ => ConsLine(head, later);
  }

  lemma {:induction false} ParseIf(s: Stmt, depth: nat, later: seq<Line>, parent: nat)
    requires s.If?
    requires parent < 2 * depth && Ends(later, 2 * depth)
    requires later != [] && later[0].indent == 2 * depth ==> later[0].text != ElseHead
    ensures ParseItems(Show(s, depth, later), parent, 2 * depth) == Cons(s, ParseItems(later, parent, 2 * depth))
    decreases s, 0
  {
    hide ParseBlock, ParseItems, ParseElse, ShowAll;
    var head, otherwise := Line(2 * depth, IfHead(s.cond)), Line(2 * depth, ElseHead);
    if s.orelse == [] {
      ParseShown(s.body, depth + 1, later, 2 * depth);
      NoElse(later, 2 * depth);
      ItemsOfIf(s, ShowAll(s.body, depth + 1, later), later, parent, 2 * depth, later);
    } else {
      var other := ShowAll(s.orelse, depth + 1, later);
      var inner := ShowAll(s.body, depth + 1, [otherwise] + other);
      ParseShown(s.body, depth + 1, [otherwise] + other, 2 * depth);
      ParseShown(s.orelse, depth + 1, later, 2 * depth);
      ElseOf(other, 2 * depth);
      ItemsOfIf(s, inner, [otherwise] + other, parent, 2 * depth, later);
    }
  }

  lemma {:induction false} NoElse(lines: seq<Line>, indent: nat)
    requires lines != [] && lines[0].indent == indent ==> lines[0].text != ElseHead
    ensures ParseElse(lines, indent) == Ok([], lines)
  {
  }

  lemma {:induction false} ElseOf(lines: seq<Line>, indent: nat)
    ensures ParseElse([Line(indent, ElseHead)] + lines, indent) == ParseBlock(lines, indent)
  {
    hide ParseBlock;
    ConsLine(Line(indent, ElseHead), lines);
  }

  /** An IF whose block and whose ELSE are read. */
  lemma {:induction false} ItemsOfIf(s: Stmt, inner: seq<Line>, between: seq<Line>, parent: nat, indent: nat,
                                     later: seq<Line>)
    requires s.If? && parent < indent
    requires ParseBlock(inner, indent) == Ok(s.body, between) && ParseElse(between, indent) == Ok(s.orelse, later)
    ensures ParseItems([Line(indent, IfHead(s.cond))] + inner, parent, indent) == Cons(s, ParseItems(later, parent, indent))
  {
    hide ParseBlock, ParseElse;
    ConsLine(Line(indent, IfHead(s.cond)), inner);
  }

  // ---- both as they run ---------------------------------------------------

  lemma {:induction false} ShowIfAfter(s: Stmt, depth: nat, after: seq<Line>)
    requires s.If? && s.orelse != []
    ensures Show(s, depth, after) == Show(s, depth, []) + after
    decreases s, 0
  {
    hide ShowAll, Head;
    var head, otherwise := [Line(2 * depth, Head(s))], [Line(2 * depth, ElseHead)];
    ShowAllAfter(s.orelse, depth + 1, after);
    var other := ShowAll(s.orelse, depth + 1, []);
    ShowAllAfter(s.body, depth + 1, otherwise + other);
    ShowAllAfter(s.body, depth + 1, otherwise + (other + after));
    var body := ShowAll(s.body, depth + 1, []);
    assert head + (body + (otherwise + (other + after))) == head + (body + (otherwise + other)) + after;
  }

  lemma {:induction false} ShowAfter(s: Stmt, depth: nat, after: seq<Line>)
    ensures Show(s, depth, after) == Show(s, depth, []) + after
    decreases s, 1
  {
    hide ShowAll, Head;
    match s
    case Forever(body) => ShowAllAfter(body, depth + 1, after);
    case Repeat(_, body) => ShowAllAfter(body, depth + 1, after);
    case Loop(_, _, body) => ShowAllAfter(body, depth + 1, after);
    case If(_, body, orelse) =>
      if orelse == [] {
        ShowAllAfter(body, depth + 1, after);
      } else {
        ShowIfAfter(s, depth, after);
      }
    case _ =>
  }

  lemma {:induction false} ShowAllAfter(body: seq<Stmt>, depth: nat, after: seq<Line>)
    ensures ShowAll(body, depth, after) == ShowAll(body, depth, []) + after
    decreases body
  {
    hide Show;
    if body != [] {
      var rest := ShowAll(body[1..], depth, []);
      ShowAllAfter(body[1..], depth, after);
      ShowAfter(body[0], depth, rest + after);
      ShowAfter(body[0], depth, rest);
    }
  }

  lemma {:induction false} ShowAllSnoc(done: seq<Stmt>, s: Stmt, depth: nat, after: seq<Line>)
    ensures ShowAll(done + [s], depth, after) == ShowAll(done, depth, Show(s, depth, after))
    decreases done
  {
    var all := done + [s];
    if done == [] {
      assert all[1..] == [];
    } else {
      assert all[0] == done[0] && all[1..] == done[1..] + [s];
      ShowAllSnoc(done[1..], s, depth, after);
    }
  }

  method StmtsPseudo(body: seq<Stmt>, depth: nat) returns (out: seq<Line>)
    ensures out == ShowAll(body, depth, [])
    decreases body
  {
    hide Show;
    out := [];
    for i := 0 to |body|
      invariant out == ShowAll(body[..i], depth, [])
    {
      var lines := StmtPseudo(body[i], depth);
      assert body[..i + 1] == body[..i] + [body[i]];
      ShowAllSnoc(body[..i], body[i], depth, []);
      ShowAllAfter(body[..i], depth, lines);
      out := out + lines;
    }
    assert body[..|body|] == body;
  }

  method StmtPseudo(node: Stmt, depth: nat) returns (out: seq<Line>)
    ensures out == Show(node, depth, [])
    decreases node
  {
    hide ShowAll;
    match node {
      case Forever(body) =>
        var inner := StmtsPseudo(body, depth + 1);
        out := [Line(2 * depth, ForeverHead)] + inner;
      case Repeat(n, body) =>
        var inner := StmtsPseudo(body, depth + 1);
        out := [Line(2 * depth, RepeatHead(n))] + inner;
      case Loop(c, until, body) =>
        var inner := StmtsPseudo(body, depth + 1);
        out := [Line(2 * depth, LoopHead(c, until))] + inner;
      case If(c, body, orelse) =>
        var inner := StmtsPseudo(body, depth + 1);
        out := [Line(2 * depth, IfHead(c))] + inner;
        if orelse != [] {
          var other := StmtsPseudo(orelse, depth + 1);
          ShowAllAfter(body, depth + 1, [Line(2 * depth, ElseHead)] + other);
          out := out + [Line(2 * depth, ElseHead)] + other;
        }
      case _ =>
        out := [Line(2 * depth, Leaf(node))];
    }
  }

  /** `body` was parsed already; `p` is the rest of the block. */
  function Prefixed(body: seq<Stmt>, p: Parsed): Parsed {
    if p.Ok? then Ok(body + p.body, p.rest) else Bad
  }

  /** What a parsing method did, next to what the parsing function says. */
  ghost predicate Did(lines: seq<Line>, ok: bool, body: seq<Stmt>, next: nat, p: Parsed) {
    if ok then next <= |lines| && p == Ok(body, lines[next..]) else p == Bad
  }

  method ParseBlockAt(lines: seq<Line>, start: nat, parent: nat) returns (ok: bool, body: seq<Stmt>, next: nat)
    requires start <= |lines|
    ensures Did(lines, ok, body, next, ParseBlock(lines[start..], parent))
    ensures ok ==> start <= next
    decreases |lines| - start
  {
    hide ParseItems;
    body, next, ok := [], start, true;
    if start >= |lines| || lines[start].indent <= parent {
      return;
    }
    var indent := lines[start].indent;
    ghost var whole := ParseItems(lines[start..], parent, indent);
    while next < |lines|
      invariant start <= next <= |lines|
      invariant whole == Prefixed(body, ParseItems(lines[next..], parent, indent))
      decreases |lines| - next
    {
      if lines[next].indent <= parent {
        break;
      }
      if lines[next].indent != indent {
        ItemsEnd(lines[next..], parent, indent);
        return false, [], 0;
      }
      var node;
      ok, node, next := ParseItemAt(lines, next, parent, indent);
      if !ok {
        return false, [], 0;
      }
      Extended(body, node, ParseItems(lines[next..], parent, indent));
      body := body + [node];
    }
    ItemsEnd(lines[next..], parent, indent);
    assert body + [] == body;
  }

  lemma {:induction false} ItemsEnd(lines: seq<Line>, parent: nat, indent: nat)
    ensures Ends(lines, parent) ==> ParseItems(lines, parent, indent) == Ok([], lines)
    ensures !Ends(lines, parent) && lines[0].indent != indent ==> ParseItems(lines, parent, indent) == Bad
  {
  }

  lemma {:induction false} Extended(body: seq<Stmt>, s: Stmt, p: Parsed)
    ensures Prefixed(body, Cons(s, p)) == Prefixed(body + [s], p)
  {
    if p.Ok? {
      assert body + ([s] + p.body) == body + [s] + p.body;
    }
  }

  /** One statement of a block, its body and its ELSE included. */
  method ParseItemAt(lines: seq<Line>, index: nat, ghost parent: nat, indent: nat)
      returns (ok: bool, node: Stmt, next: nat)
    requires index < |lines| && !Ends(lines[index..], parent) && lines[index].indent == indent
    ensures ok ==> index < next <= |lines|
    ensures ParseItems(lines[index..], parent, indent) ==
            if ok then Cons(node, ParseItems(lines[next..], parent, indent)) else Bad
    decreases |lines| - index, 0
  {
    hide ParseBlock;
    assert lines[index..][1..] == lines[index + 1..];
    var inner;
    match lines[index].text {
      case Leaf(s) =>
        ok, node, next := true, s, index + 1;
      case ForeverHead =>
        ok, inner, next := ParseBlockAt(lines, index + 1, indent);
        node := Forever(inner);
      case RepeatHead(n) =>
        ok, inner, next := ParseBlockAt(lines, index + 1, indent);
        node := Repeat(n, inner);
      case LoopHead(c, until) =>
        ok, inner, next := ParseBlockAt(lines, index + 1, indent);
        node := Loop(c, until, inner);
      case IfHead(c) =>
        ok, inner, next := ParseBlockAt(lines, index + 1, indent);
        var other: seq<Stmt> := [];
        if ok && next < |lines| && lines[next] == Line(indent, ElseHead) {
          assert lines[next..][1..] == lines[next + 1..];
          ok, other, next := ParseBlockAt(lines, next + 1, indent);
        }
        node := If(c, inner, other);
      case ElseHead =>
        ok, node, next := false, Stop, 0;
    }
  }

  /** `parse_block` on exactly what `stmts_pseudo` printed gives back the tree. */
  method ReadBack(body: seq<Stmt>, depth: nat, parent: nat, after: seq<Line>)
      returns (ok: bool, again: seq<Stmt>, next: nat)
    requires parent < 2 * depth && Ends(after, parent)
    ensures ok && again == body && next == |ShowAll(body, depth, [])|
  {
    var lines := StmtsPseudo(body, depth);
    ShowAllAfter(body, depth, after);
    ParseShown(body, depth, after, parent);
    var all := lines + after;
    assert all[0..] == all;
    ok, again, next := ParseBlockAt(all, 0, parent);
    assert |all[next..]| == |after|;
  }
}
