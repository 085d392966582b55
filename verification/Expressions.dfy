/** The expression printer and the precedence-climbing parser meant to undo it. */
module Expressions {

  datatype Op = Or | And | Eq | Ne | Lt | Gt | Le | Ge | Add | Sub | Mul | Div | Mod

  const UNARY_LEVEL := 5
  const NOT_LEVEL := 2     // `not` takes its operand at comparison level

  function Level(op: Op): nat {
    match op
    case Or => 0
    case And => 1
    case Eq => 2 case Ne => 2 case Lt => 2 case Gt => 2 case Le => 2 case Ge => 2
    case Add => 3 case Sub => 3
    case Mul => 4 case Div => 4 case Mod => 4
  }

  datatype Expr =
    | Num(value: nat)
    | Name(kind: Kind, id: nat)
    | Index(table: nat, where: Expr)
    | ListItem(list: nat, where: Expr)
    | ListLength(list: nat)
    | Randint(low: Expr, high: Expr)
    | Neg(operand: Expr)
    | Not(operand: Expr)
    | Binary(op: Op, left: Expr, right: Expr)

  /** What a word was declared as; a word declared as nothing is a variable. */
  datatype Kind = Variable | Pin | Port | Keypad

  datatype Token =
    | TNum(value: nat)
    | TName(kind: Kind, id: nat)
    | TTable(id: nat)
    | TList(id: nat)
    | TOp(op: Op)           // `-` is Sub, before an operand as well
    | TNot | TOpen | TClose | TOpenIndex | TCloseIndex | TComma
    | TItem | TOf | TLength | TRandint

  // ---- the printer --------------------------------------------------------

  predicate Bracketed(e: Expr, q: nat) {
    e.Binary? && Level(e.op) < q
  }

  /** The tokens of `e` where its parent binds at level `q`, followed by `ts`. */
  function Print(e: Expr, q: nat, ts: seq<Token>): seq<Token>
    decreases e
  {
    match e
    case Num(n) => [TNum(n)] + ts
    case Name(kind, id) => [TName(kind, id)] + ts
    case Index(t, where) => [TTable(t), TOpenIndex] + Print(where, 0, [TCloseIndex] + ts)
    case ListItem(l, where) => [TItem] + Print(where, UNARY_LEVEL, [TOf, TList(l)] + ts)
    case ListLength(l) => [TLength, TOf, TList(l)] + ts
    case Randint(low, high) => [TRandint, TOpen] + Print(low, 0, [TComma] + Print(high, 0, [TClose] + ts))
    case Neg(x) => [TOp(Sub)] + Print(x, UNARY_LEVEL, ts)
    case Not(x) => [TNot] + Print(x, UNARY_LEVEL, ts)
    case Binary(op, l, r) =>
      var p := Level(op);
      if p < q then [TOpen] + Print(l, p, [TOp(op)] + Print(r, p + 1, [TClose] + ts))
      else Print(l, p, [TOp(op)] + Print(r, p + 1, ts))
  }

  // ---- the parser ---------------------------------------------------------

  datatype Parsed = Ok(e: Expr, rest: seq<Token>) | Bad

  function Begins(ts: seq<Token>, t: Token): bool {
    ts != [] && ts[0] == t
  }

  function Parse(ts: seq<Token>, level: nat): (r: Parsed)
    requires level <= UNARY_LEVEL
    ensures r.Ok? ==> |r.rest| < |ts|
    decreases |ts|, UNARY_LEVEL + 1 - level
  {
    if level == UNARY_LEVEL then Atom(ts)
    else if level == NOT_LEVEL && Begins(ts, TNot) then
      var r := Parse(ts[1..], level);
      if r.Ok? then Ok(Not(r.e), r.rest) else Bad
    else
      var r := Parse(ts, level + 1);
      if r.Ok? then Loop(level, r.e, r.rest) else Bad
  }

  /** The operators of one level, from the left. */
  function Loop(level: nat, node: Expr, ts: seq<Token>): (r: Parsed)
    requires level <= UNARY_LEVEL
    ensures r.Ok? ==> |r.rest| <= |ts|
    decreases |ts|, UNARY_LEVEL + 2
  {
    if level < UNARY_LEVEL && ts != [] && ts[0].TOp? && Level(ts[0].op) == level then
      var r := Parse(ts[1..], level + 1);
      if r.Ok? then Loop(level, Binary(ts[0].op, node, r.e), r.rest) else Bad
    else Ok(node, ts)
  }

  /** `r`, provided the token after it is `t`, which is taken too. */
  function Closed(r: Parsed, t: Token): Parsed {
    if r.Ok? && Begins(r.rest, t) then Ok(r.e, r.rest[1..]) else Bad
  }

  function Atom(ts: seq<Token>): (r: Parsed)
    ensures r.Ok? ==> |r.rest| < |ts|
    decreases |ts|, 0
  {
    if ts == [] then Bad
    else
      var rest := ts[1..];
      match ts[0]
      case TNum(n) => Ok(Num(n), rest)
      case TName(kind, id) => Ok(Name(kind, id), rest)
      case TOpen => Closed(Parse(rest, 0), TClose)
      case TNot =>
        var r := Atom(rest);
        if r.Ok? then Ok(Not(r.e), r.rest) else Bad
      case TOp(op) =>
        if op != Sub then Bad
        else
          var r := Atom(rest);
          if r.Ok? then Ok(Neg(r.e), r.rest) else Bad
      case TTable(t) =>
        if !Begins(rest, TOpenIndex) then Bad
        else
          var r := Closed(Parse(rest[1..], 0), TCloseIndex);
          if r.Ok? then Ok(Index(t, r.e), r.rest) else Bad
      case TItem =>
        var r := Closed(Atom(rest), TOf);
        if r.Ok? && r.rest != [] && r.rest[0].TList? then Ok(ListItem(r.rest[0].id, r.e), r.rest[1..]) else Bad
      case TLength =>
        if |rest| >= 2 && rest[0] == TOf && rest[1].TList? then Ok(ListLength(rest[1].id), rest[2..]) else Bad
      case TRandint =>
        if !Begins(rest, TOpen) then Bad
        else
          var low := Parse(rest[1..], 0);
          if low.Bad? then Bad
          else
            var high := Closed(Parse(if Begins(low.rest, TComma) then low.rest[1..] else low.rest, 0), TClose);
            if high.Ok? then Ok(Randint(low.e, high.e), high.rest) else Bad
      case _ => Bad
  }

  // ---- the left spine of a printed expression -----------------------------

  /** The leftmost operand: down the left operands as long as they are printed bare. */
  function Leaf(e: Expr): (r: Expr)
    ensures e.Binary? ==> r < e
    ensures !e.Binary? ==> r == e
    ensures r.Binary? ==> e.Binary?
  {
    if !e.Binary? then e
    else if Bracketed(e.left, Level(e.op)) then e.left
    else Leaf(e.left)
  }

  /** The tokens after the leaf. */
  function Tail(e: Expr, ts: seq<Token>): seq<Token> {
    if !e.Binary? then ts
    else
      var more := [TOp(e.op)] + Print(e.right, Level(e.op) + 1, ts);
      if Bracketed(e.left, Level(e.op)) then more else Tail(e.left, more)
  }

  lemma {:induction false} BracketedPrint(e: Expr, q: nat, q1: nat, ts: seq<Token>)
    requires Bracketed(e, q) == Bracketed(e, q1)
    ensures Print(e, q, ts) == Print(e, q1, ts)
  {
  }

  lemma {:induction false} SplitPrint(e: Expr, q: nat, ts: seq<Token>)
    requires !Bracketed(e, q)
    ensures Print(e, q, ts) == Print(Leaf(e), UNARY_LEVEL, Tail(e, ts))
    decreases e
  {
    if e.Binary? {
      var p := Level(e.op);
      var more := [TOp(e.op)] + Print(e.right, p + 1, ts);
      if Bracketed(e.left, p) {
        BracketedPrint(e.left, p, UNARY_LEVEL, more);
      } else {
        SplitPrint(e.left, p, more);
      }
    } else {
      BracketedPrint(e, q, UNARY_LEVEL, ts);
    }
  }

  // ---- what the parser makes of it ----------------------------------------

  /** Read where the parser wants an operand. */
  function ReadAtom(e: Expr): (r: Expr)
    decreases e, 4
  {
    if e.Binary? then ReadWhole(e) else ReadSimple(e)
  }

  function ReadSimple(e: Expr): (r: Expr)
    requires !e.Binary?
    decreases e, 0
  {
    match e
    case Index(t, where) => Index(t, ReadWhole(where))
    case ListItem(l, where) => ListItem(l, ReadAtom(where))
    case Randint(low, high) => Randint(ReadWhole(low), ReadWhole(high))
    case Neg(x) => Neg(ReadAtom(x))
    case Not(x) => Not(ReadAtom(x))
    case _ => e
  }

  /** `e` with its leaf read as `a`. */
  function Graft(e: Expr, a: Expr): (r: Expr)
    decreases e, 1
  {
    if !e.Binary? then a
    else
      var p := Level(e.op);
      Binary(e.op, if Bracketed(e.left, p) then a else Graft(e.left, a), ReadRight(e.right, p + 1))
  }

  /** A right operand, read from level `q`. */
  function ReadRight(e: Expr, q: nat): (r: Expr)
    decreases e, 5
  {
    if Bracketed(e, q) || q <= NOT_LEVEL then ReadWhole(e)
    else if e.Binary? then Graft(e, ReadAtom(Leaf(e)))
    else ReadSimple(e)
  }

  /** Read where the parser meets `not` before any operator: a leading `not`
      takes everything up to the next `and` or `or`. */
  function ReadNot(leaf: Expr, e: Expr): (r: Expr)
    requires leaf < e && e.Binary?
    decreases e, 2, leaf
  {
    if leaf.Not? then Not(ReadNot(leaf.operand, e)) else Graft(e, ReadAtom(leaf))
  }

  function ReadWhole(e: Expr): (r: Expr)
    decreases e, 3
  {
    if !e.Binary? then ReadSimple(e)
    else
      var p := Level(e.op);
      if p >= NOT_LEVEL then ReadNot(Leaf(e), e)
      else Binary(e.op, ReadWhole(e.left), ReadRight(e.right, p + 1))
  }

  // ---- the parser does exactly that ---------------------------------------

  /** No operator of level `from` or tighter comes next. */
  predicate NoOp(ts: seq<Token>, from: nat) {
    ts != [] && ts[0].TOp? ==> Level(ts[0].op) < from
  }

  lemma {:induction false} Rest1(t: Token, ts: seq<Token>)
    ensures ([t] + ts)[1..] == ts && ([t] + ts)[0] == t
  {
  }

  /** An operand parsed at level `q`, before the operators of that level. */
  lemma {:induction false} Descend(chunk: seq<Token>, a: Expr, ts: seq<Token>, q: nat)
    requires q <= UNARY_LEVEL
    requires Atom(chunk) == Ok(a, ts)
    requires q > NOT_LEVEL || !Begins(chunk, TNot)
    requires NoOp(ts, q + 1)
    ensures Parse(chunk, q) == Loop(q, a, ts)
    decreases UNARY_LEVEL - q
  {
    if q < UNARY_LEVEL {
      Descend(chunk, a, ts, q + 1);
    }
  }

  lemma {:induction false} StartsWithNot(e: Expr, ts: seq<Token>)
    ensures Begins(Print(e, UNARY_LEVEL, ts), TNot) <==> e.Not?
  {
  }

  /** A whole expression up to a token that is no operator. */
  lemma {:induction false} ParseClosed(e: Expr, t: Token, ts: seq<Token>)
    requires !t.TOp?
    ensures Parse(Print(e, 0, [t] + ts), 0) == Ok(ReadWhole(e), [t] + ts)
    ensures Closed(Parse(Print(e, 0, [t] + ts), 0), t) == Ok(ReadWhole(e), ts)
    decreases e, 9
  {
    Rest1(t, ts);
    ParseWhole(e, 0, [t] + ts);
  }

  lemma {:induction false} ParseAtom(e: Expr, ts: seq<Token>)
    ensures Atom(Print(e, UNARY_LEVEL, ts)) == Ok(ReadAtom(e), ts)
    decreases e, if e.Binary? then 10 else 1
  {
    hide Parse, Loop, Closed, ReadWhole;
    match e
    case Num(n) => Rest1(TNum(n), ts);
    case Name(kind, id) => Rest1(TName(kind, id), ts);
    case Index(t, where) =>
      var inside := Print(where, 0, [TCloseIndex] + ts);
      assert [TTable(t), TOpenIndex] + inside == [TTable(t)] + ([TOpenIndex] + inside);
      Rest1(TTable(t), [TOpenIndex] + inside);
      Rest1(TOpenIndex, inside);
      ParseClosed(where, TCloseIndex, ts);
    case ListItem(l, where) => ParseItem(l, where, ts);
    case ListLength(l) =>
      var after := [TOf, TList(l)] + ts;
      assert [TLength, TOf, TList(l)] + ts == [TLength] + after;
      Rest1(TLength, after);
      assert after[2..] == ts;
    case Randint(low, high) => ParseRandint(low, high, ts);
    case Neg(x) =>
      Rest1(TOp(Sub), Print(x, UNARY_LEVEL, ts));
      ParseAtom(x, ts);
    case Not(x) =>
      Rest1(TNot, Print(x, UNARY_LEVEL, ts));
      ParseAtom(x, ts);
    case Binary(op, l, r) =>
      Rest1(TOpen, Print(e, 0, [TClose] + ts));
      ParseClosed(e, TClose, ts);
  }

  lemma {:induction false} ParseItem(l: nat, where: Expr, ts: seq<Token>)
    ensures Atom(Print(ListItem(l, where), UNARY_LEVEL, ts)) == Ok(ListItem(l, ReadAtom(where)), ts)
    decreases where, 11
  {
    hide Parse, Loop;
    var after := [TOf, TList(l)] + ts;
    Rest1(TItem, Print(where, UNARY_LEVEL, after));
    assert after == [TOf] + ([TList(l)] + ts);
    Rest1(TOf, [TList(l)] + ts);
    Rest1(TList(l), ts);
    ParseAtom(where, after);
  }

  lemma {:induction false} ParseRandint(low: Expr, high: Expr, ts: seq<Token>)
    ensures Atom(Print(Randint(low, high), UNARY_LEVEL, ts)) == Ok(Randint(ReadWhole(low), ReadWhole(high)), ts)
    decreases Randint(low, high), 0
  {
    hide Parse, Loop, Closed, ReadWhole;
    var second := Print(high, 0, [TClose] + ts);
    var first := Print(low, 0, [TComma] + second);
    assert [TRandint, TOpen] + first == [TRandint] + ([TOpen] + first);
    Rest1(TRandint, [TOpen] + first);
    Rest1(TOpen, first);
    Rest1(TComma, second);
    ParseClosed(low, TComma, second);
    ParseClosed(high, TClose, ts);
  }

  /** Along the left spine: the leaf first, then its operators one after another. */
  lemma {:induction false} ParseSpine(e: Expr, a: Expr, chunk: seq<Token>, q: nat, ts: seq<Token>)
    requires q <= UNARY_LEVEL && !Bracketed(e, q)
    requires Atom(chunk) == Ok(a, Tail(e, ts))
    requires q > NOT_LEVEL || !Begins(chunk, TNot)
    requires NoOp(ts, q + 1)
    ensures Parse(chunk, q) == Loop(q, Graft(e, a), ts)
    decreases e, 1, UNARY_LEVEL - q
  {
    hide Atom, Print, ReadRight;
    if !e.Binary? {
      Descend(chunk, a, ts, q);
    } else {
      var p := Level(e.op);
      if p > q {
        ParseSpine(e, a, chunk, q + 1, ts);
      } else {
        var right := Print(e.right, p + 1, ts);
        var more := [TOp(e.op)] + right;
        Rest1(TOp(e.op), right);
        if Bracketed(e.left, p) {
          Descend(chunk, a, more, q);
        } else {
          ParseSpine(e.left, a, chunk, q, more);
        }
        ParseRight(e.right, p + 1, ts);
      }
    }
  }

  lemma {:induction false} ParseRight(e: Expr, q: nat, ts: seq<Token>)
    requires 0 < q <= UNARY_LEVEL && NoOp(ts, q)
    ensures Parse(Print(e, q, ts), q) == Ok(ReadRight(e, q), ts)
    decreases e, 12
  {
    hide Atom, Print, Parse, Graft, ReadWhole, ReadSimple;
    if Bracketed(e, q) {
      BracketedPrint(e, q, UNARY_LEVEL, ts);
      ParseAtom(e, ts);
      StartsWithNot(e, ts);
      Descend(Print(e, q, ts), ReadAtom(e), ts, q);
    } else if q <= NOT_LEVEL {
      ParseWhole(e, q, ts);
    } else {
      SplitPrint(e, q, ts);
      ParseAtom(Leaf(e), Tail(e, ts));
      ParseSpine(e, ReadAtom(Leaf(e)), Print(e, q, ts), q, ts);
      if !e.Binary? {
        GraftSimple(e, ReadAtom(e));
      }
    }
  }

  lemma {:induction false} GraftSimple(e: Expr, a: Expr)
    requires !e.Binary?
    ensures Graft(e, a) == a
  {
  }

  /** A leading `not` at comparison level: its operand is parsed at that level too. */
  lemma {:induction false} ParseNot(leaf: Expr, e: Expr, ts: seq<Token>)
    requires leaf < e && e.Binary? && Level(e.op) >= NOT_LEVEL
    requires NoOp(ts, NOT_LEVEL)
    ensures Parse(Print(leaf, UNARY_LEVEL, Tail(e, ts)), NOT_LEVEL) == Ok(ReadNot(leaf, e), ts)
    decreases e, 2, leaf
  {
    hide Atom, Tail, Graft;
    var after := Tail(e, ts);
    if leaf.Not? {
      Rest1(TNot, Print(leaf.operand, UNARY_LEVEL, after));
      ParseNot(leaf.operand, e, ts);
    } else {
      ParseAtom(leaf, after);
      StartsWithNot(leaf, after);
      ParseSpine(e, ReadAtom(leaf), Print(leaf, UNARY_LEVEL, after), NOT_LEVEL, ts);
    }
  }

  lemma {:induction false} ParseOperand(e: Expr, ts: seq<Token>)
    requires NoOp(ts, NOT_LEVEL)
    ensures Parse(Print(e, UNARY_LEVEL, ts), NOT_LEVEL) == Ok(ReadAtom(e), ts)
    decreases e, if e.Binary? then 11 else 6
  {
    hide Atom;
    if e.Not? {
      Rest1(TNot, Print(e.operand, UNARY_LEVEL, ts));
      ParseOperand(e.operand, ts);
    } else {
      ParseAtom(e, ts);
      StartsWithNot(e, ts);
      Descend(Print(e, UNARY_LEVEL, ts), ReadAtom(e), ts, NOT_LEVEL);
    }
  }

  lemma {:induction false} ParseWhole(e: Expr, q: nat, ts: seq<Token>)
    requires q <= NOT_LEVEL && !Bracketed(e, q)
    requires NoOp(ts, if q == NOT_LEVEL then q else q + 1)
    ensures Parse(Print(e, q, ts), q) == Loop(q, ReadWhole(e), ts)
    decreases e, if e.Binary? then 3 else 8, UNARY_LEVEL - q
  {
    hide Atom, Graft, ReadSimple, ReadRight;
    var tokens := Print(e, q, ts);
    if !e.Binary? {
      BracketedPrint(e, q, UNARY_LEVEL, ts);
      if !e.Not? {
        ParseAtom(e, ts);
        StartsWithNot(e, ts);
        Descend(tokens, ReadAtom(e), ts, q);
      } else if q == NOT_LEVEL {
        ParseOperand(e, ts);
      } else {
        BracketedPrint(e, q, q + 1, ts);
        ParseWhole(e, q + 1, ts);
      }
    } else {
      var p := Level(e.op);
      if q == NOT_LEVEL {
        SplitPrint(e, q, ts);
        ParseNot(Leaf(e), e, ts);
      } else if p > q {
        BracketedPrint(e, q, q + 1, ts);
        ParseWhole(e, q + 1, ts);
      } else {
        ParseSplit(e, q, ts);
      }
    }
  }

  /** A chain of operators at the very level that is parsed. */
  lemma {:induction false} ParseSplit(e: Expr, q: nat, ts: seq<Token>)
    requires e.Binary? && Level(e.op) == q < NOT_LEVEL && !Bracketed(e, q)
    requires NoOp(ts, q + 1)
    ensures Parse(Print(e, q, ts), q) == Loop(q, ReadWhole(e), ts)
    decreases e, 2
  {
    hide Atom, Graft, ReadSimple, ReadRight;
    var right := Print(e.right, q + 1, ts);
    var more := [TOp(e.op)] + right;
    Rest1(TOp(e.op), right);
    assert Print(e, q, ts) == Print(e.left, q, more);
    if Bracketed(e.left, q) {
      BracketedPrint(e.left, q, UNARY_LEVEL, more);
      ParseAtom(e.left, more);
      StartsWithNot(e.left, more);
      Descend(Print(e, q, ts), ReadAtom(e.left), more, q);
    } else {
      ParseWhole(e.left, q, more);
    }
    ParseRight(e.right, q + 1, ts);
  }

  // ---- when that is the same tree -----------------------------------------

  /** No `not` is the bare left operand of a comparison or an arithmetic operator
      where the parser is still looking for one (`low`): at the start of an
      expression, of a bracket, or of an operand of `and` and `or`. */
  predicate Clear(e: Expr, low: bool)
    decreases e
  {
    match e
    case Index(_, where) => Clear(where, true)
    case ListItem(_, where) => Clear(where, true)
    case Randint(a, b) => Clear(a, true) && Clear(b, true)
    case Neg(x) => Clear(x, true)
    case Not(x) => Clear(x, true)
    case Binary(op, l, r) =>
      var p := Level(op);
      && (if Bracketed(l, p) then Clear(l, true) else !(low && l.Not? && p >= NOT_LEVEL) && Clear(l, low))
      && Clear(r, Bracketed(r, p + 1) || p + 1 <= NOT_LEVEL)
    case _ => true
  }

  /** The right operands along the left spine are clear. */
  predicate RightsClear(e: Expr) {
    e.Binary? ==>
      var p := Level(e.op);
      && Clear(e.right, Bracketed(e.right, p + 1) || p + 1 <= NOT_LEVEL)
      && (Bracketed(e.left, p) || RightsClear(e.left))
  }

  lemma {:induction false} ClearSimple(e: Expr)
    requires !e.Binary?
    ensures Clear(e, true) == Clear(e, false)
  {
  }

  lemma {:induction false} ClearSpine(e: Expr)
    requires e.Binary?
    ensures Clear(e, false) <==> Clear(Leaf(e), true) && RightsClear(e)
    ensures Level(e.op) >= NOT_LEVEL ==>
              (Clear(e, true) <==> !Leaf(e).Not? && Clear(Leaf(e), true) && RightsClear(e))
    decreases e
  {
    if e.left.Binary? {
      ClearSpine(e.left);
    } else {
      ClearSimple(e.left);
    }
  }

  lemma {:induction false} GraftSame(e: Expr, a: Expr)
    requires e.Binary?
    ensures Graft(e, a) == e <==> a == Leaf(e) && RightsClear(e)
    decreases e, 1
  {
    ReadRightSame(e.right, Level(e.op) + 1);
    if !Bracketed(e.left, Level(e.op)) && e.left.Binary? {
      GraftSame(e.left, a);
    }
  }

  lemma {:induction false} ReadRightSame(e: Expr, q: nat)
    ensures ReadRight(e, q) == e <==> Clear(e, Bracketed(e, q) || q <= NOT_LEVEL)
    decreases e, 5
  {
    if Bracketed(e, q) || q <= NOT_LEVEL {
      ReadWholeSame(e);
    } else if e.Binary? {
      GraftSame(e, ReadAtom(Leaf(e)));
      ReadAtomSame(Leaf(e));
      ClearSpine(e);
    } else {
      ClearSimple(e);
      ReadSimpleSame(e);
    }
  }

  lemma {:induction false} ReadSimpleSame(e: Expr)
    requires !e.Binary?
    ensures ReadSimple(e) == e <==> Clear(e, true)
    decreases e, 0
  {
    match e
    case Index(_, where) => ReadWholeSame(where);
    case ListItem(_, where) => ReadAtomSame(where);
    case Randint(low, high) =>
      ReadWholeSame(low);
      ReadWholeSame(high);
    case Neg(x) => ReadAtomSame(x);
    case Not(x) => ReadAtomSame(x);
    case _ =>
  }

  lemma {:induction false} ReadAtomSame(e: Expr)
    ensures ReadAtom(e) == e <==> Clear(e, true)
    decreases e, 4
  {
    if e.Binary? {
      ReadWholeSame(e);
    } else {
      ReadSimpleSame(e);
    }
  }

  lemma {:induction false} ReadWholeSame(e: Expr)
    ensures ReadWhole(e) == e <==> Clear(e, true)
    decreases e, 3
  {
    if !e.Binary? {
      ReadSimpleSame(e);
    } else if Level(e.op) >= NOT_LEVEL {
      ClearSpine(e);
      GraftSame(e, ReadAtom(Leaf(e)));
      ReadAtomSame(Leaf(e));
    } else {
      ReadWholeSame(e.left);
      ReadRightSame(e.right, Level(e.op) + 1);
    }
  }

  /** `expression`: the whole token list must be used up. */
  function Expression(ts: seq<Token>): Parsed {
    var r := Parse(ts, 0);
    if r.Ok? && r.rest != [] then Bad else r
  }

  /** The parser accepts everything the printer writes, and this is the tree it returns. */
  lemma {:induction false} ParsePrint(e: Expr)
    ensures Expression(Print(e, 0, [])) == Ok(ReadWhole(e), [])
  {
    ParseWhole(e, 0, []);
  }

  /** Printing and parsing gives the same tree back exactly when the tree is clear. */
  lemma {:induction false} RoundTrip(e: Expr)
    ensures Expression(Print(e, 0, [])) == Ok(e, []) <==> Clear(e, true)
  {
    ParsePrint(e);
    ReadWholeSame(e);
  }

  /** The simpler condition: `not` is never the left operand of a comparison or
      an arithmetic operator. It is enough, though it is not needed everywhere. */
  predicate NotNeverLeft(e: Expr)
    decreases e
  {
    match e
    case Index(_, where) => NotNeverLeft(where)
    case ListItem(_, where) => NotNeverLeft(where)
    case Randint(a, b) => NotNeverLeft(a) && NotNeverLeft(b)
    case Neg(x) => NotNeverLeft(x)
    case Not(x) => NotNeverLeft(x)
    case Binary(op, l, r) => !(l.Not? && Level(op) >= NOT_LEVEL) && NotNeverLeft(l) && NotNeverLeft(r)
    case _ => true
  }

  lemma {:induction false} NotNeverLeftIsClear(e: Expr, low: bool)
    requires NotNeverLeft(e)
    ensures Clear(e, low)
    decreases e
  {
    match e
    case Index(_, where) => NotNeverLeftIsClear(where, true);
    case ListItem(_, where) => NotNeverLeftIsClear(where, true);
    case Randint(a, b) =>
      NotNeverLeftIsClear(a, true);
      NotNeverLeftIsClear(b, true);
    case Neg(x) => NotNeverLeftIsClear(x, true);
    case Not(x) => NotNeverLeftIsClear(x, true);
    case Binary(op, l, r) =>
      NotNeverLeftIsClear(l, true);
      NotNeverLeftIsClear(l, low);
      NotNeverLeftIsClear(r, Bracketed(r, Level(op) + 1) || Level(op) + 1 <= NOT_LEVEL);
    case _ =>
  }

  /** `(not a) = b` is printed without its bracket and comes back as `not (a = b)`. */
  lemma {:induction false} NotOnTheLeft(a: nat, b: nat)
    ensures var x, y := Name(Variable, a), Name(Variable, b);
            Expression(Print(Binary(Eq, Not(x), y), 0, [])) == Ok(Not(Binary(Eq, x, y)), [])
  {
    var x, y := Name(Variable, a), Name(Variable, b);
    var e := Binary(Eq, Not(x), y);
    ParsePrint(e);
    assert ReadAtom(x) == x && ReadRight(y, 3) == y by {
      ReadAtomSame(x);
      ReadRightSame(y, 3);
    }
    assert Leaf(e) == Not(x);
    assert ReadNot(Not(x), e) == Not(ReadNot(x, e));
    assert ReadNot(x, e) == Graft(e, ReadAtom(x));
    assert Graft(e.left, x) == x;
    assert Graft(e, x) == Binary(Eq, x, ReadRight(y, 3));
    assert ReadWhole(e) == ReadNot(Leaf(e), e);
  }

  // ---- the parser as it runs ----------------------------------------------

  /** `expr_pseudo` renders nested parts one after another; the accumulating printer is the same. */
  lemma {:induction false} PrintOnto(e: Expr, q: nat, ts: seq<Token>, more: seq<Token>)
    ensures Print(e, q, ts + more) == Print(e, q, ts) + more
    decreases e, 1
  {
    hide Level;
    match e
    case Num(n) => Regroup([TNum(n)], ts, more);
    case Name(kind, id) => Regroup([TName(kind, id)], ts, more);
    case Index(t, where) =>
      PrintOnto(where, 0, [TCloseIndex] + ts, more);
      Regroup([TCloseIndex], ts, more);
      Regroup([TTable(t), TOpenIndex], Print(where, 0, [TCloseIndex] + ts), more);
    case ListItem(l, where) =>
      PrintOnto(where, UNARY_LEVEL, [TOf, TList(l)] + ts, more);
      Regroup([TOf, TList(l)], ts, more);
      Regroup([TItem], Print(where, UNARY_LEVEL, [TOf, TList(l)] + ts), more);
    case ListLength(l) => Regroup([TLength, TOf, TList(l)], ts, more);
    case Randint(low, high) => PrintRandintOnto(low, high, q, ts, more);
    case Neg(x) =>
      PrintOnto(x, UNARY_LEVEL, ts, more);
      Regroup([TOp(Sub)], Print(x, UNARY_LEVEL, ts), more);
    case Not(x) =>
      PrintOnto(x, UNARY_LEVEL, ts, more);
      Regroup([TNot], Print(x, UNARY_LEVEL, ts), more);
    case Binary(op, l, r) => PrintBinaryOnto(op, l, r, q, ts, more);
  }

  lemma {:induction false} PrintRandintOnto(low: Expr, high: Expr, q: nat, ts: seq<Token>, more: seq<Token>)
    ensures Print(Randint(low, high), q, ts + more) == Print(Randint(low, high), q, ts) + more
    decreases Randint(low, high), 0
  {
    hide Level;
    var second := Print(high, 0, [TClose] + ts);
    Regroup([TClose], ts, more);
    PrintOnto(high, 0, [TClose] + ts, more);
    Regroup([TComma], second, more);
    PrintOnto(low, 0, [TComma] + second, more);
    Regroup([TRandint, TOpen], Print(low, 0, [TComma] + second), more);
  }

  lemma {:induction false} Regroup(a: seq<Token>, b: seq<Token>, c: seq<Token>)
    ensures a + b + c == a + (b + c)
  {
  }

  lemma {:induction false} PrintBinaryOnto(op: Op, l: Expr, r: Expr, q: nat, ts: seq<Token>, more: seq<Token>)
    ensures Print(Binary(op, l, r), q, ts + more) == Print(Binary(op, l, r), q, ts) + more
    decreases Binary(op, l, r), 0
  {
    hide Level;
    var p := Level(op);
    var close := if p < q then [TClose] else [];
    var right := Print(r, p + 1, close + ts);
    var left := Print(l, p, [TOp(op)] + right);
    Regroup(close, ts, more);
    PrintOnto(r, p + 1, close + ts, more);
    Regroup([TOp(op)], right, more);
    PrintOnto(l, p, [TOp(op)] + right, more);
    if p < q {
      Regroup([TOpen], left, more);
    } else {
      assert [] + ts == ts && [] + (ts + more) == ts + more;
    }
  }
}
