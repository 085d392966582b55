/** The grammar of expressions, with every bracket written out, and the parser
    held against it. */
module Grammar {
  import opened Expressions

  /** An expression as it stands in the text. */
  datatype Written =
    | Number(value: nat)
    | Word(kind: Kind, id: nat)
    | Entry(table: nat, at: Written)
    | Item(list: nat, at: Written)
    | Length(list: nat)
    | Random(low: Written, comma: bool, high: Written)
    | Minus(of: Written)
    | NotOf(of: Written)
    | Chain(op: Op, left: Written, right: Written)
    | Group(inside: Written)

  /** The tokens of `w`, followed by `ts`. */
  function Text(w: Written, ts: seq<Token>): (r: seq<Token>)
    ensures |r| > |ts|
    decreases w
  {
    match w
    case Number(n) => [TNum(n)] + ts
    case Word(kind, id) => [TName(kind, id)] + ts
    case Entry(t, at) => [TTable(t)] + ([TOpenIndex] + Text(at, [TCloseIndex] + ts))
    case Item(l, at) => [TItem] + Text(at, [TOf] + ([TList(l)] + ts))
    case Length(l) => [TLength] + ([TOf] + ([TList(l)] + ts))
    case Random(low, comma, high) => [TRandint] + ([TOpen] + Text(low, After(comma, Text(high, [TClose] + ts))))
    case Minus(x) => [TOp(Sub)] + Text(x, ts)
    case NotOf(x) => [TNot] + Text(x, ts)
    case Chain(op, l, r) => Text(l, [TOp(op)] + Text(r, ts))
    case Group(x) => [TOpen] + Text(x, [TClose] + ts)
  }

  function After(comma: bool, ts: seq<Token>): seq<Token> {
    if comma then [TComma] + ts else ts
  }

  /** Brackets leave nothing behind. */
  function Means(w: Written): Expr {
    match w
    case Number(n) => Num(n)
    case Word(kind, id) => Name(kind, id)
    case Entry(t, at) => Index(t, Means(at))
    case Item(l, at) => ListItem(l, Means(at))
    case Length(l) => ListLength(l)
    case Random(low, _, high) => Randint(Means(low), Means(high))
    case Minus(x) => Neg(Means(x))
    case NotOf(x) => Not(Means(x))
    case Chain(op, l, r) => Binary(op, Means(l), Means(r))
    case Group(x) => Means(x)
  }

  predicate StartsNot(w: Written) {
    w.NotOf? || (w.Chain? && StartsNot(w.left))
  }

  predicate StartsMinus(w: Written) {
    w.Minus? || (w.Chain? && StartsMinus(w.left))
  }

  /** Where an operator of level `q` may stand: operators of one level group to
      the left, tighter ones first. A `not` at the start of a comparison takes the
      whole comparison, any other only the operand after it. */
  predicate Fits(w: Written, q: nat)
    requires q <= UNARY_LEVEL
    decreases w, UNARY_LEVEL - q
  {
    if q == UNARY_LEVEL then
      match w
      case Entry(_, at) => Fits(at, 0)
      case Item(_, at) => Fits(at, UNARY_LEVEL)
      case Random(low, comma, high) => Fits(low, 0) && Fits(high, 0) && (comma || !StartsMinus(high))
      case Minus(x) => Fits(x, UNARY_LEVEL)
      case NotOf(x) => Fits(x, UNARY_LEVEL)
      case Chain(_, _, _) => false
      case Group(x) => Fits(x, 0)
      case _ => true
    else if q == NOT_LEVEL && StartsNot(w) then w.NotOf? && Fits(w.of, q)
    else if w.Chain? && Level(w.op) == q then Fits(w.left, q) && Fits(w.right, q + 1)
    else Fits(w, q + 1)
  }

  // ---- whatever fits is parsed ---------------------------------------------

  lemma {:induction false} Starts(w: Written, rest: seq<Token>)
    ensures Begins(Text(w, rest), TNot) <==> StartsNot(w)
    ensures Text(w, rest)[0].TOp? <==> StartsMinus(w)
    ensures Text(w, rest)[0] != TComma
  {
    if w.Chain? {
      Starts(w.left, [TOp(w.op)] + Text(w.right, rest));
    }
  }

  lemma {:induction false} ChainLevel(w: Written, q: nat)
    requires q <= UNARY_LEVEL && w.Chain? && Fits(w, q)
    ensures Level(w.op) >= q
    decreases UNARY_LEVEL - q
  {
    if q < UNARY_LEVEL && Level(w.op) != q {
      ChainLevel(w, q + 1);
    }
  }

  /** No operator follows that this reading would still take. */
  predicate Ends(w: Written, q: nat, rest: seq<Token>) {
    NoOp(rest, if q == NOT_LEVEL && w.NotOf? then q else q + 1)
  }

  lemma {:induction false} Parses(w: Written, q: nat, rest: seq<Token>)
    requires q <= UNARY_LEVEL && Fits(w, q) && Ends(w, q, rest)
    ensures Parse(Text(w, rest), q) == Loop(q, Means(w), rest)
    decreases w, 2, UNARY_LEVEL - q
  {
    hide Atom, Text, Means;
    if q == UNARY_LEVEL {
      ParsesAtom(w, rest);
    } else {
      Starts(w, rest);
      if q == NOT_LEVEL && StartsNot(w) {
        ParsesNot(w, rest);
      } else if w.Chain? && Level(w.op) == q {
        ParsesChain(w, q, rest);
      } else {
        Parses(w, q + 1, rest);
      }
    }
  }

  lemma {:induction false} ParsesNot(w: Written, rest: seq<Token>)
    requires w.NotOf? && Fits(w.of, NOT_LEVEL) && NoOp(rest, NOT_LEVEL)
    ensures Parse(Text(w, rest), NOT_LEVEL) == Loop(NOT_LEVEL, Means(w), rest)
    decreases w, 1
  {
    hide Atom;
    Rest1(TNot, Text(w.of, rest));
    Parses(w.of, NOT_LEVEL, rest);
  }

  lemma {:induction false} ParsesChain(w: Written, q: nat, rest: seq<Token>)
    requires q < UNARY_LEVEL && w.Chain? && Level(w.op) == q && Fits(w, q) && NoOp(rest, q + 1)
    requires q == NOT_LEVEL ==> !StartsNot(w)
    ensures Parse(Text(w, rest), q) == Loop(q, Means(w), rest)
    decreases w, 1
  {
    hide Atom, Parse;
    Rest1(TOp(w.op), Text(w.right, rest));
    Parses(w.left, q, [TOp(w.op)] + Text(w.right, rest));
    Parses(w.right, q + 1, rest);
  }

  lemma {:induction false} ParsesInside(w: Written, t: Token, rest: seq<Token>)
    requires Fits(w, 0) && !t.TOp?
    ensures Closed(Parse(Text(w, [t] + rest), 0), t) == Ok(Means(w), rest)
    decreases w, 3
  {
    hide Parse;
    Rest1(t, rest);
    Parses(w, 0, [t] + rest);
  }

  lemma {:induction false} ParsesAtom(w: Written, rest: seq<Token>)
    requires Fits(w, UNARY_LEVEL)
    ensures Atom(Text(w, rest)) == Ok(Means(w), rest)
    decreases w, 1
  {
    hide Parse, Closed;
    match w
    case Number(n) => Rest1(TNum(n), rest);
    case Word(kind, id) => Rest1(TName(kind, id), rest);
    case Entry(t, at) => ParsesEntry(t, at, rest);
    case Item(l, at) => ParsesItem(l, at, rest);
    case Length(l) =>
      Rest1(TLength, [TOf] + ([TList(l)] + rest));
      assert ([TOf] + ([TList(l)] + rest))[2..] == rest;
    case Random(_, _, _) => ParsesRandom(w, rest);
    case Minus(x) =>
      Rest1(TOp(Sub), Text(x, rest));
      ParsesAtom(x, rest);
    case NotOf(x) =>
      Rest1(TNot, Text(x, rest));
      ParsesAtom(x, rest);
    case Group(x) =>
      Rest1(TOpen, Text(x, [TClose] + rest));
      ParsesInside(x, TClose, rest);
  }

  lemma {:induction false} ParsesEntry(t: nat, at: Written, rest: seq<Token>)
    requires Fits(at, 0)
    ensures Atom(Text(Entry(t, at), rest)) == Ok(Index(t, Means(at)), rest)
    decreases at, 4
  {
    hide Parse, Closed;
    Rest1(TTable(t), [TOpenIndex] + Text(at, [TCloseIndex] + rest));
    Rest1(TOpenIndex, Text(at, [TCloseIndex] + rest));
    ParsesInside(at, TCloseIndex, rest);
  }

  lemma {:induction false} ParsesItem(l: nat, at: Written, rest: seq<Token>)
    requires Fits(at, UNARY_LEVEL)
    ensures Atom(Text(Item(l, at), rest)) == Ok(ListItem(l, Means(at)), rest)
    decreases at, 4
  {
    hide Parse;
    var after := [TOf] + ([TList(l)] + rest);
    Rest1(TItem, Text(at, after));
    Rest1(TOf, [TList(l)] + rest);
    Rest1(TList(l), rest);
    ParsesAtom(at, after);
  }

  lemma {:induction false} ParsesRandom(w: Written, rest: seq<Token>)
    requires w.Random? && Fits(w, UNARY_LEVEL)
    ensures Atom(Text(w, rest)) == Ok(Means(w), rest)
    decreases w, 0
  {
    hide Parse, Closed;
    var high := Text(w.high, [TClose] + rest);
    var more := After(w.comma, high);
    var low := Text(w.low, more);
    Rest1(TRandint, [TOpen] + low);
    Rest1(TOpen, low);
    Rest1(TComma, high);
    Starts(w.high, [TClose] + rest);
    ParsesInside(w.high, TClose, rest);
    Parses(w.low, 0, more);
  }

  // ---- and nothing else is --------------------------------------------------

  /** `w` is how the tokens taken from `ts` are written. */
  predicate Spells(w: Written, q: nat, r: Parsed, ts: seq<Token>)
    requires q <= UNARY_LEVEL
  {
    r.Ok? && Fits(w, q) && Means(w) == r.e && Text(w, r.rest) == ts && NoOp(r.rest, q)
  }

  lemma {:induction false} Spelled(ts: seq<Token>, q: nat) returns (w: Written)
    requires q <= UNARY_LEVEL && Parse(ts, q).Ok?
    ensures Spells(w, q, Parse(ts, q), ts)
    decreases |ts|, UNARY_LEVEL + 2 - q
  {
    hide Atom, Means, Text;
    if q == UNARY_LEVEL {
      w := SpelledAtom(ts);
    } else if q == NOT_LEVEL && Begins(ts, TNot) {
      w := SpelledNot(ts);
    } else {
      var r := Parse(ts, q + 1);
      var first := Spelled(ts, q + 1);
      Starts(first, r.rest);
      if first.Chain? {
        ChainLevel(first, q + 1);
      }
      w := SpelledLoop(first, q, r.rest);
    }
  }

  lemma {:induction false} SpelledNot(ts: seq<Token>) returns (w: Written)
    requires Begins(ts, TNot) && Parse(ts, NOT_LEVEL).Ok?
    ensures Spells(w, NOT_LEVEL, Parse(ts, NOT_LEVEL), ts)
    decreases |ts|, 0
  {
    hide Atom;
    assert ts == [TNot] + ts[1..];
    var x := Spelled(ts[1..], NOT_LEVEL);
    w := NotOf(x);
  }

  /** From a left operand on. */
  lemma {:induction false} SpelledLoop(left: Written, q: nat, ts: seq<Token>) returns (w: Written)
    requires q < UNARY_LEVEL && Loop(q, Means(left), ts).Ok?
    requires Fits(left, q) && (q == NOT_LEVEL ==> !StartsNot(left)) && NoOp(ts, q + 1)
    ensures Spells(w, q, Loop(q, Means(left), ts), Text(left, ts))
    ensures q == NOT_LEVEL ==> !StartsNot(w)
    decreases |ts|, UNARY_LEVEL + 2
  {
    hide Atom, Parse;
    if ts != [] && ts[0].TOp? && Level(ts[0].op) == q {
      var r := Parse(ts[1..], q + 1);
      var right := Spelled(ts[1..], q + 1);
      var more := Chain(ts[0].op, left, right);
      assert ts == [ts[0]] + ts[1..];
      w := SpelledLoop(more, q, r.rest);
    } else {
      w := left;
    }
  }

  lemma {:induction false} SpelledInside(ts: seq<Token>, t: Token) returns (w: Written)
    requires Closed(Parse(ts, 0), t).Ok?
    ensures Fits(w, 0) && Means(w) == Closed(Parse(ts, 0), t).e
    ensures Text(w, [t] + Closed(Parse(ts, 0), t).rest) == ts
    decreases |ts|, UNARY_LEVEL + 3
  {
    hide Atom, Parse, Fits;
    w := Spelled(ts, 0);
    var rest := Parse(ts, 0).rest;
    assert rest == [t] + rest[1..];
  }

  lemma {:induction false} SpelledAtom(ts: seq<Token>) returns (w: Written)
    requires Atom(ts).Ok?
    ensures Spells(w, UNARY_LEVEL, Atom(ts), ts)
    decreases |ts|, 1
  {
    hide Parse, Closed;
    var r, rest := Atom(ts), ts[1..];
    assert ts == [ts[0]] + rest;
    match ts[0]
    case TNum(n) => w := Number(n);
    case TName(kind, id) => w := Word(kind, id);
    case TOpen =>
      var x := SpelledInside(rest, TClose);
      w := Group(x);
    case TNot =>
      var x := SpelledAtom(rest);
      w := NotOf(x);
    case TOp(op) =>
      var x := SpelledAtom(rest);
      w := Minus(x);
    case TTable(_) => w := SpelledEntry(ts);
    case TItem => w := SpelledItem(ts);
    case TLength => w := SpelledLength(ts);
    case TRandint => w := SpelledRandom(ts);
  }

  lemma {:induction false} SpelledEntry(ts: seq<Token>) returns (w: Written)
    requires ts != [] && ts[0].TTable? && Atom(ts).Ok?
    ensures Spells(w, UNARY_LEVEL, Atom(ts), ts)
    decreases |ts|, 0
  {
    hide Parse, Closed;
    var rest := ts[1..];
    assert ts == [ts[0]] + rest;
    assert rest == [TOpenIndex] + rest[1..];
    var x := SpelledInside(rest[1..], TCloseIndex);
    w := Entry(ts[0].id, x);
  }

  lemma {:induction false} SpelledLength(ts: seq<Token>) returns (w: Written)
    requires Begins(ts, TLength) && Atom(ts).Ok?
    ensures Spells(w, UNARY_LEVEL, Atom(ts), ts)
  {
    var rest := ts[1..];
    assert ts == [TLength] + rest;
    w := Length(rest[1].id);
    assert rest == [TOf] + ([TList(w.list)] + rest[2..]);
  }

  lemma {:induction false} SpelledItem(ts: seq<Token>) returns (w: Written)
    requires Begins(ts, TItem) && Atom(ts).Ok?
    ensures Spells(w, UNARY_LEVEL, Atom(ts), ts)
    decreases |ts|, 0
  {
    hide Parse;
    var rest := ts[1..];
    assert ts == [TItem] + rest;
    var x := SpelledAtom(rest);
    var after := Atom(rest).rest;
    w := Item(after[1].id, x);
    assert after == [TOf] + ([TList(w.list)] + after[2..]);
  }

  lemma {:induction false} RandomParts(ts: seq<Token>)
    requires Begins(ts, TRandint) && Atom(ts).Ok?
    ensures Begins(ts[1..], TOpen)
    ensures var low := Parse(ts[1..][1..], 0);
            && low.Ok?
            && var high := Closed(Parse(if Begins(low.rest, TComma) then low.rest[1..] else low.rest, 0), TClose);
            && high.Ok? && Atom(ts) == Ok(Randint(low.e, high.e), high.rest)
  {
    hide Parse, Closed;
  }

  lemma {:induction false} SpelledRandom(ts: seq<Token>) returns (w: Written)
    requires Begins(ts, TRandint) && Atom(ts).Ok?
    ensures Spells(w, UNARY_LEVEL, Atom(ts), ts)
    decreases |ts|, 0
  {
    hide Parse, Closed, Atom;
    RandomParts(ts);
    var r, rest := Atom(ts), ts[1..];
    assert ts == [TRandint] + ([TOpen] + rest[1..]);
    var low := Spelled(rest[1..], 0);
    var after := Parse(rest[1..], 0).rest;
    var comma := Begins(after, TComma);
    var more := if comma then after[1..] else after;
    assert after == After(comma, more);
    var high := SpelledInside(more, TClose);
    Starts(high, [TClose] + r.rest);
    w := Random(low, comma, high);
  }

  // ---- the grammar ----------------------------------------------------------

  /** The parser returns a tree exactly when it can be written with the tokens
      it takes, and then takes all it can. */
  lemma {:induction false} ParserIsTheGrammar(ts: seq<Token>, e: Expr, rest: seq<Token>)
    ensures Parse(ts, 0) == Ok(e, rest)
       <==> exists w :: Fits(w, 0) && Means(w) == e && Text(w, rest) == ts && NoOp(rest, 0)
  {
    hide Parse;
    if Parse(ts, 0) == Ok(e, rest) {
      var w := Spelled(ts, 0);
    }
    if w :| Fits(w, 0) && Means(w) == e && Text(w, rest) == ts && NoOp(rest, 0) {
      Parses(w, 0, rest);
    }
  }

  /** No text can be read two ways. */
  lemma {:induction false} OneReading(v: Written, w: Written)
    requires Fits(v, 0) && Fits(w, 0) && Text(v, []) == Text(w, [])
    ensures Means(v) == Means(w)
  {
    hide Parse;
    Parses(v, 0, []);
    Parses(w, 0, []);
  }

  /** Brackets round a printed expression change nothing about it, whatever it is. */
  lemma {:induction false} BracketsAreIdle(e: Expr, ts: seq<Token>)
    ensures Atom([TOpen] + Print(e, 0, [TClose] + ts)) == Ok(ReadWhole(e), ts)
    ensures Atom([TOpen] + Print(e, 0, [TClose] + ts)) == Ok(e, ts) <==> Clear(e, true)
  {
    hide Parse, Closed;
    Rest1(TOpen, Print(e, 0, [TClose] + ts));
    ParseClosed(e, TClose, ts);
    ReadWholeSame(e);
  }

  /** Parsed where only operators of level `q` and tighter are taken, a looser
      expression without its brackets is not taken whole. */
  lemma {:induction false} StopsShort(e: Expr, q: nat, ts: seq<Token>)
    requires e.Binary? && Level(e.op) < q <= UNARY_LEVEL
    ensures Parse(Print(e, 0, ts), q).Ok? && |Parse(Print(e, 0, ts), q).rest| > |ts|
    decreases e
  {
    hide Parse, Loop, Atom;
    var p, l := Level(e.op), e.left;
    var more := [TOp(e.op)] + Print(e.right, p + 1, ts);
    PrintGrows(e.right, p + 1, ts);
    if l.Binary? && p <= Level(l.op) < q {
      BracketedPrint(l, p, 0, more);
      StopsShort(l, q, more);
    } else {
      BracketedPrint(l, p, q, more);
      ParseRight(l, q, more);
    }
  }

  lemma {:induction false} PrintGrows(e: Expr, q: nat, ts: seq<Token>)
    ensures |Print(e, q, ts)| > |ts|
    decreases e
  {
    match e
    case Index(_, where) => PrintGrows(where, 0, [TCloseIndex] + ts);
    case ListItem(l, where) => PrintGrows(where, UNARY_LEVEL, [TOf, TList(l)] + ts);
    case Randint(low, high) =>
      PrintGrows(high, 0, [TClose] + ts);
      PrintGrows(low, 0, [TComma] + Print(high, 0, [TClose] + ts));
    case Neg(x) => PrintGrows(x, UNARY_LEVEL, ts);
    case Not(x) => PrintGrows(x, UNARY_LEVEL, ts);
    case Binary(op, l, r) =>
      var p, after := Level(op), if Bracketed(e, q) then [TClose] + ts else ts;
      PrintGrows(r, p + 1, after);
      PrintGrows(l, p, [TOp(op)] + Print(r, p + 1, after));
    case _ =>
  }

  /** The printer brackets an operand exactly where the parser would not take it
      whole without. */
  lemma {:induction false} BracketsAreNeeded(e: Expr, q: nat, ts: seq<Token>)
    requires 0 < q <= UNARY_LEVEL && NoOp(ts, q)
    ensures var bare := Parse(Print(e, 0, ts), q);
            Print(e, q, ts) ==
            if bare.Ok? && bare.rest == ts then Print(e, 0, ts) else [TOpen] + Print(e, 0, [TClose] + ts)
  {
    hide Parse, Atom;
    if Bracketed(e, q) {
      StopsShort(e, q, ts);
    } else {
      BracketedPrint(e, q, 0, ts);
      ParseRight(e, q, ts);
    }
  }

  // ---- brackets round every operand -----------------------------------------

  function Guarded(e: Expr): (w: Written)
    ensures Means(w) == e
  {
    match e
    case Num(n) => Number(n)
    case Name(kind, id) => Word(kind, id)
    case Index(t, where) => Entry(t, Guarded(where))
    case ListItem(l, where) => Item(l, Group(Guarded(where)))
    case ListLength(l) => Length(l)
    case Randint(low, high) => Random(Guarded(low), true, Guarded(high))
    case Neg(x) => Minus(Group(Guarded(x)))
    case Not(x) => NotOf(Group(Guarded(x)))
    case Binary(op, l, r) => Chain(op, Group(Guarded(l)), Group(Guarded(r)))
  }

  lemma {:induction false} AtomFits(w: Written, q: nat)
    requires q <= UNARY_LEVEL && !w.Chain? && !w.NotOf?
    ensures Fits(w, q) == Fits(w, UNARY_LEVEL)
    decreases UNARY_LEVEL - q
  {
    if q < UNARY_LEVEL {
      AtomFits(w, q + 1);
    }
  }

  lemma {:induction false} ChainFits(w: Written, q: nat)
    requires w.Chain? && q <= Level(w.op) && !StartsNot(w)
    ensures Fits(w, q) == Fits(w, Level(w.op))
    decreases UNARY_LEVEL - q
  {
    if q < Level(w.op) {
      ChainFits(w, q + 1);
    }
  }

  lemma {:induction false} GuardedFits(e: Expr)
    ensures Fits(Guarded(e), 0)
    decreases e
  {
    if !e.Binary? && !e.Not? {
      AtomFits(Guarded(e), 0);
    }
    match e
    case Index(_, where) => GuardedFits(where);
    case ListItem(_, where) =>
      GuardedFits(where);
      AtomFits(Group(Guarded(where)), UNARY_LEVEL);
    case Randint(low, high) =>
      GuardedFits(low);
      GuardedFits(high);
    case Neg(x) => GuardedFits(x);
    case Not(x) =>
      GuardedFits(x);
      AtomFits(Group(Guarded(x)), NOT_LEVEL);
    case Binary(op, l, r) =>
      GuardedFits(l);
      GuardedFits(r);
      AtomFits(Group(Guarded(l)), Level(op));
      AtomFits(Group(Guarded(r)), Level(op) + 1);
      ChainFits(Guarded(e), 0);
    case _ =>
  }

  /** Every tree can be written so that it comes back, clear or not. */
  lemma {:induction false} BracketsSuffice(e: Expr)
    ensures Expression(Text(Guarded(e), [])) == Ok(e, [])
  {
    hide Parse;
    GuardedFits(e);
    Parses(Guarded(e), 0, []);
  }
}
