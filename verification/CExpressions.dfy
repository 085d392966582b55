/** The C text of an expression, read by C's own grammar (ISO C99, sections 6.5.5 to 6.5.14). */
module CExpressions {
  import opened Expressions

  // ---- C's levels: the dialect's comparison level is two levels here ------

  const C_EQUALITY := 2
  const C_RELATIONAL := 3
  const C_UNARY := 6

  function CLevel(op: Op): nat {
    match op
    case Or => 0
    case And => 1
    case Eq => 2 case Ne => 2
    case Lt => 3 case Gt => 3 case Le => 3 case Ge => 3
    case Add => 4 case Sub => 4
    case Mul => 5 case Div => 5 case Mod => 5
  }

  /** The loosest C level of a dialect level. */
  function Loosest(q: nat): nat {
    if q <= 2 then q else q + 1
  }

  datatype CToken =
    | CNum(value: nat)
    | CName(kind: Kind, id: nat)    // a variable, or whatever text reads the pin or port
    | CTable(id: nat)               // the clamped table read; its index follows in brackets
    | CItem(id: nat)                // the list read; its index follows in brackets
    | CLength(id: nat)
    | COp(op: Op)
    | CBang | COpen | CClose

  /** `expr_c`. A reporter without a C form (`randint`) is refused before any text is made. */
  predicate HasC(e: Expr)
    decreases e
  {
    match e
    case Randint(_, _) => false
    case Index(_, where) => HasC(where)
    case ListItem(_, where) => HasC(where)
    case Neg(x) => HasC(x)
    case Not(x) => HasC(x)
    case Binary(_, l, r) => HasC(l) && HasC(r)
    case _ => true
  }

  function PrintC(e: Expr, q: nat, ts: seq<CToken>): seq<CToken>
    requires HasC(e)
    decreases e
  {
    match e
    case Num(n) => [CNum(n)] + ts
    case Name(kind, id) => [CName(kind, id)] + ts
    case Index(t, where) => [CTable(t)] + ([COpen] + PrintC(where, 0, [CClose] + ts))
    case ListItem(l, where) => [CItem(l)] + ([COpen] + PrintC(where, 0, [CClose] + ts))
    case ListLength(l) => [CLength(l)] + ts
    case Neg(x) => [COp(Sub)] + ([COpen] + PrintC(x, UNARY_LEVEL, [CClose] + ts))
    case Not(x) => [CBang] + ([COpen] + PrintC(x, UNARY_LEVEL, [CClose] + ts))
    case Binary(op, l, r) =>
      var p := Level(op);
      if p < q then [COpen] + PrintC(l, p, [COp(op)] + PrintC(r, p + 1, [CClose] + ts))
      else PrintC(l, p, [COp(op)] + PrintC(r, p + 1, ts))
  }

  lemma {:induction false} DrawnIn(e: Expr, q: nat, ts: seq<Token>)
    ensures TRandint in Print(e, q, ts) <==> !HasC(e) || TRandint in ts
    decreases e
  {
    match e
    case Index(_, where) => DrawnIn(where, 0, [TCloseIndex] + ts);
    case ListItem(l, where) => DrawnIn(where, UNARY_LEVEL, [TOf, TList(l)] + ts);
    case Neg(x) => DrawnIn(x, UNARY_LEVEL, ts);
    case Not(x) => DrawnIn(x, UNARY_LEVEL, ts);
    case Binary(op, l, r) =>
      var p, after := Level(op), if Bracketed(e, q) then [TClose] + ts else ts;
      DrawnIn(r, p + 1, after);
      DrawnIn(l, p, [TOp(op)] + Print(r, p + 1, after));
    case _ =>
  }

  /** What has no C form is what draws a random number somewhere. */
  lemma {:induction false} HasCUnlessDrawn(e: Expr)
    ensures HasC(e) <==> TRandint !in Print(e, 0, [])
  {
    DrawnIn(e, 0, []);
  }

  // ---- the C grammar ------------------------------------------------------

  datatype CParsed = CRead(e: Expr, rest: seq<CToken>) | CError

  function ParseC(ts: seq<CToken>, level: nat): (r: CParsed)
    requires level <= C_UNARY
    ensures r.CRead? ==> |r.rest| < |ts|
    decreases |ts|, C_UNARY + 1 - level
  {
    if level == C_UNARY then UnaryC(ts)
    else
      var r := ParseC(ts, level + 1);
      if r.CRead? then LoopC(level, r.e, r.rest) else CError
  }

  function LoopC(level: nat, node: Expr, ts: seq<CToken>): (r: CParsed)
    requires level <= C_UNARY
    ensures r.CRead? ==> |r.rest| <= |ts|
    decreases |ts|, C_UNARY + 2
  {
    if level < C_UNARY && ts != [] && ts[0].COp? && CLevel(ts[0].op) == level then
      var r := ParseC(ts[1..], level + 1);
      if r.CRead? then LoopC(level, Binary(ts[0].op, node, r.e), r.rest) else CError
    else CRead(node, ts)
  }

  function BracketC(ts: seq<CToken>): (r: CParsed)
    ensures r.CRead? ==> |r.rest| < |ts|
    decreases |ts|, C_UNARY + 3
  {
    if ts == [] || ts[0] != COpen then CError
    else
      var r := ParseC(ts[1..], 0);
      if r.CRead? && r.rest != [] && r.rest[0] == CClose then CRead(r.e, r.rest[1..]) else CError
  }

  function UnaryC(ts: seq<CToken>): (r: CParsed)
    ensures r.CRead? ==> |r.rest| < |ts|
    decreases |ts|, 0
  {
    if ts == [] then CError
    else
      var rest := ts[1..];
      match ts[0]
      case CNum(n) => CRead(Num(n), rest)
      case CName(kind, id) => CRead(Name(kind, id), rest)
      case CLength(l) => CRead(ListLength(l), rest)
      case CTable(t) =>
        var r := BracketC(rest);
        if r.CRead? then CRead(Index(t, r.e), r.rest) else CError
      case CItem(l) =>
        var r := BracketC(rest);
        if r.CRead? then CRead(ListItem(l, r.e), r.rest) else CError
      case CBang =>
        var r := UnaryC(rest);
        if r.CRead? then CRead(Not(r.e), r.rest) else CError
      case COp(op) =>
        if op != Sub then CError
        else
          var r := UnaryC(rest);
          if r.CRead? then CRead(Neg(r.e), r.rest) else CError
      case COpen =>
        var r := ParseC(rest, 0);
        if r.CRead? && r.rest != [] && r.rest[0] == CClose then CRead(r.e, r.rest[1..]) else CError
      case CClose => CError
  }

  // ---- what C makes of the text -------------------------------------------

  /** A run of comparisons as C groups it: an equality waiting for its right
      operand, and the relational operand being built. */
  datatype Chain = Chain(waiting: Waiting, current: Expr)
  datatype Waiting = Nothing | For(op: Op, left: Expr)

  function Join(c: Chain): Expr {
    match c.waiting
    case Nothing => c.current
    case For(op, left) => Binary(op, left, c.current)
  }

  predicate IsComparison(e: Expr) {
    e.Binary? && Level(e.op) == NOT_LEVEL
  }

  function ReadC(e: Expr): Expr
    decreases e, 1
  {
    match e
    case Index(t, where) => Index(t, ReadC(where))
    case ListItem(l, where) => ListItem(l, ReadC(where))
    case Neg(x) => Neg(ReadC(x))
    case Not(x) => Not(ReadC(x))
    case Binary(op, l, r) =>
      if Level(op) == NOT_LEVEL then Join(ChainC(e)) else Binary(op, ReadC(l), ReadC(r))
    case _ => e
  }

  /** The comparisons along the left spine. */
  function ChainC(e: Expr): Chain
    decreases e, if IsComparison(e) then 0 else 2
  {
    if !IsComparison(e) then Chain(Nothing, ReadC(e))
    else
      var left := ChainC(e.left);
      if CLevel(e.op) == C_RELATIONAL then Chain(left.waiting, Binary(e.op, left.current, ReadC(e.right)))
      else Chain(For(e.op, Join(left)), ReadC(e.right))
  }

  // ---- C does exactly that ------------------------------------------------

  predicate NoOpC(ts: seq<CToken>, from: nat) {
    ts != [] && ts[0].COp? ==> CLevel(ts[0].op) < from
  }

  lemma {:induction false} RestC(t: CToken, ts: seq<CToken>)
    ensures ([t] + ts)[1..] == ts && ([t] + ts)[0] == t
  {
  }

  /** Where C stands after the comparisons of a chain. */
  function Resume(c: Chain, ts: seq<CToken>): CParsed {
    var r := LoopC(C_RELATIONAL, c.current, ts);
    if r.CError? then CError
    else LoopC(C_EQUALITY, if c.waiting.Nothing? then r.e else Binary(c.waiting.op, c.waiting.left, r.e), r.rest)
  }

  lemma {:induction false} DescendC(chunk: seq<CToken>, a: Expr, ts: seq<CToken>, from: nat, level: nat)
    requires level <= from <= C_UNARY
    requires ParseC(chunk, from) == CRead(a, ts)
    requires NoOpC(ts, level + 1)
    ensures ParseC(chunk, level) == if level == from then CRead(a, ts) else LoopC(level, a, ts)
    decreases from - level
  {
    if level < from {
      DescendC(chunk, a, ts, from, level + 1);
    }
  }

  lemma {:induction false} BracketedC(e: Expr, q: nat, q1: nat, ts: seq<CToken>)
    requires HasC(e) && Bracketed(e, q) == Bracketed(e, q1)
    ensures PrintC(e, q, ts) == PrintC(e, q1, ts)
  {
  }

  lemma {:induction false} InBrackets(e: Expr, q: nat, ts: seq<CToken>)
    requires HasC(e) && (q == 0 || q == UNARY_LEVEL)
    ensures BracketC([COpen] + PrintC(e, q, [CClose] + ts)) == CRead(ReadC(e), ts)
    ensures UnaryC([COpen] + PrintC(e, q, [CClose] + ts)) == CRead(ReadC(e), ts)
    decreases e, 6
  {
    hide PrintC, ReadC;
    var inside := [CClose] + ts;
    RestC(COpen, PrintC(e, q, inside));
    RestC(CClose, ts);
    if q == 0 {
      BareC(e, 0, inside);
    } else {
      AtomC(e, inside);
      DescendC(PrintC(e, q, inside), ReadC(e), inside, C_UNARY, 0);
    }
  }

  lemma {:induction false} AtomC(e: Expr, ts: seq<CToken>)
    requires HasC(e)
    ensures ParseC(PrintC(e, UNARY_LEVEL, ts), C_UNARY) == CRead(ReadC(e), ts)
    decreases e, 5
  {
    hide ParseC, LoopC, BracketC;
    AtUnary(PrintC(e, UNARY_LEVEL, ts));
    match e
    case Num(n) => RestC(CNum(n), ts);
    case Name(kind, id) => RestC(CName(kind, id), ts);
    case ListLength(l) => RestC(CLength(l), ts);
    case Index(t, where) =>
      InBrackets(where, 0, ts);
      RestC(CTable(t), [COpen] + PrintC(where, 0, [CClose] + ts));
    case ListItem(l, where) =>
      InBrackets(where, 0, ts);
      RestC(CItem(l), [COpen] + PrintC(where, 0, [CClose] + ts));
    case Neg(x) =>
      InBrackets(x, UNARY_LEVEL, ts);
      RestC(COp(Sub), [COpen] + PrintC(x, UNARY_LEVEL, [CClose] + ts));
    case Not(x) =>
      InBrackets(x, UNARY_LEVEL, ts);
      RestC(CBang, [COpen] + PrintC(x, UNARY_LEVEL, [CClose] + ts));
    case Binary(op, l, r) =>
      var inside := [CClose] + ts;
      RestC(COpen, PrintC(e, 0, inside));
      RestC(CClose, ts);
      BareC(e, 0, inside);
      LoopStops(0, ReadC(e), inside);
  }

  lemma {:induction false} AtUnary(ts: seq<CToken>)
    ensures ParseC(ts, C_UNARY) == UnaryC(ts)
  {
  }

  lemma {:induction false} LoopStops(level: nat, a: Expr, ts: seq<CToken>)
    requires level <= C_UNARY && NoOpC(ts, level)
    ensures LoopC(level, a, ts) == CRead(a, ts)
  {
  }

  /** A right operand. */
  lemma {:induction false} RightC(e: Expr, q: nat, ts: seq<CToken>)
    requires HasC(e) && 0 < q <= UNARY_LEVEL && NoOpC(ts, Loosest(q))
    ensures ParseC(PrintC(e, q, ts), Loosest(q)) == CRead(ReadC(e), ts)
    decreases e, 7
  {
    hide PrintC, ReadC, ParseC;
    if Bracketed(e, q) || q == UNARY_LEVEL {
      BracketedC(e, q, UNARY_LEVEL, ts);
      AtomC(e, ts);
      DescendC(PrintC(e, q, ts), ReadC(e), ts, C_UNARY, Loosest(q));
    } else {
      BareC(e, q, ts);
    }
  }

  /** An expression printed without brackets of its own. */
  lemma {:induction false} BareC(e: Expr, q: nat, ts: seq<CToken>)
    requires HasC(e) && q < UNARY_LEVEL && !Bracketed(e, q)
    requires NoOpC(ts, Loosest(q + 1))
    ensures q == NOT_LEVEL ==> ParseC(PrintC(e, q, ts), Loosest(q)) == Resume(ChainC(e), ts)
    ensures q != NOT_LEVEL ==> ParseC(PrintC(e, q, ts), Loosest(q)) == LoopC(Loosest(q), ReadC(e), ts)
    ensures NoOpC(ts, Loosest(q)) ==> ParseC(PrintC(e, q, ts), Loosest(q)) == CRead(ReadC(e), ts)
    decreases e, if e.Binary? then 4 else 6, UNARY_LEVEL - q
  {
    hide HasC, ReadC, UnaryC, BracketC;
    var tokens := PrintC(e, q, ts);
    if !e.Binary? {
      BracketedC(e, q, UNARY_LEVEL, ts);
      AtomC(e, ts);
      AtomicC(tokens, ReadC(e), ts, q);
    } else if Level(e.op) > q {
      BracketedC(e, q, q + 1, ts);
      if q + 1 < UNARY_LEVEL {
        BareC(e, q + 1, ts);
      }
      DescendC(tokens, ReadC(e), ts, Loosest(q + 1), Loosest(q + 1));
      LoosestC(tokens, ReadC(e), ts, q);
    } else {
      SameLevelC(e, q, ts);
    }
    ReadChain(e);
    ResumeStops(ChainC(e), ts);
    if q != NOT_LEVEL && NoOpC(ts, Loosest(q)) {
      LoopStops(Loosest(q), ReadC(e), ts);
    }
  }

  lemma {:induction false} ReadChain(e: Expr)
    ensures Join(ChainC(e)) == ReadC(e)
    ensures !IsComparison(e) ==> ChainC(e) == Chain(Nothing, ReadC(e))
  {
  }

  lemma {:induction false} ResumeStops(c: Chain, ts: seq<CToken>)
    ensures NoOpC(ts, C_EQUALITY) ==> Resume(c, ts) == CRead(Join(c), ts)
  {
  }

  /** From the level just tighter than the dialect's level `q`. */
  lemma {:induction false} LoosestC(tokens: seq<CToken>, a: Expr, ts: seq<CToken>, q: nat)
    requires q < UNARY_LEVEL
    requires ParseC(tokens, Loosest(q + 1)) == CRead(a, ts)
    ensures q == NOT_LEVEL ==> ParseC(tokens, Loosest(q)) == Resume(Chain(Nothing, a), ts)
    ensures q != NOT_LEVEL ==> ParseC(tokens, Loosest(q)) == LoopC(Loosest(q), a, ts)
  {
    hide UnaryC;
    assert ParseC(tokens, C_RELATIONAL) == var r := ParseC(tokens, C_RELATIONAL + 1); if r.CRead? then LoopC(C_RELATIONAL, r.e, r.rest) else CError;
  }

  lemma {:induction false} AtomicC(tokens: seq<CToken>, a: Expr, ts: seq<CToken>, q: nat)
    requires q < UNARY_LEVEL
    requires ParseC(tokens, C_UNARY) == CRead(a, ts)
    requires NoOpC(ts, Loosest(q + 1))
    ensures q == NOT_LEVEL ==> ParseC(tokens, Loosest(q)) == Resume(Chain(Nothing, a), ts)
    ensures q != NOT_LEVEL ==> ParseC(tokens, Loosest(q)) == LoopC(Loosest(q), a, ts)
  {
    hide UnaryC, ParseC;
    DescendC(tokens, a, ts, C_UNARY, Loosest(q + 1));
    if Loosest(q + 1) < C_UNARY {
      LoopStops(Loosest(q + 1), a, ts);
    }
    LoosestC(tokens, a, ts, q);
  }

  /** An operator of level `q` itself: its left operand, then it, then its right operand. */
  lemma {:induction false} SameLevelC(e: Expr, q: nat, ts: seq<CToken>)
    requires HasC(e) && e.Binary? && q == Level(e.op)
    requires NoOpC(ts, Loosest(q + 1))
    ensures q == NOT_LEVEL ==> ParseC(PrintC(e, q, ts), Loosest(q)) == Resume(ChainC(e), ts)
    ensures q != NOT_LEVEL ==> ParseC(PrintC(e, q, ts), Loosest(q)) == LoopC(Loosest(q), ReadC(e), ts)
    decreases e, 3
  {
    hide UnaryC, ParseC, ChainC, Join;
    var right := PrintC(e.right, q + 1, ts);
    var more := [COp(e.op)] + right;
    var tokens := PrintC(e.left, q, more);
    RestC(COp(e.op), right);
    if Bracketed(e.left, q) {
      BracketedC(e.left, q, UNARY_LEVEL, more);
      AtomC(e.left, more);
      AtomicC(tokens, ReadC(e.left), more, q);
      ReadChain(e.left);
    } else {
      BareC(e.left, q, more);
    }
    RightC(e.right, q + 1, ts);
    if q == NOT_LEVEL {
      NextComparison(e, ts);
    }
  }

  /** One more comparison is read. */
  lemma {:induction false} NextComparison(e: Expr, ts: seq<CToken>)
    requires HasC(e) && IsComparison(e) && NoOpC(ts, C_RELATIONAL + 1)
    requires ParseC(PrintC(e.right, 3, ts), C_RELATIONAL + 1) == CRead(ReadC(e.right), ts)
    ensures Resume(ChainC(e.left), [COp(e.op)] + PrintC(e.right, 3, ts)) == Resume(ChainC(e), ts)
  {
    hide UnaryC, PrintC, ReadC;
    var right := PrintC(e.right, 3, ts);
    RestC(COp(e.op), right);
    LoosestC(right, ReadC(e.right), ts, NOT_LEVEL);
    assert ParseC(right, C_RELATIONAL) == LoopC(C_RELATIONAL, ReadC(e.right), ts);
  }

  // ---- when that is the same tree -----------------------------------------

  /** No `=` or `!=` is the left operand of `<`, `>`, `<=` or `>=`. */
  predicate Grouped(e: Expr)
    decreases e
  {
    match e
    case Index(_, where) => Grouped(where)
    case ListItem(_, where) => Grouped(where)
    case Neg(x) => Grouped(x)
    case Not(x) => Grouped(x)
    case Binary(op, l, r) =>
      && !(CLevel(op) == C_RELATIONAL && l.Binary? && CLevel(l.op) == C_EQUALITY)
      && Grouped(l) && Grouped(r)
    case _ => true
  }

  lemma {:induction false} WaitingMeansEquality(e: Expr)
    requires !ChainC(e).waiting.Nothing?
    ensures (e.Binary? && CLevel(e.op) == C_EQUALITY) || !Grouped(e)
    ensures CLevel(ChainC(e).waiting.op) == C_EQUALITY
    decreases e
  {
    if CLevel(e.op) == C_RELATIONAL {
      WaitingMeansEquality(e.left);
    }
  }

  lemma {:induction false} ReadCSame(e: Expr)
    requires HasC(e)
    ensures ReadC(e) == e <==> Grouped(e)
    decreases e
  {
    match e
    case Index(_, where) => ReadCSame(where);
    case ListItem(_, where) => ReadCSame(where);
    case Neg(x) => ReadCSame(x);
    case Not(x) => ReadCSame(x);
    case Binary(op, l, r) =>
      ReadCSame(l);
      ReadCSame(r);
      ReadChain(l);
      if CLevel(op) == C_RELATIONAL && !ChainC(l).waiting.Nothing? {
        WaitingMeansEquality(l);
      }
    case _ =>
  }

  /** C reads the text as the tree it was printed from exactly when the tree is grouped. */
  lemma {:induction false} CReadsTheSameTree(e: Expr)
    requires HasC(e)
    ensures ParseC(PrintC(e, 0, []), 0) == CRead(ReadC(e), [])
    ensures ParseC(PrintC(e, 0, []), 0) == CRead(e, []) <==> Grouped(e)
  {
    hide PrintC, ParseC;
    BareC(e, 0, []);
    ReadCSame(e);
  }

  /** `(a = b) < c` is printed as `a == b < c`, which C reads as `a == (b < c)`. */
  lemma {:induction false} EqualityOnTheLeft(a: nat, b: nat, c: nat)
    ensures var x, y, z := Name(Variable, a), Name(Variable, b), Name(Variable, c);
            var e := Binary(Lt, Binary(Eq, x, y), z);
            && HasC(e.left) && HasC(z) && HasC(e)
            && ParseC(PrintC(e, 0, []), 0) == CRead(Binary(Eq, x, Binary(Lt, y, z)), [])
  {
    var x, y, z := Name(Variable, a), Name(Variable, b), Name(Variable, c);
    var e := Binary(Lt, Binary(Eq, x, y), z);
    assert ChainC(x) == Chain(Nothing, x);
    assert ChainC(e.left) == Chain(For(Eq, x), y);
    assert ReadC(z) == z && ReadC(y) == y;
    assert ChainC(e) == Chain(For(Eq, x), Binary(Lt, y, z));
    assert ReadC(e) == Binary(Eq, x, Binary(Lt, y, z));
    assert HasC(x) && HasC(y) && HasC(z);
    CReadsTheSameTree(e);
  }
}
