/** The parser as the program runs it: a cursor over the tokens. */
module ExprParser {
  import opened Common
  import opened Expressions

  lemma {:induction false} AtomRandint(ts: seq<Token>)
    ensures Atom([TRandint] + ts) ==
            if !Begins(ts, TOpen) then Bad
            else
              var low := Parse(ts[1..], 0);
              if low.Bad? then Bad
              else
                var high := Closed(Parse(if Begins(low.rest, TComma) then low.rest[1..] else low.rest, 0), TClose);
                if high.Ok? then Ok(Randint(low.e, high.e), high.rest) else Bad
  {
    hide Parse, Closed;
    Rest1(TRandint, ts);
  }

  class ExprParser {
    const tokens: seq<Token>
    var pos: nat

    ghost predicate Valid()
      reads this
    {
      pos <= |tokens|
    }

    ghost function Rest(): seq<Token>
      reads this
      requires Valid()
    {
      tokens[pos..]
    }

    constructor (tokens: seq<Token>)
      ensures Valid() && Rest() == tokens && this.tokens == tokens
    {
      this.tokens := tokens;
      pos := 0;
    }

    function Peek(): (r: Option<Token>)
      reads this
      requires Valid()
      ensures r == if Rest() == [] then None else Some(Rest()[0])
    {
      if pos < |tokens| then Some(tokens[pos]) else None
    }

    method Take() returns (r: Option<Token>)
      requires Valid()
      modifies this`pos
      ensures Valid()
      ensures old(Rest()) == [] ==> r == None && Rest() == []
      ensures old(Rest()) != [] ==> r == Some(old(Rest())[0]) && Rest() == old(Rest())[1..]
    {
      r := Peek();
      if r.Some? {
        pos := pos + 1;
      }
    }

    /** What a parsing method did, next to what the parsing function says. */
    ghost predicate Did(r: Option<Expr>, spec: Parsed)
      reads this
    {
      Valid() && match spec case Ok(e, rest) => r == Some(e) && Rest() == rest case Bad => r == None
    }

    method ParseLevel(level: nat) returns (r: Option<Expr>)
      requires Valid() && level <= UNARY_LEVEL
      modifies this`pos
      ensures Did(r, Parse(old(Rest()), level))
      ensures r.Some? ==> pos > old(pos)
      decreases |tokens| - pos, UNARY_LEVEL + 1 - level
    {
      hide Atom;
      if level >= UNARY_LEVEL {
        r := ParseOperand();
        return;
      }
      if level == NOT_LEVEL && Peek() == Some(TNot) {
        var _ := Take();
        r := ParseLevel(level);
        if r.Some? {
          r := Some(Not(r.value));
        }
        return;
      }
      r := ParseLevel(level + 1);
      if r == None {
        return;
      }
      ghost var whole := Parse(old(Rest()), level);
      var node := r.value;
      while true
        invariant Valid() && pos > old(pos)
        invariant whole == Loop(level, node, Rest())
        decreases |tokens| - pos
      {
        var token := Peek();
        if token == None || !token.value.TOp? || Level(token.value.op) != level {
          return Some(node);
        }
        var _ := Take();
        var right := ParseLevel(level + 1);
        if right == None {
          return None;
        }
        node := Binary(token.value.op, node, right.value);
      }
    }

    /** Takes the next token if it is `t`. */
    method Expect(t: Token) returns (found: bool)
      requires Valid()
      modifies this`pos
      ensures Valid() && pos >= old(pos)
      ensures found <==> Begins(old(Rest()), t)
      ensures found ==> Rest() == old(Rest())[1..] && pos > old(pos)
      ensures !found ==> pos == old(pos)
    {
      found := Peek() == Some(t);
      if found {
        var _ := Take();
      }
    }

    /** A list name, or nothing. */
    method TakeList() returns (r: Option<nat>)
      requires Valid()
      modifies this`pos
      ensures Valid() && pos >= old(pos)
      ensures r.Some? <==> old(Rest()) != [] && old(Rest())[0].TList?
      ensures r.Some? ==> r.value == old(Rest())[0].id && Rest() == old(Rest())[1..]
    {
      var token := Take();
      r := if token.Some? && token.value.TList? then Some(token.value.id) else None;
    }

    method ParseOperand() returns (r: Option<Expr>)
      requires Valid()
      modifies this`pos
      ensures Did(r, Atom(old(Rest())))
      ensures r.Some? ==> pos > old(pos)
      decreases |tokens| - pos, 0
    {
      hide Parse, Loop;
      ghost var before := Rest();
      var token := Take();
      if token == None {
        return None;
      }
      assert before == [token.value] + Rest();
      match token.value {
        case TNum(n) =>
          return Some(Num(n));
        case TName(kind, id) =>
          return Some(Name(kind, id));
        case TOpen =>
          r := ParseLevel(0);
          if r.Some? {
            var closed := Expect(TClose);
            r := if closed then r else None;
          }
        case TNot =>
          r := ParseOperand();
          r := if r.Some? then Some(Not(r.value)) else None;
        case TOp(op) =>
          if op != Sub {
            return None;
          }
          r := ParseOperand();
          r := if r.Some? then Some(Neg(r.value)) else None;
        case TTable(t) =>
          r := ParseIndex(t);
        case TItem =>
          r := ParseListItem();
        case TLength =>
          r := ParseLength();
        case TRandint =>
          r := ParseRandintCall();
        case _ =>
          return None;
      }
    }

    method ParseIndex(t: nat) returns (r: Option<Expr>)
      requires Valid()
      modifies this`pos
      ensures Did(r, Atom([TTable(t)] + old(Rest())))
      ensures r.Some? ==> pos >= old(pos)
      decreases |tokens| - pos, UNARY_LEVEL + 2
    {
      hide Parse, Loop;
      Rest1(TTable(t), Rest());
      var bracket := Expect(TOpenIndex);
      if !bracket {
        return None;
      }
      r := ParseLevel(0);
      if r.Some? {
        var closed := Expect(TCloseIndex);
        r := if closed then Some(Index(t, r.value)) else None;
      }
    }

    method ParseListItem() returns (r: Option<Expr>)
      requires Valid()
      modifies this`pos
      ensures Did(r, Atom([TItem] + old(Rest())))
      ensures r.Some? ==> pos >= old(pos)
      decreases |tokens| - pos, UNARY_LEVEL + 2
    {
      hide Parse, Loop;
      Rest1(TItem, Rest());
      r := ParseOperand();
      if r.Some? {
        var of_ := Expect(TOf);
        if !of_ {
          return None;
        }
        var name := TakeList();
        r := if name.Some? then Some(ListItem(name.value, r.value)) else None;
      }
    }

    method ParseLength() returns (r: Option<Expr>)
      requires Valid()
      modifies this`pos
      ensures Did(r, Atom([TLength] + old(Rest())))
      ensures r.Some? ==> pos >= old(pos)
    {
      Rest1(TLength, Rest());
      var of_ := Expect(TOf);
      if !of_ {
        return None;
      }
      var name := TakeList();
      r := if name.Some? then Some(ListLength(name.value)) else None;
    }

    method ParseRandintCall() returns (r: Option<Expr>)
      requires Valid()
      modifies this`pos
      ensures Did(r, Atom([TRandint] + old(Rest())))
      ensures r.Some? ==> pos >= old(pos)
      decreases |tokens| - pos, UNARY_LEVEL + 2
    {
      hide Parse, Loop, Atom;
      AtomRandint(Rest());
      var bracket := Expect(TOpen);
      if !bracket {
        return None;
      }
      var low := ParseLevel(0);
      if low == None {
        return None;
      }
      ghost var afterLow := Rest();
      var _ := Expect(TComma);
      assert Rest() == if Begins(afterLow, TComma) then afterLow[1..] else afterLow;
      r := ParseLevel(0);
      if r.Some? {
        var closed := Expect(TClose);
        r := if closed then Some(Randint(low.value, r.value)) else None;
      }
    }
  }

  /** Printing a tree and running the parser on the tokens. */
  method ReadBack(e: Expr) returns (r: Option<Expr>)
    ensures r == Some(e) <==> Clear(e, true)
  {
    RoundTrip(e);
    ParsePrint(e);
    var parser := new ExprParser(Print(e, 0, []));
    r := parser.ParseLevel(0);
    if r.Some? && parser.Peek() != None {
      r := None;
    }
  }
}
