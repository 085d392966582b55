/** Where the prototypes go and what stands there, said of the sketch and of the text. */
module SketchPlaces {
  import opened Common
  import opened SketchMask
  import opened Sketch

  // ---- the base line ------------------------------------------------------

  /** A statement with code in it, or a function, begins at `x`. */
  ghost predicate CodeAt(g: Grammar, code: string, x: nat) {
    || (exists st | st in StmtsOf(g, code) :: st.code && st.start == x)
    || (exists fn | fn in DefsOf(g, code) :: fn.start == x)
  }

  lemma {:induction false} FirstCodeIs(stmts: seq<Stmt>, otherwise: nat)
    requires forall j, k | 0 <= j < k < |stmts| :: stmts[j].start <= stmts[k].start
    ensures var x := FirstCode(stmts, otherwise);
            if exists st | st in stmts :: st.code
            then (exists st | st in stmts :: st.code && st.start == x) && forall st | st in stmts && st.code :: x <= st.start
            else x == otherwise
    decreases stmts
  {
    if stmts != [] {
      var rest := stmts[1..];
      FirstCodeIs(rest, otherwise);
      forall st ensures st in stmts <==> st == stmts[0] || st in rest {
      }
      forall st | st in rest ensures stmts[0].start <= st.start {
        var k :| 0 <= k < |rest| && rest[k] == st;
        assert stmts[k + 1] == st;
      }
    }
  }

  /** The base line is that of the first code of the sketch: no function, and no
      statement with code in it, begins before the place it is taken from. */
  lemma {:induction false} BaseIsFirst(g: Grammar, code: string)
    requires DefsOf(g, code) != []
    ensures exists x: nat | x <= |code| && CodeAt(g, code, x) :: BaseOf(g, code) == LineStart(code, x)
              && forall y: nat | CodeAt(g, code, y) :: x <= y
  {
    hide Masked, Statements, Definitions, FirstCode, LineStart;
    var defs, stmts := DefsOf(g, code), StmtsOf(g, code);
    DefsInOrder(g, Masked(code));
    StatementsInOrder(g, Masked(code));
    FirstCodeIs(stmts, defs[0].start);
    var x := Min(FirstCode(stmts, defs[0].start), defs[0].start);
    assert defs[0] in defs;
    assert CodeAt(g, code, x);
    forall y: nat | CodeAt(g, code, y) ensures x <= y {
      if fn :| fn in defs && fn.start == y {
        var k :| 0 <= k < |defs| && defs[k] == fn;
      }
    }
  }

  // ---- the line a function asks for ---------------------------------------

  /** The line after statement `i`, which first defines a type that `fn` names. */
  ghost predicate AfterType(g: Grammar, code: string, fn: Def, i: nat, p: nat) {
    var stmts := StmtsOf(g, code);
    i < |stmts| && 0 < stmts[i].end <= |code| && p == NextLine(code, stmts[i].end - 1)
    && exists w | w in g.words(fn.signature) :: FirstDefines(g, code, stmts, i, w)
  }

  /** The base line or the line after the last of those types, whichever is later. */
  ghost predicate Asks(g: Grammar, code: string, fn: Def, p: nat)
    requires DefsOf(g, code) != []
  {
    && BaseOf(g, code) <= p
    && (forall i: nat, q: nat | AfterType(g, code, fn, i, q) :: q <= p)
    && (p == BaseOf(g, code) || exists i: nat :: AfterType(g, code, fn, i, p))
  }

  lemma {:induction false} ReadyIsAfter(g: Grammar, code: string, fn: Def, w: string)
    requires w in g.words(fn.signature)
    ensures w in ReadyOf(g, code) ==> exists i: nat :: AfterType(g, code, fn, i, ReadyOf(g, code)[w])
    ensures forall i: nat | i < |StmtsOf(g, code)| && FirstDefines(g, code, StmtsOf(g, code), i, w) ::
              w in ReadyOf(g, code) && ReadyOf(g, code)[w] == NextLine(code, StmtsOf(g, code)[i].end - 1)
  {
    hide NextLine, Statements, FirstDefines, Masked;
    var stmts := StmtsOf(g, code);
    ReadyIs(g, code, stmts, |stmts|, w);
    if w in ReadyOf(g, code) {
      var j: nat :| j < |stmts| && FirstDefines(g, code, stmts, j, w) && ReadyOf(g, code)[w] == NextLine(code, stmts[j].end - 1);
      assert AfterType(g, code, fn, j, ReadyOf(g, code)[w]);
      forall i: nat | i < |stmts| && FirstDefines(g, code, stmts, i, w) ensures i == j {
        OneFirst(g, code, stmts, i, j, w);
      }
    }
  }

  lemma {:induction false} EarliestIs(g: Grammar, code: string, fn: Def, p: nat)
    requires DefsOf(g, code) != []
    ensures p == Earliest(g, BaseOf(g, code), ReadyOf(g, code), fn) <==> Asks(g, code, fn, p)
  {
    hide NextLine, StmtsOf, ReadyOf, BaseOf, FirstDefines;
    var base, ready, words := BaseOf(g, code), ReadyOf(g, code), g.words(fn.signature);
    var e := Earliest(g, base, ready, fn);
    LatestIs(base, ready, words);
    forall w | w in words {
      ReadyIsAfter(g, code, fn, w);
    }
    forall i: nat, q: nat | AfterType(g, code, fn, i, q) ensures q <= e {
      var w :| w in words && FirstDefines(g, code, StmtsOf(g, code), i, w);
      assert ready[w] == q;
    }
    assert Asks(g, code, fn, e);
  }

  /** There is an insertion at `p` exactly when some function asks for that line
      and does not stand on an earlier one. */
  lemma {:induction false} InsertedWhereAsked(g: Grammar, code: string, p: nat)
    ensures p in PlacedOf(g, code).at <==>
            exists fn | fn in DefsOf(g, code) :: Asks(g, code, fn, p) && p <= LineStart(code, fn.start)
  {
    hide PlacedOf, Earliest, BaseOf, ReadyOf, LineStart, Asks;
    PlacesAre(g, code);
    forall fn | fn in DefsOf(g, code)
      ensures fn.start <= |code| && (p == Earliest(g, BaseOf(g, code), ReadyOf(g, code), fn) <==> Asks(g, code, fn, p))
    {
      EarliestIs(g, code, fn, p);
    }
  }

  // ---- what is inserted there ---------------------------------------------

  /** The prototypes at `p` after the first `k` functions: one for each of their
      prototypes wanted there, in the order of the first function that has it. */
  ghost predicate FiledTo(g: Grammar, code: string, base: nat, ready: map<string, nat>, defs: seq<Def>, k: nat,
                          p: nat, here: seq<string>)
    requires k <= |defs|
  {
    && (forall t :: t in here <==> exists i: nat | i < k :: Files(g, code, base, ready, defs[i], p, t))
    && (forall a, b | 0 <= a < b < |here| :: FilesFirst(g, code, base, ready, defs, k, p, here[a], here[b]))
  }

  /** Some function files `t` before any files `u`. */
  ghost predicate FilesFirst(g: Grammar, code: string, base: nat, ready: map<string, nat>, defs: seq<Def>, k: nat,
                             p: nat, t: string, u: string)
    requires k <= |defs|
  {
    exists i: nat | i < k && Files(g, code, base, ready, defs[i], p, t) ::
      forall j: nat | j <= i :: !Files(g, code, base, ready, defs[j], p, u)
  }

  /** `fn` fits, its prototype is `t`, and `p` is its line. */
  predicate Files(g: Grammar, code: string, base: nat, ready: map<string, nat>, fn: Def, p: nat, t: string) {
    Fits(g, code, base, ready, fn) && fn.Prototype() == t && p == Earliest(g, base, ready, fn)
  }

  lemma {:induction false} SameFiles(g: Grammar, code: string, base: nat, ready: map<string, nat>, a: Def, b: Def,
                                     p: nat, t: string)
    requires a.Prototype() == b.Prototype() && Fits(g, code, base, ready, a)
    ensures Files(g, code, base, ready, b, p, t) ==> Files(g, code, base, ready, a, p, t)
  {
    SamePrototype(a, b);
  }

  /** What filing one function adds at `p`. */
  lemma {:induction false} FilesOne(g: Grammar, code: string, base: nat, ready: map<string, nat>, fn: Def, before: Placed,
                                    p: nat)
    ensures var r, t := PlaceOne(g, code, base, ready, fn, before), fn.Prototype();
            && At(r, p) == (if Files(g, code, base, ready, fn, p, t) && t !in before.protos then At(before, p) + [t] else At(before, p))
            && forall u | u in before.protos || (u in At(r, p) && u !in At(before, p)) :: u in r.protos
  {
    hide Fits, Earliest;
  }

  lemma {:induction false} FiledAt(g: Grammar, code: string, base: nat, ready: map<string, nat>, defs: seq<Def>, k: nat,
                                   p: nat)
    requires k <= |defs|
    ensures FiledTo(g, code, base, ready, defs, k, p, At(PlaceTo(g, code, base, ready, defs, k), p))
    ensures forall t | t in At(PlaceTo(g, code, base, ready, defs, k), p) :: t in PlaceTo(g, code, base, ready, defs, k).protos
    decreases k
  {
    hide Files, PlaceOne, At;
    if k == 0 {
      NoneFiled(p);
    } else {
      FiledAt(g, code, base, ready, defs, k - 1, p);
      var before, fn := PlaceTo(g, code, base, ready, defs, k - 1), defs[k - 1];
      var t := fn.Prototype();
      FilesOne(g, code, base, ready, fn, before, p);
      forall u ensures Files(g, code, base, ready, fn, p, u) ==> u == t {
        FilesIts(g, code, base, ready, fn, p, u);
      }
      if t in before.protos {
        var i := ProtosFrom(g, code, base, ready, defs, k - 1, t);
        SameFiles(g, code, base, ready, defs[i], fn, p, t);
      }
      var here, now := At(before, p), At(PlaceTo(g, code, base, ready, defs, k), p);
      assert now == (if Files(g, code, base, ready, fn, p, t) && t !in before.protos then here + [t] else here);
      forall u ensures u in now <==> exists i: nat | i < k :: Files(g, code, base, ready, defs[i], p, u) {
        FilesOneMore(g, code, base, ready, defs, k, p, u);
      }
      FiledOrder(g, code, base, ready, defs, k, p, here, now, t);
    }
  }

  lemma {:induction false} FilesOneMore(g: Grammar, code: string, base: nat, ready: map<string, nat>, defs: seq<Def>,
                                        k: nat, p: nat, u: string)
    requires 0 < k <= |defs|
    ensures (exists i: nat | i < k :: Files(g, code, base, ready, defs[i], p, u)) <==>
            (exists i: nat | i < k - 1 :: Files(g, code, base, ready, defs[i], p, u))
            || Files(g, code, base, ready, defs[k - 1], p, u)
  {
    hide Files;
  }

  lemma {:induction false} FiledOrder(g: Grammar, code: string, base: nat, ready: map<string, nat>, defs: seq<Def>, k: nat,
                                      p: nat, here: seq<string>, now: seq<string>, t: string)
    requires 0 < k <= |defs| && FiledTo(g, code, base, ready, defs, k - 1, p, here)
    requires now == here || (now == here + [t] && t !in here)
    ensures forall a, b | 0 <= a < b < |now| :: FilesFirst(g, code, base, ready, defs, k, p, now[a], now[b])
  {
    hide Files;
    forall a, b | 0 <= a < b < |now| ensures FilesFirst(g, code, base, ready, defs, k, p, now[a], now[b]) {
      assert now[a] == here[a];
      if b < |here| {
        assert FilesFirst(g, code, base, ready, defs, k - 1, p, here[a], here[b]);
        FilesStill(g, code, base, ready, defs, k, p, here[a], here[b]);
      } else {
        FilesNew(g, code, base, ready, defs, k, p, here, a, t);
      }
    }
  }

  lemma {:induction false} FilesStill(g: Grammar, code: string, base: nat, ready: map<string, nat>, defs: seq<Def>,
                                      k: nat, p: nat, t: string, u: string)
    requires 0 < k <= |defs| && FilesFirst(g, code, base, ready, defs, k - 1, p, t, u)
    ensures FilesFirst(g, code, base, ready, defs, k, p, t, u)
  {
    hide Files;
  }

  lemma {:induction false} FilesNew(g: Grammar, code: string, base: nat, ready: map<string, nat>, defs: seq<Def>,
                                    k: nat, p: nat, here: seq<string>, a: nat, u: string)
    requires 0 < k <= |defs| && FiledTo(g, code, base, ready, defs, k - 1, p, here) && a < |here| && u !in here
    ensures FilesFirst(g, code, base, ready, defs, k, p, here[a], u)
  {
    hide Files;
    assert here[a] in here;
  }

  lemma {:induction false} NoneFiled(p: nat)
    ensures At(Placed(map[], []), p) == []
  {
  }

  lemma {:induction false} FilesIts(g: Grammar, code: string, base: nat, ready: map<string, nat>, fn: Def, p: nat, u: string)
    ensures Files(g, code, base, ready, fn, p, u) ==> u == fn.Prototype()
  {
  }

  /** A function that asks for `p`, does not stand on an earlier line, and whose prototype is `t`. */
  ghost predicate Wants(g: Grammar, code: string, fn: Def, p: nat, t: string)
    requires fn in DefsOf(g, code)
  {
    fn.Prototype() == t && Asks(g, code, fn, p) && p <= LineStart(code, fn.start)
  }

  /** Some function wants `t` at `p` before any wants `u` there. */
  ghost predicate WantedFirst(g: Grammar, code: string, p: nat, t: string, u: string) {
    var defs := DefsOf(g, code);
    exists i: nat | i < |defs| && Wants(g, code, defs[i], p, t) ::
      forall j: nat | j <= i :: !Wants(g, code, defs[j], p, u)
  }

  lemma {:induction false} WantsIs(g: Grammar, code: string, i: nat, p: nat, t: string)
    requires i < |DefsOf(g, code)|
    ensures Files(g, code, BaseOf(g, code), ReadyOf(g, code), DefsOf(g, code)[i], p, t)
       <==> Wants(g, code, DefsOf(g, code)[i], p, t)
  {
    hide Earliest, BaseOf, ReadyOf, LineStart, Asks, DefsOf;
    EarliestIs(g, code, DefsOf(g, code)[i], p);
  }

  lemma {:induction false} FiledFirstIsWanted(g: Grammar, code: string, p: nat, t: string, u: string)
    requires DefsOf(g, code) != []
    requires FilesFirst(g, code, BaseOf(g, code), ReadyOf(g, code), DefsOf(g, code), |DefsOf(g, code)|, p, t, u)
    ensures WantedFirst(g, code, p, t, u)
  {
    hide Files, Wants, BaseOf, ReadyOf, DefsOf;
    var base, ready, defs := BaseOf(g, code), ReadyOf(g, code), DefsOf(g, code);
    var i: nat :| i < |defs| && Files(g, code, base, ready, defs[i], p, t)
                  && forall j: nat | j <= i :: !Files(g, code, base, ready, defs[j], p, u);
    WantsIs(g, code, i, p, t);
    forall j: nat | j <= i ensures !Wants(g, code, defs[j], p, u) {
      WantsIs(g, code, j, p, u);
    }
  }

  lemma {:induction false} FiledIsWanted(g: Grammar, code: string, p: nat, t: string)
    requires DefsOf(g, code) != []
    ensures (exists i: nat | i < |DefsOf(g, code)| ::
               Files(g, code, BaseOf(g, code), ReadyOf(g, code), DefsOf(g, code)[i], p, t))
       <==> exists fn | fn in DefsOf(g, code) :: Wants(g, code, fn, p, t)
  {
    hide Files, Wants, BaseOf, ReadyOf, DefsOf;
    var base, ready, defs := BaseOf(g, code), ReadyOf(g, code), DefsOf(g, code);
    if i: nat :| i < |defs| && Files(g, code, base, ready, defs[i], p, t) {
      WantsIs(g, code, i, p, t);
      assert defs[i] in defs;
    }
    if fn :| fn in defs && Wants(g, code, fn, p, t) {
      var i: nat :| i < |defs| && defs[i] == fn;
      WantsIs(g, code, i, p, t);
    }
  }

  /** At every line stand the prototypes of exactly the functions that want theirs
      there, each once, in the order of the functions. */
  lemma {:induction false} PrototypesAre(g: Grammar, code: string, p: nat)
    ensures var here := At(PlacedOf(g, code), p);
            && (forall t :: t in here <==> exists fn | fn in DefsOf(g, code) :: Wants(g, code, fn, p, t))
            && (forall a, b | 0 <= a < b < |here| :: WantedFirst(g, code, p, here[a], here[b]))
  {
    hide PlaceTo, BaseOf, ReadyOf, Wants, WantedFirst, Files, FilesFirst, DefsOf, At;
    var defs := DefsOf(g, code);
    if defs == [] {
      NoneFiled(p);
      return;
    }
    FiledAt(g, code, BaseOf(g, code), ReadyOf(g, code), defs, |defs|, p);
    var here := At(PlacedOf(g, code), p);
    forall t ensures t in here <==> exists fn | fn in defs :: Wants(g, code, fn, p, t) {
      FiledIsWanted(g, code, p, t);
    }
    forall a, b | 0 <= a < b < |here| ensures WantedFirst(g, code, p, here[a], here[b]) {
      FiledFirstIsWanted(g, code, p, here[a], here[b]);
    }
  }

  // ---- in the text --------------------------------------------------------

  /** `line` is a whole line of `text`. */
  ghost predicate HasLine(text: string, line: string) {
    exists a, b :: text == a + line + "\n" + b && (a == "" || a[|a| - 1] == '\n')
  }

  lemma {:induction false} JoinHasLine(lines: seq<string>, i: nat) returns (a: string, b: string)
    requires i < |lines|
    ensures Join(lines) + "\n" == a + lines[i] + "\n" + b && (a == "" || a[|a| - 1] == '\n')
    decreases lines
  {
    if |lines| == 1 {
      a, b := "", "";
    } else if i == 0 {
      a, b := "", Join(lines[1..]) + "\n";
      assert lines[0] + "\n" + Join(lines[1..]) + "\n" == "" + lines[0] + "\n" + (Join(lines[1..]) + "\n");
    } else {
      a, b := JoinHasLine(lines[1..], i - 1);
      var first := lines[0] + "\n";
      assert first + Join(lines[1..]) + "\n" == first + (Join(lines[1..]) + "\n");
      assert first + (a + lines[i] + "\n" + b) == (first + a) + lines[i] + "\n" + b;
      assert first[|first| - 1] == '\n';
      a := first + a;
    }
  }

  lemma {:induction false} RenderHasLine(name: string, piece: Piece, t: string)
    requires piece.Added? && t in piece.protos
    ensures HasLine(Render(name, piece), t)
  {
    hide Join, Sketch.Directive;
    var i :| 0 <= i < |piece.protos| && piece.protos[i] == t;
    var a, b := JoinHasLine(piece.protos, i);
    var lead, after := if piece.newline then "\n" else "", Sketch.Directive(piece.line, name);
    assert lead + (a + t + "\n" + b) + after == (lead + a) + t + "\n" + (b + after);
    assert lead + a == "" || (lead + a)[|lead + a| - 1] == '\n';
    assert Render(name, piece) == lead + (Join(piece.protos) + "\n") + after;
  }

  lemma {:induction false} PiecesAt(code: string, at: map<nat, seq<string>>, cursor: nat, p: nat, q: nat)
      returns (before: seq<Piece>, after: seq<Piece>)
    requires cursor <= |code| && cursor <= p <= q <= |code| && q in at
    ensures Pieces(code, at, cursor, p) == before + [Cut(code, at, q)] + after
    ensures KeptText(before) == code[cursor..q] && KeptText(after) == code[q..]
    decreases |code| + 1 - p
  {
    hide KeptText;
    PiecesStep(code, at, cursor, p);
    if p == q {
      before, after := [Kept(code[cursor..p])], Pieces(code, at, p, p + 1);
      KeptOne(code[cursor..p]);
      NothingLost(code, at, p, p + 1);
      assert [Kept(code[cursor..p]), Cut(code, at, p)] == [Kept(code[cursor..p])] + [Cut(code, at, p)];
    } else if p in at {
      var head := [Kept(code[cursor..p]), Cut(code, at, p)];
      before, after := PiecesAt(code, at, p, p + 1, q);
      assert head + (before + [Cut(code, at, q)] + after) == (head + before) + [Cut(code, at, q)] + after;
      KeptTwo(head[0], head[1], before);
      assert code[cursor..p] + code[p..q] == code[cursor..q];
      before := head + before;
    } else {
      before, after := PiecesAt(code, at, cursor, p + 1, q);
    }
  }

  lemma {:induction false} KeptOne(text: string)
    ensures KeptText([Kept(text)]) == text
  {
    assert KeptText([Kept(text)][1..]) == "";
  }

  /** Every function with room for it has its prototype as a whole line of what
      goes in at the line it asks for, between what comes before that line of the
      sketch and what comes after. */
  lemma {:induction false} PrototypeStands(g: Grammar, code: string, name: string, fn: Def, p: nat)
      returns (before: seq<Piece>, after: seq<Piece>)
    requires fn in DefsOf(g, code) && Asks(g, code, fn, p) && p <= LineStart(code, fn.start)
    ensures p <= |code| && p in PlacedOf(g, code).at
    ensures var added := Cut(code, PlacedOf(g, code).at, p);
            && Pieces(code, PlacedOf(g, code).at, 0, 0) == before + [added] + after
            && HasLine(Render(name, added), fn.Prototype())
            && KeptText(before) == code[..p] && KeptText(after) == code[p..]
  {
    hide PlacedOf, Asks, Pieces, KeptText, Render, HasLine, LineStart;
    PrototypesAre(g, code, p);
    assert Wants(g, code, fn, p, fn.Prototype());
    var at := PlacedOf(g, code).at;
    assert fn.Prototype() in At(PlacedOf(g, code), p);
    TextKept(g, code);
    before, after := PiecesAt(code, at, 0, 0, p);
    RenderHasLine(name, Cut(code, at, p), fn.Prototype());
    assert code[0..p] == code[..p];
  }
}
