/** The translation unit of an Arduino sketch: prototypes inserted where they may go. */
module Sketch {
  import opened Common
  import opened SketchMask

  /** The regular expressions, taken as given: what a header declares, whether a
      brace follows a parameter list, which types a span defines, which words a
      signature has. */
  datatype Grammar = Grammar(
    header: string -> Option<string>,
    body: string -> bool,
    types: (string, nat, nat) -> seq<string>,
    words: string -> seq<string>)

  // ---- lines --------------------------------------------------------------

  predicate IsLineStart(code: string, p: nat) {
    p == 0 || (p <= |code| && code[p - 1] == '\n')
  }

  function LineStart(code: string, pos: nat): (r: nat)
    requires pos <= |code|
    ensures r <= pos && IsLineStart(code, r)
    ensures forall k | r <= k < pos :: code[k] != '\n'
  {
    if pos == 0 || code[pos - 1] == '\n' then pos else LineStart(code, pos - 1)
  }

  function NextLine(code: string, pos: nat): (r: nat)
    requires pos <= |code|
    ensures pos <= r <= |code| && (r == |code| || (pos < r && IsLineStart(code, r)))
    decreases |code| - pos
  {
    if pos == |code| then pos else if code[pos] == '\n' then pos + 1 else NextLine(code, pos + 1)
  }

  function Newlines(s: string): nat {
    if s == "" then 0 else (if s[0] == '\n' then 1 else 0) + Newlines(s[1..])
  }

  lemma {:induction false} NewlinesAdd(a: string, b: string)
    ensures Newlines(a + b) == Newlines(a) + Newlines(b)
  {
    if a == "" {
      assert a + b == b;
    } else {
      assert (a + b)[1..] == a[1..] + b;
      NewlinesAdd(a[1..], b);
    }
  }

  // ---- function definitions -----------------------------------------------

  function Lead(s: string): (n: nat)
    ensures n <= |s|
    ensures forall k | 0 <= k < n :: Space(s[k])
    ensures n < |s| ==> !Space(s[n])
  {
    if s == "" || !Space(s[0]) then 0 else 1 + Lead(s[1..])
  }

  function StripEnd(s: string): string {
    if s == "" || !Space(s[|s| - 1]) then s else StripEnd(s[..|s| - 1])
  }

  function Strip(s: string): string {
    StripEnd(s[Lead(s)..])
  }

  function ParseHeader(g: Grammar, header: string): Option<string> {
    if header == "" then None else g.header(header)
  }

  datatype Def = Def(start: nat, signature: string) {
    function Prototype(): string {
      signature + ";"
    }
  }

  datatype DefScan = DefScan(depth: int, paren: int, from: nat, found: seq<Def>)

  function DefStep(g: Grammar, masked: string, i: nat, s: DefScan): (r: DefScan)
    requires i < |masked| && s.from <= i
    ensures r.from <= i + 1
  {
    var c := masked[i];
    if c == '(' then s.(paren := s.paren + 1)
    else if c == ')' then s.(paren := s.paren - 1)
    else if c == '{' then
      var text := masked[s.from..i];
      var signature := ParseHeader(g, Strip(text));
      if s.depth == 0 && s.paren == 0 && signature.Some?
      then s.(depth := s.depth + 1, found := s.found + [Def(s.from + Lead(text), signature.value)])
      else s.(depth := s.depth + 1)
    else if c == '}' then
      if s.depth - 1 == 0 then s.(depth := 0, from := i + 1) else s.(depth := s.depth - 1)
    else if c == ';' && s.depth == 0 && s.paren == 0 then s.(from := i + 1)
    else s
  }

  function DefsTo(g: Grammar, masked: string, i: nat): (r: DefScan)
    requires i <= |masked|
    ensures r.from <= i
  {
    if i == 0 then DefScan(0, 0, 0, []) else DefStep(g, masked, i - 1, DefsTo(g, masked, i - 1))
  }

  function Definitions(g: Grammar, masked: string): seq<Def> {
    DefsTo(g, masked, |masked|).found
  }

  predicate StartsInOrder(masked: string, found: seq<Def>, limit: nat) {
    (forall k | 0 <= k < |found| :: found[k].start < |masked| && found[k].start < limit && !Space(masked[found[k].start]))
    && (forall j, k | 0 <= j < k < |found| :: found[j].start < found[k].start)
  }

  lemma {:induction false} StripEmpty(s: string)
    ensures Strip(s) == "" <==> Lead(s) == |s|
  {
    StripEndEmpty(s[Lead(s)..]);
  }

  lemma {:induction false} StripEndEmpty(s: string)
    ensures StripEnd(s) == "" ==> forall k | 0 <= k < |s| :: Space(s[k])
  {
    if s != "" && Space(s[|s| - 1]) {
      StripEndEmpty(s[..|s| - 1]);
      assert forall k | 0 <= k < |s| - 1 :: s[..|s| - 1][k] == s[k];
    }
  }

  lemma {:induction false} StartsAppend(masked: string, found: seq<Def>, limit: nat, d: Def, next: nat)
    requires StartsInOrder(masked, found, limit)
    requires limit <= d.start < next && d.start < |masked| && !Space(masked[d.start])
    ensures StartsInOrder(masked, found + [d], next)
  {
  }

  lemma {:induction false} StartsWeaken(masked: string, found: seq<Def>, limit: nat, next: nat)
    requires StartsInOrder(masked, found, limit) && limit <= next
    ensures StartsInOrder(masked, found, next)
  {
  }

  function StartLimit(s: DefScan, i: nat): nat {
    if s.depth <= 0 then s.from else i
  }

  lemma {:induction false} DefStepInOrder(g: Grammar, masked: string, i: nat, s: DefScan)
    requires i < |masked| && s.from <= i
    requires StartsInOrder(masked, s.found, StartLimit(s, i))
    ensures var r := DefStep(g, masked, i, s);
            StartsInOrder(masked, r.found, StartLimit(r, i + 1))
  {
    hide StartsInOrder, Strip, Lead, Space;
    var r := DefStep(g, masked, i, s);
    if r.found == s.found {
      StartsWeaken(masked, s.found, StartLimit(s, i), StartLimit(r, i + 1));
    } else {
      var text := masked[s.from..i];
      StripEmpty(text);
      assert masked[s.from + Lead(text)] == text[Lead(text)];
      StartsAppend(masked, s.found, s.from, Def(s.from + Lead(text), ParseHeader(g, Strip(text)).value), i + 1);
    }
  }

  lemma {:induction false} DefsInOrderTo(g: Grammar, masked: string, i: nat)
    requires i <= |masked|
    ensures var s := DefsTo(g, masked, i);
            StartsInOrder(masked, s.found, StartLimit(s, i))
  {
    hide DefStep, StartLimit;
    if i > 0 {
      DefsInOrderTo(g, masked, i - 1);
      DefStepInOrder(g, masked, i - 1, DefsTo(g, masked, i - 1));
    } else {
      NoStarts(masked);
    }
  }

  lemma {:induction false} NoStarts(masked: string)
    ensures StartsInOrder(masked, [], StartLimit(DefScan(0, 0, 0, []), 0))
  {
  }

  /** Every definition starts at a character of code, and they come in order. */
  lemma {:induction false} DefsInOrder(g: Grammar, masked: string)
    ensures StartsInOrder(masked, Definitions(g, masked), |masked|)
  {
    DefsInOrderTo(g, masked, |masked|);
    var s := DefsTo(g, masked, |masked|);
    StartsWeaken(masked, s.found, StartLimit(s, |masked|), |masked|);
  }

  // ---- file-scope statements ----------------------------------------------

  datatype Stmt = Stmt(start: nat, end: nat, code: bool)

  datatype StmtScan = StmtScan(depth: int, paren: int, start: Option<nat>, code: bool, out: seq<Stmt>)

  function SkipBlanks(masked: string, j: nat): (r: nat)
    requires j <= |masked|
    ensures j <= r <= |masked|
    decreases |masked| - j
  {
    if j < |masked| && masked[j] in " \t\r\n" then SkipBlanks(masked, j + 1) else j
  }

  function Max(a: nat, b: int): nat {
    if a < b then b else a
  }

  /** One character of a statement already begun at `start`. */
  function StmtStep(g: Grammar, masked: string, i: nat, start: nat, s: StmtScan): StmtScan
    requires start <= i < |masked|
  {
    var c := masked[i];
    if c == '(' then StmtScan(s.depth, s.paren + 1, Some(start), s.code, s.out)
    else if c == ')' then StmtScan(s.depth, s.paren - 1, Some(start), s.code, s.out)
    else if c == '{' then
      StmtScan(s.depth + 1, s.paren, Some(start), s.code || g.body(masked[Max(start, i - 120)..i]), s.out)
    else if c == '}' then
      var j := SkipBlanks(masked, i + 1);
      if s.depth - 1 == 0 && s.paren == 0 && (j == |masked| || masked[j] != ';')
      then StmtScan(0, 0, None, s.code, s.out + [Stmt(start, i + 1, s.code)])
      else StmtScan(s.depth - 1, s.paren, Some(start), s.code, s.out)
    else if c == ';' && s.depth == 0 && s.paren == 0 then
      StmtScan(0, 0, None, s.code, s.out + [Stmt(start, i + 1, s.code)])
    else StmtScan(s.depth, s.paren, Some(start), s.code, s.out)
  }

  predicate Begun(s: StmtScan, i: nat) {
    s.start.Some? ==> s.start.value < i
  }

  function StmtsTo(g: Grammar, masked: string, i: nat): (r: StmtScan)
    requires i <= |masked|
    ensures Begun(r, i)
  {
    if i == 0 then StmtScan(0, 0, None, false, [])
    else
      var s := StmtsTo(g, masked, i - 1);
      if s.start.Some? then StmtStep(g, masked, i - 1, s.start.value, s)
      else if Space(masked[i - 1]) then s
      else StmtStep(g, masked, i - 1, i - 1, StmtScan(s.depth, s.paren, Some(i - 1), false, s.out))
  }

  function Statements(g: Grammar, masked: string): seq<Stmt> {
    StmtsTo(g, masked, |masked|).out
  }

  predicate SpansInOrder(masked: string, out: seq<Stmt>, limit: nat) {
    (forall k | 0 <= k < |out| ::
       out[k].start < out[k].end <= limit && out[k].end <= |masked|
       && !Space(masked[out[k].start]) && masked[out[k].end - 1] in ";}")
    && (forall j, k | 0 <= j < k < |out| :: out[j].end <= out[k].start)
  }

  lemma {:induction false} SpansAppend(masked: string, out: seq<Stmt>, st: Stmt)
    requires SpansInOrder(masked, out, st.start)
    requires st.start < st.end <= |masked| && !Space(masked[st.start]) && masked[st.end - 1] in ";}"
    ensures SpansInOrder(masked, out + [st], st.end)
  {
  }

  lemma {:induction false} SpansWeaken(masked: string, out: seq<Stmt>, limit: nat, next: nat)
    requires SpansInOrder(masked, out, limit) && limit <= next
    ensures SpansInOrder(masked, out, next)
  {
  }

  ghost predicate ScanInOrder(masked: string, s: StmtScan, i: nat) {
    SpansInOrder(masked, s.out, if s.start.Some? then s.start.value else i)
    && (s.start.Some? ==> s.start.value < |masked| && !Space(masked[s.start.value]))
  }

  lemma {:induction false} StmtStepInOrder(g: Grammar, masked: string, i: nat, start: nat, s: StmtScan)
    requires start <= i < |masked| && !Space(masked[start])
    requires SpansInOrder(masked, s.out, start)
    ensures ScanInOrder(masked, StmtStep(g, masked, i, start, s), i + 1)
  {
    hide SpansInOrder, Space;
    var r := StmtStep(g, masked, i, start, s);
    if r.start.None? {
      SpansAppend(masked, s.out, Stmt(start, i + 1, s.code));
    }
  }

  lemma {:induction false} StatementsInOrderTo(g: Grammar, masked: string, i: nat)
    requires i <= |masked|
    ensures ScanInOrder(masked, StmtsTo(g, masked, i), i)
  {
    hide SpansInOrder, StmtStep, Space;
    if i == 0 {
      NoSpans(masked);
    } else {
      StatementsInOrderTo(g, masked, i - 1);
      var s := StmtsTo(g, masked, i - 1);
      if s.start.Some? {
        StmtStepInOrder(g, masked, i - 1, s.start.value, s);
      } else if Space(masked[i - 1]) {
        SpansWeaken(masked, s.out, i - 1, i);
      } else {
        StmtStepInOrder(g, masked, i - 1, i - 1, StmtScan(s.depth, s.paren, Some(i - 1), false, s.out));
      }
    }
  }

  lemma {:induction false} NoSpans(masked: string)
    ensures SpansInOrder(masked, [], 0)
  {
  }

  /** Statements are disjoint spans in order, from a character of code to a `;` or `}`. */
  lemma {:induction false} StatementsInOrder(g: Grammar, masked: string)
    ensures SpansInOrder(masked, Statements(g, masked), |masked|)
  {
    StatementsInOrderTo(g, masked, |masked|);
    var s := StmtsTo(g, masked, |masked|);
    if s.start.Some? {
      SpansWeaken(masked, s.out, s.start.value, |masked|);
    }
  }

  // ---- where prototypes go ------------------------------------------------

  function FirstCode(stmts: seq<Stmt>, otherwise: nat): nat {
    if stmts == [] then otherwise else if stmts[0].code then stmts[0].start else FirstCode(stmts[1..], otherwise)
  }

  /** Names not yet known become ready at `at`. */
  function WithTypes(ready: map<string, nat>, names: seq<string>, at: nat): map<string, nat>
    decreases names
  {
    if names == [] then ready
    else WithTypes(if names[0] in ready then ready else ready[names[0] := at], names[1..], at)
  }

  predicate Within(stmts: seq<Stmt>, n: nat) {
    forall st | st in stmts :: 0 < st.end <= n
  }

  function ReadyTo(g: Grammar, code: string, stmts: seq<Stmt>, k: nat): map<string, nat>
    requires k <= |stmts| && Within(stmts, |code|)
  {
    if k == 0 then map[]
    else
      var st := stmts[k - 1];
      WithTypes(ReadyTo(g, code, stmts, k - 1), g.types(Masked(code), st.start, st.end), NextLine(code, st.end - 1))
  }

  function Latest(base: nat, ready: map<string, nat>, words: seq<string>): nat {
    if words == [] then base
    else
      var rest := Latest(base, ready, words[1..]);
      if words[0] in ready && ready[words[0]] > rest then ready[words[0]] else rest
  }

  datatype Placed = Placed(at: map<nat, seq<string>>, protos: seq<string>)

  function At(p: Placed, pos: nat): seq<string> {
    if pos in p.at then p.at[pos] else []
  }

  function Earliest(g: Grammar, base: nat, ready: map<string, nat>, fn: Def): nat {
    Latest(base, ready, g.words(fn.signature))
  }

  predicate Fits(g: Grammar, code: string, base: nat, ready: map<string, nat>, fn: Def) {
    fn.start <= |code| && Earliest(g, base, ready, fn) <= LineStart(code, fn.start)
  }

  function PlaceOne(g: Grammar, code: string, base: nat, ready: map<string, nat>, fn: Def, p: Placed): Placed {
    if fn.Prototype() in p.protos || !Fits(g, code, base, ready, fn) then p
    else
      var pos := Earliest(g, base, ready, fn);
      Placed(p.at[pos := At(p, pos) + [fn.Prototype()]], p.protos + [fn.Prototype()])
  }

  function PlaceTo(g: Grammar, code: string, base: nat, ready: map<string, nat>, defs: seq<Def>, k: nat): Placed
    requires k <= |defs|
  {
    if k == 0 then Placed(map[], [])
    else PlaceOne(g, code, base, ready, defs[k - 1], PlaceTo(g, code, base, ready, defs, k - 1))
  }

  /** A prototype at `pos` belongs to a definition that may have it there. */
  ghost predicate Belongs(g: Grammar, code: string, base: nat, ready: map<string, nat>, defs: seq<Def>,
                          pos: nat, proto: string) {
    exists fn | fn in defs ::
      fn.Prototype() == proto && Fits(g, code, base, ready, fn) && pos == Earliest(g, base, ready, fn)
  }

  ghost predicate PlacedRight(g: Grammar, code: string, base: nat, ready: map<string, nat>, defs: seq<Def>, p: Placed) {
    (forall pos | pos in p.at :: p.at[pos] != [])
    && (forall pos, proto | pos in p.at && proto in p.at[pos] :: Belongs(g, code, base, ready, defs, pos, proto))
    && (forall pos, proto | pos in p.at && proto in p.at[pos] :: proto in p.protos)
    && (forall j, k | 0 <= j < k < |p.protos| :: p.protos[j] != p.protos[k])
  }

  lemma {:induction false} PlacedRightTo(g: Grammar, code: string, base: nat, ready: map<string, nat>,
                                         defs: seq<Def>, k: nat)
    requires k <= |defs|
    ensures PlacedRight(g, code, base, ready, defs, PlaceTo(g, code, base, ready, defs, k))
  {
    hide Fits, Earliest;
    if k > 0 {
      PlacedRightTo(g, code, base, ready, defs, k - 1);
    }
  }

  /** No definition that could have a prototype goes without. */
  lemma {:induction false} NoneMissingTo(g: Grammar, code: string, base: nat, ready: map<string, nat>, defs: seq<Def>,
                                         k: nat, i: nat)
    requires i < k <= |defs| && Fits(g, code, base, ready, defs[i])
    ensures defs[i].Prototype() in PlaceTo(g, code, base, ready, defs, k).protos
  {
    hide Fits, Earliest;
    if i < k - 1 {
      NoneMissingTo(g, code, base, ready, defs, k - 1, i);
    }
  }

  // ---- the sketch's own placement -----------------------------------------

  function DefsOf(g: Grammar, code: string): (defs: seq<Def>)
    ensures forall fn | fn in defs :: fn.start < |code|
  {
    DefsInOrder(g, Masked(code));
    Definitions(g, Masked(code))
  }

  function StmtsOf(g: Grammar, code: string): (stmts: seq<Stmt>)
    ensures Within(stmts, |code|)
  {
    StatementsInOrder(g, Masked(code));
    Statements(g, Masked(code))
  }

  function ReadyOf(g: Grammar, code: string): map<string, nat> {
    ReadyTo(g, code, StmtsOf(g, code), |StmtsOf(g, code)|)
  }

  /** The line of the first statement with code in it, or of the first function. */
  function BaseOf(g: Grammar, code: string): nat
    requires DefsOf(g, code) != []
  {
    var first := DefsOf(g, code)[0].start;
    LineStart(code, Min(FirstCode(StmtsOf(g, code), first), first))
  }

  function PlacedOf(g: Grammar, code: string): Placed {
    var defs := DefsOf(g, code);
    if defs == [] then Placed(map[], [])
    else PlaceTo(g, code, BaseOf(g, code), ReadyOf(g, code), defs, |defs|)
  }

  /** The `i`th statement is the first to define the type `w`. */
  predicate FirstDefines(g: Grammar, code: string, stmts: seq<Stmt>, i: nat, w: string)
    requires i < |stmts|
  {
    w in g.types(Masked(code), stmts[i].start, stmts[i].end)
    && forall j | 0 <= j < i :: w !in g.types(Masked(code), stmts[j].start, stmts[j].end)
  }

  lemma {:induction false} WithTypesIs(ready: map<string, nat>, names: seq<string>, at: nat, w: string)
    ensures var r := WithTypes(ready, names, at);
            (w in r <==> w in ready || w in names)
            && (w in r ==> r[w] == if w in ready then ready[w] else at)
    decreases names
  {
    if names != [] {
      WithTypesIs(if names[0] in ready then ready else ready[names[0] := at], names[1..], at, w);
      assert w in names <==> w == names[0] || w in names[1..];
    }
  }

  /** A type is ready on the line after the statement that first defines it. */
  lemma {:induction false} ReadyIs(g: Grammar, code: string, stmts: seq<Stmt>, k: nat, w: string)
    requires k <= |stmts| && Within(stmts, |code|)
    ensures var r := ReadyTo(g, code, stmts, k);
            if w in r then exists i: nat | i < k :: FirstDefines(g, code, stmts, i, w) && r[w] == NextLine(code, stmts[i].end - 1)
            else forall i: nat | i < k :: !FirstDefines(g, code, stmts, i, w)
                                          && w !in g.types(Masked(code), stmts[i].start, stmts[i].end)
  {
    hide Masked, NextLine;
    if k > 0 {
      ReadyIs(g, code, stmts, k - 1, w);
      var st := stmts[k - 1];
      var names := g.types(Masked(code), st.start, st.end);
      var before := ReadyTo(g, code, stmts, k - 1);
      WithTypesIs(before, names, NextLine(code, st.end - 1), w);
      if w !in before && w in names {
        assert FirstDefines(g, code, stmts, k - 1, w);
      }
    }
  }

  lemma {:induction false} LatestIs(base: nat, ready: map<string, nat>, words: seq<string>)
    ensures var r := Latest(base, ready, words);
            r >= base && (forall w | w in words && w in ready :: ready[w] <= r)
            && (r == base || exists w | w in words && w in ready :: r == ready[w])
  {
    if words != [] {
      LatestIs(base, ready, words[1..]);
      assert forall w :: w in words <==> w == words[0] || w in words[1..];
    }
  }

  /** Where `fn`'s prototype must not be before: the end of any type it names. */
  ghost predicate AfterItsTypes(g: Grammar, code: string, fn: Def, pos: nat) {
    var stmts := StmtsOf(g, code);
    forall w, i: nat | w in g.words(fn.signature) && i < |stmts| && FirstDefines(g, code, stmts, i, w) ::
      stmts[i].end <= pos
  }

  lemma {:induction false} EndsBeforeNextLine(g: Grammar, code: string, i: nat)
    requires i < |StmtsOf(g, code)|
    ensures StmtsOf(g, code)[i].end <= NextLine(code, StmtsOf(g, code)[i].end - 1)
  {
    var st := StmtsOf(g, code)[i];
    StatementsInOrder(g, Masked(code));
    MaskKeeps(code, st.end - 1);
    NextLineAfter(code, st.end - 1);
  }

  lemma {:induction false} NextLineAfter(code: string, pos: nat)
    requires pos < |code|
    ensures pos + 1 <= NextLine(code, pos)
  {
  }

  lemma {:induction false} ReadyAfterTypes(g: Grammar, code: string, fn: Def, pos: nat)
    requires forall w | w in g.words(fn.signature) && w in ReadyOf(g, code) :: ReadyOf(g, code)[w] <= pos
    ensures AfterItsTypes(g, code, fn, pos)
  {
    hide FirstDefines, NextLine, Statements;
    var stmts := StmtsOf(g, code);
    forall w, i: nat | w in g.words(fn.signature) && i < |stmts| && FirstDefines(g, code, stmts, i, w)
      ensures stmts[i].end <= pos
    {
      ReadyIs(g, code, stmts, |stmts|, w);
      var j: nat :| j < |stmts| && FirstDefines(g, code, stmts, j, w) && ReadyOf(g, code)[w] == NextLine(code, stmts[j].end - 1);
      OneFirst(g, code, stmts, i, j, w);
      EndsBeforeNextLine(g, code, i);
    }
  }

  lemma {:induction false} OneFirst(g: Grammar, code: string, stmts: seq<Stmt>, i: nat, j: nat, w: string)
    requires i < |stmts| && j < |stmts|
    requires FirstDefines(g, code, stmts, i, w) && FirstDefines(g, code, stmts, j, w)
    ensures i == j
  {
  }

  lemma {:induction false} SpotIsLineStart(g: Grammar, code: string, fn: Def)
    requires fn in DefsOf(g, code)
    requires Fits(g, code, BaseOf(g, code), ReadyOf(g, code), fn)
    ensures var pos := Earliest(g, BaseOf(g, code), ReadyOf(g, code), fn);
            pos <= fn.start < |code| && IsLineStart(code, pos) && BaseOf(g, code) <= pos
    ensures AfterItsTypes(g, code, fn, Earliest(g, BaseOf(g, code), ReadyOf(g, code), fn))
  {
    hide NextLine, Statements, Definitions, FirstDefines, StmtsOf, AfterItsTypes;
    var base, ready := BaseOf(g, code), ReadyOf(g, code);
    var words := g.words(fn.signature);
    var pos := Earliest(g, base, ready, fn);
    LatestIs(base, ready, words);
    ReadyAfterTypes(g, code, fn, pos);
    if pos != base {
      var w :| w in words && w in ready && pos == ready[w];
      ReadyIs(g, code, StmtsOf(g, code), |StmtsOf(g, code)|, w);
    }
  }

  /** Every inserted prototype is that of a function the sketch defines, at a
      line start, no later than the function and no earlier than the end of any
      sketch type its signature names. */
  lemma {:induction false} PrototypesWellPlaced(g: Grammar, code: string, pos: nat, proto: string)
    requires pos in PlacedOf(g, code).at && proto in PlacedOf(g, code).at[pos]
    ensures IsLineStart(code, pos)
    ensures exists fn | fn in DefsOf(g, code) ::
              fn.Prototype() == proto && pos <= fn.start < |code| && AfterItsTypes(g, code, fn, pos)
  {
    hide DefsOf, ReadyOf, BaseOf, AfterItsTypes, IsLineStart, Earliest, Fits, PlaceTo;
    var defs := DefsOf(g, code);
    PlacedRightTo(g, code, BaseOf(g, code), ReadyOf(g, code), defs, |defs|);
    var fn :| fn in defs && fn.Prototype() == proto && Fits(g, code, BaseOf(g, code), ReadyOf(g, code), fn)
              && pos == Earliest(g, BaseOf(g, code), ReadyOf(g, code), fn);
    SpotIsLineStart(g, code, fn);
  }

  lemma {:induction false} ProtosFrom(g: Grammar, code: string, base: nat, ready: map<string, nat>, defs: seq<Def>,
                                      k: nat, proto: string) returns (i: nat)
    requires k <= |defs| && proto in PlaceTo(g, code, base, ready, defs, k).protos
    ensures i < k && defs[i].Prototype() == proto && Fits(g, code, base, ready, defs[i])
  {
    hide Fits, Earliest;
    var before := PlaceTo(g, code, base, ready, defs, k - 1);
    if proto in before.protos {
      i := ProtosFrom(g, code, base, ready, defs, k - 1, proto);
    } else {
      i := k - 1;
    }
  }

  lemma {:induction false} SamePrototype(a: Def, b: Def)
    requires a.Prototype() == b.Prototype()
    ensures a.signature == b.signature
  {
    assert a.signature == a.Prototype()[..|a.Prototype()| - 1];
    assert b.signature == b.Prototype()[..|b.Prototype()| - 1];
  }

  lemma {:induction false} PlacesTo(g: Grammar, code: string, base: nat, ready: map<string, nat>, defs: seq<Def>,
                                    k: nat, p: nat)
    requires k <= |defs|
    ensures p in PlaceTo(g, code, base, ready, defs, k).at <==>
            exists i: nat | i < k :: Fits(g, code, base, ready, defs[i]) && p == Earliest(g, base, ready, defs[i])
  {
    hide Fits;
    if k > 0 {
      PlacesTo(g, code, base, ready, defs, k - 1, p);
      var before, fn := PlaceTo(g, code, base, ready, defs, k - 1), defs[k - 1];
      if fn.Prototype() in before.protos {
        var i := ProtosFrom(g, code, base, ready, defs, k - 1, fn.Prototype());
        SamePrototype(defs[i], fn);
        assert Earliest(g, base, ready, defs[i]) == Earliest(g, base, ready, fn);
      }
    }
  }

  /** The insertions are exactly where some function that fits wants its prototype. */
  lemma {:induction false} PlacesAre(g: Grammar, code: string)
    ensures forall p: nat :: p in PlacedOf(g, code).at <==>
              exists fn | fn in DefsOf(g, code) ::
                Fits(g, code, BaseOf(g, code), ReadyOf(g, code), fn)
                && p == Earliest(g, BaseOf(g, code), ReadyOf(g, code), fn)
  {
    hide PlaceTo, Fits, Earliest, DefsOf, BaseOf, ReadyOf;
    var defs := DefsOf(g, code);
    if defs != [] {
      var base, ready := BaseOf(g, code), ReadyOf(g, code);
      forall p: nat ensures p in PlacedOf(g, code).at <==>
                            exists fn | fn in defs :: Fits(g, code, base, ready, fn) && p == Earliest(g, base, ready, fn)
      {
        PlacesTo(g, code, base, ready, defs, |defs|, p);
        forall fn | fn in defs ensures exists i: nat | i < |defs| :: defs[i] == fn {
        }
      }
    }
  }

  // ---- the text -----------------------------------------------------------

  datatype Piece = Kept(text: string) | Added(at: nat, newline: bool, protos: seq<string>, line: nat)

  /** What goes in at `p`: the prototypes, then a `#line` for the line at `p`. */
  function Cut(code: string, at: map<nat, seq<string>>, p: nat): Piece
    requires p <= |code| && p in at
  {
    Added(p, p > 0 && code[p - 1] != '\n', at[p], Newlines(code[..p]) + 1)
  }

  /** The sketch cut at each insertion, from `cursor`, positions before `p` done with. */
  function Pieces(code: string, at: map<nat, seq<string>>, cursor: nat, p: nat): seq<Piece>
    requires cursor <= |code| && cursor <= p <= |code| + 1
    decreases |code| + 1 - p
  {
    if p > |code| then [Kept(code[cursor..])]
    else if p in at then
      [Kept(code[cursor..p]), Cut(code, at, p)] + Pieces(code, at, p, p + 1)
    else Pieces(code, at, cursor, p + 1)
  }

  function KeptText(pieces: seq<Piece>): string {
    if pieces == [] then ""
    else (if pieces[0].Kept? then pieces[0].text else "") + KeptText(pieces[1..])
  }

  function Decimal(n: nat): string {
    (if n < 10 then "" else Decimal(n / 10)) + ["0123456789"[n % 10]]
  }

  function Join(lines: seq<string>): string {
    if lines == [] then "" else if |lines| == 1 then lines[0] else lines[0] + "\n" + Join(lines[1..])
  }

  /** A file name inside a string literal. */
  function Quoted(name: string): string {
    if name == "" then ""
    else (if name[0] == '\\' then "\\\\" else if name[0] == '"' then "\\\"" else [name[0]]) + Quoted(name[1..])
  }

  function Directive(line: nat, name: string): string {
    "#line " + Decimal(line) + " \"" + Quoted(name) + "\"\n"
  }

  function Render(name: string, piece: Piece): string {
    match piece
    case Kept(text) => text
    case Added(_, newline, protos, line) =>
      (if newline then "\n" else "") + (Join(protos) + "\n") + Directive(line, name)
  }

  function RenderAll(name: string, pieces: seq<Piece>): string {
    if pieces == [] then "" else Render(name, pieces[0]) + RenderAll(name, pieces[1..])
  }

  function Head(name: string): string {
    "#include <Arduino.h>\n" + Directive(1, name)
  }

  function Prepared(g: Grammar, code: string, name: string): (string, seq<string>) {
    if DefsOf(g, code) == [] then (Head(name) + code, [])
    else
      var placed := PlacedOf(g, code);
      (Head(name) + RenderAll(name, Pieces(code, placed.at, 0, 0)), placed.protos)
  }

  lemma {:induction false} KeptTwo(kept: Piece, added: Piece, rest: seq<Piece>)
    requires kept.Kept? && added.Added?
    ensures KeptText([kept, added] + rest) == kept.text + KeptText(rest)
  {
    var all := [kept, added] + rest;
    assert all[1..][0] == added && all[1..][1..] == rest;
    assert KeptText(all[1..]) == "" + KeptText(rest);
  }

  /** Deleting what was inserted leaves the sketch. */
  lemma {:induction false} NothingLost(code: string, at: map<nat, seq<string>>, cursor: nat, p: nat)
    requires cursor <= |code| && cursor <= p <= |code| + 1
    ensures KeptText(Pieces(code, at, cursor, p)) == code[cursor..]
    decreases |code| + 1 - p
  {
    if p > |code| {
      assert KeptText([Kept(code[cursor..])][1..]) == "";
    } else if p in at {
      NothingLost(code, at, p, p + 1);
      var rest := Pieces(code, at, p, p + 1);
      var kept, added := Kept(code[cursor..p]), Cut(code, at, p);
      KeptTwo(kept, added, rest);
      assert code[cursor..p] + code[p..] == code[cursor..];
    } else {
      NothingLost(code, at, cursor, p + 1);
    }
  }

  lemma {:induction false} PiecesStep(code: string, at: map<nat, seq<string>>, cursor: nat, p: nat)
    requires cursor <= |code| && cursor <= p <= |code| + 1
    ensures Pieces(code, at, cursor, p) ==
            if p > |code| then [Kept(code[cursor..])]
            else if p in at then [Kept(code[cursor..p]), Cut(code, at, p)] + Pieces(code, at, p, p + 1)
            else Pieces(code, at, cursor, p + 1)
  {
  }

  /** Nothing of the sketch is lost, and every insertion falls at a line start. */
  lemma {:induction false} TextKept(g: Grammar, code: string)
    ensures KeptText(Pieces(code, PlacedOf(g, code).at, 0, 0)) == code
    ensures forall p | p in PlacedOf(g, code).at :: p < |code| && IsLineStart(code, p)
  {
    hide PlacedOf, Pieces, KeptText, IsLineStart;
    var at := PlacedOf(g, code).at;
    NothingLost(code, at, 0, 0);
    forall p | p in at ensures p < |code| && IsLineStart(code, p) {
      PlacedNotEmpty(g, code, p);
      PrototypesWellPlaced(g, code, p, at[p][0]);
    }
    assert code[0..] == code;
  }

  lemma {:induction false} PlacedNotEmpty(g: Grammar, code: string, p: nat)
    requires p in PlacedOf(g, code).at
    ensures PlacedOf(g, code).at[p] != []
  {
    hide PlaceTo, DefsOf, ReadyOf, BaseOf, Fits, Earliest;
    var defs := DefsOf(g, code);
    PlacedRightTo(g, code, BaseOf(g, code), ReadyOf(g, code), defs, |defs|);
  }

  /** A function gets its prototype whenever there is room for one before it. */
  lemma {:induction false} NoneMissing(g: Grammar, code: string, fn: Def)
    requires fn in DefsOf(g, code) && Fits(g, code, BaseOf(g, code), ReadyOf(g, code), fn)
    ensures fn.Prototype() in PlacedOf(g, code).protos
  {
    hide DefsOf, ReadyOf, BaseOf, Fits;
    var defs := DefsOf(g, code);
    var i :| 0 <= i < |defs| && defs[i] == fn;
    NoneMissingTo(g, code, BaseOf(g, code), ReadyOf(g, code), defs, |defs|, i);
  }

  // ---- the scanners and the preprocessor ----------------------------------

  method FindFunctionDefinitions(g: Grammar, code: string) returns (found: seq<Def>)
    ensures found == DefsOf(g, code)
  {
    hide Masked, Strip, Lead;
    var out := Mask(code);
    var masked := out[..];
    found := [];
    var depth, paren, stmtStart := 0, 0, 0;
    for i := 0 to |masked|
      invariant stmtStart <= i
      invariant DefScan(depth, paren, stmtStart, found) == DefsTo(g, masked, i)
    {
      var c := masked[i];
      if c == '(' {
        paren := paren + 1;
      } else if c == ')' {
        paren := paren - 1;
      } else if c == '{' {
        if depth == 0 && paren == 0 {
          var text := masked[stmtStart..i];
          var fn := ParseHeader(g, Strip(text));
          if fn.Some? {
            found := found + [Def(stmtStart + Lead(text), fn.value)];
          }
        }
        depth := depth + 1;
      } else if c == '}' {
        depth := depth - 1;
        if depth == 0 {
          stmtStart := i + 1;
        }
      } else if c == ';' && depth == 0 && paren == 0 {
        stmtStart := i + 1;
      }
    }
  }

  method TopLevelStatements(g: Grammar, masked: string) returns (out: seq<Stmt>)
    ensures out == Statements(g, masked)
  {
    out := [];
    var depth, paren, code := 0, 0, false;
    var start: Option<nat> := None;
    for i := 0 to |masked|
      invariant StmtScan(depth, paren, start, code, out) == StmtsTo(g, masked, i)
    {
      var c := masked[i];
      if start.None? {
        if Space(c) {
          continue;
        }
        start, code := Some(i), false;
      }
      if c == '(' {
        paren := paren + 1;
      } else if c == ')' {
        paren := paren - 1;
      } else if c == '{' {
        if g.body(masked[Max(start.value, i - 120)..i]) {
          code := true;
        }
        depth := depth + 1;
      } else if c == '}' {
        depth := depth - 1;
        if depth == 0 && paren == 0 {
          var j := i + 1;
          while j < |masked| && masked[j] in " \t\r\n"
            invariant i + 1 <= j <= |masked|
            invariant SkipBlanks(masked, j) == SkipBlanks(masked, i + 1)
          {
            j := j + 1;
          }
          if j >= |masked| || masked[j] != ';' {
            out := out + [Stmt(start.value, i + 1, code)];
            start := None;
          }
        }
      } else if c == ';' && depth == 0 && paren == 0 {
        out := out + [Stmt(start.value, i + 1, code)];
        start := None;
      }
    }
  }

  /** Where each type the sketch defines stops being incomplete. */
  method TypeReady(g: Grammar, code: string, masked: string, stmts: seq<Stmt>) returns (ready: map<string, nat>)
    requires masked == Masked(code) && Within(stmts, |code|)
    ensures ready == ReadyTo(g, code, stmts, |stmts|)
  {
    hide Masked, NextLine;
    ready := map[];
    for k := 0 to |stmts|
      invariant ready == ReadyTo(g, code, stmts, k)
    {
      var st := stmts[k];
      var names := g.types(masked, st.start, st.end);
      var at := NextLine(code, st.end - 1);
      for m := 0 to |names|
        invariant WithTypes(ready, names[m..], at) == WithTypes(ReadyTo(g, code, stmts, k), names, at)
      {
        assert names[m..][0] == names[m] && names[m..][1..] == names[m + 1..];
        if names[m] !in ready {
          ready := ready[names[m] := at];
        }
      }
    }
  }

  method PlaceAll(g: Grammar, code: string, base: nat, ready: map<string, nat>, defs: seq<Def>) returns (p: Placed)
    requires forall fn | fn in defs :: fn.start < |code|
    ensures p == PlaceTo(g, code, base, ready, defs, |defs|)
  {
    hide Latest;
    var placed: map<nat, seq<string>>, protos: seq<string> := map[], [];
    for k := 0 to |defs|
      invariant Placed(placed, protos) == PlaceTo(g, code, base, ready, defs, k)
    {
      var fn := defs[k];
      if fn.Prototype() in protos {
        continue;
      }
      var pos := Latest(base, ready, g.words(fn.signature));
      if pos > LineStart(code, fn.start) {
        continue;
      }
      placed := placed[pos := (if pos in placed then placed[pos] else []) + [fn.Prototype()]];
      protos := protos + [fn.Prototype()];
    }
    p := Placed(placed, protos);
  }

  lemma {:induction false} PiecesSkip(code: string, at: map<nat, seq<string>>, cursor: nat, p: nat, q: nat)
    requires cursor <= |code| && cursor <= p <= q <= |code| + 1
    requires forall k | k in at :: !(p <= k < q)
    ensures Pieces(code, at, cursor, p) == Pieces(code, at, cursor, q)
    decreases q - p
  {
    if p < q {
      PiecesSkip(code, at, cursor, p + 1, q);
    }
  }

  method Smallest(keys: set<nat>) returns (k: nat)
    requires keys != {}
    ensures k in keys && forall q | q in keys :: k <= q
  {
    k :| k in keys;
    var rest := keys;
    while rest != {}
      invariant k in keys && rest <= keys
      invariant forall q | q in keys - rest :: k <= q
      decreases |rest|
    {
      var q :| q in rest;
      assert forall x :: x in keys - (rest - {q}) <==> x == q || x in keys - rest;
      if q < k {
        k := q;
      }
      rest := rest - {q};
    }
    assert keys - rest == keys;
  }

  lemma {:induction false} RenderTwo(name: string, kept: Piece, added: Piece, rest: seq<Piece>)
    ensures RenderAll(name, [kept, added] + rest) == Render(name, kept) + Render(name, added) + RenderAll(name, rest)
  {
    hide Render;
    var all := [kept, added] + rest;
    assert all[1..][0] == added && all[1..][1..] == rest;
    var a, b, c := Render(name, kept), Render(name, added), RenderAll(name, rest);
    assert RenderAll(name, all[1..]) == b + c;
    assert RenderAll(name, all) == a + RenderAll(name, all[1..]);
    assert a + (b + c) == a + b + c;
  }

  lemma {:induction false} Regroup(a: string, b: string, c: string, d: string)
    ensures a + (b + c + d) == a + b + c + d
  {
  }

  method Insertion(code: string, name: string, placed: map<nat, seq<string>>, pos: nat) returns (text: string)
    requires pos <= |code| && pos in placed
    ensures text == Render(name, Cut(code, placed, pos))
  {
    hide Directive, Join, Newlines;
    text := "";
    if pos > 0 && code[pos - 1] != '\n' {
      text := text + "\n";
    }
    text := text + (Join(placed[pos]) + "\n");
    text := text + Directive(Newlines(code[..pos]) + 1, name);
  }

  /** The sketch text with each group of prototypes spliced in, in order of position. */
  method Splice(code: string, name: string, placed: map<nat, seq<string>>) returns (body: string)
    requires forall p | p in placed :: p <= |code|
    ensures body == RenderAll(name, Pieces(code, placed, 0, 0))
  {
    hide Pieces, RenderAll, Cut;
    body := "";
    var cursor, keys := 0, placed.Keys;
    ghost var from := 0;
    assert "" + RenderAll(name, Pieces(code, placed, 0, 0)) == RenderAll(name, Pieces(code, placed, 0, 0));
    while keys != {}
      invariant cursor <= |code| && cursor <= from <= |code| + 1
      invariant forall p :: p in keys <==> p in placed && p >= from
      invariant body + RenderAll(name, Pieces(code, placed, cursor, from)) == RenderAll(name, Pieces(code, placed, 0, 0))
      decreases |keys|
    {
      var pos := Smallest(keys);
      PiecesSkip(code, placed, cursor, from, pos);
      PiecesStep(code, placed, cursor, pos);
      RenderTwo(name, Kept(code[cursor..pos]), Cut(code, placed, pos), Pieces(code, placed, pos, pos + 1));
      var insertion := Insertion(code, name, placed, pos);
      Regroup(body, code[cursor..pos], insertion, RenderAll(name, Pieces(code, placed, pos, pos + 1)));
      body := body + code[cursor..pos] + insertion;
      cursor, keys, from := pos, keys - {pos}, pos + 1;
    }
    PiecesSkip(code, placed, cursor, from, |code| + 1);
    PiecesStep(code, placed, cursor, |code| + 1);
    RenderOne(name, Kept(code[cursor..]));
    body := body + code[cursor..];
  }

  lemma {:induction false} RenderOne(name: string, piece: Piece)
    ensures RenderAll(name, [piece]) == Render(name, piece)
  {
    hide Render;
    assert [piece][1..] == [];
    assert RenderAll(name, [piece]) == Render(name, piece) + RenderAll(name, []);
  }

  method PrepareSketch(g: Grammar, code: string, name: string) returns (text: string, protos: seq<string>)
    ensures (text, protos) == Prepared(g, code, name)
  {
    hide DefsOf, Masked, Pieces, RenderAll, Head, Statements, PlaceTo, ReadyTo, FirstCode;
    var defs := FindFunctionDefinitions(g, code);
    var head := Head(name);
    if defs == [] {
      return head + code, [];
    }
    var masked := Mask(code);
    var stmts := TopLevelStatements(g, masked[..]);
    var base := LineStart(code, Min(FirstCode(stmts, defs[0].start), defs[0].start));
    var ready := TypeReady(g, code, masked[..], StmtsOf(g, code));
    var placed := PlaceAll(g, code, base, ready, defs);
    TextKept(g, code);
    var body := Splice(code, name, placed.at);
    return head + body, placed.protos;
  }
}
