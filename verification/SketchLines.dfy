/** Which line numbers a compiler gives a prepared sketch. */
module SketchLines {
  import opened Common
  import opened Sketch
  import C = CppReader

  // ---- reading what is inserted -------------------------------------------

  /** A file name that cannot break a line, nor close a comment or a raw string. */
  predicate NameOk(name: string) {
    '\n' !in name && '*' !in name && ')' !in name
  }

  lemma {:induction false} DecimalIsDigits(n: nat)
    ensures forall c | c in Decimal(n) :: C.Digit(c)
    ensures Decimal(n) != ""
  {
    if n >= 10 {
      DecimalIsDigits(n / 10);
    }
    OneDigit(n % 10);
  }

  lemma {:induction false} OneDigit(d: nat)
    requires d < 10
    ensures C.Digit("0123456789"[d]) && "0123456789"[d] as int == '0' as int + d
  {
  }

  lemma {:induction false} DecimalReads(n: nat, rest: string)
    ensures C.Digits(Decimal(n) + rest, 0, false) == C.Digits(rest, n, true)
  {
    var last := ["0123456789"[n % 10]];
    OneDigit(n % 10);
    if n < 10 {
      assert Decimal(n) == last;
    } else {
      assert Decimal(n) + rest == Decimal(n / 10) + (last + rest);
      DecimalReads(n / 10, last + rest);
    }
    assert (last + rest)[1..] == rest;
  }

  /** In a literal, or behind a backslash that escapes another. */
  predicate InName(l: C.Lex) {
    (l.mode == C.Quoted('"') && !l.pending) || (l.mode == C.Escape('"') && l.pending)
  }

  lemma {:induction false} QuotedReads(name: string, l: C.Lex)
    requires InName(l) && '\n' !in name
    ensures var r := C.LexRead(Quoted(name), l); InName(r) && r.kind == l.kind
    ensures '\n' !in Quoted(name)
    ensures '*' !in name ==> '*' !in Quoted(name)
    ensures ')' !in name ==> ')' !in Quoted(name)
    decreases name
  {
    if name != "" {
      assert name[0] in name;
      assert forall c | c in name[1..] :: c in name;
      var one := if name[0] == '\\' then "\\\\" else if name[0] == '"' then "\\\"" else [name[0]];
      QuotedOne(name[0], one, l);
      C.LexConcat(one, Quoted(name[1..]), l);
      QuotedReads(name[1..], C.LexRead(one, l));
    }
  }

  lemma {:induction false} QuotedOne(c: char, one: string, l: C.Lex)
    requires InName(l) && c != '\n'
    requires one == if c == '\\' then "\\\\" else if c == '"' then "\\\"" else [c]
    ensures var r := C.LexRead(one, l); InName(r) && r.kind == l.kind
  {
    var l1 := C.LexStep(l, one[0]);
    C.LexOne(one[0], l);
    if |one| == 2 {
      assert one == [one[0]] + [one[1]];
      C.LexConcat([one[0]], [one[1]], l);
      C.LexOne(one[1], l1);
    }
  }

  // ---- the `#line` that goes in -------------------------------------------

  lemma {:induction false} DirectiveShape(line: nat, name: string)
    ensures Directive(line, name) == "#" + ("line " + Decimal(line)) + " " + "\"" + Quoted(name) + "\"" + "\n"
  {
    var d, q := Decimal(line), Quoted(name);
    assert "#line " == "#" + "line " && " \"" == " " + "\"" && "\"\n" == "\"" + "\n";
  }

  lemma {:induction false} LineText(line: nat, name: string) returns (t: string)
    requires NameOk(name)
    ensures Directive(line, name) == t + "\n" && '\n' !in t
    ensures var r := C.LexRead(t, C.REST);
            C.LineEnds(r) && r.kind == C.Directive("line " + Decimal(line) + " " + "\"")
    ensures '*' !in t && ')' !in t
  {
    hide C.LexStep, C.LexRead;
    DirectiveShape(line, name);
    DecimalIsDigits(line);
    var word := "line " + Decimal(line);
    forall c | c in word ensures C.Calm(c) && c != '*' && c != ')' {
      assert c in "line " || c in Decimal(line);
    }
    var head := "#" + word + " ";
    t := head + "\"" + Quoted(name) + "\"";
    C.DirectiveStarts(word);
    var l0 := C.LexRead(head, C.REST);
    var l1 := C.LexStep(l0, '"');
    QuoteOpens(word + " ");
    QuotedReads(name, l1);
    var l2 := C.LexRead(Quoted(name), l1);
    QuoteCloses(l2);
    C.LexOne('"', l0);
    C.LexOne('"', l2);
    C.LexConcat(head, "\"", C.REST);
    C.LexConcat(head + "\"", Quoted(name), C.REST);
    C.LexConcat(head + "\"" + Quoted(name), "\"", C.REST);
    assert Directive(line, name) == t + "\n";
  }

  lemma {:induction false} QuoteOpens(t: string)
    ensures var l := C.LexStep(C.Lex(C.Plain, C.Directive(t), "", false), '"');
            InName(l) && l.kind == C.Directive(t + "\"")
  {
  }

  lemma {:induction false} QuoteCloses(l: C.Lex)
    requires InName(l)
    ensures var r := C.LexStep(l, '"'); C.LineEnds(r) && r.kind == l.kind
  {
  }

  lemma {:induction false} LineObeyed(h: C.Conditions, line: nat, s: C.Reader)
    ensures C.Obey(h, "line " + Decimal(line) + " " + "\"", s) ==
            if C.Live(s) then C.Reader(s.lex, s.groups, s.asked, line) else s
  {
    hide C.Live;
    var rest := " " + (Decimal(line) + (" " + "\""));
    var t := "line " + Decimal(line) + " " + "\"";
    assert t == "line" + rest;
    assert C.AfterBlanks(t) == t;
    C.LettersOf("line", rest);
    assert t[|"line"|..] == rest;
    DecimalIsDigits(line);
    assert rest[1..] == Decimal(line) + (" " + "\"");
    assert rest[1..][0] == Decimal(line)[0] && Decimal(line)[0] in Decimal(line);
    NoBlankFirst(rest[1..]);
    DecimalReads(line, " " + "\"");
  }

  lemma {:induction false} NoBlankFirst(t: string)
    requires t != "" && !C.White(t[0])
    ensures C.AfterBlanks(" " + t) == t
  {
    assert (" " + t)[1..] == t;
  }

  /** At rest, in text that is read, the directive sets the number of the next
      line; in a skipped group it is one more line. */
  lemma {:induction false} LineReadAtRest(h: C.Conditions, line: nat, name: string, s: C.Reader)
    requires NameOk(name) && s.lex == C.REST
    ensures C.Read(h, Directive(line, name), s) ==
            C.Reader(C.REST, s.groups, s.asked, if C.Live(s) then line else s.number + 1)
  {
    hide C.LexStep, C.LexRead, C.Obey, C.Live;
    var t := LineText(line, name);
    C.ReadWithin(h, t, s);
    C.ReadConcat(h, t, "\n", s);
    C.ReadNewline(h, C.Read(h, t, s));
    LineObeyed(h, line, C.Reader(C.REST, s.groups, s.asked, s.number + 1));
    SameGroups(s, C.Reader(C.REST, s.groups, s.asked, s.number + 1));
  }

  lemma {:induction false} SameGroups(s: C.Reader, r: C.Reader)
    requires s.groups == r.groups
    ensures C.Live(s) == C.Live(r)
  {
  }

  lemma {:induction false} LineReadInside(h: C.Conditions, line: nat, name: string, s: C.Reader)
    requires NameOk(name) && C.Inside(s.lex) && !s.lex.pending
    ensures C.Read(h, Directive(line, name), s).number == s.number + 1
  {
    hide C.LexStep, C.LexRead, C.Obey;
    var t := LineText(line, name);
    C.ReadWithin(h, t, s);
    C.ReadConcat(h, t, "\n", s);
    C.InsideStays(t, s.lex);
    C.ReadNewline(h, C.Read(h, t, s));
    NotEnded(C.LexRead(t, s.lex));
  }

  lemma {:induction false} NotEnded(l: C.Lex)
    requires C.Inside(l)
    ensures !C.LineEnds(l)
  {
  }

  // ---- the prototypes that go in ------------------------------------------

  lemma {:induction false} JoinStep(protos: seq<string>)
    requires |protos| > 1
    ensures Join(protos) + "\n" == protos[0] + "\n" + (Join(protos[1..]) + "\n")
  {
    var a, b, c := protos[0], "\n", Join(protos[1..]);
    assert a + b + c + b == a + b + (c + b);
  }

  lemma {:induction false} ProtosAtRest(h: C.Conditions, protos: seq<string>, s: C.Reader)
    requires protos != [] && (forall t | t in protos :: C.Quiet(t)) && s.lex == C.REST
    ensures C.Read(h, Join(protos) + "\n", s) == C.Reader(C.REST, s.groups, s.asked, s.number + |protos|)
    decreases |protos|
  {
    hide C.Quiet, C.Read;
    assert protos[0] in protos;
    C.ReadQuiet(h, protos[0], s);
    if |protos| > 1 {
      var s1 := C.Reader(C.REST, s.groups, s.asked, s.number + 1);
      JoinStep(protos);
      C.ReadConcat(h, protos[0] + "\n", Join(protos[1..]) + "\n", s);
      ProtosAtRest(h, protos[1..], s1);
    }
  }

  lemma {:induction false} ProtosInside(h: C.Conditions, protos: seq<string>, s: C.Reader)
    requires protos != [] && (forall t | t in protos :: C.Sane(t))
    requires C.Inside(s.lex) && !s.lex.pending
    ensures var r := C.Read(h, Join(protos) + "\n", s);
            C.Inside(r.lex) && !r.lex.pending && r.number == s.number + |protos|
    decreases |protos|
  {
    hide C.Sane, C.Read, C.Inside;
    assert protos[0] in protos;
    C.ReadSaneInside(h, protos[0], s);
    if |protos| > 1 {
      JoinStep(protos);
      C.ReadConcat(h, protos[0] + "\n", Join(protos[1..]) + "\n", s);
      ProtosInside(h, protos[1..], C.Read(h, protos[0] + "\n", s));
    }
  }

  // ---- a whole insertion --------------------------------------------------

  predicate SanePiece(name: string, piece: Piece) {
    piece.Added? && !piece.newline && piece.protos != [] && NameOk(name)
    && forall t | t in piece.protos :: C.Sane(t)
  }

  lemma {:induction false} RenderParts(name: string, piece: Piece)
    requires piece.Added? && !piece.newline
    ensures Render(name, piece) == (Join(piece.protos) + "\n") + Directive(piece.line, name)
  {
    assert "" + (Join(piece.protos) + "\n") == Join(piece.protos) + "\n";
  }

  lemma {:induction false} InsertionAtRest(h: C.Conditions, name: string, piece: Piece, s: C.Reader)
    requires SanePiece(name, piece) && s.lex == C.REST
    ensures C.Read(h, Render(name, piece), s) ==
            C.Reader(C.REST, s.groups, s.asked,
                     if C.Live(s) then piece.line else s.number + |piece.protos| + 1)
  {
    hide C.Read, C.Live, C.Quiet, Render, Directive;
    RenderParts(name, piece);
    C.ReadConcat(h, Join(piece.protos) + "\n", Directive(piece.line, name), s);
    ProtosAtRest(h, piece.protos, s);
    var s1 := C.Reader(C.REST, s.groups, s.asked, s.number + |piece.protos|);
    LineReadAtRest(h, piece.line, name, s1);
    SameGroups(s, s1);
  }

  lemma {:induction false} InsertionInside(h: C.Conditions, name: string, piece: Piece, s: C.Reader)
    requires SanePiece(name, piece) && C.Inside(s.lex) && !s.lex.pending
    ensures C.Read(h, Render(name, piece), s).number == s.number + |piece.protos| + 1
  {
    hide C.Read, C.Inside, C.Sane, Render, Directive;
    RenderParts(name, piece);
    C.ReadConcat(h, Join(piece.protos) + "\n", Directive(piece.line, name), s);
    ProtosInside(h, piece.protos, s);
    LineReadInside(h, piece.line, name, C.Read(h, Join(piece.protos) + "\n", s));
  }

  // ---- the numbers a compiler gives the sketch's characters ---------------

  /** The numbers of the sketch's own characters when the pieces are read in order. */
  function Compiled(h: C.Conditions, name: string, pieces: seq<Piece>, s: C.Reader): seq<nat>
    decreases pieces
  {
    if pieces == [] then []
    else
      match pieces[0]
      case Kept(text) => C.Numbers(h, text, s) + Compiled(h, name, pieces[1..], C.Read(h, text, s))
      case Added(_, _, _, _) => Compiled(h, name, pieces[1..], C.Read(h, Render(name, pieces[0]), s))
  }

  /** Where the compiler stands when it gets to `p` in the sketch as written. */
  function StateAt(h: C.Conditions, code: string, p: nat): C.Reader
    requires p <= |code|
  {
    C.Read(h, code[..p], C.FILE)
  }

  /** At `p` the compiler reads text, outside comments and raw strings, and has
      the number of the line right. */
  predicate OpenAt(h: C.Conditions, code: string, p: nat)
    requires p <= |code|
  {
    var s := StateAt(h, code, p);
    s.lex == C.REST && C.Live(s) && s.number == Newlines(code[..p]) + 1
  }

  /** The line before is not continued by a backslash. */
  predicate NotSpliced(code: string, p: nat) {
    2 <= p <= |code| ==> code[p - 2] != '\\'
  }

  lemma {:induction false} StateAtLineStart(h: C.Conditions, code: string, p: nat)
    requires p <= |code| && IsLineStart(code, p) && NotSpliced(code, p)
    ensures var l := StateAt(h, code, p).lex; l == C.REST || (C.Inside(l) && !l.pending)
  {
    hide C.LexStep, C.LexRead, C.Inside, C.Read;
    C.LexOfRead(h, code[..p], C.FILE);
    if p == 0 {
      C.StartsAtRest();
      assert code[..p] == "";
    } else {
      assert code[..p] == code[..p - 1] + "\n";
      C.AfterNewline(code[..p - 1]);
    }
  }

  lemma {:induction false} StateLater(h: C.Conditions, code: string, p: nat, q: nat)
    requires p <= q <= |code|
    ensures StateAt(h, code, q) == C.Read(h, code[p..q], StateAt(h, code, p))
    ensures C.Numbers(h, code[p..], StateAt(h, code, p)) ==
            C.Numbers(h, code[p..q], StateAt(h, code, p)) + C.Numbers(h, code[q..], StateAt(h, code, q))
  {
    hide C.Read, C.Numbers;
    assert code[..q] == code[..p] + code[p..q];
    C.ReadConcat(h, code[..p], code[p..q], C.FILE);
    assert code[p..] == code[p..q] + code[q..];
    C.ReadConcat(h, code[p..q], code[q..], StateAt(h, code, p));
  }

  /** Reading an insertion at `p` leaves the compiler where it was, or with the
      number of the next line wrong. */
  lemma {:induction false} InsertionTells(h: C.Conditions, code: string, name: string, at: map<nat, seq<string>>, p: nat)
    requires p <= |code| && p in at && IsLineStart(code, p)
    requires at[p] != [] && NameOk(name) && forall t | t in at[p] :: C.Sane(t)
    ensures var r := C.Read(h, Render(name, Cut(code, at, p)), StateAt(h, code, p));
            (OpenAt(h, code, p) ==> r == StateAt(h, code, p))
            && (!OpenAt(h, code, p) && NotSpliced(code, p) ==> r.number != StateAt(h, code, p).number)
  {
    hide C.Read, C.Live, C.Inside, C.Sane, Render, StateAt;
    var s, piece := StateAt(h, code, p), Cut(code, at, p);
    if s.lex == C.REST {
      InsertionAtRest(h, name, piece, s);
    } else if NotSpliced(code, p) {
      StateAtLineStart(h, code, p);
      InsertionInside(h, name, piece, s);
    }
  }

  predicate AllOpen(h: C.Conditions, code: string, at: map<nat, seq<string>>, p: nat) {
    forall q | q in at && q >= p :: q <= |code| && OpenAt(h, code, q)
  }

  ghost predicate Insertion(code: string, at: map<nat, seq<string>>, q: nat)
    requires q in at
  {
    q < |code| && IsLineStart(code, q) && at[q] != [] && forall t | t in at[q] :: C.Sane(t)
  }

  /** What every insertion is known to be. */
  ghost predicate Insertions(code: string, name: string, at: map<nat, seq<string>>) {
    NameOk(name) && forall q | q in at :: Insertion(code, at, q)
  }

  lemma {:induction false} CompiledTwo(h: C.Conditions, name: string, kept: Piece, added: Piece, rest: seq<Piece>,
                                       s: C.Reader)
    requires kept.Kept? && added.Added?
    ensures Compiled(h, name, [kept, added] + rest, s) ==
            C.Numbers(h, kept.text, s)
            + Compiled(h, name, rest, C.Read(h, Render(name, added), C.Read(h, kept.text, s)))
  {
    hide C.Read, C.Numbers, Render;
    var all := [kept, added] + rest;
    assert all[1..][0] == added && all[1..][1..] == rest;
    var s1 := C.Read(h, kept.text, s);
    assert Compiled(h, name, all[1..], s1) == Compiled(h, name, rest, C.Read(h, Render(name, added), s1));
  }

  lemma {:induction false} CompiledOne(h: C.Conditions, name: string, text: string, s: C.Reader)
    ensures Compiled(h, name, [Kept(text)], s) == C.Numbers(h, text, s)
  {
    hide C.Read, C.Numbers;
    assert [Kept(text)][1..] == [];
    assert Compiled(h, name, [Kept(text)][1..], C.Read(h, text, s)) == [];
  }

  lemma {:induction false} BothHalves(a: seq<nat>, b: seq<nat>, c: seq<nat>, d: seq<nat>)
    requires |a| == |c|
    ensures a + b == c + d <==> a == c && b == d
  {
    if a + b == c + d {
      assert (a + b)[..|a|] == a && (c + d)[..|a|] == c;
      assert (a + b)[|a|..] == b && (c + d)[|a|..] == d;
    }
  }

  /** A wrong number shows on the first character. */
  lemma {:induction false} WrongShows(h: C.Conditions, code: string, name: string, at: map<nat, seq<string>>,
                                      cursor: nat, p: nat, s: C.Reader)
    requires cursor < |code| && cursor < p <= |code| + 1
    requires s.number != StateAt(h, code, cursor).number
    ensures Compiled(h, name, Pieces(code, at, cursor, p), s) !=
            C.Numbers(h, code[cursor..], StateAt(h, code, cursor))
    decreases |code| + 1 - p
  {
    hide Compiled, Pieces, C.Read, StateAt;
    PiecesStep(code, at, cursor, p);
    var right := C.Numbers(h, code[cursor..], StateAt(h, code, cursor));
    assert right[0] == StateAt(h, code, cursor).number;
    if p > |code| {
      CompiledOne(h, name, code[cursor..], s);
      assert C.Numbers(h, code[cursor..], s)[0] == s.number;
    } else if p in at {
      CompiledTwo(h, name, Kept(code[cursor..p]), Cut(code, at, p), Pieces(code, at, p, p + 1), s);
      assert C.Numbers(h, code[cursor..p], s)[0] == s.number;
    } else {
      WrongShows(h, code, name, at, cursor, p + 1, s);
    }
  }

  predicate NoneSpliced(code: string, at: map<nat, seq<string>>, p: nat) {
    forall q | q in at && q >= p :: NotSpliced(code, q)
  }

  /** From a point where the compiler stands as it would in the sketch alone, the
      numbers stay right when every later insertion is at an open line, and only
      then unless one comes after a spliced line. */
  lemma {:induction false} RightFrom(h: C.Conditions, code: string, name: string, at: map<nat, seq<string>>,
                                     cursor: nat, p: nat)
    requires cursor < |code| && cursor <= p <= |code| + 1
    requires Insertions(code, name, at)
    ensures var right := Compiled(h, name, Pieces(code, at, cursor, p), StateAt(h, code, cursor)) ==
                         C.Numbers(h, code[cursor..], StateAt(h, code, cursor));
            (AllOpen(h, code, at, p) ==> right)
            && (NoneSpliced(code, at, p) && right ==> AllOpen(h, code, at, p))
    decreases |code| + 1 - p
  {
    hide Compiled, Pieces, C.Read, C.Numbers, StateAt, OpenAt, Render;
    PiecesStep(code, at, cursor, p);
    if p > |code| {
      CompiledOne(h, name, code[cursor..], StateAt(h, code, cursor));
    } else if p in at {
      assert Insertion(code, at, p);
      var s := StateAt(h, code, p);
      var r := C.Read(h, Render(name, Cut(code, at, p)), s);
      CompiledTwo(h, name, Kept(code[cursor..p]), Cut(code, at, p), Pieces(code, at, p, p + 1), StateAt(h, code, cursor));
      StateLater(h, code, cursor, p);
      InsertionTells(h, code, name, at, p);
      BothHalves(C.Numbers(h, code[cursor..p], StateAt(h, code, cursor)),
                 Compiled(h, name, Pieces(code, at, p, p + 1), r),
                 C.Numbers(h, code[cursor..p], StateAt(h, code, cursor)), C.Numbers(h, code[p..], s));
      if OpenAt(h, code, p) {
        RightFrom(h, code, name, at, p, p + 1);
      } else if NotSpliced(code, p) {
        WrongShows(h, code, name, at, p, p + 1, r);
      }
    } else {
      RightFrom(h, code, name, at, cursor, p + 1);
    }
  }

  // ---- the head of the file -----------------------------------------------

  /** The two lines put first leave the sketch's first line numbered 1. */
  lemma {:induction false} HeadReads(h: C.Conditions, name: string)
    requires NameOk(name)
    ensures C.Read(h, Head(name), C.FILE) == C.FILE
  {
    hide C.Read, C.LexStep, C.LexRead, C.Obey, Directive, Head;
    HeadParts(name);
    IncludeCalm();
    var t := "include <Arduino.h>";
    var s := C.Reader(C.REST, [], 0, 2);
    C.ReadConcat(h, "#" + t + "\n", Directive(1, name), C.FILE);
    C.ReadDirective(h, t, C.FILE);
    IncludeAlone(h, s);
    LineReadAtRest(h, 1, name, s);
  }

  lemma {:induction false} HeadParts(name: string)
    ensures Head(name) == ("#" + "include <Arduino.h>" + "\n") + Directive(1, name)
  {
    hide Directive;
    assert "#include <Arduino.h>\n" == "#" + "include <Arduino.h>" + "\n";
  }

  lemma {:induction false} IncludeCalm()
    ensures forall c | c in "include <Arduino.h>" :: C.Calm(c)
  {
  }

  lemma {:induction false} IncludeAlone(h: C.Conditions, s: C.Reader)
    ensures C.Obey(h, "include <Arduino.h>", s) == s
  {
    hide C.Obey, C.Letters, C.AfterBlanks;
    var name, rest := "include", " <Arduino.h>";
    assert "include <Arduino.h>" == name + rest;
    C.LettersOf(name, rest);
    NoneToSkip(name + rest);
    NoSuchDirective(h, name + rest, s);
  }

  lemma {:induction false} NoneToSkip(t: string)
    requires t == "" || !C.White(t[0])
    ensures C.AfterBlanks(t) == t
  {
  }

  lemma {:induction false} NoSuchDirective(h: C.Conditions, t: string, s: C.Reader)
    requires |C.Letters(C.AfterBlanks(t))| == 7
    ensures C.Obey(h, t, s) == s
  {
    hide C.Letters, C.AfterBlanks, C.Live;
  }

  // ---- the promise --------------------------------------------------------

  /** The sketch's own lines at which prototypes are wanted: the base line and
      the lines after the types the functions name. */
  ghost predicate WantedAt(g: Grammar, code: string, fn: Def, p: nat)
    requires fn in DefsOf(g, code)
  {
    Fits(g, code, BaseOf(g, code), ReadyOf(g, code), fn)
    && p == Earliest(g, BaseOf(g, code), ReadyOf(g, code), fn)
  }

  ghost predicate AllWantedOpen(g: Grammar, h: C.Conditions, code: string) {
    forall fn, p: nat | fn in DefsOf(g, code) && WantedAt(g, code, fn, p) :: p <= |code| && OpenAt(h, code, p)
  }

  ghost predicate NoneWantedSpliced(g: Grammar, code: string) {
    forall fn, p: nat | fn in DefsOf(g, code) && WantedAt(g, code, fn, p) :: NotSpliced(code, p)
  }

  /** Every sketch line compiles under the number it has in the sketch alone if
      each line at which a prototype is wanted is open: text that is read,
      outside comments and raw strings, and itself rightly numbered. Unless a
      wanted line continues the one before by a backslash, that is needed too. */
  lemma {:induction false} LinesKept(g: Grammar, h: C.Conditions, code: string, name: string)
    requires NameOk(name)
    requires forall fn | fn in DefsOf(g, code) :: C.Sane(fn.Prototype())
    ensures var right := Compiled(h, name, Pieces(code, PlacedOf(g, code).at, 0, 0), C.Read(h, Head(name), C.FILE)) ==
                         C.Numbers(h, code, C.FILE);
            (AllWantedOpen(g, h, code) ==> right)
            && (NoneWantedSpliced(g, code) && right ==> AllWantedOpen(g, h, code))
  {
    hide PlacedOf, Pieces, C.Read, C.Numbers, C.Sane, OpenAt, NotSpliced, WantedAt, Compiled, Head, IsLineStart, DefsOf;
    var at := PlacedOf(g, code).at;
    HeadReads(h, name);
    TextKept(g, code);
    PlacesAre(g, code);
    forall p | p in at ensures Insertion(code, at, p) {
      PlacedNotEmpty(g, code, p);
      forall t | t in at[p] ensures C.Sane(t) {
        PrototypesWellPlaced(g, code, p, t);
      }
    }
    forall p | p in at ensures exists fn | fn in DefsOf(g, code) :: WantedAt(g, code, fn, p) {
      WantedIsPlaced(g, code, p);
    }
    forall fn, p: nat | fn in DefsOf(g, code) && WantedAt(g, code, fn, p) ensures p in at {
      WantedIsPlaced(g, code, p);
    }
    assert code[0..] == code && code[..0] == "";
    StateAtStart(h, code);
    if code == "" {
      PiecesStep(code, at, 0, 0);
      PiecesStep(code, at, 0, 1);
      CompiledOne(h, name, "", C.FILE);
    } else {
      RightFrom(h, code, name, at, 0, 0);
    }
  }

  lemma {:induction false} StateAtStart(h: C.Conditions, code: string)
    ensures StateAt(h, code, 0) == C.FILE
  {
  }

  lemma {:induction false} WantedIsPlaced(g: Grammar, code: string, p: nat)
    ensures p in PlacedOf(g, code).at <==> exists fn | fn in DefsOf(g, code) :: WantedAt(g, code, fn, p)
  {
    hide PlacedOf, DefsOf, Fits, Earliest, BaseOf, ReadyOf;
    PlacesAre(g, code);
  }

  // ---- the sketch's own numbers -------------------------------------------

  /** The number of the line each character is on, counting from `n`. */
  function OwnNumbers(text: string, n: nat): seq<nat> {
    if text == "" then [] else [n] + OwnNumbers(text[1..], n + if text[0] == '\n' then 1 else 0)
  }

  lemma {:induction false} UnnumberedCounts(h: C.Conditions, text: string, s: C.Reader)
    requires C.Unnumbered(h, text, s)
    ensures C.Numbers(h, text, s) == OwnNumbers(text, s.number)
    ensures C.Read(h, text, s).number == s.number + Newlines(text)
    decreases text
  {
    hide C.ReadChar;
    if text != "" {
      UnnumberedCounts(h, text[1..], C.ReadChar(h, s, text[0]));
    }
  }

  lemma {:induction false} UnnumberedPrefix(h: C.Conditions, a: string, b: string, s: C.Reader)
    requires C.Unnumbered(h, a + b, s)
    ensures C.Unnumbered(h, a, s)
    decreases a
  {
    hide C.ReadChar;
    if a != "" {
      assert (a + b)[0] == a[0] && (a + b)[1..] == a[1..] + b;
      UnnumberedPrefix(h, a[1..], b, C.ReadChar(h, s, a[0]));
    }
  }

  /** The compiler reads text at `p`, outside comments and raw strings. */
  predicate ReadAt(h: C.Conditions, code: string, p: nat)
    requires p <= |code|
  {
    StateAt(h, code, p).lex == C.REST && C.Live(StateAt(h, code, p))
  }

  ghost predicate AllWantedRead(g: Grammar, h: C.Conditions, code: string) {
    forall fn, p: nat | fn in DefsOf(g, code) && WantedAt(g, code, fn, p) :: p <= |code| && ReadAt(h, code, p)
  }

  lemma {:induction false} OpenIsRead(h: C.Conditions, code: string, p: nat)
    requires p <= |code| && C.Unnumbered(h, code, C.FILE)
    ensures OpenAt(h, code, p) <==> ReadAt(h, code, p)
  {
    assert code == code[..p] + code[p..];
    UnnumberedPrefix(h, code[..p], code[p..], C.FILE);
    UnnumberedCounts(h, code[..p], C.FILE);
  }

  /** The whole promise. Nothing of the sketch is lost and every insertion falls
      at a line start. In a sketch that sets no line number of its own every line
      compiles under its own number if the compiler reads text at each wanted
      line, outside comments, raw strings and skipped groups; and only if it
      does, unless a wanted line continues the one before by a backslash. */
  lemma {:induction false} SketchKept(g: Grammar, h: C.Conditions, code: string, name: string)
    requires NameOk(name)
    requires forall fn | fn in DefsOf(g, code) :: C.Sane(fn.Prototype())
    requires C.Unnumbered(h, code, C.FILE)
    ensures KeptText(Pieces(code, PlacedOf(g, code).at, 0, 0)) == code
    ensures forall p | p in PlacedOf(g, code).at :: p < |code| && IsLineStart(code, p)
    ensures var own := Compiled(h, name, Pieces(code, PlacedOf(g, code).at, 0, 0), C.Read(h, Head(name), C.FILE)) ==
                       OwnNumbers(code, 1);
            (AllWantedRead(g, h, code) ==> own)
            && (NoneWantedSpliced(g, code) && own ==> AllWantedRead(g, h, code))
  {
    hide PlacedOf, Pieces, C.Read, C.Numbers, C.Sane, C.Unnumbered, OpenAt, ReadAt, NotSpliced, WantedAt, Compiled, Head,
         DefsOf, KeptText, OwnNumbers;
    TextKept(g, code);
    LinesKept(g, h, code, name);
    UnnumberedCounts(h, code, C.FILE);
    forall p: nat | p <= |code| ensures OpenAt(h, code, p) <==> ReadAt(h, code, p) {
      OpenIsRead(h, code, p);
    }
  }

  // ---- the numbers in the text itself -------------------------------------

  function Marked(n: nat, keep: bool): (r: seq<bool>)
    ensures |r| == n
  {
    seq(n, _ => keep)
  }

  /** Which characters of the prepared text are the sketch's own. */
  function FromSketch(name: string, pieces: seq<Piece>): seq<bool> {
    if pieces == [] then []
    else Marked(|Render(name, pieces[0])|, pieces[0].Kept?) + FromSketch(name, pieces[1..])
  }

  function Selected(ns: seq<nat>, keep: seq<bool>): seq<nat>
    requires |ns| == |keep|
  {
    if ns == [] then [] else (if keep[0] then [ns[0]] else []) + Selected(ns[1..], keep[1..])
  }

  lemma {:induction false} SelectedMarked(ns: seq<nat>, more: seq<nat>, keep: bool, rest: seq<bool>)
    requires |more| == |rest|
    ensures |Marked(|ns|, keep) + rest| == |ns + more|
    ensures Selected(ns + more, Marked(|ns|, keep) + rest) == (if keep then ns else []) + Selected(more, rest)
    decreases ns
  {
    var marks := Marked(|ns|, keep) + rest;
    if ns == [] {
      assert ns + more == more && marks == rest;
    } else {
      assert (ns + more)[1..] == ns[1..] + more && marks[1..] == Marked(|ns[1..]|, keep) + rest;
      SelectedMarked(ns[1..], more, keep, rest);
    }
  }

  /** `Compiled` is what reading the prepared text from end to end gives the
      characters that come from the sketch. */
  lemma {:induction false} CompiledIsOfTheText(h: C.Conditions, name: string, pieces: seq<Piece>, s: C.Reader)
    ensures |C.Numbers(h, RenderAll(name, pieces), s)| == |FromSketch(name, pieces)|
    ensures Selected(C.Numbers(h, RenderAll(name, pieces), s), FromSketch(name, pieces)) == Compiled(h, name, pieces, s)
    decreases pieces
  {
    hide C.Read, Render;
    if pieces != [] {
      var one, rest := Render(name, pieces[0]), RenderAll(name, pieces[1..]);
      C.ReadConcat(h, one, rest, s);
      CompiledIsOfTheText(h, name, pieces[1..], C.Read(h, one, s));
      SelectedMarked(C.Numbers(h, one, s), C.Numbers(h, rest, C.Read(h, one, s)), pieces[0].Kept?,
                     FromSketch(name, pieces[1..]));
      KeptRenders(name, pieces[0]);
    }
  }

  lemma {:induction false} KeptRenders(name: string, piece: Piece)
    ensures piece.Kept? ==> Render(name, piece) == piece.text
  {
  }
}
