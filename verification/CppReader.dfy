/** What a C++ compiler makes of a text's lines: comments, literals, spliced
    lines, conditional groups, and which number each line gets. It shares
    nothing with the sketch preprocessor's own masking. */
module CppReader {
  import opened Common

  // ---- characters ---------------------------------------------------------

  datatype Mode =
    | Plain
    | Slash                              // a `/` that may open a comment
    | LineComment
    | Block
    | BlockStar                          // a `*` that may close the comment
    | Quoted(quote: char)
    | Escape(quote: char)
    | RawOpen(delim: string)             // between the quote and the bracket
    | Raw(delim: string, tail: string)   // `tail` is what followed the last `)`

  /** What the logical line has been so far; a directive keeps its text. */
  datatype Kind = Blank | Text | Directive(text: string)

  /** `pending` is a backslash that splices the line if a newline comes next. */
  datatype Lex = Lex(mode: Mode, kind: Kind, word: string, pending: bool)

  const REST := Lex(Plain, Blank, "", false)

  /** White space inside a line. */
  predicate White(c: char) {
    Space(c) && c != '\n'
  }

  predicate Digit(c: char) {
    '0' <= c <= '9'
  }

  predicate Letter(c: char) {
    'a' <= c <= 'z' || 'A' <= c <= 'Z' || c == '_'
  }

  function Said(kind: Kind, c: char): Kind {
    match kind
    case Blank => if White(c) then Blank else if c == '#' then Directive("") else Text
    case Text => Text
    case Directive(text) => Directive(text + [c])
  }

  function Worded(word: string, c: char): string {
    if Letter(c) || Digit(c) then word + [c] else ""
  }

  predicate RawPrefix(word: string) {
    word == "R" || word == "LR" || word == "uR" || word == "UR" || word == "u8R"
  }

  /** After a number an apostrophe separates digits. */
  predicate Number(word: string) {
    word != "" && Digit(word[0])
  }

  function PlainChar(kind: Kind, word: string, c: char): Lex {
    if c == '/' then Lex(Slash, kind, "", false)
    else if c == '"' then Lex(if RawPrefix(word) then RawOpen("") else Quoted(c), Said(kind, c), "", false)
    else if c == '\'' && !Number(word) then Lex(Quoted(c), Said(kind, c), "", false)
    else if c == '\'' then Lex(Plain, Said(kind, c), word, false)
    else Lex(Plain, Said(kind, c), Worded(word, c), false)
  }

  function RawChar(delim: string, tail: string, kind: Kind, c: char): Lex {
    if c == '"' && tail == ")" + delim then Lex(Plain, kind, "", false)
    else Lex(Raw(delim, if c == ')' then ")" else if tail == "" then "" else tail + [c]), kind, "", false)
  }

  /** One character of a logical line. A comment counts as a blank. */
  function Char(l: Lex, c: char): Lex {
    match l.mode
    case Plain => PlainChar(l.kind, l.word, c)
    case Slash =>
      if c == '/' then Lex(LineComment, Said(l.kind, ' '), "", false)
      else if c == '*' then Lex(Block, Said(l.kind, ' '), "", false)
      else PlainChar(Said(l.kind, '/'), "", c)
    case LineComment => Lex(LineComment, l.kind, "", false)
    case Block => Lex(if c == '*' then BlockStar else Block, l.kind, "", false)
    case BlockStar =>
      Lex(if c == '/' then Plain else if c == '*' then BlockStar else Block, l.kind, "", false)
    case Quoted(q) => Lex(if c == q then Plain else if c == '\\' then Escape(q) else Quoted(q), l.kind, "", false)
    case Escape(q) => Lex(Quoted(q), l.kind, "", false)
    case RawOpen(delim) =>
      if c == '(' then Lex(Raw(delim, ""), l.kind, "", false)
      else if c == '"' || c == ')' || c == '\\' || White(c) then Lex(Quoted('"'), l.kind, "", false)
      else Lex(RawOpen(delim + [c]), l.kind, "", false)
    case Raw(delim, tail) => RawChar(delim, tail, l.kind, c)
  }

  /** A newline ends the logical line unless it is spliced, or inside a block
      comment or a raw string; an unclosed literal ends with its line. */
  predicate LineEnds(l: Lex) {
    !l.pending && !l.mode.Block? && !l.mode.BlockStar? && !l.mode.Raw?
  }

  function LexStep(l: Lex, c: char): Lex {
    if l.mode.Raw? then RawChar(l.mode.delim, l.mode.tail, l.kind, c)
    else if c == '\n' then
      if l.pending then Lex(l.mode, l.kind, l.word, false)
      else if LineEnds(l) then REST
      else Lex(Block, l.kind, "", false)
    else
      var l1 := if l.pending then Char(Lex(l.mode, l.kind, l.word, false), '\\') else l;
      if c == '\\' then Lex(l1.mode, l1.kind, l1.word, true) else Char(l1, c)
  }

  function LexRead(t: string, l: Lex): Lex
    decreases t
  {
    if t == "" then l else LexRead(t[1..], LexStep(l, t[0]))
  }

  // ---- directives ---------------------------------------------------------

  /** A conditional group: whether its current branch is read, and whether a
      branch has been taken, so that no later one may be. */
  datatype Group = Group(live: bool, tried: bool)

  /** How the conditions turn out, by the order in which they are evaluated. */
  type Conditions = nat -> bool

  /** `number` is that of the line being read. */
  datatype Reader = Reader(lex: Lex, groups: seq<Group>, asked: nat, number: nat)

  const FILE := Reader(REST, [], 0, 1)

  predicate Live(s: Reader) {
    forall g | g in s.groups :: g.live
  }

  function AfterBlanks(t: string): string {
    if t != "" && White(t[0]) then AfterBlanks(t[1..]) else t
  }

  function Letters(t: string): (r: string)
    ensures |r| <= |t|
  {
    if t == "" || !Letter(t[0]) then "" else [t[0]] + Letters(t[1..])
  }

  function Digits(t: string, value: nat, any: bool): Option<nat>
    decreases t
  {
    if t != "" && Digit(t[0]) then Digits(t[1..], 10 * value + (t[0] as int - '0' as int), true)
    else if any then Some(value)
    else None
  }

  function WithTop(s: Reader, top: Group): Reader
    requires s.groups != []
  {
    Reader(s.lex, s.groups[..|s.groups| - 1] + [top], s.asked, s.number)
  }

  function Asked(h: Conditions, s: Reader): Group {
    Group(h(s.asked), h(s.asked))
  }

  /** A directive at the end of its line: the conditional ones open, switch and
      close groups whether read or not, `#line` is obeyed only where text is read. */
  function Obey(h: Conditions, text: string, s: Reader): Reader {
    var t := AfterBlanks(text);
    var name := Letters(t);
    if name == "if" || name == "ifdef" || name == "ifndef" then
      if Live(s) then Reader(s.lex, s.groups + [Asked(h, s)], s.asked + 1, s.number)
      else Reader(s.lex, s.groups + [Group(false, true)], s.asked, s.number)
    else if name == "elif" && s.groups != [] then
      if s.groups[|s.groups| - 1].tried then WithTop(s, Group(false, true))
      else WithTop(Reader(s.lex, s.groups, s.asked + 1, s.number), Asked(h, s))
    else if name == "else" && s.groups != [] then
      WithTop(s, Group(!s.groups[|s.groups| - 1].tried, true))
    else if name == "endif" && s.groups != [] then
      Reader(s.lex, s.groups[..|s.groups| - 1], s.asked, s.number)
    else if (name == "line" || name == "") && Live(s) then
      var arg := Digits(AfterBlanks(t[|name|..]), 0, false);
      if arg.Some? then Reader(s.lex, s.groups, s.asked, arg.value) else s
    else s
  }

  function ReadChar(h: Conditions, s: Reader, c: char): Reader {
    var lex := LexStep(s.lex, c);
    if c != '\n' then Reader(lex, s.groups, s.asked, s.number)
    else
      var next := Reader(lex, s.groups, s.asked, s.number + 1);
      if LineEnds(s.lex) && s.lex.kind.Directive? then Obey(h, s.lex.kind.text, next) else next
  }

  function Read(h: Conditions, t: string, s: Reader): Reader
    decreases t
  {
    if t == "" then s else Read(h, t[1..], ReadChar(h, s, t[0]))
  }

  /** The number of the line each character is on. */
  function Numbers(h: Conditions, t: string, s: Reader): (r: seq<nat>)
    ensures |r| == |t|
    decreases t
  {
    if t == "" then [] else [s.number] + Numbers(h, t[1..], ReadChar(h, s, t[0]))
  }

  // ---- reading in parts ---------------------------------------------------

  lemma {:induction false} ReadConcat(h: Conditions, a: string, b: string, s: Reader)
    ensures Read(h, a + b, s) == Read(h, b, Read(h, a, s))
    ensures Numbers(h, a + b, s) == Numbers(h, a, s) + Numbers(h, b, Read(h, a, s))
    decreases a
  {
    hide ReadChar;
    if a == "" {
      assert a + b == b;
    } else {
      assert (a + b)[0] == a[0] && (a + b)[1..] == a[1..] + b;
      ReadConcat(h, a[1..], b, ReadChar(h, s, a[0]));
    }
  }

  lemma {:induction false} LexConcat(a: string, b: string, l: Lex)
    ensures LexRead(a + b, l) == LexRead(b, LexRead(a, l))
    decreases a
  {
    hide LexStep;
    if a == "" {
      assert a + b == b;
    } else {
      assert (a + b)[0] == a[0] && (a + b)[1..] == a[1..] + b;
      LexConcat(a[1..], b, LexStep(l, a[0]));
    }
  }

  /** Characters are read the same whatever the groups and the number. */
  lemma {:induction false} LexOfRead(h: Conditions, t: string, s: Reader)
    ensures Read(h, t, s).lex == LexRead(t, s.lex)
    decreases t
  {
    hide LexStep, Obey;
    if t != "" {
      ObeyKeepsLex(h, s, t[0]);
      LexOfRead(h, t[1..], ReadChar(h, s, t[0]));
    }
  }

  lemma {:induction false} ObeyKeepsLex(h: Conditions, s: Reader, c: char)
    ensures ReadChar(h, s, c).lex == LexStep(s.lex, c)
  {
    hide LexStep, AfterBlanks, Letters, Digits;
  }

  /** Within one physical line only the characters' state moves. */
  lemma {:induction false} ReadWithin(h: Conditions, t: string, s: Reader)
    requires '\n' !in t
    ensures Read(h, t, s) == Reader(LexRead(t, s.lex), s.groups, s.asked, s.number)
    decreases t
  {
    hide LexStep;
    if t != "" {
      assert t[0] in t;
      assert forall c | c in t[1..] :: c in t;
      ReadWithin(h, t[1..], ReadChar(h, s, t[0]));
    }
  }

  // ---- a line of plain code -----------------------------------------------

  /** One line that is code, complete in itself. */
  predicate Quiet(t: string) {
    '\n' !in t && LineEnds(LexRead(t, REST)) && !LexRead(t, REST).kind.Directive?
  }

  lemma {:induction false} ReadQuiet(h: Conditions, t: string, s: Reader)
    requires Quiet(t) && s.lex == REST
    ensures Read(h, t + "\n", s) == Reader(REST, s.groups, s.asked, s.number + 1)
  {
    hide LexStep, Obey, LexRead;
    ReadWithin(h, t, s);
    ReadConcat(h, t, "\n", s);
    ReadNewline(h, Read(h, t, s));
  }

  lemma {:induction false} ReadNewline(h: Conditions, s: Reader)
    ensures Read(h, "\n", s) == ReadChar(h, s, '\n')
    ensures LineEnds(s.lex) && !s.lex.kind.Directive? ==>
              ReadChar(h, s, '\n') == Reader(REST, s.groups, s.asked, s.number + 1)
    ensures LineEnds(s.lex) && s.lex.kind.Directive? ==>
              ReadChar(h, s, '\n') == Obey(h, s.lex.kind.text, Reader(REST, s.groups, s.asked, s.number + 1))
    ensures !LineEnds(s.lex) ==>
              ReadChar(h, s, '\n') == Reader(LexStep(s.lex, '\n'), s.groups, s.asked, s.number + 1)
  {
    hide Obey;
    assert "\n"[1..] == "";
    assert Read(h, "\n", s) == Read(h, "\n"[1..], ReadChar(h, s, '\n'));
  }

  // ---- inside a block comment or a raw string -----------------------------

  /** Inside a block comment, or in a raw string that takes a further `)` to close. */
  predicate Inside(l: Lex) {
    if l.mode.Raw? then !l.pending && '\n' !in l.mode.delim && (l.mode.tail == "" || '\n' in l.mode.tail)
    else l.mode.Block?
  }

  /** Nothing in the text closes a comment or a raw string. */
  lemma {:induction false} InsideStays(t: string, l: Lex)
    requires '*' !in t && ')' !in t && '\n' !in t
    requires Inside(l)
    ensures Inside(LexRead(t, l))
    decreases t
  {
    hide LexStep, Inside;
    if t != "" {
      assert t[0] in t;
      assert forall c | c in t[1..] :: c in t;
      InsideStep(l, t[0]);
      InsideStays(t[1..], LexStep(l, t[0]));
      assert LexRead(t, l) == LexRead(t[1..], LexStep(l, t[0]));
    }
  }

  lemma {:induction false} InsideStep(l: Lex, c: char)
    requires Inside(l) && c != '*' && c != ')' && c != '\n'
    ensures Inside(LexStep(l, c))
  {
    if l.mode.Raw? {
      NoNewlineAfter(l.mode.delim);
    }
  }

  lemma {:induction false} NoNewlineAfter(delim: string)
    requires '\n' !in delim
    ensures '\n' !in ")" + delim
  {
  }

  /** A prototype: a quiet line that cannot close a comment or a raw string. */
  predicate Sane(t: string) {
    Quiet(t) && '"' !in t && '\\' !in t
    && forall i | 0 <= i < |t| - 1 :: !(t[i] == '*' && t[i + 1] == '/')
  }

  /** Inside, and the `*` just read, if any, is the last character of `done`. */
  predicate Within(l: Lex, c: char) {
    !l.pending
    && match l.mode
       case Raw(delim, _) => '\n' !in delim
       case Block => true
       case BlockStar => c == '*'
       case _ => false
  }

  lemma {:induction false} SaneWithin(t: string, l: Lex, c: char) returns (d: char)
    requires Within(l, c)
    requires '"' !in t && '\\' !in t && '\n' !in t
    requires forall i | 0 <= i < |t| - 1 :: !(t[i] == '*' && t[i + 1] == '/')
    requires t != "" ==> !(c == '*' && t[0] == '/')
    ensures Within(LexRead(t, l), d)
    decreases t
  {
    hide LexStep, Within;
    d := c;
    if t != "" {
      assert t[0] in t;
      assert forall x | x in t[1..] :: x in t;
      assert forall i | 0 <= i < |t| - 1 :: t[1..][i] == t[i + 1];
      WithinStep(l, c, t[0]);
      d := SaneWithin(t[1..], LexStep(l, t[0]), t[0]);
    }
  }

  lemma {:induction false} WithinStep(l: Lex, c: char, d: char)
    requires Within(l, c) && d != '"' && d != '\\' && d != '\n' && !(c == '*' && d == '/')
    ensures Within(LexStep(l, d), d)
  {
  }

  /** A prototype inside a comment or a raw string is just one more line of it. */
  lemma {:induction false} ReadSaneInside(h: Conditions, t: string, s: Reader)
    requires Sane(t) && Inside(s.lex) && !s.lex.pending
    ensures var r := Read(h, t + "\n", s);
            Inside(r.lex) && !r.lex.pending && r.groups == s.groups && r.number == s.number + 1
  {
    hide LexStep, Obey, LexRead, Quiet;
    assert '\n' !in t by {
      QuietOneLine(t);
    }
    ReadWithin(h, t, s);
    ReadConcat(h, t, "\n", s);
    var d := SaneWithin(t, s.lex, ' ');
    ReadNewline(h, Read(h, t, s));
    NewlineInside(LexRead(t, s.lex), d);
  }

  lemma {:induction false} QuietOneLine(t: string)
    requires Quiet(t)
    ensures '\n' !in t
  {
  }

  lemma {:induction false} NewlineInside(l: Lex, d: char)
    requires Within(l, d)
    ensures !LineEnds(l) && Inside(LexStep(l, '\n')) && !LexStep(l, '\n').pending
  {
  }

  // ---- `#line` ------------------------------------------------------------

  /** A character that changes nothing but the directive's text. */
  predicate Calm(c: char) {
    c != '/' && c != '"' && c != '\'' && c != '\\' && c != '\n'
  }

  lemma {:induction false} CalmRead(t: string, l: Lex)
    requires forall c | c in t :: Calm(c)
    requires l.mode.Plain? && l.kind.Directive? && !l.pending
    ensures var r := LexRead(t, l);
            r.mode.Plain? && r.kind == Directive(l.kind.text + t) && !r.pending
    decreases t
  {
    if t == "" {
      assert l.kind.text + t == l.kind.text;
    } else {
      assert t[0] in t;
      assert forall c | c in t[1..] :: c in t;
      CalmRead(t[1..], LexStep(l, t[0]));
      assert l.kind.text + [t[0]] + t[1..] == l.kind.text + t;
    }
  }

  lemma {:induction false} HashCalm(t: string)
    requires forall c | c in t :: Calm(c)
    ensures var r := LexRead("#" + t, REST);
            r.mode.Plain? && r.kind == Directive(t) && !r.pending
  {
    hide LexStep;
    var l := Lex(Plain, Directive(""), "", false);
    FirstHash();
    assert ("#" + t)[1..] == t;
    assert LexRead("#" + t, REST) == LexRead(t, l);
    CalmRead(t, l);
    assert "" + t == t;
  }

  /** A whole directive line without comments or quotes. */
  lemma {:induction false} ReadDirective(h: Conditions, t: string, s: Reader)
    requires (forall c | c in t :: Calm(c)) && s.lex == REST
    ensures Read(h, "#" + t + "\n", s) == Obey(h, t, Reader(REST, s.groups, s.asked, s.number + 1))
  {
    hide LexStep, LexRead, Obey, Calm;
    var first := "#" + t;
    assert '\n' !in first by {
      CalmOneLine(t);
    }
    ReadConcat(h, first, "\n", s);
    ReadWithin(h, first, s);
    HashCalm(t);
    ReadNewline(h, Read(h, first, s));
  }

  lemma {:induction false} CalmOneLine(t: string)
    requires forall c | c in t :: Calm(c)
    ensures '\n' !in "#" + t
  {
    forall c | c in "#" + t ensures c != '\n' {
      assert c == '#' || c in t;
    }
  }

  lemma {:induction false} DirectiveStarts(t: string)
    requires forall c | c in t :: Calm(c)
    ensures LexRead("#" + t + " ", REST) == Lex(Plain, Directive(t + " "), "", false)
  {
    hide LexStep, LexRead;
    HashCalm(t);
    var l1 := LexRead("#" + t, REST);
    LexConcat("#" + t, " ", REST);
    LexOne(' ', l1);
    BlankStep(l1);
  }

  lemma {:induction false} FirstHash()
    ensures LexStep(REST, '#') == Lex(Plain, Directive(""), "", false)
  {
  }

  lemma {:induction false} BlankStep(l: Lex)
    requires l.mode.Plain? && l.kind.Directive? && !l.pending
    ensures LexStep(l, ' ') == Lex(Plain, Directive(l.kind.text + " "), "", false)
  {
  }

  lemma {:induction false} LexOne(c: char, l: Lex)
    ensures LexRead([c], l) == LexStep(l, c)
  {
    assert [c][1..] == "";
    assert LexRead([c], l) == LexRead([c][1..], LexStep(l, c));
  }

  lemma {:induction false} LettersOf(name: string, rest: string)
    requires forall c | c in name :: Letter(c)
    requires rest == "" || !Letter(rest[0])
    ensures Letters(name + rest) == name
    decreases name
  {
    if name == "" {
      assert name + rest == rest;
    } else {
      assert name[0] in name;
      assert forall c | c in name[1..] :: c in name;
      assert (name + rest)[1..] == name[1..] + rest;
      LettersOf(name[1..], rest);
      assert [name[0]] + name[1..] == name;
    }
  }

  // ---- at the start of a line ---------------------------------------------

  predicate Sound(l: Lex) {
    match l.mode
    case RawOpen(delim) => '\n' !in delim
    case Raw(delim, _) => '\n' !in delim && !l.pending
    case _ => true
  }

  lemma {:induction false} SoundStep(l: Lex, c: char)
    requires Sound(l)
    ensures Sound(LexStep(l, c)) && (LexStep(l, c).pending ==> c == '\\')
  {
  }

  lemma {:induction false} SoundRead(t: string, l: Lex)
    requires Sound(l)
    ensures Sound(LexRead(t, l))
    ensures LexRead(t, l).pending ==> if t == "" then l.pending else t[|t| - 1] == '\\'
    decreases t
  {
    hide LexStep, Sound;
    if t != "" {
      SoundStep(l, t[0]);
      SoundRead(t[1..], LexStep(l, t[0]));
    }
  }

  /** After a newline that no backslash precedes a line starts afresh, or inside
      a block comment or a raw string. */
  lemma {:induction false} AfterNewline(t: string)
    requires t == "" || t[|t| - 1] != '\\'
    ensures var l := LexRead(t + "\n", REST); l == REST || (Inside(l) && !l.pending)
  {
    hide LexRead, Inside;
    SoundRead(t, REST);
    LexConcat(t, "\n", REST);
    LexOne('\n', LexRead(t, REST));
    SoundNewline(LexRead(t, REST));
    StartsAtRest();
    if t == "" {
      assert !LexRead("", REST).pending;
    }
  }

  lemma {:induction false} StartsAtRest()
    ensures LexRead("", REST) == REST
  {
  }

  lemma {:induction false} SoundNewline(l: Lex)
    requires Sound(l) && !l.pending
    ensures var r := LexStep(l, '\n'); r == REST || (Inside(r) && !r.pending)
  {
  }

  // ---- plain text ---------------------------------------------------------

  lemma {:induction false} CalmText(t: string, l: Lex)
    requires forall c | c in t :: Calm(c)
    requires l.mode.Plain? && l.kind.Text? && !l.pending
    ensures var r := LexRead(t, l); r.mode.Plain? && r.kind.Text? && !r.pending
    decreases t
  {
    if t != "" {
      assert t[0] in t;
      assert forall c | c in t[1..] :: c in t;
      CalmText(t[1..], LexStep(l, t[0]));
    }
  }

  /** An ordinary signature is a sane line. */
  lemma {:induction false} PlainIsSane(t: string)
    requires t != "" && Letter(t[0]) && forall c | c in t :: Calm(c)
    ensures Sane(t)
  {
    assert t[0] in t;
    assert forall c | c in t[1..] :: c in t;
    CalmText(t[1..], LexStep(REST, t[0]));
    assert LexRead(t, REST) == LexRead(t[1..], LexStep(REST, t[0]));
    forall i | 0 <= i < |t| - 1 ensures !(t[i] == '*' && t[i + 1] == '/') {
      assert t[i + 1] in t;
    }
  }

  // ---- a text's own numbers -----------------------------------------------

  /** Reading the text never sets a number. */
  predicate Unnumbered(h: Conditions, t: string, s: Reader)
    decreases t
  {
    t != "" ==>
      ReadChar(h, s, t[0]).number == s.number + (if t[0] == '\n' then 1 else 0)
      && Unnumbered(h, t[1..], ReadChar(h, s, t[0]))
  }
}
