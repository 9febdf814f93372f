/**
 What the splitter takes for one statement, read off the text alone: lexemes, and blocks of them that
 nest. The scanner's depth, flags and lookahead play no part in it.
 */
module StatementGrammar {
  import opened Options
  import opened Text
  import opened Splitter

  // ---------------------------------------------------------------------------------------------
  // Lexemes
  // ---------------------------------------------------------------------------------------------

  /** A character of a quotation: plain, after a backslash, or the quotation mark itself, doubled. */
  datatype Glyph = Plain(c: char) | Escaped(c: char) | Doubled

  datatype Lexeme =
    | Quoted(mark: char, glyphs: seq<Glyph>)
    | Line(dashes: bool, text: string)
    | Comment(text: string)
    | Name(text: string)
    | Mark
    | Sign(c: char)

  function GlyphText(mark: char, g: Glyph): string {
    match g
    case Plain(c) => [c]
    case Escaped(c) => ['\\', c]
    case Doubled => [mark, mark]
  }

  function GlyphsText(mark: char, glyphs: seq<Glyph>): string {
    if glyphs == [] then "" else GlyphText(mark, glyphs[0]) + GlyphsText(mark, glyphs[1..])
  }

  function Spelling(l: Lexeme): string {
    match l
    case Quoted(mark, glyphs) => [mark] + GlyphsText(mark, glyphs) + [mark]
    case Line(dashes, text) => (if dashes then "--" else "#") + text + "\n"
    case Comment(text) => "/*" + text + "*/"
    case Name(text) => text
    case Mark => ";"
    case Sign(c) => [c]
  }

  predicate PlainGlyphs(mark: char, glyphs: seq<Glyph>) {
    forall g <- glyphs :: g.Plain? ==> g.c != mark && g.c != '\\'
  }

  predicate WellSpelled(l: Lexeme) {
    match l
    case Quoted(mark, glyphs) => QuoteMark(mark) && PlainGlyphs(mark, glyphs)
    case Line(dashes, text) => '\n' !in text && (dashes ==> text == "" || Blank(text[0]))
    case Comment(text) => forall i | 0 <= i < |text| - 1 :: !(text[i] == '*' && text[i + 1] == '/')
    case Name(text) => text != "" && IdentifierStart(text[0]) && forall i | 0 <= i < |text| :: IdentifierPart(text[i])
    case Mark => true
    case Sign(c) => !IdentifierStart(c) && !QuoteMark(c) && c != ';' && c != '#'
  }

  /** The lexeme ends where it does although `rest` follows. */
  predicate Ends(l: Lexeme, rest: string) {
    match l
    case Quoted(mark, _) => rest == "" || rest[0] != mark
    case Name(_) => rest == "" || !IdentifierPart(rest[0])
    case Sign('-') => !(|rest| >= 2 && rest[0] == '-' && Blank(rest[1]))
    case Sign('/') => rest == "" || rest[0] != '*'
    case _ => true
  }

  function Written(lexemes: seq<Lexeme>): string {
    if lexemes == [] then "" else Spelling(lexemes[0]) + Written(lexemes[1..])
  }

  /** The lexemes are well spelled and can be told apart in their text. */
  predicate Legible(lexemes: seq<Lexeme>) {
    lexemes != [] ==> WellSpelled(lexemes[0]) && Ends(lexemes[0], Written(lexemes[1..])) && Legible(lexemes[1..])
  }

  // ---------------------------------------------------------------------------------------------
  // Statements
  // ---------------------------------------------------------------------------------------------

  predicate Is(l: Lexeme, word: string) { l.Name? && Upper(l.text) == word }

  predicate IsControl(l: Lexeme) { Is(l, "IF") || Is(l, "CASE") || Is(l, "LOOP") || Is(l, "WHILE") || Is(l, "REPEAT") }

  predicate IsBlank(l: Lexeme) { l.Sign? && Blank(l.c) }

  /** What follows the `END` of a block and belongs to it: nothing, or blanks and the word the block began with,
      as in `END IF`. */
  datatype Qualifier = Bare | Qualified(blanks: seq<Lexeme>, word: Lexeme)

  datatype Body =
    | Nothing
    | Piece(lexeme: Lexeme, rest: Body)
    | Block(begin: Lexeme, inner: Body, end: Lexeme, qualifier: Qualifier, rest: Body)

  function Lexemes(b: Body): seq<Lexeme> {
    match b
    case Nothing => []
    case Piece(lexeme, rest) => [lexeme] + Lexemes(rest)
    case Block(begin, inner, end, qualifier, rest) =>
      [begin] + Lexemes(inner) + [end] + QualifierLexemes(qualifier) + Lexemes(rest)
  }

  function QualifierLexemes(q: Qualifier): seq<Lexeme> {
    match q case Bare => [] case Qualified(blanks, word) => blanks + [word]
  }

  /** After blanks the text goes on with a block that a control word opens. */
  predicate ControlNext(b: Body) {
    match b
    case Nothing => false
    case Piece(lexeme, rest) => IsBlank(lexeme) && ControlNext(rest)
    case Block(begin, _, _, _, _) => IsControl(begin)
  }

  /**
   Outside a block the words `BEGIN` and the semicolon are special, and nothing else is: `IF NOT EXISTS` opens
   nothing there. Inside one, control words open blocks too and every block has its `END`.
   */
  predicate Grammatical(b: Body, inside: bool) {
    match b
    case Nothing => true
    case Piece(lexeme, rest) =>
      && (if inside then !Is(lexeme, "BEGIN") && !IsControl(lexeme) && !Is(lexeme, "END")
          else !Is(lexeme, "BEGIN") && !lexeme.Mark?)
      && Grammatical(rest, inside)
    case Block(begin, inner, end, qualifier, rest) =>
      && (Is(begin, "BEGIN") || (inside && IsControl(begin)))
      && Grammatical(inner, true) && Is(end, "END")
      && (match qualifier
          case Bare => inside ==> !ControlNext(rest)
          case Qualified(blanks, word) => (forall l <- blanks :: IsBlank(l)) && IsControl(word))
      && Grammatical(rest, inside)
  }

  /** A text that is one statement. */
  ghost predicate Statement(text: string) {
    exists b :: Grammatical(b, false) && Legible(Lexemes(b)) && Written(Lexemes(b)) == text
  }

  // ---------------------------------------------------------------------------------------------
  // The scanner reads the lexemes
  // ---------------------------------------------------------------------------------------------

  /** The token the scanner makes of a lexeme. */
  function TokenOf(l: Lexeme): Token {
    match l
    case Name(text) => Word(Upper(text))
    case Mark => Semicolon
    case Sign(c) => Other(c)
    case _ => Gap(|Spelling(l)|, true)
  }

  lemma {:induction false} QuotationRead(mark: char, glyphs: seq<Glyph>, rest: string)
    requires QuoteMark(mark) && PlainGlyphs(mark, glyphs) && (rest == "" || rest[0] != mark)
    ensures QuoteEnd(mark, GlyphsText(mark, glyphs) + [mark] + rest) == Some(|GlyphsText(mark, glyphs)| + 1)
  {
    var s := GlyphsText(mark, glyphs) + [mark] + rest;
    if glyphs != [] {
      var g := GlyphText(mark, glyphs[0]);
      var more := GlyphsText(mark, glyphs[1..]) + [mark] + rest;
      assert s == g + more;
      QuotationRead(mark, glyphs[1..], rest);
      assert s[|g|..] == more;
      assert glyphs[0].Plain? ==> s[0] == glyphs[0].c;
    }
  }

  lemma {:induction false} LineRead(text: string, rest: string)
    requires '\n' !in text
    ensures LineEnd(text + "\n" + rest) == Some(|text| + 1)
  {
    if text != "" {
      LineRead(text[1..], rest);
      assert (text + "\n" + rest)[1..] == text[1..] + "\n" + rest;
    }
  }

  lemma {:induction false} CommentRead(text: string, rest: string)
    requires WellSpelled(Comment(text))
    ensures BlockEnd(text + "*/" + rest) == Some(|text| + 2)
  {
    var s := text + "*/" + rest;
    if text != "" {
      CommentRead(text[1..], rest);
      assert s[1..] == text[1..] + "*/" + rest;
      assert s[0] == text[0] && s[1] == (text + "*")[1];
    }
  }

  lemma {:induction false} NameRead(text: string, rest: string)
    requires (forall i | 0 <= i < |text| :: IdentifierPart(text[i])) && (rest == "" || !IdentifierPart(rest[0]))
    ensures WordEnd(text + rest) == |text|
  {
    if text == "" {
      assert text + rest == rest;
    } else {
      NameRead(text[1..], rest);
      assert (text + rest)[1..] == text[1..] + rest;
    }
  }

  lemma QuotedFirst(mark: char, glyphs: seq<Glyph>, rest: string)
    requires WellSpelled(Quoted(mark, glyphs)) && Ends(Quoted(mark, glyphs), rest)
    ensures First(Spelling(Quoted(mark, glyphs)) + rest) == TokenOf(Quoted(mark, glyphs))
  {
    hide QuoteEnd, GlyphsText;
    var s := Spelling(Quoted(mark, glyphs)) + rest;
    QuotationRead(mark, glyphs, rest);
    assert s[0] == mark && s[1..] == GlyphsText(mark, glyphs) + [mark] + rest;
  }

  lemma LineFirst(dashes: bool, text: string, rest: string)
    requires WellSpelled(Line(dashes, text))
    ensures First(Spelling(Line(dashes, text)) + rest) == TokenOf(Line(dashes, text))
  {
    hide LineEnd;
    var s := Spelling(Line(dashes, text)) + rest;
    if dashes {
      LineRead("-" + text, rest);
      assert s[0] == '-' && s[1..] == "-" + text + "\n" + rest;
      assert s[1] == '-' && s[2] == (text + "\n")[0];
    } else {
      LineRead(text, rest);
      assert s[0] == '#' && s[1..] == text + "\n" + rest;
    }
  }

  lemma CommentFirst(text: string, rest: string)
    requires WellSpelled(Comment(text))
    ensures First(Spelling(Comment(text)) + rest) == TokenOf(Comment(text))
  {
    hide BlockEnd;
    var s := Spelling(Comment(text)) + rest;
    CommentRead(text, rest);
    assert s[0] == '/' && s[1] == '*' && s[2..] == text + "*/" + rest;
  }

  lemma NameFirst(text: string, rest: string)
    requires WellSpelled(Name(text)) && Ends(Name(text), rest)
    ensures First(text + rest) == TokenOf(Name(text))
  {
    hide WordEnd, Upper;
    NameRead(text, rest);
    assert (text + rest)[0] == text[0] && (text + rest)[..|text|] == text;
  }

  lemma SignFirst(c: char, rest: string)
    requires WellSpelled(Sign(c)) && Ends(Sign(c), rest)
    ensures First([c] + rest) == Other(c)
  {
    var s := [c] + rest;
    assert forall i | 0 <= i < |rest| :: s[i + 1] == rest[i];
  }

  lemma LexemeRead(l: Lexeme, rest: string)
    requires WellSpelled(l) && Ends(l, rest)
    ensures First(Spelling(l) + rest) == TokenOf(l) && Len(TokenOf(l)) == |Spelling(l)| > 0
  {
    hide First, GlyphsText, Upper;
    match l
    case Quoted(mark, glyphs) => QuotedFirst(mark, glyphs, rest);
    case Line(dashes, text) => LineFirst(dashes, text, rest);
    case Comment(text) => CommentFirst(text, rest);
    case Name(text) => NameFirst(text, rest);
    case Mark => MarkFirst(rest);
    case Sign(c) => SignFirst(c, rest);
  }

  lemma MarkFirst(rest: string)
    ensures First(";" + rest) == Semicolon
  {
  }

  /** The scanner's state after some lexemes, and whether it got there without a cut. */
  function After(st: State, lexemes: seq<Lexeme>): State
    decreases |lexemes|
  {
    if lexemes == [] then st else After(Next(st, TokenOf(lexemes[0])), lexemes[1..])
  }

  predicate Quiet(st: State, lexemes: seq<Lexeme>)
    decreases |lexemes|
  {
    lexemes == [] || (!Cuts(st, TokenOf(lexemes[0])) && Quiet(Next(st, TokenOf(lexemes[0])), lexemes[1..]))
  }

  lemma {:induction false} AfterBoth(st: State, a: seq<Lexeme>, b: seq<Lexeme>)
    ensures After(st, a + b) == After(After(st, a), b)
    ensures Quiet(st, a + b) <==> Quiet(st, a) && Quiet(After(st, a), b)
    decreases |a|
  {
    hide Next;
    if a == [] {
      assert a + b == b;
    } else {
      assert (a + b)[1..] == a[1..] + b;
      AfterBoth(Next(st, TokenOf(a[0])), a[1..], b);
    }
  }

  lemma {:induction false} SettledByLexemes(lexemes: seq<Lexeme>, st: State)
    requires Legible(lexemes)
    ensures Settles(Written(lexemes), st) <==> Quiet(st, lexemes) && After(st, lexemes).depth == 0
  {
    hide First, Next, Spelling, WellSpelled, Ends;
    if lexemes != [] {
      var l, rest := lexemes[0], Written(lexemes[1..]);
      LexemeRead(l, rest);
      assert Written(lexemes)[|Spelling(l)|..] == rest;
      SettledByLexemes(lexemes[1..], Next(st, TokenOf(l)));
      assert TokenOf(l).Gap? ==> TokenOf(l).closed;
    }
  }

  // ---------------------------------------------------------------------------------------------
  // A statement is neutral
  // ---------------------------------------------------------------------------------------------

  lemma {:induction false} BlanksStay(st: State, blanks: seq<Lexeme>)
    requires forall l <- blanks :: IsBlank(l)
    ensures After(st, blanks) == st && Quiet(st, blanks)
  {
    if blanks != [] {
      assert IsBlank(blanks[0]);
      assert Next(st, TokenOf(blanks[0])) == st;
      BlanksStay(st, blanks[1..]);
    }
  }

  lemma WordStep(st: State, l: Lexeme)
    ensures Is(l, "BEGIN") ==> Next(st, TokenOf(l)) == State(st.depth + 1, false)
    ensures Is(l, "END") ==> Next(st, TokenOf(l)) == State(if st.depth > 0 then st.depth - 1 else 0, true)
    ensures IsControl(l) ==>
      Next(st, TokenOf(l)) == State(if st.depth > 0 && !st.afterEnd then st.depth + 1 else st.depth, false)
    ensures !Is(l, "BEGIN") && !IsControl(l) && !Is(l, "END") ==>
      Next(st, TokenOf(l)) == State(st.depth, st.afterEnd && IsBlank(l))
    ensures !(Is(l, "BEGIN") && IsControl(l)) && !(Is(l, "END") && IsControl(l)) && !(Is(l, "BEGIN") && Is(l, "END"))
  {
    hide Upper;
    assert "BEGIN"[0] == 'B' && "END"[0] == 'E';
  }

  lemma OneLexeme(st: State, l: Lexeme, rest: seq<Lexeme>)
    ensures After(st, [l] + rest) == After(Next(st, TokenOf(l)), rest)
    ensures Quiet(st, [l] + rest) <==> !Cuts(st, TokenOf(l)) && Quiet(Next(st, TokenOf(l)), rest)
  {
    hide Next;
    assert ([l] + rest)[1..] == rest;
  }

  /** What follows the inside of a block, read from the state its inside leaves. */
  lemma EndOfBlock(d: nat, afterEnd: bool, end: Lexeme, q: Qualifier)
    requires Is(end, "END")
    requires q.Qualified? ==> (forall l <- q.blanks :: IsBlank(l)) && IsControl(q.word)
    ensures var lexemes := [end] + QualifierLexemes(q);
      After(State(d + 1, afterEnd), lexemes) == State(d, q.Bare?) && Quiet(State(d + 1, afterEnd), lexemes)
  {
    hide Next, Is, IsControl;
    WordStep(State(d + 1, afterEnd), end);
    OneLexeme(State(d + 1, afterEnd), end, QualifierLexemes(q));
    NoMark(end);
    if q.Qualified? {
      BlanksStay(State(d, true), q.blanks);
      WordStep(State(d, true), q.word);
      NoMark(q.word);
      assert [q.word] + [] == [q.word];
      OneLexeme(State(d, true), q.word, []);
      AfterBoth(State(d, true), q.blanks, [q.word]);
    }
  }

  lemma NoMark(l: Lexeme)
    ensures Is(l, "BEGIN") || Is(l, "END") || IsControl(l) ==> l.Name? && !TokenOf(l).Semicolon?
  {
  }

  lemma {:induction false} BodyIsQuiet(b: Body, inside: bool, st: State)
    requires Grammatical(b, inside) && (inside <==> st.depth > 0) && (inside && st.afterEnd ==> !ControlNext(b))
    ensures Quiet(st, Lexemes(b)) && After(st, Lexemes(b)).depth == st.depth
    decreases b
  {
    hide Next, Is, IsControl, After, Quiet;
    match b
    case Nothing => EmptyIsQuiet(st);
    case Piece(l, rest) =>
      WordStep(st, l);
      NoMark(l);
      BodyIsQuiet(rest, inside, Next(st, TokenOf(l)));
      OneLexeme(st, l, Lexemes(rest));
    case Block(begin, inner, end, q, rest) =>
      WordStep(st, begin);
      NoMark(begin);
      var st1 := State(st.depth + 1, false);
      assert Next(st, TokenOf(begin)) == st1;
      BodyIsQuiet(inner, true, st1);
      var st2 := After(st1, Lexemes(inner));
      EndOfBlock(st.depth, st2.afterEnd, end, q);
      BodyIsQuiet(rest, inside, State(st.depth, q.Bare?));
      BlockSteps(st, begin, Lexemes(inner), end, QualifierLexemes(q), Lexemes(rest));
  }

  lemma EmptyIsQuiet(st: State)
    ensures Quiet(st, []) && After(st, []) == st
  {
  }

  lemma BlockSteps(st: State, begin: Lexeme, inner: seq<Lexeme>, end: Lexeme, q: seq<Lexeme>, rest: seq<Lexeme>)
    ensures var all := [begin] + inner + [end] + q + rest;
      var st1 := Next(st, TokenOf(begin));
      var st2 := After(st1, inner);
      var st3 := After(st2, [end] + q);
      && After(st, all) == After(st3, rest)
      && (Quiet(st, all) <==> !Cuts(st, TokenOf(begin)) && Quiet(st1, inner) && Quiet(st2, [end] + q) && Quiet(st3, rest))
  {
    hide Next, After, Quiet;
    var all := [begin] + inner + [end] + q + rest;
    var st1 := Next(st, TokenOf(begin));
    assert all == [begin] + (inner + (([end] + q) + rest));
    OneLexeme(st, begin, inner + (([end] + q) + rest));
    AfterBoth(st1, inner, ([end] + q) + rest);
    AfterBoth(After(st1, inner), [end] + q, rest);
  }

  lemma StatementIsNeutral(text: string)
    requires Statement(text)
    ensures Neutral(text)
  {
    hide Settles, Legible, Grammatical;
    var b :| Grammatical(b, false) && Legible(Lexemes(b)) && Written(Lexemes(b)) == text;
    BodyIsQuiet(b, false, START);
    SettledByLexemes(Lexemes(b), START);
  }

  // ---------------------------------------------------------------------------------------------
  // A neutral text is a statement: its lexemes
  // ---------------------------------------------------------------------------------------------

  lemma GlyphBefore(mark: char, g: Glyph, more: seq<Glyph>, s: string, k: nat, n: nat)
    requires k <= n <= |s| && s[..k] == GlyphText(mark, g) && s[k..][..n - k] == GlyphsText(mark, more) + [mark]
    ensures s[..n] == GlyphsText(mark, [g] + more) + [mark]
  {
    hide GlyphText;
    assert ([g] + more)[1..] == more;
    assert s[..n] == s[..k] + s[k..][..n - k];
  }

  lemma {:induction false} QuotationParsed(mark: char, s: string) returns (glyphs: seq<Glyph>)
    requires QuoteMark(mark) && QuoteEnd(mark, s).Some?
    ensures var n := QuoteEnd(mark, s).value;
      s[..n] == GlyphsText(mark, glyphs) + [mark] && PlainGlyphs(mark, glyphs) && (n < |s| ==> s[n] != mark)
    decreases |s|
  {
    hide GlyphsText;
    var n := QuoteEnd(mark, s).value;
    if s[0] == '\\' || (s[0] == mark && |s| > 1 && s[1] == mark) {
      var g := if s[0] == '\\' then Escaped(s[1]) else Doubled;
      var more := QuotationParsed(mark, s[2..]);
      GlyphBefore(mark, g, more, s, 2, n);
      return [g] + more;
    } else if s[0] != mark {
      var more := QuotationParsed(mark, s[1..]);
      GlyphBefore(mark, Plain(s[0]), more, s, 1, n);
      return [Plain(s[0])] + more;
    }
    NoGlyphs(mark);
    return [];
  }

  lemma NoGlyphs(mark: char)
    ensures GlyphsText(mark, []) == ""
  {
  }

  lemma {:induction false} LineParsed(s: string)
    requires LineEnd(s).Some?
    ensures var n := LineEnd(s).value; '\n' !in s[..n - 1] && s[..n] == s[..n - 1] + "\n"
    decreases |s|
  {
    if s[0] != '\n' {
      LineParsed(s[1..]);
      var n := LineEnd(s).value;
      assert s[..n - 1] == [s[0]] + s[1..][..n - 2] && s[..n] == [s[0]] + s[1..][..n - 1];
    }
  }

  lemma {:induction false} CommentParsed(s: string)
    requires BlockEnd(s).Some?
    ensures var n := BlockEnd(s).value; n >= 2 && WellSpelled(Comment(s[..n - 2])) && s[..n] == s[..n - 2] + "*/"
    decreases |s|
  {
    if !(s[0] == '*' && s[1] == '/') {
      CommentParsed(s[1..]);
      var n := BlockEnd(s).value;
      assert s[..n - 2] == [s[0]] + s[1..][..n - 3] && s[..n] == [s[0]] + s[1..][..n - 1];
    }
  }

  /** The lexeme a text begins with, if the scanner's first token is not a gap that runs into the end. */
  lemma LexemeParsed(p: string) returns (l: Lexeme)
    requires p != "" && (First(p).Gap? ==> First(p).closed)
    ensures WellSpelled(l) && Spelling(l) == p[..Len(First(p))] && Ends(l, p[Len(First(p))..])
  {
    hide QuoteEnd, LineEnd, BlockEnd, Upper, GlyphsText;
    var n := Len(First(p));
    if OpensLine(p) {
      LineParsed(p[1..]);
      l := LineParsedHere(p);
    } else if OpensBlock(p) {
      CommentParsed(p[2..]);
      l := CommentParsedHere(p);
    } else if QuoteMark(p[0]) {
      var glyphs := QuotationParsed(p[0], p[1..]);
      l := QuotedParsedHere(p, glyphs);
    } else if IdentifierStart(p[0]) {
      l := Name(p[..n]);
    } else if p[0] == ';' {
      l := Mark;
    } else {
      l := Sign(p[0]);
    }
  }

  lemma CommentParsedHere(p: string) returns (l: Lexeme)
    requires p != "" && OpensBlock(p) && BlockEnd(p[2..]).Some?
    requires var k := BlockEnd(p[2..]).value;
      k >= 2 && WellSpelled(Comment(p[2..][..k - 2])) && p[2..][..k] == p[2..][..k - 2] + "*/"
    ensures l.Comment? && WellSpelled(l) && Spelling(l) == p[..2 + BlockEnd(p[2..]).value]
  {
    hide BlockEnd;
    var k := BlockEnd(p[2..]).value;
    l := Comment(p[2..][..k - 2]);
    assert p[..2 + k] == p[..2] + p[2..][..k] && p[..2] == "/*";
  }

  lemma QuotedParsedHere(p: string, glyphs: seq<Glyph>) returns (l: Lexeme)
    requires p != "" && QuoteMark(p[0]) && QuoteEnd(p[0], p[1..]).Some? && PlainGlyphs(p[0], glyphs)
    requires var k := QuoteEnd(p[0], p[1..]).value;
      p[1..][..k] == GlyphsText(p[0], glyphs) + [p[0]] && (k < |p[1..]| ==> p[1..][k] != p[0])
    ensures var n := 1 + QuoteEnd(p[0], p[1..]).value; WellSpelled(l) && Spelling(l) == p[..n] && Ends(l, p[n..])
  {
    hide QuoteEnd, GlyphsText;
    var k := QuoteEnd(p[0], p[1..]).value;
    l := Quoted(p[0], glyphs);
    assert p[..1 + k] == [p[0]] + p[1..][..k];
    assert 1 + k < |p| ==> p[1 + k..][0] == p[1..][k];
  }

  lemma LineParsedHere(p: string) returns (l: Lexeme)
    requires p != "" && OpensLine(p) && LineEnd(p[1..]).Some?
    requires var k := LineEnd(p[1..]).value; '\n' !in p[1..][..k - 1] && p[1..][..k] == p[1..][..k - 1] + "\n"
    ensures l.Line? && WellSpelled(l) && Spelling(l) == p[..1 + LineEnd(p[1..]).value]
  {
    hide LineEnd;
    var n := 1 + LineEnd(p[1..]).value;
    assert p[1..][..n - 2] == p[1..n - 1] && p[1..][..n - 1] == p[1..n];
    assert p[..n] == [p[0]] + p[1..n];
    if p[0] == '#' {
      l := Line(false, p[1..n - 1]);
    } else {
      assert p[1..n][0] == '-' && n > 2;
      assert p[1..n - 1] == [p[1]] + p[2..n - 1];
      l := Line(true, p[2..n - 1]);
      assert n == 3 || p[2..n - 1][0] == p[2];
    }
  }

  lemma {:induction false} LexemesParsed(p: string, st: State) returns (lexemes: seq<Lexeme>)
    requires Settles(p, st)
    ensures Legible(lexemes) && Written(lexemes) == p
    decreases |p|
  {
    hide First, Next, Spelling, WellSpelled, Ends;
    if p == "" {
      return [];
    }
    var n := Len(First(p));
    var l := LexemeParsed(p);
    var more := LexemesParsed(p[n..], Next(st, First(p)));
    lexemes := [l] + more;
    assert lexemes[1..] == more && p == p[..n] + p[n..];
  }

  // ---------------------------------------------------------------------------------------------
  // A neutral text is a statement: its blocks
  // ---------------------------------------------------------------------------------------------

  /** The lexemes go on, after blanks, with a control word. */
  predicate Leads(lexemes: seq<Lexeme>) {
    lexemes != [] && (IsControl(lexemes[0]) || (IsBlank(lexemes[0]) && Leads(lexemes[1..])))
  }

  lemma {:induction false} LeadsBeyond(b: Body, more: seq<Lexeme>)
    requires ControlNext(b)
    ensures Leads(Lexemes(b) + more)
  {
    hide IsControl, IsBlank;
    var all := Lexemes(b) + more;
    if b.Piece? {
      LeadsBeyond(b.rest, more);
      assert all[0] == b.lexeme && all[1..] == Lexemes(b.rest) + more;
    } else {
      assert all[0] == b.begin;
    }
  }

  /** The blanks and the control word that qualify an `END`, if they follow. */
  lemma {:induction false} QualifierParsed(lexemes: seq<Lexeme>) returns (q: Qualifier, rest: seq<Lexeme>)
    ensures lexemes == QualifierLexemes(q) + rest
    ensures q.Qualified? ==> (forall l <- q.blanks :: IsBlank(l)) && IsControl(q.word)
    ensures q.Bare? ==> rest == lexemes && !Leads(lexemes)
  {
    hide IsControl, IsBlank;
    if !Leads(lexemes) {
      return Bare, lexemes;
    }
    if IsControl(lexemes[0]) {
      assert lexemes == [lexemes[0]] + lexemes[1..];
      return Qualified([], lexemes[0]), lexemes[1..];
    }
    q, rest := QualifierParsed(lexemes[1..]);
    assert lexemes == [lexemes[0]] + lexemes[1..];
    q := Qualified([lexemes[0]] + q.blanks, q.word);
  }

  /** The inside of a block up to its `END`, and what comes after. */
  lemma {:induction false} InsideParsed(lexemes: seq<Lexeme>, st: State)
    returns (inner: Body, end: Lexeme, rest: seq<Lexeme>)
    requires st.depth > 0 && After(st, lexemes).depth < st.depth && (st.afterEnd ==> !Leads(lexemes))
    ensures lexemes == Lexemes(inner) + [end] + rest && |rest| < |lexemes|
    ensures Grammatical(inner, true) && Is(end, "END")
    ensures After(st, Lexemes(inner) + [end]) == State(st.depth - 1, true)
    decreases |lexemes|
  {
    hide Next, Is, IsControl, IsBlank, After;
    if lexemes == [] {
      EmptyIsQuiet(st);
    }
    var l, tail := lexemes[0], lexemes[1..];
    assert lexemes == [l] + tail;
    WordStep(st, l);
    OneLexeme(st, l, tail);
    if Is(l, "END") {
      assert lexemes == [] + [l] + tail && [] + [l] == [l] + [];
      OneLexeme(st, l, []);
      EmptyIsQuiet(Next(st, TokenOf(l)));
      return Nothing, l, tail;
    } else if Is(l, "BEGIN") || IsControl(l) {
      inner, end, rest := BlockParsed(lexemes, st);
    } else {
      inner, end, rest := InsideParsed(tail, Next(st, TokenOf(l)));
      inner := Piece(l, inner);
      assert Lexemes(inner) + [end] == [l] + (Lexemes(inner.rest) + [end]);
      OneLexeme(st, l, Lexemes(inner.rest) + [end]);
    }
  }

  /** A block leaves the depth as it was. */
  lemma BlockRun(st: State, begin: Lexeme, inner: Body, end: Lexeme, q: Qualifier, rest: seq<Lexeme>)
    requires Next(st, TokenOf(begin)) == State(st.depth + 1, false) && Grammatical(inner, true) && Is(end, "END")
    requires q.Qualified? ==> (forall l <- q.blanks :: IsBlank(l)) && IsControl(q.word)
    ensures var all := [begin] + Lexemes(inner) + [end] + QualifierLexemes(q) + rest;
      && After(st, all) == After(State(st.depth, q.Bare?), rest)
      && (Quiet(st, all) <==> !Cuts(st, TokenOf(begin)) && Quiet(State(st.depth, q.Bare?), rest))
  {
    hide Next, Is, IsControl, IsBlank, After, Quiet;
    var st1 := State(st.depth + 1, false);
    BodyIsQuiet(inner, true, st1);
    EndOfBlock(st.depth, After(st1, Lexemes(inner)).afterEnd, end, q);
    BlockSteps(st, begin, Lexemes(inner), end, QualifierLexemes(q), rest);
  }

  lemma Assembled(l: Lexeme, inner: seq<Lexeme>, end: Lexeme, rest: seq<Lexeme>, q: seq<Lexeme>, rest': seq<Lexeme>)
    requires rest == q + rest'
    ensures [l] + (inner + [end] + rest) == [l] + inner + [end] + q + rest'
  {
  }

  lemma BareBeforeControl(q: Qualifier, lexemes: seq<Lexeme>, after: Body, end: Lexeme, rest: seq<Lexeme>)
    requires q.Bare? ==> !Leads(lexemes)
    requires lexemes == Lexemes(after) + [end] + rest
    ensures q.Bare? ==> !ControlNext(after)
  {
    hide Leads, ControlNext, Lexemes;
    if ControlNext(after) {
      LeadsBeyond(after, [end] + rest);
      assert lexemes == Lexemes(after) + ([end] + rest);
    }
  }

  lemma {:induction false} BlockParsed(lexemes: seq<Lexeme>, st: State) returns (inner: Body, end: Lexeme, rest: seq<Lexeme>)
    requires lexemes != [] && (Is(lexemes[0], "BEGIN") || IsControl(lexemes[0]))
    requires st.depth > 0 && After(st, lexemes).depth < st.depth && (st.afterEnd ==> !Leads(lexemes))
    ensures lexemes == Lexemes(inner) + [end] + rest && |rest| < |lexemes|
    ensures Grammatical(inner, true) && Is(end, "END")
    ensures After(st, Lexemes(inner) + [end]) == State(st.depth - 1, true)
    decreases |lexemes|, 0
  {
    hide Next, Is, IsControl, IsBlank, After, Quiet, ControlNext, Lexemes, QualifierLexemes;
    var l, tail := lexemes[0], lexemes[1..];
    WordStep(st, l);
    assert lexemes == [l] + tail;
    OneLexeme(st, l, tail);
    assert Next(st, TokenOf(l)) == State(st.depth + 1, false);
    hide Leads;
    var within, end1, rest1 := InsideParsed(tail, State(st.depth + 1, false));
    var q, rest2 := QualifierParsed(rest1);
    Assembled(l, Lexemes(within), end1, rest1, QualifierLexemes(q), rest2);
    BlockRun(st, l, within, end1, q, rest2);
    var after;
    after, end, rest := InsideParsed(rest2, State(st.depth, q.Bare?));
    BlockRun(st, l, within, end1, q, Lexemes(after) + [end]);
    inner := Block(l, within, end1, q, after);
    BareBeforeControl(q, rest2, after, end, rest);
    BlockShape(inner, end, rest, lexemes);
  }

  lemma BlockShape(b: Body, end: Lexeme, rest: seq<Lexeme>, lexemes: seq<Lexeme>)
    requires b.Block?
    requires lexemes == [b.begin] + Lexemes(b.inner) + [b.end] + QualifierLexemes(b.qualifier) + (Lexemes(b.rest) + [end] + rest)
    ensures lexemes == Lexemes(b) + [end] + rest
    ensures Lexemes(b) + [end] == [b.begin] + Lexemes(b.inner) + [b.end] + QualifierLexemes(b.qualifier) + (Lexemes(b.rest) + [end])
  {
  }

  lemma {:induction false} OutsideParsed(lexemes: seq<Lexeme>, st: State) returns (b: Body)
    requires st.depth == 0 && Quiet(st, lexemes) && After(st, lexemes).depth == 0
    ensures Lexemes(b) == lexemes && Grammatical(b, false)
    decreases |lexemes|
  {
    hide Next, Is, IsControl, IsBlank, After, Quiet, Leads;
    if lexemes == [] {
      return Nothing;
    }
    var l, tail := lexemes[0], lexemes[1..];
    assert lexemes == [l] + tail;
    WordStep(st, l);
    OneLexeme(st, l, tail);
    if Is(l, "BEGIN") {
      b := OuterBlockParsed(lexemes, st);
    } else {
      MarkCuts(st, l);
      var after := OutsideParsed(tail, Next(st, TokenOf(l)));
      b := Piece(l, after);
    }
  }

  lemma {:induction false} OuterBlockParsed(lexemes: seq<Lexeme>, st: State) returns (b: Body)
    requires lexemes != [] && Is(lexemes[0], "BEGIN")
    requires st.depth == 0 && Quiet(st, lexemes) && After(st, lexemes).depth == 0
    ensures Lexemes(b) == lexemes && Grammatical(b, false)
    decreases |lexemes|, 0
  {
    hide Next, Is, IsControl, IsBlank, After, Quiet, Leads, Lexemes;
    var l, tail := lexemes[0], lexemes[1..];
    assert lexemes == [l] + tail;
    WordStep(st, l);
    OneLexeme(st, l, tail);
    var inner, end, rest := InsideParsed(tail, State(1, false));
    assert QualifierLexemes(Bare) + rest == rest;
    Assembled(l, Lexemes(inner), end, rest, QualifierLexemes(Bare), rest);
    BlockRun(st, l, inner, end, Bare, rest);
    var after := OutsideParsed(rest, State(0, true));
    b := Block(l, inner, end, Bare, after);
    BlockLexemes(b);
  }

  lemma BlockLexemes(b: Body)
    requires b.Block?
    ensures Lexemes(b) == [b.begin] + Lexemes(b.inner) + [b.end] + QualifierLexemes(b.qualifier) + Lexemes(b.rest)
  {
  }

  lemma MarkCuts(st: State, l: Lexeme)
    ensures Cuts(st, TokenOf(l)) <==> l.Mark? && st.depth == 0
  {
  }

  /** The texts the splitter takes for one statement are exactly the statements of the grammar. */
  lemma NeutralIsStatement(text: string)
    ensures Neutral(text) <==> Statement(text)
  {
    hide Settles, Legible, Grammatical, Written, Lexemes, Quiet, After;
    if Neutral(text) {
      var lexemes := LexemesParsed(text, START);
      SettledByLexemes(lexemes, START);
      var b := OutsideParsed(lexemes, START);
    }
    if Statement(text) {
      StatementIsNeutral(text);
    }
  }

  // ---------------------------------------------------------------------------------------------
  // Splitting
  // ---------------------------------------------------------------------------------------------

  ghost predicate AllStatements(pieces: seq<string>) { forall i | 0 <= i < |pieces| :: Statement(pieces[i]) }

  /** Splitting statements joined by semicolons returns each of them, with or without a last semicolon. */
  lemma StatementsAreSplit(pieces: seq<string>)
    requires pieces != [] && AllStatements(pieces) && AllTrimmed(pieces)
    ensures Split(Join(pieces)) == pieces && Split(Join(pieces) + ";") == pieces
  {
    hide Statement, Neutral, Join, Split;
    forall i | 0 <= i < |pieces| ensures Neutral(pieces[i]) {
      NeutralIsStatement(pieces[i]);
    }
    SplitJoin(pieces);
    SplitJoinTerminated(pieces);
  }

  /** Every segment of a script but the last is a statement. */
  lemma SegmentsAreStatements(script: string)
    ensures var segments := Segments(script);
      Join(segments) == script && AllStatements(segments[..|segments| - 1])
  {
    hide Statement, Neutral, Join, Segments, Uncut;
    SegmentsAreADecomposition(script);
    var front := Segments(script)[..|Segments(script)| - 1];
    forall i | 0 <= i < |front| ensures Statement(front[i]) {
      NeutralIsStatement(front[i]);
    }
  }

  /** Any text without `BEGIN` and without a semicolon outside quotations and comments is one statement,
      whatever control words it has. */
  lemma {:induction false} PlainTextIsAStatement(lexemes: seq<Lexeme>) returns (b: Body)
    requires forall l <- lexemes :: !Is(l, "BEGIN") && !l.Mark?
    ensures Grammatical(b, false) && Lexemes(b) == lexemes
    ensures Legible(lexemes) ==> Statement(Written(lexemes))
  {
    hide Is, Legible, Written;
    if lexemes == [] {
      b := Nothing;
    } else {
      var rest := PlainTextIsAStatement(lexemes[1..]);
      b := Piece(lexemes[0], rest);
    }
  }

  // ---------------------------------------------------------------------------------------------
  // A control word that opens nothing in SQL
  // ---------------------------------------------------------------------------------------------

  lemma {:induction false} QuietIsUncut(lexemes: seq<Lexeme>, st: State)
    requires Legible(lexemes) && Quiet(st, lexemes)
    ensures Cut(Written(lexemes), st) == |Written(lexemes)|
    decreases |lexemes|
  {
    hide First, Next, Spelling, WellSpelled, Ends, Cuts;
    if lexemes != [] {
      var l, rest := lexemes[0], Written(lexemes[1..]);
      LexemeRead(l, rest);
      assert Written(lexemes)[|Spelling(l)|..] == rest;
      QuietIsUncut(lexemes[1..], Next(st, TokenOf(l)));
    }
  }

  /** Lexemes that no semicolon separates are one statement at most. */
  lemma QuietIsOne(lexemes: seq<Lexeme>)
    requires Legible(lexemes) && Quiet(START, lexemes)
    ensures Split(Written(lexemes)) == Kept(Written(lexemes))
  {
    hide Legible, Quiet, Cut, Trim;
    QuietIsUncut(lexemes, START);
    assert Segments(Written(lexemes)) == [Written(lexemes)];
    assert Statements([Written(lexemes)][1..]) == [];
  }

  /** No block begins here. */
  predicate Flat(b: Body) {
    match b
    case Nothing => true
    case Piece(_, rest) => Flat(rest)
    case Block(_, _, _, _, _) => false
  }

  lemma {:induction false} FlatStays(b: Body, d: nat)
    requires Flat(b) && Grammatical(b, true) && d > 0
    ensures After(State(d, false), Lexemes(b)) == State(d, false)
  {
    hide Next, Is, IsControl, After;
    if b.Nothing? {
      EmptyIsQuiet(State(d, false));
    } else {
      WordStep(State(d, false), b.lexeme);
      FlatStays(b.rest, d);
      OneLexeme(State(d, false), b.lexeme, Lexemes(b.rest));
    }
  }

  /**
   A control word in a block counts as the beginning of another one even where SQL means a function or a clause,
   as in `BEGIN SET x = IF(a, b, c); END`. The `END` of the block then closes that one, the block stays open, and
   no later semicolon separates anything.
   */
  lemma LooseControlWordTakesTheRest(begin: Lexeme, before: Body, control: Lexeme, more: Body, end: Lexeme, rest: Body)
    requires Is(begin, "BEGIN") && IsControl(control) && Is(end, "END")
    requires Flat(before) && Grammatical(before, true) && Grammatical(more, true)
    requires Grammatical(rest, true) && !ControlNext(rest)
    requires Legible([begin] + (Lexemes(before) + ([control] + (Lexemes(more) + ([end] + Lexemes(rest))))))
    ensures var all := [begin] + (Lexemes(before) + ([control] + (Lexemes(more) + ([end] + Lexemes(rest)))));
      Split(Written(all)) == Kept(Written(all))
  {
    hide Next, Is, IsControl, After, Quiet, Legible, Written, Split, Kept, Grammatical, Lexemes;
    var last := [end] + Lexemes(rest);
    var inner := [control] + (Lexemes(more) + last);
    OpenedTwice(more, end, rest);
    WordStep(START, begin);
    NoMark(begin);
    OneLexeme(START, begin, Lexemes(before) + inner);
    BodyIsQuiet(before, true, State(1, false));
    FlatStays(before, 1);
    AfterBoth(State(1, false), Lexemes(before), inner);
    WordStep(State(1, false), control);
    NoMark(control);
    OneLexeme(State(1, false), control, Lexemes(more) + last);
    QuietIsOne([begin] + (Lexemes(before) + inner));
  }

  lemma OpenedTwice(more: Body, end: Lexeme, rest: Body)
    requires Is(end, "END") && Grammatical(more, true) && Grammatical(rest, true) && !ControlNext(rest)
    ensures Quiet(State(2, false), Lexemes(more) + ([end] + Lexemes(rest)))
  {
    hide Next, Is, IsControl, After, Quiet, Grammatical, Lexemes;
    BodyIsQuiet(more, true, State(2, false));
    var st := After(State(2, false), Lexemes(more));
    WordStep(st, end);
    NoMark(end);
    BodyIsQuiet(rest, true, State(1, true));
    OneLexeme(st, end, Lexemes(rest));
    AfterBoth(State(2, false), Lexemes(more), [end] + Lexemes(rest));
  }
}
