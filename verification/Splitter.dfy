/**
 The MySQL statement splitter: one pass over a script that respects quotes, comments and compound
 bodies. A `char` stands for one code point of the script; every character the scanner tests is ASCII.

 The reference reads a script as tokens, keeps the compound depth, and needs no lookahead: it
 remembers that it just passed `END` instead of peeking at the word after it.
 */
module Splitter {
  import opened Options
  import opened Text

  // ---------------------------------------------------------------------------------------------
  // Characters and white space
  // ---------------------------------------------------------------------------------------------

  predicate IdentifierStart(c: char) { 'a' <= c <= 'z' || 'A' <= c <= 'Z' || c == '_' }

  predicate IdentifierPart(c: char) { IdentifierStart(c) || '0' <= c <= '9' || c == '$' }

  /** The spaces the scanner itself knows. */
  predicate Blank(c: char) { c == ' ' || c == '\t' || c == '\n' || c == '\r' }

  predicate QuoteMark(c: char) { c == '\'' || c == '"' || c == '`' }

  function Upper(s: string): (r: string)
    ensures |r| == |s|
  {
    if s == "" then ""
    else [if 'a' <= s[0] <= 'z' then s[0] - 'a' + 'A' else s[0]] + Upper(s[1..])
  }

  /** Words are compared without regard to case: two are alike exactly when their letters are. */
  lemma {:induction false} UpperFolds(a: string, b: string)
    ensures Upper(a) == Upper(b) <==> |a| == |b| && forall i | 0 <= i < |a| :: SameLetter(a[i], b[i])
  {
    if a != "" && b != "" {
      UpperFolds(a[1..], b[1..]);
      assert Upper(a)[1..] == Upper(a[1..]) && Upper(b)[1..] == Upper(b[1..]);
      assert Upper(a) == [Upper(a)[0]] + Upper(a[1..]) && Upper(b) == [Upper(b)[0]] + Upper(b[1..]);
      assert forall i | 0 <= i < |a| - 1 :: a[1..][i] == a[i + 1];
      assert forall i | 0 <= i < |b| - 1 :: b[1..][i] == b[i + 1];
    }
  }

  // ---------------------------------------------------------------------------------------------
  // Tokens
  // ---------------------------------------------------------------------------------------------

  /** A comment or quotation, closed or running into the end; a word; a statement mark; any other character. */
  datatype Token =
    | Gap(size: nat, closed: bool)
    | Word(word: string)
    | Semicolon
    | Other(c: char)

  function Len(t: Token): nat {
    match t
    case Gap(size, _) => size
    case Word(word) => |word|
    case _ => 1
  }

  function Plus(end: Option<nat>, k: nat): Option<nat> {
    match end case None => None case Some(n) => Some(n + k)
  }

  /** The length of the line that `s` begins with, its newline included; none when it does not end. */
  function LineEnd(s: string): (r: Option<nat>)
    ensures r.Some? ==> 0 < r.value <= |s|
  {
    if s == "" then None
    else if s[0] == '\n' then Some(1)
    else Plus(LineEnd(s[1..]), 1)
  }

  /** The length of a block comment's text after its opening, closing mark included. */
  function BlockEnd(s: string): (r: Option<nat>)
    ensures r.Some? ==> 0 < r.value <= |s|
  {
    if |s| < 2 then None
    else if s[0] == '*' && s[1] == '/' then Some(2)
    else Plus(BlockEnd(s[1..]), 1)
  }

  /** The length of a quotation after its opening mark `q`: a backslash or a doubled mark does not close it. */
  function QuoteEnd(q: char, s: string): (r: Option<nat>)
    ensures r.Some? ==> 0 < r.value <= |s|
  {
    if s == "" then None
    else if s[0] == '\\' || (s[0] == q && |s| > 1 && s[1] == q) then
      if |s| == 1 then None
      else Plus(QuoteEnd(q, s[2..]), 2)
    else if s[0] == q then Some(1)
    else Plus(QuoteEnd(q, s[1..]), 1)
  }

  predicate OpensLine(s: string)
    requires s != ""
  {
    s[0] == '#' || (|s| > 2 && s[0] == '-' && s[1] == '-' && Blank(s[2]))
  }

  predicate OpensBlock(s: string)
    requires s != ""
  {
    |s| > 1 && s[0] == '/' && s[1] == '*'
  }

  /** A gap of `opening` characters and the rest up to `end`, or up to the end of `s`. */
  function GapOf(s: string, opening: nat, end: Option<nat>): Token {
    match end
    case None => Gap(|s|, false)
    case Some(n) => Gap(opening + n, true)
  }

  function WordEnd(s: string): (n: nat)
    ensures n <= |s|
    ensures forall i | 0 <= i < n :: IdentifierPart(s[i])
    ensures n < |s| ==> !IdentifierPart(s[n])
  {
    if s == "" || !IdentifierPart(s[0]) then 0 else 1 + WordEnd(s[1..])
  }

  /** The token a text begins with. */
  function First(s: string): (t: Token)
    requires s != ""
    ensures 0 < Len(t) <= |s|
    ensures t.Gap? && !t.closed ==> Len(t) == |s|
    ensures t.Semicolon? <==> s[0] == ';'
  {
    if OpensLine(s) then GapOf(s, 1, LineEnd(s[1..]))
    else if OpensBlock(s) then GapOf(s, 2, BlockEnd(s[2..]))
    else if QuoteMark(s[0]) then GapOf(s, 1, QuoteEnd(s[0], s[1..]))
    else if IdentifierStart(s[0]) then Word(Upper(s[..WordEnd(s)]))
    else if s[0] == ';' then Semicolon
    else Other(s[0])
  }

  // ---------------------------------------------------------------------------------------------
  // Compound depth
  // ---------------------------------------------------------------------------------------------

  /** The open compound blocks, and whether only blanks follow the last `END`. */
  datatype State = State(depth: nat, afterEnd: bool)

  const START := State(0, false)

  predicate Control(word: string) { word in ["IF", "CASE", "LOOP", "WHILE", "REPEAT"] }

  function Next(st: State, t: Token): State {
    match t
    case Word(word) =>
      if st.afterEnd && Control(word) then State(st.depth, false)
      else if word == "BEGIN" then State(st.depth + 1, false)
      else if Control(word) then State(if st.depth > 0 then st.depth + 1 else 0, false)
      else if word == "END" then State(if st.depth > 0 then st.depth - 1 else 0, true)
      else State(st.depth, false)
    case Other(c) => State(st.depth, st.afterEnd && Blank(c))
    case _ => State(st.depth, false)
  }

  // ---------------------------------------------------------------------------------------------
  // Segments
  // ---------------------------------------------------------------------------------------------

  predicate Cuts(st: State, t: Token) { t.Semicolon? && st.depth == 0 }

  /** How far a text read from `st` goes before its first cut. */
  function Cut(s: string, st: State): (c: nat)
    ensures c <= |s|
    ensures c < |s| ==> s[c] == ';'
    decreases |s|
  {
    if s == "" then 0
    else
      var t := First(s);
      if Cuts(st, t) then 0 else Len(t) + Cut(s[Len(t)..], Next(st, t))
  }

  /** A text between two cuts: it has no cut of its own, closes what it opens and ends at depth 0. */
  predicate Settles(p: string, st: State)
    decreases |p|
  {
    if p == "" then st.depth == 0
    else
      var t := First(p);
      !Cuts(st, t) && (t.Gap? ==> t.closed) && Settles(p[Len(t)..], Next(st, t))
  }

  predicate Neutral(p: string) { Settles(p, START) }

  predicate Uncut(p: string) { Cut(p, START) == |p| }

  /** The text between the cuts of a script. */
  function Segments(s: string): (r: seq<string>)
    ensures r != []
    decreases |s|
  {
    var c := Cut(s, START);
    if c == |s| then [s] else [s[..c]] + Segments(s[c + 1..])
  }

  function Join(pieces: seq<string>): string
    requires pieces != []
  {
    if |pieces| == 1 then pieces[0] else pieces[0] + ";" + Join(pieces[1..])
  }

  /** What is kept of a segment: its trimmed text, unless that is empty. */
  function Kept(segment: string): seq<string> { if Trim(segment) == "" then [] else [Trim(segment)] }

  function Statements(segments: seq<string>): seq<string> {
    if segments == [] then [] else Kept(segments[0]) + Statements(segments[1..])
  }

  /** Every piece but the last is neutral, and the last has no cut. */
  predicate Decomposition(pieces: seq<string>) {
    && pieces != []
    && AllNeutral(pieces[..|pieces| - 1])
    && Uncut(pieces[|pieces| - 1])
  }

  // ---------------------------------------------------------------------------------------------
  // A token does not look past a semicolon
  // ---------------------------------------------------------------------------------------------

  lemma {:induction false} LineEndBefore(p: string, x: string)
    ensures LineEnd(p).Some? ==> LineEnd(p + x) == LineEnd(p)
    ensures LineEnd(p + x).Some? && LineEnd(p + x).value <= |p| ==> LineEnd(p) == LineEnd(p + x)
  {
    if p != "" {
      assert (p + x)[1..] == p[1..] + x;
      LineEndBefore(p[1..], x);
    } else {
      assert p + x == x;
    }
  }

  lemma {:induction false} BlockEndBefore(p: string, x: string)
    requires x != "" && x[0] == ';'
    ensures BlockEnd(p).Some? ==> BlockEnd(p + x) == BlockEnd(p)
    ensures BlockEnd(p + x).Some? && BlockEnd(p + x).value <= |p| ==> BlockEnd(p) == BlockEnd(p + x)
  {
    if p != "" {
      assert (p + x)[1..] == p[1..] + x;
      BlockEndBefore(p[1..], x);
    } else {
      assert p + x == x;
    }
  }

  lemma {:induction false} QuoteEndBefore(q: char, p: string, x: string)
    requires x != "" && x[0] == ';' && QuoteMark(q)
    ensures QuoteEnd(q, p).Some? ==> QuoteEnd(q, p + x) == QuoteEnd(q, p)
    ensures QuoteEnd(q, p + x).Some? && QuoteEnd(q, p + x).value <= |p| ==> QuoteEnd(q, p) == QuoteEnd(q, p + x)
  {
    var s := p + x;
    if p == "" {
      assert s == x;
    } else if p[0] == '\\' || (p[0] == q && |p| > 1 && p[1] == q) {
      if |p| > 1 {
        assert s[2..] == p[2..] + x;
        QuoteEndBefore(q, p[2..], x);
      }
    } else if p[0] != q {
      assert s[1..] == p[1..] + x;
      QuoteEndBefore(q, p[1..], x);
    }
  }

  lemma {:induction false} WordEndBefore(p: string, x: string)
    requires x != "" && x[0] == ';'
    ensures WordEnd(p + x) == WordEnd(p)
  {
    if p == "" {
      assert p + x == x;
    } else {
      assert (p + x)[1..] == p[1..] + x;
      WordEndBefore(p[1..], x);
    }
  }

  /** Text from a semicolon on changes no token that ends before it. */
  lemma FirstBefore(p: string, x: string)
    requires p != "" && x != "" && x[0] == ';'
    ensures First(p) == First(p + x) || First(p) == Gap(|p|, false)
    ensures Len(First(p + x)) <= |p| ==> First(p + x) == First(p)
    ensures Len(First(p + x)) <= |p| && First(p).Gap? ==> First(p).closed
  {
    var s := p + x;
    assert s[0] == p[0] && s[1..] == p[1..] + x;
    if OpensLine(s) {
      LineEndBefore(p[1..], x);
    } else if OpensBlock(s) {
      assert |p| > 1 && s[2..] == p[2..] + x;
      BlockEndBefore(p[2..], x);
    } else if QuoteMark(s[0]) {
      QuoteEndBefore(s[0], p[1..], x);
    } else if IdentifierStart(s[0]) {
      WordEndBefore(p, x);
      assert s[..WordEnd(s)] == p[..WordEnd(p)];
    }
  }

  // ---------------------------------------------------------------------------------------------
  // The cuts are the only reading of a script
  // ---------------------------------------------------------------------------------------------

  lemma {:induction false} CutAfterPiece(p: string, x: string, st: State)
    requires Settles(p, st) && x != "" && x[0] == ';'
    ensures Cut(p + x, st) == |p|
    decreases |p|
  {
    if p == "" {
      assert p + x == x;
    } else {
      FirstBefore(p, x);
      var t := First(p);
      assert (p + x)[Len(t)..] == p[Len(t)..] + x;
      CutAfterPiece(p[Len(t)..], x, Next(st, t));
    }
  }

  lemma {:induction false} PieceBeforeCut(s: string, st: State)
    requires Cut(s, st) < |s|
    ensures Settles(s[..Cut(s, st)], st)
    decreases |s|
  {
    var c, t := Cut(s, st), First(s);
    if !Cuts(st, t) {
      var p, x := s[..c], s[c..];
      assert s == p + x;
      FirstBefore(p, x);
      PieceBeforeCut(s[Len(t)..], Next(st, t));
      assert p[Len(t)..] == s[Len(t)..][..c - Len(t)];
    }
  }

  lemma AnotherPiece(p: string, rest: seq<string>)
    requires Neutral(p) && Decomposition(rest)
    ensures Decomposition([p] + rest)
    ensures Join([p] + rest) == p + ";" + Join(rest)
  {
    var all := [p] + rest;
    assert all[1..] == rest;
    assert forall i | 1 <= i < |all| :: all[i] == rest[i - 1];
  }

  lemma AtSemicolon(s: string, c: nat)
    requires c < |s| && s[c] == ';'
    ensures s == s[..c] + ";" + s[c + 1..]
  {
    assert s == s[..c] + [s[c]] + s[c + 1..];
  }

  lemma FirstPiece(pieces: seq<string>)
    requires Decomposition(pieces) && |pieces| > 1
    ensures Neutral(pieces[0]) && Decomposition(pieces[1..])
  {
    var front, rest := pieces[..|pieces| - 1], pieces[1..];
    assert front[0] == pieces[0];
    assert rest[..|rest| - 1] == front[1..];
  }

  /** The segments of a script, joined by semicolons, are the script; every cut follows a neutral text. */
  lemma {:induction false} SegmentsAreADecomposition(s: string)
    ensures Decomposition(Segments(s))
    ensures Join(Segments(s)) == s
    decreases |s|
  {
    var c := Cut(s, START);
    if c < |s| {
      PieceBeforeCut(s, START);
      SegmentsAreADecomposition(s[c + 1..]);
      AnotherPiece(s[..c], Segments(s[c + 1..]));
      AtSemicolon(s, c);
    }
  }

  lemma CutOffFirst(p: string, rest: string)
    requires Neutral(p)
    ensures Segments(p + ";" + rest) == [p] + Segments(rest)
  {
    hide Cut, Settles;
    var s, x := p + ";" + rest, ";" + rest;
    assert s == p + x;
    CutAfterPiece(p, x, START);
    assert s[..|p|] == p && s[|p| + 1..] == rest;
  }

  /** No other decomposition of the script exists. */
  lemma {:induction false} DecompositionIsUnique(pieces: seq<string>)
    requires Decomposition(pieces)
    ensures Segments(Join(pieces)) == pieces
    decreases |pieces|
  {
    hide Cut, Settles, AllNeutral;
    if |pieces| > 1 {
      FirstPiece(pieces);
      DecompositionIsUnique(pieces[1..]);
      CutOffFirst(pieces[0], Join(pieces[1..]));
      assert pieces == [pieces[0]] + pieces[1..];
    }
  }

  // ---------------------------------------------------------------------------------------------
  // Round trip
  // ---------------------------------------------------------------------------------------------

  function Split(script: string): seq<string> { Statements(Segments(script)) }

  /** A statement as the splitter returns it. */
  predicate Trimmed(s: string) { s != "" && !Space(s[0]) && !Space(s[|s| - 1]) }

  lemma {:induction false} TrimmedAreStatements(pieces: seq<string>)
    requires AllTrimmed(pieces)
    ensures Statements(pieces) == pieces
  {
    if pieces != [] {
      TrimmedAreStatements(pieces[1..]);
      assert Trim(pieces[0]) == pieces[0];
    }
  }

  /** Splitting the semicolon-joined text of neutral, trimmed statements returns them. */
  lemma SplitJoin(pieces: seq<string>)
    requires pieces != [] && AllNeutral(pieces) && AllTrimmed(pieces)
    ensures Split(Join(pieces)) == pieces
  {
    NeutralIsUncut(pieces[|pieces| - 1], START);
    DecompositionIsUnique(pieces);
    TrimmedAreStatements(pieces);
  }

  /** So does splitting a script whose last statement is terminated. */
  lemma SplitJoinTerminated(pieces: seq<string>)
    requires pieces != [] && AllNeutral(pieces) && AllTrimmed(pieces)
    ensures Split(Join(pieces) + ";") == pieces
  {
    DecompositionIsUnique(pieces + [""]);
    TrimmedAreStatements(pieces);
    JoinAppend(pieces);
    StatementsAppendEmpty(pieces);
  }

  predicate AllNeutral(pieces: seq<string>) { forall i | 0 <= i < |pieces| :: Neutral(pieces[i]) }

  predicate AllTrimmed(pieces: seq<string>) { forall i | 0 <= i < |pieces| :: Trimmed(pieces[i]) }

  lemma {:induction false} NeutralIsUncut(p: string, st: State)
    requires Settles(p, st)
    ensures Cut(p, st) == |p|
    decreases |p|
  {
    if p != "" {
      NeutralIsUncut(p[Len(First(p))..], Next(st, First(p)));
    }
  }

  lemma {:induction false} JoinAppend(pieces: seq<string>)
    requires pieces != []
    ensures Join(pieces + [""]) == Join(pieces) + ";"
  {
    var all := pieces + [""];
    assert all[1..] == pieces[1..] + [""];
    if |pieces| == 1 {
      assert Join(all[1..]) == "";
    } else {
      JoinAppend(pieces[1..]);
    }
  }

  lemma {:induction false} StatementsAppendEmpty(pieces: seq<string>)
    ensures Statements(pieces + [""]) == Statements(pieces)
  {
    var all := pieces + [""];
    if pieces == [] {
      assert all == [""];
    } else {
      assert all[1..] == pieces[1..] + [""];
      StatementsAppendEmpty(pieces[1..]);
    }
  }

  /** Every statement the splitter returns is trimmed and not empty. */
  lemma {:induction false} StatementsAreTrimmed(segments: seq<string>)
    ensures AllTrimmed(Statements(segments))
  {
    if segments != [] {
      StatementsAreTrimmed(segments[1..]);
      TrimRemovesSpace(segments[0]);
    }
  }

  // ---------------------------------------------------------------------------------------------
  // The scanner
  // ---------------------------------------------------------------------------------------------

  /** Skips the comment at `start`, if there is one. */
  method SkipComment(script: string, start: nat) returns (end: nat, ok: bool)
    requires start < |script|
    ensures ok <==> OpensLine(script[start..]) || OpensBlock(script[start..])
    ensures ok ==> end == start + Len(First(script[start..]))
  {
    hide LineEnd, BlockEnd, QuoteEnd, WordEnd, Upper;
    if script[start] == '\n' {
      return start, false;
    }
    if script[start] == '#' ||
      (script[start] == '-' && start + 2 < |script| && script[start + 1] == '-' && Blank(script[start + 2])) {
      end := start + 1;
      while end < |script|
        invariant start < end <= |script|
        invariant LineEnd(script[start + 1..]) == Plus(LineEnd(script[end..]), end - start - 1)
      {
        LineSteps(script, end);
        if script[end] == '\n' {
          return end + 1, true;
        }
        end := end + 1;
      }
      NoEnds("");
      return |script|, true;
    }
    if script[start] != '/' || start + 1 >= |script| || script[start + 1] != '*' {
      return start, false;
    }
    end := start + 2;
    while end + 1 < |script|
      invariant start + 2 <= end <= |script|
      invariant BlockEnd(script[start + 2..]) == Plus(BlockEnd(script[end..]), end - start - 2)
    {
      BlockSteps(script, end);
      if script[end] == '*' && script[end + 1] == '/' {
        return end + 2, true;
      }
      end := end + 1;
    }
    NoEnds(script[end..]);
    return |script|, true;
  }

  lemma LineSteps(script: string, i: nat)
    requires i < |script|
    ensures LineEnd(script[i..]) == if script[i] == '\n' then Some(1) else Plus(LineEnd(script[i + 1..]), 1)
  {
    assert script[i..][1..] == script[i + 1..];
  }

  lemma BlockSteps(script: string, i: nat)
    requires i + 1 < |script|
    ensures BlockEnd(script[i..]) ==
      if script[i] == '*' && script[i + 1] == '/' then Some(2) else Plus(BlockEnd(script[i + 1..]), 1)
  {
    assert script[i..][1..] == script[i + 1..];
  }

  lemma NoEnds(s: string)
    requires |s| < 2
    ensures BlockEnd(s) == None && (s == "" ==> LineEnd(s) == None)
  {
  }

  /** Skips the quotation at `start`, if there is one. */
  method SkipQuote(script: string, start: nat) returns (end: nat, ok: bool)
    requires start < |script|
    ensures ok <==> QuoteMark(script[start])
    ensures ok ==> end == start + Len(First(script[start..]))
  {
    if !QuoteMark(script[start]) {
      return start, false;
    }
    end := QuoteStop(script[start], script, start + 1);
    assert script[start..][1..] == script[start + 1..];
    return end, true;
  }

  /** Where the quotation whose text begins at `from` ends. */
  method QuoteStop(quote: char, script: string, from: nat) returns (stop: nat)
    requires from <= |script| && QuoteMark(quote)
    ensures stop == match QuoteEnd(quote, script[from..]) case None => |script| case Some(n) => from + n
  {
    hide QuoteEnd;
    ghost var whole := QuoteEnd(quote, script[from..]);
    var end := from;
    while end < |script|
      invariant from <= end
      invariant end <= |script| ==> whole == Plus(QuoteEnd(quote, script[end..]), end - from)
      invariant end > |script| ==> whole.None?
    {
      QuoteSteps(quote, script, end);
      if script[end] == '\\' {
        end := end + 1;
      } else if script[end] == quote {
        if end + 1 < |script| && script[end + 1] == quote {
          end := end + 1;
        } else {
          return end + 1;
        }
      }
      end := end + 1;
    }
    NoQuoteEnd(quote);
    return |script|;
  }

  lemma NoQuoteEnd(q: char)
    ensures QuoteEnd(q, "") == None
  {
  }

  /** `QuoteEnd` from one position of a script, in terms of the position after the next character or pair. */
  lemma QuoteSteps(q: char, script: string, i: nat)
    requires i < |script| && QuoteMark(q)
    ensures var pair := script[i] == '\\' || (script[i] == q && i + 1 < |script| && script[i + 1] == q);
      QuoteEnd(q, script[i..]) ==
        if pair then (if i + 1 == |script| then None else Plus(QuoteEnd(q, script[i + 2..]), 2))
        else if script[i] == q then Some(1)
        else Plus(QuoteEnd(q, script[i + 1..]), 1)
  {
    var rest := script[i..];
    assert rest[1..] == script[i + 1..];
    if i + 1 < |script| {
      assert rest[2..] == script[i + 2..];
    }
  }

  /** The word after the blanks a text begins with, in upper case; empty when something else follows. */
  function WordAhead(s: string): string {
    if s == "" then ""
    else if Blank(s[0]) then WordAhead(s[1..])
    else if IdentifierStart(s[0]) then Upper(s[..WordEnd(s)])
    else ""
  }

  method ReadWord(script: string, start: nat) returns (end: nat)
    requires start < |script| && IdentifierStart(script[start])
    ensures end == start + WordEnd(script[start..])
    ensures script[start..end] == script[start..][..end - start]
  {
    end := start + 1;
    while end < |script| && IdentifierPart(script[end])
      invariant start < end <= |script|
      invariant WordEnd(script[start..]) == end - start + WordEnd(script[end..])
    {
      end := end + 1;
    }
  }

  method NextWord(script: string, from: nat) returns (word: string, end: nat)
    requires from <= |script|
    ensures word == WordAhead(script[from..])
  {
    var start := from;
    while start < |script|
      invariant from <= start <= |script|
      invariant WordAhead(script[from..]) == WordAhead(script[start..])
    {
      if Blank(script[start]) {
        start := start + 1;
        continue;
      }
      if !IdentifierStart(script[start]) {
        return "", start;
      }
      end := ReadWord(script, start);
      return Upper(script[start..end]), end;
    }
    return "", start;
  }

  /** The scanner's skip flag: the word ahead qualifies the `END` just read. */
  predicate Skips(s: string, st: State) { st.afterEnd && Control(WordAhead(s)) }

  /** Peeking at the word after `END` agrees with remembering the `END`. */
  lemma SkipFlagAgrees(s: string, st: State)
    requires s != ""
    ensures First(s).Word? ==> Skips(s, st) == (st.afterEnd && Control(First(s).word))
    ensures !First(s).Word? ==> Skips(s[Len(First(s))..], Next(st, First(s))) == Skips(s, st)
  {
  }

  lemma DropDrop(s: string, i: nat, n: nat)
    requires i + n <= |s|
    ensures s[i..][n..] == s[i + n..]
  {
  }

  lemma CutSkips(s: string, st: State)
    requires s != "" && !Cuts(st, First(s))
    ensures Cut(s, st) == Len(First(s)) + Cut(s[Len(First(s))..], Next(st, First(s)))
  {
  }

  /** One token that does not cut moves the scan on; `cut` is where the next cut will be. */
  lemma ScanOn(script: string, i: nat, st: State, cut: nat)
    requires i < |script| && !Cuts(st, First(script[i..]))
    requires cut == i + Cut(script[i..], st)
    ensures i + Len(First(script[i..])) <= |script|
    ensures cut == i + Len(First(script[i..])) + Cut(script[i + Len(First(script[i..]))..], Next(st, First(script[i..])))
  {
    CutSkips(script[i..], st);
    DropDrop(script, i, Len(First(script[i..])));
  }

  /** The scanner at `i` agrees with the reference in state `st`, whose next cut is at `cut`. */
  ghost predicate Tracks(script: string, i: nat, depth: nat, skip: bool, st: State, cut: nat) {
    i <= |script| && cut == i + Cut(script[i..], st) && depth == st.depth && skip == Skips(script[i..], st)
  }

  lemma Starting(script: string, i: nat)
    requires i <= |script|
    ensures Tracks(script, i, 0, false, START, i + Cut(script[i..], START))
  {
  }

  /** A token that is neither a word nor a cut changes neither the depth nor the skip flag. */
  lemma PassOver(script: string, i: nat, depth: nat, skip: bool, st: State, cut: nat)
    requires i < |script| && Tracks(script, i, depth, skip, st, cut)
    requires !First(script[i..]).Word? && !(depth == 0 && First(script[i..]).Semicolon?)
    ensures Tracks(script, i + Len(First(script[i..])), depth, skip, Next(st, First(script[i..])), cut)
  {
    SkipFlagAgrees(script[i..], st);
    ScanOn(script, i, st, cut);
    DropDrop(script, i, Len(First(script[i..])));
  }

  /** At a cut the segment is complete and the scan starts afresh. */
  lemma CutHere(script: string, start: nat, i: nat, skip: bool, st: State, cut: nat)
    requires start <= i < |script| && Tracks(script, i, 0, skip, st, cut) && script[i] == ';'
    requires cut == start + Cut(script[start..], START)
    ensures !skip
    ensures Split(script[start..]) == Kept(script[start..i]) + Split(script[i + 1..])
  {
    hide Cut, Split, Kept;
    NoTextBeforeCut(script[i..], st);
    SplitAtCut(script[start..]);
    assert script[start..][..i - start] == script[start..i];
    DropDrop(script, start, i - start + 1);
  }

  lemma NoTextBeforeCut(s: string, st: State)
    requires s != "" && s[0] == ';' && st.depth == 0
    ensures Cut(s, st) == 0 && !Skips(s, st)
  {
  }

  lemma SplitAtCut(s: string)
    requires Cut(s, START) < |s|
    ensures Split(s) == Kept(s[..Cut(s, START)]) + Split(s[Cut(s, START) + 1..])
  {
    hide Cut;
    var c := Cut(s, START);
    assert ([s[..c]] + Segments(s[c + 1..]))[1..] == Segments(s[c + 1..]);
  }

  /** The scan is over: the rest of the script is its last segment. */
  lemma LastSegment(script: string, start: nat, depth: nat, skip: bool, st: State, cut: nat)
    requires start <= |script| && Tracks(script, |script|, depth, skip, st, cut)
    requires cut == start + Cut(script[start..], START)
    ensures Split(script[start..]) == Kept(script[start..])
  {
    assert Segments(script[start..]) == [script[start..]];
    assert Statements([script[start..]][1..]) == [];
  }

  /** Skips the comment or quotation at `start`, if there is one. */
  method SkipGap(script: string, start: nat) returns (end: nat, ok: bool)
    requires start < |script|
    ensures ok <==> First(script[start..]).Gap?
    ensures ok ==> end == start + Len(First(script[start..]))
    ensures !ok && IdentifierStart(script[start]) ==>
      First(script[start..]) == Word(Upper(script[start..][..WordEnd(script[start..])]))
    ensures !ok && !IdentifierStart(script[start]) ==>
      First(script[start..]) == if script[start] == ';' then Semicolon else Other(script[start])
  {
    end, ok := SkipComment(script, start);
    if !ok {
      end, ok := SkipQuote(script, start);
    }
  }

  /** A word's effect on the depth and on the skip flag. */
  method CountWord(script: string, end: nat, word: string, depth: nat, skip: bool, ghost st: State)
    returns (depth': nat, skip': bool)
    requires end <= |script| && depth == st.depth
    requires skip == (st.afterEnd && Control(word))
    ensures depth' == Next(st, Word(word)).depth
    ensures skip' == Skips(script[end..], Next(st, Word(word)))
  {
    depth', skip' := depth, skip;
    if skip {
      skip' := false;
    } else if word == "BEGIN" {
      depth' := depth + 1;
    } else if Control(word) {
      if depth > 0 {
        depth' := depth + 1;
      }
    } else if word == "END" {
      depth' := if depth > 0 then depth - 1 else 0;
      var next, _ := NextWord(script, end);
      if Control(next) {
        skip' := true;
      }
    }
  }

  method PassWord(script: string, i: nat, depth: nat, skip: bool, ghost st: State, ghost cut: nat)
    returns (end: nat, depth': nat, skip': bool)
    requires i < |script| && Tracks(script, i, depth, skip, st, cut) && IdentifierStart(script[i])
    ensures end == i + Len(First(script[i..]))
    ensures Tracks(script, end, depth', skip', Next(st, First(script[i..])), cut)
  {
    hide Cut, Next, Upper, WordEnd;
    end := ReadWord(script, i);
    var word := Upper(script[i..end]);
    SkipFlagAgrees(script[i..], st);
    ScanOn(script, i, st, cut);
    depth', skip' := CountWord(script, end, word, depth, skip, st);
  }

  method SplitStatements(script: string) returns (statements: seq<string>)
    ensures statements == Split(script)
  {
    hide Tracks, Cut, First, Next, Split, Trim;
    statements := [];
    var start, i, compoundDepth, skip := 0, 0, 0, false;
    ghost var st, cut: nat := START, Cut(script, START);
    assert script[0..] == script;
    Starting(script, 0);
    while i < |script|
      invariant start <= i <= |script|
      invariant Tracks(script, i, compoundDepth, skip, st, cut)
      invariant cut == start + Cut(script[start..], START)
      invariant statements + Split(script[start..]) == Split(script)
    {
      ghost var next := Next(st, First(script[i..]));
      var end, ok := SkipGap(script, i);
      if ok {
        PassOver(script, i, compoundDepth, skip, st, cut);
        i, st := end, next;
      } else if IdentifierStart(script[i]) {
        i, compoundDepth, skip := PassWord(script, i, compoundDepth, skip, st, cut);
        st := next;
      } else if script[i] == ';' && compoundDepth == 0 {
        CutHere(script, start, i, skip, st, cut);
        var statement := Trim(script[start..i]);
        if statement != "" {
          statements := statements + [statement];
        }
        i := i + 1;
        start := i;
        st, cut := START, i + Cut(script[i..], START);
        Starting(script, i);
      } else {
        PassOver(script, i, compoundDepth, skip, st, cut);
        i, st := i + 1, next;
      }
    }
    LastSegment(script, start, compoundDepth, skip, st, cut);
    var statement := Trim(script[start..]);
    if statement != "" {
      statements := statements + [statement];
    }
  }
}
