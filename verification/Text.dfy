/** Text as the program treats it: Unicode white space, and the byte order of strings. */
module Text {
  import opened Options

  /** Unicode white space, as `strings.TrimSpace` removes it. */
  predicate Space(c: char) {
    || '\t' <= c <= '\r' || c == ' ' || c == '\U{0085}' || c == '\U{00A0}' || c == '\U{1680}'
    || '\U{2000}' <= c <= '\U{200A}' || c == '\U{2028}' || c == '\U{2029}' || c == '\U{202F}'
    || c == '\U{205F}' || c == '\U{3000}'
  }

  function TrimLeft(s: string): string {
    if s != "" && Space(s[0]) then TrimLeft(s[1..]) else s
  }

  function TrimRight(s: string): string {
    if s != "" && Space(s[|s| - 1]) then TrimRight(s[..|s| - 1]) else s
  }

  function Trim(s: string): string { TrimRight(TrimLeft(s)) }

  /** Trimming removes white space at both ends, all of it, and nothing else. */
  lemma TrimRemovesSpace(s: string)
    ensures exists l, r :: s == l + Trim(s) + r && AllSpace(l) && AllSpace(r)
    ensures Trim(s) != "" ==> !Space(Trim(s)[0]) && !Space(Trim(s)[|Trim(s)| - 1])
  {
    var l := LeftSpace(s);
    var r := RightSpace(TrimLeft(s));
    assert s == l + Trim(s) + r;
    if Trim(s) != "" {
      assert TrimLeft(s)[0] == Trim(s)[0];
    }
  }

  predicate AllSpace(s: string) { forall i | 0 <= i < |s| :: Space(s[i]) }

  lemma {:induction false} LeftSpace(s: string) returns (l: string)
    ensures s == l + TrimLeft(s) && AllSpace(l)
    ensures TrimLeft(s) != "" ==> !Space(TrimLeft(s)[0])
  {
    l := "";
    if s != "" && Space(s[0]) {
      l := LeftSpace(s[1..]);
      l := [s[0]] + l;
    }
  }

  lemma {:induction false} RightSpace(s: string) returns (r: string)
    ensures s == TrimRight(s) + r && AllSpace(r)
    ensures TrimRight(s) != "" ==> !Space(TrimRight(s)[|TrimRight(s)| - 1])
  {
    r := "";
    if s != "" && Space(s[|s| - 1]) {
      r := RightSpace(s[..|s| - 1]);
      r := r + [s[|s| - 1]];
    }
  }

  lemma TrimIsIdempotent(s: string)
    ensures Trim(Trim(s)) == Trim(s)
  {
    TrimRemovesSpace(s);
  }

  // ---------------------------------------------------------------------------------------------
  // Letters, control characters and bytes
  // ---------------------------------------------------------------------------------------------

  /** The lower case of a code point, where that is an ASCII letter; İ and the Kelvin sign are such cases too. */
  function LowerChar(c: char): char {
    if 'A' <= c <= 'Z' then c - 'A' + 'a'
    else if c == '\U{130}' then 'i'
    else if c == '\U{212A}' then 'k'
    else c
  }

  /** `strings.ToLower`, up to letters whose lower case is not ASCII. */
  function Lower(s: string): (r: string)
    ensures |r| == |s|
    ensures forall i | 0 <= i < |s| :: r[i] == LowerChar(s[i])
  {
    if s == "" then "" else [LowerChar(s[0])] + Lower(s[1..])
  }

  predicate HasControl(s: string) {
    exists i | 0 <= i < |s| :: s[i] < ' ' || '\U{7F}' <= s[i] <= '\U{9F}'
  }

  function CharSize(c: char): nat {
    if c < '\U{80}' then 1 else if c < '\U{800}' then 2 else if c < '\U{10000}' then 3 else 4
  }

  /** The length of a string's UTF-8 encoding. */
  function ByteLength(s: string): nat {
    if s == "" then 0 else CharSize(s[0]) + ByteLength(s[1..])
  }

  /** Lower case keeps control characters where they are and adds no bytes, and lowering again does nothing. */
  lemma {:induction false} LowerKeeps(s: string)
    ensures Lower(Lower(s)) == Lower(s)
    ensures HasControl(Lower(s)) <==> HasControl(s)
    ensures ByteLength(Lower(s)) <= ByteLength(s)
  {
    hide Lower;
    assert Lower(Lower(s)) == Lower(s);
    if s != "" {
      LowerKeeps(s[1..]);
      assert Lower(s)[1..] == Lower(s[1..]);
    }
  }

  lemma LowerKeepsSpace(c: char)
    ensures Space(LowerChar(c)) <==> Space(c)
  {
  }

  lemma TrimmedByItsEnds(s: string)
    requires s != "" ==> !Space(s[0]) && !Space(s[|s| - 1])
    ensures Trim(s) == s
  {
    hide Space;
  }

  lemma LowerKeepsTrimmed(s: string)
    requires Trim(s) == s
    ensures Trim(Lower(s)) == Lower(s)
  {
    hide *;
    TrimRemovesSpace(s);
    if s != "" {
      LowerKeepsSpace(s[0]);
      LowerKeepsSpace(s[|s| - 1]);
    }
    TrimmedByItsEnds(Lower(s));
  }

  // ---------------------------------------------------------------------------------------------
  // Resource keys
  // ---------------------------------------------------------------------------------------------

  predicate KeyChar(c: char) { 'a' <= c <= 'z' || '0' <= c <= '9' || c == '-' }

  /** `[a-z][a-z0-9-]{1,63}` */
  predicate ValidKey(key: string) {
    2 <= |key| <= 64 && 'a' <= key[0] <= 'z' && forall i | 0 <= i < |key| :: KeyChar(key[i])
  }

  /** The key of an App or a profile: trimmed, lowered and well-formed. */
  function NormalizeKey(key: string): Option<string> {
    var k := Lower(Trim(key));
    if ValidKey(k) then Some(k) else None
  }

  lemma KeyCharIsFixed(c: char)
    requires KeyChar(c)
    ensures !Space(c) && LowerChar(c) == c
  {
  }

  lemma NormalKeyIsFixed(key: string)
    ensures ValidKey(key) <==> NormalizeKey(key) == Some(key)
  {
    hide Trim, Lower, LowerChar, Space, KeyChar;
    if ValidKey(key) {
      forall i | 0 <= i < |key| ensures !Space(key[i]) && LowerChar(key[i]) == key[i] {
        KeyCharIsFixed(key[i]);
      }
      TrimmedByItsEnds(key);
      assert Lower(key) == key;
    }
  }

  /** The texts differ at most in the case of ASCII letters. */
  predicate SameButCase(a: string, b: string) {
    |a| == |b| && forall i | 0 <= i < |a| :: SameLetter(a[i], b[i])
  }

  predicate SameLetter(a: char, b: char) {
    a == b || ('a' <= a <= 'z' && a - 'a' + 'A' == b) || ('a' <= b <= 'z' && b - 'a' + 'A' == a)
  }

  lemma SameLetterAlike(a: char, b: char)
    requires SameLetter(a, b)
    ensures LowerChar(a) == LowerChar(b) && (Space(a) <==> Space(b))
  {
  }

  lemma {:induction false} TrimLeftAlike(a: string, b: string)
    requires SameButCase(a, b)
    ensures SameButCase(TrimLeft(a), TrimLeft(b))
  {
    hide Space, SameLetter;
    if a != "" {
      SameLetterAlike(a[0], b[0]);
      TrimLeftAlike(a[1..], b[1..]);
    }
  }

  lemma {:induction false} TrimRightAlike(a: string, b: string)
    requires SameButCase(a, b)
    ensures SameButCase(TrimRight(a), TrimRight(b))
  {
    hide Space, SameLetter;
    if a != "" {
      SameLetterAlike(a[|a| - 1], b[|b| - 1]);
      TrimRightAlike(a[..|a| - 1], b[..|b| - 1]);
    }
  }

  /** Neither the case of its letters nor surrounding space matters to a key. */
  lemma NormalKeyIgnoresCase(a: string, b: string)
    requires SameButCase(Trim(a), Trim(b)) || SameButCase(a, b)
    ensures NormalizeKey(a) == NormalizeKey(b)
  {
    hide LowerChar, SameLetter, TrimLeft, TrimRight, Lower;
    if SameButCase(a, b) {
      TrimLeftAlike(a, b);
      TrimRightAlike(TrimLeft(a), TrimLeft(b));
    }
    var x, y := Trim(a), Trim(b);
    forall i | 0 <= i < |x| ensures LowerChar(x[i]) == LowerChar(y[i]) {
      SameLetterAlike(x[i], y[i]);
    }
    assert Lower(x) == Lower(y);
  }

  // ---------------------------------------------------------------------------------------------
  // Order
  // ---------------------------------------------------------------------------------------------

  /** Go's `<` on strings; the order of UTF-8 bytes is the order of code points. */
  predicate Less(a: string, b: string) {
    b != "" && (a == "" || a[0] < b[0] || (a[0] == b[0] && Less(a[1..], b[1..])))
  }

  lemma {:induction false} LessIsTotal(a: string, b: string)
    ensures !(Less(a, b) && Less(b, a))
    ensures a != b <==> Less(a, b) || Less(b, a)
  {
    if a != "" && b != "" {
      LessIsTotal(a[1..], b[1..]);
      assert a == [a[0]] + a[1..] && b == [b[0]] + b[1..];
    }
  }

  lemma {:induction false} LessIsTransitive(a: string, b: string, c: string)
    requires Less(a, b) && Less(b, c)
    ensures Less(a, c)
  {
    if a != "" && a[0] == b[0] && b[0] == c[0] {
      LessIsTransitive(a[1..], b[1..], c[1..]);
    }
  }
}
