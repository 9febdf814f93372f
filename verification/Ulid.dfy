/**
 Tenant identifiers: `t_` followed by the 26 Crockford base-32 digits of a 128-bit value whose
 leading 48 bits are a millisecond timestamp, as in the Canonical String Representation section of
 the ULID specification.
 */
module Ulid {
  import opened Options

  type byte = x: int | 0 <= x < 256

  function Pow(base: nat, n: nat): nat {
    if n == 0 then 1 else base * Pow(base, n - 1)
  }

  // ---------------------------------------------------------------------------------------------
  // The alphabet 0123456789ABCDEFGHJKMNPQRSTVWXYZ
  // ---------------------------------------------------------------------------------------------

  /** The digit `d`: the decimal digits, then the capital letters without I, L, O and U. */
  function Symbol(d: nat): char
    requires d < 32
  {
    if d < 10 then '0' + d as char
    else if d < 18 then 'A' + (d - 10) as char
    else if d < 20 then 'J' + (d - 18) as char
    else if d < 22 then 'M' + (d - 20) as char
    else if d < 27 then 'P' + (d - 22) as char
    else 'V' + (d - 27) as char
  }

  /** The value of a digit, or 32 for a character outside the alphabet. */
  function DigitOf(c: char): nat {
    if '0' <= c <= '9' then (c - '0') as nat
    else if 'A' <= c <= 'H' then (c - 'A') as nat + 10
    else if 'J' <= c <= 'K' then (c - 'J') as nat + 18
    else if 'M' <= c <= 'N' then (c - 'M') as nat + 20
    else if 'P' <= c <= 'T' then (c - 'P') as nat + 22
    else if 'V' <= c <= 'Z' then (c - 'V') as nat + 27
    else 32
  }

  predicate IsDigit(c: char) { DigitOf(c) < 32 }

  lemma SymbolsAndDigits(d: nat, c: char)
    requires d < 32
    ensures DigitOf(Symbol(d)) == d
    ensures IsDigit(c) ==> Symbol(DigitOf(c)) == c
    ensures IsDigit(c) ==> (c <= '7' <==> DigitOf(c) < 8)
  {
  }

  lemma SymbolsAreOrdered(i: nat, j: nat)
    requires i < 32 && j < 32
    ensures Symbol(i) < Symbol(j) <==> i < j
    ensures Symbol(i) == Symbol(j) <==> i == j
  {
  }

  // ---------------------------------------------------------------------------------------------
  // Numbers as bytes and as digits
  // ---------------------------------------------------------------------------------------------

  /** The number written by big-endian bytes, as `big.Int.SetBytes` reads them. */
  function FromBytes(bytes: seq<byte>): nat {
    if bytes == [] then 0 else FromBytes(bytes[..|bytes| - 1]) * 256 + bytes[|bytes| - 1]
  }

  /** The last `n` base-32 digits of `v`, most significant first. */
  function Text(v: nat, n: nat): (r: string)
    ensures |r| == n
    decreases n
  {
    if n == 0 then "" else Text(v / 32, n - 1) + [Symbol(v % 32)]
  }

  predicate AllDigits(text: string) { forall i | 0 <= i < |text| :: IsDigit(text[i]) }

  /** The number written by base-32 digits. */
  function Decode(text: string): nat
    requires AllDigits(text)
  {
    if text == "" then 0 else Decode(text[..|text| - 1]) * 32 + DigitOf(text[|text| - 1])
  }

  /** `validateTenantID`. */
  predicate ValidTenantId(id: string) {
    |id| == 28 && id[..2] == "t_" && id[2] <= '7' && AllDigits(id[2..])
  }

  lemma {:induction false} BytesBound(bytes: seq<byte>)
    ensures FromBytes(bytes) < Pow(256, |bytes|)
  {
    if bytes != [] {
      BytesBound(bytes[..|bytes| - 1]);
    }
  }

  lemma {:induction false} BytesAppend(a: seq<byte>, b: seq<byte>)
    ensures FromBytes(a + b) == FromBytes(a) * Pow(256, |b|) + FromBytes(b)
    decreases |b|
  {
    if b == [] {
      assert a + b == a;
    } else {
      var front, last := b[..|b| - 1], b[|b| - 1];
      assert (a + b)[..|a + b| - 1] == a + front;
      BytesAppend(a, front);
      assert FromBytes(a) * Pow(256, |front|) * 256 == FromBytes(a) * Pow(256, |b|);
    }
  }

  /** Reading the text of a number gives the number back. */
  lemma {:induction false} DecodeText(v: nat, n: nat)
    requires v < Pow(32, n)
    ensures AllDigits(Text(v, n)) && Decode(Text(v, n)) == v
    decreases n
  {
    if n > 0 {
      DecodeText(v / 32, n - 1);
      SymbolsAndDigits(v % 32, '0');
      assert Text(v, n)[..n - 1] == Text(v / 32, n - 1);
    }
  }

  /** Writing the number a text stands for gives the text back. */
  lemma {:induction false} TextDecode(text: string)
    requires AllDigits(text)
    ensures Decode(text) < Pow(32, |text|)
    ensures Text(Decode(text), |text|) == text
  {
    if text != "" {
      var front, last := text[..|text| - 1], text[|text| - 1];
      TextDecode(front);
      SymbolsAndDigits(0, last);
      assert Decode(text) / 32 == Decode(front) && Decode(text) % 32 == DigitOf(last);
      assert text == front + [last];
    }
  }

  /** The leading digit counts the multiples of the weight it stands at. */
  lemma {:induction false} LeadingDigit(text: string)
    requires text != "" && AllDigits(text)
    ensures DigitOf(text[0]) * Pow(32, |text| - 1) <= Decode(text)
    ensures Decode(text) < (DigitOf(text[0]) + 1) * Pow(32, |text| - 1)
  {
    var d := DigitOf(text[0]);
    if |text| == 1 {
      assert Decode(text[..0]) == 0;
    } else {
      var front, last, p := text[..|text| - 1], text[|text| - 1], Pow(32, |text| - 2);
      LeadingDigit(front);
      AnotherDigit(d, Decode(front), DigitOf(last), p);
    }
  }

  lemma AnotherDigit(d: nat, a: nat, last: nat, p: nat)
    requires d * p <= a < (d + 1) * p && last < 32
    ensures d * (32 * p) <= a * 32 + last < (d + 1) * (32 * p)
  {
    assert d * (32 * p) == 32 * (d * p) && (d + 1) * (32 * p) == 32 * ((d + 1) * p);
  }

  lemma BelowEight(d: nat, a: nat, p: nat)
    requires d * p <= a < (d + 1) * p
    ensures a < 8 * p <==> d < 8
  {
    if d < 8 {
      assert (d + 1) * p <= 8 * p;
    } else {
      assert 8 * p <= d * p;
    }
  }

  // ---------------------------------------------------------------------------------------------
  // Order
  // ---------------------------------------------------------------------------------------------

  /** `a` comes before `b` among strings of one length: they differ first at some `i`, and `a` is lower there. */
  ghost predicate Precedes(a: string, b: string)
    requires |a| == |b|
  {
    exists i | 0 <= i < |a| :: a[..i] == b[..i] && a[i] < b[i]
  }

  lemma PrecedesByLast(a: string, b: string, x: char, y: char)
    requires |a| == |b|
    ensures Precedes(a + [x], b + [y]) <==> Precedes(a, b) || (a == b && x < y)
  {
    var a', b' := a + [x], b + [y];
    if Precedes(a', b') {
      var i :| 0 <= i < |a'| && a'[..i] == b'[..i] && a'[i] < b'[i];
      if i < |a| {
        assert a[..i] == a'[..i] && b[..i] == b'[..i];
      } else {
        assert a'[..i] == a && b'[..i] == b;
      }
    }
    if Precedes(a, b) {
      var i :| 0 <= i < |a| && a[..i] == b[..i] && a[i] < b[i];
      assert a'[..i] == a[..i] && b'[..i] == b[..i];
    }
    if a == b && x < y {
      assert a'[..|a|] == b'[..|a|];
    }
  }

  lemma TextIsInjective(v: nat, w: nat, n: nat)
    requires v < Pow(32, n) && w < Pow(32, n)
    ensures Text(v, n) == Text(w, n) <==> v == w
  {
    hide Text, Decode;
    DecodeText(v, n);
    DecodeText(w, n);
  }

  /** Texts sort as the numbers they stand for. */
  lemma {:induction false} TextIsOrdered(v: nat, w: nat, n: nat)
    requires v < Pow(32, n) && w < Pow(32, n)
    ensures Precedes(Text(v, n), Text(w, n)) <==> v < w
    decreases n
  {
    if n > 0 {
      hide Precedes, Symbol;
      var v', w' := v / 32, w / 32;
      assert v' < Pow(32, n - 1) && w' < Pow(32, n - 1);
      TextIsOrdered(v', w', n - 1);
      TextIsInjective(v', w', n - 1);
      PrecedesByLast(Text(v', n - 1), Text(w', n - 1), Symbol(v % 32), Symbol(w % 32));
      SymbolsAreOrdered(v % 32, w % 32);
    }
  }

  // ---------------------------------------------------------------------------------------------
  // Tenant identifiers
  // ---------------------------------------------------------------------------------------------

  lemma SixteenBytes()
    ensures Pow(256, 16) == 8 * Pow(32, 25)
    ensures Pow(256, 16) <= Pow(32, 26)
  {
    assert Pow(256, 4) == 0x100000000;
    assert Pow(256, 8) == 0x10000000000000000;
    assert Pow(256, 12) == 0x1000000000000000000000000;
    assert Pow(256, 16) == 0x1_0000_0000_0000_0000_0000_0000_0000_0000;
    assert Pow(32, 5) == 0x2000000;
    assert Pow(32, 10) == 0x4000000000000;
    assert Pow(32, 15) == 0x8000000000000000000;
    assert Pow(32, 20) == 0x10000000000000000000000000;
    assert Pow(32, 25) == 0x2000_0000_0000_0000_0000_0000_0000_0000;
    assert Pow(32, 26) == 32 * Pow(32, 25);
  }

  /** The fixed padding rule is exactly the 128-bit bound. */
  lemma PaddingIsTheBound(text: string)
    requires |text| == 26 && AllDigits(text)
    ensures text[0] <= '7' <==> Decode(text) < Pow(256, 16)
  {
    SixteenBytes();
    LeadingDigit(text);
    SymbolsAndDigits(0, text[0]);
    BelowEight(DigitOf(text[0]), Decode(text), Pow(32, 25));
  }

  /** The identifier of a 128-bit value. */
  function TenantId(v: nat): string { "t_" + Text(v, 26) }

  /** Every 128-bit value has a valid identifier, and the identifier gives the value back. */
  lemma ValueSurvives(v: nat)
    requires v < Pow(256, 16)
    ensures ValidTenantId(TenantId(v))
    ensures Decode(TenantId(v)[2..]) == v
  {
    SixteenBytes();
    DecodeText(v, 26);
    var id, text := TenantId(v), Text(v, 26);
    assert id[2..] == text;
    PaddingIsTheBound(text);
  }

  /** Every valid identifier is the identifier of exactly one 128-bit value. */
  lemma ValidIdentifiersAreValues(id: string)
    requires ValidTenantId(id)
    ensures Decode(id[2..]) < Pow(256, 16)
    ensures TenantId(Decode(id[2..])) == id
  {
    var text := id[2..];
    TextDecode(text);
    PaddingIsTheBound(text);
    assert id == "t_" + text;
  }

  /** Identifiers sort as their values. */
  lemma IdentifiersAreOrdered(v: nat, w: nat)
    requires v < Pow(256, 16) && w < Pow(256, 16)
    ensures Precedes(TenantId(v), TenantId(w)) <==> v < w
  {
    SixteenBytes();
    TextIsOrdered(v, w, 26);
    PrecedesAfterPrefix("t_", Text(v, 26), Text(w, 26));
  }

  lemma PrecedesAfterPrefix(p: string, a: string, b: string)
    requires |a| == |b|
    ensures Precedes(p + a, p + b) <==> Precedes(a, b)
  {
    if Precedes(p + a, p + b) {
      var i :| 0 <= i < |p + a| && (p + a)[..i] == (p + b)[..i] && (p + a)[i] < (p + b)[i];
      assert a[..i - |p|] == (p + a)[..i][|p|..] && b[..i - |p|] == (p + b)[..i][|p|..];
    }
    if Precedes(a, b) {
      var i :| 0 <= i < |a| && a[..i] == b[..i] && a[i] < b[i];
      assert (p + a)[..|p| + i] == p + a[..i] && (p + b)[..|p| + i] == p + b[..i];
      assert (p + a)[|p| + i] == a[i] && (p + b)[|p| + i] == b[i];
    }
  }

  /** The value of a timestamp and ten random bytes. */
  function Stamped(ms: nat, random: seq<byte>): nat
    requires |random| == 10
  {
    ms * Pow(256, 10) + FromBytes(random)
  }

  /** An identifier made in an earlier millisecond sorts first, whatever the random bytes. */
  lemma EarlierSortsFirst(ms: nat, random: seq<byte>, ms': nat, random': seq<byte>)
    requires |random| == |random'| == 10
    requires ms < ms' < Pow(256, 6)
    ensures Precedes(TenantId(Stamped(ms, random)), TenantId(Stamped(ms', random')))
  {
    BytesBound(random);
    BytesBound(random');
    var p := Pow(256, 10);
    assert Pow(256, 6) * p == Pow(256, 16);
    assert (ms + 1) * p <= ms' * p;
    assert (ms' + 1) * p <= Pow(256, 6) * p;
    IdentifiersAreOrdered(Stamped(ms, random), Stamped(ms', random'));
  }

  /** One byte moved from the number to the front of the bytes keeps the value of the two. */
  lemma LastByteMoves(rest: int, tail: seq<byte>)
    ensures FromBytes([rest % 256] + tail) + (rest / 256) * Pow(256, |tail| + 1) == FromBytes(tail) + rest * Pow(256, |tail|)
  {
    BytesAppend([rest % 256], tail);
    assert FromBytes([rest % 256]) == rest % 256 by { assert FromBytes([rest % 256][..0]) == 0; }
    assert Pow(256, |tail| + 1) == 256 * Pow(256, |tail|);
    MovedByte(rest, Pow(256, |tail|));
  }

  lemma NoBytes()
    ensures FromBytes([]) == 0 && Pow(256, 0) == 1
  {
  }

  lemma MovedByte(rest: int, p: int)
    ensures rest * p == (rest / 256) * (256 * p) + (rest % 256) * p
  {
    assert rest == 256 * (rest / 256) + rest % 256;
    assert (256 * (rest / 256)) * p == (rest / 256) * (256 * p);
  }

  lemma SixBytes()
    ensures Pow(256, 6) == 0x1_0000_0000_0000
  {
  }

  /** The last six bytes of a millisecond count, written from the end as the loop does. */
  method WriteTimestamp(data: array<byte>, ms: int)
    requires data.Length == 16
    modifies data
    ensures FromBytes(data[..6]) == ms % Pow(256, 6)
    ensures data[6..] == old(data[6..])
  {
    hide FromBytes, Pow;
    var rest, i := ms, 6;
    assert data[6..6] == [];
    NoBytes();
    while i > 0
      invariant 0 <= i <= 6
      invariant FromBytes(data[i..6]) + rest * Pow(256, 6 - i) == ms
      invariant data[6..] == old(data[6..])
    {
      ghost var tail := data[i..6];
      i := i - 1;
      data[i] := rest % 256;
      assert data[i..6] == [rest % 256] + tail;
      LastByteMoves(rest, tail);
      rest := rest / 256;
    }
    BytesBound(data[..6]);
    SixBytes();
  }

  /** The 26 digits of `v`, written from the end as the loop does. */
  method EncodeDigits(v: nat) returns (text: string)
    ensures text == Text(v, 26)
  {
    var encoded := new char[26];
    var value, i := v, 26;
    while i > 0
      invariant 0 <= i <= 26
      invariant Text(value, i) + encoded[i..] == Text(v, 26)
    {
      ghost var tail := encoded[i..];
      i := i - 1;
      encoded[i] := Symbol(value % 32);
      assert encoded[i..] == [Symbol(value % 32)] + tail;
      value := value / 32;
    }
    text := encoded[..];
  }

  /** `newTenantID` at clock reading `now`, with the ten bytes the random source returned, if it did. */
  method NewTenantId(now: int, drawn: Option<seq<byte>>) returns (id: Option<string>)
    requires drawn.Some? ==> |drawn.value| == 10
    ensures id.Some? <==> drawn.Some?
    ensures drawn.Some? ==>
      && id.value == TenantId(Stamped(now % Pow(256, 6), drawn.value))
      && ValidTenantId(id.value) && Decode(id.value[2..]) == Stamped(now % Pow(256, 6), drawn.value)
  {
    hide Pow, FromBytes, Text, Decode, AllDigits;
    var data := new byte[16];
    WriteTimestamp(data, now);
    if drawn.None? {
      return None;
    }
    var random := drawn.value;
    ghost var stamp := data[..6];
    for i := 0 to 10
      invariant data[..6] == stamp && data[6..6 + i] == random[..i]
    {
      data[6 + i] := random[i];
    }
    assert data[6..] == random[..10] == random;
    assert data[..] == data[..6] + data[6..];
    BytesAppend(stamp, random);
    BytesBound(data[..]);
    ValueSurvives(FromBytes(data[..]));
    var text := EncodeDigits(FromBytes(data[..]));
    return Some("t_" + text);
  }
}
