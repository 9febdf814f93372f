/** Decimal numerals, as `strconv` writes and reads them. */
module Decimals {
  import opened Options

  /** `strconv.Itoa` of a count. */
  function Decimal(n: nat): (r: string)
    ensures r != ""
  {
    if n < 10 then ['0' + n as char] else Decimal(n / 10) + ['0' + (n % 10) as char]
  }

  predicate IsDecimal(c: char) { '0' <= c <= '9' }

  /** Digits without a superfluous leading zero. */
  predicate Canonical(s: string) {
    s != "" && (forall i | 0 <= i < |s| :: IsDecimal(s[i])) && (s[0] == '0' ==> |s| == 1)
  }

  function Count(s: string): nat
    requires forall i | 0 <= i < |s| :: IsDecimal(s[i])
  {
    if s == "" then 0 else assert IsDecimal(s[|s| - 1]); Count(s[..|s| - 1]) * 10 + (s[|s| - 1] - '0') as nat
  }

  lemma {:induction false} CountDecimal(n: nat)
    ensures Canonical(Decimal(n)) && Count(Decimal(n)) == n
    ensures Decimal(n)[0] == '0' ==> n == 0
  {
    if n < 10 {
      assert Count(Decimal(n)[..0]) == 0;
    } else {
      CountDecimal(n / 10);
      assert Decimal(n)[..|Decimal(n)| - 1] == Decimal(n / 10);
    }
  }

  lemma {:induction false} DecimalCount(s: string)
    requires Canonical(s)
    ensures Decimal(Count(s)) == s
    ensures |s| > 1 ==> Count(s) >= 10
  {
    var front, d := s[..|s| - 1], (s[|s| - 1] - '0') as nat;
    assert s == front + ['0' + d as char];
    if |s| == 1 {
      assert Count(front) == 0;
    } else {
      DecimalCount(front);
      assert Count(front) != 0 by {
        if |front| == 1 {
          assert Count(front) == Count("") * 10 + (front[0] - '0') as nat by { assert front[..0] == ""; }
        }
      }
      assert Count(s) / 10 == Count(front) && Count(s) % 10 == d;
    }
  }

  /** `strconv.FormatInt` in base 10. */
  function FormatInt(x: int): string { if x < 0 then "-" + Decimal(-x) else Decimal(x) }

  const MIN_INT64 := -0x8000_0000_0000_0000
  const MAX_INT64 := 0x7fff_ffff_ffff_ffff

  predicate AllDecimal(s: string) { forall i | 0 <= i < |s| :: IsDecimal(s[i]) }

  /** `strconv.ParseInt` in base 10 to 64 bits: an optional sign and digits, leading zeros included. */
  function ParseInt(s: string): Option<int> {
    var signed := s != "" && (s[0] == '-' || s[0] == '+');
    var digits := if signed then s[1..] else s;
    if digits == "" || !AllDecimal(digits) then None
    else
      var x: int := if signed && s[0] == '-' then 0 - Count(digits) else Count(digits);
      if MIN_INT64 <= x <= MAX_INT64 then Some(x) else None
  }

  /** Reading what was written gives the number back. */
  lemma ParseFormatted(x: int)
    requires MIN_INT64 <= x <= MAX_INT64
    ensures ParseInt(FormatInt(x)) == Some(x)
  {
    var n := if x < 0 then -x else x;
    CountDecimal(n);
    if x < 0 {
      assert FormatInt(x)[1..] == Decimal(n);
    } else {
      assert IsDecimal(Decimal(n)[0]);
    }
  }
}
