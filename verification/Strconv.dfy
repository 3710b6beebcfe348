/** The parts of Go's `strconv` and `strings` that the scheduler relies on:
    base-10 `FormatInt` and `ParseInt` at 64 bits, `HasPrefix` and `TrimPrefix`. */
module Strconv {
  import opened Options

  const MAX_INT64: int := 0x7fff_ffff_ffff_ffff
  const MIN_INT64: int := -0x8000_0000_0000_0000

  predicate IsInt64(n: int) { MIN_INT64 <= n <= MAX_INT64 }

  function DigitChar(d: nat): char
    requires d < 10
  {
    '0' + d as char
  }

  predicate IsDigit(c: char) { '0' <= c <= '9' }

  function DigitValue(c: char): nat
    requires IsDigit(c)
  {
    (c - '0') as nat
  }

  function FormatNat(n: nat): (s: string)
    ensures s != []
    ensures forall c :: c in s ==> IsDigit(c)
  {
    if n < 10 then [DigitChar(n)] else FormatNat(n / 10) + [DigitChar(n % 10)]
  }

  function FormatInt(n: int): string {
    if n < 0 then "-" + FormatNat(-n) else FormatNat(n)
  }

  /** The value of a string of digits; no value once any other character occurs. */
  function ParseDigits(s: string): Option<nat> {
    if s == [] then Some(0)
    else
      var last := s[|s| - 1];
      var front := ParseDigits(s[..|s| - 1]);
      if front.Some? && IsDigit(last) then Some(10 * front.value + DigitValue(last)) else None
  }

  /** `strconv.ParseInt(s, 10, 0)`: one optional sign, at least one digit, and a
      result that fits 64 bits. */
  function ParseInt(s: string): (r: Option<int>)
    ensures r.Some? ==> IsInt64(r.value)
  {
    var signed := s != [] && (s[0] == '-' || s[0] == '+');
    var digits := if signed then s[1..] else s;
    var magnitude := ParseDigits(digits);
    if digits == [] || magnitude.None? then None
    else
      var n: int := if signed && s[0] == '-' then -(magnitude.value as int) else magnitude.value as int;
      if IsInt64(n) then Some(n) else None
  }

  predicate HasPrefix(s: string, prefix: string) { prefix <= s }

  function TrimPrefix(s: string, prefix: string): string {
    if HasPrefix(s, prefix) then s[|prefix|..] else s
  }

  lemma {:induction false} ParseDigitsFormatNat(n: nat)
    ensures ParseDigits(FormatNat(n)) == Some(n)
  {
    var s := FormatNat(n);
    if n < 10 {
      assert s[..|s| - 1] == [];
    } else {
      ParseDigitsFormatNat(n / 10);
      assert s[..|s| - 1] == FormatNat(n / 10);
    }
  }

  /** Formatting and parsing back returns the number, for exactly the 64-bit integers. */
  lemma ParseFormat(n: int)
    ensures ParseInt(FormatInt(n)) == if IsInt64(n) then Some(n) else None
  {
    FormatIntSign(n);
    if n < 0 {
      ParseDigitsFormatNat(-n);
      assert FormatInt(n)[1..] == FormatNat(-n);
    } else {
      ParseDigitsFormatNat(n);
      assert IsDigit(FormatNat(n)[0]) by { assert FormatNat(n)[0] in FormatNat(n); }
    }
  }

  lemma FormatIntSign(n: int)
    ensures FormatInt(n) != [] && (FormatInt(n)[0] == '-' <==> n < 0)
  {
    if n >= 0 {
      assert FormatNat(n)[0] in FormatNat(n);
    }
  }

  /** Two integers with the same text are equal: a board's resource name is its own. */
  lemma FormatIntInjective(m: int, n: int)
    requires FormatInt(m) == FormatInt(n)
    ensures m == n
  {
    FormatIntSign(m);
    FormatIntSign(n);
    if m < 0 {
      ParseDigitsFormatNat(-m);
      ParseDigitsFormatNat(-n);
      assert FormatInt(m)[1..] == FormatNat(-m) && FormatInt(n)[1..] == FormatNat(-n);
    } else {
      ParseDigitsFormatNat(m);
      ParseDigitsFormatNat(n);
    }
  }

  // ----- What is read

  function Power10(k: nat): (p: nat)
    ensures p > 0
  {
    if k == 0 then 1 else 10 * Power10(k - 1)
  }

  lemma Shifted(p: nat, x: nat, y: nat, d: nat)
    ensures 10 * (p * x + y) + d == (10 * p) * x + (10 * y + d)
  {
  }

  /** Only digits have a value, and a string of them is read in positional notation. */
  lemma {:induction false} DigitsConcat(a: string, b: string)
    ensures var x, y := ParseDigits(a), ParseDigits(b);
            ParseDigits(a + b) == if x.Some? && y.Some? then Some(Power10(|b|) * x.value + y.value) else None
  {
    if b == [] {
      assert a + b == a;
    } else {
      var front, last := b[..|b| - 1], b[|b| - 1];
      DigitsConcat(a, front);
      assert (a + b)[..|a + b| - 1] == a + front && (a + b)[|a + b| - 1] == last;
      if ParseDigits(a).Some? && ParseDigits(front).Some? && IsDigit(last) {
        Shifted(Power10(|front|), ParseDigits(a).value, ParseDigits(front).value, DigitValue(last));
      }
    }
  }

  lemma {:induction false} OnlyDigits(s: string)
    ensures ParseDigits(s).Some? <==> forall i :: 0 <= i < |s| ==> '0' <= s[i] <= '9'
  {
    if s != [] {
      var front := s[..|s| - 1];
      OnlyDigits(front);
      assert forall i :: 0 <= i < |front| ==> front[i] == s[i];
      if forall i :: 0 <= i < |s| ==> '0' <= s[i] <= '9' {
        assert IsDigit(s[|s| - 1]);
      }
    }
  }

  lemma OneDigit(c: char)
    requires '0' <= c <= '9'
    ensures ParseDigits([c]) == Some((c - '0') as nat)
  {
    assert [c][..0] == "";
  }

  /** The text is the digits with at most one sign before them, and `v` is their value. */
  ghost predicate Spells(s: string, digits: string, v: nat, n: int) {
    && digits != [] && ParseDigits(digits) == Some(v)
    && ((s == digits && n == v) || (s == "+" + digits && n == v) || (s == "-" + digits && n + v == 0))
  }

  /** A number is read exactly from its digits with an optional sign, if it has 64 bits. */
  lemma ParseExactly(s: string, n: int)
    ensures ParseInt(s) == Some(n) <==> IsInt64(n) && exists digits, v :: Spells(s, digits, v, n)
  {
    var signed := s != [] && (s[0] == '-' || s[0] == '+');
    var digits := if signed then s[1..] else s;
    if signed { assert s == [s[0]] + digits; }
    if ParseInt(s) == Some(n) {
      assert Spells(s, digits, ParseDigits(digits).value, n);
    }
    if d, v :| Spells(s, d, v, n) {
      OnlyDigits(d);
      assert d == digits;
    }
  }

  /** What is written has no plus sign and no leading zeros. */
  lemma {:induction false} FormatNatCanonical(n: nat)
    ensures FormatNat(n)[0] == '0' <==> n == 0
    ensures n == 0 ==> FormatNat(n) == "0"
  {
    if n >= 10 {
      FormatNatCanonical(n / 10);
    }
  }

  lemma FormatIsCanonical(n: int)
    ensures var s := FormatInt(n);
            && s != [] && s[0] != '+' && (s[0] == '0' ==> s == "0")
            && (s[0] == '-' ==> |s| > 1 && s[1] != '0')
  {
    FormatIntSign(n);
    FormatNatCanonical(if n < 0 then -n else n);
    assert FormatNat(if n < 0 then -n else n)[0] in FormatNat(if n < 0 then -n else n);
  }
}
