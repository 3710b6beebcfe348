/** `DecimalMap`: a set of orin ids written as a 64-bit number whose decimal digits are the
    set's bits, so that `1101` with start bit 1 means orins 1, 3 and 4. */
module DecimalMaps {
  import opened Options
  import opened Iteration
  import opened Arithmetic
  import Strconv

  const MAX_DIGITS: nat := 19  // the digits of the largest 64-bit integer

  /** All decimal digits are 0 or 1. */
  predicate Binary(v: nat) {
    v == 0 || (v % 10 <= 1 && Binary(v / 10))
  }

  /** The positions of the digits 1, the last digit being position `k`. */
  function Ones(v: nat, k: int): set<int> {
    if v == 0 then {} else (if v % 10 == 1 then {k} else {}) + Ones(v / 10, k + 1)
  }

  function ParseDecimal(v: int, startBit: int): Option<set<int>> {
    if v >= 0 && Binary(v) then Some(Ones(v, startBit)) else None
  }

  /** The number whose digits tell, from the last one up, which of `lo..hi` are in `s`. */
  function DecimalOf(s: set<int>, lo: int, hi: int): nat
    decreases hi - lo
  {
    if lo >= hi then 0 else (if lo in s then 1 else 0) + 10 * DecimalOf(s, lo + 1, hi)
  }

  function Decimal(s: set<int>, startBit: int): nat {
    DecimalOf(s, startBit, startBit + MAX_DIGITS)
  }

  /** `int64(math.Pow10(k))`: exact up to 18; a negative power is a fraction and truncates
      to 0. Larger powers do not fit 64 bits, and Go leaves their conversion open: `huge` is
      what the platform makes of them. */
  function TruncatedPow10(k: int, huge: nat -> int): int {
    if k < 0 then 0 else if k < MAX_DIGITS then Strconv.Power10(k) else huge(k)
  }

  /** The 64-bit sum wraps around. */
  function WrapInt64(n: int): (r: int)
    ensures Strconv.IsInt64(r) && (Strconv.IsInt64(n) ==> r == n)
  {
    (n - Strconv.MIN_INT64) % 0x1_0000_0000_0000_0000 + Strconv.MIN_INT64
  }

  /** No id lies more than 18 above the start bit. */
  ghost predicate InRange(s: set<int>, startBit: int) {
    forall n :: n in s ==> n - startBit < MAX_DIGITS
  }

  /** What may be built from a set: always a 64-bit number, and the set's decimal map if all
      ids are in range. */
  ghost predicate MayBuild(s: set<int>, startBit: int, res: int) {
    Strconv.IsInt64(res) && (InRange(s, startBit) ==> res == Decimal(s, startBit))
  }

  class DecimalMap {
    const startBit: int
    const src: int
    var srcStr: string

    constructor (src: int, startBit: int)
      ensures this.src == src && this.startBit == startBit
    {
      this.src, this.startBit, this.srcStr := src, startBit, "";
    }

    method Parse() returns (res: Option<set<int>>)
      modifies this
      ensures res == ParseDecimal(src, startBit)
    {
      hide Strconv.FormatInt, Unread;
      var ones: set<int> := {};
      srcStr := Strconv.FormatInt(src);
      Strconv.FormatIntSign(src);
      if src >= 0 { AllUnread(src); }
      var i := |srcStr| - 1;
      ghost var rest: nat := if src < 0 then 0 else src;
      assert srcStr[..i + 1] == srcStr;
      while i >= 0
        invariant -1 <= i < |srcStr| && srcStr == Strconv.FormatInt(src)
        invariant forall k :: i < k < |srcStr| ==> srcStr[k] == '0' || srcStr[k] == '1'
        invariant src >= 0 ==> Unread(srcStr[..i + 1], rest)
        invariant src >= 0 ==> (Binary(src) <==> Binary(rest))
        invariant src >= 0 ==> Ones(src, startBit) == ones + Ones(rest, startBit + |srcStr| - 1 - i)
      {
        if src >= 0 {
          LastDigit(srcStr[..i + 1], rest);
          assert srcStr[..i + 1][..i] == srcStr[..i];
        }
        if srcStr[i] != '0' && srcStr[i] != '1' {
          return None;
        }
        if srcStr[i] == '1' {
          ones := ones + {|srcStr| - 1 - i + startBit};
        }
        rest, i := rest / 10, i - 1;
      }
      if src >= 0 { NothingUnread(rest); }
      return Some(ones);
    }
  }

  /** The digits still to be read are those of `v`. */
  ghost predicate Unread(s: string, v: nat) {
    if s == [] then v == 0 else s == Strconv.FormatNat(v)
  }

  lemma AllUnread(v: nat)
    ensures Unread(Strconv.FormatInt(v), v)
  {
  }

  lemma NothingUnread(v: nat)
    requires Unread([], v)
    ensures v == 0
  {
  }

  lemma LastDigit(s: string, v: nat)
    requires s != [] && Unread(s, v)
    ensures Unread(s[..|s| - 1], v / 10)
    ensures s[|s| - 1] == '0' || s[|s| - 1] == '1' <==> v % 10 <= 1
    ensures s[|s| - 1] == '1' <==> v % 10 == 1
  {
  }

  /** The decimal digit of `v` that stands for 10 to the power of `i`. */
  function Digit(v: nat, i: nat): nat {
    v / Strconv.Power10(i) % 10
  }

  lemma DigitShifted(v: nat, i: nat)
    requires i > 0
    ensures Digit(v, i) == Digit(v / 10, i - 1)
  {
    DivideTwice(v, 10, Strconv.Power10(i - 1));
  }

  /** A value parses exactly if it is not negative and has no digit above 1, and orin `n` is
      among the orins exactly if the digit for it, counted from the start bit, is 1. */
  lemma ParsedDigits(v: int, startBit: int, n: int)
    ensures ParseDecimal(v, startBit).Some? <==> v >= 0 && forall i: nat :: Digit(v, i) <= 1
    ensures ParseDecimal(v, startBit).Some? ==>
              (n in ParseDecimal(v, startBit).value <==> n >= startBit && Digit(v, n - startBit) == 1)
  {
    if v >= 0 {
      BinaryDigits(v);
      OnesDigits(v, startBit, n);
    }
  }

  lemma {:induction false} BinaryDigits(v: nat)
    ensures Binary(v) <==> forall i: nat :: Digit(v, i) <= 1
  {
    if v == 0 {
      forall i: nat ensures Digit(0, i) <= 1 {
        QuotientIs(0, Strconv.Power10(i), 0, 0);
      }
    } else {
      BinaryDigits(v / 10);
      assert Strconv.Power10(0) == 1 && Digit(v, 0) == v % 10;
      if Binary(v) {
        forall i: nat ensures Digit(v, i) <= 1 {
          if i > 0 { DigitShifted(v, i); }
        }
      }
      if forall i: nat :: Digit(v, i) <= 1 {
        forall i: nat ensures Digit(v / 10, i) <= 1 {
          DigitShifted(v, i + 1);
        }
      }
    }
  }

  lemma {:induction false} OnesDigits(v: nat, k: int, n: int)
    ensures n in Ones(v, k) <==> n >= k && Digit(v, n - k) == 1
    decreases v
  {
    if v == 0 {
      if n >= k { QuotientIs(0, Strconv.Power10(n - k), 0, 0); }
    } else {
      OnesDigits(v / 10, k + 1, n);
      if n > k {
        DigitShifted(v, n - k);
      }
    }
  }

  /** Adds up the powers of the members in any order; ids below the start bit vanish. */
  method BuildDecimalMap(s: set<int>, startBit: int, huge: nat -> int) returns (res: int)
    ensures MayBuild(s, startBit, res)
  {
    res := 0;
    var left := s;
    DecimalNothing(startBit, startBit + MAX_DIGITS);
    assert s - s == {};
    while left != {}
      invariant left <= s && MayBuild(s - left, startBit, res)
      decreases left
    {
      var n := Next(left);
      assert s - left + {n} == s - (left - {n});
      if InRange(s - left + {n}, startBit) {
        DecimalInsert(s - left, n, startBit, startBit + MAX_DIGITS);
        DecimalIsInt64(s - left + {n}, startBit);
      }
      res := WrapInt64(res + TruncatedPow10(n - startBit, huge));
      left := left - {n};
    }
    assert s - {} == s;
  }

  lemma DecimalIsInt64(s: set<int>, startBit: int)
    ensures Strconv.IsInt64(Decimal(s, startBit))
  {
    DecimalBound(s, startBit, startBit + MAX_DIGITS);
    Constants();
  }

  lemma Constants()
    ensures Repunit(MAX_DIGITS) == 1_111_111_111_111_111_111
    ensures Strconv.Power10(MAX_DIGITS) == 10_000_000_000_000_000_000
  {
    assert Repunit(7) == 1_111_111 && Repunit(13) == 1_111_111_111_111 && Repunit(19) == 1_111_111_111_111_111_111;
    assert Strconv.Power10(7) == 10_000_000 && Strconv.Power10(13) == 10_000_000_000_000
           && Strconv.Power10(19) == 10_000_000_000_000_000_000;
  }

  function Repunit(n: nat): nat {
    if n == 0 then 0 else 1 + 10 * Repunit(n - 1)
  }

  lemma {:induction false} DecimalBound(s: set<int>, lo: int, hi: int)
    requires lo <= hi
    ensures DecimalOf(s, lo, hi) <= Repunit(hi - lo)
    decreases hi - lo
  {
    if lo < hi {
      DecimalBound(s, lo + 1, hi);
    }
  }

  lemma {:induction false} DecimalNothing(lo: int, hi: int)
    ensures DecimalOf({}, lo, hi) == 0
    decreases hi - lo
  {
    if lo < hi {
      DecimalNothing(lo + 1, hi);
    }
  }

  lemma {:induction false} DecimalInsert(s: set<int>, n: int, lo: int, hi: int)
    requires n !in s && n < hi
    ensures DecimalOf(s + {n}, lo, hi) == DecimalOf(s, lo, hi) + if n < lo then 0 else Strconv.Power10(n - lo)
    decreases hi - lo
  {
    if lo < hi {
      DecimalInsert(s, n, lo + 1, hi);
    }
  }

  /** Parsing what was built returns the set, less any id below the start bit. */
  lemma ParseOfBuild(s: set<int>, startBit: int)
    requires InRange(s, startBit)
    ensures ParseDecimal(Decimal(s, startBit), startBit) == Some(set n | n in s && startBit <= n)
  {
    OnesOfDecimal(s, startBit, startBit + MAX_DIGITS);
    assert (set n | n in s && startBit <= n < startBit + MAX_DIGITS) == set n | n in s && startBit <= n;
  }

  lemma {:induction false} OnesOfDecimal(s: set<int>, lo: int, hi: int)
    ensures Binary(DecimalOf(s, lo, hi))
    ensures Ones(DecimalOf(s, lo, hi), lo) == set n | n in s && lo <= n < hi
    decreases hi - lo
  {
    if lo < hi {
      OnesOfDecimal(s, lo + 1, hi);
      var d: nat := if lo in s then 1 else 0;
      var rest := DecimalOf(s, lo + 1, hi);
      assert (d + 10 * rest) % 10 == d && (d + 10 * rest) / 10 == rest;
    }
  }

  /** A 64-bit value that parses is the one built from the parsed set. */
  lemma BuildOfParse(v: int, startBit: int)
    requires Strconv.IsInt64(v) && ParseDecimal(v, startBit).Some?
    ensures Decimal(ParseDecimal(v, startBit).value, startBit) == v
    ensures forall n :: n in ParseDecimal(v, startBit).value ==> startBit <= n < startBit + MAX_DIGITS
  {
    Constants();
    DecimalOfOnes(Ones(v, startBit), v, startBit, startBit + MAX_DIGITS);
    forall n | n in Ones(v, startBit) ensures startBit <= n < startBit + MAX_DIGITS {
      OnesRange(v, startBit, MAX_DIGITS, n);
    }
  }

  lemma {:induction false} OnesRange(v: nat, k: int, digits: nat, n: int)
    requires v < Strconv.Power10(digits) && n in Ones(v, k)
    ensures k <= n < k + digits
    decreases v
  {
    if v != 0 && n in Ones(v / 10, k + 1) {
      OnesRange(v / 10, k + 1, digits - 1, n);
    }
  }

  lemma {:induction false} DecimalOfOnes(s: set<int>, v: nat, lo: int, hi: int)
    requires lo <= hi && Binary(v) && v < Strconv.Power10(hi - lo)
    requires forall n :: n >= lo ==> (n in s <==> n in Ones(v, lo))
    ensures DecimalOf(s, lo, hi) == v
    decreases hi - lo
  {
    if lo < hi {
      forall n | n >= lo + 1 ensures n in s <==> n in Ones(v / 10, lo + 1) {
        assert n in s <==> n in Ones(v, lo);
      }
      assert lo in s <==> v % 10 == 1 by {
        if lo in Ones(v / 10, lo + 1) {
          OnesRange(v / 10, lo + 1, hi - lo - 1, lo);
        }
      }
      DecimalOfOnes(s, v / 10, lo + 1, hi);
    }
  }
}
