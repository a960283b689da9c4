/** Non-negative integers written in base 10 (Python's `str(n)`) or base 16
    (`hex(n)[2:]`), and read back. */
module Numerals {

  /** The two bases the source prints in: decimal and hexadecimal. */
  predicate ValidBase(base: int) { base == 10 || base == 16 }

  /** Euclidean division by a valid base, stated once so that callers stay linear. */
  lemma DivMod(n: nat, base: int)
    requires ValidBase(base)
    ensures n == (n / base) * base + n % base && 0 <= n % base < base
    ensures n >= base ==> 1 <= n / base < n
    ensures n < base ==> n / base == 0 && n % base == n
  {
  }

  /** The digit for `d`, lower-case letters above 9 as Python's hex() prints them. */
  function DigitChar(d: nat): (c: char)
    requires d < 16
  {
    if d < 10 then ('0' as int + d) as char else ('a' as int + d - 10) as char
  }

  /** The value of a digit character, or -1 for any other character. */
  function DigitValue(c: char): (v: int)
    ensures -1 <= v < 16
  {
    if '0' <= c <= '9' then c as int - '0' as int
    else if 'a' <= c <= 'f' then c as int - 'a' as int + 10
    else -1
  }

  predicate IsDigit(c: char, base: int) { 0 <= DigitValue(c) < base }

  predicate AllDigits(s: string, base: int) {
    forall i :: 0 <= i < |s| ==> IsDigit(s[i], base)
  }

  lemma DigitRoundTrip(d: nat, c: char, base: int)
    requires d < 16 && IsDigit(c, base)
    ensures DigitValue(DigitChar(d)) == d
    ensures DigitChar(DigitValue(c)) == c
  {
  }

  function Pow(base: nat, k: nat): nat
  {
    if k == 0 then 1 else base * Pow(base, k - 1)
  }

  /** The shortest numeral for `n`: no leading zero except for "0" itself. */
  function Numeral(n: nat, base: int): (s: string)
    requires ValidBase(base)
    ensures |s| >= 1 && AllDigits(s, base)
    ensures s[0] == '0' <==> n == 0
    ensures n == 0 ==> s == "0"
    decreases n
  {
    DivMod(n, base);
    if n < base then [DigitChar(n)]
    else Numeral(n / base, base) + [DigitChar(n % base)]
  }

  /** The value of a string of digits, most significant first; "" reads as 0. */
  function ValueOf(s: string, base: int): nat
    requires ValidBase(base) && AllDigits(s, base)
  {
    if s == [] then 0
    else ValueOf(s[..|s| - 1], base) * base + DigitValue(s[|s| - 1])
  }

  /** Reading a numeral gives back the number it was printed from. */
  lemma {:induction false} ValueOfNumeral(n: nat, base: int)
    requires ValidBase(base)
    ensures ValueOf(Numeral(n, base), base) == n
    decreases n
  {
    var s := Numeral(n, base);
    DivMod(n, base);
    if n < base {
      DigitRoundTrip(n, '0', base);
    } else {
      ValueOfNumeral(n / base, base);
      DigitRoundTrip(n % base, '0', base);
      assert s[..|s| - 1] == Numeral(n / base, base);
    }
  }

  /** A string of digits is never worth less than its leading digit. */
  lemma {:induction false} ValueAtLeastLead(s: string, base: int)
    requires ValidBase(base) && AllDigits(s, base) && |s| >= 1
    ensures ValueOf(s, base) >= DigitValue(s[0])
    decreases |s|
  {
    if |s| > 1 {
      ValueAtLeastLead(s[..|s| - 1], base);
    }
  }

  /** Printing the value of a numeral without a leading zero gives back the numeral. */
  lemma {:induction false} NumeralOfValue(s: string, base: int)
    requires ValidBase(base) && AllDigits(s, base) && |s| >= 1
    requires s[0] != '0' || |s| == 1
    ensures Numeral(ValueOf(s, base), base) == s
    decreases |s|
  {
    var c := s[|s| - 1];
    DigitRoundTrip(0, c, base);
    if |s| > 1 {
      var t := s[..|s| - 1];
      ValueAtLeastLead(t, base);
      NumeralOfValue(t, base);
      var v := ValueOf(s, base);
      DivMod(v, base);
      MulAddDivMod(ValueOf(t, base), DigitValue(c), base);
      assert v / base == ValueOf(t, base) && v % base == DigitValue(c);
      assert s == t + [c];
    }
  }

  /** A numeral is at most k digits long exactly when the number is below base^k. */
  lemma {:induction false} NumeralWidth(n: nat, base: int, k: nat)
    requires ValidBase(base) && k >= 1
    ensures |Numeral(n, base)| <= k <==> n < Pow(base, k)
    decreases k
  {
    DivMod(n, base);
    if n < base {
      PowAtLeast(base, k);
    } else if k == 1 {
    } else {
      NumeralWidth(n / base, base, k - 1);
      DivBelow(n, base, Pow(base, k - 1));
    }
  }

  /** `q * base + r` with a digit `r` divides back into `q` and `r`. */
  lemma MulAddDivMod(q: nat, r: nat, base: int)
    requires ValidBase(base) && r < base
    ensures (q * base + r) / base == q && (q * base + r) % base == r
  {
  }

  /** n < base * m exactly when n / base < m. */
  lemma DivBelow(n: nat, base: int, m: nat)
    requires ValidBase(base)
    ensures n < base * m <==> n / base < m
  {
  }

  lemma {:induction false} PowAtLeast(base: nat, k: nat)
    requires base >= 2 && k >= 1
    ensures Pow(base, k) >= base
    decreases k
  {
    if k > 1 {
      PowAtLeast(base, k - 1);
    }
  }

  function Zeros(k: int): (s: string)
    ensures |s| == if k < 0 then 0 else k
    ensures forall i :: 0 <= i < |s| ==> s[i] == '0'
  {
    if k <= 0 then "" else seq(k, _ => '0')
  }

  /** `n` printed in base 10 and left-padded with zeros to `width`, as `%02d` does. */
  function ZeroPad(n: nat, width: nat): (s: string)
    ensures |s| == if |Numeral(n, 10)| < width then width else |Numeral(n, 10)|
    ensures AllDigits(s, 10)
  {
    Zeros(width - |Numeral(n, 10)|) + Numeral(n, 10)
  }

  /** Leading zeros do not change a value. */
  lemma {:induction false} ValueOfZeros(k: nat, s: string)
    requires AllDigits(s, 10)
    ensures AllDigits(Zeros(k) + s, 10)
    ensures ValueOf(Zeros(k) + s, 10) == ValueOf(s, 10)
    decreases |s|, k
  {
    var z := Zeros(k) + s;
    if s == [] {
      assert z == Zeros(k);
      if k > 0 {
        assert z[..|z| - 1] == Zeros(k - 1) + "";
        ValueOfZeros(k - 1, "");
      }
    } else {
      assert z[..|z| - 1] == Zeros(k) + s[..|s| - 1];
      ValueOfZeros(k, s[..|s| - 1]);
    }
  }

  /** Reading a zero-padded numeral gives back the number. */
  lemma ValueOfZeroPad(n: nat, width: nat)
    ensures ValueOf(ZeroPad(n, width), 10) == n
  {
    var k := width - |Numeral(n, 10)|;
    ValueOfZeros(if k < 0 then 0 else k, Numeral(n, 10));
    ValueOfNumeral(n, 10);
  }

  /** A fixed-width field of digits is exactly the zero-padded print of its value. */
  lemma {:induction false} ZeroPadOfValue(t: string)
    requires AllDigits(t, 10) && |t| >= 1
    ensures ZeroPad(ValueOf(t, 10), |t|) == t
    decreases |t|
  {
    if t[0] != '0' || |t| == 1 {
      NumeralOfValue(t, 10);
    } else {
      var u := t[1..];
      assert t == Zeros(1) + u;
      ValueOfZeros(1, u);
      ZeroPadOfValue(u);
      var v := ValueOf(u, 10);
      assert |Numeral(v, 10)| <= |u|;
      assert Zeros(|t| - |Numeral(v, 10)|) == Zeros(1) + Zeros(|u| - |Numeral(v, 10)|);
    }
  }
}
