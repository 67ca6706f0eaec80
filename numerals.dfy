/**
 * Positional numerals in bases 2 to 16: the formatting that Python's `str(n)`
 * and `f"{n:X}"` perform and the parsing that `int(s, base)` performs on plain
 * digit strings.
 */
module Numerals {
  import opened Wrappers

  /** Upper-case digit for a value below 16, as the `X` format writes it. */
  function DigitChar(d: nat): (c: char)
    requires d < 16
    ensures IsUpperDigit(c)
  {
    if d < 10 then ('0' as int + d) as char else ('A' as int + d - 10) as char
  }

  /** The characters `X` formatting can produce. */
  predicate IsUpperDigit(c: char) {
    '0' <= c <= '9' || 'A' <= c <= 'F'
  }

  /** The value `int(_, 16)` gives one digit: `0`-`9`, and `a`-`f` in either case. */
  function DigitValue(c: char): (v: Option<nat>)
    ensures v.Some? ==> v.value < 16
    ensures v.Some? <==> '0' <= c <= '9' || 'A' <= c <= 'F' || 'a' <= c <= 'f'
  {
    if '0' <= c <= '9' then Some(c as int - '0' as int)
    else if 'A' <= c <= 'F' then Some(c as int - 'A' as int + 10)
    else if 'a' <= c <= 'f' then Some(c as int - 'a' as int + 10)
    else None
  }

  predicate IsDigit(c: char, base: nat) {
    DigitValue(c).Some? && DigitValue(c).value < base
  }

  predicate AllDigits(s: string, base: nat) {
    forall i :: 0 <= i < |s| ==> IsDigit(s[i], base)
  }

  /** The number a digit string denotes, most significant digit first. */
  function ValueOf(s: string, base: nat): nat
    requires AllDigits(s, base)
  {
    if s == [] then 0
    else ValueOf(s[..|s| - 1], base) * base + DigitValue(s[|s| - 1]).value
  }

  /** `int(s, base)` on a plain digit string; `None` for the empty string or a non-digit. */
  function ParseDigits(s: string, base: nat): (r: Option<nat>)
    ensures r.Some? <==> s != [] && AllDigits(s, base)
  {
    if s != [] && AllDigits(s, base) then Some(ValueOf(s, base)) else None
  }

  /** The shortest digit string for `n` in `base`, upper case, `"0"` for zero. */
  function FormatDigits(n: nat, base: nat): (s: string)
    requires 2 <= base <= 16
    ensures s != [] && AllDigits(s, base)
    ensures forall i :: 0 <= i < |s| ==> IsUpperDigit(s[i])
    decreases n
  {
    if n < base then
      DigitRoundTrip(n);
      [DigitChar(n)]
    else
      DivMod(n, base);
      var d := n % base;
      DigitRoundTrip(d);
      FormatDigits(n / base, base) + [DigitChar(d)]
  }

  lemma DivMod(n: nat, base: nat)
    requires 2 <= base <= 16 && n >= base
    ensures n / base < n && 0 <= n % base < base && n == (n / base) * base + n % base
  {
  }

  lemma DigitRoundTrip(d: nat)
    requires d < 16
    ensures DigitValue(DigitChar(d)) == Some(d)
  {
  }

  /** Parsing undoes formatting. */
  lemma {:induction false} FormatParseRoundTrip(n: nat, base: nat)
    requires 2 <= base <= 16
    ensures ParseDigits(FormatDigits(n, base), base) == Some(n)
  {
    var s := FormatDigits(n, base);
    if n < base {
      DigitRoundTrip(n);
      assert s == [DigitChar(n)];
      assert s[..0] == [];
      assert ValueOf(s, base) == ValueOf([], base) * base + n;
    } else {
      DivMod(n, base);
      var q, d := n / base, n % base;
      FormatParseRoundTrip(q, base);
      assert s[..|s| - 1] == FormatDigits(q, base);
      DigitRoundTrip(d);
      assert ValueOf(s, base) == q * base + d;
    }
  }

  /** `base` to the power `k`. */
  function Power(base: nat, k: nat): (p: nat)
    ensures base >= 1 ==> p >= 1
  {
    if k == 0 then 1 else base * Power(base, k - 1)
  }

  /** A number below `base^k` takes at most `k` digits. */
  lemma {:induction false} FormatLength(n: nat, base: nat, k: nat)
    requires 2 <= base <= 16 && 1 <= k && n < Power(base, k)
    ensures |FormatDigits(n, base)| <= k
    decreases k
  {
    if n >= base {
      DivMod(n, base);
      var q := n / base;
      assert Power(base, 1) == base;
      var p := Power(base, k - 1);
      if q >= p {
        assert q * base >= p * base;
        assert n >= p * base;
      }
      FormatLength(q, base, k - 1);
    }
  }

  /** The digits of a positive number do not start with `0`. */
  lemma {:induction false} FormatLeading(n: nat, base: nat)
    requires 2 <= base <= 16 && n > 0
    ensures FormatDigits(n, base)[0] != '0'
    decreases n
  {
    if n >= base {
      DivMod(n, base);
      FormatLeading(n / base, base);
      assert FormatDigits(n, base)[0] == FormatDigits(n / base, base)[0];
    }
  }

  /** `s` left-padded with `0` to at least `width` characters, as the `0<width>` format does. */
  function ZeroPad(s: string, width: nat): (r: string)
    ensures |r| == if |s| < width then width else |s|
    ensures r == Zeros(|r| - |s|) + s
  {
    if |s| < width then Zeros(width - |s|) + s else s
  }

  function Zeros(k: nat): (z: string)
    ensures |z| == k && forall i :: 0 <= i < k ==> z[i] == '0'
  {
    seq(k, _ => '0')
  }

  /** A leading zero does not change the value of a digit string. */
  lemma {:induction false} LeadingZeroValue(s: string, base: nat)
    requires 2 <= base <= 16 && AllDigits(s, base)
    ensures AllDigits("0" + s, base) && ValueOf("0" + s, base) == ValueOf(s, base)
  {
    if s != [] {
      LeadingZeroValue(s[..|s| - 1], base);
      assert ("0" + s)[..|s|] == "0" + s[..|s| - 1];
    }
  }

  /** Zero padding keeps the value: `int(f"{n:04X}", 16) == n`. */
  lemma {:induction false} ZerosValue(k: nat, s: string, base: nat)
    requires 2 <= base <= 16 && AllDigits(s, base)
    ensures AllDigits(Zeros(k) + s, base) && ValueOf(Zeros(k) + s, base) == ValueOf(s, base)
  {
    if k == 0 {
      assert Zeros(k) + s == s;
    } else {
      ZerosValue(k - 1, s, base);
      assert Zeros(k) + s == "0" + (Zeros(k - 1) + s);
      LeadingZeroValue(Zeros(k - 1) + s, base);
    }
  }

  /** `str(n)` for a Python integer: decimal digits, with a leading `-` when negative. */
  function DecimalString(n: int): (s: string)
    ensures s != []
  {
    if n < 0 then "-" + FormatDigits(-n, 10) else FormatDigits(n, 10)
  }

  /** Distinct naturals format differently. */
  lemma FormatInjective(a: nat, b: nat, base: nat)
    requires 2 <= base <= 16 && FormatDigits(a, base) == FormatDigits(b, base)
    ensures a == b
  {
    FormatParseRoundTrip(a, base);
    FormatParseRoundTrip(b, base);
  }

  /** A negative number's string starts with `-`, a non-negative one's with a digit. */
  lemma SignMark(n: int)
    ensures (DecimalString(n)[0] == '-') <==> n < 0
  {
    if n >= 0 {
      var digits := FormatDigits(n, 10);
      assert IsUpperDigit(digits[0]);
    }
  }

  /** Distinct integers print differently. */
  lemma DecimalStringInjective(a: int, b: int)
    ensures DecimalString(a) == DecimalString(b) ==> a == b
  {
    if DecimalString(a) == DecimalString(b) {
      SignMark(a);
      SignMark(b);
      if a < 0 {
        assert DecimalString(a)[1..] == FormatDigits(-a, 10);
        assert DecimalString(b)[1..] == FormatDigits(-b, 10);
        FormatInjective(-a, -b, 10);
      } else {
        FormatInjective(a, b, 10);
      }
    }
  }
}
