/** The two Python conversions the monitor chains to build its CPU divisor
    (profiler/_profiler.py:47 and :72): `str` of an optional core count and
    `float` of the resulting text. */
module PyText {
  import opened Options

  predicate IsDigit(c: char) { '0' <= c <= '9' }

  /** A non-empty run of decimal digits. */
  predicate IsDigits(s: string) {
    |s| > 0 && forall i :: 0 <= i < |s| ==> IsDigit(s[i])
  }

  function DigitChar(d: nat): (c: char)
    requires d < 10
    ensures IsDigit(c) && (c as int) - ('0' as int) == d
  {
    (('0' as int) + d) as char
  }

  /** Python's `str(n)` for a non-negative int: decimal, no leading zeros. */
  function DecimalString(n: nat): (s: string)
    ensures IsDigits(s)
    decreases n
  {
    if n < 10 then [DigitChar(n)] else DecimalString(n / 10) + [DigitChar(n % 10)]
  }

  function DigitValue(c: char): (d: nat)
    requires IsDigit(c)
    ensures d < 10 && DigitChar(d) == c
  {
    (c as int) - ('0' as int)
  }

  /** Value of a string of decimal digits, read left to right. */
  function DigitsValue(s: string): nat
    requires forall i :: 0 <= i < |s| ==> IsDigit(s[i])
  {
    if |s| == 0 then 0
    else DigitsValue(s[..|s| - 1]) * 10 + DigitValue(s[|s| - 1])
  }

  /** Python's `float(s)` on the only texts line 72 can see: the digits of
      a core count followed by "00" (accepted) and "None00" (raises
      ValueError, shown as None). On other texts `float` accepts more than
      digits (signs, points, exponents, "inf"), which this does not model. */
  function ParseFloat(s: string): (r: Option<real>)
    ensures r.Some? <==> IsDigits(s)
    ensures r.Some? ==> r.value >= 0.0
  {
    if IsDigits(s) then Some(DigitsValue(s) as real) else None
  }

  /** `str(cpu_count)`: psutil reports None when the count is unknown. */
  function CountString(count: Option<nat>): (s: string)
    ensures IsDigits(s) <==> count.Some?
    ensures count.Some? ==> DigitsValue(s) == count.value
  {
    match count
    case None => assert !IsDigit("None"[0]); "None"
    case Some(n) => DecimalRoundTrip(n); DecimalString(n)
  }

  /** `float(str(cpu_count) + "00")`, the divisor of line 72. */
  function CpuDivisor(count: Option<nat>): (r: Option<real>)
    ensures r.Some? <==> count.Some?
  {
    var s := CountString(count);
    if count.Some? then AppendZerosScales(s); ParseFloat(s + "00")
    else assert (s + "00")[0] == 'N'; ParseFloat(s + "00")
  }

  lemma {:induction false} DecimalRoundTrip(n: nat)
    ensures DigitsValue(DecimalString(n)) == n
    decreases n
  {
    if n >= 10 {
      var s := DecimalString(n / 10) + [DigitChar(n % 10)];
      assert s[..|s| - 1] == DecimalString(n / 10);
      DecimalRoundTrip(n / 10);
    }
  }

  lemma AppendZerosScales(s: string)
    requires forall i :: 0 <= i < |s| ==> IsDigit(s[i])
    ensures forall i :: 0 <= i < |s + "00"| ==> IsDigit((s + "00")[i])
    ensures DigitsValue(s + "00") == DigitsValue(s) * 100
  {
    var t := s + "00";
    assert t[..|t| - 1] == s + "0";
    assert (s + "0")[..|s|] == s;
  }

  /** The divisor text parses to exactly one hundred per core, and a missing
      core count makes the conversion raise. */
  lemma CpuDivisorValue(count: Option<nat>)
    ensures count.None? ==> CpuDivisor(count).None?
    ensures count.Some? ==> CpuDivisor(count) == Some((count.value * 100) as real)
  {
    if count.Some? {
      AppendZerosScales(CountString(count));
    }
  }
}
