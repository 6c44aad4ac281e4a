/** Decimal numbers in headers: how the clients print them and the servers read them back. */
module Decimal {
  import opened Common

  const MAX_INT64 := 0x7FFF_FFFF_FFFF_FFFF

  predicate IsDigit(c: char) { '0' <= c <= '9' }

  function DigitValue(c: char): nat
    requires IsDigit(c)
  {
    c as int - '0' as int
  }

  function DigitChar(d: nat): (c: char)
    requires d < 10
    ensures IsDigit(c) && DigitValue(c) == d
  {
    ('0' as int + d) as char
  }

  predicate AllDigits(s: string) {
    forall i :: 0 <= i < |s| ==> IsDigit(s[i])
  }

  function DigitsValue(s: string): nat
    requires AllDigits(s)
  {
    if s == [] then 0 else 10 * DigitsValue(s[..|s| - 1]) + DigitValue(s[|s| - 1])
  }

  /** %d of a non-negative number. */
  function Format(n: nat): (s: string)
    ensures s != [] && AllDigits(s)
  {
    if n < 10 then [DigitChar(n)] else Format(n / 10) + [DigitChar(n % 10)]
  }

  /** strconv.ParseInt(s, 10, 64). */
  function ParseInt64(s: string): (r: Option<int>)
    ensures r.Some? ==> -MAX_INT64 - 1 <= r.value <= MAX_INT64
  {
    if s == [] then None
    else
      var digits := if s[0] == '+' || s[0] == '-' then s[1..] else s;
      if digits == [] || !AllDigits(digits) then None
      else
        var v: int := DigitsValue(digits);
        if s[0] == '-' then (if v <= MAX_INT64 + 1 then Some(-v) else None)
        else if v <= MAX_INT64 then Some(v) else None
  }

  lemma {:induction false} FormatValue(n: nat)
    ensures DigitsValue(Format(n)) == n
  {
    if n >= 10 {
      FormatValue(n / 10);
      assert Format(n)[..|Format(n)| - 1] == Format(n / 10);
    }
  }

  lemma ParseFormatted(n: nat)
    requires n <= MAX_INT64
    ensures ParseInt64(Format(n)) == Some(n)
  {
    FormatValue(n);
    assert IsDigit(Format(n)[0]);
  }

  /** strings.Cut(s, "-"): the parts around the first dash. */
  function CutDash(s: string): Option<(string, string)> {
    if s == [] then None
    else if s[0] == '-' then Some(([], s[1..]))
    else
      match CutDash(s[1..])
      case None => None
      case Some(parts) => Some(([s[0]] + parts.0, parts.1))
  }

  lemma {:induction false} CutFirstDash(a: string, b: string)
    requires forall i :: 0 <= i < |a| ==> a[i] != '-'
    ensures CutDash(a + "-" + b) == Some((a, b))
  {
    if a == [] {
      assert a + "-" + b == "-" + b;
    } else {
      assert (a + "-" + b)[1..] == a[1..] + "-" + b;
      CutFirstDash(a[1..], b);
      assert [a[0]] + a[1..] == a;
    }
  }

  lemma {:induction false} CutDashMeans(s: string)
    ensures match CutDash(s)
            case None => '-' !in s
            case Some(parts) => s == parts.0 + "-" + parts.1 && '-' !in parts.0
  {
    if s != [] && s[0] != '-' {
      CutDashMeans(s[1..]);
      assert s == [s[0]] + s[1..];
    } else if s != [] {
      assert s == [] + "-" + s[1..];
    }
  }

  lemma CutFormatted(n: nat, b: string)
    ensures CutDash(Format(n) + "-" + b) == Some((Format(n), b))
  {
    forall i | 0 <= i < |Format(n)| ensures Format(n)[i] != '-' {
      assert IsDigit(Format(n)[i]);
    }
    CutFirstDash(Format(n), b);
  }
}
