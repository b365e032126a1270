/**
 * The decimal text of a checkpoint: `fmt.Sprintf("%d", n)` writes it and
 * `strconv.Atoi` reads it back. Go's `int` is 64 bits wide on the platforms
 * the daemon runs on, so `Atoi` rejects values outside that range.
 */
module Strconv {
  import opened Wrappers

  /** The bounds of Go's 64-bit `int`. */
  const MinInt: int := -0x8000_0000_0000_0000
  const MaxInt: int := 0x7fff_ffff_ffff_ffff

  predicate IsDigit(c: char)
  {
    '0' <= c <= '9'
  }

  predicate AllDigits(s: string)
  {
    forall i :: 0 <= i < |s| ==> IsDigit(s[i])
  }

  function DigitValue(c: char): (d: nat)
    requires IsDigit(c)
    ensures d < 10
  {
    c as int - '0' as int
  }

  function DigitChar(d: nat): (c: char)
    requires d < 10
    ensures IsDigit(c) && DigitValue(c) == d
  {
    (d + '0' as int) as char
  }

  /** The number a run of decimal digits denotes, most significant digit first. */
  function DigitsValue(ds: string): nat
    requires AllDigits(ds)
    decreases |ds|
  {
    if ds == [] then 0 else DigitsValue(ds[..|ds| - 1]) * 10 + DigitValue(ds[|ds| - 1])
  }

  /** The decimal digits of `n`: never empty, and no leading zero except in "0". */
  function FormatNat(n: nat): (r: string)
    ensures |r| >= 1 && AllDigits(r)
    ensures |r| > 1 ==> r[0] != '0'
    decreases n
  {
    if n < 10 then [DigitChar(n)] else FormatNat(n / 10) + [DigitChar(n % 10)]
  }

  /** `fmt.Sprintf("%d", n)`: a minus sign for negative numbers, then the digits of |n|. */
  function FormatInt(n: int): (r: string)
    ensures |r| >= 1
    ensures (r[0] == '-') <==> n < 0
    ensures AllDigits(if n < 0 then r[1..] else r)
  {
    if n < 0 then "-" + FormatNat(-n) else FormatNat(n)
  }

  /** The text after an optional leading '+' or '-'. */
  function Magnitude(s: string): string
    requires s != []
  {
    if s[0] == '+' || s[0] == '-' then s[1..] else s
  }

  /** The value of a sign and a run of digits: negated after a '-'. */
  function SignedValue(s: string): int
    requires s != [] && AllDigits(Magnitude(s))
  {
    if s[0] == '-' then -(DigitsValue(Magnitude(s)) as int) else DigitsValue(Magnitude(s))
  }

  /**
   * `strconv.Atoi`: an optional '+' or '-' sign followed by at least one
   * decimal digit and nothing else; a value outside Go's `int` range is an
   * error too.
   */
  function Atoi(s: string): (r: Option<int>)
    ensures r.Some? <==>
              s != [] && Magnitude(s) != [] && AllDigits(Magnitude(s)) && MinInt <= SignedValue(s) <= MaxInt
    ensures r.Some? ==> r.value == SignedValue(s)
    ensures r.Some? ==> MinInt <= r.value <= MaxInt
    ensures r.Some? ==> s != [] && (IsDigit(s[0]) || s[0] == '+' || s[0] == '-')
  {
    if s == [] then None
    else
      var digits := Magnitude(s);
      if digits == [] || !AllDigits(digits) then None
      else if MinInt <= SignedValue(s) <= MaxInt then Some(SignedValue(s))
      else None
  }

  /**
   * The signs Atoi accepts: a '+' changes nothing, a '-' negates, and a run
   * of digits alone reads as its value when it is in range.
   */
  lemma AtoiSigns(d: string)
    requires d != [] && AllDigits(d)
    ensures Atoi("+" + d) == Atoi(d)
    ensures DigitsValue(d) <= MaxInt ==> Atoi(d) == Some(DigitsValue(d))
    ensures DigitsValue(d) > MaxInt ==> Atoi(d).None?
    ensures -(DigitsValue(d) as int) >= MinInt ==> Atoi("-" + d) == Some(-(DigitsValue(d) as int))
  {
    assert IsDigit(d[0]);
    assert ("+" + d)[1..] == d && ("-" + d)[1..] == d;
  }

  /** Reading the digits of a number gives the number back. */
  lemma {:induction false} DigitsValueFormatNat(n: nat)
    ensures DigitsValue(FormatNat(n)) == n
    decreases n
  {
    if n >= 10 {
      DigitsValueFormatNat(n / 10);
      var r := FormatNat(n);
      assert r[..|r| - 1] == FormatNat(n / 10);
    }
  }

  /** The checkpoint codec round-trips every Go `int`: `Atoi` reads back what `%d` wrote. */
  lemma AtoiFormatInt(n: int)
    requires MinInt <= n <= MaxInt
    ensures Atoi(FormatInt(n)) == Some(n)
  {
    var d := FormatNat(if n < 0 then -n else n);
    assert DigitsValue(d) == (if n < 0 then -n else n) by {
      DigitsValueFormatNat(if n < 0 then -n else n);
    }
    assert FormatInt(n) == (if n < 0 then "-" + d else d);
    AtoiSigns(d);
  }

  /** Decimal text holds neither a line feed nor a carriage return. */
  lemma FormatIntIsOneLine(n: int)
    ensures '\n' !in FormatInt(n) && '\r' !in FormatInt(n)
  {
    var s := FormatInt(n);
    if n < 0 {
      assert forall i :: 1 <= i < |s| ==> s[i] == s[1..][i - 1];
    }
  }
}
