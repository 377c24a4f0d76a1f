/**
 * The two conversions the upload handler relies on: `strconv.Atoi`, which
 * turns the `threads` form value into an int (main.go:32), and the `%d` verb
 * that prints the thread count into the success message (main.go:100).
 * Go's `int` is taken to be 64 bits wide.
 */
module Strconv {
  import opened Common

  const MinInt64: int := -0x8000_0000_0000_0000
  const MaxInt64: int := 0x7FFF_FFFF_FFFF_FFFF

  predicate IsDigit(c: char) { '0' <= c <= '9' }

  predicate AllDigits(s: string) { forall k :: 0 <= k < |s| ==> IsDigit(s[k]) }

  function DigitValue(c: char): nat
    requires IsDigit(c)
  {
    (c as int) - ('0' as int)
  }

  function DigitChar(d: nat): (c: char)
    requires d < 10
    ensures IsDigit(c) && DigitValue(c) == d
  {
    (('0' as int) + d) as char
  }

  /** The value of a run of decimal digits, most significant first. */
  function DigitsValue(s: string): nat
    requires AllDigits(s)
  {
    if s == [] then 0 else DigitsValue(s[..|s| - 1]) * 10 + DigitValue(s[|s| - 1])
  }

  /**
   * `strconv.Atoi(s)`: an optional '+' or '-', then one or more ASCII digits
   * (leading zeros allowed, no underscores, no spaces), and a value that fits
   * a 64-bit int; anything else is an error, modelled as None.
   */
  function Atoi(s: string): (r: Option<int>)
    ensures r.Some? ==> MinInt64 <= r.value <= MaxInt64
    ensures r.Some? ==> |s| >= 1 && (IsDigit(s[0]) || s[0] == '+' || s[0] == '-')
    ensures r.Some? ==> |s| >= 2 || IsDigit(s[0])
    ensures r.Some? ==> forall k :: 1 <= k < |s| ==> IsDigit(s[k])
  {
    if |s| == 0 then None
    else
      var digits := if s[0] == '-' || s[0] == '+' then s[1..] else s;
      if |digits| == 0 || !AllDigits(digits) then None
      else
        var v: int := if s[0] == '-' then -(DigitsValue(digits) as int) else DigitsValue(digits);
        if MinInt64 <= v <= MaxInt64 then Some(v) else None
  }

  /** The shortest decimal spelling of a natural number: no leading zero unless it is "0". */
  function NatDigits(n: nat): (s: string)
    ensures |s| >= 1 && AllDigits(s)
    ensures DigitsValue(s) == n
    ensures s[0] != '0' || s == "0"
  {
    if n < 10 then [DigitChar(n)]
    else
      var s := NatDigits(n / 10) + [DigitChar(n % 10)];
      assert s[..|s| - 1] == NatDigits(n / 10);
      s
  }

  /** `fmt.Sprintf("%d", n)`: a '-' for a negative number, then the shortest digits of its magnitude. */
  function Itoa(n: int): (s: string)
    ensures |s| >= 1
    ensures s[0] == '-' <==> n < 0
    ensures var u := if n < 0 then s[1..] else s;
      |u| >= 1 && AllDigits(u) && (u[0] != '0' || u == "0")
  {
    if n < 0 then
      var s := "-" + NatDigits(-n);
      assert s[1..] == NatDigits(-n);
      s
    else NatDigits(n)
  }

  /** Every int printed with `%d` parses back to itself with `Atoi`. */
  lemma AtoiItoa(n: int)
    requires MinInt64 <= n <= MaxInt64
    ensures Atoi(Itoa(n)) == Some(n)
  {
    if n < 0 {
      var s := Itoa(n);
      assert s[1..] == NatDigits(-n);
    }
  }

  /** An empty `threads` value, a sign alone and a non-digit never parse. */
  lemma AtoiRejectsMalformed(s: string)
    requires s == [] || s == "-" || s == "+" || (|s| >= 1 && !IsDigit(s[|s| - 1]))
    ensures Atoi(s) == None
  {
  }

  /**
   * The other direction of Atoi's contract: an optional sign followed by one
   * or more digits parses, to the digits' value with the sign applied, as
   * long as that value fits 64 bits.
   */
  lemma AtoiAcceptsSignedDigits(sign: string, digits: string)
    requires sign == "" || sign == "+" || sign == "-"
    requires |digits| >= 1 && AllDigits(digits)
    requires MinInt64 <= (if sign == "-" then -(DigitsValue(digits) as int) else DigitsValue(digits)) <= MaxInt64
    ensures Atoi(sign + digits) == Some(if sign == "-" then -(DigitsValue(digits) as int) else DigitsValue(digits))
  {
    var s := sign + digits;
    if sign == "" {
      assert s == digits;
    } else {
      assert s[1..] == digits;
    }
  }

  /** A leading zero does not change the value of a run of digits. */
  lemma {:induction false} LeadingZeroValue(digits: string)
    requires AllDigits(digits)
    ensures AllDigits("0" + digits) && DigitsValue("0" + digits) == DigitsValue(digits)
  {
    var z := "0" + digits;
    assert AllDigits(z) by {
      forall k | 0 <= k < |z| ensures IsDigit(z[k]) {
        if k > 0 { assert z[k] == digits[k - 1]; }
      }
    }
    if digits != [] {
      var init := digits[..|digits| - 1];
      assert z[..|z| - 1] == "0" + init;
      LeadingZeroValue(init);
    }
  }

  /** So `Atoi` ignores a leading zero after the optional sign: "03" and "+03" are 3. */
  lemma AtoiLeadingZero(sign: string, digits: string)
    requires sign == "" || sign == "+" || sign == "-"
    requires |digits| >= 1 && AllDigits(digits)
    ensures Atoi(sign + "0" + digits) == Atoi(sign + digits)
  {
    LeadingZeroValue(digits);
    assert sign + "0" + digits == sign + ("0" + digits);
    var v := if sign == "-" then -(DigitsValue(digits) as int) else DigitsValue(digits);
    if MinInt64 <= v <= MaxInt64 {
      AtoiAcceptsSignedDigits(sign, digits);
      AtoiAcceptsSignedDigits(sign, "0" + digits);
    } else {
      AtoiOutOfRange(sign, digits);
      AtoiOutOfRange(sign, "0" + digits);
    }
  }

  /** An optional sign and digits whose value does not fit 64 bits are rejected. */
  lemma AtoiOutOfRange(sign: string, digits: string)
    requires sign == "" || sign == "+" || sign == "-"
    requires |digits| >= 1 && AllDigits(digits)
    requires !(MinInt64 <= (if sign == "-" then -(DigitsValue(digits) as int) else DigitsValue(digits)) <= MaxInt64)
    ensures Atoi(sign + digits) == None
  {
    var s := sign + digits;
    if sign == "" {
      assert s == digits;
    } else {
      assert s[1..] == digits;
    }
  }

  /** Zero in any spelling parses to 0, and "03" and "+3" parse to 3. */
  lemma AtoiSmallValues()
    ensures Atoi("0") == Some(0) && Atoi("00") == Some(0) && Atoi("+0") == Some(0) && Atoi("-0") == Some(0)
    ensures Atoi("3") == Some(3) && Atoi("03") == Some(3) && Atoi("+3") == Some(3) && Atoi("-3") == Some(-3)
  {
    assert "00"[1..] == "0";
    assert "03"[1..] == "3";
    assert DigitsValue("00") == 0 by { assert "00"[..1] == "0"; }
    assert DigitsValue("03") == 3 by { assert "03"[..1] == "0"; }
  }
}
