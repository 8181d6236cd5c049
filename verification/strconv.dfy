/** Decimal conversion between integers and text, after Go's `strconv.Atoi`
    and `strconv.Itoa` (base 10, unbounded integers). */
module Strconv {
  import opened Results

  predicate IsDigit(c: char) {
    '0' <= c <= '9'
  }

  predicate AllDigits(s: string) {
    forall i :: 0 <= i < |s| ==> IsDigit(s[i])
  }

  /** A non-empty run of ASCII digits. */
  predicate IsDecimal(s: string) {
    |s| > 0 && AllDigits(s)
  }

  function DigitValue(c: char): (d: nat)
    requires IsDigit(c)
    ensures d < 10
  {
    c as int - '0' as int
  }

  function DigitChar(d: nat): (c: char)
    requires d < 10
    ensures IsDigit(c) && DigitValue(c) == d
  {
    ('0' as int + d) as char
  }

  /** The value of a run of digits, most significant first; leading zeros are allowed. */
  function DecimalValue(s: string): nat
    requires AllDigits(s)
    decreases |s|
  {
    if s == [] then 0 else 10 * DecimalValue(s[..|s| - 1]) + DigitValue(s[|s| - 1])
  }

  /** `strconv.Atoi`: an optional `+` or `-` followed by a non-empty run of
      digits; anything else is a syntax error (`None`). */
  function Atoi(s: string): (r: Option<int>)
    ensures r.Some? <==> IsDecimal(s) || (|s| > 0 && (s[0] == '+' || s[0] == '-') && IsDecimal(s[1..]))
    ensures r.Some? ==> |s| > 0 && (IsDigit(s[0]) || s[0] == '+' || s[0] == '-')
    ensures r.Some? && r.value < 0 ==> s[0] == '-'
    ensures r.Some? && s[0] != '-' ==> r.value >= 0
  {
    if |s| > 0 && (s[0] == '+' || s[0] == '-') then
      if IsDecimal(s[1..]) then
        Some(if s[0] == '-' then -(DecimalValue(s[1..]) as int) else DecimalValue(s[1..]))
      else None
    else if IsDecimal(s) then Some(DecimalValue(s))
    else None
  }

  /** The shortest digit string of `n`. */
  function Digits(n: nat): (s: string)
    ensures IsDecimal(s)
    decreases n
  {
    if n < 10 then [DigitChar(n)] else Digits(n / 10) + [DigitChar(n % 10)]
  }

  /** `strconv.Itoa`: a leading `-` for negative values, then the digits. */
  function Itoa(n: int): string {
    if n < 0 then "-" + Digits(-n) else Digits(n)
  }

  lemma {:induction false} DecimalValueOfDigits(n: nat)
    ensures DecimalValue(Digits(n)) == n
    decreases n
  {
    if n >= 10 {
      var s := Digits(n);
      assert s[..|s| - 1] == Digits(n / 10);
      DecimalValueOfDigits(n / 10);
    }
  }

  /** Atoi reads back every integer that Itoa writes. */
  lemma {:induction false} AtoiItoa(n: int)
    ensures Atoi(Itoa(n)) == Some(n)
  {
    var s := Itoa(n);
    if n < 0 {
      assert s[1..] == Digits(-n);
      DecimalValueOfDigits(-n);
    } else {
      DecimalValueOfDigits(n);
    }
  }

  /** `s` is the digit string `d` preceded by nothing but zeros. */
  predicate ZeroPadded(s: string, d: string) {
    |d| <= |s| && s[|s| - |d|..] == d && forall i :: 0 <= i < |s| - |d| ==> s[i] == '0'
  }

  lemma {:induction false} DigitsOfDigit(c: char)
    requires IsDigit(c)
    ensures Digits(DigitValue(c)) == [c]
  {
  }

  lemma {:induction false} DigitsShift(p: nat, c: char)
    requires p > 0 && IsDigit(c)
    ensures Digits(10 * p + DigitValue(c)) == Digits(p) + [c]
  {
    var v := 10 * p + DigitValue(c);
    assert v / 10 == p && v % 10 == DigitValue(c);
  }

  lemma {:induction false} ZeroPaddedAppend(s: string, d: string, c: char)
    requires ZeroPadded(s, d)
    ensures ZeroPadded(s + [c], d + [c])
  {
    var t := s + [c];
    assert t[|t| - |d + [c]|..] == s[|s| - |d|..] + [c];
    assert forall i :: 0 <= i < |t| - |d + [c]| ==> t[i] == s[i];
  }

  lemma {:induction false} ZerosThenDigit(s: string, c: char)
    requires ZeroPadded(s, "0")
    ensures ZeroPadded(s + [c], [c])
  {
    var t := s + [c];
    forall i | 0 <= i < |t| - 1 ensures t[i] == '0' {
      if i == |s| - 1 {
        assert s[|s| - 1..] == "0";
      }
    }
  }

  /** Every run of digits is the shortest digit string of its value, after
      some leading zeros. */
  lemma {:induction false} DecimalCanonical(s: string)
    requires IsDecimal(s)
    ensures ZeroPadded(s, Digits(DecimalValue(s)))
    decreases |s|
  {
    var init, c := s[..|s| - 1], s[|s| - 1];
    assert s == init + [c];
    DigitsOfDigit(c);
    if init == [] {
      assert DecimalValue(s) == DigitValue(c);
    } else {
      DecimalCanonical(init);
      var p := DecimalValue(init);
      if p == 0 {
        ZerosThenDigit(init, c);
      } else {
        DigitsShift(p, c);
        ZeroPaddedAppend(init, Digits(p), c);
      }
    }
  }

  /** Parse, then print: an accepted text is an optional sign, then zeros,
      then exactly the digits `Itoa` writes for the magnitude of the value;
      the sign is `-` whenever the value is negative and never when it is
      positive. */
  lemma {:induction false} AtoiCanonical(s: string, n: int)
    requires Atoi(s) == Some(n)
    ensures |s| > 0
    ensures ZeroPadded(if IsDigit(s[0]) then s else s[1..], Digits(if n < 0 then -n else n))
    ensures n < 0 ==> s[0] == '-'
    ensures n > 0 ==> s[0] != '-'
  {
    if IsDigit(s[0]) {
      DecimalCanonical(s);
    } else {
      DecimalCanonical(s[1..]);
    }
  }

  /** Leading zeros and a `+` sign do not change the value, and `-0` reads as zero. */
  lemma {:induction false} AtoiLenient(s: string)
    requires IsDecimal(s)
    ensures Atoi("0" + s) == Atoi(s) == Atoi("+" + s) == Some(DecimalValue(s))
    ensures Atoi("-" + s) == Some(-(DecimalValue(s) as int))
    decreases |s|
  {
    assert ("+" + s)[1..] == s;
    assert ("-" + s)[1..] == s;
    LeadingZero(s);
  }

  lemma {:induction false} LeadingZero(s: string)
    requires AllDigits(s)
    ensures AllDigits("0" + s) && DecimalValue("0" + s) == DecimalValue(s)
    decreases |s|
  {
    if s != [] {
      var init := s[..|s| - 1];
      assert ("0" + s)[..|"0" + s| - 1] == "0" + init;
      LeadingZero(init);
    }
  }
}
