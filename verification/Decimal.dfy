/** Decimal printing and parsing of Go's 64-bit integers: strconv.Itoa, the %d verb and strconv.Atoi. */
module Decimal {
  import opened Wrappers

  const MIN_INT64: int := -0x8000_0000_0000_0000
  const MAX_INT64: int := 0x7FFF_FFFF_FFFF_FFFF

  predicate IsInt64(n: int) {
    MIN_INT64 <= n <= MAX_INT64
  }

  const TWO_TO_64: int := 0x1_0000_0000_0000_0000

  /** What 64-bit arithmetic makes of a mathematical result: it wraps around. */
  function Wrap64(n: int): (r: int)
    ensures IsInt64(r)
    ensures IsInt64(n) ==> r == n
    decreases if n > MAX_INT64 then n else if n < MIN_INT64 then -n else 0
  {
    if n > MAX_INT64 then Wrap64(n - TWO_TO_64)
    else if n < MIN_INT64 then Wrap64(n + TWO_TO_64)
    else n
  }

  /** Whole turns make no difference. */
  lemma {:induction false} WrapTurn(n: int)
    ensures Wrap64(n + TWO_TO_64) == Wrap64(n)
    decreases if n > MAX_INT64 then n else if n < MIN_INT64 then -n else 0
  {
    if n + TWO_TO_64 < MIN_INT64 {
      WrapTurn(n + TWO_TO_64);
    }
  }

  lemma {:induction false} WrapTurns(n: int, turns: nat)
    ensures Wrap64(n + turns * TWO_TO_64) == Wrap64(n)
  {
    if turns > 0 {
      WrapTurns(n, turns - 1);
      WrapTurn(n + (turns - 1) * TWO_TO_64);
    }
  }

  /** It is the remainder between the least and the greatest 64-bit integer. */
  lemma WrapIsRemainder(n: int)
    ensures Wrap64(n) == (n - MIN_INT64) % TWO_TO_64 + MIN_INT64
  {
    var turns, r := (n - MIN_INT64) / TWO_TO_64, (n - MIN_INT64) % TWO_TO_64 + MIN_INT64;
    assert n == r + turns * TWO_TO_64;
    if turns >= 0 {
      WrapTurns(r, turns);
    } else {
      WrapTurns(n, -turns);
    }
  }

  /** Wrapping a part of a sum early makes no difference. */
  lemma {:induction false} WrapTwice(a: int, b: int)
    ensures Wrap64(Wrap64(a) + b) == Wrap64(a + b)
    decreases if a > MAX_INT64 then a else if a < MIN_INT64 then -a else 0
  {
    if a > MAX_INT64 {
      WrapTwice(a - TWO_TO_64, b);
      WrapTurn(a - TWO_TO_64 + b);
    } else if a < MIN_INT64 {
      WrapTwice(a + TWO_TO_64, b);
      WrapTurn(a + b);
    }
  }

  predicate IsDigit(c: char) {
    '0' <= c <= '9'
  }

  predicate AllDigits(s: string) {
    forall i :: 0 <= i < |s| ==> IsDigit(s[i])
  }

  function DigitChar(d: nat): char
    requires d < 10
  {
    ('0' as int + d) as char
  }

  function PrintNat(n: nat): (s: string)
    ensures |s| > 0 && AllDigits(s)
  {
    if n < 10 then [DigitChar(n)] else PrintNat(n / 10) + [DigitChar(n % 10)]
  }

  function Itoa(n: int): (s: string)
    ensures |s| > 0
    ensures forall i :: 0 <= i < |s| ==> s[i] == '-' || IsDigit(s[i])
  {
    if n < 0 then "-" + PrintNat(-n) else PrintNat(n)
  }

  /** What is left of a number without its last i decimal digits. */
  function Without(n: nat, i: nat): nat {
    if i == 0 then n else Without(n / 10, i - 1)
  }

  /** The digits that are printed, the last one first, are the decimal ones, and there is no zero in front. */
  lemma {:induction false} PrintNatDigits(n: nat, i: nat)
    requires i < |PrintNat(n)|
    ensures PrintNat(n)[|PrintNat(n)| - 1 - i] as int == '0' as int + Without(n, i) % 10
    ensures n > 0 ==> PrintNat(n)[0] != '0'
  {
    if n >= 10 {
      PrintNatDigits(n / 10, if i > 0 then i - 1 else 0);
    }
  }

  function DigitsValue(s: string): nat
    requires AllDigits(s)
  {
    if s == [] then 0
    else 10 * DigitsValue(s[..|s| - 1]) + (s[|s| - 1] as int - '0' as int)
  }

  /** strconv.Atoi: one optional sign, then at least one digit and nothing else, within 64 bits. */
  function Atoi(s: string): Option<int> {
    var signed := s != [] && (s[0] == '-' || s[0] == '+');
    var digits := if signed then s[1..] else s;
    if digits == [] || !AllDigits(digits) then None
    else
      var value: int := DigitsValue(digits);
      var n := if signed && s[0] == '-' then -value else value;
      if IsInt64(n) then Some(n) else None
  }

  lemma {:induction false} DigitsValueOfPrintNat(n: nat)
    ensures DigitsValue(PrintNat(n)) == n
  {
    if n < 10 {
      assert PrintNat(n)[..0] == [];
    } else {
      DigitsValueOfPrintNat(n / 10);
      assert PrintNat(n)[..|PrintNat(n)| - 1] == PrintNat(n / 10);
    }
  }

  /** Parsing undoes printing on every 64-bit integer. */
  lemma AtoiOfItoa(n: int)
    requires IsInt64(n)
    ensures Atoi(Itoa(n)) == Some(n)
  {
    if n < 0 {
      DigitsValueOfPrintNat(-n);
      assert Itoa(n)[1..] == PrintNat(-n);
    } else {
      DigitsValueOfPrintNat(n);
      assert IsDigit(Itoa(n)[0]);
    }
  }

  function Zeros(k: nat): (r: string)
    ensures |r| == k && AllDigits(r)
  {
    seq(k, _ => '0')
  }

  /** Digits are some zeros in front of a printed number, which is their value. */
  lemma {:induction false} DigitsArePrinted(s: string) returns (k: nat)
    requires AllDigits(s) && s != []
    ensures s == Zeros(k) + PrintNat(DigitsValue(s))
  {
    var init, last := s[..|s| - 1], s[|s| - 1] as int - '0' as int;
    assert s == init + [DigitChar(last)];
    if init == [] {
      k := 0;
    } else {
      k := DigitsArePrinted(init);
      if DigitsValue(init) == 0 {
        assert PrintNat(DigitsValue(init)) == Zeros(1);
        k := k + 1;
      }
      assert (10 * DigitsValue(init) + last) / 10 == DigitsValue(init);
    }
  }

  lemma {:induction false} ZerosAreNothing(k: nat, n: nat)
    ensures AllDigits(Zeros(k) + PrintNat(n)) && DigitsValue(Zeros(k) + PrintNat(n)) == n
    decreases n
  {
    var s := Zeros(k) + PrintNat(n);
    if n >= 10 {
      ZerosAreNothing(k, n / 10);
      assert s[..|s| - 1] == Zeros(k) + PrintNat(n / 10);
    } else {
      assert s[..|s| - 1] == Zeros(k);
      ZerosAreZero(k);
    }
  }

  lemma {:induction false} ZerosAreZero(k: nat)
    ensures DigitsValue(Zeros(k)) == 0
  {
    if k > 0 {
      assert Zeros(k)[..k - 1] == Zeros(k - 1);
      ZerosAreZero(k - 1);
    }
  }

  function Magnitude(n: int): nat {
    if n < 0 then -n else n
  }

  /** The string is a number with nothing around it but a sign and zeros in front. */
  ghost predicate Writes(s: string, sign: string, k: nat, n: int) {
    && ((sign == "-" && n <= 0) || ((sign == "+" || sign == "") && n >= 0))
    && s == sign + (Zeros(k) + PrintNat(Magnitude(n)))
  }

  lemma ParsedIsWritten(s: string, n: int) returns (sign: string, k: nat)
    requires Atoi(s) == Some(n)
    ensures Writes(s, sign, k, n)
  {
    var digits := if s[0] == '-' || s[0] == '+' then s[1..] else s;
    assert digits != [] && AllDigits(digits) && Magnitude(n) == DigitsValue(digits);
    k := DigitsArePrinted(digits);
    sign := if s[0] == '-' then "-" else if s[0] == '+' then "+" else "";
    assert s == sign + digits;
  }

  lemma ReadsDigits(sign: string, digits: string, n: int)
    requires sign == "-" || sign == "+" || sign == ""
    requires digits != [] && AllDigits(digits) && IsInt64(n)
    requires sign == "-" ==> DigitsValue(digits) == -n
    requires sign != "-" ==> DigitsValue(digits) == n
    ensures Atoi(sign + digits) == Some(n)
  {
    var s := sign + digits;
    if sign == "" {
      assert s == digits && IsDigit(s[0]);
    } else {
      assert s[0] == sign[0] && s[1..] == digits;
    }
  }

  lemma WrittenIsParsed(s: string, sign: string, k: nat, n: int)
    requires IsInt64(n) && Writes(s, sign, k, n)
    ensures Atoi(s) == Some(n)
  {
    var digits := Zeros(k) + PrintNat(Magnitude(n));
    ZerosAreNothing(k, Magnitude(n));
    ReadsDigits(sign, digits, n);
  }

  /** What is parsed, and as what: exactly the writings of the 64-bit integers. */
  lemma AtoiIff(s: string, n: int)
    ensures Atoi(s) == Some(n) <==> IsInt64(n) && exists sign: string, k: nat :: Writes(s, sign, k, n)
  {
    if Atoi(s) == Some(n) {
      var sign, k := ParsedIsWritten(s, n);
    } else if IsInt64(n) {
      forall sign: string, k: nat | Writes(s, sign, k, n) ensures false {
        WrittenIsParsed(s, sign, k, n);
      }
    }
  }

  lemma SignOfItoa(n: int)
    ensures Itoa(n)[0] == '-' <==> n < 0
  {
    assert n >= 0 ==> IsDigit(PrintNat(n)[0]);
  }

  /** Two different integers never print alike. */
  lemma ItoaInjective(m: int, n: int)
    requires Itoa(m) == Itoa(n)
    ensures m == n
  {
    SignOfItoa(m);
    SignOfItoa(n);
    if m >= 0 {
      DigitsValueOfPrintNat(m);
      DigitsValueOfPrintNat(n);
    } else {
      DigitsValueOfPrintNat(-m);
      DigitsValueOfPrintNat(-n);
      assert PrintNat(-m) == Itoa(m)[1..] == Itoa(n)[1..] == PrintNat(-n);
    }
  }
}
