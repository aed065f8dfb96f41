/** Decimal text and 64-bit unsigned integers: `str::parse::<u64>` and
    `u64::to_string`, as the puzzle code uses them. */
module Decimal {
  import opened Wrappers

  const U64_MAX: nat := 0xFFFF_FFFF_FFFF_FFFF

  predicate IsDigit(c: char) {
    '0' <= c <= '9'
  }

  function DigitValue(c: char): (d: nat)
    requires IsDigit(c)
    ensures d < 10
  {
    (c as int) - ('0' as int)
  }

  function DigitChar(d: nat): (c: char)
    requires d < 10
    ensures IsDigit(c) && DigitValue(c) == d
  {
    (('0' as int) + d) as char
  }

  predicate AllDigits(s: string) {
    forall i | 0 <= i < |s| :: IsDigit(s[i])
  }

  function Pow10(n: nat): (p: nat)
    ensures p >= 1
  {
    if n == 0 then 1 else 10 * Pow10(n - 1)
  }

  /** The number a string of decimal digits denotes, read most significant first. */
  function Value(s: string): nat
    requires AllDigits(s)
  {
    if s == [] then 0 else 10 * Value(s[..|s| - 1]) + DigitValue(s[|s| - 1])
  }

  /** Appending digits shifts the number left by as many decimal places. */
  lemma {:induction false} ValueAppend(s: string, t: string)
    requires AllDigits(s) && AllDigits(t)
    ensures AllDigits(s + t)
    ensures Value(s + t) == Value(s) * Pow10(|t|) + Value(t)
  {
    AllDigitsAppend(s, t);
    if t == [] {
      assert s + t == s;
    } else {
      var t' := t[..|t| - 1];
      assert AllDigits(t');
      ValueAppend(s, t');
      ValueAppendStep(s, t);
    }
  }

  lemma {:induction false} AllDigitsAppend(s: string, t: string)
    requires AllDigits(s) && AllDigits(t)
    ensures AllDigits(s + t)
  {
    forall i | 0 <= i < |s + t| ensures IsDigit((s + t)[i]) {
      if i < |s| { assert (s + t)[i] == s[i]; } else { assert (s + t)[i] == t[i - |s|]; }
    }
  }

  /** One more digit at the end of `t`, given the value without it. */
  lemma {:induction false} ValueAppendStep(s: string, t: string)
    requires AllDigits(s) && AllDigits(t) && t != []
    requires AllDigits(s + t[..|t| - 1]) && AllDigits(s + t)
    requires Value(s + t[..|t| - 1]) == Value(s) * Pow10(|t| - 1) + Value(t[..|t| - 1])
    ensures Value(s + t) == Value(s) * Pow10(|t|) + Value(t)
  {
    var t' := t[..|t| - 1];
    assert (s + t)[..|s + t| - 1] == s + t';
    assert (s + t)[|s + t| - 1] == t[|t| - 1];
    ShiftLeft(Value(s + t), Value(s + t'), Value(s), Pow10(|t'|), Value(t'), DigitValue(t[|t| - 1]), Value(t), Pow10(|t|));
  }

  lemma {:induction false} ShiftLeft(total: nat, prefix: nat, v: nat, p: nat, w: nat, d: nat, value: nat, power: nat)
    requires total == 10 * prefix + d && prefix == v * p + w
    requires value == 10 * w + d && power == 10 * p
    ensures total == v * power + value
  {
  }

  /** The error kinds of Rust's `ParseIntError` that a `u64` parse can report. */
  datatype IntErrorKind = Empty | InvalidDigit | PosOverflow

  /** The digit loop of `u64::from_str`: shift in one digit at a time and stop
      at the first character that is not a digit or the first overflow. */
  function Accumulate(digits: string, acc: nat): (r: Result<nat, IntErrorKind>)
    requires acc <= U64_MAX
    ensures r.Ok? <==> AllDigits(digits) && acc * Pow10(|digits|) + Value(digits) <= U64_MAX
    ensures r.Ok? ==> r.value == acc * Pow10(|digits|) + Value(digits)
  {
    if digits == [] then Ok(acc)
    else if !IsDigit(digits[0]) then Err(InvalidDigit)
    else
      var next := 10 * acc + DigitValue(digits[0]);
      if next > U64_MAX then
        AccumulateOverflows(digits, acc);
        Err(PosOverflow)
      else
        var r := Accumulate(digits[1..], next);
        AccumulateStep(digits, acc);
        r
  }

  /** One step of `Accumulate`, in terms of the whole digit string. */
  lemma {:induction false} AccumulateStep(digits: string, acc: nat)
    requires digits != [] && IsDigit(digits[0])
    ensures AllDigits(digits) <==> AllDigits(digits[1..])
    ensures AllDigits(digits) ==>
              acc * Pow10(|digits|) + Value(digits)
              == (10 * acc + DigitValue(digits[0])) * Pow10(|digits| - 1) + Value(digits[1..])
  {
    var t := digits[1..];
    assert digits == [digits[0]] + t;
    if AllDigits(digits) {
      ValueAppend([digits[0]], t);
      assert [digits[0]][..0] == [];
      var d, p := DigitValue(digits[0]), Pow10(|t|);
      assert Value([digits[0]]) == d;
      assert Value(digits) == d * p + Value(t);
      assert Pow10(|digits|) == 10 * p;
      ShiftIn(acc, d, p, Value(t));
    }
  }

  lemma {:induction false} ShiftIn(acc: nat, d: nat, p: nat, w: nat)
    ensures acc * (10 * p) + (d * p + w) == (10 * acc + d) * p + w
  {
  }

  /** Once the running value exceeds the maximum, so does the whole number. */
  lemma {:induction false} AccumulateOverflows(digits: string, acc: nat)
    requires digits != [] && IsDigit(digits[0])
    requires 10 * acc + DigitValue(digits[0]) > U64_MAX
    ensures !(AllDigits(digits) && acc * Pow10(|digits|) + Value(digits) <= U64_MAX)
  {
    AccumulateStep(digits, acc);
    var next := 10 * acc + DigitValue(digits[0]);
    assert next * Pow10(|digits| - 1) >= next;
  }

  /** The digits `u64::from_str` reads: a leading `+` is accepted and skipped. */
  function Unsigned(s: string): string {
    if |s| > 0 && s[0] == '+' then s[1..] else s
  }

  /** `s.parse::<u64>()`. */
  function ParseU64(s: string): (r: Result<nat, IntErrorKind>)
    ensures r.Ok? <==> Unsigned(s) != [] && AllDigits(Unsigned(s)) && Value(Unsigned(s)) <= U64_MAX
    ensures r.Ok? ==> r.value == Value(Unsigned(s))
    ensures s == [] ==> r == Err(Empty)
  {
    if s == [] then Err(Empty)
    else if s == "+" || s == "-" then Err(InvalidDigit)
    else Accumulate(Unsigned(s), 0)
  }

  /** `n.to_string()`: decimal digits, no leading zero. */
  function ToDecimal(n: nat): (s: string)
    ensures s != [] && AllDigits(s)
    ensures |s| > 1 ==> s[0] != '0'
    ensures Value(s) == n
  {
    if n < 10 then [DigitChar(n)]
    else
      var s := ToDecimal(n / 10) + [DigitChar(n % 10)];
      assert s[..|s| - 1] == ToDecimal(n / 10);
      s
  }

  /** Printing a `u64` and parsing it back gives the same number. */
  lemma {:induction false} ParseToDecimal(n: nat)
    requires n <= U64_MAX
    ensures ParseU64(ToDecimal(n)) == Ok(n)
  {
    assert Unsigned(ToDecimal(n)) == ToDecimal(n);
  }
}
