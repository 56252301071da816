/**
 * Decimal text for 32-bit signed integers, as Rust's standard library reads
 * it (`str::parse::<i32>`) and writes it (`{:0w}`, zero-padded to width w).
 */
module Decimal {
  import opened Wrappers

  const I32Min: int := -0x8000_0000
  const I32Max: int := 0x7fff_ffff

  /** Rust's `i32`. */
  type Int32 = x: int | I32Min <= x <= I32Max

  predicate IsDigit(c: char) {
    '0' <= c <= '9'
  }

  predicate AllDigits(s: string) {
    forall i :: 0 <= i < |s| ==> IsDigit(s[i])
  }

  /** A digit string holds no `-`. */
  lemma DigitsNoDash(s: string)
    requires AllDigits(s)
    ensures '-' !in s
  {
  }

  function DigitValue(c: char): nat
    requires IsDigit(c)
  {
    c as int - '0' as int
  }

  function DigitChar(d: nat): (c: char)
    requires d < 10
    ensures IsDigit(c) && DigitValue(c) == d
  {
    ('0' as int + d) as char
  }

  /** The number a run of decimal digits denotes, most significant digit first. */
  function Value(s: string): nat
    requires AllDigits(s)
  {
    if s == [] then 0 else Value(s[..|s| - 1]) * 10 + DigitValue(s[|s| - 1])
  }

  /** The shortest decimal spelling of `n`, as `{}` writes a non-negative integer. */
  function Digits(n: nat): (s: string)
    ensures |s| >= 1 && AllDigits(s)
    ensures Value(s) == n
    ensures s[0] == '0' ==> s == "0"
  {
    if n < 10 then [DigitChar(n)]
    else
      var front := Digits(n / 10);
      var s := front + [DigitChar(n % 10)];
      assert s[..|s| - 1] == front;
      s
  }

  function Zeros(k: int): (s: string)
    ensures |s| == if k < 0 then 0 else k
    ensures AllDigits(s)
  {
    if k <= 0 then [] else ['0'] + Zeros(k - 1)
  }

  lemma {:induction false} ValueLeadingZero(t: string)
    requires AllDigits(t)
    ensures AllDigits(['0'] + t) && Value(['0'] + t) == Value(t)
  {
    var u := ['0'] + t;
    if t != [] {
      assert u[..|u| - 1] == ['0'] + t[..|t| - 1];
      ValueLeadingZero(t[..|t| - 1]);
    }
  }

  /** Leading zeros do not change the value of a digit string. */
  lemma {:induction false} ValueLeadingZeros(k: int, t: string)
    requires AllDigits(t)
    ensures AllDigits(Zeros(k) + t) && Value(Zeros(k) + t) == Value(t)
  {
    if k <= 0 {
      assert Zeros(k) + t == t;
    } else {
      ValueLeadingZeros(k - 1, t);
      assert Zeros(k) + t == ['0'] + (Zeros(k - 1) + t);
      ValueLeadingZero(Zeros(k - 1) + t);
    }
  }

  function Abs(n: int): nat {
    if n < 0 then -n else n
  }

  function Max(a: int, b: int): int {
    if a < b then b else a
  }

  /** The sign Rust writes before a number: `-` for negatives, nothing otherwise. */
  function Sign(n: int): string {
    if n < 0 then "-" else ""
  }

  /**
   * `format!("{:0w}", n)`: the sign, then as many zeros as make the whole at
   * least `width` characters long, then the digits of |n|. A number longer
   * than `width` is never cut.
   */
  function ZeroPad(n: int, width: nat): (s: string)
    ensures |s| == Max(width, |Sign(n)| + |Digits(Abs(n))|)
  {
    var body := Digits(Abs(n));
    Sign(n) + Zeros(width - |Sign(n)| - |body|) + body
  }

  /** A padded non-negative number is all digits and still denotes the number. */
  lemma ZeroPadNonNegative(n: int, width: nat)
    requires n >= 0
    ensures AllDigits(ZeroPad(n, width)) && Value(ZeroPad(n, width)) == n
  {
    var body := Digits(Abs(n));
    ValueLeadingZeros(width - |body|, body);
    assert ZeroPad(n, width) == Zeros(width - |body|) + body;
  }

  /** A padded negative number is a `-` followed by the padded digits of its magnitude. */
  lemma ZeroPadNegative(n: int, width: nat)
    requires n < 0
    ensures ZeroPad(n, width)[0] == '-'
    ensures AllDigits(ZeroPad(n, width)[1..]) && Value(ZeroPad(n, width)[1..]) == -n
  {
    var body := Digits(Abs(n));
    ValueLeadingZeros(width - 1 - |body|, body);
    assert ZeroPad(n, width)[1..] == Zeros(width - 1 - |body|) + body;
  }

  /**
   * `str::parse::<i32>`: an optional `+` or `-`, then one or more ASCII
   * digits, denoting a number in the range of `i32`; anything else is `None`.
   */
  function ParseI32(s: string): (r: Option<Int32>)
    ensures s == [] ==> r == None
    ensures r.Some? ==> forall i :: 0 < i < |s| ==> IsDigit(s[i])
    ensures r.Some? ==> IsDigit(s[0]) || (|s| >= 2 && (s[0] == '+' || s[0] == '-'))
    ensures r.Some? && r.value < 0 ==> s[0] == '-'
    ensures s != [] && AllDigits(s) && Value(s) <= I32Max ==> r == Some(Value(s))
  {
    if s == [] then None
    else if (s[0] == '+' || s[0] == '-') && |s| == 1 then None
    else
      var digits := if s[0] == '+' || s[0] == '-' then s[1..] else s;
      if !AllDigits(digits) then None
      else
        var magnitude: int := Value(digits);
        var v := if s[0] == '-' then -magnitude else magnitude;
        if I32Min <= v <= I32Max then Some(v) else None
  }

  function Pow10(k: nat): (p: nat)
    ensures p >= 1
  {
    if k == 0 then 1 else 10 * Pow10(k - 1)
  }

  lemma {:induction false} Pow10Monotone(a: nat, b: nat)
    requires a <= b
    ensures Pow10(a) <= Pow10(b)
  {
    if a < b {
      Pow10Monotone(a, b - 1);
    }
  }

  /** A string of k digits denotes a number below 10^k. */
  lemma {:induction false} ValueBound(s: string)
    requires AllDigits(s)
    ensures Value(s) < Pow10(|s|)
  {
    if s != [] {
      var front := s[..|s| - 1];
      ValueBound(front);
      assert Value(front) + 1 <= Pow10(|front|);
      assert (Value(front) + 1) * 10 <= Pow10(|front|) * 10;
    }
  }

  /** The shortest spelling of a positive n has no more digits than n needs. */
  lemma {:induction false} DigitsLength(n: nat)
    requires n > 0
    ensures Pow10(|Digits(n)| - 1) <= n
  {
    if n >= 10 {
      DigitsLength(n / 10);
      assert |Digits(n)| == |Digits(n / 10)| + 1;
    }
  }

  /** Two digit strings of one length that denote the same number are the same string. */
  lemma {:induction false} DigitStringsInjective(s: string, t: string)
    requires AllDigits(s) && AllDigits(t) && |s| == |t|
    requires Value(s) == Value(t)
    ensures s == t
  {
    if s != [] {
      var sf, tf := s[..|s| - 1], t[..|t| - 1];
      var x, y := DigitValue(s[|s| - 1]), DigitValue(t[|t| - 1]);
      assert Value(sf) * 10 + x == Value(tf) * 10 + y;
      assert x == y && Value(sf) == Value(tf);
      DigitStringsInjective(sf, tf);
      assert s == sf + [s[|s| - 1]] && t == tf + [t[|t| - 1]];
    }
  }

  /** The shortest spelling of what a non-empty digit string denotes is no longer than the string. */
  lemma DigitsFit(s: string)
    requires AllDigits(s) && |s| >= 1
    ensures |Digits(Value(s))| <= |s|
  {
    var n := Value(s);
    if n == 0 {
      assert Digits(n) == [DigitChar(0)];
    } else {
      var k := |Digits(n)|;
      ValueBound(s);
      DigitsLength(n);
      if k > |s| {
        Pow10Monotone(|s|, k - 1);
        assert false;
      }
    }
  }

  /** Padding the number a digit string denotes to the string's own width gives the string back. */
  lemma PadCanonical(s: string)
    requires AllDigits(s) && |s| >= 1
    ensures ZeroPad(Value(s), |s|) == s
  {
    var n := Value(s);
    var padded := ZeroPad(n, |s|);
    ZeroPadNonNegative(n, |s|);
    DigitsFit(s);
    assert |Sign(n)| == 0;
    assert |padded| == |s|;
    DigitStringsInjective(padded, s);
  }

  /** Parsing a zero-padded non-negative `i32` gives the number back. */
  lemma ParsePadded(n: Int32, width: nat)
    requires n >= 0
    ensures ParseI32(ZeroPad(n, width)) == Some(n)
  {
    ZeroPadNonNegative(n, width);
  }
}
