/**
 * Decimal rendering of integers as Go's fmt package does it for the `%d`
 * verb and for `%.Nd` (precision N: at least N digits, zero-padded on the
 * left, the minus sign not counted), together with the parser that inverts it.
 */
module DecimalText {

  function Pow10(n: nat): (p: nat)
    ensures p >= 1
  {
    if n == 0 then 1 else 10 * Pow10(n - 1)
  }

  predicate IsDigit(c: char) {
    '0' <= c <= '9'
  }

  predicate AllDigits(s: string) {
    forall i :: 0 <= i < |s| ==> IsDigit(s[i])
  }

  function DigitChar(d: nat): (c: char)
    requires d < 10
    ensures IsDigit(c) && c as int - '0' as int == d
  {
    (('0' as int) + d) as char
  }

  function DigitValue(c: char): nat
    requires IsDigit(c)
  {
    c as int - '0' as int
  }

  /** `%d` of a non-negative number: its digits, most significant first, no leading zero. */
  function Decimal(n: nat): (s: string)
    ensures 1 <= |s| && AllDigits(s)
    ensures s[0] == '0' ==> n == 0
  {
    if n < 10 then [DigitChar(n)] else Decimal(n / 10) + [DigitChar(n % 10)]
  }

  /** The value of a string of decimal digits (the empty string reads as 0). */
  function Parse(s: string): nat
    requires AllDigits(s)
  {
    if s == [] then 0 else Parse(s[..|s| - 1]) * 10 + DigitValue(s[|s| - 1])
  }

  /** `k` zero characters. */
  function Zeros(k: nat): (s: string)
    ensures |s| == k && AllDigits(s)
  {
    if k == 0 then [] else Zeros(k - 1) + ['0']
  }

  /** Reading back what `Decimal` wrote gives the number again. */
  lemma {:induction false} ParseDecimal(n: nat)
    ensures Parse(Decimal(n)) == n
  {
    if n >= 10 {
      var s := Decimal(n);
      assert s[..|s| - 1] == Decimal(n / 10);
      ParseDecimal(n / 10);
    }
  }

  /** Leading zeros do not change the value read. */
  lemma {:induction false} ParseLeadingZeros(k: nat, s: string)
    requires AllDigits(s)
    ensures AllDigits(Zeros(k) + s)
    ensures Parse(Zeros(k) + s) == Parse(s)
  {
    var t := Zeros(k) + s;
    assert AllDigits(t) by {
      forall i | 0 <= i < |t| ensures IsDigit(t[i]) {
        if i < k { assert t[i] == Zeros(k)[i]; } else { assert t[i] == s[i - k]; }
      }
    }
    if s == [] {
      assert t == Zeros(k);
      if k > 0 {
        assert Zeros(k)[..k - 1] == Zeros(k - 1);
        ParseLeadingZeros(k - 1, []);
        assert Zeros(k - 1) + [] == Zeros(k - 1);
      }
    } else {
      var init := s[..|s| - 1];
      assert t[..|t| - 1] == Zeros(k) + init;
      assert t[|t| - 1] == s[|s| - 1];
      ParseLeadingZeros(k, init);
    }
  }

  /** `Decimal(n)` fits in `w` digits exactly when `n < 10^w`. */
  lemma {:induction false} DecimalFits(n: nat, w: nat)
    requires w >= 1
    ensures |Decimal(n)| <= w <==> n < Pow10(w)
  {
    if n < 10 {
      Pow10Grows(w);
    } else if w > 1 {
      DecimalFits(n / 10, w - 1);
    }
  }

  lemma {:induction false} Pow10Grows(w: nat)
    requires w >= 1
    ensures Pow10(w) >= 10
  {
    if w > 1 { Pow10Grows(w - 1); }
  }

  function Abs(n: int): nat {
    if n < 0 then -n else n
  }

  function MaxNat(a: nat, b: nat): nat {
    if a < b then b else a
  }

  /**
   * `%.<width>d` of `n`: a minus sign for a negative `n`, then the digits of
   * `|n|` zero-padded on the left to at least `width` characters. As in Go's
   * fmt, a precision of 0 prints nothing at all for the value 0.
   */
  function Padded(n: int, width: nat): (s: string)
    ensures |s| == if width == 0 && n == 0 then 0
                   else (if n < 0 then 1 else 0) + MaxNat(width, |Decimal(Abs(n))|)
    ensures 0 <= n ==> AllDigits(s) && Parse(s) == n
    ensures n < 0 ==> s[0] == '-' && AllDigits(s[1..]) && Parse(s[1..]) == -n
    ensures 1 <= width && 0 <= n < Pow10(width) ==> |s| == width
  {
    if width == 0 && n == 0 then
      []
    else
      var digits := Decimal(Abs(n));
      var pad := if |digits| < width then width - |digits| else 0;
      var body := Zeros(pad) + digits;
      ParseDecimal(Abs(n));
      ParseLeadingZeros(pad, digits);
      DecimalFits(Abs(n), MaxNat(width, 1));
      if n < 0 then
        assert (['-'] + body)[1..] == body;
        ['-'] + body
      else
        body
  }
}
