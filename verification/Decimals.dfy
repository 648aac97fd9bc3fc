/** Decimal numerals, as `fmt` writes them (`%d`, `%016d`) and `strconv.ParseInt` reads them. */
module Decimals {
  function Digit(d: nat): char
    requires d < 10
  {
    '0' + d as char
  }

  predicate IsDigit(c: char) {
    '0' <= c <= '9'
  }

  function DigitValue(c: char): nat
    requires IsDigit(c)
  {
    (c - '0') as nat
  }

  predicate AllDigits(s: string) {
    forall i | 0 <= i < |s| :: IsDigit(s[i])
  }

  /** `%d` */
  function ToString(n: nat): (s: string)
    ensures |s| >= 1 && AllDigits(s)
  {
    if n < 10 then [Digit(n)] else ToString(n / 10) + [Digit(n % 10)]
  }

  /** `%0<width>d`: at least `width` digits, more when the number needs them. */
  function Padded(n: nat, width: nat): (s: string)
    ensures AllDigits(s)
    decreases n, width
  {
    if width == 0 then (if n == 0 then "" else ToString(n))
    else if n < 10 then Zeros(width - 1) + [Digit(n)]
    else Padded(n / 10, width - 1) + [Digit(n % 10)]
  }

  function Zeros(k: nat): (s: string)
    ensures |s| == k && AllDigits(s) && forall i | 0 <= i < k :: s[i] == '0'
  {
    if k == 0 then "" else Zeros(k - 1) + "0"
  }

  function Pow10(k: nat): (p: nat)
    ensures p >= 1
  {
    if k == 0 then 1 else 10 * Pow10(k - 1)
  }

  /** The number a string of digits denotes. */
  function Denotes(s: string): nat
    requires AllDigits(s)
  {
    if s == "" then 0 else 10 * Denotes(s[..|s| - 1]) + DigitValue(s[|s| - 1])
  }

  lemma {:induction false} ZerosDenote(k: nat)
    ensures Denotes(Zeros(k)) == 0
  {
    if k > 0 {
      ZerosDenote(k - 1);
      assert Zeros(k)[..k - 1] == Zeros(k - 1);
    }
  }

  lemma {:induction false} ToStringDenotes(n: nat)
    ensures Denotes(ToString(n)) == n
  {
    if n < 10 {
      assert [Digit(n)][..0] == "";
    } else {
      ToStringDenotes(n / 10);
      assert ToString(n)[..|ToString(n)| - 1] == ToString(n / 10);
    }
  }

  /** Reading undoes writing, with or without padding. */
  lemma {:induction false} PaddedDenotes(n: nat, width: nat)
    ensures Denotes(Padded(n, width)) == n
    decreases width
  {
    var s := Padded(n, width);
    if width == 0 {
      if n > 0 { ToStringDenotes(n); }
    } else if n < 10 {
      ZerosDenote(width - 1);
      assert s[..|s| - 1] == Zeros(width - 1);
    } else {
      PaddedDenotes(n / 10, width - 1);
      assert s[..|s| - 1] == Padded(n / 10, width - 1);
    }
  }

  lemma {:induction false} PaddedWidth(n: nat, width: nat)
    requires width > 0 && n < Pow10(width)
    ensures |Padded(n, width)| == width
    decreases width
  {
    if n >= 10 {
      PaddedWidth(n / 10, width - 1);
    }
  }
}
