/** Decimal numerals: Go's `strconv.FormatUint`, `ParseUint` and the `%06d` verb. */
module Decimal {
  import opened Text

  const TWO64: nat := 0x1_0000_0000_0000_0000

  function Digit(d: nat): (c: char)
    requires d < 10
    ensures '0' <= c <= '9' && DigitValue(c) == d
  {
    '0' + d as char
  }

  function DigitValue(c: char): nat
    requires '0' <= c <= '9'
  {
    (c - '0') as nat
  }

  predicate AllDigits(s: string) {
    forall i :: 0 <= i < |s| ==> '0' <= s[i] <= '9'
  }

  /** The shortest decimal numeral of n. */
  function Digits(n: nat): (s: string)
    ensures AllDigits(s) && s != ""
  {
    if n < 10 then [Digit(n)] else Digits(n / 10) + [Digit(n % 10)]
  }

  /** The number an all-digit string denotes, leading zeros allowed. */
  function Number(s: string): nat
    requires AllDigits(s)
  {
    if s == "" then 0 else 10 * Number(s[..|s| - 1]) + DigitValue(s[|s| - 1])
  }

  /** `strconv.ParseUint(s, 10, 64)`. */
  function ParseUint(s: string): (r: Option<nat>)
    ensures r.Some? ==> r.value < TWO64
  {
    if s != "" && AllDigits(s) && Number(s) < TWO64 then Some(Number(s)) else None
  }

  /** `%06d`. */
  function Pad6(n: nat): (s: string)
    ensures AllDigits(s) && |s| >= 6
  {
    Zeros(6 - |Digits(n)|) + Digits(n)
  }

  function Zeros(k: int): (s: string)
    ensures |s| == (if k < 0 then 0 else k) && forall i :: 0 <= i < |s| ==> s[i] == '0'
  {
    if k <= 0 then "" else "0" + Zeros(k - 1)
  }

  /** Go's `strconv.Itoa`. */
  function Itoa(n: int): (s: string)
    ensures s != "" && !IsSpace(s[0])
  {
    if n < 0 then "-" + Digits(-n) else Digits(n)
  }

  lemma {:induction false} NumberOfDigits(n: nat)
    ensures Number(Digits(n)) == n
  {
    if n >= 10 {
      NumberOfDigits(n / 10);
      assert Digits(n)[..|Digits(n)| - 1] == Digits(n / 10);
    } else {
      assert [Digit(n)][..0] == "";
    }
  }

  lemma {:induction false} LeadingZeros(k: nat, s: string)
    requires AllDigits(s)
    ensures Number(Zeros(k) + s) == Number(s)
    decreases |s|, k
  {
    var t := Zeros(k) + s;
    if s == "" {
      assert t == Zeros(k);
      if k > 0 {
        LeadingZeros(k - 1, "");
        assert Zeros(k - 1) + "" == Zeros(k - 1);
        assert t[..k - 1] == Zeros(k - 1);
      }
    } else {
      assert t[..|t| - 1] == Zeros(k) + s[..|s| - 1];
      LeadingZeros(k, s[..|s| - 1]);
    }
  }

  /** The printer `%06d` is inverted by `ParseUint` on every 64-bit number, six digits or more. */
  lemma ParseOfPad6(n: nat)
    requires n < TWO64
    ensures ParseUint(Pad6(n)) == Some(n)
  {
    Pad6Facts(n);
  }

  lemma {:induction false} DigitsShort(n: nat, width: nat)
    requires width > 0 && n < Power10(width)
    ensures |Digits(n)| <= width
  {
    if n >= 10 { DigitsShort(n / 10, width - 1); }
  }

  function Power10(k: nat): (p: nat)
    ensures p >= 1
  {
    if k == 0 then 1 else 10 * Power10(k - 1)
  }

  /** The padded numeral denotes its number, and has six digits as long as these suffice. */
  lemma Pad6Facts(n: nat)
    ensures Number(Pad6(n)) == n
    ensures n < 1_000_000 ==> |Pad6(n)| == 6
  {
    NumberOfDigits(n);
    var k := if 6 - |Digits(n)| < 0 then 0 else 6 - |Digits(n)|;
    assert Zeros(6 - |Digits(n)|) == Zeros(k);
    LeadingZeros(k, Digits(n));
    assert Power10(6) == 1_000_000 by { assert Power10(3) == 1000; }
    if n < 1_000_000 { DigitsShort(n, 6); }
  }

  lemma ParseOfDigits(n: nat)
    requires n < TWO64
    ensures ParseUint(Digits(n)) == Some(n)
  {
    NumberOfDigits(n);
  }

  /** Different numbers print differently. */
  lemma ItoaTold(m: int, n: int)
    ensures Itoa(m) == Itoa(n) <==> m == n
  {
    NumberOfDigits(if m < 0 then -m else m);
    NumberOfDigits(if n < 0 then -n else n);
    if m < 0 { assert Itoa(m)[1..] == Digits(-m) && Itoa(m)[0] == '-'; }
    if n < 0 { assert Itoa(n)[1..] == Digits(-n) && Itoa(n)[0] == '-'; }
  }

  lemma DigitsEndInDigit(n: nat)
    ensures !IsSpace(Digits(n)[|Digits(n)| - 1])
  {}

  lemma ItoaTrimmed(n: int)
    ensures Trimmed(Itoa(n))
  {
    DigitsEndInDigit(if n < 0 then -n else n);
  }
}
