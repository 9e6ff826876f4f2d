/** Integers in decimal, as strconv and fmt print them. */
module Decimal {

  import opened Bytes

  type int64 = n: int | -0x8000_0000_0000_0000 <= n < 0x8000_0000_0000_0000

  function Power10(k: nat): (p: nat)
    ensures p > 0
  {
    if k == 0 then 1 else 10 * Power10(k - 1)
  }

  predicate IsDigit(b: Byte) {
    ZERO <= b < ZERO + 10
  }

  function Digits(n: nat): seq<Byte> {
    if n < 10 then [ZERO + n] else Digits(n / 10) + [ZERO + n % 10]
  }

  function Value(text: seq<Byte>): int {
    if text == [] then 0 else 10 * Value(text[..|text| - 1]) + (text[|text| - 1] - ZERO)
  }

  lemma {:induction false} DigitsAreRead(n: nat)
    ensures Value(Digits(n)) == n && Digits(n) != []
    ensures forall b :: b in Digits(n) ==> IsDigit(b)
  {
    if n >= 10 {
      DigitsAreRead(n / 10);
      assert Digits(n)[..|Digits(n)| - 1] == Digits(n / 10);
    } else {
      assert Digits(n)[..0] == [];
    }
  }

  lemma {:induction false} DigitsFit(n: nat, k: nat)
    requires k > 0
    ensures |Digits(n)| <= k <==> n < Power10(k)
  {
    if k == 1 {
      assert Power10(1) == 10;
      DigitsAreRead(n / 10);
    } else if n >= 10 {
      DigitsFit(n / 10, k - 1);
    }
  }

  function FormatInt(n: int): seq<Byte> {
    if n < 0 then [DASH] + Digits(-n) else Digits(n)
  }

  /** An int64 prints in at most twenty bytes. */
  lemma FormatIntFits(n: int64)
    ensures |FormatInt(n)| <= 20
  {
    assert Power10(19) == 10_000_000_000_000_000_000 by {
      assert Power10(4) == 10_000;
      assert Power10(8) == 100_000_000;
      assert Power10(12) == 1_000_000_000_000;
      assert Power10(16) == 10_000_000_000_000_000;
    }
    var magnitude: int := if n < 0 then -(n as int) else n;
    DigitsFit(magnitude, 19);
  }

  function Zeros(n: nat): seq<Byte> {
    seq(n, _ => ZERO)
  }

  /** Zero-padded to at least width digits. */
  function Padded(n: nat, width: nat): seq<Byte> {
    Zeros(if |Digits(n)| < width then width - |Digits(n)| else 0) + Digits(n)
  }

  lemma {:induction false} PaddingIsRead(zeros: nat, n: nat, length: nat)
    requires length <= |Digits(n)|
    ensures Value(Zeros(zeros) + Digits(n)[..length]) == Value(Digits(n)[..length])
    decreases zeros + length
  {
    var text := Zeros(zeros) + Digits(n)[..length];
    if length > 0 {
      PaddingIsRead(zeros, n, length - 1);
      assert text[..|text| - 1] == Zeros(zeros) + Digits(n)[..length - 1];
      assert Digits(n)[..length][..length - 1] == Digits(n)[..length - 1];
    } else if zeros > 0 {
      PaddingIsRead(zeros - 1, n, 0);
      assert text[..|text| - 1] == Zeros(zeros - 1) + Digits(n)[..0];
    }
  }

  /** A number below ten to the width takes exactly the width, in digits, and is read back. */
  lemma PaddedIsRead(n: nat, width: nat)
    requires width > 0 && n < Power10(width)
    ensures |Padded(n, width)| == width && Value(Padded(n, width)) == n
    ensures forall b :: b in Padded(n, width) ==> IsDigit(b)
  {
    DigitsFit(n, width);
    DigitsAreRead(n);
    PaddingIsRead(width - |Digits(n)|, n, |Digits(n)|);
    assert Digits(n)[..|Digits(n)|] == Digits(n);
  }
}
