/** Decimal notation: unpadded as in string concatenation, zero-padded as in queue keys, and byte-wise string order. */
module Decimals {

  const DIGITS := "0123456789"

  function Digit(d: nat): char
    requires d < 10
  {
    DIGITS[d]
  }

  predicate IsDigit(c: char) {
    '0' <= c <= '9'
  }

  function Weight(c: char): nat
    requires IsDigit(c)
  {
    c as int - '0' as int
  }

  predicate Numeral(s: string) {
    forall i :: 0 <= i < |s| ==> IsDigit(s[i])
  }

  function Decimal(n: nat): (s: string)
    ensures Numeral(s) && s != ""
  {
    if n < 10 then [Digit(n)] else Decimal(n / 10) + [Digit(n % 10)]
  }

  function Value(s: string): nat
    requires Numeral(s)
  {
    if s == "" then 0 else Value(s[..|s| - 1]) * 10 + Weight(s[|s| - 1])
  }

  function Pow10(k: nat): nat {
    if k == 0 then 1 else 10 * Pow10(k - 1)
  }

  lemma {:induction false} DecimalValue(n: nat)
    ensures Value(Decimal(n)) == n
  {
    if n >= 10 {
      DecimalValue(n / 10);
      assert Decimal(n)[..|Decimal(n)| - 1] == Decimal(n / 10);
    }
  }

  lemma DecimalInjective(m: nat, n: nat)
    ensures Decimal(m) == Decimal(n) ==> m == n
  {
    DecimalValue(m);
    DecimalValue(n);
  }

  lemma {:induction false} DecimalLength(n: nat, k: nat)
    requires 1 <= k && n < Pow10(k)
    ensures |Decimal(n)| <= k
  {
    if n >= 10 {
      assert Pow10(1) == 10;
      DecimalLength(n / 10, k - 1);
    }
  }

  // ---- padding ----

  function Zeros(k: nat): (s: string)
    ensures Numeral(s) && |s| == k
  {
    seq(k, _ => '0')
  }

  /** Zero-padding to a minimum width. */
  function Padded(n: nat, width: nat): (s: string)
    ensures Numeral(s)
  {
    var s := Decimal(n);
    if |s| >= width then s else Zeros(width - |s|) + s
  }

  lemma {:induction false} LeadingZeros(k: nat, s: string)
    requires Numeral(s)
    ensures Value(Zeros(k) + s) == Value(s)
  {
    if s != "" {
      LeadingZeros(k, s[..|s| - 1]);
      assert (Zeros(k) + s)[..|Zeros(k) + s| - 1] == Zeros(k) + s[..|s| - 1];
    } else if k > 0 {
      LeadingZeros(k - 1, "");
      assert (Zeros(k) + s)[..k - 1] == Zeros(k - 1) + "";
    }
  }

  lemma PaddedValue(n: nat, width: nat)
    ensures Value(Padded(n, width)) == n
  {
    DecimalValue(n);
    if |Decimal(n)| < width {
      LeadingZeros(width - |Decimal(n)|, Decimal(n));
    }
  }

  // ---- order ----

  /** Byte-wise lexicographic order, as a key-value store sorts its keys. */
  predicate Less(a: string, b: string) {
    b != "" && (a == "" || a[0] < b[0] || (a[0] == b[0] && Less(a[1..], b[1..])))
  }

  lemma {:induction false} ValueBound(s: string)
    requires Numeral(s)
    ensures Value(s) < Pow10(|s|)
  {
    if s != "" {
      ValueBound(s[..|s| - 1]);
    }
  }

  lemma ScaleUp(w: nat, p: nat, v: nat, d: nat)
    ensures (w * p + v) * 10 + d == w * (10 * p) + (v * 10 + d)
  {
    assert w * (10 * p) == 10 * (w * p);
  }

  lemma ValueBack(s: string)
    requires Numeral(s) && s != ""
    ensures Value(s) == Value(s[..|s| - 1]) * 10 + Weight(s[|s| - 1])
  {}

  lemma {:induction false} ValueFront(s: string)
    requires Numeral(s) && s != ""
    ensures Value(s) == Weight(s[0]) * Pow10(|s| - 1) + Value(s[1..])
  {
    if |s| == 1 {
      assert s[..0] == "" && s[1..] == "";
      assert Value(s) == Weight(s[0]);
    } else {
      var front, back := s[..|s| - 1], s[1..];
      ValueFront(front);
      ValueBack(s);
      ValueBack(back);
      assert back[..|back| - 1] == front[1..];
      ScaleUp(Weight(s[0]), Pow10(|s| - 2), Value(front[1..]), Weight(s[|s| - 1]));
      assert Pow10(|s| - 1) == 10 * Pow10(|s| - 2);
    }
  }

  lemma LeadingDigitDecides(x: nat, y: nat, p: nat, u: nat, v: nat)
    requires x < y && u < p
    ensures x * p + u < y * p + v
  {
    assert (x + 1) * p <= y * p;
  }

  /** On numerals of equal length, byte-wise order is numeric order. */
  lemma {:induction false} LessIsSmaller(a: string, b: string)
    requires Numeral(a) && Numeral(b) && |a| == |b|
    ensures Less(a, b) <==> Value(a) < Value(b)
  {
    if a != "" {
      ValueFront(a);
      ValueFront(b);
      ValueBound(a[1..]);
      ValueBound(b[1..]);
      var p := Pow10(|a| - 1);
      if a[0] < b[0] {
        LeadingDigitDecides(Weight(a[0]), Weight(b[0]), p, Value(a[1..]), Value(b[1..]));
      } else if b[0] < a[0] {
        LeadingDigitDecides(Weight(b[0]), Weight(a[0]), p, Value(b[1..]), Value(a[1..]));
      } else {
        LessIsSmaller(a[1..], b[1..]);
      }
    }
  }
}
