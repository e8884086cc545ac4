/** Integer helpers shared by the two pagers and the link builder:
    ceiling division of whole numbers (the page count of a listing),
    page offsets, and the decimal text of a page number. */
module Numbers {

  /** `a / b` rounded up, for a non-negative numerator and a positive divisor:
      the least number of size-`b` pages that hold `a` items. */
  function CeilDiv(a: nat, b: nat): (q: nat)
    requires b > 0
    ensures q * b >= a
    ensures q > 0 ==> (q - 1) * b < a
  {
    var q := (a + b - 1) / b;
    var r := (a + b - 1) % b;
    assert q * b + r == a + b - 1;
    assert (q - 1) * b == q * b - b;
    q
  }

  /** Index of the first item of the 1-based page `page` when pages hold `size` items. */
  function Offset(page: int, size: nat): int
  {
    (page - 1) * size
  }

  /** Pages are laid end to end: page `p + 1` starts where page `p` ends. */
  lemma OffsetStep(page: int, size: nat)
    ensures Offset(page + 1, size) == Offset(page, size) + size
  {
    assert (page + 1 - 1) * size == (page - 1) * size + size;
  }

  /** Every item index below `total` lies on exactly one page between 1 and the page count. */
  lemma {:induction false} PageOfIndex(i: nat, total: nat, size: nat)
    requires size > 0 && i < total
    ensures var p := i / size + 1;
      1 <= p <= CeilDiv(total, size) &&
      Offset(p, size) <= i < Offset(p, size) + size
    ensures forall p: int :: Offset(p, size) <= i < Offset(p, size) + size ==> p == i / size + 1
  {
    var p := i / size + 1;
    var q, r := i / size, i % size;
    assert i == q * size + r && 0 <= r < size;
    assert Offset(p, size) == q * size;
    var n := CeilDiv(total, size);
    if n < p {
      assert n <= q;
      assert n * size <= q * size by {
        MulMonotone(n, q, size);
      }
      assert false;
    }
    forall p': int | Offset(p', size) <= i < Offset(p', size) + size
      ensures p' == p
    {
      var k := p' - 1;
      assert Offset(p', size) == k * size;
      if k < q {
        assert (k + 1) * size == k * size + size;
        MulMonotone(k + 1, q, size);
        assert false;
      } else if k > q {
        MulMonotone(q + 1, k, size);
      }
    }
  }

  /** The last page is never empty: it starts before the end of a non-empty listing. */
  lemma LastPageStartsInside(total: nat, size: nat)
    requires size > 0 && total > 0
    ensures 0 <= Offset(CeilDiv(total, size), size) < total
  {
    var n := CeilDiv(total, size);
    assert n >= 1;
    assert Offset(n, size) == (n - 1) * size;
  }

  lemma MulMonotone(a: int, b: int, c: nat)
    requires a <= b
    ensures a * c <= b * c
  {
    assert b * c - a * c == (b - a) * c;
  }

  // ---- Decimal text of a whole number, as JavaScript's `${n}` writes it ----

  predicate IsDigit(c: char)
  {
    '0' <= c <= '9'
  }

  predicate AllDigits(s: string)
  {
    forall i :: 0 <= i < |s| ==> IsDigit(s[i])
  }

  /** A non-empty run of digits without a leading zero (except "0" itself). */
  predicate Canonical(s: string)
  {
    |s| >= 1 && AllDigits(s) && (s[0] == '0' ==> |s| == 1)
  }

  function DigitChar(d: nat): (c: char)
    requires d < 10
    ensures IsDigit(c)
  {
    (48 + d) as char
  }

  function DigitValue(c: char): (d: nat)
    requires IsDigit(c)
    ensures d < 10 && DigitChar(d) == c
  {
    c as int - 48
  }

  /** Decimal text of `n`. */
  function Decimal(n: nat): (s: string)
    ensures Canonical(s)
    ensures s[0] == '0' ==> n == 0
  {
    if n < 10 then [DigitChar(n)] else Decimal(n / 10) + [DigitChar(n % 10)]
  }

  /** The number a run of digits denotes. */
  function ValueOf(s: string): nat
    requires AllDigits(s)
  {
    if s == [] then 0 else 10 * ValueOf(s[..|s| - 1]) + DigitValue(s[|s| - 1])
  }

  /** Reading back the decimal text of `n` gives `n`. */
  lemma {:induction false} ValueOfDecimal(n: nat)
    ensures ValueOf(Decimal(n)) == n
  {
    var s := Decimal(n);
    if n >= 10 {
      ValueOfDecimal(n / 10);
      assert s[..|s| - 1] == Decimal(n / 10);
    }
  }

  /** A canonical digit run is the decimal text of the number it denotes. */
  lemma {:induction false} DecimalOfValue(s: string)
    requires Canonical(s)
    ensures Decimal(ValueOf(s)) == s
  {
    if |s| > 1 {
      var init := s[..|s| - 1];
      assert Canonical(init);
      PositiveValue(init);
      DecimalOfValue(init);
      var v := ValueOf(s);
      assert v / 10 == ValueOf(init) && v % 10 == DigitValue(s[|s| - 1]);
      assert s == init + [s[|s| - 1]];
    }
  }

  lemma {:induction false} PositiveValue(s: string)
    requires Canonical(s) && s[0] != '0'
    ensures ValueOf(s) >= 1
  {
    if |s| > 1 {
      var init := s[..|s| - 1];
      assert init[0] == s[0];
      PositiveValue(init);
    }
  }

  /** Length of the longest prefix of `s` made of digits. */
  function LeadingDigits(s: string): (k: nat)
    ensures k <= |s|
    ensures AllDigits(s[..k])
    ensures k == |s| || !IsDigit(s[k])
  {
    if s == [] || !IsDigit(s[0]) then 0 else 1 + LeadingDigits(s[1..])
  }

  /** The digit run in front of a non-digit is read off exactly. */
  lemma {:induction false} LeadingDigitsOfConcat(d: string, t: string)
    requires AllDigits(d)
    requires t == [] || !IsDigit(t[0])
    ensures LeadingDigits(d + t) == |d|
  {
    if d != [] {
      assert (d + t)[1..] == d[1..] + t;
      LeadingDigitsOfConcat(d[1..], t);
    } else {
      assert d + t == t;
    }
  }
}
