/** Sequence keys `page:index`, zero-padded so that text order is reading order. */
module AuthorKeys {
  import opened Numerals

  const PAGE_WIDTH: nat := 12
  const INDEX_WIDTH: nat := 8

  /** Text order, character by character; a proper prefix comes first. */
  predicate Less(a: string, b: string) {
    |b| > 0 && (|a| == 0 || a[0] < b[0] || (a[0] == b[0] && Less(a[1..], b[1..])))
  }

  function Zeros(n: nat): (s: string)
    ensures |s| == n
  {
    if n == 0 then "" else Zeros(n - 1) + "0"
  }

  /** `f"{n:0{width}d}"`. */
  function Padded(n: nat, width: nat): string {
    var digits := Decimal(n);
    if |digits| >= width then digits else Zeros(width - |digits|) + digits
  }

  function Key(page: nat, index: nat): string {
    Padded(page, PAGE_WIDTH) + ":" + Padded(index, INDEX_WIDTH)
  }

  function Pow10(n: nat): (p: nat)
    ensures p > 0
  {
    if n == 0 then 1 else 10 * Pow10(n - 1)
  }

  predicate FitsKey(page: nat, index: nat) { page < Pow10(PAGE_WIDTH) && index < Pow10(INDEX_WIDTH) }

  // ------------------------------------------------------------------- text order

  lemma {:induction false} LessOfConcat(a: string, b: string, x: string, y: string)
    requires |a| == |b|
    ensures Less(a + x, b + y) <==> Less(a, b) || (a == b && Less(x, y))
    decreases |a|
  {
    if |a| == 0 {
      assert a + x == x && b + y == y;
    } else {
      assert (a + x)[1..] == a[1..] + x && (b + y)[1..] == b[1..] + y;
      LessOfConcat(a[1..], b[1..], x, y);
      assert a == [a[0]] + a[1..] && b == [b[0]] + b[1..];
    }
  }

  lemma {:induction false} LessIsStrict(a: string)
    ensures !Less(a, a)
    decreases |a|
  {
    if |a| == 0 {
    } else {
      LessIsStrict(a[1..]);
    }
  }

  // ------------------------------------------------------------------ fixed width

  /** The last `width` decimal digits. */
  function Digits(n: nat, width: nat): (s: string)
    ensures |s| == width
  {
    if width == 0 then "" else Digits(n / 10, width - 1) + [DigitChar(n % 10)]
  }

  lemma DigitOrder(m: nat, n: nat)
    requires m < 10 && n < 10
    ensures DigitChar(m) < DigitChar(n) <==> m < n
    ensures DigitChar(m) == DigitChar(n) <==> m == n
    ensures Less([DigitChar(m)], [DigitChar(n)]) <==> m < n
  {
  }

  lemma {:induction false} DigitsOrder(m: nat, n: nat, width: nat)
    requires m < Pow10(width) && n < Pow10(width)
    ensures Less(Digits(m, width), Digits(n, width)) <==> m < n
    ensures Digits(m, width) == Digits(n, width) <==> m == n
    decreases width
  {
    hide DigitChar, Less;
    if width == 0 {
      LessIsStrict("");
    } else {
      DigitsOrder(m / 10, n / 10, width - 1);
      DigitOrder(m % 10, n % 10);
      var a, b := Digits(m / 10, width - 1), Digits(n / 10, width - 1);
      LessOfConcat(a, b, [DigitChar(m % 10)], [DigitChar(n % 10)]);
      if Digits(m, width) == Digits(n, width) {
        assert a == Digits(m, width)[..width - 1] && b == Digits(n, width)[..width - 1];
        assert DigitChar(m % 10) == Digits(m, width)[width - 1];
      }
    }
  }

  lemma {:induction false} DigitsOfZero(width: nat)
    ensures Digits(0, width) == Zeros(width)
    decreases width
  {
    if width == 0 {
    } else {
      DigitsOfZero(width - 1);
    }
  }

  lemma {:induction false} DecimalLength(n: nat, width: nat)
    requires width > 0
    ensures |Decimal(n)| <= width <==> n < Pow10(width)
    decreases width
  {
    if width == 1 {
      assert Pow10(0) == 1;
    } else if n >= 10 {
      DecimalLength(n / 10, width - 1);
    }
  }

  /** Padding gives the fixed-width digits of every number that fits. */
  lemma {:induction false} PaddedIsDigits(n: nat, width: nat)
    requires width > 0 && n < Pow10(width)
    ensures Padded(n, width) == Digits(n, width)
    decreases width
  {
    DecimalLength(n, width);
    if n < 10 {
      DigitsOfZero(width - 1);
      assert n / 10 == 0 && n % 10 == n;
      assert Decimal(n) == [DigitChar(n)];
    } else {
      assert width > 1;
      PaddedIsDigits(n / 10, width - 1);
      DecimalLength(n / 10, width - 1);
      assert Decimal(n) == Decimal(n / 10) + [DigitChar(n % 10)];
    }
  }

  lemma {:induction false} DigitsAreDigits(n: nat, width: nat)
    ensures forall k :: 0 <= k < width ==> IsDigit(Digits(n, width)[k])
    decreases width
  {
    if width == 0 {
    } else {
      DigitsAreDigits(n / 10, width - 1);
    }
  }

  lemma TenPowers()
    ensures Pow10(8) == 100_000_000 && Pow10(12) == 1_000_000_000_000
  {
    assert Pow10(4) == 10_000;
  }

  /** A key is twelve digits, a colon and eight digits, up to the largest page and index that
      have so many. */
  lemma KeyShape(page: nat, index: nat)
    requires page < 1_000_000_000_000 && index < 100_000_000
    ensures var key := Key(page, index);
            && |key| == 21 && key[12] == ':'
            && forall k :: 0 <= k < 21 && k != 12 ==> IsDigit(key[k])
  {
    TenPowers();
    hide Padded, Digits, Pow10, IsDigit;
    PaddedIsDigits(page, 12);
    PaddedIsDigits(index, 8);
    DigitsAreDigits(page, 12);
    DigitsAreDigits(index, 8);
  }

  /** Within the widths, key order is page order and then index order, and keys are
      distinct. */
  lemma KeyOrder(p: nat, i: nat, q: nat, j: nat)
    requires FitsKey(p, i) && FitsKey(q, j)
    ensures Less(Key(p, i), Key(q, j)) <==> p < q || (p == q && i < j)
    ensures Key(p, i) == Key(q, j) <==> p == q && i == j
    ensures Key(p, i) != ""
  {
    hide Less, Padded, Digits;
    PaddedIsDigits(p, PAGE_WIDTH);
    PaddedIsDigits(q, PAGE_WIDTH);
    PaddedIsDigits(i, INDEX_WIDTH);
    PaddedIsDigits(j, INDEX_WIDTH);
    DigitsOrder(p, q, PAGE_WIDTH);
    DigitsOrder(i, j, INDEX_WIDTH);
    var a, b := Digits(p, PAGE_WIDTH), Digits(q, PAGE_WIDTH);
    var x, y := Digits(i, INDEX_WIDTH), Digits(j, INDEX_WIDTH);
    assert Key(p, i) == a + (":" + x) && Key(q, j) == b + (":" + y);
    LessOfConcat(a, b, ":" + x, ":" + y);
    LessOfConcat(":", ":", x, y);
    LessIsStrict(":");
    if Key(p, i) == Key(q, j) {
      assert a == Key(p, i)[..PAGE_WIDTH] && b == Key(q, j)[..PAGE_WIDTH];
      assert x == Key(p, i)[PAGE_WIDTH + 1..] && y == Key(q, j)[PAGE_WIDTH + 1..];
    }
  }

  lemma {:induction false} LessFromStart(a: string, b: string)
    requires |a| > 0 && |b| > 0 && a[0] < b[0]
    ensures Less(a, b) && !Less(b, a)
  {
  }

  lemma {:induction false} FirstDigitOfPower(width: nat)
    ensures Decimal(Pow10(width))[0] == '1'
    ensures |Decimal(Pow10(width))| == width + 1
    decreases width
  {
    if width == 0 {
    } else {
      FirstDigitOfPower(width - 1);
      assert Pow10(width) / 10 == Pow10(width - 1) && Pow10(width) % 10 == 0;
    }
  }

  lemma {:induction false} FirstDigitOfNines(width: nat)
    requires width > 0
    ensures Digits(Pow10(width) - 1, width)[0] == '9'
    decreases width
  {
    if width == 1 {
      assert Pow10(0) == 1;
      assert Digits(0, 0) == "";
    } else {
      FirstDigitOfNines(width - 1);
      assert (Pow10(width) - 1) / 10 == Pow10(width - 1) - 1;
    }
  }

  /** The first number too wide for its padding sorts before the last that fits. */
  lemma PaddedBreaks(width: nat, x: string, y: string)
    requires width > 0
    ensures var last := Pow10(width) - 1;
            Less(Padded(last + 1, width) + x, Padded(last, width) + y) &&
            !Less(Padded(last, width) + y, Padded(last + 1, width) + x)
  {
    hide Less, Padded, Digits, Decimal, Pow10;
    var last := Pow10(width) - 1;
    PaddedIsDigits(last, width);
    FirstDigitOfNines(width);
    FirstDigitOfPower(width);
    PaddedLong(last + 1, width);
    LessFromStart(Padded(last + 1, width) + x, Padded(last, width) + y);
  }

  /** One page past the width, the keys are out of order. */
  lemma PageOrderBreaks(i: nat, j: nat)
    ensures var last := Pow10(PAGE_WIDTH) - 1;
            Less(Key(last + 1, i), Key(last, j)) && !Less(Key(last, j), Key(last + 1, i))
  {
    hide Less, Padded, Pow10;
    var last := Pow10(PAGE_WIDTH) - 1;
    var x, y := ":" + Padded(i, INDEX_WIDTH), ":" + Padded(j, INDEX_WIDTH);
    PaddedBreaks(PAGE_WIDTH, x, y);
    assert Key(last + 1, i) == Padded(last + 1, PAGE_WIDTH) + x && Key(last, j) == Padded(last, PAGE_WIDTH) + y;
  }

  /** So they are one index past the width, on any page. */
  lemma IndexOrderBreaks(p: nat)
    ensures var last := Pow10(INDEX_WIDTH) - 1;
            Less(Key(p, last + 1), Key(p, last)) && !Less(Key(p, last), Key(p, last + 1))
  {
    hide Less, Padded, Pow10;
    var last := Pow10(INDEX_WIDTH) - 1;
    PaddedBreaks(INDEX_WIDTH, "", "");
    var page, x, y := Padded(p, PAGE_WIDTH) + ":", Padded(last, INDEX_WIDTH), Padded(last + 1, INDEX_WIDTH);
    assert x + "" == x && y + "" == y;
    LessIsStrict(page);
    LessOfConcat(page, page, x, y);
    LessOfConcat(page, page, y, x);
    assert Key(p, last) == page + x && Key(p, last + 1) == page + y;
  }

  /** Text order agrees with reading order on two positions. */
  predicate Agrees(p: nat, i: nat, q: nat, j: nat) {
    Less(Key(p, i), Key(q, j)) <==> p < q || (p == q && i < j)
  }

  /** With `pages` pages of up to `works` works, text order is reading order throughout
      exactly when both fit their widths. */
  lemma KeyOrderExactly(pages: nat, works: nat)
    requires pages > 0 && works > 0
    ensures (forall p: nat, i: nat, q: nat, j: nat | p < pages && i < works && q < pages && j < works ::
               Agrees(p, i, q, j))
            <==> pages <= Pow10(PAGE_WIDTH) && works <= Pow10(INDEX_WIDTH)
  {
    hide Less, Key, Pow10;
    if pages > Pow10(PAGE_WIDTH) {
      PageOrderBreaks(0, 0);
      assert !Agrees(Pow10(PAGE_WIDTH), 0, Pow10(PAGE_WIDTH) - 1, 0);
    } else if works > Pow10(INDEX_WIDTH) {
      IndexOrderBreaks(0);
      assert !Agrees(0, Pow10(INDEX_WIDTH), 0, Pow10(INDEX_WIDTH) - 1);
    } else {
      forall p: nat, i: nat, q: nat, j: nat | p < pages && i < works && q < pages && j < works
        ensures Agrees(p, i, q, j)
      {
        KeyOrder(p, i, q, j);
      }
    }
  }

  lemma PaddedLong(n: nat, width: nat)
    requires |Decimal(n)| >= width
    ensures Padded(n, width) == Decimal(n)
  {
  }
}
