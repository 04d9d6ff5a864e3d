/** Numbers written in decimal, and how the texts sort. */
module Decimals {
  import opened Strings
  import opened Text
  import opened Wrappers

  function Digit(n: int): char
    requires 0 <= n < 10
  {
    '0' + n as char
  }

  function Decimal(n: nat): (s: string)
    ensures s != ""
  {
    if n < 10 then [Digit(n)] else Decimal(n / 10) + [Digit(n % 10)]
  }

  function Zeros(n: int): (s: string)
    ensures |s| == if n <= 0 then 0 else n
    decreases n
  {
    if n <= 0 then "" else Zeros(n - 1) + "0"
  }

  /** Zero-padded to `width`, the sign counted in. */
  function Padded(n: int, width: int): (s: string)
    ensures s != ""
  {
    if n >= 0 then Zeros(width - |Decimal(n)|) + Decimal(n)
    else "-" + Zeros(width - 1 - |Decimal(-n)|) + Decimal(-n)
  }

  function Power10(k: nat): (p: nat)
    ensures p >= 1
  {
    if k == 0 then 1 else 10 * Power10(k - 1)
  }

  /** The last `width` digits. */
  function Fixed(n: nat, width: nat): (s: string)
    ensures |s| == width
  {
    if width == 0 then "" else Fixed(n / 10, width - 1) + [Digit(n % 10)]
  }

  // ----- how many digits

  /** A number has as many digits as it takes for a power of ten to exceed it. */
  lemma {:induction false} Length(n: nat)
    ensures n < Power10(|Decimal(n)|)
    ensures n >= 10 ==> Power10(|Decimal(n)| - 1) <= n
  {
    if n >= 10 {
      Length(n / 10);
    } else {
      assert Power10(1) == 10 * Power10(0);
    }
  }

  lemma {:induction false} PowersGrow(j: nat, k: nat)
    ensures j <= k ==> Power10(j) <= Power10(k)
    ensures j < k ==> Power10(j) < Power10(k)
    decreases k
  {
    if j < k {
      PowersGrow(j, k - 1);
    }
  }

  /** So the digits are at most k exactly below the k-th power. */
  lemma LengthWithin(n: nat, k: nat)
    requires k > 0
    ensures |Decimal(n)| <= k <==> n < Power10(k)
  {
    hide Decimal;
    Length(n);
    if |Decimal(n)| <= k {
      PowersGrow(|Decimal(n)|, k);
    } else {
      ShortIsOne(n);
      PowersGrow(k, |Decimal(n)| - 1);
    }
  }

  lemma ShortIsOne(n: nat)
    ensures n < 10 ==> |Decimal(n)| == 1
  {
  }

  // ----- padding

  lemma {:induction false} FixedZero(k: nat)
    ensures Fixed(0, k) == Zeros(k)
  {
    if k > 0 {
      FixedZero(k - 1);
    }
  }

  lemma {:induction false} ZerosThenDecimal(k: nat, n: nat)
    ensures Zeros(k) + Decimal(n) == Fixed(n, k + |Decimal(n)|)
    decreases n
  {
    if n < 10 {
      FixedZero(k);
      assert n / 10 == 0;
    } else {
      ZerosThenDecimal(k, n / 10);
      assert Zeros(k) + Decimal(n) == Zeros(k) + Decimal(n / 10) + [Digit(n % 10)];
    }
  }

  function WidthOf(n: nat, width: int): nat {
    if width > |Decimal(n)| then width else |Decimal(n)|
  }

  /** Padding gives the last digits, enough of them to tell the number. */
  lemma PaddedIs(n: int, width: int)
    requires n >= 0
    ensures Padded(n, width) == Fixed(n, WidthOf(n, width)) && |Padded(n, width)| == WidthOf(n, width)
    ensures n > 0 ==> Padded(-n, width) == "-" + Fixed(n, WidthOf(n, width - 1))
    ensures n > 0 ==> |Padded(-n, width)| == 1 + WidthOf(n, width - 1)
    ensures n < Power10(WidthOf(n, width)) && n < Power10(WidthOf(n, width - 1))
  {
    hide Decimal, Fixed, Zeros, Power10;
    Length(n);
    PowersGrow(|Decimal(n)|, WidthOf(n, width));
    PowersGrow(|Decimal(n)|, WidthOf(n, width - 1));
    PadIs(n, width);
    PadIs(n, width - 1);
    assert n > 0 ==> Padded(-n, width) == "-" + (Zeros(width - 1 - |Decimal(n)|) + Decimal(n));
  }

  lemma PadIs(n: nat, width: int)
    ensures Zeros(width - |Decimal(n)|) + Decimal(n) == Fixed(n, WidthOf(n, width))
  {
    hide Decimal, Fixed;
    var k := width - |Decimal(n)|;
    ZerosThenDecimal(if k > 0 then k else 0, n);
  }

  // ----- order

  /** Texts of one width sort as their numbers. */
  lemma {:induction false} FixedOrder(a: nat, b: nat, width: nat)
    requires a < b < Power10(width)
    ensures Before(Fixed(a, width), Fixed(b, width))
    decreases width
  {
    hide Before;
    if a / 10 < b / 10 {
      FixedOrder(a / 10, b / 10, width - 1);
    } else {
      DigitsSort(a % 10, b % 10);
    }
    BeforeConcat(Fixed(a / 10, width - 1), Fixed(b / 10, width - 1), [Digit(a % 10)], [Digit(b % 10)]);
  }

  lemma DigitsSort(a: nat, b: nat)
    requires a < b < 10
    ensures Before([Digit(a)], [Digit(b)])
  {
  }

  /** Padded numbers of one sign and one width sort as their absolute values. */
  lemma PaddedOrder(a: int, b: int, width: int)
    requires 0 <= a < b
    ensures |Padded(a, width)| == |Padded(b, width)| ==> Before(Padded(a, width), Padded(b, width))
    ensures a > 0 && |Padded(-a, width)| == |Padded(-b, width)| ==> Before(Padded(-a, width), Padded(-b, width))
  {
    hide Before, Padded, Fixed, WidthOf, Power10;
    PaddedIs(a, width);
    PaddedIs(b, width);
    if |Padded(a, width)| == |Padded(b, width)| {
      FixedOrder(a, b, WidthOf(b, width));
    }
    if a > 0 && |Padded(-a, width)| == |Padded(-b, width)| {
      FixedOrder(a, b, WidthOf(b, width - 1));
      BeforeConcat("-", "-", Fixed(a, WidthOf(b, width - 1)), Fixed(b, WidthOf(b, width - 1)));
    }
  }

  lemma PaddedWidthGrows(a: nat, b: nat, width: int)
    requires a <= b
    ensures |Padded(a, width)| <= |Padded(b, width)|
  {
    hide Padded, Decimal;
    PaddedIs(a, width);
    PaddedIs(b, width);
    Length(b);
    LengthWithin(a, |Decimal(b)|);
  }

  // ----- round numbers

  lemma {:induction false} RoundNumber(k: nat)
    ensures |Decimal(Power10(k))| == k + 1 && Decimal(Power10(k))[0] == '1'
  {
    if k > 0 {
      RoundNumber(k - 1);
      assert Power10(k) / 10 == Power10(k - 1) && Power10(k) >= 10;
    }
  }

  lemma {:induction false} AllNines(k: nat)
    requires k > 0
    ensures |Decimal(Power10(k) - 1)| == k && Decimal(Power10(k) - 1)[0] == '9'
  {
    if k > 1 {
      AllNines(k - 1);
      assert (Power10(k) - 1) / 10 == Power10(k - 1) - 1 && Power10(k) - 1 >= 10 by {
        assert Power10(k) == 10 * Power10(k - 1) && Power10(k - 1) == 10 * Power10(k - 2);
      }
    } else {
      assert Power10(1) == 10 * Power10(0) == 10;
    }
  }

  // ----- reading digits

  function Digits(s: string): Option<nat> {
    if s == "" then Some(0)
    else
      var high := Digits(s[..|s| - 1]);
      if high.None? || !IsDigit(s[|s| - 1]) then None
      else Some(10 * high.value + (s[|s| - 1] - '0') as nat)
  }

  lemma {:induction false} DigitsRoundTrip(n: nat)
    ensures Decimal(n) != "" && Digits(Decimal(n)) == Some(n)
    ensures forall c :: c in Decimal(n) ==> IsDigit(c)
  {
    if n < 10 {
      var s := Decimal(n);
      assert s[..0] == "" && Digits("") == Some(0);
    } else {
      var s, high := Decimal(n), Decimal(n / 10);
      DigitsRoundTrip(n / 10);
      assert s[..|s| - 1] == high;
    }
  }

  /** One digit at least, and nothing else. */
  predicate IsNumeral(s: string) {
    s != "" && forall i :: 0 <= i < |s| ==> IsDigit(s[i])
  }

  lemma NumeralSnoc(s: string, c: char)
    ensures IsNumeral(s + [c]) <==> (s == "" || IsNumeral(s)) && IsDigit(c)
  {
    var all := s + [c];
    assert all[|s|] == c && forall i :: 0 <= i < |s| ==> all[i] == s[i];
    if IsNumeral(all) {
      assert IsDigit(all[|s|]);
      forall i | 0 <= i < |s| ensures IsDigit(s[i]) {
        assert IsDigit(all[i]);
      }
    }
  }

  lemma DigitsSnoc(s: string, c: char)
    ensures Digits(s + [c]).Some? <==> Digits(s).Some? && IsDigit(c)
  {
    assert (s + [c])[..|s|] == s;
  }

  lemma {:induction false} DigitsAre(s: string)
    ensures Digits(s).Some? <==> s == "" || IsNumeral(s)
  {
    if s != "" {
      hide *;
      var init, c := s[..|s| - 1], s[|s| - 1];
      DigitsAre(init);
      assert s == init + [c];
      NumeralSnoc(init, c);
      DigitsSnoc(init, c);
    }
  }

  /** A leading zero counts for nothing. */
  lemma {:induction false} LeadingZero(s: string)
    ensures Digits("0" + s) == Digits(s)
  {
    if s == "" {
      assert "0"[..0] == "" && Digits("") == Some(0);
      assert "0" + s == "0";
    } else {
      LeadingZero(s[..|s| - 1]);
      assert ("0" + s)[..|"0" + s| - 1] == "0" + s[..|s| - 1];
    }
  }

  lemma {:induction false} FixedReads(n: nat, width: nat)
    requires n < Power10(width)
    ensures Digits(Fixed(n, width)) == Some(n)
  {
    if width > 0 {
      FixedReads(n / 10, width - 1);
      assert Fixed(n, width)[..width - 1] == Fixed(n / 10, width - 1);
    }
  }

  /** Padding does not change what the digits say. */
  lemma PaddedReads(n: int, width: int)
    requires n >= 0
    ensures Digits(Padded(n, width)) == Some(n)
    ensures n > 0 ==> var t := Padded(-n, width); t[0] == '-' && Digits(t[1..]) == Some(n)
  {
    hide Padded, Fixed, Digits, Power10, WidthOf;
    PaddedIs(n, width);
    FixedReads(n, WidthOf(n, width));
    FixedReads(n, WidthOf(n, width - 1));
    if n > 0 {
      assert ("-" + Fixed(n, WidthOf(n, width - 1)))[1..] == Fixed(n, WidthOf(n, width - 1));
    }
  }
}
