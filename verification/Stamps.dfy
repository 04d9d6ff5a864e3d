/** Time stamps (section 5.6 of RFC 3339), and when their text sorts by time. */
module Stamps {
  import opened Calendar
  import opened Decimals
  import opened Text
  import opened Wrappers

  const DAY := 86_400

  function DateOf(secs: int): Date {
    CivilFromDays(secs / DAY)
  }

  /** The stamp of a number of seconds since the epoch, in UTC. */
  function Rfc3339(secs: int): string {
    var rem := secs % DAY;
    var d := DateOf(secs);
    Padded(d.year, 4) + "-" + Padded(d.month, 2) + "-" + Padded(d.day, 2) + "T" +
    Padded(rem / 3600, 2) + ":" + Padded(rem % 3600 / 60, 2) + ":" + Padded(rem % 60, 2) + "Z"
  }

  // ----- the fields

  lemma TwoDigits(a: int, b: int)
    requires 0 <= a < 100 && 0 <= b < 100
    ensures |Padded(a, 2)| == 2
    ensures a < b ==> Before(Padded(a, 2), Padded(b, 2))
  {
    hide Padded, Before;
    TwoWide(a);
    TwoWide(b);
    if a < b {
      PaddedOrder(a, b, 2);
    }
  }

  lemma TwoWide(n: int)
    requires 0 <= n < 100
    ensures |Padded(n, 2)| == 2
  {
    hide Padded, Decimal;
    PaddedIs(n, 2);
    assert Power10(2) == 10 * Power10(1) && Power10(1) == 10 * Power10(0);
    LengthWithin(n, 2);
  }

  function YearText(y: int): string {
    Padded(y, 4)
  }

  /** The month and the day, after their separators. */
  function DayText(d: Date): string {
    "-" + (Padded(d.month, 2) + ("-" + Padded(d.day, 2)))
  }

  function TimeText(rem: int): string {
    Padded(rem / 3600, 2) + (":" + (Padded(rem % 3600 / 60, 2) + (":" + Padded(rem % 60, 2))))
  }

  function Rest(d: Date, rem: int): string {
    DayText(d) + ("T" + (TimeText(rem) + "Z"))
  }

  lemma StampParts(secs: int)
    ensures Rfc3339(secs) == YearText(DateOf(secs).year) + Rest(DateOf(secs), secs % DAY)
  {
    hide Padded;
  }

  lemma Fields(mo: string, d: string, h: string, mi: string, c: string)
    requires |mo| == |d| == |h| == |mi| == |c| == 2
    ensures var rest := "-" + (mo + ("-" + d)) + ("T" + (h + (":" + (mi + (":" + c))) + "Z"));
      && |rest| == 16 && rest[0] == '-' && rest[1..3] == mo && rest[3] == '-' && rest[4..6] == d && rest[6] == 'T'
      && rest[7..9] == h && rest[9] == ':' && rest[10..12] == mi && rest[12] == ':' && rest[13..15] == c
      && rest[15] == 'Z'
  {
  }

  /** What two digits from place i on say. */
  function TwoAt(t: string, i: nat): Option<nat>
    requires i + 2 <= |t|
  {
    Digits(t[i..i + 2])
  }

  lemma RestReads(d: Date, rem: int)
    requires ValidDate(d) && 0 <= rem < DAY
    ensures var t := Rest(d, rem);
      && |t| == 16 && t[0] == '-' && t[3] == '-' && t[6] == 'T' && t[9] == ':' && t[12] == ':' && t[15] == 'Z'
      && TwoAt(t, 1) == Some(d.month) && TwoAt(t, 4) == Some(d.day)
      && TwoAt(t, 7) == Some(rem / 3600) && TwoAt(t, 10) == Some(rem % 3600 / 60) && TwoAt(t, 13) == Some(rem % 60)
  {
    hide Padded, Digits;
    ClockFields(rem, rem);
    TwoWide(d.month);
    TwoWide(d.day);
    TwoWide(rem / 3600);
    TwoWide(rem % 3600 / 60);
    TwoWide(rem % 60);
    PaddedReads(d.month, 2);
    PaddedReads(d.day, 2);
    PaddedReads(rem / 3600, 2);
    PaddedReads(rem % 3600 / 60, 2);
    PaddedReads(rem % 60, 2);
    Fields(Padded(d.month, 2), Padded(d.day, 2),
           Padded(rem / 3600, 2), Padded(rem % 3600 / 60, 2), Padded(rem % 60, 2));
  }

  /** A stamp is its year, in four places at least, and then month, day, hours, minutes
      and seconds in two places each; read off the text, they are a valid date and
      time of day, and count up to the seconds it was made of. */
  lemma StampReadsBack(secs: int) returns (y: int, mo: nat, d: nat, h: nat, mi: nat, c: nat)
    ensures var t := Rfc3339(secs);
      && |t| >= 20 && (|t| == 20 <==> -1000 < y < 10_000)
      && var k := |t| - 16;
         && (if y >= 0 then Digits(t[..k]) == Some(y) else t[0] == '-' && Digits(t[1..k]) == Some(-y))
         && t[k] == '-' && TwoAt(t, k + 1) == Some(mo) && t[k + 3] == '-' && TwoAt(t, k + 4) == Some(d)
         && t[k + 6] == 'T' && TwoAt(t, k + 7) == Some(h) && t[k + 9] == ':' && TwoAt(t, k + 10) == Some(mi)
         && t[k + 12] == ':' && TwoAt(t, k + 13) == Some(c) && t[k + 15] == 'Z'
    ensures ValidDate(Date(y, mo, d)) && h < 24 && mi < 60 && c < 60
    ensures DaysOfDate(Date(y, mo, d)) * 86_400 + h * 3600 + mi * 60 + c == secs
  {
    hide Rfc3339, DateOf, Rest, YearText, TwoAt, Digits, ValidDate, DaysOfDate;
    var date, rem := DateOf(secs), secs % DAY;
    DayAndTime(secs);
    y, mo, d, h, mi, c := date.year, date.month, date.day, rem / 3600, rem % 3600 / 60, rem % 60;
    StampParts(secs);
    YearReads(y);
    FieldsBehind(YearText(y), date, rem);
    assert Date(y, mo, d) == date;
  }

  /** The fields of the rest, wherever it begins. */
  lemma FieldsBehind(year: string, d: Date, rem: int)
    requires ValidDate(d) && 0 <= rem < DAY && year != ""
    ensures var t, k := year + Rest(d, rem), |year|;
      && |t| == k + 16 && t[..k] == year && t[1..k] == year[1..] && t[0] == year[0]
      && t[k] == '-' && t[k + 3] == '-' && t[k + 6] == 'T' && t[k + 9] == ':' && t[k + 12] == ':' && t[k + 15] == 'Z'
      && TwoAt(t, k + 1) == Some(d.month) && TwoAt(t, k + 4) == Some(d.day)
      && TwoAt(t, k + 7) == Some(rem / 3600) && TwoAt(t, k + 10) == Some(rem % 3600 / 60)
      && TwoAt(t, k + 13) == Some(rem % 60)
  {
    hide Rest, TwoAt, Digits, ValidDate;
    var rest := Rest(d, rem);
    RestReads(d, rem);
    Behind(year, rest);
    BehindTwo(year, rest, 1);
    BehindTwo(year, rest, 4);
    BehindTwo(year, rest, 7);
    BehindTwo(year, rest, 10);
    BehindTwo(year, rest, 13);
  }

  lemma DayAndTime(secs: int)
    ensures var d, rem := DateOf(secs), secs % DAY;
      && ValidDate(d) && d.month >= 1 && d.day >= 1 && 0 <= rem < DAY
      && rem / 3600 < 24 && rem % 3600 / 60 < 60 && rem % 60 < 60
      && DaysOfDate(d) * 86_400 + rem / 3600 * 3600 + rem % 3600 / 60 * 60 + rem % 60 == secs
  {
    hide CivilFromDays, DaysOfDate;
    CivilFromDaysCounts(secs / DAY);
    ClockFields(secs % DAY, secs % DAY);
  }

  lemma YearReads(y: int)
    ensures |YearText(y)| >= 4 && (|YearText(y)| == 4 <==> -1000 < y < 10_000)
    ensures var t := YearText(y);
      if y >= 0 then Digits(t) == Some(y) else t[0] == '-' && Digits(t[1..]) == Some(-y)
  {
    hide Padded, Digits, Decimal, Power10;
    var n: nat := if y >= 0 then y else -y;
    PaddedReads(n, 4);
    PaddedIs(n, 4);
    ThreeAndFour();
    LengthWithin(n, 4);
    LengthWithin(n, 3);
  }

  lemma ThreeAndFour()
    ensures Power10(3) == 1000 && Power10(4) == 10_000
  {
    assert Power10(2) == 100;
  }

  /** Places in the second part of a text. */
  lemma Behind(first: string, rest: string)
    requires |rest| == 16 && |first| >= 1
    ensures var t, k := first + rest, |first|;
      && t[..k] == first && t[1..k] == first[1..] && t[0] == first[0]
      && forall i :: 0 <= i < 16 ==> t[k + i] == rest[i]
  {
  }

  lemma BehindTwo(first: string, rest: string, i: nat)
    requires i + 2 <= |rest|
    ensures TwoAt(first + rest, |first| + i) == TwoAt(rest, i)
  {
    hide Digits;
    assert (first + rest)[|first| + i..|first| + i + 2] == rest[i..i + 2];
  }

  lemma DayTextOrder(a: Date, b: Date)
    requires ValidDate(a) && ValidDate(b)
    ensures |DayText(a)| == 6
    ensures a.year == b.year && Earlier(a, b) ==> Before(DayText(a), DayText(b))
  {
    hide Padded, Before;
    TwoDigits(a.month, b.month);
    TwoDigits(b.month, a.month);
    TwoDigits(a.day, b.day);
    TwoDigits(b.day, a.day);
    BeforeConcat("-", "-", Padded(a.day, 2), Padded(b.day, 2));
    BeforeConcat(Padded(a.month, 2), Padded(b.month, 2), "-" + Padded(a.day, 2), "-" + Padded(b.day, 2));
    BeforeConcat("-", "-", Padded(a.month, 2) + ("-" + Padded(a.day, 2)),
                 Padded(b.month, 2) + ("-" + Padded(b.day, 2)));
  }

  /** Hours, minutes and seconds, and how they order. */
  lemma ClockFields(r: int, s: int)
    requires 0 <= r < DAY && 0 <= s < DAY
    ensures r / 3600 < 24 && r % 3600 / 60 < 60
    ensures r < s && r / 3600 >= s / 3600 ==> r / 3600 == s / 3600 && r % 3600 / 60 <= s % 3600 / 60
    ensures r < s && r / 3600 == s / 3600 && r % 3600 / 60 == s % 3600 / 60 ==> r % 60 < s % 60
  {
    assert r % 60 == r % 3600 % 60 && s % 60 == s % 3600 % 60;
  }

  lemma TimeTextOrder(r: int, s: int)
    requires 0 <= r < DAY && 0 <= s < DAY
    ensures |TimeText(r)| == 8
    ensures r < s ==> Before(TimeText(r), TimeText(s))
  {
    hide Padded, Before;
    ClockFields(r, s);
    var h, m, c := Padded(r / 3600, 2), Padded(r % 3600 / 60, 2), Padded(r % 60, 2);
    var h', m', c' := Padded(s / 3600, 2), Padded(s % 3600 / 60, 2), Padded(s % 60, 2);
    TwoDigits(r / 3600, s / 3600);
    TwoDigits(s / 3600, r / 3600);
    TwoDigits(r % 3600 / 60, s % 3600 / 60);
    TwoDigits(s % 3600 / 60, r % 3600 / 60);
    TwoDigits(r % 60, s % 60);
    TwoDigits(s % 60, r % 60);
    BeforeConcat(":", ":", c, c');
    BeforeConcat(m, m', ":" + c, ":" + c');
    BeforeConcat(":", ":", m + (":" + c), m' + (":" + c'));
    BeforeConcat(h, h', ":" + (m + (":" + c)), ":" + (m' + (":" + c')));
  }

  /** Within a year the rest of the stamp sorts by time. */
  lemma RestOrder(c: Date, r: int, d: Date, s: int)
    requires ValidDate(c) && ValidDate(d) && 0 <= r < DAY && 0 <= s < DAY
    ensures |Rest(c, r)| == 16
    ensures c.year == d.year && (Earlier(c, d) || (c == d && r < s)) ==> Before(Rest(c, r), Rest(d, s))
  {
    hide DayText, TimeText, Before, ValidDate, Earlier;
    DayTextOrder(c, d);
    DayTextOrder(d, c);
    TimeTextOrder(r, s);
    TimeTextOrder(s, r);
    BeforeConcat(TimeText(r), TimeText(s), "Z", "Z");
    BeforeConcat("T", "T", TimeText(r) + "Z", TimeText(s) + "Z");
    BeforeConcat(DayText(c), DayText(d), "T" + (TimeText(r) + "Z"), "T" + (TimeText(s) + "Z"));
  }

  // ----- years

  /** Seconds order as day, then second of the day. */
  lemma SecondsOrder(a: int, b: int)
    requires a < b
    ensures ValidDate(DateOf(a)) && ValidDate(DateOf(b))
    ensures Earlier(DateOf(a), DateOf(b)) || (DateOf(a) == DateOf(b) && a % DAY < b % DAY)
  {
    hide CivilFromDays, Earlier, ValidDate;
    CivilFromDaysCounts(a / DAY);
    CivilFromDaysCounts(b / DAY);
    if a / DAY < b / DAY {
      CivilIsOrderIsomorphism(a / DAY, b / DAY, DateOf(a));
    }
  }

  lemma YearsKeepOrder(a: int, b: int)
    requires a < b
    ensures DateOf(a).year <= DateOf(b).year
  {
    hide CivilFromDays;
    SecondsOrder(a, b);
  }

  /** Stamps of one year sort by time, and so do stamps of two years whose texts
      have one width and sort. */
  lemma StampOrder(a: int, b: int)
    requires a < b
    requires var y, z := YearText(DateOf(a).year), YearText(DateOf(b).year);
      DateOf(a).year == DateOf(b).year || (|y| == |z| && Before(y, z))
    ensures Before(Rfc3339(a), Rfc3339(b))
  {
    hide Rfc3339, YearText, Rest, Before, DateOf, ValidDate, Earlier;
    SecondsOrder(a, b);
    StampParts(a);
    StampParts(b);
    RestOrder(DateOf(a), a % DAY, DateOf(b), b % DAY);
    BeforeConcat(YearText(DateOf(a).year), YearText(DateOf(b).year),
                 Rest(DateOf(a), a % DAY), Rest(DateOf(b), b % DAY));
  }

  /** Two stamps do not sort when the texts of their years sort the other way. */
  lemma StampDisorder(a: int, b: int)
    requires var y, z := YearText(DateOf(a).year), YearText(DateOf(b).year); |y| == |z| && Before(z, y)
    ensures !Before(Rfc3339(a), Rfc3339(b))
  {
    hide Rfc3339, YearText, Rest, Before, DateOf;
    StampParts(a);
    StampParts(b);
    BeforeConcat(YearText(DateOf(b).year), YearText(DateOf(a).year),
                 Rest(DateOf(b), b % DAY), Rest(DateOf(a), a % DAY));
    BeforeIsTotalOrder(Rfc3339(a), Rfc3339(b), Rfc3339(a));
  }

  /** The first characters decide when they differ. */
  lemma FirstsDecide(a: int, b: int)
    ensures var y, z := YearText(DateOf(a).year), YearText(DateOf(b).year);
      && (y[0] < z[0] ==> Before(Rfc3339(a), Rfc3339(b)))
      && (y[0] > z[0] ==> !Before(Rfc3339(a), Rfc3339(b)))
  {
    hide CivilFromDays, Padded, Rest, Rfc3339;
    StampParts(a);
    StampParts(b);
  }

  /** The first second of a year. */
  function YearStart(y: int): int {
    DaysOfDate(Date(y, 1, 1)) * DAY
  }

  lemma YearStarts(y: int)
    ensures DateOf(YearStart(y)) == Date(y, 1, 1)
    ensures YearStart(y) < YearStart(y + 1)
  {
    hide CivilFromDays, DaysOfDate;
    var d, e := Date(y, 1, 1), Date(y + 1, 1, 1);
    CivilIsOrderIsomorphism(0, 0, d);
    DaysOfDateIsMonotone(d, e);
    assert DaysOfDate(d) * DAY / DAY == DaysOfDate(d);
  }

  /** The text of a year with a sign starts with it, any other with a digit. */
  lemma YearFirst(y: int)
    ensures y < 0 ==> YearText(y)[0] == '-'
    ensures y >= 0 ==> '0' <= YearText(y)[0] <= '9'
  {
    if y >= 0 {
      hide Decimal;
      PaddedIs(y, 4);
      DigitsFirst(y, WidthOf(y, 4));
    }
  }

  lemma {:induction false} DigitsFirst(n: nat, width: nat)
    requires width > 0
    ensures '0' <= Fixed(n, width)[0] <= '9'
  {
    if width > 1 {
      DigitsFirst(n / 10, width - 1);
    }
  }

  // ----- the years whose stamps sort

  function Width(y: int): nat {
    |YearText(y)|
  }

  /** From one year through another all stamps sort by time: there is only one
      year; or none has a sign and all are equally wide; or the year before 0
      comes before years of four digits; or there are just two years with a sign,
      the second of which takes a digit less. */
  predicate Sorts(from: int, through: int) {
    || from >= through
    || (from >= 0 && Width(from) == Width(through))
    || (from == -1 && through < 10_000)
    || (through == from + 1 && through < 0 && Width(from) > Width(through))
  }

  lemma WidthsBetween(a: int, y: int, b: int)
    requires 0 <= a <= y <= b && Width(a) == Width(b)
    ensures Width(y) == Width(a)
  {
    hide Padded;
    PaddedWidthGrows(a, y, 4);
    PaddedWidthGrows(y, b, 4);
  }

  lemma FourWide(y: int)
    requires 0 <= y
    ensures Width(y) >= 4 && (Width(y) == 4 <==> y < 10_000)
  {
    hide Padded, Decimal;
    PaddedIs(y, 4);
    LengthWithin(y, 4);
    TenThousandIs();
  }

  lemma TenThousandIs()
    ensures Power10(4) == 10_000 && Power10(3) == 1000
  {
    assert Power10(2) == 10 * Power10(1) && Power10(1) == 10 * Power10(0);
  }

  /** Two years without a sign and of one width. */
  lemma UnsignedOrder(a: int, b: int)
    requires a < b && 0 <= DateOf(a).year && Width(DateOf(a).year) == Width(DateOf(b).year)
    ensures Before(Rfc3339(a), Rfc3339(b))
  {
    hide DateOf, Padded, Before, Rfc3339;
    YearsKeepOrder(a, b);
    if DateOf(a).year < DateOf(b).year {
      PaddedOrder(DateOf(a).year, DateOf(b).year, 4);
    }
    StampOrder(a, b);
  }

  /** Later seconds print as later text while the year has four digits. */
  lemma StampsKeepOrder(a: int, b: int)
    requires a < b && 0 <= DateOf(a).year && DateOf(b).year < 10_000
    ensures |Rfc3339(a)| == 20 == |Rfc3339(b)| && Before(Rfc3339(a), Rfc3339(b))
  {
    hide DateOf, Padded, Before, Rfc3339, Rest, ValidDate, Earlier;
    YearsKeepOrder(a, b);
    FourWide(DateOf(a).year);
    FourWide(DateOf(b).year);
    SecondsOrder(a, b);
    RestOrder(DateOf(a), a % DAY, DateOf(b), b % DAY);
    RestOrder(DateOf(b), b % DAY, DateOf(a), a % DAY);
    StampParts(a);
    StampParts(b);
    UnsignedOrder(a, b);
  }

  /** A power of ten, and the number before it, as years with a sign. */
  lemma SignedStep(n: int)
    requires n > 0 && Width(-(n + 1)) != Width(-n)
    ensures Width(-(n + 1)) > Width(-n) && n + 1 >= 1000
    ensures "-1" <= YearText(-(n + 1)) && "-9" <= YearText(-n)
    ensures n + 1 == Power10(WidthOf(n, 3))
  {
    hide Power10, Decimal;
    PaddedIs(n, 4);
    PaddedIs(n + 1, 4);
    var k := WidthOf(n, 3);
    TenThousandIs();
    PowersGrow(3, k);
    Length(n);
    PowersGrow(|Decimal(n)|, k);
    LengthWithin(n + 1, k);
    Length(n + 1);
    LengthWithin(n, |Decimal(n + 1)|);
    assert n + 1 == Power10(k);
    AllNines(k);
    RoundNumber(k);
    hide Fixed, Padded, WidthOf;
    NoPadding(n);
    NoPadding(n + 1);
  }

  lemma NoPadding(n: int)
    requires n > 0 && |Decimal(n)| >= 3
    ensures YearText(-n) == "-" + Decimal(n)
  {
    hide Decimal;
    assert Zeros(3 - |Decimal(n)|) == "";
  }

  /** Where the range sorts, any two of its stamps do. */
  lemma SortedPair(from: int, through: int, a: int, b: int)
    requires Sorts(from, through) && a < b && from <= DateOf(a).year && DateOf(b).year <= through
    ensures Before(Rfc3339(a), Rfc3339(b))
  {
    hide DateOf, Padded, Before, Rfc3339;
    var y, z := DateOf(a).year, DateOf(b).year;
    YearsKeepOrder(a, b);
    if y == z {
      StampOrder(a, b);
    } else if from >= 0 {
      WidthsBetween(from, y, through);
      WidthsBetween(from, z, through);
      UnsignedOrder(a, b);
    } else if from == -1 {
      if y == -1 {
        YearFirst(y);
        YearFirst(z);
        FirstsDecide(a, b);
      } else {
        FourWide(y);
        FourWide(z);
        UnsignedOrder(a, b);
      }
    } else {
      SignedStep(-z);
      SecondsDecide(a, b);
    }
  }

  /** The second characters decide when the first agree. */
  lemma SecondsDecide(a: int, b: int)
    requires var y, z := YearText(DateOf(a).year), YearText(DateOf(b).year);
      "-1" <= y && "-9" <= z
    ensures Before(Rfc3339(a), Rfc3339(b))
  {
    hide DateOf, YearText, Rest, Rfc3339;
    StampParts(a);
    StampParts(b);
    var s, t := Rfc3339(a), Rfc3339(b);
    var y, z := YearText(DateOf(a).year), YearText(DateOf(b).year);
    assert s[0] == y[0] == "-1"[0] && s[1] == y[1] == "-1"[1];
    assert t[0] == z[0] == "-9"[0] && t[1] == z[1] == "-9"[1];
    assert Before(s[1..], t[1..]);
  }

  /** Two adjacent years out of order. */
  lemma AdjacentYears(y: int)
    requires (y >= 0 && Width(y) < Width(y + 1)) || (y < -1 && Width(y) == Width(y + 1))
    ensures !Before(Rfc3339(YearStart(y)), Rfc3339(YearStart(y + 1)))
  {
    hide DateOf, YearStart, Before, Rfc3339;
    YearStarts(y);
    YearStarts(y + 1);
    if y < 0 {
      PaddedOrder(-y - 1, -y, 4);
      hide Padded;
      StampDisorder(YearStart(y), YearStart(y + 1));
    } else {
      UnsignedStep(y);
      FirstsDecide(YearStart(y), YearStart(y + 1));
    }
  }

  lemma UnsignedStep(n: int)
    requires n >= 0 && Width(n) < Width(n + 1)
    ensures YearText(n)[0] == '9' && YearText(n + 1)[0] == '1'
  {
    hide Power10, Decimal;
    PaddedIs(n, 4);
    PaddedIs(n + 1, 4);
    var k := WidthOf(n, 4);
    Length(n);
    PowersGrow(|Decimal(n)|, k);
    LengthWithin(n + 1, k);
    assert n + 1 == Power10(k);
    AllNines(k);
    RoundNumber(k);
    assert Zeros(4 - |Decimal(n)|) == "" && Zeros(4 - |Decimal(n + 1)|) == "";
  }

  /** Where the range does not sort, it has two adjacent years out of order. */
  lemma UnsortedYears(from: int, through: int) returns (y: int)
    requires !Sorts(from, through)
    ensures from <= y < through
    ensures (y >= 0 && Width(y) < Width(y + 1)) || (y < -1 && Width(y) == Width(y + 1))
  {
    hide Padded;
    if from >= 0 {
      y := StepBetween(from, through);
    } else if from == -1 {
      FourWide(9999);
      FourWide(10_000);
      y := 9999;
    } else if Width(from) == Width(from + 1) {
      y := from;
    } else {
      SignedStep(-from - 1);
      y := from + 1;
      SignedNext(-from - 2);
    }
  }

  /** Just below a power of ten two numbers are equally wide. */
  lemma SignedNext(n: int)
    requires n >= 998 && n + 2 == Power10(WidthOf(n + 1, 3))
    ensures Width(-(n + 1)) == Width(-n)
  {
    hide Power10, Decimal, Padded;
    PaddedIs(n, 4);
    PaddedIs(n + 1, 4);
    var k := WidthOf(n + 1, 3);
    LengthWithin(n, k);
    LengthWithin(n + 1, k);
    if k > 3 {
      LengthWithin(n, k - 1);
      TenTimes(k - 1);
    }
  }

  lemma TenTimes(k: nat)
    ensures Power10(k + 1) == 10 * Power10(k)
  {
  }

  /** Somewhere between two widths a year is wider than the one before it. */
  lemma {:induction false} StepBetween(from: int, through: int) returns (y: int)
    requires 0 <= from < through && Width(from) != Width(through)
    ensures from <= y < through && Width(y) < Width(y + 1)
    decreases through - from
  {
    hide Padded;
    PaddedWidthGrows(from, from + 1, 4);
    if Width(from) < Width(from + 1) {
      y := from;
    } else {
      y := StepBetween(from + 1, through);
    }
  }

  /** The stamps of all seconds from one year through another sort, as text, by
      time, exactly when their range of years does. */
  lemma StampsSortInYears(from: int, through: int)
    ensures (forall a, b :: a < b && from <= DateOf(a).year && DateOf(b).year <= through ==>
      Before(Rfc3339(a), Rfc3339(b)))
            <==> Sorts(from, through)
  {
    hide DateOf, Before, Rfc3339, YearStart, Sorts;
    if Sorts(from, through) {
      forall a, b | a < b && from <= DateOf(a).year && DateOf(b).year <= through
        ensures Before(Rfc3339(a), Rfc3339(b))
      {
        SortedPair(from, through, a, b);
      }
    } else {
      var y := UnsortedYears(from, through);
      YearStarts(y);
      YearStarts(y + 1);
      AdjacentYears(y);
      assert from <= DateOf(YearStart(y)).year && DateOf(YearStart(y + 1)).year <= through;
    }
  }

  /** From year 0 up to a year, exactly when that has no more than four digits. */
  lemma StampsSortUpToYear(top: int)
    ensures (forall a, b :: a < b && 0 <= DateOf(a).year && DateOf(b).year <= top ==> Before(Rfc3339(a), Rfc3339(b)))
            <==> top < 10_000
  {
    hide DateOf, Before, Rfc3339, Padded;
    StampsSortInYears(0, top);
    FourWide(0);
    if top >= 0 {
      FourWide(top);
    }
  }

  /** The last second of 9999 and the first of 10000. */
  lemma FiveDigitYearsSortEarly() returns (a: int)
    ensures DateOf(a) == Date(9999, 12, 31) && DateOf(a + 1) == Date(10_000, 1, 1)
    ensures !Before(Rfc3339(a), Rfc3339(a + 1))
  {
    hide CivilFromDays, DaysOfDate, Rfc3339, YearText, Before;
    var last := Date(9999, 12, 31);
    var day := DaysOfDate(last);
    CivilIsOrderIsomorphism(day, day, last);
    CivilFollowsTheCalendar(day);
    a := day * DAY + DAY - 1;
    assert a / DAY == day && (a + 1) / DAY == day + 1;
    FourWide(9999);
    FourWide(10_000);
    UnsignedStep(9999);
    FirstsDecide(a, a + 1);
  }
}
