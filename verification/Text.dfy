/**
 * The text forms that the system compares and parses: fixed-width decimals, money, and the ISO 8601
 * form that Python gives a UTC datetime, under code-point order.
 */
module Text {
  import opened Prelude

  function Sign(x: int): int {
    if x < 0 then -1 else if x > 0 then 1 else 0
  }

  /** Code-point order of two strings: -1, 0 or 1. */
  function Cmp(a: string, b: string): int {
    if a == "" || b == "" then Sign(|a| - |b|)
    else if a[0] < b[0] then -1
    else if a[0] > b[0] then 1
    else Cmp(a[1..], b[1..])
  }

  lemma {:induction false} CmpConcat(a: string, b: string, x: string, y: string)
    requires |a| == |b|
    ensures Cmp(a + x, b + y) == if Cmp(a, b) != 0 then Cmp(a, b) else Cmp(x, y)
  {
    if a == "" {
      assert a + x == x && b + y == y;
    } else {
      CmpConcat(a[1..], b[1..], x, y);
      assert (a + x)[1..] == a[1..] + x && (b + y)[1..] == b[1..] + y;
    }
  }

  lemma {:induction false} CmpSelf(a: string)
    ensures Cmp(a, a) == 0
  {
    if a != "" {
      CmpSelf(a[1..]);
    }
  }

  lemma {:induction false} CmpZero(a: string, b: string)
    requires Cmp(a, b) == 0
    ensures a == b
  {
    if a != "" && b != "" {
      CmpZero(a[1..], b[1..]);
      assert a == [a[0]] + a[1..] && b == [b[0]] + b[1..];
    }
  }

  lemma {:induction false} CmpAntisymmetric(a: string, b: string)
    ensures Cmp(a, b) == -Cmp(b, a)
  {
    if a != "" && b != "" {
      CmpAntisymmetric(a[1..], b[1..]);
    }
  }

  lemma {:induction false} CmpTransitive(a: string, b: string, c: string)
    requires Cmp(a, b) <= 0 && Cmp(b, c) <= 0
    ensures Cmp(a, c) <= 0
    ensures Cmp(a, c) == 0 ==> Cmp(a, b) == 0 && Cmp(b, c) == 0
  {
    if a != "" && b != "" && c != "" && a[0] == b[0] == c[0] {
      CmpTransitive(a[1..], b[1..], c[1..]);
    }
  }

  // ---------------------------------------------------------------------------
  // Decimal numerals
  // ---------------------------------------------------------------------------

  predicate IsDigit(c: char) {
    '0' <= c <= '9'
  }

  predicate AllDigits(s: string) {
    forall i :: 0 <= i < |s| ==> IsDigit(s[i])
  }

  function DigitChar(n: nat): (c: char)
    requires n < 10
    ensures IsDigit(c) && c as int - '0' as int == n
  {
    ('0' as int + n) as char
  }

  /** The value of a digit string, whatever its leading zeros. */
  function ToNat(s: string): nat
    requires AllDigits(s)
  {
    if s == "" then 0 else ToNat(s[..|s| - 1]) * 10 + (s[|s| - 1] as int - '0' as int)
  }

  function Power10(w: nat): nat {
    if w == 0 then 1 else 10 * Power10(w - 1)
  }

  lemma {:induction false} Power10Positive(w: nat)
    ensures Power10(w) >= 1
  {
    if w > 0 {
      Power10Positive(w - 1);
    }
  }

  /** `n` in exactly `w` digits. */
  function Pad(n: nat, w: nat): (s: string)
    requires n < Power10(w)
    ensures |s| == w && AllDigits(s) && ToNat(s) == n
  {
    if w == 0 then "" else Pad(n / 10, w - 1) + [DigitChar(n % 10)]
  }

  /** `n` without leading zeros. */
  function ToText(n: nat): (s: string)
    ensures |s| >= 1 && AllDigits(s) && ToNat(s) == n
  {
    if n < 10 then [DigitChar(n)] else ToText(n / 10) + [DigitChar(n % 10)]
  }

  /** `str` of an integer. */
  function IntText(n: int): string {
    if n < 0 then "-" + ToText(-n) else ToText(n)
  }

  /** Reads what `IntText` writes. */
  function ReadInt(s: string): Option<int> {
    if s != "" && s[0] == '-' && AllDigits(s[1..]) then
      var n := 0 - ToNat(s[1..]);
      Some(n)
    else if s != "" && AllDigits(s) then Some(ToNat(s))
    else None
  }

  lemma IntRoundTrip(n: int)
    ensures ReadInt(IntText(n)) == Some(n) && IntText(n) != ""
    ensures forall c :: c in IntText(n) ==> IsDigit(c) || c == '-'
  {
    if n < 0 {
      assert IntText(n)[1..] == ToText(-n);
    } else {
      assert IsDigit(ToText(n)[0]);
    }
  }

  lemma ShorterFits(n: nat, w: nat)
    requires w > 0 && n < Power10(w)
    ensures n / 10 < Power10(w - 1)
  {
  }

  lemma DigitCmp(x: nat, y: nat)
    requires x < 10 && y < 10
    ensures Cmp([DigitChar(x)], [DigitChar(y)]) == Sign(x - y)
  {
    assert [DigitChar(x)][1..] == "" == [DigitChar(y)][1..];
  }

  lemma LastDigitSign(m: nat, n: nat)
    ensures Sign(m - n) == if m / 10 != n / 10 then Sign(m / 10 - n / 10) else Sign(m % 10 - n % 10)
  {
  }

  lemma {:induction false} PadCmp(m: nat, n: nat, w: nat)
    requires m < Power10(w) && n < Power10(w)
    ensures Cmp(Pad(m, w), Pad(n, w)) == Sign(m - n)
  {
    if w > 0 {
      var a, b, x, y := m / 10, n / 10, m % 10, n % 10;
      ShorterFits(m, w);
      ShorterFits(n, w);
      PadCmp(a, b, w - 1);
      CmpConcat(Pad(a, w - 1), Pad(b, w - 1), [DigitChar(x)], [DigitChar(y)]);
      DigitCmp(x, y);
      LastDigitSign(m, n);
    }
  }

  // ---------------------------------------------------------------------------
  // UTC timestamps
  // ---------------------------------------------------------------------------

  /** An aware UTC datetime. */
  datatype Utc = Utc(year: nat, month: nat, day: nat, hour: nat, minute: nat, second: nat, micro: nat)

  predicate LeapYear(year: nat) {
    year % 4 == 0 && (year % 100 != 0 || year % 400 == 0)
  }

  function DaysIn(year: nat, month: nat): (n: nat)
    ensures 28 <= n <= 31
  {
    if month == 2 then (if LeapYear(year) then 29 else 28)
    else if month == 4 || month == 6 || month == 9 || month == 11 then 30
    else 31
  }

  /** The datetimes that Python can represent. */
  predicate ValidUtc(u: Utc) {
    && 1 <= u.year < 10_000 && 1 <= u.month <= 12 && 1 <= u.day <= DaysIn(u.year, u.month)
    && u.hour < 24 && u.minute < 60 && u.second < 60 && u.micro < 1_000_000
  }

  function Radix(high: int, base: nat, low: nat): int {
    high * base + low
  }

  function DayIndex(u: Utc): int {
    Radix(Radix(u.year, 13, u.month), 32, u.day)
  }

  function SecondIndex(u: Utc): int {
    Radix(Radix(Radix(DayIndex(u), 24, u.hour), 60, u.minute), 60, u.second)
  }

  /** An index of the datetimes in chronological order: the fields as the digits of one mixed-radix number. */
  function Index(u: Utc): int {
    Radix(SecondIndex(u), 1_000_000, u.micro)
  }

  lemma PowersOf10()
    ensures Power10(2) == 100 && Power10(4) == 10_000 && Power10(6) == 1_000_000
  {
    assert Power10(3) == 1000 && Power10(5) == 100_000;
  }

  function Two(n: nat): (s: string)
    requires n < 100
    ensures |s| == 2 && AllDigits(s) && ToNat(s) == n
  {
    PowersOf10();
    Pad(n, 2)
  }

  function Four(n: nat): (s: string)
    requires n < 10_000
    ensures |s| == 4 && AllDigits(s) && ToNat(s) == n
  {
    PowersOf10();
    Pad(n, 4)
  }

  function Six(n: nat): (s: string)
    requires n < 1_000_000
    ensures |s| == 6 && AllDigits(s) && ToNat(s) == n
  {
    PowersOf10();
    Pad(n, 6)
  }

  lemma TwoCmp(m: nat, n: nat)
    requires m < 100 && n < 100
    ensures Cmp(Two(m), Two(n)) == Sign(m - n)
  {
    PowersOf10();
    PadCmp(m, n, 2);
  }

  lemma FourCmp(m: nat, n: nat)
    requires m < 10_000 && n < 10_000
    ensures Cmp(Four(m), Four(n)) == Sign(m - n)
  {
    PowersOf10();
    PadCmp(m, n, 4);
  }

  lemma SixCmp(m: nat, n: nat)
    requires m < 1_000_000 && n < 1_000_000
    ensures Cmp(Six(m), Six(n)) == Sign(m - n)
  {
    PowersOf10();
    PadCmp(m, n, 6);
  }

  function TimeText(u: Utc): string
    requires ValidUtc(u)
  {
    Two(u.hour) + (":" + (Two(u.minute) + (":" + Two(u.second))))
  }

  function DateText(u: Utc, rest: string): string
    requires ValidUtc(u)
  {
    Four(u.year) + ("-" + (Two(u.month) + ("-" + (Two(u.day) + ("T" + rest)))))
  }

  /** `YYYY-MM-DDTHH:MM:SS`. */
  function Seconds(u: Utc): (s: string)
    requires ValidUtc(u)
    ensures |s| == 19
  {
    DateText(u, TimeText(u))
  }

  /** The fraction and offset; the fraction is left out when it is zero. */
  function Tail(micro: nat): string
    requires micro < 1_000_000
  {
    (if micro == 0 then "" else "." + Six(micro)) + "+00:00"
  }

  /** `isoformat()` of a UTC datetime. */
  function Iso(u: Utc): string
    requires ValidUtc(u)
  {
    Seconds(u) + Tail(u.micro)
  }

  /** The first of two pairs of fields decides, the second breaks its ties. */
  function Then(first: int, second: int): int {
    if first != 0 then first else second
  }

  /** The first field decides, what follows the separator breaks its ties. */
  lemma FieldFirst(a: string, b: string, sep: string, x: string, y: string)
    requires |a| == |b|
    ensures Cmp(a + (sep + x), b + (sep + y)) == Then(Cmp(a, b), Cmp(x, y))
  {
    CmpConcat(a, b, sep + x, sep + y);
    CmpSelf(sep);
    CmpConcat(sep, sep, x, y);
  }

  function DateOrder(u: Utc, v: Utc): int {
    Then(Sign(u.year - v.year), Then(Sign(u.month - v.month), Sign(u.day - v.day)))
  }

  function TimeOrder(u: Utc, v: Utc): int {
    Then(Sign(u.hour - v.hour), Then(Sign(u.minute - v.minute), Sign(u.second - v.second)))
  }

  lemma TimeCmp(u: Utc, v: Utc)
    requires ValidUtc(u) && ValidUtc(v)
    ensures Cmp(TimeText(u), TimeText(v)) == TimeOrder(u, v)
  {
    TwoCmp(u.hour, v.hour);
    TwoCmp(u.minute, v.minute);
    TwoCmp(u.second, v.second);
    FieldFirst(Two(u.minute), Two(v.minute), ":", Two(u.second), Two(v.second));
    FieldFirst(Two(u.hour), Two(v.hour), ":", Two(u.minute) + (":" + Two(u.second)),
               Two(v.minute) + (":" + Two(v.second)));
  }

  lemma DateCmp(u: Utc, v: Utc, x: string, y: string)
    requires ValidUtc(u) && ValidUtc(v)
    ensures Cmp(DateText(u, x), DateText(v, y)) == Then(DateOrder(u, v), Cmp(x, y))
  {
    FourCmp(u.year, v.year);
    TwoCmp(u.month, v.month);
    TwoCmp(u.day, v.day);
    FieldFirst(Two(u.day), Two(v.day), "T", x, y);
    FieldFirst(Two(u.month), Two(v.month), "-", Two(u.day) + ("T" + x), Two(v.day) + ("T" + y));
    FieldFirst(Four(u.year), Four(v.year), "-", Two(u.month) + ("-" + (Two(u.day) + ("T" + x))),
               Two(v.month) + ("-" + (Two(v.day) + ("T" + y))));
  }

  lemma SecondsCmp(u: Utc, v: Utc)
    requires ValidUtc(u) && ValidUtc(v)
    ensures Cmp(Seconds(u), Seconds(v)) == Then(DateOrder(u, v), TimeOrder(u, v))
  {
    TimeCmp(u, v);
    DateCmp(u, v, TimeText(u), TimeText(v));
  }

  /** '+' sorts before '.', so a whole second sorts before its fractions. */
  lemma TailCmp(x: nat, y: nat)
    requires x < 1_000_000 && y < 1_000_000
    ensures Cmp(Tail(x), Tail(y)) == Sign(x - y)
  {
    if x == 0 && y == 0 {
      CmpSelf("+00:00");
    } else if x != 0 && y != 0 {
      SixCmp(x, y);
      CmpSelf("+00:00");
      CmpConcat(Six(x), Six(y), "+00:00", "+00:00");
      CmpConcat(".", ".", Six(x) + "+00:00", Six(y) + "+00:00");
      assert Tail(x) == "." + (Six(x) + "+00:00") && Tail(y) == "." + (Six(y) + "+00:00");
    } else {
      assert Tail(0)[0] == '+';
      assert x != 0 ==> Tail(x)[0] == '.';
      assert y != 0 ==> Tail(y)[0] == '.';
    }
  }

  lemma OneMore(i: int, base: nat)
    ensures (i + 1) * base == i * base + base
  {
  }

  /** A smaller leading digit cannot be made up for by the next one. */
  lemma {:induction false} Ahead(h: int, i: int, base: nat)
    requires h < i
    ensures h * base + base <= i * base
    decreases i - h
  {
    OneMore(i - 1, base);
    if h + 1 < i {
      Ahead(h, i - 1, base);
    }
  }

  lemma RadixThen(h: int, i: int, base: nat, x: nat, y: nat)
    requires x < base && y < base
    ensures Sign(Radix(h, base, x) - Radix(i, base, y)) == Then(Sign(h - i), Sign(x - y))
  {
    if h < i {
      Ahead(h, i, base);
    } else if h > i {
      Ahead(i, h, base);
    }
  }

  lemma DaySign(u: Utc, v: Utc)
    requires ValidUtc(u) && ValidUtc(v)
    ensures Sign(DayIndex(u) - DayIndex(v)) == DateOrder(u, v)
  {
    RadixThen(u.year, v.year, 13, u.month, v.month);
    RadixThen(Radix(u.year, 13, u.month), Radix(v.year, 13, v.month), 32, u.day, v.day);
  }

  lemma SecondSign(u: Utc, v: Utc)
    requires ValidUtc(u) && ValidUtc(v)
    ensures Sign(SecondIndex(u) - SecondIndex(v)) == Then(DateOrder(u, v), TimeOrder(u, v))
  {
    var h, h' := Radix(DayIndex(u), 24, u.hour), Radix(DayIndex(v), 24, v.hour);
    DaySign(u, v);
    RadixThen(DayIndex(u), DayIndex(v), 24, u.hour, v.hour);
    RadixThen(h, h', 60, u.minute, v.minute);
    RadixThen(Radix(h, 60, u.minute), Radix(h', 60, v.minute), 60, u.second, v.second);
  }

  lemma IndexSign(u: Utc, v: Utc)
    requires ValidUtc(u) && ValidUtc(v)
    ensures Sign(Index(u) - Index(v)) == Then(Then(DateOrder(u, v), TimeOrder(u, v)), Sign(u.micro - v.micro))
  {
    SecondSign(u, v);
    RadixThen(SecondIndex(u), SecondIndex(v), 1_000_000, u.micro, v.micro);
  }

  lemma IsoCmp(u: Utc, v: Utc)
    requires ValidUtc(u) && ValidUtc(v)
    ensures Cmp(Iso(u), Iso(v)) == Then(Then(DateOrder(u, v), TimeOrder(u, v)), Sign(u.micro - v.micro))
  {
    SecondsCmp(u, v);
    TailCmp(u.micro, v.micro);
    CmpConcat(Seconds(u), Seconds(v), Tail(u.micro), Tail(v.micro));
  }

  /**
   * Text order is time order for UTC timestamps, although a zero fraction is left out; the text MAX
   * of the event log is the chronological latest (section 5.1 of RFC 3339 asks for equal fractions).
   */
  lemma IsoOrder(u: Utc, v: Utc)
    requires ValidUtc(u) && ValidUtc(v)
    ensures Cmp(Iso(u), Iso(v)) == Sign(Index(u) - Index(v))
  {
    IsoCmp(u, v);
    IndexSign(u, v);
  }

  // ---------------------------------------------------------------------------
  // Reading timestamps back
  // ---------------------------------------------------------------------------

  /** Digits everywhere but at the separators of `YYYY-MM-DDTHH:MM:SS`. */
  predicate SecondsShape(s: string) {
    && |s| == 19
    && s[4] == '-' && s[7] == '-' && s[10] == 'T' && s[13] == ':' && s[16] == ':'
    && AllDigits(s[..4]) && AllDigits(s[5..7]) && AllDigits(s[8..10])
    && AllDigits(s[11..13]) && AllDigits(s[14..16]) && AllDigits(s[17..19])
  }

  predicate TailShape(s: string) {
    s == "+00:00" || (|s| == 13 && s[0] == '.' && AllDigits(s[1..7]) && s[7..] == "+00:00")
  }

  /** Reads the forms that `Iso` writes. */
  function ReadUtc(s: string): Option<Utc> {
    if |s| < 19 || !SecondsShape(s[..19]) || !TailShape(s[19..]) then None
    else
      var f, t := s[..19], s[19..];
      var u := Utc(ToNat(f[..4]), ToNat(f[5..7]), ToNat(f[8..10]), ToNat(f[11..13]), ToNat(f[14..16]), ToNat(f[17..19]),
                   if |t| == 6 then 0 else ToNat(t[1..7]));
      if ValidUtc(u) then Some(u) else None
  }

  lemma Peel(f: string, k: nat, part: string, sep: char, rest: string)
    requires k <= |f| && f[k..] == part + ([sep] + rest)
    ensures k + |part| < |f| && f[k..k + |part|] == part && f[k + |part|] == sep && f[k + |part| + 1..] == rest
  {
    var tail := f[k..];
    assert tail[..|part|] == part && tail[|part|] == sep && tail[|part| + 1..] == rest;
    assert f[k..k + |part|] == tail[..|part|] && f[k + |part|] == tail[|part|];
    assert f[k + |part| + 1..] == tail[|part| + 1..];
  }

  lemma PartsOfSix(a: string, b: string, c: string, d: string, e: string, g: string, f: string)
    requires |a| == 4 && |b| == |c| == |d| == |e| == |g| == 2
    requires f == a + ("-" + (b + ("-" + (c + ("T" + (d + (":" + (e + (":" + g)))))))))
    ensures |f| == 19 && f[4] == '-' && f[7] == '-' && f[10] == 'T' && f[13] == ':' && f[16] == ':'
    ensures f[..4] == a && f[5..7] == b && f[8..10] == c && f[11..13] == d && f[14..16] == e && f[17..19] == g
  {
    assert f[0..] == f;
    Peel(f, 0, a, '-', b + ("-" + (c + ("T" + (d + (":" + (e + (":" + g))))))));
    Peel(f, 5, b, '-', c + ("T" + (d + (":" + (e + (":" + g))))));
    Peel(f, 8, c, 'T', d + (":" + (e + (":" + g))));
    Peel(f, 11, d, ':', e + (":" + g));
    Peel(f, 14, e, ':', g);
    assert f[17..19] == f[17..];
  }

  lemma SecondsParts(u: Utc)
    requires ValidUtc(u)
    ensures SecondsShape(Seconds(u))
    ensures var f := Seconds(u);
      && f[..4] == Four(u.year) && f[5..7] == Two(u.month) && f[8..10] == Two(u.day)
      && f[11..13] == Two(u.hour) && f[14..16] == Two(u.minute) && f[17..19] == Two(u.second)
  {
    PartsOfSix(Four(u.year), Two(u.month), Two(u.day), Two(u.hour), Two(u.minute), Two(u.second), Seconds(u));
  }

  lemma TailParts(micro: nat)
    requires micro < 1_000_000
    ensures TailShape(Tail(micro))
    ensures if |Tail(micro)| == 6 then micro == 0 else ToNat(Tail(micro)[1..7]) == micro
  {
    if micro != 0 {
      assert Tail(micro) == "." + Six(micro) + "+00:00";
      assert Tail(micro)[1..7] == Six(micro);
      assert Tail(micro)[7..] == "+00:00";
    }
  }

  /** Writing and reading a UTC timestamp gives it back, with and without a fraction. */
  lemma IsoRoundTrip(u: Utc)
    requires ValidUtc(u)
    ensures ReadUtc(Iso(u)) == Some(u)
  {
    SecondsParts(u);
    TailParts(u.micro);
    assert Iso(u)[..19] == Seconds(u) && Iso(u)[19..] == Tail(u.micro);
  }
}
