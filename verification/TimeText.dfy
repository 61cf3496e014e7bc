/** Time as the store keeps it: UTC instants printed in Go's RFC3339Nano layout, which
    trims trailing zeros of the fraction, and compared as bytes by SQLite
    (internal/server/store.go). Byte order is time order, except in one family. */
module TimeText {
  import opened Common

  // ---------------------------------------------------------------- instants

  /** A UTC civil time of the years 0000 to 9999. */
  datatype Civil = Civil(year: int, month: int, day: int, hour: int, minute: int, second: int, nanos: int)

  predicate Leap(y: int) { y % 4 == 0 && (y % 100 != 0 || y % 400 == 0) }

  function DaysIn(y: int, m: int): int {
    if m == 2 then (if Leap(y) then 29 else 28)
    else if m == 4 || m == 6 || m == 9 || m == 11 then 30
    else 31
  }

  predicate Valid(c: Civil) {
    && 0 <= c.year <= 9999 && 1 <= c.month <= 12 && 1 <= c.day <= DaysIn(c.year, c.month)
    && 0 <= c.hour < 24 && 0 <= c.minute < 60 && 0 <= c.second < 60 && 0 <= c.nanos < SECOND
  }

  /** A time as the store keeps it. */
  type Moment = c: Civil | Valid(c) witness Civil(2000, 1, 1, 0, 0, 0, 0)

  function DaysBeforeMonth(y: int, m: int): int
    decreases m
  {
    if m <= 1 then 0 else DaysBeforeMonth(y, m - 1) + DaysIn(y, m - 1)
  }

  function DaysBeforeYear(y: int): int
    decreases y
  {
    if y <= 0 then 0 else DaysBeforeYear(y - 1) + YearLength(y - 1)
  }

  function YearLength(y: int): int { if Leap(y) then 366 else 365 }

  function Day(c: Civil): int { DaysBeforeYear(c.year) + DaysBeforeMonth(c.year, c.month) + c.day }

  function Seconds(c: Civil): int { ((Day(c) * 24 + c.hour) * 60 + c.minute) * 60 + c.second }

  /** Nanoseconds on the time line. */
  function Instant(c: Civil): int { Seconds(c) * SECOND + c.nanos }

  /** The printed fields after the year. */
  function Fields(c: Civil): seq<int> { [c.month, c.day, c.hour, c.minute, c.second] }

  predicate SameSecond(a: Civil, b: Civil) { a.year == b.year && Fields(a) == Fields(b) }

  // ---------------------------------------------------------------- text

  function DigitChar(d: int): char
    requires 0 <= d < 10
  {
    '0' + (d as char)
  }

  function Pow10(w: nat): int { if w == 0 then 1 else 10 * Pow10(w - 1) }

  /** n in w decimal digits. */
  function Digits(n: int, w: nat): (s: string)
    ensures |s| == w
    ensures forall i :: 0 <= i < w ==> '0' <= s[i] <= '9'
    decreases w
  {
    if w == 0 then "" else Digits(n / 10, w - 1) + [DigitChar(n % 10)]
  }

  /** Two-digit fields, each after its separator. */
  function Rest(fields: seq<int>, marks: string): string
    requires |fields| == |marks|
    decreases |fields|
  {
    if fields == [] then "" else [marks[0]] + Digits(fields[0], 2) + Rest(fields[1..], marks[1..])
  }

  /** The part up to whole seconds: 2006-01-02T15:04:05. */
  function SecondText(c: Civil): string { Digits(c.year, 4) + Rest(Fields(c), "--T::") }

  function TrimZeros(s: string): (r: string)
    ensures r <= s
    ensures r != "" ==> r[|r| - 1] != '0'
    ensures forall i :: |r| <= i < |s| ==> s[i] == '0'
  {
    if s != "" && s[|s| - 1] == '0' then TrimZeros(s[..|s| - 1]) else s
  }

  /** The fraction digits that are printed. */
  function Fraction(nanos: int): string { TrimZeros(Digits(nanos, 9)) }

  function Tail(fraction: string): string { (if fraction == "" then "" else "." + fraction) + "Z" }

  function Text(c: Civil): string { SecondText(c) + Tail(Fraction(c.nanos)) }

  // ---------------------------------------------------------------- byte order

  /** Byte-wise order, as SQLite compares text. */
  predicate Less(s: string, t: string)
    decreases |s|
  {
    t != "" && (s == "" || s[0] < t[0] || (s[0] == t[0] && Less(s[1..], t[1..])))
  }

  predicate AtMost(s: string, t: string) { s == t || Less(s, t) }

  lemma {:induction false} LessConcat(s: string, t: string, u: string, v: string)
    requires |s| == |t|
    ensures Less(s + u, t + v) <==> Less(s, t) || (s == t && Less(u, v))
    decreases |s|
  {
    if s == "" {
      assert s + u == u && t + v == v;
    } else {
      assert (s + u)[1..] == s[1..] + u && (t + v)[1..] == t[1..] + v;
      LessConcat(s[1..], t[1..], u, v);
      assert s == [s[0]] + s[1..] && t == [t[0]] + t[1..];
    }
  }

  lemma {:induction false} LessIrreflexive(s: string)
    ensures !Less(s, s)
    decreases |s|
  {
    if s != "" {
      LessIrreflexive(s[1..]);
    }
  }

  /** Once two strings differ at a place both have, what follows does not matter. */
  lemma {:induction false} LessDecided(s: string, t: string, u: string, v: string)
    requires !(s <= t) && !(t <= s)
    ensures Less(s + u, t + v) <==> Less(s, t)
    ensures !Less(s, t) <==> Less(t, s)
    decreases |s|
  {
    assert (s + u)[1..] == s[1..] + u && (t + v)[1..] == t[1..] + v;
    if s[0] == t[0] {
      assert s == [s[0]] + s[1..] && t == [t[0]] + t[1..];
      LessDecided(s[1..], t[1..], u, v);
    }
  }

  // ---------------------------------------------------------------- digits keep order

  lemma {:induction false} DigitsOrder(a: int, b: int, w: nat)
    requires 0 <= a < Pow10(w) && 0 <= b < Pow10(w)
    ensures Less(Digits(a, w), Digits(b, w)) <==> a < b
    ensures Digits(a, w) == Digits(b, w) <==> a == b
    decreases w
  {
    if w > 0 {
      DigitsOrder(a / 10, b / 10, w - 1);
      var x, y := [DigitChar(a % 10)], [DigitChar(b % 10)];
      LessConcat(Digits(a / 10, w - 1), Digits(b / 10, w - 1), x, y);
      assert x[1..] == "" && y[1..] == "";
      assert Less(x, y) <==> a % 10 < b % 10;
      if Digits(a, w) == Digits(b, w) {
        assert Digits(a, w)[..w - 1] == Digits(b, w)[..w - 1] && Digits(a, w)[w - 1] == Digits(b, w)[w - 1];
      }
    }
  }

  predicate LexLess(f: seq<int>, g: seq<int>)
    requires |f| == |g|
    decreases |f|
  {
    f != [] && (f[0] < g[0] || (f[0] == g[0] && LexLess(f[1..], g[1..])))
  }

  /** Strings of equal length split at the same place are equal exactly when both parts are. */
  lemma SplitEqual(s: string, t: string, u: string, v: string)
    requires |s| == |t|
    ensures s + u == t + v <==> s == t && u == v
  {
    assert (s + u)[..|s|] == s && (t + v)[..|s|] == t;
    assert (s + u)[|s|..] == u && (t + v)[|s|..] == v;
  }

  lemma HeadsAndTails(f: seq<int>, g: seq<int>)
    requires |f| == |g| > 0
    ensures f == g <==> f[0] == g[0] && f[1..] == g[1..]
  {
    assert f == [f[0]] + f[1..] && g == [g[0]] + g[1..];
  }

  lemma {:induction false} RestOrder(f: seq<int>, g: seq<int>, marks: string)
    requires |f| == |g| == |marks|
    requires forall i :: 0 <= i < |f| ==> 0 <= f[i] < 100 && 0 <= g[i] < 100
    ensures |Rest(f, marks)| == |Rest(g, marks)|
    ensures Less(Rest(f, marks), Rest(g, marks)) <==> LexLess(f, g)
    ensures Rest(f, marks) == Rest(g, marks) <==> f == g
    decreases |f|
  {
    if f != [] {
      RestOrder(f[1..], g[1..], marks[1..]);
      HeadsAndTails(f, g);
      FieldOrder(f[0], g[0], marks[0], Rest(f[1..], marks[1..]), Rest(g[1..], marks[1..]));
    }
  }

  /** A fixed-width number decides, and what follows decides between equal numbers. */
  lemma NumberOrder(a: int, b: int, w: nat, x: string, y: string)
    requires 0 <= a < Pow10(w) && 0 <= b < Pow10(w)
    ensures Less(Digits(a, w) + x, Digits(b, w) + y) <==> a < b || (a == b && Less(x, y))
    ensures Digits(a, w) + x == Digits(b, w) + y <==> a == b && x == y
  {
    DigitsOrder(a, b, w);
    LessConcat(Digits(a, w), Digits(b, w), x, y);
    SplitEqual(Digits(a, w), Digits(b, w), x, y);
  }

  lemma FieldOrder(a: int, b: int, mark: char, x: string, y: string)
    requires 0 <= a < 100 && 0 <= b < 100
    ensures Less([mark] + Digits(a, 2) + x, [mark] + Digits(b, 2) + y) <==> a < b || (a == b && Less(x, y))
    ensures [mark] + Digits(a, 2) + x == [mark] + Digits(b, 2) + y <==> a == b && x == y
  {
    assert Pow10(2) == 100;
    NumberOrder(a, b, 2, x, y);
    var m, s, t := [mark], Digits(a, 2) + x, Digits(b, 2) + y;
    assert m + Digits(a, 2) + x == m + s && m + Digits(b, 2) + y == m + t;
    LessConcat(m, m, s, t);
    LessIrreflexive(m);
    SplitEqual(m, m, s, t);
  }

  lemma SecondTextOrder(a: Civil, b: Civil)
    requires Valid(a) && Valid(b)
    ensures |SecondText(a)| == |SecondText(b)|
    ensures Less(SecondText(a), SecondText(b)) <==>
      a.year < b.year || (a.year == b.year && LexLess(Fields(a), Fields(b)))
    ensures SecondText(a) == SecondText(b) <==> SameSecond(a, b)
  {
    assert Pow10(4) == 10000 by { assert Pow10(2) == 100; }
    RestOrder(Fields(a), Fields(b), "--T::");
    NumberOrder(a.year, b.year, 4, Rest(Fields(a), "--T::"), Rest(Fields(b), "--T::"));
  }

  // ---------------------------------------------------------------- fields keep order

  lemma {:induction false} MonthsGrow(y: int, m: int, n: int)
    requires 1 <= m < n
    ensures DaysBeforeMonth(y, m) + DaysIn(y, m) <= DaysBeforeMonth(y, n)
    decreases n
  {
    if m < n - 1 {
      MonthsGrow(y, m, n - 1);
    }
  }

  /** Every month ends within its year. */
  lemma MonthsFit(y: int, m: int)
    requires 1 <= m <= 12
    ensures 0 <= DaysBeforeMonth(y, m) && DaysBeforeMonth(y, m) + DaysIn(y, m) <= YearLength(y)
  {
    assert DaysBeforeMonth(y, 4) == DaysIn(y, 2) + 62;
    assert DaysBeforeMonth(y, 8) == DaysIn(y, 2) + 184;
    assert DaysBeforeMonth(y, 12) + DaysIn(y, 12) == YearLength(y);
    if 1 < m {
      MonthsGrow(y, 1, m);
    }
    if m < 12 {
      MonthsGrow(y, m, 12);
    }
  }

  lemma {:induction false} YearsGrow(y: int, z: int)
    requires 0 <= y < z
    ensures DaysBeforeYear(y) + YearLength(y) <= DaysBeforeYear(z)
    decreases z
  {
    if y < z - 1 {
      YearsGrow(y, z - 1);
    }
  }

  lemma DaysGrow(a: Civil, b: Civil)
    requires Valid(a) && Valid(b)
    requires a.year < b.year || (a.year == b.year && (a.month < b.month || (a.month == b.month && a.day < b.day)))
    ensures Day(a) < Day(b)
  {
    if a.year < b.year {
      YearsGrow(a.year, b.year);
      MonthsFit(a.year, a.month);
      MonthsFit(b.year, b.month);
    } else if a.month < b.month {
      MonthsGrow(a.year, a.month, b.month);
    }
  }

  /** The calendar order of the printed fields is the order of seconds on the time line. */
  lemma FieldsOrder(a: Civil, b: Civil)
    requires Valid(a) && Valid(b)
    ensures a.year < b.year || (a.year == b.year && LexLess(Fields(a), Fields(b))) <==> Seconds(a) < Seconds(b)
    ensures SameSecond(a, b) <==> Seconds(a) == Seconds(b)
  {
    FieldsRise(a, b);
    FieldsRise(b, a);
    LexLessMeaning(a, b);
    LexLessMeaning(b, a);
  }

  predicate ClockBefore(a: Civil, b: Civil) {
    a.hour < b.hour || (a.hour == b.hour && (a.minute < b.minute || (a.minute == b.minute && a.second < b.second)))
  }

  predicate DateBefore(a: Civil, b: Civil) {
    a.month < b.month || (a.month == b.month && (a.day < b.day || (a.day == b.day && ClockBefore(a, b))))
  }

  lemma LexLessMeaning(a: Civil, b: Civil)
    ensures LexLess(Fields(a), Fields(b)) <==> DateBefore(a, b)
    ensures Fields(a) == Fields(b) <==>
      a.month == b.month && a.day == b.day && a.hour == b.hour && a.minute == b.minute && a.second == b.second
  {
    var f, g := Fields(a), Fields(b);
    assert f[1..] == [a.day, a.hour, a.minute, a.second] && g[1..] == [b.day, b.hour, b.minute, b.second];
    assert f[1..][1..] == [a.hour, a.minute, a.second] && g[1..][1..] == [b.hour, b.minute, b.second];
    ClockMeaning(a, b);
    if f == g {
      assert f[0] == g[0] && f[1] == g[1] && f[2] == g[2] && f[3] == g[3] && f[4] == g[4];
    }
  }

  lemma ClockMeaning(a: Civil, b: Civil)
    ensures LexLess([a.hour, a.minute, a.second], [b.hour, b.minute, b.second]) <==> ClockBefore(a, b)
  {
    var f, g := [a.hour, a.minute, a.second], [b.hour, b.minute, b.second];
    assert f[1..] == [a.minute, a.second] && g[1..] == [b.minute, b.second];
    assert f[1..][1..] == [a.second] && g[1..][1..] == [b.second];
    assert LexLess([a.second], [b.second]) <==> a.second < b.second;
  }

  lemma FieldsRise(a: Civil, b: Civil)
    requires Valid(a) && Valid(b)
    ensures a.year < b.year || (a.year == b.year && DateBefore(a, b)) ==> Seconds(a) < Seconds(b)
  {
    if a.year < b.year || (a.year == b.year && DateBefore(a, b)) {
      if (a.year, a.month, a.day) != (b.year, b.month, b.day) {
        DaysGrow(a, b);
      }
    }
  }

  // ---------------------------------------------------------------- fractions

  predicate ProperPrefix(s: string, t: string) { s < t }

  /** Zeros come before any other digits. */
  lemma {:induction false} ZerosLeast(z: string, h: string, k: nat)
    requires |z| == |h| && (forall i :: 0 <= i < |z| ==> z[i] == '0')
    requires (forall i :: 0 <= i < |h| ==> '0' <= h[i]) && k < |h| && h[k] != '0'
    ensures Less(z, h)
    decreases |z|
  {
    if h[0] == '0' {
      ZerosLeast(z[1..], h[1..], k - 1);
    }
  }

  predicate AllDigits(s: string) { forall i :: 0 <= i < |s| ==> '0' <= s[i] <= '9' }

  /** A fraction that goes on is later in time. */
  lemma LongerIsLater(s: string, t: string)
    requires |s| == |t| && AllDigits(t) && ProperPrefix(TrimZeros(s), TrimZeros(t))
    ensures Less(s, t)
  {
    var n, k := |TrimZeros(s)|, |TrimZeros(t)| - 1;
    assert t[k] == TrimZeros(t)[k] != '0';
    assert s[..n] == t[..n];
    ZerosAfter(s, t, n, k);
  }

  lemma ZerosAfter(s: string, t: string, n: nat, k: nat)
    requires n <= k < |s| == |t| && s[..n] == t[..n] && AllDigits(t) && t[k] != '0'
    requires forall i :: n <= i < |s| ==> s[i] == '0'
    ensures Less(s, t)
  {
    assert s == s[..n] + s[n..] && t == t[..n] + t[n..];
    ZerosLeast(s[n..], t[n..], k - n);
    LessConcat(s[..n], t[..n], s[n..], t[n..]);
  }

  /** Yet it is earlier in bytes: a digit, or the point, comes before the closing Z. */
  lemma LongerIsLess(f: string, g: string)
    requires ProperPrefix(f, g) && AllDigits(g)
    ensures Less(Tail(g), Tail(f)) && !Less(Tail(f), Tail(g))
  {
    var more := g[|f|..] + "Z";
    assert g + "Z" == f + more;
    assert more[0] == g[|f|];
    assert Less(more, "Z") && !Less("Z", more);
    if f == "" {
      assert Tail(g) == "." + (g + "Z");
    } else {
      assert Tail(f) == ("." + f) + "Z" && Tail(g) == ("." + f) + more;
      LessConcat("." + f, "." + f, more, "Z");
      LessConcat("." + f, "." + f, "Z", more);
      LessIrreflexive("." + f);
    }
  }

  /** Fractions that part ways at some digit keep their order. */
  lemma PartingKeepsOrder(s: string, t: string)
    requires |s| == |t| && !(TrimZeros(s) <= TrimZeros(t)) && !(TrimZeros(t) <= TrimZeros(s))
    ensures Less(Tail(TrimZeros(s)), Tail(TrimZeros(t))) <==> Less(s, t)
    ensures s != t
  {
    var f, g := TrimZeros(s), TrimZeros(t);
    assert s == f + s[|f|..] && t == g + t[|g|..];
    LessDecided(f, g, s[|f|..], t[|g|..]);
    TailsPart(f, g);
  }

  lemma TailsPart(f: string, g: string)
    requires !(f <= g) && !(g <= f)
    ensures Less(Tail(f), Tail(g)) <==> Less(f, g)
  {
    LessDecided(f, g, "Z", "Z");
    LessConcat(".", ".", f + "Z", g + "Z");
    assert Tail(f) == "." + (f + "Z") && Tail(g) == "." + (g + "Z");
  }

  lemma SameTrimmed(s: string, t: string)
    requires |s| == |t| && TrimZeros(s) == TrimZeros(t)
    ensures s == t
  {
    var f := TrimZeros(s);
    assert s == f + s[|f|..] && t == f + t[|f|..];
    assert s[|f|..] == t[|f|..];
  }

  /** The printed tail of two times within one second. */
  lemma FractionOrder(a: int, b: int)
    requires 0 <= a < SECOND && 0 <= b < SECOND
    ensures Fraction(a) == Fraction(b) <==> a == b
    ensures ProperPrefix(Fraction(a), Fraction(b)) ==> a < b
    ensures Less(Tail(Fraction(a)), Tail(Fraction(b))) <==>
      if ProperPrefix(Fraction(a), Fraction(b)) || ProperPrefix(Fraction(b), Fraction(a)) then b < a else a < b
  {
    NanoOrder(a, b);
    NanoOrder(b, a);
    TrimmedOrder(Digits(a, 9), Digits(b, 9));
  }

  lemma NanoOrder(a: int, b: int)
    requires 0 <= a < SECOND && 0 <= b < SECOND
    ensures Less(Digits(a, 9), Digits(b, 9)) <==> a < b
    ensures Digits(a, 9) == Digits(b, 9) <==> a == b
  {
    assert Pow10(3) == 1000;
    assert Pow10(6) == 1000000;
    DigitsOrder(a, b, 9);
  }

  lemma TrimmedOrder(s: string, t: string)
    requires |s| == |t| && AllDigits(s) && AllDigits(t) && (Less(s, t) ==> !Less(t, s))
    ensures TrimZeros(s) == TrimZeros(t) <==> s == t
    ensures ProperPrefix(TrimZeros(s), TrimZeros(t)) ==> Less(s, t)
    ensures Less(Tail(TrimZeros(s)), Tail(TrimZeros(t))) <==>
      if ProperPrefix(TrimZeros(s), TrimZeros(t)) || ProperPrefix(TrimZeros(t), TrimZeros(s))
      then Less(t, s) else Less(s, t)
  {
    var f, g := TrimZeros(s), TrimZeros(t);
    if f == g {
      SameTrimmed(s, t);
      LessIrreflexive(s);
      LessIrreflexive(Tail(f));
    } else if ProperPrefix(f, g) {
      LongerIsLater(s, t);
      LongerIsLess(f, g);
    } else if ProperPrefix(g, f) {
      LongerIsLater(t, s);
      LongerIsLess(g, f);
    } else {
      PartingKeepsOrder(s, t);
    }
  }

  // ---------------------------------------------------------------- the theorem

  /** The two times share a second, and one printed fraction is the beginning of the other. */
  predicate Misordered(a: Civil, b: Civil) {
    && SameSecond(a, b)
    && (ProperPrefix(Fraction(a.nanos), Fraction(b.nanos)) || ProperPrefix(Fraction(b.nanos), Fraction(a.nanos)))
  }

  /** Byte order of printed times is time order, except exactly for that family, where it is reversed. */
  lemma TextOrder(a: Civil, b: Civil)
    requires Valid(a) && Valid(b)
    ensures Less(Text(a), Text(b)) <==> if Misordered(a, b) then Instant(b) < Instant(a) else Instant(a) < Instant(b)
    ensures Text(a) == Text(b) <==> Instant(a) == Instant(b)
  {
    var f, g := Fraction(a.nanos), Fraction(b.nanos);
    SecondTextOrder(a, b);
    FieldsOrder(a, b);
    FractionOrder(a.nanos, b.nanos);
    LessConcat(SecondText(a), SecondText(b), Tail(f), Tail(g));
    SplitEqual(SecondText(a), SecondText(b), Tail(f), Tail(g));
    if f != g {
      TailInjective(f, g);
    }
    LessIrreflexive(SecondText(a));
  }

  lemma TailInjective(f: string, g: string)
    requires f != g
    ensures Tail(f) != Tail(g)
  {
    assert f != "" ==> Tail(f)[1..|Tail(f)| - 1] == f;
    assert g != "" ==> Tail(g)[1..|Tail(g)| - 1] == g;
  }

  /** A release_at <= now decision is right exactly outside the family; where it is
      wrong, it is wrong by less than a second; and with equally many fraction
      digits, as section 5.1 of RFC 3339 asks for, it is never wrong. */
  lemma DueDecision(release: Civil, now: Civil)
    requires Valid(release) && Valid(now)
    ensures (AtMost(Text(release), Text(now)) <==> Instant(release) <= Instant(now)) <==> !Misordered(release, now)
    ensures AtMost(Text(release), Text(now)) ==> Instant(release) < Instant(now) + SECOND
    ensures !AtMost(Text(release), Text(now)) ==> Instant(now) < Instant(release) + SECOND
    ensures |Fraction(release.nanos)| == |Fraction(now.nanos)| ==> !Misordered(release, now)
  {
    TextOrder(release, now);
    FieldsOrder(release, now);
    FractionOrder(release.nanos, now.nanos);
  }

  lemma {:induction false} ZeroDigits(w: nat)
    ensures forall i :: 0 <= i < w ==> Digits(0, w)[i] == '0'
  {
    if w > 0 {
      ZeroDigits(w - 1);
    }
  }

  /** The family is not empty: a whole second is misordered with all that follows within it. */
  lemma WholeSecondMisordered(c: Moment, later: int)
    requires c.nanos == 0 && 0 < later < SECOND
    ensures var l: Moment := c.(nanos := later); Misordered(l, c) && Misordered(c, l) && Instant(c) < Instant(l)
  {
    ZeroDigits(9);
    assert Fraction(0) == "";
    FractionOrder(0, later);
  }

  /** On every whole second, everything due later within that second already counts as due. */
  lemma WholeSecondReleasesEarly(c: Moment, later: int)
    requires c.nanos == 0 && 0 < later < SECOND
    ensures var release: Moment := c.(nanos := later);
      Instant(c) < Instant(release) && AtMost(Text(release), Text(c))
  {
    WholeSecondMisordered(c, later);
    DueDecision(c.(nanos := later), c);
  }
}
