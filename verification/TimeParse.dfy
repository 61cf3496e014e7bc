/** Reading back what the store printed (parseNullTime and formatNullTime in
    internal/server/store.go), and the calendar behind it. */
module TimeParse {
  import opened Common
  import opened TimeText

  // ---------------------------------------------------------------- numbers

  predicate IsNumber(s: string) { AllDigits(s) }

  function NumberOf(s: string): int
    requires IsNumber(s)
  {
    if s == "" then 0 else 10 * NumberOf(s[..|s| - 1]) + (s[|s| - 1] as int - '0' as int)
  }

  lemma {:induction false} NumberOfDigits(n: int, w: nat)
    requires 0 <= n < Pow10(w)
    ensures NumberOf(Digits(n, w)) == n
    decreases w
  {
    if w > 0 {
      NumberOfDigits(n / 10, w - 1);
      assert Digits(n, w)[..w - 1] == Digits(n / 10, w - 1);
    }
  }

  lemma Regroup(x: int, p: int)
    ensures 10 * (x * p) == x * (10 * p)
  {}

  /** Zeros at the end scale a number. */
  lemma {:induction false} NumberOfPadded(s: string, r: string)
    requires IsNumber(s) && r <= s && forall i :: |r| <= i < |s| ==> s[i] == '0'
    ensures IsNumber(r) && NumberOf(s) == NumberOf(r) * Pow10(|s| - |r|)
    decreases |s|
  {
    if |r| < |s| {
      var shorter := s[..|s| - 1];
      NumberOfPadded(shorter, r);
      Regroup(NumberOf(r), Pow10(|shorter| - |r|));
    } else {
      assert r == s;
      assert Pow10(0) == 1;
    }
  }

  // ---------------------------------------------------------------- parsing

  /** A two-digit field after its separator. */
  function ParseField(s: string, at: nat, mark: char): Option<int> {
    if at + 3 <= |s| && s[at] == mark && IsNumber(s[at + 1..at + 3]) then Some(NumberOf(s[at + 1..at + 3])) else None
  }

  /** The fraction and the closing Z: nanoseconds. */
  function ParseTail(s: string): Option<int> {
    if s == "Z" then Some(0)
    else if 3 <= |s| <= 11 && s[0] == '.' && s[|s| - 1] == 'Z' && IsNumber(s[1..|s| - 1])
    then Some(NumberOf(s[1..|s| - 1]) * Pow10(9 - (|s| - 2)))
    else None
  }

  /** A UTC time in the printed layout; anything else is none. */
  function Parse(s: string): Option<Civil> {
    if |s| < 20 || !IsNumber(s[..4]) then None
    else
      var month, day := ParseField(s, 4, '-'), ParseField(s, 7, '-');
      var hour, minute, second := ParseField(s, 10, 'T'), ParseField(s, 13, ':'), ParseField(s, 16, ':');
      var nanos := ParseTail(s[19..]);
      if month.Some? && day.Some? && hour.Some? && minute.Some? && second.Some? && nanos.Some?
      then
        var c := Civil(NumberOf(s[..4]), month.value, day.value, hour.value, minute.value, second.value, nanos.value);
        if Valid(c) then Some(c) else None
      else None
  }

  lemma TailParses(f: string)
    requires AllDigits(f) && |f| <= 9
    ensures ParseTail(Tail(f)) == Some(NumberOf(f) * Pow10(9 - |f|))
  {
    if f != "" {
      assert Tail(f)[1..|Tail(f)| - 1] == f;
    }
  }

  lemma TailReadsBack(nanos: int)
    requires 0 <= nanos < SECOND
    ensures ParseTail(Tail(Fraction(nanos))) == Some(nanos)
  {
    var all, f := Digits(nanos, 9), Fraction(nanos);
    assert Pow10(3) == 1000;
    assert Pow10(6) == 1000000;
    NumberOfDigits(nanos, 9);
    NumberOfPadded(all, f);
    TailParses(f);
  }

  lemma RestHead(fields: seq<int>, marks: string)
    requires |fields| == |marks| > 0
    ensures var s := Rest(fields, marks);
      && |s| >= 3 && s[0] == marks[0] && s[1..3] == Digits(fields[0], 2) && s[3..] == Rest(fields[1..], marks[1..])
  {}

  /** Every field takes three characters. */
  lemma {:induction false} RestFrom(fields: seq<int>, marks: string, i: nat)
    requires |fields| == |marks| && i <= |fields|
    ensures |Rest(fields, marks)| == 3 * |fields|
    ensures Rest(fields, marks)[3 * i..] == Rest(fields[i..], marks[i..])
    decreases |fields|
  {
    var s := Rest(fields, marks);
    if fields != [] {
      RestHead(fields, marks);
      RestFrom(fields[1..], marks[1..], if i == 0 then 0 else i - 1);
    }
    if i == 0 {
      assert s[0..] == s && fields[0..] == fields && marks[0..] == marks;
    } else {
      assert s[3..][3 * (i - 1)..] == s[3 * i..];
      assert fields[1..][i - 1..] == fields[i..] && marks[1..][i - 1..] == marks[i..];
    }
  }

  lemma PieceOf(year: string, rest: string, tail: string, k: nat)
    requires |year| == 4 && k + 3 <= |rest|
    ensures (year + rest + tail)[4 + k] == rest[k..][0]
    ensures (year + rest + tail)[4 + k + 1..4 + k + 3] == rest[k..][1..3]
  {}

  /** Where the printed fields are. */
  lemma FieldAt(c: Civil, i: nat)
    requires i < 5
    ensures |SecondText(c)| == 19 && |Text(c)| >= 20
    ensures Text(c)[4 + 3 * i] == "--T::"[i]
    ensures Text(c)[4 + 3 * i + 1..4 + 3 * i + 3] == Digits(Fields(c)[i], 2)
  {
    var marks := "--T::";
    RestFrom(Fields(c), marks, i);
    RestHead(Fields(c)[i..], marks[i..]);
    PieceOf(Digits(c.year, 4), Rest(Fields(c), marks), Tail(Fraction(c.nanos)), 3 * i);
  }

  lemma Ends(c: Civil)
    requires |SecondText(c)| == 19
    ensures Text(c)[..4] == Digits(c.year, 4) && Text(c)[19..] == Tail(Fraction(c.nanos))
  {}

  lemma FieldParses(s: string, at: nat, mark: char, n: int)
    requires at + 3 <= |s| && s[at] == mark && s[at + 1..at + 3] == Digits(n, 2) && 0 <= n < 100
    ensures ParseField(s, at, mark) == Some(n)
  {
    assert Pow10(2) == 100;
    NumberOfDigits(n, 2);
  }

  lemma FieldReadsBack(c: Civil, i: nat)
    requires Valid(c) && i < 5
    ensures ParseField(Text(c), 4 + 3 * i, "--T::"[i]) == Some(Fields(c)[i])
  {
    FieldAt(c, i);
    FieldParses(Text(c), 4 + 3 * i, "--T::"[i], Fields(c)[i]);
  }

  lemma AllParse(s: string, c: Civil)
    requires |s| >= 20 && IsNumber(s[..4]) && NumberOf(s[..4]) == c.year && Valid(c)
    requires ParseField(s, 4, '-') == Some(c.month) && ParseField(s, 7, '-') == Some(c.day)
    requires ParseField(s, 10, 'T') == Some(c.hour) && ParseField(s, 13, ':') == Some(c.minute)
    requires ParseField(s, 16, ':') == Some(c.second) && ParseTail(s[19..]) == Some(c.nanos)
    ensures Parse(s) == Some(c)
  {}

  lemma YearReadsBack(c: Civil)
    requires Valid(c)
    ensures |Text(c)| >= 20 && IsNumber(Text(c)[..4]) && NumberOf(Text(c)[..4]) == c.year
  {
    FieldAt(c, 0);
    Ends(c);
    assert Pow10(4) == 10000 by { assert Pow10(2) == 100; }
    NumberOfDigits(c.year, 4);
  }

  lemma NanosReadBack(c: Civil)
    requires Valid(c)
    ensures |Text(c)| >= 20 && ParseTail(Text(c)[19..]) == Some(c.nanos)
  {
    FieldAt(c, 0);
    Ends(c);
    TailReadsBack(c.nanos);
  }

  /** Every time that is printed is read back as it was, to the nanosecond. */
  lemma ReadsBack(c: Civil)
    requires Valid(c)
    ensures Parse(Text(c)) == Some(c)
  {
    YearReadsBack(c);
    NanosReadBack(c);
    FieldReadsBack(c, 0);
    FieldReadsBack(c, 1);
    FieldReadsBack(c, 2);
    FieldReadsBack(c, 3);
    FieldReadsBack(c, 4);
    AllParse(Text(c), c);
  }

  // ---------------------------------------------------------------- the calendar

  /** Multiples of k below y, counting zero. */
  function Multiples(y: int, k: int): int
    requires k > 0
  {
    (y + k - 1) / k
  }

  lemma OneMoreYear(y: int, k: int)
    requires y >= 0 && k > 0
    ensures Multiples(y + 1, k) == Multiples(y, k) + (if y % k == 0 then 1 else 0)
  {
    var q, r := y / k, y % k;
    assert y == q * k + r;
    if r == 0 {
      Quotient(y + k - 1, k, q, k - 1);
      Quotient(y + k, k, q + 1, 0);
    } else {
      Quotient(y + k - 1, k, q + 1, r - 1);
      Quotient(y + k, k, q + 1, r);
    }
  }

  lemma Quotient(n: int, k: int, q: int, r: int)
    requires k > 0 && 0 <= r < k && n == q * k + r
    ensures n / k == q
  {
    var d := n / k;
    assert n == d * k + n % k;
    assert (d - q) * k == r - n % k;
    assert d - q >= 1 ==> (d - q) * k >= k;
    assert d - q <= -1 ==> (d - q) * k <= -k;
  }

  predicate Divides(k: int, y: int)
    requires k > 0
  {
    y % k == 0
  }

  /** A leap day every fourth year, but for the hundreds, and yet for the four hundreds. */
  lemma LeapDays(y: int)
    requires y >= 0
    ensures YearLength(y) == 365
      + (if Divides(4, y) then 1 else 0) - (if Divides(100, y) then 1 else 0) + (if Divides(400, y) then 1 else 0)
  {
    assert Divides(400, y) ==> Divides(100, y);
    assert Divides(100, y) ==> Divides(4, y);
  }

  lemma OneMoreMultiple(y: int, k: int)
    requires y >= 0 && k > 0
    ensures Multiples(y + 1, k) == Multiples(y, k) + (if Divides(k, y) then 1 else 0)
  {
    OneMoreYear(y, k);
  }

  /** The days of the Gregorian calendar before a year. */
  lemma {:induction false} DaysClosedForm(y: int)
    requires y >= 0
    ensures DaysBeforeYear(y) == 365 * y + Multiples(y, 4) - Multiples(y, 100) + Multiples(y, 400)
    decreases y
  {
    if y > 0 {
      DaysClosedForm(y - 1);
      LeapDays(y - 1);
      OneMoreMultiple(y - 1, 4);
      OneMoreMultiple(y - 1, 100);
      OneMoreMultiple(y - 1, 400);
    }
  }

  lemma MonthDays(y: int)
    ensures DaysBeforeMonth(y, 1) == 0
    ensures DaysBeforeMonth(y, 9) == 214 + DaysIn(y, 2) + 1
  {
    assert DaysBeforeMonth(y, 3) == 31 + DaysIn(y, 2);
    assert DaysBeforeMonth(y, 6) == DaysBeforeMonth(y, 3) + 92;
    assert DaysBeforeMonth(y, 9) == DaysBeforeMonth(y, 6) + 92;
  }

  /** A billion seconds after the start of 1970. */
  lemma BillionSeconds()
    ensures Seconds(Civil(2001, 9, 9, 1, 46, 40, 0)) - Seconds(Civil(1970, 1, 1, 0, 0, 0, 0)) == 1_000_000_000
  {
    DaysClosedForm(2001);
    DaysClosedForm(1970);
    MonthDays(2001);
    MonthDays(1970);
  }
}
