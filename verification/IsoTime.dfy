/** UTC instants with microseconds, their order, and their ISO-8601 text. */
module IsoTime {
  import opened Wrappers
  import opened Decimal

  datatype Civil = Civil(year: nat, month: nat, day: nat, hour: nat, minute: nat, second: nat, micro: nat)

  predicate LeapYear(y: nat) {
    y % 4 == 0 && (y % 100 != 0 || y % 400 == 0)
  }

  function DaysIn(y: nat, m: nat): nat {
    if m == 2 then (if LeapYear(y) then 29 else 28)
    else if m in {4, 6, 9, 11} then 30
    else 31
  }

  predicate ValidCivil(c: Civil) {
    && 1 <= c.year <= 9999 && 1 <= c.month <= 12 && 1 <= c.day <= DaysIn(c.year, c.month)
    && c.hour < 24 && c.minute < 60 && c.second < 60 && c.micro < 1000000
  }

  /** An aware datetime normalised to UTC. */
  type DateTime = c: Civil | ValidCivil(c) witness Civil(1, 1, 1, 0, 0, 0, 0)

  /** Datetimes as one number, the fields from the year down being its digits. */
  function Instant(d: DateTime): int {
    Seconds(d) * 1000000 + d.micro
  }

  function Months(d: DateTime): int {
    d.year * 12 + d.month - 1
  }

  function Days(d: DateTime): int {
    Months(d) * 32 + d.day
  }

  function Hours(d: DateTime): int {
    Days(d) * 24 + d.hour
  }

  function Minutes(d: DateTime): int {
    Hours(d) * 60 + d.minute
  }

  function Seconds(d: DateTime): int {
    Minutes(d) * 60 + d.second
  }

  lemma Radix1000000(a: int, x: int, b: int, y: int)
    requires 0 <= x < 1000000 && 0 <= y < 1000000 && a * 1000000 + x == b * 1000000 + y
    ensures a == b && x == y
  {
  }

  lemma Radix60(a: int, x: int, b: int, y: int)
    requires 0 <= x < 60 && 0 <= y < 60 && a * 60 + x == b * 60 + y
    ensures a == b && x == y
  {
  }

  lemma Radix32(a: int, x: int, b: int, y: int)
    requires 0 <= x < 32 && 0 <= y < 32 && a * 32 + x == b * 32 + y
    ensures a == b && x == y
  {
  }

  lemma Radix24(a: int, x: int, b: int, y: int)
    requires 0 <= x < 24 && 0 <= y < 24 && a * 24 + x == b * 24 + y
    ensures a == b && x == y
  {
  }

  /** Only equal datetimes have equal instants. */
  lemma InstantInjective(a: DateTime, b: DateTime)
    requires Instant(a) == Instant(b)
    ensures a == b
  {
    Radix1000000(Seconds(a), a.micro, Seconds(b), b.micro);
    Radix60(Minutes(a), a.second, Minutes(b), b.second);
    Radix60(Hours(a), a.minute, Hours(b), b.minute);
    Radix24(Days(a), a.hour, Days(b), b.hour);
    Radix32(Months(a), a.day, Months(b), b.day);
  }

  /** Datetimes of one time zone compare by their fields from the year down. */
  predicate Earlier(a: DateTime, b: DateTime) {
    || a.year < b.year
    || (a.year == b.year &&
        (|| a.month < b.month
         || (a.month == b.month &&
             (|| a.day < b.day
              || (a.day == b.day &&
                  (|| a.hour < b.hour
                   || (a.hour == b.hour &&
                       (|| a.minute < b.minute
                        || (a.minute == b.minute &&
                            (a.second < b.second || (a.second == b.second && a.micro < b.micro)))))))))))
  }

  lemma DigitsOrder(radix: int, a: int, x: int, b: int, y: int)
    requires 0 <= x < radix && 0 <= y < radix
    ensures a * radix + x < b * radix + y <==> a < b || (a == b && x < y)
  {
    if a < b {
      var d := b - a - 1;
      assert b * radix == a * radix + radix + d * radix && d * radix >= 0;
    } else if b < a {
      var d := a - b - 1;
      assert a * radix == b * radix + radix + d * radix && d * radix >= 0;
    }
  }

  /** Instants compare as the datetimes do. */
  lemma InstantOrder(a: DateTime, b: DateTime)
    ensures Instant(a) < Instant(b) <==> Earlier(a, b)
  {
    DigitsOrder(1000000, Seconds(a), a.micro, Seconds(b), b.micro);
    DigitsOrder(60, Minutes(a), a.second, Minutes(b), b.second);
    DigitsOrder(60, Hours(a), a.minute, Hours(b), b.minute);
    DigitsOrder(24, Days(a), a.hour, Days(b), b.hour);
    DaysOrder(a, b);
    FieldsAgree(a, b);
  }

  lemma DaysOrder(a: DateTime, b: DateTime)
    ensures Days(a) < Days(b)
            <==> a.year < b.year
                 || (a.year == b.year && (a.month < b.month || (a.month == b.month && a.day < b.day)))
  {
    DigitsOrder(32, Months(a), a.day, Months(b), b.day);
    DigitsOrder(12, a.year, a.month - 1, b.year, b.month - 1);
  }

  /** Equal leading digits are equal leading fields. */
  lemma FieldsAgree(a: DateTime, b: DateTime)
    ensures Months(a) == Months(b) <==> a.year == b.year && a.month == b.month
    ensures Days(a) == Days(b) <==> Months(a) == Months(b) && a.day == b.day
    ensures Hours(a) == Hours(b) <==> Days(a) == Days(b) && a.hour == b.hour
    ensures Minutes(a) == Minutes(b) <==> Hours(a) == Hours(b) && a.minute == b.minute
    ensures Seconds(a) == Seconds(b) <==> Minutes(a) == Minutes(b) && a.second == b.second
  {
  }

  // ---- datetime.isoformat() and datetime.fromisoformat()

  /** `n` in exactly `width` digits. */
  function Padded(n: nat, width: nat): (s: string)
    ensures |s| == width && AllDigits(s)
  {
    if width == 0 then "" else Padded(n / 10, width - 1) + [DigitChar(n % 10)]
  }

  lemma {:induction false} PaddedInverts(n: nat, width: nat)
    requires n < Pow10(width)
    ensures NumberOf(Padded(n, width)) == n
  {
    if width > 0 {
      PaddedInverts(n / 10, width - 1);
      assert Padded(n, width)[..width - 1] == Padded(n / 10, width - 1);
    }
  }

  /** `d.isoformat()` of a UTC datetime: the fraction is left out when it is zero. */
  function IsoFormat(d: DateTime): string {
    DateText(d) + "T" + ClockText(d) + FractionText(d) + "+00:00"
  }

  function DateText(d: DateTime): string {
    Padded(d.year, 4) + "-" + Padded(d.month, 2) + "-" + Padded(d.day, 2)
  }

  function ClockText(d: DateTime): string {
    Padded(d.hour, 2) + ":" + Padded(d.minute, 2) + ":" + Padded(d.second, 2)
  }

  function FractionText(d: DateTime): string {
    if d.micro == 0 then "" else "." + Padded(d.micro, 6)
  }

  /** The digits at `s[i..j]`. */
  function Field(s: string, i: nat, j: nat): nat
    requires i <= j <= |s| && AllDigits(s[i..j])
  {
    NumberOf(s[i..j])
  }

  /** Text in the exact shape `isoformat()` gives to a UTC datetime. */
  predicate IsoUtcShape(s: string) {
    && (|s| == 25 || |s| == 32)
    && AllDigits(s[0..4]) && s[4] == '-' && AllDigits(s[5..7]) && s[7] == '-' && AllDigits(s[8..10])
    && s[10] == 'T' && AllDigits(s[11..13]) && s[13] == ':' && AllDigits(s[14..16]) && s[16] == ':'
    && AllDigits(s[17..19])
    && (|s| == 32 ==> s[19] == '.' && AllDigits(s[20..26]))
    && s[|s| - 6..] == "+00:00"
  }

  /** `datetime.fromisoformat(s)` followed by the conversion to UTC.  The function accepts many more
    * texts than `isoformat()` writes; `other` stands for whatever it makes of those.  `None` is a
    * ValueError or a datetime without time zone.
    */
  function FromIso(s: string, other: string -> Option<DateTime>): Option<DateTime> {
    if IsoUtcShape(s) then
      var c := Civil(Field(s, 0, 4), Field(s, 5, 7), Field(s, 8, 10), Field(s, 11, 13), Field(s, 14, 16),
                     Field(s, 17, 19), if |s| == 32 then Field(s, 20, 26) else 0);
      if ValidCivil(c) then Some(c) else None
    else
      other(s)
  }

  lemma PowersOfTen()
    ensures Pow10(2) == 100 && Pow10(4) == 10000 && Pow10(6) == 1000000
  {
    assert Pow10(1) == 10 && Pow10(3) == 1000 && Pow10(5) == 100000;
  }

  lemma Slices(a: string, x: string, b: string, y: string, c: string)
    requires |x| == 1 && |y| == 1
    ensures var s := a + x + b + y + c;
            && s[0..|a|] == a && s[|a|] == x[0] && s[|a| + 1..|a| + 1 + |b|] == b
            && s[|a| + |b| + 1] == y[0] && s[|a| + |b| + 2..|a| + |b| + 2 + |c|] == c
  {
  }

  lemma SubSlice(s: string, a: nat, b: nat, i: nat, j: nat)
    requires a <= b <= |s| && i <= j <= b - a
    ensures s[a..b][i..j] == s[a + i..a + j]
  {
    var t := s[a..b];
    assert forall k :: i <= k < j ==> t[k] == s[a + k];
  }

  lemma IsoParts(d: DateTime)
    ensures |DateText(d)| == 10 && |ClockText(d)| == 8 && |FractionText(d)| == if d.micro == 0 then 0 else 7
    ensures IsoFormat(d)[0..10] == DateText(d) && IsoFormat(d)[10] == 'T' && IsoFormat(d)[11..19] == ClockText(d)
    ensures IsoFormat(d)[19..|IsoFormat(d)| - 6] == FractionText(d)
    ensures IsoFormat(d)[|IsoFormat(d)| - 6..] == "+00:00"
  {
    Slices(DateText(d), "T", ClockText(d), "+", "");
  }

  /** The fields of the date, in a text that starts with it. */
  lemma DateSlices(s: string, date: string, d: DateTime)
    requires |s| >= 10 && s[0..10] == date == DateText(d)
    ensures s[0..4] == Padded(d.year, 4) && s[5..7] == Padded(d.month, 2) && s[8..10] == Padded(d.day, 2)
    ensures s[4] == '-' && s[7] == '-'
  {
    Slices(Padded(d.year, 4), "-", Padded(d.month, 2), "-", Padded(d.day, 2));
    SubSlice(s, 0, 10, 0, 4);
    SubSlice(s, 0, 10, 5, 7);
    SubSlice(s, 0, 10, 8, 10);
    assert s[4] == s[0..10][4] && s[7] == s[0..10][7];
  }

  /** The fields of the clock, in a text with the clock after the date. */
  lemma ClockSlices(s: string, clock: string, d: DateTime)
    requires |s| >= 19 && s[11..19] == clock == ClockText(d)
    ensures s[11..13] == Padded(d.hour, 2) && s[14..16] == Padded(d.minute, 2) && s[17..19] == Padded(d.second, 2)
    ensures s[13] == ':' && s[16] == ':'
  {
    Slices(Padded(d.hour, 2), ":", Padded(d.minute, 2), ":", Padded(d.second, 2));
    SubSlice(s, 11, 19, 0, 2);
    SubSlice(s, 11, 19, 3, 5);
    SubSlice(s, 11, 19, 6, 8);
    assert s[13] == s[11..19][2] && s[16] == s[11..19][5];
  }

  lemma IsoShapeOf(d: DateTime)
    ensures IsoUtcShape(IsoFormat(d))
    ensures |IsoFormat(d)| == if d.micro == 0 then 25 else 32
    ensures IsoFormat(d)[0..4] == Padded(d.year, 4) && IsoFormat(d)[5..7] == Padded(d.month, 2)
    ensures IsoFormat(d)[8..10] == Padded(d.day, 2) && IsoFormat(d)[11..13] == Padded(d.hour, 2)
    ensures IsoFormat(d)[14..16] == Padded(d.minute, 2) && IsoFormat(d)[17..19] == Padded(d.second, 2)
    ensures d.micro != 0 ==> IsoFormat(d)[20..26] == Padded(d.micro, 6)
  {
    var s := IsoFormat(d);
    IsoParts(d);
    DateSlices(s, DateText(d), d);
    ClockSlices(s, ClockText(d), d);
    if d.micro != 0 {
      FractionSlices(s, FractionText(d), d);
    }
  }

  lemma FractionSlices(s: string, fraction: string, d: DateTime)
    requires |s| == 32 && s[19..26] == fraction == "." + Padded(d.micro, 6)
    ensures s[19] == '.' && s[20..26] == Padded(d.micro, 6)
  {
    SubSlice(s, 19, 26, 1, 7);
    assert s[19] == s[19..26][0];
    assert fraction[1..7] == Padded(d.micro, 6);
  }

  /** Reading back what `isoformat()` wrote gives the same instant. */
  lemma FromIsoInvertsIsoFormat(d: DateTime, other: string -> Option<DateTime>)
    ensures FromIso(IsoFormat(d), other) == Some(d)
  {
    IsoShapeOf(d);
    PowersOfTen();
    PaddedInverts(d.year, 4);
    PaddedInverts(d.month, 2);
    PaddedInverts(d.day, 2);
    PaddedInverts(d.hour, 2);
    PaddedInverts(d.minute, 2);
    PaddedInverts(d.second, 2);
    PaddedInverts(d.micro, 6);
  }
}
