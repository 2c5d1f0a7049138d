/**
 UTC datetimes and their stored text.

 A datetime is printed in ISO 8601 form with the zone written `+00:00`, and the zone is then
 spelled `Z` (RFC 3339 section 5.6); reading reverses the substitution and parses.  Reading
 also accepts the other zone spelling and any fraction of one or more digits, of which the
 first six count, so several texts denote one instant.
 */
module Timestamps {
  import opened Prelude

  datatype Civil = Civil(year: int, month: int, day: int, hour: int, minute: int, second: int, micro: int)

  predicate LeapYear(year: int) {
    year % 4 == 0 && (year % 100 != 0 || year % 400 == 0)
  }

  function DaysInMonth(year: int, month: int): int {
    if month == 2 then (if LeapYear(year) then 29 else 28)
    else if month in {4, 6, 9, 11} then 30
    else 31
  }

  predicate ValidCivil(c: Civil) {
    && 1 <= c.year <= 9999
    && 1 <= c.month <= 12
    && 1 <= c.day <= DaysInMonth(c.year, c.month)
    && 0 <= c.hour < 24
    && 0 <= c.minute < 60
    && 0 <= c.second < 60
    && 0 <= c.micro < 1_000_000
  }

  type DateTime = c: Civil | ValidCivil(c) witness Civil(1, 1, 1, 0, 0, 0, 0)

  /** An order-preserving rank: datetimes of one zone compare field by field. */
  function Rank(t: DateTime): int {
    ((((((t.year * 12 + t.month) * 32 + t.day) * 24 + t.hour) * 60 + t.minute) * 60) + t.second) * 1_000_000 + t.micro
  }

  predicate Before(a: DateTime, b: DateTime) {
    Rank(a) < Rank(b)
  }

  ghost predicate FieldwiseBefore(a: DateTime, b: DateTime) {
    || a.year < b.year
    || (a.year == b.year && (a.month < b.month
    || (a.month == b.month && (a.day < b.day
    || (a.day == b.day && (a.hour < b.hour
    || (a.hour == b.hour && (a.minute < b.minute
    || (a.minute == b.minute && (a.second < b.second
    || (a.second == b.second && a.micro < b.micro)))))))))))
  }

  /** The rank orders datetimes exactly as comparing year, month, ... microsecond in turn does. */
  lemma RankIsFieldwise(a: DateTime, b: DateTime)
    ensures Before(a, b) <==> FieldwiseBefore(a, b)
    ensures a == b <==> Rank(a) == Rank(b)
  {
  }

  // ---------------------------------------------------------------- printing

  predicate DigitChar(c: char) {
    '0' <= c <= '9'
  }

  function Digit(n: int): char
    requires 0 <= n < 10
  {
    '0' + (n as char)
  }

  /** Decimal text of exactly `width` digits. */
  function Padded(n: int, width: nat): (s: string)
    requires n >= 0
    ensures |s| == width && forall i | 0 <= i < width :: DigitChar(s[i])
  {
    if width == 0 then "" else Padded(n / 10, width - 1) + [Digit(n % 10)]
  }

  function Clock(t: DateTime): string {
    Padded(t.year, 4) + "-" + Padded(t.month, 2) + "-" + Padded(t.day, 2) + "T" +
    Padded(t.hour, 2) + ":" + Padded(t.minute, 2) + ":" + Padded(t.second, 2)
  }

  function Fraction(t: DateTime): string {
    if t.micro == 0 then "" else "." + Padded(t.micro, 6)
  }

  function IsoFormat(t: DateTime): string {
    Clock(t) + Fraction(t) + "+00:00"
  }

  /** `str.replace`: every non-overlapping occurrence, from the left. */
  function Replace(s: string, pattern: string, with: string): string
    requires pattern != ""
  {
    if s == "" then ""
    else if pattern <= s then with + Replace(s[|pattern|..], pattern, with)
    else [s[0]] + Replace(s[1..], pattern, with)
  }

  function DatetimeText(t: DateTime): string {
    Replace(IsoFormat(t), "+00:00", "Z")
  }

  // ---------------------------------------------------------------- reading

  function Number(s: string): (n: int)
    requires AllDigits(s)
    ensures n >= 0
  {
    if s == "" then 0
    else
      assert DigitChar(s[|s| - 1]);
      10 * Number(s[..|s| - 1]) + (s[|s| - 1] as int - '0' as int)
  }

  predicate AllDigits(s: string) {
    forall i | 0 <= i < |s| :: DigitChar(s[i])
  }

  predicate ClockShape(s: string)
    requires |s| == 19
  {
    && AllDigits(s[..4]) && s[4] == '-' && AllDigits(s[5..7]) && s[7] == '-' && AllDigits(s[8..10]) && s[10] == 'T'
    && AllDigits(s[11..13]) && s[13] == ':' && AllDigits(s[14..16]) && s[16] == ':' && AllDigits(s[17..19])
  }

  function Microseconds(fraction: string): Option<int> {
    if fraction == "" then Some(0)
    else if fraction[0] != '.' || |fraction| == 1 || !AllDigits(fraction[1..]) then None
    else
      var padded := fraction[1..] + "00000";
      Some(Number(padded[..6]))
  }

  function FromIso(s: string): Option<DateTime> {
    if |s| < 25 || s[|s| - 6..] != "+00:00" || !ClockShape(s[..19]) then None
    else match Microseconds(s[19..|s| - 6]) {
      case None => None
      case Some(micro) =>
        var k := s[..19];
        var c := Civil(Number(k[..4]), Number(k[5..7]), Number(k[8..10]),
                       Number(k[11..13]), Number(k[14..16]), Number(k[17..19]), micro);
        if ValidCivil(c) then Some(c) else None
    }
  }

  /** `_datetime`, for any parser of ISO texts; `fromisoformat` reads more forms than `FromIso`. */
  function ReadTime(iso: string -> Option<DateTime>, s: string): Option<DateTime> {
    iso(Replace(s, "Z", "+00:00"))
  }

  /** The parser recovers what `isoformat` printed, whatever else it reads. */
  ghost predicate Inverts(iso: string -> Option<DateTime>) {
    forall t: DateTime :: iso(IsoFormat(t)) == Some(t)
  }

  function Datetime(s: string): Option<DateTime> {
    ReadTime(FromIso, s)
  }

  // ---------------------------------------------------------------- round trip

  function Pow10(k: nat): int {
    if k == 0 then 1 else 10 * Pow10(k - 1)
  }

  lemma {:induction false} PaddedReadBack(n: int, width: nat)
    requires 0 <= n < Pow10(width)
    ensures Number(Padded(n, width)) == n
  {
    if width > 0 {
      PaddedReadBack(n / 10, width - 1);
      var s := Padded(n, width);
      assert s[..|s| - 1] == Padded(n / 10, width - 1);
    }
  }

  /** Replacing a pattern that can only start at the end of a text. */
  lemma {:induction false} ReplaceSuffix(body: string, pattern: string, with: string)
    requires pattern != "" && forall i | 0 <= i < |body| :: body[i] != pattern[0]
    ensures Replace(body + pattern, pattern, with) == body + with
    decreases |body|
  {
    var s := body + pattern;
    if body == "" {
      assert s == pattern && s[|pattern|..] == "";
      assert Replace("", pattern, with) == "";
    } else {
      assert s[0] == body[0];
      assert s[1..] == body[1..] + pattern;
      ReplaceSuffix(body[1..], pattern, with);
      assert body + with == [body[0]] + (body[1..] + with);
    }
  }

  lemma BodyChars(t: DateTime)
    ensures forall i | 0 <= i < |Clock(t) + Fraction(t)| ::
              var c := (Clock(t) + Fraction(t))[i]; DigitChar(c) || c in "-T:."
  {
  }

  lemma TextForm(t: DateTime)
    ensures DatetimeText(t) == Clock(t) + Fraction(t) + "Z"
    ensures Replace(DatetimeText(t), "Z", "+00:00") == IsoFormat(t)
  {
    BodyChars(t);
    ReplaceSuffix(Clock(t) + Fraction(t), "+00:00", "Z");
    ReplaceSuffix(Clock(t) + Fraction(t), "Z", "+00:00");
  }

  /** The stored text of a time: RFC 3339 with `Z`, and six digits of fraction exactly when there are microseconds. */
  lemma StoredForm(t: DateTime)
    ensures var seconds := Padded(t.year, 4) + "-" + Padded(t.month, 2) + "-" + Padded(t.day, 2) + "T" +
                           Padded(t.hour, 2) + ":" + Padded(t.minute, 2) + ":" + Padded(t.second, 2);
            && (t.micro == 0 ==> DatetimeText(t) == seconds + "Z")
            && (t.micro != 0 ==> DatetimeText(t) == seconds + "." + Padded(t.micro, 6) + "Z")
    ensures Number(Padded(t.year, 4)) == t.year && Number(Padded(t.month, 2)) == t.month
    ensures Number(Padded(t.day, 2)) == t.day && Number(Padded(t.hour, 2)) == t.hour
    ensures Number(Padded(t.minute, 2)) == t.minute && Number(Padded(t.second, 2)) == t.second
    ensures Number(Padded(t.micro, 6)) == t.micro
  {
    hide DatetimeText, IsoFormat, Padded, Number, Replace, Pow10;
    Tens();
    PaddedReadBack(t.micro, 6);
    TextForm(t);
    ClockReadBack(t);
  }

  lemma ClockParts(t: DateTime)
    ensures |Clock(t)| == 19 && ClockShape(Clock(t))
    ensures Clock(t)[..4] == Padded(t.year, 4) && Clock(t)[5..7] == Padded(t.month, 2)
    ensures Clock(t)[8..10] == Padded(t.day, 2) && Clock(t)[11..13] == Padded(t.hour, 2)
    ensures Clock(t)[14..16] == Padded(t.minute, 2) && Clock(t)[17..19] == Padded(t.second, 2)
  {
    hide Padded;
    Slices(Padded(t.year, 4), Padded(t.month, 2), Padded(t.day, 2), Padded(t.hour, 2), Padded(t.minute, 2),
           Padded(t.second, 2));
  }

  lemma Slices(year: string, month: string, day: string, hour: string, minute: string, second: string)
    requires |year| == 4 && |month| == |day| == |hour| == |minute| == |second| == 2
    ensures var s := year + "-" + month + "-" + day + "T" + hour + ":" + minute + ":" + second;
            && |s| == 19 && s[..4] == year && s[5..7] == month && s[8..10] == day
            && s[11..13] == hour && s[14..16] == minute && s[17..19] == second
            && s[4] == '-' && s[7] == '-' && s[10] == 'T' && s[13] == ':' && s[16] == ':'
  {
    var s := year + "-" + month + "-" + day + "T" + hour + ":" + minute + ":" + second;
    assert s[..4] == year && s[5..7] == month && s[8..10] == day;
    assert s[11..13] == hour && s[14..16] == minute && s[17..19] == second;
  }

  lemma Tens()
    ensures Pow10(2) == 100 && Pow10(4) == 10_000 && Pow10(6) == 1_000_000
  {
    assert Pow10(1) == 10;
    assert Pow10(3) == 1_000;
    assert Pow10(5) == 100_000;
  }

  lemma FractionReadBack(t: DateTime)
    ensures Microseconds(Fraction(t)) == Some(t.micro)
  {
    if t.micro != 0 {
      var f := Fraction(t);
      assert f[1..] == Padded(t.micro, 6);
      assert (f[1..] + "00000")[..6] == Padded(t.micro, 6);
      Tens();
      PaddedReadBack(t.micro, 6);
    }
  }

  lemma ClockReadBack(t: DateTime)
    ensures Number(Padded(t.year, 4)) == t.year && Number(Padded(t.month, 2)) == t.month
    ensures Number(Padded(t.day, 2)) == t.day && Number(Padded(t.hour, 2)) == t.hour
    ensures Number(Padded(t.minute, 2)) == t.minute && Number(Padded(t.second, 2)) == t.second
  {
    Tens();
    PaddedReadBack(t.year, 4);
    PaddedReadBack(t.month, 2);
    PaddedReadBack(t.day, 2);
    PaddedReadBack(t.hour, 2);
    PaddedReadBack(t.minute, 2);
    PaddedReadBack(t.second, 2);
  }

  lemma IsoReadBack(t: DateTime)
    ensures FromIso(IsoFormat(t)) == Some(t)
  {
    var s := IsoFormat(t);
    ClockParts(t);
    assert s[..19] == Clock(t);
    assert s[19..|s| - 6] == Fraction(t);
    assert s[|s| - 6..] == "+00:00";
    FractionReadBack(t);
    ClockReadBack(t);
  }

  lemma FromIsoInverts()
    ensures Inverts(FromIso)
  {
    forall t: DateTime ensures FromIso(IsoFormat(t)) == Some(t) {
      IsoReadBack(t);
    }
  }

  /** Any such parser reads the printed text, and its `+00:00` spelling, as the datetime they were printed from. */
  lemma PrintedReadBack(iso: string -> Option<DateTime>, t: DateTime)
    requires Inverts(iso)
    ensures ReadTime(iso, DatetimeText(t)) == Some(t) && ReadTime(iso, IsoFormat(t)) == Some(t)
  {
    TextForm(t);
    BodyChars(t);
    NoOccurrence(IsoFormat(t));
  }

  /** Reading the printed text of any UTC datetime gives that datetime back, microseconds or not. */
  lemma TextRoundTrip(t: DateTime)
    ensures Datetime(DatetimeText(t)) == Some(t)
  {
    FromIsoInverts();
    hide DatetimeText, IsoFormat, FromIso;
    PrintedReadBack(FromIso, t);
  }

  /** Stored texts of two datetimes agree exactly when the datetimes do. */
  lemma TextInjective(a: DateTime, b: DateTime)
    ensures DatetimeText(a) == DatetimeText(b) <==> a == b
  {
    TextRoundTrip(a);
    TextRoundTrip(b);
  }

  /** The other spelling of the zone is a different text. */
  lemma OtherSpelling(t: DateTime)
    ensures IsoFormat(t) != DatetimeText(t)
  {
    TextForm(t);
    BodyChars(t);
    assert DatetimeText(t)[|DatetimeText(t)| - 1] == 'Z';
    assert IsoFormat(t)[|IsoFormat(t)| - 1] == '0';
  }

  lemma {:induction false} NoOccurrence(s: string)
    requires forall i | 0 <= i < |s| :: s[i] != 'Z'
    ensures Replace(s, "Z", "+00:00") == s
    decreases |s|
  {
    if s != "" {
      NoOccurrence(s[1..]);
      assert s == [s[0]] + s[1..];
    }
  }
}
