/**
 * `calculateRemainingTime`: how long a record still has before its 24-hour
 * window closes, split into hours, minutes and seconds and formatted `HH:MM:SS`.
 */
module Countdown {

  import opened Decimal
  import Ledger

  const MS_PER_SECOND: int := 1000
  const MS_PER_MINUTE: int := 60 * MS_PER_SECOND
  const MS_PER_HOUR: int := 60 * MS_PER_MINUTE

  datatype RemainingTime = RemainingTime(
    total: int,
    hours: int,
    minutes: int,
    seconds: int,
    formatted: string)

  /** The milliseconds the three fields account for. */
  function FieldsMs(r: RemainingTime): int {
    r.hours * MS_PER_HOUR + r.minutes * MS_PER_MINUTE + r.seconds * MS_PER_SECOND
  }

  /** The two-digit number at `s[i..i + 2]`, or -1 if those are not two digits. */
  function TwoDigitField(s: string, i: nat): int
    requires i + 2 <= |s|
  {
    if IsDigit(s[i]) && IsDigit(s[i + 1]) then DigitValue(s[i]) * 10 + DigitValue(s[i + 1]) else -1
  }

  /** Floor division of a millisecond count into whole hours, minutes and seconds; loses less than one second. */
  function Split(ms: int): (hms: (int, int, int))
    requires 0 <= ms
    ensures 0 <= hms.0 && 0 <= hms.1 < 60 && 0 <= hms.2 < 60
    ensures ms <= Ledger.DAY_MS ==> hms.0 <= 24
    ensures hms.0 * MS_PER_HOUR + hms.1 * MS_PER_MINUTE + hms.2 * MS_PER_SECOND <= ms
    ensures ms < hms.0 * MS_PER_HOUR + hms.1 * MS_PER_MINUTE + hms.2 * MS_PER_SECOND + MS_PER_SECOND
  {
    var h := ms / MS_PER_HOUR;
    var rh := ms % MS_PER_HOUR;
    var m := rh / MS_PER_MINUTE;
    var rm := rh % MS_PER_MINUTE;
    assert ms == h * 3_600_000 + rh;
    assert rh == m * 60_000 + rm;
    assert ms == (h * 60 + m) * 60_000 + rm;
    assert ms % 60_000 == rm;
    var sec := (ms % MS_PER_MINUTE) / MS_PER_SECOND;
    assert rm == sec * 1000 + rm % 1000;
    (h, m, sec)
  }

  /** A padded field found anywhere in a string reads back as its number. */
  lemma {:induction false} FieldAt(f: string, i: nat, n: nat)
    requires n < 100 && i + 2 <= |f| && f[i..i + 2] == TwoDigits(n)
    ensures TwoDigitField(f, i) == n
  {
    TwoDigitsValue(n);
    assert f[i] == f[i..i + 2][0] && f[i + 1] == f[i..i + 2][1];
  }

  /** Where the three fields and the two colons sit in `h:mm:ss`, the hours field `|a|` wide. */
  lemma {:induction false} Layout(a: string, b: string, c: string)
    requires |a| >= 2 && |b| == 2 && |c| == 2
    ensures var f, w := a + ":" + b + ":" + c, |a|;
      && |f| == w + 6 && f[w] == ':' && f[w + 3] == ':'
      && f[..w] == a && f[w + 1..w + 3] == b && f[w + 4..w + 6] == c
  {
  }

  /**
   * The template `${hh}:${mm}:${ss}`, each field padded to two digits. The hours
   * field takes everything before the last six characters: at least two digits,
   * reading back as `hours`, exactly two below 100, and zero-padded only below 10.
   */
  function Format(hours: nat, minutes: nat, seconds: nat): (f: string)
    requires minutes < 100 && seconds < 100
    ensures |f| >= 8
    ensures var w := |f| - 6;
      && AllDigits(f[..w]) && DigitsValue(f[..w]) == hours
      && (w == 2 <==> hours < 100) && (hours >= 10 ==> f[0] != '0')
      && f[w] == ':' && f[w + 3] == ':'
      && TwoDigitField(f, w + 1) == minutes
      && TwoDigitField(f, w + 4) == seconds
    ensures hours < 100 ==> TwoDigitField(f, 0) == hours
  {
    var hh, mm, ss := TwoDigits(hours), TwoDigits(minutes), TwoDigits(seconds);
    var f := hh + ":" + mm + ":" + ss;
    PaddedValue(hours);
    TwoDigitsLength(minutes);
    TwoDigitsLength(seconds);
    Layout(hh, mm, ss);
    FieldAt(f, |hh| + 1, minutes);
    FieldAt(f, |hh| + 4, seconds);
    if hours < 100 then
      assert f[0..2] == f[..|hh|];
      FieldAt(f, 0, hours);
      f
    else f
  }

  /**
   * The remaining time of a record created at `createdAt`, seen at `now`: never
   * negative, zero exactly once the record has expired, with minutes and seconds
   * below 60, the fields covering the total to within the dropped milliseconds,
   * and `formatted` the three fields, separated by colons and each padded to at
   * least two digits. Hours stay at or below 24 only while the clock is not behind
   * `createdAt`; the hours field is wider than two digits only from 100 hours on.
   */
  function CalculateRemainingTime(createdAt: int, now: int): (r: RemainingTime)
    ensures r.total == if createdAt + Ledger.DAY_MS - now > 0 then createdAt + Ledger.DAY_MS - now else 0
    ensures r.total == 0 <==> Ledger.IsExpired(createdAt, now)
    ensures 0 <= r.hours && 0 <= r.minutes < 60 && 0 <= r.seconds < 60
    ensures now >= createdAt ==> r.hours <= 24
    ensures FieldsMs(r) <= r.total < FieldsMs(r) + MS_PER_SECOND
    ensures |r.formatted| >= 8
    ensures var f := r.formatted; var w := |f| - 6;
      && AllDigits(f[..w]) && DigitsValue(f[..w]) == r.hours
      && (w == 2 <==> r.hours < 100) && (r.hours >= 10 ==> f[0] != '0')
      && f[w] == ':' && f[w + 3] == ':'
      && TwoDigitField(f, w + 1) == r.minutes
      && TwoDigitField(f, w + 4) == r.seconds
    ensures now >= createdAt ==> |r.formatted| == 8 && TwoDigitField(r.formatted, 0) == r.hours
  {
    var expiry := createdAt + Ledger.DAY_MS;
    var remaining := if expiry - now > 0 then expiry - now else 0;
    var (hours, minutes, seconds) := Split(remaining);
    RemainingTime(remaining, hours, minutes, seconds, Format(hours, minutes, seconds))
  }

  /** One second before the window closes the countdown shows `00:00:01`. */
  lemma {:induction false} CountdownLastSecond(createdAt: int)
    ensures CalculateRemainingTime(createdAt, createdAt + Ledger.DAY_MS - 1000).formatted == "00:00:01"
  {
    assert Split(1000) == (0, 0, 1);
    TwoDigitsOf(0);
    TwoDigitsOf(1);
  }

  /** A record logged just now shows the full window, `24:00:00`. */
  lemma {:induction false} CountdownFullWindow(createdAt: int)
    ensures CalculateRemainingTime(createdAt, createdAt).formatted == "24:00:00"
  {
    assert Split(86_400_000) == (24, 0, 0);
    TwoDigitsOf(0);
    TwoDigitsOf(24);
  }
}
