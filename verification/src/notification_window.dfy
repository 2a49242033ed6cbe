/**
 * The delivery window check of subscription handlers
 * (app/services/subscriptions/handlers/base.py).
 *
 * The current time of day is an input, in microseconds since midnight (the
 * source compares a `datetime.time` that carries seconds and microseconds).
 * Window bounds are "HH:MM" strings parsed with `strptime("%H:%M")`, whose
 * `%H` accepts `2[0-3]`, `[01]\d` or one digit and whose `%M` accepts
 * `[0-5]\d` or one digit, with nothing left over.
 */
module NotificationWindow {
  import opened Outcomes
  import opened Text

  const MinutesPerDay: nat := 1440
  const MicrosPerMinute: nat := 60000000
  const MicrosPerDay: nat := 86400000000

  predicate HourField(h: string) {
    (|h| == 1 && IsDigit(h[0]))
    || (|h| == 2 && (('0' <= h[0] <= '1' && IsDigit(h[1])) || (h[0] == '2' && '0' <= h[1] <= '3')))
  }

  predicate MinuteField(m: string) {
    (|m| == 1 && IsDigit(m[0]))
    || (|m| == 2 && '0' <= m[0] <= '5' && IsDigit(m[1]))
  }

  lemma FieldBounds(h: string, m: string)
    requires HourField(h) && MinuteField(m)
    ensures ParseDecimal(h) <= 23 && ParseDecimal(m) <= 59
  {
    if |h| == 2 {
      assert h[..1] == [h[0]];
      assert [h[0]][..0] == [];
    } else {
      assert h[..0] == [];
    }
    if |m| == 2 {
      assert m[..1] == [m[0]];
      assert [m[0]][..0] == [];
    } else {
      assert m[..0] == [];
    }
  }

  /** `strptime(s, "%H:%M")`, as minutes since midnight; None where it raises. */
  function ParseClock(s: string): (r: Option<nat>)
    ensures r.Some? ==> r.value < MinutesPerDay
    ensures r.Some? <==> exists k :: 1 <= k <= 2 && k < |s| && s[k] == ':' && HourField(s[..k]) && MinuteField(s[k + 1..])
  {
    if |s| > 1 && s[1] == ':' && HourField(s[..1]) && MinuteField(s[2..]) then
      FieldBounds(s[..1], s[2..]);
      Some(ParseDecimal(s[..1]) * 60 + ParseDecimal(s[2..]))
    else if |s| > 2 && s[2] == ':' && HourField(s[..2]) && MinuteField(s[3..]) then
      FieldBounds(s[..2], s[3..]);
      Some(ParseDecimal(s[..2]) * 60 + ParseDecimal(s[3..]))
    else
      None
  }

  /** "HH:MM" for a minute of the day. */
  function FormatClock(m: nat): (s: string)
    requires m < MinutesPerDay
    ensures |s| == 5 && s[2] == ':'
  {
    PadDecimal(m / 60, 2) + ":" + PadDecimal(m % 60, 2)
  }

  lemma TwoDigits(n: nat)
    requires n < 100
    ensures var p := PadDecimal(n, 2);
      (IsDigit(p[0]) && IsDigit(p[1]) && DigitValue(p[0]) == n / 10 && ParseDecimal(p) == n)
  {
    ParsePadDecimal(n, 2);
  }

  /** Every "HH:MM" rendering of a minute of the day parses back to that minute. */
  lemma ParseFormatClock(m: nat)
    requires m < MinutesPerDay
    ensures ParseClock(FormatClock(m)) == Some(m)
  {
    var s := FormatClock(m);
    var h, mm := PadDecimal(m / 60, 2), PadDecimal(m % 60, 2);
    TwoDigits(m / 60);
    TwoDigits(m % 60);
    assert s[..2] == h && s[3..] == mm;
    assert HourField(h);
    assert MinuteField(mm);
  }

  function ClockMicros(minutes: nat): nat { minutes * MicrosPerMinute }

  lemma ClockMicrosBound(minutes: nat)
    requires minutes < MinutesPerDay
    ensures ClockMicros(minutes) < MicrosPerDay
  {
  }

  /**
   * On a clock of one day, the closed interval from `s` to `e` (wrapping past
   * midnight when `s` is after `e`) holds `now` exactly when the time elapsed
   * since `s` is at most the interval's length.
   */
  lemma CircularInterval(now: int, s: int, e: int)
    requires 0 <= now < MicrosPerDay && 0 <= s < MicrosPerDay && 0 <= e < MicrosPerDay
    ensures (if s <= e then s <= now <= e else now >= s || now <= e)
            <==> (now - s) % MicrosPerDay <= (e - s) % MicrosPerDay
  {
    if s <= e {
      DivModUnique(e - s, MicrosPerDay, 0, e - s);
    } else {
      DivModUnique(e - s, MicrosPerDay, -1, e - s + MicrosPerDay);
    }
    if now >= s {
      DivModUnique(now - s, MicrosPerDay, 0, now - s);
    } else {
      DivModUnique(now - s, MicrosPerDay, -1, now - s + MicrosPerDay);
    }
  }

  /**
   * `is_within_notification_window`: a window whose start is not after its
   * end is the closed interval between them; otherwise it wraps past
   * midnight.  An unparseable bound makes the check answer false.  The
   * contract states it as one circular interval: the time elapsed since the
   * start, going round the clock, is at most the window's length.
   */
  function IsWithinWindow(now: nat, start: string, end: string): (r: bool)
    requires now < MicrosPerDay
    ensures ParseClock(start).None? || ParseClock(end).None? ==> !r
    ensures ParseClock(start).Some? && ParseClock(end).Some? ==>
      var s := ClockMicros(ParseClock(start).value);
      var e := ClockMicros(ParseClock(end).value);
      (r <==> (now - s) % MicrosPerDay <= (e - s) % MicrosPerDay)
  {
    match (ParseClock(start), ParseClock(end))
    case (Some(sm), Some(em)) =>
      var s, e := ClockMicros(sm), ClockMicros(em);
      ClockMicrosBound(sm);
      ClockMicrosBound(em);
      CircularInterval(now, s, e);
      if s <= e then s <= now <= e else now >= s || now <= e
    case _ => false
  }

  /** A window with equal bounds holds only the exact instant of its start. */
  lemma EqualBoundsHoldOneInstant(now: nat, bound: string)
    requires now < MicrosPerDay && ParseClock(bound).Some?
    ensures IsWithinWindow(now, bound, bound) <==> now == ClockMicros(ParseClock(bound).value)
  {
  }

  /** Seconds past the end minute already fall outside the window. */
  lemma SecondsAfterEndAreOutside(now: nat, start: string, end: string)
    requires ParseClock(start).Some? && ParseClock(end).Some?
    requires ParseClock(start).value <= ParseClock(end).value
    requires ClockMicros(ParseClock(end).value) < now < MicrosPerDay
    ensures !IsWithinWindow(now, start, end)
  {
  }

  /** A window that wraps past midnight holds exactly the times outside the gap from its end to its start. */
  lemma WrappedWindowIsComplementOfGap(now: nat, start: string, end: string)
    requires now < MicrosPerDay
    requires ParseClock(start).Some? && ParseClock(end).Some?
    requires ParseClock(start).value > ParseClock(end).value
    ensures IsWithinWindow(now, start, end) <==>
      !(ClockMicros(ParseClock(end).value) < now < ClockMicros(ParseClock(start).value))
  {
  }

  /** Both bound formats `strptime` accepts: one or two digits. */
  lemma LenientBoundsParse()
    ensures ParseClock("9:5") == Some(545)
    ensures ParseClock("09:05") == Some(545)
    ensures ParseClock("24:00").None? && ParseClock("12:60").None? && ParseClock("7").None?
  {
    assert "9:5"[..1] == "9" && "9:5"[2..] == "5";
    assert ParseDecimal("9") == 9 && ParseDecimal("5") == 5;
    assert "09:05"[..2] == "09" && "09:05"[3..] == "05";
    assert ParseDecimal("09") == 9 && ParseDecimal("05") == 5;
  }
}
