/**
 * Request schemas of app/schemas/user_settings.py: privacy settings with a
 * bounded cooldown, subscription settings with an "HH:MM" delivery window,
 * a password change, the cosmic profile and the export and statistics
 * requests.  Each `Make…` function stands for constructing the schema from a
 * request body whose optional fields are `None` when the body leaves them
 * out; it returns the validated record or the 422 FastAPI answers with.
 *
 * Validators written with `@validator` run after the field's own
 * constraints, not on defaults, and see in `values` only the fields before
 * them that validated.
 */
module SettingsSchemas {
  import opened Outcomes
  import opened Text
  import opened FieldRules
  import NotificationWindow

  datatype Visibility = Public | Friends | Private

  /** The `ProfileVisibility` string enum: only its three exact values. */
  function ParseVisibility(s: string): (r: Option<Visibility>)
    ensures r.Some? <==> s in {"public", "friends", "private"}
    ensures r == Some(Public) <==> s == "public"
    ensures r == Some(Friends) <==> s == "friends"
    ensures r == Some(Private) <==> s == "private"
  {
    if s == "public" then Some(Public)
    else if s == "friends" then Some(Friends)
    else if s == "private" then Some(Private)
    else None
  }

  const MinCooldown: int := 60
  const MaxCooldown: int := 3600
  const DefaultCooldown: int := 300

  datatype PrivacySettings = PrivacySettings(
    visibility: Visibility, messageProtection: bool, cooldownEnabled: bool, cooldownDuration: int)

  /** Every validated cooldown lies between one minute and one hour. */
  predicate CooldownInRange(p: PrivacySettings) { MinCooldown <= p.cooldownDuration <= MaxCooldown }

  function MakePrivacySettings(
    visibility: Option<string>, messageProtection: Option<bool>, cooldownEnabled: Option<bool>, cooldown: Option<int>)
    : (r: Result<PrivacySettings>)
    ensures r.Ok? <==> ((visibility.None? || ParseVisibility(visibility.value).Some?)
                        && (cooldown.None? || 60 <= cooldown.value <= 3600))
    ensures r.Err? ==> r.error == Rejected
    ensures r.Ok? ==> CooldownInRange(r.value)
    ensures r.Ok? && visibility.None? ==> r.value.visibility == Friends
    ensures r.Ok? && cooldown.None? ==> r.value.cooldownDuration == 300
    ensures r.Ok? && cooldown.Some? ==> r.value.cooldownDuration == cooldown.value
    ensures r.Ok? ==> (r.value.messageProtection == OrDefault(messageProtection, true)
                       && r.value.cooldownEnabled == OrDefault(cooldownEnabled, true))
  {
    var v := if visibility.Some? then ParseVisibility(visibility.value) else Some(Friends);
    if v.None? then Err(Rejected)
    // `Field(ge=60, le=3600)` first, then the validator's identical check
    else if !OptionalBetween(cooldown, MinCooldown, MaxCooldown) then Err(Rejected)
    else Ok(PrivacySettings(
      v.value, OrDefault(messageProtection, true), OrDefault(cooldownEnabled, true),
      OrDefault(cooldown, DefaultCooldown)))
  }

  /** The pattern `^([01]\d|2[0-3]):([0-5]\d)$`: exactly two hour and two minute digits. */
  predicate IsClockTime(s: string) {
    |s| == 5 && s[2] == ':'
    && ((('0' <= s[0] <= '1') && IsDigit(s[1])) || (s[0] == '2' && '0' <= s[1] <= '3'))
    && '0' <= s[3] <= '5' && IsDigit(s[4])
  }

  /** The minute of the day an "HH:MM" string names. */
  function Minutes(s: string): (m: nat)
    requires IsClockTime(s)
    ensures m < NotificationWindow.MinutesPerDay
  {
    (10 * DigitValue(s[0]) + DigitValue(s[1])) * 60 + 10 * DigitValue(s[3]) + DigitValue(s[4])
  }

  /** A string accepted by the pattern is read as the same minute by the window check's parser. */
  lemma ClockTimeParses(s: string)
    requires IsClockTime(s)
    ensures NotificationWindow.ParseClock(s) == Some(Minutes(s))
  {
    var h, m := s[..2], s[3..];
    assert h == [s[0], s[1]] && h[..1] == [s[0]];
    assert [s[0]][..0] == [] && ParseDecimal([s[0]]) == DigitValue(s[0]);
    assert m == [s[3], s[4]] && m[..1] == [s[3]];
    assert [s[3]][..0] == [] && ParseDecimal([s[3]]) == DigitValue(s[3]);
    assert ParseDecimal(s[..2]) == 10 * DigitValue(s[0]) + DigitValue(s[1]);
    assert ParseDecimal(s[3..]) == 10 * DigitValue(s[3]) + DigitValue(s[4]);
    assert !(s[1] == ':');
    assert NotificationWindow.HourField(s[..2]);
    assert NotificationWindow.MinuteField(s[3..]);
  }

  /** Every minute of the day has an accepted "HH:MM" form, and it names that minute. */
  lemma FormatIsClockTime(m: nat)
    requires m < NotificationWindow.MinutesPerDay
    ensures IsClockTime(NotificationWindow.FormatClock(m))
    ensures Minutes(NotificationWindow.FormatClock(m)) == m
  {
    var s := NotificationWindow.FormatClock(m);
    var h, mm := PadDecimal(m / 60, 2), PadDecimal(m % 60, 2);
    NotificationWindow.TwoDigits(m / 60);
    NotificationWindow.TwoDigits(m % 60);
    assert s[0] == h[0] && s[1] == h[1] && s[3] == mm[0] && s[4] == mm[1];
    assert h[..1] == [h[0]] && [h[0]][..0] == [];
    assert mm[..1] == [mm[0]] && [mm[0]][..0] == [];
    assert ParseDecimal(h) == DigitValue(h[0]) * 10 + DigitValue(h[1]);
    assert ParseDecimal(mm) == DigitValue(mm[0]) * 10 + DigitValue(mm[1]);
  }

  lemma LexLessUnfold(a: string, b: string)
    requires |a| > 0 && |b| > 0
    ensures LexLess(a, b) == if a[0] != b[0] then a[0] < b[0] else LexLess(a[1..], b[1..])
  {
  }

  /** Lexicographic order on two five-character strings that agree at the colon. */
  predicate DigitsBefore(a: string, b: string)
    requires |a| == 5 && |b| == 5
  {
    a[0] < b[0] || (a[0] == b[0] && (a[1] < b[1] || (a[1] == b[1] && (a[3] < b[3] || (a[3] == b[3] && a[4] < b[4])))))
  }

  lemma {:induction false} LexLessFive(a: string, b: string)
    requires |a| == 5 && |b| == 5 && a[2] == b[2]
    ensures LexLess(a, b) <==> DigitsBefore(a, b)
  {
    LexLessUnfold(a, b);
    if a[0] == b[0] {
      LexLessUnfold(a[1..], b[1..]);
      if a[1] == b[1] {
        LexLessUnfold(a[2..], b[2..]);
        LexLessUnfold(a[3..], b[3..]);
        if a[3] == b[3] {
          LexLessUnfold(a[4..], b[4..]);
          assert a[5..] == [] && b[5..] == [];
        }
      }
    }
  }

  /** On accepted strings, digit order is the order of the minutes they name, and equal minutes mean equal strings. */
  lemma MinutesFollowDigits(a: string, b: string)
    requires IsClockTime(a) && IsClockTime(b)
    ensures DigitsBefore(a, b) <==> Minutes(a) < Minutes(b)
    ensures a == b <==> Minutes(a) == Minutes(b)
  {
    if Minutes(a) == Minutes(b) {
      assert a[0] == b[0] && a[1] == b[1] && a[3] == b[3] && a[4] == b[4];
      assert a == [a[0], a[1], a[2], a[3], a[4]] && b == [b[0], b[1], b[2], b[3], b[4]];
    }
  }

  /**
   * The validator compares the two strings with Python's `<=`; on strings the
   * pattern accepts, that is exactly the order of the times they name.
   */
  lemma ClockOrderIsLexOrder(a: string, b: string)
    requires IsClockTime(a) && IsClockTime(b)
    ensures LexLess(a, b) <==> Minutes(a) < Minutes(b)
    ensures a == b <==> Minutes(a) == Minutes(b)
  {
    LexLessFive(a, b);
    MinutesFollowDigits(a, b);
  }

  const DefaultStart: string := "09:00"
  const DefaultEnd: string := "22:00"
  const DefaultTimezone: string := "Asia/Shanghai"

  datatype SubscriptionSettings = SubscriptionSettings(
    cosmicMessaging: bool, start: string, end: string, timezone: string)

  /**
   * The end-time validator runs only on an end the body gives, after the
   * pattern accepted it, and compares it with the start in `values` (the
   * given start if that validated, else the default "09:00").
   */
  function MakeSubscriptionSettings(
    cosmicMessaging: Option<bool>, start: Option<string>, end: Option<string>, timezone: Option<string>)
    : (r: Result<SubscriptionSettings>)
    ensures r.Ok? <==> ((start.None? || IsClockTime(start.value))
                        && (end.None? || (IsClockTime(end.value)
                                          && LexLess(OrDefault(start, "09:00"), end.value))))
    ensures r.Err? ==> r.error == Rejected
    ensures r.Ok? ==> IsClockTime(r.value.start) && IsClockTime(r.value.end)
    ensures r.Ok? ==> r.value.start == OrDefault(start, "09:00") && r.value.end == OrDefault(end, "22:00")
    ensures r.Ok? ==> (r.value.timezone == OrDefault(timezone, "Asia/Shanghai")
                       && r.value.cosmicMessaging == OrDefault(cosmicMessaging, true))
  {
    var s := OrDefault(start, DefaultStart);
    var e := OrDefault(end, DefaultEnd);
    if !IsClockTime(s) then Err(Rejected)
    else if !IsClockTime(e) then Err(Rejected)
    else
      assert LexLessEq(e, s) <==> !LexLess(s, e) by { ClockOrderIsLexOrder(s, e); ClockOrderIsLexOrder(e, s); }
      if end.Some? && LexLessEq(e, s) then Err(Rejected)
      else Ok(SubscriptionSettings(OrDefault(cosmicMessaging, true), s, e, OrDefault(timezone, DefaultTimezone)))
  }

  /** A window whose end the body gives closes strictly after it opens. */
  lemma GivenEndFollowsStart(cosmicMessaging: Option<bool>, start: Option<string>, end: string, timezone: Option<string>)
    requires MakeSubscriptionSettings(cosmicMessaging, start, Some(end), timezone).Ok?
    ensures var w := MakeSubscriptionSettings(cosmicMessaging, start, Some(end), timezone).value;
      Minutes(w.start) < Minutes(w.end)
  {
    var w := MakeSubscriptionSettings(cosmicMessaging, start, Some(end), timezone).value;
    ClockOrderIsLexOrder(w.start, w.end);
  }

  /**
   * The range check never sees a defaulted end: a start of "23:00" alone is
   * accepted, and the stored window runs from 23:00 past midnight to 22:00.
   */
  lemma DefaultEndIsNotChecked()
    ensures var r := MakeSubscriptionSettings(None, Some("23:00"), None, None);
      r.Ok? && Minutes(r.value.end) < Minutes(r.value.start)
  {
    var r := MakeSubscriptionSettings(None, Some("23:00"), None, None);
    assert IsClockTime("23:00");
    assert r.Ok?;
    assert r.value.start == "23:00" && r.value.end == "22:00";
  }

  datatype PasswordChange = PasswordChange(currentPassword: string, newPassword: string)

  /**
   * Both passwords are 6 to 128 characters; the new one is compared with the
   * current one only when the current one validated, so every accepted
   * change has two different passwords.
   */
  function MakePasswordChange(current: string, next: string): (r: Result<PasswordChange>)
    ensures r.Ok? <==> 6 <= |current| <= 128 && 6 <= |next| <= 128 && next != current
    ensures r.Err? ==> r.error == Rejected
    ensures r.Ok? ==> r.value.currentPassword == current && r.value.newPassword == next
  {
    if !LengthBetween(current, 6, 128) then Err(Rejected)
    else if !LengthBetween(next, 6, 128) then Err(Rejected)
    else if next == current then Err(Rejected)
    else Ok(PasswordChange(current, next))
  }

  datatype CosmicProfile = CosmicProfile(
    energyType: Option<string>, lifePath: Option<string>, soulUrge: Option<string>,
    destinyNumber: Option<int>, personalYear: Option<int>)

  /** The three texts are at most 50 characters; both numbers, when given, are single digits 1 to 9. */
  function MakeCosmicProfile(p: CosmicProfile): (r: Result<CosmicProfile>)
    ensures r.Ok? <==> (OptionalMaxLength(p.energyType, 50) && OptionalMaxLength(p.lifePath, 50)
                        && OptionalMaxLength(p.soulUrge, 50)
                        && (p.destinyNumber.None? || 1 <= p.destinyNumber.value <= 9)
                        && (p.personalYear.None? || 1 <= p.personalYear.value <= 9))
    ensures r.Ok? ==> r.value == p
    ensures r.Err? ==> r.error == Rejected
  {
    if !(OptionalMaxLength(p.energyType, 50) && OptionalMaxLength(p.lifePath, 50) && OptionalMaxLength(p.soulUrge, 50))
    then Err(Rejected)
    else if !(OptionalBetween(p.destinyNumber, 1, 9) && OptionalBetween(p.personalYear, 1, 9)) then Err(Rejected)
    else Ok(p)
  }

  /** `format` of an export request: the pattern `^(json|csv|txt)$`, default "json". */
  function ExportFormat(format: Option<string>): (r: Result<string>)
    ensures r.Ok? <==> format.None? || format.value in {"json", "csv", "txt"}
    ensures r.Ok? ==> r.value in {"json", "csv", "txt"}
    ensures format.None? ==> r == Ok("json")
    ensures r.Ok? && format.Some? ==> r.value == format.value
    ensures r.Err? ==> r.error == Rejected
  {
    var f := OrDefault(format, "json");
    if f == "json" || f == "csv" || f == "txt" then Ok(f) else Err(Rejected)
  }

  /** `group_by` of a statistics request: the pattern `^(day|week|month)$`, default "day". */
  function GroupBy(groupBy: Option<string>): (r: Result<string>)
    ensures r.Ok? <==> groupBy.None? || groupBy.value in {"day", "week", "month"}
    ensures r.Ok? ==> r.value in {"day", "week", "month"}
    ensures groupBy.None? ==> r == Ok("day")
    ensures r.Ok? && groupBy.Some? ==> r.value == groupBy.value
    ensures r.Err? ==> r.error == Rejected
  {
    var g := OrDefault(groupBy, "day");
    if g == "day" || g == "week" || g == "month" then Ok(g) else Err(Rejected)
  }
}
