/**
 * The service-account model of app/models/service_account.py: the account
 * row, its avatar URL, and the per-user subscription rows with their push
 * time and enabled flag.  A push time is a time of day in minutes after
 * midnight (the `Time` column's seconds are always zero here).
 */
module ServiceAccountModel {
  import opened Outcomes
  import opened Text
  import opened Tables
  import NotificationWindow

  datatype ServiceAccount = ServiceAccount(
    id: nat, name: string, description: Option<string>, avatarData: Option<seq<bv8>>,
    isActive: bool, defaultPushTime: Option<nat>, updatedAt: Option<int>)

  /** A row of the `subscriptions` association table. */
  datatype SubscriptionRow = SubscriptionRow(
    userId: nat, serviceId: nat, pushTime: Option<nat>, isEnabled: bool, updatedAt: Option<int>)

  /** `avatar_url`: present exactly when there are avatar bytes (empty bytes are falsy). */
  function AvatarUrl(s: ServiceAccount): (r: Option<string>)
    ensures r.Some? <==> s.avatarData.Some? && |s.avatarData.value| > 0
    ensures r.Some? ==> (StartsWith(r.value, "/api/service_accounts/")
                         && |r.value| == |"/api/service_accounts/"| + |s.name| + |"/avatar"|
                         && r.value[|"/api/service_accounts/"|..|"/api/service_accounts/"| + |s.name|] == s.name
                         && r.value[|r.value| - |"/avatar"|..] == "/avatar")
  {
    if s.avatarData.Some? && |s.avatarData.value| > 0 then
      var prefix := "/api/service_accounts/";
      var url := prefix + s.name + "/avatar";
      assert url[..|prefix|] == prefix;
      assert url[|prefix|..|prefix| + |s.name|] == s.name;
      assert url[|url| - |"/avatar"|..] == "/avatar";
      Some(url)
    else None
  }

  /** Two services with avatars share a URL only when they share a name. */
  lemma AvatarUrlNamesService(a: ServiceAccount, b: ServiceAccount)
    requires AvatarUrl(a).Some? && AvatarUrl(b).Some? && AvatarUrl(a) == AvatarUrl(b)
    ensures a.name == b.name
  {
    var p := |"/api/service_accounts/"|;
    var u := AvatarUrl(a).value;
    assert |a.name| == |b.name|;
    assert a.name == u[p..p + |a.name|] == b.name;
  }

  predicate RowOf(r: SubscriptionRow, serviceId: nat, userId: nat) {
    r.userId == userId && r.serviceId == serviceId
  }

  datatype SubscriptionSettings = SubscriptionSettings(pushTime: Option<nat>, isEnabled: bool)

  /** `get_subscription_settings`: the user's row for this service, or None without one. */
  function GetSubscriptionSettings(rows: seq<SubscriptionRow>, serviceId: nat, userId: nat): (r: Option<SubscriptionSettings>)
    ensures r.None? <==> forall x :: x in rows ==> !RowOf(x, serviceId, userId)
    ensures r.Some? ==> exists x :: x in rows && RowOf(x, serviceId, userId)
                                   && r.value == SubscriptionSettings(x.pushTime, x.isEnabled)
  {
    var row := First(rows, (x: SubscriptionRow) => RowOf(x, serviceId, userId));
    if row.None? then None else Some(SubscriptionSettings(row.value.pushTime, row.value.isEnabled))
  }

  /**
   * `hour, minute = map(int, push_time.split(':'))` then `time(hour,
   * minute)`: exactly two parts, each a decimal number, an hour below 24
   * and a minute below 60; anything else raises ValueError.
   */
  function ParsePushTime(s: string): (r: Result<nat>)
    ensures r.Ok? ==> r.value < NotificationWindow.MinutesPerDay
    ensures r.Ok? <==> |Split(s, ':')| == 2 && ValidHourMinute(Split(s, ':')[0], Split(s, ':')[1])
    ensures r.Err? ==> r.error == ValueErr
  {
    var parts := Split(s, ':');
    if |parts| != 2 || !ValidHourMinute(parts[0], parts[1]) then Err(ValueErr)
    else Ok(ParseDecimal(parts[0]) * 60 + ParseDecimal(parts[1]))
  }

  /** `int(h)` and `int(m)` succeed and `time(h, m)` accepts them. */
  predicate ValidHourMinute(h: string, m: string) {
    IsDigitString(h) && IsDigitString(m) && ParseDecimal(h) < 24 && ParseDecimal(m) < 60
  }

  /** An hour and a minute joined by a colon parse back to themselves, leading zeros or not. */
  lemma ParseJoinedPushTime(h: string, m: string)
    requires ValidHourMinute(h, m)
    ensures ParsePushTime(h + ":" + m) == Ok(ParseDecimal(h) * 60 + ParseDecimal(m))
  {
    JoinedSplits(h, m);
    ParseSplitPushTime(h + ":" + m, h, m);
  }

  /** Digit strings joined by a colon split back into the two of them. */
  lemma JoinedSplits(h: string, m: string)
    requires AllDigits(h) && AllDigits(m)
    ensures Split(h + ":" + m, ':') == [h, m]
  {
    assert Lacks(h, ':') && Lacks(m, ':');
    var parts := [h, m];
    assert parts[1..] == [m];
    assert Join(parts, ':') == h + ":" + m;
    SplitJoin(parts, ':');
  }

  lemma ParseSplitPushTime(s: string, h: string, m: string)
    requires Split(s, ':') == [h, m] && ValidHourMinute(h, m)
    ensures ParsePushTime(s) == Ok(ParseDecimal(h) * 60 + ParseDecimal(m))
  {
  }

  lemma ClockParts(m: nat)
    requires m < NotificationWindow.MinutesPerDay
    ensures m / 60 < 24 && m % 60 < 60 && (m / 60) * 60 + m % 60 == m
  {
  }

  /** Every strict "HH:MM" time parses to the minutes it names. */
  lemma ParseFormattedPushTime(m: nat)
    requires m < NotificationWindow.MinutesPerDay
    ensures ParsePushTime(NotificationWindow.FormatClock(m)) == Ok(m)
  {
    var hours, minutes := m / 60, m % 60;
    ClockParts(m);
    NotificationWindow.TwoDigits(hours);
    NotificationWindow.TwoDigits(minutes);
    var h, mm := PadDecimal(hours, 2), PadDecimal(minutes, 2);
    assert NotificationWindow.FormatClock(m) == h + ":" + mm;
    ParseJoinedPushTime(h, mm);
  }

  /**
   * `update_subscription_settings`: a malformed push time raises; with
   * neither a push time nor a flag nothing is written and the answer is
   * False; otherwise the user's rows for the service get the given values
   * and the update time, and the answer is True, even when no such row
   * exists.
   */
  function UpdateSubscriptionSettings(
    rows: seq<SubscriptionRow>, serviceId: nat, userId: nat,
    pushTime: Option<string>, isEnabled: Option<bool>, now: int)
    : (r: Result<(bool, seq<SubscriptionRow>)>)
    ensures r.Err? <==> pushTime.Some? && ParsePushTime(pushTime.value).Err?
    ensures r.Err? ==> r.error == ValueErr
    ensures r.Ok? ==> (r.value.0 <==> pushTime.Some? || isEnabled.Some?)
    ensures r.Ok? && !r.value.0 ==> r.value.1 == rows
    ensures r.Ok? ==> |r.value.1| == |rows|
    ensures r.Ok? ==> forall i :: 0 <= i < |rows| && !RowOf(rows[i], serviceId, userId) ==> r.value.1[i] == rows[i]
    ensures r.Ok? && r.value.0 ==> forall i :: 0 <= i < |rows| && RowOf(rows[i], serviceId, userId) ==>
              (r.value.1[i].updatedAt == Some(now)
               && r.value.1[i].pushTime == (if pushTime.Some? then Some(ParsePushTime(pushTime.value).value) else rows[i].pushTime)
               && r.value.1[i].isEnabled == (if isEnabled.Some? then isEnabled.value else rows[i].isEnabled)
               && r.value.1[i].userId == userId && r.value.1[i].serviceId == serviceId)
  {
    var parsed: Result<Option<nat>> :=
      if pushTime.None? then Ok(None)
      else if ParsePushTime(pushTime.value).Err? then Err(ValueErr)
      else Ok(Some(ParsePushTime(pushTime.value).value));
    if parsed.Err? then Err(ValueErr)
    else if parsed.value.None? && isEnabled.None? then Ok((false, rows))
    else
      var apply := (x: SubscriptionRow) =>
        x.(pushTime := if parsed.value.Some? then parsed.value else x.pushTime,
           isEnabled := if isEnabled.Some? then isEnabled.value else x.isEnabled,
           updatedAt := Some(now));
      Ok((true, MapWhere(rows, (x: SubscriptionRow) => RowOf(x, serviceId, userId), apply)))
  }

  /** After a successful update the user's settings read back as written. */
  lemma UpdateThenGet(
    rows: seq<SubscriptionRow>, serviceId: nat, userId: nat, pushTime: string, isEnabled: bool, now: int)
    requires ParsePushTime(pushTime).Ok?
    requires exists x :: x in rows && RowOf(x, serviceId, userId)
    ensures var r := UpdateSubscriptionSettings(rows, serviceId, userId, Some(pushTime), Some(isEnabled), now);
      r.Ok? && GetSubscriptionSettings(r.value.1, serviceId, userId)
               == Some(SubscriptionSettings(Some(ParsePushTime(pushTime).value), isEnabled))
  {
    var r := UpdateSubscriptionSettings(rows, serviceId, userId, Some(pushTime), Some(isEnabled), now);
    var x :| x in rows && RowOf(x, serviceId, userId);
    var i :| 0 <= i < |rows| && rows[i] == x;
    assert RowOf(r.value.1[i], serviceId, userId);
    var g := GetSubscriptionSettings(r.value.1, serviceId, userId);
    assert g.Some?;
    var y :| y in r.value.1 && RowOf(y, serviceId, userId) && g.value == SubscriptionSettings(y.pushTime, y.isEnabled);
    var j :| 0 <= j < |r.value.1| && r.value.1[j] == y;
    assert RowOf(rows[j], serviceId, userId);
  }
}
