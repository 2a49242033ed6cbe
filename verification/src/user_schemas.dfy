/**
 * Request schemas of app/schemas/user.py: the length and range constraints
 * of registration, login and profile updates, the MBTI validator, and the
 * `birth_time` and `timezone` patterns.  As in SettingsSchemas, each
 * `Make…` function constructs the schema from a request body and answers
 * 422 when pydantic would reject it.
 */
module UserSchemas {
  import opened Outcomes
  import opened Text
  import opened FieldRules
  import NotificationWindow
  import SettingsSchemas

  datatype Gender = Male | Female | Other

  /** The `Gender` string enum: only "male", "female" and "other". */
  function ParseGender(s: string): (r: Option<Gender>)
    ensures r.Some? <==> s in {"male", "female", "other"}
    ensures r == Some(Male) <==> s == "male"
    ensures r == Some(Female) <==> s == "female"
    ensures r == Some(Other) <==> s == "other"
  {
    if s == "male" then Some(Male)
    else if s == "female" then Some(Female)
    else if s == "other" then Some(Other)
    else None
  }

  predicate MinuteDigits(m: string) { |m| == 2 && '0' <= m[0] <= '5' && IsDigit(m[1]) }

  /**
   * The `birth_time` pattern `^([0-1]?[0-9]|2[0-3]):[0-5][0-9]$`: an hour of
   * one digit, or two digits up to 23, then a colon and two minute digits.
   */
  predicate IsBirthTime(s: string) {
    (|s| == 4 && s[1] == ':' && NotificationWindow.HourField(s[..1]) && MinuteDigits(s[2..]))
    || (|s| == 5 && s[2] == ':' && NotificationWindow.HourField(s[..2]) && MinuteDigits(s[3..]))
  }

  /**
   * The birth-time pattern accepts exactly the strict "HH:MM" times of the
   * subscription settings, and those same times with the hour's leading
   * zero dropped.
   */
  lemma BirthTimeIsClockTime(s: string)
    ensures IsBirthTime(s) <==> SettingsSchemas.IsClockTime(s) || SettingsSchemas.IsClockTime("0" + s)
  {
    var z := "0" + s;
    if |s| == 4 {
      assert s[..1] == [s[0]] && s[2..] == [s[2], s[3]];
      assert z[0] == '0' && z[1] == s[0] && z[2] == s[1] && z[3] == s[2] && z[4] == s[3];
    } else if |s| == 5 {
      assert s[..2] == [s[0], s[1]] && s[3..] == [s[3], s[4]];
    }
  }

  /** Midnight-to-midnight: "24:00" is refused, "7:05" and "23:59" are accepted. */
  lemma BirthTimeExamples()
    ensures !IsBirthTime("24:00")
    ensures IsBirthTime("7:05") && IsBirthTime("23:59")
  {
    BirthTimeIsClockTime("24:00");
    BirthTimeIsClockTime("7:05");
    BirthTimeIsClockTime("23:59");
  }

  predicate ZoneChar(c: char) { IsAsciiLetter(c) || c == '_' }

  /** `[A-Za-z_]+` */
  predicate ZoneWord(w: string) { |w| > 0 && forall i :: 0 <= i < |w| ==> ZoneChar(w[i]) }

  /** The `timezone` pattern `^[A-Za-z_]+/[A-Za-z_]+$`. */
  predicate IsTimezoneName(s: string) {
    exists k :: 0 <= k < |s| && s[k] == '/' && ZoneWord(s[..k]) && ZoneWord(s[k + 1..])
  }

  /** An accepted name holds exactly one slash: the one between its two words. */
  lemma OnlySlash(s: string, k: nat)
    requires k < |s| && s[k] == '/' && ZoneWord(s[..k]) && ZoneWord(s[k + 1..])
    ensures forall i :: 0 <= i < |s| && s[i] == '/' ==> i == k
  {
    forall i | 0 <= i < |s| && i != k ensures s[i] != '/' {
      if i < k {
        assert s[i] == s[..k][i];
      } else {
        assert s[i] == s[k + 1..][i - k - 1];
      }
    }
  }

  /**
   * A name is accepted exactly when it is two zone words around one slash:
   * "Asia/Shanghai" passes, while "America/Argentina/Buenos_Aires" (whose
   * first part holds a slash) and "Etc/GMT+8" do not.
   */
  lemma {:induction false} TimezoneSplit(a: string, b: string)
    ensures IsTimezoneName(a + "/" + b) <==> ZoneWord(a) && ZoneWord(b)
  {
    var s := a + "/" + b;
    assert s[..|a|] == a && s[|a| + 1..] == b;
    if IsTimezoneName(s) {
      var k :| 0 <= k < |s| && s[k] == '/' && ZoneWord(s[..k]) && ZoneWord(s[k + 1..]);
      OnlySlash(s, k);
      assert s[|a|] == '/';
    }
  }

  lemma TimezoneExamples()
    ensures IsTimezoneName("Asia/Shanghai")
    ensures !IsTimezoneName("America/Argentina/Buenos_Aires")
    ensures !IsTimezoneName("Etc/GMT+8")
  {
    AcceptsAreaCity();
    RefusesThreeParts();
    RefusesOffset();
  }

  lemma AcceptsAreaCity()
    ensures IsTimezoneName("Asia/Shanghai")
  {
    TimezoneSplit("Asia", "Shanghai");
    assert "Asia/Shanghai" == "Asia" + "/" + "Shanghai";
  }

  lemma RefusesThreeParts()
    ensures !IsTimezoneName("America/Argentina/Buenos_Aires")
  {
    TimezoneSplit("America/Argentina", "Buenos_Aires");
    assert "America/Argentina/Buenos_Aires" == "America/Argentina" + "/" + "Buenos_Aires";
    assert !ZoneChar("America/Argentina"[7]);
  }

  lemma RefusesOffset()
    ensures !IsTimezoneName("Etc/GMT+8")
  {
    TimezoneSplit("Etc", "GMT+8");
    assert "Etc/GMT+8" == "Etc" + "/" + "GMT+8";
    assert !ZoneChar("GMT+8"[3]);
  }

  /**
   * `validate_mbti`: absent passes; the field's `max_length=4` and then the
   * validator's `len(v) != 4` refuse every other length; four characters
   * come back upper-cased.
   */
  function ValidateMbti(v: Option<string>): (r: Result<Option<string>>)
    ensures r.Ok? <==> v.None? || |v.value| == 4
    ensures r.Err? ==> r.error == Rejected
    ensures v.None? ==> r == Ok(None)
    ensures r.Ok? && v.Some? ==> (r.value.Some? && |r.value.value| == 4
                                  && r.value.value == UpperString(v.value))
  {
    if v.None? then Ok(None)
    else if |v.value| > 4 then Err(Rejected)
    else if |v.value| != 4 then Err(Rejected)
    else Ok(Some(UpperString(v.value)))
  }

  lemma {:induction false} UpperStringIdempotent(s: string)
    ensures UpperString(UpperString(s)) == UpperString(s)
  {
    var u := UpperString(s);
    assert forall i :: 0 <= i < |s| ==> UpperString(u)[i] == Upper(u[i]) == u[i];
  }

  /** Validating a validated MBTI again changes nothing. */
  lemma MbtiIdempotent(v: Option<string>)
    requires ValidateMbti(v).Ok?
    ensures ValidateMbti(ValidateMbti(v).value) == ValidateMbti(v)
  {
    if v.Some? {
      UpperStringIdempotent(v.value);
    }
  }

  datatype UserCreate = UserCreate(username: string, password: string, nickname: Option<string>)

  /** Registration: username 3 to 50 characters, password 6 to 128, nickname at most 50. */
  function MakeUserCreate(username: string, password: string, nickname: Option<string>): (r: Result<UserCreate>)
    ensures r.Ok? <==> (3 <= |username| <= 50 && 6 <= |password| <= 128
                        && (nickname.None? || |nickname.value| <= 50))
    ensures r.Ok? ==> r.value == UserCreate(username, password, nickname)
    ensures r.Err? ==> r.error == Rejected
  {
    if !LengthBetween(username, 3, 50) || !LengthBetween(password, 6, 128) || !OptionalMaxLength(nickname, 50)
    then Err(Rejected)
    else Ok(UserCreate(username, password, nickname))
  }

  /** Login: the username has registration's length bounds; the password none. */
  function MakeUserLogin(username: string, password: string): (r: Result<(string, string)>)
    ensures r.Ok? <==> 3 <= |username| <= 50
    ensures r.Ok? ==> r.value == (username, password)
    ensures r.Err? ==> r.error == Rejected
  {
    if LengthBetween(username, 3, 50) then Ok((username, password)) else Err(Rejected)
  }

  /** `UserPasswordUpdate`: only the new password is bounded, 6 to 128 characters. */
  function MakePasswordUpdate(oldPassword: string, newPassword: string): (r: Result<(string, string)>)
    ensures r.Ok? <==> 6 <= |newPassword| <= 128
    ensures r.Ok? ==> r.value == (oldPassword, newPassword)
    ensures r.Err? ==> r.error == Rejected
  {
    if LengthBetween(newPassword, 6, 128) then Ok((oldPassword, newPassword)) else Err(Rejected)
  }

  /** `TimezoneUpdate`: the name must match the pattern. */
  function MakeTimezoneUpdate(timezone: string): (r: Result<string>)
    ensures r.Ok? <==> IsTimezoneName(timezone)
    ensures r.Ok? ==> r.value == timezone
    ensures r.Err? ==> r.error == Rejected
  {
    if IsTimezoneName(timezone) then Ok(timezone) else Err(Rejected)
  }

  /** `UserUpdate`; the birthday is a `date` and carries no constraint of its own, so it is left out. */
  datatype UserUpdate = UserUpdate(
    nickname: Option<string>, zodiac: Option<string>, age: Option<int>, bazi: Option<string>,
    gender: Option<string>, mbti: Option<string>, birthTime: Option<string>, birthplace: Option<string>)

  predicate UpdateFieldsValid(u: UserUpdate) {
    OptionalMaxLength(u.nickname, 50) && OptionalMaxLength(u.zodiac, 10) && OptionalBetween(u.age, 0, 150)
    && OptionalMaxLength(u.bazi, 50) && (u.gender.None? || ParseGender(u.gender.value).Some?)
    && (u.birthTime.None? || IsBirthTime(u.birthTime.value)) && OptionalMaxLength(u.birthplace, 100)
  }

  function MakeUserUpdate(u: UserUpdate): (r: Result<UserUpdate>)
    ensures r.Ok? <==> (OptionalMaxLength(u.nickname, 50) && OptionalMaxLength(u.zodiac, 10)
                        && (u.age.None? || 0 <= u.age.value <= 150)
                        && OptionalMaxLength(u.bazi, 50)
                        && (u.gender.None? || u.gender.value in {"male", "female", "other"})
                        && (u.mbti.None? || |u.mbti.value| == 4)
                        && (u.birthTime.None? || IsBirthTime(u.birthTime.value))
                        && OptionalMaxLength(u.birthplace, 100))
    ensures r.Err? ==> r.error == Rejected
    ensures r.Ok? && u.mbti.Some? ==> r.value.mbti == Some(UpperString(u.mbti.value))
    ensures r.Ok? ==> r.value == u.(mbti := r.value.mbti)
  {
    if !UpdateFieldsValid(u) then Err(Rejected)
    else
      var m :- ValidateMbti(u.mbti);
      Ok(u.(mbti := m))
  }
}
