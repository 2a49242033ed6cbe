/**
 * The value mapping of the migration
 * alembic/versions/7f3a1c8b9d2f_update_message_enum_to_normal.py, which
 * replaces the legacy message-type enum by NORMAL/VOICE/SYSTEM and back.
 * A column value is its `::text`, or None for SQL NULL; a NULL matches no
 * WHEN arm and so takes the ELSE arm.
 */
module MessageTypeMigration {
  import opened Outcomes

  /** The enum the upgrade creates. */
  datatype Current = Normal | Voice | System

  /** The enum the downgrade recreates. */
  datatype Legacy = LegacySystem | LegacyUser | LegacyAlert | LegacyNotification

  function CurrentName(c: Current): string {
    match c
    case Normal => "NORMAL"
    case Voice => "VOICE"
    case System => "SYSTEM"
  }

  function LegacyName(l: Legacy): string {
    match l
    case LegacySystem => "SYSTEM"
    case LegacyUser => "USER"
    case LegacyAlert => "ALERT"
    case LegacyNotification => "NOTIFICATION"
  }

  const VoiceNames: set<string> := {"VOICE_TRANSCRIPT", "VOICE"}
  const NormalNames: set<string> := {"USER", "ALERT", "NOTIFICATION", "USER_POSTCARD", "COSMIC_BROADCAST", "SERVICE_REPLY"}

  /** The upgrade's CASE: SYSTEM stays, the voice types become VOICE, everything else NORMAL. */
  function Upgrade(v: Option<string>): (c: Current)
    ensures c == System <==> v == Some("SYSTEM")
    ensures c == Voice <==> v.Some? && v.value in VoiceNames
    ensures c == Normal <==> v.None? || (v.value != "SYSTEM" && v.value !in VoiceNames)
  {
    if v.None? then Normal
    else if v.value == "SYSTEM" then System
    else if v.value in VoiceNames then Voice
    else if v.value in NormalNames then Normal
    else Normal
  }

  /** Each value of the new enum is left as it is. */
  lemma UpgradeFixesCurrent(c: Current)
    ensures Upgrade(Some(CurrentName(c))) == c
  {
  }

  /** Running the upgrade's mapping on its own output changes nothing. */
  lemma UpgradeIdempotent(v: Option<string>)
    ensures Upgrade(Some(CurrentName(Upgrade(v)))) == Upgrade(v)
  {
    UpgradeFixesCurrent(Upgrade(v));
  }

  /** The downgrade's CASE: SYSTEM stays, everything else becomes USER. */
  function Downgrade(v: Option<string>): (l: Legacy)
    ensures l == LegacySystem <==> v == Some("SYSTEM")
    ensures l == LegacyUser <==> v != Some("SYSTEM")
  {
    if v == Some("SYSTEM") then LegacySystem
    else if v == Some("VOICE") then LegacyUser
    else if v == Some("NORMAL") then LegacyUser
    else LegacyUser
  }

  /**
   * Down after up keeps SYSTEM and turns every other legacy value, ALERT and
   * NOTIFICATION among them, into USER: the round trip loses them.
   */
  lemma DowngradeAfterUpgrade(v: Option<string>)
    ensures Downgrade(Some(CurrentName(Upgrade(v)))) == (if v == Some("SYSTEM") then LegacySystem else LegacyUser)
    ensures Downgrade(Some(CurrentName(Upgrade(Some("ALERT"))))) != LegacyAlert
  {
  }

  /** Up after down keeps SYSTEM and sends VOICE to NORMAL. */
  lemma UpgradeAfterDowngrade(c: Current)
    ensures Upgrade(Some(LegacyName(Downgrade(Some(CurrentName(c)))))) == (if c == System then System else Normal)
  {
  }
}
