/**
 * The daily push tasks of the service accounts (app/tasks/subscriptions.py):
 * the deterministic fortune, the random weather forecast, the selection of
 * subscribers whose personal push time is due, and the count of successful
 * sends.
 *
 * SHA-256 is an uninterpreted function from strings to hex digests; the
 * random draws of the forecast are inputs constrained to the ranges
 * `random.randint`/`random.choice` produce; a timezone is reduced to its UTC
 * offset in seconds (None where pytz does not know the zone).
 */
module PushTasks {
  import opened Outcomes
  import opened Text

  // ---------------------------------------------------------------- fortune

  const Fortunes: seq<string> := ["大吉 🌟", "中吉 ⭐", "小吉 ✨", "平 😐", "凶 ⚠️"]
  const LuckyItems: seq<string> := ["红色外套", "笔记本电脑", "咖啡", "耳机", "Pupu机", "幸运手链", "笔记本", "钢笔"]
  const LuckyColors: seq<string> := ["红色", "金色", "绿色", "蓝色", "紫色", "粉色", "白色", "黑色"]
  const Directions: seq<string> := ["东方", "南方", "西方", "北方", "东南方", "西南方", "东北方", "西北方"]
  const Advices: seq<string> := ["宜签约", "宜出行", "宜社交", "宜学习", "宜休息", "宜运动", "宜购物", "宜创作"]

  datatype Date = Date(year: nat, month: nat, day: nat)

  /** A UTC `datetime`: a calendar date and a time of day in microseconds. */
  datatype Instant = Instant(date: Date, micros: nat)

  /** `date.isoformat()`. */
  function IsoDate(d: Date): string {
    PadDecimal(d.year, 4) + "-" + PadDecimal(d.month, 2) + "-" + PadDecimal(d.day, 2)
  }

  /** The hash input: the bipupu id and the ISO calendar date. */
  function FortuneSeed(bipupuId: string, d: Date): string { bipupuId + ":" + IsoDate(d) }

  predicate IsHexDigit(c: char) { IsDigit(c) || 'a' <= c <= 'f' || 'A' <= c <= 'F' }

  /** What `hashlib.sha256(...).hexdigest()` returns: 64 hex digits. */
  predicate IsHexDigest(s: string) { |s| == 64 && forall i :: 0 <= i < |s| ==> IsHexDigit(s[i]) }

  function HexDigitValue(c: char): (v: nat)
    requires IsHexDigit(c)
    ensures v < 16
  {
    if IsDigit(c) then DigitValue(c)
    else if 'a' <= c <= 'f' then c as int - 'a' as int + 10
    else c as int - 'A' as int + 10
  }

  /** `int(s, 16)` on a string of hex digits. */
  function HexValue(s: string): nat
    requires forall i :: 0 <= i < |s| ==> IsHexDigit(s[i])
  {
    if s == [] then 0 else HexValue(s[..|s| - 1]) * 16 + HexDigitValue(s[|s| - 1])
  }

  datatype FortuneReading = FortuneReading(
    date: Date, fortune: string, item: string, color: string, direction: string, advice: string)

  /** One table entry picked by an 8-hex-digit slice of the digest, as `int(digest[a:b], 16) % len(table)`. */
  function Pick(table: seq<string>, digest: string, slot: nat): (s: string)
    requires |table| > 0 && IsHexDigest(digest) && slot < 8
    ensures s in table
  {
    table[HexValue(digest[8 * slot..8 * slot + 8]) % |table|]
  }

  /** `generate_daily_fortune`, before rendering: five picks driven by the digest of the seed. */
  function DailyFortune(bipupuId: string, at: Instant, sha256: string -> string): (r: FortuneReading)
    requires IsHexDigest(sha256(FortuneSeed(bipupuId, at.date)))
    ensures r.date == at.date
    ensures r.fortune in Fortunes && r.item in LuckyItems && r.color in LuckyColors
    ensures r.direction in Directions && r.advice in Advices
  {
    var digest := sha256(FortuneSeed(bipupuId, at.date));
    FortuneReading(at.date, Pick(Fortunes, digest, 0), Pick(LuckyItems, digest, 1),
      Pick(LuckyColors, digest, 2), Pick(Directions, digest, 3), Pick(Advices, digest, 4))
  }

  /** `date.strftime('%Y年%m月%d日')` for four-digit years. */
  function ChineseDate(d: Date): string {
    PadDecimal(d.year, 4) + "年" + PadDecimal(d.month, 2) + "月" + PadDecimal(d.day, 2) + "日"
  }

  /** The text of the fortune message. */
  function RenderFortune(r: FortuneReading): string {
    "📅 " + ChineseDate(r.date) + " 运势\n"
    + "✨ 今日运势：" + r.fortune + "\n"
    + "🎁 幸运物：" + r.item + "\n"
    + "🎨 幸运色：" + r.color + "\n"
    + "🧭 吉方位：" + r.direction + "\n"
    + "💡 宜：" + r.advice + "\n"
    + "---\n"
    + "星座力量加持，祝您今日顺利！"
  }

  /** The same id on the same calendar date gets the same fortune, whatever the time of day. */
  lemma FortuneIgnoresTimeOfDay(bipupuId: string, a: Instant, b: Instant, sha256: string -> string)
    requires a.date == b.date
    requires IsHexDigest(sha256(FortuneSeed(bipupuId, a.date)))
    ensures RenderFortune(DailyFortune(bipupuId, a, sha256)) == RenderFortune(DailyFortune(bipupuId, b, sha256))
  {
  }

  // ---------------------------------------------------------------- weather

  datatype WeatherType = WeatherType(desc: string, kind: string, minTemp: int, maxTemp: int)

  const WeatherTypes: seq<WeatherType> := [
    WeatherType("晴朗 ☀️", "sunny", 18, 32),
    WeatherType("多云 ⛅", "cloudy", 16, 28),
    WeatherType("小雨 🌧️", "rainy", 12, 22),
    WeatherType("中雨 🌧️", "rainy", 10, 20),
    WeatherType("大雨 ⛈️", "stormy", 8, 18),
    WeatherType("雷阵雨 ⚡", "stormy", 10, 24),
    WeatherType("雾 🌫️", "foggy", 14, 26),
    WeatherType("大风 💨", "windy", 15, 27)
  ]

  const AqiLevels: seq<string> := ["优", "良", "轻度污染", "中度污染", "重度污染"]

  const Tips: map<string, string> := map[
    "sunny" := "天气晴朗，适合户外活动，注意防晒",
    "cloudy" := "多云天气，温度适中，适合出行",
    "rainy" := "雨天路滑，记得带伞，注意安全",
    "stormy" := "雷雨天气，避免外出，注意防雷",
    "foggy" := "雾天能见度低，出行注意安全",
    "windy" := "风大，注意防风保暖"
  ]

  const DefaultTip: string := "天气变化无常，请注意适时增减衣物"

  /** The random choices of one forecast. */
  datatype WeatherDraws = WeatherDraws(
    typeIndex: nat, minOffset: int, spread: int, humidity: int, wind: int, aqiIndex: nat)

  /** The ranges `random.choice` and `random.randint` draw from. */
  predicate DrawsInRange(d: WeatherDraws) {
    d.typeIndex < |WeatherTypes|
    && var t := WeatherTypes[d.typeIndex];
    var range := t.maxTemp - t.minTemp;
    && 0 <= d.minOffset <= range / 2
    && range / 3 <= d.spread <= range
    && 40 <= d.humidity <= 95
    && 1 <= d.wind <= 20
    && d.aqiIndex < |AqiLevels|
  }

  datatype Forecast = Forecast(
    date: Date, desc: string, todayMin: int, todayMax: int, humidity: int, wind: int, aqi: string, tip: string)

  /** `generate_weather_forecast`, before rendering. */
  function WeatherForecast(date: Date, d: WeatherDraws): (f: Forecast)
    requires DrawsInRange(d)
    ensures var t := WeatherTypes[d.typeIndex];
      && t.minTemp <= f.todayMin <= t.minTemp + (t.maxTemp - t.minTemp) / 2
      && f.todayMin <= f.todayMax <= t.maxTemp + (t.maxTemp - t.minTemp) / 2
      && f.desc == t.desc
    ensures 40 <= f.humidity <= 95 && 1 <= f.wind <= 20
    ensures f.aqi in AqiLevels
    ensures WeatherTypes[d.typeIndex].kind in Tips && f.tip == Tips[WeatherTypes[d.typeIndex].kind]
    ensures f.tip != DefaultTip
  {
    var t := WeatherTypes[d.typeIndex];
    var range := t.maxTemp - t.minTemp;
    var todayMin := t.minTemp + d.minOffset;
    var todayMax := todayMin + d.spread;
    var tip := if t.kind in Tips then Tips[t.kind] else DefaultTip;
    Forecast(date, t.desc, todayMin, todayMax, d.humidity, d.wind, AqiLevels[d.aqiIndex], tip)
  }

  /** The forecast text. */
  function RenderForecast(f: Forecast): string {
    "🌤️ " + ChineseDate(f.date) + " 天气预报\n"
    + "🌡️ 天气：" + f.desc + "\n"
    + "📊 温度：" + SignedDecimal(f.todayMin) + "°C ~ " + SignedDecimal(f.todayMax) + "°C\n"
    + "💧 湿度：" + SignedDecimal(f.humidity) + "%\n"
    + "💨 风力：" + SignedDecimal(f.wind) + "m/s\n"
    + "🌿 空气质量：" + f.aqi + "\n"
    + "💡 温馨提示：" + f.tip
  }

  /** Python `str(n)` for any integer. */
  function SignedDecimal(n: int): string {
    if n < 0 then "-" + ToDecimal(-n) else ToDecimal(n)
  }

  // ---------------------------------------------------------- push selection

  datatype ServiceAccount = ServiceAccount(id: nat, name: string, isActive: bool)

  /** One row of the subscriber join: user, their timezone and their subscription row. */
  datatype SubscriberRow = SubscriberRow(
    userId: nat, bipupuId: string, timezone: Option<string>,
    serviceAccountId: nat, isEnabled: bool, pushTime: Option<nat>)

  const DefaultZone: string := "Asia/Shanghai"
  const PushTolerance: int := 900

  /** The first active service account with the name, as the query's `.first()`. */
  function ActiveService(services: seq<ServiceAccount>, name: string): (r: Option<ServiceAccount>)
    ensures r.Some? ==> r.value in services && r.value.name == name && r.value.isActive
    ensures r.None? <==> forall i :: 0 <= i < |services| ==> !(services[i].name == name && services[i].isActive)
  {
    if services == [] then None
    else if services[0].name == name && services[0].isActive then Some(services[0])
    else ActiveService(services[1..], name)
  }

  /** `user_timezone or 'Asia/Shanghai'`: a missing or empty zone name means the default. */
  function ZoneOf(tz: Option<string>): string {
    if tz.Some? && tz.value != "" then tz.value else DefaultZone
  }

  function Abs(x: int): nat { if x < 0 then -x else x }

  /** The rows the query returns: the service's enabled subscriptions with a push time. */
  predicate Considered(row: SubscriberRow, serviceId: nat) {
    row.serviceAccountId == serviceId && row.isEnabled && row.pushTime.Some?
  }

  /**
   * A considered row is selected when its zone is known and its push time,
   * taken on the target date in that zone and converted to UTC, lies within
   * 900 seconds of the target time (both in seconds after that date's UTC
   * midnight).
   */
  predicate Due(row: SubscriberRow, serviceId: nat, target: int, offsetOf: string -> Option<int>) {
    Considered(row, serviceId)
    && offsetOf(ZoneOf(row.timezone)).Some?
    && Abs(row.pushTime.value - offsetOf(ZoneOf(row.timezone)).value - target) <= PushTolerance
  }

  function SelectDue(rows: seq<SubscriberRow>, serviceId: nat, target: int, offsetOf: string -> Option<int>)
    : (r: seq<(nat, string)>)
    ensures |r| <= |rows|
    ensures forall p :: p in r <==>
      exists i :: 0 <= i < |rows| && Due(rows[i], serviceId, target, offsetOf) && p == (rows[i].userId, rows[i].bipupuId)
  {
    if rows == [] then []
    else
      var rest := SelectDue(rows[1..], serviceId, target, offsetOf);
      assert forall i :: 1 <= i < |rows| ==> rows[i] == rows[1..][i - 1];
      if Due(rows[0], serviceId, target, offsetOf) then [(rows[0].userId, rows[0].bipupuId)] + rest else rest
  }

  /** `get_users_for_push_time`: the due subscribers of the named active service. */
  function UsersForPushTime(
    services: seq<ServiceAccount>, rows: seq<SubscriberRow>, serviceName: string,
    targetHour: nat, targetMinute: nat, offsetOf: string -> Option<int>): (r: seq<(nat, string)>)
    ensures ActiveService(services, serviceName).None? ==> r == []
    ensures ActiveService(services, serviceName).Some? ==>
      var svc := ActiveService(services, serviceName).value;
      var target := targetHour * 3600 + targetMinute * 60;
      forall p :: p in r <==>
        exists i :: 0 <= i < |rows| && Due(rows[i], svc.id, target, offsetOf) && p == (rows[i].userId, rows[i].bipupuId)
  {
    match ActiveService(services, serviceName)
    case None => []
    case Some(svc) => SelectDue(rows, svc.id, targetHour * 3600 + targetMinute * 60, offsetOf)
  }

  /** A disabled subscription, or one without a push time, is never selected. */
  lemma OnlyEnabledTimedRowsSelected(
    services: seq<ServiceAccount>, rows: seq<SubscriberRow>, serviceName: string,
    targetHour: nat, targetMinute: nat, offsetOf: string -> Option<int>, row: SubscriberRow)
    requires row in rows && (!row.isEnabled || row.pushTime.None?)
    requires forall j :: 0 <= j < |rows| && rows[j].userId == row.userId ==> rows[j] == row
    ensures (row.userId, row.bipupuId) !in UsersForPushTime(services, rows, serviceName, targetHour, targetMinute, offsetOf)
  {
  }

  // --------------------------------------------------------- success count

  /** The outcome of one send coroutine under `gather(..., return_exceptions=True)`. */
  datatype SendOutcome = ReturnedTrue | ReturnedFalse | Raised

  function CountTrue(results: seq<SendOutcome>): (n: nat)
    ensures n <= |results|
    ensures n == 0 <==> forall o :: o in results ==> o != ReturnedTrue
    ensures n == |results| <==> forall o :: o in results ==> o == ReturnedTrue
  {
    if results == [] then 0
    else
      assert results[0] in results;
      assert forall o :: o in results[1..] ==> o in results;
      assert forall o :: o in results ==> o == results[0] || o in results[1..];
      (if results[0] == ReturnedTrue then 1 else 0) + CountTrue(results[1..])
  }

  lemma CountTrueSnoc(results: seq<SendOutcome>, x: SendOutcome)
    ensures CountTrue(results + [x]) == CountTrue(results) + (if x == ReturnedTrue then 1 else 0)
  {
    if results != [] {
      assert (results + [x])[1..] == results[1..] + [x];
      CountTrueSnoc(results[1..], x);
    }
  }

  /** The counting loop of the Celery push task: one per result that `is True`. */
  method TallySuccesses(results: seq<SendOutcome>) returns (sent: nat)
    ensures sent == CountTrue(results)
    ensures sent <= |results|
    ensures sent == |results| <==> forall i :: 0 <= i < |results| ==> results[i] == ReturnedTrue
  {
    sent := 0;
    var i := 0;
    while i < |results|
      invariant 0 <= i <= |results|
      invariant sent == CountTrue(results[..i])
      invariant sent <= i
      invariant sent == i <==> forall j :: 0 <= j < i ==> results[j] == ReturnedTrue
    {
      CountTrueSnoc(results[..i], results[i]);
      assert results[..i + 1] == results[..i] + [results[i]];
      if results[i] == ReturnedTrue {
        sent := sent + 1;
      }
      i := i + 1;
    }
    assert results[..i] == results;
  }

  /** The targets whose user row exists: one send is scheduled for each. */
  function FoundTargets(targets: seq<(nat, string)>, users: set<nat>): (r: seq<(nat, string)>)
    ensures |r| <= |targets|
    ensures forall p :: p in r <==> p in targets && p.0 in users
  {
    if targets == [] then []
    else
      var rest := FoundTargets(targets[1..], users);
      if targets[0].0 in users then [targets[0]] + rest else rest
  }

  /**
   * `fortune_task` and `weather_task`: the targets are given or computed;
   * an empty target list sends nothing; otherwise one send per existing user,
   * whose outcomes are `outcomes`, and the count of sends that returned True.
   */
  function PushTaskSentCount(
    given: Option<seq<(nat, string)>>, computed: seq<(nat, string)>, users: set<nat>, outcomes: seq<SendOutcome>)
    : (sent: nat)
    requires |outcomes| == |FoundTargets(if given.Some? then given.value else computed, users)|
    ensures var targets := if given.Some? then given.value else computed;
      sent <= |FoundTargets(targets, users)| <= |targets|
    ensures (if given.Some? then given.value else computed) == [] ==> sent == 0
    ensures sent == CountTrue(outcomes)
  {
    var targets := if given.Some? then given.value else computed;
    if targets == [] then 0 else CountTrue(outcomes)
  }
}
