/**
 * The subscription dispatcher (app/services/subscriptions/manager.py): for
 * each user subscription, find the handler registered for its category,
 * check the delivery window, ask the handler for the message data and build
 * a notification message from it.
 *
 * What a handler generates (it reads providers and the database) is an
 * input: a function from the subscription to its outcome.  The current
 * local time of day is an input too.
 */
module SubscriptionManager {
  import opened Outcomes
  import opened Json
  import NotificationWindow

  datatype HandlerKind = WeatherHandler | FortuneHandler

  /** `_register_handlers`. */
  const Handlers: map<string, HandlerKind> := map["weather" := WeatherHandler, "fortune" := FortuneHandler]

  /** The system sender every dispatched message carries. */
  const SystemSenderId: nat := 1

  datatype UserSubscription = UserSubscription(
    id: nat, userId: nat, category: string, windowStart: string, windowEnd: string)

  /** What `generate_message_data` gave: an exception, or a dict (None counts as the empty dict). */
  datatype HandlerOutcome = HandlerRaised | MessageData(data: Object)

  /** A NOTIFICATION message in UNREAD status, from the system sender. */
  datatype NotificationMessage = NotificationMessage(
    title: Json, content: Json, pattern: Object, category: Json, senderId: nat, receiverId: nat)

  /** The pattern of a dispatched message: the handler's, with the two source keys defaulted. */
  function StampPattern(p: Object, category: string): (r: Object)
    ensures r.Keys == p.Keys + {"source_type", "subscription_type"}
    ensures r["source_type"] == (if "source_type" in p then p["source_type"] else JStr("subscription"))
    ensures r["subscription_type"] == (if "subscription_type" in p then p["subscription_type"] else JStr(category))
    ensures forall k :: k in p ==> r[k] == p[k]
  {
    SetDefault(SetDefault(p, "source_type", JStr("subscription")), "subscription_type", JStr(category))
  }

  /**
   * The body of the loop for one subscription: None where the source
   * `continue`s (no handler, outside the window, no data) or where an
   * exception is caught (the handler raised, the pattern is not a dict,
   * `title` or `content` is missing).
   */
  function Dispatch(sub: UserSubscription, now: nat, generate: UserSubscription -> HandlerOutcome)
    : (r: Option<NotificationMessage>)
    requires now < NotificationWindow.MicrosPerDay
    ensures r.Some? ==> sub.category in Handlers
    ensures r.Some? ==> NotificationWindow.IsWithinWindow(now, sub.windowStart, sub.windowEnd)
    ensures r.Some? ==> generate(sub).MessageData? && generate(sub).data != map[]
    ensures r.Some? ==> r.value.senderId == SystemSenderId && r.value.receiverId == sub.userId
    ensures r.Some? ==> "source_type" in r.value.pattern && "subscription_type" in r.value.pattern
    ensures r.Some? ==>
      r.value.category == (if "category" in generate(sub).data then generate(sub).data["category"] else JStr(sub.category))
  {
    if sub.category !in Handlers then None
    else if !NotificationWindow.IsWithinWindow(now, sub.windowStart, sub.windowEnd) then None
    else match generate(sub)
      case HandlerRaised => None
      case MessageData(d) =>
        if d == map[] then None
        else
          var pattern := if "pattern" in d then d["pattern"] else JObj(map[]);
          if !pattern.JObj? || "title" !in d || "content" !in d then None
          else
            var category := if "category" in d then d["category"] else JStr(sub.category);
            Some(NotificationMessage(d["title"], d["content"], StampPattern(pattern.fields, sub.category),
              category, SystemSenderId, sub.userId))
  }

  /** The messages built from a run of subscriptions, in order. */
  function DispatchAll(subs: seq<UserSubscription>, now: nat, generate: UserSubscription -> HandlerOutcome)
    : (msgs: seq<NotificationMessage>)
    requires now < NotificationWindow.MicrosPerDay
    ensures |msgs| <= |subs|
    ensures forall i :: 0 <= i < |subs| && Dispatch(subs[i], now, generate).Some? ==>
      Dispatch(subs[i], now, generate).value in msgs
    ensures forall m :: m in msgs ==>
      exists i :: 0 <= i < |subs| && Dispatch(subs[i], now, generate) == Some(m)
  {
    if subs == [] then []
    else
      var rest := DispatchAll(subs[1..], now, generate);
      assert forall i :: 1 <= i < |subs| ==> subs[i] == subs[1..][i - 1];
      match Dispatch(subs[0], now, generate)
      case Some(m) => [m] + rest
      case None => rest
  }

  datatype ProcessOutcome = ProcessOutcome(stored: seq<NotificationMessage>, createdCount: nat)

  /**
   * `process_subscriptions`: the count of messages added to the session.
   * When the commit fails the session is rolled back, so nothing is stored,
   * yet the count is still returned.
   */
  function ProcessSubscriptions(
    subs: seq<UserSubscription>, now: nat, generate: UserSubscription -> HandlerOutcome, commitSucceeds: bool)
    : (r: ProcessOutcome)
    requires now < NotificationWindow.MicrosPerDay
    ensures r.createdCount == |DispatchAll(subs, now, generate)| <= |subs|
    ensures commitSucceeds ==> r.stored == DispatchAll(subs, now, generate)
    ensures !commitSucceeds ==> r.stored == []
  {
    var msgs := DispatchAll(subs, now, generate);
    ProcessOutcome(if commitSucceeds then msgs else [], |msgs|)
  }

  /** A subscription whose category has no registered handler never yields a message. */
  lemma UnhandledCategoryIsSkipped(sub: UserSubscription, now: nat, generate: UserSubscription -> HandlerOutcome)
    requires now < NotificationWindow.MicrosPerDay
    requires sub.category != "weather" && sub.category != "fortune"
    ensures Dispatch(sub, now, generate).None?
  {
  }

  /** Values the handler already put in the pattern survive dispatch unchanged. */
  lemma HandlerPatternPreserved(sub: UserSubscription, now: nat, generate: UserSubscription -> HandlerOutcome, key: string)
    requires now < NotificationWindow.MicrosPerDay
    requires Dispatch(sub, now, generate).Some?
    requires generate(sub).MessageData? && "pattern" in generate(sub).data
    requires generate(sub).data["pattern"].JObj? && key in generate(sub).data["pattern"].fields
    ensures Dispatch(sub, now, generate).value.pattern[key] == generate(sub).data["pattern"].fields[key]
  {
  }
}
