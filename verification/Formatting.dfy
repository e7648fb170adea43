/**
 Message formatting: alerts become channel-independent messages.

 Rendering an instant in the display time zone is a parameter. `None` stands
 for the exception of a formatter that is handed an alert it cannot format.
 */
module Formatting {
  import opened Domain
  import opened KeyOrder
  import opened Core
  import TimeUtils

  datatype Message = Message(title: string, body: string, alertKind: string, launchKey: string, launchName: string)

  /** The display time zone. */
  datatype Zone = Zone(display: int -> string, displayHour: int -> string)

  function Display(time: Option<int>, zone: Zone): string {
    match time
    case None => "unknown time"
    case Some(t) => zone.display(t)
  }

  function RequiredLaunchTime(alert: Alert): Option<int> {
    alert.launch.launchTime
  }

  /** Whole minutes to launch when the alert was created, clamped at zero. */
  function MinutesAway(alert: Alert): Option<nat> {
    var time :- RequiredLaunchTime(alert);
    var minutes := (time - alert.createdAt) / 60;
    Some(if minutes < 0 then 0 else minutes)
  }

  function Decimal(n: nat): string {
    TimeUtils.Padded(n, 1)
  }

  function FormatCorrection(alert: Alert, zone: Zone): Option<Message> {
    var name := alert.launch.name;
    var was := Display(if alert.previous.Some? then alert.previous.value.launchTime else None, zone);
    var reason :- alert.reason;
    var wording :=
      match reason
      case NoLongerGo =>
        ("Launch no longer go: " + name, name + " is no longer go for launch. Was expected at " + was + ".")
      case TimeChanged =>
        ("Launch time changed: " + name,
         "New estimated liftoff: " + Display(alert.launch.launchTime, zone) + ". Was " + was + ".")
      case TimingNowImprecise =>
        ("Launch timing now uncertain: " + name,
         "Launch timing is no longer precise. Last estimate was " + was + ".");
    Some(Message(wording.0, wording.1, "correction:" + ReasonName(reason), alert.launch.Key(), name))
  }

  function FormatAlert(alert: Alert, zone: Zone): Option<Message> {
    var name := alert.launch.name;
    var when := Display(alert.launch.launchTime, zone);
    match alert.kind
    case LaunchSoon =>
      var minutes :- MinutesAway(alert);
      Some(Message("Launch soon: " + name,
                   "Estimated liftoff: " + when + " (~" + Decimal(minutes) + " min).",
                   KindName(alert.kind), alert.launch.Key(), name))
    case LaunchImminent =>
      var minutes :- MinutesAway(alert);
      Some(Message("Launch imminent: " + name,
                   "Liftoff expected at " + when + " (~" + Decimal(minutes) + " min). Open the live feed now.",
                   KindName(alert.kind), alert.launch.Key(), name))
    case HourPrecision =>
      var time :- RequiredLaunchTime(alert);
      Some(Message("Possible launch this hour: " + name,
                   "Possible launch this hour. Timing is only precise to the hour; estimated window: "
                   + zone.displayHour(time) + ".",
                   KindName(alert.kind), alert.launch.Key(), name))
    case Correction =>
      FormatCorrection(alert, zone)
  }

  // ----- the formatter is total on what the core emits -----

  /** The alert has what its kind needs, and its countdown is in the window that
      the configuration, given in minutes, promises. */
  predicate Formattable(alert: Alert, config: Config) {
    match alert.kind
    case LaunchSoon =>
      && MinutesAway(alert).Some?
      && config.launchImminentMinutes <= (alert.launch.launchTime.value - alert.createdAt) / 60
        == MinutesAway(alert).value <= config.launchSoonMinutes
    case LaunchImminent =>
      && MinutesAway(alert).Some?
      && 0 <= (alert.launch.launchTime.value - alert.createdAt) / 60
        == MinutesAway(alert).value <= config.launchImminentMinutes
    case HourPrecision => alert.launch.launchTime.Some?
    case Correction => alert.reason.Some?
  }

  lemma DecidedIsFormattable(launch: Launch, record: Option<AlertRecord>, terms: seq<string>, config: Config, now: int)
    requires 0 < config.launchImminentMinutes
    ensures var alert := DecideForLaunch(launch, record, terms, config.Policy(), now);
      alert.Some? ==> Formattable(alert.value, config)
  {
    var alert := DecideForLaunch(launch, record, terms, config.Policy(), now);
    if alert.Some? && launch.launchTime.Some? {
      var left := launch.launchTime.value - now;
      assert left > 60 * config.launchImminentMinutes ==> left / 60 >= config.launchImminentMinutes;
      assert left <= 60 * config.launchImminentMinutes ==> left / 60 <= config.launchImminentMinutes;
      assert left <= 60 * config.launchSoonMinutes ==> left / 60 <= config.launchSoonMinutes;
    }
  }

  /** Every alert of a cycle can be formatted, and its minutes are displayed
      without the clamp at zero: between the imminent and the soon threshold for
      Launch Soon, at most the imminent threshold for Launch Imminent. */
  lemma {:induction false} CycleAlertsAreFormattable(m: RecordMap, feed: seq<Launch>, config: Config,
                                                     terms: seq<string>, provider: string, now: int)
    requires 0 < config.launchImminentMinutes
    ensures forall alert <- FoldFeed(m, feed, Settings(provider, terms, config.Policy()), now).alerts ::
      Formattable(alert, config)
  {
    var settings := Settings(provider, terms, config.Policy());
    if feed != [] {
      var init, launch := feed[..|feed| - 1], feed[|feed| - 1];
      CycleAlertsAreFormattable(m, init, config, terms, provider, now);
      var before := FoldFeed(m, init, settings, now);
      DecidedIsFormattable(launch, Lookup(before.records, launch.Key()), Terms(launch, settings), config, now);
    }
  }

  /** A formattable alert is formatted; the message names its launch and, by its
      label, its kind and reason. */
  lemma FormattableIsFormatted(alert: Alert, config: Config, zone: Zone)
    requires Formattable(alert, config)
    ensures FormatAlert(alert, zone).Some?
    ensures FormatAlert(alert, zone).value.launchKey == alert.launch.Key()
    ensures FormatAlert(alert, zone).value.alertKind == Label(alert)
  {
  }

  function Label(alert: Alert): string {
    if alert.kind == Correction && alert.reason.Some? then "correction:" + ReasonName(alert.reason.value)
    else KindName(alert.kind)
  }
}
