/**
 What a message shows of its alert, in the words of the message.
 */
module MessageLaws {
  import opened Domain
  import opened Formatting
  import opened TimeUtils
  import opened TimeLaws

  function TimeShown(time: Option<int>, zone: Zone): string {
    if time.Some? then zone.display(time.value) else "unknown time"
  }

  /** The launch time that was told before, if there was one. */
  function PreviousTime(alert: Alert): Option<int> {
    if alert.previous.Some? then alert.previous.value.launchTime else None
  }

  /** The decimal of `n`: digits, no leading zero, of this value. */
  predicate IsDecimal(s: string, n: nat) {
    && s != "" && (forall i :: 0 <= i < |s| ==> '0' <= s[i] <= '9')
    && (|s| > 1 ==> s[0] != '0') && DigitsValue(s) == n
  }

  lemma {:induction false} NoLeadingZero(n: nat)
    ensures n > 0 ==> Padded(n, 0) != "" && Padded(n, 0)[0] != '0'
  {
    if n > 0 {
      NoLeadingZero(n / 10);
      assert n / 10 == 0 ==> Padded(n, 0) == "" + [DigitChar(n)];
    }
  }

  lemma DecimalIs(n: nat)
    ensures IsDecimal(Decimal(n), n)
  {
    PaddedDigits(n, 1);
    PaddedValue(n, 1);
    NoLeadingZero(n / 10);
  }

  /** Whole minutes from `from` to `to`; none if that is in the past. */
  function MinutesBetween(from: int, to: int): nat {
    if to < from then 0 else (to - from) / 60
  }

  /** A text about a time and the minutes left until then. */
  ghost predicate Counts(text: string, before: string, time: string, minutes: nat, after: string) {
    exists decimal :: IsDecimal(decimal, minutes) && text == before + time + " (~" + decimal + after
  }

  // ----- the words of each message -----

  predicate SaysNoGo(m: Message, name: string, was: string) {
    && m.alertKind == "correction:no_go"
    && m.title == "Launch no longer go: " + name
    && m.body == name + " is no longer go for launch. Was expected at " + was + "."
  }

  predicate SaysTimeChanged(m: Message, name: string, now: string, was: string) {
    && m.alertKind == "correction:time_changed"
    && m.title == "Launch time changed: " + name
    && m.body == "New estimated liftoff: " + now + ". Was " + was + "."
  }

  predicate SaysImprecise(m: Message, name: string, was: string) {
    && m.alertKind == "correction:timing_now_imprecise"
    && m.title == "Launch timing now uncertain: " + name
    && m.body == "Launch timing is no longer precise. Last estimate was " + was + "."
  }

  ghost predicate SaysSoon(m: Message, name: string, time: string, minutes: nat) {
    && m.alertKind == "launch_soon"
    && m.title == "Launch soon: " + name
    && Counts(m.body, "Estimated liftoff: ", time, minutes, " min).")
  }

  ghost predicate SaysImminent(m: Message, name: string, time: string, minutes: nat) {
    && m.alertKind == "launch_imminent"
    && m.title == "Launch imminent: " + name
    && Counts(m.body, "Liftoff expected at ", time, minutes, " min). Open the live feed now.")
  }

  predicate SaysThisHour(m: Message, name: string, hour: string) {
    && m.alertKind == "hour_precision"
    && m.title == "Possible launch this hour: " + name
    && m.body == "Possible launch this hour. Timing is only precise to the hour; estimated window: " + hour + "."
  }

  // ----- what each message tells -----

  predicate TellsCorrection(m: Message, alert: Alert, zone: Zone) {
    var name, was := alert.launch.name, TimeShown(PreviousTime(alert), zone);
    match alert.reason
    case None => false
    case Some(NoLongerGo) => SaysNoGo(m, name, was)
    case Some(TimeChanged) => SaysTimeChanged(m, name, TimeShown(alert.launch.launchTime, zone), was)
    case Some(TimingNowImprecise) => SaysImprecise(m, name, was)
  }

  ghost predicate TellsCountdown(m: Message, alert: Alert, zone: Zone) {
    && alert.launch.launchTime.Some?
    && var name, time := alert.launch.name, alert.launch.launchTime.value;
       match alert.kind
       case LaunchSoon => SaysSoon(m, name, zone.display(time), MinutesBetween(alert.createdAt, time))
       case LaunchImminent => SaysImminent(m, name, zone.display(time), MinutesBetween(alert.createdAt, time))
       case HourPrecision => SaysThisHour(m, name, zone.displayHour(time))
       case Correction => false
  }

  /** What the message shows: the launch, what it is about, and the times. */
  ghost predicate TellsAlert(m: Message, alert: Alert, zone: Zone) {
    && m.launchKey == alert.launch.sourceName + ":" + alert.launch.sourceLaunchId
    && m.launchName == alert.launch.name
    && if alert.kind == Correction then TellsCorrection(m, alert, zone) else TellsCountdown(m, alert, zone)
  }

  /** Exactly the alerts that can be formatted: a correction with a reason, a countdown
      alert with a launch time. */
  lemma FormatsIff(alert: Alert, zone: Zone)
    ensures FormatAlert(alert, zone).Some?
      <==> if alert.kind == Correction then alert.reason.Some? else alert.launch.launchTime.Some?
  {
  }

  lemma NoGoTells(alert: Alert, zone: Zone, m: Message, name: string, was: string)
    requires alert.kind == Correction && FormatAlert(alert, zone) == Some(m) && alert.reason == Some(NoLongerGo)
    requires name == alert.launch.name && was == TimeShown(PreviousTime(alert), zone)
    ensures SaysNoGo(m, name, was)
  {
  }

  lemma TimeChangedTells(alert: Alert, zone: Zone, m: Message, name: string, now: string, was: string)
    requires alert.kind == Correction && FormatAlert(alert, zone) == Some(m) && alert.reason == Some(TimeChanged)
    requires name == alert.launch.name && was == TimeShown(PreviousTime(alert), zone)
    requires now == TimeShown(alert.launch.launchTime, zone)
    ensures SaysTimeChanged(m, name, now, was)
  {
  }

  lemma ImpreciseTells(alert: Alert, zone: Zone, m: Message, name: string, was: string)
    requires alert.kind == Correction && FormatAlert(alert, zone) == Some(m)
    requires alert.reason == Some(TimingNowImprecise)
    requires name == alert.launch.name && was == TimeShown(PreviousTime(alert), zone)
    ensures SaysImprecise(m, name, was)
  {
  }

  lemma SoonTells(alert: Alert, zone: Zone, m: Message, name: string, time: int, minutes: nat)
    requires alert.kind == LaunchSoon && FormatAlert(alert, zone) == Some(m)
    requires alert.launch.launchTime == Some(time) && name == alert.launch.name
    requires minutes == MinutesBetween(alert.createdAt, time)
    ensures SaysSoon(m, name, zone.display(time), minutes)
  {
    DecimalIs(minutes);
    assert MinutesAway(alert) == Some(minutes);
  }

  lemma ImminentTells(alert: Alert, zone: Zone, m: Message, name: string, time: int, minutes: nat)
    requires alert.kind == LaunchImminent && FormatAlert(alert, zone) == Some(m)
    requires alert.launch.launchTime == Some(time) && name == alert.launch.name
    requires minutes == MinutesBetween(alert.createdAt, time)
    ensures SaysImminent(m, name, zone.display(time), minutes)
  {
    DecimalIs(minutes);
    assert MinutesAway(alert) == Some(minutes);
  }

  lemma HourTells(alert: Alert, zone: Zone, m: Message, name: string, time: int)
    requires alert.kind == HourPrecision && FormatAlert(alert, zone) == Some(m)
    requires alert.launch.launchTime == Some(time) && name == alert.launch.name
    ensures SaysThisHour(m, name, zone.displayHour(time))
  {
  }

  lemma LaunchNamed(alert: Alert, zone: Zone, m: Message)
    requires FormatAlert(alert, zone) == Some(m)
    ensures m.launchKey == alert.launch.sourceName + ":" + alert.launch.sourceLaunchId
    ensures m.launchName == alert.launch.name
  {
  }

  /** The message of any alert tells it, in any zone. */
  lemma MessageTellsAlert(alert: Alert, zone: Zone, m: Message)
    requires FormatAlert(alert, zone) == Some(m)
    ensures TellsAlert(m, alert, zone)
  {
    FormatsIff(alert, zone);
    LaunchNamed(alert, zone, m);
    var name := alert.launch.name;
    var was, now := TimeShown(PreviousTime(alert), zone), TimeShown(alert.launch.launchTime, zone);
    if alert.kind == Correction {
      match alert.reason.value
      case NoLongerGo => NoGoTells(alert, zone, m, name, was);
      case TimeChanged => TimeChangedTells(alert, zone, m, name, now, was);
      case TimingNowImprecise => ImpreciseTells(alert, zone, m, name, was);
    } else {
      CountdownTells(alert, zone, m, name, alert.launch.launchTime.value);
    }
  }

  lemma CountdownTells(alert: Alert, zone: Zone, m: Message, name: string, time: int)
    requires alert.kind != Correction && FormatAlert(alert, zone) == Some(m)
    requires alert.launch.launchTime == Some(time) && name == alert.launch.name
    ensures TellsCountdown(m, alert, zone)
  {
    match alert.kind
    case LaunchSoon => SoonTells(alert, zone, m, name, time, MinutesBetween(alert.createdAt, time));
    case LaunchImminent => ImminentTells(alert, zone, m, name, time, MinutesBetween(alert.createdAt, time));
    case HourPrecision => HourTells(alert, zone, m, name, time);
  }
}
