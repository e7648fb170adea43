/**
 The Watcher's data model: launches, alerts, Alert Records and the policy.

 Instants and durations are whole seconds (`int`); instants count from the
 Unix epoch in UTC.
 */
module Domain {

  /** The conventional optional value; `None` also stands for a raised exception
      in the functions that parse. */
  datatype Option<+T> = None | Some(value: T) {
    predicate IsFailure() {
      None?
    }

    function PropagateFailure<U>(): Option<U>
      requires None?
    {
      None
    }

    function Extract(): T
      requires Some?
    {
      value
    }
  }

  datatype TimingPrecision = Precise | Hour | Imprecise | UnknownPrecision

  datatype LaunchStatus = Go | NoGo | Ended | UnknownStatus

  datatype AlertKind = LaunchSoon | LaunchImminent | HourPrecision | Correction

  datatype CorrectionReason = NoLongerGo | TimeChanged | TimingNowImprecise

  /** The correction-relevant snapshot of a launch. */
  datatype LaunchFacts = LaunchFacts(
    launchTime: Option<int>,
    precision: TimingPrecision,
    status: LaunchStatus)

  datatype Launch = Launch(
    sourceName: string,
    sourceLaunchId: string,
    name: string,
    provider: string,
    launchTime: Option<int>,
    precision: TimingPrecision,
    status: LaunchStatus,
    missionName: Option<string>,
    missionDescription: Option<string>,
    padName: Option<string>)
  {
    function Key(): string {
      sourceName + ":" + sourceLaunchId
    }

    function Facts(): LaunchFacts {
      LaunchFacts(launchTime, precision, status)
    }
  }

  datatype Alert = Alert(
    kind: AlertKind,
    launch: Launch,
    createdAt: int,
    matchedTerms: seq<string>,
    reason: Option<CorrectionReason>,
    previous: Option<LaunchFacts>)
  {
    /** What an Alert Record remembers of this alert. */
    function Entry(): SentAlert {
      SentAlert(kind, createdAt, reason)
    }
  }

  datatype SentAlert = SentAlert(
    kind: AlertKind,
    createdAt: int,
    reason: Option<CorrectionReason>)

  datatype AlertRecord = AlertRecord(
    key: string,
    sourceName: string,
    sourceLaunchId: string,
    launchName: string,
    matchedTerms: seq<string>,
    lastFacts: LaunchFacts,
    sentAlerts: seq<SentAlert>,
    firstAlertAt: int,
    lastAlertAt: int)

  datatype AlertPolicy = AlertPolicy(
    launchSoon: int,
    launchImminent: int,
    correctionTimeShift: int,
    scheduleLookahead: int,
    retention: int)

  datatype Recipient = Recipient(name: string, userKeyEnv: string)

  /** The behaviour configuration, in the units of the configuration file. */
  datatype Config = Config(
    launchProvider: string,
    includeTerms: seq<string>,
    recipients: seq<Recipient>,
    launchSoonMinutes: int,
    launchImminentMinutes: int,
    correctionTimeShiftMinutes: int,
    scheduleLookaheadHours: int,
    pollIntervalMinutes: int,
    retentionDays: int)
  {
    function Policy(): AlertPolicy {
      AlertPolicy(
        60 * launchSoonMinutes,
        60 * launchImminentMinutes,
        60 * correctionTimeShiftMinutes,
        3600 * scheduleLookaheadHours,
        86400 * retentionDays)
    }

    /** What loading the configuration file guarantees. */
    ghost predicate Valid() {
      && includeTerms != []
      && recipients != []
      && (forall i, j :: 0 <= i < j < |recipients| ==> recipients[i].name != recipients[j].name)
      && 0 < launchImminentMinutes < launchSoonMinutes
      && 0 < correctionTimeShiftMinutes
      && 0 < scheduleLookaheadHours
      && 0 < pollIntervalMinutes
      && 0 < retentionDays
    }
  }

  // ----- enumeration names, as written to and read from the records file -----

  function PrecisionName(value: TimingPrecision): string {
    match value
    case Precise => "precise"
    case Hour => "hour"
    case Imprecise => "imprecise"
    case UnknownPrecision => "unknown"
  }

  function StatusName(value: LaunchStatus): string {
    match value
    case Go => "go"
    case NoGo => "no_go"
    case Ended => "ended"
    case UnknownStatus => "unknown"
  }

  function KindName(value: AlertKind): string {
    match value
    case LaunchSoon => "launch_soon"
    case LaunchImminent => "launch_imminent"
    case HourPrecision => "hour_precision"
    case Correction => "correction"
  }

  function ReasonName(value: CorrectionReason): string {
    match value
    case NoLongerGo => "no_go"
    case TimeChanged => "time_changed"
    case TimingNowImprecise => "timing_now_imprecise"
  }

  function PrecisionNamed(name: string): (r: Option<TimingPrecision>)
    ensures forall p :: r == Some(p) <==> name == PrecisionName(p)
    ensures (r == Some(Precise) <==> name == "precise") && (r == Some(Hour) <==> name == "hour")
    ensures (r == Some(Imprecise) <==> name == "imprecise") && (r == Some(UnknownPrecision) <==> name == "unknown")
  {
    if name == "precise" then Some(Precise)
    else if name == "hour" then Some(Hour)
    else if name == "imprecise" then Some(Imprecise)
    else if name == "unknown" then Some(UnknownPrecision)
    else None
  }

  function StatusNamed(name: string): (r: Option<LaunchStatus>)
    ensures forall s :: r == Some(s) <==> name == StatusName(s)
    ensures (r == Some(Go) <==> name == "go") && (r == Some(NoGo) <==> name == "no_go")
    ensures (r == Some(Ended) <==> name == "ended") && (r == Some(UnknownStatus) <==> name == "unknown")
  {
    if name == "go" then Some(Go)
    else if name == "no_go" then Some(NoGo)
    else if name == "ended" then Some(Ended)
    else if name == "unknown" then Some(UnknownStatus)
    else None
  }

  function KindNamed(name: string): (r: Option<AlertKind>)
    ensures forall k :: r == Some(k) <==> name == KindName(k)
    ensures r == Some(LaunchSoon) <==> name == "launch_soon"
    ensures r == Some(LaunchImminent) <==> name == "launch_imminent"
    ensures r == Some(HourPrecision) <==> name == "hour_precision"
    ensures r == Some(Correction) <==> name == "correction"
  {
    if name == "launch_soon" then Some(LaunchSoon)
    else if name == "launch_imminent" then Some(LaunchImminent)
    else if name == "hour_precision" then Some(HourPrecision)
    else if name == "correction" then Some(Correction)
    else None
  }

  function ReasonNamed(name: string): (r: Option<CorrectionReason>)
    ensures forall c :: r == Some(c) <==> name == ReasonName(c)
    ensures (r == Some(NoLongerGo) <==> name == "no_go") && (r == Some(TimeChanged) <==> name == "time_changed")
    ensures r == Some(TimingNowImprecise) <==> name == "timing_now_imprecise"
  {
    if name == "no_go" then Some(NoLongerGo)
    else if name == "time_changed" then Some(TimeChanged)
    else if name == "timing_now_imprecise" then Some(TimingNowImprecise)
    else None
  }
}
