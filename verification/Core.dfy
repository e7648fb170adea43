/**
 The decision core: what one cycle decides for a feed of launches against the
 Alert Records of earlier cycles.

 The functions give the decision per launch (`DecideForLaunch`), the rewriting
 of one record (`UpdatedRecord`), and the fold over a feed (`FoldFeed`); the
 method `DecideCycle` is the imperative cycle, proved against the fold.
 */
module Core {
  import opened Domain
  import opened KeyOrder
  import opened Relevance

  /** An hour-precision launch time marks a window of this many seconds. */
  const HOUR_WINDOW := 3600

  predicate Sent(record: Option<AlertRecord>, kind: AlertKind) {
    record.Some? && exists sent <- record.value.sentAlerts :: sent.kind == kind
  }

  predicate Timed(precision: TimingPrecision) {
    precision == Precise || precision == Hour
  }

  function Gap(a: int, b: int): int {
    if a >= b then a - b else b - a
  }

  function MakeCountdown(launch: Launch, kind: AlertKind, matchedTerms: seq<string>, now: int): Alert {
    Alert(kind, launch, now, matchedTerms, None, None)
  }

  function MakeCorrection(launch: Launch, record: AlertRecord, reason: CorrectionReason,
                          matchedTerms: seq<string>, now: int): Alert {
    Alert(Correction, launch, now, matchedTerms, Some(reason), Some(record.lastFacts))
  }

  function DecideForLaunch(launch: Launch, record: Option<AlertRecord>, matchedTerms: seq<string>,
                           policy: AlertPolicy, now: int): Option<Alert> {
    if launch.status == Ended || launch.status == UnknownStatus then
      None
    else if launch.status == NoGo then
      if record.None? || record.value.lastFacts.status == NoGo then None
      else Some(MakeCorrection(launch, record.value, NoLongerGo, matchedTerms, now))
    else if record.Some? && Timed(record.value.lastFacts.precision) && !Timed(launch.precision) then
      Some(MakeCorrection(launch, record.value, TimingNowImprecise, matchedTerms, now))
    else if record.Some? && record.value.lastFacts.launchTime.Some? && launch.launchTime.Some?
            && Gap(launch.launchTime.value, record.value.lastFacts.launchTime.value) >= policy.correctionTimeShift then
      Some(MakeCorrection(launch, record.value, TimeChanged, matchedTerms, now))
    else if !Timed(launch.precision) then
      None
    else if launch.launchTime.None? then
      None
    else
      DecideCountdown(launch, record, matchedTerms, policy, now)
  }

  /** The countdown branches, reached by a go launch with a known, timed launch
      time that needs no correction. */
  function DecideCountdown(launch: Launch, record: Option<AlertRecord>, matchedTerms: seq<string>,
                           policy: AlertPolicy, now: int): Option<Alert>
    requires launch.launchTime.Some?
  {
    var timeLeft := launch.launchTime.value - now;
    if timeLeft > policy.scheduleLookahead then
      None
    else if launch.precision == Precise then
      if timeLeft < 0 then
        None
      else if timeLeft <= policy.launchImminent && !Sent(record, LaunchImminent) then
        Some(MakeCountdown(launch, LaunchImminent, matchedTerms, now))
      else if timeLeft <= policy.launchSoon && !Sent(record, LaunchSoon) && !Sent(record, LaunchImminent) then
        Some(MakeCountdown(launch, LaunchSoon, matchedTerms, now))
      else
        None
    else if -HOUR_WINDOW <= timeLeft <= HOUR_WINDOW && !Sent(record, HourPrecision) then
      Some(MakeCountdown(launch, HourPrecision, matchedTerms, now))
    else
      None
  }

  function UpdatedRecord(record: Option<AlertRecord>, launch: Launch, alert: Alert, now: int): AlertRecord {
    var sent := SentAlert(alert.kind, now, alert.reason);
    match record
    case None =>
      AlertRecord(launch.Key(), launch.sourceName, launch.sourceLaunchId, launch.name,
                  alert.matchedTerms, launch.Facts(), [sent], now, now)
    case Some(prior) =>
      prior.(launchName := launch.name,
           matchedTerms := alert.matchedTerms,
           lastFacts := launch.Facts(),
           sentAlerts := prior.sentAlerts + [sent],
           lastAlertAt := now)
  }

  // ----- one launch, one key -----

  /** A relevant launch together with the terms that made it relevant. */
  datatype Sighting = Sighting(launch: Launch, matchedTerms: seq<string>)

  /** What the cycle holds for one key: its record and the alerts so far. */
  datatype KeyFold = KeyFold(record: Option<AlertRecord>, alerts: seq<Alert>)

  function Decide(record: Option<AlertRecord>, s: Sighting, policy: AlertPolicy, now: int): Option<Alert> {
    DecideForLaunch(s.launch, record, s.matchedTerms, policy, now)
  }

  function SeeOne(f: KeyFold, s: Sighting, policy: AlertPolicy, now: int): KeyFold {
    match Decide(f.record, s, policy, now)
    case None => f
    case Some(alert) => KeyFold(Some(UpdatedRecord(f.record, s.launch, alert, now)), f.alerts + [alert])
  }

  /** The per-key step function: a key's record against the sightings of that
      key, in feed order. */
  function SeeAll(record: Option<AlertRecord>, seen: seq<Sighting>, policy: AlertPolicy, now: int): KeyFold {
    if seen == [] then KeyFold(record, [])
    else SeeOne(SeeAll(record, seen[..|seen| - 1], policy, now), seen[|seen| - 1], policy, now)
  }

  predicate Retained(record: AlertRecord, policy: AlertPolicy, now: int) {
    now - record.lastAlertAt <= policy.retention
  }

  function Prune(record: Option<AlertRecord>, policy: AlertPolicy, now: int): Option<AlertRecord> {
    if record.Some? && Retained(record.value, policy, now) then record else None
  }

  // ----- a whole feed -----

  /** The inputs of a cycle that the configuration fixes. */
  datatype Settings = Settings(launchProvider: string, includeTerms: seq<string>, policy: AlertPolicy)

  function Terms(launch: Launch, settings: Settings): seq<string> {
    RelevantTerms(launch, settings.launchProvider, settings.includeTerms)
  }

  datatype FeedFold = FeedFold(records: RecordMap, alerts: seq<Alert>)

  function FoldLaunch(f: FeedFold, launch: Launch, settings: Settings, now: int): FeedFold {
    var terms := Terms(launch, settings);
    if terms == [] then f else
      var record := Lookup(f.records, launch.Key());
      match DecideForLaunch(launch, record, terms, settings.policy, now)
      case None => f
      case Some(alert) =>
        FeedFold(f.records[launch.Key() := UpdatedRecord(record, launch, alert, now)], f.alerts + [alert])
  }

  function FoldFeed(records: RecordMap, feed: seq<Launch>, settings: Settings, now: int): FeedFold {
    if feed == [] then FeedFold(records, [])
    else FoldLaunch(FoldFeed(records, feed[..|feed| - 1], settings, now), feed[|feed| - 1], settings, now)
  }

  function PruneMap(records: RecordMap, policy: AlertPolicy, now: int): RecordMap {
    map k | k in records && Retained(records[k], policy, now) :: records[k]
  }

  datatype CycleDecision = CycleDecision(alerts: seq<Alert>, updatedRecords: seq<AlertRecord>)

  lemma {:induction false} FoldFeedWellKeyed(records: RecordMap, feed: seq<Launch>, settings: Settings, now: int)
    requires WellKeyed(records)
    ensures WellKeyed(FoldFeed(records, feed, settings, now).records)
  {
    if feed != [] {
      FoldFeedWellKeyed(records, feed[..|feed| - 1], settings, now);
    }
  }

  /** The records a cycle leaves, as a map. */
  function RecordsAfter(records: seq<AlertRecord>, feed: seq<Launch>, settings: Settings, now: int): RecordMap {
    PruneMap(FoldFeed(MapOf(records), feed, settings, now).records, settings.policy, now)
  }

  lemma RecordsAfterWellKeyed(records: seq<AlertRecord>, feed: seq<Launch>, settings: Settings, now: int)
    ensures WellKeyed(RecordsAfter(records, feed, settings, now))
  {
    MapOfWellKeyed(records);
    FoldFeedWellKeyed(MapOf(records), feed, settings, now);
  }

  /** What one cycle decides. */
  ghost function Decision(records: seq<AlertRecord>, feed: seq<Launch>, settings: Settings,
                          now: int): (d: CycleDecision)
    ensures d.alerts == FoldFeed(MapOf(records), feed, settings, now).alerts
    ensures Ascending(d.updatedRecords)
    ensures MapOf(d.updatedRecords) == RecordsAfter(records, feed, settings, now)
  {
    RecordsAfterWellKeyed(records, feed, settings, now);
    CycleDecision(FoldFeed(MapOf(records), feed, settings, now).alerts,
                  InKeyOrder(RecordsAfter(records, feed, settings, now)))
  }

  /** The cycle as it runs. `None` is the exception that relevance raises when
      no include terms are configured. */
  method DecideCycle(launches: seq<Launch>, records: seq<AlertRecord>, policy: AlertPolicy,
                     launchProvider: string, includeTerms: seq<string>, now: int)
    returns (r: Option<CycleDecision>)
    ensures r.None? <==> includeTerms == [] && launches != []
    ensures r.Some? ==> r.value == Decision(records, launches, Settings(launchProvider, includeTerms, policy), now)
  {
    ghost var settings := Settings(launchProvider, includeTerms, policy);
    var recordMap: RecordMap := map[];
    for i := 0 to |records|
      invariant recordMap == MapOf(records[..i])
    {
      if records[i].key !in recordMap {
        recordMap := recordMap[records[i].key := records[i]];
      }
      assert records[..i + 1][..i] == records[..i];
    }
    assert records[..|records|] == records;

    var alerts: seq<Alert> := [];
    for i := 0 to |launches|
      invariant i > 0 ==> includeTerms != []
      invariant FeedFold(recordMap, alerts) == FoldFeed(MapOf(records), launches[..i], settings, now)
    {
      var launch := launches[i];
      assert launches[..i + 1][..i] == launches[..i];
      var relevance := EvaluateRelevance(launch, launchProvider, includeTerms);
      if relevance.None? {
        return None;
      }
      if relevance.value.relevant {
        var record := if launch.Key() in recordMap then Some(recordMap[launch.Key()]) else None;
        var result := DecideForLaunch(launch, record, relevance.value.matchedTerms, policy, now);
        if result.Some? {
          alerts := alerts + [result.value];
          recordMap := recordMap[launch.Key() := UpdatedRecord(record, launch, result.value, now)];
        }
      }
    }
    assert launches[..|launches|] == launches;
    RecordsAfterWellKeyed(records, launches, settings, now);
    var kept := RetainInOrder(recordMap, policy, now);
    AscendingUnique(kept, Decision(records, launches, settings, now).updatedRecords);
    return Some(CycleDecision(alerts, kept));
  }

  ghost function Visited(m: RecordMap, keys: set<string>): RecordMap {
    map k | k in keys && k in m :: m[k]
  }

  lemma VisitOne(m: RecordMap, keys: set<string>, key: string, policy: AlertPolicy, now: int)
    requires key in m && key !in keys
    ensures PruneMap(Visited(m, keys + {key}), policy, now) ==
      if Retained(m[key], policy, now) then PruneMap(Visited(m, keys), policy, now)[key := m[key]]
      else PruneMap(Visited(m, keys), policy, now)
  {
  }

  /** Visits the map in key order and keeps the records within retention. */
  method RetainInOrder(recordMap: RecordMap, policy: AlertPolicy, now: int) returns (kept: seq<AlertRecord>)
    requires WellKeyed(PruneMap(recordMap, policy, now))
    ensures Ascending(kept)
    ensures MapOf(kept) == PruneMap(recordMap, policy, now)
  {
    kept := [];
    var remaining := recordMap.Keys;
    ghost var visited: set<string> := {};
    while remaining != {}
      invariant visited + remaining == recordMap.Keys && visited !! remaining
      invariant forall v <- visited, k <- remaining :: Below(v, k)
      invariant forall i :: 0 <= i < |kept| ==> kept[i].key in visited
      invariant Ascending(kept)
      invariant MapOf(kept) == PruneMap(Visited(recordMap, visited), policy, now)
      decreases remaining
    {
      LeastExists(remaining);
      var key :| IsLeast(key, remaining);
      var record := recordMap[key];
      VisitOne(recordMap, visited, key, policy, now);
      if now - record.lastAlertAt <= policy.retention {
        assert key in PruneMap(recordMap, policy, now);
        AppendAbove(kept, record);
        kept := kept + [record];
      }
      remaining, visited := remaining - {key}, visited + {key};
    }
    assert recordMap == Visited(recordMap, visited);
  }
}
