/**
 Laws of one cycle: what it does to one key, what it conserves, that the order
 of the feed does not matter, what it leaves disclosed, that it settles, and
 when it may skip the save.
 */
module CoreLaws {
  import opened Domain
  import opened KeyOrder
  import opened Core
  import opened Relevance

  // ----- the terms of the laws -----

  /** The laws do not speak through the tests that the decision makes; these are their
      own. A timing is good enough for a clock time: precise, or to the hour. */
  predicate ClockTimed(precision: TimingPrecision) {
    precision != Imprecise && precision != UnknownPrecision
  }

  predicate FarApart(a: int, b: int, shift: int) {
    a - b >= shift || b - a >= shift
  }

  predicate Lists(record: Option<AlertRecord>, kind: AlertKind) {
    record.Some? && exists i :: 0 <= i < |record.value.sentAlerts| && record.value.sentAlerts[i].kind == kind
  }

  /** The last alert of the record is at most the retention old. */
  predicate Young(record: AlertRecord, policy: AlertPolicy, now: int) {
    record.lastAlertAt + policy.retention >= now
  }

  function Aged(record: Option<AlertRecord>, policy: AlertPolicy, now: int): Option<AlertRecord> {
    if record.Some? && record.value.lastAlertAt + policy.retention < now then None else record
  }

  lemma ListsIff(record: Option<AlertRecord>, kind: AlertKind)
    ensures Lists(record, kind) <==> Sent(record, kind)
  {
  }

  // ----- one key of a feed -----

  /** The relevant launches of the feed with key `k`, in feed order. */
  function Sightings(feed: seq<Launch>, settings: Settings, k: string): seq<Sighting> {
    if feed == [] then [] else
      var launch := feed[|feed| - 1];
      var before := Sightings(feed[..|feed| - 1], settings, k);
      if launch.Key() == k && Terms(launch, settings) != []
      then before + [Sighting(launch, Terms(launch, settings))]
      else before
  }

  function AlertsFor(alerts: seq<Alert>, k: string): seq<Alert> {
    if alerts == [] then [] else
      var alert := alerts[|alerts| - 1];
      var before := AlertsFor(alerts[..|alerts| - 1], k);
      if alert.launch.Key() == k then before + [alert] else before
  }

  lemma AlertsForAppend(alerts: seq<Alert>, alert: Alert, k: string)
    ensures AlertsFor(alerts + [alert], k) ==
      if alert.launch.Key() == k then AlertsFor(alerts, k) + [alert] else AlertsFor(alerts, k)
  {
    assert (alerts + [alert])[..|alerts|] == alerts;
  }

  lemma DecidedAlertIsForLaunch(launch: Launch, record: Option<AlertRecord>, terms: seq<string>, policy: AlertPolicy,
                                now: int)
    ensures var alert := DecideForLaunch(launch, record, terms, policy, now);
      alert.Some? ==> alert.value.launch == launch && alert.value.createdAt == now
  {
  }

  /** What a feed does to key `k` is what the per-key step function does to the
      record of `k` with the sightings of `k`: nothing else is looked at. */
  lemma {:induction false} PerKeyRefinement(m: RecordMap, feed: seq<Launch>, settings: Settings, now: int, k: string)
    ensures var f := FoldFeed(m, feed, settings, now);
      var g := SeeAll(Lookup(m, k), Sightings(feed, settings, k), settings.policy, now);
      Lookup(f.records, k) == g.record && AlertsFor(f.alerts, k) == g.alerts
  {
    if feed != [] {
      var init, launch := feed[..|feed| - 1], feed[|feed| - 1];
      PerKeyRefinement(m, init, settings, now, k);
      FoldLaunchPerKey(FoldFeed(m, init, settings, now),
                       SeeAll(Lookup(m, k), Sightings(init, settings, k), settings.policy, now),
                       launch, settings, now, k);
      SightingsStep(Lookup(m, k), feed, settings, now, k);
    }
  }

  /** Key `k` after one more launch: only a relevant launch with that key counts. */
  function SeeLaunch(g: KeyFold, launch: Launch, settings: Settings, now: int, k: string): KeyFold {
    var terms := Terms(launch, settings);
    if launch.Key() == k && terms != [] then SeeOne(g, Sighting(launch, terms), settings.policy, now) else g
  }

  lemma SightingsStep(record: Option<AlertRecord>, feed: seq<Launch>, settings: Settings, now: int, k: string)
    requires feed != []
    ensures SeeAll(record, Sightings(feed, settings, k), settings.policy, now)
      == SeeLaunch(SeeAll(record, Sightings(feed[..|feed| - 1], settings, k), settings.policy, now), feed[|feed| - 1],
                   settings, now, k)
  {
    var seen := Sightings(feed[..|feed| - 1], settings, k);
    var s := Sighting(feed[|feed| - 1], Terms(feed[|feed| - 1], settings));
    assert (seen + [s])[..|seen|] == seen;
  }

  lemma FoldLaunchPerKey(f: FeedFold, g: KeyFold, launch: Launch, settings: Settings, now: int, k: string)
    requires Lookup(f.records, k) == g.record && AlertsFor(f.alerts, k) == g.alerts
    ensures var f', g' := FoldLaunch(f, launch, settings, now), SeeLaunch(g, launch, settings, now, k);
      Lookup(f'.records, k) == g'.record && AlertsFor(f'.alerts, k) == g'.alerts
  {
    var terms, record := Terms(launch, settings), Lookup(f.records, launch.Key());
    var alert := DecideForLaunch(launch, record, terms, settings.policy, now);
    DecidedAlertIsForLaunch(launch, record, terms, settings.policy, now);
    if terms != [] && alert.Some? {
      AlertsForAppend(f.alerts, alert.value, k);
    }
  }

  /** A whole cycle, seen from key `k`. */
  lemma CyclePerKey(records: seq<AlertRecord>, feed: seq<Launch>, settings: Settings, now: int, k: string)
    ensures var d := Decision(records, feed, settings, now);
      var g := SeeAll(Lookup(MapOf(records), k), Sightings(feed, settings, k), settings.policy, now);
      && Lookup(MapOf(d.updatedRecords), k) == Aged(g.record, settings.policy, now)
      && AlertsFor(d.alerts, k) == g.alerts
  {
    PerKeyRefinement(MapOf(records), feed, settings, now, k);
  }

  // ----- conservation of alerts -----

  function Entries(alerts: seq<Alert>): seq<SentAlert> {
    seq(|alerts|, i requires 0 <= i < |alerts| => SentAlert(alerts[i].kind, alerts[i].createdAt, alerts[i].reason))
  }

  function PastAlerts(record: Option<AlertRecord>): seq<SentAlert> {
    if record.Some? then record.value.sentAlerts else []
  }

  /** The record after `alerts`: it tells what the last of them told, and keeps the
      identity that it had, or got from the first of them. */
  predicate Continues(before: Option<AlertRecord>, after: AlertRecord, alerts: seq<Alert>, now: int)
    requires alerts != []
  {
    var first, last := alerts[0].launch, alerts[|alerts| - 1];
    && after.launchName == last.launch.name && after.matchedTerms == last.matchedTerms
    && after.lastFacts == LaunchFacts(last.launch.launchTime, last.launch.precision, last.launch.status)
    && after.lastAlertAt == now
    && match before
       case None =>
         && after.key == first.sourceName + ":" + first.sourceLaunchId
         && after.sourceName == first.sourceName && after.sourceLaunchId == first.sourceLaunchId
         && after.firstAlertAt == now
       case Some(record) =>
         && after.key == record.key
         && after.sourceName == record.sourceName && after.sourceLaunchId == record.sourceLaunchId
         && after.firstAlertAt == record.firstAlertAt
  }

  lemma {:induction false} SeeAllContinues(record: Option<AlertRecord>, seen: seq<Sighting>, policy: AlertPolicy,
                                           now: int)
    ensures var f := SeeAll(record, seen, policy, now);
      && (f.alerts == [] ==> f.record == record)
      && (f.alerts != [] ==> f.record.Some? && Continues(record, f.record.value, f.alerts, now))
  {
    if seen != [] {
      var before, s := SeeAll(record, seen[..|seen| - 1], policy, now), seen[|seen| - 1];
      SeeAllContinues(record, seen[..|seen| - 1], policy, now);
      DecidedIsWarranted(s.launch, before.record, s.matchedTerms, policy, now);
    }
  }

  lemma {:induction false} SeeAllConserves(record: Option<AlertRecord>, seen: seq<Sighting>, policy: AlertPolicy,
                                           now: int)
    ensures var f := SeeAll(record, seen, policy, now);
      && PastAlerts(f.record) == PastAlerts(record) + Entries(f.alerts)
      && (f.alerts == [] ==> f.record == record)
      && (f.alerts != [] ==> f.record.Some? && f.record.value.lastAlertAt == now)
  {
    if seen != [] {
      SeeAllConserves(record, seen[..|seen| - 1], policy, now);
      var before := SeeAll(record, seen[..|seen| - 1], policy, now);
      var s := seen[|seen| - 1];
      var alert := Decide(before.record, s, policy, now);
      if alert.Some? {
        DecidedAlertIsForLaunch(s.launch, before.record, s.matchedTerms, policy, now);
        assert Entries(before.alerts + [alert.value]) == Entries(before.alerts) + [alert.value.Entry()];
      }
    }
  }

  /** Per key, the alerts of a cycle are exactly what the cycle appends to the
      record; a record that got one is not pruned; any other record is kept
      unchanged or pruned for its age. */
  lemma AlertsAreConserved(records: seq<AlertRecord>, feed: seq<Launch>, settings: Settings, now: int, k: string)
    requires settings.policy.retention >= 0
    ensures var d := Decision(records, feed, settings, now);
      var before, after := Lookup(MapOf(records), k), Lookup(MapOf(d.updatedRecords), k);
      var alerts := AlertsFor(d.alerts, k);
      && (alerts != [] ==>
            && after.Some? && after.value.sentAlerts == PastAlerts(before) + Entries(alerts)
            && Continues(before, after.value, alerts, now))
      && (alerts == [] ==> after == Aged(before, settings.policy, now))
  {
    CyclePerKey(records, feed, settings, now, k);
    SeeAllConserves(Lookup(MapOf(records), k), Sightings(feed, settings, k), settings.policy, now);
    SeeAllContinues(Lookup(MapOf(records), k), Sightings(feed, settings, k), settings.policy, now);
  }

  // ----- retention -----

  /** No record that a cycle keeps is older than the retention. */
  lemma KeptIsYoung(records: seq<AlertRecord>, feed: seq<Launch>, settings: Settings, now: int)
    ensures forall r <- Decision(records, feed, settings, now).updatedRecords ::
      now - r.lastAlertAt <= settings.policy.retention
  {
    var updated := Decision(records, feed, settings, now).updatedRecords;
    AscendingIsDistinct(updated);
    MapOfDistinct(updated);
    forall r | r in updated ensures now - r.lastAlertAt <= settings.policy.retention {
      var i :| 0 <= i < |updated| && updated[i] == r;
      CyclePerKey(records, feed, settings, now, r.key);
    }
  }

  /** A record that gets no alert in a cycle is kept as it is if it is at most the
      retention old, and dropped otherwise. */
  lemma SilentRecordIsKeptIff(records: seq<AlertRecord>, feed: seq<Launch>, settings: Settings, now: int, k: string)
    requires Lookup(MapOf(records), k).Some? && AlertsFor(Decision(records, feed, settings, now).alerts, k) == []
    ensures var record := Lookup(MapOf(records), k).value;
      Lookup(MapOf(Decision(records, feed, settings, now).updatedRecords), k)
      == if now - record.lastAlertAt <= settings.policy.retention then Some(record) else None
  {
    CyclePerKey(records, feed, settings, now, k);
    SeeAllContinues(Lookup(MapOf(records), k), Sightings(feed, settings, k), settings.policy, now);
  }

  // ----- the order of the feed -----

  ghost predicate DistinctLaunches(feed: seq<Launch>) {
    forall i, j :: 0 <= i < j < |feed| ==> feed[i].Key() != feed[j].Key()
  }

  /** The decision about one launch on its own. */
  function AlertOf(m: RecordMap, launch: Launch, settings: Settings, now: int): Option<Alert> {
    var terms := Terms(launch, settings);
    if terms == [] then None
    else DecideForLaunch(launch, Lookup(m, launch.Key()), terms, settings.policy, now)
  }

  function AlertsOf(m: RecordMap, feed: seq<Launch>, settings: Settings, now: int): seq<Option<Alert>> {
    seq(|feed|, i requires 0 <= i < |feed| => AlertOf(m, feed[i], settings, now))
  }

  function Emitted(alerts: seq<Option<Alert>>): seq<Alert> {
    if alerts == [] then [] else
      var before := Emitted(alerts[..|alerts| - 1]);
      match alerts[|alerts| - 1]
      case None => before
      case Some(alert) => before + [alert]
  }

  lemma {:induction false} NoSightingWithoutKey(feed: seq<Launch>, settings: Settings, k: string)
    requires forall i :: 0 <= i < |feed| ==> feed[i].Key() != k
    ensures Sightings(feed, settings, k) == []
  {
    if feed != [] {
      NoSightingWithoutKey(feed[..|feed| - 1], settings, k);
    }
  }

  /** With distinct keys, each launch is decided against the records as they
      were before the cycle, wherever it stands in the feed. */
  lemma {:induction false} DistinctFeedIsPointwise(m: RecordMap, feed: seq<Launch>, settings: Settings, now: int)
    requires DistinctLaunches(feed)
    ensures FoldFeed(m, feed, settings, now).alerts == Emitted(AlertsOf(m, feed, settings, now))
  {
    if feed != [] {
      var init, launch := feed[..|feed| - 1], feed[|feed| - 1];
      DistinctFeedIsPointwise(m, init, settings, now);
      NoSightingWithoutKey(init, settings, launch.Key());
      PerKeyRefinement(m, init, settings, now, launch.Key());
      FoldLaunchAlerts(FoldFeed(m, init, settings, now), m, launch, settings, now);
      EmittedLast(m, feed, settings, now);
    }
  }

  lemma EmittedLast(m: RecordMap, feed: seq<Launch>, settings: Settings, now: int)
    requires feed != []
    ensures var before := Emitted(AlertsOf(m, feed[..|feed| - 1], settings, now));
      Emitted(AlertsOf(m, feed, settings, now)) ==
      match AlertOf(m, feed[|feed| - 1], settings, now) case None => before case Some(alert) => before + [alert]
  {
    var alerts := AlertsOf(m, feed, settings, now);
    assert alerts[..|alerts| - 1] == AlertsOf(m, feed[..|feed| - 1], settings, now);
  }

  lemma FoldLaunchAlerts(f: FeedFold, m: RecordMap, launch: Launch, settings: Settings, now: int)
    requires Lookup(f.records, launch.Key()) == Lookup(m, launch.Key())
    ensures FoldLaunch(f, launch, settings, now).alerts ==
      match AlertOf(m, launch, settings, now) case None => f.alerts case Some(alert) => f.alerts + [alert]
  {
  }

  /** `b` lists the launches of `a`, `b[i]` being `a[p[i]]`. */
  ghost predicate Permutes(p: seq<nat>, a: seq<Launch>, b: seq<Launch>) {
    && |p| == |a| == |b|
    && (forall i :: 0 <= i < |p| ==> p[i] < |a| && b[i] == a[p[i]])
    && (forall i, j :: 0 <= i < j < |p| ==> p[i] != p[j])
    && (forall j :: 0 <= j < |a| ==> j in p)
  }

  lemma {:induction false} SightingOfDistinct(feed: seq<Launch>, settings: Settings, i: nat)
    requires DistinctLaunches(feed) && i < |feed|
    ensures Sightings(feed, settings, feed[i].Key()) ==
      if Terms(feed[i], settings) != [] then [Sighting(feed[i], Terms(feed[i], settings))] else []
  {
    var init := feed[..|feed| - 1];
    if i == |init| {
      NoSightingWithoutKey(init, settings, feed[i].Key());
    } else {
      SightingOfDistinct(init, settings, i);
    }
  }

  lemma PermutedSightings(p: seq<nat>, a: seq<Launch>, b: seq<Launch>, settings: Settings, k: string)
    requires DistinctLaunches(a) && DistinctLaunches(b) && Permutes(p, a, b)
    ensures Sightings(a, settings, k) == Sightings(b, settings, k)
  {
    if i :| 0 <= i < |b| && b[i].Key() == k {
      SightingOfDistinct(b, settings, i);
      SightingOfDistinct(a, settings, p[i]);
    } else {
      KeylessPermutation(p, a, b, k);
      NoSightingWithoutKey(a, settings, k);
      NoSightingWithoutKey(b, settings, k);
    }
  }

  lemma KeylessPermutation(p: seq<nat>, a: seq<Launch>, b: seq<Launch>, k: string)
    requires Permutes(p, a, b)
    requires forall i :: 0 <= i < |b| ==> b[i].Key() != k
    ensures forall j :: 0 <= j < |a| ==> a[j].Key() != k
  {
    forall j | 0 <= j < |a| ensures a[j].Key() != k {
      assert j in p;
      var i :| 0 <= i < |p| && p[i] == j;
      assert b[i] == a[p[i]];
    }
  }

  /** For a feed with distinct keys, permuting the feed leaves the records as
      they are and permutes the decisions, hence the alerts, the same way. */
  lemma OrderIndependence(records: seq<AlertRecord>, p: seq<nat>, a: seq<Launch>, b: seq<Launch>, settings: Settings,
                          now: int)
    requires DistinctLaunches(a) && Permutes(p, a, b)
    ensures var m := MapOf(records);
      var da, db := Decision(records, a, settings, now), Decision(records, b, settings, now);
      && da.updatedRecords == db.updatedRecords
      && da.alerts == Emitted(AlertsOf(m, a, settings, now))
      && db.alerts == Emitted(AlertsOf(m, b, settings, now))
      && forall i :: 0 <= i < |b| ==> AlertsOf(m, b, settings, now)[i] == AlertsOf(m, a, settings, now)[p[i]]
  {
    assert DistinctLaunches(b) by {
      forall i, j | 0 <= i < j < |b| ensures b[i].Key() != b[j].Key() {
        assert p[i] != p[j];
      }
    }
    var m := MapOf(records);
    DistinctFeedIsPointwise(m, a, settings, now);
    DistinctFeedIsPointwise(m, b, settings, now);
    var ra, rb := RecordsAfter(records, a, settings, now), RecordsAfter(records, b, settings, now);
    forall k ensures Lookup(ra, k) == Lookup(rb, k) {
      CyclePerKey(records, a, settings, now, k);
      CyclePerKey(records, b, settings, now, k);
      PermutedSightings(p, a, b, settings, k);
    }
    SameLookupsSameMap(ra, rb);
    AscendingUnique(Decision(records, a, settings, now).updatedRecords,
                    Decision(records, b, settings, now).updatedRecords);
  }

  lemma SameLookupsSameMap(a: RecordMap, b: RecordMap)
    requires forall k :: Lookup(a, k) == Lookup(b, k)
    ensures a == b
  {
    forall k ensures k in a <==> k in b {
      assert Lookup(a, k) == Lookup(b, k);
    }
    forall k | k in a ensures a[k] == b[k] {
      assert Lookup(a, k) == Lookup(b, k);
    }
  }

  // ----- disclosure -----

  /** The facts that were told say what a recipient should know about the launch. */
  predicate Disclosed(told: LaunchFacts, launch: Launch, policy: AlertPolicy) {
    && (launch.status == Go && launch.launchTime.Some? && told.launchTime.Some? ==>
          !FarApart(launch.launchTime.value, told.launchTime.value, policy.correctionTimeShift))
    && (launch.status == Go && ClockTimed(told.precision) ==> ClockTimed(launch.precision))
    && (launch.status == NoGo ==> told.status == NoGo)
  }

  lemma SeeOneDiscloses(f: KeyFold, s: Sighting, policy: AlertPolicy, now: int)
    requires policy.correctionTimeShift > 0
    ensures var record := SeeOne(f, s, policy, now).record;
      record.Some? ==> Disclosed(record.value.lastFacts, s.launch, policy)
  {
    var alert := Decide(f.record, s, policy, now);
    if alert.Some? {
      assert SeeOne(f, s, policy, now).record.value.lastFacts == s.launch.Facts();
    }
  }

  lemma {:induction false} LastSighting(feed: seq<Launch>, settings: Settings, i: nat)
    requires i < |feed| && Terms(feed[i], settings) != []
    requires forall j :: i < j < |feed| ==> feed[j].Key() != feed[i].Key() || Terms(feed[j], settings) == []
    ensures var seen := Sightings(feed, settings, feed[i].Key());
      seen != [] && seen[|seen| - 1] == Sighting(feed[i], Terms(feed[i], settings))
  {
    if i < |feed| - 1 {
      LastSighting(feed[..|feed| - 1], settings, i);
    }
  }

  /** After a cycle, whatever feed and records it had, a surviving record
      discloses the last relevant launch listed under its key. */
  lemma CycleDiscloses(records: seq<AlertRecord>, feed: seq<Launch>, settings: Settings, now: int, i: nat)
    requires settings.policy.correctionTimeShift > 0
    requires i < |feed| && Terms(feed[i], settings) != []
    requires forall j :: i < j < |feed| ==> feed[j].Key() != feed[i].Key() || Terms(feed[j], settings) == []
    ensures var record := Lookup(MapOf(Decision(records, feed, settings, now).updatedRecords), feed[i].Key());
      record.Some? ==> Disclosed(record.value.lastFacts, feed[i], settings.policy)
  {
    var k := feed[i].Key();
    CyclePerKey(records, feed, settings, now, k);
    LastSighting(feed, settings, i);
    var seen := Sightings(feed, settings, k);
    SeeOneDiscloses(SeeAll(Lookup(MapOf(records), k), seen[..|seen| - 1], settings.policy, now), seen[|seen| - 1],
                    settings.policy, now);
  }

  // ----- no alert without cause, and no cause without alert -----

  /** The launch is due for the countdown alert `kind`, `left` seconds before its
      launch time. */
  predicate InWindow(kind: AlertKind, precision: TimingPrecision, left: int, policy: AlertPolicy) {
    && left <= policy.scheduleLookahead
    && match kind
       case LaunchSoon => precision == Precise && 0 <= left <= policy.launchSoon && policy.launchImminent < left
       case LaunchImminent => precision == Precise && 0 <= left <= policy.launchImminent
       case HourPrecision => precision == Hour && -3600 <= left <= 3600
       case Correction => false
  }

  predicate Due(kind: AlertKind, launch: Launch, policy: AlertPolicy, now: int) {
    && launch.status == Go && launch.launchTime.Some?
    && InWindow(kind, launch.precision, launch.launchTime.value - now, policy)
  }

  /** The facts that were last told are no longer true, in the way that `reason` says. */
  predicate Outdated(told: LaunchFacts, reason: CorrectionReason, launch: Launch, policy: AlertPolicy) {
    match reason
    case NoLongerGo => launch.status == NoGo && told.status != NoGo
    case TimingNowImprecise => launch.status == Go && ClockTimed(told.precision) && !ClockTimed(launch.precision)
    case TimeChanged =>
      && launch.status == Go && launch.launchTime.Some? && told.launchTime.Some?
      && FarApart(launch.launchTime.value, told.launchTime.value, policy.correctionTimeShift)
  }

  /** The reason that a correction gives: of two that apply, the loss of a clock time
      goes before a moved time. */
  predicate Reason(told: LaunchFacts, reason: CorrectionReason, launch: Launch, policy: AlertPolicy) {
    && Outdated(told, reason, launch, policy)
    && (reason == TimeChanged ==> !Outdated(told, TimingNowImprecise, launch, policy))
  }

  /** An alert says what is so: the launch is due for it, or it corrects facts that
      are no longer true. */
  predicate Warranted(alert: Alert, policy: AlertPolicy) {
    if alert.kind == Correction then
      && alert.reason.Some? && alert.previous.Some?
      && Reason(alert.previous.value, alert.reason.value, alert.launch, policy)
    else
      alert.reason.None? && alert.previous.None? && Due(alert.kind, alert.launch, policy, alert.createdAt)
  }

  /** It is warranted and for a relevant launch, with the terms that match. */
  predicate Justified(alert: Alert, settings: Settings) {
    Warranted(alert, settings.policy) && alert.matchedTerms == Terms(alert.launch, settings) != []
  }

  lemma DecidedIsWarranted(launch: Launch, record: Option<AlertRecord>, terms: seq<string>, policy: AlertPolicy,
                           now: int)
    ensures var alert := DecideForLaunch(launch, record, terms, policy, now);
      alert.Some? ==>
        && Warranted(alert.value, policy)
        && alert.value.launch == launch && alert.value.createdAt == now && alert.value.matchedTerms == terms
  {
  }

  lemma DecidedIsJustified(launch: Launch, record: Option<AlertRecord>, settings: Settings, now: int)
    requires Terms(launch, settings) != []
    ensures var alert := DecideForLaunch(launch, record, Terms(launch, settings), settings.policy, now);
      alert.Some? ==> Justified(alert.value, settings) && alert.value.launch == launch && alert.value.createdAt == now
  {
    DecidedIsWarranted(launch, record, Terms(launch, settings), settings.policy, now);
  }

  lemma {:induction false} FoldIsJustified(m: RecordMap, feed: seq<Launch>, settings: Settings, now: int)
    ensures forall alert <- FoldFeed(m, feed, settings, now).alerts ::
      Justified(alert, settings) && alert.launch in feed && alert.createdAt == now
  {
    if feed != [] {
      var init, launch := feed[..|feed| - 1], feed[|feed| - 1];
      FoldIsJustified(m, init, settings, now);
      assert feed == init + [launch];
      if Terms(launch, settings) != [] {
        DecidedIsJustified(launch, Lookup(FoldFeed(m, init, settings, now).records, launch.Key()), settings, now);
      }
    }
  }

  /** The record remembers `kind`, or Launch Imminent in place of Launch Soon. */
  predicate Covered(record: Option<AlertRecord>, kind: AlertKind) {
    Lists(record, kind) || (kind == LaunchSoon && Lists(record, LaunchImminent))
  }

  /** The record remembers an alert that answers for `kind`: a countdown that covers
      it, or a correction raised just now. */
  predicate Answered(record: AlertRecord, kind: AlertKind, now: int) {
    || Covered(Some(record), kind)
    || exists sent <- record.sentAlerts :: sent.kind == Correction && sent.createdAt == now
  }

  lemma SeeOneAnswers(f: KeyFold, s: Sighting, policy: AlertPolicy, now: int, kind: AlertKind)
    requires Due(kind, s.launch, policy, now)
    ensures var record := SeeOne(f, s, policy, now).record;
      record.Some? && Answered(record.value, kind, now)
  {
    var alert := Decide(f.record, s, policy, now);
    if alert.Some? {
      var sent := SeeOne(f, s, policy, now).record.value.sentAlerts;
      assert sent[|sent| - 1] == SentAlert(alert.value.kind, now, alert.value.reason);
      assert sent[|sent| - 1] in sent;
    }
  }

  /** A launch that is due when a cycle sees it (last, if it is listed more than
      once) is answered for in its record after the cycle; or in its record before
      the cycle, if that one was dropped for its age. */
  lemma CycleAnswers(records: seq<AlertRecord>, feed: seq<Launch>, settings: Settings, now: int, i: nat,
                     kind: AlertKind)
    requires settings.policy.retention >= 0
    requires i < |feed| && Terms(feed[i], settings) != []
    requires forall j :: i < j < |feed| ==> feed[j].Key() != feed[i].Key() || Terms(feed[j], settings) == []
    requires Due(kind, feed[i], settings.policy, now)
    ensures var before := Lookup(MapOf(records), feed[i].Key());
      match Lookup(MapOf(Decision(records, feed, settings, now).updatedRecords), feed[i].Key())
      case Some(after) => Answered(after, kind, now)
      case None => before.Some? && Answered(before.value, kind, now) && !Young(before.value, settings.policy, now)
  {
    var k := feed[i].Key();
    CyclePerKey(records, feed, settings, now, k);
    LastSighting(feed, settings, i);
    var before, seen := Lookup(MapOf(records), k), Sightings(feed, settings, k);
    SeeAllConserves(before, seen, settings.policy, now);
    SeeOneAnswers(SeeAll(before, seen[..|seen| - 1], settings.policy, now), seen[|seen| - 1], settings.policy, now,
                  kind);
  }

  // ----- when a correction is raised -----

  /** A relevant launch is corrected if and only if it has a record whose facts are
      outdated. */
  lemma CorrectedIff(launch: Launch, record: Option<AlertRecord>, terms: seq<string>, policy: AlertPolicy, now: int)
    ensures var alert := DecideForLaunch(launch, record, terms, policy, now);
      (alert.Some? && alert.value.kind == Correction)
      <==> (record.Some? && exists reason :: Outdated(record.value.lastFacts, reason, launch, policy))
  {
    if record.Some? {
      var told := record.value.lastFacts;
      var outdated := exists reason :: Outdated(told, reason, launch, policy);
      assert outdated <==>
        (Outdated(told, NoLongerGo, launch, policy) || Outdated(told, TimingNowImprecise, launch, policy)
         || Outdated(told, TimeChanged, launch, policy));
    }
  }

  /** Which reason: the decision about a launch gives reason `r` if and only if `r` is the
      reason of its record, and then it quotes the record's facts. */
  lemma ReasonIff(launch: Launch, record: Option<AlertRecord>, terms: seq<string>, policy: AlertPolicy, now: int,
                  r: CorrectionReason)
    ensures var alert := DecideForLaunch(launch, record, terms, policy, now);
      (alert.Some? && alert.value.reason == Some(r))
      <==> (record.Some? && Reason(record.value.lastFacts, r, launch, policy))
    ensures record.Some? && Reason(record.value.lastFacts, r, launch, policy) ==>
      DecideForLaunch(launch, record, terms, policy, now)
      == Some(Alert(Correction, launch, now, terms, Some(r), Some(record.value.lastFacts)))
  {
  }

  /** Which countdown alert: kind `k` if and only if the launch is due for it, the record
      does not cover it, and nothing in the record is outdated. */
  lemma CountdownKindIff(launch: Launch, record: Option<AlertRecord>, terms: seq<string>, policy: AlertPolicy,
                         now: int, k: AlertKind)
    requires k != Correction
    ensures var alert := DecideForLaunch(launch, record, terms, policy, now);
      (alert.Some? && alert.value.kind == k)
      <==> (Due(k, launch, policy, now) && !Covered(record, k)
            && (record.None? || forall reason :: !Outdated(record.value.lastFacts, reason, launch, policy)))
    ensures var alert := DecideForLaunch(launch, record, terms, policy, now);
      alert.Some? && alert.value.kind == k ==> alert == Some(Alert(k, launch, now, terms, None, None))
  {
    ListsIff(record, LaunchSoon);
    ListsIff(record, LaunchImminent);
    ListsIff(record, HourPrecision);
    CorrectedIff(launch, record, terms, policy, now);
    DecidedIsWarranted(launch, record, terms, policy, now);
  }

  /** Due, in the units of the configuration file. */
  predicate DueIn(kind: AlertKind, launch: Launch, config: Config, now: int) {
    && launch.status == Go && launch.launchTime.Some?
    && var left := launch.launchTime.value - now;
       && left <= 3600 * config.scheduleLookaheadHours
       && match kind
          case LaunchSoon =>
            launch.precision == Precise && 0 <= left <= 60 * config.launchSoonMinutes
            && 60 * config.launchImminentMinutes < left
          case LaunchImminent => launch.precision == Precise && 0 <= left <= 60 * config.launchImminentMinutes
          case HourPrecision => launch.precision == Hour && -3600 <= left <= 3600
          case Correction => false
  }

  /** Which countdown alert, in the units of the configuration file. */
  lemma ConfiguredCountdown(launch: Launch, record: Option<AlertRecord>, terms: seq<string>, config: Config, now: int,
                            k: AlertKind)
    requires k != Correction
    ensures var alert := DecideForLaunch(launch, record, terms, config.Policy(), now);
      (alert.Some? && alert.value.kind == k)
      <==> (DueIn(k, launch, config, now) && !Covered(record, k)
            && (record.None? || forall reason :: !Outdated(record.value.lastFacts, reason, launch, config.Policy())))
  {
    CountdownKindIff(launch, record, terms, config.Policy(), now, k);
    assert Due(k, launch, config.Policy(), now) <==> DueIn(k, launch, config, now);
  }

  /** A moved time is corrected from the configured minutes on. */
  lemma ConfiguredShift(launch: Launch, record: AlertRecord, terms: seq<string>, config: Config, now: int)
    requires launch.status == Go && record.lastFacts.precision == launch.precision
    requires launch.launchTime.Some? && record.lastFacts.launchTime.Some?
    ensures var alert := DecideForLaunch(launch, Some(record), terms, config.Policy(), now);
      var moved := launch.launchTime.value - record.lastFacts.launchTime.value;
      (alert.Some? && alert.value.reason == Some(TimeChanged))
      <==> (moved >= 60 * config.correctionTimeShiftMinutes || -moved >= 60 * config.correctionTimeShiftMinutes)
  {
    ReasonIff(launch, Some(record), terms, config.Policy(), now, TimeChanged);
  }

  /** The same for every alert of a feed: a correction gives the one reason for which the
      facts it quotes are outdated. */
  lemma FoldGivesReasons(m: RecordMap, feed: seq<Launch>, settings: Settings, now: int)
    ensures forall alert <- FoldFeed(m, feed, settings, now).alerts :: alert.kind == Correction ==>
      && alert.previous.Some?
      && forall r :: alert.reason == Some(r) <==> Reason(alert.previous.value, r, alert.launch, settings.policy)
  {
    FoldIsJustified(m, feed, settings, now);
    forall alert | alert in FoldFeed(m, feed, settings, now).alerts && alert.kind == Correction
      ensures alert.previous.Some?
      ensures forall r :: alert.reason == Some(r) <==> Reason(alert.previous.value, r, alert.launch, settings.policy)
    {
      OneReason(alert.previous.value, alert.reason.value, alert.launch, settings.policy);
    }
  }

  lemma OneReason(told: LaunchFacts, reason: CorrectionReason, launch: Launch, policy: AlertPolicy)
    requires Reason(told, reason, launch, policy)
    ensures forall r :: Reason(told, r, launch, policy) ==> r == reason
  {
  }

  /** Any listing raises a correction if and only if it is relevant, has a record and
      the record's facts are outdated. */
  lemma ListingCorrectsIff(f: FeedFold, launch: Launch, settings: Settings, now: int)
    ensures var after, record := FoldLaunch(f, launch, settings, now), Lookup(f.records, launch.Key());
      (|after.alerts| > |f.alerts| && after.alerts[|f.alerts|].kind == Correction)
      <==> (Terms(launch, settings) != [] && record.Some?
            && exists reason :: Outdated(record.value.lastFacts, reason, launch, settings.policy))
  {
    CorrectedIff(launch, Lookup(f.records, launch.Key()), Terms(launch, settings), settings.policy, now);
  }

  /** A launch whose status or timing is not alertable is silent if and only if it has
      no record or nothing in its record is outdated. */
  lemma SilentIff(launch: Launch, record: Option<AlertRecord>, terms: seq<string>, policy: AlertPolicy, now: int)
    requires launch.status != Go || !ClockTimed(launch.precision)
    ensures DecideForLaunch(launch, record, terms, policy, now) == None
      <==> (record.None? || forall reason :: !Outdated(record.value.lastFacts, reason, launch, policy))
  {
    CorrectedIff(launch, record, terms, policy, now);
  }

  /** An untimed go launch that was untimed when it was last told is corrected when
      its time has moved: imprecise timing is not always silent. */
  lemma UntimedLaunchIsCorrected(launch: Launch, record: AlertRecord, terms: seq<string>, policy: AlertPolicy, now: int)
    requires launch.status == Go && !ClockTimed(launch.precision) && !ClockTimed(record.lastFacts.precision)
    requires Outdated(record.lastFacts, TimeChanged, launch, policy)
    ensures DecideForLaunch(launch, Some(record), terms, policy, now)
      == Some(MakeCorrection(launch, record, TimeChanged, terms, now))
  {
  }

  /** A key that is listed irrelevantly only gets no alert, and its record ages. */
  lemma IrrelevantKeyIsLeftAlone(records: seq<AlertRecord>, feed: seq<Launch>, settings: Settings, now: int, k: string)
    requires forall i :: 0 <= i < |feed| && feed[i].Key() == k ==> Terms(feed[i], settings) == []
    ensures var d := Decision(records, feed, settings, now);
      && AlertsFor(d.alerts, k) == []
      && Lookup(MapOf(d.updatedRecords), k) == Aged(Lookup(MapOf(records), k), settings.policy, now)
  {
    CyclePerKey(records, feed, settings, now, k);
    NoRelevantSighting(feed, settings, k);
  }

  lemma {:induction false} NoRelevantSighting(feed: seq<Launch>, settings: Settings, k: string)
    requires forall i :: 0 <= i < |feed| && feed[i].Key() == k ==> Terms(feed[i], settings) == []
    ensures Sightings(feed, settings, k) == []
  {
    if feed != [] {
      NoRelevantSighting(feed[..|feed| - 1], settings, k);
    }
  }

  const LISTED := Launch("source", "1", "x", "s", Some(1000), Precise, Go, None, None, None)
  const EXAMPLE := Settings("s", ["x"], AlertPolicy(3600, 600, 1800, 108000, 2592000))

  lemma ExampleTerms(changed: Launch)
    requires changed == LISTED.(name := "y", launchTime := Some(90000))
    ensures Terms(LISTED, EXAMPLE) == ["x"] && Terms(changed, EXAMPLE) == []
  {
    assert ["x"][..0] == [];
    assert SearchableFields(LISTED) == ["x"] && SearchableFields(changed) == ["y"];
    assert ToLower("x") == "x" && ToLower("y") == "y";
    assert "x"[0..1] == "x" && OccursAt("x", "x", 0);
    assert "x" in SearchableFields(LISTED);
    assert "y"[0..1] == "y";
    assert !Contains("y", "x");
  }

  lemma FoldOne(m: RecordMap, launch: Launch, settings: Settings, now: int)
    ensures FoldFeed(m, [launch], settings, now) == FoldLaunch(FeedFold(m, []), launch, settings, now)
  {
    assert [launch][..0] == [];
  }

  /** The first cycle announces the launch and records it. */
  lemma ExampleFold(changed: Launch)
    requires changed == LISTED.(name := "y", launchTime := Some(90000))
    ensures var alert := MakeCountdown(LISTED, LaunchSoon, ["x"], 0);
      FoldFeed(map[], [LISTED], EXAMPLE, 0)
        == FeedFold(map[LISTED.Key() := UpdatedRecord(None, LISTED, alert, 0)], [alert])
  {
    ExampleTerms(changed);
    FoldOne(map[], LISTED, EXAMPLE, 0);
    ExampleDecision(EXAMPLE.policy);
  }

  lemma ExampleDecision(policy: AlertPolicy)
    requires policy == AlertPolicy(3600, 600, 1800, 108000, 2592000)
    ensures DecideForLaunch(LISTED, None, ["x"], policy, 0) == Some(MakeCountdown(LISTED, LaunchSoon, ["x"], 0))
  {
  }

  lemma ExampleIsAnnounced(changed: Launch)
    requires changed == LISTED.(name := "y", launchTime := Some(90000))
    ensures var first := Decision([], [LISTED], EXAMPLE, 0);
      && first.alerts == [MakeCountdown(LISTED, LaunchSoon, ["x"], 0)]
      && first.updatedRecords == [UpdatedRecord(None, LISTED, MakeCountdown(LISTED, LaunchSoon, ["x"], 0), 0)]
  {
    ExampleFold(changed);
    var updated := Decision([], [LISTED], EXAMPLE, 0).updatedRecords;
    var record := UpdatedRecord(None, LISTED, MakeCountdown(LISTED, LaunchSoon, ["x"], 0), 0);
    assert PruneMap(map[LISTED.Key() := record], EXAMPLE.policy, 0) == map[LISTED.Key() := record];
    OnlyRecord(updated, LISTED.Key(), record);
  }

  lemma OnlyRecord(records: seq<AlertRecord>, k: string, record: AlertRecord)
    requires Ascending(records) && MapOf(records) == map[k := record]
    ensures records == [record]
  {
    AscendingIsDistinct(records);
    MapOfDistinct(records);
    assert |map[k := record]| == 1;
    assert records[0].key in MapOf(records);
  }

  /** Losing relevance corrects nothing: a launch is announced, then the source renames
      it so that no include term matches and moves it by a day, and the next cycle says
      nothing and keeps its record. */
  lemma LostRelevanceIsNotCorrected(changed: Launch)
    requires changed == LISTED.(name := "y", launchTime := Some(90000))
    ensures var first := Decision([], [LISTED], EXAMPLE, 0);
      && first.alerts == [MakeCountdown(LISTED, LaunchSoon, ["x"], 0)]
      && |first.updatedRecords| == 1
      && Decision(first.updatedRecords, [changed], EXAMPLE, 0) == CycleDecision([], first.updatedRecords)
  {
    ExampleTerms(changed);
    ExampleIsAnnounced(changed);
    var records := Decision([], [LISTED], EXAMPLE, 0).updatedRecords;
    FoldOne(MapOf(records), changed, EXAMPLE, 0);
    SkippingTheSaveIsExact(records, [changed], EXAMPLE, 0);
  }

  // ----- quiescence -----

  /** One cycle for a key that the feed lists once. */
  function OneCycle(record: Option<AlertRecord>, s: Sighting, policy: AlertPolicy, now: int): Option<AlertRecord> {
    Aged(SeeOne(KeyFold(record, []), s, policy, now).record, policy, now)
  }

  lemma KeySettles(record: Option<AlertRecord>, s: Sighting, policy: AlertPolicy, now: int)
    requires policy.correctionTimeShift > 0 && policy.retention >= 0
    ensures var second := OneCycle(OneCycle(record, s, policy, now), s, policy, now);
      Decide(second, s, policy, now) == None && Aged(second, policy, now) == second
  {
  }

  ghost function Again(records: seq<AlertRecord>, feed: seq<Launch>, settings: Settings, now: int): seq<AlertRecord> {
    Decision(records, feed, settings, now).updatedRecords
  }

  lemma OneCyclePerKey(records: seq<AlertRecord>, feed: seq<Launch>, settings: Settings, now: int, i: nat)
    requires DistinctLaunches(feed) && i < |feed| && Terms(feed[i], settings) != []
    ensures var s := Sighting(feed[i], Terms(feed[i], settings));
      Lookup(MapOf(Again(records, feed, settings, now)), feed[i].Key())
        == OneCycle(Lookup(MapOf(records), feed[i].Key()), s, settings.policy, now)
  {
    CyclePerKey(records, feed, settings, now, feed[i].Key());
    SightingOfDistinct(feed, settings, i);
    var seen := [Sighting(feed[i], Terms(feed[i], settings))];
    assert seen[..|seen| - 1] == [];
  }

  /** The same feed with distinct keys at the same clock: from any records, the
      third cycle emits nothing and leaves the records as it found them. */
  lemma Quiescence(records: seq<AlertRecord>, feed: seq<Launch>, settings: Settings, now: int)
    requires DistinctLaunches(feed)
    requires settings.policy.correctionTimeShift > 0 && settings.policy.retention >= 0
    ensures var second := Again(Again(records, feed, settings, now), feed, settings, now);
      Decision(second, feed, settings, now) == CycleDecision([], second)
  {
    var first := Again(records, feed, settings, now);
    var second := Again(first, feed, settings, now);
    var m := MapOf(second);
    forall i | 0 <= i < |feed| ensures AlertsOf(m, feed, settings, now)[i] == None {
      if Terms(feed[i], settings) != [] {
        OneCyclePerKey(records, feed, settings, now, i);
        OneCyclePerKey(first, feed, settings, now, i);
        KeySettles(Lookup(MapOf(records), feed[i].Key()), Sighting(feed[i], Terms(feed[i], settings)),
                   settings.policy, now);
      }
    }
    NothingEmittedIff(AlertsOf(m, feed, settings, now));
    DistinctFeedIsPointwise(m, feed, settings, now);
    SilentAgain(first, feed, settings, now);
  }

  lemma {:induction false} SilentFeedChangesNothing(m: RecordMap, feed: seq<Launch>, settings: Settings, now: int)
    requires FoldFeed(m, feed, settings, now).alerts == []
    ensures FoldFeed(m, feed, settings, now).records == m
  {
    if feed != [] {
      SilentFeedChangesNothing(m, feed[..|feed| - 1], settings, now);
    }
  }

  // ----- settling at once -----

  /** The launch is due for a countdown alert that the record does not cover. */
  predicate Owed(record: Option<AlertRecord>, launch: Launch, policy: AlertPolicy, now: int) {
    exists kind :: Due(kind, launch, policy, now) && !Covered(record, kind)
  }

  /** The correction that is raised is for a moved launch time. */
  predicate Moved(record: Option<AlertRecord>, launch: Launch, policy: AlertPolicy) {
    && record.Some?
    && Outdated(record.value.lastFacts, TimeChanged, launch, policy)
    && !Outdated(record.value.lastFacts, TimingNowImprecise, launch, policy)
  }

  /** A countdown alert is left over for the next cycle: a time correction took its
      place, or an expired record suppressed it and was pruned. */
  predicate LeftOver(record: Option<AlertRecord>, launch: Launch, policy: AlertPolicy, now: int) {
    || (Moved(record, launch, policy) && Owed(record, launch, policy, now))
    || (record.Some? && !Young(record.value, policy, now) && !Moved(record, launch, policy)
        && !Owed(record, launch, policy, now) && Owed(None, launch, policy, now))
  }

  lemma CountdownIff(record: Option<AlertRecord>, s: Sighting, policy: AlertPolicy, now: int)
    requires record.None? || forall reason :: !Outdated(record.value.lastFacts, reason, s.launch, policy)
    ensures Decide(record, s, policy, now).Some? <==> Owed(record, s.launch, policy, now)
    ensures Decide(record, s, policy, now).Some? ==> Decide(record, s, policy, now).value.kind != Correction
  {
    CorrectedIff(s.launch, record, s.matchedTerms, policy, now);
    if Decide(record, s, policy, now).Some? {
      DecidedIsWarranted(s.launch, record, s.matchedTerms, policy, now);
      assert Due(Decide(record, s, policy, now).value.kind, s.launch, policy, now);
    } else {
      forall kind | Due(kind, s.launch, policy, now) ensures Covered(record, kind) {
      }
    }
  }

  /** A key settles in one cycle if and only if nothing is left over. */
  lemma KeySettlesAtOnceIff(record: Option<AlertRecord>, s: Sighting, policy: AlertPolicy, now: int)
    requires policy.correctionTimeShift > 0 && policy.retention >= 0
    ensures Decide(OneCycle(record, s, policy, now), s, policy, now) == None
      <==> !LeftOver(record, s.launch, policy, now)
  {
    var alert, next := Decide(record, s, policy, now), OneCycle(record, s, policy, now);
    CorrectedIff(s.launch, record, s.matchedTerms, policy, now);
    if alert.Some? {
      AfterAlert(record, s, policy, now);
    } else {
      CountdownIff(record, s, policy, now);
      CountdownIff(None, s, policy, now);
    }
  }

  /** After an alert the record agrees with the launch, so only a countdown that the
      alert is not can follow. */
  lemma AfterAlert(record: Option<AlertRecord>, s: Sighting, policy: AlertPolicy, now: int)
    requires policy.correctionTimeShift > 0 && policy.retention >= 0
    requires Decide(record, s, policy, now).Some?
    ensures Decide(OneCycle(record, s, policy, now), s, policy, now).Some?
      <==> (Moved(record, s.launch, policy) && Owed(record, s.launch, policy, now))
  {
    var alert, next := Decide(record, s, policy, now).value, OneCycle(record, s, policy, now);
    DecidedIsWarranted(s.launch, record, s.matchedTerms, policy, now);
    assert next.Some? && next.value.lastFacts == s.launch.Facts();
    CountdownIff(next, s, policy, now);
    SentAfter(record, s, policy, now);
  }

  lemma SentAfter(record: Option<AlertRecord>, s: Sighting, policy: AlertPolicy, now: int)
    requires policy.retention >= 0 && Decide(record, s, policy, now).Some?
    ensures var alert, next := Decide(record, s, policy, now).value, OneCycle(record, s, policy, now);
      forall kind :: Lists(next, kind) <==> Lists(record, kind) || kind == alert.kind
  {
    var alert, next := Decide(record, s, policy, now).value, OneCycle(record, s, policy, now);
    ListsAppend(record, next, SentAlert(alert.kind, now, alert.reason));
  }

  lemma ListsAppend(record: Option<AlertRecord>, next: Option<AlertRecord>, entry: SentAlert)
    requires next.Some? && next.value.sentAlerts == PastAlerts(record) + [entry]
    ensures forall kind :: Lists(next, kind) <==> Lists(record, kind) || kind == entry.kind
  {
    var sent := next.value.sentAlerts;
    assert sent[|sent| - 1] == entry;
    forall kind | Lists(record, kind) ensures Lists(next, kind) {
      var i :| 0 <= i < |PastAlerts(record)| && PastAlerts(record)[i].kind == kind;
      assert sent[i].kind == kind;
    }
    forall kind | Lists(next, kind) ensures Lists(record, kind) || kind == entry.kind {
      var i :| 0 <= i < |sent| && sent[i].kind == kind;
      assert i < |PastAlerts(record)| ==> PastAlerts(record)[i].kind == kind;
    }
  }

  lemma {:induction false} NothingEmittedIff(alerts: seq<Option<Alert>>)
    ensures Emitted(alerts) == [] <==> forall i :: 0 <= i < |alerts| ==> alerts[i] == None
  {
    if alerts != [] {
      NothingEmittedIff(alerts[..|alerts| - 1]);
    }
  }

  /** When no alert follows a cycle at the same clock, nothing else changes. */
  lemma SilentAgain(records: seq<AlertRecord>, feed: seq<Launch>, settings: Settings, now: int)
    ensures var first := Again(records, feed, settings, now);
      (Decision(first, feed, settings, now).alerts == [])
      <==> (Decision(first, feed, settings, now) == CycleDecision([], first))
  {
    var first := Again(records, feed, settings, now);
    var m := MapOf(first);
    if Decision(first, feed, settings, now).alerts == [] {
      SilentFeedChangesNothing(m, feed, settings, now);
      assert PruneMap(m, settings.policy, now) == m;
      AscendingUnique(first, Again(first, feed, settings, now));
    }
  }

  /** Exactly when one cycle is enough: the second cycle with the same distinct-key
      feed and clock changes nothing if and only if no relevant launch has a countdown
      alert left over. */
  lemma SettlesAtOnceIff(records: seq<AlertRecord>, feed: seq<Launch>, settings: Settings, now: int)
    requires DistinctLaunches(feed)
    requires settings.policy.correctionTimeShift > 0 && settings.policy.retention >= 0
    ensures var first := Again(records, feed, settings, now);
      Decision(first, feed, settings, now) == CycleDecision([], first)
      <==> (forall i :: 0 <= i < |feed| && Terms(feed[i], settings) != [] ==>
              !LeftOver(Lookup(MapOf(records), feed[i].Key()), feed[i], settings.policy, now))
  {
    var m := MapOf(Again(records, feed, settings, now));
    forall i | 0 <= i < |feed| && Terms(feed[i], settings) != []
      ensures AlertsOf(m, feed, settings, now)[i] == None
        <==> !LeftOver(Lookup(MapOf(records), feed[i].Key()), feed[i], settings.policy, now)
    {
      OneCyclePerKey(records, feed, settings, now, i);
      KeySettlesAtOnceIff(Lookup(MapOf(records), feed[i].Key()), Sighting(feed[i], Terms(feed[i], settings)),
                          settings.policy, now);
    }
    NothingEmittedIff(AlertsOf(m, feed, settings, now));
    DistinctFeedIsPointwise(m, feed, settings, now);
    SilentAgain(records, feed, settings, now);
  }

  /** A launch that moved and is due for `kind`: the cycle corrects it, and the next
      look raises the countdown alert. */
  lemma {:induction false} CorrectionThenCountdown(record: AlertRecord, s: Sighting, policy: AlertPolicy, now: int,
                                                   kind: AlertKind)
    requires policy.correctionTimeShift > 0
    requires Moved(Some(record), s.launch, policy) && Due(kind, s.launch, policy, now) && !Covered(Some(record), kind)
    ensures SeeAll(Some(record), [s, s], policy, now).alerts ==
      [MakeCorrection(s.launch, record, TimeChanged, s.matchedTerms, now),
       MakeCountdown(s.launch, kind, s.matchedTerms, now)]
  {
    SeeTwo(Some(record), s, s, policy, now);
  }

  lemma SeeTwo(record: Option<AlertRecord>, a: Sighting, b: Sighting, policy: AlertPolicy, now: int)
    ensures SeeAll(record, [a, b], policy, now)
      == SeeOne(SeeOne(KeyFold(record, []), a, policy, now), b, policy, now)
  {
    assert [a, b][..1] == [a] && [a][..0] == [];
    assert SeeAll(record, [a], policy, now) == SeeOne(SeeAll(record, [a][..0], policy, now), a, policy, now);
  }

  /** A key listed twice, with launch times at least a correction shift apart, against
      a record that tells the second listing: both listings are corrected, and the
      record tells the second one again. */
  lemma {:induction false} CorrectedTwice(record: AlertRecord, a: Sighting, b: Sighting, policy: AlertPolicy, now: int)
    requires policy.correctionTimeShift > 0
    requires Opposed(a.launch, b.launch, policy) && record.lastFacts == b.launch.Facts()
    ensures var f := SeeAll(Some(record), [a, b], policy, now);
      && f.alerts == [MakeCorrection(a.launch, record, TimeChanged, a.matchedTerms, now),
                      Alert(Correction, b.launch, now, b.matchedTerms, Some(TimeChanged), Some(a.launch.Facts()))]
      && f.record.Some? && f.record.value.lastFacts == b.launch.Facts() && f.record.value.lastAlertAt == now
  {
    SeeTwo(Some(record), a, b, policy, now);
  }

  predicate Opposed(a: Launch, b: Launch, policy: AlertPolicy) {
    && a.status == Go && b.status == Go && ClockTimed(a.precision) && ClockTimed(b.precision)
    && a.launchTime.Some? && b.launchTime.Some?
    && FarApart(a.launchTime.value, b.launchTime.value, policy.correctionTimeShift)
  }

  /** The records after `n` cycles with the same feed and clock. */
  ghost function Cycles(records: seq<AlertRecord>, feed: seq<Launch>, settings: Settings, now: int,
                        n: nat): seq<AlertRecord>
    decreases n
  {
    if n == 0 then records else Cycles(Again(records, feed, settings, now), feed, settings, now, n - 1)
  }

  lemma {:induction false} RepeatedKeyTells(records: seq<AlertRecord>, feed: seq<Launch>, settings: Settings,
                                            now: int, k: string, a: Sighting, b: Sighting, n: nat)
    requires settings.policy.correctionTimeShift > 0 && settings.policy.retention >= 0
    requires Sightings(feed, settings, k) == [a, b] && Opposed(a.launch, b.launch, settings.policy)
    requires Tells(records, k, b.launch)
    ensures Tells(Cycles(records, feed, settings, now, n), k, b.launch)
    decreases n, 1
  {
    if n > 0 {
      RepeatedKeyCycle(records, feed, settings, now, k, a, b);
      RepeatedKeyTellsLater(records, Again(records, feed, settings, now), feed, settings, now, k, a, b, n - 1);
    }
  }

  lemma {:induction false} RepeatedKeyTellsLater(records: seq<AlertRecord>, next: seq<AlertRecord>, feed: seq<Launch>,
                                                 settings: Settings, now: int, k: string, a: Sighting, b: Sighting,
                                                 n: nat)
    requires settings.policy.correctionTimeShift > 0 && settings.policy.retention >= 0
    requires Sightings(feed, settings, k) == [a, b] && Opposed(a.launch, b.launch, settings.policy)
    requires next == Again(records, feed, settings, now) && Tells(next, k, b.launch)
    ensures Tells(Cycles(records, feed, settings, now, n + 1), k, b.launch)
    decreases n + 1, 0
  {
    RepeatedKeyTells(next, feed, settings, now, k, a, b, n);
  }

  /** From a record that tells the second listing, every one of any number of cycles
      raises two time corrections for the key. */
  lemma RepeatedKeyNeverSettles(records: seq<AlertRecord>, feed: seq<Launch>, settings: Settings, now: int, k: string,
                                a: Sighting, b: Sighting)
    requires settings.policy.correctionTimeShift > 0 && settings.policy.retention >= 0
    requires Sightings(feed, settings, k) == [a, b] && Opposed(a.launch, b.launch, settings.policy)
    requires Tells(records, k, b.launch)
    ensures forall n: nat :: TwiceCorrected(AlertsIn(Cycles(records, feed, settings, now, n), feed, settings, now, k))
  {
    forall n: nat ensures TwiceCorrected(AlertsIn(Cycles(records, feed, settings, now, n), feed, settings, now, k)) {
      RepeatedKeyAt(records, feed, settings, now, k, a, b, n);
    }
  }

  lemma RepeatedKeyAt(records: seq<AlertRecord>, feed: seq<Launch>, settings: Settings, now: int, k: string,
                      a: Sighting, b: Sighting, n: nat)
    requires settings.policy.correctionTimeShift > 0 && settings.policy.retention >= 0
    requires Sightings(feed, settings, k) == [a, b] && Opposed(a.launch, b.launch, settings.policy)
    requires Tells(records, k, b.launch)
    ensures TwiceCorrected(AlertsIn(Cycles(records, feed, settings, now, n), feed, settings, now, k))
  {
    RepeatedKeyTells(records, feed, settings, now, k, a, b, n);
    RepeatedKeyCycle(Cycles(records, feed, settings, now, n), feed, settings, now, k, a, b);
  }

  /** What a cycle from `records` says about key `k`. */
  ghost function AlertsIn(records: seq<AlertRecord>, feed: seq<Launch>, settings: Settings, now: int,
                          k: string): seq<Alert> {
    AlertsFor(Decision(records, feed, settings, now).alerts, k)
  }

  ghost predicate Tells(records: seq<AlertRecord>, k: string, launch: Launch) {
    var record := Lookup(MapOf(records), k);
    record.Some? && record.value.lastFacts == launch.Facts()
  }

  predicate TwiceCorrected(alerts: seq<Alert>) {
    |alerts| == 2 && alerts[0].reason == Some(TimeChanged) && alerts[1].reason == Some(TimeChanged)
  }

  lemma RepeatedKeyCycle(records: seq<AlertRecord>, feed: seq<Launch>, settings: Settings, now: int, k: string,
                         a: Sighting, b: Sighting)
    requires settings.policy.correctionTimeShift > 0 && settings.policy.retention >= 0
    requires Sightings(feed, settings, k) == [a, b] && Opposed(a.launch, b.launch, settings.policy)
    requires Tells(records, k, b.launch)
    ensures Tells(Again(records, feed, settings, now), k, b.launch)
    ensures TwiceCorrected(AlertsIn(records, feed, settings, now, k))
  {
    CyclePerKey(records, feed, settings, now, k);
    CorrectedTwice(Lookup(MapOf(records), k).value, a, b, settings.policy, now);
  }

  // ----- when a feed stirs -----

  /** The launch stirs the record: it outdates it, or a countdown alert is owed. */
  predicate Stirs(record: Option<AlertRecord>, launch: Launch, policy: AlertPolicy, now: int) {
    || (record.Some? && exists reason :: Outdated(record.value.lastFacts, reason, launch, policy))
    || Owed(record, launch, policy, now)
  }

  /** A sighting raises an alert if and only if it stirs the record. */
  lemma DecidedIff(record: Option<AlertRecord>, s: Sighting, policy: AlertPolicy, now: int)
    ensures Decide(record, s, policy, now).Some? <==> Stirs(record, s.launch, policy, now)
  {
    CorrectedIff(s.launch, record, s.matchedTerms, policy, now);
    if record.None? || forall reason :: !Outdated(record.value.lastFacts, reason, s.launch, policy) {
      CountdownIff(record, s, policy, now);
    }
  }

  /** Sightings of a key, however many, raise nothing if and only if none of them stirs
      the record. */
  lemma {:induction false} SilentSightingsIff(record: Option<AlertRecord>, seen: seq<Sighting>, policy: AlertPolicy,
                                              now: int)
    ensures SeeAll(record, seen, policy, now).alerts == []
      <==> (forall s <- seen :: !Stirs(record, s.launch, policy, now))
  {
    if seen != [] {
      var init, last := seen[..|seen| - 1], seen[|seen| - 1];
      assert seen == init + [last];
      SilentSightingsIff(record, init, policy, now);
      SeeAllContinues(record, init, policy, now);
      if SeeAll(record, init, policy, now).alerts == [] {
        DecidedIff(record, last, policy, now);
      }
    }
  }

  /** For every feed, repeated keys included: a cycle says nothing about a key if and
      only if no relevant listing of it stirs the record it had before the cycle. */
  lemma SilentKeyIff(records: seq<AlertRecord>, feed: seq<Launch>, settings: Settings, now: int, k: string)
    ensures AlertsIn(records, feed, settings, now, k) == []
      <==> (forall s <- Sightings(feed, settings, k) ::
              !Stirs(Lookup(MapOf(records), k), s.launch, settings.policy, now))
  {
    CyclePerKey(records, feed, settings, now, k);
    SilentSightingsIff(Lookup(MapOf(records), k), Sightings(feed, settings, k), settings.policy, now);
  }

  lemma {:induction false} SilentForAllKeys(alerts: seq<Alert>)
    ensures alerts == [] ==> forall k :: AlertsFor(alerts, k) == []
    ensures alerts != [] ==> exists alert <- alerts :: AlertsFor(alerts, alert.launch.Key()) != []
  {
    if alerts != [] {
      var last := alerts[|alerts| - 1];
      assert last in alerts && AlertsFor(alerts, last.launch.Key()) != [];
    }
  }

  lemma {:induction false} SightingsAreListings(feed: seq<Launch>, settings: Settings, k: string)
    ensures forall s <- Sightings(feed, settings, k) ::
      s.launch in feed && s.launch.Key() == k && Terms(s.launch, settings) != []
    ensures forall launch <- feed :: launch.Key() == k && Terms(launch, settings) != [] ==>
      Sighting(launch, Terms(launch, settings)) in Sightings(feed, settings, k)
  {
    if feed != [] {
      assert feed == feed[..|feed| - 1] + [feed[|feed| - 1]];
      SightingsAreListings(feed[..|feed| - 1], settings, k);
    }
  }

  /** For every feed: a cycle raises no alert if and only if no relevant listing stirs
      the record that its key had before the cycle. */
  lemma SilentCycleIff(records: seq<AlertRecord>, feed: seq<Launch>, settings: Settings, now: int)
    ensures Decision(records, feed, settings, now).alerts == []
      <==> (forall launch <- feed :: SilentListings(records, feed, settings, now, launch.Key()))
  {
    var alerts := Decision(records, feed, settings, now).alerts;
    SilentForAllKeys(alerts);
    forall k ensures AlertsFor(alerts, k) == [] <==> SilentListings(records, feed, settings, now, k) {
      SilentListingsIff(records, feed, settings, now, k);
    }
  }

  lemma SilentListingsIff(records: seq<AlertRecord>, feed: seq<Launch>, settings: Settings, now: int, k: string)
    ensures AlertsIn(records, feed, settings, now, k) == [] <==> SilentListings(records, feed, settings, now, k)
  {
    SilentKeyIff(records, feed, settings, now, k);
    SightingsAreListings(feed, settings, k);
  }

  /** No relevant listing of the key stirs its record. */
  ghost predicate SilentListings(records: seq<AlertRecord>, feed: seq<Launch>, settings: Settings, now: int,
                                 k: string) {
    forall launch <- feed :: launch.Key() == k && Terms(launch, settings) != [] ==>
      !Stirs(Lookup(MapOf(records), k), launch, settings.policy, now)
  }

  // ----- when a key listed twice settles -----

  /** One of two listings stirs the record, or would stir an empty slot that the pruning
      of the record leaves. */
  predicate Unsettled(record: Option<AlertRecord>, a: Launch, b: Launch, policy: AlertPolicy, now: int) {
    || Stirs(record, a, policy, now) || Stirs(record, b, policy, now)
    || (record.Some? && !Young(record.value, policy, now)
        && (Stirs(None, a, policy, now) || Stirs(None, b, policy, now)))
  }

  ghost predicate ListedTwice(feed: seq<Launch>, settings: Settings, k: string, a: Sighting, b: Sighting) {
    && Sightings(feed, settings, k) == [a, b] && Opposed(a.launch, b.launch, settings.policy)
    && settings.policy.correctionTimeShift > 0 && settings.policy.retention >= 0
  }

  /** If two opposed listings raise anything, the last alert is about the second. */
  lemma StirredTells(record: Option<AlertRecord>, a: Sighting, b: Sighting, policy: AlertPolicy, now: int)
    requires policy.correctionTimeShift > 0 && Opposed(a.launch, b.launch, policy)
    requires SeeAll(record, [a, b], policy, now).alerts != []
    ensures var after := SeeAll(record, [a, b], policy, now).record;
      after.Some? && after.value.lastFacts == b.launch.Facts() && after.value.lastAlertAt == now
  {
    SeeTwo(record, a, b, policy, now);
    var first := SeeOne(KeyFold(record, []), a, policy, now).record;
    if Decide(record, a, policy, now).Some? {
      assert first.value.lastFacts == a.launch.Facts();
      assert Outdated(first.value.lastFacts, TimeChanged, b.launch, policy);
      DecidedIff(first, b, policy, now);
    }
  }

  lemma SilentPairIff(record: Option<AlertRecord>, a: Sighting, b: Sighting, policy: AlertPolicy, now: int)
    ensures SeeAll(record, [a, b], policy, now).alerts == []
      <==> !Stirs(record, a.launch, policy, now) && !Stirs(record, b.launch, policy, now)
    ensures SeeAll(record, [a, b], policy, now).alerts == [] ==> SeeAll(record, [a, b], policy, now).record == record
  {
    SilentSightingsIff(record, [a, b], policy, now);
    SeeAllContinues(record, [a, b], policy, now);
    assert a in [a, b] && b in [a, b];
  }

  /** A settled key stays silent, and settled, in the next cycle. */
  lemma SettledCycle(records: seq<AlertRecord>, feed: seq<Launch>, settings: Settings, now: int, k: string,
                     a: Sighting, b: Sighting)
    requires ListedTwice(feed, settings, k, a, b)
    requires !Unsettled(Lookup(MapOf(records), k), a.launch, b.launch, settings.policy, now)
    ensures AlertsIn(records, feed, settings, now, k) == []
    ensures !Unsettled(Lookup(MapOf(Again(records, feed, settings, now)), k), a.launch, b.launch, settings.policy, now)
  {
    CyclePerKey(records, feed, settings, now, k);
    SilentPairIff(Lookup(MapOf(records), k), a, b, settings.policy, now);
  }

  /** An unsettled key raises alerts now and tells the second listing, or it raises none
      and its slot, now empty, is stirred in the next cycle. */
  lemma UnsettledCycle(records: seq<AlertRecord>, feed: seq<Launch>, settings: Settings, now: int, k: string,
                       a: Sighting, b: Sighting)
    requires ListedTwice(feed, settings, k, a, b)
    requires Unsettled(Lookup(MapOf(records), k), a.launch, b.launch, settings.policy, now)
    ensures var after := Again(records, feed, settings, now);
      || Tells(after, k, b.launch)
      || (Lookup(MapOf(after), k) == None
          && (Stirs(None, a.launch, settings.policy, now) || Stirs(None, b.launch, settings.policy, now)))
  {
    var record := Lookup(MapOf(records), k);
    CyclePerKey(records, feed, settings, now, k);
    SilentPairIff(record, a, b, settings.policy, now);
    if SeeAll(record, [a, b], settings.policy, now).alerts != [] {
      StirredTells(record, a, b, settings.policy, now);
    }
  }

  /** After two cycles an unsettled key tells the second listing. */
  lemma UnsettledTells(records: seq<AlertRecord>, feed: seq<Launch>, settings: Settings, now: int, k: string,
                       a: Sighting, b: Sighting)
    requires ListedTwice(feed, settings, k, a, b)
    requires Unsettled(Lookup(MapOf(records), k), a.launch, b.launch, settings.policy, now)
    ensures Tells(Again(Again(records, feed, settings, now), feed, settings, now), k, b.launch)
  {
    var first := Again(records, feed, settings, now);
    UnsettledCycle(records, feed, settings, now, k, a, b);
    if Tells(first, k, b.launch) {
      RepeatedKeyCycle(first, feed, settings, now, k, a, b);
    } else {
      EmptyIsStirred(first, feed, settings, now, k, a, b);
    }
  }

  lemma EmptyIsStirred(records: seq<AlertRecord>, feed: seq<Launch>, settings: Settings, now: int, k: string,
                       a: Sighting, b: Sighting)
    requires ListedTwice(feed, settings, k, a, b) && Lookup(MapOf(records), k) == None
    requires Stirs(None, a.launch, settings.policy, now) || Stirs(None, b.launch, settings.policy, now)
    ensures Tells(Again(records, feed, settings, now), k, b.launch)
  {
    CyclePerKey(records, feed, settings, now, k);
    SilentPairIff(None, a, b, settings.policy, now);
    StirredTells(None, a, b, settings.policy, now);
  }

  lemma {:induction false} SettledStays(records: seq<AlertRecord>, feed: seq<Launch>, settings: Settings, now: int,
                                        k: string, a: Sighting, b: Sighting, n: nat)
    requires ListedTwice(feed, settings, k, a, b)
    requires !Unsettled(Lookup(MapOf(records), k), a.launch, b.launch, settings.policy, now)
    ensures AlertsIn(Cycles(records, feed, settings, now, n), feed, settings, now, k) == []
    decreases n, 1
  {
    SettledCycle(records, feed, settings, now, k, a, b);
    if n > 0 {
      SettledLater(records, Again(records, feed, settings, now), feed, settings, now, k, a, b, n - 1);
    }
  }

  lemma {:induction false} SettledLater(records: seq<AlertRecord>, next: seq<AlertRecord>, feed: seq<Launch>,
                                        settings: Settings, now: int, k: string, a: Sighting, b: Sighting, n: nat)
    requires ListedTwice(feed, settings, k, a, b) && next == Again(records, feed, settings, now)
    requires !Unsettled(Lookup(MapOf(next), k), a.launch, b.launch, settings.policy, now)
    ensures AlertsIn(Cycles(records, feed, settings, now, n + 1), feed, settings, now, k) == []
    decreases n + 1, 0
  {
    SettledStays(next, feed, settings, now, k, a, b, n);
  }

  /** From cycle `n` on, nothing is said about the key. */
  ghost predicate QuietFrom(records: seq<AlertRecord>, feed: seq<Launch>, settings: Settings, now: int, k: string,
                            n: nat) {
    forall m: nat :: m >= n ==> AlertsIn(Cycles(records, feed, settings, now, m), feed, settings, now, k) == []
  }

  lemma SettledIsQuiet(records: seq<AlertRecord>, feed: seq<Launch>, settings: Settings, now: int, k: string,
                       a: Sighting, b: Sighting)
    requires ListedTwice(feed, settings, k, a, b)
    requires !Unsettled(Lookup(MapOf(records), k), a.launch, b.launch, settings.policy, now)
    ensures QuietFrom(records, feed, settings, now, k, 0)
  {
    forall m: nat ensures AlertsIn(Cycles(records, feed, settings, now, m), feed, settings, now, k) == [] {
      SettledStays(records, feed, settings, now, k, a, b, m);
    }
  }

  /** From its third cycle on, an unsettled key is corrected twice in every cycle. */
  lemma UnsettledIsNeverQuiet(records: seq<AlertRecord>, feed: seq<Launch>, settings: Settings, now: int, k: string,
                              a: Sighting, b: Sighting, n: nat)
    requires ListedTwice(feed, settings, k, a, b)
    requires Unsettled(Lookup(MapOf(records), k), a.launch, b.launch, settings.policy, now)
    ensures TwiceCorrected(AlertsIn(Cycles(records, feed, settings, now, n + 2), feed, settings, now, k))
  {
    UnsettledTells(records, feed, settings, now, k, a, b);
    var first := Again(records, feed, settings, now);
    var second := Again(first, feed, settings, now);
    TwiceCorrectedLater(records, first, second, feed, settings, now, k, a, b, n);
  }

  lemma TwiceCorrectedLater(records: seq<AlertRecord>, first: seq<AlertRecord>, second: seq<AlertRecord>,
                            feed: seq<Launch>, settings: Settings, now: int, k: string, a: Sighting, b: Sighting,
                              n: nat)
    requires ListedTwice(feed, settings, k, a, b) && Tells(second, k, b.launch)
    requires first == Again(records, feed, settings, now) && second == Again(first, feed, settings, now)
    ensures TwiceCorrected(AlertsIn(Cycles(records, feed, settings, now, n + 2), feed, settings, now, k))
  {
    RepeatedKeyAt(second, feed, settings, now, k, a, b, n);
    assert Cycles(first, feed, settings, now, n + 1) == Cycles(second, feed, settings, now, n);
  }

  /** Exactly when a key listed twice, with launch times at least a correction shift
      apart, settles: some number of cycles is enough if and only if neither listing
      stirs the record, nor the empty slot if the record expires in the first cycle. */
  lemma RepeatedKeySettlesIff(records: seq<AlertRecord>, feed: seq<Launch>, settings: Settings, now: int, k: string,
                              a: Sighting, b: Sighting)
    requires ListedTwice(feed, settings, k, a, b)
    ensures (exists n: nat :: QuietFrom(records, feed, settings, now, k, n))
      <==> !Unsettled(Lookup(MapOf(records), k), a.launch, b.launch, settings.policy, now)
  {
    if !Unsettled(Lookup(MapOf(records), k), a.launch, b.launch, settings.policy, now) {
      SettledIsQuiet(records, feed, settings, now, k, a, b);
    } else {
      forall n: nat ensures !QuietFrom(records, feed, settings, now, k, n) {
        UnsettledIsNeverQuiet(records, feed, settings, now, k, a, b, n);
      }
    }
  }

  // ----- skipping the save -----

  lemma PruneMapSize(m: RecordMap, policy: AlertPolicy, now: int)
    ensures |PruneMap(m, policy, now)| <= |m|
    ensures |PruneMap(m, policy, now)| == |m| <==> forall k <- m :: Retained(m[k], policy, now)
  {
    var p := PruneMap(m, policy, now);
    var dropped := m.Keys - p.Keys;
    assert p.Keys <= m.Keys;
    assert m.Keys == p.Keys + dropped;
    assert |m.Keys| == |p.Keys| + |dropped|;
    if forall k <- m :: Retained(m[k], policy, now) {
      assert p == m;
    } else {
      var k :| k in m && !Retained(m[k], policy, now);
      assert k in dropped;
    }
  }

  lemma {:induction false} DistinctOccurOnce(records: seq<AlertRecord>, r: AlertRecord)
    requires DistinctKeys(records)
    ensures multiset(records)[r] == if Lookup(MapOf(records), r.key) == Some(r) then 1 else 0
  {
    if records != [] {
      var init, last := records[..|records| - 1], records[|records| - 1];
      assert records == init + [last];
      LastKeyIsNew(records);
      DistinctOccurOnce(init, r);
    }
  }

  lemma SameMapIsPermutation(a: seq<AlertRecord>, b: seq<AlertRecord>)
    requires DistinctKeys(a) && DistinctKeys(b) && MapOf(a) == MapOf(b)
    ensures multiset(a) == multiset(b)
  {
    forall r ensures multiset(a)[r] == multiset(b)[r] {
      DistinctOccurOnce(a, r);
      DistinctOccurOnce(b, r);
    }
  }

  /** Comparing sizes is an exact test when a cycle raised no alert: the sizes
      agree exactly when the decided records are the loaded ones up to order,
      which is when loading found no repeated key and nothing to prune. */
  lemma SkippingTheSaveIsExact(records: seq<AlertRecord>, feed: seq<Launch>, settings: Settings, now: int)
    requires Decision(records, feed, settings, now).alerts == []
    ensures var updated := Decision(records, feed, settings, now).updatedRecords;
      && (|updated| == |records| <==> multiset(updated) == multiset(records))
      && (|updated| == |records| <==> DistinctKeys(records) && forall r <- records :: Young(r, settings.policy, now))
      && (|updated| == |records| && Ascending(records) ==> updated == records)
  {
    var m := MapOf(records);
    var updated := Decision(records, feed, settings, now).updatedRecords;
    SilentFeedChangesNothing(m, feed, settings, now);
    AscendingIsDistinct(updated);
    MapOfDistinct(updated);
    PruneMapSize(m, settings.policy, now);
    MapOfSize(records);
    if DistinctKeys(records) {
      RetainedInMap(records, settings.policy, now);
      if |updated| == |records| {
        assert PruneMap(m, settings.policy, now) == m;
        SameMapIsPermutation(updated, records);
        if Ascending(records) {
          AscendingUnique(updated, records);
        }
      }
    }
    if multiset(updated) == multiset(records) {
      assert |multiset(updated)| == |multiset(records)|;
    }
  }

  lemma RetainedInMap(records: seq<AlertRecord>, policy: AlertPolicy, now: int)
    requires DistinctKeys(records)
    ensures (forall k <- MapOf(records) :: Young(MapOf(records)[k], policy, now))
      <==> forall r <- records :: Young(r, policy, now)
  {
    var m := MapOf(records);
    MapOfDistinct(records);
    forall k | k in m ensures m[k] in records {
      MapOfKey(records, k);
    }
    forall r | r in records ensures r.key in m && m[r.key] == r {
      var i :| 0 <= i < |records| && records[i] == r;
    }
  }
}
