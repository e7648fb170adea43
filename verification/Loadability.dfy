/**
 Which runs keep the records file loadable, and what becomes of a run that does not.

 A record is read back only if its timestamps have years of four columns
 (`StorageLaws.RecordRoundTrip`). The parser itself yields an instant outside them.
 */
module Loadability {
  import opened Domain
  import opened KeyOrder
  import opened Core
  import opened CoreLaws
  import opened Calendar
  import opened TimeUtils
  import opened TimeLaws
  import opened Storage
  import opened StorageLaws
  import opened Orchestration
  import opened WatchRuns
  import Relevance

  // ----- an instant that is read but not read back -----

  /** 10000-01-01T00:00:59, in UTC. */
  const FAR_TIME := 253402300859

  lemma LastDays()
    ensures DayNumber(Date(9999, 12, 31)) == 2932896 && DayNumber(Date(10000, 1, 1)) == 2932897
  {
    assert DaysBeforeYear(9999) == 3651694 && DaysBeforeYear(10000) == 3652059;
    MonthsFillTheYear(9999);
    assert DaysBeforeMonth(9999, 13) == DaysBeforeMonth(9999, 12) + 31;
  }

  lemma FarYear()
    ensures YearAt(FAR_TIME) == 10000
  {
    LastDays();
    DayRoundTrip(Date(10000, 1, 1));
    assert FAR_TIME / 86400 == 2932897;
  }

  /** The last minute of year 9999, one minute west of UTC: the text is accepted, and
      the instant cannot be written so that it is read back. */
  lemma FarTimestampIsAccepted(text: string, c: Civil, suffix: Suffix)
    requires c == Civil(Date(9999, 12, 31), 23, 59, 59) && suffix == Offset(true, 0, 1, true)
    requires text == Timestamp(c, "", suffix)
    ensures ParsedInstant(text) == Some(FAR_TIME) && !Writable(FAR_TIME)
  {
    FarYear();
    TimestampShows(c, "", suffix);
    FarSeconds(c, suffix);
    OffsetCorrect(text, FAR_TIME, c, "", suffix);
  }

  lemma FarSeconds(c: Civil, suffix: Suffix)
    requires c == Civil(Date(9999, 12, 31), 23, 59, 59) && suffix == Offset(true, 0, 1, true)
    ensures Renders(c, suffix, FAR_TIME)
  {
    LastDays();
  }

  // ----- when a cycle keeps the records writable -----

  /** The alerts of a cycle about one key leave a record that can be read back. */
  predicate LeavesWritable(alerts: seq<Alert>, now: int) {
    alerts != [] ==> Writable(now) && TimeWritable(alerts[|alerts| - 1].launch.launchTime)
  }

  lemma {:induction false} SeenNow(record: Option<AlertRecord>, seen: seq<Sighting>, policy: AlertPolicy, now: int)
    ensures forall alert <- SeeAll(record, seen, policy, now).alerts :: alert.createdAt == now
  {
    if seen != [] {
      var before, s := SeeAll(record, seen[..|seen| - 1], policy, now), seen[|seen| - 1];
      SeenNow(record, seen[..|seen| - 1], policy, now);
      DecidedIsWarranted(s.launch, before.record, s.matchedTerms, policy, now);
    }
  }

  lemma ContinuedIsWritableIff(before: Option<AlertRecord>, after: AlertRecord, alerts: seq<Alert>, now: int)
    requires before.Some? ==> RecordWritable(before.value)
    requires alerts != [] && Continues(before, after, alerts, now)
    requires after.sentAlerts == PastAlerts(before) + Entries(alerts)
    requires forall alert <- alerts :: alert.createdAt == now
    ensures RecordWritable(after) <==> LeavesWritable(alerts, now)
  {
    assert forall sent <- Entries(alerts) :: sent.createdAt == now;
    if Writable(now) {
      assert AllSentWritable(PastAlerts(before)) && AllSentWritable(Entries(alerts));
      assert AllSentWritable(after.sentAlerts);
    }
  }

  lemma KeyIsWritableIff(records: seq<AlertRecord>, feed: seq<Launch>, settings: Settings, now: int, k: string)
    requires AllWritable(records) && settings.policy.retention >= 0
    ensures KeyWritable(Decision(records, feed, settings, now).updatedRecords, k)
      <==> LeavesWritable(AlertsIn(records, feed, settings, now, k), now)
  {
    var before, seen := Lookup(MapOf(records), k), Sightings(feed, settings, k);
    MapOfKey(records, k);
    CyclePerKey(records, feed, settings, now, k);
    AlertsAreConserved(records, feed, settings, now, k);
    SeenNow(before, seen, settings.policy, now);
    var alerts := AlertsIn(records, feed, settings, now, k);
    if alerts != [] {
      ContinuedIsWritableIff(before, Lookup(MapOf(Decision(records, feed, settings, now).updatedRecords), k).value,
                             alerts, now);
    }
  }

  ghost predicate KeyWritable(records: seq<AlertRecord>, k: string) {
    var record := Lookup(MapOf(records), k);
    record.Some? ==> RecordWritable(record.value)
  }

  lemma AscendingWritableIff(records: seq<AlertRecord>)
    requires Ascending(records)
    ensures AllWritable(records) <==> forall k :: KeyWritable(records, k)
  {
    AscendingIsDistinct(records);
    MapOfDistinct(records);
    forall k | k in MapOf(records) ensures MapOf(records)[k] in records {
      MapOfKey(records, k);
    }
    if forall k :: KeyWritable(records, k) {
      forall r | r in records ensures RecordWritable(r) {
        var i :| 0 <= i < |records| && records[i] == r;
        assert KeyWritable(records, r.key);
      }
    }
  }

  /** Exactly when the decided records can be read back: for every key that the cycle
      raises alerts about, the clock and the launch time of the last of them have years
      of four columns. */
  lemma DecisionIsWritableIff(records: seq<AlertRecord>, feed: seq<Launch>, settings: Settings, now: int)
    requires AllWritable(records) && settings.policy.retention >= 0
    ensures AllWritable(Decision(records, feed, settings, now).updatedRecords)
      <==> forall k :: LeavesWritable(AlertsIn(records, feed, settings, now, k), now)
  {
    var updated := Decision(records, feed, settings, now).updatedRecords;
    AscendingWritableIff(updated);
    forall k ensures KeyWritable(updated, k) <==> LeavesWritable(AlertsIn(records, feed, settings, now, k), now) {
      KeyIsWritableIff(records, feed, settings, now, k);
    }
  }

  predicate WritableInput(input: CycleInput) {
    Writable(input.now) && forall launch <- input.feed :: TimeWritable(launch.launchTime)
  }

  lemma {:induction false} AlertsForAre(alerts: seq<Alert>, k: string)
    ensures forall alert <- AlertsFor(alerts, k) :: alert in alerts
  {
    if alerts != [] {
      assert alerts == alerts[..|alerts| - 1] + [alerts[|alerts| - 1]];
      AlertsForAre(alerts[..|alerts| - 1], k);
    }
  }

  lemma DecisionIsWritable(records: seq<AlertRecord>, feed: seq<Launch>, settings: Settings, now: int)
    requires AllWritable(records) && settings.policy.retention >= 0
    requires Writable(now) && forall launch <- feed :: TimeWritable(launch.launchTime)
    ensures AllWritable(Decision(records, feed, settings, now).updatedRecords)
  {
    DecisionIsWritableIff(records, feed, settings, now);
    FoldIsJustified(MapOf(records), feed, settings, now);
    forall k ensures LeavesWritable(AlertsIn(records, feed, settings, now, k), now) {
      AlertsForAre(Decision(records, feed, settings, now).alerts, k);
    }
  }

  // ----- a launch at such an instant -----

  lemma FarTerms(changed: Launch)
    requires changed == LISTED.(launchTime := Some(FAR_TIME))
    ensures Terms(LISTED, EXAMPLE) == ["x"] && Terms(changed, EXAMPLE) == ["x"]
  {
    ExampleTerms(LISTED.(name := "y", launchTime := Some(90000)));
    SameTerms(LISTED, changed, EXAMPLE);
  }

  /** Relevance looks at the provider and the searchable fields only. */
  lemma SameTerms(a: Launch, b: Launch, settings: Settings)
    requires a.provider == b.provider && a.name == b.name && a.missionName == b.missionName
    requires a.missionDescription == b.missionDescription && a.padName == b.padName
    ensures Terms(a, settings) == Terms(b, settings)
  {
    SameMatches(a, b, settings.includeTerms);
  }

  lemma {:induction false} SameMatches(a: Launch, b: Launch, terms: seq<string>)
    requires a.provider == b.provider && a.name == b.name && a.missionName == b.missionName
    requires a.missionDescription == b.missionDescription && a.padName == b.padName
    ensures Relevance.MatchingTerms(a, terms) == Relevance.MatchingTerms(b, terms)
  {
    if terms != [] {
      SameMatches(a, b, terms[..|terms| - 1]);
      assert Relevance.SearchableFields(a) == Relevance.SearchableFields(b);
    }
  }

  /** The correction of a record that tells the example launch. */
  lemma FarCorrection(record: AlertRecord, changed: Launch, policy: AlertPolicy)
    requires changed == LISTED.(launchTime := Some(FAR_TIME)) && record.lastFacts == LISTED.Facts()
    requires policy == EXAMPLE.policy
    ensures DecideForLaunch(changed, Some(record), ["x"], policy, 0)
      == Some(MakeCorrection(changed, record, TimeChanged, ["x"], 0))
  {
  }

  lemma FarAlerts(records: seq<AlertRecord>, record: AlertRecord, changed: Launch)
    requires changed == LISTED.(launchTime := Some(FAR_TIME)) && record.lastFacts == LISTED.Facts()
    requires Lookup(MapOf(records), changed.Key()) == Some(record)
    ensures Decision(records, [changed], EXAMPLE, 0).alerts == [MakeCorrection(changed, record, TimeChanged, ["x"], 0)]
  {
    FarTerms(changed);
    FarCorrection(record, changed, EXAMPLE.policy);
    FoldOne(MapOf(records), changed, EXAMPLE, 0);
  }

  lemma OneAlertFor(alert: Alert)
    ensures AlertsFor([alert], alert.launch.Key()) == [alert]
  {
    assert [alert][..0] == [];
  }

  lemma MapOfOne(record: AlertRecord)
    ensures Lookup(MapOf([record]), record.key) == Some(record)
  {
    assert [record][..0] == [];
  }

  /** The example launch is announced; then the source moves it to that instant. The
      cycle corrects the time, and its records cannot be read back. */
  lemma FarLaunchIsRecorded(changed: Launch)
    requires changed == LISTED.(launchTime := Some(FAR_TIME))
    ensures var first := Decision([], [LISTED], EXAMPLE, 0).updatedRecords;
      var second := Decision(first, [changed], EXAMPLE, 0);
      && AllWritable(first)
      && |second.alerts| == 1 && second.alerts[0].reason == Some(TimeChanged)
      && !AllWritable(second.updatedRecords)
  {
    var record := UpdatedRecord(None, LISTED, MakeCountdown(LISTED, LaunchSoon, ["x"], 0), 0);
    ExampleIsAnnounced(LISTED.(name := "y", launchTime := Some(90000)));
    FarRecord(record, changed);
  }

  lemma FarRecord(record: AlertRecord, changed: Launch)
    requires changed == LISTED.(launchTime := Some(FAR_TIME))
    requires record == UpdatedRecord(None, LISTED, MakeCountdown(LISTED, LaunchSoon, ["x"], 0), 0)
    ensures var second := Decision([record], [changed], EXAMPLE, 0);
      && AllWritable([record])
      && |second.alerts| == 1 && second.alerts[0].reason == Some(TimeChanged)
      && !AllWritable(second.updatedRecords)
  {
    NearRecord(record);
    MapOfOne(record);
    FarAlerts([record], record, changed);
    DecisionIsWritableIff([record], [changed], EXAMPLE, 0);
    FarIsNotWritable(MakeCorrection(changed, record, TimeChanged, ["x"], 0),
                     AlertsIn([record], [changed], EXAMPLE, 0, changed.Key()));
  }

  lemma NearRecord(record: AlertRecord)
    requires record == UpdatedRecord(None, LISTED, MakeCountdown(LISTED, LaunchSoon, ["x"], 0), 0)
    ensures AllWritable([record])
  {
    NearYear();
  }

  lemma FarIsNotWritable(alert: Alert, alerts: seq<Alert>)
    requires alert.launch.launchTime == Some(FAR_TIME) && alerts == AlertsFor([alert], alert.launch.Key())
    ensures !LeavesWritable(alerts, 0)
  {
    OneAlertFor(alert);
    FarYear();
  }

  lemma NearYear()
    ensures Writable(0) && Writable(1000)
  {
    EpochDate();
    assert SplitUtc(0).date == DateOf(0) && SplitUtc(1000).date == DateOf(0);
  }

  // ----- whole runs -----

  lemma UnloadableCycle(h: History, input: CycleInput, setup: Setup)
    requires Faithful(h) && !AllWritable(h.saved)
    ensures var run := CycleOf(h, input, setup);
      run.disk == h.watch.disk && run.notices == [] && run.deliveries == [] && !run.committed
  {
    DocumentRoundTrip(h.saved);
    NothingLoads(h.watch.disk.file, Rest(input.verdicts));
    CycleWithoutRecords(h, input, setup, LoadSteps(h.watch.disk.file, Rest(input.verdicts)));
  }

  lemma NothingLoads(file: Option<Content>, verdicts: seq<bool>)
    requires Loaded(file) == None
    ensures !LoadSteps(file, verdicts).status.Records?
  {
  }

  lemma CycleWithoutRecords(h: History, input: CycleInput, setup: Setup, load: LoadRun)
    requires load == LoadSteps(h.watch.disk.file, Rest(input.verdicts)) && !load.status.Records?
    ensures var run := CycleOf(h, input, setup);
      run.disk == h.watch.disk && run.notices == [] && run.deliveries == [] && !run.committed
  {
  }

  /** A records file that cannot be read back ends the watch: no cycle of any later
      process commits, sends or writes anything, whatever the source lists. */
  lemma {:induction false} UnloadableForever(h: History, inputs: seq<CycleInput>, setup: Setup)
    requires Faithful(h) && !AllWritable(h.saved)
    ensures HistoryAfter(h, inputs, setup) == h
  {
    if inputs != [] {
      var init := inputs[..|inputs| - 1];
      UnloadableForever(h, init, setup);
      UnloadableCycle(h, inputs[|inputs| - 1], setup);
      NothingAdded(h);
    }
  }

  lemma NothingAdded(h: History)
    ensures h.watch.sent + [] == h.watch.sent && h.origins + OriginsOf(|h.ledger|, []) == h.origins
  {
  }

  ghost predicate WritableInputs(inputs: seq<CycleInput>) {
    forall i :: 0 <= i < |inputs| ==> WritableInput(inputs[i])
  }

  /** While clocks and launch times have years of four columns, the records file stays
      loadable, whatever fails and wherever processes die. */
  lemma {:induction false} LoadableForever(h: History, inputs: seq<CycleInput>, setup: Setup)
    requires setup.config.Policy().retention >= 0
    requires Faithful(h) && AllWritable(h.saved) && WritableInputs(inputs)
    ensures var after := HistoryAfter(h, inputs, setup);
      Faithful(after) && AllWritable(after.saved) && Loaded(after.watch.disk.file) == Some(after.saved)
  {
    RunIsFaithful(h, inputs, setup);
    if inputs != [] {
      var init, last := inputs[..|inputs| - 1], inputs[|inputs| - 1];
      LoadableForever(h, init, setup);
      DecisionIsWritable(HistoryAfter(h, init, setup).saved, last.feed, SettingsOf(setup.config), last.now);
    }
    DocumentRoundTrip(HistoryAfter(h, inputs, setup).saved);
  }
}
