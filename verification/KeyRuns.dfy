/**
 Whole runs, seen from one key.

 A run is a sequence of cycles. A cycle sees the key zero or more times and is
 either committed (its records reached the records file) or lost (a fetch, load
 or save failed, or the process died before the records were replaced). The
 ledger lists every alert ever committed for the key.

 `WatchRuns` shows that every run of the watcher is such a run for every key.
 */
module KeyRuns {
  import opened Domain
  import opened KeyOrder
  import opened Core
  import opened CoreLaws

  datatype KeyState = KeyState(record: Option<AlertRecord>, ledger: seq<Alert>)

  datatype KeyCycle = KeyCycle(now: int, seen: seq<Sighting>, committed: bool)

  const FRESH := KeyState(None, [])

  function KeyNext(st: KeyState, c: KeyCycle, policy: AlertPolicy): KeyState {
    if !c.committed then st else
      var f := SeeAll(st.record, c.seen, policy, c.now);
      KeyState(Aged(f.record, policy, c.now), st.ledger + f.alerts)
  }

  function KeyRun(st: KeyState, run: seq<KeyCycle>, policy: AlertPolicy): KeyState {
    if run == [] then st
    else KeyNext(KeyRun(st, run[..|run| - 1], policy), run[|run| - 1], policy)
  }

  ghost predicate Chronological(run: seq<KeyCycle>) {
    forall i, j :: 0 <= i < j < |run| ==> run[i].now <= run[j].now
  }

  ghost predicate Sane(policy: AlertPolicy) {
    && 0 < policy.launchImminent < policy.launchSoon
    && 0 < policy.correctionTimeShift
    && 0 < policy.scheduleLookahead
    && 0 < policy.retention
  }

  /** A single sighting, on a key's record and ledger. */
  function Observe(st: KeyState, s: Sighting, policy: AlertPolicy, now: int): KeyState {
    match Decide(st.record, s, policy, now)
    case None => st
    case Some(alert) => KeyState(Some(UpdatedRecord(st.record, s.launch, alert, now)), st.ledger + [alert])
  }

  lemma SeeAllSteps(st: KeyState, seen: seq<Sighting>, policy: AlertPolicy, now: int)
    requires seen != []
    ensures var before := SeeAll(st.record, seen[..|seen| - 1], policy, now);
      var after := SeeAll(st.record, seen, policy, now);
      KeyState(after.record, st.ledger + after.alerts)
        == Observe(KeyState(before.record, st.ledger + before.alerts), seen[|seen| - 1], policy, now)
  {
    var before := SeeAll(st.record, seen[..|seen| - 1], policy, now);
    var alert := Decide(before.record, seen[|seen| - 1], policy, now);
    if alert.Some? {
      assert st.ledger + (before.alerts + [alert.value]) == (st.ledger + before.alerts) + [alert.value];
    }
  }

  // ----- the language of records -----

  /** Kind `later` is not sent while a record remembers `earlier`. */
  predicate Suppresses(earlier: AlertKind, later: AlertKind) {
    || (earlier == later && earlier != Correction)
    || (earlier == LaunchImminent && later == LaunchSoon)
  }

  /** No two adjacent corrections for the same standing condition. */
  predicate Repeats(earlier: SentAlert, later: SentAlert) {
    earlier.reason == later.reason && (earlier.reason == Some(NoLongerGo) || earlier.reason == Some(TimingNowImprecise))
  }

  /** What every record in the file looks like, at clock `clock`. */
  ghost predicate WellFormed(record: AlertRecord, clock: int) {
    var sent := record.sentAlerts;
    && sent != []
    && sent[0].kind != Correction
    && (forall i, j :: 0 <= i < j < |sent| ==> !Suppresses(sent[i].kind, sent[j].kind))
    && (forall i, j :: 0 <= i < j < |sent| && j == i + 1 ==> !Repeats(sent[i], sent[j]))
    && (forall i :: 0 <= i < |sent| ==> (sent[i].reason.Some? <==> sent[i].kind == Correction))
    && (forall i, j :: 0 <= i < j < |sent| ==> sent[i].createdAt <= sent[j].createdAt)
    && record.firstAlertAt == sent[0].createdAt
    && record.lastAlertAt == sent[|sent| - 1].createdAt <= clock
    && FactsMatch(record.lastFacts, sent[|sent| - 1])
  }

  /** The last facts are those of a launch that could raise the last alert. */
  predicate FactsMatch(facts: LaunchFacts, last: SentAlert) {
    && (facts.status == NoGo <==> last.reason == Some(NoLongerGo))
    && (facts.status == Go <==> last.reason != Some(NoLongerGo))
    && (last.reason == Some(TimingNowImprecise) ==> !ClockTimed(facts.precision))
    && (last.reason == Some(TimeChanged) ==> facts.launchTime.Some?)
    && (last.kind == LaunchSoon || last.kind == LaunchImminent ==> facts.precision == Precise && facts.launchTime.Some?)
    && (last.kind == HourPrecision ==> facts.precision == Hour && facts.launchTime.Some?)
  }

  lemma NewEntryFits(record: Option<AlertRecord>, s: Sighting, policy: AlertPolicy, now: int)
    requires Decide(record, s, policy, now).Some?
    ensures var alert := Decide(record, s, policy, now).value;
      && alert.launch == s.launch && alert.createdAt == now
      && FactsMatch(s.launch.Facts(), alert.Entry())
      && (alert.reason.Some? <==> alert.kind == Correction)
      && (record.None? ==> alert.kind != Correction)
      && (alert.kind == Correction ==> alert.previous == Some(record.value.lastFacts))
      && (forall k :: Suppresses(k, alert.kind) ==> !Lists(record, k))
      && (record.Some? && alert.reason == Some(NoLongerGo) ==> record.value.lastFacts.status != NoGo)
      && (record.Some? && alert.reason == Some(TimingNowImprecise) ==> ClockTimed(record.value.lastFacts.precision))
      && (alert.reason == Some(TimeChanged) ==>
            && record.value.lastFacts.launchTime.Some? && s.launch.launchTime.Some?
            && FarApart(s.launch.launchTime.value, record.value.lastFacts.launchTime.value, policy.correctionTimeShift))
  {
  }

  lemma UpdateKeepsWellFormed(record: Option<AlertRecord>, s: Sighting, policy: AlertPolicy, clock: int, now: int)
    requires record.Some? ==> WellFormed(record.value, clock)
    requires clock <= now && Decide(record, s, policy, now).Some?
    ensures WellFormed(UpdatedRecord(record, s.launch, Decide(record, s, policy, now).value, now), now)
  {
    NewEntryFits(record, s, policy, now);
    var alert := Decide(record, s, policy, now).value;
    if record.Some? {
      var prior := record.value.sentAlerts;
      forall i | 0 <= i < |prior| ensures !Suppresses(prior[i].kind, alert.kind) {
        assert prior[i] in record.value.sentAlerts;
      }
      assert !Repeats(prior[|prior| - 1], alert.Entry());
      EntryKeepsWellFormed(record.value, UpdatedRecord(record, s.launch, alert, now), alert.Entry(), clock, now);
    }
  }

  lemma EntryKeepsWellFormed(record: AlertRecord, updated: AlertRecord, entry: SentAlert, clock: int, now: int)
    requires WellFormed(record, clock) && clock <= now
    requires updated.sentAlerts == record.sentAlerts + [entry] && FactsMatch(updated.lastFacts, entry)
    requires entry.createdAt == now && updated.firstAlertAt == record.firstAlertAt && updated.lastAlertAt == now
    requires entry.reason.Some? <==> entry.kind == Correction
    requires forall i :: 0 <= i < |record.sentAlerts| ==> !Suppresses(record.sentAlerts[i].kind, entry.kind)
    requires !Repeats(record.sentAlerts[|record.sentAlerts| - 1], entry)
    ensures WellFormed(updated, now)
  {
    var prior := record.sentAlerts;
    forall i | 0 <= i < |prior| ensures prior[i].createdAt <= now {
      assert prior[i].createdAt <= prior[|prior| - 1].createdAt;
    }
  }

  lemma LaterClock(record: AlertRecord, clock: int, now: int)
    requires WellFormed(record, clock) && clock <= now
    ensures WellFormed(record, now)
  {
  }

  // ----- the ledger -----

  /** How many ledger entries the current record stands for. */
  function Live(st: KeyState): nat {
    if st.record.Some? then |st.record.value.sentAlerts| else 0
  }

  /** Any two alerts of the same countdown kind, and a Launch Soon after a Launch
      Imminent, are more than `retention` apart. */
  ghost predicate Spaced(ledger: seq<Alert>, retention: int) {
    forall i, j :: 0 <= i < j < |ledger| && Suppresses(ledger[i].kind, ledger[j].kind)
      ==> ledger[j].createdAt - ledger[i].createdAt > retention
  }

  /** Each correction quotes the facts of the alert right before it, and reports
      different ones. */
  ghost predicate CorrectionsQuote(ledger: seq<Alert>) {
    forall i :: 0 <= i < |ledger| && ledger[i].kind == Correction ==>
      && i > 0
      && ledger[i].previous == Some(ledger[i - 1].launch.Facts())
      && ledger[i].launch.Facts() != ledger[i - 1].launch.Facts()
  }

  ghost predicate InOrder(ledger: seq<Alert>, clock: int) {
    && (forall i, j :: 0 <= i < j < |ledger| ==> ledger[i].createdAt <= ledger[j].createdAt)
    && (forall i :: 0 <= i < |ledger| ==> ledger[i].createdAt <= clock)
  }

  /** The record is the tail of the ledger; what is no longer in the record is
      older than the retention. */
  ghost predicate Remembers(st: KeyState, retention: int, clock: int) {
    var n := |st.ledger| - Live(st);
    && 0 <= n
    && Entries(st.ledger[n..]) == PastAlerts(st.record)
    && (st.record.Some? ==> st.ledger != [] && st.record.value.lastFacts == st.ledger[|st.ledger| - 1].launch.Facts())
    && (forall i :: 0 <= i < n ==> clock - st.ledger[i].createdAt > retention)
  }

  ghost predicate Good(st: KeyState, policy: AlertPolicy, clock: int) {
    && (st.record.Some? ==> WellFormed(st.record.value, clock))
    && Remembers(st, policy.retention, clock)
    && InOrder(st.ledger, clock)
    && Spaced(st.ledger, policy.retention)
    && CorrectionsQuote(st.ledger)
  }

  lemma LaterIsGood(st: KeyState, policy: AlertPolicy, clock: int, now: int)
    requires Good(st, policy, clock) && clock <= now
    ensures Good(st, policy, now)
  {
    if st.record.Some? {
      LaterClock(st.record.value, clock, now);
    }
  }

  lemma ObserveKeepsGood(st: KeyState, s: Sighting, policy: AlertPolicy, clock: int, now: int)
    requires Sane(policy) && Good(st, policy, clock) && clock <= now
    ensures Good(Observe(st, s, policy, now), policy, now)
  {
    LaterIsGood(st, policy, clock, now);
    if Decide(st.record, s, policy, now).Some? {
      UpdateKeepsWellFormed(st.record, s, policy, clock, now);
      AppendKeepsRemembers(st, s, policy, clock, now);
      AppendKeepsSpaced(st, s, policy, clock, now);
      NewEntryFits(st.record, s, policy, now);
      AppendKeepsOrder(st.ledger, Decide(st.record, s, policy, now).value, clock, now);
      ObserveKeepsQuotes(st, s, policy, now);
    }
  }

  lemma AppendKeepsOrder(ledger: seq<Alert>, alert: Alert, clock: int, now: int)
    requires InOrder(ledger, clock) && clock <= now && alert.createdAt == now
    ensures InOrder(ledger + [alert], now)
  {
    var more := ledger + [alert];
    forall i | 0 <= i < |ledger| ensures more[i] == ledger[i] && more[i].createdAt <= now {
    }
  }

  /** The record tells what the last alert of the ledger told. */
  ghost predicate Tied(st: KeyState) {
    st.record.Some? ==>
      st.ledger != [] && st.record.value.lastFacts == st.ledger[|st.ledger| - 1].launch.Facts()
  }

  /** This needs no clock. */
  lemma ObserveKeepsQuotes(st: KeyState, s: Sighting, policy: AlertPolicy, now: int)
    requires policy.correctionTimeShift > 0 && Tied(st) && CorrectionsQuote(st.ledger)
    ensures var after := Observe(st, s, policy, now);
      Tied(after) && CorrectionsQuote(after.ledger)
  {
    if Decide(st.record, s, policy, now).Some? {
      NewEntryFits(st.record, s, policy, now);
      var alert := Decide(st.record, s, policy, now).value;
      AppendQuotes(st.ledger, alert);
    }
  }

  lemma AppendQuotes(ledger: seq<Alert>, alert: Alert)
    requires CorrectionsQuote(ledger)
    requires alert.kind == Correction ==>
      && ledger != [] && alert.previous == Some(ledger[|ledger| - 1].launch.Facts())
      && alert.launch.Facts() != ledger[|ledger| - 1].launch.Facts()
    ensures CorrectionsQuote(ledger + [alert])
  {
    var more := ledger + [alert];
    forall i | 0 <= i < |more| && more[i].kind == Correction
      ensures i > 0 && more[i].previous == Some(more[i - 1].launch.Facts())
      ensures more[i].launch.Facts() != more[i - 1].launch.Facts()
    {
      assert i < |ledger| ==> more[i] == ledger[i];
    }
  }

  lemma AppendKeepsRemembers(st: KeyState, s: Sighting, policy: AlertPolicy, clock: int, now: int)
    requires Good(st, policy, clock) && clock <= now
    requires Decide(st.record, s, policy, now).Some?
    ensures Remembers(Observe(st, s, policy, now), policy.retention, now)
  {
    var alert := Decide(st.record, s, policy, now).value;
    NewEntryFits(st.record, s, policy, now);
    EntriesAppend(st.ledger, |st.ledger| - Live(st), alert);
    RememberedAppend(st, Observe(st, s, policy, now), alert, policy.retention, clock, now);
  }

  lemma EntriesAppend(ledger: seq<Alert>, n: nat, alert: Alert)
    requires n <= |ledger|
    ensures Entries((ledger + [alert])[n..]) == Entries(ledger[n..]) + [alert.Entry()]
  {
    assert (ledger + [alert])[n..] == ledger[n..] + [alert];
  }

  lemma RememberedAppend(st: KeyState, after: KeyState, alert: Alert, retention: int, clock: int, now: int)
    requires Remembers(st, retention, clock) && clock <= now
    requires after.ledger == st.ledger + [alert]
    requires PastAlerts(after.record) == PastAlerts(st.record) + [alert.Entry()]
    requires after.record.Some? && after.record.value.lastFacts == alert.launch.Facts()
    requires Entries(after.ledger[|st.ledger| - Live(st)..])
      == Entries(st.ledger[|st.ledger| - Live(st)..]) + [alert.Entry()]
    ensures Remembers(after, retention, now)
  {
  }

  lemma AppendKeepsSpaced(st: KeyState, s: Sighting, policy: AlertPolicy, clock: int, now: int)
    requires Good(st, policy, clock) && clock <= now
    requires Decide(st.record, s, policy, now).Some?
    ensures Spaced(Observe(st, s, policy, now).ledger, policy.retention)
  {
    var alert := Decide(st.record, s, policy, now).value;
    NewEntryFits(st.record, s, policy, now);
    LiveIsSent(st, policy.retention, clock);
  }

  lemma LiveIsSent(st: KeyState, retention: int, clock: int)
    requires Remembers(st, retention, clock)
    ensures forall i :: |st.ledger| - Live(st) <= i < |st.ledger| ==> Lists(st.record, st.ledger[i].kind)
  {
    var n := |st.ledger| - Live(st);
    forall i | n <= i < |st.ledger| ensures Lists(st.record, st.ledger[i].kind) {
      assert Entries(st.ledger[n..])[i - n] == st.ledger[i].Entry();
      assert st.ledger[i].Entry() in st.record.value.sentAlerts;
    }
  }

  lemma PruneKeepsGood(st: KeyState, policy: AlertPolicy, now: int)
    requires Good(st, policy, now)
    ensures Good(KeyState(Aged(st.record, policy, now), st.ledger), policy, now)
  {
    if st.record.Some? && Aged(st.record, policy, now).None? {
      var n := |st.ledger| - Live(st);
      var last := st.ledger[|st.ledger| - 1];
      assert Entries(st.ledger[n..])[Live(st) - 1] == last.Entry();
      assert Entries(st.ledger[|st.ledger|..]) == [];
    }
  }

  lemma {:induction false} SeeAllKeepsGood(st: KeyState, seen: seq<Sighting>, policy: AlertPolicy, clock: int, now: int)
    requires Sane(policy) && Good(st, policy, clock) && clock <= now
    ensures var f := SeeAll(st.record, seen, policy, now);
      Good(KeyState(f.record, st.ledger + f.alerts), policy, now)
  {
    if seen == [] {
      LaterIsGood(st, policy, clock, now);
      assert st.ledger + [] == st.ledger;
    } else {
      SeeAllKeepsGood(st, seen[..|seen| - 1], policy, clock, now);
      var before := SeeAll(st.record, seen[..|seen| - 1], policy, now);
      SeeAllSteps(st, seen, policy, now);
      ObserveKeepsGood(KeyState(before.record, st.ledger + before.alerts), seen[|seen| - 1], policy, now, now);
    }
  }

  lemma CycleKeepsGood(st: KeyState, c: KeyCycle, policy: AlertPolicy, clock: int)
    requires Sane(policy) && Good(st, policy, clock) && clock <= c.now
    ensures Good(KeyNext(st, c, policy), policy, c.now)
  {
    if c.committed {
      SeeAllKeepsGood(st, c.seen, policy, clock, c.now);
      var f := SeeAll(st.record, c.seen, policy, c.now);
      PruneKeepsGood(KeyState(f.record, st.ledger + f.alerts), policy, c.now);
    } else {
      LaterIsGood(st, policy, clock, c.now);
    }
  }

  /** Over every run with a clock that does not go back: the record obeys the
      record language, it is the tail of the ledger, suppressed alerts stay more
      than a retention apart, and corrections quote the alert before them. */
  lemma {:induction false} RunKeepsGood(st: KeyState, run: seq<KeyCycle>, policy: AlertPolicy, start: int)
    requires Sane(policy) && Good(st, policy, start)
    requires Chronological(run) && (run != [] ==> start <= run[0].now)
    ensures Good(KeyRun(st, run, policy), policy, if run == [] then start else run[|run| - 1].now)
  {
    if run != [] {
      var init := run[..|run| - 1];
      RunKeepsGood(st, init, policy, start);
      CycleKeepsGood(KeyRun(st, init, policy), run[|run| - 1], policy,
                     if init == [] then start else init[|init| - 1].now);
    }
  }

  lemma FreshIsGood(policy: AlertPolicy, clock: int)
    ensures Good(FRESH, policy, clock)
  {
    assert Entries(FRESH.ledger[0..]) == [];
  }

  /** The retention gap, stated on its own for a run from no record. */
  lemma RetentionGap(run: seq<KeyCycle>, policy: AlertPolicy, i: nat, j: nat)
    requires Sane(policy) && Chronological(run)
    requires i < j < |KeyRun(FRESH, run, policy).ledger|
    ensures var ledger := KeyRun(FRESH, run, policy).ledger;
      Suppresses(ledger[i].kind, ledger[j].kind) ==> ledger[j].createdAt - ledger[i].createdAt > policy.retention
  {
    var start := if run == [] then 0 else run[0].now;
    FreshIsGood(policy, start);
    RunKeepsGood(FRESH, run, policy, start);
  }

  // ----- corrections are bounded by what the source reported -----

  function CountReason(ledger: seq<Alert>, reason: CorrectionReason): nat {
    if ledger == [] then 0
    else CountReason(ledger[..|ledger| - 1], reason) + (if ledger[|ledger| - 1].reason == Some(reason) then 1 else 0)
  }

  function CountCorrections(ledger: seq<Alert>): nat {
    if ledger == [] then 0
    else CountCorrections(ledger[..|ledger| - 1]) + (if ledger[|ledger| - 1].kind == Correction then 1 else 0)
  }

  /** Everything the run saw of the key, lost cycles included. */
  function Observed(run: seq<KeyCycle>): seq<Sighting> {
    if run == [] then [] else Observed(run[..|run| - 1]) + run[|run| - 1].seen
  }

  function KnownTimes(seen: seq<Sighting>): seq<int> {
    if seen == [] then [] else
      var before := KnownTimes(seen[..|seen| - 1]);
      match seen[|seen| - 1].launch.launchTime
      case None => before
      case Some(t) => before + [t]
  }

  function Distance(a: int, b: int): nat {
    if a >= b then a - b else b - a
  }

  /** The total variation of a sequence of launch times. */
  function Variation(times: seq<int>): nat {
    if |times| < 2 then 0
    else Variation(times[..|times| - 1]) + Distance(times[|times| - 1], times[|times| - 2])
  }

  /** How often consecutive sightings report different facts. */
  function FactChanges(seen: seq<Sighting>): nat {
    if |seen| < 2 then 0
    else FactChanges(seen[..|seen| - 1])
         + (if seen[|seen| - 1].launch.Facts() != seen[|seen| - 2].launch.Facts() then 1 else 0)
  }

  function Drift(record: Option<AlertRecord>, times: seq<int>): nat {
    if record.Some? && record.value.lastFacts.launchTime.Some? && times != []
    then Distance(record.value.lastFacts.launchTime.value, times[|times| - 1])
    else 0
  }

  /** The bound on time corrections, with the distance by which the record lags
      the source still in hand. */
  ghost predicate TimePaid(st: KeyState, times: seq<int>, shift: int) {
    && (st.record.Some? && st.record.value.lastFacts.launchTime.Some? ==> times != [])
    && shift * CountReason(st.ledger, TimeChanged) + Drift(st.record, times) <= Variation(times)
  }

  function Lag(record: Option<AlertRecord>, seen: seq<Sighting>): nat {
    if record.Some? && seen != [] && record.value.lastFacts != seen[|seen| - 1].launch.Facts() then 1 else 0
  }

  ghost predicate ChangePaid(st: KeyState, seen: seq<Sighting>) {
    && (st.record.Some? ==> seen != [])
    && CountCorrections(st.ledger) + Lag(st.record, seen) <= FactChanges(seen)
  }

  ghost predicate Paid(st: KeyState, seen: seq<Sighting>, shift: int) {
    TimePaid(st, KnownTimes(seen), shift) && ChangePaid(st, seen)
  }

  /** A sighting that the state does not react to keeps the bounds: the record
      lags further, the variation grows at least as much. */
  lemma UnansweredSighting(st: KeyState, seen: seq<Sighting>, s: Sighting, shift: int)
    requires Paid(st, seen, shift)
    ensures Paid(st, seen + [s], shift)
  {
    var more := seen + [s];
    assert more[..|seen|] == seen;
    var times := KnownTimes(seen);
    if s.launch.launchTime.Some? {
      assert KnownTimes(more) == times + [s.launch.launchTime.value];
      assert (times + [s.launch.launchTime.value])[..|times|] == times;
    }
  }

  lemma CountAppend(ledger: seq<Alert>, alert: Alert)
    ensures CountReason(ledger + [alert], TimeChanged)
      == CountReason(ledger, TimeChanged) + (if alert.reason == Some(TimeChanged) then 1 else 0)
    ensures CountCorrections(ledger + [alert]) == CountCorrections(ledger) + (if alert.kind == Correction then 1 else 0)
  {
    assert (ledger + [alert])[..|ledger|] == ledger;
  }

  lemma AnswerPaysTime(st: KeyState, times: seq<int>, s: Sighting, policy: AlertPolicy, now: int)
    requires policy.correctionTimeShift > 0 && TimePaid(st, times, policy.correctionTimeShift)
    requires Decide(st.record, s, policy, now).Some?
    requires s.launch.launchTime.Some? ==> times != [] && times[|times| - 1] == s.launch.launchTime.value
    ensures TimePaid(Observe(st, s, policy, now), times, policy.correctionTimeShift)
  {
    var shift, alert := policy.correctionTimeShift, Decide(st.record, s, policy, now).value;
    NewEntryFits(st.record, s, policy, now);
    CountAppend(st.ledger, alert);
    if alert.reason == Some(TimeChanged) {
      assert Drift(st.record, times) >= shift;
      assert shift * (CountReason(st.ledger, TimeChanged) + 1) == shift * CountReason(st.ledger, TimeChanged) + shift;
    }
  }

  lemma AnswerPaysChange(st: KeyState, seen: seq<Sighting>, s: Sighting, policy: AlertPolicy, now: int)
    requires policy.correctionTimeShift > 0 && ChangePaid(st, seen)
    requires Decide(st.record, s, policy, now).Some?
    requires seen != [] && seen[|seen| - 1] == s
    ensures ChangePaid(Observe(st, s, policy, now), seen)
  {
    var alert := Decide(st.record, s, policy, now).value;
    NewEntryFits(st.record, s, policy, now);
    CountAppend(st.ledger, alert);
    assert alert.kind == Correction ==> Lag(st.record, seen) == 1;
  }

  lemma ObservePays(st: KeyState, seen: seq<Sighting>, s: Sighting, policy: AlertPolicy, now: int)
    requires policy.correctionTimeShift > 0 && Paid(st, seen, policy.correctionTimeShift)
    ensures Paid(Observe(st, s, policy, now), seen + [s], policy.correctionTimeShift)
  {
    var more := seen + [s];
    UnansweredSighting(st, seen, s, policy.correctionTimeShift);
    if Decide(st.record, s, policy, now).Some? {
      assert more[..|seen|] == seen && more[|seen|] == s;
      AnswerPaysTime(st, KnownTimes(more), s, policy, now);
      AnswerPaysChange(st, more, s, policy, now);
    }
  }

  lemma {:induction false} UnansweredSightings(st: KeyState, seen: seq<Sighting>, more: seq<Sighting>, shift: int)
    requires Paid(st, seen, shift)
    ensures Paid(st, seen + more, shift)
  {
    if more == [] {
      assert seen + more == seen;
    } else {
      var init := more[..|more| - 1];
      UnansweredSightings(st, seen, init, shift);
      UnansweredSighting(st, seen + init, more[|more| - 1], shift);
      assert (seen + init) + [more[|more| - 1]] == seen + more;
    }
  }

  lemma {:induction false} SeeAllPays(st: KeyState, seen: seq<Sighting>, more: seq<Sighting>, policy: AlertPolicy,
                                      now: int)
    requires policy.correctionTimeShift > 0 && Paid(st, seen, policy.correctionTimeShift)
    ensures var f := SeeAll(st.record, more, policy, now);
      Paid(KeyState(f.record, st.ledger + f.alerts), seen + more, policy.correctionTimeShift)
  {
    if more == [] {
      assert seen + more == seen && st.ledger + [] == st.ledger;
    } else {
      var init, last := more[..|more| - 1], more[|more| - 1];
      var before, after := SeeAll(st.record, init, policy, now), SeeAll(st.record, more, policy, now);
      SeeAllPays(st, seen, init, policy, now);
      SeeAllSteps(st, more, policy, now);
      assert (seen + init) + [last] == seen + more;
      PayStep(KeyState(before.record, st.ledger + before.alerts), KeyState(after.record, st.ledger + after.alerts),
              seen + init, seen + more, last, policy, now);
    }
  }

  lemma PayStep(was: KeyState, after: KeyState, soFar: seq<Sighting>, more: seq<Sighting>, last: Sighting,
                policy: AlertPolicy, now: int)
    requires policy.correctionTimeShift > 0 && Paid(was, soFar, policy.correctionTimeShift)
    requires after == Observe(was, last, policy, now) && more == soFar + [last]
    ensures Paid(after, more, policy.correctionTimeShift)
  {
    ObservePays(was, soFar, last, policy, now);
  }

  /** Over every run from no record, whatever the clock does and whichever
      cycles are lost: the shift threshold times the number of committed time
      corrections is at most the total variation of the launch times seen, and
      the committed corrections are at most the fact changes seen. */
  lemma CorrectionsArePaidFor(run: seq<KeyCycle>, policy: AlertPolicy)
    requires policy.correctionTimeShift > 0
    ensures var ledger, seen := KeyRun(FRESH, run, policy).ledger, Observed(run);
      && policy.correctionTimeShift * CountReason(ledger, TimeChanged) <= Variation(KnownTimes(seen))
      && CountCorrections(ledger) <= FactChanges(seen)
  {
    RunPays(run, policy);
  }

  lemma {:induction false} RunPays(run: seq<KeyCycle>, policy: AlertPolicy)
    requires policy.correctionTimeShift > 0
    ensures Paid(KeyRun(FRESH, run, policy), Observed(run), policy.correctionTimeShift)
  {
    if run != [] {
      var init, c := run[..|run| - 1], run[|run| - 1];
      RunPays(init, policy);
      var st := KeyRun(FRESH, init, policy);
      if c.committed {
        SeeAllPays(st, Observed(init), c.seen, policy, c.now);
      } else {
        UnansweredSightings(st, Observed(init), c.seen, policy.correctionTimeShift);
      }
    }
  }

  // ----- lost cycles -----

  /** The cycles that were not lost. */
  function Committed(run: seq<KeyCycle>): seq<KeyCycle> {
    if run == [] then [] else
      var before, last := Committed(run[..|run| - 1]), run[|run| - 1];
      if last.committed then before + [last] else before
  }

  lemma {:induction false} LostCyclesAreNothing(st: KeyState, run: seq<KeyCycle>, policy: AlertPolicy)
    ensures KeyRun(st, run, policy) == KeyRun(st, Committed(run), policy)
  {
    if run != [] {
      var init, last := run[..|run| - 1], run[|run| - 1];
      LostCyclesAreNothing(st, init, policy);
      assert (Committed(init) + [last])[..|Committed(init)|] == Committed(init);
    }
  }

  /** What a run adds to the ledger does not depend on the ledger. */
  lemma {:induction false} LedgerGrows(record: Option<AlertRecord>, ledger: seq<Alert>, run: seq<KeyCycle>,
                                       policy: AlertPolicy)
    ensures var alone := KeyRun(KeyState(record, []), run, policy);
      KeyRun(KeyState(record, ledger), run, policy) == KeyState(alone.record, ledger + alone.ledger)
  {
    if run != [] {
      LedgerGrows(record, ledger, run[..|run| - 1], policy);
    }
  }

  // ----- corrections quote -----

  lemma {:induction false} SeeAllKeepsQuotes(st: KeyState, seen: seq<Sighting>, policy: AlertPolicy, now: int)
    requires policy.correctionTimeShift > 0 && Tied(st) && CorrectionsQuote(st.ledger)
    ensures var f := SeeAll(st.record, seen, policy, now);
      var after := KeyState(f.record, st.ledger + f.alerts);
      Tied(after) && CorrectionsQuote(after.ledger)
  {
    if seen == [] {
      assert st.ledger + [] == st.ledger;
    } else {
      var before := SeeAll(st.record, seen[..|seen| - 1], policy, now);
      SeeAllKeepsQuotes(st, seen[..|seen| - 1], policy, now);
      SeeAllSteps(st, seen, policy, now);
      ObserveKeepsQuotes(KeyState(before.record, st.ledger + before.alerts), seen[|seen| - 1], policy, now);
    }
  }

  lemma {:induction false} RunKeepsQuotes(run: seq<KeyCycle>, policy: AlertPolicy)
    requires policy.correctionTimeShift > 0
    ensures Tied(KeyRun(FRESH, run, policy)) && CorrectionsQuote(KeyRun(FRESH, run, policy).ledger)
  {
    if run != [] {
      var init, c := run[..|run| - 1], run[|run| - 1];
      RunKeepsQuotes(init, policy);
      if c.committed {
        SeeAllKeepsQuotes(KeyRun(FRESH, init, policy), c.seen, policy, c.now);
      }
    }
  }

  /** Over every run from no record, whatever the clock does and whichever cycles are
      lost, each committed correction quotes the facts of the alert right before it and
      reports different ones. */
  lemma CorrectionsQuoteTheLastAlert(run: seq<KeyCycle>, policy: AlertPolicy)
    requires policy.correctionTimeShift > 0
    ensures CorrectionsQuote(KeyRun(FRESH, run, policy).ledger)
  {
    RunKeepsQuotes(run, policy);
  }

  // ----- disclosure -----

  lemma CommittedAppend(run: seq<KeyCycle>)
    requires run != []
    ensures var init, last := run[..|run| - 1], run[|run| - 1];
      Observed(Committed(run)) == Observed(Committed(init)) + (if last.committed then last.seen else [])
  {
    var init, last := run[..|run| - 1], run[|run| - 1];
    assert (Committed(init) + [last])[..|Committed(init)|] == Committed(init);
  }

  /** A record tells facts that are disclosed for the last launch that a committed cycle
      saw, whatever the clock does and whichever cycles are lost. */
  lemma {:induction false} RunDiscloses(run: seq<KeyCycle>, policy: AlertPolicy)
    requires policy.correctionTimeShift > 0
    ensures var record, seen := KeyRun(FRESH, run, policy).record, Observed(Committed(run));
      record.Some? ==> seen != [] && Disclosed(record.value.lastFacts, seen[|seen| - 1].launch, policy)
  {
    if run != [] {
      var init, c := run[..|run| - 1], run[|run| - 1];
      RunDiscloses(init, policy);
      CommittedAppend(run);
      if c.committed && c.seen != [] {
        var before := SeeAll(KeyRun(FRESH, init, policy).record, c.seen[..|c.seen| - 1], policy, c.now);
        SeeOneDiscloses(before, c.seen[|c.seen| - 1], policy, c.now);
      }
    }
  }

  /** The last alert told facts that are disclosed for the last listing. */
  predicate LastDiscloses(ledger: seq<Alert>, listed: seq<Sighting>, policy: AlertPolicy) {
    && ledger != [] && listed != []
    && Disclosed(ledger[|ledger| - 1].launch.Facts(), listed[|listed| - 1].launch, policy)
  }

  lemma RecordedDiscloses(run: seq<KeyCycle>, policy: AlertPolicy)
    requires policy.correctionTimeShift > 0 && KeyRun(FRESH, run, policy).record.Some?
    ensures LastDiscloses(KeyRun(FRESH, run, policy).ledger, Observed(Committed(run)), policy)
  {
    RunDiscloses(run, policy);
    RunKeepsQuotes(run, policy);
  }

  // ----- no missed launch -----

  /** Polls that see the launch once each, lose nothing, start before the Launch
      Soon window, and are never further apart than the two windows allow. */
  ghost predicate Vigilant(run: seq<KeyCycle>, s: Sighting, policy: AlertPolicy)
    requires s.launch.launchTime.Some?
  {
    && run != []
    && run[0].now < s.launch.launchTime.value - policy.launchSoon
    && (forall i :: 0 <= i < |run| ==> run[i].committed && run[i].seen == [s])
    && (forall i :: 0 <= i < |run| - 1 ==>
          && run[i].now <= run[i + 1].now
          && run[i + 1].now - run[i].now <= policy.launchSoon - policy.launchImminent
          && run[i + 1].now - run[i].now <= policy.launchImminent)
  }

  predicate Frozen(s: Sighting, policy: AlertPolicy) {
    && s.launch.status == Go && s.launch.precision == Precise && s.launch.launchTime.Some?
    && policy.scheduleLookahead >= policy.launchSoon
    && policy.retention >= policy.launchSoon
  }

  ghost predicate IsSoon(alert: Alert, s: Sighting, policy: AlertPolicy)
    requires s.launch.launchTime.Some?
  {
    && alert == MakeCountdown(s.launch, LaunchSoon, s.matchedTerms, alert.createdAt)
    && policy.launchImminent < s.launch.launchTime.value - alert.createdAt <= policy.launchSoon
  }

  ghost predicate IsImminent(alert: Alert, s: Sighting, policy: AlertPolicy)
    requires s.launch.launchTime.Some?
  {
    && alert == MakeCountdown(s.launch, LaunchImminent, s.matchedTerms, alert.createdAt)
    && 0 <= s.launch.launchTime.value - alert.createdAt <= policy.launchImminent
  }

  /** Where the run stands when the last poll was at `now`. */
  ghost predicate Phase(st: KeyState, s: Sighting, policy: AlertPolicy, now: int)
    requires s.launch.launchTime.Some?
  {
    var left := s.launch.launchTime.value - now;
    if left > policy.launchSoon then
      st == FRESH
    else if left > policy.launchImminent then
      && |st.ledger| == 1 && IsSoon(st.ledger[0], s, policy)
      && Holds(st.record, st.ledger, s)
    else
      && |st.ledger| == 2 && IsSoon(st.ledger[0], s, policy) && IsImminent(st.ledger[1], s, policy)
      && (left >= 0 || st.record.Some? ==> Holds(st.record, st.ledger, s))
  }

  ghost predicate Holds(record: Option<AlertRecord>, ledger: seq<Alert>, s: Sighting) {
    && ledger != []
    && record.Some?
    && record.value.lastFacts == s.launch.Facts()
    && record.value.sentAlerts == Entries(ledger)
    && record.value.lastAlertAt == ledger[|ledger| - 1].createdAt
  }

  lemma OneSighting(st: KeyState, now: int, s: Sighting, policy: AlertPolicy)
    ensures var after := Observe(st, s, policy, now);
      KeyNext(st, KeyCycle(now, [s], true), policy) == KeyState(Aged(after.record, policy, now), after.ledger)
  {
    SeeAllSteps(st, [s], policy, now);
    assert [s][..0] == [];
    assert st.ledger + [] == st.ledger;
  }

  lemma SentIn(record: Option<AlertRecord>, ledger: seq<Alert>, s: Sighting, kind: AlertKind)
    requires Holds(record, ledger, s)
    ensures Lists(record, kind) <==> exists a <- ledger :: a.kind == kind
  {
    forall a | a in ledger ensures a.Entry() in record.value.sentAlerts {
      var i :| 0 <= i < |ledger| && ledger[i] == a;
      assert Entries(ledger)[i] == a.Entry();
    }
    forall e | e in record.value.sentAlerts ensures exists a <- ledger :: a.kind == e.kind {
      var i :| 0 <= i < |Entries(ledger)| && Entries(ledger)[i] == e;
      assert ledger[i] in ledger;
    }
  }

  /** Nothing is due: the poll leaves ledger and, within retention, record. */
  lemma QuietPoll(st: KeyState, s: Sighting, policy: AlertPolicy, now: int)
    requires Decide(st.record, s, policy, now) == None
    ensures KeyNext(st, KeyCycle(now, [s], true), policy) == KeyState(Aged(st.record, policy, now), st.ledger)
  {
    OneSighting(st, now, s, policy);
  }

  lemma FirstPhase(s: Sighting, policy: AlertPolicy, now: int)
    requires Sane(policy) && Frozen(s, policy)
    requires s.launch.launchTime.value - now > policy.launchImminent
    ensures Phase(KeyNext(FRESH, KeyCycle(now, [s], true), policy), s, policy, now)
  {
    OneSighting(FRESH, now, s, policy);
  }

  lemma SoonPhase(st: KeyState, s: Sighting, policy: AlertPolicy, before: int, now: int)
    requires Sane(policy) && Frozen(s, policy) && Phase(st, s, policy, before)
    requires policy.launchImminent < s.launch.launchTime.value - before <= policy.launchSoon
    requires before <= now && now - before <= policy.launchImminent
    ensures Phase(KeyNext(st, KeyCycle(now, [s], true), policy), s, policy, now)
  {
    SentIn(st.record, st.ledger, s, LaunchSoon);
    SentIn(st.record, st.ledger, s, LaunchImminent);
    assert st.ledger[0] in st.ledger;
    OneSighting(st, now, s, policy);
    var left := s.launch.launchTime.value - now;
    if left <= policy.launchImminent {
      var alert := MakeCountdown(s.launch, LaunchImminent, s.matchedTerms, now);
      assert Decide(st.record, s, policy, now) == Some(alert);
      assert Entries(st.ledger + [alert]) == Entries(st.ledger) + [alert.Entry()];
    } else {
      assert Decide(st.record, s, policy, now) == None;
    }
  }

  lemma LastPhase(st: KeyState, s: Sighting, policy: AlertPolicy, before: int, now: int)
    requires Sane(policy) && Frozen(s, policy) && Phase(st, s, policy, before)
    requires s.launch.launchTime.value - before <= policy.launchImminent
    requires before <= now
    ensures Phase(KeyNext(st, KeyCycle(now, [s], true), policy), s, policy, now)
  {
    if st.record.Some? {
      SentIn(st.record, st.ledger, s, LaunchSoon);
      SentIn(st.record, st.ledger, s, LaunchImminent);
      assert st.ledger[1] in st.ledger;
    }
    assert Decide(st.record, s, policy, now) == None;
    QuietPoll(st, s, policy, now);
  }

  lemma {:induction false} VigilantPhase(run: seq<KeyCycle>, s: Sighting, policy: AlertPolicy)
    requires Sane(policy) && Frozen(s, policy) && Vigilant(run, s, policy)
    ensures Phase(KeyRun(FRESH, run, policy), s, policy, run[|run| - 1].now)
  {
    var init, c := run[..|run| - 1], run[|run| - 1];
    assert c == KeyCycle(c.now, [s], true);
    if init == [] {
      FirstPhase(s, policy, c.now);
    } else {
      VigilantPhase(init, s, policy);
      var before := init[|init| - 1].now;
      assert before == run[|run| - 2].now;
      var st := KeyRun(FRESH, init, policy);
      if s.launch.launchTime.value - before > policy.launchSoon {
        FirstPhase(s, policy, c.now);
      } else if s.launch.launchTime.value - before > policy.launchImminent {
        SoonPhase(st, s, policy, before, c.now);
      } else {
        LastPhase(st, s, policy, before, c.now);
      }
    }
  }

  /** No missed launch: polls that are frequent enough and go on until launch
      raise exactly one Launch Soon, then exactly one Launch Imminent, and
      nothing else, however long they go on. */
  lemma NoMissedLaunch(run: seq<KeyCycle>, s: Sighting, policy: AlertPolicy)
    requires Sane(policy) && Frozen(s, policy) && Vigilant(run, s, policy)
    requires run[|run| - 1].now >= s.launch.launchTime.value
    ensures var ledger := KeyRun(FRESH, run, policy).ledger;
      |ledger| == 2 && IsSoon(ledger[0], s, policy) && IsImminent(ledger[1], s, policy)
  {
    VigilantPhase(run, s, policy);
  }

  // ----- no missed launch of hour precision -----

  /** Polls that see the launch once each, lose nothing, start before its window of an
      hour on either side, and are never further apart than the window is wide. */
  ghost predicate HourVigilant(run: seq<KeyCycle>, s: Sighting)
    requires s.launch.launchTime.Some?
  {
    && run != []
    && run[0].now < s.launch.launchTime.value - 3600
    && (forall i :: 0 <= i < |run| ==> run[i].committed && run[i].seen == [s])
    && (forall i :: 0 <= i < |run| - 1 ==>
          run[i].now <= run[i + 1].now && run[i + 1].now - run[i].now <= 7200)
  }

  predicate HourFrozen(s: Sighting, policy: AlertPolicy) {
    && s.launch.status == Go && s.launch.precision == Hour && s.launch.launchTime.Some?
    && policy.scheduleLookahead >= 3600
    && policy.retention >= 7200
  }

  ghost predicate IsHour(alert: Alert, s: Sighting)
    requires s.launch.launchTime.Some?
  {
    && alert == MakeCountdown(s.launch, HourPrecision, s.matchedTerms, alert.createdAt)
    && -3600 <= s.launch.launchTime.value - alert.createdAt <= 3600
  }

  /** Where the run stands when the last poll was at `now`. */
  ghost predicate HourPhase(st: KeyState, s: Sighting, now: int)
    requires s.launch.launchTime.Some?
  {
    var left := s.launch.launchTime.value - now;
    if left > 3600 then
      st == FRESH
    else
      && |st.ledger| == 1 && IsHour(st.ledger[0], s)
      && (left >= -3600 || st.record.Some? ==> Holds(st.record, st.ledger, s))
  }

  lemma HourFirstPhase(s: Sighting, policy: AlertPolicy, now: int)
    requires policy.correctionTimeShift > 0 && HourFrozen(s, policy)
    requires s.launch.launchTime.value - now >= -3600
    ensures HourPhase(KeyNext(FRESH, KeyCycle(now, [s], true), policy), s, now)
  {
    OneSighting(FRESH, now, s, policy);
  }

  lemma HourLastPhase(st: KeyState, s: Sighting, policy: AlertPolicy, before: int, now: int)
    requires policy.correctionTimeShift > 0 && HourFrozen(s, policy) && HourPhase(st, s, before)
    requires s.launch.launchTime.value - before <= 3600 && before <= now
    ensures HourPhase(KeyNext(st, KeyCycle(now, [s], true), policy), s, now)
  {
    if st.record.Some? {
      SentIn(st.record, st.ledger, s, HourPrecision);
      assert st.ledger[0] in st.ledger;
    }
    assert Decide(st.record, s, policy, now) == None;
    QuietPoll(st, s, policy, now);
  }

  lemma {:induction false} HourVigilantPhase(run: seq<KeyCycle>, s: Sighting, policy: AlertPolicy)
    requires policy.correctionTimeShift > 0 && HourFrozen(s, policy) && HourVigilant(run, s)
    ensures HourPhase(KeyRun(FRESH, run, policy), s, run[|run| - 1].now)
  {
    var init, c := run[..|run| - 1], run[|run| - 1];
    assert c == KeyCycle(c.now, [s], true);
    if init == [] {
      HourFirstPhase(s, policy, c.now);
    } else {
      HourVigilantPhase(init, s, policy);
      var before := init[|init| - 1].now;
      assert before == run[|run| - 2].now;
      if s.launch.launchTime.value - before > 3600 {
        HourFirstPhase(s, policy, c.now);
      } else {
        HourLastPhase(KeyRun(FRESH, init, policy), s, policy, before, c.now);
      }
    }
  }

  /** No missed launch of hour precision: polls that are frequent enough and go on into
      the window raise exactly one alert, inside the window, however long they go on. */
  lemma NoMissedHour(run: seq<KeyCycle>, s: Sighting, policy: AlertPolicy)
    requires policy.correctionTimeShift > 0 && HourFrozen(s, policy) && HourVigilant(run, s)
    requires run[|run| - 1].now >= s.launch.launchTime.value - 3600
    ensures var ledger := KeyRun(FRESH, run, policy).ledger;
      |ledger| == 1 && IsHour(ledger[0], s)
  {
    HourVigilantPhase(run, s, policy);
  }
}
