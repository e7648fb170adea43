/**
 How one cycle ends, case by case, and what a run forgets.

 The cases are told by the verdicts that fetch, load and save meet, by what the
 records file holds, and by what was decided; whatever the disk was before.
 */
module CycleLaws {
  import opened Domain
  import opened KeyOrder
  import opened Core
  import opened CoreLaws
  import opened KeyRuns
  import opened Storage
  import opened StorageLaws
  import opened Formatting
  import opened Orchestration
  import opened WatchRuns
  import opened Guarantees

  // ----- cycles that fail -----

  /** A failed fetch ends the cycle; it is reported as that. */
  lemma FailedFetch(disk: Disk, input: CycleInput, setup: Setup, dryRun: bool)
    requires input.verdicts != [] && !input.verdicts[0]
    ensures Cycle(disk, input, setup.config, setup.zone, setup.hasParent, dryRun)
      == CycleRun(disk, [], [], false, Some(CycleOutcome(true, false, 0, [])), input.verdicts[1..])
  {
  }

  /** The source answers, the file is there, and reading it gives no records. */
  ghost predicate LoadFails(file: Option<Content>, verdicts: seq<bool>) {
    && file.Some? && |verdicts| > 2 && verdicts[0] && verdicts[1]
    && (!verdicts[2] || Unreadable(file.value))
  }

  /** A failed load ends the cycle: nothing is written or sent, and it is reported like a
      failed save. */
  lemma FailedLoad(disk: Disk, input: CycleInput, setup: Setup, dryRun: bool)
    requires LoadFails(disk.file, input.verdicts)
    ensures Cycle(disk, input, setup.config, setup.zone, setup.hasParent, dryRun)
      == CycleRun(disk, [], [], false, Some(CycleOutcome(false, true, 0, [])), input.verdicts[3..])
  {
    TwoRests(input.verdicts[1..]);
    LoadedIff(disk.file.value);
    assert input.verdicts[1..][2..] == input.verdicts[3..];
  }

  /** With a file that is no list of records no cycle writes or sends anything, whatever
      the verdicts; and if the source answers and the process lives through the read,
      the cycle reports it. */
  lemma UnreadableFileStopsCycle(disk: Disk, input: CycleInput, setup: Setup, dryRun: bool)
    requires disk.file.Some? && Unreadable(disk.file.value)
    ensures var run, v := Cycle(disk, input, setup.config, setup.zone, setup.hasParent, dryRun), input.verdicts;
      && run.disk == disk && run.notices == [] && run.deliveries == [] && !run.committed
      && (|v| > 2 && v[0] && v[1] ==> run.outcome == Some(CycleOutcome(false, true, 0, [])))
  {
    LoadedIff(disk.file.value);
    if |input.verdicts| > 2 && input.verdicts[0] && input.verdicts[1] {
      FailedLoad(disk, input, setup, dryRun);
    }
  }

  /** So no run changes such a file, or sends anything. */
  lemma {:induction false} UnreadableFileStays(st: WatchState, inputs: seq<CycleInput>, setup: Setup)
    requires st.disk.file.Some? && Unreadable(st.disk.file.value)
    ensures Watch(st, inputs, setup.config, setup.zone, setup.hasParent) == st
  {
    if inputs != [] {
      UnreadableFileStays(st, inputs[..|inputs| - 1], setup);
      UnreadableFileStopsCycle(st.disk, inputs[|inputs| - 1], setup, false);
      assert st.sent + [] == st.sent;
    }
  }

  // ----- cycles that load -----

  /** The position after a load: fetch, look for the file, and the read if there is one. */
  function LoadEnd(file: Option<Content>): nat {
    if file.None? then 2 else 3
  }

  /** Fetch and load succeed, and give these records. */
  ghost predicate Loads(disk: Disk, verdicts: seq<bool>, records: seq<AlertRecord>) {
    && AllProceed(verdicts, LoadEnd(disk.file))
    && (disk.file == None ==> records == [])
    && (disk.file.Some? ==> ListsRecords(disk.file.value, records))
  }

  /** The file is a document whose entries are these records. */
  predicate ListsRecords(content: Content, records: seq<AlertRecord>) {
    && content.Document? && content.json.Object? && "records" in content.json.fields
    && var items := Elements(content.json.fields["records"]);
       |items| == |records| && forall i :: 0 <= i < |records| ==> RecordAt(items[i], records[i])
  }

  lemma ListedIsLoaded(content: Content, records: seq<AlertRecord>)
    requires ListsRecords(content, records)
    ensures Loaded(Some(content)) == Some(records)
  {
    var items := Elements(content.json.fields["records"]);
    RecordsAreCollected(items);
    CollectsIff(RecordsRead(items), records);
    forall i | 0 <= i < |records| ensures RecordsRead(items)[i] == Some(records[i]) {
      RecordFromIff(items[i], records[i]);
    }
  }

  lemma LoadSucceeds(disk: Disk, records: seq<AlertRecord>, verdicts: seq<bool>)
    requires Loads(disk, verdicts, records)
    ensures First(verdicts) == Proceed
    ensures LoadSteps(disk.file, Rest(verdicts)) == LoadRun(Records(records), verdicts[LoadEnd(disk.file)..])
  {
    TwoRests(verdicts);
    if disk.file.Some? {
      ListedIsLoaded(disk.file.value, records);
      TwoRests(verdicts[1..]);
      assert verdicts[1..][2..] == verdicts[3..];
    }
  }

  lemma LoadedCycle(disk: Disk, records: seq<AlertRecord>, input: CycleInput, setup: Setup, messages: seq<Message>)
    requires Loads(disk, input.verdicts, records)
    requires setup.config.includeTerms != []
    requires FormatAll(Decision(records, input.feed, SettingsOf(setup.config), input.now).alerts, setup.zone)
      == Some(messages)
    ensures var d := Decision(records, input.feed, SettingsOf(setup.config), input.now);
      Cycle(disk, input, setup.config, setup.zone, setup.hasParent, false)
        == SaveAndNotify(disk, d, messages, Changed(d, records), setup.config, setup.hasParent,
                         input.verdicts[LoadEnd(disk.file)..])
  {
    LoadSucceeds(disk, records, input.verdicts);
  }

  /** What the cycle decides against these records. */
  ghost function DecidedOn(records: seq<AlertRecord>, input: CycleInput, setup: Setup): CycleDecision {
    Decision(records, input.feed, SettingsOf(setup.config), input.now)
  }

  lemma DecidedIsFormatted(records: seq<AlertRecord>, input: CycleInput, setup: Setup)
    requires setup.config.Valid()
    ensures var d := DecidedOn(records, input, setup);
      FormatAll(d.alerts, setup.zone).Some? && |FormatAll(d.alerts, setup.zone).value| == |d.alerts|
  {
    DecisionIsFormatted(Start(None).(saved := records), input, setup);
  }

  /** Something is to be saved: an alert was raised, or a record was dropped. */
  ghost predicate ToSave(records: seq<AlertRecord>, input: CycleInput, setup: Setup) {
    var d := DecidedOn(records, input, setup);
    d.alerts != [] || |d.updatedRecords| != |records|
  }

  /** A failed save sends nothing and leaves the records file; the report says so, and how
      many alerts there would have been. The temporary file is removed if that succeeds. */
  lemma FailedSave(disk: Disk, records: seq<AlertRecord>, input: CycleInput, setup: Setup, i: nat)
    requires setup.config.Valid() && Loads(disk, input.verdicts, records) && ToSave(records, input, setup)
    requires FailsAt(input.verdicts[LoadEnd(disk.file)..], setup.hasParent, i)
    ensures var run := Cycle(disk, input, setup.config, setup.zone, setup.hasParent, false);
      var removed := input.verdicts[LoadEnd(disk.file)..][RemovalAfter(i, DirSteps(setup.hasParent))];
      && run.disk.file == disk.file && (removed ==> run.disk.tmp == None)
      && run.notices == [] && run.deliveries == [] && !run.committed
      && run.outcome == Some(CycleOutcome(false, true, |DecidedOn(records, input, setup).alerts|, []))
  {
    var d, v := DecidedOn(records, input, setup), input.verdicts[LoadEnd(disk.file)..];
    DecidedIsFormatted(records, input, setup);
    LoadedCycle(disk, records, input, setup, FormatAll(d.alerts, setup.zone).value);
    var json := DocumentJson(SortByKey(d.updatedRecords));
    SaveFailsIff(disk, json, setup.hasParent, v);
    SaveIsAtomic(disk, json, setup.hasParent, v);
    if v[RemovalAfter(i, DirSteps(setup.hasParent))] {
      FailedSaveCleansUp(disk, json, setup.hasParent, v, i);
    }
  }

  /** A cycle with nothing to save writes nothing and succeeds. */
  lemma SilentCycle(disk: Disk, records: seq<AlertRecord>, input: CycleInput, setup: Setup)
    requires setup.config.includeTerms != [] && Loads(disk, input.verdicts, records)
    requires !ToSave(records, input, setup)
    ensures Cycle(disk, input, setup.config, setup.zone, setup.hasParent, false)
      == CycleRun(disk, [], [], true, Some(CycleOutcome(false, false, 0, [])), input.verdicts[LoadEnd(disk.file)..])
  {
    LoadedCycle(disk, records, input, setup, []);
  }

  /** If the process lives until delivery `p`, this is it; it says how the attempt
      turned out. */
  predicate Placed(ds: seq<Delivery>, verdicts: seq<bool>, p: nat, message: Message, recipient: string) {
    p < |verdicts| ==> p < |ds| && ds[p] == Delivery(message, recipient, verdicts[p])
  }

  function Place(i: nat, j: nat, recipients: nat): nat {
    i * recipients + j
  }

  lemma {:induction false} NoticeAt(messages: seq<Message>, recipients: seq<Recipient>, i: nat, j: nat, p: nat)
    requires i < |messages| && j < |recipients| && p == Place(i, j, |recipients|)
    ensures p < |Notices(messages, recipients)|
    ensures Notices(messages, recipients)[p] == Notice(i, messages[i], recipients[j].name)
  {
    var n := |messages| - 1;
    NoticesCount(messages[..n], recipients);
    if i < n {
      NoticeAt(messages[..n], recipients, i, j, p);
    }
  }

  /** Alert `i` goes to recipient `j` right after the first `i` alerts to all recipients and
      this one to the first `j`. */
  predicate InItsPlace(ds: seq<Delivery>, verdicts: seq<bool>, alerts: seq<Alert>, setup: Setup, i: nat, j: nat)
    requires i < |alerts| && j < |setup.config.recipients|
  {
    var message := FormatAlert(alerts[i], setup.zone);
    && message.Some?
    && Placed(ds, verdicts, Place(i, j, |setup.config.recipients|), message.value, setup.config.recipients[j].name)
  }

  /** Every alert is attempted for every recipient, until the last one or until the
      process dies; the process reports only if it lived to the last. */
  ghost predicate Notified(run: CycleRun, alerts: seq<Alert>, setup: Setup, verdicts: seq<bool>) {
    var n := |alerts| * |setup.config.recipients|;
    && |run.deliveries| == (if |verdicts| < n then |verdicts| else n)
    && (forall i, j :: 0 <= i < |alerts| && 0 <= j < |setup.config.recipients| ==>
          InItsPlace(run.deliveries, verdicts, alerts, setup, i, j))
    && run.outcome == (if |verdicts| < n then None else Some(CycleOutcome(false, false, |alerts|, run.deliveries)))
  }

  lemma NotifyDelivers(disk: Disk, alerts: seq<Alert>, messages: seq<Message>, setup: Setup, verdicts: seq<bool>)
    requires FormatAll(alerts, setup.zone) == Some(messages) && |messages| == |alerts|
    ensures Notified(Notify(disk, messages, setup.config, verdicts), alerts, setup, verdicts)
  {
    var run := Notify(disk, messages, setup.config, verdicts);
    NoticesCount(messages, setup.config.recipients);
    forall i, j | 0 <= i < |alerts| && 0 <= j < |setup.config.recipients|
      ensures InItsPlace(run.deliveries, verdicts, alerts, setup, i, j)
    {
      FormatAllAt(alerts, setup.zone, i);
      PlacedAt(messages, setup.config.recipients, verdicts, i, j, Place(i, j, |setup.config.recipients|));
    }
  }

  lemma PlacedAt(messages: seq<Message>, recipients: seq<Recipient>, verdicts: seq<bool>, i: nat, j: nat, p: nat)
    requires i < |messages| && j < |recipients| && p == Place(i, j, |recipients|)
    ensures Placed(Delivered(Notices(messages, recipients), verdicts), verdicts, p, messages[i], recipients[j].name)
  {
    NoticeAt(messages, recipients, i, j, p);
    NoticePlaced(Notices(messages, recipients), verdicts, p, i, messages[i], recipients[j].name);
  }

  lemma NoticePlaced(notices: seq<Notice>, verdicts: seq<bool>, p: nat, i: nat, message: Message, recipient: string)
    requires p < |notices| && notices[p] == Notice(i, message, recipient)
    ensures Placed(Delivered(notices, verdicts), verdicts, p, message, recipient)
  {
  }

  /** A cycle that lives until its save is done: the file holds the decided records, no
      temporary file is left, and then the messages are sent. */
  lemma SavedCycle(disk: Disk, records: seq<AlertRecord>, input: CycleInput, setup: Setup)
    requires setup.config.Valid() && Loads(disk, input.verdicts, records) && ToSave(records, input, setup)
    requires AllProceed(input.verdicts[LoadEnd(disk.file)..], StepCount(setup.hasParent))
    ensures var run := Cycle(disk, input, setup.config, setup.zone, setup.hasParent, false);
      var d, used := DecidedOn(records, input, setup), LoadEnd(disk.file) + StepCount(setup.hasParent);
      && run.committed && run.disk == Disk(Some(Document(DocumentJson(d.updatedRecords))), None)
      && Notified(run, d.alerts, setup, input.verdicts[used..])
  {
    var d, v := DecidedOn(records, input, setup), input.verdicts[LoadEnd(disk.file)..];
    DecidedIsFormatted(records, input, setup);
    var messages := FormatAll(d.alerts, setup.zone).value;
    LoadedCycle(disk, records, input, setup, messages);
    AscendingIsDistinct(d.updatedRecords);
    SortIsCanonical(d.updatedRecords);
    SaveIsAtomic(disk, DocumentJson(d.updatedRecords), setup.hasParent, v);
    var saved := Disk(Some(Document(DocumentJson(d.updatedRecords))), None);
    NotifyDelivers(saved, d.alerts, messages, setup, v[StepCount(setup.hasParent)..]);
    assert v[StepCount(setup.hasParent)..] == input.verdicts[LoadEnd(disk.file) + StepCount(setup.hasParent)..];
  }

  /** A dry run that loads changes nothing and sends nothing; it succeeds, and reports how
      many alerts there would be. */
  lemma DryRunCycle(disk: Disk, records: seq<AlertRecord>, input: CycleInput, setup: Setup)
    requires setup.config.Valid() && Loads(disk, input.verdicts, records)
    ensures Cycle(disk, input, setup.config, setup.zone, setup.hasParent, true)
      == CycleRun(disk, [], [], false, Some(CycleOutcome(false, false, |DecidedOn(records, input, setup).alerts|, [])),
                  input.verdicts[LoadEnd(disk.file)..])
  {
    DecidedIsFormatted(records, input, setup);
    LoadSucceeds(disk, records, input.verdicts);
  }

  /** Without include terms, launches raise an exception that ends the process: nothing is
      written or sent. */
  lemma NoTermsEndsProcess(disk: Disk, records: seq<AlertRecord>, input: CycleInput, setup: Setup, dryRun: bool)
    requires setup.config.includeTerms == [] && input.feed != [] && Loads(disk, input.verdicts, records)
    ensures Cycle(disk, input, setup.config, setup.zone, setup.hasParent, dryRun)
      == CycleRun(disk, [], [], false, None, input.verdicts[LoadEnd(disk.file)..])
  {
    LoadSucceeds(disk, records, input.verdicts);
  }

  predicate NotTheSource(outcome: Option<CycleOutcome>) {
    outcome.Some? ==> !outcome.value.sourceFailed
  }

  lemma SaveIsNotTheSource(disk: Disk, d: CycleDecision, messages: seq<Message>, changed: bool, config: Config,
                           hasParent: bool, verdicts: seq<bool>)
    ensures NotTheSource(SaveAndNotify(disk, d, messages, changed, config, hasParent, verdicts).outcome)
  {
  }

  lemma DecidedIsNotTheSource(disk: Disk, records: seq<AlertRecord>, input: CycleInput, setup: Setup, dryRun: bool,
                              verdicts: seq<bool>)
    ensures var run := Decided(disk, records, input, setup.config, setup.zone, setup.hasParent, dryRun, verdicts);
      NotTheSource(run.outcome)
  {
    var d := DecidedOn(records, input, setup);
    var messages := FormatAll(d.alerts, setup.zone);
    if messages.Some? {
      SaveIsNotTheSource(disk, d, messages.value, Changed(d, records), setup.config, setup.hasParent, verdicts);
    }
  }

  /** A report blames the source exactly if the fetch failed, and then not the save. */
  lemma WhichFailure(disk: Disk, input: CycleInput, setup: Setup, dryRun: bool)
    ensures var report := Cycle(disk, input, setup.config, setup.zone, setup.hasParent, dryRun).outcome;
      report.Some? ==>
        && input.verdicts != [] && (report.value.sourceFailed <==> !input.verdicts[0])
        && (report.value.sourceFailed ==> !report.value.saveFailed)
  {
    var load := LoadSteps(disk.file, Rest(input.verdicts));
    if load.status.Records? {
      DecidedIsNotTheSource(disk, load.status.records, input, setup, dryRun, load.rest);
    }
  }

  // ----- what a run forgets -----

  /** At `now`, every record was last alerted within the retention, in days of the
      configuration. */
  predicate AllYoung(records: seq<AlertRecord>, setup: Setup, now: int) {
    forall r <- records :: now - r.lastAlertAt <= 86400 * setup.config.retentionDays
  }

  /** What the records file holds. */
  predicate FileHolds(file: Option<Content>, records: seq<AlertRecord>) {
    file == Some(Document(DocumentJson(records))) || (file == None && records == [])
  }

  lemma CommittedIsYoung(h: History, input: CycleInput, setup: Setup)
    requires Faithful(h) && CycleOf(h, input, setup).committed
    ensures var next := Next(h, input, setup);
      FileHolds(next.watch.disk.file, next.saved) && AllYoung(next.saved, setup, input.now)
  {
    NextIsFaithful(h, input, setup);
    KeptIsYoung(h.saved, input.feed, SettingsOf(setup.config), input.now);
  }

  /** After any run, every record on file is within the retention of the clock of the
      last committed cycle. */
  lemma RecordsOnFileAreYoung(tmp: Option<Content>, inputs: seq<CycleInput>, setup: Setup)
    ensures var h, polls := HistoryAfter(Start(tmp), inputs, setup), CommittedPolls(Start(tmp), inputs, setup);
      FileHolds(h.watch.disk.file, h.saved) && YoungAfter(h.saved, polls, setup)
  {
    RunIsFaithful(Start(tmp), inputs, setup);
    SavedIsYoung(tmp, inputs, setup);
  }

  ghost predicate YoungAfter(records: seq<AlertRecord>, polls: seq<CycleInput>, setup: Setup) {
    if polls == [] then records == [] else AllYoung(records, setup, polls[|polls| - 1].now)
  }

  lemma {:induction false} SavedIsYoung(tmp: Option<Content>, inputs: seq<CycleInput>, setup: Setup)
    ensures YoungAfter(HistoryAfter(Start(tmp), inputs, setup).saved, CommittedPolls(Start(tmp), inputs, setup), setup)
  {
    if inputs != [] {
      var init, last := inputs[..|inputs| - 1], inputs[|inputs| - 1];
      SavedIsYoung(tmp, init, setup);
      RunIsFaithful(Start(tmp), init, setup);
      YoungStep(HistoryAfter(Start(tmp), init, setup), last, CommittedPolls(Start(tmp), init, setup), setup);
    }
  }

  lemma YoungStep(h: History, input: CycleInput, polls: seq<CycleInput>, setup: Setup)
    requires Faithful(h) && YoungAfter(h.saved, polls, setup)
    ensures YoungAfter(Next(h, input, setup).saved,
                       if CycleOf(h, input, setup).committed then polls + [input] else polls, setup)
  {
    if CycleOf(h, input, setup).committed {
      CommittedIsYoung(h, input, setup);
    }
  }

  /** No relevant listing of the key in any of these cycles. */
  ghost predicate Unlisted(inputs: seq<CycleInput>, setup: Setup, k: string) {
    forall i :: 0 <= i < |inputs| ==> Sightings(inputs[i].feed, SettingsOf(setup.config), k) == []
  }

  /** One of the cycles commits later than the retention allows for this last alert. */
  ghost predicate ExpiresIn(h: History, inputs: seq<CycleInput>, setup: Setup, lastAlertAt: int) {
    exists poll <- CommittedPolls(h, inputs, setup) :: poll.now - lastAlertAt > 86400 * setup.config.retentionDays
  }

  /** While a key is not listed, its record is kept as it is until a cycle commits after
      it has expired, and is gone from then on; no alert is raised for it. */
  lemma {:induction false} UnlistedRecord(h: History, inputs: seq<CycleInput>, setup: Setup, k: string)
    requires Unlisted(inputs, setup, k)
    ensures var before, after := View(h, k), View(HistoryAfter(h, inputs, setup), k);
      && after.ledger == before.ledger
      && after.record == (if before.record.Some? && ExpiresIn(h, inputs, setup, before.record.value.lastAlertAt)
                          then None else before.record)
  {
    if inputs != [] {
      var init, last := inputs[..|inputs| - 1], inputs[|inputs| - 1];
      UnlistedRecord(h, init, setup, k);
      UnlistedStep(HistoryAfter(h, init, setup), last, setup, k);
    }
  }

  lemma UnlistedStep(h: History, input: CycleInput, setup: Setup, k: string)
    requires Sightings(input.feed, SettingsOf(setup.config), k) == []
    ensures var before, after := View(h, k), View(Next(h, input, setup), k);
      && after.ledger == before.ledger
      && after.record == (if CycleOf(h, input, setup).committed && before.record.Some?
                             && input.now - before.record.value.lastAlertAt > 86400 * setup.config.retentionDays
                          then None else before.record)
  {
    ViewStep(h, input, setup, k);
  }

  /** A key without a record whose one listing is due is alerted. */
  lemma ForgottenIsAlerted(h: History, input: CycleInput, setup: Setup, k: string, s: Sighting, kind: AlertKind)
    requires CycleOf(h, input, setup).committed && View(h, k).record == None
    requires Sightings(input.feed, SettingsOf(setup.config), k) == [s]
    requires Due(kind, s.launch, setup.config.Policy(), input.now)
    ensures View(Next(h, input, setup), k).ledger
      == View(h, k).ledger + [Alert(kind, s.launch, input.now, s.matchedTerms, None, None)]
  {
    ViewStep(h, input, setup, k);
    OneSighting(View(h, k), input.now, s, setup.config.Policy());
    CountdownKindIff(s.launch, None, s.matchedTerms, setup.config.Policy(), input.now, kind);
  }

  /** So a launch whose record expired is alerted again: after any cycles that do not list
      it, one of which committed after the retention had passed, the next committed cycle
      that lists it, due for a countdown alert, raises exactly that alert. */
  lemma ExpiredIsAlertedAgain(h: History, inputs: seq<CycleInput>, input: CycleInput, setup: Setup, k: string,
                              s: Sighting, kind: AlertKind)
    requires Unlisted(inputs, setup, k)
    requires View(h, k).record.Some? && ExpiresIn(h, inputs, setup, View(h, k).record.value.lastAlertAt)
    requires var before := HistoryAfter(h, inputs, setup);
      CycleOf(before, input, setup).committed
    requires Sightings(input.feed, SettingsOf(setup.config), k) == [s]
    requires Due(kind, s.launch, setup.config.Policy(), input.now)
    ensures View(Next(HistoryAfter(h, inputs, setup), input, setup), k).ledger
      == View(h, k).ledger + [Alert(kind, s.launch, input.now, s.matchedTerms, None, None)]
  {
    UnlistedRecord(h, inputs, setup, k);
    ForgottenIsAlerted(HistoryAfter(h, inputs, setup), input, setup, k, s, kind);
  }
}
