/**
 The watcher's guarantees, end to end: from the source's launches to the records
 file and the recipients, over whole runs.
 */
module Guarantees {
  import opened Domain
  import opened KeyOrder
  import opened Core
  import opened CoreLaws
  import opened KeyRuns
  import opened Storage
  import opened StorageLaws
  import opened Formatting
  import opened MessageLaws
  import opened Orchestration
  import opened WatchRuns
  import opened Loadability

  ghost predicate ChronologicalInputs(inputs: seq<CycleInput>) {
    forall i, j :: 0 <= i < j < |inputs| ==> inputs[i].now <= inputs[j].now
  }

  lemma ValidConfigIsSane(config: Config)
    requires config.Valid()
    ensures Sane(config.Policy())
  {
  }

  lemma KeyRunIsChronological(h: History, inputs: seq<CycleInput>, setup: Setup, k: string)
    requires ChronologicalInputs(inputs)
    ensures Chronological(KeyRunOf(h, inputs, setup, k))
  {
    KeyRunLength(h, inputs, setup, k);
    forall i | 0 <= i < |inputs| ensures KeyRunOf(h, inputs, setup, k)[i].now == inputs[i].now {
      KeyRunAt(h, inputs, setup, k, i);
    }
  }

  lemma StartView(tmp: Option<Content>, k: string)
    ensures View(Start(tmp), k) == FRESH
  {
  }

  /** Every key's view of every run is good at the clock of the last cycle. */
  lemma RunViewIsGood(tmp: Option<Content>, inputs: seq<CycleInput>, setup: Setup, k: string)
    requires setup.config.Valid() && ChronologicalInputs(inputs) && inputs != []
    ensures Good(View(HistoryAfter(Start(tmp), inputs, setup), k), setup.config.Policy(), inputs[|inputs| - 1].now)
  {
    ValidConfigIsSane(setup.config);
    var run := KeyRunOf(Start(tmp), inputs, setup, k);
    KeyRunIsChronological(Start(tmp), inputs, setup, k);
    KeyRunAt(Start(tmp), inputs, setup, k, 0);
    KeyRunAt(Start(tmp), inputs, setup, k, |inputs| - 1);
    StartView(tmp, k);
    RunView(Start(tmp), inputs, setup, k);
    FreshIsGood(setup.config.Policy(), inputs[0].now);
    RunKeepsGood(FRESH, run, setup.config.Policy(), inputs[0].now);
  }

  /** The records file of every run holds records of the record language only, one
      per key, in key order. */
  lemma RecordsFileIsWellFormed(tmp: Option<Content>, inputs: seq<CycleInput>, setup: Setup)
    requires setup.config.Valid() && ChronologicalInputs(inputs) && inputs != []
    ensures var h := HistoryAfter(Start(tmp), inputs, setup);
      && (h.watch.disk.file == Some(Document(DocumentJson(h.saved))) || (h.watch.disk.file == None && h.saved == []))
      && Ascending(h.saved)
      && forall i :: 0 <= i < |h.saved| ==> WellFormed(h.saved[i], inputs[|inputs| - 1].now)
  {
    var h := HistoryAfter(Start(tmp), inputs, setup);
    RunIsFaithful(Start(tmp), inputs, setup);
    AscendingIsDistinct(h.saved);
    MapOfDistinct(h.saved);
    forall i | 0 <= i < |h.saved| ensures WellFormed(h.saved[i], inputs[|inputs| - 1].now) {
      RunViewIsGood(tmp, inputs, setup, h.saved[i].key);
    }
  }

  // ----- no repeated notification -----

  lemma PositionFor(ledger: seq<Alert>, k: string, i: nat)
    requires i < |ledger| && ledger[i].launch.Key() == k
    ensures var p := |AlertsFor(ledger[..i], k)|;
      p < |AlertsFor(ledger, k)| && AlertsFor(ledger, k)[p] == ledger[i]
  {
    var one := [ledger[i]];
    assert ledger == ledger[..i] + (one + ledger[i + 1..]);
    AlertsForConcat(ledger[..i], one + ledger[i + 1..], k);
    AlertsForConcat(one, ledger[i + 1..], k);
    assert one[..0] == [];
    assert AlertsFor(one, k) == one;
  }

  lemma PositionsAreOrdered(ledger: seq<Alert>, k: string, i: nat, j: nat)
    requires i < j < |ledger| && ledger[i].launch.Key() == k
    ensures |AlertsFor(ledger[..i], k)| < |AlertsFor(ledger[..j], k)|
  {
    assert ledger[..j][..i] == ledger[..i];
    PositionFor(ledger[..j], k, i);
  }

  /** A message tells which alert it was made of: the launch and the kind. */
  lemma MessageIdentifies(alert: Alert, zone: Zone)
    requires FormatAlert(alert, zone).Some?
    ensures FormatAlert(alert, zone).value.launchKey == alert.launch.Key()
    ensures forall kind :: kind != Correction ==>
      (FormatAlert(alert, zone).value.alertKind == KindName(kind) <==> alert.kind == kind)
  {
    if alert.kind == Correction {
      assert FormatAlert(alert, zone).value.alertKind[0] == 'c';
    }
  }

  /** No repeated notification: over every run whose clock does not go back, with
      failures and crashes anywhere, two deliveries to one recipient about one
      launch, of the same countdown kind or Launch Soon after Launch Imminent, are
      of alerts created more than the retention apart. */
  lemma NoRepeatedNotification(tmp: Option<Content>, inputs: seq<CycleInput>, setup: Setup)
    requires setup.config.Valid() && ChronologicalInputs(inputs)
    ensures var h := HistoryAfter(Start(tmp), inputs, setup);
      && Traced(h, setup)
      && forall i, j :: 0 <= i < j < |h.watch.sent| && Repeated(h.watch.sent[i], h.watch.sent[j]) ==>
           && SourcedAt(h, setup, i) && SourcedAt(h, setup, j)
           && h.ledger[h.origins[j]].createdAt - h.ledger[h.origins[i]].createdAt > setup.config.Policy().retention
  {
    var h := HistoryAfter(Start(tmp), inputs, setup);
    AtMostOnce(tmp, inputs, setup);
    forall i, j | 0 <= i < j < |h.watch.sent| && Repeated(h.watch.sent[i], h.watch.sent[j])
      ensures SourcedAt(h, setup, i) && SourcedAt(h, setup, j)
      ensures h.ledger[h.origins[j]].createdAt - h.ledger[h.origins[i]].createdAt > setup.config.Policy().retention
    {
      RepeatIsSpaced(tmp, inputs, setup, h, i, j);
    }
  }

  /** To one recipient about one launch, a kind and then one that it suppresses. */
  predicate Repeated(a: Delivery, b: Delivery) {
    && a.recipient == b.recipient && a.message.launchKey == b.message.launchKey
    && exists earlier, later :: Suppresses(earlier, later)
         && a.message.alertKind == KindName(earlier) && b.message.alertKind == KindName(later)
  }

  lemma RepeatIsSpaced(tmp: Option<Content>, inputs: seq<CycleInput>, setup: Setup, h: History, i: nat, j: nat)
    requires setup.config.Valid() && ChronologicalInputs(inputs)
    requires h == HistoryAfter(Start(tmp), inputs, setup) && Traced(h, setup)
    requires i < j < |h.watch.sent| && Repeated(h.watch.sent[i], h.watch.sent[j])
    ensures SourcedAt(h, setup, i) && SourcedAt(h, setup, j)
    ensures h.ledger[h.origins[j]].createdAt - h.ledger[h.origins[i]].createdAt > setup.config.Policy().retention
  {
    assert SourcedAt(h, setup, i) && SourcedAt(h, setup, j);
    var a, b := h.origins[i], h.origins[j];
    MessageIdentifies(h.ledger[a], setup.zone);
    MessageIdentifies(h.ledger[b], setup.zone);
    assert a < b;
    var k := h.ledger[a].launch.Key();
    RunViewIsGood(tmp, inputs, setup, k);
    PositionFor(h.ledger, k, a);
    PositionFor(h.ledger, k, b);
    PositionsAreOrdered(h.ledger, k, a, b);
  }

  // ----- no notification without cause -----

  /** The alert is justified by a launch that the source listed in some cycle. */
  predicate Caused(alert: Alert, inputs: seq<CycleInput>, settings: Settings) {
    Justified(alert, settings) && exists input <- inputs :: alert.launch in input.feed && alert.createdAt == input.now
  }

  lemma {:induction false} LedgerIsCaused(tmp: Option<Content>, inputs: seq<CycleInput>, setup: Setup)
    ensures forall alert <- HistoryAfter(Start(tmp), inputs, setup).ledger ::
      Caused(alert, inputs, SettingsOf(setup.config))
  {
    if inputs != [] {
      var init, last, settings := inputs[..|inputs| - 1], inputs[|inputs| - 1], SettingsOf(setup.config);
      LedgerIsCaused(tmp, init, setup);
      var h := HistoryAfter(Start(tmp), init, setup);
      DecisionIsCaused(h.saved, last, settings, inputs);
      assert forall input <- init :: input in inputs;
      assert forall alert <- h.ledger :: Caused(alert, init, settings);
    }
  }

  lemma DecisionIsCaused(records: seq<AlertRecord>, input: CycleInput, settings: Settings, inputs: seq<CycleInput>)
    requires input in inputs
    ensures forall alert <- Decision(records, input.feed, settings, input.now).alerts :: Caused(alert, inputs, settings)
  {
    FoldIsJustified(MapOf(records), input.feed, settings, input.now);
  }

  /** Whatever is sent in a run comes from an alert about a relevant launch that the
      source listed, due for that alert at that time, or outdated as the correction
      says. */
  lemma NotificationsAreCaused(tmp: Option<Content>, inputs: seq<CycleInput>, setup: Setup)
    requires setup.config.Valid()
    ensures var h := HistoryAfter(Start(tmp), inputs, setup);
      && Traced(h, setup)
      && forall i :: 0 <= i < |h.watch.sent| ==>
           SourcedAt(h, setup, i) && Caused(h.ledger[h.origins[i]], inputs, SettingsOf(setup.config))
  {
    var h := HistoryAfter(Start(tmp), inputs, setup);
    AtMostOnce(tmp, inputs, setup);
    LedgerIsCaused(tmp, inputs, setup);
    forall i | 0 <= i < |h.watch.sent|
      ensures SourcedAt(h, setup, i) && Caused(h.ledger[h.origins[i]], inputs, SettingsOf(setup.config))
    {
      assert SourcedAt(h, setup, i);
      assert h.ledger[h.origins[i]] in h.ledger;
    }
  }

  // ----- corrections are paid for -----

  /** All relevant launches with key `k` that the source listed, in order. */
  function Listed(inputs: seq<CycleInput>, settings: Settings, k: string): seq<Sighting> {
    if inputs == [] then []
    else Listed(inputs[..|inputs| - 1], settings, k) + Sightings(inputs[|inputs| - 1].feed, settings, k)
  }

  lemma {:induction false} ObservedIsListed(h: History, inputs: seq<CycleInput>, setup: Setup, k: string)
    ensures Observed(KeyRunOf(h, inputs, setup, k)) == Listed(inputs, SettingsOf(setup.config), k)
  {
    if inputs != [] {
      var init, run := inputs[..|inputs| - 1], KeyRunOf(h, inputs, setup, k);
      ObservedIsListed(h, init, setup, k);
      KeyRunAt(h, inputs, setup, k, |inputs| - 1);
      assert run[..|run| - 1] == KeyRunOf(h, init, setup, k);
    }
  }

  /** Over every run, whatever fails and whatever the clock does: the committed
      corrections for a launch are at most the changes of its facts in the feeds,
      and its time corrections, times the shift threshold, at most the total
      movement of its launch time there. */
  lemma CorrectionsAreBounded(tmp: Option<Content>, inputs: seq<CycleInput>, setup: Setup, k: string)
    requires setup.config.Valid()
    ensures var ledger := AlertsFor(HistoryAfter(Start(tmp), inputs, setup).ledger, k);
      var seen := Listed(inputs, SettingsOf(setup.config), k);
      && CountCorrections(ledger) <= FactChanges(seen)
      && setup.config.Policy().correctionTimeShift * CountReason(ledger, TimeChanged) <= Variation(KnownTimes(seen))
      && CorrectionsQuote(ledger)
  {
    ValidConfigIsSane(setup.config);
    StartView(tmp, k);
    RunView(Start(tmp), inputs, setup, k);
    CorrectionsArePaidFor(KeyRunOf(Start(tmp), inputs, setup, k), setup.config.Policy());
    CorrectionsQuoteTheLastAlert(KeyRunOf(Start(tmp), inputs, setup, k), setup.config.Policy());
    ObservedIsListed(Start(tmp), inputs, setup, k);
  }

  // ----- cycles that reach their end -----

  /** How many verdicts fetch, load and save use if they succeed. */
  ghost function StepsUsed(h: History, input: CycleInput, setup: Setup): nat {
    1 + LoadCount(h.watch.disk.file) + SaveCount(Changed(DecisionOf(h, input, setup), h.saved), setup.hasParent)
  }

  function LoadCount(file: Option<Content>): nat {
    if file.None? then 1 else 2
  }

  function SaveCount(changed: bool, hasParent: bool): nat {
    if changed then StepCount(hasParent) else 0
  }

  /** Fetch, load and save succeed, each with the verdicts it uses, and the process does
      not die before the last delivery; deliveries may fail. */
  ghost predicate Healthy(h: History, input: CycleInput, setup: Setup) {
    var used := StepsUsed(h, input, setup);
    && AllProceed(input.verdicts, used)
    && |input.verdicts| >= used + |DecisionOf(h, input, setup).alerts| * |setup.config.recipients|
  }

  lemma {:induction false} NoticesCount(messages: seq<Message>, recipients: seq<Recipient>)
    ensures |Notices(messages, recipients)| == |messages| * |recipients|
  {
    if messages != [] {
      NoticesCount(messages[..|messages| - 1], recipients);
      assert |messages| * |recipients| == (|messages| - 1) * |recipients| + |recipients|;
    }
  }

  lemma {:induction false} AllFormatted(alerts: seq<Alert>, config: Config, zone: Zone)
    requires forall alert <- alerts :: Formattable(alert, config)
    ensures FormatAll(alerts, zone).Some? && |FormatAll(alerts, zone).value| == |alerts|
  {
    if alerts != [] {
      AllFormatted(alerts[..|alerts| - 1], config, zone);
      FormattableIsFormatted(alerts[|alerts| - 1], config, zone);
    }
  }

  lemma DecisionIsFormatted(h: History, input: CycleInput, setup: Setup)
    requires setup.config.Valid()
    ensures var d := DecisionOf(h, input, setup);
      FormatAll(d.alerts, setup.zone).Some? && |FormatAll(d.alerts, setup.zone).value| == |d.alerts|
  {
    CycleAlertsAreFormattable(MapOf(h.saved), input.feed, setup.config, setup.config.includeTerms,
                              setup.config.launchProvider, input.now);
    AllFormatted(DecisionOf(h, input, setup).alerts, setup.config, setup.zone);
  }

  /** A load gives records exactly if its steps succeed, and then the saved ones. */
  lemma LoadIff(h: History, verdicts: seq<bool>)
    requires Faithful(h) && AllWritable(h.saved)
    ensures var load, n := LoadSteps(h.watch.disk.file, verdicts), LoadCount(h.watch.disk.file);
      && (load.status.Records? <==> AllProceed(verdicts, n))
      && (load.status.Records? ==> load == LoadRun(Records(h.saved), verdicts[n..]))
  {
    DocumentRoundTrip(h.saved);
    AllProceedStep(verdicts, 0);
    AllProceedStep(verdicts, 1);
    AllProceedStep(Rest(verdicts), 0);
    if |verdicts| >= 2 {
      TwoRests(verdicts);
    }
  }

  lemma SaveAndNotifyIff(disk: Disk, d: CycleDecision, messages: seq<Message>, changed: bool, config: Config,
                         hasParent: bool, verdicts: seq<bool>)
    ensures var run := SaveAndNotify(disk, d, messages, changed, config, hasParent, verdicts);
      var n := SaveCount(changed, hasParent);
      (run.committed && run.outcome.Some?)
      <==> RestProceeds(verdicts, n, |Notices(messages, config.recipients)|)
  {
    if changed {
      SaveIsAtomic(disk, DocumentJson(SortByKey(d.updatedRecords)), hasParent, verdicts);
    }
  }

  lemma AllProceedSplit(verdicts: seq<bool>, a: nat, b: nat)
    requires a <= |verdicts|
    ensures AllProceed(verdicts, a + b) <==> AllProceed(verdicts, a) && AllProceed(verdicts[a..], b)
  {
  }

  /** What a cycle does once fetch and load have succeeded. */
  lemma CycleAfterLoad(h: History, input: CycleInput, setup: Setup, load: LoadRun, messages: seq<Message>)
    requires First(input.verdicts).Proceed? && load == LoadSteps(h.watch.disk.file, Rest(input.verdicts))
    requires load.status == Records(h.saved) && setup.config.includeTerms != []
    requires FormatAll(DecisionOf(h, input, setup).alerts, setup.zone) == Some(messages)
    ensures var d := DecisionOf(h, input, setup);
      CycleOf(h, input, setup)
        == SaveAndNotify(h.watch.disk, d, messages, Changed(d, h.saved), setup.config, setup.hasParent, load.rest)
  {
  }

  /** The cycle commits its decision and attempts every delivery. */
  ghost predicate Reaches(h: History, input: CycleInput, setup: Setup) {
    CycleOf(h, input, setup).committed && CycleOf(h, input, setup).outcome.Some?
  }

  lemma StoppedEarly(h: History, input: CycleInput, setup: Setup)
    requires !First(input.verdicts).Proceed? || !LoadSteps(h.watch.disk.file, Rest(input.verdicts)).status.Records?
    ensures !Reaches(h, input, setup)
  {
  }

  /** Verdicts in three parts: fetch, load, and the rest. */
  lemma VerdictParts(verdicts: seq<bool>, load: nat, save: nat, notices: nat)
    ensures (AllProceed(verdicts, 1 + load + save) && |verdicts| >= 1 + load + save + notices)
      <==> (First(verdicts).Proceed? && AllProceed(Rest(verdicts), load)
            && RestProceeds(Rest(verdicts)[load..], save, notices))
  {
    AllProceedStep(verdicts, load + save);
    if |Rest(verdicts)| >= load {
      AllProceedSplit(Rest(verdicts), load, save);
    }
  }

  ghost predicate RestProceeds(verdicts: seq<bool>, save: nat, notices: nat) {
    AllProceed(verdicts, save) && |verdicts| >= save + notices
  }

  /** A cycle commits its decision and attempts every delivery if and only if it is
      healthy. */
  lemma HealthyCycleIff(h: History, input: CycleInput, setup: Setup)
    requires setup.config.Valid() && Faithful(h) && AllWritable(h.saved)
    ensures Reaches(h, input, setup) <==> Healthy(h, input, setup)
  {
    var d, rest := DecisionOf(h, input, setup), Rest(input.verdicts);
    DecisionIsFormatted(h, input, setup);
    var messages := FormatAll(d.alerts, setup.zone).value;
    NoticesCount(messages, setup.config.recipients);
    LoadIff(h, rest);
    var n, save := LoadCount(h.watch.disk.file), SaveCount(Changed(d, h.saved), setup.hasParent);
    VerdictParts(input.verdicts, n, save, |Notices(messages, setup.config.recipients)|);
    if First(input.verdicts).Proceed? && AllProceed(rest, n) {
      CycleAfterLoad(h, input, setup, LoadSteps(h.watch.disk.file, rest), messages);
      SaveAndNotifyIff(h.watch.disk, d, messages, Changed(d, h.saved), setup.config, setup.hasParent, rest[n..]);
    } else {
      StoppedEarly(h, input, setup);
    }
  }

  // ----- who gets which message -----

  datatype Address = Address(message: Message, recipient: string)

  function DeliveryAddresses(ds: seq<Delivery>): seq<Address> {
    seq(|ds|, i requires 0 <= i < |ds| => Address(ds[i].message, ds[i].recipient))
  }

  function NoticeAddresses(notices: seq<Notice>): seq<Address> {
    seq(|notices|, i requires 0 <= i < |notices| => Address(notices[i].message, notices[i].recipient))
  }

  /** The messages about launch `k` addressed to `name`, in order. */
  function MessagesTo(addresses: seq<Address>, name: string, k: string): seq<Message> {
    if addresses == [] then [] else
      var last := addresses[|addresses| - 1];
      var before := MessagesTo(addresses[..|addresses| - 1], name, k);
      if last.recipient == name && last.message.launchKey == k then before + [last.message] else before
  }

  function MessagesOf(alerts: seq<Alert>, zone: Zone): seq<Option<Message>> {
    seq(|alerts|, i requires 0 <= i < |alerts| => FormatAlert(alerts[i], zone))
  }

  function Somes(messages: seq<Message>): seq<Option<Message>> {
    seq(|messages|, i requires 0 <= i < |messages| => Some(messages[i]))
  }

  lemma {:induction false} MessagesToConcat(a: seq<Address>, b: seq<Address>, name: string, k: string)
    ensures MessagesTo(a + b, name, k) == MessagesTo(a, name, k) + MessagesTo(b, name, k)
  {
    if b == [] {
      assert a + b == a;
    } else {
      MessagesToConcat(a, b[..|b| - 1], name, k);
      assert (a + b)[..|a + b| - 1] == a + b[..|b| - 1];
    }
  }

  /** Of what is addressed to `name`, the part about launch `k` is the messages of
      the alerts for `k`, in order. */
  ghost predicate Tells(addresses: seq<Address>, alerts: seq<Alert>, zone: Zone, name: string, k: string) {
    Somes(MessagesTo(addresses, name, k)) == MessagesOf(AlertsFor(alerts, k), zone)
  }

  lemma SomesConcat(a: seq<Message>, b: seq<Message>)
    ensures Somes(a + b) == Somes(a) + Somes(b)
  {
  }

  lemma MessagesOfConcat(a: seq<Alert>, b: seq<Alert>, zone: Zone)
    ensures MessagesOf(a + b, zone) == MessagesOf(a, zone) + MessagesOf(b, zone)
  {
  }

  lemma TellsConcat(a: seq<Address>, b: seq<Address>, x: seq<Alert>, y: seq<Alert>, zone: Zone, name: string, k: string)
    requires Tells(a, x, zone, name, k) && Tells(b, y, zone, name, k)
    ensures Tells(a + b, x + y, zone, name, k)
  {
    MessagesToConcat(a, b, name, k);
    AlertsForConcat(x, y, k);
    SomesConcat(MessagesTo(a, name, k), MessagesTo(b, name, k));
    MessagesOfConcat(AlertsFor(x, k), AlertsFor(y, k), zone);
  }

  lemma {:induction false} BlockWithoutName(index: nat, message: Message, recipients: seq<Recipient>, name: string,
                                            k: string)
    requires forall i :: 0 <= i < |recipients| ==> recipients[i].name != name
    ensures MessagesTo(NoticeAddresses(NoticesFor(index, message, recipients)), name, k) == []
  {
    if recipients != [] {
      var init := recipients[..|recipients| - 1];
      BlockWithoutName(index, message, init, name, k);
      var block := NoticeAddresses(NoticesFor(index, message, recipients));
      assert block[..|block| - 1] == NoticeAddresses(NoticesFor(index, message, init));
    }
  }

  /** One message goes to each recipient once. */
  lemma {:induction false} BlockWithName(index: nat, message: Message, recipients: seq<Recipient>, r: nat, k: string)
    requires UniqueNames(recipients) && r < |recipients|
    ensures MessagesTo(NoticeAddresses(NoticesFor(index, message, recipients)), recipients[r].name, k)
      == if message.launchKey == k then [message] else []
  {
    var init := recipients[..|recipients| - 1];
    var block := NoticeAddresses(NoticesFor(index, message, recipients));
    assert block[..|block| - 1] == NoticeAddresses(NoticesFor(index, message, init));
    if r < |init| {
      BlockWithName(index, message, init, r, k);
    } else {
      BlockWithoutName(index, message, init, recipients[r].name, k);
    }
  }

  lemma BlockTells(index: nat, alert: Alert, message: Message, setup: Setup, r: nat, k: string)
    requires UniqueNames(setup.config.recipients) && r < |setup.config.recipients|
    requires FormatAlert(alert, setup.zone) == Some(message)
    ensures Tells(NoticeAddresses(NoticesFor(index, message, setup.config.recipients)), [alert], setup.zone,
                  setup.config.recipients[r].name, k)
  {
    BlockWithName(index, message, setup.config.recipients, r, k);
    MessageIdentifies(alert, setup.zone);
    assert [alert][..0] == [];
    assert AlertsFor([alert], k) == if alert.launch.Key() == k then [alert] else [];
  }

  lemma NoticeAddressesConcat(a: seq<Notice>, b: seq<Notice>)
    ensures NoticeAddresses(a + b) == NoticeAddresses(a) + NoticeAddresses(b)
  {
  }

  /** All notices of a cycle, seen by one recipient and one launch: the messages of
      the alerts for that launch, in order. */
  lemma {:induction false} NoticesToRecipient(alerts: seq<Alert>, messages: seq<Message>, setup: Setup, r: nat,
                                              k: string)
    requires UniqueNames(setup.config.recipients) && r < |setup.config.recipients|
    requires FormatAll(alerts, setup.zone) == Some(messages)
    ensures Tells(NoticeAddresses(Notices(messages, setup.config.recipients)), alerts, setup.zone,
                  setup.config.recipients[r].name, k)
  {
    if alerts != [] {
      var init, last := alerts[..|alerts| - 1], alerts[|alerts| - 1];
      var before, message := messages[..|messages| - 1], messages[|messages| - 1];
      FormatAllSplit(alerts, setup.zone, messages);
      NoticesToRecipient(init, before, setup, r, k);
      LastNotices(messages, setup.config.recipients);
      NoticesOfOneMore(init, last, Notices(before, setup.config.recipients), |before|, message, setup, r, k);
      SplitLast(alerts);
    }
  }

  lemma SplitLast(alerts: seq<Alert>)
    requires alerts != []
    ensures alerts[..|alerts| - 1] + [alerts[|alerts| - 1]] == alerts
  {
  }

  lemma LastNotices(messages: seq<Message>, recipients: seq<Recipient>)
    requires messages != []
    ensures Notices(messages, recipients)
      == Notices(messages[..|messages| - 1], recipients)
         + NoticesFor(|messages[..|messages| - 1]|, messages[|messages| - 1], recipients)
  {
  }

  lemma NoticesOfOneMore(init: seq<Alert>, last: Alert, before: seq<Notice>, index: nat, message: Message,
                         setup: Setup, r: nat, k: string)
    requires UniqueNames(setup.config.recipients) && r < |setup.config.recipients|
    requires Tells(NoticeAddresses(before), init, setup.zone, setup.config.recipients[r].name, k)
    requires FormatAlert(last, setup.zone) == Some(message)
    ensures Tells(NoticeAddresses(before + NoticesFor(index, message, setup.config.recipients)), init + [last],
                  setup.zone, setup.config.recipients[r].name, k)
  {
    var block := NoticesFor(index, message, setup.config.recipients);
    BlockTells(index, last, message, setup, r, k);
    NoticeAddressesConcat(before, block);
    TellsConcat(NoticeAddresses(before), NoticeAddresses(block), init, [last], setup.zone,
                setup.config.recipients[r].name, k);
  }

  /** A cycle that commits and is not cut short tells every recipient its alerts. */
  lemma CompleteCycleTells(h: History, input: CycleInput, setup: Setup, r: nat, k: string)
    requires setup.config.Valid() && Faithful(h) && r < |setup.config.recipients|
    requires CycleOf(h, input, setup).committed && CycleOf(h, input, setup).outcome.Some?
    ensures Tells(DeliveryAddresses(CycleOf(h, input, setup).deliveries), DecisionOf(h, input, setup).alerts,
                  setup.zone, setup.config.recipients[r].name, k)
  {
    var run, d := CycleOf(h, input, setup), DecisionOf(h, input, setup);
    FinishedCommit(h, input, setup);
    var messages := FormatAll(d.alerts, setup.zone).value;
    NoticesToRecipient(d.alerts, messages, setup, r, k);
    assert [] + run.deliveries == run.deliveries;
    SameAddresses([], run.deliveries, run.notices);
    assert DeliveryAddresses([]) + NoticeAddresses(run.notices) == NoticeAddresses(run.notices);
  }

  lemma SameAddresses(sent: seq<Delivery>, deliveries: seq<Delivery>, notices: seq<Notice>)
    requires |deliveries| == |notices|
    requires forall i :: 0 <= i < |notices| ==>
      deliveries[i].message == notices[i].message && deliveries[i].recipient == notices[i].recipient
    ensures DeliveryAddresses(sent + deliveries) == DeliveryAddresses(sent) + NoticeAddresses(notices)
  {
  }

  /** No process dies between the save and the last delivery of a cycle. */
  ghost predicate Undisturbed(h: History, inputs: seq<CycleInput>, setup: Setup) {
    inputs == [] ||
      var init, last := inputs[..|inputs| - 1], inputs[|inputs| - 1];
      Undisturbed(h, init, setup) && !DiesNotifying(HistoryAfter(h, init, setup), last, setup)
  }

  ghost predicate DiesNotifying(h: History, input: CycleInput, setup: Setup) {
    CycleOf(h, input, setup).committed && CycleOf(h, input, setup).outcome.None?
  }

  /** `after` adds `sent` and `alerts` to `h`, and `sent` tells the recipient `alerts`. */
  ghost predicate TellsMore(h: History, after: History, sent: seq<Delivery>, alerts: seq<Alert>, setup: Setup, r: nat,
                            k: string)
    requires r < |setup.config.recipients|
  {
    && after.watch.sent == h.watch.sent + sent && after.ledger == h.ledger + alerts
    && Tells(DeliveryAddresses(sent), alerts, setup.zone, setup.config.recipients[r].name, k)
  }

  lemma TellsStep(h: History, before: History, next: History, sent: seq<Delivery>, alerts: seq<Alert>,
                  newSent: seq<Delivery>, newAlerts: seq<Alert>, setup: Setup, r: nat, k: string)
    requires r < |setup.config.recipients|
    requires TellsMore(h, before, sent, alerts, setup, r, k) && TellsMore(before, next, newSent, newAlerts, setup, r, k)
    ensures TellsMore(h, next, sent + newSent, alerts + newAlerts, setup, r, k)
  {
    SameAddressesConcat(sent, newSent);
    TellsConcat(DeliveryAddresses(sent), DeliveryAddresses(newSent), alerts, newAlerts, setup.zone,
                setup.config.recipients[r].name, k);
  }

  lemma CycleTells(before: History, input: CycleInput, setup: Setup, r: nat, k: string)
    returns (sent: seq<Delivery>, alerts: seq<Alert>)
    requires setup.config.Valid() && r < |setup.config.recipients| && Faithful(before)
    requires !DiesNotifying(before, input, setup)
    ensures TellsMore(before, Next(before, input, setup), sent, alerts, setup, r, k)
  {
    if CycleOf(before, input, setup).committed {
      CompleteCycleTells(before, input, setup, r, k);
      sent, alerts := CycleOf(before, input, setup).deliveries, DecisionOf(before, input, setup).alerts;
    } else {
      NextUnchanged(before, input, setup);
      sent, alerts := [], [];
      TellsNothing(before, Next(before, input, setup), setup, r, k);
    }
  }

  lemma TellsNothing(h: History, after: History, setup: Setup, r: nat, k: string)
    requires r < |setup.config.recipients| && after.watch.sent == h.watch.sent && after.ledger == h.ledger
    ensures TellsMore(h, after, [], [], setup, r, k)
  {
    assert h.watch.sent + [] == h.watch.sent && h.ledger + [] == h.ledger;
  }

  lemma SameAddressesConcat(a: seq<Delivery>, b: seq<Delivery>)
    ensures DeliveryAddresses(a + b) == DeliveryAddresses(a) + DeliveryAddresses(b)
  {
  }

  /** Whatever fails in a run, as long as no process dies while notifying, every
      recipient is told every alert committed in it, once and in order. */
  lemma {:induction false} UndisturbedRunTells(h: History, inputs: seq<CycleInput>, setup: Setup, r: nat, k: string)
    returns (sent: seq<Delivery>, alerts: seq<Alert>)
    requires setup.config.Valid() && Faithful(h) && r < |setup.config.recipients|
    requires Undisturbed(h, inputs, setup)
    ensures TellsMore(h, HistoryAfter(h, inputs, setup), sent, alerts, setup, r, k)
  {
    if inputs == [] {
      sent, alerts := [], [];
      TellsNothing(h, h, setup, r, k);
    } else {
      var init, last := inputs[..|inputs| - 1], inputs[|inputs| - 1];
      var before := HistoryAfter(h, init, setup);
      RunIsFaithful(h, init, setup);
      var soFar, told := UndisturbedRunTells(h, init, setup, r, k);
      var newSent, newAlerts := CycleTells(before, last, setup, r, k);
      TellsStep(h, before, HistoryAfter(h, inputs, setup), soFar, told, newSent, newAlerts, setup, r, k);
      sent, alerts := soFar + newSent, told + newAlerts;
    }
  }

  // ----- what is missing, and why -----

  /** The alert at position `a` of the ledger was attempted for the recipient. */
  ghost predicate Reached(h: History, a: nat, name: string)
    requires |h.origins| == |h.watch.sent|
  {
    exists j :: 0 <= j < |h.origins| && h.origins[j] == a && h.watch.sent[j].recipient == name
  }

  /** The cycle committed the alert at position `a`, and the process died before it
      had notified everybody. */
  ghost predicate LostIn(h: History, input: CycleInput, setup: Setup, a: nat) {
    DiesNotifying(h, input, setup) && |h.ledger| <= a < |h.ledger| + |DecisionOf(h, input, setup).alerts|
  }

  /** That happened in some cycle of the run. */
  ghost predicate LostWithProcess(h: History, inputs: seq<CycleInput>, setup: Setup, a: nat) {
    inputs != [] &&
      var init, last := inputs[..|inputs| - 1], inputs[|inputs| - 1];
      LostWithProcess(h, init, setup, a) || LostIn(HistoryAfter(h, init, setup), last, setup, a)
  }

  lemma {:induction false} NoticeExists(messages: seq<Message>, recipients: seq<Recipient>, index: nat, r: nat)
    returns (j: nat)
    requires index < |messages| && r < |recipients|
    ensures var notices := Notices(messages, recipients);
      j < |notices| && notices[j].index == index && notices[j].recipient == recipients[r].name
  {
    var init := messages[..|messages| - 1];
    if index < |init| {
      j := NoticeExists(init, recipients, index, r);
    } else {
      j := |Notices(init, recipients)| + r;
    }
  }

  lemma ReachedStays(h: History, next: History, a: nat, name: string)
    requires |h.origins| == |h.watch.sent| && |next.origins| == |next.watch.sent|
    requires h.origins <= next.origins && h.watch.sent <= next.watch.sent
    requires Reached(h, a, name)
    ensures Reached(next, a, name)
  {
    var j :| 0 <= j < |h.origins| && h.origins[j] == a && h.watch.sent[j].recipient == name;
    assert next.origins[j] == a && next.watch.sent[j].recipient == name;
  }

  lemma NextIsLonger(h: History, input: CycleInput, setup: Setup)
    ensures h.origins <= Next(h, input, setup).origins && h.watch.sent <= Next(h, input, setup).watch.sent
  {
  }

  /** An extension by all notices reaches every recipient with each of its alerts. */
  lemma NewIsReached(h: History, next: History, alerts: seq<Alert>, messages: seq<Message>, deliveries: seq<Delivery>,
                     setup: Setup, a: nat, r: nat)
    requires r < |setup.config.recipients| && |h.origins| == |h.watch.sent| && |next.origins| == |next.watch.sent|
    requires FormatAll(alerts, setup.zone) == Some(messages)
    requires Extends(h, next, alerts, Notices(messages, setup.config.recipients), deliveries)
    requires |h.ledger| <= a < |next.ledger|
    ensures Reached(next, a, setup.config.recipients[r].name)
  {
    var notices := Notices(messages, setup.config.recipients);
    FormatAllAt(alerts, setup.zone, a - |h.ledger|);
    var j := NoticeExists(messages, setup.config.recipients, a - |h.ledger|, r);
    ReachedBy(h, next, alerts, notices, deliveries, a, setup.config.recipients[r].name, j);
  }

  lemma ReachedBy(h: History, next: History, alerts: seq<Alert>, notices: seq<Notice>, deliveries: seq<Delivery>,
                  a: nat, name: string, j: nat)
    requires |h.origins| == |h.watch.sent| && |next.origins| == |next.watch.sent|
    requires Extends(h, next, alerts, notices, deliveries) && j < |notices|
    requires a == |h.ledger| + notices[j].index && notices[j].recipient == name
    ensures Reached(next, a, name)
  {
    assert next.origins[|h.origins| + j] == a;
    assert next.watch.sent[|h.origins| + j] == deliveries[j];
  }

  lemma FinishedExtends(h: History, input: CycleInput, setup: Setup) returns (messages: seq<Message>)
    requires Faithful(h) && CycleOf(h, input, setup).committed && CycleOf(h, input, setup).outcome.Some?
    ensures var run, d := CycleOf(h, input, setup), DecisionOf(h, input, setup);
      && FormatAll(d.alerts, setup.zone) == Some(messages)
      && Extends(h, Next(h, input, setup), d.alerts, Notices(messages, setup.config.recipients), run.deliveries)
  {
    FinishedCommit(h, input, setup);
    messages := FormatAll(DecisionOf(h, input, setup).alerts, setup.zone).value;
  }

  /** A new alert that somebody missed was committed by a process that died. */
  lemma MissingNewAlert(h: History, input: CycleInput, setup: Setup, a: nat, r: nat)
    requires Faithful(h) && |h.origins| == |h.watch.sent| && r < |setup.config.recipients|
    requires |Next(h, input, setup).origins| == |Next(h, input, setup).watch.sent|
    requires |h.ledger| <= a < |Next(h, input, setup).ledger|
    requires !Reached(Next(h, input, setup), a, setup.config.recipients[r].name)
    ensures DiesNotifying(h, input, setup)
    ensures |h.ledger| <= a < |h.ledger| + |DecisionOf(h, input, setup).alerts|
  {
    if !CycleOf(h, input, setup).committed {
      NextUnchanged(h, input, setup);
    } else if CycleOf(h, input, setup).outcome.Some? {
      var messages := FinishedExtends(h, input, setup);
      NewIsReached(h, Next(h, input, setup), DecisionOf(h, input, setup).alerts, messages,
                   CycleOf(h, input, setup).deliveries, setup, a, r);
    }
  }

  /** In any run, an alert that was committed and not attempted for some recipient was
      committed in a cycle in which the process died while notifying. */
  lemma {:induction false} MissingOnlyByDeath(tmp: Option<Content>, inputs: seq<CycleInput>, setup: Setup, r: nat,
                                              a: nat)
    requires setup.config.Valid() && r < |setup.config.recipients|
    ensures var h := HistoryAfter(Start(tmp), inputs, setup);
      && |h.origins| == |h.watch.sent|
      && (a < |h.ledger| ==>
            Reached(h, a, setup.config.recipients[r].name) || LostWithProcess(Start(tmp), inputs, setup, a))
  {
    AtMostOnce(tmp, inputs, setup);
    if inputs != [] {
      var init, last := inputs[..|inputs| - 1], inputs[|inputs| - 1];
      MissingOnlyByDeath(tmp, init, setup, r, a);
      RunIsFaithful(Start(tmp), init, setup);
      MissingAfter(HistoryAfter(Start(tmp), init, setup), last, HistoryAfter(Start(tmp), inputs, setup), setup, a, r);
    }
  }

  lemma MissingAfter(h: History, input: CycleInput, next: History, setup: Setup, a: nat, r: nat)
    requires Faithful(h) && r < |setup.config.recipients| && next == Next(h, input, setup)
    requires |h.origins| == |h.watch.sent| && |next.origins| == |next.watch.sent|
    ensures a < |next.ledger| && !Reached(next, a, setup.config.recipients[r].name) ==>
      if a < |h.ledger| then !Reached(h, a, setup.config.recipients[r].name) else LostIn(h, input, setup, a)
  {
    NextIsLonger(h, input, setup);
    if a < |h.ledger| {
      if Reached(h, a, setup.config.recipients[r].name) {
        ReachedStays(h, next, a, setup.config.recipients[r].name);
      }
    } else if a < |next.ledger| && !Reached(next, a, setup.config.recipients[r].name) {
      MissingNewAlert(h, input, setup, a, r);
    }
  }

  // ----- no missed launch -----

  /** The polls of a run that reached their commit, in order. */
  ghost function CommittedPolls(h: History, inputs: seq<CycleInput>, setup: Setup): seq<CycleInput> {
    if inputs == [] then [] else
      var init, last := inputs[..|inputs| - 1], inputs[|inputs| - 1];
      var before := CommittedPolls(h, init, setup);
      if CycleOf(HistoryAfter(h, init, setup), last, setup).committed then before + [last] else before
  }

  /** Polls as a key sees them, all committed. */
  ghost function PollsOf(polls: seq<CycleInput>, setup: Setup, k: string): seq<KeyCycle> {
    seq(|polls|, i requires 0 <= i < |polls| =>
      KeyCycle(polls[i].now, Sightings(polls[i].feed, SettingsOf(setup.config), k), true))
  }

  lemma {:induction false} CommittedView(h: History, inputs: seq<CycleInput>, setup: Setup, k: string)
    ensures Committed(KeyRunOf(h, inputs, setup, k)) == PollsOf(CommittedPolls(h, inputs, setup), setup, k)
  {
    if inputs != [] {
      var init := inputs[..|inputs| - 1];
      var run := KeyRunOf(h, inputs, setup, k);
      CommittedView(h, init, setup, k);
      assert run[..|run| - 1] == KeyRunOf(h, init, setup, k);
    }
  }

  function Clocks(polls: seq<CycleInput>): seq<int> {
    seq(|polls|, i requires 0 <= i < |polls| => polls[i].now)
  }

  /** Polls that start before the Launch Soon window, are no further apart than the
      windows allow, and go on until launch. */
  ghost predicate OftenEnough(clocks: seq<int>, launchTime: int, policy: AlertPolicy) {
    && clocks != []
    && clocks[0] < launchTime - policy.launchSoon
    && (forall i :: 0 <= i < |clocks| - 1 ==>
          && clocks[i] <= clocks[i + 1]
          && clocks[i + 1] - clocks[i] <= policy.launchSoon - policy.launchImminent
          && clocks[i + 1] - clocks[i] <= policy.launchImminent)
    && clocks[|clocks| - 1] >= launchTime
  }

  /** The source lists the launch, unchanged, in every one of these polls, and they are
      frequent enough. */
  ghost predicate PolledThrough(polls: seq<CycleInput>, launch: Launch, setup: Setup)
    requires launch.launchTime.Some?
  {
    var settings := SettingsOf(setup.config);
    && OftenEnough(Clocks(polls), launch.launchTime.value, setup.config.Policy())
    && forall i :: 0 <= i < |polls| ==>
         Sightings(polls[i].feed, settings, launch.Key()) == [Sighting(launch, Terms(launch, settings))]
  }

  lemma OftenIsVigilant(run: seq<KeyCycle>, clocks: seq<int>, s: Sighting, policy: AlertPolicy)
    requires s.launch.launchTime.Some? && OftenEnough(clocks, s.launch.launchTime.value, policy)
    requires |run| == |clocks| && forall i :: 0 <= i < |run| ==> run[i] == KeyCycle(clocks[i], [s], true)
    ensures Vigilant(run, s, policy) && run[|run| - 1].now >= s.launch.launchTime.value
  {
  }

  lemma PolledIsVigilant(polls: seq<CycleInput>, launch: Launch, setup: Setup)
    requires launch.launchTime.Some? && PolledThrough(polls, launch, setup)
    ensures var run := PollsOf(polls, setup, launch.Key());
      && Vigilant(run, Sighting(launch, Terms(launch, SettingsOf(setup.config))), setup.config.Policy())
      && run[|run| - 1].now >= launch.launchTime.value
  {
    OftenIsVigilant(PollsOf(polls, setup, launch.Key()), Clocks(polls),
                    Sighting(launch, Terms(launch, SettingsOf(setup.config))), setup.config.Policy());
  }

  lemma TwoAlerts(run: seq<KeyCycle>, s: Sighting, policy: AlertPolicy)
    returns (soon: Alert, imminent: Alert)
    requires Sane(policy) && Frozen(s, policy) && Vigilant(run, s, policy)
    requires run[|run| - 1].now >= s.launch.launchTime.value
    ensures KeyRun(FRESH, run, policy).ledger == [soon, imminent]
    ensures IsSoon(soon, s, policy) && IsImminent(imminent, s, policy)
  {
    NoMissedLaunch(run, s, policy);
    var ledger := KeyRun(FRESH, run, policy).ledger;
    soon, imminent := ledger[0], ledger[1];
    assert ledger == [soon, imminent];
  }

  /** What a run without a record of `k` adds to the ledger of `k` is what its committed
      polls raise from nothing. */
  lemma LedgerSince(h: History, inputs: seq<CycleInput>, setup: Setup, k: string, alerts: seq<Alert>)
    requires Lookup(MapOf(h.saved), k) == None && HistoryAfter(h, inputs, setup).ledger == h.ledger + alerts
    ensures AlertsFor(alerts, k)
      == KeyRun(FRESH, PollsOf(CommittedPolls(h, inputs, setup), setup, k), setup.config.Policy()).ledger
  {
    var run, policy := KeyRunOf(h, inputs, setup, k), setup.config.Policy();
    RunView(h, inputs, setup, k);
    AlertsForConcat(h.ledger, alerts, k);
    LedgerGrows(None, AlertsFor(h.ledger, k), run, policy);
    LostCyclesAreNothing(FRESH, run, policy);
    CommittedView(h, inputs, setup, k);
    SameTail(AlertsFor(h.ledger, k), AlertsFor(alerts, k), KeyRun(FRESH, run, policy).ledger);
  }

  lemma SameTail(a: seq<Alert>, b: seq<Alert>, c: seq<Alert>)
    requires a + b == a + c
    ensures b == c
  {
    assert (a + b)[|a|..] == b && (a + c)[|a|..] == c;
  }

  lemma PolledLaunchIsAlerted(h: History, inputs: seq<CycleInput>, launch: Launch, setup: Setup, alerts: seq<Alert>)
    returns (soon: Alert, imminent: Alert)
    requires setup.config.Valid()
    requires Frozen(Sighting(launch, Terms(launch, SettingsOf(setup.config))), setup.config.Policy())
    requires PolledThrough(CommittedPolls(h, inputs, setup), launch, setup)
    requires Lookup(MapOf(h.saved), launch.Key()) == None && HistoryAfter(h, inputs, setup).ledger == h.ledger + alerts
    ensures var s := Sighting(launch, Terms(launch, SettingsOf(setup.config)));
      IsSoon(soon, s, setup.config.Policy()) && IsImminent(imminent, s, setup.config.Policy())
    ensures AlertsFor(alerts, launch.Key()) == [soon, imminent]
  {
    var s, polls := Sighting(launch, Terms(launch, SettingsOf(setup.config))), CommittedPolls(h, inputs, setup);
    ValidConfigIsSane(setup.config);
    PolledIsVigilant(polls, launch, setup);
    soon, imminent := TwoAlerts(PollsOf(polls, setup, launch.Key()), s, setup.config.Policy());
    LedgerSince(h, inputs, setup, launch.Key(), alerts);
  }

  lemma ToldTwo(sent: seq<Delivery>, alerts: seq<Alert>, zone: Zone, name: string, k: string, first: Alert,
                second: Alert)
    requires Tells(DeliveryAddresses(sent), alerts, zone, name, k) && AlertsFor(alerts, k) == [first, second]
    ensures Somes(MessagesTo(DeliveryAddresses(sent), name, k)) == [FormatAlert(first, zone), FormatAlert(second, zone)]
  {
    assert MessagesOf([first, second], zone) == [FormatAlert(first, zone), FormatAlert(second, zone)];
  }

  /** No missed launch, end to end. A watcher, in whatever state, has no record of a
      relevant go launch with a precise time. The run goes on: any poll may be lost, by a
      failure or by the death of the process, and any delivery may fail; but the polls
      that reach their commit list the launch and are frequent enough until launch, and
      no process dies while notifying. Then every recipient is sent exactly two messages
      about the launch, one Launch Soon inside its window and then one Launch Imminent
      inside its window. */
  lemma NoLaunchIsMissed(h: History, inputs: seq<CycleInput>, launch: Launch, setup: Setup, r: nat)
    returns (sent: seq<Delivery>, soon: Alert, imminent: Alert)
    requires setup.config.Valid() && Faithful(h) && r < |setup.config.recipients|
    requires Frozen(Sighting(launch, Terms(launch, SettingsOf(setup.config))), setup.config.Policy())
    requires Lookup(MapOf(h.saved), launch.Key()) == None
    requires PolledThrough(CommittedPolls(h, inputs, setup), launch, setup) && Undisturbed(h, inputs, setup)
    ensures var s := Sighting(launch, Terms(launch, SettingsOf(setup.config)));
      IsSoon(soon, s, setup.config.Policy()) && IsImminent(imminent, s, setup.config.Policy())
    ensures HistoryAfter(h, inputs, setup).watch.sent == h.watch.sent + sent
    ensures Somes(MessagesTo(DeliveryAddresses(sent), setup.config.recipients[r].name, launch.Key()))
      == [FormatAlert(soon, setup.zone), FormatAlert(imminent, setup.zone)]
  {
    var alerts;
    sent, alerts := UndisturbedRunTells(h, inputs, setup, r, launch.Key());
    soon, imminent := PolledLaunchIsAlerted(h, inputs, launch, setup, alerts);
    ToldTwo(sent, alerts, setup.zone, setup.config.recipients[r].name, launch.Key(), soon, imminent);
  }

  /** Every cycle of the run is healthy, in the state that the run has led to. */
  ghost predicate AllHealthy(h: History, inputs: seq<CycleInput>, setup: Setup) {
    inputs == [] ||
      var init, last := inputs[..|inputs| - 1], inputs[|inputs| - 1];
      AllHealthy(h, init, setup) && Healthy(HistoryAfter(h, init, setup), last, setup)
  }

  lemma {:induction false} CommittedAtMost(h: History, inputs: seq<CycleInput>, setup: Setup)
    ensures |CommittedPolls(h, inputs, setup)| <= |inputs|
  {
    if inputs != [] {
      CommittedAtMost(h, inputs[..|inputs| - 1], setup);
    }
  }

  lemma CommittedStep(h: History, inputs: seq<CycleInput>, setup: Setup)
    requires inputs != []
    ensures var init, last := inputs[..|inputs| - 1], inputs[|inputs| - 1];
      CommittedPolls(h, inputs, setup) == inputs
      <==> CommittedPolls(h, init, setup) == init && CycleOf(HistoryAfter(h, init, setup), last, setup).committed
  {
    var init, last := inputs[..|inputs| - 1], inputs[|inputs| - 1];
    CommittedAtMost(h, init, setup);
    InitAndLast(inputs, CommittedPolls(h, init, setup));
  }

  lemma InitAndLast(inputs: seq<CycleInput>, before: seq<CycleInput>)
    requires inputs != []
    ensures before + [inputs[|inputs| - 1]] == inputs <==> before == inputs[..|inputs| - 1]
  {
    if before + [inputs[|inputs| - 1]] == inputs {
      assert (before + [inputs[|inputs| - 1]])[..|before|] == before;
    }
  }

  /** Every poll of a run is committed, and no process dies while notifying, if and only
      if every cycle of it is healthy. */
  lemma {:induction false} HealthyRunIff(h: History, inputs: seq<CycleInput>, setup: Setup)
    requires setup.config.Valid() && Faithful(h) && AllWritable(h.saved) && WritableInputs(inputs)
    ensures (CommittedPolls(h, inputs, setup) == inputs && Undisturbed(h, inputs, setup))
      <==> AllHealthy(h, inputs, setup)
  {
    if inputs != [] {
      var init, last := inputs[..|inputs| - 1], inputs[|inputs| - 1];
      HealthyRunIff(h, init, setup);
      LoadableForever(h, init, setup);
      CommittedStep(h, inputs, setup);
      HealthyCycleIff(HistoryAfter(h, init, setup), last, setup);
    }
  }

  /** Consecutive clocks of the watch loop: the poll interval apart, and at most the time
      that a cycle takes more. */
  ghost predicate LoopClocks(clocks: seq<int>, interval: nat, work: nat) {
    forall i :: 0 <= i < |clocks| - 1 ==> interval <= clocks[i + 1] - clocks[i] <= interval + work
  }

  /** The source lists the launch, unchanged, in every poll, among whatever else. */
  ghost predicate ListedThrough(polls: seq<CycleInput>, launch: Launch, setup: Setup) {
    var settings := SettingsOf(setup.config);
    forall i :: 0 <= i < |polls| ==>
      Sightings(polls[i].feed, settings, launch.Key()) == [Sighting(launch, Terms(launch, settings))]
  }

  /** The poll interval, with the longest time that a cycle takes, is at most the Launch
      Imminent threshold and at most its distance from the Launch Soon threshold. */
  predicate ShortInterval(config: Config, work: nat) {
    var gap := 60 * config.pollIntervalMinutes + work;
    && gap <= 60 * config.launchImminentMinutes
    && gap <= 60 * config.launchSoonMinutes - 60 * config.launchImminentMinutes
  }

  /** The configuration test: with a short interval, a loop that starts before the Launch
      Soon window and is left running until launch polls often enough. */
  lemma ShortIntervalIsEnough(polls: seq<CycleInput>, launch: Launch, setup: Setup, work: nat)
    requires setup.config.Valid() && launch.launchTime.Some? && ShortInterval(setup.config, work)
    requires LoopClocks(Clocks(polls), 60 * setup.config.pollIntervalMinutes, work)
    requires ListedThrough(polls, launch, setup)
    requires polls != [] && polls[0].now < launch.launchTime.value - 60 * setup.config.launchSoonMinutes
    requires polls[|polls| - 1].now >= launch.launchTime.value
    ensures PolledThrough(polls, launch, setup)
  {
    ShortGaps(Clocks(polls), 60 * setup.config.pollIntervalMinutes, work, launch.launchTime.value,
              setup.config.Policy());
  }

  lemma ShortGaps(clocks: seq<int>, interval: nat, work: nat, launchTime: int, policy: AlertPolicy)
    requires LoopClocks(clocks, interval, work)
    requires interval + work <= policy.launchSoon - policy.launchImminent && interval + work <= policy.launchImminent
    requires clocks != [] && clocks[0] < launchTime - policy.launchSoon && clocks[|clocks| - 1] >= launchTime
    ensures OftenEnough(clocks, launchTime, policy)
  {
  }

  /** So such a loop, in whatever state it finds the records and whatever else the source
      lists, misses no launch that it has no record of. */
  lemma SteadyLoopMissesNothing(h: History, polls: seq<CycleInput>, launch: Launch, setup: Setup, work: nat, r: nat)
    returns (sent: seq<Delivery>, soon: Alert, imminent: Alert)
    requires setup.config.Valid() && Faithful(h) && AllWritable(h.saved) && r < |setup.config.recipients|
    requires Frozen(Sighting(launch, Terms(launch, SettingsOf(setup.config))), setup.config.Policy())
    requires Lookup(MapOf(h.saved), launch.Key()) == None
    requires ShortInterval(setup.config, work) && ListedThrough(polls, launch, setup)
    requires LoopClocks(Clocks(polls), 60 * setup.config.pollIntervalMinutes, work)
    requires polls != [] && polls[0].now < launch.launchTime.value - 60 * setup.config.launchSoonMinutes
    requires polls[|polls| - 1].now >= launch.launchTime.value
    requires WritableInputs(polls) && AllHealthy(h, polls, setup)
    ensures var s := Sighting(launch, Terms(launch, SettingsOf(setup.config)));
      IsSoon(soon, s, setup.config.Policy()) && IsImminent(imminent, s, setup.config.Policy())
    ensures HistoryAfter(h, polls, setup).watch.sent == h.watch.sent + sent
    ensures Somes(MessagesTo(DeliveryAddresses(sent), setup.config.recipients[r].name, launch.Key()))
      == [FormatAlert(soon, setup.zone), FormatAlert(imminent, setup.zone)]
  {
    ShortIntervalIsEnough(polls, launch, setup, work);
    HealthyRunIff(h, polls, setup);
    sent, soon, imminent := NoLaunchIsMissed(h, polls, launch, setup, r);
  }

  // ----- such loops exist -----

  /** `n` polls from `start` on, each taking `work` seconds and followed by a sleep of the
      poll interval, with nothing failing. */
  function EvenPolls(launch: Launch, setup: Setup, start: int, work: nat, n: nat): seq<CycleInput> {
    seq(n, i requires 0 <= i < n =>
      CycleInput(start + i * (60 * setup.config.pollIntervalMinutes + work), [launch],
                 seq(8 + |setup.config.recipients|, _ => true)))
  }

  lemma {:induction false} AlertsAtMost(m: RecordMap, feed: seq<Launch>, settings: Settings, now: int)
    ensures |FoldFeed(m, feed, settings, now).alerts| <= |feed|
  {
    if feed != [] {
      AlertsAtMost(m, feed[..|feed| - 1], settings, now);
      FoldLaunchGrows(FoldFeed(m, feed[..|feed| - 1], settings, now), feed[|feed| - 1], settings, now);
    }
  }

  lemma FoldLaunchGrows(f: FeedFold, launch: Launch, settings: Settings, now: int)
    ensures |FoldLaunch(f, launch, settings, now).alerts| <= |f.alerts| + 1
  {
  }

  /** Eight verdicts for the steps and one for every delivery are always enough. */
  lemma PlentyIsHealthy(h: History, input: CycleInput, setup: Setup)
    requires |input.feed| == 1 && |input.verdicts| >= 8 + |setup.config.recipients|
    requires forall i :: 0 <= i < |input.verdicts| ==> input.verdicts[i]
    ensures Healthy(h, input, setup)
  {
    AlertsAtMost(MapOf(h.saved), input.feed, SettingsOf(setup.config), input.now);
    AtMostOneEach(|DecisionOf(h, input, setup).alerts|, |setup.config.recipients|);
  }

  lemma AtMostOneEach(alerts: nat, recipients: nat)
    requires alerts <= 1
    ensures alerts * recipients <= recipients
  {
  }

  lemma {:induction false} PlentyIsAllHealthy(h: History, inputs: seq<CycleInput>, setup: Setup)
    requires forall i :: 0 <= i < |inputs| ==> |inputs[i].feed| == 1
    requires forall i :: 0 <= i < |inputs| ==> inputs[i].verdicts == seq(8 + |setup.config.recipients|, _ => true)
    ensures AllHealthy(h, inputs, setup)
  {
    if inputs != [] {
      PlentyIsAllHealthy(h, inputs[..|inputs| - 1], setup);
      PlentyIsHealthy(HistoryAfter(h, inputs[..|inputs| - 1], setup), inputs[|inputs| - 1], setup);
    }
  }

  lemma ListedAlone(launch: Launch, settings: Settings)
    requires Terms(launch, settings) != []
    ensures Sightings([launch], settings, launch.Key()) == [Sighting(launch, Terms(launch, settings))]
  {
    assert [launch][..0] == [];
  }

  lemma EvenClocks(clocks: seq<int>, start: int, interval: nat, work: nat)
    requires forall i :: 0 <= i < |clocks| ==> clocks[i] == start + i * (interval + work)
    ensures LoopClocks(clocks, interval, work)
  {
    forall i | 0 <= i < |clocks| - 1 ensures clocks[i + 1] == clocks[i] + interval + work {
      assert (i + 1) * (interval + work) == i * (interval + work) + interval + work;
    }
  }

  /** Even polls of a relevant launch are such a loop, from any state. */
  lemma EvenPollsAreALoop(h: History, launch: Launch, setup: Setup, start: int, work: nat, n: nat)
    requires setup.config.Valid() && Terms(launch, SettingsOf(setup.config)) != []
    ensures var polls := EvenPolls(launch, setup, start, work, n);
      && LoopClocks(Clocks(polls), 60 * setup.config.pollIntervalMinutes, work)
      && ListedThrough(polls, launch, setup) && AllHealthy(h, polls, setup)
  {
    var polls := EvenPolls(launch, setup, start, work, n);
    EvenClocks(Clocks(polls), start, 60 * setup.config.pollIntervalMinutes, work);
    ListedAlone(launch, SettingsOf(setup.config));
    PlentyIsAllHealthy(h, polls, setup);
  }

  // ----- no missed launch of hour precision -----

  /** Polls that start before the launch's window, are no further apart than it is wide,
      and go on into it. */
  ghost predicate OftenForHour(clocks: seq<int>, launchTime: int) {
    && clocks != []
    && clocks[0] < launchTime - 3600
    && (forall i :: 0 <= i < |clocks| - 1 ==>
          clocks[i] <= clocks[i + 1] && clocks[i + 1] - clocks[i] <= 7200)
    && clocks[|clocks| - 1] >= launchTime - 3600
  }

  lemma OftenIsHourVigilant(run: seq<KeyCycle>, clocks: seq<int>, s: Sighting)
    requires s.launch.launchTime.Some? && OftenForHour(clocks, s.launch.launchTime.value)
    requires |run| == |clocks| && forall i :: 0 <= i < |run| ==> run[i] == KeyCycle(clocks[i], [s], true)
    ensures HourVigilant(run, s) && run[|run| - 1].now >= s.launch.launchTime.value - 3600
  {
  }

  lemma HourLaunchIsAlerted(h: History, inputs: seq<CycleInput>, launch: Launch, setup: Setup, alerts: seq<Alert>)
    returns (alert: Alert)
    requires setup.config.Valid()
    requires HourFrozen(Sighting(launch, Terms(launch, SettingsOf(setup.config))), setup.config.Policy())
    requires ListedThrough(CommittedPolls(h, inputs, setup), launch, setup)
    requires OftenForHour(Clocks(CommittedPolls(h, inputs, setup)), launch.launchTime.value)
    requires Lookup(MapOf(h.saved), launch.Key()) == None && HistoryAfter(h, inputs, setup).ledger == h.ledger + alerts
    ensures IsHour(alert, Sighting(launch, Terms(launch, SettingsOf(setup.config))))
    ensures AlertsFor(alerts, launch.Key()) == [alert]
  {
    var s, polls := Sighting(launch, Terms(launch, SettingsOf(setup.config))), CommittedPolls(h, inputs, setup);
    ValidConfigIsSane(setup.config);
    OftenIsHourVigilant(PollsOf(polls, setup, launch.Key()), Clocks(polls), s);
    NoMissedHour(PollsOf(polls, setup, launch.Key()), s, setup.config.Policy());
    LedgerSince(h, inputs, setup, launch.Key(), alerts);
    alert := AlertsFor(alerts, launch.Key())[0];
  }

  lemma ToldOne(sent: seq<Delivery>, alerts: seq<Alert>, zone: Zone, name: string, k: string, alert: Alert)
    requires Tells(DeliveryAddresses(sent), alerts, zone, name, k) && AlertsFor(alerts, k) == [alert]
    ensures Somes(MessagesTo(DeliveryAddresses(sent), name, k)) == [FormatAlert(alert, zone)]
  {
    assert MessagesOf([alert], zone) == [FormatAlert(alert, zone)];
  }

  /** The same for a launch whose time is precise to the hour: every recipient is sent
      exactly one message about it, inside its window. */
  lemma NoHourLaunchIsMissed(h: History, inputs: seq<CycleInput>, launch: Launch, setup: Setup, r: nat)
    returns (sent: seq<Delivery>, alert: Alert)
    requires setup.config.Valid() && Faithful(h) && r < |setup.config.recipients|
    requires HourFrozen(Sighting(launch, Terms(launch, SettingsOf(setup.config))), setup.config.Policy())
    requires Lookup(MapOf(h.saved), launch.Key()) == None
    requires ListedThrough(CommittedPolls(h, inputs, setup), launch, setup)
    requires OftenForHour(Clocks(CommittedPolls(h, inputs, setup)), launch.launchTime.value)
    requires Undisturbed(h, inputs, setup)
    ensures IsHour(alert, Sighting(launch, Terms(launch, SettingsOf(setup.config))))
    ensures HistoryAfter(h, inputs, setup).watch.sent == h.watch.sent + sent
    ensures Somes(MessagesTo(DeliveryAddresses(sent), setup.config.recipients[r].name, launch.Key()))
      == [FormatAlert(alert, setup.zone)]
  {
    var alerts;
    sent, alerts := UndisturbedRunTells(h, inputs, setup, r, launch.Key());
    alert := HourLaunchIsAlerted(h, inputs, launch, setup, alerts);
    ToldOne(sent, alerts, setup.zone, setup.config.recipients[r].name, launch.Key(), alert);
  }

  // ----- what a message tells -----

  /** Over every run, each delivery carries a message that tells its alert of the ledger:
      the launch, what it is about, and the times. */
  lemma EveryDeliveryTells(tmp: Option<Content>, inputs: seq<CycleInput>, setup: Setup)
    requires setup.config.Valid()
    ensures var h := HistoryAfter(Start(tmp), inputs, setup);
      && Traced(h, setup)
      && forall i :: 0 <= i < |h.watch.sent| ==>
           SourcedAt(h, setup, i) && TellsAlert(h.watch.sent[i].message, h.ledger[h.origins[i]], setup.zone)
  {
    var h := HistoryAfter(Start(tmp), inputs, setup);
    AtMostOnce(tmp, inputs, setup);
    forall i | 0 <= i < |h.watch.sent|
      ensures SourcedAt(h, setup, i) && TellsAlert(h.watch.sent[i].message, h.ledger[h.origins[i]], setup.zone)
    {
      assert SourcedAt(h, setup, i);
      MessageTellsAlert(h.ledger[h.origins[i]], setup.zone, h.watch.sent[i].message);
    }
  }

  // ----- what the last message told -----

  lemma {:induction false} SeenIsListed(polls: seq<CycleInput>, setup: Setup, k: string)
    ensures Observed(PollsOf(polls, setup, k)) == Listed(polls, SettingsOf(setup.config), k)
  {
    if polls != [] {
      var init, run := polls[..|polls| - 1], PollsOf(polls, setup, k);
      SeenIsListed(init, setup, k);
      assert run[..|run| - 1] == PollsOf(init, setup, k);
    }
  }

  /** The last alert of a launch that has a record tells facts that are disclosed for the
      last listing that a committed cycle saw. */
  lemma LastAlertDiscloses(tmp: Option<Content>, inputs: seq<CycleInput>, setup: Setup, k: string)
    requires setup.config.Valid() && Lookup(MapOf(HistoryAfter(Start(tmp), inputs, setup).saved), k).Some?
    ensures LastDiscloses(AlertsFor(HistoryAfter(Start(tmp), inputs, setup).ledger, k),
                          Listed(CommittedPolls(Start(tmp), inputs, setup), SettingsOf(setup.config), k),
                          setup.config.Policy())
  {
    ValidConfigIsSane(setup.config);
    StartView(tmp, k);
    RunView(Start(tmp), inputs, setup, k);
    RecordedDiscloses(KeyRunOf(Start(tmp), inputs, setup, k), setup.config.Policy());
    CommittedView(Start(tmp), inputs, setup, k);
    SeenIsListed(CommittedPolls(Start(tmp), inputs, setup), setup, k);
  }

  /** In a run from a first start in which no process dies while notifying, what a
      recipient was sent is what the ledger holds. */
  lemma SentTellsLedger(tmp: Option<Content>, inputs: seq<CycleInput>, setup: Setup, r: nat, k: string)
    requires setup.config.Valid() && r < |setup.config.recipients| && Undisturbed(Start(tmp), inputs, setup)
    ensures var h := HistoryAfter(Start(tmp), inputs, setup);
      Tells(DeliveryAddresses(h.watch.sent), h.ledger, setup.zone, setup.config.recipients[r].name, k)
  {
    var sent, alerts := UndisturbedRunTells(Start(tmp), inputs, setup, r, k);
    SameAsMore(Start(tmp), HistoryAfter(Start(tmp), inputs, setup), sent, alerts);
  }

  lemma SameAsMore(h: History, after: History, sent: seq<Delivery>, alerts: seq<Alert>)
    requires h.watch.sent == [] && h.ledger == []
    requires after.watch.sent == h.watch.sent + sent && after.ledger == h.ledger + alerts
    ensures after.watch.sent == sent && after.ledger == alerts
  {
  }

  lemma LastOf(messages: seq<Message>, alerts: seq<Alert>, zone: Zone)
    requires Somes(messages) == MessagesOf(alerts, zone) && alerts != []
    ensures messages != [] && FormatAlert(alerts[|alerts| - 1], zone) == Some(messages[|messages| - 1])
  {
    assert |Somes(messages)| == |MessagesOf(alerts, zone)|;
    assert Somes(messages)[|messages| - 1] == MessagesOf(alerts, zone)[|alerts| - 1];
  }

  /** The last message about launch `k` that `name` was sent is that of the last alert of
      the ledger, it shows the times of that alert, and these facts are disclosed for the
      last listing. */
  ghost predicate LastTold(sent: seq<Delivery>, ledger: seq<Alert>, listed: seq<Sighting>, setup: Setup, name: string,
                           k: string)
  {
    var messages := MessagesTo(DeliveryAddresses(sent), name, k);
    && LastDiscloses(ledger, listed, setup.config.Policy())
    && messages != [] && FormatAlert(ledger[|ledger| - 1], setup.zone) == Some(messages[|messages| - 1])
    && TellsAlert(messages[|messages| - 1], ledger[|ledger| - 1], setup.zone)
  }

  lemma LastToldBy(sent: seq<Delivery>, alerts: seq<Alert>, listed: seq<Sighting>, setup: Setup, name: string,
                   k: string)
    requires Tells(DeliveryAddresses(sent), alerts, setup.zone, name, k)
    requires LastDiscloses(AlertsFor(alerts, k), listed, setup.config.Policy())
    ensures LastTold(sent, AlertsFor(alerts, k), listed, setup, name, k)
  {
    var messages := MessagesTo(DeliveryAddresses(sent), name, k);
    LastOf(messages, AlertsFor(alerts, k), setup.zone);
    MessageTellsAlert(AlertsFor(alerts, k)[|AlertsFor(alerts, k)| - 1], setup.zone, messages[|messages| - 1]);
  }

  /** Disclosure, end to end. In a run in which no process dies while notifying, the last
      message that a recipient was sent about a launch on record told facts that are
      disclosed for its last committed listing: a go launch's time is within the
      correction shift of the time told, it is untimed only if it was told untimed, and a
      no-go launch was told no-go. */
  lemma LastMessageDiscloses(tmp: Option<Content>, inputs: seq<CycleInput>, setup: Setup, r: nat, k: string)
    requires setup.config.Valid() && r < |setup.config.recipients| && Undisturbed(Start(tmp), inputs, setup)
    requires Lookup(MapOf(HistoryAfter(Start(tmp), inputs, setup).saved), k).Some?
    ensures var h := HistoryAfter(Start(tmp), inputs, setup);
      LastTold(h.watch.sent, AlertsFor(h.ledger, k),
               Listed(CommittedPolls(Start(tmp), inputs, setup), SettingsOf(setup.config), k),
               setup, setup.config.recipients[r].name, k)
  {
    SentTellsLedger(tmp, inputs, setup, r, k);
    LastMessageFrom(tmp, inputs, setup, setup.config.recipients[r].name, k);
  }

  lemma LastMessageFrom(tmp: Option<Content>, inputs: seq<CycleInput>, setup: Setup, name: string, k: string)
    requires setup.config.Valid() && Lookup(MapOf(HistoryAfter(Start(tmp), inputs, setup).saved), k).Some?
    requires var h := HistoryAfter(Start(tmp), inputs, setup);
      Tells(DeliveryAddresses(h.watch.sent), h.ledger, setup.zone, name, k)
    ensures var h := HistoryAfter(Start(tmp), inputs, setup);
      LastTold(h.watch.sent, AlertsFor(h.ledger, k),
               Listed(CommittedPolls(Start(tmp), inputs, setup), SettingsOf(setup.config), k), setup, name, k)
  {
    var h := HistoryAfter(Start(tmp), inputs, setup);
    var listed := Listed(CommittedPolls(Start(tmp), inputs, setup), SettingsOf(setup.config), k);
    LastAlertDiscloses(tmp, inputs, setup, k);
    LastToldBy(h.watch.sent, h.ledger, listed, setup, name, k);
  }
}
