/**
 One cycle of the watcher, fetch - load - decide - save - notify, and the watch
 loop that repeats it.

 `Cycle` and `Watch` say what a cycle and a run of cycles do to the disk and the
 channel for every sequence of verdicts; `RunCycle` and `CommandWatch` are the
 programs.
 */
module Orchestration {
  import opened Domain
  import opened KeyOrder
  import opened Core
  import opened Storage
  import opened Formatting

  // ----- what a cycle is given and what it reports -----

  /** The clock, the launches that a successful fetch returns, and how the effects
      of the cycle end. */
  datatype CycleInput = CycleInput(now: int, feed: seq<Launch>, verdicts: seq<bool>)

  datatype Delivery = Delivery(message: Message, recipient: string, ok: bool)

  datatype CycleOutcome = CycleOutcome(sourceFailed: bool, saveFailed: bool, alertsCreated: nat,
                                       deliveries: seq<Delivery>) {
    predicate AnyDeliveryFailed() {
      exists d <- deliveries :: !d.ok
    }

    predicate Ok() {
      !(sourceFailed || saveFailed || AnyDeliveryFailed())
    }
  }

  function SettingsOf(config: Config): Settings {
    Settings(config.launchProvider, config.includeTerms, config.Policy())
  }

  // ----- notifications -----

  /** One message for one recipient, for the alert at position `index`. */
  datatype Notice = Notice(index: nat, message: Message, recipient: string)

  function NoticesFor(index: nat, message: Message, recipients: seq<Recipient>): seq<Notice> {
    seq(|recipients|, i requires 0 <= i < |recipients| => Notice(index, message, recipients[i].name))
  }

  /** All messages to all recipients, message by message. */
  function Notices(messages: seq<Message>, recipients: seq<Recipient>): seq<Notice> {
    if messages == [] then [] else
      Notices(messages[..|messages| - 1], recipients)
      + NoticesFor(|messages| - 1, messages[|messages| - 1], recipients)
  }

  function Shorter(a: nat, b: nat): nat {
    if a <= b then a else b
  }

  /** The notices attempted before the process dies. */
  function Attempted(notices: seq<Notice>, verdicts: seq<bool>): seq<Notice> {
    notices[..Shorter(|notices|, |verdicts|)]
  }

  /** What the channel makes of them: one delivery per attempt. */
  function Delivered(notices: seq<Notice>, verdicts: seq<bool>): (ds: seq<Delivery>)
    ensures |ds| == Shorter(|notices|, |verdicts|)
  {
    seq(Shorter(|notices|, |verdicts|),
        i requires 0 <= i < Shorter(|notices|, |verdicts|) =>
          Delivery(notices[i].message, notices[i].recipient, verdicts[i]))
  }

  function FormatAll(alerts: seq<Alert>, zone: Zone): Option<seq<Message>> {
    if alerts == [] then Some([]) else
      var before :- FormatAll(alerts[..|alerts| - 1], zone);
      var last :- FormatAlert(alerts[|alerts| - 1], zone);
      Some(before + [last])
  }

  // ----- a cycle, as a function of its verdicts -----

  /** How a cycle ends: the disk, the notices attempted and their deliveries,
      whether the decision is on disk, the outcome (none if the process died),
      and the verdicts not used. */
  datatype CycleRun = CycleRun(disk: Disk, notices: seq<Notice>, deliveries: seq<Delivery>, committed: bool,
                               outcome: Option<CycleOutcome>, rest: seq<bool>)

  function Quit(disk: Disk, rest: seq<bool>): CycleRun {
    CycleRun(disk, [], [], false, None, rest)
  }

  function Notify(disk: Disk, messages: seq<Message>, config: Config, verdicts: seq<bool>): CycleRun {
    var notices := Notices(messages, config.recipients);
    var deliveries := Delivered(notices, verdicts);
    CycleRun(disk, Attempted(notices, verdicts), deliveries, true,
             if |verdicts| < |notices| then None
             else Some(CycleOutcome(false, false, |messages|, deliveries)),
             verdicts[Shorter(|notices|, |verdicts|)..])
  }

  function SaveAndNotify(disk: Disk, d: CycleDecision, messages: seq<Message>, changed: bool,
                         config: Config, hasParent: bool, verdicts: seq<bool>): CycleRun {
    if !changed then Notify(disk, messages, config, verdicts)
    else
      var save := SaveSteps(disk, DocumentJson(SortByKey(d.updatedRecords)), hasParent, verdicts);
      match save.status
      case Crash => Quit(save.disk, save.rest)
      case Fault => CycleRun(save.disk, [], [], false, Some(CycleOutcome(false, true, |messages|, [])), save.rest)
      case Proceed => Notify(save.disk, messages, config, save.rest)
  }

  predicate Changed(d: CycleDecision, records: seq<AlertRecord>) {
    d.alerts != [] || |d.updatedRecords| != |records|
  }

  ghost function Decided(disk: Disk, records: seq<AlertRecord>, input: CycleInput, config: Config, zone: Zone,
                         hasParent: bool, dryRun: bool, verdicts: seq<bool>): CycleRun {
    if config.includeTerms == [] && input.feed != [] then Quit(disk, verdicts)
    else
      var d := Decision(records, input.feed, SettingsOf(config), input.now);
      match FormatAll(d.alerts, zone)
      case None => Quit(disk, verdicts)
      case Some(messages) =>
        if dryRun then CycleRun(disk, [], [], false, Some(CycleOutcome(false, false, |messages|, [])), verdicts)
        else SaveAndNotify(disk, d, messages, Changed(d, records), config, hasParent, verdicts)
  }

  ghost function Cycle(disk: Disk, input: CycleInput, config: Config, zone: Zone, hasParent: bool,
                       dryRun: bool): CycleRun {
    var v0 := input.verdicts;
    match First(v0)
    case Crash => Quit(disk, Rest(v0))
    case Fault => CycleRun(disk, [], [], false, Some(CycleOutcome(true, false, 0, [])), Rest(v0))
    case Proceed =>
      var load := LoadSteps(disk.file, Rest(v0));
      match load.status
      case Died => Quit(disk, load.rest)
      case StorageError => CycleRun(disk, [], [], false, Some(CycleOutcome(false, true, 0, [])), load.rest)
      case Records(records) => Decided(disk, records, input, config, zone, hasParent, dryRun, load.rest)
  }

  predicate Honest(run: CycleRun) {
    run.outcome.Some? ==>
      && run.outcome.value.deliveries == run.deliveries
      && (run.outcome.value.Ok() <==> run.committed && forall d <- run.deliveries :: d.ok)
      && (run.outcome.value.saveFailed || run.outcome.value.sourceFailed <==> !run.committed)
      && (!run.committed ==> run.deliveries == [])
  }

  lemma NotifyIsHonest(disk: Disk, messages: seq<Message>, config: Config, verdicts: seq<bool>)
    ensures Honest(Notify(disk, messages, config, verdicts))
  {
  }

  lemma SaveAndNotifyIsHonest(disk: Disk, d: CycleDecision, messages: seq<Message>, changed: bool, config: Config,
                              hasParent: bool, verdicts: seq<bool>, save: SaveRun)
    requires save == SaveSteps(disk, DocumentJson(SortByKey(d.updatedRecords)), hasParent, verdicts)
    ensures Honest(SaveAndNotify(disk, d, messages, changed, config, hasParent, verdicts))
  {
    NotifyIsHonest(disk, messages, config, verdicts);
    NotifyIsHonest(save.disk, messages, config, save.rest);
  }

  lemma DecidedIsHonest(disk: Disk, records: seq<AlertRecord>, input: CycleInput, config: Config, zone: Zone,
                        hasParent: bool, verdicts: seq<bool>)
    ensures Honest(Decided(disk, records, input, config, zone, hasParent, false, verdicts))
  {
    var d := Decision(records, input.feed, SettingsOf(config), input.now);
    var messages := FormatAll(d.alerts, zone);
    if messages.Some? {
      var save := SaveSteps(disk, DocumentJson(SortByKey(d.updatedRecords)), hasParent, verdicts);
      SaveAndNotifyIsHonest(disk, d, messages.value, Changed(d, records), config, hasParent, verdicts, save);
    }
  }

  /** The outcome is honest: it is ok exactly when the decision is on disk and
      every notice was delivered; a failed fetch, load or save sends nothing. */
  lemma OutcomeIsHonest(disk: Disk, input: CycleInput, config: Config, zone: Zone, hasParent: bool)
    ensures Honest(Cycle(disk, input, config, zone, hasParent, false))
  {
    var load := LoadSteps(disk.file, Rest(input.verdicts));
    if load.status.Records? {
      DecidedIsHonest(disk, load.status.records, input, config, zone, hasParent, load.rest);
    }
  }

  /** `dry` and `full` agree: nothing is touched by the one, and it reports the
      number of alerts that the other reports. */
  predicate Previews(dry: CycleRun, full: CycleRun, disk: Disk) {
    && dry.disk == disk && dry.deliveries == []
    && (full.outcome.Some? ==> dry.outcome.Some? && dry.outcome.value.alertsCreated == full.outcome.value.alertsCreated)
  }

  lemma DecidedPreviews(disk: Disk, records: seq<AlertRecord>, input: CycleInput, config: Config, zone: Zone,
                        hasParent: bool, verdicts: seq<bool>)
    ensures Previews(Decided(disk, records, input, config, zone, hasParent, true, verdicts),
                     Decided(disk, records, input, config, zone, hasParent, false, verdicts), disk)
  {
    var d := Decision(records, input.feed, SettingsOf(config), input.now);
    var messages := FormatAll(d.alerts, zone);
    if messages.Some? {
      AlertsReported(disk, d, messages.value, Changed(d, records), config, hasParent, verdicts);
    }
  }

  lemma AlertsReported(disk: Disk, d: CycleDecision, messages: seq<Message>, changed: bool, config: Config,
                       hasParent: bool, verdicts: seq<bool>)
    ensures var run := SaveAndNotify(disk, d, messages, changed, config, hasParent, verdicts);
      run.outcome.Some? ==> run.outcome.value.alertsCreated == |messages|
  {
  }

  /** A dry run previews the cycle with the same input. */
  lemma DryRunPreviews(disk: Disk, input: CycleInput, config: Config, zone: Zone, hasParent: bool)
    ensures Previews(Cycle(disk, input, config, zone, hasParent, true),
                     Cycle(disk, input, config, zone, hasParent, false), disk)
  {
    var load := LoadSteps(disk.file, Rest(input.verdicts));
    if load.status.Records? {
      DecidedPreviews(disk, load.status.records, input, config, zone, hasParent, load.rest);
    }
  }

  // ----- the cycle as it runs -----

  class NotificationChannel {
    /** Every delivery attempted, in order. */
    var sent: seq<Delivery>

    constructor ()
      ensures sent == []
    {
      sent := [];
    }

    /** One delivery attempt; it never raises an exception. `None` if the process
        dies before it. */
    method Send(message: Message, recipient: string, machine: Machine) returns (result: Option<Delivery>)
      modifies this, machine`verdicts
      ensures machine.verdicts == Rest(old(machine.verdicts))
      ensures old(machine.verdicts) == [] ==> result == None && sent == old(sent)
      ensures old(machine.verdicts) != [] ==>
        result == Some(Delivery(message, recipient, old(machine.verdicts)[0])) && sent == old(sent) + [result.value]
    {
      var v := machine.Attempt();
      if v.Crash? {
        return None;
      }
      var delivery := Delivery(message, recipient, v.Proceed?);
      sent := sent + [delivery];
      return Some(delivery);
    }
  }

  lemma {:induction false} FormatFailsEarly(alerts: seq<Alert>, n: nat, zone: Zone)
    requires n <= |alerts| && FormatAll(alerts[..n], zone) == None
    ensures FormatAll(alerts, zone) == None
    decreases |alerts| - n
  {
    if n < |alerts| {
      assert alerts[..n + 1][..n] == alerts[..n];
      FormatFailsEarly(alerts, n + 1, zone);
    } else {
      assert alerts[..n] == alerts;
    }
  }

  method FormatMessages(alerts: seq<Alert>, zone: Zone) returns (r: Option<seq<Message>>)
    ensures r == FormatAll(alerts, zone)
  {
    var messages: seq<Message> := [];
    for i := 0 to |alerts|
      invariant FormatAll(alerts[..i], zone) == Some(messages)
    {
      assert alerts[..i + 1][..i] == alerts[..i];
      var message := FormatAlert(alerts[i], zone);
      if message.None? {
        FormatFailsEarly(alerts, i + 1, zone);
        return None;
      }
      messages := messages + [message.value];
    }
    assert alerts[..|alerts|] == alerts;
    return Some(messages);
  }

  /** The notices before recipient `j` of message `i`. */
  function NoticesBefore(messages: seq<Message>, recipients: seq<Recipient>, i: nat, j: nat): seq<Notice>
    requires i < |messages| && j <= |recipients|
  {
    Notices(messages[..i], recipients) + NoticesFor(i, messages[i], recipients[..j])
  }

  lemma NoticesPrefix(messages: seq<Message>, recipients: seq<Recipient>, i: nat, j: nat)
    requires i < |messages| && j <= |recipients|
    ensures NoticesBefore(messages, recipients, i, j) <= Notices(messages, recipients)
    ensures j == |recipients| ==> NoticesBefore(messages, recipients, i, j) == Notices(messages[..i + 1], recipients)
    ensures j < |recipients| ==>
      NoticesBefore(messages, recipients, i, j + 1)
        == NoticesBefore(messages, recipients, i, j) + [Notice(i, messages[i], recipients[j].name)]
    ensures NoticesBefore(messages, recipients, i, 0) == Notices(messages[..i], recipients)
  {
    assert messages[..i + 1][..i] == messages[..i];
    assert recipients[..|recipients|] == recipients;
    assert NoticesFor(i, messages[i], recipients[..j]) <= NoticesFor(i, messages[i], recipients);
    NoticesMonotone(messages, recipients, i + 1);
  }

  lemma {:induction false} NoticesMonotone(messages: seq<Message>, recipients: seq<Recipient>, n: nat)
    requires n <= |messages|
    ensures Notices(messages[..n], recipients) <= Notices(messages, recipients)
  {
    if n == |messages| {
      assert messages[..n] == messages;
    } else {
      NoticesMonotone(messages[..|messages| - 1], recipients, n);
      assert messages[..|messages| - 1][..n] == messages[..n];
    }
  }

  lemma DeliverOneMore(notices: seq<Notice>, notice: Notice, verdicts: seq<bool>)
    requires |notices| < |verdicts|
    ensures Delivered(notices + [notice], verdicts)
      == Delivered(notices, verdicts) + [Delivery(notice.message, notice.recipient, verdicts[|notices|])]
  {
  }

  lemma DeliverPrefix(prefix: seq<Notice>, notices: seq<Notice>, verdicts: seq<bool>)
    requires prefix <= notices && |prefix| == |verdicts|
    ensures Delivered(prefix, verdicts) == Delivered(notices, verdicts)
  {
  }

  /** The nested loop over messages and recipients; `None` if the process dies. */
  method SendNotifications(messages: seq<Message>, recipients: seq<Recipient>, channel: NotificationChannel,
                           machine: Machine)
    returns (deliveries: Option<seq<Delivery>>)
    modifies channel, machine`verdicts
    ensures var notices, v0 := Notices(messages, recipients), old(machine.verdicts);
      && channel.sent == old(channel.sent) + Delivered(notices, v0)
      && machine.verdicts == v0[Shorter(|notices|, |v0|)..]
      && deliveries == (if |v0| < |notices| then None else Some(Delivered(notices, v0)))
  {
    ghost var v0 := machine.verdicts;
    ghost var notices := Notices(messages, recipients);
    var results: seq<Delivery> := [];
    for i := 0 to |messages|
      invariant var done := Notices(messages[..i], recipients);
        && |done| <= |v0|
        && results == Delivered(done, v0)
        && channel.sent == old(channel.sent) + results
        && machine.verdicts == v0[|done|..]
    {
      NoticesPrefix(messages, recipients, i, 0);
      for j := 0 to |recipients|
        invariant var done := NoticesBefore(messages, recipients, i, j);
          && |done| <= |v0|
          && results == Delivered(done, v0)
          && channel.sent == old(channel.sent) + results
          && machine.verdicts == v0[|done|..]
      {
        NoticesPrefix(messages, recipients, i, j);
        NoticesPrefix(messages, recipients, i, j + 1);
        ghost var done := NoticesBefore(messages, recipients, i, j);
        var result := channel.Send(messages[i], recipients[j].name, machine);
        if result.None? {
          assert |done| == |v0|;
          DeliverPrefix(done, notices, v0);
          return None;
        }
        DeliverOneMore(done, Notice(i, messages[i], recipients[j].name), v0);
        results := results + [result.value];
      }
      NoticesPrefix(messages, recipients, i, |recipients|);
    }
    assert messages[..|messages|] == messages;
    return Some(results);
  }

  /** One cycle. `None` if the process dies in it. */
  method RunCycle(now: int, launches: seq<Launch>, store: JsonAlertRecordStore, channel: NotificationChannel,
                  config: Config, zone: Zone, dryRun: bool)
    returns (outcome: Option<CycleOutcome>)
    modifies store.machine, channel
    ensures var run := Cycle(old(store.OnDisk()), CycleInput(now, launches, old(store.machine.verdicts)), config,
                             zone, store.HasParent(), dryRun);
      && store.OnDisk() == run.disk
      && channel.sent == old(channel.sent) + run.deliveries
      && outcome == run.outcome
      && store.machine.verdicts == run.rest
    ensures store.Elsewhere() == old(store.Elsewhere())
  {
    var fetch := store.machine.Attempt();
    if fetch.Crash? {
      return None;
    } else if fetch.Fault? {
      return Some(CycleOutcome(true, false, 0, []));
    }
    var load := store.Load();
    if load.Died? {
      return None;
    } else if load.StorageError? {
      return Some(CycleOutcome(false, true, 0, []));
    }
    var records := load.records;
    var decision := DecideCycle(launches, records, config.Policy(), config.launchProvider, config.includeTerms, now);
    if decision.None? {
      return None;
    }
    var d := decision.value;
    var formatted := FormatMessages(d.alerts, zone);
    if formatted.None? {
      return None;
    }
    if dryRun {
      return Some(CycleOutcome(false, false, |formatted.value|, []));
    }
    outcome := SaveThenSend(d, records, formatted.value, store, channel, config);
  }

  /** The second half of a cycle: save if anything changed, then notify. */
  method SaveThenSend(d: CycleDecision, records: seq<AlertRecord>, messages: seq<Message>,
                      store: JsonAlertRecordStore, channel: NotificationChannel, config: Config)
    returns (outcome: Option<CycleOutcome>)
    modifies store.machine, channel
    ensures var run := SaveAndNotify(old(store.OnDisk()), d, messages, Changed(d, records), config, store.HasParent(),
                                     old(store.machine.verdicts));
      && store.OnDisk() == run.disk
      && channel.sent == old(channel.sent) + run.deliveries
      && outcome == run.outcome
      && store.machine.verdicts == run.rest
    ensures store.Elsewhere() == old(store.Elsewhere())
  {
    if d.alerts != [] || |d.updatedRecords| != |records| {
      var saved := store.Save(d.updatedRecords);
      if saved.Crash? {
        return None;
      } else if saved.Fault? {
        return Some(CycleOutcome(false, true, |messages|, []));
      }
    }
    var deliveries := SendNotifications(messages, config.recipients, channel, store.machine);
    if deliveries.None? {
      return None;
    }
    return Some(CycleOutcome(false, false, |messages|, deliveries.value));
  }

  // ----- the watch loop -----

  datatype WatchState = WatchState(disk: Disk, sent: seq<Delivery>)

  ghost function AfterCycle(st: WatchState, input: CycleInput, config: Config, zone: Zone,
                            hasParent: bool): WatchState {
    var run := Cycle(st.disk, input, config, zone, hasParent, false);
    WatchState(run.disk, st.sent + run.deliveries)
  }

  /** The cycles of any number of processes, one after the other: a process that
      dies is followed by another that starts from what is on disk. */
  ghost function Watch(st: WatchState, inputs: seq<CycleInput>, config: Config, zone: Zone,
                       hasParent: bool): WatchState {
    if inputs == [] then st
    else AfterCycle(Watch(st, inputs[..|inputs| - 1], config, zone, hasParent), inputs[|inputs| - 1], config, zone,
                    hasParent)
  }

  /** One watch process, polling until the sleep is interrupted after the last
      input or the process dies; `polls` counts the cycles it began. */
  method CommandWatch(inputs: seq<CycleInput>, store: JsonAlertRecordStore, channel: NotificationChannel,
                      config: Config, zone: Zone)
    returns (polls: nat, died: bool)
    requires inputs != []
    modifies store.machine, channel
    ensures polls <= |inputs| && (!died ==> polls == |inputs|)
    ensures WatchState(store.OnDisk(), channel.sent)
      == Watch(WatchState(old(store.OnDisk()), old(channel.sent)), inputs[..polls], config, zone, store.HasParent())
    ensures store.Elsewhere() == old(store.Elsewhere())
  {
    ghost var start := WatchState(store.OnDisk(), channel.sent);
    polls := 0;
    while true
      invariant polls < |inputs|
      invariant WatchState(store.OnDisk(), channel.sent)
        == Watch(start, inputs[..polls], config, zone, store.HasParent())
      invariant store.Elsewhere() == old(store.Elsewhere())
      decreases |inputs| - polls
    {
      assert inputs[..polls + 1][..polls] == inputs[..polls];
      store.machine.verdicts := inputs[polls].verdicts;
      var outcome := RunCycle(inputs[polls].now, inputs[polls].feed, store, channel, config, zone, false);
      polls := polls + 1;
      if outcome.None? {
        return polls, true;
      }
      if polls == |inputs| {
        break;
      }
    }
    return polls, false;
  }
}
