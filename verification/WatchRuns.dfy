/**
 Whole runs of the watcher, with every pattern of failures and crashes.

 A history follows a run and adds what no single file remembers: the records
 last committed, the ledger of all alerts ever committed, and for each delivery
 the ledger entry it comes from.
 */
module WatchRuns {
  import opened Domain
  import opened KeyOrder
  import opened Core
  import opened CoreLaws
  import opened KeyRuns
  import opened Storage
  import opened StorageLaws
  import opened Formatting
  import opened Orchestration

  datatype History = History(watch: WatchState, saved: seq<AlertRecord>, ledger: seq<Alert>, origins: seq<nat>)

  /** What stays the same over a run. */
  datatype Setup = Setup(config: Config, zone: Zone, hasParent: bool)

  ghost function CycleOf(h: History, input: CycleInput, setup: Setup): CycleRun {
    Cycle(h.watch.disk, input, setup.config, setup.zone, setup.hasParent, false)
  }

  ghost function DecisionOf(h: History, input: CycleInput, setup: Setup): CycleDecision {
    Decision(h.saved, input.feed, SettingsOf(setup.config), input.now)
  }

  ghost function Next(h: History, input: CycleInput, setup: Setup): History {
    var run, d := CycleOf(h, input, setup), DecisionOf(h, input, setup);
    History(WatchState(run.disk, h.watch.sent + run.deliveries),
            if run.committed then d.updatedRecords else h.saved,
            if run.committed then h.ledger + d.alerts else h.ledger,
            h.origins + OriginsOf(|h.ledger|, run.notices))
  }

  function OriginsOf(base: nat, notices: seq<Notice>): seq<nat> {
    seq(|notices|, i requires 0 <= i < |notices| => base + notices[i].index)
  }

  ghost function HistoryAfter(h: History, inputs: seq<CycleInput>, setup: Setup): History {
    if inputs == [] then h
    else Next(HistoryAfter(h, inputs[..|inputs| - 1], setup), inputs[|inputs| - 1], setup)
  }

  /** A first start: no records file, perhaps a temporary file left by something
      else, nothing sent. */
  function Start(tmp: Option<Content>): History {
    History(WatchState(Disk(None, tmp), []), [], [], [])
  }

  /** The history follows the run of the watcher. */
  lemma {:induction false} HistoryFollowsWatch(h: History, inputs: seq<CycleInput>, setup: Setup)
    ensures HistoryAfter(h, inputs, setup).watch == Watch(h.watch, inputs, setup.config, setup.zone, setup.hasParent)
  {
    if inputs != [] {
      HistoryFollowsWatch(h, inputs[..|inputs| - 1], setup);
    }
  }

  // ----- the records file and the history agree -----

  ghost predicate Faithful(h: History) {
    && Ascending(h.saved)
    && (h.watch.disk.file == Some(Document(DocumentJson(h.saved))) || (h.watch.disk.file == None && h.saved == []))
  }

  /** A load returns the committed records or an error. */
  lemma LoadIsFaithful(h: History, verdicts: seq<bool>)
    requires Faithful(h)
    ensures var load := LoadSteps(h.watch.disk.file, verdicts);
      load.status.Records? ==> load.status.records == h.saved
  {
    DocumentRoundTrip(h.saved);
  }

  /** What a committed cycle did, from the verdicts it had after loading. */
  ghost predicate Commits(h: History, input: CycleInput, setup: Setup, messages: seq<Message>, verdicts: seq<bool>) {
    var run, d := CycleOf(h, input, setup), DecisionOf(h, input, setup);
    && FormatAll(d.alerts, setup.zone) == Some(messages)
    && run == SaveAndNotify(h.watch.disk, d, messages, Changed(d, h.saved), setup.config, setup.hasParent, verdicts)
  }

  /** A cycle that does not commit leaves the records file and the channel alone;
      one that does ran its decision on the committed records. */
  lemma CycleCases(h: History, input: CycleInput, setup: Setup)
    requires Faithful(h)
    ensures var run := CycleOf(h, input, setup);
      && (!run.committed ==> run.disk.file == h.watch.disk.file && run.notices == [] && run.deliveries == [])
      && (run.committed ==> exists messages, verdicts :: Commits(h, input, setup, messages, verdicts))
  {
    var run, d := CycleOf(h, input, setup), DecisionOf(h, input, setup);
    var load := LoadSteps(h.watch.disk.file, Rest(input.verdicts));
    LoadIsFaithful(h, Rest(input.verdicts));
    if First(input.verdicts).Proceed? && load.status.Records? {
      var messages := FormatAll(d.alerts, setup.zone);
      if !(setup.config.includeTerms == [] && input.feed != []) && messages.Some? {
        SaveIsAtomic(h.watch.disk, DocumentJson(SortByKey(d.updatedRecords)), setup.hasParent, load.rest);
        assert Commits(h, input, setup, messages.value, load.rest);
      }
    }
  }

  /** The file after a commit holds the decided records. */
  lemma CommitIsFaithful(h: History, input: CycleInput, setup: Setup, messages: seq<Message>, verdicts: seq<bool>)
    requires Faithful(h) && Commits(h, input, setup, messages, verdicts) && CycleOf(h, input, setup).committed
    ensures var run, d := CycleOf(h, input, setup), DecisionOf(h, input, setup);
      && (run.disk.file == Some(Document(DocumentJson(d.updatedRecords)))
          || (run.disk.file == None && d.updatedRecords == []))
      && (d.alerts != [] ==> run.disk.file == Some(Document(DocumentJson(d.updatedRecords))))
  {
    var d := DecisionOf(h, input, setup);
    AscendingIsDistinct(d.updatedRecords);
    SortIsCanonical(d.updatedRecords);
    if Changed(d, h.saved) {
      SaveIsAtomic(h.watch.disk, DocumentJson(d.updatedRecords), setup.hasParent, verdicts);
    } else {
      SkippingTheSaveIsExact(h.saved, input.feed, SettingsOf(setup.config), input.now);
    }
  }

  lemma CommittedFile(h: History, input: CycleInput, setup: Setup)
    requires Faithful(h) && CycleOf(h, input, setup).committed
    ensures var d := DecisionOf(h, input, setup);
      d.alerts != [] ==> CycleOf(h, input, setup).disk.file == Some(Document(DocumentJson(d.updatedRecords)))
  {
    CycleCases(h, input, setup);
    var messages, verdicts :| Commits(h, input, setup, messages, verdicts);
    CommitIsFaithful(h, input, setup, messages, verdicts);
  }

  lemma NextIsFaithful(h: History, input: CycleInput, setup: Setup)
    requires Faithful(h)
    ensures Faithful(Next(h, input, setup))
  {
    CycleCases(h, input, setup);
    if CycleOf(h, input, setup).committed {
      var messages, verdicts :| Commits(h, input, setup, messages, verdicts);
      CommitIsFaithful(h, input, setup, messages, verdicts);
    }
  }

  /** After any run, the records file holds exactly the records last committed, in
      key order, whatever became of temporary files. */
  lemma {:induction false} RunIsFaithful(h: History, inputs: seq<CycleInput>, setup: Setup)
    requires Faithful(h)
    ensures Faithful(HistoryAfter(h, inputs, setup))
  {
    if inputs != [] {
      RunIsFaithful(h, inputs[..|inputs| - 1], setup);
      NextIsFaithful(HistoryAfter(h, inputs[..|inputs| - 1], setup), inputs[|inputs| - 1], setup);
    }
  }

  // ----- every run is a per-key run, for every key -----

  ghost function View(h: History, k: string): KeyState {
    KeyState(Lookup(MapOf(h.saved), k), AlertsFor(h.ledger, k))
  }

  ghost function KeyCycleOf(h: History, input: CycleInput, setup: Setup, k: string): KeyCycle {
    KeyCycle(input.now, Sightings(input.feed, SettingsOf(setup.config), k), CycleOf(h, input, setup).committed)
  }

  ghost function KeyRunOf(h: History, inputs: seq<CycleInput>, setup: Setup, k: string): seq<KeyCycle> {
    if inputs == [] then [] else
      var init := inputs[..|inputs| - 1];
      KeyRunOf(h, init, setup, k) + [KeyCycleOf(HistoryAfter(h, init, setup), inputs[|inputs| - 1], setup, k)]
  }

  lemma {:induction false} AlertsForConcat(a: seq<Alert>, b: seq<Alert>, k: string)
    ensures AlertsFor(a + b, k) == AlertsFor(a, k) + AlertsFor(b, k)
  {
    if b == [] {
      assert a + b == a;
    } else {
      var init := b[..|b| - 1];
      AlertsForConcat(a, init, k);
      assert (a + b)[..|a + b| - 1] == a + init;
    }
  }

  lemma ViewStep(h: History, input: CycleInput, setup: Setup, k: string)
    ensures View(Next(h, input, setup), k) == KeyNext(View(h, k), KeyCycleOf(h, input, setup, k), setup.config.Policy())
  {
    CyclePerKey(h.saved, input.feed, SettingsOf(setup.config), input.now, k);
    AlertsForConcat(h.ledger, DecisionOf(h, input, setup).alerts, k);
  }

  lemma {:induction false} KeyRunLength(h: History, inputs: seq<CycleInput>, setup: Setup, k: string)
    ensures |KeyRunOf(h, inputs, setup, k)| == |inputs|
  {
    if inputs != [] {
      KeyRunLength(h, inputs[..|inputs| - 1], setup, k);
    }
  }

  /** Cycle `i` of the per-key run is input `i`, seen from the key, in the state
      that the earlier inputs lead to. */
  lemma {:induction false} KeyRunAt(h: History, inputs: seq<CycleInput>, setup: Setup, k: string, i: nat)
    requires i < |inputs|
    ensures |KeyRunOf(h, inputs, setup, k)| == |inputs|
    ensures KeyRunOf(h, inputs, setup, k)[i] == KeyCycleOf(HistoryAfter(h, inputs[..i], setup), inputs[i], setup, k)
  {
    KeyRunLength(h, inputs, setup, k);
    KeyRunEnds(h, inputs, setup, k);
    if i < |inputs| - 1 {
      KeyRunAt(h, inputs[..|inputs| - 1], setup, k, i);
      SamePrefix(inputs, i);
    }
  }

  lemma SamePrefix(inputs: seq<CycleInput>, i: nat)
    requires i < |inputs| - 1
    ensures inputs[..|inputs| - 1][..i] == inputs[..i] && inputs[..|inputs| - 1][i] == inputs[i]
  {
  }

  /** The last cycle of the per-key run, and the cycles before it. */
  lemma KeyRunEnds(h: History, inputs: seq<CycleInput>, setup: Setup, k: string)
    requires inputs != []
    ensures var n, init := |inputs| - 1, inputs[..|inputs| - 1];
      && |KeyRunOf(h, init, setup, k)| == n && |KeyRunOf(h, inputs, setup, k)| == n + 1
      && KeyRunOf(h, inputs, setup, k)[n] == KeyCycleOf(HistoryAfter(h, init, setup), inputs[n], setup, k)
      && forall i :: 0 <= i < n ==> KeyRunOf(h, inputs, setup, k)[i] == KeyRunOf(h, init, setup, k)[i]
  {
    KeyRunLength(h, inputs[..|inputs| - 1], setup, k);
    KeyRunLast(h, inputs, setup, k);
  }

  lemma KeyRunLast(h: History, inputs: seq<CycleInput>, setup: Setup, k: string)
    requires inputs != []
    ensures var init := inputs[..|inputs| - 1];
      KeyRunOf(h, inputs, setup, k)
        == KeyRunOf(h, init, setup, k)
           + [KeyCycleOf(HistoryAfter(h, init, setup), inputs[|inputs| - 1], setup, k)]
  {
  }

  /** Seen from one key, a run with all its failures and crashes is a per-key run
      in which the failed cycles are lost. */
  lemma {:induction false} RunView(h: History, inputs: seq<CycleInput>, setup: Setup, k: string)
    ensures View(HistoryAfter(h, inputs, setup), k)
      == KeyRun(View(h, k), KeyRunOf(h, inputs, setup, k), setup.config.Policy())
  {
    if inputs != [] {
      var init, last := inputs[..|inputs| - 1], inputs[|inputs| - 1];
      RunView(h, init, setup, k);
      ViewStep(HistoryAfter(h, init, setup), last, setup, k);
      var run := KeyRunOf(h, inputs, setup, k);
      assert run[..|run| - 1] == KeyRunOf(h, init, setup, k);
    }
  }

  // ----- each notification is sent at most once -----

  /** Every delivery comes from a committed alert and goes to a recipient. */
  ghost predicate Sourced(h: History, setup: Setup) {
    && |h.origins| == |h.watch.sent|
    && forall i :: 0 <= i < |h.origins| ==> SourcedAt(h, setup, i)
  }

  ghost predicate SourcedAt(h: History, setup: Setup, i: nat)
    requires i < |h.origins| == |h.watch.sent|
  {
    && h.origins[i] < |h.ledger|
    && FormatAlert(h.ledger[h.origins[i]], setup.zone) == Some(h.watch.sent[i].message)
    && exists r <- setup.config.recipients :: r.name == h.watch.sent[i].recipient
  }

  /** Ledger entries are served in order, none twice to the same recipient. */
  ghost predicate OnceEach(h: History)
    requires |h.origins| == |h.watch.sent|
  {
    forall i, j :: 0 <= i < j < |h.origins| ==>
      && h.origins[i] <= h.origins[j]
      && (h.origins[i] == h.origins[j] ==> h.watch.sent[i].recipient != h.watch.sent[j].recipient)
  }

  ghost predicate Traced(h: History, setup: Setup) {
    Sourced(h, setup) && OnceEach(h)
  }

  ghost predicate UniqueNames(recipients: seq<Recipient>) {
    forall i, j :: 0 <= i < j < |recipients| ==> recipients[i].name != recipients[j].name
  }

  /** The notices of a cycle in order: each is for one message and one recipient,
      and no pair occurs twice. */
  ghost predicate Orderly(notices: seq<Notice>, messages: seq<Message>, recipients: seq<Recipient>) {
    && (forall i :: 0 <= i < |notices| ==>
          && notices[i].index < |messages| && notices[i].message == messages[notices[i].index]
          && exists r <- recipients :: r.name == notices[i].recipient)
    && (forall i, j :: 0 <= i < j < |notices| ==>
          && notices[i].index <= notices[j].index
          && (notices[i].index == notices[j].index ==> notices[i].recipient != notices[j].recipient))
  }

  lemma {:induction false} NoticesAreOrderly(messages: seq<Message>, recipients: seq<Recipient>)
    requires UniqueNames(recipients)
    ensures Orderly(Notices(messages, recipients), messages, recipients)
  {
    if messages != [] {
      var init := messages[..|messages| - 1];
      NoticesAreOrderly(init, recipients);
      var before, last := Notices(init, recipients), NoticesFor(|messages| - 1, messages[|messages| - 1], recipients);
      assert forall i :: 0 <= i < |before| ==>
        before[i].index < |init| && messages[before[i].index] == init[before[i].index];
      assert forall i :: 0 <= i < |last| ==> recipients[i] in recipients;
    }
  }

  lemma FormatAllSplit(alerts: seq<Alert>, zone: Zone, messages: seq<Message>)
    requires alerts != [] && FormatAll(alerts, zone) == Some(messages)
    ensures messages != []
    ensures FormatAll(alerts[..|alerts| - 1], zone) == Some(messages[..|messages| - 1])
    ensures FormatAlert(alerts[|alerts| - 1], zone) == Some(messages[|messages| - 1])
  {
  }

  lemma {:induction false} FormatAllAt(alerts: seq<Alert>, zone: Zone, i: nat)
    requires FormatAll(alerts, zone).Some? && i < |alerts|
    ensures |FormatAll(alerts, zone).value| == |alerts|
    ensures FormatAlert(alerts[i], zone) == Some(FormatAll(alerts, zone).value[i])
  {
    var messages := FormatAll(alerts, zone).value;
    FormatAllSplit(alerts, zone, messages);
    var init := alerts[..|alerts| - 1];
    if i < |init| {
      FormatAllAt(init, zone, i);
    } else if init != [] {
      FormatAllAt(init, zone, 0);
    }
  }

  /** The notices of a committed cycle are the first of all its notices, and its
      deliveries are those of its notices. */
  lemma CommitNotices(h: History, input: CycleInput, setup: Setup, messages: seq<Message>, verdicts: seq<bool>)
    requires Commits(h, input, setup, messages, verdicts) && CycleOf(h, input, setup).committed
    ensures var run := CycleOf(h, input, setup);
      && run.notices <= Notices(messages, setup.config.recipients)
      && |run.deliveries| == |run.notices|
      && (forall i :: 0 <= i < |run.notices| ==>
            && run.deliveries[i].message == run.notices[i].message
            && run.deliveries[i].recipient == run.notices[i].recipient)
      && (run.outcome.Some? ==> run.notices == Notices(messages, setup.config.recipients))
  {
  }

  /** `next` extends `h` by a cycle that committed `alerts` and attempted `notices`. */
  ghost predicate Extends(h: History, next: History, alerts: seq<Alert>, notices: seq<Notice>,
                          deliveries: seq<Delivery>) {
    && next.ledger == h.ledger + alerts
    && next.origins == h.origins + OriginsOf(|h.ledger|, notices)
    && next.watch.sent == h.watch.sent + deliveries
    && |deliveries| == |notices|
    && forall i :: 0 <= i < |notices| ==>
         deliveries[i].message == notices[i].message && deliveries[i].recipient == notices[i].recipient
  }

  lemma ExtendedIsSourced(h: History, next: History, alerts: seq<Alert>, messages: seq<Message>, notices: seq<Notice>,
                          deliveries: seq<Delivery>, setup: Setup)
    requires Sourced(h, setup) && Extends(h, next, alerts, notices, deliveries)
    requires FormatAll(alerts, setup.zone) == Some(messages) && Orderly(notices, messages, setup.config.recipients)
    ensures Sourced(next, setup)
  {
    forall i | 0 <= i < |next.origins| ensures SourcedAt(next, setup, i) {
      if i < |h.origins| {
        OldIsSourced(h, next, alerts, notices, deliveries, setup, i);
      } else {
        NewIsSourced(h, next, alerts, messages, notices, deliveries, setup, i - |h.origins|);
      }
    }
  }

  lemma OldIsSourced(h: History, next: History, alerts: seq<Alert>, notices: seq<Notice>, deliveries: seq<Delivery>,
                     setup: Setup, i: nat)
    requires i < |h.origins| == |h.watch.sent| && Extends(h, next, alerts, notices, deliveries)
    requires SourcedAt(h, setup, i)
    ensures |next.origins| == |next.watch.sent| && SourcedAt(next, setup, i)
  {
    assert next.origins[i] == h.origins[i] && next.watch.sent[i] == h.watch.sent[i];
    assert next.ledger[h.origins[i]] == h.ledger[h.origins[i]];
  }

  lemma {:induction false} NewIsSourced(h: History, next: History, alerts: seq<Alert>, messages: seq<Message>,
                                        notices: seq<Notice>, deliveries: seq<Delivery>, setup: Setup, i: nat)
    requires |h.origins| == |h.watch.sent| && Extends(h, next, alerts, notices, deliveries)
    requires FormatAll(alerts, setup.zone) == Some(messages) && Orderly(notices, messages, setup.config.recipients)
    requires i < |notices|
    ensures SourcedAt(next, setup, |h.origins| + i)
  {
    NoticeIsFormatted(alerts, messages, notices, setup, i);
    NewPlaces(h, next, alerts, notices, deliveries, i);
  }

  lemma NewPlaces(h: History, next: History, alerts: seq<Alert>, notices: seq<Notice>, deliveries: seq<Delivery>,
                  i: nat)
    requires |h.origins| == |h.watch.sent| && Extends(h, next, alerts, notices, deliveries)
    requires i < |notices| && notices[i].index < |alerts|
    ensures |next.origins| == |next.watch.sent| && |h.origins| + i < |next.origins|
    ensures next.origins[|h.origins| + i] == |h.ledger| + notices[i].index < |next.ledger|
    ensures next.ledger[next.origins[|h.origins| + i]] == alerts[notices[i].index]
    ensures next.watch.sent[|h.origins| + i] == deliveries[i]
  {
  }

  lemma NoticeIsFormatted(alerts: seq<Alert>, messages: seq<Message>, notices: seq<Notice>, setup: Setup, i: nat)
    requires FormatAll(alerts, setup.zone) == Some(messages) && Orderly(notices, messages, setup.config.recipients)
    requires i < |notices|
    ensures notices[i].index < |alerts|
    ensures FormatAlert(alerts[notices[i].index], setup.zone) == Some(notices[i].message)
  {
    if alerts != [] {
      FormatAllAt(alerts, setup.zone, 0);
    }
    FormatAllAt(alerts, setup.zone, notices[i].index);
  }

  lemma ExtendedIsOnceEach(h: History, next: History, alerts: seq<Alert>, messages: seq<Message>,
                           notices: seq<Notice>, deliveries: seq<Delivery>, setup: Setup)
    requires Traced(h, setup) && Extends(h, next, alerts, notices, deliveries)
    requires Orderly(notices, messages, setup.config.recipients)
    ensures OnceEach(next)
  {
    var n := |h.origins|;
    forall i, j | 0 <= i < j < |next.origins|
      ensures next.origins[i] <= next.origins[j]
      ensures next.origins[i] == next.origins[j] ==> next.watch.sent[i].recipient != next.watch.sent[j].recipient
    {
      if j < n {
        assert next.origins[i] == h.origins[i] && next.origins[j] == h.origins[j];
        assert next.watch.sent[i] == h.watch.sent[i] && next.watch.sent[j] == h.watch.sent[j];
      } else {
        assert next.origins[j] == |h.ledger| + notices[j - n].index;
        if i < n {
          assert SourcedAt(h, setup, i);
          assert next.origins[i] == h.origins[i] < |h.ledger|;
        } else {
          assert next.origins[i] == |h.ledger| + notices[i - n].index;
          assert next.watch.sent[i] == deliveries[i - n] && next.watch.sent[j] == deliveries[j - n];
        }
      }
    }
  }

  lemma OrderlyPrefix(prefix: seq<Notice>, notices: seq<Notice>, messages: seq<Message>, recipients: seq<Recipient>)
    requires prefix <= notices && Orderly(notices, messages, recipients)
    ensures Orderly(prefix, messages, recipients)
  {
    assert forall i :: 0 <= i < |prefix| ==> prefix[i] == notices[i];
  }

  /** A cycle either commits and extends the history, or adds nothing to it. */
  lemma NextExtends(h: History, input: CycleInput, setup: Setup) returns (messages: seq<Message>)
    requires UniqueNames(setup.config.recipients) && Faithful(h) && CycleOf(h, input, setup).committed
    ensures var run, d := CycleOf(h, input, setup), DecisionOf(h, input, setup);
      && Extends(h, Next(h, input, setup), d.alerts, run.notices, run.deliveries)
      && FormatAll(d.alerts, setup.zone) == Some(messages)
      && Orderly(run.notices, messages, setup.config.recipients)
  {
    CycleCases(h, input, setup);
    var m, verdicts :| Commits(h, input, setup, m, verdicts);
    messages := m;
    CommitNotices(h, input, setup, messages, verdicts);
    NoticesAreOrderly(messages, setup.config.recipients);
    OrderlyPrefix(CycleOf(h, input, setup).notices, Notices(messages, setup.config.recipients), messages,
                  setup.config.recipients);
  }

  lemma NextUnchanged(h: History, input: CycleInput, setup: Setup)
    requires Faithful(h) && !CycleOf(h, input, setup).committed
    ensures var next := Next(h, input, setup);
      next.saved == h.saved && next.ledger == h.ledger && next.origins == h.origins && next.watch.sent == h.watch.sent
  {
    CycleCases(h, input, setup);
  }

  lemma SameTrace(h: History, next: History, setup: Setup)
    requires Traced(h, setup)
    requires next.ledger == h.ledger && next.origins == h.origins && next.watch.sent == h.watch.sent
    ensures Traced(next, setup)
  {
    forall i | 0 <= i < |h.origins| ensures SourcedAt(next, setup, i) {
      assert SourcedAt(h, setup, i);
    }
  }

  lemma NextIsTraced(h: History, input: CycleInput, setup: Setup)
    requires UniqueNames(setup.config.recipients)
    requires Faithful(h) && Traced(h, setup)
    ensures Traced(Next(h, input, setup), setup)
  {
    var run, d, next := CycleOf(h, input, setup), DecisionOf(h, input, setup), Next(h, input, setup);
    if run.committed {
      var messages := NextExtends(h, input, setup);
      ExtendedIsSourced(h, next, d.alerts, messages, run.notices, run.deliveries, setup);
      ExtendedIsOnceEach(h, next, d.alerts, messages, run.notices, run.deliveries, setup);
    } else {
      NextUnchanged(h, input, setup);
      SameTrace(h, next, setup);
    }
  }

  /** At most once: over every run, with failures and crashes anywhere, the
      deliveries map injectively into pairs of a committed alert and a recipient. */
  lemma {:induction false} AtMostOnce(tmp: Option<Content>, inputs: seq<CycleInput>, setup: Setup)
    requires UniqueNames(setup.config.recipients)
    ensures Traced(HistoryAfter(Start(tmp), inputs, setup), setup)
  {
    if inputs != [] {
      var init := inputs[..|inputs| - 1];
      AtMostOnce(tmp, init, setup);
      RunIsFaithful(Start(tmp), init, setup);
      NextIsTraced(HistoryAfter(Start(tmp), init, setup), inputs[|inputs| - 1], setup);
    }
  }

  // ----- what the outcome of a cycle tells -----

  /** The records file holds the decided records; without a file there are none. */
  ghost predicate OnFile(h: History, input: CycleInput, setup: Setup) {
    var file, updated := CycleOf(h, input, setup).disk.file, DecisionOf(h, input, setup).updatedRecords;
    file == Some(Document(DocumentJson(updated))) || (file == None && updated == [])
  }

  /** Every alert was formatted and its message attempted for every recipient. */
  ghost predicate AllAttempted(h: History, input: CycleInput, setup: Setup) {
    var run, messages := CycleOf(h, input, setup), FormatAll(DecisionOf(h, input, setup).alerts, setup.zone);
    && messages.Some? && run.notices == Notices(messages.value, setup.config.recipients)
    && |run.deliveries| == |run.notices|
    && forall i :: 0 <= i < |run.notices| ==>
         run.deliveries[i].message == run.notices[i].message && run.deliveries[i].recipient == run.notices[i].recipient
  }

  lemma FinishedCommit(h: History, input: CycleInput, setup: Setup)
    requires Faithful(h) && CycleOf(h, input, setup).committed && CycleOf(h, input, setup).outcome.Some?
    ensures OnFile(h, input, setup) && AllAttempted(h, input, setup)
  {
    CycleCases(h, input, setup);
    var messages, verdicts :| Commits(h, input, setup, messages, verdicts);
    CommitIsFaithful(h, input, setup, messages, verdicts);
    CommitNotices(h, input, setup, messages, verdicts);
  }

  /** What a cycle reports is so. If it is ok, the records file holds the decided
      records, and every message was delivered to every recipient; if fetch, load or
      save failed, the file is as before and nothing was sent; otherwise the file holds
      the decided records, every message was attempted, and some delivery failed. */
  ghost predicate ReportIsTrue(h: History, input: CycleInput, setup: Setup, report: CycleOutcome) {
    var run := CycleOf(h, input, setup);
    if report.sourceFailed || report.saveFailed then
      !report.Ok() && run.disk.file == h.watch.disk.file && run.deliveries == []
    else
      && OnFile(h, input, setup) && AllAttempted(h, input, setup)
      && (report.Ok() <==> forall d <- run.deliveries :: d.ok)
  }

  lemma OutcomeIsTrue(h: History, input: CycleInput, setup: Setup)
    requires Faithful(h)
    ensures var outcome := CycleOf(h, input, setup).outcome;
      outcome.Some? ==> ReportIsTrue(h, input, setup, outcome.value)
  {
    var run := CycleOf(h, input, setup);
    OutcomeIsHonest(h.watch.disk, input, setup.config, setup.zone, setup.hasParent);
    CycleCases(h, input, setup);
    if run.outcome.Some? && run.committed {
      FinishedCommit(h, input, setup);
    }
  }

  // ----- nothing is sent before it is durable -----

  lemma {:induction false} AlertIsForItsKey(alerts: seq<Alert>, i: nat)
    requires i < |alerts|
    ensures alerts[i] in AlertsFor(alerts, alerts[i].launch.Key())
  {
    if i < |alerts| - 1 {
      AlertIsForItsKey(alerts[..|alerts| - 1], i);
    }
  }

  ghost predicate Recorded(records: seq<AlertRecord>, alert: Alert) {
    exists r <- records :: r.key == alert.launch.Key() && alert.Entry() in r.sentAlerts
  }

  lemma DecidedIsRecorded(records: seq<AlertRecord>, feed: seq<Launch>, settings: Settings, now: int, i: nat)
    requires settings.policy.retention >= 0
    requires i < |Decision(records, feed, settings, now).alerts|
    ensures var d := Decision(records, feed, settings, now);
      Recorded(d.updatedRecords, d.alerts[i])
  {
    var d := Decision(records, feed, settings, now);
    var k := d.alerts[i].launch.Key();
    var alerts := AlertsFor(d.alerts, k);
    AlertIsForItsKey(d.alerts, i);
    AlertsAreConserved(records, feed, settings, now, k);
    MapOfKey(d.updatedRecords, k);
    var j :| 0 <= j < |alerts| && alerts[j] == d.alerts[i];
    assert Entries(alerts)[j] == d.alerts[i].Entry();
    assert Entries(alerts)[j] in PastAlerts(Lookup(MapOf(records), k)) + Entries(alerts);
  }

  /** A cycle with a committed decision and a save took this path. */
  ghost predicate Path(h: History, input: CycleInput, setup: Setup, load: LoadRun, messages: seq<Message>,
                       save: SaveRun) {
    var d := DecisionOf(h, input, setup);
    && First(input.verdicts).Proceed?
    && load == LoadSteps(h.watch.disk.file, Rest(input.verdicts)) && load.status == Records(h.saved)
    && (setup.config.includeTerms != [] || input.feed == [])
    && FormatAll(d.alerts, setup.zone) == Some(messages)
    && d.alerts != []
    && save == SaveSteps(h.watch.disk, DocumentJson(SortByKey(d.updatedRecords)), setup.hasParent, load.rest)
    && save.status == Proceed
  }

  lemma PathIsTaken(h: History, input: CycleInput, setup: Setup, load: LoadRun, messages: seq<Message>, save: SaveRun)
    requires Path(h, input, setup, load, messages, save)
    ensures CycleOf(h, input, setup) == Notify(save.disk, messages, setup.config, save.rest)
  {
  }

  lemma AttemptTakesPath(h: History, input: CycleInput, setup: Setup)
    returns (load: LoadRun, messages: seq<Message>, save: SaveRun)
    requires Faithful(h) && CycleOf(h, input, setup).notices != []
    ensures Path(h, input, setup, load, messages, save)
  {
    LoadIsFaithful(h, Rest(input.verdicts));
    load, messages := AttemptWasDecided(h, input, setup);
    var d := DecisionOf(h, input, setup);
    save := AttemptWasSaved(h.watch.disk, d, messages, Changed(d, h.saved), setup, load.rest);
  }

  lemma AttemptWasDecided(h: History, input: CycleInput, setup: Setup)
    returns (load: LoadRun, messages: seq<Message>)
    requires CycleOf(h, input, setup).notices != []
    requires var load := LoadSteps(h.watch.disk.file, Rest(input.verdicts));
      load.status.Records? ==> load.status.records == h.saved
    ensures First(input.verdicts).Proceed?
    ensures load == LoadSteps(h.watch.disk.file, Rest(input.verdicts)) && load.status == Records(h.saved)
    ensures setup.config.includeTerms != [] || input.feed == []
    ensures var d := DecisionOf(h, input, setup);
      && FormatAll(d.alerts, setup.zone) == Some(messages)
      && SaveAndNotify(h.watch.disk, d, messages, Changed(d, h.saved), setup.config, setup.hasParent,
                       load.rest).notices != []
  {
    load := LoadSteps(h.watch.disk.file, Rest(input.verdicts));
    messages := FormatAll(DecisionOf(h, input, setup).alerts, setup.zone).value;
  }

  lemma AttemptWasSaved(disk: Disk, d: CycleDecision, messages: seq<Message>, changed: bool, setup: Setup,
                        verdicts: seq<bool>)
    returns (save: SaveRun)
    requires SaveAndNotify(disk, d, messages, changed, setup.config, setup.hasParent, verdicts).notices != []
    requires FormatAll(d.alerts, setup.zone) == Some(messages) && (d.alerts != [] ==> changed)
    ensures d.alerts != []
    ensures save == SaveSteps(disk, DocumentJson(SortByKey(d.updatedRecords)), setup.hasParent, verdicts)
    ensures save.status == Proceed
  {
    save := SaveSteps(disk, DocumentJson(SortByKey(d.updatedRecords)), setup.hasParent, verdicts);
  }

  /** A load and a save that succeeded, then, with the verdicts cut after them. */
  lemma CutSteps(disk: Disk, json: Json, hasParent: bool, verdicts: seq<bool>, i: nat)
    returns (n: nat)
    requires LoadSteps(disk.file, verdicts).status.Records?
    requires var save := SaveSteps(disk, json, hasParent, LoadSteps(disk.file, verdicts).rest);
      save.status == Proceed && i <= |save.rest|
    ensures n <= |verdicts|
    ensures var load, cutLoad := LoadSteps(disk.file, verdicts), LoadSteps(disk.file, verdicts[..n]);
      var save, cutSave := SaveSteps(disk, json, hasParent, load.rest), SaveSteps(disk, json, hasParent, cutLoad.rest);
      && cutLoad.status == load.status && cutSave.status == Proceed
      && cutSave.disk == save.disk && cutSave.rest == save.rest[..i]
  {
    var load := LoadSteps(disk.file, verdicts);
    var save := SaveSteps(disk, json, hasParent, load.rest);
    LoadUses(disk.file, verdicts);
    SaveIsAtomic(disk, json, hasParent, load.rest);
    var loadUsed, saveUsed := |verdicts| - |load.rest|, |load.rest| - |save.rest|;
    n := loadUsed + saveUsed + i;
    CutLoad(disk.file, verdicts, n);
    CutSave(disk, json, hasParent, load.rest, saveUsed + i);
  }

  /** The same path is taken with fewer verdicts, if enough are left for it. */
  lemma CutPath(h: History, input: CycleInput, setup: Setup, load: LoadRun, messages: seq<Message>, save: SaveRun,
                i: nat)
    returns (n: nat, cutLoad: LoadRun, cutSave: SaveRun)
    requires Path(h, input, setup, load, messages, save) && i <= |save.rest|
    ensures n <= |input.verdicts|
    ensures Path(h, input.(verdicts := input.verdicts[..n]), setup, cutLoad, messages, cutSave)
    ensures cutSave.disk == save.disk && cutSave.rest == save.rest[..i]
  {
    var v1, json := Rest(input.verdicts), DocumentJson(SortByKey(DecisionOf(h, input, setup).updatedRecords));
    var m := CutSteps(h.watch.disk, json, setup.hasParent, v1, i);
    n := m + 1;
    var short := input.verdicts[..n];
    assert Rest(short) == v1[..m];
    assert First(short) == First(input.verdicts);
    cutLoad := LoadSteps(h.watch.disk.file, v1[..m]);
    cutSave := SaveSteps(h.watch.disk, json, setup.hasParent, cutLoad.rest);
    assert DecisionOf(h, input.(verdicts := short), setup) == DecisionOf(h, input, setup);
  }

  /** A cycle that attempted a notice saved first; cut right before attempt `i`, it
      is the same cycle up to there. */
  lemma CutBeforeAttempt(h: History, input: CycleInput, setup: Setup, i: nat)
    returns (n: nat, messages: seq<Message>)
    requires Faithful(h) && i < |CycleOf(h, input, setup).notices|
    ensures n <= |input.verdicts|
    ensures var cut := CycleOf(h, input.(verdicts := input.verdicts[..n]), setup);
      cut.outcome == None && cut.notices == CycleOf(h, input, setup).notices[..i] && cut.committed
    ensures FormatAll(DecisionOf(h, input, setup).alerts, setup.zone) == Some(messages)
    ensures CycleOf(h, input, setup).notices <= Notices(messages, setup.config.recipients)
    ensures DecisionOf(h, input, setup).alerts != []
  {
    var load, save, cutLoad, cutSave;
    load, messages, save := AttemptTakesPath(h, input, setup);
    PathIsTaken(h, input, setup, load, messages, save);
    CutNotify(save.disk, messages, setup.config, save.rest, i);
    n, cutLoad, cutSave := CutPath(h, input, setup, load, messages, save, i);
    PathIsTaken(h, input.(verdicts := input.verdicts[..n]), setup, cutLoad, messages, cutSave);
  }

  lemma CutNotify(disk: Disk, messages: seq<Message>, config: Config, verdicts: seq<bool>, i: nat)
    requires i < |Notify(disk, messages, config, verdicts).notices|
    ensures i <= |verdicts|
    ensures var cut := Notify(disk, messages, config, verdicts[..i]);
      cut.outcome == None && cut.notices == Notify(disk, messages, config, verdicts).notices[..i] && cut.committed
  {
  }

  /** Nothing is sent before it is durable. Take any delivery attempt of any cycle
      after any run and let the process die right before it: the records file
      already holds the new records, and they remember the alert being delivered. */
  lemma DurableBeforeSent(tmp: Option<Content>, inputs: seq<CycleInput>, input: CycleInput, setup: Setup)
    requires setup.config.Policy().retention >= 0
    ensures var h := HistoryAfter(Start(tmp), inputs, setup);
      forall i :: 0 <= i < |CycleOf(h, input, setup).notices| ==> DurableAt(h, input, setup, i)
  {
    var h := HistoryAfter(Start(tmp), inputs, setup);
    RunIsFaithful(Start(tmp), inputs, setup);
    forall i | 0 <= i < |CycleOf(h, input, setup).notices| ensures DurableAt(h, input, setup, i) {
      DurableBeforeAttempt(h, input, setup, i);
    }
  }

  ghost predicate DurableAt(h: History, input: CycleInput, setup: Setup, i: nat)
    requires i < |CycleOf(h, input, setup).notices|
  {
    var run, d := CycleOf(h, input, setup), DecisionOf(h, input, setup);
    && (exists n: nat :: n <= |input.verdicts|
          && CutIsDurable(h, input.(verdicts := input.verdicts[..n]), setup, run.notices[..i], d.updatedRecords))
    && run.notices[i].index < |d.alerts|
    && FormatAlert(d.alerts[run.notices[i].index], setup.zone) == Some(run.notices[i].message)
    && Recorded(d.updatedRecords, d.alerts[run.notices[i].index])
  }

  lemma DurableBeforeAttempt(h: History, input: CycleInput, setup: Setup, i: nat)
    requires Faithful(h) && setup.config.Policy().retention >= 0
    requires i < |CycleOf(h, input, setup).notices|
    ensures DurableAt(h, input, setup, i)
  {
    var run, d := CycleOf(h, input, setup), DecisionOf(h, input, setup);
    var n, messages := CutBeforeAttempt(h, input, setup, i);
    var cutInput := input.(verdicts := input.verdicts[..n]);
    CommittedFile(h, cutInput, setup);
    assert CutIsDurable(h, cutInput, setup, run.notices[..i], d.updatedRecords);
    NoticesHaveAlerts(d.alerts, messages, setup, i);
    DecidedIsRecorded(h.saved, input.feed, SettingsOf(setup.config), input.now, run.notices[i].index);
  }

  /** The process died with exactly `notices` attempted and `records` on disk. */
  ghost predicate CutIsDurable(h: History, input: CycleInput, setup: Setup, notices: seq<Notice>,
                               records: seq<AlertRecord>) {
    var cut := CycleOf(h, input, setup);
    cut.outcome == None && cut.notices == notices && cut.disk.file == Some(Document(DocumentJson(records)))
  }

  lemma NoticesHaveAlerts(alerts: seq<Alert>, messages: seq<Message>, setup: Setup, i: nat)
    requires FormatAll(alerts, setup.zone) == Some(messages)
    requires i < |Notices(messages, setup.config.recipients)|
    ensures var notice := Notices(messages, setup.config.recipients)[i];
      notice.index < |alerts| && FormatAlert(alerts[notice.index], setup.zone) == Some(notice.message)
  {
    NoticeIndex(messages, setup.config.recipients, i);
    if alerts != [] {
      FormatAllAt(alerts, setup.zone, 0);
      FormatAllAt(alerts, setup.zone, Notices(messages, setup.config.recipients)[i].index);
    }
  }

  lemma {:induction false} NoticeIndex(messages: seq<Message>, recipients: seq<Recipient>, i: nat)
    requires i < |Notices(messages, recipients)|
    ensures var notice := Notices(messages, recipients)[i];
      notice.index < |messages| && notice.message == messages[notice.index]
  {
    var init := messages[..|messages| - 1];
    if i < |Notices(init, recipients)| {
      NoticeIndex(init, recipients, i);
    }
  }

  /** A load or save that succeeded does so too with any verdicts cut off that it
      did not use. */
  lemma CutLoad(file: Option<Content>, verdicts: seq<bool>, n: nat)
    requires LoadSteps(file, verdicts).status.Records?
    requires |verdicts| - |LoadSteps(file, verdicts).rest| <= n <= |verdicts|
    ensures var load, cut := LoadSteps(file, verdicts), LoadSteps(file, verdicts[..n]);
      cut.status == load.status && cut.rest == load.rest[..n - (|verdicts| - |load.rest|)]
  {
    LoadUses(file, verdicts);
    if file.None? {
      assert verdicts[..n][1..] == verdicts[1..][..n - 1];
    } else {
      TwoRests(verdicts);
      TwoRests(verdicts[..n]);
      assert verdicts[..n][2..] == verdicts[2..][..n - 2];
    }
  }

  lemma TwoRests(verdicts: seq<bool>)
    requires |verdicts| >= 2
    ensures First(verdicts) == (if verdicts[0] then Proceed else Fault)
    ensures First(Rest(verdicts)) == (if verdicts[1] then Proceed else Fault)
    ensures Rest(Rest(verdicts)) == verdicts[2..]
  {
    assert verdicts[1..][1..] == verdicts[2..];
  }

  lemma LoadUses(file: Option<Content>, verdicts: seq<bool>)
    requires LoadSteps(file, verdicts).status.Records?
    ensures var used := if file.None? then 1 else 2;
      |verdicts| >= used && LoadSteps(file, verdicts).rest == verdicts[used..]
  {
    if file.Some? {
      assert |verdicts| >= 2;
      TwoRests(verdicts);
    }
  }

  lemma CutSave(disk: Disk, json: Json, hasParent: bool, verdicts: seq<bool>, n: nat)
    requires SaveSteps(disk, json, hasParent, verdicts).status == Proceed
    requires |verdicts| - |SaveSteps(disk, json, hasParent, verdicts).rest| <= n <= |verdicts|
    ensures
      var save := SaveSteps(disk, json, hasParent, verdicts);
      var cut := SaveSteps(disk, json, hasParent, verdicts[..n]);
      cut.status == Proceed && cut.disk == save.disk && cut.rest == save.rest[..n - (|verdicts| - |save.rest|)]
  {
    SaveIsAtomic(disk, json, hasParent, verdicts);
    SaveIsAtomic(disk, json, hasParent, verdicts[..n]);
    CutRest(verdicts, n, StepCount(hasParent));
  }

  lemma CutRest(verdicts: seq<bool>, n: nat, used: nat)
    requires AllProceed(verdicts, used) && used <= n <= |verdicts|
    ensures AllProceed(verdicts[..n], used)
    ensures verdicts[..n][used..] == verdicts[used..][..n - used]
  {
  }
}
