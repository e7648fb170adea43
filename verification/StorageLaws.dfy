/**
 Laws of the records file: what is written is read back, the canonical order,
 and that a save is all or nothing.
 */
module StorageLaws {
  import opened Domain
  import opened KeyOrder
  import opened TimeUtils
  import opened TimeLaws
  import opened Storage
  import opened CoreLaws

  // ----- round trips -----

  /** An instant whose text can be read back. */
  predicate Writable(t: int) {
    FourColumns(YearAt(t))
  }

  predicate TimeWritable(time: Option<int>) {
    time.Some? ==> Writable(time.value)
  }

  predicate SentWritable(sent: SentAlert) {
    Writable(sent.createdAt)
  }

  predicate AllSentWritable(sent: seq<SentAlert>) {
    forall s <- sent :: SentWritable(s)
  }

  predicate RecordWritable(r: AlertRecord) {
    && TimeWritable(r.lastFacts.launchTime)
    && AllSentWritable(r.sentAlerts)
    && Writable(r.firstAlertAt) && Writable(r.lastAlertAt)
  }

  predicate AllWritable(records: seq<AlertRecord>) {
    forall r <- records :: RecordWritable(r)
  }

  lemma TimeJsonRoundTrip(time: Option<int>)
    ensures OptionalTimeFromJson(TimeToJson(time)) == if TimeWritable(time) then Some(time) else None
    ensures time.Some? ==> TimeFromJson(TimeToJson(time)) == if TimeWritable(time) then time else None
  {
    if time.Some? {
      TextTimeRoundTrip(time.value, FormatIso8601Utc(time.value));
    }
  }

  lemma TextTimeRoundTrip(t: int, text: string)
    requires text == FormatIso8601Utc(t)
    ensures ParsedInstant(text) == if Writable(t) then Some(t) else None
  {
    TimestampRoundTrip(t);
  }

  lemma DistinctSentFields()
    ensures KIND != CREATED_AT && KIND != REASON && CREATED_AT != REASON
    ensures LAUNCH_TIME != PRECISION && LAUNCH_TIME != STATUS && PRECISION != STATUS
    ensures VERSION != RECORDS
  {
    assert VERSION[0] != RECORDS[0];
  }

  lemma SentFields(sent: SentAlert)
    ensures var j := SentToJson(sent);
      && TextField(j, KIND) == Some(KindName(sent.kind))
      && Field(j, CREATED_AT) == Some(TimeToJson(Some(sent.createdAt)))
      && Field(j, REASON) == Some(ReasonToJson(sent.reason))
  {
    DistinctSentFields();
    ThreeMembers(KIND, CREATED_AT, REASON, String(KindName(sent.kind)), TimeToJson(Some(sent.createdAt)),
                 ReasonToJson(sent.reason));
  }

  lemma ThreeMembers(a: string, b: string, c: string, x: Json, y: Json, z: Json)
    requires a != b && a != c && b != c
    ensures var j := Object(map[a := x, b := y, c := z]);
      Field(j, a) == Some(x) && Field(j, b) == Some(y) && Field(j, c) == Some(z)
  {
  }

  lemma SentRoundTrip(sent: SentAlert)
    ensures SentFromJson(SentToJson(sent)) == if SentWritable(sent) then Some(sent) else None
  {
    SentFields(sent);
    SentRoundTripBy(SentToJson(sent), sent);
  }

  lemma SentRoundTripBy(j: Json, sent: SentAlert)
    requires TextField(j, KIND) == Some(KindName(sent.kind))
    requires Field(j, CREATED_AT) == Some(TimeToJson(Some(sent.createdAt)))
    requires Field(j, REASON) == Some(ReasonToJson(sent.reason))
    ensures SentFromJson(j) == if SentWritable(sent) then Some(sent) else None
  {
    TimeJsonRoundTrip(Some(sent.createdAt));
    assert KindNamed(KindName(sent.kind)) == Some(sent.kind);
    assert SentReason(j) == Some(sent.reason) by {
      if sent.reason.Some? {
        assert ReasonNamed(ReasonName(sent.reason.value)) == Some(sent.reason.value);
      }
    }
  }

  lemma {:induction false} SentsRoundTrip(sent: seq<SentAlert>)
    ensures SentFromJsons(SentToJsons(sent)) == if AllSentWritable(sent) then Some(sent) else None
  {
    if sent != [] {
      var init, last, items := sent[..|sent| - 1], sent[|sent| - 1], SentToJsons(sent);
      SentsRoundTrip(init);
      SentRoundTrip(last);
      SentJsonsSplit(sent);
      AllSentSplit(sent);
      SentsSplit(items, init, last);
    }
  }

  lemma SentJsonsSplit(sent: seq<SentAlert>)
    requires sent != []
    ensures var items := SentToJsons(sent);
      && items != []
      && items[..|items| - 1] == SentToJsons(sent[..|sent| - 1])
      && items[|items| - 1] == SentToJson(sent[|sent| - 1])
  {
  }

  lemma AllSentSplit(sent: seq<SentAlert>)
    requires sent != []
    ensures sent == sent[..|sent| - 1] + [sent[|sent| - 1]]
    ensures AllSentWritable(sent) <==> AllSentWritable(sent[..|sent| - 1]) && SentWritable(sent[|sent| - 1])
  {
    assert sent == sent[..|sent| - 1] + [sent[|sent| - 1]];
  }

  lemma SentsSplit(items: seq<Json>, init: seq<SentAlert>, last: SentAlert)
    requires items != []
    requires SentFromJsons(items[..|items| - 1]) == if AllSentWritable(init) then Some(init) else None
    requires SentFromJson(items[|items| - 1]) == if SentWritable(last) then Some(last) else None
    ensures SentFromJsons(items) == if AllSentWritable(init) && SentWritable(last) then Some(init + [last]) else None
  {
  }

  lemma {:induction false} TextsRoundTrip(texts: seq<string>)
    ensures Texts(TextsToJson(texts)) == Some(texts)
  {
    if texts != [] {
      var init := texts[..|texts| - 1];
      assert TextsToJson(texts)[..|init|] == TextsToJson(init);
      TextsRoundTrip(init);
      assert texts == init + [texts[|texts| - 1]];
    }
  }

  lemma FactsFields(facts: LaunchFacts)
    ensures var j := FactsToJson(facts);
      && Field(j, LAUNCH_TIME) == Some(TimeToJson(facts.launchTime))
      && TextField(j, PRECISION) == Some(PrecisionName(facts.precision))
      && TextField(j, STATUS) == Some(StatusName(facts.status))
  {
    DistinctSentFields();
  }

  lemma FactsRoundTripBy(j: Json, facts: LaunchFacts)
    requires Field(j, LAUNCH_TIME) == Some(TimeToJson(facts.launchTime))
    requires TextField(j, PRECISION) == Some(PrecisionName(facts.precision))
    requires TextField(j, STATUS) == Some(StatusName(facts.status))
    ensures FactsFromJson(j) == if TimeWritable(facts.launchTime) then Some(facts) else None
  {
    TimeJsonRoundTrip(facts.launchTime);
    assert PrecisionNamed(PrecisionName(facts.precision)) == Some(facts.precision);
    assert StatusNamed(StatusName(facts.status)) == Some(facts.status);
  }

  /** The member names of a record are told apart by length or first letters. */
  lemma RecordFieldNames()
    ensures |KEY| == 3 && |LAST_FACTS| == 10 && |FIRST_ALERT_AT| == 14 && |SOURCE_LAUNCH_ID| == 16
    ensures |SOURCE_NAME| == |LAUNCH_NAME| == |SENT_ALERTS| == 11
    ensures |MATCHED_TERMS| == |LAST_ALERT_AT| == 13
    ensures SOURCE_NAME != LAUNCH_NAME && SOURCE_NAME != SENT_ALERTS && LAUNCH_NAME != SENT_ALERTS
    ensures MATCHED_TERMS != LAST_ALERT_AT
  {
    assert SOURCE_NAME[0] != LAUNCH_NAME[0];
    assert SOURCE_NAME[1] != SENT_ALERTS[1];
    assert LAUNCH_NAME[0] != SENT_ALERTS[0];
    assert MATCHED_TERMS[0] != LAST_ALERT_AT[0];
  }

  /** The members of a record's JSON object, by value. */
  datatype Members = Members(key: Json, sourceName: Json, sourceLaunchId: Json, launchName: Json, matchedTerms: Json,
                             lastFacts: Json, sentAlerts: Json, firstAlertAt: Json, lastAlertAt: Json)

  function MembersOf(r: AlertRecord): Members {
    Members(String(r.key), String(r.sourceName), String(r.sourceLaunchId), String(r.launchName),
            Array(TextsToJson(r.matchedTerms)), FactsToJson(r.lastFacts), Array(SentToJsons(r.sentAlerts)),
            TimeToJson(Some(r.firstAlertAt)), TimeToJson(Some(r.lastAlertAt)))
  }

  function ObjectOf(m: Members): Json {
    Object(map[KEY := m.key, SOURCE_NAME := m.sourceName, SOURCE_LAUNCH_ID := m.sourceLaunchId,
               LAUNCH_NAME := m.launchName, MATCHED_TERMS := m.matchedTerms, LAST_FACTS := m.lastFacts,
               SENT_ALERTS := m.sentAlerts, FIRST_ALERT_AT := m.firstAlertAt, LAST_ALERT_AT := m.lastAlertAt])
  }

  ghost predicate HasMembers(j: Json, m: Members) {
    && Field(j, KEY) == Some(m.key)
    && Field(j, SOURCE_NAME) == Some(m.sourceName)
    && Field(j, SOURCE_LAUNCH_ID) == Some(m.sourceLaunchId)
    && Field(j, LAUNCH_NAME) == Some(m.launchName)
    && Field(j, MATCHED_TERMS) == Some(m.matchedTerms)
    && Field(j, LAST_FACTS) == Some(m.lastFacts)
    && Field(j, SENT_ALERTS) == Some(m.sentAlerts)
    && Field(j, FIRST_ALERT_AT) == Some(m.firstAlertAt)
    && Field(j, LAST_ALERT_AT) == Some(m.lastAlertAt)
  }

  lemma ObjectHasMembers(m: Members)
    ensures HasMembers(ObjectOf(m), m)
  {
    RecordFieldNames();
  }

  /** Each member, read on its own, gives the record's value if its timestamps
      are writable and an exception if not. */
  ghost predicate ReadBack(m: Members, r: AlertRecord) {
    && m.key == String(r.key) && m.sourceName == String(r.sourceName)
    && m.sourceLaunchId == String(r.sourceLaunchId) && m.launchName == String(r.launchName)
    && TermsFromJson(m.matchedTerms) == Some(r.matchedTerms)
    && FactsFromJson(m.lastFacts) == (if TimeWritable(r.lastFacts.launchTime) then Some(r.lastFacts) else None)
    && SentFromJsons(Elements(m.sentAlerts)) == (if AllSentWritable(r.sentAlerts) then Some(r.sentAlerts) else None)
    && TimeFromJson(m.firstAlertAt) == (if Writable(r.firstAlertAt) then Some(r.firstAlertAt) else None)
    && TimeFromJson(m.lastAlertAt) == (if Writable(r.lastAlertAt) then Some(r.lastAlertAt) else None)
  }

  lemma TimeReadBack(j: Json, t: int)
    requires j == TimeToJson(Some(t))
    ensures TimeFromJson(j) == if Writable(t) then Some(t) else None
  {
    TimeJsonRoundTrip(Some(t));
  }

  lemma FactsReadBack(j: Json, facts: LaunchFacts)
    requires j == FactsToJson(facts)
    ensures FactsFromJson(j) == if TimeWritable(facts.launchTime) then Some(facts) else None
  {
    FactsFields(facts);
    FactsRoundTripBy(j, facts);
  }

  lemma ArraysReadBack(terms: Json, sent: Json, r: AlertRecord)
    requires terms == Array(TextsToJson(r.matchedTerms)) && sent == Array(SentToJsons(r.sentAlerts))
    ensures TermsFromJson(terms) == Some(r.matchedTerms)
    ensures SentFromJsons(Elements(sent)) == if AllSentWritable(r.sentAlerts) then Some(r.sentAlerts) else None
  {
    TextsRoundTrip(r.matchedTerms);
    SentsRoundTrip(r.sentAlerts);
  }

  lemma MembersReadBack(m: Members, r: AlertRecord)
    requires m == MembersOf(r)
    ensures ReadBack(m, r)
  {
    ArraysReadBack(m.matchedTerms, m.sentAlerts, r);
    FactsReadBack(m.lastFacts, r.lastFacts);
    TimeReadBack(m.firstAlertAt, r.firstAlertAt);
    TimeReadBack(m.lastAlertAt, r.lastAlertAt);
  }

  lemma RecordFromMembers(j: Json, m: Members, r: AlertRecord)
    requires HasMembers(j, m) && ReadBack(m, r)
    ensures RecordFrom(j) == if RecordWritable(r) then Some(r) else None
  {
  }

  lemma RecordRoundTrip(r: AlertRecord)
    ensures RecordFrom(RecordJson(r)) == if RecordWritable(r) then Some(r) else None
  {
    ObjectHasMembers(MembersOf(r));
    MembersReadBack(MembersOf(r), r);
    RecordFromMembers(ObjectOf(MembersOf(r)), MembersOf(r), r);
  }

  lemma {:induction false} RecordsRoundTrip(records: seq<AlertRecord>)
    ensures RecordsFrom(RecordJsons(records)) == if AllWritable(records) then Some(records) else None
  {
    if records != [] {
      var init, last := records[..|records| - 1], records[|records| - 1];
      assert records == init + [last];
      assert RecordJsons(records)[..|init|] == RecordJsons(init);
      RecordsRoundTrip(init);
      RecordRoundTrip(last);
      assert AllWritable(records) <==> AllWritable(init) && RecordWritable(last);
    }
  }

  /** A document reads back as the records it was made of exactly when every
      timestamp in them is writable; otherwise it does not load at all. */
  lemma DocumentRoundTrip(records: seq<AlertRecord>)
    ensures Loaded(Some(Document(DocumentJson(records)))) == if AllWritable(records) then Some(records) else None
  {
    DistinctSentFields();
    assert Field(DocumentJson(records), RECORDS) == Some(Array(RecordJsons(records)));
    RecordsRoundTrip(records);
  }

  // ----- the canonical order -----

  lemma {:induction false} InsertAscending(sorted: seq<AlertRecord>, record: AlertRecord)
    requires Ascending(sorted) && record.key !in MapOf(sorted)
    ensures Ascending(InsertByKey(sorted, record))
    ensures MapOf(InsertByKey(sorted, record)) == MapOf(sorted)[record.key := record]
    decreases |sorted|, 1
  {
    if sorted == [] {
      AppendAbove(sorted, record);
    } else if !Below(record.key, sorted[|sorted| - 1].key) {
      MapOfKey(sorted, record.key);
      assert sorted[|sorted| - 1].key != record.key;
      BelowTotal(record.key, sorted[|sorted| - 1].key);
      AppendAboveLast(sorted, record);
    } else {
      InsertBeforeLast(sorted, record);
    }
  }

  lemma {:induction false} InsertBeforeLast(sorted: seq<AlertRecord>, record: AlertRecord)
    requires Ascending(sorted) && record.key !in MapOf(sorted)
    requires sorted != [] && Below(record.key, sorted[|sorted| - 1].key)
    ensures Ascending(InsertByKey(sorted, record))
    ensures MapOf(InsertByKey(sorted, record)) == MapOf(sorted)[record.key := record]
    decreases |sorted|, 0
  {
    var init, last := sorted[..|sorted| - 1], sorted[|sorted| - 1];
    LastIsAbove(sorted);
    BelowIrreflexive(last.key);
    InsertBelow(init, last, record);
    UpdatesCommute(MapOf(init), record, last);
  }

  lemma UpdatesCommute(m: RecordMap, a: AlertRecord, b: AlertRecord)
    requires a.key != b.key
    ensures m[a.key := a][b.key := b] == m[b.key := b][a.key := a]
  {
  }

  lemma {:induction false} InsertBelow(init: seq<AlertRecord>, last: AlertRecord, record: AlertRecord)
    requires Ascending(init) && record.key !in MapOf(init)
    requires forall i :: 0 <= i < |init| ==> Below(init[i].key, last.key)
    requires Below(record.key, last.key)
    ensures Ascending(InsertByKey(init, record) + [last])
    ensures MapOf(InsertByKey(init, record) + [last]) == MapOf(init)[record.key := record][last.key := last]
    decreases |init|, 2
  {
    InsertAscending(init, record);
    InsertedBelow(init, record, last.key);
    AppendAbove(InsertByKey(init, record), last);
  }

  lemma LastIsAbove(sorted: seq<AlertRecord>)
    requires Ascending(sorted) && sorted != []
    ensures var init, last := sorted[..|sorted| - 1], sorted[|sorted| - 1];
      && Ascending(init) && last.key !in MapOf(init)
      && MapOf(sorted) == MapOf(init)[last.key := last]
      && forall i :: 0 <= i < |init| ==> Below(init[i].key, last.key)
  {
    AscendingIsDistinct(sorted);
    LastKeyIsNew(sorted);
  }

  lemma {:induction false} InsertedBelow(sorted: seq<AlertRecord>, record: AlertRecord, k: string)
    requires forall j :: 0 <= j < |sorted| ==> Below(sorted[j].key, k)
    requires Below(record.key, k)
    ensures forall i :: 0 <= i < |InsertByKey(sorted, record)| ==> Below(InsertByKey(sorted, record)[i].key, k)
  {
    if sorted != [] && Below(record.key, sorted[|sorted| - 1].key) {
      InsertedBelow(sorted[..|sorted| - 1], record, k);
    }
  }

  lemma AppendAboveLast(sorted: seq<AlertRecord>, record: AlertRecord)
    requires Ascending(sorted) && sorted != [] && Below(sorted[|sorted| - 1].key, record.key)
    ensures Ascending(sorted + [record])
    ensures MapOf(sorted + [record]) == MapOf(sorted)[record.key := record]
  {
    forall i | 0 <= i < |sorted| ensures Below(sorted[i].key, record.key) {
      if i < |sorted| - 1 {
        BelowTransitive(sorted[i].key, sorted[|sorted| - 1].key, record.key);
      }
    }
    AppendAbove(sorted, record);
  }

  /** Sorting records with distinct keys gives the one ascending list of the same
      records; a list that is ascending already is left as it is. */
  lemma {:induction false} SortIsCanonical(records: seq<AlertRecord>)
    requires DistinctKeys(records)
    ensures Ascending(SortByKey(records)) && MapOf(SortByKey(records)) == MapOf(records)
    ensures Ascending(records) ==> SortByKey(records) == records
  {
    if records != [] {
      var init := records[..|records| - 1];
      LastKeyIsNew(records);
      SortIsCanonical(init);
      InsertAscending(SortByKey(init), records[|records| - 1]);
    }
    if Ascending(records) {
      AscendingUnique(SortByKey(records), records);
    }
  }

  lemma SortKeepsRecords(records: seq<AlertRecord>)
    requires DistinctKeys(records)
    ensures multiset(SortByKey(records)) == multiset(records)
    ensures AllWritable(SortByKey(records)) <==> AllWritable(records)
  {
    SortIsCanonical(records);
    var sorted := SortByKey(records);
    AscendingIsDistinct(sorted);
    SameMapIsPermutation(sorted, records);
    SameElements(sorted, records);
  }

  lemma SameElements(a: seq<AlertRecord>, b: seq<AlertRecord>)
    requires multiset(a) == multiset(b)
    ensures forall r :: r in a <==> r in b
  {
    forall r ensures r in a <==> r in b {
      assert r in a <==> r in multiset(a);
      assert r in b <==> r in multiset(b);
    }
  }

  // ----- all or nothing -----

  ghost predicate AllProceed(verdicts: seq<bool>, n: nat) {
    |verdicts| >= n && forall i :: 0 <= i < n ==> verdicts[i]
  }

  lemma AllProceedStep(verdicts: seq<bool>, n: nat)
    ensures AllProceed(verdicts, n + 1) <==> First(verdicts).Proceed? && AllProceed(Rest(verdicts), n)
    ensures AllProceed(verdicts, n + 1) ==> verdicts[n + 1..] == Rest(verdicts)[n..]
  {
    if verdicts != [] {
      assert forall i :: 0 <= i < |Rest(verdicts)| ==> Rest(verdicts)[i] == verdicts[i + 1];
      if First(verdicts).Proceed? && AllProceed(Rest(verdicts), n) {
        forall i | 0 <= i < n + 1 ensures verdicts[i] {
          assert i > 0 ==> Rest(verdicts)[i - 1];
        }
      }
    }
  }

  /** A run of save steps replaced the file with the document and used `n`
      verdicts, all of them to proceed, or it left the file alone. */
  ghost predicate AllOrNothing(run: SaveRun, file: Option<Content>, json: Json, verdicts: seq<bool>, n: nat) {
    && (run.status == Proceed <==> AllProceed(verdicts, n))
    && (run.status == Proceed ==> run == SaveRun(Disk(Some(Document(json)), None), Proceed, verdicts[n..]))
    && (run.status != Proceed ==> run.disk.file == file)
  }

  lemma RenameAllOrNothing(disk: Disk, json: Json, verdicts: seq<bool>)
    requires disk.tmp == Some(Document(json))
    ensures AllOrNothing(SaveRename(disk, verdicts), disk.file, json, verdicts, 1)
  {
  }

  lemma CloseAllOrNothing(disk: Disk, json: Json, written: bool, verdicts: seq<bool>)
    ensures written ==> AllOrNothing(SaveClose(disk, json, written, verdicts), disk.file, json, verdicts, 2)
    ensures !written ==> SaveClose(disk, json, written, verdicts).status != Proceed
    ensures !written ==> SaveClose(disk, json, written, verdicts).disk.file == disk.file
  {
    AllProceedStep(verdicts, 1);
    RenameAllOrNothing(disk.(tmp := Some(Document(json))), json, Rest(verdicts));
  }

  lemma WriteAllOrNothing(disk: Disk, json: Json, verdicts: seq<bool>)
    ensures AllOrNothing(SaveWrite(disk, json, verdicts), disk.file, json, verdicts, 3)
  {
    AllProceedStep(verdicts, 2);
    CloseAllOrNothing(disk, json, First(verdicts).Proceed?, Rest(verdicts));
  }

  lemma OpenAllOrNothing(disk: Disk, json: Json, verdicts: seq<bool>)
    ensures AllOrNothing(SaveOpen(disk, json, verdicts), disk.file, json, verdicts, 4)
  {
    AllProceedStep(verdicts, 3);
    WriteAllOrNothing(disk.(tmp := Some(Torn)), json, Rest(verdicts));
  }

  /** The steps of a save that succeeds. */
  function StepCount(hasParent: bool): nat {
    if hasParent then 5 else 4
  }

  /** Whatever fails and wherever the process dies, a save succeeds exactly when
      each of its steps does; the records file then is the new document, and
      otherwise it is untouched. */
  lemma SaveIsAtomic(disk: Disk, json: Json, hasParent: bool, verdicts: seq<bool>)
    ensures AllOrNothing(SaveSteps(disk, json, hasParent, verdicts), disk.file, json, verdicts, StepCount(hasParent))
  {
    AllProceedStep(verdicts, 4);
    OpenAllOrNothing(disk, json, if hasParent then Rest(verdicts) else verdicts);
  }

  /** So loading after a save that was cut short anywhere gives the old records or
      the new ones in key order, and which of the two is known to the caller; a
      temporary file left behind makes no difference. */
  lemma LoadAfterSave(disk: Disk, records: seq<AlertRecord>, hasParent: bool, verdicts: seq<bool>)
    requires DistinctKeys(records) && AllWritable(records)
    ensures var run := SaveSteps(disk, DocumentJson(SortByKey(records)), hasParent, verdicts);
      && Loaded(run.disk.file) == (if run.status == Proceed then Some(SortByKey(records)) else Loaded(disk.file))
      && Ascending(SortByKey(records))
      && multiset(SortByKey(records)) == multiset(records)
  {
    SaveIsAtomic(disk, DocumentJson(SortByKey(records)), hasParent, verdicts);
    SortIsCanonical(records);
    SortKeepsRecords(records);
    DocumentRoundTrip(SortByKey(records));
  }

  // ----- what a save that fails or dies leaves -----

  /** The position of the verdict on removing the temporary file, after step `i` failed;
      `dirs` steps come before the file is opened. A failed write shows at the close. */
  function RemovalAfter(i: nat, dirs: nat): nat {
    if i == dirs + 1 then dirs + 3 else i + 1
  }

  function DirSteps(hasParent: bool): nat {
    if hasParent then 1 else 0
  }

  /** Step `i` is the first to fail, and the process lives to remove the temporary file. */
  ghost predicate FailsAt(verdicts: seq<bool>, hasParent: bool, i: nat) {
    && i < StepCount(hasParent) && AllProceed(verdicts, i)
    && |verdicts| > RemovalAfter(i, DirSteps(hasParent)) && !verdicts[i]
  }

  /** From opening the file on: it fails if and only if some step does, and then the
      temporary file is gone unless its removal failed too. */
  lemma OpenFailsIff(disk: Disk, json: Json, verdicts: seq<bool>)
    ensures (SaveOpen(disk, json, verdicts).status == Fault) <==> exists i :: FailsAt(verdicts, false, i)
    ensures forall i :: FailsAt(verdicts, false, i) && verdicts[RemovalAfter(i, 0)] ==>
      SaveOpen(disk, json, verdicts).disk.tmp == None
  {
    var run := SaveOpen(disk, json, verdicts);
    if |verdicts| > 0 && !verdicts[0] {
      assert FailsAt(verdicts, false, 0) <==> |verdicts| > 1;
    } else if |verdicts| > 1 && !verdicts[1] {
      assert FailsAt(verdicts, false, 1) <==> |verdicts| > 3;
    } else if |verdicts| > 2 && !verdicts[2] {
      assert FailsAt(verdicts, false, 2) <==> |verdicts| > 3;
    } else if |verdicts| > 3 && !verdicts[3] {
      assert FailsAt(verdicts, false, 3) <==> |verdicts| > 4;
    }
  }

  lemma FailsAtNext(verdicts: seq<bool>, i: nat)
    requires verdicts != [] && verdicts[0]
    ensures FailsAt(verdicts, true, i + 1) <==> FailsAt(Rest(verdicts), false, i)
    ensures !FailsAt(verdicts, true, 0)
  {
    AllProceedStep(verdicts, i);
  }

  lemma FailsAfterDirectory(verdicts: seq<bool>)
    requires verdicts != [] && verdicts[0]
    ensures (exists i :: FailsAt(verdicts, true, i)) <==> exists i :: FailsAt(Rest(verdicts), false, i)
  {
    forall i: nat | FailsAt(Rest(verdicts), false, i) ensures FailsAt(verdicts, true, i + 1) {
      FailsAtNext(verdicts, i);
    }
    forall i: nat | FailsAt(verdicts, true, i) ensures i > 0 && FailsAt(Rest(verdicts), false, i - 1) {
      FailsAtNext(verdicts, if i > 0 then i - 1 else 0);
    }
  }

  /** A save raises an error if and only if one of its steps fails and the process lives
      through the removal of the temporary file. */
  lemma SaveFailsIff(disk: Disk, json: Json, hasParent: bool, verdicts: seq<bool>)
    ensures (SaveSteps(disk, json, hasParent, verdicts).status == Fault)
      <==> exists i :: FailsAt(verdicts, hasParent, i)
  {
    if !hasParent {
      OpenFailsIff(disk, json, verdicts);
    } else if verdicts != [] && verdicts[0] {
      OpenFailsIff(disk, json, Rest(verdicts));
      FailsAfterDirectory(verdicts);
    } else if verdicts != [] {
      assert FailsAt(verdicts, true, 0) <==> |verdicts| > 1;
    }
  }

  /** The temporary file of a save that failed is gone, unless its removal failed too. */
  lemma FailedSaveCleansUp(disk: Disk, json: Json, hasParent: bool, verdicts: seq<bool>, i: nat)
    requires FailsAt(verdicts, hasParent, i) && verdicts[RemovalAfter(i, DirSteps(hasParent))]
    ensures SaveSteps(disk, json, hasParent, verdicts).disk == Disk(disk.file, None)
  {
    SaveIsAtomic(disk, json, hasParent, verdicts);
    SaveFailsIff(disk, json, hasParent, verdicts);
    if !hasParent {
      OpenFailsIff(disk, json, verdicts);
    } else if i > 0 {
      FailsAtNext(verdicts, i - 1);
      OpenFailsIff(disk, json, Rest(verdicts));
      assert Rest(verdicts)[RemovalAfter(i - 1, 0)];
    }
  }

  /** The temporary file, `n` steps from its opening on. */
  function LeftBehind(before: Option<Content>, json: Json, n: int): Option<Content> {
    if n <= 0 then before else if n <= 2 then Some(Torn) else Some(Document(json))
  }

  /** A process that dies in a save whose steps all succeeded so far leaves the temporary
      file as it was, or torn once it was opened, or whole once it was closed. */
  lemma CrashLeaves(disk: Disk, json: Json, hasParent: bool, verdicts: seq<bool>)
    requires AllProceed(verdicts, |verdicts|) && |verdicts| < StepCount(hasParent)
    ensures var run, n := SaveSteps(disk, json, hasParent, verdicts), |verdicts| - DirSteps(hasParent);
      run == SaveRun(Disk(disk.file, LeftBehind(disk.tmp, json, n)), Crash, [])
  {
    if hasParent && verdicts != [] {
      AllProceedStep(verdicts, |verdicts| - 1);
      OpenCrash(disk, json, Rest(verdicts));
    } else if !hasParent {
      OpenCrash(disk, json, verdicts);
    }
  }

  lemma OpenCrash(disk: Disk, json: Json, verdicts: seq<bool>)
    requires AllProceed(verdicts, |verdicts|) && |verdicts| < 4
    ensures SaveOpen(disk, json, verdicts)
      == SaveRun(Disk(disk.file, LeftBehind(disk.tmp, json, |verdicts|)), Crash, [])
  {
    if |verdicts| == 3 {
      assert verdicts[1..][1..] == verdicts[2..] && verdicts[2..][1..] == [];
    } else if |verdicts| == 2 {
      assert verdicts[1..][1..] == [];
    }
  }

  // ----- what is read -----

  /** What a loop over a JSON value visits. */
  lemma ElementsAre(j: Json)
    ensures j.Array? ==> Elements(j) == j.items
    ensures j == Null ==> Elements(j) == []
    ensures j.Boolean? || j.Number? || j.String? ==> Elements(j) == [j]
    ensures j.Object? ==> exists keys :: ValuesInOrder(j.fields, keys, Elements(j))
  {
    if j.Object? {
      SortedKeysAreOrdered(j.fields.Keys);
      assert ValuesInOrder(j.fields, SortedKeys(j.fields.Keys), Elements(j));
    }
  }

  /** `values` are the values of the members, by ascending names. */
  ghost predicate ValuesInOrder(fields: map<string, Json>, keys: seq<string>, values: seq<Json>) {
    && |keys| == |values| && (forall k :: k in keys <==> k in fields)
    && (forall i, j :: 0 <= i < j < |keys| ==> Below(keys[i], keys[j]))
    && forall i :: 0 <= i < |keys| ==> keys[i] in fields && values[i] == fields[keys[i]]
  }

  lemma {:induction false} SortedKeysAreOrdered(keys: set<string>)
    ensures forall k :: k in SortedKeys(keys) <==> k in keys
    ensures forall i, j :: 0 <= i < j < |SortedKeys(keys)| ==> Below(SortedKeys(keys)[i], SortedKeys(keys)[j])
  {
    if keys != {} {
      var sorted := SortedKeys(keys);
      LeastExists(keys);
      LeastIsUnique(keys);
      var least :| IsLeast(least, keys);
      assert sorted == [least] + SortedKeys(keys - {least});
      SortedKeysAreOrdered(keys - {least});
      forall i, j | 0 <= i < j < |sorted| ensures Below(sorted[i], sorted[j]) {
        assert sorted[j] in SortedKeys(keys - {least});
      }
    }
  }

  predicate TextAt(j: Json, name: string, text: string) {
    j.Object? && name in j.fields && j.fields[name] == String(text)
  }

  predicate TimeAt(j: Json, name: string, t: int) {
    j.Object? && name in j.fields && j.fields[name].String? && ParsedInstant(j.fields[name].text) == Some(t)
  }

  predicate OptionalTimeAt(j: Json, name: string, time: Option<int>) {
    && j.Object? && name in j.fields
    && if time.None? then j.fields[name] == Null else TimeAt(j, name, time.value)
  }

  predicate ReasonAt(j: Json, name: string, reason: Option<CorrectionReason>) {
    && j.Object?
    && if reason.None? then name !in j.fields || j.fields[name] == Null else TextAt(j, name, ReasonName(reason.value))
  }

  /** The JSON values that are read as this sent alert, these facts, this record. */
  predicate SentAt(j: Json, sent: SentAlert) {
    && TextAt(j, "kind", KindName(sent.kind))
    && TimeAt(j, "created_at", sent.createdAt)
    && ReasonAt(j, "reason", sent.reason)
  }

  predicate FactsAt(j: Json, facts: LaunchFacts) {
    && OptionalTimeAt(j, "launch_time", facts.launchTime)
    && TextAt(j, "precision", PrecisionName(facts.precision))
    && TextAt(j, "status", StatusName(facts.status))
  }

  predicate TermsAt(j: Json, terms: seq<string>) {
    j.Array? && |j.items| == |terms| && forall i :: 0 <= i < |terms| ==> j.items[i] == String(terms[i])
  }

  predicate AllSentAt(items: seq<Json>, sent: seq<SentAlert>) {
    |items| == |sent| && forall i :: 0 <= i < |sent| ==> SentAt(items[i], sent[i])
  }

  predicate RecordAt(j: Json, r: AlertRecord) {
    && TextAt(j, "key", r.key) && TextAt(j, "source_name", r.sourceName)
    && TextAt(j, "source_launch_id", r.sourceLaunchId) && TextAt(j, "launch_name", r.launchName)
    && "matched_terms" in j.fields && TermsAt(j.fields["matched_terms"], r.matchedTerms)
    && "last_facts" in j.fields && FactsAt(j.fields["last_facts"], r.lastFacts)
    && "sent_alerts" in j.fields && AllSentAt(Elements(j.fields["sent_alerts"]), r.sentAlerts)
    && TimeAt(j, "first_alert_at", r.firstAlertAt) && TimeAt(j, "last_alert_at", r.lastAlertAt)
  }

  lemma TimeFieldIff(j: Json, name: string, t: int)
    ensures (Field(j, name).Some? && TimeFromJson(Field(j, name).value) == Some(t)) <==> TimeAt(j, name, t)
  {
  }

  lemma OptionalTimeFieldIff(j: Json, name: string, time: Option<int>)
    ensures (Field(j, name).Some? && OptionalTimeFromJson(Field(j, name).value) == Some(time))
      <==> OptionalTimeAt(j, name, time)
  {
  }

  lemma TextFieldIff(j: Json, name: string, text: string)
    ensures TextField(j, name) == Some(text) <==> TextAt(j, name, text)
  {
  }

  lemma ReasonFieldIff(j: Json, reason: Option<CorrectionReason>)
    requires j.Object?
    ensures SentReason(j) == Some(reason) <==> ReasonAt(j, "reason", reason)
  {
    if REASON in j.fields && j.fields[REASON].String? && reason.Some? {
      var text := j.fields[REASON].text;
      assert ReasonNamed(text) == Some(reason.value) <==> text == ReasonName(reason.value);
    }
  }

  lemma KindFieldIff(j: Json, kind: AlertKind)
    ensures (TextField(j, "kind").Some? && KindNamed(TextField(j, "kind").value) == Some(kind))
      <==> TextAt(j, "kind", KindName(kind))
  {
  }

  lemma SentFromIff(j: Json, sent: SentAlert)
    ensures SentFromJson(j) == Some(sent) <==> SentAt(j, sent)
  {
    KindFieldIff(j, sent.kind);
    TimeFieldIff(j, "created_at", sent.createdAt);
    if j.Object? {
      ReasonFieldIff(j, sent.reason);
    }
  }

  lemma FactsFromIff(j: Json, facts: LaunchFacts)
    ensures FactsFromJson(j) == Some(facts) <==> FactsAt(j, facts)
  {
    OptionalTimeFieldIff(j, "launch_time", facts.launchTime);
    if j.Object? && PRECISION in j.fields && j.fields[PRECISION].String? {
      assert PrecisionNamed(j.fields[PRECISION].text) == Some(facts.precision)
        <==> j.fields[PRECISION].text == PrecisionName(facts.precision);
    }
    if j.Object? && STATUS in j.fields && j.fields[STATUS].String? {
      assert StatusNamed(j.fields[STATUS].text) == Some(facts.status)
        <==> j.fields[STATUS].text == StatusName(facts.status);
    }
  }

  /** The values of a list of results, if none is an exception. */
  function Collect<T>(results: seq<Option<T>>): Option<seq<T>> {
    if results == [] then Some([]) else
      var before, last := Collect(results[..|results| - 1]), results[|results| - 1];
      if before.None? || last.None? then None else Some(before.value + [last.value])
  }

  lemma {:induction false} CollectsNoneIff<T>(results: seq<Option<T>>)
    ensures Collect(results) == None <==> exists i :: 0 <= i < |results| && results[i] == None
  {
    if results != [] {
      CollectsNoneIff(results[..|results| - 1]);
    }
  }

  lemma {:induction false} CollectsIff<T>(results: seq<Option<T>>, values: seq<T>)
    ensures Collect(results) == Some(values) <==>
      |values| == |results| && forall i :: 0 <= i < |results| ==> results[i] == Some(values[i])
  {
    if results != [] && values != [] {
      var n := |results| - 1;
      var init := values[..|values| - 1];
      assert values == init + [values[|init|]];
      CollectsIff(results[..n], init);
      assert Collect(results) == Some(values)
        <==> Collect(results[..n]) == Some(init) && results[n] == Some(values[|init|]);
    }
  }

  function SentsRead(items: seq<Json>): seq<Option<SentAlert>> {
    seq(|items|, i requires 0 <= i < |items| => SentFromJson(items[i]))
  }

  function RecordsRead(items: seq<Json>): seq<Option<AlertRecord>> {
    seq(|items|, i requires 0 <= i < |items| => RecordFrom(items[i]))
  }

  lemma {:induction false} SentsAreCollected(items: seq<Json>)
    ensures SentFromJsons(items) == Collect(SentsRead(items))
  {
    if items != [] {
      var init := items[..|items| - 1];
      SentsAreCollected(init);
      assert SentsRead(items)[..|init|] == SentsRead(init);
    }
  }

  lemma {:induction false} RecordsAreCollected(items: seq<Json>)
    ensures RecordsFrom(items) == Collect(RecordsRead(items))
  {
    if items != [] {
      var init := items[..|items| - 1];
      RecordsAreCollected(init);
      assert RecordsRead(items)[..|init|] == RecordsRead(init);
    }
  }

  lemma SentsFromIff(items: seq<Json>, sent: seq<SentAlert>)
    ensures SentFromJsons(items) == Some(sent) <==> AllSentAt(items, sent)
  {
    SentsAreCollected(items);
    CollectsIff(SentsRead(items), sent);
    if |items| == |sent| {
      forall i | 0 <= i < |items| ensures SentsRead(items)[i] == Some(sent[i]) <==> SentAt(items[i], sent[i]) {
        SentFromIff(items[i], sent[i]);
      }
    }
  }

  lemma {:induction false} TermsFromIff(items: seq<Json>, terms: seq<string>)
    ensures Texts(items) == Some(terms) <==> TermsAt(Array(items), terms)
  {
    if items != [] && terms != [] {
      TermsFromIff(items[..|items| - 1], terms[..|terms| - 1]);
      TermsAtLast(items, terms);
      TextsLast(items, terms);
    }
  }

  lemma TermsAtLast(items: seq<Json>, terms: seq<string>)
    requires items != [] && terms != []
    ensures var n, m := |items| - 1, |terms| - 1;
      TermsAt(Array(items), terms) <==> TermsAt(Array(items[..n]), terms[..m]) && items[n] == String(terms[m])
  {
  }

  lemma TextsLast(items: seq<Json>, terms: seq<string>)
    requires items != [] && terms != []
    ensures var n, m := |items| - 1, |terms| - 1;
      Texts(items) == Some(terms) <==> Texts(items[..n]) == Some(terms[..m]) && items[n] == String(terms[m])
  {
    assert terms == terms[..|terms| - 1] + [terms[|terms| - 1]];
  }

  function TermsField(j: Json): Option<seq<string>> {
    if Field(j, "matched_terms").Some? then TermsFromJson(Field(j, "matched_terms").value) else None
  }

  function FactsField(j: Json): Option<LaunchFacts> {
    if Field(j, "last_facts").Some? then FactsFromJson(Field(j, "last_facts").value) else None
  }

  function SentField(j: Json): Option<seq<SentAlert>> {
    if Field(j, "sent_alerts").Some? then SentFromJsons(Elements(Field(j, "sent_alerts").value)) else None
  }

  function TimeField(j: Json, name: string): Option<int> {
    if Field(j, name).Some? then TimeFromJson(Field(j, name).value) else None
  }

  /** A record put together of its members, if all of them could be read. */
  function Combined(key: Option<string>, sourceName: Option<string>, sourceLaunchId: Option<string>,
                    launchName: Option<string>, terms: Option<seq<string>>, facts: Option<LaunchFacts>,
                    sent: Option<seq<SentAlert>>, first: Option<int>, last: Option<int>): Option<AlertRecord>
  {
    if key.None? || sourceName.None? || sourceLaunchId.None? || launchName.None? || terms.None? || facts.None?
       || sent.None? || first.None? || last.None? then None
    else Some(AlertRecord(key.value, sourceName.value, sourceLaunchId.value, launchName.value, terms.value, facts.value,
                          sent.value, first.value, last.value))
  }

  lemma RecordIsCombined(j: Json)
    ensures RecordFrom(j)
      == Combined(TextField(j, "key"), TextField(j, "source_name"), TextField(j, "source_launch_id"),
                  TextField(j, "launch_name"), TermsField(j), FactsField(j), SentField(j),
                  TimeField(j, "first_alert_at"), TimeField(j, "last_alert_at"))
  {
  }

  lemma TermsFieldIff(j: Json, terms: seq<string>)
    ensures TermsField(j) == Some(terms) <==>
      j.Object? && "matched_terms" in j.fields && TermsAt(j.fields["matched_terms"], terms)
  {
    if j.Object? && "matched_terms" in j.fields && j.fields["matched_terms"].Array? {
      TermsFromIff(j.fields["matched_terms"].items, terms);
    }
  }

  lemma FactsFieldIff(j: Json, facts: LaunchFacts)
    ensures FactsField(j) == Some(facts) <==>
      j.Object? && "last_facts" in j.fields && FactsAt(j.fields["last_facts"], facts)
  {
    if j.Object? && "last_facts" in j.fields {
      FactsFromIff(j.fields["last_facts"], facts);
    }
  }

  lemma SentFieldIff(j: Json, sent: seq<SentAlert>)
    ensures SentField(j) == Some(sent) <==>
      j.Object? && "sent_alerts" in j.fields && AllSentAt(Elements(j.fields["sent_alerts"]), sent)
  {
    if j.Object? && "sent_alerts" in j.fields {
      SentsFromIff(Elements(j.fields["sent_alerts"]), sent);
    }
  }

  lemma CombinedIff(key: Option<string>, sourceName: Option<string>, sourceLaunchId: Option<string>,
                    launchName: Option<string>, terms: Option<seq<string>>, facts: Option<LaunchFacts>,
                    sent: Option<seq<SentAlert>>, first: Option<int>, last: Option<int>, r: AlertRecord)
    ensures Combined(key, sourceName, sourceLaunchId, launchName, terms, facts, sent, first, last) == Some(r)
      <==> (key == Some(r.key) && sourceName == Some(r.sourceName) && sourceLaunchId == Some(r.sourceLaunchId)
            && launchName == Some(r.launchName) && terms == Some(r.matchedTerms) && facts == Some(r.lastFacts)
            && sent == Some(r.sentAlerts) && first == Some(r.firstAlertAt) && last == Some(r.lastAlertAt))
  {
  }

  /** Exactly which JSON values are read as a record, member by member; any other raises
      an exception. */
  lemma RecordFromIff(j: Json, r: AlertRecord)
    ensures RecordFrom(j) == Some(r) <==> RecordAt(j, r)
  {
    RecordIsCombined(j);
    CombinedIff(TextField(j, "key"), TextField(j, "source_name"), TextField(j, "source_launch_id"),
                TextField(j, "launch_name"), TermsField(j), FactsField(j), SentField(j),
                TimeField(j, "first_alert_at"), TimeField(j, "last_alert_at"), r);
    TextFieldIff(j, "key", r.key);
    TextFieldIff(j, "source_name", r.sourceName);
    TextFieldIff(j, "source_launch_id", r.sourceLaunchId);
    TextFieldIff(j, "launch_name", r.launchName);
    TermsFieldIff(j, r.matchedTerms);
    FactsFieldIff(j, r.lastFacts);
    SentFieldIff(j, r.sentAlerts);
    TimeFieldIff(j, "first_alert_at", r.firstAlertAt);
    TimeFieldIff(j, "last_alert_at", r.lastAlertAt);
  }

  /** A JSON value that is read as no record. */
  ghost predicate NoRecord(j: Json) {
    forall r :: !RecordAt(j, r)
  }

  /** A file that cannot be read: no JSON value, no member `records`, or an entry that is
      no record. */
  ghost predicate Unreadable(content: Content) {
    match content
    case Torn => true
    case Document(j) => !j.Object? || "records" !in j.fields || HasNoRecord(Elements(j.fields["records"]))
  }

  ghost predicate HasNoRecord(items: seq<Json>) {
    exists i :: 0 <= i < |items| && NoRecord(items[i])
  }

  lemma NoRecordIff(j: Json)
    ensures RecordFrom(j) == None <==> NoRecord(j)
  {
    forall r ensures RecordFrom(j) == Some(r) <==> RecordAt(j, r) {
      RecordFromIff(j, r);
    }
    if RecordFrom(j).Some? {
      assert RecordAt(j, RecordFrom(j).value);
    }
  }

  lemma HasNoRecordIff(items: seq<Json>)
    ensures RecordsFrom(items) == None <==> HasNoRecord(items)
  {
    RecordsAreCollected(items);
    CollectsNoneIff(RecordsRead(items));
    forall i | 0 <= i < |items| ensures RecordsRead(items)[i] == None <==> NoRecord(items[i]) {
      NoRecordIff(items[i]);
    }
  }

  lemma LoadedIff(content: Content)
    ensures Loaded(Some(content)) == None <==> Unreadable(content)
  {
    if content.Document? && content.json.Object? && "records" in content.json.fields {
      HasNoRecordIff(Elements(content.json.fields["records"]));
    }
  }

  /** What a load reports, by the verdicts it meets: the look for the file, then the read.
      An error while looking ends the process; without a file there are no records; a file
      that cannot be read is a storage error. */
  lemma LoadExactly(file: Option<Content>, verdicts: seq<bool>)
    ensures verdicts == [] || !verdicts[0] ==> LoadSteps(file, verdicts).status == Died
    ensures verdicts != [] && verdicts[0] && file == None ==> LoadSteps(file, verdicts).status == Records([])
    ensures |verdicts| == 1 && verdicts[0] && file.Some? ==> LoadSteps(file, verdicts).status == Died
    ensures |verdicts| > 1 && verdicts[0] && file.Some? ==>
      if !verdicts[1] || Unreadable(file.value) then LoadSteps(file, verdicts).status == StorageError
      else Loaded(file).Some? && LoadSteps(file, verdicts).status == Records(Loaded(file).value)
  {
    if file.Some? {
      LoadedIff(file.value);
    }
  }

  // ----- what is written -----

  /** The members of what is written for a record, by their names. */
  lemma RecordIsWritten(r: AlertRecord)
    ensures var j := RecordJson(r);
      && j.Object?
      && j.fields.Keys == {"key", "source_name", "source_launch_id", "launch_name", "matched_terms", "last_facts",
                           "sent_alerts", "first_alert_at", "last_alert_at"}
      && TextAt(j, "key", r.key) && TextAt(j, "source_name", r.sourceName)
      && TextAt(j, "source_launch_id", r.sourceLaunchId) && TextAt(j, "launch_name", r.launchName)
      && TermsAt(j.fields["matched_terms"], r.matchedTerms)
      && j.fields["last_facts"] == FactsToJson(r.lastFacts)
      && j.fields["sent_alerts"] == Array(SentToJsons(r.sentAlerts))
      && TextAt(j, "first_alert_at", FormatIso8601Utc(r.firstAlertAt))
      && TextAt(j, "last_alert_at", FormatIso8601Utc(r.lastAlertAt))
  {
    RecordFieldNames();
    ObjectHasMembers(MembersOf(r));
  }

  lemma FactsAreWritten(facts: LaunchFacts)
    ensures var j := FactsToJson(facts);
      && j.Object? && j.fields.Keys == {"launch_time", "precision", "status"}
      && j.fields["launch_time"]
         == (if facts.launchTime.None? then Null else String(FormatIso8601Utc(facts.launchTime.value)))
      && TextAt(j, "precision", PrecisionName(facts.precision)) && TextAt(j, "status", StatusName(facts.status))
  {
    DistinctSentFields();
  }

  lemma SentIsWritten(sent: SentAlert)
    ensures var j := SentToJson(sent);
      && j.Object? && j.fields.Keys == {"kind", "created_at", "reason"}
      && TextAt(j, "kind", KindName(sent.kind)) && TextAt(j, "created_at", FormatIso8601Utc(sent.createdAt))
      && j.fields["reason"] == (if sent.reason.None? then Null else String(ReasonName(sent.reason.value)))
  {
    DistinctSentFields();
  }

  lemma DocumentIsWritten(records: seq<AlertRecord>)
    ensures var j := DocumentJson(records);
      && j.Object? && j.fields.Keys == {"version", "records"} && j.fields["version"] == Number(1)
      && j.fields["records"].Array? && |j.fields["records"].items| == |records|
      && forall i :: 0 <= i < |records| ==> j.fields["records"].items[i] == RecordJson(records[i])
  {
    DistinctSentFields();
  }
}
