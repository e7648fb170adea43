/**
 Alert Record persistence: the records as a JSON value, and the records file
 that is replaced as a whole.

 Every effect on the machine asks for a verdict: it proceeds, it fails with an
 error, or the process dies before it. The verdicts of a run are a sequence of
 booleans, and the process dies where the sequence ends, so that "for every
 sequence of verdicts" ranges over every pattern of failures and every crash
 point. Only process crashes are meant: what was written stays written.
 */
module Storage {
  import opened Domain
  import opened KeyOrder
  import opened TimeUtils

  // ----- JSON values -----

  datatype Json =
    | Null
    | Boolean(value: bool)
    | Number(number: int)
    | String(text: string)
    | Array(items: seq<Json>)
    | Object(fields: map<string, Json>)

  /** Member access; a value without the member raises an exception. */
  function Field(j: Json, name: string): Option<Json> {
    if j.Object? && name in j.fields then Some(j.fields[name]) else None
  }

  function Text(j: Json): Option<string> {
    if j.String? then Some(j.text) else None
  }

  function TextField(j: Json, name: string): Option<string> {
    var field :- Field(j, name);
    Text(field)
  }

  /** What a loop over a JSON value visits: the items of an array, the values of
      an object in key order, nothing for null, and any other value itself. */
  function Elements(j: Json): seq<Json> {
    match j
    case Array(items) => items
    case Null => []
    case Object(fields) =>
      var keys := SortedKeys(fields.Keys);
      seq(|keys|, i requires 0 <= i < |keys| => if keys[i] in fields then fields[keys[i]] else Null)
    case _ => [j]
  }

  function Texts(items: seq<Json>): Option<seq<string>> {
    if items == [] then Some([]) else
      var before :- Texts(items[..|items| - 1]);
      var last :- Text(items[|items| - 1]);
      Some(before + [last])
  }

  // ----- timestamps -----

  function TimeToJson(time: Option<int>): Json {
    match time
    case None => Null
    case Some(t) => String(FormatIso8601Utc(t))
  }

  function OptionalTimeFromJson(j: Json): Option<Option<int>> {
    if j.Null? then Some(None) else
      var text :- Text(j);
      var t :- ParsedInstant(text);
      Some(Some(t))
  }

  function TimeFromJson(j: Json): Option<int> {
    var time :- OptionalTimeFromJson(j);
    time
  }

  // ----- records -----

  const KEY := "key"
  const SOURCE_NAME := "source_name"
  const SOURCE_LAUNCH_ID := "source_launch_id"
  const LAUNCH_NAME := "launch_name"
  const MATCHED_TERMS := "matched_terms"
  const LAST_FACTS := "last_facts"
  const LAUNCH_TIME := "launch_time"
  const PRECISION := "precision"
  const STATUS := "status"
  const SENT_ALERTS := "sent_alerts"
  const KIND := "kind"
  const CREATED_AT := "created_at"
  const REASON := "reason"
  const FIRST_ALERT_AT := "first_alert_at"
  const LAST_ALERT_AT := "last_alert_at"
  const VERSION := "version"
  const RECORDS := "records"
  const FILE_VERSION := 1

  function ReasonToJson(reason: Option<CorrectionReason>): Json {
    match reason
    case None => Null
    case Some(r) => String(ReasonName(r))
  }

  function SentToJson(sent: SentAlert): Json {
    Object(map[KIND := String(KindName(sent.kind)),
               CREATED_AT := TimeToJson(Some(sent.createdAt)),
               REASON := ReasonToJson(sent.reason)])
  }

  function FactsToJson(facts: LaunchFacts): Json {
    Object(map[LAUNCH_TIME := TimeToJson(facts.launchTime),
               PRECISION := String(PrecisionName(facts.precision)),
               STATUS := String(StatusName(facts.status))])
  }

  function SentToJsons(sent: seq<SentAlert>): seq<Json> {
    seq(|sent|, i requires 0 <= i < |sent| => SentToJson(sent[i]))
  }

  function TextsToJson(texts: seq<string>): seq<Json> {
    seq(|texts|, i requires 0 <= i < |texts| => String(texts[i]))
  }

  function RecordJson(record: AlertRecord): Json {
    Object(map[KEY := String(record.key),
               SOURCE_NAME := String(record.sourceName),
               SOURCE_LAUNCH_ID := String(record.sourceLaunchId),
               LAUNCH_NAME := String(record.launchName),
               MATCHED_TERMS := Array(TextsToJson(record.matchedTerms)),
               LAST_FACTS := FactsToJson(record.lastFacts),
               SENT_ALERTS := Array(SentToJsons(record.sentAlerts)),
               FIRST_ALERT_AT := TimeToJson(Some(record.firstAlertAt)),
               LAST_ALERT_AT := TimeToJson(Some(record.lastAlertAt))])
  }

  function SentReason(j: Json): Option<Option<CorrectionReason>> {
    match Field(j, REASON)
    case None => Some(None)
    case Some(reason) =>
      if reason.Null? then Some(None) else
        var text :- Text(reason);
        var named :- ReasonNamed(text);
        Some(Some(named))
  }

  function SentFromJson(j: Json): Option<SentAlert> {
    var kindText :- TextField(j, KIND);
    var kind :- KindNamed(kindText);
    var created :- Field(j, CREATED_AT);
    var createdAt :- TimeFromJson(created);
    var reason :- SentReason(j);
    Some(SentAlert(kind, createdAt, reason))
  }

  function SentFromJsons(items: seq<Json>): Option<seq<SentAlert>> {
    if items == [] then Some([]) else
      var before :- SentFromJsons(items[..|items| - 1]);
      var last :- SentFromJson(items[|items| - 1]);
      Some(before + [last])
  }

  function FactsFromJson(j: Json): Option<LaunchFacts> {
    var time :- Field(j, LAUNCH_TIME);
    var launchTime :- OptionalTimeFromJson(time);
    var precisionText :- TextField(j, PRECISION);
    var precision :- PrecisionNamed(precisionText);
    var statusText :- TextField(j, STATUS);
    var status :- StatusNamed(statusText);
    Some(LaunchFacts(launchTime, precision, status))
  }

  function TermsFromJson(j: Json): Option<seq<string>> {
    if j.Array? then Texts(j.items) else None
  }

  function RecordFrom(j: Json): Option<AlertRecord> {
    var facts :- Field(j, LAST_FACTS);
    var key :- TextField(j, KEY);
    var sourceName :- TextField(j, SOURCE_NAME);
    var sourceLaunchId :- TextField(j, SOURCE_LAUNCH_ID);
    var launchName :- TextField(j, LAUNCH_NAME);
    var terms :- Field(j, MATCHED_TERMS);
    var matchedTerms :- TermsFromJson(terms);
    var lastFacts :- FactsFromJson(facts);
    var sent :- Field(j, SENT_ALERTS);
    var sentAlerts :- SentFromJsons(Elements(sent));
    var first :- Field(j, FIRST_ALERT_AT);
    var firstAlertAt :- TimeFromJson(first);
    var last :- Field(j, LAST_ALERT_AT);
    var lastAlertAt :- TimeFromJson(last);
    Some(AlertRecord(key, sourceName, sourceLaunchId, launchName, matchedTerms, lastFacts, sentAlerts, firstAlertAt,
                     lastAlertAt))
  }

  function RecordsFrom(items: seq<Json>): Option<seq<AlertRecord>> {
    if items == [] then Some([]) else
      var before :- RecordsFrom(items[..|items| - 1]);
      var last :- RecordFrom(items[|items| - 1]);
      Some(before + [last])
  }

  function RecordJsons(records: seq<AlertRecord>): seq<Json> {
    seq(|records|, i requires 0 <= i < |records| => RecordJson(records[i]))
  }

  function DocumentJson(records: seq<AlertRecord>): Json {
    Object(map[VERSION := Number(FILE_VERSION), RECORDS := Array(RecordJsons(records))])
  }

  function RecordsOfDocument(j: Json): Option<seq<AlertRecord>> {
    var records :- Field(j, RECORDS);
    RecordsFrom(Elements(records))
  }

  // ----- the converters as they run -----

  method SentAlertsToJson(sent: seq<SentAlert>) returns (items: seq<Json>)
    ensures items == SentToJsons(sent)
  {
    items := [];
    for i := 0 to |sent|
      invariant |items| == i
      invariant forall j :: 0 <= j < i ==> items[j] == SentToJson(sent[j])
    {
      items := items + [SentToJson(sent[i])];
    }
  }

  method RecordToJson(record: AlertRecord) returns (j: Json)
    ensures j == RecordJson(record)
  {
    var sentAlerts := SentAlertsToJson(record.sentAlerts);
    j := Object(map[KEY := String(record.key),
                    SOURCE_NAME := String(record.sourceName),
                    SOURCE_LAUNCH_ID := String(record.sourceLaunchId),
                    LAUNCH_NAME := String(record.launchName),
                    MATCHED_TERMS := Array(TextsToJson(record.matchedTerms)),
                    LAST_FACTS := FactsToJson(record.lastFacts),
                    SENT_ALERTS := Array(sentAlerts),
                    FIRST_ALERT_AT := TimeToJson(Some(record.firstAlertAt)),
                    LAST_ALERT_AT := TimeToJson(Some(record.lastAlertAt))]);
  }

  method DocumentToJson(sorted: seq<AlertRecord>) returns (j: Json)
    ensures j == DocumentJson(sorted)
  {
    var entries: seq<Json> := [];
    for i := 0 to |sorted|
      invariant |entries| == i
      invariant forall j :: 0 <= j < i ==> entries[j] == RecordJson(sorted[j])
    {
      var entry := RecordToJson(sorted[i]);
      entries := entries + [entry];
    }
    assert entries == RecordJsons(sorted);
    j := Object(map[VERSION := Number(FILE_VERSION), RECORDS := Array(entries)]);
  }

  lemma {:induction false} SentFailsEarly(items: seq<Json>, n: nat)
    requires n <= |items| && SentFromJsons(items[..n]) == None
    ensures SentFromJsons(items) == None
    decreases |items| - n
  {
    if n < |items| {
      assert items[..n + 1][..n] == items[..n];
      SentFailsEarly(items, n + 1);
    } else {
      assert items[..n] == items;
    }
  }

  lemma {:induction false} RecordsFailEarly(items: seq<Json>, n: nat)
    requires n <= |items| && RecordsFrom(items[..n]) == None
    ensures RecordsFrom(items) == None
    decreases |items| - n
  {
    if n < |items| {
      assert items[..n + 1][..n] == items[..n];
      RecordsFailEarly(items, n + 1);
    } else {
      assert items[..n] == items;
    }
  }

  /** The loop over the entries of `sent_alerts`. */
  method ReadSentAlerts(items: seq<Json>) returns (r: Option<seq<SentAlert>>)
    ensures r == SentFromJsons(items)
  {
    var sentAlerts: seq<SentAlert> := [];
    for i := 0 to |items|
      invariant SentFromJsons(items[..i]) == Some(sentAlerts)
    {
      assert items[..i + 1][..i] == items[..i];
      var sent := SentFromJson(items[i]);
      if sent.None? {
        SentFailsEarly(items, i + 1);
        return None;
      }
      sentAlerts := sentAlerts + [sent.value];
    }
    assert items[..|items|] == items;
    return Some(sentAlerts);
  }

  /** The loop over the entries of `records`. */
  method ReadRecords(items: seq<Json>) returns (r: Option<seq<AlertRecord>>)
    ensures r == RecordsFrom(items)
  {
    var records: seq<AlertRecord> := [];
    for i := 0 to |items|
      invariant RecordsFrom(items[..i]) == Some(records)
    {
      assert items[..i + 1][..i] == items[..i];
      var record := RecordFromJson(items[i]);
      if record.None? {
        RecordsFailEarly(items, i + 1);
        return None;
      }
      records := records + [record.value];
    }
    assert items[..|items|] == items;
    return Some(records);
  }

  method RecordFromJson(j: Json) returns (r: Option<AlertRecord>)
    ensures r == RecordFrom(j)
  {
    var facts :- Field(j, LAST_FACTS);
    var key :- TextField(j, KEY);
    var sourceName :- TextField(j, SOURCE_NAME);
    var sourceLaunchId :- TextField(j, SOURCE_LAUNCH_ID);
    var launchName :- TextField(j, LAUNCH_NAME);
    var terms :- Field(j, MATCHED_TERMS);
    var matchedTerms :- TermsFromJson(terms);
    var lastFacts :- FactsFromJson(facts);
    var sent :- Field(j, SENT_ALERTS);
    var sentAlerts :- ReadSentAlerts(Elements(sent));
    var first :- Field(j, FIRST_ALERT_AT);
    var firstAlertAt :- TimeFromJson(first);
    var last :- Field(j, LAST_ALERT_AT);
    var lastAlertAt :- TimeFromJson(last);
    return Some(AlertRecord(key, sourceName, sourceLaunchId, launchName, matchedTerms, lastFacts, sentAlerts,
                            firstAlertAt, lastAlertAt));
  }

  // ----- effects -----

  datatype Verdict = Proceed | Fault | Crash

  function First(verdicts: seq<bool>): Verdict {
    if verdicts == [] then Crash else if verdicts[0] then Proceed else Fault
  }

  function Rest(verdicts: seq<bool>): seq<bool> {
    if verdicts == [] then [] else verdicts[1..]
  }

  /** What a file holds: text that is no JSON value, or the text of one. */
  datatype Content = Torn | Document(json: Json)

  /** The records file and the temporary file beside it. */
  datatype Disk = Disk(file: Option<Content>, tmp: Option<Content>)

  datatype SaveRun = SaveRun(disk: Disk, status: Verdict, rest: seq<bool>)

  function Cleanup(disk: Disk, verdicts: seq<bool>): SaveRun {
    match First(verdicts)
    case Crash => SaveRun(disk, Crash, [])
    case Fault => SaveRun(disk, Fault, Rest(verdicts))
    case Proceed => SaveRun(disk.(tmp := None), Fault, Rest(verdicts))
  }

  function SaveRename(disk: Disk, verdicts: seq<bool>): SaveRun {
    match First(verdicts)
    case Crash => SaveRun(disk, Crash, [])
    case Fault => Cleanup(disk, Rest(verdicts))
    case Proceed => SaveRun(Disk(disk.tmp, None), Proceed, Rest(verdicts))
  }

  function SaveClose(disk: Disk, json: Json, written: bool, verdicts: seq<bool>): SaveRun {
    match First(verdicts)
    case Crash => SaveRun(disk, Crash, [])
    case Fault => Cleanup(disk, Rest(verdicts))
    case Proceed =>
      if written then SaveRename(disk.(tmp := Some(Document(json))), Rest(verdicts))
      else Cleanup(disk, Rest(verdicts))
  }

  function SaveWrite(disk: Disk, json: Json, verdicts: seq<bool>): SaveRun {
    match First(verdicts)
    case Crash => SaveRun(disk, Crash, [])
    case v => SaveClose(disk, json, v.Proceed?, Rest(verdicts))
  }

  function SaveOpen(disk: Disk, json: Json, verdicts: seq<bool>): SaveRun {
    match First(verdicts)
    case Crash => SaveRun(disk, Crash, [])
    case Fault => Cleanup(disk, Rest(verdicts))
    case Proceed => SaveWrite(disk.(tmp := Some(Torn)), json, Rest(verdicts))
  }

  /** The steps of a save: create the directory, open the temporary file, write,
      close, rename; on an error, remove the temporary file and report it. */
  function SaveSteps(disk: Disk, json: Json, hasParent: bool, verdicts: seq<bool>): SaveRun {
    if !hasParent then SaveOpen(disk, json, verdicts)
    else
      match First(verdicts)
      case Crash => SaveRun(disk, Crash, [])
      case Fault => Cleanup(disk, Rest(verdicts))
      case Proceed => SaveOpen(disk, json, Rest(verdicts))
  }

  /** What reading the records file gives; `None` is a storage error. */
  function Loaded(file: Option<Content>): Option<seq<AlertRecord>> {
    match file
    case None => Some([])
    case Some(Torn) => None
    case Some(Document(json)) => RecordsOfDocument(json)
  }

  datatype LoadStatus = Records(records: seq<AlertRecord>) | StorageError | Died

  datatype LoadRun = LoadRun(status: LoadStatus, rest: seq<bool>)

  /** The steps of a load. An error while looking for the file is not caught. */
  function LoadSteps(file: Option<Content>, verdicts: seq<bool>): LoadRun {
    if !First(verdicts).Proceed? then LoadRun(Died, Rest(verdicts))
    else if file.None? then LoadRun(Records([]), Rest(verdicts))
    else
      match First(Rest(verdicts))
      case Crash => LoadRun(Died, [])
      case Fault => LoadRun(StorageError, Rest(Rest(verdicts)))
      case Proceed =>
        match Loaded(file)
        case None => LoadRun(StorageError, Rest(Rest(verdicts)))
        case Some(records) => LoadRun(Records(records), Rest(Rest(verdicts)))
  }

  // ----- the store -----

  /** The machine: its files, and the verdicts that its effects meet. */
  class Machine {
    var files: map<string, Content>
    var verdicts: seq<bool>

    constructor (files: map<string, Content>, verdicts: seq<bool>)
      ensures this.files == files && this.verdicts == verdicts
    {
      this.files := files;
      this.verdicts := verdicts;
    }

    /** One effect asks how it ends. */
    method Attempt() returns (v: Verdict)
      modifies this`verdicts
      ensures v == First(old(verdicts)) && verdicts == Rest(old(verdicts))
    {
      if verdicts == [] {
        return Crash;
      }
      v := if verdicts[0] then Proceed else Fault;
      verdicts := verdicts[1..];
    }
  }

  function ContentAt(files: map<string, Content>, path: string): Option<Content> {
    if path in files then Some(files[path]) else None
  }

  function SortByKey(records: seq<AlertRecord>): seq<AlertRecord> {
    if records == [] then [] else InsertByKey(SortByKey(records[..|records| - 1]), records[|records| - 1])
  }

  function InsertByKey(sorted: seq<AlertRecord>, record: AlertRecord): seq<AlertRecord> {
    if sorted == [] || !Below(record.key, sorted[|sorted| - 1].key) then sorted + [record]
    else InsertByKey(sorted[..|sorted| - 1], record) + [sorted[|sorted| - 1]]
  }

  class JsonAlertRecordStore {
    const path: string
    const machine: Machine

    constructor (path: string, machine: Machine)
      ensures this.path == path && this.machine == machine
    {
      this.path := path;
      this.machine := machine;
    }

    function TmpPath(): string {
      path + ".tmp"
    }

    predicate HasParent() {
      '/' in path
    }

    function OnDisk(): Disk
      reads machine
    {
      Disk(ContentAt(machine.files, path), ContentAt(machine.files, TmpPath()))
    }

    /** Every file but the records file and its temporary file. */
    function Elsewhere(): map<string, Content>
      reads machine
    {
      machine.files - {path, TmpPath()}
    }

    method Load() returns (status: LoadStatus)
      modifies machine`verdicts
      ensures LoadRun(status, machine.verdicts) == LoadSteps(old(OnDisk().file), old(machine.verdicts))
    {
      var looking := machine.Attempt();
      if !looking.Proceed? {
        return Died;
      }
      if path !in machine.files {
        return Records([]);
      }
      var reading := machine.Attempt();
      if reading.Crash? {
        return Died;
      } else if reading.Fault? || machine.files[path].Torn? {
        return StorageError;
      }
      var data := Field(machine.files[path].json, RECORDS);
      if data.None? {
        return StorageError;
      }
      var records := ReadRecords(Elements(data.value));
      if records.None? {
        return StorageError;
      }
      return Records(records.value);
    }

    /** Replaces the records file. Equal keys would stand in the order given, but
        no two of the records that a cycle saves have equal keys. */
    method Save(records: seq<AlertRecord>) returns (status: Verdict)
      modifies machine
      ensures SaveRun(OnDisk(), status, machine.verdicts)
        == SaveSteps(old(OnDisk()), DocumentJson(SortByKey(records)), '/' in path, old(machine.verdicts))
      ensures Elsewhere() == old(Elsewhere())
      ensures forall p :: p != path && p != path + ".tmp" ==>
        ContentAt(machine.files, p) == old(ContentAt(machine.files, p))
    {
      var sorted := SortByKey(records);
      var payload := DocumentToJson(sorted);
      TmpPathIsAnother();
      status := WriteAndReplace(payload);
      if status.Fault? {
        var removed := machine.Attempt();
        if removed.Crash? {
          status := Crash;
        } else if removed.Proceed? {
          RemoveTmp();
        }
      }
      forall p | p != path && p != path + ".tmp"
        ensures ContentAt(machine.files, p) == old(ContentAt(machine.files, p))
      {
        assert ContentAt(Elsewhere(), p) == old(ContentAt(Elsewhere(), p));
      }
    }

    lemma TmpPathIsAnother()
      ensures TmpPath() != path
    {
      assert |TmpPath()| == |path| + 4;
    }

    method WriteTmp(content: Content)
      requires TmpPath() != path
      modifies machine`files
      ensures OnDisk() == old(OnDisk()).(tmp := Some(content))
      ensures Elsewhere() == old(Elsewhere())
    {
      machine.files := machine.files[TmpPath() := content];
    }

    method RemoveTmp()
      requires TmpPath() != path
      modifies machine`files
      ensures OnDisk() == old(OnDisk()).(tmp := None)
      ensures Elsewhere() == old(Elsewhere())
    {
      machine.files := machine.files - {TmpPath()};
    }

    /** The guarded part of a save, up to and including the rename; `Fault` is the
        exception that its handler catches. */
    method WriteAndReplace(payload: Json) returns (status: Verdict)
      requires TmpPath() != path
      modifies machine
      ensures var run := SaveSteps(old(OnDisk()), payload, HasParent(), old(machine.verdicts));
        run ==
        if status.Fault? then Cleanup(OnDisk(), machine.verdicts)
        else SaveRun(OnDisk(), status, machine.verdicts)
      ensures Elsewhere() == old(Elsewhere())
    {
      status := OpenTmp(payload);
      if status.Proceed? {
        status := FillAndReplace(payload);
      }
    }

    /** Fills the open temporary file and puts it in place. */
    method FillAndReplace(payload: Json) returns (status: Verdict)
      requires TmpPath() != path
      modifies machine
      ensures SaveWrite(old(OnDisk()), payload, old(machine.verdicts)) ==
        if status.Fault? then Cleanup(OnDisk(), machine.verdicts) else SaveRun(OnDisk(), status, machine.verdicts)
      ensures Elsewhere() == old(Elsewhere())
    {
      status := WriteAndClose(payload);
      if status.Proceed? {
        status := Replace();
      }
    }

    /** Tries the rename. */
    method Replace() returns (status: Verdict)
      requires TmpPath() in machine.files && TmpPath() != path
      modifies machine
      ensures SaveRename(old(OnDisk()), old(machine.verdicts)) ==
        if status.Fault? then Cleanup(OnDisk(), machine.verdicts) else SaveRun(OnDisk(), status, machine.verdicts)
      ensures Elsewhere() == old(Elsewhere())
    {
      status := machine.Attempt();
      if status.Proceed? {
        ReplaceFile();
      }
    }

    /** Creates the directory if the path names one, and opens an empty temporary
        file, for `payload` to be written to. */
    method OpenTmp(ghost payload: Json) returns (status: Verdict)
      requires TmpPath() != path
      modifies machine
      ensures SaveSteps(old(OnDisk()), payload, HasParent(), old(machine.verdicts)) ==
        match status
        case Crash => SaveRun(OnDisk(), Crash, machine.verdicts)
        case Fault => Cleanup(OnDisk(), machine.verdicts)
        case Proceed => SaveWrite(OnDisk(), payload, machine.verdicts)
      ensures Elsewhere() == old(Elsewhere())
    {
      if HasParent() {
        status := machine.Attempt();
        if !status.Proceed? {
          return;
        }
      }
      status := machine.Attempt();
      if status.Proceed? {
        WriteTmp(Torn);
      }
    }

    /** Writes to the open temporary file and closes it; a failed write shows when
        the file is closed. */
    method WriteAndClose(payload: Json) returns (status: Verdict)
      requires TmpPath() != path
      modifies machine
      ensures SaveWrite(old(OnDisk()), payload, old(machine.verdicts)) ==
        match status
        case Crash => SaveRun(OnDisk(), Crash, machine.verdicts)
        case Fault => Cleanup(OnDisk(), machine.verdicts)
        case Proceed => SaveRename(OnDisk(), machine.verdicts)
      ensures status.Proceed? ==> OnDisk().tmp == Some(Document(payload))
      ensures Elsewhere() == old(Elsewhere())
    {
      var written := machine.Attempt();
      if written.Crash? {
        return Crash;
      }
      status := machine.Attempt();
      if !status.Proceed? {
        return;
      }
      if written.Fault? {
        return Fault;
      }
      WriteTmp(Document(payload));
    }

    /** The rename. */
    method ReplaceFile()
      requires TmpPath() in machine.files && TmpPath() != path
      modifies machine`files
      ensures OnDisk() == Disk(old(OnDisk()).tmp, None)
      ensures Elsewhere() == old(Elsewhere())
    {
      machine.files := (machine.files - {TmpPath()})[path := machine.files[TmpPath()]];
    }
  }
}
