# Rocket Launch Notifier: a verified model of the Watcher

The Watcher polls a launch schedule, decides for each relevant launch whether
an alert is due, remembers its decisions in a records file of Alert Records,
and only then notifies the recipients. This project models that Watcher and
proves what it promises over whole runs: cycle after cycle, with failures of
every effect and the death of the process allowed between any two of them.

`dafny verify dfyconfig.toml` checks everything.

## How it is put together

| file | what it holds |
|---|---|
| `Domain.dfy` | launches, alerts, Alert Records, policy, enumeration names |
| `KeyOrder.dfy` | the order of keys, records as a list and as a map |
| `Relevance.dfy`, `RelevanceLaws.dfy` | which launches are considered, character by character |
| `Core.dfy` | the decision per launch, the fold over a feed, the cycle's decision loop |
| `CoreLaws.dfy` | laws of one cycle |
| `KeyRuns.dfy` | whole runs as seen from one launch |
| `Calendar.dfy`, `TimeUtils.dfy`, `TimeLaws.dfy` | civil dates, the timestamp codec, its laws |
| `TimeGrammar.dfy` | the accepted timestamps, for every text |
| `Storage.dfy`, `StorageLaws.dfy` | Alert Records as JSON values, the store, its laws |
| `Formatting.dfy`, `MessageLaws.dfy` | alerts as messages, what each message shows |
| `Orchestration.dfy` | one cycle and the watch loop |
| `WatchRuns.dfy` | whole runs with failures and crashes |
| `CycleLaws.dfy` | how a cycle ends, case by case; what a run forgets |
| `Loadability.dfy` | which runs keep the records file loadable |
| `Guarantees.dfy` | the end-to-end guarantees |

Code that changes things step by step is a method here, proved equal to a
function of its inputs or of the state before it: the loops of `DecideCycle`,
`ParseRest`, `ReadRecords`, `SendNotifications`, `RunCycle` and `CommandWatch`,
and the classes `JsonAlertRecordStore` and `NotificationChannel` over a
`Machine` that holds the files. The laws are then proved about those functions, in terms
of their own: thresholds, units, offsets, member names and the words of messages are
written out in the laws.

**Failures and crashes.** Each effect (fetch, look for the file, read, make the
directory, open, write, close, rename, remove, send) takes one verdict from a
sequence of booleans: proceed or fail. Where the sequence ends the process
dies. A theorem for every sequence of verdicts is therefore a theorem for every
pattern of failures with a crash between any two effects. A run is any list of
cycles; after a death the next cycle belongs to a new process that starts from
the files. Process crashes only: the program does not flush to the device, so
nothing is claimed about power loss.

**A run seen from one launch.** `WatchRuns.RunView` proves that for each key a
run is a per-key run in which a failed or cut cycle is simply lost. The record
invariants, the rate bound, the retention gap and the no-missed-launch argument
are proved on per-key runs (`KeyRuns`) and carried back to the records file and
the messages by `Guarantees`.

**The record language** (`KeyRuns.WellFormed`). A record's list of sent alerts is
not empty and starts with a countdown alert; it has each countdown kind at most
once and no Launch Soon after Launch Imminent; a reason stands exactly on
corrections; no two adjacent corrections say no-go, and no two say that timing
is now imprecise; times do not decrease, and the first and last are the record's
first and last alert times. The last facts are no-go exactly if the last entry
is a no-go correction and go otherwise, and have what the last entry needs.

## What turned out different from what one might expect

- The header comment on parsing (`include/rocket_watcher/time_utils.hpp:15-18`)
  promises that a text that is no valid timestamp is rejected. The scanner lets
  more through: fields shorter than their columns, white space and signs inside
  them, offset hours over 23 and minutes over 59, and anything behind a NUL; and only upper
  bounds of the clock are tested (`src/time_utils.cpp:107`).
  `TimeGrammar.AcceptedExactly` gives the accepted language for every text;
  `TimeGrammar.AcceptanceIsValidity` says for which texts acceptance and validity
  agree, by a condition on the columns of the text and the value of its offset;
  `NegativeHourIsAccepted`, `WideOffsetIsAccepted`, `ShortFieldsAreAccepted` and
  `TextAfterNulIsAccepted` are inputs at which they do not.
- Writing and reading a timestamp are inverse for the years -999 to 9999 and no
  others: a longer year is cut by `%4d`. One record outside that range makes the
  whole file unloadable (`StorageLaws.DocumentRoundTrip`). The parser itself yields
  such an instant, from "9999-12-31T23:59:59-00:01"
  (`Loadability.FarTimestampIsAccepted`), and a time correction puts it on record
  (`Loadability.FarLaunchIsRecorded`). From then on no cycle of any process commits or
  sends anything (`Loadability.UnloadableForever`).
  `Loadability.DecisionIsWritableIff` says exactly which cycles keep the records
  loadable, and `Loadability.LoadableForever` that the file stays loadable, whatever
  fails, while clocks and launch times have years of four columns.
- One cycle does not always settle a feed. A launch that moved is corrected, and a
  countdown alert that it is also due for waits for the next cycle
  (`CoreLaws.CorrectionThenCountdown`); and a countdown alert that an expired
  record suppressed is raised in the cycle after the record was pruned.
  `CoreLaws.SettlesAtOnceIff` shows that these are the only causes, for every
  distinct-key feed. Two cycles always suffice for such a feed
  (`CoreLaws.Quiescence`). A feed that lists one key twice, with launch times a
  correction shift apart, may never settle: `CoreLaws.RepeatedKeySettlesIff` says that
  some number of cycles is enough if and only if neither listing stirs the record of
  the key, nor the empty slot that the record leaves if it expires; otherwise every
  cycle from the third on corrects the key twice (`CoreLaws.UnsettledIsNeverQuiet`).
- An expired record still suppresses in the cycle that drops it, because pruning
  comes after deciding; `CoreLaws.CycleAnswers` names that case.
- `CONTEXT.md:112` lists changes of relevance among the causes of a correction.
  There is no such correction: `CoreLaws.LostRelevanceIsNotCorrected` is an announced
  launch that stops matching and moves by a day, and nothing is said.
  `CoreLaws.ListingCorrectsIff` says exactly when a listing is corrected, and
  `CoreLaws.IrrelevantKeyIsLeftAlone` what happens to a key that is listed
  irrelevantly only.
- `README.md:56` says that imprecise or unknown timing and ended or unknown status
  are silent. An imprecise launch that has been announced is corrected when its
  facts are outdated, also by a time correction while it stays imprecise
  (`CoreLaws.UntimedLaunchIsCorrected`). `CoreLaws.SilentIff` says exactly when such
  a launch is silent.

## Model

| member | source | states |
|---|---|---|
| Domain.PrecisionNamed | src/domain.cpp:65-71 | parsing a precision name is the exact inverse of printing it, name by name; any other text is an error |
| Domain.StatusNamed | src/domain.cpp:73-79 | the same for launch statuses |
| Domain.KindNamed | src/domain.cpp:81-87 | the same for alert kinds |
| Domain.ReasonNamed | src/domain.cpp:89-94 | the same for correction reasons |
| Relevance.CollectSearchableFields | src/domain.cpp:96-103 | the loop collects the non-empty searchable fields in order |
| Relevance.EvaluateRelevance | src/relevance.cpp:11-41 | an exception for no include terms; otherwise the matched terms are the in-order matches, and the launch is relevant exactly if there are any |
| Relevance.MatchingTermsAreTheMatches | src/relevance.cpp:29-36 | a term is matched exactly if it is configured and occurs, case-insensitively, in a searchable field |
| Relevance.RelevantIff | src/relevance.cpp:17-40 | a launch has matched terms exactly if its provider matches and some configured term occurs |
| Relevance.TrimDropsOuterSpace | src/strings.cpp:16-21 | trimming drops exactly the white space at both ends |
| RelevanceLaws.SameButCaseIff | src/strings.cpp:9-14 | two texts are lower-cased alike if and only if they differ at most in the case of ASCII letters |
| RelevanceLaws.SameProviderIff | src/relevance.cpp:17 | the provider matches if and only if what is left of both names without the white space around them is the same up to case |
| RelevanceLaws.MentionsIff | src/relevance.cpp:24-34 | a term matches if and only if it stands somewhere in the name, the mission's name or description or the pad's name, letter by letter up to case |
| RelevanceLaws.ReportedIff | src/relevance.cpp:11-41 | a term is reported if and only if the provider is the configured one, the term is configured and the launch mentions it, all told character by character |
| RelevanceLaws.ReportedInOrder | src/relevance.cpp:29-36 | what is reported for two lists of terms, one after the other, is what is reported for each; with `ReportedAlone` this fixes order and repetitions |
| KeyOrder.BelowIff | src/core.cpp:164-165 | the key order: at the first difference the smaller character decides, and a proper prefix is below |
| KeyOrder.MapOfFirst | src/core.cpp:164-165 | of several records with one key the first is the one looked up |
| Core.Decision | src/core.cpp:160-191 | the decided records are in strict key order and are, as a map, the folded records within retention |
| Core.DecideCycle | src/core.cpp:160-191 | the loops over records, feed and record map compute exactly the decision, or raise the exception for missing include terms |
| Core.RetainInOrder | src/core.cpp:185-189 | visiting the record map keeps exactly the retained records, in key order |
| CoreLaws.PerKeyRefinement | src/core.cpp:168-183 | what a feed does to a key is the per-key step function on that key's record and that key's sightings, repeated keys included |
| CoreLaws.CyclePerKey | src/core.cpp:160-191 | the same for a whole cycle with pruning |
| CoreLaws.KeptIsYoung | src/core.cpp:185-189 | no record that a cycle keeps was last alerted more than the retention ago |
| CoreLaws.SilentRecordIsKeptIff | src/core.cpp:185-189 | a record without an alert in this cycle is kept as it is if it was last alerted at most the retention ago, and dropped otherwise |
| CoreLaws.AlertsAreConserved | src/core.cpp:132-189 | per key, the alerts of a cycle are exactly what is appended to the record, which then tells what the last alert told, keeps its identity and is not pruned; other records are unchanged or pruned for age |
| CoreLaws.DistinctFeedIsPointwise | src/core.cpp:168-183 | with distinct keys every launch is decided against the records before the cycle |
| CoreLaws.OrderIndependence | src/core.cpp:160-191 | permuting a distinct-key feed leaves the records identical and permutes the decisions the same way |
| CoreLaws.CycleDiscloses | src/core.cpp:58-92 | after a cycle, a surviving record of the last relevant listing of a key is within the correction shift of a go launch's time, is untimed if a go launch is, and says no-go for a no-go launch |
| CoreLaws.FoldIsJustified | src/core.cpp:46-130 | every alert of a cycle is about a relevant launch of the feed that is due for that countdown then, or corrects facts that are outdated in the way its reason says |
| CoreLaws.CycleAnswers | src/core.cpp:102-128 | a relevant launch that is due for a countdown alert is answered for: the record remembers that alert, a more urgent one, or a correction of this cycle; or the record before the cycle did and was just pruned |
| CoreLaws.KeySettles | src/core.cpp:46-156 | for one launch, the third identical look decides nothing and prunes nothing |
| CoreLaws.Quiescence | src/core.cpp:160-191 | from any records, the third cycle with the same distinct-key feed and clock emits nothing and returns its records unchanged |
| CoreLaws.CorrectedIff | src/core.cpp:58-92 | a relevant launch is corrected if and only if it has a record and the record's facts are outdated by some reason |
| CoreLaws.ReasonIff | src/core.cpp:58-92 | an alert gives reason `r` if and only if the record exists, its facts are outdated in that way and, for a changed time, not also by timing now imprecise; it then quotes these facts |
| CoreLaws.FoldGivesReasons | src/core.cpp:58-92 | every correction of a feed gives the one such reason for the facts it quotes |
| CoreLaws.CountdownKindIff | src/core.cpp:102-129 | a countdown alert of kind `k` is raised if and only if the launch is due for `k`, the record does not cover it, and nothing in the record is outdated |
| CoreLaws.ConfiguredCountdown | src/config.cpp:47-55 | the same with the thresholds in the minutes and hours of the configuration file |
| CoreLaws.ConfiguredShift | src/config.cpp:47-55 | a moved launch time is corrected exactly from the configured minutes on |
| CoreLaws.ListingCorrectsIff | src/core.cpp:168-183 | any listing raises a correction if and only if it is relevant, has a record and the record's facts are outdated |
| CoreLaws.SilentIff | README.md:56 | a launch whose status or timing is not alertable is silent if and only if it has no record or nothing in the record is outdated |
| CoreLaws.UntimedLaunchIsCorrected | src/core.cpp:83-91 | an imprecise launch that was imprecise when last told gets a time correction when it has moved |
| CoreLaws.IrrelevantKeyIsLeftAlone | src/core.cpp:170-174 | a key that is listed irrelevantly only gets no alert, and its record is kept or pruned for age |
| CoreLaws.LostRelevanceIsNotCorrected | CONTEXT.md:112 | a concrete announced launch that stops matching and moves by a day: the next cycle says nothing |
| CoreLaws.KeySettlesAtOnceIff | src/core.cpp:46-156 | for one launch, the second identical look decides nothing if and only if no countdown alert is left over by a time correction or by an expired record |
| CoreLaws.SettlesAtOnceIff | src/core.cpp:160-191 | the second cycle with the same distinct-key feed and clock changes nothing if and only if no relevant launch has a countdown alert left over |
| CoreLaws.CorrectionThenCountdown | src/core.cpp:83-128 | a moved launch that is due for any countdown alert its record does not cover is corrected, and gets that alert at the next look |
| CoreLaws.CorrectedTwice | src/core.cpp:168-183 | two opposed listings of one key are both corrected, and the record ends as it began |
| CoreLaws.RepeatedKeyNeverSettles | src/core.cpp:160-191 | from a record that tells the second of two listings of one key a shift apart, every one of any number of cycles raises two time corrections for it |
| CoreLaws.DecidedIff | src/core.cpp:46-130 | a sighting raises an alert if and only if it stirs the record: it outdates it, or a countdown alert is owed |
| CoreLaws.SilentSightingsIff | src/core.cpp:168-183 | any number of sightings of a key raises nothing if and only if none of them stirs the record before the cycle |
| CoreLaws.SilentCycleIff | src/core.cpp:160-191 | for every feed, repeated keys included, a cycle raises no alert if and only if no relevant listing stirs the record its key had before |
| CoreLaws.UnsettledIsNeverQuiet | src/core.cpp:160-191 | a key listed twice a shift apart that is unsettled is corrected twice in every cycle from the third on |
| CoreLaws.RepeatedKeySettlesIff | src/core.cpp:160-191 | a key listed twice a shift apart falls silent after some number of cycles if and only if neither listing stirs its record, nor the empty slot if the record expires in the first cycle |
| CoreLaws.SkippingTheSaveIsExact | src/orchestration.cpp:76-88 | without alerts, equal sizes mean the decided records are a permutation of the loaded ones (equal if those were in key order), and sizes differ exactly if a key repeated or a record was pruned |
| KeyRuns.UpdateKeepsWellFormed | src/core.cpp:132-156 | rewriting a record with a decided alert keeps the record language |
| KeyRuns.RunKeepsGood | src/core.cpp:46-189 | over every run with a clock that does not go back: the record obeys the record language, is the tail of the ledger of alerts, suppressed alerts are spaced, corrections quote the alert before them |
| KeyRuns.RetentionGap | src/core.cpp:107-128 | two alerts of one countdown kind, or Launch Soon after Launch Imminent, are more than the retention apart |
| KeyRuns.CorrectionsArePaidFor | src/core.cpp:69-92 | shift times time corrections is at most the total variation of the launch times seen; corrections are at most the fact changes seen; whatever the clock does and whichever cycles are lost |
| KeyRuns.CorrectionsQuoteTheLastAlert | src/core.cpp:29-39 | each committed correction quotes the facts of the alert right before it and reports different ones, whatever the clock does and whichever cycles are lost |
| KeyRuns.LostCyclesAreNothing | src/orchestration.cpp:24-88 | a run is the run of its committed cycles |
| KeyRuns.NoMissedLaunch | src/core.cpp:102-121 | frequent polls until launch raise exactly one Launch Soon in its window, then exactly one Launch Imminent in its window, and nothing else |
| KeyRuns.NoMissedHour | src/core.cpp:123-129 | for a launch precise to the hour, polls at most two hours apart that go on into its window raise exactly one alert, inside the window |
| KeyRuns.RunDiscloses | src/core.cpp:58-92 | over every run, a record tells facts that are disclosed for the last launch a committed cycle saw |
| Calendar.DateRoundTrip | src/time_utils.cpp:19-28 | every day has a valid proleptic Gregorian date that gives the day back |
| Calendar.DayRoundTrip | src/time_utils.cpp:104-108 | every valid date is the date of its day |
| Calendar.DateOfFollowsTheCalendar | src/time_utils.cpp:19-28 | the date of the next day is the next date by month lengths and leap years |
| Calendar.EpochDate | src/time_utils.cpp:30-32 | day 0 is 1970-01-01, which with the row above fixes every date |
| Calendar.MonthLengths | src/time_utils.cpp:104-108 | 31, 30, 28 or 29 days; February has 29 in every fourth year, of the centuries in every fourth only |
| Calendar.FourCenturies | src/time_utils.cpp:104-108 | the same date 400 years later is 146097 days later |
| Calendar.SplitRoundTrip | src/time_utils.cpp:30-32 | the UTC fields of an instant are a valid date and time of day that denote the instant |
| TimeUtils.ParseIso8601 | src/time_utils.cpp:72-111 | the parser with its cursor computes the denoted instant or rejects |
| TimeUtils.ParseRest | src/time_utils.cpp:84-91 | the digit loop skips a whole fraction and rejects a bare point |
| TimeUtils.ParseEnd | src/time_utils.cpp:93-111 | offset, end of text, and range tests as the parser makes them |
| TimeLaws.TimestampMeaning | src/time_utils.cpp:72-111 | any text that shows a wall clock in its columns, with any fraction and any offset form, denotes the wall clock less the offset, or is rejected exactly if its date or an upper limit fails |
| TimeLaws.TimestampShows | src/time_utils.cpp:64-70 | the printing of a wall clock, fraction and offset shows them |
| TimeLaws.ShownIsTimestamp | src/time_utils.cpp:64-70 | a text that shows them is their printing |
| TimeGrammar.ScanReads | src/time_utils.cpp:80-83 | what a successful number scan has read: white space, perhaps a sign, and as many digits as there are or fit |
| TimeGrammar.ReadIsScanned | src/time_utils.cpp:80-83 | such a number in the text is what the scan gives |
| TimeGrammar.AcceptedExactly | src/time_utils.cpp:72-111 | for every text: it denotes an instant if and only if the grammar of readings has a reading of it that does |
| TimeGrammar.AcceptanceIsValidity | include/rocket_watcher/time_utils.hpp:15-18 | for every text: it is accepted if and only if it is a timestamp, exactly when it cannot be read at all or has digits in all columns, offset hours up to 23 and minutes up to 59, and no NUL; every timestamp is accepted |
| TimeGrammar.NegativeHourIsAccepted | src/time_utils.cpp:107 | a concrete text with hour -1 that is accepted and is no timestamp |
| TimeGrammar.WideOffsetIsAccepted | src/time_utils.cpp:44-60 | a concrete text with offset +99:99 that is accepted and is no timestamp |
| TimeGrammar.ShortFieldsAreAccepted | src/time_utils.cpp:80-83 | a concrete text with one-digit fields that is accepted and is no timestamp |
| TimeGrammar.TextAfterNulIsAccepted | src/time_utils.cpp:80-102 | anything behind a NUL is ignored, so the text is no timestamp but is read like the part before |
| TimeLaws.OffsetCorrect | src/time_utils.cpp:44-60 | a text showing a wall clock that reads an instant at an offset, in every accepted offset form and with any fraction, parses to that instant |
| TimeLaws.OffsetArithmetic | src/time_utils.cpp:44-60 | for every shown wall clock with `w` seconds, any fraction and both colon forms: `+h:m` parses to `w - 3600 h - 60 m`, `-h:m` to `w + 3600 h + 60 m`, and either is rejected exactly if the date or clock does not exist |
| TimeLaws.UtcArithmetic | src/time_utils.cpp:94-102 | `Z`, `z` and no offset parse to `w` |
| TimeLaws.TwoDigits | src/time_utils.cpp:64-70 | which two characters stand for 0 to 99 |
| TimeLaws.FourDigits | src/time_utils.cpp:64-70 | which four characters stand for the years 0 to 9999 |
| TimeLaws.RendersIff | src/time_utils.cpp:108-110 | a wall clock reads an instant at an offset exactly if its seconds are the instant plus the offset |
| TimeLaws.RenderedIsParsed | src/time_utils.cpp:44-60 | the wall clock of an instant at an offset, printed with any fraction and that offset in any form, parses to the instant if the year shown has four columns |
| TimeLaws.ParseSuffixText | src/time_utils.cpp:93-102 | every accepted offset form is consumed to the end of the text with its value |
| TimeLaws.TimestampRoundTrip | src/time_utils.cpp:64-111 | parsing what was formatted gives the instant exactly for the years -999 to 9999, and is rejected for any other |
| Storage.SentAlertsToJson | src/storage.cpp:38-45 | the loop writes each sent alert in order |
| Storage.DocumentToJson | src/storage.cpp:116-119 | the JSON value of the file |
| Storage.ReadSentAlerts | src/storage.cpp:77-85 | the loop reads all sent alerts or raises an exception at the first bad one |
| Storage.ReadRecords | src/storage.cpp:103-107 | the loop reads all records or raises an exception at the first bad one |
| Storage.JsonAlertRecordStore.Load | src/storage.cpp:95-111 | the load takes the steps and meets the verdicts that `StorageLaws.LoadExactly` speaks of; no file is changed |
| Storage.JsonAlertRecordStore.Save | src/storage.cpp:113-145 | the file system after every prefix of the steps and every failure; nothing but the records file and its temporary file is touched |
| Storage.JsonAlertRecordStore.OpenTmp | src/storage.cpp:125-132 | directory and temporary file, with the exception when either fails |
| Storage.JsonAlertRecordStore.WriteAndClose | src/storage.cpp:133-137 | the write and the close; a failed write shows when the file is closed |
| Storage.JsonAlertRecordStore.WriteAndReplace | src/storage.cpp:124-139 | the guarded part, with the exception its handler catches |
| Storage.JsonAlertRecordStore.ReplaceFile | src/storage.cpp:147-150 | the rename moves the temporary file over the records file in one step |
| StorageLaws.RecordRoundTrip | src/storage.cpp:37-89 | reading back a written record gives the record if its timestamps are in range, an exception otherwise |
| StorageLaws.DocumentRoundTrip | src/storage.cpp:95-120 | a written document loads as the same records exactly if every timestamp is in range, and does not load at all otherwise |
| StorageLaws.RecordFromIff | src/storage.cpp:64-89 | exactly which JSON values are read as a record, member by member under the names in the file; any other is an exception |
| StorageLaws.LoadedIff | src/storage.cpp:95-111 | a file gives no records if and only if it is no JSON, has no member `records`, or has an entry that is read as no record |
| StorageLaws.LoadExactly | src/storage.cpp:95-111 | what a load reports for every file and all verdicts: no file means no records, a failed read or such a file is a storage error and never records |
| StorageLaws.ElementsAre | src/storage.cpp:104 | what a loop over a JSON value visits: the items of a list, the values of an object by ascending names, nothing for null, else the value |
| StorageLaws.RecordIsWritten | src/storage.cpp:46-61 | the names and values of the members written for a record |
| StorageLaws.FactsAreWritten | src/storage.cpp:52-57 | the same for the last facts |
| StorageLaws.SentIsWritten | src/storage.cpp:38-45 | the same for a sent alert |
| StorageLaws.DocumentIsWritten | src/storage.cpp:116-119 | version 1 and one entry for each record, in order |
| StorageLaws.SortIsCanonical | src/storage.cpp:114-115 | the sort gives the one ascending list of the same records and is the identity on ascending lists, such as every decided list |
| StorageLaws.SortKeepsRecords | src/storage.cpp:114-115 | the sort permutes |
| StorageLaws.SaveIsAtomic | src/storage.cpp:124-149 | a save succeeds exactly if all its steps do; the file is then the new document, and otherwise untouched, wherever it fails or dies |
| StorageLaws.SaveFailsIff | src/storage.cpp:124-144 | a save raises a storage error if and only if some step is the first to fail and the process lives through the removal of the temporary file |
| StorageLaws.FailedSaveCleansUp | src/storage.cpp:140-144 | a failed save leaves no temporary file if the removal succeeds, and the records file as it was |
| StorageLaws.CrashLeaves | src/storage.cpp:124-139 | a process that dies in a save leaves the temporary file as it was, torn or whole, by the step it died in |
| StorageLaws.LoadAfterSave | src/storage.cpp:95-149 | loading after a save cut anywhere gives the old records, or the new ones sorted exactly if the save succeeded; a left-over temporary file makes no difference |
| Formatting.DecidedIsFormattable | src/formatting.cpp:14-50 | a decided alert has what its kind needs and its displayed minutes are in the window configured in minutes, without the clamp |
| Formatting.CycleAlertsAreFormattable | src/formatting.cpp:21-25 | the same for every alert of a cycle |
| Formatting.FormattableIsFormatted | src/formatting.cpp:54-80 | formatting such an alert never raises an exception; the message names the launch and the kind and reason |
| MessageLaws.FormatsIff | src/formatting.cpp:14-50 | an alert can be formatted if and only if it is a correction with a reason or a countdown alert with a launch time |
| MessageLaws.MessageTellsAlert | src/formatting.cpp:27-80 | what every message shows, in any zone: title with the launch name, fixed text around the new and then the previous time of a time correction, the previous time of the other corrections, launch time and decimal minutes of a countdown; "unknown time" where a time is unknown |
| Orchestration.FormatMessages | src/orchestration.cpp:57-61 | the loop formats all alerts in order, or raises an exception |
| Orchestration.NotificationChannel.Send | include/rocket_watcher/channel.hpp:23-24 | one attempt, one delivery result, no exception |
| Orchestration.SendNotifications | src/orchestration.cpp:90-98 | the nested loops attempt every message for every recipient in order until the process dies |
| Orchestration.SaveThenSend | src/orchestration.cpp:76-99 | save if anything changed, send only if the save was not needed or succeeded |
| Orchestration.RunCycle | src/orchestration.cpp:18-100 | the whole cycle as a function of clock, feed, files and verdicts |
| Orchestration.DryRunPreviews | src/orchestration.cpp:63-74 | a dry run touches neither disk nor channel and reports as many alerts as the real cycle |
| CycleLaws.FailedFetch | src/orchestration.cpp:24-30 | a failed fetch ends the cycle, touches nothing, and is reported as the source's failure only |
| CycleLaws.FailedLoad | src/orchestration.cpp:37-47 | a failed load ends the cycle, touches nothing, and is reported as a failed save without alerts |
| CycleLaws.UnreadableFileStopsCycle | src/orchestration.cpp:37-47 | with a torn file, a document without `records` or with an entry that cannot be read, no cycle writes or sends anything, whatever the verdicts; if fetch and look succeed and the process lives through the read, it reports a failed save |
| CycleLaws.UnreadableFileStays | src/orchestration.cpp:37-47 | no run changes such a file or sends anything |
| CycleLaws.FailedSave | src/orchestration.cpp:76-87 | a failed save sends nothing and leaves the records file; the report says so and counts the alerts |
| CycleLaws.SilentCycle | src/orchestration.cpp:76-88 | without alerts and with as many records as before nothing is written, and the cycle succeeds |
| CycleLaws.SavedCycle | src/orchestration.cpp:76-99 | otherwise, if every step of the save succeeds, the file holds the decided records, no temporary file is left, and alert `i` goes to recipient `j` as delivery `i * recipients + j` with the verdict it meets, until the process dies; the report follows the last one |
| CycleLaws.DryRunCycle | src/orchestration.cpp:63-74 | a dry run that loads succeeds, sends and writes nothing, and counts the alerts |
| CycleLaws.NoTermsEndsProcess | src/relevance.cpp:13-16 | without include terms the first launch raises an exception that no handler of the cycle catches; nothing is written or sent |
| CycleLaws.WhichFailure | src/orchestration.cpp:24-47 | a report blames the source exactly if the fetch failed, and then not the save |
| Orchestration.CommandWatch | src/cli.cpp:93-99 | the watch loop runs one cycle per poll until the sleep is interrupted or the process dies |
| WatchRuns.HistoryFollowsWatch | src/cli.cpp:93-99 | the histories that the theorems speak of are the runs of the loop |
| WatchRuns.CycleCases | src/orchestration.cpp:24-88 | a cycle that does not commit leaves the records file and the channel alone; one that does decided on the committed records |
| WatchRuns.RunIsFaithful | src/storage.cpp:95-149 | after any run the records file is exactly the records last committed, in key order |
| WatchRuns.RunView | src/orchestration.cpp:18-100 | seen from a key, any run is a per-key run in which failed and cut cycles are lost |
| WatchRuns.AtMostOnce | src/orchestration.cpp:76-98 | over every run, the deliveries map injectively into pairs of a committed alert and a recipient, in order |
| WatchRuns.OutcomeIsTrue | src/orchestration.cpp:11-16 | if a cycle reports ok, the records file holds the decided records and every message was delivered to every recipient; if it reports a failed fetch, load or save, the file is as before and nothing was sent; otherwise the file holds the decided records, every message was attempted and some delivery failed |
| WatchRuns.DurableBeforeSent | include/rocket_watcher/orchestration.hpp:3-5 | in any cycle after any run, if the process dies right before any delivery attempt, the records file already holds the records that remember the alert being delivered |
| Guarantees.RecordsFileIsWellFormed | src/core.cpp:132-156 | after every run with a clock that does not go back, the file holds one record per key, in key order, each in the record language |
| Guarantees.NoRepeatedNotification | src/core.cpp:107-128 | over every such run, a recipient gets two countdown messages of one kind about one launch (or Launch Soon after Launch Imminent) only for alerts more than the retention apart |
| Guarantees.NotificationsAreCaused | src/core.cpp:46-130 | whatever is sent comes from an alert about a listed, relevant launch that was due then, or outdated as the correction says |
| Guarantees.CorrectionsAreBounded | src/core.cpp:69-92 | over every run, the correction bounds in terms of the feeds, and each correction quotes the alert before it |
| Guarantees.EveryDeliveryTells | src/orchestration.cpp:90-98 | over every run, each delivery carries a message that tells its committed alert in the words of `MessageLaws` |
| CycleLaws.CommittedIsYoung | src/core.cpp:185-189 | after a committed cycle the file holds no record last alerted more than the retention, in days of the configuration, before its clock |
| CycleLaws.RecordsOnFileAreYoung | src/core.cpp:185-189 | after any run the same holds with the clock of the last committed cycle |
| CycleLaws.UnlistedRecord | src/core.cpp:185-189 | in any cycles that do not list a key its record stays as it is until one commits after it expired, and is gone from then on; no alert is raised for it |
| CycleLaws.ExpiredIsAlertedAgain | src/core.cpp:102-129 | after such cycles, the next committed cycle that lists the launch, due for a countdown alert, raises exactly that alert, whatever was sent before |
| Loadability.FarTimestampIsAccepted | src/launch_library.cpp:62 | a concrete text whose instant the parser accepts and cannot read back once written |
| Loadability.DecisionIsWritableIff | src/core.cpp:132-156 | the decided records can be read back if and only if, for every key with alerts, the clock and the launch time of the last alert have years of four columns |
| Loadability.FarLaunchIsRecorded | src/core.cpp:83-91 | a concrete launch that is announced and then moved to that instant: its time correction leaves records that cannot be read back |
| Loadability.UnloadableForever | src/orchestration.cpp:37-47 | a records file that cannot be read back ends the watch: no run changes the records, the file or what was sent |
| Loadability.LoadableForever | src/storage.cpp:95-149 | while clocks and launch times have years of four columns the file stays loadable, whatever fails and wherever processes die |
| Guarantees.HealthyCycleIff | src/orchestration.cpp:18-100 | while the records file is loadable, a cycle commits its decision and attempts every delivery if and only if exactly the steps that fetch, load and save use succeed and the process lives to the last delivery |
| Guarantees.HealthyRunIff | src/orchestration.cpp:18-100 | in a run every poll is committed and no process dies while notifying if and only if every cycle is healthy in that sense |
| Guarantees.UndisturbedRunTells | src/orchestration.cpp:90-98 | whatever fails in a run, as long as no process dies while notifying, every recipient is sent every alert committed in it, once and in order |
| Guarantees.MissingOnlyByDeath | src/orchestration.cpp:90-98 | in any run, a committed alert that was not attempted for some recipient was committed in a cycle in which the process died while notifying |
| Guarantees.ShortIntervalIsEnough | src/cli.cpp:88-98 | with a poll interval that, with the longest time of a cycle, is at most the imminent threshold and at most its distance from the soon threshold, a loop polls often enough, whatever else the source lists |
| Guarantees.NoLaunchIsMissed | src/cli.cpp:93-99 | from any state without a record of a relevant go launch with a precise time: polls may be lost and deliveries may fail; if the committed polls list the launch and are frequent enough until launch, and no process dies while notifying, every recipient is sent exactly two messages about it, Launch Soon in its window, then Launch Imminent in its window |
| Guarantees.SteadyLoopMissesNothing | src/cli.cpp:93-99 | such a loop of healthy cycles, started before the Launch Soon window and left running until launch, sends every recipient exactly the two messages |
| Guarantees.EvenPollsAreALoop | src/cli.cpp:93-99 | such loops exist, from any state, for every configuration and relevant launch |
| Guarantees.NoHourLaunchIsMissed | src/core.cpp:123-129 | from any state without a record of a launch precise to the hour, with committed polls frequent enough for its window and no process dying while notifying, every recipient is sent exactly one message about it, inside the window |
| Guarantees.LastMessageDiscloses | src/core.cpp:58-92 | in a run in which no process dies while notifying, the last message a recipient was sent about a launch on record is that of the last alert, shows its times, and told facts that are disclosed for its last committed listing |

## Left out

- The Launch Library, Pushover and HTTP adapters: the feed is an arbitrary list of launches, and each delivery succeeds or fails arbitrarily.
- Configuration parsing, secrets and the environment: what validation guarantees is the predicate `Config.Valid`, a hypothesis where it is needed.
- Command line, signals, sleeping, clocks: `CommandWatch` is given the clock reading and feed of each poll; guarantees that need a clock that does not go back say so.
- Time-zone rendering: the two display functions are parameters, and every theorem about messages holds for any; a failed zone lookup is not modelled.
- Log lines, source warnings and evaluation notes.
- JSON text syntax, string escaping and UTF-8: files hold JSON values or torn text. So is the exception that printing invalid UTF-8 would raise before the guarded part of a save.
- Machine integer widths and the year range of the C++ calendar types: instants are unbounded and the calendar is the mathematical one.
- Power loss, and other programs that write the records file while the Watcher runs.
- Storage.JsonAlertRecordStore.Save: does not model the directory that is created as part of the file system, only that creating it may fail; the library sort is a function, insertion by key, and the order the library gives to equal keys is left out, since no list that a cycle saves has equal keys.
- Relevance.EvaluateRelevance: does not give the reason text; lower-casing is a function on characters for ASCII letters, not an update of a buffer in the current locale.
- TimeUtils.ParseIso8601: does not model overflow of the scanned numbers, which four and two columns exclude; the scanning function of the C library and the offset parser are functions with an end position instead of an advanced cursor.
- Calendar.SplitRoundTrip: does not model the year limits of the C++ calendar types; it is the mathematical calendar for every instant.
- Guarantees.NoLaunchIsMissed: does not promise the messages if a process dies between the save and the last delivery of a cycle, because the program never retries; `Guarantees.MissingOnlyByDeath` shows that nothing else is lost.
