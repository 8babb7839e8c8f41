# Verified model of the DMARC ingest service

The service takes aggregate, TLS and failure reports out of a mailbox and from an
ingest API, stores them in Postgres, and keeps derived tables, scores, webhooks
and alerts in agreement with what is stored, in spite of duplicates, retries,
failing statements, crashes and concurrent writers. This project models that
behaviour in Dafny and proves what it does and does not guarantee.

`dafny verify dfyconfig.toml` checks everything.

| files | subject |
|---|---|
| `Reports`, `Ledger` | the parsed report; keyed counter tables and weighted sums of entries |
| `Rollup` | `dmarc_agg_daily`: the incremental observer and the `GROUP BY` rebuild |
| `Ingest`, `IngestTheorems`, `Convergence` | poller and API handlers as an interleaved, crashing step system, and its theorems |
| `Progress` | writers that meet no failure finish; where rows come from; what interruptions take for good |
| `Mailroom`, `Cycles` | the mailbox around it: folders, MOVE, requeue, retention; what cycles and passes get done |
| `Service` | `SaveReport`, `processMail`, `cycle` and the ingest handler as they are written |
| `Sources`, `Senders` | `domain_source`: observer upserts, batched backfill, `sender.new`; its columns in terms of the stored records |
| `Fanout`, `Inventory`, `Walks` | rollup, domain_source and dkim_auth observers on top of the ingest machine; what a caller gets done |
| `Selectors` | `dkim_auth`: observer and keyset backfill |
| `Health`, `Readiness` | the health score and the enforcement recommendation |
| `Webhooks`, `WebhookTheorems`, `Delivery`, `Replaying` | delivery, dead letters and replay: machine, theorems, code, and which rows replay reaches |
| `Watchdog`, `WatchdogTheorems` | the four alert rules, their window and cooldown |
| `Redaction`, `Recipients`, `Localparts`, `Text` | recipient redaction of header blocks, which lines and which addresses it covers |
| `Addresses` | packed, rendered, looked-up and reversed IP addresses |
| `Retention`, `Pairing` | the raw document purge; which original goes with which feedback report |

Conventions. A document stands for what its decoder returns on it (nothing, if it
fails). The report table is the sequence of its rows in commit order. An action of a
machine that is not enabled changes nothing, so theorems range over all action
sequences. A class holds the fields the Go code updates in place, with the
tables it writes. The fate of every delivery, query and writing call is an input;
a writing call can be done, can fail without effect, or can take effect while its
caller sees an error (`Commit`, `Fault`, `Insertion`, `Effect`). Where the caller
only logs the error, the input says whether the call took effect. Ghost state (fates,
histories, action lists) only serves to state properties.

Results that differ from what the repository says or suggests:

- The rebuild of `dmarc_agg_daily` on a running system is exact if and only if no
  report is between its commit and its upsert (`BackfillExactIffQuiet`); otherwise
  those reports count twice for good (`LiveBackfillCountsTwice`).
- A report whose commit succeeded but was not acknowledged is never handed to the
  observers: the retry finds a duplicate (`UnackedIsNeverCounted`; `Conservation` counts
  it as lost).
- `sender.new` is never sent for a pair whose first record is small and aligned,
  however large or unaligned later ones are, nor for one whose first upsert took
  effect without an answer or just before a crash (`NewSenderOnceIff`).
- Redaction is documented to replace every address localpart. It does exactly on
  lines whose localparts are unbroken runs of unquoted characters
  (`EveryLocalpartMaskedIff`): `"a b"@x` is stored as it came
  (`QuotedLocalpartSurvives`), and of `"john".doe@x` only `.doe` is replaced
  (`QuotedWordSurvives`).
- Webhook delivery is at least once: an endpoint whose answer is lost receives the
  event again (`MayArriveTwice`).
- Replay looks at the 500 oldest unreplayed rows only. A dead letter of an endpoint
  that answers is replayed, sooner or later, if and only if fewer than 500 older rows
  belong to endpoints that stay down (`ReplayedIff`); otherwise it never is, whatever
  else happens (`StarvedForever`), and such a state is reachable
  (`StarvedIsReachable`).
- Readiness sees the ten largest failing sources only, which can turn
  "fix alignment" into "enforce" (`LimitCanFlipVerdict`).
- A negative record count is accepted on the way in and can push the health score
  above 100, in a reachable state (`NegativeCountBreaksBound`): no score with given
  message counts can leave 0..100 if and only if the aligned messages exceed the total
  by less than 9 in 800, or there is no mail (`ScoreBoundedIff`). A negative `pct` scores as full enforcement
  (`OddPctReadsAsFull`).
- A webhook failure is alerted if and only if the one check that counts it could look
  up the rule and the rule was not cooling down (`AlertedIff`); others are never
  alerted later (`CooledFailuresAreSwallowed`). Mails that failed before the first check after a
  start never count towards `failed_spike` (`FirstCheckSeesNothing`).
- Two failure reports in one mail, the first without its original: the first takes
  the second one's (`PairingCanMisattribute`).
- DESIGN.md describes the `domain_source` backfill as one `INSERT … SELECT`; the code
  uses ranges of serials. `BatchedIsOneGroupBy` shows the two agree.

## Model

| member | source | states |
|---|---|---|
| Rollup.DailyTable.OnIngest | parser/internal/rollup/rollup.go:45-81 | the seven counters of the loop are the filtered sums of the rebuild, and the upsert adds them to the bucket of the report's domain on the UTC day it begins and to no other or, failing, changes nothing |
| Rollup.OneRecord | parser/internal/rollup/rollup.go:50-74 | one record adds its count to the total and to exactly the columns its alignment results and its disposition name |
| Rollup.RecordsAddUp | parser/internal/rollup/rollup.go:50-74 | column by column the records of a report add up |
| Rollup.RebuildStep | parser/internal/rollup/rollup.go:83-98 | report by report: the rebuild adds each contribution to the bucket of its domain and day and has a row for exactly those buckets |
| Rollup.DailyTable.Backfill | parser/internal/rollup/rollup.go:83-121 | DELETE, INSERT and COMMIT on a working copy: the table is the rebuild if the commit takes effect, untouched otherwise, and the row count is returned only if the commit is acknowledged |
| Rollup.GroupIsSum | parser/internal/rollup/rollup.go:83-98 | one group of the `GROUP BY` over the join, distinct serial count included, is the sum of what the observer adds per report |
| Rollup.RebuildCountsEachOnce | parser/internal/rollup/rollup.go:83-98 | the rebuilt table counts every stored report exactly once and has no other rows |
| Rollup.ExactIffEachOnce | parser/internal/rollup/rollup.go:45-98 | a maintained table equals the rebuilt one exactly when every report is counted once |
| Ledger.ApplyCounts | parser/internal/rollup/rollup.go:27-43 | an upsert keeps the table equal to the weighted sum of its entries, for every bucket and column, with one weight raised |
| Ledger.EqualIffSameWeights | parser/internal/rollup/rollup.go:27-43 | two tables with ordered weights are equal exactly when the weights are: nothing lost can hide behind something counted twice |
| Ingest.StepKeepsInv | parser/internal/poller/poller.go:218-312 | every step of every writer, with every failure and crash, keeps: unique keys and serials; the table is the weighted sum given by each report's fate; a report is in flight exactly when one task is emitting it; what a task has passed is stored |
| Ingest.StepGrows | parser/internal/store/store.go:57-106 | rows of report, TLS and failure tables are only appended, and a settled emission stays settled |
| Ingest.WorkStores | parser/internal/poller/poller.go:236-298 | when a writer moves past a document that parses, the document's content is in the database |
| IngestTheorems.Conservation | parser/internal/poller/poller.go:239-255 | in every reachable state, per bucket and column: rebuild plus double counted = table plus in flight plus lost |
| IngestTheorems.IncrementalExactIffAllEmitted | parser/internal/rollup/rollup.go:45-81 | without a rebuild, over any run, the table is exact if and only if every stored report's upsert was applied |
| IngestTheorems.BackfillExactIffQuiet | parser/internal/rollup/rollup.go:100-121 | after a rebuild and any further undisturbed activity that has settled, the table is exact if and only if nothing was in flight at the rebuild |
| IngestTheorems.LiveBackfillCountsTwice | parser/internal/rollup/rollup.go:100-121 | the other case is reachable, with a run that shows it |
| IngestTheorems.AtMostOneUpsert | parser/internal/store/store.go:62-83 | over any continuation of any run a report is added by at most one upsert, and a lost one is never made up for |
| IngestTheorems.FirstWriterWins | parser/internal/store/store.go:72-83 | whatever follows, the row of a key keeps the serial, report and records of the first document saved under it |
| Convergence.Converges | parser/internal/api/api.go:218-248 | a body sent any number of times by any callers at once, cut off anywhere by errors and crashes, while others send other bodies: once one attempt ends, the report and TLS tables are, on the keys nobody else sends, those of a single clean pass, in order, and stay so |
| Convergence.ConvergesExactly | parser/internal/poller/poller.go:231-282 | if nobody sends anything else those are the whole tables |
| IngestTheorems.DoneMeansStored | parser/internal/poller/poller.go:218-312 | whatever other writers do, when a writer has finished, every document of its body that parses is stored: a report in the one row of its domain and id, a TLS report under its organisation and id, a failure report as it is |
| Progress.CanFinish | parser/internal/poller/poller.go:236-298 | from any state, whatever others are doing, a writer whose calls succeed comes to its end |
| Progress.FinishedWriterCounted | parser/internal/poller/poller.go:239-255 | then every report it added has been counted by exactly one upsert |
| Progress.RowsWereSent | parser/internal/store/store.go:57-106 | over any run every row of the three tables is, whole and unchanged, a document somebody sent |
| Progress.UnackedIsNeverCounted | parser/internal/store/store.go:98-103 | a report whose commit is not acknowledged is in the table, and over any continuation, retries included, its upsert is never made |
| Progress.CrashedIsNeverCounted | parser/internal/poller/poller.go:239-255 | nor that of a report whose observers had not had their turn when the process died |
| IngestTheorems.BucketsSound | parser/internal/rollup/rollup.go:50-74 | with non-negative counts every bucket of every reachable table keeps 0 <= aligned <= total and aligned <= dkim + spf <= 2 aligned |
| Mailroom.MailConservation | parser/internal/poller/poller.go:199-205 | every mail is in exactly one folder, and what is gone was older than the cutoff and belonged in Processed or Ignored, over any interleaving of cycles, MOVEs that take part of a list and fail, requeues, partial expunges and crashes |
| Mailroom.FilingSafety | parser/internal/poller/poller.go:172-206 | Processed: all that parses is stored, and something is; Failed: nothing parses; Ignored: no payload |
| Mailroom.RetryLeavesMail | parser/internal/poller/poller.go:243-247 | from a failing store call on, over any further events, until a later cycle fetches it: the mail is in INBOX and in no folder, off every list, unseen unless it was seen or somebody reads it, and the next cycle fetches it if unseen |
| Mailroom.InterruptionLeavesMail | parser/internal/poller/poller.go:199-204 | the same for every mail still in INBOX when the process dies or a MOVE fails after taking some messages |
| Mailroom.WorkEndsByFailure | parser/internal/poller/poller.go:236-298 | over any events between opening and closing a mail, the poller's work on it is given up only at a failing store call, which is one of them |
| Mailroom.UnreadIsUnseen | parser/internal/poller/poller.go:163-168 | over whole runs a mail nobody opened is unseen |
| Mailroom.ReachableRoomInv | parser/internal/retention/retention.go:103-150 | the folder, flag and progress invariant of every reachable mailbox: among others, a cycle works on mails of INBOX only, each on one list |
| Cycles.EndedCycleHasFiled | parser/internal/poller/poller.go:172-204 | a cycle that has come to its end without a crash, a failed MOVE or a failing store call on the mail has filed it, whatever else happened meanwhile: out of INBOX and in the folder its content demands |
| Cycles.SmoothCycleFilesAll | parser/internal/poller/poller.go:136-206 | a cycle none of whose calls fails comes to its end, and then every unseen mail of INBOX it started from is in that folder |
| Cycles.VerdictIs | parser/internal/poller/poller.go:218-312 | that folder: Processed if some document parses, Ignored if there is none, else Failed |
| Cycles.MoveFiles | parser/internal/poller/poller.go:199-204 | a MOVE takes every listed mail out of INBOX into its folder and no other; a failing one does that for the part it took |
| Cycles.ArrivedIsFetched | parser/internal/poller/poller.go:150-168 | a mail that arrives is in INBOX and, unseen, fetched by the next cycle; one that was read is fetched by none |
| Cycles.RequeueReturns | parser/internal/api/api_platform.go:161-207 | requeued mails are in INBOX, out of Failed and unseen, the next cycle fetches them, and no other mail moves |
| Cycles.RetentionRemovesOld | parser/internal/retention/retention.go:128-150 | a pass over a folder that meets no error removes exactly the mails older than the cutoff |
| Service.Store.SaveReport | parser/internal/store/store.go:57-106 | all of report and records or nothing, also when the answer is lost; a duplicate returns the serial of the stored row and changes nothing; records and messages are the report's |
| Service.Store.SaveTlsReport | parser/internal/store/store_reports2.go:142-214 | a TLS report is stored once per (org, report id); the answer is the id of its row |
| Service.Store.SaveForensic | parser/internal/store/store_reports2.go:295-312 | a save that takes effect adds a row, and the answer is its new id |
| Service.Store.ProcessMail | parser/internal/poller/poller.go:218-312 | tables and emissions are those of a clean pass over all documents and the outcome is the folder the content demands; or a call failed, and they are those up to that document, with one document more in the tables only if the answer was lost |
| Service.Store.Cycle | parser/internal/poller/poller.go:172-197 | each fetched mail is on the list of the folder it belongs to and everything in it that parses is stored, or was hit by a failing call and is on none |
| Service.Store.Ingest | parser/internal/api/api.go:218-257 | status and results: bad request at the first bad document, server error exactly where a call failed, created exactly when something was inserted; each result has the serial of the row that holds its report and the right duplicate flag |
| Service.AnswersStay | parser/internal/api/api.go:233-237 | results stay true of every later table |
| Sources.SameHits | parser/internal/enrich/observer.go:128-139 | observer and backfill see the same (domain, address) in every record the parser stores |
| Sources.RangesCompose | parser/internal/store/store_intel.go:200-226 | the aggregate over (lo, hi] is the merge of those over (lo, mid] and (mid, hi] |
| Sources.SourceStore.Backfill | parser/internal/enrich/backfill.go:28-37 | the batch loop leaves the old table merged with one `GROUP BY` up to a batch end, for every positive step: the last one without errors, otherwise the one the first error left it at |
| Sources.BatchedIsOneGroupBy | parser/internal/enrich/backfill.go:28-37 | from an empty table that is one `GROUP BY` over all records |
| Sources.SourceStore.OnIngest | parser/internal/enrich/observer.go:39-76 | the loop's upserts, those without effect skipped, and the announcements it makes, none for an unanswered upsert |
| Sources.UpsertsAll | parser/internal/enrich/observer.go:39-56 | without failing statements these are the upserts of every record with an address |
| Sources.NewSenderOnceIff | parser/internal/enrich/observer.go:55-69 | over any interleaving of observers and imports a pair is announced at most once, and exactly when it was unknown, an observer's record touched it first, that record is large or unaligned, and the observer lived to see the answer |
| Sources.ObserversAgreeWithGroupBy | parser/internal/store/store_intel.go:129-140 | counts accumulated in any order equal those of one `GROUP BY` over the same records |
| Sources.BackfillMatchesObservers | parser/internal/store/store_intel.go:183-226 | end to end, for any history, arrival order and batch size: same pairs, same counts |
| Sources.BackfillOverObserversDoubles | parser/internal/store/store_intel.go:196-226 | over a table the observers already filled, the backfill doubles every count |
| Senders.CountsAreSums | parser/internal/store/store_intel.go:129-226 | for any history, arrival order and batch size both tables have a row exactly for the pairs some report shows; msg_count is the sum over the records of the pair, aligned_count over those with DKIM or SPF aligned |
| Senders.OneRecordUpserts | parser/internal/enrich/observer.go:41-56 | what a report with one record does to the pair's row, column by column, and that no other row changes |
| Senders.FirstRecordDecides | parser/internal/enrich/observer.go:41-69 | without failing statements an unknown sender is announced exactly when its first record in the report reaches the threshold or has neither DKIM nor SPF aligned |
| Senders.BatchRowSpans | parser/internal/store/store_intel.go:200-217 | a batch gives a pair a row exactly if a report in its serial range shows it, spanning the earliest begin, the latest end and the least serial of those reports, acknowledged |
| Senders.BatchMeetsRow | parser/internal/store/store_intel.go:217-224 | where a row is there the span widens, the counts add up and it stays acknowledged or not |
| Fanout.SourceConservation | parser/internal/enrich/observer.go:39-76 | with both observers on the ingest machine, in every reachable state, per pair and both counters: the sum over the stored records plus backfilled = table plus on the way plus lost |
| Fanout.CoreIsReachable | parser/main.go:107-113 | what runs under the observers is a run of the ingest machine, so all its theorems apply |
| Fanout.SourcesExactAtRest | parser/internal/store/store_intel.go:129-140 | at rest, with nothing lost and no live backfill, domain_source has the sums over the stored records, which are those of one `GROUP BY` |
| Fanout.RollupExactIff | parser/main.go:107-113 | in the same runs dmarc_agg_daily is exact if and only if every upsert was applied |
| Inventory.AuthConservation | parser/internal/selectors/selectors.go:30-38 | in every reachable state of the same machine a report has exactly its selector rows if its observer or a live backfill wrote them, none otherwise; a save is done, missed, or on its way with exactly one walk |
| Inventory.AuthExactIff | parser/internal/store/store_reports2.go:46-64 | the inventory is complete exactly when every report with signatures was written by one of them |
| Walks.EmissionStartsWalk | parser/internal/enrich/observer.go:39-56 | when a report's emission starts its caller has all its hits and its selector rows before it, and nothing is lost |
| Walks.WalkCanFinish | parser/main.go:107-113 | a caller whose statements succeed upserts every hit in order, loses none, and leaves the report with its selector rows |
| Walks.FillWrites | parser/internal/enrich/backfill.go:28-37 | a live batch merges the records stored by then |
| Walks.AuthWrites | parser/internal/selectors/selectors.go:30-38 | a save at the end of a walk gives the report its rows, unless it fails or there are none, and leaves every other serial's |
| Walks.FillAuthWrites | parser/internal/selectors/selectors.go:45-78 | so does a live backfill of one report |
| Selectors.DKIMAuthEntries | parser/internal/store/store_reports2.go:30-42 | all signatures of all records, in order, trimmed, truncated and lower-cased |
| Selectors.EntryAt | parser/internal/store/store_reports2.go:30-42 | one row per signature, signature j of record i at its place |
| Selectors.EntryIs | parser/internal/store/store_reports2.go:30-42 | domain, selector and result each land in their own column: what stands between blanks, the result in small letters, cut to the width, blank ones NULL |
| Selectors.EntryFits | parser/internal/store/store_reports2.go:35-37 | every field fits its column, none is stored empty, results are lower case |
| Selectors.AuthTable.SaveDKIMAuth | parser/internal/store/store_reports2.go:46-64 | the serial's rows are replaced, or nothing changes, also when the answer is lost |
| Selectors.ReplaceIs | parser/internal/store/store_reports2.go:46-64 | replacing a serial's rows leaves every other serial's |
| Selectors.AuthTable.OnIngest | parser/internal/selectors/selectors.go:30-38 | a report without signatures or with a failing save changes nothing |
| Selectors.Resume | parser/internal/store/store_reports2.go:74-93 | paging on from the k-th listed serial lists exactly what is behind it |
| Selectors.AuthTable.Backfill | parser/internal/selectors/selectors.go:45-78 | ends; processes every stored document once and in order for any page size; what an abort leaves; the counters it reports |
| Selectors.ParseableIs | parser/internal/selectors/selectors.go:45-78 | the report counter is the number of listed documents that parse |
| Selectors.WrittenIs | parser/internal/selectors/selectors.go:45-78 | the row counter is, from an empty table, the number of rows there are |
| Selectors.BackfillIs | parser/internal/selectors/selectors.go:45-78 | afterwards each report has the entries of its document if that parses, and what it had before otherwise; other serials are untouched |
| Selectors.BackfillTwice | parser/internal/selectors/selectors.go:40-44 | a second run changes no report's rows |
| Selectors.BackfillAgreesWithObservers | parser/internal/selectors/selectors.go:28-38 | it agrees with the observers and changes a report's rows if and only if its save had failed and it has signatures |
| Health.ComputeHealth | parser/internal/store/store_stats.go:152-199 | score and components as specified; components within their maximum, score within 0..100 |
| Health.ScoreIsWorth | parser/internal/store/store_stats.go:152-216 | what each of the five components is worth in terms of the inputs, without division; each is that rounded to a tenth, the score their sum rounded to a whole number |
| Health.RowCounts | parser/internal/store/store_stats.go:311-322 | what one row of dmarc_agg_daily contributes to the inputs: to the last 30 days or the 30 before, for its own domain only, and a day with data |
| Health.Bounded | parser/internal/store/store_stats.go:188-198 | all components are in [0, max] for any input, alignment and score if aligned <= total |
| Health.AlignmentBoundedIff | parser/internal/store/store_stats.go:155 | the alignment component stays within 40 if and only if 800 aligned < 801 total |
| Health.NearExact | parser/internal/store/store_stats.go:481-486 | six roundings move the score by at most 0.75 from the exact weighted sum |
| Health.FullMarksIff | parser/internal/store/store_stats.go:152-186 | the unrounded score is 100 exactly when all mail is aligned, the rate has not dropped, reject is published for all mail, two weeks have data and no unknown source fails |
| Health.UnknownEnds | parser/internal/store/store_stats.go:177-186 | the unknown-source component is zero exactly from a tenth of all mail on |
| Health.MoreAlignedNeverLowers | parser/internal/store/store_stats.go:152-172 | non-decreasing in aligned messages, through alignment and trend together |
| Health.MoreDaysNeverLower | parser/internal/store/store_stats.go:174 | non-decreasing in days with data |
| Health.MoreUnknownNeverRaises | parser/internal/store/store_stats.go:177-185 | non-increasing in unknown failing messages |
| Health.MorePctNeverLowers | parser/internal/store/store_stats.go:201-216 | non-decreasing in pct for every policy |
| Health.OddPctReadsAsFull | parser/internal/store/store_stats.go:206-209 | a pct outside 0..100 scores as 100 |
| Health.StrongerPolicyNeverLowers | parser/internal/store/store_stats.go:201-216 | how quarantine, reject and none compare at equal pct |
| Health.ReachableScoreBounded | parser/internal/store/store_stats.go:297-335 | end to end: in every reachable state of the ingest machine all window sums give components in [0, max], a score in [0, 100] and the 0.75 bound |
| Health.ScoreBoundedIff | parser/internal/store/store_stats.go:152-199 | no inputs with given message counts score outside 0..100 if and only if there is no mail or 800 aligned < 809 total |
| Health.NegativeCountBreaksBound | parser/internal/store/store_stats.go:297-335 | a reachable state, one report with a negative count, whose gathered inputs score above 100 |
| Readiness.Recommend | parser/internal/store/store_stats.go:431-472 | verdict and blocker list as specified without the loop |
| Readiness.VerdictIs | parser/internal/store/store_stats.go:428-472 | exactly when the verdict is fix_alignment, step_pct or enforce, from the inputs |
| Readiness.BlockersAre | parser/internal/store/store_stats.go:428-450 | the blockers are complete and in order: the rate, then every unclassified source above 100 with its address and volume |
| Readiness.AdvanceIff | parser/internal/store/store_stats.go:428-472 | enforce or step_pct exactly with traffic, rate >= 0.995, no unclassified source above 100 and not full reject; then no blockers |
| Readiness.AdvanceMeansAligned | parser/internal/store/store_stats.go:428-442 | advancing means at most one message in 200 is unaligned |
| Readiness.OrderIrrelevant | parser/internal/store/store_stats.go:442-450 | the verdict is invariant under permuting the sources |
| Readiness.BlockersSurviveLimitIff | parser/internal/store/store_stats.go:394-409 | the first ten give the same blockers exactly when no dropped source is suspicious |
| Readiness.LimitIsSafe | parser/internal/store/store_stats.go:394-409 | a descending list drops none if it has at most ten entries or its tenth is at most 100 |
| Readiness.VerdictSurvivesLimitIff | parser/internal/store/store_stats.go:394-472 | exactly when the verdict on the first ten is the verdict on all |
| Readiness.LimitCanFlipVerdict | parser/internal/store/store_stats.go:394-472 | a list that accounts for the whole unaligned volume of its rate, on which it is not |
| Webhooks.StepKeepsInv | parser/internal/webhook/webhook.go:73-127 | every step of senders, replay calls and crashes keeps: rows and sends in one-to-one correspondence with equal content, replayed rows delivered, both counters exact, replay tallies consistent |
| WebhookTheorems.OnePlace | parser/internal/webhook/webhook.go:102-127 | each (event, endpoint) is in exactly one place; its row is unique and carries its content; delivered places had an acknowledged delivery, places that never reached the table had none; every acknowledged request arrived |
| WebhookTheorems.NotifyReachesAll | parser/internal/webhook/webhook.go:73-85 | a notification adds one untried delivery per configured endpoint, in order, with its kind and payload, and nothing else |
| WebhookTheorems.EveryEndpointHasAPlace | parser/internal/webhook/webhook.go:82-127 | over any continuation the event has exactly one place for each configured endpoint, and is filed only under that endpoint with that content |
| WebhookTheorems.MayArriveTwice | parser/internal/webhook/webhook.go:104-112 | a run in which an event counts as delivered once and arrived twice |
| WebhookTheorems.FailuresAccounted | parser/internal/webhook/webhook.go:113-126 | WebhookFailures = WebhookDeadletters + failed inserts + being filed + nowhere to file, in every reachable state |
| WebhookTheorems.FailuresAtRest | parser/internal/webhook/webhook.go:113-126 | at rest: failures = dead letters + failed inserts, or no dead letters without a store |
| WebhookTheorems.ThreeAttempts | parser/internal/webhook/webhook.go:102-112 | over any run a sender makes at most three attempts, and exactly three before it gives up |
| WebhookTheorems.RunKeepsRows | parser/internal/audit/audit.go:190-194 | rows are never removed or altered except to be marked, finished sends stay finished |
| WebhookTheorems.OldestIff | parser/internal/audit/audit.go:166-176 | a row is listed exactly when it is unreplayed with fewer than `limit` older unreplayed rows |
| WebhookTheorems.OldestAscends | parser/internal/audit/audit.go:168-173 | the page is in id order, oldest first, and unreplayed |
| WebhookTheorems.StarvedForever | parser/internal/api/api_platform.go:209-237 | behind 500 rows of endpoints that stay down a row is never replayed, over any run |
| Delivery.Notifier.Send | parser/internal/webhook/webhook.go:102-127 | the retry loop takes only machine steps; attempts, pauses, counters and row after each outcome |
| Delivery.Notifier.Replay | parser/internal/api/api_platform.go:209-237 | a call takes only machine steps; a row is replayed exactly when it was, or is on the page, has an endpoint, was delivered and marked; the answer's numbers |
| Replaying.ReplayedIff | parser/internal/api/api_platform.go:209-237 | a dead letter of an endpoint that answers is replayed by some call if and only if fewer than a page of older rows belong to endpoints that stay down, and then within one call more than rows wait before it |
| Replaying.Served | parser/internal/api/api_platform.go:209-237 | the sufficient half with anything going on between and beside the calls |
| Replaying.EventuallyReplayed | parser/internal/api/api_platform.go:209-237 | in any reachable state such a row is replayed once one call more than rows wait before it has come to its end, with anything going on between and beside the calls |
| Replaying.FinishedCallClears | parser/internal/api/api_platform.go:216-231 | a call that ends, among any senders and calls of the machine, has replayed every row of its page whose endpoint answers |
| Replaying.ClearedStays | parser/internal/audit/audit.go:190-194 | and nothing undoes that |
| Replaying.ReplayIsSweep | parser/internal/api/api_platform.go:209-237 | the code's loop is the sweep of ReplayedIff |
| Replaying.StarvedIsReachable | parser/internal/webhook/webhook.go:102-127 | a reachable state in which a healthy endpoint's row is starved |
| Delivery.FullPageClears | parser/internal/api/api_platform.go:209-237 | with every endpoint up, a call leaves 500 fewer rows waiting, or none |
| Watchdog.Watchdog.RunCheck | parser/internal/watchdog/watchdog.go:88-148 | one check, rule by rule, with the window loop and the counter delta, as specified |
| Watchdog.Watchdog.FireAlert | parser/internal/watchdog/watchdog.go:151-171 | an alert is sent when the lookup works and the rule is not cooling; it is marked if the mark is stored |
| WatchdogTheorems.TrimCut | parser/internal/watchdog/watchdog.go:116-118 | trimming the queue gives exactly the samples of the full history within 24 hours |
| WatchdogTheorems.RuleIff | parser/internal/watchdog/watchdog.go:88-171 | for each of the four rules, on every check: when its light is on; that it alerts exactly if so, the lookup works and the last mark is six hours old; what the mark is afterwards |
| WatchdogTheorems.SpikeIff | parser/internal/watchdog/watchdog.go:111-126 | after any run failed_spike lights exactly when the counter grew by the threshold against some sample of the last 24 hours; the growth is never negative |
| WatchdogTheorems.AlertsSixHoursApart | parser/internal/watchdog/watchdog.go:151-171 | over any run with any restarts, two alerts of one rule are six hours apart if the first mark was stored |
| WatchdogTheorems.EachFailureCountedOnce | parser/internal/watchdog/watchdog.go:129-134 | between restarts every delivery failure up to the last check is in the delta of exactly one check |
| WatchdogTheorems.AlertedIff | parser/internal/watchdog/watchdog.go:128-160 | each failure is counted by one check, and alerted exactly when in that check the lookup worked and the rule was not cooling |
| WatchdogTheorems.DeadIff | parser/internal/watchdog/watchdog.go:128-140 | webhook_dead is sent exactly when the counter grew, the lookup worked and the rule is not cooling |
| WatchdogTheorems.CooledFailuresAreSwallowed | parser/internal/watchdog/watchdog.go:128-160 | failures counted during the cooldown are alerted by no later check |
| WatchdogTheorems.FirstCheckSeesNothing | parser/internal/watchdog/watchdog.go:111-119 | the first check after a start never lights failed_spike |
| Redaction.RedactInPlace | parser/internal/forensic/forensic.go:109-122 | the line scanner with its flag rewrites exactly the lines governed by a recipient header, folded ones included |
| Redaction.RedactRecipients | parser/internal/forensic/forensic.go:109-122 | the block is split, rewritten and joined |
| Redaction.BlockRedaction | parser/internal/forensic/forensic.go:98-122 | same number of lines; other lines byte for byte; on governed lines no localpart before an `@` and everything outside the replaced runs kept |
| Recipients.RedactedIff | parser/internal/forensic/forensic.go:98-122 | line by line for every block: under a header named like one of the seven, in any capitals and between any blanks, every `@` after a localpart character is masked and the rest kept; every other line comes out as it went in |
| Recipients.EverySpelling | parser/internal/forensic/forensic.go:100-122 | any spelling of a recipient header with any continuations, between any other lines, comes out masked |
| Recipients.RecipientIff | parser/internal/forensic/forensic.go:113-116 | a line starts a recipient header exactly if its name spells one of the seven |
| Redaction.BlockIdempotent | parser/internal/forensic/forensic.go:98-122 | a second redaction changes nothing |
| Redaction.NoRecipientsUnchanged | parser/internal/forensic/forensic.go:109-122 | a block without recipient headers is returned byte for byte |
| Redaction.RedactCleans | parser/internal/forensic/forensic.go:98-100 | after the rewrite every `@` behind a localpart character has exactly "redacted" as its run |
| Redaction.FixedIffClean | parser/internal/forensic/forensic.go:98-100 | a line is left alone exactly when it is clean |
| Redaction.RedactKeepsSkeleton | parser/internal/forensic/forensic.go:98-100 | the text outside the replaced runs stays, in order |
| Localparts.EveryLocalpartMaskedIff | parser/internal/forensic/forensic.go:102-108 | nothing of any localpart but "redacted" is left exactly when every localpart, read back to the last delimiter outside quotes (section 3.4.1 of RFC 5322), is one unbroken run |
| Localparts.RedactKeepsOk | parser/internal/forensic/forensic.go:98-100 | to a reader that only asks for runs, the rewritten line and the original are alike |
| Localparts.QuotedLocalpartSurvives | parser/internal/forensic/forensic.go:102-108 | a quoted localpart is not redacted |
| Localparts.QuotedWordSurvives | parser/internal/forensic/forensic.go:102-108 | of a quoted word followed by a run only the run is replaced, for every word, run and rest |
| Addresses.StoredUnderLookupKey | parser/internal/store/store_intel.go:366-375 | ParseXML's columns are the lookup key, for every address |
| Addresses.ColumnsAre | parser/internal/report/report.go:182-191 | an IPv4 address is stored as its big-endian number, any other byte for byte |
| Addresses.LookupKeyInjective | parser/internal/store/store_intel.go:366-375 | two addresses share a key exactly when they are equal up to IPv4-mapped notation (section 2.5.5.2 of RFC 4291) |
| Addresses.ReadBack | parser/internal/report/report.go:182-191 | storing and reading an address back gives the reported address |
| Addresses.ViewsAgreeIff | parser/internal/enrich/observer.go:128-139 | exactly for which columns observer and SQL expression name the same address |
| Addresses.StoredViewsAgree | parser/internal/enrich/observer.go:128-139 | they do for everything the parser stores |
| Addresses.RenderRoundTrip | parser/internal/store/store.go:296-305 | rendering and parsing is the identity on all 2^32 packed values |
| Addresses.RenderIs | parser/internal/store/store.go:296-305 | the bytes are rendered from the most significant down |
| Addresses.CymruOriginName | parser/internal/enrich/cymru.go:57-73 | the name is the reversed octets or nibbles and the right zone |
| Addresses.NibblesRecoverAddress | parser/internal/enrich/cymru.go:57-73 | an origin name determines its IPv6 address |
| Addresses.ReversedOctets | parser/internal/enrich/cymru.go:57-73 | reversing the octets of an IPv4 name recovers the address |
| Retention.ReportTable.PurgeBatch | parser/internal/retention/retention.go:81-89 | as many stale rows as there are up to the limit are nulled, whichever the database picks |
| Retention.ReportTable.PurgeRawXML | parser/internal/retention/retention.go:77-101 | ends for any positive batch size; exactly the documents older than the cutoff are nulled; their number, and the number of statements; what an interruption leaves |
| Pairing.ExtractPayloads | parser/internal/mailx/mailx.go:44-109 | documents by kind in order, first-in-first-out pairing, and when the walk is an error |
| Pairing.OneDocument | parser/internal/mailx/mailx.go:90-104 | a document is collected under its own kind and no other |
| Pairing.KindsConcat | parser/internal/mailx/mailx.go:95-104 | a container is collected like its documents one after the other |
| Pairing.AcceptedFollows | parser/internal/mailx/mailx.go:77-86 | the k-th kept original comes after the k-th feedback part |
| Pairing.PairedStep | parser/internal/mailx/mailx.go:73-86 | entries with an original form a prefix, and what each part does to the list |
| Pairing.FaithfulIff | parser/internal/mailx/mailx.go:77-86 | every report gets its own original exactly when no original arrives while two or more feedback parts lack one |
| Pairing.LostIff | parser/internal/mailx/mailx.go:77-86 | an original is dropped exactly when every feedback part before it has one |
| Pairing.PairingCanMisattribute | parser/internal/mailx/mailx.go:77-86 | a mail whose first report takes the second one's original |

## Left out

- Decoders (XML, JSON, MIME, zip, gzip): documents are what they decode to; enumeration normalisation, truncation, `pickAuth` and reason joining in ParseXML are single-step computations and add nothing here.
- Integer widths: counters and sums are unbounded, so 64-bit overflow is not modelled; the 32-bit packing of IPv4 addresses is.
- Rollup.DailyTable.Backfill: one atomic step; under READ COMMITTED an upsert could fall between its DELETE and its INSERT, which at worst makes the INSERT fail.
- Days are UTC; a database session in another time zone would truncate differently.
- The four mail folders are distinct, and only the service and a reading person act on the mailbox.
- Ingest machine: the rollup is its only observer; `Fanout` adds domain_source and dkim_auth after it, the webhook notifier has its own machine.
- Pipeline registry: ordered fan-out with recovered panics; a panicking rollup is the failed upsert of the machine.
- Failure reports have no key: nothing bounds how often a retried mail stores one.
- Convergence.Converges: failure reports have no key and do not converge.
- Sources.SourceStore.Backfill: the records do not change while it works; batches on a live system are `Fanout`'s. first_seen, last_seen, first_serial and acked legitimately differ between observer and backfill and are not compared.
- Anomaly check (`checkAnomaly`): check-then-act, notifies even when its mark fails; no guarantee worth stating.
- Health and Readiness: reals instead of float64; details and blocker texts are dropped or are data values; the failing-source query is the list it returns.
- Webhooks: row ids follow insertion order, which concurrent inserts could swap; HMAC, HTTP and the payload encoding are outside.
- Watchdog: one non-decreasing clock for process and database; counters that only grow until a restart; the alert URL post has no effect on state.
- Selectors: text is ASCII for trimming, lower-casing and cutting; report rows are in primary key order and keep their documents during a backfill.
- Redaction: characters instead of bytes, ASCII case folding and ASCII blanks around header names; quotes are followed within a line, not across folds, and comments in parentheses are ordinary characters.
- Enricher workers, Team Cymru look-ups, digests, exports, audit middleware, authentication, rate limiting, configuration, metrics text and read-only list queries.
- Poller timer and TriggerNow: when cycles happen is arbitrary here.
