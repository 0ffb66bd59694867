# Verified model of the SRE agent's alert-to-report pipeline

The system turns Grafana alerts into root-cause reports. A backend ingests webhook deliveries into
alert events, instances and incidents, and commits one RCA run, one worker job and one outbox row with
every new incident. A publisher sends outbox rows to a broker. Workers receive the messages, claim the
jobs under leases, run specialist branches that collect evidence over MCP, and persist a report. Operators
read incidents, runs and trace waterfalls back in pages.

This project models those parts in Dafny and proves what they promise over every input, every
interleaving and every run. `dafny verify dfyconfig.toml` checks it.

| files | what they hold |
|---|---|
| `LeaseTables`, `LeaseProtocol`, `LeaseLimits`, `RunTransitions`, `ReportLedger`, `LeaseHandler` | the job lease protocol: the SQL transactions on jobs, runs and attempts; the state machine of any number of workers; runs that show where its guarantees end; how run statuses relate to the backend's transition table; the reports that executions store; the handler in imperative form |
| `ParentWalk`, `TraceModel`, `WaterfallOrder`, `WaterfallWorker`, `WaterfallReader` | the trace waterfall: walks along parent links, the display order, the worker's normaliser, the backend's own check |
| `IngestionModel`, `IngestionProofs`, `IngestionRuns`, `IngestionService` | the ingestion transaction on its tables, what it keeps, whole histories, and `execute` in imperative form |
| `OutboxModel`, `OutboxDelivery`, `OutboxService` | the transactional outbox with rollbacks after sending and its draining; how many copies of a message the broker gets; its publisher and the operator recovery |
| `Pipeline`, `PipelineDelivery` | ingestion, outbox and workers composed into one system; how often it delivers a job's message |
| `Chunking`, `EvidenceSession`, `CollectionReservation`, `AnalysisModel`, `BranchModel`, `AnalysisPipeline` | evidence chunks, the tool session of a branch, the reservation of a specialist run, analyses and bundles, what a branch meets and ends in, and the path from branches to the stored report |
| `Pagination`, `Identity` | keyset pages and run numbers; the length-prefixed incident identity |
| `Common`, `Ordering` | the optional value, the string order, sorting by a strict total order |

How the parts are modelled:

- A SQL transaction is one atomic step on maps keyed by primary key; unique indexes and check constraints
  of the migrations appear as guards. The lease clock only moves forward. A worker process is a phase
  between two of its transactions, so a worker has at most one claim in flight, as its pull loop is
  sequential. Crashes, redeliveries and any interleaving are steps.
- `uuid4()` values, clocks, broker answers, MCP answers and everything the language model writes are
  parameters or nondeterministic values. UTF-8 is any injective function, hashes are any functions.
- Where a contract has to say what becomes of a fault or of a model's answer, these are inputs of the method
  (`Conditions`, `Visit`, `Turn`, `Answer`); `calm` says that nothing else raises.
- `ReportLedger` lets an execution settle only results with the status of the report it has stored;
  `AnalysisPipeline.ProductionRcaProcessor.Process` proves that of the processor.
- Methods follow the source statement by statement and are proved equal to functions on values; the
  lemmas state what those functions keep and what whole runs of them guarantee.

What the proofs found:

- `has_valid_tree` does not answer `False` on every malformed tree. When the first bad span has a present
  parent but a missing ancestor further up, indexing raises `KeyError`. `WaterfallReader.HasValidTree`
  says exactly when, and `DeepDanglingRaises` is a document that does it.
- A lease does not protect a live holder against a redelivery that finds the job exhausted:
  `LeaseProtocol.LiveHolderLosesOnlyToMark` shows that this is the only way, and
  `LeaseLimits.RedeliveryFailsLiveHolder` gives a run.
- Mutual exclusion of leases holds over all runs if and only if the configured worker ids differ
  (`LeaseLimits.ExclusionNeedsDistinctIds`): the ownership guards compare worker ids, not attempts.
- The newest report of a run, which is the one operators read, need not be that of the attempt that
  settled it: storing a report does not look at the lease (`ReportLedger.LostClaimOvertakes`). It stays
  the newest if and only if no later step stores a report of the run (`NewestStaysExactlyWhen`), and only
  a claim that has lost the job can (`OnlyLostClaimsOvertake`).
- A `COMPLETE` analysis does not mean that the model has seen its evidence: a receipt shows the first
  chunk of each record, and nothing makes the model read on (`AnalysisModel.CompleteWithUnreadChunks`).
  `EvidenceSession.EvidenceToolSession.UnreadRemain` bounds what a session can have shown.
- Run statuses leave the transition table in `backend/src/sre_agent/domain/incidents/models.py:32` in
  exactly two cases (`RunTransitions.LeavesTableExactlyWhen`): a transport failure before the third
  attempt moves a run from `RUNNING` back to `QUEUED`, and a mark of a job that waits in the queue, once
  its five minutes are over, moves it from `QUEUED` straight to `FAILED`.
- Outbox delivery is at least once. It is exactly once for precisely the runs in which no transaction
  rolls back after sending and no `publish` raises after the broker has the message
  (`OutboxDelivery.ExactlyOnceExactlyWhen`, and `PipelineDelivery.ExactlyOnceExactlyWhen` for the whole
  system).
- The ownership check of `upsert_specialist_analysis` never rejects a result of the workflow: grounded
  results are all kept (`AnalysisPipeline.ProductionRcaProcessor.PersistAnalyses`).
- A folder named `__invalid__` makes a healthy alert share the identity of an invalid one;
  `Identity.IdentityShared` gives the exact condition.

## Model

| member | source | states |
|---|---|---|
| LeaseTables.ClaimKeepsCoupling | rca-worker/src/sre_rca_worker/application/rca/job_lifecycle.py:172-230 | A claim keeps the coupling of jobs, runs and attempts, opens an attempt number that no row has, happens less than five minutes after creation, and gets a deadline that lies ahead and within both limits |
| LeaseTables.RenewKeepsCoupling | rca-worker/src/sre_rca_worker/application/rca/job_lifecycle.py:143-152 | A renewal keeps the coupling and touches one job row |
| LeaseTables.SettleKeepsCoupling | rca-worker/src/sre_rca_worker/application/rca/job_lifecycle.py:298-343 | Settling a result on the current claim keeps the coupling: statuses correspond, lease fields are set iff running, completion iff terminal, failure code iff failed, attempts are 1 to attempt_count |
| LeaseTables.FailKeepsCoupling | rca-worker/src/sre_rca_worker/application/rca/job_lifecycle.py:345-389 | Settling a failure, terminal or back to the queue, keeps the coupling |
| LeaseTables.MarkKeepsCoupling | rca-worker/src/sre_rca_worker/application/rca/job_lifecycle.py:271-296 | Marking an unclaimed job failed keeps the coupling |
| LeaseTables.InsertKeepsCoupling | backend/src/sre_agent/persistence/repositories/jobs.py:41-108 | New run and job rows join the coupling |
| LeaseTables.DeadlineOpen | rca-worker/src/sre_rca_worker/application/rca/job_lifecycle.py:187-188 | For a deadline setting of 1 to 300 seconds, the claim guard is open exactly until five minutes after creation |
| LeaseProtocol.StepKeepsInv | rca-worker/src/sre_rca_worker/application/rca/job_lifecycle.py:82-389 | Every transaction of every worker, every tick, crash and new job keeps the coupling and the lease discipline: an in-flight claim holds its row with the lease it knows of, or has lost it for good |
| LeaseProtocol.RunsKeepInv | rca-worker/src/sre_rca_worker/application/rca/job_lifecycle.py:82-389 | The same after any sequence of steps |
| LeaseProtocol.OneLiveLease | rca-worker/src/sre_rca_worker/application/rca/job_lifecycle.py:128-230 | At no instant of any run do two workers both hold an unexpired lease of one job |
| LeaseProtocol.LostClaimIsPowerless | rca-worker/src/sre_rca_worker/application/rca/job_lifecycle.py:143-156 | A claim that lost its row can at no later time change a job, run or attempt row; renewing or settling answers NACK |
| LeaseProtocol.RunsAge | rca-worker/src/sre_rca_worker/application/rca/job_lifecycle.py:271-389 | Over any run terminal jobs are absorbing with their run and attempt rows, identities and first start times are fixed and attempts only grow |
| LeaseProtocol.StepAttempts | rca-worker/src/sre_rca_worker/application/rca/job_lifecycle.py:178-194 | Only a claim starts an attempt, by one, at most three times, before five minutes have passed, with a lease of one minute and a deadline ahead |
| LeaseProtocol.NoAttemptAfterLifetime | rca-worker/src/sre_rca_worker/application/rca/job_lifecycle.py:186-190 | From five minutes after creation on, no run starts another attempt |
| LeaseProtocol.AckedStep | rca-worker/src/sre_rca_worker/application/rca/job_lifecycle.py:232-269 | A step adds at most one disposition; ACK means that the job is terminal or that no row matches the message's triple; an unclaimed message is refused exactly when it names a job that is not exhausted |
| LeaseProtocol.AckIsDurable | rca-worker/src/sre_rca_worker/application/rca/job_lifecycle.py:82-94 | A message whose triple names a row is acknowledged only once its job is terminal, and it stays so, under any interleaving |
| LeaseProtocol.ExhaustedIsSettled | rca-worker/src/sre_rca_worker/application/rca/job_lifecycle.py:232-296 | A redelivery for an exhausted job, handled undisturbed, makes the job terminal and is acknowledged; a job it fails carries the reason: time over, or else attempts used up |
| LeaseProtocol.LiveHolderLosesOnlyToMark | rca-worker/src/sre_rca_worker/application/rca/job_lifecycle.py:263-296 | A worker with an unexpired lease loses its row in a step if and only if the step marks that job failed, and then the job was exhausted |
| LeaseProtocol.HolderSettles | rca-worker/src/sre_rca_worker/application/rca/job_lifecycle.py:301-343 | A holder's result reaches the job, run and attempt rows with the right statuses, times and failure code, and is acknowledged |
| LeaseProtocol.HolderFails | rca-worker/src/sre_rca_worker/application/rca/job_lifecycle.py:345-389 | A transport failure before the third attempt requeues the job 30 seconds later with NACK; every other failure is terminal with ACK |
| LeaseProtocol.ClaimableExactlyWhen | rca-worker/src/sre_rca_worker/application/rca/job_lifecycle.py:184-190 | A held job can be taken over exactly after its lease ran out, a requeued one exactly after the retry delay, each within five minutes of creation; a held job needs no other condition, because it was available when it was claimed |
| LeaseLimits.ExclusionNeedsDistinctIds | rca-worker/src/sre_rca_worker/application/rca/job_lifecycle.py:143-151 | Mutual exclusion over all runs holds if and only if the workers' configured ids differ |
| LeaseLimits.SharedIdBreaksExclusion | rca-worker/src/sre_rca_worker/application/rca/job_lifecycle.py:148 | With a shared id, a run in which two workers both hold a live lease of one job |
| LeaseLimits.RedeliveryFailsLiveHolder | rca-worker/src/sre_rca_worker/application/rca/job_lifecycle.py:263-268 | Any two workers have a run in which a redelivery fails the job under a live lease |
| RunTransitions.LeavesTableExactlyWhen | backend/src/sre_agent/domain/incidents/models.py:32-47 | In every reachable system and for every step, a run changes its status outside the table if and only if the step is an owner's transport failure before the third attempt (`RUNNING` to `QUEUED`) or a mark whose job is queued (`QUEUED` to `FAILED`, only after five minutes) |
| RunTransitions.FollowsTableExactlyWhen | rca-worker/src/sre_rca_worker/application/rca/job_lifecycle.py:271-389 | A whole run of the protocol follows the table if and only if none of its steps is one of those two |
| RunTransitions.TableIsTaken | backend/src/sre_agent/domain/incidents/models.py:32-47 | Every transition of the table between statuses that workers write is taken by some run of the protocol |
| RunTransitions.RetryLeavesTable | rca-worker/src/sre_rca_worker/application/rca/job_lifecycle.py:345-389 | From any start, a run in which a retry sends a run from `RUNNING` back to `QUEUED` |
| RunTransitions.ExpiryLeavesTable | rca-worker/src/sre_rca_worker/application/rca/job_lifecycle.py:263-296 | From any start, a run in which a mark sends a run from `QUEUED` to `FAILED` |
| ReportLedger.SettledRunsHaveReports | rca-worker/src/sre_rca_worker/application/rca/processor.py:692-779 | In every run of any number of workers, each attempt stores at most one report, so a job has at most as many as attempts and at most three; a `SUCCEEDED` or `PARTIAL` run has a `COMPLETE` or `PARTIAL` report of the attempt that settled it |
| ReportLedger.NewestStaysExactlyWhen | rca-worker/src/sre_rca_worker/application/rca/processor.py:764-779 | The newest report of a run stays the newest over any further steps if and only if none of them stores a report of the run |
| ReportLedger.OnlyLostClaimsOvertake | rca-worker/src/sre_rca_worker/application/rca/processor.py:692-779 | Once the last attempt has stored its report, only a claim that has lost the job can store another |
| ReportLedger.LostClaimOvertakes | backend/src/sre_agent/persistence/repositories/operator_reads.py:420-428 | Any two workers have a run that ends `SUCCEEDED` while its newest report is the failed one of a claim that had lost the job |
| LeaseHandler.Cluster.Claim | rca-worker/src/sre_rca_worker/application/rca/job_lifecycle.py:172-230 | The claim transaction, statement by statement, is the protocol's receive step |
| LeaseHandler.Cluster.Renew | rca-worker/src/sre_rca_worker/application/rca/job_lifecycle.py:128-156 | One renewal is the protocol's step: the lease then lasts one minute from now; a lost lease answers NACK |
| LeaseHandler.Cluster.SettleSuccess | rca-worker/src/sre_rca_worker/application/rca/job_lifecycle.py:298-343 | The settlement's three updates are the protocol's step |
| LeaseHandler.Cluster.SettleFailure | rca-worker/src/sre_rca_worker/application/rca/job_lifecycle.py:345-389 | The failing settlement's three updates are the protocol's step |
| LeaseHandler.Cluster.UnclaimedDisposition | rca-worker/src/sre_rca_worker/application/rca/job_lifecycle.py:232-269 | Reading an unclaimed job and possibly marking it, with others acting in between, is a run of the protocol with this worker's look and mark only |
| LeaseHandler.Cluster.MarkUnclaimedTerminal | rca-worker/src/sre_rca_worker/application/rca/job_lifecycle.py:271-296 | The marking transaction is the protocol's step |
| LeaseHandler.Cluster.ExecuteWithLease | rca-worker/src/sre_rca_worker/application/rca/job_lifecycle.py:96-156 | Execution renews as long as the processor runs; it ends as the processor did or with the exception of a renewal, whichever comes first before the claim's deadline, otherwise with the deadline, or with the lease lost |
| LeaseHandler.EndsInTime | rca-worker/src/sre_rca_worker/application/rca/job_lifecycle.py:96-118 | An execution that keeps its lease ends before the deadline if and only if the processor finishes or a renewal raises before it, and it ends as the first of these |
| LeaseHandler.CompletesExactlyWhen | rca-worker/src/sre_rca_worker/application/rca/job_lifecycle.py:96-118 | A result is settled as such if and only if the processor returns it before the deadline and no renewal raised before that |
| LeaseHandler.Cluster.Handle | rca-worker/src/sre_rca_worker/application/rca/job_lifecycle.py:82-94 | A whole call is a run of the protocol in which this worker does exactly the transactions its outcome calls for; it answers once, and ACK for a matching message means a terminal job. If the worker still holds the job when it settles, the rows tell the event that decided the execution: `ConnectionError` before the third attempt requeues the job 30 seconds later with NACK and fails it with MCP_TRANSPORT and ACK from then on, `TimeoutError` or a passed deadline leave DEADLINE_EXCEEDED, any other error INTERNAL_ERROR, and a result its own status |
| LeaseHandler.SettlementTells | rca-worker/src/sre_rca_worker/application/rca/job_lifecycle.py:164-170 | What each way to end an execution leaves on the job, run and attempt rows and which disposition it has, for every sequence of events; a claim that has lost the job changes nothing and answers NACK |
| ParentWalk.Walk | rca-worker/src/sre_rca_worker/domain/evidence/trace_waterfall.py:414-421 | The walk with its seen set terminates and tells a root, a missing parent and a repetition apart, each exactly when the parent links do |
| ParentWalk.TreeCharacterised | rca-worker/src/sre_rca_worker/domain/evidence/trace_waterfall.py:361-374 | One root, no missing parent and no cycle hold together exactly when every span reaches the single root |
| TraceModel.IndexSpans | rca-worker/src/sre_rca_worker/domain/evidence/trace_waterfall.py:362-366 | The id table is built exactly when ids are distinct |
| TraceModel.SortIds | rca-worker/src/sre_rca_worker/domain/evidence/trace_waterfall.py:560-564 | Sorting ids by (start, id) is a strictly ordered permutation |
| WaterfallWorker.HasCycle | rca-worker/src/sre_rca_worker/domain/evidence/trace_waterfall.py:412-421 | The result is true exactly when the parent map has a cycle |
| WaterfallWorker.ValidatedCandidate | rca-worker/src/sre_rca_worker/domain/evidence/trace_waterfall.py:361-409 | A trace is accepted exactly when its spans are distinct, form one rooted tree and lie within its duration |
| WaterfallWorker.Representative | rca-worker/src/sre_rca_worker/domain/evidence/trace_waterfall.py:288-300 | The chosen candidate is the first of highest rank |
| WaterfallWorker.ShownMeans | rca-worker/src/sre_rca_worker/domain/evidence/trace_waterfall.py:288-300 | No acceptable trace beats the one shown: a trace whose root or critical span failed beats one without, then the anomaly decides, then matches with the alert, duration and id, each where the earlier ones are equal; among equals the first is shown |
| WaterfallWorker.ScoreMeans | rca-worker/src/sre_rca_worker/domain/evidence/trace_waterfall.py:588-593 | The score of a trace is one if its root or a critical span failed, plus its anomaly, plus its duration as the last digits |
| WaterfallWorker.AncestorClosure | rca-worker/src/sre_rca_worker/domain/evidence/trace_waterfall.py:537-546 | The loop computes the union of the lineages |
| WaterfallWorker.GreedyFillsBudget | rca-worker/src/sre_rca_worker/domain/evidence/trace_waterfall.py:549-557 | Greedy adding keeps every required span with its ancestors and ends with exactly min(budget, n) spans |
| WaterfallWorker.GreedyTakesExactly | rca-worker/src/sre_rca_worker/domain/evidence/trace_waterfall.py:549-557 | Going through all spans by start and id, a span is kept if and only if it and its ancestors still fit beside the required spans and the kept ones before it |
| WaterfallWorker.OverflowKeepsPrefix | rca-worker/src/sre_rca_worker/domain/evidence/trace_waterfall.py:518-521 | Over the budget, the selection is an ancestor-closed display prefix of the critical closure that holds the root |
| WaterfallWorker.SelectionTheorem | rca-worker/src/sre_rca_worker/domain/evidence/trace_waterfall.py:510-534 | Any selection is ancestor-closed, holds the root and fits the budget; it keeps all required spans iff they fit and then fills the budget; the trace is truncated iff it has more spans than the budget |
| WaterfallWorker.ImportantSpansShown | rca-worker/src/sre_rca_worker/domain/evidence/trace_waterfall.py:510-534 | Over the spans alone: if the error and critical spans, all their ancestors by parent links and the root fit the budget, all of them are selected and the budget is used in full; if not, only the root, critical spans and ancestors of those are selected |
| WaterfallWorker.TopologicalOrder | rca-worker/src/sre_rca_worker/domain/evidence/trace_waterfall.py:567-585 | Grouping, sorting siblings and the recursive visit compute the display order |
| WaterfallWorker.Truncate | rca-worker/src/sre_rca_worker/domain/evidence/trace_waterfall.py:510-534 | The loops compute the selection in display order with its truncation flag; its ids hold every error and critical span with its ancestors whenever those fit the budget, and otherwise nothing but the root, critical spans and their ancestors |
| WaterfallOrder.DisplaySortsRootPaths | rca-worker/src/sre_rca_worker/domain/evidence/trace_waterfall.py:567-585 | The display order lists exactly the spans whose lineage is selected, sorted by root path |
| WaterfallOrder.OrderDetermined | rca-worker/src/sre_rca_worker/domain/evidence/trace_waterfall.py:567-585 | Those two facts determine the list |
| WaterfallOrder.DisplayIsPermutation | rca-worker/src/sre_rca_worker/domain/evidence/trace_waterfall.py:567-585 | On an ancestor-closed selection the display order is a permutation of it |
| WaterfallOrder.ParentsFirstSiblingsSorted | rca-worker/src/sre_rca_worker/domain/evidence/trace_waterfall.py:573-585 | Parents precede children and siblings appear in (start, id) order |
| WaterfallOrder.SubtreesContiguous | rca-worker/src/sre_rca_worker/domain/evidence/trace_waterfall.py:578-585 | Between a span and its descendant only descendants of that span appear |
| WaterfallOrder.PrefixesClosed | rca-worker/src/sre_rca_worker/domain/evidence/trace_waterfall.py:517-521 | Every prefix of the display order is ancestor-closed |
| WaterfallWorker.StoredIsValid | rca-worker/src/sre_rca_worker/domain/evidence/trace_waterfall.py:193-217 | Whatever candidate and budget, the stored document passes the backend's independent check and its field constraints |
| WaterfallWorker.NormalizeTraceEvidence | rca-worker/src/sre_rca_worker/domain/evidence/trace_waterfall.py:276-301 | A document comes back exactly when the limit is positive and some trace is acceptable; it is the document of the first acceptable trace of highest rank, it is valid, and it shows at most min(limit, 100) spans |
| WaterfallWorker.DocumentTells | rca-worker/src/sre_rca_worker/domain/evidence/trace_waterfall.py:197-217 | The document carries its trace's id, start, duration and score, counts all its spans, is truncated iff they exceed the budget, and shows as many of them as the selection has |
| WaterfallReader.HasValidTree | backend/src/sre_agent/application/operator/trace_waterfall.py:201-239 | The check answers true exactly on documents that are one rooted tree agreeing with their summary, and raises exactly when the first failing span fails above a present parent |
| WaterfallReader.DeepDanglingRaises | backend/src/sre_agent/application/operator/trace_waterfall.py:226-238 | A concrete document passes the field constraints and the summary tests, and then makes the check raise instead of answering false |
| IngestionProofs.LogKeepsInv | backend/src/sre_agent/persistence/repositories/alerts.py:278-317 | Logging an event keeps every instance the summary of its history and events in bijection with dedup keys |
| IngestionProofs.RelateKeepsInv | backend/src/sre_agent/application/alerts/ingest_grafana_alerts.py:165-207 | Relating an event keeps incidents the summaries of their links, at most one active incident per identity, and exactly the resolutions before any firing unlinked |
| IngestionProofs.RelateKeepsWork | backend/src/sre_agent/persistence/repositories/jobs.py:34-162 | Incidents, runs, jobs and outbox rows stay in one-to-one correspondence, each outbox row naming rows that exist |
| IngestionProofs.NewWorkNeverConflicts | backend/src/sre_agent/persistence/repositories/jobs.py:50-162 | For a new incident none of the `ON CONFLICT` clauses can fire |
| IngestionModel.LatestOf | backend/src/sre_agent/persistence/repositories/incidents.py:169-185 | The incident selected is the one opened last, ties by id |
| IngestionModel.LatestResolved | backend/src/sre_agent/persistence/repositories/incidents.py:151-167 | The incident reopened from is the one resolved last among those with the identity |
| IngestionRuns.DeliverKeepsInv | backend/src/sre_agent/application/alerts/ingest_grafana_alerts.py:115-220 | A delivery keeps the whole invariant, claims all its keys and finishes |
| IngestionRuns.DeliveryLogsNewAlerts | backend/src/sre_agent/application/alerts/ingest_grafana_alerts.py:115-220 | Exactly the alerts whose dedup key is not claimed and does not occur earlier in the body are logged, each with its own fields; the delivery ends `VALIDATION_FAILED` if and only if one of them is invalid, `DUPLICATE` if and only if there is none, and `PROCESSED` otherwise |
| IngestionRuns.NewAlertRelates | backend/src/sre_agent/application/alerts/ingest_grafana_alerts.py:166-211 | A new firing alert joins the unresolved incident of its identity opened last, or opens one with a queued run and job and a pending outbox row if and only if there is none; a resolved alert joins the incident opened last of all or changes nothing; joining never changes an incident's status |
| IngestionRuns.EditAllowedExactlyWhen | backend/migrations/versions/0002_grafana_normalization_v2.py:141-143 | The unique index lets a status edit pass if and only if it leaves at most one unresolved incident of the identity |
| IngestionRuns.RowsAgreeWithLog | backend/src/sre_agent/application/alerts/ingest_grafana_alerts.py:115-220 | After any history of deliveries, operator edits, publishing and worker activity, the materialised rows agree with the event log |
| IngestionRuns.OneOfEach | backend/src/sre_agent/persistence/repositories/jobs.py:34-162 | Each incident has exactly one outbox row and one run, and that run exactly one job, all named by the row's payload |
| IngestionRuns.RedeliveryIsDuplicate | backend/src/sre_agent/application/alerts/ingest_grafana_alerts.py:128-146 | Redelivering a body for its source at any later time adds one `DUPLICATE` delivery row and changes nothing else, even if the normalization rules changed |
| IngestionService.IngestGrafanaAlerts.ClaimDedupKey | backend/src/sre_agent/persistence/repositories/alerts.py:162-187 | A key is claimed exactly once |
| IngestionService.IngestGrafanaAlerts.UpsertInstance | backend/src/sre_agent/persistence/repositories/alerts.py:278-317 | The upsert starts or bumps one instance row |
| IngestionService.IngestGrafanaAlerts.GetOrCreateActive | backend/src/sre_agent/persistence/repositories/incidents.py:77-149 | An incident is created exactly when none with the identity is active, else the latest active one is selected |
| IngestionService.IngestGrafanaAlerts.CreateRcaWork | backend/src/sre_agent/persistence/repositories/jobs.py:34-162 | Run, job and outbox row are created with one shared triple |
| IngestionService.IngestGrafanaAlerts.Execute | backend/src/sre_agent/application/alerts/ingest_grafana_alerts.py:94-229 | The loop computes the delivery, in which exactly the alerts with a new key are logged: the status is `VALIDATION_FAILED` if and only if one of these is invalid, `DUPLICATE` if and only if there are none, else `PROCESSED`; each linked incident and each created outbox row is reported exactly once |
| OutboxModel.RunsAreSafe | backend/src/sre_agent/application/outbox/publish_events.py:146-265 | Over any run, with rollbacks anywhere between publish and commit: `PUBLISHED` is absorbing and holds iff published_at is set, every published row's own message and key are in the broker, and every broker message comes from a row |
| OutboxModel.BatchIsOldest | backend/src/sre_agent/application/outbox/publish_events.py:177-196 | A batch locks distinct rows and leaves none that comes before one it took |
| OutboxModel.BatchTakes | backend/src/sre_agent/application/outbox/publish_events.py:177-196 | A batch takes only rows of its status that are unpublished and not locked, and all of them if the limit allows it |
| OutboxModel.RowIsSettled | backend/src/sre_agent/application/outbox/publish_events.py:206-294 | A committed transaction publishes or fails each locked row, stamps it accordingly, and leaves the others alone |
| OutboxModel.SendsEachRowOnce | backend/src/sre_agent/application/outbox/publish_events.py:206-242 | A transaction sends each unpublished row at most once, in order, and nothing else |
| OutboxModel.CommittedBatchDrains | backend/src/sre_agent/application/outbox/publish_events.py:172-197 | A committed pending batch takes min(limit, N) rows out of N |
| OutboxModel.RoundsDrain | backend/src/sre_agent/application/outbox/publish_events.py:95-98 | k committed rounds drain N pending rows to max(0, N - k * limit), whatever the broker answers |
| OutboxDelivery.CopiesAfter | backend/src/sre_agent/application/outbox/publish_events.py:206-265 | One operation adds one copy of a row's message to the broker if and only if it takes the row, the row is not yet `PUBLISHED`, its payload decodes and `publish` does not fail before the broker has it; otherwise none |
| OutboxDelivery.ExactlyOnceExactlyWhen | backend/src/sre_agent/application/outbox/publish_events.py:146-265 | Over any run, the broker ends with each row's message once if it is `PUBLISHED` and not at all otherwise, if and only if no transaction rolled back after sending and no `publish` raised after the broker had the message |
| OutboxDelivery.RollbackSendsTwice | backend/src/sre_agent/application/outbox/publish_events.py:150-170 | A rollback after sending makes the next transaction send the message again |
| OutboxDelivery.LostAnswerSendsTwice | backend/src/sre_agent/application/outbox/publish_events.py:228-250 | Without any rollback, a `publish` that raises after the broker has the message makes a retry send it again |
| OutboxService.OutboxPublishService.PublishLockedRows | backend/src/sre_agent/application/outbox/publish_events.py:199-265 | The loop over locked rows computes the settled rows, the broker and the results |
| OutboxService.OutboxPublishService.PublishEvent | backend/src/sre_agent/application/outbox/publish_events.py:146-170 | Publishing one event settles it, rolls back, or reports it missing |
| OutboxService.OutboxPublishService.PublishStatus | backend/src/sre_agent/application/outbox/publish_events.py:103-114 | A batch outside 1 to 100 is refused, any other is one transaction on the oldest eligible rows |
| OutboxService.ResultsAnswer | backend/src/sre_agent/application/outbox/publish_events.py:206-294 | The result of each row tells the row as it was: INVALID_EVENT if and only if it is unpublished and its payload does not decode, and then nothing is sent; PUBLISH_ERROR if and only if `publish` raises; published if and only if the message was sent and accepted; no-op if and only if it was published before |
| OutboxService.SummaryAccounts | backend/src/sre_agent/application/outbox/recover_events.py:287-303 | A summary counts every row once, its `published` is the number of rows that became published, its categories are those of the failed rows, each once and invalid events first, and a status batch has no no-op |
| OutboxService.OutboxRecoveryService.RetryEvent | backend/src/sre_agent/application/outbox/recover_events.py:156-192 | Every retry is audited with a balanced summary, a missing event as not found |
| OutboxService.OutboxRecoveryService.RetryBatch | backend/src/sre_agent/application/outbox/recover_events.py:194-243 | A committed batch is audited with exactly the rows it settled |
| Pipeline.ApplyKeepsInv | backend/src/sre_agent/persistence/repositories/jobs.py:34-162 | Any step of ingestion, outbox or workers keeps all three invariants together, and no worker holds a message that names no row |
| Pipeline.BrokerMatches | backend/src/sre_agent/application/outbox/publish_events.py:60-69 | Every broker message names a job, run and incident committed together |
| Pipeline.AcknowledgedJobsAreTerminal | rca-worker/src/sre_rca_worker/application/rca/job_lifecycle.py:254-262 | In every run of the composed system an acknowledgement means that the message's job exists and is terminal; the no-match branch is never taken |
| PipelineDelivery.KeysAreDistinct | backend/src/sre_agent/persistence/repositories/jobs.py:128-162 | The idempotency keys that ingestion derives from its runs are distinct |
| PipelineDelivery.ExactlyOnceExactlyWhen | backend/src/sre_agent/application/outbox/publish_events.py:146-265 | In every run of the composed system from its start, each job's message is in the broker once if its row is `PUBLISHED` and not at all otherwise, if and only if no publishing forgets a message it sent |
| Chunking.ChunksReproduce | rca-worker/src/sre_rca_worker/domain/evidence/chunking.py:29-72 | Limits are refused exactly unless they are positive, within 8000 characters, 4 chunks and 32000 in total, and the chunks can hold the total; then the chunks spell exactly the first max_total characters, are ceil(length / chunk_chars) many and at most max_chunks, all full but the last, and spell the whole text iff not truncated |
| EvidenceSession.EvidenceToolSession.AdmitToolCall | rca-worker/src/sre_rca_worker/application/rca/evidence_tools.py:210-214 | Admitted calls are counted and never exceed the budget; a call in time is denied exactly when the budget is used up |
| EvidenceSession.EvidenceToolSession.Collect | rca-worker/src/sre_rca_worker/application/rca/evidence_tools.py:115-145 | What a collection answers for every request, table and behaviour of clock, database and collector: a receipt of a request with tools and a safe GCP scope lists all evidence of the specialist run; each fault has its code; the collector runs exactly when such a request finds no evidence persisted; nothing is added to the run but one transaction of approved drafts, and only if it had no evidence |
| EvidenceSession.EvidenceToolSession.CollectEvidence | rca-worker/src/sre_rca_worker/application/rca/evidence_tools.py:108-163 | All admitted collects of a session return the same receipt or the same error; a denied one changes nothing. The receipt is empty if and only if the scope is missing, not GCP or not safe, there are no tools, or no evidence was persisted and the collector returned none |
| EvidenceSession.EvidenceToolSession.ReadEvidenceChunk | rca-worker/src/sre_rca_worker/application/rca/evidence_tools.py:165-200 | Only chunks of the session's own records are returned, and each counts as shown; a call in time and within the budget returns the chunk exactly when it exists, and else answers ANALYSIS_UNKNOWN_EVIDENCE |
| EvidenceSession.EvidenceToolSession.UnreadRemain | rca-worker/src/sre_rca_worker/application/rca/evidence_tools.py:115-200 | Of the chunks of its receipt's records, as many as the receipt's total, a session has shown at most the first ones and one for each further call; with more chunks than that some stay unread |
| EvidenceSession.ReceiptShowsAll | rca-worker/src/sre_rca_worker/application/rca/evidence_tools.py:295-312 | A receipt shows all its chunks if and only if every record fits one chunk, as far as the budget reaches |
| EvidenceSession.ReceiptShowsFirst | rca-worker/src/sre_rca_worker/application/rca/evidence_tools.py:295-312 | A receipt shows chunk 0 of every record that is not empty, and no other chunk |
| EvidenceSession.ApprovedForOne | rca-worker/src/sre_rca_worker/application/rca/evidence_tools.py:216-273 | A record that one specialist may store is never evidence of another |
| EvidenceSession.EvidenceToolSession.PersistAll | rca-worker/src/sre_rca_worker/application/rca/evidence_tools.py:275-293 | One transaction inserts every draft as its own row under a new id, or nothing, exactly as it commits or rolls back; success means that it committed, and then the rows are all the evidence of the specialist run |
| EvidenceSession.ReceiptTruncation | rca-worker/src/sre_rca_worker/application/rca/evidence_tools.py:295-312 | A receipt is truncated exactly when some record exceeds the budget |
| CollectionReservation.ReservedRunsCommitOnce | rca-worker/src/sre_rca_worker/application/rca/processor.py:440-461 | Under the reservation, however the transactions of concurrent branches and retries interleave, all records of a specialist run come from at most one committed transaction |
| CollectionReservation.ReservationIsNeeded | rca-worker/src/sre_rca_worker/application/rca/processor.py:384-438 | Without it, two branches of one specialist run can both commit records |
| AnalysisModel.ValidatedIsOwned | rca-worker/src/sre_rca_worker/agents/specialists/validator.py:35-80 | An accepted analysis is the expected specialist's, obeys the schema, cites owned evidence only, and is never complete on truncated input |
| AnalysisModel.AcceptedExactlyWhen | rca-worker/src/sre_rca_worker/agents/specialists/validator.py:35-80 | Which drafts are accepted, exactly; which of the two codes refuses each other one; and that truncated input turns a complete analysis into a partial one that names it |
| AnalysisModel.CompleteWithUnreadChunks | rca-worker/src/sre_rca_worker/agents/specialists/validator.py:56-80 | For every record that fits the budget but not one chunk: its receipt shows fewer chunks than it has and is not truncated, and a complete analysis citing it is accepted as is |
| AnalysisModel.AnalysisRowTells | rca-worker/src/sre_rca_worker/persistence/repositories/rca.py:96-110 | The stored status is success exactly for complete analyses and failure exactly for those that normalising makes failures, with the same code |
| AnalysisModel.NormalizeFacts | rca-worker/src/sre_rca_worker/agents/specialists/workflow.py:171-191 | Normalising any bundle gives canonical order, keeps exactly the results of status other than failed that observe something, turns the others into failures with the first code they name, and accounts for every specialist |
| AnalysisModel.NormalizeKeepsDisjoint | rca-worker/src/sre_rca_worker/agents/specialists/workflow.py:171-191 | Results and failures stay disjoint and no specialist is gained or lost |
| AnalysisModel.NormalizeKeepsEach | rca-worker/src/sre_rca_worker/agents/specialists/workflow.py:171-191 | Each specialist keeps its usable result or its failure, and an unusable result becomes the failure that its analysis names |
| AnalysisModel.NormalizeIdempotent | rca-worker/src/sre_rca_worker/agents/specialists/workflow.py:171-191 | Normalising twice is normalising once, for every bundle |
| AnalysisModel.DowngradedReport | rca-worker/src/sre_rca_worker/agents/rca/synthesizer.py:26-34 | The downgrade keeps schema and citations and leaves no complete report |
| AnalysisModel.CitationsFollowStatus | rca-worker/src/sre_rca_worker/domain/rca/models.py:36-44 | A complete report cites evidence and names nothing as missing; a failed one cites none |
| AnalysisModel.TerminalFailureCode | rca-worker/src/sre_rca_worker/application/rca/processor.py:323-338 | For any list of failures the code of the run is that of the first failure of the specialist that comes first in the order metrics, traces, logs, under the same name; there is none if and only if there are no failures |
| AnalysisPipeline.DiscoveryFailuresHaveNoTools | rca-worker/src/sre_rca_worker/integrations/mcp/discovery.py:117-135 | A specialist has the tools that discovery found, or a failure with the code of what went wrong and no tools; failures come in canonical order |
| AnalysisPipeline.ProductionRcaProcessor.Analyze | rca-worker/src/sre_rca_worker/agents/specialists/adk_agent.py:61-106 | The analysis ends with the model's first exception or first acceptable answer, or with the refusal of the last allowed one; a returned analysis is the requested specialist's, cites only its session's evidence, and is complete only if no record exceeds the session's budget |
| AnalysisPipeline.ProductionRcaProcessor.InvokeBranch | rca-worker/src/sre_rca_worker/application/rca/processor.py:384-438 | A branch ends as its analysis does unless its row or its lock fails; it leaves at most one batch of evidence, and returns a grounded result of its specialist, complete only if no record exceeds the session's budget |
| AnalysisPipeline.ProductionRcaProcessor.InvokeKind | rca-worker/src/sre_rca_worker/agents/specialists/workflow.py:80-133 | For every sequence of faults and answers: one result or one failure after at most two visits; a second one follows exactly a transport error; a failure carries the code that belongs to the error that ended the branch, or the timeout code when the deadline had passed before a visit |
| BranchModel.NormalizedEnds | rca-worker/src/sre_rca_worker/agents/specialists/workflow.py:80-144 | After normalising, each specialist's entry in the bundle is what its visits ended in; an analysis that says nothing usable counts as the failure it names first |
| AnalysisPipeline.ProductionRcaProcessor.RunWorkflow | rca-worker/src/sre_rca_worker/agents/specialists/workflow.py:56-144 | The bundle's specialists are exactly those that discovery failed for and, for a safe GCP scope, those that have tools; each is in exactly one of results and failures as its visits ended, in canonical order, with results grounded in the run's evidence |
| AnalysisPipeline.ProductionRcaProcessor.UpsertAnalysis | rca-worker/src/sre_rca_worker/persistence/repositories/rca.py:48-137 | The loop over observations and references stores the analysis if and only if every reference is a record of this run and specialist run; the stored status is failed without observations and else follows the analysis, with the first missing code; otherwise nothing changes |
| AnalysisPipeline.ProductionRcaProcessor.PersistAnalyses | rca-worker/src/sre_rca_worker/application/rca/processor.py:490-520 | Exactly the owned results are kept and stored, the others become `ANALYSIS_UNKNOWN_EVIDENCE`; of grounded results none is lost |
| AnalysisPipeline.ProductionRcaProcessor.PersistFailures | rca-worker/src/sre_rca_worker/application/rca/processor.py:522-549 | In one transaction failed specialist runs lose their stored analysis and get their code; the table then agrees with the whole bundle |
| AnalysisPipeline.ProductionRcaProcessor.KnownEvidence | rca-worker/src/sre_rca_worker/application/rca/processor.py:356-367 | The union of the results' evidence, each id once |
| AnalysisPipeline.ProductionRcaProcessor.SynthesizePrompt | rca-worker/src/sre_rca_worker/agents/rca/adk_agent.py:299-343 | The report is the model's first answer that obeys the schema and cites known evidence only; there is none if and only if the model fails before one or none comes within the corrective retries, and then the code tells which: out of time, the model's own, an internal error, or validation |
| AnalysisPipeline.ProductionRcaProcessor.Synthesize | rca-worker/src/sre_rca_worker/agents/rca/adk_agent.py:245-273 | Analyses citing unknown evidence are refused before the model is asked; otherwise the report is the first acceptable answer, marked as partial if some analysis is not complete |
| AnalysisPipeline.ProductionRcaProcessor.ReportOn | rca-worker/src/sre_rca_worker/application/rca/processor.py:278-315 | Without results the report is FAILED without citations and with the first specialist's code if and only if there are failures, and PARTIAL without a code otherwise; with results it is the model's draft, and a complete draft becomes PARTIAL if and only if there are failures or incomplete analyses; it cites only this run's evidence |
| AnalysisPipeline.ProductionRcaProcessor.RunSpecialistAnalysis | rca-worker/src/sre_rca_worker/application/rca/processor.py:231-315 | A call that is not interrupted: through normalisation, ordering and audit merging the bundle stays canonical and disjoint, has each specialist as its visits ended, and the stored rows agree with it; a retry follows if and only if all failed with transport errors before the third attempt; otherwise the report follows from the bundle and the model's answers |
| AnalysisPipeline.ProductionRcaProcessor.Conclude | rca-worker/src/sre_rca_worker/application/rca/processor.py:164-172 | The result that the processor returns has the status of the report it has just stored, and the code of the failures or of the root model's failure; if storing raises there is none |
| AnalysisPipeline.ProductionRcaProcessor.Process | rca-worker/src/sre_rca_worker/application/rca/processor.py:123-172 | A call that returns has stored exactly one report, and its result has that report's status; a retried one has stored none, one that raises or is cancelled at most one. Without a usable scope it is the PARTIAL one for missing evidence, else it follows from the bundle and the model's answers; every evidence id it cites is a record of the same RCA run, a complete one cites some and only records within the session's budget |
| Pagination.PageAt | backend/src/sre_agent/persistence/repositories/operator_reads.py:164-173 | A page holds min(limit, n) of the n rows behind the cursor, and has a next cursor exactly when rows remain |
| Pagination.ListPage | backend/src/sre_agent/persistence/repositories/operator_reads.py:106-173 | A limit from 1 to 100 is used as asked, a smaller one as 1 and a larger one as 100; the page holds that many rows or all that are left, and has a next cursor exactly when rows remain |
| Pagination.PagesListEachRowOnce | backend/src/sre_agent/persistence/repositories/operator_reads.py:113-173 | Following the cursors yields every authorised row exactly once, newest first and at equal times by descending id, in max(1, ceil(n / limit)) pages |
| Pagination.RunNumberIsStable | backend/src/sre_agent/persistence/repositories/operator_reads.py:351-371 | A run has the same number on every page |
| Pagination.RunNumbersCountDown | backend/src/sre_agent/persistence/repositories/operator_reads.py:351-354 | Run numbers count down from the number of runs along the listing |
| Identity.DecodeEncode | backend/src/sre_agent/domain/alerts/identity.py:16-18 | Every list of parts below 2^32 bytes comes back from its encoding |
| Identity.EncodeDecode | backend/src/sre_agent/domain/alerts/identity.py:16-18 | Bytes that decode are the encoding of what they decode to |
| Identity.EncodeInjective | backend/src/sre_agent/domain/alerts/identity.py:16-18 | The encoding is injective |
| Identity.MakeIdentity | backend/src/sre_agent/domain/alerts/identity.py:21-53 | The parts are source, stripped folder and stripped name if nothing is missing, and else source and stripped fingerprint under `__invalid__`; exactly the missing fields are reported |
| Identity.StripMeans | backend/src/sre_agent/domain/alerts/identity.py:28-30 | Stripping leaves the text without the white space around it: the rest is all white space, and the result has none at either end |
| Identity.IdentityShared | backend/src/sre_agent/domain/alerts/identity.py:28-46 | Error-free alerts share a preimage iff source, stripped folder and stripped name agree; the exact conditions for the cases with an invalid alert |
| Identity.InvalidFolderCollides | backend/src/sre_agent/domain/alerts/identity.py:38-46 | For any whitespace, a folder named `__invalid__` gives a healthy alert the preimage of an invalid one |

## Left out

- Pub/Sub, gRPC, FastAPI, SQLAlchemy, asyncpg, ADK, Gemini and MCP transports: external calls are nondeterministic outcomes; the number of messages pulled and their acknowledgement at the broker are not modelled.
- asyncio task cancellation and the deferred settlement around it: a handler call that is cancelled is a crash step.
- `now()` inside a transaction is the instant of its atomic step; waiting for row locks, isolation levels and deadlocks are not modelled. The workers' own clocks, which decide about deadlines, are the database's clock here.
- `updated_at` columns, alert titles, severities, scopes, labels and annotations: carried as opaque values or dropped, because nothing modelled here reads them.
- `completed_at` of runs: the terminal failure path leaves it as it was, so no law about it is stated.
- A failed job whose attempt row was never closed (a crashed or marked attempt) keeps it open; the coupling speaks about the last attempt of a queued or running job.
- The constructor errors for a deadline outside 1 to 300 seconds, evidence budgets outside the contract and retry delays that are not positive: they are requirements on the objects here.
- The `ON CONFLICT` branches of `create_rca_work`: proved unreachable for a new incident by IngestionProofs.NewWorkNeverConflicts and not written out.
- Collisions of `uuid4()` values: the database refuses them, so such a delivery changes nothing.
- Parsing of webhook bodies, detection of providers, normalization rules and the hashes in fingerprints and dedup keys: functions nothing is assumed about. IngestionRuns.RedeliveryIsDuplicate relies only on the dedup key being computed from the source and the body.
- IngestionRuns.RowsAgreeWithLog: operator edits change an incident's status and resolution time within the unique index; edits of its version or alert state are outside it.
- WaterfallWorker.StoredIsValid: covers the field constraints and the tree check; the backend's identifier, service and operation patterns are stricter than the worker's and are not modelled.
- WaterfallWorker.TopologicalOrder: the source's recursive visit is subject to Python's recursion limit on very deep traces, which is not modelled.
- Span kinds, attribute allowlists, token matching for the issue score and JWT sniffing: per-field filters; the issue score is an arbitrary function of the candidate.
- Times are real numbers, so rounding of floats in offsets, durations and scores is not modelled.
- The recursion through JSON aliases and payload shapes before `_validated_candidate`: traces are modelled as decoded.
- The overflow branch of `_truncate` may leave budget unused; WaterfallWorker.SelectionTheorem states the size it has.
- OutboxModel.RoundsDrain: a round is one in which no row is locked by another transaction; `available_at` orders rows and does not delay them, as in the source.
- Evidence in the `DISABLED` mode, where each attempt persists findings again: only the `SHADOW` and `ACTIVE` path is modelled.
- The columns `model_name`, `skill_name`, `skill_sha256` and the timestamps of `specialist_runs`: nothing modelled reads them.
- AnalysisPipeline.ProductionRcaProcessor.RunSpecialistAnalysis: no other call writes rows of the same RCA run meanwhile. A worker that has lost its lease runs on until its next renewal and can overwrite `specialist_runs` under the new holder, so the stored rows agree with the bundle only without such a call; what it does to reports is in ReportLedger.
- Branches of one RCA run are run one after another here; they write different specialist runs and different dictionary entries. Their concurrency on one specialist run is CollectionReservation.
- The advisory lock is held as long as its branch: losing the database connection while holding it is not modelled.
- The legacy specialists, prompts, skills and the texts of reports: they do not affect citations or completeness.
- Base64 and timestamp formatting of cursors: a cursor is its (timestamp, id) pair; the authorisation filter is the set of rows a caller may see.
- JSON Schema validation of tool inputs is a flag of the tool.
- Detail reads of single incidents, alerts and reports, the frontend, routers, settings and migrations beyond their keys and constraints.
