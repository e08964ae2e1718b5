# HoneyWatch, verified

HoneyWatch observes attacks with decoy servers and promises that an observed attack is not lost and is
labelled consistently. This project models the parts of it that carry that promise and proves what they
guarantee, and where they guarantee less than their comments say, exactly when.

| file | what it models |
|---|---|
| `Honeypot.dfy` | the bounded buffer with peek, await, pop and the shared queue client, as a machine with a step for every await of any number of coroutines |
| `BaseHoneypot.dfy` | `BaseHoneypot` itself, method by method, each call shown to be a run of that machine; runs that lose an event |
| `EventQueue.dfy` | the Redis stream, its consumer group, and the queue client that publishes, reads and acks |
| `Delivery.dfy` | stream, group, any number of workers and the event table as one machine: lost replies, crashes, group loss |
| `EventWorker.dfy` | `EventWorker` itself, each call shown to be a run of that machine |
| `Pipeline.dfy` | any number of honeypots, sharing one queue client, feeding one delivery machine, end to end |
| `Classifier.dfy`, `SeverityOrder.dfy` | the decision list and the severity scan, for arbitrary rules; which rules never let a severity drop |
| `IPContext.dfy` | the sliding-window context store with pruning and key expiry, against a recount of its whole history |
| `Backfill.dfy`, `Reruns.dfy` | relabelling with batched commits; crashes and re-runs, each listing ties in an order of its own |
| `LiveBackfill.dfy`, `Redelivery.dfy` | live labels against backfilled ones, and how often an event can be classified |
| `GeoIP.dfy`, `Countries.dfy` | the LRU resolver, and the country ranking that runs through it |
| `Ssh.dfy` | one SSH connection, callback by callback |
| `Repository.dfy`, `Pages.dfy`, `Aggregates.dfy` | filters, pages and aggregates over one snapshot |
| `RiskRanking.dfy` | risk scores and the ranking that rescores the busiest IPs |
| `Reports.dfy` | what the delivery guarantees mean for the readers of the table |
| `Events.dfy`, `Sequences.dfy` | shared data types; sums, sorting and slices |

How to read it. Concurrency is interleaving: a machine step is what one coroutine or process does between
two awaits, connecting, sending and sleeping each being an await of its own, and every theorem about runs
quantifies over all sequences of enabled steps. A network exchange
ends in one of three ways: done, done with the reply lost, or never executed. Where the source's methods are
sequential code over mutable fields, they are methods over mutable fields here, and a ghost run ties them to
the machine. Clocks, database contents, the IP parser, the bucket function and the order in which the
database returns ties are parameters, so the results hold for all of them.

Main results:

- Conservation at the sensor (`Honeypot.ConservesIffLossless`): in every run, each emitted event is in
  flight, in the stream, in the buffer or was evicted from a full buffer if and only if no step was one of
  the losing steps, named by the state just before them. One active flusher, no overflow during its flush,
  no client dropped under somebody's connect and no emit cancelled exclude them
  (`Honeypot.CalmRunsConserve`). All four conditions are needed: for each there is a run that keeps the
  other three and loses an event (`BaseHoneypot.OverlappingFlushersLose`,
  `BaseHoneypot.OverflowDuringFlushLoses`, `BaseHoneypot.DroppedClientLoses`, `BaseHoneypot.CancelledEmitLoses`).
- Delivery (`Delivery.AckedMeansStored`, `Pipeline.ReachableIsSound`, `Pipeline.NothingLostIff`): at-least-once
  upstream still gives at most one row per event, whole and labelled, and nothing is acked before it is stored.
- Labels (`Classifier.TypeIff`, `Delivery.LabelsAreJustified`, `Pipeline.LabelsAreJustified`,
  `Reruns.LabelsAreJustified`): every row of every run carries exactly the type and severity that the rules ask
  for in the context it was classified in, live or by backfill, through any failures and re-runs.
- What is not reprocessed (`Delivery.LeftBehindIff`, `Delivery.DeliveredOncePerGroup`): see the remark below.
- The context store stamps by the callers' clocks and expires by the server's. While the callers' clocks never
  run backwards and the server's stays within some lag of them, it equals a recount of its history exactly when
  window and lag together fit in the key lifetime (`IPContextStore.ExpiryInvisibleIff`); for any clocks, exactly
  when every recent attempt has an occurrence that nothing pruned or expired (`IPContextStore.RecountExactIff`).
- Backfill ranks an event at least as high as its live label, for all rules, exactly when the live context
  counts no more (`LiveBackfill.BackfillRanksAtLeastLiveIff`). One delivery out of order
  (`LiveBackfill.LateDeliveryOutranks`) or one repeated delivery (`LiveBackfill.DuplicateDeliveryOutranks`)
  breaks this, and the number of repeats is bounded by the classified entries and the
  losses of the group (`Redelivery.RepeatsBound`).
- Crash and re-run keeps every label (`Reruns.CrashAndRerun`), and ranks nothing above one uninterrupted run
  exactly when no two unclassified rows of one IP share a timestamp (`Reruns.NoHigherIffTieFree`).
- A severity never drops as a context grows exactly when the rules pass a finite check, which the shipped
  ones fail (`SeverityOrder.SeverityNeverDropsIff`, `SeverityOrder.ShippedRulesDrop`).
- The cache is the tail of the recency order, larger caches miss less, and the country ranking through it
  is the ranking by the uncached answers from any valid cache (`GeoIP.LargerCacheMissesLess`,
  `Countries.Aggregate`).
- Requests for all pages return every match once whatever the order of ties if and only if no tie straddles a
  page boundary (`Pages.CompleteIffNoStraddle`); the risk ranking errs by at most 60 points, 45 on labelled
  rows, and both bounds are attained (`RiskRanking.GetRiskRanking`, `RiskRanking.BoundIsTight`).

Where code and comments disagree the code is modelled. `handler.py:168` and `workers.py:211` say that
unacked entries are reprocessed; `consume` reads only new entries, so an unacked entry comes back only when the
whole group is lost, and after a commit whose ack failed it can never be acked. The docstring of
`_flush_buffer` assumes the popped event is the published one; two overlapping calls break that. `publish`
asserts after its connect that the client is still set; a failure of another coroutine meanwhile makes the
assertion fail, and nothing up to `emit_event` catches that.

## Model

| member | source | states |
|---|---|---|
| Honeypot.StepKeepsLedger | src/honeywatch/honeypot/base.py:36-103 | every step keeps the buffer equal to the unremoved tail of everything appended, within 10000; what was flushed is in the stream, what was evicted had 10000 later appends |
| Honeypot.StepKeepsOwnership | src/honeywatch/honeypot/base.py:55-103 | every step keeps each unpublished event owned by one coroutine at most, and the buffer never held an event twice |
| Honeypot.RunKeepsInv | src/honeywatch/honeypot/base.py:55-123 | both invariants hold after every run |
| Honeypot.PopDropsIff | src/honeywatch/honeypot/base.py:87-92 | popping after a successful publish drops an event exactly when the head is another event that is unpublished and not being sent, or the buffer is empty and the caller still owns an event |
| Honeypot.FailDropsIff | src/honeywatch/collector/handler.py:126-138 | a connection error drops an event exactly when it is the last one of a flush whose peeked event another flusher has popped unpublished |
| Honeypot.DeathDropsIff | src/honeywatch/collector/handler.py:111-118 | a coroutine that resumes from its connect to find the client gone dies, and drops an event exactly when it owns an unpublished one or its peeked event was popped unpublished |
| Honeypot.PeekedSettledIff | src/honeywatch/honeypot/base.py:87-91 | a peeked event is in the stream, the buffer or evicted unless it was popped in place of another and is unpublished |
| Honeypot.AbandonDropsIff | src/honeywatch/honeypot/base.py:93-95 | stopping a flush drops the peeked event exactly when another flusher has popped it unpublished and nobody else is sending it |
| Honeypot.CancelDropsIff | src/honeywatch/honeypot/base.py:109-116 | cancelling a coroutine drops an event exactly when it owns one that is unpublished even by the XADD under way, or its peeked event was popped unpublished |
| Honeypot.BufferedIsKeptOrEvicted | src/honeywatch/honeypot/base.py:36-78 | appending to a full buffer evicts its oldest event and no other |
| Honeypot.DropsIffLoses | src/honeywatch/honeypot/base.py:55-123 | in every reachable state a step, cancellations included, drops an accounted event if and only if it is one of the losing steps |
| Honeypot.NothingReappears | src/honeywatch/honeypot/base.py:55-123 | a lost event never comes back |
| Honeypot.ConservesIffLossless | src/honeywatch/honeypot/base.py:55-123 | over whole runs: all emitted events are accounted for if and only if no step was a losing one |
| Honeypot.CalmKeepsHeadPeeked | src/honeywatch/honeypot/base.py:87-91 | with one flusher at a time and no overflow during it, what it peeked at stays the head of the buffer |
| Honeypot.CalmKeepsClientHeld | src/honeywatch/collector/handler.py:54-61 | while nobody drops the client under a connect, whoever connects finds it set |
| Honeypot.CalmIsLossless | src/honeywatch/honeypot/base.py:65-123 | such schedules contain no losing step |
| Honeypot.CalmRunsConserve | src/honeywatch/honeypot/base.py:55-123 | so they conserve every emitted event |
| BaseHoneypot.PublishRun | src/honeywatch/collector/handler.py:109-141 | a publish of up to five attempts, with its connects, sends and sleeps, is a run of the machine with the same effect |
| BaseHoneypot.BaseHoneypot.constructor | src/honeywatch/honeypot/base.py:29-37 | starts with an empty buffer in the initial state |
| BaseHoneypot.BaseHoneypot.Send | src/honeywatch/honeypot/base.py:68-95 | one awaited publish takes the machine exactly to the state after its success or failure |
| BaseHoneypot.BaseHoneypot.FlushBuffer | src/honeywatch/honeypot/base.py:80-95 | what left the buffer is a prefix that is now in the stream; the rest is untouched, and the call is a run |
| BaseHoneypot.BaseHoneypot.PeriodicFlush | src/honeywatch/honeypot/base.py:118-123 | one wake-up flushes when there is something to flush and is otherwise without effect |
| BaseHoneypot.BaseHoneypot.EmitEvent | src/honeywatch/honeypot/base.py:55-78 | flush first, then publish, by this coroutine's own steps; the event ends in the stream or as the newest of the bounded buffer, and everything removed from the left is in the stream, but for one eviction |
| BaseHoneypot.EmitBuffers | src/honeywatch/honeypot/base.py:65-78 | during an outage an emit appends its event, leaves the client dropped and changes nothing else |
| BaseHoneypot.FillBuffer | src/honeywatch/honeypot/base.py:55-78 | an outage at the start leaves every event in the buffer, in order |
| BaseHoneypot.OverlappingFlushersLose | src/honeywatch/honeypot/base.py:65-91 | a run from the start with two overlapping emits over one buffered event that loses the second emit's event and keeps the other three conditions |
| BaseHoneypot.DroppedClientLoses | src/honeywatch/collector/handler.py:111-132 | a run from the start of two emits with connection errors only, in which the second's error drops the client under the first's connect; it loses the first's event and keeps the other three conditions |
| BaseHoneypot.CancelledEmitLoses | src/honeywatch/honeypot/base.py:68-78 | a run from the start in which an emit is cancelled during its XADD; it loses the event and keeps the other three conditions |
| BaseHoneypot.OverflowDuringFlushLoses | src/honeywatch/honeypot/base.py:78-91 | a run from the start with one flusher and an overflow during its await that pops and loses an unpublished event and keeps the other three conditions |
| EventQueue.EventQueue.constructor | src/honeywatch/collector/handler.py:30-52 | starts unconnected |
| EventQueue.EventQueue.Connect | src/honeywatch/collector/handler.py:54-95 | a missing group is created at the start of the stream, an existing one is left alone |
| EventQueue.EventQueue.TryPublish | src/honeywatch/collector/handler.py:110-132 | one attempt appends one copy exactly when its XADD took effect, and any failure drops the connection |
| EventQueue.EventQueue.Publish | src/honeywatch/collector/handler.py:97-141 | stops at the first success or gives up after five attempts; the stream gains one copy per XADD that took effect |
| EventQueue.EventQueue.Poll | src/honeywatch/collector/handler.py:162-214 | yields the next undelivered entries only; recreates a missing group by a command that can fail or lose its reply; a lost reply delivers without yielding, and any failure drops the connection |
| EventQueue.EventQueue.Ack | src/honeywatch/collector/handler.py:216-227 | removes the entry from pending exactly when the command arrives |
| EventQueue.CommandsKeepGroupInv | src/honeywatch/collector/handler.py:70-95 | every command keeps delivered entries a prefix, each pending or acked but not both |
| EventQueue.CommandsByEntry | src/honeywatch/collector/handler.py:54-95 | reading moves the cursor by at most `count` and assigns just the entries in between to the consumer; an ack takes only a pending entry, and only that one |
| Delivery.StepKeepsInv | src/honeywatch/tasks/workers.py:90-217 | every step of publishers, workers and failures keeps the whole invariant |
| Delivery.StepGrows | src/honeywatch/tasks/workers.py:166-190 | the stream, the rows and the acked entries are append-only; a stored row never changes |
| Delivery.AckedMeansStored | src/honeywatch/tasks/workers.py:166-217 | an entry ever acked failed to parse or its event has exactly one row, with the entry's fields and labels from the two domains |
| Delivery.LabelsAreJustified | src/honeywatch/tasks/workers.py:114-180 | every row of every run carries the labels that the rules ask for in the context in which the very entry it came from was classified, or the fallback |
| Delivery.DeliveredPrefix | src/honeywatch/collector/handler.py:70-95 | in every reachable state the group's delivered entries are a prefix, each pending or acked |
| Delivery.OneCopyAcked | src/honeywatch/collector/handler.py:109-138 | of all the copies of an event at most one is ever acked |
| Delivery.StepLeavesBehind | src/honeywatch/collector/handler.py:170-176 | an unacked entry whose event is stored, with no worker between its commit and ack, is in that position after any step |
| Delivery.FailedAckLeavesBehind | src/honeywatch/tasks/workers.py:182-217 | a commit followed by a failed ack puts the entry there |
| Delivery.CrashLeavesBehind | src/honeywatch/tasks/workers.py:182-188 | so does a worker that dies between its commit and its ack |
| Delivery.LeftBehindIff | src/honeywatch/tasks/workers.py:200-217 | an unacked entry can still be acked by some continuation if and only if it is not in that position |
| Delivery.DeliveredOncePerGroup | src/honeywatch/collector/handler.py:168-187 | the deliveries of an entry number at most one more than the losses of the group |
| EventWorker.EventTable.Insert | src/honeywatch/tasks/workers.py:169-184 | inserts unless the id is taken, which is an error |
| EventWorker.EventWorker.ProcessEvent | src/honeywatch/tasks/workers.py:153-217 | one row exactly when the id was free and some of ten commits arrived, with the labels the rules ask for in this context; one ack exactly when that commit also reported success and the next ack arrived at a pending entry |
| EventWorker.EventWorker.StoreAndAck | src/honeywatch/tasks/workers.py:167-217 | one attempt: commit before ack, no ack without the worker's own successful commit |
| EventWorker.EventWorker.AckStored | src/honeywatch/tasks/workers.py:186-188 | an ack after a commit, connecting if needed, counts as a failed attempt if its reply is missing |
| EventWorker.EventWorker.AckMalformed | src/honeywatch/collector/handler.py:195-214 | an entry that does not parse is acked unstored; a connection error drops the rest of the batch |
| EventWorker.EventWorker.Round | src/honeywatch/tasks/workers.py:90-98 | one round reads, then handles the whole batch by this worker's own steps, and keeps the invariant |
| Pipeline.RunKeepsInv | src/honeywatch/collector/handler.py:97-227 | honeypots and delivery together keep their invariants, and the stream holds exactly what was published |
| Pipeline.ReachableIsSound | src/honeywatch/tasks/workers.py:153-217 | every row is an emitted event, whole, labelled and alone with its id; every acked copy is stored |
| Pipeline.RowsAreEmitted | src/honeywatch/tasks/workers.py:169-180 | a row's fields are those of the one emitted event with its id |
| Pipeline.AckedIsStoredOnce | src/honeywatch/tasks/workers.py:182-188 | an acked entry is an emitted event stored exactly once, or did not parse |
| Pipeline.HoneypotsRun | src/honeywatch/honeypot/__main__.py:91-99 | each honeypot's part of a run is a run of its own machine, losing steps included, in which the others appear as users of the shared client |
| Pipeline.DeliveryRuns | src/honeywatch/collector/handler.py:97-227 | the delivery part of a run is a run of the delivery machine, so its results hold end to end |
| Pipeline.LabelsAreJustified | src/honeywatch/tasks/workers.py:114-180 | end to end, every row carries the labels justified where a worker classified the copy it came from |
| Pipeline.NothingLostIff | src/honeywatch/honeypot/base.py:55-123 | end to end: every event of a honeypot is in flight, buffered, evicted or in the stream if and only if it made no losing step |
| Pipeline.NoMoreRowsThanEvents | src/honeywatch/db/models.py:31-35 | there are never more rows than emitted events |
| Classifier.DetermineAttackType | src/honeywatch/detection/classifier.py:91-114 | the indicated type of highest documented priority, always one of six |
| Classifier.TypeIff | src/honeywatch/detection/classifier.py:91-199 | for each of the six types, exactly which field values and counts make it the type: a pattern anywhere in path or body preview, a listed credential, a listed path at the start, the two thresholds |
| Classifier.Evaluate | src/honeywatch/detection/classifier.py:213-245 | the highest level with an applicable condition, LOW when there is none |
| Classifier.SeverityIff | src/honeywatch/detection/classifier.py:213-245 | for each level, exactly which listed conditions make it the level |
| Classifier.TypeMonotone | src/honeywatch/detection/classifier.py:91-114 | more attempts and ports never lower the priority of the type, for any rules |
| Classifier.SeverityMonotone | src/honeywatch/detection/classifier.py:213-245 | for one attack type they never lower the severity |
| Classifier.SeverityMayDropWithMoreAttempts | src/honeywatch/detection/classifier.py:91-114 | a shape of rules under which one more attempt turns a port scan of at least MEDIUM into a LOW brute force |
| Classifier.ClassifyOrFallBack | src/honeywatch/tasks/workers.py:114-151 | in a context the indicated type of highest priority and the highest level supported for it there, LOW when none is; without one a suspicious request of LOW severity |
| Classifier.JustifiedOnce | src/honeywatch/detection/classifier.py:65-89 | these labels are unique, for any rules |
| SeverityOrder.NeverAboveIff | src/honeywatch/detection/classifier.py:213-245 | comparing two types where conditions start to apply compares them at every number of attempts |
| SeverityOrder.SeverityNeverDropsIff | src/honeywatch/detection/classifier.py:65-89 | a richer context never lowers the severity of any event if and only if the rules pass a finite check: port scans no lower than what they replace, brute forces at the threshold no lower than what they replace one attempt earlier |
| SeverityOrder.ShippedRulesDrop | config/detection_rules.yaml:9-91 | the shipped rules fail it: a MEDIUM port scan at 4 attempts becomes a LOW brute force at 5 |
| IPContextStore.StoreIsFaithful | src/honeywatch/detection/ipcontext.py:81-108 | incremental pruning by the callers' clocks with keys expiring on the server's leaves, for each IP, the window and ports since its last expiring silence |
| IPContextStore.ExpiryInvisible | src/honeywatch/detection/ipcontext.py:28-28 | with a window and a lag between the clocks that together fit in the key lifetime, expiry removes only what pruning would |
| IPContextStore.RecountWithinTtl | src/honeywatch/detection/ipcontext.py:88-108 | then the reported attempts are a recount of the whole history |
| IPContextStore.ExpiryInvisibleIff | src/honeywatch/detection/ipcontext.py:27-108 | for callers' clocks that never run backwards and a server clock within the lag, the recount is exact for every history if and only if window and lag together fit in the key lifetime |
| IPContextStore.LateReturnUndercounts | src/honeywatch/detection/ipcontext.py:27-28 | a history that undercounts whenever they do not |
| IPContextStore.ClockRunsBackUndercounts | src/honeywatch/detection/ipcontext.py:81-92 | under any window, a clock that runs backwards makes some answer too low |
| IPContextStore.StoreHoldsSurvivors | src/honeywatch/detection/ipcontext.py:88-108 | for any clocks, the sorted set holds exactly the attempts with an occurrence that no later call of the IP pruned and no later silence on the server expired |
| IPContextStore.RecountExactIff | src/honeywatch/detection/ipcontext.py:81-113 | for callers' clocks that are never negative and any server clock, the reported attempts are a recount of the history if and only if every recent attempt has such an occurrence |
| IPContextStore.NeverMoreThanTotal | src/honeywatch/detection/ipcontext.py:88-104 | with any clock and window, never more attempts or ports than calls |
| IPContextStore.ConsistentStep | src/honeywatch/detection/ipcontext.py:88-113 | one more update answers the context owed to the extended history whenever its clock was monotone |
| IPContextStore.IPContextStore.UpdateAndGet | src/honeywatch/detection/ipcontext.py:57-122 | answers at least one attempt, the exact window and the ports since the last silence; every failure answers the empty context, and a lost reply still records the event |
| IPContextStore.IPContextStore.Connect | src/honeywatch/detection/ipcontext.py:47-49 | connects and keeps the history |
| IPContextStore.IPContextStore.Close | src/honeywatch/detection/ipcontext.py:51-55 | disconnects and keeps the history |
| Backfill.IPContextBuilder.UpdateAndGet | src/honeywatch/detection/backfill.py:43-50 | counts one attempt and one port for this IP and leaves the others alone |
| LiveBackfill.LiveWithinRepeats | src/honeywatch/detection/backfill.py:29-50 | against a table that lists the events in order of arrival, the live context exceeds the cumulative one by no port and by no more attempts than there were repeated ids |
| LiveBackfill.ClassifyEvent | src/honeywatch/tasks/workers.py:114-151 | through the store: the labels the rules ask for in the context owed to the calls so far, in the empty context when the store gave no answer, and the fallback when anything raised |
| LiveBackfill.RanksAtMostIff | src/honeywatch/detection/classifier.py:91-114 | two contexts compare in rank under all rules if and only if they compare in attempts and number of ports |
| LiveBackfill.BackfillRanksAtLeastLiveIff | src/honeywatch/detection/backfill.py:86-103 | backfill ranks an event at least as high as its live label under all rules if and only if the live context counts no more attempts and ports |
| LiveBackfill.BackfillRanksAtLeastLive | src/honeywatch/detection/backfill.py:86-103 | without a repeated id among the arrivals counted, it does so for any rules, clocks and store failures |
| LiveBackfill.SameStoryCovers | src/honeywatch/detection/backfill.py:32-37 | events that arrive once each, in the table's order, meet those conditions |
| LiveBackfill.DuplicateDeliveryOutranks | src/honeywatch/tasks/workers.py:163-184 | one event delivered twice makes the next a brute force live, although backfill ranks it below |
| LiveBackfill.LateDeliveryOutranks | src/honeywatch/honeypot/base.py:65-78 | so does, with no repeated id, an event that waits in the buffer while a later one is delivered |
| Redelivery.ClassifiedPerEntry | src/honeywatch/tasks/workers.py:163-164 | no entry is classified more often than the group was lost, plus once |
| Redelivery.RepeatsBound | src/honeywatch/tasks/workers.py:90-98 | the repeats of an IP number at most its classified entries times one more than the group losses, less its distinct events |
| Redelivery.DeliveredOnceRanks | src/honeywatch/collector/handler.py:109-187 | without lost groups and without copies in the stream, backfill ranks at least as high as the live label |
| Redelivery.DuplicateIsReachable | src/honeywatch/collector/handler.py:109-132 | a run without a lost group in which an event appended twice is classified twice |
| Backfill.SelectIsComplete | src/honeywatch/detection/backfill.py:73-78 | the selection is in order and misses no unclassified row |
| Reruns.CumulativeWithinUpTo | src/honeywatch/detection/backfill.py:73-103 | whatever the order of ties, a run counts at a row at most the unclassified rows of its IP up to its moment, and exactly those after the last tie |
| Reruns.RunKeepsProgress | src/honeywatch/detection/backfill.py:86-120 | a run, however listed and cut, labels rows no higher than all unclassified rows of the IP up to their moment justify |
| Reruns.HistoryKeepsProgress | src/honeywatch/detection/backfill.py:86-120 | so do any number of runs, each with a tie order and an end of its own |
| Reruns.LabelsSurvive | src/honeywatch/detection/backfill.py:73-78 | a label once committed survives every later run |
| Reruns.LabelsAreJustified | src/honeywatch/detection/backfill.py:86-120 | after any runs every row is as at the start or was given both labels by one of the runs, as the rules ask for in what that run had counted |
| Reruns.CrashAndRerun | src/honeywatch/detection/backfill.py:69-120 | after any crashes, a complete run keeps every committed label, leaves nothing unclassified and labels no row higher than the rows up to its moment justify |
| Reruns.TieBreaks | src/honeywatch/detection/backfill.py:73-77 | two tied rows listed the other way round after a crash: one ranks above the uninterrupted run |
| Reruns.NoHigherIffTieFree | src/honeywatch/detection/backfill.py:73-120 | for all rules, crashes and tie orders no row ranks above one uninterrupted run if and only if no two unclassified rows of one IP share a timestamp |
| Backfill.CutAdvances | src/honeywatch/detection/backfill.py:105-115 | labelling the k-th selected row is one step of the pass |
| Backfill.LabelRow | src/honeywatch/detection/backfill.py:99-103 | the labels are those the rules ask for in the context counted up to and including the row |
| Backfill.UpdateRow | src/honeywatch/detection/backfill.py:86-115 | updates that row in the session and no other |
| Backfill.RunRelabels | src/honeywatch/detection/backfill.py:86-120 | row by row: a run labels exactly the unclassified rows listed first, all of them or the whole batches of 500 before a crash, each as the rules ask for in the context counted up to it; no other row changes |
| Backfill.Database.Backfill | src/honeywatch/detection/backfill.py:53-125 | the table after a run is the specified pass, cut at the last whole batch when it crashed, with those labels row by row |
| GeoIP.RecencyMembers | src/honeywatch/analysis/geoip.py:208-220 | the recency list forgets no IP and invents none |
| GeoIP.RecencyIsByLastUse | src/honeywatch/analysis/geoip.py:208-220 | it is ordered by position of last use, without repeats |
| GeoIP.UseIsSuffix | src/honeywatch/analysis/geoip.py:208-277 | a hit or a miss keeps the cache equal to the last `cache_size` of the recency list, empty when that is not positive |
| GeoIP.Inclusion | src/honeywatch/analysis/geoip.py:262-277 | on one trace a smaller cache holds a suffix of a larger one |
| GeoIP.LargerCacheMissesLess | src/honeywatch/analysis/geoip.py:208-220 | so a larger cache never makes more reader calls |
| GeoIP.GeoIPResolver.Resolve | src/honeywatch/analysis/geoip.py:156-220 | the database answers for public addresses of an enabled, loaded resolver, everything else is unresolved and leaves no trace; keys, order and reader calls are exactly as the trace dictates |
| GeoIP.GeoIPResolver.CachePut | src/honeywatch/analysis/geoip.py:262-277 | evicts the oldest entries beyond the size, and stores nothing for a size of zero or less |
| GeoIP.GeoIPResolver.Close | src/honeywatch/analysis/geoip.py:279-286 | afterwards every address is unresolved |
| Countries.RankingIsRanking | src/honeywatch/analysis/geoip.py:347-365 | the result has one entry per country with its exact total, strictly ordered by count descending and code ascending |
| Countries.RankingUnique | src/honeywatch/analysis/geoip.py:358-362 | and is the only such list |
| Countries.OrderInvariant | src/honeywatch/analysis/geoip.py:347-356 | permuting the input changes nothing |
| Countries.SplitInvariant | src/honeywatch/analysis/geoip.py:347-356 | splitting one count into two changes nothing |
| Countries.RankingConserves | src/honeywatch/analysis/geoip.py:347-356 | untruncated counts add up to the input, unresolved IPs under UNKNOWN included |
| Countries.PrefixIsTop | src/honeywatch/analysis/geoip.py:364-365 | truncation keeps exactly the top entries |
| Countries.RankingOfPairs | src/honeywatch/analysis/geoip.py:347-365 | the ranking places every country of the pairs, each with the sum of exactly the pairs whose IP is answered to be there, UNKNOWN with those answered nowhere |
| Countries.Aggregate | src/honeywatch/analysis/geoip.py:347-365 | through the mutating cache, from any valid cache: the top countries of the pairs by what their own IPs contribute under the uncached answers, in strict order by count and alphabet, as many as allowed |
| Ssh.SSHHoneypotServer.constructor | src/honeywatch/honeypot/ssh.py:30-53 | starts with no attempts, address or user name |
| Ssh.SSHHoneypotServer.ConnectionMade | src/honeywatch/honeypot/ssh.py:55-70 | fields and events stay what the callback history says |
| Ssh.SSHHoneypotServer.BeginAuthentication | src/honeywatch/honeypot/ssh.py:168-183 | remembers the last user name and requires authentication |
| Ssh.SSHHoneypotServer.ValidatePassword | src/honeywatch/honeypot/ssh.py:189-262 | hands over one login attempt and always refuses |
| Ssh.SSHHoneypotServer.ConnectionLost | src/honeywatch/honeypot/ssh.py:72-166 | hands over a connection event only when there was no attempt and the loop is running |
| Ssh.ConnectionIsAccountedFor | src/honeywatch/honeypot/ssh.py:72-166 | a complete connection yields one login attempt per call, or exactly one connection event with these fields |
| Ssh.EveryAttemptIsRecorded | src/honeywatch/honeypot/ssh.py:189-242 | the k-th call yields the k-th event, with its ports and addresses in their places and the version and credentials known at that moment |
| Ssh.PeerIsLast | src/honeywatch/honeypot/ssh.py:55-60 | the address reported is the last one a callback knew |
| Ssh.UsernameIsLast | src/honeywatch/honeypot/ssh.py:168-183 | the user name reported is that of the last `begin_auth` |
| Ssh.VersionIsLast | src/honeywatch/honeypot/ssh.py:204-211 | the version reported is the one set last, by a new connection or by a login attempt that knew one |
| Ssh.LoginIsCredentialAttackIff | src/honeywatch/detection/classifier.py:134-174 | a login attempt is a credential attack exactly when a listed user name or password was tried |
| Ssh.ConnectionIsNoCredentialAttack | src/honeywatch/honeypot/ssh.py:103-129 | a connection event is never a credential attack or a command injection, under any rules |
| Pages.ListEvents | src/honeywatch/db/repositories/attack.py:108-136 | the rows of the answer from position (page - 1) * per_page on, at most `per_page` of them, and the number of all matches |
| Pages.EnoughPages | src/honeywatch/api/routes/attacks.py:66-66 | `total_pages` is the least number of pages that covers the total |
| Pages.PagesPartition | src/honeywatch/db/repositories/attack.py:129-136 | under one order, what the requests for pages 1 to `total_pages` return is the answer, only the last may be short, and later ones are empty |
| Pages.BrowsingShowsMatches | src/honeywatch/db/repositories/attack.py:108-136 | they return a row if and only if protocol, address and both inclusive time bounds match |
| Pages.SamePage | src/honeywatch/db/repositories/attack.py:131-131 | the request for a page with clean boundaries returns the same rows in every order of ties |
| Pages.CompleteIffNoStraddle | src/honeywatch/db/repositories/attack.py:131-131 | the requests for all pages return each match once for all per-request orders of ties if and only if no tie straddles a page boundary |
| Aggregates.GroupsConserve | src/honeywatch/db/repositories/attack.py:276-290 | the groups of any grouping add up to the ungrouped count of any condition |
| Aggregates.SummaryCounts | src/honeywatch/db/repositories/attack.py:138-194 | the summary counts exactly the rows between the two inclusive bounds, those of protocol ssh and of http, and their distinct addresses |
| Aggregates.GroupsCountRows | src/honeywatch/db/repositories/attack.py:242-343 | every bucket and every per-IP count counts exactly its own rows in range, and is not empty |
| Aggregates.AggregatesAgree | src/honeywatch/db/repositories/attack.py:153-343 | timeline totals, per-protocol counts and per-IP counts add up to the summary, and `unique_ips` is the number of IP groups |
| Aggregates.ProtocolsCoverIff | src/honeywatch/db/repositories/attack.py:171-187 | the protocol counts cover the total if and only if every row in range is ssh or http |
| Aggregates.CountriesCoverAll | src/honeywatch/db/repositories/attack.py:303-343 | the country ranking fed by the per-IP counts accounts for every event in range |
| Aggregates.WideningIsMonotone | src/honeywatch/db/repositories/attack.py:153-157 | widening the range lowers no total and no group |
| Aggregates.SeveritiesCoverIff | src/honeywatch/api/routes/analysis.py:63-73 | the severity summary covers the total if and only if every row in range has one of the three levels |
| RiskRanking.MaxSeverity | src/honeywatch/analysis/ip.py:84-88 | the largest contribution of any severity, 0 when there is none |
| RiskRanking.ProfileDescribes | src/honeywatch/analysis/ip.py:54-106 | a profile has the number of rows of its IP in range, its recorded types, the score these and its worst recorded level add up to, and the level of that score |
| RiskRanking.ScoreMonotone | src/honeywatch/analysis/ip.py:71-90 | the score lies in 0 to 100 and never falls with more events, types or severities |
| RiskRanking.HighRiskIff | src/honeywatch/analysis/ip.py:71-106 | level HIGH needs a HIGH event, three types, or two types with a MEDIUM event; with a saturated frequency score that is also enough, and the level is MEDIUM otherwise |
| RiskRanking.GetIpAggregatesForRanking | src/honeywatch/db/repositories/attack.py:512-542 | one aggregate per chosen IP, in order, with types and severities of all time |
| RiskRanking.GetRiskRanking | src/honeywatch/api/routes/analysis.py:92-118 | as many as asked for and chosen, each describing its IP, by falling score with ties as chosen; an IP left out scores no higher when it was chosen or nobody was passed over, at most 45 higher than one with a labelled row, 60 in any case |
| RiskRanking.TopOfCandidates | src/honeywatch/api/routes/analysis.py:103-105 | nobody cut scores higher than anybody kept |
| RiskRanking.ScoreGap | src/honeywatch/analysis/ip.py:71-90 | with no more events, at most 60 points more, 45 against an IP with a labelled row |
| RiskRanking.ErrorBound | src/honeywatch/api/routes/analysis.py:92-105 | an IP left out scores at most 60 more than one shown, 45 if that one has a labelled row, 0 if all IPs were candidates |
| RiskRanking.BoundIsTight | src/honeywatch/api/routes/analysis.py:96-98 | for every limit both bounds are attained by some table with unique ids, and with addresses that fit their column for every limit the endpoint accepts |
| Reports.EveryRowIsLabelled | src/honeywatch/tasks/workers.py:169-180 | no table the workers can produce has an unlabelled row |
| Reports.SeveritySummaryIsComplete | src/honeywatch/api/routes/analysis.py:63-73 | on such tables the severity summary adds up to the total |
| Reports.DeliveredRankingBound | src/honeywatch/api/routes/analysis.py:92-105 | on such tables the ranking errs by at most 45 |
| Reports.BackfillIsIdle | src/honeywatch/detection/backfill.py:73-82 | on such tables, however listed by timestamp, backfill finds nothing and changes nothing |

## Left out

- Honeypot.Step: event ids are taken to be fresh (UUID version 4), and a network failure is one of the connection errors the code catches. The IndexError and the AssertionError that such failures lead to are modelled; exceptions of other origin are not.
- BaseHoneypot.Send: the sequential methods are proved for one call at a time; overlapping calls are covered by the machine, to which every call is tied.
- Delivery.Step: loss of the stream itself, as opposed to its group, and Redis trimming or timeouts are not modelled; nor is a response error other than a missing group, which ends the worker.
- Delivery.LeftBehindIff: says what can still happen, not that it does; no property of the form "eventually stored" is stated, because the code does not re-read pending entries and gives up after ten attempts.
- EventWorker.EventWorker.Round: the flag that `stop` clears between two events appears as a crash between two steps of the machine.
- Ssh.SSHHoneypotServer.ValidatePassword: records the `emit_event` call; what becomes of the event afterwards is the honeypot machine's matter, and the attempt limit is only logged by the source.
- IPContextStore.Expired: whether a key is still there at the very instant its lifetime ends is left open; every result holds either way.
- IPContextStore.IPContextStore.UpdateAndGet: the pipeline is one atomic step of the server, and the window is fixed and at least 1, as the rule file demands.
- GeoIP.GeoIPResolver.Resolve: a lookup that raises is not modelled, nor are the log lines; `ipaddress` and the contents of the database file are parameters.
- RiskRanking.FrequencyOk: the frequency score is any function with values from 0 to 40 that never falls with more events, so that float rounding does not matter; the exact rounded value is not computed.
- RiskRanking.AggregateOf: the first and last observation times are passed through unchanged by the source and are not modelled.
- Classifier.SeverityMonotone: holds for one attack type; over all types it holds exactly for the rules that `SeverityOrder.SeverityNeverDropsIff` names.
- LiveBackfill.Covers: live and backfilled labels are compared by counts where the table lists an IP's events in another order than they arrived in; the if-and-only-if and the witness `LateDeliveryOutranks` speak about those.
- Reruns.History: rows that workers insert between two runs carry labels, are never selected, and are not modelled.
- `port_scan.time_window`: loaded by the source but not used by the context store, so nothing is claimed about a time window for ports.
- Calendar arithmetic of `date_trunc`: the bucket function is a parameter.
- `honeypot/http.py`: path table, truncation and form parsing would only add easy members.
- JSON, YAML, SQL and Redis client libraries, FastAPI routing, authentication, settings, logging and the frontend.
- `get_top_ips`, `count_by_attack_type` and `get_ip_aggregate`: further instances of the same grouping.
- `run_worker` and the restart wrappers of the honeypots: process supervision.
