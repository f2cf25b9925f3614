# Verified model of the SMS-first agent

This project models, in Dafny, the message outbox and its workers, the payment ledger with M-Pesa crediting, the
deduplication of reminders and campaigns over time, the Redis-backed resilience machines, backup pruning, quiet hours
and SMS segment counting, and proves properties of whole runs of these parts. `dafny verify dfyconfig.toml` checks
everything.

## How the model is built

Code that updates rows in place is a class with those rows as a field (`OutboxTable`, `TransactionTable`,
`MpesaService`, `MessageTable`, `Endpoints`, `Campaign`, `DeadLetterQueue`, `Breaker`, `Limiter`, `PolicyService`,
`ScheduledMessage`). Every such method states its whole new state, as a function of the old one. Loops of the source
are loops with invariants. The properties are lemmas about those functions, over all runs. Beside each main operation
stands a law that says on the stored columns and the source's own texts what it writes and what it leaves, without the
functions it is built from (`...Writes`, `...Exactly`).

A database transaction is one step, except where its statements are interleaved with other transactions:

- `OutboxProtocol` interleaves workers that poll with SKIP LOCKED, claim, send, commit or roll back with reconciler
  passes that read first and write later, provider callbacks and suppression. `SendRefinement` shows that the send
  worker as proved in `Sends`, from poll to commit or rollback, is a run of that protocol, and `PassRefinement` the
  same of a reconciler pass.
- `MpesaRaces` splits the Celery job for a receipt into reading it, selecting a transaction, looking for an earlier
  payment, and the commit.
- `CampaignRaces` splits a campaign task into its beginning, a count for every member, and the commit.
- `Suppression` splits a scheduler run into loading open transactions and inserting their reminders.
- `PolicyCache` splits a load into its reads and its cache write.

Everything else is one step: notifications and the sweep, the M-Pesa worker's selection of pending reminders, replays,
webhooks, purges, circuit-breaker and rate-limiter calls. `Retention` is the common notion of a run for the theorems
about time: which rows an insert, an update and a purge leave, with time not running backwards.

Time is integer seconds, a date a day number, money integer cents, a row's id its position. `message_key` is text;
`MessageKeys` proves that the printers of all families are injective into one namespace, and `ReminderRuns` and
`DeadLetters` use exactly that. Its hypothesis is that policy versions and receipt codes contain no colon. The
scheduler passes no version and so always prints "v1"; `KeyCollisions` says exactly what other versions would do.

| module | what it holds |
|---|---|
| `Outbox`, `OutboxProtocol`, `Oversending` | rows, status machine and queries; all interleavings; where the bound on sends fails, exactly |
| `Sends`, `SendRefinement`, `PassRefinement` | the send loop; the worker and the reconciler's pass as runs of the protocol |
| `Ledger`, `Mpesa`, `MpesaRaces`, `Suppression` | transactions and payments; receipts credited exactly once; the same with overlapping jobs; ledger and outbox together |
| `MessageKeys`, `KeyCollisions`, `Dispatch`, `Retention` | keys and their namespace; versions with colons; insert and purge; the purge job and runs over time |
| `Reminders`, `ReminderRuns`, `DeadLetters` | the scheduler; its runs; replays |
| `Campaigns`, `CampaignRaces` | the weekly cap over runs of whole tasks; the same with overlapping tasks |
| `Webhooks` | delivery reports of both gateways |
| `CircuitBreaker`, `RateLimiter`, `PolicyCache` | state machines characterised by their event traces |
| `Backup`, `QuietHours`, `SmsSegments` | pruning, circular windows, ceiling arithmetic |

## Where the code and its documentation part

The model follows the code.

- **Sends per message.** "At most max_retries sends" holds in every run whose reconciler writes are timely
  (`SendsAreBounded`), in particular while passes do not overlap. A pass reads without a lock and later writes
  `retry_count` from what it read. After a `not_found` write over a scheduled row, every timely run keeps the bound if
  and only if the sends so far are covered by the counter written (capped by max_retries) and the rollbacks; otherwise
  some run calls the provider more than max_retries times (`LateWriteExact`). With two overlapping passes a row with
  `max_retries` 2 is sent three times (`OverlappingPassesOversend`).
- **M-Pesa payments** are documented as idempotent. The check for an earlier payment takes no lock, and payments have no
  unique code. No receipt is paid twice if and only if every job that commits had found an earlier payment or commits
  while its receipt is still unmatched (`ExactlyOnceExactly`). Two jobs that both look before either commits pay the
  receipt twice (`TwoJobsPayTwice`); one that looks after the other's commit does so exactly if it selected another
  transaction (`LateCheckPaysTwiceExactly`).
- **UNKNOWN_DELIVERY back to PENDING.** `transition_status` allows it without advancing `retry_count`; it is the one
  transition that loses a send from the account (`TransitionAccountsExactly`). The workers use the reconciler's path,
  which does advance it.
- **scheduled_at NULL** is documented as "send now" but the query never returns such rows (`PollPendingIsQuery`).
- **HALF_OPEN** is documented to admit one caller and admits everyone (`HalfOpenAdmitsEveryone`); a failure reported
  while OPEN moves `opened_at`.
- **Weekly cap.** Documented per customer, counted per business. The two answers differ exactly when the contact is
  below the cap and messages to others fill it up (`CapAnswersDifferExactly`); the per-contact bound holds all the same
  while tasks are one step each (`WeeklyCapHolds`). The count takes no lock: two tasks that both count before either
  commits give a contact more than the cap (`OverlapBreaksCap`). The cap survives if and only if at every commit the
  contact of each new row is below it in every window around that row (`CapHoldsExactly`). Rows are dated when the
  task's transaction began, the count looks back from later: with tasks that do not overlap the bound holds for windows
  of a week less that delay (`TasksAloneKeepCap`) and for none longer (`DelayIsTight`).
- **Webhooks** overwrite the status without the status machine: reports of different meaning that arrive in another
  order end differently (`OrderMattersExactly`), and a late "sent" undoes DELIVERED (`LateSentUndoesDelivered`).
- **Quiet hours** that start and end at the same hour are never quiet for one check and always quiet for the other
  (`ChecksAgreeIffEndsDiffer`).
- **Segments** are counted in characters where UCS-2 counts 16-bit units: 36 characters beyond U+FFFF count as one
  segment and need two (`SomeBodyIsUndercounted`). `CountsUnitsExactly` says for every body when the counts agree.
- **Suppression** of pending reminders is left to the M-Pesa worker (and to the CSV sync, which is outside the model). A
  pending reminder that no worker holds is never sent after its transaction became PAID if and only if the M-Pesa
  worker took that step or no poll could return the row anyway, and no reconciler pass still holds a read from which it
  could retry the row (`SilenceNeedsTheWorker`). After cash, an STK callback, the sweep or a manual status change a poll
  and a send still hand it to the provider (`PollableIsSent`). While passes do not overlap no such read exists
  (`SerialLeavesNoLateRetry`); with two overlapping passes a suppressed reminder is sent (`LateWriteBreaksSilence`). A
  paid transaction gets a new reminder exactly if a scheduler run had loaded it while it was open
  (`PaidIsScheduledExactly`).

## Model

| member | source | states |
|---|---|---|
| Outbox.PollPendingIsQuery | domain/outbox.py:86-118 | the poll returns distinct due PENDING rows with retry budget that nobody has locked, oldest first, and leaves one out only when the batch is full of rows due no later |
| Outbox.DueStaysDue | domain/outbox.py:104-118 | a row is due exactly from its scheduled time on: once a poll returns it, every later poll with room does |
| Outbox.GetUnknownDeliveriesIsQuery | domain/outbox.py:189-209 | the reconciler's query returns the UNKNOWN_DELIVERY rows old enough, least recently touched first, and leaves one out only when its limit is reached |
| Outbox.OutboxTable.ClaimForSending | domain/outbox.py:120-136 | a claim succeeds exactly for a PENDING row and then changes its status and timestamp only |
| Outbox.OutboxTable.TransitionStatus | domain/outbox.py:138-187 | raises and changes nothing exactly when the target is not allowed; otherwise sets the timestamps, provider id, retry counter and back-off of that transition |
| Outbox.TransitionWrites | domain/outbox.py:64-83 | the allowed moves one by one, and for each the columns it writes and those it leaves: sent_at, failed_at, provider id, retry counter, back-off of 1, 5 or 15 minutes |
| Outbox.OutboxTable.ReconcileUnknown | workers/reconciliation.py:92-141 | a pass over distinct rows writes every answer into its own row, by its text and the counter read, and nothing else; which answer goes into which of its four counters |
| Outbox.PassWritesAnswers | domain/reconciliation_service.py:192-207 | on the texts: "delivered" leaves DELIVERED and its timestamp, "failed", "undelivered" and "rejected" FAILED, "sent", "queued" and "accepted" SENT with an earlier sent_at kept, "not_found" PENDING with the counter read plus one; any other text touches the row only, a row not queried stays as it is |
| Outbox.OneMoreAnswered | workers/reconciliation.py:112-137 | which text raises which counter: "queued" and "accepted" count as failed although the row becomes SENT |
| Outbox.CountersAddUp | workers/reconciliation.py:112-137 | every message of a pass is in exactly one counter or was skipped without a query |
| OutboxProtocol.StepKeepsInv | workers/sends.py:168-298 | every step of any interleaving keeps: no row locked twice, every locked row still has retry budget, every provider call accounted for by retry counter or rollback |
| OutboxProtocol.RunKeepsInv | workers/sends.py:144-300 | so does every run in which each `not_found` is written from a counter that covers the sends already made |
| OutboxProtocol.SerialIsTimely | workers/reconciliation.py:92-141 | every run whose reconciler passes do not overlap makes only timely writes |
| OutboxProtocol.SendsAreBounded | domain/outbox.py:86-136 | in every interleaving with timely writes: locks are exclusive, a free PENDING row was sent at most retry_count times, any row at most max_retries times, not counting rolled-back transactions; with no rollback, at most max_retries |
| OutboxProtocol.SerialSendsAreBounded | workers/reconciliation.py:92-141 | so in every interleaving whose passes do not overlap |
| OutboxProtocol.PollSkipsLocked | domain/outbox.py:104-118 | what the poll returns is a batch the protocol lets that worker lock |
| OutboxProtocol.CallbackWrites | api/webhooks/twilio.py:66-113 | a report of each final status may arrive for any row that is not locked, and which columns it sets |
| Oversending.LateWriteExact | domain/reconciliation_service.py:192-195 | from any state the invariant allows, for any scheduled free row: after a `not_found` write from any read, every timely run keeps sends within max_retries and rollbacks if and only if the sends made so far are at most the smaller of counter read plus one and max_retries, plus the rollbacks |
| Oversending.TimelyWriteExact | domain/reconciliation_service.py:192-195 | so over a row that has spent its whole account exactly the timely writes keep the bound |
| Oversending.OverdrawnOversends | domain/reconciliation_service.py:192-195 | from one unaccounted send on, repeated send, read and write reaches more than max_retries sends for any max_retries, in the middle of whatever other workers and passes do |
| Oversending.StaleWriteExact | domain/reconciliation_service.py:192-195 | for one row and every history: the account survives the write if and only if the counter written reaches what the stored row has spent |
| Oversending.TransitionAccountsExactly | domain/outbox.py:179-185 | `transition_status` keeps the account on every allowed transition if and only if it is not UNKNOWN_DELIVERY to PENDING with budget left |
| Oversending.OverlappingPassesOversend | domain/reconciliation_service.py:192-195 | a concrete run with two overlapping passes sends a row with max_retries 2 three times without any rollback |
| Sends.SendMessage | workers/sends.py:174-296 | one message: the provider is called exactly if it is PENDING, has a contact that has not opted out, it is not quiet, the business's spend is below the budget and nothing raised; the row ends as each case demands and no other row changes; claim, counter and pause |
| Sends.OneMessage | workers/sends.py:174-296 | the same of the specification the loop is built on |
| Sends.OneVerdict | workers/sends.py:174-296 | which counter a message goes into and when the budget pauses, written out on the worker's inputs |
| Sends.BatchSendsExactly | workers/sends.py:174-296 | for every batch: a message is handed to the provider exactly if it may be sent with the spend as it is by then; a quiet or over-budget one stays PENDING with its retry counter, one without contact is FAILED, and rows outside the batch stay |
| Sends.SpendCounts | workers/sends.py:434-460 | the spend counts the segments of exactly the rows of the business that were sent since the start of the day |
| Sends.OneMoreCounted | workers/sends.py:174-296 | how each message moves each counter |
| Sends.RecordReply | workers/sends.py:244-273 | what each answer of the provider, or an exception, leaves in the claimed row |
| Sends.SendBatch | workers/sends.py:174-296 | the loop treats the batch in order and returns the calls made and the counters |
| Sends.PollAndSend | workers/sends.py:144-300 | polls, treats the batch, and keeps its writes exactly when the final commit goes through; provider calls stay made either way |
| Sends.EveryMessageIsCounted | workers/sends.py:144-300 | every polled message is claimed and counted once, or twice when the audit call failed after its send |
| Sends.SpendOf | workers/sends.py:434-460 | the spend is the sum of segments of the business's rows sent since the start of the day |
| Sends.SpendStaysInBudget | workers/sends.py:174-259 | after every message of a batch over many businesses, each business's spend is at most its start or budget - 1 + its largest accepted segment count |
| SendRefinement.LoopRefinesProtocol | workers/sends.py:174-296 | running the send loop over a locked batch is a run of the protocol with the same rows and the same provider calls |
| SendRefinement.WorkerRefinesProtocol | workers/sends.py:144-300 | so is the whole worker: its poll, its loop and its commit or rollback leave exactly its rows if it committed, its calls, and an abort for each call if it did not |
| PassRefinement.LoopRefinesProtocol | workers/reconciliation.py:112-137 | the pass's loop over rows it has read is a run of the protocol's writes with the same rows |
| PassRefinement.WritesRefineProtocol | workers/reconciliation.py:112-139 | whatever other steps happened since its query, from any state in which the pass may write its rows its writes and end are a run that resolves exactly them, from the counters it had read |
| PassRefinement.PassRefinesProtocol | workers/reconciliation.py:104-139 | with nothing in between, a whole pass from its query to its end |
| Ledger.TransactionTable.CreateTransaction | domain/transaction_service.py:118-167 | rejects a non-positive amount, a missing due date and a past one for counter sales, and otherwise adds one PENDING transaction |
| Ledger.CreationWrites | domain/transaction_service.py:118-167 | exactly which inputs are accepted, and that the transaction starts PENDING with nothing paid |
| Ledger.MoveWrites | domain/transaction_service.py:169-193 | the allowed status changes one by one, and that only PAID touches the amount |
| Ledger.CreditWrites | domain/transaction_service.py:195-239 | a payment adds up to what is due and no further, and the status says whether all, some or nothing is paid |
| Ledger.TransactionTable.UpdateStatus | domain/transaction_service.py:169-193 | raises and changes nothing exactly for a forbidden transition; PAID settles the amount |
| Ledger.TransactionTable.RecordPayment | domain/transaction_service.py:195-239 | raises on a non-positive amount; otherwise one payment row more and the transaction credited, capped at what is due |
| Ledger.PaymentsAddUp | domain/transaction_service.py:195-239 | after any payments, amount_paid is the smaller of what is due and their sum, and the status is PENDING, PARTIAL or PAID exactly as that sum is zero, below what is due, or at least that |
| Ledger.PaymentOrderIsIrrelevant | domain/transaction_service.py:195-239 | any reordering of the same payments ends in the same amount and status |
| Ledger.OpsTakePlace | domain/transaction_service.py:169-239 | in any mix, a positive payment credits and an allowed status change moves |
| Ledger.OpKeepsSound | domain/transaction_service.py:86-105 | a payment or status change keeps 0 <= paid <= due and PAID exactly when settled, never lowers what is paid and never leaves PAID |
| Ledger.LedgerStaysSound | domain/transaction_service.py:169-239 | so in every reachable state; being fully paid and being PAID are the same, and PAID is for good |
| Mpesa.MatchIsRight | domain/mpesa_service.py:201-271 | the selection without the search: an open transaction numbered like the account reference, else the payer's exact balance, else the oldest due; nothing only if there is no candidate at all |
| Mpesa.MpesaService.FindMatchingTransaction | domain/mpesa_service.py:201-271 | the search loop computes that selection |
| Mpesa.MpesaService.ReconcilePayment | domain/reconciliation_service.py:77-117 | a payment with the same reference on the same transaction is returned as it is; otherwise one is recorded |
| Mpesa.MpesaService.SendConfirmationSms | domain/mpesa_service.py:407-460 | at most one confirmation per receipt code, with the balance after the payment |
| Mpesa.MpesaService.Credit | workers/mpesa_reconciliation.py:178-209 | reconcile, link and confirm in one step, or nothing when the payment is refused |
| Mpesa.MpesaService.Receive | domain/mpesa_service.py:117-199 | a notification with a known code changes nothing; a new one is stored, and credited if a transaction matches |
| Mpesa.MpesaService.ProcessPayment | workers/mpesa_reconciliation.py:139-209 | credits an unmatched receipt of positive amount to the transaction the matching rule names whenever there is a candidate, and otherwise changes nothing |
| Mpesa.ProcessedCreditsMatch | workers/mpesa_reconciliation.py:170-209 | the same of the specification: credited exactly if some open transaction is numbered like the account reference or is the payer's |
| Mpesa.MpesaService.PollUnmatched | workers/reconciliation.py:256-308 | sweeps the receipts unmatched at the start, in order; afterwards no receipt of positive amount is left that some open transaction matches |
| Mpesa.SweepLeavesNothing | workers/reconciliation.py:256-308 | the same of the specification: later credits open no transaction, so one sweep is enough |
| Mpesa.SettledWrites | domain/transaction_service.py:195-239 | what a credit writes on the columns: one payment with the code, the link, the capped amount and status, one confirmation with the balance left |
| Mpesa.CreditSettles | workers/mpesa_reconciliation.py:178-209 | crediting an unmatched receipt raises exactly on a non-positive amount, and otherwise adds exactly one payment and one confirmation |
| Mpesa.FirstNotificationCredits | domain/mpesa_service.py:346-405 | a first notification is stored unmatched, refused whole, or credited to the selected (or named) transaction and no other |
| Mpesa.RepeatsAreNoOps | domain/mpesa_service.py:141-152 | a repeated notification, whatever else it says, and a redelivered task change nothing |
| Mpesa.RunTakesEveryStep | domain/mpesa_service.py:100-405 | a run takes each of its events, and each is the operation it names |
| Mpesa.CreditedExactlyOnce | workers/mpesa_reconciliation.py:149-222 | over every run of notifications, redelivered tasks, sweeps, cash payments, status changes and new rows: codes are unique among receipts, payments and confirmations; a receipt is linked to both a payment and a transaction or to neither; M-Pesa payments sum to the matched receipts |
| Mpesa.CreditsArePermanent | workers/mpesa_reconciliation.py:149-153 | whatever a run has credited stays credited to the same transaction by the same payment |
| Mpesa.BalancesAddUp | domain/transaction_service.py:260-262 | without manual status changes every transaction shows the sum of its payments, capped at what is due |
| MpesaRaces.ExactlyOnceExactly | workers/mpesa_reconciliation.py:139-222 | in every interleaving of the jobs' statements (receipt, selection, earlier payment, commit) with each other and everything else, no receipt is paid twice if and only if every job that commits had found an earlier payment or commits while its receipt is still unmatched; then codes, links and sums are right as well |
| MpesaRaces.CheckFindsExactly | domain/reconciliation_service.py:84-96 | the check finds an earlier payment if and only if the receipt is by then matched to the transaction the job selected |
| MpesaRaces.FoundCommitChangesNothing | domain/reconciliation_service.py:84-96 | a job that found its payment leaves the database as it is |
| MpesaRaces.TwoJobsPayTwice | domain/reconciliation_service.py:84-105 | two jobs that have selected a transaction for one unmatched receipt and both look for a payment before either commits both commit, and it is paid twice |
| MpesaRaces.OverlapPaysTwice | workers/mpesa_reconciliation.py:139-222 | every run that has paid nothing twice and holds an unmatched receipt some transaction matches can go on with two jobs that pay it twice |
| MpesaRaces.LateCheckPaysTwiceExactly | domain/reconciliation_service.py:84-105 | when the second looks after the first's commit, it pays again if and only if it selected another transaction |
| MpesaRaces.FreshCommitBalancesExactly | domain/transaction_service.py:195-239 | a job that commits in time keeps the books balanced if and only if the row it had read gives the amount the current row would give |
| Suppression.SuppressPending | workers/mpesa_reconciliation.py:211-222 | the suppression loop changes status and timestamp of exactly the PENDING rows of that transaction; every other row is as it was |
| Suppression.OthersAreNotSilenced | workers/mpesa_reconciliation.py:211-222 | a payment of the M-Pesa worker leaves every row of another transaction, or of none, and every row that is not PENDING as it was, and suppresses nothing unless the transaction is now paid in full |
| Suppression.OthersCanStillBeSent | workers/mpesa_reconciliation.py:211-222 | so a free reminder of another transaction that a poll would return can still be sent after it |
| Suppression.SettledMeansSilence | workers/mpesa_reconciliation.py:211-222 | over any run before and after the settling M-Pesa payment, no reminder that was PENDING at that commit is handed to the provider again unless a reconciler pass still held a read from which it could retry it, and none is created for the transaction unless a scheduler run had loaded it while it was open |
| Suppression.OnlyTheWorkerSuppresses | workers/mpesa_reconciliation.py:211-222 | of the steps that make a transaction PAID, exactly the M-Pesa worker's turns its PENDING rows into SUPPRESSED ones |
| Suppression.SilenceNeedsTheWorker | workers/mpesa_reconciliation.py:211-222 | from any state, after any settling step and in any run, a free PENDING reminder of the transaction is never sent again if and only if the M-Pesa worker took the step or the row could never be polled, and no reconciler pass holds a read of it that leaves retry budget |
| Suppression.LateRetryIsSent | domain/reconciliation_service.py:192-195 | for every free row of which a pass holds such a read there is a run that hands it to the provider: the write, a poll, a send |
| Suppression.SerialLeavesNoLateRetry | workers/reconciliation.py:92-141 | after any run whose passes did not overlap no pass holds a read of a PENDING row |
| Suppression.LateWriteBreaksSilence | domain/reconciliation_service.py:192-195 | a run from the empty system with two overlapping passes in which a suppressed reminder is sent |
| Suppression.PaidIsScheduledExactly | workers/reminders.py:128-142 | a PAID transaction gets a further reminder in some run if and only if a scheduler run under way had loaded it while it was open |
| Suppression.PollableIsSent | domain/outbox.py:104-118 | for every free row that a poll may return there is a run that hands it to the provider, poll and send |
| MessageKeys.ReminderText | domain/reminder_service.py:159-163 | the stored text of a reminder's key, part by part |
| MessageKeys.CampaignText | domain/campaign_service.py:112-130 | the same for a campaign message |
| MessageKeys.ConfirmText | domain/mpesa_service.py:432 | the same for a payment confirmation |
| MessageKeys.ResponseText | workers/inbound.py:585 | the same for the answer to an inbound message |
| MessageKeys.PrintRoundTrip | domain/reminder_service.py:159-163 | one parser recovers every well-formed key of all five families from its text |
| MessageKeys.KeysNeverCollide | domain/models.py:815-818 | two keys with the same text are the same key of the same family |
| KeyCollisions.CollidesExactly | domain/reminder_service.py:159-163 | for any policy version: a reminder key has the text of a well-formed key if and only if the version is a colon-free one with replay suffixes and the key is that reminder so replayed |
| KeyCollisions.OtherFamilyExactly | domain/dead_letter.py:313 | it collides with another family if and only if there is at least one such suffix |
| Dispatch.MessageTable.InsertOutboxMessages | domain/dispatch_service.py:54-117 | the table afterwards is the old one plus the new keys; inserted and skipped add up to the candidates |
| Dispatch.InsertIsExact | domain/dispatch_service.py:96-111 | old rows stay in place, every new row is one offered whose key was missing, a key is held exactly if it was held or offered, and keys stay unique |
| Dispatch.InsertWrites | domain/dispatch_service.py:78-95 | every inserted row is a fresh PENDING message of a candidate: its key, contact, kind and transaction, the given schedule or the present, no retries used, no timestamps |
| Dispatch.InsertIsIdempotent | domain/dispatch_service.py:96-111 | offering keys that are all held changes nothing |
| Dispatch.MessageTable.PurgeSentMessages | domain/retention.py:87-122 | deletes the SENT and DELIVERED rows past the cutoff, of one business if given, and counts them |
| Dispatch.MessageTable.PurgeFailedMessages | domain/retention.py:124-156 | deletes the FAILED rows past the cutoff, of one business if given, and counts them |
| Dispatch.MessageTable.PurgeMessages | domain/retention.py:265-270 | both message purges in order, with their counts |
| Retention.CallbacksLeft | domain/retention.py:158-200 | a callback survives exactly if it is not older than the cutoff or, with a business given, its message is not that business's |
| Retention.InboundLeft | domain/retention.py:202-232 | the same for inbound messages |
| Retention.OldIsExact | domain/retention.py:158-232 | both purges on the columns: what survives by age, and by business if one is given |
| Retention.RetentionService.PurgeDeliveryCallbacks | domain/retention.py:158-200 | deletes those callbacks and counts them |
| Retention.RetentionService.PurgeInboundMessages | domain/retention.py:202-232 | deletes those inbound messages and counts them |
| Retention.RetentionService.RunRetentionPurge | domain/retention.py:234-313 | the four purges in order, callbacks of deleted messages gone with them, the four counts and their total |
| Dispatch.PurgeIsExact | domain/retention.py:108-156 | a row survives exactly if it is not SENT or DELIVERED for more than 90 days, nor FAILED for more than 30 |
| Retention.CreationsAreFarApart | domain/retention.py:108-156 | over every run of inserts, updates and purges, a key is created again only after the first row was purged: more than 30 days later, more than 90 if it was SENT or DELIVERED |
| Retention.ThirtyDaysIsTight | domain/retention.py:143-156 | a run that creates the same key again after 30 days and one second |
| Retention.KeysStayUnique | domain/models.py:818 | message keys are unique in every reachable table |
| Reminders.DefaultScheduleDays | domain/reminder_service.py:103-107 | for an open transaction the day alone decides the one type due: 14 days before, 3 days before, the day, any later day |
| Reminders.OneTypePerDayExactly | domain/reminder_service.py:165-221 | under any schedule there is at most one type on every day if and only if the offsets differ and none falls into the late notice's days |
| Reminders.DueTypesExactly | domain/reminder_service.py:165-221 | for every transaction, schedule, type and day: whether the type is due then |
| Reminders.CandidateWrites | domain/reminder_service.py:295-315 | what a candidate carries, its key part by part |
| Reminders.CollectDueTypes | domain/reminder_service.py:274-293 | the types built for a transaction on a day, in order; the pickup type is never among them |
| Reminders.BuildCandidates | domain/reminder_service.py:247-317 | one candidate per due type of every open transaction, in order, each with its deterministic key |
| Reminders.OneMoreDropped | workers/reminders.py:162-178 | one whose contact or transaction is missing is dropped without being counted |
| Reminders.FilterCandidates | workers/reminders.py:162-198 | keeps the candidates whose contact exists and may be reminded and counts the suppressed ones |
| Reminders.LoadedExactly | workers/reminders.py:128-142 | the scheduler loads exactly the PENDING, PARTIAL and OVERDUE transactions that are not counter sales |
| Reminders.KeptExactly | workers/reminders.py:162-198 | kept exactly if the contact exists and has not opted out and the first transaction loaded under the id is neither PAID nor CANCELLED |
| Reminders.OneMoreSuppressed | workers/reminders.py:162-198 | counted as suppressed exactly if contact and transaction exist and one of the three reasons applies |
| Reminders.ComputeReminderCandidates | workers/reminders.py:95-222 | the scheduler's inserts and counters; nothing for an unknown business |
| ReminderRuns.AtMostTheCadence | domain/reminder_service.py:112-133 | over every run of schedulers, other inserts, updates and purges a transaction has at most 4 reminders (credit, layaway), 3 (service) or 0 (sale) |
| ReminderRuns.FullCoverageIsExact | workers/reminders.py:157-209 | with the scheduler running at least once on every day from due - 14 to due + 1 and no purge, exactly that many: one of every type |
| ReminderRuns.ValuesAreRightful | domain/reminder_service.py:295-315 | every row a scheduler run inserts carries the key of its own transaction and type |
| Campaigns.Campaign.EnforceFrequencyCap | domain/campaign_service.py:168-209 | counts the business's promotional rows of the last seven days; a positive answer means that no contact received as many as the cap in them |
| Campaigns.Campaign.BuildCampaignCandidates | domain/campaign_service.py:211-297 | one candidate per opted-in member while under the cap; counter and status updated |
| Campaigns.Campaign.Process | workers/campaigns.py:113-230 | only a scheduled or running campaign inserts; otherwise nothing changes |
| Campaigns.CapCountsAtLeastTheContact | domain/campaign_service.py:198-209 | the business-wide count is never below what one contact received in that week |
| Campaigns.CapAnswersDifferExactly | domain/campaign_service.py:176-209 | for every table and contact: the answer differs from the documented one per contact if and only if the contact is below the cap and the messages to others fill it up; a positive answer is always right |
| Campaigns.CapRefusesOthers | domain/campaign_service.py:198-209 | an instance: a customer who got nothing is refused because another one got a message |
| Campaigns.RunAddsOnePerContact | domain/campaign_service.py:257-290 | a campaign run adds at most one row per contact |
| Campaigns.TableHoldsRecentHistory | domain/retention.py:108-156 | no purge deletes a row a cap still counts: of the last 30 days the table holds all that was ever created |
| Campaigns.WeeklyCapHolds | workers/campaigns.py:161-198 | over every run of campaign tasks that are one step each, no contact is ever created more promotional rows in any closed seven-day window than the largest cap |
| CampaignRaces.UndisturbedTaskIsProcess | domain/campaign_service.py:257-290 | a task split into one count per member builds and inserts what the campaign service does when nothing comes in between |
| CampaignRaces.CapHoldsExactly | domain/campaign_service.py:198-209 | in every interleaving of beginnings, counts and commits of campaign tasks with other inserts, updates and purges, for windows of any length: no contact ever gets more than the largest cap in a window if and only if every commit finds the contact of each row it creates below the cap in every window around that row |
| CampaignRaces.TasksAloneKeepCap | workers/campaigns.py:161-223 | if no task commits between another one's counts and commit, and counts come within a delay of the task's beginning, the cap holds in all windows of a week less that delay |
| CampaignRaces.OverlapBreaksCap | domain/campaign_service.py:263-270 | a run in which two tasks with a cap of one give a contact two messages of the same moment |
| CampaignRaces.DelayIsTight | domain/campaign_service.py:187-205 | for every delay a run of tasks that do not overlap and that breaks the cap in windows one second longer |
| DeadLetters.DeadLetterQueue.MoveToDeadLetter | domain/dead_letter.py:198-248 | one letter more, a copy of the message |
| DeadLetters.DeadLetterQueue.ReplayFromDeadLetter | domain/dead_letter.py:277-350 | raises and changes nothing if there is no such letter or the new key is taken; otherwise the letter becomes one PENDING row with a fresh budget and is gone |
| DeadLetters.ReplayKeyRecovers | domain/dead_letter.py:313 | original key and replay time can be read off the replay key |
| DeadLetters.ReplayIsTakenExactly | domain/dead_letter.py:310-313 | a replay key is taken if and only if the same key was replayed in the same second |
| Webhooks.Endpoints.TwilioStatus | api/webhooks/twilio.py:66-113 | unknown ids and repeats change nothing; otherwise one callback row and the mapped status |
| Webhooks.Endpoints.DeliveryReport | api/webhooks/africas_talking.py:139-177 | the same effect, a repeat raising at commit and undoing everything |
| Webhooks.Endpoints.ProcessDeliveryCallback | domain/reconciliation_service.py:119-173 | the same for a known message, with its own timestamps |
| Webhooks.ReportWrites | api/webhooks/twilio.py:66-113 | a first report for a known message, by gateway and text: the status, its timestamp, one callback row with its event id; a text without a meaning leaves the message alone |
| Webhooks.LowerIsCaseless | api/webhooks/twilio.py:74 | what lower case means for Twilio's status texts |
| Webhooks.CallbackWrites | domain/reconciliation_service.py:149-173 | the same for a callback of a known message, whose SENT keeps an earlier sent_at |
| Webhooks.RepeatsAreRemoved | api/webhooks/africas_talking.py:148-174 | what the shortened trace leaves out: exactly the reports whose event an earlier one reported while its message was known |
| Webhooks.RepeatsLeaveNoTrace | api/webhooks/africas_talking.py:148-174 | any trace of reports and worker writes ends like the trace with every repeat of an already processed event removed |
| Webhooks.EventsStayUnique | domain/models.py:911 | no event id is ever recorded twice |
| Webhooks.OrderMattersExactly | api/webhooks/twilio.py:105-110 | two first reports end in the same status in either order if and only if they do not map to different statuses |
| Webhooks.LateSentUndoesDelivered | api/webhooks/twilio.py:66-74 | a late first "sent" takes a DELIVERED message to SENT, which the status machine forbids |
| CircuitBreaker.RunIsLinked | infra/circuit_breaker.py:203-352 | state, counter and opening time in Redis are determined by the event trace |
| CircuitBreaker.AnswerIsTraceAnswer | infra/circuit_breaker.py:203-263 | a caller is admitted exactly when the failures since the last success are below the threshold, or the cooldown since the last failure has passed, or someone was admitted since then |
| CircuitBreaker.HalfOpenAdmitsEveryone | infra/circuit_breaker.py:255-260 | once a caller is admitted, every later one is until the next report |
| CircuitBreaker.Breaker.Decide | infra/circuit_breaker.py:203-263 | answers from the stored keys and moves OPEN to HALF_OPEN after the cooldown |
| CircuitBreaker.Breaker.Ask | infra/circuit_breaker.py:203-263 | after any history that answer is the trace predicate, and the keys stay linked to the trace |
| CircuitBreaker.Breaker.RecordSuccess | infra/circuit_breaker.py:265-290 | keeps the keys linked to the trace with a success added |
| CircuitBreaker.Breaker.CountFailure | infra/circuit_breaker.py:292-331 | reopens from HALF_OPEN, otherwise counts and opens at the threshold |
| CircuitBreaker.Breaker.RecordFailure | infra/circuit_breaker.py:292-331 | keeps the keys linked to the trace with a failure added |
| CircuitBreaker.Breaker.OpenCircuit | infra/circuit_breaker.py:335-352 | sets state and opening time, not the counter |
| RateLimiter.CounterTracksWindow | infra/rate_limiter.py:143-172 | the key counts the requests of the current fixed window and expires with it |
| RateLimiter.AdmitsFirstOfWindow | infra/rate_limiter.py:143-172 | exactly the first `limit` requests of each window are admitted |
| RateLimiter.AdmittedCounts | infra/rate_limiter.py:143-172 | the count of a stretch grows by one with each admitted request |
| RateLimiter.AtMostTwiceTheLimit | infra/rate_limiter.py:143-172 | within any stretch of one window length at most twice the limit |
| RateLimiter.WaitingHelps | infra/rate_limiter.py:160-172 | a rejected client that waits retry_after is admitted if nobody else comes first |
| RateLimiter.Limiter.Register | infra/rate_limiter.py:143-172 | increment, expiry on the first hit, comparison and retry time |
| RateLimiter.Limiter.CheckRateLimit | infra/rate_limiter.py:106-172 | after any trace a request passes exactly if it is among the first of its window |
| PolicyCache.EntryLives | domain/policy_service.py:160-186 | a cache entry answers for 300 seconds from its write unless a delete comes first |
| PolicyCache.LoadsAreRecent | domain/policy_service.py:152-186 | under any interleaving of loads and saves and any failing delete, a load returns a policy that was stored within the last 300 seconds plus the longest gap between read and cache write |
| PolicyCache.RacingLoadServesOldPolicy | domain/policy_service.py:152-186 | a load that read before a save hides the save from later loads although the delete worked |
| PolicyCache.CallIsExact | domain/policy_service.py:141-229 | a call of its own with a working delete: a load returns the stored policy, a save replaces it, and the cache agrees again |
| PolicyCache.SequentialLoadsAreExact | domain/policy_service.py:141-229 | in every sequential run of loads, saves and pauses, every load returns exactly the policy saved last |
| PolicyCache.PolicyService.LoadPolicy | domain/policy_service.py:141-186 | cache hit, or database and cache write, with every Redis failure; exact while the cache is fresh |
| PolicyCache.PolicyService.SavePolicy | domain/policy_service.py:188-229 | raises for an unknown business; otherwise stores, and deletes the cache entry if Redis lets it |
| Backup.SundaysAreWeekly | infra/backup.py:271-283 | the Sundays are 4 January 1970 and every seventh day before and after it |
| Backup.PruneIsExact | infra/backup.py:262-283 | a file is kept exactly if it is among the newest, or a Sunday with too few older-window Sundays before it |
| Backup.PruneComposes | infra/backup.py:250-298 | pruning before adding new files makes no difference to pruning after |
| Backup.DailyPruningIsOnePruning | infra/backup.py:250-298 | after any number of days the directory is what pruning the whole history once would leave |
| Backup.PruneIsIdempotent | infra/backup.py:250-298 | pruning again changes nothing |
| Backup.KeepDaily | infra/backup.py:266-269 | the first loop keeps exactly the files at the first `keep_daily` positions of the listing |
| Backup.KeepWeekly | infra/backup.py:271-283 | the second loop keeps the newest Sundays of the rest, up to the limit |
| Backup.DeleteOthers | infra/backup.py:285-298 | the deletion loop removes and counts the others; a failing unlink leaves its file uncounted |
| Backup.CleanupOldBackups | infra/backup.py:214-298 | exactly the kept files and those that could not be deleted are left, in order; left and deleted add up |
| QuietHours.QuietOnTheClock | domain/quiet_hours.py:85-128 | quiet exactly from the start hour to the end hour on the local clock, past midnight if the start is the later one |
| QuietHours.NextAllowedIsLeast | domain/quiet_hours.py:130-174 | the returned time is allowed, every instant before it from now on is quiet, and it is at most a day away |
| QuietHours.NextAllowedIsFixedPoint | domain/quiet_hours.py:130-174 | it is its own next allowed time |
| QuietHours.ChecksAgreeIffEndsDiffer | domain/policy_service.py:241-251 | both quiet checks agree at every instant if and only if the window's ends differ; otherwise they always disagree |
| QuietHours.ScheduledMessage.DeferIfQuiet | domain/quiet_hours.py:176-236 | a message is deferred exactly in quiet hours, to the first allowed moment |
| SmsSegments.Gsm7Exactly | domain/templates.py:300-322 | a body counts in septets exactly if every character is in the default alphabet |
| SmsSegments.CountIsLeast | domain/templates.py:324-331 | the count is the least number of segments that hold the body |
| SmsSegments.CountIsMonotone | domain/templates.py:324-331 | within one alphabet a longer body never counts fewer segments |
| SmsSegments.CountIsNumberOfParts | domain/templates.py:300-331 | the count is the number of parts a splitter produces, each part fits its segment, and the parts join to the body |
| SmsSegments.Checked | domain/templates.py:284-293 | `render` lets a body out, unchanged, if and only if the capacity of the cap in force holds it |
| SmsSegments.CountsUnitsExactly | domain/templates.py:318-331 | counting characters equals counting 16-bit units if and only if the body is in the default alphabet, has at most 70 units, or has more than 70 characters and its units fit the segments they fill |
| SmsSegments.AstralBodiesAreUndercounted | domain/templates.py:324-331 | every body of 36 to 67 characters beyond U+FFFF counts as one segment and needs two |
| SmsSegments.SomeBodyIsUndercounted | domain/templates.py:324-331 | there is such a body |

## Left out

- Liveness of the outbox: an exception between claim and send commits a row in SENDING, and nothing picks such rows up.
- Mpesa.CreditedExactlyOnce: one business, each job one atomic step; MpesaRaces.ExactlyOnceExactly is the interleaved form, where a job that fails on a unique key or otherwise is an abort. In both a notification is one step: its receipt is not visible to others before its commit. The CSV payment sync, which records payments without deduplication, is outside both.
- PassRefinement.PassRefinesProtocol: nothing interrupts the pass; PassRefinement.WritesRefineProtocol is about steps between its query and its writes, and steps between two writes are in `OutboxProtocol` only.
- The shape of the record built in api/webhooks/mpesa.py; the shape of domain/mpesa_service.py is modelled. STK requests, cross-business transaction ids and their HTTP calls.
- A second read of an already consumed query result (existing receipt, existing confirmation) is modelled as returning the existing record.
- Audit logging: a call that raises is a flag of the send loop, elsewhere it does nothing.
- Campaign rows carry no transaction in the model; the source writes transaction id 0, which the foreign key of the outbox has no row for. Counting rows with a campaign id is unused in the source.
- ReminderRuns.FullCoverageIsExact: a transaction's customer, contact, type and due date do not change, and its due date has a four-digit year; custom schedules are covered by Reminders.OneTypePerDayExactly only.
- Cascading deletes of contacts and businesses. Webhooks.RepeatsLeaveNoTrace is about the time between callback purges.
- Campaigns.WeeklyCapHolds: tasks are one step each; CampaignRaces.CapHoldsExactly is the interleaved form.
- The scripts in `scripts/`, which insert rows of their own (scripts/send_promo.py prints keys `promo:…` of a sixth family).
- Message bodies, language and templates: rows hold the columns the rules read.
- RateLimiter.AtMostTwiceTheLimit: the counter and its expiry are set in one step; a crash between the two Redis commands is not modelled.
- Time zones and daylight saving: a constant offset. Prices are whole cents.
- Keyword parsing of inbound messages, phone normalisation, credit terms, dashboards, adapters, signatures, encryption, `pg_dump`, task configuration: input, output or easy members.
