# Trata sync: a verified model of the offline-first backend

Trata is a household money app whose clients work offline and synchronise
through one server. This project models the server side of that
synchronisation and proves what it promises over every batch, every run and
every reachable state.

What is modelled, module by module:

- `Domain`, `WriteRules`, `Adapters`: the six entity kinds, the operations and
  their answers, the write rules both surfaces share, what each entity supplies
  to the push engine, and what the store's create and replace statements keep
  of a payload.
- `Database`, `Engine`: the tables as one value, the decision the engine takes
  for one operation, and the batch, rollback and run built on it. A rolled-back
  batch leaves nothing but the sequence values it had drawn.
- `Chronicle`, `Integrity`, `Preservation`: the change log against the rows,
  live references, unique live names, and the proof that every operation, batch
  and run keeps them. `Preservation.Extends` relates any two databases of one
  server's life.
- `Protocol`: exactly-once effect, no lost update, delete wins, one rebase is
  enough, whose records a push may touch.
- `Outcomes`: what a fresh operation answers and leaves, stated on the payload and
  the household's rows alone: when an upsert or a delete is applied, refused or in
  conflict, with which rule and server state, and exactly which rows it changes.
- `Replica`: the cursor pull and a client that lives on it, with anyone's
  pushes interleaved between its pages and between the reads of one pull, and
  the exact set of records such a client shows.
- `Service`: the store of one open batch transaction and the push service as
  classes updated in place, every method tied to the functions of `Engine`.
- `Ledger`: account balances as the balance view derives them, conservation,
  and debt ledgers.
- `RestPatch`: the REST transaction update, shown to be a push of the merged
  full state, and mixed runs of both surfaces.
- `Listing`: the keyset-paged transaction listing over a changing store.
- `Calendar`, `AutoConfirm`: recurrence arithmetic in closed form and the
  auto-confirm sweep.
- `Guarantees`, `Witnesses`: every reachable state, households losing their
  members included; exact conditions for the promises that hold only sometimes,
  with concrete reachable inputs where they fail.

Where documentation and code disagree, the model follows the code:

- The migration and the full-state types say a transfer's destination amount is
  stored (`backend/internal/repository/postgres/migrations/000011_multi_currency.up.sql:14-17`). No transaction write of the store passes it on and no read
  returns it (`backend/internal/repository/postgres/sync.go:1254-1336`,
  `backend/internal/repository/postgres/transactions.go:22-130`), so a stored
  transfer always credits the debited amount.
- A pushed category is created active even when its payload is archived, and a
  pushed plan is created with its first due date as anchor, whatever anchor the
  payload names, against the comments at
  `backend/internal/domain/category.go:66-68` and the full-state contract.
- A pushed debtor is created in the household's base currency, and a replace
  keeps the stored one
  (`backend/internal/repository/postgres/sync.go:886-963`).
- A pull is documented to converge. It sends a debtor without its currency
  (`backend/internal/repository/postgres/sync.go:1653-1658`), and the client makes
  no row of a debtor whose currency it does not know
  (`packages/local-data/src/sync/sync-entity-catalog.generated.ts:294-300`,
  `packages/local-data/src/sync/sync-engine.ts:491-494`), so no client ever pulls
  a debtor. It passes over amounts beyond the safe integers and days outside four-
  digit years for the same reason.
- The weekly advance ignores the anchor, against its own comment
  (`backend/internal/domain/planned_payment.go:181-197`).
- The account delete rule speaks of live transactions; the query behind it
  leaves adjustments out, and the tombstone takes them along
  (`backend/internal/service/write_rules_account.go:25-28`,
  `backend/internal/repository/queries/accounts.sql:112-136`).

Assumptions the proofs rest on: a push batch is serialised with every other
write, as the household's advisory lock does within a household; ids are
non-nil UUIDs; every batch is sent by a member of a household that has members.

## Model

| member | source | states |
|---|---|---|
| Service.SyncTx.constructor | backend/internal/repository/postgres/sync.go:19-25 | The store of a new server holds no rows, no log and no applied operation. |
| Service.SyncTx.GetAppliedOperation | backend/internal/repository/postgres/sync.go:141-171 | Finds exactly the answer stored for this household and opId. |
| Service.SyncTx.GetRowAny | backend/internal/repository/postgres/sync.go:195-222 | Reads the household's row, tombstones included, and nothing of another household. |
| Service.SyncTx.PullChanges | backend/internal/repository/queries/sync.sql:29-37 | The scan returns exactly the household's entries after the cursor, in sequence order, up to the limit. |
| Service.SyncTx.NewEntityId | backend/internal/repository/postgres/tx.go:60-65 | A minted id is not in use. |
| Service.SyncTx.AppendChangeLog | backend/internal/repository/postgres/tx.go:41-58 | One entry with the next sequence value is appended. |
| Service.SyncTx.CreateRow | backend/internal/repository/postgres/sync.go:1254-1287 | A create of a free id and name gives version 1 and one log entry; a taken one, or data the tables refuse, changes nothing and says so. |
| Service.SyncTx.ReplaceRow | backend/internal/repository/postgres/sync.go:1289-1336 | Writes a live row at exactly the base version, one version on, with one log entry; otherwise classifies not-found, deleted, version mismatch or a refused statement and changes nothing. |
| Service.SyncTx.AdvancePlannedPayment | backend/internal/repository/postgres/sync.go:1222-1252 | Moves a live plan's due date and its version by one, logged; a missing or deleted plan is not found. |
| Service.SyncTx.TombstoneRows | backend/internal/repository/postgres/sync.go:647-739 | Tombstones a record and its cascade, each row one version on with its own log entry, in place in the order given. |
| Service.SyncTx.AdoptOrphanedId | backend/internal/repository/postgres/sync.go:71-137 | Frees an id only from a household without members and only when no row refers to it; a living household's record is reported, never taken. |
| Service.SyncTx.InsertAppliedOperation | backend/internal/repository/postgres/sync.go:173-191 | Records the answer under the household and opId. |
| Service.SyncService.CreateSyncEntity | backend/internal/service/sync_engine.go:230-260 | The create branch, run on the store, leaves exactly the decision of the engine function. |
| Service.SyncService.UpdateSyncEntity | backend/internal/service/sync_engine.go:264-311 | The update branch does likewise; the write-race branch is unreachable under the lock. |
| Service.SyncService.DeleteSyncEntity | backend/internal/service/sync_engine.go:317-366 | The delete branch does likewise, cascades included. |
| Service.SyncService.ApplySyncEntity | backend/internal/service/sync_engine.go:182-224 | The staged upsert and the delete leave exactly the engine's decision. |
| Service.SyncService.ApplySyncOperation | backend/internal/service/sync.go:111-155 | One operation refines the step function: replayed, refused without effect, or applied and recorded. |
| Service.SyncService.PushBatch | backend/internal/service/sync.go:49-71 | A batch refines the batch function: one answer per operation in order, or a rollback that restores rows, log and applied table; the invariant is kept. |
| Service.NameIsFree | backend/internal/service/sync_adapter_category.go:47-68 | After the pre-check the unique live-name index can never fire, although the check runs before the row is read. |
| Service.BuriedNext | backend/internal/repository/postgres/sync.go:690-739 | The next row of a cascade is still as it was before the cascade began. |
| WriteRules.TransactionRulesMeaning | backend/internal/service/write_rules_transaction.go:50-213 | The staged checks accept a transaction of known type if and only if it is well shaped, all its references are live, its category fits and it states a credit exactly when currencies differ. |
| Integrity.ValidStateRefs | backend/internal/service/sync_adapter_planned_payment.go:58-78 | Validated payloads of every kind refer only to live records and have the shape of their kind. |
| Integrity.StoredStateShape | backend/internal/repository/postgres/sync.go:1254-1336 | What create and replace keep of a valid payload has its kind's shape and the frozen fields of the row replaced. |
| Integrity.BurialsCloseReferences | backend/internal/service/write_rules_account.go:29-49 | When the delete guard lets a record go, every live row that refers to it is in the cascade. |
| Integrity.DecideSound | backend/internal/service/sync_engine.go:182-366 | Every decision the engine can commit is a sound upsert or a burial closed under live references, by versions that move one on. |
| Chronicle.PutAgrees | backend/internal/repository/postgres/tx.go:36-58 | A write with its log entry keeps folding the log equal to the rows and every record's history a chain. |
| Chronicle.EvictAgrees | backend/internal/repository/postgres/sync.go:71-137 | The unlogged delete of an orphan leaves every member household's log and rows agreeing. |
| Preservation.CommitKeepsInvariant | backend/internal/service/sync_engine.go:182-366 | Every sound commit keeps log agreement, row shapes, live references, own-household references, unique names and the applied table. |
| Preservation.StepKeeps | backend/internal/service/sync.go:111-155 | Every operation keeps the invariant and only extends the database: rows only evolve, and only where the log says so. |
| Preservation.PushKeeps | backend/internal/service/sync.go:49-71 | Every batch does, committed or rolled back. |
| Preservation.RunKeeps | backend/internal/service/sync.go:49-71 | Every run of batches of any households does. |
| Protocol.StepAnswersItsOp | backend/internal/service/sync.go:180-192 | Every answer, replayed ones included, carries the opId of its operation. |
| Protocol.RefusedIsInert | backend/internal/service/sync.go:139-154 | A conflict or error item leaves the whole database untouched. |
| Protocol.AppliedIsRecorded | backend/internal/service/sync.go:139-154 | An applied item is recorded with exactly the answer it got. |
| Protocol.FailsExactlyWhen | backend/internal/service/sync_engine.go:204-258 | An operation takes its batch down if and only if it is an upsert whose name check holds a NUL, or a valid upsert reaching the store that would adopt a still referenced orphan or that the tables refuse: a text with a NUL, an unknown account currency, a unique name beyond its index's row limit. |
| Protocol.ResultsInOrder | backend/internal/service/sync.go:56-66 | A committed batch has one answer per operation, in order. |
| Protocol.PushSplits | backend/internal/service/sync.go:57-66 | Pushing xs then ys leaves and answers what xs + ys does; a failure anywhere in xs + ys undoes all of it. |
| Protocol.RedeliveriesAreInert | backend/internal/service/sync.go:118-125 | Dropping every redelivery of an applied opId from a batch, and nothing else, leaves the same database or the same rollback. |
| Protocol.AppliedAnswersAgree | backend/internal/service/sync.go:118-154 | Every applied answer within a batch is the one stored for its opId. |
| Protocol.RunRedeliveriesAreInert | backend/internal/service/sync.go:118-125 | Dropping redeliveries across the batches of any run leaves the same database. |
| Protocol.ReplayedForEver | backend/internal/service/sync.go:118-125 | Once applied, an opId is answered with its first result after any run, whoever of the household redelivers it and whatever it then says. |
| Protocol.UpsertMovesOneVersion | backend/internal/service/sync_engine.go:220-311 | An applied upsert found exactly its base version, or no record for base 0, and left the next one. |
| Protocol.OneUpsertPerBase | backend/internal/service/sync_engine.go:220-311 | At most one upsert is ever applied per record and base version. |
| Protocol.VersionCountsChanges | backend/internal/repository/postgres/tx.go:36-58 | A row's version is the number of its entries in its household's log. |
| Protocol.VersionsRiseAlongLog | backend/internal/repository/postgres/tx.go:36-58 | Along the log a record's versions strictly rise. |
| Protocol.TombstonesAreFinal | backend/internal/service/sync_engine.go:278-283 | No run of pushes changes a tombstoned row again. |
| Protocol.DeleteBuries | backend/internal/service/sync_engine.go:313-366 | An applied delete of an existing record leaves it tombstoned. |
| Protocol.DeleteWins | backend/internal/service/sync_engine.go:313-366 | A batch holding one fresh delete of an existing transaction, debt operation, plan or debtor leaves it tombstoned, whatever else it holds. |
| Protocol.DeleteWinsInRun | backend/internal/service/sync_engine.go:313-366 | So does every run around such a batch. |
| Protocol.OneRebaseIsEnough | backend/internal/service/sync_engine.go:287-310 | After a version conflict on a live row, the same data on the reported version with a fresh opId is applied, unless the tables refuse the data, which then rolls the batch back. |
| Protocol.OnlyOwnLogEntries | backend/internal/repository/interfaces.go:234-254 | A push appends to its own household's log only. |
| Protocol.OthersOutOfReach | backend/internal/service/sync.go:157-178 | Another household's record never changes, except that a base-0 create takes over an id whose household has no members, afresh at version 1. |
| Outcomes.ValidExactlyWhen | backend/internal/service/sync_engine.go:196-218 | A payload of any kind passes the staged validation if and only if it has no fault, judged on its fields and the household's live rows; an invalid one is told its first fault, rule for rule. |
| Outcomes.NamesAsked | backend/internal/repository/queries/categories.sql:76-84 | The name checks find a name taken exactly when another live record of the same kind and household holds it. |
| Outcomes.UpsertAppliesExactlyWhen | backend/internal/service/sync_engine.go:182-311 | A fresh upsert is applied if and only if its payload decodes without fault, the tables can hold it, and the id is free or an unreferenced orphan's (base 0), or the household's row is live at the base version with the same frozen fields. |
| Outcomes.ConflictsExactlyWhen | backend/internal/service/sync_engine.go:230-311 | A valid fresh upsert is in conflict exactly when it meets a record it may not write: existing, unknown, deleted, at another version or another household's. It reports that record's version and tombstone, and the stored state only of a live record of the household. |
| Outcomes.FaultsAreRefused | backend/internal/service/sync_engine.go:204-218 | A faulty payload is refused with its first fault whatever the record and the version, so validation outranks every conflict. |
| Outcomes.UnknownsAreRefused | backend/internal/service/sync.go:127-133 | An operation of an unknown kind or action is refused and changes nothing. |
| Outcomes.AppliedUpsertEffect | backend/internal/service/sync_engine.go:250-310 | An applied upsert leaves its payload, field by field but for what the store drops, under the household and its author, one version on, with one log entry by the acting member; no other row changes. |
| Outcomes.DeleteAppliesExactlyWhen | backend/internal/service/sync_engine.go:317-390 | A fresh delete is refused if and only if the record is live and its options are malformed or its dependants hold it back: all but adjustments for an account, all for a category, only plans under a cascade. It answers the row's version afterwards, 0 for an unknown id. |
| Outcomes.DeleteTouchesExactly | backend/internal/repository/postgres/sync.go:647-997 | An applied delete tombstones the record and exactly the household's live rows that refer to it, each one version on and otherwise as it was; no other row of any household changes. |
| Outcomes.DeleteLogOrder | backend/internal/repository/postgres/sync.go:690-997 | In the log an account or category comes before what goes with it, a debtor after. |
| Replica.AbsorbOwn | packages/local-data/src/sync/sync-engine.ts:573-637 | Absorbing the next entry, with a state read then or later, keeps the client in step: never ahead of the log, no debtor held, and every readable record not written anew beyond held with exactly the stored state. |
| Replica.DebtorsGiveNoRow | packages/local-data/src/sync/sync-entity-catalog.generated.ts:294-300 | The payload pulled for a debtor, which lacks a currency, never gives the client a row. |
| Replica.StoredGivesRow | backend/internal/repository/postgres/sync.go:1611-1687 | Of a stored record other than a debtor the pull delivers the stored state itself, and the client makes a row of it exactly when its amounts are safe integers and its days have four-digit years. |
| Replica.DebtorsLoseTheirCurrency | backend/internal/repository/postgres/sync.go:1653-1658 | Of a debtor the pull delivers the name and an empty currency. |
| Replica.AbsorbPage | backend/internal/repository/postgres/sync.go:1396-1447 | A page brings the client just past its last entry, having received exactly the entries on the way, each kind's states read at a later moment of its own; a short page leaves none beyond. |
| Replica.ReadsLieBetween | backend/internal/repository/postgres/sync.go:1406-1427 | Whatever batches commit between the reads of one pull, every read lies between the log's read and the answer on one server history. |
| Replica.PullKeepsStep | backend/internal/service/sync.go:82-106 | A pull with a saved cursor, batches committing while it is served, keeps the client in step, moves it on unless the page is empty, and told it truly that it had caught up when the log was read. |
| Replica.PushKeepsStep | backend/internal/service/sync.go:49-71 | Anyone's push between two pages keeps the client in step at its old cursor. |
| Replica.SessionStaysInStep | packages/local-data/src/sync/sync-engine.ts:702-729 | However pushes and pulls interleave, the client stays in step and has received exactly the household's entries up to its cursor, none skipped or repeated. |
| Replica.CaughtUpMirrors | backend/internal/service/sync.go:99-105 | With nothing of its household beyond its cursor the client holds every readable record with the server's version and tombstone, and if live with the stored state itself; of other live records at most an older version; no debtor ever. |
| Replica.ReplicaConverges | backend/internal/service/sync.go:82-106 | From a new server and a new client, after any interleaving, a pull answered "caught up" with nothing of the household written meanwhile leaves the client mirroring the server in that sense. |
| Replica.ShowsAllExactlyWhen | packages/local-data/src/sync/sync-entity-catalog.generated.ts:264-380 | A mirroring client shows exactly the server's live records if and only if none of them is a debtor or holds an amount beyond the safe integers or a day outside four-digit years. |
| Replica.PullPhase | packages/local-data/src/sync/sync-engine.ts:702-729 | With nothing written meanwhile the client's pull loop ends, and then mirrors the server and has received its household's whole log once. |
| Replica.PageSize | backend/internal/service/sync.go:90-93 | A positive pull limit is honoured up to 500; any other means 100. |
| Ledger.KeptIsRecomputed | backend/internal/repository/postgres/migrations/000011_multi_currency.up.sql:26-46 | Any sum over rows kept incrementally through a batch equals the sum recomputed, replays, refusals, cascades and adoptions included. |
| Ledger.TombstonedBalanceIsOpening | backend/internal/repository/queries/accounts.sql:127-136 | A tombstoned account's balance is its opening balance. |
| Ledger.FlowsAreExternal | backend/internal/repository/postgres/migrations/000011_multi_currency.up.sql:26-46 | In every reachable state a household's accounts together gained exactly the booked cashflow and adjustments; transfers and account-less cashflow add nothing. |
| Ledger.OneRowMoves | backend/internal/service/sync_engine.go:182-366 | An operation on a transaction, debt operation or plan moves every sum over rows by what its own row is worth after minus before. |
| Ledger.InternalWritesConserve | backend/internal/service/write_rules_transaction.go:162-205 | Writing, changing or deleting a transfer or an account-less cashflow never changes the total over the household's accounts. |
| Ledger.AccountLessMovesNothing | backend/internal/service/write_rules_transaction.go:129-143 | An account-less cashflow changes no account's balance. |
| Ledger.TransactionPushMovesBalance | backend/internal/repository/postgres/migrations/000011_multi_currency.up.sql:26-46 | An applied transaction push moves every account's balance by what it books (income and adjustment in, expense out, a transfer from one end into the other) minus what the live row under its id had booked. |
| Ledger.AccountDeleteSparesOthers | backend/internal/repository/queries/accounts.sql:127-136 | Deleting an account leaves every other account's balance as it was. |
| Ledger.CreditKeptExactlyWhen | backend/internal/repository/postgres/sync.go:1254-1336 | An applied transaction push, create or update, books every account as its payload stated if and only if that stated no credit or the debit itself. |
| Ledger.UpdateMovesOwnLedger | backend/internal/service/write_rules_debt_operation.go:83-90 | An applied debt-operation update moves its own debtor and direction by the signed change of amount and no other ledger. |
| Ledger.DebtorDeleteSettles | backend/internal/service/sync_adapter_debtor.go:116-125 | A debtor delete brings both of its ledgers to zero. |
| Ledger.DebtorDeleteSparesOthers | backend/internal/repository/postgres/sync.go:965-997 | A debtor delete leaves every other debtor's ledgers unchanged. |
| RestPatch.PatchIsPush | backend/internal/service/transaction.go:77-143 | On a live row a non-empty PATCH and a fresh push of the full state with the given fields taken and the others kept both write, leaving the same rows and log, or fail validation with the same code and message, or both report the version; validation outranks the version on both. They part only on a description with a NUL, which fails the PATCH whatever its version. |
| RestPatch.PatchEffect | backend/internal/repository/queries/transactions.sql:21-37 | A PATCH that writes gives the row each field it names and keeps each it leaves out, and type, credit, owner and author; one version on, one log entry, no other row. |
| RestPatch.PatchRefused | backend/internal/service/transaction.go:84-94 | An empty PATCH, and one of a record that is not a live transaction, are refused before anything is checked. |
| RestPatch.PatchWritesExactlyWhen | backend/internal/repository/postgres/transactions.go:84-88 | A valid PATCH writes if and only if its description holds no NUL and the given version equals the stored one modulo 2^32. |
| RestPatch.PatchKeeps | backend/internal/repository/postgres/transactions.go:72-130 | A PATCH keeps the invariant and only extends the database. |
| RestPatch.ServingKeeps | backend/internal/repository/postgres/tx.go:11-35 | Any mix of push batches and PATCH calls does. |
| RestPatch.TransactionService.UpdateTransaction | backend/internal/repository/postgres/transactions.go:72-130 | The update statement writes each given field of a live row at the version and keeps the others, field by field, and tells not-found from version conflict otherwise. |
| RestPatch.TransactionService.Update | backend/internal/service/transaction.go:77-143 | The merge, check and write on the store refine the PATCH function. |
| Listing.PageMeaning | backend/internal/service/transaction.go:188-243 | A page is the front of what lies beyond its cursor, in order; its next cursor is its last row, and there is none exactly when nothing is left. |
| Listing.PassesExactlyWhen | backend/internal/repository/queries/transactions.sql:80-89 | The filters hold exactly when the transaction refers to the account in any of its three places, refers to the category, has the type and lies in the dates. |
| Listing.BoundPageSize | backend/internal/service/transaction.go:237-243 | A positive page size is honoured up to 100; any other means 50. |
| Listing.WalkIsComplete | backend/internal/repository/queries/transactions.sql:65-96 | Whatever happens between pages, following nextCursor goes strictly down the order, and a finished walk lists every row that was there at each page. |
| Listing.ListedExactlyOnce | packages/api/src/schema.ts:498-501 | Such a row is listed exactly once; a record can be listed twice only after its date was moved back. |
| Listing.UntouchedListedOnce | backend/internal/service/transaction.go:188-231 | With any pushes between pages, a listed transaction the log does not mention meanwhile is listed exactly once. |
| Listing.ListAll | backend/internal/service/transaction.go:188-231 | On a store at rest the walk ends with every live transaction of the household that passes the filters, each once, newest first and by descending id, every page but the last full. |
| Calendar.DayNumberOrders | backend/internal/domain/planned_payment.go:217-227 | Days on the integer line order exactly as civil dates. |
| Calendar.ClampDayIsMin | backend/internal/domain/planned_payment.go:217-222 | The clamp is the lesser of the day and the month's length. |
| Calendar.MonthlyClosedForm | backend/internal/domain/planned_payment.go:190-215 | n monthly advances land in the n-th following month on the anchor day clamped to that month alone. |
| Calendar.YearlyClosedForm | backend/internal/domain/planned_payment.go:198-201 | n yearly advances land n years on in the anchor's month, with the same clamp. |
| Calendar.DaySeriesClosedForm | backend/internal/domain/planned_payment.go:192-197 | Daily and weekly series are arithmetic progressions. |
| Calendar.AnchorDayReturns | backend/internal/domain/planned_payment.go:180-215 | Exactly the later months long enough get the anchor day back. |
| Calendar.AdvanceIsLater | backend/internal/domain/planned_payment.go:190-215 | Every advance is strictly later. |
| Calendar.MonthlyGap | backend/internal/domain/planned_payment.go:202-214 | On the series, monthly gaps are 28 to 31 days. |
| Calendar.YearlyGap | backend/internal/domain/planned_payment.go:198-201 | On the series, yearly gaps are 365 or 366 days. |
| Calendar.WeekdayKept | backend/internal/domain/planned_payment.go:196-197 | A weekly series has the anchor's weekday if and only if its first date had it. |
| Calendar.CatchUp | backend/internal/jobs/plannedconfirm/plannedconfirm.go:108-125 | Advancing past a day visits every missed date in order and ends within that many days plus one. |
| AutoConfirm.OccurrenceKeeps | backend/internal/jobs/plannedconfirm/plannedconfirm.go:142-174 | The charge and the advance of one occurrence keep the invariant. |
| AutoConfirm.ConfirmedCharges | backend/internal/jobs/plannedconfirm/plannedconfirm.go:104-174 | However far a plan is caught up, each occurrence has exactly one transaction, with the plan's type, amount, name, account and category, at noon of its own day and by the plan's author; the plan is that many occurrences on, and no other row is touched. |
| AutoConfirm.ConfirmedKeeps | backend/internal/jobs/plannedconfirm/plannedconfirm.go:104-174 | Any number of occurrences keeps the invariant and only extends the database. |
| AutoConfirm.AutoConfirmJob.ExecuteOccurrence | backend/internal/jobs/plannedconfirm/plannedconfirm.go:142-174 | The job's step leaves one charge under an unused id and one advance. |
| AutoConfirm.AutoConfirmJob.ExecutePlan | backend/internal/jobs/plannedconfirm/plannedconfirm.go:114-121 | The catch-up executes exactly the occurrences due by today and leaves the plan due strictly after. |
| AutoConfirm.AutoConfirmJob.ExecuteHousehold | backend/internal/jobs/plannedconfirm/plannedconfirm.go:108-140 | After a sweep no live automatic plan of the household is due, every new row charges an occurrence due by today of a plan that was, and every other row, manual plans among them, stands as it did. |
| Guarantees.ReachableStates | backend/internal/service/sync_engine.go:182-366 | Every state reachable from a new server, households losing their members and their ids being adopted in between, has well-shaped rows, live references, unique live names and a log that tells its rows. |
| Guarantees.MembersLeave | backend/internal/repository/interfaces.go:242-253 | The invariant outlives a household's loss of its members. |
| Guarantees.FrozenForEver | backend/internal/service/sync_adapter_transaction.go:109-119 | No run changes a transaction's or plan's type, a debtor's currency or a debt operation's debtor, direction and kind. |
| Guarantees.BatchIsTotal | backend/internal/service/sync.go:49-71 | A batch commits, with one answer per operation in order, when no upsert in it carries what the tables refuse or creates under the id of an orphan that was referenced when the batch began. |
| Guarantees.StepMakesNoReferencedOrphan | backend/internal/repository/postgres/sync.go:71-137 | No operation makes an orphan referenced: members' rows refer to their own household only. |
| Guarantees.StoredVerbatimExactlyWhen | backend/internal/service/sync_adapter_category.go:86-103 | An applied upsert stores its payload as it came if and only if the payload holds nothing the store drops. |
| Guarantees.WrittenCategoryFits | backend/internal/service/sync_adapter_transaction.go:80-107 | An applied transaction's category is live, of its type, and archived only if the row replaced was live with it; an applied plan's category is live, of its type and active. |
| Guarantees.TypesStayMatchedExactlyWhen | backend/internal/service/sync_adapter_category.go:47-68 | An applied operation keeps every transaction and plan of its category's type if and only if it does not retype a category in use. |
| Guarantees.PushIsNoOpExactlyWhen | backend/internal/service/sync.go:139-142 | Pushing operations again leaves the database as it is if and only if each was applied already or is refused there. |
| Guarantees.UnknownDeleteIsForgotten | backend/internal/service/sync_engine.go:328-331 | Deleting an unknown id is applied at version 0 and leaves no trace but its answer: a later upsert is judged as if it had not been sent. |
| Witnesses.RepeatedBatchCanApply | backend/internal/service/sync.go:139-142 | A batch whose first item is refused applies that item when pushed again. |
| Witnesses.RetypingCanBreakTypes | backend/internal/service/sync_adapter_category.go:47-68 | Two applied pushes leave an expense in an income category. |
| Witnesses.ArchivedCategoryStartsActive | backend/internal/service/sync_adapter_category.go:86-93 | An applied create of an archived category stores it active. |
| Witnesses.PlanAnchorIsReset | backend/internal/service/sync_adapter_planned_payment.go:108-118 | An applied plan with a Wednesday anchor, first due on a Monday, is anchored on the Monday. |
| Witnesses.CrossCurrencyCreditIsLost | backend/internal/repository/postgres/sync.go:1254-1287 | An applied transfer of 100 that credits 90 in another currency credits 100. |
| Witnesses.WeeklyPlanLeavesItsAnchor | backend/internal/domain/planned_payment.go:196-197 | A weekly plan moved to a Wednesday stays two days off its Monday anchor at every later occurrence. |
| Witnesses.RefusedPayloadRollsBack | backend/internal/service/sync_engine.go:250-258 | An account with an empty currency, or a category name with a NUL, rolls its batch back. |
| Witnesses.ReferencedOrphanRollsBack | backend/internal/repository/postgres/sync.go:71-137 | After a household lost its members, claiming the id of its account under a booked adjustment rolls the batch back. |
| Witnesses.WrappedVersionWrites | backend/internal/repository/postgres/transactions.go:84-88 | A PATCH at version 2^32 + 1 writes a row at version 1. |
| Witnesses.DebtorNeverArrives | packages/local-data/src/sync/sync-engine.ts:491-494 | A new client of a household with one live debtor is told it has caught up and holds nothing. |

## Left out

- Membership: joining and dissolving a household and moving its records; a household may lose all its members between runs, and then only has its ids adopted.
- Retention: the hard delete of old tombstones, after which an id could be created again.
- REST writes other than the transaction PATCH; they add entity-by-entity variants of rules modelled here.
- REST calls are atomic here: their validation reads happen before the write's own transaction, and those interleavings are not decided.
- Concurrency: batches of different households run one after another; the lock and the commit order are taken as given. A failed connection or commit is not modelled beyond the rollback of a batch.
- Wire formats: JSON payloads are known by what each decoder makes of them, cursors are pairs, dates are civil dates; the nil UUID, for which the store mints a fresh id, is excluded.
- Integer width: amounts, sums, versions and sequence values are unbounded on the server, except for the PATCH version's int32 conversion.
- Protocol.FailsExactlyWhen: which names the unique indexes' row limit admits is a parameter of the world, because it depends on the database's compression.
- Timestamps and authorship beyond a row's author and a log entry's actor; a timestamp's precision in the database.
- Order within a cascade: SQL leaves it open, the model takes ascending ids.
- AutoConfirm.AutoConfirmJob.ExecuteHousehold: takes the due plans in any order rather than by date and id, and covers only households that have members.
- Ledger.InternalWritesConserve: totals over accounts of different currencies are plain sums of minor units.
- Stored transfers after an account's currency changes: nothing re-checks them; only the rule at write time is stated.
- Replica.ReplicaConverges: the client has no local edits; its conflict records, pending operations and unknown entity kinds are not modelled, and the writes between its reads are pushes.
- Listing: page rows are identified by date and id; the other columns come from the same read.
- HTTP, authentication, sessions, configuration, logging, notifications and the user interface: input and output or foreign code.
