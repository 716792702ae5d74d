/** REST transaction updates (backend/internal/service/transaction.go Update,
    backend/internal/repository/postgres/transactions.go UpdateTransaction)
    against sync push: a PATCH is a push of the merged full state. */
module RestPatch {
  import opened Domain
  import opened Database
  import opened WriteRules
  import opened Adapters
  import opened Chronicle
  import opened Engine
  import opened Integrity
  import opened Preservation
  import opened Service

  /** A missing field keeps the current value; nothing can be cleared. */
  datatype Patch = Patch(
    version: int,
    amount: Option<int>, description: Option<string>, occurredAt: Option<int>,
    accountId: Option<Id>, categoryId: Option<Id>,
    fromAccountId: Option<Id>, toAccountId: Option<Id>,
    destinationAmount: Option<int>)

  predicate ChangesNothing(p: Patch) {
    p.amount.None? && p.description.None? && p.occurredAt.None? && p.accountId.None? && p.categoryId.None?
    && p.fromAccountId.None? && p.toAccountId.None? && p.destinationAmount.None?
  }

  function Else<T>(field: Option<T>, current: T): T {
    if field.Some? then field.value else current
  }

  function ElseOption<T>(field: Option<T>, current: Option<T>): Option<T> {
    if field.Some? then field else current
  }

  /** The full state the client would push instead. */
  function Merged(t: Transaction, p: Patch): Transaction {
    Transaction(
      t.typ, Else(p.amount, t.amount), Else(p.description, t.description), Else(p.occurredAt, t.occurredAt),
      ElseOption(p.accountId, t.accountId), ElseOption(p.categoryId, t.categoryId),
      ElseOption(p.fromAccountId, t.fromAccountId), ElseOption(p.toAccountId, t.toAccountId),
      ElseOption(p.destinationAmount, t.destinationAmount))
  }

  /** Field by field: what the patch gives is taken, what it leaves out is kept. */
  predicate PatchedFields(t: Transaction, p: Patch, now: Transaction) {
    && now.typ == t.typ
    && now.amount == (match p.amount case Some(amount) => amount case None => t.amount)
    && now.description == (match p.description case Some(text) => text case None => t.description)
    && now.occurredAt == (match p.occurredAt case Some(time) => time case None => t.occurredAt)
    && now.accountId == (if p.accountId.Some? then p.accountId else t.accountId)
    && now.categoryId == (if p.categoryId.Some? then p.categoryId else t.categoryId)
    && now.fromAccountId == (if p.fromAccountId.Some? then p.fromAccountId else t.fromAccountId)
    && now.toAccountId == (if p.toAccountId.Some? then p.toAccountId else t.toAccountId)
  }

  /** The full state a client would push for the patch, its credit included. */
  predicate TakesPatch(t: Transaction, p: Patch, full: Transaction) {
    && PatchedFields(t, p, full)
    && full.destinationAmount == (if p.destinationAmount.Some? then p.destinationAmount else t.destinationAmount)
  }

  lemma OnlyMergedTakesPatch(t: Transaction, p: Patch, full: Transaction)
    ensures TakesPatch(t, p, full) <==> full == Merged(t, p)
  {
  }

  lemma OnlyMergedIsPatched(t: Transaction, p: Patch, now: Transaction)
    requires PatchedFields(t, p, now) && now.destinationAmount == t.destinationAmount
    ensures now == Merged(t, p).(destinationAmount := t.destinationAmount)
  {
  }

  const TWO_31 := 0x8000_0000
  const TWO_32 := 0x1_0000_0000

  /** Go's int32 conversion of the version, which the store's query takes. */
  function Int32(v: int): (r: int)
    ensures -TWO_31 <= r < TWO_31
    ensures (v - r) % TWO_32 == 0
    ensures -TWO_31 <= v < TWO_31 ==> r == v
  {
    (v + TWO_31) % TWO_32 - TWO_31
  }

  /** NotStored is a failed statement: an internal error, nothing written. */
  datatype PatchOutcome = Updated(state: Transaction, version: nat) | Unpatched(err: Sentinel) | NotStored

  datatype Patched = Patched(db: Db, outcome: PatchOutcome)

  function LiveTransaction(db: Db, household: Id, id: Id): Option<Row> {
    var key := Key(TransactionKind, id);
    if IsLive(db, household, key) && db.rows[key].state.OfTransaction? then Some(db.rows[key]) else None
  }

  /** A description the update statement cannot even be sent with. */
  predicate UnsendableText(p: Patch) {
    p.description.Some? && !IsText(p.description.value)
  }

  /** One PATCH, taken as atomic. The update statement has no destination amount
      parameter, so the column keeps its value. */
  function PatchStep(db: Db, scope: Scope, id: Id, p: Patch): Patched {
    if ChangesNothing(p) then Patched(db, Unpatched(ErrNoFieldsToUpdate))
    else
      match LiveTransaction(db, scope.household, id)
      case None => Patched(db, Unpatched(ErrTransactionNotFound))
      case Some(row) =>
        var current := row.state.transaction;
        var merged := Merged(current, p);
        var invalid := ValidateTransactionWrite(db, scope.household, merged, current.categoryId);
        if invalid.Some? then Patched(db, Unpatched(invalid.value))
        else if UnsendableText(p) then Patched(db, NotStored)
        else if row.version != Int32(p.version) then Patched(db, Unpatched(ErrTransactionVersionConflict))
        else
          var next := merged.(destinationAmount := current.destinationAmount);
          Patched(
            Put(db, scope, Write(Key(TransactionKind, id),
                                 row.(version := row.version + 1, state := OfTransaction(next)))),
            Updated(next, row.version + 1))
  }

  // --- The equivalence ----------------------------------------------------------------------------

  /** The push that says the same: the merged full state on the version the
      store compares with. */
  predicate Pushes(op: Operation, id: Id, merged: Transaction, base: int) {
    && op.entity == Some(TransactionKind) && op.action.Upsert? && op.id == id && op.baseVersion == base
    && Decode(TransactionKind, op.data) == Some(OfTransaction(merged))
  }

  predicate SameTables(a: Db, b: Db) {
    a.rows == b.rows && a.log == b.log && a.nextSeq == b.nextSeq
  }

  /** A PATCH and a push of a row at the given version answer alike: both write,
      and then leave the same rows and log; or both fail validation, with the same
      code and message; or both report that the version does not match. They part
      on one point: a description the database cannot hold fails the PATCH
      whatever its version, and the push only on the stored version. */
  predicate Alike(db: Db, rest: Patched, push: StepOutcome, op: Operation, p: Patch, version: nat) {
    && (push.Stepped? ==> SameTables(rest.db, push.db))
    && match rest.outcome
       case Updated(_, next) => push.Stepped? && push.result == Applied(op.opId, next)
       case Unpatched(err) =>
         push.Stepped?
         && if err == ErrTransactionVersionConflict
            then push.result.Conflict? && (op.baseVersion != 0 ==> push.result.code == VersionConflict)
            else push.result == Rejected(op.opId, ErrorSpecFor(err))
       case NotStored =>
         && UnsendableText(p) && rest.db == db
         && (push.Failed? <==> op.baseVersion == version)
         && (push.Stepped? ==> push.result.Conflict?)
  }

  /** On a live row, a non-empty PATCH and a fresh push of the full state with the
      patch's fields taken and the others kept answer alike; validation outranks
      the version on both. */
  lemma PatchIsPush(db: Db, scope: Scope, id: Id, p: Patch, op: Operation, full: Transaction)
    requires RowsOk(db) && scope.household in db.world.members
    requires !ChangesNothing(p) && LiveTransaction(db, scope.household, id).Some?
    requires var row := LiveTransaction(db, scope.household, id).value;
             TakesPatch(row.state.transaction, p, full) && Pushes(op, id, full, Int32(p.version))
    requires !IsReplay(db, scope, op)
    ensures Alike(db, PatchStep(db, scope, id, p), Step(db, scope, op), op, p,
                  LiveTransaction(db, scope.household, id).value.version)
  {
    hide PatchStep;
    hide Step;
    hide ValidateUpsert;
    hide ValidateTransactionWrite;
    hide RowsOk;
    hide Int32;
    hide Decode;
    hide IsText;
    hide UnsendableText;
    hide Put;
    hide ErrorSpecFor;
    var row := LiveTransaction(db, scope.household, id).value;
    var merged := Merged(row.state.transaction, p);
    OnlyMergedTakesPatch(row.state.transaction, p, full);
    hide TakesPatch;
    ValidatesAlike(db, scope, id, p, op);
    RulesNeverSayConflict(db, scope.household, merged, row.state.transaction.categoryId);
    PushAnswers(db, scope, op, row, merged);
    MergedText(db, scope.household, id, p);
    PatchCases(db, scope, id, p);
  }

  /** What a non-empty PATCH of a live row leaves and answers. */
  lemma PatchCases(db: Db, scope: Scope, id: Id, p: Patch)
    requires !ChangesNothing(p) && LiveTransaction(db, scope.household, id).Some?
    ensures var row := LiveTransaction(db, scope.household, id).value;
            var current := row.state.transaction;
            var merged := Merged(current, p);
            var invalid, rest := ValidateTransactionWrite(db, scope.household, merged, current.categoryId), PatchStep(db, scope, id, p);
            if invalid.Some? then rest == Patched(db, Unpatched(invalid.value))
            else if UnsendableText(p) then rest == Patched(db, NotStored)
            else if row.version != Int32(p.version) then rest == Patched(db, Unpatched(ErrTransactionVersionConflict))
            else
              var next := merged.(destinationAmount := current.destinationAmount);
              rest == Patched(Put(db, scope, Write(Key(TransactionKind, id),
                                                   row.(version := row.version + 1, state := OfTransaction(next)))),
                              Updated(next, row.version + 1))
  {
    hide ValidateTransactionWrite;
    hide UnsendableText;
    hide Int32;
    hide Put;
    hide Merged;
  }

  /** An empty PATCH, and one of a record that is not a live transaction. */
  lemma PatchRefused(db: Db, scope: Scope, id: Id, p: Patch)
    ensures ChangesNothing(p) ==> PatchStep(db, scope, id, p) == Patched(db, Unpatched(ErrNoFieldsToUpdate))
    ensures !ChangesNothing(p) && LiveTransaction(db, scope.household, id).None? ==>
              PatchStep(db, scope, id, p) == Patched(db, Unpatched(ErrTransactionNotFound))
  {
  }

  /** What a fresh push of a live transaction's merged state leaves and answers. */
  lemma PushAnswers(db: Db, scope: Scope, op: Operation, row: Row, merged: Transaction)
    requires RowsOk(db) && LiveTransaction(db, scope.household, op.id) == Some(row)
    requires Pushes(op, op.id, merged, op.baseVersion) && merged.typ == row.state.transaction.typ
    requires !IsReplay(db, scope, op)
    ensures var invalid, push := ValidateUpsert(db, scope.household, op, TransactionKind), Step(db, scope, op);
            if invalid.Some? then push == Stepped(db, Rejected(op.opId, invalid.value))
            else if op.baseVersion != row.version then
              push.Stepped? && push.db == db && push.result.Conflict?
              && (op.baseVersion != 0 ==> push.result.code == VersionConflict)
            else if !IsText(merged.description) then push.Failed?
            else
              push == Stepped(
                Record(Put(db, scope, Write(Key(TransactionKind, op.id),
                                            row.(version := row.version + 1,
                                                 state := OfTransaction(merged.(destinationAmount := row.state.transaction.destinationAmount))))),
                       OpKey(scope.household, op.opId), Applied(op.opId, row.version + 1)),
                Applied(op.opId, row.version + 1))
  {
    PushOfMerged(db, scope, op, row, merged);
    hide Decide;
    hide ValidateUpsert;
    hide RowsOk;
    hide IsText;
    if Decide(db, scope, op).Commit? {
      SinglePut(db, scope, Decide(db, scope, op).writes);
    }
  }

  lemma MergedText(db: Db, household: Id, id: Id, p: Patch)
    requires RowsOk(db) && LiveTransaction(db, household, id).Some?
    ensures IsText(Merged(LiveTransaction(db, household, id).value.state.transaction, p).description) <==> !UnsendableText(p)
  {
    assert StoredShape(db.rows[Key(TransactionKind, id)].state);
  }

  /** What the engine decides about a push of a live transaction of its type. */
  lemma PushOfMerged(db: Db, scope: Scope, op: Operation, row: Row, merged: Transaction)
    requires RowsOk(db) && LiveTransaction(db, scope.household, op.id) == Some(row)
    requires Pushes(op, op.id, merged, op.baseVersion) && merged.typ == row.state.transaction.typ
    ensures var invalid := ValidateUpsert(db, scope.household, op, TransactionKind);
            var d := Decide(db, scope, op);
            if invalid.Some? then d == Refuse(Rejected(op.opId, invalid.value))
            else if op.baseVersion == row.version then
              if IsText(merged.description)
              then d == Commit(None, [Write(Key(TransactionKind, op.id),
                                            row.(version := row.version + 1,
                                                 state := OfTransaction(merged.(destinationAmount := row.state.transaction.destinationAmount))))],
                               row.version + 1)
              else d == Abort
            else d.Refuse? && d.result.Conflict? && (op.baseVersion != 0 ==> d.result.code == VersionConflict)
  {
    hide ValidateUpsert;
    hide IsText;
    if op.baseVersion == row.version {
      assert row.version >= 1;
      if IsText(merged.description) {
        var ws := UpdateOfMerged(db, scope, op, row, merged);
        hide DecideUpdate;
      }
    }
    hide StoredShape;
  }

  lemma ValidatesAlike(db: Db, scope: Scope, id: Id, p: Patch, op: Operation)
    requires RowsOk(db) && LiveTransaction(db, scope.household, id).Some?
    requires var row := LiveTransaction(db, scope.household, id).value;
             Pushes(op, id, Merged(row.state.transaction, p), Int32(p.version))
    ensures var current := LiveTransaction(db, scope.household, id).value.state.transaction;
            ValidateUpsert(db, scope.household, op, TransactionKind)
            == SpecOf(ValidateTransactionWrite(db, scope.household, Merged(current, p), current.categoryId))
  {
    assert StoredShape(db.rows[Key(TransactionKind, id)].state);
    hide ValidateTransactionWrite;
  }

  lemma RulesNeverSayConflict(db: Db, household: Id, t: Transaction, previous: Option<Id>)
    ensures ValidateTransactionWrite(db, household, t, previous) != Some(ErrTransactionVersionConflict)
  {
  }

  /** A valid PATCH writes exactly when the database can hold its description and
      the stored version equals the given one as an int32: it takes a version that is not the stored one exactly when the two
      differ by a multiple of 2^32. */
  lemma PatchWritesExactlyWhen(db: Db, scope: Scope, id: Id, p: Patch)
    requires !ChangesNothing(p) && LiveTransaction(db, scope.household, id).Some?
    requires LiveTransaction(db, scope.household, id).value.version < TWO_31
    requires var current := LiveTransaction(db, scope.household, id).value.state.transaction;
             ValidateTransactionWrite(db, scope.household, Merged(current, p), current.categoryId).None?
    ensures var row := LiveTransaction(db, scope.household, id).value;
            PatchStep(db, scope, id, p).outcome.Updated? <==> (p.version - row.version) % TWO_32 == 0 && !UnsendableText(p)
  {
    var v := LiveTransaction(db, scope.household, id).value.version;
    hide ValidateTransactionWrite;
    SameInt32(p.version, v);
  }

  lemma SameInt32(a: int, b: int)
    requires -TWO_31 <= b < TWO_31
    ensures Int32(a) == b <==> (a - b) % TWO_32 == 0
  {
    var r := Int32(a);
    assert (a - r) % TWO_32 == 0;
    if (a - b) % TWO_32 == 0 {
      assert (r - b) % TWO_32 == 0;
    }
  }

  /** A PATCH that writes makes the one write of an update the engine could
      have decided. */
  lemma PatchIsUpdate(db: Db, scope: Scope, id: Id, p: Patch) returns (ws: seq<Write>)
    requires RowsOk(db) && scope.household in db.world.members
    requires PatchStep(db, scope, id, p).outcome.Updated?
    ensures SoundCommit(db, scope, None, ws)
    ensures PatchStep(db, scope, id, p).db == AfterWrites(db, scope, None, ws)
  {
    var row := LiveTransaction(db, scope.household, id).value;
    var merged := Merged(row.state.transaction, p);
    var op := Operation(1, Some(TransactionKind), Upsert, id, row.version,
                        Payload(map[TransactionKind := OfTransaction(merged)], NoOptions));
    MergedText(db, scope.household, id, p);
    PatchWrites(db, scope, id, p);
    hide PatchStep;
    hide UnsendableText;
    hide IsText;
    hide ValidateTransactionWrite;
    hide Int32;
    ValidatesAlike(db, scope, id, p, op);
    ws := UpdateOfMerged(db, scope, op, row, merged);
    hide StoredShape;
    hide SoundCommit;
    hide ValidateUpsert;
    hide DecideUpdate;
    UpdateSound(db, scope, op, TransactionKind, OfTransaction(merged));
    hide RowsOk;
    SinglePut(db, scope, ws);
  }

  lemma PatchWrites(db: Db, scope: Scope, id: Id, p: Patch)
    requires PatchStep(db, scope, id, p).outcome.Updated?
    ensures LiveTransaction(db, scope.household, id).Some?
    ensures var row := LiveTransaction(db, scope.household, id).value;
            var current := row.state.transaction;
            && Int32(p.version) == row.version && !UnsendableText(p)
            && ValidateTransactionWrite(db, scope.household, Merged(current, p), current.categoryId).None?
            && PatchStep(db, scope, id, p).db
               == Put(db, scope, Write(Key(TransactionKind, id),
                                       row.(version := row.version + 1,
                                            state := OfTransaction(Merged(current, p).(destinationAmount := current.destinationAmount)))))
  {
    PatchNeedsRow(db, scope, id, p);
    PatchCases(db, scope, id, p);
    hide PatchStep;
    hide ValidateTransactionWrite;
    hide UnsendableText;
    hide Int32;
  }

  /** A PATCH that writes gives the row exactly the patch's fields, one version on:
      type, credit, owner and author stay, no other row changes, and one log entry
      by the acting member is added. */
  lemma PatchEffect(db: Db, scope: Scope, id: Id, p: Patch)
    requires PatchStep(db, scope, id, p).outcome.Updated?
    ensures var key, rest := Key(TransactionKind, id), PatchStep(db, scope, id, p);
            var after, state := rest.db, rest.outcome.state;
            && IsLive(db, scope.household, key) && db.rows[key].state.OfTransaction? && key in after.rows
            && var row, t := db.rows[key], db.rows[key].state.transaction;
               && PatchedFields(t, p, state) && state.destinationAmount == t.destinationAmount
               && rest.outcome.version == row.version + 1
               && after.rows[key] == Row(row.owner, row.author, row.version + 1, false, OfTransaction(state))
               && after.rows - {key} == db.rows - {key}
               && after.log == db.log + [Change(db.nextSeq, scope.household, scope.actor, key, false, row.version + 1)]
  {
    PatchNeedsRow(db, scope, id, p);
    PatchCases(db, scope, id, p);
    hide PatchStep;
    hide ValidateTransactionWrite;
    hide UnsendableText;
    hide Int32;
  }

  lemma PatchNeedsRow(db: Db, scope: Scope, id: Id, p: Patch)
    requires PatchStep(db, scope, id, p).outcome.Updated?
    ensures !ChangesNothing(p) && LiveTransaction(db, scope.household, id).Some?
  {
  }

  lemma UpdateOfMerged(db: Db, scope: Scope, op: Operation, row: Row, merged: Transaction) returns (ws: seq<Write>)
    requires RowsOk(db) && LiveTransaction(db, scope.household, op.id) == Some(row)
    requires row.version == op.baseVersion && merged.typ == row.state.transaction.typ && IsText(merged.description)
    ensures ws == [Write(Key(TransactionKind, op.id),
                         row.(version := row.version + 1,
                              state := OfTransaction(merged.(destinationAmount := row.state.transaction.destinationAmount))))]
    ensures DecideUpdate(db, scope, op, TransactionKind, OfTransaction(merged)) == Commit(None, ws, row.version + 1)
  {
    assert StoredShape(row.state);
    ws := DecideUpdate(db, scope, op, TransactionKind, OfTransaction(merged)).writes;
  }

  /** PATCH calls keep what pushes keep. */
  lemma PatchKeeps(db: Db, scope: Scope, id: Id, p: Patch)
    requires Invariant(db) && scope.household in db.world.members
    ensures var after := PatchStep(db, scope, id, p).db;
            Invariant(after) && Extends(db, after)
  {
    InvariantRows(db);
    ExtendsItself(db);
    if PatchStep(db, scope, id, p).outcome.Updated? {
      hide Invariant;
      hide Extends;
      var ws := PatchIsUpdate(db, scope, id, p);
      CommitKeepsInvariant(db, scope, None, ws);
      CommitExtends(db, scope, None, ws);
    }
  }

  // --- Both surfaces together ----------------------------------------------------------------------

  datatype Call = PushCall(batch: Batch) | PatchCall(scope: Scope, id: Id, patch: Patch)

  function CallScope(call: Call): Scope {
    match call
    case PushCall(batch) => batch.scope
    case PatchCall(scope, _, _) => scope
  }

  function Served(db: Db, calls: seq<Call>): Db
    decreases |calls|
  {
    if calls == [] then db
    else
      var before := Served(db, calls[..|calls| - 1]);
      match calls[|calls| - 1]
      case PushCall(batch) => Push(before, batch)
      case PatchCall(scope, id, patch) => PatchStep(before, scope, id, patch).db
  }

  /** Any mix of push batches and PATCH calls keeps the invariant and only
      extends the database. */
  lemma {:induction false} ServingKeeps(db: Db, calls: seq<Call>)
    requires Invariant(db)
    requires forall i :: 0 <= i < |calls| ==> CallScope(calls[i]).household in db.world.members
    ensures Invariant(Served(db, calls)) && Extends(db, Served(db, calls))
    decreases |calls|
  {
    hide Invariant;
    hide PatchStep;
    if calls == [] {
      ExtendsItself(db);
    } else {
      var front := calls[..|calls| - 1];
      ServingKeeps(db, front);
      var before := Served(db, front);
      match calls[|calls| - 1] {
        case PushCall(batch) => PushKeeps(before, batch);
        case PatchCall(scope, id, patch) => PatchKeeps(before, scope, id, patch);
      }
      ExtendsTransitive(db, before, Served(db, calls));
    }
  }

  // --- The service -----------------------------------------------------------------------------------

  class TransactionService {
    const tx: SyncTx

    constructor (tx: SyncTx)
      ensures this.tx == tx
    {
      this.tx := tx;
    }

    /** The update statement: a live row at the version, every given field
        replaced; the zero-row outcomes are told apart afterwards. */
    method UpdateTransaction(scope: Scope, id: Id, p: Patch) returns (outcome: PatchOutcome)
      modifies tx
      ensures UnsendableText(p) ==> outcome == NotStored && tx.State() == old(tx.State())
      ensures !UnsendableText(p) ==>
              match old(LiveTransaction(tx.State(), scope.household, id))
              case None => outcome == Unpatched(ErrTransactionNotFound) && tx.State() == old(tx.State())
              case Some(row) =>
                if row.version != Int32(p.version) then
                  outcome == Unpatched(ErrTransactionVersionConflict) && tx.State() == old(tx.State())
                else
                  && outcome.Updated? && outcome.version == row.version + 1
                  && PatchedFields(row.state.transaction, p, outcome.state)
                  && outcome.state.destinationAmount == row.state.transaction.destinationAmount
                  && tx.State() == Put(old(tx.State()), scope,
                                       Write(Key(TransactionKind, id),
                                             row.(version := row.version + 1, state := OfTransaction(outcome.state))))
    {
      if UnsendableText(p) {
        return NotStored;
      }
      var key := Key(TransactionKind, id);
      var found := tx.GetRowAny(scope, key);
      if found.None? || found.value.deleted || !found.value.state.OfTransaction? {
        return Unpatched(ErrTransactionNotFound);
      }
      var row := found.value;
      if row.version != Int32(p.version) {
        return Unpatched(ErrTransactionVersionConflict);
      }
      var t := row.state.transaction;
      var next := t.(amount := Else(p.amount, t.amount),
                     description := Else(p.description, t.description),
                     occurredAt := Else(p.occurredAt, t.occurredAt),
                     accountId := ElseOption(p.accountId, t.accountId),
                     categoryId := ElseOption(p.categoryId, t.categoryId),
                     fromAccountId := ElseOption(p.fromAccountId, t.fromAccountId),
                     toAccountId := ElseOption(p.toAccountId, t.toAccountId));
      var written := row.(version := row.version + 1, state := OfTransaction(next));
      tx.rows := tx.rows[key := written];
      tx.AppendChangeLog(scope, key, false, written.version);
      return Updated(next, written.version);
    }

    method Update(scope: Scope, id: Id, p: Patch) returns (outcome: PatchOutcome)
      modifies tx
      ensures PatchStep(old(tx.State()), scope, id, p) == Patched(tx.State(), outcome)
    {
      hide PatchStep;
      hide UnsendableText;
      hide Int32;
      hide Put;
      hide ValidateTransactionWrite;
      hide PatchedFields;
      var db := Db(tx.world, tx.rows, tx.log, tx.applied, tx.nextSeq);
      PatchRefused(db, scope, id, p);
      if ChangesNothing(p) {
        return Unpatched(ErrNoFieldsToUpdate);
      }
      var found := tx.GetRowAny(scope, Key(TransactionKind, id));
      if found.None? || found.value.deleted || !found.value.state.OfTransaction? {
        return Unpatched(ErrTransactionNotFound);
      }
      var current := found.value.state.transaction;
      var effective := current;
      if p.accountId.Some? { effective := effective.(accountId := p.accountId); }
      if p.categoryId.Some? { effective := effective.(categoryId := p.categoryId); }
      if p.fromAccountId.Some? { effective := effective.(fromAccountId := p.fromAccountId); }
      if p.toAccountId.Some? { effective := effective.(toAccountId := p.toAccountId); }
      if p.amount.Some? { effective := effective.(amount := p.amount.value); }
      if p.destinationAmount.Some? { effective := effective.(destinationAmount := p.destinationAmount); }
      PatchByEffective(db, scope, id, p, effective);
      hide Merged;
      var invalid := ValidateTransactionWrite(db, scope.household, effective, current.categoryId);
      if invalid.Some? {
        return Unpatched(invalid.value);
      }
      outcome := UpdateTransaction(scope, id, p);
      if outcome.Updated? {
        OnlyMergedIsPatched(current, p, outcome.state);
      }
    }
  }

  /** A PATCH decided on the effective state the rules were asked about. */
  lemma PatchByEffective(db: Db, scope: Scope, id: Id, p: Patch, effective: Transaction)
    requires !ChangesNothing(p) && LiveTransaction(db, scope.household, id).Some?
    requires var current := LiveTransaction(db, scope.household, id).value.state.transaction;
             effective == Merged(current, p).(description := current.description, occurredAt := current.occurredAt)
    ensures var row := LiveTransaction(db, scope.household, id).value;
            var current := row.state.transaction;
            var invalid, rest := ValidateTransactionWrite(db, scope.household, effective, current.categoryId), PatchStep(db, scope, id, p);
            if invalid.Some? then rest == Patched(db, Unpatched(invalid.value))
            else if UnsendableText(p) then rest == Patched(db, NotStored)
            else if row.version != Int32(p.version) then rest == Patched(db, Unpatched(ErrTransactionVersionConflict))
            else
              var next := Merged(current, p).(destinationAmount := current.destinationAmount);
              rest == Patched(Put(db, scope, Write(Key(TransactionKind, id),
                                                   row.(version := row.version + 1, state := OfTransaction(next)))),
                              Updated(next, row.version + 1))
  {
    var current := LiveTransaction(db, scope.household, id).value.state.transaction;
    OnlyRulesFields(db, scope.household, effective, Merged(current, p), current.categoryId);
    PatchCases(db, scope, id, p);
    hide PatchStep;
    hide ValidateTransactionWrite;
    hide UnsendableText;
    hide Int32;
    hide Put;
  }

  /** The rules read neither the description nor the date. */
  lemma OnlyRulesFields(db: Db, household: Id, t: Transaction, u: Transaction, previous: Option<Id>)
    requires u == t.(description := u.description, occurredAt := u.occurredAt)
    ensures ValidateTransactionWrite(db, household, t, previous) == ValidateTransactionWrite(db, household, u, previous)
  {
  }
}
