/** What a fresh push operation answers and leaves, stated on the payload, the
    request and the household's rows alone: when it is applied, refused, in
    conflict, with which code and server state, and exactly which rows it
    changes. */
module Outcomes {
  import opened Domain
  import opened Database
  import opened WriteRules
  import opened Adapters
  import opened Chronicle
  import opened Engine
  import opened Integrity
  import opened Preservation
  import opened Protocol
  import opened Guarantees

  // --- Which payloads are valid, and what an invalid one is told -------------------------------

  /** No other live record of the kind holds the name in the household. */
  ghost predicate NameFree(db: Db, household: Id, kind: Kind, id: Id, name: string) {
    forall k :: NameHeldBy(db, household, k, kind, name) ==> k.id == id
  }

  predicate CategoryIsLive(db: Db, household: Id, id: Id) {
    IsLive(db, household, Key(CategoryKind, id)) && db.rows[Key(CategoryKind, id)].state.OfCategory?
  }

  function CategoryAt(db: Db, id: Id): Category
    requires Key(CategoryKind, id) in db.rows && db.rows[Key(CategoryKind, id)].state.OfCategory?
  {
    db.rows[Key(CategoryKind, id)].state.category
  }

  predicate HasAccount(db: Db, id: Id) {
    Key(AccountKind, id) in db.rows && db.rows[Key(AccountKind, id)].state.OfAccount?
  }

  predicate AccountIsLive(db: Db, household: Id, id: Id) {
    HasAccount(db, id) && IsLive(db, household, Key(AccountKind, id))
  }

  function CurrencyAt(db: Db, id: Id): string
    requires HasAccount(db, id)
  {
    db.rows[Key(AccountKind, id)].state.account.currency
  }

  predicate IsDead(db: Db, household: Id, account: Option<Id>) {
    account.Some? && !AccountIsLive(db, household, account.value)
  }

  /** The references a type of transaction takes, liveness aside. */
  predicate TakesRefs(t: Transaction) {
    match t.typ
    case Transfer => t.accountId.None? && t.categoryId.None? && t.fromAccountId.Some? && t.toAccountId.Some?
    case Adjustment => t.accountId.Some? && t.categoryId.None? && t.fromAccountId.None? && t.toAccountId.None?
    case _ => t.categoryId.Some? && t.fromAccountId.None? && t.toAccountId.None?
  }

  /** The row a transaction write replaces is live and has that category. */
  predicate KeepsCategory(before: Option<Row>, category: Id) {
    && before.Some? && !before.value.deleted && before.value.state.OfTransaction?
    && before.value.state.transaction.categoryId == Some(category)
  }

  /** What is wrong with a payload: it is malformed, or it breaks a rule. */
  datatype Fault = Malformed | Breaks(rule: Sentinel)

  /** The first fault of a transaction, in the order the surfaces share: type,
      amount, reference shape, accounts, category or credit. */
  function TransactionFault(db: Db, household: Id, t: Transaction, before: Option<Row>): Option<Fault> {
    if t.typ.OtherType? then Some(Malformed)
    else if t.amount == 0 || (t.amount < 0 && !t.typ.Adjustment?) then Some(Breaks(ErrInvalidAmount))
    else if !TakesRefs(t) then Some(Breaks(ErrInvalidRefs))
    else if IsDead(db, household, t.accountId) then Some(Breaks(ErrTransactionAccountNotFound))
    else if IsDead(db, household, t.fromAccountId) then Some(Breaks(ErrTransactionFromAccountNotFound))
    else if IsDead(db, household, t.toAccountId) then Some(Breaks(ErrTransactionToAccountNotFound))
    else if t.typ.Transfer? then TransferFault(db, t)
    else if t.categoryId.Some? then
      if !CategoryIsLive(db, household, t.categoryId.value) then Some(Breaks(ErrTransactionCategoryNotFound))
      else if CategoryAt(db, t.categoryId.value).typ != t.typ then Some(Breaks(ErrCategoryTypeMismatch))
      else if CategoryAt(db, t.categoryId.value).archivedAt.Some? && !KeepsCategory(before, t.categoryId.value)
      then Some(Breaks(ErrCategoryArchived))
      else None
    else None
  }

  /** A transfer takes two accounts, and states a positive credit exactly when
      they differ in currency. */
  function TransferFault(db: Db, t: Transaction): Option<Fault>
    requires t.fromAccountId.Some? && HasAccount(db, t.fromAccountId.value)
    requires t.toAccountId.Some? && HasAccount(db, t.toAccountId.value)
  {
    var crosses := CurrencyAt(db, t.fromAccountId.value) != CurrencyAt(db, t.toAccountId.value);
    if t.fromAccountId == t.toAccountId then Some(Breaks(ErrSameAccountTransfer))
    else if crosses && t.destinationAmount.None? then Some(Breaks(ErrTransferDestinationAmountRequired))
    else if crosses && t.destinationAmount.value <= 0 then Some(Breaks(ErrInvalidAmount))
    else if !crosses && t.destinationAmount.Some? then Some(Breaks(ErrTransferDestinationAmountForbidden))
    else None
  }

  predicate WellFormedPlan(p: PlannedPayment) {
    && p.amount >= 1 && (p.typ.Income? || p.typ.Expense?) && !p.regularity.OtherRegularity?
    && !p.confirmMode.OtherConfirmMode? && !p.reminder.OtherReminder? && p.nextDue != ZERO_DATE && p.anchorDate != ZERO_DATE
  }

  function PlanFault(db: Db, household: Id, p: PlannedPayment): Option<Fault> {
    if !WellFormedPlan(p) then Some(Malformed)
    else if !AccountIsLive(db, household, p.accountId) then Some(Breaks(ErrPlannedPaymentAccountNotFound))
    else if !CategoryIsLive(db, household, p.categoryId) then Some(Breaks(ErrPlannedPaymentCategoryNotFound))
    else if CategoryAt(db, p.categoryId).typ != p.typ then Some(Breaks(ErrPlannedPaymentCategoryTypeMismatch))
    else if CategoryAt(db, p.categoryId).archivedAt.Some? then Some(Breaks(ErrPlannedPaymentCategoryArchived))
    else None
  }

  /** A payload's first fault, None for a valid one. */
  ghost function FaultOf(db: Db, household: Id, id: Id, data: FullState, before: Option<Row>): Option<Fault> {
    match data
    case OfAccount(_) => None
    case OfCategory(c) =>
      if !(c.typ.Income? || c.typ.Expense?) then Some(Malformed)
      else if !NameFree(db, household, CategoryKind, id, c.name) then Some(Breaks(ErrCategoryAlreadyExists))
      else None
    case OfTransaction(t) => TransactionFault(db, household, t, before)
    case OfDebtor(d) =>
      if !IsCurrency(d.currency) then Some(Breaks(ErrInvalidDebtorCurrency))
      else if !NameFree(db, household, DebtorKind, id, d.name) then Some(Breaks(ErrDebtorAlreadyExists))
      else None
    case OfDebtOperation(o) =>
      if o.amount < 1 || o.direction.OtherDirection? || o.kind.OtherDebtKind? then Some(Malformed)
      else if !IsLive(db, household, Key(DebtorKind, o.debtorId)) then Some(Breaks(ErrDebtOperationDebtorNotFound))
      else None
    case OfPlan(p) => PlanFault(db, household, p)
  }

  /** A broken rule answers with its own code and message, a malformed payload
      with VALIDATION_FAILED. */
  predicate Tells(answer: Option<ErrorSpec>, fault: Option<Fault>) {
    match fault
    case None => answer.None?
    case Some(Malformed) => answer.Some? && answer.value.code == "VALIDATION_FAILED"
    case Some(Breaks(rule)) => answer == Some(ErrorSpecFor(rule))
  }

  lemma NamesAsked(db: Db, household: Id, id: Id, name: string)
    requires RowsOk(db)
    ensures CategoryNameTaken(db, household, name, id) <==> !NameFree(db, household, CategoryKind, id, name)
    ensures DebtorNameTaken(db, household, name, id) <==> !NameFree(db, household, DebtorKind, id, name)
  {
    forall k | k in db.rows ensures KindOf(db.rows[k].state) == k.kind {
    }
    hide StoredShape;
    if !NameFree(db, household, CategoryKind, id, name) {
      var k :| NameHeldBy(db, household, k, CategoryKind, name) && k.id != id;
      assert CategoryNameTaken(db, household, name, id);
    }
    if !NameFree(db, household, DebtorKind, id, name) {
      var k :| NameHeldBy(db, household, k, DebtorKind, name) && k.id != id;
      assert DebtorNameTaken(db, household, name, id);
    }
  }

  lemma TransactionAnswer(db: Db, household: Id, t: Transaction, before: Option<Row>)
    requires !t.typ.OtherType?
    ensures Tells(SpecOf(ValidateTransactionWrite(db, household, t, PreviousCategory(before))),
                  TransactionFault(db, household, t, before))
  {
    hide ErrorSpecFor;
    match t.typ
    case Income =>
    case Expense =>
    case Transfer =>
    case Adjustment =>
  }

  lemma PlanAnswer(db: Db, household: Id, p: PlannedPayment)
    requires PlanShape(p)
    ensures Tells(SpecOf(ValidatePlannedPaymentWrite(db, household, p.accountId, p.categoryId, p.typ)),
                  PlanFault(db, household, p))
  {
    hide ErrorSpecFor;
  }

  /** A payload passes the staged validation if and only if it has no fault, and
      an invalid one is told its first fault. */
  lemma ValidExactlyWhen(db: Db, household: Id, op: Operation, kind: Kind)
    requires RowsOk(db) && Decode(kind, op.data).Some?
    ensures Tells(ValidateUpsert(db, household, op, kind),
                  FaultOf(db, household, op.id, Decode(kind, op.data).value, GetAny(db, household, Key(kind, op.id))))
  {
    hide ErrorSpecFor;
    var data, before := Decode(kind, op.data).value, GetAny(db, household, Key(kind, op.id));
    match data {
      case OfAccount(_) =>
      case OfCategory(c) =>
        NamesAsked(db, household, op.id, c.name);
      case OfDebtor(d) =>
        NamesAsked(db, household, op.id, d.name);
      case OfTransaction(t) =>
        if !t.typ.OtherType? {
          TransactionAnswer(db, household, t, before);
        }
      case OfDebtOperation(o) =>
        var debtor := Key(DebtorKind, o.debtorId);
        assert debtor in db.rows ==> KindOf(db.rows[debtor].state) == DebtorKind;
      case OfPlan(p) =>
        if PlanShape(p) {
          PlanAnswer(db, household, p);
        }
    }
    hide RowsOk;
    hide CategoryNameTaken;
    hide DebtorNameTaken;
    hide NameFree;
    hide ValidateTransactionWrite;
    hide TransactionFault;
    hide ValidatePlannedPaymentWrite;
  }

  // --- Upserts ---------------------------------------------------------------------------------------

  /** The fields an update may not change. */
  predicate FrozenAgree(current: FullState, data: FullState) {
    match (current, data)
    case (OfTransaction(c), OfTransaction(d)) => c.typ == d.typ
    case (OfPlan(c), OfPlan(d)) => c.typ == d.typ
    case (OfDebtOperation(c), OfDebtOperation(d)) =>
      c.debtorId == d.debtorId && c.direction == d.direction && c.kind == d.kind
    case _ => true
  }

  /** The household has no such record, and the id is free or an orphan's that no
      row refers to. */
  ghost predicate MayCreate(db: Db, household: Id, key: Key) {
    key in db.rows ==>
      && db.rows[key].owner != household && db.rows[key].owner !in db.world.members
      && forall k :: k in db.rows ==> !RefersTo(db.rows[k].state, key)
  }

  /** The household's record is live, at the base version, with the same frozen
      fields. */
  predicate MayUpdate(db: Db, household: Id, key: Key, base: int, data: FullState) {
    IsLive(db, household, key) && db.rows[key].version == base && FrozenAgree(db.rows[key].state, data)
  }

  predicate IsFresh(db: Db, scope: Scope, op: Operation) {
    OpKey(scope.household, op.opId) !in db.applied
  }

  /** An operation of an unknown kind or action is refused. */
  lemma UnknownsAreRefused(db: Db, scope: Scope, op: Operation)
    requires IsFresh(db, scope, op) && (op.entity.None? || op.action.OtherAction?)
    ensures var push := Step(db, scope, op);
            push.Stepped? && push.db == db && push.result.Rejected? && push.result.opId == op.opId
            && push.result.spec.code == "VALIDATION_FAILED"
  {
    hide DecideUpsert;
    hide DecideDelete;
  }

  lemma FrozenExactlyWhen(current: FullState, data: FullState)
    ensures Immutable(current, data).None? <==> FrozenAgree(current, data)
  {
  }

  /** A fresh upsert is applied if and only if its payload decodes and has no
      fault, the tables can hold it, and the record may be created (base 0) or
      updated (any other base). */
  lemma UpsertAppliesExactlyWhen(db: Db, scope: Scope, op: Operation, kind: Kind)
    requires RowsOk(db) && IsFresh(db, scope, op) && op.entity == Some(kind) && op.action.Upsert?
    ensures (Step(db, scope, op).Stepped? && Step(db, scope, op).result.Applied?) <==>
            && Decode(kind, op.data).Some?
            && var key, h, data := Key(kind, op.id), scope.household, Decode(kind, op.data).value;
               && FaultOf(db, h, op.id, data, GetAny(db, h, key)).None?
               && StorageAccepts(db.world, data)
               && if op.baseVersion == 0 then MayCreate(db, h, key) else MayUpdate(db, h, key, op.baseVersion, data)
  {
    var decoded := Decode(kind, op.data);
    if decoded.Some? {
      ValidExactlyWhen(db, scope.household, op, kind);
      var row := GetAny(db, scope.household, Key(kind, op.id));
      if row.Some? {
        FrozenExactlyWhen(row.value.state, decoded.value);
      }
      assert StorageAccepts(db.world, decoded.value) ==> !NameReadFails(decoded.value);
    }
    hide FaultOf;
    hide ValidateUpsert;
    hide Immutable;
    hide FrozenAgree;
    hide StorageAccepts;
    hide NameReadFails;
    hide Created;
    hide Replaced;
    hide RowsOk;
  }

  /** The server's side of a conflict. */
  predicate ReportsRow(server: Option<ServerState>, row: Row, data: Option<FullState>) {
    server == Some(ServerState(row.version, row.deleted, data))
  }

  /** The conflicts of a fresh upsert: it passes validation and meets a record it
      may not write. Each names its case, and reports the server's version,
      tombstone and, of a live record of the household, its stored state. */
  lemma ConflictsExactlyWhen(db: Db, scope: Scope, op: Operation, kind: Kind)
    requires RowsOk(db) && IsFresh(db, scope, op) && op.entity == Some(kind) && op.action.Upsert?
    requires Decode(kind, op.data).Some? && !NameReadFails(Decode(kind, op.data).value)
    requires FaultOf(db, scope.household, op.id, Decode(kind, op.data).value, GetAny(db, scope.household, Key(kind, op.id))).None?
    ensures var key, h, data, push := Key(kind, op.id), scope.household, Decode(kind, op.data).value, Step(db, scope, op);
            var own, conflict := GetAny(db, h, key), push.Stepped? && push.result.Conflict?;
            if op.baseVersion == 0 then
              if own.Some? then
                conflict && push.result.code == AlreadyExists
                && ReportsRow(push.result.server, own.value, if own.value.deleted then None else Some(own.value.state))
              else if key in db.rows && db.rows[key].owner in db.world.members then
                conflict && push.result.code == AlreadyExists && ReportsRow(push.result.server, db.rows[key], None)
              else !conflict
            else
              if own.None? then
                conflict && push.result.code == VersionConflict && push.result.server == Some(ServerState(0, false, None))
              else if own.value.deleted then
                conflict && push.result.code == DeletedConflict && ReportsRow(push.result.server, own.value, None)
              else if !FrozenAgree(own.value.state, data) then push.Stepped? && push.result.Rejected?
              else if own.value.version != op.baseVersion then
                conflict && push.result.code == VersionConflict
                && ReportsRow(push.result.server, own.value, Some(own.value.state))
              else !conflict
  {
    ValidExactlyWhen(db, scope.household, op, kind);
    var row := GetAny(db, scope.household, Key(kind, op.id));
    if row.Some? {
      FrozenExactlyWhen(row.value.state, Decode(kind, op.data).value);
    }
    hide FaultOf;
    hide ValidateUpsert;
    hide Immutable;
    hide FrozenAgree;
    hide StorageAccepts;
    hide NameReadFails;
    hide ReferencedAnywhere;
    hide Created;
    hide Replaced;
    hide RowsOk;
    hide Label;
  }

  /** A faulty payload is refused with its first fault, whatever the record and
      the version: validation comes before every conflict. */
  lemma FaultsAreRefused(db: Db, scope: Scope, op: Operation, kind: Kind)
    requires RowsOk(db) && IsFresh(db, scope, op) && op.entity == Some(kind) && op.action.Upsert?
    requires Decode(kind, op.data).Some? ==> !NameReadFails(Decode(kind, op.data).value)
    ensures var push, h := Step(db, scope, op), scope.household;
            match Decode(kind, op.data)
            case None =>
              push.Stepped? && push.result.Rejected? && push.result.spec.code == "VALIDATION_FAILED"
            case Some(data) =>
              var fault := FaultOf(db, h, op.id, data, GetAny(db, h, Key(kind, op.id)));
              fault.Some? ==> push.Stepped? && push.result.Rejected? && Tells(Some(push.result.spec), fault)
  {
    if Decode(kind, op.data).Some? {
      ValidExactlyWhen(db, scope.household, op, kind);
      hide ValidateUpsert;
    }
    hide FaultOf;
    hide DecideCreate;
    hide DecideUpdate;
    hide NameReadFails;
    hide RowsOk;
    hide ErrorSpecFor;
  }

  /** What the household's record holds after an applied upsert: the payload but
      for an archive mark or an anchor at creation, a transfer's credit, and a
      debtor's currency. */
  predicate StoredFrom(db: Db, household: Id, data: FullState, before: Option<Row>, stored: FullState) {
    match data
    case OfCategory(c) =>
      && stored.OfCategory?
      && (stored.category.name, stored.category.typ, stored.category.icon, stored.category.color) == (c.name, c.typ, c.icon, c.color)
      && stored.category.archivedAt == if before.None? then None else c.archivedAt
    case OfTransaction(t) =>
      && stored.OfTransaction? && stored.transaction.destinationAmount == None
      && stored.transaction.(destinationAmount := t.destinationAmount) == t
    case OfDebtor(d) =>
      && stored.OfDebtor? && stored.debtor.name == d.name
      && (before.None? ==>
            stored.debtor.currency == if household in db.world.baseCurrency then db.world.baseCurrency[household] else "RUB")
      && (before.Some? && before.value.state.OfDebtor? ==> stored.debtor.currency == before.value.state.debtor.currency)
    case OfPlan(p) =>
      && stored.OfPlan? && stored.plan.(anchorDate := p.anchorDate) == p
      && stored.plan.anchorDate == if before.None? then p.nextDue else p.anchorDate
    case _ => stored == data
  }

  /** An applied upsert leaves its payload, in the household's name, one version
      on, and adds one log entry by the acting member; no other row changes. */
  lemma AppliedUpsertEffect(db: Db, scope: Scope, op: Operation, kind: Kind)
    requires RowsOk(db) && FreshlyApplied(db, scope, op) && op.entity == Some(kind) && op.action.Upsert?
    ensures var key, h, after := Key(kind, op.id), scope.household, Step(db, scope, op).db;
            var data, before := Decode(kind, op.data), GetAny(db, h, key);
            && data.Some? && key in after.rows
            && var row := after.rows[key];
               && row.owner == h && row.author == (if before.Some? then before.value.author else scope.actor)
               && row.version == op.baseVersion + 1 && !row.deleted
               && StoredFrom(db, h, data.value, before, row.state)
               && after.log == db.log + [Change(db.nextSeq, h, scope.actor, key, false, row.version)]
               && after.rows - {key} == db.rows - {key}
  {
    AppliedUpsertLeaves(db, scope, op);
    UpsertMovesOneVersion(db, scope, op);
    UpsertWritesOnce(db, scope, op, kind);
    var before := GetAny(db, scope.household, Key(kind, op.id));
    assert before.Some? ==> KindOf(before.value.state) == kind;
    hide Step;
    hide ValidateUpsert;
    hide RowsOk;
  }

  lemma UpsertWritesOnce(db: Db, scope: Scope, op: Operation, kind: Kind)
    requires FreshlyApplied(db, scope, op) && op.entity == Some(kind) && op.action.Upsert?
    ensures var key, h, after := Key(kind, op.id), scope.household, Step(db, scope, op).db;
            var before := GetAny(db, h, key);
            && key in after.rows
            && after.rows[key].owner == h && after.rows[key].author == (if before.Some? then before.value.author else scope.actor)
            && after.log == db.log + [Change(db.nextSeq, h, scope.actor, key, false, after.rows[key].version)]
            && after.rows - {key} == db.rows - {key}
  {
    hide ValidateUpsert;
    hide Immutable;
    hide Created;
    hide Replaced;
    hide ReferencedAnywhere;
    hide StorageAccepts;
    hide NameReadFails;
    var d := Decide(db, scope, op);
    SinglePut(Evicted(db, d.evicted), scope, d.writes);
  }

  // --- Deletes ------------------------------------------------------------------------------------------

  /** A live row of the household that refers to the record. */
  predicate DependsOn(db: Db, household: Id, k: Key, key: Key) {
    k in db.rows && IsLive(db, household, k) && RefersTo(db.rows[k].state, key)
  }

  /** A category delete that asks for its transactions to go along. */
  predicate AsksCascade(op: Operation) {
    op.data.deleteOptions == CascadeFlag(true)
  }

  /** Dependants that hold a record back: of an account all but adjustments, of a
      category all, or only the plans under a cascade. */
  ghost predicate HeldBack(db: Db, household: Id, key: Key, cascade: bool) {
    match key.kind
    case AccountKind => exists k :: DependsOn(db, household, k, key) && !IsAdjustment(db.rows[k].state)
    case CategoryKind => exists k :: DependsOn(db, household, k, key) && (cascade ==> db.rows[k].state.OfPlan?)
    case _ => false
  }

  lemma InUseExactlyWhen(db: Db, household: Id, key: Key, cascade: bool)
    requires RowsOk(db) && (cascade ==> key.kind.CategoryKind?)
    ensures InUse(db, household, key, cascade).Some? <==> HeldBack(db, household, key, cascade)
  {
    assert forall k :: k in db.rows ==> KindOf(db.rows[k].state) == k.kind;
    hide StoredShape;
    match key.kind {
      case AccountKind => AccountHeldBack(db, household, key);
      case CategoryKind => CategoryHeldBack(db, household, key, cascade);
      case _ =>
    }
    hide RowsOk;
    hide HeldBack;
    hide InUse;
  }

  lemma InUseNames(db: Db, household: Id, key: Key, cascade: bool)
    ensures InUse(db, household, key, cascade).Some? ==>
              if key.kind.AccountKind?
              then InUse(db, household, key, cascade).value in {ErrAccountHasTransactions, ErrAccountHasPlannedPayments}
              else InUse(db, household, key, cascade).value in {ErrCategoryHasTransactions, ErrCategoryHasPlannedPayments}
  {
  }

  lemma AccountHeldBack(db: Db, household: Id, key: Key)
    requires key.kind.AccountKind?
    ensures InUse(db, household, key, false).Some? <==> HeldBack(db, household, key, false)
  {
    if HeldBack(db, household, key, false) {
      var k :| DependsOn(db, household, k, key) && !IsAdjustment(db.rows[k].state);
      assert k in db.rows && IsLive(db, household, k);
    } else {
      assert forall k :: k in db.rows && IsLive(db, household, k) && RefersTo(db.rows[k].state, key) ==>
          DependsOn(db, household, k, key);
    }
  }

  lemma CategoryHeldBack(db: Db, household: Id, key: Key, cascade: bool)
    requires key.kind.CategoryKind?
    ensures InUse(db, household, key, cascade).Some? <==> HeldBack(db, household, key, cascade)
  {
    if HeldBack(db, household, key, cascade) {
      var k :| DependsOn(db, household, k, key) && (cascade ==> db.rows[k].state.OfPlan?);
      assert k in db.rows && IsLive(db, household, k);
    } else {
      assert forall k :: k in db.rows && IsLive(db, household, k) && RefersTo(db.rows[k].state, key) ==>
          DependsOn(db, household, k, key);
    }
  }

  /** A fresh delete is applied unless a live record's options are malformed or its
      dependants hold it back, which is refused; it answers the row's version
      afterwards, 0 where there is none. */
  lemma DeleteAppliesExactlyWhen(db: Db, scope: Scope, op: Operation, kind: Kind)
    requires Invariant(db) && scope.household in db.world.members
    requires IsFresh(db, scope, op) && op.entity == Some(kind) && op.action.Delete?
    ensures var key, h, push := Key(kind, op.id), scope.household, Step(db, scope, op);
            var malformed := kind.CategoryKind? && op.data.deleteOptions.MalformedOptions?;
            var held := HeldBack(db, h, key, kind.CategoryKind? && AsksCascade(op));
            && push.Stepped?
            && (push.result.Rejected? <==> IsLive(db, h, key) && (malformed || held))
            && (push.result.Rejected? ==>
                  if malformed then push.result.spec.code == "VALIDATION_FAILED"
                  else if kind.AccountKind?
                  then push.result.spec in {ErrorSpecFor(ErrAccountHasTransactions), ErrorSpecFor(ErrAccountHasPlannedPayments)}
                  else push.result.spec in {ErrorSpecFor(ErrCategoryHasTransactions), ErrorSpecFor(ErrCategoryHasPlannedPayments)})
            && (!push.result.Rejected? ==>
                  push.result == Applied(op.opId, match GetAny(push.db, h, key)
                                                  case None => 0
                                                  case Some(row) => row.version))
  {
    InvariantRows(db);
    hide Invariant;
    var key, h := Key(kind, op.id), scope.household;
    InUseExactlyWhen(db, h, key, kind.CategoryKind? && AsksCascade(op));
    InUseNames(db, h, key, kind.CategoryKind? && AsksCascade(op));
    hide HeldBack;
    hide InUse;
    hide ErrorSpecFor;
    if FreshlyApplied(db, scope, op) {
      DeleteAnswersVersion(db, scope, op, kind);
    }
    hide Burials;
    hide RowsOk;
    hide BuryAll;
    hide PutAll;
  }

  lemma DeleteAnswersVersion(db: Db, scope: Scope, op: Operation, kind: Kind)
    requires RowsOk(db) && scope.household in db.world.members
    requires FreshlyApplied(db, scope, op) && op.entity == Some(kind) && op.action.Delete?
    ensures var push := Step(db, scope, op);
            push.result == Applied(op.opId, match GetAny(push.db, scope.household, Key(kind, op.id))
                                            case None => 0
                                            case Some(row) => row.version)
  {
    if IsLive(db, scope.household, Key(kind, op.id)) {
      DeleteTouchesExactly(db, scope, op, kind);
    } else {
      assert PutAll(db, scope, []) == db;
    }
    hide InUse;
    hide Burials;
    hide RowsOk;
    hide PutAll;
  }

  lemma BurialsExactly(db: Db, household: Id, key: Key, cascade: bool, k: Key)
    requires RowsOk(db) && IsLive(db, household, key) && InUse(db, household, key, cascade).None?
    ensures k in Burials(db, household, key, cascade) <==> k == key || DependsOn(db, household, k, key)
  {
    if DependsOn(db, household, k, key) {
      BurialsCloseReferences(db, household, key, cascade, k);
    }
  }

  /** An applied delete of a live record tombstones it and exactly the household's
      live rows that refer to it, each one version on and otherwise as it was; no
      other row of any household changes. */
  lemma DeleteTouchesExactly(db: Db, scope: Scope, op: Operation, kind: Kind)
    requires RowsOk(db) && scope.household in db.world.members
    requires FreshlyApplied(db, scope, op) && op.entity == Some(kind) && op.action.Delete?
    requires IsLive(db, scope.household, Key(kind, op.id))
    ensures var key, h, after := Key(kind, op.id), scope.household, Step(db, scope, op).db;
            && after.rows.Keys == db.rows.Keys
            && forall k :: k in db.rows ==>
                 after.rows[k] == if k == key || DependsOn(db, h, k, key)
                                  then db.rows[k].(version := db.rows[k].version + 1, deleted := true)
                                  else db.rows[k]
  {
    var key, h := Key(kind, op.id), scope.household;
    var cascade := DeleteBuriesAll(db, scope, op, kind);
    var keys := Burials(db, h, key, cascade);
    var ws := BuryAll(db, keys);
    BurialsAreDistinctAndLive(db, h, key, cascade);
    forall k
      ensures k in PutAll(db, scope, ws).rows <==> k in db.rows
      ensures k in db.rows ==>
                PutAll(db, scope, ws).rows[k] == if k == key || DependsOn(db, h, k, key) then Buried(db.rows[k]) else db.rows[k]
    {
      BurialsExactly(db, h, key, cascade, k);
      BuryAllRow(db, scope, keys, k);
    }
    hide Step;
    hide Burials;
    hide InUse;
    hide RowsOk;
  }

  lemma DeleteBuriesAll(db: Db, scope: Scope, op: Operation, kind: Kind) returns (cascade: bool)
    requires FreshlyApplied(db, scope, op) && op.entity == Some(kind) && op.action.Delete?
    requires IsLive(db, scope.household, Key(kind, op.id))
    ensures var key, h, after := Key(kind, op.id), scope.household, Step(db, scope, op).db;
            && InUse(db, h, key, cascade).None?
            && after.rows == PutAll(db, scope, BuryAll(db, Burials(db, h, key, cascade))).rows
            && after.log == PutAll(db, scope, BuryAll(db, Burials(db, h, key, cascade))).log
  {
    hide InUse;
    hide Burials;
    cascade := ResolveDelete(kind, op.data.deleteOptions).value;
  }

  lemma BuryAllRow(db: Db, scope: Scope, keys: seq<Key>, k: Key)
    requires forall i, j :: 0 <= i < j < |keys| ==> keys[i] != keys[j]
    requires forall x :: x in keys ==> x in db.rows
    ensures var after := PutAll(db, scope, BuryAll(db, keys));
            && (k in after.rows <==> k in db.rows)
            && (k in db.rows ==> after.rows[k] == if k in keys then Buried(db.rows[k]) else db.rows[k])
  {
    var ws := BuryAll(db, keys);
    if k in keys {
      var i :| 0 <= i < |keys| && keys[i] == k;
      assert ws[i].key == k;
      PutAllWrites(db, scope, ws, i);
    } else {
      PutAllFrame(db, scope, ws, k);
    }
  }

  /** In the log an account or category comes before what goes with it, a debtor
      after. */
  lemma DeleteLogOrder(db: Db, scope: Scope, op: Operation, kind: Kind)
    requires FreshlyApplied(db, scope, op) && op.entity == Some(kind) && op.action.Delete?
    requires IsLive(db, scope.household, Key(kind, op.id))
    ensures var log, key := Step(db, scope, op).db.log, Key(kind, op.id);
            |log| > |db.log| && if kind.DebtorKind? then log[|log| - 1].key == key else log[|db.log|].key == key
  {
    var cascade := DeleteBuriesAll(db, scope, op, kind);
    var key, h := Key(kind, op.id), scope.household;
    var keys := Burials(db, h, key, cascade);
    var ws := BuryAll(db, keys);
    PutAllLog(db, scope, ws);
    assert PutAll(db, scope, ws).log[|db.log| + 0] == ChangeOf(db.nextSeq, scope, ws[0]);
    var n := |ws| - 1;
    assert PutAll(db, scope, ws).log[|db.log| + n] == ChangeOf(db.nextSeq + n, scope, ws[n]);
    hide Step;
    hide InUse;
    hide PutAll;
  }
}
