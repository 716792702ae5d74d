/** What each entity supplies to the push engine
    (backend/internal/service/sync_adapter_*.go) and what its store writes keep
    of a pushed state (backend/internal/repository/postgres/sync.go). */
module Adapters {
  import opened Domain
  import opened Database
  import opened WriteRules

  function SpecOf(err: Option<Sentinel>): Option<ErrorSpec> {
    match err
    case None => None
    case Some(e) => Some(ErrorSpecFor(e))
  }

  // --- Validation hooks ------------------------------------------------------------------

  predicate CategoryNameTaken(db: Db, household: Id, name: string, exceptId: Id) {
    exists k :: k in db.rows && IsLive(db, household, k) && k.kind.CategoryKind? && k.id != exceptId
                && db.rows[k].state.OfCategory? && db.rows[k].state.category.name == name
  }

  predicate DebtorNameTaken(db: Db, household: Id, name: string, exceptId: Id) {
    exists k :: k in db.rows && IsLive(db, household, k) && k.kind.DebtorKind? && k.id != exceptId
                && db.rows[k].state.OfDebtor? && db.rows[k].state.debtor.name == name
  }

  predicate PlanFields(p: PlannedPayment) {
    && p.amount >= 1
    && IsCashflow(p.typ)
    && !p.regularity.OtherRegularity?
    && !p.confirmMode.OtherConfirmMode?
    && !p.reminder.OtherReminder?
  }

  /** What a pushed plan must look like: known values and both dates given. */
  predicate PlanShape(p: PlannedPayment) {
    PlanFields(p) && p.nextDue != ZERO_DATE && p.anchorDate != ZERO_DATE
  }

  function PreValidateDebtOperation(db: Db, household: Id, o: DebtOperation): Option<ErrorSpec> {
    if o.amount < 1 then Some(ValidationFailed("amount must be at least 1 minor unit"))
    else if o.direction.OtherDirection? then Some(ValidationFailed("invalid debt direction"))
    else if o.kind.OtherDebtKind? then Some(ValidationFailed("invalid debt operation kind"))
    else SpecOf(ValidateDebtOperationWrite(db, household, o.debtorId))
  }

  /** Runs before the current row is read. */
  function PreValidate(db: Db, household: Id, id: Id, data: FullState): Option<ErrorSpec> {
    match data
    case OfAccount(_) => None
    case OfCategory(c) =>
      if !IsCashflow(c.typ) then Some(ValidationFailed("invalid category type"))
      else if CategoryNameTaken(db, household, c.name, id) then Some(ErrorSpecFor(ErrCategoryAlreadyExists))
      else None
    case OfTransaction(t) =>
      if t.typ.OtherType? then Some(ValidationFailed(InvalidDataMessage(TransactionKind))) else None
    case OfDebtor(d) =>
      if !IsCurrency(d.currency) then Some(ErrorSpecFor(ErrInvalidDebtorCurrency))
      else if DebtorNameTaken(db, household, d.name, id) then Some(ErrorSpecFor(ErrDebtorAlreadyExists))
      else None
    case OfDebtOperation(o) => PreValidateDebtOperation(db, household, o)
    case OfPlan(p) =>
      if !PlanShape(p) then Some(ValidationFailed(InvalidDataMessage(PlannedPaymentKind)))
      else SpecOf(ValidatePlannedPaymentWrite(db, household, p.accountId, p.categoryId, p.typ))
  }

  /** The category of the live row a transaction write replaces. */
  function PreviousCategory(current: Option<Row>): Option<Id> {
    if current.Some? && !current.value.deleted && current.value.state.OfTransaction?
    then current.value.state.transaction.categoryId else None
  }

  /** Runs after the current row is read, before create and update part. */
  function PostReadValidate(db: Db, household: Id, data: FullState, current: Option<Row>): Option<ErrorSpec> {
    match data
    case OfTransaction(t) => SpecOf(ValidateTransactionWrite(db, household, t, PreviousCategory(current)))
    case _ => None
  }

  /** Fires between the deleted check and the version check of an update. */
  function Immutable(current: FullState, data: FullState): Option<ErrorSpec> {
    match (current, data)
    case (OfTransaction(c), OfTransaction(d)) => SpecOf(ValidateTransactionTypeImmutable(c.typ, d.typ))
    case (OfPlan(c), OfPlan(d)) => SpecOf(ValidatePlannedPaymentTypeImmutable(c.typ, d.typ))
    case (OfDebtOperation(c), OfDebtOperation(d)) => SpecOf(ValidateDebtOperationImmutable(c, d))
    case _ => None
  }

  // --- What the store keeps ---------------------------------------------------------------

  /** No transaction write of the store passes the destination amount on. */
  function WithoutCredit(t: Transaction): Transaction {
    t.(destinationAmount := None)
  }

  /** The row state a create inserts: a category starts active, a plan's anchor
      is its first due date, a debtor gets the household's base currency. */
  function Created(db: Db, household: Id, data: FullState): FullState {
    match data
    case OfAccount(_) => data
    case OfCategory(c) => OfCategory(c.(archivedAt := None))
    case OfTransaction(t) => OfTransaction(WithoutCredit(t))
    case OfDebtor(d) => OfDebtor(d.(currency := BaseCurrency(db, household)))
    case OfDebtOperation(_) => data
    case OfPlan(p) => OfPlan(p.(anchorDate := p.nextDue))
  }

  /** The row state a full-state replace leaves: a transaction keeps its type
      and a debtor its currency, whatever the payload says. */
  function Replaced(current: FullState, data: FullState): FullState {
    match (current, data)
    case (OfTransaction(c), OfTransaction(t)) => OfTransaction(WithoutCredit(t).(typ := c.typ))
    case (OfDebtor(c), OfDebtor(d)) => OfDebtor(d.(currency := c.currency))
    case _ => data
  }

  /** What a write needs beyond the engine's checks: texts the database can hold,
      the accounts table's currency CHECK, and a unique name its index can hold.
      Otherwise the statement fails, and with it the batch. */
  predicate StorageAccepts(world: World, data: FullState) {
    && TextsStorable(data)
    && (data.OfAccount? ==> IsCurrency(data.account.currency))
    && (NameOf(data).Some? ==> NameOf(data).value in world.indexable)
  }

  /** The name-taken read of a category or debtor fails on a text the database
      cannot hold, once the checks before it have passed. */
  predicate NameReadFails(data: FullState) {
    match data
    case OfCategory(c) => IsCashflow(c.typ) && !IsText(c.name)
    case OfDebtor(d) => IsCurrency(d.currency) && !IsText(d.name)
    case _ => false
  }

  /** The tables' foreign keys: a row some row of any household refers to cannot
      be deleted for good. */
  predicate ReferencedAnywhere(db: Db, key: Key) {
    exists k :: k in db.rows && RefersTo(db.rows[k].state, key)
  }

  // --- Deletes ------------------------------------------------------------------------------

  /** A category delete may ask to cascade; malformed options are an error. */
  function ResolveDelete(kind: Kind, options: DeleteOptions): Option<bool> {
    if !kind.CategoryKind? then Some(false)
    else
      match options
      case NoOptions => Some(false)
      case CascadeFlag(cascade) => Some(cascade)
      case MalformedOptions => None
  }

  function InUse(db: Db, household: Id, key: Key, cascade: bool): Option<Sentinel> {
    match key.kind
    case AccountKind => ValidateAccountDelete(db, household, key.id)
    case CategoryKind =>
      if cascade then ValidateCategoryDeleteUnderCascade(db, household, key.id)
      else ValidateCategoryDelete(db, household, key.id)
    case _ => None
  }

  function AdjustmentsOf(db: Db, household: Id, account: Id): set<Key> {
    set k | k in db.rows && k.kind.TransactionKind? && IsLive(db, household, k)
            && IsAdjustment(db.rows[k].state) && db.rows[k].state.transaction.accountId == Some(account)
  }

  function TransactionsOfCategory(db: Db, household: Id, category: Id): set<Key> {
    set k | k in db.rows && k.kind.TransactionKind? && IsLive(db, household, k)
            && db.rows[k].state.OfTransaction? && db.rows[k].state.transaction.categoryId == Some(category)
  }

  function OperationsOf(db: Db, household: Id, debtor: Id): set<Key> {
    set k | k in db.rows && k.kind.DebtOperationKind? && IsLive(db, household, k)
            && db.rows[k].state.OfDebtOperation? && db.rows[k].state.operation.debtorId == debtor
  }

  /** The records a delete tombstones, in the order of their log entries. */
  function Burials(db: Db, household: Id, key: Key, cascade: bool): (keys: seq<Key>)
    requires key in db.rows
    ensures forall k :: k in keys ==> k in db.rows
    ensures key in keys
  {
    match key.kind
    case AccountKind => [key] + Ascending(TransactionKind, AdjustmentsOf(db, household, key.id))
    case CategoryKind =>
      if cascade then [key] + Ascending(TransactionKind, TransactionsOfCategory(db, household, key.id)) else [key]
    case DebtorKind => Ascending(DebtOperationKind, OperationsOf(db, household, key.id)) + [key]
    case _ => [key]
  }

  function Buried(row: Row): Row {
    row.(version := row.version + 1, deleted := true)
  }

  function BuryAll(db: Db, keys: seq<Key>): seq<Write>
    requires forall k :: k in keys ==> k in db.rows
  {
    seq(|keys|, i requires 0 <= i < |keys| => Write(keys[i], Buried(db.rows[keys[i]])))
  }
}
