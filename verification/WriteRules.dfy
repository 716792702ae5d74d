/** The transport-agnostic write rules (backend/internal/service/write_rules*.go).
    Both surfaces read the same live rows, so the read seam is the database and
    the household. */
module WriteRules {
  import opened Domain
  import opened Database

  // --- Live reads -------------------------------------------------------------------------

  function LiveAccount(db: Db, household: Id, id: Id): Option<Account> {
    var key := Key(AccountKind, id);
    if IsLive(db, household, key) && db.rows[key].state.OfAccount?
    then Some(db.rows[key].state.account) else None
  }

  /** Archived categories are returned: archival is a rule, not a filter. */
  function LiveCategory(db: Db, household: Id, id: Id): Option<Category> {
    var key := Key(CategoryKind, id);
    if IsLive(db, household, key) && db.rows[key].state.OfCategory?
    then Some(db.rows[key].state.category) else None
  }

  predicate LiveDebtorExists(db: Db, household: Id, id: Id) {
    var key := Key(DebtorKind, id);
    IsLive(db, household, key) && db.rows[key].state.OfDebtor?
  }

  // --- Transactions -----------------------------------------------------------------------

  function ValidateAmount(typ: TxType, amount: int): Option<Sentinel> {
    if typ.Adjustment? then (if amount == 0 then Some(ErrInvalidAmount) else None)
    else if amount < 1 then Some(ErrInvalidAmount)
    else None
  }

  function ValidateCashflowRefs(db: Db, household: Id, t: Transaction, previous: Option<Id>): Option<Sentinel>
    requires t.categoryId.Some?
  {
    if t.accountId.Some? && LiveAccount(db, household, t.accountId.value).None?
    then Some(ErrTransactionAccountNotFound)
    else
      match LiveCategory(db, household, t.categoryId.value)
      case None => Some(ErrTransactionCategoryNotFound)
      case Some(category) =>
        if category.typ != t.typ then Some(ErrCategoryTypeMismatch)
        else if category.archivedAt.Some? && previous != t.categoryId then Some(ErrCategoryArchived)
        else None
  }

  function ValidateTransferRefs(db: Db, household: Id, fromId: Id, toId: Id, credit: Option<int>): Option<Sentinel> {
    match (LiveAccount(db, household, fromId), LiveAccount(db, household, toId))
    case (None, _) => Some(ErrTransactionFromAccountNotFound)
    case (_, None) => Some(ErrTransactionToAccountNotFound)
    case (Some(source), Some(target)) =>
      if fromId == toId then Some(ErrSameAccountTransfer)
      else if source.currency != target.currency then
        match credit
        case None => Some(ErrTransferDestinationAmountRequired)
        case Some(amount) => if amount <= 0 then Some(ErrInvalidAmount) else None
      else if credit.Some? then Some(ErrTransferDestinationAmountForbidden)
      else None
  }

  /** previous is the category of the live row the write replaces, if any. */
  function ValidateTransactionWrite(db: Db, household: Id, t: Transaction, previous: Option<Id>): Option<Sentinel> {
    var amountError := ValidateAmount(t.typ, t.amount);
    if amountError.Some? then amountError
    else
      match t.typ
      case Income =>
        if t.fromAccountId.Some? || t.toAccountId.Some? || t.categoryId.None? then Some(ErrInvalidRefs)
        else ValidateCashflowRefs(db, household, t, previous)
      case Expense =>
        if t.fromAccountId.Some? || t.toAccountId.Some? || t.categoryId.None? then Some(ErrInvalidRefs)
        else ValidateCashflowRefs(db, household, t, previous)
      case Transfer =>
        if t.accountId.Some? || t.categoryId.Some? || t.fromAccountId.None? || t.toAccountId.None?
        then Some(ErrInvalidRefs)
        else ValidateTransferRefs(db, household, t.fromAccountId.value, t.toAccountId.value, t.destinationAmount)
      case Adjustment =>
        if t.categoryId.Some? || t.fromAccountId.Some? || t.toAccountId.Some? || t.accountId.None?
        then Some(ErrInvalidRefs)
        else if LiveAccount(db, household, t.accountId.value).None? then Some(ErrTransactionAccountNotFound)
        else None
      case OtherType(_) => None
  }

  function ValidateTransactionTypeImmutable(current: TxType, next: TxType): Option<Sentinel> {
    if current != next then Some(ErrTransactionTypeImmutable) else None
  }

  // What the rules mean, stated without the order of the checks.

  /** The reference shape and amount sign of each transaction type. */
  predicate WellShaped(t: Transaction) {
    match t.typ
    case Income => CashflowShape(t)
    case Expense => CashflowShape(t)
    case Transfer =>
      && t.accountId.None? && t.categoryId.None?
      && t.fromAccountId.Some? && t.toAccountId.Some? && t.fromAccountId != t.toAccountId
      && t.amount > 0
    case Adjustment =>
      && t.accountId.Some? && t.categoryId.None? && t.fromAccountId.None? && t.toAccountId.None?
      && t.amount != 0
    case OtherType(_) => false
  }

  predicate CashflowShape(t: Transaction) {
    t.categoryId.Some? && t.fromAccountId.None? && t.toAccountId.None? && t.amount > 0
  }

  predicate OptionalAccountLive(db: Db, household: Id, id: Option<Id>) {
    id.Some? ==> LiveAccount(db, household, id.value).Some?
  }

  /** Every account and category the transaction names is live here. */
  predicate TransactionRefsLive(db: Db, household: Id, t: Transaction) {
    && OptionalAccountLive(db, household, t.accountId)
    && OptionalAccountLive(db, household, t.fromAccountId)
    && OptionalAccountLive(db, household, t.toAccountId)
    && (t.categoryId.Some? ==> LiveCategory(db, household, t.categoryId.value).Some?)
  }

  /** The category has the transaction's type, and is active unless kept. */
  predicate CategoryFits(db: Db, household: Id, t: Transaction, previous: Option<Id>) {
    t.categoryId.Some? ==>
      match LiveCategory(db, household, t.categoryId.value)
      case None => false
      case Some(category) =>
        category.typ == t.typ && (category.archivedAt.None? || previous == t.categoryId)
  }

  /** A credit is stated exactly when a transfer crosses currencies. */
  predicate CreditFits(db: Db, household: Id, t: Transaction) {
    t.typ.Transfer? && t.fromAccountId.Some? && t.toAccountId.Some? ==>
      match (LiveAccount(db, household, t.fromAccountId.value), LiveAccount(db, household, t.toAccountId.value))
      case (Some(source), Some(target)) =>
        if source.currency == target.currency then t.destinationAmount.None?
        else t.destinationAmount.Some? && t.destinationAmount.value > 0
      case _ => false
  }

  /** The staged checks accept exactly the transactions of known type that are
      well shaped, refer only to live records, fit their category and state a
      credit exactly when currencies differ. */
  lemma TransactionRulesMeaning(db: Db, household: Id, t: Transaction, previous: Option<Id>)
    requires !t.typ.OtherType?
    ensures ValidateTransactionWrite(db, household, t, previous) == None
            <==> && WellShaped(t)
                 && TransactionRefsLive(db, household, t)
                 && CategoryFits(db, household, t, previous)
                 && CreditFits(db, household, t)
  {
    match t.typ
    case Income =>
    case Expense =>
    case Transfer =>
    case Adjustment =>
  }

  // --- Planned payments ---------------------------------------------------------------------

  function ValidatePlannedPaymentWrite(db: Db, household: Id, accountId: Id, categoryId: Id, typ: TxType)
    : Option<Sentinel>
  {
    if LiveAccount(db, household, accountId).None? then Some(ErrPlannedPaymentAccountNotFound)
    else
      match LiveCategory(db, household, categoryId)
      case None => Some(ErrPlannedPaymentCategoryNotFound)
      case Some(category) =>
        if category.typ != typ then Some(ErrPlannedPaymentCategoryTypeMismatch)
        else if category.archivedAt.Some? then Some(ErrPlannedPaymentCategoryArchived)
        else None
  }

  function ValidatePlannedPaymentTypeImmutable(current: TxType, next: TxType): Option<Sentinel> {
    if current != next then Some(ErrPlannedPaymentTypeImmutable) else None
  }

  // --- Debt operations ----------------------------------------------------------------------

  function ValidateDebtOperationWrite(db: Db, household: Id, debtorId: Id): Option<Sentinel> {
    if LiveDebtorExists(db, household, debtorId) then None else Some(ErrDebtOperationDebtorNotFound)
  }

  function ValidateDebtOperationImmutable(current: DebtOperation, next: DebtOperation): Option<Sentinel> {
    if current.debtorId != next.debtorId || current.direction != next.direction || current.kind != next.kind
    then Some(ErrDebtOperationImmutable) else None
  }

  // --- Dependants and delete guards -----------------------------------------------------------

  /** Whether a stored state refers to the record under key. */
  predicate RefersTo(state: FullState, key: Key) {
    match state
    case OfTransaction(t) =>
      || (key.kind.AccountKind? && (t.accountId == Some(key.id) || t.fromAccountId == Some(key.id) || t.toAccountId == Some(key.id)))
      || (key.kind.CategoryKind? && t.categoryId == Some(key.id))
    case OfPlan(p) =>
      || (key.kind.AccountKind? && p.accountId == key.id)
      || (key.kind.CategoryKind? && p.categoryId == key.id)
    case OfDebtOperation(o) => key.kind.DebtorKind? && o.debtorId == key.id
    case _ => false
  }

  predicate IsAdjustment(state: FullState) {
    state.OfTransaction? && state.transaction.typ.Adjustment?
  }

  /** Adjustments never block an account delete: they go with the account. */
  predicate HasLiveTransactionsForAccount(db: Db, household: Id, id: Id) {
    exists k :: k in db.rows && IsLive(db, household, k) && db.rows[k].state.OfTransaction?
                && !IsAdjustment(db.rows[k].state) && RefersTo(db.rows[k].state, Key(AccountKind, id))
  }

  predicate HasLiveTransactionsForCategory(db: Db, household: Id, id: Id) {
    exists k :: k in db.rows && IsLive(db, household, k) && db.rows[k].state.OfTransaction?
                && RefersTo(db.rows[k].state, Key(CategoryKind, id))
  }

  predicate HasLivePlannedPayments(db: Db, household: Id, key: Key) {
    exists k :: k in db.rows && IsLive(db, household, k) && db.rows[k].state.OfPlan?
                && RefersTo(db.rows[k].state, key)
  }

  function ValidateAccountDelete(db: Db, household: Id, id: Id): Option<Sentinel> {
    if HasLiveTransactionsForAccount(db, household, id) then Some(ErrAccountHasTransactions)
    else if HasLivePlannedPayments(db, household, Key(AccountKind, id)) then Some(ErrAccountHasPlannedPayments)
    else None
  }

  function ValidateCategoryDelete(db: Db, household: Id, id: Id): Option<Sentinel> {
    if HasLiveTransactionsForCategory(db, household, id) then Some(ErrCategoryHasTransactions)
    else if HasLivePlannedPayments(db, household, Key(CategoryKind, id)) then Some(ErrCategoryHasPlannedPayments)
    else None
  }

  function ValidateCategoryDeleteUnderCascade(db: Db, household: Id, id: Id): Option<Sentinel> {
    if HasLivePlannedPayments(db, household, Key(CategoryKind, id)) then Some(ErrCategoryHasPlannedPayments)
    else None
  }
}
