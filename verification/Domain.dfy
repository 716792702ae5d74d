/** Entities, operations and results of the sync protocol
    (backend/internal/domain). */
module Domain {
  import opened Calendar

  datatype Option<+T> = None | Some(value: T)

  /** A non-nil UUID, as its 128-bit value. */
  type Id = n: nat | n > 0 witness 1

  datatype Kind =
    | AccountKind
    | CategoryKind
    | TransactionKind
    | DebtorKind
    | DebtOperationKind
    | PlannedPaymentKind

  function Label(kind: Kind): string {
    match kind
    case AccountKind => "account"
    case CategoryKind => "category"
    case TransactionKind => "transaction"
    case DebtorKind => "debtor"
    case DebtOperationKind => "debt operation"
    case PlannedPaymentKind => "planned payment"
  }

  function InvalidDataMessage(kind: Kind): string {
    "invalid " + Label(kind) + " data"
  }

  // --- Wire enums: the known values and any other text ----------------------------

  datatype TxType = Income | Expense | Transfer | Adjustment | OtherType(text: string)
  datatype Direction = Receivable | Payable | OtherDirection(text: string)
  datatype DebtKind = Debt | Repayment | OtherDebtKind(text: string)
  datatype ConfirmMode = Manual | Auto | OtherConfirmMode(text: string)
  datatype Reminder = Off | DayBefore | OnDay | OtherReminder(text: string)

  predicate IsCashflow(typ: TxType) {
    typ.Income? || typ.Expense?
  }

  /** The supported currency catalog. */
  predicate IsCurrency(code: string) {
    code in ["USD", "EUR", "RUB", "GBP", "CNY", "TRY", "PLN", "GEL", "KZT",
             "UAH", "AMD", "AZN", "BYN", "UZS", "KGS", "RSD", "ILS", "AED", "THB"]
  }

  // --- Full states: everything an upsert carries ------------------------------------

  /** A date as decoded from the wire; a missing one is the zero time. */
  type CivilDate = d: Date | IsDate(d) witness Date(1, 1, 1)

  const ZERO_DATE: CivilDate := Date(1, 1, 1)

  datatype Account = Account(name: string, currency: string, openingBalance: int)

  datatype Category = Category(
    name: string, typ: TxType, icon: string, color: string, archivedAt: Option<int>)

  datatype Transaction = Transaction(
    typ: TxType, amount: int, description: string, occurredAt: int,
    accountId: Option<Id>, categoryId: Option<Id>,
    fromAccountId: Option<Id>, toAccountId: Option<Id>,
    destinationAmount: Option<int>)

  datatype Debtor = Debtor(name: string, currency: string)

  datatype DebtOperation = DebtOperation(
    debtorId: Id, direction: Direction, kind: DebtKind, amount: int, occurredAt: int)

  datatype PlannedPayment = PlannedPayment(
    typ: TxType, amount: int, name: string, accountId: Id, categoryId: Id,
    nextDue: CivilDate, anchorDate: CivilDate, regularity: Regularity,
    confirmMode: ConfirmMode, reminder: Reminder, note: string)

  datatype FullState =
    | OfAccount(account: Account)
    | OfCategory(category: Category)
    | OfTransaction(transaction: Transaction)
    | OfDebtor(debtor: Debtor)
    | OfDebtOperation(operation: DebtOperation)
    | OfPlan(plan: PlannedPayment)

  function KindOf(state: FullState): Kind {
    match state
    case OfAccount(_) => AccountKind
    case OfCategory(_) => CategoryKind
    case OfTransaction(_) => TransactionKind
    case OfDebtor(_) => DebtorKind
    case OfDebtOperation(_) => DebtOperationKind
    case OfPlan(_) => PlannedPaymentKind
  }

  /** The name that must be unique among the live records of a kind. */
  function NameOf(state: FullState): Option<string> {
    match state
    case OfCategory(c) => Some(c.name)
    case OfDebtor(d) => Some(d.name)
    case _ => None
  }

  /** A database text holds every character but NUL. */
  predicate IsText(text: string) {
    '\0' !in text
  }

  /** Whether the database can hold the free texts of a state. */
  predicate TextsStorable(state: FullState) {
    match state
    case OfAccount(a) => IsText(a.name)
    case OfCategory(c) => IsText(c.name) && IsText(c.icon) && IsText(c.color)
    case OfTransaction(t) => IsText(t.description)
    case OfDebtor(d) => IsText(d.name)
    case OfDebtOperation(_) => true
    case OfPlan(p) => IsText(p.name) && IsText(p.note)
  }

  // --- Operations ----------------------------------------------------------------------

  /** Which household a write belongs to and who authored it. */
  datatype Scope = Scope(household: Id, actor: Id)

  datatype Action = Upsert | Delete | OtherAction(text: string)

  datatype DeleteOptions = NoOptions | CascadeFlag(cascade: bool) | MalformedOptions

  /** A raw payload, known by what each decoder makes of it. */
  datatype Payload = Payload(decoded: map<Kind, FullState>, deleteOptions: DeleteOptions)

  function Decode(kind: Kind, data: Payload): (state: Option<FullState>)
    ensures state.Some? ==> KindOf(state.value) == kind
  {
    if kind in data.decoded && KindOf(data.decoded[kind]) == kind
    then Some(data.decoded[kind])
    else None
  }

  /** entity is None for a kind the registry does not know. */
  datatype Operation = Operation(
    opId: Id, entity: Option<Kind>, action: Action, id: Id, baseVersion: int, data: Payload)

  // --- Results -------------------------------------------------------------------------

  datatype ConflictCode = VersionConflict | AlreadyExists | DeletedConflict

  datatype ServerState = ServerState(version: nat, deleted: bool, data: Option<FullState>)

  datatype PushResult =
    | Applied(opId: Id, version: nat)
    | Conflict(opId: Id, code: ConflictCode, message: string, server: Option<ServerState>)
    | Rejected(opId: Id, spec: ErrorSpec)

  function ServerStateOf(version: nat, deleted: bool, data: FullState): ServerState {
    ServerState(version, deleted, if deleted then None else Some(data))
  }

  // --- Domain errors and their wire form -----------------------------------------------

  datatype ErrorSpec = ErrorSpec(code: string, message: string)

  datatype Sentinel =
    | ErrInvalidAmount
    | ErrInvalidRefs
    | ErrTransactionAccountNotFound
    | ErrTransactionFromAccountNotFound
    | ErrTransactionToAccountNotFound
    | ErrTransactionCategoryNotFound
    | ErrCategoryTypeMismatch
    | ErrCategoryArchived
    | ErrSameAccountTransfer
    | ErrTransferDestinationAmountRequired
    | ErrTransferDestinationAmountForbidden
    | ErrTransactionTypeImmutable
    | ErrTransactionNotFound
    | ErrTransactionVersionConflict
    | ErrNoFieldsToUpdate
    | ErrCategoryAlreadyExists
    | ErrDebtorAlreadyExists
    | ErrInvalidDebtorCurrency
    | ErrDebtOperationDebtorNotFound
    | ErrDebtOperationImmutable
    | ErrPlannedPaymentAccountNotFound
    | ErrPlannedPaymentCategoryNotFound
    | ErrPlannedPaymentCategoryTypeMismatch
    | ErrPlannedPaymentCategoryArchived
    | ErrPlannedPaymentTypeImmutable
    | ErrAccountHasTransactions
    | ErrAccountHasPlannedPayments
    | ErrCategoryHasTransactions
    | ErrCategoryHasPlannedPayments

  /** The code and message a sentinel carries on both surfaces. */
  function ErrorSpecFor(err: Sentinel): ErrorSpec {
    match err
    case ErrInvalidAmount => ErrorSpec("INVALID_AMOUNT", "invalid amount")
    case ErrInvalidRefs => ErrorSpec("INVALID_REFS", "invalid references")
    case ErrTransactionAccountNotFound => ErrorSpec("ACCOUNT_NOT_FOUND", "account not found")
    case ErrTransactionFromAccountNotFound => ErrorSpec("ACCOUNT_NOT_FOUND", "account not found")
    case ErrTransactionToAccountNotFound => ErrorSpec("ACCOUNT_NOT_FOUND", "account not found")
    case ErrTransactionCategoryNotFound => ErrorSpec("CATEGORY_NOT_FOUND", "category not found")
    case ErrCategoryTypeMismatch =>
      ErrorSpec("CATEGORY_TYPE_MISMATCH", "transaction type does not match category type")
    case ErrCategoryArchived =>
      ErrorSpec("CATEGORY_ARCHIVED", "category is archived and not available for new transactions")
    case ErrSameAccountTransfer =>
      ErrorSpec("SAME_ACCOUNT_TRANSFER", "transaction from and to accounts are the same")
    case ErrTransferDestinationAmountRequired =>
      ErrorSpec("INVALID_AMOUNT", "cross-currency transfer requires a destination amount")
    case ErrTransferDestinationAmountForbidden =>
      ErrorSpec("INVALID_AMOUNT", "destination amount is only allowed for a cross-currency transfer")
    case ErrTransactionTypeImmutable => ErrorSpec("VALIDATION_FAILED", "transaction type is immutable")
    case ErrTransactionNotFound => ErrorSpec("TRANSACTION_NOT_FOUND", "transaction not found")
    case ErrTransactionVersionConflict =>
      ErrorSpec("TRANSACTION_VERSION_CONFLICT",
                "transaction was modified by another request, please refetch and retry")
    case ErrNoFieldsToUpdate => ErrorSpec("VALIDATION_FAILED", "no fields to update")
    case ErrCategoryAlreadyExists => ErrorSpec("CATEGORY_ALREADY_EXISTS", "category already exists")
    case ErrDebtorAlreadyExists => ErrorSpec("DEBTOR_ALREADY_EXISTS", "debtor already exists")
    case ErrInvalidDebtorCurrency =>
      ErrorSpec("VALIDATION_FAILED", "debtor currency is not in the supported catalog")
    case ErrDebtOperationDebtorNotFound =>
      ErrorSpec("DEBT_OPERATION_DEBTOR_NOT_FOUND", "debtor not found")
    case ErrDebtOperationImmutable =>
      ErrorSpec("VALIDATION_FAILED", "debtor, direction, and kind are immutable")
    case ErrPlannedPaymentAccountNotFound =>
      ErrorSpec("PLANNED_PAYMENT_ACCOUNT_NOT_FOUND", "account not found")
    case ErrPlannedPaymentCategoryNotFound =>
      ErrorSpec("PLANNED_PAYMENT_CATEGORY_NOT_FOUND", "category not found")
    case ErrPlannedPaymentCategoryTypeMismatch =>
      ErrorSpec("PLANNED_PAYMENT_CATEGORY_NOT_FOUND", "plan type does not match category type")
    case ErrPlannedPaymentCategoryArchived =>
      ErrorSpec("PLANNED_PAYMENT_CATEGORY_ARCHIVED",
                "category is archived and not available for planned payments")
    case ErrPlannedPaymentTypeImmutable => ErrorSpec("VALIDATION_FAILED", "plan type is immutable")
    case ErrAccountHasTransactions =>
      ErrorSpec("ACCOUNT_IN_USE", "account has transactions and cannot be deleted")
    case ErrAccountHasPlannedPayments =>
      ErrorSpec("ACCOUNT_IN_USE", "account has planned payments and cannot be deleted")
    case ErrCategoryHasTransactions =>
      ErrorSpec("CATEGORY_IN_USE", "category has transactions and cannot be deleted")
    case ErrCategoryHasPlannedPayments =>
      ErrorSpec("CATEGORY_IN_USE", "category has planned payments and cannot be deleted")
  }

  function ValidationFailed(message: string): ErrorSpec {
    ErrorSpec("VALIDATION_FAILED", message)
  }
}
