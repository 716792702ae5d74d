/** Concrete runs that show which plausible promises the protocol does not make. */
module Witnesses {
  import opened Calendar
  import opened Domain
  import opened Database
  import opened WriteRules
  import opened Adapters
  import opened Engine
  import opened Preservation
  import opened Guarantees
  import opened Ledger
  import opened Replica
  import opened RestPatch

  ghost const HOME: World := World({1}, map[], iset name: string | |name| <= 600)
  const MEMBER: Scope := Scope(1, 1)

  function Upserting(opId: Id, id: Id, base: int, data: FullState): Operation {
    Operation(opId, Some(KindOf(data)), Upsert, id, base, Payload(map[KindOf(data) := data], NoOptions))
  }

  lemma PushTwo(db: Db, scope: Scope, first: Operation, second: Operation)
    requires Step(db, scope, first).Stepped?
    ensures PushOps(db, scope, [first, second])
            == match Step(Step(db, scope, first).db, scope, second)
               case Failed => RolledBack(Step(db, scope, first).db.nextSeq)
               case Stepped(after, result) => Committed(after, [Step(db, scope, first).result, result])
  {
    hide Step;
    assert [first, second][..1] == [first];
    assert [first][..0] == [];
    assert PushOps(db, scope, []) == Committed(db, []);
    assert PushOps(db, scope, [first]) == Committed(Step(db, scope, first).db, [Step(db, scope, first).result]);
  }

  // --- A refused item may apply when its batch is pushed again ------------------------------------

  const LEND: Operation := Upserting(1, 20, 0, OfDebtOperation(DebtOperation(10, Receivable, Debt, 500, 0)))
  const ADD_DEBTOR: Operation := Upserting(2, 10, 0, OfDebtor(Debtor("Ann", "EUR")))

  lemma SoleWrite(db: Db, scope: Scope, w: Write)
    ensures PutAll(db, scope, [w]) == Put(db, scope, w)
  {
    assert [w][..0] == [];
  }

  /** A debt operation sent ahead of its debtor is refused, and applied when the
      same batch is pushed again. */
  lemma RepeatedBatchCanApply()
    ensures var first := PushOps(Empty(HOME), MEMBER, [LEND, ADD_DEBTOR]);
            && first.Committed? && |first.results| == 2 && first.results[0].Rejected? && first.results[1].Applied?
            && var second := PushOps(first.db, MEMBER, [LEND, ADD_DEBTOR]);
               second.Committed? && second.results == [Applied(1, 1), first.results[1]] && second.db != first.db
  {
    var db0 := Empty(HOME);
    assert Step(db0, MEMBER, LEND) == Stepped(db0, Rejected(1, ErrorSpecFor(ErrDebtOperationDebtorNotFound)));
    var row := Row(1, 1, 1, false, OfDebtor(Debtor("Ann", DEFAULT_CURRENCY)));
    var w := Write(Key(DebtorKind, 10), row);
    SoleWrite(db0, MEMBER, w);
    var db1 := Record(Put(db0, MEMBER, w), OpKey(1, 2), Applied(2, 1));
    assert Decide(db0, MEMBER, ADD_DEBTOR) == Commit(None, [w], 1);
    assert Step(db0, MEMBER, ADD_DEBTOR) == Stepped(db1, Applied(2, 1));
    PushTwo(db0, MEMBER, LEND, ADD_DEBTOR);
    var x := Write(Key(DebtOperationKind, 20), Row(1, 1, 1, false, OfDebtOperation(DebtOperation(10, Receivable, Debt, 500, 0))));
    SoleWrite(db1, MEMBER, x);
    var db2 := Record(Put(db1, MEMBER, x), OpKey(1, 1), Applied(1, 1));
    assert LiveDebtorExists(db1, 1, 10);
    assert Decide(db1, MEMBER, LEND) == Commit(None, [x], 1);
    assert Step(db1, MEMBER, LEND) == Stepped(db2, Applied(1, 1));
    assert Step(db2, MEMBER, ADD_DEBTOR) == Stepped(db2, Applied(2, 1));
    PushTwo(db1, MEMBER, LEND, ADD_DEBTOR);
    assert OpKey(1, 1) in db2.applied && OpKey(1, 1) !in db1.applied;
  }

  // --- A category in use may change its type ------------------------------------------------------------

  const ADD_FOOD: Operation := Upserting(1, 10, 0, OfCategory(Category("Food", Expense, "", "", None)))
  const SPEND: Operation :=
    Upserting(2, 20, 0, OfTransaction(Transaction(Expense, 100, "", 0, None, Some(10), None, None, None)))
  const RETYPE_FOOD: Operation := Upserting(3, 10, 1, OfCategory(Category("Food", Income, "", "", None)))

  function Written(db: Db, key: Key, version: nat, data: FullState, opId: Id): Db {
    Record(Put(db, MEMBER, Write(key, Row(1, 1, version, false, data))), OpKey(1, opId), Applied(opId, version))
  }

  const FOOD: FullState := OfCategory(Category("Food", Expense, "", "", None))
  const INCOME_FOOD: FullState := OfCategory(Category("Food", Income, "", "", None))
  const SPENT: FullState := OfTransaction(Transaction(Expense, 100, "", 0, None, Some(10), None, None, None))

  ghost const WITH_FOOD: Db := Written(Empty(HOME), Key(CategoryKind, 10), 1, FOOD, 1)
  ghost const WITH_EXPENSE: Db := Written(WITH_FOOD, Key(TransactionKind, 20), 1, SPENT, 2)
  ghost const RETYPED: Db := Written(WITH_EXPENSE, Key(CategoryKind, 10), 2, INCOME_FOOD, 3)

  lemma AddsFood()
    ensures Step(Empty(HOME), MEMBER, ADD_FOOD) == Stepped(WITH_FOOD, Applied(1, 1))
  {
    var w := Write(Key(CategoryKind, 10), Row(1, 1, 1, false, FOOD));
    SoleWrite(Empty(HOME), MEMBER, w);
    assert Decide(Empty(HOME), MEMBER, ADD_FOOD) == Commit(None, [w], 1);
  }

  lemma Spends()
    ensures Step(WITH_FOOD, MEMBER, SPEND) == Stepped(WITH_EXPENSE, Applied(2, 1))
  {
    var w := Write(Key(TransactionKind, 20), Row(1, 1, 1, false, SPENT));
    SoleWrite(WITH_FOOD, MEMBER, w);
    assert LiveCategory(WITH_FOOD, 1, 10) == Some(FOOD.category);
    assert Decide(WITH_FOOD, MEMBER, SPEND) == Commit(None, [w], 1);
  }

  lemma RetypesFood()
    ensures Step(WITH_EXPENSE, MEMBER, RETYPE_FOOD) == Stepped(RETYPED, Applied(3, 2))
  {
    var w := Write(Key(CategoryKind, 10), Row(1, 1, 2, false, INCOME_FOOD));
    SoleWrite(WITH_EXPENSE, MEMBER, w);
    assert !CategoryNameTaken(WITH_EXPENSE, 1, "Food", 10);
    assert Decide(WITH_EXPENSE, MEMBER, RETYPE_FOOD) == Commit(None, [w], 2);
  }

  /** From a new server, two pushes leave an expense in a category of type
      income, every item applied. */
  lemma RetypingCanBreakTypes()
    ensures var run := Run(Empty(HOME), [Batch(MEMBER, [ADD_FOOD, SPEND]), Batch(MEMBER, [RETYPE_FOOD])]);
            !TypesMatch(run, 1) && run.applied == map[OpKey(1, 1) := Applied(1, 1), OpKey(1, 2) := Applied(2, 1), OpKey(1, 3) := Applied(3, 2)]
  {
    AddsFood();
    Spends();
    RetypesFood();
    RunsThree(Empty(HOME), MEMBER, ADD_FOOD, SPEND, RETYPE_FOOD);
    RetypedMismatch();
  }

  lemma RetypedMismatch()
    ensures !TypesMatch(RETYPED, 1)
    ensures RETYPED.applied == map[OpKey(1, 1) := Applied(1, 1), OpKey(1, 2) := Applied(2, 1), OpKey(1, 3) := Applied(3, 2)]
  {
    assert IsLive(RETYPED, 1, Key(TransactionKind, 20));
    assert !UseFits(RETYPED, 1, UseOf(RETYPED.rows[Key(TransactionKind, 20)].state));
  }

  lemma RunsThree(db: Db, scope: Scope, a: Operation, b: Operation, c: Operation)
    requires Step(db, scope, a).Stepped?
    requires Step(Step(db, scope, a).db, scope, b).Stepped?
    requires Step(Step(Step(db, scope, a).db, scope, b).db, scope, c).Stepped?
    ensures Run(db, [Batch(scope, [a, b]), Batch(scope, [c])])
            == Step(Step(Step(db, scope, a).db, scope, b).db, scope, c).db
  {
    hide Step;
    PushTwo(db, scope, a, b);
    var mid := Step(Step(db, scope, a).db, scope, b).db;
    assert [c][..0] == [];
    assert PushOps(mid, scope, []) == Committed(mid, []);
    var batches := [Batch(scope, [a, b]), Batch(scope, [c])];
    assert batches[..1][..0] == [] && batches[..1][0] == batches[0];
    assert Run(db, []) == db;
    assert Run(db, batches[..1]) == mid;
  }

  // --- Creates that apply -------------------------------------------------------------------------------------

  ghost const START: Db := Empty(HOME)

  /** A valid create of a free id by the one member. */
  lemma Creates(db: Db, op: Operation, kind: Kind, data: FullState)
    requires db.world == HOME && op.entity == Some(kind) && op.action.Upsert? && op.baseVersion == 0
    requires Decode(kind, op.data) == Some(data)
    requires OpKey(1, op.opId) !in db.applied && Key(kind, op.id) !in db.rows
    requires ValidateUpsert(db, 1, op, kind).None? && StorageAccepts(db.world, data)
    ensures Step(db, MEMBER, op) == Stepped(Written(db, Key(kind, op.id), 1, Created(db, 1, data), op.opId), Applied(op.opId, 1))
  {
    assert !NameReadFails(data);
    hide ValidateUpsert;
    hide StorageAccepts;
    hide NameReadFails;
    hide Created;
    SoleWrite(db, MEMBER, Write(Key(kind, op.id), Row(1, 1, 1, false, Created(db, 1, data))));
  }

  /** An archived category is created active. */
  lemma ArchivedCategoryStartsActive()
    ensures var op := Upserting(1, 10, 0, OfCategory(Category("Food", Expense, "", "", Some(5))));
            && Step(START, MEMBER, op).Stepped? && Step(START, MEMBER, op).result == Applied(1, 1)
            && GetAny(Step(START, MEMBER, op).db, 1, Key(CategoryKind, 10)).Some?
            && GetAny(Step(START, MEMBER, op).db, 1, Key(CategoryKind, 10)).value.state
               == OfCategory(Category("Food", Expense, "", "", None))
  {
    var data := OfCategory(Category("Food", Expense, "", "", Some(5)));
    Creates(START, Upserting(1, 10, 0, data), CategoryKind, data);
    hide Step;
  }

  const CARD: FullState := OfAccount(Account("Card", "EUR", 0))
  const CASH: FullState := OfAccount(Account("Cash", "USD", 0))

  ghost const WITH_CARD: Db := Written(START, Key(AccountKind, 1), 1, CARD, 1)
  ghost const WITH_BOTH: Db := Written(WITH_CARD, Key(AccountKind, 2), 1, CASH, 2)
  ghost const WITH_CARD_AND_FOOD: Db := Written(WITH_CARD, Key(CategoryKind, 10), 1, FOOD, 2)

  lemma AddsCard()
    ensures Step(START, MEMBER, Upserting(1, 1, 0, CARD)) == Stepped(WITH_CARD, Applied(1, 1))
  {
    Creates(START, Upserting(1, 1, 0, CARD), AccountKind, CARD);
    hide Step;
  }

  lemma AddsCash()
    ensures Step(WITH_CARD, MEMBER, Upserting(2, 2, 0, CASH)) == Stepped(WITH_BOTH, Applied(2, 1))
  {
    Creates(WITH_CARD, Upserting(2, 2, 0, CASH), AccountKind, CASH);
    hide Step;
  }

  lemma AddsFoodNext()
    ensures Step(WITH_CARD, MEMBER, Upserting(2, 10, 0, FOOD)) == Stepped(WITH_CARD_AND_FOOD, Applied(2, 1))
  {
    Creates(WITH_CARD, Upserting(2, 10, 0, FOOD), CategoryKind, FOOD);
    hide Step;
  }

  const EXCHANGE: Transaction := Transaction(Transfer, 100, "", 0, None, None, Some(1), Some(2), Some(90))
  const SEND: Operation := Upserting(3, 20, 0, OfTransaction(EXCHANGE))

  ghost const WITH_TRANSFER: Db :=
    Written(WITH_BOTH, Key(TransactionKind, 20), 1, OfTransaction(WithoutCredit(EXCHANGE)), 3)

  lemma Sends()
    ensures Step(WITH_BOTH, MEMBER, SEND) == Stepped(WITH_TRANSFER, Applied(3, 1))
  {
    assert LiveAccount(WITH_BOTH, 1, 1) == Some(CARD.account) && LiveAccount(WITH_BOTH, 1, 2) == Some(CASH.account);
    TransactionRulesMeaning(WITH_BOTH, 1, EXCHANGE, None);
    Creates(WITH_BOTH, SEND, TransactionKind, OfTransaction(EXCHANGE));
    hide Step;
  }

  /** A transfer of 100 EUR that credits 90 USD is applied and credits 100. */
  lemma CrossCurrencyCreditIsLost()
    ensures var run := PushOps(START, MEMBER, [Upserting(1, 1, 0, CARD), Upserting(2, 2, 0, CASH), SEND]);
            run == Committed(WITH_TRANSFER, [Applied(1, 1), Applied(2, 1), Applied(3, 1)])
    ensures Contribution(OfTransaction(EXCHANGE), 2) == 90
    ensures Key(TransactionKind, 20) in WITH_TRANSFER.rows
            && Contribution(WITH_TRANSFER.rows[Key(TransactionKind, 20)].state, 2) == 100
  {
    hide Step;
    hide PushOps;
    AddsCard();
    AddsCash();
    Sends();
    PushThree(START, MEMBER, Upserting(1, 1, 0, CARD), Upserting(2, 2, 0, CASH), SEND);
    TransferCredits();
    hide Written;
    hide Contribution;
  }

  lemma TransferCredits()
    ensures Contribution(OfTransaction(EXCHANGE), 2) == 90
    ensures Key(TransactionKind, 20) in WITH_TRANSFER.rows
            && Contribution(WITH_TRANSFER.rows[Key(TransactionKind, 20)].state, 2) == 100
  {
  }

  lemma PushThree(db: Db, scope: Scope, a: Operation, b: Operation, c: Operation)
    requires Step(db, scope, a).Stepped?
    requires Step(Step(db, scope, a).db, scope, b).Stepped?
    requires Step(Step(Step(db, scope, a).db, scope, b).db, scope, c).Stepped?
    ensures var second := Step(Step(db, scope, a).db, scope, b);
            var third := Step(second.db, scope, c);
            PushOps(db, scope, [a, b, c]) == Committed(third.db, [Step(db, scope, a).result, second.result, third.result])
  {
    hide Step;
    PushTwo(db, scope, a, b);
    assert [a, b, c][..2] == [a, b];
  }

  // --- A plan's anchor ------------------------------------------------------------------------------------------

  function FoodPlan(nextDue: CivilDate, anchor: CivilDate): FullState {
    OfPlan(PlannedPayment(Expense, 100, "", 1, 10, nextDue, anchor, Weekly, Manual, Off, ""))
  }

  const MONDAY: CivilDate := Date(2024, 1, 1)
  const WEDNESDAY: CivilDate := Date(2024, 1, 3)

  ghost const WITH_PLAN: Db := Written(WITH_CARD_AND_FOOD, Key(PlannedPaymentKind, 30), 1, FoodPlan(MONDAY, MONDAY), 3)
  ghost const WITH_MOVED_PLAN: Db := Written(WITH_PLAN, Key(PlannedPaymentKind, 30), 2, FoodPlan(WEDNESDAY, MONDAY), 4)

  lemma PlanIsValid(db: Db, nextDue: CivilDate, anchor: CivilDate, opId: Id, base: int)
    requires LiveAccount(db, 1, 1) == Some(CARD.account) && LiveCategory(db, 1, 10) == Some(FOOD.category)
    requires nextDue != ZERO_DATE && anchor != ZERO_DATE
    ensures ValidateUpsert(db, 1, Upserting(opId, 30, base, FoodPlan(nextDue, anchor)), PlannedPaymentKind).None?
  {
  }

  /** A plan pushed with a Wednesday anchor and due on a Monday is anchored on the
      Monday. */
  lemma PlanAnchorIsReset()
    ensures PushOps(START, MEMBER, [Upserting(1, 1, 0, CARD), Upserting(2, 10, 0, FOOD), Upserting(3, 30, 0, FoodPlan(MONDAY, WEDNESDAY))])
            == Committed(WITH_PLAN, [Applied(1, 1), Applied(2, 1), Applied(3, 1)])
  {
    hide Step;
    hide PushOps;
    hide Written;
    AddsCard();
    AddsFoodNext();
    AddsPlan();
    PushThree(START, MEMBER, Upserting(1, 1, 0, CARD), Upserting(2, 10, 0, FOOD), Upserting(3, 30, 0, FoodPlan(MONDAY, WEDNESDAY)));
  }

  lemma AddsPlan()
    ensures Step(WITH_CARD_AND_FOOD, MEMBER, Upserting(3, 30, 0, FoodPlan(MONDAY, WEDNESDAY)))
            == Stepped(WITH_PLAN, Applied(3, 1))
  {
    assert LiveAccount(WITH_CARD_AND_FOOD, 1, 1) == Some(CARD.account);
    assert LiveCategory(WITH_CARD_AND_FOOD, 1, 10) == Some(FOOD.category);
    PlanIsValid(WITH_CARD_AND_FOOD, MONDAY, WEDNESDAY, 3, 0);
    hide ValidateUpsert;
    Creates(WITH_CARD_AND_FOOD, Upserting(3, 30, 0, FoodPlan(MONDAY, WEDNESDAY)), PlannedPaymentKind, FoodPlan(MONDAY, WEDNESDAY));
    hide Step;
  }

  /** A weekly plan moved to a Wednesday stays off its Monday anchor for ever. */
  lemma WeeklyPlanLeavesItsAnchor(n: nat)
    ensures Step(WITH_PLAN, MEMBER, Upserting(4, 30, 1, FoodPlan(WEDNESDAY, MONDAY))) == Stepped(WITH_MOVED_PLAN, Applied(4, 2))
    ensures (DayNumber(Occurrence(n, WEDNESDAY, MONDAY, Weekly)) - DayNumber(MONDAY)) % 7 == 2
  {
    hide Step;
    hide Occurrence;
    hide DayNumber;
    hide Written;
    MovesPlan();
    TwoDaysLater();
    DaySeriesClosedForm(n, WEDNESDAY, MONDAY);
    TwoPastWeeks(n);
  }

  lemma TwoPastWeeks(n: nat)
    ensures (2 + 7 * n) % 7 == 2
  {
  }

  lemma MovesPlan()
    ensures Step(WITH_PLAN, MEMBER, Upserting(4, 30, 1, FoodPlan(WEDNESDAY, MONDAY))) == Stepped(WITH_MOVED_PLAN, Applied(4, 2))
  {
    hide DayNumber;
    var op, data := Upserting(4, 30, 1, FoodPlan(WEDNESDAY, MONDAY)), FoodPlan(WEDNESDAY, MONDAY);
    assert LiveAccount(WITH_PLAN, 1, 1) == Some(CARD.account);
    assert LiveCategory(WITH_PLAN, 1, 10) == Some(FOOD.category);
    PlanIsValid(WITH_PLAN, WEDNESDAY, MONDAY, 4, 1);
    hide ValidateUpsert;
    var w := Write(Key(PlannedPaymentKind, 30), Row(1, 1, 2, false, data));
    SoleWrite(WITH_PLAN, MEMBER, w);
    assert Decide(WITH_PLAN, MEMBER, op) == Commit(None, [w], 2);
    hide Decide;
  }

  lemma TwoDaysLater()
    ensures DayNumber(WEDNESDAY) == DayNumber(MONDAY) + 2
  {
    DayNumberInMonth(WEDNESDAY);
  }

  // --- Batches that roll back ------------------------------------------------------------------------------------

  lemma PushOneFails(db: Db, scope: Scope, op: Operation)
    requires Step(db, scope, op).Failed?
    ensures PushOps(db, scope, [op]) == RolledBack(db.nextSeq)
  {
    hide Step;
    assert [op][..0] == [];
    assert PushOps(db, scope, []) == Committed(db, []);
  }

  /** An account without a currency, or a name with a NUL, takes its batch down. */
  lemma RefusedPayloadRollsBack()
    ensures PushOps(START, MEMBER, [Upserting(1, 1, 0, OfAccount(Account("Card", "", 0)))]).RolledBack?
    ensures PushOps(START, MEMBER, [Upserting(1, 10, 0, OfCategory(Category("a\0", Expense, "", "", None)))]).RolledBack?
  {
    var account, category := Upserting(1, 1, 0, OfAccount(Account("Card", "", 0))),
                             Upserting(1, 10, 0, OfCategory(Category("a\0", Expense, "", "", None)));
    assert !IsText("a\0") by {
      assert "a\0"[1] == '\0';
    }
    assert Decide(START, MEMBER, account) == Abort;
    assert Decide(START, MEMBER, category) == Abort;
    PushOneFails(START, MEMBER, account);
    PushOneFails(START, MEMBER, category);
  }

  const NEIGHBOUR: Scope := Scope(2, 2)

  ghost const BOTH_HOMES: World := HOME.(members := {1, 2})

  ghost const NEIGHBOURS_LEFT: Db :=
    RunEpochs(Empty(BOTH_HOMES),
              [Epoch(BOTH_HOMES, [Batch(NEIGHBOUR, [Upserting(1, 1, 0, CARD), Upserting(2, 20, 0, BOOKED)])]),
               Epoch(HOME, [])])

  const BOOKED: FullState := OfTransaction(Transaction(Adjustment, 100, "", 0, Some(1), None, None, None, None))

  function NeighbourRow(data: FullState): Row {
    Row(2, 2, 1, false, data)
  }

  lemma NeighbourCreates(db: Db, op: Operation, kind: Kind, data: FullState)
    requires db.world == BOTH_HOMES && op.entity == Some(kind) && op.action.Upsert? && op.baseVersion == 0
    requires Decode(kind, op.data) == Some(data)
    requires OpKey(2, op.opId) !in db.applied && Key(kind, op.id) !in db.rows
    requires ValidateUpsert(db, 2, op, kind).None? && StorageAccepts(db.world, data)
    ensures Step(db, NEIGHBOUR, op).Stepped?
    ensures Step(db, NEIGHBOUR, op).db.rows == db.rows[Key(kind, op.id) := NeighbourRow(Created(db, 2, data))]
    ensures Step(db, NEIGHBOUR, op).db.applied == db.applied[OpKey(2, op.opId) := Applied(op.opId, 1)]
    ensures Step(db, NEIGHBOUR, op).db.world == db.world
  {
    assert !NameReadFails(data);
    hide ValidateUpsert;
    hide StorageAccepts;
    hide NameReadFails;
    hide Created;
    SoleWrite(db, NEIGHBOUR, Write(Key(kind, op.id), NeighbourRow(Created(db, 2, data))));
  }

  lemma NeighboursRows()
    ensures NEIGHBOURS_LEFT.world == HOME && NEIGHBOURS_LEFT.applied.Keys == {OpKey(2, 1), OpKey(2, 2)}
    ensures NEIGHBOURS_LEFT.rows == map[Key(AccountKind, 1) := NeighbourRow(CARD), Key(TransactionKind, 20) := NeighbourRow(BOOKED)]
  {
    var db := Empty(BOTH_HOMES);
    var a, b := Upserting(1, 1, 0, CARD), Upserting(2, 20, 0, BOOKED);
    NeighbourCreates(db, a, AccountKind, CARD);
    var mid := Step(db, NEIGHBOUR, a).db;
    hide Step;
    assert LiveAccount(mid, 2, 1) == Some(CARD.account);
    TransactionRulesMeaning(mid, 2, BOOKED.transaction, None);
    NeighbourCreates(mid, b, TransactionKind, BOOKED);
    PushTwo(db, NEIGHBOUR, a, b);
    TwoEpochs(db, BOTH_HOMES, HOME, Batch(NEIGHBOUR, [a, b]));
    hide PushOps;
  }

  lemma TwoEpochs(db: Db, first: World, second: World, batch: Batch)
    requires db.world == first
    ensures RunEpochs(db, [Epoch(first, [batch]), Epoch(second, [])]) == Push(db, batch).(world := second)
  {
    hide Push;
    var epochs := [Epoch(first, [batch]), Epoch(second, [])];
    assert epochs[..1] == [Epoch(first, [batch])] && epochs[..1][..0] == [];
    assert [batch][..0] == [];
    assert Run(db, []) == db && Run(db, [batch]) == Push(db, batch);
    assert RunEpochs(db, []) == db;
    assert RunEpochs(db, epochs[..1]) == Push(db, batch);
  }

  /** An account whose household lost its members cannot be adopted while its
      transaction stands: the create takes its batch down. */
  lemma ReferencedOrphanRollsBack()
    ensures Dwindling(BOTH_HOMES, [Epoch(BOTH_HOMES, [Batch(NEIGHBOUR, [Upserting(1, 1, 0, CARD), Upserting(2, 20, 0, BOOKED)])]), Epoch(HOME, [])])
    ensures ReferencedOrphan(NEIGHBOURS_LEFT, Key(AccountKind, 1))
    ensures PushOps(NEIGHBOURS_LEFT, MEMBER, [Upserting(3, 1, 0, CARD)]).RolledBack?
  {
    NeighboursRows();
    var db, op := NEIGHBOURS_LEFT, Upserting(3, 1, 0, CARD);
    assert RefersTo(db.rows[Key(TransactionKind, 20)].state, Key(AccountKind, 1));
    assert ReferencedAnywhere(db, Key(AccountKind, 1));
    assert Decide(db, MEMBER, op) == Abort by {
      hide ReferencedAnywhere;
    }
    PushOneFails(db, MEMBER, op);
    hide PushOps;
  }

  // --- A version that only looks current --------------------------------------------------------------------------

  /** A PATCH at version 2^32 + 1 writes the expense standing at version 1. */
  lemma WrappedVersionWrites()
    ensures var p := Patch(TWO_32 + 1, None, Some("lunch"), None, None, None, None, None, None);
            && LiveTransaction(WITH_EXPENSE, 1, 20).Some? && LiveTransaction(WITH_EXPENSE, 1, 20).value.version == 1
            && PatchStep(WITH_EXPENSE, MEMBER, 20, p).outcome
               == Updated(SPENT.transaction.(description := "lunch"), 2)
  {
    var p := Patch(TWO_32 + 1, None, Some("lunch"), None, None, None, None, None, None);
    var merged := Merged(SPENT.transaction, p);
    assert LiveCategory(WITH_EXPENSE, 1, 10) == Some(FOOD.category);
    TransactionRulesMeaning(WITH_EXPENSE, 1, merged, Some(10));
    hide ValidateTransactionWrite;
    assert Int32(TWO_32 + 1) == 1;
  }

  // --- A debtor no client ever holds --------------------------------------------------------------------------------

  /** A new client of a household with one live debtor pulls, is told it has caught
      up, and holds nothing. */
  lemma DebtorNeverArrives()
    ensures var after := Step(START, MEMBER, ADD_DEBTOR).db;
            var session := Next(Session(after, NewClient(), []), 1, Pulled(None, QUIET));
            && IsLive(after, 1, Key(DebtorKind, 10))
            && NextCursor(Pull(after, 1, 0, PageSize(None)), PageSize(None)).None?
            && |session.received| == 1 && session.client.replica == map[]
  {
    var data := ADD_DEBTOR.data.decoded[DebtorKind];
    Creates(START, ADD_DEBTOR, DebtorKind, data);
    var after := Step(START, MEMBER, ADD_DEBTOR).db;
    hide Step;
    PulledDebtorIsDropped(after);
  }

  lemma PulledDebtorIsDropped(db: Db)
    requires db.log == [Change(1, 1, 1, Key(DebtorKind, 10), false, 1)]
    requires GetAny(db, 1, Key(DebtorKind, 10)).Some? && GetAny(db, 1, Key(DebtorKind, 10)).value.state.OfDebtor?
    ensures Pull(db, 1, 0, PageSize(None)) == db.log
    ensures PullOnce(db, QUIET, 1, NewClient(), PageSize(None)).replica == map[]
  {
    var c := db.log[0];
    assert PullChangeLog([c][1..], 1, 0, 99) == [];
    assert Run(db, []) == db;
    hide Run;
    DebtorsGiveNoRow(GetAny(db, 1, c.key).value.state);
    hide GivesRow;
    assert Absorb(map[], Deliver(db, QUIET, 1, c)) == map[];
    hide Absorb;
    assert [c] + [] == [c];
    DeliverAllSplit(db, QUIET, 1, c, [], map[]);
  }
}
