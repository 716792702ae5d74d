/** Money over push runs: account balances as the balance view derives them
    (backend/internal/repository/postgres/migrations/000011_multi_currency.up.sql)
    and debt ledgers (backend/internal/domain/debt_operation.go). */
module Ledger {
  import opened Domain
  import opened Database
  import opened WriteRules
  import opened Adapters
  import opened Chronicle
  import opened Engine
  import opened Integrity
  import opened Preservation
  import opened Protocol
  import opened Guarantees
  import opened Outcomes

  // --- Sums over the rows -------------------------------------------------------------------

  type Weight = Row -> int

  ghost function Total(rows: map<Key, Row>, weight: Weight): int
    decreases |rows|
  {
    if rows == map[] then 0
    else
      var k :| k in rows;
      weight(rows[k]) + Total(rows - {k}, weight)
  }

  function At(rows: map<Key, Row>, k: Key, weight: Weight): int {
    if k in rows then weight(rows[k]) else 0
  }

  lemma {:induction false} TotalWithout(rows: map<Key, Row>, k: Key, weight: Weight)
    ensures Total(rows, weight) == At(rows, k, weight) + Total(rows - {k}, weight)
    decreases |rows|
  {
    if k !in rows {
      assert rows - {k} == rows;
    } else {
      var x :| x in rows && Total(rows, weight) == weight(rows[x]) + Total(rows - {x}, weight);
      if x != k {
        TotalWithout(rows - {x}, k, weight);
        TotalWithout(rows - {k}, x, weight);
        assert rows - {x} - {k} == rows - {k} - {x};
      }
    }
  }

  lemma TotalPut(rows: map<Key, Row>, k: Key, row: Row, weight: Weight)
    ensures Total(rows[k := row], weight) == Total(rows, weight) - At(rows, k, weight) + weight(row)
  {
    TotalWithout(rows, k, weight);
    TotalWithout(rows[k := row], k, weight);
    assert rows[k := row] - {k} == rows - {k};
  }

  lemma {:induction false} TotalZero(rows: map<Key, Row>, weight: Weight)
    requires forall k :: k in rows ==> weight(rows[k]) == 0
    ensures Total(rows, weight) == 0
    decreases |rows|
  {
    if rows != map[] {
      var x :| x in rows && Total(rows, weight) == weight(rows[x]) + Total(rows - {x}, weight);
      TotalZero(rows - {x}, weight);
    }
  }

  lemma {:induction false} TotalAgrees(rows: map<Key, Row>, v: Weight, w: Weight)
    requires forall k :: k in rows ==> v(rows[k]) == w(rows[k])
    ensures Total(rows, v) == Total(rows, w)
    decreases |rows|
  {
    if rows != map[] {
      var x :| x in rows;
      TotalWithout(rows, x, v);
      TotalWithout(rows, x, w);
      TotalAgrees(rows - {x}, v, w);
    }
  }

  // --- Keeping a sum up to date ---------------------------------------------------------------

  /** Remove what each written row was worth before, add what it is worth now. */
  function Moved(db: Db, ws: seq<Write>, weight: Weight): int
    decreases |ws|
  {
    if ws == [] then 0
    else
      var w := ws[|ws| - 1];
      Moved(db, ws[..|ws| - 1], weight) + weight(w.row) - At(db.rows, w.key, weight)
  }

  lemma {:induction false} TotalPutAll(db: Db, scope: Scope, ws: seq<Write>, weight: Weight)
    requires DistinctKeys(ws)
    ensures Total(PutAll(db, scope, ws).rows, weight) == Total(db.rows, weight) + Moved(db, ws, weight)
    decreases |ws|
  {
    if ws != [] {
      var n := |ws| - 1;
      var front := ws[..n];
      assert forall i :: 0 <= i < n ==> front[i] == ws[i];
      TotalPutAll(db, scope, front, weight);
      PutAllFrame(db, scope, front, ws[n].key);
      TotalPut(PutAll(db, scope, front).rows, ws[n].key, ws[n].row, weight);
    }
  }

  /** What one operation moves: nothing on a replay or a refusal. */
  function StepMoved(db: Db, scope: Scope, op: Operation, weight: Weight): int {
    if IsReplay(db, scope, op) then 0
    else
      match Decide(db, scope, op)
      case Commit(evicted, writes, _) =>
        (if evicted.Some? then -At(db.rows, evicted.value, weight) else 0)
        + Moved(Evicted(db, evicted), writes, weight)
      case _ => 0
  }

  lemma StepTotal(db: Db, scope: Scope, op: Operation, weight: Weight)
    requires RowsOk(db) && scope.household in db.world.members
    requires Step(db, scope, op).Stepped?
    ensures Total(Step(db, scope, op).db.rows, weight) == Total(db.rows, weight) + StepMoved(db, scope, op, weight)
  {
    hide Decide;
    hide SoundBurial;
    hide SoundUpsert;
    if !IsReplay(db, scope, op) && Decide(db, scope, op).Commit? {
      DecideSound(db, scope, op);
      var d := Decide(db, scope, op);
      if d.evicted.Some? {
        TotalWithout(db.rows, d.evicted.value, weight);
      }
      TotalPutAll(Evicted(db, d.evicted), scope, d.writes, weight);
    }
  }

  /** A sum kept from operation to operation through a batch. */
  function KeptSum(db: Db, scope: Scope, ops: seq<Operation>, weight: Weight, start: int): int
    decreases |ops|
  {
    if ops == [] then start
    else
      var front := ops[..|ops| - 1];
      match PushOps(db, scope, front)
      case RolledBack(_) => start
      case Committed(mid, _) =>
        KeptSum(db, scope, front, weight, start) + StepMoved(mid, scope, ops[|ops| - 1], weight)
  }

  /** Kept incrementally or recomputed from all rows: the same sum after every
      batch, replays, refusals, cascades and adoptions included. */
  lemma {:induction false} KeptIsRecomputed(db: Db, scope: Scope, ops: seq<Operation>, weight: Weight)
    requires Invariant(db) && scope.household in db.world.members
    requires PushOps(db, scope, ops).Committed?
    ensures Total(PushOps(db, scope, ops).db.rows, weight) == KeptSum(db, scope, ops, weight, Total(db.rows, weight))
    decreases |ops|
  {
    hide Step;
    hide Invariant;
    hide Extends;
    if ops != [] {
      var front := ops[..|ops| - 1];
      PushOpsKeeps(db, scope, front);
      KeptIsRecomputed(db, scope, front, weight);
      var mid := PushOps(db, scope, front).db;
      InvariantRows(mid);
      assert mid.world == db.world by { WorldKept(db, mid); }
      StepTotal(mid, scope, ops[|ops| - 1], weight);
    }
  }

  // --- Account balances -------------------------------------------------------------------------

  /** The credited amount of a transfer: the stated one, else the debit. */
  function Credit(t: Transaction): int {
    if t.destinationAmount.Some? then t.destinationAmount.value else t.amount
  }

  /** What a live transaction is worth to an account. */
  function Contribution(state: FullState, account: Id): int {
    match state
    case OfTransaction(t) =>
      (match t.typ
       case Income => if t.accountId == Some(account) then t.amount else 0
       case Expense => if t.accountId == Some(account) then -t.amount else 0
       case Transfer =>
         (if t.fromAccountId == Some(account) then -t.amount else 0)
         + (if t.toAccountId == Some(account) then Credit(t) else 0)
       case Adjustment => if t.accountId == Some(account) then t.amount else 0
       case OtherType(_) => 0)
    case _ => 0
  }

  function ToAccount(account: Id): Weight {
    (row: Row) => if row.deleted then 0 else Contribution(row.state, account)
  }

  ghost function Flow(db: Db, account: Id): int {
    Total(db.rows, ToAccount(account))
  }

  /** The balance view: the opening balance and every live contribution. */
  ghost function Balance(db: Db, account: Id): int {
    var key := Key(AccountKind, account);
    (if key in db.rows && db.rows[key].state.OfAccount? then db.rows[key].state.account.openingBalance else 0)
    + Flow(db, account)
  }

  /** A tombstoned account is worth its opening balance: its adjustments went
      with it and nothing else referred to it. */
  lemma TombstonedBalanceIsOpening(db: Db, account: Id)
    requires Invariant(db)
    requires var key := Key(AccountKind, account);
             key in db.rows && db.rows[key].owner in db.world.members && db.rows[key].deleted
    ensures Balance(db, account) == db.rows[Key(AccountKind, account)].state.account.openingBalance
  {
    var key := Key(AccountKind, account);
    assert KindOf(db.rows[key].state) == AccountKind;
    forall k | k in db.rows ensures ToAccount(account)(db.rows[k]) == 0 {
      if !db.rows[k].deleted {
        DeadIsUnreferenced(db, key, k);
      }
    }
    TotalZero(db.rows, ToAccount(account));
  }

  /** No live row refers to a tombstone. */
  lemma DeadIsUnreferenced(db: Db, dead: Key, k: Key)
    requires Invariant(db)
    requires dead in db.rows && db.rows[dead].owner in db.world.members && db.rows[dead].deleted
    requires k in db.rows && !db.rows[k].deleted
    ensures !RefersTo(db.rows[k].state, dead)
  {
    assert !IsLive(db, db.rows[k].owner, dead);
  }

  // --- Conservation ---------------------------------------------------------------------------

  function AccountsOf(db: Db, household: Id): set<Id> {
    set k | k in db.rows && k.kind.AccountKind? && db.rows[k].owner == household :: k.id
  }

  /** What a set of accounts gains from one state. */
  ghost function Spread(state: FullState, accounts: set<Id>): int {
    if accounts == {} then 0
    else
      var a :| a in accounts;
      Contribution(state, a) + Spread(state, accounts - {a})
  }

  function In(id: Option<Id>, accounts: set<Id>): bool {
    id.Some? && id.value in accounts
  }

  lemma {:induction false} SpreadIs(t: Transaction, accounts: set<Id>)
    ensures Spread(OfTransaction(t), accounts)
            == match t.typ
               case Income => if In(t.accountId, accounts) then t.amount else 0
               case Expense => if In(t.accountId, accounts) then -t.amount else 0
               case Transfer =>
                 (if In(t.fromAccountId, accounts) then -t.amount else 0)
                 + (if In(t.toAccountId, accounts) then Credit(t) else 0)
               case Adjustment => if In(t.accountId, accounts) then t.amount else 0
               case OtherType(_) => 0
    decreases accounts
  {
    if accounts != {} {
      var a :| a in accounts
        && Spread(OfTransaction(t), accounts) == Contribution(OfTransaction(t), a) + Spread(OfTransaction(t), accounts - {a});
      SpreadIs(t, accounts - {a});
      assert Contribution(OfTransaction(t), a) + Spread(OfTransaction(t), accounts - {a}) == Spread(OfTransaction(t), accounts);
    }
  }

  lemma {:induction false} SpreadNothing(state: FullState, accounts: set<Id>)
    requires !state.OfTransaction?
    ensures Spread(state, accounts) == 0
    decreases accounts
  {
    if accounts != {} {
      var a :| a in accounts && Spread(state, accounts) == Contribution(state, a) + Spread(state, accounts - {a});
      SpreadNothing(state, accounts - {a});
      assert Contribution(state, a) == 0;
    }
  }

  ghost function TotalFlow(db: Db, accounts: set<Id>): int {
    if accounts == {} then 0
    else
      var a :| a in accounts;
      Flow(db, a) + TotalFlow(db, accounts - {a})
  }

  ghost function ToAccounts(accounts: set<Id>): Weight {
    (row: Row) => if row.deleted then 0 else Spread(row.state, accounts)
  }

  lemma {:induction false} TotalAdds(rows: map<Key, Row>, u: Weight, v: Weight, w: Weight)
    requires forall k :: k in rows ==> w(rows[k]) == u(rows[k]) + v(rows[k])
    ensures Total(rows, w) == Total(rows, u) + Total(rows, v)
    decreases |rows|
  {
    if rows != map[] {
      var x :| x in rows;
      TotalWithout(rows, x, u);
      TotalWithout(rows, x, v);
      TotalWithout(rows, x, w);
      TotalAdds(rows - {x}, u, v, w);
    }
  }

  /** Adding up account by account or row by row. */
  lemma {:induction false} FlowsExchange(db: Db, accounts: set<Id>)
    ensures TotalFlow(db, accounts) == Total(db.rows, ToAccounts(accounts))
    decreases accounts
  {
    if accounts == {} {
      TotalZero(db.rows, ToAccounts(accounts));
    } else {
      var a :| a in accounts && TotalFlow(db, accounts) == Flow(db, a) + TotalFlow(db, accounts - {a});
      FlowsExchange(db, accounts - {a});
      forall k | k in db.rows
        ensures ToAccounts(accounts)(db.rows[k]) == ToAccount(a)(db.rows[k]) + ToAccounts(accounts - {a})(db.rows[k])
      {
        SpreadWithout(db.rows[k].state, accounts, a);
      }
      TotalAdds(db.rows, ToAccount(a), ToAccounts(accounts - {a}), ToAccounts(accounts));
      assert Flow(db, a) == Total(db.rows, ToAccount(a));
    }
  }

  lemma SpreadWithout(state: FullState, accounts: set<Id>, a: Id)
    requires a in accounts
    ensures Spread(state, accounts) == Contribution(state, a) + Spread(state, accounts - {a})
  {
    if state.OfTransaction? {
      SpreadIs(state.transaction, accounts);
      SpreadIs(state.transaction, accounts - {a});
    } else {
      SpreadNothing(state, accounts);
      SpreadNothing(state, accounts - {a});
    }
  }

  /** Money entering a household from outside: cashflow and adjustments booked
      on an account. Transfers and account-less cashflow are absent. */
  function External(state: FullState): int {
    match state
    case OfTransaction(t) =>
      if t.accountId.None? then 0
      else (match t.typ
            case Income => t.amount
            case Expense => -t.amount
            case Adjustment => t.amount
            case _ => 0)
    case _ => 0
  }

  function FromOutside(household: Id): Weight {
    (row: Row) => if row.deleted || row.owner != household then 0 else External(row.state)
  }

  /** Conservation: in every reachable state a household's accounts together
      hold exactly what came from outside; transfers never create or destroy. */
  lemma FlowsAreExternal(db: Db, household: Id)
    requires Invariant(db)
    ensures TotalFlow(db, AccountsOf(db, household)) == Total(db.rows, FromOutside(household))
  {
    var accounts := AccountsOf(db, household);
    FlowsExchange(db, accounts);
    forall k | k in db.rows
      ensures ToAccounts(accounts)(db.rows[k]) == FromOutside(household)(db.rows[k])
    {
      RowSpread(db, household, k);
    }
    TotalAgrees(db.rows, ToAccounts(accounts), FromOutside(household));
  }

  lemma AccountAtHome(db: Db, household: Id, k: Key, id: Option<Id>)
    requires HomeOk(db) && k in db.rows && id.Some?
    requires RefersTo(db.rows[k].state, Key(AccountKind, id.value))
    ensures In(id, AccountsOf(db, household)) <==> db.rows[k].owner == household
  {
    assert Key(AccountKind, id.value) in db.rows;
  }

  lemma RowSpread(db: Db, household: Id, k: Key)
    requires Invariant(db) && k in db.rows
    ensures var accounts := AccountsOf(db, household);
            ToAccounts(accounts)(db.rows[k]) == FromOutside(household)(db.rows[k])
  {
    var accounts, state := AccountsOf(db, household), db.rows[k].state;
    if state.OfTransaction? {
      var t := state.transaction;
      assert StoredShape(state);
      SpreadIs(t, accounts);
      if t.accountId.Some? { AccountAtHome(db, household, k, t.accountId); }
      if t.fromAccountId.Some? { AccountAtHome(db, household, k, t.fromAccountId); }
      if t.toAccountId.Some? { AccountAtHome(db, household, k, t.toAccountId); }
    } else {
      SpreadNothing(state, accounts);
    }
  }

  /** Kinds whose operations never cascade. */
  predicate Single(kind: Kind) {
    kind.TransactionKind? || kind.DebtOperationKind? || kind.PlannedPaymentKind?
  }

  lemma TouchesOneRow(db: Db, scope: Scope, op: Operation)
    requires Step(db, scope, op).Stepped? && op.entity.Some? && Single(op.entity.value)
    ensures var key := Key(op.entity.value, op.id);
            Step(db, scope, op).db.rows - {key} == db.rows - {key}
  {
    var d := Decide(db, scope, op);
    if !IsReplay(db, scope, op) && d.Commit? {
      SingleWritesOwn(db, scope, op);
      hide Decide;
      if d.writes != [] {
        SinglePut(Evicted(db, d.evicted), scope, d.writes);
      }
    }
  }

  lemma SingleWritesOwn(db: Db, scope: Scope, op: Operation)
    requires op.entity.Some? && Single(op.entity.value) && Decide(db, scope, op).Commit?
    ensures var d, key := Decide(db, scope, op), Key(op.entity.value, op.id);
            && (d.evicted.Some? ==> d.evicted.value == key)
            && (d.writes == [] || (|d.writes| == 1 && d.writes[0].key == key))
  {
    hide ValidateUpsert;
    hide Immutable;
    hide Created;
    hide Replaced;
    hide ReferencedAnywhere;
    hide StorageAccepts;
    hide NameReadFails;
  }

  /** An operation on a transaction, debt operation or plan moves every sum by
      what its row is worth after minus what it was worth before. */
  lemma OneRowMoves(db: Db, scope: Scope, op: Operation, weight: Weight)
    requires Step(db, scope, op).Stepped? && op.entity.Some? && Single(op.entity.value)
    ensures var key, after := Key(op.entity.value, op.id), Step(db, scope, op).db;
            Total(after.rows, weight) - Total(db.rows, weight) == At(after.rows, key, weight) - At(db.rows, key, weight)
  {
    TouchesOneRow(db, scope, op);
    hide Step;
    var key, after := Key(op.entity.value, op.id), Step(db, scope, op).db;
    TotalWithout(db.rows, key, weight);
    TotalWithout(after.rows, key, weight);
  }

  /** What a transaction operation can leave under its id: no change, a
      tombstone, or the payload without its credit. */
  lemma TransactionRowAfter(db: Db, scope: Scope, op: Operation)
    requires RowsOk(db) && scope.household in db.world.members
    requires Step(db, scope, op).Stepped? && op.entity == Some(TransactionKind)
    ensures var key, h, after := Key(TransactionKind, op.id), scope.household, Step(db, scope, op).db;
            var data := Decode(TransactionKind, op.data);
            || after.rows == db.rows
            || (key in after.rows && after.rows[key].deleted && GetAny(db, h, key).Some?)
            || (&& key in after.rows && op.action.Upsert? && data.Some? && after.rows[key].owner == h
                && after.rows[key].state == OfTransaction(WithoutCredit(data.value.transaction)))
  {
    if FreshlyApplied(db, scope, op) {
      if op.action.Upsert? {
        AppliedUpsertLeaves(db, scope, op);
        hide Step;
        hide ValidateUpsert;
        assert GetAny(db, scope.household, Key(TransactionKind, op.id)).Some? ==>
          KindOf(db.rows[Key(TransactionKind, op.id)].state) == TransactionKind;
      } else if GetAny(db, scope.household, Key(TransactionKind, op.id)).Some? {
        DeleteBuries(db, scope, op);
        hide Step;
      }
    } else if !IsReplay(db, scope, op) {
      RefusedIsInert(db, scope, op);
    }
  }

  /** A transaction nothing enters the household by. */
  predicate Internal(state: FullState) {
    state.OfTransaction? && (state.transaction.typ.Transfer? || state.transaction.accountId.None?)
  }

  /** Where the written row was, and the payload is, a transfer or account-less,
      writing, changing or deleting it never changes the total over the
      household's accounts. */
  lemma InternalWritesConserve(db: Db, scope: Scope, op: Operation)
    requires Invariant(db) && scope.household in db.world.members
    requires Step(db, scope, op).Stepped? && op.entity == Some(TransactionKind)
    requires var row := GetAny(db, scope.household, Key(TransactionKind, op.id));
             row.Some? ==> Internal(row.value.state)
    requires var data := Decode(TransactionKind, op.data);
             op.action.Upsert? && data.Some? ==> Internal(data.value)
    ensures var after, h := Step(db, scope, op).db, scope.household;
            TotalFlow(after, AccountsOf(after, h)) == TotalFlow(db, AccountsOf(db, h))
  {
    var h, after := scope.household, Step(db, scope, op).db;
    StepKeeps(db, scope, op);
    InvariantRows(db);
    hide Invariant;
    hide Extends;
    FlowsAreExternal(db, h);
    FlowsAreExternal(after, h);
    OneRowMoves(db, scope, op, FromOutside(h));
    NothingEnters(db, scope, op);
  }

  lemma NothingEnters(db: Db, scope: Scope, op: Operation)
    requires RowsOk(db) && scope.household in db.world.members
    requires Step(db, scope, op).Stepped? && op.entity == Some(TransactionKind)
    requires var row := GetAny(db, scope.household, Key(TransactionKind, op.id));
             row.Some? ==> Internal(row.value.state)
    requires var data := Decode(TransactionKind, op.data);
             op.action.Upsert? && data.Some? ==> Internal(data.value)
    ensures var key, weight := Key(TransactionKind, op.id), FromOutside(scope.household);
            At(Step(db, scope, op).db.rows, key, weight) == At(db.rows, key, weight)
  {
    TransactionRowAfter(db, scope, op);
    hide Step;
    hide RowsOk;
  }

  predicate AccountLess(state: FullState) {
    state.OfTransaction? && IsCashflow(state.transaction.typ) && state.transaction.accountId.None?
  }

  /** Account-less cashflow changes no account's balance. */
  lemma AccountLessMovesNothing(db: Db, scope: Scope, op: Operation, account: Id)
    requires RowsOk(db) && scope.household in db.world.members
    requires FreshlyApplied(db, scope, op) && op.entity == Some(TransactionKind)
    requires Key(TransactionKind, op.id) in db.rows ==> AccountLess(db.rows[Key(TransactionKind, op.id)].state)
    requires var data := Decode(TransactionKind, op.data);
             op.action.Upsert? && data.Some? ==> AccountLess(data.value)
    ensures Flow(Step(db, scope, op).db, account) == Flow(db, account)
  {
    OneRowMoves(db, scope, op, ToAccount(account));
    TransactionRowAfter(db, scope, op);
    hide Step;
    hide Total;
    hide RowsOk;
  }

  lemma CreditDropped(t: Transaction)
    requires WellShaped(t)
    ensures (forall a :: Contribution(OfTransaction(WithoutCredit(t)), a) == Contribution(OfTransaction(t), a))
            <==> !t.typ.Transfer? || t.destinationAmount.None? || t.destinationAmount.value == t.amount
  {
    if t.typ.Transfer? && t.destinationAmount.Some? {
      var to := t.toAccountId.value;
      assert Contribution(OfTransaction(WithoutCredit(t)), to) == t.amount;
      assert Contribution(OfTransaction(t), to) == t.destinationAmount.value;
    }
  }

  /** No transaction write stores a destination amount, so a stored transfer
      always credits the debited amount. An applied push, create or update, books
      every account as its payload stated exactly when that stated no credit or
      the debit itself. */
  lemma CreditKeptExactlyWhen(db: Db, scope: Scope, op: Operation)
    requires RowsOk(db) && scope.household in db.world.members
    requires FreshlyApplied(db, scope, op) && op.entity == Some(TransactionKind) && op.action.Upsert?
    ensures var key, h, after := Key(TransactionKind, op.id), scope.household, Step(db, scope, op).db;
            var data := Decode(TransactionKind, op.data);
            && data.Some? && IsLive(after, h, key)
            && var t := data.value.transaction;
               (forall a :: Contribution(after.rows[key].state, a) == Contribution(data.value, a))
               <==> !t.typ.Transfer? || t.destinationAmount.None? || t.destinationAmount.value == t.amount
  {
    var h, key := scope.household, Key(TransactionKind, op.id);
    AppliedUpsertLeaves(db, scope, op);
    hide Step;
    var t := Decode(TransactionKind, op.data).value.transaction;
    assert GetAny(db, h, key).Some? ==> KindOf(db.rows[key].state) == TransactionKind;
    TransactionRulesMeaning(db, h, t, PreviousCategory(GetAny(db, h, key)));
    hide ValidateTransactionWrite;
    CreditDropped(t);
    hide Contribution;
  }

  // --- Balances, operation by operation ------------------------------------------------------

  /** What a booked transaction adds to an account: an income or adjustment its
      amount, an expense its negation, a transfer out of the one end into the
      other. */
  function Booked(t: Transaction, account: Id): int {
    var into := if t.typ.Transfer? then t.toAccountId else if t.typ.Expense? then None else t.accountId;
    var out := if t.typ.Transfer? then t.fromAccountId else if t.typ.Expense? then t.accountId else None;
    (if into == Some(account) then t.amount else 0) - (if out == Some(account) then t.amount else 0)
  }

  /** An applied transaction push moves every account's balance by what it books
      minus what the live row under its id had booked. */
  lemma TransactionPushMovesBalance(db: Db, scope: Scope, op: Operation, account: Id)
    requires RowsOk(db) && scope.household in db.world.members
    requires FreshlyApplied(db, scope, op) && op.entity == Some(TransactionKind) && op.action.Upsert?
    ensures var key, data := Key(TransactionKind, op.id), Decode(TransactionKind, op.data);
            var replaced := key in db.rows && !db.rows[key].deleted;
            && data.Some? && (replaced ==> db.rows[key].state.OfTransaction?)
            && Balance(Step(db, scope, op).db, account) - Balance(db, account)
               == Booked(data.value.transaction, account)
                  - (if replaced then Booked(db.rows[key].state.transaction, account) else 0)
  {
    hide Step;
    hide FaultOf;
    hide StorageAccepts;
    hide ReferencedAnywhere;
    hide Total;
    var key := Key(TransactionKind, op.id);
    AppliedUpsertEffect(db, scope, op, TransactionKind);
    OneRowMoves(db, scope, op, ToAccount(account));
    PushedTypeIsKnown(db, scope, op);
    var after := Step(db, scope, op).db;
    SameRow(db.rows, after.rows, key, Key(AccountKind, account));
    if key in db.rows {
      assert KindOf(db.rows[key].state) == TransactionKind && StoredShape(db.rows[key].state);
      BookedIsContribution(db.rows[key].state.transaction, account);
    }
    BookedIsContribution(after.rows[key].state.transaction, account);
    hide RowsOk;
    hide Contribution;
  }

  lemma PushedTypeIsKnown(db: Db, scope: Scope, op: Operation)
    requires RowsOk(db) && FreshlyApplied(db, scope, op) && op.entity == Some(TransactionKind) && op.action.Upsert?
    ensures var data := Decode(TransactionKind, op.data);
            data.Some? && !data.value.transaction.typ.OtherType?
  {
    UpsertAppliesExactlyWhen(db, scope, op, TransactionKind);
    hide Step;
    hide StorageAccepts;
  }

  lemma SameRow(before: map<Key, Row>, after: map<Key, Row>, written: Key, k: Key)
    requires after - {written} == before - {written} && k != written
    ensures k in after <==> k in before
    ensures k in before ==> after[k] == before[k]
  {
    assert k in after - {written} <==> k in before - {written};
    assert k in before ==> (before - {written})[k] == before[k] && (after - {written})[k] == after[k];
  }

  lemma BookedIsContribution(t: Transaction, account: Id)
    requires t.destinationAmount.None? && !t.typ.OtherType?
    ensures Contribution(OfTransaction(t), account) == Booked(t, account)
  {
  }

  lemma {:induction false} TotalSame(before: map<Key, Row>, after: map<Key, Row>, weight: Weight)
    requires before.Keys == after.Keys
    requires forall k :: k in before ==> weight(after[k]) == weight(before[k])
    ensures Total(after, weight) == Total(before, weight)
    decreases |before|
  {
    if before == map[] {
      assert after.Keys == {};
      assert after == map[];
    } else {
      var x :| x in before;
      TotalWithout(before, x, weight);
      TotalWithout(after, x, weight);
      TotalSame(before - {x}, after - {x}, weight);
    }
  }

  /** Deleting an account leaves every other account's balance as it was. */
  lemma AccountDeleteSparesOthers(db: Db, scope: Scope, op: Operation, account: Id)
    requires Invariant(db) && scope.household in db.world.members && account != op.id
    requires FreshlyApplied(db, scope, op) && op.entity == Some(AccountKind) && op.action.Delete?
    ensures Balance(Step(db, scope, op).db, account) == Balance(db, account)
  {
    var key, h, after := Key(AccountKind, op.id), scope.household, Step(db, scope, op).db;
    InvariantRows(db);
    DeleteAppliesExactlyWhen(db, scope, op, AccountKind);
    hide Invariant;
    if IsLive(db, h, key) {
      DeleteTouchesExactly(db, scope, op, AccountKind);
      hide Step;
      forall k | k in db.rows ensures ToAccount(account)(after.rows[k]) == ToAccount(account)(db.rows[k]) {
        if DependsOn(db, h, k, key) {
          assert IsAdjustment(db.rows[k].state);
          AdjustmentIsElsewhere(db, op.id, account, k);
        } else if k == key {
          assert KindOf(db.rows[k].state) == AccountKind;
        }
      }
      TotalSame(db.rows, after.rows, ToAccount(account));
      OtherAccountStands(db, after, h, key, account);
      hide Total;
      hide RowsOk;
      hide DependsOn;
    } else {
      NothingDeleted(db, scope, op, AccountKind);
    }
  }

  /** An adjustment of one account books nothing on another. */
  lemma AdjustmentIsElsewhere(db: Db, deleted: Id, account: Id, k: Key)
    requires RowsOk(db) && k in db.rows && IsAdjustment(db.rows[k].state) && account != deleted
    requires RefersTo(db.rows[k].state, Key(AccountKind, deleted))
    ensures Contribution(db.rows[k].state, account) == 0
  {
    assert StoredShape(db.rows[k].state);
  }

  lemma OtherAccountStands(db: Db, after: Db, household: Id, key: Key, account: Id)
    requires RowsOk(db) && key.kind.AccountKind? && key.id != account && after.rows.Keys == db.rows.Keys
    requires forall k :: k in db.rows && k != key && !DependsOn(db, household, k, key) ==> after.rows[k] == db.rows[k]
    ensures var other := Key(AccountKind, account);
            other in db.rows ==> after.rows[other] == db.rows[other]
  {
    var other := Key(AccountKind, account);
    assert other in db.rows ==> KindOf(db.rows[other].state) == AccountKind;
  }

  lemma NothingDeleted(db: Db, scope: Scope, op: Operation, kind: Kind)
    requires FreshlyApplied(db, scope, op) && op.entity == Some(kind) && op.action.Delete?
    requires !IsLive(db, scope.household, Key(kind, op.id))
    ensures Step(db, scope, op).db.rows == db.rows
  {
    assert PutAll(db, scope, []) == db;
  }

  // --- Debt ledgers -------------------------------------------------------------------------------

  function Owed(state: FullState, debtor: Id, direction: Direction): int {
    match state
    case OfDebtOperation(o) =>
      if o.debtorId != debtor || o.direction != direction then 0
      else (match o.kind case Debt => o.amount case Repayment => -o.amount case OtherDebtKind(_) => 0)
    case _ => 0
  }

  function ToLedger(debtor: Id, direction: Direction): Weight {
    (row: Row) => if row.deleted then 0 else Owed(row.state, debtor, direction)
  }

  /** Debt minus repayment over the live operations of one debtor and direction. */
  ghost function DebtBalance(db: Db, debtor: Id, direction: Direction): int {
    Total(db.rows, ToLedger(debtor, direction))
  }

  /** Updating an operation moves only its own ledger, by the change of amount. */
  lemma UpdateMovesOwnLedger(db: Db, scope: Scope, op: Operation, debtor: Id, direction: Direction)
    requires Invariant(db) && scope.household in db.world.members
    requires FreshlyApplied(db, scope, op)
    requires op.entity == Some(DebtOperationKind) && op.action.Upsert? && op.baseVersion != 0
    ensures var key := Key(DebtOperationKind, op.id);
            var row, data := GetAny(db, scope.household, key), Decode(DebtOperationKind, op.data);
            row.Some? && row.value.state.OfDebtOperation? && data.Some?
            && var before, next := row.value.state.operation, data.value.operation;
               DebtBalance(Step(db, scope, op).db, debtor, direction) - DebtBalance(db, debtor, direction)
               == if before.debtorId == debtor && before.direction == direction
                  then (if before.kind.Debt? then next.amount - before.amount else before.amount - next.amount)
                  else 0
  {
    InvariantRows(db);
    OneRowMoves(db, scope, op, ToLedger(debtor, direction));
    AppliedUpsertLeaves(db, scope, op);
    UpsertMovesOneVersion(db, scope, op);
    assert StoredShape(db.rows[Key(DebtOperationKind, op.id)].state);
    hide Invariant;
    hide RowsOk;
    hide Step;
    hide ValidateUpsert;
    hide Total;
  }

  /** Deleting a debtor settles both of its ledgers at zero. */
  lemma DebtorDeleteSettles(db: Db, scope: Scope, op: Operation, direction: Direction)
    requires Invariant(db) && scope.household in db.world.members
    requires FreshlyApplied(db, scope, op) && op.entity == Some(DebtorKind) && op.action.Delete?
    requires GetAny(db, scope.household, Key(DebtorKind, op.id)).Some?
    ensures DebtBalance(Step(db, scope, op).db, op.id, direction) == 0
  {
    var after, key := Step(db, scope, op).db, Key(DebtorKind, op.id);
    StepKeeps(db, scope, op);
    DeleteBuries(db, scope, op);
    hide Step;
    forall k | k in after.rows ensures ToLedger(op.id, direction)(after.rows[k]) == 0 {
      if !after.rows[k].deleted {
        DeadIsUnreferenced(after, key, k);
      }
    }
    TotalZero(after.rows, ToLedger(op.id, direction));
  }

  lemma {:induction false} MovedNothing(db: Db, ws: seq<Write>, weight: Weight)
    requires forall i :: 0 <= i < |ws| ==> weight(ws[i].row) == At(db.rows, ws[i].key, weight)
    ensures Moved(db, ws, weight) == 0
    decreases |ws|
  {
    if ws != [] {
      var front := ws[..|ws| - 1];
      assert forall i :: 0 <= i < |front| ==> front[i] == ws[i];
      MovedNothing(db, front, weight);
    }
  }

  /** And leaves every other debtor's ledgers as they were. */
  lemma DebtorDeleteSparesOthers(db: Db, scope: Scope, op: Operation, debtor: Id, direction: Direction)
    requires Invariant(db) && scope.household in db.world.members
    requires FreshlyApplied(db, scope, op) && op.entity == Some(DebtorKind) && op.action.Delete?
    requires debtor != op.id
    ensures DebtBalance(Step(db, scope, op).db, debtor, direction) == DebtBalance(db, debtor, direction)
  {
    InvariantRows(db);
    hide Invariant;
    StepTotal(db, scope, op, ToLedger(debtor, direction));
    var h, key := scope.household, Key(DebtorKind, op.id);
    if IsLive(db, h, key) {
      DebtorBurialsSpare(db, h, op.id, debtor, direction);
    }
    hide Burials;
    hide RowsOk;
    hide ToLedger;
    MovedNothing(db, Decide(db, scope, op).writes, ToLedger(debtor, direction));
  }

  lemma DebtorBurialsSpare(db: Db, household: Id, buried: Id, debtor: Id, direction: Direction)
    requires RowsOk(db) && debtor != buried && Key(DebtorKind, buried) in db.rows
    ensures var ws := BuryAll(db, Burials(db, household, Key(DebtorKind, buried), false));
            forall i :: 0 <= i < |ws| ==>
              ToLedger(debtor, direction)(ws[i].row) == At(db.rows, ws[i].key, ToLedger(debtor, direction))
  {
    var keys := Burials(db, household, Key(DebtorKind, buried), false);
    forall i | 0 <= i < |keys|
      ensures ToLedger(debtor, direction)(Buried(db.rows[keys[i]])) == At(db.rows, keys[i], ToLedger(debtor, direction))
    {
      assert keys[i] in keys;
      assert KindOf(db.rows[keys[i]].state) == keys[i].kind;
    }
  }
}
