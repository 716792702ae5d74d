/** What the protocol guarantees in every reachable state, and the exact
    conditions of the guarantees that hold only sometimes. */
module Guarantees {
  import opened Domain
  import opened Database
  import opened WriteRules
  import opened Adapters
  import opened Chronicle
  import opened Engine
  import opened Integrity
  import opened Preservation
  import opened Protocol

  // --- Every reachable state ----------------------------------------------------------------

  /** A stretch of time with one set of households that have members. */
  datatype Epoch = Epoch(world: World, batches: seq<Batch>)

  function RunEpochs(db: Db, epochs: seq<Epoch>): Db
    decreases |epochs|
  {
    if epochs == [] then db
    else
      var last := epochs[|epochs| - 1];
      Run(RunEpochs(db, epochs[..|epochs| - 1]).(world := last.world), last.batches)
  }

  function WorldBefore(world: World, epochs: seq<Epoch>, i: nat): World
    requires i <= |epochs|
  {
    if i == 0 then world else epochs[i - 1].world
  }

  /** Households lose their members over time, one or many at a turn, and then
      send no more batches. */
  predicate Dwindling(world: World, epochs: seq<Epoch>) {
    forall i :: 0 <= i < |epochs| ==>
      && epochs[i].world.members <= WorldBefore(world, epochs, i).members
      && FromMembers(epochs[i].world, epochs[i].batches)
  }

  /** The invariant speaks of households with members, so it outlives their
      loss. */
  lemma MembersLeave(db: Db, world: World)
    requires Invariant(db) && world.members <= db.world.members
    ensures Invariant(db.(world := world))
  {
    var after := db.(world := world);
    forall h | h in world.members ensures Chronicled(after, h) {
      assert Chronicled(db, h);
    }
    LiveStays(db, after);
    hide LogAgrees;
    hide RowsOk;
    hide AppliedOk;
  }

  lemma LiveStays(db: Db, after: Db)
    requires after == db.(world := after.world) && after.world.members <= db.world.members
    ensures RefsOk(db) ==> RefsOk(after)
    ensures NamesOk(db) ==> NamesOk(after)
    ensures HomeOk(db) ==> HomeOk(after)
  {
    assert forall h, k :: IsLive(after, h, k) == IsLive(db, h, k);
    forall h, state | RefsLive(db, h, state) ensures RefsLive(after, h, state) {
    }
    forall h, k, kind, name ensures NameHeldBy(after, h, k, kind, name) == NameHeldBy(db, h, k, kind, name) {
    }
    hide NameHeldBy;
    hide RefsLive;
    hide IsLive;
  }

  lemma {:induction false} EpochsKeep(db: Db, epochs: seq<Epoch>)
    requires Invariant(db) && Dwindling(db.world, epochs)
    ensures Invariant(RunEpochs(db, epochs))
    ensures RunEpochs(db, epochs).world == WorldBefore(db.world, epochs, |epochs|)
    decreases |epochs|
  {
    hide Invariant;
    hide Extends;
    hide FromMembers;
    if epochs != [] {
      var n := |epochs| - 1;
      var front := epochs[..n];
      forall i | 0 <= i < n
        ensures front[i].world.members <= WorldBefore(db.world, front, i).members
                && FromMembers(front[i].world, front[i].batches)
      {
        assert front[i] == epochs[i] && WorldBefore(db.world, front, i) == WorldBefore(db.world, epochs, i);
      }
      assert WorldBefore(db.world, front, n) == WorldBefore(db.world, epochs, n);
      EpochsKeep(db, front);
      var start := RunEpochs(db, front).(world := epochs[n].world);
      MembersLeave(RunEpochs(db, front), epochs[n].world);
      RunKeeps(start, epochs[n].batches);
      WorldKept(start, RunEpochs(db, epochs));
    }
  }

  /** After any runs on a new server, households losing their members and their
      ids being adopted in between: every row has the shape of its kind (RowsOk),
      live rows refer only to live rows of their household (RefsOk), every row
      only to rows of its household (HomeOk), no two live categories or debtors of
      a household share a name (NamesOk), and the log tells exactly the rows
      (LogAgrees). */
  lemma ReachableStates(world: World, epochs: seq<Epoch>)
    requires Dwindling(world, epochs)
    ensures var db := RunEpochs(Empty(world), epochs);
            RowsOk(db) && RefsOk(db) && HomeOk(db) && NamesOk(db) && LogAgrees(db)
  {
    EmptyIsInvariant(world);
    EpochsKeep(Empty(world), epochs);
    InvariantParts(RunEpochs(Empty(world), epochs));
  }

  lemma InvariantParts(db: Db)
    requires Invariant(db)
    ensures RowsOk(db) && RefsOk(db) && HomeOk(db) && NamesOk(db) && LogAgrees(db)
  {
  }

  /** No run changes a transaction's or a plan's type, a debtor's currency, or
      the debtor, direction and kind of a debt operation. */
  lemma FrozenForEver(db: Db, batches: seq<Batch>, household: Id, key: Key)
    requires Invariant(db) && FromMembers(db.world, batches) && household in db.world.members
    requires GetAny(db, household, key).Some?
    ensures var later := GetAny(Run(db, batches), household, key);
            later.Some? && SameFrozenFields(GetAny(db, household, key).value.state, later.value.state)
  {
    RunKeeps(db, batches);
    RowEvolves(db, Run(db, batches), household, key);
  }

  // --- Batches that never abort -----------------------------------------------------------------

  /** A record of a household without members that some row refers to: adopting
      its id would fail. */
  predicate ReferencedOrphan(db: Db, key: Key) {
    key in db.rows && db.rows[key].owner !in db.world.members && ReferencedAnywhere(db, key)
  }

  lemma StepLeavesOrphans(db: Db, scope: Scope, op: Operation, k: Key)
    requires RowsOk(db) && scope.household in db.world.members
    requires Step(db, scope, op).Stepped?
    requires var after := Step(db, scope, op).db;
             k in after.rows && after.rows[k].owner !in db.world.members
    ensures k in db.rows && db.rows[k] == Step(db, scope, op).db.rows[k]
  {
    hide Decide;
    hide SoundUpsert;
    hide SoundBurial;
    if !IsReplay(db, scope, op) && Decide(db, scope, op).Commit? {
      DecideSound(db, scope, op);
      var d := Decide(db, scope, op);
      var base := Evicted(db, d.evicted);
      assert forall i :: 0 <= i < |d.writes| ==> LegalWrite(base, scope.household, d.writes[i]);
      forall i | 0 <= i < |d.writes| ensures d.writes[i].key != k {
        PutAllWrites(base, scope, d.writes, i);
      }
      PutAllFrame(base, scope, d.writes, k);
    }
  }

  /** No operation makes a referenced orphan: members' rows refer to rows of
      their own household only. */
  lemma StepMakesNoReferencedOrphan(db: Db, scope: Scope, op: Operation, key: Key)
    requires Invariant(db) && scope.household in db.world.members
    requires Step(db, scope, op).Stepped? && ReferencedOrphan(Step(db, scope, op).db, key)
    ensures ReferencedOrphan(db, key)
  {
    var after := Step(db, scope, op).db;
    StepKeeps(db, scope, op);
    WorldKept(db, after);
    InvariantParts(db);
    InvariantParts(after);
    hide Invariant;
    hide Extends;
    var k :| k in after.rows && RefersTo(after.rows[k].state, key);
    assert after.rows[k].owner == after.rows[key].owner;
    StepLeavesOrphans(db, scope, op, key);
    StepLeavesOrphans(db, scope, op, k);
  }

  /** An operation no storage failure can come from: an upsert of what the tables
      can hold, not claiming the id of a referenced orphan. */
  predicate Harmless(db: Db, op: Operation) {
    op.entity.Some? && op.action.Upsert? ==>
      var data := Decode(op.entity.value, op.data);
      data.Some? ==>
        StorageAccepts(db.world, data.value)
        && (op.baseVersion == 0 ==> !ReferencedOrphan(db, Key(op.entity.value, op.id)))
  }

  lemma HarmlessNeverFails(db: Db, scope: Scope, op: Operation)
    requires Harmless(db, op)
    ensures Step(db, scope, op).Stepped?
  {
    FailsExactlyWhen(db, scope, op);
    hide Step;
    hide ValidateUpsert;
    hide ReferencedAnywhere;
  }

  /** A batch of operations harmless where it starts commits, with one answer per
      operation in order. */
  lemma {:induction false} BatchIsTotal(db: Db, scope: Scope, ops: seq<Operation>)
    requires Invariant(db) && scope.household in db.world.members
    requires forall i :: 0 <= i < |ops| ==> Harmless(db, ops[i])
    ensures PushOps(db, scope, ops).Committed?
    ensures AnswersInOrder(PushOps(db, scope, ops).results, ops)
    ensures forall key :: ReferencedOrphan(PushOps(db, scope, ops).db, key) ==> ReferencedOrphan(db, key)
    decreases |ops|
  {
    hide Step;
    hide Invariant;
    hide Extends;
    hide StorageAccepts;
    hide NameReadFails;
    hide ReferencedOrphan;
    if ops != [] {
      var front, last := ops[..|ops| - 1], ops[|ops| - 1];
      assert forall i :: 0 <= i < |front| ==> front[i] == ops[i];
      BatchIsTotal(db, scope, front);
      PushOpsKeeps(db, scope, front);
      var mid := PushOps(db, scope, front).db;
      WorldKept(db, mid);
      HarmlessNeverFails(mid, scope, last);
      assert ops == front + [last];
      PushOpsLast(db, scope, front, last);
      forall key | ReferencedOrphan(Step(mid, scope, last).db, key) ensures ReferencedOrphan(db, key) {
        StepMakesNoReferencedOrphan(mid, scope, last, key);
      }
    }
    ResultsInOrder(db, scope, ops);
  }

  // --- What an applied upsert stores ---------------------------------------------------------------

  /** The payloads a create stores as they came: an active category, a plan
      anchored on its first date, a transfer without stated credit, a debtor in
      the household's currency. */
  predicate CreatesVerbatim(db: Db, household: Id, data: FullState) {
    match data
    case OfAccount(_) => true
    case OfCategory(c) => c.archivedAt.None?
    case OfTransaction(t) => t.destinationAmount.None?
    case OfDebtor(d) => d.currency == BaseCurrency(db, household)
    case OfDebtOperation(_) => true
    case OfPlan(p) => p.anchorDate == p.nextDue
  }

  /** An update drops only a stated credit and a debtor's changed currency. */
  predicate ReplacesVerbatim(current: FullState, data: FullState) {
    match data
    case OfTransaction(t) => t.destinationAmount.None?
    case OfDebtor(d) => current.OfDebtor? && d.currency == current.debtor.currency
    case _ => true
  }

  /** What an applied upsert leaves: its validated payload, as the store's create
      or replace keeps it. */
  lemma AppliedUpsertLeaves(db: Db, scope: Scope, op: Operation)
    requires FreshlyApplied(db, scope, op) && op.entity.Some? && op.action.Upsert?
    ensures var kind, h := op.entity.value, scope.household;
            var key, data, after := Key(kind, op.id), Decode(kind, op.data), Step(db, scope, op).db;
            var before := GetAny(db, h, key);
            && ValidateUpsert(db, h, op, kind).None? && data.Some?
            && IsLive(after, h, key)
            && (before.None? ==> after.rows[key].state == Created(db, h, data.value))
            && (before.Some? ==> !before.value.deleted && Immutable(before.value.state, data.value).None?
                                 && after.rows[key].state == Replaced(before.value.state, data.value))
  {
    hide PreValidate;
    hide PostReadValidate;
    hide Immutable;
    hide Created;
    hide Replaced;
    hide ReferencedAnywhere;
    hide StorageAccepts;
    hide NameReadFails;
    var d := Decide(db, scope, op);
    SinglePut(Evicted(db, d.evicted), scope, d.writes);
  }

  /** An applied upsert leaves exactly its payload in the row if and only if the
      payload holds nothing the store drops. */
  lemma StoredVerbatimExactlyWhen(db: Db, scope: Scope, op: Operation)
    requires RowsOk(db)
    requires FreshlyApplied(db, scope, op) && op.entity.Some? && op.action.Upsert?
    ensures var key, h := Key(op.entity.value, op.id), scope.household;
            var data, before, after := Decode(op.entity.value, op.data), GetAny(db, h, key), GetAny(Step(db, scope, op).db, h, key);
            && data.Some? && after.Some?
            && (after.value.state == data.value <==>
                  if before.None? then CreatesVerbatim(db, h, data.value)
                  else ReplacesVerbatim(before.value.state, data.value))
  {
    AppliedUpsertLeaves(db, scope, op);
    hide Step;
    hide ValidateUpsert;
    hide BaseCurrency;
  }

  // --- Categories of transactions and plans ------------------------------------------------------------

  /** The written record's category is live, has its type, and is archived only
      where the row replaced was live with that same category already. A plan's
      category is never archived. */
  lemma WrittenCategoryFits(db: Db, scope: Scope, op: Operation)
    requires RowsOk(db) && scope.household in db.world.members
    requires FreshlyApplied(db, scope, op) && op.action.Upsert?
    requires op.entity == Some(TransactionKind) || op.entity == Some(PlannedPaymentKind)
    ensures var key, h := Key(op.entity.value, op.id), scope.household;
            var before, after := GetAny(db, h, key), Step(db, scope, op).db;
            && IsLive(after, h, key)
            && match after.rows[key].state
               case OfTransaction(t) => CategoryFits(after, h, t, PreviousCategory(before))
               case OfPlan(p) =>
                 var category := LiveCategory(after, h, p.categoryId);
                 category.Some? && category.value.typ == p.typ && category.value.archivedAt.None?
               case _ => false
  {
    var h, key := scope.household, Key(op.entity.value, op.id);
    AppliedUpsertLeaves(db, scope, op);
    forall id ensures LiveCategory(Step(db, scope, op).db, h, id) == LiveCategory(db, h, id) {
      OtherRowStays(db, scope, op, Key(CategoryKind, id));
    }
    hide Step;
    var data := Decode(op.entity.value, op.data).value;
    if data.OfTransaction? {
      TransactionRulesMeaning(db, h, data.transaction, PreviousCategory(GetAny(db, h, key)));
      hide ValidateTransactionWrite;
    }
  }

  /** An applied upsert touches no other record. */
  lemma OtherRowStays(db: Db, scope: Scope, op: Operation, key: Key)
    requires FreshlyApplied(db, scope, op) && op.entity.Some? && op.action.Upsert?
    requires key != Key(op.entity.value, op.id)
    ensures GetAny(Step(db, scope, op).db, scope.household, key) == GetAny(db, scope.household, key)
  {
    hide ValidateUpsert;
    hide Immutable;
    hide Created;
    hide Replaced;
    hide ReferencedAnywhere;
    hide StorageAccepts;
    hide NameReadFails;
    var d := Decide(db, scope, op);
    SinglePut(Evicted(db, d.evicted), scope, d.writes);
  }

  datatype Use = Use(category: Id, typ: TxType)

  /** The category a state uses, and as what. */
  function UseOf(state: FullState): Option<Use> {
    match state
    case OfTransaction(t) => if t.categoryId.Some? then Some(Use(t.categoryId.value, t.typ)) else None
    case OfPlan(p) => Some(Use(p.categoryId, p.typ))
    case _ => None
  }

  predicate UseFits(db: Db, household: Id, use: Option<Use>) {
    use.Some? ==>
      var category := LiveCategory(db, household, use.value.category);
      category.Some? ==> category.value.typ == use.value.typ
  }

  /** Every live transaction and plan has its category's type. */
  ghost predicate TypesMatch(db: Db, household: Id) {
    forall k :: IsLive(db, household, k) ==> UseFits(db, household, UseOf(db.rows[k].state))
  }

  /** A category push that gives the category another type than some live
      transaction or plan uses it as. */
  ghost predicate Retypes(db: Db, household: Id, op: Operation) {
    && op.entity == Some(CategoryKind) && op.action.Upsert?
    && Decode(CategoryKind, op.data).Some?
    && exists k :: IsLive(db, household, k) && UseOf(db.rows[k].state).Some?
         && UseOf(db.rows[k].state).value.category == op.id
         && UseOf(db.rows[k].state).value.typ != Decode(CategoryKind, op.data).value.category.typ
  }

  /** Types are checked when a transaction or plan is written, not when its
      category is: an applied operation keeps them matched if and only if it does
      not retype a category in use. */
  lemma TypesStayMatchedExactlyWhen(db: Db, scope: Scope, op: Operation)
    requires Invariant(db) && scope.household in db.world.members && TypesMatch(db, scope.household)
    requires FreshlyApplied(db, scope, op) && op.entity.Some?
    ensures TypesMatch(Step(db, scope, op).db, scope.household) <==> !Retypes(db, scope.household, op)
  {
    InvariantRows(db);
    if op.action.Delete? {
      DeleteKeepsTypes(db, scope, op);
    } else if op.entity.value.CategoryKind? {
      CategoryPushTypes(db, scope, op);
    } else {
      OtherPushKeepsTypes(db, scope, op);
    }
  }

  lemma DeleteKeepsTypes(db: Db, scope: Scope, op: Operation)
    requires RowsOk(db) && scope.household in db.world.members && TypesMatch(db, scope.household)
    requires FreshlyApplied(db, scope, op) && op.entity.Some? && op.action.Delete?
    ensures TypesMatch(Step(db, scope, op).db, scope.household)
  {
    var h, after := scope.household, Step(db, scope, op).db;
    var d := Decide(db, scope, op);
    DecideSound(db, scope, op);
    BurialOfDelete(db, scope, op);
    hide Decide;
    hide SoundCommit;
    hide SoundBurial;
    hide LegalWrites;
    forall k | IsLive(after, h, k) ensures UseFits(after, h, UseOf(after.rows[k].state)) {
      BurialOnlyBuries(db, scope, d.writes, k);
      var use := UseOf(after.rows[k].state);
      if use.Some? {
        BurialOnlyBuries(db, scope, d.writes, Key(CategoryKind, use.value.category));
        assert UseFits(db, h, use);
      }
    }
  }

  lemma BurialOfDelete(db: Db, scope: Scope, op: Operation)
    requires RowsOk(db) && scope.household in db.world.members
    requires FreshlyApplied(db, scope, op) && op.entity.Some? && op.action.Delete?
    ensures var d := Decide(db, scope, op);
            && d.Commit? && d.evicted.None?
            && LegalWrites(db, scope.household, d.writes) && SoundBurial(db, scope.household, d.writes)
  {
    DecideSound(db, scope, op);
    hide InUse;
    hide Burials;
    hide RowsOk;
    hide SoundUpsert;
    hide SoundBurial;
    hide LegalWrites;
    var d := Decide(db, scope, op);
    assert d.writes != [] ==> d.writes[0].row.deleted;
  }

  lemma CategoryPushTypes(db: Db, scope: Scope, op: Operation)
    requires Invariant(db) && scope.household in db.world.members && TypesMatch(db, scope.household)
    requires FreshlyApplied(db, scope, op) && op.entity == Some(CategoryKind) && op.action.Upsert?
    ensures TypesMatch(Step(db, scope, op).db, scope.household) <==> !Retypes(db, scope.household, op)
  {
    var h, after, key := scope.household, Step(db, scope, op).db, Key(CategoryKind, op.id);
    AppliedUpsertLeaves(db, scope, op);
    forall k | k != key ensures GetAny(after, h, k) == GetAny(db, h, k) {
      OtherRowStays(db, scope, op, k);
    }
    InvariantRows(db);
    CategoryUnused(db, h, key, after);
    hide Step;
    hide ValidateUpsert;
    TypesAfterCategory(db, after, h, op.id, Decode(CategoryKind, op.data).value.category.typ);
  }

  /** The category's own row uses no category. */
  lemma CategoryUnused(db: Db, household: Id, key: Key, after: Db)
    requires RowsOk(db) && key.kind.CategoryKind? && key in after.rows && KindOf(after.rows[key].state) == CategoryKind
    ensures UseOf(after.rows[key].state).None?
    ensures key in db.rows ==> UseOf(db.rows[key].state).None?
  {
    assert key in db.rows ==> KindOf(db.rows[key].state) == CategoryKind;
  }

  lemma TypesAfterCategory(db: Db, after: Db, h: Id, id: Id, typ: TxType)
    requires TypesMatch(db, h)
    requires LiveCategory(after, h, id).Some? && LiveCategory(after, h, id).value.typ == typ
    requires forall k :: k != Key(CategoryKind, id) ==> GetAny(after, h, k) == GetAny(db, h, k)
    requires Key(CategoryKind, id) in db.rows ==> UseOf(db.rows[Key(CategoryKind, id)].state).None?
    requires UseOf(after.rows[Key(CategoryKind, id)].state).None?
    ensures TypesMatch(after, h) <==>
            !exists k :: IsLive(db, h, k) && UseOf(db.rows[k].state).Some?
               && UseOf(db.rows[k].state).value.category == id && UseOf(db.rows[k].state).value.typ != typ
  {
    var key := Key(CategoryKind, id);
    forall k | k != key ensures IsLive(after, h, k) == IsLive(db, h, k) && (IsLive(db, h, k) ==> db.rows[k] == after.rows[k]) {
      assert GetAny(after, h, k) == GetAny(db, h, k);
    }
    hide UseOf;
    forall k | k != key && IsLive(db, h, k)
      ensures UseFits(after, h, UseOf(db.rows[k].state)) <==>
              !(UseOf(db.rows[k].state).Some? && UseOf(db.rows[k].state).value.category == id
                && UseOf(db.rows[k].state).value.typ != typ)
    {
      assert UseFits(db, h, UseOf(db.rows[k].state));
    }
  }

  lemma OtherPushKeepsTypes(db: Db, scope: Scope, op: Operation)
    requires RowsOk(db) && scope.household in db.world.members && TypesMatch(db, scope.household)
    requires FreshlyApplied(db, scope, op) && op.entity.Some? && op.action.Upsert? && !op.entity.value.CategoryKind?
    ensures TypesMatch(Step(db, scope, op).db, scope.household)
  {
    var h, after, key := scope.household, Step(db, scope, op).db, Key(op.entity.value, op.id);
    AppliedUpsertLeaves(db, scope, op);
    forall k | k != key ensures GetAny(after, h, k) == GetAny(db, h, k) {
      OtherRowStays(db, scope, op, k);
    }
    if op.entity.value.TransactionKind? || op.entity.value.PlannedPaymentKind? {
      WrittenCategoryFits(db, scope, op);
    }
    hide Step;
    hide ValidateUpsert;
    forall k | IsLive(after, h, k) ensures UseFits(after, h, UseOf(after.rows[k].state)) {
      var use := UseOf(after.rows[k].state);
      if k != key && use.Some? {
        assert GetAny(after, h, k) == GetAny(db, h, k);
        assert UseFits(db, h, use);
        assert GetAny(after, h, Key(CategoryKind, use.value.category)) == GetAny(db, h, Key(CategoryKind, use.value.category));
      }
    }
  }

  // --- Pushing a batch again ----------------------------------------------------------------------------

  /** Pushing operations leaves the database as it is if and only if each was
      already applied or is refused there. A client that repeats a batch finds
      its applied items so, but a refused one may apply the second time. */
  lemma {:induction false} PushIsNoOpExactlyWhen(db: Db, scope: Scope, ops: seq<Operation>)
    requires Invariant(db) && scope.household in db.world.members
    ensures (PushOps(db, scope, ops).Committed? && PushOps(db, scope, ops).db == db)
            <==> forall i :: 0 <= i < |ops| ==> IsReplay(db, scope, ops[i]) || Decide(db, scope, ops[i]).Refuse?
    ensures PushOps(db, scope, ops).Committed? && PushOps(db, scope, ops).db.applied == db.applied ==>
              PushOps(db, scope, ops).db == db
    decreases |ops|
  {
    hide Decide;
    hide Invariant;
    if ops != [] {
      var n := |ops| - 1;
      var front := ops[..n];
      assert forall i :: 0 <= i < n ==> front[i] == ops[i];
      PushIsNoOpExactlyWhen(db, scope, front);
      PushOpsKeeps(db, scope, front);
      var before := PushOps(db, scope, front);
      if before.Committed? && PushOps(db, scope, ops).Committed? {
        NoOpStep(before.db, scope, ops[n]);
        NoNewAnswers(db, before.db, PushOps(db, scope, ops).db);
      }
    }
  }

  /** A step grows the idempotency table exactly when it commits something. */
  lemma NoOpStep(db: Db, scope: Scope, op: Operation)
    requires Step(db, scope, op).Stepped?
    ensures AppliedGrows(db, Step(db, scope, op).db)
    ensures Step(db, scope, op).db.applied == db.applied <==> IsReplay(db, scope, op) || Decide(db, scope, op).Refuse?
    ensures Step(db, scope, op).db.applied == db.applied ==> Step(db, scope, op).db == db
  {
    hide Decide;
    var d := Decide(db, scope, op);
    if !IsReplay(db, scope, op) && d.Commit? {
      PutAllKeepsTheRest(Evicted(db, d.evicted), scope, d.writes);
      assert OpKey(scope.household, op.opId) in Step(db, scope, op).db.applied;
    }
  }

  lemma NoNewAnswers(a: Db, b: Db, c: Db)
    requires AppliedGrows(a, b) && AppliedGrows(b, c)
    ensures a.applied == c.applied ==> a.applied == b.applied
  {
  }

  // --- Deletes of unknown records -------------------------------------------------------------------------

  /** Deleting an id the household never had is applied at version 0 and leaves
      no tombstone: rows and log stay, and a later create of that id is judged as
      if the delete had not been sent. */
  lemma UnknownDeleteIsForgotten(db: Db, scope: Scope, op: Operation, create: Operation)
    requires !IsReplay(db, scope, op) && op.entity.Some? && op.action.Delete?
    requires GetAny(db, scope.household, Key(op.entity.value, op.id)).None?
    ensures Step(db, scope, op).Stepped? && Step(db, scope, op).result == Applied(op.opId, 0)
    ensures Step(db, scope, op).db == db.(applied := db.applied[OpKey(scope.household, op.opId) := Applied(op.opId, 0)])
    ensures create.entity.Some? && create.action.Upsert? ==>
              Decide(Step(db, scope, op).db, scope, create) == Decide(db, scope, create)
  {
    assert PutAll(db, scope, []) == db;
    var opKey := OpKey(scope.household, op.opId);
    assert Step(db, scope, op).db == Record(db, opKey, Applied(op.opId, 0));
    if create.entity.Some? && create.action.Upsert? {
      UpsertsIgnoreAnswers(db, scope, create, opKey, Applied(op.opId, 0));
    }
  }

  /** The idempotency table decides replays and nothing else about an upsert. */
  lemma UpsertsIgnoreAnswers(db: Db, scope: Scope, op: Operation, opKey: OpKey, result: PushResult)
    requires op.entity.Some? && op.action.Upsert?
    ensures Decide(Record(db, opKey, result), scope, op) == Decide(db, scope, op)
  {
    ValidationIgnoresAnswers(db, scope.household, op, op.entity.value, opKey, result);
    var after := Record(db, opKey, result);
    assert ReferencedAnywhere(after, Key(op.entity.value, op.id)) == ReferencedAnywhere(db, Key(op.entity.value, op.id));
    assert forall data :: Created(after, scope.household, data) == Created(db, scope.household, data);
    hide ReferencedAnywhere;
    hide Created;
    hide ValidateUpsert;
    hide Immutable;
    hide Replaced;
    hide StorageAccepts;
    hide NameReadFails;
  }

  lemma ReadsIgnoreAnswers(db: Db, household: Id, opKey: OpKey, result: PushResult)
    ensures var after := Record(db, opKey, result);
            && (forall id :: LiveAccount(after, household, id) == LiveAccount(db, household, id))
            && (forall id :: LiveCategory(after, household, id) == LiveCategory(db, household, id))
            && (forall id :: LiveDebtorExists(after, household, id) == LiveDebtorExists(db, household, id))
            && (forall name, id :: CategoryNameTaken(after, household, name, id) == CategoryNameTaken(db, household, name, id))
            && (forall name, id :: DebtorNameTaken(after, household, name, id) == DebtorNameTaken(db, household, name, id))
  {
    var after := Record(db, opKey, result);
    forall name, id
      ensures CategoryNameTaken(after, household, name, id) == CategoryNameTaken(db, household, name, id)
      ensures DebtorNameTaken(after, household, name, id) == DebtorNameTaken(db, household, name, id)
    {
      assert forall k :: IsLive(after, household, k) == IsLive(db, household, k);
    }
  }

  lemma ValidationIgnoresAnswers(db: Db, household: Id, op: Operation, kind: Kind, opKey: OpKey, result: PushResult)
    ensures ValidateUpsert(Record(db, opKey, result), household, op, kind) == ValidateUpsert(db, household, op, kind)
  {
    ReadsIgnoreAnswers(db, household, opKey, result);
    RulesIgnoreAnswers(db, household, opKey, result);
    hide ValidateTransactionWrite;
    hide ValidatePlannedPaymentWrite;
    hide ValidateDebtOperationWrite;
    hide CategoryNameTaken;
    hide DebtorNameTaken;
    hide PlanShape;
    hide ErrorSpecFor;
  }

  lemma RulesIgnoreAnswers(db: Db, household: Id, opKey: OpKey, result: PushResult)
    ensures var after := Record(db, opKey, result);
            && (forall t, previous :: ValidateTransactionWrite(after, household, t, previous)
                                      == ValidateTransactionWrite(db, household, t, previous))
            && (forall a, c, typ :: ValidatePlannedPaymentWrite(after, household, a, c, typ)
                                    == ValidatePlannedPaymentWrite(db, household, a, c, typ))
            && (forall d :: ValidateDebtOperationWrite(after, household, d) == ValidateDebtOperationWrite(db, household, d))
  {
    ReadsIgnoreAnswers(db, household, opKey, result);
    hide LiveAccount;
    hide LiveCategory;
    hide LiveDebtorExists;
    hide ValidateAmount;
  }
}
