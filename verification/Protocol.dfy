/** The promises of the push protocol over every batch and every run. */
module Protocol {
  import opened Domain
  import opened Database
  import opened Adapters
  import opened Chronicle
  import opened Engine
  import opened Integrity
  import opened Preservation

  // --- Per-item results ---------------------------------------------------------------------

  lemma StepAnswersItsOp(db: Db, scope: Scope, op: Operation)
    requires AppliedOk(db) && Step(db, scope, op).Stepped?
    ensures Step(db, scope, op).result.opId == op.opId
  {
  }

  /** A conflict or error item leaves the whole database untouched. */
  lemma RefusedIsInert(db: Db, scope: Scope, op: Operation)
    requires Step(db, scope, op).Stepped? && !Step(db, scope, op).result.Applied?
    ensures Step(db, scope, op).db == db
  {
  }

  /** An applied item is durably recorded with exactly the answer it got. */
  lemma AppliedIsRecorded(db: Db, scope: Scope, op: Operation)
    requires Step(db, scope, op).Stepped? && Step(db, scope, op).result.Applied?
    ensures var after, opKey := Step(db, scope, op).db, OpKey(scope.household, op.opId);
            opKey in after.applied && after.applied[opKey] == Step(db, scope, op).result
  {
    RefusalsAreNotApplied(db, scope, op);
    hide Decide;
  }

  lemma RefusalsAreNotApplied(db: Db, scope: Scope, op: Operation)
    ensures Decide(db, scope, op).Refuse? ==> !Decide(db, scope, op).result.Applied?
  {
    hide ValidateUpsert;
  }

  predicate AdoptsReferencedOrphan(db: Db, scope: Scope, op: Operation, key: Key) {
    op.baseVersion == 0 && key in db.rows && db.rows[key].owner != scope.household
    && db.rows[key].owner !in db.world.members && ReferencedAnywhere(db, key)
  }

  /** Reaching the store with this upsert: a create of a free or orphaned id, or
      an update of a live row at its base version with its frozen fields. */
  predicate ReachesStore(db: Db, scope: Scope, op: Operation, key: Key, data: FullState) {
    match GetAny(db, scope.household, key)
    case None => op.baseVersion == 0 && (key in db.rows ==> db.rows[key].owner !in db.world.members)
    case Some(row) =>
      op.baseVersion != 0 && !row.deleted && row.version == op.baseVersion && Immutable(row.state, data).None?
  }

  /** Exactly when an operation takes its whole batch down: an upsert whose name
      check cannot be asked, because the name is no database text, or a valid
      upsert that would delete an orphan some row still refers to or carries what
      the tables refuse: such a text, an unknown account currency, or a name its
      index cannot hold. */
  lemma FailsExactlyWhen(db: Db, scope: Scope, op: Operation)
    ensures Step(db, scope, op).Failed? <==>
            && !IsReplay(db, scope, op) && op.entity.Some? && op.action.Upsert?
            && var key, data := Key(op.entity.value, op.id), Decode(op.entity.value, op.data);
               && data.Some?
               && (NameReadFails(data.value)
                   || (&& ValidateUpsert(db, scope.household, op, op.entity.value).None?
                       && ReachesStore(db, scope, op, key, data.value)
                       && (AdoptsReferencedOrphan(db, scope, op, key) || !StorageAccepts(db.world, data.value))))
  {
    hide Immutable;
    hide PreValidate;
    hide PostReadValidate;
    hide ReferencedAnywhere;
    hide StorageAccepts;
    hide NameReadFails;
  }

  predicate AnswersInOrder(results: seq<PushResult>, ops: seq<Operation>) {
    |results| == |ops| && forall i :: 0 <= i < |ops| ==> results[i].opId == ops[i].opId
  }

  lemma {:induction false} ResultsInOrder(db: Db, scope: Scope, ops: seq<Operation>)
    requires Invariant(db) && scope.household in db.world.members
    requires PushOps(db, scope, ops).Committed?
    ensures AnswersInOrder(PushOps(db, scope, ops).results, ops)
    decreases |ops|
  {
    hide Extends;
    if ops != [] {
      var front, last := ops[..|ops| - 1], ops[|ops| - 1];
      assert ops == front + [last];
      PushOpsLast(db, scope, front, last);
      PushOpsKeeps(db, scope, front);
      AnswersKnown(PushOps(db, scope, front).db);
      hide Invariant;
      ResultsInOrder(db, scope, front);
      StepAnswersItsOp(PushOps(db, scope, front).db, scope, last);
      hide PushOps;
      hide Step;
    }
  }

  lemma AnswersKnown(db: Db)
    requires Invariant(db)
    ensures AppliedOk(db)
  {
  }

  /** Splitting a batch: xs then ys leaves what xs + ys leaves and answers the
      same; a failure anywhere in xs + ys rolls back all of it. */
  lemma {:induction false} PushSplits(db: Db, scope: Scope, xs: seq<Operation>, ys: seq<Operation>)
    ensures match PushOps(db, scope, xs)
            case RolledBack(burned) => PushOps(db, scope, xs + ys) == RolledBack(burned)
            case Committed(mid, first) =>
              match PushOps(mid, scope, ys)
              case RolledBack(burned) => PushOps(db, scope, xs + ys) == RolledBack(burned)
              case Committed(after, second) => PushOps(db, scope, xs + ys) == Committed(after, first + second)
    decreases |ys|
  {
    hide Step;
    if ys == [] {
      assert xs + ys == xs;
      if PushOps(db, scope, xs).Committed? {
        assert PushOps(db, scope, xs).results + [] == PushOps(db, scope, xs).results;
      }
    } else {
      var n := |ys| - 1;
      PushSplits(db, scope, xs, ys[..n]);
      assert (xs + ys)[..|xs + ys| - 1] == xs + ys[..n];
    }
  }

  // --- Exactly-once effect --------------------------------------------------------------------

  /** The batch without every operation already applied when its turn comes. */
  function Pruned(db: Db, scope: Scope, ops: seq<Operation>): seq<Operation>
    decreases |ops|
  {
    if ops == [] then []
    else
      var front, last := ops[..|ops| - 1], ops[|ops| - 1];
      var before := PushOps(db, scope, front);
      if before.Committed? && IsReplay(before.db, scope, last) then Pruned(db, scope, front)
      else Pruned(db, scope, front) + [last]
  }

  /** Redeliveries inside a batch have no effect: dropping them leaves the same
      database, or the same rollback. */
  lemma {:induction false} RedeliveriesAreInert(db: Db, scope: Scope, ops: seq<Operation>)
    ensures match PushOps(db, scope, ops)
            case RolledBack(burned) => PushOps(db, scope, Pruned(db, scope, ops)) == RolledBack(burned)
            case Committed(after, _) =>
              PushOps(db, scope, Pruned(db, scope, ops)).Committed?
              && PushOps(db, scope, Pruned(db, scope, ops)).db == after
    decreases |ops|
  {
    if ops != [] {
      var front, last := ops[..|ops| - 1], ops[|ops| - 1];
      RedeliveriesAreInert(db, scope, front);
      assert ops == front + [last];
      var kept := Pruned(db, scope, front);
      PushOpsLast(db, scope, front, last);
      PushOpsLast(db, scope, kept, last);
      PrunedLast(db, scope, front, last);
      hide PushOps;
      hide Pruned;
      if PushOps(db, scope, front).Committed? {
        ReplayIsInert(PushOps(db, scope, front).db, scope, last);
      }
      hide Step;
      hide IsReplay;
    }
  }

  lemma ReplayIsInert(db: Db, scope: Scope, op: Operation)
    ensures IsReplay(db, scope, op) ==> Step(db, scope, op).Stepped? && Step(db, scope, op).db == db
  {
  }

  lemma PushOpsLast(db: Db, scope: Scope, front: seq<Operation>, last: Operation)
    ensures PushOps(db, scope, front + [last])
            == match PushOps(db, scope, front)
               case RolledBack(burned) => RolledBack(burned)
               case Committed(mid, results) =>
                 match Step(mid, scope, last)
                 case Failed => RolledBack(mid.nextSeq)
                 case Stepped(after, result) => Committed(after, results + [result])
  {
    hide Step;
    assert (front + [last])[..|front|] == front;
  }

  lemma PrunedLast(db: Db, scope: Scope, front: seq<Operation>, last: Operation)
    ensures Pruned(db, scope, front + [last])
            == if PushOps(db, scope, front).Committed? && IsReplay(PushOps(db, scope, front).db, scope, last)
               then Pruned(db, scope, front) else Pruned(db, scope, front) + [last]
  {
    hide Step;
    assert (front + [last])[..|front|] == front;
  }

  /** And every delivery of an opId after its first applied one is answered with
      that first result. */
  lemma {:induction false} AppliedAnswersAgree(db: Db, scope: Scope, ops: seq<Operation>, i: nat)
    requires Invariant(db) && scope.household in db.world.members
    requires PushOps(db, scope, ops).Committed? && i < |ops|
    requires |PushOps(db, scope, ops).results| == |ops|
    requires PushOps(db, scope, ops).results[i].Applied?
    ensures var opKey := OpKey(scope.household, ops[i].opId);
            && opKey in PushOps(db, scope, ops).db.applied
            && PushOps(db, scope, ops).db.applied[opKey] == PushOps(db, scope, ops).results[i]
    decreases |ops|
  {
    hide Step;
    var n := |ops| - 1;
    var front := ops[..n];
    PushOpsKeeps(db, scope, front);
    var before := PushOps(db, scope, front);
    StepKeeps(before.db, scope, ops[n]);
    if i < n {
      AppliedAnswersAgree(db, scope, front, i);
      assert front[i] == ops[i];
    } else {
      AppliedIsRecorded(before.db, scope, ops[n]);
    }
  }

  function PrunedRun(db: Db, batches: seq<Batch>): seq<Batch>
    decreases |batches|
  {
    if batches == [] then []
    else
      var front, last := batches[..|batches| - 1], batches[|batches| - 1];
      PrunedRun(db, front) + [last.(ops := Pruned(Run(db, front), last.scope, last.ops))]
  }

  /** Redeliveries across batches, in any run, have no effect either. */
  lemma {:induction false} RunRedeliveriesAreInert(db: Db, batches: seq<Batch>)
    ensures Run(db, PrunedRun(db, batches)) == Run(db, batches)
    decreases |batches|
  {
    if batches != [] {
      var front, last := batches[..|batches| - 1], batches[|batches| - 1];
      RunRedeliveriesAreInert(db, front);
      var kept := PrunedRun(db, front);
      var pruned := last.(ops := Pruned(Run(db, front), last.scope, last.ops));
      assert (kept + [pruned])[..|kept + [pruned]| - 1] == kept;
      RedeliveriesAreInert(Run(db, front), last.scope, last.ops);
    }
  }

  /** Once applied, an opId answers with its stored result for ever, whatever
      the redelivered operation says. */
  lemma ReplayedForEver(db: Db, scope: Scope, op: Operation, batches: seq<Batch>, again: Operation, actor: Id)
    requires Invariant(db) && scope.household in db.world.members
    requires Step(db, scope, op).Stepped? && Step(db, scope, op).result.Applied?
    requires FromMembers(db.world, batches) && again.opId == op.opId
    ensures var first := Step(db, scope, op);
            var later := Run(first.db, batches);
            Step(later, Scope(scope.household, actor), again) == Stepped(later, first.result)
  {
    hide Perform;
    hide Decide;
    StepKeeps(db, scope, op);
    AppliedIsRecorded(db, scope, op);
    RunKeeps(Step(db, scope, op).db, batches);
  }

  // --- No lost update ----------------------------------------------------------------------------

  predicate FreshlyApplied(db: Db, scope: Scope, op: Operation) {
    && !IsReplay(db, scope, op)
    && Step(db, scope, op).Stepped? && Step(db, scope, op).result.Applied?
  }

  /** An applied upsert found exactly the version it was based on (no record of
      the household for base 0) and left the next one. */
  lemma UpsertMovesOneVersion(db: Db, scope: Scope, op: Operation)
    requires FreshlyApplied(db, scope, op) && op.entity.Some? && op.action.Upsert?
    ensures var key, h := Key(op.entity.value, op.id), scope.household;
            var before, after := GetAny(db, h, key), GetAny(Step(db, scope, op).db, h, key);
            && (if op.baseVersion == 0 then before.None?
                else before.Some? && !before.value.deleted && before.value.version == op.baseVersion)
            && after.Some? && !after.value.deleted
            && after.value.version == Step(db, scope, op).result.version == op.baseVersion + 1
  {
    hide ValidateUpsert;
    hide Immutable;
    hide Created;
    hide Replaced;
    hide ReferencedAnywhere;
    hide StorageAccepts;
    hide NameReadFails;
    var d := Decide(db, scope, op);
    SinglePut(Evicted(db, d.evicted), scope, d.writes);
  }

  /** At most one upsert is ever applied per record and base version, whatever
      run lies between the two. */
  lemma OneUpsertPerBase(db: Db, scope: Scope, op: Operation, later: Db, scope2: Scope, op2: Operation)
    requires Invariant(db) && scope.household in db.world.members
    requires FreshlyApplied(db, scope, op) && op.entity.Some? && op.action.Upsert?
    requires Extends(Step(db, scope, op).db, later)
    requires scope2.household == scope.household
    requires op2.entity == op.entity && op2.action.Upsert? && op2.id == op.id && op2.baseVersion == op.baseVersion
    ensures !FreshlyApplied(later, scope2, op2)
  {
    hide Step;
    UpsertMovesOneVersion(db, scope, op);
    StepKeeps(db, scope, op);
    var key := Key(op.entity.value, op.id);
    var after := Step(db, scope, op).db;
    assert Evolves(GetAny(after, scope.household, key).value, GetAny(later, scope.household, key).value);
    if FreshlyApplied(later, scope2, op2) {
      UpsertMovesOneVersion(later, scope2, op2);
    }
  }

  function ChangeCount(log: seq<Change>, household: Id, key: Key): nat
    decreases |log|
  {
    if log == [] then 0
    else
      var c := log[|log| - 1];
      ChangeCount(log[..|log| - 1], household, key) + if c.household == household && c.key == key then 1 else 0
  }

  lemma {:induction false} VersionsCountReplay(log: seq<Change>, household: Id, key: Key)
    requires Chained(log, household)
    ensures key in Replay(log, household) <==> ChangeCount(log, household, key) > 0
    ensures key in Replay(log, household) ==>
              Replay(log, household)[key].version == ChangeCount(log, household, key)
    decreases |log|
  {
    if log != [] {
      var n := |log| - 1;
      forall i | 0 <= i < n && log[..n][i].household == household
        ensures Follows(Replay(log[..n][..i], household), log[..n][i])
      {
        assert log[..n][..i] == log[..i];
      }
      VersionsCountReplay(log[..n], household, key);
      assert log[n].household == household ==> Follows(Replay(log[..n], household), log[n]);
    }
  }

  /** A row's version is the number of its entries in its household's log: no
      write goes unlogged and none is logged twice. */
  lemma VersionCountsChanges(db: Db, household: Id, key: Key)
    requires Invariant(db) && household in db.world.members
    ensures var count := ChangeCount(db.log, household, key);
            match GetAny(db, household, key)
            case None => count == 0
            case Some(row) => row.version == count
  {
    assert Chronicled(db, household);
    VersionsCountReplay(db.log, household, key);
    assert key in Standing(db.rows, household) <==> GetAny(db, household, key).Some?;
  }

  lemma {:induction false} CountGrows(log: seq<Change>, n: nat, household: Id, key: Key)
    requires n <= |log|
    ensures ChangeCount(log[..n], household, key) <= ChangeCount(log, household, key)
    decreases |log|
  {
    if n < |log| {
      assert log[..|log| - 1][..n] == log[..n];
      CountGrows(log[..|log| - 1], n, household, key);
    } else {
      assert log[..n] == log;
    }
  }

  lemma EntryVersionIsCount(log: seq<Change>, household: Id, i: nat)
    requires Chained(log, household) && i < |log| && log[i].household == household
    ensures log[i].version == ChangeCount(log[..i + 1], household, log[i].key)
  {
    forall j | 0 <= j < i && log[..i][j].household == household
      ensures Follows(Replay(log[..i][..j], household), log[..i][j])
    {
      assert log[..i][..j] == log[..j];
    }
    VersionsCountReplay(log[..i], household, log[i].key);
    assert Follows(Replay(log[..i], household), log[i]);
    assert log[..i + 1][..i] == log[..i];
  }

  /** Along the log a record's versions strictly rise. */
  lemma VersionsRiseAlongLog(db: Db, household: Id, i: nat, j: nat)
    requires Invariant(db) && household in db.world.members
    requires i < j < |db.log| && db.log[i].household == db.log[j].household == household
    requires db.log[i].key == db.log[j].key
    ensures db.log[i].version < db.log[j].version
  {
    assert Chronicled(db, household);
    hide Invariant;
    EntryVersionIsCount(db.log, household, i);
    EntryVersionIsCount(db.log, household, j);
    assert db.log[..j + 1][..j] == db.log[..j];
    assert db.log[..j][..i + 1] == db.log[..i + 1];
    CountGrows(db.log[..j], i + 1, household, db.log[i].key);
  }

  // --- Delete wins -------------------------------------------------------------------------------

  /** A tombstone is final: no run of pushes changes the row again. */
  lemma TombstonesAreFinal(db: Db, batches: seq<Batch>, household: Id, key: Key)
    requires Invariant(db) && FromMembers(db.world, batches) && household in db.world.members
    requires GetAny(db, household, key).Some? && GetAny(db, household, key).value.deleted
    ensures GetAny(Run(db, batches), household, key) == GetAny(db, household, key)
  {
    RunKeeps(db, batches);
    assert Evolves(GetAny(db, household, key).value, GetAny(Run(db, batches), household, key).value);
  }

  /** The kinds whose delete no dependant blocks. */
  predicate UnguardedDelete(kind: Kind) {
    kind.TransactionKind? || kind.DebtOperationKind? || kind.PlannedPaymentKind? || kind.DebtorKind?
  }

  lemma DeleteBuries(db: Db, scope: Scope, op: Operation)
    requires RowsOk(db) && scope.household in db.world.members
    requires FreshlyApplied(db, scope, op) && op.entity.Some? && op.action.Delete?
    requires GetAny(db, scope.household, Key(op.entity.value, op.id)).Some?
    ensures var after := GetAny(Step(db, scope, op).db, scope.household, Key(op.entity.value, op.id));
            after.Some? && after.value.deleted
  {
    var key := Key(op.entity.value, op.id);
    hide InUse;
    hide Burials;
    var d := Decide(db, scope, op);
    if IsLive(db, scope.household, key) {
      DecideSound(db, scope, op);
      var cascade := ResolveDelete(key.kind, op.data.deleteOptions).value;
      var keys := Burials(db, scope.household, key, cascade);
      var i :| 0 <= i < |keys| && keys[i] == key;
      assert d.writes[i].key == key;
      BurialOnlyBuries(db, scope, d.writes, key);
      assert d.writes[i].row.deleted;
      PutAllWrites(db, scope, d.writes, i);
    }
  }

  lemma UnguardedDeleteApplies(db: Db, scope: Scope, op: Operation)
    requires !IsReplay(db, scope, op)
    requires op.entity.Some? && op.action.Delete? && UnguardedDelete(op.entity.value)
    ensures FreshlyApplied(db, scope, op)
  {
  }

  /** Delete wins: any batch holding one fresh delete of an existing
      transaction, debt operation, plan or debtor, among whatever other
      operations, leaves it tombstoned. */
  lemma {:induction false} DeleteWins(db: Db, scope: Scope, ops: seq<Operation>, at: nat)
    requires Invariant(db) && scope.household in db.world.members
    requires PushOps(db, scope, ops).Committed? && at < |ops|
    requires ops[at].entity.Some? && ops[at].action.Delete? && UnguardedDelete(ops[at].entity.value)
    requires GetAny(db, scope.household, Key(ops[at].entity.value, ops[at].id)).Some?
    requires PushOps(db, scope, ops[..at]).Committed? ==> !IsReplay(PushOps(db, scope, ops[..at]).db, scope, ops[at])
    ensures var after := GetAny(PushOps(db, scope, ops).db, scope.household, Key(ops[at].entity.value, ops[at].id));
            after.Some? && after.value.deleted
    decreases |ops|
  {
    hide Step;
    hide Invariant;
    hide Extends;
    hide RowsOk;
    hide IsReplay;
    var n := |ops| - 1;
    var front := ops[..n];
    var key := Key(ops[at].entity.value, ops[at].id);
    PushOpsKeeps(db, scope, front);
    var mid := PushOps(db, scope, front).db;
    StepKeeps(mid, scope, ops[n]);
    InvariantRows(mid);
    RowEvolves(db, mid, scope.household, key);
    var after := PushOps(db, scope, ops).db;
    if at < n {
      assert front[..at] == ops[..at];
      DeleteWins(db, scope, front, at);
      RowEvolves(mid, after, scope.household, key);
    } else {
      UnguardedDeleteApplies(mid, scope, ops[n]);
      DeleteBuries(mid, scope, ops[n]);
    }
  }

  lemma {:induction false} RunSplits(db: Db, xs: seq<Batch>, ys: seq<Batch>)
    ensures Run(db, xs + ys) == Run(Run(db, xs), ys)
    decreases |ys|
  {
    hide Push;
    if ys == [] {
      assert xs + ys == xs;
    } else {
      RunSplits(db, xs, ys[..|ys| - 1]);
      assert (xs + ys)[..|xs + ys| - 1] == xs + ys[..|ys| - 1];
    }
  }

  /** And so does any run: once one committed batch held the delete, the record
      is tombstoned at the end, whatever came before, beside or after it. */
  lemma DeleteWinsInRun(db: Db, earlier: seq<Batch>, batch: Batch, later: seq<Batch>, at: nat)
    requires Invariant(db) && FromMembers(db.world, earlier + ([batch] + later)) && at < |batch.ops|
    requires var mid, h := Run(db, earlier), batch.scope.household;
             var op := batch.ops[at];
             && PushOps(mid, batch.scope, batch.ops).Committed?
             && op.entity.Some? && op.action.Delete? && UnguardedDelete(op.entity.value)
             && GetAny(mid, h, Key(op.entity.value, op.id)).Some?
             && (PushOps(mid, batch.scope, batch.ops[..at]).Committed? ==>
                   !IsReplay(PushOps(mid, batch.scope, batch.ops[..at]).db, batch.scope, op))
    ensures var op := batch.ops[at];
            var row := GetAny(Run(db, earlier + ([batch] + later)), batch.scope.household, Key(op.entity.value, op.id));
            row.Some? && row.value.deleted
  {
    RunKeepsPart(db, earlier, [batch] + later);
    assert ([batch] + later)[0] == batch;
    DeleteWins(Run(db, earlier), batch.scope, batch.ops, at);
    hide PushOps;
    hide Step;
    hide Run;
    hide Invariant;
    hide IsReplay;
    TombstoneSurvives(db, earlier, batch, later, Key(batch.ops[at].entity.value, batch.ops[at].id));
  }

  lemma RunKeepsPart(db: Db, xs: seq<Batch>, ys: seq<Batch>)
    requires Invariant(db) && FromMembers(db.world, xs + ys)
    ensures Invariant(Run(db, xs)) && Run(db, xs).world == db.world && FromMembers(db.world, ys)
  {
    assert forall i :: 0 <= i < |xs| ==> (xs + ys)[i] == xs[i];
    assert forall i :: 0 <= i < |ys| ==> (xs + ys)[|xs| + i] == ys[i];
    RunKeeps(db, xs);
  }

  lemma TombstoneSurvives(db: Db, earlier: seq<Batch>, batch: Batch, later: seq<Batch>, key: Key)
    requires Invariant(db) && FromMembers(db.world, earlier + ([batch] + later))
    requires var row := GetAny(Push(Run(db, earlier), batch), batch.scope.household, key);
             row.Some? && row.value.deleted
    ensures var row := GetAny(Run(db, earlier + ([batch] + later)), batch.scope.household, key);
            row.Some? && row.value.deleted
  {
    hide Push;
    assert earlier + ([batch] + later) == (earlier + [batch]) + later;
    RunSplits(db, earlier + [batch], later);
    RunOne(db, earlier, batch);
    RunKeepsPart(db, earlier + [batch], later);
    assert (earlier + ([batch] + later))[|earlier|] == batch;
    TombstonesAreFinal(Run(db, earlier + [batch]), later, batch.scope.household, key);
  }

  lemma WorldKept(before: Db, after: Db)
    requires Extends(before, after)
    ensures after.world == before.world
  {
  }

  lemma RunOne(db: Db, earlier: seq<Batch>, batch: Batch)
    ensures Run(db, earlier + [batch]) == Push(Run(db, earlier), batch)
  {
    assert (earlier + [batch])[..|earlier|] == earlier;
  }

  // --- One rebase is enough -------------------------------------------------------------------------

  lemma RebasedValidatesTheSame(db: Db, household: Id, op: Operation, kind: Kind, opId: Id, base: int)
    ensures ValidateUpsert(db, household, op.(opId := opId, baseVersion := base), kind)
            == ValidateUpsert(db, household, op, kind)
  {
  }

  /** After a version conflict on a live row, pushing the same data again on the
      version the server reported, with a fresh opId and no write between, is
      applied, unless the tables refuse the data (a text with a NUL, an unknown
      account currency, a name too long to index): then the version conflict came
      before the store saw it, and the second push takes its batch down. */
  lemma OneRebaseIsEnough(db: Db, scope: Scope, op: Operation, opId: Id, message: string, server: ServerState)
    requires RowsOk(db)
    requires op.entity.Some? && op.action.Upsert?
    requires Decide(db, scope, op) == Refuse(Conflict(op.opId, VersionConflict, message, Some(server)))
    requires server.data.Some?
    ensures var again := op.(opId := opId, baseVersion := server.version);
            var data := Decode(op.entity.value, op.data);
            !IsReplay(db, scope, again) && data.Some? ==>
              if StorageAccepts(db.world, data.value)
              then Step(db, scope, again).Stepped?
                   && Step(db, scope, again).result == Applied(opId, server.version + 1)
              else Step(db, scope, again).Failed?
  {
    RebasedValidatesTheSame(db, scope.household, op, op.entity.value, opId, server.version);
    hide ValidateUpsert;
    hide Immutable;
    hide StorageAccepts;
    hide NameReadFails;
    hide ReferencedAnywhere;
  }

  // --- Whose records a push may touch -----------------------------------------------------------------

  lemma OnlyOwnLogEntries(db: Db, scope: Scope, op: Operation, i: nat)
    requires Step(db, scope, op).Stepped?
    requires |db.log| <= i < |Step(db, scope, op).db.log|
    ensures Step(db, scope, op).db.log[i].household == scope.household
  {
    hide Decide;
    if !IsReplay(db, scope, op) {
      var d := Decide(db, scope, op);
      if d.Commit? {
        PutAllLog(Evicted(db, d.evicted), scope, d.writes);
        var j := i - |db.log|;
        assert Step(db, scope, op).db.log[|db.log| + j] == ChangeOf(db.nextSeq + j, scope, d.writes[j]);
      }
    }
  }

  /** A record of another household is out of reach of every operation, but for
      one case: a base-0 create takes over an id whose household has no members
      left, and then starts it afresh at version 1. */
  lemma OthersOutOfReach(db: Db, scope: Scope, op: Operation, key: Key)
    requires RowsOk(db) && scope.household in db.world.members
    requires key in db.rows && db.rows[key].owner != scope.household
    requires Step(db, scope, op).Stepped?
    ensures var after := Step(db, scope, op).db;
            && key in after.rows
            && (after.rows[key] == db.rows[key]
                || (&& db.rows[key].owner !in db.world.members
                    && op.entity == Some(key.kind) && op.id == key.id && op.action.Upsert? && op.baseVersion == 0
                    && after.rows[key].owner == scope.household && after.rows[key].version == 1))
  {
    if !IsReplay(db, scope, op) && Decide(db, scope, op).Commit? {
      DecideSound(db, scope, op);
      var d := Decide(db, scope, op);
      if d.evicted == Some(key) {
        EvictionIsACreate(db, scope, op);
        SinglePut(Evicted(db, d.evicted), scope, d.writes);
      } else {
        OthersNotWritten(Evicted(db, d.evicted), scope.household, d.writes, key);
        PutAllFrame(Evicted(db, d.evicted), scope, d.writes, key);
      }
    }
  }

  lemma OthersNotWritten(db: Db, household: Id, ws: seq<Write>, key: Key)
    requires LegalWrites(db, household, ws) && key in db.rows && db.rows[key].owner != household
    ensures !Writes(ws, key)
  {
    assert forall i :: 0 <= i < |ws| ==> LegalWrite(db, household, ws[i]);
  }

  lemma EvictionIsACreate(db: Db, scope: Scope, op: Operation)
    requires Decide(db, scope, op).Commit? && Decide(db, scope, op).evicted.Some?
    ensures var d := Decide(db, scope, op);
            && op.action.Upsert? && op.baseVersion == 0 && op.entity.Some?
            && d.evicted == Some(Key(op.entity.value, op.id))
            && |d.writes| == 1 && d.writes[0].key == d.evicted.value
            && d.writes[0].row.owner == scope.household && d.writes[0].row.version == 1
  {
    hide ValidateUpsert;
    hide ReferencedAnywhere;
    hide StorageAccepts;
    hide NameReadFails;
  }
}
