/** What every operation, batch and run keeps. */
module Preservation {
  import opened Domain
  import opened Database
  import opened WriteRules
  import opened Chronicle
  import opened Engine
  import opened Integrity

  // --- One commit -----------------------------------------------------------------------------

  function AfterWrites(db: Db, scope: Scope, evicted: Option<Key>, ws: seq<Write>): Db {
    PutAll(Evicted(db, evicted), scope, ws)
  }

  ghost predicate IsUpsert(ws: seq<Write>) {
    |ws| == 1 && !ws[0].row.deleted
  }

  lemma SinglePut(db: Db, scope: Scope, ws: seq<Write>)
    requires |ws| == 1
    ensures PutAll(db, scope, ws) == Put(db, scope, ws[0])
  {
    assert PutAll(db, scope, ws[..0]) == db;
  }

  lemma UpsertLiveGrows(db: Db, scope: Scope, evicted: Option<Key>, ws: seq<Write>, household: Id, k: Key)
    requires SoundCommit(db, scope, evicted, ws) && IsUpsert(ws)
    requires household in db.world.members && IsLive(db, household, k)
    ensures IsLive(AfterWrites(db, scope, evicted, ws), household, k)
  {
    SinglePut(Evicted(db, evicted), scope, ws);
  }

  lemma UpsertKeepsRefs(db: Db, scope: Scope, evicted: Option<Key>, ws: seq<Write>)
    requires SoundCommit(db, scope, evicted, ws) && IsUpsert(ws) && RefsOk(db)
    ensures RefsOk(AfterWrites(db, scope, evicted, ws))
  {
    var after := AfterWrites(db, scope, evicted, ws);
    SinglePut(Evicted(db, evicted), scope, ws);
    forall k, t | k in after.rows && after.rows[k].owner in after.world.members && !after.rows[k].deleted
                  && RefersTo(after.rows[k].state, t)
      ensures IsLive(after, after.rows[k].owner, t)
    {
      var h := after.rows[k].owner;
      assert IsLive(db, h, t);
      UpsertLiveGrows(db, scope, evicted, ws, h, t);
    }
  }

  lemma UpsertKeepsNames(db: Db, scope: Scope, evicted: Option<Key>, ws: seq<Write>)
    requires SoundCommit(db, scope, evicted, ws) && IsUpsert(ws) && NamesOk(db)
    ensures NamesOk(AfterWrites(db, scope, evicted, ws))
  {
    var after := AfterWrites(db, scope, evicted, ws);
    SinglePut(Evicted(db, evicted), scope, ws);
    var w := ws[0];
    forall h, j, k, kind, name | h in db.world.members
        && NameHeldBy(after, h, j, kind, name) && NameHeldBy(after, h, k, kind, name)
      ensures j == k
    {
      assert j != w.key ==> NameHeldBy(db, h, j, kind, name);
      assert k != w.key ==> NameHeldBy(db, h, k, kind, name);
    }
  }

  /** A row live after a burial was live, with the same state, before. */
  lemma BurialOnlyBuries(db: Db, scope: Scope, ws: seq<Write>, k: Key)
    requires LegalWrites(db, scope.household, ws) && SoundBurial(db, scope.household, ws)
    ensures var after := PutAll(db, scope, ws);
            && (k in after.rows <==> k in db.rows)
            && (k in db.rows && !Writes(ws, k) ==> after.rows[k] == db.rows[k])
            && (Writes(ws, k) ==> k in after.rows && after.rows[k].deleted && db.rows[k].owner == scope.household)
  {
    if Writes(ws, k) {
      var i :| 0 <= i < |ws| && ws[i].key == k;
      PutAllWrites(db, scope, ws, i);
      assert LegalWrite(db, scope.household, ws[i]);
    } else {
      PutAllFrame(db, scope, ws, k);
    }
  }

  lemma BurialKeepsRefs(db: Db, scope: Scope, ws: seq<Write>)
    requires LegalWrites(db, scope.household, ws) && SoundBurial(db, scope.household, ws) && RefsOk(db)
    ensures RefsOk(PutAll(db, scope, ws))
  {
    var after := PutAll(db, scope, ws);
    PutAllKeepsTheRest(db, scope, ws);
    forall k, t | k in after.rows && after.rows[k].owner in after.world.members && !after.rows[k].deleted
                  && RefersTo(after.rows[k].state, t)
      ensures IsLive(after, after.rows[k].owner, t)
    {
      BurialOnlyBuries(db, scope, ws, k);
      BurialOnlyBuries(db, scope, ws, t);
      assert IsLive(db, after.rows[k].owner, t);
    }
  }

  lemma UpsertKeepsHome(db: Db, scope: Scope, evicted: Option<Key>, ws: seq<Write>)
    requires SoundCommit(db, scope, evicted, ws) && IsUpsert(ws) && HomeOk(db)
    ensures HomeOk(AfterWrites(db, scope, evicted, ws))
  {
    var after := AfterWrites(db, scope, evicted, ws);
    SinglePut(Evicted(db, evicted), scope, ws);
    var w := ws[0];
    assert LegalWrite(Evicted(db, evicted), scope.household, w);
    forall k, t | k in after.rows && RefersTo(after.rows[k].state, t)
      ensures t in after.rows && after.rows[t].owner == after.rows[k].owner
    {
      assert k == w.key ==> IsLive(db, scope.household, t);
    }
  }

  lemma BurialKeepsHome(db: Db, scope: Scope, ws: seq<Write>)
    requires LegalWrites(db, scope.household, ws) && SoundBurial(db, scope.household, ws) && HomeOk(db)
    ensures HomeOk(PutAll(db, scope, ws))
  {
    hide SoundBurial;
    hide LegalWrites;
    var after := PutAll(db, scope, ws);
    forall k, t | k in after.rows && RefersTo(after.rows[k].state, t)
      ensures t in after.rows && after.rows[t].owner == after.rows[k].owner
    {
      BurialKeepsState(db, scope, ws, k);
      BurialKeepsState(db, scope, ws, t);
    }
  }

  lemma BurialKeepsState(db: Db, scope: Scope, ws: seq<Write>, k: Key)
    requires LegalWrites(db, scope.household, ws) && SoundBurial(db, scope.household, ws)
    ensures var after := PutAll(db, scope, ws);
            && (k in after.rows <==> k in db.rows)
            && (k in db.rows ==> after.rows[k].state == db.rows[k].state && after.rows[k].owner == db.rows[k].owner)
  {
    BurialOnlyBuries(db, scope, ws, k);
    if Writes(ws, k) {
      var i :| 0 <= i < |ws| && ws[i].key == k;
      PutAllWrites(db, scope, ws, i);
    }
  }

  lemma BurialKeepsNames(db: Db, scope: Scope, ws: seq<Write>)
    requires LegalWrites(db, scope.household, ws) && SoundBurial(db, scope.household, ws) && NamesOk(db)
    ensures NamesOk(PutAll(db, scope, ws))
  {
    var after := PutAll(db, scope, ws);
    PutAllKeepsTheRest(db, scope, ws);
    forall h, j, k, kind, name | h in db.world.members
        && NameHeldBy(after, h, j, kind, name) && NameHeldBy(after, h, k, kind, name)
      ensures j == k
    {
      BurialOnlyBuries(db, scope, ws, j);
      BurialOnlyBuries(db, scope, ws, k);
      assert NameHeldBy(db, h, j, kind, name) && NameHeldBy(db, h, k, kind, name);
    }
  }

  lemma CommitKeepsInvariant(db: Db, scope: Scope, evicted: Option<Key>, ws: seq<Write>)
    requires Invariant(db) && SoundCommit(db, scope, evicted, ws)
    ensures Invariant(AfterWrites(db, scope, evicted, ws))
  {
    if evicted.Some? {
      EvictAgrees(db, evicted.value);
    }
    PutAllAgrees(Evicted(db, evicted), scope, ws);
    PutAllKeepsTheRest(Evicted(db, evicted), scope, ws);
    if IsUpsert(ws) {
      UpsertKeepsRefs(db, scope, evicted, ws);
      UpsertKeepsNames(db, scope, evicted, ws);
      UpsertKeepsHome(db, scope, evicted, ws);
    } else {
      BurialKeepsRefs(db, scope, ws);
      BurialKeepsNames(db, scope, ws);
      BurialKeepsHome(db, scope, ws);
    }
  }

  // --- How a database grows ---------------------------------------------------------------------

  /** No log entry since position n names the household's record. */
  ghost predicate Untouched(log: seq<Change>, n: nat, household: Id, key: Key) {
    forall i :: n <= i < |log| ==> log[i].household != household || log[i].key != key
  }

  ghost predicate RowsEvolve(before: Db, after: Db) {
    forall h, k :: h in before.world.members && GetAny(before, h, k).Some? ==>
      GetAny(after, h, k).Some? && Evolves(GetAny(before, h, k).value, GetAny(after, h, k).value)
  }

  ghost predicate LogExplains(before: Db, after: Db) {
    forall h, k :: h in before.world.members && Untouched(after.log, |before.log|, h, k) ==>
      GetAny(after, h, k) == GetAny(before, h, k)
  }

  /** No log entry since position n writes the household's record anew. */
  ghost predicate NotRewritten(log: seq<Change>, n: nat, household: Id, key: Key) {
    forall i :: n <= i < |log| ==> log[i].household != household || log[i].key != key || log[i].tombstone
  }

  ghost predicate LogExplainsStates(before: Db, after: Db) {
    forall h, k :: h in before.world.members && GetAny(before, h, k).Some? && NotRewritten(after.log, |before.log|, h, k) ==>
      GetAny(after, h, k).Some? && GetAny(after, h, k).value.state == GetAny(before, h, k).value.state
  }

  predicate AppliedGrows(before: Db, after: Db) {
    forall o :: o in before.applied ==> o in after.applied && after.applied[o] == before.applied[o]
  }

  /** A later database of the same server: the log and the idempotency table
      only grow, member households' rows only evolve, and only where the log
      says so. */
  ghost predicate Extends(before: Db, after: Db) {
    && after.world == before.world
    && before.nextSeq <= after.nextSeq
    && |before.log| <= |after.log| && after.log[..|before.log|] == before.log
    && (forall i :: |before.log| <= i < |after.log| ==> after.log[i].seqNo >= before.nextSeq)
    && AppliedGrows(before, after)
    && RowsEvolve(before, after)
    && LogExplains(before, after)
    && LogExplainsStates(before, after)
  }

  lemma EvolvesItself(row: Row)
    ensures Evolves(row, row)
  {
    SameAsItself(row.state);
  }

  lemma EvolvesTransitive(a: Row, b: Row, c: Row)
    requires Evolves(a, b) && Evolves(b, c)
    ensures Evolves(a, c)
  {
  }

  lemma ExtendsItself(db: Db)
    ensures Extends(db, db)
  {
    forall h, k | GetAny(db, h, k).Some? ensures Evolves(GetAny(db, h, k).value, GetAny(db, h, k).value) {
      EvolvesItself(GetAny(db, h, k).value);
    }
  }

  lemma ExtendsTransitive(a: Db, b: Db, c: Db)
    requires Extends(a, b) && Extends(b, c)
    ensures Extends(a, c)
  {
    assert c.log[..|a.log|] == c.log[..|b.log|][..|a.log|];
    forall i | |a.log| <= i < |c.log| ensures c.log[i].seqNo >= a.nextSeq {
      assert i < |b.log| ==> c.log[..|b.log|][i] == b.log[i];
    }
    forall h, k | h in a.world.members && GetAny(a, h, k).Some?
      ensures GetAny(c, h, k).Some? && Evolves(GetAny(a, h, k).value, GetAny(c, h, k).value)
    {
      EvolvesTransitive(GetAny(a, h, k).value, GetAny(b, h, k).value, GetAny(c, h, k).value);
    }
    forall h, k | h in a.world.members && Untouched(c.log, |a.log|, h, k)
      ensures GetAny(c, h, k) == GetAny(a, h, k)
    {
      forall i | |a.log| <= i < |b.log| ensures b.log[i].household != h || b.log[i].key != k {
        assert c.log[..|b.log|][i] == b.log[i];
      }
      assert Untouched(b.log, |a.log|, h, k) && Untouched(c.log, |b.log|, h, k);
    }
    StatesTransitive(a, b, c);
  }

  lemma StatesTransitive(a: Db, b: Db, c: Db)
    requires LogExplainsStates(a, b) && LogExplainsStates(b, c)
    requires a.world == b.world && |a.log| <= |b.log| <= |c.log| && c.log[..|b.log|] == b.log
    ensures LogExplainsStates(a, c)
  {
    forall h, k | h in a.world.members && GetAny(a, h, k).Some? && NotRewritten(c.log, |a.log|, h, k)
      ensures GetAny(c, h, k).Some? && GetAny(c, h, k).value.state == GetAny(a, h, k).value.state
    {
      forall i | |a.log| <= i < |b.log| ensures b.log[i].household != h || b.log[i].key != k || b.log[i].tombstone {
        assert c.log[..|b.log|][i] == b.log[i];
      }
      assert NotRewritten(b.log, |a.log|, h, k) && NotRewritten(c.log, |b.log|, h, k);
    }
  }

  /** One row across a stretch of history. */
  lemma RowEvolves(before: Db, after: Db, household: Id, key: Key)
    requires Extends(before, after) && household in before.world.members
    requires GetAny(before, household, key).Some?
    ensures GetAny(after, household, key).Some?
    ensures Evolves(GetAny(before, household, key).value, GetAny(after, household, key).value)
  {
  }

  lemma PutExtends(db: Db, scope: Scope, w: Write)
    requires LegalWrite(db, scope.household, w) && scope.household in db.world.members
    ensures Extends(db, Put(db, scope, w))
  {
    var after := Put(db, scope, w);
    forall h, k | h in db.world.members && GetAny(db, h, k).Some?
      ensures GetAny(after, h, k).Some? && Evolves(GetAny(db, h, k).value, GetAny(after, h, k).value)
    {
      EvolvesItself(GetAny(db, h, k).value);
    }
    forall h, k | h in db.world.members && Untouched(after.log, |db.log|, h, k)
      ensures GetAny(after, h, k) == GetAny(db, h, k)
    {
      assert after.log[|db.log|] == ChangeOf(db.nextSeq, scope, w);
    }
  }

  lemma {:induction false} PutAllExtends(db: Db, scope: Scope, ws: seq<Write>)
    requires LegalWrites(db, scope.household, ws) && scope.household in db.world.members
    ensures Extends(db, PutAll(db, scope, ws))
    decreases |ws|
  {
    if ws == [] {
      ExtendsItself(db);
    } else {
      var front := ws[..|ws| - 1];
      LegalAfter(db, scope, ws);
      PutAllExtends(db, scope, front);
      PutExtends(PutAll(db, scope, front), scope, ws[|ws| - 1]);
      ExtendsTransitive(db, PutAll(db, scope, front), PutAll(db, scope, ws));
    }
  }

  lemma EvictExtends(db: Db, key: Key)
    requires key in db.rows && db.rows[key].owner !in db.world.members
    ensures Extends(db, Evict(db, key))
  {
    forall h, k | h in db.world.members && GetAny(db, h, k).Some?
      ensures GetAny(Evict(db, key), h, k) == GetAny(db, h, k)
    {
      EvolvesItself(GetAny(db, h, k).value);
    }
    forall h, k | h in db.world.members && GetAny(db, h, k).Some?
      ensures Evolves(GetAny(db, h, k).value, GetAny(Evict(db, key), h, k).value)
    {
      EvolvesItself(GetAny(db, h, k).value);
    }
  }

  lemma CommitExtends(db: Db, scope: Scope, evicted: Option<Key>, ws: seq<Write>)
    requires SoundCommit(db, scope, evicted, ws)
    ensures Extends(db, AfterWrites(db, scope, evicted, ws))
  {
    if evicted.Some? {
      EvictExtends(db, evicted.value);
    } else {
      ExtendsItself(db);
    }
    PutAllExtends(Evicted(db, evicted), scope, ws);
    ExtendsTransitive(db, Evicted(db, evicted), AfterWrites(db, scope, evicted, ws));
  }

  lemma RecordExtends(db: Db, opKey: OpKey, result: PushResult)
    requires opKey !in db.applied
    ensures Extends(db, Record(db, opKey, result))
  {
    ExtendsItself(db);
  }

  // --- Operations, batches, runs ------------------------------------------------------------------

  /** Every operation keeps the invariant and only extends the database. */
  lemma StepKeeps(db: Db, scope: Scope, op: Operation)
    requires Invariant(db) && scope.household in db.world.members
    requires Step(db, scope, op).Stepped?
    ensures var after := Step(db, scope, op).db;
            Invariant(after) && Extends(db, after)
  {
    hide Decide;
    ExtendsItself(db);
    if !IsReplay(db, scope, op) {
      var d := Decide(db, scope, op);
      if d.Commit? {
        DecideSound(db, scope, op);
        CommitKeepsInvariant(db, scope, d.evicted, d.writes);
        CommitExtends(db, scope, d.evicted, d.writes);
        var mid := AfterWrites(db, scope, d.evicted, d.writes);
        PutAllKeepsTheRest(Evicted(db, d.evicted), scope, d.writes);
        var opKey, result := OpKey(scope.household, op.opId), Applied(op.opId, d.version);
        RecordExtends(mid, opKey, result);
        ExtendsTransitive(db, mid, Record(mid, opKey, result));
        RecordKeepsInvariant(mid, opKey, result);
      }
    }
  }

  lemma RecordKeepsInvariant(db: Db, opKey: OpKey, result: PushResult)
    requires Invariant(db) && result.Applied? && result.opId == opKey.opId
    ensures Invariant(Record(db, opKey, result))
  {
    SameTablesSameInvariant(db, Record(db, opKey, result));
  }

  /** Rows, log and membership alone decide the invariant, given a sequence not
      behind and a sound idempotency table. */
  lemma SameTablesSameInvariant(db: Db, after: Db)
    requires Invariant(db)
    requires after.world == db.world && after.rows == db.rows && after.log == db.log
    requires after.nextSeq >= db.nextSeq && AppliedOk(after)
    ensures Invariant(after)
  {
    SameTablesSameRefs(db, after);
    hide AppliedOk;
    forall h | h in after.world.members ensures Chronicled(after, h) {
      assert Chronicled(db, h);
    }
  }

  lemma SameTablesSameRefs(db: Db, after: Db)
    requires after.world == db.world && after.rows == db.rows
    ensures RefsOk(db) ==> RefsOk(after)
    ensures NamesOk(db) ==> NamesOk(after)
    ensures HomeOk(db) ==> HomeOk(after)
    ensures RowsOk(db) ==> RowsOk(after)
  {
    assert forall h, k :: IsLive(after, h, k) == IsLive(db, h, k);
    forall h, state | RefsLive(db, h, state) ensures RefsLive(after, h, state) {
    }
    forall h, k, kind, name ensures NameHeldBy(after, h, k, kind, name) == NameHeldBy(db, h, k, kind, name) {
    }
    hide NameHeldBy;
    hide RefsLive;
    hide IsLive;
    hide StoredShape;
  }

  lemma {:induction false} PushOpsKeeps(db: Db, scope: Scope, ops: seq<Operation>)
    requires Invariant(db) && scope.household in db.world.members
    ensures match PushOps(db, scope, ops)
            case Committed(after, results) => Invariant(after) && Extends(db, after) && |results| == |ops|
            case RolledBack(burned) => db.nextSeq <= burned
    decreases |ops|
  {
    if ops == [] {
      ExtendsItself(db);
    } else {
      var front := ops[..|ops| - 1];
      PushOpsKeeps(db, scope, front);
      var before := PushOps(db, scope, front);
      if before.Committed? && Step(before.db, scope, ops[|ops| - 1]).Stepped? {
        StepKeeps(before.db, scope, ops[|ops| - 1]);
        ExtendsTransitive(db, before.db, PushOps(db, scope, ops).db);
      }
    }
  }

  /** A rolled-back batch leaves a gap in the sequence and nothing else. */
  lemma BurnKeeps(db: Db, burned: nat)
    requires Invariant(db) && db.nextSeq <= burned
    ensures var after := db.(nextSeq := burned);
            Invariant(after) && Extends(db, after)
  {
    var after := db.(nextSeq := burned);
    SameTablesSameInvariant(db, after);
    hide Invariant;
    ExtendsItself(db);
    forall h, k ensures GetAny(after, h, k) == GetAny(db, h, k) {
    }
    hide GetAny;
    hide Evolves;
  }

  lemma PushKeeps(db: Db, batch: Batch)
    requires Invariant(db) && batch.scope.household in db.world.members
    ensures Invariant(Push(db, batch)) && Extends(db, Push(db, batch))
  {
    PushOpsKeeps(db, batch.scope, batch.ops);
    match PushOps(db, batch.scope, batch.ops)
    case Committed(_, _) =>
    case RolledBack(burned) => BurnKeeps(db, burned);
  }

  /** Every run of push batches keeps the invariant and only extends the
      database. */
  lemma {:induction false} RunKeeps(db: Db, batches: seq<Batch>)
    requires Invariant(db) && FromMembers(db.world, batches)
    ensures Invariant(Run(db, batches)) && Extends(db, Run(db, batches))
    decreases |batches|
  {
    if batches == [] {
      ExtendsItself(db);
    } else {
      var front := batches[..|batches| - 1];
      RunKeeps(db, front);
      var mid := Run(db, front);
      PushKeeps(mid, batches[|batches| - 1]);
      ExtendsTransitive(db, mid, Run(db, batches));
    }
  }

  /** A new server: no rows, no log, nothing applied. */
  function Empty(world: World): Db {
    Db(world, map[], [], map[], 1)
  }

  lemma EmptyIsInvariant(world: World)
    ensures Invariant(Empty(world))
  {
    forall h ensures Chronicled(Empty(world), h) {
      assert Standing(map[], h) == map[];
    }
  }
}
