/** The store of one open batch transaction and the push service over it, as
    they run: rows, log and idempotency table updated in place
    (backend/internal/repository/postgres/sync.go, backend/internal/service/sync.go
    and sync_engine.go). Every method is tied to the functions of Engine. */
module Service {
  import opened Domain
  import opened Database
  import opened Adapters
  import opened Engine
  import opened Integrity
  import opened Preservation
  import opened Protocol
  import opened Replica

  /** What a store write reports. StorageError is any failure the engine has no
      per-item answer for. */
  datatype WriteOutcome =
    | Written(version: nat)
    | NotFound
    | RecordDeleted
    | VersionMismatch
    | AlreadyTaken
    | StorageError

  datatype AdoptOutcome = FreeToCreate | Blocked(state: ServerState) | AdoptError

  /** The partial unique index on a household's live names. */
  predicate NameIndexHit(db: Db, household: Id, key: Key, state: FullState) {
    NameOf(state).Some? &&
    exists k :: k in db.rows && k != key && NameHeldBy(db, household, k, key.kind, NameOf(state).value)
  }

  class SyncTx {
    const world: World
    var rows: map<Key, Row>
    var log: seq<Change>
    var applied: map<OpKey, PushResult>
    var nextSeq: nat

    ghost function State(): Db
      reads this
    {
      Db(world, rows, log, applied, nextSeq)
    }

    constructor (world: World)
      ensures State() == Empty(world)
    {
      this.world := world;
      rows, log, applied, nextSeq := map[], [], map[], 1;
    }

    // --- reads ---------------------------------------------------------------------

    method GetAppliedOperation(scope: Scope, opId: Id) returns (stored: Option<PushResult>)
      ensures stored.Some? <==> OpKey(scope.household, opId) in applied
      ensures stored.Some? ==> stored.value == applied[OpKey(scope.household, opId)]
    {
      var opKey := OpKey(scope.household, opId);
      if opKey in applied {
        return Some(applied[opKey]);
      }
      return None;
    }

    method GetRowAny(scope: Scope, key: Key) returns (row: Option<Row>)
      ensures row == GetAny(State(), scope.household, key)
    {
      if key in rows && rows[key].owner == scope.household {
        return Some(rows[key]);
      }
      return None;
    }

    /** One page of the change log, scanned in sequence order. */
    method PullChanges(household: Id, after: nat, limit: nat) returns (page: seq<Change>)
      ensures page == PullChangeLog(log, household, after, limit)
    {
      page := [];
      var i := 0;
      while i < |log| && |page| < limit
        invariant 0 <= i <= |log| && |page| <= limit
        invariant page + PullChangeLog(log[i..], household, after, limit - |page|)
               == PullChangeLog(log, household, after, limit)
      {
        PullStep(log, household, after, limit - |page|, i);
        hide PullChangeLog;
        if log[i].household == household && log[i].seqNo > after {
          TakeFirst(page, log[i], PullChangeLog(log[i + 1..], household, after, limit - |page| - 1));
          page := page + [log[i]];
        }
        i := i + 1;
      }
      PullStep(log, household, after, limit - |page|, i);
      assert page + [] == page;
    }

    /** The store mints random UUIDs. This takes the first free id; callers learn
        only that it is not in use. */
    method NewEntityId(kind: Kind) returns (id: Id)
      ensures Key(kind, id) !in rows
    {
      id := 1;
      while Key(kind, id) in rows
        decreases set k | k in rows && k.id >= id
      {
        ghost var left := set k | k in rows && k.id >= id + 1;
        assert Key(kind, id) !in left && left < (set k | k in rows && k.id >= id);
        id := id + 1;
      }
    }

    // --- writes: one row and its log entry -----------------------------------------

    method AppendChangeLog(scope: Scope, key: Key, tombstone: bool, version: nat)
      modifies this`log, this`nextSeq
      ensures log == old(log) + [Change(old(nextSeq), scope.household, scope.actor, key, tombstone, version)]
      ensures nextSeq == old(nextSeq) + 1
    {
      log := log + [Change(nextSeq, scope.household, scope.actor, key, tombstone, version)];
      nextSeq := nextSeq + 1;
    }

    method CreateRow(scope: Scope, key: Key, data: FullState) returns (outcome: WriteOutcome)
      modifies this
      ensures if !StorageAccepts(world, data) then outcome == StorageError && State() == old(State())
              else if old(key in rows || NameIndexHit(State(), scope.household, key, data)) then
                outcome == AlreadyTaken && State() == old(State())
              else
                && outcome == Written(1)
                && State() == Put(old(State()), scope,
                                  Write(key, Row(scope.household, scope.actor, 1, false,
                                                 Created(old(State()), scope.household, data))))
    {
      if !StorageAccepts(world, data) {
        return StorageError;
      }
      var db := Db(world, rows, log, applied, nextSeq);
      if key in rows || NameIndexHit(db, scope.household, key, data) {
        return AlreadyTaken;
      }
      var row := Row(scope.household, scope.actor, 1, false, Created(db, scope.household, data));
      rows := rows[key := row];
      AppendChangeLog(scope, key, false, row.version);
      return Written(row.version);
    }

    /** Full-state compare-and-swap: applies to a live row of the household at
        exactly the base version, and says why when it does not. A text the
        database cannot hold fails before any row is looked at. */
    method ReplaceRow(scope: Scope, key: Key, baseVersion: int, data: FullState) returns (outcome: WriteOutcome)
      modifies this
      ensures var current := old(GetAny(State(), scope.household, key));
              if !TextsStorable(data) then outcome == StorageError && State() == old(State())
              else if current.None? then outcome == NotFound && State() == old(State())
              else if current.value.deleted then outcome == RecordDeleted && State() == old(State())
              else if current.value.version != baseVersion then outcome == VersionMismatch && State() == old(State())
              else if !StorageAccepts(world, data) || old(NameIndexHit(State(), scope.household, key, data)) then
                outcome == StorageError && State() == old(State())
              else
                && outcome == Written(current.value.version + 1)
                && State() == Put(old(State()), scope,
                                  Write(key, current.value.(version := current.value.version + 1,
                                                            state := Replaced(current.value.state, data))))
    {
      if !TextsStorable(data) {
        return StorageError;
      }
      var current := GetRowAny(scope, key);
      if current.None? {
        return NotFound;
      }
      if current.value.deleted {
        return RecordDeleted;
      }
      if current.value.version != baseVersion {
        return VersionMismatch;
      }
      if !StorageAccepts(world, data) || NameIndexHit(Db(world, rows, log, applied, nextSeq), scope.household, key, data) {
        return StorageError;
      }
      var row := current.value.(version := current.value.version + 1, state := Replaced(current.value.state, data));
      rows := rows[key := row];
      AppendChangeLog(scope, key, false, row.version);
      return Written(row.version);
    }

    /** The auto-confirm advance: no version check, because the sweep owns the
        row under the household's lock. */
    method AdvancePlannedPayment(scope: Scope, key: Key, nextDue: CivilDate) returns (outcome: WriteOutcome)
      modifies this
      ensures var current := old(GetAny(State(), scope.household, key));
              if current.None? || current.value.deleted || !current.value.state.OfPlan?
              then outcome == NotFound && State() == old(State())
              else
                && outcome == Written(current.value.version + 1)
                && State() == Put(old(State()), scope,
                                  Write(key, current.value.(
                                          version := current.value.version + 1,
                                          state := OfPlan(current.value.state.plan.(nextDue := nextDue)))))
    {
      var current := GetRowAny(scope, key);
      if current.None? || current.value.deleted || !current.value.state.OfPlan? {
        return NotFound;
      }
      var row := current.value.(version := current.value.version + 1,
                                state := OfPlan(current.value.state.plan.(nextDue := nextDue)));
      rows := rows[key := row];
      AppendChangeLog(scope, key, false, row.version);
      return Written(row.version);
    }

    /** A tombstone and its cascade, each row with its own log entry. */
    method TombstoneRows(scope: Scope, keys: seq<Key>)
      requires forall i, j :: 0 <= i < j < |keys| ==> keys[i] != keys[j]
      requires forall k :: k in keys ==> k in rows
      modifies this
      ensures State() == PutAll(old(State()), scope, BuryAll(old(State()), keys))
    {
      ghost var before := State();
      ghost var ws := BuryAll(before, keys);
      for i := 0 to |keys|
        invariant State() == PutAll(before, scope, ws[..i])
      {
        BuriedNext(before, scope, keys, i);
        rows := rows[keys[i] := Buried(rows[keys[i]])];
        AppendChangeLog(scope, keys[i], true, rows[keys[i]].version);
        assert ws[..i + 1][..i] == ws[..i] && ws[..i + 1][i] == ws[i];
      }
      assert ws[..|keys|] == ws;
    }

    /** The create-time check across households: free, taken by a household with
        members, or an orphan, which is deleted for good unless a foreign key
        holds it. */
    method AdoptOrphanedId(scope: Scope, key: Key) returns (outcome: AdoptOutcome)
      modifies this`rows
      ensures var row := old(rows);
              if key !in row || row[key].owner == scope.household then
                outcome == FreeToCreate && rows == row
              else if row[key].owner in world.members then
                outcome == Blocked(ServerState(row[key].version, row[key].deleted, None)) && rows == row
              else if old(ReferencedAnywhere(State(), key)) then outcome == AdoptError && rows == row
              else outcome == FreeToCreate && rows == row - {key}
    {
      if key !in rows || rows[key].owner == scope.household {
        return FreeToCreate;
      }
      if rows[key].owner in world.members {
        return Blocked(ServerState(rows[key].version, rows[key].deleted, None));
      }
      if ReferencedAnywhere(Db(world, rows, log, applied, nextSeq), key) {
        return AdoptError;
      }
      rows := rows - {key};
      return FreeToCreate;
    }

    method InsertAppliedOperation(scope: Scope, opId: Id, result: PushResult)
      modifies this`applied
      ensures applied == old(applied)[OpKey(scope.household, opId) := result]
    {
      applied := applied[OpKey(scope.household, opId) := result];
    }
  }

  /** The next row of a cascade is still as it was before the cascade began. */
  lemma BuriedNext(db: Db, scope: Scope, keys: seq<Key>, i: nat)
    requires forall i, j :: 0 <= i < j < |keys| ==> keys[i] != keys[j]
    requires forall k :: k in keys ==> k in db.rows
    requires i < |keys|
    ensures var ws := BuryAll(db, keys);
            && keys[i] in PutAll(db, scope, ws[..i]).rows
            && PutAll(db, scope, ws[..i]).rows[keys[i]] == db.rows[keys[i]]
            && ws[i] == Write(keys[i], Buried(db.rows[keys[i]]))
  {
    var ws := BuryAll(db, keys);
    assert keys[i] in keys;
    assert forall j :: 0 <= j < i ==> ws[..i][j].key == keys[j];
    PutAllFrame(db, scope, ws[..i], keys[i]);
  }

  /** What a handler of one operation leaves: the decision carried out, or a
      failure before any sequence value was drawn. None is the batch error. */
  ghost predicate CarriedOut(before: Db, after: Db, scope: Scope, opId: Id, decision: Decision, answer: Option<PushResult>) {
    match decision
    case Refuse(result) => after == before && answer == Some(result)
    case Abort => answer.None? && after.nextSeq == before.nextSeq
    case Commit(evicted, writes, version) =>
      after == PutAll(Evicted(before, evicted), scope, writes) && answer == Some(Applied(opId, version))
  }

  lemma UpdateCarriedOut(before: Db, after: Db, scope: Scope, op: Operation, kind: Kind, data: FullState, row: Row)
    requires GetAny(before, scope.household, Key(kind, op.id)) == Some(row)
    requires !row.deleted && Immutable(row.state, data).None? && row.version == op.baseVersion && StorageAccepts(before.world, data)
    requires after == Put(before, scope, Write(Key(kind, op.id),
                                               row.(version := row.version + 1, state := Replaced(row.state, data))))
    ensures CarriedOut(before, after, scope, op.opId, DecideUpdate(before, scope, op, kind, data),
                       Some(Applied(op.opId, row.version + 1)))
  {
    hide Immutable;
    hide Replaced;
    hide StorageAccepts;
    SinglePut(before, scope, DecideUpdate(before, scope, op, kind, data).writes);
  }

  class SyncService {
    const tx: SyncTx

    constructor (tx: SyncTx)
      ensures this.tx == tx
    {
      this.tx := tx;
    }

    method CreateSyncEntity(scope: Scope, op: Operation, kind: Kind, data: FullState, current: Option<Row>)
      returns (answer: Option<PushResult>)
      requires !NameIndexHit(tx.State(), scope.household, Key(kind, op.id), data)
      requires current == GetAny(tx.State(), scope.household, Key(kind, op.id))
      modifies tx
      ensures CarriedOut(old(tx.State()), tx.State(), scope, op.opId,
                         DecideCreate(old(tx.State()), scope, op, kind, data), answer)
    {
      ghost var before := tx.State();
      var key := Key(kind, op.id);
      if current.Some? {
        var row := current.value;
        return Some(Conflict(op.opId, AlreadyExists, Label(kind) + " already exists",
                             Some(ServerStateOf(row.version, row.deleted, row.state))));
      }
      var adopted := tx.AdoptOrphanedId(scope, key);
      match adopted {
        case AdoptError => return None;
        case Blocked(state) =>
          return Some(Conflict(op.opId, AlreadyExists, Label(kind) + " already exists in another household", Some(state)));
        case FreeToCreate =>
      }
      ghost var d := DecideCreate(before, scope, op, kind, data);
      assert d.Commit? ==> tx.State() == Evicted(before, d.evicted);
      assert !NameIndexHit(tx.State(), scope.household, key, data);
      var outcome := tx.CreateRow(scope, key, data);
      match outcome {
        case Written(version) =>
          SinglePut(Evicted(before, d.evicted), scope, d.writes);
          return Some(Applied(op.opId, version));
        case _ => return None;
      }
    }

    /** The compare-and-swap never loses here: the version was checked on the
        row just read, under the batch's lock. */
    method UpdateSyncEntity(scope: Scope, op: Operation, kind: Kind, data: FullState, current: Option<Row>)
      returns (answer: Option<PushResult>)
      requires !NameIndexHit(tx.State(), scope.household, Key(kind, op.id), data)
      requires current == GetAny(tx.State(), scope.household, Key(kind, op.id))
      modifies tx
      ensures CarriedOut(old(tx.State()), tx.State(), scope, op.opId,
                         DecideUpdate(old(tx.State()), scope, op, kind, data), answer)
    {
      ghost var before := tx.State();
      var key := Key(kind, op.id);
      hide NameIndexHit;
      hide StorageAccepts;
      hide Immutable;
      hide Replaced;
      hide Put;
      hide PutAll;
      hide Label;
      if current.None? {
        return Some(Conflict(op.opId, VersionConflict, Label(kind) + " not found on server",
                             Some(ServerState(0, false, None))));
      }
      var row := current.value;
      if row.deleted {
        return Some(Conflict(op.opId, DeletedConflict, Label(kind) + " was deleted on server",
                             Some(ServerState(row.version, true, None))));
      }
      var frozen := Immutable(row.state, data);
      if frozen.Some? {
        return Some(Rejected(op.opId, frozen.value));
      }
      if row.version != op.baseVersion {
        return Some(Conflict(op.opId, VersionConflict, Label(kind) + " version conflict",
                             Some(ServerStateOf(row.version, false, row.state))));
      }
      var outcome := tx.ReplaceRow(scope, key, op.baseVersion, data);
      match outcome {
        case Written(version) =>
          UpdateCarriedOut(before, tx.State(), scope, op, kind, data, row);
          return Some(Applied(op.opId, version));
        case StorageError => return None;
        case _ => assert false;
      }
    }

    method DeleteSyncEntity(scope: Scope, op: Operation, kind: Kind) returns (answer: Option<PushResult>)
      requires Invariant(tx.State()) && scope.household in tx.world.members
      modifies tx
      ensures CarriedOut(old(tx.State()), tx.State(), scope, op.opId,
                         DecideDelete(old(tx.State()), scope, op, kind), answer)
    {
      hide Invariant;
      hide InUse;
      hide Burials;
      var key := Key(kind, op.id);
      var current := tx.GetRowAny(scope, key);
      if current.None? {
        return Some(Applied(op.opId, 0));
      }
      if current.value.deleted {
        return Some(Applied(op.opId, current.value.version));
      }
      var cascade := ResolveDelete(kind, op.data.deleteOptions);
      if cascade.None? {
        return Some(Rejected(op.opId, ValidationFailed("invalid category delete data")));
      }
      var db := Db(tx.world, tx.rows, tx.log, tx.applied, tx.nextSeq);
      var blocked := InUse(db, scope.household, key, cascade.value);
      if blocked.Some? {
        return Some(Rejected(op.opId, ErrorSpecFor(blocked.value)));
      }
      BurialsAreDistinctAndLive(db, scope.household, key, cascade.value);
      tx.TombstoneRows(scope, Burials(db, scope.household, key, cascade.value));
      return Some(Applied(op.opId, current.value.version + 1));
    }

    method ApplySyncEntity(scope: Scope, op: Operation, kind: Kind) returns (answer: Option<PushResult>)
      requires Invariant(tx.State()) && scope.household in tx.world.members
      requires op.entity == Some(kind)
      modifies tx
      ensures CarriedOut(old(tx.State()), tx.State(), scope, op.opId, Decide(old(tx.State()), scope, op), answer)
    {
      if op.action.Delete? {
        answer := DeleteSyncEntity(scope, op, kind);
        return;
      }
      if !op.action.Upsert? {
        return Some(Rejected(op.opId, ValidationFailed("unknown action")));
      }
      var data := Decode(kind, op.data);
      if data.None? {
        return Some(Rejected(op.opId, ValidationFailed(InvalidDataMessage(kind))));
      }
      if NameReadFails(data.value) {
        return None;
      }
      var db := Db(tx.world, tx.rows, tx.log, tx.applied, tx.nextSeq);
      var invalid := PreValidate(db, scope.household, op.id, data.value);
      if invalid.Some? {
        return Some(Rejected(op.opId, invalid.value));
      }
      var current := tx.GetRowAny(scope, Key(kind, op.id));
      invalid := PostReadValidate(db, scope.household, data.value, current);
      if invalid.Some? {
        return Some(Rejected(op.opId, invalid.value));
      }
      NameIsFree(tx.State(), scope.household, op, kind, data.value);
      hide Invariant;
      hide NameIndexHit;
      if op.baseVersion == 0 {
        answer := CreateSyncEntity(scope, op, kind, data.value, current);
      } else {
        answer := UpdateSyncEntity(scope, op, kind, data.value, current);
      }
    }

    method ApplySyncOperation(scope: Scope, op: Operation) returns (answer: Option<PushResult>)
      requires Invariant(tx.State()) && scope.household in tx.world.members
      modifies tx
      ensures match Step(old(tx.State()), scope, op)
              case Failed => answer.None? && tx.nextSeq == old(tx.nextSeq)
              case Stepped(after, result) => tx.State() == after && answer == Some(result)
    {
      var previous := tx.GetAppliedOperation(scope, op.opId);
      if previous.Some? {
        return previous;
      }
      if op.entity.None? {
        return Some(Rejected(op.opId, ValidationFailed("unknown entity")));
      }
      ghost var before := tx.State();
      answer := ApplySyncEntity(scope, op, op.entity.value);
      RefusalsAreNotApplied(before, scope, op);
      if answer.Some? && answer.value.Applied? {
        tx.InsertAppliedOperation(scope, op.opId, answer.value);
      }
    }

    /** A batch: one answer per operation in order, or, on a batch error, no
        answer and no trace but the sequence values it drew. */
    method PushBatch(batch: Batch) returns (answers: Option<seq<PushResult>>)
      requires Invariant(tx.State()) && batch.scope.household in tx.world.members
      modifies tx
      ensures PushedAs(old(tx.State()), tx.State(), batch, answers)
      ensures Invariant(tx.State()) && Extends(old(tx.State()), tx.State())
    {
      ghost var before := tx.State();
      var savedRows, savedLog, savedApplied := tx.rows, tx.log, tx.applied;
      var results: seq<PushResult> := [];
      PushBegins(before, batch);
      hide PushedSoFar;
      hide PushedAs;
      hide Step;
      hide Invariant;
      hide Extends;
      for i := 0 to |batch.ops|
        invariant PushedSoFar(before, tx.State(), batch, i, results)
      {
        PushMayContinue(before, tx.State(), batch, i, results);
        ghost var mid := tx.State();
        var answer := ApplySyncOperation(batch.scope, batch.ops[i]);
        if answer.None? {
          tx.rows, tx.log, tx.applied := savedRows, savedLog, savedApplied;
          PushFails(before, mid, batch, i, results);
          return None;
        }
        PushContinues(before, mid, batch, i, results);
        results := results + [answer.value];
      }
      PushEnds(before, tx.State(), batch, results);
      return Some(results);
    }
  }

  /** The database and the answers a batch is to leave. */
  ghost predicate PushedAs(before: Db, after: Db, batch: Batch, answers: Option<seq<PushResult>>) {
    && after == Engine.Push(before, batch)
    && match PushOps(before, batch.scope, batch.ops)
       case Committed(_, results) => answers == Some(results)
       case RolledBack(_) => answers == None
  }

  ghost predicate PushedSoFar(before: Db, now: Db, batch: Batch, i: nat, results: seq<PushResult>) {
    && i <= |batch.ops| && Invariant(before) && batch.scope.household in before.world.members
    && PushOps(before, batch.scope, batch.ops[..i]) == Committed(now, results)
  }

  lemma PushBegins(db: Db, batch: Batch)
    requires Invariant(db) && batch.scope.household in db.world.members
    ensures PushedSoFar(db, db, batch, 0, [])
  {
  }

  lemma PushMayContinue(before: Db, now: Db, batch: Batch, i: nat, results: seq<PushResult>)
    requires PushedSoFar(before, now, batch, i, results)
    ensures Invariant(now) && now.world == before.world && batch.scope.household in now.world.members
  {
    PushOpsKeeps(before, batch.scope, batch.ops[..i]);
    WorldKept(before, now);
  }

  lemma PushContinues(before: Db, mid: Db, batch: Batch, i: nat, results: seq<PushResult>)
    requires i < |batch.ops| && PushedSoFar(before, mid, batch, i, results)
    requires Step(mid, batch.scope, batch.ops[i]).Stepped?
    ensures var step := Step(mid, batch.scope, batch.ops[i]);
            PushedSoFar(before, step.db, batch, i + 1, results + [step.result])
  {
    hide Step;
    hide Invariant;
    assert batch.ops[..i + 1] == batch.ops[..i] + [batch.ops[i]];
    PushOpsLast(before, batch.scope, batch.ops[..i], batch.ops[i]);
    hide PushOps;
  }

  lemma PushFails(before: Db, mid: Db, batch: Batch, i: nat, results: seq<PushResult>)
    requires i < |batch.ops| && PushedSoFar(before, mid, batch, i, results)
    requires Step(mid, batch.scope, batch.ops[i]).Failed?
    ensures var after := before.(nextSeq := mid.nextSeq);
            PushedAs(before, after, batch, None) && Invariant(after) && Extends(before, after)
  {
    RolledBackAt(before, batch.scope, batch.ops, i);
    PushKeeps(before, batch);
    hide Step;
    hide Invariant;
    hide Extends;
  }

  lemma PushEnds(before: Db, after: Db, batch: Batch, results: seq<PushResult>)
    requires PushedSoFar(before, after, batch, |batch.ops|, results)
    ensures PushedAs(before, after, batch, Some(results)) && Invariant(after) && Extends(before, after)
  {
    assert batch.ops[..|batch.ops|] == batch.ops;
    PushKeeps(before, batch);
    hide Invariant;
    hide Extends;
  }

  /** A failing operation fails every batch it starts in. */
  lemma {:induction false} RolledBackAt(db: Db, scope: Scope, ops: seq<Operation>, i: nat)
    requires i < |ops|
    requires PushOps(db, scope, ops[..i]).Committed?
    requires Step(PushOps(db, scope, ops[..i]).db, scope, ops[i]).Failed?
    ensures PushOps(db, scope, ops) == RolledBack(PushOps(db, scope, ops[..i]).db.nextSeq)
    decreases |ops|
  {
    hide Step;
    var n := |ops| - 1;
    if i < n {
      assert ops[..n][..i] == ops[..i];
      RolledBackAt(db, scope, ops[..n], i);
    }
  }

  /** The pre-check under the lock is what the live-name index would say, so the
      index never fires. */
  lemma NameIsFree(db: Db, household: Id, op: Operation, kind: Kind, data: FullState)
    requires Invariant(db)
    requires Decode(kind, op.data) == Some(data)
    requires ValidateUpsert(db, household, op, kind).None?
    ensures !NameIndexHit(db, household, Key(kind, op.id), data)
  {
    forall k, name | NameHeldBy(db, household, k, kind, name) && k != Key(kind, op.id)
      ensures NameOf(data) != Some(name)
    {
      ValidStateName(db, household, op.id, data, k, name);
    }
  }
}
