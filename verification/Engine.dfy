/** The push protocol as a function of the database: what one operation decides,
    what a batch leaves (backend/internal/service/sync_engine.go and sync.go). */
module Engine {
  import opened Domain
  import opened Database
  import opened Adapters

  /** Refuse answers without effect. Commit may first evict an orphan, then
      writes, and is recorded as applied at the given version. Abort is a storage
      failure that rolls the whole batch back. */
  datatype Decision =
    | Refuse(result: PushResult)
    | Commit(evicted: Option<Key>, writes: seq<Write>, version: nat)
    | Abort

  function Decide(db: Db, scope: Scope, op: Operation): Decision {
    match op.entity
    case None => Refuse(Rejected(op.opId, ValidationFailed("unknown entity")))
    case Some(kind) =>
      match op.action
      case Delete => DecideDelete(db, scope, op, kind)
      case Upsert => DecideUpsert(db, scope, op, kind)
      case OtherAction(_) => Refuse(Rejected(op.opId, ValidationFailed("unknown action")))
  }

  /** The staged validation of an upsert: decode, pre-read, post-read. */
  function ValidateUpsert(db: Db, household: Id, op: Operation, kind: Kind): Option<ErrorSpec> {
    match Decode(kind, op.data)
    case None => Some(ValidationFailed(InvalidDataMessage(kind)))
    case Some(data) =>
      var early := PreValidate(db, household, op.id, data);
      if early.Some? then early
      else PostReadValidate(db, household, data, GetAny(db, household, Key(kind, op.id)))
  }

  function DecideUpsert(db: Db, scope: Scope, op: Operation, kind: Kind): Decision {
    var invalid := ValidateUpsert(db, scope.household, op, kind);
    if Decode(kind, op.data).Some? && NameReadFails(Decode(kind, op.data).value) then Abort
    else if invalid.Some? then Refuse(Rejected(op.opId, invalid.value))
    else
      var data := Decode(kind, op.data).value;
      if op.baseVersion == 0 then DecideCreate(db, scope, op, kind, data)
      else DecideUpdate(db, scope, op, kind, data)
  }

  function DecideCreate(db: Db, scope: Scope, op: Operation, kind: Kind, data: FullState): Decision {
    var key := Key(kind, op.id);
    match GetAny(db, scope.household, key)
    case Some(row) =>
      Refuse(Conflict(op.opId, AlreadyExists, Label(kind) + " already exists",
                      Some(ServerStateOf(row.version, row.deleted, row.state))))
    case None =>
      if key in db.rows && db.rows[key].owner in db.world.members then
        Refuse(Conflict(op.opId, AlreadyExists, Label(kind) + " already exists in another household",
                        Some(ServerState(db.rows[key].version, db.rows[key].deleted, None))))
      else if key in db.rows && ReferencedAnywhere(db, key) then Abort
      else if !StorageAccepts(db.world, data) then Abort
      else
        Commit(if key in db.rows then Some(key) else None,
               [Write(key, Row(scope.household, scope.actor, 1, false, Created(db, scope.household, data)))], 1)
  }

  function DecideUpdate(db: Db, scope: Scope, op: Operation, kind: Kind, data: FullState): Decision {
    var key := Key(kind, op.id);
    match GetAny(db, scope.household, key)
    case None =>
      Refuse(Conflict(op.opId, VersionConflict, Label(kind) + " not found on server",
                      Some(ServerState(0, false, None))))
    case Some(row) =>
      var frozen := Immutable(row.state, data);
      if row.deleted then
        Refuse(Conflict(op.opId, DeletedConflict, Label(kind) + " was deleted on server",
                        Some(ServerState(row.version, true, None))))
      else if frozen.Some? then Refuse(Rejected(op.opId, frozen.value))
      else if row.version != op.baseVersion then
        Refuse(Conflict(op.opId, VersionConflict, Label(kind) + " version conflict",
                        Some(ServerStateOf(row.version, false, row.state))))
      else if !StorageAccepts(db.world, data) then Abort
      else
        Commit(None, [Write(key, row.(version := row.version + 1, state := Replaced(row.state, data)))],
               row.version + 1)
  }

  function DecideDelete(db: Db, scope: Scope, op: Operation, kind: Kind): Decision {
    var key := Key(kind, op.id);
    match GetAny(db, scope.household, key)
    case None => Commit(None, [], 0)
    case Some(row) =>
      if row.deleted then Commit(None, [], row.version)
      else
        match ResolveDelete(kind, op.data.deleteOptions)
        case None => Refuse(Rejected(op.opId, ValidationFailed("invalid category delete data")))
        case Some(cascade) =>
          match InUse(db, scope.household, key, cascade)
          case Some(blocked) => Refuse(Rejected(op.opId, ErrorSpecFor(blocked)))
          case None =>
            Commit(None, BuryAll(db, Burials(db, scope.household, key, cascade)), row.version + 1)
  }

  // --- One operation -------------------------------------------------------------------------

  datatype StepOutcome = Stepped(db: Db, result: PushResult) | Failed

  function Evicted(db: Db, evicted: Option<Key>): Db {
    match evicted
    case None => db
    case Some(key) => Evict(db, key)
  }

  function Record(db: Db, opKey: OpKey, result: PushResult): Db {
    db.(applied := db.applied[opKey := result])
  }

  function Perform(db: Db, scope: Scope, opId: Id, decision: Decision): StepOutcome {
    match decision
    case Refuse(result) => Stepped(db, result)
    case Abort => Failed
    case Commit(evicted, writes, version) =>
      var result := Applied(opId, version);
      Stepped(Record(PutAll(Evicted(db, evicted), scope, writes), OpKey(scope.household, opId), result), result)
  }

  predicate IsReplay(db: Db, scope: Scope, op: Operation) {
    OpKey(scope.household, op.opId) in db.applied
  }

  function Step(db: Db, scope: Scope, op: Operation): StepOutcome {
    if IsReplay(db, scope, op) then Stepped(db, db.applied[OpKey(scope.household, op.opId)])
    else Perform(db, scope, op.opId, Decide(db, scope, op))
  }

  // --- Batches and runs -------------------------------------------------------------------------

  /** RolledBack keeps the sequence values the batch had already drawn. */
  datatype BatchOutcome = Committed(db: Db, results: seq<PushResult>) | RolledBack(burned: nat)

  function PushOps(db: Db, scope: Scope, ops: seq<Operation>): BatchOutcome
    decreases |ops|
  {
    if ops == [] then Committed(db, [])
    else
      match PushOps(db, scope, ops[..|ops| - 1])
      case RolledBack(burned) => RolledBack(burned)
      case Committed(mid, results) =>
        match Step(mid, scope, ops[|ops| - 1])
        case Failed => RolledBack(mid.nextSeq)
        case Stepped(after, result) => Committed(after, results + [result])
  }

  datatype Batch = Batch(scope: Scope, ops: seq<Operation>)

  /** The database a batch leaves: its effect, or nothing but burned sequence
      values. */
  function Push(db: Db, batch: Batch): Db {
    match PushOps(db, batch.scope, batch.ops)
    case Committed(after, _) => after
    case RolledBack(burned) => db.(nextSeq := burned)
  }

  function Run(db: Db, batches: seq<Batch>): Db
    decreases |batches|
  {
    if batches == [] then db
    else Push(Run(db, batches[..|batches| - 1]), batches[|batches| - 1])
  }

  /** Every batch comes from a member of a household that has members. */
  predicate FromMembers(world: World, batches: seq<Batch>) {
    forall i :: 0 <= i < |batches| ==> batches[i].scope.household in world.members
  }
}
