/** What every decision of the engine is allowed to write, and the invariants
    that follow: live references, unique live names, an idempotency table of
    applied results. */
module Integrity {
  import opened Domain
  import opened Database
  import opened WriteRules
  import opened Adapters
  import opened Chronicle
  import opened Engine

  /** Every record the state refers to is live in the household. */
  ghost predicate RefsLive(db: Db, household: Id, state: FullState) {
    forall t :: RefersTo(state, t) ==> IsLive(db, household, t)
  }

  ghost predicate RefsOk(db: Db) {
    forall k :: k in db.rows && db.rows[k].owner in db.world.members && !db.rows[k].deleted ==>
      RefsLive(db, db.rows[k].owner, db.rows[k].state)
  }

  predicate NameHeldBy(db: Db, household: Id, key: Key, kind: Kind, name: string) {
    IsLive(db, household, key) && key.kind == kind && NameOf(db.rows[key].state) == Some(name)
  }

  ghost predicate NamesOk(db: Db) {
    forall h, j, k, kind, name ::
      h in db.world.members && NameHeldBy(db, h, j, kind, name) && NameHeldBy(db, h, k, kind, name) ==> j == k
  }

  predicate AppliedOk(db: Db) {
    forall o :: o in db.applied ==> db.applied[o].Applied? && db.applied[o].opId == o.opId
  }

  /** Every stored row, live or tombstoned, refers only to stored rows of its
      own household. */
  ghost predicate HomeOk(db: Db) {
    forall k, t :: k in db.rows && RefersTo(db.rows[k].state, t) ==>
      t in db.rows && db.rows[t].owner == db.rows[k].owner
  }

  ghost predicate Invariant(db: Db) {
    LogAgrees(db) && RowsOk(db) && RefsOk(db) && HomeOk(db) && NamesOk(db) && AppliedOk(db)
  }

  lemma InvariantRows(db: Db)
    requires Invariant(db)
    ensures RowsOk(db)
  {
  }

  // --- What a decision may commit ---------------------------------------------------------------

  /** An upsert's one write: its references are live and its name is free. */
  ghost predicate SoundUpsert(db: Db, household: Id, w: Write) {
    && !w.row.deleted
    && RefsLive(db, household, w.row.state)
    && (forall k, name :: NameHeldBy(db, household, k, w.key.kind, name) && k != w.key ==>
          NameOf(w.row.state) != Some(name))
  }

  /** A delete's writes: tombstones of stored rows, closed under live references
      to them. */
  ghost predicate SoundBurial(db: Db, household: Id, ws: seq<Write>) {
    && (forall i :: 0 <= i < |ws| ==>
          ws[i].key in db.rows && ws[i].row == Buried(db.rows[ws[i].key]))
    && (forall k, t :: IsLive(db, household, k) && RefersTo(db.rows[k].state, t) && Writes(ws, t) ==> Writes(ws, k))
  }

  /** An adopted orphan belongs to a household without members and no row
      refers to it. */
  predicate SoundEviction(db: Db, evicted: Option<Key>) {
    evicted.Some? ==>
      && evicted.value in db.rows && db.rows[evicted.value].owner !in db.world.members
      && !ReferencedAnywhere(db, evicted.value)
  }

  ghost predicate SoundCommit(db: Db, scope: Scope, evicted: Option<Key>, ws: seq<Write>) {
    && scope.household in db.world.members
    && SoundEviction(db, evicted)
    && LegalWrites(Evicted(db, evicted), scope.household, ws)
    && if |ws| == 1 && !ws[0].row.deleted
       then SoundUpsert(db, scope.household, ws[0]) && (evicted.Some? ==> evicted.value == ws[0].key)
       else evicted.None? && SoundBurial(db, scope.household, ws)
  }

  // --- Every upsert the engine commits is sound ---------------------------------------------------

  lemma ValidStateRefs(db: Db, household: Id, id: Id, data: FullState, current: Option<Row>)
    requires PreValidate(db, household, id, data).None?
    requires PostReadValidate(db, household, data, current).None?
    ensures RefsLive(db, household, data)
    ensures data.OfTransaction? ==> WellShaped(data.transaction)
    ensures TextsStorable(data) && !data.OfTransaction? && !data.OfAccount? ==> StoredShape(data)
  {
    match data
    case OfTransaction(t) => TransactionRulesMeaning(db, household, t, PreviousCategory(current));
    case _ =>
  }

  lemma ValidStateName(db: Db, household: Id, id: Id, data: FullState, k: Key, name: string)
    requires RowsOk(db) && PreValidate(db, household, id, data).None?
    requires NameHeldBy(db, household, k, KindOf(data), name) && k.id != id
    ensures NameOf(data) != Some(name)
  {
  }

  /** Neither store write touches a reference, a name or the shape. */
  lemma StoredKeeps(db: Db, household: Id, current: FullState, data: FullState)
    ensures forall t :: RefersTo(Created(db, household, data), t) <==> RefersTo(data, t)
    ensures NameOf(Created(db, household, data)) == NameOf(data)
    ensures KindOf(Created(db, household, data)) == KindOf(data)
    ensures KindOf(current) == KindOf(data) ==>
              && KindOf(Replaced(current, data)) == KindOf(data)
              && NameOf(Replaced(current, data)) == NameOf(data)
              && (forall t :: RefersTo(Replaced(current, data), t) <==> RefersTo(data, t))
  {
  }

  lemma StoredStateShape(db: Db, household: Id, id: Id, data: FullState, current: Option<Row>)
    requires PreValidate(db, household, id, data).None?
    requires PostReadValidate(db, household, data, current).None?
    requires StorageAccepts(db.world, data)
    ensures StoredShape(Created(db, household, data))
    ensures current.Some? && KindOf(current.value.state) == KindOf(data)
            && Immutable(current.value.state, data).None? ==>
              && StoredShape(Replaced(current.value.state, data))
              && SameFrozenFields(current.value.state, Replaced(current.value.state, data))
  {
    ValidStateRefs(db, household, id, data, current);
  }

  lemma CreateSound(db: Db, scope: Scope, op: Operation, kind: Kind, data: FullState)
    requires RowsOk(db) && scope.household in db.world.members
    requires Decode(kind, op.data) == Some(data)
    requires ValidateUpsert(db, scope.household, op, kind).None?
    requires DecideCreate(db, scope, op, kind, data).Commit?
    ensures var d := DecideCreate(db, scope, op, kind, data);
            SoundCommit(db, scope, d.evicted, d.writes)
  {
    var h, key := scope.household, Key(kind, op.id);
    var d := DecideCreate(db, scope, op, kind, data);
    var w := d.writes[0];
    ValidStateRefs(db, h, op.id, data, GetAny(db, h, key));
    StoredStateShape(db, h, op.id, data, GetAny(db, h, key));
    StoredKeeps(db, h, data, data);
    forall k, name | NameHeldBy(db, h, k, kind, name) && k != key
      ensures NameOf(w.row.state) != Some(name)
    {
      ValidStateName(db, h, op.id, data, k, name);
    }
  }

  lemma UpdateSound(db: Db, scope: Scope, op: Operation, kind: Kind, data: FullState)
    requires RowsOk(db) && scope.household in db.world.members
    requires Decode(kind, op.data) == Some(data)
    requires ValidateUpsert(db, scope.household, op, kind).None?
    requires DecideUpdate(db, scope, op, kind, data).Commit?
    ensures var d := DecideUpdate(db, scope, op, kind, data);
            SoundCommit(db, scope, d.evicted, d.writes)
  {
    var h, key := scope.household, Key(kind, op.id);
    var d := DecideUpdate(db, scope, op, kind, data);
    var w := d.writes[0];
    var current := GetAny(db, h, key);
    ValidStateRefs(db, h, op.id, data, current);
    StoredStateShape(db, h, op.id, data, current);
    StoredKeeps(db, h, current.value.state, data);
    forall k, name | NameHeldBy(db, h, k, kind, name) && k != key
      ensures NameOf(w.row.state) != Some(name)
    {
      ValidStateName(db, h, op.id, data, k, name);
    }
  }

  // --- Every delete the engine commits is sound ---------------------------------------------------

  /** Whatever still refers to the record is buried with it. */
  lemma BurialsCloseReferences(db: Db, household: Id, key: Key, cascade: bool, k: Key)
    requires RowsOk(db) && IsLive(db, household, key)
    requires InUse(db, household, key, cascade).None?
    requires IsLive(db, household, k) && RefersTo(db.rows[k].state, key)
    ensures k in Burials(db, household, key, cascade)
  {
    var state := db.rows[k].state;
    assert KindOf(state) == k.kind && StoredShape(state);
    match key.kind
    case AccountKind =>
      assert !state.OfPlan?;
      assert IsAdjustment(state);
      assert k in AdjustmentsOf(db, household, key.id);
    case CategoryKind =>
      assert !state.OfPlan?;
      assert cascade;
      assert k in TransactionsOfCategory(db, household, key.id);
    case DebtorKind =>
      assert k in OperationsOf(db, household, key.id);
    case _ =>
  }

  /** Nothing refers to what a cascade takes along. */
  lemma CascadedAreLeaves(db: Db, household: Id, key: Key, cascade: bool, t: Key, state: FullState)
    requires key in db.rows
    requires t in Burials(db, household, key, cascade) && t != key
    ensures !RefersTo(state, t)
  {
  }

  lemma CascadeDistinct(db: Db, household: Id, key: Key, cascade: bool, i: nat, j: nat)
    requires key in db.rows
    requires i < j < |Burials(db, household, key, cascade)|
    ensures Burials(db, household, key, cascade)[i] != Burials(db, household, key, cascade)[j]
  {
    var keys := Burials(db, household, key, cascade);
    match key.kind
    case AccountKind =>
      var tail := Ascending(TransactionKind, AdjustmentsOf(db, household, key.id));
      assert keys[j] == tail[j - 1] && keys[j] in tail;
    case CategoryKind =>
      if cascade {
        var tail := Ascending(TransactionKind, TransactionsOfCategory(db, household, key.id));
        assert keys[j] == tail[j - 1] && keys[j] in tail;
      }
    case DebtorKind =>
      var front := Ascending(DebtOperationKind, OperationsOf(db, household, key.id));
      assert keys[i] == front[i] && keys[i] in front;
    case _ =>
  }

  lemma BurialsAreDistinctAndLive(db: Db, household: Id, key: Key, cascade: bool)
    requires IsLive(db, household, key)
    ensures var keys := Burials(db, household, key, cascade);
            && (forall i, j :: 0 <= i < j < |keys| ==> keys[i] != keys[j])
            && (forall i :: 0 <= i < |keys| ==> IsLive(db, household, keys[i]))
  {
    var keys := Burials(db, household, key, cascade);
    forall i | 0 <= i < |keys| ensures IsLive(db, household, keys[i]) {
      assert keys[i] in keys;
    }
    forall i, j | 0 <= i < j < |keys| ensures keys[i] != keys[j] {
      CascadeDistinct(db, household, key, cascade, i, j);
    }
  }

  lemma BurySound(db: Db, scope: Scope, key: Key, cascade: bool)
    requires RowsOk(db) && scope.household in db.world.members
    requires IsLive(db, scope.household, key)
    requires InUse(db, scope.household, key, cascade).None?
    ensures SoundCommit(db, scope, None, BuryAll(db, Burials(db, scope.household, key, cascade)))
  {
    BurialsAreLegal(db, scope.household, key, cascade);
    BurialsAreClosed(db, scope.household, key, cascade);
    hide LegalWrites;
    hide Burials;
    hide InUse;
    hide RowsOk;
  }

  lemma BurialsAreLegal(db: Db, household: Id, key: Key, cascade: bool)
    requires RowsOk(db) && IsLive(db, household, key)
    ensures LegalWrites(db, household, BuryAll(db, Burials(db, household, key, cascade)))
  {
    var keys := Burials(db, household, key, cascade);
    var ws := BuryAll(db, keys);
    BurialsAreDistinctAndLive(db, household, key, cascade);
    hide Burials;
    forall i | 0 <= i < |ws| ensures LegalWrite(db, household, ws[i]) {
      assert IsLive(db, household, keys[i]);
      SameAsItself(db.rows[keys[i]].state);
    }
  }

  lemma BurialsAreClosed(db: Db, household: Id, key: Key, cascade: bool)
    requires RowsOk(db) && IsLive(db, household, key)
    requires InUse(db, household, key, cascade).None?
    ensures SoundBurial(db, household, BuryAll(db, Burials(db, household, key, cascade)))
  {
    var keys := Burials(db, household, key, cascade);
    var ws := BuryAll(db, keys);
    hide Burials;
    hide InUse;
    hide RowsOk;
    forall k, t | IsLive(db, household, k) && RefersTo(db.rows[k].state, t) && Writes(ws, t)
      ensures Writes(ws, k)
    {
      var i :| 0 <= i < |ws| && ws[i].key == t;
      assert keys[i] == t && t in keys;
      if t != key {
        CascadedAreLeaves(db, household, key, cascade, t, db.rows[k].state);
      }
      BurialsCloseReferences(db, household, key, cascade, k);
      var j :| 0 <= j < |keys| && keys[j] == k;
      assert ws[j].key == k;
    }
  }

  lemma SameAsItself(state: FullState)
    ensures SameFrozenFields(state, state)
  {
  }

  lemma DecideSound(db: Db, scope: Scope, op: Operation)
    requires RowsOk(db) && scope.household in db.world.members
    requires Decide(db, scope, op).Commit?
    ensures var d := Decide(db, scope, op);
            SoundCommit(db, scope, d.evicted, d.writes)
  {
    hide DecideCreate;
    hide DecideUpdate;
    hide ValidateUpsert;
    var kind := op.entity.value;
    if op.action.Upsert? {
      var data := Decode(kind, op.data);
      assert data.Some? by { DecodedWhenValid(db, scope.household, op, kind); }
      if op.baseVersion == 0 {
        CreateSound(db, scope, op, kind, data.value);
      } else {
        UpdateSound(db, scope, op, kind, data.value);
      }
    } else {
      DeleteSound(db, scope, op, kind);
    }
  }

  lemma DecodedWhenValid(db: Db, household: Id, op: Operation, kind: Kind)
    requires ValidateUpsert(db, household, op, kind).None?
    ensures Decode(kind, op.data).Some?
  {
  }

  lemma DeleteSound(db: Db, scope: Scope, op: Operation, kind: Kind)
    requires RowsOk(db) && scope.household in db.world.members
    requires DecideDelete(db, scope, op, kind).Commit?
    ensures var d := DecideDelete(db, scope, op, kind);
            SoundCommit(db, scope, d.evicted, d.writes)
  {
    hide InUse;
    hide Burials;
    var key := Key(kind, op.id);
    if IsLive(db, scope.household, key) {
      BurySound(db, scope, key, ResolveDelete(kind, op.data.deleteOptions).value);
    }
  }
}
