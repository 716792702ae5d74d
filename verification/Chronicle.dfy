/** The change log against the rows: folding a household's log gives its rows,
    versions rise by one along the log, tombstones end a record's history. */
module Chronicle {
  import opened Domain
  import opened Database
  import opened WriteRules
  import opened Adapters

  /** What the log says of a record. */
  datatype Mark = Mark(version: nat, deleted: bool)

  function Replay(log: seq<Change>, household: Id): map<Key, Mark>
    decreases |log|
  {
    if log == [] then map[]
    else
      var c := log[|log| - 1];
      var before := Replay(log[..|log| - 1], household);
      if c.household == household then before[c.key := Mark(c.version, c.tombstone)] else before
  }

  /** What the rows say. */
  function Standing(rows: map<Key, Row>, household: Id): map<Key, Mark> {
    map k | k in rows && rows[k].owner == household :: Mark(rows[k].version, rows[k].deleted)
  }

  /** A change continues the history told so far: a first change creates at
      version 1, a later one adds 1 to a record not yet tombstoned. */
  predicate Follows(history: map<Key, Mark>, c: Change) {
    if c.key in history then !history[c.key].deleted && c.version == history[c.key].version + 1
    else c.version == 1 && !c.tombstone
  }

  ghost predicate Chained(log: seq<Change>, household: Id) {
    forall i :: 0 <= i < |log| && log[i].household == household ==> Follows(Replay(log[..i], household), log[i])
  }

  predicate SeqsRise(db: Db) {
    && (forall i, j :: 0 <= i < j < |db.log| ==> db.log[i].seqNo < db.log[j].seqNo)
    && (forall i :: 0 <= i < |db.log| ==> db.log[i].seqNo < db.nextSeq)
  }

  ghost predicate Chronicled(db: Db, household: Id) {
    Replay(db.log, household) == Standing(db.rows, household) && Chained(db.log, household)
  }

  ghost predicate LogAgrees(db: Db) {
    SeqsRise(db) && forall h :: h in db.world.members ==> Chronicled(db, h)
  }

  // --- Rows and their evolution -------------------------------------------------------------

  /** What every stored state of a kind looks like, whoever wrote it. */
  predicate StoredShape(state: FullState) {
    match state
    case OfAccount(a) => IsCurrency(a.currency) && IsText(a.name)
    case OfCategory(c) => IsCashflow(c.typ) && IsText(c.name) && IsText(c.icon) && IsText(c.color)
    case OfTransaction(t) => WellShaped(t) && t.destinationAmount.None? && IsText(t.description)
    case OfDebtor(d) => IsText(d.name)
    case OfDebtOperation(o) => o.amount >= 1 && !o.direction.OtherDirection? && !o.kind.OtherDebtKind?
    case OfPlan(p) => PlanFields(p) && IsText(p.name) && IsText(p.note)
  }

  predicate RowsOk(db: Db) {
    forall k :: k in db.rows ==>
      KindOf(db.rows[k].state) == k.kind && db.rows[k].version >= 1 && StoredShape(db.rows[k].state)
  }

  /** The fields no write ever changes. */
  predicate SameFrozenFields(a: FullState, b: FullState) {
    match (a, b)
    case (OfAccount(_), OfAccount(_)) => true
    case (OfCategory(_), OfCategory(_)) => true
    case (OfTransaction(x), OfTransaction(y)) => x.typ == y.typ
    case (OfDebtor(x), OfDebtor(y)) => x.currency == y.currency
    case (OfDebtOperation(x), OfDebtOperation(y)) =>
      x.debtorId == y.debtorId && x.direction == y.direction && x.kind == y.kind
    case (OfPlan(x), OfPlan(y)) => x.typ == y.typ
    case _ => false
  }

  /** How a row may differ from an earlier one: same owner and author, frozen
      fields kept, version never back, nothing after a tombstone, and no change
      without a new version. */
  predicate Evolves(before: Row, after: Row) {
    && after.owner == before.owner && after.author == before.author
    && before.version <= after.version
    && (before.deleted || after.version == before.version ==> after == before)
    && SameFrozenFields(before.state, after.state)
  }

  /** A write the engine may make for a household: it creates at version 1, or
      takes a live row of the household one version on; a tombstone keeps its
      state. */
  predicate LegalWrite(db: Db, household: Id, w: Write) {
    && w.row.owner == household
    && KindOf(w.row.state) == w.key.kind
    && StoredShape(w.row.state)
    && if w.key in db.rows then
         && !db.rows[w.key].deleted
         && w.row.version == db.rows[w.key].version + 1
         && Evolves(db.rows[w.key], w.row)
         && (w.row.deleted ==> w.row.state == db.rows[w.key].state)
       else w.row.version == 1 && !w.row.deleted
  }

  predicate LegalWrites(db: Db, household: Id, ws: seq<Write>) {
    DistinctKeys(ws) && forall i :: 0 <= i < |ws| ==> LegalWrite(db, household, ws[i])
  }

  lemma ReplayAppend(log: seq<Change>, c: Change, household: Id)
    ensures Replay(log + [c], household)
            == if c.household == household
               then Replay(log, household)[c.key := Mark(c.version, c.tombstone)]
               else Replay(log, household)
  {
    assert (log + [c])[..|log|] == log;
  }

  lemma PutStanding(db: Db, scope: Scope, w: Write, household: Id)
    requires LegalWrite(db, scope.household, w)
    ensures Standing(Put(db, scope, w).rows, household)
            == if household == scope.household
               then Standing(db.rows, household)[w.key := Mark(w.row.version, w.row.deleted)]
               else Standing(db.rows, household)
  {
  }

  lemma PutChained(db: Db, scope: Scope, w: Write, household: Id)
    requires LegalWrite(db, scope.household, w) && Chronicled(db, household)
    ensures Chained(Put(db, scope, w).log, household)
  {
    var after := Put(db, scope, w).log;
    forall i | 0 <= i < |after| && after[i].household == household
      ensures Follows(Replay(after[..i], household), after[i])
    {
      if i < |db.log| {
        assert after[..i] == db.log[..i];
      } else {
        assert after[..i] == db.log;
      }
    }
  }

  lemma PutAgrees(db: Db, scope: Scope, w: Write)
    requires LogAgrees(db) && RowsOk(db)
    requires LegalWrite(db, scope.household, w)
    ensures LogAgrees(Put(db, scope, w)) && RowsOk(Put(db, scope, w))
  {
    var after := Put(db, scope, w);
    forall h | h in db.world.members ensures Chronicled(after, h) {
      ReplayAppend(db.log, ChangeOf(db.nextSeq, scope, w), h);
      PutStanding(db, scope, w, h);
      PutChained(db, scope, w, h);
    }
  }

  /** Writes to distinct records stay legal one after another. */
  lemma LegalAfter(db: Db, scope: Scope, ws: seq<Write>)
    requires ws != [] && LegalWrites(db, scope.household, ws)
    ensures LegalWrites(db, scope.household, ws[..|ws| - 1])
    ensures LegalWrite(PutAll(db, scope, ws[..|ws| - 1]), scope.household, ws[|ws| - 1])
  {
    var n := |ws| - 1;
    var front := ws[..n];
    assert forall i :: 0 <= i < n ==> front[i] == ws[i];
    PutAllFrame(db, scope, front, ws[n].key);
  }

  lemma {:induction false} PutAllAgrees(db: Db, scope: Scope, ws: seq<Write>)
    requires LogAgrees(db) && RowsOk(db)
    requires LegalWrites(db, scope.household, ws)
    ensures LogAgrees(PutAll(db, scope, ws)) && RowsOk(PutAll(db, scope, ws))
    decreases |ws|
  {
    if ws != [] {
      LegalAfter(db, scope, ws);
      PutAllAgrees(db, scope, ws[..|ws| - 1]);
      PutAgrees(PutAll(db, scope, ws[..|ws| - 1]), scope, ws[|ws| - 1]);
    }
  }

  lemma EvictAgrees(db: Db, key: Key)
    requires LogAgrees(db) && RowsOk(db)
    requires key in db.rows && db.rows[key].owner !in db.world.members
    ensures LogAgrees(Evict(db, key)) && RowsOk(Evict(db, key))
  {
    var after := Evict(db, key);
    forall h | h in db.world.members ensures Chronicled(after, h) {
      assert Standing(after.rows, h) == Standing(db.rows, h);
    }
  }
}
