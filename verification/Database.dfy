/** The server's tables as one value, and the write every mutation goes through:
    one row and its change_log entry (backend/internal/repository/postgres). */
module Database {
  import opened Domain

  datatype Key = Key(kind: Kind, id: Id)

  /** owner is household_id, author is user_id. A tombstone keeps its state. */
  datatype Row = Row(owner: Id, author: Id, version: nat, deleted: bool, state: FullState)

  /** A change_log row. */
  datatype Change = Change(
    seqNo: nat, household: Id, author: Id, key: Key, tombstone: bool, version: nat)

  datatype OpKey = OpKey(household: Id, opId: Id)

  /** What pushes read and never write: who still has members, each household's
      base currency, and the names short enough for the row limit of the unique
      name indexes (after the database's compression, so no plain length). */
  datatype World = World(members: set<Id>, baseCurrency: map<Id, string>, indexable: iset<string>)

  datatype Db = Db(
    world: World,
    rows: map<Key, Row>,
    log: seq<Change>,
    applied: map<OpKey, PushResult>,
    nextSeq: nat)

  const DEFAULT_CURRENCY := "RUB"

  function BaseCurrency(db: Db, household: Id): string {
    if household in db.world.baseCurrency then db.world.baseCurrency[household] else DEFAULT_CURRENCY
  }

  // --- Household-scoped reads ---------------------------------------------------------

  function GetAny(db: Db, household: Id, key: Key): Option<Row> {
    if key in db.rows && db.rows[key].owner == household then Some(db.rows[key]) else None
  }

  predicate IsLive(db: Db, household: Id, key: Key) {
    key in db.rows && db.rows[key].owner == household && !db.rows[key].deleted
  }

  // --- Writes ---------------------------------------------------------------------------

  datatype Write = Write(key: Key, row: Row)

  function ChangeOf(seqNo: nat, scope: Scope, w: Write): Change {
    Change(seqNo, scope.household, scope.actor, w.key, w.row.deleted, w.row.version)
  }

  function Put(db: Db, scope: Scope, w: Write): Db {
    db.(rows := db.rows[w.key := w.row],
        log := db.log + [ChangeOf(db.nextSeq, scope, w)],
        nextSeq := db.nextSeq + 1)
  }

  function PutAll(db: Db, scope: Scope, ws: seq<Write>): Db
    decreases |ws|
  {
    if ws == [] then db
    else Put(PutAll(db, scope, ws[..|ws| - 1]), scope, ws[|ws| - 1])
  }

  /** The hard delete of an adopted orphan: no change_log row. */
  function Evict(db: Db, key: Key): Db {
    db.(rows := db.rows - {key})
  }

  predicate DistinctKeys(ws: seq<Write>) {
    forall i, j :: 0 <= i < j < |ws| ==> ws[i].key != ws[j].key
  }

  predicate Writes(ws: seq<Write>, key: Key) {
    exists i :: 0 <= i < |ws| && ws[i].key == key
  }

  lemma {:induction false} PutAllKeepsTheRest(db: Db, scope: Scope, ws: seq<Write>)
    ensures PutAll(db, scope, ws).world == db.world
    ensures PutAll(db, scope, ws).applied == db.applied
    decreases |ws|
  {
    if ws != [] {
      PutAllKeepsTheRest(db, scope, ws[..|ws| - 1]);
    }
  }

  /** Frame: a record no write names stays as it was, present or absent. */
  lemma {:induction false} PutAllFrame(db: Db, scope: Scope, ws: seq<Write>, key: Key)
    requires !Writes(ws, key)
    ensures key in PutAll(db, scope, ws).rows <==> key in db.rows
    ensures key in db.rows ==> PutAll(db, scope, ws).rows[key] == db.rows[key]
    decreases |ws|
  {
    if ws != [] {
      var n := |ws| - 1;
      assert ws[n].key != key;
      assert forall i :: 0 <= i < n ==> ws[..n][i] == ws[i];
      PutAllFrame(db, scope, ws[..n], key);
    }
  }

  /** Content: writes to distinct records all survive. */
  lemma {:induction false} PutAllWrites(db: Db, scope: Scope, ws: seq<Write>, i: nat)
    requires DistinctKeys(ws) && i < |ws|
    ensures ws[i].key in PutAll(db, scope, ws).rows
    ensures PutAll(db, scope, ws).rows[ws[i].key] == ws[i].row
    decreases |ws|
  {
    var n := |ws| - 1;
    if i < n {
      assert ws[i].key != ws[n].key;
      assert ws[..n][i] == ws[i];
      PutAllWrites(db, scope, ws[..n], i);
    }
  }

  /** A sequence of writes appends one entry per write, in order. */
  lemma {:induction false} PutAllLog(db: Db, scope: Scope, ws: seq<Write>)
    ensures var after := PutAll(db, scope, ws);
            && after.nextSeq == db.nextSeq + |ws|
            && |after.log| == |db.log| + |ws|
            && after.log[..|db.log|] == db.log
            && (forall i :: 0 <= i < |ws| ==>
                  after.log[|db.log| + i] == ChangeOf(db.nextSeq + i, scope, ws[i]))
    decreases |ws|
  {
    if ws != [] {
      var n := |ws| - 1;
      PutAllLog(db, scope, ws[..n]);
      var before, after := PutAll(db, scope, ws[..n]), PutAll(db, scope, ws);
      assert after.log[..|before.log|] == before.log;
      assert after.log[..|db.log|] == before.log[..|db.log|];
    }
  }

  // --- Records of one kind in ascending id order ---------------------------------------

  lemma {:induction false} LeastExists(kind: Kind, keys: set<Key>)
    requires keys != {} && forall k :: k in keys ==> k.kind == kind
    ensures exists m :: m in keys && forall k :: k in keys ==> m.id <= k.id
    decreases |keys|
  {
    var k :| k in keys;
    var rest := keys - {k};
    if rest == {} {
      assert keys == {k};
    } else {
      LeastExists(kind, rest);
      var m :| m in rest && forall x :: x in rest ==> m.id <= x.id;
      var least := if m.id <= k.id then m else k;
      assert least in keys && forall x :: x in keys ==> least.id <= x.id;
    }
  }

  function Least(kind: Kind, keys: set<Key>): (m: Key)
    requires keys != {} && forall k :: k in keys ==> k.kind == kind
    ensures m in keys
  {
    LeastExists(kind, keys);
    var m :| m in keys && forall k :: k in keys ==> m.id <= k.id;
    m
  }

  /** SQL leaves the order of a cascade's rows open; the model fixes it. */
  function Ascending(kind: Kind, keys: set<Key>): (s: seq<Key>)
    requires forall k :: k in keys ==> k.kind == kind
    ensures forall k :: k in s <==> k in keys
    ensures forall i, j :: 0 <= i < j < |s| ==> s[i] != s[j]
    decreases |keys|
  {
    if keys == {} then []
    else
      var m := Least(kind, keys);
      [m] + Ascending(kind, keys - {m})
  }
}
