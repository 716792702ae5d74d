/** The keyset-paged transaction listing (backend/internal/service/transaction.go
    List, ListTransactions in backend/internal/repository/queries/transactions.sql):
    what following nextCursor to the end yields. */
module Listing {
  import opened Domain
  import opened Database
  import opened WriteRules
  import opened Preservation

  const DEFAULT_PAGE_SIZE := 50
  const MAX_PAGE_SIZE := 100

  function BoundPageSize(requested: Option<int>): (size: nat)
    ensures 1 <= size <= MAX_PAGE_SIZE
    ensures requested.Some? && 1 <= requested.value <= MAX_PAGE_SIZE ==> size == requested.value
    ensures requested.Some? && requested.value > MAX_PAGE_SIZE ==> size == MAX_PAGE_SIZE
    ensures requested.None? || requested.value <= 0 ==> size == DEFAULT_PAGE_SIZE
  {
    var size := if requested.Some? && requested.value > 0 then requested.value else DEFAULT_PAGE_SIZE;
    if size < MAX_PAGE_SIZE then size else MAX_PAGE_SIZE
  }

  datatype Filter = Filter(
    typ: Option<TxType>, accountId: Option<Id>, categoryId: Option<Id>,
    fromDate: Option<int>, toDate: Option<int>)

  /** A listed transaction by its place in the order; the cursor's payload. */
  datatype Place = Place(occurredAt: int, id: Id)

  datatype Cursor = NoCursor | At(place: Place) | Malformed

  /** Newest first, ties by descending id. */
  predicate Precedes(a: Place, b: Place) {
    a.occurredAt > b.occurredAt || (a.occurredAt == b.occurredAt && a.id > b.id)
  }

  predicate Passes(t: Transaction, f: Filter) {
    && (f.typ.Some? ==> t.typ == f.typ.value)
    && (f.accountId.Some? ==>
          t.accountId == f.accountId || t.fromAccountId == f.accountId || t.toAccountId == f.accountId)
    && (f.categoryId.Some? ==> t.categoryId == f.categoryId)
    && (f.fromDate.Some? ==> t.occurredAt >= f.fromDate.value)
    && (f.toDate.Some? ==> t.occurredAt <= f.toDate.value)
  }

  predicate Listed(db: Db, household: Id, f: Filter, k: Key) {
    && k.kind.TransactionKind? && IsLive(db, household, k)
    && db.rows[k].state.OfTransaction? && Passes(db.rows[k].state.transaction, f)
  }

  /** The filters by what a transaction refers to: an account in any of its three
      places, a category. */
  lemma PassesExactlyWhen(t: Transaction, f: Filter)
    ensures Passes(t, f) <==>
            && (f.accountId.Some? ==> RefersTo(OfTransaction(t), Key(AccountKind, f.accountId.value)))
            && (f.categoryId.Some? ==> RefersTo(OfTransaction(t), Key(CategoryKind, f.categoryId.value)))
            && (f.typ.Some? ==> t.typ == f.typ.value)
            && (f.fromDate.Some? ==> f.fromDate.value <= t.occurredAt)
            && (f.toDate.Some? ==> t.occurredAt <= f.toDate.value)
  {
  }

  function Matching(db: Db, household: Id, f: Filter): set<Place> {
    set k | k in db.rows && Listed(db, household, f, k) :: Place(db.rows[k].state.transaction.occurredAt, k.id)
  }

  // --- The ordered list ---------------------------------------------------------------------

  lemma {:induction false} FirstExists(places: set<Place>)
    requires places != {}
    ensures exists p :: p in places && forall q :: q in places && q != p ==> Precedes(p, q)
    decreases |places|
  {
    var x :| x in places;
    var rest := places - {x};
    if rest != {} {
      FirstExists(rest);
      var y :| y in rest && forall q :: q in rest && q != y ==> Precedes(y, q);
      var p := if Precedes(x, y) then x else y;
      assert Precedes(x, y) || Precedes(y, x);
      assert forall q :: Precedes(x, y) && Precedes(y, q) ==> Precedes(x, q);
      assert forall q :: q in places ==> q == x || q in rest;
      assert p in places && forall q :: q in places && q != p ==> Precedes(p, q);
    } else {
      assert places == {x};
    }
  }

  function First(places: set<Place>): (p: Place)
    requires places != {}
    ensures p in places && forall q :: q in places && q != p ==> Precedes(p, q)
  {
    FirstExists(places);
    var p :| p in places && forall q :: q in places && q != p ==> Precedes(p, q);
    p
  }

  predicate StrictlyDown(s: seq<Place>) {
    forall i, j :: 0 <= i < j < |s| ==> Precedes(s[i], s[j])
  }

  /** The whole list in order: each place once. */
  function Ordered(places: set<Place>): (s: seq<Place>)
    ensures forall p :: p in s <==> p in places
    ensures StrictlyDown(s)
    decreases |places|
  {
    if places == {} then []
    else
      var p := First(places);
      [p] + Ordered(places - {p})
  }

  /** Contents and order determine the list. */
  lemma {:induction false} OrderedIsUnique(s: seq<Place>, t: seq<Place>)
    requires StrictlyDown(s) && StrictlyDown(t)
    requires forall p :: p in s <==> p in t
    ensures s == t
    decreases |s|
  {
    assert s != [] ==> s[0] in t;
    assert t != [] ==> t[0] in t;
    if s != [] {
      assert t[0] in s;
      assert s[0] == t[0];
      forall p ensures p in s[1..] <==> p in t[1..] {
        InTail(s, p);
        InTail(t, p);
      }
      OrderedIsUnique(s[1..], t[1..]);
    }
  }

  lemma InTail(s: seq<Place>, p: Place)
    requires StrictlyDown(s) && s != []
    ensures p in s[1..] <==> p in s && p != s[0]
  {
    if p in s && p != s[0] {
      var i :| 0 <= i < |s| && s[i] == p;
      assert s[1..][i - 1] == p;
    }
  }

  // --- One page -------------------------------------------------------------------------------

  predicate Beyond(cursor: Cursor, p: Place) {
    cursor.At? ==> Precedes(cursor.place, p)
  }

  /** ORDER BY ... LIMIT over the rows beyond the cursor. */
  function Fetch(db: Db, household: Id, f: Filter, cursor: Cursor, limit: nat): seq<Place> {
    var all := Ordered(set p | p in Matching(db, household, f) && Beyond(cursor, p));
    if |all| <= limit then all else all[..limit]
  }

  datatype ListOutcome = InvalidCursor | Page(rows: seq<Place>, next: Cursor)

  function List(db: Db, household: Id, f: Filter, limit: Option<int>, cursor: Cursor): ListOutcome {
    if cursor.Malformed? then InvalidCursor
    else
      var size := BoundPageSize(limit);
      var rows := Fetch(db, household, f, cursor, size + 1);
      if |rows| > size then Page(rows[..size], At(rows[size - 1])) else Page(rows, NoCursor)
  }

  /** A page is the front of what lies beyond its cursor, in order; its next
      cursor is its last row, and there is none exactly when nothing is left. */
  lemma PageMeaning(db: Db, household: Id, f: Filter, limit: Option<int>, cursor: Cursor)
    requires !cursor.Malformed?
    ensures var page := List(db, household, f, limit, cursor);
            && page.Page?
            && StrictlyDown(page.rows) && |page.rows| <= BoundPageSize(limit)
            && (forall p :: p in page.rows ==> p in Matching(db, household, f) && Beyond(cursor, p))
            && (forall p :: p in Matching(db, household, f) && Beyond(cursor, p) ==>
                  p in page.rows || (page.next.At? && Precedes(page.next.place, p)))
            && (page.next.At? ==> page.rows != [] && page.next.place == page.rows[|page.rows| - 1]
                                  && Beyond(cursor, page.next.place) && |page.rows| == BoundPageSize(limit))
            && (page.next.NoCursor? <==> forall p :: p in Matching(db, household, f) && Beyond(cursor, p) ==> p in page.rows)
            && !page.next.Malformed?
  {
    var beyond := set p | p in Matching(db, household, f) && Beyond(cursor, p);
    var all, size := Ordered(beyond), BoundPageSize(limit);
    PageIsFront(db, household, f, limit, cursor, all);
    hide Matching;
    hide Precedes;
    hide Ordered;
    hide List;
    hide BoundPageSize;
    if |all| > size {
      FrontMeaning(all, size);
      hide StrictlyDown;
      assert all[size - 1] in all;
    }
  }

  lemma PageIsFront(db: Db, household: Id, f: Filter, limit: Option<int>, cursor: Cursor, all: seq<Place>)
    requires !cursor.Malformed?
    requires all == Ordered(set p | p in Matching(db, household, f) && Beyond(cursor, p))
    ensures var size := BoundPageSize(limit);
            List(db, household, f, limit, cursor)
            == if |all| > size then Page(all[..size], At(all[size - 1])) else Page(all, NoCursor)
  {
    hide Matching;
    hide Precedes;
    hide Ordered;
    hide StrictlyDown;
    var size := BoundPageSize(limit);
    hide BoundPageSize;
    if |all| > size {
      assert all[..size + 1][..size] == all[..size];
    }
  }

  lemma FrontMeaning(all: seq<Place>, size: nat)
    requires StrictlyDown(all) && 0 < size < |all|
    ensures StrictlyDown(all[..size])
    ensures forall p :: p in all[..size] ==> p in all
    ensures forall p :: p in all ==> p in all[..size] || Precedes(all[size - 1], p)
    ensures all[size] in all && all[size] !in all[..size]
  {
    forall p | p in all ensures p in all[..size] || Precedes(all[size - 1], p) {
      var i :| 0 <= i < |all| && all[i] == p;
      assert i < size ==> all[..size][i] == p;
    }
    assert forall i :: 0 <= i < size ==> Precedes(all[i], all[size]);
  }

  // --- Following nextCursor ------------------------------------------------------------------------

  /** Everything a client is handed when page i is read from the i-th database:
      the store may change in any way between pages. */
  function Walk(dbs: seq<Db>, household: Id, f: Filter, limit: Option<int>, cursor: Cursor): seq<Place>
    decreases |dbs|
  {
    if dbs == [] then []
    else
      match List(dbs[0], household, f, limit, cursor)
      case InvalidCursor => []
      case Page(rows, next) =>
        if next.NoCursor? then rows else rows + Walk(dbs[1..], household, f, limit, next)
  }

  /** The walk reached a page without a next cursor. */
  predicate Finished(dbs: seq<Db>, household: Id, f: Filter, limit: Option<int>, cursor: Cursor)
    decreases |dbs|
  {
    && dbs != []
    && var page := List(dbs[0], household, f, limit, cursor);
       page.Page? && (page.next.NoCursor? || Finished(dbs[1..], household, f, limit, page.next))
  }

  predicate PresentThroughout(dbs: seq<Db>, household: Id, f: Filter, p: Place) {
    forall i :: 0 <= i < |dbs| ==> p in Matching(dbs[i], household, f)
  }

  lemma DownAppend(s: seq<Place>, t: seq<Place>, cursor: Cursor)
    requires StrictlyDown(s) && StrictlyDown(t)
    requires forall p :: p in s ==> Beyond(cursor, p)
    requires s != [] && forall p :: p in t ==> Precedes(s[|s| - 1], p)
    ensures StrictlyDown(s + t)
    ensures forall p :: p in s + t ==> Beyond(cursor, p)
  {
    assert s[|s| - 1] in s;
    forall i, j | 0 <= i < j < |s + t| ensures Precedes((s + t)[i], (s + t)[j]) {
      if i < |s| <= j {
        assert (s + t)[j] in t;
        assert i < |s| - 1 ==> Precedes(s[i], s[|s| - 1]);
      }
    }
    forall p | p in s + t ensures Beyond(cursor, p) {
      assert p in s || p in t;
    }
  }

  /** Whatever happens to the store between pages, the walk goes strictly down
      the order, and a finished walk lists every row that was there, at the same
      place, at each of its pages. */
  lemma {:induction false} WalkIsComplete(dbs: seq<Db>, household: Id, f: Filter, limit: Option<int>, cursor: Cursor)
    requires !cursor.Malformed?
    ensures var walk := Walk(dbs, household, f, limit, cursor);
            && StrictlyDown(walk)
            && (forall p :: p in walk ==> Beyond(cursor, p))
            && (Finished(dbs, household, f, limit, cursor) ==>
                  forall p :: PresentThroughout(dbs, household, f, p) && Beyond(cursor, p) ==> p in walk)
    decreases |dbs|
  {
    hide List;
    hide Matching;
    if dbs != [] {
      PageMeaning(dbs[0], household, f, limit, cursor);
      var page := List(dbs[0], household, f, limit, cursor);
      if page.next.At? {
        WalkIsComplete(dbs[1..], household, f, limit, page.next);
        DownAppend(page.rows, Walk(dbs[1..], household, f, limit, page.next), cursor);
      }
      forall p | PresentThroughout(dbs, household, f, p) && Beyond(cursor, p)
                 && Finished(dbs, household, f, limit, cursor)
        ensures p in Walk(dbs, household, f, limit, cursor)
      {
        assert p in Matching(dbs[0], household, f);
        assert PresentThroughout(dbs[1..], household, f, p);
      }
    }
  }

  /** Each such row is listed exactly once, and a record can be listed twice
      only after its date was moved back between the two pages. */
  lemma ListedExactlyOnce(dbs: seq<Db>, household: Id, f: Filter, limit: Option<int>, p: Place)
    requires Finished(dbs, household, f, limit, NoCursor)
    requires PresentThroughout(dbs, household, f, p)
    ensures var walk := Walk(dbs, household, f, limit, NoCursor);
            && (exists i :: 0 <= i < |walk| && walk[i] == p)
            && (forall i, j :: 0 <= i < j < |walk| ==> !(walk[i] == p && walk[j] == p))
            && (forall i, j :: 0 <= i < j < |walk| && walk[i].id == walk[j].id ==>
                  walk[i].occurredAt > walk[j].occurredAt)
  {
    WalkIsComplete(dbs, household, f, limit, NoCursor);
    assert p in Walk(dbs, household, f, limit, NoCursor);
  }

  /** With any pushes between the pages: a listed transaction the log does not
      mention since the first page is listed exactly once. */
  lemma UntouchedListedOnce(dbs: seq<Db>, household: Id, f: Filter, limit: Option<int>, key: Key)
    requires Finished(dbs, household, f, limit, NoCursor)
    requires household in dbs[0].world.members && Listed(dbs[0], household, f, key)
    requires forall i :: 0 <= i < |dbs| ==>
               Extends(dbs[0], dbs[i]) && Untouched(dbs[i].log, |dbs[0].log|, household, key)
    ensures var walk, p := Walk(dbs, household, f, limit, NoCursor), Place(dbs[0].rows[key].state.transaction.occurredAt, key.id);
            && (exists i :: 0 <= i < |walk| && walk[i] == p)
            && (forall i, j :: 0 <= i < j < |walk| ==> !(walk[i] == p && walk[j] == p))
  {
    var p := Place(dbs[0].rows[key].state.transaction.occurredAt, key.id);
    forall i | 0 <= i < |dbs| ensures p in Matching(dbs[i], household, f) {
      UntouchedStaysListed(dbs[0], dbs[i], household, f, key);
    }
    ListedExactlyOnce(dbs, household, f, limit, p);
  }

  lemma UntouchedStaysListed(before: Db, after: Db, household: Id, f: Filter, key: Key)
    requires household in before.world.members && Listed(before, household, f, key)
    requires Extends(before, after) && Untouched(after.log, |before.log|, household, key)
    ensures Place(before.rows[key].state.transaction.occurredAt, key.id) in Matching(after, household, f)
  {
    assert GetAny(after, household, key) == GetAny(before, household, key);
    assert Listed(after, household, f, key);
  }

  // --- A store at rest -------------------------------------------------------------------------------

  /** What is still to come, in order. */
  ghost function Rest(db: Db, household: Id, f: Filter, cursor: Cursor): seq<Place> {
    Ordered(set p | p in Matching(db, household, f) && Beyond(cursor, p))
  }

  lemma PageTakesFront(db: Db, household: Id, f: Filter, limit: Option<int>, cursor: Cursor)
    requires !cursor.Malformed?
    ensures var page, rest := List(db, household, f, limit, cursor), Rest(db, household, f, cursor);
            && page.Page? && !page.next.Malformed?
            && (page.next.NoCursor? ==> page.rows == rest)
            && (page.next.At? ==> page.rows + Rest(db, household, f, page.next) == rest
                                  && |page.rows| == BoundPageSize(limit))
  {
    PageMeaning(db, household, f, limit, cursor);
    var page, rest := List(db, household, f, limit, cursor), Rest(db, household, f, cursor);
    hide List;
    hide Matching;
    if page.next.NoCursor? {
      OrderedIsUnique(page.rows, rest);
    } else {
      var later := Rest(db, household, f, page.next);
      DownAppend(page.rows, later, cursor);
      forall p ensures p in page.rows + later <==> p in rest {
        if p in later && cursor.At? {
          assert Precedes(cursor.place, page.next.place) && Precedes(page.next.place, p);
        }
      }
      OrderedIsUnique(page.rows + later, rest);
    }
  }

  lemma RestAtFirst(db: Db, household: Id, f: Filter)
    ensures Rest(db, household, f, NoCursor) == Ordered(Matching(db, household, f))
  {
    assert (set p | p in Matching(db, household, f) && Beyond(NoCursor, p)) == Matching(db, household, f);
  }

  /** Every live transaction of the household that passes, once, newest first and
      by descending id within an instant. */
  ghost predicate IsList(db: Db, household: Id, f: Filter, all: seq<Place>) {
    && (forall p :: p in all <==>
          && IsLive(db, household, Key(TransactionKind, p.id))
          && db.rows[Key(TransactionKind, p.id)].state.OfTransaction?
          && db.rows[Key(TransactionKind, p.id)].state.transaction.occurredAt == p.occurredAt
          && Passes(db.rows[Key(TransactionKind, p.id)].state.transaction, f))
    && (forall i, j :: 0 <= i < j < |all| ==>
          all[i].occurredAt > all[j].occurredAt || (all[i].occurredAt == all[j].occurredAt && all[i].id > all[j].id))
  }

  lemma OrderedMeans(db: Db, household: Id, f: Filter)
    ensures IsList(db, household, f, Ordered(Matching(db, household, f)))
  {
    var all := Ordered(Matching(db, household, f));
    hide Passes;
    forall p
      ensures p in Matching(db, household, f) <==>
        && IsLive(db, household, Key(TransactionKind, p.id))
        && db.rows[Key(TransactionKind, p.id)].state.OfTransaction?
        && db.rows[Key(TransactionKind, p.id)].state.transaction.occurredAt == p.occurredAt
        && Passes(db.rows[Key(TransactionKind, p.id)].state.transaction, f)
    {
      var k := Key(TransactionKind, p.id);
      assert IsLive(db, household, k) && db.rows[k].state.OfTransaction? && Passes(db.rows[k].state.transaction, f) ==>
          Listed(db, household, f, k);
    }
    forall i, j | 0 <= i < j < |all| ensures Precedes(all[i], all[j]) {
    }
    hide Matching;
  }

  /** A client following nextCursor over a store at rest: it gets the whole
      filtered list in order, each row once, and every page but the last is
      full. */
  method ListAll(db: Db, household: Id, f: Filter, limit: Option<int>) returns (all: seq<Place>, pages: nat)
    ensures all == Ordered(Matching(db, household, f))
    ensures IsList(db, household, f, all)
    ensures pages >= 1 && (pages - 1) * BoundPageSize(limit) <= |all|
  {
    RestAtFirst(db, household, f);
    OrderedMeans(db, household, f);
    hide IsList;
    hide List;
    hide Matching;
    hide Ordered;
    hide Rest;
    hide StrictlyDown;
    hide BoundPageSize;
    all, pages := [], 0;
    var cursor := NoCursor;
    while true
      invariant !cursor.Malformed?
      invariant all + Rest(db, household, f, cursor) == Rest(db, household, f, NoCursor)
      invariant |all| == pages * BoundPageSize(limit)
      decreases |Rest(db, household, f, cursor)|
    {
      var page := List(db, household, f, limit, cursor);
      PageTakesFront(db, household, f, limit, cursor);
      if page.next.NoCursor? {
        all, pages := all + page.rows, pages + 1;
        return;
      }
      assert all + page.rows + Rest(db, household, f, page.next)
          == all + (page.rows + Rest(db, household, f, page.next));
      all, pages, cursor := all + page.rows, pages + 1, page.next;
    }
  }
}
