/** The cursor pull and a client that lives on it
    (backend/internal/service/sync.go Pull, repository/postgres PullChanges, and
    the pull phase of packages/local-data/src/sync/sync-engine.ts for a client
    without local edits). The pull reads the log first and each kind's states
    later, so batches may commit in between. */
module Replica {
  import opened Domain
  import opened Database
  import opened Adapters
  import opened Chronicle
  import opened Engine
  import opened Integrity
  import opened Preservation
  import opened Protocol

  // --- The server's page ------------------------------------------------------------------

  const DEFAULT_PULL_LIMIT := 100
  const MAX_PULL_LIMIT := 500

  function PageSize(limit: Option<int>): (size: nat)
    ensures 1 <= size <= MAX_PULL_LIMIT
    ensures limit.Some? && 1 <= limit.value <= MAX_PULL_LIMIT ==> size == limit.value
    ensures limit.Some? && limit.value > MAX_PULL_LIMIT ==> size == MAX_PULL_LIMIT
    ensures limit.None? || limit.value <= 0 ==> size == DEFAULT_PULL_LIMIT
  {
    if limit.Some? && limit.value > 0 then (if limit.value < MAX_PULL_LIMIT then limit.value else MAX_PULL_LIMIT)
    else DEFAULT_PULL_LIMIT
  }

  /** The household's log entries after a cursor, in order, up to a limit. */
  function PullChangeLog(log: seq<Change>, household: Id, after: nat, limit: nat): (page: seq<Change>)
    ensures |page| <= limit
  {
    if log == [] || limit == 0 then []
    else if log[0].household == household && log[0].seqNo > after
    then [log[0]] + PullChangeLog(log[1..], household, after, limit - 1)
    else PullChangeLog(log[1..], household, after, limit)
  }

  /** The payload the pull builds from a stored state: it leaves out a debtor's
      currency and a transfer's credit. */
  function PulledState(state: FullState): FullState {
    match state
    case OfTransaction(t) => OfTransaction(WithoutCredit(t))
    case OfDebtor(d) => OfDebtor(d.(currency := ""))
    case _ => state
  }

  /** The batches that commit while one pull is served, and after how many of
      them each kind's states are read. */
  datatype Meanwhile = Meanwhile(
    batches: seq<Batch>,
    accounts: nat, categories: nat, transactions: nat, debtors: nat, operations: nat, plans: nat)

  const QUIET := Meanwhile([], 0, 0, 0, 0, 0, 0)

  function ReadAfter(m: Meanwhile, kind: Kind): nat {
    match kind
    case AccountKind => m.accounts
    case CategoryKind => m.categories
    case TransactionKind => m.transactions
    case DebtorKind => m.debtors
    case DebtOperationKind => m.operations
    case PlannedPaymentKind => m.plans
  }

  /** The database a kind's states are read from, when the log was read from db. */
  function StatesOf(db: Db, m: Meanwhile, kind: Kind): Db {
    var n := ReadAfter(m, kind);
    Run(db, if n <= |m.batches| then m.batches[..n] else m.batches)
  }

  /** The database when the pull is answered. */
  function Later(db: Db, m: Meanwhile): Db {
    Run(db, m.batches)
  }

  /** A delivered change: an upsert carries the state read, which may be newer
      than the change's version and than the page. */
  datatype SyncChange = SyncChange(change: Change, data: Option<FullState>)

  function Delivered(view: Db, household: Id, c: Change): SyncChange {
    SyncChange(c,
               if c.tombstone then None
               else match GetAny(view, household, c.key)
                    case None => None
                    case Some(row) => Some(PulledState(row.state)))
  }

  function Deliver(db: Db, m: Meanwhile, household: Id, c: Change): SyncChange {
    Delivered(StatesOf(db, m, c.key.kind), household, c)
  }

  function DeliverAll(db: Db, m: Meanwhile, household: Id, page: seq<Change>): seq<SyncChange> {
    seq(|page|, i requires 0 <= i < |page| => Deliver(db, m, household, page[i]))
  }

  function Pull(db: Db, household: Id, after: nat, size: nat): seq<Change> {
    PullChangeLog(db.log, household, after, size)
  }

  /** A full page announces a next cursor, a short one says caught up. */
  function NextCursor(page: seq<Change>, size: nat): Option<nat>
    requires size >= 1
  {
    if |page| == size then Some(page[|page| - 1].seqNo) else None
  }

  // --- The client ------------------------------------------------------------------------------

  datatype Local = Local(version: nat, deleted: bool, data: FullState)

  datatype Client = Client(replica: map<Key, Local>, cursor: nat)

  const MAX_SAFE_INTEGER := 0x1F_FFFF_FFFF_FFFF

  predicate SafeInteger(n: int) {
    -MAX_SAFE_INTEGER <= n <= MAX_SAFE_INTEGER
  }

  /** Written as four digits of year, two of month, two of day. */
  predicate CalendarDay(d: CivilDate) {
    0 <= d.year <= 9999
  }

  /** The payloads the client can turn into a row; any other it passes over. */
  predicate GivesRow(data: FullState) {
    match data
    case OfAccount(a) => IsCurrency(a.currency) && SafeInteger(a.openingBalance)
    case OfCategory(c) => IsCashflow(c.typ)
    case OfTransaction(t) =>
      && SafeInteger(t.amount)
      && (match t.typ
          case Transfer =>
            && t.amount >= 1 && t.fromAccountId.Some? && t.toAccountId.Some?
            && (t.destinationAmount.Some? && SafeInteger(t.destinationAmount.value) ==> t.destinationAmount.value > 0)
          case Adjustment => t.amount != 0 && t.accountId.Some?
          case Income => t.amount >= 1 && t.categoryId.Some?
          case Expense => t.amount >= 1 && t.categoryId.Some?
          case OtherType(_) => false)
    case OfDebtor(d) => IsCurrency(d.currency)
    case OfDebtOperation(o) =>
      !o.direction.OtherDirection? && !o.kind.OtherDebtKind? && SafeInteger(o.amount) && o.amount >= 1
    case OfPlan(p) =>
      PlanFields(p) && SafeInteger(p.amount) && CalendarDay(p.nextDue) && CalendarDay(p.anchorDate)
  }

  /** The records whose pulled state gives a row: no debtor, and numbers and days
      the client can read exactly. */
  predicate Readable(state: FullState) {
    match state
    case OfAccount(a) => SafeInteger(a.openingBalance)
    case OfCategory(_) => true
    case OfTransaction(t) => SafeInteger(t.amount)
    case OfDebtor(_) => false
    case OfDebtOperation(o) => SafeInteger(o.amount)
    case OfPlan(p) => SafeInteger(p.amount) && CalendarDay(p.nextDue) && CalendarDay(p.anchorDate)
  }

  /** Of a stored record the client makes a row exactly if it is readable, and the
      payload it makes it of is then the stored state, every field of it. */
  lemma StoredGivesRow(state: FullState)
    requires StoredShape(state)
    ensures GivesRow(PulledState(state)) <==> Readable(state)
    ensures !state.OfDebtor? ==> PulledState(state) == state
  {
  }

  /** Of a debtor the pull tells the name, with an empty currency. */
  lemma DebtorsLoseTheirCurrency(name: string, currency: string)
    ensures PulledState(OfDebtor(Debtor(name, currency))) == OfDebtor(Debtor(name, ""))
  {
  }

  /** applyPullChange on a record without local edits. */
  function Absorb(replica: map<Key, Local>, s: SyncChange): map<Key, Local> {
    var c := s.change;
    var row := if !c.tombstone && s.data.Some? && GivesRow(s.data.value) then s.data else None;
    if c.key !in replica then
      if row.None? then replica else replica[c.key := Local(c.version, false, row.value)]
    else if c.version <= replica[c.key].version then replica
    else if c.tombstone then replica[c.key := replica[c.key].(version := c.version, deleted := true)]
    else if row.None? then replica
    else replica[c.key := Local(c.version, false, row.value)]
  }

  function AbsorbAll(replica: map<Key, Local>, changes: seq<SyncChange>): map<Key, Local>
    decreases |changes|
  {
    if changes == [] then replica else AbsorbAll(Absorb(replica, changes[0]), changes[1..])
  }

  /** The saved cursor: the page's next cursor, else its last entry, else what
      it was. */
  function SaveCursor(cursor: nat, page: seq<Change>, size: nat): nat
    requires size >= 1
  {
    match NextCursor(page, size)
    case Some(next) => next
    case None => if page == [] then cursor else page[|page| - 1].seqNo
  }

  function PullOnce(db: Db, m: Meanwhile, household: Id, client: Client, size: nat): Client
    requires size >= 1
  {
    var page := Pull(db, household, client.cursor, size);
    Client(AbsorbAll(client.replica, DeliverAll(db, m, household, page)), SaveCursor(client.cursor, page, size))
  }

  // --- How far a client has come -----------------------------------------------------------------

  /** How many log entries a cursor lies behind. */
  function PrefixLength(log: seq<Change>, cursor: nat): (n: nat)
    ensures n <= |log|
    decreases |log|
  {
    if log == [] then 0
    else if log[|log| - 1].seqNo <= cursor then |log|
    else PrefixLength(log[..|log| - 1], cursor)
  }

  lemma {:induction false} PrefixCovers(db: Db, log: seq<Change>, cursor: nat)
    requires SeqsRise(db) && log <= db.log
    ensures var n := PrefixLength(log, cursor);
            && (forall i :: 0 <= i < n ==> log[i].seqNo <= cursor)
            && (forall i :: n <= i < |log| ==> log[i].seqNo > cursor)
    decreases |log|
  {
    if log != [] {
      assert forall i :: 0 <= i < |log| ==> log[i] == db.log[i];
      if log[|log| - 1].seqNo > cursor {
        PrefixCovers(db, log[..|log| - 1], cursor);
      }
    }
  }

  lemma PrefixIs(db: Db, cursor: nat, n: nat)
    requires SeqsRise(db) && n <= |db.log|
    requires forall i :: 0 <= i < n ==> db.log[i].seqNo <= cursor
    requires forall i :: n <= i < |db.log| ==> db.log[i].seqNo > cursor
    ensures PrefixLength(db.log, cursor) == n
  {
    PrefixCovers(db, db.log, cursor);
    var m := PrefixLength(db.log, cursor);
    var x := if m < n then m else n;
    assert x < |db.log| ==> (x < m <==> db.log[x].seqNo <= cursor) && (x < n <==> db.log[x].seqNo <= cursor);
  }

  lemma PrefixAt(db: Db, n: nat)
    requires SeqsRise(db) && 1 <= n <= |db.log|
    ensures PrefixLength(db.log, db.log[n - 1].seqNo) == n
    ensures db.log[n - 1].seqNo < db.nextSeq
  {
    PrefixIs(db, db.log[n - 1].seqNo, n);
  }

  /** The client's copy of a record the history has reached: never ahead of it,
      and tombstoned with it. */
  predicate Heard(local: Local, mark: Mark) {
    && local.version <= mark.version
    && (if mark.deleted then local.deleted && local.version == mark.version else !local.deleted)
  }

  /** What the client holds of a record whose last state the history has reached:
      that state, where it is readable, under the history's version; else, of a
      live record, at most an older one. */
  predicate Settled(replica: map<Key, Local>, k: Key, mark: Mark, state: FullState) {
    if Readable(state) then
      && k in replica && replica[k].version == mark.version && replica[k].deleted == mark.deleted
      && (!mark.deleted ==> replica[k].data == state)
    else
      !mark.deleted && k in replica ==> replica[k].version < mark.version
  }

  /** The replica follows the history of the first n entries, never holds a
      debtor, and has settled every record the rest does not write anew. */
  ghost predicate InStep(db: Db, household: Id, replica: map<Key, Local>, n: nat)
  {
    && n <= |db.log|
    && var history := Replay(db.log[..n], household);
       && (forall k :: k in replica ==> k in history && !k.kind.DebtorKind? && Heard(replica[k], history[k]))
       && (forall k :: k in history && NotRewritten(db.log, n, household, k) ==>
             GetAny(db, household, k).Some? && Settled(replica, k, history[k], GetAny(db, household, k).value.state))
  }

  /** The household's entries of a log. */
  function OwnLog(log: seq<Change>, household: Id): seq<Change>
    decreases |log|
  {
    if log == [] then []
    else
      var front := OwnLog(log[..|log| - 1], household);
      if log[|log| - 1].household == household then front + [log[|log| - 1]] else front
  }

  // --- Absorbing one entry ---------------------------------------------------------------------------

  lemma PrefixStep(log: seq<Change>, i: nat)
    requires i < |log|
    ensures log[..i + 1][..i] == log[..i] && log[..i + 1][i] == log[i]
  {
  }

  lemma SkipOther(db: Db, household: Id, replica: map<Key, Local>, i: nat)
    requires InStep(db, household, replica, i) && i < |db.log| && db.log[i].household != household
    ensures InStep(db, household, replica, i + 1)
    ensures OwnLog(db.log[..i + 1], household) == OwnLog(db.log[..i], household)
  {
    PrefixStep(db.log, i);
    forall k | NotRewritten(db.log, i + 1, household, k) ensures NotRewritten(db.log, i, household, k) {
    }
  }

  lemma {:induction false} HistoryGrows(log: seq<Change>, household: Id, n: nat, key: Key)
    requires n <= |log| && key in Replay(log[..n], household)
    ensures key in Replay(log, household)
    decreases |log|
  {
    if n < |log| {
      assert log[..|log| - 1][..n] == log[..n];
      HistoryGrows(log[..|log| - 1], household, n, key);
    } else {
      assert log[..n] == log;
    }
  }

  /** A logged record of a member household has a row. */
  lemma LoggedHasRow(db: Db, household: Id, i: nat)
    requires LogAgrees(db) && household in db.world.members
    requires i < |db.log| && db.log[i].household == household
    ensures GetAny(db, household, db.log[i].key).Some?
  {
    PrefixStep(db.log, i);
    HistoryGrows(db.log, household, i + 1, db.log[i].key);
    assert Chronicled(db, household);
    assert db.log[i].key in Standing(db.rows, household);
  }

  /** The next entry of the log continues the history. */
  lemma NextFollows(db: Db, household: Id, i: nat)
    requires LogAgrees(db) && household in db.world.members
    requires i < |db.log| && db.log[i].household == household
    ensures var c, history := db.log[i], Replay(db.log[..i], household);
            && Follows(history, c)
            && Replay(db.log[..i + 1], household) == history[c.key := Mark(c.version, c.tombstone)]
    ensures OwnLog(db.log[..i + 1], household) == OwnLog(db.log[..i], household) + [db.log[i]]
  {
    PrefixStep(db.log, i);
    assert Chronicled(db, household);
  }

  /** The state read for an entry is the record's last one, unless the log writes
      the record anew afterwards. */
  lemma ViewedState(view: Db, db: Db, household: Id, i: nat)
    requires LogAgrees(view) && RowsOk(view) && Extends(view, db) && household in view.world.members
    requires i < |view.log| && db.log[i].household == household
    ensures var k := db.log[i].key;
            && GetAny(view, household, k).Some? && GetAny(db, household, k).Some?
            && KindOf(GetAny(view, household, k).value.state) == k.kind
            && StoredShape(GetAny(view, household, k).value.state)
            && (NotRewritten(db.log, i + 1, household, k) ==>
                  GetAny(view, household, k).value.state == GetAny(db, household, k).value.state)
  {
    assert db.log[..|view.log|][i] == view.log[i];
    LoggedHasRow(view, household, i);
    var k := db.log[i].key;
    if NotRewritten(db.log, i + 1, household, k) {
      assert NotRewritten(db.log, |view.log|, household, k);
    }
  }

  lemma AbsorbOwn(db: Db, view: Db, household: Id, replica: map<Key, Local>, i: nat)
    requires LogAgrees(db) && LogAgrees(view) && RowsOk(view) && Extends(view, db) && household in view.world.members
    requires i < |view.log| && db.log[i].household == household
    requires InStep(db, household, replica, i)
    ensures InStep(db, household, Absorb(replica, Delivered(view, household, db.log[i])), i + 1)
    ensures OwnLog(db.log[..i + 1], household) == OwnLog(db.log[..i], household) + [db.log[i]]
  {
    NextFollows(db, household, i);
    ViewedState(view, db, household, i);
    hide LogAgrees;
    hide RowsOk;
    hide Extends;
    AbsorbedSettles(db, view, household, replica, i);
    hide InStep;
    AbsorbTouchesOne(replica, Delivered(view, household, db.log[i]));
    hide Absorb;
    hide Delivered;
    hide Settled;
    StepsForward(db, household, replica, Absorb(replica, Delivered(view, household, db.log[i])), i);
  }

  predicate SameElsewhere(replica: map<Key, Local>, after: map<Key, Local>, key: Key) {
    && (forall k :: k in replica && k != key ==> k in after && after[k] == replica[k])
    && (forall k :: k in after && k != key ==> k in replica)
  }

  lemma AbsorbTouchesOne(replica: map<Key, Local>, s: SyncChange)
    ensures SameElsewhere(replica, Absorb(replica, s), s.change.key)
  {
    hide GivesRow;
  }

  lemma StepsForward(db: Db, household: Id, replica: map<Key, Local>, after: map<Key, Local>, i: nat)
    requires i < |db.log| && InStep(db, household, replica, i)
    requires var c, history := db.log[i], Replay(db.log[..i], household);
             var mark := Mark(c.version, c.tombstone);
             && Replay(db.log[..i + 1], household) == history[c.key := mark]
             && SameElsewhere(replica, after, c.key)
             && (c.key in after ==> !c.key.kind.DebtorKind? && Heard(after[c.key], mark))
             && GetAny(db, household, c.key).Some?
             && (NotRewritten(db.log, i + 1, household, c.key) ==>
                   Settled(after, c.key, mark, GetAny(db, household, c.key).value.state))
    ensures InStep(db, household, after, i + 1)
  {
    var c, history := db.log[i], Replay(db.log[..i], household);
    var mark := Mark(c.version, c.tombstone);
    hide Heard;
    hide Settled;
    hide Replay;
    hide GetAny;
    var longer := history[c.key := mark];
    forall k | k in after ensures k in longer && !k.kind.DebtorKind? && Heard(after[k], longer[k]) {
    }
    forall k | k in longer && NotRewritten(db.log, i + 1, household, k)
      ensures GetAny(db, household, k).Some? && Settled(after, k, longer[k], GetAny(db, household, k).value.state)
    {
      if k != c.key {
        assert NotRewritten(db.log, i, household, k);
        SettledSame(replica, after, k, history[k], GetAny(db, household, k).value.state);
      }
    }
    hide NotRewritten;
    hide SameElsewhere;
  }

  lemma SettledSame(replica: map<Key, Local>, after: map<Key, Local>, k: Key, mark: Mark, state: FullState)
    requires Settled(replica, k, mark, state)
    requires (k in after <==> k in replica) && (k in after ==> after[k] == replica[k])
    ensures Settled(after, k, mark, state)
  {
    hide Readable;
  }

  /** Absorbing an entry of a record whose last state is read settles it. */
  lemma AbsorbedSettles(db: Db, view: Db, household: Id, replica: map<Key, Local>, i: nat)
    requires i < |db.log| && InStep(db, household, replica, i)
    requires var c, history := db.log[i], Replay(db.log[..i], household);
             && c.household == household && Follows(history, c)
             && GetAny(view, household, c.key).Some? && GetAny(db, household, c.key).Some?
             && KindOf(GetAny(view, household, c.key).value.state) == c.key.kind
             && StoredShape(GetAny(view, household, c.key).value.state)
             && (NotRewritten(db.log, i + 1, household, c.key) ==>
                   GetAny(view, household, c.key).value.state == GetAny(db, household, c.key).value.state)
    ensures var c := db.log[i];
            var after, mark := Absorb(replica, Delivered(view, household, c)), Mark(c.version, c.tombstone);
            && (c.key in after ==> !c.key.kind.DebtorKind? && Heard(after[c.key], mark))
            && (NotRewritten(db.log, i + 1, household, c.key) ==>
                  Settled(after, c.key, mark, GetAny(db, household, c.key).value.state))
  {
    var c := db.log[i];
    DebtorsGiveNoRow(GetAny(view, household, c.key).value.state);
    StoredGivesRow(GetAny(view, household, c.key).value.state);
    hide GivesRow;
    hide Readable;
    hide StoredShape;
    hide PulledState;
    if NotRewritten(db.log, i + 1, household, c.key) && c.tombstone {
      assert NotRewritten(db.log, i, household, c.key);
    }
  }

  /** The pull leaves out a debtor's currency, and the client takes no debtor
      without one. */
  lemma DebtorsGiveNoRow(state: FullState)
    ensures state.OfDebtor? ==> !GivesRow(PulledState(state))
  {
  }

  // --- Absorbing a page --------------------------------------------------------------------------------

  predicate NoneOwnFrom(log: seq<Change>, n: nat, household: Id) {
    forall i :: n <= i < |log| ==> log[i].household != household
  }

  /** A pull served by a sound database, with members' batches meanwhile. */
  ghost predicate Serving(db: Db, m: Meanwhile, household: Id) {
    Invariant(db) && household in db.world.members && FromMembers(db.world, m.batches)
  }

  /** Every read of the pull lies between its log read and its answer. */
  lemma ReadsLieBetween(db: Db, m: Meanwhile, household: Id, kind: Kind)
    requires Serving(db, m, household)
    ensures var view, later := StatesOf(db, m, kind), Later(db, m);
            && Invariant(view) && Extends(db, view)
            && Invariant(later) && Extends(view, later) && Extends(db, later)
  {
    var n := if ReadAfter(m, kind) <= |m.batches| then ReadAfter(m, kind) else |m.batches|;
    assert m.batches[..n] + m.batches[n..] == m.batches && m.batches[..|m.batches|] == m.batches;
    RunKeepsPart(db, m.batches[..n], m.batches[n..]);
    RunKeeps(db, m.batches[..n]);
    RunKeeps(db, m.batches);
    RunSplits(db, m.batches[..n], m.batches[n..]);
    RunKeeps(StatesOf(db, m, kind), m.batches[n..]);
  }

  lemma PrefixKept(before: Db, after: Db, i: nat)
    requires Extends(before, after) && i <= |before.log|
    ensures |before.log| <= |after.log| && after.log[..i] == before.log[..i]
    ensures i < |before.log| ==> after.log[i] == before.log[i]
  {
    assert after.log[..|before.log|][..i] == after.log[..i];
    assert i < |before.log| ==> after.log[..|before.log|][i] == after.log[i];
  }

  lemma AbsorbNext(db: Db, m: Meanwhile, household: Id, replica: map<Key, Local>, i: nat)
    requires Serving(db, m, household) && i < |db.log| && db.log[i].household == household
    requires InStep(Later(db, m), household, replica, i)
    ensures InStep(Later(db, m), household, Absorb(replica, Deliver(db, m, household, db.log[i])), i + 1)
    ensures OwnLog(db.log[..i + 1], household) == OwnLog(db.log[..i], household) + [db.log[i]]
  {
    var kind := db.log[i].key.kind;
    var view, later := StatesOf(db, m, kind), Later(db, m);
    ReadsLieBetween(db, m, household, kind);
    PrefixKept(db, view, i);
    PrefixKept(db, later, i);
    InvariantLog(db);
    InvariantLog(view);
    InvariantLog(later);
    InvariantRows(view);
    WorldKept(db, view);
    WorldKept(view, later);
    NextFollows(db, household, i);
    hide Invariant;
    hide InStep;
    hide Run;
    AbsorbOwn(later, view, household, replica, i);
  }

  lemma SkipNext(db: Db, m: Meanwhile, household: Id, replica: map<Key, Local>, i: nat)
    requires Serving(db, m, household) && i < |db.log| && db.log[i].household != household
    requires InStep(Later(db, m), household, replica, i)
    ensures InStep(Later(db, m), household, replica, i + 1)
    ensures OwnLog(db.log[..i + 1], household) == OwnLog(db.log[..i], household)
  {
    ReadsLieBetween(db, m, household, AccountKind);
    PrefixKept(db, Later(db, m), i);
    PrefixStep(db.log, i);
    hide Invariant;
    hide InStep;
    hide Extends;
    SkipOther(Later(db, m), household, replica, i);
  }

  lemma DeliverAllSplit(db: Db, m: Meanwhile, household: Id, c: Change, rest: seq<Change>, replica: map<Key, Local>)
    ensures AbsorbAll(replica, DeliverAll(db, m, household, [c] + rest))
            == AbsorbAll(Absorb(replica, Deliver(db, m, household, c)), DeliverAll(db, m, household, rest))
  {
    hide Deliver;
    hide Absorb;
    assert DeliverAll(db, m, household, [c] + rest)[1..] == DeliverAll(db, m, household, rest);
  }

  /** A page taken from position i brings the client to j, just past the page's
      last entry; a short page leaves nothing of the household's beyond. */
  ghost predicate PageBrings(
    db: Db, m: Meanwhile, household: Id, replica: map<Key, Local>, page: seq<Change>, size: nat, i: nat, j: nat)
  {
    && i <= j <= |db.log|
    && InStep(Later(db, m), household, AbsorbAll(replica, DeliverAll(db, m, household, page)), j)
    && OwnLog(db.log[..j], household) == OwnLog(db.log[..i], household) + page
    && (if page == [] then j == i else i < j && page[|page| - 1] == db.log[j - 1])
    && (|page| < size ==> NoneOwnFrom(db.log, j, household))
  }

  lemma PageEnds(db: Db, m: Meanwhile, household: Id, replica: map<Key, Local>, size: nat, i: nat)
    requires i <= |db.log| && InStep(Later(db, m), household, replica, i)
    requires size == 0 || NoneOwnFrom(db.log, i, household)
    ensures PageBrings(db, m, household, replica, [], size, i, i)
  {
    hide InStep;
    assert OwnLog(db.log[..i], household) + [] == OwnLog(db.log[..i], household);
  }

  lemma PageOwn(db: Db, m: Meanwhile, household: Id, replica: map<Key, Local>, rest: seq<Change>, size: nat, i: nat, j: nat)
    requires Serving(db, m, household)
    requires i < |db.log| && InStep(Later(db, m), household, replica, i) && db.log[i].household == household
    requires PageBrings(db, m, household, Absorb(replica, Deliver(db, m, household, db.log[i])), rest, size, i + 1, j)
    ensures PageBrings(db, m, household, replica, [db.log[i]] + rest, size + 1, i, j)
  {
    AbsorbNext(db, m, household, replica, i);
    DeliverAllSplit(db, m, household, db.log[i], rest, replica);
    PageLonger(db.log, household, rest, size, i, j);
    hide InStep;
    hide Serving;
    hide Absorb;
    hide Deliver;
    hide Later;
    hide AbsorbAll;
    hide DeliverAll;
    hide OwnLog;
    hide NoneOwnFrom;
  }

  lemma PageLonger(log: seq<Change>, household: Id, rest: seq<Change>, size: nat, i: nat, j: nat)
    requires i < j <= |log| && if rest == [] then j == i + 1 else i + 1 < j && rest[|rest| - 1] == log[j - 1]
    requires OwnLog(log[..i + 1], household) == OwnLog(log[..i], household) + [log[i]]
    requires OwnLog(log[..j], household) == OwnLog(log[..i + 1], household) + rest
    ensures var page := [log[i]] + rest;
            && page != [] && page[|page| - 1] == log[j - 1] && |page| == |rest| + 1
            && OwnLog(log[..j], household) == OwnLog(log[..i], household) + page
  {
    hide OwnLog;
    TakeFirst(OwnLog(log[..i], household), log[i], rest);
  }

  lemma TakeFirst(page: seq<Change>, c: Change, rest: seq<Change>)
    ensures page + ([c] + rest) == (page + [c]) + rest
  {
  }

  lemma PageOther(db: Db, m: Meanwhile, household: Id, replica: map<Key, Local>, page: seq<Change>, size: nat, i: nat, j: nat)
    requires Serving(db, m, household)
    requires i < |db.log| && InStep(Later(db, m), household, replica, i) && db.log[i].household != household
    requires PageBrings(db, m, household, replica, page, size, i + 1, j)
    ensures PageBrings(db, m, household, replica, page, size, i, if page == [] then i else j)
  {
    SkipNext(db, m, household, replica, i);
    hide InStep;
    hide Serving;
    hide Later;
    hide AbsorbAll;
    hide DeliverAll;
    hide OwnLog;
    if page == [] {
      if size > 0 {
        assert NoneOwnFrom(db.log, i, household);
      }
      PageEnds(db, m, household, replica, size, i);
    }
  }

  lemma {:induction false} AbsorbPage(
    db: Db, m: Meanwhile, household: Id, replica: map<Key, Local>, after: nat, size: nat, i: nat)
    returns (j: nat)
    requires Serving(db, m, household)
    requires i <= |db.log| && InStep(Later(db, m), household, replica, i)
    requires forall x :: i <= x < |db.log| ==> db.log[x].seqNo > after
    ensures PageBrings(db, m, household, replica, PullChangeLog(db.log[i..], household, after, size), size, i, j)
    decreases |db.log| - i
  {
    hide InStep;
    hide PageBrings;
    hide Serving;
    hide Absorb;
    hide Deliver;
    hide Later;
    PullStep(db.log, household, after, size, i);
    hide PullChangeLog;
    if i == |db.log| || size == 0 {
      j := i;
      PageEnds(db, m, household, replica, size, i);
    } else if db.log[i].household == household {
      AbsorbNext(db, m, household, replica, i);
      var next := Absorb(replica, Deliver(db, m, household, db.log[i]));
      j := AbsorbPage(db, m, household, next, after, size - 1, i + 1);
      PageOwn(db, m, household, replica, PullChangeLog(db.log[i + 1..], household, after, size - 1), size - 1, i, j);
    } else {
      SkipNext(db, m, household, replica, i);
      var page := PullChangeLog(db.log[i + 1..], household, after, size);
      j := AbsorbPage(db, m, household, replica, after, size, i + 1);
      PageOther(db, m, household, replica, page, size, i, j);
      j := if page == [] then i else j;
    }
  }

  lemma PullStep(log: seq<Change>, household: Id, after: nat, size: nat, i: nat)
    requires i <= |log|
    ensures i == |log| || size == 0 ==> PullChangeLog(log[i..], household, after, size) == []
    ensures i < |log| && size > 0 ==>
              PullChangeLog(log[i..], household, after, size)
              == if log[i].household == household && log[i].seqNo > after
                 then [log[i]] + PullChangeLog(log[i + 1..], household, after, size - 1)
                 else PullChangeLog(log[i + 1..], household, after, size)
  {
    if i < |log| {
      assert log[i..][1..] == log[i + 1..];
    }
  }

  lemma {:induction false} PullSkipsPrefix(log: seq<Change>, household: Id, after: nat, size: nat, n: nat)
    requires n <= |log| && forall i :: 0 <= i < n ==> log[i].seqNo <= after
    ensures PullChangeLog(log, household, after, size) == PullChangeLog(log[n..], household, after, size)
    decreases n
  {
    if n > 0 && size > 0 {
      PullSkipsPrefix(log[1..], household, after, size, n - 1);
      assert log[1..][n - 1..] == log[n..];
    } else if n == 0 {
      assert log[0..] == log;
    }
  }

  // --- A client's life: pushes of anyone before, between and during its pulls ---------------------------------

  datatype Event = Pushed(batch: Batch) | Pulled(limit: Option<int>, meanwhile: Meanwhile)

  /** received is every entry the client was ever handed, in order. */
  datatype Session = Session(db: Db, client: Client, received: seq<Change>)

  function Next(s: Session, household: Id, e: Event): Session {
    match e
    case Pushed(batch) => s.(db := Push(s.db, batch))
    case Pulled(limit, m) =>
      var size := PageSize(limit);
      Session(Later(s.db, m),
              PullOnce(s.db, m, household, s.client, size),
              s.received + Pull(s.db, household, s.client.cursor, size))
  }

  function Play(s: Session, household: Id, events: seq<Event>): Session
    decreases |events|
  {
    if events == [] then s else Next(Play(s, household, events[..|events| - 1]), household, events[|events| - 1])
  }

  predicate EventFromMembers(world: World, e: Event) {
    match e
    case Pushed(batch) => batch.scope.household in world.members
    case Pulled(_, m) => FromMembers(world, m.batches)
  }

  predicate EventsFromMembers(world: World, events: seq<Event>) {
    forall i :: 0 <= i < |events| ==> EventFromMembers(world, events[i])
  }

  /** The client is in step with the log up to its cursor, having received
      exactly the household's entries there, in order, none skipped or repeated. */
  ghost predicate SessionOk(s: Session, household: Id) {
    && Invariant(s.db) && household in s.db.world.members
    && s.client.cursor < s.db.nextSeq
    && var n := PrefixLength(s.db.log, s.client.cursor);
       && InStep(s.db, household, s.client.replica, n)
       && s.received == OwnLog(s.db.log[..n], household)
  }

  /** The pull told truly: caught up means that, when the log was read, nothing
      of the household's lay beyond the new cursor. */
  ghost predicate ToldTruly(s: Session, household: Id, limit: Option<int>, m: Meanwhile) {
    var after, size := Next(s, household, Pulled(limit, m)), PageSize(limit);
    var page := Pull(s.db, household, s.client.cursor, size);
    && (NextCursor(page, size).None? ==>
          NoneOwnFrom(s.db.log, PrefixLength(after.db.log, after.client.cursor), household))
    && (page != [] ==>
          PrefixLength(after.db.log, after.client.cursor) > PrefixLength(s.db.log, s.client.cursor))
  }

  lemma PullKeepsStep(s: Session, household: Id, limit: Option<int>, m: Meanwhile)
    requires SessionOk(s, household) && FromMembers(s.db.world, m.batches)
    ensures SessionOk(Next(s, household, Pulled(limit, m)), household)
    ensures Next(s, household, Pulled(limit, m)).db.world == s.db.world
    ensures ToldTruly(s, household, limit, m)
  {
    var j := PagePulled(s, household, limit, m);
    hide Invariant;
    hide InStep;
    hide Extends;
    hide Later;
    hide AbsorbAll;
    hide DeliverAll;
    hide Pull;
    hide SaveCursor;
    hide OwnLog;
  }

  /** Where a pull brings the client. */
  lemma PagePulled(s: Session, household: Id, limit: Option<int>, m: Meanwhile) returns (j: nat)
    requires SessionOk(s, household) && FromMembers(s.db.world, m.batches)
    ensures var db, later, size, cursor := s.db, Later(s.db, m), PageSize(limit), s.client.cursor;
            var n, page := PrefixLength(db.log, cursor), Pull(db, household, cursor, size);
            && PageBrings(db, m, household, s.client.replica, page, size, n, j)
            && later.log[..j] == db.log[..j]
            && PrefixLength(later.log, SaveCursor(cursor, page, size)) == j
            && SaveCursor(cursor, page, size) < later.nextSeq
            && Invariant(later) && later.world == db.world
            && s.received == OwnLog(db.log[..n], household)
  {
    var db, cursor, size := s.db, s.client.cursor, PageSize(limit);
    var later, n := Later(db, m), PrefixLength(db.log, cursor);
    ReadsLieBetween(db, m, household, AccountKind);
    hide Later;
    hide PageSize;
    InvariantLog(db);
    InvariantLog(later);
    hide Invariant;
    hide LogAgrees;
    WorldKept(db, later);
    PrefixStays(db, later, cursor);
    StepStays(db, later, household, s.client.replica, n);
    hide InStep;
    PrefixCovers(db, db.log, cursor);
    PullSkipsPrefix(db.log, household, cursor, size, n);
    j := AbsorbPage(db, m, household, s.client.replica, cursor, size, n);
    PrefixKept(db, later, j);
    CursorMoves(db, later, cursor, size, Pull(db, household, cursor, size), n, j, household);
    hide Extends;
    hide SeqsRise;
  }

  /** The saved cursor is where the page ends. */
  lemma CursorMoves(db: Db, later: Db, cursor: nat, size: nat, page: seq<Change>, n: nat, j: nat, household: Id)
    requires SeqsRise(db) && SeqsRise(later) && Extends(db, later) && size >= 1
    requires n <= j <= |db.log| && PrefixLength(later.log, cursor) == n && cursor < db.nextSeq
    requires if page == [] then j == n else n < j && page[|page| - 1] == db.log[j - 1]
    ensures var saved := SaveCursor(cursor, page, size);
            PrefixLength(later.log, saved) == j && saved < later.nextSeq
  {
    if page != [] {
      PrefixKept(db, later, j - 1);
      PrefixAt(later, j);
    }
  }

  lemma InvariantLog(db: Db)
    requires Invariant(db)
    ensures LogAgrees(db) && SeqsRise(db)
  {
  }

  lemma PushKeepsStep(s: Session, household: Id, batch: Batch)
    requires SessionOk(s, household) && batch.scope.household in s.db.world.members
    ensures SessionOk(Next(s, household, Pushed(batch)), household)
    ensures Next(s, household, Pushed(batch)).db.world == s.db.world
  {
    PushKeeps(s.db, batch);
    var before, after := s.db, Push(s.db, batch);
    InvariantLog(before);
    InvariantLog(after);
    PrefixStays(before, after, s.client.cursor);
    StepStays(before, after, household, s.client.replica, PrefixLength(before.log, s.client.cursor));
    hide Invariant;
    hide InStep;
  }

  /** What an older cursor covers does not change. */
  lemma PrefixStays(before: Db, after: Db, cursor: nat)
    requires Extends(before, after) && SeqsRise(before) && SeqsRise(after) && cursor < before.nextSeq
    ensures var n := PrefixLength(before.log, cursor);
            PrefixLength(after.log, cursor) == n && after.log[..n] == before.log[..n]
  {
    var n := PrefixLength(before.log, cursor);
    PrefixCovers(before, before.log, cursor);
    assert forall i :: 0 <= i < |before.log| ==> after.log[..|before.log|][i] == before.log[i];
    PrefixIs(after, cursor, n);
    assert after.log[..n] == after.log[..|before.log|][..n];
  }

  lemma StepStays(before: Db, after: Db, household: Id, replica: map<Key, Local>, n: nat)
    requires Extends(before, after) && household in before.world.members
    requires InStep(before, household, replica, n) && after.log[..n] == before.log[..n]
    ensures InStep(after, household, replica, n)
  {
    hide Settled;
    hide Heard;
    var history := Replay(before.log[..n], household);
    forall k | k in history && NotRewritten(after.log, n, household, k)
      ensures GetAny(after, household, k).Some? && Settled(replica, k, history[k], GetAny(after, household, k).value.state)
    {
      assert NotRewritten(before.log, n, household, k) by {
        assert forall i :: 0 <= i < |before.log| ==> after.log[..|before.log|][i] == before.log[i];
      }
      assert NotRewritten(after.log, |before.log|, household, k);
    }
  }

  /** However pushes and pulls interleave, the client stays in step. */
  lemma {:induction false} SessionStaysInStep(s: Session, household: Id, events: seq<Event>)
    requires SessionOk(s, household) && EventsFromMembers(s.db.world, events)
    ensures SessionOk(Play(s, household, events), household)
    ensures Play(s, household, events).db.world == s.db.world
    decreases |events|
  {
    hide SessionOk;
    hide Next;
    if events != [] {
      var front, last := events[..|events| - 1], events[|events| - 1];
      assert EventFromMembers(s.db.world, last);
      assert forall i :: 0 <= i < |front| ==> front[i] == events[i];
      SessionStaysInStep(s, household, front);
      var mid := Play(s, household, front);
      match last
      case Pushed(batch) => PushKeepsStep(mid, household, batch);
      case Pulled(limit, m) => PullKeepsStep(mid, household, limit, m);
    }
  }

  function NewClient(): Client {
    Client(map[], 0)
  }

  lemma FreshSessionOk(world: World, household: Id)
    requires household in world.members
    ensures SessionOk(Session(Empty(world), NewClient(), []), household)
  {
    EmptyIsInvariant(world);
  }

  // --- What a caught-up client holds ------------------------------------------------------------------------

  /** The client holds the record as the server does. */
  predicate Holds(replica: map<Key, Local>, k: Key, row: Row) {
    && k in replica && replica[k].version == row.version && replica[k].deleted == row.deleted
    && (!row.deleted ==> replica[k].data == row.state)
  }

  /** Record by record: one the server does not have, the client does not have;
      one whose state is readable, live or tombstoned, it holds; of any other live
      one it has at most an older version, and any other tombstone only as that.
      No debtor is ever held. */
  ghost predicate Mirrors(db: Db, household: Id, replica: map<Key, Local>) {
    && (forall k :: k in replica ==> !k.kind.DebtorKind? && GetAny(db, household, k).Some?)
    && forall k :: GetAny(db, household, k).Some? ==>
         var row := GetAny(db, household, k).value;
         && (Readable(row.state) ==> Holds(replica, k, row))
         && (!Readable(row.state) && !row.deleted && k in replica ==> replica[k].version < row.version)
         && (k in replica ==> replica[k].deleted == row.deleted && (row.deleted ==> replica[k].version == row.version))
  }

  lemma CaughtUpMirrors(s: Session, household: Id)
    requires SessionOk(s, household)
    requires NoneOwnFrom(s.db.log, PrefixLength(s.db.log, s.client.cursor), household)
    ensures Mirrors(s.db, household, s.client.replica)
  {
    var db, replica, n := s.db, s.client.replica, PrefixLength(s.db.log, s.client.cursor);
    NoneOwnReplay(db.log, household, n);
    assert Chronicled(db, household);
    hide Invariant;
    hide Readable;
    var history := Replay(db.log[..n], household);
    assert history == Standing(db.rows, household);
    forall k ensures k in history <==> GetAny(db, household, k).Some? {
    }
    forall k | k in history ensures history[k] == Mark(db.rows[k].version, db.rows[k].deleted) {
    }
    assert forall k :: NotRewritten(db.log, n, household, k);
  }

  lemma {:induction false} NoneOwnReplay(log: seq<Change>, household: Id, n: nat)
    requires n <= |log| && NoneOwnFrom(log, n, household)
    ensures Replay(log[..n], household) == Replay(log, household)
    decreases |log|
  {
    if n < |log| {
      assert log[..|log| - 1][..n] == log[..n];
      NoneOwnReplay(log[..|log| - 1], household, n);
    } else {
      assert log[..n] == log;
    }
  }

  /** Convergence: from a new server and a new client, after any interleaving of
      anyone's pushes with the client's pulls, a pull answered "caught up", during
      which nothing of the household was written, leaves the client mirroring the
      server. */
  lemma ReplicaConverges(world: World, household: Id, events: seq<Event>, limit: Option<int>, m: Meanwhile)
    requires household in world.members && EventsFromMembers(world, events) && FromMembers(world, m.batches)
    ensures var s := Play(Session(Empty(world), NewClient(), []), household, events);
            var after, size := Next(s, household, Pulled(limit, m)), PageSize(limit);
            NextCursor(Pull(s.db, household, s.client.cursor, size), size).None?
            && NoneOwnFrom(after.db.log, |s.db.log|, household) ==>
              Mirrors(after.db, household, after.client.replica)
  {
    FreshSessionOk(world, household);
    var start := Session(Empty(world), NewClient(), []);
    SessionStaysInStep(start, household, events);
    var s := Play(start, household, events);
    PullKeepsStep(s, household, limit, m);
    var after, size := Next(s, household, Pulled(limit, m)), PageSize(limit);
    if NextCursor(Pull(s.db, household, s.client.cursor, size), size).None? && NoneOwnFrom(after.db.log, |s.db.log|, household) {
      NothingBeyond(s, household, limit, m);
      CaughtUpMirrors(after, household);
    }
  }

  lemma NothingBeyond(s: Session, household: Id, limit: Option<int>, m: Meanwhile)
    requires Serving(s.db, m, household) && ToldTruly(s, household, limit, m)
    requires var after, size := Next(s, household, Pulled(limit, m)), PageSize(limit);
             && NextCursor(Pull(s.db, household, s.client.cursor, size), size).None?
             && NoneOwnFrom(after.db.log, |s.db.log|, household)
    ensures var after := Next(s, household, Pulled(limit, m));
            NoneOwnFrom(after.db.log, PrefixLength(after.db.log, after.client.cursor), household)
  {
    ReadsLieBetween(s.db, m, household, AccountKind);
    hide Serving;
    hide Invariant;
    hide PullOnce;
    hide Run;
    var after := Next(s, household, Pulled(limit, m));
    NoneInEither(s.db, after.db, household, PrefixLength(after.db.log, after.client.cursor));
    hide Extends;
  }

  lemma NoneInEither(before: Db, after: Db, household: Id, n: nat)
    requires Extends(before, after)
    requires NoneOwnFrom(before.log, n, household) && NoneOwnFrom(after.log, |before.log|, household)
    ensures NoneOwnFrom(after.log, n, household)
  {
    assert forall i :: 0 <= i < |before.log| ==> after.log[..|before.log|][i] == before.log[i];
  }

  /** A mirroring client shows exactly the server's live records if and only if
      none of them is a debtor or holds a number or day it cannot read. */
  lemma ShowsAllExactlyWhen(db: Db, household: Id, replica: map<Key, Local>)
    requires Mirrors(db, household, replica)
    ensures (forall k :: IsLive(db, household, k) ==> Holds(replica, k, db.rows[k]))
            <==> forall k :: IsLive(db, household, k) ==> Readable(db.rows[k].state)
    ensures forall k :: k in replica && !replica[k].deleted ==> IsLive(db, household, k)
  {
    forall k | IsLive(db, household, k)
      ensures Holds(replica, k, db.rows[k]) <==> Readable(db.rows[k].state)
    {
      assert GetAny(db, household, k).Some?;
    }
  }

  /** The client's pull phase, nothing being written meanwhile: page after page
      until the server says caught up. It ends, because every page but the last
      moves the cursor on. */
  method PullPhase(s: Session, household: Id, limit: Option<int>) returns (after: Session)
    requires SessionOk(s, household)
    ensures SessionOk(after, household) && after.db == s.db
    ensures Mirrors(s.db, household, after.client.replica)
    ensures after.received == OwnLog(s.db.log, household)
  {
    var size := PageSize(limit);
    after := s;
    while true
      invariant SessionOk(after, household) && after.db == s.db
      decreases |s.db.log| - PrefixLength(s.db.log, after.client.cursor)
    {
      var page := Pull(after.db, household, after.client.cursor, size);
      PullKeepsStep(after, household, limit, QUIET);
      assert Later(after.db, QUIET) == after.db;
      after := Next(after, household, Pulled(limit, QUIET));
      if NextCursor(page, size).None? {
        CaughtUpMirrors(after, household);
        NoneOwnRest(s.db.log, household, PrefixLength(s.db.log, after.client.cursor));
        return;
      }
    }
  }

  lemma {:induction false} NoneOwnRest(log: seq<Change>, household: Id, n: nat)
    requires n <= |log| && NoneOwnFrom(log, n, household)
    ensures OwnLog(log[..n], household) == OwnLog(log, household)
    decreases |log|
  {
    if n < |log| {
      assert log[..|log| - 1][..n] == log[..n];
      NoneOwnRest(log[..|log| - 1], household, n);
    } else {
      assert log[..n] == log;
    }
  }
}
