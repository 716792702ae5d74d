/** The auto-confirm sweep of one household
    (backend/internal/jobs/plannedconfirm/plannedconfirm.go): one transaction for
    every missed occurrence of every due plan, each with its plan's advance. */
module AutoConfirm {
  import opened Calendar
  import opened Domain
  import opened Database
  import opened WriteRules
  import opened Adapters
  import opened Chronicle
  import opened Integrity
  import opened Preservation
  import opened Service

  const DAY_MICROSECONDS := 86_400_000_000
  const NOON_MICROSECONDS := 43_200_000_000

  function DayOf(d: CivilDate): int {
    DayNumber(d)
  }

  /** Mid-day UTC of a civil day, counted from the day line's origin. */
  function NoonOf(d: CivilDate): int {
    DayOf(d) * DAY_MICROSECONDS + NOON_MICROSECONDS
  }

  /** The occurrence's transaction. */
  function Charge(p: PlannedPayment, due: CivilDate): Transaction {
    Transaction(p.typ, p.amount, p.name, NoonOf(due), Some(p.accountId), Some(p.categoryId), None, None, None)
  }

  function ChargeRow(household: Id, plan: Row, due: CivilDate): Row
    requires plan.state.OfPlan?
  {
    Row(household, plan.author, 1, false, OfTransaction(Charge(plan.state.plan, due)))
  }

  /** A row is the one transaction of a plan's occurrence: the plan's type, amount,
      name, account and category, at noon of the due day, by the plan's author. */
  predicate IsCharge(row: Row, household: Id, plan: Row, due: CivilDate)
    requires plan.state.OfPlan?
  {
    && row.owner == household && row.author == plan.author && row.version == 1 && !row.deleted
    && row.state.OfTransaction?
    && var t, p := row.state.transaction, plan.state.plan;
       && t.typ == p.typ && t.amount == p.amount && t.description == p.name
       && t.accountId == Some(p.accountId) && t.categoryId == Some(p.categoryId)
       && t.fromAccountId == None && t.toAccountId == None && t.destinationAmount == None
       && t.occurredAt / DAY_MICROSECONDS == DayNumber(due) && t.occurredAt % DAY_MICROSECONDS == NOON_MICROSECONDS
  }

  lemma ChargeRowIsCharge(household: Id, plan: Row, due: CivilDate)
    requires plan.state.OfPlan?
    ensures IsCharge(ChargeRow(household, plan, due), household, plan, due)
  {
    hide DayNumber;
  }

  /** The plan row n occurrences on. */
  function PlanAfter(plan: Row, n: nat): Row
    requires plan.state.OfPlan?
  {
    var p := plan.state.plan;
    plan.(version := plan.version + n, state := OfPlan(p.(nextDue := Occurrence(n, p.nextDue, p.anchorDate, p.regularity))))
  }

  predicate LivePlan(db: Db, household: Id, key: Key) {
    key.kind.PlannedPaymentKind? && IsLive(db, household, key) && db.rows[key].state.OfPlan?
  }

  predicate Due(db: Db, household: Id, key: Key, today: CivilDate) {
    LivePlan(db, household, key) && db.rows[key].state.plan.confirmMode.Auto?
    && DayOf(db.rows[key].state.plan.nextDue) <= DayOf(today)
  }

  function ChargeKey(id: Id): Key {
    Key(TransactionKind, id)
  }

  /** One occurrence of a live plan: the charge, then the advance. */
  function OccurrenceDone(db: Db, household: Id, key: Key, id: Id): (after: Db)
    requires LivePlan(db, household, key)
    ensures LivePlan(after, household, key)
  {
    var row := db.rows[key];
    var scope := Scope(household, row.author);
    Put(Put(db, scope, Write(ChargeKey(id), ChargeRow(household, row, row.state.plan.nextDue))),
        scope, Write(key, PlanAfter(row, 1)))
  }

  // --- One occurrence ------------------------------------------------------------------------

  /** The charge and the advance are writes the invariant allows. */
  lemma OccurrenceKeeps(db: Db, household: Id, key: Key, id: Id)
    requires Invariant(db) && household in db.world.members
    requires LivePlan(db, household, key) && Key(TransactionKind, id) !in db.rows
    ensures var row := db.rows[key];
            var scope := Scope(household, row.author);
            var mid := Put(db, scope, Write(Key(TransactionKind, id), ChargeRow(household, row, row.state.plan.nextDue)));
            var after := Put(mid, scope, Write(key, PlanAfter(row, 1)));
            Invariant(mid) && Invariant(after) && Extends(db, mid) && Extends(db, after)
  {
    var row := db.rows[key];
    var scope := Scope(household, row.author);
    var w := Write(Key(TransactionKind, id), ChargeRow(household, row, row.state.plan.nextDue));
    var mid := Put(db, scope, w);
    PlanRowFacts(db, household, key);
    ChargeIsSound(db, household, key, w);
    hide Invariant;
    hide PlanAfter;
    hide ChargeRow;
    OneUpsertKeeps(db, scope, w);
    PlanRowFacts(mid, household, key);
    AdvanceIsSound(mid, household, key);
    OneUpsertKeeps(mid, scope, Write(key, PlanAfter(row, 1)));
    ExtendsTransitive(db, mid, Put(mid, scope, Write(key, PlanAfter(row, 1))));
  }

  lemma PlanRowFacts(db: Db, household: Id, key: Key)
    requires Invariant(db) && household in db.world.members && LivePlan(db, household, key)
    ensures RefsLive(db, household, db.rows[key].state) && PlanFields(db.rows[key].state.plan) && RowsOk(db)
    ensures IsText(db.rows[key].state.plan.name)
  {
    assert StoredShape(db.rows[key].state);
  }

  lemma ChargeIsSound(db: Db, household: Id, key: Key, w: Write)
    requires LivePlan(db, household, key) && household in db.world.members
    requires RefsLive(db, household, db.rows[key].state) && PlanFields(db.rows[key].state.plan)
    requires IsText(db.rows[key].state.plan.name)
    requires w.key.kind.TransactionKind? && w.key !in db.rows
    requires w.row == ChargeRow(household, db.rows[key], db.rows[key].state.plan.nextDue)
    ensures SoundCommit(db, Scope(household, db.rows[key].author), None, [w])
  {
    hide IsText;
    forall t | RefersTo(w.row.state, t) ensures IsLive(db, household, t) {
      assert RefersTo(db.rows[key].state, t);
    }
  }

  lemma AdvanceIsSound(db: Db, household: Id, key: Key)
    requires LivePlan(db, household, key) && household in db.world.members
    requires RefsLive(db, household, db.rows[key].state) && PlanFields(db.rows[key].state.plan) && RowsOk(db)
    ensures SoundCommit(db, Scope(household, db.rows[key].author), None, [Write(key, PlanAfter(db.rows[key], 1))])
  {
    var row := PlanAfter(db.rows[key], 1);
    forall t | RefersTo(row.state, t) ensures IsLive(db, household, t) {
      assert RefersTo(db.rows[key].state, t);
    }
  }

  lemma OneUpsertKeeps(db: Db, scope: Scope, w: Write)
    requires Invariant(db) && SoundCommit(db, scope, None, [w])
    ensures Invariant(Put(db, scope, w)) && Extends(db, Put(db, scope, w))
  {
    CommitKeepsInvariant(db, scope, None, [w]);
    CommitExtends(db, scope, None, [w]);
    SinglePut(db, scope, [w]);
  }

  // --- Catching a plan up -----------------------------------------------------------------------

  /** The database after one occurrence per id. */
  function Confirmed(db: Db, household: Id, key: Key, ids: seq<Id>): (after: Db)
    requires LivePlan(db, household, key)
    ensures LivePlan(after, household, key)
    decreases |ids|
  {
    if ids == [] then db
    else OccurrenceDone(Confirmed(db, household, key, ids[..|ids| - 1]), household, key, ids[|ids| - 1])
  }

  /** Each id was unused when its occurrence took it. */
  ghost predicate Minted(db: Db, household: Id, key: Key, ids: seq<Id>)
    requires LivePlan(db, household, key)
    decreases |ids|
  {
    ids != [] ==>
      var front := ids[..|ids| - 1];
      Minted(db, household, key, front) && ChargeKey(ids[|ids| - 1]) !in Confirmed(db, household, key, front).rows
  }

  function DueAfter(p: PlannedPayment, n: nat): CivilDate {
    Occurrence(n, p.nextDue, p.anchorDate, p.regularity)
  }

  /** Exactly one transaction for each of the occurrences, on its own date, the
      plan that many occurrences on, and no other row touched. */
  ghost predicate ChargedOnce(before: Db, after: Db, household: Id, key: Key, ids: seq<Id>)
    requires LivePlan(before, household, key)
  {
    var plan := before.rows[key];
    && key in after.rows && after.rows[key] == PlanAfter(plan, |ids|)
    && (forall i :: 0 <= i < |ids| ==>
          ChargeKey(ids[i]) !in before.rows && ChargeKey(ids[i]) in after.rows
          && IsCharge(after.rows[ChargeKey(ids[i])], household, plan, DueAfter(plan.state.plan, i)))
    && (forall i, j :: 0 <= i < j < |ids| ==> ids[i] != ids[j])
    && (forall k :: k in after.rows && k !in before.rows ==> exists i :: 0 <= i < |ids| && k == ChargeKey(ids[i]))
    && (forall k :: k in before.rows && k != key ==> k in after.rows && after.rows[k] == before.rows[k])
  }

  lemma ChargedNext(before: Db, mid: Db, after: Db, household: Id, key: Key, ids: seq<Id>, id: Id, charge: Row)
    requires LivePlan(before, household, key) && ChargedOnce(before, mid, household, key, ids)
    requires ChargeKey(id) !in mid.rows
    requires var plan := before.rows[key];
             && IsCharge(charge, household, plan, DueAfter(plan.state.plan, |ids|))
             && after.rows == mid.rows[ChargeKey(id) := charge][key := PlanAfter(plan, |ids| + 1)]
    ensures ChargedOnce(before, after, household, key, ids + [id])
  {
    hide DueAfter;
    hide IsDate;
    hide PlanAfter;
    hide IsCharge;
    var all := ids + [id];
    assert all[|ids|] == id;
    assert after.rows[key] == PlanAfter(before.rows[key], |all|);
    forall i | 0 <= i < |all|
      ensures ChargeKey(all[i]) !in before.rows && ChargeKey(all[i]) in after.rows
              && IsCharge(after.rows[ChargeKey(all[i])], household, before.rows[key], DueAfter(before.rows[key].state.plan, i))
    {
      if i < |ids| {
        assert all[i] == ids[i] && ChargeKey(ids[i]) != ChargeKey(id);
      }
    }
    forall k | k in after.rows && k !in before.rows
      ensures exists i :: 0 <= i < |all| && k == ChargeKey(all[i])
    {
      if k != ChargeKey(id) {
        assert k in mid.rows;
        var i :| 0 <= i < |ids| && k == ChargeKey(ids[i]);
        assert all[i] == ids[i];
      }
    }
    hide ChargeKey;
    hide LivePlan;
  }

  /** However many occurrences a plan is caught up by, each is charged exactly
      once. */
  lemma {:induction false} ConfirmedCharges(db: Db, household: Id, key: Key, ids: seq<Id>)
    requires LivePlan(db, household, key) && Minted(db, household, key, ids)
    ensures ChargedOnce(db, Confirmed(db, household, key, ids), household, key, ids)
    decreases |ids|
  {
    hide DueAfter;
    hide IsDate;
    hide PlanAfter;
    hide ChargeRow;
    hide IsCharge;
    hide ChargedOnce;
    if ids == [] {
      ChargedNever(db, household, key);
    } else {
      var front, id := ids[..|ids| - 1], ids[|ids| - 1];
      ConfirmedCharges(db, household, key, front);
      PlanAfterNext(household, db.rows[key], |front|);
      var mid, after := Confirmed(db, household, key, front), Confirmed(db, household, key, ids);
      ChargedPlan(db, mid, household, key, front);
      var due := DueAfter(db.rows[key].state.plan, |front|);
      ChargeRowIsCharge(household, db.rows[key], due);
      ChargedNext(db, mid, after, household, key, front, id, ChargeRow(household, db.rows[key], due));
      assert front + [id] == ids;
    }
  }

  lemma ChargedNever(db: Db, household: Id, key: Key)
    requires LivePlan(db, household, key)
    ensures ChargedOnce(db, db, household, key, [])
  {
    NoOccurrences(db.rows[key]);
  }

  lemma ChargedPlan(before: Db, after: Db, household: Id, key: Key, ids: seq<Id>)
    requires LivePlan(before, household, key) && ChargedOnce(before, after, household, key, ids)
    ensures key in after.rows && after.rows[key] == PlanAfter(before.rows[key], |ids|)
  {
  }

  lemma NoOccurrences(plan: Row)
    requires plan.state.OfPlan?
    ensures PlanAfter(plan, 0) == plan
  {
  }

  lemma PlanAfterNext(household: Id, plan: Row, n: nat)
    requires plan.state.OfPlan?
    ensures PlanAfter(PlanAfter(plan, n), 1) == PlanAfter(plan, n + 1)
    ensures PlanAfter(plan, n).state.plan.nextDue == DueAfter(plan.state.plan, n)
    ensures PlanAfter(plan, n).author == plan.author
    ensures ChargeRow(household, PlanAfter(plan, n), DueAfter(plan.state.plan, n))
            == ChargeRow(household, plan, DueAfter(plan.state.plan, n))
  {
    var p := plan.state.plan;
    var q := PlanAfter(plan, n).state.plan;
    assert Occurrence(0, q.nextDue, p.anchorDate, p.regularity) == q.nextDue;
    assert Occurrence(1, q.nextDue, p.anchorDate, p.regularity) == AdvanceNextDue(q.nextDue, p.anchorDate, p.regularity);
  }

  /** Any number of occurrences keeps the invariant. */
  lemma {:induction false} ConfirmedKeeps(db: Db, household: Id, key: Key, ids: seq<Id>)
    requires Invariant(db) && household in db.world.members
    requires LivePlan(db, household, key) && Minted(db, household, key, ids)
    ensures var after := Confirmed(db, household, key, ids);
            Invariant(after) && Extends(db, after) && after.world == db.world
    decreases |ids|
  {
    hide IsDate;
    hide PlanAfter;
    hide ChargeRow;
    hide Invariant;
    hide Extends;
    if ids == [] {
      ExtendsItself(db);
    } else {
      var front, id := ids[..|ids| - 1], ids[|ids| - 1];
      ConfirmedKeeps(db, household, key, front);
      var mid := Confirmed(db, household, key, front);
      OccurrenceKeeps(mid, household, key, id);
      ExtendsTransitive(db, mid, Confirmed(db, household, key, ids));
    }
  }

  /** The first n occurrences have all arrived by today. */
  ghost predicate Arrived(p: PlannedPayment, today: CivilDate, n: nat) {
    && (forall i: nat :: i < n ==> DayOf(DueAfter(p, i)) <= DayOf(today))
    && DayOf(DueAfter(p, n)) >= DayOf(p.nextDue) + n
    && (n > 0 ==> n <= DayOf(today) - DayOf(p.nextDue) + 1)
  }

  lemma ArrivedNone(p: PlannedPayment, today: CivilDate)
    ensures DueAfter(p, 0) == p.nextDue && Arrived(p, today, 0)
  {
  }

  lemma ArrivedNext(p: PlannedPayment, today: CivilDate, n: nat)
    requires Arrived(p, today, n) && DayOf(DueAfter(p, n)) <= DayOf(today)
    ensures Arrived(p, today, n + 1)
    ensures DayOf(DueAfter(p, n + 1)) > DayOf(DueAfter(p, n))
  {
    AdvanceIsLater(DueAfter(p, n), p.anchorDate, p.regularity);
    hide AdvanceNextDue;
    hide IsDate;
    hide DayNumber;
  }

  /** A catch-up in progress: one occurrence per id, each of them due by today. */
  ghost predicate CatchingUp(before: Db, after: Db, household: Id, key: Key, today: CivilDate, ids: seq<Id>) {
    && LivePlan(before, household, key)
    && Minted(before, household, key, ids)
    && after == Confirmed(before, household, key, ids)
    && Arrived(before.rows[key].state.plan, today, |ids|)
  }

  lemma CatchUpBegins(db: Db, household: Id, key: Key, today: CivilDate)
    requires LivePlan(db, household, key)
    ensures CatchingUp(db, db, household, key, today, [])
  {
    ArrivedNone(db.rows[key].state.plan, today);
  }

  lemma CatchUpPlan(before: Db, mid: Db, household: Id, key: Key, today: CivilDate, ids: seq<Id>)
    requires CatchingUp(before, mid, household, key, today, ids)
    ensures LivePlan(before, household, key) && LivePlan(mid, household, key)
    ensures mid.rows[key].state.plan.nextDue == DueAfter(before.rows[key].state.plan, |ids|)
  {
    ConfirmedCharges(before, household, key, ids);
    hide IsDate;
  }

  lemma CatchUpContinues(before: Db, mid: Db, household: Id, key: Key, today: CivilDate, ids: seq<Id>, id: Id)
    requires CatchingUp(before, mid, household, key, today, ids)
    requires LivePlan(mid, household, key) && ChargeKey(id) !in mid.rows
    requires DayOf(mid.rows[key].state.plan.nextDue) <= DayOf(today)
    ensures var after := OccurrenceDone(mid, household, key, id);
            && CatchingUp(before, after, household, key, today, ids + [id])
            && DayOf(after.rows[key].state.plan.nextDue) > DayOf(mid.rows[key].state.plan.nextDue)
            && after.rows[key].state.plan.name == mid.rows[key].state.plan.name
  {
    CatchUpPlan(before, mid, household, key, today, ids);
    ArrivedNext(before.rows[key].state.plan, today, |ids|);
    assert (ids + [id])[..|ids|] == ids;
    hide OccurrenceDone;
    hide DayOf;
    hide DueAfter;
    hide IsDate;
    CatchUpPlan(before, OccurrenceDone(mid, household, key, id), household, key, today, ids + [id]);
  }

  // --- The sweep ------------------------------------------------------------------------------------

  /** Plans of the household still to be done are exactly those from position i
      on, and untouched. */
  ghost predicate Pending(now: Db, household: Id, today: CivilDate, plans: seq<Key>, i: nat)
    requires i <= |plans|
  {
    && (forall k :: Due(now, household, k, today) ==> k in plans[i..])
    && (forall j :: i <= j < |plans| ==> LivePlan(now, household, plans[j]))
  }

  /** Rows of before the sweep that are none of its first i plans stand as they
      did. */
  ghost predicate OthersStand(before: Db, now: Db, plans: seq<Key>, i: nat)
    requires i <= |plans|
  {
    forall k :: k in before.rows && k !in plans[..i] ==> k in now.rows && now.rows[k] == before.rows[k]
  }

  /** A new row charges an occurrence due by today of one of the plans. */
  ghost predicate ChargesOne(row: Row, before: Db, household: Id, today: CivilDate, plans: seq<Key>) {
    exists j, due: CivilDate :: 0 <= j < |plans| && LivePlan(before, household, plans[j])
      && IsCharge(row, household, before.rows[plans[j]], due) && DayOf(due) <= DayOf(today)
  }

  ghost predicate NewAreCharges(before: Db, now: Db, household: Id, today: CivilDate, plans: seq<Key>) {
    forall k :: k in now.rows && k !in before.rows ==> ChargesOne(now.rows[k], before, household, today, plans)
  }

  lemma SweepCharges(before: Db, mid: Db, after: Db, household: Id, today: CivilDate, plans: seq<Key>, i: nat, ids: seq<Id>)
    requires i < |plans| && forall a, b :: 0 <= a < b < |plans| ==> plans[a] != plans[b]
    requires forall j :: 0 <= j < |plans| ==> LivePlan(before, household, plans[j])
    requires OthersStand(before, mid, plans, i) && NewAreCharges(before, mid, household, today, plans)
    requires forall k :: k in before.rows ==> k in mid.rows
    requires CatchingUp(mid, after, household, plans[i], today, ids)
    ensures OthersStand(before, after, plans, i + 1) && NewAreCharges(before, after, household, today, plans)
    ensures forall k :: k in before.rows ==> k in after.rows
  {
    var key := plans[i];
    ConfirmedCharges(mid, household, key, ids);
    assert key !in plans[..i];
    ArrivedCharges(mid, after, household, key, today, ids);
    hide ChargedOnce;
    hide CatchingUp;
    hide DayOf;
    hide IsCharge;
    assert plans[..i + 1] == plans[..i] + [key];
    forall k | k in after.rows && k !in before.rows ensures ChargesOne(after.rows[k], before, household, today, plans) {
      if k in mid.rows {
        assert ChargesOne(mid.rows[k], before, household, today, plans);
      } else {
        var due :| IsCharge(after.rows[k], household, mid.rows[key], due) && DayOf(due) <= DayOf(today);
        assert IsCharge(after.rows[k], household, before.rows[plans[i]], due);
      }
    }
  }

  /** One plan's catch-up leaves other rows alone and adds charges due by today. */
  lemma ArrivedCharges(mid: Db, after: Db, household: Id, key: Key, today: CivilDate, ids: seq<Id>)
    requires CatchingUp(mid, after, household, key, today, ids)
    requires ChargedOnce(mid, after, household, key, ids)
    ensures forall k :: k in mid.rows && k != key ==> k in after.rows && after.rows[k] == mid.rows[k]
    ensures key in after.rows
    ensures forall k :: k in after.rows && k !in mid.rows ==>
              exists due: CivilDate :: IsCharge(after.rows[k], household, mid.rows[key], due) && DayOf(due) <= DayOf(today)
  {
    hide PlanAfter;
    hide IsCharge;
    hide DayOf;
    hide DueAfter;
    hide Confirmed;
    hide Minted;
    forall k | k in after.rows && k !in mid.rows
      ensures exists due: CivilDate :: IsCharge(after.rows[k], household, mid.rows[key], due) && DayOf(due) <= DayOf(today)
    {
      var x :| 0 <= x < |ids| && k == ChargeKey(ids[x]);
      assert IsCharge(after.rows[k], household, mid.rows[key], DueAfter(mid.rows[key].state.plan, x));
    }
  }

  lemma PlanDone(mid: Db, after: Db, household: Id, today: CivilDate, plans: seq<Key>, i: nat, ids: seq<Id>)
    requires i < |plans| && forall a, b :: 0 <= a < b < |plans| ==> plans[a] != plans[b]
    requires Pending(mid, household, today, plans, i)
    requires CatchingUp(mid, after, household, plans[i], today, ids)
    requires LivePlan(after, household, plans[i]) && DayOf(after.rows[plans[i]].state.plan.nextDue) > DayOf(today)
    ensures Pending(after, household, today, plans, i + 1)
  {
    ConfirmedCharges(mid, household, plans[i], ids);
    hide PlanAfter;
    hide ChargeRow;
    hide DayOf;
    hide IsDate;
    hide Confirmed;
    hide Minted;
    hide Arrived;
    forall k | Due(after, household, k, today) ensures k in plans[i + 1..] {
      assert k in mid.rows && k != plans[i];
      assert Due(mid, household, k, today);
    }
    forall j | i + 1 <= j < |plans| ensures LivePlan(after, household, plans[j]) {
      assert plans[i] != plans[j];
      assert LivePlan(mid, household, plans[j]);
    }
  }

  /** What the due scan returns: every due plan of the household, once. */
  ghost predicate Scanned(db: Db, household: Id, today: CivilDate, plans: seq<Key>) {
    && (forall k :: k in plans <==> Due(db, household, k, today))
    && (forall i, j :: 0 <= i < j < |plans| ==> plans[i] != plans[j])
  }

  /** A sweep after its first i plans. */
  ghost predicate Swept(before: Db, now: Db, household: Id, today: CivilDate, plans: seq<Key>, i: nat)
    requires i <= |plans|
  {
    && Invariant(now) && Extends(before, now)
    && household in now.world.members
    && (forall a, b :: 0 <= a < b < |plans| ==> plans[a] != plans[b])
    && Pending(now, household, today, plans, i)
    && (forall j :: 0 <= j < |plans| ==> LivePlan(before, household, plans[j]))
    && (forall k :: k in before.rows ==> k in now.rows)
    && OthersStand(before, now, plans, i) && NewAreCharges(before, now, household, today, plans)
  }

  lemma SweepBegins(db: Db, household: Id, today: CivilDate, plans: seq<Key>)
    requires Invariant(db) && household in db.world.members
    requires Scanned(db, household, today, plans)
    ensures Swept(db, db, household, today, plans, 0)
  {
    ExtendsItself(db);
    hide Invariant;
    hide Extends;
    hide DayOf;
    assert plans[0..] == plans && forall j :: 0 <= j < |plans| ==> plans[j] in plans;
  }

  lemma SweepFinds(before: Db, now: Db, household: Id, today: CivilDate, plans: seq<Key>, i: nat)
    requires i < |plans| && Swept(before, now, household, today, plans, i)
    ensures LivePlan(now, household, plans[i]) && IsText(now.rows[plans[i]].state.plan.name)
  {
    hide Invariant;
    hide Extends;
    hide IsText;
    PlanRowFacts(now, household, plans[i]);
  }

  lemma SweepContinues(before: Db, mid: Db, after: Db, household: Id, today: CivilDate, plans: seq<Key>, i: nat, ids: seq<Id>)
    requires i < |plans| && Swept(before, mid, household, today, plans, i)
    requires CatchingUp(mid, after, household, plans[i], today, ids)
    requires LivePlan(after, household, plans[i]) && DayOf(after.rows[plans[i]].state.plan.nextDue) > DayOf(today)
    ensures Swept(before, after, household, today, plans, i + 1)
  {
    PlanDone(mid, after, household, today, plans, i, ids);
    SweepCharges(before, mid, after, household, today, plans, i, ids);
    hide Pending;
    hide OthersStand;
    hide NewAreCharges;
    hide Invariant;
    hide Extends;
    hide DayOf;
    hide Arrived;
    ConfirmedKeeps(mid, household, plans[i], ids);
    ExtendsTransitive(before, mid, after);
  }

  lemma SweepEnds(before: Db, now: Db, household: Id, today: CivilDate, plans: seq<Key>)
    requires Scanned(before, household, today, plans)
    requires Swept(before, now, household, today, plans, |plans|)
    ensures Invariant(now) && Extends(before, now)
    ensures SweepLeaves(before, now, household, today, plans)
  {
    hide Invariant;
    hide Extends;
    hide ChargesOne;
    assert plans[..|plans|] == plans;
    forall k | k in before.rows && NotDue(before.rows[k], household, today) ensures k in now.rows && now.rows[k] == before.rows[k] {
      assert k !in plans;
    }
    forall k | k in now.rows && k.kind.PlannedPaymentKind? && now.rows[k].state.OfPlan? ensures NotDue(now.rows[k], household, today) {
      assert !Due(now, household, k, today);
    }
  }

  /** Not a live automatic plan of the household that is due by today. */
  predicate NotDue(row: Row, household: Id, today: CivilDate) {
    row.owner != household || row.deleted || !row.state.OfPlan? || !row.state.plan.confirmMode.Auto?
    || DayNumber(row.state.plan.nextDue) > DayNumber(today)
  }

  /** A sweep leaves no live automatic plan of the household due, charges only
      occurrences due by today of plans that were, and touches no other row: no
      manual plan, no tombstone, nothing of another household. */
  ghost predicate SweepLeaves(before: Db, now: Db, household: Id, today: CivilDate, plans: seq<Key>) {
    && (forall k :: k in now.rows && k.kind.PlannedPaymentKind? && now.rows[k].state.OfPlan? ==> NotDue(now.rows[k], household, today))
    && (forall k :: k in before.rows && NotDue(before.rows[k], household, today) ==> k in now.rows && now.rows[k] == before.rows[k])
    && (forall k :: k in now.rows && k !in before.rows ==> ChargesOne(now.rows[k], before, household, today, plans))
  }

  // --- The job ----------------------------------------------------------------------------------------

  class AutoConfirmJob {
    const tx: SyncTx

    constructor (tx: SyncTx)
      ensures this.tx == tx
    {
      this.tx := tx;
    }

    method ExecuteOccurrence(household: Id, key: Key) returns (id: Id)
      requires LivePlan(tx.State(), household, key) && IsText(tx.rows[key].state.plan.name)
      modifies tx
      ensures ChargeKey(id) !in old(tx.State()).rows
      ensures tx.State() == OccurrenceDone(old(tx.State()), household, key, id)
    {
      var row := tx.rows[key];
      var p := row.state.plan;
      var scope := Scope(household, row.author);
      hide IsText;
      PlanAfterNext(household, row, 0);
      NoOccurrences(row);
      id := tx.NewEntityId(TransactionKind);
      var created := tx.CreateRow(scope, ChargeKey(id), OfTransaction(Charge(p, p.nextDue)));
      var next := AdvanceNextDue(p.nextDue, p.anchorDate, p.regularity);
      assert next == Occurrence(1, p.nextDue, p.anchorDate, p.regularity);
      var advanced := tx.AdvancePlannedPayment(scope, key, next);
    }

    /** Catches one plan up: one transaction per missed date, none skipped or
        merged, leaving it due strictly after today. */
    method ExecutePlan(household: Id, key: Key, today: CivilDate) returns (ids: seq<Id>)
      requires LivePlan(tx.State(), household, key) && IsText(tx.rows[key].state.plan.name)
      modifies tx
      ensures CatchingUp(old(tx.State()), tx.State(), household, key, today, ids)
      ensures LivePlan(tx.State(), household, key)
      ensures DayOf(tx.State().rows[key].state.plan.nextDue) > DayOf(today)
    {
      ghost var before := tx.State();
      CatchUpBegins(before, household, key, today);
      hide CatchingUp;
      hide OccurrenceDone;
      hide DayOf;
      hide IsDate;
      hide IsText;
      ids := [];
      while DayOf(tx.rows[key].state.plan.nextDue) <= DayOf(today)
        invariant LivePlan(tx.State(), household, key) && IsText(tx.rows[key].state.plan.name)
        invariant CatchingUp(before, tx.State(), household, key, today, ids)
        decreases DayOf(today) - DayOf(tx.rows[key].state.plan.nextDue) + 1
      {
        ghost var mid := tx.State();
        var id := ExecuteOccurrence(household, key);
        CatchUpContinues(before, mid, household, key, today, ids, id);
        ids := ids + [id];
      }
    }

    /** One household's sweep over its due plans, in whatever order the scan
        lists them: afterwards nothing is due, so a rerun finds nothing. */
    method ExecuteHousehold(household: Id, today: CivilDate, plans: seq<Key>)
      requires Invariant(tx.State()) && household in tx.world.members
      requires Scanned(tx.State(), household, today, plans)
      modifies tx
      ensures Invariant(tx.State()) && Extends(old(tx.State()), tx.State())
      ensures SweepLeaves(old(tx.State()), tx.State(), household, today, plans)
    {
      ghost var before := tx.State();
      SweepBegins(before, household, today, plans);
      hide Scanned;
      hide SweepLeaves;
      hide Swept;
      hide Due;
      hide LivePlan;
      hide IsText;
      hide Invariant;
      hide Extends;
      hide CatchingUp;
      hide DayOf;
      for i := 0 to |plans|
        invariant Swept(before, tx.State(), household, today, plans, i)
      {
        ghost var mid := tx.State();
        SweepFinds(before, mid, household, today, plans, i);
        var ids := ExecutePlan(household, plans[i], today);
        SweepContinues(before, mid, tx.State(), household, today, plans, i, ids);
      }
      SweepEnds(before, tx.State(), household, today, plans);
    }
  }
}
