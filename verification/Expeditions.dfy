/** Expedition lifecycle: members go AWAY and come back, resources go out once and come back at most once. */
module Expeditions {
  import opened Core
  import opened Ledger
  import opened Census
  import opened Tables
  import opened Store

  // ---------------------------------------------------------------------------------------------
  // Resource flows
  // ---------------------------------------------------------------------------------------------

  lemma {:induction false} BatchStep(books: Books, order: seq<int>, i: nat, lines: seq<Line>, camp: int, origin: Origin, sign: int)
    requires i < |order| && Distinct(order)
    ensures var before, r := Post(books, Batch(order[..i], lines, camp, origin, sign)), order[i];
            && (Slot(camp, r) in before.stock <==> Slot(camp, r) in books.stock)
            && Have(before.stock, Slot(camp, r)) == Have(books.stock, Slot(camp, r))
            && Post(books, Batch(order[..i + 1], lines, camp, origin, sign)) ==
               Post1(before, Movement(Slot(camp, r), origin, sign * SumFor(lines, r)))
  {
    assert order[..i + 1][..i] == order[..i] && order[i] !in order[..i];
    var m := Movement(Slot(camp, order[i]), origin, sign * SumFor(lines, order[i]));
    var rest := Batch(order[..i], lines, camp, origin, sign);
    PostConcat(books, rest, [m]);
    PostOne(Post(books, rest), m);
    BatchTouches(books, order[..i], lines, camp, origin, sign, Slot(camp, order[i]));
  }

  lemma {:induction false} BatchTouches(books: Books, order: seq<int>, lines: seq<Line>, camp: int, origin: Origin, sign: int, slot: Slot)
    requires slot.resource !in order
    ensures var after := Post(books, Batch(order, lines, camp, origin, sign)).stock;
            (slot in after <==> slot in books.stock) && Have(after, slot) == Have(books.stock, slot)
  {
    if order != [] {
      var front, r := order[..|order| - 1], order[|order| - 1];
      assert r in order;
      BatchTouches(books, front, lines, camp, origin, sign, slot);
      var rest, m := Batch(front, lines, camp, origin, sign), Movement(Slot(camp, r), origin, sign * SumFor(lines, r));
      PostConcat(books, rest, [m]);
      PostOne(Post(books, rest), m);
    }
  }

  /** The guarded decrement and its log row. */
  method TakeAndLog(db: Database, slot: Slot, amount: int, origin: Origin) returns (count: nat)
    modifies db`stock, db`log
    ensures count == if slot in old(db.stock) && old(db.stock)[slot] >= amount then 1 else 0
    ensures count == 1 ==>
              Books(db.stock, db.log) == Post1(Books(old(db.stock), old(db.log)), Movement(slot, origin, -amount))
  {
    count := db.DecrementIfEnough(slot, amount);
    if count != 0 {
      db.CreateLog(Movement(slot, origin, -amount));
    }
  }

  method AddAndLog(db: Database, slot: Slot, amount: int, origin: Origin)
    modifies db`stock, db`log
    ensures Books(db.stock, db.log) == Post1(Books(old(db.stock), old(db.log)), Movement(slot, origin, amount))
  {
    db.UpsertIncrement(slot, amount);
    db.CreateLog(Movement(slot, origin, amount));
  }

  method HandleResourceOutflow(db: Database, camp: int, expedition: int, resources: seq<Line>) returns (o: Outcome)
    modifies db`stock, db`log
    ensures o == if Covers(old(db.stock), camp, Firsts(resources), resources) then Done else Refused(400)
    ensures o.Done? ==>
              Books(db.stock, db.log) == Post(Books(old(db.stock), old(db.log)), Outflow(resources, camp, ExpeditionOut(expedition)))
  {
    var merged := AggregateResources(resources);
    ghost var order, before, origin := Firsts(resources), Books(db.stock, db.log), ExpeditionOut(expedition);
    FirstsAreTheResources(resources);
    :- CheckStock(db.stock, camp, resources, merged);
    assert order[..0] == [];
    for i := 0 to |merged|
      invariant Books(db.stock, db.log) == Post(before, Batch(order[..i], resources, camp, origin, -1))
    {
      BatchStep(before, order, i, resources, camp, origin, -1);
      assert order[i] in order;
      var count := TakeAndLog(db, Slot(camp, merged[i].resource), merged[i].amount, ExpeditionOut(expedition));
      if count == 0 {
        // a concurrent writer could bring us here; within one transaction step the check above rules it out
        assert false;
      }
    }
    assert order[..|order|] == order;
    return Done;
  }

  method CheckStock(stock: map<Slot, int>, camp: int, ghost lines: seq<Line>, merged: seq<Line>) returns (o: Outcome)
    requires merged == Merged(lines)
    ensures o == if Covers(stock, camp, Firsts(lines), lines) then Done else Refused(400)
  {
    ghost var order := Firsts(lines);
    for i := 0 to |merged|
      invariant Covers(stock, camp, order[..i], lines)
    {
      var slot := Slot(camp, merged[i].resource);
      assert order[i] in order;
      :- Need(slot in stock, 400);
      :- Need(stock[slot] >= merged[i].amount, 400);
    }
    assert order[..|order|] == order;
    return Done;
  }

  method HandleResourceReturn(db: Database, camp: int, origin: Origin, resources: seq<Line>)
    modifies db`stock, db`log
    ensures Books(db.stock, db.log) == Post(Books(old(db.stock), old(db.log)), Inflow(resources, camp, origin))
  {
    var merged := AggregateResources(resources);
    ghost var order, before := Firsts(resources), Books(db.stock, db.log);
    FirstsAreTheResources(resources);
    assert order[..0] == [];
    for i := 0 to |merged|
      invariant Books(db.stock, db.log) == Post(before, Batch(order[..i], resources, camp, origin, 1))
    {
      BatchStep(before, order, i, resources, camp, origin, 1);
      AddAndLog(db, Slot(camp, merged[i].resource), merged[i].amount, origin);
    }
    assert order[..|order|] == order;
  }

  lemma MergedFlows(lines: seq<Line>, camp: int, origin: Origin)
    ensures Inflow(Merged(lines), camp, origin) == Inflow(lines, camp, origin)
    ensures Outflow(Merged(lines), camp, origin) == Outflow(lines, camp, origin)
  {
    MergedIsMerged(lines);
    SameBatch(Firsts(lines), Merged(lines), lines, camp, origin, 1);
    SameBatch(Firsts(lines), Merged(lines), lines, camp, origin, -1);
  }

  lemma {:induction false} SameBatch(order: seq<int>, a: seq<Line>, b: seq<Line>, camp: int, origin: Origin, sign: int)
    requires forall r :: SumFor(a, r) == SumFor(b, r)
    ensures Batch(order, a, camp, origin, sign) == Batch(order, b, camp, origin, sign)
  {
    if order != [] {
      SameBatch(order[..|order| - 1], a, b, camp, origin, sign);
    }
  }

  // ---------------------------------------------------------------------------------------------
  // Member statuses
  // ---------------------------------------------------------------------------------------------

  /** `changeMemberStatus`, and the loop over `membersToUpdate`: rows taken in any order. */
  method SetMemberHealth(db: Database, target: map<int, Health>, cause: Cause)
    modifies db`people, db`healthLog
    ensures var before := Roster(old(db.people), old(db.healthLog), db.campLog);
            Roster(db.people, db.healthLog, db.campLog) == SetHealth(before, target, cause)
  {
    ghost var before := Roster(db.people, db.healthLog, db.campLog);
    SetHealthNobody(before, cause);
    var todo := target.Keys;
    ghost var done: set<int> := {};
    assert Only(target, done) == map[];
    while todo != {}
      invariant done !! todo && done + todo == target.Keys
      invariant Roster(db.people, db.healthLog, db.campLog) == SetHealth(before, Only(target, done), cause)
      decreases todo
    {
      var p := AnyOf(todo);
      SetOneHealth(db, before, target, done, p, cause);
      todo, done := todo - {p}, done + {p};
    }
    assert Only(target, done) == target;
  }

  method SetOneHealth(db: Database, ghost before: Roster, target: map<int, Health>, ghost done: set<int>, p: int, cause: Cause)
    requires Roster(db.people, db.healthLog, db.campLog) == SetHealth(before, Only(target, done), cause)
    requires p in target && p !in done
    modifies db`people, db`healthLog
    ensures Roster(db.people, db.healthLog, db.campLog) == SetHealth(before, Only(target, done + {p}), cause)
  {
    SetHealthStep(before, target, done, p, cause);
    if p in db.people && db.people[p].health != target[p] {
      var person := db.people[p];
      db.people := db.people[p := person.(health := target[p])];
      db.healthLog := db.healthLog[p := LogOf(db.healthLog, p) + [Change(person.health, target[p], cause)]];
    }
  }

  /** One entry of `member_outcomes`. */
  datatype MemberOutcome = MemberOutcome(person: int, health: Health)

  /** The Map filled from the outcome list: a later entry for a person replaces an earlier one. */
  function OutcomeMap(outcomes: seq<MemberOutcome>): map<int, Health> {
    if outcomes == [] then map[]
    else
      var last := outcomes[|outcomes| - 1];
      OutcomeMap(outcomes[..|outcomes| - 1])[last.person := last.health]
  }

  /** The last outcome listed for a person wins; a person nobody lists is absent. */
  lemma {:induction false} LastOutcomeWins(outcomes: seq<MemberOutcome>, p: int)
    ensures p in OutcomeMap(outcomes) <==> exists i :: 0 <= i < |outcomes| && outcomes[i].person == p
    ensures forall i | 0 <= i < |outcomes| && outcomes[i].person == p && (forall j | i < j < |outcomes| :: outcomes[j].person != p) ::
              OutcomeMap(outcomes)[p] == outcomes[i].health
  {
    if outcomes != [] {
      var front, last := outcomes[..|outcomes| - 1], outcomes[|outcomes| - 1];
      LastOutcomeWins(front, p);
      if p in OutcomeMap(front) {
        var i :| 0 <= i < |front| && front[i].person == p;
        assert outcomes[i].person == p;
      }
      if p == last.person { assert outcomes[|front|].person == p; }
      if exists i :: 0 <= i < |outcomes| && outcomes[i].person == p {
        var i :| 0 <= i < |outcomes| && outcomes[i].person == p;
        if i < |front| { assert front[i].person == p; }
      }
      forall i | 0 <= i < |outcomes| && outcomes[i].person == p && (forall j | i < j < |outcomes| :: outcomes[j].person != p)
        ensures p in OutcomeMap(outcomes) && OutcomeMap(outcomes)[p] == outcomes[i].health
      {
        if i < |front| {
          assert front[i] == outcomes[i];
          assert outcomes[|front|].person != p;
          forall j | i < j < |front| ensures front[j].person != p { assert front[j] == outcomes[j]; }
        }
      }
    }
  }

  predicate OnlyMembers(outcomes: seq<MemberOutcome>, members: set<int>) {
    forall m | m in outcomes :: m.person in members
  }

  method CollectOutcomes(outcomes: seq<MemberOutcome>, members: set<int>) returns (o: Outcome, collected: map<int, Health>)
    ensures o == if OnlyMembers(outcomes, members) then Done else Refused(400)
    ensures o.Done? ==> collected == OutcomeMap(outcomes) && collected.Keys <= members
  {
    collected := map[];
    for i := 0 to |outcomes|
      invariant collected == OutcomeMap(outcomes[..i])
      invariant collected.Keys <= members
      invariant OnlyMembers(outcomes[..i], members)
    {
      assert outcomes[..i + 1][..i] == outcomes[..i];
      if outcomes[i].person !in members {
        return Refused(400), map[];
      }
      collected := collected[outcomes[i].person := outcomes[i].health];
    }
    assert outcomes[..|outcomes|] == outcomes;
    return Done, collected;
  }

  /** What each member's status becomes; members left out of the map keep theirs. */
  function MemberTargets(members: set<int>, listed: map<int, Health>, fallback: Option<Health>): map<int, Health> {
    map m | m in members && (m in listed || fallback.Some?) :: if m in listed then listed[m] else fallback.value
  }

  // ---------------------------------------------------------------------------------------------
  // Creation
  // ---------------------------------------------------------------------------------------------

  datatype Dates = Dates(departure: int, expected: int, latest: int, actual: Option<int>)

  datatype Outing = Outing(
    camp: int, createdBy: int, status: Option<ExpeditionStatus>, dates: Dates, members: seq<int>, allotted: seq<Line>)

  function InitialStatus(d: Outing): ExpeditionStatus {
    if d.status.Some? then d.status.value else PLANNED
  }

  predicate DatesInOrder(d: Dates) {
    d.departure <= d.expected <= d.latest && (d.actual.Some? ==> d.departure <= d.actual.value)
  }

  function OutingOutcome(w: World, d: Outing): Outcome {
    if !Positive(d.allotted) then Refused(400)
    else if d.camp !in w.catalog.camps || d.createdBy !in w.users then Refused(404)
    else if InitialStatus(d) in {RETURNED, CANCELLED} then Refused(400)
    else
      var join := Eligible(w.roster.people, Elements(d.members), d.camp);
      if join.Refused? then join
      else if !DatesInOrder(d.dates) || !Covers(w.books.stock, d.camp, Firsts(d.allotted), d.allotted) then Refused(400)
      else Done
  }

  /** The expedition's rows are there and its supplies are gone from stock. */
  function WithSupplies(w: World, id: int, d: Outing, status: ExpeditionStatus): World {
    w.(books := Post(w.books, Outflow(d.allotted, d.camp, ExpeditionOut(id))),
       expeditions := w.expeditions[id := Expedition(d.camp, status, Elements(d.members), Totals(d.allotted), map[], map[])])
  }

  function Supplied(w: World, d: Outing): World {
    WithSupplies(w.(nextId := w.nextId + 1), w.nextId, d, InitialStatus(d))
  }

  function Departed(w: World, d: Outing): World {
    Supplied(w, d).(
      roster := if InitialStatus(d) == ONGOING
                then SetHealth(w.roster, Uniform(Elements(d.members), AWAY), ByExpedition(w.nextId)) else w.roster)
  }

  /** The launching writes on membership checks made earlier: only the stock is looked at again. */
  function CommitLaunch(w: World, d: Outing): Response {
    if !Covers(w.books.stock, d.camp, Firsts(d.allotted), d.allotted) then Refuse(w, 400) else Response(Departed(w, d), Done)
  }

  function Launch(w: World, d: Outing): Response {
    var o := OutingOutcome(w, d);
    if o.Refused? then Response(w, o) else Response(Departed(w, d), Done)
  }

  method CreateExploration(db: Database, d: Outing) returns (o: Outcome)
    modifies db
    ensures Response(db.Snapshot(), o) == Launch(old(db.Snapshot()), d)
  {
    o := Need(forall l | l in d.allotted :: l.amount > 0, 400);
    :- o;
    :- Need(d.camp in db.catalog.camps, 404);
    :- Need(d.createdBy in db.users, 404);
    var initialStatus := if d.status.Some? then d.status.value else PLANNED;
    :- Need(initialStatus != RETURNED && initialStatus != CANCELLED, 400);
    :- CheckEligible(db.people, d.members, d.camp);
    :- Need(d.dates.departure <= d.dates.expected, 400);
    :- Need(d.dates.expected <= d.dates.latest, 400);
    :- Need(d.dates.actual.None? || d.dates.departure <= d.dates.actual.value, 400);
    o := Depart(db, d, initialStatus);
  }

  method Depart(db: Database, d: Outing, initialStatus: ExpeditionStatus) returns (o: Outcome)
    requires initialStatus == InitialStatus(d)
    modifies db
    ensures o == if Covers(old(db.stock), d.camp, Firsts(d.allotted), d.allotted) then Done else Refused(400)
    ensures db.Snapshot() == if o.Refused? then old(db.Snapshot()) else Departed(old(db.Snapshot()), d)
  {
    var id := db.nextId;
    o := Supply(db, d, initialStatus);
    if o.Done? && initialStatus == ONGOING {
      SetMemberHealth(db, Uniform(Elements(d.members), AWAY), ByExpedition(id));
    }
  }

  /** The row writes and the outflow, or neither. */
  method Supply(db: Database, d: Outing, initialStatus: ExpeditionStatus) returns (o: Outcome)
    requires initialStatus == InitialStatus(d)
    modifies db
    ensures o == if Covers(old(db.stock), d.camp, Firsts(d.allotted), d.allotted) then Done else Refused(400)
    ensures db.Snapshot() == if o.Refused? then old(db.Snapshot()) else Supplied(old(db.Snapshot()), d)
  {
    var before := db.Snapshot();
    var id := db.NewId();
    o := TakeSupplies(db, id, d, initialStatus);
    if o.Refused? {
      db.Rollback(before);
      return;
    }
  }

  /** Inserts the expedition with its rows and takes the aggregated resources out of stock. */
  method TakeSupplies(db: Database, id: int, d: Outing, initialStatus: ExpeditionStatus) returns (o: Outcome)
    modifies db`stock, db`log, db`expeditions
    ensures o == if Covers(old(db.stock), d.camp, Firsts(d.allotted), d.allotted) then Done else Refused(400)
    ensures o.Done? ==> db.Snapshot() == WithSupplies(old(db.Snapshot()), id, d, initialStatus)
  {
    var allotted := AggregateResources(d.allotted);
    InsertExpedition(db, id, d, initialStatus, allotted);
    MergedFlows(d.allotted, d.camp, ExpeditionOut(id));
    CoversMerged(db.stock, d.camp, d.allotted);
    o := HandleResourceOutflow(db, d.camp, id, allotted);
  }

  method InsertExpedition(db: Database, id: int, d: Outing, initialStatus: ExpeditionStatus, allotted: seq<Line>)
    requires allotted == Merged(d.allotted)
    modifies db`expeditions
    ensures db.expeditions == old(db.expeditions)[id :=
                   Expedition(d.camp, initialStatus, Elements(d.members), Totals(d.allotted), map[], map[])]
  {
    var rows := CreateRows(d.allotted, allotted, map[]);
    assert Totals(d.allotted) + map[] == Totals(d.allotted);
    db.expeditions := db.expeditions[id := Expedition(d.camp, initialStatus, Elements(d.members), rows, map[], map[])];
  }

  lemma CoversMerged(stock: map<Slot, int>, camp: int, lines: seq<Line>)
    ensures Covers(stock, camp, Firsts(Merged(lines)), Merged(lines)) == Covers(stock, camp, Firsts(lines), lines)
  {
    MergedIsMerged(lines);
  }

  /** `createMany` with `skipDuplicates`: one row per resource type, rows already there stay. */
  method CreateRows(ghost lines: seq<Line>, merged: seq<Line>, existing: map<int, int>) returns (rows: map<int, int>)
    requires merged == Merged(lines)
    ensures rows == Totals(lines) + existing
  {
    ghost var order := Firsts(lines);
    rows := existing;
    for i := 0 to |merged|
      invariant rows.Keys == existing.Keys + Elements(order[..i])
      invariant forall r | r in rows :: rows[r] == if r in existing then existing[r] else SumFor(lines, r)
    {
      assert order[..i + 1] == order[..i] + [order[i]];
      if merged[i].resource !in rows {
        rows := rows[merged[i].resource := merged[i].amount];
      }
    }
    assert order[..|order|] == order;
    forall r | r in Totals(lines) + existing ensures r in rows && rows[r] == (Totals(lines) + existing)[r] {}
    assert forall r | r in rows :: r in Totals(lines) + existing;
  }

  // ---------------------------------------------------------------------------------------------
  // Status updates
  // ---------------------------------------------------------------------------------------------

  datatype StatusUpdate = StatusUpdate(
    status: ExpeditionStatus, changedBy: int, hasReturnDate: bool,
    returned: seq<Line>, found: seq<Line>,
    fallback: Option<Health>, outcomes: seq<MemberOutcome>)

  predicate Allowed(current: ExpeditionStatus, next: ExpeditionStatus) {
    || (current == PLANNED && next in {ONGOING, CANCELLED})
    || (current == ONGOING && next in {RETURNED, CANCELLED})
  }

  /** The request schema: positive amounts, and a return date when the expedition returns. */
  predicate WellFormed(d: StatusUpdate) {
    Positive(d.returned) && Positive(d.found) && (d.status == RETURNED ==> d.hasReturnDate)
  }

  /** The checks made before the transaction opens. */
  function UpdateCheck(w: World, id: int, d: StatusUpdate): Outcome {
    if !WellFormed(d) then Refused(400)
    else if id !in w.expeditions || d.changedBy !in w.users then Refused(404)
    else if !Allowed(w.expeditions[id].status, d.status) then Refused(400)
    else Done
  }

  predicate WithinAllotment(e: Expedition, order: seq<int>, returned: seq<Line>) {
    forall r | r in order :: r in e.allotted && SumFor(returned, r) <= e.allotted[r]
  }

  /** The checks made inside the transaction. */
  function CommitOutcome(e: Expedition, d: StatusUpdate): Outcome {
    if d.status in {RETURNED, CANCELLED} && !OnlyMembers(d.outcomes, e.members) then Refused(400)
    else if d.status == RETURNED && !WithinAllotment(e, Firsts(d.returned), d.returned) then Refused(400)
    else Done
  }

  function TargetsOf(e: Expedition, d: StatusUpdate): map<int, Health> {
    match d.status
    case PLANNED => map[]
    case ONGOING => Uniform(e.members, AWAY)
    case CANCELLED => MemberTargets(e.members, OutcomeMap(d.outcomes), d.fallback)
    case RETURNED => MemberTargets(e.members, OutcomeMap(d.outcomes), if d.fallback.Some? then d.fallback else Some(HEALTHY))
  }

  function ReturnFlow(camp: int, id: int, d: StatusUpdate): seq<Movement> {
    if d.status != RETURNED then []
    else Inflow(d.returned, camp, ExpeditionReturn(id)) + Inflow(d.found, camp, ExpeditionFound(id))
  }

  /** Resource rows already present win: `createMany` with `skipDuplicates`. */
  function ArrivedRow(e: Expedition, d: StatusUpdate): Expedition {
    if d.status == RETURNED then
      e.(status := d.status, returned := Totals(d.returned) + e.returned, found := Totals(d.found) + e.found)
    else e.(status := d.status)
  }

  function Updated(w: World, id: int, d: StatusUpdate): World
    requires id in w.expeditions
  {
    var e := w.expeditions[id];
    w.(books := Post(w.books, ReturnFlow(e.camp, id, d)),
       roster := SetHealth(w.roster, TargetsOf(e, d), ByExpedition(id)),
       expeditions := w.expeditions[id := ArrivedRow(e, d)])
  }

  /** The transaction alone: it never looks at the expedition's status again. */
  function CommitUpdate(w: World, id: int, d: StatusUpdate): Response {
    if id !in w.expeditions then Refuse(w, 404)
    else
      var o := CommitOutcome(w.expeditions[id], d);
      if o.Refused? then Response(w, o) else Response(Updated(w, id, d), Done)
  }

  function UpdateStatus(w: World, id: int, d: StatusUpdate): Response {
    var o := UpdateCheck(w, id, d);
    if o.Refused? then Response(w, o) else CommitUpdate(w, id, d)
  }

  method UpdateExpeditionStatus(db: Database, id: int, d: StatusUpdate) returns (o: Outcome)
    modifies db
    ensures Response(db.Snapshot(), o) == UpdateStatus(old(db.Snapshot()), id, d)
  {
    o := Need(forall l | l in d.returned :: l.amount > 0, 400);
    :- o;
    :- Need(forall l | l in d.found :: l.amount > 0, 400);
    :- Need(d.status == RETURNED ==> d.hasReturnDate, 400);
    :- Need(id in db.expeditions, 404);
    :- Need(d.changedBy in db.users, 404);
    var expedition := db.expeditions[id];
    :- Need(expedition.status != d.status, 400);
    :- ValidateStatusTransition(expedition.status, d.status);
    o := CommitExpeditionStatus(db, id, d);
  }

  method ValidateStatusTransition(current: ExpeditionStatus, next: ExpeditionStatus) returns (o: Outcome)
    ensures o == if current == next || Allowed(current, next) then Done else Refused(400)
  {
    var allowedTransitions: map<ExpeditionStatus, set<ExpeditionStatus>> := map[
      PLANNED := {ONGOING, CANCELLED}, ONGOING := {RETURNED, CANCELLED}, RETURNED := {}, CANCELLED := {}];
    if current == next {
      return Done;
    }
    o := Need(next in allowedTransitions[current], 400);
  }

  method CommitExpeditionStatus(db: Database, id: int, d: StatusUpdate) returns (o: Outcome)
    modifies db
    ensures Response(db.Snapshot(), o) == CommitUpdate(old(db.Snapshot()), id, d)
  {
    o := Need(id in db.expeditions, 404);
    :- o;
    var before := db.Snapshot();
    var expedition := db.expeditions[id];
    :- SettleMembers(db, id, expedition, d);
    if d.status == RETURNED {
      o := ReceiveResources(db, id, expedition, d.returned, d.found);
      if o.Refused? {
        db.Rollback(before);
        return;
      }
    } else {
      db.expeditions := db.expeditions[id := expedition.(status := d.status)];
    }
    return Done;
  }

  method SettleMembers(db: Database, id: int, e: Expedition, d: StatusUpdate) returns (o: Outcome)
    modifies db`people, db`healthLog
    ensures o == if d.status in {RETURNED, CANCELLED} && !OnlyMembers(d.outcomes, e.members) then Refused(400) else Done
    ensures o.Refused? ==> db.people == old(db.people) && db.healthLog == old(db.healthLog)
    ensures o.Done? ==>
              && var before := Roster(old(db.people), old(db.healthLog), db.campLog);
              && Roster(db.people, db.healthLog, db.campLog) == SetHealth(before, TargetsOf(e, d), ByExpedition(id))
  {
    if d.status == ONGOING {
      SetMemberHealth(db, Uniform(e.members, AWAY), ByExpedition(id));
      return Done;
    }
    if d.status == RETURNED || d.status == CANCELLED {
      var collected;
      o, collected := CollectOutcomes(d.outcomes, e.members);
      :- o;
      var fallback := if d.fallback.None? && d.status == RETURNED then Some(HEALTHY) else d.fallback;
      SetMemberHealth(db, MemberTargets(e.members, collected, fallback), ByExpedition(id));
      return Done;
    }
    SetHealthNobody(Roster(db.people, db.healthLog, db.campLog), ByExpedition(id));
    return Done;
  }

  /** Credits what came back and what was found, and closes the expedition row. */
  method ReceiveResources(db: Database, id: int, e: Expedition, returned: seq<Line>, found: seq<Line>) returns (o: Outcome)
    modifies db`stock, db`log, db`expeditions
    ensures o == if WithinAllotment(e, Firsts(returned), returned) then Done else Refused(400)
    ensures o.Done? ==>
              && Books(db.stock, db.log) == Post(Books(old(db.stock), old(db.log)),
                   Inflow(returned, e.camp, ExpeditionReturn(id)) + Inflow(found, e.camp, ExpeditionFound(id)))
              && db.expeditions == old(db.expeditions)[id := e.(
                   status := RETURNED, returned := Totals(returned) + e.returned, found := Totals(found) + e.found)]
    ensures o.Refused? ==> db.expeditions == old(db.expeditions)
  {
    var backLines := AggregateResources(returned);
    :- CheckAllotment(e, returned, backLines);
    var foundLines := AggregateResources(found);
    CreditResources(db, id, e.camp, returned, found, backLines, foundLines);
    var backRows := CreateRows(returned, backLines, e.returned);
    var foundRows := CreateRows(found, foundLines, e.found);
    db.expeditions := db.expeditions[id := e.(status := RETURNED, returned := backRows, found := foundRows)];
    return Done;
  }

  method CheckAllotment(e: Expedition, ghost returned: seq<Line>, merged: seq<Line>) returns (o: Outcome)
    requires merged == Merged(returned)
    ensures o == if WithinAllotment(e, Firsts(returned), returned) then Done else Refused(400)
  {
    ghost var order := Firsts(returned);
    for i := 0 to |merged|
      invariant WithinAllotment(e, order[..i], returned)
    {
      var line := merged[i];
      assert order[i] in order;
      :- Need(line.resource in e.allotted, 400);
      :- Need(line.amount <= e.allotted[line.resource], 400);
    }
    assert order[..|order|] == order;
    return Done;
  }

  method CreditResources(db: Database, id: int, camp: int, ghost returned: seq<Line>, ghost found: seq<Line>,
                         backLines: seq<Line>, foundLines: seq<Line>)
    requires backLines == Merged(returned) && foundLines == Merged(found)
    modifies db`stock, db`log
    ensures Books(db.stock, db.log) == Post(Books(old(db.stock), old(db.log)),
                   Inflow(returned, camp, ExpeditionReturn(id)) + Inflow(found, camp, ExpeditionFound(id)))
  {
    MergedFlows(returned, camp, ExpeditionReturn(id));
    MergedFlows(found, camp, ExpeditionFound(id));
    PostConcat(Books(db.stock, db.log), Inflow(returned, camp, ExpeditionReturn(id)), Inflow(found, camp, ExpeditionFound(id)));
    HandleResourceReturn(db, camp, ExpeditionReturn(id), backLines);
    HandleResourceReturn(db, camp, ExpeditionFound(id), foundLines);
  }

  /**
    Who is AWAY after an expedition is closed: members reported so, members nobody reported when AWAY is
    the default, and, for a cancellation without a default, members nobody reported who were AWAY before.
    Nobody else's status changes.
  */
  lemma AwayAfterClosing(w: World, id: int, d: StatusUpdate, p: int)
    requires UpdateStatus(w, id, d).outcome.Done? && d.status in {RETURNED, CANCELLED} && p in w.roster.people
    ensures var after, listed := UpdateStatus(w, id, d).world.roster.people, OutcomeMap(d.outcomes);
            && p in after
            && (p !in w.expeditions[id].members ==> after[p] == w.roster.people[p])
            && (p in w.expeditions[id].members ==>
                  (after[p].health == AWAY <==>
                    if p in listed then listed[p] == AWAY
                    else if d.fallback.Some? then d.fallback.value == AWAY
                    else d.status == CANCELLED && w.roster.people[p].health == AWAY))
  {
    assert UpdateStatus(w, id, d).world.roster.people == Assigned(w.roster.people, TargetsOf(w.expeditions[id], d));
  }

  // ---------------------------------------------------------------------------------------------
  // Deletion
  // ---------------------------------------------------------------------------------------------

  datatype Deletion = Deletion(changedBy: int, fallback: Option<Health>, outcomes: seq<MemberOutcome>)

  function DeletionOutcome(w: World, id: int, d: Deletion): Outcome {
    if id !in w.expeditions then Refused(404)
    else if w.expeditions[id].status in {RETURNED, CANCELLED} then Refused(400)
    else if d.changedBy !in w.users then Refused(404)
    else if !OnlyMembers(d.outcomes, w.expeditions[id].members) then Refused(400)
    else Done
  }

  function DefaultHealth(fallback: Option<Health>): Health {
    if fallback.Some? then fallback.value else HEALTHY
  }

  function DeletionTargets(e: Expedition, d: Deletion): map<int, Health> {
    MemberTargets(e.members, OutcomeMap(d.outcomes), Some(DefaultHealth(d.fallback)))
  }

  /** The transaction alone: it never looks at the expedition's status again. */
  function CommitDeletion(w: World, id: int, d: Deletion): Response {
    if id !in w.expeditions then Refuse(w, 404)
    else
      var e := w.expeditions[id];
      if !OnlyMembers(d.outcomes, e.members) then Refuse(w, 400)
      else Response(w.(
        roster := SetHealth(w.roster, DeletionTargets(e, d), ByExpedition(id)),
        expeditions := w.expeditions[id := e.(status := CANCELLED)]), Done)
  }

  function Delete(w: World, id: int, d: Deletion): Response {
    var o := DeletionOutcome(w, id, d);
    if o.Refused? then Response(w, o) else CommitDeletion(w, id, d)
  }

  method DeleteExploration(db: Database, id: int, d: Deletion) returns (o: Outcome)
    modifies db
    ensures Response(db.Snapshot(), o) == Delete(old(db.Snapshot()), id, d)
  {
    o := Need(id in db.expeditions, 404);
    :- o;
    var expedition := db.expeditions[id];
    :- Need(expedition.status != RETURNED, 400);
    :- Need(expedition.status != CANCELLED, 400);
    :- Need(d.changedBy in db.users, 404);
    var collected;
    o, collected := CollectOutcomes(d.outcomes, expedition.members);
    :- o;
    var defaultStatus := if d.fallback.Some? then d.fallback.value else HEALTHY;
    SetMemberHealth(db, MemberTargets(expedition.members, collected, Some(defaultStatus)), ByExpedition(id));
    db.expeditions := db.expeditions[id := expedition.(status := CANCELLED)];
    return Done;
  }

  /** The cancellation that a deletion stands for. */
  function AsCancellation(d: Deletion, fallback: Option<Health>): StatusUpdate {
    StatusUpdate(CANCELLED, d.changedBy, false, [], [], fallback, d.outcomes)
  }

  /**
    Deleting an expedition is cancelling it with the default member status made explicit: same
    acceptance, same state. Only the refusal code can differ, when the expedition is already closed
    and the acting user does not exist either.
  */
  lemma DeleteIsCancel(w: World, id: int, d: Deletion)
    ensures var deleted := Delete(w, id, d);
            var cancelled := UpdateStatus(w, id, AsCancellation(d, Some(DefaultHealth(d.fallback))));
            && deleted.world == cancelled.world
            && (deleted.outcome.Done? <==> cancelled.outcome.Done?)
            && (deleted.outcome == cancelled.outcome <==>
                !(id in w.expeditions && w.expeditions[id].status in {RETURNED, CANCELLED} && d.changedBy !in w.users))
  {
    var c := AsCancellation(d, Some(DefaultHealth(d.fallback)));
    if Delete(w, id, d).outcome.Done? {
      assert Post(w.books, ReturnFlow(w.expeditions[id].camp, id, c)) == w.books;
    }
  }

  /**
    Leaving the default status out of a cancellation is not the same as leaving it out of a deletion:
    the two agree exactly when every member whose outcome is not listed is HEALTHY already.
  */
  lemma DeleteIsBareCancelIff(w: World, id: int, d: Deletion)
    requires d.fallback.None? && Delete(w, id, d).outcome.Done?
    requires w.expeditions[id].members <= w.roster.people.Keys
    ensures Delete(w, id, d).world == UpdateStatus(w, id, AsCancellation(d, None)).world <==>
            forall m | m in w.expeditions[id].members && m !in OutcomeMap(d.outcomes) :: w.roster.people[m].health == HEALTHY
  {
    var e, listed := w.expeditions[id], OutcomeMap(d.outcomes);
    var full, bare := MemberTargets(e.members, listed, Some(HEALTHY)), MemberTargets(e.members, listed, None);
    var c := AsCancellation(d, None);
    assert Post(w.books, ReturnFlow(e.camp, id, c)) == w.books;
    var deleted, cancelled := Delete(w, id, d).world, UpdateStatus(w, id, c).world;
    assert deleted.roster == SetHealth(w.roster, full, ByExpedition(id));
    assert cancelled.roster == SetHealth(w.roster, bare, ByExpedition(id));
    if forall m | m in e.members && m !in listed :: w.roster.people[m].health == HEALTHY {
      SameChanges(w.roster, full, bare, ByExpedition(id));
    } else {
      var m :| m in e.members && m !in listed && w.roster.people[m].health != HEALTHY;
      assert deleted.roster.people[m].health == HEALTHY;
      assert cancelled.roster.people[m].health != HEALTHY;
    }
  }

  lemma SameChanges(r: Roster, a: map<int, Health>, b: map<int, Health>, cause: Cause)
    requires forall p | p in r.people ::
               (if p in a then a[p] else r.people[p].health) == (if p in b then b[p] else r.people[p].health)
    ensures SetHealth(r, a, cause) == SetHealth(r, b, cause)
  {
    forall p: int ensures Changes(r.people, a, p) == Changes(r.people, b, p) {}
    SameLogs(r, a, b, cause);
    var x, y := Assigned(r.people, a), Assigned(r.people, b);
    forall p | p in r.people ensures x[p] == y[p] {}
    assert x == y;
  }

  lemma SameLogs(r: Roster, a: map<int, Health>, b: map<int, Health>, cause: Cause)
    requires forall p: int :: Changes(r.people, a, p) == Changes(r.people, b, p)
    requires forall p: int :: Changes(r.people, a, p) ==> p in a && p in b && a[p] == b[p]
    ensures Logged(r.people, r.healthLog, a, cause) == Logged(r.people, r.healthLog, b, cause)
  {
    var x, y := Logged(r.people, r.healthLog, a, cause), Logged(r.people, r.healthLog, b, cause);
    forall p: int ensures (p in x <==> p in y) && (p in x ==> x[p] == y[p]) {
      assert Changes(r.people, a, p) == Changes(r.people, b, p);
    }
    assert x == y;
  }
}
