/** The two-camp approval protocol and the atomic move that completes it. */
module Transfers {
  import opened Core
  import opened Ledger
  import opened Census
  import opened Tables
  import opened Store

  function ResourceLines(items: seq<Item>): seq<Line> {
    if items == [] then []
    else if items[0].ResourceItem? then [Line(items[0].resource, items[0].quantity)] + ResourceLines(items[1..])
    else ResourceLines(items[1..])
  }

  function PersonIds(items: seq<Item>): seq<int> {
    if items == [] then []
    else if items[0].PersonItem? then [items[0].person] + PersonIds(items[1..])
    else PersonIds(items[1..])
  }

  // ---------------------------------------------------------------------------------------------
  // The stock part of a completion
  // ---------------------------------------------------------------------------------------------

  /** An outflow row and an inflow row per resource type. */
  function TransferBatch(order: seq<int>, lines: seq<Line>, id: int, source: int, target: int): seq<Movement> {
    if order == [] then []
    else
      var r := order[|order| - 1];
      TransferBatch(order[..|order| - 1], lines, id, source, target)
      + [Movement(Slot(source, r), TransferOut(id), -SumFor(lines, r)),
         Movement(Slot(target, r), TransferIn(id), SumFor(lines, r))]
  }

  function Shipment(lines: seq<Line>, id: int, source: int, target: int): seq<Movement> {
    TransferBatch(Firsts(lines), lines, id, source, target)
  }

  lemma {:induction false} TransferBatchNet(order: seq<int>, lines: seq<Line>, id: int, source: int, target: int,
                                              slot: Slot, origin: Origin)
    requires Distinct(order)
    ensures var amount := if slot.resource in order then SumFor(lines, slot.resource) else 0;
            var out := if slot.camp == source then amount else 0;
            var into := if slot.camp == target then amount else 0;
            && Net(TransferBatch(order, lines, id, source, target), slot) == into - out
            && NetOf(TransferBatch(order, lines, id, source, target), slot, origin) ==
                 (if origin == TransferOut(id) then -out else if origin == TransferIn(id) then into else 0)
  {
    if order != [] {
      var front, r := order[..|order| - 1], order[|order| - 1];
      TransferBatchNet(front, lines, id, source, target, slot, origin);
      assert order == front + [r] && r !in front;
      PairNet(TransferBatch(front, lines, id, source, target), id, source, target, r, SumFor(lines, r), slot, origin);
    }
  }

  lemma PairNet(rest: seq<Movement>, id: int, source: int, target: int, r: int, x: int, slot: Slot, origin: Origin)
    ensures var ms := rest + [Movement(Slot(source, r), TransferOut(id), -x), Movement(Slot(target, r), TransferIn(id), x)];
            var out := if slot == Slot(source, r) then x else 0;
            var into := if slot == Slot(target, r) then x else 0;
            && Net(ms, slot) == Net(rest, slot) + into - out
            && NetOf(ms, slot, origin) ==
               NetOf(rest, slot, origin) + (if origin == TransferOut(id) then -out else if origin == TransferIn(id) then into else 0)
  {
    NetOfPair(rest, Movement(Slot(source, r), TransferOut(id), -x), Movement(Slot(target, r), TransferIn(id), x), slot, origin);
  }

  lemma NetOfPair(rest: seq<Movement>, a: Movement, b: Movement, slot: Slot, origin: Origin)
    ensures Net(rest + [a, b], slot) == Net(rest, slot) + NetOne(a, slot) + NetOne(b, slot)
    ensures NetOf(rest + [a, b], slot, origin) == NetOf(rest, slot, origin) + NetOfOne(a, slot, origin) + NetOfOne(b, slot, origin)
  {
    assert rest + [a, b] == rest + [a] + [b];
    assert (rest + [a])[..|rest|] == rest;
    assert (rest + [a] + [b])[..|rest| + 1] == rest + [a];
  }

  /** What a completed transfer does to each slot, whatever duplicates its item list holds. */
  lemma ShipmentNet(lines: seq<Line>, id: int, source: int, target: int, slot: Slot, origin: Origin)
    ensures var out := if slot.camp == source then SumFor(lines, slot.resource) else 0;
            var into := if slot.camp == target then SumFor(lines, slot.resource) else 0;
            && Net(Shipment(lines, id, source, target), slot) == into - out
            && NetOf(Shipment(lines, id, source, target), slot, origin) ==
                 (if origin == TransferOut(id) then -out else if origin == TransferIn(id) then into else 0)
  {
    FirstsAreTheResources(lines);
    TransferBatchNet(Firsts(lines), lines, id, source, target, slot, origin);
  }

  lemma {:induction false} BatchLeavesOthersAlone(books: Books, order: seq<int>, lines: seq<Line>,
                                                    id: int, source: int, target: int, slot: Slot)
    requires slot.resource !in order
    ensures var after := Post(books, TransferBatch(order, lines, id, source, target)).stock;
            && (slot in after <==> slot in books.stock)
            && Have(after, slot) == Have(books.stock, slot)
  {
    if order != [] {
      var front, r := order[..|order| - 1], order[|order| - 1];
      BatchLeavesOthersAlone(books, front, lines, id, source, target, slot);
      assert r in order;
      PostPair(books, TransferBatch(front, lines, id, source, target),
               Movement(Slot(source, r), TransferOut(id), -SumFor(lines, r)), Movement(Slot(target, r), TransferIn(id), SumFor(lines, r)));
    }
  }

  lemma PostPair(books: Books, ms: seq<Movement>, a: Movement, b: Movement)
    ensures Post(books, ms + [a, b]) == Post1(Post1(Post(books, ms), a), b)
  {
    assert ms + [a, b] == ms + [a] + [b];
    PostConcat(books, ms + [a], [b]);
    PostConcat(books, ms, [a]);
    PostOne(Post(books, ms), a);
    PostOne(Post(books, ms + [a]), b);
  }

  lemma TransferBatchStep(books: Books, order: seq<int>, i: nat, lines: seq<Line>, id: int, source: int, target: int)
    requires i < |order| && Distinct(order)
    ensures var r, rest := order[i], TransferBatch(order[..i], lines, id, source, target);
            var before := Post(books, rest);
            var out := Movement(Slot(source, r), TransferOut(id), -SumFor(lines, r));
            var into := Movement(Slot(target, r), TransferIn(id), SumFor(lines, r));
            && (Slot(source, r) in before.stock <==> Slot(source, r) in books.stock)
            && Have(before.stock, Slot(source, r)) == Have(books.stock, Slot(source, r))
            && TransferBatch(order[..i + 1], lines, id, source, target) == rest + [out, into]
            && Post(books, rest + [out, into]) == Post1(Post1(before, out), into)
  {
    var r, rest := order[i], TransferBatch(order[..i], lines, id, source, target);
    assert order[..i + 1][..i] == order[..i] && r !in order[..i];
    BatchLeavesOthersAlone(books, order[..i], lines, id, source, target, Slot(source, r));
    PostPair(books, rest, Movement(Slot(source, r), TransferOut(id), -SumFor(lines, r)),
             Movement(Slot(target, r), TransferIn(id), SumFor(lines, r)));
  }

  lemma CoversStep(stock: map<Slot, int>, camp: int, order: seq<int>, i: nat, lines: seq<Line>)
    requires i < |order| && Covers(stock, camp, order[..i], lines)
    ensures var slot := Slot(camp, order[i]);
            && (slot in stock && SumFor(lines, order[i]) <= stock[slot] <==> Covers(stock, camp, order[..i + 1], lines))
            && (Covers(stock, camp, order, lines) ==> Covers(stock, camp, order[..i + 1], lines))
  {
    assert order[..i + 1] == order[..i] + [order[i]];
    assert order[i] in order[..i + 1];
  }

  /** One turn of the loop: guarded decrement, credit, and the two rows to log. */
  method MoveOneResource(db: Database, id: int, source: int, target: int, item: Line, ghost log: seq<Movement>)
    returns (count: nat, rows: seq<Movement>)
    modifies db`stock
    ensures var slot := Slot(source, item.resource);
            count == if slot in old(db.stock) && old(db.stock)[slot] >= item.amount then 1 else 0
    ensures rows == [Movement(Slot(source, item.resource), TransferOut(id), -item.amount),
                     Movement(Slot(target, item.resource), TransferIn(id), item.amount)]
    ensures count == 1 ==> db.stock == Post1(Post1(Books(old(db.stock), log), rows[0]), rows[1]).stock
  {
    rows := [Movement(Slot(source, item.resource), TransferOut(id), -item.amount),
             Movement(Slot(target, item.resource), TransferIn(id), item.amount)];
    count := db.DecrementIfEnough(Slot(source, item.resource), item.amount);
    if count != 0 {
      db.UpsertIncrement(Slot(target, item.resource), item.amount);
    }
  }

  /** The decrement-then-credit loop refines "all or refuse": success exactly when affordable. */
  method ApplyResourceTransfer(db: Database, id: int, source: int, target: int, items: seq<Line>) returns (o: Outcome)
    modifies db`stock, db`log
    ensures o == if Covers(old(db.stock), source, Firsts(items), items) then Done else Refused(400)
    ensures o.Done? ==> Books(db.stock, db.log) == Post(Books(old(db.stock), old(db.log)), Shipment(items, id, source, target))
  {
    var merged := AggregateResources(items);
    var entries: seq<Movement> := [];
    ghost var order, before := Firsts(items), Books(db.stock, db.log);
    FirstsAreTheResources(items);
    for i := 0 to |merged|
      invariant entries == TransferBatch(order[..i], items, id, source, target)
      invariant db.stock == Post(before, entries).stock
      invariant db.log == old(db.log)
      invariant Covers(before.stock, source, order[..i], items)
    {
      var item := merged[i];
      TransferBatchStep(before, order, i, items, id, source, target);
      CoversStep(before.stock, source, order, i, items);
      var count, rows := MoveOneResource(db, id, source, target, item, Post(before, entries).log);
      if count == 0 {
        return Refused(400);
      }
      entries := entries + rows;
    }
    assert order[..|order|] == order;
    if |entries| > 0 {
      db.log := db.log + entries;
    }
    PostEffect(before, entries, Slot(source, 0));
    return Done;
  }

  // ---------------------------------------------------------------------------------------------
  // The people part of a completion
  // ---------------------------------------------------------------------------------------------

  function MoveOutcome(people: map<int, Person>, ids: seq<int>, source: int): Outcome {
    if !Distinct(ids) || (exists p | p in ids :: p !in people) then Refused(404)
    else if exists p | p in ids :: people[p].camp != source then Refused(400)
    else Done
  }

  function Moved(r: Roster, ids: set<int>, source: int, target: int, health: Health, cause: Cause): Roster {
    Relocate(SetHealth(r, Uniform(ids, health), cause), ids, source, target, cause)
  }

  /** What the loop body does for one person row. */
  function MovedRow(r: Roster, p: int, source: int, target: int, health: Health, cause: Cause): Roster
    requires p in r.people
  {
    Roster(
      r.people[p := r.people[p].(camp := target, health := health)],
      if r.people[p].health == health then r.healthLog
      else r.healthLog[p := LogOf(r.healthLog, p) + [Change(r.people[p].health, health, cause)]],
      r.campLog[p := LogOf(r.campLog, p) + [Change(source, target, cause)]])
  }

  method MovePerson(db: Database, p: int, source: int, target: int, health: Health, cause: Cause)
    requires p in db.people
    modifies db`people, db`healthLog, db`campLog
    ensures Roster(db.people, db.healthLog, db.campLog) ==
            MovedRow(Roster(old(db.people), old(db.healthLog), old(db.campLog)), p, source, target, health, cause)
  {
    var person := db.people[p];
    db.people := db.people[p := person.(camp := target, health := health)];
    if person.health != health {
      db.healthLog := db.healthLog[p := LogOf(db.healthLog, p) + [Change(person.health, health, cause)]];
    }
    db.campLog := db.campLog[p := LogOf(db.campLog, p) + [Change(source, target, cause)]];
  }

  method ApplyPeopleTransfer(db: Database, id: int, source: int, target: int, ids: seq<int>, health: Health) returns (o: Outcome)
    modifies db`people, db`healthLog, db`campLog
    ensures o == MoveOutcome(old(db.people), ids, source)
    ensures o.Done? ==>
              && var before := Roster(old(db.people), old(db.healthLog), old(db.campLog));
              && Roster(db.people, db.healthLog, db.campLog) == Moved(before, Elements(ids), source, target, health, ByTransfer(id))
  {
    if |ids| == 0 {
      MovedNobody(Roster(db.people, db.healthLog, db.campLog), source, target, health, ByTransfer(id));
      return Done;
    }
    var rows := Elements(ids) * db.people.Keys;
    FoundAll(ids, db.people);
    :- Need(|rows| == |ids|, 404);
    o := MoveRows(db, rows, source, target, health, ByTransfer(id));
  }

  /** Rows come back from `findMany` in no promised order, so the loop takes them in any order. */
  method MoveRows(db: Database, rows: set<int>, source: int, target: int, health: Health, cause: Cause) returns (o: Outcome)
    requires rows <= db.people.Keys
    modifies db`people, db`healthLog, db`campLog
    ensures o == if exists p | p in rows :: old(db.people)[p].camp != source then Refused(400) else Done
    ensures o.Done? ==>
              && var before := Roster(old(db.people), old(db.healthLog), old(db.campLog));
              && Roster(db.people, db.healthLog, db.campLog) == Moved(before, rows, source, target, health, cause)
  {
    ghost var before := Roster(db.people, db.healthLog, db.campLog);
    MovedNobody(before, source, target, health, cause);
    var todo := rows;
    ghost var done: set<int> := {};
    while todo != {}
      invariant done !! todo && done + todo == rows
      invariant Roster(db.people, db.healthLog, db.campLog) == Moved(before, done, source, target, health, cause)
      invariant forall p | p in done :: before.people[p].camp == source
      decreases todo
    {
      var p := AnyOf(todo);
      o := MoveNext(db, before, done, p, source, target, health, cause);
      if o.Refused? {
        return;
      }
      todo, done := todo - {p}, done + {p};
    }
    assert done == rows;
    return Done;
  }

  method MoveNext(db: Database, ghost before: Roster, ghost done: set<int>, p: int, source: int, target: int, health: Health, cause: Cause)
    returns (o: Outcome)
    requires Roster(db.people, db.healthLog, db.campLog) == Moved(before, done, source, target, health, cause)
    requires p in before.people && p !in done
    modifies db`people, db`healthLog, db`campLog
    ensures o == if before.people[p].camp != source then Refused(400) else Done
    ensures o.Done? ==> Roster(db.people, db.healthLog, db.campLog) == Moved(before, done + {p}, source, target, health, cause)
  {
    MovedStep(before, done, p, source, target, health, cause);
    :- Need(db.people[p].camp == source, 400);
    MovePerson(db, p, source, target, health, cause);
    return Done;
  }

  lemma FoundAll(ids: seq<int>, people: map<int, Person>)
    ensures |Elements(ids) * people.Keys| == |ids| <==> Distinct(ids) && forall p | p in ids :: p in people
    ensures |Elements(ids) * people.Keys| == |ids| ==> Elements(ids) * people.Keys == Elements(ids)
  {
    DistinctCount(ids);
    var found := Elements(ids) * people.Keys;
    assert Elements(ids) == found + (Elements(ids) - people.Keys);
    assert |Elements(ids)| == |found| + |Elements(ids) - people.Keys|;
    if forall p | p in ids :: p in people {
      assert found == Elements(ids);
    } else {
      var p :| p in ids && p !in people;
      assert p in Elements(ids) - people.Keys;
    }
  }

  lemma MovedNobody(r: Roster, source: int, target: int, health: Health, cause: Cause)
    ensures Moved(r, {}, source, target, health, cause) == r
  {
    assert Uniform({}, health) == map[];
    SetHealthNobody(r, cause);
    RelocateNobody(r, source, target, cause);
  }

  lemma MovedStep(r: Roster, done: set<int>, p: int, source: int, target: int, health: Health, cause: Cause)
    requires p in r.people && p !in done
    ensures var s := Moved(r, done, source, target, health, cause);
            && p in s.people && s.people[p] == r.people[p]
            && Moved(r, done + {p}, source, target, health, cause) == MovedRow(s, p, source, target, health, cause)
  {
    hide Relocate, SetHealth;
    var goal := Uniform(done + {p}, health);
    assert Only(goal, done) == Uniform(done, health) && Only(goal, done + {p}) == goal;
    SetHealthStep(r, goal, done, p, cause);
    var part, whole := SetHealth(r, Uniform(done, health), cause), SetHealth(r, goal, cause);
    RelocateStep(whole, done, p, source, target, cause);
    RelocatedPeople(part, whole, done, p, source, target, health, cause);
  }

  lemma RelocatedPeople(part: Roster, whole: Roster, done: set<int>, p: int, source: int, target: int, health: Health, cause: Cause)
    requires p in part.people && p !in done
    requires part.people[p].health == health ==> whole.people == part.people
    requires whole.people == part.people[p := part.people[p].(health := health)]
    requires whole.campLog == part.campLog
    ensures var s, t := Relocate(part, done, source, target, cause), Relocate(whole, done, source, target, cause);
            && p in s.people && s.people[p] == part.people[p]
            && t.people == s.people[p := s.people[p].(health := health)] && t.campLog == s.campLog
            && s.healthLog == part.healthLog && t.healthLog == whole.healthLog
  {
    var s, t := Relocate(part, done, source, target, cause), Relocate(whole, done, source, target, cause);
    assert part.people.Keys == whole.people.Keys;
    assert t.people == s.people[p := s.people[p].(health := health)];
    assert t.campLog == s.campLog;
  }

  // ---------------------------------------------------------------------------------------------
  // Creating a transfer
  // ---------------------------------------------------------------------------------------------

  datatype Proposal = Proposal(
    requesting: int, target: int, requestedBy: int, items: seq<Item>, delivery: Option<int>,
    leader: Option<int>, requiredProfession: Option<int>)

  function ProposalOutcome(w: World, d: Proposal): Outcome {
    var eligible := Eligible(w.roster.people, Elements(PersonIds(d.items)), d.requesting);
    if d.requesting == d.target then Refused(400)
    else if d.requestedBy !in w.users || d.requesting !in w.catalog.camps || d.target !in w.catalog.camps then Refused(404)
    else if exists l | l in ResourceLines(d.items) :: l.resource !in w.catalog.resources then Refused(404)
    else if eligible.Refused? then eligible
    else if d.leader.Some? && Eligible(w.roster.people, {d.leader.value}, d.requesting).Refused? then
      Eligible(w.roster.people, {d.leader.value}, d.requesting)
    else if w.users[d.requestedBy] != d.requesting then Refused(400)
    else if d.requiredProfession.Some? && d.requiredProfession.value !in w.catalog.professions then Refused(404)
    else if d.requiredProfession.Some? && exists p | p in PersonIds(d.items) && p in w.roster.people ::
              w.roster.people[p].profession != d.requiredProfession.value then Refused(400)
    else Done
  }

  function Proposed(w: World, d: Proposal): World {
    w.(transfers := w.transfers[w.nextId := Transfer(d.requesting, d.target, PENDING, d.items, d.delivery, None, None)],
       nextId := w.nextId + 1)
  }

  function Propose(w: World, d: Proposal): Response {
    Commit(w, ProposalOutcome(w, d), Proposed(w, d))
  }

  method CreateTransfer(db: Database, d: Proposal) returns (o: Outcome)
    modifies db
    ensures Response(db.Snapshot(), o) == Propose(old(db.Snapshot()), d)
  {
    var resourceTypeIds := ResourceLines(d.items);
    var personIds := PersonIds(d.items);
    :- Need(d.requesting != d.target, 400);
    :- Need(d.requestedBy in db.users, 404);
    :- Need(d.requesting in db.catalog.camps, 404);
    :- Need(d.target in db.catalog.camps, 404);
    :- Need(forall l | l in resourceTypeIds :: l.resource in db.catalog.resources, 404);
    :- CheckEligible(db.people, personIds, d.requesting);
    if d.leader.Some? {
      assert Elements([d.leader.value]) == {d.leader.value};
      :- CheckEligible(db.people, [d.leader.value], d.requesting);
    }
    :- Need(db.users[d.requestedBy] == d.requesting, 400);
    if d.requiredProfession.Some? {
      :- Need(d.requiredProfession.value in db.catalog.professions, 404);
      :- Need(forall p | p in personIds && p in db.people :: db.people[p].profession == d.requiredProfession.value, 400);
    }
    var id := db.NewId();
    db.transfers := db.transfers[id := Transfer(d.requesting, d.target, PENDING, d.items, d.delivery, None, None)];
    return Done;
  }

  // ---------------------------------------------------------------------------------------------
  // Scheduling, approving, rejecting
  // ---------------------------------------------------------------------------------------------

  function ScheduleOutcome(w: World, id: int, actor: int, date: int, now: int): Outcome {
    if date < now then Refused(400)
    else if actor !in w.users || id !in w.transfers then Refused(404)
    else if w.transfers[id].status in {COMPLETED, REJECTED} then Refused(400)
    else if w.users[actor] != w.transfers[id].requesting then Refused(403)
    else Done
  }

  /** The write alone, as the other `Commit` functions below: no status is looked at again. */
  function CommitSchedule(w: World, id: int, date: int): Response {
    if id !in w.transfers then Refuse(w, 404)
    else Response(w.(transfers := w.transfers[id := w.transfers[id].(delivery := Some(date))]), Done)
  }

  function Schedule(w: World, id: int, actor: int, date: int, now: int): Response {
    var o := ScheduleOutcome(w, id, actor, date, now);
    if o.Refused? then Response(w, o) else CommitSchedule(w, id, date)
  }

  method ScheduleTransferDelivery(db: Database, id: int, actor: int, date: int, now: int) returns (o: Outcome)
    modifies db
    ensures Response(db.Snapshot(), o) == Schedule(old(db.Snapshot()), id, actor, date, now)
  {
    o := Need(date >= now, 400);
    :- o;
    :- Need(actor in db.users, 404);
    :- Need(id in db.transfers, 404);
    var transfer := db.transfers[id];
    :- Need(transfer.status != COMPLETED && transfer.status != REJECTED, 400);
    :- Need(db.users[actor] == transfer.requesting, 403);
    db.transfers := db.transfers[id := transfer.(delivery := Some(date))];
    return Done;
  }

  /** `ensureScheduledDeliveryDateForApproval` */
  function EnsureDelivery(date: Option<int>, now: int): Outcome {
    if date.None? || date.value < now then Refused(400) else Done
  }

  function SourceApprovalOutcome(w: World, id: int, approver: int, date: Option<int>, now: int): Outcome {
    if approver !in w.users || id !in w.transfers then Refused(404)
    else if w.transfers[id].status != PENDING then Refused(400)
    else if w.users[approver] != w.transfers[id].requesting then Refused(403)
    else EnsureDelivery(if date.Some? then date else w.transfers[id].delivery, now)
  }

  function CommitSourceApproval(w: World, id: int, approver: int, delivery: Option<int>): Response {
    if id !in w.transfers then Refuse(w, 404)
    else Response(w.(transfers := w.transfers[id := w.transfers[id].(
      status := APPROVED_SOURCE, approvedBySource := Some(approver), delivery := delivery)]), Done)
  }

  function ApproveSource(w: World, id: int, approver: int, date: Option<int>, now: int): Response {
    var o := SourceApprovalOutcome(w, id, approver, date, now);
    if o.Refused? then Response(w, o)
    else CommitSourceApproval(w, id, approver, if date.Some? then date else w.transfers[id].delivery)
  }

  method ApproveTransferBySource(db: Database, id: int, approver: int, date: Option<int>, now: int) returns (o: Outcome)
    modifies db
    ensures Response(db.Snapshot(), o) == ApproveSource(old(db.Snapshot()), id, approver, date, now)
  {
    o := Need(approver in db.users, 404);
    :- o;
    :- Need(id in db.transfers, 404);
    var transfer := db.transfers[id];
    :- Need(transfer.status == PENDING, 400);
    :- Need(db.users[approver] == transfer.requesting, 403);
    var effectiveDate := if date.Some? then date else transfer.delivery;
    :- EnsureDelivery(effectiveDate, now);
    db.transfers := db.transfers[id := transfer.(
      status := APPROVED_SOURCE, approvedBySource := Some(approver), delivery := effectiveDate)];
    return Done;
  }

  function TargetApprovalOutcome(w: World, id: int, approver: int, now: int): Outcome {
    if approver !in w.users || id !in w.transfers then Refused(404)
    else if w.transfers[id].status != APPROVED_SOURCE then Refused(400)
    else if w.users[approver] != w.transfers[id].target then Refused(403)
    else EnsureDelivery(w.transfers[id].delivery, now)
  }

  function CommitTargetApproval(w: World, id: int, approver: int): Response {
    if id !in w.transfers then Refuse(w, 404)
    else Response(w.(transfers := w.transfers[id :=
      w.transfers[id].(status := APPROVED_TARGET, approvedByTarget := Some(approver))]), Done)
  }

  function ApproveTarget(w: World, id: int, approver: int, now: int): Response {
    var o := TargetApprovalOutcome(w, id, approver, now);
    if o.Refused? then Response(w, o) else CommitTargetApproval(w, id, approver)
  }

  method ApproveTransferByTarget(db: Database, id: int, approver: int, now: int) returns (o: Outcome)
    modifies db
    ensures Response(db.Snapshot(), o) == ApproveTarget(old(db.Snapshot()), id, approver, now)
  {
    o := Need(approver in db.users, 404);
    :- o;
    :- Need(id in db.transfers, 404);
    var transfer := db.transfers[id];
    :- Need(transfer.status == APPROVED_SOURCE, 400);
    :- Need(db.users[approver] == transfer.target, 403);
    :- EnsureDelivery(transfer.delivery, now);
    db.transfers := db.transfers[id := transfer.(status := APPROVED_TARGET, approvedByTarget := Some(approver))];
    return Done;
  }

  function RejectOutcome(w: World, id: int, actor: int): Outcome {
    if actor !in w.users || id !in w.transfers then Refused(404)
    else if w.transfers[id].status in {COMPLETED, REJECTED} then Refused(400)
    else if w.users[actor] !in {w.transfers[id].requesting, w.transfers[id].target} then Refused(403)
    else Done
  }

  function CommitRejection(w: World, id: int): Response {
    if id !in w.transfers then Refuse(w, 404)
    else Response(w.(transfers := w.transfers[id := w.transfers[id].(status := REJECTED)]), Done)
  }

  function Reject(w: World, id: int, actor: int): Response {
    var o := RejectOutcome(w, id, actor);
    if o.Refused? then Response(w, o) else CommitRejection(w, id)
  }

  method RejectTransfer(db: Database, id: int, actor: int) returns (o: Outcome)
    modifies db
    ensures Response(db.Snapshot(), o) == Reject(old(db.Snapshot()), id, actor)
  {
    o := Need(actor in db.users, 404);
    :- o;
    :- Need(id in db.transfers, 404);
    var transfer := db.transfers[id];
    :- Need(transfer.status != COMPLETED, 400);
    :- Need(transfer.status != REJECTED, 400);
    :- Need(db.users[actor] == transfer.requesting || db.users[actor] == transfer.target, 403);
    db.transfers := db.transfers[id := transfer.(status := REJECTED)];
    return Done;
  }

  // ---------------------------------------------------------------------------------------------
  // Completing
  // ---------------------------------------------------------------------------------------------

  /** `resourceItems.find((r) => r.resource_type_id === type)` */
  function FindLine(lines: seq<Line>, resource: int): Option<Line> {
    if lines == [] then None
    else if lines[0].resource == resource then Some(lines[0])
    else FindLine(lines[1..], resource)
  }

  /** Travel rations for the people of a transfer, judged on the first ration line. */
  function RationOutcome(policy: RationPolicy, lines: seq<Line>, headCount: nat): Outcome {
    if headCount == 0 then Done
    else if lines == [] || policy.rationType.None? || FindLine(lines, policy.rationType.value).None? then Refused(400)
    else if FindLine(lines, policy.rationType.value).value.amount < headCount * policy.perDay * policy.days then Refused(400)
    else Done
  }

  /** The checks on the goods and the people, once the status has been checked. */
  function ShippingOutcome(w: World, t: Transfer): Outcome {
    var lines, ids := ResourceLines(t.items), PersonIds(t.items);
    if !Positive(lines) || RationOutcome(w.catalog.policy, lines, |ids|).Refused? then Refused(400)
    else if !Covers(w.books.stock, t.requesting, Firsts(lines), lines) then Refused(400)
    else MoveOutcome(w.roster.people, ids, t.requesting)
  }

  function CompletionOutcome(w: World, id: int, actor: int): Outcome {
    if actor !in w.users || id !in w.transfers then Refused(404)
    else
      var t := w.transfers[id];
      if t.status != APPROVED_TARGET then Refused(400)
      else if w.users[actor] !in {t.requesting, t.target} then Refused(403)
      else ShippingOutcome(w, t)
  }

  function Completed(w: World, id: int, health: Health): World
    requires id in w.transfers
  {
    var t := w.transfers[id];
    w.(books := Post(w.books, Shipment(ResourceLines(t.items), id, t.requesting, t.target)),
       roster := Moved(w.roster, Elements(PersonIds(t.items)), t.requesting, t.target, health, ByTransfer(id)),
       transfers := w.transfers[id := t.(status := COMPLETED)])
  }

  /** The completing writes on a status read earlier; `health` is the status on arrival, HEALTHY when absent. */
  function CommitCompletion(w: World, id: int, health: Option<Health>): Response {
    if id !in w.transfers then Refuse(w, 404)
    else
      var o := ShippingOutcome(w, w.transfers[id]);
      if o.Refused? then Response(w, o)
      else Response(Completed(w, id, if health.Some? then health.value else HEALTHY), Done)
  }

  function Complete(w: World, id: int, actor: int, health: Option<Health>): Response {
    var o := CompletionOutcome(w, id, actor);
    if o.Refused? then Response(w, o) else CommitCompletion(w, id, health)
  }

  method CompleteTransfer(db: Database, id: int, actor: int, health: Option<Health>) returns (o: Outcome)
    modifies db
    ensures Response(db.Snapshot(), o) == Complete(old(db.Snapshot()), id, actor, health)
  {
    var arrival := if health.Some? then health.value else HEALTHY;
    :- Need(actor in db.users, 404);
    :- Need(id in db.transfers, 404);
    var transfer := db.transfers[id];
    :- Need(transfer.status == APPROVED_TARGET, 400);
    :- Need(db.users[actor] == transfer.requesting || db.users[actor] == transfer.target, 403);
    var resourceItems, personIds := ResourceLines(transfer.items), PersonIds(transfer.items);
    :- Need(forall l | l in resourceItems :: l.amount > 0, 400);
    :- CheckTravelRations(db.catalog.policy, resourceItems, |personIds|);
    o := MoveGoodsAndPeople(db, id, transfer, resourceItems, personIds, arrival);
    if o.Done? {
      db.transfers := db.transfers[id := transfer.(status := COMPLETED)];
    }
  }

  method CheckTravelRations(policy: RationPolicy, resourceItems: seq<Line>, headCount: nat) returns (o: Outcome)
    ensures o == RationOutcome(policy, resourceItems, headCount)
  {
    o := Need(headCount == 0 || |resourceItems| > 0, 400);
    :- o;
    if headCount > 0 {
      :- Need(policy.rationType.Some?, 400);
      var rationItem := FindLine(resourceItems, policy.rationType.value);
      :- Need(rationItem.Some?, 400);
      var minimumRations := headCount * policy.perDay * policy.days;
      :- Need(rationItem.value.amount >= minimumRations, 400);
    }
    return Done;
  }

  /** Both moves, or neither: a refusal rolls the transaction back. */
  method MoveGoodsAndPeople(db: Database, id: int, t: Transfer, lines: seq<Line>, ids: seq<int>, arrival: Health) returns (o: Outcome)
    modifies db
    ensures var w := old(db.Snapshot());
            && o == (if !Covers(w.books.stock, t.requesting, Firsts(lines), lines) then Refused(400)
                     else MoveOutcome(w.roster.people, ids, t.requesting))
            && db.Snapshot() == if o.Refused? then w else w.(
                 books := Post(w.books, Shipment(lines, id, t.requesting, t.target)),
                 roster := Moved(w.roster, Elements(ids), t.requesting, t.target, arrival, ByTransfer(id)))
  {
    hide Covers, Shipment, MoveOutcome, Moved, Post;
    var before := db.Snapshot();
    o := ApplyResourceTransfer(db, id, t.requesting, t.target, lines);
    if o.Done? {
      o := ApplyPeopleTransfer(db, id, t.requesting, t.target, ids, arrival);
    }
    if o.Refused? {
      db.Rollback(before);
    }
  }
}
