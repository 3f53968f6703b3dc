/** Stock movements with their log rows, and adjustment requests. */
module Inventory {
  import opened Core
  import opened Ledger
  import opened Tables
  import opened Store

  /** The guarded decrement: refused unless the slot has a row that holds at least that much. */
  function Withdraw(books: Books, slot: Slot, quantity: int, origin: Origin): (Books, Outcome) {
    if slot !in books.stock || books.stock[slot] < quantity then (books, Refused(400))
    else (Post(books, [Movement(slot, origin, -quantity)]), Done)
  }

  function Adjust(books: Books, slot: Slot, isIn: bool, quantity: int, origin: Origin): (Books, Outcome) {
    if isIn then (Post(books, [Movement(slot, origin, quantity)]), Done)
    else Withdraw(books, slot, quantity, origin)
  }

  function Consume(w: World, camp: int, resource: int, quantity: int): Response {
    if quantity <= 0 then Refuse(w, 400)
    else
      var (books, o) := Withdraw(w.books, Slot(camp, resource), quantity, DailyRation);
      Commit(w, o, w.(books := books))
  }

  method ConsumeInventoryWithLog(db: Database, camp: int, resource: int, quantity: int) returns (o: Outcome)
    modifies db
    ensures Response(db.Snapshot(), o) == Consume(old(db.Snapshot()), camp, resource, quantity)
  {
    o := Need(quantity > 0, 400);
    :- o;
    var slot := Slot(camp, resource);
    var count := db.DecrementIfEnough(slot, quantity);
    if count == 0 {
      return Refused(400);
    }
    db.CreateLog(Movement(slot, DailyRation, -quantity));
    PostOne(old(db.Snapshot()).books, Movement(slot, DailyRation, -quantity));
    return Done;
  }

  function Increase(w: World, camp: int, resource: int, quantity: int): Response {
    if quantity <= 0 then Refuse(w, 400)
    else Response(w.(books := Post(w.books, [Movement(Slot(camp, resource), DailyGain, quantity)])), Done)
  }

  method IncreaseInventoryWithLog(db: Database, camp: int, resource: int, quantity: int) returns (o: Outcome)
    modifies db
    ensures Response(db.Snapshot(), o) == Increase(old(db.Snapshot()), camp, resource, quantity)
  {
    o := Need(quantity > 0, 400);
    :- o;
    var slot := Slot(camp, resource);
    if slot in db.stock {
      db.stock := db.stock[slot := db.stock[slot] + quantity];
    } else {
      db.stock := db.stock[slot := quantity];
    }
    db.CreateLog(Movement(slot, DailyGain, quantity));
    PostOne(old(db.Snapshot()).books, Movement(slot, DailyGain, quantity));
    return Done;
  }

  /** The request schema lets only positive quantities through; the service then checks its references. */
  function AdjustManually(w: World, camp: int, resource: int, isIn: bool, quantity: int, user: int): Response {
    if quantity <= 0 then Refuse(w, 400)
    else if camp !in w.catalog.camps || resource !in w.catalog.resources || user !in w.users then Refuse(w, 404)
    else
      var (books, o) := Adjust(w.books, Slot(camp, resource), isIn, quantity, ManualMovement);
      Commit(w, o, w.(books := books))
  }

  method CreateManualAdjustment(db: Database, camp: int, resource: int, isIn: bool, quantity: int, user: int)
    returns (o: Outcome)
    modifies db
    ensures Response(db.Snapshot(), o) == AdjustManually(old(db.Snapshot()), camp, resource, isIn, quantity, user)
  {
    o := Need(quantity > 0, 400);
    :- o;
    :- Need(camp in db.catalog.camps, 404);
    :- Need(resource in db.catalog.resources, 404);
    :- Need(user in db.users, 404);
    o := ApplyAdjustment(db, Slot(camp, resource), isIn, quantity, ManualMovement);
  }

  /** The stock-and-log part that a manual adjustment and an approved request have in common. */
  method ApplyAdjustment(db: Database, slot: Slot, isIn: bool, quantity: int, origin: Origin) returns (o: Outcome)
    modifies db
    ensures var w := old(db.Snapshot());
            var (books, outcome) := Adjust(w.books, slot, isIn, quantity, origin);
            db.Snapshot() == w.(books := books) && o == outcome
  {
    var quantityChange := if isIn then quantity else -quantity;
    if isIn {
      db.UpsertIncrement(slot, quantity);
    } else {
      var count := db.DecrementIfEnough(slot, quantity);
      if count == 0 {
        return Refused(400);
      }
    }
    db.CreateLog(Movement(slot, origin, quantityChange));
    PostOne(old(db.Snapshot()).books, Movement(slot, origin, quantityChange));
    return Done;
  }

  // ---------------------------------------------------------------------------------------------
  // Adjustment requests
  // ---------------------------------------------------------------------------------------------

  function OpenRequest(w: World, camp: int, resource: int, isIn: bool, quantity: int, user: int): Response {
    if quantity <= 0 then Refuse(w, 400)
    else if user !in w.users then Refuse(w, 404)
    else if w.users[user] != camp then Refuse(w, 403)
    else Response(w.(requests := w.requests[w.nextId := Request(camp, resource, isIn, quantity, AWAITING)],
                     nextId := w.nextId + 1), Done)
  }

  method CreateRequest(db: Database, camp: int, resource: int, isIn: bool, quantity: int, user: int) returns (o: Outcome)
    modifies db
    ensures Response(db.Snapshot(), o) == OpenRequest(old(db.Snapshot()), camp, resource, isIn, quantity, user)
  {
    o := Need(quantity > 0, 400);
    :- o;
    :- Need(user in db.users, 404);
    :- Need(db.users[user] == camp, 403);
    var id := db.NewId();
    db.requests := db.requests[id := Request(camp, resource, isIn, quantity, AWAITING)];
    return Done;
  }

  /** The checks a review makes before its writes. */
  function ReviewCheck(w: World, id: int, reviewer: int): Outcome {
    if id !in w.requests then Refused(404)
    else if w.requests[id].status != AWAITING then Refused(400)
    else if reviewer !in w.users then Refused(404)
    else if w.users[reviewer] != w.requests[id].camp then Refused(403)
    else Done
  }

  /** The approving transaction alone: it never looks at the request's status again. */
  function CommitApproval(w: World, id: int): Response {
    if id !in w.requests then Refuse(w, 404)
    else
      var r := w.requests[id];
      var (books, o) := Adjust(w.books, Slot(r.camp, r.resource), r.isIn, r.quantity, ApprovedRequest(id));
      Commit(w, o, w.(books := books, requests := w.requests[id := r.(status := APPROVED)]))
  }

  function Approve(w: World, id: int, reviewer: int): Response {
    var o := ReviewCheck(w, id, reviewer);
    if o.Refused? then Response(w, o) else CommitApproval(w, id)
  }

  method ApproveRequest(db: Database, id: int, reviewer: int) returns (o: Outcome)
    modifies db
    ensures Response(db.Snapshot(), o) == Approve(old(db.Snapshot()), id, reviewer)
  {
    o := Need(id in db.requests, 404);
    :- o;
    var request := db.requests[id];
    :- Need(request.status == AWAITING, 400);
    :- Need(reviewer in db.users, 404);
    :- Need(db.users[reviewer] == request.camp, 403);
    var before := db.Snapshot();
    db.requests := db.requests[id := request.(status := APPROVED)];
    o := ApplyAdjustment(db, Slot(request.camp, request.resource), request.isIn, request.quantity, ApprovedRequest(id));
    if o.Refused? {
      db.Rollback(before);
    }
  }

  /** The declining write alone: it never looks at the request's status again. */
  function CommitDecline(w: World, id: int): Response {
    if id !in w.requests then Refuse(w, 404)
    else Response(w.(requests := w.requests[id := w.requests[id].(status := DECLINED)]), Done)
  }

  function Decline(w: World, id: int, reviewer: int): Response {
    var o := ReviewCheck(w, id, reviewer);
    if o.Refused? then Response(w, o) else CommitDecline(w, id)
  }

  method RejectRequest(db: Database, id: int, reviewer: int) returns (o: Outcome)
    modifies db
    ensures Response(db.Snapshot(), o) == Decline(old(db.Snapshot()), id, reviewer)
  {
    o := Need(id in db.requests, 404);
    :- o;
    var request := db.requests[id];
    :- Need(request.status == AWAITING, 400);
    :- Need(reviewer in db.users, 404);
    :- Need(db.users[reviewer] == request.camp, 403);
    db.requests := db.requests[id := request.(status := DECLINED)];
    return Done;
  }
}
