/** From a request that was accepted to its end: the calls that take it there, all accepted, and what they leave behind. */
module Lifecycles {
  import opened Core
  import opened Ledger
  import opened Census
  import opened Tables
  import opened Inventory
  import opened Transfers
  import opened Expeditions
  import opened LateWrites
  import opened Runs
  import opened TransferRuns
  import opened Effects
  import opened Answers
  import Rations

  /** What a call leaves behind. */
  ghost function After(w: World, e: Event): World {
    Step(w, e).world
  }

  lemma TraceOfTwo(w: World, a: Event, b: Event)
    ensures Trace(w, [a, b]) == After(After(w, a), b)
  {
    TwoSteps(w, a, b);
  }

  lemma TraceOfThree(w: World, a: Event, b: Event, c: Event)
    ensures Trace(w, [a, b, c]) == After(After(After(w, a), b), c)
  {
    assert [a, b, c][..2] == [a, b];
    TraceOfTwo(w, a, b);
  }

  lemma TraceOfFour(w: World, a: Event, b: Event, c: Event, d: Event)
    ensures Trace(w, [a, b, c, d]) == After(After(After(After(w, a), b), c), d)
  {
    assert [a, b, c, d][..3] == [a, b, c];
    TraceOfThree(w, a, b, c);
  }

  // ---------------------------------------------------------------------------------------------
  // Transfers
  // ---------------------------------------------------------------------------------------------

  /** Each approval writes its own columns of its own row, and nothing else anywhere. */
  lemma TransferRowWritten(w: World, e: Event)
    requires e.ScheduleTransfer? || e.ApproveAtSource? || e.ApproveAtTarget? || e.RejectTransfer?
    requires Step(w, e).outcome.Done?
    ensures e.transfer in w.transfers
    ensures var t := w.transfers[e.transfer];
            After(w, e) == w.(transfers := w.transfers[e.transfer :=
              match e
              case ScheduleTransfer(_, _, date, _) => t.(delivery := Some(date))
              case ApproveAtSource(_, user, date, _) =>
                t.(status := APPROVED_SOURCE, approvedBySource := Some(user), delivery := if date.Some? then date else t.delivery)
              case ApproveAtTarget(_, user, _) => t.(status := APPROVED_TARGET, approvedByTarget := Some(user))
              case _ => t.(status := REJECTED)])
  {}

  /** The goods arrive, the people arrive, the row is closed. */
  ghost predicate Delivered(w: World, v: World, id: int, d: Proposal, arrival: Option<Health>) {
    && id in v.transfers && v.transfers[id].status == COMPLETED && v.transfers[id].items == d.items
    && (forall s: Slot :: Have(v.books.stock, s) == Have(w.books.stock, s)
          + (if s.camp == d.target then SumFor(ResourceLines(d.items), s.resource) else 0)
          - (if s.camp == d.requesting then SumFor(ResourceLines(d.items), s.resource) else 0))
    && (forall p | PersonItem(p) in d.items ::
          p in v.roster.people && v.roster.people[p].camp == d.target
          && v.roster.people[p].health == if arrival.Some? then arrival.value else HEALTHY)
    && (forall p | PersonItem(p) !in d.items :: Untouched(w.roster, v.roster, p))
  }

  lemma CompletionDelivers(w: World, e: Event, d: Proposal)
    requires e.CompleteTransfer? && Step(w, e).outcome.Done?
    requires w.transfers[e.transfer].items == d.items
    requires w.transfers[e.transfer].requesting == d.requesting && w.transfers[e.transfer].target == d.target
    ensures Delivered(w, After(w, e), e.transfer, d, e.arrival)
  {
    hide Step, Untouched, StatusBecomes, Post, Shipment;
    var camps := if d.requesting == d.target then [d.target] else [d.requesting, d.target];
    GoodsDelivered(w, e, camps);
    forall p: int
      ensures PersonItem(p) in d.items ==>
        && p in After(w, e).roster.people && After(w, e).roster.people[p].camp == d.target
        && After(w, e).roster.people[p].health == if e.arrival.Some? then e.arrival.value else HEALTHY
      ensures PersonItem(p) !in d.items ==> Untouched(w.roster, After(w, e).roster, p)
    {
      Arrivals(w, e, p);
      if PersonItem(p) in d.items { PersonHasStatus(w, e, p); }
    }
  }

  lemma PersonHasStatus(w: World, e: Event, p: int)
    requires e.CompleteTransfer? && Step(w, e).outcome.Done? && PersonItem(p) in w.transfers[e.transfer].items
    ensures p in After(w, e).roster.people
    ensures After(w, e).roster.people[p].health == if e.arrival.Some? then e.arrival.value else HEALTHY
  {
    Arrivals(w, e, p);
  }

  lemma GoodsDelivered(w: World, e: Event, camps: seq<int>)
    requires e.CompleteTransfer? && Step(w, e).outcome.Done? && Distinct(camps)
    requires w.transfers[e.transfer].requesting in camps && w.transfers[e.transfer].target in camps
    ensures var t, v := w.transfers[e.transfer], After(w, e);
            && e.transfer in v.transfers && v.transfers[e.transfer] == t.(status := COMPLETED)
            && (forall s: Slot :: Have(v.books.stock, s) == Have(w.books.stock, s)
                  + (if s.camp == t.target then SumFor(ResourceLines(t.items), s.resource) else 0)
                  - (if s.camp == t.requesting then SumFor(ResourceLines(t.items), s.resource) else 0))
  {
    hide Post, Shipment, Moved, SumFor, ResourceLines;
    CompletionConserves(w, e.transfer, e.user, e.arrival, camps, 0);
  }

  /** What a proposal needs, besides being accepted, to be completed as it stands. */
  ghost predicate Completable(w: World, d: Proposal) {
    && Quantified(d.items) && RationsPacked(w.catalog.policy, d.items) && Distinct(PersonIds(d.items))
    && StockCovers(w, d.requesting, ResourceLines(d.items))
  }

  lemma CompletableIsReady(w: World, v: World, d: Proposal, t: Transfer)
    requires Answer(w, ProposeTransfer(d)) == Done && Completable(w, d)
    requires v.books == w.books && v.roster == w.roster && v.catalog == w.catalog
    requires t.items == d.items && t.requesting == d.requesting
    ensures GoodsReady(v, t) && EverybodyOnce(v, t.items) && EverybodyThere(v, t.items, t.requesting)
  {
    hide Step, Quantified, RationsPacked;
    ProposalAnswers(w, ProposeTransfer(d));
    assert forall p | PersonItem(p) in d.items :: Named(d, p);
  }

  /** The row and the tables just before the completion. */
  lemma ApprovedByBoth(w: World, d: Proposal, u: int, v: int, date: int, now: int)
    requires Answer(w, ProposeTransfer(d)) == Done && date >= now
    requires u in w.users && w.users[u] == d.requesting && v in w.users && w.users[v] == d.target
    ensures var w1 := After(w, ProposeTransfer(d));
            var w2 := After(w1, ApproveAtSource(w.nextId, u, Some(date), now));
            var w3 := After(w2, ApproveAtTarget(w.nextId, v, now));
            && Answer(w1, ApproveAtSource(w.nextId, u, Some(date), now)) == Done
            && Answer(w2, ApproveAtTarget(w.nextId, v, now)) == Done
            && w3.books == w.books && w3.roster == w.roster && w3.catalog == w.catalog && w3.users == w.users
            && w.nextId in w3.transfers
            && w3.transfers[w.nextId] == Transfer(d.requesting, d.target, APPROVED_TARGET, d.items, Some(date), Some(u), Some(v))
  {
    hide Step;
    var e1, e2, e3 := ProposeTransfer(d), ApproveAtSource(w.nextId, u, Some(date), now), ApproveAtTarget(w.nextId, v, now);
    TransferProposed(w, e1);
    var w1 := After(w, e1);
    SourceApprovalAnswers(w1, e2);
    TransferRowWritten(w1, e2);
    var w2 := After(w1, e2);
    TargetApprovalAnswers(w2, e3);
    TransferRowWritten(w2, e3);
  }

  /** An accepted proposal whose goods are there goes through: two approvals and a completion, and all of it is delivered. */
  lemma TransferCanComplete(w: World, d: Proposal, u: int, v: int, date: int, now: int, arrival: Option<Health>)
    requires Answer(w, ProposeTransfer(d)) == Done && Completable(w, d) && date >= now
    requires u in w.users && w.users[u] == d.requesting && v in w.users && w.users[v] == d.target
    ensures var id := w.nextId;
            var run := [ProposeTransfer(d), ApproveAtSource(id, u, Some(date), now), ApproveAtTarget(id, v, now),
                        CompleteTransfer(id, v, arrival)];
            Delivered(w, Trace(w, run), id, d, arrival)
  {
    hide Step, GoodsReady, EverybodyOnce, EverybodyThere, Completable, Untouched;
    var e1, e2, e3 := ProposeTransfer(d), ApproveAtSource(w.nextId, u, Some(date), now), ApproveAtTarget(w.nextId, v, now);
    var e4 := CompleteTransfer(w.nextId, v, arrival);
    ApprovedByBoth(w, d, u, v, date, now);
    var w3 := After(After(After(w, e1), e2), e3);
    CompletableIsReady(w, w3, d, w3.transfers[w.nextId]);
    CompletionAnswers(w3, e4);
    CompletionDelivers(w3, e4, d);
    SameOrigin(w, w3, After(w3, e4), w.nextId, d, arrival);
    TraceOfFour(w, e1, e2, e3, e4);
  }

  lemma SameOrigin(w: World, mid: World, v: World, id: int, d: Proposal, arrival: Option<Health>)
    requires mid.books == w.books && mid.roster == w.roster && Delivered(mid, v, id, d, arrival)
    ensures Delivered(w, v, id, d, arrival)
  {}

  // ---------------------------------------------------------------------------------------------
  // Expeditions
  // ---------------------------------------------------------------------------------------------

  /** What an event's rows do to a slot. */
  lemma SlotAfter(w: World, e: Event, s: Slot)
    requires WritesOf(w, e).Some? && Step(w, e).outcome.Done?
    ensures Have(After(w, e).books.stock, s) == Have(w.books.stock, s) + Net(LateRows(w, WritesOf(w, e).value), s)
  {
    hide Step, LateRows;
    WritesPost(w, e);
    PostEffect(w.books, Posted(w, e), s);
  }

  lemma LaunchTakes(w: World, d: Outing, s: Slot)
    requires Answer(w, LaunchExpedition(d)) == Done
    ensures Have(After(w, LaunchExpedition(d)).books.stock, s) ==
            Have(w.books.stock, s) - (if s.camp == d.camp then SumFor(d.allotted, s.resource) else 0)
  {
    hide Step;
    SlotAfter(w, LaunchExpedition(d), s);
    FlowNet(d.allotted, d.camp, ExpeditionOut(w.nextId), s, ExpeditionOut(w.nextId));
  }

  lemma ReturnFlowAmount(camp: int, id: int, d: StatusUpdate, s: Slot)
    ensures Net(ReturnFlow(camp, id, d), s) ==
            if d.status == RETURNED && s.camp == camp then SumFor(d.returned, s.resource) + SumFor(d.found, s.resource) else 0
  {
    hide Inflow, SumFor;
    FlowNet(d.returned, camp, ExpeditionReturn(id), s, ExpeditionReturn(id));
    FlowNet(d.found, camp, ExpeditionFound(id), s, ExpeditionFound(id));
    NetConcat(Inflow(d.returned, camp, ExpeditionReturn(id)), Inflow(d.found, camp, ExpeditionFound(id)), s);
  }

  lemma UpdateGives(w: World, id: int, d: StatusUpdate, s: Slot)
    requires Answer(w, UpdateExpedition(id, d)) == Done
    ensures id in w.expeditions
    ensures Have(After(w, UpdateExpedition(id, d)).books.stock, s) == Have(w.books.stock, s)
            + (if d.status == RETURNED && s.camp == w.expeditions[id].camp
               then SumFor(d.returned, s.resource) + SumFor(d.found, s.resource) else 0)
  {
    hide Step, ReturnFlow, Net, SumFor;
    UpdateAnswers(w, UpdateExpedition(id, d));
    SlotAfter(w, UpdateExpedition(id, d), s);
    ReturnFlowAmount(w.expeditions[id].camp, id, d, s);
  }

  /** What an update leaves of the row, and the tables it never touches. */
  lemma UpdatedRowStays(w: World, id: int, d: StatusUpdate)
    requires Answer(w, UpdateExpedition(id, d)) == Done
    ensures var v := After(w, UpdateExpedition(id, d));
            && v.users == w.users && v.catalog == w.catalog && id in v.expeditions
            && v.expeditions[id] == w.expeditions[id].(
                 status := d.status, returned := v.expeditions[id].returned, found := v.expeditions[id].found)
  {
    hide Post, SetHealth, TargetsOf, ReturnFlow, WithinAllotment, OnlyMembers;
  }

  function Departing(user: int): StatusUpdate {
    StatusUpdate(ONGOING, user, false, [], [], None, [])
  }

  function Returning(user: int, back: seq<Line>, found: seq<Line>): StatusUpdate {
    StatusUpdate(RETURNED, user, true, back, found, None, [])
  }

  /** Only what was taken comes back, and no more of it. */
  ghost predicate WithinTaken(allotted: seq<Line>, back: seq<Line>) {
    forall l | l in back ::
      (exists k :: k in allotted && k.resource == l.resource) && SumFor(back, l.resource) <= SumFor(allotted, l.resource)
  }

  lemma PlannedRow(w: World, d: Outing)
    requires Answer(w, LaunchExpedition(d)) == Done
    ensures After(w, LaunchExpedition(d)).users == w.users
  {
    hide Post, SetHealth, Outflow, Totals, Uniform, Covers;
  }

  lemma TakenComesBack(x: Expedition, d: Outing, back: seq<Line>)
    requires WithinTaken(d.allotted, back)
    requires forall l | l in d.allotted :: l.resource in x.allotted
    requires forall r | r in x.allotted :: x.allotted[r] == SumFor(d.allotted, r)
    ensures ComesBack(x, back)
  {}

  /**
    An accepted plan can set out and come home: its row ends RETURNED, its camp's stock is what was taken less
    plus what came back and what was found, and its members are HEALTHY where they were.
  */
  lemma ExpeditionCanReturn(w: World, d: Outing, user: int, back: seq<Line>, found: seq<Line>, s: Slot, p: int)
    requires Answer(w, LaunchExpedition(d)) == Done && (d.status.Some? ==> d.status.value == PLANNED)
    requires user in w.users && AllPositive(back) && AllPositive(found) && WithinTaken(d.allotted, back) && p in w.roster.people
    ensures var id := w.nextId;
            var v := Trace(w, [LaunchExpedition(d), UpdateExpedition(id, Departing(user)),
                               UpdateExpedition(id, Returning(user, back, found))]);
            && id in v.expeditions && v.expeditions[id].status == RETURNED
            && Have(v.books.stock, s) == Have(w.books.stock, s)
                 + (if s.camp == d.camp then SumFor(back, s.resource) + SumFor(found, s.resource) - SumFor(d.allotted, s.resource) else 0)
            && p in v.roster.people && v.roster.people[p].camp == w.roster.people[p].camp
            && v.roster.people[p].health == if p in d.members then HEALTHY else w.roster.people[p].health
  {
    hide Step, SumFor, WithinTaken, ComesBack, AllPositive;
    var id, e1 := w.nextId, LaunchExpedition(d);
    var e2, e3 := UpdateExpedition(id, Departing(user)), UpdateExpedition(id, Returning(user, back, found));
    var w1 := After(w, e1);
    LaunchedRow(w, e1);
    PlannedRow(w, d);
    Accepted(w1, id, user);
    var w2 := After(w1, e2);
    UpdatedRowStays(w1, id, Departing(user));
    TakenComesBack(w2.expeditions[id], d, back);
    UpdateAnswers(w2, e3);
    UpdatedRowStays(w2, id, Returning(user, back, found));
    LaunchTakes(w, d, s);
    UpdateGives(w1, id, Departing(user), s);
    UpdateGives(w2, id, Returning(user, back, found), s);
    PeopleAlong(w, d, user, back, found, p);
    TraceOfThree(w, e1, e2, e3);
  }

  lemma Accepted(w: World, id: int, user: int)
    requires id in w.expeditions && w.expeditions[id].status == PLANNED && user in w.users
    ensures Answer(w, UpdateExpedition(id, Departing(user))) == Done
  {
    UpdateAnswers(w, UpdateExpedition(id, Departing(user)));
  }

  lemma PeopleAlong(w: World, d: Outing, user: int, back: seq<Line>, found: seq<Line>, p: int)
    requires Answer(w, LaunchExpedition(d)) == Done && (d.status.Some? ==> d.status.value == PLANNED) && p in w.roster.people
    requires var w1 := After(w, LaunchExpedition(d));
             && Answer(w1, UpdateExpedition(w.nextId, Departing(user))) == Done
             && var w2 := After(w1, UpdateExpedition(w.nextId, Departing(user)));
             Answer(w2, UpdateExpedition(w.nextId, Returning(user, back, found))) == Done
    ensures var w1 := After(w, LaunchExpedition(d));
            var w2 := After(w1, UpdateExpedition(w.nextId, Departing(user)));
            var v := After(w2, UpdateExpedition(w.nextId, Returning(user, back, found)));
            && p in v.roster.people && v.roster.people[p].camp == w.roster.people[p].camp
            && v.roster.people[p].health == if p in d.members then HEALTHY else w.roster.people[p].health
  {
    hide Step, SumFor;
    var e1 := LaunchExpedition(d);
    var e2, e3 := UpdateExpedition(w.nextId, Departing(user)), UpdateExpedition(w.nextId, Returning(user, back, found));
    var w1 := After(w, e1);
    var w2 := After(w1, e2);
    LaunchedRow(w, e1);
    LaunchedMembers(w, e1, p);
    MemberStatuses(w1, e2, p);
    UpdatedRowStays(w1, w.nextId, Departing(user));
    MemberStatuses(w2, e3, p);
    assert !Mentions([], p);
  }

  // ---------------------------------------------------------------------------------------------
  // Requests
  // ---------------------------------------------------------------------------------------------

  /** A filed request can be approved by a user of its camp, and then its quantity has moved; outwards only if it is there. */
  lemma RequestCanBeApproved(w: World, camp: int, resource: int, isIn: bool, quantity: int, filer: int, reviewer: int, s: Slot)
    requires Answer(w, FileRequest(camp, resource, isIn, quantity, filer)) == Done
    requires reviewer in w.users && w.users[reviewer] == camp
    requires isIn || quantity <= Have(w.books.stock, Slot(camp, resource))
    ensures var id := w.nextId;
            var v := Trace(w, [FileRequest(camp, resource, isIn, quantity, filer), ApproveRequest(id, reviewer)]);
            && id in v.requests && v.requests[id].status == APPROVED
            && Have(v.books.stock, s) == Have(w.books.stock, s)
                 + (if s == Slot(camp, resource) then (if isIn then quantity else -quantity) else 0)
  {
    hide Step;
    var e1, e2 := FileRequest(camp, resource, isIn, quantity, filer), ApproveRequest(w.nextId, reviewer);
    RequestFiled(w, e1);
    var w1 := After(w, e1);
    ReviewAnswers(w1, e2);
    SlotAfter(w1, e2, s);
    RowsOfOne(w1.requests[w.nextId], w.nextId, s);
    ApprovedRow(w1, w.nextId, reviewer);
    TraceOfTwo(w, e1, e2);
  }

  lemma RowsOfOne(r: Request, id: int, s: Slot)
    ensures Net(RequestRows(id, r), s) == if s == Slot(r.camp, r.resource) then SignedQuantity(r) else 0
  {
    assert RequestRows(id, r)[..0] == [];
  }

  lemma ApprovedRow(w: World, id: int, reviewer: int)
    requires Answer(w, ApproveRequest(id, reviewer)) == Done
    ensures id in After(w, ApproveRequest(id, reviewer)).requests
    ensures After(w, ApproveRequest(id, reviewer)).requests[id].status == APPROVED
  {}

  // ---------------------------------------------------------------------------------------------
  // Rations and production
  // ---------------------------------------------------------------------------------------------

  /** Full portions among so many heads, from so much stock. */
  function Served(stock: int, need: int, heads: nat): nat {
    if stock <= 0 || need <= 0 then 0 else if stock / need < heads then stock / need else heads
  }

  /** A ration job that nobody comes between: as many portions as there are heads and stock leave the slot, and nothing else moves. */
  lemma RationIsServed(w: World, job: int, camp: int, resource: int, need: int, heads: nat, s: Slot)
    ensures var v := Trace(w, [ReadRationStock(job, camp, resource, need, heads), ConsumeRation(job)]);
            && v == w.(books := v.books, plans := v.plans)
            && Have(v.books.stock, s) == Have(w.books.stock, s)
                 - (if s == Slot(camp, resource) then need * Served(Have(w.books.stock, s), need, heads) else 0)
  {
    hide Step;
    var e1, e2 := ReadRationStock(job, camp, resource, need, heads), ConsumeRation(job);
    StockIsRead(w, e1);
    PlanIsConsumed(After(w, e1), job, s);
    TraceOfTwo(w, e1, e2);
    var have := Have(w.books.stock, Slot(camp, resource));
    assert Rations.Min(Rations.Portions(if Slot(camp, resource) in w.books.stock then Some(have) else None, need), heads)
        == Served(have, need, heads);
  }

  lemma StockIsRead(w: World, e: Event)
    requires e.ReadRationStock?
    ensures var slot := Slot(e.camp, e.resource);
            var seen := if slot in w.books.stock then Some(w.books.stock[slot]) else None;
            After(w, e) == w.(plans := w.plans[e.job := Plan(e.camp, e.resource, e.need, e.heads, seen)])
  {}

  /** Consuming a plan whose reading still holds. */
  lemma PlanIsConsumed(w: World, job: int, s: Slot)
    requires job in w.plans
    requires var p := w.plans[job];
             p.seen == if Slot(p.camp, p.resource) in w.books.stock then Some(w.books.stock[Slot(p.camp, p.resource)]) else None
    ensures var p, v := w.plans[job], After(w, ConsumeRation(job));
            && v == w.(books := v.books)
            && Have(v.books.stock, s) == Have(w.books.stock, s)
                 - (if s == Slot(p.camp, p.resource) then p.need * Rations.Min(Rations.Portions(p.seen, p.need), p.headCount) else 0)
  {
    var p := w.plans[job];
    var k := Rations.Min(Rations.Portions(p.seen, p.need), p.headCount);
    Rations.NeverOverdraws(p.seen, p.need, p.headCount);
    if k == 0 {
      assert p.need * k == 0;
    } else {
      PostOne(w.books, Movement(Slot(p.camp, p.resource), DailyRation, -(p.need * k)));
    }
  }

  /** A production movement adds its quantity to its slot. */
  lemma Produced(w: World, e: Event, s: Slot)
    requires e.Produce?
    ensures var v := After(w, e);
            && v == w.(books := v.books) && (Answer(w, e) == Done <==> e.quantity > 0)
            && Have(v.books.stock, s) == Have(w.books.stock, s)
                 + (if s == Slot(e.camp, e.resource) && e.quantity > 0 then e.quantity else 0)
  {
    PostOne(w.books, Movement(Slot(e.camp, e.resource), DailyGain, e.quantity));
  }
}
