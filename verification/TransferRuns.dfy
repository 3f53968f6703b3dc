/** What the transfer protocol guarantees over whole runs. */
module TransferRuns {
  import opened Core
  import opened Ledger
  import opened Census
  import opened Tables
  import opened Transfers
  import opened LateWrites
  import opened Runs

  // ---------------------------------------------------------------------------------------------
  // One completion
  // ---------------------------------------------------------------------------------------------

  /** With positive amounts, the guarded loop asks exactly this: no total exceeds the source camp's stock. */
  lemma CoversMeansEnough(stock: map<Slot, int>, source: int, lines: seq<Line>)
    requires Positive(lines) && forall s: Slot :: Have(stock, s) >= 0
    ensures Covers(stock, source, Firsts(lines), lines) <==>
            forall r: int :: SumFor(lines, r) <= Have(stock, Slot(source, r))
  {
    FirstsAreTheResources(lines);
    forall r: int ensures r in Firsts(lines) ==> SumFor(lines, r) > 0 { PositiveSums(lines, r); }
    if Covers(stock, source, Firsts(lines), lines) {
      forall r: int ensures SumFor(lines, r) <= Have(stock, Slot(source, r)) {
        if r !in Firsts(lines) { assert Have(stock, Slot(source, r)) >= 0; }
      }
    }
    if forall r: int :: SumFor(lines, r) <= Have(stock, Slot(source, r)) {
      forall r | r in Firsts(lines) ensures Slot(source, r) in stock && SumFor(lines, r) <= stock[Slot(source, r)] {
        assert SumFor(lines, r) <= Have(stock, Slot(source, r));
      }
    }
  }

  function StockOver(camps: seq<int>, stock: map<Slot, int>, resource: int): int {
    if camps == [] then 0
    else StockOver(camps[..|camps| - 1], stock, resource) + Have(stock, Slot(camps[|camps| - 1], resource))
  }

  lemma {:induction false} ShipmentOver(camps: seq<int>, books: Books, lines: seq<Line>, id: int, source: int, target: int, resource: int)
    requires Distinct(camps)
    ensures StockOver(camps, Post(books, Shipment(lines, id, source, target)).stock, resource) ==
            StockOver(camps, books.stock, resource)
            + (if target in camps then SumFor(lines, resource) else 0) - (if source in camps then SumFor(lines, resource) else 0)
  {
    if camps != [] {
      var front, c := camps[..|camps| - 1], camps[|camps| - 1];
      assert camps == front + [c];
      ShipmentOver(front, books, lines, id, source, target, resource);
      PostEffect(books, Shipment(lines, id, source, target), Slot(c, resource));
      ShipmentNet(lines, id, source, target, Slot(c, resource), DailyGain);
    }
  }

  /**
    Completing a transfer: refused with nothing moved, or the total of every resource over all camps
    is unchanged while each slot moves by the requested totals.
  */
  lemma CompletionConserves(w: World, id: int, actor: int, arrival: Option<Health>, camps: seq<int>, resource: int)
    requires id in w.transfers && Distinct(camps)
    requires w.transfers[id].requesting in camps && w.transfers[id].target in camps
    ensures var r := Complete(w, id, actor, arrival);
            && (r.outcome.Refused? ==> r.world == w)
            && StockOver(camps, r.world.books.stock, resource) == StockOver(camps, w.books.stock, resource)
            && (r.outcome.Done? ==> forall s: Slot ::
                  Have(r.world.books.stock, s) == Have(w.books.stock, s)
                    + (if s.camp == w.transfers[id].target then SumFor(ResourceLines(w.transfers[id].items), s.resource) else 0)
                    - (if s.camp == w.transfers[id].requesting then SumFor(ResourceLines(w.transfers[id].items), s.resource) else 0))
  {
    var t := w.transfers[id];
    var lines := ResourceLines(t.items);
    if Complete(w, id, actor, arrival).outcome.Done? {
      ShipmentOver(camps, w.books, lines, id, t.requesting, t.target, resource);
      forall s: Slot ensures Have(Post(w.books, Shipment(lines, id, t.requesting, t.target)).stock, s) ==
        Have(w.books.stock, s) + (if s.camp == t.target then SumFor(lines, s.resource) else 0)
          - (if s.camp == t.requesting then SumFor(lines, s.resource) else 0)
      {
        PostEffect(w.books, Shipment(lines, id, t.requesting, t.target), s);
        ShipmentNet(lines, id, t.requesting, t.target, s, DailyGain);
      }
    }
  }

  // ---------------------------------------------------------------------------------------------
  // One step of the protocol
  // ---------------------------------------------------------------------------------------------

  /** The only ways a transfer row may change: who acted, from which camp, and what the row became. */
  ghost predicate Edge(w: World, e: Event, id: int, t: Transfer, after: Transfer) {
    || after == t
    || (e.ScheduleTransfer? && e.transfer == id && t.status !in {COMPLETED, REJECTED}
        && e.user in w.users && w.users[e.user] == t.requesting && e.date >= e.now && after == t.(delivery := Some(e.date)))
    || (e.ApproveAtSource? && e.transfer == id && t.status == PENDING
        && e.user in w.users && w.users[e.user] == t.requesting
        && after.delivery.Some? && after.delivery.value >= e.now && (e.dateGiven.Some? ==> after.delivery == e.dateGiven)
        && after == t.(status := APPROVED_SOURCE, approvedBySource := Some(e.user), delivery := after.delivery))
    || (e.ApproveAtTarget? && e.transfer == id && t.status == APPROVED_SOURCE
        && e.user in w.users && w.users[e.user] == t.target && t.delivery.Some? && t.delivery.value >= e.now
        && after == t.(status := APPROVED_TARGET, approvedByTarget := Some(e.user)))
    || (e.CompleteTransfer? && e.transfer == id && t.status == APPROVED_TARGET
        && CompletionOutcome(w, id, e.user).Done? && Step(w, e).outcome.Done? && w.users[e.user] in {t.requesting, t.target}
        && after == t.(status := COMPLETED))
    || (e.RejectTransfer? && e.transfer == id && t.status !in {COMPLETED, REJECTED}
        && e.user in w.users && w.users[e.user] in {t.requesting, t.target} && after == t.(status := REJECTED))
  }

  /** How a transfer comes into being: between two known camps, by a user of the requesting one, for healthy people there. */
  predicate ProposedBy(w: World, e: Event, t: Transfer) {
    && e.ProposeTransfer?
    && t == Transfer(e.proposal.requesting, e.proposal.target, PENDING, e.proposal.items, e.proposal.delivery, None, None)
    && t.requesting != t.target && {t.requesting, t.target} <= w.catalog.camps
    && e.proposal.requestedBy in w.users && w.users[e.proposal.requestedBy] == t.requesting
    && (forall p | p in PersonIds(t.items) ::
          p in w.roster.people && w.roster.people[p].camp == t.requesting && w.roster.people[p].health == HEALTHY)
    && (forall l | l in ResourceLines(t.items) :: l.resource in w.catalog.resources)
  }

  lemma ProposalIsChecked(w: World, d: Proposal)
    requires ProposalOutcome(w, d).Done?
    ensures forall p | p in PersonIds(d.items) ::
              p in w.roster.people && w.roster.people[p].camp == d.requesting && w.roster.people[p].health == HEALTHY
  {
    forall p | p in PersonIds(d.items) ensures p in w.roster.people { assert p in Elements(PersonIds(d.items)); }
  }

  ghost predicate StepsAlongEdge(w: World, e: Event, id: int, r: Response) {
    var v := r.world.transfers;
    && (id in w.transfers ==> id in v && Edge(w, e, id, w.transfers[id], v[id]))
    && (id !in w.transfers && id in v ==> ProposedBy(w, e, v[id]) && r.world.books == w.books)
    && (e.CompleteTransfer? && e.transfer == id && r.outcome.Done? ==>
          id in w.transfers && w.transfers[id].status == APPROVED_TARGET && v[id].status == COMPLETED)
  }

  lemma ProposalEdge(w: World, e: Event, id: int)
    requires IdsBelow(w) && e.ProposeTransfer?
    ensures StepsAlongEdge(w, e, id, TransferEffect(w, e))
  {
    if TransferEffect(w, e).outcome.Done? { ProposalIsChecked(w, e.proposal); }
  }

  lemma TransferEdge(w: World, e: Event, id: int)
    requires IdsBelow(w) && IsTransferEvent(e)
    ensures StepsAlongEdge(w, e, id, TransferEffect(w, e))
  {
    hide PersonIds, ResourceLines, Shipment, Moved, Covers, Post, IdsBelow, ProposalOutcome, ProposedBy;
    if e.ProposeTransfer? { ProposalEdge(w, e, id); }
  }

  lemma TransferStep(w: World, e: Event, id: int)
    requires IdsBelow(w) && SerialEvent(e)
    ensures var v := Step(w, e).world.transfers;
            && (id in w.transfers ==> id in v && Edge(w, e, id, w.transfers[id], v[id]))
            && (id !in w.transfers && id in v ==> ProposedBy(w, e, v[id]) && Step(w, e).world.books == w.books)
            && (e.CompleteTransfer? && e.transfer == id && Step(w, e).outcome.Done? ==>
                  id in w.transfers && w.transfers[id].status == APPROVED_TARGET && v[id].status == COMPLETED)
  {
    hide LateEffect, TransferEffect, ExpeditionEffect, RequestEffect, AdmissionEffect, PeopleEffect, StockEffect;
    if IsTransferEvent(e) { TransferEdge(w, e, id); } else { OthersKeepTransfers(w, e); }
  }

  /** Completed and rejected transfers never change again while requests are served one at a time. */
  lemma {:induction false} ClosedTransfersStayClosed(w: World, run: seq<Event>, id: int)
    requires IdsBelow(w) && Serial(run)
    requires id in w.transfers && w.transfers[id].status in {COMPLETED, REJECTED}
    ensures IdsBelow(Trace(w, run))
    ensures id in Trace(w, run).transfers && Trace(w, run).transfers[id] == w.transfers[id]
  {
    if run != [] {
      SerialFront(run);
      ClosedTransfersStayClosed(w, run[..|run| - 1], id);
      StepKeepsIdsBelow(Trace(w, run[..|run| - 1]), run[|run| - 1]);
      TransferStep(Trace(w, run[..|run| - 1]), run[|run| - 1], id);
    }
  }

  // ---------------------------------------------------------------------------------------------
  // Invariants
  // ---------------------------------------------------------------------------------------------

  predicate Rationed(policy: RationPolicy, items: seq<Item>) {
    PersonIds(items) != [] ==>
      policy.rationType.Some? && SumFor(ResourceLines(items), policy.rationType.value) >= |PersonIds(items)| * policy.perDay * policy.days
  }

  ghost predicate Sound(w: World) {
    forall id | id in w.transfers ::
      && w.transfers[id].requesting != w.transfers[id].target
      && (w.transfers[id].status in {APPROVED_SOURCE, APPROVED_TARGET, COMPLETED} ==> w.transfers[id].delivery.Some?)
      && (w.transfers[id].status == COMPLETED ==> Rationed(w.catalog.policy, w.transfers[id].items))
  }

  function Shipped(transfers: map<int, Transfer>, id: int, resource: int): int {
    if id in transfers && transfers[id].status == COMPLETED then SumFor(ResourceLines(transfers[id].items), resource) else 0
  }

  ghost predicate BookedFor(log: seq<Movement>, transfers: map<int, Transfer>, id: int, s: Slot) {
    && NetOf(log, s, TransferOut(id)) ==
       (if id in transfers && transfers[id].requesting == s.camp then -Shipped(transfers, id, s.resource) else 0)
    && NetOf(log, s, TransferIn(id)) ==
       (if id in transfers && transfers[id].target == s.camp then Shipped(transfers, id, s.resource) else 0)
  }

  /** The log holds, for each transfer, exactly the outflow and inflow of its items if it completed, and nothing otherwise. */
  ghost predicate Booked(log: seq<Movement>, transfers: map<int, Transfer>) {
    forall id: int, s: Slot :: BookedFor(log, transfers, id, s)
  }

  lemma {:induction false} FirstLineCounts(lines: seq<Line>, resource: int)
    ensures FindLine(lines, resource).Some? ==>
              exists i :: 0 <= i < |lines| && lines[i] == FindLine(lines, resource).value && lines[i].resource == resource
  {
    if lines != [] && lines[0].resource != resource {
      FirstLineCounts(lines[1..], resource);
      if FindLine(lines, resource).Some? {
        var i :| 0 <= i < |lines[1..]| && lines[1..][i] == FindLine(lines, resource).value && lines[1..][i].resource == resource;
        assert lines[i + 1] == FindLine(lines, resource).value;
      }
    } else if lines != [] {
      assert lines[0] == FindLine(lines, resource).value;
    }
  }

  lemma CompletionIsRationed(w: World, id: int, user: int)
    requires CompletionOutcome(w, id, user).Done?
    ensures Rationed(w.catalog.policy, w.transfers[id].items)
  {
    var lines, ids, policy := ResourceLines(w.transfers[id].items), PersonIds(w.transfers[id].items), w.catalog.policy;
    assert RationOutcome(policy, lines, |ids|).Done?;
    if |ids| > 0 {
      FirstLineCounts(lines, policy.rationType.value);
      PositiveSums(lines, policy.rationType.value);
    }
  }

  lemma CatalogIsFixed(w: World, e: Event)
    requires IdsBelow(w)
    ensures Step(w, e).world.catalog == w.catalog
  {
    StepGrows(w, e);
  }

  lemma StepKeepsSound(w: World, e: Event)
    requires IdsBelow(w) && Sound(w) && SerialEvent(e)
    ensures Sound(Step(w, e).world)
  {
    CatalogIsFixed(w, e);
    var v := Step(w, e).world.transfers;
    forall id | id in v
      ensures v[id].requesting != v[id].target
      ensures v[id].status in {APPROVED_SOURCE, APPROVED_TARGET, COMPLETED} ==> v[id].delivery.Some?
      ensures v[id].status == COMPLETED ==> Rationed(w.catalog.policy, v[id].items)
    {
      TransferStep(w, e, id);
      if id in w.transfers && v[id].status == COMPLETED && w.transfers[id].status != COMPLETED {
        CompletionIsRationed(w, id, e.user);
      }
    }
  }

  lemma CompletedRow(w: World, e: Event)
    requires e.CompleteTransfer? && Step(w, e).outcome.Done?
    ensures e.transfer in w.transfers
  {}

  lemma PostedForTransfer(w: World, e: Event, id: int, s: Slot)
    requires SerialEvent(e)
    ensures var moved := e.CompleteTransfer? && e.transfer == id && Step(w, e).outcome.Done?;
            && NetOf(Posted(w, e), s, TransferOut(id)) ==
               (if moved && w.transfers[id].requesting == s.camp then -SumFor(ResourceLines(w.transfers[id].items), s.resource) else 0)
            && NetOf(Posted(w, e), s, TransferIn(id)) ==
               (if moved && w.transfers[id].target == s.camp then SumFor(ResourceLines(w.transfers[id].items), s.resource) else 0)
  {
    hide Step, Posted, NetOf, SumFor, ResourceLines;
    if e.CompleteTransfer? && Step(w, e).outcome.Done? { CompletedRow(w, e); }
    PostedAmount(w, e, s, TransferOut(id));
    PostedAmount(w, e, s, TransferIn(id));
  }

  /** What a step ships for a transfer is what its row comes to owe by that step. */
  lemma ShippedGrows(w: World, e: Event, id: int, s: Slot)
    requires IdsBelow(w) && SerialEvent(e)
    ensures var v := Step(w, e).world.transfers;
            && (id in w.transfers ==> id in v && v[id].requesting == w.transfers[id].requesting && v[id].target == w.transfers[id].target)
            && Shipped(v, id, s.resource) == Shipped(w.transfers, id, s.resource) +
                 (if e.CompleteTransfer? && e.transfer == id && Step(w, e).outcome.Done?
                  then SumFor(ResourceLines(w.transfers[id].items), s.resource) else 0)
  {
    hide Step, IdsBelow, SumFor, ResourceLines;
    TransferStep(w, e, id);
  }

  lemma StepKeepsBookedFor(w: World, e: Event, id: int, s: Slot)
    requires IdsBelow(w) && SerialEvent(e) && BookedFor(w.books.log, w.transfers, id, s)
    ensures BookedFor(w.books.log + Posted(w, e), Step(w, e).world.transfers, id, s)
  {
    NetOfConcat(w.books.log, Posted(w, e), s, TransferOut(id));
    NetOfConcat(w.books.log, Posted(w, e), s, TransferIn(id));
    PostedForTransfer(w, e, id, s);
    ShippedGrows(w, e, id, s);
  }

  lemma StepKeepsBooked(w: World, e: Event)
    requires IdsBelow(w) && SerialEvent(e) && Booked(w.books.log, w.transfers)
    ensures Booked(Step(w, e).world.books.log, Step(w, e).world.transfers)
  {
    LogGrows(w, e);
    forall id: int, s: Slot ensures BookedFor(w.books.log + Posted(w, e), Step(w, e).world.transfers, id, s) {
      assert BookedFor(w.books.log, w.transfers, id, s);
      StepKeepsBookedFor(w, e, id, s);
    }
  }

  /**
    Over any serial run: every transfer's goods are in the log exactly once if it completed and not at all
    otherwise; approved and completed ones have a delivery date; completed ones with people moved at least
    the travel rations.
  */
  lemma {:induction false} TransfersMoveOnce(w: World, run: seq<Event>)
    requires IdsBelow(w) && Sound(w) && Booked(w.books.log, w.transfers) && Serial(run)
    ensures IdsBelow(Trace(w, run)) && Sound(Trace(w, run)) && Booked(Trace(w, run).books.log, Trace(w, run).transfers)
  {
    if run != [] {
      var front, e := run[..|run| - 1], run[|run| - 1];
      SerialFront(run);
      TransfersMoveOnce(w, front);
      StepKeepsIdsBelow(Trace(w, front), e);
      StepKeepsSound(Trace(w, front), e);
      StepKeepsBooked(Trace(w, front), e);
    }
  }

  // ---------------------------------------------------------------------------------------------
  // Overtaken checks
  // ---------------------------------------------------------------------------------------------

  lemma NothingToShip(items: seq<Item>)
    requires Positive(ResourceLines(items))
    ensures ResourceLines(items) == [] <==> forall r: int :: SumFor(ResourceLines(items), r) == 0
  {
    var lines := ResourceLines(items);
    if lines != [] {
      PositiveSums(lines, lines[0].resource);
      FirstsAreTheResources(lines);
    }
  }

  lemma LateCompletionBooks(w: World, id: int, arrival: Option<Health>)
    requires CommitCompletion(w, id, arrival).outcome.Done?
    ensures var v := CommitCompletion(w, id, arrival).world;
            && id in w.transfers && v.transfers == w.transfers[id := w.transfers[id].(status := COMPLETED)]
            && v.books == Post(w.books, LateRows(w, LateCompletion(id, arrival)))
  {}

  lemma LateCompletionShips(w: World, id: int, arrival: Option<Health>, other: int, s: Slot)
    requires CommitCompletion(w, id, arrival).outcome.Done?
    ensures var v, t := CommitCompletion(w, id, arrival).world, w.transfers[id];
            && v.transfers == w.transfers[id := t.(status := COMPLETED)]
            && NetOf(v.books.log, s, TransferOut(other)) == NetOf(w.books.log, s, TransferOut(other)) -
                 (if other == id && s.camp == t.requesting then SumFor(ResourceLines(t.items), s.resource) else 0)
            && NetOf(v.books.log, s, TransferIn(other)) == NetOf(w.books.log, s, TransferIn(other)) +
                 (if other == id && s.camp == t.target then SumFor(ResourceLines(t.items), s.resource) else 0)
  {
    hide LateRows, SumFor, ResourceLines, CommitCompletion;
    var c := LateCompletion(id, arrival);
    LateCompletionBooks(w, id, arrival);
    PostEffect(w.books, LateRows(w, c), s);
    LateRowsAmount(w, c, s, TransferOut(other));
    LateRowsAmount(w, c, s, TransferIn(other));
    NetOfConcat(w.books.log, LateRows(w, c), s, TransferOut(other));
    NetOfConcat(w.books.log, LateRows(w, c), s, TransferIn(other));
  }

  /**
    A completion on a status read earlier keeps every transfer's goods booked once exactly when the transfer
    is not completed yet, or has no goods.
  */
  lemma LateCompletionShipsOnceIff(w: World, id: int, arrival: Option<Health>)
    requires Booked(w.books.log, w.transfers) && CommitCompletion(w, id, arrival).outcome.Done?
    ensures var v := CommitCompletion(w, id, arrival).world;
            Booked(v.books.log, v.transfers) <==> w.transfers[id].status != COMPLETED || ResourceLines(w.transfers[id].items) == []
  {
    var v, t := CommitCompletion(w, id, arrival).world, w.transfers[id];
    NothingToShip(t.items);
    if t.status != COMPLETED || ResourceLines(t.items) == [] {
      forall other: int, s: Slot ensures BookedFor(v.books.log, v.transfers, other, s) {
        assert BookedFor(w.books.log, w.transfers, other, s);
        LateCompletionShips(w, id, arrival, other, s);
      }
    } else {
      var r :| SumFor(ResourceLines(t.items), r) != 0;
      var s := Slot(t.requesting, r);
      assert BookedFor(w.books.log, w.transfers, id, s);
      LateCompletionShips(w, id, arrival, id, s);
      assert !BookedFor(v.books.log, v.transfers, id, s);
    }
  }

  /**
    Overwriting a row's status on a check made earlier, as late approvals and rejections do, keeps the log in
    agreement exactly when the row was not completed in between, or the transfer has no goods.
  */
  lemma LateStatusKeepsBookedIff(w: World, id: int, after: Transfer)
    requires Booked(w.books.log, w.transfers) && id in w.transfers && Positive(ResourceLines(w.transfers[id].items))
    requires after.status != COMPLETED && after.items == w.transfers[id].items
    requires after.requesting == w.transfers[id].requesting && after.target == w.transfers[id].target
    ensures Booked(w.books.log, w.transfers[id := after]) <==>
            w.transfers[id].status != COMPLETED || ResourceLines(w.transfers[id].items) == []
  {
    var t, v := w.transfers[id], w.transfers[id := after];
    NothingToShip(t.items);
    if t.status != COMPLETED || ResourceLines(t.items) == [] {
      forall other: int, s: Slot ensures BookedFor(w.books.log, v, other, s) {
        assert BookedFor(w.books.log, w.transfers, other, s);
      }
    } else {
      var r :| SumFor(ResourceLines(t.items), r) != 0;
      assert BookedFor(w.books.log, w.transfers, id, Slot(t.requesting, r));
      assert !BookedFor(w.books.log, v, id, Slot(t.requesting, r));
    }
  }

  /** The three late writes that do so. */
  lemma LateApprovalsAndRejections(w: World, c: LateWrite)
    requires c.LateSourceApproval? || c.LateTargetApproval? || c.LateRejection?
    requires Booked(w.books.log, w.transfers) && LateEffect(w, c).outcome.Done?
    requires Positive(ResourceLines(w.transfers[c.transfer].items))
    ensures var v := LateEffect(w, c).world;
            Booked(v.books.log, v.transfers) <==>
            w.transfers[c.transfer].status != COMPLETED || ResourceLines(w.transfers[c.transfer].items) == []
  {
    LateStatusKeepsBookedIff(w, c.transfer, LateEffect(w, c).world.transfers[c.transfer]);
  }

  /** What a late write must bring, or find on the row, for transfers to stay sound. */
  predicate Completes(w: World, c: LateWrite) {
    match c
    case LateSourceApproval(_, _, delivery) => delivery.Some?
    case LateTargetApproval(id, _) => id in w.transfers ==> w.transfers[id].delivery.Some?
    case LateCompletion(id, _) =>
      id in w.transfers ==> w.transfers[id].delivery.Some? && Rationed(w.catalog.policy, w.transfers[id].items)
    case _ => true
  }

  /** A late write on transfers keeps dates and travel rations in order exactly when it finds or brings them. */
  lemma LateKeepsSoundIff(w: World, c: LateWrite)
    requires Sound(w) && OnTransfers(c) && LateEffect(w, c).outcome.Done?
    ensures Sound(LateEffect(w, c).world) <==> Completes(w, c)
  {
    hide Rationed, Shipment, Moved, ResourceLines, PersonIds;
    var v := LateEffect(w, c).world;
    if c.LateProposal? {
      forall id | id in v.transfers && id != w.nextId ensures id in w.transfers && v.transfers[id] == w.transfers[id] {}
    } else {
      var id := c.transfer;
      forall other | other in v.transfers && other != id ensures other in w.transfers && v.transfers[other] == w.transfers[other] {}
      assert id in v.transfers && id in w.transfers;
    }
  }

  // ---------------------------------------------------------------------------------------------
  // Provenance: who approved a completed transfer, and when
  // ---------------------------------------------------------------------------------------------

  /** The state just before event i of the run. */
  ghost function Before(w: World, run: seq<Event>, i: nat): World
    requires i <= |run|
  {
    Trace(w, run[..i])
  }

  ghost predicate ApprovedAtSourceAt(w: World, run: seq<Event>, i: nat, id: int) {
    && i < |run| && run[i].ApproveAtSource? && run[i].transfer == id
    && var b := Before(w, run, i);
    && id in b.transfers && b.transfers[id].status == PENDING
    && run[i].user in b.users && b.users[run[i].user] == b.transfers[id].requesting
    && Step(b, run[i]).outcome.Done?
  }

  ghost predicate ApprovedAtTargetAt(w: World, run: seq<Event>, i: nat, id: int) {
    && i < |run| && run[i].ApproveAtTarget? && run[i].transfer == id
    && var b := Before(w, run, i);
    && id in b.transfers && b.transfers[id].status == APPROVED_SOURCE
    && run[i].user in b.users && b.users[run[i].user] == b.transfers[id].target
    && Step(b, run[i]).outcome.Done?
  }

  ghost predicate CompletedAt(w: World, run: seq<Event>, i: nat, id: int) {
    && i < |run| && run[i].CompleteTransfer? && run[i].transfer == id
    && Step(Before(w, run, i), run[i]).outcome.Done?
  }

  ghost predicate StatusIn(w: World, id: int, statuses: set<TransferStatus>) {
    id in w.transfers && w.transfers[id].status in statuses
  }

  lemma PrefixBefore(w: World, run: seq<Event>, n: nat, i: nat)
    requires i <= n <= |run|
    ensures Before(w, run[..n], i) == Before(w, run, i)
  {
    assert run[..n][..i] == run[..i];
  }

  lemma AtPrefix(w: World, run: seq<Event>, n: nat, i: nat, id: int)
    requires i < n <= |run|
    ensures ApprovedAtSourceAt(w, run[..n], i, id) == ApprovedAtSourceAt(w, run, i, id)
    ensures ApprovedAtTargetAt(w, run[..n], i, id) == ApprovedAtTargetAt(w, run, i, id)
    ensures CompletedAt(w, run[..n], i, id) == CompletedAt(w, run, i, id)
  {
    PrefixBefore(w, run, n, i);
    assert run[..n][i] == run[i];
  }

  lemma {:induction false} SourceApprovalHappened(w: World, run: seq<Event>, id: int) returns (i: nat)
    requires IdsBelow(w) && Serial(run) && id !in w.transfers
    requires StatusIn(Trace(w, run), id, {APPROVED_SOURCE, APPROVED_TARGET, COMPLETED})
    ensures ApprovedAtSourceAt(w, run, i, id)
  {
    var n := |run| - 1;
    var front, e := run[..n], run[n];
    var b := Trace(w, front);
    SerialFront(run);
    RunKeepsIds(w, front);
    TransferStep(b, e, id);
    if StatusIn(b, id, {APPROVED_SOURCE, APPROVED_TARGET, COMPLETED}) {
      i := SourceApprovalHappened(w, front, id);
      AtPrefix(w, run, n, i, id);
    } else {
      i := n;
    }
  }

  lemma {:induction false} TargetApprovalHappened(w: World, run: seq<Event>, id: int) returns (i: nat, j: nat)
    requires IdsBelow(w) && Serial(run) && id !in w.transfers
    requires StatusIn(Trace(w, run), id, {APPROVED_TARGET, COMPLETED})
    ensures i < j && ApprovedAtSourceAt(w, run, i, id) && ApprovedAtTargetAt(w, run, j, id)
  {
    var n := |run| - 1;
    var front, e := run[..n], run[n];
    var b := Trace(w, front);
    SerialFront(run);
    RunKeepsIds(w, front);
    TransferStep(b, e, id);
    if StatusIn(b, id, {APPROVED_TARGET, COMPLETED}) {
      i, j := TargetApprovalHappened(w, front, id);
      AtPrefix(w, run, n, j, id);
    } else {
      i := SourceApprovalHappened(w, front, id);
      j := n;
    }
    AtPrefix(w, run, n, i, id);
  }

  lemma {:induction false} CompletionHappened(w: World, run: seq<Event>, id: int) returns (i: nat, j: nat, k: nat)
    requires IdsBelow(w) && Serial(run) && id !in w.transfers
    requires StatusIn(Trace(w, run), id, {COMPLETED})
    ensures i < j < k && ApprovedAtSourceAt(w, run, i, id) && ApprovedAtTargetAt(w, run, j, id) && CompletedAt(w, run, k, id)
  {
    hide Step, IdsBelow;
    var n := |run| - 1;
    var front, e := run[..n], run[n];
    var b := Trace(w, front);
    SerialFront(run);
    RunKeepsIds(w, front);
    TransferStep(b, e, id);
    if StatusIn(b, id, {COMPLETED}) {
      i, j, k := CompletionHappened(w, front, id);
      AtPrefix(w, run, n, k, id);
    } else {
      i, j := TargetApprovalHappened(w, front, id);
      k := n;
    }
    AtPrefix(w, run, n, i, id);
    AtPrefix(w, run, n, j, id);
  }

  lemma CompletionEdges(w: World, run: seq<Event>, i: nat, id: int)
    requires IdsBelow(w) && Serial(run) && CompletedAt(w, run, i, id)
    ensures StatusIn(Before(w, run, i), id, {APPROVED_TARGET}) && StatusIn(Before(w, run, i + 1), id, {COMPLETED})
  {
    RunKeepsIds(w, run[..i]);
    assert run[i] in run;
    TransferStep(Before(w, run, i), run[i], id);
    assert run[..i + 1][..i] == run[..i];
  }

  lemma StaysCompleted(w: World, run: seq<Event>, id: int, n: nat, k: nat)
    requires IdsBelow(w) && Serial(run) && n <= k <= |run| && StatusIn(Before(w, run, n), id, {COMPLETED})
    ensures StatusIn(Before(w, run, k), id, {COMPLETED})
  {
    var mid, rest := Trace(w, run[..n]), run[n..k];
    assert Serial(rest) by { forall e | e in rest ensures SerialEvent(e) { assert e in run; } }
    RunKeepsIds(w, run[..n]);
    ClosedTransfersStayClosed(mid, rest, id);
    assert Trace(w, run[..k]) == Trace(mid, rest) by {
      TraceConcat(w, run[..n], rest);
      assert run[..n] + rest == run[..k];
    }
  }

  /** No transfer completes twice. */
  lemma CompletedAtMostOnce(w: World, run: seq<Event>, id: int, j: nat, k: nat)
    requires IdsBelow(w) && Serial(run) && CompletedAt(w, run, j, id) && CompletedAt(w, run, k, id)
    ensures j == k
  {
    CompletionEdges(w, run, j, id);
    CompletionEdges(w, run, k, id);
    if j < k {
      StaysCompleted(w, run, id, j + 1, k);
    } else if k < j {
      StaysCompleted(w, run, id, k + 1, j);
    }
  }

  /**
    A transfer that is completed at the end of a serial run, and did not exist at its start, was completed by
    exactly one event, after an approval by a user then in its target camp, itself after an approval by
    a user then in its requesting camp.
  */
  lemma CompletedTransfersWereApproved(w: World, run: seq<Event>, id: int)
    requires IdsBelow(w) && Serial(run) && id !in w.transfers
    requires StatusIn(Trace(w, run), id, {COMPLETED})
    ensures exists i: nat, j: nat, k: nat :: i < j < k
              && ApprovedAtSourceAt(w, run, i, id) && ApprovedAtTargetAt(w, run, j, id) && CompletedAt(w, run, k, id)
              && forall m: nat :: CompletedAt(w, run, m, id) ==> m == k
  {
    var i, j, k := CompletionHappened(w, run, id);
    forall m: nat | CompletedAt(w, run, m, id) ensures m == k {
      CompletedAtMostOnce(w, run, id, m, k);
    }
    assert ApprovedAtSourceAt(w, run, i, id) && ApprovedAtTargetAt(w, run, j, id) && CompletedAt(w, run, k, id);
  }
}
