/**
  Writes that go through on a check another request may have overtaken. Each service below reads a status,
  a membership or a camp first and writes later without locking the row, so its writes alone are a step
  of their own; only the guards inside those writes still hold.
*/
module LateWrites {
  import opened Core
  import opened Ledger
  import opened Census
  import opened Tables
  import opened Inventory
  import opened Transfers
  import opened Expeditions
  import People

  datatype LateWrite =
    | LateApproval(request: int)
    | LateDecline(request: int)
    | LateProposal(proposal: Proposal)
    | LateSchedule(transfer: int, date: int)
    | LateSourceApproval(transfer: int, user: int, delivery: Option<int>)
    | LateTargetApproval(transfer: int, user: int)
    | LateCompletion(transfer: int, arrival: Option<Health>)
    | LateRejection(transfer: int)
    | LateLaunch(outing: Outing)
    | LateUpdate(expedition: int, update: StatusUpdate)
    | LateDeletion(expedition: int, deletion: Deletion)
    | LatePersonUpdate(camp: int, person: int, change: People.PersonUpdate, user: int)

  predicate OnTransfers(c: LateWrite) {
    c.LateProposal? || c.LateSchedule? || c.LateSourceApproval? || c.LateTargetApproval? || c.LateCompletion? || c.LateRejection?
  }

  predicate OnExpeditions(c: LateWrite) {
    c.LateLaunch? || c.LateUpdate? || c.LateDeletion?
  }

  function LateTransferEffect(w: World, c: LateWrite): Response
    requires OnTransfers(c)
  {
    match c
    case LateProposal(d) => if d.requesting == d.target then Refuse(w, 400) else Response(Transfers.Proposed(w, d), Done)
    case LateSchedule(id, date) => CommitSchedule(w, id, date)
    case LateSourceApproval(id, user, delivery) => CommitSourceApproval(w, id, user, delivery)
    case LateTargetApproval(id, user) => CommitTargetApproval(w, id, user)
    case LateCompletion(id, arrival) => CommitCompletion(w, id, arrival)
    case LateRejection(id) => CommitRejection(w, id)
  }

  function LateExpeditionEffect(w: World, c: LateWrite): Response
    requires OnExpeditions(c)
  {
    match c
    case LateLaunch(d) => if Positive(d.allotted) then CommitLaunch(w, d) else Refuse(w, 400)
    case LateUpdate(id, d) => if WellFormed(d) then Expeditions.CommitUpdate(w, id, d) else Refuse(w, 400)
    case LateDeletion(id, d) => CommitDeletion(w, id, d)
  }

  function LateOtherEffect(w: World, c: LateWrite): Response
    requires !OnTransfers(c) && !OnExpeditions(c)
  {
    match c
    case LateApproval(id) => CommitApproval(w, id)
    case LateDecline(id) => CommitDecline(w, id)
    case LatePersonUpdate(camp, id, d, user) => People.CommitUpdate(w, camp, id, d, user)
  }

  function LateEffect(w: World, c: LateWrite): Response {
    if OnTransfers(c) then LateTransferEffect(w, c)
    else if OnExpeditions(c) then LateExpeditionEffect(w, c)
    else LateOtherEffect(w, c)
  }

  function SignedQuantity(r: Request): int {
    if r.isIn then r.quantity else -r.quantity
  }

  /** The log rows of a late write that goes through. */
  function LateRows(w: World, c: LateWrite): seq<Movement> {
    match c
    case LateApproval(id) => if id in w.requests then RequestRows(id, w.requests[id]) else []
    case LateCompletion(id, _) => if id in w.transfers then TransferRows(id, w.transfers[id]) else []
    case LateLaunch(d) => Outflow(d.allotted, d.camp, ExpeditionOut(w.nextId))
    case LateUpdate(id, d) => if id in w.expeditions then ReturnFlow(w.expeditions[id].camp, id, d) else []
    case _ => []
  }

  function RequestRows(id: int, r: Request): seq<Movement> {
    [Movement(Slot(r.camp, r.resource), ApprovedRequest(id), SignedQuantity(r))]
  }

  function TransferRows(id: int, t: Transfer): seq<Movement> {
    Shipment(ResourceLines(t.items), id, t.requesting, t.target)
  }

  /** What those rows add up to in one slot for one origin: a late write posts under its own record only. */
  function LateAmount(w: World, c: LateWrite, s: Slot, o: Origin): int {
    match c
    case LateApproval(id) =>
      if id in w.requests && o == ApprovedRequest(id) && s == Slot(w.requests[id].camp, w.requests[id].resource)
      then SignedQuantity(w.requests[id]) else 0
    case LateCompletion(id, _) =>
      if id !in w.transfers then 0
      else if o == TransferOut(id) && s.camp == w.transfers[id].requesting then -SumFor(ResourceLines(w.transfers[id].items), s.resource)
      else if o == TransferIn(id) && s.camp == w.transfers[id].target then SumFor(ResourceLines(w.transfers[id].items), s.resource)
      else 0
    case LateLaunch(d) => if o == ExpeditionOut(w.nextId) && s.camp == d.camp then -SumFor(d.allotted, s.resource) else 0
    case LateUpdate(id, d) =>
      if id !in w.expeditions || d.status != RETURNED || s.camp != w.expeditions[id].camp then 0
      else if o == ExpeditionReturn(id) then SumFor(d.returned, s.resource)
      else if o == ExpeditionFound(id) then SumFor(d.found, s.resource)
      else 0
    case _ => 0
  }

  // ---------------------------------------------------------------------------------------------
  // Frames
  // ---------------------------------------------------------------------------------------------

  /** New ids come from the sequence, and no row disappears. */
  predicate IdsFrom<T>(before: map<int, T>, after: map<int, T>, first: int, next: int) {
    before.Keys <= after.Keys && forall t | t in after && t !in before :: first <= t < next
  }

  /** Ids of new rows come from the sequence; nothing is deleted; people, camp trails and reference data obey the frame. */
  ghost predicate LateFramed(w: World, c: LateWrite, v: World) {
    && v.catalog == w.catalog && v.users == w.users && v.admissions == w.admissions && v.plans == w.plans
    && w.nextId <= v.nextId
    && v.roster.people.Keys == w.roster.people.Keys
    && IdsFrom(w.transfers, v.transfers, w.nextId, v.nextId)
    && IdsFrom(w.expeditions, v.expeditions, w.nextId, v.nextId)
    && v.requests.Keys == w.requests.Keys
    && (forall r | r in w.requests :: v.requests[r] == w.requests[r].(status := v.requests[r].status))
    && (!c.LateCompletion? ==> v.roster.campLog == w.roster.campLog)
  }

  lemma LateTransfersShape(w: World, c: LateWrite)
    requires OnTransfers(c) && !c.LateCompletion?
    ensures var v := LateTransferEffect(w, c).world;
            && v == w.(transfers := v.transfers, nextId := v.nextId) && w.nextId <= v.nextId
            && IdsFrom(w.transfers, v.transfers, w.nextId, v.nextId)
  {}

  lemma LateCompletionShape(w: World, id: int, arrival: Option<Health>)
    ensures var v := CommitCompletion(w, id, arrival).world;
            && v == w.(books := v.books, roster := v.roster, transfers := v.transfers)
            && v.transfers.Keys == w.transfers.Keys && v.roster.people.Keys == w.roster.people.Keys
  {
    hide ShippingOutcome, Shipment, Post, PersonIds, ResourceLines;
  }

  lemma LateLaunchShape(w: World, d: Outing)
    ensures var v := CommitLaunch(w, d).world;
            && v == w.(books := v.books, roster := v.roster, expeditions := v.expeditions, nextId := v.nextId)
            && w.nextId <= v.nextId && IdsFrom(w.expeditions, v.expeditions, w.nextId, v.nextId)
            && v.roster.people.Keys == w.roster.people.Keys && v.roster.campLog == w.roster.campLog
  {
    hide Covers, Outflow, Totals, Uniform, Post;
  }

  lemma LateUpdateShape(w: World, id: int, d: StatusUpdate)
    ensures var v := Expeditions.CommitUpdate(w, id, d).world;
            && v == w.(books := v.books, roster := v.roster, expeditions := v.expeditions)
            && v.expeditions.Keys == w.expeditions.Keys
            && v.roster.people.Keys == w.roster.people.Keys && v.roster.campLog == w.roster.campLog
  {}

  lemma LateDeletionShape(w: World, id: int, d: Deletion)
    ensures var v := CommitDeletion(w, id, d).world;
            && v == w.(roster := v.roster, expeditions := v.expeditions)
            && v.expeditions.Keys == w.expeditions.Keys
            && v.roster.people.Keys == w.roster.people.Keys && v.roster.campLog == w.roster.campLog
  {}

  lemma LateReviewShape(w: World, c: LateWrite)
    requires c.LateApproval? || c.LateDecline?
    ensures var v := LateOtherEffect(w, c).world;
            && v == w.(books := v.books, requests := v.requests) && v.requests.Keys == w.requests.Keys
            && (forall r | r in w.requests :: v.requests[r] == w.requests[r].(status := v.requests[r].status))
  {}

  lemma LatePersonShape(w: World, camp: int, id: int, d: People.PersonUpdate, user: int)
    ensures var v := People.CommitUpdate(w, camp, id, d, user).world;
            && v == w.(roster := v.roster)
            && v.roster.people.Keys == w.roster.people.Keys && v.roster.campLog == w.roster.campLog
  {}

  lemma LateFrame(w: World, c: LateWrite)
    ensures LateFramed(w, c, LateEffect(w, c).world)
  {
    hide CommitCompletion, CommitLaunch, Expeditions.CommitUpdate, CommitDeletion, People.CommitUpdate;
    match c {
      case LateCompletion(id, arrival) => LateCompletionShape(w, id, arrival);
      case LateLaunch(d) => LateLaunchShape(w, d);
      case LateUpdate(id, d) => LateUpdateShape(w, id, d);
      case LateDeletion(id, d) => LateDeletionShape(w, id, d);
      case LateApproval(_) => LateReviewShape(w, c);
      case LateDecline(_) => LateReviewShape(w, c);
      case LatePersonUpdate(camp, id, d, user) => LatePersonShape(w, camp, id, d, user);
      case _ => LateTransfersShape(w, c);
    }
  }

  lemma LateRefusal(w: World, c: LateWrite)
    ensures LateEffect(w, c).outcome.Refused? ==> LateEffect(w, c).world == w
  {}

  lemma LateTransfersPost(w: World, c: LateWrite)
    requires OnTransfers(c) && LateTransferEffect(w, c).outcome.Done?
    ensures LateTransferEffect(w, c).world.books == Post(w.books, LateRows(w, c))
  {}

  lemma LateUpdatePosts(w: World, id: int, d: StatusUpdate)
    requires Expeditions.CommitUpdate(w, id, d).outcome.Done?
    ensures Expeditions.CommitUpdate(w, id, d).world.books == Post(w.books, LateRows(w, LateUpdate(id, d)))
  {}

  lemma LateReviewPosts(w: World, id: int)
    requires CommitApproval(w, id).outcome.Done?
    ensures CommitApproval(w, id).world.books == Post(w.books, LateRows(w, LateApproval(id)))
  {}

  /** A late write posts its rows and touches stock and log in no other way. */
  lemma LatePosts(w: World, c: LateWrite)
    requires LateEffect(w, c).outcome.Done?
    ensures LateEffect(w, c).world.books == Post(w.books, LateRows(w, c))
  {
    match c {
      case LateUpdate(id, d) => LateUpdatePosts(w, id, d);
      case LateApproval(id) => LateReviewPosts(w, id);
      case LateDeletion(_, _) =>
      case LateLaunch(_) =>
      case LateDecline(_) =>
      case LatePersonUpdate(_, _, _, _) =>
      case _ => LateTransfersPost(w, c);
    }
  }

  /** Requests in the table are for positive quantities. */
  ghost predicate RequestsPositive(w: World) {
    forall r | r in w.requests :: w.requests[r].quantity > 0
  }

  lemma OneRow(slot: Slot, origin: Origin, change: int, s: Slot, o: Origin)
    ensures Net([Movement(slot, origin, change)], s) == (if s == slot then change else 0)
    ensures NetOf([Movement(slot, origin, change)], s, o) == (if s == slot && o == origin then change else 0)
  {
    var m := Movement(slot, origin, change);
    assert [m][..0] == [];
  }

  lemma CoveredOutflow(stock: map<Slot, int>, camp: int, lines: seq<Line>, s: Slot)
    requires Covers(stock, camp, Firsts(lines), lines)
    requires Have(stock, s) >= 0
    ensures s.camp == camp ==> Have(stock, s) >= SumFor(lines, s.resource)
  {
    FirstsAreTheResources(lines);
    assert s == Slot(s.camp, s.resource);
  }

  lemma ReturnFlowNet(camp: int, id: int, d: StatusUpdate, s: Slot, o: Origin)
    ensures var back := if d.status == RETURNED && s.camp == camp then SumFor(d.returned, s.resource) else 0;
            var found := if d.status == RETURNED && s.camp == camp then SumFor(d.found, s.resource) else 0;
            && Net(ReturnFlow(camp, id, d), s) == back + found
            && NetOf(ReturnFlow(camp, id, d), s, o) ==
                 (if o == ExpeditionReturn(id) then back else if o == ExpeditionFound(id) then found else 0)
  {
    if d.status == RETURNED {
      FlowNet(d.returned, camp, ExpeditionReturn(id), s, o);
      FlowNet(d.found, camp, ExpeditionFound(id), s, o);
      NetConcat(Inflow(d.returned, camp, ExpeditionReturn(id)), Inflow(d.found, camp, ExpeditionFound(id)), s);
      NetOfConcat(Inflow(d.returned, camp, ExpeditionReturn(id)), Inflow(d.found, camp, ExpeditionFound(id)), s, o);
    }
  }

  lemma LateRowsAmount(w: World, c: LateWrite, s: Slot, o: Origin)
    ensures NetOf(LateRows(w, c), s, o) == LateAmount(w, c, s, o)
  {
    match c {
      case LateApproval(id) =>
        if id in w.requests {
          var r := w.requests[id];
          OneRow(Slot(r.camp, r.resource), ApprovedRequest(id), SignedQuantity(r), s, o);
        }
      case LateCompletion(id, _) =>
        if id in w.transfers {
          var t := w.transfers[id];
          ShipmentNet(ResourceLines(t.items), id, t.requesting, t.target, s, o);
        }
      case LateLaunch(d) => FlowNet(d.allotted, d.camp, ExpeditionOut(w.nextId), s, o);
      case LateUpdate(id, d) => if id in w.expeditions { ReturnFlowNet(w.expeditions[id].camp, id, d, s, o); }
      case _ =>
    }
  }

  lemma CompletionOverdrawsNothing(w: World, t: Transfer, id: int, s: Slot)
    requires ShippingOutcome(w, t).Done? && Have(w.books.stock, s) >= 0
    ensures Have(w.books.stock, s) + Net(TransferRows(id, t), s) >= 0
  {
    ShipmentNet(ResourceLines(t.items), id, t.requesting, t.target, s, ManualMovement);
    CoveredOutflow(w.books.stock, t.requesting, ResourceLines(t.items), s);
    PositiveSums(ResourceLines(t.items), s.resource);
  }

  /** Even on an overtaken check, no write takes more than the slot holds. */
  lemma LateOverdrawsNothing(w: World, c: LateWrite, s: Slot)
    requires LateEffect(w, c).outcome.Done? && RequestsPositive(w) && Have(w.books.stock, s) >= 0
    ensures Have(w.books.stock, s) + Net(LateRows(w, c), s) >= 0
  {
    match c {
      case LateApproval(id) =>
        var r := w.requests[id];
        OneRow(Slot(r.camp, r.resource), ApprovedRequest(id), SignedQuantity(r), s, ManualMovement);
      case LateCompletion(id, _) => CompletionOverdrawsNothing(w, w.transfers[id], id, s);
      case LateLaunch(d) =>
        FlowNet(d.allotted, d.camp, ExpeditionOut(w.nextId), s, ManualMovement);
        CoveredOutflow(w.books.stock, d.camp, d.allotted, s);
      case LateUpdate(id, d) =>
        ReturnFlowNet(w.expeditions[id].camp, id, d, s, ManualMovement);
        PositiveSums(d.returned, s.resource);
        PositiveSums(d.found, s.resource);
      case _ =>
    }
  }

  // ---------------------------------------------------------------------------------------------
  // Trails
  // ---------------------------------------------------------------------------------------------

  lemma RelocateKeepsHealthTrails(r: Roster, ids: set<int>, source: int, target: int, cause: Cause)
    ensures HealthUnbroken(r) ==> HealthUnbroken(Relocate(r, ids, source, target, cause))
  {}

  lemma MovedKeepsHealthTrails(r: Roster, ids: set<int>, source: int, target: int, health: Health, cause: Cause)
    requires HealthUnbroken(r)
    ensures HealthUnbroken(Moved(r, ids, source, target, health, cause))
  {
    SetHealthKeepsChains(r, Uniform(ids, health), cause);
    RelocateKeepsHealthTrails(SetHealth(r, Uniform(ids, health), cause), ids, source, target, cause);
  }

  lemma MovedKeepsTrails(w: World, t: Transfer, id: int, health: Health)
    requires Unbroken(w.roster) && t.requesting != t.target && ShippingOutcome(w, t).Done?
    ensures Unbroken(Moved(w.roster, Elements(PersonIds(t.items)), t.requesting, t.target, health, ByTransfer(id)))
  {
    var ids := Elements(PersonIds(t.items));
    SetHealthKeepsChains(w.roster, Uniform(ids, health), ByTransfer(id));
    RelocateKeepsChains(SetHealth(w.roster, Uniform(ids, health), ByTransfer(id)), ids, t.requesting, t.target, ByTransfer(id));
  }

  lemma PersonUpdateKeepsHealthTrails(w: World, camp: int, id: int, d: People.PersonUpdate, user: int)
    requires HealthUnbroken(w.roster)
    ensures HealthUnbroken(People.CommitUpdate(w, camp, id, d, user).world.roster)
  {
    if People.CommitUpdate(w, camp, id, d, user).outcome.Done? {
      var p := w.roster.people[id];
      if d.health.Some? && d.health.value != p.health {
        ChainGrows(LogOf(w.roster.healthLog, id), p.health, d.health.value, ByHand);
      }
    }
  }

  /** Status trails survive every late write. */
  lemma LateKeepsHealthTrails(w: World, c: LateWrite)
    requires HealthUnbroken(w.roster)
    ensures HealthUnbroken(LateEffect(w, c).world.roster)
  {
    if LateEffect(w, c).outcome.Done? {
      match c {
        case LateCompletion(id, arrival) =>
          var t := w.transfers[id];
          MovedKeepsHealthTrails(w.roster, Elements(PersonIds(t.items)), t.requesting, t.target,
                                 if arrival.Some? then arrival.value else HEALTHY, ByTransfer(id));
        case LateLaunch(d) => SetHealthKeepsChains(w.roster, Uniform(Elements(d.members), AWAY), ByExpedition(w.nextId));
        case LateUpdate(id, d) => SetHealthKeepsChains(w.roster, TargetsOf(w.expeditions[id], d), ByExpedition(id));
        case LateDeletion(id, d) => SetHealthKeepsChains(w.roster, DeletionTargets(w.expeditions[id], d), ByExpedition(id));
        case LatePersonUpdate(camp, id, d, user) => PersonUpdateKeepsHealthTrails(w, camp, id, d, user);
        case _ =>
      }
    }
  }

  /** So do camp trails, unless the write is a person update. */
  lemma LateKeepsTrails(w: World, c: LateWrite)
    requires Unbroken(w.roster) && !c.LatePersonUpdate?
    requires forall t | t in w.transfers :: w.transfers[t].requesting != w.transfers[t].target
    ensures Unbroken(LateEffect(w, c).world.roster)
  {
    if LateEffect(w, c).outcome.Done? {
      match c {
        case LateCompletion(id, arrival) =>
          MovedKeepsTrails(w, w.transfers[id], id, if arrival.Some? then arrival.value else HEALTHY);
        case LateLaunch(d) => SetHealthKeepsChains(w.roster, Uniform(Elements(d.members), AWAY), ByExpedition(w.nextId));
        case LateUpdate(id, d) => SetHealthKeepsChains(w.roster, TargetsOf(w.expeditions[id], d), ByExpedition(id));
        case LateDeletion(id, d) => SetHealthKeepsChains(w.roster, DeletionTargets(w.expeditions[id], d), ByExpedition(id));
        case _ =>
      }
    }
  }

  /** No two camps of a transfer are the same, whatever is late. */
  lemma LateKeepsTwoCamps(w: World, c: LateWrite)
    requires forall t | t in w.transfers :: w.transfers[t].requesting != w.transfers[t].target
    ensures var v := LateEffect(w, c).world;
            forall t | t in v.transfers :: v.transfers[t].requesting != v.transfers[t].target
  {}
}
