/** Runs of the whole system: every service call, overtaken write and job step as one event, in any interleaving. */
module Runs {
  import opened Core
  import opened Ledger
  import opened Census
  import opened Tables
  import opened Inventory
  import opened Transfers
  import opened Expeditions
  import opened LateWrites
  import People
  import Admissions
  import Rations

  datatype Event =
    | AdjustStock(camp: int, resource: int, isIn: bool, quantity: int, user: int)
    | FileRequest(camp: int, resource: int, isIn: bool, quantity: int, user: int)
    | ApproveRequest(request: int, user: int)
    | DeclineRequest(request: int, user: int)
    | ProposeTransfer(proposal: Proposal)
    | ScheduleTransfer(transfer: int, user: int, date: int, now: int)
    | ApproveAtSource(transfer: int, user: int, dateGiven: Option<int>, now: int)
    | ApproveAtTarget(transfer: int, user: int, now: int)
    | CompleteTransfer(transfer: int, user: int, arrival: Option<Health>)
    | RejectTransfer(transfer: int, user: int)
    | LaunchExpedition(outing: Outing)
    | UpdateExpedition(expedition: int, update: StatusUpdate)
    | DeleteExpedition(expedition: int, deletion: Deletion)
    | AddPerson(camp: int, newcomer: People.NewPerson, draws: People.Draws)
    | UpdatePerson(camp: int, person: int, change: People.PersonUpdate, user: int)
    | ChangeStatus(camp: int, person: int, health: Health, user: int)
    | ReadRationStock(job: int, camp: int, resource: int, need: int, heads: nat)
    | ConsumeRation(job: int)
    | Produce(camp: int, resource: int, quantity: int)
    | MoveUser(user: int, camp: int)
    | FileAdmission(camp: int, verdict: Admissions.Verdict)
    | ReviewAdmission(admission: int, accept: bool, corrected: Option<int>)
    | Late(write: LateWrite)

  /** A ration job reads a stock row and remembers it; other writers may come before it consumes. */
  function ReadStock(w: World, job: int, camp: int, resource: int, need: int, heads: nat): Response {
    var slot := Slot(camp, resource);
    var seen := if slot in w.books.stock then Some(w.books.stock[slot]) else None;
    Response(w.(plans := w.plans[job := Plan(camp, resource, need, heads, seen)]), Done)
  }

  function ConsumePlan(w: World, job: int): Response {
    if job !in w.plans then Refuse(w, 404) else Rations.Distribute(w, w.plans[job])
  }

  predicate IsAdmissionEvent(e: Event) {
    e.FileAdmission? || e.ReviewAdmission?
  }

  predicate IsTransferEvent(e: Event) {
    e.ProposeTransfer? || e.ScheduleTransfer? || e.ApproveAtSource? || e.ApproveAtTarget? || e.CompleteTransfer? || e.RejectTransfer?
  }

  predicate IsExpeditionEvent(e: Event) {
    e.LaunchExpedition? || e.UpdateExpedition? || e.DeleteExpedition?
  }

  predicate IsRequestEvent(e: Event) {
    e.FileRequest? || e.ApproveRequest? || e.DeclineRequest?
  }

  predicate IsPeopleEvent(e: Event) {
    e.AddPerson? || e.UpdatePerson? || e.ChangeStatus? || e.MoveUser?
  }

  predicate IsStockEvent(e: Event) {
    e.AdjustStock? || e.ReadRationStock? || e.ConsumeRation? || e.Produce?
  }

  function TransferEffect(w: World, e: Event): Response
    requires IsTransferEvent(e)
  {
    match e
    case ProposeTransfer(d) => Propose(w, d)
    case ScheduleTransfer(id, user, date, now) => Schedule(w, id, user, date, now)
    case ApproveAtSource(id, user, date, now) => ApproveSource(w, id, user, date, now)
    case ApproveAtTarget(id, user, now) => ApproveTarget(w, id, user, now)
    case CompleteTransfer(id, user, arrival) => Complete(w, id, user, arrival)
    case RejectTransfer(id, user) => Reject(w, id, user)
  }

  function ExpeditionEffect(w: World, e: Event): Response
    requires IsExpeditionEvent(e)
  {
    match e
    case LaunchExpedition(d) => Launch(w, d)
    case UpdateExpedition(id, d) => UpdateStatus(w, id, d)
    case DeleteExpedition(id, d) => Delete(w, id, d)
  }

  function RequestEffect(w: World, e: Event): Response
    requires IsRequestEvent(e)
  {
    match e
    case FileRequest(camp, resource, isIn, quantity, user) => OpenRequest(w, camp, resource, isIn, quantity, user)
    case ApproveRequest(id, user) => Approve(w, id, user)
    case DeclineRequest(id, user) => Decline(w, id, user)
  }

  ghost function AdmissionEffect(w: World, e: Event): Response
    requires IsAdmissionEvent(e)
  {
    match e
    case FileAdmission(camp, v) => Admissions.Apply(w, camp, v)
    case ReviewAdmission(id, accept, corrected) => Admissions.ReviewOf(w, id, accept, corrected)
  }

  function PeopleEffect(w: World, e: Event): Response
    requires IsPeopleEvent(e)
  {
    match e
    case AddPerson(camp, d, draws) => People.Create(w, camp, d, draws)
    case UpdatePerson(camp, id, d, user) => People.Update(w, camp, id, d, user)
    case ChangeStatus(camp, id, health, user) => People.ChangeStatus(w, camp, id, health, user)
    case MoveUser(user, camp) => Response(w.(users := w.users[user := camp]), Done)
  }

  function StockEffect(w: World, e: Event): Response
    requires IsStockEvent(e)
  {
    match e
    case AdjustStock(camp, resource, isIn, quantity, user) => AdjustManually(w, camp, resource, isIn, quantity, user)
    case ReadRationStock(job, camp, resource, need, heads) => ReadStock(w, job, camp, resource, need, heads)
    case ConsumeRation(job) => ConsumePlan(w, job)
    case Produce(camp, resource, quantity) => Increase(w, camp, resource, quantity)
  }

  ghost function Step(w: World, e: Event): Response {
    if e.Late? then LateEffect(w, e.write)
    else if IsTransferEvent(e) then TransferEffect(w, e)
    else if IsExpeditionEvent(e) then ExpeditionEffect(w, e)
    else if IsRequestEvent(e) then RequestEffect(w, e)
    else if IsAdmissionEvent(e) then AdmissionEffect(w, e)
    else if IsPeopleEvent(e) then PeopleEffect(w, e)
    else StockEffect(w, e)
  }

  /** The state after a run. */
  ghost function Trace(w: World, run: seq<Event>): World {
    if run == [] then w else Step(Trace(w, run[..|run| - 1]), run[|run| - 1]).world
  }

  /** No write goes through on a check that another request has overtaken. */
  predicate Serial(run: seq<Event>) {
    forall e | e in run :: SerialEvent(e)
  }

  predicate SerialEvent(e: Event) {
    !e.Late?
  }

  lemma SerialFront(run: seq<Event>)
    requires Serial(run) && run != []
    ensures Serial(run[..|run| - 1]) && SerialEvent(run[|run| - 1])
  {
    assert run[|run| - 1] in run;
    forall e | e in run[..|run| - 1] ensures SerialEvent(e) { assert e in run; }
  }

  // ---------------------------------------------------------------------------------------------
  // Checks first, writes after
  // ---------------------------------------------------------------------------------------------

  /** The writes of a checked call, or of a late one. */
  function WritesOf(w: World, e: Event): Option<LateWrite> {
    match e
    case ApproveRequest(id, _) => Some(LateApproval(id))
    case DeclineRequest(id, _) => Some(LateDecline(id))
    case ProposeTransfer(d) => Some(LateProposal(d))
    case ScheduleTransfer(id, _, date, _) => Some(LateSchedule(id, date))
    case ApproveAtSource(id, user, date, _) =>
      Some(LateSourceApproval(id, user, if date.Some? || id !in w.transfers then date else w.transfers[id].delivery))
    case ApproveAtTarget(id, user, _) => Some(LateTargetApproval(id, user))
    case CompleteTransfer(id, _, arrival) => Some(LateCompletion(id, arrival))
    case RejectTransfer(id, _) => Some(LateRejection(id))
    case LaunchExpedition(d) => Some(LateLaunch(d))
    case UpdateExpedition(id, d) => Some(LateUpdate(id, d))
    case DeleteExpedition(id, d) => Some(LateDeletion(id, d))
    case UpdatePerson(camp, id, d, user) => Some(LatePersonUpdate(camp, id, d, user))
    case Late(c) => Some(c)
    case _ => None
  }

  lemma TransferChecksFirst(w: World, e: Event)
    requires IsTransferEvent(e)
    ensures var r := TransferEffect(w, e);
            if r.outcome.Refused? then r.world == w else r == LateTransferEffect(w, WritesOf(w, e).value)
  {}

  lemma ExpeditionChecksFirst(w: World, e: Event)
    requires IsExpeditionEvent(e)
    ensures var r := ExpeditionEffect(w, e);
            if r.outcome.Refused? then r.world == w else r == LateExpeditionEffect(w, WritesOf(w, e).value)
  {}

  lemma OtherChecksFirst(w: World, e: Event)
    requires e.ApproveRequest? || e.DeclineRequest? || e.UpdatePerson?
    ensures var r := Step(w, e);
            if r.outcome.Refused? then r.world == w else r == LateOtherEffect(w, WritesOf(w, e).value)
  {}

  /** A checked call is refused with nothing changed, or it is exactly its own writes. */
  lemma ChecksFirst(w: World, e: Event)
    requires WritesOf(w, e).Some?
    ensures var r := Step(w, e);
            if r.outcome.Refused? then r.world == w else r == LateEffect(w, WritesOf(w, e).value)
  {
    hide LateTransferEffect, LateExpeditionEffect, LateOtherEffect;
    hide TransferEffect, ExpeditionEffect, RequestEffect, AdmissionEffect, PeopleEffect, StockEffect;
    if e.Late? {
      LateRefusal(w, e.write);
    } else if IsTransferEvent(e) {
      TransferChecksFirst(w, e);
    } else if IsExpeditionEvent(e) {
      ExpeditionChecksFirst(w, e);
    } else {
      OtherChecksFirst(w, e);
    }
  }

  // ---------------------------------------------------------------------------------------------
  // What an event posts to the ledger
  // ---------------------------------------------------------------------------------------------

  /** The rows of the stock writers that have no status to check. */
  function StockRows(w: World, e: Event): seq<Movement> {
    match e
    case AdjustStock(camp, resource, isIn, quantity, _) =>
      [Movement(Slot(camp, resource), ManualMovement, if isIn then quantity else -quantity)]
    case ConsumeRation(job) => if job in w.plans then RationRows(w.plans[job]) else []
    case Produce(camp, resource, quantity) => [Movement(Slot(camp, resource), DailyGain, quantity)]
    case _ => []
  }

  function RationRows(p: Plan): seq<Movement> {
    var portions := Rations.Portions(p.seen, p.need);
    if portions == 0 then []
    else [Movement(Slot(p.camp, p.resource), DailyRation, -(p.need * Rations.Min(portions, p.headCount)))]
  }

  ghost function Posted(w: World, e: Event): seq<Movement> {
    if Step(w, e).outcome.Refused? then []
    else if WritesOf(w, e).Some? then LateRows(w, WritesOf(w, e).value)
    else StockRows(w, e)
  }

  lemma StockRowsAmount(w: World, e: Event, s: Slot, o: Origin)
    requires o !in {ManualMovement, DailyRation, DailyGain}
    ensures NetOf(StockRows(w, e), s, o) == 0
  {
    match e {
      case AdjustStock(camp, resource, isIn, quantity, _) =>
        OneRow(Slot(camp, resource), ManualMovement, if isIn then quantity else -quantity, s, o);
      case ConsumeRation(job) =>
        if job in w.plans {
          var p := w.plans[job];
          var taken := p.need * Rations.Min(Rations.Portions(p.seen, p.need), p.headCount);
          OneRow(Slot(p.camp, p.resource), DailyRation, -taken, s, o);
        }
      case Produce(camp, resource, quantity) => OneRow(Slot(camp, resource), DailyGain, quantity, s, o);
      case _ =>
    }
  }

  /** Records post under their own origin: the one case analysis behind every booking theorem. */
  lemma PostedAmount(w: World, e: Event, s: Slot, o: Origin)
    requires o !in {ManualMovement, DailyRation, DailyGain}
    ensures NetOf(Posted(w, e), s, o) ==
            if Step(w, e).outcome.Done? && WritesOf(w, e).Some? then LateAmount(w, WritesOf(w, e).value, s, o) else 0
  {
    hide Step, LateRows, StockRows, LateAmount;
    StockRowsAmount(w, e, s, o);
    if WritesOf(w, e).Some? { LateRowsAmount(w, WritesOf(w, e).value, s, o); }
  }

  lemma AdmissionFrame(w: World, e: Event)
    requires IsAdmissionEvent(e) && Admissions.PeopleBelow(w)
    ensures Admissions.TouchesPeopleOnly(w, AdmissionEffect(w, e).world)
  {
    match e {
      case FileAdmission(camp, v) => Admissions.ApplyFrame(w, camp, v);
      case ReviewAdmission(id, accept, corrected) => Admissions.ReviewFrame(w, id, accept, corrected);
    }
  }

  lemma StockPosts(w: World, e: Event)
    requires IsStockEvent(e)
    ensures var r := StockEffect(w, e);
            r.world.books == if r.outcome.Done? then Post(w.books, StockRows(w, e)) else w.books
  {}

  lemma PeopleKeepBooks(w: World, e: Event)
    requires IsPeopleEvent(e)
    ensures PeopleEffect(w, e).world.books == w.books
  {}

  lemma WritesPost(w: World, e: Event)
    requires WritesOf(w, e).Some?
    ensures Step(w, e).world.books == Post(w.books, Posted(w, e))
  {
    hide LateEffect, LateRows, TransferEffect, ExpeditionEffect, RequestEffect, AdmissionEffect, PeopleEffect, StockEffect;
    ChecksFirst(w, e);
    if Step(w, e).outcome.Done? { LatePosts(w, WritesOf(w, e).value); }
  }

  lemma PlainPosts(w: World, e: Event)
    requires Admissions.PeopleBelow(w) && WritesOf(w, e).None? && !IsStockEvent(e)
    ensures Step(w, e).world.books == w.books
  {
    hide LateEffect, TransferEffect, ExpeditionEffect, RequestEffect, AdmissionEffect, PeopleEffect, StockEffect;
    if e.FileRequest? {
      FilingShape(w, e);
    } else if IsAdmissionEvent(e) {
      AdmissionFrame(w, e);
    } else {
      PeopleKeepBooks(w, e);
    }
  }

  /** The stock and log after a step are the stock and log before it with the posted rows applied. */
  lemma StepPosts(w: World, e: Event)
    requires Admissions.PeopleBelow(w)
    ensures Step(w, e).world.books == Post(w.books, Posted(w, e))
  {
    hide LateEffect, LateRows, TransferEffect, ExpeditionEffect, RequestEffect, AdmissionEffect, PeopleEffect, StockEffect;
    if WritesOf(w, e).Some? {
      WritesPost(w, e);
    } else if IsStockEvent(e) {
      StockPosts(w, e);
    } else {
      PlainPosts(w, e);
    }
  }

  lemma LogGrows(w: World, e: Event)
    requires Admissions.PeopleBelow(w)
    ensures Step(w, e).world.books.log == w.books.log + Posted(w, e)
  {
    hide LateEffect, LateRows, TransferEffect, ExpeditionEffect, RequestEffect, AdmissionEffect, PeopleEffect, StockEffect;
    StepPosts(w, e);
    PostEffect(w.books, Posted(w, e), Slot(0, 0));
  }

  lemma StockRowsOverdrawNothing(w: World, e: Event, s: Slot)
    requires IsStockEvent(e) && StockEffect(w, e).outcome.Done? && Have(w.books.stock, s) >= 0
    ensures Have(w.books.stock, s) + Net(StockRows(w, e), s) >= 0
  {
    match e {
      case AdjustStock(camp, resource, isIn, quantity, _) =>
        OneRow(Slot(camp, resource), ManualMovement, if isIn then quantity else -quantity, s, ManualMovement);
      case ConsumeRation(job) =>
        var p := w.plans[job];
        var taken := p.need * Rations.Min(Rations.Portions(p.seen, p.need), p.headCount);
        OneRow(Slot(p.camp, p.resource), DailyRation, -taken, s, ManualMovement);
      case Produce(camp, resource, quantity) => OneRow(Slot(camp, resource), DailyGain, quantity, s, ManualMovement);
      case _ =>
    }
  }

  /** No event takes more than the slot holds at that moment, however old the reading or the check it acts on. */
  lemma NothingOverdrawn(w: World, e: Event, s: Slot)
    requires RequestsPositive(w) && Have(w.books.stock, s) >= 0
    ensures Have(w.books.stock, s) + Net(Posted(w, e), s) >= 0
  {
    hide LateEffect, LateRows, TransferEffect, ExpeditionEffect, RequestEffect, AdmissionEffect, PeopleEffect, StockEffect;
    if Step(w, e).outcome.Done? {
      if WritesOf(w, e).Some? {
        ChecksFirst(w, e);
        LateOverdrawsNothing(w, WritesOf(w, e).value, s);
      } else if IsStockEvent(e) {
        StockRowsOverdrawNothing(w, e, s);
      }
    }
  }

  // ---------------------------------------------------------------------------------------------
  // Which tables an event may touch
  // ---------------------------------------------------------------------------------------------

  /** Ids in use are below the next id. */
  ghost predicate IdsBelow(w: World) {
    && Admissions.PeopleBelow(w)
    && (forall t | t in w.transfers :: t < w.nextId)
    && (forall x | x in w.expeditions :: x < w.nextId)
    && (forall r | r in w.requests :: r < w.nextId)
  }

  lemma FilingShape(w: World, e: Event)
    requires e.FileRequest?
    ensures var v := RequestEffect(w, e).world;
            || v == w
            || (&& v == w.(requests := v.requests, nextId := w.nextId + 1) && e.quantity > 0
                && v.requests == w.requests[w.nextId := Request(e.camp, e.resource, e.isIn, e.quantity, AWAITING)])
  {}

  lemma PeopleShape(w: World, e: Event)
    requires e.ChangeStatus? || e.MoveUser?
    ensures var v := PeopleEffect(w, e).world;
            && v == w.(roster := v.roster, users := v.users)
            && v.roster.campLog == w.roster.campLog && v.roster.people.Keys == w.roster.people.Keys
  {}

  lemma JoiningShape(w: World, e: Event)
    requires e.AddPerson?
    ensures var v := PeopleEffect(w, e).world;
            || v == w
            || (&& v == w.(roster := w.roster.(people := v.roster.people), nextId := w.nextId + 1)
                && v.roster.people.Keys == w.roster.people.Keys + {w.nextId})
  {}

  lemma StockShape(w: World, e: Event)
    requires IsStockEvent(e)
    ensures var v := StockEffect(w, e).world; v == w.(books := v.books, plans := v.plans)
  {
    if e.ConsumeRation? { ConsumeShape(w, e.job); }
  }

  lemma ConsumeShape(w: World, job: int)
    ensures var v := ConsumePlan(w, job).world; v == w.(books := v.books)
  {}

  /** What holds of the new rows after any event, late ones included. */
  ghost predicate Grown(w: World, v: World) {
    && v.catalog == w.catalog && w.nextId <= v.nextId
    && IdsFrom(w.roster.people, v.roster.people, w.nextId, v.nextId)
    && IdsFrom(w.transfers, v.transfers, w.nextId, v.nextId)
    && IdsFrom(w.expeditions, v.expeditions, w.nextId, v.nextId)
    && IdsFrom(w.requests, v.requests, w.nextId, v.nextId)
  }

  lemma AdmissionsGrow(w: World, e: Event)
    requires IsAdmissionEvent(e) && Admissions.PeopleBelow(w)
    ensures Grown(w, AdmissionEffect(w, e).world)
  {
    AdmissionFrame(w, e);
  }

  lemma WritesGrow(w: World, e: Event)
    requires WritesOf(w, e).Some?
    ensures Grown(w, Step(w, e).world)
  {
    hide LateEffect, TransferEffect, ExpeditionEffect, RequestEffect, AdmissionEffect, PeopleEffect, StockEffect;
    ChecksFirst(w, e);
    if Step(w, e).outcome.Done? { LateFrame(w, WritesOf(w, e).value); }
  }

  lemma FilingGrows(w: World, e: Event)
    requires e.FileRequest?
    ensures Grown(w, RequestEffect(w, e).world)
  {
    FilingShape(w, e);
  }

  lemma JoiningGrows(w: World, e: Event)
    requires e.AddPerson?
    ensures Grown(w, PeopleEffect(w, e).world)
  {
    JoiningShape(w, e);
  }

  lemma PlainPeopleGrow(w: World, e: Event)
    requires e.ChangeStatus? || e.MoveUser?
    ensures Grown(w, PeopleEffect(w, e).world)
  {
    PeopleShape(w, e);
  }

  lemma StockGrows(w: World, e: Event)
    requires IsStockEvent(e)
    ensures Grown(w, StockEffect(w, e).world)
  {
    StockShape(w, e);
  }

  lemma StepGrows(w: World, e: Event)
    requires Admissions.PeopleBelow(w)
    ensures Grown(w, Step(w, e).world)
  {
    hide LateEffect, TransferEffect, ExpeditionEffect, RequestEffect, AdmissionEffect, PeopleEffect, StockEffect, Grown;
    if WritesOf(w, e).Some? {
      WritesGrow(w, e);
    } else if e.FileRequest? {
      FilingGrows(w, e);
    } else if IsStockEvent(e) {
      StockGrows(w, e);
    } else if IsAdmissionEvent(e) {
      AdmissionsGrow(w, e);
    } else if e.AddPerson? {
      JoiningGrows(w, e);
    } else {
      PlainPeopleGrow(w, e);
    }
  }

  lemma StepKeepsIdsBelow(w: World, e: Event)
    requires IdsBelow(w)
    ensures IdsBelow(Step(w, e).world) && w.nextId <= Step(w, e).world.nextId
  {
    hide LateEffect, TransferEffect, ExpeditionEffect, RequestEffect, AdmissionEffect, PeopleEffect, StockEffect;
    StepGrows(w, e);
    GrownKeepsIds(w, Step(w, e).world);
  }

  lemma GrownKeepsIds(w: World, v: World)
    requires IdsBelow(w) && Grown(w, v)
    ensures IdsBelow(v)
  {}

  lemma {:induction false} RunKeepsIds(w: World, run: seq<Event>)
    requires IdsBelow(w)
    ensures IdsBelow(Trace(w, run))
  {
    if run != [] {
      RunKeepsIds(w, run[..|run| - 1]);
      StepKeepsIdsBelow(Trace(w, run[..|run| - 1]), run[|run| - 1]);
    }
  }

  lemma {:induction false} TraceConcat(w: World, a: seq<Event>, b: seq<Event>)
    ensures Trace(w, a + b) == Trace(Trace(w, a), b)
  {
    if b == [] {
      assert a + b == a;
    } else {
      assert (a + b)[..|a + b| - 1] == a + b[..|b| - 1];
      TraceConcat(w, a, b[..|b| - 1]);
    }
  }

  /** Calls of one module leave the tables of the others alone. */
  lemma OthersKeepTransfers(w: World, e: Event)
    requires Admissions.PeopleBelow(w) && SerialEvent(e) && !IsTransferEvent(e)
    ensures Step(w, e).world.transfers == w.transfers
  {
    hide LateEffect, TransferEffect, ExpeditionEffect, RequestEffect, AdmissionEffect, PeopleEffect, StockEffect;
    if IsExpeditionEvent(e) {
      ExpeditionsShape(w, e);
    } else {
      PlainEventsShape(w, e);
    }
  }

  lemma OthersKeepExpeditions(w: World, e: Event)
    requires Admissions.PeopleBelow(w) && SerialEvent(e) && !IsExpeditionEvent(e)
    ensures Step(w, e).world.expeditions == w.expeditions
  {
    hide LateEffect, TransferEffect, ExpeditionEffect, RequestEffect, AdmissionEffect, PeopleEffect, StockEffect;
    if IsTransferEvent(e) {
      TransfersShape(w, e);
    } else {
      PlainEventsShape(w, e);
    }
  }

  lemma OthersKeepRequests(w: World, e: Event)
    requires Admissions.PeopleBelow(w) && SerialEvent(e) && !IsRequestEvent(e)
    ensures Step(w, e).world.requests == w.requests
  {
    hide LateEffect, TransferEffect, ExpeditionEffect, RequestEffect, AdmissionEffect, PeopleEffect, StockEffect;
    if IsTransferEvent(e) {
      TransfersShape(w, e);
    } else if IsExpeditionEvent(e) {
      ExpeditionsShape(w, e);
    } else {
      PlainEventsShape(w, e);
    }
  }

  lemma TransfersShape(w: World, e: Event)
    requires IsTransferEvent(e)
    ensures var v := TransferEffect(w, e).world;
            && v == w.(books := v.books, roster := v.roster, transfers := v.transfers, nextId := v.nextId)
            && (!e.CompleteTransfer? ==> v.roster == w.roster && v.books == w.books)
  {
    TransferChecksFirst(w, e);
    if e.CompleteTransfer? {
      LateCompletionShape(w, e.transfer, e.arrival);
    } else {
      LateTransfersShape(w, WritesOf(w, e).value);
    }
  }

  lemma ExpeditionsShape(w: World, e: Event)
    requires IsExpeditionEvent(e)
    ensures var v := ExpeditionEffect(w, e).world;
            && v == w.(books := v.books, roster := v.roster, expeditions := v.expeditions, nextId := v.nextId)
            && v.roster.campLog == w.roster.campLog
  {
    ExpeditionChecksFirst(w, e);
    match e {
      case LaunchExpedition(d) => LateLaunchShape(w, d);
      case UpdateExpedition(id, d) => LateUpdateShape(w, id, d);
      case DeleteExpedition(id, d) => LateDeletionShape(w, id, d);
    }
  }

  lemma ReviewsShape(w: World, e: Event)
    requires IsRequestEvent(e)
    ensures var v := RequestEffect(w, e).world; v == w.(books := v.books, requests := v.requests, nextId := v.nextId)
  {
    if e.FileRequest? {
      FilingShape(w, e);
    } else {
      OtherChecksFirst(w, e);
      LateReviewShape(w, WritesOf(w, e).value);
    }
  }

  lemma PersonUpdateShape(w: World, e: Event)
    requires e.UpdatePerson?
    ensures var v := PeopleEffect(w, e).world; v == w.(roster := v.roster) && v.roster.campLog == w.roster.campLog
  {
    OtherChecksFirst(w, e);
    LatePersonShape(w, e.camp, e.person, e.change, e.user);
  }

  /** Serial events outside the transfer and expedition services. */
  lemma PlainEventsShape(w: World, e: Event)
    requires Admissions.PeopleBelow(w) && SerialEvent(e) && !IsTransferEvent(e) && !IsExpeditionEvent(e)
    ensures var v := Step(w, e).world;
            && v.transfers == w.transfers && v.expeditions == w.expeditions && v.roster.campLog == w.roster.campLog
            && (!IsRequestEvent(e) ==> v.requests == w.requests)
  {
    hide LateEffect, TransferEffect, ExpeditionEffect, RequestEffect, AdmissionEffect, PeopleEffect, StockEffect;
    if IsRequestEvent(e) {
      ReviewsShape(w, e);
    } else if IsStockEvent(e) {
      StockShape(w, e);
    } else if IsAdmissionEvent(e) {
      AdmissionFrame(w, e);
    } else if e.AddPerson? {
      JoiningShape(w, e);
    } else if e.UpdatePerson? {
      PersonUpdateShape(w, e);
    } else {
      PeopleShape(w, e);
    }
  }

  lemma OthersKeepCampLog(w: World, e: Event)
    requires Admissions.PeopleBelow(w) && SerialEvent(e) && !e.CompleteTransfer?
    ensures Step(w, e).world.roster.campLog == w.roster.campLog
  {
    hide LateEffect, TransferEffect, ExpeditionEffect, RequestEffect, AdmissionEffect, PeopleEffect, StockEffect;
    if IsTransferEvent(e) {
      TransfersShape(w, e);
    } else if IsExpeditionEvent(e) {
      ExpeditionsShape(w, e);
    } else {
      PlainEventsShape(w, e);
    }
  }

  lemma OthersKeepAdmissions(w: World, e: Event)
    requires Admissions.PeopleBelow(w) && !IsAdmissionEvent(e)
    ensures Step(w, e).world.admissions == w.admissions
  {
    hide LateEffect, TransferEffect, ExpeditionEffect, RequestEffect, AdmissionEffect, PeopleEffect, StockEffect;
    if WritesOf(w, e).Some? {
      ChecksFirst(w, e);
      LateFrame(w, WritesOf(w, e).value);
    } else if e.FileRequest? {
      FilingShape(w, e);
    } else if IsStockEvent(e) {
      StockShape(w, e);
    } else if e.AddPerson? {
      JoiningShape(w, e);
    } else {
      PeopleShape(w, e);
    }
  }

  // ---------------------------------------------------------------------------------------------
  // The ledger
  // ---------------------------------------------------------------------------------------------

  lemma StepKeepsRequestsPositive(w: World, e: Event)
    requires RequestsPositive(w) && IdsBelow(w)
    ensures RequestsPositive(Step(w, e).world)
  {
    hide LateEffect, TransferEffect, ExpeditionEffect, RequestEffect, AdmissionEffect, PeopleEffect, StockEffect;
    if WritesOf(w, e).Some? {
      ChecksFirst(w, e);
      LateFrame(w, WritesOf(w, e).value);
    } else if e.FileRequest? {
      FilingShape(w, e);
    } else {
      OthersKeepRequests(w, e);
    }
  }

  lemma StepKeepsBalance(opening: map<Slot, int>, w: World, e: Event)
    requires Balanced(opening, w.books) && RequestsPositive(w) && IdsBelow(w)
    ensures Balanced(opening, Step(w, e).world.books)
    ensures w.books.log <= Step(w, e).world.books.log
  {
    hide LateEffect, LateRows, TransferEffect, ExpeditionEffect, RequestEffect, AdmissionEffect, PeopleEffect, StockEffect;
    StepPosts(w, e);
    forall s: Slot ensures Have(w.books.stock, s) + Net(Posted(w, e), s) >= 0 {
      NothingOverdrawn(w, e, s);
    }
    PostKeepsBalance(opening, w.books, Posted(w, e));
    PostEffect(w.books, Posted(w, e), Slot(0, 0));
  }

  /**
    In every reachable state of any interleaving, overtaken checks of every service and stale stock
    readings included, no stock is negative and every slot is its opening balance plus its logged
    changes; the log only grows.
  */
  lemma {:induction false} LedgerAlwaysBalances(opening: map<Slot, int>, w: World, run: seq<Event>)
    requires Balanced(opening, w.books) && RequestsPositive(w) && IdsBelow(w)
    ensures Balanced(opening, Trace(w, run).books)
    ensures w.books.log <= Trace(w, run).books.log
    ensures RequestsPositive(Trace(w, run)) && IdsBelow(Trace(w, run))
  {
    if run != [] {
      var before := Trace(w, run[..|run| - 1]);
      LedgerAlwaysBalances(opening, w, run[..|run| - 1]);
      StepKeepsBalance(opening, before, run[|run| - 1]);
      StepKeepsRequestsPositive(before, run[|run| - 1]);
      StepKeepsIdsBelow(before, run[|run| - 1]);
    }
  }

  // ---------------------------------------------------------------------------------------------
  // Ration jobs acting on a stale reading
  // ---------------------------------------------------------------------------------------------

  /**
    A ration job whose reading went stale consumes all it planned or nothing, and it can be refused
    only if somebody took stock out in between.
  */
  lemma StaleRationIsAllOrNothing(w: World, job: int)
    requires job in w.plans
    ensures var p, r := w.plans[job], ConsumePlan(w, job);
            var slot, k := Slot(p.camp, p.resource), Rations.Min(Rations.Portions(p.seen, p.need), p.headCount);
            && (r.outcome.Refused? ==> r.world == w)
            && (r.outcome.Done? ==> Have(r.world.books.stock, slot) == Have(w.books.stock, slot) - p.need * k)
            && (p.headCount > 0 && slot in w.books.stock && p.seen.Some? && w.books.stock[slot] >= p.seen.value ==> r.outcome.Done?)
  {
    var p := w.plans[job];
    Rations.NeverOverdraws(p.seen, p.need, p.headCount);
    var portions := Rations.Portions(p.seen, p.need);
    if portions > 0 {
      var m := Movement(Slot(p.camp, p.resource), DailyRation, -(p.need * Rations.Min(portions, p.headCount)));
      PostOne(w.books, m);
    }
  }

  // ---------------------------------------------------------------------------------------------
  // Adjustment requests
  // ---------------------------------------------------------------------------------------------

  /** The log holds each approved request exactly once, and nothing for any other. */
  ghost predicate RequestsBooked(log: seq<Movement>, requests: map<int, Request>) {
    forall id: int, s: Slot :: NetOf(log, s, ApprovedRequest(id)) ==
      if id in requests && requests[id].status == APPROVED && s == Slot(requests[id].camp, requests[id].resource)
      then SignedQuantity(requests[id]) else 0
  }

  lemma PostedForRequest(w: World, e: Event, id: int, s: Slot)
    requires SerialEvent(e)
    ensures NetOf(Posted(w, e), s, ApprovedRequest(id)) ==
      if e.ApproveRequest? && e.request == id && Step(w, e).outcome.Done? && s == Slot(w.requests[id].camp, w.requests[id].resource)
      then SignedQuantity(w.requests[id]) else 0
  {
    hide LateRows, StockRows, LateEffect, TransferEffect, ExpeditionEffect, AdmissionEffect, PeopleEffect, StockEffect;
    PostedAmount(w, e, s, ApprovedRequest(id));
  }

  /** How one event may change a request row when requests are served one at a time. */
  predicate RequestEdge(w: World, e: Event, id: int, r: Response) {
    var v := r.world.requests;
    if id in w.requests then
      && id in v
      && v[id] == w.requests[id].(status := v[id].status)
      && (v[id].status != w.requests[id].status ==>
            && w.requests[id].status == AWAITING && r.outcome.Done?
            && (e.ApproveRequest? || e.DeclineRequest?) && e.request == id
            && e.user in w.users && w.users[e.user] == w.requests[id].camp
            && v[id].status == if e.ApproveRequest? then APPROVED else DECLINED)
      && (e.ApproveRequest? && e.request == id && r.outcome.Done? ==> w.requests[id].status == AWAITING && v[id].status == APPROVED)
    else
      && (id in v ==> v[id].status == AWAITING && e.FileRequest? && e.user in w.users && w.users[e.user] == v[id].camp)
      && (e.ApproveRequest? && e.request == id ==> r.outcome.Refused?)
  }

  lemma RequestEventEdge(w: World, e: Event, id: int)
    requires IdsBelow(w) && IsRequestEvent(e) && SerialEvent(e)
    ensures RequestEdge(w, e, id, RequestEffect(w, e))
  {}

  lemma RequestStep(w: World, e: Event, id: int)
    requires IdsBelow(w) && SerialEvent(e)
    ensures RequestEdge(w, e, id, Step(w, e))
  {
    if IsRequestEvent(e) { RequestEventEdge(w, e, id); } else { OthersKeepRequests(w, e); }
  }

  /** Over any serial run, a request moves stock exactly once if approved and never otherwise. */
  lemma {:induction false} RequestsPostOnce(w: World, run: seq<Event>)
    requires IdsBelow(w) && RequestsBooked(w.books.log, w.requests) && Serial(run)
    ensures IdsBelow(Trace(w, run)) && RequestsBooked(Trace(w, run).books.log, Trace(w, run).requests)
  {
    if run != [] {
      var front, e := run[..|run| - 1], run[|run| - 1];
      SerialFront(run);
      RequestsPostOnce(w, front);
      var b := Trace(w, front);
      StepKeepsIdsBelow(b, e);
      LogGrows(b, e);
      forall id: int, s: Slot
        ensures NetOf(Step(b, e).world.books.log, s, ApprovedRequest(id)) ==
          var v := Step(b, e).world.requests;
          if id in v && v[id].status == APPROVED && s == Slot(v[id].camp, v[id].resource) then SignedQuantity(v[id]) else 0
      {
        RequestStep(b, e, id);
        PostedForRequest(b, e, id, s);
        NetOfConcat(b.books.log, Posted(b, e), s, ApprovedRequest(id));
      }
    }
  }

  lemma LateApprovalPosts(w: World, id: int, other: int, s: Slot)
    requires CommitApproval(w, id).outcome.Done?
    ensures var v, r := CommitApproval(w, id).world, w.requests[id];
            && v.requests == w.requests[id := r.(status := APPROVED)]
            && NetOf(v.books.log, s, ApprovedRequest(other)) == NetOf(w.books.log, s, ApprovedRequest(other)) +
                 (if other == id && s == Slot(r.camp, r.resource) then SignedQuantity(r) else 0)
  {
    var r := w.requests[id];
    var m := Movement(Slot(r.camp, r.resource), ApprovedRequest(id), SignedQuantity(r));
    PostOne(w.books, m);
    OneRow(m.slot, m.origin, m.change, s, ApprovedRequest(other));
    NetOfConcat(w.books.log, [m], s, ApprovedRequest(other));
  }

  /**
    An approving transaction that runs on a status check made earlier keeps every request booked once
    exactly when the request has not been approved in between.
  */
  lemma LateApprovalBooksOnceIff(w: World, id: int)
    requires RequestsBooked(w.books.log, w.requests) && RequestsPositive(w) && CommitApproval(w, id).outcome.Done?
    ensures var v := CommitApproval(w, id).world;
            RequestsBooked(v.books.log, v.requests) <==> w.requests[id].status != APPROVED
  {
    var v, r := CommitApproval(w, id).world, w.requests[id];
    var slot := Slot(r.camp, r.resource);
    LateApprovalPosts(w, id, id, slot);
    assert SignedQuantity(r) != 0;
    if r.status == APPROVED {
      assert NetOf(v.books.log, slot, ApprovedRequest(id)) == 2 * SignedQuantity(r);
    } else {
      forall other: int, s: Slot
        ensures NetOf(v.books.log, s, ApprovedRequest(other)) ==
          if other in v.requests && v.requests[other].status == APPROVED && s == Slot(v.requests[other].camp, v.requests[other].resource)
          then SignedQuantity(v.requests[other]) else 0
      {
        LateApprovalPosts(w, id, other, s);
      }
    }
  }

  /**
    A declining write that goes through on an overtaken check keeps the requests and the log in agreement
    exactly when the request has not been approved in between.
  */
  lemma LateDeclineKeepsBooksIff(w: World, id: int)
    requires RequestsBooked(w.books.log, w.requests) && RequestsPositive(w) && CommitDecline(w, id).outcome.Done?
    ensures var v := CommitDecline(w, id).world;
            RequestsBooked(v.books.log, v.requests) <==> w.requests[id].status != APPROVED
  {
    var v, r := CommitDecline(w, id).world, w.requests[id];
    if r.status == APPROVED {
      var s := Slot(r.camp, r.resource);
      assert NetOf(w.books.log, s, ApprovedRequest(id)) == SignedQuantity(r) != 0;
    } else {
      forall other: int, s: Slot
        ensures NetOf(v.books.log, s, ApprovedRequest(other)) ==
          if other in v.requests && v.requests[other].status == APPROVED && s == Slot(v.requests[other].camp, v.requests[other].resource)
          then SignedQuantity(v.requests[other]) else 0
      {
        assert other != id ==> (other in v.requests <==> other in w.requests);
      }
    }
  }

  lemma TwoSteps(w: World, e: Event, f: Event)
    ensures Trace(w, [e, f]) == Step(Step(w, e).world, f).world
  {
    assert [e, f][..1] == [e] && [e][..0] == [];
    assert Trace(w, []) == w && Trace(w, [e]) == Step(w, e).world;
  }

  /** Two approvals whose checks both came first book the request twice. */
  lemma OvertakenApprovalPostsTwice(w: World, id: int, user: int)
    requires id in w.requests && w.requests[id] == Request(1, 1, true, 5, AWAITING)
    requires user in w.users && w.users[user] == 1
    requires NetOf(w.books.log, Slot(1, 1), ApprovedRequest(id)) == 0
    ensures ReviewCheck(w, id, user).Done?
    ensures var e := Late(LateApproval(id)); NetOf(Trace(w, [e, e]).books.log, Slot(1, 1), ApprovedRequest(id)) == 10
  {
    var e := Late(LateApproval(id));
    TwoSteps(w, e, e);
    LateApprovalPosts(w, id, id, Slot(1, 1));
    LateApprovalPosts(Step(w, e).world, id, id, Slot(1, 1));
  }
}
