/** What holds of every person's logs, and of every admission's link, over whole runs. */
module PeopleRuns {
  import opened Core
  import opened Ledger
  import opened Census
  import opened Tables
  import opened Transfers
  import opened Expeditions
  import opened LateWrites
  import opened Runs
  import opened TransferRuns
  import People
  import Admissions

  // ---------------------------------------------------------------------------------------------
  // Unbroken trails
  // ---------------------------------------------------------------------------------------------

  lemma NewcomersKeepChains(w: World, e: Event)
    requires IsAdmissionEvent(e) && IdsBelow(w)
    ensures HealthUnbroken(w.roster) ==> HealthUnbroken(AdmissionEffect(w, e).world.roster)
    ensures Unbroken(w.roster) ==> Unbroken(AdmissionEffect(w, e).world.roster)
  {
    AdmissionFrame(w, e);
    var r, s := w.roster, AdmissionEffect(w, e).world.roster;
    forall p | p in s.people && p in r.people ensures s.people[p] == r.people[p] {}
  }

  lemma PlainPeopleEventsKeepChains(w: World, e: Event)
    requires (e.AddPerson? || e.ChangeStatus? || e.MoveUser?) && IdsBelow(w)
    ensures HealthUnbroken(w.roster) ==> HealthUnbroken(PeopleEffect(w, e).world.roster)
    ensures Unbroken(w.roster) ==> Unbroken(PeopleEffect(w, e).world.roster)
  {
    if PeopleEffect(w, e).outcome.Done? {
      match e {
        case AddPerson(camp, d, draws) =>
          People.JoinKeepsChains(w, camp, d, People.ChooseCode(People.TakenCodes(w.roster.people), d.code, draws).value);
        case ChangeStatus(camp, id, health, user) => SetHealthKeepsChains(w.roster, map[id := health], ByHand);
        case _ =>
      }
    }
  }

  /** Events without late writes keep both kinds of trail. */
  lemma PlainEventsKeepTrails(w: World, e: Event)
    requires IdsBelow(w) && WritesOf(w, e).None?
    ensures HealthUnbroken(w.roster) ==> HealthUnbroken(Step(w, e).world.roster)
    ensures Unbroken(w.roster) ==> Unbroken(Step(w, e).world.roster)
  {
    hide LateEffect, HealthUnbroken, Unbroken, TransferEffect, ExpeditionEffect, RequestEffect, AdmissionEffect, PeopleEffect, StockEffect;
    if e.FileRequest? {
      FilingShape(w, e);
    } else if IsStockEvent(e) {
      StockShape(w, e);
    } else if IsAdmissionEvent(e) {
      NewcomersKeepChains(w, e);
    } else {
      PlainPeopleEventsKeepChains(w, e);
    }
  }

  lemma StepKeepsHealthTrails(w: World, e: Event)
    requires IdsBelow(w) && HealthUnbroken(w.roster)
    ensures HealthUnbroken(Step(w, e).world.roster)
  {
    hide LateEffect, HealthUnbroken, TransferEffect, ExpeditionEffect, RequestEffect, AdmissionEffect, PeopleEffect, StockEffect;
    if WritesOf(w, e).Some? {
      ChecksFirst(w, e);
      LateKeepsHealthTrails(w, WritesOf(w, e).value);
    } else {
      PlainEventsKeepTrails(w, e);
    }
  }

  /**
    Over any run whatever, overtaken checks included, every person's status log is a chain of real changes
    that ends at the current status.
  */
  lemma {:induction false} StatusTrailsStayUnbroken(w: World, run: seq<Event>)
    requires IdsBelow(w) && HealthUnbroken(w.roster)
    ensures IdsBelow(Trace(w, run)) && HealthUnbroken(Trace(w, run).roster)
  {
    if run != [] {
      var before, e := Trace(w, run[..|run| - 1]), run[|run| - 1];
      StatusTrailsStayUnbroken(w, run[..|run| - 1]);
      StepKeepsIdsBelow(before, e);
      StepKeepsHealthTrails(before, e);
    }
  }

  ghost predicate TwoCamps(w: World) {
    forall t | t in w.transfers :: w.transfers[t].requesting != w.transfers[t].target
  }

  lemma StepKeepsTwoCamps(w: World, e: Event)
    requires IdsBelow(w) && TwoCamps(w)
    ensures TwoCamps(Step(w, e).world)
  {
    hide LateEffect, TransferEffect, ExpeditionEffect, RequestEffect, AdmissionEffect, PeopleEffect, StockEffect;
    if WritesOf(w, e).Some? {
      ChecksFirst(w, e);
      LateKeepsTwoCamps(w, WritesOf(w, e).value);
    } else {
      OthersKeepTransfers(w, e);
    }
  }

  predicate IsLatePersonUpdate(e: Event) {
    e.Late? && e.write.LatePersonUpdate?
  }

  lemma PersonUpdateKeepsTrails(w: World, e: Event)
    requires e.UpdatePerson? && Unbroken(w.roster)
    ensures Unbroken(PeopleEffect(w, e).world.roster)
  {
    if PeopleEffect(w, e).outcome.Done? {
      People.StaleUpdateKeepsCampChainIff(w, e.camp, e.person, e.change, e.user);
    }
  }

  lemma StepKeepsTrails(w: World, e: Event)
    requires IdsBelow(w) && TwoCamps(w) && Unbroken(w.roster) && !IsLatePersonUpdate(e)
    ensures Unbroken(Step(w, e).world.roster)
  {
    hide LateEffect, Unbroken, TransferEffect, ExpeditionEffect, RequestEffect, AdmissionEffect, PeopleEffect, StockEffect;
    if e.UpdatePerson? {
      PersonUpdateKeepsTrails(w, e);
    } else if WritesOf(w, e).Some? {
      ChecksFirst(w, e);
      LateKeepsTrails(w, WritesOf(w, e).value);
    } else {
      PlainEventsKeepTrails(w, e);
    }
  }

  /**
    Camp logs as well, over any run in which no person update goes through on an overtaken camp check;
    every other check may be overtaken.
  */
  lemma {:induction false} TrailsStayUnbroken(w: World, run: seq<Event>)
    requires IdsBelow(w) && TwoCamps(w) && Unbroken(w.roster)
    requires forall e | e in run :: !IsLatePersonUpdate(e)
    ensures IdsBelow(Trace(w, run)) && TwoCamps(Trace(w, run)) && Unbroken(Trace(w, run).roster)
  {
    if run != [] {
      var front, e := run[..|run| - 1], run[|run| - 1];
      assert e in run && forall x | x in front :: x in run;
      var before := Trace(w, front);
      TrailsStayUnbroken(w, front);
      StepKeepsIdsBelow(before, e);
      StepKeepsTwoCamps(before, e);
      StepKeepsTrails(before, e);
    }
  }

  // ---------------------------------------------------------------------------------------------
  // A transfer moves its people once
  // ---------------------------------------------------------------------------------------------

  predicate Carried(transfers: map<int, Transfer>, id: int, p: int) {
    id in transfers && transfers[id].status == COMPLETED && p in PersonIds(transfers[id].items)
  }

  /** The rows of one person's camp log are exactly the completed transfers that list the person, each once. */
  ghost predicate Travelled(trail: seq<Change<int>>, transfers: map<int, Transfer>, p: int) {
    && (forall i | 0 <= i < |trail| ::
          && trail[i].cause.ByTransfer? && Carried(transfers, trail[i].cause.transfer, p)
          && trail[i].before == transfers[trail[i].cause.transfer].requesting
          && trail[i].after == transfers[trail[i].cause.transfer].target)
    && (forall i, j | 0 <= i < j < |trail| :: trail[i].cause != trail[j].cause)
    && (forall id | Carried(transfers, id, p) :: exists i :: 0 <= i < |trail| && trail[i].cause == ByTransfer(id))
  }

  ghost predicate MovedOnce(w: World, p: int) {
    Travelled(LogOf(w.roster.campLog, p), w.transfers, p)
  }

  ghost predicate PeopleMovedOnce(w: World) {
    forall p: int :: MovedOnce(w, p)
  }

  lemma CompletionCampLog(w: World, e: Event, p: int)
    requires e.CompleteTransfer?
    ensures var before, after := LogOf(w.roster.campLog, p), LogOf(Step(w, e).world.roster.campLog, p);
            if Step(w, e).outcome.Done? && p in PersonIds(w.transfers[e.transfer].items) then
              var t := w.transfers[e.transfer];
              after == before + [Change(t.requesting, t.target, ByTransfer(e.transfer))]
            else after == before
  {}

  lemma CampLogStep(w: World, e: Event, p: int)
    requires IdsBelow(w) && SerialEvent(e)
    ensures var before, after := LogOf(w.roster.campLog, p), LogOf(Step(w, e).world.roster.campLog, p);
            if e.CompleteTransfer? && Step(w, e).outcome.Done? && p in PersonIds(w.transfers[e.transfer].items) then
              var t := w.transfers[e.transfer];
              after == before + [Change(t.requesting, t.target, ByTransfer(e.transfer))]
            else after == before
  {
    hide Step, PersonIds, LogOf;
    if e.CompleteTransfer? { CompletionCampLog(w, e, p); } else { OthersKeepCampLog(w, e); }
  }

  lemma CarriedStep(w: World, e: Event, id: int, p: int)
    requires IdsBelow(w) && SerialEvent(e)
    ensures Carried(Step(w, e).world.transfers, id, p) <==>
            Carried(w.transfers, id, p)
            || (e.CompleteTransfer? && e.transfer == id && Step(w, e).outcome.Done? && p in PersonIds(w.transfers[id].items))
    ensures id in w.transfers ==>
              && id in Step(w, e).world.transfers
              && Step(w, e).world.transfers[id].requesting == w.transfers[id].requesting
              && Step(w, e).world.transfers[id].target == w.transfers[id].target
  {
    hide Step, IdsBelow, PersonIds;
    TransferStep(w, e, id);
  }

  lemma TravelledLonger(trail: seq<Change<int>>, before: map<int, Transfer>, after: map<int, Transfer>, p: int, id: int)
    requires Travelled(trail, before, p)
    requires !Carried(before, id, p) && Carried(after, id, p)
    requires forall t | t in before :: t in after && after[t].requesting == before[t].requesting && after[t].target == before[t].target
    requires forall t :: Carried(after, t, p) <==> Carried(before, t, p) || t == id
    ensures Travelled(trail + [Change(after[id].requesting, after[id].target, ByTransfer(id))], after, p)
  {
    var longer := trail + [Change(after[id].requesting, after[id].target, ByTransfer(id))];
    forall t | Carried(after, t, p) ensures exists i :: 0 <= i < |longer| && longer[i].cause == ByTransfer(t) {
      if t == id {
        assert longer[|trail|].cause == ByTransfer(id);
      } else {
        var i :| 0 <= i < |trail| && trail[i].cause == ByTransfer(t);
        assert longer[i].cause == ByTransfer(t);
      }
    }
  }

  lemma StepKeepsTravelled(w: World, e: Event, p: int)
    requires IdsBelow(w) && SerialEvent(e) && Travelled(LogOf(w.roster.campLog, p), w.transfers, p)
    ensures Travelled(LogOf(Step(w, e).world.roster.campLog, p), Step(w, e).world.transfers, p)
  {
    CampLogStep(w, e, p);
    var after := Step(w, e).world.transfers;
    forall t: int
      ensures Carried(after, t, p) <==>
        Carried(w.transfers, t, p)
        || (e.CompleteTransfer? && e.transfer == t && Step(w, e).outcome.Done? && p in PersonIds(w.transfers[t].items))
      ensures t in w.transfers ==>
        t in after && after[t].requesting == w.transfers[t].requesting && after[t].target == w.transfers[t].target
    {
      CarriedStep(w, e, t, p);
    }
    if e.CompleteTransfer? && Step(w, e).outcome.Done? && p in PersonIds(w.transfers[e.transfer].items) {
      TravelledLonger(LogOf(w.roster.campLog, p), w.transfers, after, p, e.transfer);
    }
  }

  /** Over any serial run, a person is moved once by each completed transfer that lists them, and by nothing else. */
  lemma {:induction false} TransfersMovePeopleOnce(w: World, run: seq<Event>)
    requires IdsBelow(w) && PeopleMovedOnce(w) && Serial(run)
    ensures IdsBelow(Trace(w, run)) && PeopleMovedOnce(Trace(w, run))
  {
    if run != [] {
      var before, e := Trace(w, run[..|run| - 1]), run[|run| - 1];
      SerialFront(run);
      TransfersMovePeopleOnce(w, run[..|run| - 1]);
      StepKeepsIdsBelow(before, e);
      forall p: int ensures MovedOnce(Step(before, e).world, p) {
        assert MovedOnce(before, p);
        StepKeepsTravelled(before, e, p);
      }
    }
  }

  lemma LateCompletionMoves(w: World, id: int, arrival: Option<Health>, p: int)
    requires CommitCompletion(w, id, arrival).outcome.Done?
    ensures var v, t := CommitCompletion(w, id, arrival).world, w.transfers[id];
            && v.transfers == w.transfers[id := t.(status := COMPLETED)]
            && LogOf(v.roster.campLog, p) == LogOf(w.roster.campLog, p) +
                 (if p in PersonIds(t.items) then [Change(t.requesting, t.target, ByTransfer(id))] else [])
  {}

  /** The same for one trail: one more row for the transfer is right exactly when there was none. */
  lemma OneMoreMoveIff(trail: seq<Change<int>>, transfers: map<int, Transfer>, id: int, p: int)
    requires id in transfers && Travelled(trail, transfers, p)
    ensures var t := transfers[id];
            var after, row := transfers[id := t.(status := COMPLETED)], Change(t.requesting, t.target, ByTransfer(id));
            Travelled(trail + (if p in PersonIds(t.items) then [row] else []), after, p) <==>
            t.status != COMPLETED || p !in PersonIds(t.items)
  {
    var t := transfers[id];
    var after := transfers[id := t.(status := COMPLETED)];
    if p !in PersonIds(t.items) {
      assert trail + [] == trail;
      forall x: int ensures Carried(after, x, p) <==> Carried(transfers, x, p) {}
    } else if t.status != COMPLETED {
      TravelledLonger(trail, transfers, after, p, id);
    } else {
      MovedTwice(trail, transfers, after, id, p);
    }
  }

  /**
    A completion on a status read earlier keeps every person moved once by each completed transfer exactly
    when the transfer is not completed yet, or carries nobody.
  */
  lemma LateCompletionMovesOnceIff(w: World, id: int, arrival: Option<Health>)
    requires PeopleMovedOnce(w) && CommitCompletion(w, id, arrival).outcome.Done?
    ensures PeopleMovedOnce(CommitCompletion(w, id, arrival).world) <==>
            w.transfers[id].status != COMPLETED || PersonIds(w.transfers[id].items) == []
  {
    var v, t := CommitCompletion(w, id, arrival).world, w.transfers[id];
    forall p: int ensures MovedOnce(v, p) <==> t.status != COMPLETED || p !in PersonIds(t.items) {
      LateMoveIff(w, id, arrival, p);
    }
    if t.status == COMPLETED && PersonIds(t.items) != [] {
      assert !MovedOnce(v, PersonIds(t.items)[0]);
    }
  }

  /** Overwriting the status of a row, as late approvals and rejections do, unsays its moves under the same condition. */
  lemma LateStatusKeepsMovedIff(w: World, id: int, after: Transfer)
    requires PeopleMovedOnce(w) && id in w.transfers
    requires after.status != COMPLETED && after.items == w.transfers[id].items
    requires after.requesting == w.transfers[id].requesting && after.target == w.transfers[id].target
    ensures PeopleMovedOnce(w.(transfers := w.transfers[id := after])) <==>
            w.transfers[id].status != COMPLETED || PersonIds(w.transfers[id].items) == []
  {
    var t, v := w.transfers[id], w.(transfers := w.transfers[id := after]);
    if t.status == COMPLETED && PersonIds(t.items) != [] {
      MoveUnsaid(w, id, after, PersonIds(t.items)[0]);
      assert !MovedOnce(v, PersonIds(t.items)[0]);
    } else {
      forall p: int ensures MovedOnce(v, p) {
        assert MovedOnce(w, p);
        assert forall x :: Carried(v.transfers, x, p) <==> Carried(w.transfers, x, p);
      }
    }
  }

  lemma MoveUnsaid(w: World, id: int, after: Transfer, p: int)
    requires MovedOnce(w, p) && Carried(w.transfers, id, p) && after.status != COMPLETED
    ensures !MovedOnce(w.(transfers := w.transfers[id := after]), p)
  {
    var trail := LogOf(w.roster.campLog, p);
    var i :| 0 <= i < |trail| && trail[i].cause == ByTransfer(id);
    assert !Carried(w.transfers[id := after], trail[i].cause.transfer, p);
  }

  /** The three late writes that do so. */
  lemma LateApprovalsAndRejectionsUnsay(w: World, c: LateWrite)
    requires c.LateSourceApproval? || c.LateTargetApproval? || c.LateRejection?
    requires PeopleMovedOnce(w) && LateEffect(w, c).outcome.Done?
    ensures PeopleMovedOnce(LateEffect(w, c).world) <==>
            w.transfers[c.transfer].status != COMPLETED || PersonIds(w.transfers[c.transfer].items) == []
  {
    LateTransfersShape(w, c);
    var v := LateEffect(w, c).world;
    assert v == w.(transfers := w.transfers[c.transfer := v.transfers[c.transfer]]);
    LateStatusKeepsMovedIff(w, c.transfer, v.transfers[c.transfer]);
  }

  lemma LateMoveIff(w: World, id: int, arrival: Option<Health>, p: int)
    requires MovedOnce(w, p) && CommitCompletion(w, id, arrival).outcome.Done?
    ensures MovedOnce(CommitCompletion(w, id, arrival).world, p) <==>
            w.transfers[id].status != COMPLETED || p !in PersonIds(w.transfers[id].items)
  {
    LateCompletionMoves(w, id, arrival, p);
    OneMoreMoveIff(LogOf(w.roster.campLog, p), w.transfers, id, p);
  }

  lemma MovedTwice(trail: seq<Change<int>>, before: map<int, Transfer>, after: map<int, Transfer>, id: int, p: int)
    requires Travelled(trail, before, p) && Carried(before, id, p)
    ensures forall c: Change<int> | c.cause == ByTransfer(id) :: !Travelled(trail + [c], after, p)
  {
    var i :| 0 <= i < |trail| && trail[i].cause == ByTransfer(id);
    forall c: Change<int> | c.cause == ByTransfer(id) ensures !Travelled(trail + [c], after, p) {
      assert (trail + [c])[i].cause == (trail + [c])[|trail|].cause;
    }
  }

  // ---------------------------------------------------------------------------------------------
  // Admissions
  // ---------------------------------------------------------------------------------------------

  lemma OthersKeepLinks(w: World, e: Event)
    requires IdsBelow(w) && Admissions.Linked(w) && !IsAdmissionEvent(e)
    ensures Admissions.Linked(Step(w, e).world) && Admissions.LinksOnlyGrow(w, Step(w, e).world)
  {
    hide Step;
    StepGrows(w, e);
    OthersKeepAdmissions(w, e);
    MorePeopleKeepLinks(w, Step(w, e).world);
  }

  lemma MorePeopleKeepLinks(w: World, v: World)
    requires Admissions.Linked(w) && v.admissions == w.admissions && w.nextId <= v.nextId
    requires w.roster.people.Keys <= v.roster.people.Keys
    requires forall p | p in v.roster.people && p !in w.roster.people :: p < v.nextId
    ensures Admissions.Linked(v) && Admissions.LinksOnlyGrow(w, v)
  {}

  lemma StepKeepsLinks(w: World, e: Event)
    requires IdsBelow(w) && Admissions.Linked(w)
    ensures Admissions.Linked(Step(w, e).world) && Admissions.LinksOnlyGrow(w, Step(w, e).world)
  {
    if e.FileAdmission? {
      Admissions.ApplyKeepsLinks(w, e.camp, e.verdict);
    } else if e.ReviewAdmission? {
      Admissions.ReviewKeepsLinks(w, e.admission, e.accept, e.corrected);
    } else {
      OthersKeepLinks(w, e);
    }
  }

  /** Accepted admissions always have their person, nobody is shared, and a link once set never changes. */
  lemma {:induction false} LinksHoldForever(w: World, run: seq<Event>)
    requires IdsBelow(w) && Admissions.Linked(w)
    ensures IdsBelow(Trace(w, run)) && Admissions.Linked(Trace(w, run)) && Admissions.LinksOnlyGrow(w, Trace(w, run))
  {
    if run != [] {
      var before, e := Trace(w, run[..|run| - 1]), run[|run| - 1];
      LinksHoldForever(w, run[..|run| - 1]);
      StepKeepsIdsBelow(before, e);
      StepKeepsLinks(before, e);
    }
  }

  /** Event `e` works on admission `a`: it reviews it, or it is the event that files it. */
  predicate WorksOn(w: World, e: Event, a: int) {
    (e.ReviewAdmission? && e.admission == a) || (e.FileAdmission? && a == w.nextId)
  }

  ghost predicate CreatedAt(w: World, run: seq<Event>, i: nat, a: int, p: int) {
    && i < |run|
    && var before := Trace(w, run[..i]);
    && WorksOn(before, run[i], a) && p !in before.roster.people && p in Step(before, run[i]).world.roster.people
  }

  lemma ReviewedIsLinked(w: World, e: Event, p: int)
    requires e.ReviewAdmission? && p !in w.roster.people && p in Step(w, e).world.roster.people
    ensures e.admission in Step(w, e).world.admissions && Step(w, e).world.admissions[e.admission].person == Some(p)
  {
    var decided := Admissions.Decided(w, e.admission, e.accept);
    Admissions.EnrollEffect(decided, e.admission, Admissions.ProfessionFor(w.admissions[e.admission], e.corrected).value);
  }

  lemma CreatedIsLinked(w: World, e: Event, a: int, p: int)
    requires WorksOn(w, e, a) && p !in w.roster.people && p in Step(w, e).world.roster.people
    ensures a in Step(w, e).world.admissions && Step(w, e).world.admissions[a].person == Some(p)
  {
    match e {
      case FileAdmission(camp, v) => Admissions.ApplyShape(w, camp, v);
      case ReviewAdmission(id, accept, corrected) => ReviewedIsLinked(w, e, p);
    }
  }

  lemma LinkPersists(w: World, run: seq<Event>, n: nat, a: int, p: int)
    requires IdsBelow(w) && Admissions.Linked(w) && n <= |run|
    requires a in Trace(w, run[..n]).admissions && Trace(w, run[..n]).admissions[a].person == Some(p)
    ensures a in Trace(w, run).admissions && Trace(w, run).admissions[a].person == Some(p)
  {
    hide Step, Admissions.Linked, IdsBelow;
    LinksHoldForever(w, run[..n]);
    LinksHoldForever(Trace(w, run[..n]), run[n..]);
    TraceConcat(w, run[..n], run[n..]);
    assert run[..n] + run[n..] == run;
  }

  lemma CreatedStaysLinked(w: World, run: seq<Event>, i: nat, a: int, p: int)
    requires IdsBelow(w) && Admissions.Linked(w) && CreatedAt(w, run, i, a, p)
    ensures a in Trace(w, run).admissions && Trace(w, run).admissions[a].person == Some(p)
  {
    CreatedIsLinked(Trace(w, run[..i]), run[i], a, p);
    LinkPersists(w, run, i + 1, a, p) by {
      assert run[..i + 1][..i] == run[..i];
    }
  }

  /** However often its decision flips, an admission creates at most one person. */
  lemma OnePersonPerAdmission(w: World, run: seq<Event>, a: int, i: nat, p: int, j: nat, q: int)
    requires IdsBelow(w) && Admissions.Linked(w)
    requires CreatedAt(w, run, i, a, p) && CreatedAt(w, run, j, a, q)
    ensures p == q
  {
    CreatedStaysLinked(w, run, i, a, p);
    CreatedStaysLinked(w, run, j, a, q);
  }
}
