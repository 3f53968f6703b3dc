/**
  Decided requests, closed transfers and closed expeditions never change again. Requests served one at a
  time keep them by their checks; writes on overtaken checks keep them under a condition given here exactly.
*/
module ClosedRows {
  import opened Core
  import opened Ledger
  import opened Tables
  import opened Inventory
  import opened Transfers
  import opened Expeditions
  import opened LateWrites
  import opened Runs
  import opened TransferRuns
  import opened ExpeditionRuns

  predicate IsClosed(t: Transfer) {
    t.status in {COMPLETED, REJECTED}
  }

  predicate IsOver(x: Expedition) {
    x.status in {RETURNED, CANCELLED}
  }

  ghost predicate ClosedKept(w: World, v: World) {
    && (forall r | r in w.requests && w.requests[r].status != AWAITING :: r in v.requests && v.requests[r] == w.requests[r])
    && (forall t | t in w.transfers && IsClosed(w.transfers[t]) :: t in v.transfers && v.transfers[t] == w.transfers[t])
    && (forall x | x in w.expeditions && IsOver(w.expeditions[x]) :: x in v.expeditions && v.expeditions[x] == w.expeditions[x])
  }

  /** Does this update find all it would write on the expedition's rows already? */
  predicate WritesNothingNew(x: Expedition, d: StatusUpdate) {
    && d.status == x.status
    && (d.status == RETURNED ==>
          (forall r | r in Firsts(d.returned) :: r in x.returned) && (forall r | r in Firsts(d.found) :: r in x.found))
  }

  /** What the write finds at the moment it lands. */
  predicate Harmless(w: World, c: LateWrite) {
    match c
    case LateApproval(id) => id in w.requests ==> w.requests[id].status != DECLINED
    case LateDecline(id) => id in w.requests ==> w.requests[id].status != APPROVED
    case LateSchedule(id, date) => id in w.transfers && IsClosed(w.transfers[id]) ==> w.transfers[id].delivery == Some(date)
    case LateSourceApproval(id, _, _) => id in w.transfers ==> !IsClosed(w.transfers[id])
    case LateTargetApproval(id, _) => id in w.transfers ==> !IsClosed(w.transfers[id])
    case LateCompletion(id, _) => id in w.transfers ==> w.transfers[id].status != REJECTED
    case LateRejection(id) => id in w.transfers ==> w.transfers[id].status != COMPLETED
    case LateUpdate(id, d) => id in w.expeditions && IsOver(w.expeditions[id]) ==> WritesNothingNew(w.expeditions[id], d)
    case LateDeletion(id, _) => id in w.expeditions ==> w.expeditions[id].status != RETURNED
    case _ => true
  }

  lemma TotalsAlreadyThere(lines: seq<Line>, rows: map<int, int>)
    ensures Totals(lines) + rows == rows <==> forall r | r in Firsts(lines) :: r in rows
  {
    FirstsAreTheResources(lines);
    if Totals(lines) + rows == rows {
      forall r | r in Firsts(lines) ensures r in rows { assert r in (Totals(lines) + rows).Keys; }
    }
    if forall r | r in Firsts(lines) :: r in rows {
      assert (Totals(lines) + rows).Keys == rows.Keys;
    }
  }

  lemma ReviewKeepsClosedIff(w: World, c: LateWrite)
    requires (c.LateApproval? || c.LateDecline?) && LateEffect(w, c).outcome.Done?
    ensures ClosedKept(w, LateEffect(w, c).world) <==> Harmless(w, c)
  {
    hide IsClosed, IsOver;
    var v := LateEffect(w, c).world;
    LateReviewShape(w, c);
    assert v.requests == w.requests[c.request := w.requests[c.request].(status := if c.LateApproval? then APPROVED else DECLINED)];
  }

  lemma ClosedTransferRewritten(w: World, c: LateWrite)
    requires OnTransfers(c) && !c.LateProposal? && LateEffect(w, c).outcome.Done?
    ensures var v, t := LateEffect(w, c).world, w.transfers[c.transfer];
            && c.transfer in w.transfers && v.requests == w.requests && v.expeditions == w.expeditions
            && v.transfers == w.transfers[c.transfer := v.transfers[c.transfer]]
            && (IsClosed(t) ==> (v.transfers[c.transfer] == t <==> Harmless(w, c)))
  {
    if c.LateCompletion? {
      LateCompletionShape(w, c.transfer, c.arrival);
    } else {
      LateTransfersShape(w, c);
    }
  }

  lemma TransferWriteKeepsClosedIff(w: World, c: LateWrite)
    requires IdsBelow(w) && OnTransfers(c) && LateEffect(w, c).outcome.Done?
    ensures ClosedKept(w, LateEffect(w, c).world) <==> Harmless(w, c)
  {
    if c.LateProposal? {
      LateTransfersShape(w, c);
    } else {
      ClosedTransferRewritten(w, c);
      var id, v := c.transfer, LateEffect(w, c).world;
      if !IsClosed(w.transfers[id]) {
        assert Harmless(w, c);
      } else {
        assert ClosedKept(w, v) ==> v.transfers[id] == w.transfers[id];
      }
    }
  }

  lemma ClosedExpeditionRewritten(w: World, c: LateWrite)
    requires (c.LateUpdate? || c.LateDeletion?) && LateEffect(w, c).outcome.Done?
    ensures var v, x := LateEffect(w, c).world, w.expeditions[c.expedition];
            && c.expedition in w.expeditions && v.requests == w.requests && v.transfers == w.transfers
            && v.expeditions == w.expeditions[c.expedition := v.expeditions[c.expedition]]
            && (IsOver(x) ==> (v.expeditions[c.expedition] == x <==> Harmless(w, c)))
  {
    if c.LateUpdate? {
      LateUpdateShape(w, c.expedition, c.update);
      TotalsAlreadyThere(c.update.returned, w.expeditions[c.expedition].returned);
      TotalsAlreadyThere(c.update.found, w.expeditions[c.expedition].found);
    } else {
      LateDeletionShape(w, c.expedition, c.deletion);
    }
  }

  lemma ExpeditionWriteKeepsClosedIff(w: World, c: LateWrite)
    requires IdsBelow(w) && OnExpeditions(c) && LateEffect(w, c).outcome.Done?
    ensures ClosedKept(w, LateEffect(w, c).world) <==> Harmless(w, c)
  {
    if c.LateLaunch? {
      LateLaunchShape(w, c.outing);
    } else {
      ClosedExpeditionRewritten(w, c);
      var id, v := c.expedition, LateEffect(w, c).world;
      if !IsOver(w.expeditions[id]) {
        assert Harmless(w, c);
      } else {
        assert ClosedKept(w, v) ==> v.expeditions[id] == w.expeditions[id];
      }
    }
  }

  /** A write on an overtaken check leaves every decided or closed row as it is if and only if it lands harmlessly. */
  lemma LateWriteKeepsClosedIff(w: World, c: LateWrite)
    requires IdsBelow(w) && LateEffect(w, c).outcome.Done?
    ensures ClosedKept(w, LateEffect(w, c).world) <==> Harmless(w, c)
  {
    if OnTransfers(c) {
      TransferWriteKeepsClosedIff(w, c);
    } else if OnExpeditions(c) {
      ExpeditionWriteKeepsClosedIff(w, c);
    } else if c.LatePersonUpdate? {
      LatePersonShape(w, c.camp, c.person, c.change, c.user);
    } else {
      ReviewKeepsClosedIff(w, c);
    }
  }

  lemma SerialStepKeepsClosed(w: World, e: Event)
    requires IdsBelow(w) && SerialEvent(e)
    ensures ClosedKept(w, Step(w, e).world)
  {
    hide Step, IdsBelow;
    var v := Step(w, e).world;
    forall r | r in w.requests && w.requests[r].status != AWAITING ensures r in v.requests && v.requests[r] == w.requests[r] {
      RequestStep(w, e, r);
    }
    forall t | t in w.transfers && IsClosed(w.transfers[t]) ensures t in v.transfers && v.transfers[t] == w.transfers[t] {
      TransferStep(w, e, t);
    }
    forall x | x in w.expeditions && IsOver(w.expeditions[x]) ensures x in v.expeditions && v.expeditions[x] == w.expeditions[x] {
      ExpeditionStep(w, e, x);
    }
  }

  /** The late writes of a run all land harmlessly; its other events are free. */
  ghost predicate LandsHarmlessly(w: World, run: seq<Event>) {
    run == [] ||
    var front, e := run[..|run| - 1], run[|run| - 1];
    && LandsHarmlessly(w, front)
    && (e.Late? ==> Harmless(Trace(w, front), e.write))
  }

  lemma StepKeepsClosed(w: World, e: Event)
    requires IdsBelow(w) && (e.Late? ==> Harmless(w, e.write))
    ensures ClosedKept(w, Step(w, e).world)
  {
    hide LateEffect, Harmless, IdsBelow, ClosedKept;
    if !e.Late? {
      SerialStepKeepsClosed(w, e);
    } else if Step(w, e).outcome.Refused? {
      LateRefusal(w, e.write);
      KeptByNothing(w);
    } else {
      LateWriteKeepsClosedIff(w, e.write);
    }
  }

  lemma KeptByNothing(w: World)
    ensures ClosedKept(w, w)
  {}

  /** Over any run whose late writes land harmlessly, what is decided or closed stays as it is. */
  lemma {:induction false} ClosedRowsStay(w: World, run: seq<Event>)
    requires IdsBelow(w) && LandsHarmlessly(w, run)
    ensures IdsBelow(Trace(w, run)) && ClosedKept(w, Trace(w, run))
  {
    hide Step, IdsBelow, Harmless;
    if run != [] {
      var b, e := Trace(w, run[..|run| - 1]), run[|run| - 1];
      ClosedRowsStay(w, run[..|run| - 1]);
      StepKeepsIdsBelow(b, e);
      StepKeepsClosed(b, e);
    }
  }
}
