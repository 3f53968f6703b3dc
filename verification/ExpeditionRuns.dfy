/** What the expedition lifecycle guarantees over whole runs. */
module ExpeditionRuns {
  import opened Core
  import opened Ledger
  import opened Census
  import opened Tables
  import opened Transfers
  import opened Expeditions
  import opened LateWrites
  import opened Runs

  // ---------------------------------------------------------------------------------------------
  // One step
  // ---------------------------------------------------------------------------------------------

  /** The only ways an expedition row may change when requests are served one at a time. */
  predicate Edge(e: Event, id: int, x: Expedition, after: Expedition) {
    || after == x
    || (e.UpdateExpedition? && e.expedition == id && Allowed(x.status, e.update.status)
        && WellFormed(e.update) && CommitOutcome(x, e.update).Done? && after == ArrivedRow(x, e.update))
    || (e.DeleteExpedition? && e.expedition == id && x.status !in {RETURNED, CANCELLED} && after == x.(status := CANCELLED))
  }

  /** Everybody who sets out is at the camp and HEALTHY. */
  predicate MembersReady(w: World, x: Expedition) {
    forall m | m in x.members :: m in w.roster.people && w.roster.people[m].camp == x.camp && w.roster.people[m].health == HEALTHY
  }

  lemma ExpeditionStep(w: World, e: Event, id: int)
    requires IdsBelow(w) && SerialEvent(e)
    ensures var v := Step(w, e).world.expeditions;
            && (id in w.expeditions ==> id in v && Edge(e, id, w.expeditions[id], v[id]))
            && (id !in w.expeditions && id in v ==>
                  e.LaunchExpedition? && id == w.nextId && Step(w, e).outcome.Done?
                  && v[id].camp == e.outing.camp && v[id].allotted == Totals(e.outing.allotted)
                  && v[id].returned == map[] && v[id].found == map[] && v[id].status in {PLANNED, ONGOING}
                  && MembersReady(w, v[id]))
  {
    hide LateEffect, TransferEffect, RequestEffect, AdmissionEffect, PeopleEffect, StockEffect, Covers, Outflow, SetHealth;
    if !IsExpeditionEvent(e) { OthersKeepExpeditions(w, e); }
  }

  /** Returned and cancelled expeditions never change again. */
  lemma {:induction false} ClosedExpeditionsStayClosed(w: World, run: seq<Event>, id: int)
    requires IdsBelow(w) && Serial(run)
    requires id in w.expeditions && w.expeditions[id].status in {RETURNED, CANCELLED}
    ensures IdsBelow(Trace(w, run))
    ensures id in Trace(w, run).expeditions && Trace(w, run).expeditions[id] == w.expeditions[id]
  {
    if run != [] {
      var front, e := run[..|run| - 1], run[|run| - 1];
      SerialFront(run);
      ClosedExpeditionsStayClosed(w, front, id);
      StepKeepsIdsBelow(Trace(w, front), e);
      ExpeditionStep(Trace(w, front), e, id);
    }
  }

  // ---------------------------------------------------------------------------------------------
  // The books of an expedition
  // ---------------------------------------------------------------------------------------------

  function AmountIn(rows: map<int, int>, resource: int): int {
    if resource in rows then rows[resource] else 0
  }

  /** Only a returned expedition has return rows, and none of them exceeds its allotment. */
  predicate RowSound(x: Expedition) {
    && (x.status != RETURNED ==> x.returned == map[] && x.found == map[])
    && (forall r | r in x.returned :: r in x.allotted && x.returned[r] <= x.allotted[r])
  }

  predicate RowsSound(w: World) {
    forall x | x in w.expeditions :: RowSound(w.expeditions[x])
  }

  /** The log agrees with an expedition's rows: allotment out, return and finds in, at its camp and nowhere else. */
  predicate AccountedFor(log: seq<Movement>, xs: map<int, Expedition>, id: int, s: Slot) {
    var here := id in xs && xs[id].camp == s.camp;
    && NetOf(log, s, ExpeditionOut(id)) == (if here then -AmountIn(xs[id].allotted, s.resource) else 0)
    && NetOf(log, s, ExpeditionReturn(id)) == (if here then AmountIn(xs[id].returned, s.resource) else 0)
    && NetOf(log, s, ExpeditionFound(id)) == (if here then AmountIn(xs[id].found, s.resource) else 0)
  }

  ghost predicate Accounted(w: World) {
    forall id: int, s: Slot :: AccountedFor(w.books.log, w.expeditions, id, s)
  }

  lemma TotalsHold(lines: seq<Line>, resource: int)
    ensures AmountIn(Totals(lines), resource) == SumFor(lines, resource)
  {
    FirstsAreTheResources(lines);
  }

  predicate MovesSupplies(e: Event) {
    e.LaunchExpedition? || e.UpdateExpedition?
  }

  /** Other serial events post nothing under an expedition. */
  lemma NothingPosted(w: World, e: Event, s: Slot, o: Origin)
    requires o.ExpeditionOut? || o.ExpeditionReturn? || o.ExpeditionFound?
    requires SerialEvent(e) && (MovesSupplies(e) ==> Step(w, e).outcome.Refused?)
    ensures NetOf(Posted(w, e), s, o) == 0
  {
    hide LateRows, StockRows, LateEffect, TransferEffect, ExpeditionEffect, RequestEffect, AdmissionEffect, PeopleEffect, StockEffect;
    PostedAmount(w, e, s, o);
  }

  lemma LogExtends(log: seq<Movement>, more: seq<Movement>, id: int, s: Slot)
    ensures NetOf(log + more, s, ExpeditionOut(id)) == NetOf(log, s, ExpeditionOut(id)) + NetOf(more, s, ExpeditionOut(id))
    ensures NetOf(log + more, s, ExpeditionReturn(id)) == NetOf(log, s, ExpeditionReturn(id)) + NetOf(more, s, ExpeditionReturn(id))
    ensures NetOf(log + more, s, ExpeditionFound(id)) == NetOf(log, s, ExpeditionFound(id)) + NetOf(more, s, ExpeditionFound(id))
  {
    NetOfConcat(log, more, s, ExpeditionOut(id));
    NetOfConcat(log, more, s, ExpeditionReturn(id));
    NetOfConcat(log, more, s, ExpeditionFound(id));
  }

  lemma LaunchKeepsAccounts(w: World, d: Outing, id: int, s: Slot)
    requires IdsBelow(w) && AccountedFor(w.books.log, w.expeditions, id, s) && Launch(w, d).outcome.Done?
    ensures AccountedFor(w.books.log + Outflow(d.allotted, d.camp, ExpeditionOut(w.nextId)), Launch(w, d).world.expeditions, id, s)
  {
    var more := Outflow(d.allotted, d.camp, ExpeditionOut(w.nextId));
    LogExtends(w.books.log, more, id, s);
    FlowNet(d.allotted, d.camp, ExpeditionOut(w.nextId), s, ExpeditionOut(id));
    FlowNet(d.allotted, d.camp, ExpeditionOut(w.nextId), s, ExpeditionReturn(id));
    FlowNet(d.allotted, d.camp, ExpeditionOut(w.nextId), s, ExpeditionFound(id));
    TotalsHold(d.allotted, s.resource);
  }

  /** Nothing being credited now was credited to this expedition before. */
  predicate CreditsAreNew(x: Expedition, d: StatusUpdate) {
    d.status == RETURNED ==>
      (forall r | r in Firsts(d.returned) :: r !in x.returned) && (forall r | r in Firsts(d.found) :: r !in x.found)
  }

  /** What the committing transaction adds to the log for one slot, beside what it adds to the rows. */
  lemma CommitKeepsAccountsAt(w: World, x: int, d: StatusUpdate, id: int, s: Slot)
    requires AccountedFor(w.books.log, w.expeditions, id, s)
    requires WellFormed(d) && CommitUpdate(w, x, d).outcome.Done?
    ensures AccountedFor(w.books.log + ReturnFlow(w.expeditions[x].camp, x, d), CommitUpdate(w, x, d).world.expeditions, id, s) <==>
            !(&& id == x && d.status == RETURNED && w.expeditions[x].camp == s.camp
              && ((s.resource in Firsts(d.returned) && s.resource in w.expeditions[x].returned)
                  || (s.resource in Firsts(d.found) && s.resource in w.expeditions[x].found)))
  {
    var camp := w.expeditions[x].camp;
    hide ReturnFlow, NetOf, Totals, SumFor, Positive, Firsts;
    LogExtends(w.books.log, ReturnFlow(camp, x, d), id, s);
    ReturnFlowNet(camp, x, d, s, ExpeditionOut(id));
    ReturnFlowNet(camp, x, d, s, ExpeditionReturn(id));
    ReturnFlowNet(camp, x, d, s, ExpeditionFound(id));
    CreditAmount(d.returned, w.expeditions[x].returned, s.resource);
    CreditAmount(d.found, w.expeditions[x].found, s.resource);
  }

  lemma CreditAmount(lines: seq<Line>, rows: map<int, int>, resource: int)
    requires Positive(lines)
    ensures AmountIn(Totals(lines) + rows, resource) == AmountIn(rows, resource) + (if resource in rows then 0 else SumFor(lines, resource))
    ensures SumFor(lines, resource) != 0 <==> resource in Firsts(lines)
  {
    PositiveSums(lines, resource);
    FirstsAreTheResources(lines);
  }

  /**
    Committing a status update on a status check made earlier keeps log and rows in agreement exactly
    when it credits nothing that this expedition was credited with before: rows already there win, but
    the stock is raised again.
  */
  lemma CommitKeepsAccountsIff(w: World, x: int, d: StatusUpdate)
    requires Accounted(w) && WellFormed(d) && CommitUpdate(w, x, d).outcome.Done?
    ensures Accounted(CommitUpdate(w, x, d).world) <==> CreditsAreNew(w.expeditions[x], d)
  {
    var v, flow := CommitUpdate(w, x, d).world, ReturnFlow(w.expeditions[x].camp, x, d);
    PostEffect(w.books, flow, Slot(0, 0));
    assert v.books.log == w.books.log + flow;
    if CreditsAreNew(w.expeditions[x], d) {
      forall id: int, s: Slot ensures AccountedFor(v.books.log, v.expeditions, id, s) {
        assert AccountedFor(w.books.log, w.expeditions, id, s);
        CommitKeepsAccountsAt(w, x, d, id, s);
      }
    } else {
      var r :| (r in Firsts(d.returned) && r in w.expeditions[x].returned) || (r in Firsts(d.found) && r in w.expeditions[x].found);
      var s := Slot(w.expeditions[x].camp, r);
      assert AccountedFor(w.books.log, w.expeditions, x, s);
      CommitKeepsAccountsAt(w, x, d, x, s);
      assert !AccountedFor(v.books.log, v.expeditions, x, s);
    }
  }

  lemma OtherEventsKeepAccounts(w: World, e: Event, id: int, s: Slot)
    requires IdsBelow(w) && AccountedFor(w.books.log, w.expeditions, id, s)
    requires SerialEvent(e) && (MovesSupplies(e) ==> Step(w, e).outcome.Refused?)
    ensures AccountedFor(w.books.log + Posted(w, e), Step(w, e).world.expeditions, id, s)
  {
    LogExtends(w.books.log, Posted(w, e), id, s);
    NothingPosted(w, e, s, ExpeditionOut(id));
    NothingPosted(w, e, s, ExpeditionReturn(id));
    NothingPosted(w, e, s, ExpeditionFound(id));
    ExpeditionStep(w, e, id);
  }

  lemma StepKeepsAccounts(w: World, e: Event)
    requires IdsBelow(w) && RowsSound(w) && Accounted(w) && SerialEvent(e)
    ensures Accounted(Step(w, e).world)
  {
    hide LateEffect, TransferEffect, RequestEffect, AdmissionEffect, PeopleEffect, StockEffect, AccountedFor;
    LogGrows(w, e);
    var v := Step(w, e).world;
    if e.UpdateExpedition? && Step(w, e).outcome.Done? {
      assert RowSound(w.expeditions[e.expedition]);
      CommitKeepsAccountsIff(w, e.expedition, e.update);
    } else {
      forall id: int, s: Slot ensures AccountedFor(v.books.log, v.expeditions, id, s) {
        assert AccountedFor(w.books.log, w.expeditions, id, s);
        if e.LaunchExpedition? && Step(w, e).outcome.Done? {
          LaunchKeepsAccounts(w, e.outing, id, s);
        } else {
          OtherEventsKeepAccounts(w, e, id, s);
        }
      }
    }
  }

  lemma EdgeKeepsRowSound(e: Event, id: int, x: Expedition, after: Expedition)
    requires RowSound(x) && Edge(e, id, x, after)
    ensures RowSound(after)
  {
    if after != x && e.UpdateExpedition? && e.update.status == RETURNED {
      assert Totals(e.update.returned) + x.returned == Totals(e.update.returned);
      assert WithinAllotment(x, Firsts(e.update.returned), e.update.returned);
    }
  }

  lemma StepKeepsRowsSound(w: World, e: Event)
    requires IdsBelow(w) && RowsSound(w) && SerialEvent(e)
    ensures RowsSound(Step(w, e).world)
  {
    var v := Step(w, e).world.expeditions;
    forall id | id in v ensures RowSound(v[id]) {
      ExpeditionStep(w, e, id);
      if id in w.expeditions { EdgeKeepsRowSound(e, id, w.expeditions[id], v[id]); }
    }
  }

  /**
    A deletion on a status check made earlier never touches the books, but a row that returned in between
    keeps credits a cancelled row should not have: the rows stay sound exactly when it has none.
  */
  lemma LateDeletionKeepsRowsIff(w: World, x: int, d: Deletion)
    requires RowsSound(w) && Accounted(w) && CommitDeletion(w, x, d).outcome.Done?
    ensures var v := CommitDeletion(w, x, d).world;
            && Accounted(v)
            && (RowsSound(v) <==> w.expeditions[x].returned == map[] && w.expeditions[x].found == map[])
  {
    var v := CommitDeletion(w, x, d).world;
    assert RowSound(w.expeditions[x]);
    forall id: int, s: Slot ensures AccountedFor(v.books.log, v.expeditions, id, s) {
      assert AccountedFor(w.books.log, w.expeditions, id, s);
    }
    forall id | id in v.expeditions && id != x ensures RowSound(v.expeditions[id]) { assert RowSound(w.expeditions[id]); }
    if w.expeditions[x].returned != map[] || w.expeditions[x].found != map[] {
      assert !RowSound(v.expeditions[x]);
    }
  }

  /**
    A status update on a check made earlier leaves sound rows exactly when it returns the expedition or the
    expedition has no credits: any other status written over a return keeps credits it should not have.
  */
  lemma LateUpdateKeepsRowsIff(w: World, x: int, d: StatusUpdate)
    requires RowsSound(w) && WellFormed(d) && CommitUpdate(w, x, d).outcome.Done?
    ensures RowsSound(CommitUpdate(w, x, d).world) <==>
            d.status == RETURNED || (w.expeditions[x].returned == map[] && w.expeditions[x].found == map[])
  {
    var v := CommitUpdate(w, x, d).world;
    assert RowSound(w.expeditions[x]);
    forall id | id in v.expeditions && id != x ensures RowSound(v.expeditions[id]) { assert RowSound(w.expeditions[id]); }
    if d.status == RETURNED {
      TotalsWithin(w.expeditions[x], d.returned);
      assert RowSound(v.expeditions[x]);
    } else {
      assert v.expeditions[x] == w.expeditions[x].(status := d.status);
      assert RowsSound(v) ==> RowSound(v.expeditions[x]);
    }
  }

  lemma TotalsWithin(x: Expedition, returned: seq<Line>)
    requires WithinAllotment(x, Firsts(returned), returned) && RowSound(x)
    ensures forall r | r in Totals(returned) + x.returned :: r in x.allotted && (Totals(returned) + x.returned)[r] <= x.allotted[r]
  {
    FirstsAreTheResources(returned);
  }

  /**
    Over any serial run the log holds, for every expedition and resource, the allotment going out once,
    the return coming in at most once and never above the allotment, and the finds coming in at most once.
  */
  lemma {:induction false} ExpeditionsAreAccountedFor(w: World, run: seq<Event>)
    requires IdsBelow(w) && RowsSound(w) && Accounted(w) && Serial(run)
    ensures IdsBelow(Trace(w, run)) && RowsSound(Trace(w, run)) && Accounted(Trace(w, run))
  {
    if run != [] {
      var front, e := run[..|run| - 1], run[|run| - 1];
      SerialFront(run);
      ExpeditionsAreAccountedFor(w, front);
      StepKeepsIdsBelow(Trace(w, front), e);
      StepKeepsRowsSound(Trace(w, front), e);
      StepKeepsAccounts(Trace(w, front), e);
    }
  }

  /** An expedition's whole effect on the stock of its camp. */
  function NetEffect(log: seq<Movement>, id: int, s: Slot): int {
    NetOf(log, s, ExpeditionOut(id)) + NetOf(log, s, ExpeditionReturn(id)) + NetOf(log, s, ExpeditionFound(id))
  }

  lemma NetEffectAt(v: World, id: int, s: Slot)
    requires RowsSound(v) && Accounted(v) && id in v.expeditions
    ensures var x := v.expeditions[id];
            && NetEffect(v.books.log, id, s) ==
               (if s.camp != x.camp then 0
                else -AmountIn(x.allotted, s.resource) + AmountIn(x.returned, s.resource) + AmountIn(x.found, s.resource))
            && (x.status != RETURNED ==> AmountIn(x.returned, s.resource) == AmountIn(x.found, s.resource) == 0)
            && (s.resource in x.returned ==> AmountIn(x.returned, s.resource) <= AmountIn(x.allotted, s.resource))
  {
    assert RowSound(v.expeditions[id]);
    assert AccountedFor(v.books.log, v.expeditions, id, s);
  }

  /**
    Over any serial run: minus the allotment, plus what came back, plus what was found, at the expedition's
    camp only; nothing comes back unless it returned, so cancelling gives nothing back.
  */
  lemma NetEffectOfAnExpedition(w: World, run: seq<Event>, id: int, s: Slot)
    requires IdsBelow(w) && RowsSound(w) && Accounted(w) && Serial(run)
    requires id in Trace(w, run).expeditions
    ensures var v := Trace(w, run);
            var x := v.expeditions[id];
            && NetEffect(v.books.log, id, s) ==
               (if s.camp != x.camp then 0
                else -AmountIn(x.allotted, s.resource) + AmountIn(x.returned, s.resource) + AmountIn(x.found, s.resource))
            && (x.status != RETURNED ==> AmountIn(x.returned, s.resource) == AmountIn(x.found, s.resource) == 0)
            && (s.resource in x.returned ==> AmountIn(x.returned, s.resource) <= AmountIn(x.allotted, s.resource))
  {
    ExpeditionsAreAccountedFor(w, run);
    NetEffectAt(Trace(w, run), id, s);
  }

  // ---------------------------------------------------------------------------------------------
  // The return happens once, from ONGOING
  // ---------------------------------------------------------------------------------------------

  ghost predicate ReturnedAt(w: World, run: seq<Event>, i: nat, id: int) {
    && i < |run| && run[i].UpdateExpedition? && run[i].expedition == id && run[i].update.status == RETURNED
    && Step(Trace(w, run[..i]), run[i]).outcome.Done?
  }

  lemma ReturnedExpeditionWasOngoing(w: World, run: seq<Event>, i: nat, id: int)
    requires ReturnedAt(w, run, i, id)
    ensures id in Trace(w, run[..i]).expeditions && Trace(w, run[..i]).expeditions[id].status == ONGOING
    ensures id in Trace(w, run[..i + 1]).expeditions && Trace(w, run[..i + 1]).expeditions[id].status == RETURNED
  {
    assert run[..i + 1][..i] == run[..i];
  }

  lemma StaysClosed(w: World, run: seq<Event>, id: int, n: nat, k: nat)
    requires IdsBelow(w) && Serial(run) && n <= k <= |run|
    requires id in Trace(w, run[..n]).expeditions && Trace(w, run[..n]).expeditions[id].status == RETURNED
    ensures id in Trace(w, run[..k]).expeditions && Trace(w, run[..k]).expeditions[id].status == RETURNED
  {
    hide Step, IdsBelow, Trace;
    var mid, rest := Trace(w, run[..n]), run[n..k];
    assert Serial(rest) by { forall e | e in rest ensures SerialEvent(e) { assert e in run; } }
    RunKeepsIds(w, run[..n]);
    ClosedExpeditionsStayClosed(mid, rest, id);
    assert Trace(w, run[..k]) == Trace(mid, rest) by {
      TraceConcat(w, run[..n], rest);
      assert run[..n] + rest == run[..k];
    }
  }

  /** The credit of a return happens at most once in a serial run. */
  lemma ReturnedAtMostOnce(w: World, run: seq<Event>, id: int, j: nat, k: nat)
    requires IdsBelow(w) && Serial(run) && ReturnedAt(w, run, j, id) && ReturnedAt(w, run, k, id)
    ensures j == k
  {
    ReturnedExpeditionWasOngoing(w, run, j, id);
    ReturnedExpeditionWasOngoing(w, run, k, id);
    if j < k {
      StaysClosed(w, run, id, j + 1, k);
    } else if k < j {
      StaysClosed(w, run, id, k + 1, j);
    }
  }
}
