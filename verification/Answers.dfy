/** Which calls are accepted, and with what code the others are refused: exactly, in terms of the request and the rows. */
module Answers {
  import opened Core
  import opened Ledger
  import opened Census
  import opened Tables
  import opened Inventory
  import opened Transfers
  import opened Expeditions
  import opened Runs
  import opened Effects
  import People
  import Admissions
  import Codes

  ghost function Answer(w: World, e: Event): Outcome {
    Step(w, e).outcome
  }

  predicate Open(t: Transfer) {
    t.status !in {COMPLETED, REJECTED}
  }

  /** The user and the transfer exist. */
  predicate Known(w: World, user: int, transfer: int) {
    user in w.users && transfer in w.transfers
  }

  // ---------------------------------------------------------------------------------------------
  // Transfers
  // ---------------------------------------------------------------------------------------------

  lemma ScheduleAnswers(w: World, e: Event)
    requires e.ScheduleTransfer?
    ensures Answer(w, e) in {Done, Refused(400), Refused(403), Refused(404)}
    ensures Answer(w, e) == Refused(404) <==> e.date >= e.now && !Known(w, e.user, e.transfer)
    ensures Answer(w, e) == Refused(403) <==>
              && e.date >= e.now && Known(w, e.user, e.transfer) && Open(w.transfers[e.transfer])
              && w.users[e.user] != w.transfers[e.transfer].requesting
    ensures Answer(w, e) == Done <==>
              && e.date >= e.now && Known(w, e.user, e.transfer) && Open(w.transfers[e.transfer])
              && w.users[e.user] == w.transfers[e.transfer].requesting
  {}

  lemma SourceApprovalAnswers(w: World, e: Event)
    requires e.ApproveAtSource?
    ensures Answer(w, e) in {Done, Refused(400), Refused(403), Refused(404)}
    ensures Answer(w, e) == Refused(404) <==> !Known(w, e.user, e.transfer)
    ensures Answer(w, e) == Refused(403) <==>
              && Known(w, e.user, e.transfer) && w.transfers[e.transfer].status == PENDING
              && w.users[e.user] != w.transfers[e.transfer].requesting
    ensures Answer(w, e) == Done <==>
              && Known(w, e.user, e.transfer) && w.transfers[e.transfer].status == PENDING
              && w.users[e.user] == w.transfers[e.transfer].requesting
              && (if e.dateGiven.Some? then e.dateGiven.value >= e.now
                  else w.transfers[e.transfer].delivery.Some? && w.transfers[e.transfer].delivery.value >= e.now)
  {}

  lemma TargetApprovalAnswers(w: World, e: Event)
    requires e.ApproveAtTarget?
    ensures Answer(w, e) in {Done, Refused(400), Refused(403), Refused(404)}
    ensures Answer(w, e) == Refused(404) <==> !Known(w, e.user, e.transfer)
    ensures Answer(w, e) == Refused(403) <==>
              && Known(w, e.user, e.transfer) && w.transfers[e.transfer].status == APPROVED_SOURCE
              && w.users[e.user] != w.transfers[e.transfer].target
    ensures Answer(w, e) == Done <==>
              && Known(w, e.user, e.transfer) && w.transfers[e.transfer].status == APPROVED_SOURCE
              && w.users[e.user] == w.transfers[e.transfer].target
              && w.transfers[e.transfer].delivery.Some? && w.transfers[e.transfer].delivery.value >= e.now
  {}

  lemma RejectAnswers(w: World, e: Event)
    requires e.RejectTransfer?
    ensures Answer(w, e) in {Done, Refused(400), Refused(403), Refused(404)}
    ensures Answer(w, e) == Refused(404) <==> !Known(w, e.user, e.transfer)
    ensures Answer(w, e) == Refused(403) <==>
              && Known(w, e.user, e.transfer) && Open(w.transfers[e.transfer])
              && w.users[e.user] != w.transfers[e.transfer].requesting && w.users[e.user] != w.transfers[e.transfer].target
    ensures Answer(w, e) == Done <==>
              && Known(w, e.user, e.transfer) && Open(w.transfers[e.transfer])
              && (w.users[e.user] == w.transfers[e.transfer].requesting || w.users[e.user] == w.transfers[e.transfer].target)
  {}

  lemma {:induction false} GoodsListed(items: seq<Item>, resource: int, quantity: int)
    ensures Line(resource, quantity) in ResourceLines(items) <==> ResourceItem(resource, quantity) in items
  {
    if items != [] {
      GoodsListed(items[1..], resource, quantity);
      assert items == [items[0]] + items[1..];
    }
  }

  lemma {:induction false} FirstLine(lines: seq<Line>, resource: int)
    ensures FindLine(lines, resource).None? <==> forall l | l in lines :: l.resource != resource
    ensures forall i | 0 <= i < |lines| && lines[i].resource == resource && (forall j | 0 <= j < i :: lines[j].resource != resource) ::
              FindLine(lines, resource) == Some(lines[i])
  {
    if lines != [] {
      FirstLine(lines[1..], resource);
      assert lines == [lines[0]] + lines[1..];
      forall i | 0 <= i < |lines| && lines[i].resource == resource && (forall j | 0 <= j < i :: lines[j].resource != resource)
        ensures FindLine(lines, resource) == Some(lines[i])
      {
        if i > 0 {
          assert lines[0].resource != resource && lines[1..][i - 1] == lines[i];
          forall j | 0 <= j < i - 1 ensures lines[1..][j].resource != resource { assert lines[j + 1] == lines[1..][j]; }
        }
      }
    }
  }

  /** The first ration line carries enough for so many heads and the days the settings say. */
  ghost predicate RationsPacked(policy: RationPolicy, items: seq<Item>) {
    var lines, heads := ResourceLines(items), |PersonIds(items)|;
    heads == 0 || (policy.rationType.Some? && exists i :: 0 <= i < |lines| && IsFirstRation(policy, lines, heads, i))
  }

  predicate IsFirstRation(policy: RationPolicy, lines: seq<Line>, heads: nat, i: int)
    requires policy.rationType.Some? && 0 <= i < |lines|
  {
    && lines[i].resource == policy.rationType.value && (forall j | 0 <= j < i :: lines[j].resource != policy.rationType.value)
    && lines[i].amount >= heads * policy.perDay * policy.days
  }

  lemma FirstOfType(lines: seq<Line>, resource: int) returns (i: nat)
    requires exists l :: l in lines && l.resource == resource
    ensures i < |lines| && lines[i].resource == resource && forall j | 0 <= j < i :: lines[j].resource != resource
  {
    i := 0;
    while lines[i].resource != resource
      invariant i < |lines| && forall j | 0 <= j < i :: lines[j].resource != resource
      invariant exists k :: i <= k < |lines| && lines[k].resource == resource
      decreases |lines| - i
    {
      i := i + 1;
    }
  }

  lemma RationsAnswer(policy: RationPolicy, items: seq<Item>)
    ensures RationOutcome(policy, ResourceLines(items), |PersonIds(items)|) == if RationsPacked(policy, items) then Done else Refused(400)
  {
    var lines, heads := ResourceLines(items), |PersonIds(items)|;
    if heads > 0 && policy.rationType.Some? {
      var resource := policy.rationType.value;
      FirstLine(lines, resource);
      if exists l :: l in lines && l.resource == resource {
        var i := FirstOfType(lines, resource);
        assert IsFirstRation(policy, lines, heads, i) <==> lines[i].amount >= heads * policy.perDay * policy.days;
        if RationsPacked(policy, items) {
          var k :| 0 <= k < |lines| && IsFirstRation(policy, lines, heads, k);
          assert k == i;
        }
      }
    }
  }

  /** The requesting camp holds what the list asks for, resource by resource. */
  ghost predicate StockCovers(w: World, camp: int, lines: seq<Line>) {
    forall l | l in lines :: Slot(camp, l.resource) in w.books.stock && SumFor(lines, l.resource) <= w.books.stock[Slot(camp, l.resource)]
  }

  lemma CoversAnswers(w: World, camp: int, lines: seq<Line>)
    ensures Covers(w.books.stock, camp, Firsts(lines), lines) <==> StockCovers(w, camp, lines)
  {
    FirstsAreTheResources(lines);
    if Covers(w.books.stock, camp, Firsts(lines), lines) {
      forall l | l in lines
        ensures Slot(camp, l.resource) in w.books.stock && SumFor(lines, l.resource) <= w.books.stock[Slot(camp, l.resource)]
      {
        var i :| 0 <= i < |lines| && lines[i] == l;
        assert l.resource in Firsts(lines);
      }
    }
    if StockCovers(w, camp, lines) {
      forall r | r in Firsts(lines) ensures Slot(camp, r) in w.books.stock && SumFor(lines, r) <= w.books.stock[Slot(camp, r)] {
        var i :| 0 <= i < |lines| && lines[i].resource == r;
        assert lines[i] in lines;
      }
    }
  }

  predicate Quantified(items: seq<Item>) {
    forall i | i in items && i.ResourceItem? :: i.quantity > 0
  }

  lemma QuantifiedAnswers(items: seq<Item>)
    ensures Positive(ResourceLines(items)) <==> Quantified(items)
  {
    forall r: int, q: int ensures Line(r, q) in ResourceLines(items) <==> ResourceItem(r, q) in items { GoodsListed(items, r, q); }
    if Positive(ResourceLines(items)) {
      forall i | i in items && i.ResourceItem? ensures i.quantity > 0 { assert Line(i.resource, i.quantity) in ResourceLines(items); }
    }
    if Quantified(items) {
      forall l | l in ResourceLines(items) ensures l.amount > 0 { assert ResourceItem(l.resource, l.amount) in items; }
    }
  }

  /** No person is listed twice, and all of them exist. */
  ghost predicate EverybodyOnce(w: World, items: seq<Item>) {
    Distinct(PersonIds(items)) && forall p | PersonItem(p) in items :: p in w.roster.people
  }

  ghost predicate EverybodyThere(w: World, items: seq<Item>, camp: int) {
    forall p | PersonItem(p) in items :: p in w.roster.people && w.roster.people[p].camp == camp
  }

  lemma MoveAnswers(w: World, items: seq<Item>, camp: int)
    ensures MoveOutcome(w.roster.people, PersonIds(items), camp) ==
            if !EverybodyOnce(w, items) then Refused(404) else if !EverybodyThere(w, items, camp) then Refused(400) else Done
  {
    forall p: int ensures p in PersonIds(items) <==> PersonItem(p) in items { PeopleListed(items, p); }
    if PersonIds(items) == [] { assert EverybodyOnce(w, items) && EverybodyThere(w, items, camp); }
  }

  /** The goods can leave: positive quantities, travel rations packed, stock enough. */
  ghost predicate GoodsReady(w: World, t: Transfer) {
    && Quantified(t.items) && RationsPacked(w.catalog.policy, t.items)
    && StockCovers(w, t.requesting, ResourceLines(t.items))
  }

  lemma CompletionAnswers(w: World, e: Event)
    requires e.CompleteTransfer?
    ensures Answer(w, e) in {Done, Refused(400), Refused(403), Refused(404)}
    ensures Answer(w, e) == Refused(404) <==>
              || !Known(w, e.user, e.transfer)
              || (&& var t := w.transfers[e.transfer];
                  && t.status == APPROVED_TARGET && w.users[e.user] in {t.requesting, t.target}
                  && GoodsReady(w, t) && !EverybodyOnce(w, t.items))
    ensures Answer(w, e) == Refused(403) <==>
              && Known(w, e.user, e.transfer)
              && var t := w.transfers[e.transfer];
              t.status == APPROVED_TARGET && w.users[e.user] != t.requesting && w.users[e.user] != t.target
    ensures Answer(w, e) == Done <==>
              && Known(w, e.user, e.transfer)
              && var t := w.transfers[e.transfer];
              && t.status == APPROVED_TARGET && w.users[e.user] in {t.requesting, t.target}
              && GoodsReady(w, t) && EverybodyOnce(w, t.items) && EverybodyThere(w, t.items, t.requesting)
  {
    hide Covers, Positive, Quantified, RationOutcome, RationsPacked, StockCovers, MoveOutcome, EverybodyOnce, EverybodyThere, Completed;
    if Known(w, e.user, e.transfer) {
      var t := w.transfers[e.transfer];
      QuantifiedAnswers(t.items);
      RationsAnswer(w.catalog.policy, t.items);
      CoversAnswers(w, t.requesting, ResourceLines(t.items));
      MoveAnswers(w, t.items, t.requesting);
    }
  }

  /** The people on the list and the leader exist; they are HEALTHY in the camp; they have the profession. */
  ghost predicate Named(d: Proposal, p: int) {
    PersonItem(p) in d.items || d.leader == Some(p)
  }

  ghost predicate ReferencesKnown(w: World, d: Proposal) {
    && d.requestedBy in w.users && d.requesting in w.catalog.camps && d.target in w.catalog.camps
    && (forall i | i in d.items && i.ResourceItem? :: i.resource in w.catalog.resources)
  }

  lemma ProposalAnswers(w: World, e: Event)
    requires e.ProposeTransfer?
    ensures Answer(w, e) in {Done, Refused(400), Refused(404)}
    ensures Answer(w, e) == Done <==>
              && var d := e.proposal;
              && d.requesting != d.target && ReferencesKnown(w, d)
              && (forall p | Named(d, p) ::
                    p in w.roster.people && w.roster.people[p].camp == d.requesting && w.roster.people[p].health == HEALTHY)
              && w.users[d.requestedBy] == d.requesting
              && (d.requiredProfession.Some? ==>
                    && d.requiredProfession.value in w.catalog.professions
                    && forall p | PersonItem(p) in d.items :: w.roster.people[p].profession == d.requiredProfession.value)
    ensures e.proposal.requesting != e.proposal.target
            && (!ReferencesKnown(w, e.proposal) || exists p :: PersonItem(p) in e.proposal.items && p !in w.roster.people)
            ==> Answer(w, e) == Refused(404)
  {
    var d := e.proposal;
    forall p: int ensures p in Elements(PersonIds(d.items)) <==> PersonItem(p) in d.items { PeopleListed(d.items, p); }
    ResourcesKnownAnswers(w, d.items);
    EligibleAnswers(w, Elements(PersonIds(d.items)), d.requesting);
    if d.leader.Some? { EligibleAnswers(w, {d.leader.value}, d.requesting); }
  }

  lemma ResourcesKnownAnswers(w: World, items: seq<Item>)
    ensures (exists l | l in ResourceLines(items) :: l.resource !in w.catalog.resources) <==>
            !(forall i | i in items && i.ResourceItem? :: i.resource in w.catalog.resources)
  {
    forall r: int, q: int ensures Line(r, q) in ResourceLines(items) <==> ResourceItem(r, q) in items { GoodsListed(items, r, q); }
    if l :| l in ResourceLines(items) && l.resource !in w.catalog.resources {
      assert ResourceItem(l.resource, l.amount) in items;
    }
    if i :| i in items && i.ResourceItem? && i.resource !in w.catalog.resources {
      assert Line(i.resource, i.quantity) in ResourceLines(items);
    }
  }

  lemma EligibleAnswers(w: World, ids: set<int>, camp: int)
    ensures Eligible(w.roster.people, ids, camp) ==
            if exists p :: p in ids && p !in w.roster.people then Refused(404)
            else if forall p | p in ids :: w.roster.people[p].camp == camp && w.roster.people[p].health == HEALTHY then Done
            else Refused(400)
  {
    if forall p | p in ids :: p in w.roster.people {
      assert ids <= w.roster.people.Keys;
    } else {
      var p :| p in ids && p !in w.roster.people;
      assert p !in w.roster.people.Keys;
    }
  }

  // ---------------------------------------------------------------------------------------------
  // Requests and stock
  // ---------------------------------------------------------------------------------------------

  lemma ManualAnswers(w: World, e: Event)
    requires e.AdjustStock?
    ensures Answer(w, e) in {Done, Refused(400), Refused(404)}
    ensures Answer(w, e) == Refused(404) <==>
              e.quantity > 0 && !(e.camp in w.catalog.camps && e.resource in w.catalog.resources && e.user in w.users)
    ensures Answer(w, e) == Done <==>
              && e.quantity > 0 && e.camp in w.catalog.camps && e.resource in w.catalog.resources && e.user in w.users
              && (e.isIn || e.quantity <= Have(w.books.stock, Slot(e.camp, e.resource)))
  {}

  lemma FilingAnswers(w: World, e: Event)
    requires e.FileRequest?
    ensures Answer(w, e) in {Done, Refused(400), Refused(403), Refused(404)}
    ensures Answer(w, e) == Refused(404) <==> e.quantity > 0 && e.user !in w.users
    ensures Answer(w, e) == Refused(403) <==> e.quantity > 0 && e.user in w.users && w.users[e.user] != e.camp
    ensures Answer(w, e) == Done <==> e.quantity > 0 && e.user in w.users && w.users[e.user] == e.camp
  {}

  /** What a review needs before it writes. */
  predicate MayReview(w: World, request: int, user: int) {
    request in w.requests && user in w.users && w.requests[request].status == AWAITING && w.users[user] == w.requests[request].camp
  }

  lemma ReviewAnswers(w: World, e: Event)
    requires e.ApproveRequest? || e.DeclineRequest?
    ensures Answer(w, e) in {Done, Refused(400), Refused(403), Refused(404)}
    ensures Answer(w, e) == Refused(404) <==>
              e.request !in w.requests || (w.requests[e.request].status == AWAITING && e.user !in w.users)
    ensures Answer(w, e) == Refused(403) <==>
              && e.request in w.requests && w.requests[e.request].status == AWAITING && e.user in w.users
              && w.users[e.user] != w.requests[e.request].camp
    ensures e.DeclineRequest? ==> (Answer(w, e) == Done <==> MayReview(w, e.request, e.user))
    ensures e.ApproveRequest? && (e.request in w.requests ==> w.requests[e.request].quantity > 0) ==>
              (Answer(w, e) == Done <==>
                 && MayReview(w, e.request, e.user)
                 && var r := w.requests[e.request];
                 r.isIn || r.quantity <= Have(w.books.stock, Slot(r.camp, r.resource)))
  {}

  // ---------------------------------------------------------------------------------------------
  // Expeditions
  // ---------------------------------------------------------------------------------------------

  predicate AllPositive(lines: seq<Line>) {
    forall l | l in lines :: l.amount > 0
  }

  lemma LaunchAnswers(w: World, e: Event)
    requires e.LaunchExpedition?
    ensures var d := e.outing;
            && Answer(w, e) in {Done, Refused(400), Refused(404)}
            && (Answer(w, e) == Done <==>
                  && AllPositive(d.allotted) && d.camp in w.catalog.camps && d.createdBy in w.users
                  && (d.status.Some? ==> d.status.value in {PLANNED, ONGOING})
                  && (forall m | m in d.members ::
                        m in w.roster.people && w.roster.people[m].camp == d.camp && w.roster.people[m].health == HEALTHY)
                  && d.dates.departure <= d.dates.expected <= d.dates.latest
                  && (d.dates.actual.Some? ==> d.dates.departure <= d.dates.actual.value)
                  && StockCovers(w, d.camp, d.allotted))
            && (Answer(w, e) == Refused(404) <==>
                  && AllPositive(d.allotted)
                  && (|| d.camp !in w.catalog.camps || d.createdBy !in w.users
                      || ((d.status.Some? ==> d.status.value in {PLANNED, ONGOING})
                          && exists m :: m in d.members && m !in w.roster.people)))
  {
    hide Covers, StockCovers, Departed;
    var d := e.outing;
    CoversAnswers(w, d.camp, d.allotted);
    EligibleAnswers(w, Elements(d.members), d.camp);
    assert forall m :: m in d.members <==> m in Elements(d.members);
    match InitialStatus(d) { case PLANNED => case ONGOING => case RETURNED => case CANCELLED => }
  }

  /** Where an expedition may go from where it is. */
  predicate NextStatus(current: ExpeditionStatus, next: ExpeditionStatus) {
    match current
    case PLANNED => next in {ONGOING, CANCELLED}
    case ONGOING => next in {RETURNED, CANCELLED}
    case _ => false
  }

  /** Nothing comes back that was not taken, and not more of it. */
  ghost predicate ComesBack(x: Expedition, returned: seq<Line>) {
    forall l | l in returned :: l.resource in x.allotted && SumFor(returned, l.resource) <= x.allotted[l.resource]
  }

  lemma ComesBackAnswers(x: Expedition, returned: seq<Line>)
    ensures WithinAllotment(x, Firsts(returned), returned) <==> ComesBack(x, returned)
  {
    FirstsAreTheResources(returned);
    if WithinAllotment(x, Firsts(returned), returned) {
      forall l | l in returned ensures l.resource in x.allotted && SumFor(returned, l.resource) <= x.allotted[l.resource] {
        var i :| 0 <= i < |returned| && returned[i] == l;
        assert l.resource in Firsts(returned);
      }
    }
    if ComesBack(x, returned) {
      forall r | r in Firsts(returned) ensures r in x.allotted && SumFor(returned, r) <= x.allotted[r] {
        var i :| 0 <= i < |returned| && returned[i].resource == r;
        assert returned[i] in returned;
      }
    }
  }

  lemma UpdateAnswers(w: World, e: Event)
    requires e.UpdateExpedition?
    ensures var d := e.update;
            var sound := AllPositive(d.returned) && AllPositive(d.found) && (d.status == RETURNED ==> d.hasReturnDate);
            var known := e.expedition in w.expeditions && d.changedBy in w.users;
            && Answer(w, e) in {Done, Refused(400), Refused(404)}
            && (Answer(w, e) == Refused(404) <==> sound && !known)
            && (Answer(w, e) == Done <==>
                  && sound && known && NextStatus(w.expeditions[e.expedition].status, d.status)
                  && (d.status in {RETURNED, CANCELLED} ==> forall o | o in d.outcomes :: o.person in w.expeditions[e.expedition].members)
                  && (d.status == RETURNED ==> ComesBack(w.expeditions[e.expedition], d.returned)))
  {
    hide WithinAllotment, ComesBack, Updated;
    if e.expedition in w.expeditions { ComesBackAnswers(w.expeditions[e.expedition], e.update.returned); }
  }

  lemma DeletionAnswers(w: World, e: Event)
    requires e.DeleteExpedition?
    ensures var d := e.deletion;
            && Answer(w, e) in {Done, Refused(400), Refused(404)}
            && (Answer(w, e) == Done <==>
                  && e.expedition in w.expeditions && d.changedBy in w.users
                  && w.expeditions[e.expedition].status in {PLANNED, ONGOING}
                  && forall o | o in d.outcomes :: o.person in w.expeditions[e.expedition].members)
            && (Answer(w, e) == Refused(404) <==>
                  || e.expedition !in w.expeditions
                  || (w.expeditions[e.expedition].status in {PLANNED, ONGOING} && d.changedBy !in w.users))
  {
    hide SetHealth, DeletionTargets;
    if e.expedition in w.expeditions {
      match w.expeditions[e.expedition].status { case PLANNED => case ONGOING => case RETURNED => case CANCELLED => }
    }
  }

  // ---------------------------------------------------------------------------------------------
  // People and admissions
  // ---------------------------------------------------------------------------------------------

  predicate CodeTaken(w: World, code: string) {
    exists p | p in w.roster.people :: w.roster.people[p].code == code
  }

  lemma AddPersonAnswers(w: World, e: Event)
    requires e.AddPerson?
    ensures var d, draws := e.newcomer, e.draws;
            var known := e.camp in w.catalog.camps && d.profession in w.catalog.professions;
            var noCode := if d.code.Some? then CodeTaken(w, d.code.value)
                          else CodeTaken(w, draws.first) && CodeTaken(w, draws.second) && CodeTaken(w, draws.third);
            && Answer(w, e) == (if d.bodyCamp != e.camp then Refused(400) else if !known then Refused(404)
                                else if noCode then Refused(409) else Done)
  {
    forall code: string ensures code in People.TakenCodes(w.roster.people) <==> CodeTaken(w, code) {
      if CodeTaken(w, code) {
        var p :| p in w.roster.people && w.roster.people[p].code == code;
        assert w.roster.people[p].code in People.TakenCodes(w.roster.people);
      }
    }
  }

  lemma UpdatePersonAnswers(w: World, e: Event)
    requires e.UpdatePerson?
    ensures var d := e.change;
            && Answer(w, e) in {Done, Refused(400), Refused(404), Refused(409)}
            && (Answer(w, e) == Done <==>
                  && e.person in w.roster.people && w.roster.people[e.person].camp == e.camp && e.user in w.users
                  && (d.bodyCamp.Some? ==> d.bodyCamp.value == e.camp && e.camp in w.catalog.camps)
                  && (d.profession.Some? ==> d.profession.value in w.catalog.professions))
            && (Answer(w, e) == Refused(409) <==> e.person in w.roster.people && w.roster.people[e.person].camp != e.camp)
            && (Answer(w, e) == Refused(400) <==>
                  && e.person in w.roster.people && w.roster.people[e.person].camp == e.camp
                  && d.bodyCamp.Some? && d.bodyCamp.value != e.camp)
  {}

  lemma ChangeStatusAnswers(w: World, e: Event)
    requires e.ChangeStatus?
    ensures Answer(w, e) in {Done, Refused(400), Refused(404), Refused(409)}
    ensures Answer(w, e) == Refused(404) <==> e.user !in w.users || e.person !in w.roster.people
    ensures Answer(w, e) == Refused(409) <==>
              e.user in w.users && e.person in w.roster.people && w.roster.people[e.person].camp != e.camp
    ensures Answer(w, e) == Done <==>
              && e.user in w.users && e.person in w.roster.people && w.roster.people[e.person].camp == e.camp
              && w.roster.people[e.person].health != e.health
  {
    hide SetHealth;
  }

  /** A person of the profession can join the camp now: both are known, and the next code of its prefix is free. */
  ghost predicate CanEnrol(w: World, camp: int, profession: int) {
    && camp in w.catalog.camps && profession in w.catalog.professions
    && !CodeTaken(w, Codes.NextCode(People.TakenCodes(w.roster.people), Codes.PrefixOf(w.catalog.professions[profession])))
  }

  lemma EnrolAnswers(w: World, id: int, profession: int)
    requires id in w.admissions
    ensures Admissions.Enroll(w, id, profession).outcome.Done? <==> CanEnrol(w, w.admissions[id].camp, profession)
    ensures Admissions.Enroll(w, id, profession).outcome == Refused(409) <==>
              && w.admissions[id].camp in w.catalog.camps && profession in w.catalog.professions
              && !CanEnrol(w, w.admissions[id].camp, profession)
  {
    var code := Admissions.CodeFor(w, profession);
    if CodeTaken(w, code) {
      var p :| p in w.roster.people && w.roster.people[p].code == code;
      assert w.roster.people[p].code in People.TakenCodes(w.roster.people);
    }
  }

  lemma FileAdmissionAnswers(w: World, e: Event)
    requires e.FileAdmission?
    ensures var d := e.verdict;
            var known := e.camp in w.catalog.camps && w.catalog.professions != map[];
            var sure := d.accepted && d.confidence > 0.85;
            && (!known <==> Answer(w, e) == Refused(404))
            && (Answer(w, e) == Done <==>
                  && known && d.profession in w.catalog.professions
                  && (sure ==> d.profession != 0 && CanEnrol(w, e.camp, d.profession)))
            && (Answer(w, e) == Refused(409) <==>
                  && known && d.profession in w.catalog.professions && sure && d.profession != 0
                  && !CanEnrol(w, e.camp, d.profession))
  {
    hide Admissions.Enroll;
    var filed := Admissions.Filed(w, e.camp, e.verdict, ACCEPTED);
    EnrolAnswers(filed, w.nextId, e.verdict.profession);
    EnrolRefusals(filed, w.nextId, e.verdict.profession);
    assert CanEnrol(filed, e.camp, e.verdict.profession) <==> CanEnrol(w, e.camp, e.verdict.profession);
  }

  lemma EnrolRefusals(w: World, id: int, profession: int)
    requires id in w.admissions
    ensures Admissions.Enroll(w, id, profession).outcome in {Done, Refused(404), Refused(409)}
    ensures Admissions.Enroll(w, id, profession).outcome == Refused(404) <==>
              !(w.admissions[id].camp in w.catalog.camps && profession in w.catalog.professions)
  {}

  lemma ReviewAdmissionAnswers(w: World, e: Event)
    requires e.ReviewAdmission?
    ensures Answer(w, e) == Done <==>
              && e.admission in w.admissions && (e.corrected.Some? ==> e.corrected.value in w.catalog.professions)
              && var a := w.admissions[e.admission];
              (e.accept && a.person.None? ==>
                 if e.corrected.Some? then CanEnrol(w, a.camp, e.corrected.value)
                 else a.aiProfession.Some? && CanEnrol(w, a.camp, a.aiProfession.value))
    ensures e.admission !in w.admissions ==> Answer(w, e) == Refused(404)
    ensures e.admission in w.admissions && e.corrected.Some? && e.corrected.value !in w.catalog.professions ==> Answer(w, e) == Refused(400)
  {
    hide Admissions.Enroll;
    if e.admission in w.admissions {
      var a, decided := w.admissions[e.admission], Admissions.Decided(w, e.admission, e.accept);
      var profession := if e.corrected.Some? then e.corrected.value else if a.aiProfession.Some? then a.aiProfession.value else 0;
      EnrolAnswers(decided, e.admission, profession);
      assert CanEnrol(decided, a.camp, profession) <==> CanEnrol(w, a.camp, profession);
    }
  }
}
