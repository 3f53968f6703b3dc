/**
  What each call does to people and rows, told in terms of the request alone: who is where and how, what
  the new row says, and that nobody and nothing else changes.
*/
module Effects {
  import opened Core
  import opened Ledger
  import opened Census
  import opened Tables
  import opened Inventory
  import opened Transfers
  import opened Expeditions
  import opened Runs
  import People
  import Admissions
  import Codes

  // ---------------------------------------------------------------------------------------------
  // One person
  // ---------------------------------------------------------------------------------------------

  /** The person has this status now; the status log got one row if that is a change, and none otherwise. */
  ghost predicate StatusBecomes(r: Roster, v: Roster, p: int, health: Health, cause: Cause)
    requires p in r.people
  {
    && p in v.people && v.people[p].health == health
    && v.people[p].profession == r.people[p].profession && v.people[p].code == r.people[p].code
    && LogOf(v.healthLog, p) ==
       LogOf(r.healthLog, p) + (if health != r.people[p].health then [Change(r.people[p].health, health, cause)] else [])
  }

  ghost predicate Stayed(r: Roster, v: Roster, p: int)
    requires p in r.people
  {
    p in v.people && v.people[p].camp == r.people[p].camp && LogOf(v.campLog, p) == LogOf(r.campLog, p)
  }

  ghost predicate Untouched(r: Roster, v: Roster, p: int) {
    && (p in r.people <==> p in v.people) && (p in r.people ==> v.people[p] == r.people[p])
    && LogOf(v.healthLog, p) == LogOf(r.healthLog, p) && LogOf(v.campLog, p) == LogOf(r.campLog, p)
  }

  lemma HealthIsSet(r: Roster, target: map<int, Health>, cause: Cause, p: int)
    ensures var v := SetHealth(r, target, cause);
            && v.campLog == r.campLog
            && (if p in target && p in r.people then StatusBecomes(r, v, p, target[p], cause) && Stayed(r, v, p)
                else Untouched(r, v, p))
  {
    assert p in r.people && p !in target ==> r.people[p] == SetHealth(r, target, cause).people[p];
  }

  // ---------------------------------------------------------------------------------------------
  // Arrivals
  // ---------------------------------------------------------------------------------------------

  lemma {:induction false} PeopleListed(items: seq<Item>, p: int)
    ensures p in PersonIds(items) <==> PersonItem(p) in items
  {
    if items != [] {
      PeopleListed(items[1..], p);
      assert items == [items[0]] + items[1..];
    }
  }

  /**
    A completed transfer: each listed person is in the target camp with the status reported on arrival,
    HEALTHY if none was; one camp row each, one status row where it changed; nobody else is touched.
  */
  lemma LateArrivals(w: World, id: int, arrival: Option<Health>, p: int)
    requires CommitCompletion(w, id, arrival).outcome.Done?
    ensures var t, r, v := w.transfers[id], w.roster, CommitCompletion(w, id, arrival).world.roster;
            if PersonItem(p) in t.items then
              && p in r.people
              && StatusBecomes(r, v, p, if arrival.Some? then arrival.value else HEALTHY, ByTransfer(id))
              && v.people[p].camp == t.target
              && LogOf(v.campLog, p) == LogOf(r.campLog, p) + [Change(t.requesting, t.target, ByTransfer(id))]
            else Untouched(r, v, p)
  {
    hide Post, Shipment, RationOutcome, Covers;
    var t := w.transfers[id];
    var ids := PersonIds(t.items);
    PeopleListed(t.items, p);
    var health := if arrival.Some? then arrival.value else HEALTHY;
    HealthIsSet(w.roster, Uniform(Elements(ids), health), ByTransfer(id), p);
    assert p in Elements(ids) <==> p in ids;
  }

  lemma Arrivals(w: World, e: Event, p: int)
    requires e.CompleteTransfer? && Step(w, e).outcome.Done?
    ensures var t, r, v := w.transfers[e.transfer], w.roster, Step(w, e).world.roster;
            if PersonItem(p) in t.items then
              && p in r.people
              && StatusBecomes(r, v, p, if e.arrival.Some? then e.arrival.value else HEALTHY, ByTransfer(e.transfer))
              && v.people[p].camp == t.target
              && LogOf(v.campLog, p) == LogOf(r.campLog, p) + [Change(t.requesting, t.target, ByTransfer(e.transfer))]
            else Untouched(r, v, p)
  {
    hide CommitCompletion, StatusBecomes, Untouched;
    LateArrivals(w, e.transfer, e.arrival, p);
  }

  // ---------------------------------------------------------------------------------------------
  // Members of expeditions
  // ---------------------------------------------------------------------------------------------

  /** Entry i is the last one that speaks of p. */
  predicate LastFor(outcomes: seq<MemberOutcome>, i: int, p: int) {
    0 <= i < |outcomes| && outcomes[i].person == p && forall j | i < j < |outcomes| :: outcomes[j].person != p
  }

  predicate Mentions(outcomes: seq<MemberOutcome>, p: int) {
    exists i | 0 <= i < |outcomes| :: outcomes[i].person == p
  }

  /** What a member comes out as: what the last report says, else the default, else `otherwise`. */
  predicate ComesOut(outcomes: seq<MemberOutcome>, fallback: Option<Health>, otherwise: Health, p: int, health: Health) {
    && (forall i | 0 <= i < |outcomes| :: LastFor(outcomes, i, p) ==> health == outcomes[i].health)
    && (!Mentions(outcomes, p) ==> health == if fallback.Some? then fallback.value else otherwise)
  }

  lemma ReportedHealth(outcomes: seq<MemberOutcome>, members: set<int>, fallback: Option<Health>, otherwise: Health, p: int)
    requires p in members
    ensures var targets := MemberTargets(members, OutcomeMap(outcomes), fallback);
            && (fallback.Some? ==> p in targets)
            && ComesOut(outcomes, fallback, otherwise, p, if p in targets then targets[p] else otherwise)
  {
    LastOutcomeWins(outcomes, p);
    if Mentions(outcomes, p) {
      var i :| 0 <= i < |outcomes| && outcomes[i].person == p;
      assert p in OutcomeMap(outcomes);
    } else {
      assert p !in OutcomeMap(outcomes);
    }
  }

  /**
    A status update: sent out, members are AWAY; back or cancelled, they are what was reported last, else the
    default given, else HEALTHY when back and as before when cancelled. Nobody but members is touched.
  */
  lemma LateMemberStatuses(w: World, id: int, d: StatusUpdate, p: int)
    requires CommitUpdate(w, id, d).outcome.Done? && p in w.roster.people
    ensures var x, r, v := w.expeditions[id], w.roster, CommitUpdate(w, id, d).world.roster;
            if p !in x.members then Untouched(r, v, p)
            else
              && p in v.people && Stayed(r, v, p)
              && StatusBecomes(r, v, p, v.people[p].health, ByExpedition(id))
              && (d.status == ONGOING ==> v.people[p].health == AWAY)
              && (d.status == RETURNED ==> ComesOut(d.outcomes, d.fallback, HEALTHY, p, v.people[p].health))
              && (d.status == CANCELLED ==> ComesOut(d.outcomes, d.fallback, r.people[p].health, p, v.people[p].health))
  {
    hide Post, ReturnFlow, Totals, OutcomeMap, MemberTargets, ComesOut;
    var x := w.expeditions[id];
    HealthIsSet(w.roster, TargetsOf(x, d), ByExpedition(id), p);
    TargetsAreMembers(x, d);
    if p in x.members {
      ReportedHealth(d.outcomes, x.members, if d.fallback.Some? then d.fallback else Some(HEALTHY), HEALTHY, p);
      SameDefault(d.outcomes, d.fallback, p);
      ReportedHealth(d.outcomes, x.members, d.fallback, w.roster.people[p].health, p);
    }
  }

  lemma TargetsAreMembers(x: Expedition, d: StatusUpdate)
    ensures TargetsOf(x, d).Keys <= x.members
  {}

  lemma SameDefault(outcomes: seq<MemberOutcome>, fallback: Option<Health>, p: int)
    ensures forall health: Health ::
              ComesOut(outcomes, if fallback.Some? then fallback else Some(HEALTHY), HEALTHY, p, health)
              == ComesOut(outcomes, fallback, HEALTHY, p, health)
  {}

  lemma MemberStatuses(w: World, e: Event, p: int)
    requires e.UpdateExpedition? && Step(w, e).outcome.Done? && p in w.roster.people
    ensures var d, x, r, v := e.update, w.expeditions[e.expedition], w.roster, Step(w, e).world.roster;
            && d.status != PLANNED
            && if p !in x.members then Untouched(r, v, p)
               else
                 && p in v.people && Stayed(r, v, p)
                 && StatusBecomes(r, v, p, v.people[p].health, ByExpedition(e.expedition))
                 && (d.status == ONGOING ==> v.people[p].health == AWAY)
                 && (d.status == RETURNED ==> ComesOut(d.outcomes, d.fallback, HEALTHY, p, v.people[p].health))
                 && (d.status == CANCELLED ==> ComesOut(d.outcomes, d.fallback, r.people[p].health, p, v.people[p].health))
  {
    hide CommitUpdate, StatusBecomes, Untouched, Stayed, ComesOut;
    LateMemberStatuses(w, e.expedition, e.update, p);
  }

  /** A deletion: members are what was reported last, else the default given, else HEALTHY. */
  lemma MembersOfTheDeleted(w: World, e: Event, p: int)
    requires e.DeleteExpedition? && Step(w, e).outcome.Done? && p in w.roster.people
    ensures var d, x, r, v := e.deletion, w.expeditions[e.expedition], w.roster, Step(w, e).world.roster;
            if p !in x.members then Untouched(r, v, p)
            else
              && p in v.people && Stayed(r, v, p)
              && StatusBecomes(r, v, p, v.people[p].health, ByExpedition(e.expedition))
              && ComesOut(d.outcomes, d.fallback, HEALTHY, p, v.people[p].health)
  {
    hide OutcomeMap, ComesOut;
    var d, x := e.deletion, w.expeditions[e.expedition];
    var fallback := if d.fallback.Some? then d.fallback else Some(HEALTHY);
    HealthIsSet(w.roster, MemberTargets(x.members, OutcomeMap(d.outcomes), fallback), ByExpedition(e.expedition), p);
    if p in x.members {
      ReportedHealth(d.outcomes, x.members, fallback, HEALTHY, p);
      SameDefault(d.outcomes, d.fallback, p);
    }
  }

  /** A launch: the row as asked for, PLANNED unless said otherwise, at the next id. */
  lemma LaunchedRow(w: World, e: Event)
    requires e.LaunchExpedition? && Step(w, e).outcome.Done?
    ensures var d, v := e.outing, Step(w, e).world;
            && v.nextId == w.nextId + 1 && v.expeditions.Keys == w.expeditions.Keys + {w.nextId}
            && (forall y | y in w.expeditions && y != w.nextId :: v.expeditions[y] == w.expeditions[y])
            && var x := v.expeditions[w.nextId];
            && x.camp == d.camp && x.status == (if d.status.Some? then d.status.value else PLANNED)
            && (forall m :: m in x.members <==> m in d.members)
            && (forall l | l in d.allotted :: l.resource in x.allotted)
            && (forall resource | resource in x.allotted :: x.allotted[resource] == SumFor(d.allotted, resource))
            && x.returned == map[] && x.found == map[]
  {
    hide Post, Outflow, Covers, SumFor, SetHealth, Uniform, Firsts;
    var d := e.outing;
    FirstsAreTheResources(d.allotted);
    forall l | l in d.allotted ensures l.resource in Totals(d.allotted) {
      var i :| 0 <= i < |d.allotted| && d.allotted[i] == l;
    }
  }

  /** Members leave only if the expedition starts ONGOING. */
  lemma LaunchedMembers(w: World, e: Event, p: int)
    requires e.LaunchExpedition? && Step(w, e).outcome.Done? && p in w.roster.people
    ensures var r, v := w.roster, Step(w, e).world.roster;
            if e.outing.status == Some(ONGOING) && p in e.outing.members
            then StatusBecomes(r, v, p, AWAY, ByExpedition(w.nextId)) && Stayed(r, v, p)
            else Untouched(r, v, p)
  {
    hide Post, Outflow, Covers, Totals, StatusBecomes, Stayed, SetHealth;
    HealthIsSet(w.roster, Uniform(Elements(e.outing.members), AWAY), ByExpedition(w.nextId), p);
  }

  // ---------------------------------------------------------------------------------------------
  // Applicants
  // ---------------------------------------------------------------------------------------------

  /** One person came: HEALTHY, in this camp, of this profession, with a new code of the profession's prefix. */
  ghost predicate Enrolled(w: World, v: World, p: int, camp: int, profession: int) {
    && p !in w.roster.people && profession in w.catalog.professions
    && v.roster.people.Keys == w.roster.people.Keys + {p}
    && (forall q | q in w.roster.people :: v.roster.people[q] == w.roster.people[q])
    && v.roster.healthLog == w.roster.healthLog && v.roster.campLog == w.roster.campLog
    && var person := v.roster.people[p];
    && person.camp == camp && person.profession == profession && person.health == HEALTHY
    && Codes.PrefixOf(w.catalog.professions[profession]) + "-" <= person.code
    && (forall q | q in w.roster.people :: w.roster.people[q].code != person.code)
  }

  lemma EnrollMeans(w: World, id: int, profession: int)
    requires id in w.admissions && w.nextId !in w.roster.people && Admissions.Enroll(w, id, profession).outcome.Done?
    ensures var v := Admissions.Enroll(w, id, profession).world;
            && Enrolled(w, v, w.nextId, w.admissions[id].camp, profession)
            && v.admissions == w.admissions[id := w.admissions[id].(person := Some(w.nextId))]
  {
    var code := Admissions.CodeFor(w, profession);
    Codes.NextHasPrefix(People.TakenCodes(w.roster.people), Codes.PrefixOf(w.catalog.professions[profession]));
    forall q | q in w.roster.people ensures w.roster.people[q].code != code {
      assert w.roster.people[q].code in People.TakenCodes(w.roster.people);
    }
  }

  /**
    An accepting review of an admission without a person: one person of the corrected profession if there is
    a correction, else of the evaluator's, in the admission's camp, linked to it. Any other review only decides.
  */
  lemma ReviewEnrols(w: World, e: Event)
    requires e.ReviewAdmission? && Step(w, e).outcome.Done? && Admissions.PeopleBelow(w)
    ensures var a, v := w.admissions[e.admission], Step(w, e).world;
            && e.admission in v.admissions
            && v.admissions[e.admission].decision == (if e.accept then ACCEPTED else TURNED_DOWN)
            && v.admissions[e.admission].camp == a.camp
            && (forall b | b in w.admissions && b != e.admission :: b in v.admissions && v.admissions[b] == w.admissions[b])
            && (e.corrected.Some? ==> e.corrected.value in w.catalog.professions)
            && if e.accept && a.person.None? then
                 && (e.corrected.Some? || a.aiProfession.Some?)
                 && Enrolled(w, v, w.nextId, a.camp, if e.corrected.Some? then e.corrected.value else a.aiProfession.value)
                 && v.admissions[e.admission].person == Some(w.nextId)
               else v.roster == w.roster && v.admissions[e.admission].person == a.person
  {
    hide Enrolled, Admissions.Enroll;
    var a := w.admissions[e.admission];
    if e.accept && a.person.None? {
      var decided := Admissions.Decided(w, e.admission, true);
      var profession := if e.corrected.Some? then e.corrected.value else a.aiProfession.value;
      EnrollMeans(decided, e.admission, profession);
      SameEnrolled(w, decided, Step(w, e).world, w.nextId, a.camp, profession);
    }
  }

  lemma SameEnrolled(w: World, mid: World, v: World, p: int, camp: int, profession: int)
    requires mid.roster == w.roster && mid.catalog == w.catalog && Enrolled(mid, v, p, camp, profession)
    ensures Enrolled(w, v, p, camp, profession)
  {}

  /**
    A new admission: accepted with its person if and only if the evaluator accepts with a confidence above
    0.85, undecided without one otherwise; the evaluator's profession is on the row either way.
  */
  lemma FilingEnrols(w: World, e: Event)
    requires e.FileAdmission? && Step(w, e).outcome.Done? && Admissions.PeopleBelow(w)
    ensures var d, v := e.verdict, Step(w, e).world;
            && w.nextId in v.admissions && v.admissions[w.nextId].camp == e.camp
            && v.admissions[w.nextId].aiProfession == Some(d.profession)
            && (forall b | b in w.admissions && b != w.nextId :: b in v.admissions && v.admissions[b] == w.admissions[b])
            && if d.accepted && d.confidence > 0.85 then
                 && v.admissions[w.nextId].decision == ACCEPTED && v.admissions[w.nextId].person == Some(w.nextId + 1)
                 && Enrolled(w, v, w.nextId + 1, e.camp, d.profession)
               else
                 && v.admissions[w.nextId].decision == UNDECIDED && v.admissions[w.nextId].person == None
                 && v.roster == w.roster
  {
    hide Enrolled, Admissions.Enroll;
    var d := e.verdict;
    if d.accepted && d.confidence > 0.85 {
      var filed := Admissions.Filed(w, e.camp, d, ACCEPTED);
      EnrollMeans(filed, w.nextId, d.profession);
      SameEnrolled(w, filed, Step(w, e).world, w.nextId + 1, e.camp, d.profession);
    }
  }

  // ---------------------------------------------------------------------------------------------
  // People by hand
  // ---------------------------------------------------------------------------------------------

  /** A person added: as the request says, HEALTHY unless it says otherwise, with the given code or the first free draw. */
  lemma PersonAdded(w: World, e: Event)
    requires e.AddPerson? && Step(w, e).outcome.Done? && w.nextId !in w.roster.people
    ensures var d, draws, v := e.newcomer, e.draws, Step(w, e).world;
            var taken := set p | p in w.roster.people :: w.roster.people[p].code;
            && v.roster.people.Keys == w.roster.people.Keys + {w.nextId}
            && (forall p | p in w.roster.people :: Untouched(w.roster, v.roster, p))
            && var person := v.roster.people[w.nextId];
            && person.camp == e.camp && person.profession == d.profession && person.code !in taken
            && person.health == (if d.health.Some? then d.health.value else HEALTHY)
            && (d.code.Some? ==> person.code == d.code.value)
            && (d.code.None? ==>
                  || person.code == draws.first
                  || (person.code == draws.second && draws.first in taken)
                  || (person.code == draws.third && draws.first in taken && draws.second in taken))
  {}

  /** An update writes what the request says and keeps the rest; the person stays in the camp. */
  lemma PersonUpdated(w: World, e: Event, p: int)
    requires e.UpdatePerson? && Step(w, e).outcome.Done? && p in w.roster.people
    ensures var d, r, v := e.change, w.roster, Step(w, e).world.roster;
            if p != e.person then Untouched(r, v, p)
            else
              var health := if d.health.Some? then d.health.value else r.people[p].health;
              && v.people[p] == r.people[p].(
                   profession := if d.profession.Some? then d.profession.value else r.people[p].profession, health := health)
              && LogOf(v.campLog, p) == LogOf(r.campLog, p)
              && LogOf(v.healthLog, p) == LogOf(r.healthLog, p)
                 + (if health != r.people[p].health then [Change(r.people[p].health, health, ByHand)] else [])
  {}

  lemma StatusChanged(w: World, e: Event, p: int)
    requires e.ChangeStatus? && Step(w, e).outcome.Done? && p in w.roster.people
    ensures var r, v := w.roster, Step(w, e).world.roster;
            if p != e.person then Untouched(r, v, p)
            else StatusBecomes(r, v, p, e.health, ByHand) && Stayed(r, v, p) && r.people[p].health != e.health
  {
    HealthIsSet(w.roster, map[e.person := e.health], ByHand, p);
  }

  // ---------------------------------------------------------------------------------------------
  // Stock by hand, and new rows
  // ---------------------------------------------------------------------------------------------

  /** A manual adjustment: its quantity in or out of one slot, one row that says so, nothing else. */
  lemma StockAdjusted(w: World, e: Event, s: Slot)
    requires e.AdjustStock? && Step(w, e).outcome.Done?
    ensures var v := Step(w, e).world;
            var change := if e.isIn then e.quantity else -e.quantity;
            && v == w.(books := v.books)
            && v.books.log == w.books.log + [Movement(Slot(e.camp, e.resource), ManualMovement, change)]
            && Have(v.books.stock, s) == Have(w.books.stock, s) + (if s == Slot(e.camp, e.resource) then change else 0)
            && e.quantity > 0 && (!e.isIn ==> e.quantity <= Have(w.books.stock, Slot(e.camp, e.resource)))
  {
    PostOne(w.books, Movement(Slot(e.camp, e.resource), ManualMovement, if e.isIn then e.quantity else -e.quantity));
  }

  lemma RequestFiled(w: World, e: Event)
    requires e.FileRequest? && Step(w, e).outcome.Done?
    ensures Step(w, e).world == w.(
              requests := w.requests[w.nextId := Request(e.camp, e.resource, e.isIn, e.quantity, AWAITING)], nextId := w.nextId + 1)
    ensures e.quantity > 0 && e.user in w.users && w.users[e.user] == e.camp
  {}

  /** Every person on a proposal, and its leader, is HEALTHY in the requesting camp and of the profession asked for. */
  lemma TransferProposed(w: World, e: Event)
    requires e.ProposeTransfer? && Step(w, e).outcome.Done?
    ensures var d := e.proposal;
            && Step(w, e).world == w.(
                 transfers := w.transfers[w.nextId := Transfer(d.requesting, d.target, PENDING, d.items, d.delivery, None, None)],
                 nextId := w.nextId + 1)
            && (forall p | PersonItem(p) in d.items || d.leader == Some(p) ::
                  p in w.roster.people && w.roster.people[p].camp == d.requesting && w.roster.people[p].health == HEALTHY)
            && (forall p | PersonItem(p) in d.items && d.requiredProfession.Some? ::
                  p in w.roster.people && w.roster.people[p].profession == d.requiredProfession.value)
  {
    var d := e.proposal;
    forall p | PersonItem(p) in d.items ensures p in PersonIds(d.items) && p in Elements(PersonIds(d.items)) { PeopleListed(d.items, p); }
  }
}
