/** The other writers of a person's status and camp, and person creation. */
module People {
  import opened Core
  import opened Census
  import opened Tables
  import opened Store

  /** Three draws of a random identification code. */
  datatype Draws = Draws(first: string, second: string, third: string)

  function TakenCodes(people: map<int, Person>): set<string> {
    set p | p in people :: people[p].code
  }

  /** The code a new person gets: the given one, or else the first free of three random ones. */
  function ChooseCode(taken: set<string>, given: Option<string>, draws: Draws): Option<string> {
    if given.Some? then (if given.value in taken then None else given)
    else if draws.first !in taken then Some(draws.first)
    else if draws.second !in taken then Some(draws.second)
    else if draws.third !in taken then Some(draws.third)
    else None
  }

  datatype NewPerson = NewPerson(bodyCamp: int, profession: int, health: Option<Health>, code: Option<string>)

  function CreationOutcome(w: World, camp: int, d: NewPerson, draws: Draws): Outcome {
    if d.bodyCamp != camp then Refused(400)
    else if camp !in w.catalog.camps || d.profession !in w.catalog.professions then Refused(404)
    else if ChooseCode(TakenCodes(w.roster.people), d.code, draws).None? then Refused(409)
    else Done
  }

  function Joined(w: World, camp: int, d: NewPerson, code: string): World {
    var person := Person(camp, d.profession, if d.health.Some? then d.health.value else HEALTHY, code);
    w.(roster := w.roster.(people := w.roster.people[w.nextId := person]), nextId := w.nextId + 1)
  }

  function Create(w: World, camp: int, d: NewPerson, draws: Draws): Response {
    var o := CreationOutcome(w, camp, d, draws);
    if o.Refused? then Response(w, o)
    else Response(Joined(w, camp, d, ChooseCode(TakenCodes(w.roster.people), d.code, draws).value), Done)
  }

  /** Retries only a generated code, at most three attempts. */
  method CreatePerson(db: Database, camp: int, d: NewPerson, draws: Draws) returns (o: Outcome, id: int)
    modifies db
    ensures Response(db.Snapshot(), o) == Create(old(db.Snapshot()), camp, d, draws)
    ensures id == old(db.nextId)
  {
    id := db.nextId;
    if d.bodyCamp != camp { return Refused(400), id; }
    if camp !in db.catalog.camps || d.profession !in db.catalog.professions { return Refused(404), id; }
    var maxRetries := 3;
    var code := if d.code.Some? then d.code.value else draws.first;
    var attempts := 0;
    ghost var taken := TakenCodes(db.people);
    while attempts < maxRetries
      invariant 0 <= attempts <= 2
      invariant d.code.Some? ==> attempts == 0 && code == d.code.value
      invariant d.code.None? ==> code == (if attempts == 0 then draws.first else if attempts == 1 then draws.second else draws.third)
      invariant d.code.None? && attempts >= 1 ==> draws.first in taken
      invariant d.code.None? && attempts >= 2 ==> draws.second in taken
      invariant db.Snapshot() == old(db.Snapshot())
    {
      if forall p | p in db.people :: db.people[p].code != code {
        var row := db.NewId();
        db.people := db.people[row := Person(camp, d.profession, if d.health.Some? then d.health.value else HEALTHY, code)];
        return Done, id;
      }
      if d.code.None? {
        attempts := attempts + 1;
        code := if attempts == 1 then draws.second else draws.third;
        if attempts < maxRetries { continue; }
      }
      return Refused(409), id;
    }
    assert false;
  }

  predicate CodesDistinct(people: map<int, Person>) {
    forall p, q | p in people && q in people && p != q :: people[p].code != people[q].code
  }

  /** Creation keeps codes unique: a given code is used as it is or refused, a drawn one is the first free draw. */
  lemma CreationKeepsCodesDistinct(w: World, camp: int, d: NewPerson, draws: Draws)
    requires CodesDistinct(w.roster.people) && w.nextId !in w.roster.people
    ensures var r := Create(w, camp, d, draws);
            && CodesDistinct(r.world.roster.people)
            && (r.outcome.Done? ==>
                  && w.nextId in r.world.roster.people
                  && (d.code.Some? ==> r.world.roster.people[w.nextId].code == d.code.value)
                  && (d.code.None? ==> r.world.roster.people[w.nextId].code in {draws.first, draws.second, draws.third}))
            && (r.outcome == Refused(409) ==>
                  if d.code.Some? then d.code.value in TakenCodes(w.roster.people)
                  else {draws.first, draws.second, draws.third} <= TakenCodes(w.roster.people))
  {
    var r := Create(w, camp, d, draws);
    if r.outcome.Done? {
      var code := ChooseCode(TakenCodes(w.roster.people), d.code, draws).value;
      assert code !in TakenCodes(w.roster.people);
      forall p | p in w.roster.people ensures w.roster.people[p].code != code {
        assert w.roster.people[p].code in TakenCodes(w.roster.people);
      }
    }
  }

  // ---------------------------------------------------------------------------------------------
  // Updates
  // ---------------------------------------------------------------------------------------------

  datatype PersonUpdate = PersonUpdate(bodyCamp: Option<int>, profession: Option<int>, health: Option<Health>)

  /** The checks made before the transaction: the person is in the camp of the URL. */
  function UpdateCheck(w: World, camp: int, id: int, d: PersonUpdate): Outcome {
    if id !in w.roster.people then Refused(404)
    else if w.roster.people[id].camp != camp then Refused(409)
    else if d.bodyCamp.Some? && d.bodyCamp.value != camp then Refused(400)
    else if d.bodyCamp.Some? && d.bodyCamp.value !in w.catalog.camps then Refused(404)
    else if d.profession.Some? && d.profession.value !in w.catalog.professions then Refused(404)
    else Done
  }

  /** The person row after the update; the camp of the URL is always written. */
  function UpdatedRow(p: Person, camp: int, d: PersonUpdate): Person {
    p.(camp := camp,
       profession := if d.profession.Some? then d.profession.value else p.profession,
       health := if d.health.Some? then d.health.value else p.health)
  }

  /** The transaction alone: it reads only the status again, not the camp. */
  function CommitUpdate(w: World, camp: int, id: int, d: PersonUpdate, user: int): Response {
    if user !in w.users || id !in w.roster.people then Refuse(w, 404)
    else
      var r, p := w.roster, w.roster.people[id];
      var log := if d.health.Some? && d.health.value != p.health
                 then r.healthLog[id := LogOf(r.healthLog, id) + [Change(p.health, d.health.value, ByHand)]] else r.healthLog;
      Response(w.(roster := r.(people := r.people[id := UpdatedRow(p, camp, d)], healthLog := log)), Done)
  }

  function Update(w: World, camp: int, id: int, d: PersonUpdate, user: int): Response {
    var o := UpdateCheck(w, camp, id, d);
    if o.Refused? then Response(w, o) else CommitUpdate(w, camp, id, d, user)
  }

  method UpdatePerson(db: Database, camp: int, id: int, d: PersonUpdate, user: int) returns (o: Outcome)
    modifies db
    ensures Response(db.Snapshot(), o) == Update(old(db.Snapshot()), camp, id, d, user)
  {
    o := Need(id in db.people, 404);
    :- o;
    :- Need(db.people[id].camp == camp, 409);
    :- Need(d.bodyCamp.None? || d.bodyCamp.value == camp, 400);
    :- Need(d.bodyCamp.None? || d.bodyCamp.value in db.catalog.camps, 404);
    :- Need(d.profession.None? || d.profession.value in db.catalog.professions, 404);
    :- Need(user in db.users, 404);
    var current := db.people[id];
    db.people := db.people[id := UpdatedRow(current, camp, d)];
    if d.health.Some? && d.health.value != current.health {
      db.healthLog := db.healthLog[id := LogOf(db.healthLog, id) + [Change(current.health, d.health.value, ByHand)]];
    }
    return Done;
  }

  function StatusOutcome(w: World, camp: int, id: int, health: Health, user: int): Outcome {
    if user !in w.users || id !in w.roster.people then Refused(404)
    else if w.roster.people[id].camp != camp then Refused(409)
    else if w.roster.people[id].health == health then Refused(400)
    else Done
  }

  function ChangeStatus(w: World, camp: int, id: int, health: Health, user: int): Response {
    var o := StatusOutcome(w, camp, id, health, user);
    if o.Refused? then Response(w, o)
    else Response(w.(roster := SetHealth(w.roster, map[id := health], ByHand)), Done)
  }

  method CreatePersonStatusLog(db: Database, camp: int, id: int, health: Health, user: int) returns (o: Outcome)
    modifies db
    ensures Response(db.Snapshot(), o) == ChangeStatus(old(db.Snapshot()), camp, id, health, user)
  {
    o := Need(user in db.users, 404);
    :- o;
    :- Need(id in db.people, 404);
    var person := db.people[id];
    :- Need(person.camp == camp, 409);
    :- Need(person.health != health, 400);
    SetHealthStep(old(db.Snapshot()).roster, map[id := health], {}, id, ByHand);
    SetHealthNobody(old(db.Snapshot()).roster, ByHand);
    assert Only(map[id := health], {}) == map[] && Only(map[id := health], {} + {id}) == map[id := health];
    db.people := db.people[id := person.(health := health)];
    db.healthLog := db.healthLog[id := LogOf(db.healthLog, id) + [Change(person.health, health, ByHand)]];
    return Done;
  }

  // ---------------------------------------------------------------------------------------------
  // Trails
  // ---------------------------------------------------------------------------------------------

  lemma JoinKeepsChains(w: World, camp: int, d: NewPerson, code: string)
    requires w.nextId !in w.roster.people
    ensures Unbroken(w.roster) ==> Unbroken(Joined(w, camp, d, code).roster)
    ensures HealthUnbroken(w.roster) ==> HealthUnbroken(Joined(w, camp, d, code).roster)
  {}

  /**
    Committing a person update on a camp check that may have gone stale keeps the status chain always,
    and keeps the camp chain exactly when the person is still in that camp.
  */
  lemma StaleUpdateKeepsCampChainIff(w: World, camp: int, id: int, d: PersonUpdate, user: int)
    requires Unbroken(w.roster)
    requires CommitUpdate(w, camp, id, d, user).outcome.Done?
    ensures HealthUnbroken(CommitUpdate(w, camp, id, d, user).world.roster)
    ensures w.roster.people[id].camp == camp || LogOf(w.roster.campLog, id) == [] <==>
            Unbroken(CommitUpdate(w, camp, id, d, user).world.roster)
  {
    var r, s := w.roster, CommitUpdate(w, camp, id, d, user).world.roster;
    var p := r.people[id];
    if d.health.Some? && d.health.value != p.health {
      ChainGrows(LogOf(r.healthLog, id), p.health, d.health.value, ByHand);
    }
    forall q | q in s.people ensures Chained(LogOf(s.healthLog, q), s.people[q].health) {
      if q != id { assert s.people[q] == r.people[q] && LogOf(s.healthLog, q) == LogOf(r.healthLog, q); }
    }
    if w.roster.people[id].camp == camp || LogOf(r.campLog, id) == [] {
      forall q | q in s.people ensures Chained(LogOf(s.campLog, q), s.people[q].camp) {
        if q != id { assert s.people[q] == r.people[q]; }
      }
    } else {
      assert !Chained(LogOf(s.campLog, id), s.people[id].camp);
    }
  }
}
