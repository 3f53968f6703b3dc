/**
  People with their status logs and camp-transfer logs. Log rows carry the person's id, and only the
  order of the rows of one person means anything, so each log is kept as one sequence per person.
*/
module Census {
  import opened Core

  datatype Health = SICK | HEALTHY | INJURED | AWAY | DEAD

  datatype Person = Person(camp: int, profession: int, health: Health, code: string)

  /** What wrote a log row. */
  datatype Cause = ByTransfer(transfer: int) | ByExpedition(expedition: int) | ByHand

  datatype Change<T> = Change(before: T, after: T, cause: Cause)

  datatype Roster = Roster(
    people: map<int, Person>,
    healthLog: map<int, seq<Change<Health>>>,
    campLog: map<int, seq<Change<int>>>)

  function LogOf<T>(log: map<int, seq<Change<T>>>, person: int): seq<Change<T>> {
    if person in log then log[person] else []
  }

  /** An unbroken chain of real changes that ends at the current value. */
  ghost predicate Chained<T(!new)>(trail: seq<Change<T>>, current: T) {
    && (trail != [] ==> trail[|trail| - 1].after == current)
    && (forall i | 0 <= i < |trail| :: trail[i].before != trail[i].after)
    && (forall i | 0 < i < |trail| :: trail[i - 1].after == trail[i].before)
  }

  lemma ChainGrows<T(!new)>(trail: seq<Change<T>>, current: T, next: T, cause: Cause)
    requires Chained(trail, current) && current != next
    ensures Chained(trail + [Change(current, next, cause)], next)
  {}

  ghost predicate Unbroken(r: Roster) {
    && (forall p | p in r.people ::
          Chained(LogOf(r.healthLog, p), r.people[p].health) && Chained(LogOf(r.campLog, p), r.people[p].camp))
    && (forall p | p !in r.people :: LogOf(r.healthLog, p) == [] && LogOf(r.campLog, p) == [])
  }

  /** Health part of the invariant alone: it survives even writes that break the camp chain. */
  ghost predicate HealthUnbroken(r: Roster) {
    && (forall p | p in r.people :: Chained(LogOf(r.healthLog, p), r.people[p].health))
    && (forall p | p !in r.people :: LogOf(r.healthLog, p) == [])
  }

  /** Only existing, HEALTHY people of the camp may join an expedition or be put on a transfer. */
  function Eligible(people: map<int, Person>, ids: set<int>, camp: int): Outcome {
    if !(ids <= people.Keys) then Refused(404)
    else if exists p | p in ids :: people[p].camp != camp || people[p].health != HEALTHY then Refused(400)
    else Done
  }

  method CheckEligible(people: map<int, Person>, ids: seq<int>, camp: int) returns (o: Outcome)
    ensures o == Eligible(people, Elements(ids), camp)
  {
    var uniqueIds := Elements(ids);
    :- Need(uniqueIds <= people.Keys, 404);
    var todo := uniqueIds;
    while todo != {}
      invariant todo <= uniqueIds
      invariant forall p | p in uniqueIds - todo :: people[p].camp == camp && people[p].health == HEALTHY
      decreases todo
    {
      var p := AnyOf(todo);
      :- Need(people[p].camp == camp, 400);
      :- Need(people[p].health == HEALTHY, 400);
      todo := todo - {p};
    }
    return Done;
  }

  // ---------------------------------------------------------------------------------------------
  // What the services do to people, as functions of the whole roster
  // ---------------------------------------------------------------------------------------------

  predicate Changes(people: map<int, Person>, target: map<int, Health>, p: int) {
    p in target && p in people && people[p].health != target[p]
  }

  function Assigned(people: map<int, Person>, target: map<int, Health>): map<int, Person> {
    map p | p in people :: if p in target then people[p].(health := target[p]) else people[p]
  }

  function Logged(people: map<int, Person>, log: map<int, seq<Change<Health>>>, target: map<int, Health>, cause: Cause)
    : map<int, seq<Change<Health>>>
  {
    map p | p in log.Keys + (set q | q in target && Changes(people, target, q)) ::
      if Changes(people, target, p) then LogOf(log, p) + [Change(people[p].health, target[p], cause)]
      else LogOf(log, p)
  }

  /** Gives each listed person that exists its target status; a log row only where the status differs. */
  function SetHealth(r: Roster, target: map<int, Health>, cause: Cause): Roster {
    Roster(Assigned(r.people, target), Logged(r.people, r.healthLog, target, cause), r.campLog)
  }

  /** Moves each listed person to another camp, with one camp-log row each. */
  function Relocate(r: Roster, ids: set<int>, source: int, target: int, cause: Cause): Roster {
    Roster(
      map p | p in r.people :: if p in ids then r.people[p].(camp := target) else r.people[p],
      r.healthLog,
      map p | p in r.campLog.Keys + (ids * r.people.Keys) ::
        if p in ids && p in r.people then LogOf(r.campLog, p) + [Change(source, target, cause)]
        else LogOf(r.campLog, p))
  }

  function Uniform(ids: set<int>, health: Health): map<int, Health> {
    map p | p in ids :: health
  }

  lemma SetHealthKeepsChains(r: Roster, target: map<int, Health>, cause: Cause)
    ensures Unbroken(r) ==> Unbroken(SetHealth(r, target, cause))
    ensures HealthUnbroken(r) ==> HealthUnbroken(SetHealth(r, target, cause))
  {
    var s := SetHealth(r, target, cause);
    if HealthUnbroken(r) {
      forall p | p in s.people ensures Chained(LogOf(s.healthLog, p), s.people[p].health) {
        if Changes(r.people, target, p) {
          ChainGrows(LogOf(r.healthLog, p), r.people[p].health, target[p], cause);
        }
      }
    }
  }

  lemma RelocateKeepsChains(r: Roster, ids: set<int>, source: int, target: int, cause: Cause)
    requires source != target
    requires forall p | p in ids && p in r.people :: r.people[p].camp == source
    ensures Unbroken(r) ==> Unbroken(Relocate(r, ids, source, target, cause))
    ensures HealthUnbroken(r) ==> HealthUnbroken(Relocate(r, ids, source, target, cause))
  {
    var s := Relocate(r, ids, source, target, cause);
    if Unbroken(r) {
      forall p | p in s.people ensures Chained(LogOf(s.campLog, p), s.people[p].camp) {
        if p in ids {
          ChainGrows(LogOf(r.campLog, p), source, target, cause);
        }
      }
    }
  }

  function Only(target: map<int, Health>, ids: set<int>): map<int, Health> {
    map q | q in ids && q in target :: target[q]
  }

  /** Setting statuses one person at a time, in any order, builds the simultaneous update. */
  lemma SetHealthStep(r: Roster, target: map<int, Health>, done: set<int>, p: int, cause: Cause)
    requires p in target && p !in done
    ensures var s := SetHealth(r, Only(target, done), cause);
            && (p in s.people <==> p in r.people)
            && (p in r.people ==> s.people[p] == r.people[p])
            && SetHealth(r, Only(target, done + {p}), cause) ==
               if !Changes(r.people, target, p) then s
               else Roster(
                 s.people[p := s.people[p].(health := target[p])],
                 s.healthLog[p := LogOf(s.healthLog, p) + [Change(s.people[p].health, target[p], cause)]],
                 s.campLog)
  {
    AssignedStep(r.people, target, done, p);
    LoggedStep(r.people, r.healthLog, target, done, p, cause);
  }

  lemma AssignedStep(people: map<int, Person>, target: map<int, Health>, done: set<int>, p: int)
    requires p in target && p !in done
    ensures var s := Assigned(people, Only(target, done));
            Assigned(people, Only(target, done + {p})) ==
              if !Changes(people, target, p) then s else s[p := s[p].(health := target[p])]
  {
    var s, t := Assigned(people, Only(target, done)), Assigned(people, Only(target, done + {p}));
    if Changes(people, target, p) {
      assert t == s[p := s[p].(health := target[p])];
    } else {
      assert t == s;
    }
  }

  lemma LoggedStep(people: map<int, Person>, log: map<int, seq<Change<Health>>>, target: map<int, Health>,
                   done: set<int>, p: int, cause: Cause)
    requires p in target && p !in done
    ensures var s := Logged(people, log, Only(target, done), cause);
            && LogOf(s, p) == LogOf(log, p)
            && Logged(people, log, Only(target, done + {p}), cause) ==
              if !Changes(people, target, p) then s
              else s[p := LogOf(log, p) + [Change(people[p].health, target[p], cause)]]
  {
    var part, more := Only(target, done), Only(target, done + {p});
    var s, t := Logged(people, log, part, cause), Logged(people, log, more, cause);
    var want := if !Changes(people, target, p) then s else s[p := LogOf(log, p) + [Change(people[p].health, target[p], cause)]];
    forall q: int ensures (q in t <==> q in want) && (q in t ==> t[q] == want[q]) {
      assert q != p ==> Changes(people, part, q) == Changes(people, more, q);
    }
    assert t == want;
  }

  lemma SetHealthNobody(r: Roster, cause: Cause)
    ensures SetHealth(r, map[], cause) == r
  {
    var s := SetHealth(r, map[], cause);
    assert s.people == r.people;
    assert s.healthLog == r.healthLog;
  }

  lemma RelocateStep(r: Roster, done: set<int>, p: int, source: int, target: int, cause: Cause)
    requires p in r.people && p !in done
    ensures var s := Relocate(r, done, source, target, cause);
            && p in s.people && s.people[p] == r.people[p]
            && Relocate(r, done + {p}, source, target, cause) == Roster(
                 s.people[p := s.people[p].(camp := target)],
                 s.healthLog,
                 s.campLog[p := LogOf(s.campLog, p) + [Change(source, target, cause)]])
  {
    var s, t := Relocate(r, done, source, target, cause), Relocate(r, done + {p}, source, target, cause);
    assert LogOf(s.campLog, p) == LogOf(r.campLog, p);
    assert t.people == s.people[p := s.people[p].(camp := target)];
    assert t.campLog.Keys == s.campLog.Keys + {p};
    assert t.campLog == s.campLog[p := LogOf(s.campLog, p) + [Change(source, target, cause)]];
  }

  lemma RelocateNobody(r: Roster, source: int, target: int, cause: Cause)
    ensures Relocate(r, {}, source, target, cause) == r
  {
    var s := Relocate(r, {}, source, target, cause);
    assert s.people == r.people;
    assert s.campLog == r.campLog;
  }
}
