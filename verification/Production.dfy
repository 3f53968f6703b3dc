/** The daily production job, written twice in the system: with a head-count map and with a rescan. */
module Production {
  import opened Core
  import opened Ledger
  import opened Tables
  import opened Store
  import opened Inventory

  /** `professions_resources_amounts`: what one member of a profession rates of a resource per day. */
  datatype Yield = Yield(profession: int, resource: int, amount: int)

  // ---------------------------------------------------------------------------------------------
  // What a day should add
  // ---------------------------------------------------------------------------------------------

  /** Head count of a profession among the active people, each given by their profession. */
  function Members(people: seq<int>, profession: int): nat {
    if people == [] then 0
    else Members(people[..|people| - 1], profession) + (if people[|people| - 1] == profession then 1 else 0)
  }

  function PositivePart(x: int): nat {
    if x > 0 then x else 0
  }

  /** Positive yields only, per head. */
  function Yielded(people: seq<int>, rates: seq<Yield>, resource: int): nat {
    if rates == [] then 0
    else
      var y := rates[|rates| - 1];
      Yielded(people, rates[..|rates| - 1], resource)
      + (if y.resource == resource then PositivePart(y.amount * Members(people, y.profession)) else 0)
  }

  /** The positive part of yields plus overrides; nothing at all for a camp with no active people. */
  function Gain(people: seq<int>, rates: seq<Yield>, overrides: seq<Line>, resource: int): nat {
    if people == [] then 0 else PositivePart(Yielded(people, rates, resource) + SumFor(overrides, resource))
  }

  /** The camp's stock of every resource grew by its gain and the log says so; nothing else changed. */
  ghost predicate GainsApplied(before: World, after: World, camp: int, gain: int -> int) {
    && after == before.(books := after.books)
    && (forall s: Slot :: Have(after.books.stock, s) == Have(before.books.stock, s) + (if s.camp == camp then gain(s.resource) else 0))
    && |before.books.log| <= |after.books.log|
    && before.books.log == after.books.log[..|before.books.log|]
    && (forall s: Slot, o: Origin :: NetOf(after.books.log, s, o) ==
          NetOf(before.books.log, s, o) + (if s.camp == camp && o == DailyGain then gain(s.resource) else 0))
  }

  /** The order of yield rows and of override rows does not matter. */
  lemma {:induction false} YieldedByMultiset(people: seq<int>, a: seq<Yield>, b: seq<Yield>, resource: int)
    requires multiset(a) == multiset(b)
    ensures Yielded(people, a, resource) == Yielded(people, b, resource)
    decreases |a|
  {
    if a == [] {
      assert |multiset(b)| == 0;
    } else {
      var i := MatchLast(a, b);
      YieldedByMultiset(people, a[..|a| - 1], b[..i] + b[i + 1..], resource);
      YieldedConcat(people, b[..i], b[i + 1..], resource);
      YieldedConcat(people, b[..i + 1], b[i + 1..], resource);
      assert b[..i + 1][..i] == b[..i] && b[..i + 1] + b[i + 1..] == b;
    }
  }

  lemma {:induction false} YieldedConcat(people: seq<int>, a: seq<Yield>, b: seq<Yield>, resource: int)
    ensures Yielded(people, a + b, resource) == Yielded(people, a, resource) + Yielded(people, b, resource)
  {
    if b == [] {
      assert a + b == a;
    } else {
      assert (a + b)[..|a + b| - 1] == a + b[..|b| - 1];
      YieldedConcat(people, a, b[..|b| - 1], resource);
    }
  }

  lemma {:induction false} OverridesByMultiset(a: seq<Line>, b: seq<Line>, resource: int)
    requires multiset(a) == multiset(b)
    ensures SumFor(a, resource) == SumFor(b, resource)
    decreases |a|
  {
    if a == [] {
      assert |multiset(b)| == 0;
    } else {
      var i := MatchLast(a, b);
      OverridesByMultiset(a[..|a| - 1], b[..i] + b[i + 1..], resource);
      SumForConcat(b[..i], b[i + 1..], resource);
      SumForConcat(b[..i + 1], b[i + 1..], resource);
      assert b[..i + 1][..i] == b[..i] && b[..i + 1] + b[i + 1..] == b;
    }
  }

  lemma {:induction false} SumForConcat(a: seq<Line>, b: seq<Line>, resource: int)
    ensures SumFor(a + b, resource) == SumFor(a, resource) + SumFor(b, resource)
  {
    if b == [] {
      assert a + b == a;
    } else {
      assert (a + b)[..|a + b| - 1] == a + b[..|b| - 1];
      SumForConcat(a, b[..|b| - 1], resource);
    }
  }

  lemma {:induction false} MembersByMultiset(people: seq<int>, profession: int)
    ensures Members(people, profession) == multiset(people)[profession]
  {
    if people != [] {
      MembersByMultiset(people[..|people| - 1], profession);
      assert people == people[..|people| - 1] + [people[|people| - 1]];
    }
  }

  lemma {:induction false} YieldedByMembers(p: seq<int>, q: seq<int>, rates: seq<Yield>, resource: int)
    requires multiset(p) == multiset(q)
    ensures Yielded(p, rates, resource) == Yielded(q, rates, resource)
  {
    if rates != [] {
      YieldedByMembers(p, q, rates[..|rates| - 1], resource);
      MembersByMultiset(p, rates[|rates| - 1].profession);
      MembersByMultiset(q, rates[|rates| - 1].profession);
    }
  }

  /** So the gain of a resource depends on people, yield rows and override rows only as multisets. */
  lemma GainIgnoresOrder(p: seq<int>, q: seq<int>, a: seq<Yield>, b: seq<Yield>, c: seq<Line>, d: seq<Line>, resource: int)
    requires multiset(p) == multiset(q) && multiset(a) == multiset(b) && multiset(c) == multiset(d)
    ensures Gain(p, a, c, resource) == Gain(q, b, d, resource)
  {
    assert |multiset(p)| == |p| && |multiset(q)| == |q|;
    YieldedByMembers(p, q, a, resource);
    YieldedByMultiset(q, a, b, resource);
    OverridesByMultiset(c, d, resource);
  }

  // ---------------------------------------------------------------------------------------------
  // Running totals
  // ---------------------------------------------------------------------------------------------

  function At(totals: map<int, int>, resource: int): int {
    if resource in totals then totals[resource] else 0
  }

  /** The totals hold what the rows seen so far yield. */
  ghost predicate TotalsAre(totals: map<int, int>, people: seq<int>, rates: seq<Yield>, overrides: seq<Line>) {
    forall r: int :: At(totals, r) == Yielded(people, rates, r) + SumFor(overrides, r)
  }

  lemma NoMembersNoYield(people: seq<int>, rates: seq<Yield>, i: nat, resource: int)
    requires i < |rates|
    ensures var y := rates[i];
            Yielded(people, rates[..i + 1], resource) == Yielded(people, rates[..i], resource)
              + (if y.resource == resource then PositivePart(y.amount * Members(people, y.profession)) else 0)
  {
    assert rates[..i + 1][..i] == rates[..i];
  }

  lemma AddYield(totals: map<int, int>, people: seq<int>, rates: seq<Yield>, i: nat)
    requires i < |rates| && TotalsAre(totals, people, rates[..i], [])
    ensures var y := rates[i];
            var total := y.amount * Members(people, y.profession);
            && (total <= 0 ==> TotalsAre(totals, people, rates[..i + 1], []))
            && (total > 0 ==> TotalsAre(totals[y.resource := At(totals, y.resource) + total], people, rates[..i + 1], []))
  {
    var y := rates[i];
    var total := y.amount * Members(people, y.profession);
    forall r: int
      ensures Yielded(people, rates[..i + 1], r) ==
        Yielded(people, rates[..i], r) + (if y.resource == r then PositivePart(total) else 0)
    {
      NoMembersNoYield(people, rates, i, r);
    }
    if total > 0 {
      var more := totals[y.resource := At(totals, y.resource) + total];
      forall r: int ensures At(more, r) == Yielded(people, rates[..i + 1], r) + SumFor([], r) {
        assert At(totals, r) == Yielded(people, rates[..i], r) + SumFor([], r);
      }
    } else {
      forall r: int ensures At(totals, r) == Yielded(people, rates[..i + 1], r) + SumFor([], r) {
        assert At(totals, r) == Yielded(people, rates[..i], r) + SumFor([], r);
      }
    }
  }

  // ---------------------------------------------------------------------------------------------
  // The TypeScript job: count heads once, then look the count up
  // ---------------------------------------------------------------------------------------------

  method BuildProfessionTotals(people: seq<int>, rates: seq<Yield>) returns (totals: map<int, int>)
    ensures TotalsAre(totals, people, rates, [])
  {
    var activePeopleByProfession: map<int, int> := map[];
    for i := 0 to |people|
      invariant forall p: int :: At(activePeopleByProfession, p) == Members(people[..i], p)
    {
      assert people[..i + 1][..i] == people[..i];
      activePeopleByProfession := activePeopleByProfession[people[i] := At(activePeopleByProfession, people[i]) + 1];
    }
    assert people[..|people|] == people;
    totals := map[];
    for i := 0 to |rates|
      invariant TotalsAre(totals, people, rates[..i], [])
    {
      AddYield(totals, people, rates, i);
      var amount := rates[i];
      var activeCount := At(activePeopleByProfession, amount.profession);
      assert activeCount == Members(people, amount.profession);
      if activeCount == 0 {
        continue;
      }
      var total := amount.amount * activeCount;
      if total <= 0 {
        continue;
      }
      totals := totals[amount.resource := At(totals, amount.resource) + total];
    }
    assert rates[..|rates|] == rates;
  }

  method AddOverrides(totals: map<int, int>, overrides: seq<Line>, ghost people: seq<int>, ghost rates: seq<Yield>)
    returns (all: map<int, int>)
    requires TotalsAre(totals, people, rates, [])
    ensures TotalsAre(all, people, rates, overrides)
  {
    all := totals;
    for i := 0 to |overrides|
      invariant TotalsAre(all, people, rates, overrides[..i])
    {
      assert overrides[..i + 1][..i] == overrides[..i];
      var o := overrides[i];
      ghost var before := all;
      all := all[o.resource := At(all, o.resource) + o.amount];
      forall r: int ensures At(all, r) == Yielded(people, rates, r) + SumFor(overrides[..i + 1], r) {
        assert At(before, r) == Yielded(people, rates, r) + SumFor(overrides[..i], r);
      }
    }
    assert overrides[..|overrides|] == overrides;
  }

  function GainSoFar(totals: map<int, int>, done: set<int>): int -> int {
    r => if r in done && r in totals then totals[r] else 0
  }

  /** Each positive total is one transaction of its own, in whatever order the map is walked. */
  method ApplyTotals(db: Database, camp: int, totals: map<int, int>)
    modifies db
    ensures GainsApplied(old(db.Snapshot()), db.Snapshot(), camp, r => PositivePart(At(totals, r)))
  {
    var todo := set r | r in totals && totals[r] > 0;
    ghost var all, before, done := todo, db.Snapshot(), {};
    while todo != {}
      invariant done !! todo && done + todo == all
      invariant GainsApplied(before, db.Snapshot(), camp, GainSoFar(totals, done))
      decreases todo
    {
      var r := AnyOf(todo);
      ApplyTotal(db, before, camp, totals, done, r);
      todo, done := todo - {r}, done + {r};
    }
    GainsExtensional(before, db.Snapshot(), camp, GainSoFar(totals, done), r => PositivePart(At(totals, r)));
  }

  method ApplyTotal(db: Database, ghost before: World, camp: int, totals: map<int, int>, ghost done: set<int>, r: int)
    requires r in totals && totals[r] > 0 && r !in done
    requires GainsApplied(before, db.Snapshot(), camp, GainSoFar(totals, done))
    modifies db
    ensures GainsApplied(before, db.Snapshot(), camp, GainSoFar(totals, done + {r}))
  {
    ghost var w := db.Snapshot();
    var o := IncreaseInventoryWithLog(db, camp, r, totals[r]);
    OneMoreGain(before, w, camp, GainSoFar(totals, done), GainSoFar(totals, done + {r}), r, totals[r]);
  }

  lemma OneMoreGain(before: World, w: World, camp: int, gain: int -> int, more: int -> int, resource: int, amount: int)
    requires GainsApplied(before, w, camp, gain) && amount > 0
    requires forall r: int :: more(r) == gain(r) + (if r == resource then amount else 0)
    ensures GainsApplied(before, Increase(w, camp, resource, amount).world, camp, more)
  {
    var after := Increase(w, camp, resource, amount).world;
    GainInStock(w, camp, resource, amount);
    GainInLog(w, camp, resource, amount);
    assert after.books.log[..|before.books.log|] == w.books.log[..|before.books.log|];
  }

  lemma GainInStock(w: World, camp: int, resource: int, amount: int)
    requires amount > 0
    ensures var after := Increase(w, camp, resource, amount).world;
            && after == w.(books := after.books)
            && forall s: Slot :: Have(after.books.stock, s) ==
                 Have(w.books.stock, s) + (if s == Slot(camp, resource) then amount else 0)
  {
    PostOne(w.books, Movement(Slot(camp, resource), DailyGain, amount));
  }

  lemma GainInLog(w: World, camp: int, resource: int, amount: int)
    requires amount > 0
    ensures var after, m := Increase(w, camp, resource, amount).world, Movement(Slot(camp, resource), DailyGain, amount);
            && after.books.log == w.books.log + [m]
            && forall s: Slot, o: Origin :: NetOf(after.books.log, s, o) ==
                 NetOf(w.books.log, s, o) + (if s == Slot(camp, resource) && o == DailyGain then amount else 0)
  {
    var m := Movement(Slot(camp, resource), DailyGain, amount);
    PostOne(w.books, m);
    assert (w.books.log + [m])[..|w.books.log|] == w.books.log;
  }

  lemma GainsExtensional(before: World, after: World, camp: int, f: int -> int, g: int -> int)
    requires GainsApplied(before, after, camp, f)
    requires forall r: int :: f(r) == g(r)
    ensures GainsApplied(before, after, camp, g)
  {}

  method ProcessCampProduction(db: Database, camp: int, people: seq<int>, rates: seq<Yield>, overrides: seq<Line>)
    modifies db
    ensures GainsApplied(old(db.Snapshot()), db.Snapshot(), camp, r => Gain(people, rates, overrides, r))
  {
    if |people| == 0 {
      return;
    }
    var forCamp := OfActiveProfessions(rates, people);
    YieldsForCamp(people, rates);
    if |forCamp| == 0 && |overrides| == 0 {
      return;
    }
    var totals := BuildProfessionTotals(people, forCamp);
    totals := AddOverrides(totals, overrides, people, forCamp);
    ghost var before := db.Snapshot();
    ApplyTotals(db, camp, totals);
    GainsExtensional(before, db.Snapshot(), camp, r => PositivePart(At(totals, r)), r => Gain(people, rates, overrides, r));
  }

  /** `professionResourceAmounts.filter(...)` by the professions present. */
  function OfActiveProfessions(rates: seq<Yield>, people: seq<int>): seq<Yield> {
    if rates == [] then []
    else
      var front, y := OfActiveProfessions(rates[..|rates| - 1], people), rates[|rates| - 1];
      if y.profession in people then front + [y] else front
  }

  lemma {:induction false} YieldsForCamp(people: seq<int>, rates: seq<Yield>)
    ensures forall r: int :: Yielded(people, OfActiveProfessions(rates, people), r) == Yielded(people, rates, r)
  {
    if rates != [] {
      var front, y := rates[..|rates| - 1], rates[|rates| - 1];
      YieldsForCamp(people, front);
      if y.profession in people {
        var kept := OfActiveProfessions(front, people);
        assert (kept + [y])[..|kept|] == kept;
      } else {
        AbsentHasNoMembers(people, y.profession);
      }
    }
  }

  lemma {:induction false} AbsentHasNoMembers(people: seq<int>, profession: int)
    ensures Members(people, profession) == 0 <==> profession !in people
  {
    if people != [] {
      var front := people[..|people| - 1];
      AbsentHasNoMembers(front, profession);
      assert people == front + [people[|people| - 1]];
    }
  }

  // ---------------------------------------------------------------------------------------------
  // The Go job: rescan the people for every yield row
  // ---------------------------------------------------------------------------------------------

  method CountProfessionMembers(people: seq<int>, profession: int) returns (count: nat)
    ensures count == Members(people, profession)
  {
    count := 0;
    for i := 0 to |people|
      invariant count == Members(people[..i], profession)
    {
      assert people[..i + 1][..i] == people[..i];
      if people[i] == profession {
        count := count + 1;
      }
    }
    assert people[..|people|] == people;
  }

  method RescanProfessionTotals(people: seq<int>, rates: seq<Yield>) returns (totals: map<int, int>)
    ensures TotalsAre(totals, people, rates, [])
  {
    var activeProfessionIds := Elements(people);
    totals := map[];
    for i := 0 to |rates|
      invariant TotalsAre(totals, people, rates[..i], [])
    {
      AddYield(totals, people, rates, i);
      AbsentHasNoMembers(people, rates[i].profession);
      if rates[i].profession !in activeProfessionIds {
        continue;
      }
      var members := CountProfessionMembers(people, rates[i].profession);
      var total := rates[i].amount * members;
      if total <= 0 {
        continue;
      }
      totals := totals[rates[i].resource := At(totals, rates[i].resource) + total];
    }
    assert rates[..|rates|] == rates;
  }

  method GoProcessCampProduction(db: Database, camp: int, people: seq<int>, rates: seq<Yield>, overrides: seq<Line>)
    modifies db
    ensures GainsApplied(old(db.Snapshot()), db.Snapshot(), camp, r => Gain(people, rates, overrides, r))
  {
    if |people| == 0 {
      return;
    }
    var totals := RescanProfessionTotals(people, rates);
    totals := AddOverrides(totals, overrides, people, rates);
    ghost var before := db.Snapshot();
    ApplyTotals(db, camp, totals);
    GainsExtensional(before, db.Snapshot(), camp, r => PositivePart(At(totals, r)), r => Gain(people, rates, overrides, r));
  }

  /**
    The two jobs agree: whatever order each reads people, yields and overrides in, they leave the same
    stock in every slot and the same totals in the log.
  */
  lemma JobsAgree(before: World, ts: World, go: World, camp: int, p: seq<int>, q: seq<int>,
                  a: seq<Yield>, b: seq<Yield>, c: seq<Line>, d: seq<Line>)
    requires multiset(p) == multiset(q) && multiset(a) == multiset(b) && multiset(c) == multiset(d)
    requires GainsApplied(before, ts, camp, r => Gain(p, a, c, r))
    requires GainsApplied(before, go, camp, r => Gain(q, b, d, r))
    ensures forall s: Slot :: Have(ts.books.stock, s) == Have(go.books.stock, s)
    ensures forall s: Slot, o: Origin :: NetOf(ts.books.log, s, o) == NetOf(go.books.log, s, o)
  {
    forall r: int ensures Gain(p, a, c, r) == Gain(q, b, d, r) { GainIgnoresOrder(p, q, a, b, c, d, r); }
  }
}
