/**
  What a production day leaves in stock, told by what one more row or one more person changes. `before` is the
  database before the day; `a` and `b` are what a job leaves behind with and without that one thing.
*/
module ProductionLaws {
  import opened Core
  import opened Ledger
  import opened Tables
  import opened Production

  /** How much a slot grew during the day. */
  function Grown(before: World, after: World, s: Slot): int {
    Have(after.books.stock, s) - Have(before.books.stock, s)
  }

  /** A job, either of them, ran for the camp on these rows. */
  ghost predicate Ran(before: World, after: World, camp: int, people: seq<int>, rates: seq<Yield>, overrides: seq<Line>) {
    GainsApplied(before, after, camp, r => Gain(people, rates, overrides, r))
  }

  predicate NoneNegative(overrides: seq<Line>) {
    forall o | o in overrides :: o.amount >= 0
  }

  /** What the rows give per day for one head of a profession; negative amounts give nothing. */
  function PerHead(rates: seq<Yield>, profession: int, resource: int): nat {
    if rates == [] then 0
    else
      var y := rates[|rates| - 1];
      PerHead(rates[..|rates| - 1], profession, resource)
      + (if y.profession == profession && y.resource == resource && y.amount > 0 then y.amount else 0)
  }

  function AtLeastZero(x: int): int {
    if x < 0 then 0 else x
  }

  lemma {:induction false} NoneNegativeSum(overrides: seq<Line>, resource: int)
    requires NoneNegative(overrides)
    ensures SumFor(overrides, resource) >= 0
  {
    if overrides != [] {
      assert overrides[|overrides| - 1] in overrides;
      NoneNegativeSum(overrides[..|overrides| - 1], resource);
    }
  }

  lemma OneMoreHead(amount: int, heads: nat)
    ensures PositivePart(amount * (heads + 1)) == PositivePart(amount * heads) + PositivePart(amount)
  {
    assert amount * (heads + 1) == amount * heads + amount;
    if amount > 0 { assert amount * heads >= 0; } else { assert amount * heads <= 0; }
  }

  lemma {:induction false} OneMoreYields(people: seq<int>, profession: int, rates: seq<Yield>, resource: int)
    ensures Yielded(people + [profession], rates, resource) == Yielded(people, rates, resource) + PerHead(rates, profession, resource)
  {
    if rates != [] {
      var y := rates[|rates| - 1];
      OneMoreYields(people, profession, rates[..|rates| - 1], resource);
      assert (people + [profession])[..|people|] == people;
      OneMoreHead(y.amount, Members(people, y.profession));
    }
  }

  /** Nobody active: whatever the rows say, the day changes nothing. */
  lemma NobodyNothing(before: World, after: World, camp: int, rates: seq<Yield>, overrides: seq<Line>, s: Slot)
    requires Ran(before, after, camp, [], rates, overrides)
    ensures Grown(before, after, s) == 0
  {}

  /**
    One more override row of x on r: r grows by x more, but never below zero, and no other slot differs. For a
    positive x the other overrides must not be negative, or it would first make up for them.
  */
  lemma OneMoreOverride(before: World, a: World, b: World, camp: int, people: seq<int>, rates: seq<Yield>,
                        overrides: seq<Line>, r: int, x: int, s: Slot)
    requires people != [] && (x <= 0 || NoneNegative(overrides))
    requires Ran(before, a, camp, people, rates, overrides)
    requires Ran(before, b, camp, people, rates, overrides + [Line(r, x)])
    ensures Grown(before, b, s) == if s == Slot(camp, r) then AtLeastZero(Grown(before, a, s) + x) else Grown(before, a, s)
  {
    SumForConcat(overrides, [Line(r, x)], s.resource);
    assert [Line(r, x)][..0] == [];
    if x > 0 { NoneNegativeSum(overrides, s.resource); }
  }

  /** One more person of a profession: each resource grows by what the rows give that profession per head. */
  lemma OneMorePerson(before: World, a: World, b: World, camp: int, people: seq<int>, profession: int,
                      rates: seq<Yield>, overrides: seq<Line>, s: Slot)
    requires people != [] && NoneNegative(overrides)
    requires Ran(before, a, camp, people, rates, overrides)
    requires Ran(before, b, camp, people + [profession], rates, overrides)
    ensures Grown(before, b, s) == Grown(before, a, s) + (if s.camp == camp then PerHead(rates, profession, s.resource) else 0)
  {
    OneMoreYields(people, profession, rates, s.resource);
    NoneNegativeSum(overrides, s.resource);
  }

  /** The first person brings the overrides with them. */
  lemma FirstPerson(before: World, after: World, camp: int, profession: int, rates: seq<Yield>, overrides: seq<Line>, s: Slot)
    requires Ran(before, after, camp, [profession], rates, overrides)
    ensures Grown(before, after, s) ==
            if s.camp == camp then AtLeastZero(PerHead(rates, profession, s.resource) + SumFor(overrides, s.resource)) else 0
  {
    OneMoreYields([], profession, rates, s.resource);
    NoHeads(rates, s.resource);
    assert [] + [profession] == [profession];
  }

  lemma {:induction false} NoHeads(rates: seq<Yield>, resource: int)
    ensures Yielded([], rates, resource) == 0
  {
    if rates != [] { NoHeads(rates[..|rates| - 1], resource); }
  }

  /** Two of profession 1 and one of 2: 3.00 a head of resource 5, an override of 2.00 on it, and one of -0.80 on resource 6. */
  lemma ADayInNumbers(before: World, after: World, camp: int)
    requires Ran(before, after, camp, [1, 1, 2], [Yield(1, 5, 300), Yield(2, 5, -100), Yield(2, 6, 50)], [Line(5, 200), Line(6, -80)])
    ensures Grown(before, after, Slot(camp, 5)) == 800
    ensures Grown(before, after, Slot(camp, 6)) == 0
    ensures forall s: Slot | s.camp != camp || s.resource !in {5, 6} :: Grown(before, after, s) == 0
  {
    var people, rates, overrides := [1, 1, 2], [Yield(1, 5, 300), Yield(2, 5, -100), Yield(2, 6, 50)], [Line(5, 200), Line(6, -80)];
    MembersByMultiset(people, 1);
    MembersByMultiset(people, 2);
    assert multiset(people) == multiset{1, 1, 2};
    assert rates[..2][..1] == rates[..1] && rates[..1][..0] == [] && overrides[..1][..0] == [];
    forall r: int ensures Yielded(people, rates, r) == (if r == 5 then 600 else if r == 6 then 50 else 0)
      ensures SumFor(overrides, r) == (if r == 5 then 200 else if r == 6 then -80 else 0)
    {
      assert Yielded(people, rates[..0], r) == 0;
      assert Yielded(people, rates[..1], r) == if r == 5 then 600 else 0;
      assert Yielded(people, rates[..2], r) == if r == 5 then 600 else 0;
      assert SumFor(overrides[..1], r) == if r == 5 then 200 else 0;
    }
  }
}
