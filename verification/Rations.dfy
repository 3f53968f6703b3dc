/** The daily ration job: who comes first, who gets a portion, and what is taken out of stock. */
module Rations {
  import opened Core
  import opened Ledger
  import opened Tables
  import opened Store
  import opened Inventory

  /** A person with the lower-cased name of their profession. */
  datatype Citizen = Citizen(id: int, age: Option<int>, profession: string)

  // ---------------------------------------------------------------------------------------------
  // Priority
  // ---------------------------------------------------------------------------------------------

  predicate OccursAt(text: string, word: string, i: int) {
    0 <= i <= |text| - |word| && text[i..i + |word|] == word
  }

  /** `text.includes(word)` */
  predicate Contains(text: string, word: string) {
    exists i | 0 <= i <= |text| :: OccursAt(text, word, i)
  }

  predicate IsChild(p: Citizen, childAge: int) {
    p.age.Some? && p.age.value <= childAge
  }

  predicate IsDoctor(p: Citizen) {
    Contains(p.profession, "doctor") || Contains(p.profession, "medic")
  }

  predicate IsExplorer(p: Citizen) {
    Contains(p.profession, "explorer") || Contains(p.profession, "scout")
  }

  /** Children first, then doctors and medics, then explorers and scouts, then everybody else. */
  function Rank(p: Citizen, childAge: int): nat {
    if IsChild(p, childAge) then 0 else if IsDoctor(p) then 1 else if IsExplorer(p) then 2 else 3
  }

  function OfRank(people: seq<Citizen>, childAge: int, rank: nat): seq<Citizen> {
    if people == [] then []
    else
      var front, last := OfRank(people[..|people| - 1], childAge, rank), people[|people| - 1];
      if Rank(last, childAge) == rank then front + [last] else front
  }

  ghost predicate DistinctIds(people: seq<Citizen>) {
    forall i, j | 0 <= i < j < |people| :: people[i].id != people[j].id
  }

  predicate RankOrdered(people: seq<Citizen>, childAge: int) {
    forall i, j | 0 <= i < j < |people| :: Rank(people[i], childAge) <= Rank(people[j], childAge)
  }

  /** `order` lists `people` by rank and keeps, within each rank, the order they came in. */
  ghost predicate StableByRank(people: seq<Citizen>, order: seq<Citizen>, childAge: int) {
    RankOrdered(order, childAge) && forall r: nat :: OfRank(order, childAge, r) == OfRank(people, childAge, r)
  }

  ghost predicate SeenUpTo(seen: set<int>, people: seq<Citizen>, childAge: int, i: nat, rank: nat)
    requires i <= |people|
  {
    forall j | 0 <= j < |people| :: people[j].id in seen <==>
      Rank(people[j], childAge) < rank || (j < i && Rank(people[j], childAge) == rank)
  }

  /** Four filters, each followed by a loop that takes whom it found. */
  method BuildPriorityPeople(people: seq<Citizen>, childAge: int) returns (priority: seq<Citizen>)
    requires DistinctIds(people)
    ensures StableByRank(people, priority, childAge)
    ensures multiset(priority) == multiset(people)
  {
    var seen: set<int> := {};
    priority := [];
    seen, priority := FilterThenTake(people, p => IsChild(p, childAge), childAge, 0, seen, priority);
    seen, priority := FilterThenTake(people, IsDoctor, childAge, 1, seen, priority);
    seen, priority := FilterThenTake(people, IsExplorer, childAge, 2, seen, priority);
    seen, priority := Pass(people, p => true, childAge, 3, seen, priority);
    assert priority == ByRank(people, childAge);
    FourRanks(people, childAge);
  }

  /** The Go job: four passes, each checking and taking one person at a time. */
  method GoBuildPriorityPeople(people: seq<Citizen>, childAge: int) returns (priority: seq<Citizen>)
    requires DistinctIds(people)
    ensures StableByRank(people, priority, childAge)
    ensures multiset(priority) == multiset(people)
  {
    var seen: set<int> := {};
    priority := [];
    seen, priority := Pass(people, p => IsChild(p, childAge), childAge, 0, seen, priority);
    seen, priority := Pass(people, IsDoctor, childAge, 1, seen, priority);
    seen, priority := Pass(people, IsExplorer, childAge, 2, seen, priority);
    seen, priority := Pass(people, p => true, childAge, 3, seen, priority);
    assert priority == ByRank(people, childAge);
    FourRanks(people, childAge);
  }

  method FilterThenTake(people: seq<Citizen>, wanted: Citizen -> bool, ghost childAge: int, ghost rank: nat,
                        seen: set<int>, priority: seq<Citizen>)
    returns (seenNow: set<int>, longer: seq<Citizen>)
    requires DistinctIds(people) && SeenUpTo(seen, people, childAge, 0, rank)
    requires forall p :: Rank(p, childAge) >= rank ==> (wanted(p) <==> Rank(p, childAge) == rank)
    ensures SeenUpTo(seenNow, people, childAge, 0, rank + 1)
    ensures longer == priority + OfRank(people, childAge, rank)
  {
    var found := [];
    for i := 0 to |people|
      invariant found == OfRank(people[..i], childAge, rank)
    {
      assert people[..i + 1][..i] == people[..i];
      if people[i].id !in seen && wanted(people[i]) {
        found := found + [people[i]];
      }
    }
    assert people[..|people|] == people;
    seenNow, longer := seen, priority;
    for i := 0 to |found|
      invariant seenNow == seen + (set p | p in found[..i] :: p.id)
      invariant longer == priority + found[..i]
    {
      assert found[..i + 1] == found[..i] + [found[i]];
      seenNow := seenNow + {found[i].id};
      longer := longer + [found[i]];
    }
    assert found[..|found|] == found;
    FoundAreOfRank(people, childAge, rank);
  }

  lemma {:induction false} FoundAreOfRank(people: seq<Citizen>, childAge: int, rank: nat)
    ensures forall p: Citizen :: p in OfRank(people, childAge, rank) <==> p in people && Rank(p, childAge) == rank
  {
    if people != [] {
      var front, last := people[..|people| - 1], people[|people| - 1];
      FoundAreOfRank(front, childAge, rank);
      assert people == front + [last];
    }
  }

  method Pass(people: seq<Citizen>, wanted: Citizen -> bool, ghost childAge: int, ghost rank: nat, seen: set<int>, priority: seq<Citizen>)
    returns (seenNow: set<int>, longer: seq<Citizen>)
    requires DistinctIds(people) && SeenUpTo(seen, people, childAge, 0, rank)
    requires forall p :: Rank(p, childAge) >= rank ==> (wanted(p) <==> Rank(p, childAge) == rank)
    ensures SeenUpTo(seenNow, people, childAge, 0, rank + 1)
    ensures longer == priority + OfRank(people, childAge, rank)
  {
    seenNow, longer := seen, priority;
    for i := 0 to |people|
      invariant longer == priority + OfRank(people[..i], childAge, rank)
      invariant SeenUpTo(seenNow, people, childAge, i, rank)
    {
      assert people[..i + 1][..i] == people[..i];
      if people[i].id !in seenNow && wanted(people[i]) {
        seenNow := seenNow + {people[i].id};
        longer := longer + [people[i]];
      }
    }
    assert people[..|people|] == people;
  }

  function ByRank(people: seq<Citizen>, childAge: int): seq<Citizen> {
    OfRank(people, childAge, 0) + OfRank(people, childAge, 1) + OfRank(people, childAge, 2) + OfRank(people, childAge, 3)
  }

  lemma FourRanks(people: seq<Citizen>, childAge: int)
    ensures StableByRank(people, ByRank(people, childAge), childAge)
    ensures multiset(ByRank(people, childAge)) == multiset(people)
  {
    AllOfRank(people, childAge, 0);
    AllOfRank(people, childAge, 1);
    AllOfRank(people, childAge, 2);
    AllOfRank(people, childAge, 3);
    RanksAreAll(people, childAge);
    forall r: nat ensures OfRank(ByRank(people, childAge), childAge, r) == OfRank(people, childAge, r) {
      RankOfByRank(people, childAge, r);
    }
  }

  lemma RankOfByRank(people: seq<Citizen>, childAge: int, r: nat)
    ensures OfRank(ByRank(people, childAge), childAge, r) == OfRank(people, childAge, r)
  {
    var a, b, c, d := OfRank(people, childAge, 0), OfRank(people, childAge, 1), OfRank(people, childAge, 2), OfRank(people, childAge, 3);
    OfRankConcat(a + b + c, d, childAge, r);
    OfRankConcat(a + b, c, childAge, r);
    OfRankConcat(a, b, childAge, r);
    OfRankAgain(people, childAge, 0, r);
    OfRankAgain(people, childAge, 1, r);
    OfRankAgain(people, childAge, 2, r);
    OfRankAgain(people, childAge, 3, r);
    if r > 3 { NobodyAbove(people, childAge, r); }
    OneOfFour(a, b, c, d, r);
  }

  lemma OneOfFour<T>(a: seq<T>, b: seq<T>, c: seq<T>, d: seq<T>, r: nat)
    ensures (if r == 0 then a else []) + (if r == 1 then b else []) + (if r == 2 then c else []) + (if r == 3 then d else []) ==
            if r == 0 then a else if r == 1 then b else if r == 2 then c else if r == 3 then d else []
  {}

  lemma {:induction false} AllOfRank(people: seq<Citizen>, childAge: int, rank: nat)
    ensures forall i | 0 <= i < |OfRank(people, childAge, rank)| :: Rank(OfRank(people, childAge, rank)[i], childAge) == rank
  {
    if people != [] { AllOfRank(people[..|people| - 1], childAge, rank); }
  }

  lemma {:induction false} NobodyAbove(people: seq<Citizen>, childAge: int, rank: nat)
    requires rank > 3
    ensures OfRank(people, childAge, rank) == []
  {
    if people != [] { NobodyAbove(people[..|people| - 1], childAge, rank); }
  }

  lemma {:induction false} OfRankConcat(a: seq<Citizen>, b: seq<Citizen>, childAge: int, rank: nat)
    ensures OfRank(a + b, childAge, rank) == OfRank(a, childAge, rank) + OfRank(b, childAge, rank)
  {
    if b == [] {
      assert a + b == a;
    } else {
      assert (a + b)[..|a + b| - 1] == a + b[..|b| - 1];
      OfRankConcat(a, b[..|b| - 1], childAge, rank);
    }
  }

  lemma {:induction false} OfRankAgain(people: seq<Citizen>, childAge: int, inner: nat, outer: nat)
    ensures OfRank(OfRank(people, childAge, inner), childAge, outer) == if inner == outer then OfRank(people, childAge, inner) else []
  {
    if people != [] {
      OfRankAgain(people[..|people| - 1], childAge, inner, outer);
      var front, last := OfRank(people[..|people| - 1], childAge, inner), people[|people| - 1];
      if Rank(last, childAge) == inner {
        assert (front + [last])[..|front|] == front;
      }
    }
  }

  lemma RanksAreAll(people: seq<Citizen>, childAge: int)
    ensures multiset(ByRank(people, childAge)) == multiset(people)
  {
    ByRankAsMultiset(people, childAge);
    forall c: Citizen ensures multiset(ByRank(people, childAge))[c] == multiset(people)[c] {
      CountOfRank(people, childAge, 0, c);
      CountOfRank(people, childAge, 1, c);
      CountOfRank(people, childAge, 2, c);
      CountOfRank(people, childAge, 3, c);
    }
  }

  lemma {:induction false} CountOfRank(people: seq<Citizen>, childAge: int, rank: nat, c: Citizen)
    ensures multiset(OfRank(people, childAge, rank))[c] == if Rank(c, childAge) == rank then multiset(people)[c] else 0
  {
    if people != [] {
      var front, last := people[..|people| - 1], people[|people| - 1];
      CountOfRank(front, childAge, rank, c);
      assert people == front + [last];
    }
  }

  lemma ByRankAsMultiset(people: seq<Citizen>, childAge: int)
    ensures multiset(ByRank(people, childAge)) ==
      multiset(OfRank(people, childAge, 0)) + multiset(OfRank(people, childAge, 1))
      + multiset(OfRank(people, childAge, 2)) + multiset(OfRank(people, childAge, 3))
  {}

  /** There is only one such order: the four passes compute the stable sort by rank. */
  lemma {:induction false} StableOrderUnique(people: seq<Citizen>, a: seq<Citizen>, b: seq<Citizen>, childAge: int)
    requires StableByRank(people, a, childAge) && StableByRank(people, b, childAge)
    ensures a == b
  {
    OrderedIsByRank(a, childAge);
    OrderedIsByRank(b, childAge);
  }

  lemma {:induction false} OrderedIsByRank(order: seq<Citizen>, childAge: int)
    requires RankOrdered(order, childAge)
    ensures order == ByRank(order, childAge)
  {
    if order != [] {
      var front, last := order[..|order| - 1], order[|order| - 1];
      forall i, j | 0 <= i < j < |front| ensures Rank(front[i], childAge) <= Rank(front[j], childAge) {
        assert front[i] == order[i] && front[j] == order[j];
      }
      OrderedIsByRank(front, childAge);
      ByRankGrows(front, last, childAge);
      assert order == front + [last];
    }
  }

  lemma ByRankGrows(front: seq<Citizen>, last: Citizen, childAge: int)
    requires forall i | 0 <= i < |front| :: Rank(front[i], childAge) <= Rank(last, childAge)
    ensures ByRank(front + [last], childAge) == ByRank(front, childAge) + [last]
  {
    var order, rank := front + [last], Rank(last, childAge);
    assert order[..|order| - 1] == front;
    var a, b, c := OfRank(front, childAge, 0), OfRank(front, childAge, 1), OfRank(front, childAge, 2);
    if rank < 1 { NoneAbove(front, last, childAge, 1); }
    if rank < 2 { NoneAbove(front, last, childAge, 2); }
    if rank < 3 { NoneAbove(front, last, childAge, 3); }
    assert forall s: seq<Citizen> :: s + [] == s;
    match rank
    case 0 => assert a + [last] + [] + [] + [] == a + [] + [] + [] + [last];
    case 1 => assert a + (b + [last]) + [] + [] == a + b + [] + [] + [last];
    case 2 => assert a + b + (c + [last]) + [] == a + b + c + [] + [last];
    case _ =>
  }

  lemma {:induction false} NoneAbove(front: seq<Citizen>, last: Citizen, childAge: int, rank: nat)
    requires forall i | 0 <= i < |front| :: Rank(front[i], childAge) <= Rank(last, childAge)
    requires rank > Rank(last, childAge)
    ensures OfRank(front, childAge, rank) == []
  {
    if front != [] { NoneAbove(front[..|front| - 1], last, childAge, rank); }
  }

  // ---------------------------------------------------------------------------------------------
  // Recipients and portions
  // ---------------------------------------------------------------------------------------------

  type Assignments = map<int, map<int, int>>

  predicate Ascending(ids: seq<int>) {
    forall i, j | 0 <= i < j < |ids| :: ids[i] < ids[j]
  }

  /** The keys in ascending order: integer keys of a JavaScript object enumerate so, and the Go job sorts them. */
  ghost predicate IsRecipients(ids: seq<int>, keys: set<int>) {
    Ascending(ids) && Elements(ids) == keys
  }

  lemma {:induction false} RecipientsUnique(a: seq<int>, b: seq<int>)
    requires Ascending(a) && Ascending(b) && Elements(a) == Elements(b)
    ensures a == b
  {
    DistinctCount(a);
    DistinctCount(b);
    if a != [] {
      LastIsGreatest(a);
      LastIsGreatest(b);
      RecipientsUnique(a[..|a| - 1], b[..|b| - 1]);
      assert a == a[..|a| - 1] + [a[|a| - 1]] && b == b[..|b| - 1] + [b[|b| - 1]];
    }
  }

  /** The priority order never reaches the recipients: only the set of people does. */
  lemma PriorityIsForgotten(a: seq<Citizen>, b: seq<Citizen>, forA: seq<int>, forB: seq<int>)
    requires multiset(a) == multiset(b)
    requires IsRecipients(forA, set p | p in a :: p.id) && IsRecipients(forB, set p | p in b :: p.id)
    ensures forA == forB
  {
    assert forall p :: p in a <==> p in multiset(a);
    assert forall p :: p in b <==> p in multiset(b);
    assert (set p | p in a :: p.id) == (set p | p in b :: p.id);
    RecipientsUnique(forA, forB);
  }

  function IdsOf(people: seq<Citizen>): set<int> {
    set p | p in people :: p.id
  }

  /** With so many portions, nobody who goes without outranks somebody who is served. */
  ghost predicate ServedByRank(people: seq<Citizen>, childAge: int, recipients: seq<int>, portions: nat) {
    var served := recipients[..Min(portions, |recipients|)];
    forall a, b | a in people && b in people && a.id in served && b.id !in served :: Rank(a, childAge) <= Rank(b, childAge)
  }

  /** Ids ascend with ranks. */
  ghost predicate IdsFollowRanks(people: seq<Citizen>, childAge: int) {
    forall a, b | a in people && b in people && a.id < b.id :: Rank(a, childAge) <= Rank(b, childAge)
  }

  /** Scarce rations respect the priority order, however scarce they are, if and only if ids happen to ascend with ranks. */
  lemma PriorityRespectedIff(people: seq<Citizen>, childAge: int, recipients: seq<int>)
    requires IsRecipients(recipients, IdsOf(people))
    ensures (forall portions: nat :: ServedByRank(people, childAge, recipients, portions)) <==> IdsFollowRanks(people, childAge)
  {
    if forall portions: nat :: ServedByRank(people, childAge, recipients, portions) {
      forall a, b | a in people && b in people && a.id < b.id ensures Rank(a, childAge) <= Rank(b, childAge) {
        assert a.id in Elements(recipients);
        var k :| 0 <= k < |recipients| && recipients[k] == a.id;
        assert ServedByRank(people, childAge, recipients, k + 1);
        assert recipients[..k + 1][k] == a.id;
        assert b.id !in recipients[..k + 1];
      }
    }
    if IdsFollowRanks(people, childAge) {
      forall portions: nat ensures ServedByRank(people, childAge, recipients, portions) {
        var m := Min(portions, |recipients|);
        forall a, b | a in people && b in people && a.id in recipients[..m] && b.id !in recipients[..m]
          ensures Rank(a, childAge) <= Rank(b, childAge)
        {
          assert b.id in Elements(recipients);
          var j := PlaceBeyond(recipients, m, b.id);
        }
      }
    }
  }

  lemma PlaceBeyond(ids: seq<int>, m: nat, x: int) returns (j: nat)
    requires m <= |ids| && x in ids && x !in ids[..m]
    ensures m <= j < |ids| && ids[j] == x
  {
    assert ids == ids[..m] + ids[m..];
    var k :| 0 <= k < |ids[m..]| && ids[m..][k] == x;
    j := m + k;
  }

  /** For people read in ascending id order, as both jobs read them: if and only if the list is in priority order already. */
  lemma PriorityRespectedIffSorted(people: seq<Citizen>, childAge: int, recipients: seq<int>)
    requires IsRecipients(recipients, IdsOf(people))
    requires forall i, j | 0 <= i < j < |people| :: people[i].id < people[j].id
    ensures (forall portions: nat :: ServedByRank(people, childAge, recipients, portions)) <==> RankOrdered(people, childAge)
  {
    PriorityRespectedIff(people, childAge, recipients);
    if IdsFollowRanks(people, childAge) {
      forall i, j | 0 <= i < j < |people| ensures Rank(people[i], childAge) <= Rank(people[j], childAge) {
        assert people[i] in people && people[j] in people;
      }
    }
    if RankOrdered(people, childAge) {
      forall a, b | a in people && b in people && a.id < b.id ensures Rank(a, childAge) <= Rank(b, childAge) {
        var i :| 0 <= i < |people| && people[i] == a;
        var j :| 0 <= j < |people| && people[j] == b;
      }
    }
  }

  /** One portion for an adult with id 1 and a child with id 2: the child is first in the priority list, the adult eats. */
  lemma ScarceRationPassesTheChild()
    ensures var adult, child := Citizen(1, Some(30), "cook"), Citizen(2, Some(5), "cook");
            && ByRank([adult, child], 12) == [child, adult]
            && IsRecipients([1, 2], IdsOf([adult, child]))
            && !ServedByRank([adult, child], 12, [1, 2], 1)
            && forall resource, need ::
                 ServedIds(Assign(map[1 := map[], 2 := map[]], Elements([1, 2][..1]), resource, need)) == {1}
  {
    var adult, child := Citizen(1, Some(30), "cook"), Citizen(2, Some(5), "cook");
    assert Rank(adult, 12) == 3 && Rank(child, 12) == 0;
    FirstOfTwo(adult, child);
    assert Elements([1, 2]) == {1, 2} && IdsOf([adult, child]) == {1, 2} by {
      assert adult in [adult, child] && child in [adult, child];
    }
    assert [1, 2][..1] == [1];
    assert adult in [adult, child] && child in [adult, child];
    forall resource, need
      ensures ServedIds(Assign(map[1 := map[], 2 := map[]], Elements([1, 2][..1]), resource, need)) == {1}
    {
      var after := Assign(map[1 := map[], 2 := map[]], Elements([1, 2][..1]), resource, need);
      assert resource in after[1] && after[2] == map[];
    }
  }

  lemma FirstOfTwo(a: Citizen, b: Citizen)
    requires Rank(a, 12) == 3 && Rank(b, 12) == 0
    ensures ByRank([a, b], 12) == [b, a]
  {
    OfRankTwo(a, b, 0);
    OfRankTwo(a, b, 1);
    OfRankTwo(a, b, 2);
    OfRankTwo(a, b, 3);
  }

  lemma OfRankTwo(a: Citizen, b: Citizen, rank: nat)
    ensures OfRank([a, b], 12, rank) == (if Rank(a, 12) == rank then [a] else []) + (if Rank(b, 12) == rank then [b] else [])
  {
    assert [a, b][..1] == [a] && [a][..0] == [];
    assert OfRank([a], 12, rank) == if Rank(a, 12) == rank then [a] else [];
  }

  lemma LastIsGreatest(ids: seq<int>)
    requires Ascending(ids) && ids != []
    ensures var last := ids[|ids| - 1];
            && last in Elements(ids)
            && (forall x | x in Elements(ids) :: x <= last)
            && Elements(ids[..|ids| - 1]) == Elements(ids) - {last}
  {
    var front, last := ids[..|ids| - 1], ids[|ids| - 1];
    assert ids == front + [last];
    forall x | x in front ensures x < last {
      var i :| 0 <= i < |front| && front[i] == x;
      assert ids[i] == x;
    }
  }

  lemma Inserted(ids: seq<int>, k: nat, x: int)
    requires Ascending(ids) && k <= |ids| && x !in Elements(ids)
    requires (k > 0 ==> ids[k - 1] <= x) && forall i | k <= i < |ids| :: ids[i] > x
    ensures Ascending(ids[..k] + [x] + ids[k..])
    ensures Elements(ids[..k] + [x] + ids[k..]) == Elements(ids) + {x}
  {
    forall i | 0 <= i < k ensures ids[i] < x { assert ids[i] in Elements(ids); }
    assert ids == ids[..k] + ids[k..];
  }

  /** `sort.Ints`, an insertion at a time. */
  method RecipientIds(keys: set<int>) returns (ids: seq<int>)
    ensures IsRecipients(ids, keys)
  {
    ids := [];
    var todo := keys;
    while todo != {}
      invariant todo <= keys
      invariant IsRecipients(ids, keys - todo)
      decreases todo
    {
      var x := AnyOf(todo);
      var k := |ids|;
      while k > 0 && ids[k - 1] > x
        invariant 0 <= k <= |ids|
        invariant forall i | k <= i < |ids| :: ids[i] > x
      {
        k := k - 1;
      }
      assert keys - (todo - {x}) == keys - todo + {x};
      Inserted(ids, k, x);
      ids := ids[..k] + [x] + ids[k..];
      todo := todo - {x};
    }
  }

  /** Full portions in the stock row that was read; none for a missing row, empty stock or no ration. */
  function Portions(seen: Option<int>, need: int): nat {
    if seen.None? || seen.value <= 0 || need <= 0 then 0 else seen.value / need
  }

  function Min(a: nat, b: nat): nat {
    if a <= b then a else b
  }

  /** The first `count` recipients get a portion of the resource. */
  function Assign(assignments: Assignments, selected: set<int>, resource: int, need: int): Assignments {
    map id | id in assignments :: if id in selected then assignments[id][resource := need] else assignments[id]
  }

  /** Consuming what a plan promises: its stock row was read earlier, so this may be refused. */
  function Distribute(w: World, plan: Plan): Response {
    var portions := Portions(plan.seen, plan.need);
    if portions == 0 then Response(w, Done)
    else Consume(w, plan.camp, plan.resource, plan.need * Min(portions, plan.headCount))
  }

  datatype RationResource = RationResource(id: int, need: int, seen: Option<int>)

  /** How many portions the stock row read earlier allows, and who gets them. */
  method SelectRecipients(seen: Option<int>, perPersonNeed: int, recipientIds: seq<int>) returns (fullPortions: nat, selected: seq<int>)
    ensures fullPortions == Portions(seen, perPersonNeed)
    ensures selected == recipientIds[..Min(fullPortions, |recipientIds|)]
  {
    if seen.None? {
      return 0, [];
    }
    var available := seen.value;
    if available <= 0 || perPersonNeed <= 0 {
      return 0, [];
    }
    fullPortions := available / perPersonNeed;
    selected := if fullPortions >= |recipientIds| then recipientIds else recipientIds[..fullPortions];
  }

  method DistributeResource(db: Database, camp: int, resource: RationResource, assignments: Assignments)
    returns (o: Outcome, updated: Assignments, ghost recipients: seq<int>)
    modifies db
    ensures Response(db.Snapshot(), o) ==
            Distribute(old(db.Snapshot()), Plan(camp, resource.id, resource.need, |assignments|, resource.seen))
    ensures IsRecipients(recipients, assignments.Keys) && |recipients| == |assignments|
    ensures updated == Assign(assignments,
              Elements(recipients[..Min(Portions(resource.seen, resource.need), |assignments|)]), resource.id, resource.need)
  {
    var recipientIds := RecipientIds(assignments.Keys);
    recipients := recipientIds;
    DistinctCount(recipientIds);
    assert |recipientIds| == |assignments.Keys| == |assignments|;
    var fullPortions, selected := SelectRecipients(resource.seen, resource.need, recipientIds);
    if fullPortions == 0 {
      AssignNobody(assignments, resource.id, resource.need, selected);
      return Done, assignments, recipients;
    }
    updated := MarkSelected(assignments, selected, resource.id, resource.need);
    o := ConsumeInventoryWithLog(db, camp, resource.id, resource.need * |selected|);
  }

  lemma AssignNobody(assignments: Assignments, resource: int, need: int, nobody: seq<int>)
    requires nobody == []
    ensures Assign(assignments, Elements(nobody), resource, need) == assignments
  {}

  lemma AssignOne(assignments: Assignments, done: set<int>, id: int, resource: int, need: int)
    requires id in assignments
    ensures var part := Assign(assignments, done, resource, need);
            && id in part
            && Assign(assignments, done + {id}, resource, need) == part[id := part[id][resource := need]]
  {
    var part := Assign(assignments, done, resource, need);
    if id in done {
      assert assignments[id][resource := need][resource := need] == assignments[id][resource := need];
    }
    assert Assign(assignments, done + {id}, resource, need) == part[id := part[id][resource := need]];
  }

  method MarkSelected(assignments: Assignments, selected: seq<int>, resource: int, need: int) returns (updated: Assignments)
    requires forall id | id in selected :: id in assignments
    ensures updated == Assign(assignments, Elements(selected), resource, need)
  {
    updated := assignments;
    for i := 0 to |selected|
      invariant updated == Assign(assignments, Elements(selected[..i]), resource, need)
    {
      assert selected[i] in selected;
      assert Elements(selected[..i + 1]) == Elements(selected[..i]) + {selected[i]};
      AssignOne(assignments, Elements(selected[..i]), selected[i], resource, need);
      updated := updated[selected[i] := updated[selected[i]][resource := need]];
    }
    assert selected[..|selected|] == selected;
  }

  // ---------------------------------------------------------------------------------------------
  // How many are served
  // ---------------------------------------------------------------------------------------------

  /** One resource never takes more than was read, and serves everybody or leaves less than a portion. */
  lemma NeverOverdraws(seen: Option<int>, need: int, headCount: nat)
    ensures var k := Min(Portions(seen, need), headCount);
            && (k > 0 ==> seen.Some? && 0 < need * k <= seen.value)
            && (need > 0 && seen.Some? && seen.value >= 0 && k < headCount ==> seen.value - need * k < need)
  {
    if Portions(seen, need) > 0 {
      var q := seen.value / need;
      assert need * q <= seen.value < need * q + need;
      var k := Min(q, headCount);
      MulMonotone(need, k, q);
      if k > 0 { MulMonotone(need, 1, k); }
    }
  }

  lemma MulMonotone(need: nat, a: nat, b: nat)
    requires a <= b
    ensures need * a <= need * b
  {
    assert need * b == need * a + need * (b - a);
  }

  /** Days of rationing one resource with no income: what is served each day, and what is left. */
  function LeftAfter(stock: int, need: int, heads: seq<nat>): int {
    if heads == [] then stock
    else
      var left := LeftAfter(stock, need, heads[..|heads| - 1]);
      left - need * Min(Portions(Some(left), need), heads[|heads| - 1])
  }

  function ServedOn(stock: int, need: int, heads: seq<nat>, day: nat): nat
    requires day < |heads|
  {
    Min(Portions(Some(LeftAfter(stock, need, heads[..day])), need), heads[day])
  }

  function TotalServed(stock: int, need: int, heads: seq<nat>): nat {
    if heads == [] then 0
    else
      TotalServed(stock, need, heads[..|heads| - 1])
      + Min(Portions(Some(LeftAfter(stock, need, heads[..|heads| - 1])), need), heads[|heads| - 1])
  }

  lemma QuotientDrops(left: int, need: int, k: nat)
    requires need > 0 && left >= 0 && k <= left / need
    ensures left - need * k >= 0 && (left - need * k) / need == left / need - k
  {
    var q, r := left / need, left % need;
    assert left == need * q + r;
    assert left - need * k == need * (q - k) + r by { assert need * (q - k) == need * q - need * k; }
    assert need * (q - k) >= 0;
    QuotientUnique(left - need * k, need, q - k, r);
  }

  lemma QuotientUnique(x: int, need: int, q: nat, r: int)
    requires need > 0 && x == need * q + r && 0 <= r < need
    ensures x / need == q
  {
    var p, s := x / need, x % need;
    assert x == need * p + s && 0 <= s < need;
    if p > q {
      MulMonotone(need, q + 1, p);
    } else if p < q {
      MulMonotone(need, p + 1, q);
    }
  }

  /**
    Over any days with any head counts, portions served never exceed what the opening stock holds, and
    reach it exactly as soon as one day leaves someone unserved.
  */
  lemma {:induction false} RationingIsExhaustive(stock: int, need: int, heads: seq<nat>)
    requires need > 0 && stock >= 0
    ensures LeftAfter(stock, need, heads) >= 0
    ensures LeftAfter(stock, need, heads) / need == stock / need - TotalServed(stock, need, heads)
    ensures TotalServed(stock, need, heads) <= stock / need
    ensures (exists day: nat :: day < |heads| && ServedOn(stock, need, heads, day) < heads[day])
            ==> TotalServed(stock, need, heads) == stock / need
  {
    if heads != [] {
      var front, n := heads[..|heads| - 1], heads[|heads| - 1];
      RationingIsExhaustive(stock, need, front);
      var left := LeftAfter(stock, need, front);
      var k := Min(Portions(Some(left), need), n);
      assert left > 0 ==> Portions(Some(left), need) == left / need;
      assert left == 0 ==> left / need == 0;
      QuotientDrops(left, need, k);
      if exists day: nat :: day < |heads| && ServedOn(stock, need, heads, day) < heads[day] {
        var day: nat :| day < |heads| && ServedOn(stock, need, heads, day) < heads[day];
        if day < |front| {
          assert heads[..day] == front[..day];
          assert ServedOn(stock, need, front, day) < front[day];
        } else {
          assert heads[..day] == front;
        }
      }
    }
  }

  /** One day of the ration job for one resource, reading the stock row and consuming at once. */
  function DayOn(w: World, camp: int, resource: int, need: int, heads: nat): World {
    var slot := Slot(camp, resource);
    var seen := if slot in w.books.stock then Some(w.books.stock[slot]) else None;
    Distribute(w, Plan(camp, resource, need, heads, seen)).world
  }

  function DaysOn(w: World, camp: int, resource: int, need: int, heads: seq<nat>): World {
    if heads == [] then w
    else DayOn(DaysOn(w, camp, resource, need, heads[..|heads| - 1]), camp, resource, need, heads[|heads| - 1])
  }

  lemma DayOnTakes(w: World, camp: int, resource: int, need: int, heads: nat)
    requires Slot(camp, resource) in w.books.stock
    ensures var slot, v := Slot(camp, resource), DayOn(w, camp, resource, need, heads);
            && v == w.(books := v.books) && slot in v.books.stock
            && v.books.stock[slot] ==
               w.books.stock[slot] - need * Min(Portions(Some(w.books.stock[slot]), need), heads)
            && NetOf(v.books.log, slot, DailyRation) - NetOf(w.books.log, slot, DailyRation) ==
               v.books.stock[slot] - w.books.stock[slot]
  {
    var left := w.books.stock[Slot(camp, resource)];
    var k := Min(Portions(Some(left), need), heads);
    NeverOverdraws(Some(left), need, heads);
    if k > 0 { ConsumeTakes(w, camp, resource, need * k); }
  }

  lemma ConsumeTakes(w: World, camp: int, resource: int, amount: int)
    requires Slot(camp, resource) in w.books.stock && 0 < amount <= w.books.stock[Slot(camp, resource)]
    ensures var slot, v := Slot(camp, resource), Consume(w, camp, resource, amount).world;
            && v == w.(books := v.books) && slot in v.books.stock
            && v.books.stock[slot] == w.books.stock[slot] - amount
            && NetOf(v.books.log, slot, DailyRation) == NetOf(w.books.log, slot, DailyRation) - amount
  {
    var m := Movement(Slot(camp, resource), DailyRation, -amount);
    PostOne(w.books, m);
    assert (w.books.log + [m])[..|w.books.log|] == w.books.log;
  }

  /** The days of the database are the days of the recursion: the same stock is left, and the log shows what went. */
  lemma {:induction false} DaysAreTheRecursion(w: World, camp: int, resource: int, need: int, heads: seq<nat>)
    requires Slot(camp, resource) in w.books.stock
    ensures var slot, v := Slot(camp, resource), DaysOn(w, camp, resource, need, heads);
            && v == w.(books := v.books) && slot in v.books.stock
            && v.books.stock[slot] == LeftAfter(w.books.stock[slot], need, heads)
            && NetOf(v.books.log, slot, DailyRation) - NetOf(w.books.log, slot, DailyRation) ==
               v.books.stock[slot] - w.books.stock[slot]
  {
    if heads != [] {
      var front, n := heads[..|heads| - 1], heads[|heads| - 1];
      DaysAreTheRecursion(w, camp, resource, need, front);
      DayOnTakes(DaysOn(w, camp, resource, need, front), camp, resource, need, n);
    }
  }

  /**
    Over any days of the job on the database, with nobody else touching the slot: what the log says was
    rationed is need times a number of portions that never exceeds the opening stock's, and reaches it as
    soon as a day leaves someone unserved; the slot keeps the rest.
  */
  lemma DaysAreExhaustive(w: World, camp: int, resource: int, need: int, heads: seq<nat>)
    requires need > 0 && Slot(camp, resource) in w.books.stock && w.books.stock[Slot(camp, resource)] >= 0
    ensures var slot, v := Slot(camp, resource), DaysOn(w, camp, resource, need, heads);
            var stock := w.books.stock[slot];
            var portions := TotalServed(stock, need, heads);
            && slot in v.books.stock && v.books.stock[slot] == stock - need * portions >= 0
            && NetOf(v.books.log, slot, DailyRation) == NetOf(w.books.log, slot, DailyRation) - need * portions
            && portions <= stock / need
            && ((exists day: nat :: day < |heads| && ServedOn(stock, need, heads, day) < heads[day]) ==> portions == stock / need)
  {
    DaysAreTheRecursion(w, camp, resource, need, heads);
    RationingIsExhaustive(w.books.stock[Slot(camp, resource)], need, heads);
    LeftIsTheRest(w.books.stock[Slot(camp, resource)], need, heads);
  }

  lemma {:induction false} LeftIsTheRest(stock: int, need: int, heads: seq<nat>)
    ensures LeftAfter(stock, need, heads) == stock - need * TotalServed(stock, need, heads)
  {
    if heads != [] {
      var front := heads[..|heads| - 1];
      LeftIsTheRest(stock, need, front);
      TimesSum(need, TotalServed(stock, need, front),
               Min(Portions(Some(LeftAfter(stock, need, front)), need), heads[|heads| - 1]));
    }
  }

  lemma TimesSum(need: int, a: int, b: int)
    ensures need * (a + b) == need * a + need * b
  {}

  function ServedIds(assignments: Assignments): set<int> {
    set id | id in assignments && assignments[id] != map[]
  }

  method CountServed(assignments: Assignments) returns (n: nat)
    ensures n == |ServedIds(assignments)|
  {
    n := 0;
    var todo := assignments.Keys;
    ghost var counted: set<int> := {};
    while todo != {}
      invariant todo <= assignments.Keys
      invariant counted == set id | id in assignments.Keys - todo && assignments[id] != map[]
      invariant n == |counted|
      decreases todo
    {
      var id := AnyOf(todo);
      if |assignments[id]| > 0 {
        n, counted := n + 1, counted + {id};
      }
      todo := todo - {id};
    }
    assert counted == ServedIds(assignments);
  }

  /** One step per resource: its id, its ration and how many of the recipients it reached. */
  datatype Serving = Serving(resource: int, need: int, count: nat)

  function CreateAssignments(keys: set<int>): Assignments {
    map id | id in keys :: map[]
  }

  function AfterServings(recipients: seq<int>, servings: seq<Serving>): Assignments {
    if servings == [] then CreateAssignments(Elements(recipients))
    else
      var s := servings[|servings| - 1];
      Assign(AfterServings(recipients, servings[..|servings| - 1]),
             Elements(recipients[..Min(s.count, |recipients|)]), s.resource, s.need)
  }

  function MostServed(servings: seq<Serving>, cap: nat): nat {
    if servings == [] then 0
    else
      var before, now := MostServed(servings[..|servings| - 1], cap), Min(servings[|servings| - 1].count, cap);
      if before < now then now else before
  }

  /**
    The recipients of the resources of one day are nested prefixes of the same list, so the people
    counted as served are the recipients of the most plentiful resource.
  */
  lemma {:induction false} ServedIsTheMaximum(recipients: seq<int>, servings: seq<Serving>)
    requires Ascending(recipients)
    ensures MostServed(servings, |recipients|) <= |recipients|
    ensures AfterServings(recipients, servings).Keys == Elements(recipients)
    ensures ServedIds(AfterServings(recipients, servings)) == Elements(recipients[..MostServed(servings, |recipients|)])
    ensures |ServedIds(AfterServings(recipients, servings))| == MostServed(servings, |recipients|)
  {
    if servings == [] {
      assert recipients[..0] == [];
      assert ServedIds(AfterServings(recipients, servings)) == {};
    } else {
      var front, s := servings[..|servings| - 1], servings[|servings| - 1];
      ServedIsTheMaximum(recipients, front);
      var now := Min(s.count, |recipients|);
      PrefixesNest(recipients, MostServed(front, |recipients|), now);
      ServedByOneMore(AfterServings(recipients, front), Elements(recipients[..now]), s.resource, s.need);
    }
    DistinctCount(recipients[..MostServed(servings, |recipients|)]);
  }

  lemma ServedByOneMore(older: Assignments, selected: set<int>, resource: int, need: int)
    requires selected <= older.Keys
    ensures ServedIds(Assign(older, selected, resource, need)) == ServedIds(older) + selected
  {
    forall id | id in older
      ensures id in ServedIds(Assign(older, selected, resource, need)) <==> id in ServedIds(older) || id in selected
    {
      if id in selected { assert resource in older[id][resource := need]; }
    }
  }

  lemma PrefixesNest(ids: seq<int>, a: nat, b: nat)
    requires a <= |ids| && b <= |ids|
    ensures Elements(ids[..a]) + Elements(ids[..b]) == Elements(ids[..if a < b then b else a])
  {
    if a <= b {
      assert ids[..a] == ids[..b][..a];
    } else {
      assert ids[..b] == ids[..a][..b];
    }
  }

  // ---------------------------------------------------------------------------------------------
  // One camp, one day
  // ---------------------------------------------------------------------------------------------

  /** What the resources of a camp give when their stock rows are read once, up front. */
  function ServingsOf(resources: seq<RationResource>, heads: nat): seq<Serving> {
    seq(|resources|, i requires 0 <= i < |resources| =>
      Serving(resources[i].id, resources[i].need, Min(Portions(resources[i].seen, resources[i].need), heads)))
  }

  function RationBatch(camp: int, resources: seq<RationResource>, heads: nat): seq<Movement> {
    if resources == [] then []
    else
      var r := resources[|resources| - 1];
      var k := Min(Portions(r.seen, r.need), heads);
      RationBatch(camp, resources[..|resources| - 1], heads)
      + (if k == 0 then [] else [Movement(Slot(camp, r.id), DailyRation, -(r.need * k))])
  }

  ghost predicate DistinctResources(resources: seq<RationResource>) {
    forall i, j | 0 <= i < j < |resources| :: resources[i].id != resources[j].id
  }

  lemma {:induction false} RationBatchNet(camp: int, resources: seq<RationResource>, heads: nat, slot: Slot)
    requires DistinctResources(resources)
    ensures forall i | 0 <= i < |resources| && slot == Slot(camp, resources[i].id) ::
              Net(RationBatch(camp, resources, heads), slot) ==
              -(resources[i].need * Min(Portions(resources[i].seen, resources[i].need), heads))
    ensures (forall i | 0 <= i < |resources| :: slot != Slot(camp, resources[i].id)) ==> Net(RationBatch(camp, resources, heads), slot) == 0
  {
    if resources != [] {
      var front, r := resources[..|resources| - 1], resources[|resources| - 1];
      RationBatchNet(camp, front, heads, slot);
      var k := Min(Portions(r.seen, r.need), heads);
      var rest, m := RationBatch(camp, front, heads), Movement(Slot(camp, r.id), DailyRation, -(r.need * k));
      assert (rest + [m])[..|rest|] == rest;
      assert rest + [] == rest;
      forall i | 0 <= i < |resources| && slot == Slot(camp, resources[i].id)
        ensures Net(RationBatch(camp, resources, heads), slot) ==
          -(resources[i].need * Min(Portions(resources[i].seen, resources[i].need), heads))
      {
        if i < |front| { assert front[i] == resources[i]; } else {
          forall j | 0 <= j < |front| ensures slot != Slot(camp, front[j].id) { assert front[j] == resources[j]; }
          if k == 0 { assert r.need * k == 0; }
        }
      }
    }
  }

  /** The rows of a camp's day take need times the number served from each resource of the camp, and nothing else. */
  lemma CampDayTakes(books: Books, camp: int, resources: seq<RationResource>, heads: nat, slot: Slot)
    requires DistinctResources(resources)
    ensures var after := Post(books, RationBatch(camp, resources, heads));
            && (forall r | r in resources && slot == Slot(camp, r.id) ::
                  Have(after.stock, slot) == Have(books.stock, slot) - r.need * Min(Portions(r.seen, r.need), heads))
            && ((forall r | r in resources :: slot != Slot(camp, r.id)) ==> Have(after.stock, slot) == Have(books.stock, slot))
  {
    RationBatchNet(camp, resources, heads, slot);
    PostEffect(books, RationBatch(camp, resources, heads), slot);
  }

  /**
    A camp's ration day with no other writer in between: every consumption succeeds, each resource
    loses need times the number served, and the count of people served is the best of the resources.
  */
  method ProcessCampRations(db: Database, camp: int, people: seq<Citizen>, childAge: int, resources: seq<RationResource>)
    returns (o: Outcome, served: nat)
    requires DistinctIds(people) && DistinctResources(resources)
    requires forall r | r in resources ::
               r.seen == if Slot(camp, r.id) in db.stock then Some(db.stock[Slot(camp, r.id)]) else None
    modifies db
    ensures o == Done
    ensures db.Snapshot() == old(db.Snapshot()).(books := Post(old(db.Snapshot()).books, RationBatch(camp, resources, |people|)))
    ensures forall r | r in resources :: Have(db.stock, Slot(camp, r.id)) ==
              Have(old(db.stock), Slot(camp, r.id)) - r.need * Min(Portions(r.seen, r.need), |people|)
    ensures forall slot | forall r | r in resources :: slot != Slot(camp, r.id) ::
              Have(db.stock, slot) == Have(old(db.stock), slot)
    ensures served == MostServed(ServingsOf(resources, |people|), |people|)
  {
    forall slot { CampDayTakes(db.Snapshot().books, camp, resources, |people|, slot); }
    if |people| == 0 {
      RationNobody(camp, resources);
      return Done, 0;
    }
    var assignments;
    ghost var recipients;
    assignments, recipients := StartAssignments(people, childAge);
    assignments := ServeAll(db, camp, resources, recipients, assignments);
    ServedIsTheMaximum(recipients, ServingsOf(resources, |people|));
    served := CountServed(assignments);
    o := Done;
  }

  /** The loop over the resources. */
  method ServeAll(db: Database, camp: int, resources: seq<RationResource>, ghost recipients: seq<int>, assignments: Assignments)
    returns (updated: Assignments)
    requires DistinctResources(resources)
    requires forall r | r in resources ::
               r.seen == if Slot(camp, r.id) in db.stock then Some(db.stock[Slot(camp, r.id)]) else None
    requires IsRecipients(recipients, assignments.Keys) && |recipients| == |assignments| > 0
    requires assignments == AfterServings(recipients, [])
    modifies db
    ensures db.Snapshot() == old(db.Snapshot()).(books := Post(old(db.Snapshot()).books, RationBatch(camp, resources, |assignments|)))
    ensures updated == AfterServings(recipients, ServingsOf(resources, |assignments|))
  {
    updated := assignments;
    ghost var heads, servings, start := |assignments|, ServingsOf(resources, |assignments|), db.Snapshot();
    assert servings[..0] == [];
    for i := 0 to |resources|
      invariant db.Snapshot() == start.(books := Post(start.books, RationBatch(camp, resources[..i], heads)))
      invariant updated == AfterServings(recipients, servings[..i]) && |updated| == heads
    {
      updated := ServeNext(db, start, camp, resources, i, recipients, updated);
    }
    assert resources[..|resources|] == resources && servings[..|servings|] == servings;
  }

  method ServeNext(db: Database, ghost start: World, camp: int, resources: seq<RationResource>, i: nat,
                   ghost recipients: seq<int>, assignments: Assignments)
    returns (updated: Assignments)
    requires i < |resources| && DistinctResources(resources)
    requires forall r | r in resources ::
               r.seen == if Slot(camp, r.id) in start.books.stock then Some(start.books.stock[Slot(camp, r.id)]) else None
    requires Ascending(recipients) && |recipients| == |assignments| > 0
    requires db.Snapshot() == start.(books := Post(start.books, RationBatch(camp, resources[..i], |assignments|)))
    requires assignments == AfterServings(recipients, ServingsOf(resources, |assignments|)[..i])
    modifies db
    ensures db.Snapshot() == start.(books := Post(start.books, RationBatch(camp, resources[..i + 1], |assignments|)))
    ensures updated == AfterServings(recipients, ServingsOf(resources, |assignments|)[..i + 1]) && |updated| == |assignments|
  {
    ghost var servings := ServingsOf(resources, |assignments|);
    KeysStay(recipients, servings[..i], assignments);
    assert servings[..i + 1] == servings[..i] + [servings[i]];
    updated := RationOne(db, start.books, camp, resources, i, recipients, servings[..i], assignments);
    KeysStay(recipients, servings[..i + 1], updated);
  }

  lemma KeysStay(recipients: seq<int>, servings: seq<Serving>, assignments: Assignments)
    requires Ascending(recipients) && assignments == AfterServings(recipients, servings)
    ensures assignments.Keys == Elements(recipients) && |assignments| == |recipients|
  {
    ServedIsTheMaximum(recipients, servings);
    DistinctCount(recipients);
    assert |assignments.Keys| == |assignments|;
  }

  method StartAssignments(people: seq<Citizen>, childAge: int) returns (assignments: Assignments, ghost recipients: seq<int>)
    requires DistinctIds(people)
    ensures IsRecipients(recipients, assignments.Keys) && |recipients| == |assignments| == |people|
    ensures assignments == AfterServings(recipients, [])
  {
    var priority := BuildPriorityPeople(people, childAge);
    var keys := set p | p in priority :: p.id;
    assignments := CreateAssignments(keys);
    recipients := RecipientIds(keys);
    KeysCount(people, priority, keys, recipients);
    assert assignments.Keys == keys && |assignments.Keys| == |assignments|;
  }

  /** One round of the loop, its stock row still the one read up front. */
  method RationOne(db: Database, ghost books: Books, camp: int, resources: seq<RationResource>, i: nat,
                   ghost recipients: seq<int>, ghost servings: seq<Serving>, assignments: Assignments)
    returns (updated: Assignments)
    requires i < |resources| && DistinctResources(resources) && |assignments| > 0
    requires forall r | r in resources ::
               r.seen == if Slot(camp, r.id) in books.stock then Some(books.stock[Slot(camp, r.id)]) else None
    requires Books(db.stock, db.log) == Post(books, RationBatch(camp, resources[..i], |assignments|))
    requires Ascending(recipients) && Elements(recipients) == assignments.Keys && |recipients| == |assignments|
    requires assignments == AfterServings(recipients, servings)
    modifies db
    ensures db.Snapshot() == old(db.Snapshot()).(books := Post(books, RationBatch(camp, resources[..i + 1], |assignments|)))
    ensures var r := resources[i];
            updated == AfterServings(recipients, servings + [Serving(r.id, r.need, Min(Portions(r.seen, r.need), |recipients|))])
  {
    hide RationBatch, Post, AfterServings, Assign;
    RationStep(books, camp, resources, i, |assignments|);
    ghost var r := resources[i];
    ghost var count := Min(Portions(r.seen, r.need), |recipients|);
    ServingAdded(recipients, servings, Serving(r.id, r.need, count));
    ghost var again;
    var o;
    o, updated, again := DistributeResource(db, camp, resources[i], assignments);
    RecipientsUnique(again, recipients);
    assert o == Done;
  }

  lemma ServingAdded(recipients: seq<int>, servings: seq<Serving>, s: Serving)
    requires s.count <= |recipients|
    ensures AfterServings(recipients, servings + [s]) ==
            Assign(AfterServings(recipients, servings), Elements(recipients[..s.count]), s.resource, s.need)
  {
    assert (servings + [s])[..|servings|] == servings;
  }

  lemma KeysCount(people: seq<Citizen>, priority: seq<Citizen>, keys: set<int>, recipients: seq<int>)
    requires DistinctIds(people) && multiset(priority) == multiset(people)
    requires keys == set p | p in priority :: p.id
    requires IsRecipients(recipients, keys)
    ensures |recipients| == |people| == |keys|
  {
    var ids := seq(|people|, i requires 0 <= i < |people| => people[i].id);
    assert Elements(ids) == keys by {
      forall x ensures x in Elements(ids) <==> x in keys {
        if x in Elements(ids) {
          var i :| 0 <= i < |ids| && ids[i] == x;
          assert people[i] in multiset(people);
          assert people[i] in priority;
        }
        if x in keys {
          var p :| p in priority && p.id == x;
          assert p in multiset(priority);
          var i :| 0 <= i < |people| && people[i] == p;
          assert ids[i] == x;
        }
      }
    }
    DistinctCount(ids);
    DistinctCount(recipients);
  }

  lemma {:induction false} RationNobody(camp: int, resources: seq<RationResource>)
    ensures RationBatch(camp, resources, 0) == [] && MostServed(ServingsOf(resources, 0), 0) == 0
  {
    if resources != [] {
      var front := resources[..|resources| - 1];
      RationNobody(camp, front);
      assert ServingsOf(resources, 0)[..|front|] == ServingsOf(front, 0);
    }
  }

  lemma RationStep(books: Books, camp: int, resources: seq<RationResource>, i: nat, heads: nat)
    requires i < |resources| && DistinctResources(resources) && heads > 0
    requires forall r | r in resources ::
               r.seen == if Slot(camp, r.id) in books.stock then Some(books.stock[Slot(camp, r.id)]) else None
    ensures var before, r := Post(books, RationBatch(camp, resources[..i], heads)), resources[i];
            var k := Min(Portions(r.seen, r.need), heads);
            && Post(books, RationBatch(camp, resources[..i + 1], heads)) ==
               (if k == 0 then before else Post(before, [Movement(Slot(camp, r.id), DailyRation, -(r.need * k))]))
            && (k == 0 ==> Portions(r.seen, r.need) == 0)
            && (k > 0 ==> r.need * k > 0 && Slot(camp, r.id) in before.stock && before.stock[Slot(camp, r.id)] >= r.need * k)
  {
    var r := resources[i];
    assert resources[..i + 1][..i] == resources[..i];
    var rest, k := RationBatch(camp, resources[..i], heads), Min(Portions(r.seen, r.need), heads);
    assert rest + [] == rest;
    PostConcat(books, rest, [Movement(Slot(camp, r.id), DailyRation, -(r.need * k))]);
    UntouchedByOthers(books, camp, resources[..i], heads, Slot(camp, r.id));
    NeverOverdraws(r.seen, r.need, heads);
    assert r in resources;
  }

  lemma {:induction false} UntouchedByOthers(books: Books, camp: int, resources: seq<RationResource>, heads: nat, slot: Slot)
    requires forall i | 0 <= i < |resources| :: resources[i].id != slot.resource
    ensures var after := Post(books, RationBatch(camp, resources, heads)).stock;
            (slot in after <==> slot in books.stock) && Have(after, slot) == Have(books.stock, slot)
  {
    if resources != [] {
      var front, r := resources[..|resources| - 1], resources[|resources| - 1];
      UntouchedByOthers(books, camp, front, heads, slot);
      var k := Min(Portions(r.seen, r.need), heads);
      var rest, m := RationBatch(camp, front, heads), Movement(Slot(camp, r.id), DailyRation, -(r.need * k));
      assert rest + [] == rest;
      PostConcat(books, rest, [m]);
      PostOne(Post(books, rest), m);
    }
  }
}
