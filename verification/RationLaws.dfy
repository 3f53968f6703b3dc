/** The words of the ration job spelled out: who comes first, who gets what, how many portions there are. */
module RationLaws {
  import opened Core
  import opened Ledger
  import opened Tables
  import opened Rations

  /** A text includes a word if and only if it is something, the word, and something. */
  lemma ContainsMeans(text: string, word: string)
    ensures Contains(text, word) <==> exists a: string, b: string :: text == a + word + b
  {
    if Contains(text, word) {
      var i :| 0 <= i <= |text| && OccursAt(text, word, i);
      assert text == text[..i] + word + text[i + |word|..];
    }
    if a: string, b: string :| text == a + word + b {
      assert OccursAt(text, word, |a|);
    }
  }

  ghost predicate Includes(text: string, word: string) {
    exists a: string, b: string :: text == a + word + b
  }

  /** Children by age, then doctors and medics, then explorers and scouts, each class only if no earlier one applies. */
  lemma RankMeans(p: Citizen, childAge: int)
    ensures Rank(p, childAge) <= 3
    ensures Rank(p, childAge) == 0 <==> p.age.Some? && p.age.value <= childAge
    ensures Rank(p, childAge) == 1 <==>
              !(p.age.Some? && p.age.value <= childAge) && (Includes(p.profession, "doctor") || Includes(p.profession, "medic"))
    ensures Rank(p, childAge) == 2 <==>
              && !(p.age.Some? && p.age.value <= childAge)
              && !Includes(p.profession, "doctor") && !Includes(p.profession, "medic")
              && (Includes(p.profession, "explorer") || Includes(p.profession, "scout"))
  {
    ContainsMeans(p.profession, "doctor");
    ContainsMeans(p.profession, "medic");
    ContainsMeans(p.profession, "explorer");
    ContainsMeans(p.profession, "scout");
  }

  /** A child of exactly the limit, a doctor who is a child no more, a scout of unknown age, a cook. */
  lemma RanksInNumbers()
    ensures Rank(Citizen(1, Some(12), "scout"), 12) == 0
    ensures Rank(Citizen(2, Some(13), "field medic"), 12) == 1
    ensures Rank(Citizen(3, None, "scout"), 12) == 2
    ensures Rank(Citizen(4, Some(40), "cook"), 12) == 3
  {
    assert OccursAt("field medic", "medic", 6);
    assert OccursAt("scout", "scout", 0);
    NotInShort("scout", "doctor");
    assert !Contains("scout", "medic") by {
      forall i ensures !OccursAt("scout", "medic", i) { if i == 0 { assert "scout"[0..5][0] == 's' && "medic"[0] == 'm'; } }
    }
    assert !Contains("cook", "doctor") && !Contains("cook", "medic") && !Contains("cook", "explorer") && !Contains("cook", "scout") by {
      NotInShort("cook", "doctor");
      NotInShort("cook", "medic");
      NotInShort("cook", "explorer");
      NotInShort("cook", "scout");
    }
  }

  lemma NotInShort(text: string, word: string)
    requires |text| < |word|
    ensures !Contains(text, word)
  {}

  /** The portions are the most that a stock row covers; none without a row, without stock or without a ration. */
  lemma PortionsMeans(seen: Option<int>, need: int)
    ensures var k := Portions(seen, need);
            if seen.Some? && seen.value > 0 && need > 0 then need * k <= seen.value < need * (k + 1) else k == 0
  {}

  ghost predicate DistinctServings(servings: seq<Serving>) {
    forall i, j | 0 <= i < j < |servings| :: servings[i].resource != servings[j].resource
  }

  /** Recipient k holds the ration of a resource exactly when that resource reached more than k recipients. */
  lemma {:induction false} EachGets(recipients: seq<int>, servings: seq<Serving>, k: nat, i: nat)
    requires Ascending(recipients) && DistinctServings(servings) && k < |recipients| && i < |servings|
    ensures var given := AfterServings(recipients, servings);
            && recipients[k] in given
            && (servings[i].resource in given[recipients[k]] <==> k < servings[i].count)
            && (k < servings[i].count ==> given[recipients[k]][servings[i].resource] == servings[i].need)
  {
    hide AfterServings, Assign, Ascending;
    var front, s := servings[..|servings| - 1], servings[|servings| - 1];
    GivenLast(recipients, servings, k);
    if i < |front| {
      EachGets(recipients, front, k, i);
      assert front[i] == servings[i] && servings[i].resource != s.resource;
    } else {
      GivenNothingElse(recipients, front, k, s.resource);
    }
  }

  /** What the last resource adds to the recipient at place k. */
  lemma GivenLast(recipients: seq<int>, servings: seq<Serving>, k: nat)
    requires Ascending(recipients) && k < |recipients| && servings != []
    ensures var s, before := servings[|servings| - 1], AfterServings(recipients, servings[..|servings| - 1]);
            var after := AfterServings(recipients, servings);
            && recipients[k] in before && recipients[k] in after
            && after[recipients[k]] ==
               if k < s.count then before[recipients[k]][s.resource := s.need] else before[recipients[k]]
  {
    ServedIsTheMaximum(recipients, servings[..|servings| - 1]);
    PlaceAmongFirst(recipients, k, Min(servings[|servings| - 1].count, |recipients|));
  }

  lemma PlaceAmongFirst(recipients: seq<int>, k: nat, now: nat)
    requires Ascending(recipients) && k < |recipients| && now <= |recipients|
    ensures recipients[k] in Elements(recipients[..now]) <==> k < now
    ensures recipients[k] in Elements(recipients)
  {
    if k < now { assert recipients[..now][k] == recipients[k]; }
    if recipients[k] in recipients[..now] {
      var j :| 0 <= j < now && recipients[..now][j] == recipients[k];
      assert recipients[j] == recipients[k];
    }
  }

  lemma {:induction false} GivenNothingElse(recipients: seq<int>, servings: seq<Serving>, k: nat, resource: int)
    requires Ascending(recipients) && k < |recipients| && forall i | 0 <= i < |servings| :: servings[i].resource != resource
    ensures recipients[k] in AfterServings(recipients, servings)
    ensures resource !in AfterServings(recipients, servings)[recipients[k]]
  {
    if servings != [] {
      GivenNothingElse(recipients, servings[..|servings| - 1], k, resource);
    }
  }

  /** Seven portions' worth for three people at 2.00, five for ten: who is served and what is left. */
  lemma ADayInNumbers()
    ensures Min(Portions(Some(1400), 200), 3) == 3
    ensures Min(Portions(Some(1100), 200), 10) == 5
    ensures Portions(Some(199), 200) == 0 && Portions(Some(200), 200) == 1
    ensures Portions(None, 200) == 0 && Portions(Some(1400), 0) == 0 && Portions(Some(-5), 200) == 0
  {}
}
