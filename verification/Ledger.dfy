/**
  The stock ledger: one quantity per (camp, resource type) and an append-only movement log.
  Quantities are integer hundredths, the resolution of the DECIMAL(12,2) columns.
*/
module Ledger {
  import opened Core

  datatype Slot = Slot(camp: int, resource: int)

  /** What a log row says it was written for: its log type together with the record its description names. */
  datatype Origin =
    | TransferOut(transfer: int)
    | TransferIn(transfer: int)
    | ExpeditionOut(expedition: int)
    | ExpeditionReturn(expedition: int)
    | ExpeditionFound(expedition: int)
    | ManualMovement
    | ApprovedRequest(request: int)
    | DailyRation
    | DailyGain

  datatype Movement = Movement(slot: Slot, origin: Origin, change: int)

  datatype Books = Books(stock: map<Slot, int>, log: seq<Movement>)

  /** One requested line: `resource_type_id` with its amount. */
  datatype Line = Line(resource: int, amount: int)

  function Have(stock: map<Slot, int>, slot: Slot): int {
    if slot in stock then stock[slot] else 0
  }

  function NetOne(m: Movement, slot: Slot): int {
    if m.slot == slot then m.change else 0
  }

  /** Sum of the logged changes of one slot. */
  function Net(log: seq<Movement>, slot: Slot): int {
    if log == [] then 0 else Net(log[..|log| - 1], slot) + NetOne(log[|log| - 1], slot)
  }

  function NetOfOne(m: Movement, slot: Slot, origin: Origin): int {
    if m.slot == slot && m.origin == origin then m.change else 0
  }

  /** Sum of the logged changes of one slot that were written for one origin. */
  function NetOf(log: seq<Movement>, slot: Slot, origin: Origin): int {
    if log == [] then 0 else NetOf(log[..|log| - 1], slot, origin) + NetOfOne(log[|log| - 1], slot, origin)
  }

  function Post1(books: Books, m: Movement): Books {
    Books(books.stock[m.slot := Have(books.stock, m.slot) + m.change], books.log + [m])
  }

  /** Applies movements one by one: every change of stock leaves exactly one log row. */
  function Post(books: Books, ms: seq<Movement>): Books {
    if ms == [] then books else Post1(Post(books, ms[..|ms| - 1]), ms[|ms| - 1])
  }

  /** Stock is never negative and equals the opening balance plus the logged changes. */
  ghost predicate Balanced(opening: map<Slot, int>, books: Books) {
    forall s: Slot :: Have(books.stock, s) == Have(opening, s) + Net(books.log, s) && Have(books.stock, s) >= 0
  }

  lemma {:induction false} NetConcat(a: seq<Movement>, b: seq<Movement>, slot: Slot)
    ensures Net(a + b, slot) == Net(a, slot) + Net(b, slot)
  {
    if b == [] {
      assert a + b == a;
    } else {
      assert (a + b)[..|a + b| - 1] == a + b[..|b| - 1];
      NetConcat(a, b[..|b| - 1], slot);
    }
  }

  lemma {:induction false} NetOfConcat(a: seq<Movement>, b: seq<Movement>, slot: Slot, origin: Origin)
    ensures NetOf(a + b, slot, origin) == NetOf(a, slot, origin) + NetOf(b, slot, origin)
  {
    if b == [] {
      assert a + b == a;
    } else {
      assert (a + b)[..|a + b| - 1] == a + b[..|b| - 1];
      NetOfConcat(a, b[..|b| - 1], slot, origin);
    }
  }

  /** Posting changes each slot by the net of the posted movements and appends exactly those movements. */
  lemma {:induction false} PostEffect(books: Books, ms: seq<Movement>, slot: Slot)
    ensures Have(Post(books, ms).stock, slot) == Have(books.stock, slot) + Net(ms, slot)
    ensures Post(books, ms).log == books.log + ms
  {
    if ms == [] {
      assert books.log + ms == books.log;
    } else {
      PostEffect(books, ms[..|ms| - 1], slot);
      assert ms == ms[..|ms| - 1] + [ms[|ms| - 1]];
    }
  }

  lemma {:induction false} PostConcat(books: Books, a: seq<Movement>, b: seq<Movement>)
    ensures Post(books, a + b) == Post(Post(books, a), b)
  {
    if b == [] {
      assert a + b == a;
    } else {
      assert (a + b)[..|a + b| - 1] == a + b[..|b| - 1];
      PostConcat(books, a, b[..|b| - 1]);
    }
  }

  lemma PostOne(books: Books, m: Movement)
    ensures Post(books, [m]) == Post1(books, m)
  {
    assert [m][..0] == [];
    assert Post(books, [m][..0]) == books;
  }

  /** The one fact every writer needs: a posting that overdraws nothing keeps the ledger balanced. */
  lemma PostKeepsBalance(opening: map<Slot, int>, books: Books, ms: seq<Movement>)
    requires Balanced(opening, books)
    requires forall s: Slot :: Have(books.stock, s) + Net(ms, s) >= 0
    ensures Balanced(opening, Post(books, ms))
  {
    forall s: Slot
      ensures Have(Post(books, ms).stock, s) == Have(opening, s) + Net(Post(books, ms).log, s)
      ensures Have(Post(books, ms).stock, s) >= 0
    {
      PostEffect(books, ms, s);
      NetConcat(books.log, ms, s);
    }
  }

  // ---------------------------------------------------------------------------------------------
  // Aggregation of request lines
  // ---------------------------------------------------------------------------------------------

  function SumFor(lines: seq<Line>, resource: int): int {
    if lines == [] then 0
    else
      var last := lines[|lines| - 1];
      SumFor(lines[..|lines| - 1], resource) + (if last.resource == resource then last.amount else 0)
  }

  /** Resource types in order of first mention, the iteration order of a JavaScript Map. */
  function Firsts(lines: seq<Line>): seq<int> {
    if lines == [] then []
    else
      var front, last := Firsts(lines[..|lines| - 1]), lines[|lines| - 1].resource;
      if last in front then front else front + [last]
  }

  function Totals(lines: seq<Line>): map<int, int> {
    map r | r in Firsts(lines) :: SumFor(lines, r)
  }

  /** The aggregated lines: one per resource type. */
  function Merged(lines: seq<Line>): seq<Line> {
    seq(|Firsts(lines)|, i requires 0 <= i < |Firsts(lines)| => Line(Firsts(lines)[i], SumFor(lines, Firsts(lines)[i])))
  }

  /** Every resource type asked for has a stock row that covers the total asked for. */
  predicate Covers(stock: map<Slot, int>, camp: int, order: seq<int>, lines: seq<Line>) {
    forall r | r in order :: Slot(camp, r) in stock && SumFor(lines, r) <= stock[Slot(camp, r)]
  }

  predicate Positive(lines: seq<Line>) {
    forall l | l in lines :: l.amount > 0
  }

  lemma {:induction false} FirstsAreTheResources(lines: seq<Line>)
    ensures Distinct(Firsts(lines))
    ensures forall r :: r in Firsts(lines) <==> exists i :: 0 <= i < |lines| && lines[i].resource == r
    ensures forall r :: r !in Firsts(lines) ==> SumFor(lines, r) == 0
  {
    if lines != [] {
      var front := lines[..|lines| - 1];
      FirstsAreTheResources(front);
      forall r ensures r in Firsts(lines) <==> exists i :: 0 <= i < |lines| && lines[i].resource == r {
        if r in Firsts(front) {
          var i :| 0 <= i < |front| && front[i].resource == r;
          assert lines[i].resource == r;
        }
        if exists i :: 0 <= i < |lines| && lines[i].resource == r {
          var i :| 0 <= i < |lines| && lines[i].resource == r;
          if i < |front| { assert front[i].resource == r; }
        }
      }
    }
  }

  lemma {:induction false} PositiveSums(lines: seq<Line>, resource: int)
    requires Positive(lines)
    ensures SumFor(lines, resource) >= 0
    ensures resource in Firsts(lines) ==> SumFor(lines, resource) > 0
    ensures forall i :: 0 <= i < |lines| && lines[i].resource == resource ==> lines[i].amount <= SumFor(lines, resource)
  {
    if lines != [] {
      var front := lines[..|lines| - 1];
      assert forall l | l in front :: l in lines;
      PositiveSums(front, resource);
      FirstsAreTheResources(front);
      assert lines[|lines| - 1] in lines;
      forall i | 0 <= i < |lines| && lines[i].resource == resource ensures lines[i].amount <= SumFor(lines, resource) {
        if i < |front| { assert front[i] == lines[i]; }
      }
    }
  }

  /** Aggregating lines that are already aggregated changes nothing. */
  lemma MergedIsMerged(lines: seq<Line>)
    ensures Firsts(Merged(lines)) == Firsts(lines)
    ensures forall r :: SumFor(Merged(lines), r) == SumFor(lines, r)
    ensures Positive(lines) ==> Positive(Merged(lines))
  {
    FirstsAreTheResources(lines);
    var m := Merged(lines);
    assert m[..|m|] == m && Firsts(lines)[..|m|] == Firsts(lines);
    forall r ensures Firsts(m) == Firsts(lines) && SumFor(m, r) == SumFor(lines, r) {
      MergedPrefix(lines, |m|, r);
    }
    if Positive(lines) {
      forall l | l in m ensures l.amount > 0 {
        PositiveSums(lines, l.resource);
      }
    }
  }

  lemma {:induction false} MergedPrefix(lines: seq<Line>, n: nat, resource: int)
    requires n <= |Merged(lines)|
    ensures Firsts(Merged(lines)[..n]) == Firsts(lines)[..n]
    ensures SumFor(Merged(lines)[..n], resource) == if resource in Firsts(lines)[..n] then SumFor(lines, resource) else 0
  {
    if n > 0 {
      var m, order := Merged(lines), Firsts(lines);
      FirstsAreTheResources(lines);
      MergedPrefix(lines, n - 1, resource);
      assert m[..n][..n - 1] == m[..n - 1];
      assert order[..n] == order[..n - 1] + [order[n - 1]];
      assert order[n - 1] !in order[..n - 1];
    }
  }

  lemma SumOneMore(front: seq<Line>, item: Line, r: int)
    ensures Firsts(front + [item]) == if item.resource in Firsts(front) then Firsts(front) else Firsts(front) + [item.resource]
    ensures SumFor(front + [item], r) == SumFor(front, r) + (if item.resource == r then item.amount else 0)
    ensures r in Firsts(front + [item]) <==> r in Firsts(front) || r == item.resource
  {
    assert (front + [item])[..|front|] == front;
  }

  lemma Unmentioned(lines: seq<Line>, r: int)
    ensures r !in Firsts(lines) ==> SumFor(lines, r) == 0
  {
    FirstsAreTheResources(lines);
  }

  lemma OneMoreLine(front: seq<Line>, item: Line)
    ensures Firsts(front + [item]) == if item.resource in Totals(front) then Firsts(front) else Firsts(front) + [item.resource]
    ensures Totals(front + [item]) ==
            Totals(front)[item.resource := (if item.resource in Totals(front) then Totals(front)[item.resource] else 0) + item.amount]
  {
    var r := item.resource;
    SumOneMore(front, item, r);
    Unmentioned(front, r);
    var t, u := Totals(front + [item]), Totals(front)[r := SumFor(front, r) + item.amount];
    forall x: int ensures (x in t <==> x in u) && (x in t ==> t[x] == u[x]) { SumOneMore(front, item, x); }
    assert t == u;
  }

  /** Resource i of the order is mentioned before resource j is mentioned at all. */
  ghost predicate MentionedBefore(lines: seq<Line>, a: int, b: int) {
    exists p | 0 <= p < |lines| :: lines[p].resource == a && forall q | 0 <= q <= p :: lines[q].resource != b
  }

  /** The order is that of first mention. */
  lemma {:induction false} FirstsInOrder(lines: seq<Line>, i: nat, j: nat)
    requires i < j < |Firsts(lines)|
    ensures MentionedBefore(lines, Firsts(lines)[i], Firsts(lines)[j])
  {
    var front, last := lines[..|lines| - 1], lines[|lines| - 1];
    FirstsAreTheResources(front);
    var a, b := Firsts(lines)[i], Firsts(lines)[j];
    if j < |Firsts(front)| {
      FirstsInOrder(front, i, j);
      var p :| 0 <= p < |front| && front[p].resource == a && forall q | 0 <= q <= p :: front[q].resource != b;
      assert lines[p].resource == a && forall q | 0 <= q <= p :: lines[q].resource != b;
    } else {
      assert a in Firsts(front) && b !in Firsts(front);
      var p :| 0 <= p < |front| && front[p].resource == a;
      forall q | 0 <= q <= p ensures lines[q].resource != b { assert front[q] == lines[q]; }
      assert lines[p].resource == a;
    }
  }

  /** `aggregateResources`, and the `reduce` over transfer items: a Map filled line by line. */
  method AggregateResources(lines: seq<Line>) returns (merged: seq<Line>)
    ensures merged == Merged(lines)
  {
    var order: seq<int>, totals: map<int, int> := [], map[];
    for i := 0 to |lines|
      invariant order == Firsts(lines[..i])
      invariant totals == Totals(lines[..i])
    {
      var item := lines[i];
      OneMoreLine(lines[..i], item);
      assert lines[..i + 1] == lines[..i] + [item];
      if item.resource !in totals {
        order := order + [item.resource];
      }
      totals := totals[item.resource := (if item.resource in totals then totals[item.resource] else 0) + item.amount];
    }
    assert lines[..|lines|] == lines;
    merged := seq(|order|, i requires 0 <= i < |order| => Line(order[i], totals[order[i]]));
  }

  // ---------------------------------------------------------------------------------------------
  // Batches of movements, one per aggregated resource type
  // ---------------------------------------------------------------------------------------------

  /** One movement per resource type mentioned, of `sign` times the amount requested in total. */
  function Batch(order: seq<int>, lines: seq<Line>, camp: int, origin: Origin, sign: int): seq<Movement> {
    if order == [] then []
    else
      var r := order[|order| - 1];
      Batch(order[..|order| - 1], lines, camp, origin, sign) + [Movement(Slot(camp, r), origin, sign * SumFor(lines, r))]
  }

  function Outflow(lines: seq<Line>, camp: int, origin: Origin): seq<Movement> {
    Batch(Firsts(lines), lines, camp, origin, -1)
  }

  function Inflow(lines: seq<Line>, camp: int, origin: Origin): seq<Movement> {
    Batch(Firsts(lines), lines, camp, origin, 1)
  }

  lemma {:induction false} BatchNet(order: seq<int>, lines: seq<Line>, camp: int, origin: Origin, sign: int, slot: Slot, other: Origin)
    requires Distinct(order)
    ensures var amount := if slot.camp == camp && slot.resource in order then sign * SumFor(lines, slot.resource) else 0;
            && Net(Batch(order, lines, camp, origin, sign), slot) == amount
            && NetOf(Batch(order, lines, camp, origin, sign), slot, other) == if other == origin then amount else 0
  {
    if order != [] {
      var front, r := order[..|order| - 1], order[|order| - 1];
      BatchNet(front, lines, camp, origin, sign, slot, other);
      assert order == front + [r] && r !in front;
      var rest, m := Batch(front, lines, camp, origin, sign), Movement(Slot(camp, r), origin, sign * SumFor(lines, r));
      assert (rest + [m])[..|rest|] == rest;
    }
  }

  /** What a whole-request inflow or outflow does to each slot, duplicates in the request included. */
  lemma FlowNet(lines: seq<Line>, camp: int, origin: Origin, slot: Slot, other: Origin)
    ensures var amount := if slot.camp == camp then SumFor(lines, slot.resource) else 0;
            && Net(Inflow(lines, camp, origin), slot) == amount
            && Net(Outflow(lines, camp, origin), slot) == -amount
            && NetOf(Inflow(lines, camp, origin), slot, other) == (if other == origin then amount else 0)
            && NetOf(Outflow(lines, camp, origin), slot, other) == (if other == origin then -amount else 0)
  {
    FirstsAreTheResources(lines);
    BatchNet(Firsts(lines), lines, camp, origin, 1, slot, other);
    BatchNet(Firsts(lines), lines, camp, origin, -1, slot, other);
  }
}
