/**
  Concrete runs in which a check that another request overtakes, or a missing default, does harm. Each check
  below succeeds in the first state; the write comes later.
*/
module Overtaken {
  import opened Core
  import opened Ledger
  import opened Census
  import opened Tables
  import opened Inventory
  import opened Transfers
  import opened Expeditions
  import opened LateWrites
  import opened Runs
  import opened TransferRuns
  import opened ExpeditionRuns
  import opened ClosedRows
  import People

  /** Two camps; user 7 in the first, 8 in the second; two approved transfers, an expedition under way, a request. */
  const YARD := World(
    Catalog({1, 2}, {1}, map[1 := "Medic"], RationPolicy(Some(1), 200, 3)),
    map[7 := 1, 8 := 2],
    Books(map[Slot(1, 1) := 2000], [Movement(Slot(1, 1), ExpeditionOut(3), -500)]),
    Roster(map[5 := Person(1, 1, HEALTHY, "MED-001"), 6 := Person(1, 1, AWAY, "MED-002")], map[], map[]),
    map[9 := Transfer(1, 2, APPROVED_TARGET, [ResourceItem(1, 600), PersonItem(5)], Some(0), Some(7), Some(8)),
        10 := Transfer(1, 2, APPROVED_TARGET, [ResourceItem(1, 600)], Some(0), Some(7), Some(8))],
    map[3 := Expedition(1, ONGOING, {6}, map[1 := 500], map[], map[])],
    map[4 := Request(1, 1, true, 500, AWAITING)],
    map[], map[], 11)

  lemma OneLine(l: Line)
    ensures Firsts([l]) == [l.resource]
    ensures forall r :: SumFor([l], r) == if r == l.resource then l.amount else 0
    ensures Totals([l]) == map[l.resource := l.amount]
  {
    assert [] + [l] == [l] && Firsts([]) == [];
    forall r ensures Firsts([l]) == [l.resource] && SumFor([l], r) == if r == l.resource then l.amount else 0 {
      SumOneMore([], l, r);
    }
    assert Totals([l]) == map[l.resource := l.amount];
  }

  lemma ItemsOf()
    ensures ResourceLines([ResourceItem(1, 600)]) == [Line(1, 600)] && PersonIds([ResourceItem(1, 600)]) == []
    ensures ResourceLines([ResourceItem(1, 600), PersonItem(5)]) == [Line(1, 600)]
    ensures PersonIds([ResourceItem(1, 600), PersonItem(5)]) == [5]
  {
    var goods, person := ResourceItem(1, 600), PersonItem(5);
    assert [goods][1..] == [] && [person][1..] == [] && [goods, person][1..] == [person];
    assert ResourceLines([goods]) == [Line(1, 600)] + ResourceLines([]) && PersonIds([goods]) == PersonIds([]);
    assert PersonIds([person]) == [5] + PersonIds([]) && ResourceLines([person]) == ResourceLines([]);
    assert ResourceLines([goods, person]) == [Line(1, 600)] + ResourceLines([person]);
    assert PersonIds([goods, person]) == PersonIds([person]);
  }

  lemma OpeningLog(s: Slot, o: Origin)
    ensures NetOf(YARD.books.log, s, o) == if s == Slot(1, 1) && o == ExpeditionOut(3) then -500 else 0
  {
    OneRow(Slot(1, 1), ExpeditionOut(3), -500, s, o);
  }

  lemma GoodsTransferShips(w: World)
    requires 10 in w.transfers && w.transfers[10].items == [ResourceItem(1, 600)]
    requires w.transfers[10].requesting == 1 && w.transfers[10].target == 2
    requires Slot(1, 1) in w.books.stock && w.books.stock[Slot(1, 1)] >= 600
    ensures var r := CommitCompletion(w, 10, None);
            && r.outcome.Done? && r.world.transfers == w.transfers[10 := w.transfers[10].(status := COMPLETED)]
            && Slot(1, 1) in r.world.books.stock && r.world.books.stock[Slot(1, 1)] == w.books.stock[Slot(1, 1)] - 600
            && NetOf(r.world.books.log, Slot(2, 1), TransferIn(10)) == NetOf(w.books.log, Slot(2, 1), TransferIn(10)) + 600
  {
    ItemsOf();
    OneLine(Line(1, 600));
    LateCompletionShips(w, 10, None, 10, Slot(2, 1));
    PostEffect(w.books, TransferRows(10, w.transfers[10]), Slot(1, 1));
    ShipmentNet([Line(1, 600)], 10, 1, 2, Slot(1, 1), ManualMovement);
    BatchLeavesRow(w, [Line(1, 600)]);
  }

  lemma BatchLeavesRow(w: World, lines: seq<Line>)
    requires lines == [Line(1, 600)] && Slot(1, 1) in w.books.stock
    ensures Slot(1, 1) in Post(w.books, Shipment(lines, 10, 1, 2)).stock
  {
    OneLine(Line(1, 600));
    PostPair(w.books, [], Movement(Slot(1, 1), TransferOut(10), -600), Movement(Slot(2, 1), TransferIn(10), 600));
    assert Firsts(lines)[..0] == [];
  }

  /** Two completions, both checked while the transfer was approved: 1200 arrive of a transfer of 600. */
  lemma CompletedTwice()
    ensures CompletionOutcome(YARD, 10, 7).Done?
    ensures var once := CommitCompletion(YARD, 10, None);
            var twice := CommitCompletion(once.world, 10, None);
            once.outcome.Done? && twice.outcome.Done? && NetOf(twice.world.books.log, Slot(2, 1), TransferIn(10)) == 1200
  {
    hide CommitCompletion, CompletionOutcome;
    OpeningLog(Slot(2, 1), TransferIn(10));
    CheckedForCompletion();
    GoodsTransferShips(YARD);
    GoodsTransferShips(CommitCompletion(YARD, 10, None).world);
  }

  /** A rejection checked before the completion: the row says rejected, the goods have arrived. */
  lemma RejectedAfterCompletion()
    ensures RejectOutcome(YARD, 10, 8).Done?
    ensures var once := Complete(YARD, 10, 7, None);
            var v := CommitRejection(once.world, 10).world;
            && once.outcome.Done? && 10 in v.transfers && v.transfers[10].status == REJECTED
            && NetOf(v.books.log, Slot(2, 1), TransferIn(10)) == 600
  {
    hide CommitCompletion;
    OpeningLog(Slot(2, 1), TransferIn(10));
    GoodsTransferShips(YARD);
  }

  /** A completion checked before a rejection: the goods of a rejected transfer arrive after all. */
  lemma CompletedAfterRejection()
    ensures CompletionOutcome(YARD, 10, 7).Done?
    ensures var once := Reject(YARD, 10, 8);
            var late := CommitCompletion(once.world, 10, None);
            && once.outcome.Done? && 10 in once.world.transfers && once.world.transfers[10].status == REJECTED
            && late.outcome.Done? && 10 in late.world.transfers && late.world.transfers[10].status == COMPLETED
            && NetOf(late.world.books.log, Slot(2, 1), TransferIn(10)) == 600
            && !ClosedKept(once.world, late.world)
  {
    hide CommitCompletion, ClosedKept;
    OpeningLog(Slot(2, 1), TransferIn(10));
    CheckedForCompletion();
    GoodsTransferShips(Reject(YARD, 10, 8).world);
    CompletionReopens(Reject(YARD, 10, 8).world);
  }

  lemma CheckedForCompletion()
    ensures CompletionOutcome(YARD, 10, 7).Done?
  {
    ItemsOf();
    OneLine(Line(1, 600));
  }

  lemma CompletionReopens(w: World)
    requires 10 in w.transfers && w.transfers[10].status == REJECTED
    ensures var late := CommitCompletion(w, 10, None); late.outcome.Done? ==> !ClosedKept(w, late.world)
  {
    hide Shipment, Moved, ResourceLines, PersonIds;
    assert IsClosed(w.transfers[10]);
  }

  /** An approval checked before a decline: a declined request is booked after all. */
  lemma ApprovedAfterDecline()
    ensures ReviewCheck(YARD, 4, 7).Done?
    ensures var once := Decline(YARD, 4, 7);
            var late := CommitApproval(once.world, 4);
            && once.outcome.Done? && 4 in once.world.requests && once.world.requests[4].status == DECLINED
            && late.outcome.Done? && 4 in late.world.requests && late.world.requests[4].status == APPROVED
            && NetOf(late.world.books.log, Slot(1, 1), ApprovedRequest(4)) == 500
            && !ClosedKept(once.world, late.world)
  {
    OpeningLog(Slot(1, 1), ApprovedRequest(4));
    LateApprovalPosts(Decline(YARD, 4, 7).world, 4, 4, Slot(1, 1));
  }

  /** A decline checked before the approval: the row says declined, the stock has been raised. */
  lemma DeclinedAfterApproval()
    ensures ReviewCheck(YARD, 4, 7).Done?
    ensures var once := Approve(YARD, 4, 7);
            var v := CommitDecline(once.world, 4).world;
            && once.outcome.Done? && 4 in v.requests && v.requests[4].status == DECLINED
            && NetOf(v.books.log, Slot(1, 1), ApprovedRequest(4)) == 500
  {
    OpeningLog(Slot(1, 1), ApprovedRequest(4));
    LateApprovalPosts(YARD, 4, 4, Slot(1, 1));
  }

  const HOMECOMING := StatusUpdate(RETURNED, 7, true, [Line(1, 500)], [], None, [])

  lemma HomecomingCommits(w: World)
    requires 3 in w.expeditions && w.expeditions[3].camp == 1 && w.expeditions[3].allotted == map[1 := 500]
    requires w.expeditions[3].returned in {map[], map[1 := 500]}
    ensures var r := Expeditions.CommitUpdate(w, 3, HOMECOMING);
            && r.outcome.Done? && 3 in r.world.expeditions
            && r.world.expeditions[3].returned == map[1 := 500] && r.world.expeditions[3].allotted == map[1 := 500]
            && r.world.expeditions[3].camp == 1
            && NetOf(r.world.books.log, Slot(1, 1), ExpeditionReturn(3)) ==
               NetOf(w.books.log, Slot(1, 1), ExpeditionReturn(3)) + 500
  {
    OneLine(Line(1, 500));
    PostEffect(w.books, ReturnFlow(1, 3, HOMECOMING), Slot(1, 1));
    ReturnFlowNet(1, 3, HOMECOMING, Slot(1, 1), ExpeditionReturn(3));
    NetOfConcat(w.books.log, ReturnFlow(1, 3, HOMECOMING), Slot(1, 1), ExpeditionReturn(3));
    assert Totals([Line(1, 500)]) + w.expeditions[3].returned == map[1 := 500];
  }

  /** Two returns, both checked while the expedition was under way: 1000 come back of an allotment of 500. */
  lemma ReturnedTwice()
    ensures UpdateCheck(YARD, 3, HOMECOMING).Done?
    ensures var once := Expeditions.CommitUpdate(YARD, 3, HOMECOMING);
            var twice := Expeditions.CommitUpdate(once.world, 3, HOMECOMING);
            && once.outcome.Done? && twice.outcome.Done? && 3 in twice.world.expeditions
            && NetOf(twice.world.books.log, Slot(1, 1), ExpeditionReturn(3)) == 1000
            && twice.world.expeditions[3].allotted == map[1 := 500]
  {
    hide Expeditions.CommitUpdate;
    OpeningLog(Slot(1, 1), ExpeditionReturn(3));
    HomecomingCommits(YARD);
    HomecomingCommits(Expeditions.CommitUpdate(YARD, 3, HOMECOMING).world);
  }

  const CALLING_OFF := StatusUpdate(CANCELLED, 7, false, [], [], None, [])

  /** A cancellation checked before the return: a cancelled row with credits. */
  lemma CancelledAfterReturn()
    ensures UpdateCheck(YARD, 3, CALLING_OFF).Done? && RowsSound(YARD)
    ensures var once := UpdateStatus(YARD, 3, HOMECOMING);
            var late := Expeditions.CommitUpdate(once.world, 3, CALLING_OFF);
            && once.outcome.Done? && late.outcome.Done? && 3 in late.world.expeditions
            && late.world.expeditions[3].status == CANCELLED && late.world.expeditions[3].returned == map[1 := 500]
            && !RowsSound(late.world)
  {
    hide Expeditions.CommitUpdate;
    HomecomingCommits(YARD);
    CallsOffWhatReturned(UpdateStatus(YARD, 3, HOMECOMING).world);
  }

  lemma CallsOffWhatReturned(w: World)
    requires 3 in w.expeditions && w.expeditions[3].returned == map[1 := 500]
    ensures var v := Expeditions.CommitUpdate(w, 3, CALLING_OFF);
            && v.outcome.Done? && 3 in v.world.expeditions && v.world.expeditions[3].status == CANCELLED
            && v.world.expeditions[3].returned == map[1 := 500] && !RowsSound(v.world)
  {
    var v := Expeditions.CommitUpdate(w, 3, CALLING_OFF).world;
    assert 1 in v.expeditions[3].returned;
    assert !RowSound(v.expeditions[3]);
  }

  /** A return checked before a cancellation: a cancelled expedition comes back with its goods. */
  lemma ReturnedAfterCancellation()
    ensures UpdateCheck(YARD, 3, HOMECOMING).Done?
    ensures var once := UpdateStatus(YARD, 3, CALLING_OFF);
            var late := Expeditions.CommitUpdate(once.world, 3, HOMECOMING);
            && once.outcome.Done? && 3 in once.world.expeditions && once.world.expeditions[3].status == CANCELLED
            && late.outcome.Done? && !ClosedKept(once.world, late.world)
            && NetOf(late.world.books.log, Slot(1, 1), ExpeditionReturn(3)) == 500
  {
    hide Expeditions.CommitUpdate, UpdateStatus, ClosedKept;
    OpeningLog(Slot(1, 1), ExpeditionReturn(3));
    CalledOff();
    HomecomingCommits(UpdateStatus(YARD, 3, CALLING_OFF).world);
    HomecomingReopens(UpdateStatus(YARD, 3, CALLING_OFF).world);
  }

  lemma CalledOff()
    ensures var once := UpdateStatus(YARD, 3, CALLING_OFF);
            && once.outcome.Done? && once.world.books == YARD.books && 3 in once.world.expeditions
            && once.world.expeditions[3] == YARD.expeditions[3].(status := CANCELLED)
  {
    assert ReturnFlow(1, 3, CALLING_OFF) == [];
  }

  lemma HomecomingReopens(w: World)
    requires 3 in w.expeditions && w.expeditions[3].status == CANCELLED
    ensures var late := Expeditions.CommitUpdate(w, 3, HOMECOMING);
            late.outcome.Done? ==> !ClosedKept(w, late.world)
  {
    hide Totals, ReturnFlow, TargetsOf, SetHealth;
    assert IsOver(w.expeditions[3]);
  }

  /** A deletion checked before the return: a cancelled row with credits. */
  lemma DeletedAfterReturn()
    ensures DeletionOutcome(YARD, 3, Deletion(7, None, [])).Done?
    ensures var once := UpdateStatus(YARD, 3, HOMECOMING);
            var v := CommitDeletion(once.world, 3, Deletion(7, None, [])).world;
            && once.outcome.Done? && 3 in v.expeditions
            && v.expeditions[3].status == CANCELLED && v.expeditions[3].returned == map[1 := 500]
  {
    hide Expeditions.CommitUpdate, CommitDeletion;
    HomecomingCommits(YARD);
    CancelsWhatReturned(UpdateStatus(YARD, 3, HOMECOMING).world);
  }

  lemma CancelsWhatReturned(w: World)
    requires 3 in w.expeditions && w.expeditions[3].returned == map[1 := 500]
    ensures var v := CommitDeletion(w, 3, Deletion(7, None, [])).world;
            3 in v.expeditions && v.expeditions[3].status == CANCELLED && v.expeditions[3].returned == map[1 := 500]
  {}

  lemma PeopleTransferMoves()
    ensures var r := Complete(YARD, 9, 7, None);
            && r.outcome.Done? && 5 in r.world.roster.people
            && LogOf(r.world.roster.campLog, 5) == [Change(1, 2, ByTransfer(9))]
            && r.world.users == YARD.users
  {
    ItemsOf();
    OneLine(Line(1, 600));
    assert FindLine([Line(1, 600)], 1) == Some(Line(1, 600));
    assert Distinct([5]);
    assert ShippingOutcome(YARD, YARD.transfers[9]).Done?;
    LateCompletionMovesFive();
  }

  lemma LateCompletionMovesFive()
    ensures var r := Moved(YARD.roster, Elements([5]), 1, 2, HEALTHY, ByTransfer(9));
            5 in r.people && LogOf(r.campLog, 5) == [Change(1, 2, ByTransfer(9))]
  {
    assert 5 in Elements([5]);
  }

  /** A person update checked before a transfer took the person away: back in the old camp, against the log. */
  lemma UpdatedAfterMove()
    ensures var d := People.PersonUpdate(None, None, None);
            && People.UpdateCheck(YARD, 1, 5, d).Done? && Unbroken(YARD.roster)
            && var once := Complete(YARD, 9, 7, None);
            var v := People.CommitUpdate(once.world, 1, 5, d, 7);
            && once.outcome.Done? && v.outcome.Done? && 5 in v.world.roster.people && v.world.roster.people[5].camp == 1
            && LogOf(v.world.roster.campLog, 5) == [Change(1, 2, ByTransfer(9))] && !Unbroken(v.world.roster)
  {
    hide Complete, People.CommitUpdate;
    PeopleTransferMoves();
    UpdateBringsBack(Complete(YARD, 9, 7, None).world, People.PersonUpdate(None, None, None));
  }

  lemma UpdateBringsBack(w: World, d: People.PersonUpdate)
    requires 7 in w.users && 5 in w.roster.people && LogOf(w.roster.campLog, 5) == [Change(1, 2, ByTransfer(9))]
    ensures var v := People.CommitUpdate(w, 1, 5, d, 7);
            && v.outcome.Done? && 5 in v.world.roster.people && v.world.roster.people[5].camp == 1
            && LogOf(v.world.roster.campLog, 5) == [Change(1, 2, ByTransfer(9))] && !Unbroken(v.world.roster)
  {
    var v := People.CommitUpdate(w, 1, 5, d, 7).world;
    assert !Chained(LogOf(v.roster.campLog, 5), v.roster.people[5].camp);
  }

  /** Deleting an expedition brings its AWAY member home; cancelling it with nothing said does not. */
  lemma BareCancellationLeavesThemAway()
    ensures var d := Deletion(7, None, []);
            var deleted, cancelled := Delete(YARD, 3, d), UpdateStatus(YARD, 3, AsCancellation(d, None));
            && deleted.outcome.Done? && cancelled.outcome.Done?
            && 6 in deleted.world.roster.people && deleted.world.roster.people[6].health == HEALTHY
            && 6 in cancelled.world.roster.people && cancelled.world.roster.people[6].health == AWAY
  {}
}
