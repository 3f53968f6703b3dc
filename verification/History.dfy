/** Everything at once: what holds after any run that starts on a database without history. */
module History {
  import opened Core
  import opened Ledger
  import opened Census
  import opened Tables
  import opened LateWrites
  import opened Runs
  import opened TransferRuns
  import opened ExpeditionRuns
  import opened PeopleRuns
  import Admissions

  /** Stock and people may be there already; transfers, expeditions, requests, admissions and logs are not. */
  ghost predicate Opening(w: World) {
    && w.books.log == [] && (forall s: Slot :: Have(w.books.stock, s) >= 0)
    && w.roster.healthLog == map[] && w.roster.campLog == map[]
    && (forall p | p in w.roster.people :: p < w.nextId)
    && w.transfers == map[] && w.expeditions == map[] && w.requests == map[] && w.admissions == map[]
  }

  lemma OpeningIsSound(w: World)
    requires Opening(w)
    ensures IdsBelow(w) && RequestsPositive(w) && Balanced(w.books.stock, w.books)
    ensures Sound(w) && Booked(w.books.log, w.transfers)
    ensures RequestsBooked(w.books.log, w.requests)
    ensures RowsSound(w) && Accounted(w)
    ensures Unbroken(w.roster) && HealthUnbroken(w.roster) && TwoCamps(w) && PeopleMovedOnce(w)
    ensures Admissions.Linked(w)
  {
    forall s: Slot ensures Net(w.books.log, s) == 0 {}
    forall id: int, s: Slot ensures BookedFor(w.books.log, w.transfers, id, s) {}
    forall id: int, s: Slot ensures AccountedFor(w.books.log, w.expeditions, id, s) {}
    forall p: int ensures LogOf(w.roster.campLog, p) == [] && LogOf(w.roster.healthLog, p) == [] {}
  }

  /**
    In any interleaving whatever, every check overtaken as one likes: the ledger balances, every status
    trail is unbroken, and accepted admissions are linked.
  */
  lemma AnyRun(w: World, run: seq<Event>)
    requires Opening(w)
    ensures var v := Trace(w, run);
            && Balanced(w.books.stock, v.books)
            && HealthUnbroken(v.roster)
            && Admissions.Linked(v)
  {
    OpeningIsSound(w);
    LedgerAlwaysBalances(w.books.stock, w, run);
    StatusTrailsStayUnbroken(w, run);
    LinksHoldForever(w, run);
  }

  /**
    When requests are served one at a time, everything is booked exactly once as well: requests,
    expeditions, the goods of transfers and the moves of people; and camp trails are unbroken.
  */
  lemma SerialRun(w: World, run: seq<Event>)
    requires Opening(w) && Serial(run)
    ensures var v := Trace(w, run);
            && RequestsBooked(v.books.log, v.requests)
            && RowsSound(v) && Accounted(v)
            && Sound(v) && Booked(v.books.log, v.transfers)
            && Unbroken(v.roster) && PeopleMovedOnce(v)
  {
    OpeningIsSound(w);
    RequestsPostOnce(w, run);
    ExpeditionsAreAccountedFor(w, run);
    TransfersMoveOnce(w, run);
    TransfersMovePeopleOnce(w, run);
    forall e | e in run ensures !IsLatePersonUpdate(e) { assert SerialEvent(e); }
    TrailsStayUnbroken(w, run);
  }
}
