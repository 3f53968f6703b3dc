/** The rows the services share, and the state of the whole database as one value. */
module Tables {
  import opened Core
  import opened Ledger
  import opened Census

  /** Who gets travel rations and how many: RATION_* settings, `perDay` in hundredths. */
  datatype RationPolicy = RationPolicy(rationType: Option<int>, perDay: int, days: int)

  /** Reference data the services only look up. */
  datatype Catalog = Catalog(camps: set<int>, resources: set<int>, professions: map<int, string>, policy: RationPolicy)

  datatype TransferStatus = PENDING | APPROVED_SOURCE | APPROVED_TARGET | COMPLETED | REJECTED

  datatype Item = ResourceItem(resource: int, quantity: int) | PersonItem(person: int)

  datatype Transfer = Transfer(
    requesting: int, target: int, status: TransferStatus, items: seq<Item>, delivery: Option<int>,
    approvedBySource: Option<int>, approvedByTarget: Option<int>)

  datatype ExpeditionStatus = PLANNED | ONGOING | RETURNED | CANCELLED

  /** An expedition with its member and resource rows (one row per resource type). */
  datatype Expedition = Expedition(
    camp: int, status: ExpeditionStatus, members: set<int>,
    allotted: map<int, int>, returned: map<int, int>, found: map<int, int>)

  datatype RequestStatus = AWAITING | APPROVED | DECLINED

  datatype Request = Request(camp: int, resource: int, isIn: bool, quantity: int, status: RequestStatus)

  datatype Decision = UNDECIDED | ACCEPTED | TURNED_DOWN

  datatype Admission = Admission(camp: int, aiProfession: Option<int>, decision: Decision, person: Option<int>)

  /** A ration job between reading a camp's stock of a resource and consuming it; `seen` is the stock row it read. */
  datatype Plan = Plan(camp: int, resource: int, need: int, headCount: nat, seen: Option<int>)

  datatype World = World(
    catalog: Catalog,
    users: map<int, int>,
    books: Books,
    roster: Roster,
    transfers: map<int, Transfer>,
    expeditions: map<int, Expedition>,
    requests: map<int, Request>,
    admissions: map<int, Admission>,
    plans: map<int, Plan>,
    nextId: int)

  /** What a call leaves behind: the new state and how the call ended. */
  datatype Response = Response(world: World, outcome: Outcome)

  function Refuse(w: World, code: nat): Response {
    Response(w, Refused(code))
  }

  /** A transaction: its effect if the outcome is Done, otherwise nothing. */
  function Commit(w: World, outcome: Outcome, effect: World): Response {
    Response(if outcome.Done? then effect else w, outcome)
  }
}

/** The database as an object whose tables the services update in place. */
module Store {
  import opened Core
  import opened Ledger
  import opened Census
  import opened Tables

  class Database {
    var catalog: Catalog
    var users: map<int, int>
    var stock: map<Slot, int>
    var log: seq<Movement>
    var people: map<int, Person>
    var healthLog: map<int, seq<Change<Health>>>
    var campLog: map<int, seq<Change<int>>>
    var transfers: map<int, Transfer>
    var expeditions: map<int, Expedition>
    var requests: map<int, Request>
    var admissions: map<int, Admission>
    var plans: map<int, Plan>
    var nextId: int

    constructor (w: World)
      ensures Snapshot() == w
    {
      catalog, users := w.catalog, w.users;
      stock, log := w.books.stock, w.books.log;
      people, healthLog, campLog := w.roster.people, w.roster.healthLog, w.roster.campLog;
      transfers, expeditions, requests, admissions := w.transfers, w.expeditions, w.requests, w.admissions;
      plans, nextId := w.plans, w.nextId;
    }

    function Snapshot(): World
      reads this
    {
      World(catalog, users, Books(stock, log), Roster(people, healthLog, campLog),
            transfers, expeditions, requests, admissions, plans, nextId)
    }

    /** Transaction rollback of the tables a failed transaction may have written. */
    method Rollback(w: World)
      modifies this`stock, this`log, this`people, this`healthLog, this`campLog, this`expeditions, this`requests,
               this`admissions, this`nextId
      ensures stock == w.books.stock && log == w.books.log
      ensures people == w.roster.people && healthLog == w.roster.healthLog && campLog == w.roster.campLog
      ensures expeditions == w.expeditions && requests == w.requests && admissions == w.admissions
      ensures nextId == w.nextId
    {
      stock, log := w.books.stock, w.books.log;
      people, healthLog, campLog := w.roster.people, w.roster.healthLog, w.roster.campLog;
      expeditions, requests, admissions, nextId := w.expeditions, w.requests, w.admissions, w.nextId;
    }

    /** `updateMany` guarded by `quantity >= amount`: the number of rows it changed. */
    method DecrementIfEnough(slot: Slot, amount: int) returns (count: nat)
      modifies this`stock
      ensures count == if slot in old(stock) && old(stock)[slot] >= amount then 1 else 0
      ensures stock == if count == 1 then old(stock)[slot := old(stock)[slot] - amount] else old(stock)
    {
      if slot in stock && stock[slot] >= amount {
        stock := stock[slot := stock[slot] - amount];
        count := 1;
      } else {
        count := 0;
      }
    }

    /** `upsert`: adds to the row, or creates it. */
    method UpsertIncrement(slot: Slot, amount: int)
      modifies this`stock
      ensures stock == old(stock)[slot := Have(old(stock), slot) + amount]
    {
      if slot in stock {
        stock := stock[slot := stock[slot] + amount];
      } else {
        stock := stock[slot := amount];
      }
    }

    method CreateLog(m: Movement)
      modifies this`log
      ensures log == old(log) + [m]
    {
      log := log + [m];
    }

    /** Next value of the id sequence. */
    method NewId() returns (id: int)
      modifies this`nextId
      ensures id == old(nextId) && nextId == old(nextId) + 1
    {
      id := nextId;
      nextId := nextId + 1;
    }
  }
}
