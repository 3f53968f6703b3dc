/**
  The queue worker: job lists, a delayed set ordered by due time, exponential backoff and a dead-letter
  list, all kept in Redis and driven by one endless loop.
*/
module Worker {
  import opened Core

  /** The four lists the worker pops from, and every other list name. */
  datatype ListName = RATIONS | PRODUCTION | ALERTS | CLEANUP | ELSEWHERE

  datatype Kind = DAILY_RATIONS | DAILY_PRODUCTION | RESOURCE_ALERTS | CLEANUP_EXPIRED_TOKENS | UNKNOWN

  /**
    A payload: a text that is no JSON object, the JSON value `null`, or a job. `id` stands for all the rest of it;
    for a job, for the other fields of its object, so that two texts of one object are one payload.
  */
  datatype Payload = Garbage(id: int) | Null(id: int) | Job(id: int, kind: Kind, home: Option<ListName>, attempts: nat)

  /** MAX_RETRIES and BASE_DELAY_SECONDS. */
  datatype Settings = Settings(maxRetries: int, baseDelay: int)

  datatype Running = Running(list: ListName, payload: Payload, start: nat)

  /** One execution of a job; `attempt` is the number the payload carried into it. */
  datatype Execution = Execution(id: int, attempt: nat, start: nat, end: nat, ok: bool)

  /** `lost` is what the worker took from a list without keeping it; `stopped` says whether its process has ended. */
  datatype State = State(
    lists: map<ListName, seq<Payload>>, delayed: map<Payload, int>, dlq: seq<Payload>,
    running: Option<Running>, finished: seq<Payload>, history: seq<Execution>, clock: nat,
    lost: seq<Payload>, stopped: bool)

  /** Nothing enqueued yet. */
  function Empty(now: nat): State {
    State(map[], map[], [], None, [], [], now, [], false)
  }

  const QUEUES := [RATIONS, PRODUCTION, ALERTS, CLEANUP]

  function ListOf(lists: map<ListName, seq<Payload>>, q: ListName): seq<Payload> {
    if q in lists then lists[q] else []
  }

  function Pushed(lists: map<ListName, seq<Payload>>, q: ListName, p: Payload): map<ListName, seq<Payload>> {
    lists[q := ListOf(lists, q) + [p]]
  }

  // ---------------------------------------------------------------------------------------------
  // Delays in 64-bit arithmetic, due times in double precision
  // ---------------------------------------------------------------------------------------------

  function Pow2(n: nat): nat {
    if n == 0 then 1 else 2 * Pow2(n - 1)
  }

  const INT64 := 0x8000_0000_0000_0000

  /** The value a 64-bit Go int holds after an operation whose exact result is `x`. */
  function Wrap64(x: int): int {
    (x + INT64) % (2 * INT64) - INT64
  }

  /** Milliseconds before the retry that follows failure number `attempts`. */
  function DelayMs(baseDelay: int, attempts: nat): int
    requires attempts >= 1
  {
    Wrap64(Wrap64(baseDelay * Wrap64(Pow2(attempts - 1))) * 1000)
  }

  const DOUBLE_EXACT := 0x20_0000_0000_0000

  /** The distance between neighbouring doubles at magnitude x, for whole numbers. */
  function Ulp(x: nat): (u: nat)
    ensures u >= 1
  {
    if x < DOUBLE_EXACT then 1 else 2 * Ulp(x / 2)
  }

  /** The nearest double, ties to even. */
  function RoundedNat(x: nat): nat {
    var u := Ulp(x);
    var q, r := x / u, x % u;
    if 2 * r < u || (2 * r == u && q % 2 == 0) then q * u else (q + 1) * u
  }

  function ToDouble(x: int): int {
    if x >= 0 then RoundedNat(x) else 0 - RoundedNat(-x)
  }

  /** The score under which a job that failed at `clock` is delayed: a 64-bit sum, converted to a double. */
  function Due(clock: nat, baseDelay: int, attempts: nat): int
    requires attempts >= 1
  {
    ToDouble(Wrap64(clock + DelayMs(baseDelay, attempts)))
  }

  // ---------------------------------------------------------------------------------------------
  // Steps
  // ---------------------------------------------------------------------------------------------

  function ListForKind(kind: Kind): Option<ListName> {
    match kind
    case DAILY_RATIONS => Some(RATIONS)
    case DAILY_PRODUCTION => Some(PRODUCTION)
    case RESOURCE_ALERTS => Some(ALERTS)
    case CLEANUP_EXPIRED_TOKENS => Some(CLEANUP)
    case UNKNOWN => None
  }

  /** The payload's own list, else the one of its type, else the given one. */
  function HomeOf(p: Payload, otherwise: ListName): ListName {
    if !p.Job? then otherwise
    else if p.home.Some? then p.home.value
    else if ListForKind(p.kind).Some? then ListForKind(p.kind).value
    else otherwise
  }

  /** One due member leaves the delayed set for its list. */
  function Released(s: State, p: Payload): State {
    var rest := s.(delayed := s.delayed - {p});
    if p.Garbage? then rest.(dlq := s.dlq + [p])
    else rest.(lists := Pushed(s.lists, HomeOf(p, RATIONS), p))
  }

  /** BRPOP looks at its lists in the order given. */
  function FirstBusy(lists: map<ListName, seq<Payload>>, order: seq<ListName>): Option<ListName> {
    if order == [] then None
    else if ListOf(lists, order[0]) != [] then Some(order[0])
    else FirstBusy(lists, order[1..])
  }

  /**
    Pops the right end of the first non-empty list. What is no JSON object goes to the dead-letter list; `null`
    is taken for an object, and the first write to it ends the process.
  */
  function Popped(s: State): State {
    var q := FirstBusy(s.lists, QUEUES);
    if q.None? || ListOf(s.lists, q.value) == [] then s
    else
      var l := ListOf(s.lists, q.value);
      var p, rest := l[|l| - 1], s.(lists := s.lists[q.value := l[..|l| - 1]]);
      if p.Garbage? then rest.(dlq := s.dlq + [p])
      else if p.Null? then rest.(lost := s.lost + [p], stopped := true)
      else rest.(running := Some(Running(q.value, p, s.clock)))
  }

  /** The payload written for the next attempt. */
  function Again(r: Running): Payload
    requires r.payload.Job?
  {
    r.payload.(attempts := r.payload.attempts + 1, home := Some(HomeOf(r.payload, r.list)))
  }

  /** What becomes of the job that was running; `done` says whether its work raised no error. */
  function Ended(s: State, cfg: Settings, done: bool): State {
    if s.running.None? || !s.running.value.payload.Job? then s
    else
      var p := s.running.value.payload;
      var ok := done && p.kind != UNKNOWN;
      var rest := s.(running := None,
                     history := s.history + [Execution(p.id, p.attempts, s.running.value.start, s.clock, ok)]);
      if ok then rest.(finished := s.finished + [p])
      else if p.attempts + 1 > cfg.maxRetries then rest.(dlq := s.dlq + [p])
      else rest.(delayed := s.delayed[Again(s.running.value) := Due(s.clock, cfg.baseDelay, p.attempts + 1)])
  }

  datatype Event =
    Enqueue(list: ListName, payload: Payload) | Tick(ms: nat) | Release(due: Payload) | Pop | End(done: bool) | Restart

  function Step(s: State, cfg: Settings, e: Event): State {
    match e
    case Enqueue(q, p) => s.(lists := Pushed(s.lists, q, p))
    case Tick(ms) => s.(clock := s.clock + ms)
    case Release(p) => Released(s, p)
    case Pop => Popped(s)
    case End(done) => Ended(s, cfg, done)
    case Restart => s.(stopped := false)
  }

  function Trace(s: State, cfg: Settings, run: seq<Event>): State {
    if run == [] then s else Step(Trace(s, cfg, run[..|run| - 1]), cfg, run[|run| - 1])
  }

  /** What ZRANGEBYSCORE with a limit of 100 may answer: the earliest due members. */
  ghost predicate IsDueBatch(delayed: map<Payload, int>, now: int, members: seq<Payload>) {
    && Distinct(members) && |members| <= 100
    && (forall p | p in members :: p in delayed && delayed[p] <= now)
    && (forall p | p in delayed && p !in members && delayed[p] <= now ::
          |members| == 100 && forall m | m in members :: delayed[m] <= delayed[p])
  }

  function Releases(members: seq<Payload>): seq<Event> {
    seq(|members|, i requires 0 <= i < |members| => Release(members[i]))
  }

  // ---------------------------------------------------------------------------------------------
  // The worker itself
  // ---------------------------------------------------------------------------------------------

  class Daemon {
    const settings: Settings
    var lists: map<ListName, seq<Payload>>
    var delayed: map<Payload, int>
    var dlq: seq<Payload>
    var running: Option<Running>
    var clock: nat
    var stopped: bool
    ghost var finished: seq<Payload>
    ghost var history: seq<Execution>
    ghost var lost: seq<Payload>

    constructor (settings: Settings, now: nat)
      ensures this.settings == settings && Snapshot() == Empty(now)
    {
      this.settings := settings;
      lists, delayed, dlq, running, clock, stopped := map[], map[], [], None, now, false;
      finished, history, lost := [], [], [];
    }

    ghost function Snapshot(): State
      reads this
    {
      State(lists, delayed, dlq, running, finished, history, clock, lost, stopped)
    }

    method RPush(q: ListName, p: Payload)
      modifies this`lists
      ensures lists == Pushed(old(lists), q, p)
    {
      lists := lists[q := (if q in lists then lists[q] else []) + [p]];
    }

    /** Moves the due members that the range query returned, one by one. */
    method MoveDueDelayedJobs(members: seq<Payload>)
      requires IsDueBatch(delayed, clock, members)
      modifies this
      ensures Snapshot() == Trace(old(Snapshot()), settings, Releases(members))
    {
      ghost var before := Snapshot();
      for i := 0 to |members|
        invariant Snapshot() == Trace(before, settings, Releases(members)[..i])
      {
        assert Releases(members)[..i + 1][..i] == Releases(members)[..i];
        var m := members[i];
        delayed := delayed - {m};
        if m.Garbage? {
          dlq := dlq + [m];
          continue;
        }
        var byKind := if m.Job? then ListForKind(m.kind) else None;
        var queue := if m.Job? && m.home.Some? then m.home.value else if byKind.Some? then byKind.value else RATIONS;
        RPush(queue, m);
      }
      assert Releases(members)[..|members|] == Releases(members);
    }

    /** BRPOP; `None` when it times out or pops what is no job. A `null` ends the process. */
    method PopJob() returns (job: Option<Running>)
      requires running.None? && !stopped
      modifies this
      ensures Snapshot() == Popped(old(Snapshot()))
      ensures job == running
    {
      var i := 0;
      while i < |QUEUES| && ListOf(lists, QUEUES[i]) == []
        invariant 0 <= i <= |QUEUES|
        invariant FirstBusy(lists, QUEUES) == FirstBusy(lists, QUEUES[i..])
      {
        i := i + 1;
      }
      if i == |QUEUES| {
        return None;
      }
      var queue, l := QUEUES[i], ListOf(lists, QUEUES[i]);
      var payload := l[|l| - 1];
      lists := lists[queue := l[..|l| - 1]];
      if payload.Garbage? {
        dlq := dlq + [payload];
        return None;
      }
      if payload.Null? {
        stopped, lost := true, lost + [payload];
        return None;
      }
      running := Some(Running(queue, payload, clock));
      return running;
    }

    /** Settles the running job: finished, delayed for another attempt, or dead. */
    method SettleJob(done: bool)
      requires running.Some? && running.value.payload.Job? && !stopped
      modifies this
      ensures Snapshot() == Ended(old(Snapshot()), settings, done)
    {
      var job, queue := running.value.payload, running.value.list;
      var byKind := ListForKind(job.kind);
      var queueName := if job.home.Some? then job.home.value else if byKind.Some? then byKind.value else queue;
      var failed := !done || job.kind == UNKNOWN;
      history := history + [Execution(job.id, job.attempts, running.value.start, clock, !failed)];
      running := None;
      if failed {
        var attempts := job.attempts + 1;
        if attempts > settings.maxRetries {
          dlq := dlq + [job];
          return;
        }
        var delaySec := Wrap64(settings.baseDelay * Wrap64(Pow2(attempts - 1)));
        delayed := delayed[job.(attempts := attempts, home := Some(queueName)) :=
                           ToDouble(Wrap64(clock + Wrap64(delaySec * 1000)))];
        return;
      }
      finished := finished + [job];
    }

    /** One turn of the endless loop, given what the range query returned, how long the work took and how it ended. */
    method Turn(members: seq<Payload>, elapsed: nat, done: bool)
      requires running.None? && !stopped && IsDueBatch(delayed, clock, members)
      modifies this
      ensures var moved := Trace(old(Snapshot()), settings, Releases(members));
              var popped := Popped(moved);
              Snapshot() == if popped.running.None? then popped
                            else Ended(Step(popped, settings, Tick(elapsed)), settings, done)
    {
      MoveDueDelayedJobs(members);
      ReleasesLeaveTheWorkerIdle(old(Snapshot()), settings, members, |members|);
      assert Releases(members)[..|members|] == Releases(members);
      var job := PopJob();
      if job.Some? {
        PoppedIsAJob(Trace(old(Snapshot()), settings, Releases(members)));
        clock := clock + elapsed;
        SettleJob(done);
      }
    }
  }

  lemma {:induction false} ReleasesLeaveTheWorkerIdle(s: State, cfg: Settings, members: seq<Payload>, n: nat)
    requires n <= |members|
    ensures var v := Trace(s, cfg, Releases(members)[..n]); v.running == s.running && v.stopped == s.stopped
  {
    if n > 0 {
      ReleasesLeaveTheWorkerIdle(s, cfg, members, n - 1);
      assert Releases(members)[..n][..n - 1] == Releases(members)[..n - 1];
    }
  }

  lemma PoppedIsAJob(s: State)
    requires s.running.None? && Popped(s).running.Some?
    ensures Popped(s).running.value.payload.Job? && Popped(s).stopped == s.stopped
  {}
}
