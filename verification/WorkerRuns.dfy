/** Conservation, retry and termination properties of the queue worker, over every run of one worker. */
module WorkerRuns {
  import opened Core
  import opened Worker

  // ---------------------------------------------------------------------------------------------
  // Where a payload is
  // ---------------------------------------------------------------------------------------------

  function Count(l: seq<Payload>, id: int): nat {
    if l == [] then 0 else Count(l[..|l| - 1], id) + (if l[|l| - 1].id == id then 1 else 0)
  }

  function InLists(lists: map<ListName, seq<Payload>>, id: int): nat {
    Count(ListOf(lists, RATIONS), id) + Count(ListOf(lists, PRODUCTION), id) + Count(ListOf(lists, ALERTS), id)
    + Count(ListOf(lists, CLEANUP), id) + Count(ListOf(lists, ELSEWHERE), id)
  }

  ghost function DelayedWith(delayed: map<Payload, int>, id: int): set<Payload> {
    set p | p in delayed && p.id == id
  }

  function IfRunning(r: Option<Running>, id: int): nat {
    if r.Some? && r.value.payload.id == id then 1 else 0
  }

  /** How often a payload is there: in lists, delayed set, execution, finished, dead-letter list, or lost. */
  ghost function Places(s: State, id: int): nat {
    InLists(s.lists, id) + |DelayedWith(s.delayed, id)| + IfRunning(s.running, id)
    + Count(s.finished, id) + Count(s.dlq, id) + Count(s.lost, id)
  }

  lemma CountPush(l: seq<Payload>, p: Payload, id: int)
    ensures Count(l + [p], id) == Count(l, id) + (if p.id == id then 1 else 0)
  {
    assert (l + [p])[..|l|] == l;
  }

  lemma {:induction false} Counted(l: seq<Payload>, p: Payload)
    requires p in l
    ensures Count(l, p.id) >= 1
  {
    if l[|l| - 1] != p {
      assert p in l[..|l| - 1];
      Counted(l[..|l| - 1], p);
    }
  }

  lemma PushedCountsAt(lists: map<ListName, seq<Payload>>, q: ListName, p: Payload, id: int, r: ListName)
    ensures Count(ListOf(Pushed(lists, q, p), r), id) == Count(ListOf(lists, r), id) + (if r == q && p.id == id then 1 else 0)
  {
    CountPush(ListOf(lists, q), p, id);
  }

  lemma PushedCounts(lists: map<ListName, seq<Payload>>, q: ListName, p: Payload, id: int)
    ensures InLists(Pushed(lists, q, p), id) == InLists(lists, id) + (if p.id == id then 1 else 0)
  {
    PushedCountsAt(lists, q, p, id, RATIONS);
    PushedCountsAt(lists, q, p, id, PRODUCTION);
    PushedCountsAt(lists, q, p, id, ALERTS);
    PushedCountsAt(lists, q, p, id, CLEANUP);
    PushedCountsAt(lists, q, p, id, ELSEWHERE);
  }

  lemma DelayedLoses(delayed: map<Payload, int>, p: Payload, id: int)
    requires p in delayed
    ensures |DelayedWith(delayed - {p}, id)| == |DelayedWith(delayed, id)| - (if p.id == id then 1 else 0)
  {
    assert DelayedWith(delayed - {p}, id) == DelayedWith(delayed, id) - {p};
  }

  lemma DelayedGains(delayed: map<Payload, int>, p: Payload, due: int, id: int)
    ensures |DelayedWith(delayed[p := due], id)| == |DelayedWith(delayed, id)| + (if p.id == id && p !in delayed then 1 else 0)
  {
    assert DelayedWith(delayed[p := due], id) == DelayedWith(delayed, id) + (if p.id == id then {p} else {});
  }

  // ---------------------------------------------------------------------------------------------
  // Conservation
  // ---------------------------------------------------------------------------------------------

  /** When an event can happen: the worker does one thing at a time, and nothing while its process is stopped. */
  ghost predicate Enabled(s: State, e: Event) {
    match e
    case Enqueue(q, p) => true
    case Tick(ms) => true
    case Restart => true
    case Release(p) => s.running.None? && !s.stopped && p in s.delayed && s.delayed[p] <= s.clock
    case Pop => s.running.None? && !s.stopped && FirstBusy(s.lists, QUEUES).Some?
    case End(done) => s.running.Some? && !s.stopped && s.running.value.payload.Job?
  }

  ghost predicate Possible(s: State, cfg: Settings, run: seq<Event>) {
    run == [] || (Possible(s, cfg, run[..|run| - 1]) && Enabled(Trace(s, cfg, run[..|run| - 1]), run[|run| - 1]))
  }

  /** What is enqueued is not there yet, and has not been tried. */
  ghost predicate Fresh(s: State, e: Event) {
    e.Enqueue? ==> Places(s, e.payload.id) == 0 && (e.payload.Job? ==> e.payload.attempts == 0)
  }

  /** A possible run whose enqueued payloads are pairwise different. */
  ghost predicate Distinctly(s: State, cfg: Settings, run: seq<Event>) {
    run == [] ||
    var front, e := run[..|run| - 1], run[|run| - 1];
    Distinctly(s, cfg, front) && Enabled(Trace(s, cfg, front), e) && Fresh(Trace(s, cfg, front), e)
  }

  lemma {:induction false} DistinctlyIsPossible(s: State, cfg: Settings, run: seq<Event>)
    requires Distinctly(s, cfg, run)
    ensures Possible(s, cfg, run)
  {
    if run != [] { DistinctlyIsPossible(s, cfg, run[..|run| - 1]); }
  }

  /** Nothing is in two places. */
  ghost predicate Single(s: State) {
    forall id: int :: Places(s, id) <= 1
  }

  lemma FirstBusyIsBusy(lists: map<ListName, seq<Payload>>, order: seq<ListName>)
    ensures FirstBusy(lists, order).Some? ==> FirstBusy(lists, order).value in order && ListOf(lists, FirstBusy(lists, order).value) != []
    ensures FirstBusy(lists, order).None? ==> forall q | q in order :: ListOf(lists, q) == []
  {
    if order != [] { FirstBusyIsBusy(lists, order[1..]); }
  }

  function Arrives(e: Event, id: int): nat {
    if e.Enqueue? && e.payload.id == id then 1 else 0
  }

  lemma ReleaseConserves(s: State, p: Payload, id: int)
    requires p in s.delayed
    ensures Places(Released(s, p), id) == Places(s, id)
  {
    DelayedLoses(s.delayed, p, id);
    if p.Garbage? { CountPush(s.dlq, p, id); } else { PushedCounts(s.lists, HomeOf(p, RATIONS), p, id); }
  }

  lemma PoppedCounts(lists: map<ListName, seq<Payload>>, q: ListName, id: int)
    requires ListOf(lists, q) != []
    ensures var l := ListOf(lists, q);
            InLists(lists, id) == InLists(lists[q := l[..|l| - 1]], id) + (if l[|l| - 1].id == id then 1 else 0)
  {
    match q { case RATIONS => case PRODUCTION => case ALERTS => case CLEANUP => case ELSEWHERE => }
  }

  lemma PopConserves(s: State, id: int)
    requires s.running.None?
    ensures Places(Popped(s), id) == Places(s, id)
  {
    var q := FirstBusy(s.lists, QUEUES);
    if q.Some? && ListOf(s.lists, q.value) != [] {
      var l := ListOf(s.lists, q.value);
      PoppedCounts(s.lists, q.value, id);
      CountPush(s.dlq, l[|l| - 1], id);
      CountPush(s.lost, l[|l| - 1], id);
    }
  }

  lemma DelayedCounted(delayed: map<Payload, int>, p: Payload)
    requires p in delayed
    ensures |DelayedWith(delayed, p.id)| >= 1
  {
    assert p in DelayedWith(delayed, p.id);
  }

  /** A running payload is nowhere else, so its next form is not in the delayed set yet. */
  lemma RunningIsNotDelayed(s: State, p: Payload)
    requires s.running.Some? && Places(s, s.running.value.payload.id) <= 1 && p.id == s.running.value.payload.id
    ensures p !in s.delayed
  {
    if p in s.delayed { DelayedCounted(s.delayed, p); }
  }

  /** The running job is about to be delayed for another attempt. */
  predicate Retried(s: State, cfg: Settings, done: bool)
    requires s.running.Some?
  {
    var p := s.running.value.payload;
    p.Job? && !(done && p.kind != UNKNOWN) && p.attempts + 1 <= cfg.maxRetries
  }

  /** A retry lands on a member of the delayed set that is there already: two jobs become one. */
  predicate MergesAt(s: State, cfg: Settings, e: Event, id: int) {
    && e.End? && s.running.Some? && s.running.value.payload.id == id
    && Retried(s, cfg, e.done) && Again(s.running.value) in s.delayed
  }

  lemma RetryConserves(s: State, cfg: Settings, done: bool, id: int)
    requires s.running.Some? && Retried(s, cfg, done)
    ensures Places(Ended(s, cfg, done), id) + (if MergesAt(s, cfg, End(done), id) then 1 else 0) == Places(s, id)
  {
    var p := s.running.value.payload;
    DelayedGains(s.delayed, Again(s.running.value), Due(s.clock, cfg.baseDelay, p.attempts + 1), id);
  }

  lemma SettledConserves(s: State, cfg: Settings, done: bool, id: int)
    requires s.running.Some? && s.running.value.payload.Job? && !Retried(s, cfg, done)
    ensures Places(Ended(s, cfg, done), id) == Places(s, id)
  {
    if done && s.running.value.payload.kind != UNKNOWN {
      CountPush(s.finished, s.running.value.payload, id);
    } else {
      CountPush(s.dlq, s.running.value.payload, id);
    }
  }

  lemma EndConserves(s: State, cfg: Settings, done: bool, id: int)
    requires s.running.Some? && s.running.value.payload.Job?
    ensures Places(Ended(s, cfg, done), id) + (if MergesAt(s, cfg, End(done), id) then 1 else 0) == Places(s, id)
  {
    if Retried(s, cfg, done) {
      RetryConserves(s, cfg, done, id);
    } else {
      SettledConserves(s, cfg, done, id);
    }
  }

  lemma StepConserves(s: State, cfg: Settings, e: Event, id: int)
    requires Enabled(s, e)
    ensures Places(Step(s, cfg, e), id) + (if MergesAt(s, cfg, e, id) then 1 else 0) == Places(s, id) + Arrives(e, id)
  {
    match e {
      case Enqueue(q, p) => PushedCounts(s.lists, q, p, id);
      case Tick(ms) =>
      case Restart =>
      case Release(p) => ReleaseConserves(s, p, id);
      case Pop => PopConserves(s, id);
      case End(done) => EndConserves(s, cfg, done, id);
    }
  }

  lemma SingleNeverMerges(s: State, cfg: Settings, e: Event, id: int)
    requires Single(s)
    ensures !MergesAt(s, cfg, e, id)
  {
    if MergesAt(s, cfg, e, id) {
      assert Places(s, id) <= 1;
      RunningIsNotDelayed(s, Again(s.running.value));
    }
  }

  lemma StepKeepsSingle(s: State, cfg: Settings, e: Event)
    requires Enabled(s, e) && Fresh(s, e) && Single(s)
    ensures Single(Step(s, cfg, e))
  {
    forall id: int ensures Places(Step(s, cfg, e), id) <= 1 {
      StepConserves(s, cfg, e, id);
      assert Places(s, id) <= 1;
    }
  }

  function Arrivals(run: seq<Event>, id: int): nat {
    if run == [] then 0 else Arrivals(run[..|run| - 1], id) + Arrives(run[|run| - 1], id)
  }

  function Merges(s: State, cfg: Settings, run: seq<Event>, id: int): nat {
    if run == [] then 0
    else
      var front, e := run[..|run| - 1], run[|run| - 1];
      Merges(s, cfg, front, id) + (if MergesAt(Trace(s, cfg, front), cfg, e, id) then 1 else 0)
  }

  /**
    Whatever is enqueued, equal payloads included, it is there as often as it arrived, less one for each retry
    that landed on an equal one in the delayed set: nothing else loses a payload and nothing doubles one.
  */
  lemma {:induction false} JobsAreConserved(s: State, cfg: Settings, run: seq<Event>, id: int)
    requires Possible(s, cfg, run)
    ensures Places(Trace(s, cfg, run), id) + Merges(s, cfg, run, id) == Places(s, id) + Arrivals(run, id)
  {
    if run != [] {
      var front, e := run[..|run| - 1], run[|run| - 1];
      JobsAreConserved(s, cfg, front, id);
      StepConserves(Trace(s, cfg, front), cfg, e, id);
    }
  }

  /** Different payloads never merge: each is in exactly one place. */
  lemma {:induction false} DistinctJobsAreSingle(s: State, cfg: Settings, run: seq<Event>, id: int)
    requires Distinctly(s, cfg, run) && Single(s)
    ensures Single(Trace(s, cfg, run)) && Merges(s, cfg, run, id) == 0
    ensures Places(Trace(s, cfg, run), id) == Places(s, id) + Arrivals(run, id) <= 1
  {
    if run != [] {
      var front, e := run[..|run| - 1], run[|run| - 1];
      DistinctJobsAreSingle(s, cfg, front, id);
      StepKeepsSingle(Trace(s, cfg, front), cfg, e);
      StepConserves(Trace(s, cfg, front), cfg, e, id);
      SingleNeverMerges(Trace(s, cfg, front), cfg, e, id);
    }
    assert Places(Trace(s, cfg, run), id) <= 1;
  }

  lemma OneStep(s: State, cfg: Settings, run: seq<Event>, n: nat)
    requires n < |run| && Possible(s, cfg, run[..n]) && Enabled(Trace(s, cfg, run[..n]), run[n])
    ensures Trace(s, cfg, run[..n + 1]) == Step(Trace(s, cfg, run[..n]), cfg, run[n]) && Possible(s, cfg, run[..n + 1])
    ensures Arrivals(run[..n + 1], 1) == Arrivals(run[..n], 1) + Arrives(run[n], 1)
  {
    assert run[..n + 1][..n] == run[..n];
  }

  const TWIN := Job(1, DAILY_RATIONS, Some(RATIONS), 0)

  lemma TwinFails(s: State, cfg: Settings, front: seq<Payload>)
    requires cfg.maxRetries >= 1 && s.running.None? && !s.stopped && s.lists == map[RATIONS := front + [TWIN]]
    ensures Enabled(s, Pop) && Enabled(Step(s, cfg, Pop), End(false))
    ensures var v := Step(Step(s, cfg, Pop), cfg, End(false));
            && v.running.None? && v.stopped == s.stopped && v.lists == map[RATIONS := front]
            && v.finished == s.finished && v.dlq == s.dlq && v.lost == s.lost
            && v.delayed.Keys == s.delayed.Keys + {TWIN.(attempts := 1)}
  {
    assert FirstBusy(s.lists, QUEUES) == Some(RATIONS);
    assert (front + [TWIN])[..|front|] == front;
  }

  /** Two equal jobs that fail one after the other leave one retry: the second is lost. */
  lemma EqualJobsMerge(cfg: Settings, now: nat)
    requires cfg.maxRetries >= 1
    ensures var run := [Enqueue(RATIONS, TWIN), Enqueue(RATIONS, TWIN), Pop, End(false), Pop, End(false)];
            Possible(Empty(now), cfg, run) && Arrivals(run, 1) == 2 && Places(Trace(Empty(now), cfg, run), 1) == 1
  {
    hide Step, Possible, Arrivals, Places;
    var s, run := Empty(now), [Enqueue(RATIONS, TWIN), Enqueue(RATIONS, TWIN), Pop, End(false), Pop, End(false)];
    assert run[..6] == run;
    TwinsWait(s, cfg, run);
    TwinTurn(s, cfg, run, 2, [TWIN]);
    assert [TWIN] == [] + [TWIN];
    TwinTurn(s, cfg, run, 4, []);
    OneRetryLeft(Trace(s, cfg, run));
  }

  lemma TwinTurn(s: State, cfg: Settings, run: seq<Event>, n: nat, front: seq<Payload>)
    requires n + 2 <= |run| && run[n] == Pop && run[n + 1] == End(false) && Possible(s, cfg, run[..n])
    requires var b := Trace(s, cfg, run[..n]);
             cfg.maxRetries >= 1 && b.running.None? && !b.stopped && b.lists == map[RATIONS := front + [TWIN]]
    ensures Possible(s, cfg, run[..n + 2]) && Arrivals(run[..n + 2], 1) == Arrivals(run[..n], 1)
    ensures var b, v := Trace(s, cfg, run[..n]), Trace(s, cfg, run[..n + 2]);
            && v.running.None? && v.stopped == b.stopped && v.lists == map[RATIONS := front]
            && v.finished == b.finished && v.dlq == b.dlq && v.lost == b.lost
            && v.delayed.Keys == b.delayed.Keys + {TWIN.(attempts := 1)}
  {
    hide Step, Possible, Arrivals;
    TwinFails(Trace(s, cfg, run[..n]), cfg, front);
    OneStep(s, cfg, run, n);
    OneStep(s, cfg, run, n + 1);
  }

  lemma TwinsWait(s: State, cfg: Settings, run: seq<Event>)
    requires |run| >= 2 && run[0] == run[1] == Enqueue(RATIONS, TWIN) && s.lists == map[]
    ensures Possible(s, cfg, run[..2]) && Arrivals(run[..2], 1) == 2
    ensures Trace(s, cfg, run[..2]) == s.(lists := map[RATIONS := [TWIN] + [TWIN]])
  {
    assert run[..0] == [] && [] + [TWIN] == [TWIN];
    assert Possible(s, cfg, []) && Trace(s, cfg, []) == s && Arrivals([], 1) == 0;
    OneStep(s, cfg, run, 0);
    assert Trace(s, cfg, run[..1]).lists == map[RATIONS := [TWIN]];
    OneStep(s, cfg, run, 1);
    assert Trace(s, cfg, run[..2]).lists == map[RATIONS := [TWIN] + [TWIN]];
  }

  lemma OneRetryLeft(s: State)
    requires s.running.None? && s.lists == map[RATIONS := []] && s.finished == s.dlq == s.lost == []
    requires s.delayed.Keys == {TWIN.(attempts := 1)}
    ensures Places(s, 1) == 1
  {
    assert DelayedWith(s.delayed, 1) == {TWIN.(attempts := 1)};
  }

  // ---------------------------------------------------------------------------------------------
  // Attempts and delays
  // ---------------------------------------------------------------------------------------------

  /** A negative MAX_RETRIES behaves as zero. */
  function Retries(cfg: Settings): nat {
    if cfg.maxRetries < 0 then 0 else cfg.maxRetries
  }

  function Runs(h: seq<Execution>, id: int): nat {
    if h == [] then 0 else Runs(h[..|h| - 1], id) + (if h[|h| - 1].id == id then 1 else 0)
  }

  function Failures(h: seq<Execution>, id: int): nat {
    if h == [] then 0 else Failures(h[..|h| - 1], id) + (if h[|h| - 1].id == id && !h[|h| - 1].ok then 1 else 0)
  }

  /** When the latest execution of a job ended. */
  function LastEnd(h: seq<Execution>, id: int): nat {
    if h == [] then 0 else if h[|h| - 1].id == id then h[|h| - 1].end else LastEnd(h[..|h| - 1], id)
  }

  function FirstEnd(h: seq<Execution>, id: int): nat {
    if h == [] then 0
    else if h[|h| - 1].id == id && Runs(h[..|h| - 1], id) == 0 then h[|h| - 1].end
    else FirstEnd(h[..|h| - 1], id)
  }

  predicate EndedBy(h: seq<Execution>, t: int) {
    forall x | x in h :: x.end <= t
  }

  /**
    Executions never overlap; each carries the number of those before it, at most the retry limit, and waits
    until it is due.
  */
  predicate WellPaced(h: seq<Execution>, cfg: Settings) {
    h == [] ||
    var front, x := h[..|h| - 1], h[|h| - 1];
    && WellPaced(front, cfg)
    && EndedBy(front, x.start) && x.start <= x.end
    && x.attempt == Runs(front, x.id) <= Retries(cfg)
    && (x.attempt > 0 ==> x.start >= Due(LastEnd(front, x.id), cfg.baseDelay, x.attempt))
  }

  /** A payload not yet settled: its number is how often it ran and failed, and it is not due before `ready`. */
  predicate Unsettled(h: seq<Execution>, cfg: Settings, p: Payload, ready: int) {
    if !p.Job? then Runs(h, p.id) == 0
    else
      && p.attempts == Runs(h, p.id) == Failures(h, p.id) <= Retries(cfg)
      && (p.attempts > 0 ==> ready >= Due(LastEnd(h, p.id), cfg.baseDelay, p.attempts))
  }

  predicate Dead(h: seq<Execution>, cfg: Settings, p: Payload) {
    if !p.Job? then Runs(h, p.id) == 0 else Runs(h, p.id) == Failures(h, p.id) == Retries(cfg) + 1
  }

  predicate Succeeded(h: seq<Execution>, cfg: Settings, p: Payload) {
    p.Job? && Runs(h, p.id) == Failures(h, p.id) + 1 <= Retries(cfg) + 1
  }

  predicate Queued(lists: map<ListName, seq<Payload>>, q: ListName, p: Payload) {
    p in ListOf(lists, q)
  }

  ghost predicate ListsFair(lists: map<ListName, seq<Payload>>, h: seq<Execution>, cfg: Settings, clock: int) {
    forall q, p | Queued(lists, q, p) :: Unsettled(h, cfg, p, clock)
  }

  ghost predicate DelayedFair(delayed: map<Payload, int>, h: seq<Execution>, cfg: Settings) {
    forall p | p in delayed :: Unsettled(h, cfg, p, delayed[p])
  }

  predicate RunningFair(r: Option<Running>, h: seq<Execution>, cfg: Settings, clock: int) {
    r.Some? ==> EndedBy(h, r.value.start) && r.value.start <= clock && Unsettled(h, cfg, r.value.payload, r.value.start)
  }

  predicate AllDead(dlq: seq<Payload>, h: seq<Execution>, cfg: Settings) {
    forall p | p in dlq :: Dead(h, cfg, p)
  }

  predicate AllSucceeded(finished: seq<Payload>, h: seq<Execution>, cfg: Settings) {
    forall p | p in finished :: Succeeded(h, cfg, p)
  }

  ghost predicate Fair(s: State, cfg: Settings) {
    && WellPaced(s.history, cfg) && EndedBy(s.history, s.clock)
    && (forall p | p in s.lost :: p.Null?)
    && ListsFair(s.lists, s.history, cfg, s.clock)
    && DelayedFair(s.delayed, s.history, cfg)
    && RunningFair(s.running, s.history, cfg, s.clock)
    && AllDead(s.dlq, s.history, cfg)
    && AllSucceeded(s.finished, s.history, cfg)
  }

  /** What was never enqueued never ran. */
  ghost predicate NothingElseRan(s: State) {
    forall id: int | Places(s, id) == 0 :: Runs(s.history, id) == 0 && Failures(s.history, id) == 0
  }

  /** Another job's execution changes nothing about this one. */
  lemma OthersExecution(h: seq<Execution>, x: Execution, id: int)
    ensures Runs(h + [x], id) == Runs(h, id) + (if x.id == id then 1 else 0)
    ensures Failures(h + [x], id) == Failures(h, id) + (if x.id == id && !x.ok then 1 else 0)
    ensures LastEnd(h + [x], id) == if x.id == id then x.end else LastEnd(h, id)
  {
    assert (h + [x])[..|h|] == h;
  }

  lemma InListsSomewhere(s: State, q: ListName, p: Payload)
    requires p in ListOf(s.lists, q)
    ensures InLists(s.lists, p.id) >= 1
  {
    Counted(ListOf(s.lists, q), p);
  }

  /** What is in a list, delayed, finished or dead is not running. */
  lemma NotTheRunningOne(s: State, p: Payload, id: int)
    requires Single(s) && s.running.Some? && s.running.value.payload.id == id
    requires (exists q :: Queued(s.lists, q, p)) || p in s.delayed || p in s.dlq || p in s.finished
    ensures p.id != id
  {
    if p.id == id {
      assert Places(s, id) <= 1;
      if p in s.delayed { assert p in DelayedWith(s.delayed, id); }
      if p in s.dlq { Counted(s.dlq, p); }
      if p in s.finished { Counted(s.finished, p); }
      if q :| Queued(s.lists, q, p) { InListsSomewhere(s, q, p); }
    }
  }

  lemma OthersKeepTheirNumbers(s: State, cfg: Settings, x: Execution)
    requires Single(s) && Fair(s, cfg) && s.running.Some? && x.id == s.running.value.payload.id
    ensures var h := s.history + [x];
            && ListsFair(s.lists, h, cfg, s.clock) && DelayedFair(s.delayed, h, cfg)
            && AllDead(s.dlq, h, cfg) && AllSucceeded(s.finished, h, cfg)
  {
    var h := s.history + [x];
    forall q, p | Queued(s.lists, q, p) ensures Unsettled(h, cfg, p, s.clock) {
      NotTheRunningOne(s, p, x.id);
      OthersExecution(s.history, x, p.id);
    }
    forall p | p in s.delayed ensures Unsettled(h, cfg, p, s.delayed[p]) {
      NotTheRunningOne(s, p, x.id);
      OthersExecution(s.history, x, p.id);
    }
    forall p | p in s.dlq ensures Dead(h, cfg, p) {
      NotTheRunningOne(s, p, x.id);
      OthersExecution(s.history, x, p.id);
    }
    forall p | p in s.finished ensures Succeeded(h, cfg, p) {
      NotTheRunningOne(s, p, x.id);
      OthersExecution(s.history, x, p.id);
    }
  }

  lemma StepKeepsOthersUnrun(s: State, cfg: Settings, e: Event)
    requires Enabled(s, e) && Single(s) && NothingElseRan(s)
    ensures NothingElseRan(Step(s, cfg, e))
  {
    var v := Step(s, cfg, e);
    forall id: int | Places(v, id) == 0 ensures Runs(v.history, id) == 0 && Failures(v.history, id) == 0 {
      StepConserves(s, cfg, e, id);
      SingleNeverMerges(s, cfg, e, id);
      HistoryStep(s, cfg, e, id);
    }
  }

  lemma RunningIsSomewhere(s: State, id: int)
    requires s.running.Some? && s.running.value.payload.id == id
    ensures Places(s, id) >= 1
  {}

  lemma HistoryStep(s: State, cfg: Settings, e: Event, id: int)
    requires Enabled(s, e)
    ensures Places(s, id) == 0 ==>
              Runs(Step(s, cfg, e).history, id) == Runs(s.history, id) && Failures(Step(s, cfg, e).history, id) == Failures(s.history, id)
  {
    hide Places, Runs, Failures, LastEnd, HomeOf, Due, FirstBusy, Again;
    if e.End? {
      if s.running.value.payload.id == id { RunningIsSomewhere(s, id); }
      OthersExecution(s.history, Ended(s, cfg, e.done).history[|s.history|], id);
    }
  }

  /** The running job's numbers once its execution is written down. */
  lemma RanOnceMore(s: State, cfg: Settings, x: Execution)
    requires Fair(s, cfg) && s.running.Some? && s.running.value.payload.Job?
    requires x == Execution(s.running.value.payload.id, s.running.value.payload.attempts, s.running.value.start, s.clock, x.ok)
    ensures var p, h := s.running.value.payload, s.history + [x];
            && WellPaced(h, cfg) && LastEnd(h, p.id) == s.clock
            && Runs(h, p.id) == p.attempts + 1 <= Retries(cfg) + 1
            && Failures(h, p.id) == p.attempts + (if x.ok then 0 else 1)
  {
    OthersExecution(s.history, x, x.id);
    assert (s.history + [x])[..|s.history|] == s.history;
  }

  lemma RetryKeepsFair(s: State, cfg: Settings, done: bool)
    requires Enabled(s, End(done)) && Single(s) && Fair(s, cfg) && Retried(s, cfg, done)
    ensures Fair(Ended(s, cfg, done), cfg)
  {
    hide Single, Runs, Failures, LastEnd, WellPaced, Due;
    var p, v := s.running.value.payload, Ended(s, cfg, done);
    var x := v.history[|s.history|];
    OthersKeepTheirNumbers(s, cfg, x);
    RanOnceMore(s, cfg, x);
    var again := Again(s.running.value);
    assert Unsettled(v.history, cfg, again, v.delayed[again]);
    assert DelayedFair(v.delayed, v.history, cfg);
  }

  lemma OneMoreDead(dlq: seq<Payload>, p: Payload, h: seq<Execution>, cfg: Settings)
    requires AllDead(dlq, h, cfg) && Dead(h, cfg, p)
    ensures AllDead(dlq + [p], h, cfg)
  {}

  lemma OneMoreSucceeded(finished: seq<Payload>, p: Payload, h: seq<Execution>, cfg: Settings)
    requires AllSucceeded(finished, h, cfg) && Succeeded(h, cfg, p)
    ensures AllSucceeded(finished + [p], h, cfg)
  {}

  lemma SettledKeepsFair(s: State, cfg: Settings, done: bool)
    requires Enabled(s, End(done)) && Single(s) && Fair(s, cfg) && !Retried(s, cfg, done)
    ensures Fair(Ended(s, cfg, done), cfg)
  {
    var p, v := s.running.value.payload, Ended(s, cfg, done);
    var x := v.history[|s.history|];
    OthersKeepTheirNumbers(s, cfg, x);
    RanOnceMore(s, cfg, x);
    if done && p.kind != UNKNOWN {
      OneMoreSucceeded(s.finished, p, v.history, cfg);
    } else {
      OneMoreDead(s.dlq, p, v.history, cfg);
    }
  }

  lemma EndKeepsFair(s: State, cfg: Settings, done: bool)
    requires Enabled(s, End(done)) && Single(s) && Fair(s, cfg)
    ensures Fair(Ended(s, cfg, done), cfg)
  {
    if Retried(s, cfg, done) { RetryKeepsFair(s, cfg, done); } else { SettledKeepsFair(s, cfg, done); }
  }

  lemma ReleaseKeepsFair(s: State, cfg: Settings, p: Payload)
    requires Enabled(s, Release(p)) && Fair(s, cfg)
    ensures Fair(Released(s, p), cfg)
  {
    var v := Released(s, p);
    assert Unsettled(s.history, cfg, p, s.delayed[p]);
    forall q, o | Queued(v.lists, q, o) ensures Unsettled(v.history, cfg, o, v.clock) {
      assert o == p || Queued(s.lists, q, o);
    }
  }

  lemma PopKeepsFair(s: State, cfg: Settings)
    requires Enabled(s, Pop) && Fair(s, cfg)
    ensures Fair(Popped(s), cfg)
  {
    hide WellPaced, Runs, Failures, LastEnd, EndedBy, FirstBusy;
    FirstBusyIsBusy(s.lists, QUEUES);
    var q := FirstBusy(s.lists, QUEUES).value;
    var l := ListOf(s.lists, q);
    assert Queued(s.lists, q, l[|l| - 1]);
    PopLeavesTheRest(s);
  }

  lemma PopLeavesTheRest(s: State)
    ensures forall t, o | Queued(Popped(s).lists, t, o) :: Queued(s.lists, t, o)
  {
    var q := FirstBusy(s.lists, QUEUES);
    if q.Some? && ListOf(s.lists, q.value) != [] {
      var l := ListOf(s.lists, q.value);
      forall t, o | Queued(Popped(s).lists, t, o) ensures Queued(s.lists, t, o) {
        if t == q.value { assert o in l[..|l| - 1]; }
      }
    }
  }

  lemma EnqueueKeepsFair(s: State, cfg: Settings, q: ListName, p: Payload)
    requires Fresh(s, Enqueue(q, p)) && NothingElseRan(s) && Fair(s, cfg)
    ensures Fair(Step(s, cfg, Enqueue(q, p)), cfg)
  {
    var v := Step(s, cfg, Enqueue(q, p));
    forall t, o | Queued(v.lists, t, o) ensures Unsettled(v.history, cfg, o, v.clock) {
      assert o == p || Queued(s.lists, t, o);
    }
  }

  lemma TickKeepsFair(s: State, cfg: Settings, ms: nat)
    requires Fair(s, cfg)
    ensures Fair(Step(s, cfg, Tick(ms)), cfg)
  {
    var v := Step(s, cfg, Tick(ms));
    forall q, o | Queued(v.lists, q, o) ensures Unsettled(v.history, cfg, o, v.clock) {
      assert Queued(s.lists, q, o);
    }
  }

  lemma StepKeepsFair(s: State, cfg: Settings, e: Event)
    requires Enabled(s, e) && Fresh(s, e) && Single(s) && NothingElseRan(s) && Fair(s, cfg)
    ensures Fair(Step(s, cfg, e), cfg)
  {
    match e {
      case Enqueue(q, p) => EnqueueKeepsFair(s, cfg, q, p);
      case Tick(ms) => TickKeepsFair(s, cfg, ms);
      case Restart =>
      case Release(p) => ReleaseKeepsFair(s, cfg, p);
      case Pop => PopKeepsFair(s, cfg);
      case End(done) => EndKeepsFair(s, cfg, done);
    }
  }

  /**
    Over any run of one worker on pairwise different payloads: every job waiting or delayed has failed exactly
    as often as its number says; a job in the dead-letter list failed exactly maxRetries + 1 times; a finished
    one ran once more than it failed; executions never overlap; no retry started before it was due; and only
    `null` was ever lost.
  */
  lemma {:induction false} JobsRunAsOftenAsAllowed(s: State, cfg: Settings, run: seq<Event>)
    requires Distinctly(s, cfg, run) && Single(s) && NothingElseRan(s) && Fair(s, cfg)
    ensures Single(Trace(s, cfg, run)) && NothingElseRan(Trace(s, cfg, run)) && Fair(Trace(s, cfg, run), cfg)
  {
    if run != [] {
      var front, e := run[..|run| - 1], run[|run| - 1];
      JobsRunAsOftenAsAllowed(s, cfg, front);
      StepKeepsSingle(Trace(s, cfg, front), cfg, e);
      StepKeepsOthersUnrun(Trace(s, cfg, front), cfg, e);
      StepKeepsFair(Trace(s, cfg, front), cfg, e);
    }
  }

  /** No job is executed more than maxRetries + 1 times. */
  lemma {:induction false} ExecutionsAreBounded(h: seq<Execution>, cfg: Settings, id: int)
    requires WellPaced(h, cfg)
    ensures Runs(h, id) <= Retries(cfg) + 1
  {
    if h != [] && h[|h| - 1].id != id { ExecutionsAreBounded(h[..|h| - 1], cfg, id); }
  }

  // ---------------------------------------------------------------------------------------------
  // Backoff
  // ---------------------------------------------------------------------------------------------

  function DelaySum(baseDelay: int, n: nat): int {
    if n == 0 then 0 else DelaySum(baseDelay, n - 1) + DelayMs(baseDelay, n)
  }

  lemma Wrap64Exact(x: int)
    ensures Wrap64(x) == x <==> -INT64 <= x < INT64
  {}

  lemma {:induction false} Pow2Grows(a: nat, b: nat)
    requires a <= b
    ensures Pow2(a) <= Pow2(b)
  {
    if a < b { Pow2Grows(a, b - 1); }
  }

  lemma DelayExact(baseDelay: nat, n: nat)
    requires n >= 1 && baseDelay * Pow2(n - 1) * 1000 < INT64
    ensures DelayMs(baseDelay, n) == baseDelay * Pow2(n - 1) * 1000
  {
    var p := Pow2(n - 1);
    if baseDelay > 0 {
      assert p <= baseDelay * p;
      Wrap64Exact(p);
      Wrap64Exact(baseDelay * p);
      Wrap64Exact(baseDelay * p * 1000);
    } else {
      assert baseDelay * Wrap64(p) == 0;
    }
  }

  /** While no delay overflows, the delays of all retries sum to baseDelay * (2^n - 1) seconds. */
  lemma {:induction false} DelaySumClosed(baseDelay: nat, n: nat)
    requires n >= 1 ==> baseDelay * Pow2(n - 1) * 1000 < INT64
    ensures DelaySum(baseDelay, n) == baseDelay * (Pow2(n) - 1) * 1000
  {
    if n > 0 {
      if n > 1 { HalfFits(baseDelay, Pow2(n - 2)); }
      DelaySumClosed(baseDelay, n - 1);
      DelayExact(baseDelay, n);
      SumDoubles(baseDelay, Pow2(n - 1));
    }
  }

  lemma HalfFits(b: nat, p: nat)
    ensures b * p * 1000 <= b * (2 * p) * 1000
  {
    assert b * (2 * p) == 2 * (b * p);
  }

  lemma SumDoubles(b: nat, p: int)
    ensures b * (p - 1) * 1000 + b * p * 1000 == b * (2 * p - 1) * 1000
  {
    assert b * (2 * p - 1) == b * (p - 1) + b * p;
  }

  // ---------------------------------------------------------------------------------------------
  // When a retry is due
  // ---------------------------------------------------------------------------------------------

  lemma Wrap64Congruent(x: int) returns (k: int)
    ensures Wrap64(x) == x - 2 * INT64 * k && -INT64 <= Wrap64(x) < INT64
  {
    k := (x + INT64) / (2 * INT64);
  }

  /** A delay is computed right if and only if that many milliseconds fit a 64-bit integer. */
  lemma DelayExactIff(baseDelay: nat, n: nat)
    requires n >= 1
    ensures DelayMs(baseDelay, n) == baseDelay * Pow2(n - 1) * 1000 <==> baseDelay * Pow2(n - 1) * 1000 < INT64
  {
    if baseDelay * Pow2(n - 1) * 1000 < INT64 {
      DelayExact(baseDelay, n);
    } else {
      var k := Wrap64Congruent(Wrap64(baseDelay * Wrap64(Pow2(n - 1))) * 1000);
    }
  }

  lemma DelayCongruent(baseDelay: int, n: nat) returns (k: int)
    requires n >= 1
    ensures DelayMs(baseDelay, n) == baseDelay * Pow2(n - 1) * 1000 - 2 * INT64 * k
  {
    var p := Pow2(n - 1);
    var i := Wrap64Congruent(p);
    var j := Wrap64Congruent(baseDelay * Wrap64(p));
    var l := Wrap64Congruent(Wrap64(baseDelay * Wrap64(p)) * 1000);
    assert baseDelay * Wrap64(p) == baseDelay * p - 2 * INT64 * (baseDelay * i);
    k := (baseDelay * i + j) * 1000 + l;
  }

  lemma {:induction false} UlpBelow(x: nat)
    ensures Ulp(x) <= x || Ulp(x) == 1
  {
    if x >= DOUBLE_EXACT { UlpBelow(x / 2); }
  }

  lemma {:induction false} UlpAtMost(x: nat, k: nat)
    requires x < DOUBLE_EXACT * Pow2(k)
    ensures Ulp(x) <= Pow2(k)
  {
    Pow2Grows(0, k);
    if x >= DOUBLE_EXACT { UlpAtMost(x / 2, k - 1); }
  }

  lemma RoundedClose(x: nat)
    ensures 2 * (x - RoundedNat(x)) <= Ulp(x) && 2 * (RoundedNat(x) - x) <= Ulp(x)
    ensures RoundedNat(x) == x <==> x % Ulp(x) == 0
  {
    var u := Ulp(x);
    var q, r := x / u, x % u;
    assert x == q * u + r;
    assert (q + 1) * u == q * u + u;
  }

  lemma DoubleClose(x: int)
    requires -INT64 <= x < INT64
    ensures -INT64 <= 2 * (ToDouble(x) - x) <= INT64
  {
    var n := if x >= 0 then x else -x;
    UlpBelow(n);
    RoundedClose(n);
  }

  /** The due time, as it should be. */
  function OnTime(clock: nat, baseDelay: nat, n: nat): nat
    requires n >= 1
  {
    clock + baseDelay * Pow2(n - 1) * 1000
  }

  lemma DueInRange(clock: nat, baseDelay: nat, n: nat)
    requires n >= 1 && OnTime(clock, baseDelay, n) < INT64
    ensures DelayMs(baseDelay, n) == baseDelay * Pow2(n - 1) * 1000
    ensures Due(clock, baseDelay, n) == RoundedNat(OnTime(clock, baseDelay, n))
  {
    DelayExact(baseDelay, n);
    Wrap64Exact(OnTime(clock, baseDelay, n));
  }

  lemma DueOutOfRange(clock: nat, baseDelay: nat, n: nat)
    requires n >= 1 && OnTime(clock, baseDelay, n) >= INT64
    ensures Due(clock, baseDelay, n) < OnTime(clock, baseDelay, n) - INT64
  {
    var k := DelayCongruent(baseDelay, n);
    var j := Wrap64Congruent(clock + DelayMs(baseDelay, n));
    var x := Wrap64(clock + DelayMs(baseDelay, n));
    assert x == OnTime(clock, baseDelay, n) - 2 * INT64 * (k + j);
    assert k + j >= 1;
    DoubleClose(x);
  }

  /** A retry is due within half a second of its delay if and only if the sum with the clock is below 2^63. */
  lemma DueOnTimeIff(clock: nat, baseDelay: nat, n: nat)
    requires n >= 1
    ensures var sum := OnTime(clock, baseDelay, n);
            -512 <= Due(clock, baseDelay, n) - sum <= 512 <==> sum < INT64
  {
    var sum := OnTime(clock, baseDelay, n);
    if sum < INT64 {
      DueInRange(clock, baseDelay, n);
      assert Pow2(10) == 1024;
      UlpAtMost(sum, 10);
      RoundedClose(sum);
    } else {
      DueOutOfRange(clock, baseDelay, n);
    }
  }

  /** It is due exactly then if and only if, besides, that sum is a double: a multiple of the spacing there. */
  lemma DueExactIff(clock: nat, baseDelay: nat, n: nat)
    requires n >= 1
    ensures var sum := OnTime(clock, baseDelay, n);
            Due(clock, baseDelay, n) == sum <==> sum < INT64 && sum % Ulp(sum) == 0
  {
    var sum := OnTime(clock, baseDelay, n);
    if sum < INT64 {
      DueInRange(clock, baseDelay, n);
      RoundedClose(sum);
    } else {
      DueOutOfRange(clock, baseDelay, n);
    }
  }

  /** How early a retry may be at most when no due time exceeds `limit`. */
  function Slack(limit: nat): nat {
    if limit <= DOUBLE_EXACT then 0 else 512
  }

  lemma NeverEarly(clock: nat, baseDelay: nat, n: nat, limit: nat)
    requires n >= 1 && OnTime(clock, baseDelay, n) <= limit < INT64
    ensures Due(clock, baseDelay, n) >= clock + DelayMs(baseDelay, n) - Slack(limit)
  {
    DueInRange(clock, baseDelay, n);
    DueOnTimeIff(clock, baseDelay, n);
    if limit <= DOUBLE_EXACT { DueExactIff(clock, baseDelay, n); }
  }

  lemma {:induction false} LastEndBy(h: seq<Execution>, id: int, t: nat)
    requires EndedBy(h, t)
    ensures LastEnd(h, id) <= t
  {
    if h != [] && h[|h| - 1].id != id {
      assert forall x | x in h[..|h| - 1] :: x in h;
      LastEndBy(h[..|h| - 1], id, t);
    }
  }

  /** Between the first and the latest execution of a job lie all the delays of its retries. */
  lemma {:induction false} DelaysAddUp(h: seq<Execution>, cfg: Settings, id: int, now: nat, limit: nat)
    requires WellPaced(h, cfg) && EndedBy(h, now) && cfg.baseDelay >= 0 && Runs(h, id) >= 1
    requires Runs(h, id) >= 2 ==> OnTime(now, cfg.baseDelay, Runs(h, id) - 1) <= limit < INT64
    ensures LastEnd(h, id) >= FirstEnd(h, id) + DelaySum(cfg.baseDelay, Runs(h, id) - 1) - (Runs(h, id) - 1) * Slack(limit)
  {
    hide DelayMs, Slack, Due;
    var front, x, k := h[..|h| - 1], h[|h| - 1], Runs(h, id);
    assert EndedBy(front, now) by { assert forall y | y in front :: y in h; }
    if x.id != id {
      DelaysAddUp(front, cfg, id, now, limit);
    } else if k >= 2 {
      if k >= 3 { HalfFits(cfg.baseDelay, Pow2(k - 3)); }
      DelaysAddUp(front, cfg, id, now, limit);
      LastEndBy(front, id, now);
      NeverEarly(LastEnd(front, id), cfg.baseDelay, k - 1, limit);
      OneMoreDelay(FirstEnd(front, id), LastEnd(front, id), x.end, cfg.baseDelay, k - 1, Slack(limit));
    }
  }

  lemma OneMoreDelay(first: int, last: int, end: int, baseDelay: int, n: nat, slack: nat)
    requires n >= 1 && last >= first + DelaySum(baseDelay, n - 1) - (n - 1) * slack
    requires end >= last + DelayMs(baseDelay, n) - slack
    ensures end >= first + DelaySum(baseDelay, n) - n * slack
  {
    assert n * slack == (n - 1) * slack + slack;
  }

  /** The latest a last retry can be due when its failure is written down by `now`. */
  function Latest(now: nat, cfg: Settings): nat
    requires cfg.baseDelay >= 0
  {
    if Retries(cfg) == 0 then now else OnTime(now, cfg.baseDelay, Retries(cfg))
  }

  /**
    A dead job spent at least baseDelay * (2^maxRetries - 1) seconds between its first failure and its last, as
    long as no due time overflows; half a second less for each retry if the latest possible one exceeds 2^53.
  */
  lemma DeadJobsHadTheirChances(s: State, cfg: Settings, p: Payload)
    requires Fair(s, cfg) && p in s.dlq && p.Job?
    requires cfg.baseDelay >= 0 && Latest(s.clock, cfg) < INT64
    ensures Runs(s.history, p.id) == Failures(s.history, p.id) == Retries(cfg) + 1
    ensures LastEnd(s.history, p.id) - FirstEnd(s.history, p.id) >=
            cfg.baseDelay * (Pow2(Retries(cfg)) - 1) * 1000 - Retries(cfg) * Slack(Latest(s.clock, cfg))
  {
    DelaysAddUp(s.history, cfg, p.id, s.clock, Latest(s.clock, cfg));
    DelaySumClosed(cfg.baseDelay, Retries(cfg));
  }

  /**
    With the default base of 5 seconds and a clock of this century's first four decades, retries are due on the
    millisecond up to attempt 41 and within half a second up to attempt 51; attempt 52 is due at once.
  */
  lemma DefaultBackoff(clock: nat, n: nat)
    requires 1 <= n <= 52 && clock < 0x200_0000_0000
    ensures n <= 41 ==> Due(clock, 5, n) == clock + 5 * Pow2(n - 1) * 1000
    ensures n <= 51 ==> -512 <= Due(clock, 5, n) - (clock + 5 * Pow2(n - 1) * 1000) <= 512
    ensures n == 52 ==> Due(clock, 5, n) < 0
  {
    Pow2Of50();
    if n <= 41 {
      Pow2Grows(n - 1, 40);
      DueExactIff(clock, 5, n);
    }
    if n <= 51 {
      Pow2Grows(n - 1, 50);
      DueOnTimeIff(clock, 5, n);
    } else {
      assert Wrap64(Pow2(51)) == Pow2(51) && Wrap64(5 * Pow2(51)) == 5 * Pow2(51);
      NegativeScore(clock + DelayMs(5, 52));
    }
  }

  lemma NegativeScore(x: int)
    requires -INT64 <= x < -1
    ensures ToDouble(Wrap64(x)) < 0
  {
    UlpBelow(-x);
    RoundedClose(-x);
  }

  /** A base whose first delay still fits 64 bits: added to the clock it does not, and the retry is due at once. */
  lemma HugeBaseIsDueAtOnce()
    ensures DelayMs(9223372036854775, 1) == 9223372036854775 * 1000 < INT64
    ensures Due(1700000000000, 9223372036854775, 1) < 0
  {
    assert Pow2(0) == 1;
    DelayExact(9223372036854775, 1);
    var x := Wrap64(1700000000000 + 9223372036854775000);
    assert x == 1700000000000 + 9223372036854775000 - 2 * INT64;
    NegativeScore(x);
  }

  lemma Pow2Of50()
    ensures Pow2(40) == 0x100_0000_0000 && Pow2(50) == 0x4_0000_0000_0000 && Pow2(51) == 0x8_0000_0000_0000
  {
    Pow2Sum(20, 20);
    Pow2Sum(25, 25);
    Pow2Sum(5, 20);
    Pow2Sum(10, 10);
    assert Pow2(5) == 32 && Pow2(10) == 1024;
  }

  /** From attempt 65 on the shift itself leaves nothing, whatever the base. */
  lemma BackoffVanishes(baseDelay: int, n: nat)
    requires n >= 65
    ensures DelayMs(baseDelay, n) == 0
    ensures forall clock: nat | clock <= DOUBLE_EXACT :: Due(clock, baseDelay, n) == clock
  {
    DelayVanishes(baseDelay, n);
    forall clock: nat | clock <= DOUBLE_EXACT ensures Due(clock, baseDelay, n) == clock {
      Wrap64Exact(clock);
      RoundedClose(clock);
    }
  }

  lemma DelayVanishes(baseDelay: int, n: nat)
    requires n >= 65
    ensures DelayMs(baseDelay, n) == 0
  {
    Pow2Of64();
    Pow2Sum(64, n - 65);
    WrapMultiple(Pow2(n - 65));
    assert baseDelay * Wrap64(Pow2(n - 1)) == 0;
  }

  lemma WrapMultiple(k: nat)
    ensures Wrap64(2 * INT64 * k) == 0
  {
    assert 2 * INT64 * k + INT64 == k * (2 * INT64) + INT64;
  }

  lemma Pow2Of64()
    ensures Pow2(64) == 2 * INT64
  {
    Pow2Sum(16, 16);
    Pow2Sum(32, 32);
    assert Pow2(16) == 65536 by { Pow2Sum(8, 8); assert Pow2(8) == 256; }
  }

  lemma {:induction false} Pow2Sum(a: nat, b: nat)
    ensures Pow2(a + b) == Pow2(a) * Pow2(b)
  {
    if a > 0 { Pow2Sum(a - 1, b); }
  }

  // ---------------------------------------------------------------------------------------------
  // Termination
  // ---------------------------------------------------------------------------------------------

  /** Worker actions still ahead of a waiting payload, at most. */
  function Weight(p: Payload, retries: nat): nat {
    if p.Job? && p.attempts <= retries then 3 * (retries - p.attempts) + 2 else 2
  }

  function ListWeight(l: seq<Payload>, retries: nat): nat {
    if l == [] then 0 else ListWeight(l[..|l| - 1], retries) + Weight(l[|l| - 1], retries)
  }

  ghost function Pick<T>(s: set<T>): (x: T)
    requires s != {}
    ensures x in s
  {
    var x :| x in s; x
  }

  ghost function SetWeight(ps: set<Payload>, retries: nat): nat {
    if ps == {} then 0 else SetWeight(ps - {Pick(ps)}, retries) + Weight(Pick(ps), retries) + 1
  }

  function ListsWeight(lists: map<ListName, seq<Payload>>, retries: nat): nat {
    ListWeight(ListOf(lists, RATIONS), retries) + ListWeight(ListOf(lists, PRODUCTION), retries)
    + ListWeight(ListOf(lists, ALERTS), retries) + ListWeight(ListOf(lists, CLEANUP), retries)
    + ListWeight(ListOf(lists, ELSEWHERE), retries)
  }

  /** The decreasing measure: what is waiting, delayed and running, weighed by the attempts it has left. */
  ghost function Energy(s: State, retries: nat): nat {
    ListsWeight(s.lists, retries) + SetWeight(s.delayed.Keys, retries)
    + (if s.running.Some? then Weight(s.running.value.payload, retries) - 1 else 0)
  }

  lemma {:induction false} SetWeightWithout(ps: set<Payload>, p: Payload, retries: nat)
    requires p in ps
    ensures SetWeight(ps, retries) == SetWeight(ps - {p}, retries) + Weight(p, retries) + 1
    decreases ps
  {
    var q := Pick(ps);
    if q != p {
      SetWeightWithout(ps - {q}, p, retries);
      SetWeightWithout(ps - {p}, q, retries);
      assert ps - {q} - {p} == ps - {p} - {q};
    }
  }

  lemma ListWeightPush(l: seq<Payload>, p: Payload, retries: nat)
    ensures ListWeight(l + [p], retries) == ListWeight(l, retries) + Weight(p, retries)
  {
    assert (l + [p])[..|l|] == l;
  }

  lemma PushedWeightAt(lists: map<ListName, seq<Payload>>, q: ListName, p: Payload, retries: nat, r: ListName)
    ensures ListWeight(ListOf(Pushed(lists, q, p), r), retries) ==
            ListWeight(ListOf(lists, r), retries) + (if r == q then Weight(p, retries) else 0)
  {
    ListWeightPush(ListOf(lists, q), p, retries);
  }

  lemma PushedWeight(lists: map<ListName, seq<Payload>>, q: ListName, p: Payload, retries: nat)
    ensures ListsWeight(Pushed(lists, q, p), retries) == ListsWeight(lists, retries) + Weight(p, retries)
  {
    PushedWeightAt(lists, q, p, retries, RATIONS);
    PushedWeightAt(lists, q, p, retries, PRODUCTION);
    PushedWeightAt(lists, q, p, retries, ALERTS);
    PushedWeightAt(lists, q, p, retries, CLEANUP);
    PushedWeightAt(lists, q, p, retries, ELSEWHERE);
  }

  lemma ReleaseEnergy(s: State, p: Payload, retries: nat)
    requires p in s.delayed
    ensures Energy(Released(s, p), retries) < Energy(s, retries)
  {
    SetWeightWithout(s.delayed.Keys, p, retries);
    var rest := s.(delayed := s.delayed - {p});
    assert rest.delayed.Keys == s.delayed.Keys - {p};
    if !p.Garbage? { PushedWeight(s.lists, HomeOf(p, RATIONS), p, retries); }
  }

  lemma PoppedWeight(lists: map<ListName, seq<Payload>>, q: ListName, retries: nat)
    requires ListOf(lists, q) != []
    ensures var l := ListOf(lists, q);
            ListsWeight(lists, retries) == ListsWeight(lists[q := l[..|l| - 1]], retries) + Weight(l[|l| - 1], retries)
  {
    match q { case RATIONS => case PRODUCTION => case ALERTS => case CLEANUP => case ELSEWHERE => }
  }

  lemma PopEnergy(s: State, retries: nat)
    requires Enabled(s, Pop)
    ensures Energy(Popped(s), retries) < Energy(s, retries)
  {
    FirstBusyIsBusy(s.lists, QUEUES);
    PoppedWeight(s.lists, FirstBusy(s.lists, QUEUES).value, retries);
  }

  lemma RetryEnergy(s: State, cfg: Settings, done: bool)
    requires s.running.Some? && Retried(s, cfg, done)
    ensures Energy(Ended(s, cfg, done), Retries(cfg)) < Energy(s, Retries(cfg))
  {
    var v, again := Ended(s, cfg, done), Again(s.running.value);
    if again in s.delayed {
      assert v.delayed.Keys == s.delayed.Keys;
    } else {
      assert v.delayed.Keys - {again} == s.delayed.Keys;
      SetWeightWithout(v.delayed.Keys, again, Retries(cfg));
    }
  }

  lemma EndEnergy(s: State, cfg: Settings, done: bool)
    requires Enabled(s, End(done))
    ensures Energy(Ended(s, cfg, done), Retries(cfg)) < Energy(s, Retries(cfg))
  {
    if Retried(s, cfg, done) { RetryEnergy(s, cfg, done); }
  }

  predicate IsWork(e: Event) {
    e.Release? || e.Pop? || e.End?
  }

  function WorkIn(run: seq<Event>): nat {
    if run == [] then 0 else WorkIn(run[..|run| - 1]) + (if IsWork(run[|run| - 1]) then 1 else 0)
  }

  function EnqueuesIn(run: seq<Event>): nat {
    if run == [] then 0 else EnqueuesIn(run[..|run| - 1]) + (if run[|run| - 1].Enqueue? then 1 else 0)
  }

  lemma StepEnergy(s: State, cfg: Settings, e: Event)
    requires Enabled(s, e)
    ensures IsWork(e) ==> Energy(Step(s, cfg, e), Retries(cfg)) < Energy(s, Retries(cfg))
    ensures e.Enqueue? ==> Energy(Step(s, cfg, e), Retries(cfg)) <= Energy(s, Retries(cfg)) + 3 * Retries(cfg) + 2
    ensures e.Tick? || e.Restart? ==> Energy(Step(s, cfg, e), Retries(cfg)) == Energy(s, Retries(cfg))
  {
    match e {
      case Enqueue(q, p) => PushedWeight(s.lists, q, p, Retries(cfg));
      case Tick(ms) =>
      case Restart =>
      case Release(p) => ReleaseEnergy(s, p, Retries(cfg));
      case Pop => PopEnergy(s, Retries(cfg));
      case End(done) => EndEnergy(s, cfg, done);
    }
  }

  function Allowance(run: seq<Event>, each: nat): nat {
    if run == [] then 0 else Allowance(run[..|run| - 1], each) + (if run[|run| - 1].Enqueue? then each else 0)
  }

  lemma {:induction false} AllowancePerEnqueue(run: seq<Event>, each: nat)
    ensures Allowance(run, each) == EnqueuesIn(run) * each
  {
    if run != [] {
      AllowancePerEnqueue(run[..|run| - 1], each);
    }
  }

  /** All moves, pops and executions together are bounded by the number of enqueues: retrying never goes on forever. */
  lemma {:induction false} WorkIsBounded(s: State, cfg: Settings, run: seq<Event>)
    requires Possible(s, cfg, run)
    ensures WorkIn(run) + Energy(Trace(s, cfg, run), Retries(cfg)) <= Energy(s, Retries(cfg)) + Allowance(run, 3 * Retries(cfg) + 2)
  {
    if run != [] {
      var front, e := run[..|run| - 1], run[|run| - 1];
      WorkIsBounded(s, cfg, front);
      StepEnergy(Trace(s, cfg, front), cfg, e);
    }
  }

  // ---------------------------------------------------------------------------------------------
  // Routing
  // ---------------------------------------------------------------------------------------------

  /** A job that names a list waits in that list only and was popped from it; every delayed job names one. */
  ghost predicate AtHome(s: State) {
    && (forall q, p | Queued(s.lists, q, p) :: p.Job? && p.home.Some? ==> p.home == Some(q))
    && (forall p | p in s.delayed :: p.Job? && p.home.Some?)
    && (s.running.Some? && s.running.value.payload.Job? && s.running.value.payload.home.Some? ==>
          s.running.value.payload.home == Some(s.running.value.list))
  }

  lemma ReleaseKeepsAtHome(s: State, p: Payload)
    requires AtHome(s) && p in s.delayed
    ensures AtHome(Released(s, p))
  {
    var v := Released(s, p);
    forall q, o | Queued(v.lists, q, o) ensures o.Job? && o.home.Some? ==> o.home == Some(q) {
      assert Queued(s.lists, q, o) || o == p;
    }
  }

  lemma PopKeepsAtHome(s: State)
    requires AtHome(s) && Enabled(s, Pop)
    ensures AtHome(Popped(s))
  {
    FirstBusyIsBusy(s.lists, QUEUES);
    var q, v := FirstBusy(s.lists, QUEUES).value, Popped(s);
    assert Queued(s.lists, q, ListOf(s.lists, q)[|ListOf(s.lists, q)| - 1]);
    forall t, o | Queued(v.lists, t, o) ensures Queued(s.lists, t, o) {}
  }

  lemma StepKeepsAtHome(s: State, cfg: Settings, e: Event)
    requires Enabled(s, e) && AtHome(s)
    requires e.Enqueue? && e.payload.Job? && e.payload.home.Some? ==> e.payload.home == Some(e.list)
    ensures AtHome(Step(s, cfg, e))
  {
    match e {
      case Release(p) => ReleaseKeepsAtHome(s, p);
      case Pop => PopKeepsAtHome(s);
      case Enqueue(t, p) =>
        forall q, o | Queued(Step(s, cfg, e).lists, q, o) ensures o.Job? && o.home.Some? ==> o.home == Some(q) {
          assert Queued(s.lists, q, o) || (o == p && q == t);
        }
      case _ =>
        forall q, o | Queued(Step(s, cfg, e).lists, q, o) ensures Queued(s.lists, q, o) {}
    }
  }

  /** Over any run whose producers push each job to the list it names, retries come back to the list they left. */
  lemma {:induction false} RetriesComeHome(s: State, cfg: Settings, run: seq<Event>)
    requires Possible(s, cfg, run) && AtHome(s)
    requires forall e | e in run :: e.Enqueue? && e.payload.Job? && e.payload.home.Some? ==> e.payload.home == Some(e.list)
    ensures AtHome(Trace(s, cfg, run))
  {
    if run != [] {
      assert run[|run| - 1] in run && forall e | e in run[..|run| - 1] :: e in run;
      RetriesComeHome(s, cfg, run[..|run| - 1]);
      StepKeepsAtHome(Trace(s, cfg, run[..|run| - 1]), cfg, run[|run| - 1]);
    }
  }

  // ---------------------------------------------------------------------------------------------
  // From an empty start
  // ---------------------------------------------------------------------------------------------

  lemma EmptyStart(cfg: Settings, now: nat)
    ensures var s := Empty(now);
            Single(s) && NothingElseRan(s) && Fair(s, cfg) && Energy(s, Retries(cfg)) == 0 && forall id: int :: Places(s, id) == 0
  {
    var s := Empty(now);
    forall id: int ensures Places(s, id) == 0 {
      assert DelayedWith(s.delayed, id) == {};
    }
  }

  /**
    A worker started on empty lists, given pairwise different payloads: each is in exactly one place, and at
    most 3R + 2 actions are spent on each.
  */
  lemma WholeRuns(cfg: Settings, now: nat, run: seq<Event>, id: int)
    requires Distinctly(Empty(now), cfg, run)
    ensures var s := Trace(Empty(now), cfg, run);
            && Places(s, id) == (if Arrivals(run, id) == 0 then 0 else 1)
            && Runs(s.history, id) <= Retries(cfg) + 1
            && Fair(s, cfg)
            && WorkIn(run) <= EnqueuesIn(run) * (3 * Retries(cfg) + 2)
  {
    var s0 := Empty(now);
    EmptyStart(cfg, now);
    assert Places(s0, id) == 0;
    DistinctlyIsPossible(s0, cfg, run);
    DistinctJobsAreSingle(s0, cfg, run, id);
    JobsRunAsOftenAsAllowed(s0, cfg, run);
    ExecutionsAreBounded(Trace(s0, cfg, run).history, cfg, id);
    WorkIsBounded(s0, cfg, run);
    AllowancePerEnqueue(run, 3 * Retries(cfg) + 2);
  }

  lemma {:induction false} AfterReleases(s: State, cfg: Settings, members: seq<Payload>, n: nat)
    requires n <= |members|
    ensures var v := Trace(s, cfg, Releases(members)[..n]);
            v.running == s.running && v.clock == s.clock && v.stopped == s.stopped && v.delayed == s.delayed - Elements(members[..n])
  {
    hide HomeOf, Pushed;
    if n == 0 {
      assert s.delayed - Elements(members[..n]) == s.delayed;
    } else {
      AfterReleases(s, cfg, members, n - 1);
      assert Releases(members)[..n][..n - 1] == Releases(members)[..n - 1];
      assert Elements(members[..n]) == Elements(members[..n - 1]) + {members[n - 1]};
      assert s.delayed - Elements(members[..n]) == s.delayed - Elements(members[..n - 1]) - {members[n - 1]};
    }
  }

  /** Moving a batch of due members is a possible run of the worker. */
  lemma {:induction false} ReleasesArePossible(s: State, cfg: Settings, members: seq<Payload>, n: nat)
    requires s.running.None? && !s.stopped && IsDueBatch(s.delayed, s.clock, members) && n <= |members|
    ensures Possible(s, cfg, Releases(members)[..n])
  {
    if n > 0 {
      ReleasesArePossible(s, cfg, members, n - 1);
      AfterReleases(s, cfg, members, n - 1);
      assert Releases(members)[..n][..n - 1] == Releases(members)[..n - 1];
      assert members[n - 1] !in members[..n - 1] && members[n - 1] in members;
    }
  }
}
