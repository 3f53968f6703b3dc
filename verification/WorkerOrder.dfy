/** Which job comes next and where it goes: told list by list. */
module WorkerOrder {
  import opened Core
  import opened Worker
  import opened WorkerRuns

  predicate Waits(s: State, q: ListName) {
    ListOf(s.lists, q) != []
  }

  /** The payload pushed last on q is gone from it, and runs, is lost or is dead according to what it is. */
  predicate TakenFrom(s: State, v: State, q: ListName)
    requires Waits(s, q)
  {
    var l := ListOf(s.lists, q);
    var p := l[|l| - 1];
    && v == s.(lists := v.lists, running := v.running, dlq := v.dlq, lost := v.lost, stopped := v.stopped)
    && ListOf(v.lists, q) == l[..|l| - 1]
    && (forall r | r != q :: ListOf(v.lists, r) == ListOf(s.lists, r))
    && v.running == (if p.Job? then Some(Running(q, p, s.clock)) else s.running)
    && v.dlq == (if p.Garbage? then s.dlq + [p] else s.dlq)
    && v.lost == (if p.Null? then s.lost + [p] else s.lost)
    && v.stopped == (p.Null? || s.stopped)
  }

  /** Rations before production before alerts before clean-up, and the last pushed of each first. */
  lemma PopOrder(s: State)
    ensures Waits(s, RATIONS) ==> TakenFrom(s, Popped(s), RATIONS)
    ensures !Waits(s, RATIONS) && Waits(s, PRODUCTION) ==> TakenFrom(s, Popped(s), PRODUCTION)
    ensures !Waits(s, RATIONS) && !Waits(s, PRODUCTION) && Waits(s, ALERTS) ==> TakenFrom(s, Popped(s), ALERTS)
    ensures !Waits(s, RATIONS) && !Waits(s, PRODUCTION) && !Waits(s, ALERTS) && Waits(s, CLEANUP) ==>
              TakenFrom(s, Popped(s), CLEANUP)
    ensures !Waits(s, RATIONS) && !Waits(s, PRODUCTION) && !Waits(s, ALERTS) && !Waits(s, CLEANUP) ==> Popped(s) == s
  {
    hide Popped, TakenFrom, FirstBusy, Waits;
    FirstBusyInOrder(s);
    if FirstBusy(s.lists, QUEUES).Some? { PopTakesIt(s, FirstBusy(s.lists, QUEUES).value); } else { PopTakesNothing(s); }
  }

  lemma FirstBusyInOrder(s: State)
    ensures FirstBusy(s.lists, QUEUES) ==
            if Waits(s, RATIONS) then Some(RATIONS) else if Waits(s, PRODUCTION) then Some(PRODUCTION)
            else if Waits(s, ALERTS) then Some(ALERTS) else if Waits(s, CLEANUP) then Some(CLEANUP) else None
  {
    assert QUEUES[1..][1..] == QUEUES[2..] && QUEUES[2..][1..] == QUEUES[3..] && QUEUES[3..][1..] == [];
    assert FirstBusy(s.lists, QUEUES[3..]) == if Waits(s, CLEANUP) then Some(CLEANUP) else None;
    assert FirstBusy(s.lists, QUEUES[2..]) == if Waits(s, ALERTS) then Some(ALERTS) else FirstBusy(s.lists, QUEUES[3..]);
    assert FirstBusy(s.lists, QUEUES[1..]) == if Waits(s, PRODUCTION) then Some(PRODUCTION) else FirstBusy(s.lists, QUEUES[2..]);
  }

  lemma PopTakesIt(s: State, q: ListName)
    requires FirstBusy(s.lists, QUEUES) == Some(q) && Waits(s, q)
    ensures TakenFrom(s, Popped(s), q)
  {}

  lemma PopTakesNothing(s: State)
    requires FirstBusy(s.lists, QUEUES) == None
    ensures Popped(s) == s
  {}

  /** A job starts at event i, popped from list q. */
  ghost predicate StartsAt(s: State, cfg: Settings, run: seq<Event>, i: nat, q: ListName) {
    && i < |run| && run[i] == Pop
    && var after := Trace(s, cfg, run[..i + 1]);
    after.running.Some? && after.running.value.list == q
  }

  /** In no run does a production, alerts or clean-up job start while anything waits in a list before its own. */
  lemma NobodyOvertakes(s: State, cfg: Settings, run: seq<Event>, i: nat, q: ListName)
    requires Possible(s, cfg, run) && StartsAt(s, cfg, run, i, q)
    ensures var before := Trace(s, cfg, run[..i]);
            && q in {RATIONS, PRODUCTION, ALERTS, CLEANUP} && Waits(before, q)
            && (q != RATIONS ==> !Waits(before, RATIONS))
            && (q in {ALERTS, CLEANUP} ==> !Waits(before, PRODUCTION))
            && (q == CLEANUP ==> !Waits(before, ALERTS))
  {
    var before := Trace(s, cfg, run[..i]);
    assert run[..i + 1][..i] == run[..i];
    PossiblePrefix(s, cfg, run, i + 1);
    PopOrder(before);
  }

  lemma {:induction false} PossiblePrefix(s: State, cfg: Settings, run: seq<Event>, n: nat)
    requires Possible(s, cfg, run) && n <= |run|
    ensures Possible(s, cfg, run[..n])
  {
    if n < |run| {
      assert run[..|run| - 1][..n] == run[..n];
      PossiblePrefix(s, cfg, run[..|run| - 1], n);
    } else {
      assert run[..n] == run;
    }
  }

  /** Jobs of one list are a stack: the one just pushed is popped next. */
  lemma LastInFirstOut(s: State, cfg: Settings, p: Payload)
    requires s.running.None? && p.Job?
    ensures Trace(s, cfg, [Enqueue(RATIONS, p), Pop]).running == Some(Running(RATIONS, p, s.clock))
    ensures ListOf(Trace(s, cfg, [Enqueue(RATIONS, p), Pop]).lists, RATIONS) == ListOf(s.lists, RATIONS)
  {
    var run := [Enqueue(RATIONS, p), Pop];
    assert run[..1] == [Enqueue(RATIONS, p)] && [Enqueue(RATIONS, p)][..0] == [];
    assert Trace(s, cfg, []) == s && Trace(s, cfg, run[..1]) == Step(s, cfg, Enqueue(RATIONS, p));
    PopOrder(Trace(s, cfg, run[..1]));
  }

  /** A job that names no list belongs to the list of its type; an unknown type to the list given. */
  lemma HomesByType(id: int, attempts: nat, otherwise: ListName)
    ensures HomeOf(Job(id, DAILY_RATIONS, None, attempts), otherwise) == RATIONS
    ensures HomeOf(Job(id, DAILY_PRODUCTION, None, attempts), otherwise) == PRODUCTION
    ensures HomeOf(Job(id, RESOURCE_ALERTS, None, attempts), otherwise) == ALERTS
    ensures HomeOf(Job(id, CLEANUP_EXPIRED_TOKENS, None, attempts), otherwise) == CLEANUP
    ensures HomeOf(Job(id, UNKNOWN, None, attempts), otherwise) == otherwise
    ensures forall kind, q :: HomeOf(Job(id, kind, Some(q), attempts), otherwise) == q
  {}

  /** The retry of a job goes back, when released, to the list it names, else to that of its type, else to where it was popped. */
  lemma RetryGoesHome(s: State, cfg: Settings, r: Running)
    requires r.payload.Job? && Again(r) in s.delayed
    ensures var q := HomeOf(r.payload, r.list);
            var v := Released(s, Again(r));
            && ListOf(v.lists, q) == ListOf(s.lists, q) + [Again(r)] && Again(r) !in v.delayed
            && (forall other | other != q :: ListOf(v.lists, other) == ListOf(s.lists, other))
            && Again(r).id == r.payload.id && Again(r).kind == r.payload.kind && Again(r).attempts == r.payload.attempts + 1
  {}

  /** Succeeding, failing with attempts left, failing for the last time: what becomes of a job of each kind. */
  lemma WhatBecomes(s: State, cfg: Settings, done: bool)
    requires s.running.Some? && s.running.value.payload.Job?
    ensures var p, v := s.running.value.payload, Ended(s, cfg, done);
            && v.running.None?
            && (done && p.kind != UNKNOWN <==> v.finished == s.finished + [p])
            && (!(done && p.kind != UNKNOWN) && p.attempts >= cfg.maxRetries <==> v.dlq == s.dlq + [p])
            && (!(done && p.kind != UNKNOWN) && p.attempts < cfg.maxRetries ==>
                  v.delayed == s.delayed[Again(s.running.value) := Due(s.clock, cfg.baseDelay, p.attempts + 1)])
  {}
}
