/**
  Fills and writes racing over the cache: a fill lands any time after its query, an invalidation takes one
  pattern after another, and each scan only promises the keys that were there when it started.
*/
module CacheRaces {
  import opened Core
  import opened CacheKeys
  import opened Cache

  const HOUR := 3_600_000

  /** `cacheTtl`, in milliseconds. */
  function Ttl(q: Query): int {
    match FamilyOf(q)
    case PERMISSION => HOUR case PERMISSIONS => HOUR
    case ROLE => HOUR case ROLES => HOUR
    case CAMP => HOUR case CAMPS => HOUR case CAMP_CATALOG => HOUR
    case PROFESSION => 6 * HOUR case PROFESSIONS => 6 * HOUR case PROFESSION_RESOURCES => 6 * HOUR
    case RESOURCE => 24 * HOUR case RESOURCES => 24 * HOUR
  }

  /** A cached value with the version of the database its query saw, and when it was stored. */
  datatype Entry = Entry(query: Query, answer: Answer, asOf: nat, landed: nat, filledAt: int, expires: int)

  /** A value read from the database, in a fill under way or already served. */
  datatype Reading = Reading(query: Query, answer: Answer, asOf: nat)

  datatype Pattern = Named(keys: set<string>) | Prefixed(prefix: string)

  predicate Matches(p: Pattern, key: string) {
    match p case Named(keys) => key in keys case Prefixed(prefix) => prefix <= key
  }

  /** What an invalidation deletes, in order. */
  function Plan(t: Table, id: nat): seq<Pattern> {
    [Named(NamedKeys(t, id))] + seq(|Families(t)|, i requires 0 <= i < |Families(t)| => Prefixed(Head(Families(t)[i])))
  }

  datatype Scan = Scan(since: nat, due: set<string>)

  datatype Cleared = Cleared(pattern: Pattern, since: nat)

  /** A committed write and how far its invalidation has come. */
  datatype Invalidation = Invalidation(write: Write, committed: nat, cleared: seq<Cleared>, todo: seq<Pattern>, scan: Option<Scan>)

  /** versions[k + 1] is the database after writes[k]; `stamp` counts events. */
  datatype State = State(
    versions: seq<Directory>, writes: seq<Invalidation>, entries: map<string, Entry>,
    fills: seq<Reading>, served: seq<Reading>, stamp: nat, clock: int)

  datatype Event =
    | Commit(write: Write)
    | Begin(index: nat) | Erase(index: nat, keys: set<string>) | Finish(index: nat)
    | Hit(query: Query) | Read(query: Query) | Land(fill: nat) | Tick(ms: nat)

  function Current(s: State): Directory
    requires s.versions != []
  {
    s.versions[|s.versions| - 1]
  }

  predicate Busy(s: State, k: nat) {
    k < |s.writes| && s.writes[k].todo != [] && s.writes[k].scan.Some?
  }

  predicate Enabled(s: State, e: Event) {
    s.versions != [] &&
    match e
    case Commit(w) => w.id != 0
    case Begin(k) => k < |s.writes| && s.writes[k].todo != [] && s.writes[k].scan.None?
    case Erase(k, keys) => Busy(s, k) && forall key | key in keys :: Matches(s.writes[k].todo[0], key)
    case Finish(k) => Busy(s, k) && s.writes[k].scan.value.due == {}
    case Hit(q) => KeyOf(q) in s.entries && s.clock < s.entries[KeyOf(q)].expires
    case Read(q) => Ask(Current(s), q).Some?
    case Land(i) => i < |s.fills|
    case Tick(_) => true
  }

  function Committed(s: State, w: Write): State
    requires s.versions != []
  {
    s.(versions := s.versions + [Apply(Current(s), w)],
       writes := s.writes + [Invalidation(w, s.stamp, [], Plan(TableOf(w), w.id), None)])
  }

  function Begun(s: State, k: nat): State
    requires k < |s.writes| && s.writes[k].todo != []
  {
    var due := set key | key in s.entries && Matches(s.writes[k].todo[0], key);
    s.(writes := s.writes[k := s.writes[k].(scan := Some(Scan(s.stamp, due)))])
  }

  function ErasedKeys(s: State, k: nat, keys: set<string>): State
    requires Busy(s, k)
  {
    var scan := s.writes[k].scan.value;
    s.(entries := s.entries - keys, writes := s.writes[k := s.writes[k].(scan := Some(scan.(due := scan.due - keys)))])
  }

  function Finished(s: State, k: nat): State
    requires Busy(s, k)
  {
    var x := s.writes[k];
    s.(writes := s.writes[k := x.(cleared := x.cleared + [Cleared(x.todo[0], x.scan.value.since)], todo := x.todo[1..], scan := None)])
  }

  /** A getter's query: its value is served now and sent off to the cache. */
  function Queried(s: State, q: Query): State
    requires s.versions != [] && Ask(Current(s), q).Some?
  {
    var r := Reading(q, Ask(Current(s), q).value, |s.versions| - 1);
    s.(fills := s.fills + [r], served := s.served + [r])
  }

  function Landed(s: State, i: nat): State
    requires i < |s.fills|
  {
    var f := s.fills[i];
    s.(entries := s.entries[KeyOf(f.query) := Entry(f.query, f.answer, f.asOf, s.stamp, s.clock, s.clock + Ttl(f.query))],
       fills := s.fills[..i] + s.fills[i + 1..])
  }

  function Effect(s: State, e: Event): State
    requires Enabled(s, e)
  {
    match e
    case Commit(w) => Committed(s, w)
    case Begin(k) => Begun(s, k)
    case Erase(k, keys) => ErasedKeys(s, k, keys)
    case Finish(k) => Finished(s, k)
    case Hit(q) =>
      var x := s.entries[KeyOf(q)];
      s.(served := s.served + [Reading(q, x.answer, x.asOf)])
    case Read(q) => Queried(s, q)
    case Land(i) => Landed(s, i)
    case Tick(ms) => s.(clock := s.clock + ms)
  }

  function Step(s: State, e: Event): State {
    if Enabled(s, e) then Effect(s, e).(stamp := s.stamp + 1) else s
  }

  function Trace(s: State, run: seq<Event>): State {
    if run == [] then s else Step(Trace(s, run[..|run| - 1]), run[|run| - 1])
  }

  function Start(d: Directory, now: int): State {
    State([d], [], map[], [], [], 0, now)
  }

  // ---------------------------------------------------------------------------------------------
  // Everything cached, under way or served was once true
  // ---------------------------------------------------------------------------------------------

  predicate True(versions: seq<Directory>, r: Reading) {
    r.asOf < |versions| && Ask(versions[r.asOf], r.query) == Some(r.answer)
  }

  predicate Stored(s: State, key: string, x: Entry) {
    && KeyOf(x.query) == key && True(s.versions, Reading(x.query, x.answer, x.asOf))
    && x.landed < s.stamp && x.filledAt <= s.clock && x.expires == x.filledAt + Ttl(x.query)
  }

  /** The versions are the writes applied one after the other. */
  ghost predicate Chronicle(s: State) {
    && |s.versions| == |s.writes| + 1
    && (forall k | 0 <= k < |s.writes| ::
          s.writes[k].write.id != 0 && s.writes[k].committed < s.stamp && s.versions[k + 1] == Apply(s.versions[k], s.writes[k].write))
  }

  ghost predicate Truthful(s: State) {
    && (forall key | key in s.entries :: Stored(s, key, s.entries[key]))
    && (forall i | 0 <= i < |s.fills| :: True(s.versions, s.fills[i]))
    && (forall i | 0 <= i < |s.served| :: True(s.versions, s.served[i]))
  }

  lemma StepKeepsChronicle(s: State, e: Event)
    requires Chronicle(s)
    ensures Chronicle(Step(s, e))
  {}

  lemma StepKeepsTruthful(s: State, e: Event)
    requires Chronicle(s) && Truthful(s)
    ensures Truthful(Step(s, e))
  {
    if Enabled(s, e) {
      if e.Hit? {
        HitIsTrue(s, e.query);
      } else if e.Land? {
        LandKeepsTruthful(s, e.fill);
      }
    }
  }

  lemma LandKeepsTruthful(s: State, i: nat)
    requires Chronicle(s) && Truthful(s) && i < |s.fills|
    ensures Truthful(Landed(s, i).(stamp := s.stamp + 1))
  {
    var f := s.fills[i];
    assert True(s.versions, f);
  }

  lemma HitIsTrue(s: State, q: Query)
    requires Truthful(s) && KeyOf(q) in s.entries
    ensures s.entries[KeyOf(q)].query == q
  {
    assert Stored(s, KeyOf(q), s.entries[KeyOf(q)]);
    KeysAreUnique(q, s.entries[KeyOf(q)].query);
  }

  // ---------------------------------------------------------------------------------------------
  // What an invalidation leaves behind
  // ---------------------------------------------------------------------------------------------

  function PatternsOf(cleared: seq<Cleared>): seq<Pattern> {
    seq(|cleared|, i requires 0 <= i < |cleared| => cleared[i].pattern)
  }

  /** What survives a cleared pattern was stored after its scan started; a running scan still holds the rest. */
  ghost predicate Swept(s: State, x: Invalidation) {
    && PatternsOf(x.cleared) + x.todo == Plan(TableOf(x.write), x.write.id)
    && (forall i | 0 <= i < |x.cleared| :: x.committed < x.cleared[i].since < s.stamp)
    && (forall i, key | 0 <= i < |x.cleared| && key in s.entries && Matches(x.cleared[i].pattern, key) ::
          s.entries[key].landed >= x.cleared[i].since)
    && (x.scan.Some? ==>
          && x.todo != [] && x.committed < x.scan.value.since < s.stamp
          && (forall key | key in s.entries && Matches(x.todo[0], key) ::
                s.entries[key].landed >= x.scan.value.since || key in x.scan.value.due))
  }

  ghost predicate AllSwept(s: State) {
    forall k | 0 <= k < |s.writes| :: Swept(s, s.writes[k])
  }

  /** Sweeping survives new entries and removed ones alike. */
  lemma SweptLater(s: State, v: State, x: Invalidation)
    requires Swept(s, x) && s.stamp < v.stamp
    requires forall key | key in v.entries :: v.entries[key].landed >= s.stamp || (key in s.entries && v.entries[key] == s.entries[key])
    ensures Swept(v, x)
  {}

  lemma SweptBegin(s: State, k: nat)
    requires Chronicle(s) && Enabled(s, Begin(k)) && Swept(s, s.writes[k])
    ensures Swept(Step(s, Begin(k)), Step(s, Begin(k)).writes[k])
  {}

  lemma SweptErase(s: State, k: nat, keys: set<string>)
    requires Enabled(s, Erase(k, keys)) && Swept(s, s.writes[k])
    ensures Swept(Step(s, Erase(k, keys)), Step(s, Erase(k, keys)).writes[k])
  {}

  lemma SweptFinish(s: State, k: nat)
    requires Enabled(s, Finish(k)) && Swept(s, s.writes[k])
    ensures Swept(Step(s, Finish(k)), Step(s, Finish(k)).writes[k])
  {
    var x, y := s.writes[k], Step(s, Finish(k)).writes[k];
    assert PatternsOf(y.cleared) == PatternsOf(x.cleared) + [x.todo[0]];
    assert PatternsOf(x.cleared) + x.todo == PatternsOf(x.cleared) + [x.todo[0]] + x.todo[1..];
  }

  lemma SweptFromTheStart(v: State, w: Write, committed: nat)
    requires committed < v.stamp
    ensures Swept(v, Invalidation(w, committed, [], Plan(TableOf(w), w.id), None))
  {
    assert PatternsOf([]) + Plan(TableOf(w), w.id) == Plan(TableOf(w), w.id);
  }

  /** Other invalidations are not disturbed by an event. */
  lemma OthersStaySwept(s: State, e: Event, k: nat)
    requires Enabled(s, e) && k < |s.writes| && Swept(s, s.writes[k])
    requires (e.Begin? || e.Erase? || e.Finish?) ==> e.index != k
    ensures k < |Step(s, e).writes| && Swept(Step(s, e), Step(s, e).writes[k])
  {
    SweptLater(s, Step(s, e), s.writes[k]);
  }

  lemma StepKeepsSwept(s: State, e: Event)
    requires Chronicle(s) && AllSwept(s)
    ensures AllSwept(Step(s, e))
  {
    if Enabled(s, e) {
      var v := Step(s, e);
      forall k | 0 <= k < |v.writes| ensures Swept(v, v.writes[k]) {
        if k == |s.writes| {
          SweptFromTheStart(v, e.write, s.stamp);
        } else if (e.Begin? || e.Erase? || e.Finish?) && e.index == k {
          match e {
            case Begin(_) => SweptBegin(s, k);
            case Erase(_, keys) => SweptErase(s, k, keys);
            case Finish(_) => SweptFinish(s, k);
          }
        } else {
          OthersStaySwept(s, e, k);
        }
      }
    }
  }

  ghost predicate Good(s: State) {
    Chronicle(s) && Truthful(s) && AllSwept(s)
  }

  /** In every reachable state of any interleaving, every cached or served value was the database's answer at some moment. */
  lemma {:induction false} NothingInvented(s: State, run: seq<Event>)
    requires Good(s)
    ensures Good(Trace(s, run))
  {
    if run != [] {
      var b, e := Trace(s, run[..|run| - 1]), run[|run| - 1];
      NothingInvented(s, run[..|run| - 1]);
      StepKeepsChronicle(b, e);
      StepKeepsTruthful(b, e);
      StepKeepsSwept(b, e);
    }
  }

  lemma StartIsGood(d: Directory, now: int)
    ensures Good(Start(d, now))
  {}

  /** Started on an empty cache, every value served in any run was the database's answer at some moment of the run. */
  lemma EverythingServedWasTrue(d: Directory, now: int, run: seq<Event>, i: nat)
    requires i < |Trace(Start(d, now), run).served|
    ensures var s := Trace(Start(d, now), run);
            var r := s.served[i];
            && Chronicle(s) && s.versions[0] == d
            && r.asOf < |s.versions| && Ask(s.versions[r.asOf], r.query) == Some(r.answer)
  {
    StartIsGood(d, now);
    NothingInvented(Start(d, now), run);
    FirstVersionStays(Start(d, now), run);
    assert True(Trace(Start(d, now), run).versions, Trace(Start(d, now), run).served[i]);
  }

  lemma {:induction false} FirstVersionStays(s: State, run: seq<Event>)
    requires s.versions != []
    ensures Trace(s, run).versions != [] && Trace(s, run).versions[0] == s.versions[0]
  {
    if run != [] { FirstVersionStays(s, run[..|run| - 1]); }
  }

  predicate Done(x: Invalidation) {
    x.todo == []
  }

  lemma ConcernedIsCleared(s: State, x: Invalidation, key: string) returns (i: nat)
    requires Swept(s, x) && Done(x) && Invalidates(TableOf(x.write), x.write.id, key)
    ensures i < |x.cleared| && Matches(x.cleared[i].pattern, key)
  {
    var t, id := TableOf(x.write), x.write.id;
    var plan := Plan(t, id);
    assert PatternsOf(x.cleared) == plan;
    if key in NamedKeys(t, id) {
      i := 0;
      assert x.cleared[0].pattern == plan[0];
    } else {
      var f :| f in Families(t) && Head(f) <= key;
      var j :| 0 <= j < |Families(t)| && Families(t)[j] == f;
      i := j + 1;
      assert x.cleared[i].pattern == plan[i];
    }
  }

  /** The write behind versions[k + 1] changed what a read returns. */
  predicate Changed(s: State, k: nat, q: Query) {
    k + 1 < |s.versions| && Ask(s.versions[k], q) != Ask(s.versions[k + 1], q)
  }

  /**
    Once a write's invalidation is over, an entry read before the write committed, on which the write
    matters, was stored only after that write committed: its fill was under way across the commit. One
    time-to-live after it was stored it is served no more.
  */
  lemma StaleEntriesAreLateFills(s: State, k: nat, key: string)
    requires Good(s) && k < |s.writes| && Done(s.writes[k])
    requires key in s.entries && s.entries[key].asOf <= k && Changed(s, k, s.entries[key].query)
    ensures s.entries[key].landed > s.writes[k].committed
    ensures s.clock - s.entries[key].filledAt >= Ttl(s.entries[key].query) ==> !Enabled(s, Hit(s.entries[key].query))
  {
    var x, w := s.entries[key], s.writes[k];
    assert Stored(s, key, x) && Swept(s, w);
    WritesCoverWhatTheyChange(s.versions[k], w.write, x.query);
    var i := ConcernedIsCleared(s, w, key);
  }

  lemma {:induction false} SomeWriteChangedIt(s: State, q: Query, from: nat, to: nat) returns (k: nat)
    requires from <= to < |s.versions| && Ask(s.versions[from], q) != Ask(s.versions[to], q)
    ensures from <= k < to && Changed(s, k, q)
  {
    if Ask(s.versions[to - 1], q) == Ask(s.versions[to], q) {
      k := SomeWriteChangedIt(s, q, from, to - 1);
    } else {
      k := to - 1;
    }
  }

  /**
    With every invalidation over, an entry that differs from the database now is one whose read was
    overtaken: some write committed after its query and before it was stored.
  */
  lemma StaleMeansOvertaken(s: State, key: string)
    requires Good(s) && forall k | 0 <= k < |s.writes| :: Done(s.writes[k])
    requires key in s.entries && Ask(Current(s), s.entries[key].query) != Some(s.entries[key].answer)
    ensures exists k: nat :: k < |s.writes| && s.entries[key].asOf <= k && s.writes[k].committed < s.entries[key].landed
  {
    var x := s.entries[key];
    assert Stored(s, key, x);
    var k := SomeWriteChangedIt(s, x.query, x.asOf, |s.versions| - 1);
    StaleEntriesAreLateFills(s, k, key);
  }

  // ---------------------------------------------------------------------------------------------
  // Coherence when no fill is overtaken
  // ---------------------------------------------------------------------------------------------

  /** Since event number t no value read before writes[k] has been on its way. */
  ghost predicate Quiet(s: State, k: nat, t: nat) {
    && k < |s.writes| < |s.versions| && t <= s.stamp
    && (forall i | 0 <= i < |s.fills| :: s.fills[i].asOf > k)
    && (forall key | key in s.entries && s.entries[key].landed >= t :: s.entries[key].asOf > k)
    && (forall i | 0 <= i < |s.writes[k].cleared| :: s.writes[k].cleared[i].since >= t)
    && (s.writes[k].scan.Some? ==> s.writes[k].scan.value.since >= t)
  }

  lemma StepKeepsQuiet(s: State, e: Event, k: nat, t: nat)
    requires Quiet(s, k, t)
    ensures Quiet(Step(s, e), k, t)
  {}

  lemma {:induction false} StaysQuiet(s: State, run: seq<Event>, k: nat, t: nat)
    requires Quiet(s, k, t)
    ensures Quiet(Trace(s, run), k, t)
  {
    if run != [] {
      StaysQuiet(s, run[..|run| - 1], k, t);
      StepKeepsQuiet(Trace(s, run[..|run| - 1]), run[|run| - 1], k, t);
    }
  }

  /**
    If no fill that read the old state is under way when a write's invalidation starts, then from its end
    on, whatever else happens, no entry ever misses that write.
  */
  lemma QuietWritesAreSeenByAll(s: State, run: seq<Event>, k: nat, key: string)
    requires Good(s) && k < |s.writes|
    requires s.writes[k].cleared == [] && s.writes[k].scan.None? && forall i | 0 <= i < |s.fills| :: s.fills[i].asOf > k
    requires k < |Trace(s, run).writes| && Done(Trace(s, run).writes[k]) && key in Trace(s, run).entries
    requires var x := Trace(s, run).entries[key]; Changed(Trace(s, run), k, x.query)
    ensures Trace(s, run).entries[key].asOf > k
  {
    var v := Trace(s, run);
    NothingInvented(s, run);
    forall q | q in s.entries ensures s.entries[q].landed < s.stamp { assert Stored(s, q, s.entries[q]); }
    StaysQuiet(s, run, k, s.stamp);
    var x, w := v.entries[key], v.writes[k];
    assert Stored(v, key, x) && Swept(v, w);
    WritesCoverWhatTheyChange(v.versions[k], w.write, x.query);
    var i := ConcernedIsCleared(v, w, key);
  }
}
