/** The agent's defence against running a task twice (internal/agent/client.go): the set
    of running tasks, the cache of recent results, and admission. */
module AgentDedup {
  import opened Common

  type Id = nat

  const RESULT_TTL := 600 * SECOND
  const MAX_CACHED := 256
  const MAX_RUNNING := 16

  datatype Outcome = TooManyTasks | Ran(output: string)
  datatype TaskResult = TaskResult(id: Id, outcome: Outcome)
  datatype Cached = Cached(result: TaskResult, at: Time)
  type Cache = map<Id, Cached>

  // ---------------------------------------------------------------- the cache

  /** What a prune leaves. */
  function Fresh(cache: Cache, now: Time): Cache {
    map id | id in cache && now - cache[id].at <= RESULT_TTL :: cache[id]
  }

  /** after is before cut down to size by removing the oldest entries; entries of one age go in any order. */
  ghost predicate Trimmed(before: Cache, after: Cache) {
    && (forall id :: id in after ==> id in before && after[id] == before[id])
    && (|before| <= MAX_CACHED ==> after == before)
    && (|before| > MAX_CACHED ==> |after| == MAX_CACHED)
    && (forall gone, kept :: gone in before && gone !in after && kept in after ==> before[gone].at <= after[kept].at)
  }

  ghost predicate CachedBy(before: Cache, r: TaskResult, now: Time, after: Cache) {
    Trimmed(WithResult(before, r, now), after)
  }

  datatype Admission = Reserved | AlreadyRunning | AtCapacity

  class Client {
    var running: set<Id>
    var results: Cache

    constructor ()
      ensures running == {} && results == map[]
    {
      running, results := {}, map[];
    }

    method PruneResults(now: Time)
      modifies this`results
      ensures results == Fresh(old(results), now)
    {
      var todo := results.Keys;
      while todo != {}
        invariant forall id :: id in results ==> id in old(results) && results[id] == old(results)[id]
        invariant forall id :: id in old(results) ==>
          (id in results <==> id in todo || now - old(results)[id].at <= RESULT_TTL)
        decreases todo
      {
        var id :| id in todo;
        todo := todo - {id};
        if id in results && now - results[id].at > RESULT_TTL {
          results := results - {id};
        }
      }
    }

    /** The scan for the entry to evict. */
    method Oldest() returns (oldest: Id)
      requires |results| > 0
      ensures oldest in results
      ensures forall id :: id in results ==> results[oldest].at <= results[id].at
    {
      assert results.Keys != {};
      oldest :| oldest in results.Keys;
      var todo := results.Keys;
      while todo != {}
        invariant oldest in results
        invariant forall id :: id in results && id !in todo ==> results[oldest].at <= results[id].at
        decreases todo
      {
        var id :| id in todo;
        todo := todo - {id};
        if id in results && results[id].at < results[oldest].at {
          oldest := id;
        }
      }
    }

    method CacheResult(r: TaskResult, now: Time)
      modifies this`results
      ensures CachedBy(old(results), r, now, results)
    {
      PruneResults(now);
      results := results[r.id := Cached(r, now)];
      ghost var full := results;
      while |results| > MAX_CACHED
        invariant |full| <= MAX_CACHED ==> results == full
        invariant |full| > MAX_CACHED ==> |results| >= MAX_CACHED
        invariant forall id :: id in results ==> id in full && results[id] == full[id]
        invariant forall gone, kept :: gone in full && gone !in results && kept in results ==>
          full[gone].at <= results[kept].at
        decreases |results|
      {
        var id := Oldest();
        results := results - {id};
      }
    }

    method CachedResult(id: Id, now: Time) returns (found: bool, r: TaskResult)
      modifies this`results
      ensures results == Fresh(old(results), now)
      ensures found <==> id in results
      ensures found ==> r == results[id].result
    {
      PruneResults(now);
      if id !in results {
        return false, TaskResult(id, TooManyTasks);
      }
      return true, results[id].result;
    }

    method TryReserve(id: Id) returns (a: Admission)
      modifies this`running
      ensures a == AlreadyRunning <==> id in old(running)
      ensures a == AtCapacity <==> id !in old(running) && |old(running)| >= MAX_RUNNING
      ensures running == if a == Reserved then old(running) + {id} else old(running)
    {
      if id in running {
        return AlreadyRunning;
      }
      if |running| >= MAX_RUNNING {
        return AtCapacity;
      }
      running := running + {id};
      return Reserved;
    }

    method Unregister(id: Id)
      modifies this`running
      ensures running == old(running) - {id}
    {
      running := running - {id};
    }

    /** The dispatch branch, with nothing in between its checks. */
    method Dispatch(id: Id, now: Time) returns (a: Answer)
      modifies this
      ensures a == AnswerTo(old(running), old(results), id, now)
      ensures running == if a == Started then old(running) + {id} else old(running)
      ensures if a == Refused
        then CachedBy(Fresh(old(results), now), TaskResult(id, TooManyTasks), now, results)
        else results == Fresh(old(results), now)
    {
      var found, _ := CachedResult(id, now);
      if found {
        return Replayed;
      }
      if id in running {
        return Ignored;
      }
      var admission := TryReserve(id);
      if admission == AtCapacity {
        CacheResult(TaskResult(id, TooManyTasks), now);
        return Refused;
      }
      return Started;
    }
  }

  datatype Answer = Replayed | Ignored | Started | Refused

  function AnswerTo(running: set<Id>, results: Cache, id: Id, now: Time): Answer {
    if id in Fresh(results, now) then Replayed
    else if id in running then Ignored
    else if |running| >= MAX_RUNNING then Refused
    else Started
  }

  // ---------------------------------------------------------------- runs

  /** A task's goroutine caches its result first and gives up its slot afterwards. */
  datatype Phase = Executing | Reported

  /** Where the read loop's dispatch branch is between its lock sections: past a miss in the
      cache, past the look at the running set, and about to cache a refusal. */
  datatype Handler = Resting | Looked(id: Id, at: Time) | Checked(id: Id, at: Time) | Refusing(id: Id)

  /** lastCached, lastLeft and answered are history: when each id's result was last cached,
      when it last gave up its slot, and the ids that were started or refused. */
  datatype State = State(
    clock: Time,
    running: map<Id, Phase>,
    results: Cache,
    handler: Handler,
    lastCached: map<Id, Time>,
    lastLeft: map<Id, Time>,
    answered: set<Id>)

  const START := State(0, map[], map[], Resting, map[], map[], {})

  /** Dispatches is the whole dispatch branch in one step; Looks, Checks, Reserves and
      CachesRefusal are its lock sections. */
  datatype Event =
    | Dispatches(id: Id)
    | Looks(id: Id)
    | Checks
    | Reserves
    | CachesRefusal
    | Completes(id: Id, output: string)
    | Unregisters(id: Id)

  datatype Timed = Timed(now: Time, event: Event)

  ghost predicate Caches(s: State, s': State, r: TaskResult, now: Time, cache: Cache) {
    CachedBy(cache, r, now, s'.results) && s'.lastCached == s.lastCached[r.id := now]
  }

  ghost predicate DispatchStep(s: State, id: Id, now: Time, s': State) {
    && s.handler == Resting && s'.handler == Resting && s'.lastLeft == s.lastLeft
    && match AnswerTo(s.running.Keys, s.results, id, now)
       case Started =>
         && s'.running == s.running[id := Executing] && s'.results == Fresh(s.results, now)
         && s'.lastCached == s.lastCached && s'.answered == s.answered + {id}
       case Refused =>
         && s'.running == s.running && s'.answered == s.answered + {id}
         && Caches(s, s', TaskResult(id, TooManyTasks), now, Fresh(s.results, now))
       case _ =>
         s' == s.(clock := now, results := Fresh(s.results, now))
  }

  /** What tryReserveTask says. */
  function Admit(running: set<Id>, id: Id): Admission {
    if id in running then AlreadyRunning else if |running| >= MAX_RUNNING then AtCapacity else Reserved
  }

  /** The lock sections between which other goroutines get their turn, from the state at clock s. */
  ghost predicate SectionStep(s: State, e: Event, s': State)
    requires e.Looks? || e.Checks? || e.Reserves? || e.CachesRefusal?
  {
    match e
    case Looks(id) =>
      && s.handler == Resting
      && var left := Fresh(s.results, s.clock);
         s' == s.(results := left, handler := if id in left then Resting else Looked(id, s.clock))
    case Checks =>
      && s.handler.Looked?
      && s' == s.(handler := if s.handler.id in s.running then Resting else Checked(s.handler.id, s.handler.at))
    case Reserves =>
      && s.handler.Checked?
      && (match Admit(s.running.Keys, s.handler.id)
          case AlreadyRunning => s' == s.(handler := Resting)
          case AtCapacity => s' == s.(handler := Refusing(s.handler.id))
          case Reserved =>
            s' == s.(handler := Resting, running := s.running[s.handler.id := Executing],
                     answered := s.answered + {s.handler.id}))
    case CachesRefusal =>
      && s.handler.Refusing?
      && s' == s.(handler := Resting, answered := s.answered + {s.handler.id},
                  results := s'.results, lastCached := s'.lastCached)
      && Caches(s, s', TaskResult(s.handler.id, TooManyTasks), s.clock, s.results)
  }

  ghost predicate TaskStep(s: State, e: Event, s': State)
    requires e.Completes? || e.Unregisters?
  {
    && e.id in s.running
    && match e
       case Completes(id, output) =>
         && s.running[id] == Executing
         && s' == s.(running := s.running[id := Reported], results := s'.results, lastCached := s'.lastCached)
         && Caches(s, s', TaskResult(id, Ran(output)), s.clock, s.results)
       case Unregisters(id) =>
         && s.running[id] == Reported
         && s' == s.(running := s.running - {id}, lastLeft := s.lastLeft[id := s.clock])
  }

  ghost predicate Step(s: State, t: Timed, s': State) {
    && s.clock < t.now && s'.clock == t.now
    && match t.event
       case Dispatches(id) => DispatchStep(s, id, t.now, s')
       case Looks(_) => SectionStep(s.(clock := t.now), t.event, s')
       case Checks => SectionStep(s.(clock := t.now), t.event, s')
       case Reserves => SectionStep(s.(clock := t.now), t.event, s')
       case CachesRefusal => SectionStep(s.(clock := t.now), t.event, s')
       case Completes(_, _) => TaskStep(s.(clock := t.now), t.event, s')
       case Unregisters(_) => TaskStep(s.(clock := t.now), t.event, s')
  }

  ghost predicate Run(s: State, steps: seq<Timed>, end: State)
    decreases |steps|
  {
    if steps == [] then s == end
    else exists mid :: Step(s, steps[0], mid) && Run(mid, steps[1..], end)
  }

  // ---------------------------------------------------------------- at most once

  /** The ids whose result was cached after id's. */
  function Newer(lastCached: map<Id, Time>, id: Id): set<Id>
    requires id in lastCached
  {
    set x | x in lastCached && lastCached[x] > lastCached[id]
  }

  /** The only two ways a result is forgotten: it is too old, or crowded out by 256 later ones. */
  predicate Forgotten(s: State, id: Id, now: Time) {
    id in s.lastCached && (now - s.lastCached[id] > RESULT_TTL || |Newer(s.lastCached, id)| >= MAX_CACHED)
  }

  predicate Executes(s: State, id: Id) { id in s.running && s.running[id] == Executing }

  predicate Remembered(s: State, id: Id) {
    Executes(s, id) || id in s.results || Forgotten(s, id, s.clock)
  }

  /** Cache entries carry the time they were cached at, and no two the same. */
  ghost predicate Stamped(s: State) {
    && (forall id :: id in s.results ==> id in s.lastCached && s.results[id].at == s.lastCached[id])
    && (forall id :: id in s.lastCached ==> s.lastCached[id] <= s.clock)
    && (forall x, y :: x in s.lastCached && y in s.lastCached && s.lastCached[x] == s.lastCached[y] ==> x == y)
  }

  ghost predicate Inv(s: State) {
    && |s.running| <= MAX_RUNNING && |s.results| <= MAX_CACHED
    && Stamped(s)
    && (forall id :: id in s.running ==> id in s.answered)
    && (forall id :: id in s.answered ==> Remembered(s, id))
  }

  lemma Subsets<T>(a: set<T>, b: set<T>)
    requires a <= b
    ensures |a| <= |b|
  {
    assert b == a + (b - a);
  }

  /** The newest entry is never the one evicted. */
  lemma NewestKept(before: Cache, after: Cache, id: Id)
    requires Trimmed(before, after) && id in before
    requires forall x :: x in before && x != id ==> before[x].at < before[id].at
    ensures id in after
  {
    if |before| > MAX_CACHED {
      assert |after.Keys| == MAX_CACHED;
      assert after.Keys != {};
      var y :| y in after.Keys;
      assert before[y] == after[y];
    }
  }

  /** An evicted entry is older than the 256 that stay. */
  lemma EvictedIsCrowdedOut(before: Cache, after: Cache, lastCached: map<Id, Time>, id: Id)
    requires Trimmed(before, after) && id in before && id !in after
    requires forall x :: x in before ==> x in lastCached && before[x].at == lastCached[x]
    requires forall x, y :: x in lastCached && y in lastCached && lastCached[x] == lastCached[y] ==> x == y
    ensures |Newer(lastCached, id)| >= MAX_CACHED
  {
    forall x | x in after.Keys ensures x in Newer(lastCached, id) {
      assert before[id].at <= after[x].at;
    }
    Subsets(after.Keys, Newer(lastCached, id));
    assert |after.Keys| == MAX_CACHED;
  }

  /** A new stamp is later than all others. */
  lemma CachingStamps(s: State, s': State, r: TaskResult, now: Time, full: Cache)
    requires Stamped(s) && s.clock < now && s'.clock == now && s'.lastCached == s.lastCached[r.id := now]
    requires forall x :: x in full ==>
      if x == r.id then full[x].at == now else x in s.results && full[x] == s.results[x]
    requires forall x :: x in s'.results ==> x in full && s'.results[x] == full[x]
    ensures Stamped(s')
    ensures forall x :: x in full ==> x in s'.lastCached && full[x].at == s'.lastCached[x]
    ensures forall x :: x in full && x != r.id ==> full[x].at < now
  {}

  lemma GoneIsForgotten(s: State, s': State, full: Cache, id: Id, now: Time)
    requires Stamped(s) && Stamped(s') && id in s.results && id !in s'.results
    requires Trimmed(full, s'.results)
    requires forall x :: x in full ==> x in s'.lastCached && full[x].at == s'.lastCached[x]
    requires id !in full ==>
      now - s.results[id].at > RESULT_TTL && id in s'.lastCached && s'.lastCached[id] == s.lastCached[id]
    ensures Forgotten(s', id, now)
  {
    if id in full {
      EvictedIsCrowdedOut(full, s'.results, s'.lastCached, id);
    }
  }

  function WithResult(cache: Cache, r: TaskResult, now: Time): Cache {
    Fresh(cache, now)[r.id := Cached(r, now)]
  }

  /** Before trimming, only what is too old is missing; pruning twice is pruning once. */
  lemma BeforeTrimming(results: Cache, cache: Cache, r: TaskResult, now: Time)
    requires cache == results || cache == Fresh(results, now)
    ensures var full := WithResult(cache, r, now);
      && r.id in full && full[r.id].at == now
      && (forall x :: x in full && x != r.id ==> x in results && full[x] == results[x])
      && (forall x :: x in results && x !in full ==> x != r.id && now - results[x].at > RESULT_TTL)
  {}

  /** One more result in the cache: whoever is no longer in it is too old or crowded out. */
  lemma CachingRemembers(s: State, s': State, r: TaskResult, now: Time, cache: Cache)
    requires Stamped(s) && s.clock < now && s'.clock == now && Caches(s, s', r, now, cache)
    requires cache == s.results || cache == Fresh(s.results, now)
    ensures Stamped(s') && |s'.results| <= MAX_CACHED
    ensures forall id :: id in s.results && id !in s'.results ==> Forgotten(s', id, now)
    ensures r.id in s'.results
  {
    BeforeTrimming(s.results, cache, r, now);
    TrimmingRemembers(s, s', r, now, WithResult(cache, r, now));
  }

  lemma TrimmingRemembers(s: State, s': State, r: TaskResult, now: Time, full: Cache)
    requires Stamped(s) && s.clock < now && s'.clock == now
    requires Trimmed(full, s'.results) && s'.lastCached == s.lastCached[r.id := now]
    requires r.id in full && full[r.id].at == now
    requires forall x :: x in full && x != r.id ==> x in s.results && full[x] == s.results[x]
    requires forall x :: x in s.results && x !in full ==> x != r.id && now - s.results[x].at > RESULT_TTL
    ensures Stamped(s') && |s'.results| <= MAX_CACHED
    ensures forall id :: id in s.results && id !in s'.results ==> Forgotten(s', id, now)
    ensures r.id in s'.results
  {
    CachingStamps(s, s', r, now, full);
    NewestKept(full, s'.results, r.id);
    forall id | id in s.results && id !in s'.results ensures Forgotten(s', id, now) {
      GoneIsForgotten(s, s', full, id, now);
    }
  }

  /** What was forgotten stays forgotten, unless its own result is cached again. */
  lemma ForgottenStays(s: State, s': State, id: Id, r: Id, now: Time)
    requires Stamped(s) && s.clock < now && s'.clock == now && r != id
    requires s'.lastCached == s.lastCached || s'.lastCached == s.lastCached[r := now]
    requires Forgotten(s, id, s.clock)
    ensures Forgotten(s', id, now)
  {
    Subsets(Newer(s.lastCached, id), Newer(s'.lastCached, id));
  }

  lemma CachingKeepsInv(s: State, s': State, r: TaskResult, now: Time, cache: Cache)
    requires Inv(s) && s.clock < now && s'.clock == now && Caches(s, s', r, now, cache)
    requires cache == s.results || cache == Fresh(s.results, now)
    requires s'.running.Keys == s.running.Keys && s'.answered == s.answered + {r.id}
    requires forall id :: id != r.id && Executes(s, id) ==> Executes(s', id)
    ensures Inv(s')
  {
    CachingRemembers(s, s', r, now, cache);
    forall id | id in s'.answered ensures Remembered(s', id) {
      if id != r.id && !Executes(s, id) && id !in s.results {
        ForgottenStays(s, s', id, r.id, now);
      }
    }
  }

  /** Whatever was remembered stays so while results are only pruned and slots only given up by those who reported. */
  lemma PruningRemembers(s: State, s': State, now: Time, id: Id)
    requires Stamped(s) && Remembered(s, id) && s.clock < now && s'.clock == now
    requires (s'.results == s.results || s'.results == Fresh(s.results, now)) && s'.lastCached == s.lastCached
    requires Executes(s, id) ==> Executes(s', id)
    ensures Remembered(s', id)
  {
    if !Executes(s, id) && id !in s.results {
      ForgottenStays(s, s', id, id + 1, now);
    }
  }

  lemma PruningKeepsStamps(s: State, s': State, now: Time)
    requires Stamped(s) && s.clock < now && s'.clock == now && |s.results| <= MAX_CACHED
    requires (s'.results == s.results || s'.results == Fresh(s.results, now)) && s'.lastCached == s.lastCached
    ensures Stamped(s') && |s'.results| <= MAX_CACHED
  {
    Subsets(s'.results.Keys, s.results.Keys);
  }

  /** Nobody is started: a prune forgets only what is too old. */
  lemma PruningKeepsInv(s: State, s': State, now: Time)
    requires Inv(s) && s.clock < now && s'.clock == now
    requires (s'.results == s.results || s'.results == Fresh(s.results, now)) && s'.lastCached == s.lastCached
    requires s'.running == s.running && s'.answered == s.answered
    ensures Inv(s')
  {
    PruningKeepsStamps(s, s', now);
    forall id | id in s'.answered ensures Remembered(s', id) {
      PruningRemembers(s, s', now, id);
    }
  }

  lemma OneMoreRuns(running: map<Id, Phase>, id: Id)
    requires id !in running
    ensures |running[id := Executing]| == |running| + 1
    ensures running[id := Executing].Keys == running.Keys + {id}
  {
    assert running[id := Executing] - {id} == running;
  }

  lemma StartingKeepsInv(s: State, s': State, id: Id, now: Time)
    requires Inv(s) && s.clock < now && s'.clock == now
    requires (s'.results == s.results || s'.results == Fresh(s.results, now)) && s'.lastCached == s.lastCached
    requires id !in s.running && |s.running| < MAX_RUNNING
    requires s'.running == s.running[id := Executing] && s'.answered == s.answered + {id}
    ensures Inv(s')
  {
    PruningKeepsStamps(s, s', now);
    OneMoreRuns(s.running, id);
    forall x | x in s'.answered ensures Remembered(s', x) {
      if x == id {
        assert Executes(s', id);
      } else {
        PruningRemembers(s, s', now, x);
      }
    }
  }

  lemma UnregisterKeepsInv(s: State, s': State, id: Id, now: Time)
    requires Inv(s) && s.clock < now && s'.clock == now
    requires id in s.running && s.running[id] == Reported
    requires s'.running == s.running - {id} && s'.answered == s.answered
    requires s'.results == s.results && s'.lastCached == s.lastCached
    ensures Inv(s')
  {
    PruningKeepsStamps(s, s', now);
    assert s'.running.Keys == s.running.Keys - {id};
    Subsets(s'.running.Keys, s.running.Keys);
    forall x | x in s'.answered ensures Remembered(s', x) {
      PruningRemembers(s, s', now, x);
    }
  }

  lemma DispatchKeepsInv(s: State, id: Id, now: Time, s': State)
    requires Inv(s) && s.clock < now && s'.clock == now && DispatchStep(s, id, now, s')
    ensures Inv(s') && s.answered <= s'.answered
  {
    match AnswerTo(s.running.Keys, s.results, id, now)
    case Started => StartingKeepsInv(s, s', id, now);
    case Refused => CachingKeepsInv(s, s', TaskResult(id, TooManyTasks), now, Fresh(s.results, now));
    case _ => PruningKeepsInv(s, s', now);
  }

  lemma SectionKeepsInv(s: State, e: Event, now: Time, s': State)
    requires Inv(s) && s.clock < now && s'.clock == now
    requires (e.Looks? || e.Checks? || e.Reserves? || e.CachesRefusal?) && SectionStep(s.(clock := now), e, s')
    ensures Inv(s') && s.answered <= s'.answered
  {
    match e
    case Looks(_) => PruningKeepsInv(s, s', now);
    case Checks => PruningKeepsInv(s, s', now);
    case Reserves =>
      if Admit(s.running.Keys, s.handler.id) == Reserved {
        StartingKeepsInv(s, s', s.handler.id, now);
      } else {
        PruningKeepsInv(s, s', now);
      }
    case CachesRefusal => CachingKeepsInv(s, s', TaskResult(s.handler.id, TooManyTasks), now, s.results);
  }

  lemma TaskKeepsInv(s: State, e: Event, now: Time, s': State)
    requires Inv(s) && s.clock < now && s'.clock == now
    requires (e.Completes? || e.Unregisters?) && TaskStep(s.(clock := now), e, s')
    ensures Inv(s') && s.answered <= s'.answered
  {
    match e
    case Completes(id, output) =>
      assert s'.running.Keys == s.running.Keys && s'.answered == s.answered + {id};
      CachingKeepsInv(s, s', TaskResult(id, Ran(output)), now, s.results);
    case Unregisters(id) => UnregisterKeepsInv(s, s', id, now);
  }

  lemma StepKeepsInv(s: State, t: Timed, s': State)
    requires Inv(s) && Step(s, t, s')
    ensures Inv(s') && s.answered <= s'.answered
  {
    match t.event
    case Dispatches(id) => DispatchKeepsInv(s, id, t.now, s');
    case Looks(_) => SectionKeepsInv(s, t.event, t.now, s');
    case Checks => SectionKeepsInv(s, t.event, t.now, s');
    case Reserves => SectionKeepsInv(s, t.event, t.now, s');
    case CachesRefusal => SectionKeepsInv(s, t.event, t.now, s');
    case Completes(_, _) => TaskKeepsInv(s, t.event, t.now, s');
    case Unregisters(_) => TaskKeepsInv(s, t.event, t.now, s');
  }

  lemma {:induction false} RunKeepsInv(s: State, steps: seq<Timed>, end: State)
    requires Inv(s) && Run(s, steps, end)
    ensures Inv(end) && s.answered <= end.answered
    decreases |steps|
  {
    if steps != [] {
      var mid :| Step(s, steps[0], mid) && Run(mid, steps[1..], end);
      StepKeepsInv(s, steps[0], mid);
      RunKeepsInv(mid, steps[1..], end);
    }
  }

  /** In every reachable state at most 16 tasks run and at most 256 results are kept. */
  lemma Bounded(steps: seq<Timed>, end: State)
    requires Run(START, steps, end)
    ensures |end.running| <= 16 && |end.results| <= 256
  {
    RunKeepsInv(START, steps, end);
  }

  /** In every reachable state, a dispatch handled in one step is answered from the cache
      exactly while its result is there and at most 10 minutes old, ignored exactly while
      its task runs, refused exactly while 16 others run, and started otherwise. */
  lemma AnswersExactly(steps: seq<Timed>, s: State, id: Id, now: Time)
    requires Run(START, steps, s) && s.clock < now
    ensures var answer := AnswerTo(s.running.Keys, s.results, id, now);
      var kept := id in s.results && now - s.results[id].at <= 600_000_000_000;
      && (answer == Replayed <==> kept)
      && (answer == Ignored <==> !kept && id in s.running)
      && (answer == Refused <==> !kept && id !in s.running && |s.running| == 16)
      && (answer == Started <==> !kept && id !in s.running && |s.running| < 16)
  {
    RunKeepsInv(START, steps, s);
    assert |s.running| == |s.running.Keys|;
  }

  /** If a run starts or refuses id, goes on in any way, and then starts id with its checks
      in one step, then id's result had been cached, and more than 10 minutes have
      passed since it last was, or 256 other results have been cached after it. */
  lemma AtMostOnce(before: seq<Timed>, s1: State, first: Timed, s2: State,
                   between: seq<Timed>, s3: State, id: Id, now: Time)
    requires Run(START, before, s1) && first.event == Dispatches(id) && Step(s1, first, s2)
    requires AnswerTo(s1.running.Keys, s1.results, id, first.now) in {Started, Refused}
    requires Run(s2, between, s3) && s3.clock < now
    requires AnswerTo(s3.running.Keys, s3.results, id, now) == Started
    ensures id in s3.lastCached
    ensures now - s3.lastCached[id] > 600_000_000_000 || |Newer(s3.lastCached, id)| >= 256
  {
    RunKeepsInv(START, before, s1);
    StepKeepsInv(s1, first, s2);
    RunKeepsInv(s2, between, s3);
    StartsOnlyForgotten(s3, id, now);
  }

  lemma StartsOnlyForgotten(s: State, id: Id, now: Time)
    requires Inv(s) && id in s.answered && s.clock < now
    requires AnswerTo(s.running.Keys, s.results, id, now) == Started
    ensures Forgotten(s, id, now)
  {
    assert Remembered(s, id);
  }

  // ---------------------------------------------------------------- the checks apart

  /** The result of id was cached after the look at time at, and id has given up its slot since. */
  predicate SlippedThrough(s: State, id: Id, at: Time) {
    id in s.lastCached && at < s.lastCached[id] && id in s.lastLeft && s.lastCached[id] < s.lastLeft[id]
  }

  /** Since the look at time at, nobody was admitted: a result cached since then was cached
      by a task that still holds its slot or has left it free. */
  predicate LookOk(s: State, id: Id, at: Time) {
    && at <= s.clock
    && (id in s.results ==> at < s.results[id].at)
    && (id in s.lastCached && at < s.lastCached[id] ==>
          if id in s.running then s.running[id] == Reported
          else SlippedThrough(s, id, at) && |s.running| < MAX_RUNNING)
    && (id in s.lastCached && at < s.lastCached[id] ==> id in s.answered)
  }

  predicate HandlerOk(s: State) {
    match s.handler
    case Looked(id, at) => LookOk(s, id, at)
    case Checked(id, at) => LookOk(s, id, at) && id !in s.running
    case _ => true
  }

  lemma CompletionKeepsLook(s: State, s': State, r: TaskResult, id: Id, at: Time)
    requires LookOk(s, id, at) && Stamped(s) && s.clock < s'.clock
    requires r.id in s.running && r.id in s.answered && s'.answered == s.answered
    requires Caches(s, s', r, s'.clock, s.results)
    requires s'.running == s.running[r.id := Reported] && s'.lastLeft == s.lastLeft
    ensures LookOk(s', id, at)
  {
    BeforeTrimming(s.results, s.results, r, s'.clock);
    assert s'.running.Keys == s.running.Keys && |s'.running| == |s'.running.Keys|;
  }

  lemma LeavingKeepsLook(s: State, s': State, x: Id, id: Id, at: Time)
    requires LookOk(s, id, at) && Stamped(s) && s.clock < s'.clock && |s.running| <= MAX_RUNNING
    requires x in s.running && s'.running == s.running - {x} && s'.lastLeft == s.lastLeft[x := s'.clock]
    requires s'.results == s.results && s'.lastCached == s.lastCached && s'.answered == s.answered
    ensures LookOk(s', id, at)
  {
    assert s.running.Keys == s'.running.Keys + {x} && |s.running.Keys| == |s'.running.Keys| + 1;
  }

  lemma TaskKeepsHandler(s: State, e: Event, now: Time, s': State)
    requires Inv(s) && HandlerOk(s) && s.clock < now && s'.clock == now
    requires (e.Completes? || e.Unregisters?) && TaskStep(s.(clock := now), e, s')
    ensures HandlerOk(s')
  {
    if s.handler.Looked? || s.handler.Checked? {
      match e
      case Completes(x, output) =>
        CompletionKeepsLook(s, s', TaskResult(x, Ran(output)), s.handler.id, s.handler.at);
      case Unregisters(x) => LeavingKeepsLook(s, s', x, s.handler.id, s.handler.at);
    }
  }

  lemma SectionKeepsHandler(s: State, e: Event, now: Time, s': State)
    requires Stamped(s) && HandlerOk(s) && s.clock < now && s'.clock == now
    requires (e.Looks? || e.Checks? || e.Reserves? || e.CachesRefusal?) && SectionStep(s.(clock := now), e, s')
    ensures HandlerOk(s')
  {}

  lemma StepKeepsHandler(s: State, t: Timed, s': State)
    requires Inv(s) && HandlerOk(s) && Step(s, t, s')
    ensures HandlerOk(s')
  {
    match t.event
    case Dispatches(_) =>
    case Looks(_) => SectionKeepsHandler(s, t.event, t.now, s');
    case Checks => SectionKeepsHandler(s, t.event, t.now, s');
    case Reserves => SectionKeepsHandler(s, t.event, t.now, s');
    case CachesRefusal => SectionKeepsHandler(s, t.event, t.now, s');
    case Completes(_, _) => TaskKeepsHandler(s, t.event, t.now, s');
    case Unregisters(_) => TaskKeepsHandler(s, t.event, t.now, s');
  }

  lemma {:induction false} RunKeepsHandler(s: State, steps: seq<Timed>, end: State)
    requires Inv(s) && HandlerOk(s) && Run(s, steps, end)
    ensures Inv(end) && HandlerOk(end)
    decreases |steps|
  {
    if steps != [] {
      var mid :| Step(s, steps[0], mid) && Run(mid, steps[1..], end);
      StepKeepsInv(s, steps[0], mid);
      StepKeepsHandler(s, steps[0], mid);
      RunKeepsHandler(mid, steps[1..], end);
    }
  }

  /** With the handler's lock sections apart, in any run: a reservation starts an id that was
      answered before and whose answer is not forgotten exactly when that answer was
      cached after the handler's look at the cache and its task has given up its slot
      since. A reservation never finds its id running. */
  lemma AdmittedAgainExactly(steps: seq<Timed>, s: State, now: Time)
    requires Run(START, steps, s) && s.handler.Checked? && s.clock < now
    ensures var id := s.handler.id;
      && (Admit(s.running.Keys, id) == Reserved && id in s.answered && !Forgotten(s, id, now)
          <==> SlippedThrough(s, id, s.handler.at) && !Forgotten(s, id, now))
      && Admit(s.running.Keys, id) != AlreadyRunning
  {
    RunKeepsHandler(START, steps, s);
    AdmittedOnlySlipped(s, s.handler.id, s.handler.at, now);
  }

  lemma AdmittedOnlySlipped(s: State, id: Id, at: Time, now: Time)
    requires Inv(s) && LookOk(s, id, at) && id !in s.running && s.clock < now
    ensures id in s.answered && !Forgotten(s, id, now) ==> SlippedThrough(s, id, at)
  {
    if id in s.answered && !Forgotten(s, id, now) {
      assert Remembered(s, id);
    }
  }

  /** A dispatch that finds 16 others running is not dropped: its refusal is cached, so that
      the same dispatch again is answered with it. */
  lemma RefusalIsCached(s: State, s': State, s'': State, now: Time, later: Time)
    requires Inv(s) && s.handler.Checked? && s.handler.id !in s.running && |s.running| == 16
    requires Step(s, Timed(now, Reserves), s')
    ensures s'.handler == Refusing(s.handler.id)
    ensures Step(s', Timed(later, CachesRefusal), s'') ==>
      && s.handler.id in s''.results && s''.results[s.handler.id].result == TaskResult(s.handler.id, TooManyTasks)
      && s.handler.id in s''.answered && s''.handler == Resting
  {
    assert |s.running| == |s.running.Keys|;
    if Step(s', Timed(later, CachesRefusal), s'') {
      StepKeepsInv(s, Timed(now, Reserves), s');
      var r := TaskResult(s.handler.id, TooManyTasks);
      CachingRemembers(s', s'', r, later, s'.results);
      BeforeTrimming(s'.results, s'.results, r, later);
    }
  }

  // ---------------------------------------------------------------- a run that starts a task twice

  lemma {:induction false} Append(s: State, steps: seq<Timed>, mid: State, t: Timed, end: State)
    requires Run(s, steps, mid) && Step(mid, t, end)
    ensures Run(s, steps + [t], end)
    decreases |steps|
  {
    if steps == [] {
      assert ([] + [t])[1..] == [];
      assert Run(end, ([] + [t])[1..], end);
    } else {
      var next :| Step(s, steps[0], next) && Run(next, steps[1..], mid);
      Append(next, steps[1..], mid, t, end);
      assert (steps + [t])[0] == steps[0] && (steps + [t])[1..] == steps[1..] + [t];
    }
  }

  /** Started through the split handler, from the beginning. */
  lemma FirstStart(id: Id) returns (s: State)
    ensures Run(START, [] + [Timed(1, Looks(id))] + [Timed(2, Checks)] + [Timed(3, Reserves)], s)
    ensures s == State(3, map[id := Executing], map[], Resting, map[], map[], {id})
  {
    var s1 := START.(clock := 1, handler := Looked(id, 1));
    var s2 := START.(clock := 2, handler := Checked(id, 1));
    s := State(3, map[id := Executing], map[], Resting, map[], map[], {id});
    assert Fresh(map[], 1) == map[];
    Append(START, [], START, Timed(1, Looks(id)), s1);
    Append(START, [] + [Timed(1, Looks(id))], s1, Timed(2, Checks), s2);
    Append(START, [] + [Timed(1, Looks(id))] + [Timed(2, Checks)], s2, Timed(3, Reserves), s);
  }

  lemma CompletesNext(id: Id, output: string, s4: State, s5: State)
    requires s4 == State(4, map[id := Executing], map[], Looked(id, 4), map[], map[], {id})
    requires s5 == State(5, map[id := Reported], map[id := Cached(TaskResult(id, Ran(output)), 5)], Looked(id, 4),
                         map[id := 5], map[], {id})
    ensures Step(s4, Timed(5, Completes(id, output)), s5)
  {
    assert WithResult(map[], TaskResult(id, Ran(output)), 5) == s5.results;
    assert Trimmed(s5.results, s5.results);
    assert s4.running[id := Reported] == s5.running && s4.lastCached[id := 5] == s5.lastCached;
  }

  /** While it runs, the handler looks for its answer in vain; then it finishes and leaves. */
  lemma FinishesAfterLook(id: Id, output: string, steps: seq<Timed>, s3: State) returns (s6: State)
    requires Run(START, steps, s3) && s3 == State(3, map[id := Executing], map[], Resting, map[], map[], {id})
    ensures Run(START, steps + [Timed(4, Looks(id))] + [Timed(5, Completes(id, output))]
                             + [Timed(6, Unregisters(id))], s6)
    ensures s6 == State(6, map[], map[id := Cached(TaskResult(id, Ran(output)), 5)], Looked(id, 4),
                        map[id := 5], map[id := 6], {id})
  {
    var s4 := s3.(clock := 4, handler := Looked(id, 4));
    var s5 := State(5, map[id := Reported], map[id := Cached(TaskResult(id, Ran(output)), 5)], Looked(id, 4),
                    map[id := 5], map[], {id});
    s6 := s5.(clock := 6, running := map[], lastLeft := map[id := 6]);
    assert Fresh(map[], 4) == map[];
    Append(START, steps, s3, Timed(4, Looks(id)), s4);
    CompletesNext(id, output, s4, s5);
    Append(START, steps + [Timed(4, Looks(id))], s4, Timed(5, Completes(id, output)), s5);
    assert s5.running - {id} == map[];
    Append(START, steps + [Timed(4, Looks(id))] + [Timed(5, Completes(id, output))], s5, Timed(6, Unregisters(id)), s6);
  }

  /** The window is real: a task that finishes between the handler's look at the cache and
      its look at the running set is started a second time, its answer in the cache. */
  lemma StartedTwice(id: Id, output: string) returns (steps: seq<Timed>, s: State, s': State)
    ensures Run(START, steps, s) && Step(s, Timed(8, Reserves), s')
    ensures Timed(3, Reserves) in steps && s.answered == {id}
    ensures id in s.results && s.results[id].result.outcome == Ran(output) && !Forgotten(s, id, 8)
    ensures id !in s.running && id in s'.running && s'.running[id] == Executing
  {
    var s3 := FirstStart(id);
    var first := [] + [Timed(1, Looks(id))] + [Timed(2, Checks)] + [Timed(3, Reserves)];
    assert Timed(3, Reserves) in first;
    var s6 := FinishesAfterLook(id, output, first, s3);
    var more := first + [Timed(4, Looks(id))] + [Timed(5, Completes(id, output))] + [Timed(6, Unregisters(id))];
    s := s6.(clock := 7, handler := Checked(id, 4));
    Append(START, more, s6, Timed(7, Checks), s);
    steps := more + [Timed(7, Checks)];
    s' := s.(clock := 8, handler := Resting, running := s.running[id := Executing], answered := s.answered + {id});
    assert Newer(s.lastCached, id) == {};
  }
}
