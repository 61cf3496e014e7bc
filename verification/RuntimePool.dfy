/** The JavaScript runtime pool of internal/server/plugin_javascript.go: slot tokens count
    live runtimes, idle runtimes wait in a channel, and any number of calls take
    and return them. */
module RuntimePool {
  type Runtime = nat   // each runtime ever made has its own number
  type Caller = nat

  const MAX_RUNTIMES := 8

  // ---------------------------------------------------------------- the protocol

  datatype CallerPc = Creating | Holding(runtime: Runtime)

  /** callers are the calls between acquire's success and their release. */
  datatype Pool = Pool(slots: int, idle: seq<Runtime>, callers: map<Caller, CallerPc>, made: nat)

  /** newJSPlugin puts the first runtime in, with its token. */
  const START := Pool(1, [0], map[], 1)

  datatype Event =
    | TakesIdle(c: Caller)
    | TakesSlot(c: Caller)
    | Creates(c: Caller)
    | CreateFails(c: Caller)
    | Releases(c: Caller, reusable: bool)

  predicate Enabled(p: Pool, e: Event) {
    match e
    case TakesIdle(c) => c !in p.callers && p.idle != []
    case TakesSlot(c) => c !in p.callers && p.slots < MAX_RUNTIMES
    case Creates(c) => c in p.callers && p.callers[c] == Creating
    case CreateFails(c) => c in p.callers && p.callers[c] == Creating
    case Releases(c, _) => c in p.callers && p.callers[c].Holding?
  }

  /** release finds the idle channel full. */
  predicate PoolFull(p: Pool) { |p.idle| >= MAX_RUNTIMES }

  /** Whether the event takes a token out of slots, which blocks while there is none. */
  predicate TakesToken(p: Pool, e: Event) {
    e.CreateFails? || (e.Releases? && (!e.reusable || PoolFull(p)))
  }

  function Next(p: Pool, e: Event): Pool
    requires Enabled(p, e)
  {
    match e
    case TakesIdle(c) => p.(idle := p.idle[1..], callers := p.callers[c := Holding(p.idle[0])])
    case TakesSlot(c) => p.(slots := p.slots + 1, callers := p.callers[c := Creating])
    case Creates(c) => p.(callers := p.callers[c := Holding(p.made)], made := p.made + 1)
    case CreateFails(c) => p.(slots := p.slots - 1, callers := p.callers - {c})
    case Releases(c, reusable) =>
      if TakesToken(p, e) then p.(slots := p.slots - 1, callers := p.callers - {c})
      else p.(idle := p.idle + [p.callers[c].runtime], callers := p.callers - {c})
  }

  predicate Run(p: Pool, events: seq<Event>, end: Pool)
    decreases |events|
  {
    if events == [] then p == end
    else Enabled(p, events[0]) && Run(Next(p, events[0]), events[1..], end)
  }

  // ---------------------------------------------------------------- conservation

  /** Tokens are idle runtimes plus calls that hold or make one. */
  predicate Conserved(p: Pool) {
    p.slots == |p.idle| + |p.callers| && p.slots <= MAX_RUNTIMES
  }

  predicate IdleDistinct(p: Pool) {
    && (forall i :: 0 <= i < |p.idle| ==> p.idle[i] < p.made)
    && (forall i, j :: 0 <= i < j < |p.idle| ==> p.idle[i] != p.idle[j])
  }

  predicate HeldOnce(p: Pool) {
    && (forall c :: c in p.callers && p.callers[c].Holding? ==>
          p.callers[c].runtime < p.made && p.callers[c].runtime !in p.idle)
    && (forall c, d :: c in p.callers && d in p.callers && p.callers[c].Holding? && p.callers[c] == p.callers[d] ==>
          c == d)
  }

  /** A runtime is in one place only. */
  predicate Exclusive(p: Pool) { IdleDistinct(p) && HeldOnce(p) }

  lemma Leaves(callers: map<Caller, CallerPc>, c: Caller)
    requires c in callers
    ensures |callers - {c}| == |callers| - 1
  {
    assert (callers - {c}).Keys == callers.Keys - {c};
    assert |callers.Keys| == |callers.Keys - {c}| + 1;
  }

  lemma Enters(callers: map<Caller, CallerPc>, c: Caller, pc: CallerPc)
    ensures |callers[c := pc]| == |callers| + (if c in callers then 0 else 1)
  {
    assert callers[c := pc].Keys == callers.Keys + {c};
    if c in callers {
      assert callers.Keys + {c} == callers.Keys;
    }
  }

  lemma StepConserves(p: Pool, e: Event)
    requires Enabled(p, e) && Conserved(p)
    ensures Conserved(Next(p, e))
    ensures TakesToken(p, e) ==> p.slots > 0
    ensures e.Releases? ==> !PoolFull(p)
  {
    match e
    case TakesIdle(c) => Enters(p.callers, c, Holding(p.idle[0]));
    case TakesSlot(c) => Enters(p.callers, c, Creating);
    case Creates(c) => Enters(p.callers, c, Holding(p.made));
    case CreateFails(c) => Leaves(p.callers, c);
    case Releases(c, reusable) => Leaves(p.callers, c);
  }

  lemma StepKeepsExclusive(p: Pool, e: Event)
    requires Enabled(p, e) && Exclusive(p)
    ensures Exclusive(Next(p, e))
  {
    match e
    case TakesIdle(c) =>
      assert p.idle[0] in p.idle && p.idle[0] !in p.idle[1..];
      assert forall rt :: rt in p.idle[1..] ==> rt in p.idle;
    case TakesSlot(c) =>
    case Creates(c) =>
      assert forall rt :: rt in p.idle ==> rt < p.made;
    case CreateFails(c) =>
    case Releases(c, reusable) =>
      var rt := p.callers[c].runtime;
      assert forall x :: x in p.idle + [rt] ==> x in p.idle || x == rt;
      assert forall d :: d in p.callers && d != c && p.callers[d].Holding? ==> p.callers[d].runtime != rt;
  }

  lemma {:induction false} RunConserves(p: Pool, events: seq<Event>, end: Pool)
    requires Conserved(p) && Exclusive(p) && Run(p, events, end)
    ensures Conserved(end) && Exclusive(end)
    decreases |events|
  {
    if events != [] {
      StepConserves(p, events[0]);
      StepKeepsExclusive(p, events[0]);
      RunConserves(Next(p, events[0]), events[1..], end);
    }
  }

  /** In every interleaving of calls: tokens equal idle runtimes plus runtimes held or
      being made, and never exceed 8; no runtime is in two places; whoever gives a
      token back finds one, and a release never finds the pool full. */
  lemma PoolConservation(events: seq<Event>, end: Pool)
    requires Run(START, events, end)
    ensures end.slots == |end.idle| + |end.callers| <= 8
    ensures Exclusive(end)
    ensures forall e :: Enabled(end, e) && TakesToken(end, e) ==> end.slots > 0
    ensures forall c :: Enabled(end, Releases(c, true)) ==>
      !PoolFull(end) && Next(end, Releases(c, true)).slots == end.slots
  {
    RunConserves(START, events, end);
    forall e | Enabled(end, e) && TakesToken(end, e) ensures end.slots > 0 {
      StepConserves(end, e);
    }
    forall c | Enabled(end, Releases(c, true))
      ensures !PoolFull(end) && Next(end, Releases(c, true)).slots == end.slots
    {
      StepConserves(end, Releases(c, true));
    }
  }

  // ---------------------------------------------------------------- what becomes of a runtime

  /** The runtime has been made, and is neither idle nor held. */
  predicate Dropped(p: Pool, rt: Runtime) {
    rt < p.made && rt !in p.idle && forall c :: c in p.callers ==> p.callers[c] != Holding(rt)
  }

  lemma {:induction false} DroppedStays(p: Pool, events: seq<Event>, end: Pool, rt: Runtime)
    requires Dropped(p, rt) && Run(p, events, end)
    ensures Dropped(end, rt)
    decreases |events|
  {
    if events != [] {
      DroppedStays(Next(p, events[0]), events[1..], end, rt);
    }
  }

  /** In every interleaving, a runtime released as reusable goes to the back of the idle ones,
      and one that is not is never seen again. */
  lemma ReleasedExactly(before: seq<Event>, p: Pool, c: Caller, reusable: bool, after: seq<Event>, end: Pool)
    requires Run(START, before, p) && Enabled(p, Releases(c, reusable))
    requires Run(Next(p, Releases(c, reusable)), after, end)
    ensures reusable ==> Next(p, Releases(c, reusable)).idle == p.idle + [p.callers[c].runtime]
    ensures !reusable ==> Dropped(end, p.callers[c].runtime)
  {
    RunConserves(START, before, p);
    StepConserves(p, Releases(c, reusable));
    if !reusable {
      DroppedStays(Next(p, Releases(c, reusable)), after, end, p.callers[c].runtime);
    }
  }

  /** A call that finds a runtime idle gets the one that has waited longest, one that makes a
      runtime gets a new one, and nobody else's changes. */
  lemma AcquiredExactly(p: Pool, c: Caller, d: Caller)
    requires d != c && d in p.callers
    ensures Enabled(p, TakesIdle(c)) ==>
      var p' := Next(p, TakesIdle(c));
      c in p'.callers && p'.callers[c].Holding? && [p'.callers[c].runtime] + p'.idle == p.idle
      && d in p'.callers && p'.callers[d] == p.callers[d]
    ensures Enabled(p, Creates(c)) ==>
      var p' := Next(p, Creates(c));
      c in p'.callers && p'.callers[c] == Holding(p.made) && p'.made == p.made + 1 && p'.idle == p.idle
      && d in p'.callers && p'.callers[d] == p.callers[d]
    ensures Enabled(p, TakesSlot(c)) <==> c !in p.callers && p.slots < 8
  {}

  // ---------------------------------------------------------------- one call

  /** What happens once a runtime is at hand. */
  datatype CallEnd = BadArgument | CallFails | BadResult | Clean

  class Plugin {
    var idle: seq<Runtime>
    var slots: int
    var made: nat
    var broken: bool

    /** others is how many runtimes other calls hold or are making. */
    ghost predicate Valid(others: nat)
      reads this
    {
      slots == |idle| + others && slots <= MAX_RUNTIMES
    }

    constructor ()
      ensures Valid(0) && idle == [0] && slots == 1 && made == 1 && !broken
    {
      idle, slots, made, broken := [0], 1, 1, false;
    }

    /** Takes an idle runtime, or makes one while there is room; with neither, only the
        context ends the wait. A runtime that cannot be made gives its token back. */
    method Acquire(expires: bool, creatable: bool, ghost others: nat) returns (ok: bool, rt: Runtime)
      requires Valid(others)
      modifies this
      ensures ok <==> old(idle) != [] || (!expires && old(slots) < MAX_RUNTIMES && creatable)
      ensures ok ==> Valid(others + 1)
      ensures !ok ==> Valid(others) && idle == old(idle) && slots == old(slots) && made == old(made)
      ensures ok && old(idle) != [] ==> [rt] + idle == old(idle) && slots == old(slots) && made == old(made)
      ensures ok && old(idle) == [] ==> rt == old(made) && made == rt + 1 && idle == [] && slots == old(slots) + 1
      ensures broken <==> old(broken) || (old(idle) == [] && !expires && old(slots) < MAX_RUNTIMES && !creatable)
    {
      rt := 0;
      if idle != [] {
        rt, idle := idle[0], idle[1..];
        return true, rt;
      }
      if expires || slots >= MAX_RUNTIMES {
        return false, 0;
      }
      slots := slots + 1;
      if !creatable {
        slots := slots - 1;
        broken := true;
        return false, 0;
      }
      rt, made := made, made + 1;
      return true, rt;
    }

    method Release(rt: Runtime, reusable: bool, ghost others: nat)
      requires Valid(others + 1)
      modifies this`idle, this`slots
      ensures Valid(others)
      ensures reusable ==> idle == old(idle) + [rt] && slots == old(slots)
      ensures !reusable ==> idle == old(idle) && slots == old(slots) - 1
    {
      if !reusable {
        slots := slots - 1;
        return;
      }
      if |idle| < MAX_RUNTIMES {
        idle := idle + [rt];
      } else {
        assert false;
      }
    }

    /** Whatever way a call ends, the pool is short of exactly what others hold: a clean
        call puts its runtime back, a failed one drops it together with its token. */
    method Execute(known: bool, expires: bool, creatable: bool, end: CallEnd, ghost others: nat) returns (ok: bool)
      requires Valid(others)
      modifies this
      ensures Valid(others)
      ensures ok <==>
        && !old(broken) && known && end == Clean
        && (old(idle) != [] || (!expires && old(slots) < MAX_RUNTIMES && creatable))
      ensures ok && old(idle) != [] ==> idle == old(idle)[1..] + [old(idle)[0]] && slots == old(slots)
      ensures ok && old(idle) == [] ==> idle == [old(made)] && slots == old(slots) + 1
      ensures !ok && !old(broken) && known && end != Clean && old(idle) != [] ==>
        idle == old(idle)[1..] && slots == old(slots) - 1
    {
      if broken || !known {
        return false;
      }
      var got, rt := Acquire(expires, creatable, others);
      if !got {
        return false;
      }
      if end == BadArgument {
        Release(rt, false, others);
        return false;
      }
      if end == CallFails {
        Release(rt, false, others);
        return false;
      }
      if end == BadResult {
        Release(rt, false, others);
        return false;
      }
      Release(rt, true, others);
      return true;
    }
  }
}
