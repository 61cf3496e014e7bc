/** The deferred-release scheduler of internal/server/reaper.go: one goroutine aims one
    timer at the next deferred task, while any number of callers queue new
    deferrals and nudge it. The clock runs on during all of it. */
module ReleaseTimer {
  import opened Common

  type Id = nat

  const IDLE_SLEEP: int := 3_600_000_000_000  // an hour, in nanoseconds

  /** How long to sleep before a task due at next. */
  function ReleaseSleep(now: Time, next: Time): (d: int)
    ensures d >= 0
    ensures next > now ==> d > 0 && now + d == next
    ensures next <= now ==> d == 0
  {
    if next - now > 0 then next - now else 0
  }

  /** Where the goroutine is: in its select; at the start of arm, with now taken; past
      arm's ready scan; past arm's look for the next release, with the timer stopped. */
  datatype LoopPc =
    | Waiting
    | Arming(now: Time)
    | Swept(now: Time, swept: bool)
    | Aimed(now: Time, next: Option<Time>)

  /** drift is how long the arm pass that set the timer had taken by then. */
  datatype Timer = Stopped | Armed(fireAt: Time, drift: int)

  /** queue holds the queued deferred rows; adders those inserted but not yet nudged for.
      offered and gap are history: the ids some ready scan has returned, and whether
      a store read of the last arm pass failed. */
  datatype State = State(
    clock: Time,
    queue: map<Id, Time>,
    adders: set<Id>,
    token: bool,
    loop: LoopPc,
    timer: Timer,
    offered: set<Id>,
    gap: bool)

  /** A server starts with whatever deferrals the database kept, and arms first. */
  predicate Initial(s: State) {
    && s.adders == {} && !s.token && s.loop == Arming(s.clock) && s.offered == {} && !s.gap
    && s.timer == Armed(s.clock + IDLE_SLEEP, 0)
  }

  datatype Event =
    | Ticks(to: Time)
    | Adds(id: Id, release: Time)
    | Nudges(id: Id)
    | Leaves(id: Id)
    | TimerFires
    | TokenTaken
    | Sweeps
    | SweepFails
    | ReadsNext(next: Option<Time>)
    | ReadFails
    | Resets
    | Backstop

  function DueAt(s: State, now: Time): set<Id> {
    set id | id in s.queue && s.queue[id] <= now
  }

  /** NextDeferredRelease: the earliest release strictly after now. */
  ghost predicate IsNext(queue: map<Id, Time>, now: Time, next: Option<Time>) {
    match next
    case None => forall id :: id in queue ==> queue[id] <= now
    case Some(x) =>
      && x > now
      && (exists id :: id in queue && queue[id] == x)
      && (forall id :: id in queue && queue[id] > now ==> x <= queue[id])
  }

  ghost predicate Enabled(s: State, e: Event) {
    match e
    case Ticks(to) => s.clock <= to
    case Adds(id, _) => id !in s.queue && id !in s.offered
    case Nudges(id) => id in s.adders
    case Leaves(id) => id in s.queue
    case TimerFires => s.loop == Waiting && s.timer.Armed? && s.timer.fireAt <= s.clock
    case TokenTaken => s.loop == Waiting && s.token
    case Sweeps => s.loop.Arming?
    case SweepFails => s.loop.Arming?
    case ReadsNext(next) => s.loop.Swept? && IsNext(s.queue, s.loop.now, next)
    case ReadFails => s.loop.Swept?
    case Resets => s.loop.Aimed?
    case Backstop => s.loop == Waiting
  }

  function Next(s: State, e: Event): State
    requires s.loop == Waiting || !(e.TimerFires? || e.TokenTaken? || e.Backstop?)
    requires e.Sweeps? || e.SweepFails? ==> s.loop.Arming?
    requires e.ReadsNext? || e.ReadFails? ==> s.loop.Swept?
    requires e.Resets? ==> s.loop.Aimed?
  {
    match e
    case Ticks(to) => s.(clock := to)
    case Adds(id, release) => s.(queue := s.queue[id := release], adders := s.adders + {id})
    case Nudges(id) => s.(adders := s.adders - {id}, token := true)
    case Leaves(id) => s.(queue := s.queue - {id})
    case TimerFires => s.(loop := Arming(s.clock), timer := Stopped)
    case TokenTaken => s.(loop := Arming(s.clock), token := false)
    case Sweeps => s.(loop := Swept(s.loop.now, true), offered := s.offered + DueAt(s, s.loop.now))
    case SweepFails => s.(loop := Swept(s.loop.now, false), gap := true)
    case ReadsNext(next) => s.(loop := Aimed(s.loop.now, next), timer := Stopped, gap := !s.loop.swept)
    case ReadFails => s.(loop := Aimed(s.loop.now, None), timer := Stopped, gap := true)
    case Resets =>
      var sleep := if s.loop.next.Some? then ReleaseSleep(s.loop.now, s.loop.next.value) else IDLE_SLEEP;
      s.(loop := Waiting, timer := Armed(s.clock + sleep, s.clock - s.loop.now))
    case Backstop => s.(offered := s.offered + DueAt(s, s.clock))
  }

  ghost predicate Run(s: State, events: seq<Event>, end: State)
    decreases |events|
  {
    if events == [] then s == end
    else Enabled(s, events[0]) && Run(Next(s, events[0]), events[1..], end)
  }

  // ---------------------------------------------------------------- no wakeup is lost

  /** Something is bound to make the scheduler look at this task: its caller has yet to
      nudge, a wake token waits, an arm pass has yet to read the queue or has read a
      release no later than this one, or the timer is aimed no later than the
      task's release, give or take the time the last arm pass took. */
  predicate Covered(s: State, id: Id)
    requires id in s.queue
  {
    || id in s.adders
    || s.token
    || s.loop.Arming?
    || (s.loop.Swept? && s.loop.now < s.queue[id])
    || (s.loop.Aimed? && s.loop.next.Some? && s.loop.next.value <= s.queue[id])
    || (s.loop.Waiting? && s.timer.Armed? && s.timer.fireAt <= s.queue[id] + s.timer.drift)
  }

  /** A failed store read leaves the scheduler blind until a later arm pass has swept. */
  predicate Blind(s: State) {
    s.gap && !s.loop.Arming? && !(s.loop.Swept? && s.loop.swept)
  }

  predicate Watched(s: State, id: Id) {
    id in s.queue ==> (id in s.offered && s.queue[id] <= s.clock) || Covered(s, id) || Blind(s)
  }

  /** An arm pass works with a past clock reading, and aims only at what lies after it. */
  predicate LoopOk(s: State) {
    && (!s.loop.Waiting? ==> s.loop.now <= s.clock)
    && (s.loop.Aimed? && s.loop.next.Some? ==> s.loop.now < s.loop.next.value)
    && (s.loop.Swept? && !s.loop.swept ==> s.gap)
    && (s.loop.Waiting? ==> s.timer.Armed?)
    && (s.timer.Armed? ==> s.timer.drift >= 0)
  }

  ghost predicate Safe(s: State) {
    LoopOk(s) && forall id :: Watched(s, id)
  }

  lemma StepKeepsWatch(s: State, e: Event, id: Id)
    requires Enabled(s, e) && LoopOk(s) && Watched(s, id)
    ensures LoopOk(Next(s, e)) && Watched(Next(s, e), id)
  {}

  lemma StepKeepsSafe(s: State, e: Event)
    requires Enabled(s, e) && Safe(s)
    ensures Safe(Next(s, e))
  {
    forall id ensures LoopOk(Next(s, e)) && Watched(Next(s, e), id) {
      assert Watched(s, id);
      StepKeepsWatch(s, e, id);
    }
  }

  lemma {:induction false} RunKeepsSafe(s: State, events: seq<Event>, end: State)
    requires Safe(s) && Run(s, events, end)
    ensures Safe(end)
    decreases |events|
  {
    if events != [] {
      var s' := Next(s, events[0]);
      StepKeepsSafe(s, events[0]);
      RunKeepsSafe(s', events[1..], end);
    }
  }

  /** In every run, while no store read of the last arm pass has failed, every queued
      task whose release is still ahead is covered. */
  lemma NoWakeupLost(start: State, events: seq<Event>, end: State, id: Id)
    requires Initial(start) && Run(start, events, end) && !end.gap
    requires id in end.queue && end.clock < end.queue[id]
    ensures Covered(end, id)
  {
    InitialSafe(start);
    RunKeepsSafe(start, events, end);
    assert Watched(end, id);
  }

  lemma InitialSafe(s: State)
    requires Initial(s)
    ensures Safe(s)
  {
    forall id ensures Watched(s, id) {}
  }

  /** While the scheduler sleeps with nothing on its way, a task that no ready scan has
      returned is late by less than the last arm pass took; if the clock stood still
      during that pass, it is not late at all. */
  lemma NeverSleepsPastDue(start: State, events: seq<Event>, end: State, id: Id)
    requires Initial(start) && Run(start, events, end) && !end.gap
    requires end.loop == Waiting && !end.token && end.adders == {}
    requires id in end.queue && id !in end.offered
    ensures end.timer.Armed? && end.timer.fireAt <= end.queue[id] + end.timer.drift
    ensures end.clock < end.timer.fireAt ==> end.clock - end.queue[id] < end.timer.drift
    ensures end.clock < end.timer.fireAt && end.timer.drift == 0 ==> end.clock < end.queue[id]
  {
    InitialSafe(start);
    RunKeepsSafe(start, events, end);
    assert Watched(end, id);
  }

  /** Arming for a task never sets a zero sleep, so an already due task cannot make the loop spin. */
  lemma ArmNeverSpins(start: State, events: seq<Event>, end: State)
    requires Initial(start) && Run(start, events, end)
    requires Enabled(end, Resets)
    ensures end.clock < Next(end, Resets).timer.fireAt
    ensures end.loop.next.Some? ==>
      Next(end, Resets).timer.fireAt == end.loop.next.value + Next(end, Resets).timer.drift
    ensures end.loop.next.None? ==> Next(end, Resets).timer.fireAt == end.clock + 3_600_000_000_000
  {
    InitialSafe(start);
    RunKeepsSafe(start, events, end);
    assert LoopOk(end);
  }

  /** Whatever was missed, failed reads included, the backstop sweep offers every task due by then. */
  lemma BackstopCatchesUp(s: State, id: Id)
    requires Enabled(s, Backstop) && id in s.queue
    ensures s.queue[id] <= s.clock ==> id in Next(s, Backstop).offered
    ensures s.queue[id] > s.clock && id in Next(s, Backstop).offered ==> id in s.offered
  {}

  // ---------------------------------------------------------------- the rest of the bookkeeping

  function Nudged(events: seq<Event>): nat {
    if events == [] then 0 else (if events[0].Nudges? then 1 else 0) + Nudged(events[1..])
  }

  function Woken(events: seq<Event>): nat {
    if events == [] then 0 else (if events[0].TokenTaken? then 1 else 0) + Woken(events[1..])
  }

  /** A nudge wakes the loop at most once: tokens taken, and the one that waits, are no more than nudges given. */
  lemma {:induction false} OneWakePerNudge(s: State, events: seq<Event>, end: State)
    requires Run(s, events, end)
    ensures Woken(events) + (if end.token then 1 else 0) <= Nudged(events) + (if s.token then 1 else 0)
    decreases |events|
  {
    if events != [] {
      OneWakePerNudge(Next(s, events[0]), events[1..], end);
    }
  }

  /** A deferral is in the queue with its release time from its insertion until it leaves. */
  lemma {:induction false} QueuedUntilItLeaves(s: State, events: seq<Event>, end: State, id: Id, release: Time)
    requires Run(s, events, end) && id in s.queue && s.queue[id] == release && Leaves(id) !in events
    ensures id in end.queue && end.queue[id] == release
    decreases |events|
  {
    if events != [] {
      assert events[0] in events;
      QueuedUntilItLeaves(Next(s, events[0]), events[1..], end, id, release);
    }
  }

  lemma AddsAndLeaves(s: State, id: Id, release: Time)
    ensures Enabled(s, Adds(id, release)) ==>
      var s' := Next(s, Adds(id, release)); id in s'.queue && s'.queue[id] == release && id in s'.adders
    ensures Enabled(s, Leaves(id)) ==> id !in Next(s, Leaves(id)).queue
  {}

  /** Only a failed store read makes the scheduler blind. */
  lemma {:induction false} BlindOnlyAfterFailure(s: State, events: seq<Event>, end: State)
    requires Run(s, events, end) && !s.gap && (s.loop.Swept? ==> s.loop.swept)
    requires SweepFails !in events && ReadFails !in events
    ensures !end.gap && (end.loop.Swept? ==> end.loop.swept)
    decreases |events|
  {
    if events != [] {
      assert events[0] in events;
      BlindOnlyAfterFailure(Next(s, events[0]), events[1..], end);
    }
  }

  /** And one arm pass whose reads succeed makes it see again. */
  lemma SeesAgain(s: State, next: Option<Time>)
    requires Enabled(s, Sweeps) && Enabled(Next(s, Sweeps), ReadsNext(next))
    ensures !Next(Next(s, Sweeps), ReadsNext(next)).gap
  {}
}
