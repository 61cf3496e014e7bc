/** The stored online flag of one agent (register, touch and unregister in
    internal/server/hub.go), over any number of overlapping sessions. */
module Sessions {
  import opened Common

  type SessionId = nat

  /** A connection before its hello, in the client map, with its agent row written, and torn down. */
  datatype Phase = Connected | Published | Live | Gone

  /** current is the client map's entry for the agent; online is the flag in the store;
      pending are the sessions that decided to clear it and have yet to do so. The rest
      is history, counted in steps: when each session entered the map, decided, and
      cleared the flag, and when the flag was last set. */
  datatype State = State(
    current: Option<SessionId>,
    online: bool,
    phases: map<SessionId, Phase>,
    pending: set<SessionId>,
    steps: nat,
    published: map<SessionId, nat>,
    decided: map<SessionId, nat>,
    cleared: map<SessionId, nat>,
    lastSet: Option<nat>)

  /** unregister decides under the lock and writes afterwards: Decides and then, unless
      superseded, WritesOffline. Unregisters is both in one step. */
  datatype Event =
    | Connects(s: SessionId)
    | Publishes(s: SessionId)
    | UpsertsOnline(s: SessionId)
    | Touches(s: SessionId)
    | Unregisters(s: SessionId)
    | Decides(s: SessionId)
    | WritesOffline(s: SessionId)

  const START := State(None, false, map[], {}, 0, map[], map[], map[], None)

  function PhaseOf(st: State, s: SessionId): Phase {
    if s in st.phases then st.phases[s] else Gone
  }

  predicate UnderWay(st: State, s: SessionId) { PhaseOf(st, s) == Published || PhaseOf(st, s) == Live }

  predicate Enabled(st: State, e: Event) {
    match e
    case Connects(s) => s !in st.phases
    case Publishes(s) => PhaseOf(st, s) == Connected
    case UpsertsOnline(s) => PhaseOf(st, s) == Published
    case Touches(s) => PhaseOf(st, s) == Live
    case Unregisters(s) => UnderWay(st, s)
    case Decides(s) => UnderWay(st, s)
    case WritesOffline(s) => s in st.pending
  }

  /** The lock section of unregister. */
  function Removed(st: State, s: SessionId): State {
    st.(current := if st.current == Some(s) then None else st.current,
        phases := st.phases[s := Gone],
        decided := st.decided[s := st.steps])
  }

  function SetOnline(st: State): State { st.(online := true, lastSet := Some(st.steps)) }

  function SetOffline(st: State, s: SessionId): State { st.(online := false, cleared := st.cleared[s := st.steps]) }

  function Next(before: State, e: Event): State {
    var st := before.(steps := before.steps + 1);
    match e
    case Connects(s) => st.(phases := st.phases[s := Connected])
    case Publishes(s) =>
      st.(current := Some(s), phases := st.phases[s := Published], published := st.published[s := st.steps])
    case UpsertsOnline(s) => SetOnline(st.(phases := st.phases[s := Live]))
    case Touches(s) => SetOnline(st)
    case Unregisters(s) =>
      var st' := Removed(st, s);
      if st'.current.None? then SetOffline(st', s) else st'
    case Decides(s) =>
      var st' := Removed(st, s);
      if st'.current.None? then st'.(pending := st.pending + {s}) else st'
    case WritesOffline(s) => SetOffline(st.(pending := st.pending - {s}), s)
  }

  predicate Run(st: State, events: seq<Event>, end: State)
    decreases |events|
  {
    if events == [] then st == end
    else Enabled(st, events[0]) && Run(Next(st, events[0]), events[1..], end)
  }

  /** Every session that said hello is torn down, its write included, or is the one in the
      map with its row written. */
  predicate Settled(st: State) {
    && st.pending == {}
    && forall s :: s in st.phases ==>
         || st.phases[s] == Connected
         || st.phases[s] == Gone
         || (st.phases[s] == Live && st.current == Some(s))
  }

  // ---------------------------------------------------------------- exactly when the flag is wrong

  /** Session s decided that its agent had gone, the current session entered the map, only
      then did s clear the flag, and nobody has set it since. */
  predicate LateWrite(st: State, s: SessionId) {
    && st.current.Some? && st.current.value in st.published
    && s in st.decided && s in st.cleared
    && st.decided[s] < st.published[st.current.value] < st.cleared[s]
    && (st.lastSet.Some? ==> st.lastSet.value < st.cleared[s])
  }

  ghost predicate Late(st: State) {
    exists s :: LateWrite(st, s)
  }

  /** Nothing in a session's history lies ahead; a flag cleared after it was last set is down. */
  predicate HistoryAt(st: State, s: SessionId) {
    && (s in st.published ==> st.published[s] <= st.steps)
    && (s in st.decided ==> st.decided[s] <= st.steps && s in st.phases && st.phases[s] == Gone)
    && (s in st.cleared ==> st.cleared[s] <= st.steps)
    && (s in st.cleared && (st.lastSet.None? || st.lastSet.value < st.cleared[s]) ==> !st.online)
  }

  ghost predicate HistoryOk(st: State) {
    (st.lastSet.Some? ==> st.lastSet.value <= st.steps) && forall s :: HistoryAt(st, s)
  }

  /** Whoever still has to write decided, and did so before the map's session came. */
  predicate PendingAt(st: State, s: SessionId) {
    s in st.pending ==>
      && s in st.decided
      && (st.current.Some? ==>
            st.current.value in st.published && st.decided[s] < st.published[st.current.value])
  }

  ghost predicate CurrentOk(st: State) {
    && (st.current.Some? ==> UnderWay(st, st.current.value) && st.current.value in st.published)
    && forall s :: PendingAt(st, s)
  }

  /** A live session in the map is online or was written over late; and an agent is online
      without one only while an older session is under way or has yet to write. */
  ghost predicate FlagOk(st: State) {
    && (st.current.Some? && PhaseOf(st, st.current.value) == Live && !st.online ==> Late(st))
    && (st.current.None? && st.online ==> st.pending != {} || exists s :: UnderWay(st, s))
  }

  ghost predicate Inv(st: State) {
    HistoryOk(st) && CurrentOk(st) && FlagOk(st)
  }

  lemma FlagStepKeepsHistoryAt(st: State, e: Event, s: SessionId)
    requires Enabled(st, e) && HistoryAt(st, s) && (st.lastSet.Some? ==> st.lastSet.value <= st.steps)
    requires e.UpsertsOnline? || e.Touches? || e.WritesOffline?
    ensures HistoryAt(Next(st, e), s)
  {
    match e
    case UpsertsOnline(x) =>
    case Touches(x) =>
    case WritesOffline(x) =>
  }

  lemma LeavingKeepsHistoryAt(st: State, e: Event, s: SessionId)
    requires Enabled(st, e) && HistoryAt(st, s) && (st.lastSet.Some? ==> st.lastSet.value <= st.steps)
    requires e.Unregisters? || e.Decides?
    ensures HistoryAt(Next(st, e), s)
  {}

  lemma StepKeepsHistoryAt(st: State, e: Event, s: SessionId)
    requires Enabled(st, e) && HistoryAt(st, s) && (st.lastSet.Some? ==> st.lastSet.value <= st.steps)
    ensures HistoryAt(Next(st, e), s)
  {
    match e
    case Connects(x) =>
    case Publishes(x) =>
    case Unregisters(x) => LeavingKeepsHistoryAt(st, e, s);
    case Decides(x) => LeavingKeepsHistoryAt(st, e, s);
    case _ => FlagStepKeepsHistoryAt(st, e, s);
  }

  lemma StepKeepsHistory(st: State, e: Event)
    requires Enabled(st, e) && HistoryOk(st)
    ensures HistoryOk(Next(st, e))
  {
    forall s ensures HistoryAt(Next(st, e), s) {
      StepKeepsHistoryAt(st, e, s);
    }
  }

  lemma StepKeepsCurrent(st: State, e: Event)
    requires Enabled(st, e) && HistoryOk(st) && CurrentOk(st)
    ensures CurrentOk(Next(st, e))
  {
    forall s ensures PendingAt(Next(st, e), s) {
      assert PendingAt(st, s) && HistoryAt(st, s);
    }
  }

  /** A late write stays one until the flag is set or the map changes. */
  lemma LateStays(st: State, e: Event)
    requires Enabled(st, e) && Inv(st) && Late(st)
    requires Next(st, e).current == st.current && Next(st, e).lastSet == st.lastSet
    ensures Late(Next(st, e))
  {
    var s :| LateWrite(st, s);
    assert HistoryAt(st, s);
    assert LateWrite(Next(st, e), s);
  }

  lemma WriteIsLate(st: State, s: SessionId)
    requires Inv(st) && s in st.pending && st.current.Some?
    ensures Late(Next(st, WritesOffline(s)))
  {
    assert PendingAt(st, s) && HistoryAt(st, st.current.value);
    assert LateWrite(Next(st, WritesOffline(s)), s);
  }

  lemma StepKeepsFlag(st: State, e: Event)
    requires Enabled(st, e) && Inv(st)
    ensures FlagOk(Next(st, e))
  {
    var st' := Next(st, e);
    if st'.current.Some? && PhaseOf(st', st'.current.value) == Live && !st'.online {
      if e.WritesOffline? {
        WriteIsLate(st, e.s);
      } else {
        LateStays(st, e);
      }
    }
    if st'.current.None? && st'.online {
      if e.UpsertsOnline? || e.Touches? {
        assert UnderWay(st', e.s);
      } else if st.pending == {} && !e.Decides? {
        var s :| UnderWay(st, s);
        assert UnderWay(st', s);
      }
    }
  }

  lemma {:induction false} RunKeepsInv(st: State, events: seq<Event>, end: State)
    requires Inv(st) && Run(st, events, end)
    ensures Inv(end)
    decreases |events|
  {
    if events != [] {
      StepKeepsHistory(st, events[0]);
      StepKeepsCurrent(st, events[0]);
      StepKeepsFlag(st, events[0]);
      RunKeepsInv(Next(st, events[0]), events[1..], end);
    }
  }

  /** However the sessions of one agent overlap, and however far apart their decisions and
      writes lie: once all is settled, the stored flag is wrong exactly when a session
      that decided before the current one entered the map wrote afterwards, and
      nothing has set the flag since. Without a current session it is never wrong. */
  lemma OnlineFlagExactly(events: seq<Event>, end: State)
    requires Run(START, events, end) && Settled(end)
    ensures (end.online <==> end.current.Some?) <==> !Late(end)
    ensures end.current.None? ==> !end.online
  {
    RunKeepsInv(START, events, end);
    assert forall s :: UnderWay(end, s) ==> s in end.phases;
    if Late(end) {
      var s :| LateWrite(end, s);
      assert HistoryAt(end, s);
    }
  }

  /** Any session that touches its agent puts the flag right, late writes or not. */
  lemma TouchRepairs(events: seq<Event>, st: State, s: SessionId)
    requires Run(START, events, st) && Enabled(st, Touches(s))
    ensures Next(st, Touches(s)).online && !Late(Next(st, Touches(s)))
  {
    RunKeepsInv(START, events, st);
    forall x ensures !LateWrite(Next(st, Touches(s)), x) {
      assert HistoryAt(st, x);
    }
  }

  // ---------------------------------------------------------------- whose entry the map has

  /** No session entered the map after s. */
  predicate Newest(st: State, s: SessionId) {
    s in st.published && forall x :: x in st.published ==> st.published[x] <= st.published[s]
  }

  /** Who is under way entered the map, and the one in it is the newest of those. */
  predicate MapAt(st: State, s: SessionId) {
    && (s in st.published ==> st.published[s] <= st.steps && s in st.phases && st.phases[s] != Connected)
    && (UnderWay(st, s) ==> s in st.published)
    && (st.current == Some(s) <==> UnderWay(st, s) && Newest(st, s))
  }

  ghost predicate MapOk(st: State) {
    forall s: SessionId :: MapAt(st, s)
  }

  /** A session that enters is newer than all before it. */
  lemma EnteringKeepsMap(st: State, n: SessionId, s: SessionId)
    requires Enabled(st, Publishes(n)) && MapOk(st)
    ensures MapAt(Next(st, Publishes(n)), s)
  {
    var st' := Next(st, Publishes(n));
    assert MapAt(st, s) && MapAt(st, n);
    forall x | x in st.published ensures st.published[x] <= st.steps {
      assert MapAt(st, x);
    }
    assert n in st'.published && st'.published[n] == st'.steps;
  }

  lemma OtherStepKeepsMap(st: State, e: Event, s: SessionId)
    requires Enabled(st, e) && !e.Publishes? && MapAt(st, s) && MapAt(st, e.s)
    ensures MapAt(Next(st, e), s)
  {
    assert Next(st, e).published == st.published;
    assert Newest(Next(st, e), s) == Newest(st, s);
  }

  lemma StepKeepsMap(st: State, e: Event)
    requires Enabled(st, e) && MapOk(st)
    ensures MapOk(Next(st, e))
  {
    forall s: SessionId ensures MapAt(Next(st, e), s) {
      if e.Publishes? {
        EnteringKeepsMap(st, e.s, s);
      } else {
        assert MapAt(st, s) && MapAt(st, e.s);
        OtherStepKeepsMap(st, e, s);
      }
    }
  }

  lemma {:induction false} RunKeepsMap(st: State, events: seq<Event>, end: State)
    requires MapOk(st) && Run(st, events, end)
    ensures MapOk(end)
    decreases |events|
  {
    if events != [] {
      StepKeepsMap(st, events[0]);
      RunKeepsMap(Next(st, events[0]), events[1..], end);
    }
  }

  /** In every run, the map's entry is the session that entered it last, exactly as long as
      that session is not torn down: no other teardown takes it out. */
  lemma NewestIsCurrent(events: seq<Event>, end: State, s: SessionId)
    requires Run(START, events, end)
    ensures end.current == Some(s) <==> UnderWay(end, s) && Newest(end, s)
  {
    RunKeepsMap(START, events, end);
    assert MapAt(end, s);
  }

  // ---------------------------------------------------------------- unregister in one step

  predicate Whole(events: seq<Event>) {
    forall i :: 0 <= i < |events| ==> !events[i].Decides? && !events[i].WritesOffline?
  }

  /** Whoever cleared the flag did so at the moment of deciding. */
  predicate AtOnce(st: State) {
    st.pending == {} && forall s :: s in st.cleared ==> s in st.decided && st.decided[s] == st.cleared[s]
  }

  lemma WholeStepAtOnce(st: State, e: Event)
    requires HistoryOk(st) && AtOnce(st) && Enabled(st, e) && !e.Decides? && !e.WritesOffline?
    ensures AtOnce(Next(st, e))
  {
    var st' := Next(st, e);
    forall s | s in st'.cleared ensures s in st'.decided && st'.decided[s] == st'.cleared[s] {
      assert HistoryAt(st, s);
    }
  }

  lemma {:induction false} WholeRunAtOnce(st: State, events: seq<Event>, end: State)
    requires HistoryOk(st) && AtOnce(st) && Whole(events) && Run(st, events, end)
    ensures AtOnce(end)
    decreases |events|
  {
    if events != [] {
      assert !events[0].Decides? && !events[0].WritesOffline?;
      assert forall i :: 0 <= i < |events[1..]| ==> events[1..][i] == events[i + 1];
      StepKeepsHistory(st, events[0]);
      WholeStepAtOnce(st, events[0]);
      WholeRunAtOnce(Next(st, events[0]), events[1..], end);
    }
  }

  /** With unregister's decision and write in one step, the stored flag is true exactly
      when the agent is in the client map. */
  lemma OnlineFlagSettles(events: seq<Event>, end: State)
    requires Run(START, events, end) && Whole(events) && Settled(end)
    ensures end.online <==> end.current.Some?
  {
    WholeRunAtOnce(START, events, end);
    OnlineFlagExactly(events, end);
  }

  // ---------------------------------------------------------------- a run that ends wrong

  /** With the decision and the write apart, a reconnect in between is marked offline for
      as long as nothing touches it. */
  lemma SplitUnregisterMarksLiveAgentOffline(a: SessionId, b: SessionId) returns (end: State)
    requires a != b
    ensures Run(START, [Connects(a), Publishes(a), UpsertsOnline(a), Decides(a)]
                     + [Connects(b), Publishes(b), UpsertsOnline(b), WritesOffline(a)], end)
    ensures Settled(end) && end.current == Some(b) && !end.online
  {
    var mid := FourSteps(START, Connects(a), Publishes(a), UpsertsOnline(a), Decides(a));
    end := FourSteps(mid, Connects(b), Publishes(b), UpsertsOnline(b), WritesOffline(a));
    Concat(START, [Connects(a), Publishes(a), UpsertsOnline(a), Decides(a)], mid,
           [Connects(b), Publishes(b), UpsertsOnline(b), WritesOffline(a)], end);
  }

  lemma FourSteps(st: State, e1: Event, e2: Event, e3: Event, e4: Event) returns (end: State)
    requires Enabled(st, e1) && Enabled(Next(st, e1), e2) && Enabled(Next(Next(st, e1), e2), e3)
    requires Enabled(Next(Next(Next(st, e1), e2), e3), e4)
    ensures end == Next(Next(Next(Next(st, e1), e2), e3), e4) && Run(st, [e1, e2, e3, e4], end)
  {
    end := Next(Next(Next(Next(st, e1), e2), e3), e4);
    var one, two, three := Next(st, e1), Next(Next(st, e1), e2), Next(Next(Next(st, e1), e2), e3);
    assert [e4][1..] == [] && Run(three, [e4], end);
    assert [e3, e4][1..] == [e4] && Run(two, [e3, e4], end);
    assert [e2, e3, e4][1..] == [e3, e4] && Run(one, [e2, e3, e4], end);
    assert [e1, e2, e3, e4][1..] == [e2, e3, e4];
  }

  lemma {:induction false} Concat(st: State, xs: seq<Event>, mid: State, ys: seq<Event>, end: State)
    requires Run(st, xs, mid) && Run(mid, ys, end)
    ensures Run(st, xs + ys, end)
    decreases |xs|
  {
    if xs == [] {
      assert xs + ys == ys;
    } else {
      assert (xs + ys)[0] == xs[0] && (xs + ys)[1..] == xs[1..] + ys;
      Concat(Next(st, xs[0]), xs[1..], mid, ys, end);
    }
  }
}
