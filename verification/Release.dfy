/** What the release sweep promises (dispatchReadyTasks in internal/server/hub.go): every
    deferred task whose time has come is dealt with, nobody's task is stranded behind it,
    and what was sent leaves the queue. */
module Release {
  import opened Common
  import opened Dispatch

  // ---------------------------------------------------------------- every due task is dealt with

  /** The sweep has id before it: on its list, or in hand. */
  predicate OnList(w: SweepPc, id: Id) {
    match w
    case Idle => false
    case Sweeping(todo) => id in todo
    case SweepHolding(x, _, todo) => x == id || id in todo
    case SweepMarking(_, todo) => id in todo
  }

  /** The sweep put id on a connection of its own agent. */
  ghost predicate SentBySweep(s: State, e: Event, id: Id, sid: SessionId) {
    && e == Sweeper(SweepSends) && s.sweep.SweepHolding? && s.sweep.id == id
    && Belongs(s, id, sid) && Enabled(s, e) && Next(s, e).log == s.log + {Delivery(id, sid, s.clock)}
  }

  /** The sweep looked for a session of id's agent, and there was none. */
  predicate FoundOffline(s: State, e: Event, id: Id) {
    e == Sweeper(SweepLooksUp(id)) && id in s.creations && s.creations[id].agent !in s.clients
  }

  /** The send failed, on a connection of id's agent that is going away. */
  predicate SendFailed(s: State, e: Event, id: Id, sid: SessionId) {
    && e == Sweeper(SweepSendFails) && s.sweep.SweepHolding? && s.sweep.id == id && s.sweep.session == sid
    && Belongs(s, id, sid) && sid in s.closing
  }

  ghost predicate DealtWith(s: State, e: Event, id: Id) {
    FoundOffline(s, e, id) || exists sid :: SentBySweep(s, e, id, sid) || SendFailed(s, e, id, sid)
  }

  /** At some step of the run. */
  ghost predicate DealtWithDuring(s: State, events: seq<Event>, id: Id)
    decreases |events|
  {
    events != [] && Enabled(s, events[0])
    && (DealtWith(s, events[0], id) || DealtWithDuring(Next(s, events[0]), events[1..], id))
  }

  lemma SweepStepDeals(s: State, e: Event, id: Id)
    requires Timely(s) && Enabled(s, e) && OnList(s.sweep, id)
    ensures DealtWith(s, e, id) || OnList(Next(s, e).sweep, id)
  {
    if e.Sweeper? && s.sweep.SweepHolding? && s.sweep.id == id {
      if e.w.SweepSends? {
        assert SentBySweep(s, e, id, s.sweep.session);
      } else if e.w.SweepSendFails? {
        assert SendFailed(s, e, id, s.sweep.session);
      }
    }
  }

  lemma {:induction false} SweepDealsWithList(s: State, events: seq<Event>, end: State, id: Id)
    requires Timely(s) && Run(s, events, end) && OnList(s.sweep, id) && end.sweep == Idle
    ensures DealtWithDuring(s, events, id)
    decreases |events|
  {
    if events != [] {
      SweepStepDeals(s, events[0], id);
      StepKeepsTimely(s, events[0]);
      if !DealtWith(s, events[0], id) {
        SweepDealsWithList(Next(s, events[0]), events[1..], end, id);
      }
    }
  }

  /** A sweep that reads in state s, amid anything else, deals before its end with every task
      queued in s whose release time has come: it puts the task on a connection of its own
      agent, finds that agent offline, or fails to send on a connection going away. */
  lemma SweepReleasesDue(before: seq<Event>, s: State, during: seq<Event>, end: State, id: Id)
    requires Run(START, before, s) && s.sweep == Idle
    requires id in s.rows && s.rows[id].state == Queued
    requires s.rows[id].release.Some? && s.rows[id].release.value <= s.clock
    requires Run(Next(s, Sweeper(SweepReads)), during, end) && end.sweep == Idle
    ensures DealtWithDuring(Next(s, Sweeper(SweepReads)), during, id)
  {
    RunKeepsTimely(START, before, s);
    StepKeepsTimely(s, Sweeper(SweepReads));
    SweepDealsWithList(Next(s, Sweeper(SweepReads)), during, end, id);
  }

  // ---------------------------------------------------------------- no deferred task is stranded

  /** The sweep will come to id, with a session that is still the current one. */
  predicate SweepHas(s: State, id: Id) {
    match s.sweep
    case Idle => false
    case Sweeping(todo) => id in todo
    case SweepHolding(x, sid, todo) =>
      id in todo || (x == id && id in s.creations && s.creations[id].agent in s.clients
                     && s.clients[s.creations[id].agent] == sid)
    case SweepMarking(_, todo) => id in todo
  }

  predicate Had(s: State, id: Id)
    requires id in s.creations && ClientOk(s, s.creations[id].agent)
  {
    SweepHas(s, id) || ConnectionHas(s, id)
  }

  /** A task whose time has come and whose creator is done: delivered or canceled, or still
      queued with the sweep or the connection side about to come to it. */
  ghost predicate Released(s: State, id: Id) {
    && Due(s, id) && s.creations[id].pc == Finished && ClientOk(s, s.creations[id].agent)
    && (Delivered(s, id) || id in s.canceled || (id in s.rows && s.rows[id].state == Queued && Had(s, id)))
  }

  lemma LifecycleKeepsReleased(s: State, sid: SessionId, k: SessionStep, id: Id)
    requires Accounted(s) && SessionEnabled(s, sid, k) && (k.Publishes? || k.Dies? || k.Unregisters?)
    requires Released(s, id) && (Delivered(s, id) ==> Delivered(SessionNext(s, sid, k), id))
    ensures Released(SessionNext(s, sid, k), id)
  {
    ConnectionKeepsClient(s, sid, k, s.creations[id].agent);
  }

  lemma ReplayKeepsReleased(s: State, sid: SessionId, k: SessionStep, id: Id)
    requires Accounted(s) && SessionEnabled(s, sid, k) && !(k.Publishes? || k.Dies? || k.Unregisters?)
    requires Released(s, id) && (Delivered(s, id) ==> Delivered(SessionNext(s, sid, k), id))
    requires k.Replays? ==> Delivered(SessionNext(s, sid, k), k.id)
    ensures Released(SessionNext(s, sid, k), id)
  {
    ConnectionKeepsClient(s, sid, k, s.creations[id].agent);
    assert RowOk(s, id);
  }

  lemma SweeperKeepsReleased(s: State, w: SweepStep, id: Id)
    requires Accounted(s) && SweepEnabled(s, w) && Released(s, id)
    requires Delivered(s, id) ==> Delivered(SweepNext(s, w), id)
    requires w.SweepSends? ==> Delivered(SweepNext(s, w), s.sweep.id)
    ensures Released(SweepNext(s, w), id)
  {}

  lemma CreatorKeepsReleased(s: State, i: Id, c: CreatorStep, id: Id)
    requires Accounted(s) && CreatorEnabled(s, i, c) && Released(s, id)
    requires Delivered(s, id) ==> Delivered(CreatorNext(s, i, c), id)
    ensures Released(CreatorNext(s, i, c), id)
  {}

  lemma RowStepKeepsReleased(s: State, i: Id, r: RowStep, id: Id)
    requires Accounted(s) && RowEnabled(s, i, r) && Released(s, id)
    requires Delivered(s, id) ==> Delivered(RowNext(s, i, r), id)
    ensures Released(RowNext(s, i, r), id)
  {}

  lemma StepKeepsReleased(s: State, e: Event, id: Id)
    requires Enabled(s, e) && Accounted(s) && Released(s, id)
    ensures Released(Next(s, e), id)
  {
    SendDelivers(s, e);
    if Delivered(s, id) {
      DeliveredStays(s, e, id);
    }
    match e
    case Ticks(to) =>
    case Creator(i, c) => CreatorKeepsReleased(s, i, c, id);
    case Connection(sid, k) =>
      if k.Publishes? || k.Dies? || k.Unregisters? {
        LifecycleKeepsReleased(s, sid, k, id);
      } else {
        ReplayKeepsReleased(s, sid, k, id);
      }
    case Sweeper(w) => SweeperKeepsReleased(s, w, id);
    case OnRow(i, r) => RowStepKeepsReleased(s, i, r, id);
  }

  lemma {:induction false} RunKeepsReleased(s: State, events: seq<Event>, end: State, id: Id)
    requires Accounted(s) && Run(s, events, end) && Released(s, id)
    ensures Accounted(end) && Released(end, id)
    decreases |events|
  {
    if events != [] {
      StepKeepsAccounts(s, events[0]);
      StepKeepsReleased(s, events[0], id);
      RunKeepsReleased(Next(s, events[0]), events[1..], end, id);
    }
  }

  /** Sent to its own agent, or canceled. */
  ghost predicate Settled(s: State, id: Id) {
    id in s.canceled || exists d :: d in s.log && d.id == id && Belongs(s, id, d.session)
  }

  lemma QuietMeansSettled(s: State, id: Id)
    requires Accounted(s) && Released(s, id) && Quiet(s) && s.sweep == Idle && s.creations[id].agent in s.clients
    ensures Settled(s, id)
  {
    if Delivered(s, id) {
      var d :| d in s.log && d.id == id;
      assert OnTime(s, d);
    }
  }

  /** The sweep reads while id's row is in, its creator is done and its time has come. */
  ghost predicate SweepReadsPast(s: State, id: Id) {
    s.sweep == Idle && Due(s, id) && s.creations[id].pc == Finished
  }

  /** A sweep's read takes hold of every task still waiting: after it, a due task is released
      exactly when it is settled or its row is queued with its release time still on it, or
      the connection side has it anyway. */
  lemma ReadTakesHold(s: State, id: Id)
    requires Accounted(s) && SweepReadsPast(s, id)
    ensures Released(Next(s, Sweeper(SweepReads)), id) <==>
      || Delivered(s, id) || id in s.canceled
      || (id in s.rows && s.rows[id].state == Queued && (s.rows[id].release.Some? || ConnectionHas(s, id)))
  {
    var s' := Next(s, Sweeper(SweepReads));
    assert ClientOk(s, s.creations[id].agent) && RowOk(s, id);
    assert Delivered(s', id) <==> Delivered(s, id) by {
      assert s'.log == s.log;
    }
  }

  /** Deferred tasks are not stranded either: if a sweep reads while a deferred task waits
      past its release time, then once everything has finished the task has been put on a
      connection of its own agent, unless it was canceled or the agent is offline. */
  lemma NoDeferredTaskStranded(before: seq<Event>, s: State, rest: seq<Event>, end: State, id: Id)
    requires Run(START, before, s) && SweepReadsPast(s, id)
    requires id in s.rows && s.rows[id].state == Queued && s.rows[id].release.Some?
    requires Run(Next(s, Sweeper(SweepReads)), rest, end) && Quiet(end) && end.sweep == Idle
    requires id in end.creations && end.creations[id].agent in end.clients
    ensures Settled(end, id)
  {
    RunKeepsAccounts(START, before, s);
    ReadTakesHold(s, id);
    StepKeepsAccounts(s, Sweeper(SweepReads));
    RunKeepsReleased(Next(s, Sweeper(SweepReads)), rest, end, id);
    QuietMeansSettled(end, id);
  }

  // ---------------------------------------------------------------- the one way to be stranded

  /** A task neither sent nor canceled is still queued, with its own release time unless a
      failed replay has given it back. */
  ghost predicate Kept(s: State, id: Id) {
    && (Born(s, id) && !Delivered(s, id) && id !in s.canceled ==> id in s.rows && s.rows[id].state == Queued)
    && (id in s.rows ==>
          id in s.creations && (s.rows[id].release == s.creations[id].release || id in s.requeued))
  }

  lemma CreatorKeepsKept(s: State, i: Id, c: CreatorStep, id: Id)
    requires Accounted(s) && CreatorEnabled(s, i, c) && Kept(s, id)
    requires Delivered(s, id) ==> Delivered(CreatorNext(s, i, c), id)
    ensures Kept(CreatorNext(s, i, c), id)
  {
    assert RowOk(s, id);
  }

  lemma ConnectionKeepsKept(s: State, sid: SessionId, k: SessionStep, id: Id)
    requires Accounted(s) && SessionEnabled(s, sid, k) && Kept(s, id)
    requires Delivered(s, id) ==> Delivered(SessionNext(s, sid, k), id)
    ensures Kept(SessionNext(s, sid, k), id)
  {
    assert RowOk(s, id) && SessionOk(s, sid);
  }

  lemma SweeperKeepsKept(s: State, w: SweepStep, id: Id)
    requires Accounted(s) && SweepEnabled(s, w) && Kept(s, id)
    requires Delivered(s, id) ==> Delivered(SweepNext(s, w), id)
    ensures Kept(SweepNext(s, w), id)
  {}

  lemma RowStepKeepsKept(s: State, i: Id, r: RowStep, id: Id)
    requires Accounted(s) && RowEnabled(s, i, r) && Kept(s, id)
    requires Delivered(s, id) ==> Delivered(RowNext(s, i, r), id)
    ensures Kept(RowNext(s, i, r), id)
  {}

  lemma StepKeepsKept(s: State, e: Event, id: Id)
    requires Enabled(s, e) && Accounted(s) && Kept(s, id)
    ensures Kept(Next(s, e), id)
  {
    if Delivered(s, id) {
      DeliveredStays(s, e, id);
    }
    match e
    case Ticks(to) =>
    case Creator(i, c) => CreatorKeepsKept(s, i, c, id);
    case Connection(sid, k) => ConnectionKeepsKept(s, sid, k, id);
    case Sweeper(w) => SweeperKeepsKept(s, w, id);
    case OnRow(i, r) => RowStepKeepsKept(s, i, r, id);
  }

  lemma {:induction false} RunKeepsKept(s: State, events: seq<Event>, end: State, id: Id)
    requires Accounted(s) && Run(s, events, end) && Kept(s, id)
    ensures Kept(end, id)
    decreases |events|
  {
    if events != [] {
      StepKeepsAccounts(s, events[0]);
      StepKeepsKept(s, events[0], id);
      RunKeepsKept(Next(s, events[0]), events[1..], end, id);
    }
  }

  /** A deferred task of an agent that is online, left unsent though a sweep has read past its
      release time and everything has finished, had been given back by a failed replay
      before that read, which took its release time away, while its agent's current session
      was past its own read of the queue. */
  lemma StrandedOnlyByRequeue(before: seq<Event>, s: State, rest: seq<Event>, end: State, id: Id)
    requires Run(START, before, s) && SweepReadsPast(s, id) && s.creations[id].release.Some?
    requires Run(Next(s, Sweeper(SweepReads)), rest, end) && Quiet(end) && end.sweep == Idle
    requires id in end.creations && end.creations[id].agent in end.clients && !Settled(end, id)
    ensures id in s.requeued && id in s.rows && s.rows[id].release.None?
    ensures ClientOk(s, s.creations[id].agent) && !ConnectionHas(s, id)
  {
    RunKeepsAccounts(START, before, s);
    RunKeepsKept(START, before, s, id);
    StepKeepsAccounts(s, Sweeper(SweepReads));
    ReadTakesHold(s, id);
    assert RowOk(s, id) && ClientOk(s, s.creations[id].agent);
    if Released(Next(s, Sweeper(SweepReads)), id) {
      RunKeepsReleased(Next(s, Sweeper(SweepReads)), rest, end, id);
      QuietMeansSettled(end, id);
    }
  }

  // A run that strands a task: two sessions of an agent overlap, the newer one reads the queue
  // before the task is due and the older one after, and the older one's connection dies.

  lemma {:induction false} Append(s: State, events: seq<Event>, mid: State, e: Event)
    requires Run(s, events, mid) && Enabled(mid, e)
    ensures Run(s, events + [e], Next(mid, e))
    decreases |events|
  {
    if events == [] {
      assert (events + [e])[0] == e && (events + [e])[1..] == [];
    } else {
      assert (events + [e])[0] == events[0] && (events + [e])[1..] == events[1..] + [e];
      Append(Next(s, events[0]), events[1..], mid, e);
    }
  }

  /** A state some run reaches. */
  ghost predicate Reachable(s: State) {
    exists events :: Run(START, events, s)
  }

  lemma Then(s: State, e: Event)
    requires Reachable(s) && Enabled(s, e)
    ensures Reachable(Next(s, e))
  {
    var events :| Run(START, events, s);
    Append(START, events, s, e);
  }

  function Two(one: SessionPc, two: SessionPc): map<SessionId, Session> {
    map[1 := Session(7, one), 2 := Session(7, two)]
  }

  /** Session 1 and then session 2 of agent 7 enter the map. */
  lemma BothConnect() returns (s: State)
    ensures Reachable(s) && s == START.(sessions := Two(Published, Published), clients := map[7 := 2])
  {
    assert Run(START, [], START);
    var one := START.(sessions := map[1 := Session(7, Published)], clients := map[7 := 1]);
    assert Next(START, Connection(1, Publishes(7))) == one;
    Then(START, Connection(1, Publishes(7)));
    s := START.(sessions := Two(Published, Published), clients := map[7 := 2]);
    assert Next(one, Connection(2, Publishes(7))) == s;
    Then(one, Connection(2, Publishes(7)));
  }

  /** Session 2 reads an empty queue and serves. */
  lemma NewSessionServes(s: State) returns (s': State)
    requires Reachable(s) && s == START.(sessions := Two(Published, Published), clients := map[7 := 2])
    ensures Reachable(s') && s' == s.(sessions := Two(Published, Serving))
  {
    var read := s.(sessions := Two(Published, Replaying({})));
    assert PendingTasks(s, 7) == {} && Next(s, Connection(2, Reads)) == read;
    Then(s, Connection(2, Reads));
    s' := s.(sessions := Two(Published, Serving));
    assert Next(read, Connection(2, ReplayEnds)) == s';
    Then(read, Connection(2, ReplayEnds));
  }

  const TASK := Creation(7, Some(5), true, Finished)

  /** A task of that agent is deferred to time 5, and its time comes. */
  lemma TaskComesDue(s: State) returns (s': State)
    requires Reachable(s) && s == START.(sessions := Two(Published, Serving), clients := map[7 := 2])
    ensures Reachable(s')
    ensures s' == s.(clock := 5, creations := map[0 := TASK], rows := map[0 := Row(7, Queued, Some(5))])
  {
    var one := s.(creations := map[0 := TASK.(pc := Checked)]);
    assert Next(s, Creator(0, Creates(7, Some(5)))) == one;
    Then(s, Creator(0, Creates(7, Some(5))));
    var two := s.(creations := map[0 := TASK], rows := map[0 := Row(7, Queued, Some(5))]);
    assert Next(one, Creator(0, Inserts)) == two;
    Then(one, Creator(0, Inserts));
    s' := two.(clock := 5);
    Then(two, Ticks(5));
  }

  predicate Before(s: State) {
    && s.clients == map[7 := 2] && s.clock == 5 && s.creations == map[0 := TASK] && s.sweep == Idle
    && s.log == {} && s.canceled == {}
  }

  /** Session 1 reads the task. */
  lemma OldSessionReads(s: State) returns (s': State)
    requires Reachable(s) && Before(s) && s.sessions == Two(Published, Serving)
    requires s.rows == map[0 := Row(7, Queued, Some(5))]
    ensures Reachable(s') && s' == s.(sessions := Two(Replaying({0}), Serving))
  {
    s' := s.(sessions := Two(Replaying({0}), Serving));
    assert PendingTasks(s, 7) == {0} && Next(s, Connection(1, Reads)) == s';
    Then(s, Connection(1, Reads));
  }

  /** Its connection dies, and it fails to send the task. */
  lemma OldSessionFails(s: State) returns (s': State)
    requires Reachable(s) && Before(s) && s.sessions == Two(Replaying({0}), Serving) && s.closing == {}
    ensures Reachable(s') && s' == s.(sessions := Two(Requeueing({0}), Serving), closing := {1})
  {
    var one := s.(closing := {1});
    assert Next(s, Connection(1, Dies)) == one;
    Then(s, Connection(1, Dies));
    s' := s.(sessions := Two(Requeueing({0}), Serving), closing := {1});
    assert Next(one, Connection(1, ReplayFails)) == s';
    Then(one, Connection(1, ReplayFails));
  }

  /** It gives the task back without its release time. */
  lemma OldSessionGivesBack(s: State) returns (s': State)
    requires Reachable(s) && Before(s) && s.sessions == Two(Requeueing({0}), Serving)
    requires s.rows == map[0 := Row(7, Queued, Some(5))] && s.requeued == {}
    ensures Reachable(s')
    ensures s' == s.(sessions := Two(Requeueing({}), Serving), rows := map[0 := Row(7, Queued, None)], requeued := {0})
  {
    s' := s.(sessions := Two(Requeueing({}), Serving), rows := map[0 := Row(7, Queued, None)], requeued := {0});
    var next := Next(s, Connection(1, Requeues(0)));
    assert s.sessions[1].pc.todo - {0} == {} && next.sessions == s'.sessions;
    assert next.rows == s'.rows && next.requeued == s'.requeued && next == s';
    Then(s, Connection(1, Requeues(0)));
  }

  /** And is gone. */
  lemma OldSessionEnds(s: State) returns (s': State)
    requires Reachable(s) && Before(s) && s.sessions == Two(Requeueing({}), Serving)
    ensures Reachable(s') && s' == s.(sessions := Two(Ended, Serving))
  {
    s' := s.(sessions := Two(Ended, Serving));
    assert Next(s, Connection(1, Unregisters)) == s';
    Then(s, Connection(1, Unregisters));
  }

  lemma DueBehindSessionTwo() returns (s: State)
    ensures Reachable(s) && Before(s) && s.sessions == Two(Published, Serving)
    ensures s.rows == map[0 := Row(7, Queued, Some(5))] && s.closing == {} && s.requeued == {}
  {
    var s1 := BothConnect();
    var s2 := NewSessionServes(s1);
    s := TaskComesDue(s2);
  }

  lemma GivenBack(s: State) returns (s': State)
    requires Reachable(s) && Before(s) && s.sessions == Two(Published, Serving)
    requires s.rows == map[0 := Row(7, Queued, Some(5))] && s.closing == {} && s.requeued == {}
    ensures Reachable(s') && Before(s') && s'.sessions == Two(Ended, Serving)
    ensures s'.rows == map[0 := Row(7, Queued, None)] && s'.closing == {1}
  {
    var s1 := OldSessionReads(s);
    var s2 := OldSessionFails(s1);
    var s3 := OldSessionGivesBack(s2);
    s' := OldSessionEnds(s3);
  }

  lemma SweepSkips(s: State) returns (end: State)
    requires Before(s) && s.rows == map[0 := Row(7, Queued, None)]
    ensures Run(Next(s, Sweeper(SweepReads)), [Sweeper(SweepEnds)], end) && end == s
  {
    end := s;
    assert ReadyQueuedTasks(s) == {} && Next(s, Sweeper(SweepReads)) == s.(sweep := Sweeping({}));
    assert [Sweeper(SweepEnds)][1..] == [];
  }

  /** Everything has finished, a sweep has read and ended after the task came due, its agent is
      online, and yet the task lies in the queue unsent. */
  lemma RequeueStrandsTask() returns (events: seq<Event>, s: State, end: State)
    ensures Run(START, events, s) && SweepReadsPast(s, 0) && s.creations[0].deferred
    ensures Run(Next(s, Sweeper(SweepReads)), [Sweeper(SweepEnds)], end) && Quiet(end) && end.sweep == Idle
    ensures 0 in end.creations && end.creations[0].agent in end.clients
    ensures 0 in end.rows && end.rows[0].state == Queued && !Delivered(end, 0) && 0 !in end.canceled
  {
    var due := DueBehindSessionTwo();
    s := GivenBack(due);
    events :| Run(START, events, s);
    end := SweepSkips(s);
  }

  // ---------------------------------------------------------------- what was sent leaves the queue

  /** Whoever sent id has yet to mark it. */
  ghost predicate BeingMarked(s: State, id: Id) {
    || (id in s.creations && s.creations[id].pc == Sent)
    || (exists sid :: MarksNext(s, sid, id))
    || (s.sweep.SweepMarking? && s.sweep.id == id)
  }

  predicate MarksNext(s: State, sid: SessionId, id: Id) {
    sid in s.sessions && s.sessions[sid].pc.Marking? && s.sessions[sid].pc.id == id
  }

  ghost predicate LeftQueue(s: State, id: Id) {
    Delivered(s, id) && id !in s.requeued && id in s.rows ==> s.rows[id].state != Queued || BeingMarked(s, id)
  }

  /** A delivery is an old one, or the one this step makes. */
  lemma DeliveredBy(s: State, e: Event, id: Id)
    requires Enabled(s, e) && Delivered(Next(s, e), id)
    ensures
      || Delivered(s, id)
      || e == Creator(id, CreatorSends)
      || (e.Connection? && e.k == Replays(id))
      || (e == Sweeper(SweepSends) && s.sweep.id == id)
  {
    var d :| d in Next(s, e).log && d.id == id;
    if d in s.log {
      assert Delivered(s, id);
    }
  }

  lemma CreatorLeavesQueue(s: State, i: Id, c: CreatorStep, id: Id)
    requires Timely(s) && CreatorEnabled(s, i, c) && LeftQueue(s, id)
    requires Delivered(CreatorNext(s, i, c), id) ==> Delivered(s, id) || (i == id && c.CreatorSends?)
    ensures LeftQueue(CreatorNext(s, i, c), id)
  {
    var s' := CreatorNext(s, i, c);
    if Delivered(s, id) {
      var d :| d in s.log && d.id == id;
      assert OnTime(s, d);
    }
    if exists sid :: MarksNext(s, sid, id) {
      var sid :| MarksNext(s, sid, id);
      assert MarksNext(s', sid, id);
    }
  }

  lemma ConnectionLeavesQueue(s: State, sid: SessionId, k: SessionStep, id: Id)
    requires SessionEnabled(s, sid, k) && LeftQueue(s, id)
    requires Delivered(SessionNext(s, sid, k), id) ==> Delivered(s, id) || k == Replays(id)
    ensures LeftQueue(SessionNext(s, sid, k), id)
  {
    var s' := SessionNext(s, sid, k);
    if k == Replays(id) {
      assert MarksNext(s', sid, id);
    } else if exists x :: MarksNext(s, x, id) {
      var x :| MarksNext(s, x, id);
      assert x != sid ==> MarksNext(s', x, id);
      assert x == sid && k.Dies? ==> MarksNext(s', x, id);
    }
  }

  lemma SweeperLeavesQueue(s: State, w: SweepStep, id: Id)
    requires SweepEnabled(s, w) && LeftQueue(s, id)
    requires Delivered(SweepNext(s, w), id) ==> Delivered(s, id) || (w == SweepSends && s.sweep.id == id)
    ensures LeftQueue(SweepNext(s, w), id)
  {
    if exists x :: MarksNext(s, x, id) {
      var x :| MarksNext(s, x, id);
      assert MarksNext(SweepNext(s, w), x, id);
    }
  }

  lemma OthersLeaveQueue(s: State, e: Event, id: Id)
    requires Enabled(s, e) && LeftQueue(s, id) && (e.Ticks? || e.OnRow?)
    requires Delivered(Next(s, e), id) ==> Delivered(s, id)
    ensures LeftQueue(Next(s, e), id)
  {
    if exists x :: MarksNext(s, x, id) {
      var x :| MarksNext(s, x, id);
      assert MarksNext(Next(s, e), x, id);
    }
  }

  lemma {:induction false} RunLeavesQueue(s: State, events: seq<Event>, end: State, id: Id)
    requires Timely(s) && Run(s, events, end) && LeftQueue(s, id)
    ensures LeftQueue(end, id)
    decreases |events|
  {
    if events != [] {
      var e := events[0];
      StepKeepsTimely(s, e);
      if Delivered(Next(s, e), id) {
        DeliveredBy(s, e, id);
      }
      match e {
        case Creator(i, c) => CreatorLeavesQueue(s, i, c, id);
        case Connection(sid, k) => ConnectionLeavesQueue(s, sid, k, id);
        case Sweeper(w) => SweeperLeavesQueue(s, w, id);
        case _ => OthersLeaveQueue(s, e, id);
      }
      RunLeavesQueue(Next(s, e), events[1..], end, id);
    }
  }

  /** Once everything has finished, a task that was sent, and was never given back by a failed
      replay, is queued no more: no reconnect and no sweep will send it again. */
  lemma SentIsNotSentAgain(events: seq<Event>, end: State, id: Id, agent: Agent)
    requires Run(START, events, end) && Quiet(end) && end.sweep == Idle
    requires Delivered(end, id) && id !in end.requeued
    ensures id in end.rows ==> end.rows[id].state != Queued
    ensures id !in PendingTasks(end, agent) && id !in ReadyQueuedTasks(end)
  {
    RunLeavesQueue(START, events, end, id);
    if exists sid :: MarksNext(end, sid, id) {
      var sid :| MarksNext(end, sid, id);
      assert end.sessions[sid].pc == Ended || end.sessions[sid].pc == Serving;
    }
  }

  /** A canceled task is out of the queue, unless a failed replay gives it back. */
  predicate CanceledOk(s: State, id: Id) {
    id in s.canceled ==> Born(s, id) && (id in s.requeued || (id in s.rows ==> s.rows[id].state != Queued))
  }

  lemma CreatorKeepsCanceled(s: State, i: Id, c: CreatorStep, id: Id)
    requires CreatorEnabled(s, i, c) && CanceledOk(s, id)
    ensures CanceledOk(CreatorNext(s, i, c), id)
  {}

  lemma ConnectionKeepsCanceled(s: State, sid: SessionId, k: SessionStep, id: Id)
    requires SessionEnabled(s, sid, k) && CanceledOk(s, id)
    ensures CanceledOk(SessionNext(s, sid, k), id)
  {}

  lemma SweeperKeepsCanceled(s: State, w: SweepStep, id: Id)
    requires SweepEnabled(s, w) && CanceledOk(s, id)
    ensures CanceledOk(SweepNext(s, w), id)
  {}

  lemma StepKeepsCanceled(s: State, e: Event, id: Id)
    requires Timely(s) && Enabled(s, e) && CanceledOk(s, id)
    ensures CanceledOk(Next(s, e), id)
  {
    assert RowOk(s, id);
    match e
    case Ticks(to) =>
    case Creator(i, c) => CreatorKeepsCanceled(s, i, c, id);
    case Connection(sid, k) => ConnectionKeepsCanceled(s, sid, k, id);
    case Sweeper(w) => SweeperKeepsCanceled(s, w, id);
    case OnRow(i, r) =>
  }

  lemma {:induction false} RunKeepsCanceled(s: State, events: seq<Event>, end: State, id: Id)
    requires Timely(s) && Run(s, events, end) && CanceledOk(s, id)
    ensures CanceledOk(end, id)
    decreases |events|
  {
    if events != [] {
      StepKeepsTimely(s, events[0]);
      StepKeepsCanceled(s, events[0], id);
      RunKeepsCanceled(Next(s, events[0]), events[1..], end, id);
    }
  }

  /** In every run, no reconnect and no sweep takes up a task once it was canceled, unless a
      failed replay gave it back. */
  lemma CanceledIsNotTakenUp(events: seq<Event>, end: State, id: Id, agent: Agent)
    requires Run(START, events, end) && id in end.canceled && id !in end.requeued
    ensures id !in PendingTasks(end, agent) && id !in ReadyQueuedTasks(end)
  {
    RunKeepsCanceled(START, events, end, id);
  }

  /** A finished, a canceled and a pruned task are out of every query's reach. */
  lemma ClosedIsNotTakenUp(s: State, id: Id, r: RowStep, agent: Agent)
    requires Enabled(s, OnRow(id, r))
    ensures var s' := Next(s, OnRow(id, r));
      && id !in PendingTasks(s', agent) && id !in ReadyQueuedTasks(s')
      && (id in s'.rows <==> r != Prunes)
      && (forall x :: x != id ==> (x in s'.rows <==> x in s.rows) && (x in s.rows ==> s'.rows[x] == s.rows[x]))
  {}

  // ---------------------------------------------------------------- immediate or deferred

  /** A creation defers its task exactly when it names a release time still ahead; the row it
      inserts is queued, for that agent, with that release time. */
  lemma DeferredExactly(s: State, id: Id, agent: Agent, release: Option<Time>)
    requires Enabled(s, Creator(id, Creates(agent, release)))
    ensures var c := Next(s, Creator(id, Creates(agent, release)));
      && id in c.creations && (c.creations[id].deferred <==> release.Some? && release.value > s.clock)
      && Enabled(c, Creator(id, Inserts))
      && var i := Next(c, Creator(id, Inserts));
         && id in i.rows && i.rows[id] == Row(agent, Queued, release)
         && (Enabled(i, Creator(id, LooksUp)) <==> !(release.Some? && release.value > s.clock))
  {}
}
