/** How tasks reach agents (internal/server/hub.go, internal/server/client.go): any
    number of task creations, sessions that register and go away, and the release
    sweep, interleaved one store statement or one lock section at a time. */
module Dispatch {
  import opened Common

  type Id = nat        // task ids, fresh for every creation
  type Agent = nat
  type SessionId = nat

  /** Closed stands for every state from which a task is no longer sent. */
  datatype RowState = Queued | Dispatched | Closed

  datatype Row = Row(agent: Agent, state: RowState, release: Option<Time>)

  /** Where one dispatchOrQueue call is. */
  datatype CreatorPc = Checked | Inserted | Holding(session: SessionId) | Sent | Finished

  datatype Creation = Creation(agent: Agent, release: Option<Time>, deferred: bool, pc: CreatorPc)

  /** Where one connection's hello branch is: published in the map, replaying what
      PendingTasks returned, marking the one just sent, giving the rest back, serving. */
  datatype SessionPc =
    | Published
    | Replaying(todo: set<Id>)
    | Marking(id: Id, todo: set<Id>)
    | Requeueing(todo: set<Id>)
    | Serving
    | Ended

  datatype Session = Session(agent: Agent, pc: SessionPc)

  /** Where dispatchReadyTasks is, on the reaper's goroutine. */
  datatype SweepPc =
    | Idle
    | Sweeping(todo: set<Id>)
    | SweepHolding(id: Id, session: SessionId, todo: set<Id>)
    | SweepMarking(id: Id, todo: set<Id>)

  datatype Delivery = Delivery(id: Id, session: SessionId, at: Time)

  /** closing are the sessions whose connection has died or has been retired: sends to
      them may fail, and they will unregister. log, canceled and requeued are history:
      what was put on which connection and when, and which tasks were canceled or given
      back by a failed replay. */
  datatype State = State(
    clock: Time,
    rows: map<Id, Row>,
    creations: map<Id, Creation>,
    sessions: map<SessionId, Session>,
    clients: map<Agent, SessionId>,
    closing: set<SessionId>,
    sweep: SweepPc,
    log: set<Delivery>,
    canceled: set<Id>,
    requeued: set<Id>)

  const START := State(0, map[], map[], map[], map[], {}, Idle, {}, {}, {})

  /** One step of a dispatchOrQueue call for task id. */
  datatype CreatorStep =
    | Creates(agent: Agent, release: Option<Time>)
    | Inserts
    | LooksUp
    | CreatorSends
    | CreatorSendFails
    | CreatorMarks

  /** One step of a connection's goroutine. */
  datatype SessionStep =
    | Publishes(agent: Agent)
    | Reads
    | Replays(id: Id)
    | ReplayFails
    | ReplayMarks
    | ReplayEnds
    | Requeues(id: Id)
    | Dies
    | Unregisters

  /** One step of dispatchReadyTasks. */
  datatype SweepStep =
    | SweepReads
    | SweepLooksUp(id: Id)
    | SweepSends
    | SweepSendFails
    | SweepMarks
    | SweepEnds

  /** Everything else that happens to rows: operator cancels, results and timeouts, retention. */
  datatype RowStep = Cancels | Closes | Prunes

  datatype Event =
    | Ticks(to: Time)
    | Creator(id: Id, c: CreatorStep)
    | Connection(sid: SessionId, k: SessionStep)
    | Sweeper(w: SweepStep)
    | OnRow(id: Id, r: RowStep)

  // ---------------------------------------------------------------- queries

  predicate DueBy(release: Option<Time>, now: Time) { release.None? || release.value <= now }

  /** PendingTasks: what a reconnecting agent may get right now. */
  predicate Pending(s: State, agent: Agent, id: Id) {
    id in s.rows && s.rows[id].agent == agent && s.rows[id].state == Queued && DueBy(s.rows[id].release, s.clock)
  }

  /** ReadyQueuedTasks: deferred rows whose time has come. */
  predicate Ready(s: State, id: Id) {
    id in s.rows && s.rows[id].state == Queued && s.rows[id].release.Some? && s.rows[id].release.value <= s.clock
  }

  function PendingTasks(s: State, agent: Agent): set<Id> {
    set id | id in s.rows && Pending(s, agent, id)
  }

  function ReadyQueuedTasks(s: State): set<Id> {
    set id | id in s.rows && Ready(s, id)
  }

  ghost predicate Delivered(s: State, id: Id) {
    exists d :: d in s.log && d.id == id
  }

  // ---------------------------------------------------------------- steps

  function Put(s: State, id: Id, sid: SessionId): State {
    s.(log := s.log + {Delivery(id, sid, s.clock)})
  }

  /** MarkDispatched: only a queued row moves. */
  function Mark(s: State, id: Id): State {
    if id in s.rows && s.rows[id].state == Queued then s.(rows := s.rows[id := s.rows[id].(state := Dispatched)]) else s
  }

  function WithCreator(s: State, id: Id, pc: CreatorPc): State
    requires id in s.creations
  {
    s.(creations := s.creations[id := s.creations[id].(pc := pc)])
  }

  predicate CreatorEnabled(s: State, id: Id, c: CreatorStep) {
    match c
    case Creates(_, _) => id !in s.creations
    case Inserts => id in s.creations && s.creations[id].pc == Checked
    case LooksUp => id in s.creations && s.creations[id].pc == Inserted
    case CreatorSends => id in s.creations && s.creations[id].pc.Holding?
    case CreatorSendFails =>
      id in s.creations && s.creations[id].pc.Holding? && s.creations[id].pc.session in s.closing
    case CreatorMarks => id in s.creations && s.creations[id].pc == Sent
  }

  function CreatorNext(s: State, id: Id, c: CreatorStep): State
    requires CreatorEnabled(s, id, c)
  {
    match c
    case Creates(agent, release) =>
      s.(creations := s.creations[id := Creation(agent, release, release.Some? && release.value > s.clock, Checked)])
    case Inserts =>
      var c := s.creations[id];
      WithCreator(s.(rows := s.rows[id := Row(c.agent, Queued, c.release)]), id,
                  if c.deferred then Finished else Inserted)
    case LooksUp =>
      var agent := s.creations[id].agent;
      WithCreator(s, id, if agent in s.clients then Holding(s.clients[agent]) else Finished)
    case CreatorSends => WithCreator(Put(s, id, s.creations[id].pc.session), id, Sent)
    case CreatorSendFails => WithCreator(s, id, Finished)
    case CreatorMarks => WithCreator(Mark(s, id), id, Finished)
  }

  function WithSession(s: State, sid: SessionId, pc: SessionPc): State
    requires sid in s.sessions
  {
    s.(sessions := s.sessions[sid := s.sessions[sid].(pc := pc)])
  }

  predicate SessionEnabled(s: State, sid: SessionId, k: SessionStep) {
    if k.Publishes? then sid !in s.sessions
    else sid in s.sessions && PcEnabled(s.sessions[sid].pc, k) && (k.ReplayFails? ==> sid in s.closing)
  }

  predicate PcEnabled(pc: SessionPc, k: SessionStep)
    requires !k.Publishes?
  {
    match k
    case Reads => pc == Published
    case Replays(id) => pc.Replaying? && id in pc.todo
    case ReplayFails => pc.Replaying?
    case ReplayMarks => pc.Marking?
    case ReplayEnds => pc == Replaying({})
    case Requeues(id) => pc.Requeueing? && id in pc.todo
    case Dies => pc != Ended
    case Unregisters => pc == Serving || pc == Published || pc == Requeueing({})
  }

  /** A failed replay gives back everything not yet sent, as immediately available. */
  function SessionNext(s: State, sid: SessionId, k: SessionStep): State
    requires SessionEnabled(s, sid, k)
  {
    match k
    case Publishes(agent) =>
      s.(sessions := s.sessions[sid := Session(agent, Published)], clients := s.clients[agent := sid])
    case Reads => WithSession(s, sid, Replaying(PendingTasks(s, s.sessions[sid].agent)))
    case Replays(id) => WithSession(Put(s, id, sid), sid, Marking(id, s.sessions[sid].pc.todo - {id}))
    case ReplayFails => WithSession(s, sid, Requeueing(s.sessions[sid].pc.todo))
    case ReplayMarks => WithSession(Mark(s, s.sessions[sid].pc.id), sid, Replaying(s.sessions[sid].pc.todo))
    case ReplayEnds => WithSession(s, sid, Serving)
    case Requeues(id) =>
      var row := Row(s.sessions[sid].agent, Queued, None);
      WithSession(s.(rows := s.rows[id := row], requeued := s.requeued + {id}), sid,
                  Requeueing(s.sessions[sid].pc.todo - {id}))
    case Dies => s.(closing := s.closing + {sid})
    case Unregisters =>
      var agent := s.sessions[sid].agent;
      var s' := WithSession(s, sid, Ended);
      if agent in s.clients && s.clients[agent] == sid then s'.(clients := s.clients - {agent}) else s'
  }

  predicate SweepEnabled(s: State, w: SweepStep) {
    match w
    case SweepReads => s.sweep == Idle
    case SweepLooksUp(id) => s.sweep.Sweeping? && id in s.sweep.todo && id in s.creations
    case SweepSends => s.sweep.SweepHolding?
    case SweepSendFails => s.sweep.SweepHolding? && s.sweep.session in s.closing
    case SweepMarks => s.sweep.SweepMarking?
    case SweepEnds => s.sweep == Sweeping({})
  }

  function SweepNext(s: State, w: SweepStep): State
    requires SweepEnabled(s, w)
  {
    match w
    case SweepReads => s.(sweep := Sweeping(ReadyQueuedTasks(s)))
    case SweepLooksUp(id) =>
      var agent := s.creations[id].agent;
      s.(sweep := if agent in s.clients
                  then SweepHolding(id, s.clients[agent], s.sweep.todo - {id})
                  else Sweeping(s.sweep.todo - {id}))
    case SweepSends => Put(s, s.sweep.id, s.sweep.session).(sweep := SweepMarking(s.sweep.id, s.sweep.todo))
    case SweepSendFails => s.(sweep := Sweeping(s.sweep.todo))
    case SweepMarks => Mark(s, s.sweep.id).(sweep := Sweeping(s.sweep.todo))
    case SweepEnds => s.(sweep := Idle)
  }

  ghost predicate RowEnabled(s: State, id: Id, r: RowStep) {
    id in s.rows &&
      match r
      case Cancels => true
      case Closes => Delivered(s, id) || id in s.canceled
      case Prunes => s.rows[id].state == Closed
  }

  function RowNext(s: State, id: Id, r: RowStep): State
    requires id in s.rows
  {
    match r
    case Cancels => s.(rows := s.rows[id := s.rows[id].(state := Closed)], canceled := s.canceled + {id})
    case Closes => s.(rows := s.rows[id := s.rows[id].(state := Closed)])
    case Prunes => s.(rows := s.rows - {id})
  }

  ghost predicate Enabled(s: State, e: Event) {
    match e
    case Ticks(to) => s.clock <= to
    case Creator(id, c) => CreatorEnabled(s, id, c)
    case Connection(sid, k) => SessionEnabled(s, sid, k)
    case Sweeper(w) => SweepEnabled(s, w)
    case OnRow(id, r) => RowEnabled(s, id, r)
  }

  ghost function Next(s: State, e: Event): State
    requires Enabled(s, e)
  {
    match e
    case Ticks(to) => s.(clock := to)
    case Creator(id, c) => CreatorNext(s, id, c)
    case Connection(sid, k) => SessionNext(s, sid, k)
    case Sweeper(w) => SweepNext(s, w)
    case OnRow(id, r) => RowNext(s, id, r)
  }

  ghost predicate Run(s: State, events: seq<Event>, end: State)
    decreases |events|
  {
    if events == [] then s == end
    else Enabled(s, events[0]) && Run(Next(s, events[0]), events[1..], end)
  }

  // ---------------------------------------------------------------- nothing leaves before its time

  /** The release time task id was created with has come. */
  predicate Due(s: State, id: Id) {
    id in s.creations && DueBy(s.creations[id].release, s.clock)
  }

  /** Task id's row has been inserted. */
  predicate Born(s: State, id: Id) {
    id in s.creations && s.creations[id].pc != Checked
  }

  predicate AllDue(s: State, todo: set<Id>) {
    forall id :: id in todo ==> Due(s, id) && Born(s, id)
  }

  predicate AllFor(s: State, todo: set<Id>, agent: Agent) {
    forall id :: id in todo ==> id in s.creations && s.creations[id].agent == agent
  }

  predicate RowOk(s: State, id: Id) {
    id in s.rows ==>
      && Born(s, id)
      && s.rows[id].agent == s.creations[id].agent
      && (s.rows[id].release == s.creations[id].release || (s.rows[id].release.None? && Due(s, id)))
  }

  /** Session sid is one of task id's own agent. */
  predicate Belongs(s: State, id: Id, sid: SessionId) {
    id in s.creations && sid in s.sessions && s.sessions[sid].agent == s.creations[id].agent
  }

  predicate CreationOk(s: State, id: Id) {
    id in s.creations ==>
      && (if s.creations[id].deferred then s.creations[id].pc in {Checked, Finished} else Due(s, id))
      && (s.creations[id].pc.Holding? ==> Belongs(s, id, s.creations[id].pc.session))
  }

  predicate TodoOk(s: State, todo: set<Id>, agent: Agent) {
    AllDue(s, todo) && AllFor(s, todo, agent)
  }

  predicate SessionOk(s: State, sid: SessionId) {
    sid in s.sessions ==>
      match s.sessions[sid].pc
      case Replaying(todo) => TodoOk(s, todo, s.sessions[sid].agent)
      case Marking(_, todo) => TodoOk(s, todo, s.sessions[sid].agent)
      case Requeueing(todo) => TodoOk(s, todo, s.sessions[sid].agent)
      case _ => true
  }

  predicate ClientOk(s: State, agent: Agent) {
    agent in s.clients ==>
      && s.clients[agent] in s.sessions
      && s.sessions[s.clients[agent]].agent == agent
      && s.sessions[s.clients[agent]].pc != Ended
  }

  predicate SweepOk(s: State) {
    match s.sweep
    case Idle => true
    case Sweeping(todo) => AllDue(s, todo)
    case SweepHolding(id, sid, todo) => Due(s, id) && Born(s, id) && Belongs(s, id, sid) && AllDue(s, todo)
    case SweepMarking(_, todo) => AllDue(s, todo)
  }

  /** Put on a connection of the task's own agent, and not before its release time. */
  predicate OnTime(s: State, d: Delivery) {
    && d.at <= s.clock
    && Born(s, d.id) && Belongs(s, d.id, d.session)
    && DueBy(s.creations[d.id].release, d.at)
  }

  ghost predicate Timely(s: State) {
    && (forall id :: RowOk(s, id))
    && (forall id :: CreationOk(s, id))
    && (forall sid :: SessionOk(s, sid))
    && (forall agent :: ClientOk(s, agent))
    && SweepOk(s)
    && (forall d :: d in s.log ==> OnTime(s, d))
  }

  predicate SameTask(c: Creation, c': Creation) {
    && c'.agent == c.agent && c'.release == c.release && c'.deferred == c.deferred
    && (c.pc != Checked ==> c'.pc != Checked)
  }

  predicate Grows(s: State, s': State) {
    && s.clock <= s'.clock
    && (forall id :: id in s.creations ==> id in s'.creations && SameTask(s.creations[id], s'.creations[id]))
    && (forall sid :: sid in s.sessions ==> sid in s'.sessions && s'.sessions[sid].agent == s.sessions[sid].agent)
  }

  // What a step leaves alone stays in order as time goes on.

  lemma TodoStays(s: State, s': State, todo: set<Id>)
    requires Grows(s, s')
    ensures AllDue(s, todo) ==> AllDue(s', todo)
    ensures forall agent :: AllFor(s, todo, agent) ==> AllFor(s', todo, agent)
  {}

  predicate SameButState(r: Row, r': Row) {
    r.agent == r'.agent && r.release == r'.release
  }

  lemma RowStays(s: State, s': State, id: Id)
    requires Grows(s, s') && RowOk(s, id)
    requires id in s'.rows ==> id in s.rows && SameButState(s.rows[id], s'.rows[id])
    ensures RowOk(s', id)
  {}

  lemma CreationStays(s: State, s': State, id: Id)
    requires Grows(s, s') && CreationOk(s, id)
    requires id in s'.creations ==> id in s.creations && s'.creations[id] == s.creations[id]
    ensures CreationOk(s', id)
  {}

  lemma SessionStays(s: State, s': State, sid: SessionId)
    requires Grows(s, s') && SessionOk(s, sid)
    requires sid in s'.sessions ==> sid in s.sessions && s'.sessions[sid] == s.sessions[sid]
    ensures SessionOk(s', sid)
  {
    if sid in s.sessions {
      match s.sessions[sid].pc
      case Replaying(todo) => TodoStays(s, s', todo);
      case Marking(_, todo) => TodoStays(s, s', todo);
      case Requeueing(todo) => TodoStays(s, s', todo);
      case _ =>
    }
  }

  lemma SweepStays(s: State, s': State)
    requires Grows(s, s') && SweepOk(s) && s'.sweep == s.sweep
    ensures SweepOk(s')
  {
    if s.sweep != Idle {
      TodoStays(s, s', s.sweep.todo);
    }
  }

  lemma LogStays(s: State, s': State)
    requires Grows(s, s') && forall d :: d in s.log ==> OnTime(s, d)
    ensures forall d :: d in s.log ==> OnTime(s', d)
  {}

  lemma PendingAreDue(s: State, agent: Agent)
    requires forall id :: RowOk(s, id)
    ensures TodoOk(s, PendingTasks(s, agent), agent)
    ensures AllDue(s, ReadyQueuedTasks(s))
  {
    forall id | id in s.rows ensures RowOk(s, id) {}
  }

  // Creations.

  lemma CreatorGrows(s: State, i: Id, c: CreatorStep)
    requires CreatorEnabled(s, i, c)
    ensures Grows(s, CreatorNext(s, i, c))
  {}

  lemma CreatorKeepsCreation(s: State, i: Id, c: CreatorStep)
    requires CreatorEnabled(s, i, c) && CreationOk(s, i)
    requires i in s.creations ==> ClientOk(s, s.creations[i].agent)
    ensures CreationOk(CreatorNext(s, i, c), i)
  {}

  lemma CreatorKeepsRow(s: State, i: Id, c: CreatorStep)
    requires CreatorEnabled(s, i, c) && RowOk(s, i)
    ensures RowOk(CreatorNext(s, i, c), i)
  {}

  lemma CreatorKeepsLog(s: State, i: Id, c: CreatorStep)
    requires CreatorEnabled(s, i, c) && CreationOk(s, i) && forall d :: d in s.log ==> OnTime(s, d)
    ensures var s' := CreatorNext(s, i, c); forall d :: d in s'.log ==> OnTime(s', d)
  {
    CreatorGrows(s, i, c);
    LogStays(s, CreatorNext(s, i, c));
  }

  lemma CreatorKeepsTimely(s: State, i: Id, c: CreatorStep)
    requires Timely(s) && CreatorEnabled(s, i, c)
    ensures Timely(CreatorNext(s, i, c))
  {
    var s' := CreatorNext(s, i, c);
    CreatorGrows(s, i, c);
    CreatorKeepsLog(s, i, c);
    SweepStays(s, s');
    assert i in s.creations ==> ClientOk(s, s.creations[i].agent);
    forall id ensures RowOk(s', id) && CreationOk(s', id) {
      if id == i {
        CreatorKeepsRow(s, i, c);
        CreatorKeepsCreation(s, i, c);
      } else {
        RowStays(s, s', id);
        CreationStays(s, s', id);
      }
    }
    forall sid ensures SessionOk(s', sid) {
      SessionStays(s, s', sid);
    }
    forall agent ensures ClientOk(s', agent) {
      assert ClientOk(s, agent);
    }
  }

  // Connections.

  lemma ConnectionGrows(s: State, sid: SessionId, k: SessionStep)
    requires SessionEnabled(s, sid, k)
    ensures Grows(s, SessionNext(s, sid, k))
  {}

  lemma ConnectionKeepsClient(s: State, sid: SessionId, k: SessionStep, agent: Agent)
    requires SessionEnabled(s, sid, k) && ClientOk(s, agent)
    ensures ClientOk(SessionNext(s, sid, k), agent)
  {}

  lemma ConnectionKeepsRow(s: State, sid: SessionId, k: SessionStep, id: Id)
    requires SessionEnabled(s, sid, k) && SessionOk(s, sid) && RowOk(s, id)
    ensures RowOk(SessionNext(s, sid, k), id)
  {
    if k != Requeues(id) {
      ConnectionGrows(s, sid, k);
      RowStays(s, SessionNext(s, sid, k), id);
    }
  }

  /** A session's own list only shrinks, once it has been read. */
  lemma ConnectionKeepsOwn(s: State, sid: SessionId, k: SessionStep)
    requires SessionEnabled(s, sid, k) && SessionOk(s, sid) && forall id :: RowOk(s, id)
    ensures SessionOk(SessionNext(s, sid, k), sid)
  {
    var s' := SessionNext(s, sid, k);
    ConnectionGrows(s, sid, k);
    if k.Reads? {
      PendingAreDue(s, s.sessions[sid].agent);
      TodoStays(s, s', PendingTasks(s, s.sessions[sid].agent));
    } else if sid in s.sessions {
      match s.sessions[sid].pc
      case Replaying(todo) => TodoStays(s, s', todo);
      case Marking(_, todo) => TodoStays(s, s', todo);
      case Requeueing(todo) => TodoStays(s, s', todo);
      case _ =>
    }
  }

  lemma ConnectionKeepsLog(s: State, sid: SessionId, k: SessionStep)
    requires SessionEnabled(s, sid, k) && SessionOk(s, sid) && forall d :: d in s.log ==> OnTime(s, d)
    ensures var s' := SessionNext(s, sid, k); forall d :: d in s'.log ==> OnTime(s', d)
  {
    ConnectionGrows(s, sid, k);
    LogStays(s, SessionNext(s, sid, k));
  }

  lemma ConnectionKeepsTimely(s: State, sid: SessionId, k: SessionStep)
    requires Timely(s) && SessionEnabled(s, sid, k)
    ensures Timely(SessionNext(s, sid, k))
  {
    var s' := SessionNext(s, sid, k);
    ConnectionGrows(s, sid, k);
    ConnectionKeepsLog(s, sid, k);
    SweepStays(s, s');
    forall id ensures RowOk(s', id) && CreationOk(s', id) {
      ConnectionKeepsRow(s, sid, k, id);
      CreationStays(s, s', id);
    }
    forall x ensures SessionOk(s', x) {
      if x == sid {
        ConnectionKeepsOwn(s, sid, k);
      } else {
        SessionStays(s, s', x);
      }
    }
    forall agent ensures ClientOk(s', agent) {
      ConnectionKeepsClient(s, sid, k, agent);
    }
  }

  // The sweep.

  lemma SweeperKeepsSweep(s: State, w: SweepStep)
    requires SweepEnabled(s, w) && SweepOk(s) && (forall id :: RowOk(s, id)) && forall agent :: ClientOk(s, agent)
    ensures SweepOk(SweepNext(s, w))
  {
    PendingAreDue(s, 0);
    if w.SweepLooksUp? {
      assert ClientOk(s, s.creations[w.id].agent);
    }
  }

  lemma SweeperKeepsLog(s: State, w: SweepStep)
    requires SweepEnabled(s, w) && SweepOk(s) && forall d :: d in s.log ==> OnTime(s, d)
    ensures var s' := SweepNext(s, w); forall d :: d in s'.log ==> OnTime(s', d)
  {
    LogStays(s, SweepNext(s, w));
  }

  lemma SweeperKeepsTimely(s: State, w: SweepStep)
    requires Timely(s) && SweepEnabled(s, w)
    ensures Timely(SweepNext(s, w))
  {
    var s' := SweepNext(s, w);
    SweeperKeepsSweep(s, w);
    SweeperKeepsLog(s, w);
    forall id ensures RowOk(s', id) && CreationOk(s', id) {
      RowStays(s, s', id);
      CreationStays(s, s', id);
    }
    forall sid ensures SessionOk(s', sid) {
      SessionStays(s, s', sid);
    }
    forall agent ensures ClientOk(s', agent) {
      assert ClientOk(s, agent);
    }
  }

  // Everything else.

  /** Nothing changes but the clock, row states, and which rows there are. */
  lemma OthersKeepTimely(s: State, s': State)
    requires Timely(s) && s.clock <= s'.clock
    requires s'.creations == s.creations && s'.sessions == s.sessions && s'.clients == s.clients
    requires s'.sweep == s.sweep && s'.log == s.log
    requires forall id :: id in s'.rows ==> id in s.rows && SameButState(s.rows[id], s'.rows[id])
    ensures Timely(s')
  {
    SweepStays(s, s');
    LogStays(s, s');
    forall id ensures RowOk(s', id) && CreationOk(s', id) {
      RowStays(s, s', id);
      CreationStays(s, s', id);
    }
    forall sid ensures SessionOk(s', sid) {
      SessionStays(s, s', sid);
    }
    forall agent ensures ClientOk(s', agent) {
      assert ClientOk(s, agent);
    }
  }

  lemma StepKeepsTimely(s: State, e: Event)
    requires Enabled(s, e) && Timely(s)
    ensures Timely(Next(s, e))
  {
    match e
    case Ticks(to) => OthersKeepTimely(s, Next(s, e));
    case Creator(id, c) => CreatorKeepsTimely(s, id, c);
    case Connection(sid, k) => ConnectionKeepsTimely(s, sid, k);
    case Sweeper(w) => SweeperKeepsTimely(s, w);
    case OnRow(id, r) => OthersKeepTimely(s, Next(s, e));
  }

  lemma {:induction false} RunKeepsTimely(s: State, events: seq<Event>, end: State)
    requires Timely(s) && Run(s, events, end)
    ensures Timely(end)
    decreases |events|
  {
    if events != [] {
      StepKeepsTimely(s, events[0]);
      RunKeepsTimely(Next(s, events[0]), events[1..], end);
    }
  }

  /** In every run, through every path, no task is put on a connection before the release
      time it was created with, or on one of another agent. */
  lemma NeverBeforeRelease(events: seq<Event>, end: State)
    requires Run(START, events, end)
    ensures forall d :: d in end.log ==> Belongs(end, d.id, d.session) && DueBy(end.creations[d.id].release, d.at)
  {
    RunKeepsTimely(START, events, end);
    forall d | d in end.log ensures OnTime(end, d) {}
  }

  // ---------------------------------------------------------------- no immediate task is stranded

  /** The agent's connection side will come to task id: it is offline, or its current
      session is going away, has yet to read the queue, or has this task to replay. */
  predicate ConnectionHas(s: State, id: Id)
    requires id in s.creations && ClientOk(s, s.creations[id].agent)
  {
    var agent := s.creations[id].agent;
    || agent !in s.clients
    || s.clients[agent] in s.closing
    || match s.sessions[s.clients[agent]].pc
       case Published => true
       case Replaying(todo) => id in todo
       case Marking(_, todo) => id in todo
       case _ => false
  }

  /** Someone still has task id in hand: its creator has yet to look for a session, or
      to send to the current one, or the connection side will come to it. */
  predicate InHand(s: State, id: Id)
    requires id in s.creations && ClientOk(s, s.creations[id].agent)
  {
    var c := s.creations[id];
    || c.pc == Inserted
    || (c.agent in s.clients && c.pc == Holding(s.clients[c.agent]))
    || ConnectionHas(s, id)
  }

  /** A task taken on the immediate path, once its row is in: delivered or canceled,
      or else still queued and in somebody's hands. */
  ghost predicate NotLost(s: State, id: Id) {
    id in s.creations && !s.creations[id].deferred && s.creations[id].pc != Checked ==>
      || Delivered(s, id)
      || id in s.canceled
      || (&& ClientOk(s, s.creations[id].agent)
          && s.creations[id].pc != Sent
          && id in s.rows && s.rows[id].state == Queued
          && InHand(s, id))
  }

  /** A task being marked has been sent. */
  ghost predicate MarkedWereSent(s: State) {
    && (forall id :: id in s.creations && s.creations[id].pc == Sent ==> Delivered(s, id))
    && (forall sid :: sid in s.sessions && s.sessions[sid].pc.Marking? ==> Delivered(s, s.sessions[sid].pc.id))
    && (s.sweep.SweepMarking? ==> Delivered(s, s.sweep.id))
  }

  ghost predicate Accounted(s: State) {
    && Timely(s)
    && MarkedWereSent(s)
    && (forall id :: NotLost(s, id))
  }

  lemma DeliveredStays(s: State, e: Event, id: Id)
    requires Enabled(s, e) && Delivered(s, id)
    ensures Delivered(Next(s, e), id)
  {
    var d :| d in s.log && d.id == id;
    assert d in Next(s, e).log;
  }

  lemma PutDelivers(s: State, id: Id, sid: SessionId, s': State)
    requires s'.log == Put(s, id, sid).log
    ensures Delivered(s', id)
  {
    assert Delivery(id, sid, s.clock) in s'.log;
  }

  lemma SendDelivers(s: State, e: Event)
    requires Enabled(s, e)
    ensures e.Creator? && e.c.CreatorSends? ==> Delivered(Next(s, e), e.id)
    ensures e.Connection? && e.k.Replays? ==> Delivered(Next(s, e), e.k.id)
    ensures e.Sweeper? && e.w.SweepSends? ==> Delivered(Next(s, e), s.sweep.id)
  {
    if e.Creator? && e.c.CreatorSends? {
      PutDelivers(s, e.id, s.creations[e.id].pc.session, Next(s, e));
    } else if e.Connection? && e.k.Replays? {
      PutDelivers(s, e.k.id, e.sid, Next(s, e));
    } else if e.Sweeper? && e.w.SweepSends? {
      PutDelivers(s, s.sweep.id, s.sweep.session, Next(s, e));
    }
  }

  lemma CreatorKeepsMarked(s: State, i: Id, c: CreatorStep)
    requires CreatorEnabled(s, i, c) && MarkedWereSent(s)
    requires forall id :: Delivered(s, id) ==> Delivered(CreatorNext(s, i, c), id)
    requires c.CreatorSends? ==> Delivered(CreatorNext(s, i, c), i)
    ensures MarkedWereSent(CreatorNext(s, i, c))
  {}

  lemma ConnectionKeepsMarked(s: State, sid: SessionId, k: SessionStep)
    requires SessionEnabled(s, sid, k) && MarkedWereSent(s)
    requires forall id :: Delivered(s, id) ==> Delivered(SessionNext(s, sid, k), id)
    requires k.Replays? ==> Delivered(SessionNext(s, sid, k), k.id)
    ensures MarkedWereSent(SessionNext(s, sid, k))
  {}

  lemma SweeperKeepsMarked(s: State, w: SweepStep)
    requires SweepEnabled(s, w) && MarkedWereSent(s)
    requires forall id :: Delivered(s, id) ==> Delivered(SweepNext(s, w), id)
    requires w.SweepSends? ==> Delivered(SweepNext(s, w), s.sweep.id)
    ensures MarkedWereSent(SweepNext(s, w))
  {}

  lemma StepKeepsMarked(s: State, e: Event)
    requires Enabled(s, e) && MarkedWereSent(s)
    ensures MarkedWereSent(Next(s, e))
  {
    SendDelivers(s, e);
    forall id | Delivered(s, id) ensures Delivered(Next(s, e), id) {
      DeliveredStays(s, e, id);
    }
    match e
    case Creator(i, c) => CreatorKeepsMarked(s, i, c);
    case Connection(sid, k) => ConnectionKeepsMarked(s, sid, k);
    case Sweeper(w) => SweeperKeepsMarked(s, w);
    case _ =>
  }

  lemma CreatorKeepsNotLost(s: State, i: Id, c: CreatorStep, id: Id)
    requires Accounted(s) && CreatorEnabled(s, i, c)
    requires Delivered(s, id) ==> Delivered(CreatorNext(s, i, c), id)
    requires c.CreatorSends? ==> Delivered(CreatorNext(s, i, c), i)
    ensures NotLost(CreatorNext(s, i, c), id)
  {
    assert NotLost(s, id) && CreationOk(s, id);
    if id in s.creations {
      assert ClientOk(s, s.creations[id].agent);
    } else if c.Creates? {
      assert ClientOk(s, c.agent);
    }
  }

  /** A session coming or going, seen from one task. */
  lemma LifecycleKeepsNotLost(s: State, sid: SessionId, k: SessionStep, id: Id)
    requires Accounted(s) && SessionEnabled(s, sid, k) && (k.Publishes? || k.Dies? || k.Unregisters?)
    requires Delivered(s, id) ==> Delivered(SessionNext(s, sid, k), id)
    requires k.Replays? ==> Delivered(SessionNext(s, sid, k), k.id)
    ensures NotLost(SessionNext(s, sid, k), id)
  {
    assert NotLost(s, id) && RowOk(s, id) && CreationOk(s, id);
    if id in s.creations {
      assert ClientOk(s, s.creations[id].agent);
    }
  }

  /** A session working through its list, seen from one task. */
  lemma ReplayKeepsNotLost(s: State, sid: SessionId, k: SessionStep, id: Id)
    requires Accounted(s) && SessionEnabled(s, sid, k) && !(k.Publishes? || k.Dies? || k.Unregisters?)
    requires Delivered(s, id) ==> Delivered(SessionNext(s, sid, k), id)
    requires k.Replays? ==> Delivered(SessionNext(s, sid, k), k.id)
    ensures NotLost(SessionNext(s, sid, k), id)
  {
    assert NotLost(s, id) && RowOk(s, id) && CreationOk(s, id);
    if id in s.creations {
      assert ClientOk(s, s.creations[id].agent);
    }
  }

  /** One connection step, seen from one task. */
  lemma ConnectionKeepsNotLost(s: State, sid: SessionId, k: SessionStep, id: Id)
    requires Accounted(s) && SessionEnabled(s, sid, k)
    requires Delivered(s, id) ==> Delivered(SessionNext(s, sid, k), id)
    requires k.Replays? ==> Delivered(SessionNext(s, sid, k), k.id)
    ensures NotLost(SessionNext(s, sid, k), id)
  {
    if k.Publishes? || k.Dies? || k.Unregisters? {
      LifecycleKeepsNotLost(s, sid, k, id);
    } else {
      ReplayKeepsNotLost(s, sid, k, id);
    }
  }

  lemma SweeperKeepsNotLost(s: State, w: SweepStep, id: Id)
    requires Accounted(s) && SweepEnabled(s, w)
    requires Delivered(s, id) ==> Delivered(SweepNext(s, w), id)
    ensures NotLost(SweepNext(s, w), id)
  {
    assert NotLost(s, id);
  }

  lemma RowStepKeepsNotLost(s: State, i: Id, r: RowStep, id: Id)
    requires Accounted(s) && RowEnabled(s, i, r)
    requires Delivered(s, id) ==> Delivered(RowNext(s, i, r), id)
    ensures NotLost(RowNext(s, i, r), id)
  {
    assert NotLost(s, id);
  }

  lemma StepKeepsNotLost(s: State, e: Event, id: Id)
    requires Enabled(s, e) && Accounted(s)
    ensures NotLost(Next(s, e), id)
  {
    SendDelivers(s, e);
    if Delivered(s, id) {
      DeliveredStays(s, e, id);
    }
    match e
    case Ticks(to) => assert NotLost(s, id);
    case Creator(i, c) => CreatorKeepsNotLost(s, i, c, id);
    case Connection(sid, k) => ConnectionKeepsNotLost(s, sid, k, id);
    case Sweeper(w) => SweeperKeepsNotLost(s, w, id);
    case OnRow(i, r) => RowStepKeepsNotLost(s, i, r, id);
  }

  lemma StepKeepsAccounts(s: State, e: Event)
    requires Enabled(s, e) && Accounted(s)
    ensures Accounted(Next(s, e))
  {
    StepKeepsTimely(s, e);
    StepKeepsMarked(s, e);
    forall id ensures NotLost(Next(s, e), id) {
      StepKeepsNotLost(s, e, id);
    }
  }

  lemma {:induction false} RunKeepsAccounts(s: State, events: seq<Event>, end: State)
    requires Accounted(s) && Run(s, events, end)
    ensures Accounted(end)
    decreases |events|
  {
    if events != [] {
      StepKeepsAccounts(s, events[0]);
      RunKeepsAccounts(Next(s, events[0]), events[1..], end);
    }
  }

  /** All creations and registrations under way have finished, and so have the sessions that were going away. */
  predicate Quiet(s: State) {
    && (forall id :: id in s.creations ==> s.creations[id].pc == Finished)
    && (forall sid :: sid in s.sessions ==>
          s.sessions[sid].pc == Ended || (s.sessions[sid].pc == Serving && sid !in s.closing))
  }

  /** Once everything under way has finished, every task taken on the immediate path
      for an agent with a session has been put on a connection of that agent, unless it
      was canceled: failed sends, lost connections and reconnects in between strand
      nothing. */
  lemma NoImmediateTaskStranded(events: seq<Event>, end: State, id: Id)
    requires Run(START, events, end) && Quiet(end)
    requires id in end.creations && !end.creations[id].deferred && end.creations[id].agent in end.clients
    ensures id in end.canceled || exists d :: d in end.log && d.id == id && Belongs(end, id, d.session)
  {
    RunKeepsAccounts(START, events, end);
    assert NotLost(end, id) && ClientOk(end, end.creations[id].agent);
    if Delivered(end, id) {
      var d :| d in end.log && d.id == id;
      assert OnTime(end, d);
    }
  }
}
