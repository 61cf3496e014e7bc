/** Tasks and results as tables, from internal/server/store.go and internal/server/retention.go:
    changed one statement or transaction at a time. */
module TaskStore {
  import opened Common
  import TimeText

  type Moment = TimeText.Moment

  datatype Id = Id(text: string)
  datatype AgentId = AgentId(text: string)

  /** The state column. SaveResult stores whatever status an agent reports, so any other text can occur. */
  datatype Status =
    | Queued | Dispatched | CancelRequested
    | Success | Failed | Timeout | Canceled
    | Other(text: string)
  {
    predicate Terminal() { Success? || Failed? || Timeout? || Canceled? }
    predicate NonTerminal() { Queued? || Dispatched? || CancelRequested? }
  }

  datatype Task = Task(id: Id, agent: AgentId, kind: string, command: string,
                       timeoutSecs: int, priority: int, createdAt: Moment)

  datatype TaskRow = TaskRow(task: Task, state: Status, releaseAt: Option<Time>, dispatchedAt: Option<Time>)

  /** The stderr column: the text an agent captured, or one of the store's own three messages. */
  datatype Stderr = Captured(text: string) | NoResultBeforeTimeout | CanceledBeforeResult | CanceledBeforeDispatch

  datatype ResultRow = ResultRow(agent: AgentId, status: Status, exitCode: int, stdout: string,
                                 stderr: Stderr, durationMs: int, completedAt: Time)

  datatype Tables = Tables(tasks: map<Id, TaskRow>, results: map<Id, ResultRow>)

  // ---------------------------------------------------------------- the statements

  function WithState(t: Tables, id: Id, state: Status): Tables
    requires id in t.tasks
  {
    t.(tasks := t.tasks[id := t.tasks[id].(state := state)])
  }

  /** The synthetic result of markTaskFinal and CancelTask: a row already there keeps its other columns. */
  function WithVerdict(t: Tables, id: Id, agent: AgentId, status: Status, stderr: Stderr, at: Time): Tables {
    var row := if id in t.results
               then t.results[id].(status := status, stderr := stderr, completedAt := at)
               else ResultRow(agent, status, 0, "", stderr, 0, at);
    t.(results := t.results[id := row])
  }

  function AddTask(t: Tables, task: Task, releaseAt: Option<Time>): Tables {
    t.(tasks := t.tasks[task.id := TaskRow(task, Queued, releaseAt, None)])
  }

  function MarkDispatched(t: Tables, id: Id, now: Time): Tables {
    if id in t.tasks && t.tasks[id].state == Queued
    then t.(tasks := t.tasks[id := t.tasks[id].(state := Dispatched, dispatchedAt := Some(now))])
    else t
  }

  predicate FinalApplies(t: Tables, id: Id, from: Status) {
    id in t.tasks && t.tasks[id].state == from
  }

  function MarkFinal(t: Tables, id: Id, agent: AgentId, status: Status, stderr: Stderr, at: Time, from: Status): Tables
  {
    if FinalApplies(t, id, from)
    then WithVerdict(WithState(t, id, status), id, agent, status, stderr, at)
    else t
  }

  function TimeOut(t: Tables, id: Id, agent: AgentId, at: Time): Tables {
    MarkFinal(t, id, agent, Timeout, NoResultBeforeTimeout, at, Dispatched)
  }

  function CancelReaped(t: Tables, id: Id, agent: AgentId, at: Time): Tables {
    MarkFinal(t, id, agent, Canceled, CanceledBeforeResult, at, CancelRequested)
  }

  predicate ResultApplies(t: Tables, id: Id, r: ResultRow) {
    id in t.tasks && t.tasks[id].task.agent == r.agent && t.tasks[id].state.NonTerminal()
  }

  function SaveResult(t: Tables, id: Id, r: ResultRow): Tables {
    if ResultApplies(t, id, r)
    then WithState(t, id, r.status).(results := t.results[id := r])
    else t
  }

  /** CancelTask's two writes. Neither repeats the check its caller made. */
  function CancelQueuedWrite(t: Tables, id: Id, agent: AgentId, now: Time): Tables {
    var t' := if id in t.tasks then WithState(t, id, Canceled) else t;
    WithVerdict(t', id, agent, Canceled, CanceledBeforeDispatch, now)
  }

  function CancelRequestWrite(t: Tables, id: Id): Tables {
    if id in t.tasks then WithState(t, id, CancelRequested) else t
  }

  /** CancelTask with its read and its write in one step. */
  function CancelTask(t: Tables, id: Id, now: Time): Tables {
    if id !in t.tasks || t.tasks[id].state.Terminal() then t
    else if t.tasks[id].state == Queued then CancelQueuedWrite(t, id, t.tasks[id].task.agent, now)
    else CancelRequestWrite(t, id)
  }

  /** created_at < cutoff, on the text of both. */
  predicate Expired(row: TaskRow, cutoff: Moment) {
    row.state.Terminal() && TimeText.Less(TimeText.Text(row.task.createdAt), TimeText.Text(cutoff))
  }

  function Prune(t: Tables, cutoff: Moment): Tables {
    var tasks := map id | id in t.tasks && !Expired(t.tasks[id], cutoff) :: t.tasks[id];
    Tables(tasks, map id | id in t.results && id in tasks :: t.results[id])
  }

  // ---------------------------------------------------------------- steps and runs

  datatype Step =
    | Adds(task: Task, releaseAt: Option<Time>)
    | Marks(id: Id, now: Time)
    | TimesOut(id: Id, agent: AgentId, at: Time)
    | ReapsCancel(id: Id, agent: AgentId, at: Time)
    | Saves(id: Id, result: ResultRow)
    | Cancels(id: Id, now: Time)
    | WritesCanceled(id: Id, agent: AgentId, now: Time)
    | WritesCancelRequested(id: Id)
    | Prunes(cutoff: Moment)

  function Apply(t: Tables, s: Step): Tables {
    match s
    case Adds(task, releaseAt) => AddTask(t, task, releaseAt)
    case Marks(id, now) => MarkDispatched(t, id, now)
    case TimesOut(id, agent, at) => TimeOut(t, id, agent, at)
    case ReapsCancel(id, agent, at) => CancelReaped(t, id, agent, at)
    case Saves(id, r) => SaveResult(t, id, r)
    case Cancels(id, now) => CancelTask(t, id, now)
    case WritesCanceled(id, agent, now) => CancelQueuedWrite(t, id, agent, now)
    case WritesCancelRequested(id) => CancelRequestWrite(t, id)
    case Prunes(cutoff) => Prune(t, cutoff)
  }

  function After(t: Tables, steps: seq<Step>): Tables
    decreases |steps|
  {
    if steps == [] then t else Apply(After(t, steps[..|steps| - 1]), steps[|steps| - 1])
  }

  const EMPTY := Tables(map[], map[])

  // ---------------------------------------------------------------- every run: states agree with results

  predicate AgreeAt(t: Tables, id: Id) {
    id in t.tasks && t.tasks[id].state.Terminal() ==>
      id in t.results && t.results[id].status == t.tasks[id].state
  }

  ghost predicate Agree(t: Tables) {
    forall id :: AgreeAt(t, id)
  }

  lemma StepKeepsAgreement(t: Tables, s: Step, id: Id)
    requires AgreeAt(t, id)
    ensures AgreeAt(Apply(t, s), id)
  {
    match s
    case Adds(task, releaseAt) =>
    case Marks(i, now) =>
    case TimesOut(i, agent, at) =>
    case ReapsCancel(i, agent, at) =>
    case Saves(i, r) =>
    case Cancels(i, now) =>
    case WritesCanceled(i, agent, now) =>
    case WritesCancelRequested(i) =>
    case Prunes(cutoff) =>
  }

  /** In every interleaving of all store steps, upserts over existing ids, unguarded
      cancel writes and retention included, a task in a terminal state has a result
      with that same status. */
  lemma {:induction false} StatesAgreeWithResults(steps: seq<Step>)
    ensures Agree(After(EMPTY, steps))
    decreases |steps|
  {
    if steps != [] {
      StatesAgreeWithResults(steps[..|steps| - 1]);
      forall id ensures AgreeAt(After(EMPTY, steps), id) {
        StepKeepsAgreement(After(EMPTY, steps[..|steps| - 1]), steps[|steps| - 1], id);
      }
    }
  }

  /** Text misjudges the two: they share a second, and one printed fraction begins the other. */
  predicate Misjudged(row: TaskRow, cutoff: Moment) { TimeText.Misordered(row.task.createdAt, cutoff) }

  predicate Older(row: TaskRow, cutoff: Moment) { TimeText.Instant(row.task.createdAt) < TimeText.Instant(cutoff) }

  /** A terminal task is pruned exactly when it is older than the cutoff, except where text
      misjudges the two, and there exactly when it is younger, by less than a second. */
  lemma ExpiredMeaning(row: TaskRow, cutoff: Moment)
    requires row.state.Terminal()
    ensures Expired(row, cutoff) <==>
      if Misjudged(row, cutoff) then !Older(row, cutoff) else Older(row, cutoff)
    ensures Expired(row, cutoff) ==>
      TimeText.Instant(row.task.createdAt) < TimeText.Instant(cutoff) + SECOND
  {
    TimeText.TextOrder(row.task.createdAt, cutoff);
    TimeText.DueDecision(row.task.createdAt, cutoff);
  }

  /** Retention removes only old terminal tasks, keeps every other row as it was, and leaves no orphan result. */
  lemma PruneRemovesOnlyHistory(t: Tables, cutoff: Moment)
    requires Agree(t)
    ensures var p := Prune(t, cutoff);
      && (forall id :: id in p.results ==> id in p.tasks)
      && (forall id :: id in t.tasks && Misjudged(t.tasks[id], cutoff) ==>
            (id !in p.tasks <==> t.tasks[id].state.Terminal() && !Older(t.tasks[id], cutoff)))
      && (forall id :: id in t.tasks && !Misjudged(t.tasks[id], cutoff) ==>
            (id !in p.tasks <==> t.tasks[id].state.Terminal() && Older(t.tasks[id], cutoff)))
      && (forall id :: id in p.tasks ==> id in t.tasks && p.tasks[id] == t.tasks[id])
      && (forall id :: id in p.tasks && id in t.results ==> id in p.results && p.results[id] == t.results[id])
      && Agree(p)
  {
    forall id ensures AgreeAt(Prune(t, cutoff), id) {
      StepKeepsAgreement(t, Prunes(cutoff), id);
    }
    forall id | id in t.tasks && t.tasks[id].state.Terminal()
      ensures Expired(t.tasks[id], cutoff) <==>
        if Misjudged(t.tasks[id], cutoff) then !Older(t.tasks[id], cutoff) else Older(t.tasks[id], cutoff)
    {
      ExpiredMeaning(t.tasks[id], cutoff);
    }
  }

  // ---------------------------------------------------------------- disciplined runs: states only climb

  function Rank(s: Status): nat {
    match s
    case Queued => 0
    case Dispatched => 1
    case CancelRequested => 2
    case Other(_) => 4
    case _ => 3
  }

  /** What the climbing theorems ask of a step: an id not used before, a status the
      agent can produce, and CancelTask as one step. */
  predicate Disciplined(s: Step, used: set<Id>) {
    match s
    case Adds(task, _) => task.id !in used
    case Saves(_, r) => r.status.Terminal()
    case WritesCanceled(_, _, _) => false
    case WritesCancelRequested(_) => false
    case _ => true
  }

  function UsedBy(s: Step): set<Id> {
    if s.Adds? then {s.task.id} else {}
  }

  function Used(steps: seq<Step>): set<Id>
    decreases |steps|
  {
    if steps == [] then {} else Used(steps[..|steps| - 1]) + UsedBy(steps[|steps| - 1])
  }

  predicate DisciplinedRun(steps: seq<Step>)
    decreases |steps|
  {
    steps == [] ||
    (DisciplinedRun(steps[..|steps| - 1]) && Disciplined(steps[|steps| - 1], Used(steps[..|steps| - 1])))
  }

  /** A row of a disciplined run: its id was used, its state is known, work that
      left the queue carries a dispatch time, and a terminal state has its result. */
  ghost predicate SoundAt(t: Tables, used: set<Id>, id: Id) {
    id in t.tasks ==>
      && id in used && !t.tasks[id].state.Other?
      && (t.tasks[id].state == Dispatched || t.tasks[id].state == CancelRequested ==> t.tasks[id].dispatchedAt.Some?)
      && (t.tasks[id].state.Terminal() ==> id in t.results && t.results[id].status == t.tasks[id].state)
  }

  ghost predicate Sound(t: Tables, used: set<Id>) {
    forall id :: SoundAt(t, used, id)
  }

  /** What one disciplined step does to a row that stays: nothing, or a climb; and a terminal row
      and its result never move. */
  ghost predicate Climbs(t: Tables, t': Tables, id: Id) {
    id in t.tasks && id in t'.tasks ==>
      && Rank(t.tasks[id].state) <= Rank(t'.tasks[id].state)
      && (t.tasks[id].state != t'.tasks[id].state ==> Rank(t.tasks[id].state) < Rank(t'.tasks[id].state))
      && (t.tasks[id].state.Terminal() ==>
            t'.tasks[id] == t.tasks[id] && id in t.results && id in t'.results && t'.results[id] == t.results[id])
  }

  lemma RowClimbs(t: Tables, used: set<Id>, s: Step, id: Id)
    requires SoundAt(t, used, id) && Disciplined(s, used)
    ensures Climbs(t, Apply(t, s), id)
    ensures id in Apply(t, s).tasks ==> id in t.tasks || id !in used
  {
    match s
    case Adds(task, releaseAt) =>
    case Marks(i, now) =>
    case TimesOut(i, agent, at) =>
    case ReapsCancel(i, agent, at) =>
    case Saves(i, r) =>
    case Cancels(i, now) =>
    case Prunes(cutoff) =>
  }

  lemma RowStaysSound(t: Tables, used: set<Id>, s: Step, id: Id)
    requires SoundAt(t, used, id) && Disciplined(s, used)
    ensures SoundAt(Apply(t, s), used + UsedBy(s), id)
  {
    match s
    case Adds(task, releaseAt) =>
    case Marks(i, now) =>
    case TimesOut(i, agent, at) =>
    case ReapsCancel(i, agent, at) =>
    case Saves(i, r) =>
    case Cancels(i, now) =>
    case Prunes(cutoff) =>
  }

  lemma DisciplinedStepClimbs(t: Tables, used: set<Id>, s: Step)
    requires Sound(t, used) && Disciplined(s, used)
    ensures Sound(Apply(t, s), used + UsedBy(s))
    ensures forall id :: Climbs(t, Apply(t, s), id)
    ensures forall id :: id in Apply(t, s).tasks ==> id in t.tasks || id !in used
  {
    forall id
      ensures SoundAt(Apply(t, s), used + UsedBy(s), id) && Climbs(t, Apply(t, s), id)
      ensures id in Apply(t, s).tasks ==> id in t.tasks || id !in used
    {
      RowClimbs(t, used, s, id);
      RowStaysSound(t, used, s, id);
    }
  }

  /** Every disciplined run keeps dispatch times and state/result agreement. */
  lemma {:induction false} DisciplinedRunSound(steps: seq<Step>)
    requires DisciplinedRun(steps)
    ensures Sound(After(EMPTY, steps), Used(steps))
    decreases |steps|
  {
    if steps != [] {
      var before := steps[..|steps| - 1];
      DisciplinedRunSound(before);
      DisciplinedStepClimbs(After(EMPTY, before), Used(before), steps[|steps| - 1]);
    }
  }

  lemma {:induction false} PrefixFacts(steps: seq<Step>, i: nat)
    requires i <= |steps| && DisciplinedRun(steps)
    ensures DisciplinedRun(steps[..i]) && Used(steps[..i]) <= Used(steps)
    decreases |steps|
  {
    if i < |steps| {
      var before := steps[..|steps| - 1];
      PrefixFacts(before, i);
      assert before[..i] == steps[..i];
    } else {
      assert steps[..i] == steps;
    }
  }

  /** How often a task's state changes along a run. */
  function Changes(id: Id, steps: seq<Step>): nat
    decreases |steps|
  {
    if steps == [] then 0
    else
      var before := steps[..|steps| - 1];
      var t, t' := After(EMPTY, before), After(EMPTY, steps);
      var moved := id in t.tasks && id in t'.tasks && t.tasks[id].state != t'.tasks[id].state;
      Changes(id, before) + (if moved then 1 else 0)
  }

  /** Each task changes state at most three times, and no more often than its rank has climbed. */
  lemma {:induction false} AtMostThreeChanges(id: Id, steps: seq<Step>)
    requires DisciplinedRun(steps)
    ensures Changes(id, steps) <= 3
    ensures id in After(EMPTY, steps).tasks ==> Changes(id, steps) <= Rank(After(EMPTY, steps).tasks[id].state)
    ensures id !in Used(steps) ==> Changes(id, steps) == 0
    decreases |steps|
  {
    if steps != [] {
      var before := steps[..|steps| - 1];
      AtMostThreeChanges(id, before);
      DisciplinedRunSound(before);
      DisciplinedStepClimbs(After(EMPTY, before), Used(before), steps[|steps| - 1]);
      assert Climbs(After(EMPTY, before), After(EMPTY, steps), id);
      assert SoundAt(After(EMPTY, before), Used(before), id);
    }
  }

  /** Along a disciplined run, states only climb, and once terminal a row and its
      result stay exactly as they are for as long as the row exists. */
  lemma {:induction false} StatesOnlyClimb(id: Id, steps: seq<Step>, i: nat)
    requires DisciplinedRun(steps) && i <= |steps|
    ensures Climbs(After(EMPTY, steps[..i]), After(EMPTY, steps), id)
    ensures id in After(EMPTY, steps).tasks && id !in After(EMPTY, steps[..i]).tasks ==> id !in Used(steps[..i])
    decreases |steps|
  {
    DisciplinedRunSound(steps);
    assert SoundAt(After(EMPTY, steps), Used(steps), id);
    if i == |steps| {
      assert steps[..i] == steps;
    } else {
      var before := steps[..|steps| - 1];
      assert before[..i] == steps[..i];
      StatesOnlyClimb(id, before, i);
      PrefixFacts(before, i);
      DisciplinedRunSound(steps[..i]);
      DisciplinedRunSound(before);
      DisciplinedStepClimbs(After(EMPTY, before), Used(before), steps[|steps| - 1]);
      assert SoundAt(After(EMPTY, steps[..i]), Used(steps[..i]), id);
      assert Climbs(After(EMPTY, before), After(EMPTY, steps), id);
      assert After(EMPTY, steps) == Apply(After(EMPTY, before), steps[|steps| - 1]);
    }
  }

  /** The tables after the first i steps. */
  function At(steps: seq<Step>, i: nat): Tables
    requires i <= |steps|
  {
    After(EMPTY, steps[..i])
  }

  lemma AtNext(steps: seq<Step>, i: nat)
    requires i < |steps|
    ensures At(steps, i + 1) == Apply(At(steps, i), steps[i])
  {
    assert steps[..i + 1][..i] == steps[..i];
  }

  /** Between any two points of a disciplined run. */
  lemma ClimbsBetween(steps: seq<Step>, i: nat, j: nat, id: Id)
    requires DisciplinedRun(steps) && i <= j <= |steps|
    ensures Climbs(At(steps, i), At(steps, j), id)
    ensures SoundAt(At(steps, i), Used(steps[..i]), id)
  {
    PrefixFacts(steps, i);
    PrefixFacts(steps, j);
    DisciplinedRunSound(steps[..i]);
    assert steps[..j][..i] == steps[..i];
    StatesOnlyClimb(id, steps[..j], i);
  }

  /** A pruned task does not come back. */
  lemma GoneForGood(steps: seq<Step>, i: nat, j: nat, k: nat, id: Id)
    requires DisciplinedRun(steps) && i <= j <= k <= |steps|
    requires id in At(steps, i).tasks && id in At(steps, k).tasks
    ensures id in At(steps, j).tasks
  {
    ClimbsBetween(steps, i, j, id);
    PrefixFacts(steps, j);
    PrefixFacts(steps, k);
    assert steps[..j][..i] == steps[..i] && steps[..k][..j] == steps[..j];
    PrefixFacts(steps[..j], i);
    StatesOnlyClimb(id, steps[..k], j);
  }

  // ---------------------------------------------------------------- both restrictions are needed

  /** CancelTask's late write of 'canceled' changes the row or the result it finds: it is a
      no-op only over the very same cancellation. */
  predicate OverwritesWithCanceled(t: Tables, id: Id, now: Time)
    requires id in t.tasks && id in t.results
  {
    t.tasks[id].state != Canceled || t.results[id].stderr != CanceledBeforeDispatch || t.results[id].completedAt != now
  }

  /** The row stays, but it or its result does not stay as it was. */
  predicate Changed(t: Tables, t': Tables, id: Id)
    requires id in t.tasks && id in t.results
  {
    id in t'.tasks && !(t'.tasks[id] == t.tasks[id] && id in t'.results && t'.results[id] == t.results[id])
  }

  /** A step that reaches for a terminal task: an upsert over its id, or an unguarded write of CancelTask. */
  predicate Reopens(t: Tables, s: Step, id: Id)
    requires id in t.tasks && id in t.results
  {
    || (s.Adds? && s.task.id == id)
    || (s.WritesCancelRequested? && s.id == id)
    || (s.WritesCanceled? && s.id == id && OverwritesWithCanceled(t, id, s.now))
  }

  lemma ChangedExactlyBy(t: Tables, s: Step, id: Id)
    requires AgreeAt(t, id) && id in t.tasks && t.tasks[id].state.Terminal()
    ensures Changed(t, Apply(t, s), id) <==> Reopens(t, s, id)
  {
    match s
    case Adds(task, releaseAt) =>
    case Marks(i, now) =>
    case TimesOut(i, agent, at) =>
    case ReapsCancel(i, agent, at) =>
    case Saves(i, r) =>
    case Cancels(i, now) =>
    case WritesCanceled(i, agent, now) =>
    case WritesCancelRequested(i) =>
    case Prunes(cutoff) =>
  }

  /** In every run whatsoever: the steps at which a terminal task that stays changes its
      row or its result are exactly the ones that reopen it. */
  lemma TerminalChangedExactlyBy(steps: seq<Step>, i: nat, id: Id)
    requires i < |steps| && id in At(steps, i).tasks && At(steps, i).tasks[id].state.Terminal()
    ensures id in At(steps, i).results
    ensures Changed(At(steps, i), At(steps, i + 1), id) <==> Reopens(At(steps, i), steps[i], id)
  {
    StatesAgreeWithResults(steps[..i]);
    assert AgreeAt(At(steps, i), id);
    AtNext(steps, i);
    ChangedExactlyBy(At(steps, i), steps[i], id);
  }

  /** No step from i to j reaches for id with an upsert or an unguarded write. */
  predicate Untouched(steps: seq<Step>, i: nat, j: nat, id: Id)
    requires i <= j <= |steps|
  {
    forall k :: i <= k < j ==>
      && !(steps[k].Adds? && steps[k].task.id == id)
      && !((steps[k].WritesCanceled? || steps[k].WritesCancelRequested?) && steps[k].id == id)
  }

  /** If the task is there, then exactly as it was, result and all. */
  predicate AsBefore(was: Tables, t: Tables, id: Id)
    requires id in was.tasks && id in was.results
  {
    id in t.tasks ==> t.tasks[id] == was.tasks[id] && id in t.results && t.results[id] == was.results[id]
  }

  lemma StaysAsBefore(was: Tables, t: Tables, s: Step, id: Id)
    requires id in was.tasks && was.tasks[id].state.Terminal() && AgreeAt(was, id) && AsBefore(was, t, id)
    requires Untouched([s], 0, 1, id)
    ensures AsBefore(was, Apply(t, s), id)
  {
    assert [s][0] == s;
    if id in t.tasks {
      ChangedExactlyBy(t, s, id);
    }
  }

  /** So without those, in a run that is otherwise as wild as it likes, a finished task
      and its result stay exactly as they are until it is pruned, and then it is gone. */
  lemma {:induction false} TerminalKept(steps: seq<Step>, i: nat, j: nat, id: Id)
    requires i <= j <= |steps| && Untouched(steps, i, j, id)
    requires id in At(steps, i).tasks && At(steps, i).tasks[id].state.Terminal()
    ensures id in At(steps, i).results
    ensures AsBefore(At(steps, i), At(steps, j), id)
    decreases j - i
  {
    StatesAgreeWithResults(steps[..i]);
    assert AgreeAt(At(steps, i), id);
    if i < j {
      TerminalKept(steps, i, j - 1, id);
      AtNext(steps, j - 1);
      StaysAsBefore(At(steps, i), At(steps, j - 1), steps[j - 1], id);
    }
  }

  /** A step that takes a state down the ladder, or changes a terminal task. */
  predicate Slips(t: Tables, s: Step, id: Id)
    requires id in t.tasks && AgreeAt(t, id)
  {
    var state := t.tasks[id].state;
    match s
    case Adds(task, _) => task.id == id && state != Queued
    case Saves(i, r) => i == id && ResultApplies(t, id, r) && Rank(r.status) < Rank(state)
    case Cancels(i, _) => i == id && state.Other?
    case WritesCanceled(i, _, now) =>
      i == id && (state.Other? || (state.Terminal() && OverwritesWithCanceled(t, id, now)))
    case WritesCancelRequested(i) => i == id && (state.Other? || state.Terminal())
    case _ => false
  }

  lemma WrittenRowClimbs(t: Tables, s: Step, id: Id)
    requires AgreeAt(t, id) && id in t.tasks && id in Apply(t, s).tasks
    requires s.Saves? || s.WritesCanceled? || s.WritesCancelRequested?
    ensures Climbs(t, Apply(t, s), id) <==> !Slips(t, s, id)
  {
    match s
    case Saves(i, r) =>
    case WritesCanceled(i, agent, now) =>
    case WritesCancelRequested(i) =>
  }

  /** A row climbs through every step except exactly those. */
  lemma ClimbsExactlyUnless(t: Tables, s: Step, id: Id)
    requires AgreeAt(t, id) && id in t.tasks && id in Apply(t, s).tasks
    ensures Climbs(t, Apply(t, s), id) <==> !Slips(t, s, id)
  {
    if s.Saves? || s.WritesCanceled? || s.WritesCancelRequested? {
      WrittenRowClimbs(t, s, id);
    }
  }

  /** What the reaper relies on: work that left the queue carries a dispatch time. */
  predicate TimedAt(t: Tables, id: Id) {
    id in t.tasks && (t.tasks[id].state == Dispatched || t.tasks[id].state == CancelRequested) ==>
      t.tasks[id].dispatchedAt.Some?
  }

  /** A row gets in flight without a dispatch time exactly by a late cancel request on a row
      that has none, by a reported status no agent produces, or by a cancel of such a row. */
  lemma TimedExactlyUnless(t: Tables, s: Step, id: Id)
    requires TimedAt(t, id)
    ensures TimedAt(Apply(t, s), id) <==>
      !(&& id in t.tasks && t.tasks[id].dispatchedAt.None?
        && (|| s == WritesCancelRequested(id)
            || (s.Cancels? && s.id == id && t.tasks[id].state.Other?)
            || (s.Saves? && s.id == id && ResultApplies(t, id, s.result)
                && (s.result.status == Dispatched || s.result.status == CancelRequested))))
  {
    match s
    case Adds(task, releaseAt) =>
    case Marks(i, now) =>
    case TimesOut(i, agent, at) =>
    case ReapsCancel(i, agent, at) =>
    case Saves(i, r) =>
    case Cancels(i, now) =>
    case WritesCanceled(i, agent, now) =>
    case WritesCancelRequested(i) =>
    case Prunes(cutoff) =>
  }

  /** A requeue of a task whose result has landed meanwhile reopens it. */
  lemma UpsertReopens(task: Task, result: ResultRow, now: Time)
    requires result.status == Success && result.agent == task.agent
    ensures var done := After(EMPTY, [Adds(task, None), Marks(task.id, now), Saves(task.id, result)]);
      && task.id in done.tasks && done.tasks[task.id].state == Success
      && task.id in done.results
      && Apply(done, Adds(task, None)).tasks[task.id].state == Queued
      && Apply(done, Adds(task, None)).results[task.id] == result
  {
    var s1, s2, s3 := Adds(task, None), Marks(task.id, now), Saves(task.id, result);
    assert [s1, s2, s3][..2] == [s1, s2] && [s1, s2][..1] == [s1] && [s1][..0] == [];
    assert After(EMPTY, [s1]) == Apply(EMPTY, s1);
    assert After(EMPTY, [s1, s2]) == Apply(Apply(EMPTY, s1), s2);
  }

  /** CancelTask read 'queued', the command then ran to success, and the late write
      overwrites both the state and the result's status. */
  lemma SplitCancelOverwrites(task: Task, result: ResultRow, now: Time)
    requires result.status == Success && result.agent == task.agent
    ensures var read := After(EMPTY, [Adds(task, None)]);
      var done := Apply(Apply(read, Marks(task.id, now)), Saves(task.id, result));
      var late := Apply(done, WritesCanceled(task.id, task.agent, now));
      && read.tasks[task.id].state == Queued
      && done.tasks[task.id].state == Success
      && late.tasks[task.id].state == Canceled && late.results[task.id].status == Canceled
      && late.results[task.id].stdout == result.stdout
  {
    assert [Adds(task, None)][..0] == [];
    assert After(EMPTY, [Adds(task, None)]) == Apply(EMPTY, Adds(task, None));
  }

  // ---------------------------------------------------------------- the store object

  class Store {
    var tasks: map<Id, TaskRow>
    var results: map<Id, ResultRow>

    constructor ()
      ensures View() == EMPTY
    {
      tasks, results := map[], map[];
    }

    function View(): Tables
      reads this
    {
      Tables(tasks, results)
    }

    method Add(task: Task, releaseAt: Option<Time>)
      modifies this
      ensures View() == AddTask(old(View()), task, releaseAt)
    {
      tasks := tasks[task.id := TaskRow(task, Queued, releaseAt, None)];
    }

    method Mark(id: Id, now: Time)
      modifies this
      ensures View() == MarkDispatched(old(View()), id, now)
    {
      if id in tasks && tasks[id].state == Queued {
        tasks := tasks[id := tasks[id].(state := Dispatched, dispatchedAt := Some(now))];
      }
    }

    /** The synthetic result row, inserted or merged into the one already there. */
    method Verdict(id: Id, agent: AgentId, status: Status, stderr: Stderr, at: Time)
      modifies this`results
      ensures View() == WithVerdict(old(View()), id, agent, status, stderr, at)
    {
      if id in results {
        results := results[id := results[id].(status := status, stderr := stderr, completedAt := at)];
      } else {
        results := results[id := ResultRow(agent, status, 0, "", stderr, 0, at)];
      }
    }

    method Final(id: Id, agent: AgentId, status: Status, stderr: Stderr, at: Time, from: Status) returns (ok: bool)
      modifies this
      ensures View() == MarkFinal(old(View()), id, agent, status, stderr, at, from)
      ensures ok == FinalApplies(old(View()), id, from)
    {
      if id !in tasks || tasks[id].state != from {
        return false;
      }
      ghost var t := View();
      tasks := tasks[id := tasks[id].(state := status)];
      assert View() == WithState(t, id, status);
      Verdict(id, agent, status, stderr, at);
      ok := true;
    }

    method Save(id: Id, r: ResultRow) returns (applied: bool)
      modifies this
      ensures View() == SaveResult(old(View()), id, r)
      ensures applied == ResultApplies(old(View()), id, r)
    {
      if id !in tasks || tasks[id].task.agent != r.agent || !tasks[id].state.NonTerminal() {
        return false;
      }
      tasks := tasks[id := tasks[id].(state := r.status)];
      results := results[id := r];
      applied := true;
    }

    /** Uninterrupted; the state reported to the operator is the one the row then has. */
    method Cancel(id: Id, now: Time) returns (found: bool, state: Status)
      modifies this
      ensures View() == CancelTask(old(View()), id, now)
      ensures found == (id in old(tasks)) && (found ==> id in tasks && tasks[id].state == state)
    {
      if id !in tasks {
        return false, Other("");
      }
      var row := tasks[id];
      if row.state.Terminal() {
        return true, row.state;
      }
      if row.state == Queued {
        tasks := tasks[id := row.(state := Canceled)];
        Verdict(id, row.task.agent, Canceled, CanceledBeforeDispatch, now);
        return true, Canceled;
      }
      tasks := tasks[id := row.(state := CancelRequested)];
      return true, CancelRequested;
    }

    /** One transaction: old terminal tasks first, then every result left without a task. */
    method PruneAudits(cutoff: Moment) returns (removedTasks: int, removedResults: int)
      modifies this
      ensures View() == Prune(old(View()), cutoff)
      ensures removedTasks == |set id | id in old(tasks) && Expired(old(tasks)[id], cutoff)|
      ensures removedResults == |set id | id in old(results) && id !in tasks|
    {
      var expired := set id | id in tasks && Expired(tasks[id], cutoff);
      tasks, removedTasks := tasks - expired, |expired|;
      var orphans := set id | id in results && id !in tasks;
      results, removedResults := results - orphans, |orphans|;
      assert View().tasks == Prune(old(View()), cutoff).tasks;
      assert View().results == Prune(old(View()), cutoff).results;
    }
  }
}
