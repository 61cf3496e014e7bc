/** What each store statement does to the tables, column by column, and where the columns of
    a row come from in a run: which statement of internal/server/store.go wrote them. */
module TaskHistory {
  import opened Common
  import opened TaskStore

  // ---------------------------------------------------------------- one statement

  /** The row and the result of id are the same in both. */
  predicate SameAt(t: Tables, t': Tables, id: Id) {
    && (id in t'.tasks <==> id in t.tasks) && (id in t.tasks ==> t'.tasks[id] == t.tasks[id])
    && (id in t'.results <==> id in t.results) && (id in t.results ==> t'.results[id] == t.results[id])
  }

  /** The task a statement is about; a prune is about no one in particular. */
  predicate About(s: Step, id: Id) {
    match s
    case Adds(task, _) => task.id == id
    case Prunes(_) => true
    case _ => s.id == id
  }

  /** A statement about one task leaves every other row and result as it is. */
  lemma OthersUntouched(t: Tables, s: Step, id: Id)
    requires !About(s, id)
    ensures SameAt(t, Apply(t, s), id)
  {}

  /** A new or reset row: queued, with the task and the release time given, and no dispatch time. */
  lemma AddDecides(t: Tables, task: Task, releaseAt: Option<Time>)
    ensures var t' := Apply(t, Adds(task, releaseAt));
      && task.id in t'.tasks
      && var row := t'.tasks[task.id];
         row.task == task && row.state == Queued && row.releaseAt == releaseAt && row.dispatchedAt == None
    ensures Apply(t, Adds(task, releaseAt)).results == t.results
  {}

  /** Only a queued row leaves the queue, at the time given. */
  lemma MarkDecides(t: Tables, id: Id, now: Time)
    ensures var t' := Apply(t, Marks(id, now));
      if id in t.tasks && t.tasks[id].state == Queued
      then && id in t'.tasks && t'.tasks[id].state == Dispatched && t'.tasks[id].dispatchedAt == Some(now)
           && t'.tasks[id].task == t.tasks[id].task && t'.tasks[id].releaseAt == t.tasks[id].releaseAt
           && t'.results == t.results
      else t' == t
  {}

  predicate Open(s: Status) { s == Queued || s == Dispatched || s == CancelRequested }

  /** A reported result lands exactly on a task of the reporting agent that is not finished
      yet: the row takes its status and keeps all else, the result is stored as reported.
      Otherwise nothing happens. */
  lemma SaveDecides(t: Tables, id: Id, r: ResultRow)
    ensures var t' := Apply(t, Saves(id, r));
      if id in t.tasks && t.tasks[id].task.agent == r.agent && Open(t.tasks[id].state)
      then && id in t'.tasks && t'.tasks[id].state == r.status
           && t'.tasks[id].task == t.tasks[id].task && t'.tasks[id].releaseAt == t.tasks[id].releaseAt
           && t'.tasks[id].dispatchedAt == t.tasks[id].dispatchedAt
           && id in t'.results && t'.results[id] == r
      else t' == t
  {}

  /** A cancel closes a queued task with a result saying so, asks for a dispatched one, and
      leaves a finished one alone. */
  lemma CancelDecides(t: Tables, id: Id, now: Time)
    requires id in t.tasks
    ensures var t' := Apply(t, Cancels(id, now));
      && id in t'.tasks && t'.tasks[id].task == t.tasks[id].task
      && t'.tasks[id].releaseAt == t.tasks[id].releaseAt && t'.tasks[id].dispatchedAt == t.tasks[id].dispatchedAt
      && (t.tasks[id].state == Queued ==>
            && t'.tasks[id].state == Canceled && id in t'.results
            && t'.results[id].status == Canceled && t'.results[id].stderr == CanceledBeforeDispatch
            && t'.results[id].completedAt == now)
      && (t.tasks[id].state == Dispatched || t.tasks[id].state == CancelRequested ==>
            t'.tasks[id].state == CancelRequested && t'.results == t.results)
      && (t.tasks[id].state.Terminal() ==> t' == t)
  {}

  /** The reaper's verdicts: a dispatched task times out, a requested cancel is carried out,
      each with a result saying so; on any other state they do nothing. */
  lemma VerdictsDecide(t: Tables, id: Id, agent: AgentId, at: Time)
    ensures var t' := Apply(t, TimesOut(id, agent, at));
      if id in t.tasks && t.tasks[id].state == Dispatched
      then && id in t'.tasks && t'.tasks[id] == t.tasks[id].(state := Timeout) && id in t'.results
           && VerdictRow(t, id, agent, t'.results[id], Timeout, NoResultBeforeTimeout, at)
      else t' == t
    ensures var t' := Apply(t, ReapsCancel(id, agent, at));
      if id in t.tasks && t.tasks[id].state == CancelRequested
      then && id in t'.tasks && t'.tasks[id] == t.tasks[id].(state := Canceled) && id in t'.results
           && VerdictRow(t, id, agent, t'.results[id], Canceled, CanceledBeforeResult, at)
      else t' == t
  {}

  /** A synthetic result: empty output where there was none, and the old output where there was. */
  predicate VerdictRow(t: Tables, id: Id, agent: AgentId, r: ResultRow, status: Status, stderr: Stderr, at: Time) {
    && r.status == status && r.stderr == stderr && r.completedAt == at
    && (id !in t.results ==> r.agent == agent && r.stdout == "" && r.exitCode == 0 && r.durationMs == 0)
    && (id in t.results ==>
          && r.agent == t.results[id].agent && r.stdout == t.results[id].stdout
          && r.exitCode == t.results[id].exitCode && r.durationMs == t.results[id].durationMs)
  }

  /** CancelTask's late writes happen whatever the row has become; where it is gone, the one
      that writes a result leaves that result behind without a task. */
  lemma LateWritesDecide(t: Tables, id: Id, agent: AgentId, now: Time)
    ensures var t' := Apply(t, WritesCanceled(id, agent, now));
      && (id in t'.tasks <==> id in t.tasks)
      && (id in t.tasks ==> t'.tasks[id] == t.tasks[id].(state := Canceled))
      && id in t'.results && VerdictRow(t, id, agent, t'.results[id], Canceled, CanceledBeforeDispatch, now)
    ensures var t' := Apply(t, WritesCancelRequested(id));
      && t'.results == t.results && (id in t'.tasks <==> id in t.tasks)
      && (id in t.tasks ==> t'.tasks[id] == t.tasks[id].(state := CancelRequested))
  {}

  // ---------------------------------------------------------------- who may report

  /** A result from an agent other than the task's own changes nothing, at any point of any run. */
  lemma ForeignResultIgnored(steps: seq<Step>, i: nat, id: Id)
    requires i < |steps| && id in At(steps, i).tasks
    requires steps[i].Saves? && steps[i].id == id && steps[i].result.agent != At(steps, i).tasks[id].task.agent
    ensures At(steps, i + 1) == At(steps, i)
  {
    AtNext(steps, i);
    SaveDecides(At(steps, i), id, steps[i].result);
  }

  // ---------------------------------------------------------------- where a row comes from

  predicate AddsId(s: Step, id: Id) { s.Adds? && s.task.id == id }

  /** Nobody upserts id in steps k..n. */
  predicate NoAdds(steps: seq<Step>, k: nat, n: nat, id: Id)
    requires n <= |steps|
  {
    forall j :: k <= j < n ==> !AddsId(steps[j], id)
  }

  /** A row's task and release time change only by an upsert. */
  lemma RowKeepsTask(t: Tables, s: Step, id: Id)
    requires !AddsId(s, id) && id in Apply(t, s).tasks
    ensures id in t.tasks && Apply(t, s).tasks[id].task == t.tasks[id].task
    ensures Apply(t, s).tasks[id].releaseAt == t.tasks[id].releaseAt
  {}

  /** In every run, a row's task and release time are those of the last upsert of its id. */
  lemma {:induction false} RowComesFromAdd(steps: seq<Step>, n: nat, id: Id) returns (k: nat)
    requires n <= |steps| && id in At(steps, n).tasks
    ensures k < n && AddsId(steps[k], id) && NoAdds(steps, k + 1, n, id)
    ensures At(steps, n).tasks[id].task == steps[k].task && At(steps, n).tasks[id].releaseAt == steps[k].releaseAt
    decreases n
  {
    assert At(steps, 0) == EMPTY;
    if n > 0 {
      AtNext(steps, n - 1);
      if AddsId(steps[n - 1], id) {
        k := n - 1;
        AddDecides(At(steps, n - 1), steps[n - 1].task, steps[n - 1].releaseAt);
      } else {
        RowKeepsTask(At(steps, n - 1), steps[n - 1], id);
        k := RowComesFromAdd(steps, n - 1, id);
      }
    }
  }

  lemma UsedSince(steps: seq<Step>, k: nat, n: nat, id: Id)
    requires k <= n <= |steps| && DisciplinedRun(steps) && id in At(steps, k).tasks
    ensures id in Used(steps[..n])
  {
    ClimbsBetween(steps, k, n, id);
    PrefixFacts(steps, n);
    assert steps[..n][..k] == steps[..k];
    PrefixFacts(steps[..n], k);
  }

  /** Step n of a disciplined run, seen from a task that existed at k. */
  lemma StepOfRun(steps: seq<Step>, k: nat, n: nat, id: Id)
    requires k <= n < |steps| && DisciplinedRun(steps) && id in At(steps, k).tasks
    ensures At(steps, n + 1) == Apply(At(steps, n), steps[n])
    ensures id in Used(steps[..n]) && Disciplined(steps[n], Used(steps[..n]))
  {
    AtNext(steps, n);
    UsedSince(steps, k, n, id);
    PrefixFacts(steps, n + 1);
    assert steps[..n + 1][..n] == steps[..n];
  }

  /** In a disciplined run a task's columns stay what they are for as long as it exists. */
  lemma {:induction false} TaskStays(steps: seq<Step>, i: nat, n: nat, id: Id)
    requires DisciplinedRun(steps) && i <= n <= |steps| && id in At(steps, i).tasks && id in At(steps, n).tasks
    ensures At(steps, n).tasks[id].task == At(steps, i).tasks[id].task
    decreases n
  {
    if i < n {
      StepOfRun(steps, i, n - 1, id);
      RowKeepsTask(At(steps, n - 1), steps[n - 1], id);
      TaskStays(steps, i, n - 1, id);
    }
  }

  // ---------------------------------------------------------------- where a dispatch time comes from

  /** Step k took id out of the queue at time d. */
  predicate TookOut(steps: seq<Step>, k: nat, id: Id, d: Time)
    requires k < |steps|
  {
    steps[k] == Marks(id, d) && id in At(steps, k).tasks && At(steps, k).tasks[id].state == Queued
  }

  lemma DispatchTimeStep(t: Tables, s: Step, id: Id)
    requires id in Apply(t, s).tasks && Apply(t, s).tasks[id].dispatchedAt.Some?
    ensures id in t.tasks && !AddsId(s, id)
    ensures
      || Apply(t, s).tasks[id].dispatchedAt == t.tasks[id].dispatchedAt
      || (t.tasks[id].state == Queued && s == Marks(id, Apply(t, s).tasks[id].dispatchedAt.value))
  {}

  /** In every run, a dispatch time is the time of the mark that took the row out of the
      queue, with no upsert since. */
  lemma {:induction false} DispatchTimeComesFromMark(steps: seq<Step>, n: nat, id: Id) returns (k: nat)
    requires n <= |steps| && id in At(steps, n).tasks && At(steps, n).tasks[id].dispatchedAt.Some?
    ensures k < n && TookOut(steps, k, id, At(steps, n).tasks[id].dispatchedAt.value) && NoAdds(steps, k, n, id)
    decreases n
  {
    assert At(steps, 0) == EMPTY;
    if n > 0 {
      AtNext(steps, n - 1);
      DispatchTimeStep(At(steps, n - 1), steps[n - 1], id);
      if At(steps, n).tasks[id].dispatchedAt == At(steps, n - 1).tasks[id].dispatchedAt {
        k := DispatchTimeComesFromMark(steps, n - 1, id);
      } else {
        k := n - 1;
      }
    }
  }

  /** Marked at d, and out of the queue with that time ever since. */
  predicate MarkedAt(t: Tables, id: Id, d: Time) {
    id in t.tasks ==> t.tasks[id].dispatchedAt == Some(d) && t.tasks[id].state != Queued
  }

  lemma MarkStays(t: Tables, used: set<Id>, s: Step, id: Id, d: Time)
    requires MarkedAt(t, id, d) && id in used && Disciplined(s, used)
    ensures MarkedAt(Apply(t, s), id, d)
  {}

  /** In a disciplined run, a task taken out of the queue at d carries d for as long as it exists. */
  lemma {:induction false} MarkedForGood(steps: seq<Step>, k: nat, n: nat, id: Id, d: Time)
    requires DisciplinedRun(steps) && k < n <= |steps| && TookOut(steps, k, id, d)
    ensures MarkedAt(At(steps, n), id, d)
    decreases n
  {
    StepOfRun(steps, k, n - 1, id);
    if n == k + 1 {
      MarkDecides(At(steps, k), id, d);
    } else {
      MarkedForGood(steps, k, n - 1, id, d);
      MarkStays(At(steps, n - 1), Used(steps[..n - 1]), steps[n - 1], id, d);
    }
  }

  // ---------------------------------------------------------------- where an outcome comes from

  /** Step s, taken in t, is one that gives id the outcome: its own agent's report of an open
      task, the reaper's verdict on a task in flight, or a cancel of a queued one, late or not. */
  predicate GivesOutcome(t: Tables, s: Step, id: Id, outcome: Status) {
    id in t.tasks &&
    match s
    case Saves(i, r) =>
      i == id && r.status == outcome && r.agent == t.tasks[id].task.agent && Open(t.tasks[id].state)
    case TimesOut(i, _, _) => i == id && outcome == Timeout && t.tasks[id].state == Dispatched
    case ReapsCancel(i, _, _) => i == id && outcome == Canceled && t.tasks[id].state == CancelRequested
    case Cancels(i, _) => i == id && outcome == Canceled && t.tasks[id].state == Queued
    case WritesCanceled(i, _, _) => i == id && outcome == Canceled
    case _ => false
  }

  predicate HasOutcome(t: Tables, id: Id, outcome: Status) { id in t.tasks && t.tasks[id].state == outcome }

  /** A terminal state is there already, or this step gives it. */
  lemma OutcomeStep(t: Tables, s: Step, id: Id, outcome: Status)
    requires outcome.Terminal() && HasOutcome(Apply(t, s), id, outcome)
    ensures HasOutcome(t, id, outcome) || GivesOutcome(t, s, id, outcome)
    ensures HasOutcome(t, id, outcome) && outcome != Canceled && id in t.results ==>
      id in Apply(t, s).results && Apply(t, s).results[id] == t.results[id]
    ensures !HasOutcome(t, id, outcome) && s.Saves? ==>
      id in Apply(t, s).results && Apply(t, s).results[id] == s.result
  {
    match s
    case Adds(task, releaseAt) =>
    case Marks(i, now) =>
    case TimesOut(i, agent, at) =>
    case ReapsCancel(i, agent, at) =>
    case Saves(i, r) =>
    case Cancels(i, now) =>
    case WritesCanceled(i, agent, now) =>
    case WritesCancelRequested(i) =>
    case Prunes(cutoff) =>
  }

  /** In every run, a terminal state was given by one of those steps and has stood since; and
      unless it is a cancellation, so has the result that came with it. In particular a
      task is a success only if its own agent reported one. */
  lemma {:induction false} OutcomeComesFrom(steps: seq<Step>, n: nat, id: Id, outcome: Status) returns (k: nat)
    requires n <= |steps| && outcome.Terminal() && HasOutcome(At(steps, n), id, outcome)
    ensures k < n && GivesOutcome(At(steps, k), steps[k], id, outcome)
    ensures forall j :: k < j <= n ==> HasOutcome(At(steps, j), id, outcome)
    ensures outcome != Canceled && steps[k].Saves? ==>
      id in At(steps, n).results && At(steps, n).results[id] == steps[k].result
    decreases n
  {
    assert At(steps, 0) == EMPTY;
    if n > 0 {
      AtNext(steps, n - 1);
      OutcomeStep(At(steps, n - 1), steps[n - 1], id, outcome);
      if HasOutcome(At(steps, n - 1), id, outcome) {
        k := OutcomeComesFrom(steps, n - 1, id, outcome);
      } else {
        k := n - 1;
      }
    }
  }
}
