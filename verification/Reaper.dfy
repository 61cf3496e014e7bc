/** The reaper of stuck tasks in internal/server/reaper.go: tasks that got no result within
    their timeout and a grace period are finalized, in between everything else
    that happens to the store. */
module Reaper {
  import opened Common
  import opened TaskStore
  import opened TaskHistory

  const REAP_GRACE := 30 * SECOND

  predicate InFlight(s: Status) { s == Dispatched || s == CancelRequested }

  /** In flight, with a dispatch time whose deadline has come. */
  predicate Overdue(row: TaskRow, now: Time) {
    && InFlight(row.state)
    && row.dispatchedAt.Some?
    && row.dispatchedAt.value + (row.task.timeoutSecs * SECOND + REAP_GRACE) <= now
  }

  function Verdict(s: Status): Status {
    if s == CancelRequested then Canceled else Timeout
  }

  function Reason(s: Status): Stderr {
    if s == CancelRequested then CanceledBeforeResult else NoResultBeforeTimeout
  }

  /** The one guarded write the reaper makes for a row it scanned in state s. */
  function ReapStep(id: Id, agent: AgentId, s: Status, now: Time): Step {
    if s == CancelRequested then ReapsCancel(id, agent, now) else TimesOut(id, agent, now)
  }

  /** t with every task in ids finalized. */
  ghost function Reaped(t: Tables, ids: set<Id>, now: Time): Tables
    requires ids <= t.tasks.Keys
  {
    Tables(
      map id | id in t.tasks :: if id in ids then t.tasks[id].(state := Verdict(t.tasks[id].state)) else t.tasks[id],
      map id | id in t.results.Keys + ids ::
        if id !in ids then t.results[id]
        else if id in t.results then
          t.results[id].(status := Verdict(t.tasks[id].state), stderr := Reason(t.tasks[id].state), completedAt := now)
        else ResultRow(t.tasks[id].task.agent, Verdict(t.tasks[id].state), 0, "", Reason(t.tasks[id].state), 0, now))
  }

  ghost function OverdueIds(t: Tables, now: Time): set<Id> {
    set id | id in t.tasks && Overdue(t.tasks[id], now)
  }

  /** The guarded write for one scanned row. */
  ghost function Finalized(t: Tables, id: Id, row: TaskRow, now: Time): Tables {
    MarkFinal(t, id, row.task.agent, Verdict(row.state), Reason(row.state), now, row.state)
  }

  lemma ReapOneTask(t: Tables, ids: set<Id>, id: Id, now: Time)
    requires ids <= t.tasks.Keys && id in t.tasks && id !in ids && InFlight(t.tasks[id].state)
    ensures FinalApplies(Reaped(t, ids, now), id, t.tasks[id].state)
    ensures Finalized(Reaped(t, ids, now), id, t.tasks[id], now).tasks == Reaped(t, ids + {id}, now).tasks
  {}

  lemma ReapOneResult(t: Tables, ids: set<Id>, id: Id, now: Time)
    requires ids <= t.tasks.Keys && id in t.tasks && id !in ids && InFlight(t.tasks[id].state)
    ensures Finalized(Reaped(t, ids, now), id, t.tasks[id], now).results == Reaped(t, ids + {id}, now).results
  {}

  lemma ReapOneMore(t: Tables, ids: set<Id>, id: Id, now: Time)
    requires ids <= t.tasks.Keys && id in t.tasks && id !in ids && InFlight(t.tasks[id].state)
    ensures FinalApplies(Reaped(t, ids, now), id, t.tasks[id].state)
    ensures Finalized(Reaped(t, ids, now), id, t.tasks[id], now) == Reaped(t, ids + {id}, now)
  {
    ReapOneTask(t, ids, id, now);
    ReapOneResult(t, ids, id, now);
  }

  /** One scanned row: checked against its deadline, then finalized by a guarded write. */
  method ReapRow(store: Store, id: Id, row: TaskRow, now: Time, ghost t: Tables, ghost finished: set<Id>)
    returns (ok: bool)
    requires finished <= t.tasks.Keys && id !in finished && id in t.tasks && t.tasks[id] == row && InFlight(row.state)
    requires store.View() == Reaped(t, finished, now)
    modifies store
    ensures store.View() == Reaped(t, if Overdue(row, now) then finished + {id} else finished, now)
    ensures ok == Overdue(row, now)
  {
    if row.dispatchedAt.None? {
      return false;
    }
    var deadline := row.dispatchedAt.value + (row.task.timeoutSecs * SECOND + REAP_GRACE);
    if now < deadline {
      return false;
    }
    ReapOneMore(t, finished, id, now);
    if row.state == CancelRequested {
      ok := store.Final(id, row.task.agent, Canceled, CanceledBeforeResult, now, CancelRequested);
    } else {
      ok := store.Final(id, row.task.agent, Timeout, NoResultBeforeTimeout, now, Dispatched);
    }
  }

  lemma ReapNothing(t: Tables, now: Time)
    ensures Reaped(t, {}, now) == t
  {
    assert Reaped(t, {}, now).tasks == t.tasks;
    assert Reaped(t, {}, now).results == t.results;
  }

  lemma TakeOne<T>(due: set<T>, todo: set<T>, x: T)
    requires x in todo
    ensures due - (todo - {x}) == if x in due then (due - todo) + {x} else due - todo
  {}

  ghost function DueOf(rows: map<Id, TaskRow>, scan: set<Id>, now: Time): set<Id>
    requires scan <= rows.Keys
  {
    set id | id in scan && Overdue(rows[id], now)
  }

  /** What is left of a scan: rows in flight, and due are the overdue ones among them. */
  ghost predicate Scanned(rows: map<Id, TaskRow>, todo: set<Id>, due: set<Id>, now: Time) {
    && todo <= rows.Keys && due <= rows.Keys
    && forall id :: id in todo ==> InFlight(rows[id].state) && (id in due <==> Overdue(rows[id], now))
  }

  /** The store with everything due but what is left finalized, and how much that is. */
  ghost predicate Progress(t: Tables, at: Tables, todo: set<Id>, due: set<Id>, now: Time, reaped: int) {
    due <= t.tasks.Keys && at == Reaped(t, due - todo, now) && reaped == |due - todo|
  }

  lemma StartScan(t: Tables, scan: set<Id>, due: set<Id>, now: Time)
    requires due <= scan <= t.tasks.Keys
    ensures Progress(t, t, scan, due, now, 0)
  {
    ReapNothing(t, now);
    assert due - scan == {};
  }

  lemma EndScan(t: Tables, at: Tables, due: set<Id>, now: Time, reaped: int)
    requires Progress(t, at, {}, due, now, reaped)
    ensures at == Reaped(t, due, now) && reaped == |due|
  {
    assert due - {} == due;
  }

  method ReapNext(store: Store, rows: map<Id, TaskRow>, todo: set<Id>, now: Time, counted: int,
                  ghost t: Tables, ghost due: set<Id>) returns (rest: set<Id>, reaped: int)
    requires todo != {} && rows == t.tasks && Scanned(rows, todo, due, now)
    requires Progress(t, store.View(), todo, due, now, counted)
    modifies store
    ensures rest < todo && Scanned(rows, rest, due, now)
    ensures Progress(t, store.View(), rest, due, now, reaped)
  {
    var id :| id in todo;
    rest := todo - {id};
    TakeOne(due, todo, id);
    var ok := ReapRow(store, id, rows[id], now, t, due - todo);
    reaped := if ok then counted + 1 else counted;
  }

  /** The loop over a scan, taken in any order. */
  method ReapScanned(store: Store, rows: map<Id, TaskRow>, scan: set<Id>, now: Time) returns (reaped: int)
    requires rows == store.tasks && scan <= rows.Keys
    requires forall id :: id in scan ==> InFlight(rows[id].state)
    modifies store
    ensures store.View() == Reaped(old(store.View()), DueOf(rows, scan, now), now)
    ensures reaped == |DueOf(rows, scan, now)|
  {
    ghost var t, due := store.View(), DueOf(rows, scan, now);
    var todo := scan;
    reaped := 0;
    StartScan(t, scan, due, now);
    while todo != {}
      invariant Scanned(rows, todo, due, now)
      invariant Progress(t, store.View(), todo, due, now, reaped)
      decreases todo
    {
      todo, reaped := ReapNext(store, rows, todo, now, reaped, t, due);
    }
    EndScan(t, store.View(), due, now, reaped);
  }

  /** One pass with the store to itself: scan, then finalize what is overdue. */
  method ReapTimedOutTasks(store: Store, now: Time) returns (reaped: int)
    modifies store
    ensures store.View() == Reaped(old(store.View()), OverdueIds(old(store.View()), now), now)
    ensures reaped == |OverdueIds(old(store.View()), now)|
  {
    var rows := store.tasks;
    var scan := set id | id in rows && InFlight(rows[id].state);
    assert DueOf(rows, scan, now) == OverdueIds(store.View(), now);
    reaped := ReapScanned(store, rows, scan, now);
  }

  /** What that leaves: nothing overdue, each overdue task closed according to the
      state it was in, with a result saying so, and every other row as it was. */
  lemma NothingOverdueRemains(t: Tables, now: Time)
    ensures var r, due := Reaped(t, OverdueIds(t, now), now), OverdueIds(t, now);
      && OverdueIds(r, now) == {}
      && r.tasks.Keys == t.tasks.Keys && r.results.Keys == t.results.Keys + due
      && (forall id :: id in t.tasks && id !in due ==> r.tasks[id] == t.tasks[id])
      && (forall id :: id in t.results && id !in due ==> id in r.results && r.results[id] == t.results[id])
      && (forall id :: id in due ==>
            && r.tasks[id] == t.tasks[id].(state := if t.tasks[id].state == CancelRequested then Canceled else Timeout)
            && VerdictRow(t, id, t.tasks[id].task.agent, r.results[id], r.tasks[id].state,
                 if t.tasks[id].state == CancelRequested then CanceledBeforeResult else NoResultBeforeTimeout, now))
  {
    var r := Reaped(t, OverdueIds(t, now), now);
    forall id | id in r.tasks ensures !Overdue(r.tasks[id], now) {
      if id in OverdueIds(t, now) {
        assert r.tasks[id].state.Terminal();
      }
    }
  }

  /** What became of a task scanned in was and written to in at, seen from end. */
  ghost predicate ReapOutcome(was: Tables, at: Tables, end: Tables, id: Id)
    requires id in was.tasks
  {
    var scanned := was.tasks[id].state;
    id in end.tasks ==>
      && id in at.tasks
      && (end.tasks[id].state.Terminal() || (scanned == Dispatched && at.tasks[id].state == CancelRequested))
      && (at.tasks[id].state == scanned ==>
            end.tasks[id].state == Verdict(scanned) && id in end.results && end.results[id].status == Verdict(scanned))
      && (at.tasks[id].state.Terminal() ==>
            id in at.results && id in end.results && end.tasks[id] == at.tasks[id] && end.results[id] == at.results[id])
  }

  lemma ReapedAmid(was: Tables, at: Tables, next: Tables, end: Tables, id: Id, now: Time)
    requires id in was.tasks && id in at.tasks && id in next.tasks && id in end.tasks
    requires InFlight(was.tasks[id].state) && !at.tasks[id].state.Other?
    requires Climbs(was, at, id) && Climbs(at, end, id) && Climbs(next, end, id)
    requires next == Apply(at, ReapStep(id, was.tasks[id].task.agent, was.tasks[id].state, now))
    ensures ReapOutcome(was, at, end, id)
  {}

  lemma StillThere(steps: seq<Step>, p: nat, j: nat, id: Id)
    requires DisciplinedRun(steps) && p <= j < |steps|
    requires id in At(steps, p).tasks && id in At(steps, |steps|).tasks
    ensures id in At(steps, j).tasks && id in At(steps, j + 1).tasks
  {
    GoneForGood(steps, p, j, |steps|, id);
    GoneForGood(steps, p, j + 1, |steps|, id);
  }

  lemma ReapWindow(steps: seq<Step>, p: nat, j: nat, id: Id)
    requires DisciplinedRun(steps) && p <= j < |steps| && id in At(steps, j).tasks
    ensures !At(steps, j).tasks[id].state.Other?
    ensures Climbs(At(steps, p), At(steps, j), id)
    ensures Climbs(At(steps, j), At(steps, |steps|), id)
    ensures Climbs(At(steps, j + 1), At(steps, |steps|), id)
  {
    ClimbsBetween(steps, p, j, id);
    ClimbsBetween(steps, j, |steps|, id);
    ClimbsBetween(steps, j + 1, |steps|, id);
  }

  /** The same write in the middle of any disciplined run: a task scanned in flight at
      step p and reaped at step j ends the run pruned or finalized, unless a cancel
      request came between the scan and the write. If it was still as scanned, it
      got the reaper's verdict and kept it; if a result landed first, that stays. */
  lemma ReapedAmidRun(steps: seq<Step>, p: nat, j: nat, id: Id, now: Time)
    requires DisciplinedRun(steps) && p <= j < |steps|
    requires id in At(steps, p).tasks && InFlight(At(steps, p).tasks[id].state)
    requires steps[j] == ReapStep(id, At(steps, p).tasks[id].task.agent, At(steps, p).tasks[id].state, now)
    ensures ReapOutcome(At(steps, p), At(steps, j), At(steps, |steps|), id)
  {
    if id in At(steps, |steps|).tasks {
      StillThere(steps, p, j, id);
      ReapWindow(steps, p, j, id);
      AtNext(steps, j);
      ReapedAmid(At(steps, p), At(steps, j), At(steps, j + 1), At(steps, |steps|), id, now);
    }
  }

  // ---------------------------------------------------------------- a whole pass amid a run

  /** A pass that scanned before step p and made its writes at the given steps of the run:
      one for each row that was overdue, taken in some order, with anything at all in
      between. */
  ghost predicate Pass(steps: seq<Step>, p: nat, order: seq<Id>, writes: map<Id, nat>, now: Time) {
    && p <= |steps|
    && (forall i, j :: 0 <= i < j < |order| ==> order[i] != order[j])
    && (forall id :: id in order <==> id in OverdueIds(At(steps, p), now))
    && (forall id :: id in order ==> id in writes && IsWrite(steps, p, id, writes[id], now))
  }

  ghost predicate IsWrite(steps: seq<Step>, p: nat, id: Id, j: nat, now: Time)
    requires p <= |steps|
  {
    && p <= j < |steps| && id in At(steps, p).tasks
    && steps[j] == ReapStep(id, At(steps, p).tasks[id].task.agent, At(steps, p).tasks[id].state, now)
  }

  /** Whether the row was different after step j. */
  ghost predicate RowChanges(steps: seq<Step>, id: Id, j: nat)
    requires j < |steps|
  {
    id in At(steps, j).tasks && id in At(steps, j + 1).tasks && At(steps, j + 1).tasks[id] != At(steps, j).tasks[id]
  }

  /** The guarded write reports success exactly when it changes the row, and otherwise does nothing. */
  lemma WriteReports(steps: seq<Step>, p: nat, id: Id, j: nat, now: Time)
    requires p <= |steps| && IsWrite(steps, p, id, j, now) && InFlight(At(steps, p).tasks[id].state)
    ensures FinalApplies(At(steps, j), id, At(steps, p).tasks[id].state) <==> RowChanges(steps, id, j)
    ensures !RowChanges(steps, id, j) ==> At(steps, j + 1) == At(steps, j)
  {
    AtNext(steps, j);
  }

  /** The rows whose write reported success, which is what the pass counts. */
  ghost function Reported(steps: seq<Step>, p: nat, order: seq<Id>, writes: map<Id, nat>, now: Time): set<Id>
    requires Pass(steps, p, order, writes, now)
  {
    set id | id in order && FinalApplies(At(steps, writes[id]), id, At(steps, p).tasks[id].state)
  }

  /** The rows that were different after their write. */
  ghost function ChangedRows(steps: seq<Step>, p: nat, order: seq<Id>, writes: map<Id, nat>, now: Time): set<Id>
    requires Pass(steps, p, order, writes, now)
  {
    set id | id in order && RowChanges(steps, id, writes[id])
  }

  /** A loop over order that counts the hits. */
  ghost function Tally<T>(order: seq<T>, hits: set<T>): nat {
    if order == [] then 0 else (if order[0] in hits then 1 else 0) + Tally(order[1..], hits)
  }

  /** Over distinct rows, the counter ends as the number of hits. */
  lemma {:induction false} TallyCounts<T>(order: seq<T>, hits: set<T>)
    requires forall i, j :: 0 <= i < j < |order| ==> order[i] != order[j]
    requires forall x :: x in hits ==> x in order
    ensures Tally(order, hits) == |hits|
    decreases |order|
  {
    if order == [] {
      assert hits == {};
    } else {
      var rest := hits - {order[0]};
      forall x | x in rest ensures x in order[1..] {}
      TallyCounts(order[1..], rest);
      TallySame(order[1..], hits, rest);
    }
  }

  lemma {:induction false} TallySame<T>(order: seq<T>, one: set<T>, two: set<T>)
    requires forall x :: x in order ==> (x in one <==> x in two)
    ensures Tally(order, one) == Tally(order, two)
    decreases |order|
  {
    if order != [] {
      TallySame(order[1..], one, two);
    }
  }

  /** What the pass returns: one for every write that reported success. */
  ghost function Returned(steps: seq<Step>, p: nat, order: seq<Id>, writes: map<Id, nat>, now: Time): nat
    requires Pass(steps, p, order, writes, now)
  {
    Tally(order, Reported(steps, p, order, writes, now))
  }

  lemma ReportedAreChanged(steps: seq<Step>, p: nat, order: seq<Id>, writes: map<Id, nat>, now: Time)
    requires Pass(steps, p, order, writes, now)
    ensures Reported(steps, p, order, writes, now) == ChangedRows(steps, p, order, writes, now)
  {
    forall id | id in order
      ensures FinalApplies(At(steps, writes[id]), id, At(steps, p).tasks[id].state)
        <==> RowChanges(steps, id, writes[id])
    {
      WriteReports(steps, p, id, writes[id], now);
    }
  }

  lemma PassCounts(steps: seq<Step>, p: nat, order: seq<Id>, writes: map<Id, nat>, now: Time)
    requires Pass(steps, p, order, writes, now)
    ensures Returned(steps, p, order, writes, now) == |ChangedRows(steps, p, order, writes, now)|
  {
    ReportedAreChanged(steps, p, order, writes, now);
    TallyCounts(order, Reported(steps, p, order, writes, now));
  }

  /** What one of a pass's writes comes to: a write that changed no row changed nothing, and
      the row is pruned or finalized in the end, or got a cancel request meanwhile. */
  ghost predicate WriteOutcome(steps: seq<Step>, p: nat, id: Id, j: nat)
    requires p <= |steps| && j < |steps| && id in At(steps, p).tasks
  {
    && (!RowChanges(steps, id, j) ==> At(steps, j + 1) == At(steps, j))
    && ReapOutcome(At(steps, p), At(steps, j), At(steps, |steps|), id)
  }

  lemma WriteAmidRun(steps: seq<Step>, p: nat, id: Id, j: nat, now: Time)
    requires DisciplinedRun(steps) && p <= |steps| && IsWrite(steps, p, id, j, now)
    requires InFlight(At(steps, p).tasks[id].state)
    ensures WriteOutcome(steps, p, id, j)
  {
    WriteReports(steps, p, id, j, now);
    ReapedAmidRun(steps, p, j, id, now);
  }

  /** Whatever else happens between a pass's scan and its writes: what it returns is how
      many rows its own writes changed; a write that changed no row changed nothing;
      and every row it scanned as overdue is, at the end, pruned or finalized, or got a
      cancel request meanwhile, with a result that landed first left alone. */
  lemma PassAmidRun(steps: seq<Step>, p: nat, order: seq<Id>, writes: map<Id, nat>, now: Time)
    requires DisciplinedRun(steps) && Pass(steps, p, order, writes, now)
    ensures Returned(steps, p, order, writes, now) == |ChangedRows(steps, p, order, writes, now)|
    ensures forall id :: id in order ==> WriteOutcome(steps, p, id, writes[id])
    ensures forall id :: id in OverdueIds(At(steps, p), now) ==> id in order
  {
    PassCounts(steps, p, order, writes, now);
    forall id | id in order ensures WriteOutcome(steps, p, id, writes[id]) {
      WriteAmidRun(steps, p, id, writes[id], now);
    }
  }

  // ---------------------------------------------------------------- not before time

  lemma OverdueMeaning(t: Tables, id: Id, now: Time)
    ensures id in OverdueIds(t, now) <==>
      && id in t.tasks && (t.tasks[id].state == Dispatched || t.tasks[id].state == CancelRequested)
      && t.tasks[id].dispatchedAt.Some?
      && now >= t.tasks[id].dispatchedAt.value + t.tasks[id].task.timeoutSecs * 1_000_000_000 + 30_000_000_000
  {}

  /** In a disciplined run, a task taken out of the queue at d is overdue exactly when it is
      still without a result and its timeout and 30 seconds have gone by since d. */
  lemma OverdueExactly(steps: seq<Step>, k: nat, n: nat, id: Id, d: Time, now: Time)
    requires DisciplinedRun(steps) && k < n <= |steps| && TookOut(steps, k, id, d)
    ensures id in OverdueIds(At(steps, n), now) <==>
      && id in At(steps, n).tasks
      && (At(steps, n).tasks[id].state == Dispatched || At(steps, n).tasks[id].state == CancelRequested)
      && now >= d + At(steps, n).tasks[id].task.timeoutSecs * 1_000_000_000 + 30_000_000_000
  {
    MarkedForGood(steps, k, n, id, d);
    OverdueMeaning(At(steps, n), id, now);
  }

  // ---------------------------------------------------------------- a canceled task ends canceled

  /** Being canceled: asked to stop, or stopped. */
  predicate BeingCanceled(t: Tables, id: Id) {
    id in t.tasks ==> t.tasks[id].state == CancelRequested || t.tasks[id].state == Canceled
  }

  predicate NoReport(steps: seq<Step>, i: nat, n: nat, id: Id)
    requires n <= |steps|
  {
    forall j :: i <= j < n ==> !(steps[j].Saves? && steps[j].id == id)
  }

  lemma BeingCanceledStays(t: Tables, used: set<Id>, s: Step, id: Id)
    requires BeingCanceled(t, id) && id in used && Disciplined(s, used) && !(s.Saves? && s.id == id)
    ensures BeingCanceled(Apply(t, s), id)
  {}

  /** From a cancel of a task in flight on, as long as no result is reported, it is being canceled. */
  lemma {:induction false} CanceledUntilReported(steps: seq<Step>, i: nat, n: nat, id: Id)
    requires DisciplinedRun(steps) && i < n <= |steps| && steps[i].Cancels? && steps[i].id == id
    requires id in At(steps, i).tasks && InFlight(At(steps, i).tasks[id].state) && NoReport(steps, i, n, id)
    ensures BeingCanceled(At(steps, n), id)
    decreases n
  {
    StepOfRun(steps, i, n - 1, id);
    if n == i + 1 {
      CancelDecides(At(steps, i), id, steps[i].now);
    } else {
      CanceledUntilReported(steps, i, n - 1, id);
      BeingCanceledStays(At(steps, n - 1), Used(steps[..n - 1]), steps[n - 1], id);
    }
  }

  /** Finalized by the pass's write, or before it. */
  lemma BeingCanceledIsFinalized(steps: seq<Step>, p: nat, j: nat, now: Time, id: Id)
    requires DisciplinedRun(steps) && p <= j < |steps|
    requires id in At(steps, p).tasks && At(steps, p).tasks[id].state == CancelRequested
    requires IsWrite(steps, p, id, j, now) && BeingCanceled(At(steps, j), id) && id in At(steps, |steps|).tasks
    ensures At(steps, |steps|).tasks[id].state == Canceled
  {
    ReapedAmidRun(steps, p, j, id, now);
  }

  lemma CanceledStays(steps: seq<Step>, p: nat, id: Id)
    requires DisciplinedRun(steps) && p <= |steps| && id in At(steps, |steps|).tasks
    requires id in At(steps, p).tasks && At(steps, p).tasks[id].state == Canceled
    ensures At(steps, |steps|).tasks[id].state == Canceled
  {
    ClimbsBetween(steps, p, |steps|, id);
  }

  /** A task that is canceled in flight and gets no result is canceled, not timed out, after
      any later pass past its deadline, whatever else runs in between. */
  lemma CanceledTaskEndsCanceled(steps: seq<Step>, k: nat, d: Time, i: nat, p: nat, order: seq<Id>,
                                 writes: map<Id, nat>, now: Time, id: Id)
    requires DisciplinedRun(steps) && Pass(steps, p, order, writes, now)
    requires k < i < p && TookOut(steps, k, id, d)
    requires steps[i].Cancels? && steps[i].id == id && NoReport(steps, i, |steps|, id)
    requires id in At(steps, i).tasks && InFlight(At(steps, i).tasks[id].state)
    requires id in At(steps, |steps|).tasks
    requires now >= d + At(steps, i).tasks[id].task.timeoutSecs * 1_000_000_000 + 30_000_000_000
    ensures At(steps, |steps|).tasks[id].state == Canceled
  {
    GoneForGood(steps, i, p, |steps|, id);
    TaskStays(steps, i, p, id);
    CanceledUntilReported(steps, i, p, id);
    if At(steps, p).tasks[id].state == Canceled {
      CanceledStays(steps, p, id);
    } else {
      OverdueExactly(steps, k, p, id, d, now);
      var j := writes[id];
      CanceledUntilReported(steps, i, j, id);
      BeingCanceledIsFinalized(steps, p, j, now, id);
    }
  }
}
