/** The server's view of one transfer (internal/server/transfer.go): its status, its audit
    persistence and its transfer_done hook, changed one lock section at a time by
    the pump, the agent's messages, the operator and the reaper. */
module TransferStatus {
  import opened Common

  const AUDIT_MIN_INTERVAL := SECOND
  const AUDIT_MIN_BYTES := 0x10_0000
  const STALL_TIMEOUT := 600 * SECOND
  const CANCEL_GRACE := 30 * SECOND

  /** The status text; an agent's message may carry any other. */
  datatype Status =
    | Queued | Requested | Running | WaitingRemote | CancelRequested
    | Success | Failed | Canceled
    | Other(text: string)
  {
    predicate Terminal() { Success? || Failed? || Canceled? }
  }

  /** The audit row as last written; fired, lastChunkAt and auditFailed are history: the
      statuses transfer_done fired with, when the last chunk was handled, and whether
      an audit write has failed. */
  datatype Transfer = Transfer(
    clock: Time,
    status: Status,
    bytes: int,
    cancelRequestedAt: Option<Time>,
    lastPersistedAt: Option<Time>,
    lastPersistedBytes: int,
    fired: seq<Status>,
    lastChunkAt: Option<Time>,
    auditFailed: bool)

  // ---------------------------------------------------------------- lock sections

  datatype Section =
    | Prologue(sent: bool)           // runUpload: announce the transfer
    | SetsOffset(offset: int)        // runUpload: start from the agent's offset
    | HandlesChunk(n: nat)           // a chunk sent or received
    | AwaitsRemote                   // runUpload: everything is sent
    | Audits                         // persistTransfer, which runUpload calls next
    | StartAck                       // handleTransferStart: a download begins
    | Confirms(status: Status)       // handleTransferDone of an upload
    | FinishesDownload(status: Status)
    | FailsWithError                 // finishTransferWithError
    | ReapsStalled                   // reapStalledTransfer
    | RequestsCancel                 // cancelTransfer
    | FinalizesCanceled              // finalizeCanceled

  /** One lock section, when it runs, and whether its audit write (if any) succeeds. */
  datatype Step = Step(section: Section, now: Time, audited: bool)

  function Persist(t: Transfer, ok: bool): Transfer {
    if ok then t.(lastPersistedAt := Some(t.clock), lastPersistedBytes := t.bytes) else t.(auditFailed := true)
  }

  predicate ShouldPersist(t: Transfer, now: Time) {
    || t.lastPersistedAt.None?
    || t.bytes - t.lastPersistedBytes >= AUDIT_MIN_BYTES
    || now - t.lastPersistedAt.value >= AUDIT_MIN_INTERVAL
  }

  predicate Stalled(t: Transfer, now: Time) {
    t.lastPersistedAt.Some? && now - t.lastPersistedAt.value >= STALL_TIMEOUT
  }

  function Settle(t: Transfer, status: Status, ok: bool): Transfer {
    Persist(t.(status := status, fired := t.fired + [status]), ok)
  }

  function Next(before: Transfer, step: Step): Transfer {
    var t := before.(clock := step.now);
    match step.section
    case Prologue(sent) =>
      if t.status == CancelRequested || !sent then t else Persist(t.(status := Running), step.audited)
    case SetsOffset(offset) => t.(bytes := offset)
    case HandlesChunk(n) =>
      var t' := t.(bytes := t.bytes + n, lastChunkAt := Some(t.clock));
      if ShouldPersist(t', t.clock) then Persist(t', step.audited) else t'
    case AwaitsRemote => t.(status := WaitingRemote)
    case Audits => Persist(t, step.audited)
    case StartAck =>
      Persist(if t.status == CancelRequested then t else t.(status := Running), step.audited)
    case Confirms(status) => if t.status.Terminal() then t else Settle(t, status, step.audited)
    case FinishesDownload(status) => Settle(t, status, step.audited)
    case FailsWithError => if t.status.Terminal() then t else Settle(t, Failed, step.audited)
    case ReapsStalled =>
      if t.status.Terminal() || !Stalled(t, t.clock) then t else Settle(t, Failed, step.audited)
    case RequestsCancel =>
      if t.status.Terminal() || t.status == CancelRequested then t
      else Persist(t.(status := CancelRequested, cancelRequestedAt := Some(t.clock)), step.audited)
    case FinalizesCanceled => if t.status.Terminal() then t else Settle(t, Canceled, step.audited)
  }

  function After(t: Transfer, steps: seq<Step>): Transfer
    decreases |steps|
  {
    if steps == [] then t else After(Next(t, steps[0]), steps[1..])
  }

  // ---------------------------------------------------------------- the first terminal status wins

  /** The sections that look before they settle, with an agent that confirms an outcome. */
  predicate Guarded(s: Section) {
    || s.HandlesChunk? || s.SetsOffset? || s.Audits?
    || (s.Confirms? && s.status.Terminal())
    || s.FailsWithError? || s.ReapsStalled? || s.RequestsCancel? || s.FinalizesCanceled?
  }

  predicate AllGuarded(steps: seq<Step>) { forall i :: 0 <= i < |steps| ==> Guarded(steps[i].section) }

  /** A live transfer has not fired; a settled one fired once, with the status it has. */
  predicate Consistent(t: Transfer) {
    if t.status.Terminal() then t.fired == [t.status] else t.fired == []
  }

  /** In any interleaving of the guarded sections a transfer settles at most once, fires
      transfer_done exactly then, keeps that first status, and a requested cancel
      only ever turns into a terminal status. */
  lemma {:induction false} FirstTerminalWins(t: Transfer, steps: seq<Step>)
    requires AllGuarded(steps) && Consistent(t)
    ensures Consistent(After(t, steps))
    ensures t.status.Terminal() ==> After(t, steps).status == t.status && After(t, steps).fired == t.fired
    ensures t.status == CancelRequested ==>
      After(t, steps).status == CancelRequested || After(t, steps).status.Terminal()
    decreases |steps|
  {
    if steps != [] {
      assert Guarded(steps[0].section);
      assert AllGuarded(steps[1..]) by {
        forall i | 0 <= i < |steps[1..]| ensures Guarded(steps[1..][i].section) {
          assert steps[1..][i] == steps[i + 1];
        }
      }
      FirstTerminalWins(Next(t, steps[0]), steps[1..]);
    }
  }

  /** Exactly which sections overwrite a settled status, fire a second time, or drop a requested cancel. */
  lemma ExceptionsExactly(t: Transfer, step: Step)
    ensures t.status.Terminal() ==>
      (Next(t, step).status != t.status <==>
        || (step.section.Prologue? && step.section.sent)
        || step.section.AwaitsRemote?
        || step.section.StartAck?
        || (step.section.FinishesDownload? && step.section.status != t.status))
    ensures t.status.Terminal() ==> (Next(t, step).fired != t.fired <==> step.section.FinishesDownload?)
    ensures t.status == CancelRequested ==>
      (Next(t, step).status != CancelRequested && !Next(t, step).status.Terminal() <==>
        || step.section.AwaitsRemote?
        || ((step.section.Confirms? || step.section.FinishesDownload?)
            && step.section.status != CancelRequested && !step.section.status.Terminal()))
  {
    assert forall s: Status :: t.fired + [s] != t.fired;
  }

  // ---------------------------------------------------------------- settled as what

  /** The status a section gives a transfer it settles: an error and a stall are failures, the
      cancel finalizer cancels, a confirmation says what the agent reported. */
  function Verdict(s: Section): Option<Status> {
    match s
    case FailsWithError => Some(Failed)
    case ReapsStalled => Some(Failed)
    case FinalizesCanceled => Some(Canceled)
    case Confirms(status) => Some(status)
    case _ => None
  }

  /** A live transfer that is settled: by this section, with its verdict, fired once more. */
  lemma SettlesWithVerdict(t: Transfer, step: Step)
    requires !t.status.Terminal() && Guarded(step.section)
    ensures Next(t, step).status.Terminal() <==>
      && Verdict(step.section).Some?
      && (step.section.ReapsStalled? ==>
            t.lastPersistedAt.Some? && step.now - t.lastPersistedAt.value >= 600_000_000_000)
    ensures Next(t, step).status.Terminal() ==>
      Some(Next(t, step).status) == Verdict(step.section) && Next(t, step).fired == t.fired + [Next(t, step).status]
    ensures !Next(t, step).status.Terminal() ==> Next(t, step).fired == t.fired
  {}

  /** No section up to i settles the transfer. */
  predicate LiveUpTo(t: Transfer, steps: seq<Step>, i: nat)
    requires i <= |steps|
  {
    forall j :: 0 <= j <= i ==> !After(t, steps[..j]).status.Terminal()
  }

  lemma AfterFirst(t: Transfer, steps: seq<Step>, j: nat)
    requires 0 < j <= |steps|
    ensures After(t, steps[..j]) == After(Next(t, steps[0]), steps[1..][..j - 1])
  {
    assert steps[..j][0] == steps[0] && steps[..j][1..] == steps[1..][..j - 1];
  }

  lemma GuardedRest(steps: seq<Step>)
    requires AllGuarded(steps) && steps != []
    ensures Guarded(steps[0].section) && AllGuarded(steps[1..])
  {
    forall i | 0 <= i < |steps[1..]| ensures Guarded(steps[1..][i].section) {
      assert steps[1..][i] == steps[i + 1];
    }
  }

  lemma LiveRest(t: Transfer, steps: seq<Step>, i: nat)
    requires steps != [] && i <= |steps| - 1 && !t.status.Terminal() && LiveUpTo(Next(t, steps[0]), steps[1..], i)
    ensures LiveUpTo(t, steps, i + 1)
  {
    forall j | 0 <= j <= i + 1 ensures !After(t, steps[..j]).status.Terminal() {
      if j > 0 {
        AfterFirst(t, steps, j);
      } else {
        assert steps[..0] == [];
      }
    }
  }

  /** However guarded sections interleave, a live transfer that ends up settled has the
      verdict of the first of them that could settle it, and fired exactly that. */
  lemma {:induction false} FirstVerdictStands(t: Transfer, steps: seq<Step>) returns (i: nat)
    requires AllGuarded(steps) && !t.status.Terminal() && t.fired == []
    requires After(t, steps).status.Terminal()
    ensures i < |steps| && LiveUpTo(t, steps, i)
    ensures Verdict(steps[i].section) == Some(After(t, steps).status)
    ensures After(t, steps).fired == [After(t, steps).status]
    decreases |steps|
  {
    if steps != [] {
      GuardedRest(steps);
      SettlesWithVerdict(t, steps[0]);
      var t' := Next(t, steps[0]);
      if t'.status.Terminal() {
        i := 0;
        assert steps[..0] == [];
        FirstTerminalWins(t', steps[1..]);
      } else {
        var k := FirstVerdictStands(t', steps[1..]);
        i := k + 1;
        LiveRest(t, steps, k);
      }
    }
  }

  /** And it does end up settled as soon as one of the sections that always settle has run. */
  lemma {:induction false} VerdictSettles(t: Transfer, steps: seq<Step>, i: nat)
    requires AllGuarded(steps) && i < |steps|
    requires Verdict(steps[i].section).Some? && !steps[i].section.ReapsStalled?
    ensures After(t, steps).status.Terminal()
    decreases |steps|
  {
    GuardedRest(steps);
    var t' := Next(t, steps[0]);
    if t'.status.Terminal() {
      SettledStays(t', steps[1..]);
    } else {
      assert i > 0 && steps[1..][i - 1] == steps[i];
      VerdictSettles(t', steps[1..], i - 1);
    }
  }

  /** A transfer succeeds only if the agent confirmed it, and is canceled only if the cancel
      finalizer ran or the agent said so. */
  lemma OutcomesAreEarned(t: Transfer, steps: seq<Step>) returns (i: nat)
    requires AllGuarded(steps) && !t.status.Terminal() && t.fired == [] && After(t, steps).status.Terminal()
    ensures i < |steps|
    ensures After(t, steps).status == Success ==> steps[i].section == Confirms(Success)
    ensures After(t, steps).status == Canceled ==>
      steps[i].section == FinalizesCanceled || steps[i].section == Confirms(Canceled)
    ensures After(t, steps).status == Failed ==>
      steps[i].section in {FailsWithError, ReapsStalled, Confirms(Failed)}
  {
    i := FirstVerdictStands(t, steps);
  }

  // ---------------------------------------------------------------- every status, in every run

  /** The sections after which a transfer can have a status it did not have before. */
  predicate Brings(s: Section, status: Status) {
    match s
    case Prologue(sent) => sent && status == Running
    case AwaitsRemote => status == WaitingRemote
    case StartAck => status == Running
    case RequestsCancel => status == CancelRequested
    case Confirms(reported) => status == reported
    case FinishesDownload(reported) => status == reported
    case FailsWithError => status == Failed
    case ReapsStalled => status == Failed
    case FinalizesCanceled => status == Canceled
    case _ => false
  }

  lemma SectionBrings(t: Transfer, step: Step)
    ensures Next(t, step).status != t.status ==> Brings(step.section, Next(t, step).status)
    ensures !t.status.Terminal() && t.status != CancelRequested && !step.section.ReapsStalled? ==>
      forall status :: Brings(step.section, status) ==> Next(t, step).status == status
  {}

  /** In every run, guarded or not, a status other than the first was brought by a section. */
  lemma {:induction false} StatusComesFrom(t: Transfer, steps: seq<Step>) returns (i: nat)
    requires After(t, steps).status != t.status
    ensures i < |steps| && Brings(steps[i].section, After(t, steps).status)
    decreases |steps|
  {
    if steps != [] {
      var t' := Next(t, steps[0]);
      if After(t', steps[1..]).status == t'.status {
        i := 0;
        SectionBrings(t, steps[0]);
      } else {
        var k := StatusComesFrom(t', steps[1..]);
        i := k + 1;
      }
    }
  }

  // ---------------------------------------------------------------- bytes

  function ChunkBytes(steps: seq<Step>): nat {
    if steps == [] then 0
    else (if steps[0].section.HandlesChunk? then steps[0].section.n else 0) + ChunkBytes(steps[1..])
  }

  /** In every run, the byte count is the offset last set and every chunk handled since. */
  lemma {:induction false} BytesAreCounted(t: Transfer, steps: seq<Step>)
    requires forall i :: 0 <= i < |steps| ==> !steps[i].section.SetsOffset?
    ensures After(t, steps).bytes == t.bytes + ChunkBytes(steps)
    decreases |steps|
  {
    if steps != [] {
      assert forall i :: 0 <= i < |steps[1..]| ==> steps[1..][i] == steps[i + 1];
      BytesAreCounted(Next(t, steps[0]), steps[1..]);
    }
  }

  lemma OffsetIsSet(t: Transfer, offset: int, now: Time, audited: bool, steps: seq<Step>)
    requires forall i :: 0 <= i < |steps| ==> !steps[i].section.SetsOffset?
    ensures After(Next(t, Step(SetsOffset(offset), now, audited)), steps).bytes == offset + ChunkBytes(steps)
  {
    BytesAreCounted(Next(t, Step(SetsOffset(offset), now, audited)), steps);
  }

  /** Whether reapCanceledTransfers would finalize this transfer. */
  predicate CancelDue(t: Transfer, now: Time) {
    t.status == CancelRequested && t.cancelRequestedAt.Some? && now - t.cancelRequestedAt.value >= CANCEL_GRACE
  }

  /** The grace reaper settles whatever a cancel request leaves open: through any guarded
      sections, from 30 seconds after the request on, the transfer is settled or due. */
  lemma {:induction false} CancelNeverDangles(t: Transfer, steps: seq<Step>, requested: Time, now: Time)
    requires t.status == CancelRequested && t.cancelRequestedAt == Some(requested)
    requires AllGuarded(steps) && now - requested >= CANCEL_GRACE
    ensures After(t, steps).status.Terminal() || CancelDue(After(t, steps), now)
    ensures Next(After(t, steps), Step(FinalizesCanceled, now, true)).status.Terminal()
    decreases |steps|
  {
    if steps != [] {
      assert Guarded(steps[0].section);
      assert forall i :: 0 <= i < |steps[1..]| ==> steps[1..][i] == steps[i + 1];
      var t' := Next(t, steps[0]);
      if t'.status.Terminal() {
        SettledStays(t', steps[1..]);
      } else {
        CancelNeverDangles(t', steps[1..], requested, now);
      }
    }
  }

  lemma {:induction false} SettledStays(t: Transfer, steps: seq<Step>)
    requires AllGuarded(steps) && t.status.Terminal()
    ensures After(t, steps).status == t.status
    decreases |steps|
  {
    if steps != [] {
      assert Guarded(steps[0].section);
      assert forall i :: 0 <= i < |steps[1..]| ==> steps[1..][i] == steps[i + 1];
      SettledStays(Next(t, steps[0]), steps[1..]);
    }
  }

  /** The grace reaper can only settle a request that has a time. */
  predicate Stamped(t: Transfer) { t.status == CancelRequested ==> t.cancelRequestedAt.Some? }

  /** An agent reports cancel_requested as an outcome, which it never should. */
  predicate Odd(s: Section) { (s.Confirms? || s.FinishesDownload?) && s.status == CancelRequested }

  lemma StampedExactlyUnless(t: Transfer, step: Step)
    requires Stamped(t)
    ensures Stamped(Next(t, step)) <==>
      !(t.cancelRequestedAt.None? && Odd(step.section) && (step.section.Confirms? ==> !t.status.Terminal()))
  {}

  lemma {:induction false} RequestsAreStamped(t: Transfer, steps: seq<Step>)
    requires Stamped(t) && forall i :: 0 <= i < |steps| ==> !Odd(steps[i].section)
    ensures Stamped(After(t, steps))
    decreases |steps|
  {
    if steps != [] {
      StampedExactlyUnless(t, steps[0]);
      assert forall i :: 0 <= i < |steps[1..]| ==> steps[1..][i] == steps[i + 1];
      RequestsAreStamped(Next(t, steps[0]), steps[1..]);
    }
  }

  /** In every run, the time of a request is the time of a cancelTransfer. */
  lemma {:induction false} StampComesFromRequest(t: Transfer, steps: seq<Step>) returns (i: nat)
    requires After(t, steps).cancelRequestedAt != t.cancelRequestedAt
    ensures i < |steps| && steps[i].section == RequestsCancel
    ensures After(t, steps).cancelRequestedAt == Some(steps[i].now)
    decreases |steps|
  {
    if steps != [] {
      var t' := Next(t, steps[0]);
      if After(t', steps[1..]).cancelRequestedAt == t'.cancelRequestedAt {
        i := 0;
      } else {
        var k := StampComesFromRequest(t', steps[1..]);
        i := k + 1;
      }
    }
  }

  /** The grace reaper takes a request exactly from 30 seconds after it on. */
  lemma CancelDueExactly(t: Transfer, now: Time)
    requires Stamped(t)
    ensures CancelDue(t, now) <==>
      t.status == CancelRequested && now >= t.cancelRequestedAt.value + 30_000_000_000
  {}

  /** However a transfer came to be cancel_requested, that request has a time, and from 30
      seconds after it on, whatever guarded sections run, it is settled or due. */
  lemma CancelAlwaysSettles(t: Transfer, before: seq<Step>, after: seq<Step>, now: Time)
    requires t.status != CancelRequested && forall i :: 0 <= i < |before| ==> !Odd(before[i].section)
    requires After(t, before).status == CancelRequested && AllGuarded(after)
    ensures var u := After(t, before);
      && u.cancelRequestedAt.Some?
      && (now - u.cancelRequestedAt.value >= CANCEL_GRACE ==>
            After(u, after).status.Terminal() || CancelDue(After(u, after), now))
  {
    RequestsAreStamped(t, before);
    var u := After(t, before);
    if now - u.cancelRequestedAt.value >= CANCEL_GRACE {
      CancelNeverDangles(u, after, u.cancelRequestedAt.value, now);
    }
  }

  lemma {:induction false} StaysHidden(t: Transfer, steps: seq<Step>)
    requires t.status != CancelRequested && AllGuarded(steps)
    requires forall i :: 0 <= i < |steps| ==> !steps[i].section.RequestsCancel?
    ensures After(t, steps).status != CancelRequested
    decreases |steps|
  {
    if steps != [] {
      assert Guarded(steps[0].section) && !steps[0].section.RequestsCancel?;
      assert forall i :: 0 <= i < |steps[1..]| ==> steps[1..][i] == steps[i + 1];
      StaysHidden(Next(t, steps[0]), steps[1..]);
    }
  }

  /** A pump that runs out of file right after a cancel request overwrites it: through
      whatever guarded sections follow, unless the operator asks again, the request is
      never visible and never due for the grace reaper. */
  lemma CancelOverwrittenByPump(t: Transfer, a: Time, b: Time, steps: seq<Step>, later: Time)
    requires AllGuarded(steps) && forall i :: 0 <= i < |steps| ==> !steps[i].section.RequestsCancel?
    ensures var asked := Next(t, Step(RequestsCancel, a, true));
      var u := After(Next(asked, Step(AwaitsRemote, b, true)), steps);
      && (!t.status.Terminal() ==> asked.status == CancelRequested)
      && u.status != CancelRequested && !CancelDue(u, later)
  {
    StaysHidden(Next(Next(t, Step(RequestsCancel, a, true)), Step(AwaitsRemote, b, true)), steps);
  }

  // ---------------------------------------------------------------- stalls and throttled persistence

  predicate Monotone(t: Transfer, steps: seq<Step>)
    decreases |steps|
  {
    steps == [] || (t.clock <= steps[0].now && Monotone(Next(t, steps[0]), steps[1..]))
  }

  /** Unless an audit write failed, the row on disk is less than a second behind the last chunk. */
  predicate KeptUp(t: Transfer) {
    && (t.lastPersistedAt.Some? ==> t.lastPersistedAt.value <= t.clock)
    && (t.lastChunkAt.Some? ==> t.lastChunkAt.value <= t.clock)
    && (t.lastChunkAt.Some? && !t.auditFailed ==>
          t.lastPersistedAt.Some? && t.lastChunkAt.value - t.lastPersistedAt.value < AUDIT_MIN_INTERVAL)
  }

  lemma PersistKeepsUp(t: Transfer, ok: bool)
    requires t.lastPersistedAt.Some? ==> t.lastPersistedAt.value <= t.clock
    requires t.lastChunkAt.Some? ==> t.lastChunkAt.value <= t.clock
    ensures KeptUp(Persist(t, ok))
  {}

  lemma StepKeepsUp(t: Transfer, step: Step)
    requires KeptUp(t) && t.clock <= step.now
    ensures KeptUp(Next(t, step))
  {
    if step.section.HandlesChunk? {
      var u := t.(clock := step.now, bytes := t.bytes + step.section.n, lastChunkAt := Some(step.now));
      PersistKeepsUp(u, step.audited);
    }
  }

  lemma {:induction false} KeepsUp(t: Transfer, steps: seq<Step>)
    requires KeptUp(t) && Monotone(t, steps)
    ensures KeptUp(After(t, steps))
    decreases |steps|
  {
    if steps != [] {
      StepKeepsUp(t, steps[0]);
      KeepsUp(Next(t, steps[0]), steps[1..]);
    }
  }

  /** With audit writes succeeding, a transfer is reaped as stalled only if it handled no
      chunk for the last 10 minutes less a second. */
  lemma StalledMeansIdle(t: Transfer, steps: seq<Step>, now: Time)
    requires KeptUp(t) && Monotone(t, steps)
    requires var u := After(t, steps);
      !u.auditFailed && !u.status.Terminal() && Next(u, Step(ReapsStalled, now, true)).status == Failed
    ensures var u := After(t, steps);
      u.lastChunkAt.Some? ==> now - u.lastChunkAt.value > STALL_TIMEOUT - AUDIT_MIN_INTERVAL
  {
    KeepsUp(t, steps);
  }

  /** After every chunk whose audit write did not fail, less than 1 MiB is unrecorded,
      and the recorded time is less than a second old. */
  lemma UnrecordedProgressBounded(t: Transfer, n: nat, now: Time, audited: bool)
    requires KeptUp(t) && t.clock <= now
    ensures var u := Next(t, Step(HandlesChunk(n), now, audited));
      || u.auditFailed
      || (&& u.bytes - u.lastPersistedBytes < AUDIT_MIN_BYTES
          && now - u.lastPersistedAt.value < AUDIT_MIN_INTERVAL)
  {}

  /** A chunk is recorded exactly when nothing has been, or at least 1 MiB or a second of
      progress would go unrecorded; and then with the bytes and the time of that chunk. */
  lemma RecordedExactly(t: Transfer, n: nat, now: Time)
    ensures var u := Next(t, Step(HandlesChunk(n), now, true));
      if t.lastPersistedAt.None? || t.bytes + n - t.lastPersistedBytes >= 1_048_576
         || now - t.lastPersistedAt.value >= 1_000_000_000
      then u.lastPersistedAt == Some(now) && u.lastPersistedBytes == t.bytes + n
      else u.lastPersistedAt == t.lastPersistedAt && u.lastPersistedBytes == t.lastPersistedBytes
  {}

  /** A new status is recorded with the section that brings it, all but the pump's last, which
      has an audit write of its own. */
  lemma StatusChangesAreRecorded(t: Transfer, step: Step)
    requires step.audited
    ensures step.section.Audits? || (Next(t, step).status != t.status && !step.section.AwaitsRemote?) ==>
      Next(t, step).lastPersistedAt == Some(step.now) && Next(t, step).lastPersistedBytes == Next(t, step).bytes
  {}

  /** In every run, a recorded time is the time of one of its sections, whose write succeeded. */
  lemma {:induction false} RecordComesFromSection(t: Transfer, steps: seq<Step>) returns (i: nat)
    requires After(t, steps).lastPersistedAt != t.lastPersistedAt
    ensures i < |steps| && steps[i].audited && After(t, steps).lastPersistedAt == Some(steps[i].now)
    decreases |steps|
  {
    if steps != [] {
      var t' := Next(t, steps[0]);
      if After(t', steps[1..]).lastPersistedAt == t'.lastPersistedAt {
        i := 0;
      } else {
        var k := RecordComesFromSection(t', steps[1..]);
        i := k + 1;
      }
    }
  }

  // ---------------------------------------------------------------- the object

  /** The fields under state.mu; every method is one lock section, run at now. */
  class TransferState {
    var status: Status
    var bytes: int
    var cancelRequestedAt: Option<Time>
    var lastPersistedAt: Option<Time>
    var lastPersistedBytes: int
    ghost var clock: Time
    ghost var fired: seq<Status>
    ghost var lastChunkAt: Option<Time>
    ghost var auditFailed: bool

    ghost function View(): Transfer
      reads this
    {
      Transfer(clock, status, bytes, cancelRequestedAt, lastPersistedAt, lastPersistedBytes,
               fired, lastChunkAt, auditFailed)
    }

    constructor (status: Status, bytes: int, now: Time)
      ensures View() == Transfer(now, status, bytes, None, None, 0, [], None, false)
    {
      this.status, this.bytes := status, bytes;
      cancelRequestedAt, lastPersistedAt, lastPersistedBytes := None, None, 0;
      clock, fired, lastChunkAt, auditFailed := now, [], None, false;
    }

    method PersistLocked(now: Time, ok: bool)
      requires clock == now
      modifies this
      ensures View() == Persist(old(View()), ok)
    {
      if ok {
        lastPersistedAt := Some(now);
        lastPersistedBytes := bytes;
      } else {
        auditFailed := true;
      }
    }

    method SettleLocked(outcome: Status, now: Time, ok: bool)
      requires clock == now
      modifies this
      ensures View() == Settle(old(View()), outcome, ok)
    {
      status := outcome;
      fired := fired + [outcome];
      PersistLocked(now, ok);
    }

    method RunPrologue(sent: bool, now: Time, audited: bool)
      modifies this
      ensures View() == Next(old(View()), Step(Prologue(sent), now, audited))
    {
      clock := now;
      if status == CancelRequested {
        return;
      }
      if sent {
        status := Running;
        PersistLocked(now, audited);
      }
    }

    method HandleChunk(n: nat, now: Time, audited: bool)
      modifies this
      ensures View() == Next(old(View()), Step(HandlesChunk(n), now, audited))
    {
      clock := now;
      bytes := bytes + n;
      lastChunkAt := Some(now);
      if lastPersistedAt.None? || bytes - lastPersistedBytes >= AUDIT_MIN_BYTES
        || now - lastPersistedAt.value >= AUDIT_MIN_INTERVAL
      {
        PersistLocked(now, audited);
      }
    }

    method AwaitRemote(now: Time)
      modifies this
      ensures View() == Next(old(View()), Step(AwaitsRemote, now, true))
    {
      clock := now;
      status := WaitingRemote;
    }

    method PersistTransfer(now: Time, audited: bool)
      modifies this
      ensures View() == Next(old(View()), Step(Audits, now, audited))
    {
      clock := now;
      PersistLocked(now, audited);
    }

    method HandleStart(now: Time, audited: bool)
      modifies this
      ensures View() == Next(old(View()), Step(StartAck, now, audited))
    {
      clock := now;
      if status != CancelRequested {
        status := Running;
      }
      PersistLocked(now, audited);
    }

    method HandleDone(reported: Status, now: Time, audited: bool)
      modifies this
      ensures View() == Next(old(View()), Step(Confirms(reported), now, audited))
    {
      clock := now;
      if status.Terminal() {
        return;
      }
      SettleLocked(reported, now, audited);
    }

    method FinishDownload(outcome: Status, now: Time, audited: bool)
      modifies this
      ensures View() == Next(old(View()), Step(FinishesDownload(outcome), now, audited))
    {
      clock := now;
      SettleLocked(outcome, now, audited);
    }

    method FinishWithError(now: Time, audited: bool)
      modifies this
      ensures View() == Next(old(View()), Step(FailsWithError, now, audited))
    {
      clock := now;
      if status.Terminal() {
        return;
      }
      SettleLocked(Failed, now, audited);
    }

    method ReapStalled(now: Time, audited: bool)
      modifies this
      ensures View() == Next(old(View()), Step(ReapsStalled, now, audited))
    {
      clock := now;
      if status.Terminal() {
        return;
      }
      if lastPersistedAt.None? || now - lastPersistedAt.value < STALL_TIMEOUT {
        return;
      }
      SettleLocked(Failed, now, audited);
    }

    method RequestCancel(now: Time, audited: bool)
      modifies this
      ensures View() == Next(old(View()), Step(RequestsCancel, now, audited))
    {
      clock := now;
      if status.Terminal() {
        return;
      }
      if status != CancelRequested {
        status := CancelRequested;
        cancelRequestedAt := Some(now);
        PersistLocked(now, audited);
      }
    }

    method FinalizeCanceled(now: Time, audited: bool)
      modifies this
      ensures View() == Next(old(View()), Step(FinalizesCanceled, now, audited))
    {
      clock := now;
      if status.Terminal() {
        return;
      }
      SettleLocked(Canceled, now, audited);
    }
  }
}
