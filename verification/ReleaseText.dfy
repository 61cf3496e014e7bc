/** The release scheduler's two store reads as SQLite decides them, on text: the ready scan
    takes release_at <= now, the next release is the least release_at > now
    (internal/server/store.go), and the timer is aimed by subtracting instants
    (internal/server/reaper.go). */
module ReleaseText {
  import opened Common
  import opened TimeText
  import ReleaseTimer

  /** ReadyQueuedTasks, for one release time. */
  predicate IsReady(release: Moment, now: Moment) { AtMost(Text(release), Text(now)) }

  /** NextDeferredRelease, over the release times of the queued rows. */
  ghost predicate IsNext(queue: set<Moment>, now: Moment, next: Option<Moment>) {
    match next
    case None => forall r :: r in queue ==> !Less(Text(now), Text(r))
    case Some(x) =>
      && x in queue && Less(Text(now), Text(x))
      && (forall r :: r in queue && Less(Text(now), Text(r)) ==> AtMost(Text(x), Text(r)))
  }

  /** How long arm then sleeps, from its clock reading on. */
  function Sleep(now: Moment, next: Moment): int { ReleaseTimer.ReleaseSleep(Instant(now), Instant(next)) }

  lemma BytesCompare(a: Moment, b: Moment)
    ensures Less(Text(a), Text(b)) <==> !AtMost(Text(b), Text(a))
  {
    TextOrder(a, b);
    TextOrder(b, a);
  }

  /** The two reads split the queue the same way: every row is either ready or a candidate
      for the next release, and with no next release every row is ready. */
  lemma ReadsSplitTheQueue(queue: set<Moment>, now: Moment, next: Option<Moment>)
    requires IsNext(queue, now, next)
    ensures forall r :: r in queue ==> (IsReady(r, now) <==> !Less(Text(now), Text(r)))
    ensures next.None? <==> forall r :: r in queue ==> IsReady(r, now)
    ensures next.Some? ==> !IsReady(next.value, now)
  {
    forall r | r in queue ensures IsReady(r, now) <==> !Less(Text(now), Text(r)) {
      BytesCompare(now, r);
    }
  }

  /** The least text is less than a second after the earliest time among the rows that are
      not ready, and no later than it unless text misorders the two. */
  lemma NextWithinSecond(queue: set<Moment>, now: Moment, x: Moment, r: Moment)
    requires IsNext(queue, now, Some(x)) && r in queue && !IsReady(r, now)
    ensures Instant(x) < Instant(r) + SECOND
    ensures Instant(r) < Instant(x) ==> Misordered(x, r)
  {
    BytesCompare(now, r);
    DueDecision(x, r);
  }

  /** So the timer fires less than a second after any row that is not ready is due. */
  lemma AimedWithinSecond(queue: set<Moment>, now: Moment, x: Moment, r: Moment)
    requires IsNext(queue, now, Some(x)) && r in queue && !IsReady(r, now)
    ensures Instant(now) + Sleep(now, x) < Instant(r) + SECOND
  {
    NextWithinSecond(queue, now, x, r);
    DueDecision(r, now);
  }

  /** Arm sets a zero sleep exactly when text misorders the next release and the clock: the
      release has come, but the ready scan, which compares text, has not returned it. */
  lemma SpinsExactly(queue: set<Moment>, now: Moment, x: Moment)
    requires IsNext(queue, now, Some(x))
    ensures Sleep(now, x) == 0 <==> Misordered(x, now)
    ensures Sleep(now, x) == 0 ==> SameSecond(x, now)
  {
    BytesCompare(now, x);
    TextOrder(now, x);
  }

  lemma MisorderedNotReady(release: Moment, now: Moment)
    requires Misordered(release, now) && Instant(release) < Instant(now)
    ensures Less(Text(now), Text(release)) && !IsReady(release, now)
  {
    TextOrder(now, release);
    BytesCompare(now, release);
  }

  lemma OnlyCandidate(release: Moment, now: Moment)
    requires Less(Text(now), Text(release))
    ensures IsNext({release}, now, Some(release))
  {}

  /** That happens to every task due on a whole second, all through the rest of that second. */
  lemma WholeSecondSpins(release: Moment, later: int) returns (now: Moment)
    requires release.nanos == 0 && 0 < later < SECOND
    ensures now == release.(nanos := later)
    ensures !IsReady(release, now) && IsNext({release}, now, Some(release)) && Sleep(now, release) == 0
  {
    now := release.(nanos := later);
    WholeSecondMisordered(release, later);
    MisorderedNotReady(release, now);
    OnlyCandidate(release, now);
  }

  /** And ends with it: once the clock shows a later second, the task is ready. */
  lemma SpinEndsWithTheSecond(release: Moment, now: Moment)
    requires Seconds(release) < Seconds(now)
    ensures IsReady(release, now)
  {
    FieldsOrder(release, now);
    TextOrder(release, now);
  }
}
