/** What claims, closings and recoveries answer and leave, in literal states. */
module TaskAnswers {
  import opened Texts
  import opened KvStore
  import opened TaskClaims
  import opened TaskDispatcher

  /** Every key but these reads as before. */
  ghost predicate OnlyAt(kv: Store, after: Store, keys: set<Key>) {
    forall k :: k !in keys ==> Get(after, k).value == Get(kv, k).value
  }

  /** A claim, alone. */
  lemma ClaimAnswers(c: Call, kv: Store)
    requires c.Claim?
    ensures var (o, after) := ToEnd(c, ReadPending, kv);
      var pending := Get(kv, Status).value == Some(State(Pending));
      var approved := Get(kv, Approval).value.Some?;
      && (!pending ==> (o, after) == (NotPending, kv))
      && (pending && c.needsApproval && !approved ==>
        o == HeldForReview && Get(after, Status).value == Some(State(AwaitingReview)) && OnlyAt(kv, after, {Status}))
      && (pending && (c.needsApproval ==> approved) && !c.routable ==>
        o == Deferred && OnlyAt(kv, after, {Approval})
        && Get(after, Approval).value == if c.needsApproval then None else Get(kv, Approval).value)
      && (pending && (c.needsApproval ==> approved) && c.routable ==>
        var was := Get(kv, LeaseEpoch).value;
        var epoch := if was.Some? && was.value.Num? then was.value.number + 1 else 1;
        && o == Claimed(epoch)
        && Get(after, Status).value == Some(State(InProgress))
        && Get(after, AttemptId).value == Some(Str(c.attempt))
        && Get(after, LeaseEpoch).value == Some(Num(epoch))
        && (Get(after, Approval).value == if c.needsApproval then None else Get(kv, Approval).value)
        && OnlyAt(kv, after, {Status, AttemptId, LeaseEpoch, Approval}))
  {
    hide ToEnd;
    Ends(c);
    OneStep(c, ReadPending, kv);
    if Get(kv, Status).value == Some(State(Pending)) {
      var index := Get(kv, Status).index;
      if !c.needsApproval {
        RoutedAnswers(c, index, kv);
      } else {
        OneStep(c, ReadApproval(index), kv);
        if Get(kv, Approval).value.None? {
          OneStep(c, WriteReview(index), kv);
        } else {
          OneStep(c, DropApproval(index), kv);
          RoutedAnswers(c, index, DeleteAll(kv, {Approval}));
        }
      }
    }
  }

  lemma RoutedAnswers(c: Call, index: nat, kv: Store)
    requires c.Claim? && CurrentIndex(kv, Status) == index
    ensures !c.routable ==> ToEnd(c, RoutedFrom(c, index), kv) == (Deferred, kv)
    ensures c.routable ==>
      var (o, after) := ToEnd(c, RoutedFrom(c, index), kv);
      var was := Get(kv, LeaseEpoch).value;
      var epoch := if was.Some? && was.value.Num? then was.value.number + 1 else 1;
      && o == Claimed(epoch)
      && Get(after, Status).value == Some(State(InProgress))
      && Get(after, AttemptId).value == Some(Str(c.attempt))
      && Get(after, LeaseEpoch).value == Some(Num(epoch))
      && OnlyAt(kv, after, {Status, AttemptId, LeaseEpoch})
  {
    hide ToEnd;
    Ends(c);
    if c.routable {
      var epoch := IntOf(Get(kv, LeaseEpoch).value) + 1;
      OneStep(c, ReadLeaseEpoch(index), kv);
      OneStep(c, WriteClaim(index, epoch), kv);
      var kv1 := Put(kv, Status, State(InProgress), Some(index));
      OneStep(c, PutAttempt(epoch), kv1);
      OneStep(c, PutEpoch(epoch), Put(kv1, AttemptId, Str(c.attempt), None));
    }
  }

  /** The state each closing leaves, by name. */
  ghost predicate ClosesAs(closing: Closing, state: TaskState) {
    match closing
    case Complete => state == Done
    case Fail => state == Failed
    case WaitForWorkspace => state == WaitingForHuman
    case Release(abort) => (abort ==> state == Aborted) && (!abort ==> state == Pending)
  }

  /** A closing, alone: the current attempt closes a running task, and only a release clears the attempt. */
  lemma CloseAnswers(c: Call, kv: Store)
    requires c.Close?
    ensures var (o, after) := ToEnd(c, CheckAttempt, kv);
      var current :=
        Get(kv, AttemptId).value == Some(Str(c.attempt)) && Get(kv, LeaseEpoch).value == Some(Num(c.epoch));
      var running := Get(kv, Status).value == Some(State(InProgress));
      && (!current ==> (o, after) == (Stale, kv))
      && (current && !running ==> (o, after) == (NotRunning, kv))
      && (current && running ==>
        && o == Closed
        && Get(after, Status).value.Some? && Get(after, Status).value.value.State?
        && ClosesAs(c.closing, Get(after, Status).value.value.state)
        && (Get(after, AttemptId).value == if c.closing.Release? then Some(Str([])) else Some(Str(c.attempt)))
        && OnlyAt(kv, after, {Status, AttemptId}))
  {
    hide ToEnd;
    Ends(c);
    OneStep(c, CheckAttempt, kv);
    OneStep(c, CheckEpoch(Get(kv, AttemptId).value), kv);
    OneStep(c, ReadRunning, kv);
    var status := Get(kv, Status);
    if status.value == Some(State(InProgress)) {
      OneStep(c, WriteClosed(status.index), kv);
      OneStep(c, ClearAttempt, Put(kv, Status, State(ClosedState(c.closing)), Some(status.index)));
    }
  }

  /** A recovery, alone: the attempt is cleared, the recovery counted, and the task fails at the max_retry-th. */
  lemma RecoverAnswers(maxRetry: int, snapshot: Text, expired: bool, kv: Store)
    ensures var after := WatchToEnd(maxRetry, SeeStatus(snapshot, expired), kv);
      var running := Get(kv, Status).value == Some(State(InProgress));
      var same := snapshot == [] || Get(kv, AttemptId).value == Some(Str(snapshot));
      var stored := Get(kv, RetryCount).value;
      var retries := if stored.Some? && stored.value.Num? then stored.value.number + 1 else 1;
      && (!running || !same || !expired ==> after == kv)
      && (running && same && expired ==>
        && Get(after, Status).value == Some(State(if retries < maxRetry then Pending else Failed))
        && Get(after, AttemptId).value == Some(Str([]))
        && Get(after, RetryCount).value == Some(Num(retries))
        && OnlyAt(kv, after, {Status, AttemptId, RetryCount}))
  {
    hide WatchToEnd;
    WatchEnds(maxRetry);
    var status := Get(kv, Status);
    var retries := IntOf(Get(kv, RetryCount).value) + 1;
    OneWatchStep(maxRetry, SeeStatus(snapshot, expired), kv);
    OneWatchStep(maxRetry, SeeAttempt(snapshot, expired, status.index), kv);
    OneWatchStep(maxRetry, SeeRetries(status.index), kv);
    OneWatchStep(maxRetry, WriteRecovered(status.index, retries), kv);
    var kv1 := Put(kv, Status, State(Target(maxRetry, retries)), Some(status.index));
    OneWatchStep(maxRetry, Fence(retries), kv1);
    var kv2 := Put(kv1, AttemptId, CLEARED, None);
    OneWatchStep(maxRetry, CountRetry(retries), kv2);
  }

  // ---- in every interleaving ----

  /**
   Whatever interleaves, what a step logs is what it wrote into the status: openings, closings and recoveries alike.
   */
  lemma LoggedIsWritten(maxRetry: int, s: Sys, act: Action)
    ensures var next := Apply(maxRetry, s, act);
      next.log == s.log || (|next.log| == |s.log| + 1 && next.log[..|s.log|] == s.log
        && Get(next.kv, Status).value.Some? && Get(next.kv, Status).value.value.State?
        && var state := Get(next.kv, Status).value.value.state;
        match next.log[|s.log|]
        case Opened(pid, interval) =>
          act == Advance(pid) && state == InProgress && CurrentIndex(next.kv, Status) == interval
        case Resumed(interval) => state == InProgress && CurrentIndex(next.kv, Status) == interval
        case ClosedBy(pid, interval) =>
          && act == Advance(pid) && pid in s.procs && s.procs[pid].call.Close?
          && CurrentIndex(s.kv, Status) == interval && ClosesAs(s.procs[pid].call.closing, state)
        case Recovered(target, interval) =>
          && act == Patrol && CurrentIndex(s.kv, Status) == interval && state == target
          && s.watch.WriteRecovered? && (target == if s.watch.retries < maxRetry then Pending else Failed))
  {
    var next := Apply(maxRetry, s, act);
    match act
    case Advance(pid) =>
      if pid in s.procs {
        assert next.log == s.log + StepEvents(pid, s.procs[pid].pc, s.kv, next.kv);
      }
    case Patrol => assert next.log == s.log + WatchEvents(maxRetry, s.watch, s.kv, next.kv);
    case _ =>
  }
}
