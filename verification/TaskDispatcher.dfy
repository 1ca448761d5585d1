/** The dispatcher's and the watchdog's methods as they are written; alone, they do what their steps do. */
module TaskDispatcher {
  import opened Texts
  import opened KvStore
  import opened TaskClaims

  function Measure(pc: Pc): nat {
    match pc
    case ReadPending => 9
    case ReadApproval(_) => 8
    case WriteReview(_) => 7
    case DropApproval(_) => 7
    case ReadLeaseEpoch(_) => 6
    case WriteClaim(_, _) => 5
    case PutAttempt(_) => 4
    case PutEpoch(_) => 3
    case CheckAttempt => 5
    case CheckEpoch(_) => 4
    case ReadRunning => 3
    case WriteClosed(_) => 2
    case ClearAttempt => 1
    case Returned(_) => 0
  }

  /** A dispatcher call run to its end with nothing in between. */
  function ToEnd(c: Call, pc: Pc, kv: Store): (Outcome, Store)
    decreases Measure(pc)
  {
    if pc.Returned? then (pc.outcome, kv)
    else
      var (next, after) := Step(c, pc, kv);
      ToEnd(c, next, after)
  }

  function WatchMeasure(w: Watch): nat {
    match w
    case Idle => 0
    case SeeStatus(_, _) => 6
    case SeeAttempt(_, _, _) => 5
    case SeeRetries(_) => 4
    case WriteRecovered(_, _) => 3
    case Fence(_) => 2
    case CountRetry(_) => 1
  }

  function WatchToEnd(maxRetry: int, w: Watch, kv: Store): Store
    decreases WatchMeasure(w)
  {
    if w == Idle then kv
    else
      var (next, after) := WatchStep(maxRetry, w, kv);
      WatchToEnd(maxRetry, next, after)
  }

  lemma OneStep(c: Call, pc: Pc, kv: Store)
    requires !pc.Returned?
    ensures ToEnd(c, pc, kv) == ToEnd(c, Step(c, pc, kv).0, Step(c, pc, kv).1)
  {
    hide Step;
  }

  lemma Ends(c: Call)
    ensures forall o, kv :: ToEnd(c, Returned(o), kv) == (o, kv)
  {}

  lemma OneWatchStep(maxRetry: int, w: Watch, kv: Store)
    requires w != Idle
    ensures WatchToEnd(maxRetry, w, kv) ==
      WatchToEnd(maxRetry, WatchStep(maxRetry, w, kv).0, WatchStep(maxRetry, w, kv).1)
  {
    hide WatchStep;
  }

  lemma WatchEnds(maxRetry: int)
    ensures forall kv :: WatchToEnd(maxRetry, Idle, kv) == kv
  {}

  class Dispatcher {
    const store: LocalStore<Key, Value>

    constructor (store: LocalStore<Key, Value>)
      ensures this.store == store
    {
      this.store := store;
    }

    /** _claim: `routable` stands for the agent, instance and run lookups that come before the lease epoch. */
    method ClaimTask(c: Call) returns (o: Outcome)
      requires c.Claim?
      modifies store
      ensures (o, store.Model()) == ToEnd(c, ReadPending, old(store.Model()))
    {
      hide ToEnd;
      Ends(c);
      OneStep(c, ReadPending, store.Model());
      var status, index := store.KvGet(Status);
      if status != Some(State(Pending)) {
        return NotPending;
      }
      if c.needsApproval {
        OneStep(c, ReadApproval(index), store.Model());
        var approved, _ := store.KvGet(Approval);
        if approved.None? {
          OneStep(c, WriteReview(index), store.Model());
          var _ := store.KvPut(Status, State(AwaitingReview), Some(index));
          return HeldForReview;
        }
        OneStep(c, DropApproval(index), store.Model());
        store.KvDelete(Approval);
      }
      if !c.routable {
        return Deferred;
      }
      OneStep(c, ReadLeaseEpoch(index), store.Model());
      var previousEpoch, _ := store.KvGet(LeaseEpoch);
      var epoch := IntOf(previousEpoch) + 1;
      OneStep(c, WriteClaim(index, epoch), store.Model());
      var won := store.KvPut(Status, State(InProgress), Some(index));
      if !won {
        return LostRace;
      }
      OneStep(c, PutAttempt(epoch), store.Model());
      var _ := store.KvPut(AttemptId, Str(c.attempt), None);
      OneStep(c, PutEpoch(epoch), store.Model());
      var _ := store.KvPut(LeaseEpoch, Num(epoch), None);
      return Claimed(epoch);
    }

    method AttemptIsCurrent(c: Call) returns (current: bool)
      requires c.Close?
      ensures var kv := store.Model();
        ToEnd(c, CheckAttempt, kv) == if current then ToEnd(c, ReadRunning, kv) else (Stale, kv)
    {
      hide ToEnd;
      Ends(c);
      OneStep(c, CheckAttempt, store.Model());
      var attempt, _ := store.KvGet(AttemptId);
      OneStep(c, CheckEpoch(attempt), store.Model());
      var epoch, _ := store.KvGet(LeaseEpoch);
      current := attempt == Some(Str(c.attempt)) && epoch == Some(Num(c.epoch));
    }

    /** _complete, _fail, _wait_for_workspace and _release_for_control: one shape, different target states. */
    method CloseTask(c: Call) returns (o: Outcome)
      requires c.Close?
      modifies store
      ensures (o, store.Model()) == ToEnd(c, CheckAttempt, old(store.Model()))
    {
      hide ToEnd;
      Ends(c);
      var current := AttemptIsCurrent(c);
      if !current {
        return Stale;
      }
      OneStep(c, ReadRunning, store.Model());
      var status, index := store.KvGet(Status);
      if status != Some(State(InProgress)) {
        return NotRunning;
      }
      OneStep(c, WriteClosed(index), store.Model());
      var won := store.KvPut(Status, State(ClosedState(c.closing)), Some(index));
      if !won {
        return LostRace;
      }
      if c.closing.Release? {
        OneStep(c, ClearAttempt, store.Model());
        var _ := store.KvPut(AttemptId, CLEARED, None);
      }
      return Closed;
    }
  }

  class Watchdog {
    const store: LocalStore<Key, Value>
    const maxRetry: int

    constructor (store: LocalStore<Key, Value>, maxRetry: int)
      ensures this.store == store && this.maxRetry == maxRetry
    {
      this.store, this.maxRetry := store, maxRetry;
    }

    method Recover(snapshot: Text, expired: bool)
      modifies store
      ensures store.Model() == WatchToEnd(maxRetry, SeeStatus(snapshot, expired), old(store.Model()))
    {
      hide WatchToEnd;
      WatchEnds(maxRetry);
      OneWatchStep(maxRetry, SeeStatus(snapshot, expired), store.Model());
      var status, index := store.KvGet(Status);
      if status != Some(State(InProgress)) {
        return;
      }
      OneWatchStep(maxRetry, SeeAttempt(snapshot, expired, index), store.Model());
      var attempt, _ := store.KvGet(AttemptId);
      if (snapshot != [] && attempt != Some(Str(snapshot))) || !expired {
        return;
      }
      OneWatchStep(maxRetry, SeeRetries(index), store.Model());
      var cur, _ := store.KvGet(RetryCount);
      var retries := IntOf(cur) + 1;
      OneWatchStep(maxRetry, WriteRecovered(index, retries), store.Model());
      var won := store.KvPut(Status, State(Target(maxRetry, retries)), Some(index));
      if !won {
        return;
      }
      OneWatchStep(maxRetry, Fence(retries), store.Model());
      var _ := store.KvPut(AttemptId, CLEARED, None);
      OneWatchStep(maxRetry, CountRetry(retries), store.Model());
      var _ := store.KvPut(RetryCount, Num(retries), None);
    }
  }
}
