/**
 Who owns a task: claims and closings by ACP dispatcher threads and recoveries by the watchdog, in workflow scope,
 over the keys of one task. Each key-value call is one atomic step; any number of dispatcher threads interleave,
 there is one watchdog, and everybody else may set the status to anything at any time (an answered question sets it back
 to IN_PROGRESS).
 */
module TaskClaims {
  import opened Texts
  import opened KvStore

  datatype TaskState = Blocked | Pending | InProgress | AwaitingReview | WaitingForHuman | Done | Failed | Aborted

  datatype Key = Status | AttemptId | LeaseEpoch | RetryCount | Approval

  datatype Value = State(state: TaskState) | Str(text: Text) | Num(number: int)

  type Store = Kv<Key, Value>

  const CLEARED: Value := Str([])

  // ---- dispatcher calls ----

  datatype Closing = Complete | Fail | WaitForWorkspace | Release(abort: bool)

  datatype Call =
    | Claim(attempt: Text, needsApproval: bool, routable: bool)
    | Close(closing: Closing, attempt: Text, epoch: int)

  function ClosedState(c: Closing): TaskState {
    match c
    case Complete => Done
    case Fail => Failed
    case WaitForWorkspace => WaitingForHuman
    case Release(abort) => if abort then Aborted else Pending
  }

  datatype Outcome =
    | NotPending | HeldForReview | Deferred | LostRace
    | Claimed(epoch: int)
    | Stale | NotRunning | Closed

  datatype Pc =
    | ReadPending
    | ReadApproval(index: nat)
    | WriteReview(index: nat)
    | DropApproval(index: nat)
    | ReadLeaseEpoch(index: nat)
    | WriteClaim(index: nat, epoch: int)
    | PutAttempt(epoch: int)
    | PutEpoch(epoch: int)
    | CheckAttempt
    | CheckEpoch(current: Option<Value>)
    | ReadRunning
    | WriteClosed(index: nat)
    | ClearAttempt
    | Returned(outcome: Outcome)

  function Start(c: Call): Pc {
    if c.Claim? then ReadPending else CheckAttempt
  }

  /** int(value or "0"). */
  function IntOf(v: Option<Value>): int {
    if v.Some? && v.value.Num? then v.value.number else 0
  }

  function RoutedFrom(c: Call, index: nat): Pc {
    if c.Claim? && c.routable then ReadLeaseEpoch(index) else Returned(Deferred)
  }

  function Step(c: Call, pc: Pc, kv: Store): (Pc, Store) {
    match pc
    case ReadPending =>
      var status := Get(kv, Status);
      if status.value != Some(State(Pending)) then (Returned(NotPending), kv)
      else if c.Claim? && c.needsApproval then (ReadApproval(status.index), kv)
      else (RoutedFrom(c, status.index), kv)
    case ReadApproval(index) =>
      (if Get(kv, Approval).value.None? then WriteReview(index) else DropApproval(index), kv)
    case WriteReview(index) => (Returned(HeldForReview), Put(kv, Status, State(AwaitingReview), Some(index)))
    case DropApproval(index) => (RoutedFrom(c, index), DeleteAll(kv, {Approval}))
    case ReadLeaseEpoch(index) => (WriteClaim(index, IntOf(Get(kv, LeaseEpoch).value) + 1), kv)
    case WriteClaim(index, epoch) =>
      if CasOk(kv, Status, Some(index)) then (PutAttempt(epoch), Put(kv, Status, State(InProgress), Some(index)))
      else (Returned(LostRace), kv)
    case PutAttempt(epoch) => (PutEpoch(epoch), Put(kv, AttemptId, Str(c.attempt), None))
    case PutEpoch(epoch) => (Returned(Claimed(epoch)), Put(kv, LeaseEpoch, Num(epoch), None))
    case CheckAttempt => (CheckEpoch(Get(kv, AttemptId).value), kv)
    case CheckEpoch(current) =>
      if c.Close? && current == Some(Str(c.attempt)) && Get(kv, LeaseEpoch).value == Some(Num(c.epoch))
      then (ReadRunning, kv) else (Returned(Stale), kv)
    case ReadRunning =>
      var status := Get(kv, Status);
      (if status.value == Some(State(InProgress)) then WriteClosed(status.index) else Returned(NotRunning), kv)
    case WriteClosed(index) =>
      if c.Close? && CasOk(kv, Status, Some(index)) then
        (if c.closing.Release? then ClearAttempt else Returned(Closed),
         Put(kv, Status, State(ClosedState(c.closing)), Some(index)))
      else (Returned(LostRace), kv)
    case ClearAttempt => (Returned(Closed), Put(kv, AttemptId, CLEARED, None))
    case Returned(_) => (pc, kv)
  }

  // ---- the watchdog ----

  datatype Watch =
    | Idle
    | SeeStatus(snapshot: Text, expired: bool)
    | SeeAttempt(snapshot: Text, expired: bool, index: nat)
    | SeeRetries(index: nat)
    | WriteRecovered(index: nat, retries: int)
    | Fence(retries: int)
    | CountRetry(retries: int)

  function Target(maxRetry: int, retries: int): TaskState {
    if retries >= maxRetry then Failed else Pending
  }

  /** `expired` is what re-reading the deadline will say; an empty snapshot attempt is not compared. */
  function WatchStep(maxRetry: int, w: Watch, kv: Store): (Watch, Store) {
    match w
    case Idle => (w, kv)
    case SeeStatus(snapshot, expired) =>
      var status := Get(kv, Status);
      (if status.value == Some(State(InProgress)) then SeeAttempt(snapshot, expired, status.index) else Idle, kv)
    case SeeAttempt(snapshot, expired, index) =>
      var changed := snapshot != [] && Get(kv, AttemptId).value != Some(Str(snapshot));
      (if changed || !expired then Idle else SeeRetries(index), kv)
    case SeeRetries(index) => (WriteRecovered(index, IntOf(Get(kv, RetryCount).value) + 1), kv)
    case WriteRecovered(index, retries) =>
      if CasOk(kv, Status, Some(index)) then
        (Fence(retries), Put(kv, Status, State(Target(maxRetry, retries)), Some(index)))
      else (Idle, kv)
    case Fence(retries) => (CountRetry(retries), Put(kv, AttemptId, CLEARED, None))
    case CountRetry(retries) => (Idle, Put(kv, RetryCount, Num(retries), None))
  }

  // ---- interleavings ----

  datatype Proc = Proc(call: Call, pc: Pc)

  /** Openings and closings of IN_PROGRESS intervals; an interval is named by the index the write that began it got. */
  datatype Event =
    | Opened(pid: nat, interval: nat)      // by a claim
    | Resumed(interval: nat)               // by somebody else's write of IN_PROGRESS
    | ClosedBy(pid: nat, interval: nat)
    | Recovered(target: TaskState, interval: nat)

  predicate Opening(e: Event) { e.Opened? || e.Resumed? }

  datatype Sys = Sys(kv: Store, procs: map<nat, Proc>, watch: Watch, used: set<Text>, log: seq<Event>)

  datatype Action =
    | Spawn(pid: nat, call: Call)
    | Advance(pid: nat)
    | StartRecovery(snapshot: Text, expired: bool)
    | Patrol
    | Outside(op: Op<Key, Value>)

  /** Others may write any status, but attempt ids are only ever cleared and retries only counted here. */
  predicate Allowed(op: Op<Key, Value>) {
    match op
    case PutOp(k, v, _) =>
      && (k == AttemptId ==> v == CLEARED)
      && k != RetryCount
    case DeleteOp(ks) => RetryCount !in ks
  }

  /** uuid4: a claim's attempt id is new. */
  predicate MaySpawn(s: Sys, pid: nat, call: Call) {
    pid !in s.procs && call.attempt != [] && (call.Claim? ==> call.attempt !in s.used)
  }

  function StepEvents(pid: nat, pc: Pc, before: Store, after: Store): seq<Event> {
    if before == after then []
    else match pc
      case WriteClaim(_, _) => [Opened(pid, after.index)]
      case WriteClosed(index) => [ClosedBy(pid, index)]
      case _ => []
  }

  function WatchEvents(maxRetry: int, w: Watch, before: Store, after: Store): seq<Event> {
    if w.WriteRecovered? && before != after then [Recovered(Target(maxRetry, w.retries), w.index)] else []
  }

  function OutsideEvents(op: Op<Key, Value>, before: Store, after: Store): seq<Event> {
    if before != after && op.PutOp? && op.key == Status && op.value == State(InProgress) then [Resumed(after.index)]
    else []
  }

  function Apply(maxRetry: int, s: Sys, act: Action): Sys {
    match act
    case Spawn(pid, call) =>
      if MaySpawn(s, pid, call) then
        s.(procs := s.procs[pid := Proc(call, Start(call))],
           used := if call.Claim? then s.used + {call.attempt} else s.used)
      else s
    case Advance(pid) =>
      if pid !in s.procs then s else
      var p := s.procs[pid];
      var (pc, kv) := Step(p.call, p.pc, s.kv);
      s.(kv := kv, procs := s.procs[pid := Proc(p.call, pc)], log := s.log + StepEvents(pid, p.pc, s.kv, kv))
    case StartRecovery(snapshot, expired) => if s.watch == Idle then s.(watch := SeeStatus(snapshot, expired)) else s
    case Patrol =>
      var (w, kv) := WatchStep(maxRetry, s.watch, s.kv);
      s.(kv := kv, watch := w, log := s.log + WatchEvents(maxRetry, s.watch, s.kv, kv))
    case Outside(op) =>
      if Allowed(op) then s.(kv := Do(s.kv, op), log := s.log + OutsideEvents(op, s.kv, Do(s.kv, op))) else s
  }

  function Run(maxRetry: int, s: Sys, acts: seq<Action>): Sys {
    if acts == [] then s else Apply(maxRetry, Run(maxRetry, s, acts[..|acts| - 1]), acts[|acts| - 1])
  }

  /** A task that has only been published. */
  function Published(first: TaskState): Sys {
    Sys(Put(Empty(), Status, State(first), None), map[], Idle, {}, [])
  }

  // ---- one interval, one closing ----

  ghost predicate OpenedIn(log: seq<Event>, interval: nat, upTo: nat) {
    exists i :: 0 <= i < upTo && i < |log| && Opening(log[i]) && log[i].interval == interval
  }

  ghost predicate ClosedIn(log: seq<Event>, interval: nat) {
    exists i :: 0 <= i < |log| && !Opening(log[i]) && log[i].interval == interval
  }

  ghost predicate LogOk(log: seq<Event>) {
    && (forall i, j :: 0 <= i < j < |log| && Opening(log[i]) && Opening(log[j]) ==> log[i].interval != log[j].interval)
    && (forall i, j :: 0 <= i < j < |log| && !Opening(log[i]) && !Opening(log[j]) ==>
      log[i].interval != log[j].interval)
    && (forall i :: 0 <= i < |log| && !Opening(log[i]) ==> OpenedIn(log, log[i].interval, i))
  }

  ghost predicate IntervalOk(kv: Store, log: seq<Event>) {
    && (forall i :: 0 <= i < |log| ==> log[i].interval <= kv.index)
    && (Get(kv, Status).value == Some(State(InProgress)) ==>
          OpenedIn(log, CurrentIndex(kv, Status), |log|) && !ClosedIn(log, CurrentIndex(kv, Status)))
  }

  ghost predicate SawRunning(kv: Store, index: nat) {
    Remembers(kv, Status, Read(Some(State(InProgress)), index))
  }

  ghost predicate ProcOk(kv: Store, p: Proc) {
    p.pc.WriteClosed? ==> SawRunning(kv, p.pc.index)
  }

  ghost predicate WatchOk(kv: Store, w: Watch) {
    && (w.SeeAttempt? ==> SawRunning(kv, w.index))
    && (w.SeeRetries? ==> SawRunning(kv, w.index))
    && (w.WriteRecovered? ==> SawRunning(kv, w.index))
  }

  ghost predicate Inv(s: Sys) {
    && WellFormed(s.kv)
    && LogOk(s.log) && IntervalOk(s.kv, s.log)
    && WatchOk(s.kv, s.watch)
    && forall pid :: pid in s.procs ==> ProcOk(s.kv, s.procs[pid])
  }

  // ---- the three ways the log and the status move together ----

  /** The status is what it was, or nobody is running. */
  ghost predicate StatusQuiet(before: Store, after: Store) {
    && before.index <= after.index
    && (Get(after, Status).value == Some(State(InProgress)) ==>
          && Get(before, Status).value == Some(State(InProgress))
          && CurrentIndex(after, Status) == CurrentIndex(before, Status))
  }

  lemma Quiet(before: Store, after: Store, log: seq<Event>)
    requires IntervalOk(before, log) && StatusQuiet(before, after)
    ensures IntervalOk(after, log)
  {}

  lemma Opens(before: Store, after: Store, log: seq<Event>, e: Event)
    requires LogOk(log) && IntervalOk(before, log) && before.index < after.index && Opening(e)
    requires e.interval == after.index
    requires Status in after.entries && after.entries[Status].index == after.index
    ensures LogOk(log + [e]) && IntervalOk(after, log + [e])
  {
    var longer := log + [e];
    forall i | 0 <= i < |longer| && !Opening(longer[i]) ensures OpenedIn(longer, longer[i].interval, i) {
      assert OpenedIn(log, log[i].interval, i);
      var j :| 0 <= j < i && j < |log| && Opening(log[j]) && log[j].interval == log[i].interval;
      assert longer[j] == log[j];
    }
    assert Opening(longer[|log|]);
    assert OpenedIn(longer, after.index, |longer|);
    assert !ClosedIn(longer, after.index);
  }

  lemma Closes(before: Store, after: Store, log: seq<Event>, e: Event)
    requires LogOk(log) && IntervalOk(before, log) && before.index < after.index && !Opening(e)
    requires Get(before, Status).value == Some(State(InProgress)) && CurrentIndex(before, Status) == e.interval
    requires Get(after, Status).value != Some(State(InProgress))
    ensures LogOk(log + [e]) && IntervalOk(after, log + [e])
  {
    var longer := log + [e];
    forall i | 0 <= i < |longer| && !Opening(longer[i]) ensures OpenedIn(longer, longer[i].interval, i) {
      assert OpenedIn(log, longer[i].interval, i);
      var j :| 0 <= j < i && j < |log| && Opening(log[j]) && log[j].interval == longer[i].interval;
      assert longer[j] == log[j];
    }
    assert OpenedIn(log, e.interval, |log|) && !ClosedIn(log, e.interval);
    var j :| 0 <= j < |log| && Opening(log[j]) && log[j].interval == e.interval;
  }

  // ---- steps as store operations ----

  lemma StepIsOp(c: Call, pc: Pc, kv: Store) returns (op: Op<Key, Value>)
    ensures Step(c, pc, kv).1 == Do(kv, op)
  {
    match pc
    case WriteReview(index) => op := PutOp(Status, State(AwaitingReview), Some(index));
    case DropApproval(_) => op := DeleteOp({Approval});
    case WriteClaim(index, _) => op := PutOp(Status, State(InProgress), Some(index));
    case PutAttempt(_) => op := PutOp(AttemptId, Str(c.attempt), None);
    case PutEpoch(epoch) => op := PutOp(LeaseEpoch, Num(epoch), None);
    case WriteClosed(index) =>
      op := if c.Close? then PutOp(Status, State(ClosedState(c.closing)), Some(index)) else DeleteOp({});
    case ClearAttempt => op := PutOp(AttemptId, CLEARED, None);
    case _ => op := DeleteOp({});
  }

  lemma WatchIsOp(maxRetry: int, w: Watch, kv: Store) returns (op: Op<Key, Value>)
    ensures WatchStep(maxRetry, w, kv).1 == Do(kv, op)
  {
    match w
    case WriteRecovered(index, retries) => op := PutOp(Status, State(Target(maxRetry, retries)), Some(index));
    case Fence(_) => op := PutOp(AttemptId, CLEARED, None);
    case CountRetry(retries) => op := PutOp(RetryCount, Num(retries), None);
    case _ => op := DeleteOp({});
  }

  lemma OthersRemember(s: Sys, op: Op<Key, Value>)
    requires Inv(s)
    ensures WellFormed(Do(s.kv, op)) && s.kv.index <= Do(s.kv, op).index
    ensures WatchOk(Do(s.kv, op), s.watch)
    ensures forall pid :: pid in s.procs ==> ProcOk(Do(s.kv, op), s.procs[pid])
  {
    DoWellFormed(s.kv, op);
    forall pid | pid in s.procs ensures ProcOk(Do(s.kv, op), s.procs[pid]) {
      var p := s.procs[pid];
      assert ProcOk(s.kv, p);
      if p.pc.WriteClosed? { RememberLater(s.kv, op, Status, Read(Some(State(InProgress)), p.pc.index)); }
    }
    if s.watch.SeeAttempt? || s.watch.SeeRetries? || s.watch.WriteRecovered? {
      RememberLater(s.kv, op, Status, Read(Some(State(InProgress)), s.watch.index));
    }
  }

  lemma StepLog(kv: Store, p: Proc, pid: nat, log: seq<Event>)
    requires WellFormed(kv) && ProcOk(kv, p) && LogOk(log) && IntervalOk(kv, log)
    ensures var (pc, after) := Step(p.call, p.pc, kv);
      var longer := log + StepEvents(pid, p.pc, kv, after);
      LogOk(longer) && IntervalOk(after, longer) && ProcOk(after, Proc(p.call, pc))
  {
    var (pc, after) := Step(p.call, p.pc, kv);
    RememberNow(kv, Status);
    if p.pc.WriteClaim? && kv != after {
      Opens(kv, after, log, Opened(pid, after.index));
    } else if p.pc.WriteClosed? && kv != after {
      Closes(kv, after, log, ClosedBy(pid, p.pc.index));
    } else {
      Quiet(kv, after, log);
      assert log + [] == log;
    }
  }

  lemma WatchLog(maxRetry: int, kv: Store, w: Watch, log: seq<Event>)
    requires WellFormed(kv) && WatchOk(kv, w) && LogOk(log) && IntervalOk(kv, log)
    ensures var (next, after) := WatchStep(maxRetry, w, kv);
      var longer := log + WatchEvents(maxRetry, w, kv, after);
      LogOk(longer) && IntervalOk(after, longer) && WatchOk(after, next)
  {
    var (next, after) := WatchStep(maxRetry, w, kv);
    RememberNow(kv, Status);
    if w.WriteRecovered? && kv != after {
      Closes(kv, after, log, Recovered(Target(maxRetry, w.retries), w.index));
    } else {
      Quiet(kv, after, log);
      assert log + [] == log;
    }
  }

  lemma OutsideLog(op: Op<Key, Value>, kv: Store, log: seq<Event>)
    requires WellFormed(kv) && LogOk(log) && IntervalOk(kv, log) && Allowed(op)
    ensures var longer := log + OutsideEvents(op, kv, Do(kv, op));
      LogOk(longer) && IntervalOk(Do(kv, op), longer)
  {
    var after := Do(kv, op);
    if OutsideEvents(op, kv, after) != [] {
      Opens(kv, after, log, Resumed(after.index));
    } else {
      Quiet(kv, after, log);
      assert log + [] == log;
    }
  }

  lemma ApplyInv(maxRetry: int, s: Sys, act: Action)
    requires Inv(s)
    ensures Inv(Apply(maxRetry, s, act))
  {
    match act
    case Spawn(pid, call) =>
    case StartRecovery(_, _) =>
    case Advance(pid) =>
      if pid in s.procs {
        var p := s.procs[pid];
        var op := StepIsOp(p.call, p.pc, s.kv);
        OthersRemember(s, op);
        StepLog(s.kv, p, pid, s.log);
        hide LogOk, IntervalOk, WatchOk, Step, ProcOk, WellFormed, Do, StepEvents;
      }
    case Patrol =>
      var op := WatchIsOp(maxRetry, s.watch, s.kv);
      OthersRemember(s, op);
      WatchLog(maxRetry, s.kv, s.watch, s.log);
      hide LogOk, IntervalOk, WatchOk, WatchStep, ProcOk, WellFormed, Do, WatchEvents;
    case Outside(op) =>
      OthersRemember(s, op);
      if Allowed(op) { OutsideLog(op, s.kv, s.log); }
      hide LogOk, IntervalOk, WatchOk, ProcOk, WellFormed, Do;
  }

  lemma {:induction false} RunInv(maxRetry: int, s: Sys, acts: seq<Action>)
    requires Inv(s)
    ensures Inv(Run(maxRetry, s, acts))
  {
    if acts != [] {
      RunInv(maxRetry, s, acts[..|acts| - 1]);
      hide Inv, Apply;
      ApplyInv(maxRetry, Run(maxRetry, s, acts[..|acts| - 1]), acts[|acts| - 1]);
    }
  }

  /**
   Whatever interleaves: every claim, and every write of IN_PROGRESS by others, opens an interval of its own; every
   completion, failure, wait, release or recovery closes an interval opened before it; and no interval is closed twice.
   */
  lemma EachIntervalClosedOnce(maxRetry: int, first: TaskState, acts: seq<Action>)
    requires first != InProgress
    ensures var log := Run(maxRetry, Published(first), acts).log;
      && (forall i, j :: 0 <= i < j < |log| && Opening(log[i]) && Opening(log[j]) ==>
        log[i].interval != log[j].interval)
      && (forall i, j :: 0 <= i < j < |log| && !Opening(log[i]) && !Opening(log[j]) ==>
        log[i].interval != log[j].interval)
      && (forall i :: 0 <= i < |log| && !Opening(log[i]) ==> OpenedIn(log, log[i].interval, i))
  {
    assert Inv(Published(first));
    RunInv(maxRetry, Published(first), acts);
  }

  // ---- fencing ----

  predicate ClaimPc(pc: Pc) {
    pc.ReadPending? || pc.ReadApproval? || pc.WriteReview? || pc.DropApproval? || pc.ReadLeaseEpoch?
    || pc.WriteClaim? || pc.PutAttempt? || pc.PutEpoch? || pc.Returned?
  }

  predicate PastWrite(pc: Pc) { pc.PutEpoch? || pc.Returned? }

  /** The claim of attempt a has written it, and no other claim ever will. */
  ghost predicate Settled(s: Sys, a: Text) {
    a != [] && a in s.used
    && forall pid :: pid in s.procs && s.procs[pid].call.Claim? && s.procs[pid].call.attempt == a ==>
      PastWrite(s.procs[pid].pc)
  }

  ghost predicate ProcTidy(s: Sys, p: Proc) {
    && p.call.attempt != []
    && (p.call.Claim? ==> p.call.attempt in s.used && ClaimPc(p.pc))
    && (p.call.Close? ==> !p.pc.PutAttempt?)
  }

  ghost predicate Tidy(s: Sys) {
    && (forall pid :: pid in s.procs ==> ProcTidy(s, s.procs[pid]))
    && (forall p, q :: p in s.procs && q in s.procs && p != q && s.procs[p].call.Claim? && s.procs[q].call.Claim? ==>
          s.procs[p].call.attempt != s.procs[q].call.attempt)
    && (forall a :: a != [] && Get(s.kv, AttemptId).value == Some(Str(a)) ==> Settled(s, a))
  }

  lemma StepAttempt(c: Call, pc: Pc, kv: Store)
    ensures pc.Returned? ==> Step(c, pc, kv) == (pc, kv)
    ensures pc.PutAttempt? ==> PastWrite(Step(c, pc, kv).0) && !PastWrite(pc)
    ensures c.Claim? && ClaimPc(pc) ==>
      ClaimPc(Step(c, pc, kv).0) && (PastWrite(pc) && !pc.Returned? ==> PastWrite(Step(c, pc, kv).0))
    ensures c.Close? && !pc.PutAttempt? ==> !Step(c, pc, kv).0.PutAttempt? || ClaimPc(pc)
    ensures var before, after := Get(kv, AttemptId).value, Get(Step(c, pc, kv).1, AttemptId).value;
      after == before || (pc.PutAttempt? && after == Some(Str(c.attempt))) || after == Some(CLEARED)
  {}

  /** Close calls never enter the claiming part of the program. */
  ghost predicate Roles(s: Sys) {
    forall pid :: pid in s.procs && s.procs[pid].call.Close? ==> s.procs[pid].pc.Returned? || !ClaimPc(s.procs[pid].pc)
  }

  lemma ApplyRoles(maxRetry: int, s: Sys, act: Action)
    requires Roles(s)
    ensures Roles(Apply(maxRetry, s, act))
  {}

  lemma WatchAttempt(maxRetry: int, w: Watch, kv: Store)
    ensures var before, after := Get(kv, AttemptId).value, Get(WatchStep(maxRetry, w, kv).1, AttemptId).value;
      after == before || after == Some(CLEARED)
  {}

  lemma OutsideAttempt(op: Op<Key, Value>, kv: Store)
    requires Allowed(op)
    ensures var before, after := Get(kv, AttemptId).value, Get(Do(kv, op), AttemptId).value;
      after == before || after == Some(CLEARED) || after == None
  {}

  lemma ApplyTidy(maxRetry: int, s: Sys, act: Action)
    requires Tidy(s) && Roles(s)
    ensures Tidy(Apply(maxRetry, s, act))
    ensures forall a :: Settled(s, a) ==> Settled(Apply(maxRetry, s, act), a)
    ensures forall a :: Settled(s, a) && Get(s.kv, AttemptId).value != Some(Str(a)) ==>
      Get(Apply(maxRetry, s, act).kv, AttemptId).value != Some(Str(a))
  {
    hide Step, WatchStep, StepEvents, WatchEvents, Allowed, Do;
    if act.Patrol? { WatchAttempt(maxRetry, s.watch, s.kv); }
    if act.Outside? && Allowed(act.op) { OutsideAttempt(act.op, s.kv); }
    if act.Advance? && act.pid in s.procs {
      AdvanceTidy(s, act.pid, Apply(maxRetry, s, act));
    }
  }

  lemma AdvanceTidy(s: Sys, pid: nat, next: Sys)
    requires Tidy(s) && Roles(s) && pid in s.procs
    requires var p := s.procs[pid];
      var (pc, kv) := Step(p.call, p.pc, s.kv);
      next.kv == kv && next.procs == s.procs[pid := Proc(p.call, pc)] && next.used == s.used
    ensures Tidy(next)
    ensures forall a :: Settled(s, a) ==> Settled(next, a)
    ensures forall a :: Settled(s, a) && Get(s.kv, AttemptId).value != Some(Str(a)) ==>
      Get(next.kv, AttemptId).value != Some(Str(a))
  {
    hide Step, ClaimPc, PastWrite;
    var p := s.procs[pid];
    StepAttempt(p.call, p.pc, s.kv);
    assert ProcTidy(s, p);
    forall a | Settled(s, a) ensures Settled(next, a) {}
    if p.pc.PutAttempt? { assert Settled(next, p.call.attempt); }
  }

  /** A closing call for attempt a that has found, or will find, that the attempt is no longer current. */
  ghost predicate Late(p: Proc, a: Text) {
    p.call.Close? && p.call.attempt == a
    && match p.pc
       case CheckAttempt => true
       case CheckEpoch(current) => current != Some(Str(a))
       case Returned(outcome) => outcome == Stale
       case _ => false
  }

  ghost predicate NoClosingBy(log: seq<Event>, from: nat, pid: nat) {
    forall i :: from <= i < |log| && log[i].ClosedBy? ==> log[i].pid != pid
  }

  lemma ApplyLate(maxRetry: int, s: Sys, act: Action, pid: nat, a: Text, from: nat)
    requires Tidy(s) && Roles(s) && Settled(s, a) && Get(s.kv, AttemptId).value != Some(Str(a))
    requires pid in s.procs && Late(s.procs[pid], a) && NoClosingBy(s.log, from, pid)
    ensures var next := Apply(maxRetry, s, act);
      pid in next.procs && Late(next.procs[pid], a) && NoClosingBy(next.log, from, pid)
  {}

  lemma {:induction false} RunTidy(maxRetry: int, s: Sys, acts: seq<Action>)
    requires Tidy(s) && Roles(s)
    ensures Tidy(Run(maxRetry, s, acts)) && Roles(Run(maxRetry, s, acts))
    ensures forall a :: Settled(s, a) ==> Settled(Run(maxRetry, s, acts), a)
  {
    if acts != [] {
      hide Tidy, Roles, Settled, Apply;
      var mid := Run(maxRetry, s, acts[..|acts| - 1]);
      RunTidy(maxRetry, s, acts[..|acts| - 1]);
      ApplyTidy(maxRetry, mid, acts[|acts| - 1]);
      ApplyRoles(maxRetry, mid, acts[|acts| - 1]);
    }
  }

  lemma {:induction false} RunLate(maxRetry: int, s: Sys, acts: seq<Action>, pid: nat, a: Text)
    requires Tidy(s) && Roles(s) && Settled(s, a) && Get(s.kv, AttemptId).value != Some(Str(a))
    requires pid in s.procs && Late(s.procs[pid], a)
    ensures var end := Run(maxRetry, s, acts);
      && Tidy(end) && Roles(end) && Settled(end, a) && Get(end.kv, AttemptId).value != Some(Str(a))
      && pid in end.procs && Late(end.procs[pid], a) && NoClosingBy(end.log, |s.log|, pid)
  {
    if acts != [] {
      hide Tidy, Roles, Settled, Apply, Late, NoClosingBy, Get;
      var mid := Run(maxRetry, s, acts[..|acts| - 1]);
      RunLate(maxRetry, s, acts[..|acts| - 1], pid, a);
      ApplyTidy(maxRetry, mid, acts[|acts| - 1]);
      ApplyRoles(maxRetry, mid, acts[|acts| - 1]);
      ApplyLate(maxRetry, mid, acts[|acts| - 1], pid, a, |s.log|);
    }
  }

  /**
   Fencing: attempt a was current at some point and later is not; then a completion or failure of a
   whose attempt check has still to run writes nothing, closes nothing and can only answer that it is stale.
   */
  lemma StaleAttemptFenced(
    maxRetry: int, first: TaskState, past: seq<Action>, meanwhile: seq<Action>, later: seq<Action>, pid: nat, a: Text)
    requires a != []
    requires Get(Run(maxRetry, Published(first), past).kv, AttemptId).value == Some(Str(a))
    requires var s := Run(maxRetry, Run(maxRetry, Published(first), past), meanwhile);
      && Get(s.kv, AttemptId).value != Some(Str(a))
      && pid in s.procs && s.procs[pid].call.Close? && s.procs[pid].call.attempt == a && s.procs[pid].pc == CheckAttempt
    ensures var s := Run(maxRetry, Run(maxRetry, Published(first), past), meanwhile);
      var end := Run(maxRetry, s, later);
      && pid in end.procs && Late(end.procs[pid], a) && NoClosingBy(end.log, |s.log|, pid)
      && Step(end.procs[pid].call, end.procs[pid].pc, end.kv).1 == end.kv
  {
    assert Tidy(Published(first)) && Roles(Published(first));
    RunTidy(maxRetry, Published(first), past);
    var current := Run(maxRetry, Published(first), past);
    assert Settled(current, a);
    RunTidy(maxRetry, current, meanwhile);
    RunLate(maxRetry, Run(maxRetry, current, meanwhile), later, pid, a);
  }

  // ---- how often the watchdog gives a task back ----

  function Recoveries(log: seq<Event>, target: TaskState): nat {
    if log == [] then 0
    else
      var e := log[|log| - 1];
      Recoveries(log[..|log| - 1], target) + if e.Recovered? && e.target == target then 1 else 0
  }

  lemma RecoveriesSnoc(log: seq<Event>, news: seq<Event>, target: TaskState)
    requires |news| <= 1
    ensures Recoveries(log + news, target) == Recoveries(log, target)
      + if news != [] && news[0].Recovered? && news[0].target == target then 1 else 0
  {
    if news == [] { assert log + news == log; } else { assert (log + news)[..|log|] == log; }
  }

  /** The stored count, plus the one about to be stored, is the number of recoveries. */
  ghost predicate RetriesCounted(maxRetry: int, s: Sys) {
    var stored := IntOf(Get(s.kv, RetryCount).value);
    var all := Recoveries(s.log, Pending) + Recoveries(s.log, Failed);
    && (Recoveries(s.log, Pending) == 0 || Recoveries(s.log, Pending) < maxRetry)
    && match s.watch
       case WriteRecovered(_, retries) => all == stored && retries == stored + 1
       case Fence(retries) => all == retries
       case CountRetry(retries) => all == retries
       case _ => all == stored
  }

  lemma ApplyRetries(maxRetry: int, s: Sys, act: Action)
    requires RetriesCounted(maxRetry, s)
    ensures RetriesCounted(maxRetry, Apply(maxRetry, s, act))
  {
    hide Step, StepEvents, WatchStep, WatchEvents, OutsideEvents, Get, Do, Recoveries, Allowed;
    match act
    case Advance(pid) =>
      if pid in s.procs {
        var p := s.procs[pid];
        var after := Step(p.call, p.pc, s.kv).1;
        StepRetries(p, pid, s.kv);
        RetriesStay(maxRetry, s, after, StepEvents(pid, p.pc, s.kv, after), Apply(maxRetry, s, act));
      }
    case Patrol => PatrolRetries(maxRetry, s);
    case Outside(op) =>
      if Allowed(op) {
        var after := Do(s.kv, op);
        OutsideRetries(op, s.kv);
        RetriesStay(maxRetry, s, after, OutsideEvents(op, s.kv, after), Apply(maxRetry, s, act));
      }
    case _ =>
  }

  lemma StepRetries(p: Proc, pid: nat, kv: Store)
    ensures var after := Step(p.call, p.pc, kv).1;
      var news := StepEvents(pid, p.pc, kv, after);
      && |news| <= 1 && (news != [] ==> !news[0].Recovered?)
      && Get(after, RetryCount).value == Get(kv, RetryCount).value
  {}

  lemma OutsideRetries(op: Op<Key, Value>, kv: Store)
    requires Allowed(op)
    ensures var after := Do(kv, op);
      var news := OutsideEvents(op, kv, after);
      && |news| <= 1 && (news != [] ==> !news[0].Recovered?)
      && Get(after, RetryCount).value == Get(kv, RetryCount).value
  {}

  /** A step that recovers nothing leaves the counts as they are. */
  lemma RetriesStay(maxRetry: int, s: Sys, after: Store, news: seq<Event>, next: Sys)
    requires RetriesCounted(maxRetry, s) && |news| <= 1 && (news != [] ==> !news[0].Recovered?)
    requires Get(after, RetryCount).value == Get(s.kv, RetryCount).value
    requires next.kv == after && next.log == s.log + news && next.watch == s.watch
    ensures RetriesCounted(maxRetry, next)
  {
    hide Recoveries, Get;
    RecoveriesSnoc(s.log, news, Pending);
    RecoveriesSnoc(s.log, news, Failed);
  }

  lemma PatrolRetries(maxRetry: int, s: Sys)
    requires RetriesCounted(maxRetry, s)
    ensures RetriesCounted(maxRetry, Apply(maxRetry, s, Patrol))
  {
    var after := WatchStep(maxRetry, s.watch, s.kv).1;
    var news := WatchEvents(maxRetry, s.watch, s.kv, after);
    hide Recoveries;
    RecoveriesSnoc(s.log, news, Pending);
    RecoveriesSnoc(s.log, news, Failed);
  }

  /** In a task's whole life the watchdog hands it back as PENDING fewer than max_retry times. */
  lemma {:induction false} WatchdogRetryBound(maxRetry: int, first: TaskState, acts: seq<Action>)
    ensures RetriesCounted(maxRetry, Run(maxRetry, Published(first), acts))
    ensures var n := Recoveries(Run(maxRetry, Published(first), acts).log, Pending);
      n == 0 || n <= maxRetry - 1
  {
    if acts != [] {
      WatchdogRetryBound(maxRetry, first, acts[..|acts| - 1]);
      hide Apply;
      ApplyRetries(maxRetry, Run(maxRetry, Published(first), acts[..|acts| - 1]), acts[|acts| - 1]);
    }
  }

  // ---- what fencing does not give ----

  lemma {:induction false} RunAppend(maxRetry: int, s: Sys, acts: seq<Action>, more: seq<Action>)
    ensures Run(maxRetry, s, acts + more) == Run(maxRetry, Run(maxRetry, s, acts), more)
  {
    if more == [] {
      assert acts + more == acts;
    } else {
      RunAppend(maxRetry, s, acts, more[..|more| - 1]);
      assert (acts + more)[..|acts + more| - 1] == acts + more[..|more| - 1];
    }
  }

  /** A claim with nothing in its way: five steps from PENDING to a running attempt. */
  lemma ClaimAlone(maxRetry: int, s: Sys, pid: nat, a: Text)
    requires WellFormed(s.kv) && Get(s.kv, Status).value == Some(State(Pending))
    requires MaySpawn(s, pid, Claim(a, false, true))
    ensures var go := Advance(pid);
      var acts := [Spawn(pid, Claim(a, false, true)), go, go, go, go, go];
      var end := Run(maxRetry, s, acts);
      && Get(end.kv, Status).value == Some(State(InProgress))
      && Get(end.kv, AttemptId).value == Some(Str(a))
      && Get(end.kv, LeaseEpoch).value == Some(Num(IntOf(Get(s.kv, LeaseEpoch).value) + 1))
      && end.procs.Keys == s.procs.Keys + {pid} && (forall q :: q in s.procs ==> end.procs[q] == s.procs[q])
      && end.watch == s.watch && end.used == s.used + {a} && WellFormed(end.kv)
      && Get(end.kv, RetryCount).value == Get(s.kv, RetryCount).value
      && end.log == s.log + [Opened(pid, CurrentIndex(end.kv, Status))]
  {
    hide Run, Apply, MaySpawn;
    var c := Claim(a, false, true);
    var go := Advance(pid);
    RunSix(maxRetry, s, Spawn(pid, c), go, go, go, go, go);
    ClaimSteps(maxRetry, s, pid, a);
  }

  lemma RunSix(maxRetry: int, s: Sys, a1: Action, a2: Action, a3: Action, a4: Action, a5: Action, a6: Action)
    ensures Run(maxRetry, s, [a1, a2, a3, a4, a5, a6])
      == var s3 := Apply(maxRetry, Apply(maxRetry, Apply(maxRetry, s, a1), a2), a3);
        Apply(maxRetry, Apply(maxRetry, Apply(maxRetry, s3, a4), a5), a6)
  {
    hide Apply;
    var acts := [a1, a2, a3, a4, a5, a6];
    assert acts[..5] == [a1, a2, a3, a4, a5] && acts[..5][..4] == [a1, a2, a3, a4] && acts[..4][..3] == [a1, a2, a3];
    assert [a1, a2, a3, a4][..3] == [a1, a2, a3] && [a1, a2, a3][..2] == [a1, a2];
    assert [a1, a2][..1] == [a1] && [a1][..0] == [];
    assert Run(maxRetry, s, [a1]) == Apply(maxRetry, s, a1);
    assert Run(maxRetry, s, [a1, a2]) == Apply(maxRetry, Run(maxRetry, s, [a1]), a2);
    assert Run(maxRetry, s, [a1, a2, a3]) == Apply(maxRetry, Run(maxRetry, s, [a1, a2]), a3);
    assert Run(maxRetry, s, [a1, a2, a3, a4]) == Apply(maxRetry, Run(maxRetry, s, [a1, a2, a3]), a4);
    assert Run(maxRetry, s, acts[..5]) == Apply(maxRetry, Run(maxRetry, s, [a1, a2, a3, a4]), a5);
  }

  lemma ClaimSteps(maxRetry: int, s: Sys, pid: nat, a: Text)
    requires WellFormed(s.kv) && Get(s.kv, Status).value == Some(State(Pending))
    requires MaySpawn(s, pid, Claim(a, false, true))
    ensures var go := Advance(pid);
      var s2 := Apply(maxRetry, Apply(maxRetry, s, Spawn(pid, Claim(a, false, true))), go);
      var end := Apply(maxRetry, Apply(maxRetry, Apply(maxRetry, Apply(maxRetry, s2, go), go), go), go);
      && Get(end.kv, Status).value == Some(State(InProgress))
      && Get(end.kv, AttemptId).value == Some(Str(a))
      && Get(end.kv, LeaseEpoch).value == Some(Num(IntOf(Get(s.kv, LeaseEpoch).value) + 1))
      && end.procs.Keys == s.procs.Keys + {pid} && (forall q :: q in s.procs ==> end.procs[q] == s.procs[q])
      && end.watch == s.watch && end.used == s.used + {a} && WellFormed(end.kv)
      && Get(end.kv, RetryCount).value == Get(s.kv, RetryCount).value
      && end.log == s.log + [Opened(pid, CurrentIndex(end.kv, Status))]
  {
    var c := Claim(a, false, true);
    var s1 := Apply(maxRetry, s, Spawn(pid, c));
    var s2 := Apply(maxRetry, s1, Advance(pid));
    var s3 := Apply(maxRetry, s2, Advance(pid));
    var s4 := Apply(maxRetry, s3, Advance(pid));
    assert s2.procs[pid].pc.ReadLeaseEpoch? && s2.kv == s.kv;
    assert s3.procs[pid].pc.WriteClaim? && s3.kv == s.kv;
    assert s4.log == s.log + [Opened(pid, s4.kv.index)];
  }

  /** A recovery with nothing in its way: the running task is PENDING again and its attempt is cleared. */
  lemma RecoverAlone(maxRetry: int, s: Sys)
    requires WellFormed(s.kv) && Get(s.kv, Status).value == Some(State(InProgress)) && s.watch == Idle
    requires IntOf(Get(s.kv, RetryCount).value) + 1 < maxRetry
    ensures var end := Run(maxRetry, s, [StartRecovery([], true), Patrol, Patrol, Patrol, Patrol, Patrol, Patrol]);
      && WellFormed(end.kv) && Get(end.kv, Status).value == Some(State(Pending))
      && end.procs == s.procs && end.used == s.used && end.watch == Idle
  {
    var six := [StartRecovery([], true), Patrol, Patrol, Patrol, Patrol, Patrol];
    assert six + [Patrol] == [StartRecovery([], true), Patrol, Patrol, Patrol, Patrol, Patrol, Patrol];
    RunAppend(maxRetry, s, six, [Patrol]);
    assert [Patrol][..0] == [];
    assert Run(maxRetry, Run(maxRetry, s, six), [Patrol]) == Apply(maxRetry, Run(maxRetry, s, six), Patrol);
    hide Run, Apply;
    RunSix(maxRetry, s, StartRecovery([], true), Patrol, Patrol, Patrol, Patrol, Patrol);
    RecoverSteps(maxRetry, s);
  }

  lemma RecoverSteps(maxRetry: int, s: Sys)
    requires WellFormed(s.kv) && Get(s.kv, Status).value == Some(State(InProgress)) && s.watch == Idle
    requires IntOf(Get(s.kv, RetryCount).value) + 1 < maxRetry
    ensures var s3 := Apply(maxRetry, Apply(maxRetry, Apply(maxRetry, s, StartRecovery([], true)), Patrol), Patrol);
      var end := Apply(maxRetry, Apply(maxRetry, Apply(maxRetry, Apply(maxRetry, s3, Patrol), Patrol), Patrol), Patrol);
      && WellFormed(end.kv) && Get(end.kv, Status).value == Some(State(Pending))
      && end.procs == s.procs && end.used == s.used && end.watch == Idle
  {
    var s3 := Apply(maxRetry, Apply(maxRetry, Apply(maxRetry, s, StartRecovery([], true)), Patrol), Patrol);
    var s4 := Apply(maxRetry, s3, Patrol);
    var s5 := Apply(maxRetry, s4, Patrol);
    assert s4.watch.WriteRecovered? && s4.kv == s.kv;
    assert s5.watch.Fence? && Get(s5.kv, Status).value == Some(State(Pending));
  }

  /** The worker of a claim that ran alone passes its attempt check. */
  lemma CheckAlone(maxRetry: int, s: Sys, pid: nat, a: Text, epoch: int)
    requires Get(s.kv, AttemptId).value == Some(Str(a)) && Get(s.kv, LeaseEpoch).value == Some(Num(epoch))
    requires pid !in s.procs && a != []
    ensures var c := Close(Complete, a, epoch);
      Run(maxRetry, s, [Spawn(pid, c), Advance(pid), Advance(pid)]) == s.(procs := s.procs[pid := Proc(c, ReadRunning)])
  {
    var c := Close(Complete, a, epoch);
    var acts := [Spawn(pid, c), Advance(pid), Advance(pid)];
    var s1 := Apply(maxRetry, s, Spawn(pid, c));
    var s2 := Apply(maxRetry, s1, Advance(pid));
    var s3 := Apply(maxRetry, s2, Advance(pid));
    assert acts[..2][..1] == acts[..1] && acts[..1][..0] == [];
    assert Run(maxRetry, s, acts[..1]) == s1;
    assert Run(maxRetry, s, acts[..2]) == s2;
    assert s3.procs == s.procs[pid := Proc(c, ReadRunning)];
    assert s3.log == s.log;
  }

  lemma CloseAlone(maxRetry: int, s: Sys, pid: nat, a: Text, epoch: int)
    requires WellFormed(s.kv) && Get(s.kv, Status).value == Some(State(InProgress))
    requires pid in s.procs && s.procs[pid] == Proc(Close(Complete, a, epoch), ReadRunning)
    ensures Run(maxRetry, s, [Advance(pid), Advance(pid)]).log == s.log + [ClosedBy(pid, CurrentIndex(s.kv, Status))]
  {
    var acts := [Advance(pid), Advance(pid)];
    var s1 := Apply(maxRetry, s, Advance(pid));
    assert acts[..1][..0] == [];
    assert Run(maxRetry, s, acts[..1]) == s1;
  }

  /**
   The attempt check and the status read are two steps, so a worker fenced between them can still close the
   interval of the next attempt: here attempt a completes what attempt b started.
   */
  lemma StaleWorkerClosesNextInterval(a: Text, b: Text) returns (acts: seq<Action>, interval: nat)
    requires a != [] && b != [] && a != b
    ensures var end := Run(3, Published(Pending), acts);
      Opened(3, interval) in end.log && ClosedBy(2, interval) in end.log
    ensures Spawn(2, Close(Complete, a, 1)) in acts && Spawn(3, Claim(b, false, true)) in acts
  {
    hide Run, Apply, Step, WatchStep;
    var s0 := Published(Pending);
    var p1 := [Spawn(1, Claim(a, false, true)), Advance(1), Advance(1), Advance(1), Advance(1), Advance(1)];
    var p2 := [Spawn(2, Close(Complete, a, 1)), Advance(2), Advance(2)];
    var p3 := [StartRecovery([], true), Patrol, Patrol, Patrol, Patrol, Patrol, Patrol];
    var p4 := [Spawn(3, Claim(b, false, true)), Advance(3), Advance(3), Advance(3), Advance(3), Advance(3)];
    var p5 := [Advance(2), Advance(2)];
    acts := p1 + p2 + p3 + p4 + p5;
    assert acts[6] == p2[0] && acts[16] == p4[0];
    ClaimAlone(3, s0, 1, a);
    RunAppend(3, s0, p1, p2);
    RunAppend(3, s0, p1 + p2, p3);
    RunAppend(3, s0, p1 + p2 + p3, p4);
    RunAppend(3, s0, p1 + p2 + p3 + p4, p5);
    interval := StaleTail(Run(3, s0, p1), a, b, p2, p3, p4, p5);
  }

  lemma StaleTail(
    s1: Sys, a: Text, b: Text, p2: seq<Action>, p3: seq<Action>, p4: seq<Action>, p5: seq<Action>)
    returns (interval: nat)
    requires WellFormed(s1.kv) && Get(s1.kv, Status).value == Some(State(InProgress))
    requires Get(s1.kv, AttemptId).value == Some(Str(a)) && Get(s1.kv, LeaseEpoch).value == Some(Num(1))
    requires Get(s1.kv, RetryCount).value.None? && s1.watch == Idle
    requires s1.procs.Keys == {1} && s1.used == {a} && a != [] && b != [] && a != b
    requires p2 == [Spawn(2, Close(Complete, a, 1)), Advance(2), Advance(2)]
    requires p3 == [StartRecovery([], true), Patrol, Patrol, Patrol, Patrol, Patrol, Patrol]
    requires p4 == [Spawn(3, Claim(b, false, true)), Advance(3), Advance(3), Advance(3), Advance(3), Advance(3)]
    requires p5 == [Advance(2), Advance(2)]
    ensures var end := Run(3, Run(3, Run(3, Run(3, s1, p2), p3), p4), p5);
      Opened(3, interval) in end.log && ClosedBy(2, interval) in end.log
  {
    hide Run, Apply;
    CheckAlone(3, s1, 2, a, 1);
    var s2 := Run(3, s1, p2);
    RecoverAlone(3, s2);
    var s3 := Run(3, s2, p3);
    ClaimAlone(3, s3, 3, b);
    var s4 := Run(3, s3, p4);
    assert s4.procs[2] == s3.procs[2];
    CloseAlone(3, s4, 2, a, 1);
    interval := CurrentIndex(s4.kv, Status);
    var end := Run(3, s4, p5);
    assert s4.log[|s4.log| - 1] == Opened(3, interval);
    assert end.log[|s4.log| - 1] == s4.log[|s4.log| - 1] && end.log[|s4.log|] == ClosedBy(2, interval);
  }

  // ---- an answered question ----

  /** Opening a question puts the task aside, answering it puts back the status it had. */
  function Question(previous: TaskState): seq<Action> {
    [Outside(PutOp(Status, State(WaitingForHuman), None)), Outside(PutOp(Status, State(previous), None))]
  }

  lemma QuestionAlone(maxRetry: int, s: Sys)
    requires WellFormed(s.kv) && Get(s.kv, Status).value == Some(State(InProgress))
    ensures var end := Run(maxRetry, s, Question(InProgress));
      && WellFormed(end.kv) && Get(end.kv, Status).value == Some(State(InProgress))
      && CurrentIndex(end.kv, Status) > CurrentIndex(s.kv, Status)
      && Get(end.kv, AttemptId).value == Get(s.kv, AttemptId).value
      && Get(end.kv, LeaseEpoch).value == Get(s.kv, LeaseEpoch).value
      && end.procs == s.procs && end.log == s.log + [Resumed(CurrentIndex(end.kv, Status))]
  {
    var acts := Question(InProgress);
    var s1 := Apply(maxRetry, s, acts[0]);
    assert acts[..1] == [acts[0]] && acts[..1][..0] == [];
    assert Run(maxRetry, s, acts[..1]) == s1;
    assert s1.log == s.log;
  }

  /**
   An answered question begins a new interval for the attempt that was already running: attempt a closes that one, and
   its own claim's interval is never closed, though nobody else claimed the task.
   */
  lemma AnsweredQuestionReopens(a: Text) returns (acts: seq<Action>, own: nat, resumed: nat)
    requires a != []
    ensures own < resumed
    ensures Run(3, Published(Pending), acts).log == [Opened(1, own), Resumed(resumed), ClosedBy(2, resumed)]
    ensures Spawn(2, Close(Complete, a, 1)) in acts
  {
    hide Run, Apply, Step, WatchStep;
    var s0 := Published(Pending);
    var p1 := [Spawn(1, Claim(a, false, true)), Advance(1), Advance(1), Advance(1), Advance(1), Advance(1)];
    var p2 := Question(InProgress);
    var p3 := [Spawn(2, Close(Complete, a, 1)), Advance(2), Advance(2)];
    var p4 := [Advance(2), Advance(2)];
    acts := p1 + p2 + p3 + p4;
    assert acts[8] == p3[0];
    ClaimAlone(3, s0, 1, a);
    RunAppend(3, s0, p1, p2);
    RunAppend(3, s0, p1 + p2, p3);
    RunAppend(3, s0, p1 + p2 + p3, p4);
    var s1 := Run(3, s0, p1);
    own := CurrentIndex(s1.kv, Status);
    QuestionAlone(3, s1);
    var s2 := Run(3, s1, p2);
    resumed := CurrentIndex(s2.kv, Status);
    CheckAlone(3, s2, 2, a, 1);
    var s3 := Run(3, s2, p3);
    CloseAlone(3, s3, 2, a, 1);
  }
}
