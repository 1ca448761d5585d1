/** Whose interval a closing call closes: always the one opened last, which need not be the one of its own attempt. */
module TaskOwnership {
  import opened Texts
  import opened KvStore
  import opened TaskClaims
  import Claims = TaskClaims

  /** The interval opened last. */
  function LastOpened(log: seq<Event>): Option<nat> {
    if log == [] then None
    else if Opening(log[|log| - 1]) then Some(log[|log| - 1].interval)
    else LastOpened(log[..|log| - 1])
  }

  /** The event is a claim of attempt a opening an interval. */
  ghost predicate OpensFor(s: Sys, e: Event, a: Text) {
    e.Opened? && e.pid in s.procs && s.procs[e.pid].call.Claim? && s.procs[e.pid].call.attempt == a
  }

  ghost predicate OpenedFor(s: Sys, a: Text, upTo: nat) {
    exists i :: 0 <= i < upTo && i < |s.log| && OpensFor(s, s.log[i], a)
  }

  /** A closing call that has found its attempt in the store. */
  predicate Checked(p: Proc) {
    match p.pc
    case CheckEpoch(current) => current == Some(Str(p.call.attempt))
    case ReadRunning => true
    case WriteClosed(_) => true
    case _ => false
  }

  ghost predicate ProcOwned(s: Sys, p: Proc) {
    && p.call.attempt != []
    && (p.pc.PutAttempt? || (p.call.Close? && Checked(p)) ==> OpenedFor(s, p.call.attempt, |s.log|))
  }

  /** The j-th event closes the interval opened last, for an attempt whose claim opened one before. */
  ghost predicate CloseOwned(s: Sys, j: nat)
    requires j < |s.log| && s.log[j].ClosedBy?
  {
    && s.log[j].pid in s.procs && s.procs[s.log[j].pid].call.Close?
    && OpenedFor(s, s.procs[s.log[j].pid].call.attempt, j)
    && LastOpened(s.log[..j]) == Some(s.log[j].interval)
  }

  ghost predicate StatusOwned(kv: Store, log: seq<Event>) {
    Get(kv, Status).value == Some(State(InProgress)) ==> LastOpened(log) == Some(CurrentIndex(kv, Status))
  }

  ghost predicate AttemptOwned(s: Sys) {
    forall a :: a != [] && Get(s.kv, AttemptId).value == Some(Str(a)) ==> OpenedFor(s, a, |s.log|)
  }

  ghost predicate Owned(s: Sys) {
    && StatusOwned(s.kv, s.log) && AttemptOwned(s)
    && (forall pid :: pid in s.procs ==> ProcOwned(s, s.procs[pid]))
    && (forall j :: 0 <= j < |s.log| && s.log[j].ClosedBy? ==> CloseOwned(s, j))
  }

  // ---- what a step keeps ----

  ghost predicate Extends(s: Sys, next: Sys) {
    && (forall pid :: pid in s.procs ==> pid in next.procs && next.procs[pid].call == s.procs[pid].call)
    && |s.log| <= |next.log| && next.log[..|s.log|] == s.log
  }

  lemma StillOpenedFor(s: Sys, next: Sys, a: Text, upTo: nat)
    requires Extends(s, next) && OpenedFor(s, a, upTo) && upTo <= |s.log|
    ensures OpenedFor(next, a, upTo)
  {
    var i :| 0 <= i < upTo && i < |s.log| && OpensFor(s, s.log[i], a);
    assert next.log[..|s.log|][i] == s.log[i];
    assert OpensFor(next, next.log[i], a);
  }

  lemma StillCloseOwned(s: Sys, next: Sys, j: nat)
    requires Extends(s, next) && j < |s.log| && s.log[j].ClosedBy? && CloseOwned(s, j)
    ensures next.log[j] == s.log[j] && CloseOwned(next, j)
  {
    assert next.log[j] == next.log[..|s.log|][j];
    assert next.log[..j] == next.log[..|s.log|][..j] == s.log[..j];
    StillOpenedFor(s, next, s.procs[s.log[j].pid].call.attempt, j);
  }

  lemma OpenedForLonger(s: Sys, a: Text, upTo: nat, longer: nat)
    requires OpenedFor(s, a, upTo) && upTo <= longer
    ensures OpenedFor(s, a, longer)
  {}

  /** A step that logs nothing, gives no process a new duty and does not touch what status and attempt say. */
  lemma NothingLogged(s: Sys, next: Sys)
    requires Owned(s) && next.log == s.log && Extends(s, next)
    requires StatusQuiet(s.kv, next.kv)
    requires forall a :: a != [] && Get(next.kv, AttemptId).value == Some(Str(a)) ==>
      Get(s.kv, AttemptId).value == Some(Str(a)) || OpenedFor(s, a, |s.log|)
    requires forall pid :: pid in next.procs ==> pid in s.procs || ProcOwned(next, next.procs[pid])
    requires forall pid :: pid in s.procs ==> ProcOwned(s, next.procs[pid])
    ensures Owned(next)
  {
    forall pid | pid in s.procs ensures ProcOwned(next, next.procs[pid]) {
      var p := next.procs[pid];
      if OpenedFor(s, p.call.attempt, |s.log|) { StillOpenedFor(s, next, p.call.attempt, |s.log|); }
    }
    forall a | a != [] && Get(next.kv, AttemptId).value == Some(Str(a)) ensures OpenedFor(next, a, |next.log|) {
      StillOpenedFor(s, next, a, |s.log|);
    }
    forall j | 0 <= j < |s.log| && s.log[j].ClosedBy? ensures CloseOwned(next, j) { StillCloseOwned(s, next, j); }
    hide ProcOwned, CloseOwned, OpenedFor;
  }

  /** A step that logs an event: what then has to hold of the new state, and nothing else. */
  lemma OneLogged(s: Sys, next: Sys, e: Event)
    requires Owned(s) && next.log == s.log + [e] && Extends(s, next)
    requires StatusOwned(next.kv, next.log)
    requires Get(next.kv, AttemptId).value == Get(s.kv, AttemptId).value
    requires next.procs.Keys == s.procs.Keys
    requires forall pid :: pid in s.procs ==> ProcOwned(s, next.procs[pid]) || ProcOwned(next, next.procs[pid])
    requires e.ClosedBy? ==> CloseOwned(next, |s.log|)
    ensures Owned(next)
  {
    forall pid | pid in s.procs ensures ProcOwned(next, next.procs[pid]) {
      var p := next.procs[pid];
      if OpenedFor(s, p.call.attempt, |s.log|) {
        StillOpenedFor(s, next, p.call.attempt, |s.log|);
        OpenedForLonger(next, p.call.attempt, |s.log|, |next.log|);
      }
    }
    forall a | a != [] && Get(next.kv, AttemptId).value == Some(Str(a)) ensures OpenedFor(next, a, |next.log|) {
      StillOpenedFor(s, next, a, |s.log|);
      OpenedForLonger(next, a, |s.log|, |next.log|);
    }
    forall j | 0 <= j < |s.log| && s.log[j].ClosedBy? ensures next.log[j] == s.log[j] && CloseOwned(next, j) {
      StillCloseOwned(s, next, j);
    }
    forall j | 0 <= j < |next.log| && next.log[j].ClosedBy? ensures CloseOwned(next, j) {
      if j < |s.log| { assert next.log[j] == s.log[j]; }
    }
    hide ProcOwned, CloseOwned, OpenedFor, StatusOwned;
  }

  lemma ClaimOpens(s: Sys, pid: nat, next: Sys)
    requires Owned(s) && Roles(s) && pid in s.procs && s.procs[pid].pc.WriteClaim?
    requires var p := s.procs[pid];
      var (pc, kv) := Step(p.call, p.pc, s.kv);
      && kv != s.kv
      && next == s.(kv := kv, procs := s.procs[pid := Proc(p.call, pc)], log := s.log + [Opened(pid, kv.index)])
    ensures Owned(next)
  {
    hide Owned, Roles, ProcOwned, LastOpened;
    var p := s.procs[pid];
    assert ProcOwned(s, p) && p.call.Claim? by { OwnedProc(s, pid); }
    assert next.log[..|s.log|] == s.log;
    assert OpensFor(next, next.log[|s.log|], p.call.attempt);
    assert OpenedFor(next, p.call.attempt, |next.log|);
    assert LastOpened(next.log) == Some(next.kv.index) by { LastOfLonger(s.log, Opened(pid, next.kv.index)); }
    forall q | q in s.procs ensures ProcOwned(s, next.procs[q]) || ProcOwned(next, next.procs[q]) {
      OwnedProc(s, q);
      if q == pid { OpenedOwned(next, next.procs[pid]); }
    }
    OneLogged(s, next, Opened(pid, next.kv.index));
  }

  lemma OpenedOwned(s: Sys, p: Proc)
    requires p.call.attempt != [] && OpenedFor(s, p.call.attempt, |s.log|)
    ensures ProcOwned(s, p)
  {}

  lemma OwnedProc(s: Sys, pid: nat)
    requires Owned(s) && Roles(s) && pid in s.procs
    ensures ProcOwned(s, s.procs[pid])
    ensures s.procs[pid].pc.WriteClaim? ==> s.procs[pid].call.Claim?
    ensures s.procs[pid].call.Close? ==> s.procs[pid].pc.Returned? || !ClaimPc(s.procs[pid].pc)
  {}

  lemma LastOfLonger(log: seq<Event>, e: Event)
    ensures LastOpened(log + [e]) == if Opening(e) then Some(e.interval) else LastOpened(log)
  {
    assert (log + [e])[..|log|] == log;
  }

  lemma CloseCloses(s: Sys, pid: nat, next: Sys)
    requires Owned(s) && Roles(s) && Inv(s) && pid in s.procs && s.procs[pid].pc.WriteClosed?
    requires var p := s.procs[pid];
      var (pc, kv) := Step(p.call, p.pc, s.kv);
      && kv != s.kv
      && next == s.(kv := kv, procs := s.procs[pid := Proc(p.call, pc)], log := s.log + [ClosedBy(pid, p.pc.index)])
    ensures Owned(next)
  {
    hide Owned, Roles, LastOpened, LogOk, IntervalOk, WatchOk, OpenedFor;
    var p := s.procs[pid];
    OwnedProc(s, pid);
    assert ProcOk(s.kv, p);
    RememberNow(s.kv, Status);
    assert Get(s.kv, Status).value == Some(State(InProgress)) && CurrentIndex(s.kv, Status) == p.pc.index;
    assert LastOpened(s.log) == Some(p.pc.index) by { OwnedStatus(s); }
    var e := ClosedBy(pid, p.pc.index);
    assert next.log[..|s.log|] == s.log && next.log[|s.log|] == e;
    StillOpenedFor(s, next, p.call.attempt, |s.log|);
    forall q | q in s.procs ensures ProcOwned(s, next.procs[q]) { OwnedProc(s, q); }
    OneLogged(s, next, e);
  }

  lemma OwnedStatus(s: Sys)
    requires Owned(s)
    ensures StatusOwned(s.kv, s.log)
  {}

  lemma AdvanceOwned(s: Sys, pid: nat, next: Sys)
    requires Owned(s) && Roles(s) && Inv(s) && pid in s.procs
    requires var p := s.procs[pid];
      var (pc, kv) := Step(p.call, p.pc, s.kv);
      next == s.(kv := kv, procs := s.procs[pid := Proc(p.call, pc)], log := s.log + StepEvents(pid, p.pc, s.kv, kv))
    ensures Owned(next)
  {
    hide Owned, Roles, Inv, ProcOwned, OpenedFor, ClaimPc;
    var p := s.procs[pid];
    OwnedProc(s, pid);
    if p.pc.WriteClaim? && next.kv != s.kv {
      ClaimOpens(s, pid, next);
    } else if p.pc.WriteClosed? && next.kv != s.kv {
      CloseCloses(s, pid, next);
    } else {
      assert next.log == s.log;
      forall q | q in s.procs ensures ProcOwned(s, next.procs[q]) {
        OwnedProc(s, q);
        if q == pid { QuietStepOwned(s, p); }
      }
      forall a | a != [] && Get(next.kv, AttemptId).value == Some(Str(a))
        ensures Get(s.kv, AttemptId).value == Some(Str(a)) || OpenedFor(s, a, |s.log|)
      {
        if p.pc.PutAttempt? { WritingOpened(s, p); }
      }
      hide Step;
      NothingLogged(s, next);
    }
  }

  lemma WritingOpened(s: Sys, p: Proc)
    requires ProcOwned(s, p) && p.pc.PutAttempt?
    ensures OpenedFor(s, p.call.attempt, |s.log|)
  {}

  /** A step that logs nothing leaves a process with the duties it had, or has read its attempt from the store. */
  lemma QuietStepOwned(s: Sys, p: Proc)
    requires Owned(s) && ProcOwned(s, p) && (p.call.Close? ==> p.pc.Returned? || !ClaimPc(p.pc))
    requires p.pc.WriteClaim? ==> Step(p.call, p.pc, s.kv).1 == s.kv
    ensures ProcOwned(s, Proc(p.call, Step(p.call, p.pc, s.kv).0))
  {
    hide OpenedFor;
    assert AttemptOwned(s);
    if p.pc.WriteClaim? { RefusedClaim(p, s.kv); }
  }

  lemma RefusedClaim(p: Proc, kv: Store)
    requires p.pc.WriteClaim? && Step(p.call, p.pc, kv).1 == kv
    ensures Step(p.call, p.pc, kv).0 == Returned(LostRace)
  {}

  lemma PatrolOwned(maxRetry: int, s: Sys, next: Sys)
    requires Owned(s) && Roles(s)
    requires var (w, kv) := WatchStep(maxRetry, s.watch, s.kv);
      next == s.(kv := kv, watch := w, log := s.log + WatchEvents(maxRetry, s.watch, s.kv, kv))
    ensures Owned(next)
  {
    hide Owned, Roles, ProcOwned, OpenedFor;
    WatchAttempt(maxRetry, s.watch, s.kv);
    forall q | q in s.procs ensures ProcOwned(s, next.procs[q]) { OwnedProc(s, q); }
    if s.watch.WriteRecovered? && next.kv != s.kv {
      var e := Recovered(Target(maxRetry, s.watch.retries), s.watch.index);
      assert next.log == s.log + [e] && next.log[..|s.log|] == s.log;
      OneLogged(s, next, e);
    } else {
      assert next.log == s.log;
      NothingLogged(s, next);
    }
  }

  lemma ApplyOwned(maxRetry: int, s: Sys, act: Action)
    requires Owned(s) && Roles(s) && Inv(s)
    ensures Owned(Apply(maxRetry, s, act))
  {
    hide Owned, Roles, Inv, ProcOwned, OpenedFor, Step, WatchStep, StepEvents, WatchEvents, OutsideEvents;
    var next := Apply(maxRetry, s, act);
    forall q | q in s.procs ensures ProcOwned(s, s.procs[q]) { OwnedProc(s, q); }
    match act
    case Advance(pid) => if pid in s.procs { AdvanceOwned(s, pid, next); }
    case Patrol => PatrolOwned(maxRetry, s, next);
    case Spawn(pid, call) =>
      if MaySpawn(s, pid, call) { FreshOwned(next, call); }
      NothingLogged(s, next);
    case StartRecovery(_, _) => NothingLogged(s, next);
    case Outside(op) => if Allowed(op) { OutsideOwned(op, s, next); }
  }

  lemma OutsideOwned(op: Op<Key, Value>, s: Sys, next: Sys)
    requires Owned(s) && Roles(s) && Allowed(op)
    requires next == s.(kv := Do(s.kv, op), log := s.log + OutsideEvents(op, s.kv, Do(s.kv, op)))
    ensures Owned(next)
  {
    hide Owned, Roles, ProcOwned, OpenedFor, LastOpened;
    OutsideAttempt(op, s.kv);
    forall q | q in s.procs ensures ProcOwned(s, next.procs[q]) { OwnedProc(s, q); }
    if OutsideEvents(op, s.kv, next.kv) != [] {
      var e := Resumed(next.kv.index);
      assert next.log == s.log + [e] && next.log[..|s.log|] == s.log;
      assert LastOpened(next.log) == Some(next.kv.index) by { LastOfLonger(s.log, e); }
      OneLogged(s, next, e);
    } else {
      assert next.log == s.log;
      NothingLogged(s, next);
    }
  }

  lemma FreshOwned(s: Sys, call: Call)
    requires call.attempt != []
    ensures ProcOwned(s, Proc(call, Start(call)))
  {}

  lemma {:induction false} RunOwned(maxRetry: int, first: TaskState, acts: seq<Action>)
    requires first != InProgress
    ensures var s := Claims.Run(maxRetry, Published(first), acts);
      Owned(s) && Roles(s) && Inv(s)
  {
    if acts == [] {
      assert Inv(Published(first));
    } else {
      hide Owned, Roles, Inv, Apply;
      var front := acts[..|acts| - 1];
      RunOwned(maxRetry, first, front);
      ApplyOwned(maxRetry, Claims.Run(maxRetry, Published(first), front), acts[|acts| - 1]);
      ApplyRoles(maxRetry, Claims.Run(maxRetry, Published(first), front), acts[|acts| - 1]);
      ApplyInv(maxRetry, Claims.Run(maxRetry, Published(first), front), acts[|acts| - 1]);
    }
  }

  // ---- whose interval is closed ----

  ghost predicate NoneOpenedBetween(log: seq<Event>, i: nat, j: nat) {
    forall k :: i < k < j && k < |log| ==> !Opening(log[k])
  }

  lemma {:induction false} LastOpenedAt(log: seq<Event>, i: nat)
    requires LogOk(log) && i < |log| && Opening(log[i])
    ensures LastOpened(log) == Some(log[i].interval) <==> NoneOpenedBetween(log, i, |log|)
  {
    var front := log[..|log| - 1];
    if i < |front| {
      assert forall k :: 0 <= k < |front| ==> front[k] == log[k];
      if Opening(log[|log| - 1]) {
        assert log[i].interval != log[|log| - 1].interval;
      } else {
        LogOkFront(log);
        LastOpenedAt(front, i);
      }
    }
  }

  lemma LogOkFront(log: seq<Event>)
    requires LogOk(log) && log != []
    ensures LogOk(log[..|log| - 1])
  {
    var front := log[..|log| - 1];
    forall i | 0 <= i < |front| && !Opening(front[i]) ensures OpenedIn(front, front[i].interval, i) {
      assert OpenedIn(log, log[i].interval, i);
      var k :| 0 <= k < i && k < |log| && Opening(log[k]) && log[k].interval == log[i].interval;
      assert front[k] == log[k];
    }
  }

  lemma {:induction false} LogOkPrefix(log: seq<Event>, n: nat)
    requires LogOk(log) && n <= |log|
    ensures LogOk(log[..n])
    decreases |log|
  {
    if n == |log| {
      assert log[..n] == log;
    } else {
      LogOkFront(log);
      LogOkPrefix(log[..|log| - 1], n);
      assert log[..|log| - 1][..n] == log[..n];
    }
  }

  /**
   A closing call is made for an attempt whose own claim has opened an interval before. It closes the interval opened
   last, so its claim's own one exactly when no other claim and no answered question began one in between.
   */
  lemma ClosesOwnIntervalExactly(maxRetry: int, first: TaskState, acts: seq<Action>, j: nat)
    requires first != InProgress
    requires j < |Claims.Run(maxRetry, Published(first), acts).log|
    requires Claims.Run(maxRetry, Published(first), acts).log[j].ClosedBy?
    ensures var s := Claims.Run(maxRetry, Published(first), acts);
      var pid := s.log[j].pid;
      && pid in s.procs && s.procs[pid].call.Close?
      && OpenedFor(s, s.procs[pid].call.attempt, j)
      && LastOpened(s.log[..j]) == Some(s.log[j].interval)
      && forall i :: 0 <= i < j && OpensFor(s, s.log[i], s.procs[pid].call.attempt) ==>
        (s.log[j].interval == s.log[i].interval <==> NoneOpenedBetween(s.log, i, j))
  {
    hide Claims.Run;
    RunOwned(maxRetry, first, acts);
    var s := Claims.Run(maxRetry, Published(first), acts);
    assert CloseOwned(s, j);
    LogOkPrefix(s.log, j);
    hide Owned, Inv, Roles, LogOk, LastOpened;
    forall i | 0 <= i < j && Opening(s.log[i])
      ensures s.log[j].interval == s.log[i].interval <==> NoneOpenedBetween(s.log, i, j)
    {
      assert s.log[..j][i] == s.log[i];
      LastOpenedAt(s.log[..j], i);
      BetweenPrefix(s.log, i, j);
    }
  }

  lemma BetweenPrefix(log: seq<Event>, i: nat, j: nat)
    requires j <= |log|
    ensures NoneOpenedBetween(log[..j], i, j) <==> NoneOpenedBetween(log, i, j)
  {
    assert forall k :: 0 <= k < j ==> log[..j][k] == log[k];
  }

  // ---- what an answer says ----

  ghost predicate OpenedLogged(log: seq<Event>, pid: nat) {
    exists i :: 0 <= i < |log| && log[i].Opened? && log[i].pid == pid
  }

  ghost predicate ClosedLogged(log: seq<Event>, pid: nat) {
    exists i :: 0 <= i < |log| && log[i].ClosedBy? && log[i].pid == pid
  }

  /** A claim has its write behind it exactly if its opening is logged, and a closing exactly if its closing is. */
  ghost predicate AnswerLogged(log: seq<Event>, pid: nat, p: Proc) {
    && (OpenedLogged(log, pid) <==> p.pc.PutAttempt? || p.pc.PutEpoch? || (p.pc.Returned? && p.pc.outcome.Claimed?))
    && (ClosedLogged(log, pid) <==> p.pc.ClearAttempt? || p.pc == Returned(Closed))
  }

  ghost predicate AnswersLogged(s: Sys) {
    && (forall pid :: pid in s.procs ==> AnswerLogged(s.log, pid, s.procs[pid]))
    && (forall pid :: pid !in s.procs ==> !OpenedLogged(s.log, pid) && !ClosedLogged(s.log, pid))
  }

  lemma LoggedMore(log: seq<Event>, news: seq<Event>, pid: nat)
    requires |news| <= 1
    ensures OpenedLogged(log + news, pid) <==>
      OpenedLogged(log, pid) || (news != [] && news[0].Opened? && news[0].pid == pid)
    ensures ClosedLogged(log + news, pid) <==>
      ClosedLogged(log, pid) || (news != [] && news[0].ClosedBy? && news[0].pid == pid)
  {
    var longer := log + news;
    assert forall i :: 0 <= i < |log| ==> longer[i] == log[i];
    if news != [] { assert longer[|log|] == news[0]; }
  }

  lemma StepAnswer(kv: Store, pid: nat, p: Proc)
    requires p.call.Close? ==> p.pc.Returned? || !ClaimPc(p.pc)
    requires p.call.Claim? ==> ClaimPc(p.pc)
    ensures var (pc, after) := Step(p.call, p.pc, kv);
      var news := StepEvents(pid, p.pc, kv, after);
      && |news| <= 1 && (p.pc.Returned? ==> pc == p.pc && news == [])
      && (news != [] && news[0].Opened? <==> p.pc.WriteClaim? && pc.PutAttempt?)
      && (news != [] && news[0].ClosedBy? <==> p.pc.WriteClosed? && (pc.ClearAttempt? || pc == Returned(Closed)))
      && (news != [] ==> !news[0].Resumed? && !news[0].Recovered? && news[0].pid == pid)
      && (p.pc.WriteClaim? ==> pc.PutAttempt? || pc == Returned(LostRace))
      && (p.pc.WriteClosed? ==> pc.ClearAttempt? || pc == Returned(Closed) || pc == Returned(LostRace))
      && (p.pc.PutAttempt? ==> pc.PutEpoch?)
      && (p.pc.PutEpoch? ==> pc.Returned? && pc.outcome.Claimed?)
      && (p.pc.ClearAttempt? ==> pc == Returned(Closed))
      && (pc.PutAttempt? ==> p.pc.WriteClaim?) && (pc.PutEpoch? ==> p.pc.PutAttempt?)
      && (pc.ClearAttempt? ==> p.pc.WriteClosed?)
      && (pc.Returned? && pc.outcome.Claimed? ==> p.pc.PutEpoch? || p.pc == pc)
      && (pc == Returned(Closed) ==> p.pc.WriteClosed? || p.pc.ClearAttempt? || p.pc == pc)
  {}

  lemma ApplyAnswers(maxRetry: int, s: Sys, act: Action)
    requires AnswersLogged(s) && Roles(s) && Tidy(s)
    ensures AnswersLogged(Apply(maxRetry, s, act))
  {
    hide Step, StepEvents, WatchStep, Do, OpenedLogged, ClosedLogged, Settled;
    var next := Apply(maxRetry, s, act);
    match act
    case Advance(pid) =>
      if pid in s.procs {
        var p := s.procs[pid];
        assert ProcTidy(s, p);
        StepAnswer(s.kv, pid, p);
        forall q
          ensures OpenedLogged(next.log, q) <==>
            OpenedLogged(s.log, q) || (q == pid && p.pc.WriteClaim? && next.procs[pid].pc.PutAttempt?)
          ensures ClosedLogged(next.log, q) <==>
            ClosedLogged(s.log, q) || (q == pid && p.pc.WriteClosed? && next.procs[pid].pc != Returned(LostRace))
        {
          LoggedMore(s.log, StepEvents(pid, p.pc, s.kv, next.kv), q);
        }
      }
    case Patrol => forall q { LoggedMore(s.log, WatchEvents(maxRetry, s.watch, s.kv, next.kv), q); }
    case Outside(op) => if Allowed(op) { forall q { LoggedMore(s.log, OutsideEvents(op, s.kv, next.kv), q); } }
    case Spawn(_, call) =>
    case StartRecovery(_, _) =>
  }

  /**
   In every interleaving an answer tells what happened: Claimed after one's own opening, Closed after one's own closing.
   */
  lemma {:induction false} AnswersTellLog(maxRetry: int, first: TaskState, acts: seq<Action>)
    ensures var s := Claims.Run(maxRetry, Published(first), acts);
      AnswersLogged(s) && Roles(s) && Tidy(s)
  {
    if acts != [] {
      hide AnswersLogged, Roles, Tidy, Apply;
      var front := acts[..|acts| - 1];
      AnswersTellLog(maxRetry, first, front);
      ApplyAnswers(maxRetry, Claims.Run(maxRetry, Published(first), front), acts[|acts| - 1]);
      ApplyRoles(maxRetry, Claims.Run(maxRetry, Published(first), front), acts[|acts| - 1]);
      ApplyTidy(maxRetry, Claims.Run(maxRetry, Published(first), front), acts[|acts| - 1]);
    }
  }
}
