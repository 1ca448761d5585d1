/**
 The routing budget of adaptive_control: route submissions take a compare-and-swap lock, consume the budget, apply their
 route and release the lock, interleaved store call by store call; any of them may raise or die on the way.
 */
module RoutingBudget {
  import opened Texts
  import opened KvStore

  /** The three limits. */
  datatype Policy = Policy(maxTotalRoutes: nat, maxSameEdgeRoutes: nat, maxSameFailureFingerprint: nat)

  const DEFAULT_POLICY := Policy(8, 2, 2)

  datatype Counts = Counts(total: nat, edges: map<Text, nat>, fingerprints: map<Text, nat>)

  const ZERO := Counts(0, map[], map[])

  datatype Key = LockKey | BudgetKey | RouteKey(route: nat) | StatusKey(task: Text) | OtherKey(name: Text)

  datatype Value =
    | LockedBy(submission: nat) | Budget(policy: Policy, counts: Counts) | Route(source: Text, target: Text)
    | Str(text: Text)

  type Store = Kv<Key, Value>

  /** A submission's arguments. */
  datatype Request = Request(source: Text, target: Text, fingerprint: Text)

  function Edge(q: Request): Text {
    q.source + Lit("->") + q.target
  }

  function Count(m: map<Text, nat>, k: Text): nat {
    if k in m then m[k] else 0
  }

  function Increment(m: map<Text, nat>, k: Text): map<Text, nat> {
    m[k := Count(m, k) + 1]
  }

  // ---- _consume_route_budget ----

  function PolicyIn(v: Option<Value>): Policy {
    if v.Some? && v.value.Budget? then v.value.policy else DEFAULT_POLICY
  }

  function CountsIn(v: Option<Value>): Counts {
    if v.Some? && v.value.Budget? then v.value.counts else ZERO
  }

  function Consumed(c: Counts, q: Request): Counts {
    Counts(c.total + 1, Increment(c.edges, Edge(q)), Increment(c.fingerprints, q.fingerprint))
  }

  /** The new counts break no limit. */
  predicate Affordable(p: Policy, c: Counts, q: Request) {
    && c.total + 1 <= p.maxTotalRoutes
    && Count(c.edges, Edge(q)) + 1 <= p.maxSameEdgeRoutes
    && Count(c.fingerprints, q.fingerprint) + 1 <= p.maxSameFailureFingerprint
  }

  // ---- the steps of a submission ----

  datatype Outcome = Applied | Exhausted | ConcurrentRoute | Raised

  /** Each state but the last two is about to make one store call. */
  datatype Pc =
    | TakingLock
    | ReadingBudget
    | WritingBudget(policy: Policy, counts: Counts)
    | Holding
    | Applying
    | ReadingLock(outcome: Outcome)
    | DeletingLock(outcome: Outcome)
    | Ended(outcome: Outcome)
    | Dead

  datatype Submission = Submission(request: Request, pc: Pc)

  /**
   Submissions are numbered by their lock ids; log is what was consumed, applied the submissions whose route is stored.
   */
  datatype System = System(kv: Store, submissions: map<nat, Submission>, log: seq<Request>, applied: set<nat>)

  datatype Step =
    | Submit(n: nat, request: Request)
    | Advance(n: nat)
    | Raise(n: nat)       // applying the route fails; the finally block still runs
    | Die(n: nat)
    | Foreign(op: Op<Key, Value>)

  predicate Inside(pc: Pc) {
    !pc.TakingLock? && !pc.Ended? && !pc.Dead?
  }

  /** The store operation of submission n, if it makes one here, and where it goes next. */
  function Call(kv: Store, n: nat, s: Submission): (Option<Op<Key, Value>>, Pc) {
    match s.pc
    case TakingLock =>
      (Some(PutOp(LockKey, LockedBy(n), Some(0))),
       if CasOk(kv, LockKey, Some(0)) then ReadingBudget else Ended(ConcurrentRoute))
    case ReadingBudget =>
      var raw := Get(kv, BudgetKey).value;
      (None, if Affordable(PolicyIn(raw), CountsIn(raw), s.request)
             then WritingBudget(PolicyIn(raw), Consumed(CountsIn(raw), s.request)) else Holding)
    case WritingBudget(policy, counts) => (Some(PutOp(BudgetKey, Budget(policy, counts), None)), Applying)
    case Holding =>
      (Some(PutOp(StatusKey(s.request.source), Str(Lit("WAITING_FOR_HUMAN")), None)), ReadingLock(Exhausted))
    case Applying => (Some(PutOp(RouteKey(n), Route(s.request.source, s.request.target), None)), ReadingLock(Applied))
    case ReadingLock(outcome) =>
      (None, if Get(kv, LockKey).value == Some(LockedBy(n)) then DeletingLock(outcome) else Ended(outcome))
    case DeletingLock(outcome) => (Some(DeleteOp({LockKey})), Ended(outcome))
    case _ => (None, s.pc)
  }

  /** Other components leave the lock, the budget and the routes alone. */
  predicate Elsewhere(op: Op<Key, Value>) {
    match op
    case PutOp(k, _, _) => k.StatusKey? || k.OtherKey?
    case DeleteOp(ks) => forall k :: k in ks ==> k.StatusKey? || k.OtherKey?
  }

  function Apply(s: System, step: Step): System {
    match step
    case Submit(n, request) =>
      if n in s.submissions then s else s.(submissions := s.submissions[n := Submission(request, TakingLock)])
    case Advance(n) =>
      if n !in s.submissions then s
      else
        var sub := s.submissions[n];
        var (op, pc) := Call(s.kv, n, sub);
        System(if op.Some? then Do(s.kv, op.value) else s.kv, s.submissions[n := sub.(pc := pc)],
               if sub.pc.WritingBudget? then s.log + [sub.request] else s.log,
               if sub.pc.Applying? then s.applied + {n} else s.applied)
    case Raise(n) =>
      if n in s.submissions && s.submissions[n].pc.Applying? then
        s.(submissions := s.submissions[n := s.submissions[n].(pc := ReadingLock(Raised))])
      else s
    case Die(n) =>
      if n in s.submissions then s.(submissions := s.submissions[n := s.submissions[n].(pc := Dead)]) else s
    case Foreign(op) => if Elsewhere(op) then s.(kv := Do(s.kv, op)) else s
  }

  function Run(s: System, steps: seq<Step>): System {
    if steps == [] then s else Apply(Run(s, steps[..|steps| - 1]), steps[|steps| - 1])
  }

  // ---- sums ----

  ghost function Sum(m: map<Text, nat>): nat {
    if m == map[] then 0
    else
      var k :| k in m;
      m[k] + Sum(m - {k})
  }

  lemma {:induction false} SumAt(m: map<Text, nat>, k: Text)
    requires k in m
    ensures Sum(m) == m[k] + Sum(m - {k})
    decreases |m|
  {
    var first :| first in m && Sum(m) == m[first] + Sum(m - {first});
    if first != k {
      SumAt(m - {first}, k);
      SumAt(m - {k}, first);
      assert m - {first} - {k} == m - {k} - {first};
    }
  }

  lemma SumIncrement(m: map<Text, nat>, k: Text)
    ensures Sum(Increment(m, k)) == Sum(m) + 1
  {
    var more := Increment(m, k);
    SumAt(more, k);
    if k in m {
      SumAt(m, k);
      assert more - {k} == m - {k};
    } else {
      assert more - {k} == m;
    }
  }

  // ---- what every run keeps ----

  function EdgeRoutes(log: seq<Request>, e: Text): nat {
    if log == [] then 0 else EdgeRoutes(log[..|log| - 1], e) + if Edge(log[|log| - 1]) == e then 1 else 0
  }

  function FingerprintRoutes(log: seq<Request>, f: Text): nat {
    if log == [] then 0 else FingerprintRoutes(log[..|log| - 1], f) + if log[|log| - 1].fingerprint == f then 1 else 0
  }

  /** The counts are those of the consumed routes, add up three ways, and keep within the limits. */
  ghost predicate CountsInv(p: Policy, c: Counts, log: seq<Request>) {
    && c.total == |log| == Sum(c.edges) == Sum(c.fingerprints)
    && c.total <= p.maxTotalRoutes
    && (forall e :: Count(c.edges, e) == EdgeRoutes(log, e) <= p.maxSameEdgeRoutes)
    && (forall f :: Count(c.fingerprints, f) == FingerprintRoutes(log, f) <= p.maxSameFailureFingerprint)
  }

  lemma ConsumedKeepsCounts(p: Policy, c: Counts, log: seq<Request>, q: Request)
    requires CountsInv(p, c, log) && Affordable(p, c, q)
    ensures CountsInv(p, Consumed(c, q), log + [q])
  {
    SumIncrement(c.edges, Edge(q));
    SumIncrement(c.fingerprints, q.fingerprint);
    hide Sum, Edge;
    var more := log + [q];
    assert more[..|log|] == log;
    forall e ensures Count(Consumed(c, q).edges, e) == EdgeRoutes(more, e) <= p.maxSameEdgeRoutes {
      assert Count(c.edges, e) == EdgeRoutes(log, e);
    }
    forall f
      ensures Count(Consumed(c, q).fingerprints, f) == FingerprintRoutes(more, f) <= p.maxSameFailureFingerprint
    {
      assert Count(c.fingerprints, f) == FingerprintRoutes(log, f);
    }
  }

  ghost predicate BudgetInv(kv: Store, p: Policy, log: seq<Request>) {
    && WellFormed(kv)
    && (BudgetKey in kv.entries ==> kv.entries[BudgetKey].value.Budget?)
    && PolicyIn(Get(kv, BudgetKey).value) == p
    && CountsInv(p, CountsIn(Get(kv, BudgetKey).value), log)
  }

  /**
   Inside the locked part, the lock is this submission's, and what it is about to write continues the stored counts.
   */
  ghost predicate SubmissionInv(kv: Store, p: Policy, log: seq<Request>, n: nat, s: Submission) {
    && (Inside(s.pc) ==> Get(kv, LockKey).value == Some(LockedBy(n)))
    && (s.pc.WritingBudget? ==>
      var c := CountsIn(Get(kv, BudgetKey).value);
      s.pc.policy == p && Affordable(p, c, s.request) && s.pc.counts == Consumed(c, s.request))
  }

  /** Submissions that were counted: those in the middle of applying, and those that have applied. */
  ghost predicate AppliedInv(s: System) {
    exists counted: set<nat> :: |counted| == |s.log| && s.applied <= counted && Counted(s, counted)
  }

  ghost predicate Counted(s: System, counted: set<nat>) {
    && counted <= s.submissions.Keys
    && forall n :: n in s.submissions ==>
      match s.submissions[n].pc
      case Applying => n in counted && n !in s.applied
      case TakingLock => n !in counted
      case ReadingBudget => n !in counted
      case WritingBudget(_, _) => n !in counted
      case Holding => n !in counted
      case _ => true
  }

  ghost predicate RunInv(s: System, p: Policy) {
    && BudgetInv(s.kv, p, s.log)
    && (forall n :: n in s.submissions ==> SubmissionInv(s.kv, p, s.log, n, s.submissions[n]))
    && AppliedInv(s)
  }

  // ---- one step ----

  /** An operation that leaves lock and budget alone. */
  predicate Quiet(op: Op<Key, Value>) {
    match op
    case PutOp(k, _, _) => k != LockKey && k != BudgetKey
    case DeleteOp(ks) => LockKey !in ks && BudgetKey !in ks
  }

  lemma QuietKeeps(kv: Store, p: Policy, log: seq<Request>, op: Op<Key, Value>)
    requires BudgetInv(kv, p, log) && Quiet(op)
    ensures BudgetInv(Do(kv, op), p, log)
    ensures Get(Do(kv, op), LockKey).value == Get(kv, LockKey).value
    ensures Get(Do(kv, op), BudgetKey).value == Get(kv, BudgetKey).value
  {
    DoWellFormed(kv, op);
    hide CountsInv, WellFormed;
  }

  lemma StepCounted(s: System, step: Step, counted: set<nat>)
    requires Counted(s, counted) && |counted| == |s.log| && s.applied <= counted
    ensures AppliedInv(Apply(s, step))
  {
    var t := Apply(s, step);
    if step.Advance? && step.n in s.submissions && s.submissions[step.n].pc.WritingBudget? {
      assert |counted + {step.n}| == |t.log|;
      assert Counted(t, counted + {step.n});
    } else {
      assert Counted(t, counted);
    }
  }

  /** The acting submission's store call keeps the budget and everybody's view of the lock. */
  lemma CallKeepsBudget(s: System, p: Policy, n: nat)
    requires RunInv(s, p) && n in s.submissions
    ensures var t := Apply(s, Advance(n)); BudgetInv(t.kv, p, t.log)
  {
    var sub := s.submissions[n];
    assert SubmissionInv(s.kv, p, s.log, n, sub);
    hide AppliedInv, CountsInv, Affordable, Consumed;
    if sub.pc.WritingBudget? {
      var op := PutOp(BudgetKey, Budget(sub.pc.policy, sub.pc.counts), None);
      DoWellFormed(s.kv, op);
      ConsumedKeepsCounts(p, CountsIn(Get(s.kv, BudgetKey).value), s.log, sub.request);
    } else if sub.pc.TakingLock? || sub.pc.DeletingLock? {
      DoWellFormed(s.kv, Call(s.kv, n, sub).0.value);
      hide WellFormed;
    } else if Call(s.kv, n, sub).0.Some? {
      QuietKeeps(s.kv, p, s.log, Call(s.kv, n, sub).0.value);
    }
  }

  lemma OwnAfterCall(s: System, p: Policy, n: nat)
    requires RunInv(s, p) && n in s.submissions
    ensures var t := Apply(s, Advance(n)); SubmissionInv(t.kv, p, t.log, n, t.submissions[n])
  {
    var sub := s.submissions[n];
    assert SubmissionInv(s.kv, p, s.log, n, sub);
    hide AppliedInv, CountsInv, Affordable, Consumed, WellFormed;
  }

  /** Two submissions are never inside the locked part at once, so the others' views survive the call. */
  lemma OthersAfterCall(s: System, p: Policy, n: nat, m: nat)
    requires RunInv(s, p) && n in s.submissions && m in s.submissions && m != n
    ensures var t := Apply(s, Advance(n)); SubmissionInv(t.kv, p, t.log, m, s.submissions[m])
  {
    assert SubmissionInv(s.kv, p, s.log, n, s.submissions[n]);
    assert SubmissionInv(s.kv, p, s.log, m, s.submissions[m]);
    hide AppliedInv, CountsInv, Affordable, Consumed;
  }

  lemma AdvanceKeeps(s: System, p: Policy, n: nat)
    requires RunInv(s, p) && n in s.submissions
    ensures RunInv(Apply(s, Advance(n)), p)
  {
    var t := Apply(s, Advance(n));
    CallKeepsBudget(s, p, n);
    OwnAfterCall(s, p, n);
    var counted :| |counted| == |s.log| && s.applied <= counted && Counted(s, counted);
    StepCounted(s, Advance(n), counted);
    hide BudgetInv, SubmissionInv, AppliedInv, Call;
    forall m | m in t.submissions ensures SubmissionInv(t.kv, p, t.log, m, t.submissions[m]) {
      if m != n { OthersAfterCall(s, p, n, m); }
    }
  }

  lemma OtherStepKeeps(s: System, p: Policy, step: Step)
    requires RunInv(s, p) && !step.Advance?
    ensures RunInv(Apply(s, step), p)
  {
    var counted :| |counted| == |s.log| && s.applied <= counted && Counted(s, counted);
    StepCounted(s, step, counted);
    hide AppliedInv, CountsInv, Counted, WellFormed, Affordable, Consumed;
    if step.Foreign? && Elsewhere(step.op) {
      assert Quiet(step.op);
      QuietKeeps(s.kv, p, s.log, step.op);
      hide BudgetInv, Do;
    }
  }

  /** Nothing is submitted or counted yet: no budget record (then the default policy), or one with zero counts. */
  ghost predicate Start(s: System, p: Policy) {
    && WellFormed(s.kv) && s.submissions == map[] && s.log == [] && s.applied == {}
    && (BudgetKey in s.kv.entries ==> s.kv.entries[BudgetKey].value.Budget?)
    && PolicyIn(Get(s.kv, BudgetKey).value) == p && CountsIn(Get(s.kv, BudgetKey).value) == ZERO
  }

  lemma StartHolds(s: System, p: Policy)
    requires Start(s, p)
    ensures RunInv(s, p)
  {
    var none: set<nat> := {};
    assert Counted(s, none) && |none| == |s.log|;
    assert CountsInv(p, ZERO, []);
    hide WellFormed, CountsInv;
  }

  lemma {:induction false} RunKeeps(s: System, p: Policy, steps: seq<Step>)
    requires Start(s, p)
    ensures RunInv(Run(s, steps), p)
  {
    if steps == [] {
      StartHolds(s, p);
    } else {
      hide Start, RunInv, Apply;
      var front, last := steps[..|steps| - 1], steps[|steps| - 1];
      RunKeeps(s, p, front);
      var before := Run(s, front);
      if !last.Advance? {
        OtherStepKeeps(before, p, last);
      } else if last.n in before.submissions {
        AdvanceKeeps(before, p, last.n);
      } else {
        UnknownStays(before, last.n);
      }
    }
  }

  lemma UnknownStays(s: System, n: nat)
    requires n !in s.submissions
    ensures Apply(s, Advance(n)) == s
  {}

  /**
   After any interleaving: at most one submission is inside the locked part; the stored total is the number of routes
   consumed, the sum of the edge counts and the sum of the fingerprint counts; each count keeps its limit; and no more
   routes have been applied than the total says, so no more than the limit: automatic rerouting ends.
   */
  lemma BudgetBounds(s: System, p: Policy, steps: seq<Step>)
    requires Start(s, p)
    ensures var t := Run(s, steps);
      var c := CountsIn(Get(t.kv, BudgetKey).value);
      && CountsInv(p, c, t.log)
      && |t.applied| <= c.total <= p.maxTotalRoutes
      && (forall n, m ::
        n in t.submissions && m in t.submissions && Inside(t.submissions[n].pc) && Inside(t.submissions[m].pc) ==>
        n == m)
  {
    RunKeeps(s, p, steps);
    var t := Run(s, steps);
    var counted :| |counted| == |t.log| && t.applied <= counted && Counted(t, counted);
    SubsetSize(t.applied, counted);
    forall n, m | n in t.submissions && m in t.submissions && Inside(t.submissions[n].pc) && Inside(t.submissions[m].pc)
      ensures n == m
    {
      assert SubmissionInv(t.kv, p, t.log, n, t.submissions[n]) && SubmissionInv(t.kv, p, t.log, m, t.submissions[m]);
    }
  }

  lemma {:induction false} SubsetSize(a: set<nat>, b: set<nat>)
    requires a <= b
    ensures |a| <= |b|
  {
    if a != {} {
      var x :| x in a;
      SubsetSize(a - {x}, b - {x});
    }
  }

  // ---- the object ----

  class AdaptiveControl {
    const store: LocalStore<Key, Value>

    constructor (store: LocalStore<Key, Value>)
      ensures this.store == store
    {
      this.store := store;
    }

    /** _consume_route_budget: the budget grows by this route, or the source task is left to a human. */
    method ConsumeRouteBudget(q: Request) returns (ok: bool)
      modifies store
      ensures var raw := old(Get(store.Model(), BudgetKey).value);
        && (ok <==>
          && CountsIn(raw).total < PolicyIn(raw).maxTotalRoutes
          && Count(CountsIn(raw).edges, Edge(q)) < PolicyIn(raw).maxSameEdgeRoutes
          && Count(CountsIn(raw).fingerprints, q.fingerprint) < PolicyIn(raw).maxSameFailureFingerprint)
        && store.Model() == Put(old(store.Model()), if ok then BudgetKey else StatusKey(q.source),
             if ok then Budget(PolicyIn(raw), Consumed(CountsIn(raw), q)) else Str(Lit("WAITING_FOR_HUMAN")), None)
    {
      var raw, _ := store.KvGet(BudgetKey);
      var policy, state := PolicyIn(raw), CountsIn(raw);
      var edge := Edge(q);
      var total := state.total + 1;
      var edges := state.edges[edge := Count(state.edges, edge) + 1];
      var fingerprints := state.fingerprints[q.fingerprint := Count(state.fingerprints, q.fingerprint) + 1];
      if total > policy.maxTotalRoutes || edges[edge] > policy.maxSameEdgeRoutes
        || fingerprints[q.fingerprint] > policy.maxSameFailureFingerprint
      {
        var _ := store.KvPut(StatusKey(q.source), Str(Lit("WAITING_FOR_HUMAN")), None);
        return false;
      }
      var _ := store.KvPut(BudgetKey, Budget(policy, Counts(total, edges, fingerprints)), None);
      return true;
    }

    /**
     The locked part of submit_route, nothing else running; `writes` are those of the invalidation and the new run, up
     to where one of them raises if `fails` says so.
     */
    method ApplyLocked(n: nat, q: Request, writes: seq<Op<Key, Value>>, fails: bool) returns (outcome: Outcome)
      modifies store
      ensures (store.Model(), outcome) == ToEnd(old(store.Model()), n, q, writes, TakingLock, fails)
    {
      hide Consumed, Edge, ToEnd, KvStore.Run;
      OneCall(store.Model(), n, q, writes, TakingLock, fails);
      var locked := store.KvPut(LockKey, LockedBy(n), Some(0));
      if !locked {
        OneCall(store.Model(), n, q, writes, Ended(ConcurrentRoute), fails);
        return ConcurrentRoute;
      }
      OneCall(store.Model(), n, q, writes, ReadingBudget, fails);
      ghost var next := Call(store.Model(), n, Submission(q, ReadingBudget)).1;
      OneCall(store.Model(), n, q, writes, next, fails);
      var ok := ConsumeRouteBudget(q);
      if !ok {
        outcome := Exhausted;
      } else {
        OneCall(store.Model(), n, q, writes, Applying, fails);
        Write(writes);
        if fails {
          outcome := Raised;
        } else {
          var _ := store.KvPut(RouteKey(n), Route(q.source, q.target), None);
          outcome := Applied;
        }
      }
      assert ToEnd(store.Model(), n, q, writes, ReadingLock(outcome), fails)
        == ToEnd(old(store.Model()), n, q, writes, TakingLock, fails);
      OneCall(store.Model(), n, q, writes, ReadingLock(outcome), fails);
      var current, _ := store.KvGet(LockKey);
      if current == Some(LockedBy(n)) {
        OneCall(store.Model(), n, q, writes, DeletingLock(outcome), fails);
        store.KvDelete(LockKey);
      }
      OneCall(store.Model(), n, q, writes, Ended(outcome), fails);
    }

    method Write(writes: seq<Op<Key, Value>>)
      modifies store
      ensures store.Model() == KvStore.Run(old(store.Model()), writes)
    {
      for i := 0 to |writes|
        invariant store.Model() == KvStore.Run(old(store.Model()), writes[..i])
      {
        assert writes[..i + 1][..i] == writes[..i];
        match writes[i] {
          case PutOp(k, v, cas) => var _ := store.KvPut(k, v, cas);
          case DeleteOp(ks) => store.KvDeleteRecurse(k => k in ks);
        }
      }
      assert writes[..|writes|] == writes;
    }
  }

  function CallsLeft(pc: Pc): nat {
    match pc
    case TakingLock => 6
    case ReadingBudget => 5
    case WritingBudget(_, _) => 4
    case Holding => 3
    case Applying => 3
    case ReadingLock(_) => 2
    case DeletingLock(_) => 1
    case _ => 0
  }

  /** A submission run alone from pc on, call by call. */
  function ToEnd(kv: Store, n: nat, q: Request, writes: seq<Op<Key, Value>>, pc: Pc, fails: bool): (Store, Outcome)
    decreases CallsLeft(pc)
  {
    if pc.Ended? then (kv, pc.outcome)
    else if pc.Dead? then (kv, Raised)
    else
      var now := if pc.Applying? then KvStore.Run(kv, writes) else kv;
      if pc.Applying? && fails then ToEnd(now, n, q, writes, ReadingLock(Raised), fails)
      else
        var (op, next) := Call(now, n, Submission(q, pc));
        ToEnd(if op.Some? then Do(now, op.value) else now, n, q, writes, next, fails)
  }

  lemma OneCall(kv: Store, n: nat, q: Request, writes: seq<Op<Key, Value>>, pc: Pc, fails: bool)
    requires !pc.Dead?
    ensures ToEnd(kv, n, q, writes, pc, fails) ==
      if pc.Ended? then (kv, pc.outcome)
      else
        var now := if pc.Applying? then KvStore.Run(kv, writes) else kv;
        if pc.Applying? && fails then ToEnd(now, n, q, writes, ReadingLock(Raised), fails)
        else
          var (op, next) := Call(now, n, Submission(q, pc));
          ToEnd(if op.Some? then Do(now, op.value) else now, n, q, writes, next, fails)
  {}

  // ---- the object's run is one of the interleavings ----

  lemma {:induction false} RunConcat(s: System, a: seq<Step>, b: seq<Step>)
    ensures Run(s, a + b) == Run(Run(s, a), b)
  {
    if b == [] {
      assert a + b == a;
    } else {
      assert (a + b)[..|a + b| - 1] == a + b[..|b| - 1];
      RunConcat(s, a, b[..|b| - 1]);
    }
  }

  function Foreigns(writes: seq<Op<Key, Value>>): seq<Step> {
    seq(|writes|, i requires 0 <= i < |writes| => Foreign(writes[i]))
  }

  lemma {:induction false} ForeignsWrite(s: System, writes: seq<Op<Key, Value>>)
    requires forall i :: 0 <= i < |writes| ==> Elsewhere(writes[i])
    ensures Run(s, Foreigns(writes)) == s.(kv := KvStore.Run(s.kv, writes))
  {
    if writes != [] {
      ForeignsWrite(s, writes[..|writes| - 1]);
      assert Foreigns(writes)[..|writes| - 1] == Foreigns(writes[..|writes| - 1]);
      hide Do, Elsewhere;
    }
  }

  lemma OneStep(s: System, step: Step)
    ensures Run(s, [step]) == Apply(s, step)
  {
    assert [step][..0] == [];
  }

  /** The writes of applying a route are foreign to lock and budget, so a submission alone is one run of the system. */
  lemma {:induction false} AloneIsRun(
    s: System, n: nat, writes: seq<Op<Key, Value>>, fails: bool) returns (steps: seq<Step>)
    requires n in s.submissions && !s.submissions[n].pc.Dead?
    requires forall i :: 0 <= i < |writes| ==> Elsewhere(writes[i])
    ensures var (kv, outcome) := ToEnd(s.kv, n, s.submissions[n].request, writes, s.submissions[n].pc, fails);
      var end := Run(s, steps);
      end.kv == kv && n in end.submissions && end.submissions[n].pc == Ended(outcome)
    decreases CallsLeft(s.submissions[n].pc)
  {
    hide Do, Elsewhere, Affordable, Consumed, ToEnd, Run, KvStore.Run;
    var sub := s.submissions[n];
    OneCall(s.kv, n, sub.request, writes, sub.pc, fails);
    if sub.pc.Ended? {
      steps := [];
      assert Run(s, []) == s by { NoSteps(s); }
    } else {
      var first := if sub.pc.Applying? then Foreigns(writes) else [];
      var now := if sub.pc.Applying? then s.(kv := KvStore.Run(s.kv, writes)) else s;
      assert Run(s, first) == now by { ForeignsWrite(s, writes); NoSteps(s); }
      var step := if sub.pc.Applying? && fails then Raise(n) else Advance(n);
      var next := Apply(now, step);
      OneStep(now, step);
      var rest := AloneIsRun(next, n, writes, fails);
      RunConcat(s, first, [step]);
      RunConcat(s, first + [step], rest);
      steps := first + [step] + rest;
    }
  }

  lemma NoSteps(s: System)
    ensures Run(s, []) == s
  {}
}
