/** When a route submission goes through, what it leaves, and that the whole budget can be used. */
module RoutingBudgetExact {
  import opened Texts
  import opened KvStore
  import opened RoutingBudget
  import Budgets = RoutingBudget

  function PolicyOf(kv: Store): Policy {
    if BudgetKey in kv.entries && kv.entries[BudgetKey].value.Budget? then kv.entries[BudgetKey].value.policy
    else Policy(8, 2, 2)
  }

  function CountsOf(kv: Store): Counts {
    if BudgetKey in kv.entries && kv.entries[BudgetKey].value.Budget? then kv.entries[BudgetKey].value.counts
    else Counts(0, map[], map[])
  }

  function CountOf(m: map<Text, nat>, k: Text): nat {
    if k in m then m[k] else 0
  }

  /** The stored counts are below all three limits. */
  predicate Room(kv: Store, q: Request) {
    var p, c := PolicyOf(kv), CountsOf(kv);
    && c.total < p.maxTotalRoutes
    && CountOf(c.edges, q.source + Lit("->") + q.target) < p.maxSameEdgeRoutes
    && CountOf(c.fingerprints, q.fingerprint) < p.maxSameFailureFingerprint
  }

  /** One route more in the total, on its edge and on its fingerprint, and no other count changed. */
  ghost predicate OneMore(kv: Store, after: Store, q: Request) {
    var edge, c, d := q.source + Lit("->") + q.target, CountsOf(kv), CountsOf(after);
    && BudgetKey in after.entries && after.entries[BudgetKey].value.Budget? && PolicyOf(after) == PolicyOf(kv)
    && d.total == c.total + 1
    && (forall e :: CountOf(d.edges, e) == CountOf(c.edges, e) + if e == edge then 1 else 0)
    && (forall f :: CountOf(d.fingerprints, f) == CountOf(c.fingerprints, f) + if f == q.fingerprint then 1 else 0)
  }

  ghost predicate SameBudget(kv: Store, after: Store) {
    Get(after, BudgetKey).value == Get(kv, BudgetKey).value
  }

  ghost predicate WritesElsewhere(writes: seq<Op<Key, Value>>) {
    forall i :: 0 <= i < |writes| ==> Elsewhere(writes[i])
  }

  lemma {:induction false} ElsewhereKeeps(kv: Store, writes: seq<Op<Key, Value>>, k: Key)
    requires WritesElsewhere(writes) && (k == LockKey || k == BudgetKey)
    ensures Get(KvStore.Run(kv, writes), k).value == Get(kv, k).value
  {
    if writes != [] {
      var front := writes[..|writes| - 1];
      assert forall i :: 0 <= i < |front| ==> front[i] == writes[i];
      ElsewhereKeeps(kv, front, k);
      assert Elsewhere(writes[|writes| - 1]);
    }
  }

  /**
   A submission alone. Under a taken lock it raises and writes nothing. Otherwise it is applied if and only if the
   counts are below all three limits and applying does not raise; what it consumed stays consumed either way. At a limit
   the source task is left to a human. The lock is free in the end.
   */
  lemma SubmissionAnswers(kv: Store, n: nat, q: Request, writes: seq<Op<Key, Value>>, fails: bool)
    requires WritesElsewhere(writes) && WellFormed(kv)
    ensures var (after, o) := ToEnd(kv, n, q, writes, TakingLock, fails);
      && (LockKey in kv.entries ==> (after, o) == (kv, ConcurrentRoute))
      && (LockKey !in kv.entries ==>
        && LockKey !in after.entries
        && o == (if !Room(kv, q) then Exhausted else if fails then Raised else Applied)
        && (Room(kv, q) ==> OneMore(kv, after, q))
        && (Room(kv, q) && !fails ==> Get(after, RouteKey(n)).value == Some(Route(q.source, q.target)))
        && (!Room(kv, q) ==>
          SameBudget(kv, after) && Get(after, StatusKey(q.source)).value == Some(Str(Lit("WAITING_FOR_HUMAN")))))
  {
    hide ToEnd, KvStore.Run, WellFormed;
    assert LockKey in kv.entries ==> CurrentIndex(kv, LockKey) != 0 by { Positive(kv); }
    OneCall(kv, n, q, writes, TakingLock, fails);
    if LockKey in kv.entries {
      OneCall(kv, n, q, writes, Ended(ConcurrentRoute), fails);
    } else {
      var kv1 := Put(kv, LockKey, LockedBy(n), Some(0));
      OneCall(kv1, n, q, writes, ReadingBudget, fails);
      if Room(kv, q) {
        Consumes(kv, n, q, writes, fails, kv1);
      } else {
        OneCall(kv1, n, q, writes, Holding, fails);
        var kv2 := Put(kv1, StatusKey(q.source), Str(Lit("WAITING_FOR_HUMAN")), None);
        Unlocks(kv2, n, q, writes, Exhausted, fails);
      }
    }
  }

  lemma Positive(kv: Store)
    requires WellFormed(kv)
    ensures LockKey in kv.entries ==> CurrentIndex(kv, LockKey) > 0
  {}

  lemma Unlocks(kv: Store, n: nat, q: Request, writes: seq<Op<Key, Value>>, o: Outcome, fails: bool)
    requires Get(kv, LockKey).value == Some(LockedBy(n))
    ensures ToEnd(kv, n, q, writes, ReadingLock(o), fails) == (DeleteAll(kv, {LockKey}), o)
  {
    hide ToEnd;
    OneCall(kv, n, q, writes, ReadingLock(o), fails);
    OneCall(kv, n, q, writes, DeletingLock(o), fails);
    OneCall(DeleteAll(kv, {LockKey}), n, q, writes, Ended(o), fails);
  }

  /** The write of the budget, under the lock. */
  lemma Counted(kv: Store, n: nat, q: Request, kv1: Store, kv2: Store)
    requires LockKey !in kv.entries && kv1 == Put(kv, LockKey, LockedBy(n), Some(0))
    requires Get(kv1, LockKey).value == Some(LockedBy(n))
    requires var stored := Get(kv1, BudgetKey).value;
      kv2 == Put(kv1, BudgetKey, Budget(PolicyIn(stored), Consumed(CountsIn(stored), q)), None)
    ensures OneMore(kv, kv2, q) && Get(kv2, LockKey).value == Some(LockedBy(n))
  {}

  lemma Consumes(kv: Store, n: nat, q: Request, writes: seq<Op<Key, Value>>, fails: bool, kv1: Store)
    requires WritesElsewhere(writes) && LockKey !in kv.entries && Room(kv, q)
    requires kv1 == Put(kv, LockKey, LockedBy(n), Some(0)) && Get(kv1, LockKey).value == Some(LockedBy(n))
    ensures var stored := Get(kv1, BudgetKey).value;
      var pc := WritingBudget(PolicyIn(stored), Consumed(CountsIn(stored), q));
      var (after, o) := ToEnd(kv1, n, q, writes, pc, fails);
      && LockKey !in after.entries && OneMore(kv, after, q)
      && o == (if fails then Raised else Applied)
      && (!fails ==> Get(after, RouteKey(n)).value == Some(Route(q.source, q.target)))
  {
    hide ToEnd, KvStore.Run, Consumed, Room, PolicyIn, CountsIn;
    var counts := Consumed(CountsIn(Get(kv1, BudgetKey).value), q);
    var policy := PolicyIn(Get(kv1, BudgetKey).value);
    OneCall(kv1, n, q, writes, WritingBudget(policy, counts), fails);
    var kv2 := Put(kv1, BudgetKey, Budget(policy, counts), None);
    Counted(kv, n, q, kv1, kv2);
    OneCall(kv2, n, q, writes, Applying, fails);
    var kv3 := KvStore.Run(kv2, writes);
    ElsewhereKeeps(kv2, writes, LockKey);
    ElsewhereKeeps(kv2, writes, BudgetKey);
    SameCounts(kv2, kv3);
    if fails {
      Unlocks(kv3, n, q, writes, Raised, fails);
    } else {
      Unlocks(Put(kv3, RouteKey(n), Route(q.source, q.target), None), n, q, writes, Applied, fails);
    }
  }

  lemma SameCounts(kv: Store, after: Store)
    requires SameBudget(kv, after)
    ensures PolicyOf(after) == PolicyOf(kv) && CountsOf(after) == CountsOf(kv)
    ensures BudgetKey in kv.entries <==> BudgetKey in after.entries
    ensures BudgetKey in kv.entries ==> after.entries[BudgetKey].value == kv.entries[BudgetKey].value
  {}

  // ---- the whole budget ----

  /** Submitted, six store calls, done. */
  function Lone(n: nat, q: Request): seq<Step> {
    [Submit(n, q), Advance(n), Advance(n), Advance(n), Advance(n), Advance(n), Advance(n)]
  }

  lemma LoneApplies(s: System, n: nat, q: Request)
    requires WellFormed(s.kv) && LockKey !in s.kv.entries && n !in s.submissions && Room(s.kv, q)
    ensures var t := Budgets.Run(s, Lone(n, q));
      && LockKey !in t.kv.entries && OneMore(s.kv, t.kv, q)
      && t.log == s.log + [q] && t.applied == s.applied + {n} && t.submissions.Keys == s.submissions.Keys + {n}
  {
    hide Budgets.Run, Apply;
    var go := Advance(n);
    RunSeven(s, Submit(n, q), go);
    LoneSteps(s, n, q);
  }

  lemma RunSeven(s: System, first: Step, go: Step)
    ensures Budgets.Run(s, [first, go, go, go, go, go, go])
      == var s3 := Apply(Apply(Apply(s, first), go), go); Apply(Apply(Apply(Apply(s3, go), go), go), go)
  {
    hide Apply;
    RunConcat(s, [first], [go, go, go, go, go, go]);
    OneStep(s, first);
    var s1 := Apply(s, first);
    RunConcat(s1, [go, go, go], [go, go, go]);
    RunThree(s1, go);
    RunThree(Budgets.Run(s1, [go, go, go]), go);
    assert [first] + [go, go, go, go, go, go] == [first, go, go, go, go, go, go];
    assert [go, go, go] + [go, go, go] == [go, go, go, go, go, go];
  }

  lemma RunThree(s: System, go: Step)
    ensures Budgets.Run(s, [go, go, go]) == Apply(Apply(Apply(s, go), go), go)
  {
    hide Apply;
    RunConcat(s, [go], [go, go]);
    RunConcat(Apply(s, go), [go], [go]);
    OneStep(s, go);
    OneStep(Apply(s, go), go);
    OneStep(Apply(Apply(s, go), go), go);
    assert [go] + [go, go] == [go, go, go] && [go] + [go] == [go, go];
  }

  lemma LoneSteps(s: System, n: nat, q: Request)
    requires WellFormed(s.kv) && LockKey !in s.kv.entries && n !in s.submissions && Room(s.kv, q)
    ensures var go := Advance(n);
      var s3 := Apply(Apply(Apply(s, Submit(n, q)), go), go);
      var t := Apply(Apply(Apply(Apply(s3, go), go), go), go);
      && LockKey !in t.kv.entries && OneMore(s.kv, t.kv, q)
      && t.log == s.log + [q] && t.applied == s.applied + {n} && t.submissions.Keys == s.submissions.Keys + {n}
  {
    hide WellFormed, OneMore, Edge, Consumed, Affordable, Room, Count;
    var go := Advance(n);
    var s2 := Apply(Apply(s, Submit(n, q)), go);
    assert s2.kv == Put(s.kv, LockKey, LockedBy(n), Some(0)) && s2.submissions[n].pc == ReadingBudget;
    var s3 := Apply(s2, go);
    RoomAffordable(s.kv, s2.kv, q);
    var s4 := Apply(s3, go);
    assert s4.submissions[n].pc == Applying && s4.log == s.log + [q];
    var s5 := Apply(s4, go);
    assert s5.submissions[n].pc == ReadingLock(Applied) && s5.applied == s.applied + {n};
    var s6 := Apply(s5, go);
    assert s6.submissions[n].pc == DeletingLock(Applied);
    ConsumedOneMore(s.kv, s4.kv, q);
    KeptOneMore(s.kv, s4.kv, Apply(s6, go).kv, q);
  }

  lemma RoomAffordable(kv: Store, kv1: Store, q: Request)
    requires SameBudget(kv, kv1)
    ensures Room(kv, q) <==> Affordable(PolicyIn(Get(kv1, BudgetKey).value), CountsIn(Get(kv1, BudgetKey).value), q)
  {}

  lemma ConsumedOneMore(kv: Store, after: Store, q: Request)
    requires Get(after, BudgetKey).value ==
      Some(Budget(PolicyIn(Get(kv, BudgetKey).value), Consumed(CountsIn(Get(kv, BudgetKey).value), q)))
    ensures OneMore(kv, after, q)
  {}

  lemma KeptOneMore(kv: Store, after: Store, later: Store, q: Request)
    requires OneMore(kv, after, q) && SameBudget(after, later)
    ensures OneMore(kv, later, q)
  {}

  /** The requests are on different edges with different fingerprints. */
  ghost predicate AllFresh(qs: seq<Request>) {
    forall i, j :: 0 <= i < j < |qs| ==> Edge(qs[i]) != Edge(qs[j]) && qs[i].fingerprint != qs[j].fingerprint
  }

  function Lones(qs: seq<Request>): seq<Step> {
    if qs == [] then [] else Lones(qs[..|qs| - 1]) + Lone(|qs| - 1, qs[|qs| - 1])
  }

  /**
   The total limit is attained: whatever fresh edges and fingerprints are submitted one after the other, all of them are
   consumed and applied as long as there are at most max_total_routes.
   */
  lemma {:induction false} BudgetAttained(s: System, p: Policy, qs: seq<Request>)
    requires Start(s, p) && LockKey !in s.kv.entries && AllFresh(qs) && |qs| <= p.maxTotalRoutes
    requires p.maxSameEdgeRoutes >= 1 && p.maxSameFailureFingerprint >= 1
    ensures var t := Budgets.Run(s, Lones(qs));
      && t.log == qs && LockKey !in t.kv.entries && t.submissions.Keys == t.applied
      && |t.applied| == |qs| && forall n: nat :: n in t.applied <==> n < |qs|
  {
    hide Budgets.Run, Start, AllFresh, Room;
    if qs == [] {
      StartIsEmpty(s, p);
    } else {
      var front, last := qs[..|qs| - 1], qs[|qs| - 1];
      FreshFront(qs);
      BudgetAttained(s, p, front);
      var t := Budgets.Run(s, Lones(front));
      RunKeeps(s, p, Lones(front));
      RoomLeft(t, p, qs);
      LoneApplies(t, |front|, last);
      RunConcat(s, Lones(front), Lone(|front|, last));
      assert front + [last] == qs;
    }
  }

  lemma StartIsEmpty(s: System, p: Policy)
    requires Start(s, p)
    ensures s.log == [] && s.applied == {} && s.submissions == map[] && Budgets.Run(s, []) == s
  {}

  lemma FreshFront(qs: seq<Request>)
    requires AllFresh(qs) && qs != []
    ensures AllFresh(qs[..|qs| - 1])
  {}

  lemma RoomLeft(t: System, p: Policy, qs: seq<Request>)
    requires AllFresh(qs) && 0 < |qs| <= p.maxTotalRoutes && t.log == qs[..|qs| - 1] && RunInv(t, p)
    requires p.maxSameEdgeRoutes >= 1 && p.maxSameFailureFingerprint >= 1
    ensures Room(t.kv, qs[|qs| - 1]) && WellFormed(t.kv)
  {
    hide AppliedInv, SubmissionInv, WellFormed, Edge;
    var q := qs[|qs| - 1];
    NoneSoFar(qs[..|qs| - 1], q) by { LastIsFresh(qs); }
    var c := CountsIn(Get(t.kv, BudgetKey).value);
    assert Count(c.edges, Edge(q)) == EdgeRoutes(t.log, Edge(q)) == 0;
    assert Count(c.fingerprints, q.fingerprint) == FingerprintRoutes(t.log, q.fingerprint) == 0;
    RoomAffordable(t.kv, t.kv, q);
  }

  lemma LastIsFresh(qs: seq<Request>)
    requires AllFresh(qs) && qs != []
    ensures var front, q := qs[..|qs| - 1], qs[|qs| - 1];
      forall i :: 0 <= i < |front| ==> Edge(front[i]) != Edge(q) && front[i].fingerprint != q.fingerprint
  {}

  lemma {:induction false} NoneSoFar(log: seq<Request>, q: Request)
    requires forall i :: 0 <= i < |log| ==> Edge(log[i]) != Edge(q) && log[i].fingerprint != q.fingerprint
    ensures EdgeRoutes(log, Edge(q)) == 0 && FingerprintRoutes(log, q.fingerprint) == 0
  {
    hide Edge;
    if log != [] { NoneSoFar(log[..|log| - 1], q); }
  }
}
