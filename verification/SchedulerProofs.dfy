/** What repeated activation passes reach, why they cannot get stuck, and what every run keeps. */
module SchedulerProofs {
  import opened Graph
  import opened Scheduler

  /** Workflows never tell QUEUED and BLOCKED apart. */
  function Norm(s: State): State {
    if s == Queued then Blocked else s
  }

  ghost predicate SameState(a: State, b: State) {
    Norm(a) == Norm(b)
  }

  // ---- the settled assignment ----

  /** fin resolves every initial state against fin itself: the recursive definition over the graph. */
  ghost predicate IsSettled(g: Dag, initial: States, fin: States) {
    && fin.Keys == initial.Keys
    && forall t :: t in initial ==> SettledAt(g, initial, fin, t)
  }

  ghost predicate SettledAt(g: Dag, initial: States, fin: States, t: TaskId)
    requires t in initial && t in fin
  {
    SameState(fin[t], Resolve(initial[t], DepStates(fin, Blockers(g, t))))
  }

  ghost predicate SameDeps(g: Dag, a: States, b: States, t: TaskId) {
    forall d :: d in Blockers(g, t) ==> SameState(StateOf(a, d), StateOf(b, d))
  }

  /** Resolve sees its dependencies only up to QUEUED = BLOCKED. */
  lemma ResolveSameDeps(g: Dag, cur: State, a: States, b: States, t: TaskId)
    requires SameDeps(g, a, b, t)
    ensures Resolve(cur, DepStates(a, Blockers(g, t))) == Resolve(cur, DepStates(b, Blockers(g, t)))
  {
    var bl := Blockers(g, t);
    var da, db := DepStates(a, bl), DepStates(b, bl);
    forall i | 0 <= i < |da| ensures Failure(da[i]) == Failure(db[i]) && Success(da[i]) == Success(db[i]) {
      assert bl[i] in bl;
      assert SameState(StateOf(a, bl[i]), StateOf(b, bl[i]));
    }
    hide Failure, Success, Waiting, DepStates;
    AlikeDeps(da, db);
    AlikeDeps(db, da);
    ResolveAlike(cur, da, db);
  }

  ghost predicate Alike(da: seq<State>, db: seq<State>) {
    |da| == |db| && forall i :: 0 <= i < |da| ==> Failure(da[i]) == Failure(db[i]) && Success(da[i]) == Success(db[i])
  }

  lemma AlikeDeps(da: seq<State>, db: seq<State>)
    requires Alike(da, db)
    ensures (exists s :: s in da && Failure(s)) ==> exists s :: s in db && Failure(s)
    ensures (forall s :: s in da ==> Success(s)) ==> forall s :: s in db ==> Success(s)
  {
    hide Failure, Success;
    if s :| s in da && Failure(s) {
      var i :| 0 <= i < |da| && da[i] == s;
      assert db[i] in db && Failure(db[i]);
    }
    if forall s :: s in da ==> Success(s) {
      forall s | s in db ensures Success(s) {
        var i :| 0 <= i < |db| && db[i] == s;
        assert da[i] in da && Success(da[i]);
      }
    }
  }

  lemma ResolveAlike(cur: State, da: seq<State>, db: seq<State>)
    requires |da| == |db|
    requires (exists s :: s in da && Failure(s)) <==> exists s :: s in db && Failure(s)
    requires (forall s :: s in da ==> Success(s)) <==> forall s :: s in db ==> Success(s)
    ensures Resolve(cur, da) == Resolve(cur, db)
  {
    hide Failure, Success, Waiting;
  }

  ghost predicate AgreesBelow(g: Dag, rank: map<TaskId, nat>, a: States, b: States, k: nat) {
    forall t :: t in g && t in rank && rank[t] < k ==> SameState(StateOf(a, t), StateOf(b, t))
  }

  lemma AgreeingDeps(g: Dag, rank: map<TaskId, nat>, a: States, b: States, t: TaskId)
    requires KnownRefs(g) && Ranking(g, rank) && t in g && AgreesBelow(g, rank, a, b, rank[t])
    ensures SameDeps(g, a, b, t)
  {
    assert RefsKnown(g, t);
  }

  lemma {:induction false} SettledUnique(g: Dag, rank: map<TaskId, nat>, initial: States, a: States, b: States, k: nat)
    requires KnownRefs(g) && Ranking(g, rank) && initial.Keys == g.Keys
    requires IsSettled(g, initial, a) && IsSettled(g, initial, b)
    ensures AgreesBelow(g, rank, a, b, k)
  {
    if k > 0 {
      SettledUnique(g, rank, initial, a, b, k - 1);
      forall t | t in g && rank[t] < k ensures SameState(StateOf(a, t), StateOf(b, t)) {
        AgreeingDeps(g, rank, a, b, t);
        ResolveSameDeps(g, initial[t], a, b, t);
        assert SettledAt(g, initial, a, t) && SettledAt(g, initial, b, t);
      }
    }
  }

  ghost function SettleAt(g: Dag, rank: map<TaskId, nat>, initial: States, t: TaskId): State
    requires KnownRefs(g) && Ranking(g, rank) && initial.Keys == g.Keys && t in g
    decreases rank[t]
  {
    var bl := Blockers(g, t);
    Resolve(initial[t], seq(|bl|, i requires 0 <= i < |bl| =>
      assert bl[i] in bl && RefsKnown(g, t);
      SettleAt(g, rank, initial, bl[i])))
  }

  lemma SettleUnfolds(g: Dag, rank: map<TaskId, nat>, initial: States, t: TaskId, fin: States)
    requires KnownRefs(g) && Ranking(g, rank) && initial.Keys == g.Keys && t in g
    requires fin == map x | x in g :: SettleAt(g, rank, initial, x)
    ensures SettleAt(g, rank, initial, t) == Resolve(initial[t], DepStates(fin, Blockers(g, t)))
  {
    hide Resolve;
    var bl := Blockers(g, t);
    assert RefsKnown(g, t);
    assert DepStates(fin, bl) == seq(|bl|, i requires 0 <= i < |bl| =>
      assert bl[i] in bl && RefsKnown(g, t);
      SettleAt(g, rank, initial, bl[i]));
  }

  lemma SettledExists(g: Dag, rank: map<TaskId, nat>, initial: States) returns (fin: States)
    requires KnownRefs(g) && Ranking(g, rank) && initial.Keys == g.Keys
    ensures IsSettled(g, initial, fin)
  {
    hide Resolve, SettleAt, KnownRefs, Ranking;
    fin := map t | t in g :: SettleAt(g, rank, initial, t);
    forall t | t in initial ensures SettledAt(g, initial, fin, t) {
      SettleUnfolds(g, rank, initial, t, fin);
    }
  }

  // ---- convergence ----

  /** What every visit keeps, relative to the states the passes started from. */
  ghost predicate Tracks(g: Dag, initial: States, st: States) {
    && st.Keys == initial.Keys
    && forall t :: t in st ==> TracksAt(g, initial, st, t)
  }

  ghost predicate TracksAt(g: Dag, initial: States, st: States, t: TaskId)
    requires t in st && t in initial
  {
    if !Waiting(initial[t]) then st[t] == initial[t]
    else
      && (Waiting(st[t]) || st[t] == Pending)
      && (st[t] == Pending ==> forall d :: d in Blockers(g, t) ==> Success(StateOf(initial, d)))
      && (Blockers(g, t) == [] ==> (initial[t] == SkippedUpstreamFailed <==> st[t] == SkippedUpstreamFailed))
  }

  lemma DepStatesMember(st: States, bl: seq<TaskId>, d: TaskId)
    requires d in bl
    ensures StateOf(st, d) in DepStates(st, bl)
  {
    var i :| 0 <= i < |bl| && bl[i] == d;
    assert DepStates(st, bl)[i] == StateOf(st, d);
  }

  /** A task becomes PENDING only when every dependency has succeeded. */
  lemma PendingNeedsSuccess(g: Dag, st: States, t: TaskId, d: TaskId)
    requires t in st && Waiting(st[t]) && Visit(g, st, t)[t] == Pending && d in Blockers(g, t)
    ensures Success(StateOf(st, d))
  {
    DepStatesMember(st, Blockers(g, t), d);
  }

  lemma VisitTracks(g: Dag, initial: States, st: States, t: TaskId)
    requires Tracks(g, initial, st) && t in st
    ensures Tracks(g, initial, Visit(g, st, t))
  {
    var next := Visit(g, st, t);
    assert TracksAt(g, initial, st, t);
    if Waiting(st[t]) && next[t] == Pending {
      forall d | d in Blockers(g, t) ensures Success(StateOf(initial, d)) {
        PendingNeedsSuccess(g, st, t, d);
        assert d in st && TracksAt(g, initial, st, d);
      }
    }
    forall u | u in next ensures TracksAt(g, initial, next, u) {
      assert TracksAt(g, initial, st, u);
      if u == t && Blockers(g, t) == [] { assert DepStates(st, Blockers(g, t)) == []; }
    }
  }

  /** From a tracked state a visit decides what it would have decided from the initial one. */
  lemma ResolveForgets(cur: State, first: State, ds: seq<State>)
    requires if !Waiting(first) then cur == first else Waiting(cur) || cur == Pending
    requires Waiting(first) && cur == Pending ==> forall s :: s in ds ==> Success(s)
    requires Waiting(first) && ds == [] ==> (first == SkippedUpstreamFailed <==> cur == SkippedUpstreamFailed)
    ensures SameState(Resolve(cur, ds), Resolve(first, ds))
  {}

  lemma TrackedSuccess(g: Dag, initial: States, st: States, t: TaskId)
    requires Tracks(g, initial, st) && t in st && Waiting(initial[t]) && st[t] == Pending
    ensures forall s :: s in DepStates(st, Blockers(g, t)) ==> Success(s)
  {
    var bl := Blockers(g, t);
    assert TracksAt(g, initial, st, t);
    forall i | 0 <= i < |bl| ensures Success(DepStates(st, bl)[i]) {
      assert bl[i] in bl;
      assert bl[i] in initial && TracksAt(g, initial, st, bl[i]);
    }
  }

  /** Visiting a task whose dependencies have settled settles it, whatever it looked like before. */
  lemma VisitSettles(g: Dag, initial: States, fin: States, st: States, t: TaskId)
    requires Tracks(g, initial, st) && IsSettled(g, initial, fin) && t in st
    requires SameDeps(g, st, fin, t)
    ensures SameState(Visit(g, st, t)[t], fin[t])
  {
    ResolveSameDeps(g, initial[t], st, fin, t);
    if Waiting(initial[t]) && st[t] == Pending { TrackedSuccess(g, initial, st, t); }
    assert TracksAt(g, initial, st, t) && SettledAt(g, initial, fin, t);
    assert DepStates(st, Blockers(g, t)) == [] <==> Blockers(g, t) == [];
    hide Resolve;
    ResolveForgets(st[t], initial[t], DepStates(st, Blockers(g, t)));
  }

  /** A graph the validator admits, a ranking of it, and the settled assignment of the initial states. */
  ghost predicate Setting(g: Dag, rank: map<TaskId, nat>, initial: States, fin: States) {
    KnownRefs(g) && Ranking(g, rank) && initial.Keys == g.Keys && IsSettled(g, initial, fin)
  }

  /** After some visits: the tasks of rank below k are settled, and so are the visited ones of rank k. */
  ghost predicate Progress(
    g: Dag, rank: map<TaskId, nat>, initial: States, fin: States, st: States, visited: seq<TaskId>, k: nat) {
    && Tracks(g, initial, st)
    && AgreesBelow(g, rank, st, fin, k)
    && forall t :: t in visited && t in rank && rank[t] <= k ==> SameState(StateOf(st, t), StateOf(fin, t))
  }

  lemma VisitProgress(
    g: Dag, rank: map<TaskId, nat>, initial: States, fin: States, st: States, visited: seq<TaskId>, t: TaskId, k: nat)
    requires Setting(g, rank, initial, fin) && t in st
    requires Progress(g, rank, initial, fin, st, visited, k)
    ensures Progress(g, rank, initial, fin, Visit(g, st, t), visited + [t], k)
  {
    VisitTracks(g, initial, st, t);
    VisitByRank(g, rank, initial, fin, st, visited, t, k);
    hide Resolve, DepStates, TracksAt, SameState, Setting, Tracks;
  }

  lemma VisitByRank(
    g: Dag, rank: map<TaskId, nat>, initial: States, fin: States, st: States, visited: seq<TaskId>, t: TaskId, k: nat)
    requires Setting(g, rank, initial, fin) && t in st
    requires Progress(g, rank, initial, fin, st, visited, k)
    ensures t in g && t in rank && t in fin
    ensures rank[t] <= k ==> SameState(Visit(g, st, t)[t], fin[t])
  {
    if rank[t] <= k {
      AgreeingDeps(g, rank, st, fin, t);
      VisitSettles(g, initial, fin, st, t);
    }
  }

  lemma {:induction false} PassProgress(
    g: Dag, rank: map<TaskId, nat>, initial: States, fin: States, st: States, order: seq<TaskId>, k: nat)
    requires Setting(g, rank, initial, fin) && Progress(g, rank, initial, fin, st, [], k)
    requires forall t :: t in order ==> t in st
    ensures Progress(g, rank, initial, fin, Pass(g, st, order), order, k)
  {
    hide *;
    PassUnfolds(g, st, order);
    if order != [] {
      PassProgress(g, rank, initial, fin, st, order[..|order| - 1], k);
      var front := order[..|order| - 1];
      VisitProgress(g, rank, initial, fin, Pass(g, st, front), front, order[|order| - 1], k);
    }
  }

  lemma PassUnfolds(g: Dag, st: States, order: seq<TaskId>)
    requires forall t :: t in order ==> t in st
    ensures order == [] ==> Pass(g, st, order) == st
    ensures order != [] ==>
      && order[|order| - 1] in st && (forall t :: t in order[..|order| - 1] ==> t in st)
      && order == order[..|order| - 1] + [order[|order| - 1]]
      && Pass(g, st, order) == Visit(g, Pass(g, st, order[..|order| - 1]), order[|order| - 1])
  {
    hide Visit;
    if order != [] { assert order[|order| - 1] in order; }
  }

  lemma TracksStart(g: Dag, initial: States)
    ensures Tracks(g, initial, initial)
  {}

  lemma ProgressRank(
    g: Dag, rank: map<TaskId, nat>, initial: States, fin: States, st: States, order: seq<TaskId>, k: nat)
    requires Progress(g, rank, initial, fin, st, order, k) && forall t :: t in g ==> t in order
    ensures Progress(g, rank, initial, fin, st, [], k + 1)
  {}

  function Passes(g: Dag, st: States, orders: seq<seq<TaskId>>): (r: States)
    requires forall o, t :: o in orders && t in o ==> t in st
    ensures r.Keys == st.Keys
  {
    if orders == [] then st
    else
      var last := orders[|orders| - 1];
      assert last in orders && forall o :: o in orders[..|orders| - 1] ==> o in orders;
      Pass(g, Passes(g, st, orders[..|orders| - 1]), last)
  }

  ghost predicate FullOrders(orders: seq<seq<TaskId>>, st: States) {
    forall i :: 0 <= i < |orders| ==> forall t :: t in orders[i] <==> t in st
  }

  lemma {:induction false} PassesProgress(
    g: Dag, rank: map<TaskId, nat>, initial: States, fin: States, orders: seq<seq<TaskId>>)
    requires Setting(g, rank, initial, fin) && FullOrders(orders, initial)
    ensures forall o, t :: o in orders && t in o ==> t in initial
    ensures Progress(g, rank, initial, fin, Passes(g, initial, orders), [], |orders|)
  {
    if orders == [] {
      TracksStart(g, initial);
    } else {
      var last, fewer := orders[|orders| - 1], orders[..|orders| - 1];
      PassesProgress(g, rank, initial, fin, fewer);
      PassProgress(g, rank, initial, fin, Passes(g, initial, fewer), last, |fewer|);
      ProgressRank(g, rank, initial, fin, Passes(g, initial, orders), last, |fewer|);
    }
  }

  /** What agrees with a settled assignment on every task is settled. */
  lemma SettledAlike(g: Dag, rank: map<TaskId, nat>, initial: States, settled: States, reached: States)
    requires KnownRefs(g) && Ranking(g, rank) && initial.Keys == g.Keys == reached.Keys
    requires IsSettled(g, initial, settled) && forall t :: t in g ==>
      SameState(StateOf(reached, t), StateOf(settled, t))
    ensures IsSettled(g, initial, reached)
  {
    hide Resolve, KnownRefs, Ranking;
    forall t | t in initial ensures SettledAt(g, initial, reached, t) {
      AgreeingDeps(g, rank, reached, settled, t);
      ResolveSameDeps(g, initial[t], reached, settled, t);
      assert SettledAt(g, initial, settled, t);
    }
  }

  /**
   As many passes as there are tasks reach the settled assignment, whatever order each of them used;
   and that assignment is the only one.
   */
  lemma ActivationConverges(g: Dag, initial: States, orders: seq<seq<TaskId>>)
    requires KnownRefs(g) && Acyclic(g) && initial.Keys == g.Keys
    requires FullOrders(orders, initial) && |orders| >= |g|
    ensures forall o, t :: o in orders && t in o ==> t in initial
    ensures IsSettled(g, initial, Passes(g, initial, orders))
    ensures forall fin :: IsSettled(g, initial, fin) ==>
      forall t :: t in g ==> SameState(Passes(g, initial, orders)[t], fin[t])
  {
    hide Acyclic, Resolve, KnownRefs, Passes, SameState, FullOrders;
    var rank := AcyclicRanking(g, g.Keys);
    assert Ranking(g, rank);
    var settled := SettledExists(g, rank, initial);
    PassesProgress(g, rank, initial, settled, orders);
    var reached := Passes(g, initial, orders);
    SettledAlike(g, rank, initial, settled, reached);
    forall fin | IsSettled(g, initial, fin) ensures forall t :: t in g ==> SameState(reached[t], fin[t]) {
      SettledUnique(g, rank, initial, reached, fin, |g|);
      forall t | t in g ensures SameState(reached[t], fin[t]) {
        assert SameState(StateOf(reached, t), StateOf(fin, t));
      }
    }
  }
}
