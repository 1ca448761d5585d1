/**
 Dependency graphs as the whole framework stores them: every task with its `depends_on` list.
 A path runs from a task towards what it depends on.
 */
module Graph {
  import opened Texts

  type TaskId = Text
  type Dag = map<TaskId, seq<TaskId>>

  function Deps(g: Dag, v: TaskId): seq<TaskId> {
    if v in g then g[v] else []
  }

  /** The dependency names that are not empty. */
  function NamedOnly(ds: seq<TaskId>): (r: seq<TaskId>)
    ensures forall d :: d in r <==> d in ds && d != []
  {
    if ds == [] then []
    else
      var last := ds[|ds| - 1];
      assert forall d :: d in ds <==> d in ds[..|ds| - 1] || d == last;
      NamedOnly(ds[..|ds| - 1]) + if last == [] then [] else [last]
  }

  lemma NamedOnlyId(ds: seq<TaskId>)
    requires [] !in ds
    ensures NamedOnly(ds) == ds
  {
    if ds != [] {
      assert ds == ds[..|ds| - 1] + [ds[|ds| - 1]];
      NamedOnlyId(ds[..|ds| - 1]);
    }
  }

  ghost predicate Chain(g: Dag, p: seq<TaskId>) {
    forall i :: 0 <= i < |p| - 1 ==> p[i + 1] in Deps(g, p[i])
  }

  ghost predicate PathBetween(g: Dag, p: seq<TaskId>, x: TaskId, y: TaskId) {
    |p| >= 1 && Chain(g, p) && p[0] == x && p[|p| - 1] == y
  }

  /** x is y, or depends on it directly or transitively. */
  ghost predicate Reaches(g: Dag, x: TaskId, y: TaskId) {
    exists p :: PathBetween(g, p, x, y)
  }

  ghost predicate OnCycle(g: Dag, x: TaskId) {
    exists p :: |p| >= 2 && PathBetween(g, p, x, x)
  }

  ghost predicate Acyclic(g: Dag) {
    forall x :: !OnCycle(g, x)
  }

  /** Every dependency names a task of the graph. */
  ghost predicate KnownRefs(g: Dag) {
    forall v :: v in g ==> RefsKnown(g, v)
  }

  ghost predicate RefsKnown(g: Dag, v: TaskId)
    requires v in g
  {
    forall d :: d in g[v] ==> d != [] && d in g
  }

  ghost predicate Ranking(g: Dag, rank: map<TaskId, nat>) {
    && rank.Keys == g.Keys
    && forall v, d :: v in g && d in g[v] && d in g ==> rank[d] < rank[v]
  }

  /** Every element of order comes after all of its own dependencies. */
  ghost predicate DepsFirst(g: Dag, order: seq<TaskId>) {
    forall i, d :: 0 <= i < |order| && d in Deps(g, order[i]) ==> d in order[..i]
  }

  // ---- paths ----

  lemma ReachesSelf(g: Dag, x: TaskId)
    ensures Reaches(g, x, x)
  {
    assert PathBetween(g, [x], x, x);
  }

  lemma ReachesStep(g: Dag, x: TaskId, d: TaskId, y: TaskId)
    requires d in Deps(g, x) && Reaches(g, d, y)
    ensures Reaches(g, x, y)
  {
    var p :| PathBetween(g, p, d, y);
    assert PathBetween(g, [x] + p, x, y);
  }

  lemma ReachesSnoc(g: Dag, x: TaskId, y: TaskId, d: TaskId)
    requires Reaches(g, x, y) && d in Deps(g, y)
    ensures Reaches(g, x, d)
  {
    var p :| PathBetween(g, p, x, y);
    assert PathBetween(g, p + [d], x, d);
  }

  lemma ReachesBack(g: Dag, x: TaskId, d: TaskId)
    requires d in Deps(g, x) && Reaches(g, d, x)
    ensures OnCycle(g, x)
  {
    var p :| PathBetween(g, p, d, x);
    assert PathBetween(g, [x] + p, x, x);
  }

  // ---- rankings and cycles ----

  lemma RankFallsAlongPath(g: Dag, rank: map<TaskId, nat>, p: seq<TaskId>)
    requires Ranking(g, rank) && Chain(g, p) && |p| >= 2 && p[|p| - 1] in g
    ensures p[0] in g && rank[p[|p| - 1]] < rank[p[0]]
  {
    if |p| > 2 {
      assert forall i :: 0 <= i < |p[1..]| ==> p[1..][i] == p[i + 1];
      RankFallsAlongPath(g, rank, p[1..]);
    }
    assert p[1] in Deps(g, p[0]);
  }

  lemma RankingAcyclic(g: Dag, rank: map<TaskId, nat>)
    requires Ranking(g, rank)
    ensures Acyclic(g)
  {
    forall x ensures !OnCycle(g, x) {
      if OnCycle(g, x) {
        var p :| |p| >= 2 && PathBetween(g, p, x, x);
        assert p[1] in Deps(g, p[0]);
        RankFallsAlongPath(g, rank, p);
      }
    }
  }

  ghost predicate HasDepIn(g: Dag, s: set<TaskId>, v: TaskId) {
    exists d :: d in Deps(g, v) && d in s
  }

  /** Inside s there is always a next dependency to go to. */
  ghost predicate Endless(g: Dag, s: set<TaskId>) {
    forall v {:trigger HasDepIn(g, s, v)} :: v in s ==> HasDepIn(g, s, v)
  }

  ghost predicate Within(p: seq<TaskId>, s: set<TaskId>) {
    forall i :: 0 <= i < |p| ==> p[i] in s
  }

  /** A walk that can always go on inside a finite set runs into a cycle. */
  lemma WalkMeetsCycle(g: Dag, s: set<TaskId>, unseen: set<TaskId>, p: seq<TaskId>) returns (x: TaskId)
    requires p != [] && Chain(g, p) && Within(p, s)
    requires forall v :: v in s ==> v in unseen || v in p
    requires Endless(g, s)
    ensures x in s && OnCycle(g, x) && Reaches(g, p[0], x)
    decreases unseen
  {
    var last := p[|p| - 1];
    assert HasDepIn(g, s, last);
    var d :| d in Deps(g, last) && d in s;
    var q := p + [d];
    assert Chain(g, q);
    if d in p {
      var i :| 0 <= i < |p| && p[i] == d;
      x := d;
      assert PathBetween(g, q[i..], d, d);
      assert PathBetween(g, p[..i + 1], p[0], d);
    } else {
      x := WalkMeetsCycle(g, s, unseen - {d}, q);
    }
  }

  /** On an acyclic graph every nonempty set of tasks has a member with no dependency inside it. */
  lemma AcyclicSource(g: Dag, s: set<TaskId>) returns (v: TaskId)
    requires Acyclic(g) && s != {}
    ensures v in s && !HasDepIn(g, s, v)
  {
    if Endless(g, s) {
      var start :| start in s;
      var x := WalkMeetsCycle(g, s, s, [start]);
      assert false;
    } else {
      v :| v in s && !HasDepIn(g, s, v);
    }
  }

  /** Acyclic graphs are exactly the ones that can be ranked; fewer ranks than tasks are needed. */
  lemma AcyclicRanking(g: Dag, s: set<TaskId>) returns (rank: map<TaskId, nat>)
    requires Acyclic(g) && s <= g.Keys
    ensures rank.Keys == s
    ensures forall v :: v in s ==> rank[v] < |s|
    ensures forall v, d :: v in s && d in g[v] && d in s ==> rank[d] < rank[v]
    decreases |s|
  {
    if s == {} {
      rank := map[];
    } else {
      var v := AcyclicSource(g, s);
      var rest := AcyclicRanking(g, s - {v});
      rank := map u | u in s :: if u == v then 0 else rest[u] + 1;
      assert |s - {v}| == |s| - 1;
    }
  }

  // ---- dependency-first orders ----

  lemma DepsFirstSnoc(g: Dag, order: seq<TaskId>, v: TaskId)
    requires DepsFirst(g, order) && forall d :: d in Deps(g, v) ==> d in order
    ensures DepsFirst(g, order + [v])
  {
    var longer := order + [v];
    forall i, d | 0 <= i < |longer| && d in Deps(g, longer[i]) ensures d in longer[..i] {
      assert longer[..i] == if i < |order| then order[..i] else order;
    }
  }

  lemma DepsFirstPath(g: Dag, order: seq<TaskId>, i: nat, p: seq<TaskId>)
    requires DepsFirst(g, order) && i < |order|
    requires |p| >= 2 && Chain(g, p) && p[0] == order[i]
    ensures p[|p| - 1] in order[..i]
    decreases |p|
  {
    assert p[1] in Deps(g, p[0]);
    var j :| 0 <= j < i && order[j] == p[1];
    if |p| > 2 {
      assert forall k :: 0 <= k < |p[1..]| ==> p[1..][k] == p[k + 1];
      DepsFirstPath(g, order, j, p[1..]);
    }
  }

  lemma DepsFirstNoCycle(g: Dag, order: seq<TaskId>, i: nat)
    requires DepsFirst(g, order) && i < |order|
    ensures !OnCycle(g, order[i])
  {
    if OnCycle(g, order[i]) {
      var p :| |p| >= 2 && PathBetween(g, p, order[i], order[i]);
      DepsFirstPath(g, order, i, p);
      var j :| 0 <= j < i && order[j] == order[i];
      DepsFirstNoCycle(g, order, j);
    }
  }

  /** Nothing in a dependency-first order leads to a cycle. */
  lemma DepsFirstReaches(g: Dag, order: seq<TaskId>, x: TaskId, y: TaskId)
    requires DepsFirst(g, order) && x in order && Reaches(g, x, y)
    ensures y in order && !OnCycle(g, y)
  {
    var i :| 0 <= i < |order| && order[i] == x;
    var p :| PathBetween(g, p, x, y);
    if |p| >= 2 { DepsFirstPath(g, order, i, p); }
    var j :| 0 <= j < |order| && order[j] == y;
    DepsFirstNoCycle(g, order, j);
  }
}
