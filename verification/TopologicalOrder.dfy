/** Kahn's algorithm as run_manager._topological_order runs it: duplicate edges are counted, empty names are dropped. */
module TopologicalOrder {
  import opened Sequences
  import opened Texts
  import opened Graph

  /** The graph the algorithm sees. */
  function Named(g: Dag): Dag {
    map v | v in g :: NamedOnly(g[v])
  }

  ghost predicate IsNode(g: Dag, v: TaskId) {
    v in g || exists w :: w in g && v in g[w]
  }

  ghost predicate LeadsToCycle(g: Dag, v: TaskId) {
    exists x :: Reaches(g, v, x) && OnCycle(g, x)
  }

  /** How many entries of ds are not done yet. */
  ghost function Left(ds: seq<TaskId>, done: seq<TaskId>): nat {
    if ds == [] then 0 else Left(ds[1..], done) + if ds[0] in done then 0 else 1
  }

  lemma LeftZero(ds: seq<TaskId>, done: seq<TaskId>)
    ensures Left(ds, done) == 0 <==> forall d :: d in ds ==> d in done
  {
    if ds != [] {
      LeftZero(ds[1..], done);
      assert forall d :: d in ds <==> d == ds[0] || d in ds[1..];
    }
  }

  lemma LeftAll(ds: seq<TaskId>)
    ensures Left(ds, []) == |ds|
  {}

  lemma LeftAfter(ds: seq<TaskId>, done: seq<TaskId>, node: TaskId)
    requires node !in done
    ensures Left(ds, done + [node]) == Left(ds, done) - multiset(ds)[node]
  {
    if ds != [] {
      LeftAfter(ds[1..], done, node);
      assert multiset(ds) == multiset{ds[0]} + multiset(ds[1..]) by { assert ds == [ds[0]] + ds[1..]; }
    }
  }

  ghost predicate NodesAre(g: Dag, keys: set<TaskId>) {
    forall v :: v in keys <==> IsNode(g, v)
  }

  ghost predicate DegreesAre(g: Dag, inDegree: map<TaskId, int>) {
    forall v :: v in inDegree ==> inDegree[v] == |Deps(g, v)|
  }

  ghost predicate ReverseEdges(g: Dag, adj: map<TaskId, seq<TaskId>>) {
    forall u, v :: u in adj ==> multiset(adj[u])[v] == multiset(Deps(g, v))[u]
  }

  /** The two tables the algorithm builds describe g. */
  ghost predicate Tables(g: Dag, inDegree: map<TaskId, int>, adj: map<TaskId, seq<TaskId>>) {
    inDegree.Keys == adj.Keys && NodesAre(g, inDegree.Keys) && DegreesAre(g, inDegree) && ReverseEdges(g, adj)
  }

  function Default<V>(m: map<TaskId, V>, k: TaskId, v: V): map<TaskId, V> {
    if k in m then m else m[k := v]
  }

  lemma AddTask(g: Dag, inDegree: map<TaskId, int>, adj: map<TaskId, seq<TaskId>>, task: TaskId)
    requires Tables(g, inDegree, adj) && task !in g
    ensures Tables(g[task := []], Default(inDegree, task, 0), Default(adj, task, []))
  {
    hide NodesAre, DegreesAre, ReverseEdges, Deps;
    AddTaskNodes(g, inDegree.Keys, task);
    NewRow(g, inDegree, task);
    NewColumn(g, adj, task);
    NoDepsSame(g, Default(adj, task, []), task);
    assert Default(inDegree, task, 0).Keys == inDegree.Keys + {task} == Default(adj, task, []).Keys;
  }

  lemma NewRow(g: Dag, inDegree: map<TaskId, int>, task: TaskId)
    requires DegreesAre(g, inDegree) && task !in g
    ensures DegreesAre(g[task := []], Default(inDegree, task, 0))
  {}

  lemma NoDepsSame(g: Dag, adj: map<TaskId, seq<TaskId>>, task: TaskId)
    requires ReverseEdges(g, adj) && task !in g
    ensures ReverseEdges(g[task := []], adj)
  {
    hide Deps;
    DepsSame(g, task);
    var h := g[task := []];
    forall u, v | u in adj ensures multiset(adj[u])[v] == multiset(Deps(h, v))[u] {
      assert Deps(h, v) == Deps(g, v);
    }
  }

  lemma DepsSame(g: Dag, task: TaskId)
    requires task !in g
    ensures forall v :: Deps(g[task := []], v) == Deps(g, v)
  {}

  lemma AddTaskNodes(g: Dag, keys: set<TaskId>, task: TaskId)
    requires NodesAre(g, keys) && task !in g
    ensures NodesAre(g[task := []], keys + {task})
  {
    var h := g[task := []];
    forall v ensures IsNode(h, v) <==> v in keys + {task} {
      assert v in keys <==> IsNode(g, v);
      if w :| w in g && v in g[w] { assert w in h && v in h[w]; }
      if w :| w in h && v in h[w] { assert w in g && v in g[w]; }
    }
  }

  lemma NewColumn(g: Dag, adj: map<TaskId, seq<TaskId>>, u: TaskId)
    requires NodesAre(g, adj.Keys) && ReverseEdges(g, adj)
    ensures ReverseEdges(g, Default(adj, u, []))
  {
    if u !in adj {
      assert !IsNode(g, u);
      forall v ensures u !in Deps(g, v) {}
    }
  }

  lemma AddEdge(g: Dag, inDegree: map<TaskId, int>, adj: map<TaskId, seq<TaskId>>, task: TaskId, u: TaskId)
    requires Tables(g, inDegree, adj) && task in g
    ensures task in inDegree && u in Default(adj, u, [])
    ensures var grown := Default(adj, u, []);
      Tables(g[task := g[task] + [u]], Default(inDegree[task := inDegree[task] + 1], u, 0),
             grown[u := grown[u] + [task]])
  {
    hide DegreesAre, ReverseEdges;
    assert IsNode(g, task);
    AddEdgeNodes(g, inDegree.Keys, task, u);
    AddEdgeDegrees(g, inDegree, task, u);
    NewColumn(g, adj, u);
    AddEdgeReverse(g, Default(adj, u, []), task, u);
    hide *;
    assert Default(inDegree[task := inDegree[task] + 1], u, 0).Keys == inDegree.Keys + {u} by {
      DefaultKeys(inDegree[task := inDegree[task] + 1], u, 0);
    }
    assert Default(adj, u, []).Keys == adj.Keys + {u} by { DefaultKeys(adj, u, []); }
  }

  lemma DefaultKeys<V>(m: map<TaskId, V>, k: TaskId, v: V)
    ensures Default(m, k, v).Keys == m.Keys + {k}
  {}

  lemma AddEdgeDegrees(g: Dag, inDegree: map<TaskId, int>, task: TaskId, u: TaskId)
    requires NodesAre(g, inDegree.Keys) && DegreesAre(g, inDegree) && task in g && task in inDegree
    ensures DegreesAre(g[task := g[task] + [u]], Default(inDegree[task := inDegree[task] + 1], u, 0))
  {
    assert u in inDegree <==> IsNode(g, u);
  }

  lemma AddEdgeNodes(g: Dag, keys: set<TaskId>, task: TaskId, u: TaskId)
    requires NodesAre(g, keys) && task in g
    ensures NodesAre(g[task := g[task] + [u]], keys + {u})
  {
    var h := g[task := g[task] + [u]];
    forall v ensures IsNode(h, v) <==> v in keys + {u} {
      assert v in keys <==> IsNode(g, v);
      if w :| w in g && v in g[w] { assert w in h && v in h[w]; }
      assert u in h[task];
      if w :| w in h && v in h[w] { assert v == u || (w in g && v in g[w]); }
    }
  }

  lemma AddEdgeReverse(g: Dag, adj: map<TaskId, seq<TaskId>>, task: TaskId, u: TaskId)
    requires ReverseEdges(g, adj) && task in g && u in adj
    ensures ReverseEdges(g[task := g[task] + [u]], adj[u := adj[u] + [task]])
  {
    var h := g[task := g[task] + [u]];
    var adj' := adj[u := adj[u] + [task]];
    forall x, v | x in adj' ensures multiset(adj'[x])[v] == multiset(Deps(h, v))[x] {
      assert multiset(adj[x])[v] == multiset(Deps(g, v))[x];
    }
  }

  lemma EmptyTables()
    ensures Tables(map[], map[], map[])
  {}

  lemma NamedOnlySnoc(ds: seq<TaskId>, d: TaskId)
    ensures NamedOnly(ds + [d]) == if d == [] then NamedOnly(ds) else NamedOnly(ds) + [d]
  {
    assert (ds + [d])[..|ds|] == ds;
  }

  method AddEdges(
    ghost g: Dag, inDegree: map<TaskId, int>, adj: map<TaskId, seq<TaskId>>, task: TaskId, upstream: seq<TaskId>)
    returns (inDegree': map<TaskId, int>, adj': map<TaskId, seq<TaskId>>)
    requires Tables(g, inDegree, adj) && task in g && g[task] == []
    ensures Tables(g[task := NamedOnly(upstream)], inDegree', adj')
  {
    hide Tables, Default;
    inDegree', adj' := inDegree, adj;
    ghost var built := g;
    for j := 0 to |upstream|
      invariant built == g[task := NamedOnly(upstream[..j])]
      invariant Tables(built, inDegree', adj')
    {
      var u := upstream[j];
      assert upstream[..j + 1] == upstream[..j] + [u];
      NamedOnlySnoc(upstream[..j], u);
      if u != [] {
        AddEdge(built, inDegree', adj', task, u);
        inDegree' := Default(inDegree'[task := inDegree'[task] + 1], u, 0);
        adj' := Default(adj', u, []);
        adj' := adj'[u := adj'[u] + [task]];
        built := built[task := built[task] + [u]];
      }
    }
    assert upstream[..|upstream|] == upstream;
  }

  method BuildTables(deps: Dag, order: seq<TaskId>)
    returns (inDegree: map<TaskId, int>, adj: map<TaskId, seq<TaskId>>)
    requires Distinct(order) && forall t :: t in order <==> t in deps
    ensures Tables(Named(deps), inDegree, adj)
  {
    hide Tables, Default, NamedOnly;
    inDegree, adj := map[], map[];
    EmptyTables();
    ghost var built: Dag := map[];
    for i := 0 to |order|
      invariant built == map v | v in order[..i] :: NamedOnly(deps[v])
      invariant Tables(built, inDegree, adj)
    {
      var task := order[i];
      AddTask(built, inDegree, adj, task);
      built := built[task := []];
      inDegree, adj := AddEdges(built, Default(inDegree, task, 0), Default(adj, task, []), task, deps[task]);
      built := built[task := NamedOnly(deps[task])];
    }
    assert built == Named(deps);
  }

  /** The queue holds, once each, the unlisted tasks that wait for nothing. */
  ghost predicate Queued(inDegree: map<TaskId, int>, queue: seq<TaskId>, result: seq<TaskId>) {
    && Distinct(queue)
    && (forall v :: v in queue ==> v !in result)
    && (forall v :: (v in inDegree && inDegree[v] == 0) <==> v in queue || v in result)
  }

  /** The in-degree table counts the unlisted dependencies. */
  ghost predicate Countdown(g: Dag, inDegree: map<TaskId, int>, result: seq<TaskId>) {
    forall v {:trigger Left(Deps(g, v), result)} :: v in inDegree ==> inDegree[v] == Left(Deps(g, v), result)
  }

  lemma PopFront(g: Dag, inDegree: map<TaskId, int>, queue: seq<TaskId>, result: seq<TaskId>)
    requires Queued(inDegree, queue, result) && queue != []
    requires Countdown(g, inDegree, result)
    requires Distinct(result) && DepsFirst(g, result)
    ensures queue[0] in inDegree && queue[0] !in result
    ensures Queued(inDegree, queue[1..], result + [queue[0]])
    ensures Distinct(result + [queue[0]]) && DepsFirst(g, result + [queue[0]])
  {
    var node := queue[0];
    assert node in queue;
    LeftZero(Deps(g, node), result);
    DepsFirstSnoc(g, result, node);
    assert forall v :: v in queue <==> v == node || v in queue[1..];
  }

  ghost function Lowered(inDegree: map<TaskId, int>, amount: multiset<TaskId>): map<TaskId, int> {
    map v | v in inDegree :: inDegree[v] - amount[v]
  }

  /** Lowering the count of every neighbour keeps the table right after node is listed. */
  lemma ListingLowers(
    g: Dag, inDegree: map<TaskId, int>, adj: map<TaskId, seq<TaskId>>, result: seq<TaskId>, node: TaskId)
    requires Countdown(g, inDegree, result)
    requires ReverseEdges(g, adj) && adj.Keys == inDegree.Keys
    requires node in adj && node !in result
    ensures Countdown(g, Lowered(inDegree, multiset(adj[node])), result + [node])
    ensures forall v :: v in inDegree ==> multiset(adj[node])[v] <= inDegree[v]
  {
    forall v | v in inDegree
      ensures inDegree[v] == Left(Deps(g, v), result + [node]) + multiset(adj[node])[v]
    {
      assert inDegree[v] == Left(Deps(g, v), result);
      LeftAfter(Deps(g, v), result, node);
    }
  }

  lemma QueuedDecrement(inDegree: map<TaskId, int>, queue: seq<TaskId>, result: seq<TaskId>, v: TaskId)
    requires Queued(inDegree, queue, result) && v in inDegree && inDegree[v] > 0
    ensures var next := inDegree[v := inDegree[v] - 1];
      Queued(next, if next[v] == 0 then queue + [v] else queue, result)
  {}

  /** The body of the loop over the neighbours of the task just listed. */
  method Release(inDegree: map<TaskId, int>, queue: seq<TaskId>, ghost result: seq<TaskId>, neighbors: seq<TaskId>)
    returns (inDegree': map<TaskId, int>, queue': seq<TaskId>)
    requires Queued(inDegree, queue, result)
    requires forall v :: v in neighbors ==> v in inDegree
    requires forall v :: v in inDegree ==> multiset(neighbors)[v] <= inDegree[v]
    ensures inDegree' == Lowered(inDegree, multiset(neighbors))
    ensures Queued(inDegree', queue', result)
  {
    hide Queued, Lowered;
    inDegree', queue' := inDegree, queue;
    LoweredNone(inDegree);
    for j := 0 to |neighbors|
      invariant inDegree' == Lowered(inDegree, multiset(neighbors[..j]))
      invariant Queued(inDegree', queue', result)
    {
      var neighbor := neighbors[j];
      LoweredNext(inDegree, neighbors, j);
      QueuedDecrement(inDegree', queue', result, neighbor);
      inDegree' := inDegree'[neighbor := inDegree'[neighbor] - 1];
      if inDegree'[neighbor] == 0 {
        queue' := queue' + [neighbor];
      }
    }
    assert neighbors[..|neighbors|] == neighbors;
  }

  lemma LoweredNone(inDegree: map<TaskId, int>)
    ensures Lowered(inDegree, multiset([])) == inDegree
  {}

  lemma LoweredNext(inDegree: map<TaskId, int>, s: seq<TaskId>, j: nat)
    requires j < |s| && s[j] in inDegree && multiset(s)[s[j]] <= inDegree[s[j]]
    ensures var now, v := Lowered(inDegree, multiset(s[..j])), s[j];
      && v in now && now[v] > 0
      && Lowered(inDegree, multiset(s[..j + 1])) == now[v := now[v] - 1]
  {
    assert s[..j + 1] == s[..j] + [s[j]];
    assert s == s[..j + 1] + s[j + 1..];
  }

  ghost predicate Running(
    g: Dag, inDegree: map<TaskId, int>, adj: map<TaskId, seq<TaskId>>, queue: seq<TaskId>, result: seq<TaskId>) {
    && adj.Keys == inDegree.Keys && NodesAre(g, inDegree.Keys) && ReverseEdges(g, adj)
    && Queued(inDegree, queue, result) && Countdown(g, inDegree, result)
    && Distinct(result) && DepsFirst(g, result)
  }

  method ListNext(
    ghost g: Dag, inDegree: map<TaskId, int>, adj: map<TaskId, seq<TaskId>>, queue: seq<TaskId>,
    ghost result: seq<TaskId>)
    returns (inDegree': map<TaskId, int>, queue': seq<TaskId>)
    requires Running(g, inDegree, adj, queue, result) && queue != []
    ensures queue[0] in adj && queue[0] !in result
    ensures Running(g, inDegree', adj, queue', result + [queue[0]])
  {
    hide NodesAre, ReverseEdges, Countdown, Queued, DepsFirst, Distinct;
    var node := queue[0];
    PopFront(g, inDegree, queue, result);
    ListingLowers(g, inDegree, adj, result, node);
    NeighborsAreNodes(g, adj, node);
    inDegree', queue' := Release(inDegree, queue[1..], result + [node], Sorted(adj[node]));
  }

  /**
   Lists every task that does not lead to a cycle, once, after its dependencies; and no other task.
   With known references it is complete exactly on the graphs the depth-first check accepts.
   */
  method TopologicalOrder(deps: Dag, order: seq<TaskId>) returns (result: seq<TaskId>)
    requires Distinct(order) && forall t :: t in order <==> t in deps
    ensures Distinct(result) && DepsFirst(Named(deps), result)
    ensures forall v :: v in result <==> IsNode(Named(deps), v) && !LeadsToCycle(Named(deps), v)
    ensures KnownRefs(deps) ==> ((forall v :: v in deps <==> v in result) <==> Acyclic(deps))
  {
    var inDegree, adj := BuildTables(deps, order);
    var queue := SortedSet(set n | n in inDegree && inDegree[n] == 0);
    result := [];
    InitialQueue(Named(deps), inDegree, queue);
    ghost var unlisted := adj.Keys;
    hide *;
    while queue != []
      invariant Running(Named(deps), inDegree, adj, queue, result)
      invariant forall v :: v in adj && v !in result ==> v in unlisted
      decreases unlisted
    {
      var node := queue[0];
      inDegree, queue := ListNext(Named(deps), inDegree, adj, queue, result);
      result := result + [node];
      unlisted := unlisted - {node};
    }
    Finished(deps, inDegree, adj, result);
  }

  lemma InitialQueue(g: Dag, inDegree: map<TaskId, int>, queue: seq<TaskId>)
    requires DegreesAre(g, inDegree) && Increasing(queue)
    requires forall v :: v in queue <==> v in inDegree && inDegree[v] == 0
    ensures Queued(inDegree, queue, []) && Countdown(g, inDegree, []) && DepsFirst(g, [])
  {
    IncreasingDistinct(queue);
    forall v | v in inDegree ensures inDegree[v] == Left(Deps(g, v), []) { LeftAll(Deps(g, v)); }
    assert Countdown(g, inDegree, []);
  }

  lemma NeighborsAreNodes(g: Dag, adj: map<TaskId, seq<TaskId>>, node: TaskId)
    requires NodesAre(g, adj.Keys) && ReverseEdges(g, adj) && node in adj
    ensures forall v :: v in Sorted(adj[node]) ==> v in adj
    ensures multiset(Sorted(adj[node])) == multiset(adj[node])
  {
    forall v | v in Sorted(adj[node]) ensures v in adj {
      assert v in multiset(Sorted(adj[node]));
      assert multiset(Deps(g, v))[node] > 0;
      assert IsNode(g, v);
    }
  }

  lemma Finished(deps: Dag, inDegree: map<TaskId, int>, adj: map<TaskId, seq<TaskId>>, result: seq<TaskId>)
    requires Running(Named(deps), inDegree, adj, [], result)
    ensures Distinct(result) && DepsFirst(Named(deps), result)
    ensures forall v :: v in result <==> IsNode(Named(deps), v) && !LeadsToCycle(Named(deps), v)
    ensures KnownRefs(deps) ==> ((forall v :: v in deps <==> v in result) <==> Acyclic(deps))
  {
    var g := Named(deps);
    forall v ensures v in result <==> IsNode(g, v) && !LeadsToCycle(g, v) {
      if v in inDegree { ListedIffNoCycleAhead(g, inDegree.Keys, result, v); }
    }
    if KnownRefs(deps) { CompleteIffAcyclic(deps, result); }
  }

  lemma IncreasingDistinct(s: seq<TaskId>)
    requires Increasing(s)
    ensures Distinct(s)
  {
    forall i, j | 0 <= i < j < |s| ensures s[i] != s[j] { LessIrreflexive(s[i]); }
  }

  lemma ListedIffNoCycleAhead(g: Dag, nodes: set<TaskId>, result: seq<TaskId>, v: TaskId)
    requires NodesAre(g, nodes)
    requires DepsFirst(g, result)
    requires forall w :: w in nodes && w !in result ==> Left(Deps(g, w), result) != 0
    requires v in nodes
    ensures v in result <==> !LeadsToCycle(g, v)
  {
    if v in result {
      forall x | Reaches(g, v, x) ensures !OnCycle(g, x) { DepsFirstReaches(g, result, v, x); }
    } else {
      var omitted := set w | w in nodes && w !in result;
      forall w | w in omitted ensures HasDepIn(g, omitted, w) {
        LeftZero(Deps(g, w), result);
        var d :| d in Deps(g, w) && d !in result;
        assert IsNode(g, d);
      }
      var x := WalkMeetsCycle(g, omitted, omitted, [v]);
    }
  }

  lemma CompleteIffAcyclic(g: Dag, result: seq<TaskId>)
    requires KnownRefs(g)
    requires forall v :: v in result <==> IsNode(Named(g), v) && !LeadsToCycle(Named(g), v)
    ensures (forall v :: v in g <==> v in result) <==> Acyclic(g)
  {
    forall v | v in g ensures NamedOnly(g[v]) == g[v] {
      assert RefsKnown(g, v);
      NamedOnlyId(g[v]);
    }
    assert Named(g) == g;
    forall v ensures IsNode(g, v) <==> v in g {
      if w :| w in g && v in g[w] { assert RefsKnown(g, w); }
    }
    if forall v :: v in g <==> v in result {
      forall x ensures !OnCycle(g, x) {
        if OnCycle(g, x) {
          var p :| |p| >= 2 && PathBetween(g, p, x, x);
          assert p[1] in Deps(g, p[0]);
          ReachesSelf(g, x);
          assert LeadsToCycle(g, x);
        }
      }
    }
  }
}
