/** The depth-first cycle check that admits a graph: workflow_skills._validate_dag and JobFlowService._manifest. */
module DagValidation {
  import opened Graph

  datatype Verdict =
    | Accepted
    | UnknownDependency(task: TaskId, dependency: TaskId)
    | CycleDetected

  /** The nested `visit` closure with the two sets it mutates. */
  class DagVisitor {
    const deps: Dag
    var visiting: set<TaskId>
    var visited: set<TaskId>
    ghost var stack: seq<TaskId>     // the visiting tasks, outermost call first
    ghost var finished: seq<TaskId>  // the visited tasks in the order they were finished

    ghost predicate Valid()
      reads this
    {
      && KnownRefs(deps)
      && visiting <= deps.Keys
      && (forall t :: t in stack <==> t in visiting)
      && Chain(deps, stack)
      && (forall t :: t in finished <==> t in visited)
      && DepsFirst(deps, finished)
    }

    constructor (deps: Dag)
      requires KnownRefs(deps)
      ensures Valid() && this.deps == deps && visiting == {} && visited == {} && stack == []
    {
      this.deps := deps;
      visiting, visited := {}, {};
      stack, finished := [], [];
    }

    method Visit(task: TaskId) returns (ok: bool)
      requires Valid() && task in deps
      requires stack != [] ==> task in Deps(deps, stack[|stack| - 1])
      modifies this
      ensures ok ==> Valid() && stack == old(stack) && visiting == old(visiting)
      ensures ok ==> visited >= old(visited) + {task}
      ensures !ok ==> !Acyclic(deps)
      decreases deps.Keys - visiting
    {
      hide Acyclic, DepsFirst, KnownRefs;
      if task in visiting {
        CycleFound(deps, stack, task);
        return false;
      }
      if task in visited {
        return true;
      }
      visiting := visiting + {task};
      stack := stack + [task];
      var i := 0;
      TaskRefs(deps, task);
      while i < |deps[task]|
        invariant 0 <= i <= |deps[task]|
        invariant Valid()
        invariant stack == old(stack) + [task] && visiting == old(visiting) + {task}
        invariant old(visited) <= visited
        invariant forall k :: 0 <= k < i ==> deps[task][k] in visited
      {
        var inner := Visit(deps[task][i]);
        if !inner {
          return false;
        }
        i := i + 1;
      }
      visiting := visiting - {task};
      stack := old(stack);
      visited := visited + {task};
      DepsFirstSnoc(deps, finished, task);
      finished := finished + [task];
      assert visiting == old(visiting);
      return true;
    }
  }

  lemma CycleFound(g: Dag, stack: seq<TaskId>, task: TaskId)
    requires Chain(g, stack) && stack != [] && task in stack && task in Deps(g, stack[|stack| - 1])
    ensures !Acyclic(g)
  {
    var i :| 0 <= i < |stack| && stack[i] == task;
    assert PathBetween(g, stack[i..] + [task], task, task);
    assert OnCycle(g, task);
  }

  lemma TaskRefs(g: Dag, task: TaskId)
    requires KnownRefs(g) && task in g
    ensures forall d :: d in g[task] ==> d in g
  {
    assert RefsKnown(g, task);
  }

  method UnknownReference(deps: Dag, order: seq<TaskId>) returns (found: bool, task: TaskId, dependency: TaskId)
    requires forall t :: t in order <==> t in deps
    ensures !found <==> KnownRefs(deps)
    ensures found ==> task in deps && dependency in deps[task] && (dependency == [] || dependency !in deps)
  {
    found, task, dependency := false, [], [];
    for i := 0 to |order|
      invariant !found
      invariant forall k :: 0 <= k < i ==> RefsKnown(deps, order[k])
    {
      for j := 0 to |deps[order[i]]|
        invariant !found
        invariant forall k :: 0 <= k < j ==> deps[order[i]][k] != [] && deps[order[i]][k] in deps
      {
        var d := deps[order[i]][j];
        if d == [] || d !in deps {
          assert deps[order[i]][j] in deps[order[i]];
          assert !RefsKnown(deps, order[i]);
          return true, order[i], d;
        }
      }
      assert RefsKnown(deps, order[i]);
    }
  }

  /** Accepts exactly the graphs without unknown references and without cycles; `order` is the dict's order. */
  method ValidateDag(deps: Dag, order: seq<TaskId>) returns (verdict: Verdict)
    requires forall t :: t in order <==> t in deps
    ensures verdict == Accepted <==> KnownRefs(deps) && Acyclic(deps)
    ensures verdict.UnknownDependency? ==>
      verdict.task in deps && verdict.dependency in deps[verdict.task]
      && (verdict.dependency == [] || verdict.dependency !in deps)
    ensures verdict == CycleDetected <==> KnownRefs(deps) && !Acyclic(deps)
  {
    var unknown, task, dependency := UnknownReference(deps, order);
    if unknown {
      return UnknownDependency(task, dependency);
    }
    var visitor := new DagVisitor(deps);
    for i := 0 to |order|
      invariant visitor.Valid() && visitor.deps == deps && visitor.stack == []
      invariant fresh(visitor)
      invariant forall k :: 0 <= k < i ==> order[k] in visitor.visited
    {
      var ok := visitor.Visit(order[i]);
      if !ok {
        return CycleDetected;
      }
    }
    FinishedAcyclic(deps, visitor.finished);
    return Accepted;
  }

  lemma FinishedAcyclic(g: Dag, finished: seq<TaskId>)
    requires DepsFirst(g, finished) && forall t :: t in g ==> t in finished
    ensures Acyclic(g)
  {
    forall x ensures !OnCycle(g, x) {
      if OnCycle(g, x) {
        var p :| |p| >= 2 && PathBetween(g, p, x, x);
        assert p[1] in Deps(g, p[0]);
        var i :| 0 <= i < |finished| && finished[i] == x;
        DepsFirstNoCycle(g, finished, i);
      }
    }
  }
}
