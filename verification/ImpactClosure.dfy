/** The loops that decide which tasks a change, a rewind or a recovery touches. */
module ImpactClosure {
  import opened Texts
  import opened Graph

  /** x is a changed task or depends on one, directly or transitively. */
  ghost predicate Affected(g: Dag, changed: set<TaskId>, x: TaskId) {
    exists c :: c in changed && Reaches(g, x, c)
  }

  ghost predicate ClosedUnderDependents(g: Dag, s: set<TaskId>) {
    forall v, d :: v in g && d in g[v] && d in s ==> v in s
  }

  ghost predicate IsImpact(g: Dag, changed: set<TaskId>, s: set<TaskId>) {
    forall x :: x in s <==> Affected(g, changed, x)
  }

  lemma AffectedSelf(g: Dag, changed: set<TaskId>, x: TaskId)
    requires x in changed
    ensures Affected(g, changed, x)
  {
    ReachesSelf(g, x);
  }

  lemma AffectedStep(g: Dag, changed: set<TaskId>, v: TaskId, d: TaskId)
    requires d in Deps(g, v) && Affected(g, changed, d)
    ensures Affected(g, changed, v)
  {
    var c :| c in changed && Reaches(g, d, c);
    ReachesStep(g, v, d, c);
  }

  lemma ClosedHoldsPath(g: Dag, s: set<TaskId>, p: seq<TaskId>)
    requires ClosedUnderDependents(g, s) && p != [] && Chain(g, p) && p[|p| - 1] in s
    ensures p[0] in s
  {
    if |p| > 1 {
      assert forall i :: 0 <= i < |p[1..]| ==> p[1..][i] == p[i + 1];
      ClosedHoldsPath(g, s, p[1..]);
      assert p[1] in Deps(g, p[0]);
    }
  }

  /** The impact of a change is the least set that holds the change and is closed under dependents. */
  lemma ImpactIsLeast(g: Dag, changed: set<TaskId>, s: set<TaskId>)
    requires changed <= s && ClosedUnderDependents(g, s)
    ensures forall x :: Affected(g, changed, x) ==> x in s
  {
    forall x | Affected(g, changed, x) ensures x in s {
      var c :| c in changed && Reaches(g, x, c);
      var p :| PathBetween(g, p, x, c);
      ClosedHoldsPath(g, s, p);
    }
  }

  lemma ImpactIsClosed(g: Dag, changed: set<TaskId>, s: set<TaskId>)
    requires IsImpact(g, changed, s)
    ensures changed <= s && ClosedUnderDependents(g, s)
  {
    forall c | c in changed ensures c in s { AffectedSelf(g, changed, c); }
    forall v, d | v in g && d in g[v] && d in s ensures v in s { AffectedStep(g, changed, v, d); }
  }

  lemma LeastClosedIsImpact(g: Dag, changed: set<TaskId>, s: set<TaskId>)
    requires changed <= s && ClosedUnderDependents(g, s)
    requires forall x :: x in s ==> Affected(g, changed, x)
    ensures IsImpact(g, changed, s)
  {
    ImpactIsLeast(g, changed, s);
  }

  // ---- incremental.affected_downstream_closure ----

  ghost predicate IsReverse(g: Dag, done: set<TaskId>, reverse: map<TaskId, set<TaskId>>) {
    && reverse.Keys == g.Keys
    && forall d, t :: d in reverse ==> (t in reverse[d] <==> t in done && t in g && d in g[t])
  }

  /** The inner loop: task becomes a dependent of each of its known dependencies. */
  method AddDependent(
    before: map<TaskId, set<TaskId>>, task: TaskId, ds: seq<TaskId>) returns (reverse: map<TaskId, set<TaskId>>)
    ensures reverse.Keys == before.Keys
    ensures forall d, t :: d in reverse ==> (t in reverse[d] <==> t in before[d] || (t == task && d in ds))
  {
    reverse := before;
    for j := 0 to |ds|
      invariant reverse.Keys == before.Keys
      invariant forall d, t :: d in reverse ==> (t in reverse[d] <==> t in before[d] || (t == task && d in ds[..j]))
    {
      var dependency := ds[j];
      if dependency in reverse {
        reverse := reverse[dependency := reverse[dependency] + {task}];
      }
    }
  }

  method BuildReverse(deps: Dag, order: seq<TaskId>) returns (reverse: map<TaskId, set<TaskId>>)
    requires forall t :: t in order <==> t in deps
    ensures IsReverse(deps, deps.Keys, reverse)
  {
    reverse := map t | t in deps :: {};
    ghost var done := {};
    for i := 0 to |order|
      invariant forall t :: t in order[..i] <==> t in done
      invariant IsReverse(deps, done, reverse)
    {
      var task := order[i];
      reverse := AddDependent(reverse, task, deps[task]);
      done := done + {task};
    }
  }

  /** Everything the worklist has found is affected; what it has finished has no dependent outside. */
  ghost predicate Frontier(g: Dag, changed: set<TaskId>, closure: set<TaskId>, queue: seq<TaskId>) {
    && changed <= closure <= g.Keys
    && (forall x :: x in queue ==> x in closure)
    && (forall x :: x in closure ==> Affected(g, changed, x))
    && (forall v, d :: v in g && d in g[v] && d in closure && d !in queue ==> v in closure)
  }

  lemma FrontierPop(
    g: Dag, changed: set<TaskId>, closure: set<TaskId>, queue: seq<TaskId>, found: seq<TaskId>, more: set<TaskId>)
    requires Frontier(g, changed, closure, queue) && queue != []
    requires forall t :: t in g && queue[0] in g[t] ==> t in closure || t in found
    requires forall t :: t in found ==> t in g && queue[0] in g[t]
    requires more == closure + set t | t in found
    ensures Frontier(g, changed, more, queue[1..] + found)
  {
    assert queue[0] in queue;
    forall x | x in found ensures Affected(g, changed, x) { AffectedStep(g, changed, x, queue[0]); }
    forall v, d | v in g && d in g[v] && d in more && d !in queue[1..] + found ensures v in more {
      assert d == queue[0] || d !in queue;
    }
  }

  lemma FrontierStart(g: Dag, changed: set<TaskId>, queue: seq<TaskId>)
    requires changed <= g.Keys && forall x :: x in queue <==> x in changed
    ensures Frontier(g, changed, changed, queue)
  {
    forall c | c in changed ensures Affected(g, changed, c) { AffectedSelf(g, changed, c); }
  }

  lemma FrontierEnd(g: Dag, changed: set<TaskId>, closure: set<TaskId>)
    requires Frontier(g, changed, closure, [])
    ensures IsImpact(g, changed, closure)
  {
    LeastClosedIsImpact(g, changed, closure);
  }

  method AffectedDownstreamClosure(deps: Dag, order: seq<TaskId>, changed: set<TaskId>)
    returns (unknown: set<TaskId>, closure: set<TaskId>)
    requires forall t :: t in order <==> t in deps
    ensures unknown == changed - deps.Keys
    ensures unknown == {} ==> IsImpact(deps, changed, closure)
  {
    unknown, closure := changed - deps.Keys, {};
    if unknown != {} {
      return;
    }
    var reverse := BuildReverse(deps, order);
    closure := changed;
    var queue := SortedSet(changed);
    FrontierStart(deps, changed, queue);
    hide IsImpact;
    while queue != []
      invariant Frontier(deps, changed, closure, queue)
      decreases deps.Keys - closure, |queue|
    {
      hide *;
      assert queue[0] in reverse by { FrontierHead(deps, changed, closure, queue, reverse); }
      var found, more := TakeNew(SortedSet(reverse[queue[0]]), closure);
      FrontierHead(deps, changed, closure, queue, reverse);
      FrontierPop(deps, changed, closure, queue, found, more);
      queue, closure := queue[1..] + found, more;
    }
    FrontierEnd(deps, changed, closure);
  }

  lemma FrontierHead(
    g: Dag, changed: set<TaskId>, closure: set<TaskId>, queue: seq<TaskId>, reverse: map<TaskId, set<TaskId>>)
    requires Frontier(g, changed, closure, queue) && queue != [] && IsReverse(g, g.Keys, reverse)
    ensures queue[0] in reverse
    ensures forall t :: t in reverse[queue[0]] <==> t in g && queue[0] in g[t]
  {
    assert queue[0] in queue;
  }

  /** The inner loop: the members of `downstream` that were not in the closure yet. */
  method TakeNew(downstream: seq<TaskId>, closure: set<TaskId>) returns (found: seq<TaskId>, more: set<TaskId>)
    ensures forall t :: t in found <==> t in downstream && t !in closure
    ensures more == closure + set t | t in found
    ensures found == [] ==> more == closure
    ensures found != [] ==> found[0] in more && found[0] !in closure
  {
    found, more := [], closure;
    for i := 0 to |downstream|
      invariant forall t :: t in found <==> t in downstream[..i] && t !in closure
      invariant more == closure + set t | t in found
    {
      if downstream[i] !in more {
        more := more + {downstream[i]};
        found := found + [downstream[i]];
      }
    }
    assert downstream[..|downstream|] == downstream;
    if found != [] { assert found[0] in found; }
  }

  // ---- job_flows.create_changeset ----

  ghost predicate Sound(g: Dag, changed: set<TaskId>, s: set<TaskId>) {
    changed <= s && forall x :: x in s ==> Affected(g, changed, x)
  }

  function DependsInto(g: Dag, s: set<TaskId>, task: TaskId): bool {
    exists d :: d in Deps(g, task) && d in s
  }

  lemma SoundStart(g: Dag, changed: set<TaskId>)
    ensures Sound(g, changed, changed)
  {
    forall c | c in changed ensures Affected(g, changed, c) { AffectedSelf(g, changed, c); }
  }

  lemma SoundStep(g: Dag, changed: set<TaskId>, s: set<TaskId>, task: TaskId)
    requires Sound(g, changed, s) && DependsInto(g, s, task)
    ensures Sound(g, changed, s + {task}) && task in g
  {
    var d :| d in Deps(g, task) && d in s;
    AffectedStep(g, changed, task, d);
  }

  /** One pass of the `while changed_flag` body over the tasks. */
  method GrowOnce(deps: Dag, order: seq<TaskId>, ghost changed: set<TaskId>, impacted: set<TaskId>)
    returns (impacted': set<TaskId>, grown: bool)
    requires Sound(deps, changed, impacted)
    ensures Sound(deps, changed, impacted')
    ensures grown ==> deps.Keys - impacted' < deps.Keys - impacted
    ensures !grown ==> impacted' == impacted
    ensures !grown ==> forall t :: t in order ==> t in impacted || !DependsInto(deps, impacted, t)
  {
    hide *;
    impacted', grown := impacted, false;
    for i := 0 to |order|
      invariant impacted <= impacted' && Sound(deps, changed, impacted')
      invariant grown ==> exists t :: t in deps && t in impacted' && t !in impacted
      invariant !grown ==> impacted' == impacted
      invariant !grown ==> forall t :: t in order[..i] ==> t in impacted || !DependsInto(deps, impacted, t)
    {
      var task := order[i];
      if task !in impacted' && DependsInto(deps, impacted', task) {
        SoundStep(deps, changed, impacted', task);
        impacted' := impacted' + {task};
        grown := true;
      }
    }
    assert order[..|order|] == order;
  }

  lemma StableIsImpact(g: Dag, order: seq<TaskId>, changed: set<TaskId>, s: set<TaskId>)
    requires forall t :: t in g ==> t in order
    requires Sound(g, changed, s)
    requires forall t :: t in order ==> t in s || !DependsInto(g, s, t)
    ensures IsImpact(g, changed, s)
  {
    assert ClosedUnderDependents(g, s);
    LeastClosedIsImpact(g, changed, s);
  }

  /** The repeat-until-stable loop; the changed names need not be tasks of the graph. */
  method ImpactedByRepetition(deps: Dag, order: seq<TaskId>, changed: set<TaskId>) returns (impacted: set<TaskId>)
    requires forall t :: t in order <==> t in deps
    ensures IsImpact(deps, changed, impacted)
  {
    impacted := changed;
    var again := true;
    SoundStart(deps, changed);
    hide *;
    while again
      invariant Sound(deps, changed, impacted)
      invariant !again ==> forall t :: t in order ==> t in impacted || !DependsInto(deps, impacted, t)
      decreases deps.Keys - impacted, again
    {
      impacted, again := GrowOnce(deps, order, changed, impacted);
    }
    StableIsImpact(deps, order, changed, impacted);
  }

  // ---- recovery.task_ancestors and validate_recovery_target ----

  ghost predicate UpFrontier(g: Dag, task: TaskId, ancestors: set<TaskId>, queue: seq<TaskId>) {
    && task in ancestors && ancestors <= g.Keys
    && (forall x :: x in queue ==> x in ancestors)
    && (forall x :: x in ancestors ==> Reaches(g, task, x))
    && (forall v, d :: v in ancestors && v !in queue && d in Deps(g, v) && d in g ==> d in ancestors)
  }

  method TaskAncestors(deps: Dag, task: TaskId) returns (ancestors: set<TaskId>)
    requires task in deps
    ensures forall a :: a in ancestors <==> a in deps && Reaches(deps, task, a)
  {
    ancestors := {task};
    var queue := [task];
    ReachesSelf(deps, task);
    while queue != []
      invariant UpFrontier(deps, task, ancestors, queue)
      decreases deps.Keys - ancestors, |queue|
    {
      var known := KnownUpstream(deps, deps[queue[0]]);
      var found, more := TakeNew(known, ancestors);
      UpFrontierPop(deps, task, ancestors, queue, found, more);
      queue, ancestors := queue[1..] + found, more;
    }
    forall a | a in deps && Reaches(deps, task, a) ensures a in ancestors {
      var p :| PathBetween(deps, p, task, a);
      AncestorsHoldPath(deps, ancestors, p);
    }
  }

  function KnownUpstream(g: Dag, upstream: seq<TaskId>): (r: seq<TaskId>)
    ensures forall x :: x in r <==> x in upstream && x in g
  {
    if upstream == [] then []
    else
      assert forall x :: x in upstream <==> x == upstream[0] || x in upstream[1..];
      (if upstream[0] in g then [upstream[0]] else []) + KnownUpstream(g, upstream[1..])
  }

  lemma UpFrontierPop(
    g: Dag, task: TaskId, ancestors: set<TaskId>, queue: seq<TaskId>, found: seq<TaskId>, more: set<TaskId>)
    requires UpFrontier(g, task, ancestors, queue) && queue != []
    requires forall d :: d in found ==> d in Deps(g, queue[0]) && d in g
    requires forall d :: d in Deps(g, queue[0]) && d in g ==> d in ancestors || d in found
    requires more == ancestors + set t | t in found
    ensures UpFrontier(g, task, more, queue[1..] + found)
  {
    assert queue[0] in queue;
    forall x | x in found ensures Reaches(g, task, x) { ReachesSnoc(g, task, queue[0], x); }
    forall v, d | v in more && v !in queue[1..] + found && d in Deps(g, v) && d in g ensures d in more {
      assert v == queue[0] || v !in queue;
    }
  }

  lemma AncestorsHoldPath(g: Dag, s: set<TaskId>, p: seq<TaskId>)
    requires p != [] && Chain(g, p) && p[0] in s && p[|p| - 1] in g
    requires forall v, d :: v in s && d in Deps(g, v) && d in g ==> d in s
    ensures p[|p| - 1] in s
  {
    if |p| > 1 {
      assert p[1] in Deps(g, p[0]);
      if |p| > 2 { assert p[2] in Deps(g, p[1]); }
      assert forall i :: 0 <= i < |p[1..]| ==> p[1..][i] == p[i + 1];
      AncestorsHoldPath(g, s, p[1..]);
    }
  }

  /** A task is in the downstream closure of s exactly when s is among its ancestors. */
  lemma ClosureAncestorsDual(g: Dag, s: TaskId, t: TaskId, closure: set<TaskId>, ancestors: set<TaskId>)
    requires s in g && t in g
    requires IsImpact(g, {s}, closure)
    requires forall a :: a in ancestors <==> a in g && Reaches(g, t, a)
    ensures t in closure <==> s in ancestors
  {
    assert t in closure <==> Affected(g, {s}, t);
  }

  datatype TargetCheck = TargetOk | UnknownTask | NotAnAncestor | NotAllowed

  /** A recovery target is valid exactly when rewinding it would also reset the current task. */
  method ValidateRecoveryTarget(
    deps: Dag, current: TaskId, target: TaskId, allowed: seq<TaskId>) returns (check: TargetCheck)
    ensures check == UnknownTask <==> current !in deps
    ensures check == TargetOk <==>
      current in deps && target in deps && Affected(deps, {target}, current) && (allowed == [] || target in allowed)
    ensures check == NotAllowed ==> allowed != [] && target !in allowed
  {
    if current !in deps {
      return UnknownTask;
    }
    var ancestors := TaskAncestors(deps, current);
    if target !in ancestors {
      assert target !in deps || !Affected(deps, {target}, current);
      return NotAnAncestor;
    }
    assert Affected(deps, {target}, current);
    if allowed != [] && target !in allowed {
      return NotAllowed;
    }
    return TargetOk;
  }

  // ---- requirement_changes.apply_assessed ----

  function Roots(g: Dag, invalid: set<TaskId>): (r: set<TaskId>)
    ensures r <= invalid
  {
    set t | t in invalid && forall d :: d in Deps(g, t) ==> d !in invalid
  }

  /** Inside a set of an acyclic graph every member leads to a root of that set. */
  lemma MemberReachesRoot(g: Dag, rank: map<TaskId, nat>, s: set<TaskId>, x: TaskId)
    requires Ranking(g, rank) && s <= g.Keys && x in s
    ensures Affected(g, Roots(g, s), x)
    decreases rank[x]
  {
    if x in Roots(g, s) {
      AffectedSelf(g, Roots(g, s), x);
    } else {
      var d :| d in Deps(g, x) && d in s;
      MemberReachesRoot(g, rank, s, d);
      AffectedStep(g, Roots(g, s), x, d);
    }
  }

  lemma RootsGenerateClosedSets(g: Dag, s: set<TaskId>)
    requires Acyclic(g) && s <= g.Keys
    ensures IsImpact(g, Roots(g, s), s) <==> ClosedUnderDependents(g, s)
  {
    if IsImpact(g, Roots(g, s), s) {
      ImpactIsClosed(g, Roots(g, s), s);
    }
    if ClosedUnderDependents(g, s) {
      var rank := AcyclicRanking(g, g.Keys);
      forall x | x in s ensures Affected(g, Roots(g, s), x) { MemberReachesRoot(g, rank, s, x); }
      LeastClosedIsImpact(g, Roots(g, s), s);
    }
  }

  lemma PathTail(g: Dag, p: seq<TaskId>, x: TaskId, y: TaskId)
    requires PathBetween(g, p, x, y) && |p| > 1
    ensures p[1] in Deps(g, x) && Reaches(g, p[1], y)
  {
    assert PathBetween(g, p[1..], p[1], y);
  }

  /** No set that generates s leaves out a root. */
  lemma RootsAreLeast(g: Dag, s: set<TaskId>, generators: set<TaskId>)
    requires IsImpact(g, generators, s)
    ensures Roots(g, s) <= generators
  {
    forall r | r in Roots(g, s) ensures r in generators {
      assert Affected(g, generators, r);
      var c :| c in generators && Reaches(g, r, c);
      var p :| PathBetween(g, p, r, c);
      if |p| > 1 {
        PathTail(g, p, r, c);
        assert false;
      }
    }
  }

  lemma ImpactUnique(g: Dag, changed: set<TaskId>, a: set<TaskId>, b: set<TaskId>)
    requires IsImpact(g, changed, a)
    ensures IsImpact(g, changed, b) <==> a == b
  {
    if IsImpact(g, changed, b) {
      forall x ensures x in a <==> x in b {
        assert x in a <==> Affected(g, changed, x);
      }
    }
  }

  datatype Assessment = NothingInvalidated | UnknownTasks | Overlapping | NotAClosure | Applied(roots: set<TaskId>)

  /** The checks before a revision is published: it goes through exactly for sets closed under dependents. */
  method AssessImpact(
    dag: Dag, order: seq<TaskId>, stillValid: set<TaskId>, invalidated: set<TaskId>) returns (r: Assessment)
    requires forall t :: t in order <==> t in dag
    ensures r.Applied? ==> r.roots == Roots(dag, invalidated) && IsImpact(dag, r.roots, invalidated)
    ensures Acyclic(dag) ==> (r.Applied? <==>
      invalidated != {} && stillValid + invalidated <= dag.Keys && stillValid !! invalidated
      && ClosedUnderDependents(dag, invalidated))
    ensures r == NotAClosure ==> !IsImpact(dag, Roots(dag, invalidated), invalidated)
  {
    hide IsImpact, Roots, Acyclic, ClosedUnderDependents, Affected;
    if invalidated == {} {
      return NothingInvalidated;
    }
    if !(stillValid <= dag.Keys) || !(invalidated <= dag.Keys) {
      return UnknownTasks;
    }
    if !(stillValid !! invalidated) {
      return Overlapping;
    }
    assert stillValid + invalidated <= dag.Keys;
    var roots := Roots(dag, invalidated);
    var unknown, closure := AffectedDownstreamClosure(dag, order, roots);
    ImpactUnique(dag, roots, closure, invalidated);
    if Acyclic(dag) { RootsGenerateClosedSets(dag, invalidated); }
    if closure != invalidated {
      return NotAClosure;
    }
    return Applied(roots);
  }
}
