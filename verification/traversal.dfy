/** What a traversal by `NodeIterator` guarantees: the nodes come out in
    dependency order, each at most once, and together they are exactly the
    dependency closure of the seeds (the target nodes, or the leaf of
    whole-graph mode); the deferred sink comes out last. The proofs carry an
    invariant of the iterator state (`Pending`) from one `Next` to the next. */
module Traversal {
  import opened Collections
  import opened ModelGraph
  import opened NodeIterators

  /** No node occurs twice in `order`. */
  ghost predicate Distinct(order: seq<NodeId>)
  {
    forall i, j :: 0 <= i < j < |order| ==> order[i] != order[j]
  }

  /** `x` is a node of the model whose every source occurs in `before`. */
  ghost predicate SourcesAmong(m: Model, x: NodeId, before: seq<NodeId>)
  {
    x in m.nodeMap && forall s :: s in Sources(m.nodeMap[x]) ==> s in before
  }

  /** Dependency order: each node comes after all the sources of its ports. */
  ghost predicate DependencyOrdered(m: Model, order: seq<NodeId>)
  {
    forall i :: 0 <= i < |order| ==> SourcesAmong(m, order[i], order[..i])
  }

  /** `order` holds the whole dependency closure of `seeds`. */
  ghost predicate Covers(m: Model, seeds: set<NodeId>, order: seq<NodeId>)
    requires WellFormed(m)
  {
    forall y :: InClosure(m, seeds, y) ==> y in order
  }

  /** In whole-graph mode the deferred sink is unvisited, sits at the bottom
      of the stack and nowhere else, and is a leaf. */
  ghost predicate SentinelAtBottom(m: Model, it: Iterator)
  {
    it.sentinel.Some? ==>
      var s := it.sentinel.value;
      && s !in it.visited
      && |it.stack| > 0
      && it.stack[0] == s
      && (forall k :: 1 <= k < |it.stack| ==> it.stack[k] != s)
      && s in m.nodeMap
      && |m.nodeMap[s].dependents| == 0
  }

  /** The emitted prefix of a traversal: `visited` holds exactly the emitted
      nodes, each emitted once, in dependency order, all inside `scope`. */
  ghost predicate HistoryOk(m: Model, scope: set<NodeId>, visited: set<NodeId>, emitted: seq<NodeId>)
  {
    && (forall x :: x in visited <==> x in emitted)
    && Distinct(emitted)
    && DependencyOrdered(m, emitted)
    && (forall i :: 0 <= i < |emitted| ==> emitted[i] in scope)
  }

  /** The work stack of a traversal: its entries are nodes inside `scope`,
      every seed is visited or still stacked, and a deferred sink waits at
      the bottom. */
  ghost predicate StackOk(m: Model, seeds: set<NodeId>, scope: set<NodeId>, it: Iterator)
  {
    && StackInModel(m, it.stack)
    && (forall k :: 0 <= k < |it.stack| ==> it.stack[k] in scope)
    && (forall z :: z in seeds ==> z in it.visited || z in it.stack)
    && SentinelAtBottom(m, it)
  }

  /** The state before a call of `Next`, after `emitted` has been produced
      from `seeds`; `scope` is a set closed under sources that holds every
      stacked and emitted node (the dependency closure of the seeds). */
  ghost predicate Pending(m: Model, seeds: set<NodeId>, scope: set<NodeId>, it: Iterator, emitted: seq<NodeId>)
  {
    && WellFormed(m)
    && ClosedUnderSources(m, scope)
    && StackOk(m, seeds, scope, it)
    && HistoryOk(m, scope, it.visited, emitted)
  }

  lemma AppendOrdered(m: Model, order: seq<NodeId>, x: NodeId)
    requires DependencyOrdered(m, order)
    requires SourcesAmong(m, x, order)
    ensures DependencyOrdered(m, order + [x])
  {
    var all := order + [x];
    forall i | 0 <= i < |all|
      ensures SourcesAmong(m, all[i], all[..i])
    {
      if i < |order| {
        assert all[..i] == order[..i];
      } else {
        assert all[..i] == order;
      }
    }
  }

  /** Emitting an unvisited node whose sources are all visited extends
      the history. */
  lemma HistoryExtend(m: Model, scope: set<NodeId>, visited: set<NodeId>, emitted: seq<NodeId>, x: NodeId)
    requires HistoryOk(m, scope, visited, emitted)
    requires x !in visited && x in scope && x in m.nodeMap
    requires forall s :: s in Sources(m.nodeMap[x]) ==> s in visited
    ensures SourcesAmong(m, x, emitted)
    ensures HistoryOk(m, scope, visited + {x}, emitted + [x])
  {
    AppendOrdered(m, emitted, x);
  }

  /** The visited set of a history holds the sources of its members. */
  lemma HistoryClosed(m: Model, scope: set<NodeId>, visited: set<NodeId>, emitted: seq<NodeId>)
    requires HistoryOk(m, scope, visited, emitted)
    ensures ClosedUnderSources(m, visited)
  {
    forall x | x in visited
      ensures x in m.nodeMap && forall s :: s in Sources(m.nodeMap[x]) ==> s in visited
    {
      var i :| 0 <= i < |emitted| && emitted[i] == x;
      assert SourcesAmong(m, emitted[i], emitted[..i]);
      forall s | s in Sources(m.nodeMap[x])
        ensures s in visited
      {
        assert s in emitted[..i];
      }
    }
  }

  /** Popping a visited top keeps the stack invariant. */
  lemma StackPopVisited(m: Model, seeds: set<NodeId>, scope: set<NodeId>, it: Iterator)
    requires StackOk(m, seeds, scope, it) && |it.stack| > 0
    requires it.stack[|it.stack| - 1] in it.visited
    ensures StackOk(m, seeds, scope, it.(stack := it.stack[..|it.stack| - 1], current := None))
  {
    assert it.stack == it.stack[..|it.stack| - 1] + [it.stack[|it.stack| - 1]];
  }

  /** Popping and visiting an unvisited top other than the deferred sink
      keeps the stack invariant. */
  lemma StackPopEmitted(m: Model, seeds: set<NodeId>, scope: set<NodeId>, it: Iterator)
    requires StackOk(m, seeds, scope, it) && |it.stack| > 0
    requires var node := it.stack[|it.stack| - 1]; node !in it.visited && Some(node) != it.sentinel
    ensures var node := it.stack[|it.stack| - 1];
      && node in scope
      && StackOk(m, seeds, scope, Iterator(it.visited + {node}, it.stack[..|it.stack| - 1], it.sentinel, Some(node)))
  {
    var node := it.stack[|it.stack| - 1];
    var rest := it.stack[..|it.stack| - 1];
    assert it.stack == rest + [node];
    if it.sentinel.Some? {
      assert |it.stack| > 1;
    }
  }

  /** Pushing the sources of an unvisited top keeps the stack invariant:
      they lie in the closed scope, and none is the deferred sink, which
      feeds no node. */
  lemma StackPushSources(m: Model, seeds: set<NodeId>, scope: set<NodeId>, it: Iterator)
    requires WellFormed(m) && ClosedUnderSources(m, scope)
    requires StackOk(m, seeds, scope, it) && |it.stack| > 0
    requires it.stack[|it.stack| - 1] !in it.visited
    ensures var node := it.stack[|it.stack| - 1];
      StackOk(m, seeds, scope, it.(stack := it.stack + PushedSources(m.nodeMap[node]), current := None))
  {
    var node := it.stack[|it.stack| - 1];
    var pushed := PushedSources(m.nodeMap[node]);
    var all := it.stack + pushed;
    assert node in scope;
    forall k | |it.stack| <= k < |all|
      ensures all[k] in scope
      ensures it.sentinel.Some? ==> all[k] != it.sentinel.value
    {
      var y := all[k];
      assert y == pushed[k - |it.stack|];
      assert y in Sources(m.nodeMap[node]);
      assert node in m.nodeMap[y].dependents;
    }
    NeighboursInModel(m, node);
    PushKeepsStackInModel(m, it.stack, pushed);
  }

  /** The deferred sink is only ever the last stack entry, and it is a
      leaf, so visiting it pushes nothing. */
  lemma StackSentinel(m: Model, seeds: set<NodeId>, scope: set<NodeId>, it: Iterator)
    requires StackOk(m, seeds, scope, it) && |it.stack| > 0
    requires var node := it.stack[|it.stack| - 1]; node !in it.visited && Some(node) == it.sentinel
    ensures var s := it.sentinel.value;
      && |it.stack| == 1
      && s in scope
      && Reverse(m.nodeMap[s].dependents) == []
      && forall z :: z in seeds ==> z in it.visited || z == s
  {
  }

  /** One pass of the stack loop keeps the invariant, or, having visited
      the deferred sink, leaves an empty stack and a covered closure. */
  lemma StepKeeps(m: Model, seeds: set<NodeId>, scope: set<NodeId>, it: Iterator, emitted: seq<NodeId>)
    requires Pending(m, seeds, scope, it, emitted) && |it.stack| > 0 && it.current.None?
    ensures var r := Step(m, it);
      && (r.current.Some? ==> Pending(m, seeds, scope, r, emitted + [r.current.value]))
      && (r.current.None? && r.visited == it.visited ==> Pending(m, seeds, scope, r, emitted))
      && (r.current.None? && r.visited != it.visited ==>
            && it.sentinel.Some?
            && r.stack == []
            && r.visited == it.visited + {it.sentinel.value}
            && it.sentinel.value !in emitted
            && SourcesAmong(m, it.sentinel.value, emitted)
            && it.sentinel.value in scope
            && Covers(m, seeds, emitted + [it.sentinel.value]))
  {
    var n := |it.stack|;
    var node := it.stack[n - 1];
    var rest := it.stack[..n - 1];
    if node in it.visited {
      assert Step(m, it) == it.(stack := rest, current := None);
      StackPopVisited(m, seeds, scope, it);
    } else if CanVisit(m.nodeMap[node].inputs, it.visited) {
      if Some(node) != it.sentinel {
        assert Step(m, it) == Iterator(it.visited + {node}, rest, it.sentinel, Some(node));
        EmitKeeps(m, seeds, scope, it, emitted);
      } else {
        SinkKeeps(m, seeds, scope, it, emitted);
      }
    } else {
      assert Step(m, it) == it.(stack := it.stack + PushedSources(m.nodeMap[node]), current := None);
      StackPushSources(m, seeds, scope, it);
    }
  }

  /** Emitting a ready top other than the deferred sink keeps the
      traversal pending with the node appended. */
  lemma EmitKeeps(m: Model, seeds: set<NodeId>, scope: set<NodeId>, it: Iterator, emitted: seq<NodeId>)
    requires Pending(m, seeds, scope, it, emitted) && |it.stack| > 0
    requires var node := it.stack[|it.stack| - 1];
      && node !in it.visited && Some(node) != it.sentinel
      && forall s :: s in Sources(m.nodeMap[node]) ==> s in it.visited
    ensures var node := it.stack[|it.stack| - 1];
      Pending(m, seeds, scope, Iterator(it.visited + {node}, it.stack[..|it.stack| - 1], it.sentinel, Some(node)), emitted + [node])
  {
    var node := it.stack[|it.stack| - 1];
    StackPopEmitted(m, seeds, scope, it);
    HistoryExtend(m, scope, it.visited, emitted, node);
  }

  /** Visiting the ready deferred sink empties the stack and leaves the
      closure covered. */
  lemma SinkKeeps(m: Model, seeds: set<NodeId>, scope: set<NodeId>, it: Iterator, emitted: seq<NodeId>)
    requires Pending(m, seeds, scope, it, emitted) && |it.stack| > 0 && it.current.None?
    requires var node := it.stack[|it.stack| - 1];
      && node !in it.visited && Some(node) == it.sentinel
      && CanVisit(m.nodeMap[node].inputs, it.visited)
    ensures var r := Step(m, it);
      && it.sentinel.Some?
      && r.current.None?
      && r.stack == []
      && r.visited == it.visited + {it.sentinel.value}
      && it.sentinel.value !in emitted
      && SourcesAmong(m, it.sentinel.value, emitted)
      && it.sentinel.value in scope
      && Covers(m, seeds, emitted + [it.sentinel.value])
  {
    var node := it.stack[|it.stack| - 1];
    StackSentinel(m, seeds, scope, it);
    assert Step(m, it) == Iterator(it.visited + {node}, [], it.sentinel, None);
    HistoryExtend(m, scope, it.visited, emitted, node);
    HistoryClosed(m, scope, it.visited + {node}, emitted + [node]);
    ClosureWithin(m, seeds, it.visited + {node});
  }

  /** The stack loop of `Next`, from a pending state: it emits a node and
      stays pending, or it empties the stack; then, without a deferred sink,
      the closure is covered, and with one, the sink has been visited last. */
  lemma {:induction false} ExploreKeeps(m: Model, seeds: set<NodeId>, scope: set<NodeId>, it: Iterator, emitted: seq<NodeId>)
    requires Pending(m, seeds, scope, it, emitted) && it.current.None?
    ensures var r := Explore(m, it);
      && (r.current.Some? ==> Pending(m, seeds, scope, r, emitted + [r.current.value]))
      && (r.current.None? && it.sentinel.None? ==> r.visited == it.visited && Covers(m, seeds, emitted))
      && (r.current.None? && it.sentinel.Some? ==>
            && r.visited == it.visited + {it.sentinel.value}
            && it.sentinel.value !in emitted
            && SourcesAmong(m, it.sentinel.value, emitted)
            && it.sentinel.value in scope
            && Covers(m, seeds, emitted + [it.sentinel.value]))
    decreases m.nodeMap.Keys - it.visited, TopUnvisited(it.stack, it.visited, Rank(m)), VisitedOnTop(it.stack, it.visited)
  {
    if |it.stack| == 0 {
      HistoryClosed(m, scope, it.visited, emitted);
      ClosureWithin(m, seeds, it.visited);
    } else {
      var next := Step(m, it);
      StepKeeps(m, seeds, scope, it, emitted);
      if next.current.None? {
        StepProgress(m, it);
        if next.visited == it.visited {
          ExploreKeeps(m, seeds, scope, next, emitted);
        }
      }
    }
  }

  /** One call of `Next` from a pending state. A node it yields extends the
      emitted sequence and the state stays pending; when the deferred sink
      is yielded the closure is covered; when nothing is yielded the
      closure was already covered. */
  lemma NextKeeps(m: Model, seeds: set<NodeId>, scope: set<NodeId>, it: Iterator, emitted: seq<NodeId>)
    requires Pending(m, seeds, scope, it, emitted)
    ensures var r := Next(m, it);
      && (r.current.Some? ==> Pending(m, seeds, scope, r, emitted + [r.current.value]))
      && (r.current.Some? ==> r.current.value in m.nodeMap.Keys - it.visited && r.current.value in r.visited)
      && (r.current.Some? && r.current == it.sentinel ==> Covers(m, seeds, emitted + [r.current.value]))
      && (r.current.None? ==> it.sentinel.None? && Covers(m, seeds, emitted))
  {
    var e := Explore(m, it.(current := None));
    ExploreKeeps(m, seeds, scope, it.(current := None), emitted);
    if e.current.None? && it.sentinel.Some? {
      var s := it.sentinel.value;
      assert Next(m, it) == Iterator(e.visited, [], None, Some(s));
      HistoryExtend(m, scope, it.visited, emitted, s);
      SeedsEmitted(m, seeds, emitted + [s]);
    }
  }

  /** Once the closure is covered, every seed has been emitted. */
  lemma SeedsEmitted(m: Model, seeds: set<NodeId>, order: seq<NodeId>)
    requires WellFormed(m) && Covers(m, seeds, order)
    ensures forall z :: z in seeds ==> z in order
  {
    forall z | z in seeds
      ensures z in order
    {
      assert DependsOn(m, z, z);
    }
  }

  /** In dependency order, everything a node depends on, transitively,
      comes no later than the node itself. */
  lemma {:induction false} DependenciesFirst(m: Model, order: seq<NodeId>, i: nat, y: NodeId)
    requires WellFormed(m) && DependencyOrdered(m, order)
    requires i < |order| && DependsOn(m, order[i], y)
    ensures exists j :: 0 <= j <= i && order[j] == y
    decreases Height(m, order[i])
  {
    var x := order[i];
    if x != y {
      var s :| s in Sources(m.nodeMap[x]) && DependsOn(m, s, y);
      assert SourcesAmong(m, x, order[..i]);
      assert s in order[..i];
      var j :| 0 <= j < i && order[j] == s;
      DependenciesFirst(m, order, j, y);
    }
  }

  /** A finished traversal of the closure of `seeds`: duplicate-free, in
      dependency order, inside `scope`, and covering the closure. */
  ghost predicate Complete(m: Model, seeds: set<NodeId>, scope: set<NodeId>, order: seq<NodeId>)
    requires WellFormed(m)
  {
    && Distinct(order)
    && DependencyOrdered(m, order)
    && (forall i :: 0 <= i < |order| ==> order[i] in scope)
    && Covers(m, seeds, order)
  }

  /** Draining a valid cursor yields its current node first. */
  lemma DrainCons(m: Model, it: Iterator, emitted: seq<NodeId>)
    requires WellFormed(m) && StackInModel(m, it.stack) && it.IsValid()
    ensures emitted + Drain(m, it) == (emitted + [it.current.value]) + Drain(m, Next(m, it))
  {
    var rest := Drain(m, Next(m, it));
    assert Drain(m, it) == [it.current.value] + rest;
    assert emitted + ([it.current.value] + rest) == (emitted + [it.current.value]) + rest;
  }

  /** Draining the iterator from a pending state finishes the traversal,
      and ends with the deferred sink when there is one. */
  lemma {:induction false} DrainCorrect(m: Model, seeds: set<NodeId>, scope: set<NodeId>, it: Iterator, emitted: seq<NodeId>)
    requires Pending(m, seeds, scope, it, emitted)
    ensures var order := emitted + Drain(m, Next(m, it));
      && Complete(m, seeds, scope, order)
      && (it.sentinel.Some? ==> |order| > 0 && order[|order| - 1] == it.sentinel.value)
    decreases m.nodeMap.Keys - it.visited
  {
    var r := Next(m, it);
    NextKeeps(m, seeds, scope, it, emitted);
    if r.current.None? {
      assert emitted + Drain(m, r) == emitted;
    } else {
      var x := r.current.value;
      DrainCorrect(m, seeds, scope, r, emitted + [x]);
      DrainCons(m, r, emitted);
      if r.current == it.sentinel {
        assert Next(m, r).current.None?;
      }
    }
  }

  /** The closure of the seeds as a set, closed under sources. */
  lemma ClosureScope(m: Model, seeds: set<NodeId>) returns (scope: set<NodeId>)
    requires WellFormed(m) && seeds <= m.nodeMap.Keys
    ensures ClosedUnderSources(m, scope)
    ensures forall y :: y in scope <==> InClosure(m, seeds, y)
  {
    scope := set y | y in m.nodeMap.Keys && InClosure(m, seeds, y);
    forall y | InClosure(m, seeds, y)
      ensures y in scope
    {
      ClosureInModel(m, seeds, y);
    }
    forall x | x in scope
      ensures forall s :: s in Sources(m.nodeMap[x]) ==> s in scope
    {
      forall s | s in Sources(m.nodeMap[x])
        ensures s in scope
      {
        var z :| z in seeds && DependsOn(m, z, x);
        DependsOnSource(m, z, x, s);
        ClosureInModel(m, seeds, s);
      }
    }
  }

  /** With the model non-empty, a visit drains the cursor the constructor
      leaves after its first `Next`. */
  lemma VisitFromSeed(m: Model, outputNodes: seq<NodeId>, begin: NodeId)
    requires WellFormed(m) && Size(m) > 0 && StackInModel(m, outputNodes)
    requires |outputNodes| == 0 ==> begin in m.nodeMap
    ensures VisitForNodes(m, outputNodes, begin) == [] + Drain(m, Next(m, Seed(m, outputNodes, begin)))
  {
    assert [] + Drain(m, Next(m, Seed(m, outputNodes, begin))) == Drain(m, Next(m, Seed(m, outputNodes, begin)));
  }

  /** The targets' cursor starts pending over their closure. */
  lemma TargetsPending(m: Model, outputNodes: seq<NodeId>, begin: NodeId, scope: set<NodeId>)
    requires WellFormed(m) && |outputNodes| > 0 && StackInModel(m, outputNodes)
    requires ClosedUnderSources(m, scope)
    requires forall y :: y in scope <==> InClosure(m, (set z | z in outputNodes), y)
    ensures Pending(m, (set z | z in outputNodes), scope, Seed(m, outputNodes, begin), [])
  {
    var seeds := set z | z in outputNodes;
    forall k | 0 <= k < |outputNodes|
      ensures outputNodes[k] in scope
    {
      assert DependsOn(m, outputNodes[k], outputNodes[k]);
    }
  }

  /** A complete traversal over the closure as its scope holds exactly the
      closure. */
  lemma CompleteExact(m: Model, seeds: set<NodeId>, scope: set<NodeId>, order: seq<NodeId>)
    requires WellFormed(m) && Complete(m, seeds, scope, order)
    requires forall y :: y in scope <==> InClosure(m, seeds, y)
    ensures forall y :: y in order <==> InClosure(m, seeds, y)
  {
    forall y | y in order
      ensures InClosure(m, seeds, y)
    {
      var i :| 0 <= i < |order| && order[i] == y;
      assert order[i] in scope;
    }
  }

  /** A visit whose first cursor is pending over the closure of `seeds`
      emits exactly that closure, once each and in dependency order, and
      ends with the deferred sink when there is one. */
  lemma SeededVisit(m: Model, outputNodes: seq<NodeId>, begin: NodeId, seeds: set<NodeId>, scope: set<NodeId>)
    requires WellFormed(m) && Size(m) > 0 && StackInModel(m, outputNodes)
    requires |outputNodes| == 0 ==> begin in m.nodeMap
    requires Pending(m, seeds, scope, Seed(m, outputNodes, begin), [])
    requires forall y :: y in scope <==> InClosure(m, seeds, y)
    ensures var order := VisitForNodes(m, outputNodes, begin);
      && Distinct(order)
      && DependencyOrdered(m, order)
      && (forall y :: y in order <==> InClosure(m, seeds, y))
      && (Seed(m, outputNodes, begin).sentinel.Some? ==>
            |order| > 0 && order[|order| - 1] == Seed(m, outputNodes, begin).sentinel.value)
  {
    var it := Seed(m, outputNodes, begin);
    DrainCorrect(m, seeds, scope, it, []);
    VisitFromSeed(m, outputNodes, begin);
    CompleteExact(m, seeds, scope, [] + Drain(m, Next(m, it)));
  }

  /** `Visit(visitor, outputNodes)` with targets: every node the targets
      depend on is visited exactly once, after all of its sources, and
      nothing else is visited. */
  lemma VisitActiveSubgraph(m: Model, outputNodes: seq<NodeId>, begin: NodeId)
    requires WellFormed(m)
    requires |outputNodes| > 0 && StackInModel(m, outputNodes)
    ensures var order := VisitForNodes(m, outputNodes, begin);
      && Distinct(order)
      && DependencyOrdered(m, order)
      && forall y :: y in order <==> InClosure(m, (set z | z in outputNodes), y)
  {
    var seeds := set z | z in outputNodes;
    assert outputNodes[0] in m.nodeMap;
    var scope := ClosureScope(m, seeds);
    TargetsPending(m, outputNodes, begin, scope);
    SeededVisit(m, outputNodes, begin, seeds, scope);
  }

  /** When every node of a duplicate-free dependency order is a dependency
      of `x`, and `x` occurs, `x` comes last. */
  lemma LastIsRoot(m: Model, order: seq<NodeId>, x: NodeId)
    requires WellFormed(m) && Distinct(order) && DependencyOrdered(m, order)
    requires x in order
    requires forall y :: y in order ==> DependsOn(m, x, y)
    ensures |order| > 0 && order[|order| - 1] == x
  {
    var i :| 0 <= i < |order| && order[i] == x;
    var last := |order| - 1;
    if i < last {
      DependenciesFirst(m, order, i, order[last]);
      assert false;
    }
  }

  /** The closure of a single seed is what that seed depends on. */
  lemma SingleSeed(m: Model, targets: seq<NodeId>, x: NodeId)
    requires WellFormed(m) && targets == [x]
    ensures forall y :: InClosure(m, (set z | z in targets), y) <==> DependsOn(m, x, y)
    ensures DependsOn(m, x, x)
  {
    assert (set z | z in targets) == {x};
  }

  /** In whole-graph mode the cursor starts pending over the closure of the
      leaf, which it has deferred. */
  lemma SinkPending(m: Model, begin: NodeId, scope: set<NodeId>)
    requires WellFormed(m) && begin in m.nodeMap
    requires ClosedUnderSources(m, scope)
    requires forall y :: y in scope <==> InClosure(m, {FindLeaf(m, begin)}, y)
    ensures Pending(m, {FindLeaf(m, begin)}, scope, Seed(m, [], begin), [])
  {
    var leaf := FindLeaf(m, begin);
    assert Seed(m, [], begin) == Iterator({}, [leaf], Some(leaf), None);
    assert DependsOn(m, leaf, leaf);
    LeafPending(m, leaf, scope);
  }

  /** A cursor holding only a deferred leaf, with nothing emitted, is
      pending over any closed scope that contains the leaf. */
  lemma LeafPending(m: Model, leaf: NodeId, scope: set<NodeId>)
    requires WellFormed(m) && ClosedUnderSources(m, scope)
    requires leaf in scope && leaf in m.nodeMap && |m.nodeMap[leaf].dependents| == 0
    ensures Pending(m, {leaf}, scope, Iterator({}, [leaf], Some(leaf), None), [])
  {
  }

  /** `Visit(visitor, outputNode)`: the single-target case; the target
      itself is visited last. */
  lemma VisitOneNode(m: Model, outputNode: NodeId, begin: NodeId)
    requires WellFormed(m) && outputNode in m.nodeMap
    ensures var order := VisitForNode(m, outputNode, begin);
      && Distinct(order)
      && DependencyOrdered(m, order)
      && |order| > 0 && order[|order| - 1] == outputNode
      && forall y :: y in order <==> DependsOn(m, outputNode, y)
  {
    VisitActiveSubgraph(m, [outputNode], begin);
    var order := VisitForNode(m, outputNode, begin);
    assert order == VisitForNodes(m, [outputNode], begin);
    SingleSeed(m, [outputNode], outputNode);
    LastIsRoot(m, order, outputNode);
  }

  /** `Visit(visitor)`, whole-graph mode: starting from the first map entry
      `begin`, the constructor picks a leaf that depends on it; exactly the
      leaf's dependency closure is visited, once each, in dependency order,
      with the leaf last and `begin` among the visited. */
  lemma VisitWholeGraph(m: Model, begin: NodeId)
    requires WellFormed(m) && begin in m.nodeMap
    ensures var leaf := FindLeaf(m, begin);
      var order := Visit(m, begin);
      && Distinct(order)
      && DependencyOrdered(m, order)
      && (forall y :: y in order <==> DependsOn(m, leaf, y))
      && |order| > 0 && order[|order| - 1] == leaf
      && begin in order
  {
    var leaf := FindLeaf(m, begin);
    var seeds := {leaf};
    var scope := ClosureScope(m, seeds);
    SinkPending(m, begin, scope);
    SeededVisit(m, [], begin, seeds, scope);
    assert Visit(m, begin) == VisitForNodes(m, [], begin);
    OneSeed(m, leaf);
  }

  /** The closure of one seed is what that seed depends on. */
  lemma OneSeed(m: Model, x: NodeId)
    requires WellFormed(m)
    ensures forall y :: InClosure(m, {x}, y) <==> DependsOn(m, x, y)
  {
  }

  /** A model with a single sink: every node without dependents is `sink`. */
  ghost predicate SingleSink(m: Model, sink: NodeId)
  {
    && sink in m.nodeMap
    && forall k :: k in m.nodeMap && |m.nodeMap[k].dependents| == 0 ==> k == sink
  }

  /** With a single sink, whole-graph mode visits every node of the model:
      each node reaches the sink along dependents, so the sink's closure is
      the whole model. */
  lemma VisitSingleSink(m: Model, begin: NodeId, sink: NodeId)
    requires WellFormed(m) && begin in m.nodeMap && SingleSink(m, sink)
    ensures var order := Visit(m, begin);
      && Distinct(order)
      && DependencyOrdered(m, order)
      && (forall y :: y in order <==> y in m.nodeMap)
      && |order| > 0 && order[|order| - 1] == sink
  {
    VisitWholeGraph(m, begin);
    assert FindLeaf(m, begin) == sink;
    SinkClosureIsModel(m, sink);
  }

  /** With a single sink, the sink depends on exactly the nodes of the
      model. */
  lemma SinkClosureIsModel(m: Model, sink: NodeId)
    requires WellFormed(m) && SingleSink(m, sink)
    ensures forall y :: DependsOn(m, sink, y) <==> y in m.nodeMap
  {
    forall y | y in m.nodeMap
      ensures DependsOn(m, sink, y)
    {
      assert FindLeaf(m, y) == sink;
    }
    forall y | DependsOn(m, sink, y)
      ensures y in m.nodeMap
    {
      ClosureInModel(m, {sink}, y);
    }
  }
}
