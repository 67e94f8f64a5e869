/** `NodeIterator`: the lazy dependency-order cursor over a `Model`, its
    constructor (including the leaf search of whole-graph mode), `Next`,
    the three `GetNodeIterator` overloads, and `Visit` as draining the
    cursor. `Next` is a pure step on an immutable iterator state. */
module NodeIterators {
  import opened Collections
  import opened ModelGraph

  /** The private state of a `NodeIterator`: the visited set, the explicit
      stack (its last element is the top), the deferred sink of whole-graph
      mode (`_sentinelNode`) and the node currently yielded (`_currentNode`);
      `None` plays the null pointer. */
  datatype Iterator = Iterator(
    visited: set<NodeId>,
    stack: seq<NodeId>,
    sentinel: Option<NodeId>,
    current: Option<NodeId>)
  {
    /** `IsValid()`: a current node is available. */
    predicate IsValid()
    {
      current.Some?
    }

    /** `Get()`: the current node, null when the cursor is exhausted. */
    function Get(): (r: Option<NodeId>)
      ensures r.Some? <==> IsValid()
    {
      current
    }
  }

  /** Every stack entry is a node of the model, so its ports can be read. */
  ghost predicate StackInModel(m: Model, stack: seq<NodeId>)
  {
    forall k :: 0 <= k < |stack| ==> stack[k] in m.nodeMap
  }

  /** A default-constructed `NodeIterator`: no model, empty state. */
  function DefaultIterator(): (r: Iterator)
    ensures !r.IsValid() && r.stack == [] && r.sentinel.None?
  {
    Iterator({}, [], None, None)
  }

  /** The inner readiness loop over one port's source nodes. */
  function PortReady(sources: seq<NodeId>, visited: set<NodeId>): (r: bool)
    ensures r <==> forall s :: s in sources ==> s in visited
  {
    |sources| == 0 || (sources[0] in visited && PortReady(sources[1..], visited))
  }

  /** The readiness test of `Next`: every source node of every input port
      has been visited. */
  function CanVisit(inputs: seq<seq<NodeId>>, visited: set<NodeId>): (r: bool)
    ensures r <==> forall s :: s in Flatten(inputs) ==> s in visited
  {
    |inputs| == 0 || (PortReady(inputs[0], visited) && CanVisit(inputs[1..], visited))
  }

  /** Termination measure of the stack loop: one more than the rank of the
      topmost unvisited stack entry, or zero when every entry is visited. */
  ghost function TopUnvisited(stack: seq<NodeId>, visited: set<NodeId>, rank: map<NodeId, nat>): nat
  {
    if |stack| == 0 then 0
    else if stack[|stack| - 1] !in visited then
      (if stack[|stack| - 1] in rank then rank[stack[|stack| - 1]] else 0) + 1
    else TopUnvisited(stack[..|stack| - 1], visited, rank)
  }

  /** Termination measure of the stack loop: the visited entries above the
      topmost unvisited one. */
  ghost function VisitedOnTop(stack: seq<NodeId>, visited: set<NodeId>): nat
  {
    if |stack| == 0 then 0
    else if stack[|stack| - 1] !in visited then 0
    else 1 + VisitedOnTop(stack[..|stack| - 1], visited)
  }

  /** Pushing entries of lower rank, one of them unvisited, lowers the rank
      of the topmost unvisited entry below `bound`. */
  lemma {:induction false} TopUnvisitedBelow(stack: seq<NodeId>, pushed: seq<NodeId>, visited: set<NodeId>, rank: map<NodeId, nat>, bound: nat)
    requires exists y :: y in pushed && y !in visited
    requires forall y :: y in pushed ==> y in rank && rank[y] < bound
    ensures TopUnvisited(stack + pushed, visited, rank) <= bound
    decreases |pushed|
  {
    var all := stack + pushed;
    var top := pushed[|pushed| - 1];
    assert all[|all| - 1] == top;
    if top in visited {
      var front := pushed[..|pushed| - 1];
      assert all[..|all| - 1] == stack + front;
      var y :| y in pushed && y !in visited;
      assert y in front by {
        assert pushed == front + [top];
      }
      forall z | z in front
        ensures z in rank && rank[z] < bound
      {
        assert z in pushed by {
          assert pushed == front + [top];
        }
      }
      TopUnvisitedBelow(stack, front, visited, rank, bound);
    }
  }

  /** Pushing nodes of the model keeps every stack entry in the model. */
  lemma PushKeepsStackInModel(m: Model, stack: seq<NodeId>, pushed: seq<NodeId>)
    requires StackInModel(m, stack)
    requires forall y :: y in pushed ==> y in m.nodeMap
    ensures StackInModel(m, stack + pushed)
  {
    var all := stack + pushed;
    forall i | 0 <= i < |all|
      ensures all[i] in m.nodeMap
    {
      if i >= |stack| {
        assert all[i] == pushed[i - |stack|];
      }
    }
  }

  /** The sources of a node, and its dependents, are nodes of the model. */
  lemma NeighboursInModel(m: Model, node: NodeId)
    requires WellFormed(m) && node in m.nodeMap
    ensures forall y :: y in Sources(m.nodeMap[node]) ==> y in m.nodeMap
    ensures forall y :: y in Reverse(m.nodeMap[node].dependents) ==> y in m.nodeMap
  {
    var deps := m.nodeMap[node].dependents;
    forall y | y in Reverse(deps)
      ensures y in m.nodeMap
    {
      var i :| 0 <= i < |deps| && Reverse(deps)[i] == y;
      assert y == deps[|deps| - 1 - i];
    }
  }

  /** The stacking order of `Next` for an unready node: ports taken in
      reverse order, each port's source nodes in order, so that the first
      port's sources end up on top and are explored first. Every source is
      pushed as often as it occurs among the ports. */
  function PushedSources(n: Node): (r: seq<NodeId>)
    ensures forall y :: y in r <==> y in Sources(n)
    ensures |n.inputs| == 0 ==> r == []
    ensures |n.inputs| > 0 ==> |n.inputs[0]| <= |r| && r[|r| - |n.inputs[0]|..] == n.inputs[0]
  {
    forall y ensures y in Flatten(Reverse(n.inputs)) <==> y in Sources(n) {
      FlattenReverse(n.inputs, y);
    }
    FlattenReverseCons(n.inputs);
    Flatten(Reverse(n.inputs))
  }

  /** Every source is pushed as often as it occurs among the ports. */
  lemma PushedSourcesCounts(n: Node)
    ensures multiset(PushedSources(n)) == multiset(Sources(n))
  {
    FlattenReverseMultiset(n.inputs);
  }

  /** The whole stacking order, port by port: the first port's sources sit
      on top of whatever the remaining ports push. */
  lemma PushedSourcesPorts(n: Node)
    requires |n.inputs| > 0
    ensures PushedSources(n) == PushedSources(n.(inputs := n.inputs[1..])) + n.inputs[0]
  {
    FlattenReverseCons(n.inputs);
  }

  /** One pass of the `while (_stack.size() > 0)` loop of `Next`: a
      visited top is popped; a ready top is popped, visited and emitted,
      except the deferred sink, whose dependents are pushed instead; an
      unready top stays and its sources are pushed above it. */
  function Step(m: Model, it: Iterator): (r: Iterator)
    requires WellFormed(m)
    requires StackInModel(m, it.stack) && |it.stack| > 0
    ensures r.sentinel == it.sentinel
    ensures StackInModel(m, r.stack)
    ensures var top := it.stack[|it.stack| - 1];
            && (r.visited == it.visited || (top !in it.visited && r.visited == it.visited + {top}))
            && (r.current.Some? ==> r.current == Some(top) && top !in it.visited && Some(top) != it.sentinel)
            && (top in r.visited && top !in it.visited ==>
                  && (r.current == Some(top) || it.sentinel == Some(top))
                  && forall s :: s in Sources(m.nodeMap[top]) ==> s in it.visited)
    ensures var n := |it.stack|; var top := it.stack[n - 1];
            && (top in it.visited ==>
                  r.stack == it.stack[..n - 1] && r.visited == it.visited && r.current.None?)
            && (top !in it.visited && CanVisit(m.nodeMap[top].inputs, it.visited) && Some(top) != it.sentinel ==>
                  r.stack == it.stack[..n - 1] && r.visited == it.visited + {top} && r.current == Some(top))
            && (top !in it.visited && CanVisit(m.nodeMap[top].inputs, it.visited) && Some(top) == it.sentinel ==>
                  && r.stack == it.stack[..n - 1] + Reverse(m.nodeMap[top].dependents)
                  && r.visited == it.visited + {top} && r.current.None?)
            && (top !in it.visited && !CanVisit(m.nodeMap[top].inputs, it.visited) ==>
                  && r.visited == it.visited && r.current.None?
                  && |r.stack| >= n && r.stack[..n] == it.stack
                  && r.stack[n..] == PushedSources(m.nodeMap[top])
                  && forall y :: y in r.stack[n..] <==> y in Sources(m.nodeMap[top]))
  {
    var node := it.stack[|it.stack| - 1];
    var rest := it.stack[..|it.stack| - 1];
    if node in it.visited then
      it.(stack := rest, current := None)
    else if CanVisit(m.nodeMap[node].inputs, it.visited) then
      if Some(node) != it.sentinel then
        Iterator(it.visited + {node}, rest, it.sentinel, Some(node))
      else
        NeighboursInModel(m, node);
        PushKeepsStackInModel(m, rest, Reverse(m.nodeMap[node].dependents));
        Iterator(it.visited + {node}, rest + Reverse(m.nodeMap[node].dependents), it.sentinel, None)
    else
      NeighboursInModel(m, node);
      PushKeepsStackInModel(m, it.stack, PushedSources(m.nodeMap[node]));
      it.(stack := it.stack + PushedSources(m.nodeMap[node]), current := None)
  }

  /** The loop measure: unvisited nodes of the model, then the rank of the
      topmost unvisited entry, then the visited entries above it. */
  ghost predicate Progress(m: Model, before: Iterator, after: Iterator)
    requires WellFormed(m)
  {
    var keys := m.nodeMap.Keys;
    || keys - after.visited < keys - before.visited
    || (&& keys - after.visited == keys - before.visited
        && TopUnvisited(after.stack, after.visited, Rank(m)) < TopUnvisited(before.stack, before.visited, Rank(m)))
    || (&& keys - after.visited == keys - before.visited
        && TopUnvisited(after.stack, after.visited, Rank(m)) == TopUnvisited(before.stack, before.visited, Rank(m))
        && VisitedOnTop(after.stack, after.visited) < VisitedOnTop(before.stack, before.visited))
  }

  /** Every pass of the loop makes progress, because the graph is acyclic:
      an unready top has an unvisited source of lower rank. */
  lemma StepProgress(m: Model, it: Iterator)
    requires WellFormed(m)
    requires StackInModel(m, it.stack) && |it.stack| > 0
    ensures Progress(m, it, Step(m, it))
  {
    var node := it.stack[|it.stack| - 1];
    if node in it.visited {
      PopProgress(m, it);
    } else if CanVisit(m.nodeMap[node].inputs, it.visited) {
      VisitProgress(m, it, node, Step(m, it));
    } else {
      PushProgress(m, it);
    }
  }

  /** Popping a visited top keeps the topmost unvisited entry and lowers
      the visited entries above it. */
  lemma PopProgress(m: Model, it: Iterator)
    requires WellFormed(m) && |it.stack| > 0
    requires it.stack[|it.stack| - 1] in it.visited
    ensures Progress(m, it, it.(stack := it.stack[..|it.stack| - 1], current := None))
  {
    var stack := it.stack;
    var rest := stack[..|stack| - 1];
    assert TopUnvisited(rest, it.visited, Rank(m)) == TopUnvisited(stack, it.visited, Rank(m));
    assert VisitedOnTop(rest, it.visited) < VisitedOnTop(stack, it.visited);
  }

  /** Visiting a node of the model lowers the unvisited nodes. */
  lemma VisitProgress(m: Model, it: Iterator, node: NodeId, after: Iterator)
    requires WellFormed(m) && node in m.nodeMap && node !in it.visited
    requires after.visited == it.visited + {node}
    ensures Progress(m, it, after)
  {
    assert node in m.nodeMap.Keys - it.visited;
  }

  /** Pushing the sources of an unready top lowers the rank of the topmost
      unvisited entry. */
  lemma PushProgress(m: Model, it: Iterator)
    requires WellFormed(m) && StackInModel(m, it.stack) && |it.stack| > 0
    requires var node := it.stack[|it.stack| - 1];
      node !in it.visited && !CanVisit(m.nodeMap[node].inputs, it.visited)
    ensures var node := it.stack[|it.stack| - 1];
      Progress(m, it, it.(stack := it.stack + PushedSources(m.nodeMap[node]), current := None))
  {
    var stack := it.stack;
    var node := stack[|stack| - 1];
    var pushed := PushedSources(m.nodeMap[node]);
    var rank := Rank(m);
    assert TopUnvisited(stack, it.visited, rank) == rank[node] + 1;
    var s :| s in Flatten(m.nodeMap[node].inputs) && s !in it.visited;
    assert s in pushed;
    PushedRanked(m, node);
    TopUnvisitedBelow(stack, pushed, it.visited, rank, rank[node]);
  }

  /** The sources `Next` pushes for a node all rank below it. */
  lemma PushedRanked(m: Model, node: NodeId)
    requires WellFormed(m) && node in m.nodeMap
    ensures forall y :: y in PushedSources(m.nodeMap[node]) ==> y in Rank(m) && Rank(m)[y] < Rank(m)[node]
  {
    RankedBelow(m, node, PushedSources(m.nodeMap[node]));
  }

  /** Source nodes of a node rank below it. */
  lemma RankedBelow(m: Model, node: NodeId, pushed: seq<NodeId>)
    requires WellFormed(m) && node in m.nodeMap
    requires forall y :: y in pushed ==> y in Sources(m.nodeMap[node])
    ensures forall y :: y in pushed ==> y in Rank(m) && Rank(m)[y] < Rank(m)[node]
  {
    var rank := Rank(m);
    forall y | y in pushed
      ensures y in rank && rank[y] < rank[node]
    {
      assert y in Sources(m.nodeMap[node]);
    }
  }

  /** The `while (_stack.size() > 0)` loop of `Next`: returns with a
      current node, or with an empty stack. */
  function Explore(m: Model, it: Iterator): (r: Iterator)
    requires WellFormed(m)
    requires StackInModel(m, it.stack) && it.current.None?
    ensures r.sentinel == it.sentinel
    ensures it.visited <= r.visited
    ensures StackInModel(m, r.stack)
    ensures r.current.None? ==> r.stack == []
    ensures r.current.Some? ==>
              && r.current.value !in it.visited
              && r.current.value in r.visited
              && r.current != it.sentinel
    ensures forall y :: y in r.visited && y !in it.visited ==>
              && y in m.nodeMap
              && (r.current == Some(y) || it.sentinel == Some(y))
              && forall s :: s in Sources(m.nodeMap[y]) ==> s in r.visited
    decreases m.nodeMap.Keys - it.visited, TopUnvisited(it.stack, it.visited, Rank(m)), VisitedOnTop(it.stack, it.visited)
  {
    if |it.stack| == 0 then it
    else
      var next := Step(m, it);
      if next.current.Some? then next
      else
        StepProgress(m, it);
        Explore(m, next)
  }

  /** `NodeIterator::Next`: clears the current node, runs the stack loop,
      and, when that produced nothing, emits the deferred sink once. */
  function Next(m: Model, it: Iterator): (r: Iterator)
    requires WellFormed(m)
    requires StackInModel(m, it.stack)
    ensures it.visited <= r.visited
    ensures StackInModel(m, r.stack)
    ensures !r.IsValid() ==> r.stack == [] && r.sentinel.None?
    ensures r.sentinel.Some? ==> r.sentinel == it.sentinel
    ensures r.IsValid() && r.current != it.sentinel ==>
              && r.current.value in m.nodeMap
              && r.current.value !in it.visited
              && r.current.value in r.visited
              && r.sentinel == it.sentinel
    ensures r.IsValid() && r.current == it.sentinel ==> r.stack == [] && r.sentinel.None?
    ensures forall y :: y in r.visited && y !in it.visited ==>
              && y in m.nodeMap
              && (r.current == Some(y) || it.sentinel == Some(y))
              && forall s :: s in Sources(m.nodeMap[y]) ==> s in r.visited
  {
    var e := Explore(m, it.(current := None));
    if |e.stack| == 0 && e.current.None? && e.sentinel.Some? then
      Iterator(e.visited, e.stack, None, e.sentinel)
    else
      e
  }

  /** Once the stack is empty and no sink is deferred, `Next` leaves the
      cursor invalid: iteration past the end stays at the end. */
  lemma ExhaustedStaysInvalid(m: Model, it: Iterator)
    requires WellFormed(m) && it.stack == [] && it.sentinel.None?
    ensures var r := Next(m, it);
      && !r.IsValid() && r.stack == [] && r.sentinel.None? && r.visited == it.visited
  {
  }

  /** When `Next` yields the deferred sink, it has emptied the stack and
      cleared the sink, so the sink is the last node and the following
      `Next` leaves the cursor invalid. */
  lemma SinkEndsIteration(m: Model, it: Iterator)
    requires WellFormed(m) && StackInModel(m, it.stack)
    requires it.sentinel.Some? && Next(m, it).current == it.sentinel
    ensures var r := Next(m, it);
      && r.IsValid() && r.stack == [] && r.sentinel.None?
      && !Next(m, r).IsValid()
  {
    ExhaustedStaysInvalid(m, Next(m, it));
  }

  /** The leaf search of whole-graph mode: from `start`, follow the first
      dependent until reaching a node without dependents. */
  function FindLeaf(m: Model, start: NodeId): (r: NodeId)
    requires WellFormed(m) && start in m.nodeMap
    ensures r in m.nodeMap && |m.nodeMap[r].dependents| == 0
    ensures DependsOn(m, r, start)
    decreases Above(m, start)
  {
    var deps := m.nodeMap[start].dependents;
    if |deps| == 0 then start
    else
      var next := deps[0];
      assert start in Sources(m.nodeMap[next]);
      assert next in Above(m, start) - Above(m, next);
      var r := FindLeaf(m, next);
      DependsOnSource(m, r, next, start);
      r
  }

  /** The nodes of strictly greater rank than `x`. */
  ghost function Above(m: Model, x: NodeId): set<NodeId>
    requires WellFormed(m) && x in m.nodeMap
  {
    set k | k in m.nodeMap && Rank(m)[k] > Rank(m)[x]
  }

  /** The traversal state the constructor hands to its first `Next`: the
      target nodes, or, with no targets, the leaf reached from `begin`,
      which is also the deferred sink. */
  function Seed(m: Model, outputNodes: seq<NodeId>, begin: NodeId): (r: Iterator)
    requires WellFormed(m)
    requires StackInModel(m, outputNodes)
    requires |outputNodes| == 0 ==> begin in m.nodeMap
    ensures r.visited == {} && r.current.None?
    ensures |outputNodes| > 0 ==> r.stack == outputNodes && r.sentinel.None?
    ensures |outputNodes| == 0 ==>
              && r.sentinel.Some?
              && r.stack == [r.sentinel.value]
              && r.sentinel.value in m.nodeMap
              && |m.nodeMap[r.sentinel.value].dependents| == 0
              && DependsOn(m, r.sentinel.value, begin)
  {
    if |outputNodes| == 0 then
      var leaf := FindLeaf(m, begin);
      Iterator({}, outputNodes + [leaf], Some(leaf), None)
    else
      Iterator({}, outputNodes, None, None)
  }

  /** The `NodeIterator(model, outputNodes)` constructor. `begin` is the key
      at which iteration of the id -> node map starts (`_nodeMap.begin()`);
      it is consulted only in whole-graph mode. */
  function NewIterator(m: Model, outputNodes: seq<NodeId>, begin: NodeId): (r: Iterator)
    requires WellFormed(m)
    requires Size(m) > 0 ==> StackInModel(m, outputNodes)
    requires Size(m) > 0 && |outputNodes| == 0 ==> begin in m.nodeMap
    ensures Size(m) == 0 ==> !r.IsValid() && r.stack == [] && r.visited == {} && r.sentinel.None?
    ensures StackInModel(m, r.stack)
  {
    if Size(m) == 0 then DefaultIterator()
    else Next(m, Seed(m, outputNodes, begin))
  }

  /** `Model::GetNodeIterator()`: whole-graph mode. */
  function GetNodeIterator(m: Model, begin: NodeId): (r: Iterator)
    requires WellFormed(m)
    requires Size(m) > 0 ==> begin in m.nodeMap
    ensures StackInModel(m, r.stack)
    ensures Size(m) == 0 ==> !r.IsValid()
    ensures r == GetNodeIteratorForNodes(m, [], begin)
  {
    NewIterator(m, [], begin)
  }

  /** `Model::GetNodeIterator(outputNode)`: active-subgraph mode for one node. */
  function GetNodeIteratorForNode(m: Model, outputNode: NodeId, begin: NodeId): (r: Iterator)
    requires WellFormed(m)
    requires Size(m) > 0 ==> outputNode in m.nodeMap
    ensures StackInModel(m, r.stack)
    ensures Size(m) == 0 ==> !r.IsValid()
    ensures r == GetNodeIteratorForNodes(m, [outputNode], begin)
  {
    NewIterator(m, [outputNode], begin)
  }

  /** `Model::GetNodeIterator(outputNodes)`: active-subgraph mode, or
      whole-graph mode when the list is empty. */
  function GetNodeIteratorForNodes(m: Model, outputNodes: seq<NodeId>, begin: NodeId): (r: Iterator)
    requires WellFormed(m)
    requires Size(m) > 0 ==> StackInModel(m, outputNodes)
    requires Size(m) > 0 && |outputNodes| == 0 ==> begin in m.nodeMap
    ensures StackInModel(m, r.stack)
    ensures Size(m) == 0 ==> !r.IsValid()
  {
    NewIterator(m, outputNodes, begin)
  }

  /** The nodes a visitor is called on: `Get()` of the cursor, then `Next()`,
      while the cursor is valid. */
  function Drain(m: Model, it: Iterator): seq<NodeId>
    requires WellFormed(m)
    requires StackInModel(m, it.stack)
    decreases m.nodeMap.Keys - it.visited, if it.sentinel.Some? then 1 else 0, if it.IsValid() then 1 else 0
  {
    if !it.IsValid() then []
    else [it.current.value] + Drain(m, Next(m, it))
  }

  /** `Model::Visit(visitor)`: the nodes visited, in visiting order. */
  function Visit(m: Model, begin: NodeId): (r: seq<NodeId>)
    requires WellFormed(m)
    requires Size(m) > 0 ==> begin in m.nodeMap
    ensures Size(m) == 0 ==> r == []
    ensures r == VisitForNodes(m, [], begin)
  {
    Drain(m, GetNodeIterator(m, begin))
  }

  /** `Model::Visit(visitor, outputNode)`. */
  function VisitForNode(m: Model, outputNode: NodeId, begin: NodeId): (r: seq<NodeId>)
    requires WellFormed(m)
    requires Size(m) > 0 ==> outputNode in m.nodeMap
    ensures Size(m) == 0 ==> r == []
    ensures r == VisitForNodes(m, [outputNode], begin)
  {
    Drain(m, GetNodeIteratorForNode(m, outputNode, begin))
  }

  /** `Model::Visit(visitor, outputNodes)`. */
  function VisitForNodes(m: Model, outputNodes: seq<NodeId>, begin: NodeId): (r: seq<NodeId>)
    requires WellFormed(m)
    requires Size(m) > 0 ==> StackInModel(m, outputNodes)
    requires Size(m) > 0 && |outputNodes| == 0 ==> begin in m.nodeMap
    ensures Size(m) == 0 ==> r == []
  {
    Drain(m, GetNodeIteratorForNodes(m, outputNodes, begin))
  }

  /** One loop pass on an unready top pushes its sources and nothing else. */
  lemma StepPushes(m: Model, it: Iterator)
    requires WellFormed(m) && StackInModel(m, it.stack) && |it.stack| > 0
    requires var top := it.stack[|it.stack| - 1];
      top !in it.visited && !CanVisit(m.nodeMap[top].inputs, it.visited)
    ensures var top := it.stack[|it.stack| - 1];
      Step(m, it) == Iterator(it.visited, it.stack + PushedSources(m.nodeMap[top]), it.sentinel, None)
  {
    var r := Step(m, it);
    assert r.stack == r.stack[..|it.stack|] + r.stack[|it.stack|..];
  }

  /** A call of `Next` that finds an unready node on top continues from
      the stack with that node's sources pushed. */
  lemma NextPushes(m: Model, it: Iterator)
    requires WellFormed(m) && StackInModel(m, it.stack) && |it.stack| > 0 && it.current.None?
    requires var top := it.stack[|it.stack| - 1];
      top !in it.visited && !CanVisit(m.nodeMap[top].inputs, it.visited)
    ensures var pushed := PushedSources(m.nodeMap[it.stack[|it.stack| - 1]]);
      && StackInModel(m, it.stack + pushed)
      && Next(m, it) == Next(m, Iterator(it.visited, it.stack + pushed, it.sentinel, None))
  {
    StepPushes(m, it);
    assert Explore(m, it) == Explore(m, Step(m, it));
  }

  /** A call of `Next` that finds a ready node other than the sentinel on
      top emits it. */
  lemma NextEmitsTop(m: Model, it: Iterator)
    requires WellFormed(m) && StackInModel(m, it.stack) && |it.stack| > 0
    requires var top := it.stack[|it.stack| - 1];
      && top !in it.visited && CanVisit(m.nodeMap[top].inputs, it.visited)
      && Some(top) != it.sentinel
    ensures var n := |it.stack|; var top := it.stack[n - 1];
      Next(m, it) == Iterator(it.visited + {top}, it.stack[..n - 1], it.sentinel, Some(top))
  {
    var c := it.(current := None);
    assert Explore(m, c) == Step(m, c);
  }

  /** A call of `Next` that finds the ready sentinel alone on the stack,
      with no dependents, marks it visited and then emits it as the last
      node. */
  lemma NextSentinelLast(m: Model, it: Iterator)
    requires WellFormed(m) && StackInModel(m, it.stack) && |it.stack| == 1
    requires var top := it.stack[0];
      && top !in it.visited && CanVisit(m.nodeMap[top].inputs, it.visited)
      && Some(top) == it.sentinel && |m.nodeMap[top].dependents| == 0
    ensures Next(m, it) == Iterator(it.visited + {it.stack[0]}, [], None, it.sentinel)
  {
    var c := it.(current := None);
    var f := Iterator(it.visited + {it.stack[0]}, [], it.sentinel, None);
    assert Step(m, c) == f;
    assert Explore(m, c) == Explore(m, f) == f;
  }

  /** Draining a valid iterator emits its current node, then drains the
      iterator `Next` moves it to. */
  lemma DrainStep(m: Model, it: Iterator, rest: seq<NodeId>)
    requires WellFormed(m) && StackInModel(m, it.stack) && it.IsValid()
    requires Drain(m, Next(m, it)) == rest
    ensures Drain(m, it) == [it.current.value] + rest
  {
  }
}
