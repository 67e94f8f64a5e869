/** Concrete graphs: a linear chain, a diamond fan-in, two disjoint
    chains and a fork into two sinks, with what the traversal theorems say
    about each. Each graph is
    described by the contents of its id -> node map. */
module Scenarios {
  import opened Collections
  import opened ModelGraph
  import opened NodeIterators
  import opened Traversal

  /** A (0, no inputs) -> B (1, input A) -> C (2, input B). */
  ghost predicate IsChain(m: Model)
  {
    && m.nodeMap.Keys == {0, 1, 2}
    && m.nodeMap[0] == Node(0, [], [1])
    && m.nodeMap[1] == Node(1, [[0]], [2])
    && m.nodeMap[2] == Node(2, [[1]], [])
  }

  /** A (0) feeds B (1) and D (2); B and D feed the two ports of E (3). */
  ghost predicate IsDiamond(m: Model)
  {
    && m.nodeMap.Keys == {0, 1, 2, 3}
    && m.nodeMap[0] == Node(0, [], [1, 2])
    && m.nodeMap[1] == Node(1, [[0]], [3])
    && m.nodeMap[2] == Node(2, [[0]], [3])
    && m.nodeMap[3] == Node(3, [[1], [2]], [])
  }

  /** Two chains with no edge between them: A (0) -> B (1) and X (2) -> Y (3). */
  ghost predicate IsTwoChains(m: Model)
  {
    && m.nodeMap.Keys == {0, 1, 2, 3}
    && m.nodeMap[0] == Node(0, [], [1])
    && m.nodeMap[1] == Node(1, [[0]], [])
    && m.nodeMap[2] == Node(2, [], [3])
    && m.nodeMap[3] == Node(3, [[2]], [])
  }

  /** A (0) feeds both B (1) and D (2), which have no dependents. */
  ghost predicate IsFork(m: Model)
  {
    && m.nodeMap.Keys == {0, 1, 2}
    && m.nodeMap[0] == Node(0, [], [1, 2])
    && m.nodeMap[1] == Node(1, [[0]], [])
    && m.nodeMap[2] == Node(2, [[0]], [])
  }

  lemma ChainSources(m: Model)
    requires IsChain(m)
    ensures Sources(m.nodeMap[0]) == [] && Sources(m.nodeMap[1]) == [0] && Sources(m.nodeMap[2]) == [1]
  {
    assert Flatten([[0]]) == [0] + Flatten([]);
    assert Flatten([[1]]) == [1] + Flatten([]);
  }

  lemma DiamondSources(m: Model)
    requires IsDiamond(m)
    ensures Sources(m.nodeMap[0]) == [] && Sources(m.nodeMap[1]) == [0]
    ensures Sources(m.nodeMap[2]) == [0] && Sources(m.nodeMap[3]) == [1, 2]
  {
    assert Flatten([[0]]) == [0] + Flatten([]);
    assert Flatten([[2]]) == [2] + Flatten([]);
    assert Flatten([[1], [2]]) == [1] + Flatten([[2]]);
  }

  lemma TwoChainsSources(m: Model)
    requires IsTwoChains(m)
    ensures Sources(m.nodeMap[0]) == [] && Sources(m.nodeMap[1]) == [0]
    ensures Sources(m.nodeMap[2]) == [] && Sources(m.nodeMap[3]) == [2]
  {
    assert Flatten([[0]]) == [0] + Flatten([]);
    assert Flatten([[2]]) == [2] + Flatten([]);
  }

  lemma ChainLinks(m: Model)
    requires IsChain(m)
    ensures SourcesLinked(m)
  {
    ChainSources(m);
  }

  lemma ChainBackLinks(m: Model)
    requires IsChain(m)
    ensures DependentsLinked(m)
  {
    ChainSources(m);
  }

  lemma ChainAcyclic(m: Model)
    requires IsChain(m)
    ensures Acyclic(m)
  {
    ChainSources(m);
    assert Ranked(m, map[0 := 0, 1 := 1, 2 := 2]);
  }

  lemma ChainKeyed(m: Model)
    requires IsChain(m)
    ensures KeyedById(m)
  {
  }

  lemma ChainWellFormed(m: Model)
    requires IsChain(m)
    ensures WellFormed(m)
  {
    ChainKeyed(m);
    ChainLinks(m);
    ChainBackLinks(m);
    ChainAcyclic(m);
  }

  lemma DiamondLinks(m: Model)
    requires IsDiamond(m)
    ensures SourcesLinked(m)
  {
    DiamondSources(m);
  }

  lemma DiamondBackLinks(m: Model)
    requires IsDiamond(m)
    ensures DependentsLinked(m)
  {
    DiamondSources(m);
  }

  lemma DiamondAcyclic(m: Model)
    requires IsDiamond(m)
    ensures Acyclic(m)
  {
    DiamondSources(m);
    assert Ranked(m, map[0 := 0, 1 := 1, 2 := 1, 3 := 2]);
  }

  lemma DiamondKeyed(m: Model)
    requires IsDiamond(m)
    ensures KeyedById(m)
  {
  }

  lemma DiamondWellFormed(m: Model)
    requires IsDiamond(m)
    ensures WellFormed(m)
  {
    DiamondKeyed(m);
    DiamondLinks(m);
    DiamondBackLinks(m);
    DiamondAcyclic(m);
  }

  lemma TwoChainsLinks(m: Model)
    requires IsTwoChains(m)
    ensures SourcesLinked(m)
  {
    TwoChainsSources(m);
  }

  lemma TwoChainsBackLinks(m: Model)
    requires IsTwoChains(m)
    ensures DependentsLinked(m)
  {
    TwoChainsSources(m);
  }

  lemma TwoChainsAcyclic(m: Model)
    requires IsTwoChains(m)
    ensures Acyclic(m)
  {
    TwoChainsSources(m);
    assert Ranked(m, map[0 := 0, 1 := 1, 2 := 0, 3 := 1]);
  }

  lemma TwoChainsKeyed(m: Model)
    requires IsTwoChains(m)
    ensures KeyedById(m)
  {
  }

  lemma TwoChainsWellFormed(m: Model)
    requires IsTwoChains(m)
    ensures WellFormed(m)
  {
    TwoChainsKeyed(m);
    TwoChainsLinks(m);
    TwoChainsBackLinks(m);
    TwoChainsAcyclic(m);
  }

  /** Dropping the head of a duplicate-free sequence leaves a
      duplicate-free sequence without the head. */
  lemma DistinctTail(order: seq<NodeId>)
    requires Distinct(order) && |order| > 0
    ensures Distinct(order[1..]) && order[0] !in order[1..]
  {
    var rest := order[1..];
    forall i, j | 0 <= i < j < |rest|
      ensures rest[i] != rest[j]
    {
      assert rest[i] == order[i + 1] && rest[j] == order[j + 1];
    }
    forall j | 0 <= j < |rest|
      ensures rest[j] != order[0]
    {
      assert rest[j] == order[j + 1];
    }
  }

  /** The set of elements of a sequence. */
  ghost function Elements(order: seq<NodeId>): set<NodeId>
  {
    set y | y in order
  }

  /** The elements of a sequence are its head and the elements of its tail. */
  lemma ElementsOfCons(order: seq<NodeId>)
    requires |order| > 0
    ensures Elements(order) == Elements(order[1..]) + {order[0]}
  {
    assert order == [order[0]] + order[1..];
  }

  /** A duplicate-free sequence has as many elements as its set. */
  lemma {:induction false} DistinctCount(order: seq<NodeId>)
    requires Distinct(order)
    ensures |Elements(order)| == |order|
  {
    if |order| > 0 {
      DistinctTail(order);
      DistinctCount(order[1..]);
      ElementsOfCons(order);
      var tail := Elements(order[1..]);
      assert order[0] !in tail;
      assert |tail + {order[0]}| == |tail| + 1;
    } else {
      assert Elements(order) == {};
    }
  }

  /** The first node of a dependency order has no sources. */
  lemma FirstSourceless(m: Model, order: seq<NodeId>)
    requires DependencyOrdered(m, order) && |order| > 0
    ensures order[0] in m.nodeMap && Sources(m.nodeMap[order[0]]) == []
  {
    assert SourcesAmong(m, order[0], order[..0]);
    HeadAmong(Sources(m.nodeMap[order[0]]), order[..0]);
  }

  /** A sequence whose elements all occur in `ys` has its head in `ys`. */
  lemma HeadAmong(xs: seq<NodeId>, ys: seq<NodeId>)
    requires forall x :: x in xs ==> x in ys
    ensures |xs| > 0 ==> xs[0] in ys
  {
    if |xs| > 0 {
      assert xs[0] in xs;
    }
  }

  /** In a dependency order, the sources of a node come before it. */
  lemma SourceBefore(m: Model, order: seq<NodeId>, i: nat, s: NodeId)
    requires DependencyOrdered(m, order) && i < |order|
    requires order[i] in m.nodeMap && s in Sources(m.nodeMap[order[i]])
    ensures s in order[..i]
  {
    assert SourcesAmong(m, order[i], order[..i]);
  }

  /** Two duplicate-free sequences with the same elements have the same
      length. */
  lemma SameLength(order: seq<NodeId>, xs: seq<NodeId>)
    requires Distinct(order) && Distinct(xs)
    requires forall y :: y in order <==> y in xs
    ensures |order| == |xs|
  {
    DistinctCount(order);
    DistinctCount(xs);
    assert Elements(order) == Elements(xs);
  }

  lemma ChainLeaf(m: Model, begin: NodeId)
    requires IsChain(m) && WellFormed(m) && begin in m.nodeMap
    ensures FindLeaf(m, begin) == 2
  {
    assert FindLeaf(m, 2) == 2;
    assert FindLeaf(m, 1) == FindLeaf(m, 2);
    assert FindLeaf(m, 0) == FindLeaf(m, 1);
  }

  /** What each node of the chain depends on. */
  lemma ChainClosure(m: Model, y: NodeId)
    requires IsChain(m) && WellFormed(m)
    ensures DependsOn(m, 0, y) <==> y == 0
    ensures DependsOn(m, 1, y) <==> y in [0, 1]
    ensures DependsOn(m, 2, y) <==> y in [0, 1, 2]
  {
    ChainSources(m);
    assert DependsOn(m, 0, y) <==> y == 0;
    assert DependsOn(m, 1, y) <==> y in [0, 1];
  }

  /** The only dependency order of the chain's nodes is A, B, C. */
  lemma ChainOrder(m: Model, order: seq<NodeId>)
    requires 1 in m.nodeMap && 2 in m.nodeMap
    requires Sources(m.nodeMap[1]) == [0] && Sources(m.nodeMap[2]) == [1]
    requires Distinct(order) && DependencyOrdered(m, order)
    requires forall y :: y in order <==> y in [0, 1, 2]
    ensures order == [0, 1, 2]
  {
    SameLength(order, [0, 1, 2]);
    assert order[0] in order && order[1] in order && order[2] in order;
    FirstSourceless(m, order);
    assert order[0] == 0;
    var j :| 0 <= j < |order| && order[j] == 2;
    SourceBefore(m, order, j, 1);
    assert j == 2;
  }

  /** A whole-graph visit whose leaf depends on exactly `xs` emits exactly
      `xs`. */
  lemma WholeVisitIs(m: Model, begin: NodeId, leaf: NodeId, xs: seq<NodeId>)
    requires WellFormed(m) && begin in m.nodeMap && FindLeaf(m, begin) == leaf
    requires forall y :: DependsOn(m, leaf, y) <==> y in xs
    ensures var order := Visit(m, begin);
      && Distinct(order) && DependencyOrdered(m, order)
      && forall y :: y in order <==> y in xs
  {
    VisitWholeGraph(m, begin);
  }

  /** Scenario: whole-graph traversal of the chain, from any start node,
      yields A, B, C, with the sink C last. */
  lemma ChainVisit(m: Model, begin: NodeId)
    requires IsChain(m) && begin in m.nodeMap
    ensures WellFormed(m) && Visit(m, begin) == [0, 1, 2]
  {
    ChainWellFormed(m);
    ChainSources(m);
    ChainLeaf(m, begin);
    forall y
      ensures DependsOn(m, 2, y) <==> y in [0, 1, 2]
    {
      ChainClosure(m, y);
    }
    WholeVisitIs(m, begin, 2, [0, 1, 2]);
    ChainOrder(m, Visit(m, begin));
  }

  lemma TwoChainsLeaf(m: Model, begin: NodeId)
    requires IsTwoChains(m) && WellFormed(m) && (begin == 0 || begin == 1)
    ensures FindLeaf(m, begin) == 1
  {
    assert FindLeaf(m, 1) == 1;
    assert FindLeaf(m, 0) == FindLeaf(m, 1);
  }

  /** What the first chain's sink depends on. */
  lemma TwoChainsClosure(m: Model, y: NodeId)
    requires IsTwoChains(m) && WellFormed(m)
    ensures DependsOn(m, 1, y) <==> y in [0, 1]
  {
    TwoChainsSources(m);
    assert DependsOn(m, 0, y) <==> y == 0;
  }

  /** The only dependency order of A and B. */
  lemma TwoChainsOrder(m: Model, order: seq<NodeId>)
    requires 1 in m.nodeMap && Sources(m.nodeMap[1]) == [0]
    requires Distinct(order) && DependencyOrdered(m, order)
    requires forall y :: y in order <==> y in [0, 1]
    ensures order == [0, 1]
  {
    SameLength(order, [0, 1]);
    assert order[0] in order && order[1] in order;
    FirstSourceless(m, order);
    assert order[0] == 0;
  }

  lemma TwoChainsSize(m: Model)
    requires IsTwoChains(m)
    ensures Size(m) == 4
  {
    assert |m.nodeMap.Keys| == |{0, 1, 2, 3}|;
  }

  /** Scenario: started in the first chain, whole-graph mode emits that
      chain and never reaches the second one, although the model holds
      four nodes. */
  lemma TwoChainsVisit(m: Model, begin: NodeId)
    requires IsTwoChains(m) && (begin == 0 || begin == 1)
    ensures Size(m) == 4
    ensures WellFormed(m) && Visit(m, begin) == [0, 1]
  {
    TwoChainsSize(m);
    TwoChainsWellFormed(m);
    TwoChainsSources(m);
    TwoChainsLeaf(m, begin);
    forall y
      ensures DependsOn(m, 1, y) <==> y in [0, 1]
    {
      TwoChainsClosure(m, y);
    }
    WholeVisitIs(m, begin, 1, [0, 1]);
    TwoChainsOrder(m, Visit(m, begin));
  }

  lemma ForkSources(m: Model)
    requires IsFork(m)
    ensures Sources(m.nodeMap[0]) == [] && Sources(m.nodeMap[1]) == [0] && Sources(m.nodeMap[2]) == [0]
  {
    assert Flatten([[0]]) == [0] + Flatten([]);
  }

  lemma ForkLinks(m: Model)
    requires IsFork(m)
    ensures SourcesLinked(m)
  {
    ForkSources(m);
  }

  lemma ForkBackLinks(m: Model)
    requires IsFork(m)
    ensures DependentsLinked(m)
  {
    ForkSources(m);
  }

  lemma ForkAcyclic(m: Model)
    requires IsFork(m)
    ensures Acyclic(m)
  {
    ForkSources(m);
    assert Ranked(m, map[0 := 0, 1 := 1, 2 := 1]);
  }

  lemma ForkKeyed(m: Model)
    requires IsFork(m)
    ensures KeyedById(m)
  {
  }

  lemma ForkWellFormed(m: Model)
    requires IsFork(m)
    ensures WellFormed(m)
  {
    ForkKeyed(m);
    ForkLinks(m);
    ForkBackLinks(m);
    ForkAcyclic(m);
  }

  /** From A or B the leaf search follows A's first dependent to B. */
  lemma ForkLeaf(m: Model, begin: NodeId)
    requires IsFork(m) && WellFormed(m) && (begin == 0 || begin == 1)
    ensures FindLeaf(m, begin) == 1
  {
    assert FindLeaf(m, 1) == 1;
    assert FindLeaf(m, 0) == FindLeaf(m, 1);
  }

  /** What B depends on. */
  lemma ForkClosure(m: Model, y: NodeId)
    requires IsFork(m) && WellFormed(m)
    ensures DependsOn(m, 1, y) <==> y in [0, 1]
  {
    ForkSources(m);
    assert DependsOn(m, 0, y) <==> y == 0;
  }

  lemma ForkSize(m: Model)
    requires IsFork(m)
    ensures Size(m) == 3
  {
    assert |m.nodeMap.Keys| == |{0, 1, 2}|;
  }

  /** Scenario: although every node of the fork is connected to the chosen
      sink B, whole-graph mode started at A or B emits A and B only; the
      second sink D is never reached, because a sink has no dependents to
      push. */
  lemma ForkVisit(m: Model, begin: NodeId)
    requires IsFork(m) && (begin == 0 || begin == 1)
    ensures Size(m) == 3
    ensures WellFormed(m) && Visit(m, begin) == [0, 1]
  {
    ForkSize(m);
    ForkWellFormed(m);
    ForkSources(m);
    ForkLeaf(m, begin);
    forall y
      ensures DependsOn(m, 1, y) <==> y in [0, 1]
    {
      ForkClosure(m, y);
    }
    WholeVisitIs(m, begin, 1, [0, 1]);
    TwoChainsOrder(m, Visit(m, begin));
  }
}
