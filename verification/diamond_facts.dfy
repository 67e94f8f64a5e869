/** Facts about the diamond of the scenarios that its walk relies on: the
    states the walk passes through, which nodes are ready when, and what
    their ports push. */
module DiamondFacts {
  import opened Collections
  import opened ModelGraph
  import opened NodeIterators
  import opened Scenarios

  /** The stacks the walk passes through, bottom first (A = 0, B = 1,
      D = 2, E = 3), what E's and B's ports push, the visited sets, and the
      emitted suffixes. */
  const StackE: seq<NodeId> := [3]
  const StackED: seq<NodeId> := [3, 2]
  const StackEDB: seq<NodeId> := [3, 2, 1]
  const StackEDBA: seq<NodeId> := [3, 2, 1, 0]
  const PushedByE: seq<NodeId> := [2, 1]
  const PushedByB: seq<NodeId> := [0]
  const SeenA: set<NodeId> := {0}
  const SeenAB: set<NodeId> := {0, 1}
  const SeenABD: set<NodeId> := {0, 1, 2}
  const SeenAll: set<NodeId> := {0, 1, 2, 3}
  const EmitsE: seq<NodeId> := [3]
  const EmitsDE: seq<NodeId> := [2, 3]
  const EmitsBDE: seq<NodeId> := [1, 2, 3]
  const EmitsAll: seq<NodeId> := [0, 1, 2, 3]

  /** How the stacks, visited sets and emitted suffixes follow from one
      another. */
  lemma DiamondStacks()
    ensures StackE + PushedByE == StackEDB && StackEDB + PushedByB == StackEDBA
    ensures StackEDBA[..3] == StackEDB && StackEDB[..2] == StackED
    ensures StackED[..1] == StackE && StackE[..0] == []
    ensures {} + {0} == SeenA && SeenA + {1} == SeenAB && SeenAB + {2} == SeenABD
    ensures SeenABD + {3} == SeenAll
    ensures EmitsE == [3] + [] && EmitsDE == [2] + EmitsE
    ensures EmitsBDE == [1] + EmitsDE && EmitsAll == [0] + EmitsBDE
  {
  }

  lemma DiamondSize(m: Model)
    requires IsDiamond(m)
    ensures Size(m) == 4
  {
    assert |m.nodeMap.Keys| == |{0, 1, 2, 3}|;
  }

  /** Whole-graph mode finds E as the leaf from any node of the diamond. */
  lemma DiamondLeaf(m: Model, begin: NodeId)
    requires IsDiamond(m) && WellFormed(m) && begin in m.nodeMap
    ensures FindLeaf(m, begin) == 3
  {
    assert FindLeaf(m, 3) == 3;
    assert FindLeaf(m, 1) == FindLeaf(m, 3);
    assert FindLeaf(m, 2) == FindLeaf(m, 3);
    assert FindLeaf(m, 0) == FindLeaf(m, 1);
  }

  /** E's two ports are pushed so that B, the first port's source, is on
      top; B's single port pushes A. */
  lemma DiamondPushes(m: Model)
    requires IsDiamond(m)
    ensures PushedSources(m.nodeMap[3]) == PushedByE
    ensures PushedSources(m.nodeMap[1]) == PushedByB
  {
    var e := m.nodeMap[3];
    PushedSourcesPorts(e);
    PushedSourcesPorts(e.(inputs := e.inputs[1..]));
    assert e.(inputs := e.inputs[1..]).(inputs := [[2]][1..]) == Node(3, [], []);
    var b := m.nodeMap[1];
    PushedSourcesPorts(b);
    assert b.(inputs := b.inputs[1..]) == Node(1, [], [3]);
  }

  /** Before anything is visited, neither E nor B is ready. */
  lemma DiamondUnready(m: Model)
    requires IsDiamond(m)
    ensures !CanVisit(m.nodeMap[3].inputs, {}) && !CanVisit(m.nodeMap[1].inputs, {})
  {
    DiamondSources(m);
    assert 1 in Sources(m.nodeMap[3]) && 0 in Sources(m.nodeMap[1]);
  }

  /** A is ready at once, B once A is visited, D once A and B are, and E
      once A, B and D are. */
  lemma DiamondReady(m: Model)
    requires IsDiamond(m)
    ensures CanVisit(m.nodeMap[0].inputs, {}) && CanVisit(m.nodeMap[1].inputs, SeenA)
    ensures CanVisit(m.nodeMap[2].inputs, SeenAB) && CanVisit(m.nodeMap[3].inputs, SeenABD)
  {
    DiamondSources(m);
  }

  /** What the walk over the diamond needs to know about the model, as
      facts about node ids alone. */
  ghost predicate DiamondWalkable(m: Model)
  {
    && 0 in m.nodeMap && 1 in m.nodeMap && 2 in m.nodeMap && 3 in m.nodeMap
    && StackInModel(m, StackE) && StackInModel(m, StackED)
    && StackInModel(m, StackEDB) && StackInModel(m, StackEDBA)
    && !CanVisit(m.nodeMap[3].inputs, {}) && !CanVisit(m.nodeMap[1].inputs, {})
    && PushedSources(m.nodeMap[3]) == PushedByE && PushedSources(m.nodeMap[1]) == PushedByB
    && CanVisit(m.nodeMap[0].inputs, {}) && CanVisit(m.nodeMap[1].inputs, SeenA)
    && CanVisit(m.nodeMap[2].inputs, SeenAB) && CanVisit(m.nodeMap[3].inputs, SeenABD)
    && |m.nodeMap[3].dependents| == 0
  }

  lemma DiamondIsWalkable(m: Model)
    requires IsDiamond(m)
    ensures DiamondWalkable(m)
  {
    DiamondUnready(m);
    DiamondReady(m);
    DiamondPushes(m);
  }
}
