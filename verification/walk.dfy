/** Step-by-step walks of `NodeIterator::Next` over the diamond of the
    scenarios: which node each call emits, in which order the stack is
    filled, and where whole-graph mode holds its sentinel back. */
module Walk {
  import opened Collections
  import opened ModelGraph
  import opened NodeIterators
  import opened Scenarios
  import opened DiamondFacts

  /** The first call of `Next` from E alone on the stack finds E unready
      and pushes D and B. `sentinel` is None when E is the target and E
      itself in whole-graph mode. */
  lemma DiamondPushE(m: Model, sentinel: Option<NodeId>)
    requires WellFormed(m) && DiamondWalkable(m)
    ensures Next(m, Iterator({}, StackE, sentinel, None)) == Next(m, Iterator({}, StackEDB, sentinel, None))
  {
    DiamondStacks();
    NextPushes(m, Iterator({}, StackE, sentinel, None));
  }

  /** It then finds B unready and pushes A. */
  lemma DiamondPushB(m: Model, sentinel: Option<NodeId>)
    requires WellFormed(m) && DiamondWalkable(m)
    ensures Next(m, Iterator({}, StackEDB, sentinel, None)) == Next(m, Iterator({}, StackEDBA, sentinel, None))
  {
    DiamondStacks();
    NextPushes(m, Iterator({}, StackEDB, sentinel, None));
  }

  /** And emits A, which has no inputs. */
  lemma DiamondEmitA(m: Model, sentinel: Option<NodeId>)
    requires WellFormed(m) && DiamondWalkable(m) && (sentinel == None || sentinel == Some(3))
    ensures Next(m, Iterator({}, StackEDBA, sentinel, None)) == Iterator(SeenA, StackEDB, sentinel, Some(0))
  {
    DiamondStacks();
    NextEmitsTop(m, Iterator({}, StackEDBA, sentinel, None));
  }

  /** The second call emits B, now on top and ready. */
  lemma DiamondEmitB(m: Model, sentinel: Option<NodeId>)
    requires WellFormed(m) && DiamondWalkable(m) && (sentinel == None || sentinel == Some(3))
    ensures Next(m, Iterator(SeenA, StackEDB, sentinel, Some(0))) == Iterator(SeenAB, StackED, sentinel, Some(1))
  {
    DiamondStacks();
    NextEmitsTop(m, Iterator(SeenA, StackEDB, sentinel, Some(0)));
  }

  /** The third call emits D. */
  lemma DiamondEmitD(m: Model, sentinel: Option<NodeId>)
    requires WellFormed(m) && DiamondWalkable(m) && (sentinel == None || sentinel == Some(3))
    ensures Next(m, Iterator(SeenAB, StackED, sentinel, Some(1))) == Iterator(SeenABD, StackE, sentinel, Some(2))
  {
    DiamondStacks();
    NextEmitsTop(m, Iterator(SeenAB, StackED, sentinel, Some(1)));
  }

  /** Targeted at E, the fourth call emits E. */
  lemma DiamondEmitE(m: Model)
    requires WellFormed(m) && DiamondWalkable(m)
    ensures Next(m, Iterator(SeenABD, StackE, None, Some(2))) == Iterator(SeenAll, [], None, Some(3))
  {
    DiamondStacks();
    NextEmitsTop(m, Iterator(SeenABD, StackE, None, Some(2)));
  }

  /** In whole-graph mode E is the sentinel: the fourth call marks it
      visited without emitting it, finds the stack empty, and then emits
      E as the last node. */
  lemma DiamondSentinelE(m: Model)
    requires WellFormed(m) && DiamondWalkable(m)
    ensures Next(m, Iterator(SeenABD, StackE, Some(3), Some(2))) == Iterator(SeenAll, [], None, Some(3))
  {
    DiamondStacks();
    NextSentinelLast(m, Iterator(SeenABD, StackE, Some(3), Some(2)));
  }

  /** After E the walk is over, in either mode. */
  lemma DiamondDone(m: Model)
    requires WellFormed(m) && DiamondWalkable(m)
    ensures Drain(m, Iterator(SeenAll, [], None, Some(3))) == EmitsE
  {
    var last := Iterator(SeenAll, [], None, Some(3));
    ExhaustedStaysInvalid(m, last);
    DiamondStacks();
    DrainStep(m, last, []);
  }

  /** The iterator from E alone on the stack, after its first `Next`,
      drains to A, B, D, E. */
  lemma DiamondDrain(m: Model, sentinel: Option<NodeId>)
    requires WellFormed(m) && DiamondWalkable(m) && (sentinel == None || sentinel == Some(3))
    ensures Drain(m, Next(m, Iterator({}, StackE, sentinel, None))) == EmitsAll
  {
    DiamondPushE(m, sentinel);
    DiamondPushB(m, sentinel);
    DiamondEmitA(m, sentinel);
    DiamondEmitB(m, sentinel);
    DiamondEmitD(m, sentinel);
    if sentinel == None {
      DiamondEmitE(m);
    } else {
      DiamondSentinelE(m);
    }
    DiamondDone(m);
    DiamondStacks();
    DrainStep(m, Iterator(SeenABD, StackE, sentinel, Some(2)), EmitsE);
    DrainStep(m, Iterator(SeenAB, StackED, sentinel, Some(1)), EmitsDE);
    DrainStep(m, Iterator(SeenA, StackEDB, sentinel, Some(0)), EmitsBDE);
  }

  /** On a model with the diamond's walk facts, targeting E emits A, B,
      D, E. */
  lemma WalkableVisit(m: Model, begin: NodeId)
    requires WellFormed(m) && DiamondWalkable(m) && Size(m) > 0
    ensures VisitForNode(m, 3, begin) == EmitsAll
  {
    assert Seed(m, StackE, begin) == Iterator({}, StackE, None, None);
    DiamondDrain(m, None);
  }

  /** On a model with the diamond's walk facts, whole-graph mode from a
      node whose leaf is E emits A, B, D, E. */
  lemma WalkableWholeVisit(m: Model, begin: NodeId)
    requires WellFormed(m) && DiamondWalkable(m) && Size(m) > 0
    requires begin in m.nodeMap && FindLeaf(m, begin) == 3
    ensures Visit(m, begin) == EmitsAll
  {
    assert Seed(m, [], begin) == Iterator({}, StackE, Some(3), None);
    DiamondDrain(m, Some(3));
  }

  /** Scenario: targeting E in the diamond emits A, then B, then D, then
      E: B comes before D because E's first port is pushed last and so is
      explored first. */
  lemma DiamondVisit(m: Model, begin: NodeId)
    requires IsDiamond(m)
    ensures WellFormed(m)
    ensures VisitForNode(m, 3, begin) == [0, 1, 2, 3]
  {
    DiamondWellFormed(m);
    DiamondSize(m);
    DiamondIsWalkable(m);
    WalkableVisit(m, begin);
  }

  /** Scenario: whole-graph mode, started at any node of the diamond,
      walks down to the sink E and emits the same A, B, D, E as the
      targeted visit, E coming from the sentinel step at the end. */
  lemma DiamondWholeVisit(m: Model, begin: NodeId)
    requires IsDiamond(m) && begin in m.nodeMap
    ensures WellFormed(m)
    ensures Visit(m, begin) == [0, 1, 2, 3]
  {
    DiamondWellFormed(m);
    DiamondSize(m);
    DiamondLeaf(m, begin);
    DiamondIsWalkable(m);
    WalkableWholeVisit(m, begin);
  }
}
