/** The graph container `Model`: the id -> node map that owns every node,
    lookup by id, the node count, and the dependency relation the
    traversal is specified against. A node handle (`const Node*`) is
    modelled by the node's id, which the map makes unique. */
module ModelGraph {
  import opened Collections

  type NodeId = nat

  /** A node as the traversal sees it: its id, the source nodes of each
      input port (ports in declaration order), and the nodes that consume
      its output (`GetDependentNodes()`). */
  datatype Node = Node(id: NodeId, inputs: seq<seq<NodeId>>, dependents: seq<NodeId>)

  /** The id -> node map is both the owner of the nodes and the index used
      to look them up by id. */
  datatype Model = Model(nodeMap: map<NodeId, Node>)

  /** Every source node of every input port of `n`, ports in order. */
  function Sources(n: Node): seq<NodeId>
  {
    Flatten(n.inputs)
  }

  /** `rank` witnesses that the dependency relation is acyclic: every
      source of a node has a strictly smaller rank than the node. */
  ghost predicate Ranked(m: Model, rank: map<NodeId, nat>)
  {
    && m.nodeMap.Keys <= rank.Keys
    && forall k, s :: k in m.nodeMap && s in Sources(m.nodeMap[k]) ==> s in rank && rank[s] < rank[k]
  }

  /** Each node is stored under its own id. */
  ghost predicate KeyedById(m: Model)
  {
    forall k :: k in m.nodeMap ==> m.nodeMap[k].id == k
  }

  /** Every source node is a node of the model and lists its consumer among
      its dependents. */
  ghost predicate SourcesLinked(m: Model)
  {
    forall k, s :: k in m.nodeMap && s in Sources(m.nodeMap[k]) ==>
      s in m.nodeMap && k in m.nodeMap[s].dependents
  }

  /** Every dependent is a node of the model and lists the node among its
      sources: the dependent lists mirror the input links. */
  ghost predicate DependentsLinked(m: Model)
  {
    forall k, d :: k in m.nodeMap && d in m.nodeMap[k].dependents ==>
      d in m.nodeMap && k in Sources(m.nodeMap[d])
  }

  /** The dependency relation has no cycle. */
  ghost predicate Acyclic(m: Model)
  {
    exists rank :: Ranked(m, rank)
  }

  /** What the traversal relies on and never checks: ids are the keys, the
      links in both directions agree, and the graph is acyclic. */
  ghost predicate WellFormed(m: Model)
  {
    && KeyedById(m)
    && SourcesLinked(m)
    && DependentsLinked(m)
    && Acyclic(m)
  }

  /** Some acyclicity witness of a well-formed model. */
  ghost function Rank(m: Model): (rank: map<NodeId, nat>)
    requires WellFormed(m)
    ensures Ranked(m, rank)
  {
    var rank :| Ranked(m, rank); rank
  }

  /** The measure the acyclicity proofs descend on. */
  ghost function Height(m: Model, x: NodeId): nat
    requires WellFormed(m)
  {
    if x in Rank(m) then Rank(m)[x] else 0
  }

  /** `Model::GetNode`: the node stored under `id`, or nothing. */
  function GetNode(m: Model, id: NodeId): (r: Option<Node>)
    ensures r.None? <==> id !in m.nodeMap
    ensures r.Some? ==> r.value == m.nodeMap[id]
    ensures WellFormed(m) && r.Some? ==> r.value.id == id
  {
    if id in m.nodeMap then Some(m.nodeMap[id]) else None
  }

  /** `Model::Size`: the number of entries of the id -> node map. */
  function Size(m: Model): nat
  {
    |m.nodeMap|
  }

  /** Every node of a well-formed model is found again by its own id. */
  lemma LookupRoundTrip(m: Model, n: Node)
    requires WellFormed(m)
    requires n in m.nodeMap.Values
    ensures GetNode(m, n.id) == Some(n)
  {
    var k :| k in m.nodeMap && m.nodeMap[k] == n;
    assert n.id == k;
  }

  /** `Size` counts distinct node ids, and is zero exactly when no id
      can be looked up. */
  lemma SizeCountsIds(m: Model)
    requires WellFormed(m)
    ensures Size(m) == |set k | k in m.nodeMap :: m.nodeMap[k].id|
    ensures Size(m) == 0 <==> forall id: NodeId :: GetNode(m, id).None?
  {
    var ids := set k | k in m.nodeMap :: m.nodeMap[k].id;
    assert ids == m.nodeMap.Keys;
    if Size(m) != 0 {
      var k :| k in m.nodeMap;
      assert GetNode(m, k).Some?;
    }
  }

  /** `y` is `x` itself or, transitively, a source node of one of `x`'s
      input ports: a node that has to be computed before `x`. */
  ghost predicate DependsOn(m: Model, x: NodeId, y: NodeId)
    requires WellFormed(m)
    decreases Height(m, x)
  {
    || x == y
    || (x in m.nodeMap && exists s :: s in Sources(m.nodeMap[x]) && DependsOn(m, s, y))
  }

  /** `y` belongs to the dependency closure of `seeds`. */
  ghost predicate InClosure(m: Model, seeds: set<NodeId>, y: NodeId)
    requires WellFormed(m)
  {
    exists z :: z in seeds && DependsOn(m, z, y)
  }

  /** A set of nodes of the model that holds the sources of each member. */
  ghost predicate ClosedUnderSources(m: Model, v: set<NodeId>)
  {
    forall x :: x in v ==> x in m.nodeMap && forall s :: s in Sources(m.nodeMap[x]) ==> s in v
  }

  /** One more step along an input edge stays in the closure. */
  lemma {:induction false} DependsOnSource(m: Model, x: NodeId, y: NodeId, s: NodeId)
    requires WellFormed(m)
    requires DependsOn(m, x, y)
    requires y in m.nodeMap && s in Sources(m.nodeMap[y])
    ensures DependsOn(m, x, s)
    decreases Height(m, x)
  {
    if x == y {
      assert DependsOn(m, s, s);
    } else {
      var t :| t in Sources(m.nodeMap[x]) && DependsOn(m, t, y);
      DependsOnSource(m, t, y, s);
    }
  }

  /** A set closed under sources contains everything its members depend on. */
  lemma {:induction false} ClosedContainsDependencies(m: Model, v: set<NodeId>, x: NodeId, y: NodeId)
    requires WellFormed(m)
    requires ClosedUnderSources(m, v)
    requires x in v && DependsOn(m, x, y)
    ensures y in v
    decreases Height(m, x)
  {
    if x != y {
      var t :| t in Sources(m.nodeMap[x]) && DependsOn(m, t, y);
      ClosedContainsDependencies(m, v, t, y);
    }
  }

  /** A closed set holding the seeds holds their whole closure. */
  lemma ClosureWithin(m: Model, seeds: set<NodeId>, v: set<NodeId>)
    requires WellFormed(m)
    requires seeds <= v && ClosedUnderSources(m, v)
    ensures forall y :: InClosure(m, seeds, y) ==> y in v
  {
    forall y | InClosure(m, seeds, y)
      ensures y in v
    {
      var z :| z in seeds && DependsOn(m, z, y);
      ClosedContainsDependencies(m, v, z, y);
    }
  }

  /** The dependency closure of nodes of the model stays inside the model. */
  lemma ClosureInModel(m: Model, seeds: set<NodeId>, y: NodeId)
    requires WellFormed(m)
    requires seeds <= m.nodeMap.Keys
    requires InClosure(m, seeds, y)
    ensures y in m.nodeMap
  {
    ClosureWithin(m, seeds, m.nodeMap.Keys);
  }
}
