# ELL model graph traversal, in Dafny

This project models the dependency-order traversal at the centre of the ELL
computation graph (`model::Model` and `model::NodeIterator`):

- the id -> node map with its lookup `GetNode` and its count `Size`;
- the `NodeIterator` cursor:
  - its state: the visited set, the explicit stack, the deferred "sentinel"
    sink and the current node;
  - `IsValid`, `Get` and the default constructor;
  - the constructor, with its leaf search in whole-graph mode;
  - `Next`;
- the three `GetNodeIterator` overloads;
- the three `Visit` overloads, as the sequence of nodes a visitor would be
  called on, i.e. the cursor drained.

Nodes are identified by their ids (`NodeId`, a natural number). A node has one
list of source node ids per input port, plus the list of its dependents. A
well-formed model stores every node under its own id and has links in both
directions: every source lists its consumer among its dependents, and every
dependent has the node among its sources. It is also acyclic: some rank map
gives every source a smaller rank than its consumer. The code never checks
acyclicity, so it is a precondition here.

The iterator's state is an immutable value, and `Next` is a pure function on
it. One pass of the `while (_stack.size() > 0)` loop is `Step`, the loop is
`Explore`, and `Next` adds the final emission of the deferred sink. The loop
terminates on acyclic graphs. Its measure is lexicographic:

1. the unvisited nodes of the model;
2. the rank of the topmost unvisited stack entry;
3. the visited entries above that entry.

The traversal proofs use one invariant, `Pending`, on the state before each
`Next`:

- the stack holds only nodes of a scope closed under sources;
- every seed is visited or still stacked;
- the deferred sink sits alone at the bottom of the stack;
- the emitted prefix is duplicate-free, in dependency order, and is exactly
  the visited set.

`DrainCorrect` follows that invariant to the end of a traversal.

Modules:

- `Collections`: option type, reversal, flattening of port lists;
- `ModelGraph`: the model, the lookup, dependency closure;
- `NodeIterators`: cursor, `Next`, constructor, overloads, `Visit`;
- `Traversal`: the invariant and the end-to-end theorems;
- `Scenarios`: concrete graphs;
- `DiamondFacts` and `Walk`: the diamond graph walked call by call.

## Model

| member | source | states |
|---|---|---|
| ModelGraph.GetNode | libraries/model/src/ModelGraph.cpp:19-30 | Lookup finds nothing exactly when the id is not a key of the node map. Otherwise it returns the node stored under that key, and in a well-formed model that node carries the id it was looked up by. |
| ModelGraph.LookupRoundTrip | libraries/model/include/ModelGraph.h:115-117 | The map is also the index by id: every node held by a well-formed model is found again by looking up its own id. |
| ModelGraph.SizeCountsIds | libraries/model/include/ModelGraph.h:65 | `Size` equals the number of distinct node ids. It is zero exactly when every lookup finds nothing. |
| NodeIterators.Iterator.Get | libraries/model/include/ModelGraph.h:31-33 | `Get` returns a node exactly when `IsValid` holds. |
| NodeIterators.DefaultIterator | libraries/model/include/ModelGraph.h:34 | A default-constructed cursor is invalid, with an empty stack and no deferred sink. |
| NodeIterators.PortReady | libraries/model/src/ModelGraph.cpp:102-105 | The inner readiness loop over one port holds exactly when every source node of that port has been visited. |
| NodeIterators.CanVisit | libraries/model/src/ModelGraph.cpp:97-106 | The readiness test holds exactly when every source node of every input port has been visited. |
| NodeIterators.PushedSources | libraries/model/src/ModelGraph.cpp:133-142 | Pushing the ports in reverse order pushes exactly the node's source nodes, and the first port's sources end up on top, in their port order. |
| NodeIterators.PushedSourcesPorts | libraries/model/src/ModelGraph.cpp:133-142 | Port by port, the first port's sources sit on top of whatever the remaining ports push. So the first port is explored first. |
| NodeIterators.PushedSourcesCounts | libraries/model/src/ModelGraph.cpp:133-142 | Every source is pushed as often as it occurs among the ports. |
| NodeIterators.Step | libraries/model/src/ModelGraph.cpp:88-143 | One loop pass does one of four things. It pops a visited top, changing nothing else. It pops, visits and emits a ready top that is not the deferred sink. It pops and visits the ready deferred sink without emitting it, and pushes the sink's dependents in reverse order. Or it leaves an unready top in place, pushes that node's sources above it in the order of `PushedSources`, and leaves the visited set unchanged. At most the top becomes visited, and only once all its sources are visited. |
| NodeIterators.NextPushes | libraries/model/src/ModelGraph.cpp:133-143 | A call of `Next` that finds an unready node on top continues exactly as one started from the stack with that node's sources pushed. |
| NodeIterators.NextEmitsTop | libraries/model/src/ModelGraph.cpp:108-119 | A call of `Next` that finds a ready node other than the deferred sink on top pops it, marks it visited and yields it. |
| NodeIterators.NextSentinelLast | libraries/model/src/ModelGraph.cpp:121-150 | A call of `Next` that finds the ready deferred sink alone on the stack, with no dependents, marks it visited, empties the stack, clears the sink and yields it. |
| NodeIterators.StepProgress | libraries/model/src/ModelGraph.cpp:86-144 | Every loop pass lowers the lexicographic measure, so the loop terminates on an acyclic graph. The key case: an unready top has an unvisited source of smaller rank. |
| NodeIterators.Explore | libraries/model/src/ModelGraph.cpp:86-144 | The loop ends with an empty stack or with a current node. A current node was unvisited before and is visited now, and it is not the deferred sink. Every node the loop newly visits is in the model, and its sources are visited too. |
| NodeIterators.Next | libraries/model/src/ModelGraph.cpp:83-151 | A yielded node other than the deferred sink is a node of the model that was unvisited before and is visited now. Every newly visited node has all its sources visited. The visited set only grows. When `Next` yields nothing, the stack is empty and no sink remains. When it yields the deferred sink, the stack is empty and the sink is cleared. |
| NodeIterators.ExhaustedStaysInvalid | libraries/model/src/ModelGraph.cpp:85-150 | With an empty stack and no deferred sink, `Next` leaves the cursor invalid and its state unchanged. |
| NodeIterators.SinkEndsIteration | libraries/model/src/ModelGraph.cpp:146-150 | When `Next` yields the deferred sink, the stack is empty and the sink is cleared, and the following `Next` leaves the cursor invalid. |
| NodeIterators.FindLeaf | libraries/model/src/ModelGraph.cpp:63-78 | Following the first dependent from the start node terminates at a node of the model with no dependents, and that node depends on the start node. |
| NodeIterators.Seed | libraries/model/src/ModelGraph.cpp:59-78 | With targets, the first stack is the targets and there is no sink. Without targets, the stack is the single leaf found from `begin`, which is also the deferred sink: a node of the model with no dependents that depends on `begin`. In both cases nothing is visited yet. |
| NodeIterators.NewIterator | libraries/model/src/ModelGraph.cpp:51-81 | On an empty model the constructor returns an invalid cursor with empty state. Otherwise every stack entry is a node of the model. |
| NodeIterators.GetNodeIterator | libraries/model/src/ModelGraph.cpp:32-35 | The no-argument overload is the vector overload with an empty target list (whole-graph mode). It is invalid on an empty model. |
| NodeIterators.GetNodeIteratorForNode | libraries/model/src/ModelGraph.cpp:37-40 | The single-node overload is the vector overload with a one-element target list. It is invalid on an empty model. |
| NodeIterators.GetNodeIteratorForNodes | libraries/model/src/ModelGraph.cpp:42-45 | The vector overload keeps every stack entry inside the model. It is invalid on an empty model. |
| NodeIterators.Visit | libraries/model/include/ModelGraph.h:80-87 | Visiting the whole graph is visiting with no targets. It visits nothing on an empty model. |
| NodeIterators.VisitForNode | libraries/model/include/ModelGraph.h:89-97 | Visiting for one output node is visiting for that single target. It visits nothing on an empty model. |
| NodeIterators.VisitForNodes | libraries/model/include/ModelGraph.h:99-107 | Visiting for a list of output nodes visits nothing on an empty model. |
| Traversal.StepKeeps | libraries/model/src/ModelGraph.cpp:88-143 | A loop pass from a pending state either stays pending, extending the emitted sequence by the node it emits, or visits the deferred sink. The sink is visited only as the last stack entry, after all its sources, once the dependency closure of the seeds has been emitted. |
| Traversal.EmitKeeps | libraries/model/src/ModelGraph.cpp:108-119 | Emitting a ready top keeps the traversal pending with the node appended: still duplicate-free, still in dependency order. |
| Traversal.SinkKeeps | libraries/model/src/ModelGraph.cpp:121-131 | Visiting the ready deferred sink pushes nothing, because it has no dependents. It leaves an empty stack, and with the sink appended the dependency closure of the seeds has been emitted. |
| Traversal.ExploreKeeps | libraries/model/src/ModelGraph.cpp:86-144 | The whole stack loop from a pending state either emits a node and stays pending, or empties the stack. With an empty stack and no sink, the closure was already emitted. With a sink, the sink was visited last. |
| Traversal.NextKeeps | libraries/model/src/ModelGraph.cpp:83-151 | `Next` from a pending state yields a node not yielded before, keeping the emitted sequence duplicate-free and in dependency order. Once it yields the deferred sink, or yields nothing, the whole dependency closure of the seeds has been emitted. |
| Traversal.DependenciesFirst | libraries/model/include/ModelGraph.h:80-83 | In a dependency order, every node a node depends on, transitively, appears no later than that node. |
| Traversal.DrainCorrect | libraries/model/src/ModelGraph.cpp:83-151 | Draining the cursor from a pending state completes the traversal: no node twice, every node after all its sources, every node inside the closed scope, and the whole closure of the seeds covered. With a deferred sink, the sink is the last node. |
| Traversal.VisitActiveSubgraph | libraries/model/include/ModelGraph.h:99-107 | With targets, every node is visited at most once and after all its input nodes. A node is visited exactly when some target depends on it. |
| Traversal.VisitOneNode | libraries/model/include/ModelGraph.h:89-97 | With one target, exactly the nodes it depends on are visited, once each and in dependency order, and the target comes last. |
| Traversal.VisitWholeGraph | libraries/model/src/ModelGraph.cpp:51-151 | With no targets, exactly the nodes the chosen leaf depends on are visited, once each and in dependency order. The leaf comes last, and the first map entry is among the visited. |
| Traversal.VisitSingleSink | libraries/model/include/ModelGraph.h:80-87 | When the model has a single node without dependents, visiting the whole graph visits every node of the model exactly once, in dependency order, with that sink last. |
| Traversal.SinkClosureIsModel | libraries/model/src/ModelGraph.cpp:63-78 | With a single sink, the sink depends on exactly the nodes of the model, since following dependents from any node reaches it. |
| Scenarios.ChainVisit | libraries/model/src/ModelGraph.cpp:63-80 | For the chain A -> B -> C, visiting the whole graph from any first entry yields A, B, C. |
| Scenarios.TwoChainsVisit | libraries/model/src/ModelGraph.cpp:63-78 | For two disjoint chains A -> B and X -> Y, a whole-graph visit started in the first chain yields A, B only, although the model holds four nodes. |
| Walk.DiamondVisit | libraries/model/src/ModelGraph.cpp:97-143 | For the diamond A -> {B, D} -> E targeted at E, the visit is exactly A, B, D, E. B comes before D because E's first port is pushed last and so is explored first. |
| Walk.DiamondWholeVisit | libraries/model/src/ModelGraph.cpp:51-151 | Visiting the whole diamond from any first entry is exactly A, B, D, E. The search finds the leaf E, and E is emitted by the final step for the deferred sink. |
| Scenarios.ForkVisit | libraries/model/src/ModelGraph.cpp:121-131 | For A feeding two sinks B and D, a whole-graph visit started at A or B yields A, B only. D is never reached, because the chosen sink has no dependents to push. |

## Left out

- `AddNode`, `GetNodesByType`, `GetNodeOutput` and the bodies of the `Visit` templates: they are templates defined in `ModelGraph.tcc`, which is not part of this model. `Visit` is modelled from its documented contract, as draining the cursor.
- The internals of `Node`, `InputPort`, `OutputPort` and `ModelImpl::Reverse`: a node is its id, one list of source ids per input port, and its dependents list. `Reverse` is plain sequence reversal.
- `std::shared_ptr` ownership, pointer identity and lifetimes: a node is named by its id, and a null pointer is `None`.
- `unordered_map` iteration order: the first entry `_nodeMap.begin()` is the parameter `begin` of every constructor. It is consulted only in whole-graph mode.
- The iterator's `_model` field: `Next` never reads it, so the model is passed to each operation instead.
- Cyclic graphs, on which the loop of `Next` does not terminate: acyclicity is a precondition of every traversal operation.
- Target nodes outside the model: the code would dereference them, so the overloads require targets to be nodes of the model.
- Concurrency, and changes to the model during an iteration.
- Determinism of repeated whole-graph traversals is not stated as a lemma: `Visit` is a function of the model and `begin`, so two traversals with the same arguments are equal by construction.
- Traversal.VisitWholeGraph: states coverage of the chosen leaf's dependency closure, not of "all the nodes in the graph" as the `Visit` doc comment says. The code reaches only that closure: the deferred sink is a leaf, so the branch that pushes its dependents never pushes anything. Full coverage holds when the model has a single sink (`Traversal.VisitSingleSink`). A disconnected model (`Scenarios.TwoChainsVisit`) is not fully covered. Nor is a connected model with two sinks (`Scenarios.ForkVisit`). So the condition for full coverage is a single sink, not connectivity.
