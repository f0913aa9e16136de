# functor-framework core, modelled in Dafny

This project models the three places in the functor framework that carry
executable logic:

- `DAG<T>` (`core/dag-engine/mod.rs`): a node map guarded by an O(log n)
  depth bound. `add_node` refuses a node whose computed depth exceeds
  ⌈log₂ n⌉ of the current node count, and otherwise inserts it with no edges
  and raises the `max_depth` high-water mark. `traverse` walks the roots with a
  stack capped at the same bound, and `dfs_bounded` refuses on a full stack and
  otherwise pushes and pops the id. Modelled as the class `DagEngine.Dag`
  (fields `nodes: map<NodeId, Node<T>>` and `maxDepth: nat`), with the `Vec`
  stack as the class `DagEngine.NodeStack`. `add_node` is also given as a
  function on state values, `DagEngine.AddNodeStep`, which the method is proved
  equal to. The lemmas about whole runs of `add_node` calls are stated on that
  function.
- `DesignSolution::validate_complexity` (`iaas/design-protocol/mod.rs`): a
  gate that accepts only the `LogN` class (`DesignProtocol.ValidateComplexity`).
- `Implementation::validate_design_layer` (`baas/implementation-layer/mod.rs`):
  a fail-fast chain of three checks (complexity, then phenomemory tokens, then
  HDIS topology). Modelled as `ImplementationLayer.ValidateDesignLayer` over an
  `Implementation` value that holds the accessors it calls, as values or
  functions. The function
  returns the result and the calls it made, in order. It is proved equal to a
  general fail-fast reference, `FirstFailure`, applied to the three stage
  outcomes.

The integer bound `LogBound.CeilLog2` stands for
`(n as f64).log2().ceil() as usize`. It is 0 for n = 0, because log₂ 0 is -∞
and the saturating cast gives 0. It is also 0 for n = 1. It is characterised as
the least k with n ≤ 2^k.

A consequence the model makes explicit: the stack cap is 0 for a DAG of zero
or one node, so `traverse` fails with `StackOverflow` on every non-empty root
list of such a DAG. For two nodes or more, every root succeeds, because each
search starts on the empty stack and leaves it empty
(`DagEngine.Dag.Traverse`).

Cycle detection, topological ordering, binding resolution, an ordered
complexity budget and a QA ledger are not implemented in the source files
modelled here, so the model has none of them.

## Model

| member | source | states |
|---|---|---|
| `LogBound.CeilLog2` | core/dag-engine/mod.rs:26 | the bound is the least k with n ≤ 2^k (k > 0 implies 2^(k-1) < n); it is 0 exactly when n ≤ 1, matching the saturating cast of log₂ 0 |
| `LogBound.CeilLog2Monotone` | core/dag-engine/mod.rs:26 | the bound never decreases as the node count grows |
| `DagEngine.Dag.constructor` | core/dag-engine/mod.rs:13-18 | `new()` gives an empty node map with max_depth 0, which satisfies the depth invariant |
| `DagEngine.EmptyIsDepthBounded` | core/dag-engine/mod.rs:13-18 | the empty state has no nodes, max_depth 0, and satisfies max_depth ≤ CeilLog2(|nodes|) |
| `DagEngine.Dag.AddNode` | core/dag-engine/mod.rs:21-33 | refuses with ExceedsLogN iff depth > CeilLog2 of the pre-insert count, and then changes nothing; on success returns the id, maps it to a node with `data` and no edges, leaves other entries as they were, grows the map by one for a fresh id, sets max_depth to max(old, depth), and preserves the depth invariant |
| `DagEngine.AddNodeRejectsIffTooDeep` | core/dag-engine/mod.rs:23-28 | the result is Err(ExceedsLogN) exactly when the depth exceeds CeilLog2 of the count before insertion; otherwise Ok with the new id |
| `DagEngine.AddNodeRejectionChangesNothing` | core/dag-engine/mod.rs:26-28 | a refused node leaves the map and max_depth unchanged |
| `DagEngine.AddNodeInsertsOneEntry` | core/dag-engine/mod.rs:22-30 | an admitted node with a fresh id adds exactly that key, maps it to `data` with an empty edge list, and leaves every other entry as it was |
| `DagEngine.AddNodeRaisesMaxDepth` | core/dag-engine/mod.rs:31 | on success max_depth becomes the larger of its old value and the admitted depth, so it never decreases |
| `DagEngine.AddNodeKeepsDepthBound` | core/dag-engine/mod.rs:26-31 | one add_node call, admitted or refused, preserves max_depth ≤ CeilLog2(|nodes|) |
| `DagEngine.RunKeepsDepthBound` | core/dag-engine/mod.rs:8 | any sequence of add_node calls preserves the invariant max_depth ≤ CeilLog2(|nodes|) |
| `DagEngine.RunFromEmptyIsDepthBounded` | core/dag-engine/mod.rs:8 | every DAG built by `new()` followed by add_node calls satisfies the invariant |
| `DagEngine.RunNeverShrinks` | core/dag-engine/mod.rs:30-31 | over any run, max_depth never decreases and no id is ever removed |
| `DagEngine.NodeStack.constructor` | core/dag-engine/mod.rs:42 | `Vec::with_capacity` gives an empty stack whatever the capacity |
| `DagEngine.NodeStack.Push` | core/dag-engine/mod.rs:66 | push appends the id at the top |
| `DagEngine.NodeStack.Pop` | core/dag-engine/mod.rs:68 | pop on an empty stack returns None and changes nothing; otherwise it returns the top and removes exactly it |
| `DagEngine.Dag.DfsBounded` | core/dag-engine/mod.rs:52-70 | fails with StackOverflow iff the stack length is at least max_size; in every case the stack afterwards is identical to the stack before; on success the stack peaks at one above its entry length, within max_size |
| `DagEngine.Dag.Traverse` | core/dag-engine/mod.rs:35-50 | Ok iff the root list is empty or the DAG has at least two nodes (CeilLog2 > 0); on success every root was searched, and on failure it stopped after the first root; the stack never holds more than CeilLog2(|nodes|) ids (the O(log n) auxiliary-space bound) |
| `DesignProtocol.ValidateComplexity` | iaas/design-protocol/mod.rs:34-42 | Ok(()) exactly when `complexity()` is LogN; otherwise an Expected error whose `expected` is LogN and whose `actual` is the declared class, never LogN |
| `DesignProtocol.RejectsEveryOtherClass` | iaas/design-protocol/mod.rs:37-40 | every class other than LogN yields Err(Expected { expected: LogN, actual: that class }) |
| `DesignProtocol.DeterminedByDeclaredClass` | iaas/design-protocol/mod.rs:34-42 | two solutions, of any types, with equal declared classes get equal verdicts |
| `ImplementationLayer.FirstFailureOkIffAllOk` | baas/implementation-layer/mod.rs:15-26 | fail-fast sequencing succeeds iff every stage succeeds |
| `ImplementationLayer.FirstFailureIsEarliest` | baas/implementation-layer/mod.rs:15-26 | fail-fast sequencing returns the error of the earliest failing stage |
| `ImplementationLayer.FirstFailureOfThree` | baas/implementation-layer/mod.rs:17-26 | for three stages, the result is the first error in order, or Ok(()) |
| `ImplementationLayer.ValidateDesignLayer` | baas/implementation-layer/mod.rs:15-27 | the result is the error of the earliest failing stage in the order complexity, tokens, HDIS, and Ok(()) iff all three pass; the calls made are a non-empty prefix of complexity, load, validate tokens, verify HDIS |
| `ImplementationLayer.ComplexityFailureShortCircuits` | baas/implementation-layer/mod.rs:17 | a complexity failure returns its own error, and no tokens are loaded or validated and HDIS is not verified |
| `ImplementationLayer.PhenoTestsLoadedOnceAfterComplexity` | baas/implementation-layer/mod.rs:20-21 | `load_pheno_tests` is called once if the complexity check passed and never otherwise; it comes right after that check, and its tokens are the ones handed to `validate_tokens` |
| `ImplementationLayer.TokenFailureSkipsHdis` | baas/implementation-layer/mod.rs:21 | a token failure returns the QA matrix's error, and HDIS is not verified |
| `ImplementationLayer.HdisOnlyAfterBothPass` | baas/implementation-layer/mod.rs:24 | HDIS is verified exactly when both earlier checks passed, and then its outcome is the result |

## Left out

- `NodeId::new`, `compute_depth`, `find_roots` and the `Node` struct definition are not part of this model. The fresh id, the computed depth and the root list are parameters. `Node` is a datatype holding the data and the edge list that `add_node` builds.
- `LogBound.CeilLog2`: stands for the floating-point `log2().ceil()`. `f64` rounding of `log2` is not modelled: just above a power of two (n = 2^k + 1 for k ≥ 49, for example) `(n as f64).log2()` rounds to exactly k, so the source's bound there is one below `CeilLog2` and the source refuses a depth k + 1 that `DagEngine.Dag.AddNode` admits.
- The visitor closure `f` of `traverse` and `dfs_bounded`: neither method ever calls it, so the model's signatures omit it. Nothing is visited and no edge is followed, whatever the comment "Topological traversal" says.
- `DagEngine.Dag.AddNode`: an id that is already present is overwritten, as `HashMap::insert` does. Growth by exactly one entry is stated only for a fresh id, since id freshness belongs to `NodeId::new`.
- `Complexity`: the source files modelled here do not define this enum; only its `LogN` variant appears (iaas/design-protocol/mod.rs:36). The model's other four classes (constant, linear, polynomial, exponential) are a stand-in, and no proof depends on which other classes exist.
- `solution()`, `complexity()`, `qa_matrix()`, `validate_tokens`, `verify_hdis` and `load_pheno_tests` are trait methods without bodies here. In `ImplementationLayer.Implementation`, `solution()` and `load_pheno_tests()` are the value fields `solution` and `phenoTests`. `verify_hdis()` is the result field `hdis`. `complexity()` and `validate_tokens` are the function fields `complexity` (applied to `solution`) and `validateTokens`. `qa_matrix()` is folded into `validateTokens`. The `From` conversions that `?` applies are the three constructors of `ValidationError`.
- `DegradationError` and `Implementation::execute`: declarations without behaviour (string, float and duration payloads); not modelled.
- The `Phenotype`, `Phenomemory`, `Phenovalue` and `Archerion` traits, and the HDIS integration wrapper (`hdis/intergration_compliance_hdis_repo.rs`): signatures and forwarding to code that is not part of this model; not modelled.
- Concurrency and memory capacity: the source has none to model; `Vec` capacity does not affect contents.
