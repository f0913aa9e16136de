/**
 * The DAG engine: a node map whose admissions are bounded by ceil(log2 n) in depth,
 * and a traversal whose stack is capped by the same bound.
 *
 * `NodeId::new`, `compute_depth` and `find_roots` are not part of this model: the
 * fresh id, the computed depth and the root list are parameters of the operations.
 */
module DagEngine {
  import opened Results
  import opened LogBound

  /** Opaque node identity. */
  datatype NodeId = NodeId(raw: nat)

  /** A stored node: its payload and its outgoing edges. */
  datatype Node<T> = Node(data: T, edges: seq<NodeId>)

  datatype DepthViolation = ExceedsLogN

  datatype AuxSpaceViolation = StackOverflow

  /** The two fields of a `DAG<T>`, as a value. */
  datatype DagState<T> = DagState(nodes: map<NodeId, Node<T>>, maxDepth: nat)

  /** One `add_node(data)` call, with the id `NodeId::new` gave it and the depth `compute_depth` reported. */
  datatype Admission<T> = Admission(id: NodeId, data: T, depth: nat)

  function Max(a: nat, b: nat): nat {
    if a >= b then a else b
  }

  /** The field invariant of `DAG`: the depth high-water mark stays within the log bound. */
  predicate DepthBounded<T>(s: DagState<T>) {
    s.maxDepth <= CeilLog2(|s.nodes|)
  }

  /** The state `DAG::new` builds. */
  function Empty<T>(): DagState<T> {
    DagState(map[], 0)
  }

  /** `add_node` on a state value: the new state and the returned result. */
  function AddNodeStep<T>(s: DagState<T>, a: Admission<T>): (DagState<T>, Result<NodeId, DepthViolation>) {
    if a.depth > CeilLog2(|s.nodes|) then
      (s, Err(ExceedsLogN))
    else
      (DagState(s.nodes[a.id := Node(a.data, [])], Max(s.maxDepth, a.depth)), Ok(a.id))
  }

  /** Successive `add_node` calls from a given state. */
  function Run<T>(s: DagState<T>, calls: seq<Admission<T>>): DagState<T>
    decreases |calls|
  {
    if calls == [] then s else Run(AddNodeStep(s, calls[0]).0, calls[1..])
  }

  /** The value-level counterpart of the `Dag` constructor: `new()` satisfies the invariant. */
  lemma EmptyIsDepthBounded<T>()
    ensures Empty<T>().nodes == map[] && Empty<T>().maxDepth == 0
    ensures DepthBounded(Empty<T>())
  {
  }

  /** A node is refused exactly when its depth exceeds the bound of the count before insertion. */
  lemma AddNodeRejectsIffTooDeep<T>(s: DagState<T>, a: Admission<T>)
    ensures AddNodeStep(s, a).1.Err? <==> a.depth > CeilLog2(|s.nodes|)
    ensures AddNodeStep(s, a).1.Err? ==> AddNodeStep(s, a).1.error == ExceedsLogN
    ensures AddNodeStep(s, a).1.Ok? ==> AddNodeStep(s, a).1.value == a.id
  {
  }

  /** A refused node leaves the map and the high-water mark untouched. */
  lemma AddNodeRejectionChangesNothing<T>(s: DagState<T>, a: Admission<T>)
    requires a.depth > CeilLog2(|s.nodes|)
    ensures AddNodeStep(s, a).0 == s
  {
  }

  /** An admitted node with a fresh id adds exactly one entry, holding its data and no edges. */
  lemma AddNodeInsertsOneEntry<T>(s: DagState<T>, a: Admission<T>)
    requires a.depth <= CeilLog2(|s.nodes|)
    requires a.id !in s.nodes
    ensures var t := AddNodeStep(s, a).0;
      && t.nodes.Keys == s.nodes.Keys + {a.id}
      && |t.nodes| == |s.nodes| + 1
      && t.nodes[a.id] == Node(a.data, [])
      && forall k :: k in s.nodes ==> t.nodes[k] == s.nodes[k]
  {
  }

  /** The high-water mark becomes the larger of its old value and the admitted depth. */
  lemma AddNodeRaisesMaxDepth<T>(s: DagState<T>, a: Admission<T>)
    requires a.depth <= CeilLog2(|s.nodes|)
    ensures AddNodeStep(s, a).0.maxDepth >= s.maxDepth
    ensures AddNodeStep(s, a).0.maxDepth >= a.depth
    ensures AddNodeStep(s, a).0.maxDepth == s.maxDepth || AddNodeStep(s, a).0.maxDepth == a.depth
  {
  }

  /** `add_node` keeps the field invariant, whether it admits or refuses. */
  lemma AddNodeKeepsDepthBound<T>(s: DagState<T>, a: Admission<T>)
    requires DepthBounded(s)
    ensures DepthBounded(AddNodeStep(s, a).0)
  {
    if a.depth <= CeilLog2(|s.nodes|) {
      var t := AddNodeStep(s, a).0;
      assert |s.nodes| <= |t.nodes| by {
        assert s.nodes.Keys <= t.nodes.Keys;
        SubsetCardinality(s.nodes.Keys, t.nodes.Keys);
      }
      CeilLog2Monotone(|s.nodes|, |t.nodes|);
    }
  }

  lemma SubsetCardinality<K>(a: set<K>, b: set<K>)
    requires a <= b
    ensures |a| <= |b|
  {
    assert b == a + (b - a);
  }

  /** The invariant holds after any sequence of `add_node` calls from a state that has it. */
  lemma {:induction false} RunKeepsDepthBound<T>(s: DagState<T>, calls: seq<Admission<T>>)
    requires DepthBounded(s)
    ensures DepthBounded(Run(s, calls))
    decreases |calls|
  {
    if calls != [] {
      AddNodeKeepsDepthBound(s, calls[0]);
      RunKeepsDepthBound(AddNodeStep(s, calls[0]).0, calls[1..]);
    }
  }

  /** Every DAG built from `new()` by `add_node` calls has max_depth <= ceil(log2 |nodes|). */
  lemma RunFromEmptyIsDepthBounded<T>(calls: seq<Admission<T>>)
    ensures Run(Empty<T>(), calls).maxDepth <= CeilLog2(|Run(Empty<T>(), calls).nodes|)
  {
    RunKeepsDepthBound(Empty<T>(), calls);
  }

  /** Neither the high-water mark nor the set of ids ever shrinks over a run. */
  lemma {:induction false} RunNeverShrinks<T>(s: DagState<T>, calls: seq<Admission<T>>)
    ensures Run(s, calls).maxDepth >= s.maxDepth
    ensures s.nodes.Keys <= Run(s, calls).nodes.Keys
    decreases |calls|
  {
    if calls != [] {
      RunNeverShrinks(AddNodeStep(s, calls[0]).0, calls[1..]);
    }
  }

  /** The `Vec<NodeId>` stack `traverse` allocates and `dfs_bounded` pushes and pops. */
  class NodeStack {
    var elems: seq<NodeId>

    /** `Vec::with_capacity`: the capacity does not change the contents. */
    constructor (capacity: nat)
      ensures elems == []
    {
      elems := [];
    }

    /** `Vec::len`. */
    function Len(): nat
      reads this
    {
      |elems|
    }

    method Push(id: NodeId)
      modifies this
      ensures elems == old(elems) + [id]
    {
      elems := elems + [id];
    }

    method Pop() returns (top: Option<NodeId>)
      modifies this
      ensures old(elems) == [] ==> top == None && elems == []
      ensures old(elems) != [] ==> top == Some(old(elems)[|old(elems)| - 1]) && elems == old(elems)[..|old(elems)| - 1]
    {
      if elems == [] {
        top := None;
      } else {
        top := Some(elems[|elems| - 1]);
        elems := elems[..|elems| - 1];
      }
    }
  }

  /** `DAG<T>`: the node map and the depth high-water mark, updated in place. */
  class Dag<T> {
    var nodes: map<NodeId, Node<T>>
    var maxDepth: nat

    function State(): DagState<T>
      reads this
    {
      DagState(nodes, maxDepth)
    }

    ghost predicate Valid()
      reads this
    {
      DepthBounded(State())
    }

    /** `DAG::new`: no nodes, max_depth 0. */
    constructor ()
      ensures nodes == map[] && maxDepth == 0
      ensures State() == Empty() && Valid()
    {
      nodes := map[];
      maxDepth := 0;
    }

    /**
     * `add_node(data)`, with `id` the value of `NodeId::new()` and `depth` the value
     * of `compute_depth(&id)`.
     */
    method AddNode(data: T, id: NodeId, depth: nat) returns (r: Result<NodeId, DepthViolation>)
      modifies this
      ensures (State(), r) == AddNodeStep(old(State()), Admission(id, data, depth))
      ensures r.Err? <==> depth > CeilLog2(|old(nodes)|)
      ensures r.Err? ==> r.error == ExceedsLogN && nodes == old(nodes) && maxDepth == old(maxDepth)
      ensures r.Ok? ==> r.value == id && nodes == old(nodes)[id := Node(data, [])]
      ensures r.Ok? ==> maxDepth == Max(old(maxDepth), depth) && maxDepth >= old(maxDepth)
      ensures r.Ok? && id !in old(nodes) ==> |nodes| == |old(nodes)| + 1
      ensures old(Valid()) ==> Valid()
    {
      ghost var before := State();
      if depth > CeilLog2(|nodes|) {
        return Err(ExceedsLogN);
      }
      nodes := nodes[id := Node(data, [])];
      maxDepth := Max(maxDepth, depth);
      r := Ok(id);
      if DepthBounded(before) {
        AddNodeKeepsDepthBound(before, Admission(id, data, depth));
      }
    }

    /**
     * `dfs_bounded(node_id, stack, max_size, f)`: refuses when the stack is full,
     * otherwise pushes and pops the id. The visitor `f` is never called, so it is
     * not a parameter here. `peak` is the largest stack length reached.
     */
    method DfsBounded(nodeId: NodeId, stack: NodeStack, maxSize: nat)
      returns (r: Result<(), AuxSpaceViolation>, ghost peak: nat)
      modifies stack
      ensures r.Err? <==> |old(stack.elems)| >= maxSize
      ensures stack.elems == old(stack.elems)
      ensures r.Err? ==> peak == |old(stack.elems)|
      ensures r.Ok? ==> peak == |old(stack.elems)| + 1 && peak <= maxSize
    {
      peak := stack.Len();
      if stack.Len() >= maxSize {
        return Err(StackOverflow), peak;
      }
      ghost var before := stack.elems;
      stack.Push(nodeId);
      peak := stack.Len();
      var popped := stack.Pop();
      assert stack.elems == (before + [nodeId])[..|before|] == before;
      r := Ok(());
    }

    /**
     * `traverse(f)`, with `roots` the value of `find_roots()`. Every search starts on
     * the empty stack, so it fails, at the first root, exactly when the bound
     * ceil(log2 |nodes|) is 0, that is when the DAG has at most one node.
     * `searches` counts the calls to `dfs_bounded`; `peak` is the largest stack
     * length reached, which never exceeds the O(log n) bound.
     */
    method Traverse(roots: seq<NodeId>) returns (r: Result<(), AuxSpaceViolation>, ghost searches: nat, ghost peak: nat)
      ensures r.Ok? <==> roots == [] || |nodes| >= 2
      ensures r.Ok? ==> searches == |roots|
      ensures r.Err? ==> searches == 1
      ensures peak <= CeilLog2(|nodes|)
      ensures peak == if r.Ok? && roots != [] then 1 else 0
    {
      var maxStackSize := CeilLog2(|nodes|);
      var stack := new NodeStack(maxStackSize);
      searches, peak := 0, 0;
      var i := 0;
      while i < |roots|
        invariant 0 <= i <= |roots|
        invariant stack.elems == []
        invariant searches == i
        invariant i > 0 ==> maxStackSize > 0
        invariant peak <= maxStackSize
        invariant peak == if i > 0 then 1 else 0
      {
        var res, searchPeak := DfsBounded(roots[i], stack, maxStackSize);
        searches := searches + 1;
        if res.Err? {
          return res, searches, peak;
        }
        peak := Max(peak, searchPeak);
        i := i + 1;
      }
      r := Ok(());
    }
  }
}
