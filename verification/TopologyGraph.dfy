/**
 The sub-topology builder: node ids are positions in the node list, a node may be listed twice, a
 merge lists another builder's nodes after its own, and the build wires edges by id.
 */
module TopologyGraph {
  import opened Basics

  class Node {
    var id: nat
    const isSource: bool

    constructor (isSource: bool)
      ensures this.isSource == isSource
    {
      this.isSource, id := isSource, 0;
    }
  }

  datatype Edge = Edge(parent: Node, node: Node)

  // The last position at which a node is listed
  function LastAt(nodes: seq<Node>, n: Node): (at: nat)
    requires n in nodes
    ensures at < |nodes| && nodes[at] == n
    ensures forall j :: at < j < |nodes| ==> nodes[j] != n
  {
    if nodes[|nodes| - 1] == n then |nodes| - 1
    else
      assert nodes == nodes[..|nodes| - 1] + [nodes[|nodes| - 1]];
      LastAt(nodes[..|nodes| - 1], n)
  }

  lemma LastAtUnique(nodes: seq<Node>, n: Node, at: nat)
    requires at < |nodes| && nodes[at] == n && forall j :: at < j < |nodes| ==> nodes[j] != n
    ensures n in nodes && LastAt(nodes, n) == at
  {
  }

  lemma LastAtConcat(a: seq<Node>, b: seq<Node>, n: Node)
    requires n in a + b
    ensures n in b ==> LastAt(a + b, n) == |a| + LastAt(b, n)
    ensures n !in b ==> n in a && LastAt(a + b, n) == LastAt(a, n)
  {
    if n in b {
      LastAtUnique(a + b, n, |a| + LastAt(b, n));
    } else {
      LastAtUnique(a + b, n, LastAt(a, n));
    }
  }

  /** Edges connect listed nodes and rise in the list: the graph has no cycle. */
  ghost predicate Rising(nodes: seq<Node>, edges: seq<Edge>) {
    forall e | e in edges ::
      e.parent in nodes && e.node in nodes && LastAt(nodes, e.parent) < LastAt(nodes, e.node)
  }

  // Where records go from a node, in the order the edges were added
  function Children(edges: seq<Edge>, n: Node): (cs: seq<Node>)
    ensures forall c | c in cs :: Edge(n, c) in edges
  {
    if edges == [] then []
    else
      var front, last := Children(edges[..|edges| - 1], n), edges[|edges| - 1];
      if last.parent == n then front + [last.node] else front
  }

  lemma ChildrenSnoc(edges: seq<Edge>, e: Edge, n: Node)
    ensures Children(edges + [e], n) == if e.parent == n then Children(edges, n) + [e.node] else Children(edges, n)
  {
    assert (edges + [e])[..|edges + [e]| - 1] == edges;
  }

  lemma {:induction false} ChildrenConcat(a: seq<Edge>, b: seq<Edge>, n: Node)
    ensures Children(a + b, n) == Children(a, n) + Children(b, n)
    decreases |b|
  {
    if b == [] {
      assert a + b == a;
    } else {
      assert (a + b)[..|a + b| - 1] == a + b[..|b| - 1];
      ChildrenConcat(a, b[..|b| - 1], n);
    }
  }

  lemma {:induction false} NoChildren(edges: seq<Edge>, n: Node)
    requires forall e | e in edges :: e.parent != n
    ensures Children(edges, n) == []
  {
    if edges != [] {
      NoChildren(edges[..|edges| - 1], n);
    }
  }

  /**
   Listing a node once more, as the joins do with their mergers, keeps the edges rising exactly
   when the node has no outgoing edge.
   */
  lemma RelistingKeepsRising(nodes: seq<Node>, edges: seq<Edge>, n: Node)
    requires Rising(nodes, edges)
    ensures Rising(nodes + [n], edges) <==> forall e | e in edges :: e.parent != n
  {
    forall m | m in nodes + [n] ensures LastAt(nodes + [n], m) == if m == n then |nodes| else LastAt(nodes, m) {
      LastAtConcat(nodes, [n], m);
    }
    forall e | e in edges && e.parent == n ensures !(LastAt(nodes + [n], e.parent) < LastAt(nodes + [n], e.node)) {
    }
  }

  /** A node listed once more, and an edge to it: rising exactly if the parent was listed and the node leads nowhere. */
  lemma NewEdgeKeepsRising(nodes: seq<Node>, edges: seq<Edge>, parent: Node, node: Node)
    requires Rising(nodes, edges)
    ensures Rising(nodes + [node], edges + [Edge(parent, node)])
            <==> parent in nodes && parent != node && forall e | e in edges :: e.parent != node
  {
    hide LastAt;
    var ns, es := nodes + [node], edges + [Edge(parent, node)];
    RelistingKeepsRising(nodes, edges, node);
    assert forall e | e in edges :: e in es;
    assert Edge(parent, node) in es && node in ns;
    LastAtConcat(nodes, [node], node);
    if parent in ns {
      LastAtConcat(nodes, [node], parent);
    }
    if Rising(ns, es) {
      assert LastAt(ns, parent) < LastAt(ns, node);
    }
  }

  lemma ListingsRise(a: seq<Node>, edgesA: seq<Edge>, b: seq<Node>, edgesB: seq<Edge>)
    requires Rising(a, edgesA) && Rising(b, edgesB)
    requires forall n | n in a :: n !in b
    ensures Rising(a + b, edgesA + edgesB)
  {
    forall e | e in edgesA + edgesB
      ensures e.parent in a + b && e.node in a + b && LastAt(a + b, e.parent) < LastAt(a + b, e.node)
    {
      assert e in edgesA || e in edgesB;
      LastAtConcat(a, b, e.parent);
      LastAtConcat(a, b, e.node);
    }
  }

  // --- What happens to a record that enters at a node ---

  // The nodes it is handed to, in order, as a tree
  datatype Flow = Flow(node: Node, next: seq<Flow>)

  ghost function FlowFrom(nodes: seq<Node>, edges: seq<Edge>, n: Node): Flow
    requires Rising(nodes, edges) && n in nodes
    decreases |nodes| - LastAt(nodes, n)
  {
    var cs := Children(edges, n);
    assert forall i :: 0 <= i < |cs| ==> Edge(n, cs[i]) in edges;
    Flow(n, seq(|cs|, i requires 0 <= i < |cs| => FlowFrom(nodes, edges, cs[i])))
  }

  // Graphs that agree on a closed set of nodes agree on the flows in it
  lemma {:induction false} SameFlow(nodes: seq<Node>, edges: seq<Edge>, nodes': seq<Node>, edges': seq<Edge>,
                                    inside: set<Node>, n: Node)
    requires Rising(nodes, edges) && Rising(nodes', edges') && n in inside
    requires forall m | m in inside :: m in nodes && m in nodes' && Children(edges, m) == Children(edges', m)
    requires forall m, c | m in inside && c in Children(edges, m) :: c in inside
    ensures FlowFrom(nodes, edges, n) == FlowFrom(nodes', edges', n)
    decreases |nodes| - LastAt(nodes, n)
  {
    var cs := Children(edges, n);
    forall i | 0 <= i < |cs| ensures FlowFrom(nodes, edges, cs[i]) == FlowFrom(nodes', edges', cs[i]) {
      assert cs[i] in cs && Edge(n, cs[i]) in edges;
      SameFlow(nodes, edges, nodes', edges', inside, cs[i]);
    }
    assert FlowFrom(nodes, edges, n).next == FlowFrom(nodes', edges', n).next;
  }

  /** A merge leaves every flow of both graphs as it was. */
  lemma MergeKeepsFlows(a: seq<Node>, edgesA: seq<Edge>, b: seq<Node>, edgesB: seq<Edge>)
    requires Rising(a, edgesA) && Rising(b, edgesB)
    requires forall n | n in a :: n !in b
    ensures Rising(a + b, edgesA + edgesB)
    ensures forall n | n in a :: FlowFrom(a + b, edgesA + edgesB, n) == FlowFrom(a, edgesA, n)
    ensures forall n | n in b :: FlowFrom(a + b, edgesA + edgesB, n) == FlowFrom(b, edgesB, n)
  {
    ListingsRise(a, edgesA, b, edgesB);
    var edges := edgesA + edgesB;
    forall n | n in a ensures Children(edges, n) == Children(edgesA, n) {
      ChildrenConcat(edgesA, edgesB, n);
      NoChildren(edgesB, n);
    }
    forall n | n in b ensures Children(edges, n) == Children(edgesB, n) {
      ChildrenConcat(edgesA, edgesB, n);
      NoChildren(edgesA, n);
    }
    forall n | n in a ensures FlowFrom(a + b, edges, n) == FlowFrom(a, edgesA, n) {
      SameFlow(a, edgesA, a + b, edges, (set m | m in a), n);
    }
    forall n | n in b ensures FlowFrom(a + b, edges, n) == FlowFrom(b, edgesB, n) {
      SameFlow(b, edgesB, a + b, edges, (set m | m in b), n);
    }
  }

  // --- The built graph: nodes by position, children by position ---

  ghost predicate RisingPositions(kids: seq<seq<nat>>) {
    forall i, c :: 0 <= i < |kids| && c in kids[i] ==> i < c < |kids|
  }

  // Forwarding in the built graph
  ghost function Forward(nodes: seq<Node>, kids: seq<seq<nat>>, at: nat): Flow
    requires RisingPositions(kids) && |kids| == |nodes| && at < |nodes|
    decreases |nodes| - at
  {
    Flow(nodes[at],
         seq(|kids[at]|, i requires 0 <= i < |kids[at]| =>
           assert kids[at][i] in kids[at]; Forward(nodes, kids, kids[at][i])))
  }

  function Positions(nodes: seq<Node>, cs: seq<Node>): seq<nat>
    requires forall c | c in cs :: c in nodes
  {
    seq(|cs|, k requires 0 <= k < |cs| => assert cs[k] in cs; LastAt(nodes, cs[k]))
  }

  lemma PositionsSnoc(nodes: seq<Node>, cs: seq<Node>, c: Node)
    requires c in nodes && forall x | x in cs :: x in nodes
    ensures (forall x | x in cs + [c] :: x in nodes)
            && Positions(nodes, cs + [c]) == Positions(nodes, cs) + [LastAt(nodes, c)]
  {
    hide LastAt;
  }

  // The children of the built node at a position, as positions; a stale listing has none
  ghost function WiredKids(nodes: seq<Node>, edges: seq<Edge>, i: nat): seq<nat>
    requires Rising(nodes, edges) && i < |nodes|
  {
    var cs := Children(edges, nodes[i]);
    assert forall c | c in cs :: Edge(nodes[i], c) in edges;
    if i == LastAt(nodes, nodes[i]) then Positions(nodes, cs) else []
  }

  ghost predicate Wired(nodes: seq<Node>, edges: seq<Edge>, kids: seq<seq<nat>>)
    requires Rising(nodes, edges)
  {
    |kids| == |nodes| && forall i :: 0 <= i < |nodes| ==> kids[i] == WiredKids(nodes, edges, i)
  }

  lemma NothingWired(nodes: seq<Node>)
    ensures forall i :: 0 <= i < |nodes| ==> WiredKids(nodes, [], i) == []
  {
  }

  lemma WireOne(nodes: seq<Node>, edges: seq<Edge>, e: Edge, i: nat)
    requires Rising(nodes, edges) && Rising(nodes, edges + [e]) && i < |nodes|
    requires e.parent in nodes && e.node in nodes
    ensures WiredKids(nodes, edges + [e], i) == if i == LastAt(nodes, e.parent)
                                                then WiredKids(nodes, edges, i) + [LastAt(nodes, e.node)]
                                                else WiredKids(nodes, edges, i)
  {
    hide LastAt, Children, Positions;
    ChildrenSnoc(edges, e, nodes[i]);
    var cs := Children(edges, nodes[i]);
    assert forall c | c in cs :: Edge(nodes[i], c) in edges;
    if e.parent == nodes[i] {
      PositionsSnoc(nodes, cs, e.node);
    }
  }

  lemma WiredRises(nodes: seq<Node>, edges: seq<Edge>, kids: seq<seq<nat>>)
    requires Rising(nodes, edges) && Wired(nodes, edges, kids)
    ensures RisingPositions(kids)
  {
    hide LastAt, Children;
    forall i, c | 0 <= i < |kids| && c in kids[i] ensures i < c < |kids| {
      assert kids[i] == WiredKids(nodes, edges, i);
      var k :| 0 <= k < |kids[i]| && kids[i][k] == c;
      assert Edge(nodes[i], Children(edges, nodes[i])[k]) in edges;
    }
  }

  /** What the built graph forwards from a node's id is the flow of the graph that was drawn. */
  lemma {:induction false} BuildKeepsFlow(nodes: seq<Node>, edges: seq<Edge>, kids: seq<seq<nat>>, n: Node)
    requires Rising(nodes, edges) && Wired(nodes, edges, kids) && n in nodes
    ensures RisingPositions(kids)
    ensures Forward(nodes, kids, LastAt(nodes, n)) == FlowFrom(nodes, edges, n)
    decreases |nodes| - LastAt(nodes, n)
  {
    hide LastAt, Children;
    WiredRises(nodes, edges, kids);
    var at, cs := LastAt(nodes, n), Children(edges, n);
    assert kids[at] == WiredKids(nodes, edges, at);
    forall i | 0 <= i < |cs| ensures Forward(nodes, kids, kids[at][i]) == FlowFrom(nodes, edges, cs[i]) {
      assert cs[i] in cs && Edge(n, cs[i]) in edges;
      BuildKeepsFlow(nodes, edges, kids, cs[i]);
    }
    assert Forward(nodes, kids, at).next == FlowFrom(nodes, edges, n).next;
  }

  class Builder {
    var nodes: seq<Node>
    var edges: seq<Edge>
    var stores: map<string, nat>  // store builders by name, as handles

    constructor ()
      ensures nodes == [] && edges == [] && stores == map[] && Valid()
    {
      nodes, edges, stores := [], [], map[];
    }

    // Every listed node is found at its id, the position it was listed at last
    ghost predicate IdsValid()
      reads this, nodes
    {
      forall n | n in nodes :: n.id == LastAt(nodes, n)
    }

    ghost predicate Valid()
      reads this, nodes
    {
      IdsValid() && Rising(nodes, edges)
    }

    method AddNode(node: Node)
      requires IdsValid()
      modifies this`nodes, node`id
      ensures nodes == old(nodes) + [node] && IdsValid() && node.id == |old(nodes)|
      ensures old(Valid()) && (forall e | e in edges :: e.parent != node) ==> Valid()
    {
      forall m | m in nodes + [node]
        ensures LastAt(nodes + [node], m) == if m == node then |nodes| else LastAt(nodes, m)
      {
        LastAtConcat(nodes, [node], m);
      }
      if Rising(nodes, edges) {
        RelistingKeepsRising(nodes, edges, node);
      }
      node.id := |nodes|;
      nodes := nodes + [node];
    }

    method AddEdge(parent: Node, node: Node)
      modifies this`edges
      ensures edges == old(edges) + [Edge(parent, node)]
    {
      edges := edges + [Edge(parent, node)];
    }

    method AddStore(name: string, store: nat)
      modifies this`stores
      ensures stores == old(stores)[name := store]
    {
      stores := stores[name := store];
    }

    /** The step every DSL call takes: valid exactly for a node that leads nowhere yet, below a listed one. */
    method AddNodeWithEdge(parent: Node, node: Node)
      requires IdsValid()
      modifies this`nodes, this`edges, node`id
      ensures IdsValid() && nodes == old(nodes) + [node] && edges == old(edges) + [Edge(parent, node)]
      ensures node.id == |old(nodes)|
      ensures old(Valid()) ==>
                (Valid() <==> parent in old(nodes) && parent != node && forall e | e in old(edges) :: e.parent != node)
    {
      if Rising(nodes, edges) {
        NewEdgeKeepsRising(nodes, edges, parent, node);
      }
      AddNode(node);
      AddEdge(parent, node);
    }

    /** Takes over another builder's nodes and edges; ids stay positions and every flow stays the same. */
    method MergeSubTopology(sub: Builder)
      requires Valid() && sub.Valid() && sub != this
      requires forall n | n in nodes :: n !in sub.nodes
      modifies this, sub, set n | n in sub.nodes
      ensures Valid() && sub.nodes == [] && sub.edges == []
      ensures nodes == old(nodes) + old(sub.nodes) && edges == old(edges) + old(sub.edges)
      ensures forall n | n in old(nodes) :: n.id == old(n.id)
      ensures forall n | n in old(sub.nodes) :: n.id == |old(nodes)| + old(n.id)
      ensures forall n | n in old(nodes) :: FlowFrom(nodes, edges, n) == FlowFrom(old(nodes), old(edges), n)
      ensures forall n | n in old(sub.nodes) :: FlowFrom(nodes, edges, n) == FlowFrom(old(sub.nodes), old(sub.edges), n)
      ensures stores == old(stores) + old(sub.stores)
    {
      var ns, es := sub.nodes, sub.edges;
      for i := 0 to |ns|
        invariant nodes == old(nodes) + ns[..i] && edges == old(edges) && sub.nodes == ns && sub.edges == es
        invariant IdsValid() && stores == old(stores) && sub.stores == old(sub.stores)
      {
        AddNode(ns[i]);
        assert ns[..i + 1] == ns[..i] + [ns[i]];
      }
      assert ns[..|ns|] == ns;
      for i := 0 to |es|
        invariant edges == old(edges) + es[..i] && nodes == old(nodes) + ns && sub.nodes == ns && sub.edges == es
        invariant IdsValid() && stores == old(stores) && sub.stores == old(sub.stores)
      {
        AddEdge(es[i].parent, es[i].node);
        assert es[..i + 1] == es[..i] + [es[i]];
      }
      assert es[..|es|] == es;
      MergeStores(sub);
      sub.RemoveAll();
      MergeKeepsFlows(old(nodes), old(edges), ns, es);
      forall n | n in nodes
        ensures n in old(nodes) ==> LastAt(nodes, n) == LastAt(old(nodes), n)
        ensures n in ns ==> LastAt(nodes, n) == |old(nodes)| + LastAt(ns, n)
      {
        LastAtConcat(old(nodes), ns, n);
      }
    }

    // The other builder's stores, in whatever order its map is walked
    method MergeStores(sub: Builder)
      requires sub != this
      modifies this`stores
      ensures stores == old(stores) + sub.stores
    {
      var todo := sub.stores.Keys;
      while todo != {}
        invariant todo <= sub.stores.Keys
        invariant stores == old(stores) + (sub.stores - todo)
        decreases |todo|
      {
        var name :| name in todo;
        todo := todo - {name};
        AddStore(name, sub.stores[name]);
      }
      assert sub.stores - {} == sub.stores;
    }

    method RemoveAll()
      modifies this`nodes, this`edges
      ensures nodes == [] && edges == []
    {
      nodes, edges := [], [];
    }

    /** One built node per listing, wired by id. */
    method Build() returns (kids: seq<seq<nat>>)
      requires Valid()
      ensures Wired(nodes, edges, kids) && RisingPositions(kids)
      ensures forall n | n in nodes :: Forward(nodes, kids, n.id) == FlowFrom(nodes, edges, n)
    {
      hide LastAt, Children;
      var nds := new seq<nat>[|nodes|](_ => []);
      assert forall i :: 0 <= i < |nodes| ==> WiredKids(nodes, [], i) == [] by { NothingWired(nodes); }
      assert edges[..0] == [];
      for i := 0 to |edges|
        invariant nds.Length == |nodes|
        invariant Rising(nodes, edges[..i])
        invariant Wired(nodes, edges[..i], nds[..])
      {
        var e := edges[i];
        assert e in edges;
        assert edges[..i + 1] == edges[..i] + [e];
        forall k | 0 <= k < |nodes| {
          WireOne(nodes, edges[..i], e, k);
        }
        nds[e.parent.id] := nds[e.parent.id] + [e.node.id];
      }
      assert edges[..|edges|] == edges;
      kids := nds[..];
      WiredRises(nodes, edges, kids);
      forall n | n in nodes ensures Forward(nodes, kids, n.id) == FlowFrom(nodes, edges, n) {
        BuildKeepsFlow(nodes, edges, kids, n);
      }
    }

    // The first edge that leads to the node; ids tell listed nodes apart
    method Parent(node: Node) returns (parent: Option<Node>)
      requires Valid() && node in nodes
      ensures parent.Some? ==> Edge(parent.value, node) in edges
      ensures parent.None? <==> forall e | e in edges :: e.node != node
    {
      for i := 0 to |edges|
        invariant forall j :: 0 <= j < i ==> edges[j].node != node
      {
        assert edges[i] in edges;
        if edges[i].node.id == node.id {
          return Some(edges[i].parent);
        }
      }
      parent := None;
    }

    // A path of edges down to a node, with no source below its top
    ghost predicate Climbed(path: seq<Node>, node: Node)
      reads this
    {
      && path != [] && path[|path| - 1] == node
      && (forall i :: 0 <= i < |path| - 1 ==> Edge(path[i], path[i + 1]) in edges)
      && (forall i :: 0 < i < |path| ==> !path[i].isSource)
    }

    /** Climbs from a node along first parents; ends, because ids fall, at a source or at a root that is none. */
    method NodeSource(node: Node) returns (source: Option<Node>)
      requires Valid() && node in nodes
      ensures exists path: seq<Node> ::
                && Climbed(path, node)
                && if source.Some? then source.value == path[0] && path[0].isSource
                   else !path[0].isSource && forall e | e in edges :: e.node != path[0]
      decreases node.id
    {
      if node.isSource {
        assert Climbed([node], node);
        return Some(node);
      }
      var parent := Parent(node);
      if parent.None? {
        assert Climbed([node], node);
        return None;
      }
      source := NodeSource(parent.value);
      ghost var path: seq<Node> :|
        && Climbed(path, parent.value)
        && if source.Some? then source.value == path[0] && path[0].isSource
           else !path[0].isSource && forall e | e in edges :: e.node != path[0];
      assert Climbed(path + [node], node);
    }
  }

  ghost function JoinEdges(before: seq<Edge>, left: Node, right: Node, leftJoiner: Node, rightJoiner: Node,
                           merger: Node): seq<Edge>
  {
    before + [Edge(left, leftJoiner)] + [Edge(right, rightJoiner)]
    + [Edge(leftJoiner, merger)] + [Edge(rightJoiner, merger)]
  }

  // Nodes and edges of two graphs, the second of which may be the first itself
  ghost function Together<T>(same: bool, a: seq<T>, b: seq<T>): seq<T> {
    if same then a else a + b
  }

  // Another graph is taken over first, unless it is this one already
  method TakeOver(b: Builder, other: Builder, left: Node, right: Node)
    requires b.Valid() && other.Valid() && left in b.nodes && right in other.nodes
    requires b != other ==> forall n | n in b.nodes :: n !in other.nodes
    modifies b, other, set n | n in other.nodes
    ensures b.Valid() && left in b.nodes && right in b.nodes
    ensures b.nodes == Together(b == other, old(b.nodes), old(other.nodes))
    ensures b.edges == Together(b == other, old(b.edges), old(other.edges))
    ensures b != other ==> other.nodes == [] && other.edges == []
  {
    if b != other {
      b.MergeSubTopology(other);
    }
  }

  /**
   A table-table join as the DSL draws it, in one graph or across two: two joiners and a merger that is listed
   twice.
   */
  method DrawJoin(b: Builder, other: Builder, left: Node, right: Node, leftJoiner: Node, rightJoiner: Node,
                  merger: Node)
    requires b.Valid() && other.Valid() && left in b.nodes && right in other.nodes
    requires b != other ==> forall n | n in b.nodes :: n !in other.nodes
    requires leftJoiner !in b.nodes && rightJoiner !in b.nodes && merger !in b.nodes
    requires leftJoiner !in other.nodes && rightJoiner !in other.nodes && merger !in other.nodes
    requires leftJoiner != rightJoiner && leftJoiner != merger && rightJoiner != merger
    modifies b, other, leftJoiner, rightJoiner, merger, set n | n in other.nodes
    ensures b.Valid() && b.nodes == Together(b == other, old(b.nodes), old(other.nodes))
                                    + [leftJoiner] + [rightJoiner] + [merger] + [merger]
    ensures b.edges == JoinEdges(Together(b == other, old(b.edges), old(other.edges)),
                                 left, right, leftJoiner, rightJoiner, merger)
    ensures merger.id == |b.nodes| - 1
  {
    hide LastAt, Children, Rising, FlowFrom;
    TakeOver(b, other, left, right);
    AddJoiners(b, left, right, leftJoiner, rightJoiner, merger);
  }

  method AddJoiners(b: Builder, left: Node, right: Node, leftJoiner: Node, rightJoiner: Node, merger: Node)
    requires b.Valid() && left in b.nodes && right in b.nodes
    requires leftJoiner !in b.nodes && rightJoiner !in b.nodes && merger !in b.nodes
    requires leftJoiner != rightJoiner && leftJoiner != merger && rightJoiner != merger
    modifies b`nodes, b`edges, leftJoiner`id, rightJoiner`id, merger`id
    ensures b.Valid() && b.nodes == old(b.nodes) + [leftJoiner] + [rightJoiner] + [merger] + [merger]
    ensures b.edges == JoinEdges(old(b.edges), left, right, leftJoiner, rightJoiner, merger)
    ensures merger.id == |b.nodes| - 1
  {
    hide LastAt, Children, Rising;
    AddBelow(b, left, leftJoiner);
    AddBelow(b, right, rightJoiner);
    AddMerger(b, leftJoiner, rightJoiner, merger);
  }

  // A merger, listed below one node and then below another
  method AddMerger(b: Builder, left: Node, right: Node, merger: Node)
    requires b.Valid() && left in b.nodes && right in b.nodes && merger !in b.nodes
    modifies b`nodes, b`edges, merger`id
    ensures b.Valid() && b.nodes == old(b.nodes) + [merger] + [merger]
    ensures b.edges == old(b.edges) + [Edge(left, merger)] + [Edge(right, merger)]
    ensures merger.id == |b.nodes| - 1
  {
    hide LastAt, Children, Rising;
    AddBelow(b, left, merger);
    b.AddNodeWithEdge(right, merger);
  }

  // A node that is not listed yet, below one that is
  method AddBelow(b: Builder, parent: Node, node: Node)
    requires b.Valid() && parent in b.nodes && node !in b.nodes
    modifies b`nodes, b`edges, node`id
    ensures b.Valid() && b.nodes == old(b.nodes) + [node] && b.edges == old(b.edges) + [Edge(parent, node)]
    ensures node in b.nodes && forall n | n in old(b.nodes) :: n in b.nodes
    ensures forall e | e in b.edges :: e.parent in old(b.nodes)
  {
    hide LastAt, Children;
    assert forall e | e in b.edges :: e.parent in b.nodes;
    b.AddNodeWithEdge(parent, node);
  }

  /** Each side keeps its children and gains its joiner, and both joiners hand on to the one merger. */
  lemma JoinChildren(before: seq<Edge>, left: Node, right: Node, leftJoiner: Node, rightJoiner: Node, merger: Node,
                     n: Node)
    ensures Children(JoinEdges(before, left, right, leftJoiner, rightJoiner, merger), n)
            == Children(before, n)
               + (if n == left then [leftJoiner] else []) + (if n == right then [rightJoiner] else [])
               + (if n == leftJoiner then [merger] else []) + (if n == rightJoiner then [merger] else [])
  {
    var one := before + [Edge(left, leftJoiner)];
    var two := one + [Edge(right, rightJoiner)];
    var three := two + [Edge(leftJoiner, merger)];
    ChildrenSnoc(before, Edge(left, leftJoiner), n);
    ChildrenSnoc(one, Edge(right, rightJoiner), n);
    ChildrenSnoc(two, Edge(leftJoiner, merger), n);
    ChildrenSnoc(three, Edge(rightJoiner, merger), n);
  }

  /** Merging two streams, of one graph or of two: a merger is listed below both nodes. */
  method DrawMerge(b: Builder, other: Builder, left: Node, right: Node, merger: Node)
    requires b.Valid() && other.Valid() && left in b.nodes && right in other.nodes
    requires b != other ==> forall n | n in b.nodes :: n !in other.nodes
    requires merger !in b.nodes && merger !in other.nodes
    modifies b, other, merger, set n | n in other.nodes
    ensures b.Valid()
    ensures b.nodes == Together(b == other, old(b.nodes), old(other.nodes)) + [merger] + [merger]
    ensures b.edges == Together(b == other, old(b.edges), old(other.edges))
                       + [Edge(left, merger)] + [Edge(right, merger)]
    ensures merger.id == |b.nodes| - 1
  {
    hide LastAt, Children, FlowFrom, Rising;
    TakeOver(b, other, left, right);
    AddMerger(b, left, right, merger);
  }
}
