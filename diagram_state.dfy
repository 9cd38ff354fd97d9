/**
 * The diagram store: the node and edge lists plus the snap settings, and
 * the mutators the editor calls. Each mutator replaces the lists with a
 * pure function of the old ones; the functions and their lemmas come first,
 * the store class after them.
 */
module DiagramState {
  import opened Js
  import opened Graph

  /** React Flow's `Connection`; `None` stands for `null`. */
  datatype Connection = Connection(
    source: Option<string>,
    target: Option<string>,
    sourceHandle: Option<string>,
    targetHandle: Option<string>)

  predicate Present(s: Option<string>)
  {
    s.Some? && s.value != ""
  }

  // ---------------------------------------------------------------------
  // onConnect
  // ---------------------------------------------------------------------

  /** The edge `onConnect` appends, or `None` when source or target is missing or empty. */
  function ConnectEdge(c: Connection, now: nat): (r: Option<Edge>)
    ensures r.Some? <==> Present(c.source) && Present(c.target)
    ensures r.Some? ==>
      && r.value.source == c.source.value && r.value.target == c.target.value
      && r.value.sourceHandle == c.sourceHandle && r.value.targetHandle == c.targetHandle
      && r.value.markerEnd == Some(ArrowMarker(Str(EdgeInk)))
      && Get(r.value.style, "stroke") == Str(EdgeInk)
      && r.value.id == NatToString(now) && !r.value.selected && r.value.edgeType.None?
  {
    if !Present(c.source) || !Present(c.target) then None
    else Some(Edge(NatToString(now), c.source.value, c.target.value, c.sourceHandle, c.targetHandle,
                   None, map["stroke" := Str(EdgeInk)], Some(ArrowMarker(Str(EdgeInk))), map[], false))
  }

  // ---------------------------------------------------------------------
  // updateNodeData
  // ---------------------------------------------------------------------

  /** `nodes.map(n => n.id === id ? {...n, data: {...n.data, ...patch}} : n)`. */
  function MergeData(nodes: seq<Node>, id: string, patch: map<string, Value>): (r: seq<Node>)
    ensures |r| == |nodes|
    ensures forall i :: 0 <= i < |nodes| && nodes[i].id != id ==> r[i] == nodes[i]
    ensures forall i :: 0 <= i < |nodes| && nodes[i].id == id ==> r[i] == nodes[i].(data := nodes[i].data + patch)
  {
    if nodes == [] then []
    else
      var n := nodes[0];
      [if n.id == id then n.(data := n.data + patch) else n] + MergeData(nodes[1..], id, patch)
  }

  /** After a merge, a patched node reads every patch key from the patch and every other key as before. */
  lemma MergeDataKeys(nodes: seq<Node>, id: string, patch: map<string, Value>, i: nat, k: string)
    requires i < |nodes| && nodes[i].id == id
    ensures k in patch ==> Get(MergeData(nodes, id, patch)[i].data, k) == patch[k]
    ensures k !in patch ==> Get(MergeData(nodes, id, patch)[i].data, k) == Get(nodes[i].data, k)
  {
  }

  /** Merging the same patch twice is merging it once. */
  lemma MergeDataIdempotent(nodes: seq<Node>, id: string, patch: map<string, Value>)
    ensures MergeData(MergeData(nodes, id, patch), id, patch) == MergeData(nodes, id, patch)
  {
    var once := MergeData(nodes, id, patch);
    var twice := MergeData(once, id, patch);
    forall i | 0 <= i < |nodes| ensures twice[i] == once[i]
    {
      if nodes[i].id == id {
        assert once[i].data + patch == nodes[i].data + patch;
      }
    }
  }

  // ---------------------------------------------------------------------
  // updateEdge
  // ---------------------------------------------------------------------

  /** `edges.map(e => e.id === id ? updater(e) : e)`. */
  function UpdateEdges(edges: seq<Edge>, id: string, updater: Edge -> Edge): (r: seq<Edge>)
    ensures |r| == |edges|
    ensures forall i :: 0 <= i < |edges| ==> r[i] == if edges[i].id == id then updater(edges[i]) else edges[i]
  {
    if edges == [] then [] else [if edges[0].id == id then updater(edges[0]) else edges[0]] + UpdateEdges(edges[1..], id, updater)
  }

  lemma UpdateEdgesAbsent(edges: seq<Edge>, id: string, updater: Edge -> Edge)
    requires forall i :: 0 <= i < |edges| ==> edges[i].id != id
    ensures UpdateEdges(edges, id, updater) == edges
  {
  }

  // ---------------------------------------------------------------------
  // removeSelected
  // ---------------------------------------------------------------------

  /** The ids of the selected nodes. */
  function SelectedIds(nodes: seq<Node>): set<string>
  {
    set i | 0 <= i < |nodes| && nodes[i].selected :: nodes[i].id
  }

  /** `nodes.filter(n => !ids.has(n.id))`. */
  function DropIds(nodes: seq<Node>, ids: set<string>): (r: seq<Node>)
    ensures |r| <= |nodes|
    ensures forall i :: 0 <= i < |r| ==> r[i].id !in ids
    ensures forall n :: n in r <==> n in nodes && n.id !in ids
  {
    if nodes == [] then []
    else (if nodes[0].id in ids then [] else [nodes[0]]) + DropIds(nodes[1..], ids)
  }

  /** `edges.filter(e => !e.selected && !ids.has(e.source) && !ids.has(e.target))`. */
  function KeepEdges(edges: seq<Edge>, ids: set<string>): (r: seq<Edge>)
    ensures |r| <= |edges|
    ensures forall e :: e in r <==> e in edges && !e.selected && e.source !in ids && e.target !in ids
  {
    if edges == [] then []
    else
      var e := edges[0];
      (if !e.selected && e.source !in ids && e.target !in ids then [e] else []) + KeepEdges(edges[1..], ids)
  }

  function RemoveSelectedNodes(nodes: seq<Node>): seq<Node>
  {
    DropIds(nodes, SelectedIds(nodes))
  }

  function RemoveSelectedEdges(nodes: seq<Node>, edges: seq<Edge>): seq<Edge>
  {
    KeepEdges(edges, SelectedIds(nodes))
  }

  /** `a` is `b` with some elements left out, order kept. */
  predicate Subsequence<T(==)>(a: seq<T>, b: seq<T>)
  {
    a == [] || (b != [] && ((a[0] == b[0] && Subsequence(a[1..], b[1..])) || Subsequence(a, b[1..])))
  }

  lemma {:induction false} DropIdsSubsequence(nodes: seq<Node>, ids: set<string>)
    ensures Subsequence(DropIds(nodes, ids), nodes)
  {
    if nodes != [] {
      DropIdsSubsequence(nodes[1..], ids);
      if nodes[0].id !in ids {
        assert DropIds(nodes, ids) == [nodes[0]] + DropIds(nodes[1..], ids);
      } else {
        assert DropIds(nodes, ids) == DropIds(nodes[1..], ids);
      }
    }
  }

  /**
   * After removal no selected node is left, every node whose id no selected
   * node carries is kept, and the kept nodes are in their old order.
   */
  lemma RemoveSelectedNodesSpec(nodes: seq<Node>)
    ensures forall n :: n in RemoveSelectedNodes(nodes) ==> !n.selected
    ensures forall n :: n in nodes && n.id !in SelectedIds(nodes) ==> n in RemoveSelectedNodes(nodes)
    ensures Subsequence(RemoveSelectedNodes(nodes), nodes)
  {
    var ids := SelectedIds(nodes);
    forall n | n in RemoveSelectedNodes(nodes) ensures !n.selected
    {
      var i :| 0 <= i < |nodes| && nodes[i] == n;
      assert nodes[i].selected ==> n.id in ids;
    }
    DropIdsSubsequence(nodes, ids);
  }

  /** Every kept edge is unselected and touches no remaining node's id that was removed. */
  lemma RemoveSelectedEdgesSpec(nodes: seq<Node>, edges: seq<Edge>)
    ensures forall e :: e in RemoveSelectedEdges(nodes, edges) ==>
      && !e.selected
      && (e.source in Ids(nodes) ==> e.source in Ids(RemoveSelectedNodes(nodes)))
      && (e.target in Ids(nodes) ==> e.target in Ids(RemoveSelectedNodes(nodes)))
  {
    var kept := RemoveSelectedNodes(nodes);
    var ids := SelectedIds(nodes);
    forall e, id | e in RemoveSelectedEdges(nodes, edges) && id in Ids(nodes) && (id == e.source || id == e.target)
      ensures id in Ids(kept)
    {
      var i :| 0 <= i < |nodes| && nodes[i].id == id;
      assert nodes[i] in kept;
      var j :| 0 <= j < |kept| && kept[j] == nodes[i];
    }
  }

  /**
   * A child of a removed group is kept, unchanged, and its `parentNode`
   * now names no remaining node.
   */
  lemma RemoveSelectedOrphans(nodes: seq<Node>, child: Node)
    requires child in nodes && !child.selected && child.id !in SelectedIds(nodes)
    requires child.parentNode.Some? && child.parentNode.value in SelectedIds(nodes)
    ensures child in RemoveSelectedNodes(nodes)
    ensures child.parentNode.value !in Ids(RemoveSelectedNodes(nodes))
  {
    var kept := RemoveSelectedNodes(nodes);
    assert forall j :: 0 <= j < |kept| ==> kept[j].id != child.parentNode.value;
  }

  /** Removing twice removes nothing more. */
  lemma RemoveSelectedIdempotent(nodes: seq<Node>, edges: seq<Edge>)
    ensures RemoveSelectedNodes(RemoveSelectedNodes(nodes)) == RemoveSelectedNodes(nodes)
    ensures RemoveSelectedEdges(RemoveSelectedNodes(nodes), RemoveSelectedEdges(nodes, edges)) == RemoveSelectedEdges(nodes, edges)
  {
    var kept := RemoveSelectedNodes(nodes);
    RemoveSelectedNodesSpec(nodes);
    assert forall j :: 0 <= j < |kept| ==> kept[j] in kept;
    assert SelectedIds(kept) == {};
    DropIdsNone(kept);
    KeepEdgesUnselected(RemoveSelectedEdges(nodes, edges));
  }

  lemma {:induction false} DropIdsNone(nodes: seq<Node>)
    ensures DropIds(nodes, {}) == nodes
  {
    if nodes != [] {
      DropIdsNone(nodes[1..]);
    }
  }

  lemma {:induction false} KeepEdgesUnselected(edges: seq<Edge>)
    requires forall i :: 0 <= i < |edges| ==> !edges[i].selected
    ensures KeepEdges(edges, {}) == edges
  {
    if edges != [] {
      KeepEdgesUnselected(edges[1..]);
    }
  }

  // ---------------------------------------------------------------------
  // duplicateSelected
  // ---------------------------------------------------------------------

  function Selected(nodes: seq<Node>): (r: seq<Node>)
    ensures |r| <= |nodes|
    ensures forall n :: n in r <==> n in nodes && n.selected
  {
    if nodes == [] then [] else (if nodes[0].selected then [nodes[0]] else []) + Selected(nodes[1..])
  }

  /** The clone of the `idx`-th selected node. */
  function Clone(n: Node, now: nat, idx: nat, rand: nat): Node
  {
    n.(id := MakeId("n", now, idx, rand), selected := false, position := Shift(n.position, 40.0, 40.0))
  }

  /** `selected.map((n, idx) => clone)`, numbering from `start`. */
  function Clones(sel: seq<Node>, now: nat, rand: nat -> nat, start: nat): (r: seq<Node>)
    ensures |r| == |sel|
    ensures forall i :: 0 <= i < |sel| ==> r[i] == Clone(sel[i], now, start + i, rand(start + i))
  {
    if sel == [] then [] else [Clone(sel[0], now, start, rand(start))] + Clones(sel[1..], now, rand, start + 1)
  }

  /** The nodes after `duplicateSelected`; with nothing selected the list is kept. */
  function Duplicate(nodes: seq<Node>, now: nat, rand: nat -> nat): (r: seq<Node>)
    ensures Selected(nodes) == [] ==> r == nodes
  {
    if Selected(nodes) == [] then nodes else nodes + Clones(Selected(nodes), now, rand, 0)
  }

  /** `c` is a clone of `n`: same type, data, style and parent, shifted by (40, 40), not selected. */
  predicate CloneOf(c: Node, n: Node)
  {
    && c.nodeType == n.nodeType && c.data == n.data && c.style == n.style
    && c.parentNode == n.parentNode && c.extent == n.extent && !c.selected
    && c.position == Pos(n.position.x + 40.0, n.position.y + 40.0)
  }

  /** Duplication appends one clone per selected node after the unchanged originals. */
  lemma DuplicateAppends(nodes: seq<Node>, now: nat, rand: nat -> nat)
    ensures Duplicate(nodes, now, rand) == nodes + Clones(Selected(nodes), now, rand, 0)
    ensures |Duplicate(nodes, now, rand)| == |nodes| + |Selected(nodes)|
  {
  }

  /** The `i`-th clone copies the `i`-th selected node, and the clones' ids differ pairwise. */
  lemma ClonesSpec(sel: seq<Node>, now: nat, rand: nat -> nat)
    ensures forall i :: 0 <= i < |sel| ==> CloneOf(Clones(sel, now, rand, 0)[i], sel[i])
    ensures forall i, j :: 0 <= i < j < |sel| ==> Clones(sel, now, rand, 0)[i].id != Clones(sel, now, rand, 0)[j].id
  {
    var cl := Clones(sel, now, rand, 0);
    forall i, j | 0 <= i < j < |sel| ensures cl[i].id != cl[j].id
    {
      if cl[i].id == cl[j].id {
        MakeIdInjective("n", now, i, j, rand(i), rand(j));
      }
    }
  }

  /** When no existing id starts with this call's stem, the clones' ids are fresh. */
  lemma DuplicateFresh(nodes: seq<Node>, now: nat, rand: nat -> nat)
    requires StemUnused(nodes, "n", now)
    ensures forall i :: |nodes| <= i < |Duplicate(nodes, now, rand)| ==> Duplicate(nodes, now, rand)[i].id !in Ids(nodes)
  {
    var r := Duplicate(nodes, now, rand);
    forall i | |nodes| <= i < |r| ensures r[i].id !in Ids(nodes)
    {
      var k := i - |nodes|;
      StemUnusedFresh(nodes, "n", now, k, rand(k));
    }
  }

  // ---------------------------------------------------------------------
  // The store
  // ---------------------------------------------------------------------

  class DiagramStore {
    var nodes: seq<Node>
    var edges: seq<Edge>
    var snapToGrid: bool
    var snapGrid: (real, real)

    /** The initial state: an empty diagram snapping to a 10 by 10 grid. */
    constructor ()
      ensures nodes == [] && edges == []
      ensures snapToGrid && snapGrid == (10.0, 10.0)
    {
      nodes := [];
      edges := [];
      snapToGrid := true;
      snapGrid := (10.0, 10.0);
    }

    method OnConnect(c: Connection, now: nat)
      modifies this
      ensures ConnectEdge(c, now).None? ==> edges == old(edges)
      ensures ConnectEdge(c, now).Some? ==> edges == old(edges) + [ConnectEdge(c, now).value]
      ensures nodes == old(nodes) && snapToGrid == old(snapToGrid) && snapGrid == old(snapGrid)
    {
      var e := ConnectEdge(c, now);
      if e.Some? {
        edges := edges + [e.value];
      }
    }

    method AddNode(n: Node)
      modifies this
      ensures nodes == old(nodes) + [n]
      ensures edges == old(edges) && snapToGrid == old(snapToGrid) && snapGrid == old(snapGrid)
    {
      nodes := nodes + [n];
    }

    method UpdateNodeData(id: string, patch: map<string, Value>)
      modifies this
      ensures nodes == MergeData(old(nodes), id, patch)
      ensures edges == old(edges) && snapToGrid == old(snapToGrid) && snapGrid == old(snapGrid)
    {
      nodes := MergeData(nodes, id, patch);
    }

    method SetDiagram(ns: seq<Node>, es: seq<Edge>)
      modifies this
      ensures nodes == ns && edges == es
      ensures snapToGrid == old(snapToGrid) && snapGrid == old(snapGrid)
    {
      nodes := ns;
      edges := es;
    }

    method UpdateEdge(id: string, updater: Edge -> Edge)
      modifies this
      ensures edges == UpdateEdges(old(edges), id, updater)
      ensures nodes == old(nodes) && snapToGrid == old(snapToGrid) && snapGrid == old(snapGrid)
    {
      edges := UpdateEdges(edges, id, updater);
    }

    method SetNodes(ns: seq<Node>)
      modifies this
      ensures nodes == ns
      ensures edges == old(edges) && snapToGrid == old(snapToGrid) && snapGrid == old(snapGrid)
    {
      nodes := ns;
    }

    method SetEdges(es: seq<Edge>)
      modifies this
      ensures edges == es
      ensures nodes == old(nodes) && snapToGrid == old(snapToGrid) && snapGrid == old(snapGrid)
    {
      edges := es;
    }

    method SetSnapToGrid(v: bool)
      modifies this
      ensures snapToGrid == v
      ensures nodes == old(nodes) && edges == old(edges) && snapGrid == old(snapGrid)
    {
      snapToGrid := v;
    }

    method SetSnapGrid(v: (real, real))
      modifies this
      ensures snapGrid == v
      ensures nodes == old(nodes) && edges == old(edges) && snapToGrid == old(snapToGrid)
    {
      snapGrid := v;
    }

    method RemoveSelected()
      modifies this
      ensures nodes == RemoveSelectedNodes(old(nodes))
      ensures edges == RemoveSelectedEdges(old(nodes), old(edges))
      ensures snapToGrid == old(snapToGrid) && snapGrid == old(snapGrid)
    {
      var ns := RemoveSelectedNodes(nodes);
      edges := RemoveSelectedEdges(nodes, edges);
      nodes := ns;
    }

    method DuplicateSelected(now: nat, rand: nat -> nat)
      modifies this
      ensures nodes == Duplicate(old(nodes), now, rand)
      ensures edges == old(edges) && snapToGrid == old(snapToGrid) && snapGrid == old(snapGrid)
    {
      nodes := Duplicate(nodes, now, rand);
    }

    method Reset()
      modifies this
      ensures nodes == [] && edges == []
      ensures snapToGrid == old(snapToGrid) && snapGrid == old(snapGrid)
    {
      nodes := [];
      edges := [];
    }
  }
}
