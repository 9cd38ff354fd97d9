/**
 * Template insertion of `src/diagram/DiagramCanvas.tsx` (`onInsertTemplate`):
 * the nodes of a template are moved so that the middle of their bounding box
 * lands on a drop origin, every node and edge gets a fresh id, edges are
 * redirected to the new node ids, and both lists are appended to the store.
 * The origin (the flow position of the canvas centre or of the drop point)
 * is an input; `Date.now()` is `now`, and the successive `Math.random()`
 * draws, rounded, are `rand(0)`, `rand(1)`, ... in call order.
 */
module TemplateInsert {
  import opened Js
  import opened Graph
  import opened DiagramState

  /** A template node; `at` is its `position`, None when the template gives none. */
  datatype TemplateNode = TemplateNode(node: Node, at: Option<Pos>)

  datatype Template = Template(id: string, nodes: seq<TemplateNode>, edges: seq<Edge>)

  /** `n.position || { x: 0, y: 0 }`: a missing position counts as the point (0, 0). */
  function PositionOf(t: TemplateNode): Pos
  {
    if t.at.Some? then t.at.value else Pos(0.0, 0.0)
  }

  /** Index i holds the first template with this id. */
  predicate FirstWithId(ts: seq<Template>, id: string, i: int)
  {
    0 <= i < |ts| && ts[i].id == id && forall j :: 0 <= j < i ==> ts[j].id != id
  }

  /** `TemplatesData.find(t => t.id === templateId)`: the first template with that id. */
  function FindTemplate(ts: seq<Template>, id: string): (r: Option<Template>)
    ensures r.None? <==> forall i :: 0 <= i < |ts| ==> ts[i].id != id
    ensures r.Some? ==> exists i :: FirstWithId(ts, id, i) && ts[i] == r.value
  {
    if ts == [] then None
    else if ts[0].id == id then (assert FirstWithId(ts, id, 0); Some(ts[0]))
    else
      var r := FindTemplate(ts[1..], id);
      assert r.Some? ==> exists i :: FirstWithId(ts, id, i) && ts[i] == r.value by {
        if r.Some? {
          var k :| FirstWithId(ts[1..], id, k) && ts[1..][k] == r.value;
          assert ts[k + 1] == r.value;
          assert FirstWithId(ts, id, k + 1) by {
            forall j | 0 <= j < k + 1 ensures ts[j].id != id
            {
              if j > 0 {
                assert ts[j] == ts[1..][j - 1];
              }
            }
          }
        }
      }
      r
  }

  function Xs(ts: seq<TemplateNode>): (r: seq<real>)
    ensures |r| == |ts| && forall i :: 0 <= i < |ts| ==> r[i] == PositionOf(ts[i]).x
  {
    seq(|ts|, i requires 0 <= i < |ts| => PositionOf(ts[i]).x)
  }

  function Ys(ts: seq<TemplateNode>): (r: seq<real>)
    ensures |r| == |ts| && forall i :: 0 <= i < |ts| ==> r[i] == PositionOf(ts[i]).y
  {
    seq(|ts|, i requires 0 <= i < |ts| => PositionOf(ts[i]).y)
  }

  /** The middle of the bounding box of the template's node positions. */
  function Center(ts: seq<TemplateNode>): Pos
    requires |ts| > 0
  {
    Pos((MinOf(Xs(ts)) + MaxOf(Xs(ts))) / 2.0, (MinOf(Ys(ts)) + MaxOf(Ys(ts))) / 2.0)
  }

  /** The copy of the template node at index idx: a fresh id, selected, moved by origin − centre. */
  function Placed(t: TemplateNode, origin: Pos, center: Pos, now: nat, idx: nat, rand: nat): Node
  {
    var p := PositionOf(t);
    t.node.(id := MakeId("t", now, idx, rand), selected := true,
            position := Pos(origin.x + (p.x - center.x), origin.y + (p.y - center.y)))
  }

  /** The copies of all template nodes, moved by origin − centre. */
  function PlacementAround(ts: seq<TemplateNode>, origin: Pos, center: Pos, now: nat, rand: nat -> nat): (r: seq<Node>)
    ensures |r| == |ts|
    ensures forall i :: 0 <= i < |ts| ==> r[i] == Placed(ts[i], origin, center, now, i, rand(i))
  {
    seq(|ts|, i requires 0 <= i < |ts| => Placed(ts[i], origin, center, now, i, rand(i)))
  }

  /** The new nodes of an insertion; the centre is only read when there are nodes. */
  function Placement(ts: seq<TemplateNode>, origin: Pos, now: nat, rand: nat -> nat): (r: seq<Node>)
    ensures |r| == |ts|
    ensures |ts| > 0 ==> r == PlacementAround(ts, origin, Center(ts), now, rand)
  {
    if |ts| == 0 then [] else PlacementAround(ts, origin, Center(ts), now, rand)
  }

  /** `idMap` after the first n template nodes: each old id to its new id, a later node winning. */
  function IdMapOf(ts: seq<TemplateNode>, now: nat, rand: nat -> nat, n: nat): (m: map<string, string>)
    requires n <= |ts|
  {
    if n == 0 then map[] else IdMapOf(ts, now, rand, n - 1)[ts[n - 1].node.id := MakeId("t", now, n - 1, rand(n - 1))]
  }

  /** The id map has a key for exactly the ids of the template nodes seen so far. */
  lemma {:induction false} IdMapOfKeys(ts: seq<TemplateNode>, now: nat, rand: nat -> nat, n: nat)
    requires n <= |ts|
    ensures IdMapOf(ts, now, rand, n).Keys == set k | 0 <= k < n :: ts[k].node.id
  {
    if n > 0 {
      IdMapOfKeys(ts, now, rand, n - 1);
      assert (set k | 0 <= k < n :: ts[k].node.id) == (set k | 0 <= k < n - 1 :: ts[k].node.id) + {ts[n - 1].node.id};
    }
  }

  /** `idMap.get(id) || id`. */
  function Remap(m: map<string, string>, id: string): string
  {
    if id in m && m[id] != "" then m[id] else id
  }

  /** The new edges: fresh ids drawn after the node ids, endpoints redirected through the id map. */
  function NewEdges(es: seq<Edge>, m: map<string, string>, now: nat, rand: nat -> nat, draws: nat): (r: seq<Edge>)
    ensures |r| == |es|
    ensures forall j :: 0 <= j < |es| ==>
      r[j] == es[j].(id := MakeId("te", now, j, rand(draws + j)), source := Remap(m, es[j].source), target := Remap(m, es[j].target))
  {
    seq(|es|, j requires 0 <= j < |es| =>
      es[j].(id := MakeId("te", now, j, rand(draws + j)), source := Remap(m, es[j].source), target := Remap(m, es[j].target)))
  }

  /** The node `map` with its side effect on `idMap`, one template node per step. */
  method PlaceNodes(ts: seq<TemplateNode>, origin: Pos, center: Pos, now: nat, rand: nat -> nat)
    returns (newNodes: seq<Node>, idMap: map<string, string>)
    ensures newNodes == PlacementAround(ts, origin, center, now, rand)
    ensures idMap == IdMapOf(ts, now, rand, |ts|)
  {
    newNodes := [];
    idMap := map[];
    var i := 0;
    while i < |ts|
      invariant 0 <= i <= |ts|
      invariant |newNodes| == i
      invariant forall k :: 0 <= k < i ==> newNodes[k] == Placed(ts[k], origin, center, now, k, rand(k))
      invariant idMap == IdMapOf(ts, now, rand, i)
    {
      var newId := MakeId("t", now, i, rand(i));
      assert IdMapOf(ts, now, rand, i + 1) == IdMapOf(ts, now, rand, i)[ts[i].node.id := newId];
      idMap := idMap[ts[i].node.id := newId];
      newNodes := newNodes + [Placed(ts[i], origin, center, now, i, rand(i))];
      i := i + 1;
    }
    assert newNodes == PlacementAround(ts, origin, center, now, rand);
  }

  /**
   * `onInsertTemplate`: nothing happens without a template id, for an id no
   * template has, or without a canvas to take the origin from; otherwise
   * the placed nodes and the redirected edges are appended.
   */
  method InsertTemplate(store: DiagramStore, templates: seq<Template>, templateId: Option<string>,
                        origin: Option<Pos>, now: nat, rand: nat -> nat)
    modifies store
    ensures templateId.None? || templateId.value == "" || FindTemplate(templates, templateId.value).None? || origin.None? ==>
      store.nodes == old(store.nodes) && store.edges == old(store.edges)
    ensures templateId.Some? && templateId.value != "" && FindTemplate(templates, templateId.value).Some? && origin.Some? ==>
      var t := FindTemplate(templates, templateId.value).value;
      && store.nodes == old(store.nodes) + Placement(t.nodes, origin.value, now, rand)
      && store.edges == old(store.edges) + NewEdges(t.edges, IdMapOf(t.nodes, now, rand, |t.nodes|), now, rand, |t.nodes|)
    ensures store.snapToGrid == old(store.snapToGrid) && store.snapGrid == old(store.snapGrid)
  {
    if templateId.None? || templateId.value == "" {
      return;
    }
    var found := FindTemplate(templates, templateId.value);
    if found.None? || origin.None? {
      return;
    }
    var t := found.value;
    var newNodes: seq<Node> := [];
    var idMap: map<string, string> := map[];
    if |t.nodes| > 0 {
      newNodes, idMap := PlaceNodes(t.nodes, origin.value, Center(t.nodes), now, rand);
    }
    var newEdges := NewEdges(t.edges, idMap, now, rand, |t.nodes|);
    store.SetDiagram(store.nodes + newNodes, store.edges + newEdges);
  }

  // ---------------------------------------------------------------------
  // What an insertion guarantees
  // ---------------------------------------------------------------------

  /** The placed nodes keep every pairwise offset of the template. */
  lemma PlacementKeepsOffsets(ts: seq<TemplateNode>, origin: Pos, now: nat, rand: nat -> nat, i: nat, j: nat)
    requires i < |ts| && j < |ts|
    ensures Placement(ts, origin, now, rand)[i].position.x - Placement(ts, origin, now, rand)[j].position.x
            == PositionOf(ts[i]).x - PositionOf(ts[j]).x
    ensures Placement(ts, origin, now, rand)[i].position.y - Placement(ts, origin, now, rand)[j].position.y
            == PositionOf(ts[i]).y - PositionOf(ts[j]).y
  {
  }

  /** Adding d to every element adds d to the minimum and to the maximum. */
  lemma MinMaxShift(s: seq<real>, t: seq<real>, d: real)
    requires |s| == |t| > 0
    requires forall i :: 0 <= i < |s| ==> t[i] == s[i] + d
    ensures MinOf(t) == MinOf(s) + d && MaxOf(t) == MaxOf(s) + d
  {
    var k :| 0 <= k < |s| && s[k] == MinOf(s);
    var l :| 0 <= l < |t| && t[l] == MinOf(t);
    assert MinOf(t) <= t[k];
    assert MinOf(s) <= s[l];
    var p :| 0 <= p < |s| && s[p] == MaxOf(s);
    var q :| 0 <= q < |t| && t[q] == MaxOf(t);
    assert t[p] <= MaxOf(t);
    assert s[q] <= MaxOf(s);
  }

  function PlacedXs(ns: seq<Node>): (r: seq<real>)
    ensures |r| == |ns| && forall i :: 0 <= i < |ns| ==> r[i] == ns[i].position.x
  {
    seq(|ns|, i requires 0 <= i < |ns| => ns[i].position.x)
  }

  function PlacedYs(ns: seq<Node>): (r: seq<real>)
    ensures |r| == |ns| && forall i :: 0 <= i < |ns| ==> r[i] == ns[i].position.y
  {
    seq(|ns|, i requires 0 <= i < |ns| => ns[i].position.y)
  }

  /** The middle of the placed nodes' bounding box is the origin. */
  lemma PlacementCentered(ts: seq<TemplateNode>, origin: Pos, now: nat, rand: nat -> nat)
    requires |ts| > 0
    ensures (MinOf(PlacedXs(Placement(ts, origin, now, rand))) + MaxOf(PlacedXs(Placement(ts, origin, now, rand)))) / 2.0 == origin.x
    ensures (MinOf(PlacedYs(Placement(ts, origin, now, rand))) + MaxOf(PlacedYs(Placement(ts, origin, now, rand)))) / 2.0 == origin.y
  {
    var ns := Placement(ts, origin, now, rand);
    var c := Center(ts);
    MinMaxShift(Xs(ts), PlacedXs(ns), origin.x - c.x);
    MinMaxShift(Ys(ts), PlacedYs(ns), origin.y - c.y);
  }

  /** The placed nodes are all selected and have pairwise distinct ids. */
  lemma PlacementIdsDistinct(ts: seq<TemplateNode>, origin: Pos, now: nat, rand: nat -> nat)
    ensures forall i :: 0 <= i < |ts| ==> Placement(ts, origin, now, rand)[i].selected
    ensures UniqueIds(Placement(ts, origin, now, rand))
  {
    var ns := Placement(ts, origin, now, rand);
    forall i, j | 0 <= i < j < |ns| ensures ns[i].id != ns[j].id
    {
      if ns[i].id == ns[j].id {
        MakeIdInjective("t", now, i, j, rand(i), rand(j));
      }
    }
  }

  /** When no existing node id starts with this call's stem, the placed ids are all new. */
  lemma PlacementIdsFresh(old_nodes: seq<Node>, ts: seq<TemplateNode>, origin: Pos, now: nat, rand: nat -> nat)
    requires StemUnused(old_nodes, "t", now)
    ensures forall i :: 0 <= i < |ts| ==> Placement(ts, origin, now, rand)[i].id !in Ids(old_nodes)
  {
    forall i | 0 <= i < |ts|
      ensures Placement(ts, origin, now, rand)[i].id !in Ids(old_nodes)
    {
      StemUnusedFresh(old_nodes, "t", now, i, rand(i));
    }
  }

  /** Template node ids are pairwise distinct. */
  predicate DistinctNodeIds(ts: seq<TemplateNode>)
  {
    forall i, j :: 0 <= i < j < |ts| ==> ts[i].node.id != ts[j].node.id
  }

  /** With distinct template ids, the id map sends the id of node k to the id of its copy. */
  lemma {:induction false} IdMapOfAt(ts: seq<TemplateNode>, now: nat, rand: nat -> nat, n: nat, k: nat)
    requires n <= |ts| && k < n && DistinctNodeIds(ts)
    ensures ts[k].node.id in IdMapOf(ts, now, rand, n)
    ensures IdMapOf(ts, now, rand, n)[ts[k].node.id] == MakeId("t", now, k, rand(k))
    decreases n
  {
    if k < n - 1 {
      IdMapOfAt(ts, now, rand, n - 1, k);
      assert ts[n - 1].node.id != ts[k].node.id;
    }
  }

  /** The copy of template node k carries the id drawn for index k. */
  lemma PlacementId(ts: seq<TemplateNode>, origin: Pos, now: nat, rand: nat -> nat, k: nat)
    requires k < |ts|
    ensures Placement(ts, origin, now, rand)[k].id == MakeId("t", now, k, rand(k))
  {
  }

  lemma RemapHit(m: map<string, string>, id: string, v: string)
    requires id in m && m[id] == v && v != ""
    ensures Remap(m, id) == v
  {
  }

  lemma RemapMiss(m: map<string, string>, id: string)
    requires id !in m
    ensures Remap(m, id) == id
  {
  }

  /**
   * An edge whose endpoint is the id of template node k is redirected to the
   * id of the copy of node k (see `PlacementId`).
   */
  lemma EdgesRedirected(t: Template, now: nat, rand: nat -> nat, j: nat, k: nat)
    requires DistinctNodeIds(t.nodes) && j < |t.edges| && k < |t.nodes|
    ensures t.edges[j].source == t.nodes[k].node.id ==>
      NewEdges(t.edges, IdMapOf(t.nodes, now, rand, |t.nodes|), now, rand, |t.nodes|)[j].source == MakeId("t", now, k, rand(k))
    ensures t.edges[j].target == t.nodes[k].node.id ==>
      NewEdges(t.edges, IdMapOf(t.nodes, now, rand, |t.nodes|), now, rand, |t.nodes|)[j].target == MakeId("t", now, k, rand(k))
  {
    var m := IdMapOf(t.nodes, now, rand, |t.nodes|);
    IdMapOfAt(t.nodes, now, rand, |t.nodes|, k);
    MakeIdNonEmpty("t", now, k, rand(k));
    RemapHit(m, t.nodes[k].node.id, MakeId("t", now, k, rand(k)));
  }

  /** An endpoint that is no template node's id is kept as it is. */
  lemma EdgesKeepForeignEnds(t: Template, now: nat, rand: nat -> nat, j: nat)
    requires j < |t.edges|
    ensures (forall k :: 0 <= k < |t.nodes| ==> t.nodes[k].node.id != t.edges[j].source) ==>
      NewEdges(t.edges, IdMapOf(t.nodes, now, rand, |t.nodes|), now, rand, |t.nodes|)[j].source == t.edges[j].source
    ensures (forall k :: 0 <= k < |t.nodes| ==> t.nodes[k].node.id != t.edges[j].target) ==>
      NewEdges(t.edges, IdMapOf(t.nodes, now, rand, |t.nodes|), now, rand, |t.nodes|)[j].target == t.edges[j].target
  {
    var m := IdMapOf(t.nodes, now, rand, |t.nodes|);
    IdMapOfKeys(t.nodes, now, rand, |t.nodes|);
    if forall k :: 0 <= k < |t.nodes| ==> t.nodes[k].node.id != t.edges[j].source {
      RemapMiss(m, t.edges[j].source);
    }
    if forall k :: 0 <= k < |t.nodes| ==> t.nodes[k].node.id != t.edges[j].target {
      RemapMiss(m, t.edges[j].target);
    }
  }

  lemma MakeIdNonEmpty(prefix: string, now: nat, idx: nat, rand: nat)
    ensures MakeId(prefix, now, idx, rand) != ""
  {
  }
}
