/**
 * Grouping the selection: absolute positions through chains of parents, the
 * padded bounds of the selected nodes, and the new `groupNode` that adopts
 * them with parent-relative positions.
 */
module Grouping {
  import opened Js
  import opened Graph
  import opened DiagramState

  // ---------------------------------------------------------------------
  // Index and absolute positions
  // ---------------------------------------------------------------------

  /** `buildIndex`: node by id; a later node with an id replaces an earlier one. */
  function Index(nodes: seq<Node>): map<string, Node>
  {
    if nodes == [] then map[]
    else Index(nodes[..|nodes| - 1])[nodes[|nodes| - 1].id := nodes[|nodes| - 1]]
  }

  lemma IndexSnoc(nodes: seq<Node>, n: Node)
    ensures Index(nodes + [n]) == Index(nodes)[n.id := n]
  {
    assert (nodes + [n])[..|nodes|] == nodes;
  }

  /** The index holds exactly the ids of the list, each mapped to a node of the list with that id. */
  lemma {:induction false} IndexSpec(nodes: seq<Node>)
    ensures forall k :: k in Index(nodes) <==> exists i :: 0 <= i < |nodes| && nodes[i].id == k
    ensures forall k :: k in Index(nodes) ==> Index(nodes)[k].id == k && Index(nodes)[k] in nodes
  {
    if nodes != [] {
      var init := nodes[..|nodes| - 1];
      IndexSpec(init);
      assert forall i :: 0 <= i < |init| ==> init[i] == nodes[i];
    }
  }

  /** The last node with an id is the one the index keeps. */
  lemma {:induction false} IndexLastWins(nodes: seq<Node>, i: nat)
    requires i < |nodes| && forall j :: i < j < |nodes| ==> nodes[j].id != nodes[i].id
    ensures nodes[i].id in Index(nodes) && Index(nodes)[nodes[i].id] == nodes[i]
  {
    var init := nodes[..|nodes| - 1];
    if i < |nodes| - 1 {
      assert forall j :: i < j < |init| ==> init[j] == nodes[j];
      IndexLastWins(init, i);
    }
  }

  /** The parent a walk steps to: `parentNode` set, non-empty and present in the index. */
  function ParentIn(byId: map<string, Node>, n: Node): Option<Node>
  {
    if n.parentNode.Some? && n.parentNode.value != "" && n.parentNode.value in byId
    then Some(byId[n.parentNode.value])
    else None
  }

  /**
   * The absolute position `getAbsolutePosition` computes: the node's position
   * plus those of its ancestors, stopping at a missing parent. `None` when the
   * chain is longer than `fuel` steps (a cycle never ends).
   */
  function AbsPos(byId: map<string, Node>, n: Node, fuel: nat): Option<Pos>
    decreases fuel
  {
    match ParentIn(byId, n)
    case None => Some(n.position)
    case Some(p) =>
      if fuel == 0 then None
      else
        match AbsPos(byId, p, fuel - 1)
        case None => None
        case Some(a) => Some(Pos(n.position.x + a.x, n.position.y + a.y))
  }

  /** The walk of `getAbsolutePosition`, proved to add up the chain `AbsPos` describes. */
  method GetAbsolutePosition(n: Node, byId: map<string, Node>, ghost fuel: nat) returns (p: Pos)
    requires AbsPos(byId, n, fuel).Some?
    ensures p == AbsPos(byId, n, fuel).value
  {
    var x := n.position.x;
    var y := n.position.y;
    var cur := n;
    ghost var k := fuel;
    while cur.parentNode.Some? && cur.parentNode.value != ""
      invariant AbsPos(byId, cur, k).Some?
      invariant AbsPos(byId, n, fuel).value
        == Pos(x - cur.position.x + AbsPos(byId, cur, k).value.x,
               y - cur.position.y + AbsPos(byId, cur, k).value.y)
      decreases k
    {
      if cur.parentNode.value !in byId {
        break;
      }
      var par := byId[cur.parentNode.value];
      x := x + par.position.x;
      y := y + par.position.y;
      cur := par;
      k := k - 1;
    }
    p := Pos(x, y);
  }

  /** A node without a parent in the index sits where its position says. */
  lemma AbsPosRoot(byId: map<string, Node>, n: Node, fuel: nat)
    requires n.parentNode.None? || n.parentNode.value == "" || n.parentNode.value !in byId
    ensures AbsPos(byId, n, fuel) == Some(n.position)
  {
  }

  /** With a parent in the index, the position is relative to the parent's absolute one. */
  lemma AbsPosChild(byId: map<string, Node>, n: Node, fuel: nat)
    requires n.parentNode.Some? && n.parentNode.value != "" && n.parentNode.value in byId
    requires AbsPos(byId, n, fuel).Some?
    ensures fuel > 0
    ensures var a := AbsPos(byId, byId[n.parentNode.value], fuel - 1);
      a.Some? && AbsPos(byId, n, fuel).value == Pos(n.position.x + a.value.x, n.position.y + a.value.y)
  {
  }

  /** Extra fuel never changes a position once one is found. */
  lemma {:induction false} AbsPosFuel(byId: map<string, Node>, n: Node, f: nat, g: nat)
    requires f <= g && AbsPos(byId, n, f).Some?
    ensures AbsPos(byId, n, g) == AbsPos(byId, n, f)
    decreases f
  {
    match ParentIn(byId, n)
    case None =>
    case Some(p) =>
      AbsPosFuel(byId, p, f - 1, g - 1);
  }

  /** Two fuel amounts that both reach the root agree. */
  lemma AbsPosUnique(byId: map<string, Node>, n: Node, f: nat, g: nat)
    requires AbsPos(byId, n, f).Some? && AbsPos(byId, n, g).Some?
    ensures AbsPos(byId, n, f) == AbsPos(byId, n, g)
  {
    if f <= g { AbsPosFuel(byId, n, f, g); } else { AbsPosFuel(byId, n, g, f); }
  }

  // ---------------------------------------------------------------------
  // Selected bounds
  // ---------------------------------------------------------------------

  /** The label and padding `createGroupNodeFromSelection` uses when none is given. */
  const DefaultGroupLabel: string := "Group"
  const DefaultPadding: real := 24.0

  /** The size a node without a measured size is counted with. */
  const FallbackW: real := 140.0
  const FallbackH: real := 80.0

  predicate IsGroup(n: Node) { n.nodeType == Some("groupNode") }

  /** What grouping takes: selected nodes that are not groups themselves. */
  predicate Groupable(n: Node) { n.selected && !IsGroup(n) }

  function Candidates(nodes: seq<Node>): (r: seq<Node>)
    ensures forall n :: n in r <==> n in nodes && Groupable(n)
    ensures r == [] <==> forall i :: 0 <= i < |nodes| ==> !Groupable(nodes[i])
  {
    if nodes == [] then []
    else (if Groupable(nodes[0]) then [nodes[0]] else []) + Candidates(nodes[1..])
  }

  /** The node's parent chain ends within as many steps as there are nodes. */
  predicate Resolves(nodes: seq<Node>, n: Node)
  {
    AbsPos(Index(nodes), n, |nodes|).Some?
  }

  /** Every node grouping would move has a finite chain of parents. */
  predicate CandidatesResolve(nodes: seq<Node>)
  {
    forall n :: n in nodes && Groupable(n) ==> Resolves(nodes, n)
  }

  /** Every node of the list has a finite chain of parents. */
  predicate AllResolve(nodes: seq<Node>)
  {
    forall n :: n in nodes ==> Resolves(nodes, n)
  }

  /**
   * The absolute position of a node of the list. Every caller requires
   * `Resolves`, so the fallback to the node's own position is never taken;
   * the source does not return on a cycle.
   */
  function Abs(nodes: seq<Node>, n: Node): Pos
  {
    match AbsPos(Index(nodes), n, |nodes|)
    case Some(a) => a
    case None => n.position
  }

  /** A candidate's box: absolute corner, measured size or the fallback size. */
  function BoxOf(nodes: seq<Node>, n: Node): (b: Box)
  {
    var a := Abs(nodes, n);
    Box(a.x, a.y, SizeOr(n.width, FallbackW), SizeOr(n.height, FallbackH))
  }

  function Boxes(nodes: seq<Node>, sel: seq<Node>): (r: seq<Box>)
    ensures |r| == |sel| && forall i :: 0 <= i < |sel| ==> r[i] == BoxOf(nodes, sel[i])
  {
    if sel == [] then [] else [BoxOf(nodes, sel[0])] + Boxes(nodes, sel[1..])
  }

  /** `getSelectedBounds`: `None` without candidates, else their padded enclosing box. */
  function SelectedBounds(nodes: seq<Node>, padding: real): (r: Option<Box>)
    requires CandidatesResolve(nodes)
    ensures r.None? <==> Candidates(nodes) == []
    ensures r.Some? ==> r.value == Enclose(Boxes(nodes, Candidates(nodes)), padding)
  {
    var sel := Candidates(nodes);
    if sel == [] then None else Some(Enclose(Boxes(nodes, sel), padding))
  }

  /** Every candidate's box lies at least `padding` inside the bounds. */
  lemma BoundsEnclose(nodes: seq<Node>, padding: real, n: Node)
    requires CandidatesResolve(nodes) && n in nodes && Groupable(n)
    ensures var r := SelectedBounds(nodes, padding);
      var b := BoxOf(nodes, n);
      && r.Some?
      && r.value.x + padding <= b.x && b.x + b.w <= r.value.x + r.value.w - padding
      && r.value.y + padding <= b.y && b.y + b.h <= r.value.y + r.value.h - padding
  {
    var sel := Candidates(nodes);
    assert n in sel;
    var i :| 0 <= i < |sel| && sel[i] == n;
    assert Boxes(nodes, sel)[i] == BoxOf(nodes, n);
  }

  // ---------------------------------------------------------------------
  // The new group
  // ---------------------------------------------------------------------

  /** `g_${now}_${round(random * 1e5)}`, with the rounded draw as `rand`. */
  function GroupId(now: nat, rand: nat): (r: string)
    ensures |r| > 0 && r[0] == 'g'
  {
    "g_" + NatToString(now) + "_" + NatToString(rand)
  }

  /** A candidate moves into the group at its absolute position minus the group corner. */
  function Adopt(nodes: seq<Node>, n: Node, gid: string, b: Box): Node
  {
    if !Groupable(n) then n
    else
      var a := Abs(nodes, n);
      n.(parentNode := Some(gid), position := Pos(a.x - b.x, a.y - b.y), extent := Some("parent"), selected := false)
  }

  function AdoptAll(nodes: seq<Node>, all: seq<Node>, gid: string, b: Box): (r: seq<Node>)
    ensures |r| == |all| && forall i :: 0 <= i < |all| ==> r[i] == Adopt(nodes, all[i], gid, b)
  {
    if all == [] then [] else [Adopt(nodes, all[0], gid, b)] + AdoptAll(nodes, all[1..], gid, b)
  }

  /** The `groupNode` record: at the bounds' corner, sized by them, selected. */
  function GroupNode(gid: string, caption: string, b: Box): Node
  {
    Node(gid, Some("groupNode"), Pos(b.x, b.y), map["label" := Str(caption)],
         map["width" := Num(b.w), "height" := Num(b.h)], true, None, None, None, None)
  }

  /** The node list after grouping, or `None` when nothing can be grouped. */
  function Grouped(nodes: seq<Node>, caption: string, padding: real, gid: string): Option<seq<Node>>
    requires CandidatesResolve(nodes)
  {
    match SelectedBounds(nodes, padding)
    case None => None
    case Some(b) => Some(AdoptAll(nodes, nodes, gid, b) + [GroupNode(gid, caption, b)])
  }

  /** `createGroupNodeFromSelection`: replaces the store's nodes and returns the new id. */
  method CreateGroupNodeFromSelection(store: DiagramStore, caption: string, padding: real, now: nat, rand: nat)
    returns (r: Option<string>)
    requires CandidatesResolve(store.nodes)
    modifies store
    ensures var g := Grouped(old(store.nodes), caption, padding, GroupId(now, rand));
      && (g.None? ==> r.None? && store.nodes == old(store.nodes))
      && (g.Some? ==> r == Some(GroupId(now, rand)) && store.nodes == g.value)
    ensures store.edges == old(store.edges)
    ensures store.snapToGrid == old(store.snapToGrid) && store.snapGrid == old(store.snapGrid)
  {
    var gid := GroupId(now, rand);
    var g := Grouped(store.nodes, caption, padding, gid);
    if g.None? {
      return None;
    }
    store.SetNodes(g.value);
    return Some(gid);
  }

  /** Grouping does nothing exactly when no node is a selected non-group. */
  lemma GroupedNone(nodes: seq<Node>, caption: string, padding: real, gid: string)
    requires CandidatesResolve(nodes)
    ensures Grouped(nodes, caption, padding, gid).None? <==> forall i :: 0 <= i < |nodes| ==> !Groupable(nodes[i])
  {
  }

  /**
   * The shape of the result: the nodes in order, candidates adopted by the
   * group and deselected, everything else untouched, and the group last.
   */
  lemma GroupedShape(nodes: seq<Node>, caption: string, padding: real, gid: string)
    requires CandidatesResolve(nodes)
    requires Grouped(nodes, caption, padding, gid).Some?
    ensures var r := Grouped(nodes, caption, padding, gid).value;
      var b := SelectedBounds(nodes, padding).value;
      && |r| == |nodes| + 1
      && r[|nodes|] == GroupNode(gid, caption, b)
      && (forall i :: 0 <= i < |nodes| && !Groupable(nodes[i]) ==> r[i] == nodes[i])
      && (forall i :: 0 <= i < |nodes| && Groupable(nodes[i]) ==>
            && r[i].id == nodes[i].id && r[i].data == nodes[i].data
            && r[i].parentNode == Some(gid) && r[i].extent == Some("parent") && !r[i].selected
            && r[i].position.x + b.x == Abs(nodes, nodes[i]).x
            && r[i].position.y + b.y == Abs(nodes, nodes[i]).y)
  {
    var b := SelectedBounds(nodes, padding).value;
    var a := AdoptAll(nodes, nodes, gid, b);
    var r := Grouped(nodes, caption, padding, gid).value;
    assert r == a + [GroupNode(gid, caption, b)];
    assert forall i :: 0 <= i < |nodes| ==> r[i] == a[i];
    AdoptedShape(nodes, gid, b);
  }

  /** Every adopted node keeps its id and data, and a groupable one is placed relative to the group's corner. */
  lemma AdoptedShape(nodes: seq<Node>, gid: string, b: Box)
    requires CandidatesResolve(nodes)
    ensures var a := AdoptAll(nodes, nodes, gid, b);
      && (forall i :: 0 <= i < |nodes| && !Groupable(nodes[i]) ==> a[i] == nodes[i])
      && (forall i :: 0 <= i < |nodes| && Groupable(nodes[i]) ==>
            && a[i].id == nodes[i].id && a[i].data == nodes[i].data
            && a[i].parentNode == Some(gid) && a[i].extent == Some("parent") && !a[i].selected
            && a[i].position.x + b.x == Abs(nodes, nodes[i]).x
            && a[i].position.y + b.y == Abs(nodes, nodes[i]).y)
  {
  }

  /** The group id clashes with no node id and no node already names it as parent. */
  predicate FreshGroupId(nodes: seq<Node>, gid: string)
  {
    gid != "" && forall n :: n in nodes ==> n.id != gid && n.parentNode != Some(gid)
  }

  /** The index of the adopted list: the same ids, each node adopted. */
  lemma {:induction false} IndexAdopted(nodes: seq<Node>, all: seq<Node>, gid: string, b: Box)
    ensures forall k :: k in Index(AdoptAll(nodes, all, gid, b)) <==> k in Index(all)
    ensures forall k :: k in Index(all) ==>
      Index(all)[k] in all && Index(AdoptAll(nodes, all, gid, b))[k] == Adopt(nodes, Index(all)[k], gid, b)
    decreases |all|
  {
    IndexSpec(all);
    if all != [] {
      var init := all[..|all| - 1];
      var r := AdoptAll(nodes, all, gid, b);
      var ri := AdoptAll(nodes, init, gid, b);
      assert r == ri + [r[|r| - 1]];
      assert all == init + [all[|all| - 1]];
      IndexSnoc(ri, r[|r| - 1]);
      IndexSnoc(init, all[|all| - 1]);
      IndexAdopted(nodes, init, gid, b);
    }
  }

  /**
   * The step of the preservation argument, over any index `idx2` that holds
   * the adopted nodes of `idx` and the group: a node's absolute position there,
   * with one more step of fuel for the group, is its old one.
   */
  lemma {:induction false} AdoptKeepsAbs(nodes: seq<Node>, idx: map<string, Node>, idx2: map<string, Node>,
                                         gid: string, b: Box, g: Node, n: Node, k: nat)
    requires idx == Index(nodes) && k <= |nodes| && gid != ""
    requires gid !in idx && forall id :: id in idx ==> idx[id].parentNode != Some(gid)
    requires forall id :: id in idx2 <==> id in idx || id == gid
    requires forall id :: id in idx ==> idx2[id] == Adopt(nodes, idx[id], gid, b)
    requires idx2[gid] == g && g.parentNode.None? && g.position == Pos(b.x, b.y)
    requires n.parentNode != Some(gid) && AbsPos(idx, n, k).Some?
    ensures AbsPos(idx2, Adopt(nodes, n, gid, b), k + 1) == AbsPos(idx, n, k)
    decreases k
  {
    var m := Adopt(nodes, n, gid, b);
    if Groupable(n) {
      AbsPosFuel(idx, n, k, |nodes|);
      assert ParentIn(idx2, g).None?;
      assert AbsPos(idx2, g, k) == Some(g.position);
      assert ParentIn(idx2, m) == Some(g);
    } else {
      assert m == n;
      if n.parentNode.Some? && n.parentNode.value != "" && n.parentNode.value in idx {
        var p := idx[n.parentNode.value];
        assert ParentIn(idx2, n) == Some(Adopt(nodes, p, gid, b));
        AdoptKeepsAbs(nodes, idx, idx2, gid, b, g, p, k - 1);
      } else {
        assert ParentIn(idx2, n).None?;
      }
    }
  }

  /** The index of the grouped list holds the adopted nodes and the group. */
  lemma GroupedIndex(nodes: seq<Node>, gid: string, b: Box, g: Node)
    requires FreshGroupId(nodes, gid) && g.id == gid
    ensures var idx := Index(nodes);
      var idx2 := Index(AdoptAll(nodes, nodes, gid, b) + [g]);
      && gid !in idx
      && (forall id :: id in idx ==> idx[id].parentNode != Some(gid))
      && (forall id :: id in idx2 <==> id in idx || id == gid)
      && (forall id :: id in idx ==> idx2[id] == Adopt(nodes, idx[id], gid, b))
      && idx2[gid] == g
  {
    IndexSpec(nodes);
    IndexAdopted(nodes, nodes, gid, b);
    IndexSnoc(AdoptAll(nodes, nodes, gid, b), g);
  }

  /** An adopted node resolves in the grouped list to where it was. */
  lemma AdoptedKeepAbs(nodes: seq<Node>, gid: string, b: Box, g: Node, i: nat)
    requires FreshGroupId(nodes, gid)
    requires g.id == gid && g.parentNode.None? && g.position == Pos(b.x, b.y)
    requires i < |nodes| && Resolves(nodes, nodes[i])
    ensures var r := AdoptAll(nodes, nodes, gid, b) + [g];
      AbsPos(Index(r), r[i], |r|) == AbsPos(Index(nodes), nodes[i], |nodes|)
  {
    var r := AdoptAll(nodes, nodes, gid, b) + [g];
    GroupedIndex(nodes, gid, b, g);
    assert nodes[i] in nodes && r[i] == Adopt(nodes, nodes[i], gid, b);
    AdoptKeepsAbs(nodes, Index(nodes), Index(r), gid, b, g, nodes[i], |nodes|);
  }

  lemma AllResolveByIndex(r: seq<Node>)
    requires forall i :: 0 <= i < |r| ==> AbsPos(Index(r), r[i], |r|).Some?
    ensures AllResolve(r)
  {
    forall n | n in r
      ensures Resolves(r, n)
    {
      var i :| 0 <= i < |r| && r[i] == n;
    }
  }

  /** The adopted list plus a parentless group at the corner keeps every absolute position. */
  lemma AdoptedListKeepsAbs(nodes: seq<Node>, gid: string, b: Box, g: Node)
    requires AllResolve(nodes) && FreshGroupId(nodes, gid)
    requires g.id == gid && g.parentNode.None? && g.position == Pos(b.x, b.y)
    ensures var r := AdoptAll(nodes, nodes, gid, b) + [g];
      && AllResolve(r)
      && Abs(r, r[|nodes|]) == Pos(b.x, b.y)
      && forall i :: 0 <= i < |nodes| ==> Abs(r, r[i]) == Abs(nodes, nodes[i])
  {
    var r := AdoptAll(nodes, nodes, gid, b) + [g];
    forall i | 0 <= i < |nodes|
      ensures AbsPos(Index(r), r[i], |r|) == AbsPos(Index(nodes), nodes[i], |nodes|)
      ensures AbsPos(Index(r), r[i], |r|).Some?
    {
      assert nodes[i] in nodes && Resolves(nodes, nodes[i]);
      AdoptedKeepAbs(nodes, gid, b, g, i);
    }
    assert r[|nodes|] == g && AbsPos(Index(r), g, |r|) == Some(g.position);
    assert forall i :: 0 <= i < |r| ==> AbsPos(Index(r), r[i], |r|).Some? by {
      forall i | 0 <= i < |r|
        ensures AbsPos(Index(r), r[i], |r|).Some?
      {
        if i == |nodes| {
          assert r[i] == g;
        }
      }
    }
    AllResolveByIndex(r);
  }

  /**
   * Grouping moves nothing on the canvas: with a fresh group id and finite
   * parent chains, every old node keeps its absolute position, and the group
   * sits at the bounds' corner.
   */
  lemma GroupingKeepsAbsolutePositions(nodes: seq<Node>, caption: string, padding: real, gid: string)
    requires AllResolve(nodes) && FreshGroupId(nodes, gid)
    requires Grouped(nodes, caption, padding, gid).Some?
    ensures var r := Grouped(nodes, caption, padding, gid).value;
      var b := SelectedBounds(nodes, padding).value;
      && AllResolve(r)
      && Abs(r, r[|nodes|]) == Pos(b.x, b.y)
      && forall i :: 0 <= i < |nodes| ==> Abs(r, r[i]) == Abs(nodes, nodes[i])
  {
    var b := SelectedBounds(nodes, padding).value;
    var g := GroupNode(gid, caption, b);
    assert Grouped(nodes, caption, padding, gid).value == AdoptAll(nodes, nodes, gid, b) + [g];
    AdoptedListKeepsAbs(nodes, gid, b, g);
  }
}
