/**
 * Aligning and distributing the selected nodes. Both work on stored,
 * parent-relative positions and treat group nodes like any other node.
 */
module Alignment {
  import opened Js
  import opened Graph
  import opened DiagramState
  import opened Grouping

  datatype AlignOp = Left | CenterX | Right | Top | CenterY | Bottom
  datatype Axis = Horiz | Vert

  // ---------------------------------------------------------------------
  // align
  // ---------------------------------------------------------------------

  /** A node's stored box; a missing width or height counts as 0. */
  function StoredBox(n: Node): Box
  {
    Box(n.position.x, n.position.y, SizeOr(n.width, 0.0), SizeOr(n.height, 0.0))
  }

  function StoredBoxes(sel: seq<Node>): (r: seq<Box>)
    ensures |r| == |sel| && forall i :: 0 <= i < |sel| ==> r[i] == StoredBox(sel[i])
  {
    if sel == [] then [] else [StoredBox(sel[0])] + StoredBoxes(sel[1..])
  }

  /** The extent of the selection: least x and y, greatest right and bottom edge. */
  function Extent(nodes: seq<Node>): Box
    requires |Selected(nodes)| > 0
  {
    Enclose(StoredBoxes(Selected(nodes)), 0.0)
  }

  /** One node under `op`, given the selection's extent `e`. */
  function AlignNode(n: Node, op: AlignOp, e: Box): Node
  {
    if !n.selected then n
    else
      var w := SizeOr(n.width, 0.0);
      var h := SizeOr(n.height, 0.0);
      match op
      case Left => n.(position := Pos(e.x, n.position.y))
      case Right => n.(position := Pos((e.x + e.w) - w, n.position.y))
      case CenterX => n.(position := Pos((e.x + (e.x + e.w)) / 2.0 - w / 2.0, n.position.y))
      case Top => n.(position := Pos(n.position.x, e.y))
      case Bottom => n.(position := Pos(n.position.x, (e.y + e.h) - h))
      case CenterY => n.(position := Pos(n.position.x, (e.y + (e.y + e.h)) / 2.0 - h / 2.0))
  }

  function AlignAll(nodes: seq<Node>, op: AlignOp, e: Box): (r: seq<Node>)
    ensures |r| == |nodes| && forall i :: 0 <= i < |nodes| ==> r[i] == AlignNode(nodes[i], op, e)
  {
    if nodes == [] then [] else [AlignNode(nodes[0], op, e)] + AlignAll(nodes[1..], op, e)
  }

  /** `align`: the input itself with fewer than two selected nodes. */
  function Align(nodes: seq<Node>, op: AlignOp): seq<Node>
  {
    var sel := Selected(nodes);
    if |sel| < 2 then nodes else AlignAll(nodes, op, Extent(nodes))
  }

  predicate OnX(op: AlignOp) { op == Left || op == CenterX || op == Right }

  /** Where the `k`-th selected node sits in the list. */
  lemma SelectedIndex(nodes: seq<Node>, k: nat) returns (j: nat)
    requires k < |Selected(nodes)|
    ensures j < |nodes| && nodes[j] == Selected(nodes)[k] && nodes[j].selected
  {
    assert Selected(nodes)[k] in Selected(nodes);
    j :| 0 <= j < |nodes| && nodes[j] == Selected(nodes)[k];
  }

  /** The extent holds every selected node's stored box. */
  lemma ExtentHolds(nodes: seq<Node>, j: nat)
    requires |Selected(nodes)| > 0 && j < |nodes| && nodes[j].selected
    ensures var e := Extent(nodes);
      && e.x <= nodes[j].position.x && nodes[j].position.x + SizeOr(nodes[j].width, 0.0) <= e.x + e.w
      && e.y <= nodes[j].position.y && nodes[j].position.y + SizeOr(nodes[j].height, 0.0) <= e.y + e.h
  {
    var sel := Selected(nodes);
    assert nodes[j] in sel;
    var k :| 0 <= k < |sel| && sel[k] == nodes[j];
    assert StoredBoxes(sel)[k] == StoredBox(nodes[j]);
  }

  /** The left and right edges of the extent are some selected nodes'. */
  lemma ExtentAttainedX(nodes: seq<Node>)
    requires |Selected(nodes)| > 0
    ensures exists j :: 0 <= j < |nodes| && nodes[j].selected && nodes[j].position.x == Extent(nodes).x
    ensures exists j ::
      0 <= j < |nodes| && nodes[j].selected && nodes[j].position.x + SizeOr(nodes[j].width, 0.0) == Extent(nodes).x + Extent(nodes).w
  {
    var bs := StoredBoxes(Selected(nodes));
    var a, _, c, _ := EncloseAttained(bs, 0.0);
    var a' := SelectedIndex(nodes, a);
    var c' := SelectedIndex(nodes, c);
  }

  /** The top and bottom edges of the extent are some selected nodes'. */
  lemma ExtentAttainedY(nodes: seq<Node>)
    requires |Selected(nodes)| > 0
    ensures exists j :: 0 <= j < |nodes| && nodes[j].selected && nodes[j].position.y == Extent(nodes).y
    ensures exists j ::
      0 <= j < |nodes| && nodes[j].selected && nodes[j].position.y + SizeOr(nodes[j].height, 0.0) == Extent(nodes).y + Extent(nodes).h
  {
    var bs := StoredBoxes(Selected(nodes));
    var _, b, _, d := EncloseAttained(bs, 0.0);
    var b' := SelectedIndex(nodes, b);
    var d' := SelectedIndex(nodes, d);
  }

  /**
   * How `align` treats one selected node `n`, giving `r`, under the extent
   * `e`: only the coordinate the op names is rewritten, to the extent's left
   * or top edge, its right or bottom edge, or its midpoint.
   */
  predicate AlignedAs(n: Node, r: Node, op: AlignOp, e: Box)
  {
    var w := SizeOr(n.width, 0.0);
    var h := SizeOr(n.height, 0.0);
    && (OnX(op) ==> r == n.(position := Pos(r.position.x, n.position.y)))
    && (!OnX(op) ==> r == n.(position := Pos(n.position.x, r.position.y)))
    && (op == Left ==> r.position.x == e.x)
    && (op == Right ==> r.position.x + w == e.x + e.w)
    && (op == CenterX ==> r.position.x + w / 2.0 == (e.x + (e.x + e.w)) / 2.0)
    && (op == Top ==> r.position.y == e.y)
    && (op == Bottom ==> r.position.y + h == e.y + e.h)
    && (op == CenterY ==> r.position.y + h / 2.0 == (e.y + (e.y + e.h)) / 2.0)
  }

  lemma AlignNodeSpec(n: Node, op: AlignOp, e: Box)
    requires n.selected
    ensures AlignedAs(n, AlignNode(n, op, e), op, e)
  {
  }

  /**
   * What `align` does to each node: with two or more selected nodes, an
   * unselected node is kept and a selected one is aligned as `AlignedAs`
   * describes, against the extent of the selection.
   */
  lemma AlignSpec(nodes: seq<Node>, op: AlignOp)
    ensures |Selected(nodes)| < 2 ==> Align(nodes, op) == nodes
    ensures |Align(nodes, op)| == |nodes|
    ensures forall i :: 0 <= i < |nodes| && !nodes[i].selected ==> Align(nodes, op)[i] == nodes[i]
    ensures |Selected(nodes)| >= 2 ==>
      forall i :: 0 <= i < |nodes| && nodes[i].selected ==> AlignedAs(nodes[i], Align(nodes, op)[i], op, Extent(nodes))
  {
    if |Selected(nodes)| >= 2 {
      var e := Extent(nodes);
      var r := AlignAll(nodes, op, e);
      assert Align(nodes, op) == r;
      forall i | 0 <= i < |nodes| && nodes[i].selected
        ensures AlignedAs(nodes[i], r[i], op, e)
      {
        AlignNodeSpec(nodes[i], op, e);
      }
    }
  }

  // ---------------------------------------------------------------------
  // distribute
  // ---------------------------------------------------------------------

  function Coord(n: Node, axis: Axis): real
  {
    if axis == Horiz then n.position.x else n.position.y
  }

  /** The node with its `axis` coordinate set to `c`. */
  function Moved(n: Node, axis: Axis, c: real): (r: Node)
    ensures Coord(r, axis) == c
  {
    if axis == Horiz then n.(position := Pos(c, n.position.y)) else n.(position := Pos(n.position.x, c))
  }

  predicate SortedBy(s: seq<Node>, axis: Axis)
  {
    forall i, j :: 0 <= i < j < |s| ==> Coord(s[i], axis) <= Coord(s[j], axis)
  }

  /** Insert `x` after every element whose coordinate is not larger. */
  function Insert(t: seq<Node>, x: Node, axis: Axis): (r: seq<Node>)
    ensures |r| == |t| + 1
    decreases |t|
  {
    if t == [] || Coord(t[|t| - 1], axis) <= Coord(x, axis) then t + [x]
    else Insert(t[..|t| - 1], x, axis) + [t[|t| - 1]]
  }

  /** Insertion adds exactly `x`. */
  lemma {:induction false} InsertElems(t: seq<Node>, x: Node, axis: Axis)
    ensures multiset(Insert(t, x, axis)) == multiset(t) + multiset{x}
    ensures forall y :: y in Insert(t, x, axis) <==> y in t || y == x
    decreases |t|
  {
    if !(t == [] || Coord(t[|t| - 1], axis) <= Coord(x, axis)) {
      var init := t[..|t| - 1];
      assert t == init + [t[|t| - 1]];
      InsertElems(init, x, axis);
    }
    forall y ensures y in Insert(t, x, axis) <==> y in t || y == x {
      assert y in Insert(t, x, axis) <==> y in multiset(Insert(t, x, axis));
      assert y in t <==> y in multiset(t);
    }
  }

  /** Insertion keeps a sorted list sorted. */
  lemma {:induction false} InsertSorted(t: seq<Node>, x: Node, axis: Axis)
    requires SortedBy(t, axis)
    ensures SortedBy(Insert(t, x, axis), axis)
    decreases |t|
  {
    if !(t == [] || Coord(t[|t| - 1], axis) <= Coord(x, axis)) {
      var init := t[..|t| - 1];
      var last := t[|t| - 1];
      assert forall i :: 0 <= i < |init| ==> init[i] == t[i];
      InsertSorted(init, x, axis);
      InsertElems(init, x, axis);
      var m := Insert(init, x, axis);
      forall i | 0 <= i < |m| ensures Coord(m[i], axis) <= Coord(last, axis) {
        assert m[i] in m;
        if m[i] != x {
          var a :| 0 <= a < |init| && init[a] == m[i];
        }
      }
    }
  }

  /**
   * `Array.prototype.sort` with the comparator `a.position[axis] -
   * b.position[axis]`, as an insertion sort.
   */
  function SortByAxis(s: seq<Node>, axis: Axis): (r: seq<Node>)
    ensures |r| == |s|
  {
    if s == [] then [] else Insert(SortByAxis(s[..|s| - 1], axis), s[|s| - 1], axis)
  }

  /** Sorting yields a sorted permutation. */
  lemma {:induction false} SortSpec(s: seq<Node>, axis: Axis)
    ensures multiset(SortByAxis(s, axis)) == multiset(s)
    ensures SortedBy(SortByAxis(s, axis), axis)
  {
    if s != [] {
      var init := s[..|s| - 1];
      SortSpec(init, axis);
      InsertElems(SortByAxis(init, axis), s[|s| - 1], axis);
      InsertSorted(SortByAxis(init, axis), s[|s| - 1], axis);
      assert s == init + [s[|s| - 1]];
    }
  }

  /** Every element of a list sorted from `s` comes from `s`. */
  lemma SortedFrom(s: seq<Node>, axis: Axis)
    ensures forall x :: x in SortByAxis(s, axis) <==> x in s
  {
    SortSpec(s, axis);
    forall x ensures x in SortByAxis(s, axis) <==> x in s {
      assert x in SortByAxis(s, axis) <==> x in multiset(SortByAxis(s, axis));
    }
  }

  lemma {:induction false} InsertUnique(t: seq<Node>, x: Node, axis: Axis)
    requires UniqueIds(t) && forall y :: y in t ==> y.id != x.id
    ensures UniqueIds(Insert(t, x, axis))
    decreases |t|
  {
    if !(t == [] || Coord(t[|t| - 1], axis) <= Coord(x, axis)) {
      var init := t[..|t| - 1];
      var last := t[|t| - 1];
      assert forall y :: y in init ==> y in t;
      InsertUnique(init, x, axis);
      InsertElems(init, x, axis);
      var m := Insert(init, x, axis);
      forall y | y in m ensures y.id != last.id {
        if y in init {
          var a :| 0 <= a < |init| && init[a] == y;
          assert t[a] == y;
        }
      }
    }
  }

  /** Sorting keeps the ids distinct. */
  lemma {:induction false} SortUnique(s: seq<Node>, axis: Axis)
    requires UniqueIds(s)
    ensures UniqueIds(SortByAxis(s, axis))
    decreases |s|
  {
    if s != [] {
      var init := s[..|s| - 1];
      var last := s[|s| - 1];
      SortUnique(init, axis);
      SortedFrom(init, axis);
      forall y | y in SortByAxis(init, axis) ensures y.id != last.id {
        var a :| 0 <= a < |init| && init[a] == y;
        assert s[a] == y;
      }
      InsertUnique(SortByAxis(init, axis), last, axis);
    }
  }

  lemma {:induction false} SelectedUnique(nodes: seq<Node>)
    requires UniqueIds(nodes)
    ensures UniqueIds(Selected(nodes))
  {
    if nodes != [] {
      SelectedUnique(nodes[1..]);
      forall y | y in Selected(nodes[1..]) ensures y.id != nodes[0].id {
        var a :| 0 <= a < |nodes[1..]| && nodes[1..][a] == y;
        assert nodes[a + 1] == y;
      }
    }
  }

  /** The selection in the order `distribute` spaces it. */
  function SortedSelection(nodes: seq<Node>, axis: Axis): seq<Node>
  {
    SortByAxis(Selected(nodes), axis)
  }

  /** The spacing between consecutive nodes of a sorted selection. */
  function Step(sel: seq<Node>, axis: Axis): real
    requires |sel| >= 2
  {
    (Coord(sel[|sel| - 1], axis) - Coord(sel[0], axis)) / (|sel| - 1) as real
  }

  /** The ids of the list in first-occurrence order: the key order of `Object.fromEntries`. */
  function KeysOf(nodes: seq<Node>): (r: seq<string>)
    ensures forall k :: k in r <==> k in Index(nodes)
    ensures forall i, j :: 0 <= i < j < |r| ==> r[i] != r[j]
  {
    if nodes == [] then []
    else
      var init := nodes[..|nodes| - 1];
      var last := nodes[|nodes| - 1];
      if last.id in KeysOf(init) then KeysOf(init) else KeysOf(init) + [last.id]
  }

  /** The entries `byId` holds after the interior nodes `sel[1..j]` have been rewritten. */
  function Overwritten(m: map<string, Node>, sel: seq<Node>, axis: Axis, j: nat): (r: map<string, Node>)
    requires 2 <= |sel| && j <= |sel| - 1
    ensures forall key :: key in m ==> key in r
  {
    if j <= 1 then m
    else
      var k := j - 1;
      Overwritten(m, sel, axis, k)[sel[k].id := Moved(sel[k], axis, Coord(sel[0], axis) + Step(sel, axis) * k as real)]
  }

  /** `Object.values`: the entries in key order. */
  function Values(keys: seq<string>, m: map<string, Node>): (r: seq<Node>)
    requires forall k :: k in keys ==> k in m
    ensures |r| == |keys| && forall i :: 0 <= i < |keys| ==> r[i] == m[keys[i]]
  {
    if keys == [] then [] else [m[keys[0]]] + Values(keys[1..], m)
  }

  /** What `distribute` returns. */
  function Distributed(nodes: seq<Node>, axis: Axis): seq<Node>
  {
    Spread(nodes, SortedSelection(nodes, axis), axis)
  }

  /** The nodes with the interior of the sorted selection `sel` evenly spaced, in key order. */
  function Spread(nodes: seq<Node>, sel: seq<Node>, axis: Axis): seq<Node>
  {
    if |sel| < 3 then nodes
    else Values(KeysOf(nodes), Overwritten(Index(nodes), sel, axis, |sel| - 1))
  }

  /** `Object.fromEntries(nodes.map(n => [n.id, n]))`, as key order and entries. */
  method FromEntries(nodes: seq<Node>) returns (keys: seq<string>, byId: map<string, Node>)
    ensures keys == KeysOf(nodes) && byId == Index(nodes)
  {
    keys := [];
    byId := map[];
    var i := 0;
    while i < |nodes|
      invariant 0 <= i <= |nodes|
      invariant keys == KeysOf(nodes[..i]) && byId == Index(nodes[..i])
    {
      PrefixStep(nodes, i);
      if nodes[i].id !in keys {
        keys := keys + [nodes[i].id];
      }
      byId := byId[nodes[i].id := nodes[i]];
      i := i + 1;
    }
    assert nodes[..|nodes|] == nodes;
  }

  /** The `forEach` of `distribute`: every interior node of the sorted selection rewritten. */
  method SpaceInterior(byId: map<string, Node>, sel: seq<Node>, axis: Axis) returns (m: map<string, Node>)
    requires |sel| >= 3
    ensures m == Overwritten(byId, sel, axis, |sel| - 1)
  {
    var first := sel[0];
    var step := Step(sel, axis);
    m := byId;
    var idx := 1;
    while idx < |sel| - 1
      invariant 1 <= idx <= |sel| - 1
      invariant m == Overwritten(byId, sel, axis, idx)
    {
      OverwrittenStep(byId, sel, axis, idx);
      var moved := Moved(sel[idx], axis, Coord(first, axis) + step * idx as real);
      assert moved == Moved(sel[idx], axis, Coord(sel[0], axis) + Step(sel, axis) * idx as real);
      m := m[sel[idx].id := moved];
      idx := idx + 1;
    }
  }

  lemma OverwrittenStep(byId: map<string, Node>, sel: seq<Node>, axis: Axis, idx: nat)
    requires |sel| >= 3 && 1 <= idx < |sel| - 1
    ensures Overwritten(byId, sel, axis, idx + 1)
      == Overwritten(byId, sel, axis, idx)[sel[idx].id := Moved(sel[idx], axis, Coord(sel[0], axis) + Step(sel, axis) * idx as real)]
  {
  }

  /** `Object.values(byId)`. */
  method ValuesOf(keys: seq<string>, byId: map<string, Node>) returns (r: seq<Node>)
    requires forall key :: key in keys ==> key in byId
    ensures r == Values(keys, byId)
  {
    r := [];
    var k := 0;
    while k < |keys|
      invariant 0 <= k <= |keys|
      invariant r == Values(keys[..k], byId)
    {
      assert keys[..k + 1] == keys[..k] + [keys[k]];
      ValuesSnoc(keys[..k], keys[k], byId);
      r := r + [byId[keys[k]]];
      k := k + 1;
    }
    assert keys[..|keys|] == keys;
  }

  /**
   * `distribute`: sort the selection along the axis, index the nodes by id,
   * overwrite every interior selected node with its evenly spaced coordinate,
   * and return the index's values.
   */
  method Distribute(nodes: seq<Node>, axis: Axis) returns (r: seq<Node>)
    ensures r == Distributed(nodes, axis)
  {
    var sel := SortByAxis(Selected(nodes), axis);
    if |sel| < 3 {
      return nodes;
    }
    var keys, byId := FromEntries(nodes);
    byId := SpaceInterior(byId, sel, axis);
    r := ValuesOf(keys, byId);
  }

  /** One more entry of `Object.fromEntries`: the key order and the index grow by the `i`-th node. */
  lemma PrefixStep(nodes: seq<Node>, i: nat)
    requires i < |nodes|
    ensures KeysOf(nodes[..i + 1]) == if nodes[i].id in KeysOf(nodes[..i]) then KeysOf(nodes[..i]) else KeysOf(nodes[..i]) + [nodes[i].id]
    ensures Index(nodes[..i + 1]) == Index(nodes[..i])[nodes[i].id := nodes[i]]
  {
    assert nodes[..i + 1][..i] == nodes[..i];
  }

  lemma {:induction false} ValuesSnoc(keys: seq<string>, key: string, m: map<string, Node>)
    requires forall k :: k in keys + [key] ==> k in m
    ensures Values(keys + [key], m) == Values(keys, m) + [m[key]]
  {
  }

  /** With fewer than three selected nodes `distribute` returns its input. */
  lemma DistributeFew(nodes: seq<Node>, axis: Axis)
    requires |Selected(nodes)| < 3
    ensures Distributed(nodes, axis) == nodes
  {
  }

  /** The coordinate the `k`-th sorted node gets. */
  function Spaced(sel: seq<Node>, axis: Axis, k: nat): real
    requires |sel| >= 2
  {
    Coord(sel[0], axis) + Step(sel, axis) * k as real
  }

  /** Dividing the span into `n` equal steps: `n` steps make up the span, and a span that is not negative gives a step that is not negative. */
  lemma StepParts(d: real, n: real)
    requires n > 0.0
    ensures (d / n) * n == d
    ensures d >= 0.0 ==> d / n >= 0.0
  {
  }

  /** One step more adds one step. */
  lemma NextStep(a: real, step: real, k: real)
    ensures (a + step * (k + 1.0)) - (a + step * k) == step
  {
  }

  /** The sorted selection spaced out: the ends stay, the gaps are equal and not negative. */
  lemma SpacedSpec(sel: seq<Node>, axis: Axis)
    requires |sel| >= 2 && SortedBy(sel, axis)
    ensures Spaced(sel, axis, 0) == Coord(sel[0], axis)
    ensures Spaced(sel, axis, |sel| - 1) == Coord(sel[|sel| - 1], axis)
    ensures forall k {:trigger Spaced(sel, axis, k)} :: 0 <= k < |sel| - 1 ==>
      Spaced(sel, axis, k + 1) - Spaced(sel, axis, k) == Step(sel, axis) >= 0.0
  {
    var first := Coord(sel[0], axis);
    var last := Coord(sel[|sel| - 1], axis);
    var n := (|sel| - 1) as real;
    assert first <= last;
    StepParts(last - first, n);
    assert Step(sel, axis) == (last - first) / n;
    forall k | 0 <= k < |sel| - 1
      ensures Spaced(sel, axis, k + 1) - Spaced(sel, axis, k) == Step(sel, axis)
    {
      NextStep(first, Step(sel, axis), k as real);
      assert (k + 1) as real == k as real + 1.0;
    }
  }

  /** The overwritten index keeps every entry whose id is not among the rewritten ones. */
  lemma {:induction false} OverwrittenAt(m: map<string, Node>, sel: seq<Node>, axis: Axis, j: nat, id: string)
    requires 2 <= |sel| && j <= |sel| - 1
    requires (forall k :: 0 < k < j ==> sel[k].id != id) && id in m
    ensures Overwritten(m, sel, axis, j)[id] == m[id]
  {
    if j > 1 {
      OverwrittenAt(m, sel, axis, j - 1, id);
    }
  }

  /** The overwritten index maps the `k`-th interior id to that node, moved to its spaced coordinate. */
  lemma {:induction false} OverwrittenMoved(m: map<string, Node>, sel: seq<Node>, axis: Axis, j: nat, k: nat)
    requires 2 <= |sel| && j <= |sel| - 1 && UniqueIds(sel) && 0 < k < j
    ensures sel[k].id in Overwritten(m, sel, axis, j)
    ensures Overwritten(m, sel, axis, j)[sel[k].id] == Moved(sel[k], axis, Spaced(sel, axis, k))
  {
    if k < j - 1 {
      OverwrittenMoved(m, sel, axis, j - 1, k);
    }
  }

  /** With distinct ids the key order is the list order. */
  lemma {:induction false} KeysOfUnique(nodes: seq<Node>)
    requires UniqueIds(nodes)
    ensures |KeysOf(nodes)| == |nodes| && forall i :: 0 <= i < |nodes| ==> KeysOf(nodes)[i] == nodes[i].id
  {
    if nodes != [] {
      var init := nodes[..|nodes| - 1];
      KeysOfUnique(init);
      IndexSpec(init);
      assert forall i :: 0 <= i < |init| ==> init[i] == nodes[i];
    }
  }

  /**
   * `r` is `nodes` with the interior of the sorted selection `sel` spaced
   * out: the list keeps its length and order; the `k`-th node of `sel`, for
   * `k` strictly between the ends, is a node of the list and has its axis
   * coordinate set to `first + k * step` and nothing else changed; every
   * other node, the ends included, is returned as it was.
   */
  predicate SpreadAs(nodes: seq<Node>, sel: seq<Node>, axis: Axis, r: seq<Node>)
    requires |sel| >= 2
  {
    && |r| == |nodes|
    && (forall i, k :: 0 <= i < |nodes| && 0 < k < |sel| - 1 && sel[k].id == nodes[i].id ==>
          sel[k] == nodes[i] && r[i] == Moved(nodes[i], axis, Spaced(sel, axis, k)))
    && (forall i :: 0 <= i < |nodes| && !InteriorId(sel, nodes[i].id) ==> r[i] == nodes[i])
  }

  /** `id` is the id of a node strictly between the ends of `sel`. */
  predicate InteriorId(sel: seq<Node>, id: string)
  {
    exists k :: 0 < k < |sel| - 1 && sel[k].id == id
  }

  /** What `distribute` does when the ids are distinct and three or more nodes are selected. */
  lemma DistributeSpec(nodes: seq<Node>, axis: Axis)
    requires UniqueIds(nodes) && |Selected(nodes)| >= 3
    ensures |SortedSelection(nodes, axis)| == |Selected(nodes)|
    ensures SpreadAs(nodes, SortedSelection(nodes, axis), axis, Distributed(nodes, axis))
  {
    var sel := SortedSelection(nodes, axis);
    SortedSelectionUnique(nodes, axis);
    SortedSelectionFrom(nodes, axis);
    SpreadSpec(nodes, sel, axis);
  }

  /** The interior of `sel`, rewritten by `Spread`, is spread out as `SpreadAs` says. */
  lemma SpreadSpec(nodes: seq<Node>, sel: seq<Node>, axis: Axis)
    requires UniqueIds(nodes) && |sel| >= 3 && UniqueIds(sel) && forall x :: x in sel ==> x in nodes
    ensures SpreadAs(nodes, sel, axis, Spread(nodes, sel, axis))
  {
    forall k | 0 < k < |sel| - 1 ensures sel[k] in nodes {
      assert sel[k] in sel;
    }
    SpreadMovesInterior(nodes, sel, axis);
    SpreadKeepsRest(nodes, sel, axis);
  }

  lemma SpreadMovesInterior(nodes: seq<Node>, sel: seq<Node>, axis: Axis)
    requires UniqueIds(nodes) && |sel| >= 3 && UniqueIds(sel)
    requires forall k :: 0 < k < |sel| - 1 ==> sel[k] in nodes
    ensures |Spread(nodes, sel, axis)| == |nodes|
    ensures forall i, k :: 0 <= i < |nodes| && 0 < k < |sel| - 1 && sel[k].id == nodes[i].id ==>
      sel[k] == nodes[i] && Spread(nodes, sel, axis)[i] == Moved(nodes[i], axis, Spaced(sel, axis, k))
  {
    SpreadLength(nodes, sel, axis);
    forall i, k | 0 <= i < |nodes| && 0 < k < |sel| - 1 && sel[k].id == nodes[i].id
      ensures sel[k] == nodes[i] && Spread(nodes, sel, axis)[i] == Moved(nodes[i], axis, Spaced(sel, axis, k))
    {
      SpreadMoved(nodes, sel, axis, i, k);
    }
  }

  lemma SpreadKeepsRest(nodes: seq<Node>, sel: seq<Node>, axis: Axis)
    requires UniqueIds(nodes) && |sel| >= 3 && UniqueIds(sel)
    ensures |Spread(nodes, sel, axis)| == |nodes|
    ensures forall i :: 0 <= i < |nodes| && !InteriorId(sel, nodes[i].id) ==> Spread(nodes, sel, axis)[i] == nodes[i]
  {
    SpreadLength(nodes, sel, axis);
    forall i | 0 <= i < |nodes| && !InteriorId(sel, nodes[i].id)
      ensures Spread(nodes, sel, axis)[i] == nodes[i]
    {
      SpreadKept(nodes, sel, axis, i);
    }
  }

  lemma SpreadLength(nodes: seq<Node>, sel: seq<Node>, axis: Axis)
    requires UniqueIds(nodes) && |sel| >= 3
    ensures |Spread(nodes, sel, axis)| == |nodes|
  {
    KeysOfUnique(nodes);
  }

  /** A node whose id is the `k`-th interior id of `sel` is that node, moved. */
  lemma SpreadMoved(nodes: seq<Node>, sel: seq<Node>, axis: Axis, i: nat, k: nat)
    requires UniqueIds(nodes) && |sel| >= 3 && UniqueIds(sel)
    requires i < |nodes| && 0 < k < |sel| - 1 && sel[k].id == nodes[i].id && sel[k] in nodes
    ensures sel[k] == nodes[i]
    ensures |Spread(nodes, sel, axis)| == |nodes|
    ensures Spread(nodes, sel, axis)[i] == Moved(nodes[i], axis, Spaced(sel, axis, k))
  {
    assert sel[k] == nodes[i] by {
      assert sel[k] in nodes;
      var a :| 0 <= a < |nodes| && nodes[a] == sel[k];
    }
    SpreadEntry(nodes, sel, axis, i);
    OverwrittenMoved(Index(nodes), sel, axis, |sel| - 1, k);
  }

  /** A node whose id is no interior id of `sel` is returned as it was. */
  lemma SpreadKept(nodes: seq<Node>, sel: seq<Node>, axis: Axis, i: nat)
    requires UniqueIds(nodes) && |sel| >= 3 && UniqueIds(sel)
    requires i < |nodes| && forall k :: 0 < k < |sel| - 1 ==> sel[k].id != nodes[i].id
    ensures |Spread(nodes, sel, axis)| == |nodes| && Spread(nodes, sel, axis)[i] == nodes[i]
  {
    SpreadEntry(nodes, sel, axis, i);
    IndexLastWins(nodes, i);
    OverwrittenAt(Index(nodes), sel, axis, |sel| - 1, nodes[i].id);
  }

  /** The `i`-th returned node is the overwritten index's entry for the `i`-th id. */
  lemma SpreadEntry(nodes: seq<Node>, sel: seq<Node>, axis: Axis, i: nat)
    requires UniqueIds(nodes) && |sel| >= 3 && i < |nodes|
    ensures |Spread(nodes, sel, axis)| == |nodes|
    ensures nodes[i].id in Overwritten(Index(nodes), sel, axis, |sel| - 1)
    ensures Spread(nodes, sel, axis)[i] == Overwritten(Index(nodes), sel, axis, |sel| - 1)[nodes[i].id]
  {
    ValuesOfKeys(nodes, Overwritten(Index(nodes), sel, axis, |sel| - 1), i);
  }

  /** With distinct ids, `Object.values` of any map extending the index lists one entry per node, in order. */
  lemma ValuesOfKeys(nodes: seq<Node>, m: map<string, Node>, i: nat)
    requires UniqueIds(nodes) && i < |nodes| && forall key :: key in Index(nodes) ==> key in m
    ensures forall k :: k in KeysOf(nodes) ==> k in m
    ensures |Values(KeysOf(nodes), m)| == |nodes|
    ensures nodes[i].id in m && Values(KeysOf(nodes), m)[i] == m[nodes[i].id]
  {
    KeysOfUnique(nodes);
    IndexLastWins(nodes, i);
  }

  lemma SortedSelectionFrom(nodes: seq<Node>, axis: Axis)
    ensures |SortedSelection(nodes, axis)| == |Selected(nodes)|
    ensures forall x :: x in SortedSelection(nodes, axis) ==> x in nodes && x.selected
  {
    SortedFrom(Selected(nodes), axis);
  }

  /** The `k`-th node of the sorted selection is a selected node of the list. */
  lemma SortedSelectionAt(nodes: seq<Node>, axis: Axis, k: nat)
    requires k < |SortedSelection(nodes, axis)|
    ensures SortedSelection(nodes, axis)[k] in nodes && SortedSelection(nodes, axis)[k].selected
  {
    SortedSelectionFrom(nodes, axis);
    assert SortedSelection(nodes, axis)[k] in SortedSelection(nodes, axis);
  }

  lemma SortedSelectionUnique(nodes: seq<Node>, axis: Axis)
    requires UniqueIds(nodes)
    ensures UniqueIds(SortedSelection(nodes, axis))
  {
    SelectedUnique(nodes);
    SortUnique(Selected(nodes), axis);
  }

  /** Under `DistributeSpec`'s conditions an unselected node never moves. */
  lemma DistributeKeepsUnselected(nodes: seq<Node>, axis: Axis, i: nat)
    requires UniqueIds(nodes) && |Selected(nodes)| >= 3
    requires i < |nodes| && !nodes[i].selected
    ensures |Distributed(nodes, axis)| == |nodes| && Distributed(nodes, axis)[i] == nodes[i]
  {
    DistributeSpec(nodes, axis);
    var sel := SortedSelection(nodes, axis);
    SortedFrom(Selected(nodes), axis);
    forall k | 0 < k < |sel| - 1 ensures sel[k].id != nodes[i].id {
      assert sel[k] in sel;
    }
    assert !InteriorId(sel, nodes[i].id);
  }
}
