/**
 * The updaters of `src/components/PropertiesPanel.tsx`: the width the panel
 * shows, the label prefix applied to a multi-selection, and the four edge
 * editors (colour, arrow, residual flag, edge type). The edge editors are the
 * functions the panel hands to `updateEdge`; the prefix is applied through
 * the store's `updateNodeData`, one selected node after the other.
 */
module PropertiesPanel {
  import opened Js
  import opened Graph
  import opened DiagramState
  import opened CsvExport

  // ---------------------------------------------------------------------
  // The displayed width
  // ---------------------------------------------------------------------

  /** `Math.min(hi, x)` and `Math.max(lo, x)` on a number; None stands for NaN, which both keep. */
  function MathMin(a: real, x: Option<real>): Option<real>
  {
    if x.None? then None else Some(if x.value < a then x.value else a)
  }

  function MathMax(a: real, x: Option<real>): Option<real>
  {
    if x.None? then None else Some(if x.value > a then x.value else a)
  }

  /** `Math.max(100, Math.min(400, data.width ?? 140))`. */
  function DisplayWidth(data: map<string, Value>): (w: Option<real>)
    ensures w.Some? ==> 100.0 <= w.value <= 400.0
    ensures w.None? <==> ToNumber(Coalesce(Get(data, "width"), Num(140.0))).None?
  {
    MathMax(100.0, MathMin(400.0, ToNumber(Coalesce(Get(data, "width"), Num(140.0)))))
  }

  /** A width between the bounds is shown as it is; one outside is moved to the nearer bound. */
  lemma DisplayWidthOfNumber(data: map<string, Value>, n: real)
    requires Get(data, "width") == Num(n)
    ensures 100.0 <= n <= 400.0 ==> DisplayWidth(data) == Some(n)
    ensures n < 100.0 ==> DisplayWidth(data) == Some(100.0)
    ensures n > 400.0 ==> DisplayWidth(data) == Some(400.0)
  {
  }

  /** A missing or `null` width is replaced by 140 before clamping. */
  lemma DisplayWidthDefaults(data: map<string, Value>)
    ensures Get(data, "width").Undef? ==> DisplayWidth(data) == Some(140.0)
    ensures Get(data, "width").Null? ==> DisplayWidth(data) == Some(140.0)
  {
  }

  /** Writing back the shown width shows the same width again. */
  lemma DisplayWidthIdempotent(data: map<string, Value>)
    requires DisplayWidth(data).Some?
    ensures DisplayWidth(data["width" := Num(DisplayWidth(data).value)]) == DisplayWidth(data)
  {
  }

  // ---------------------------------------------------------------------
  // applyPrefix
  // ---------------------------------------------------------------------

  /** `${prefix}${base || idx + 1}` with `base = n.data?.label ?? ''`. */
  function PrefixLabel(prefix: string, n: Node, idx: nat): (r: Value)
    ensures r.Str? && prefix <= r.s
  {
    var base := Coalesce(Get(n.data, "label"), Str(""));
    Str(prefix + (if Truthy(base) then ToStr(base) else NatToString(idx + 1)))
  }

  /** The nodes after the first k calls of `updateNodeData(sel[i].id, { label })`. */
  function Prefixed(nodes: seq<Node>, sel: seq<Node>, prefix: string, k: nat): (r: seq<Node>)
    requires k <= |sel|
    ensures |r| == |nodes|
  {
    if k == 0 then nodes
    else MergeData(Prefixed(nodes, sel, prefix, k - 1), sel[k - 1].id, map["label" := PrefixLabel(prefix, sel[k - 1], k - 1)])
  }

  /** Selected nodes have pairwise distinct ids. */
  predicate DistinctIds(sel: seq<Node>)
  {
    forall i, j :: 0 <= i < j < |sel| ==> sel[i].id != sel[j].id
  }

  /** One `updateNodeData(id, { label: v })`, seen from the node at position p. */
  lemma MergeLabelAt(nodes: seq<Node>, id: string, v: Value, p: nat)
    requires p < |nodes|
    ensures MergeData(nodes, id, map["label" := v])[p] ==
      if nodes[p].id == id then nodes[p].(data := nodes[p].data["label" := v]) else nodes[p]
  {
    assert nodes[p].data + map["label" := v] == nodes[p].data["label" := v];
  }

  /** Step k of `applyPrefix`, seen from the node at position p. */
  lemma PrefixedStep(nodes: seq<Node>, sel: seq<Node>, prefix: string, k: nat, p: nat)
    requires 0 < k <= |sel| && p < |nodes|
    ensures Prefixed(nodes, sel, prefix, k)[p] ==
      var q := Prefixed(nodes, sel, prefix, k - 1)[p];
      if q.id == sel[k - 1].id then q.(data := q.data["label" := PrefixLabel(prefix, sel[k - 1], k - 1)]) else q
  {
    MergeLabelAt(Prefixed(nodes, sel, prefix, k - 1), sel[k - 1].id, PrefixLabel(prefix, sel[k - 1], k - 1), p);
  }

  /** Every step keeps the ids in place. */
  lemma {:induction false} PrefixedId(nodes: seq<Node>, sel: seq<Node>, prefix: string, k: nat, p: nat)
    requires k <= |sel| && p < |nodes|
    ensures Prefixed(nodes, sel, prefix, k)[p].id == nodes[p].id
  {
    if k > 0 {
      PrefixedId(nodes, sel, prefix, k - 1, p);
      var q := Prefixed(nodes, sel, prefix, k - 1);
      assert Prefixed(nodes, sel, prefix, k) == MergeData(q, sel[k - 1].id, map["label" := PrefixLabel(prefix, sel[k - 1], k - 1)]);
    }
  }

  /** After k steps, a node whose id none of the first k selections has is untouched. */
  lemma {:induction false} PrefixedUntouched(nodes: seq<Node>, sel: seq<Node>, prefix: string, k: nat, p: nat)
    requires k <= |sel| && p < |nodes|
    requires forall i :: 0 <= i < k ==> sel[i].id != nodes[p].id
    ensures Prefixed(nodes, sel, prefix, k)[p] == nodes[p]
  {
    if k > 0 {
      PrefixedUntouched(nodes, sel, prefix, k - 1, p);
      PrefixedStep(nodes, sel, prefix, k, p);
    }
  }

  /**
   * After k steps, the node whose id is that of sel[i] (i < k) has the label
   * computed for sel[i] and its other fields and data keys as before.
   */
  lemma {:induction false} PrefixedHit(nodes: seq<Node>, sel: seq<Node>, prefix: string, k: nat, p: nat, i: nat)
    requires k <= |sel| && p < |nodes| && DistinctIds(sel)
    requires i < k && sel[i].id == nodes[p].id
    ensures Prefixed(nodes, sel, prefix, k)[p] == nodes[p].(data := nodes[p].data["label" := PrefixLabel(prefix, sel[i], i)])
  {
    if i == k - 1 {
      PrefixedLast(nodes, sel, prefix, k, p);
    } else {
      PrefixedHit(nodes, sel, prefix, k - 1, p, i);
      assert sel[k - 1].id != nodes[p].id;
      PrefixedSkip(nodes, sel, prefix, k, p);
    }
  }

  /** A step whose selection has another id leaves the node at position p as it was. */
  lemma PrefixedSkip(nodes: seq<Node>, sel: seq<Node>, prefix: string, k: nat, p: nat)
    requires 0 < k <= |sel| && p < |nodes| && sel[k - 1].id != nodes[p].id
    ensures Prefixed(nodes, sel, prefix, k)[p] == Prefixed(nodes, sel, prefix, k - 1)[p]
  {
    PrefixedId(nodes, sel, prefix, k - 1, p);
    PrefixedStep(nodes, sel, prefix, k, p);
  }

  /** The step of the selection that has the node's id, when no earlier selection has it. */
  lemma PrefixedLast(nodes: seq<Node>, sel: seq<Node>, prefix: string, k: nat, p: nat)
    requires 0 < k <= |sel| && p < |nodes| && DistinctIds(sel)
    requires sel[k - 1].id == nodes[p].id
    ensures Prefixed(nodes, sel, prefix, k)[p] == nodes[p].(data := nodes[p].data["label" := PrefixLabel(prefix, sel[k - 1], k - 1)])
  {
    PrefixedUntouched(nodes, sel, prefix, k - 1, p);
    PrefixedStep(nodes, sel, prefix, k, p);
  }

  /**
   * `applyPrefix`: every selected node, in selection order, gets the label
   * built from its label in the selection snapshot and its position there.
   */
  method ApplyPrefix(store: DiagramStore, sel: seq<Node>, prefix: string)
    modifies store
    ensures store.nodes == Prefixed(old(store.nodes), sel, prefix, |sel|)
    ensures store.edges == old(store.edges)
    ensures store.snapToGrid == old(store.snapToGrid) && store.snapGrid == old(store.snapGrid)
  {
    var k := 0;
    while k < |sel|
      invariant 0 <= k <= |sel|
      invariant store.nodes == Prefixed(old(store.nodes), sel, prefix, k)
      invariant store.edges == old(store.edges)
      invariant store.snapToGrid == old(store.snapToGrid) && store.snapGrid == old(store.snapGrid)
    {
      store.UpdateNodeData(sel[k].id, map["label" := PrefixLabel(prefix, sel[k], k)]);
      k := k + 1;
    }
  }

  // ---------------------------------------------------------------------
  // onColorAll and onWidthAll
  // ---------------------------------------------------------------------

  /** The nodes after the first k calls of `updateNodeData(sel[i].id, patch)`, one patch for all. */
  function PatchedAll(nodes: seq<Node>, sel: seq<Node>, patch: map<string, Value>, k: nat): (r: seq<Node>)
    requires k <= |sel|
    ensures |r| == |nodes|
  {
    if k == 0 then nodes else MergeData(PatchedAll(nodes, sel, patch, k - 1), sel[k - 1].id, patch)
  }

  /** One of the first k selected nodes has the id. */
  predicate SelectedAmong(sel: seq<Node>, k: nat, id: string)
  {
    exists i :: 0 <= i < k && i < |sel| && sel[i].id == id
  }

  /**
   * After k calls, a node that one of the first k selections names carries the
   * patch over its old data and every other node is as before; this needs no
   * distinct ids, since merging the same patch again changes nothing.
   */
  lemma {:induction false} PatchedAllAt(nodes: seq<Node>, sel: seq<Node>, patch: map<string, Value>, k: nat, p: nat)
    requires k <= |sel| && p < |nodes|
    ensures PatchedAll(nodes, sel, patch, k)[p] ==
      if SelectedAmong(sel, k, nodes[p].id) then nodes[p].(data := nodes[p].data + patch) else nodes[p]
  {
    if k > 0 {
      PatchedAllAt(nodes, sel, patch, k - 1, p);
      var id := nodes[p].id;
      if sel[k - 1].id == id {
        assert SelectedAmong(sel, k, id);
        assert (nodes[p].data + patch) + patch == nodes[p].data + patch;
      } else {
        assert SelectedAmong(sel, k, id) == SelectedAmong(sel, k - 1, id) by {
          if SelectedAmong(sel, k, id) {
            var i :| 0 <= i < k && i < |sel| && sel[i].id == id;
            assert i < k - 1;
          }
        }
      }
    }
  }

  /** The loop of `selectedNodes.forEach((n) => updateNodeData(n.id, patch))`. */
  method PatchAll(store: DiagramStore, sel: seq<Node>, patch: map<string, Value>)
    modifies store
    ensures store.nodes == PatchedAll(old(store.nodes), sel, patch, |sel|)
    ensures store.edges == old(store.edges)
    ensures store.snapToGrid == old(store.snapToGrid) && store.snapGrid == old(store.snapGrid)
  {
    var k := 0;
    while k < |sel|
      invariant 0 <= k <= |sel|
      invariant store.nodes == PatchedAll(old(store.nodes), sel, patch, k)
      invariant store.edges == old(store.edges)
      invariant store.snapToGrid == old(store.snapToGrid) && store.snapGrid == old(store.snapGrid)
    {
      store.UpdateNodeData(sel[k].id, patch);
      k := k + 1;
    }
  }

  /** `onColorAll`: every selected node's data gets `color: v`. */
  method ColorAll(store: DiagramStore, sel: seq<Node>, v: string)
    modifies store
    ensures store.nodes == PatchedAll(old(store.nodes), sel, map["color" := Str(v)], |sel|)
    ensures store.edges == old(store.edges)
    ensures store.snapToGrid == old(store.snapToGrid) && store.snapGrid == old(store.snapGrid)
  {
    PatchAll(store, sel, map["color" := Str(v)]);
  }

  /** `onWidthAll`: every selected node's data gets `width: Number(text)`, NaN when the text is no number. */
  method WidthAll(store: DiagramStore, sel: seq<Node>, text: string)
    modifies store
    ensures store.nodes == PatchedAll(old(store.nodes), sel, map["width" := FromNumber(ToNumber(Str(text)))], |sel|)
    ensures store.edges == old(store.edges)
    ensures store.snapToGrid == old(store.snapToGrid) && store.snapGrid == old(store.snapGrid)
  {
    PatchAll(store, sel, map["width" := FromNumber(ToNumber(Str(text)))]);
  }

  /** Writing a number into `width` shows it clamped to [100, 400]. */
  lemma WidthPatchShown(d: map<string, Value>, n: real)
    ensures DisplayWidth(d + map["width" := Num(n)]) == Some(if n < 100.0 then 100.0 else if n > 400.0 then 400.0 else n)
  {
    assert Get(d + map["width" := Num(n)], "width") == Num(n);
    DisplayWidthOfNumber(d + map["width" := Num(n)], n);
  }

  /** After `onWidthAll` with a number, each selected node shows that number clamped to [100, 400]. */
  lemma WidthAllShown(nodes: seq<Node>, sel: seq<Node>, n: real, p: nat)
    requires p < |nodes| && SelectedAmong(sel, |sel|, nodes[p].id)
    ensures DisplayWidth(PatchedAll(nodes, sel, map["width" := Num(n)], |sel|)[p].data)
      == Some(if n < 100.0 then 100.0 else if n > 400.0 then 400.0 else n)
  {
    PatchedAllAt(nodes, sel, map["width" := Num(n)], |sel|, p);
    WidthPatchShown(nodes[p].data, n);
  }

  // ---------------------------------------------------------------------
  // The edge editors
  // ---------------------------------------------------------------------

  /** `Boolean(e.markerEnd)`: a marker object is always truthy. */
  predicate HasArrow(e: Edge)
  {
    e.markerEnd.Some?
  }

  /** `Boolean(e.type === 'residualEdge' || e.data?.residual)`. */
  predicate IsResidual(e: Edge)
  {
    e.edgeType == Some("residualEdge") || Truthy(Get(e.data, "residual"))
  }

  /** `onEdgeColor`: the stroke becomes the colour; an edge that showed an arrow gets it recoloured. */
  function EdgeColored(e: Edge, color: string, hadArrow: bool): (r: Edge)
    ensures Get(r.style, "stroke") == Str(color)
    ensures r.markerEnd == if hadArrow then Some(ArrowMarker(Str(color))) else None
    ensures r.(style := e.style, markerEnd := e.markerEnd) == e
    ensures forall k :: k != "stroke" ==> Get(r.style, k) == Get(e.style, k)
  {
    e.(style := e.style["stroke" := Str(color)], markerEnd := if hadArrow then Some(ArrowMarker(Str(color))) else None)
  }

  /** `onEdgeArrow`: on adds an arrow in the stroke colour, `#111827` when the stroke is unset; off removes it. */
  function EdgeArrow(e: Edge, checked: bool): (r: Edge)
    ensures HasArrow(r) <==> checked
    ensures checked && Truthy(Get(e.style, "stroke")) ==> r.markerEnd == Some(ArrowMarker(Get(e.style, "stroke")))
    ensures checked && !Truthy(Get(e.style, "stroke")) ==> r.markerEnd == Some(ArrowMarker(Str(EdgeInk)))
    ensures r.(markerEnd := e.markerEnd) == e
  {
    e.(markerEnd := if checked then Some(ArrowMarker(Or(Get(e.style, "stroke"), Str(EdgeInk)))) else None)
  }

  /** `onEdgeResidual`: the type, `data.residual` and the dash pattern follow the checkbox. */
  function EdgeResidual(e: Edge, checked: bool): (r: Edge)
    ensures r.edgeType == if checked then Some("residualEdge") else None
    ensures Get(r.data, "residual") == Bool(checked)
    ensures Get(r.style, "strokeDasharray") == if checked then Str("6 4") else Undef
    ensures r.(edgeType := e.edgeType, data := e.data, style := e.style) == e
  {
    e.(edgeType := if checked then Some("residualEdge") else None,
       data := e.data["residual" := Bool(checked)],
       style := e.style["strokeDasharray" := if checked then Str("6 4") else Undef])
  }

  /** `if (next.style.strokeDasharray) delete next.style.strokeDasharray`. */
  function DropDash(style: map<string, Value>): (r: map<string, Value>)
    ensures !Truthy(Get(r, "strokeDasharray"))
    ensures forall k :: k != "strokeDasharray" ==> Get(r, k) == Get(style, k)
  {
    if Truthy(Get(style, "strokeDasharray")) then style - {"strokeDasharray"} else style
  }

  /** `onEdgeTypeChange`: `default` and `simpleArrowEdge` drop the dash pattern, `residualEdge` sets it. */
  function EdgeTypeChanged(e: Edge, v: string): (r: Edge)
    ensures v == "default" ==> r.edgeType == None
    ensures v == "simpleArrowEdge" ==> r.edgeType == Some("simpleArrowEdge")
    ensures v == "default" || v == "simpleArrowEdge" ==>
      r.data == e.data && !Truthy(Get(r.style, "strokeDasharray")) && r.(edgeType := e.edgeType, style := e.style) == e
    ensures v !in {"default", "simpleArrowEdge", "residualEdge"} ==> r == e
  {
    if v == "default" then e.(edgeType := None, style := DropDash(e.style))
    else if v == "simpleArrowEdge" then e.(edgeType := Some("simpleArrowEdge"), style := DropDash(e.style))
    else if v == "residualEdge" then
      e.(edgeType := Some("residualEdge"), style := e.style["strokeDasharray" := Str("6 4")],
         data := e.data["residual" := Bool(true)])
    else e
  }

  // ---------------------------------------------------------------------
  // How the editors relate to each other and to the export
  // ---------------------------------------------------------------------

  /** The panel's residual checkbox shows exactly what the export writes in the `residual` column. */
  lemma ResidualShownAsExported(e: Edge)
    ensures IsResidual(e) <==> ExportsResidual(e)
  {
  }

  /** After the colour editor, the export writes the new colour and the arrow flag as before. */
  lemma ColoredExport(e: Edge, color: string)
    ensures EdgeRow(EdgeColored(e, color, HasArrow(e)))[4] == Str(color)
    ensures EdgeRow(EdgeColored(e, color, HasArrow(e)))[5] == EdgeRow(e)[5]
  {
  }

  /** The arrow checkbox decides the exported `arrow` column. */
  lemma ArrowExport(e: Edge, checked: bool)
    ensures EdgeRow(EdgeArrow(e, checked))[5] == Bool(checked)
  {
  }

  /** The residual checkbox decides the exported `residual` column, in both directions. */
  lemma ResidualExport(e: Edge, checked: bool)
    ensures ExportsResidual(EdgeResidual(e, checked)) <==> checked
    ensures EdgeRow(EdgeResidual(e, checked))[6] == Bool(checked)
  {
  }

  /** Choosing the `residualEdge` type is the same as ticking the residual checkbox. */
  lemma ResidualTypeIsResidualToggle(e: Edge)
    ensures EdgeTypeChanged(e, "residualEdge") == EdgeResidual(e, true)
  {
  }

  /**
   * Choosing `default` or `simpleArrowEdge` keeps `data.residual`: an edge
   * that was made residual through the checkbox still shows and exports as
   * residual after its type was changed back.
   */
  lemma TypeChangeKeepsResidualFlag(e: Edge, v: string)
    requires Truthy(Get(e.data, "residual"))
    ensures IsResidual(EdgeTypeChanged(e, v)) && ExportsResidual(EdgeTypeChanged(e, v))
  {
  }

  /** Each editor gives the same edge when applied a second time with the same input. */
  lemma ColoredIdempotent(e: Edge, color: string, hadArrow: bool)
    ensures EdgeColored(EdgeColored(e, color, hadArrow), color, hadArrow) == EdgeColored(e, color, hadArrow)
  {
    var c := EdgeColored(e, color, hadArrow);
    assert c.style["stroke" := Str(color)] == c.style;
  }

  lemma ArrowIdempotent(e: Edge, checked: bool)
    ensures EdgeArrow(EdgeArrow(e, checked), checked) == EdgeArrow(e, checked)
  {
  }

  lemma ResidualIdempotent(e: Edge, checked: bool)
    ensures EdgeResidual(EdgeResidual(e, checked), checked) == EdgeResidual(e, checked)
  {
    var r := EdgeResidual(e, checked);
    assert r.data["residual" := Bool(checked)] == r.data;
    assert r.style["strokeDasharray" := if checked then Str("6 4") else Undef] == r.style;
  }

  lemma TypeChangedIdempotent(e: Edge, v: string)
    ensures EdgeTypeChanged(EdgeTypeChanged(e, v), v) == EdgeTypeChanged(e, v)
  {
    var t := EdgeTypeChanged(e, v);
    if v == "default" || v == "simpleArrowEdge" {
      assert DropDash(t.style) == t.style;
    } else if v == "residualEdge" {
      assert t.style["strokeDasharray" := Str("6 4")] == t.style;
      assert t.data["residual" := Bool(true)] == t.data;
    }
  }
}
