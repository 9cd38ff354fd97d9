/**
 * The export mapping of `src/sheets/mapping.ts`: every node is given a
 * colour token of the `mlcd` palette and one of five shapes, decided by its
 * React Flow type and, for activation and box nodes, by fields of its data.
 */
module SheetsMapping {
  import opened Js
  import opened Graph

  datatype Shape = Rect | Circle | Diamond | Tensor | Group

  /** The text the export writes in the `shape` column. */
  function ShapeName(s: Shape): (r: string)
    ensures |r| > 0 && forall i :: 0 <= i < |r| ==> 'a' <= r[i] <= 'z'
  {
    match s
    case Rect => "rect"
    case Circle => "circle"
    case Diamond => "diamond"
    case Tensor => "tensor"
    case Group => "group"
  }

  lemma ShapeNameInjective(a: Shape, b: Shape)
    requires ShapeName(a) == ShapeName(b)
    ensures a == b
  {
  }

  datatype ExportMapping = ExportMapping(colorToken: string, shape: Shape)

  /** The colour tokens the mapping hands out. */
  const Tokens: set<string> :=
    {"mlcd.data", "mlcd.actO", "mlcd.actG", "mlcd.linearAlt", "mlcd.linear",
     "mlcd.aux", "mlcd.opt", "mlcd.dataN", "mlcd.loss", "mlcd.stroke"}

  /** The token of a `boxNode`, chosen by its `variant` (strict equality on strings). */
  function BoxToken(variant: Value): (r: string)
    ensures r in Tokens
    ensures r == "mlcd.linear" <==>
      variant !in {Str("loss"), Str("dropout"), Str("batchnorm"), Str("embedding"), Str("attention"), Str("activation")}
  {
    if variant == Str("loss") then "mlcd.loss"
    else if variant == Str("dropout") then "mlcd.aux"
    else if variant == Str("batchnorm") then "mlcd.linearAlt"
    else if variant == Str("embedding") then "mlcd.data"
    else if variant == Str("pool") || variant == Str("flatten") then "mlcd.linear"
    else if variant == Str("attention") then "mlcd.data"
    else if variant == Str("activation") then "mlcd.actG"
    else "mlcd.linear"
  }

  /** `n.type || ''`. */
  function TypeName(n: Node): string
  {
    if n.nodeType.Some? then n.nodeType.value else ""
  }

  function MapNodeToExport(n: Node): (r: ExportMapping)
    ensures r.colorToken in Tokens
    ensures r.shape == Tensor <==> TypeName(n) == "tensorNode"
    ensures r.shape == Group <==> TypeName(n) == "groupNode"
    ensures r.shape == Diamond <==> TypeName(n) == "activationNode" && Get(n.data, "shape") == Str("diamond")
    ensures r.shape == Circle <==>
      || (TypeName(n) == "activationNode" && Get(n.data, "shape") != Str("diamond"))
      || TypeName(n) == "circleNode"
    ensures TypeName(n) == "activationNode" ==>
      r.colorToken == (if Get(n.data, "colorAlt") == Str("orange") then "mlcd.actO" else "mlcd.actG")
    ensures TypeName(n) == "boxNode" ==> r.colorToken == BoxToken(Get(n.data, "variant"))
  {
    var t := TypeName(n);
    if t == "tensorNode" then ExportMapping("mlcd.data", Tensor)
    else if t == "activationNode" then
      var shape := if Get(n.data, "shape") == Str("diamond") then Diamond else Circle;
      var token := if Get(n.data, "colorAlt") == Str("orange") then "mlcd.actO" else "mlcd.actG";
      ExportMapping(token, shape)
    else if t == "convNode" then ExportMapping("mlcd.linearAlt", Rect)
    else if t == "fcNode" || t == "mlpNode" then ExportMapping("mlcd.linear", Rect)
    else if t == "dropoutNode" then ExportMapping("mlcd.aux", Rect)
    else if t == "circleNode" then ExportMapping("mlcd.opt", Circle)
    else if t == "groupNode" then ExportMapping("mlcd.dataN", Group)
    else if t == "boxNode" then ExportMapping(BoxToken(Get(n.data, "variant")), Rect)
    else ExportMapping("mlcd.stroke", Rect)
  }

  /** Types the mapping does not list export as a plain rectangle in the stroke colour. */
  lemma UnknownTypeFallback(n: Node)
    requires TypeName(n) !in
      {"tensorNode", "activationNode", "convNode", "fcNode", "mlpNode", "dropoutNode", "circleNode", "groupNode", "boxNode"}
    ensures MapNodeToExport(n) == ExportMapping("mlcd.stroke", Rect)
  {
  }

  /** The mapping reads only the type and the `shape`, `colorAlt` and `variant` data fields. */
  lemma MappingReadsTypeAndThreeFields(a: Node, b: Node)
    requires TypeName(a) == TypeName(b)
    requires forall key :: key in {"shape", "colorAlt", "variant"} ==> Get(a.data, key) == Get(b.data, key)
    ensures MapNodeToExport(a) == MapNodeToExport(b)
  {
    assert Get(a.data, "shape") == Get(b.data, "shape");
    assert Get(a.data, "colorAlt") == Get(b.data, "colorAlt");
    assert Get(a.data, "variant") == Get(b.data, "variant");
  }
}
