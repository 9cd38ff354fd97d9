/**
 * Node size and colour tokens: the size table keyed by sidebar component
 * key, the initial node record built from it, the key to React Flow node
 * type table, and the clamp of dimensions to a key's minimum.
 */
module DesignTokens {
  import opened Js
  import opened Graph

  /** One entry of `NodeSizes`. */
  datatype SizeConfig = SizeConfig(width: real, height: real, fillColor: string, minWidth: real, minHeight: real)

  /** The keys of `NodeSizes`. */
  datatype SizeKey =
    | Neuron | FcLayer | MlpLayers | ConvLayer | Pooling | Flatten
    | SigmoidTanh | SoftmaxRelu | Gelu | BatchNorm | LayerNorm | Dropout
    | InputData | OutputData | Tensor | Loss | Optimizer | Attention | RnnLstm
    | Group | BasicTemplate

  function SizeName(k: SizeKey): string
  {
    match k
    case Neuron => "NEURON"
    case FcLayer => "FC_LAYER"
    case MlpLayers => "MLP_LAYERS"
    case ConvLayer => "CONV_LAYER"
    case Pooling => "POOLING"
    case Flatten => "FLATTEN"
    case SigmoidTanh => "SIGMOID_TANH"
    case SoftmaxRelu => "SOFTMAX_RELU"
    case Gelu => "GELU"
    case BatchNorm => "BATCH_NORM"
    case LayerNorm => "LAYER_NORM"
    case Dropout => "DROPOUT"
    case InputData => "INPUT_DATA"
    case OutputData => "OUTPUT_DATA"
    case Tensor => "TENSOR"
    case Loss => "LOSS"
    case Optimizer => "OPTIMIZER"
    case Attention => "ATTENTION"
    case RnnLstm => "RNN_LSTM"
    case Group => "GROUP"
    case BasicTemplate => "BASIC_TEMPLATE"
  }

  /** The key a string names, if any. */
  function SizeKeyOf(t: string): (r: Option<SizeKey>)
    ensures r.Some? ==> SizeName(r.value) == t
  {
    if |t| == 0 then None
    else match t[0]
    case 'N' => if t == SizeName(Neuron) then Some(Neuron) else None
    case 'F' => if t == SizeName(FcLayer) then Some(FcLayer) else if t == SizeName(Flatten) then Some(Flatten) else None
    case 'M' => if t == SizeName(MlpLayers) then Some(MlpLayers) else None
    case 'C' => if t == SizeName(ConvLayer) then Some(ConvLayer) else None
    case 'P' => if t == SizeName(Pooling) then Some(Pooling) else None
    case 'S' => if t == SizeName(SigmoidTanh) then Some(SigmoidTanh) else if t == SizeName(SoftmaxRelu) then Some(SoftmaxRelu) else None
    case 'G' => if t == SizeName(Gelu) then Some(Gelu) else if t == SizeName(Group) then Some(Group) else None
    case 'B' => if t == SizeName(BatchNorm) then Some(BatchNorm) else if t == SizeName(BasicTemplate) then Some(BasicTemplate) else None
    case 'L' => if t == SizeName(LayerNorm) then Some(LayerNorm) else if t == SizeName(Loss) then Some(Loss) else None
    case 'D' => if t == SizeName(Dropout) then Some(Dropout) else None
    case 'I' => if t == SizeName(InputData) then Some(InputData) else None
    case 'O' => if t == SizeName(OutputData) then Some(OutputData) else if t == SizeName(Optimizer) then Some(Optimizer) else None
    case 'T' => if t == SizeName(Tensor) then Some(Tensor) else None
    case 'A' => if t == SizeName(Attention) then Some(Attention) else None
    case 'R' => if t == SizeName(RnnLstm) then Some(RnnLstm) else None
    case _ => None
  }

  lemma SizeKeyOfName(k: SizeKey)
    ensures SizeKeyOf(SizeName(k)) == Some(k)
  {
  }

  /** The `NodeRoleColor` palette entries the size table uses. */
  const FcColor: string := "#4169E1"
  const ConvColor: string := "#FF8C00"
  const PoolColor: string := "#20B2AA"
  const ActivationColor: string := "#32CD32"
  const NormColor: string := "#9370DB"
  const AttentionColor: string := "#DC143C"
  const RnnColor: string := "#8B4789"
  const DataColor: string := "#4682B4"
  const TensorColor: string := "#5F9EA0"
  const DropoutColor: string := "#A9A9A9"
  const LossColor: string := "#B22222"
  const GroupColor: string := "#708090"

  /** A size at least its own minimum in both directions. */
  predicate MeetsMinimum(c: SizeConfig)
  {
    c.minWidth <= c.width && c.minHeight <= c.height
  }

  /** `NodeSizes[key]`; every entry's default size meets its minimum. */
  function SizeOf(k: SizeKey): (c: SizeConfig)
    ensures MeetsMinimum(c)
  {
    match k
    case Neuron => SizeConfig(60.0, 60.0, ActivationColor, 50.0, 50.0)
    case FcLayer => SizeConfig(80.0, 120.0, FcColor, 80.0, 120.0)
    case MlpLayers => SizeConfig(160.0, 80.0, FcColor, 160.0, 80.0)
    case ConvLayer => SizeConfig(140.0, 160.0, ConvColor, 140.0, 160.0)
    case Pooling => SizeConfig(120.0, 100.0, PoolColor, 120.0, 100.0)
    case Flatten => SizeConfig(100.0, 48.0, TensorColor, 100.0, 48.0)
    case SigmoidTanh => SizeConfig(100.0, 100.0, ActivationColor, 100.0, 100.0)
    case SoftmaxRelu => SizeConfig(100.0, 100.0, ActivationColor, 100.0, 100.0)
    case Gelu => SizeConfig(100.0, 100.0, ActivationColor, 100.0, 100.0)
    case BatchNorm => SizeConfig(140.0, 80.0, NormColor, 140.0, 80.0)
    case LayerNorm => SizeConfig(140.0, 80.0, NormColor, 140.0, 80.0)
    case Dropout => SizeConfig(140.0, 100.0, DropoutColor, 140.0, 100.0)
    case InputData => SizeConfig(120.0, 100.0, DataColor, 120.0, 100.0)
    case OutputData => SizeConfig(120.0, 100.0, DataColor, 120.0, 100.0)
    case Tensor => SizeConfig(140.0, 140.0, TensorColor, 140.0, 140.0)
    case Loss => SizeConfig(100.0, 100.0, LossColor, 100.0, 100.0)
    case Optimizer => SizeConfig(120.0, 100.0, FcColor, 120.0, 100.0)
    case Attention => SizeConfig(160.0, 120.0, AttentionColor, 160.0, 120.0)
    case RnnLstm => SizeConfig(140.0, 100.0, RnnColor, 140.0, 100.0)
    case Group => SizeConfig(300.0, 200.0, GroupColor, 200.0, 150.0)
    case BasicTemplate => SizeConfig(400.0, 250.0, "transparent", 300.0, 200.0)
  }

  // ---------------------------------------------------------------------
  // Initial node data
  // ---------------------------------------------------------------------

  /** `s.replace(/_/g, ' ')`. */
  function ReplaceUnderscores(s: string): (r: string)
    ensures |r| == |s|
    ensures forall i :: 0 <= i < |s| ==> r[i] == (if s[i] == '_' then ' ' else s[i])
  {
    if s == [] then [] else [if s[0] == '_' then ' ' else s[0]] + ReplaceUnderscores(s[1..])
  }

  /** The `Partial<Node>` `getInitialNodeData` returns. */
  datatype InitialNode = InitialNode(nodeType: string, data: map<string, Value>, position: Pos, style: map<string, Value>)

  /** The size entry a key gets: its own, or `FC_LAYER`'s for an unknown key. */
  function SizeOrFc(t: string): SizeConfig
  {
    match SizeKeyOf(t)
    case Some(k) => SizeOf(k)
    case None => SizeOf(FcLayer)
  }

  /** `getInitialNodeData`. */
  function GetInitialNodeData(t: string): InitialNode
  {
    var c := SizeOrFc(t);
    InitialNode(
      "default",
      map["width" := Num(c.width), "height" := Num(c.height), "color" := Str(c.fillColor),
          "label" := Str(ReplaceUnderscores(t)), "formulaLabel" := Str("")],
      Pos(0.0, 0.0),
      map["width" := Num(c.width), "height" := Num(c.height)])
  }

  /**
   * The initial record: type `default` at the origin, the size in both `data`
   * and `style`, the key's colour, an empty formula, and the key with spaces
   * for underscores as label; an unknown key takes the `FC_LAYER` entry.
   */
  lemma InitialNodeDataSpec(t: string)
    ensures var r := GetInitialNodeData(t);
      var c := if SizeKeyOf(t).Some? then SizeOf(SizeKeyOf(t).value) else SizeOf(FcLayer);
      && r.nodeType == "default" && r.position == Pos(0.0, 0.0)
      && r.data.Keys == {"width", "height", "color", "label", "formulaLabel"}
      && r.style.Keys == {"width", "height"}
      && r.data["width"] == r.style["width"] == Num(c.width)
      && r.data["height"] == r.style["height"] == Num(c.height)
      && r.data["color"] == Str(c.fillColor)
      && r.data["formulaLabel"] == Str("")
      && r.data["label"].Str? && |r.data["label"].s| == |t| && '_' !in r.data["label"].s
      && forall i :: 0 <= i < |t| && t[i] != '_' ==> r.data["label"].s[i] == t[i]
  {
    var l := ReplaceUnderscores(t);
    assert forall i :: 0 <= i < |l| ==> l[i] != '_';
  }

  /** An unknown key is drawn with the `FC_LAYER` size and colour. */
  lemma UnknownKeyUsesFcLayer(t: string)
    requires SizeKeyOf(t).None?
    ensures var r := GetInitialNodeData(t);
      && r.style["width"] == Num(80.0) && r.style["height"] == Num(120.0) && r.data["color"] == Str(FcColor)
  {
  }

  // ---------------------------------------------------------------------
  // Node types
  // ---------------------------------------------------------------------

  /** The `typeMap` of `getNodeTypeFromKey`; `BASIC_TEMPLATE` has no entry. */
  function TypeOfKey(k: SizeKey): (r: Option<string>)
    ensures r.Some? ==> r.value != "box" && r.value != ""
  {
    match k
    case Neuron => Some("neuron")
    case FcLayer => Some("fc")
    case MlpLayers => Some("mlp")
    case ConvLayer => Some("conv")
    case Pooling => Some("pooling")
    case Flatten => Some("flatten")
    case SigmoidTanh => Some("activation")
    case SoftmaxRelu => Some("activation")
    case Gelu => Some("activation")
    case BatchNorm => Some("normalization")
    case LayerNorm => Some("normalization")
    case Dropout => Some("dropout")
    case InputData => Some("data")
    case OutputData => Some("data")
    case Tensor => Some("tensor")
    case Loss => Some("circle")
    case Optimizer => Some("circle")
    case Attention => Some("attentionNode")
    case RnnLstm => Some("rnnNode")
    case Group => Some("group")
    case BasicTemplate => None
  }

  /** `getNodeTypeFromKey`: the table entry, `box` for a key the table lacks. */
  function GetNodeTypeFromKey(t: string): (r: string)
    ensures r == "box" <==> SizeKeyOf(t).None? || TypeOfKey(SizeKeyOf(t).value).None?
    ensures r != "box" ==> Some(r) == TypeOfKey(SizeKeyOf(t).value)
  {
    match SizeKeyOf(t)
    case Some(k) => if TypeOfKey(k).Some? then TypeOfKey(k).value else "box"
    case None => "box"
  }

  // ---------------------------------------------------------------------
  // Dimension clamp
  // ---------------------------------------------------------------------

  datatype Dims = Dims(width: real, height: real)

  function Max(a: real, b: real): real
  {
    if a >= b then a else b
  }

  /**
   * `validateNodeDimensions`: each dimension raised to the key's minimum.
   * `None` for a key the table lacks, where the source throws on reading
   * `minWidth` of `undefined`.
   */
  function ValidateNodeDimensions(t: string, width: real, height: real): (r: Option<Dims>)
    ensures r.Some? <==> SizeKeyOf(t).Some?
    ensures r.Some? ==> var c := SizeOf(SizeKeyOf(t).value);
      && r.value.width >= c.minWidth && r.value.height >= c.minHeight
      && (r.value.width == width || r.value.width == c.minWidth)
      && (r.value.height == height || r.value.height == c.minHeight)
      && (width >= c.minWidth ==> r.value.width == width)
      && (height >= c.minHeight ==> r.value.height == height)
  {
    match SizeKeyOf(t)
    case None => None
    case Some(k) => Some(Dims(Max(width, SizeOf(k).minWidth), Max(height, SizeOf(k).minHeight)))
  }

  /** Clamping a clamped size changes nothing. */
  lemma ValidateIdempotent(t: string, width: real, height: real)
    requires ValidateNodeDimensions(t, width, height).Some?
    ensures var d := ValidateNodeDimensions(t, width, height).value;
      ValidateNodeDimensions(t, d.width, d.height) == Some(d)
  {
  }

  /** A key's own default size passes the clamp unchanged. */
  lemma DefaultSizeValid(k: SizeKey)
    ensures ValidateNodeDimensions(SizeName(k), SizeOf(k).width, SizeOf(k).height) == Some(Dims(SizeOf(k).width, SizeOf(k).height))
  {
    SizeKeyOfName(k);
  }
}
