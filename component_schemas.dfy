/**
 * The parameter schema registry: for every component key a list of
 * parameter fields (kind, label, default, bounds, options), the default
 * record, and the coercion `validateParameter` applies to an edited value.
 */
module ComponentSchemas {
  import opened Js

  datatype FieldType = NumberField | StringField | SelectField | BooleanField | RangeField

  /** One parameter's definition; `None` stands for a property the literal leaves out. */
  datatype SchemaField = SchemaField(
    fieldType: FieldType,
    fieldLabel: string,
    i18nKey: string,
    defaultValue: Value,
    options: Option<seq<Value>>,
    min: Option<real>,
    max: Option<real>,
    step: Option<real>,
    hint: Option<string>,
    placeholder: Option<string>)

  datatype Param = Param(name: string, field: SchemaField)

  /** A schema: its parameters in declaration (and `Object.entries`) order. */
  type ComponentSchema = seq<Param>

  // Each schema literal below takes a unit argument, so that the verifier
  // unfolds its text only in a proof that mentions it, not in every proof
  // that reaches the registry.

  /** `FC_LAYER`, componentSchemas.ts:48-80. */
  function FcLayerSchema(u: ()): (s: ComponentSchema)
    ensures WellFormedSchema(s)
  {
    [
    Param("inputDim", SchemaField(NumberField, "Input Dimension", "schema.fc.inputDim", Num(512.0), None, Some(1.0), None, None, Some("Number of input features"), None)),
    Param("outputDim", SchemaField(NumberField, "Output Dimension", "schema.fc.outputDim", Num(128.0), None, Some(1.0), None, None, Some("Number of output neurons"), None)),
    Param("activation", SchemaField(SelectField, "Activation", "schema.fc.activation", Str("ReLU"), Some([Str("None"), Str("ReLU"), Str("Sigmoid"), Str("Tanh"), Str("GELU"), Str("SiLU")]), None, None, None, Some("Post-activation function"), None)),
    Param("useBias", SchemaField(BooleanField, "Use Bias", "schema.fc.bias", Bool(true), None, None, None, None, Some("Include bias term (b)"), None))
    ]
  }

  /** `MLP_LAYERS`, componentSchemas.ts:86-120. */
  function MlpLayersSchema(u: ()): (s: ComponentSchema)
    ensures WellFormedSchema(s)
  {
    [
    Param("layerWidths", SchemaField(StringField, "Layer Widths", "schema.mlp.widths", Str("512:256:128:64"), None, None, None, None, Some("Colon-separated layer sizes (e.g., 512:256:128)"), Some("512:256:128:64"))),
    Param("activation", SchemaField(SelectField, "Hidden Activation", "schema.mlp.activation", Str("GELU"), Some([Str("ReLU"), Str("GELU"), Str("Tanh"), Str("SiLU"), Str("Leaky ReLU")]), None, None, None, Some("Activation between layers"), None)),
    Param("dropout", SchemaField(RangeField, "Dropout Rate", "schema.mlp.dropout", Num(0.1), None, Some(0.0), Some(0.9), Some(0.05), Some("Dropout probability (0 = disabled)"), None)),
    Param("showConnections", SchemaField(BooleanField, "Show Inter-Layer Connections", "schema.mlp.connections", Bool(true), None, None, None, None, Some("Visualize neuron connections"), None))
    ]
  }

  /** `CONV_LAYER`, componentSchemas.ts:126-185. */
  function ConvLayerSchema(u: ()): (s: ComponentSchema)
    ensures WellFormedSchema(s)
  {
    [
    Param("inChannels", SchemaField(NumberField, "Input Channels", "schema.conv.in", Num(3.0), None, Some(1.0), None, None, Some("Number of input feature maps (e.g., 3 for RGB)"), None)),
    Param("outChannels", SchemaField(NumberField, "Output Channels", "schema.conv.out", Num(64.0), None, Some(1.0), None, None, Some("Number of learned filters"), None)),
    Param("kernelSize", SchemaField(SelectField, "Kernel Size (k×k)", "schema.conv.kernel", Num(3.0), Some([Num(1.0), Num(3.0), Num(5.0), Num(7.0), Num(11.0)]), None, None, None, Some("Receptive field size"), None)),
    Param("stride", SchemaField(NumberField, "Stride", "schema.conv.stride", Num(1.0), None, Some(1.0), Some(8.0), None, Some("Step size for kernel sliding"), None)),
    Param("padding", SchemaField(SelectField, "Padding", "schema.conv.padding", Str("same"), Some([Str("valid"), Str("same"), Str("none")]), None, None, None, Some("\"same\" preserves spatial dims"), None)),
    Param("dilation", SchemaField(NumberField, "Dilation", "schema.conv.dilation", Num(1.0), None, Some(1.0), Some(8.0), None, Some("Spacing between kernel elements"), None)),
    Param("groups", SchemaField(NumberField, "Groups", "schema.conv.groups", Num(1.0), None, Some(1.0), None, None, Some("Grouped convolution (1 = standard)"), None))
    ]
  }

  /** `POOLING`, componentSchemas.ts:191-225. */
  function PoolingSchema(u: ()): (s: ComponentSchema)
    ensures WellFormedSchema(s)
  {
    [
    Param("poolType", SchemaField(SelectField, "Pool Type", "schema.pool.type", Str("max"), Some([Str("max"), Str("avg"), Str("global")]), None, None, None, Some("Aggregation function"), None)),
    Param("poolSize", SchemaField(SelectField, "Pool Size (k×k)", "schema.pool.size", Num(2.0), Some([Num(2.0), Num(3.0), Num(4.0), Num(5.0)]), None, None, None, Some("Window size for pooling"), None)),
    Param("stride", SchemaField(NumberField, "Stride", "schema.pool.stride", Num(2.0), None, Some(1.0), Some(8.0), None, Some("Usually equals pool size"), None)),
    Param("visualization", SchemaField(SelectField, "Visualization Style", "schema.pool.viz", Str("funnel"), Some([Str("funnel"), Str("grid")]), None, None, None, Some("Funnel (default) or grid→single"), None))
    ]
  }

  /** `FLATTEN`, componentSchemas.ts:231-249. */
  function FlattenSchema(u: ()): (s: ComponentSchema)
    ensures WellFormedSchema(s)
  {
    [
    Param("startDim", SchemaField(NumberField, "Start Dimension", "schema.flatten.start", Num(1.0), None, Some(0.0), None, None, Some("Dimension to start flattening from (0 = include batch)"), None)),
    Param("endDim", SchemaField(NumberField, "End Dimension", "schema.flatten.end", Num(-1.0), None, Some(-1.0), None, None, Some("-1 means last dimension"), None))
    ]
  }

  /** `ACTIVATION`, componentSchemas.ts:257-276. */
  function ActivationSchema(u: ()): (s: ComponentSchema)
    ensures WellFormedSchema(s)
  {
    [
    Param("activationType", SchemaField(SelectField, "Activation Type", "schema.act.type", Str("relu"), Some([Str("relu"), Str("sigmoid"), Str("tanh"), Str("softmax"), Str("leaky_relu"), Str("gelu"), Str("silu")]), None, None, None, Some("Non-linear function"), None)),
    Param("alpha", SchemaField(NumberField, "Alpha (for Leaky ReLU)", "schema.act.alpha", Num(0.01), None, Some(0.0), Some(1.0), Some(0.01), Some("Negative slope coefficient"), None))
    ]
  }

  /** `SIGMOID_TANH`, componentSchemas.ts:279-287. */
  function SigmoidTanhSchema(u: ()): (s: ComponentSchema)
    ensures WellFormedSchema(s)
  {
    [
    Param("activationType", SchemaField(SelectField, "Function", "schema.act.type", Str("sigmoid"), Some([Str("sigmoid"), Str("tanh")]), None, None, None, None, None))
    ]
  }

  /** `SOFTMAX_RELU`, componentSchemas.ts:289-297. */
  function SoftmaxReluSchema(u: ()): (s: ComponentSchema)
    ensures WellFormedSchema(s)
  {
    [
    Param("activationType", SchemaField(SelectField, "Function", "schema.act.type", Str("softmax"), Some([Str("softmax"), Str("relu"), Str("leaky_relu")]), None, None, None, None, None))
    ]
  }

  /** `GELU`, componentSchemas.ts:299-308. */
  function GeluSchema(u: ()): (s: ComponentSchema)
    ensures WellFormedSchema(s)
  {
    [
    Param("activationType", SchemaField(SelectField, "GELU Variant", "schema.gelu.variant", Str("gelu"), Some([Str("gelu"), Str("silu")]), None, None, None, Some("GELU or SiLU (Swish)"), None))
    ]
  }

  /** `BATCH_NORM`, componentSchemas.ts:316-351. */
  function BatchNormSchema(u: ()): (s: ComponentSchema)
    ensures WellFormedSchema(s)
  {
    [
    Param("numFeatures", SchemaField(NumberField, "Number of Features", "schema.bn.features", Num(64.0), None, Some(1.0), None, None, Some("Should match previous layer output"), None)),
    Param("momentum", SchemaField(RangeField, "Momentum", "schema.bn.momentum", Num(0.1), None, Some(0.0), Some(1.0), Some(0.01), Some("Running mean/var update rate"), None)),
    Param("epsilon", SchemaField(NumberField, "Epsilon (ε)", "schema.bn.epsilon", Num(0.00001), None, Some(0.00000001), Some(0.001), None, Some("Numerical stability constant"), None)),
    Param("affine", SchemaField(BooleanField, "Affine Transform", "schema.bn.affine", Bool(true), None, None, None, None, Some("Learn γ and β parameters"), None))
    ]
  }

  /** `LAYER_NORM`, componentSchemas.ts:357-380. */
  function LayerNormSchema(u: ()): (s: ComponentSchema)
    ensures WellFormedSchema(s)
  {
    [
    Param("normalizedShape", SchemaField(StringField, "Normalized Shape", "schema.ln.shape", Str("[512]"), None, None, None, None, Some("Feature dimensions to normalize (e.g., [512] or [64, 32])"), Some("[512]"))),
    Param("epsilon", SchemaField(NumberField, "Epsilon (ε)", "schema.ln.epsilon", Num(0.00001), None, Some(0.00000001), Some(0.001), None, None, None)),
    Param("elementwiseAffine", SchemaField(BooleanField, "Elementwise Affine", "schema.ln.affine", Bool(true), None, None, None, None, None, None))
    ]
  }

  /** `DROPOUT`, componentSchemas.ts:386-412. */
  function DropoutSchema(u: ()): (s: ComponentSchema)
    ensures WellFormedSchema(s)
  {
    [
    Param("dropoutRate", SchemaField(RangeField, "Dropout Rate (p)", "schema.dropout.rate", Num(0.5), None, Some(0.0), Some(0.95), Some(0.05), Some("Probability of dropping each element"), None)),
    Param("visualizeDropped", SchemaField(BooleanField, "Visualize Dropped Neurons", "schema.dropout.visualize", Bool(true), None, None, None, None, Some("Show dashed circles for dropped neurons"), None)),
    Param("seed", SchemaField(StringField, "Random Seed", "schema.dropout.seed", Str(""), None, None, None, None, Some("Optional seed for deterministic pattern (uses node ID if empty)"), Some("Leave empty for node ID")))
    ]
  }

  /** `DATA`, componentSchemas.ts:420-453. */
  function DataSchema(u: ()): (s: ComponentSchema)
    ensures WellFormedSchema(s)
  {
    [
    Param("ioType", SchemaField(SelectField, "I/O Type", "schema.data.io", Str("input"), Some([Str("input"), Str("output")]), None, None, None, Some("Input (green) or Output (red)"), None)),
    Param("dataSource", SchemaField(SelectField, "Data Source", "schema.data.source", Str("CSV"), Some([Str("CSV"), Str("Image"), Str("Audio"), Str("Text"), Str("Video"), Str("Custom")]), None, None, None, Some("Type of data"), None)),
    Param("shape", SchemaField(StringField, "Tensor Shape", "schema.data.shape", Str("(N, 784)"), None, None, None, None, Some("Dimensions (e.g., (N, 784) or (B, 3, 224, 224))"), Some("(N, 784)"))),
    Param("direction", SchemaField(SelectField, "Flow Direction", "schema.data.direction", Str("right"), Some([Str("left"), Str("right")]), None, None, None, Some("Arrow direction in parallelogram"), None))
    ]
  }

  /** `INPUT_DATA`, componentSchemas.ts:455-470. */
  function InputDataSchema(u: ()): (s: ComponentSchema)
    ensures WellFormedSchema(s)
  {
    [
    Param("dataSource", SchemaField(SelectField, "Data Source", "schema.data.source", Str("Image"), Some([Str("CSV"), Str("Image"), Str("Audio"), Str("Text"), Str("Video"), Str("Custom")]), None, None, None, None, None)),
    Param("shape", SchemaField(StringField, "Input Shape", "schema.data.shape", Str("(B, 3, 224, 224)"), None, None, None, None, None, Some("(B, 3, 224, 224)")))
    ]
  }

  /** `OUTPUT_DATA`, componentSchemas.ts:472-487. */
  function OutputDataSchema(u: ()): (s: ComponentSchema)
    ensures WellFormedSchema(s)
  {
    [
    Param("shape", SchemaField(StringField, "Output Shape", "schema.data.shape", Str("(B, 1000)"), None, None, None, None, None, Some("(B, 1000)"))),
    Param("outputType", SchemaField(SelectField, "Output Type", "schema.data.outputType", Str("Logits"), Some([Str("Logits"), Str("Probabilities"), Str("Classes"), Str("Features")]), None, None, None, None, None))
    ]
  }

  /** `TENSOR`, componentSchemas.ts:493-519. */
  function TensorSchema(u: ()): (s: ComponentSchema)
    ensures WellFormedSchema(s)
  {
    [
    Param("shape", SchemaField(StringField, "Tensor Shape", "schema.tensor.shape", Str("[B, C, H, W]"), None, None, None, None, Some("Symbolic shape (e.g., [B, C, H, W] or [N, D])"), Some("[B, C, H, W]"))),
    Param("dtype", SchemaField(SelectField, "Data Type", "schema.tensor.dtype", Str("float32"), Some([Str("float16"), Str("float32"), Str("float64"), Str("int32"), Str("int64"), Str("bool")]), None, None, None, None, None)),
    Param("depth", SchemaField(RangeField, "Visual Depth (Layers)", "schema.tensor.depth", Num(5.0), None, Some(3.0), Some(8.0), Some(1.0), Some("Number of stacked layers in visualization"), None))
    ]
  }

  /** `LOSS`, componentSchemas.ts:527-563. */
  function LossSchema(u: ()): (s: ComponentSchema)
    ensures WellFormedSchema(s)
  {
    [
    Param("lossType", SchemaField(SelectField, "Loss Function", "schema.loss.type", Str("CrossEntropy"), Some([Str("CrossEntropy"), Str("MSE"), Str("BCE"), Str("MAE"), Str("Huber"), Str("KLDiv"), Str("CTC"), Str("Custom")]), None, None, None, Some("Training objective"), None)),
    Param("reduction", SchemaField(SelectField, "Reduction", "schema.loss.reduction", Str("mean"), Some([Str("none"), Str("mean"), Str("sum")]), None, None, None, Some("How to aggregate batch losses"), None)),
    Param("labelSmoothing", SchemaField(RangeField, "Label Smoothing", "schema.loss.smoothing", Num(0.0), None, Some(0.0), Some(0.3), Some(0.01), Some("Regularization via soft labels"), None))
    ]
  }

  /** `OPTIMIZER`, componentSchemas.ts:569-626. */
  function OptimizerSchema(u: ()): (s: ComponentSchema)
    ensures WellFormedSchema(s)
  {
    [
    Param("algorithm", SchemaField(SelectField, "Algorithm", "schema.opt.algo", Str("Adam"), Some([Str("Adam"), Str("AdamW"), Str("SGD"), Str("RMSProp"), Str("Adagrad"), Str("Adadelta")]), None, None, None, Some("Optimization algorithm"), None)),
    Param("learningRate", SchemaField(NumberField, "Learning Rate (η)", "schema.opt.lr", Num(0.001), None, Some(0.000001), Some(1.0), None, Some("Step size for gradient descent"), None)),
    Param("momentum", SchemaField(RangeField, "Momentum (β)", "schema.opt.momentum", Num(0.9), None, Some(0.0), Some(0.99), Some(0.01), Some("For SGD with momentum"), None)),
    Param("weightDecay", SchemaField(NumberField, "Weight Decay (L2)", "schema.opt.decay", Num(0.0001), None, Some(0.0), Some(0.1), None, Some("L2 regularization strength"), None)),
    Param("beta1", SchemaField(RangeField, "Beta1 (Adam)", "schema.opt.beta1", Num(0.9), None, Some(0.0), Some(0.999), Some(0.001), Some("First moment decay"), None)),
    Param("beta2", SchemaField(RangeField, "Beta2 (Adam)", "schema.opt.beta2", Num(0.999), None, Some(0.0), Some(0.9999), Some(0.0001), Some("Second moment decay"), None))
    ]
  }

  /** `ATTENTION`, componentSchemas.ts:634-661. */
  function AttentionSchema(u: ()): (s: ComponentSchema)
    ensures WellFormedSchema(s)
  {
    [
    Param("numHeads", SchemaField(NumberField, "Number of Heads", "schema.attn.heads", Num(8.0), None, Some(1.0), Some(32.0), None, Some("Multi-head attention heads"), None)),
    Param("embedDim", SchemaField(NumberField, "Embedding Dimension", "schema.attn.embed", Num(512.0), None, Some(1.0), None, None, Some("Model dimension (d_model)"), None)),
    Param("dropout", SchemaField(RangeField, "Attention Dropout", "schema.attn.dropout", Num(0.1), None, Some(0.0), Some(0.5), Some(0.05), None, None))
    ]
  }

  /** `EMBEDDING`, componentSchemas.ts:667-700. */
  function EmbeddingSchema(u: ()): (s: ComponentSchema)
    ensures WellFormedSchema(s)
  {
    [
    Param("vocabSize", SchemaField(NumberField, "Vocabulary Size", "schema.embedding.vocab", Num(10000.0), None, Some(1.0), None, None, Some("Number of unique tokens in vocabulary"), None)),
    Param("embeddingDim", SchemaField(NumberField, "Embedding Dimension", "schema.embedding.dim", Num(128.0), None, Some(1.0), None, None, Some("Dimension of dense embedding vectors"), None)),
    Param("paddingIdx", SchemaField(NumberField, "Padding Index", "schema.embedding.padding", Num(0.0), None, Some(-1.0), None, None, Some("Index for padding token (-1 for none)"), None)),
    Param("maxNorm", SchemaField(NumberField, "Max Norm", "schema.embedding.maxNorm", Num(0.0), None, Some(0.0), None, None, Some("Max L2 norm for embeddings (0 = disabled)"), None))
    ]
  }

  /** `RNN_LSTM`, componentSchemas.ts:706-745. */
  function RnnLstmSchema(u: ()): (s: ComponentSchema)
    ensures WellFormedSchema(s)
  {
    [
    Param("cellType", SchemaField(SelectField, "Cell Type", "schema.rnn.cell", Str("LSTM"), Some([Str("RNN"), Str("LSTM"), Str("GRU")]), None, None, None, None, None)),
    Param("hiddenSize", SchemaField(NumberField, "Hidden Size", "schema.rnn.hidden", Num(256.0), None, Some(1.0), None, None, Some("Number of hidden units"), None)),
    Param("numLayers", SchemaField(NumberField, "Number of Layers", "schema.rnn.layers", Num(2.0), None, Some(1.0), Some(8.0), None, None, None)),
    Param("bidirectional", SchemaField(BooleanField, "Bidirectional", "schema.rnn.bidir", Bool(false), None, None, None, None, None, None)),
    Param("dropout", SchemaField(RangeField, "Dropout", "schema.rnn.dropout", Num(0.2), None, Some(0.0), Some(0.5), Some(0.05), None, None))
    ]
  }

  /** `NEURON`, componentSchemas.ts:753-771. */
  function NeuronSchema(u: ()): (s: ComponentSchema)
    ensures WellFormedSchema(s)
  {
    [
    Param("activationState", SchemaField(RangeField, "Activation State", "schema.neuron.activation", Num(0.5), None, Some(0.0), Some(1.0), Some(0.01), Some("Activation level (0-1)"), None)),
    Param("showPulse", SchemaField(BooleanField, "Show Pulse Animation", "schema.neuron.pulse", Bool(false), None, None, None, None, Some("Animated pulse for active neurons"), None))
    ]
  }

  /** `GROUP`, componentSchemas.ts:779-799. */
  function GroupSchema(u: ()): (s: ComponentSchema)
    ensures WellFormedSchema(s)
  {
    [
    Param("collapsible", SchemaField(BooleanField, "Collapsible", "schema.group.collapsible", Bool(true), None, None, None, None, None, None)),
    Param("collapsed", SchemaField(BooleanField, "Initially Collapsed", "schema.group.collapsed", Bool(false), None, None, None, None, None, None)),
    Param("subtitle", SchemaField(StringField, "Subtitle", "schema.group.subtitle", Str(""), None, None, None, None, None, Some("e.g., \"ResNet Block\"")))
    ]
  }

  /** `DEFAULT`, componentSchemas.ts:804-813. */
  function DefaultSchema(u: ()): (s: ComponentSchema)
    ensures WellFormedSchema(s)
  {
    [
    Param("notes", SchemaField(StringField, "Notes", "schema.default.notes", Str(""), None, None, None, None, Some("Internal comments or documentation"), Some("Add notes here...")))
    ]
  }

  /** The keys of the registry, one constructor per entry in declaration order. */
  datatype ComponentKey = FcLayer | MlpLayers | ConvLayer | Pooling | Flatten | Activation | SigmoidTanh | SoftmaxRelu | Gelu | BatchNorm | LayerNorm | Dropout | Data | InputData | OutputData | Tensor | Loss | Optimizer | Attention | Embedding | RnnLstm | Neuron | Group | Default

  function KeyName(k: ComponentKey): string
  {
    match k
    case FcLayer => "FC_LAYER"
    case MlpLayers => "MLP_LAYERS"
    case ConvLayer => "CONV_LAYER"
    case Pooling => "POOLING"
    case Flatten => "FLATTEN"
    case Activation => "ACTIVATION"
    case SigmoidTanh => "SIGMOID_TANH"
    case SoftmaxRelu => "SOFTMAX_RELU"
    case Gelu => "GELU"
    case BatchNorm => "BATCH_NORM"
    case LayerNorm => "LAYER_NORM"
    case Dropout => "DROPOUT"
    case Data => "DATA"
    case InputData => "INPUT_DATA"
    case OutputData => "OUTPUT_DATA"
    case Tensor => "TENSOR"
    case Loss => "LOSS"
    case Optimizer => "OPTIMIZER"
    case Attention => "ATTENTION"
    case Embedding => "EMBEDDING"
    case RnnLstm => "RNN_LSTM"
    case Neuron => "NEURON"
    case Group => "GROUP"
    case Default => "DEFAULT"
  }

  /** The schema registered under a key. */
  function SchemaOf(k: ComponentKey): (s: ComponentSchema)
    ensures WellFormedSchema(s)
  {
    match k
    case FcLayer => FcLayerSchema(())
    case MlpLayers => MlpLayersSchema(())
    case ConvLayer => ConvLayerSchema(())
    case Pooling => PoolingSchema(())
    case Flatten => FlattenSchema(())
    case Activation => ActivationSchema(())
    case SigmoidTanh => SigmoidTanhSchema(())
    case SoftmaxRelu => SoftmaxReluSchema(())
    case Gelu => GeluSchema(())
    case BatchNorm => BatchNormSchema(())
    case LayerNorm => LayerNormSchema(())
    case Dropout => DropoutSchema(())
    case Data => DataSchema(())
    case InputData => InputDataSchema(())
    case OutputData => OutputDataSchema(())
    case Tensor => TensorSchema(())
    case Loss => LossSchema(())
    case Optimizer => OptimizerSchema(())
    case Attention => AttentionSchema(())
    case Embedding => EmbeddingSchema(())
    case RnnLstm => RnnLstmSchema(())
    case Neuron => NeuronSchema(())
    case Group => GroupSchema(())
    case Default => DefaultSchema(())
  }

  /** The key a string names, if any: the registry object's own keys (dispatched on the first letter). */
  function KeyOf(t: string): (r: Option<ComponentKey>)
    ensures r.Some? ==> KeyName(r.value) == t
  {
    if |t| == 0 then None
    else match t[0]
    case 'F' => if t == KeyName(FcLayer) then Some(FcLayer) else if t == KeyName(Flatten) then Some(Flatten) else None
    case 'M' => if t == KeyName(MlpLayers) then Some(MlpLayers) else None
    case 'C' => if t == KeyName(ConvLayer) then Some(ConvLayer) else None
    case 'P' => if t == KeyName(Pooling) then Some(Pooling) else None
    case 'A' => if t == KeyName(Activation) then Some(Activation) else if t == KeyName(Attention) then Some(Attention) else None
    case 'S' => if t == KeyName(SigmoidTanh) then Some(SigmoidTanh) else if t == KeyName(SoftmaxRelu) then Some(SoftmaxRelu) else None
    case 'G' => if t == KeyName(Gelu) then Some(Gelu) else if t == KeyName(Group) then Some(Group) else None
    case 'B' => if t == KeyName(BatchNorm) then Some(BatchNorm) else None
    case 'L' => if t == KeyName(LayerNorm) then Some(LayerNorm) else if t == KeyName(Loss) then Some(Loss) else None
    case 'D' => if t == KeyName(Dropout) then Some(Dropout) else if t == KeyName(Data) then Some(Data) else if t == KeyName(Default) then Some(Default) else None
    case 'I' => if t == KeyName(InputData) then Some(InputData) else None
    case 'O' => if t == KeyName(OutputData) then Some(OutputData) else if t == KeyName(Optimizer) then Some(Optimizer) else None
    case 'T' => if t == KeyName(Tensor) then Some(Tensor) else None
    case 'E' => if t == KeyName(Embedding) then Some(Embedding) else None
    case 'R' => if t == KeyName(RnnLstm) then Some(RnnLstm) else None
    case 'N' => if t == KeyName(Neuron) then Some(Neuron) else None
    case _ => None
  }

  lemma KeyOfName(k: ComponentKey)
    ensures KeyOf(KeyName(k)) == Some(k)
  {
    if EarlyKey(k) {
      EarlyKeyOfName(k);
    } else {
      LateKeyOfName(k);
    }
  }

  /** The first twelve keys of the registry. */
  predicate EarlyKey(k: ComponentKey)
  {
    || k.FcLayer? || k.MlpLayers? || k.ConvLayer? || k.Pooling? || k.Flatten? || k.Activation?
    || k.SigmoidTanh? || k.SoftmaxRelu? || k.Gelu? || k.BatchNorm? || k.LayerNorm? || k.Dropout?
  }

  lemma EarlyKeyOfName(k: ComponentKey)
    requires EarlyKey(k)
    ensures KeyOf(KeyName(k)) == Some(k)
  {
  }

  lemma LateKeyOfName(k: ComponentKey)
    requires !EarlyKey(k)
    ensures KeyOf(KeyName(k)) == Some(k)
  {
  }

  /** `key in MLComponentSchemas`: a key the registry object holds. */
  predicate Registered(t: string)
  {
    KeyOf(t).Some?
  }

  /** The registry's keys are exactly the names of the registry's entries. */
  lemma RegisteredKeys(t: string)
    ensures Registered(t) <==> exists k :: KeyName(k) == t
    ensures forall k :: KeyName(k) == t ==> KeyOf(t) == Some(k)
  {
    forall k | KeyName(k) == t ensures KeyOf(t) == Some(k) { KeyOfName(k); }
  }

  /** `MLComponentSchemas[key]` for a registered key. */
  function SchemaAt(t: string): (s: ComponentSchema)
    requires Registered(t)
    ensures WellFormedSchema(s)
  {
    SchemaOf(KeyOf(t).value)
  }

  // ---------------------------------------------------------------------
  // Lookups
  // ---------------------------------------------------------------------

  function Names(s: ComponentSchema): set<string>
  {
    if s == [] then {} else Names(s[..|s| - 1]) + {s[|s| - 1].name}
  }

  predicate DistinctNames(s: ComponentSchema)
  {
    forall i, j :: 0 <= i < j < |s| ==> s[i].name != s[j].name
  }

  /** `schema[name]`: the field declared under a name (in an object literal the last declaration wins). */
  function FindField(s: ComponentSchema, name: string): (r: Option<SchemaField>)
    ensures r.Some? <==> name in Names(s)
    ensures r.Some? ==> exists i :: 0 <= i < |s| && s[i] == Param(name, r.value)
  {
    if s == [] then None
    else if s[|s| - 1].name == name then Some(s[|s| - 1].field)
    else
      FindField(s[..|s| - 1], name)
  }

  /** `getSchemaField(type, name)`: `MLComponentSchemas[type]?.[name]`. */
  function GetSchemaField(t: string, name: string): (r: Option<SchemaField>)
    ensures r.Some? <==> Registered(t) && name in Names(SchemaAt(t))
    ensures r.Some? ==> exists i :: 0 <= i < |SchemaAt(t)| && SchemaAt(t)[i] == Param(name, r.value)
  {
    if Registered(t) then FindField(SchemaAt(t), name) else None
  }

  // ---------------------------------------------------------------------
  // getDefaultMLParams
  // ---------------------------------------------------------------------

  /** The record built by assigning every field's default, in declaration order. */
  function Defaults(s: ComponentSchema): (m: map<string, Value>)
    ensures m.Keys == Names(s)
    ensures forall k :: k in m ==> FindField(s, k).Some? && m[k] == FindField(s, k).value.defaultValue
  {
    if s == [] then map[]
    else Defaults(s[..|s| - 1])[s[|s| - 1].name := s[|s| - 1].field.defaultValue]
  }

  /** A name inherited from `Object.prototype` is no key of the registry. */
  lemma InheritedUnregistered(t: string)
    requires InheritedName(t)
    ensures !Registered(t)
  {
    InheritedNameStart(t);
  }

  /**
   * `getDefaultMLParams(type)`: `MLComponentSchemas[type] || DEFAULT`. A name
   * the registry inherits from `Object.prototype` reads a member with no own
   * enumerable entries, so the record is empty; every other unknown key falls
   * back to the `DEFAULT` schema.
   */
  function GetDefaultMLParams(t: string): (m: map<string, Value>)
    ensures Registered(t) ==> m.Keys == Names(SchemaAt(t))
    ensures Registered(t) ==> forall k :: k in m ==> m[k] == GetSchemaField(t, k).value.defaultValue
    ensures InheritedName(t) ==> m == map[]
    ensures !Registered(t) && !InheritedName(t) ==> m == map["notes" := Str("")]
  {
    if InheritedName(t) then InheritedUnregistered(t); map[]
    else if Registered(t) then Defaults(SchemaAt(t))
    else Defaults(DefaultSchema(()))
  }

  // ---------------------------------------------------------------------
  // validateParameter
  // ---------------------------------------------------------------------

  predicate BelowMin(f: SchemaField, x: real) { f.min.Some? && x < f.min.value }
  predicate AboveMax(f: SchemaField, x: real) { f.max.Some? && x > f.max.value }

  /** The coercion a field applies to a value (the `switch` of `validateParameter`). */
  function Coerce(f: SchemaField, v: Value): (r: Value)
    ensures (f.fieldType == NumberField || f.fieldType == RangeField) ==>
      match ToNumber(v)
      case None => r == f.defaultValue
      case Some(x) =>
        (BelowMin(f, x) ==> r == Num(f.min.value))
        && (!BelowMin(f, x) && AboveMax(f, x) ==> r == Num(f.max.value))
        && (!BelowMin(f, x) && !AboveMax(f, x) ==> r == Num(x))
    ensures f.fieldType == SelectField ==>
      r == (if f.options.Some? && v in f.options.value then v else f.defaultValue)
    ensures f.fieldType == BooleanField ==> r == Bool(Truthy(v))
    ensures f.fieldType == StringField ==> r == Str(ToStr(v))
  {
    match f.fieldType
    case NumberField | RangeField =>
      var num := ToNumber(v);
      if num.None? then f.defaultValue
      else if BelowMin(f, num.value) then Num(f.min.value)
      else if AboveMax(f, num.value) then Num(f.max.value)
      else Num(num.value)
    case SelectField =>
      if f.options.Some? && v in f.options.value then v else f.defaultValue
    case BooleanField => Bool(Truthy(v))
    case StringField => Str(ToStr(v))
  }

  /** `validateParameter(type, name, value)`: unknown keys and unknown parameters pass the value through. */
  function ValidateParameter(t: string, name: string, v: Value): (r: Value)
    ensures GetSchemaField(t, name).None? ==> r == v
    ensures GetSchemaField(t, name).Some? ==> r == Coerce(GetSchemaField(t, name).value, v)
  {
    var f := GetSchemaField(t, name);
    if f.None? then v else Coerce(f.value, v)
  }

  /**
   * A type name inherited from `Object.prototype` reads a member of the
   * registry object that is no schema; whatever it yields under the parameter
   * name has no `type`, so the value passes through.
   */
  lemma ValidateInheritedTypePassesThrough(t: string, name: string, v: Value)
    requires InheritedName(t)
    ensures ValidateParameter(t, name, v) == v
  {
    InheritedUnregistered(t);
  }

  // ---------------------------------------------------------------------
  // Registry invariants
  // ---------------------------------------------------------------------

  /** A field whose own default passes its own validation. */
  predicate WellFormedField(f: SchemaField)
  {
    match f.fieldType
    case NumberField | RangeField =>
      && f.min.Some? && f.defaultValue.Num?
      && (f.max.Some? ==> f.min.value <= f.max.value)
      && !BelowMin(f, f.defaultValue.n) && !AboveMax(f, f.defaultValue.n)
    case SelectField =>
      f.options.Some? && |f.options.value| > 0 && f.defaultValue in f.options.value
    case BooleanField => f.defaultValue.Bool?
    case StringField => f.defaultValue.Str?
  }

  predicate WellFormedSchema(s: ComponentSchema)
  {
    forall i :: 0 <= i < |s| ==> WellFormedField(s[i].field)
  }

  lemma {:induction false} NamesMember(s: ComponentSchema, n: string)
    ensures n in Names(s) <==> exists i :: 0 <= i < |s| && s[i].name == n
  {
    if s != [] {
      var init := s[..|s| - 1];
      NamesMember(init, n);
      if n in Names(init) {
        var i :| 0 <= i < |init| && init[i].name == n;
        assert s[i].name == n;
      }
      if i :| 0 <= i < |s| - 1 && s[i].name == n {
        assert init[i].name == n;
      }
    }
  }

  /** Distinct names make the name set (`Object.keys`) as large as the schema. */
  lemma {:induction false} NamesCount(s: ComponentSchema)
    requires DistinctNames(s)
    ensures |Names(s)| == |s|
  {
    if s != [] {
      var init := s[..|s| - 1];
      assert DistinctNames(init);
      NamesCount(init);
      NamesMember(init, s[|s| - 1].name);
    }
  }

  lemma ConvLayerNamesDistinct()
    ensures DistinctNames(SchemaOf(ConvLayer))
  {
  }

  /** `Object.keys(MLComponentSchemas.CONV_LAYER).length` is 7. */
  lemma ConvLayerHasSevenFields()
    ensures |Names(SchemaOf(ConvLayer))| == 7
  {
    ConvLayerNamesDistinct();
    NamesCount(SchemaOf(ConvLayer));
  }

  /** Validation leaves a well-formed field's coerced values alone. */
  lemma {:induction false} CoerceIdempotent(f: SchemaField, v: Value)
    requires WellFormedField(f)
    ensures Coerce(f, Coerce(f, v)) == Coerce(f, v)
  {
    var r := Coerce(f, v);
    match f.fieldType
    case NumberField =>
      assert r.Num?;
    case RangeField =>
      assert r.Num?;
    case SelectField =>
    case BooleanField =>
    case StringField =>
  }

  lemma CoerceDefault(f: SchemaField)
    requires WellFormedField(f)
    ensures Coerce(f, f.defaultValue) == f.defaultValue
  {
  }

  /** Validating a parameter's default returns the default. */
  lemma ValidateDefault(t: string, name: string)
    requires Registered(t) && name in Names(SchemaAt(t))
    ensures ValidateParameter(t, name, GetSchemaField(t, name).value.defaultValue) == GetSchemaField(t, name).value.defaultValue
  {
    var f := GetSchemaField(t, name).value;
    var i :| 0 <= i < |SchemaAt(t)| && SchemaAt(t)[i] == Param(name, f);
    assert WellFormedField(SchemaAt(t)[i].field);
    CoerceDefault(f);
  }

  /** `validateParameter` is idempotent for every key, parameter and value. */
  lemma ValidateIdempotent(t: string, name: string, v: Value)
    ensures ValidateParameter(t, name, ValidateParameter(t, name, v)) == ValidateParameter(t, name, v)
  {
    var f := GetSchemaField(t, name);
    if f.Some? {
      var i :| 0 <= i < |SchemaAt(t)| && SchemaAt(t)[i] == Param(name, f.value);
      assert WellFormedField(SchemaAt(t)[i].field);
      CoerceIdempotent(f.value, v);
    }
  }
}
