/**
 * The properties panel's field registry: four hand-written node schemas,
 * and a conversion of the centralised parameter schemas into panel field
 * specs for the remaining React Flow node types.
 */
module NodeSchemas {
  import opened Js
  import opened ComponentSchemas

  datatype SpecType = SpecString | SpecNumber | SpecSelect | SpecBoolean | SpecColor | SpecRange

  datatype FieldOption = FieldOption(text: string, value: string)

  /** One field the panel renders; `None` stands for a property left unset. */
  datatype FieldSpec = FieldSpec(
    key: string,
    caption: string,
    specType: SpecType,
    min: Option<real>,
    max: Option<real>,
    step: Option<real>,
    options: Option<seq<FieldOption>>,
    hint: Option<string>,
    placeholder: Option<string>)

  datatype NodeSchema = NodeSchema(nodeType: string, fields: seq<FieldSpec>)

  function Plain(key: string, caption: string, t: SpecType): FieldSpec
  {
    FieldSpec(key, caption, t, None, None, None, None, None, None)
  }

  function Bounded(key: string, caption: string, lo: real, hi: real): FieldSpec
  {
    FieldSpec(key, caption, SpecNumber, Some(lo), Some(hi), Some(1.0), None, None, None)
  }

  function Choice(key: string, caption: string, opts: seq<FieldOption>): FieldSpec
  {
    FieldSpec(key, caption, SpecSelect, None, None, None, Some(opts), None, None)
  }

  /** The hand-written entries of `NodeSchemas`, each stored under its own type. */
  function LegacySchema(nodeType: string): (r: Option<NodeSchema>)
    ensures r.Some? ==> r.value.nodeType == nodeType && |r.value.fields| > 0
  {
    if nodeType == "activationNode" then
      Some(NodeSchema("activationNode", [
        Choice("activationType", "Activation Type", [
          FieldOption("ReLU", "relu"), FieldOption("Sigmoid", "sigmoid"), FieldOption("Tanh", "tanh"),
          FieldOption("GELU", "gelu"), FieldOption("SiLU/Swish", "silu"), FieldOption("Leaky ReLU", "leaky_relu"),
          FieldOption("Softmax", "softmax")]),
        Choice("shape", "Shape", [FieldOption("Diamond", "diamond"), FieldOption("Circle", "circle")])]))
    else if nodeType == "convNode" then
      Some(NodeSchema("convNode", [
        Bounded("kernel", "Kernel", 1.0, 15.0),
        Bounded("stride", "Stride", 1.0, 8.0),
        Bounded("padding", "Padding", 0.0, 8.0),
        Bounded("dilation", "Dilation", 1.0, 8.0),
        Bounded("channels", "Channels", 1.0, 4096.0)]))
    else if nodeType == "fcNode" then
      Some(NodeSchema("fcNode", [
        Bounded("units", "Units", 1.0, 4096.0),
        Plain("bias", "Bias", SpecBoolean)]))
    else if nodeType == "tensorNode" then
      Some(NodeSchema("tensorNode", [Plain("dims", "Dims (e.g., H×W×C)", SpecString)]))
    else None
  }

  /** The `schemaKeyMap` of `getNodeSchema`: React Flow type to registry key. */
  function PanelSchemaKey(nodeType: string): Option<ComponentKey>
  {
    if nodeType == "fcNode" then Some(FcLayer)
    else if nodeType == "mlpNode" then Some(MlpLayers)
    else if nodeType == "convNode" then Some(ConvLayer)
    else if nodeType == "poolingNode" then Some(Pooling)
    else if nodeType == "flattenNode" then Some(Flatten)
    else if nodeType == "activationNode" then Some(Activation)
    else if nodeType == "dropoutNode" then Some(Dropout)
    else if nodeType == "dataNode" then Some(Data)
    else if nodeType == "tensorNode" then Some(Tensor)
    else if nodeType == "neuronNode" then Some(Neuron)
    else if nodeType == "normalizationNode" then Some(BatchNorm)
    else if nodeType == "embeddingNode" then Some(Embedding)
    else if nodeType == "boxNode" then Some(Default)
    else if nodeType == "circleNode" then Some(Default)
    else if nodeType == "groupNode" then Some(Group)
    else None
  }

  /** The `schemaKeyMap` of `validateField`, written out separately in the source. */
  function ValidationSchemaKey(nodeType: string): Option<ComponentKey>
  {
    if nodeType == "fcNode" then Some(FcLayer)
    else if nodeType == "mlpNode" then Some(MlpLayers)
    else if nodeType == "convNode" then Some(ConvLayer)
    else if nodeType == "poolingNode" then Some(Pooling)
    else if nodeType == "flattenNode" then Some(Flatten)
    else if nodeType == "activationNode" then Some(Activation)
    else if nodeType == "dropoutNode" then Some(Dropout)
    else if nodeType == "dataNode" then Some(Data)
    else if nodeType == "tensorNode" then Some(Tensor)
    else if nodeType == "neuronNode" then Some(Neuron)
    else if nodeType == "normalizationNode" then Some(BatchNorm)
    else if nodeType == "boxNode" then Some(Default)
    else if nodeType == "circleNode" then Some(Default)
    else if nodeType == "groupNode" then Some(Group)
    else None
  }

  /** The two key maps agree everywhere except on `embeddingNode`, which only the panel maps. */
  lemma KeyMapsDiffer(nodeType: string)
    ensures nodeType != "embeddingNode" ==> ValidationSchemaKey(nodeType) == PanelSchemaKey(nodeType)
    ensures ValidationSchemaKey("embeddingNode").None? && PanelSchemaKey("embeddingNode") == Some(Embedding)
    ensures LegacySchema("embeddingNode").None?
  {
  }

  function SpecTypeOf(t: FieldType): SpecType
  {
    match t
    case NumberField => SpecNumber
    case StringField => SpecString
    case SelectField => SpecSelect
    case BooleanField => SpecBoolean
    case RangeField => SpecRange
  }

  /** `opts.map(o => ({label: String(o), value: String(o)}))`. */
  function StringifyOptions(opts: seq<Value>): (r: seq<FieldOption>)
    ensures |r| == |opts|
    ensures forall i :: 0 <= i < |r| ==> r[i] == FieldOption(ToStr(opts[i]), ToStr(opts[i]))
  {
    if opts == [] then [] else [FieldOption(ToStr(opts[0]), ToStr(opts[0]))] + StringifyOptions(opts[1..])
  }

  /** `convertSchemaFieldToFieldSpec(name, field)`. */
  function ConvertField(name: string, f: SchemaField): (r: FieldSpec)
    ensures r.key == name && r.caption == f.fieldLabel && r.specType == SpecTypeOf(f.fieldType)
    ensures r.min == f.min && r.max == f.max && r.step == f.step
    ensures r.hint == f.hint && r.placeholder == f.placeholder
    ensures r.options.Some? <==> f.options.Some?
    ensures f.options.Some? ==> r.options.value == StringifyOptions(f.options.value)
  {
    FieldSpec(name, f.fieldLabel, SpecTypeOf(f.fieldType), f.min, f.max, f.step,
      if f.options.Some? then Some(StringifyOptions(f.options.value)) else None,
      f.hint, f.placeholder)
  }

  function ConvertAll(s: ComponentSchema): (r: seq<FieldSpec>)
    ensures |r| == |s|
    ensures forall i :: 0 <= i < |s| ==> r[i] == ConvertField(s[i].name, s[i].field)
  {
    if s == [] then [] else [ConvertField(s[0].name, s[0].field)] + ConvertAll(s[1..])
  }

  /** `getNodeSchema(nodeType)`: hand-written entries first, then the registry through the key map. */
  function GetNodeSchema(nodeType: Option<string>): (r: Option<NodeSchema>)
    ensures (nodeType.None? || nodeType == Some("")) ==> r.None?
    ensures nodeType.Some? && nodeType.value != "" && LegacySchema(nodeType.value).Some? ==>
      r == LegacySchema(nodeType.value)
    ensures nodeType.Some? && LegacySchema(nodeType.value).None? && PanelSchemaKey(nodeType.value).None? ==> r.None?
    ensures r.Some? ==> r.value.nodeType == nodeType.value
    ensures nodeType.Some? && LegacySchema(nodeType.value).None? && PanelSchemaKey(nodeType.value).Some? ==>
      var s := SchemaOf(PanelSchemaKey(nodeType.value).value);
      && r.Some? && |r.value.fields| == |s|
      && forall i :: 0 <= i < |s| ==> r.value.fields[i] == ConvertField(s[i].name, s[i].field)
  {
    if nodeType.None? || nodeType.value == "" then None
    else if LegacySchema(nodeType.value).Some? then LegacySchema(nodeType.value)
    else match PanelSchemaKey(nodeType.value)
      case None => None
      case Some(k) => Some(NodeSchema(nodeType.value, ConvertAll(SchemaOf(k))))
  }

  /** `validateField(nodeType, name, value)` as written, with its own key map. */
  function ValidateFieldAsWritten(nodeType: string, name: string, v: Value): (r: Value)
    ensures ValidationSchemaKey(nodeType).None? ==> r == v
    ensures ValidationSchemaKey(nodeType).Some? ==> r == ValidateParameter(KeyName(ValidationSchemaKey(nodeType).value), name, v)
  {
    match ValidationSchemaKey(nodeType)
    case None => v
    case Some(k) => ValidateParameter(KeyName(k), name, v)
  }

  /** Values of an embedding node pass through unvalidated. */
  lemma EmbeddingUnvalidated(name: string, v: Value)
    ensures ValidateFieldAsWritten("embeddingNode", name, v) == v
  {
    KeyMapsDiffer("embeddingNode");
  }

  /** `validateField` resolved through the panel's key map, so every field the panel shows is validated. */
  function ValidateField(nodeType: string, name: string, v: Value): (r: Value)
    ensures PanelSchemaKey(nodeType).None? ==> r == v
    ensures PanelSchemaKey(nodeType).Some? ==> r == ValidateParameter(KeyName(PanelSchemaKey(nodeType).value), name, v)
  {
    match PanelSchemaKey(nodeType)
    case None => v
    case Some(k) => ValidateParameter(KeyName(k), name, v)
  }

  /**
   * For a node type whose panel comes from the registry, validating a field
   * the panel shows applies exactly that field's coercion.
   */
  lemma ValidateFieldMatchesPanel(nodeType: string, i: nat, v: Value)
    requires nodeType != "" && LegacySchema(nodeType).None? && PanelSchemaKey(nodeType).Some?
    requires i < |SchemaOf(PanelSchemaKey(nodeType).value)|
    ensures
      var k := PanelSchemaKey(nodeType).value;
      var shown := GetNodeSchema(Some(nodeType)).value.fields[i];
      var found := GetSchemaField(KeyName(k), shown.key);
      && shown.key == SchemaOf(k)[i].name
      && found.Some?
      && ValidateField(nodeType, shown.key, v) == Coerce(found.value, v)
  {
    var k := PanelSchemaKey(nodeType).value;
    var s := SchemaOf(k);
    KeyOfName(k);
    assert SchemaAt(KeyName(k)) == s;
    NamesMember(s, s[i].name);
  }

  /**
   * As written, a node type the panel maps but `validateField` does not
   * (only `embeddingNode`, by `KeyMapsDiffer`) breaks that property: every
   * field its panel shows passes through unchanged, where the panel's own
   * key map would apply the field's coercion.
   */
  lemma UnmappedFieldsUnvalidated(nodeType: string, i: nat, v: Value)
    requires nodeType != "" && LegacySchema(nodeType).None?
    requires PanelSchemaKey(nodeType).Some? && ValidationSchemaKey(nodeType).None?
    requires i < |SchemaOf(PanelSchemaKey(nodeType).value)|
    ensures
      var shown := GetNodeSchema(Some(nodeType)).value.fields[i];
      var found := GetSchemaField(KeyName(PanelSchemaKey(nodeType).value), shown.key);
      && found.Some?
      && ValidateFieldAsWritten(nodeType, shown.key, v) == v
      && ValidateField(nodeType, shown.key, v) == Coerce(found.value, v)
  {
    ValidateFieldMatchesPanel(nodeType, i, v);
  }

  /** A panel option of a select field with string options is accepted by validation unchanged. */
  lemma StringOptionsAccepted(f: SchemaField, i: nat)
    requires f.fieldType == SelectField && f.options.Some?
    requires forall j :: 0 <= j < |f.options.value| ==> f.options.value[j].Str?
    requires i < |f.options.value|
    ensures Coerce(f, Str(ConvertField("", f).options.value[i].value)) == Str(ConvertField("", f).options.value[i].value)
  {
    assert Str(ConvertField("", f).options.value[i].value) == f.options.value[i];
  }

  /** A panel option of a select field with numeric options is a string, so validation replaces it by the default. */
  lemma NumericOptionsRejected(f: SchemaField, i: nat)
    requires f.fieldType == SelectField && f.options.Some?
    requires forall j :: 0 <= j < |f.options.value| ==> f.options.value[j].Num?
    requires i < |f.options.value|
    ensures Coerce(f, Str(ConvertField("", f).options.value[i].value)) == f.defaultValue
  {
  }
}
