# MLrender editor data layer, modelled in Dafny

MLrender is a browser editor for diagrams of neural-network architectures:
typed nodes (layers, tensors, activations, groups) joined by edges, drawn
with React Flow. This project models the editor's data layer and proves
properties of it:

- the parameter schema registry (`MLComponentSchemas`), its defaults and
  the coercion `validateParameter` applies to an edited value, the panel
  field specs built from it (`nodeSchemas.ts`), and the node size tokens
  with their dimension clamp (`designTokens.ts`) (modules
  `ComponentSchemas`, `NodeSchemas`, `DesignTokens`);
- the diagram store with its mutators, as a class whose fields the
  methods replace (`DiagramState`), over the node and edge records of
  `Graph`;
- absolute positions through parent chains and grouping of the selection
  (`Grouping`), alignment and distribution (`Alignment`);
- the CSV codec: quoting and joining on export (`CsvExport`), the
  character-level scanner, header lookup, diagram building and table
  choice on import (`CsvImport`), the header constants (`SheetsSchema`),
  the export's colour-token and shape table (`SheetsMapping`), and what an
  import reads back of an export (`CsvRoundTrip`);
- colour decoding (`Color`);
- template insertion on the canvas (`TemplateInsert`) and the updaters of
  the properties panel (`PropertiesPanel`);
- the JavaScript coercions the code relies on (`Js`): truthiness, `??`,
  `||`, `Number(...)`, `String(...)`, `trim`, `toLowerCase`, `includes`.

JavaScript numbers are mathematical reals, with NaN a value of its own;
`Number(...)` is a partial parse whose `None` stands for NaN. `Date.now()`
and the rounded `Math.random()` draws that build fresh ids are parameters
(`now`, `rand`). The code keeps no undo/redo history and has no guard
against cycles in parent chains. Its node CSV does not survive a round trip
(see Findings). A missing width or height counts as 0 in alignment and as
140 by 80 in grouping.

## Model

| member | source | states |
|---|---|---|
| Js.TrimStart | src/sheets/import.ts:53 | the result is no longer, and starts with no white space |
| Js.TrimEnd | src/sheets/import.ts:53 | the result is no longer, and ends with no white space |
| Js.TrimStartSuffix | src/sheets/import.ts:53 | leading trimming removes a prefix of the text and keeps the rest |
| Js.TrimEndPrefix | src/sheets/import.ts:53 | trailing trimming removes a suffix of the text and keeps the rest |
| Js.TrimStartRemovesWhite | src/utils/color.ts:4 | what leading trimming removes is white space |
| Js.TrimEndRemovesWhite | src/utils/color.ts:4 | what trailing trimming removes is white space |
| Js.TrimNoWhite | src/utils/color.ts:4 | `trim` leaves a text without white space unchanged |
| Js.IncludesAt | src/sheets/import.ts:98-99 | a text occurring at some position is included |
| Js.IncludesAppend | src/sheets/import.ts:98-99 | a text is included in any text that has it between a prefix and a suffix |
| Js.DigitChar | src/diagram/DiagramState.ts:65 | the decimal digit written for a value below ten |
| Js.NatToString | src/diagram/DiagramState.ts:65 | the decimal text of a natural number: digits only, no leading zero |
| Js.NatToStringValue | src/diagram/DiagramState.ts:65 | the digits read back as the number |
| Js.NatToStringInjective | src/diagram/DiagramState.ts:123 | different numbers have different decimal texts |
| Js.SeparatorAfterDigits | src/diagram/DiagramState.ts:123 | after a run of digits, the first separator is the one right after it |
| Js.DigitsSeparated | src/diagram/DiagramState.ts:123 | digits, a separator and a rest split apart in only one way |
| Js.IntToString | src/sheets/export.ts:39-40 | `String(i)` of an integer begins with `-` exactly when it is negative |
| Js.DigitSpan | src/sheets/import.ts:62-65 | the end of the run of decimal digits at a position |
| Js.DigitSpanAll | src/sheets/import.ts:62-65 | in a text of digits the run is the whole text |
| Js.UnsignedDecimalDigits | src/sheets/import.ts:62-65 | a non-empty text of digits is a decimal literal of its value |
| Js.ParseNumber | src/sheets/import.ts:62-65 | `Number(s)` of a text that trims to nothing is 0 |
| Js.AllDigitsNoWhite | src/sheets/import.ts:62-65 | a text of digits has no white space |
| Js.ParseDigits | src/sheets/import.ts:62-65 | `Number` of a non-empty text of digits is its decimal value |
| Js.ParseNegDigits | src/sheets/import.ts:62-65 | `Number` of a minus sign and digits is the negated decimal value |
| Js.ParseIntToString | src/sheets/import.ts:62-65 | every integer survives `Number(String(i))` |
| Js.FractionDigits | src/sheets/export.ts:39-40 | at most the given number of fractional digits, digits only |
| Js.NumToString | src/sheets/export.ts:39-40 | `String(n)` of an integral number below 1e21 in magnitude is its integer text |
| Js.ToNumber | src/data/componentSchemas.ts:855 | `Number(v)`: a number is itself, NaN and `undefined` give NaN, `null` gives 0, booleans give 1 and 0, texts are parsed |
| Js.FromNumber | src/data/componentSchemas.ts:855-859 | a stored number reads back under `Number` as what was stored, NaN included |
| Js.ToStrOfIntRoundTrips | src/sheets/export.ts:39-40 | an integer written by `String` reads back under `Number` unchanged |
| Graph.MinOf | src/diagram/grouping.ts:35-36 | `Math.min(...xs)` is one of the values and at most each of them |
| Graph.MaxOf | src/diagram/grouping.ts:37-38 | `Math.max(...xs)` is one of the values and at least each of them |
| Graph.Enclose | src/diagram/grouping.ts:35-39 | every box lies at least `padding` inside the result, and on each of the four sides some box is exactly `padding` from the edge |
| Graph.EncloseAttained | src/diagram/grouping.ts:35-39 | names a box touching each of the four padded sides |
| Graph.MakeId | src/diagram/DiagramState.ts:123 | the id `${prefix}_${now}_${idx}_${rand}` begins with the stem shared by one call |
| Graph.MakeIdInjective | src/diagram/DiagramState.ts:121-126 | two ids of one call are equal only for the same index and the same draw |
| Graph.StemUnusedFresh | src/diagram/DiagramState.ts:123 | when no existing id starts with the stem, no generated id is taken |
| ComponentSchemas.FcLayerSchema | src/data/componentSchemas.ts:48-80 | the `FC_LAYER` entry, field by field; every field's own default passes its own validation (a number default lies within its bounds, a select default is one of its options) |
| ComponentSchemas.MlpLayersSchema | src/data/componentSchemas.ts:86-120 | the `MLP_LAYERS` entry, field by field; every field's own default passes its own validation (a number default lies within its bounds, a select default is one of its options) |
| ComponentSchemas.ConvLayerSchema | src/data/componentSchemas.ts:126-185 | the `CONV_LAYER` entry, field by field; every field's own default passes its own validation (a number default lies within its bounds, a select default is one of its options) |
| ComponentSchemas.PoolingSchema | src/data/componentSchemas.ts:191-225 | the `POOLING` entry, field by field; every field's own default passes its own validation (a number default lies within its bounds, a select default is one of its options) |
| ComponentSchemas.FlattenSchema | src/data/componentSchemas.ts:231-249 | the `FLATTEN` entry, field by field; every field's own default passes its own validation (a number default lies within its bounds, a select default is one of its options) |
| ComponentSchemas.ActivationSchema | src/data/componentSchemas.ts:257-276 | the `ACTIVATION` entry, field by field; every field's own default passes its own validation (a number default lies within its bounds, a select default is one of its options) |
| ComponentSchemas.SigmoidTanhSchema | src/data/componentSchemas.ts:279-287 | the `SIGMOID_TANH` entry, field by field; every field's own default passes its own validation (a number default lies within its bounds, a select default is one of its options) |
| ComponentSchemas.SoftmaxReluSchema | src/data/componentSchemas.ts:289-297 | the `SOFTMAX_RELU` entry, field by field; every field's own default passes its own validation (a number default lies within its bounds, a select default is one of its options) |
| ComponentSchemas.GeluSchema | src/data/componentSchemas.ts:299-308 | the `GELU` entry, field by field; every field's own default passes its own validation (a number default lies within its bounds, a select default is one of its options) |
| ComponentSchemas.BatchNormSchema | src/data/componentSchemas.ts:316-351 | the `BATCH_NORM` entry, field by field; every field's own default passes its own validation (a number default lies within its bounds, a select default is one of its options) |
| ComponentSchemas.LayerNormSchema | src/data/componentSchemas.ts:357-380 | the `LAYER_NORM` entry, field by field; every field's own default passes its own validation (a number default lies within its bounds, a select default is one of its options) |
| ComponentSchemas.DropoutSchema | src/data/componentSchemas.ts:386-412 | the `DROPOUT` entry, field by field; every field's own default passes its own validation (a number default lies within its bounds, a select default is one of its options) |
| ComponentSchemas.DataSchema | src/data/componentSchemas.ts:420-453 | the `DATA` entry, field by field; every field's own default passes its own validation (a number default lies within its bounds, a select default is one of its options) |
| ComponentSchemas.InputDataSchema | src/data/componentSchemas.ts:455-470 | the `INPUT_DATA` entry, field by field; every field's own default passes its own validation (a number default lies within its bounds, a select default is one of its options) |
| ComponentSchemas.OutputDataSchema | src/data/componentSchemas.ts:472-487 | the `OUTPUT_DATA` entry, field by field; every field's own default passes its own validation (a number default lies within its bounds, a select default is one of its options) |
| ComponentSchemas.TensorSchema | src/data/componentSchemas.ts:493-519 | the `TENSOR` entry, field by field; every field's own default passes its own validation (a number default lies within its bounds, a select default is one of its options) |
| ComponentSchemas.LossSchema | src/data/componentSchemas.ts:527-563 | the `LOSS` entry, field by field; every field's own default passes its own validation (a number default lies within its bounds, a select default is one of its options) |
| ComponentSchemas.OptimizerSchema | src/data/componentSchemas.ts:569-626 | the `OPTIMIZER` entry, field by field; every field's own default passes its own validation (a number default lies within its bounds, a select default is one of its options) |
| ComponentSchemas.AttentionSchema | src/data/componentSchemas.ts:634-661 | the `ATTENTION` entry, field by field; every field's own default passes its own validation (a number default lies within its bounds, a select default is one of its options) |
| ComponentSchemas.EmbeddingSchema | src/data/componentSchemas.ts:667-700 | the `EMBEDDING` entry, field by field; every field's own default passes its own validation (a number default lies within its bounds, a select default is one of its options) |
| ComponentSchemas.RnnLstmSchema | src/data/componentSchemas.ts:706-745 | the `RNN_LSTM` entry, field by field; every field's own default passes its own validation (a number default lies within its bounds, a select default is one of its options) |
| ComponentSchemas.NeuronSchema | src/data/componentSchemas.ts:753-771 | the `NEURON` entry, field by field; every field's own default passes its own validation (a number default lies within its bounds, a select default is one of its options) |
| ComponentSchemas.GroupSchema | src/data/componentSchemas.ts:779-799 | the `GROUP` entry, field by field; every field's own default passes its own validation (a number default lies within its bounds, a select default is one of its options) |
| ComponentSchemas.DefaultSchema | src/data/componentSchemas.ts:804-813 | the `DEFAULT` entry, field by field; every field's own default passes its own validation (a number default lies within its bounds, a select default is one of its options) |
| ComponentSchemas.SchemaOf | src/data/componentSchemas.ts:41-814 | the schema the registry holds under each of its 24 keys, and every one of them is well formed |
| ComponentSchemas.KeyOf | src/data/componentSchemas.ts:41-814 | a text is mapped to a key only when it is that key's own name in the registry |
| ComponentSchemas.KeyOfName | src/data/componentSchemas.ts:41-814 | every registry key's own name looks up that key, so the 24 names are distinct |
| ComponentSchemas.RegisteredKeys | src/data/componentSchemas.ts:823 | a text is in the registry exactly when it is the name of one of its keys |
| ComponentSchemas.SchemaAt | src/data/componentSchemas.ts:846 | `MLComponentSchemas[key]` for a registered key is a well-formed schema |
| ComponentSchemas.FindField | src/data/componentSchemas.ts:847-849 | a parameter is found exactly when the schema declares that name, and what is found is declared under it |
| ComponentSchemas.GetSchemaField | src/data/componentSchemas.ts:883-889 | a field is returned exactly when the key is registered and its schema declares the name; the field is the one declared |
| ComponentSchemas.Defaults | src/data/componentSchemas.ts:824-830 | the record has exactly the schema's parameter names as keys, and each holds that parameter's default |
| ComponentSchemas.GetDefaultMLParams | src/data/componentSchemas.ts:822-831 | a registered key gives each of its parameters' defaults and nothing else; a name the registry object inherits from `Object.prototype` (such as `toString`) gives the empty record; any other key gives the `DEFAULT` record `{notes: ''}` |
| ComponentSchemas.InheritedUnregistered | src/data/componentSchemas.ts:823 | no name inherited from `Object.prototype` is a key of the registry |
| ComponentSchemas.Coerce | src/data/componentSchemas.ts:852-873 | numbers and ranges: NaN gives the default, below the minimum the minimum, above the maximum the maximum, otherwise the number; selects: an offered option is kept, anything else gives the default; booleans are `Boolean(value)`; strings are `String(value)` |
| ComponentSchemas.ValidateParameter | src/data/componentSchemas.ts:841-874 | an unknown key or parameter passes the value through unchanged; otherwise the field's coercion applies |
| ComponentSchemas.ValidateInheritedTypePassesThrough | src/data/componentSchemas.ts:845-847 | a type name inherited from `Object.prototype` leaves every value unchanged |
| ComponentSchemas.NamesMember | src/data/componentSchemas.ts:826 | a name is among a schema's keys exactly when some parameter is declared under it |
| ComponentSchemas.NamesCount | src/data/componentSchemas.ts:826 | with distinct names, a schema has as many keys as declared parameters |
| ComponentSchemas.ConvLayerNamesDistinct | src/data/componentSchemas.ts:126-185 | the `CONV_LAYER` parameters have distinct names |
| ComponentSchemas.ConvLayerHasSevenFields | src/data/componentSchemas.ts:126-185 | `CONV_LAYER` has seven parameters |
| ComponentSchemas.CoerceIdempotent | src/data/componentSchemas.ts:852-873 | coercing an already coerced value changes nothing, for every well-formed field |
| ComponentSchemas.CoerceDefault | src/data/componentSchemas.ts:852-873 | a well-formed field's default survives coercion |
| ComponentSchemas.ValidateDefault | src/data/componentSchemas.ts:841-874 | validating any registered parameter's default gives back the default |
| ComponentSchemas.ValidateIdempotent | src/data/componentSchemas.ts:841-874 | `validateParameter` is idempotent for every key, parameter name and value |
| NodeSchemas.LegacySchema | src/ui/nodeSchemas.ts:27-71 | the four hand-written panel schemas (`activationNode`, `convNode`, `fcNode`, `tensorNode`), each stored under its own type and each with at least one field |
| NodeSchemas.KeyMapsDiffer | src/ui/nodeSchemas.ts:111-127 | the key map of `getNodeSchema` and the one of `validateField` (lines 150-165) agree on every node type but `embeddingNode`, which only the first maps and which has no hand-written schema |
| NodeSchemas.StringifyOptions | src/ui/nodeSchemas.ts:89-94 | every option becomes one panel option whose label and value are both `String(option)`, in order |
| NodeSchemas.ConvertField | src/ui/nodeSchemas.ts:76-97 | the field spec carries the parameter's name, label, kind, bounds, step, hint and placeholder, and has options exactly when the parameter has them, stringified |
| NodeSchemas.ConvertAll | src/ui/nodeSchemas.ts:136-138 | one converted field per registry parameter, in declaration order |
| NodeSchemas.GetNodeSchema | src/ui/nodeSchemas.ts:102-144 | no type gives nothing; a hand-written schema wins; otherwise a mapped type gives the registry schema converted field by field under the node's own type, and an unmapped one gives nothing |
| NodeSchemas.ValidateFieldAsWritten | src/ui/nodeSchemas.ts:149-171 | a type outside `validateField`'s own key map passes the value through; a mapped one applies `validateParameter` of its key |
| NodeSchemas.EmbeddingUnvalidated | src/ui/nodeSchemas.ts:150-168 | every value of an `embeddingNode` field passes through `validateField` unchanged |
| NodeSchemas.UnmappedFieldsUnvalidated | src/ui/nodeSchemas.ts:102-171 | for a type the panel maps and validation does not, every field the panel shows is left unvalidated, where its registry field would coerce it |
| NodeSchemas.ValidateField | src/ui/nodeSchemas.ts:149-171 | validation resolved through the panel's key map: unmapped types pass through, mapped ones apply `validateParameter` of their key |
| NodeSchemas.ValidateFieldMatchesPanel | src/ui/nodeSchemas.ts:102-171 | for every type whose panel comes from the registry, each field the panel shows is found in the registry and is validated by exactly its own coercion |
| NodeSchemas.StringOptionsAccepted | src/ui/nodeSchemas.ts:89-94 | an option the panel offers for a select with string options is kept as it is by validation |
| NodeSchemas.NumericOptionsRejected | src/ui/nodeSchemas.ts:89-94 | an option the panel offers for a select with numeric options is a string, which validation then replaces by the default |
| DesignTokens.SizeKeyOf | src/data/designTokens.ts:24-212 | a text is mapped to a size key only when it is that key's own name |
| DesignTokens.SizeKeyOfName | src/data/designTokens.ts:24-212 | every key of `NodeSizes` looks itself up, so the 21 names are distinct |
| DesignTokens.SizeOf | src/data/designTokens.ts:24-212 | the entry for each key, and every entry's default size meets its own minimum |
| DesignTokens.ReplaceUnderscores | src/data/designTokens.ts:229 | same length, each underscore replaced by a space and every other character kept |
| DesignTokens.InitialNodeDataSpec | src/data/designTokens.ts:220-239 | type `default` at the origin; `data` holds exactly width, height, colour, label and an empty formula; `style` exactly width and height, equal to those in `data`; the label is the key with spaces for underscores; sizes and colour come from the key's entry, or `FC_LAYER`'s for an unknown key |
| DesignTokens.UnknownKeyUsesFcLayer | src/data/designTokens.ts:221 | an unknown key gets 80 by 120 and the FC colour |
| DesignTokens.TypeOfKey | src/data/designTokens.ts:249-285 | the `typeMap` entry of each key; no entry is empty or `box`, and `BASIC_TEMPLATE` has none |
| DesignTokens.GetNodeTypeFromKey | src/data/designTokens.ts:248-288 | `box` exactly when the key is unknown or missing from `typeMap`; otherwise the key's entry |
| DesignTokens.ValidateNodeDimensions | src/data/designTokens.ts:298-309 | defined exactly for known keys; each dimension is at least the key's minimum, is either the input or the minimum, and is the input when that already meets the minimum |
| DesignTokens.ValidateIdempotent | src/data/designTokens.ts:298-309 | clamping a clamped size changes nothing |
| DesignTokens.DefaultSizeValid | src/data/designTokens.ts:24-309 | every key's default size passes its own clamp unchanged |
| DiagramState.ConnectEdge | src/diagram/DiagramState.ts:56-75 | an edge exactly when source and target are both present and non-empty; it joins them, keeps both handles, has the id `${Date.now()}`, a closed arrow and a stroke in `#111827`, and is neither typed nor selected |
| DiagramState.MergeData | src/diagram/DiagramState.ts:84-89 | same length; nodes with another id are unchanged; each node with the id has its data shallowly merged with the patch, the patch winning |
| DiagramState.MergeDataKeys | src/diagram/DiagramState.ts:87 | a patched node reads each patch key from the patch and every other key as before |
| DiagramState.MergeDataIdempotent | src/diagram/DiagramState.ts:84-89 | merging the same patch twice is merging it once |
| DiagramState.UpdateEdges | src/diagram/DiagramState.ts:95-98 | same length; each edge with the id is replaced by the updater's result, every other edge is kept |
| DiagramState.UpdateEdgesAbsent | src/diagram/DiagramState.ts:95-98 | an id no edge carries leaves the edge list unchanged |
| DiagramState.DropIds | src/diagram/DiagramState.ts:110 | a node is kept exactly when it was present and its id is not in the set |
| DiagramState.KeepEdges | src/diagram/DiagramState.ts:111 | an edge is kept exactly when it was present, is not selected, and neither end is in the set |
| DiagramState.DropIdsSubsequence | src/diagram/DiagramState.ts:110 | the kept nodes are in their old order |
| DiagramState.RemoveSelectedNodesSpec | src/diagram/DiagramState.ts:107-113 | no selected node survives, every node whose id no selected node carries is kept, and the order is kept |
| DiagramState.RemoveSelectedEdgesSpec | src/diagram/DiagramState.ts:107-113 | every surviving edge is unselected, and an end that named a node names a surviving node |
| DiagramState.RemoveSelectedOrphans | src/diagram/DiagramState.ts:107-113 | an unselected child of a removed group is kept unchanged, and its `parentNode` now names no node |
| DiagramState.RemoveSelectedIdempotent | src/diagram/DiagramState.ts:107-113 | removing a second time removes nothing more, nodes or edges |
| DiagramState.DropIdsNone | src/diagram/DiagramState.ts:110 | filtering by no ids keeps every node |
| DiagramState.KeepEdgesUnselected | src/diagram/DiagramState.ts:111 | with no ids and no selected edge every edge is kept |
| DiagramState.Selected | src/diagram/DiagramState.ts:118 | a node is taken exactly when it is present and selected |
| DiagramState.Clones | src/diagram/DiagramState.ts:121-126 | one clone per selected node, the `idx`-th with id `n_${now}_${idx}_${rand}`, unselected and moved by (40, 40) |
| DiagramState.Duplicate | src/diagram/DiagramState.ts:116-128 | with nothing selected the node list is kept |
| DiagramState.DuplicateAppends | src/diagram/DiagramState.ts:116-128 | the result is the old list followed by one clone per selected node |
| DiagramState.ClonesSpec | src/diagram/DiagramState.ts:121-126 | each clone keeps its original's type, data, style, parent and extent, is unselected and shifted by (40, 40), and the clones' ids differ pairwise |
| DiagramState.DuplicateFresh | src/diagram/DiagramState.ts:123 | when no existing id starts with `n_${now}_`, no clone's id is already taken |
| DiagramState.DiagramStore.constructor | src/diagram/DiagramState.ts:36-41 | the store starts empty, snapping to a 10 by 10 grid |
| DiagramState.DiagramStore.OnConnect | src/diagram/DiagramState.ts:56-75 | appends the connection's edge when there is one and changes nothing otherwise |
| DiagramState.DiagramStore.AddNode | src/diagram/DiagramState.ts:78-81 | appends the node and changes nothing else |
| DiagramState.DiagramStore.UpdateNodeData | src/diagram/DiagramState.ts:84-89 | replaces the nodes by their merge with the patch and changes nothing else |
| DiagramState.DiagramStore.SetDiagram | src/diagram/DiagramState.ts:92 | replaces both lists and keeps the snap settings |
| DiagramState.DiagramStore.UpdateEdge | src/diagram/DiagramState.ts:95-98 | replaces the edges by their update and changes nothing else |
| DiagramState.DiagramStore.SetNodes | src/diagram/DiagramState.ts:100 | replaces the nodes and changes nothing else |
| DiagramState.DiagramStore.SetEdges | src/diagram/DiagramState.ts:101 | replaces the edges and changes nothing else |
| DiagramState.DiagramStore.SetSnapToGrid | src/diagram/DiagramState.ts:103 | sets the snap flag and changes nothing else |
| DiagramState.DiagramStore.SetSnapGrid | src/diagram/DiagramState.ts:104 | sets the grid and changes nothing else |
| DiagramState.DiagramStore.RemoveSelected | src/diagram/DiagramState.ts:107-113 | replaces nodes and edges by what survives the removal, both computed from the old lists |
| DiagramState.DiagramStore.DuplicateSelected | src/diagram/DiagramState.ts:116-128 | replaces the nodes by the duplicated list and changes nothing else |
| DiagramState.DiagramStore.Reset | src/diagram/DiagramState.ts:131 | empties both lists and keeps the snap settings |
| Grouping.IndexSnoc | src/diagram/grouping.ts:6-8 | indexing a list with one more node is the old index updated at that node's id |
| Grouping.IndexSpec | src/diagram/grouping.ts:6-8 | `buildIndex` holds exactly the ids of the list, each mapped to a node of the list carrying that id |
| Grouping.IndexLastWins | src/diagram/grouping.ts:6-8 | of several nodes with one id, `Object.fromEntries` keeps the last |
| Grouping.GetAbsolutePosition | src/diagram/grouping.ts:10-22 | the loop's result is the node's position plus those of its ancestors, up to the first parent missing from the index |
| Grouping.AbsPosRoot | src/diagram/grouping.ts:14-16 | a node without a parent in the index sits at its own position |
| Grouping.AbsPosChild | src/diagram/grouping.ts:14-19 | with a parent in the index, the absolute position is the node's position plus the parent's absolute one |
| Grouping.AbsPosFuel | src/diagram/grouping.ts:14-20 | once the walk ends within some bound, a larger bound gives the same position |
| Grouping.AbsPosUnique | src/diagram/grouping.ts:14-20 | any two bounds within which the walk ends give the same position |
| Grouping.Candidates | src/diagram/grouping.ts:26 | a node is taken exactly when it is selected and not a `groupNode`; none is taken exactly when no node qualifies |
| Grouping.Boxes | src/diagram/grouping.ts:31-34 | one box per candidate: its absolute position, its measured size or 140 by 80 |
| Grouping.SelectedBounds | src/diagram/grouping.ts:24-40 | `null` exactly when there is no candidate, otherwise the padded box enclosing the candidates' boxes |
| Grouping.BoundsEnclose | src/diagram/grouping.ts:35-39 | every candidate's box lies at least `padding` inside the bounds on all four sides |
| Grouping.GroupId | src/diagram/grouping.ts:50 | the id `g_${now}_${rand}` is non-empty and starts with `g` |
| Grouping.AdoptAll | src/diagram/grouping.ts:52-57 | one result per node, each the node adopted by the group (candidates) or left as it is |
| Grouping.CreateGroupNodeFromSelection | src/diagram/grouping.ts:43-70 | without candidates returns `null` and leaves the nodes alone; otherwise replaces them by the adopted list followed by the group and returns the group's id; edges and snap settings are kept |
| Grouping.GroupedNone | src/diagram/grouping.ts:45-49 | grouping does nothing exactly when no node is a selected non-group |
| Grouping.GroupedShape | src/diagram/grouping.ts:52-68 | one more node than before, the group last at the bounds' corner and size; non-candidates untouched; candidates keep id and data, become children of the group with extent `parent`, are deselected, and sit at their absolute position minus the group's corner |
| Grouping.AdoptedShape | src/diagram/grouping.ts:52-57 | the same, for the adopted list before the group is appended |
| Grouping.IndexAdopted | src/diagram/grouping.ts:52-57 | the index of the adopted list has the same ids, each mapped to the adopted node |
| Grouping.AdoptKeepsAbs | src/diagram/grouping.ts:10-22 | in the grouped index, an adopted node's walk, with one more step for the group, ends where its old walk ended |
| Grouping.GroupedIndex | src/diagram/grouping.ts:52-68 | with a fresh group id, the grouped list's index holds the adopted nodes under their old ids and the group under its own |
| Grouping.AdoptedKeepAbs | src/diagram/grouping.ts:52-68 | a node with a finite parent chain has the same absolute position after grouping |
| Grouping.AllResolveByIndex | src/diagram/grouping.ts:10-22 | a list whose every node's walk ends has every node resolving |
| Grouping.AdoptedListKeepsAbs | src/diagram/grouping.ts:52-68 | after adoption every chain still ends, the group sits at the corner, and every node sits where it was |
| Grouping.GroupingKeepsAbsolutePositions | src/diagram/grouping.ts:43-70 | grouping moves nothing on the canvas: every node keeps its absolute position and the group sits at the corner of the bounds |
| Alignment.StoredBoxes | src/diagram/alignment.ts:11-14 | one stored box per selected node, in order, with a missing width or height read as 0 |
| Alignment.ExtentHolds | src/diagram/alignment.ts:16-19 | every selected node's stored box lies inside the extent (least x and y, greatest right and bottom edge) |
| Alignment.ExtentAttainedX | src/diagram/alignment.ts:16-17 | the extent's left edge is some selected node's x and its right edge some selected node's x plus width |
| Alignment.ExtentAttainedY | src/diagram/alignment.ts:18-19 | the extent's top edge is some selected node's y and its bottom edge some selected node's y plus height |
| Alignment.AlignAll | src/diagram/alignment.ts:23-43 | the mapped list has the input's length and holds each node under the op, position by position |
| Alignment.AlignNodeSpec | src/diagram/alignment.ts:24-42 | a selected node gets only the op's coordinate rewritten: to the extent's left or top edge, to its right or bottom edge less the node's size, or to its midpoint less half the size |
| Alignment.AlignSpec | src/diagram/alignment.ts:7-44 | fewer than two selected nodes return the input; otherwise the length is kept, every unselected node is returned as it was and every selected one is aligned as above against the selection's extent |
| Alignment.Moved | src/diagram/alignment.ts:58-59 | the node with the axis coordinate set to the given value |
| Alignment.InsertElems | src/diagram/alignment.ts:47 | inserting a node into the sorted prefix adds exactly that node (as a multiset) |
| Alignment.InsertSorted | src/diagram/alignment.ts:47 | inserting a node keeps the list sorted by the axis coordinate |
| Alignment.SortSpec | src/diagram/alignment.ts:47 | sorting by the axis coordinate returns a sorted permutation of the selection |
| Alignment.SortedFrom | src/diagram/alignment.ts:47 | the sorted list holds exactly the nodes of its input |
| Alignment.SortUnique | src/diagram/alignment.ts:47 | sorting keeps the ids pairwise distinct |
| Alignment.SelectedUnique | src/diagram/alignment.ts:47 | the selected filter keeps the ids pairwise distinct |
| Alignment.SortedSelectionFrom | src/diagram/alignment.ts:47 | the sorted selection has the selection's length and holds only selected nodes of the list |
| Alignment.KeysOf | src/diagram/alignment.ts:55 | the key order of `Object.fromEntries` holds each indexed id exactly once |
| Alignment.KeysOfUnique | src/diagram/alignment.ts:55 | with distinct ids the key order is the ids in list order |
| Alignment.FromEntries | src/diagram/alignment.ts:55 | the loop builds that key order and the id index of the list |
| Alignment.Overwritten | src/diagram/alignment.ts:56-60 | the rewritten index keeps every key of the original index |
| Alignment.OverwrittenStep | src/diagram/alignment.ts:56-60 | one more `forEach` step overwrites the entry of the next interior node with that node at its spaced coordinate |
| Alignment.SpaceInterior | src/diagram/alignment.ts:56-60 | the loop rewrites every interior node of the sorted selection and no other entry |
| Alignment.OverwrittenAt | src/diagram/alignment.ts:56-60 | an entry whose id is no rewritten id is kept |
| Alignment.OverwrittenMoved | src/diagram/alignment.ts:56-60 | the `k`-th interior id maps to the `k`-th sorted node moved to `first + step * k` |
| Alignment.Values | src/diagram/alignment.ts:61 | `Object.values` lists each key's entry, in key order |
| Alignment.ValuesOf | src/diagram/alignment.ts:61 | the loop lists the entries in key order |
| Alignment.ValuesOfKeys | src/diagram/alignment.ts:55-61 | with distinct ids the `i`-th value is the entry of the `i`-th node's id |
| Alignment.Distribute | src/diagram/alignment.ts:46-62 | the method returns what the specification `Distributed` says |
| Alignment.DistributeFew | src/diagram/alignment.ts:48 | with fewer than three selected nodes the input is returned |
| Alignment.SpacedSpec | src/diagram/alignment.ts:50-53 | the spaced coordinates keep the two ends and have equal gaps that are not negative |
| Alignment.SpreadSpec | src/diagram/alignment.ts:55-61 | the result keeps the list's length and order, moves each interior node of the sorted selection to its spaced coordinate and keeps every other node, the ends included |
| Alignment.SpreadMovesInterior | src/diagram/alignment.ts:56-59 | each interior node of the sorted selection is a node of the list and is returned moved |
| Alignment.SpreadKeepsRest | src/diagram/alignment.ts:55-61 | a node that is no interior node is returned as it was |
| Alignment.DistributeSpec | src/diagram/alignment.ts:46-62 | with distinct ids and three or more selected nodes, `distribute` spreads the sorted selection as above |
| Alignment.DistributeKeepsUnselected | src/diagram/alignment.ts:46-62 | an unselected node never moves |
| Alignment.SelectedIndex | src/diagram/alignment.ts:8 | each selected node sits at some position of the list and is selected there |
| Alignment.InsertUnique | src/diagram/alignment.ts:47 | inserting a node with a new id keeps the ids pairwise distinct |
| Alignment.SortedSelectionAt | src/diagram/alignment.ts:47 | every node of the sorted selection is a selected node of the list |
| Alignment.SortedSelectionUnique | src/diagram/alignment.ts:47 | with distinct ids in the list, the sorted selection's ids are distinct |
| Alignment.PrefixStep | src/diagram/alignment.ts:55 | one more entry appends its id to the key order only when the id is new, and always overwrites the id's entry |
| Alignment.SpreadLength | src/diagram/alignment.ts:55-61 | spreading keeps the number of nodes |
| Alignment.SpreadMoved | src/diagram/alignment.ts:56-61 | the node at the id of interior sorted node k comes back moved to `first + step * k` on the axis |
| Alignment.SpreadKept | src/diagram/alignment.ts:55-61 | a node whose id no interior sorted node has comes back as it was |
| SheetsMapping.ShapeName | src/sheets/mapping.ts:3 | each shape is written as a non-empty lower-case word |
| SheetsMapping.ShapeNameInjective | src/sheets/mapping.ts:3 | distinct shapes are written differently |
| SheetsMapping.BoxToken | src/sheets/mapping.ts:26-45 | always a palette token; `mlcd.linear` exactly when the variant is none of `loss`, `dropout`, `batchnorm`, `embedding`, `attention`, `activation` |
| SheetsMapping.MapNodeToExport | src/sheets/mapping.ts:10-49 | the token is always from the palette; the shape is `tensor` exactly for tensor nodes, `group` exactly for group nodes, `diamond` exactly for activation nodes whose `shape` is `diamond`, `circle` exactly for circle nodes and the other activation nodes; activation nodes are orange only when `colorAlt` is `orange`; box nodes take their variant's token |
| SheetsMapping.UnknownTypeFallback | src/sheets/mapping.ts:47-48 | a type the mapping does not list is a rectangle in `mlcd.stroke` |
| SheetsMapping.MappingReadsTypeAndThreeFields | src/sheets/mapping.ts:10-49 | two nodes that agree on type and on the `shape`, `colorAlt` and `variant` fields map alike |
| CsvExport.ExportColor | src/sheets/export.ts:29 | the node's own colour unless it is `null` or `undefined`, else `token:` and its mapping's colour token |
| CsvExport.NodeRow | src/sheets/export.ts:30-41 | ten values, more than the seven shipped headers name: id, type (empty when absent), colour, shape name and the position among them, at the places the ten headers name |
| CsvExport.EdgeTypeName | src/sheets/export.ts:53 | the edge's type when it is set and non-empty, otherwise `default` |
| CsvExport.EdgeRow | src/sheets/export.ts:49-57 | seven values, one per edge header: id, source, target, type, stroke, whether there is an end marker, whether the edge is residual |
| CsvImport.Width | src/sheets/import.ts:20-29 | a step reads two characters exactly for a doubled quote inside quotes and for CR LF outside them, otherwise one |
| CsvImport.ScanGrows | src/sheets/import.ts:16-38 | rows are only added, and every row added has a cell and is not a single empty cell |
| CsvImport.ParseCsv | src/sheets/import.ts:10-40 | the loop returns exactly the rows the scanner's step-by-step description gives for the text |
| CsvImport.UnterminatedQuote | src/sheets/import.ts:18-24 | a quote never closed takes the rest of the text, line breaks and commas included, into the cell |
| CsvImport.ScanStarted | src/sheets/import.ts:37-38 | once a cell or a row has begun, the result has a row |
| CsvImport.ScanReaches | src/sheets/import.ts:16-38 | a character other than a quote or a line break yields at least one row |
| CsvImport.CsvRowsNonEmpty | src/sheets/import.ts:10-40 | a text holding any character but quotes and line breaks parses to at least one row |
| CsvImport.ToBoolOfBool | src/sheets/import.ts:42-45 | the texts `true` and `false` that the export writes read back as the booleans |
| CsvImport.FindHeader | src/sheets/import.ts:53-54 | the first header cell that trims and lowers to the name, or -1 when none does |
| CsvImport.Column | src/sheets/import.ts:53-54 | a column, possibly -1, exactly for the listed header names; `undefined` for any other name |
| CsvImport.NumberCell | src/sheets/import.ts:62-65 | a set cell gives `Number` of its text, an unset one the default |
| CsvImport.NodeData | src/sheets/import.ts:59-66 | the colour is absent or a non-empty text; without a `formula` or `height` header those fields are `undefined` |
| CsvImport.NodeFromRow | src/sheets/import.ts:56-67 | the id is the `id` cell; the type is the `type` cell, or `boxNode` when that is unset; x and y are `Number` of their cells, or 0 when those are unset |
| CsvImport.EdgeFromRow | src/sheets/import.ts:69-87 | id, source and target are their cells; a residual flag makes the type `residualEdge`, sets the dash `strokeDasharray` to `'6 4'` and sets `data.residual`; the style holds no key but `stroke` and `strokeDasharray`, otherwise the type is the `type` cell; an arrow flag adds a closed arrow in the stroke colour; the stroke is the `stroke` cell when it is set |
| CsvImport.ImportNodes | src/sheets/import.ts:48-67 | nodes exactly when the text has a header row, one per row after it |
| CsvImport.ImportEdges | src/sheets/import.ts:49-87 | edges exactly when the text has a header row, one per row after it |
| CsvImport.BuildDiagram | src/sheets/import.ts:47-89 | a diagram exactly when both texts have a header row, made of their nodes and edges |
| CsvImport.FirstLine | src/sheets/import.ts:97 | the prefix of the text before its first LF or CR LF |
| CsvImport.LastNodesTable | src/sheets/import.ts:95-100 | the position of the last text passing the nodes test, -1 when none does |
| CsvImport.LastEdgesTable | src/sheets/import.ts:95-100 | the position of the last text passing the edges test, -1 when none does |
| CsvImport.LastTablesStep | src/sheets/import.ts:95-100 | one more text becomes the last table exactly when it passes the test |
| CsvImport.TextsStep | src/sheets/import.ts:95-100 | one more text becomes `nodesText` (`edgesText`) exactly when it passes the test |
| CsvImport.ImportFromSheets | src/sheets/import.ts:91-103 | the loop leaves `nodesText` and `edgesText` as the last texts passing each test, and the result is as `Imported` describes |
| CsvImport.IncludesFirst | src/sheets/import.ts:98-99 | a non-empty included text's first character occurs in the text |
| CsvImport.HeadWordGivesRow | src/sheets/import.ts:97-102 | a text whose first line contains a word parses to at least one row |
| CsvImport.ImportSpec | src/sheets/import.ts:91-103 | with `id` among the node headers, the import gives a diagram exactly when some file passes the nodes test and some file passes the edges test, and builds it from the last file passing each |
| CsvRoundTrip.ScanPlain | src/sheets/import.ts:34 | outside quotes, text without quotes, commas or line breaks is copied into the cell |
| CsvRoundTrip.ScanDoubled | src/sheets/import.ts:19-24 | inside quotes the scanner undoes the doubling of quotes and stops at the closing quote |
| CsvRoundTrip.ScanQuote | src/sheets/import.ts:18-34 | an escaped cell followed by a comma, a line feed or the end reads back as its text |
| CsvRoundTrip.ScanRow | src/sheets/import.ts:27 | a row of escaped cells joined by commas reads back as those cells |
| CsvRoundTrip.ScanLine | src/sheets/import.ts:28-32 | a row followed by a line feed is added to the rows already read |
| CsvRoundTrip.ScanLastLine | src/sheets/import.ts:37-38 | the last row of the text is added to the rows already read |
| CsvRoundTrip.ScanTable | src/sheets/import.ts:10-40 | escaped rows joined by line feeds read back as the rows |
| CsvRoundTrip.EscQuotes | src/sheets/export.ts:7-12 | `esc` is quoting applied to the cell's text |
| CsvRoundTrip.CsvInvertsExport | src/sheets/export.ts:6-14 | `parseCsv(toCsv(rows))` is the table of the rows' cell texts, provided no cell text holds a carriage return and no row is a single empty cell |
| CsvRoundTrip.WordNormal | src/sheets/import.ts:53 | trimming and lower-casing leave a header word unchanged |
| CsvRoundTrip.FindHeaderAt | src/sheets/import.ts:53 | in a row of distinct header words, each word is found at its own position |
| CsvRoundTrip.ColumnsOfOwnHeader | src/sheets/import.ts:53-54 | under its own header row, every listed name's column is its position |
| CsvRoundTrip.HeaderRowExportable | src/sheets/export.ts:26 | a header row of distinct words is written as itself and read back as itself |
| CsvRoundTrip.HeadedTableRead | src/sheets/import.ts:48-51 | a table exported under a header row is read back as that header followed by the body's cell texts |
| CsvRoundTrip.EdgeHeadersShape | src/sheets/schema.ts:3 | the edge headers are the seven edge names in the order the export writes the values |
| CsvRoundTrip.EdgeTexts | src/sheets/export.ts:49-57 | the cell texts of an exported edge row, value by value |
| CsvRoundTrip.EdgeCellsRead | src/sheets/import.ts:69-76 | under the edge header each name reads the cell at its own position |
| CsvRoundTrip.FlagOfBool | src/sheets/import.ts:75-76 | a cell holding `String(b)` reads back as the flag `b` |
| CsvRoundTrip.TextCellRestored | src/sheets/import.ts:73-74 | a text or absent value written out and read back as a truthy cell is `v \|\| undefined` |
| CsvRoundTrip.EdgeRowRestored | src/sheets/import.ts:69-87 | an exported edge row reads back with the edge's id, ends, arrow, stroke and residual flag |
| CsvRoundTrip.EdgeRoundTripUnder | src/sheets/import.ts:69-87 | under any header shaped like the edge header, every exported edge comes back in order with its id, ends, arrow, stroke and residual flag |
| CsvRoundTrip.EdgeRowsExportable | src/sheets/export.ts:49-57 | exported edge rows with clean texts are read back unchanged by the scanner |
| CsvRoundTrip.EdgeRoundTrip | src/sheets/export.ts:47-60 | exporting edges and importing the text gives back one edge per edge, in order, with its id, ends, arrow, stroke and residual flag |
| CsvRoundTrip.NodesTableRead | src/sheets/import.ts:48-67 | a nodes table exported under any header of distinct words reads back one node per exported row, built from the row's cell texts |
| CsvRoundTrip.NodeRowsExportable | src/sheets/export.ts:27-42 | exported node rows with clean texts are read back unchanged by the scanner |
| CsvRoundTrip.NodeTexts | src/sheets/export.ts:30-41 | the ten cell texts of an exported node row, value by value |
| CsvRoundTrip.NodeHeadersShape | src/sheets/export.ts:30-41 | the ten node headers name the values of a node row in the order the export writes them |
| CsvRoundTrip.NodeCellsReadFront | src/sheets/import.ts:57-61 | under the ten-name header, id, type, label, formula and colour read the cells at their own positions |
| CsvRoundTrip.NodeCellsReadBack | src/sheets/import.ts:62-65 | under the ten-name header, width, height, x and y read the cells at their own positions |
| CsvRoundTrip.NodeOfTexts | src/sheets/import.ts:56-67 | the node read from a ten-cell text row under the ten-name header, field by field |
| CsvRoundTrip.WholeCellRestored | src/sheets/import.ts:62-65 | an integral number written by `String` is read back by `Number` as itself |
| CsvRoundTrip.AbsentCellRestored | src/sheets/import.ts:62-65 | an absent number is written as an empty cell and read back as the default |
| CsvRoundTrip.TextFieldsRestored | src/sheets/import.ts:59-61 | label, formula and colour read back from their cells; an absent colour comes back as the exported `token:` text |
| CsvRoundTrip.SizeRestored | src/sheets/import.ts:62-63 | an integral size is read back, an absent one stays `undefined` |
| CsvRoundTrip.NodeRowRestored | src/sheets/import.ts:56-67 | an exported node row read under the ten-name header restores what `NodeRestored` names |
| CsvRoundTrip.NodeRoundTripUnder | src/sheets/import.ts:56-67 | under any header shaped like the ten-name header, every exported node comes back in order |
| CsvRoundTrip.NodeRoundTrip | src/sheets/export.ts:25-45 | under a header that names all ten values, the import gives back one node per node, in order, with its id, type, label, formula, colour, integral sizes and integral position |
| CsvRoundTrip.AsWrittenHeadersShape | src/sheets/schema.ts:2 | the shipped node headers are the seven names in their order |
| CsvRoundTrip.WordNotNumber | src/sheets/import.ts:64 | a non-empty lower-case word, such as a shape name, reads as NaN |
| CsvRoundTrip.NodeRoundTripAsWrittenUnder | src/sheets/import.ts:53-67 | under the seven-name header, every exported node comes back with x = NaN and with its formula label as its colour |
| CsvRoundTrip.AsWrittenOfTexts | src/sheets/import.ts:61-64 | under the seven-name header, `x` reads the sixth cell (the shape) and `color` the fourth (the formula) |
| CsvRoundTrip.AsWrittenRowMisread | src/sheets/import.ts:61-64 | each exported row read under the seven-name header has x = NaN and takes its colour from the formula label |
| CsvRoundTrip.NodeRoundTripAsWritten | src/sheets/schema.ts:2 | exporting nodes and importing them with the shipped headers loses every x position |
| Color.SkipWhite | src/utils/color.ts:7-9 | the index of the first character that `parseInt` does not skip as white space |
| Color.HexSpan | src/utils/color.ts:7-9 | the end of the run of hexadecimal digits that `parseInt(_, 16)` reads |
| Color.ParsePair | src/utils/color.ts:7-9 | `parseInt(_, 16)` of two characters is NaN or an integer between -15 and 255 |
| Color.ParsePairIsParseHex | src/utils/color.ts:7-15 | that case analysis agrees with the general `parseInt(_, 16)` on every two-character text |
| Color.ParseHexSlice | src/utils/color.ts:13-15 | `parseInt(h.slice(k, k + 2), 16)` is the pair at positions k and k + 1 |
| Color.Decode | src/utils/color.ts:6-18 | a code decodes exactly when it has three characters or six and more (characters, not UTF-16 code units) |
| Color.DecodeLong | src/utils/color.ts:12-16 | a code of six or more characters reads its first three slices of two and ignores the rest |
| Color.DecodeShort | src/utils/color.ts:6-10 | a code of three characters reads each character written twice |
| Color.Channels | src/utils/color.ts:3-18 | an empty text falls back to black; otherwise the trimmed code, less one leading `#`, decodes when it has 3 or at least 6 characters |
| Color.ChannelsHash | src/utils/color.ts:4-5 | one leading `#` makes no difference to a code of hexadecimal digits |
| Color.HexToRgba | src/utils/color.ts:2-19 | the black fallback when no channels decode, otherwise the `rgba(r, g, b, alpha)` text of the channels |
| Color.ParsePairDigits | src/utils/color.ts:13-15 | two hexadecimal digits are read as the byte they write |
| Color.ParsePairDoubled | src/utils/color.ts:7-9 | a digit written twice is read as 17 times its value |
| Color.DecodeSix | src/utils/color.ts:12-16 | six digits followed by any tail give the three bytes of the six digits |
| Color.CodeOfSix | src/utils/color.ts:4-5 | six digits and a tail without blanks are their own code, with or without `#` |
| Color.ChannelsSix | src/utils/color.ts:2-16 | `#RRGGBB` and `RRGGBB`, with any tail without blanks, give the three bytes |
| Color.DecodeThree | src/utils/color.ts:6-10 | three digits give 17 times each digit |
| Color.ChannelsThree | src/utils/color.ts:2-10 | `#RGB` and `RGB` give 17 times each digit |
| Color.CodeOfHex | src/utils/color.ts:4-5 | a code of hexadecimal digits survives trimming and the removal of its `#` |
| Color.HexByte | src/utils/color.ts:13-15 | two lower-case hexadecimal digits that read back as the byte |
| Color.ChannelsOfToHex | src/utils/color.ts:2-16 | decoding a colour written as `#rrggbb` gives back its three bytes |
| Color.HexToRgbaOfToHex | src/utils/color.ts:2-16 | the `rgba` text of a colour written as `#rrggbb` carries its three bytes |
| Color.ResolveNodeColor | src/utils/color.ts:21-25 | the result is the semantic colour or `data.color`; it is a custom colour other than the semantic one exactly when unlocked and `data.color` is truthy and differs |
| Color.ResolvedColorTruthy | src/utils/color.ts:21-25 | with a non-empty semantic colour the resolved colour is never falsy |
| Color.LockedIgnoresData | src/utils/color.ts:23 | while locked, the node data has no effect |
| TemplateInsert.FindTemplate | src/diagram/DiagramCanvas.tsx:121-122 | nothing exactly when no template has the id, otherwise the first template that has it |
| TemplateInsert.IdMapOfKeys | src/diagram/DiagramCanvas.tsx:144-147 | `idMap` has a key for exactly the ids of the template nodes |
| TemplateInsert.PlaceNodes | src/diagram/DiagramCanvas.tsx:144-151 | the loop builds exactly the placed copies and the id map from each old id to its new one, a later node winning |
| TemplateInsert.InsertTemplate | src/diagram/DiagramCanvas.tsx:116-160 | without a template id, with an id no template has, or without a canvas, nothing changes; otherwise the placed nodes and the redirected edges are appended to the store's lists |
| TemplateInsert.PlacementKeepsOffsets | src/diagram/DiagramCanvas.tsx:148-149 | any two copies keep the template's offset between them |
| TemplateInsert.MinMaxShift | src/diagram/DiagramCanvas.tsx:137-141 | moving every value by d moves the minimum and the maximum by d |
| TemplateInsert.PlacementCentered | src/diagram/DiagramCanvas.tsx:126-151 | the middle of the placed nodes' bounding box is the origin |
| TemplateInsert.PlacementIdsDistinct | src/diagram/DiagramCanvas.tsx:145-151 | the copies are all selected and their ids differ pairwise |
| TemplateInsert.PlacementIdsFresh | src/diagram/DiagramCanvas.tsx:146 | when no existing id starts with `t_${now}_`, no copy's id is already taken |
| TemplateInsert.IdMapOfAt | src/diagram/DiagramCanvas.tsx:144-147 | with distinct template ids, `idMap` sends node k's id to the id of its copy |
| TemplateInsert.PlacementId | src/diagram/DiagramCanvas.tsx:146-150 | copy k carries the id drawn for index k |
| TemplateInsert.EdgesRedirected | src/diagram/DiagramCanvas.tsx:152-157 | with distinct template node ids, an edge end naming template node k is sent to the id of node k's copy |
| TemplateInsert.EdgesKeepForeignEnds | src/diagram/DiagramCanvas.tsx:152-157 | an edge end naming no template node is kept as it is |
| PropertiesPanel.DisplayWidth | src/components/PropertiesPanel.tsx:27 | the shown width lies between 100 and 400; it is NaN exactly when `width ?? 140` is not a number |
| PropertiesPanel.DisplayWidthOfNumber | src/components/PropertiesPanel.tsx:74 | a numeric width in [100, 400] is shown as it is, a smaller one as 100, a larger one as 400 |
| PropertiesPanel.DisplayWidthDefaults | src/components/PropertiesPanel.tsx:74 | a missing or `null` width shows as 140 |
| PropertiesPanel.DisplayWidthIdempotent | src/components/PropertiesPanel.tsx:74-84 | writing the shown width back shows the same width |
| PropertiesPanel.PrefixLabel | src/components/PropertiesPanel.tsx:41-42 | the new label is a string that starts with the prefix |
| PropertiesPanel.Prefixed | src/components/PropertiesPanel.tsx:40-43 | the steps of the prefix loop keep the number of nodes |
| PropertiesPanel.PrefixedStep | src/components/PropertiesPanel.tsx:40-43 | step k changes only the node whose id is that of the k-th selection, and only its label |
| PropertiesPanel.PrefixedId | src/components/PropertiesPanel.tsx:40-43 | no step changes an id or moves a node |
| PropertiesPanel.PrefixedUntouched | src/components/PropertiesPanel.tsx:40-43 | a node whose id no applied selection has is unchanged |
| PropertiesPanel.PrefixedHit | src/components/PropertiesPanel.tsx:40-43 | with distinct selected ids, the node of selection i ends with the label built from selection i's label and position i, everything else of it unchanged |
| PropertiesPanel.PrefixedSkip | src/components/PropertiesPanel.tsx:40-43 | a step for another id leaves a node as it was |
| PropertiesPanel.PrefixedLast | src/components/PropertiesPanel.tsx:40-43 | the step for a node's own id sets its label when no earlier step touched it |
| PropertiesPanel.ApplyPrefix | src/components/PropertiesPanel.tsx:39-44 | the loop over the selection leaves the nodes as the prefix steps describe and the edges and grid settings as they were |
| PropertiesPanel.EdgeColored | src/components/PropertiesPanel.tsx:120-127 | the stroke becomes the colour, the arrow is recoloured exactly when the edge had one and removed otherwise, every other style key and field unchanged |
| PropertiesPanel.EdgeArrow | src/components/PropertiesPanel.tsx:128-134 | the edge has an arrow exactly when the box is ticked, coloured by the stroke or `#111827` when the stroke is unset; nothing else changes |
| PropertiesPanel.EdgeResidual | src/components/PropertiesPanel.tsx:135-143 | the type, `data.residual` and the dash pattern follow the checkbox; nothing else changes |
| PropertiesPanel.DropDash | src/components/PropertiesPanel.tsx:152 | the dash pattern is gone or falsy afterwards, every other style key kept |
| PropertiesPanel.EdgeTypeChanged | src/components/PropertiesPanel.tsx:145-164 | `default` removes the type, `simpleArrowEdge` sets it, both drop the dash pattern and keep the data; any other value leaves the edge unchanged |
| PropertiesPanel.ResidualShownAsExported | src/components/PropertiesPanel.tsx:118 | the residual checkbox is ticked exactly when the export writes true in the `residual` column |
| PropertiesPanel.ColoredExport | src/components/PropertiesPanel.tsx:120-127 | after the colour editor the export writes the new colour and the same arrow flag |
| PropertiesPanel.ArrowExport | src/components/PropertiesPanel.tsx:128-134 | the arrow checkbox decides the exported `arrow` column |
| PropertiesPanel.ResidualExport | src/components/PropertiesPanel.tsx:135-143 | the residual checkbox decides the exported `residual` column, both ways |
| PropertiesPanel.ResidualTypeIsResidualToggle | src/components/PropertiesPanel.tsx:157-161 | choosing the `residualEdge` type is the same as ticking the residual checkbox |
| PropertiesPanel.TypeChangeKeepsResidualFlag | src/components/PropertiesPanel.tsx:149-156 | choosing `default` or `simpleArrowEdge` keeps `data.residual`, so such an edge still shows and exports as residual |
| PropertiesPanel.ColoredIdempotent | src/components/PropertiesPanel.tsx:120-127 | colouring twice with the same colour equals colouring once |
| PropertiesPanel.ArrowIdempotent | src/components/PropertiesPanel.tsx:128-134 | setting the arrow twice equals setting it once |
| PropertiesPanel.ResidualIdempotent | src/components/PropertiesPanel.tsx:135-143 | setting the residual flag twice equals setting it once |
| PropertiesPanel.TypeChangedIdempotent | src/components/PropertiesPanel.tsx:145-164 | choosing the same type twice equals choosing it once |
| PropertiesPanel.PatchedAll | src/components/PropertiesPanel.tsx:29-36 | the steps of a `forEach` of `updateNodeData` calls with one patch keep the number of nodes |
| PropertiesPanel.PatchedAllAt | src/components/PropertiesPanel.tsx:29-36 | a node that some selection names gets the patch merged over its data, every other node is unchanged, duplicates in the selection included |
| PropertiesPanel.PatchAll | src/components/PropertiesPanel.tsx:29-36 | the loop leaves the nodes as the patch steps describe and the edges and grid settings as they were |
| PropertiesPanel.ColorAll | src/components/PropertiesPanel.tsx:29-32 | every selected node's data gets `color` set to the picked value, nothing else changes |
| PropertiesPanel.WidthAll | src/components/PropertiesPanel.tsx:33-36 | every selected node's data gets `width` set to `Number(value)`, NaN for a non-number |
| PropertiesPanel.WidthPatchShown | src/components/PropertiesPanel.tsx:27-34 | a numeric width written into the data shows clamped to [100, 400] |
| PropertiesPanel.WidthAllShown | src/components/PropertiesPanel.tsx:27-36 | after setting every width to n, each selected node shows n clamped to [100, 400] |

## Left out

- ComponentSchemas.GetSchemaField: looks up own keys of the registry and of a schema only; for a type or parameter name inherited from `Object.prototype` (`constructor`, `toString`, `__proto__`, ...) the source returns the inherited member (a function, or `Object.prototype` itself), which the model does not represent, so the contract's `None` for such names is not what the source returns.
- NodeSchemas.GetNodeSchema: reads own keys of `NodeSchemas` only; for a node type inherited from `Object.prototype` the source returns the inherited member as the schema, where the model returns nothing.
- DesignTokens.GetNodeTypeFromKey: reads own keys of `typeMap` only; for a key inherited from `Object.prototype` the source returns the inherited function, not `box`.
- DesignTokens.GetInitialNodeData: for a key inherited from `Object.prototype` the source reads sizes of the inherited member (all `undefined`), where the model uses the `FC_LAYER` entry.
- DesignTokens.ValidateNodeDimensions: for a key inherited from `Object.prototype` the source returns NaN dimensions, where the model returns `None` as for any other unknown key.
- Grouping.ParentIn: reads own keys of the index only, and so does `AbsPos` through it; a `parentNode` inherited from `Object.prototype` that no node has as id makes the source read `position` of the inherited member and throw, where the model stops the walk as at a missing parent.
- ComponentSchemas.ValidateInheritedTypePassesThrough: the source would throw for the parameter names `caller` and `arguments` under a type name that reads a built-in function; the model passes the value through.
- Reading files (`readText`), the CSV download link (`downloadCsv`, `Blob`), the export timestamps, toasts and all rendering are I/O or presentation; the import starts from the texts of the files it is given.
- React Flow's `applyNodeChanges`/`applyEdgeChanges` (`onNodesChange`/`onEdgesChange`) and `screenToFlowPosition` are library code; the template drop origin is an input of `TemplateInsert.InsertTemplate`.
- `Date.now()` and `Math.random()` are parameters: `now`, and `rand` as the sequence of rounded draws in call order; collisions between ids from equal clock readings are outside the model.
- Numbers are reals: IEEE rounding in coordinates, `Math.min`/`Math.max` and distribution steps is not modelled, and `Infinity` is not a number `Js.ParseNumber` reads (it gives NaN).
- Js.NumToString: prints every integer as its full digit text, while JavaScript switches to exponent form from a magnitude of 1e21 (`String(1e21)` is `1e+21`) and for non-integers below 1e-6 in magnitude (`1e-7`), which the model does not, so CSV cells for such numbers differ from the source's (for integers, reading the cell back with `Number` still gives the same value). It prints any other number as its decimal expansion cut after 20 fractional digits, not the shortest round-tripping form of an IEEE double.
- Js.Lower: lower-cases ASCII letters only; the header names and flags it is applied to are ASCII.
- Color.Decode: counts and slices the code in characters, where `h.length` and `slice` at src/utils/color.ts:6-17 count UTF-16 code units; a code holding a character outside the Basic Multilingual Plane is decoded differently (`"\u{1F600}a"` has length 3 in the source and decodes to `NaN, NaN, 170`, but 2 characters here and no channels).
- Color.Channels: inherits the same character-versus-code-unit difference in its 3 / at-least-6 length test.
- Color.HexToRgba: inherits the same difference through `Channels`, so such a colour text gives a different `rgba(...)` text or the black fallback where the source does not.
- Color.HexToRgba: the alpha is printed with `Js.NumToString`, so a non-integer alpha has the same approximation.
- Grouping.AbsPos: walks at most `fuel` parents; the source walks without bound and never returns on a cycle, so `Grouping.SelectedBounds`, `Grouping.Grouped` and `Grouping.CreateGroupNodeFromSelection` require that every node they move has a finite parent chain (`CandidatesResolve`), and the preservation of absolute positions requires it of every node and a group id no node uses as id or parent.
- Alignment.Distributed: `Object.values` is taken to list keys in first-insertion order; JavaScript lists integer-like keys first in numeric order, which is not modelled, so `Alignment.DistributeSpec` requires distinct ids and assumes no id is an array index.
- CsvImport.BuildDiagram: takes the node header list as a parameter `hs`, so the shipped seven-name list and the corrected ten-name list are both modelled.
- CsvRoundTrip.CsvInvertsExport: holds for cells without a carriage return (CR is no quoting trigger, so such a cell is split) and for tables without a row that is one empty cell (such rows are dropped).
- CsvRoundTrip.NodeRoundTrip: covers positions and sizes that are integers, whose `String(...)` text the model prints exactly.
- `throw` in the source (`validateNodeDimensions` on an unknown key, `buildDiagramFromCsv` without a header row) is modelled as a `None` result.
- The drag-and-drop handler `onDrop` of `src/diagram/DiagramCanvas.tsx` and the rest of that component are UI code.
- In `src/components/PropertiesPanel.tsx`, the single-node handlers `onLabelChange`, `onColorChange` and `onWidthChange` are single calls of `DiagramState.DiagramStore.UpdateNodeData`, whose contract covers them; the `filter`/`find` that pick the selection are inputs (`sel`).
- The store types in `src/diagram/DiagramState.ts` have no undo/redo, ungroup or colour lock; no member models them.

## Findings

| source | as written | input that shows it | evidently intended | confidence | as-written member | corrected member |
|---|---|---|---|---|---|---|
| src/ui/nodeSchemas.ts:150-165 | `validateField`'s own type-to-key map leaves out `embeddingNode`, which `getNodeSchema` maps to `EMBEDDING` (line 123) | node type `embeddingNode`, field `vocabSize` (or any other), value `-5`: passed through unchanged | the panel validates every field it shows, with the key `getNodeSchema` used | not executed | NodeSchemas.ValidateFieldAsWritten | NodeSchemas.ValidateField |
| src/sheets/schema.ts:2 | `NODE_HEADERS` names 7 columns while `exportNodesCsv` writes 10 values per row (src/sheets/export.ts:30-41) | any exported node: on import, `color` reads the 4th cell (the formula) and `x` the 6th (the shape, so NaN) | a header naming all ten values in row order, so node export and import round-trip | not executed | CsvRoundTrip.NodeRoundTripAsWritten | CsvRoundTrip.NodeRoundTrip |
