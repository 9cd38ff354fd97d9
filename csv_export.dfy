/**
 * The CSV export of `src/sheets/export.ts`: cells are written with
 * `String(v)`, quoted when they hold a quote, a comma or a line feed; cells
 * are joined by commas and rows by line feeds. One header row precedes the
 * node rows (ten values) and the edge rows (seven values). Building the
 * download link is left out.
 */
module CsvExport {
  import opened Js
  import opened Graph
  import opened SheetsSchema
  import opened SheetsMapping

  /** `/[",\n]/.test(s)`. */
  predicate NeedsQuotes(s: string)
  {
    exists i :: 0 <= i < |s| && (s[i] == '"' || s[i] == ',' || s[i] == '\n')
  }

  /** `s.replace(/"/g, '""')`. */
  function Doubled(s: string): string
  {
    if s == [] then [] else (if s[0] == '"' then "\"\"" else [s[0]]) + Doubled(s[1..])
  }

  function Quote(s: string): string
  {
    if NeedsQuotes(s) then "\"" + Doubled(s) + "\"" else s
  }

  /** `esc`: null and undefined become the empty cell, everything else its `String` text. */
  function Esc(v: Value): string
  {
    if v.Null? || v.Undef? then "" else Quote(ToStr(v))
  }

  /** `parts.join(sep)`. */
  function Join(parts: seq<string>, sep: char): string
  {
    if |parts| == 0 then ""
    else if |parts| == 1 then parts[0]
    else parts[0] + [sep] + Join(parts[1..], sep)
  }

  function EscRow(r: seq<Value>): (out: seq<string>)
    ensures |out| == |r| && forall j :: 0 <= j < |r| ==> out[j] == Esc(r[j])
  {
    seq(|r|, j requires 0 <= j < |r| => Esc(r[j]))
  }

  function Lines(rows: seq<seq<Value>>): (out: seq<string>)
    ensures |out| == |rows| && forall i :: 0 <= i < |rows| ==> out[i] == Join(EscRow(rows[i]), ',')
  {
    seq(|rows|, i requires 0 <= i < |rows| => Join(EscRow(rows[i]), ','))
  }

  /** `toCsv`. */
  function ToCsv(rows: seq<seq<Value>>): string
  {
    Join(Lines(rows), '\n')
  }

  function Strs(hs: seq<string>): (r: seq<Value>)
    ensures |r| == |hs| && forall k :: 0 <= k < |hs| ==> r[k] == Str(hs[k])
  {
    seq(|hs|, k requires 0 <= k < |hs| => Str(hs[k]))
  }

  /** The colour written for a node: its own colour, else the token of its mapping. */
  function ExportColor(n: Node): (r: Value)
    ensures !(Get(n.data, "color").Null? || Get(n.data, "color").Undef?) ==> r == Get(n.data, "color")
    ensures (Get(n.data, "color").Null? || Get(n.data, "color").Undef?) ==>
      r == Str("token:" + MapNodeToExport(n).colorToken)
  {
    Coalesce(Get(n.data, "color"), Str("token:" + MapNodeToExport(n).colorToken))
  }

  /** The values of one node row, one per column of `NodeHeaders`. */
  function NodeRow(n: Node): (r: seq<Value>)
    ensures |r| == |NodeHeaders| && |r| > |NodeHeadersAsWritten|
    ensures r[0] == Str(n.id) && r[1] == Str(TypeName(n))
    ensures r[4] == ExportColor(n) && r[5] == Str(ShapeName(MapNodeToExport(n).shape))
    ensures r[8] == Num(n.position.x) && r[9] == Num(n.position.y)
  {
    [ Str(n.id), Str(TypeName(n)),
      Coalesce(Get(n.data, "label"), Str("")), Coalesce(Get(n.data, "formulaLabel"), Str("")),
      ExportColor(n), Str(ShapeName(MapNodeToExport(n).shape)),
      Coalesce(Get(n.data, "width"), Str("")), Coalesce(Get(n.data, "height"), Str("")),
      Num(n.position.x), Num(n.position.y) ]
  }

  function NodeRows(nodes: seq<Node>): (r: seq<seq<Value>>)
    ensures |r| == |nodes| && forall i :: 0 <= i < |nodes| ==> r[i] == NodeRow(nodes[i])
  {
    seq(|nodes|, i requires 0 <= i < |nodes| => NodeRow(nodes[i]))
  }

  /** The nodes table under a given header row. */
  function NodesCsvUnder(header: seq<string>, nodes: seq<Node>): string
  {
    ToCsv([Strs(header)] + NodeRows(nodes))
  }

  /** `exportNodesCsv` as shipped: seven header names over ten-value rows. */
  function ExportNodesCsvAsWritten(nodes: seq<Node>): string
  {
    NodesCsvUnder(NodeHeadersAsWritten, nodes)
  }

  /** `exportNodesCsv` with a header that names every value of a row. */
  function ExportNodesCsv(nodes: seq<Node>): string
  {
    NodesCsvUnder(NodeHeaders, nodes)
  }

  /** `Boolean(e.data?.residual || e.type === 'residualEdge')`. */
  predicate ExportsResidual(e: Edge)
  {
    Truthy(Get(e.data, "residual")) || e.edgeType == Some("residualEdge")
  }

  /** `e.type || 'default'`. */
  function EdgeTypeName(e: Edge): (r: string)
    ensures r != ""
    ensures e.edgeType.Some? && e.edgeType.value != "" ==> r == e.edgeType.value
  {
    if e.edgeType.Some? && e.edgeType.value != "" then e.edgeType.value else "default"
  }

  /** The values of one edge row, one per column of `EdgeHeaders`. */
  function EdgeRow(e: Edge): (r: seq<Value>)
    ensures |r| == |EdgeHeaders|
    ensures r[0] == Str(e.id) && r[1] == Str(e.source) && r[2] == Str(e.target)
    ensures r[3] == Str(EdgeTypeName(e)) && r[4] == Coalesce(Get(e.style, "stroke"), Str(""))
    ensures r[5] == Bool(e.markerEnd.Some?) && r[6] == Bool(ExportsResidual(e))
  {
    [ Str(e.id), Str(e.source), Str(e.target), Str(EdgeTypeName(e)),
      Coalesce(Get(e.style, "stroke"), Str("")),
      Bool(e.markerEnd.Some?), Bool(ExportsResidual(e)) ]
  }

  function EdgeRows(edges: seq<Edge>): (r: seq<seq<Value>>)
    ensures |r| == |edges| && forall i :: 0 <= i < |edges| ==> r[i] == EdgeRow(edges[i])
  {
    seq(|edges|, i requires 0 <= i < |edges| => EdgeRow(edges[i]))
  }

  /** The edges table under a given header row. */
  function EdgesCsvUnder(header: seq<string>, edges: seq<Edge>): string
  {
    ToCsv([Strs(header)] + EdgeRows(edges))
  }

  /** `exportEdgesCsv`. */
  function ExportEdgesCsv(edges: seq<Edge>): string
  {
    EdgesCsvUnder(EdgeHeaders, edges)
  }
}
