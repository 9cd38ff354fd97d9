/**
 * The CSV import of `src/sheets/import.ts`: a quote-aware scanner that
 * splits text into rows of cells, the column lookup by header name, the
 * construction of nodes and edges from the rows, and the choice of the
 * nodes and edges tables among several files by their first line.
 * Reading the files is left out: the import starts from their texts.
 */
module CsvImport {
  import opened Js
  import opened Graph
  import opened SheetsSchema

  type Table = seq<seq<string>>

  /** `cur.length > 1 || cur[0] !== ''`: a row is kept unless it is one empty cell. */
  predicate KeepRow(row: seq<string>)
  {
    |row| != 1 || row[0] != ""
  }

  function Flush(rows: Table, row: seq<string>): Table
  {
    if KeepRow(row) then rows + [row] else rows
  }

  /** The scanner's state between two characters of `parseCsv`. */
  datatype Scanner = Scanner(inQuotes: bool, cell: string, cur: seq<string>, rows: Table)

  /** The character after the first one, if the text has one. */
  function Lookahead(rest: string): (r: Option<char>)
    ensures r.Some? <==> |rest| > 1
    ensures r.Some? ==> r.value == rest[1]
  {
    if |rest| > 1 then Some(rest[1]) else None
  }

  /** How many characters one step consumes: two for `""` inside quotes and for CR LF outside. */
  function Width(ch: char, next: Option<char>, inQuotes: bool): (w: nat)
    ensures 1 <= w <= 2 && (w == 2 <==> next.Some? && (if inQuotes then ch == '"' && next.value == '"' else ch == '\r' && next.value == '\n'))
  {
    if inQuotes && ch == '"' && next == Some('"') then 2
    else if !inQuotes && ch == '\r' && next == Some('\n') then 2
    else 1
  }

  /**
   * One step of the scanner on the character `ch`, `next` being the one
   * after it: inside quotes a doubled quote adds one quote to the cell and a
   * single quote closes the quotes; outside, a quote opens them, a comma ends
   * the cell and a line break ends the row. Other characters join the cell.
   */
  function Step(ch: char, next: Option<char>, st: Scanner): Scanner
  {
    if st.inQuotes then
      if ch == '"' then
        if next == Some('"') then st.(cell := st.cell + ['"']) else st.(inQuotes := false)
      else st.(cell := st.cell + [ch])
    else if ch == '"' then st.(inQuotes := true)
    else if ch == ',' then st.(cell := "", cur := st.cur + [st.cell])
    else if ch == '\n' || ch == '\r' then Scanner(false, "", [], Flush(st.rows, st.cur + [st.cell]))
    else st.(cell := st.cell + [ch])
  }

  /**
   * What the scanner of `parseCsv` ends with when `rest` is the text still
   * to read, `inQuotes` the quote state, `cell` the cell being read, `cur`
   * the finished cells of the current row and `rows` the finished rows.
   */
  function Scan(rest: string, inQuotes: bool, cell: string, cur: seq<string>, rows: Table): Table
    decreases |rest|
  {
    if rest == [] then Flush(rows, cur + [cell])
    else
      var next := Lookahead(rest);
      var st := Step(rest[0], next, Scanner(inQuotes, cell, cur, rows));
      if Width(rest[0], next, inQuotes) == 2 then Scan(rest[2..], st.inQuotes, st.cell, st.cur, st.rows)
      else Scan(rest[1..], st.inQuotes, st.cell, st.cur, st.rows)
  }

  /** Rows only grow, and every row the scanner adds has a cell and is not a blank line. */
  lemma {:induction false} ScanGrows(rest: string, q: bool, cell: string, cur: seq<string>, rows: Table)
    ensures rows <= Scan(rest, q, cell, cur, rows)
    ensures forall k :: |rows| <= k < |Scan(rest, q, cell, cur, rows)| ==>
      |Scan(rest, q, cell, cur, rows)[k]| >= 1 && KeepRow(Scan(rest, q, cell, cur, rows)[k])
    decreases |rest|
  {
    if rest != [] {
      var next := Lookahead(rest);
      var st := Step(rest[0], next, Scanner(q, cell, cur, rows));
      var r := Scan(rest, q, cell, cur, rows);
      if Width(rest[0], next, q) == 2 {
        ScanGrows(rest[2..], st.inQuotes, st.cell, st.cur, st.rows);
      } else {
        ScanGrows(rest[1..], st.inQuotes, st.cell, st.cur, st.rows);
      }
      assert rows <= st.rows;
      forall k | |rows| <= k < |r| ensures |r[k]| >= 1 && KeepRow(r[k]) {
        if k >= |st.rows| {
        } else {
          assert st.rows == rows + [cur + [cell]];
        }
      }
    }
  }

  /** The rows `parseCsv` returns for `text`. */
  function CsvRows(text: string): Table
  {
    Scan(text, false, "", [], [])
  }

  /** `parseCsv`. */
  method ParseCsv(text: string) returns (rows: Table)
    ensures rows == CsvRows(text)
  {
    rows := [];
    var i := 0;
    var cur: seq<string> := [];
    var cell := "";
    var inQuotes := false;
    while i < |text|
      invariant 0 <= i <= |text|
      invariant Scan(text[i..], inQuotes, cell, cur, rows) == CsvRows(text)
      decreases |text| - i
    {
      var ch := text[i];
      assert text[i..][0] == ch;
      if inQuotes {
        if ch == '"' {
          if i + 1 < |text| && text[i + 1] == '"' {
            assert text[i..][2..] == text[i + 2..];
            cell := cell + ['"'];
            i := i + 2;
          } else {
            assert text[i..][1..] == text[i + 1..];
            inQuotes := false;
            i := i + 1;
          }
        } else {
          assert text[i..][1..] == text[i + 1..];
          cell := cell + [ch];
          i := i + 1;
        }
      } else if ch == '"' {
        assert text[i..][1..] == text[i + 1..];
        inQuotes := true;
        i := i + 1;
      } else if ch == ',' {
        assert text[i..][1..] == text[i + 1..];
        cur := cur + [cell];
        cell := "";
        i := i + 1;
      } else if ch == '\n' || ch == '\r' {
        if ch == '\r' && i + 1 < |text| && text[i + 1] == '\n' {
          assert text[i..][2..] == text[i + 2..];
          i := i + 1;
        } else {
          assert text[i..][1..] == text[i + 1..];
        }
        cur := cur + [cell];
        cell := "";
        if KeepRow(cur) {
          rows := rows + [cur];
        }
        cur := [];
        i := i + 1;
      } else {
        assert text[i..][1..] == text[i + 1..];
        cell := cell + [ch];
        i := i + 1;
      }
    }
    cur := cur + [cell];
    if KeepRow(cur) {
      rows := rows + [cur];
    }
  }

  /** An opening quote that is never closed takes the rest of the text into the cell. */
  lemma {:induction false} UnterminatedQuote(s: string, cell: string, cur: seq<string>, rows: Table)
    requires forall i :: 0 <= i < |s| ==> s[i] != '"'
    ensures Scan(s, true, cell, cur, rows) == Flush(rows, cur + [cell + s])
    decreases |s|
  {
    if s == [] {
      assert cell + s == cell;
    } else {
      UnterminatedQuote(s[1..], cell + [s[0]], cur, rows);
      assert cell + [s[0]] + s[1..] == cell + s;
    }
  }

  /** Once a row has begun or been kept, the scan ends with at least one row. */
  lemma {:induction false} ScanStarted(rest: string, q: bool, cell: string, cur: seq<string>, rows: Table)
    requires rows != [] || cell != "" || cur != []
    ensures Scan(rest, q, cell, cur, rows) != []
    decreases |rest|
  {
    if rest != [] {
      var next := Lookahead(rest);
      var st := Step(rest[0], next, Scanner(q, cell, cur, rows));
      ScanStarted(rest[Width(rest[0], next, q)..], st.inQuotes, st.cell, st.cur, st.rows);
    }
  }

  /** A character other than a quote or a line break at position k yields a row. */
  lemma {:induction false} ScanReaches(rest: string, q: bool, cell: string, cur: seq<string>, rows: Table, k: nat)
    requires k < |rest| && rest[k] != '"' && rest[k] != '\n' && rest[k] != '\r'
    ensures Scan(rest, q, cell, cur, rows) != []
    decreases k
  {
    var next := Lookahead(rest);
    var st := Step(rest[0], next, Scanner(q, cell, cur, rows));
    var w := Width(rest[0], next, q);
    if k == 0 {
      ScanStarted(rest[w..], st.inQuotes, st.cell, st.cur, st.rows);
    } else if w == 2 && k == 1 {
      assert false;
    } else {
      ScanReaches(rest[w..], st.inQuotes, st.cell, st.cur, st.rows, k - w);
    }
  }

  /** Text holding any character but quotes and line breaks parses to at least one row. */
  lemma CsvRowsNonEmpty(text: string, k: nat)
    requires k < |text| && text[k] != '"' && text[k] != '\n' && text[k] != '\r'
    ensures CsvRows(text) != []
  {
    ScanReaches(text, false, "", [], [], k);
  }

  // ---------------------------------------------------------------------
  // Cells and columns
  // ---------------------------------------------------------------------

  /** `String(v ?? '').trim().toLowerCase()` is one of `true`, `1`, `yes`. */
  predicate ToBool(v: Value)
  {
    var s := Lower(Trim(ToStr(Coalesce(v, Str("")))));
    s == "true" || s == "1" || s == "yes"
  }

  /** The text `String(b)` reads back as `b`. */
  lemma ToBoolOfBool(b: bool)
    ensures ToBool(Str(ToStr(Bool(b)))) == b
  {
    var s := ToStr(Bool(b));
    TrimNoWhite(s);
    if b {
      assert Lower(s) == "true";
    } else {
      assert Lower(s)[0] == 'f';
    }
  }

  /** `header.findIndex((x) => x.trim().toLowerCase() === h)`. */
  function FindHeader(header: seq<string>, h: string): (r: int)
    ensures -1 <= r < |header|
    ensures r >= 0 ==> Lower(Trim(header[r])) == h
    ensures forall j :: 0 <= j < |header| && (r < 0 || j < r) ==> Lower(Trim(header[j])) != h
  {
    if header == [] then -1
    else if Lower(Trim(header[0])) == h then 0
    else
      var k := FindHeader(header[1..], h);
      if k < 0 then -1 else k + 1
  }

  /**
   * `Object.fromEntries(HEADERS.map(...))[name]`: the column of a listed
   * header name, -1 when the header row lacks it; None (undefined) for a
   * name that is not listed.
   */
  function Column(hs: seq<string>, header: seq<string>, name: string): (r: Option<int>)
    ensures r.Some? <==> name in hs
  {
    if name in hs then Some(FindHeader(header, name)) else None
  }

  /** `r[col]`: undefined for an undefined or negative column and past the end of the row. */
  function CellAt(r: seq<string>, col: Option<int>): (c: Option<string>)
    ensures c.Some? <==> col.Some? && 0 <= col.value < |r|
    ensures c.Some? ==> c.value == r[col.value]
  {
    if col.Some? && 0 <= col.value < |r| then Some(r[col.value]) else None
  }

  /** A cell as a truthy string: present and not empty, else None. */
  function Filled(o: Option<string>): (r: Option<string>)
    ensures r.Some? <==> o.Some? && o.value != ""
    ensures r.Some? ==> r == o
  {
    if o.Some? && o.value != "" then o else None
  }

  function AsValue(o: Option<string>): Value
  {
    if o.Some? then Str(o.value) else Undef
  }

  /** `cell ? Number(cell) : d`. */
  function NumberCell(o: Option<string>, d: Value): (v: Value)
    ensures Filled(o).Some? ==> ToNumber(v) == ParseNumber(o.value)
    ensures Filled(o).None? ==> v == d
  {
    if Filled(o).Some? then FromNumber(ParseNumber(o.value)) else d
  }

  /** `cell ? toBool(cell) : false`. */
  predicate Flag(o: Option<string>)
  {
    Filled(o).Some? && ToBool(Str(o.value))
  }

  // ---------------------------------------------------------------------
  // Nodes and edges from rows
  // ---------------------------------------------------------------------

  /** An imported node: `id` is undefined when the table has no id column. */
  datatype CsvNode = CsvNode(id: Option<string>, nodeType: string, x: Value, y: Value, data: NodeFields)

  datatype CsvEdge = CsvEdge(
    id: Option<string>,
    source: Option<string>,
    target: Option<string>,
    edgeType: Option<string>,
    style: map<string, Value>,
    markerEnd: Option<Marker>,
    data: map<string, Value>)

  datatype CsvDiagram = CsvDiagram(nodes: seq<CsvNode>, edges: seq<CsvEdge>)

  function NodeCell(hs: seq<string>, header: seq<string>, r: seq<string>, name: string): Option<string>
  {
    CellAt(r, Column(hs, header, name))
  }

  /** The cell of a column that is read only when the header names it. */
  function OptionalCell(hs: seq<string>, header: seq<string>, r: seq<string>, name: string): Option<string>
  {
    var col := Column(hs, header, name);
    if col.Some? && col.value >= 0 then CellAt(r, col) else None
  }

  /** The `data` record of an imported node. */
  datatype NodeFields = NodeFields(labelText: string, formulaLabel: Value, color: Value, width: Value, height: Value)

  function NodeData(hs: seq<string>, header: seq<string>, r: seq<string>): (d: NodeFields)
    ensures d.color == Undef || (d.color.Str? && d.color.s != "")
    ensures "formula" !in hs ==> d.formulaLabel == Undef
    ensures "height" !in hs ==> d.height == Undef
  {
    var labelCell := Filled(NodeCell(hs, header, r, "label"));
    var formulaCol := Column(hs, header, "formula");
    var formula := if formulaCol.Some? && formulaCol.value >= 0 then AsValue(CellAt(r, formulaCol)) else Str("");
    NodeFields(
      if labelCell.Some? then labelCell.value else "",
      Or(formula, Undef),
      AsValue(Filled(NodeCell(hs, header, r, "color"))),
      NumberCell(NodeCell(hs, header, r, "width"), Undef),
      NumberCell(OptionalCell(hs, header, r, "height"), Undef))
  }

  /** The node built from one data row of the nodes table under the header list `hs`. */
  function NodeFromRow(hs: seq<string>, header: seq<string>, r: seq<string>): (n: CsvNode)
    ensures n.id == NodeCell(hs, header, r, "id")
    ensures n.nodeType != "" && (Filled(NodeCell(hs, header, r, "type")).None? ==> n.nodeType == "boxNode")
    ensures n.x.Num? || n.x.NaN?
    ensures Filled(NodeCell(hs, header, r, "x")).Some? ==> ToNumber(n.x) == ParseNumber(NodeCell(hs, header, r, "x").value)
    ensures Filled(NodeCell(hs, header, r, "x")).None? ==> n.x == Num(0.0)
    ensures Filled(NodeCell(hs, header, r, "y")).Some? ==> ToNumber(n.y) == ParseNumber(NodeCell(hs, header, r, "y").value)
    ensures Filled(NodeCell(hs, header, r, "y")).None? ==> n.y == Num(0.0)
    ensures n.data == NodeData(hs, header, r)
  {
    var typeCell := Filled(NodeCell(hs, header, r, "type"));
    CsvNode(
      NodeCell(hs, header, r, "id"),
      if typeCell.Some? then typeCell.value else "boxNode",
      NumberCell(NodeCell(hs, header, r, "x"), Num(0.0)),
      NumberCell(NodeCell(hs, header, r, "y"), Num(0.0)),
      NodeData(hs, header, r))
  }

  function NodesFromRows(hs: seq<string>, header: seq<string>, data: Table): (ns: seq<CsvNode>)
    ensures |ns| == |data| && forall i :: 0 <= i < |data| ==> ns[i] == NodeFromRow(hs, header, data[i])
  {
    seq(|data|, i requires 0 <= i < |data| => NodeFromRow(hs, header, data[i]))
  }

  function EdgeCell(es: seq<string>, header: seq<string>, r: seq<string>, name: string): Option<string>
  {
    CellAt(r, Column(es, header, name))
  }

  /** The edge built from one data row of the edges table under the header list `es`. */
  function EdgeFromRow(es: seq<string>, header: seq<string>, r: seq<string>): (e: CsvEdge)
    ensures e.id == EdgeCell(es, header, r, "id")
    ensures e.source == EdgeCell(es, header, r, "source") && e.target == EdgeCell(es, header, r, "target")
    ensures Flag(EdgeCell(es, header, r, "residual")) <==> "strokeDasharray" in e.style
    ensures Flag(EdgeCell(es, header, r, "residual")) ==> e.style["strokeDasharray"] == Str("6 4")
    ensures e.style.Keys <= {"stroke", "strokeDasharray"}
    ensures Flag(EdgeCell(es, header, r, "residual")) ==>
      e.edgeType == Some("residualEdge") && e.data == map["residual" := Bool(true)]
    ensures !Flag(EdgeCell(es, header, r, "residual")) ==>
      e.edgeType == Filled(EdgeCell(es, header, r, "type")) && e.data == map[]
    ensures e.markerEnd.Some? <==> Flag(EdgeCell(es, header, r, "arrow"))
    ensures Get(e.style, "stroke") == AsValue(Filled(EdgeCell(es, header, r, "stroke")))
    ensures e.markerEnd.Some? ==> e.markerEnd.value == ArrowMarker(Get(e.style, "stroke"))
  {
    var edgeType := Filled(EdgeCell(es, header, r, "type"));
    var stroke := Filled(EdgeCell(es, header, r, "stroke"));
    var arrow := Flag(EdgeCell(es, header, r, "arrow"));
    var residual := Flag(EdgeCell(es, header, r, "residual"));
    var strokeStyle := if stroke.Some? then map["stroke" := Str(stroke.value)] else map[];
    var style := if residual then strokeStyle["strokeDasharray" := Str("6 4")] else strokeStyle;
    CsvEdge(
      EdgeCell(es, header, r, "id"),
      EdgeCell(es, header, r, "source"),
      EdgeCell(es, header, r, "target"),
      if residual then Some("residualEdge") else edgeType,
      style,
      if arrow then Some(ArrowMarker(AsValue(stroke))) else None,
      if residual then map["residual" := Bool(true)] else map[])
  }

  function EdgesFromRows(es: seq<string>, header: seq<string>, data: Table): (edges: seq<CsvEdge>)
    ensures |edges| == |data| && forall i :: 0 <= i < |data| ==> edges[i] == EdgeFromRow(es, header, data[i])
  {
    seq(|data|, i requires 0 <= i < |data| => EdgeFromRow(es, header, data[i]))
  }

  /** The nodes of a nodes table: None when the text has no header row. */
  function ImportNodes(hs: seq<string>, nodesCsv: string): (ns: Option<seq<CsvNode>>)
    ensures ns.Some? <==> CsvRows(nodesCsv) != []
    ensures ns.Some? ==> |ns.value| == |CsvRows(nodesCsv)| - 1
  {
    var rows := CsvRows(nodesCsv);
    if rows == [] then None else Some(NodesFromRows(hs, rows[0], rows[1..]))
  }

  /** The edges of an edges table under the header list `es`: None when the text has no header row. */
  function ImportEdges(es: seq<string>, edgesCsv: string): (edges: Option<seq<CsvEdge>>)
    ensures edges.Some? <==> CsvRows(edgesCsv) != []
    ensures edges.Some? ==> |edges.value| == |CsvRows(edgesCsv)| - 1
  {
    var rows := CsvRows(edgesCsv);
    if rows == [] then None else Some(EdgesFromRows(es, rows[0], rows[1..]))
  }

  /**
   * `buildDiagramFromCsv` under the node header list `hs`. A text that
   * parses to no rows at all has no header row, and the source then throws
   * when it looks up the columns: that is None here.
   */
  function BuildDiagram(hs: seq<string>, nodesCsv: string, edgesCsv: string): (d: Option<CsvDiagram>)
    ensures d.Some? <==> CsvRows(nodesCsv) != [] && CsvRows(edgesCsv) != []
    ensures d.Some? ==>
      d.value == CsvDiagram(ImportNodes(hs, nodesCsv).value, ImportEdges(EdgeHeaders, edgesCsv).value)
  {
    var nodes := ImportNodes(hs, nodesCsv);
    var edges := ImportEdges(EdgeHeaders, edgesCsv);
    if nodes.None? || edges.None? then None else Some(CsvDiagram(nodes.value, edges.value))
  }

  // ---------------------------------------------------------------------
  // Choosing the tables among several files
  // ---------------------------------------------------------------------

  /** `text.split(/\r?\n/, 1)[0]`: the text before its first `\n` or `\r\n`. */
  function FirstLine(text: string): (r: string)
    ensures r <= text
    ensures forall i :: 0 <= i < |r| ==> r[i] != '\n'
    ensures |r| < |text| ==> text[|r|] == '\n' || (text[|r|] == '\r' && |r| + 1 < |text| && text[|r| + 1] == '\n')
  {
    if text == [] || text[0] == '\n' || (text[0] == '\r' && |text| > 1 && text[1] == '\n') then []
    else [text[0]] + FirstLine(text[1..])
  }

  /** Every listed node header occurs in the lower-cased first line. */
  predicate IsNodesTable(hs: seq<string>, text: string)
  {
    forall k :: 0 <= k < |hs| ==> Includes(Lower(FirstLine(text)), hs[k])
  }

  predicate IsEdgesTable(text: string)
  {
    Includes(Lower(FirstLine(text)), "source") && Includes(Lower(FirstLine(text)), "target")
  }

  /** The position of the last text that passes the nodes test, -1 when none does. */
  function LastNodesTable(hs: seq<string>, texts: seq<string>): (i: int)
    ensures -1 <= i < |texts|
    ensures i >= 0 ==> IsNodesTable(hs, texts[i])
    ensures forall j :: i < j < |texts| ==> !IsNodesTable(hs, texts[j])
  {
    if texts == [] then -1
    else if IsNodesTable(hs, texts[|texts| - 1]) then |texts| - 1
    else LastNodesTable(hs, texts[..|texts| - 1])
  }

  /** The position of the last text that passes the edges test, -1 when none does. */
  function LastEdgesTable(texts: seq<string>): (i: int)
    ensures -1 <= i < |texts|
    ensures i >= 0 ==> IsEdgesTable(texts[i])
    ensures forall j :: i < j < |texts| ==> !IsEdgesTable(texts[j])
  {
    if texts == [] then -1
    else if IsEdgesTable(texts[|texts| - 1]) then |texts| - 1
    else LastEdgesTable(texts[..|texts| - 1])
  }

  /** One more text moves the last table to it exactly when it passes the test. */
  lemma LastTablesStep(hs: seq<string>, texts: seq<string>, i: nat)
    requires i < |texts|
    ensures LastNodesTable(hs, texts[..i + 1]) == if IsNodesTable(hs, texts[i]) then i else LastNodesTable(hs, texts[..i])
    ensures LastEdgesTable(texts[..i + 1]) == if IsEdgesTable(texts[i]) then i else LastEdgesTable(texts[..i])
    ensures forall j :: 0 <= j < i ==> texts[..i + 1][j] == texts[..i][j]
  {
    assert texts[..i + 1][..i] == texts[..i];
  }

  /** `nodesText` after the loop: the last nodes table, or "". */
  function NodesText(hs: seq<string>, texts: seq<string>): string
  {
    var i := LastNodesTable(hs, texts); if i < 0 then "" else texts[i]
  }

  /** `edgesText` after the loop: the last edges table, or "". */
  function EdgesText(texts: seq<string>): string
  {
    var i := LastEdgesTable(texts); if i < 0 then "" else texts[i]
  }

  /** One more text becomes `nodesText` (`edgesText`) exactly when it passes the test. */
  lemma TextsStep(hs: seq<string>, texts: seq<string>, i: nat)
    requires i < |texts|
    ensures NodesText(hs, texts[..i + 1]) == if IsNodesTable(hs, texts[i]) then texts[i] else NodesText(hs, texts[..i])
    ensures EdgesText(texts[..i + 1]) == if IsEdgesTable(texts[i]) then texts[i] else EdgesText(texts[..i])
  {
    LastTablesStep(hs, texts, i);
  }

  /** What `importFromSheets` resolves to for the given file texts, in order. */
  function Imported(hs: seq<string>, texts: seq<string>): Option<CsvDiagram>
  {
    if |texts| == 0 then None
    else
      var n := NodesText(hs, texts);
      var e := EdgesText(texts);
      if n == "" || e == "" then None else BuildDiagram(hs, n, e)
  }

  /** `importFromSheets` over the texts of the chosen files, with the node headers `hs`. */
  method ImportFromSheets(hs: seq<string>, texts: seq<string>) returns (r: Option<CsvDiagram>)
    ensures r == Imported(hs, texts)
  {
    if |texts| == 0 {
      return None;
    }
    var nodesText := "";
    var edgesText := "";
    var i := 0;
    while i < |texts|
      invariant 0 <= i <= |texts|
      invariant nodesText == NodesText(hs, texts[..i])
      invariant edgesText == EdgesText(texts[..i])
    {
      TextsStep(hs, texts, i);
      if IsNodesTable(hs, texts[i]) {
        nodesText := texts[i];
      }
      if IsEdgesTable(texts[i]) {
        edgesText := texts[i];
      }
      i := i + 1;
    }
    assert texts[..i] == texts;
    if nodesText == "" || edgesText == "" {
      return None;
    }
    r := BuildDiagram(hs, nodesText, edgesText);
  }

  /** The first character of a non-empty included string occurs in the text. */
  lemma {:induction false} IncludesFirst(s: string, t: string) returns (k: nat)
    requires Includes(s, t) && |t| > 0
    ensures k < |s| && s[k] == t[0]
    decreases |s|
  {
    if t <= s {
      k := 0;
    } else {
      var j := IncludesFirst(s[1..], t);
      k := j + 1;
    }
  }

  /** A text whose first line includes a word parses to at least one row. */
  lemma HeadWordGivesRow(text: string, w: string)
    requires Includes(Lower(FirstLine(text)), w) && |w| > 0 && 'a' <= w[0] <= 'z'
    ensures text != "" && CsvRows(text) != []
  {
    var k := IncludesFirst(Lower(FirstLine(text)), w);
    var c := FirstLine(text)[k];
    assert LowerChar(c) == w[0];
    assert text[k] == c;
    CsvRowsNonEmpty(text, k);
  }

  /**
   * With `id` among the node headers, the import gives a diagram exactly
   * when some file passes the nodes test and some file passes the edges
   * test, and it is built from the last file passing each.
   */
  lemma ImportSpec(hs: seq<string>, texts: seq<string>)
    requires "id" in hs
    ensures Imported(hs, texts).Some? <==>
      && (exists i :: 0 <= i < |texts| && IsNodesTable(hs, texts[i]))
      && (exists j :: 0 <= j < |texts| && IsEdgesTable(texts[j]))
    ensures Imported(hs, texts).Some? ==>
      && 0 <= LastNodesTable(hs, texts) && 0 <= LastEdgesTable(texts)
      && Imported(hs, texts) == BuildDiagram(hs, texts[LastNodesTable(hs, texts)], texts[LastEdgesTable(texts)])
  {
    var i := LastNodesTable(hs, texts);
    var j := LastEdgesTable(texts);
    if i >= 0 {
      var k :| 0 <= k < |hs| && hs[k] == "id";
      assert Includes(Lower(FirstLine(texts[i])), hs[k]);
      HeadWordGivesRow(texts[i], "id");
    }
    if j >= 0 {
      HeadWordGivesRow(texts[j], "source");
    }
  }
}
