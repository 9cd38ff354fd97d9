/**
 * What the CSV import reads back of what the CSV export writes: the
 * scanner inverts the quoting of `toCsv` on any table whose cell texts hold
 * no carriage return, edges keep their ends, arrow, stroke and residual
 * flag, and nodes keep their id, type, label and integer position provided
 * the header row names every value of a node row.
 */
module CsvRoundTrip {
  import opened Js
  import opened Graph
  import opened SheetsSchema
  import opened SheetsMapping
  import opened CsvExport
  import opened CsvImport

  predicate NoCR(s: string)
  {
    forall i :: 0 <= i < |s| ==> s[i] != '\r'
  }

  /** Text the scanner copies into a cell character by character outside quotes. */
  predicate Plain(s: string)
  {
    forall i :: 0 <= i < |s| ==> s[i] != '"' && s[i] != ',' && s[i] != '\n' && s[i] != '\r'
  }

  /** The text of a cell before escaping: `String(v)`, empty for null and undefined. */
  function CellText(v: Value): string
  {
    if v.Null? || v.Undef? then "" else ToStr(v)
  }

  function CellTexts(row: seq<Value>): (r: seq<string>)
    ensures |r| == |row| && forall j :: 0 <= j < |row| ==> r[j] == CellText(row[j])
  {
    seq(|row|, j requires 0 <= j < |row| => CellText(row[j]))
  }

  function TextTable(rows: seq<seq<Value>>): (t: Table)
    ensures |t| == |rows| && forall i :: 0 <= i < |rows| ==> t[i] == CellTexts(rows[i])
  {
    seq(|rows|, i requires 0 <= i < |rows| => CellTexts(rows[i]))
  }

  function QuoteAll(texts: seq<string>): (r: seq<string>)
    ensures |r| == |texts| && forall j :: 0 <= j < |texts| ==> r[j] == Quote(texts[j])
  {
    seq(|texts|, j requires 0 <= j < |texts| => Quote(texts[j]))
  }

  /** A row the export writes and the scanner returns unchanged. */
  predicate Exportable(row: seq<string>)
  {
    |row| >= 1 && KeepRow(row) && forall j :: 0 <= j < |row| ==> NoCR(row[j])
  }

  // Sequence identities the scanning lemmas rely on, kept apart so that
  // their proofs do not run in the presence of the scanner's definition.

  lemma ConsFront(s: string, tail: string)
    requires s != []
    ensures s + tail != [] && (s + tail)[0] == s[0] && (s + tail)[1..] == s[1..] + tail
  {
    assert (s + tail)[1..] == s[1..] + tail;
  }

  lemma ConsBack<T>(p: seq<T>, s: seq<T>)
    requires s != []
    ensures p + [s[0]] + s[1..] == p + s
  {
    assert [s[0]] + s[1..] == s;
    assert p + [s[0]] + s[1..] == p + ([s[0]] + s[1..]);
  }

  lemma DoubledCons(s: string, tail: string)
    requires s != []
    ensures Doubled(s) + "\"" + tail == (if s[0] == '"' then "\"\"" else [s[0]]) + (Doubled(s[1..]) + "\"" + tail)
  {
  }

  lemma QuotedCons(c: string, tail: string)
    requires NeedsQuotes(c)
    ensures Quote(c) + tail == "\"" + (Doubled(c) + "\"" + tail)
  {
  }

  lemma JoinQuoteAllCons(texts: seq<string>, tail: string)
    requires |texts| >= 2
    ensures Join(QuoteAll(texts), ',') + tail == Quote(texts[0]) + ([','] + (Join(QuoteAll(texts[1..]), ',') + tail))
  {
    assert QuoteAll(texts)[1..] == QuoteAll(texts[1..]);
  }

  lemma JoinLinesCons(table: Table)
    requires |table| >= 2
    ensures Join(RowLines(table), '\n') == Join(QuoteAll(table[0]), ',') + (['\n'] + Join(RowLines(table[1..]), '\n'))
  {
    assert RowLines(table)[1..] == RowLines(table[1..]);
  }

  lemma HeadThenRest<T>(texts: seq<T>, cur: seq<T>)
    requires |texts| >= 2
    ensures texts[1..][|texts[1..]| - 1] == texts[|texts| - 1]
    ensures cur + [texts[0]] + texts[1..][..|texts[1..]| - 1] == cur + texts[..|texts| - 1]
  {
    assert [texts[0]] + texts[1..][..|texts[1..]| - 1] == texts[..|texts| - 1];
    assert cur + [texts[0]] + texts[1..][..|texts[1..]| - 1] == cur + ([texts[0]] + texts[1..][..|texts[1..]| - 1]);
  }

  lemma FrontThenLast<T>(row: seq<T>)
    requires row != []
    ensures [] + row[..|row| - 1] + [row[|row| - 1]] == row
  {
  }

  lemma HeadThenTail<T>(rows: seq<T>, table: seq<T>)
    requires table != []
    ensures rows + [table[0]] + table[1..] == rows + table
  {
    ConsBack(rows, table);
  }

  // One step of the scanner on the text the export writes.

  lemma {:induction false} ScanPlain(s: string, tail: string, cell: string, cur: seq<string>, rows: Table)
    requires Plain(s)
    ensures Scan(s + tail, false, cell, cur, rows) == Scan(tail, false, cell + s, cur, rows)
    decreases |s|
  {
    if s == [] {
      assert s + tail == tail;
      assert cell + s == cell;
    } else {
      ConsFront(s, tail);
      ScanPlain(s[1..], tail, cell + [s[0]], cur, rows);
      ConsBack(cell, s);
    }
  }

  lemma ScanQuotePair(rest: string, cell: string, cur: seq<string>, rows: Table)
    ensures Scan("\"\"" + rest, true, cell, cur, rows) == Scan(rest, true, cell + ['"'], cur, rows)
  {
    assert ("\"\"" + rest)[2..] == rest;
  }

  lemma ScanQuotedChar(c: char, rest: string, cell: string, cur: seq<string>, rows: Table)
    requires c != '"'
    ensures Scan([c] + rest, true, cell, cur, rows) == Scan(rest, true, cell + [c], cur, rows)
  {
    assert ([c] + rest)[1..] == rest;
  }

  lemma ScanCloseQuote(tail: string, cell: string, cur: seq<string>, rows: Table)
    requires tail == [] || tail[0] != '"'
    ensures Scan("\"" + tail, true, cell, cur, rows) == Scan(tail, false, cell, cur, rows)
  {
    assert ("\"" + tail)[1..] == tail;
  }

  lemma ScanOpenQuote(rest: string, cur: seq<string>, rows: Table)
    ensures Scan("\"" + rest, false, "", cur, rows) == Scan(rest, true, "", cur, rows)
  {
    assert ("\"" + rest)[1..] == rest;
  }

  /** Inside quotes, the scanner undoes the doubling of quotes and stops at the closing quote. */
  lemma {:induction false} ScanDoubled(s: string, tail: string, cell: string, cur: seq<string>, rows: Table)
    requires tail == [] || tail[0] != '"'
    ensures Scan(Doubled(s) + "\"" + tail, true, cell, cur, rows) == Scan(tail, false, cell + s, cur, rows)
    decreases |s|
  {
    if s == [] {
      assert Doubled(s) + "\"" + tail == "\"" + tail;
      ScanCloseQuote(tail, cell, cur, rows);
      assert cell + s == cell;
    } else {
      var rest := Doubled(s[1..]) + "\"" + tail;
      DoubledCons(s, tail);
      if s[0] == '"' {
        ScanQuotePair(rest, cell, cur, rows);
      } else {
        ScanQuotedChar(s[0], rest, cell, cur, rows);
      }
      ScanDoubled(s[1..], tail, cell + [s[0]], cur, rows);
      ConsBack(cell, s);
    }
  }

  /** One escaped cell, followed by a separator or the end, reads back as its text. */
  lemma ScanQuote(c: string, tail: string, cur: seq<string>, rows: Table)
    requires NoCR(c)
    requires tail == [] || tail[0] == ',' || tail[0] == '\n'
    ensures Scan(Quote(c) + tail, false, "", cur, rows) == Scan(tail, false, c, cur, rows)
  {
    assert "" + c == c;
    if NeedsQuotes(c) {
      QuotedCons(c, tail);
      ScanOpenQuote(Doubled(c) + "\"" + tail, cur, rows);
      ScanDoubled(c, tail, "", cur, rows);
    } else {
      ScanPlain(c, tail, "", cur, rows);
    }
  }

  lemma ScanComma(rest: string, cell: string, cur: seq<string>, rows: Table)
    ensures Scan([','] + rest, false, cell, cur, rows) == Scan(rest, false, "", cur + [cell], rows)
  {
    assert ([','] + rest)[1..] == rest;
  }

  /** One escaped row reads back as its cells; the last cell is still open. */
  lemma {:induction false} ScanRow(texts: seq<string>, tail: string, cur: seq<string>, rows: Table)
    requires |texts| >= 1 && forall j :: 0 <= j < |texts| ==> NoCR(texts[j])
    requires tail == [] || tail[0] == '\n'
    ensures Scan(Join(QuoteAll(texts), ',') + tail, false, "", cur, rows)
         == Scan(tail, false, texts[|texts| - 1], cur + texts[..|texts| - 1], rows)
    decreases |texts|
  {
    if |texts| == 1 {
      ScanLastCell(texts, tail, cur, rows);
    } else {
      ScanRowStep(texts, tail, cur, rows);
      ScanRow(texts[1..], tail, cur + [texts[0]], rows);
      HeadThenRest(texts, cur);
    }
  }

  /** The first cell of a row of two or more, with its comma, is read as the first finished cell. */
  lemma ScanRowStep(texts: seq<string>, tail: string, cur: seq<string>, rows: Table)
    requires |texts| >= 2 && NoCR(texts[0])
    ensures Scan(Join(QuoteAll(texts), ',') + tail, false, "", cur, rows)
         == Scan(Join(QuoteAll(texts[1..]), ',') + tail, false, "", cur + [texts[0]], rows)
  {
    var more := Join(QuoteAll(texts[1..]), ',');
    JoinQuoteAllCons(texts, tail);
    ScanQuote(texts[0], [','] + (more + tail), cur, rows);
    ScanComma(more + tail, texts[0], cur, rows);
  }

  lemma ScanLastCell(texts: seq<string>, tail: string, cur: seq<string>, rows: Table)
    requires |texts| == 1 && NoCR(texts[0])
    requires tail == [] || tail[0] == '\n'
    ensures Scan(Join(QuoteAll(texts), ',') + tail, false, "", cur, rows)
         == Scan(tail, false, texts[|texts| - 1], cur + texts[..|texts| - 1], rows)
  {
    assert Join(QuoteAll(texts), ',') == Quote(texts[0]);
    ScanQuote(texts[0], tail, cur, rows);
    assert cur + texts[..0] == cur;
  }

  lemma ScanLineFeed(rest: string, cell: string, cur: seq<string>, rows: Table)
    ensures Scan(['\n'] + rest, false, cell, cur, rows) == Scan(rest, false, "", [], Flush(rows, cur + [cell]))
  {
    assert (['\n'] + rest)[1..] == rest;
  }

  /** A row followed by a line feed is added to the rows read so far. */
  lemma ScanLine(row: seq<string>, more: string, rows: Table)
    requires Exportable(row)
    ensures Scan(Join(QuoteAll(row), ',') + (['\n'] + more), false, "", [], rows) == Scan(more, false, "", [], rows + [row])
  {
    var n := |row|;
    ScanRow(row, ['\n'] + more, [], rows);
    ScanLineFeed(more, row[n - 1], [] + row[..n - 1], rows);
    FrontThenLast(row);
  }

  /** The last row of the text is added to the rows read so far. */
  lemma ScanLastLine(row: seq<string>, rows: Table)
    requires Exportable(row)
    ensures Scan(Join(QuoteAll(row), ','), false, "", [], rows) == rows + [row]
  {
    ScanRow(row, "", [], rows);
    assert Join(QuoteAll(row), ',') + "" == Join(QuoteAll(row), ',');
    FrontThenLast(row);
  }

  /** Escaped rows joined by line feeds read back as the rows, after those already read. */
  lemma {:induction false} ScanTable(table: Table, rows: Table)
    requires forall i :: 0 <= i < |table| ==> Exportable(table[i])
    ensures Scan(Join(RowLines(table), '\n'), false, "", [], rows) == rows + table
    decreases |table|
  {
    if |table| == 0 {
      assert Join(RowLines(table), '\n') == "";
      assert rows + table == rows;
    } else if |table| == 1 {
      assert Join(RowLines(table), '\n') == Join(QuoteAll(table[0]), ',');
      ScanLastLine(table[0], rows);
      assert table == [table[0]];
    } else {
      JoinLinesCons(table);
      ScanLine(table[0], Join(RowLines(table[1..]), '\n'), rows);
      ScanTable(table[1..], rows + [table[0]]);
      HeadThenTail(rows, table);
    }
  }

  function RowLines(table: Table): (r: seq<string>)
    ensures |r| == |table| && forall i :: 0 <= i < |table| ==> r[i] == Join(QuoteAll(table[i]), ',')
  {
    seq(|table|, i requires 0 <= i < |table| => Join(QuoteAll(table[i]), ','))
  }

  /** `esc` is quoting applied to the cell text. */
  lemma EscQuotes(row: seq<Value>)
    ensures EscRow(row) == QuoteAll(CellTexts(row))
  {
    forall j | 0 <= j < |row|
      ensures EscRow(row)[j] == QuoteAll(CellTexts(row))[j]
    {
      if row[j].Null? || row[j].Undef? {
        assert !NeedsQuotes("");
      }
    }
  }

  /**
   * `parseCsv` inverts `toCsv`: the rows come back as the cell texts,
   * provided no cell text holds a carriage return and no row is a single
   * empty cell.
   */
  lemma CsvInvertsExport(rows: seq<seq<Value>>)
    requires forall i :: 0 <= i < |rows| ==> Exportable(CellTexts(rows[i]))
    ensures CsvRows(ToCsv(rows)) == TextTable(rows)
  {
    var table := TextTable(rows);
    assert Lines(rows) == RowLines(table) by {
      forall i | 0 <= i < |rows|
        ensures Lines(rows)[i] == RowLines(table)[i]
      {
        EscQuotes(rows[i]);
      }
    }
    ScanTable(table, []);
    assert [] + table == table;
  }

  // ---------------------------------------------------------------------
  // Header lookup
  // ---------------------------------------------------------------------

  /** Trimming and lower-casing leave a header word unchanged. */
  lemma WordNormal(w: string)
    requires Word(w)
    ensures Lower(Trim(w)) == w
  {
    assert NoWhite(w);
    TrimNoWhite(w);
    assert Lower(w) == w;
  }

  /** In a header row of distinct words, each word is found at its own position. */
  lemma FindHeaderAt(hs: seq<string>, k: nat)
    requires HeaderList(hs) && k < |hs|
    ensures FindHeader(hs, hs[k]) == k
  {
    WordNormal(hs[k]);
    var r := FindHeader(hs, hs[k]);
    if r >= 0 && r != k {
      WordNormal(hs[r]);
    }
  }

  /** Every listed name is found at its position when the header row is the list itself. */
  lemma ColumnsOfOwnHeader(hs: seq<string>)
    requires HeaderList(hs)
    ensures forall k :: 0 <= k < |hs| ==> Column(hs, hs, hs[k]) == Some(k)
  {
    forall k | 0 <= k < |hs|
      ensures Column(hs, hs, hs[k]) == Some(k)
    {
      FindHeaderAt(hs, k);
    }
  }

  /** null or undefined: written as the empty cell. */
  predicate Absent(v: Value)
  {
    v.Null? || v.Undef?
  }

  /** A string or an absent value. */
  predicate TextLike(v: Value)
  {
    v.Str? || Absent(v)
  }

  /** A number with an integral value, which `String` writes without a fraction. */
  predicate WholeNum(v: Value)
  {
    v.Num? && v.n == v.n.Floor as real
  }

  /** No cell text of the row holds a carriage return. */
  predicate RowClean(row: seq<Value>)
  {
    forall j :: 0 <= j < |row| ==> NoCR(CellText(row[j]))
  }

  lemma HeaderRowExportable(hs: seq<string>)
    requires HeaderList(hs) && |hs| >= 2
    ensures CellTexts(Strs(hs)) == hs && Exportable(hs)
  {
    assert CellTexts(Strs(hs)) == hs;
  }

  /** A table exported beneath a header row is read back as that header and the body's cell texts. */
  lemma HeadedTableRead(hs: seq<string>, body: seq<seq<Value>>)
    requires HeaderList(hs) && |hs| >= 2
    requires forall i :: 0 <= i < |body| ==> Exportable(CellTexts(body[i]))
    ensures CsvRows(ToCsv([Strs(hs)] + body)) != []
    ensures CsvRows(ToCsv([Strs(hs)] + body))[0] == hs
    ensures CsvRows(ToCsv([Strs(hs)] + body))[1..] == TextTable(body)
  {
    var table := [Strs(hs)] + body;
    HeaderRowExportable(hs);
    forall i | 0 <= i < |table|
      ensures Exportable(CellTexts(table[i]))
    {
      if i > 0 {
        assert table[i] == body[i - 1];
      }
    }
    CsvInvertsExport(table);
    assert TextTable(table)[1..] == TextTable(body);
  }

  // ---------------------------------------------------------------------
  // Edges
  // ---------------------------------------------------------------------

  /** An edge the round trip applies to: clean cell texts and a textual stroke, if any. */
  predicate EdgeExportable(e: Edge)
  {
    && RowClean(EdgeRow(e))
    && TextLike(Get(e.style, "stroke"))
  }

  /** What the import restores of an exported edge. */
  predicate EdgeRestored(e: Edge, ie: CsvEdge)
  {
    && ie.id == Some(e.id) && ie.source == Some(e.source) && ie.target == Some(e.target)
    && (ie.markerEnd.Some? <==> e.markerEnd.Some?)
    && Get(ie.style, "stroke") == Or(Get(e.style, "stroke"), Undef)
    && ("strokeDasharray" in ie.style <==> ExportsResidual(e))
    && (ExportsResidual(e) ==> ie.edgeType == Some("residualEdge") && ie.data == map["residual" := Bool(true)])
    && (!ExportsResidual(e) ==> ie.edgeType == Some(EdgeTypeName(e)) && ie.data == map[])
  }

  lemma ColumnAt(hs: seq<string>, k: nat, name: string)
    requires HeaderList(hs) && k < |hs| && hs[k] == name
    ensures Column(hs, hs, name) == Some(k)
  {
    FindHeaderAt(hs, k);
  }

  /** A header list with the seven edge names at their export positions. */
  predicate EdgeHeaderShape(es: seq<string>)
  {
    && HeaderList(es) && |es| == 7
    && es[0] == "id" && es[1] == "source" && es[2] == "target" && es[3] == "type"
    && es[4] == "stroke" && es[5] == "arrow" && es[6] == "residual"
  }

  lemma EdgeHeadersShape()
    ensures EdgeHeaderShape(EdgeHeaders)
  {
    EdgeHeadersWellFormed();
  }

  /** The cell texts of an exported edge row. */
  lemma EdgeTexts(e: Edge)
    ensures CellTexts(EdgeRow(e)) ==
      [ e.id, e.source, e.target, EdgeTypeName(e), CellText(Coalesce(Get(e.style, "stroke"), Str(""))),
        ToStr(Bool(e.markerEnd.Some?)), ToStr(Bool(ExportsResidual(e))) ]
  {
  }

  /** Under an edge-shaped header, each name reads the cell at its own position. */
  lemma EdgeCellsRead(es: seq<string>, t: seq<string>)
    requires EdgeHeaderShape(es) && |t| == 7
    ensures EdgeCell(es, es, t, "id") == Some(t[0]) && EdgeCell(es, es, t, "source") == Some(t[1])
    ensures EdgeCell(es, es, t, "target") == Some(t[2]) && EdgeCell(es, es, t, "type") == Some(t[3])
    ensures EdgeCell(es, es, t, "stroke") == Some(t[4]) && EdgeCell(es, es, t, "arrow") == Some(t[5])
    ensures EdgeCell(es, es, t, "residual") == Some(t[6])
  {
    ColumnAt(es, 0, "id");
    ColumnAt(es, 1, "source");
    ColumnAt(es, 2, "target");
    ColumnAt(es, 3, "type");
    ColumnAt(es, 4, "stroke");
    ColumnAt(es, 5, "arrow");
    ColumnAt(es, 6, "residual");
  }

  /** A cell holding `String(b)` is the flag b. */
  lemma FlagOfBool(b: bool)
    ensures Flag(Some(ToStr(Bool(b)))) == b
  {
    ToBoolOfBool(b);
  }

  /** A text or an absent value survives being written and read back as a truthy cell. */
  lemma TextCellRestored(v: Value)
    requires TextLike(v)
    ensures AsValue(Filled(Some(CellText(Coalesce(v, Str("")))))) == Or(v, Undef)
  {
  }

  lemma EdgeRowRestored(es: seq<string>, e: Edge)
    requires EdgeHeaderShape(es) && EdgeExportable(e)
    ensures EdgeRestored(e, EdgeFromRow(es, es, CellTexts(EdgeRow(e))))
  {
    var t := CellTexts(EdgeRow(e));
    EdgeTexts(e);
    EdgeCellsRead(es, t);
    TextCellRestored(Get(e.style, "stroke"));
    FlagOfBool(e.markerEnd.Some?);
    FlagOfBool(ExportsResidual(e));
  }

  /** The edge round trip under any header list shaped like the edge header. */
  lemma EdgeRoundTripUnder(es: seq<string>, edges: seq<Edge>)
    requires EdgeHeaderShape(es)
    requires forall i :: 0 <= i < |edges| ==> EdgeExportable(edges[i])
    ensures ImportEdges(es, EdgesCsvUnder(es, edges)).Some?
    ensures |ImportEdges(es, EdgesCsvUnder(es, edges)).value| == |edges|
    ensures forall i :: 0 <= i < |edges| ==> EdgeRestored(edges[i], ImportEdges(es, EdgesCsvUnder(es, edges)).value[i])
  {
    EdgeRowsExportable(edges);
    HeadedTableRead(es, EdgeRows(edges));
    var rows := CsvRows(EdgesCsvUnder(es, edges));
    forall i | 0 <= i < |edges|
      ensures EdgeRestored(edges[i], ImportEdges(es, EdgesCsvUnder(es, edges)).value[i])
    {
      assert rows[1..][i] == CellTexts(EdgeRow(edges[i]));
      EdgeRowRestored(es, edges[i]);
    }
  }

  lemma EdgeRowsExportable(edges: seq<Edge>)
    requires forall i :: 0 <= i < |edges| ==> EdgeExportable(edges[i])
    ensures forall i :: 0 <= i < |EdgeRows(edges)| ==> Exportable(CellTexts(EdgeRows(edges)[i]))
  {
    forall i | 0 <= i < |edges|
      ensures Exportable(CellTexts(EdgeRows(edges)[i]))
    {
      EdgeTexts(edges[i]);
    }
  }

  /** Exported edges are imported back with their ends, arrow, stroke and residual flag. */
  lemma EdgeRoundTrip(edges: seq<Edge>)
    requires forall i :: 0 <= i < |edges| ==> EdgeExportable(edges[i])
    ensures ImportEdges(EdgeHeaders, ExportEdgesCsv(edges)).Some?
    ensures |ImportEdges(EdgeHeaders, ExportEdgesCsv(edges)).value| == |edges|
    ensures forall i :: 0 <= i < |edges| ==>
      EdgeRestored(edges[i], ImportEdges(EdgeHeaders, ExportEdgesCsv(edges)).value[i])
  {
    EdgeHeadersShape();
    EdgeRoundTripUnder(EdgeHeaders, edges);
  }

  // ---------------------------------------------------------------------
  // Nodes
  // ---------------------------------------------------------------------

  /** Any node table read back under its own header row: one node per exported row. */
  lemma NodesTableRead(hs: seq<string>, nodes: seq<Node>)
    requires HeaderList(hs) && |hs| >= 2
    requires forall i :: 0 <= i < |nodes| ==> RowClean(NodeRow(nodes[i]))
    ensures ImportNodes(hs, NodesCsvUnder(hs, nodes)).Some?
    ensures |ImportNodes(hs, NodesCsvUnder(hs, nodes)).value| == |nodes|
    ensures forall i :: 0 <= i < |nodes| ==>
      ImportNodes(hs, NodesCsvUnder(hs, nodes)).value[i] == NodeFromRow(hs, hs, CellTexts(NodeRow(nodes[i])))
  {
    NodeRowsExportable(nodes);
    HeadedTableRead(hs, NodeRows(nodes));
  }

  lemma NodeRowsExportable(nodes: seq<Node>)
    requires forall i :: 0 <= i < |nodes| ==> RowClean(NodeRow(nodes[i]))
    ensures forall i :: 0 <= i < |NodeRows(nodes)| ==> Exportable(CellTexts(NodeRows(nodes)[i]))
  {
    forall i | 0 <= i < |nodes|
      ensures Exportable(CellTexts(NodeRows(nodes)[i]))
    {
      NodeTexts(nodes[i]);
    }
  }

  /** The cell texts of an exported node row. */
  lemma NodeTexts(n: Node)
    ensures |CellTexts(NodeRow(n))| == 10
    ensures CellTexts(NodeRow(n))[0] == n.id && CellTexts(NodeRow(n))[1] == TypeName(n)
    ensures CellTexts(NodeRow(n))[2] == CellText(Coalesce(Get(n.data, "label"), Str("")))
    ensures CellTexts(NodeRow(n))[3] == CellText(Coalesce(Get(n.data, "formulaLabel"), Str("")))
    ensures CellTexts(NodeRow(n))[4] == CellText(ExportColor(n))
    ensures CellTexts(NodeRow(n))[5] == ShapeName(MapNodeToExport(n).shape)
    ensures CellTexts(NodeRow(n))[6] == CellText(Coalesce(Get(n.data, "width"), Str("")))
    ensures CellTexts(NodeRow(n))[7] == CellText(Coalesce(Get(n.data, "height"), Str("")))
    ensures CellTexts(NodeRow(n))[8] == NumToString(n.position.x)
    ensures CellTexts(NodeRow(n))[9] == NumToString(n.position.y)
  {
    NodeTextsHead(n);
    NodeTextsLabels(n);
    NodeTextsLook(n);
    NodeTextsSize(n);
    NodeTextsPosition(n);
  }

  lemma NodeTextsHead(n: Node)
    ensures CellTexts(NodeRow(n))[0] == n.id && CellTexts(NodeRow(n))[1] == TypeName(n)
  {
  }

  lemma NodeTextsLabels(n: Node)
    ensures CellTexts(NodeRow(n))[2] == CellText(Coalesce(Get(n.data, "label"), Str("")))
    ensures CellTexts(NodeRow(n))[3] == CellText(Coalesce(Get(n.data, "formulaLabel"), Str("")))
  {
  }

  lemma NodeTextsLook(n: Node)
    ensures CellTexts(NodeRow(n))[4] == CellText(ExportColor(n))
    ensures CellTexts(NodeRow(n))[5] == ShapeName(MapNodeToExport(n).shape)
  {
  }

  lemma NodeTextsSize(n: Node)
    ensures CellTexts(NodeRow(n))[6] == CellText(Coalesce(Get(n.data, "width"), Str("")))
    ensures CellTexts(NodeRow(n))[7] == CellText(Coalesce(Get(n.data, "height"), Str("")))
  {
  }

  lemma NodeTextsPosition(n: Node)
    ensures CellTexts(NodeRow(n))[8] == NumToString(n.position.x)
    ensures CellTexts(NodeRow(n))[9] == NumToString(n.position.y)
  {
  }

  /** A header list with the ten node names at their export positions. */
  predicate NodeHeaderShape(hs: seq<string>)
  {
    && HeaderList(hs) && |hs| == 10
    && hs[0] == "id" && hs[1] == "type" && hs[2] == "label" && hs[3] == "formula" && hs[4] == "color"
    && hs[5] == "shape" && hs[6] == "width" && hs[7] == "height" && hs[8] == "x" && hs[9] == "y"
  }

  lemma NodeHeadersShape()
    ensures NodeHeaderShape(NodeHeaders)
  {
    NodeHeadersWellFormed();
  }

  /** Under a node-shaped header, the first five names read the cells at their own positions. */
  lemma NodeCellsReadFront(hs: seq<string>, t: seq<string>)
    requires NodeHeaderShape(hs) && |t| == 10
    ensures NodeCell(hs, hs, t, "id") == Some(t[0]) && NodeCell(hs, hs, t, "type") == Some(t[1])
    ensures NodeCell(hs, hs, t, "label") == Some(t[2]) && Column(hs, hs, "formula") == Some(3)
    ensures NodeCell(hs, hs, t, "color") == Some(t[4])
  {
    ColumnAt(hs, 0, "id");
    ColumnAt(hs, 1, "type");
    ColumnAt(hs, 2, "label");
    ColumnAt(hs, 3, "formula");
    ColumnAt(hs, 4, "color");
  }

  /** Under a node-shaped header, sizes and position read the cells at their own positions. */
  lemma NodeCellsReadBack(hs: seq<string>, t: seq<string>)
    requires NodeHeaderShape(hs) && |t| == 10
    ensures NodeCell(hs, hs, t, "width") == Some(t[6]) && OptionalCell(hs, hs, t, "height") == Some(t[7])
    ensures NodeCell(hs, hs, t, "x") == Some(t[8]) && NodeCell(hs, hs, t, "y") == Some(t[9])
  {
    ColumnAt(hs, 6, "width");
    ColumnAt(hs, 7, "height");
    ColumnAt(hs, 8, "x");
    ColumnAt(hs, 9, "y");
  }

  /** The node read from a text row under a node-shaped header. */
  lemma NodeOfTexts(hs: seq<string>, t: seq<string>)
    requires NodeHeaderShape(hs) && |t| == 10
    ensures NodeFromRow(hs, hs, t) ==
      CsvNode(Some(t[0]), if t[1] == "" then "boxNode" else t[1],
        NumberCell(Some(t[8]), Num(0.0)), NumberCell(Some(t[9]), Num(0.0)),
        NodeFields(t[2], Or(Str(t[3]), Undef), AsValue(Filled(Some(t[4]))),
          NumberCell(Some(t[6]), Undef), NumberCell(Some(t[7]), Undef)))
  {
    NodeCellsReadFront(hs, t);
    NodeCellsReadBack(hs, t);
  }

  /** An integral number is read back from its `String` text. */
  lemma WholeCellRestored(v: Value, d: Value)
    requires WholeNum(v)
    ensures NumberCell(Some(CellText(v)), d) == v
  {
    ToStrOfIntRoundTrips(v.n.Floor);
    assert v == Num(v.n.Floor as real);
  }

  /** An absent number is read back as undefined. */
  lemma AbsentCellRestored(v: Value, d: Value)
    requires Absent(v)
    ensures NumberCell(Some(CellText(Coalesce(v, Str("")))), d) == d
  {
  }

  /** What the import restores of an exported node when the header names every value. */
  predicate NodeRestored(n: Node, cn: CsvNode)
  {
    && cn.id == Some(n.id)
    && cn.nodeType == (if TypeName(n) == "" then "boxNode" else TypeName(n))
    && (Get(n.data, "label").Str? ==> cn.data.labelText == Get(n.data, "label").s)
    && (Absent(Get(n.data, "label")) ==> cn.data.labelText == "")
    && (TextLike(Get(n.data, "formulaLabel")) ==> cn.data.formulaLabel == Or(Get(n.data, "formulaLabel"), Undef))
    && (Get(n.data, "color").Str? ==> cn.data.color == Or(Get(n.data, "color"), Undef))
    && (Absent(Get(n.data, "color")) ==> cn.data.color == Str("token:" + MapNodeToExport(n).colorToken))
    && (WholeNum(Get(n.data, "width")) ==> cn.data.width == Get(n.data, "width"))
    && (Absent(Get(n.data, "width")) ==> cn.data.width == Undef)
    && (WholeNum(Get(n.data, "height")) ==> cn.data.height == Get(n.data, "height"))
    && (Absent(Get(n.data, "height")) ==> cn.data.height == Undef)
    && (WholeNum(Num(n.position.x)) ==> cn.x == Num(n.position.x))
    && (WholeNum(Num(n.position.y)) ==> cn.y == Num(n.position.y))
  }

  /** The text fields of a node as the import reads them back from their cells. */
  lemma TextFieldsRestored(n: Node)
    ensures Get(n.data, "label").Str? ==> CellText(Coalesce(Get(n.data, "label"), Str(""))) == Get(n.data, "label").s
    ensures Absent(Get(n.data, "label")) ==> CellText(Coalesce(Get(n.data, "label"), Str(""))) == ""
    ensures TextLike(Get(n.data, "formulaLabel")) ==>
      Or(Str(CellText(Coalesce(Get(n.data, "formulaLabel"), Str("")))), Undef) == Or(Get(n.data, "formulaLabel"), Undef)
    ensures Get(n.data, "color").Str? ==> AsValue(Filled(Some(CellText(ExportColor(n))))) == Or(Get(n.data, "color"), Undef)
    ensures Absent(Get(n.data, "color")) ==>
      AsValue(Filled(Some(CellText(ExportColor(n))))) == Str("token:" + MapNodeToExport(n).colorToken)
  {
    if Get(n.data, "color").Str? {
      TextCellRestored(Get(n.data, "color"));
    }
  }

  /** A size is read back when it is integral and stays undefined when it is absent. */
  lemma SizeRestored(v: Value)
    ensures WholeNum(v) ==> NumberCell(Some(CellText(Coalesce(v, Str("")))), Undef) == v
    ensures Absent(v) ==> NumberCell(Some(CellText(Coalesce(v, Str("")))), Undef) == Undef
  {
    if WholeNum(v) {
      WholeCellRestored(v, Undef);
    }
  }

  lemma NodeRowRestored(hs: seq<string>, n: Node)
    requires NodeHeaderShape(hs)
    ensures NodeRestored(n, NodeFromRow(hs, hs, CellTexts(NodeRow(n))))
  {
    var t := CellTexts(NodeRow(n));
    NodeTexts(n);
    NodeOfTexts(hs, t);
    TextFieldsRestored(n);
    SizeRestored(Get(n.data, "width"));
    SizeRestored(Get(n.data, "height"));
    if WholeNum(Num(n.position.x)) {
      WholeCellRestored(Num(n.position.x), Num(0.0));
    }
    if WholeNum(Num(n.position.y)) {
      WholeCellRestored(Num(n.position.y), Num(0.0));
    }
  }

  /** The node round trip under any header list shaped like the node header. */
  lemma NodeRoundTripUnder(hs: seq<string>, nodes: seq<Node>)
    requires NodeHeaderShape(hs)
    requires forall i :: 0 <= i < |nodes| ==> RowClean(NodeRow(nodes[i]))
    ensures ImportNodes(hs, NodesCsvUnder(hs, nodes)).Some?
    ensures |ImportNodes(hs, NodesCsvUnder(hs, nodes)).value| == |nodes|
    ensures forall i :: 0 <= i < |nodes| ==> NodeRestored(nodes[i], ImportNodes(hs, NodesCsvUnder(hs, nodes)).value[i])
  {
    NodesTableRead(hs, nodes);
    forall i | 0 <= i < |nodes|
      ensures NodeRestored(nodes[i], ImportNodes(hs, NodesCsvUnder(hs, nodes)).value[i])
    {
      NodeRowRestored(hs, nodes[i]);
    }
  }

  /**
   * Exported nodes are imported back with their id, type, label, formula,
   * colour, integral sizes and integral position, under a header that names
   * all ten values of a row.
   */
  lemma NodeRoundTrip(nodes: seq<Node>)
    requires forall i :: 0 <= i < |nodes| ==> RowClean(NodeRow(nodes[i]))
    ensures ImportNodes(NodeHeaders, ExportNodesCsv(nodes)).Some?
    ensures |ImportNodes(NodeHeaders, ExportNodesCsv(nodes)).value| == |nodes|
    ensures forall i :: 0 <= i < |nodes| ==>
      NodeRestored(nodes[i], ImportNodes(NodeHeaders, ExportNodesCsv(nodes)).value[i])
  {
    NodeHeadersShape();
    NodeRoundTripUnder(NodeHeaders, nodes);
  }

  // ---------------------------------------------------------------------
  // Nodes under the seven-name header as shipped
  // ---------------------------------------------------------------------

  /** The seven names of the shipped header at their positions. */
  predicate AsWrittenShape(hs: seq<string>)
  {
    && HeaderList(hs) && |hs| == 7
    && hs[0] == "id" && hs[1] == "type" && hs[2] == "label" && hs[3] == "color"
    && hs[4] == "width" && hs[5] == "x" && hs[6] == "y"
  }

  lemma AsWrittenHeadersShape()
    ensures AsWrittenShape(NodeHeadersAsWritten)
  {
    NodeHeadersAsWrittenWellFormed();
  }

  /** A nonempty word of lower-case letters is not a number. */
  lemma WordNotNumber(w: string)
    requires Word(w) && w != []
    ensures ParseNumber(w) == None
  {
    TrimNoWhite(w);
    assert !IsDigit(w[0]);
  }

  /**
   * Under the shipped header the shape names land in the `x` column and the
   * formula texts in the `color` column: every exported node comes back with
   * x = NaN and with its formula label for a colour.
   */
  lemma NodeRoundTripAsWrittenUnder(hs: seq<string>, nodes: seq<Node>)
    requires AsWrittenShape(hs)
    requires forall i :: 0 <= i < |nodes| ==> RowClean(NodeRow(nodes[i]))
    ensures ImportNodes(hs, NodesCsvUnder(hs, nodes)).Some?
    ensures |ImportNodes(hs, NodesCsvUnder(hs, nodes)).value| == |nodes|
    ensures forall i :: 0 <= i < |nodes| ==> ImportNodes(hs, NodesCsvUnder(hs, nodes)).value[i].x == NaN
    ensures forall i :: 0 <= i < |nodes| && TextLike(Get(nodes[i].data, "formulaLabel")) ==>
      ImportNodes(hs, NodesCsvUnder(hs, nodes)).value[i].data.color == Or(Get(nodes[i].data, "formulaLabel"), Undef)
  {
    NodesTableRead(hs, nodes);
    forall i | 0 <= i < |nodes|
      ensures ImportNodes(hs, NodesCsvUnder(hs, nodes)).value[i].x == NaN
      ensures TextLike(Get(nodes[i].data, "formulaLabel")) ==>
        ImportNodes(hs, NodesCsvUnder(hs, nodes)).value[i].data.color == Or(Get(nodes[i].data, "formulaLabel"), Undef)
    {
      AsWrittenRowMisread(hs, nodes[i]);
    }
  }

  /** Under the shipped header, `x` reads the sixth cell and `color` the fourth. */
  lemma AsWrittenOfTexts(hs: seq<string>, t: seq<string>)
    requires AsWrittenShape(hs) && |t| == 10
    ensures NodeFromRow(hs, hs, t).x == NumberCell(Some(t[5]), Num(0.0))
    ensures NodeFromRow(hs, hs, t).data.color == AsValue(Filled(Some(t[3])))
  {
    ColumnAt(hs, 3, "color");
    ColumnAt(hs, 5, "x");
  }

  lemma AsWrittenRowMisread(hs: seq<string>, n: Node)
    requires AsWrittenShape(hs)
    ensures NodeFromRow(hs, hs, CellTexts(NodeRow(n))).x == NaN
    ensures TextLike(Get(n.data, "formulaLabel")) ==>
      NodeFromRow(hs, hs, CellTexts(NodeRow(n))).data.color == Or(Get(n.data, "formulaLabel"), Undef)
  {
    var t := CellTexts(NodeRow(n));
    NodeTexts(n);
    AsWrittenOfTexts(hs, t);
    WordNotNumber(t[5]);
    if TextLike(Get(n.data, "formulaLabel")) {
      TextCellRestored(Get(n.data, "formulaLabel"));
    }
  }

  /** `exportNodesCsv` followed by the import as shipped loses every x position. */
  lemma NodeRoundTripAsWritten(nodes: seq<Node>)
    requires forall i :: 0 <= i < |nodes| ==> RowClean(NodeRow(nodes[i]))
    ensures ImportNodes(NodeHeadersAsWritten, ExportNodesCsvAsWritten(nodes)).Some?
    ensures |ImportNodes(NodeHeadersAsWritten, ExportNodesCsvAsWritten(nodes)).value| == |nodes|
    ensures forall i :: 0 <= i < |nodes| ==> ImportNodes(NodeHeadersAsWritten, ExportNodesCsvAsWritten(nodes)).value[i].x == NaN
  {
    AsWrittenHeadersShape();
    NodeRoundTripAsWrittenUnder(NodeHeadersAsWritten, nodes);
  }
}
