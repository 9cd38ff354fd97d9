/**
 * The column headers of the two CSV tables the editor exchanges with
 * spreadsheets (`src/sheets/schema.ts`). The nodes table is written with
 * ten values per row; the header list as shipped names only seven of them,
 * see `CsvRoundTrip` for what that does to a round trip.
 */
module SheetsSchema {

  /** `NODE_HEADERS` as shipped: seven names. */
  const NodeHeadersAsWritten: seq<string> := ["id", "type", "label", "color", "width", "x", "y"]

  /** The header that names all ten values of an exported node row, in row order. */
  const NodeHeaders: seq<string> :=
    ["id", "type", "label", "formula", "color", "shape", "width", "height", "x", "y"]

  /** `EDGE_HEADERS`: one name per value of an exported edge row. */
  const EdgeHeaders: seq<string> := ["id", "source", "target", "type", "stroke", "arrow", "residual"]

  /** A header name as the import matches it: lower-case ASCII letters only. */
  predicate Word(s: string)
  {
    forall i :: 0 <= i < |s| ==> 'a' <= s[i] <= 'z'
  }

  /** Every name is a word and no name repeats. */
  predicate HeaderList(hs: seq<string>)
  {
    && (forall k :: 0 <= k < |hs| ==> Word(hs[k]))
    && (forall j, k :: 0 <= j < k < |hs| ==> hs[j] != hs[k])
  }

  lemma NodeHeadersAsWrittenWellFormed()
    ensures HeaderList(NodeHeadersAsWritten)
  {
  }

  lemma NodeHeadersWellFormed()
    ensures HeaderList(NodeHeaders)
  {
  }

  lemma EdgeHeadersWellFormed()
    ensures HeaderList(EdgeHeaders)
  {
  }
}
