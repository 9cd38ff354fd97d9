/**
 * The React Flow records the editor stores: nodes with a parent-relative
 * position and free-form `data`/`style` records, edges with an optional end
 * marker, and the id strings built from a clock reading, an index and a
 * random draw.
 */
module Graph {
  import opened Js

  datatype Pos = Pos(x: real, y: real)

  /**
   * A diagram node. `nodeType` is React Flow's `type`; `width`/`height` are
   * the sizes React Flow measured; an absent `selected` reads as false.
   */
  datatype Node = Node(
    id: string,
    nodeType: Option<string>,
    position: Pos,
    data: map<string, Value>,
    style: map<string, Value>,
    selected: bool,
    parentNode: Option<string>,
    extent: Option<string>,
    width: Option<real>,
    height: Option<real>)

  /** `{ type: MarkerType.ArrowClosed, color }`. */
  datatype Marker = Marker(markerType: string, color: Value)

  /** A diagram edge; a `None` handle stands for `null`. */
  datatype Edge = Edge(
    id: string,
    source: string,
    target: string,
    sourceHandle: Option<string>,
    targetHandle: Option<string>,
    edgeType: Option<string>,
    style: map<string, Value>,
    markerEnd: Option<Marker>,
    data: map<string, Value>,
    selected: bool)

  /** The string value of React Flow's `MarkerType.ArrowClosed`. */
  const ArrowClosed: string := "arrowclosed"

  /** The ink colour of new edges and default arrows. */
  const EdgeInk: string := "#111827"

  function ArrowMarker(color: Value): Marker
  {
    Marker(ArrowClosed, color)
  }

  /** A node with only the fields `addNode` callers set. */
  function SimpleNode(id: string, nodeType: string, p: Pos, data: map<string, Value>): Node
  {
    Node(id, Some(nodeType), p, data, map[], false, None, None, None, None)
  }

  predicate HasId(nodes: seq<Node>, id: string)
  {
    exists i :: 0 <= i < |nodes| && nodes[i].id == id
  }

  function Ids(nodes: seq<Node>): set<string>
  {
    set i | 0 <= i < |nodes| :: nodes[i].id
  }

  /** Every node id occurs once. */
  predicate UniqueIds(nodes: seq<Node>)
  {
    forall i, j :: 0 <= i < j < |nodes| ==> nodes[i].id != nodes[j].id
  }

  function Shift(p: Pos, dx: real, dy: real): (r: Pos)
    ensures r.x - p.x == dx && r.y - p.y == dy
  {
    Pos(p.x + dx, p.y + dy)
  }

  /** `Math.min(...s)` on a non-empty list. */
  function MinOf(s: seq<real>): (m: real)
    requires |s| > 0
    ensures forall i :: 0 <= i < |s| ==> m <= s[i]
    ensures m in s
  {
    if |s| == 1 then s[0] else var t := MinOf(s[1..]); if s[0] <= t then s[0] else t
  }

  /** `Math.max(...s)` on a non-empty list. */
  function MaxOf(s: seq<real>): (m: real)
    requires |s| > 0
    ensures forall i :: 0 <= i < |s| ==> s[i] <= m
    ensures m in s
  {
    if |s| == 1 then s[0] else var t := MaxOf(s[1..]); if s[0] >= t then s[0] else t
  }

  // ---------------------------------------------------------------------
  // Boxes
  // ---------------------------------------------------------------------

  /** `size ?? d` for a measured width or height. */
  function SizeOr(o: Option<real>, d: real): real
  {
    if o.Some? then o.value else d
  }

  /** An axis-aligned box: top-left corner and size. */
  datatype Box = Box(x: real, y: real, w: real, h: real)

  function Lefts(bs: seq<Box>): (r: seq<real>)
    ensures |r| == |bs| && forall i :: 0 <= i < |bs| ==> r[i] == bs[i].x
  {
    seq(|bs|, i requires 0 <= i < |bs| => bs[i].x)
  }

  function Tops(bs: seq<Box>): (r: seq<real>)
    ensures |r| == |bs| && forall i :: 0 <= i < |bs| ==> r[i] == bs[i].y
  {
    seq(|bs|, i requires 0 <= i < |bs| => bs[i].y)
  }

  function Rights(bs: seq<Box>): (r: seq<real>)
    ensures |r| == |bs| && forall i :: 0 <= i < |bs| ==> r[i] == bs[i].x + bs[i].w
  {
    seq(|bs|, i requires 0 <= i < |bs| => bs[i].x + bs[i].w)
  }

  function Bottoms(bs: seq<Box>): (r: seq<real>)
    ensures |r| == |bs| && forall i :: 0 <= i < |bs| ==> r[i] == bs[i].y + bs[i].h
  {
    seq(|bs|, i requires 0 <= i < |bs| => bs[i].y + bs[i].h)
  }

  /** The smallest box holding every box, grown by `padding` on each side. */
  function Enclose(bs: seq<Box>, padding: real): (r: Box)
    requires |bs| > 0
    ensures forall i :: 0 <= i < |bs| ==>
      && r.x + padding <= bs[i].x && bs[i].x + bs[i].w <= r.x + r.w - padding
      && r.y + padding <= bs[i].y && bs[i].y + bs[i].h <= r.y + r.h - padding
    ensures (exists i :: 0 <= i < |bs| && bs[i].x == r.x + padding)
         && (exists i :: 0 <= i < |bs| && bs[i].y == r.y + padding)
         && (exists i :: 0 <= i < |bs| && bs[i].x + bs[i].w == r.x + r.w - padding)
         && (exists i :: 0 <= i < |bs| && bs[i].y + bs[i].h == r.y + r.h - padding)
  {
    var minX := MinOf(Lefts(bs));
    var minY := MinOf(Tops(bs));
    var maxX := MaxOf(Rights(bs));
    var maxY := MaxOf(Bottoms(bs));
    Box(minX - padding, minY - padding, (maxX - minX) + padding * 2.0, (maxY - minY) + padding * 2.0)
  }

  /** The boxes that touch the left, top, right and bottom edge of the enclosure. */
  lemma EncloseAttained(bs: seq<Box>, padding: real) returns (a: nat, b: nat, c: nat, d: nat)
    requires |bs| > 0
    ensures var r := Enclose(bs, padding);
      && a < |bs| && bs[a].x == r.x + padding
      && b < |bs| && bs[b].y == r.y + padding
      && c < |bs| && bs[c].x + bs[c].w == r.x + r.w - padding
      && d < |bs| && bs[d].y + bs[d].h == r.y + r.h - padding
  {
    var r := Enclose(bs, padding);
    a :| 0 <= a < |bs| && bs[a].x == r.x + padding;
    b :| 0 <= b < |bs| && bs[b].y == r.y + padding;
    c :| 0 <= c < |bs| && bs[c].x + bs[c].w == r.x + r.w - padding;
    d :| 0 <= d < |bs| && bs[d].y + bs[d].h == r.y + r.h - padding;
  }

  // ---------------------------------------------------------------------
  // Generated ids
  // ---------------------------------------------------------------------

  /** `${prefix}_${now}`: the part of a generated id shared by one call. */
  function IdStem(prefix: string, now: nat): string
  {
    prefix + "_" + NatToString(now) + "_"
  }

  /** `${prefix}_${now}_${idx}_${rand}`, the id shape of clones, templates and groups. */
  function MakeId(prefix: string, now: nat, idx: nat, rand: nat): (r: string)
    ensures |r| > |IdStem(prefix, now)| && r[..|IdStem(prefix, now)|] == IdStem(prefix, now)
  {
    IdStem(prefix, now) + NatToString(idx) + "_" + NatToString(rand)
  }

  /** Ids generated in one call differ when their indices differ, whatever the random draws. */
  lemma MakeIdInjective(prefix: string, now: nat, i: nat, j: nat, ri: nat, rj: nat)
    requires MakeId(prefix, now, i, ri) == MakeId(prefix, now, j, rj)
    ensures i == j && ri == rj
  {
    var stem := IdStem(prefix, now);
    var a := NatToString(i) + "_" + NatToString(ri);
    var c := NatToString(j) + "_" + NatToString(rj);
    assert MakeId(prefix, now, i, ri) == stem + a;
    assert MakeId(prefix, now, j, rj) == stem + c;
    assert a == (stem + a)[|stem|..];
    assert c == (stem + c)[|stem|..];
    assert NatToString(i) + ['_'] + NatToString(ri) == NatToString(j) + ['_'] + NatToString(rj);
    DigitsSeparated(NatToString(i), NatToString(ri), NatToString(j), NatToString(rj), '_');
    NatToStringInjective(i, j);
    NatToStringInjective(ri, rj);
  }

  /** No existing id starts with the stem of this call, so none can equal an id it generates. */
  predicate StemUnused(nodes: seq<Node>, prefix: string, now: nat)
  {
    forall i :: 0 <= i < |nodes| ==> !(IdStem(prefix, now) <= nodes[i].id)
  }

  lemma StemUnusedFresh(nodes: seq<Node>, prefix: string, now: nat, idx: nat, rand: nat)
    requires StemUnused(nodes, prefix, now)
    ensures MakeId(prefix, now, idx, rand) !in Ids(nodes)
  {
    var id := MakeId(prefix, now, idx, rand);
    assert IdStem(prefix, now) <= id;
    assert forall i :: 0 <= i < |nodes| ==> nodes[i].id != id;
  }
}
