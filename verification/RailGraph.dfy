/** Polylines and their lengths, over any symmetric distance. */
module Polylines {

  type Point(==, !new)

  type Distance = (Point, Point) -> real

  ghost predicate IsDistance(dist: Distance) {
    (forall a, b :: dist(a, b) >= 0.0) && (forall a, b :: dist(a, b) == dist(b, a))
  }

  function Length(points: seq<Point>, dist: Distance): real
    decreases |points|
  {
    if |points| < 2 then 0.0
    else Length(points[..|points| - 1], dist) + dist(points[|points| - 2], points[|points| - 1])
  }

  /** `polyline_length_m`. */
  method PolylineLength(points: seq<Point>, dist: Distance) returns (total: real)
    ensures total == Length(points, dist)
  {
    total := 0.0;
    if |points| < 2 {
      return;
    }
    for i := 1 to |points|
      invariant total == Length(points[..i], dist)
    {
      assert points[..i + 1][..i] == points[..i];
      total := total + dist(points[i - 1], points[i]);
    }
    assert points[..|points|] == points;
  }

  /** A single step is as long as its ends are apart; with the law of joining this makes the length of any polyline. */
  lemma LengthOfStep(a: Point, b: Point, dist: Distance)
    ensures Length([a, b], dist) == dist(a, b) && Length([a], dist) == 0.0 && Length([], dist) == 0.0
  {
    assert [a, b][..1] == [a];
  }

  function Reversed(points: seq<Point>): (r: seq<Point>)
    ensures |r| == |points|
    ensures forall i :: 0 <= i < |r| ==> r[i] == points[|points| - 1 - i]
    decreases |points|
  {
    if points == [] then [] else [points[|points| - 1]] + Reversed(points[..|points| - 1])
  }

  /** Joins a polyline to one that starts at its tail. */
  function Joined(a: seq<Point>, b: seq<Point>): seq<Point> { if a == [] || b == [] then a + b else a + b[1..] }

  /** Joining at a shared point adds the lengths. */
  lemma {:induction false} LengthOfJoin(a: seq<Point>, b: seq<Point>, dist: Distance)
    requires a != [] && b != [] && a[|a| - 1] == b[0]
    ensures Length(Joined(a, b), dist) == Length(a, dist) + Length(b, dist)
    decreases |b|
  {
    if |b| == 1 {
      assert Joined(a, b) == a;
    } else {
      var init := b[..|b| - 1];
      LengthOfJoin(a, init, dist);
      assert Joined(a, b) == Joined(a, init) + [b[|b| - 1]];
      assert Joined(a, b)[..|Joined(a, b)| - 1] == Joined(a, init);
      assert Joined(a, init)[|Joined(a, init)| - 1] == init[|init| - 1] by {
        if |init| == 1 {
          assert Joined(a, init) == a;
        }
      }
    }
  }

  lemma {:induction false} LengthIsNonnegative(points: seq<Point>, dist: Distance)
    requires IsDistance(dist)
    ensures Length(points, dist) >= 0.0
    decreases |points|
  {
    if |points| >= 2 {
      LengthIsNonnegative(points[..|points| - 1], dist);
    }
  }

  /** A polyline is as long backwards. */
  lemma {:induction false} LengthOfReverse(points: seq<Point>, dist: Distance)
    requires IsDistance(dist)
    ensures Length(Reversed(points), dist) == Length(points, dist)
    decreases |points|
  {
    if |points| >= 2 {
      var n := |points| - 1;
      LengthOfReverse(points[..n], dist);
      var step := [points[n], points[n - 1]];
      assert step[..1] == [points[n]];
      assert Length(step, dist) == dist(points[n], points[n - 1]);
      assert Reversed(points) == Joined(step, Reversed(points[..n]));
      LengthOfJoin(step, Reversed(points[..n]), dist);
    }
  }
}

/** Splitting railway ways at their junctions. */
module RailSplitting {
  import opened Counting
  import opened Polylines

  type Node(==, !new)

  /** A way: its nodes, and where they are. */
  datatype Way = Way(points: seq<Point>, ids: seq<Node>)

  datatype Edge = Edge(u: Node, v: Node, weight: real, geom: seq<Point>)

  /** What the parser hands over. */
  predicate WayOk(w: Way) { |w.points| == |w.ids| >= 2 }

  // ----- Reference counts

  function CountOf(counts: map<Node, nat>, id: Node): nat { if id in counts then counts[id] else 0 }

  function Counted(counts: map<Node, nat>, ids: seq<Node>): map<Node, nat>
    decreases |ids|
  {
    if ids == [] then counts
    else
      var before, id := Counted(counts, ids[..|ids| - 1]), ids[|ids| - 1];
      before[id := CountOf(before, id) + 1]
  }

  function CountsOf(ways: seq<Way>): map<Node, nat>
    decreases |ways|
  {
    if ways == [] then map[] else Counted(CountsOf(ways[..|ways| - 1]), ways[|ways| - 1].ids)
  }

  method CountWay(ids: seq<Node>, counts: map<Node, nat>) returns (r: map<Node, nat>)
    ensures r == Counted(counts, ids)
  {
    r := counts;
    for i := 0 to |ids|
      invariant r == Counted(counts, ids[..i])
    {
      assert ids[..i + 1][..i] == ids[..i];
      r := r[ids[i] := CountOf(r, ids[i]) + 1];
    }
    assert ids[..|ids|] == ids;
  }

  method CountReferences(ways: seq<Way>) returns (counts: map<Node, nat>)
    ensures counts == CountsOf(ways)
  {
    counts := map[];
    for i := 0 to |ways|
      invariant counts == CountsOf(ways[..i])
    {
      assert ways[..i + 1][..i] == ways[..i];
      counts := CountWay(ways[i].ids, counts);
    }
    assert ways[..|ways|] == ways;
  }

  /** How often a node occurs in all ways. */
  function References(ways: seq<Way>, id: Node): nat
    decreases |ways|
  {
    if ways == [] then 0 else References(ways[..|ways| - 1], id) + Occurrences(ways[|ways| - 1].ids, id)
  }

  lemma {:induction false} CountedAddsOccurrences(counts: map<Node, nat>, ids: seq<Node>, id: Node)
    ensures CountOf(Counted(counts, ids), id) == CountOf(counts, id) + Occurrences(ids, id)
    decreases |ids|
  {
    if ids != [] {
      CountedAddsOccurrences(counts, ids[..|ids| - 1], id);
    }
  }

  /** The counts are the numbers of occurrences in all ways together. */
  lemma {:induction false} CountsAreReferences(ways: seq<Way>, id: Node)
    ensures CountOf(CountsOf(ways), id) == References(ways, id)
    decreases |ways|
  {
    if ways != [] {
      CountsAreReferences(ways[..|ways| - 1], id);
      CountedAddsOccurrences(CountsOf(ways[..|ways| - 1]), ways[|ways| - 1].ids, id);
    }
  }

  // ----- Splitting

  /** Ends, and nodes met more than once, become vertices. */
  predicate IsVertex(counts: map<Node, nat>, w: Way, i: nat)
    requires i < |w.ids|
  {
    i == 0 || i == |w.ids| - 1 || CountOf(counts, w.ids[i]) >= 2
  }

  ghost predicate Ascending(s: seq<nat>, n: nat) {
    (forall a :: 0 <= a < |s| ==> s[a] < n) && (forall a, b :: 0 <= a < b < |s| ==> s[a] < s[b])
  }

  /** The positions below k where a way is split. */
  function SplitsBelow(counts: map<Node, nat>, w: Way, k: nat): (s: seq<nat>)
    requires k <= |w.ids|
    ensures Ascending(s, k)
  {
    if k == 0 then []
    else SplitsBelow(counts, w, k - 1) + (if IsVertex(counts, w, k - 1) then [k - 1] else [])
  }

  function Splits(counts: map<Node, nat>, w: Way): (s: seq<nat>)
    ensures Ascending(s, |w.ids|)
  {
    SplitsBelow(counts, w, |w.ids|)
  }

  method FindSplits(counts: map<Node, nat>, w: Way) returns (s: seq<nat>)
    ensures s == Splits(counts, w)
  {
    s := [];
    for i := 0 to |w.ids|
      invariant s == SplitsBelow(counts, w, i)
    {
      if i == 0 || i == |w.ids| - 1 || CountOf(counts, w.ids[i]) >= 2 {
        s := s + [i];
      }
    }
  }

  /** The piece of a way between two split positions. */
  function Piece(w: Way, i: nat, j: nat): seq<Point>
    requires i < j < |w.points|
  {
    w.points[i..j + 1]
  }

  function EdgeOf(w: Way, i: nat, j: nat, dist: Distance): Edge
    requires WayOk(w) && i < j < |w.points|
  {
    Edge(w.ids[i], w.ids[j], Length(Piece(w, i, j), dist), Piece(w, i, j))
  }

  /** A piece with some length between different vertices. */
  predicate Kept(e: Edge) { e.weight > 0.0 && e.u != e.v }

  function KeptOnly(e: Edge): seq<Edge> { if Kept(e) then [e] else [] }

  /** The pieces up to the k-th split position. */
  function PiecesTo(w: Way, s: seq<nat>, k: nat): seq<seq<Point>>
    requires Ascending(s, |w.points|) && k <= |s|
  {
    if k < 2 then [] else PiecesTo(w, s, k - 1) + [Piece(w, s[k - 2], s[k - 1])]
  }

  function Pieces(counts: map<Node, nat>, w: Way): seq<seq<Point>>
    requires WayOk(w)
  {
    PiecesTo(w, Splits(counts, w), |Splits(counts, w)|)
  }

  /** The edges these pieces become. */
  function EdgesTo(w: Way, s: seq<nat>, k: nat, dist: Distance): seq<Edge>
    requires WayOk(w) && Ascending(s, |w.points|) && k <= |s|
  {
    if k < 2 then [] else EdgesTo(w, s, k - 1, dist) + KeptOnly(EdgeOf(w, s[k - 2], s[k - 1], dist))
  }

  function EdgesOf(counts: map<Node, nat>, w: Way, dist: Distance): seq<Edge>
    requires WayOk(w)
  {
    EdgesTo(w, Splits(counts, w), |Splits(counts, w)|, dist)
  }

  function EdgesOfAll(counts: map<Node, nat>, ways: seq<Way>, dist: Distance): seq<Edge>
    requires forall i :: 0 <= i < |ways| ==> WayOk(ways[i])
    decreases |ways|
  {
    if ways == [] then [] else EdgesOfAll(counts, ways[..|ways| - 1], dist) + EdgesOf(counts, ways[|ways| - 1], dist)
  }

  /** The coordinates the edges leave behind; later ones win. */
  function Coordinates(edges: seq<Edge>): map<Node, Point>
    decreases |edges|
  {
    if edges == [] then map[] else WithEnds(Coordinates(edges[..|edges| - 1]), edges[|edges| - 1])
  }

  function WithEnds(known: map<Node, Point>, e: Edge): map<Node, Point> {
    if e.geom == [] then known else known[e.u := e.geom[0]][e.v := e.geom[|e.geom| - 1]]
  }

  /** `build_graph`. */
  method BuildGraph(ways: seq<Way>, dist: Distance) returns (edges: seq<Edge>, coordinates: map<Node, Point>)
    requires forall i :: 0 <= i < |ways| ==> WayOk(ways[i])
    ensures edges == EdgesOfAll(CountsOf(ways), ways, dist)
    ensures coordinates == Coordinates(edges)
  {
    var counts := CountReferences(ways);
    edges, coordinates := AddWays(counts, ways, dist);
  }

  method AddWays(counts: map<Node, nat>, ways: seq<Way>, dist: Distance)
    returns (edges: seq<Edge>, coordinates: map<Node, Point>)
    requires forall i :: 0 <= i < |ways| ==> WayOk(ways[i])
    ensures edges == EdgesOfAll(counts, ways, dist) && coordinates == Coordinates(edges)
  {
    edges, coordinates := [], map[];
    for n := 0 to |ways|
      invariant edges == EdgesOfAll(counts, ways[..n], dist) && coordinates == Coordinates(edges)
    {
      assert ways[..n + 1][..n] == ways[..n];
      var splits := FindSplits(counts, ways[n]);
      edges, coordinates := AddWay(ways[n], splits, edges, coordinates, dist);
    }
    assert ways[..|ways|] == ways;
  }

  /** Adds the piece between two split positions, if it is worth an edge. */
  method AddPiece(w: Way, i: nat, j: nat, edges: seq<Edge>, coordinates: map<Node, Point>, dist: Distance)
    returns (more: seq<Edge>, known: map<Node, Point>)
    requires WayOk(w) && i < j < |w.points| && coordinates == Coordinates(edges)
    ensures more == edges + KeptOnly(EdgeOf(w, i, j, dist)) && known == Coordinates(more)
  {
    more, known := edges, coordinates;
    var piece := Piece(w, i, j);
    var length := PolylineLength(piece, dist);
    if length > 0.0 && w.ids[i] != w.ids[j] {
      var edge := Edge(w.ids[i], w.ids[j], length, piece);
      assert (edges + [edge])[..|edges|] == edges;
      more, known := edges + [edge], coordinates[edge.u := piece[0]][edge.v := piece[|piece| - 1]];
    }
  }

  /** The inner loop: adds the edges of one way. */
  method AddWay(w: Way, s: seq<nat>, edges: seq<Edge>, coordinates: map<Node, Point>, dist: Distance)
    returns (more: seq<Edge>, known: map<Node, Point>)
    requires WayOk(w) && Ascending(s, |w.points|) && coordinates == Coordinates(edges)
    ensures more == edges + EdgesTo(w, s, |s|, dist) && known == Coordinates(more)
  {
    more, known := edges, coordinates;
    if |s| < 2 {
      return;
    }
    for k := 1 to |s|
      invariant more == edges + EdgesTo(w, s, k, dist) && known == Coordinates(more)
    {
      ghost var before, kept := EdgesTo(w, s, k, dist), KeptOnly(EdgeOf(w, s[k - 1], s[k], dist));
      more, known := AddPiece(w, s[k - 1], s[k], more, known, dist);
      assert edges + before + kept == edges + (before + kept);
    }
  }

  // ----- What splitting keeps

  /** Joins pieces one after the other. */
  function Glued(pieces: seq<seq<Point>>): seq<Point>
    decreases |pieces|
  {
    if pieces == [] then [] else Joined(Glued(pieces[..|pieces| - 1]), pieces[|pieces| - 1])
  }

  function LengthOfAll(pieces: seq<seq<Point>>, dist: Distance): real
    decreases |pieces|
  {
    if pieces == [] then 0.0
    else LengthOfAll(pieces[..|pieces| - 1], dist) + Length(pieces[|pieces| - 1], dist)
  }

  lemma {:induction false} GluedOneMore(pieces: seq<seq<Point>>, piece: seq<Point>)
    ensures Glued(pieces + [piece]) == Joined(Glued(pieces), piece)
  {
    assert (pieces + [piece])[..|pieces|] == pieces;
  }

  lemma {:induction false} OnePieceMore(pieces: seq<seq<Point>>, piece: seq<Point>, dist: Distance)
    ensures LengthOfAll(pieces + [piece], dist) == LengthOfAll(pieces, dist) + Length(piece, dist)
  {
    assert (pieces + [piece])[..|pieces|] == pieces;
  }

  lemma {:induction false} JoinPrefix(points: seq<Point>, middle: nat, end: nat)
    requires 0 < middle < end <= |points|
    ensures Joined(points[..middle], points[middle - 1..end]) == points[..end]
  {
  }

  lemma {:induction false} GluedPrefix(w: Way, s: seq<nat>, k: nat, end: nat)
    requires Ascending(s, |w.points|) && 2 <= k <= |s| && s[0] == 0 && end == s[k - 1] + 1
    ensures Glued(PiecesTo(w, s, k)) == w.points[..end]
    decreases k
  {
    var before, middle := PiecesTo(w, s, k - 1), s[k - 2] + 1;
    GluedOneMore(before, w.points[middle - 1..end]);
    if k > 2 {
      GluedPrefix(w, s, k - 1, middle);
      JoinPrefix(w.points, middle, end);
    } else {
      assert [] + w.points[0..end] == w.points[..end];
    }
  }

  lemma {:induction false} LengthOfGlued(w: Way, s: seq<nat>, k: nat, dist: Distance)
    requires Ascending(s, |w.points|) && 2 <= k <= |s| && s[0] == 0
    ensures LengthOfAll(PiecesTo(w, s, k), dist) == Length(Glued(PiecesTo(w, s, k)), dist)
    decreases k
  {
    var before, piece := PiecesTo(w, s, k - 1), Piece(w, s[k - 2], s[k - 1]);
    if k > 2 {
      LengthOfGlued(w, s, k - 1, dist);
      GluedPrefix(w, s, k - 1, s[k - 2] + 1);
      LengthOfOneMore(before, piece, dist);
    } else {
      LengthOfFirst(before, piece, dist);
    }
  }

  lemma {:induction false} LengthOfOneMore(before: seq<seq<Point>>, piece: seq<Point>, dist: Distance)
    requires before != [] && Glued(before) != [] && piece != [] && Glued(before)[|Glued(before)| - 1] == piece[0]
    requires LengthOfAll(before, dist) == Length(Glued(before), dist)
    ensures LengthOfAll(before + [piece], dist) == Length(Glued(before + [piece]), dist)
  {
    GluedOneMore(before, piece);
    OnePieceMore(before, piece, dist);
    LengthOfJoin(Glued(before), piece, dist);
  }

  lemma {:induction false} LengthOfFirst(before: seq<seq<Point>>, piece: seq<Point>, dist: Distance)
    requires before == []
    ensures LengthOfAll(before + [piece], dist) == Length(Glued(before + [piece]), dist)
  {
    GluedOneMore(before, piece);
    OnePieceMore(before, piece, dist);
    assert [] + piece == piece;
  }

  lemma {:induction false} SplitsStart(counts: map<Node, nat>, w: Way, k: nat)
    requires 0 < k <= |w.ids|
    ensures var s := SplitsBelow(counts, w, k);
            s != [] && s[0] == 0
    decreases k
  {
    if k > 1 {
      SplitsStart(counts, w, k - 1);
    } else {
      assert SplitsBelow(counts, w, 0) == [];
    }
  }

  lemma {:induction false} SplitsSpanTheWay(counts: map<Node, nat>, w: Way)
    requires WayOk(w)
    ensures var s := Splits(counts, w);
            |s| >= 2 && s[0] == 0 && s[|s| - 1] == |w.ids| - 1
  {
    SplitsStart(counts, w, |w.ids| - 1);
  }

  /** Splitting preserves geometry: gluing a way's pieces at their shared ends gives back the way, and their
      lengths add up to its length. */
  lemma {:induction false} PiecesMakeUpTheWay(counts: map<Node, nat>, w: Way, dist: Distance)
    requires WayOk(w)
    ensures Glued(Pieces(counts, w)) == w.points
    ensures LengthOfAll(Pieces(counts, w), dist) == Length(w.points, dist)
  {
    SplitsSpanTheWay(counts, w);
    GluedPrefix(w, Splits(counts, w), |Splits(counts, w)|, |w.points|);
    LengthOfGlued(w, Splits(counts, w), |Splits(counts, w)|, dist);
    assert w.points[..|w.points|] == w.points;
  }

  function Weights(edges: seq<Edge>): real
    decreases |edges|
  {
    if edges == [] then 0.0 else Weights(edges[..|edges| - 1]) + edges[|edges| - 1].weight
  }

  /** The length of the pieces that become no edge: those without length, and loops. */
  function DroppedTo(w: Way, s: seq<nat>, k: nat, dist: Distance): real
    requires WayOk(w) && Ascending(s, |w.points|) && k <= |s|
  {
    if k < 2 then 0.0
    else
      var e := EdgeOf(w, s[k - 2], s[k - 1], dist);
      DroppedTo(w, s, k - 1, dist) + if Kept(e) then 0.0 else e.weight
  }

  function DroppedLength(counts: map<Node, nat>, w: Way, dist: Distance): real
    requires WayOk(w)
  {
    DroppedTo(w, Splits(counts, w), |Splits(counts, w)|, dist)
  }

  lemma {:induction false} WeightsOneMore(edges: seq<Edge>, e: Edge)
    ensures Weights(edges + KeptOnly(e)) == Weights(edges) + if Kept(e) then e.weight else 0.0
  {
    if Kept(e) {
      assert (edges + [e])[..|edges|] == edges;
    } else {
      assert edges + [] == edges;
    }
  }

  lemma {:induction false} KeptAndDropped(w: Way, s: seq<nat>, k: nat, dist: Distance)
    requires WayOk(w) && Ascending(s, |w.points|) && k <= |s|
    ensures Weights(EdgesTo(w, s, k, dist)) + DroppedTo(w, s, k, dist) == LengthOfAll(PiecesTo(w, s, k), dist)
    decreases k
  {
    if k >= 2 {
      KeptAndDropped(w, s, k - 1, dist);
      OnePieceMore(PiecesTo(w, s, k - 1), Piece(w, s[k - 2], s[k - 1]), dist);
      WeightsOneMore(EdgesTo(w, s, k - 1, dist), EdgeOf(w, s[k - 2], s[k - 1], dist));
    }
  }

  /** Conservation: the weights of a way's edges and the length of its dropped pieces sum to its length. */
  lemma {:induction false} LengthIsConserved(counts: map<Node, nat>, w: Way, dist: Distance)
    requires WayOk(w)
    ensures Weights(EdgesOf(counts, w, dist)) + DroppedLength(counts, w, dist) == Length(w.points, dist)
  {
    PiecesMakeUpTheWay(counts, w, dist);
    KeptAndDropped(w, Splits(counts, w), |Splits(counts, w)|, dist);
  }

  // ----- Where edges meet

  lemma {:induction false} SplitsAreVertices(counts: map<Node, nat>, w: Way, k: nat, i: nat)
    requires i < k <= |w.ids|
    ensures i in SplitsBelow(counts, w, k) <==> IsVertex(counts, w, i)
    decreases k
  {
    if i < k - 1 {
      SplitsAreVertices(counts, w, k - 1, i);
    } else {
      var before := SplitsBelow(counts, w, k - 1);
      assert Ascending(before, i);
      assert i !in before;
    }
  }

  lemma {:induction false} NothingBetween(s: seq<nat>, n: nat, a: nat, k: nat)
    requires Ascending(s, n) && a + 1 < |s| && s[a] < k < s[a + 1]
    ensures k !in s
  {
    forall b | 0 <= b < |s| ensures s[b] != k {
      assert b < a ==> s[b] < s[a];
      assert b > a + 1 ==> s[a + 1] < s[b];
    }
  }

  /** An edge that is a piece of its way between two vertices, with no vertex inside. */
  ghost predicate IsCleanPiece(counts: map<Node, nat>, w: Way, e: Edge, i: nat, j: nat, dist: Distance) {
    && WayOk(w) && i < j < |w.points| && e == EdgeOf(w, i, j, dist) && Kept(e)
    && IsVertex(counts, w, i) && IsVertex(counts, w, j)
    && forall k: nat :: i < k < j ==> !IsVertex(counts, w, k)
  }

  lemma {:induction false} PieceIsClean(counts: map<Node, nat>, w: Way, a: nat, dist: Distance)
    requires WayOk(w) && a + 1 < |Splits(counts, w)|
    requires Kept(EdgeOf(w, Splits(counts, w)[a], Splits(counts, w)[a + 1], dist))
    ensures var (i, j) := (Splits(counts, w)[a], Splits(counts, w)[a + 1]);
            IsCleanPiece(counts, w, EdgeOf(w, i, j, dist), i, j, dist)
  {
    var s := Splits(counts, w);
    SplitsAreVertices(counts, w, |w.ids|, s[a]);
    SplitsAreVertices(counts, w, |w.ids|, s[a + 1]);
    forall k: nat | s[a] < k < s[a + 1] ensures !IsVertex(counts, w, k) {
      NothingBetween(s, |w.ids|, a, k);
      SplitsAreVertices(counts, w, |w.ids|, k);
    }
  }

  lemma {:induction false} EdgeComesFrom(w: Way, s: seq<nat>, k: nat, e: Edge, dist: Distance) returns (a: nat)
    requires WayOk(w) && Ascending(s, |w.points|) && k <= |s| && e in EdgesTo(w, s, k, dist)
    ensures a + 1 < |s| && e == EdgeOf(w, s[a], s[a + 1], dist) && Kept(e)
    decreases k
  {
    if e in EdgesTo(w, s, k - 1, dist) {
      a := EdgeComesFrom(w, s, k - 1, e, dist);
    } else {
      a := k - 2;
    }
  }

  lemma {:induction false} CountsIfPresent(ids: seq<Node>, k: nat)
    requires k < |ids|
    ensures Occurrences(ids, ids[k]) >= 1
    decreases |ids|
  {
    if k < |ids| - 1 {
      CountsIfPresent(ids[..|ids| - 1], k);
    }
  }

  lemma {:induction false} OccursSomewhere(ways: seq<Way>, n: nat, k: nat)
    requires n < |ways| && k < |ways[n].ids|
    ensures References(ways, ways[n].ids[k]) >= 1
    decreases |ways|
  {
    if n == |ways| - 1 {
      CountsIfPresent(ways[n].ids, k);
    } else {
      OccursSomewhere(ways[..|ways| - 1], n, k);
    }
  }

  /** Every edge is a piece of its way with the way's geometry, its ends are way ends or nodes shared between
      ways, and every node inside it occurs once in all ways: edges meet at their end vertices only. */
  lemma {:induction false} InteriorsAreUnshared(ways: seq<Way>, n: nat, e: Edge, dist: Distance)
    returns (i: nat, j: nat)
    requires n < |ways| && WayOk(ways[n]) && e in EdgesOf(CountsOf(ways), ways[n], dist)
    ensures var w := ways[n];
            && i < j < |w.ids| && e == EdgeOf(w, i, j, dist) && e.weight > 0.0 && e.u != e.v
            && (i == 0 || References(ways, w.ids[i]) >= 2)
            && (j == |w.ids| - 1 || References(ways, w.ids[j]) >= 2)
            && forall k: nat :: i < k < j ==> References(ways, w.ids[k]) == 1
  {
    var w, counts := ways[n], CountsOf(ways);
    var a := EdgeComesFrom(w, Splits(counts, w), |Splits(counts, w)|, e, dist);
    PieceIsClean(counts, w, a, dist);
    i, j := Splits(counts, w)[a], Splits(counts, w)[a + 1];
    CountsAreReferences(ways, w.ids[i]);
    CountsAreReferences(ways, w.ids[j]);
    forall k: nat | i < k < j ensures References(ways, w.ids[k]) == 1 {
      assert !IsVertex(counts, w, k);
      CountsAreReferences(ways, w.ids[k]);
      OccursSomewhere(ways, n, k);
    }
  }

  // ----- Which pieces become edges

  /** A way is split at its ends and at nodes that occur more than once in all ways. */
  ghost predicate IsSplit(ways: seq<Way>, w: Way, i: nat)
    requires i < |w.ids|
  {
    i == 0 || i == |w.ids| - 1 || References(ways, w.ids[i]) >= 2
  }

  /** From one split of the n-th way to the next. */
  ghost predicate IsSegment(ways: seq<Way>, n: nat, i: nat, j: nat) {
    && n < |ways| && WayOk(ways[n]) && i < j < |ways[n].ids|
    && IsSplit(ways, ways[n], i) && IsSplit(ways, ways[n], j)
    && forall k: nat :: i < k < j ==> !IsSplit(ways, ways[n], k)
  }

  /** The edge is such a segment with its nodes, its geometry and its length, has some length, and is no loop. */
  ghost predicate IsEdgeOf(ways: seq<Way>, n: nat, i: nat, j: nat, e: Edge, dist: Distance) {
    && IsSegment(ways, n, i, j)
    && e.u == ways[n].ids[i] && e.v == ways[n].ids[j] && e.geom == ways[n].points[i..j + 1]
    && e.weight == Length(e.geom, dist) && e.weight > 0.0 && e.u != e.v
  }

  lemma {:induction false} SplitIffVertex(ways: seq<Way>, w: Way, i: nat)
    requires i < |w.ids|
    ensures IsSplit(ways, w, i) <==> i in Splits(CountsOf(ways), w)
  {
    CountsAreReferences(ways, w.ids[i]);
    SplitsAreVertices(CountsOf(ways), w, |w.ids|, i);
  }

  lemma {:induction false} AscendingIffLater(s: seq<nat>, n: nat, a: nat, b: nat)
    requires Ascending(s, n) && a < |s| && b < |s|
    ensures s[a] < s[b] <==> a < b
    ensures s[a] == s[b] <==> a == b
  {
  }

  lemma {:induction false} SegmentIsConsecutive(ways: seq<Way>, n: nat, i: nat, j: nat) returns (a: nat)
    requires IsSegment(ways, n, i, j)
    ensures var s := Splits(CountsOf(ways), ways[n]);
            a + 1 < |s| && s[a] == i && s[a + 1] == j
  {
    var w := ways[n];
    var s := Splits(CountsOf(ways), w);
    SplitIffVertex(ways, w, i);
    SplitIffVertex(ways, w, j);
    a :| 0 <= a < |s| && s[a] == i;
    var b: nat :| b < |s| && s[b] == j;
    AscendingIffLater(s, |w.ids|, a, b);
    assert s[a + 1] in s;
    SplitIffVertex(ways, w, s[a + 1]);
    AscendingIffLater(s, |w.ids|, a + 1, b);
    AscendingIffLater(s, |w.ids|, a, a + 1);
  }

  lemma {:induction false} EdgeIsAmong(w: Way, s: seq<nat>, k: nat, a: nat, dist: Distance)
    requires WayOk(w) && Ascending(s, |w.points|) && a + 1 < k <= |s|
    ensures var e := EdgeOf(w, s[a], s[a + 1], dist);
            e.weight > 0.0 && e.u != e.v ==> e in EdgesTo(w, s, k, dist)
    decreases k
  {
    if a + 2 < k {
      EdgeIsAmong(w, s, k - 1, a, dist);
    }
  }

  lemma {:induction false} AllHasEach(counts: map<Node, nat>, ways: seq<Way>, n: nat, e: Edge, dist: Distance)
    requires (forall i :: 0 <= i < |ways| ==> WayOk(ways[i])) && n < |ways| && e in EdgesOf(counts, ways[n], dist)
    ensures e in EdgesOfAll(counts, ways, dist)
    decreases |ways|
  {
    if n < |ways| - 1 {
      AllHasEach(counts, ways[..|ways| - 1], n, e, dist);
    }
  }

  lemma {:induction false} EachIsOfOne(counts: map<Node, nat>, ways: seq<Way>, e: Edge, dist: Distance)
    returns (n: nat)
    requires (forall i :: 0 <= i < |ways| ==> WayOk(ways[i])) && e in EdgesOfAll(counts, ways, dist)
    ensures n < |ways| && e in EdgesOf(counts, ways[n], dist)
    decreases |ways|
  {
    var last := |ways| - 1;
    if e in EdgesOf(counts, ways[last], dist) {
      n := last;
    } else {
      n := EachIsOfOne(counts, ways[..last], e, dist);
    }
  }

  /** Every segment that has some length and two different ends becomes an edge. */
  lemma {:induction false} SegmentBecomesEdge(ways: seq<Way>, n: nat, i: nat, j: nat, e: Edge, dist: Distance)
    requires (forall k :: 0 <= k < |ways| ==> WayOk(ways[k])) && IsEdgeOf(ways, n, i, j, e, dist)
    ensures e in EdgesOfAll(CountsOf(ways), ways, dist)
  {
    var s := Splits(CountsOf(ways), ways[n]);
    var a := SegmentIsConsecutive(ways, n, i, j);
    EdgeIsAmong(ways[n], s, |s|, a, dist);
    AllHasEach(CountsOf(ways), ways, n, e, dist);
  }

  lemma {:induction false} EdgeIsSegment(ways: seq<Way>, e: Edge, dist: Distance) returns (n: nat, i: nat, j: nat)
    requires (forall k :: 0 <= k < |ways| ==> WayOk(ways[k])) && e in EdgesOfAll(CountsOf(ways), ways, dist)
    ensures IsEdgeOf(ways, n, i, j, e, dist)
  {
    n := EachIsOfOne(CountsOf(ways), ways, e, dist);
    i, j := InteriorsAreUnshared(ways, n, e, dist);
  }

  /** The graph has exactly these edges: the segments between neighbouring splits that have some length and two
      different ends. */
  lemma {:induction false} EdgesAreTheSegments(ways: seq<Way>, e: Edge, dist: Distance)
    requires forall k :: 0 <= k < |ways| ==> WayOk(ways[k])
    ensures e in EdgesOfAll(CountsOf(ways), ways, dist) <==> exists n, i, j :: IsEdgeOf(ways, n, i, j, e, dist)
  {
    if e in EdgesOfAll(CountsOf(ways), ways, dist) {
      var n, i, j := EdgeIsSegment(ways, e, dist);
    }
    if n, i, j :| IsEdgeOf(ways, n, i, j, e, dist) {
      SegmentBecomesEdge(ways, n, i, j, e, dist);
    }
  }

  // ----- What is lost

  /** The length of the loops among the pieces. */
  function LoopsTo(w: Way, s: seq<nat>, k: nat, dist: Distance): real
    requires WayOk(w) && Ascending(s, |w.points|) && k <= |s|
  {
    if k < 2 then 0.0
    else
      LoopsTo(w, s, k - 1, dist) +
      if w.ids[s[k - 2]] == w.ids[s[k - 1]] then Length(w.points[s[k - 2]..s[k - 1] + 1], dist) else 0.0
  }

  lemma {:induction false} OnlyLoopsAreDropped(w: Way, s: seq<nat>, k: nat, dist: Distance)
    requires WayOk(w) && Ascending(s, |w.points|) && k <= |s| && IsDistance(dist)
    ensures DroppedTo(w, s, k, dist) == LoopsTo(w, s, k, dist)
    decreases k
  {
    if k >= 2 {
      OnlyLoopsAreDropped(w, s, k - 1, dist);
      LengthIsNonnegative(Piece(w, s[k - 2], s[k - 1]), dist);
    }
  }

  /** Only loops cost length: the weights of a way's edges and the length of its loops sum to its length. */
  lemma {:induction false} OnlyLoopsAreLost(counts: map<Node, nat>, w: Way, dist: Distance)
    requires WayOk(w) && IsDistance(dist)
    ensures var s := Splits(counts, w);
            Weights(EdgesOf(counts, w, dist)) + LoopsTo(w, s, |s|, dist) == Length(w.points, dist)
  {
    LengthIsConserved(counts, w, dist);
    OnlyLoopsAreDropped(w, Splits(counts, w), |Splits(counts, w)|, dist);
  }

  lemma {:induction false} NoLoops(w: Way, s: seq<nat>, k: nat, dist: Distance)
    requires WayOk(w) && Ascending(s, |w.points|) && k <= |s|
    requires forall a :: 0 <= a < |s| - 1 ==> w.ids[s[a]] != w.ids[s[a + 1]]
    ensures LoopsTo(w, s, k, dist) == 0.0
    decreases k
  {
    if k >= 2 {
      NoLoops(w, s, k - 1, dist);
      assert w.ids[s[k - 2]] != w.ids[s[k - 2 + 1]];
    }
  }

  /** So a way whose neighbouring splits are different nodes is in the graph with its whole length. */
  lemma {:induction false} LooplessWayIsWhole(counts: map<Node, nat>, w: Way, dist: Distance)
    requires WayOk(w) && IsDistance(dist)
    requires var s := Splits(counts, w);
             forall a :: 0 <= a < |s| - 1 ==> w.ids[s[a]] != w.ids[s[a + 1]]
    ensures Weights(EdgesOf(counts, w, dist)) == Length(w.points, dist)
  {
    OnlyLoopsAreLost(counts, w, dist);
    NoLoops(w, Splits(counts, w), |Splits(counts, w)|, dist);
  }
}

/** Stitching a path through the graph into one polyline. */
module RailStitching {
  import opened Optional
  import opened Polylines
  import opened RailSplitting

  predicate Connects(e: Edge, u: Node, v: Node) { (e.u == u && e.v == v) || (e.u == v && e.v == u) }

  /** The lightest of the parallel edges between two vertices, the first one among equals. */
  function Lightest(edges: seq<Edge>, u: Node, v: Node): (r: Option<Edge>)
    ensures r.Some? ==> r.value in edges && Connects(r.value, u, v)
    ensures forall e :: e in edges && Connects(e, u, v) ==> r.Some? && r.value.weight <= e.weight
    decreases |edges|
  {
    if edges == [] then None
    else
      var best, e := Lightest(edges[..|edges| - 1], u, v), edges[|edges| - 1];
      if Connects(e, u, v) && (best == None || e.weight < best.value.weight) then Some(e) else best
  }

  /** The geometry of an edge, leaving from u. */
  function Oriented(e: Edge, u: Node): seq<Point> {
    if e.u == u then e.geom else if e.v == u then Reversed(e.geom) else e.geom
  }

  function StitchedOne(out: seq<Point>, edges: seq<Edge>, u: Node, v: Node): seq<Point> {
    match Lightest(edges, u, v)
    case None => out
    case Some(e) => Joined(out, Oriented(e, u))
  }

  /** `stitch_polyline`, over the first vertices of a path. */
  function Stitched(edges: seq<Edge>, path: seq<Node>): seq<Point>
    decreases |path|
  {
    if |path| < 2 then []
    else StitchedOne(Stitched(edges, path[..|path| - 1]), edges, path[|path| - 2], path[|path| - 1])
  }

  /** `stitch_polyline`. */
  method StitchPolyline(edges: seq<Edge>, path: seq<Node>) returns (out: seq<Point>)
    ensures out == Stitched(edges, path)
  {
    out := [];
    if |path| < 2 {
      return;
    }
    for i := 1 to |path|
      invariant out == Stitched(edges, path[..i])
    {
      assert path[..i + 1][..i] == path[..i];
      var best := FindLightest(edges, path[i - 1], path[i]);
      if best.Some? {
        var segment := Oriented(best.value, path[i - 1]);
        if out == [] {
          out := segment;
        } else if segment != [] {
          out := out + segment[1..];
        }
      }
    }
    assert path[..|path|] == path;
  }

  method FindLightest(edges: seq<Edge>, u: Node, v: Node) returns (best: Option<Edge>)
    ensures best == Lightest(edges, u, v)
  {
    best := None;
    for i := 0 to |edges|
      invariant best == Lightest(edges[..i], u, v)
    {
      assert edges[..i + 1][..i] == edges[..i];
      if Connects(edges[i], u, v) && (best == None || edges[i].weight < best.value.weight) {
        best := Some(edges[i]);
      }
    }
    assert edges[..|edges|] == edges;
  }

  /** The i-th edge is the lightest of those between two vertices, and the first one among equals. */
  ghost predicate IsFirstLightest(edges: seq<Edge>, i: nat, u: Node, v: Node) {
    && i < |edges| && {edges[i].u, edges[i].v} == {u, v}
    && (forall k :: 0 <= k < |edges| && {edges[k].u, edges[k].v} == {u, v} ==> edges[i].weight <= edges[k].weight)
    && (forall k :: 0 <= k < i && {edges[k].u, edges[k].v} == {u, v} ==> edges[i].weight < edges[k].weight)
  }

  lemma {:induction false} ConnectsIff(e: Edge, u: Node, v: Node)
    ensures Connects(e, u, v) <==> {e.u, e.v} == {u, v}
  {
    if {e.u, e.v} == {u, v} {
      assert e.u in {u, v} && e.v in {u, v} && u in {e.u, e.v} && v in {e.u, e.v};
    }
  }

  ghost predicate LightestAt(edges: seq<Edge>, i: nat, u: Node, v: Node) {
    && i < |edges| && Connects(edges[i], u, v)
    && (forall k :: 0 <= k < |edges| && Connects(edges[k], u, v) ==> edges[i].weight <= edges[k].weight)
    && (forall k :: 0 <= k < i && Connects(edges[k], u, v) ==> edges[i].weight < edges[k].weight)
  }

  lemma {:induction false} LightestOneMore(edges: seq<Edge>, i: nat, n: nat, u: Node, v: Node)
    requires n < |edges| && LightestAt(edges[..n], i, u, v)
    ensures Connects(edges[n], u, v) && edges[n].weight < edges[i].weight ==> LightestAt(edges[..n + 1], n, u, v)
    ensures !(Connects(edges[n], u, v) && edges[n].weight < edges[i].weight) ==> LightestAt(edges[..n + 1], i, u, v)
  {
    assert edges[..n + 1] == edges[..n] + [edges[n]];
  }

  lemma {:induction false} LightestAmong(edges: seq<Edge>, u: Node, v: Node) returns (i: nat)
    ensures Lightest(edges, u, v) == None ==> forall k :: 0 <= k < |edges| ==> !Connects(edges[k], u, v)
    ensures Lightest(edges, u, v).Some? ==>
              LightestAt(edges, i, u, v) && edges[i] == Lightest(edges, u, v).value
    decreases |edges|
  {
    i := 0;
    if edges != [] {
      var n := |edges| - 1;
      i := LightestAmong(edges[..n], u, v);
      var best := Lightest(edges[..n], u, v);
      assert edges[..n + 1] == edges;
      if best.Some? {
        LightestOneMore(edges, i, n, u, v);
      }
      if Connects(edges[n], u, v) && (best == None || edges[n].weight < best.value.weight) {
        i := n;
      }
    }
  }

  /** No edge is found exactly when none runs between the two vertices; otherwise it is the first lightest. */
  lemma {:induction false} LightestIsFirst(edges: seq<Edge>, u: Node, v: Node) returns (i: nat)
    ensures Lightest(edges, u, v) == None <==> forall k :: 0 <= k < |edges| ==> {edges[k].u, edges[k].v} != {u, v}
    ensures Lightest(edges, u, v).Some? ==>
              IsFirstLightest(edges, i, u, v) && edges[i] == Lightest(edges, u, v).value
  {
    i := LightestAmong(edges, u, v);
    forall k | 0 <= k < |edges| ensures Connects(edges[k], u, v) <==> {edges[k].u, edges[k].v} == {u, v} {
      ConnectsIff(edges[k], u, v);
    }
  }

  // ----- Edges of a graph whose nodes have one place each

  /** An edge runs from the place of u to the place of v and weighs its length. */
  ghost predicate Placed(e: Edge, at: Node -> Point, dist: Distance) {
    && e.geom != [] && e.geom[0] == at(e.u) && e.geom[|e.geom| - 1] == at(e.v) && e.weight == Length(e.geom, dist)
  }

  ghost predicate AllPlaced(edges: seq<Edge>, at: Node -> Point, dist: Distance) {
    forall e :: e in edges ==> Placed(e, at, dist)
  }

  ghost predicate WayPlaced(w: Way, at: Node -> Point) {
    WayOk(w) && forall i :: 0 <= i < |w.ids| ==> w.points[i] == at(w.ids[i])
  }

  lemma {:induction false} EdgesOfWayArePlaced(w: Way, s: seq<nat>, k: nat, at: Node -> Point, dist: Distance)
    requires WayPlaced(w, at) && Ascending(s, |w.points|) && k <= |s|
    ensures AllPlaced(EdgesTo(w, s, k, dist), at, dist)
    decreases k
  {
    if k >= 2 {
      EdgesOfWayArePlaced(w, s, k - 1, at, dist);
      assert Placed(EdgeOf(w, s[k - 2], s[k - 1], dist), at, dist);
    }
  }

  /** When every node has one place, the graph that is built satisfies what stitching relies on. */
  lemma {:induction false} BuiltEdgesArePlaced(counts: map<Node, nat>, ways: seq<Way>,
                                               at: Node -> Point, dist: Distance)
    requires forall i :: 0 <= i < |ways| ==> WayPlaced(ways[i], at)
    ensures forall i :: 0 <= i < |ways| ==> WayOk(ways[i])
    ensures AllPlaced(EdgesOfAll(counts, ways, dist), at, dist)
    decreases |ways|
  {
    if ways != [] {
      BuiltEdgesArePlaced(counts, ways[..|ways| - 1], at, dist);
      var w := ways[|ways| - 1];
      EdgesOfWayArePlaced(w, Splits(counts, w), |Splits(counts, w)|, at, dist);
    }
  }

  lemma {:induction false} CoordinatesArePlaces(edges: seq<Edge>, at: Node -> Point, dist: Distance)
    requires AllPlaced(edges, at, dist)
    ensures forall id :: id in Coordinates(edges) ==> Coordinates(edges)[id] == at(id)
    ensures forall e :: e in edges ==> e.u in Coordinates(edges) && e.v in Coordinates(edges)
    decreases |edges|
  {
    if edges != [] {
      var n := |edges| - 1;
      assert forall e :: e in edges[..n] ==> e in edges;
      assert edges[n] in edges;
      CoordinatesArePlaces(edges[..n], at, dist);
    }
  }

  // ----- Stitching

  /** Consecutive vertices of the path share an edge. */
  ghost predicate Walkable(edges: seq<Edge>, path: seq<Node>) {
    forall i :: 0 <= i < |path| - 1 ==> Lightest(edges, path[i], path[i + 1]).Some?
  }

  function LightestWeights(edges: seq<Edge>, path: seq<Node>): real
    decreases |path|
  {
    if |path| < 2 then 0.0
    else
      var best := Lightest(edges, path[|path| - 2], path[|path| - 1]);
      LightestWeights(edges, path[..|path| - 1]) + if best.Some? then best.value.weight else 0.0
  }

  lemma {:induction false} OrientedRuns(e: Edge, u: Node, v: Node, at: Node -> Point, dist: Distance)
    requires Placed(e, at, dist) && Connects(e, u, v) && IsDistance(dist)
    ensures Runs(Oriented(e, u), at(u), at(v), e.weight, dist)
  {
    LengthOfReverse(e.geom, dist);
  }

  lemma {:induction false} JoinEnds(a: seq<Point>, b: seq<Point>)
    requires a != [] && b != [] && a[|a| - 1] == b[0]
    ensures Joined(a, b) != [] && Joined(a, b)[0] == a[0] && Joined(a, b)[|Joined(a, b)| - 1] == b[|b| - 1]
  {
    if |b| == 1 {
      assert Joined(a, b) == a;
    }
  }

  /** A connected polyline between two places, of a given length. */
  ghost predicate Runs(points: seq<Point>, from: Point, to: Point, length: real, dist: Distance) {
    points != [] && points[0] == from && points[|points| - 1] == to && Length(points, dist) == length
  }

  lemma {:induction false} JoinRuns(a: seq<Point>, b: seq<Point>, from: Point, via: Point, to: Point,
                                    first: real, second: real, dist: Distance)
    requires Runs(a, from, via, first, dist) && Runs(b, via, to, second, dist)
    ensures Runs(Joined(a, b), from, to, first + second, dist)
  {
    LengthOfJoin(a, b, dist);
    JoinEnds(a, b);
  }

  lemma {:induction false} WalkablePrefix(edges: seq<Edge>, path: seq<Node>, n: nat)
    requires Walkable(edges, path) && n <= |path|
    ensures Walkable(edges, path[..n])
  {
  }

  /** Stitching a walkable path yields a connected polyline from its first vertex to its last, whose length is
      the sum of the lightest edge weights along the path. */
  lemma {:induction false} StitchingFollowsThePath(edges: seq<Edge>, path: seq<Node>, at: Node -> Point, dist: Distance)
    requires IsDistance(dist) && AllPlaced(edges, at, dist) && |path| >= 2 && Walkable(edges, path)
    ensures Runs(Stitched(edges, path), at(path[0]), at(path[|path| - 1]), LightestWeights(edges, path), dist)
    decreases |path|
  {
    var n := |path| - 1;
    var init := path[..n];
    assert Lightest(edges, path[n - 1], path[n - 1 + 1]).Some?;
    if n > 1 {
      WalkablePrefix(edges, path, n);
      StitchingFollowsThePath(edges, init, at, dist);
      NextLegRuns(edges, Stitched(edges, init), at(path[0]), path[n - 1], path[n], LightestWeights(edges, init), at,
                  dist);
    } else {
      FirstLegRuns(edges, path[0], path[1], at, dist);
    }
  }

  /** One leg more: from where the polyline ends along the lightest edge to the next vertex. */
  lemma {:induction false} NextLegRuns(edges: seq<Edge>, out: seq<Point>, from: Point, u: Node, v: Node, length: real,
                                       at: Node -> Point, dist: Distance)
    requires IsDistance(dist) && AllPlaced(edges, at, dist) && Lightest(edges, u, v).Some?
    requires Runs(out, from, at(u), length, dist)
    ensures Runs(StitchedOne(out, edges, u, v), from, at(v), length + Lightest(edges, u, v).value.weight, dist)
  {
    var e := Lightest(edges, u, v).value;
    OrientedRuns(e, u, v, at, dist);
    JoinRuns(out, Oriented(e, u), from, at(u), at(v), length, e.weight, dist);
  }

  lemma {:induction false} FirstLegRuns(edges: seq<Edge>, u: Node, v: Node, at: Node -> Point, dist: Distance)
    requires IsDistance(dist) && AllPlaced(edges, at, dist) && Lightest(edges, u, v).Some?
    ensures Runs(StitchedOne([], edges, u, v), at(u), at(v), Lightest(edges, u, v).value.weight, dist)
  {
    var e := Lightest(edges, u, v).value;
    OrientedRuns(e, u, v, at, dist);
    assert Joined([], Oriented(e, u)) == Oriented(e, u);
  }

  lemma {:induction false} StitchingGoesOn(edges: seq<Edge>, path: seq<Node>, k: nat)
    requires k <= |path|
    ensures Stitched(edges, path[..k]) <= Stitched(edges, path)
    decreases |path|
  {
    if k < |path| {
      var init := path[..|path| - 1];
      StitchingGoesOn(edges, init, k);
      assert init[..k] == path[..k];
    } else {
      assert path[..k] == path;
    }
  }

  /** And it passes the vertices of the path in their places, each after the lightest edges up to it. */
  lemma {:induction false} RoutePassesItsVertices(edges: seq<Edge>, path: seq<Node>, i: nat, at: Node -> Point,
                                                  dist: Distance)
    returns (k: nat)
    requires IsDistance(dist) && AllPlaced(edges, at, dist) && 1 <= i < |path| && Walkable(edges, path)
    ensures var out := Stitched(edges, path);
            && k < |out| && out[k] == at(path[i])
            && Length(out[..k + 1], dist) == LightestWeights(edges, path[..i + 1])
  {
    var head := path[..i + 1];
    WalkablePrefix(edges, path, i + 1);
    StitchingFollowsThePath(edges, head, at, dist);
    StitchingGoesOn(edges, path, i + 1);
    k := |Stitched(edges, head)| - 1;
    PrefixEnds(Stitched(edges, head), Stitched(edges, path));
  }

  lemma {:induction false} PrefixEnds(a: seq<Point>, b: seq<Point>)
    requires a <= b && a != []
    ensures b[|a| - 1] == a[|a| - 1] && b[..|a|] == a
  {
  }

  lemma {:induction false} EndsHavePlaces(edges: seq<Edge>, path: seq<Node>, at: Node -> Point, dist: Distance)
    requires AllPlaced(edges, at, dist) && |path| >= 2 && Walkable(edges, path)
    ensures var (places, last) := (Coordinates(edges), |path| - 1);
            && path[0] in places && places[path[0]] == at(path[0])
            && path[last] in places && places[path[last]] == at(path[last])
  {
    CoordinatesArePlaces(edges, at, dist);
    var first, final := Lightest(edges, path[0], path[1]), Lightest(edges, path[|path| - 2], path[|path| - 1]);
    assert first.Some? && final.Some?;
    assert first.value in edges && final.value in edges;
  }

  /** A route through the built graph, from the ways to the polyline. */
  lemma {:induction false} BuiltRoutesAreConnected(ways: seq<Way>, edges: seq<Edge>, path: seq<Node>,
                                                   at: Node -> Point, dist: Distance)
    requires IsDistance(dist) && |path| >= 2
    requires forall i :: 0 <= i < |ways| ==> WayOk(ways[i]) && WayPlaced(ways[i], at)
    requires edges == EdgesOfAll(CountsOf(ways), ways, dist) && Walkable(edges, path)
    ensures var (out, places, last) := (Stitched(edges, path), Coordinates(edges), |path| - 1);
            && path[0] in places && path[last] in places
            && Runs(out, places[path[0]], places[path[last]], LightestWeights(edges, path), dist)
  {
    BuiltEdgesArePlaced(CountsOf(ways), ways, at, dist);
    EndsHavePlaces(edges, path, at, dist);
    StitchingFollowsThePath(edges, path, at, dist);
  }
}
