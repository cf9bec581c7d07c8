/** The order in which the scheme writes the nodes of the next-time buffer:
    one triple loop over the interior, three double loops over pairs of
    opposite faces, three single loops over groups of four parallel edges and
    eight straight-line corner writes.  The main result is that this order
    writes every buffer position exactly once. */
module Sweep {
  import opened Grid
  import opened Classify

  // ---------------------------------------------------------------------------
  // Loop ranges and nested loops

  /** The coordinates one loop visits for a side: the wall itself for Lo and
      Hi, and 1 .. n-2 (the bounds `for (c = 1; c < N-1; ++c)`) for Mid. */
  function Span(n: int, s: Side): seq<int>
    requires n >= 3
  {
    match s
    case Lo => [0]
    case Hi => [n - 1]
    case Mid => seq(n - 2, t => t + 1)
  }

  function Width(n: int, s: Side): nat
    requires n >= 3
  {
    if s == Mid then n - 2 else 1
  }

  lemma SpanFacts(n: int, s: Side)
    requires n >= 3
    ensures |Span(n, s)| == Width(n, s)
    ensures forall c :: c in Span(n, s) <==> 0 <= c < n && SideOf(n, c) == s
  {
    if s == Mid {
      forall c | 1 <= c <= n - 2
        ensures c in Span(n, s)
      {
        assert Span(n, s)[c - 1] == c;
      }
    }
  }

  /** The innermost loop: nodes (a, b, c) for c in zs. */
  function Line(a: int, b: int, zs: seq<int>): seq<Node>
  {
    seq(|zs|, t requires 0 <= t < |zs| => Node(a, b, zs[t]))
  }

  /** Two nested loops: b over ys outside, c over zs inside. */
  function Plane(a: int, ys: seq<int>, zs: seq<int>): seq<Node>
    decreases |ys|
  {
    if |ys| == 0 then [] else Line(a, ys[0], zs) + Plane(a, ys[1..], zs)
  }

  /** Three nested loops with i outermost and k innermost, as in the source. */
  function Product(xs: seq<int>, ys: seq<int>, zs: seq<int>): seq<Node>
    decreases |xs|
  {
    if |xs| == 0 then [] else Plane(xs[0], ys, zs) + Product(xs[1..], ys, zs)
  }

  lemma LineFacts(a: int, b: int, zs: seq<int>)
    ensures |Line(a, b, zs)| == |zs|
    ensures forall x :: x in Line(a, b, zs) <==> x.i == a && x.j == b && x.k in zs
  {
    forall x: Node | x.i == a && x.j == b && x.k in zs
      ensures x in Line(a, b, zs)
    {
      var t :| 0 <= t < |zs| && zs[t] == x.k;
      assert Line(a, b, zs)[t] == x;
    }
  }

  lemma MulStep(a: int, c: int)
    ensures (a + 1) * c == c + a * c
  {
  }

  lemma {:induction false} PlaneFacts(a: int, ys: seq<int>, zs: seq<int>)
    ensures |Plane(a, ys, zs)| == |ys| * |zs|
    ensures forall x :: x in Plane(a, ys, zs) <==> x.i == a && x.j in ys && x.k in zs
    decreases |ys|
  {
    if |ys| > 0 {
      var line := Line(a, ys[0], zs);
      var rest := Plane(a, ys[1..], zs);
      LineFacts(a, ys[0], zs);
      PlaneFacts(a, ys[1..], zs);
      MulStep(|ys| - 1, |zs|);
      forall x: Node
        ensures x in Plane(a, ys, zs) <==> x.i == a && x.j in ys && x.k in zs
      {
        assert x in Plane(a, ys, zs) <==> x in line || x in rest;
        assert x.j in ys <==> x.j == ys[0] || x.j in ys[1..];
      }
    }
  }

  lemma {:induction false} ProductLength(xs: seq<int>, ys: seq<int>, zs: seq<int>)
    ensures |Product(xs, ys, zs)| == |xs| * (|ys| * |zs|)
    decreases |xs|
  {
    if |xs| > 0 {
      PlaneFacts(xs[0], ys, zs);
      ProductLength(xs[1..], ys, zs);
      MulStep(|xs| - 1, |ys| * |zs|);
    }
  }

  lemma {:induction false} ProductMembers(xs: seq<int>, ys: seq<int>, zs: seq<int>)
    ensures forall x :: x in Product(xs, ys, zs) <==> x.i in xs && x.j in ys && x.k in zs
    decreases |xs|
  {
    if |xs| > 0 {
      var plane := Plane(xs[0], ys, zs);
      var rest := Product(xs[1..], ys, zs);
      PlaneFacts(xs[0], ys, zs);
      ProductMembers(xs[1..], ys, zs);
      forall x: Node
        ensures x in Product(xs, ys, zs) <==> x.i in xs && x.j in ys && x.k in zs
      {
        assert x in Product(xs, ys, zs) <==> x in plane || x in rest;
        assert x.i in xs <==> x.i == xs[0] || x.i in xs[1..];
      }
    }
  }

  // ---------------------------------------------------------------------------
  // Blocks of one region and loops that interleave several regions

  /** All nodes of region r, in the loop order of the source. */
  function Block(n: int, r: Region): seq<Node>
    requires n >= 3
  {
    Product(Span(n, r.x), Span(n, r.y), Span(n, r.z))
  }

  /** A block holds exactly the in-grid nodes of its region. */
  lemma BlockFacts(n: int, r: Region)
    requires n >= 3
    ensures |Block(n, r)| == Width(n, r.x) * Width(n, r.y) * Width(n, r.z)
    ensures forall x :: x in Block(n, r) <==> InGrid(n, x) && RegionOf(n, x) == r
  {
    BlockLength(n, r);
    BlockMembers(n, r);
  }

  lemma BlockLength(n: int, r: Region)
    requires n >= 3
    ensures |Block(n, r)| == Width(n, r.x) * Width(n, r.y) * Width(n, r.z)
  {
    SpanFacts(n, r.x);
    SpanFacts(n, r.y);
    SpanFacts(n, r.z);
    ProductLength(Span(n, r.x), Span(n, r.y), Span(n, r.z));
    MulAssoc(Width(n, r.x), Width(n, r.y), Width(n, r.z));
  }

  lemma MulAssoc(a: int, b: int, c: int)
    ensures a * (b * c) == a * b * c
  {
  }

  lemma BlockMembers(n: int, r: Region)
    requires n >= 3
    ensures forall x :: x in Block(n, r) <==> InGrid(n, x) && RegionOf(n, x) == r
  {
    var xs, ys, zs := Span(n, r.x), Span(n, r.y), Span(n, r.z);
    SpanFacts(n, r.x);
    SpanFacts(n, r.y);
    SpanFacts(n, r.z);
    ProductMembers(xs, ys, zs);
    forall x: Node
      ensures x in Block(n, r) <==> InGrid(n, x) && RegionOf(n, x) == r
    {
      assert x.i in xs <==> 0 <= x.i < n && SideOf(n, x.i) == r.x;
      assert x.j in ys <==> 0 <= x.j < n && SideOf(n, x.j) == r.y;
      assert x.k in zs <==> 0 <= x.k < n && SideOf(n, x.k) == r.z;
    }
  }

  /** The coordinate a loop body writes along one axis: the wall for Lo/Hi,
      the loop variable for Mid. */
  function Pick(n: int, s: Side, c: int): int
  {
    match s
    case Lo => 0
    case Hi => n - 1
    case Mid => c
  }

  /** The node of region r that a loop body writes at loop point p. */
  function Place(n: int, r: Region, p: Node): Node
  {
    Node(Pick(n, r.x, p.i), Pick(n, r.y, p.j), Pick(n, r.z, p.k))
  }

  /** Two regions are iterated by the same loop when they have the same Mid axes. */
  predicate SamePattern(r: Region, q: Region)
  {
    (r.x == Mid <==> q.x == Mid) && (r.y == Mid <==> q.y == Mid) && (r.z == Mid <==> q.z == Mid)
  }

  /** The regions written by one loop body, in the order of its statements. */
  predicate LoopBody(rs: seq<Region>)
  {
    |rs| > 0 && forall t :: 0 <= t < |rs| ==> SamePattern(rs[0], rs[t])
  }

  /** One row of writes: the body executed at loop point p. */
  function Row(n: int, rs: seq<Region>, p: Node): seq<Node>
  {
    seq(|rs|, t requires 0 <= t < |rs| => Place(n, rs[t], p))
  }

  /** The body executed at each loop point in turn. */
  function Interleave(n: int, pts: seq<Node>, rs: seq<Region>): seq<Node>
    decreases |pts|
  {
    if |pts| == 0 then [] else Row(n, rs, pts[0]) + Interleave(n, pts[1..], rs)
  }

  /** A loop nest: the loop points are the block of the first region. */
  function Nest(n: int, rs: seq<Region>): seq<Node>
    requires n >= 3 && LoopBody(rs)
  {
    Interleave(n, Block(n, rs[0]), rs)
  }

  lemma PlaceSound(n: int, r: Region, q: Region, p: Node)
    requires n >= 3 && SamePattern(r, q)
    requires InGrid(n, p) && RegionOf(n, p) == q
    ensures InGrid(n, Place(n, r, p)) && RegionOf(n, Place(n, r, p)) == r
  {
  }

  lemma PlaceRecovers(n: int, r: Region, q: Region, x: Node)
    requires n >= 3 && SamePattern(r, q)
    requires InGrid(n, x) && RegionOf(n, x) == r
    ensures InGrid(n, Place(n, q, x)) && RegionOf(n, Place(n, q, x)) == q
    ensures Place(n, r, Place(n, q, x)) == x
  {
  }

  lemma {:induction false} InterleaveLength(n: int, pts: seq<Node>, rs: seq<Region>)
    ensures |Interleave(n, pts, rs)| == |pts| * |rs|
    decreases |pts|
  {
    if |pts| > 0 {
      InterleaveLength(n, pts[1..], rs);
      MulStep(|pts| - 1, |rs|);
    }
  }

  /** Every body statement is executed at every loop point. */
  lemma {:induction false} InterleaveComplete(n: int, pts: seq<Node>, rs: seq<Region>, p: Node, t: int)
    requires p in pts && 0 <= t < |rs|
    ensures Place(n, rs[t], p) in Interleave(n, pts, rs)
    decreases |pts|
  {
    if p == pts[0] {
      assert Row(n, rs, p)[t] == Place(n, rs[t], p);
      assert Place(n, rs[t], p) in Row(n, rs, p);
    } else {
      InterleaveComplete(n, pts[1..], rs, p, t);
    }
  }

  /** When the loop points all lie in region q, every write lands in the grid
      in one of the body's regions. */
  lemma {:induction false} InterleaveSound(n: int, pts: seq<Node>, rs: seq<Region>, q: Region)
    requires n >= 3
    requires forall p :: p in pts ==> InGrid(n, p) && RegionOf(n, p) == q
    requires forall t :: 0 <= t < |rs| ==> SamePattern(rs[t], q)
    ensures forall y :: y in Interleave(n, pts, rs) ==> InGrid(n, y) && RegionOf(n, y) in rs
    decreases |pts|
  {
    if |pts| > 0 {
      var row := Row(n, rs, pts[0]);
      InterleaveSound(n, pts[1..], rs, q);
      forall t | 0 <= t < |rs|
        ensures InGrid(n, row[t]) && RegionOf(n, row[t]) in rs
      {
        PlaceSound(n, rs[t], q, pts[0]);
      }
      assert Interleave(n, pts, rs) == row + Interleave(n, pts[1..], rs);
    }
  }

  /** A loop nest writes |points| * |body| nodes, all of them in the grid and
      in one of its body's regions, and every node of those regions. */
  lemma NestFacts(n: int, rs: seq<Region>)
    requires n >= 3 && LoopBody(rs)
    ensures |Nest(n, rs)| == |Block(n, rs[0])| * |rs|
    ensures forall y :: y in Nest(n, rs) ==> InGrid(n, y) && RegionOf(n, y) in rs
    ensures forall x :: InGrid(n, x) && RegionOf(n, x) in rs ==> x in Nest(n, rs)
  {
    var pts := Block(n, rs[0]);
    BlockFacts(n, rs[0]);
    InterleaveLength(n, pts, rs);
    InterleaveSound(n, pts, rs, rs[0]);
    forall x | InGrid(n, x) && RegionOf(n, x) in rs
      ensures x in Nest(n, rs)
    {
      var t :| 0 <= t < |rs| && rs[t] == RegionOf(n, x);
      PlaceRecovers(n, rs[t], rs[0], x);
      InterleaveComplete(n, pts, rs, Place(n, rs[0], x), t);
    }
  }

  // ---------------------------------------------------------------------------
  // The loops of the scheme, named after the box vertices A..H of the source

  /** The triple loop over the interior (the "general" nodes). */
  const InteriorLoop: seq<Region> := [Region(Mid, Mid, Mid)]

  /** Bottom/top (z walls), front/back (y walls), left/right (x walls). */
  const FaceLoops: seq<seq<Region>> := [
    [Region(Mid, Mid, Lo), Region(Mid, Mid, Hi)],
    [Region(Mid, Lo, Mid), Region(Mid, Hi, Mid)],
    [Region(Lo, Mid, Mid), Region(Hi, Mid, Mid)]
  ]

  /** x edges AB, CD, EF, GH; y edges AD, BC, EH, FG; z edges AE, BF, DH, CG. */
  const EdgeLoops: seq<seq<Region>> := [
    [Region(Mid, Lo, Lo), Region(Mid, Hi, Lo), Region(Mid, Lo, Hi), Region(Mid, Hi, Hi)],
    [Region(Lo, Mid, Lo), Region(Hi, Mid, Lo), Region(Lo, Mid, Hi), Region(Hi, Mid, Hi)],
    [Region(Lo, Lo, Mid), Region(Hi, Lo, Mid), Region(Lo, Hi, Mid), Region(Hi, Hi, Mid)]
  ]

  /** Corners A, E, D, B, H, F, C, G in the order written; the source labels
      the seventh one "D" as well, but it is the vertex (Nx-1, Ny-1, 0). */
  const CornerWrites: seq<Region> := [
    Region(Lo, Lo, Lo), Region(Lo, Lo, Hi), Region(Lo, Hi, Lo), Region(Hi, Lo, Lo),
    Region(Lo, Hi, Hi), Region(Hi, Lo, Hi), Region(Hi, Hi, Lo), Region(Hi, Hi, Hi)
  ]

  function InteriorSweep(n: int): seq<Node>
    requires n >= 3
  {
    Nest(n, InteriorLoop)
  }

  function FaceSweep(n: int): seq<Node>
    requires n >= 3
  {
    Nest(n, FaceLoops[0]) + Nest(n, FaceLoops[1]) + Nest(n, FaceLoops[2])
  }

  function EdgeSweep(n: int): seq<Node>
    requires n >= 3
  {
    Nest(n, EdgeLoops[0]) + Nest(n, EdgeLoops[1]) + Nest(n, EdgeLoops[2])
  }

  function CornerSweep(n: int): seq<Node>
    requires n >= 3
  {
    Nest(n, CornerWrites)
  }

  /** Every node the scheme writes, in the order it writes them. */
  function SourceOrder(n: int): seq<Node>
    requires n >= 3
  {
    InteriorSweep(n) + FaceSweep(n) + EdgeSweep(n) + CornerSweep(n)
  }

  /** The 27 regions fall into the loops by class: the interior loop holds the
      one region with no wall, the face loops the six with one wall, the edge
      loops the twelve with two, the corner writes the eight with three. */
  lemma RegionClasses(r: Region)
    ensures ClassOfRegion(r) == Interior <==> r in InteriorLoop
    ensures ClassOfRegion(r) == Face <==> r in FaceLoops[0] || r in FaceLoops[1] || r in FaceLoops[2]
    ensures ClassOfRegion(r) == Edge <==> r in EdgeLoops[0] || r in EdgeLoops[1] || r in EdgeLoops[2]
    ensures ClassOfRegion(r) == Corner <==> r in CornerWrites
  {
    match r.x
    case Lo =>
    case Mid =>
    case Hi =>
  }

  lemma InteriorSweepFacts(n: int)
    requires n >= 3
    ensures |InteriorSweep(n)| == (n - 2) * (n - 2) * (n - 2)
    ensures forall x :: x in InteriorSweep(n) <==> InGrid(n, x) && ClassOf(n, x) == Interior
  {
    NestFacts(n, InteriorLoop);
    BlockFacts(n, InteriorLoop[0]);
    forall x | InGrid(n, x)
      ensures ClassOf(n, x) == Interior <==> RegionOf(n, x) in InteriorLoop
    {
      RegionClasses(RegionOf(n, x));
    }
  }

  lemma FaceSweepFacts(n: int)
    requires n >= 3
    ensures |FaceSweep(n)| == 6 * (n - 2) * (n - 2)
    ensures forall x :: x in FaceSweep(n) <==> InGrid(n, x) && ClassOf(n, x) == Face
  {
    var a, b, c := FaceLoops[0], FaceLoops[1], FaceLoops[2];
    FaceLoopFacts(n, 0);
    FaceLoopFacts(n, 1);
    FaceLoopFacts(n, 2);
    forall x | InGrid(n, x)
      ensures ClassOf(n, x) == Face <==> RegionOf(n, x) in a || RegionOf(n, x) in b || RegionOf(n, x) in c
    {
      RegionClasses(RegionOf(n, x));
    }
  }

  /** One face loop pair visits the 2(n-2)^2 nodes of its two opposite faces. */
  lemma FaceLoopFacts(n: int, t: int)
    requires n >= 3 && 0 <= t < 3
    ensures |Nest(n, FaceLoops[t])| == 2 * (n - 2) * (n - 2)
    ensures forall x :: x in Nest(n, FaceLoops[t]) <==> InGrid(n, x) && RegionOf(n, x) in FaceLoops[t]
  {
    var rs := FaceLoops[t];
    assert LoopBody(rs);
    NestFacts(n, rs);
    FaceBlockLength(n, t);
  }

  lemma FaceBlockLength(n: int, t: int)
    requires n >= 3 && 0 <= t < 3
    ensures |Block(n, FaceLoops[t][0])| * 2 == 2 * (n - 2) * (n - 2)
  {
    var r, m := FaceLoops[t][0], n - 2;
    BlockLength(n, r);
    assert Width(n, r.x) * Width(n, r.y) * Width(n, r.z) == m * m;
  }

  lemma EdgeSweepFacts(n: int)
    requires n >= 3
    ensures |EdgeSweep(n)| == 12 * (n - 2)
    ensures forall x :: x in EdgeSweep(n) <==> InGrid(n, x) && ClassOf(n, x) == Edge
  {
    var a, b, c := EdgeLoops[0], EdgeLoops[1], EdgeLoops[2];
    assert LoopBody(a) && LoopBody(b) && LoopBody(c);
    NestFacts(n, a);
    NestFacts(n, b);
    NestFacts(n, c);
    BlockFacts(n, a[0]);
    BlockFacts(n, b[0]);
    BlockFacts(n, c[0]);
    forall x | InGrid(n, x)
      ensures ClassOf(n, x) == Edge <==> RegionOf(n, x) in a || RegionOf(n, x) in b || RegionOf(n, x) in c
    {
      RegionClasses(RegionOf(n, x));
    }
  }

  lemma CornerSweepFacts(n: int)
    requires n >= 3
    ensures |CornerSweep(n)| == 8
    ensures forall x :: x in CornerSweep(n) <==> InGrid(n, x) && ClassOf(n, x) == Corner
  {
    NestFacts(n, CornerWrites);
    BlockFacts(n, CornerWrites[0]);
    forall x | InGrid(n, x)
      ensures ClassOf(n, x) == Corner <==> RegionOf(n, x) in CornerWrites
    {
      RegionClasses(RegionOf(n, x));
    }
  }

  // ---------------------------------------------------------------------------
  // Every buffer position is written exactly once

  /** The order visits only grid nodes and visits all of them. */
  ghost predicate Covers(n: int, order: seq<Node>)
  {
    && (forall t :: 0 <= t < |order| ==> InGrid(n, order[t]))
    && (forall x :: InGrid(n, x) ==> x in order)
  }

  /** The buffer positions an order writes, in order. */
  function Positions(n: nat, order: seq<Node>): (ps: seq<int>)
    requires forall t :: 0 <= t < |order| ==> InGrid(n, order[t])
    ensures |ps| == |order|
    ensures forall t :: 0 <= t < |order| ==> ps[t] == Flatten(n, order[t])
  {
    seq(|order|, t requires 0 <= t < |order| && InGrid(n, order[t]) => Flatten(n, order[t]))
  }

  lemma SourceOrderLength(n: int)
    requires n >= 3
    ensures |SourceOrder(n)| == Cells(n)
  {
    InteriorSweepFacts(n);
    FaceSweepFacts(n);
    EdgeSweepFacts(n);
    CornerSweepFacts(n);
    CubeSplit(n - 2);
  }

  /** (m + 2)^3 split into interior, faces, edges and corners. */
  lemma CubeSplit(m: int)
    ensures (m + 2) * (m + 2) * (m + 2) == m * m * m + 6 * m * m + 12 * m + 8
  {
    var s := m + 2;
    assert s * s == m * m + 4 * m + 4;
    assert (m * m + 4 * m + 4) * s == m * m * m + 6 * m * m + 12 * m + 8;
  }

  lemma SourceOrderCovers(n: int)
    requires n >= 3
    ensures Covers(n, SourceOrder(n))
  {
    var order := SourceOrder(n);
    InteriorSweepFacts(n);
    FaceSweepFacts(n);
    EdgeSweepFacts(n);
    CornerSweepFacts(n);
    forall x | InGrid(n, x)
      ensures x in order
    {
      match ClassOf(n, x)
      case Interior => assert x in InteriorSweep(n);
      case Face => assert x in FaceSweep(n);
      case Edge => assert x in EdgeSweep(n);
      case Corner => assert x in CornerSweep(n);
    }
    forall t | 0 <= t < |order|
      ensures InGrid(n, order[t])
    {
      assert order[t] in order;
    }
  }

  /** The scheme writes each of the N positions of p[0] exactly once: its
      writes cover the grid, there are N of them, and no two hit the same
      position. */
  lemma SourceOrderWritesEachOnce(n: nat)
    requires n >= 3
    ensures Covers(n, SourceOrder(n))
    ensures |SourceOrder(n)| == Cells(n)
    ensures forall a, b :: 0 <= a < b < |SourceOrder(n)| ==>
      Flatten(n, SourceOrder(n)[a]) != Flatten(n, SourceOrder(n)[b])
  {
    var order := SourceOrder(n);
    SourceOrderCovers(n);
    SourceOrderLength(n);
    var ps := Positions(n, order);
    PositionsOfCover(n, order);
    BelowCard(Cells(n));
    DistinctByCard(ps);
  }

  /** An order that covers the grid writes every buffer position. */
  lemma PositionsOfCover(n: nat, order: seq<Node>)
    requires n >= 3 && Covers(n, order)
    ensures (set v | v in Positions(n, order)) == Below(Cells(n))
  {
    var ps := Positions(n, order);
    BelowMembers(Cells(n));
    forall v | v in Below(Cells(n))
      ensures v in ps
    {
      var x := Unflatten(n, v);
      var t :| 0 <= t < |order| && order[t] == x;
      assert ps[t] == v;
    }
  }

  /** The positions 0 .. m-1. */
  function Below(m: nat): set<int>
  {
    if m == 0 then {} else Below(m - 1) + {m - 1}
  }

  lemma {:induction false} BelowMembers(m: nat)
    ensures forall v :: v in Below(m) <==> 0 <= v < m
  {
    if m > 0 {
      BelowMembers(m - 1);
    }
  }

  lemma {:induction false} BelowCard(m: nat)
    ensures |Below(m)| == m
  {
    if m > 0 {
      BelowCard(m - 1);
      BelowMembers(m - 1);
      assert m - 1 !in Below(m - 1);
    }
  }

  lemma {:induction false} CardAtMost(s: seq<int>)
    ensures |set v | v in s| <= |s|
  {
    if |s| > 0 {
      CardAtMost(s[1..]);
      assert (set v | v in s) == {s[0]} + (set v | v in s[1..]);
    }
  }

  /** Pigeonhole: a sequence with as many distinct values as entries has no repeats. */
  lemma {:induction false} DistinctByCard(s: seq<int>)
    requires |set v | v in s| == |s|
    ensures forall a, b :: 0 <= a < b < |s| ==> s[a] != s[b]
  {
    if |s| > 0 {
      var rest := s[1..];
      assert (set v | v in s) == {s[0]} + (set v | v in rest);
      CardAtMost(rest);
      assert s[0] !in rest;
      DistinctByCard(rest);
      forall a, b | 0 <= a < b < |s|
        ensures s[a] != s[b]
      {
        if a == 0 {
          assert s[b] == rest[b - 1];
        } else {
          assert s[a] == rest[a - 1] && s[b] == rest[b - 1];
        }
      }
    }
  }
}
