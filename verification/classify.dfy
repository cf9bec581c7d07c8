/** Classification of grid nodes into the four stencil classes of the scheme:
    interior ("general" in the source), face, edge and corner. */
module Classify {
  import opened Grid

  /** Where a coordinate lies along its axis: on the low wall (0), strictly
      inside (1 .. n-2), or on the high wall (n-1). */
  datatype Side = Lo | Mid | Hi

  function SideOf(n: int, c: int): Side
  {
    if c == 0 then Lo else if c == n - 1 then Hi else Mid
  }

  /** The side of each of the three coordinates.  Each of the 27 regions is one
      block of writes in the scheme: 1 interior, 6 faces, 12 edges, 8 corners. */
  datatype Region = Region(x: Side, y: Side, z: Side)

  function RegionOf(n: int, x: Node): Region
  {
    Region(SideOf(n, x.i), SideOf(n, x.j), SideOf(n, x.k))
  }

  datatype NodeClass = Interior | Face | Edge | Corner

  /** Number of coordinates of the region that sit on a wall. */
  function Walls(r: Region): nat
  {
    (if r.x == Mid then 0 else 1) + (if r.y == Mid then 0 else 1) + (if r.z == Mid then 0 else 1)
  }

  function ClassOfRegion(r: Region): NodeClass
  {
    match Walls(r)
    case 0 => Interior
    case 1 => Face
    case 2 => Edge
    case _ => Corner
  }

  predicate OnWall(n: int, c: int)
  {
    c == 0 || c == n - 1
  }

  /** The class of a node, characterised geometrically: interior when every
      coordinate is strictly inside, face/edge when exactly one/two of them are
      on a wall, corner when all three are. */
  function ClassOf(n: int, x: Node): (c: NodeClass)
    requires n >= 3 && InGrid(n, x)
    ensures c == Interior <==> (1 <= x.i <= n - 2 && 1 <= x.j <= n - 2 && 1 <= x.k <= n - 2)
    ensures c == Face <==>
      || (OnWall(n, x.i) && !OnWall(n, x.j) && !OnWall(n, x.k))
      || (!OnWall(n, x.i) && OnWall(n, x.j) && !OnWall(n, x.k))
      || (!OnWall(n, x.i) && !OnWall(n, x.j) && OnWall(n, x.k))
    ensures c == Edge <==>
      || (!OnWall(n, x.i) && OnWall(n, x.j) && OnWall(n, x.k))
      || (OnWall(n, x.i) && !OnWall(n, x.j) && OnWall(n, x.k))
      || (OnWall(n, x.i) && OnWall(n, x.j) && !OnWall(n, x.k))
    ensures c == Corner <==> (OnWall(n, x.i) && OnWall(n, x.j) && OnWall(n, x.k))
  {
    ClassOfRegion(RegionOf(n, x))
  }
}
