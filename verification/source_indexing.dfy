/** The buffer positions exactly as the source spells them for a general
    Nx×Ny×Nz box, and how they relate to the cube model. */
module SourceIndexing {
  import opened Grid
  import opened Classify
  import Scheme

  /** A node of the Nx×Ny×Nz box. */
  predicate InBox(nx: int, ny: int, nz: int, x: Node)
  {
    0 <= x.i < nx && 0 <= x.j < ny && 0 <= x.k < nz
  }

  /** The source's flattening i + j*Ny + k*Ny*Nz.  Nx does not occur in it; on
      a cube it is the model's Flatten. */
  function BoxFlatten(ny: int, nz: int, x: Node): (idx: int)
    ensures ny == nz && ny >= 0 && InGrid(ny, x) ==> idx == Flatten(ny, x)
  {
    x.i + x.j * ny + x.k * ny * nz
  }

  /** Once Nx > Ny the flattening is not injective: the node one step along x
      past column Ny shares its position with the first node of the next row
      (the reason for the Nx <= Ny warning next to the flattening). */
  lemma BoxFlattenCollides(nx: int, ny: int, nz: int)
    requires 2 <= ny < nx && 1 <= nz
    ensures exists x: Node, y: Node {:trigger BoxFlatten(ny, nz, x), BoxFlatten(ny, nz, y)} ::
      InBox(nx, ny, nz, x) && InBox(nx, ny, nz, y) && x != y && BoxFlatten(ny, nz, x) == BoxFlatten(ny, nz, y)
  {
    var x, y := Node(ny, 0, 0), Node(0, 1, 0);
    assert BoxFlatten(ny, nz, x) == ny == BoxFlatten(ny, nz, y);
  }

  /** Nx <= Ny alone does not make the flattening injective: the k stride is
      Ny*Nz where Nx*Ny is meant, so once Ny > Nz the row j = Nz of the first
      layer lands on the first node of the second layer. */
  lemma BoxFlattenCollidesAcross(nx: int, ny: int, nz: int)
    requires 1 <= nx && 2 <= nz < ny
    ensures exists x: Node, y: Node {:trigger BoxFlatten(ny, nz, x), BoxFlatten(ny, nz, y)} ::
      InBox(nx, ny, nz, x) && InBox(nx, ny, nz, y) && x != y && BoxFlatten(ny, nz, x) == BoxFlatten(ny, nz, y)
  {
    var x, y := Node(0, nz, 0), Node(0, 0, 1);
    assert BoxFlatten(ny, nz, x) == nz * ny == BoxFlatten(ny, nz, y);
  }

  /** Once Nz > Nx the last layer reaches past the Nx*Ny*Nz cells of a buffer. */
  lemma BoxFlattenOverruns(nx: int, ny: int, nz: int)
    requires 1 <= nx < nz && 1 <= ny
    ensures exists x: Node {:trigger BoxFlatten(ny, nz, x)} ::
      InBox(nx, ny, nz, x) && BoxFlatten(ny, nz, x) >= nx * ny * nz
  {
    var x := Node(0, 0, nz - 1);
    MulLe(nx, nz - 1, ny * nz);
    assert BoxFlatten(ny, nz, x) == (nz - 1) * (ny * nz);
    assert nx * ny * nz == nx * (ny * nz);
  }

  /** The blocks on the x = Nx-1 wall whose x-neighbour term is written with
      Nz-1-1 where Nx-1-1 is meant: edge CG, corner B, corner F and the second
      corner labelled D (the node at (Nx-1, Ny-1, 0)). */
  const MistypedBlocks: set<Region> := {Region(Hi, Hi, Mid), Region(Hi, Lo, Lo), Region(Hi, Lo, Hi), Region(Hi, Hi, Lo)}

  /** The x coordinate the source reads for the inward x-neighbour of a node on
      the x = Nx-1 wall, per block.  It is the intended Nx-2 in every block
      except the mistyped ones, and there too as soon as the box has Nx = Nz. */
  function SourceInwardX(nx: int, nz: int, r: Region): (c: int)
    requires r.x == Hi
    ensures c == nx - 2 <==> (nx == nz || r !in MistypedBlocks)
    ensures r in MistypedBlocks ==> c == nz - 2
  {
    if r in MistypedBlocks then nz - 1 - 1 else nx - 1 - 1
  }

  /** On the cube every inward x-neighbour the source writes on the x = n-1 wall
      is the geometric mirror the model uses: the node one step inward. */
  lemma SourceMirrorOnCube(n: int, x: Node)
    requires n >= 3 && InGrid(n, x) && x.i == n - 1
    ensures SourceInwardX(n, n, RegionOf(n, x)) == Scheme.Down(n, x.i) == Scheme.Up(n, x.i) == n - 2
  {
  }

  /** On a box with Nx != Nz the four mistyped blocks read a node that is not
      the inward neighbour, so the stencil there is not the mirrored one. */
  lemma MistypedOffCube(nx: int, nz: int, r: Region)
    requires nx != nz && r in MistypedBlocks
    ensures r.x == Hi && SourceInwardX(nx, nz, r) != nx - 2
  {
  }
}
