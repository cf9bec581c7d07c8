/** Geometry of the pressure field: the nodes of an n×n×n cube and the
    flattened position at which each node is stored in a pressure buffer. */
module Grid {

  /** A grid node: i along x, j along y, k along z. */
  datatype Node = Node(i: int, j: int, k: int)

  /** The edge length the processor is constructed with (Nx = Ny = Nz = 10). */
  const SourceSize: nat := 10

  /** Number of nodes of the cube, which is the length N of every pressure buffer. */
  function Cells(n: nat): nat
  {
    n * n * n
  }

  predicate InGrid(n: int, x: Node)
  {
    0 <= x.i < n && 0 <= x.j < n && 0 <= x.k < n
  }

  /** Buffer position of node x: i + j*Ny + k*Ny*Nz with Ny = Nz = n. */
  function Flatten(n: nat, x: Node): (idx: nat)
    requires InGrid(n, x)
    ensures idx < Cells(n)
  {
    FlattenBound(n, x);
    x.i + x.j * n + x.k * n * n
  }

  /** The node stored at buffer position idx. */
  function Unflatten(n: nat, idx: int): (x: Node)
    requires 0 <= idx < Cells(n)
    ensures InGrid(n, x)
    ensures Flatten(n, x) == idx
  {
    UnflattenSound(n, idx);
    Node(idx % n, (idx / n) % n, (idx / n) / n)
  }

  /** Flattening is injective on the cube, so distinct nodes never share a slot. */
  lemma FlattenInjective(n: nat, x: Node, y: Node)
    requires InGrid(n, x) && InGrid(n, y)
    ensures Flatten(n, x) == Flatten(n, y) ==> x == y
  {
    UnflattenFlatten(n, x);
    UnflattenFlatten(n, y);
  }

  /** Decoding a node's buffer position gives the node back. */
  lemma UnflattenFlatten(n: nat, x: Node)
    requires InGrid(n, x)
    ensures Unflatten(n, Flatten(n, x)) == x
  {
    var idx := Flatten(n, x);
    var q := x.j + x.k * n;
    assert idx == q * n + x.i;
    DivModUnique(idx, n, q, x.i);
    DivModUnique(q, n, x.k, x.j);
  }

  /** Manhattan distance between two nodes (the number of stencil hops). */
  function Dist(x: Node, y: Node): nat
  {
    Abs(x.i - y.i) + Abs(x.j - y.j) + Abs(x.k - y.k)
  }

  function Abs(a: int): nat
  {
    if a < 0 then -a else a
  }

  // ---------------------------------------------------------------------------
  // Arithmetic helpers

  lemma MulLe(a: int, b: int, c: int)
    requires 0 <= a <= b && 0 <= c
    ensures a * c <= b * c
  {
    assert b * c == a * c + (b - a) * c;
  }

  lemma FlattenBound(n: nat, x: Node)
    requires InGrid(n, x)
    ensures 0 <= x.i + x.j * n + x.k * n * n < n * n * n
  {
    var nn := n * n;
    MulLe(0, x.j, n);
    MulLe(0, x.k, nn);
    MulLe(x.j, n - 1, n);
    MulLe(x.k, n - 1, nn);
    assert x.k * n * n == x.k * nn;
    assert n * n * n == n * nn;
    MulPred(n, nn);
    MulPred(n, n);
  }

  lemma MulPred(a: int, b: int)
    ensures (a - 1) * b == a * b - b
  {
  }

  lemma DivModUnique(a: int, n: int, q: int, r: int)
    requires 0 < n && 0 <= r < n && a == q * n + r
    ensures a / n == q && a % n == r
  {
    var q0, r0 := a / n, a % n;
    assert a == q0 * n + r0;
    assert (q - q0) * n == r0 - r;
    if q > q0 {
      MulLe(1, q - q0, n);
      assert false;
    } else if q < q0 {
      MulLe(1, q0 - q, n);
      assert false;
    }
  }

  lemma DivBelow(a: int, b: int, n: int)
    requires 0 < n && 0 <= a < b * n
    ensures a / n < b
  {
    if a / n >= b {
      MulLe(b, a / n, n);
      assert false;
    }
  }

  lemma UnflattenSound(n: nat, idx: int)
    requires 0 <= idx < Cells(n)
    ensures 0 < n
    ensures InGrid(n, Node(idx % n, (idx / n) % n, (idx / n) / n))
    ensures idx % n + ((idx / n) % n) * n + ((idx / n) / n) * n * n == idx
  {
    assert n != 0;
    var q, r := idx / n, idx % n;
    DivDecompose(idx, n);
    assert idx < (n * n) * n;
    DivBelow(idx, n * n, n);
    var q1, r1 := q / n, q % n;
    DivDecompose(q, n);
    DivBelow(q, n, n);
    Recompose(idx, n, q, r, q1, r1);
  }

  lemma DivDecompose(a: int, n: int)
    requires 0 <= a && 0 < n
    ensures a == (a / n) * n + a % n && 0 <= a % n < n && 0 <= a / n
  {
  }

  lemma Recompose(a: int, n: int, q: int, r: int, q1: int, r1: int)
    requires a == q * n + r && q == q1 * n + r1
    ensures a == r + r1 * n + q1 * n * n
  {
    assert q * n == (q1 * n + r1) * n == q1 * n * n + r1 * n;
  }
}
