/** The stencil engine (calculateScheme): the value written at every node of
    the next-time buffer from the current (p[1]) and previous (p[2]) buffers. */
module Scheme {
  import opened Grid
  import opened Classify
  import opened Coefficients
  import Sweep

  /** A pressure buffer over the n×n×n cube. */
  predicate Field(n: nat, u: seq<real>)
  {
    |u| == Cells(n)
  }

  function At(n: nat, u: seq<real>, x: Node): real
    requires Field(n, u) && InGrid(n, x)
  {
    u[Flatten(n, x)]
  }

  /** The coordinate of the neighbour one step up an axis; on the upper wall
      the missing neighbour is replaced by its mirror image, the node one step
      inward. */
  function Up(n: int, c: int): int
  {
    if c == n - 1 then c - 1 else c + 1
  }

  /** The neighbour one step down an axis, mirrored on the lower wall. */
  function Down(n: int, c: int): int
  {
    if c == 0 then c + 1 else c - 1
  }

  /** Mirroring: both stencil neighbours along an axis are in-grid nodes one
      step away, and they coincide (the outward term is a duplicate of the
      inward one) exactly when the coordinate lies on a wall. */
  lemma MirroredNeighbours(n: int, c: int)
    requires n >= 3 && 0 <= c < n
    ensures 0 <= Up(n, c) < n && 0 <= Down(n, c) < n
    ensures Abs(c - Up(n, c)) == 1 && Abs(c - Down(n, c)) == 1
    ensures Up(n, c) == Down(n, c) <==> SideOf(n, c) != Mid
    ensures SideOf(n, c) == Lo ==> Up(n, c) == 1
    ensures SideOf(n, c) == Hi ==> Down(n, c) == n - 2
  {
  }

  /** The six stencil neighbours of x, in the order the source adds their
      terms: x+1, x-1, y+1, y-1, z+1, z-1 (each mirrored on a wall).  Every one
      is an in-grid node one hop away from x. */
  function Neighbours(n: nat, x: Node): (ys: seq<Node>)
    requires n >= 3 && InGrid(n, x)
    ensures |ys| == 6 && AllInGrid(n, ys)
    ensures forall t :: 0 <= t < |ys| ==> Dist(x, ys[t]) == 1
  {
    var ys := [Node(Up(n, x.i), x.j, x.k), Node(Down(n, x.i), x.j, x.k),
               Node(x.i, Up(n, x.j), x.k), Node(x.i, Down(n, x.j), x.k),
               Node(x.i, x.j, Up(n, x.k)), Node(x.i, x.j, Down(n, x.k))];
    OneHopEach(n, x, ys);
    ys
  }

  lemma OneHopEach(n: int, x: Node, ys: seq<Node>)
    requires n >= 3 && InGrid(n, x)
    requires ys == [Node(Up(n, x.i), x.j, x.k), Node(Down(n, x.i), x.j, x.k),
                    Node(x.i, Up(n, x.j), x.k), Node(x.i, Down(n, x.j), x.k),
                    Node(x.i, x.j, Up(n, x.k)), Node(x.i, x.j, Down(n, x.k))]
    ensures forall t :: 0 <= t < |ys| ==> InGrid(n, ys[t]) && Dist(x, ys[t]) == 1
  {
    MirroredNeighbours(n, x.i);
    MirroredNeighbours(n, x.j);
    MirroredNeighbours(n, x.k);
    forall t | 0 <= t < |ys|
      ensures InGrid(n, ys[t]) && Dist(x, ys[t]) == 1
    {
      if t < 2 {
        assert ys[t].j == x.j && ys[t].k == x.k;
      } else if t < 4 {
        assert ys[t].i == x.i && ys[t].k == x.k;
      } else {
        assert ys[t].i == x.i && ys[t].j == x.j;
      }
    }
  }

  predicate AllInGrid(n: nat, ys: seq<Node>)
  {
    forall t :: 0 <= t < |ys| ==> InGrid(n, ys[t])
  }

  predicate InBounds(u: seq<real>, idxs: seq<int>)
  {
    forall t :: 0 <= t < |idxs| ==> 0 <= idxs[t] < |u|
  }

  /** The buffer positions of a list of nodes. */
  function Slots(n: nat, ys: seq<Node>): (idxs: seq<int>)
    requires AllInGrid(n, ys)
    ensures |idxs| == |ys|
    ensures forall t :: 0 <= t < |ys| ==> idxs[t] == Flatten(n, ys[t])
  {
    seq(|ys|, t requires 0 <= t < |ys| => Flatten(n, ys[t]))
  }

  /** The sum of a buffer over a list of positions, first position first. */
  function SumOver(u: seq<real>, idxs: seq<int>): real
    requires InBounds(u, idxs)
    decreases |idxs|
  {
    if |idxs| == 0 then 0.0 else u[idxs[0]] + SumOver(u, idxs[1..])
  }

  /** The sum of the six neighbour terms of x. */
  function NeighbourSum(n: nat, u: seq<real>, x: Node): real
    requires n >= 3 && Field(n, u) && InGrid(n, x)
  {
    SumOver(u, Slots(n, Neighbours(n, x)))
  }

  /** The value written at node x: D1 * (neighbours + 2 * centre) - D2 * previous,
      with the coefficient pair of the node's class. */
  function NodeUpdate(n: nat, co: Coeffs, cur: seq<real>, prev: seq<real>, x: Node): real
    requires n >= 3 && Field(n, cur) && Field(n, prev) && InGrid(n, x)
  {
    var c := ClassOf(n, x);
    D1(co, c) * (NeighbourSum(n, cur, x) + 2.0 * At(n, cur, x)) - D2(co, c) * At(n, prev, x)
  }

  /** The next-time buffer as a whole: position Flatten(x) holds the update of node x. */
  function Step(n: nat, co: Coeffs, cur: seq<real>, prev: seq<real>): (next: seq<real>)
    requires n >= 3 && Field(n, cur) && Field(n, prev)
    ensures Field(n, next)
    ensures forall x {:trigger At(n, next, x)} :: InGrid(n, x) ==> At(n, next, x) == NodeUpdate(n, co, cur, prev, x)
  {
    var next := seq(Cells(n), idx requires 0 <= idx < Cells(n) => NodeUpdate(n, co, cur, prev, Unflatten(n, idx)));
    assert forall x :: InGrid(n, x) ==> Unflatten(n, Flatten(n, x)) == x by {
      forall x | InGrid(n, x)
        ensures Unflatten(n, Flatten(n, x)) == x
      {
        UnflattenFlatten(n, x);
      }
    }
    next
  }

  /** Writes the update of each node of `order` into `next0`, one node at a
      time, reading only `cur` and `prev`.  Whatever the buffer held before and
      whatever the visit order, once every node has been visited the buffer is
      the next time level. */
  method WriteNodes(n: nat, co: Coeffs, cur: seq<real>, prev: seq<real>, next0: seq<real>, order: seq<Node>)
    returns (next: seq<real>)
    requires n >= 3 && Field(n, cur) && Field(n, prev) && Field(n, next0)
    requires Sweep.Covers(n, order)
    ensures next == Step(n, co, cur, prev)
  {
    next := next0;
    for t := 0 to |order|
      invariant Field(n, next)
      invariant forall s :: 0 <= s < t ==> At(n, next, order[s]) == NodeUpdate(n, co, cur, prev, order[s])
    {
      var x := order[t];
      var v := NodeUpdate(n, co, cur, prev, x);
      forall s | 0 <= s < t && Flatten(n, order[s]) == Flatten(n, x)
        ensures order[s] == x
      {
        FlattenInjective(n, order[s], x);
      }
      next := next[Flatten(n, x) := v];
    }
    VisitedIsStep(n, co, cur, prev, next, order);
  }

  /** A buffer holding the update of every node of a covering order is the
      next time level. */
  lemma VisitedIsStep(n: nat, co: Coeffs, cur: seq<real>, prev: seq<real>, next: seq<real>, order: seq<Node>)
    requires n >= 3 && Field(n, cur) && Field(n, prev) && Field(n, next)
    requires Sweep.Covers(n, order)
    requires forall s :: 0 <= s < |order| ==> At(n, next, order[s]) == NodeUpdate(n, co, cur, prev, order[s])
    ensures next == Step(n, co, cur, prev)
  {
    var step := Step(n, co, cur, prev);
    forall idx | 0 <= idx < Cells(n)
      ensures next[idx] == step[idx]
    {
      var x := Unflatten(n, idx);
      var s :| 0 <= s < |order| && order[s] == x;
    }
  }

  /** calculateScheme: the source's loops (interior, faces, edges, corners)
      write the next time level into p[0]. */
  method CalculateScheme(n: nat, co: Coeffs, cur: seq<real>, prev: seq<real>, next0: seq<real>)
    returns (next: seq<real>)
    requires n >= 3 && Field(n, cur) && Field(n, prev) && Field(n, next0)
    ensures next == Step(n, co, cur, prev)
  {
    Sweep.SourceOrderCovers(n);
    next := WriteNodes(n, co, cur, prev, next0, Sweep.SourceOrder(n));
  }

  // ---------------------------------------------------------------------------
  // Linear and homogeneous facts

  predicate IsConstant(u: seq<real>, v: real)
  {
    forall t :: 0 <= t < |u| ==> u[t] == v
  }

  /** Pointwise a*u. */
  function Scale(a: real, u: seq<real>): (w: seq<real>)
    ensures |w| == |u|
  {
    seq(|u|, t requires 0 <= t < |u| => a * u[t])
  }

  /** Pointwise u + v. */
  function Add(u: seq<real>, v: seq<real>): (w: seq<real>)
    requires |u| == |v|
    ensures |w| == |u|
  {
    seq(|u|, t requires 0 <= t < |u| => u[t] + v[t])
  }

  lemma {:induction false} SumOverConstant(u: seq<real>, idxs: seq<int>, v: real)
    requires InBounds(u, idxs) && IsConstant(u, v)
    ensures SumOver(u, idxs) == |idxs| as real * v
    decreases |idxs|
  {
    if |idxs| > 0 {
      SumOverConstant(u, idxs[1..], v);
    }
  }

  lemma {:induction false} SumOverVanishing(u: seq<real>, idxs: seq<int>)
    requires InBounds(u, idxs)
    requires forall t :: 0 <= t < |idxs| ==> u[idxs[t]] == 0.0
    ensures SumOver(u, idxs) == 0.0
    decreases |idxs|
  {
    if |idxs| > 0 {
      SumOverVanishing(u, idxs[1..]);
    }
  }

  lemma {:induction false} SumOverScale(a: real, u: seq<real>, idxs: seq<int>)
    requires InBounds(u, idxs)
    ensures SumOver(Scale(a, u), idxs) == a * SumOver(u, idxs)
    decreases |idxs|
  {
    if |idxs| > 0 {
      SumOverScale(a, u, idxs[1..]);
    }
  }

  lemma {:induction false} SumOverAdd(u: seq<real>, v: seq<real>, idxs: seq<int>)
    requires |u| == |v| && InBounds(u, idxs)
    ensures SumOver(Add(u, v), idxs) == SumOver(u, idxs) + SumOver(v, idxs)
    decreases |idxs|
  {
    if |idxs| > 0 {
      SumOverAdd(u, v, idxs[1..]);
    }
  }

  /** A constant field, held in both the current and the previous buffer, is
      written unchanged to every node, for any coefficient set that fixes
      constants (every set Derive produces). */
  lemma StepConstant(n: nat, co: Coeffs, cur: seq<real>, prev: seq<real>, v: real)
    requires n >= 3 && Field(n, cur) && Field(n, prev)
    requires FixesConstants(co)
    requires IsConstant(cur, v) && IsConstant(prev, v)
    ensures IsConstant(Step(n, co, cur, prev), v)
  {
    var next := Step(n, co, cur, prev);
    forall idx | 0 <= idx < |next|
      ensures next[idx] == v
    {
      NodeUpdateConstant(n, co, cur, prev, v, Unflatten(n, idx));
    }
  }

  lemma NodeUpdateConstant(n: nat, co: Coeffs, cur: seq<real>, prev: seq<real>, v: real, x: Node)
    requires n >= 3 && Field(n, cur) && Field(n, prev) && InGrid(n, x)
    requires FixesConstants(co)
    requires IsConstant(cur, v) && IsConstant(prev, v)
    ensures NodeUpdate(n, co, cur, prev, x) == v
  {
    var c := ClassOf(n, x);
    ClassFixesConstants(co, c);
    SumOverConstant(cur, Slots(n, Neighbours(n, x)), v);
    FixedPointAlgebra(D1(co, c), D2(co, c), v);
  }

  lemma FixedPointAlgebra(d1: real, d2: real, v: real)
    requires 8.0 * d1 - d2 == 1.0
    ensures d1 * (6.0 * v + 2.0 * v) - d2 * v == v
  {
    assert d1 * (6.0 * v + 2.0 * v) - d2 * v == (8.0 * d1 - d2) * v;
  }

  /** Silence in, silence out: zero buffers produce a zero next level, for any coefficients. */
  lemma StepZero(n: nat, co: Coeffs, cur: seq<real>, prev: seq<real>)
    requires n >= 3 && Field(n, cur) && Field(n, prev)
    requires IsConstant(cur, 0.0) && IsConstant(prev, 0.0)
    ensures IsConstant(Step(n, co, cur, prev), 0.0)
  {
    var next := Step(n, co, cur, prev);
    forall idx | 0 <= idx < |next|
      ensures next[idx] == 0.0
    {
      var x := Unflatten(n, idx);
      SumOverConstant(cur, Slots(n, Neighbours(n, x)), 0.0);
    }
  }

  /** Homogeneity: scaling both input buffers scales the next level. */
  lemma StepScale(n: nat, co: Coeffs, a: real, cur: seq<real>, prev: seq<real>)
    requires n >= 3 && Field(n, cur) && Field(n, prev)
    ensures Step(n, co, Scale(a, cur), Scale(a, prev)) == Scale(a, Step(n, co, cur, prev))
  {
    var lhs, rhs := Step(n, co, Scale(a, cur), Scale(a, prev)), Scale(a, Step(n, co, cur, prev));
    forall idx | 0 <= idx < Cells(n)
      ensures lhs[idx] == rhs[idx]
    {
      StepScaleAt(n, co, a, cur, prev, idx);
    }
  }

  lemma StepScaleAt(n: nat, co: Coeffs, a: real, cur: seq<real>, prev: seq<real>, idx: int)
    requires n >= 3 && Field(n, cur) && Field(n, prev) && 0 <= idx < Cells(n)
    ensures Step(n, co, Scale(a, cur), Scale(a, prev))[idx] == Scale(a, Step(n, co, cur, prev))[idx]
  {
    var x := Unflatten(n, idx);
    var lhs, step := Step(n, co, Scale(a, cur), Scale(a, prev)), Step(n, co, cur, prev);
    NodeUpdateScale(n, co, a, cur, prev, x);
    assert lhs[idx] == At(n, lhs, x);
    assert step[idx] == At(n, step, x);
  }

  lemma NodeUpdateScale(n: nat, co: Coeffs, a: real, cur: seq<real>, prev: seq<real>, x: Node)
    requires n >= 3 && Field(n, cur) && Field(n, prev) && InGrid(n, x)
    ensures NodeUpdate(n, co, Scale(a, cur), Scale(a, prev), x) == a * NodeUpdate(n, co, cur, prev, x)
  {
    SumOverScale(a, cur, Slots(n, Neighbours(n, x)));
  }

  /** Additivity (superposition): the next level of summed inputs is the sum of
      the next levels, so the response to two sources is the sum of the responses. */
  lemma StepAdd(n: nat, co: Coeffs, cur1: seq<real>, prev1: seq<real>, cur2: seq<real>, prev2: seq<real>)
    requires n >= 3 && Field(n, cur1) && Field(n, prev1) && Field(n, cur2) && Field(n, prev2)
    ensures Step(n, co, Add(cur1, cur2), Add(prev1, prev2)) == Add(Step(n, co, cur1, prev1), Step(n, co, cur2, prev2))
  {
    var lhs, rhs := Step(n, co, Add(cur1, cur2), Add(prev1, prev2)), Add(Step(n, co, cur1, prev1), Step(n, co, cur2, prev2));
    forall idx | 0 <= idx < Cells(n)
      ensures lhs[idx] == rhs[idx]
    {
      StepAddAt(n, co, cur1, prev1, cur2, prev2, idx);
    }
  }

  lemma StepAddAt(n: nat, co: Coeffs, cur1: seq<real>, prev1: seq<real>, cur2: seq<real>, prev2: seq<real>, idx: int)
    requires n >= 3 && Field(n, cur1) && Field(n, prev1) && Field(n, cur2) && Field(n, prev2) && 0 <= idx < Cells(n)
    ensures Step(n, co, Add(cur1, cur2), Add(prev1, prev2))[idx] == Step(n, co, cur1, prev1)[idx] + Step(n, co, cur2, prev2)[idx]
  {
    var x := Unflatten(n, idx);
    var lhs := Step(n, co, Add(cur1, cur2), Add(prev1, prev2));
    var s1, s2 := Step(n, co, cur1, prev1), Step(n, co, cur2, prev2);
    NodeUpdateAdd(n, co, cur1, prev1, cur2, prev2, x);
    assert lhs[idx] == At(n, lhs, x);
    assert s1[idx] == At(n, s1, x) && s2[idx] == At(n, s2, x);
  }

  lemma NodeUpdateAdd(n: nat, co: Coeffs, cur1: seq<real>, prev1: seq<real>, cur2: seq<real>, prev2: seq<real>, x: Node)
    requires n >= 3 && Field(n, cur1) && Field(n, prev1) && Field(n, cur2) && Field(n, prev2) && InGrid(n, x)
    ensures NodeUpdate(n, co, Add(cur1, cur2), Add(prev1, prev2), x)
         == NodeUpdate(n, co, cur1, prev1, x) + NodeUpdate(n, co, cur2, prev2, x)
  {
    SumOverAdd(cur1, cur2, Slots(n, Neighbours(n, x)));
  }

  // ---------------------------------------------------------------------------
  // Finite propagation speed

  /** Field u vanishes at every node farther than r hops from s. */
  ghost predicate ZeroBeyond(n: nat, u: seq<real>, s: Node, r: int)
  {
    Field(n, u) && forall x {:trigger At(n, u, x)} :: InGrid(n, x) && Dist(x, s) > r ==> At(n, u, x) == 0.0
  }

  lemma AbsTriangle(a: int, b: int, c: int)
    ensures Abs(a - c) <= Abs(a - b) + Abs(b - c)
  {
  }

  /** Hop distance obeys the triangle inequality. */
  lemma DistTriangle(x: Node, y: Node, s: Node)
    ensures Dist(x, s) <= Dist(x, y) + Dist(y, s)
  {
  }

  /** Every neighbour of a node more than r + 1 hops from s is more than r
      hops from s, so the neighbour terms of such a node vanish. */
  lemma NeighboursFar(n: nat, u: seq<real>, s: Node, r: int, x: Node)
    requires n >= 3 && ZeroBeyond(n, u, s, r)
    requires InGrid(n, x) && Dist(x, s) > r + 1
    ensures NeighbourSum(n, u, x) == 0.0
  {
    var ys := Neighbours(n, x);
    var idxs := Slots(n, ys);
    forall t | 0 <= t < |idxs|
      ensures u[idxs[t]] == 0.0
    {
      DistTriangle(x, ys[t], s);
      assert At(n, u, ys[t]) == 0.0;
    }
    SumOverVanishing(u, idxs);
  }

  /** The stencil reaches one hop: if both inputs vanish beyond radius r
      around s, the next level vanishes beyond radius r + 1. */
  lemma FinitePropagation(n: nat, co: Coeffs, cur: seq<real>, prev: seq<real>, s: Node, r: int)
    requires n >= 3
    requires ZeroBeyond(n, cur, s, r) && ZeroBeyond(n, prev, s, r)
    ensures ZeroBeyond(n, Step(n, co, cur, prev), s, r + 1)
  {
    var next := Step(n, co, cur, prev);
    forall x | InGrid(n, x) && Dist(x, s) > r + 1
      ensures At(n, next, x) == 0.0
    {
      NeighboursFar(n, cur, s, r, x);
    }
  }
}
