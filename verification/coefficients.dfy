/** The eight scheme coefficients derived from the wall reflection coefficient R
    (prepareToPlay).  One (D1, D2) pair per node class: D1 weighs the current
    field around the node, D2 the previous value at the node. */
module Coefficients {
  import opened Classify

  datatype Coeffs = Coeffs(dg1: real, dg2: real, di1: real, di2: real, de1: real, de2: real, dc1: real, dc2: real)

  /** The reflection coefficient the processor hard-codes. */
  const SourceReflection: real := 0.95

  /** R keeps both denominators R + 3 and 5 - R away from zero. */
  predicate Admissible(r: real)
  {
    r != -3.0 && r != 5.0
  }

  /** A coefficient set under which a constant field is a fixed point of every
      stencil: 8*D1 - D2 == 1 for each class (the stencil weighs 6 neighbours
      plus twice the node itself). */
  predicate FixesConstants(co: Coeffs)
  {
    && 8.0 * co.dg1 - co.dg2 == 1.0
    && 8.0 * co.di1 - co.di2 == 1.0
    && 8.0 * co.de1 - co.de2 == 1.0
    && 8.0 * co.dc1 - co.dc2 == 1.0
  }

  /** The coefficient derivation.  Every admissible R gives a set that fixes
      constants, and the boundary pairs coincide with the interior pair
      (1/4, 1) exactly when the wall is rigid (R = 1). */
  function Derive(r: real): (co: Coeffs)
    requires Admissible(r)
    ensures FixesConstants(co)
    ensures co.dg1 == 0.25 && co.dg2 == 1.0
    ensures (co.di1 == co.dg1 && co.di2 == co.dg2) <==> r == 1.0
    ensures (co.de1 == co.dg1 && co.de2 == co.dg2) <==> r == 1.0
    ensures (co.dc1 == co.dg1 && co.dc2 == co.dg2) <==> r == 1.0
  {
    Coeffs(
      1.0 / 4.0,
      1.0,
      (r + 1.0) / (2.0 * (r + 3.0)),
      (3.0 * r + 1.0) / (r + 3.0),
      (r + 1.0) / 8.0,
      r,
      (r + 1.0) / (2.0 * (5.0 - r)),
      (5.0 * r - 1.0) / (5.0 - r))
  }

  /** Every physically meaningful R, and the hard-coded 0.95 in particular, is admissible. */
  lemma PhysicalReflectionAdmissible(r: real)
    requires 0.0 <= r <= 1.0
    ensures Admissible(r) && Admissible(SourceReflection)
  {
  }

  function D1(co: Coeffs, c: NodeClass): real
  {
    match c
    case Interior => co.dg1
    case Face => co.di1
    case Edge => co.de1
    case Corner => co.dc1
  }

  function D2(co: Coeffs, c: NodeClass): real
  {
    match c
    case Interior => co.dg2
    case Face => co.di2
    case Edge => co.de2
    case Corner => co.dc2
  }

  /** The per-class reading of FixesConstants. */
  lemma ClassFixesConstants(co: Coeffs, c: NodeClass)
    requires FixesConstants(co)
    ensures 8.0 * D1(co, c) - D2(co, c) == 1.0
  {
  }
}
