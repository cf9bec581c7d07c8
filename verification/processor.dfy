/** The audio processor around the scheme: three pressure buffers whose roles
    (next p[0], current p[1], previous p[2]) rotate every sample, the
    coefficients set by prepareToPlay, and the per-sample protocol of
    processBlock: inject, step, rotate, read. */
module Processor {
  import opened Grid
  import opened Classify
  import opened Coefficients
  import Scheme
  import SourceIndexing

  datatype Option<T> = None | Some(value: T)

  /** The node the input sample is added at, and the node the output is read at. */
  const Injection: Node := Node(3, 3, 3)
  const Extraction: Node := Node(5, 7, 7)

  /** Which of the three physical buffers currently plays which role:
      p[0] (next), p[1] (current), p[2] (previous). */
  datatype Roles = Roles(next: nat, current: nat, previous: nat)

  /** The three roles name three different buffers among the three allocated. */
  predicate DistinctRoles(p: Roles)
  {
    && p.next < 3 && p.current < 3 && p.previous < 3
    && p.next != p.current && p.current != p.previous && p.next != p.previous
  }

  /** The processor state.  `co` is None until prepareToPlay has run. */
  datatype Processor = Processor(n: nat, states: seq<seq<real>>, p: Roles, co: Option<Coeffs>, vinPrev: real, vout: real)

  /** The grid holds both the injection and the extraction node (so n >= 8). */
  predicate Fits(n: nat)
  {
    InGrid(n, Injection) && InGrid(n, Extraction)
  }

  predicate Valid(s: Processor)
  {
    && Fits(s.n)
    && |s.states| == 3
    && (forall b :: 0 <= b < 3 ==> Scheme.Field(s.n, s.states[b]))
    && DistinctRoles(s.p)
  }

  /** The constructor: a 10×10×10 cube, three zeroed buffers, p[i] pointing at
      buffer i.  The source leaves vinPrev and vout to prepareToPlay; they are
      0.0 here and nothing reads them before prepareToPlay has set them. */
  function Construct(): (s: Processor)
    ensures Valid(s) && s.n == SourceSize && s.co == None
    ensures s.p == Roles(0, 1, 2)
    ensures forall b :: 0 <= b < 3 ==> Scheme.IsConstant(s.states[b], 0.0)
  {
    var zero := seq(Cells(SourceSize), _ => 0.0);
    Processor(SourceSize, [zero, zero, zero], Roles(0, 1, 2), None, 0.0, 0.0)
  }

  /** prepareToPlay with reflection coefficient r: derives the coefficients and
      clears the one-sample input memory and the output.  The pressure buffers
      and their roles are left as they are. */
  function PrepareWith(s: Processor, r: real): (t: Processor)
    requires Admissible(r)
    ensures t.co.Some? && FixesConstants(t.co.value)
    ensures t.co.value == Derive(r)
    ensures t.vinPrev == 0.0 && t.vout == 0.0
    ensures t.n == s.n && t.states == s.states && t.p == s.p
    ensures Valid(s) <==> Valid(t)
  {
    s.(co := Some(Derive(r)), vinPrev := 0.0, vout := 0.0)
  }

  /** prepareToPlay as written: R is hard-coded to 0.95.  Constants stay fixed
      points, the edge coefficient De2 is R itself, and since R != 1 every wall
      pair differs from the interior pair (1/4, 1): the walls absorb. */
  function PrepareToPlay(s: Processor): (t: Processor)
    ensures t.co.Some? && FixesConstants(t.co.value)
    ensures t.co.value.de2 == 0.95
    ensures t.co.value.dg1 == 0.25 && t.co.value.dg2 == 1.0
    ensures !(t.co.value.di1 == 0.25 && t.co.value.di2 == 1.0)
    ensures !(t.co.value.de1 == 0.25 && t.co.value.de2 == 1.0)
    ensures !(t.co.value.dc1 == 0.25 && t.co.value.dc2 == 1.0)
    ensures t.vinPrev == 0.0 && t.vout == 0.0
    ensures t.n == s.n && t.states == s.states && t.p == s.p
    ensures Valid(s) <==> Valid(t)
  {
    PhysicalReflectionAdmissible(SourceReflection);
    PrepareWith(s, SourceReflection)
  }

  // ---------------------------------------------------------------------------
  // Buffer roles

  /** updateStates: p[0] takes the old p[2], p[1] the old p[0] (the level just
      computed becomes current), p[2] the old p[1].  The same three buffers
      keep playing the three roles. */
  function UpdateStates(p: Roles): (q: Roles)
    ensures q.current == p.next && q.previous == p.current
    ensures {q.next, q.current, q.previous} == {p.next, p.current, p.previous}
    ensures DistinctRoles(q) <==> DistinctRoles(p)
  {
    Roles(p.previous, p.next, p.current)
  }

  /** m successive calls of updateStates. */
  function Rotations(p: Roles, m: nat): (q: Roles)
    decreases m
  {
    if m == 0 then p else UpdateStates(Rotations(p, m - 1))
  }

  lemma {:induction false} RotationsPeriod(p: Roles, m: nat)
    ensures Rotations(p, m) == Rotations(p, m % 3)
    decreases m
  {
    if m >= 3 {
      RotationsThree(p, m);
      RotationsPeriod(p, m - 3);
      ModThree(m);
    }
  }

  lemma ModThree(m: int)
    requires m >= 3
    ensures (m - 3) % 3 == m % 3
  {
    assert m == (m - 3) + 1 * 3;
  }

  /** Three calls of updateStates give the roles back. */
  lemma RotationsThree(p: Roles, m: nat)
    requires m >= 3
    ensures Rotations(p, m) == Rotations(p, m - 3)
  {
    var q := Rotations(p, m - 3);
    assert Rotations(p, m - 2) == UpdateStates(q);
    assert Rotations(p, m - 1) == UpdateStates(UpdateStates(q));
  }

  /** Rotation is a cyclic permutation of order three: the roles return to
      their buffers exactly after every third sample. */
  lemma RotationsIdentity(p: Roles, m: nat)
    requires DistinctRoles(p)
    ensures Rotations(p, m) == p <==> m % 3 == 0
  {
    RotationsPeriod(p, m);
    assert Rotations(p, 1) == Roles(p.previous, p.next, p.current);
    assert Rotations(p, 2) == Roles(p.current, p.previous, p.next);
  }

  // ---------------------------------------------------------------------------
  // One sample

  /** The buffer with v added at the injection node, everything else as before. */
  function Inject(n: nat, u: seq<real>, v: real): (w: seq<real>)
    requires Fits(n) && Scheme.Field(n, u)
    ensures Scheme.Field(n, w)
    ensures Scheme.At(n, w, Injection) == Scheme.At(n, u, Injection) + v
    ensures forall x {:trigger Scheme.At(n, w, x)} :: InGrid(n, x) && x != Injection ==> Scheme.At(n, w, x) == Scheme.At(n, u, x)
  {
    var w := u[Flatten(n, Injection) := u[Flatten(n, Injection)] + v];
    forall x | InGrid(n, x) && x != Injection
      ensures Flatten(n, x) != Flatten(n, Injection)
    {
      if Flatten(n, x) == Flatten(n, Injection) {
        FlattenInjective(n, x, Injection);
      }
    }
    w
  }

  /** The current and previous time levels and the input memory, without
      buffer roles: the state a copying implementation would keep. */
  datatype Levels = Levels(cur: seq<real>, prev: seq<real>, vinPrev: real)

  predicate LevelsFit(n: nat, l: Levels)
  {
    Fits(n) && Scheme.Field(n, l.cur) && Scheme.Field(n, l.prev)
  }

  /** Reference semantics of one sample over copied levels: add vin to the
      current level and the previous input to the previous level at the
      injection node, advance one time step, and output the new level at the
      extraction node. */
  function Leapfrog(n: nat, co: Coeffs, l: Levels, vin: real): (res: (Levels, real))
    requires LevelsFit(n, l)
    ensures LevelsFit(n, res.0) && res.0.vinPrev == vin
    ensures res.1 == Scheme.At(n, res.0.cur, Extraction)
  {
    var cur := Inject(n, l.cur, vin);
    var prev := Inject(n, l.prev, l.vinPrev);
    var next := Scheme.Step(n, co, cur, prev);
    (Levels(next, cur, vin), Scheme.At(n, next, Extraction))
  }

  /** The levels held by a processor: its p[1] and p[2] buffers. */
  function LevelsOf(s: Processor): (l: Levels)
    requires Valid(s)
    ensures LevelsFit(s.n, l)
  {
    Levels(s.states[s.p.current], s.states[s.p.previous], s.vinPrev)
  }

  /** One iteration of the sample loop of processBlock.  Scheme reads only
      the injected p[1] and p[2] and writes only p[0]; after the rotation p[1]
      is the level just computed and vout is its value at the extraction node.
      The processor refines the copying reference Leapfrog. */
  function ProcessSample(s: Processor, vin: real): (t: Processor)
    requires Valid(s) && s.co.Some?
    ensures Valid(t) && t.n == s.n && t.co == s.co
    ensures t.p == UpdateStates(s.p)
    ensures (LevelsOf(t), t.vout) == Leapfrog(s.n, s.co.value, LevelsOf(s), vin)
    ensures t.states[t.p.next] == Inject(s.n, s.states[s.p.previous], s.vinPrev)
  {
    var cur := Inject(s.n, s.states[s.p.current], vin);
    var prev := Inject(s.n, s.states[s.p.previous], s.vinPrev);
    var next := Scheme.Step(s.n, s.co.value, cur, prev);
    var states := s.states[s.p.current := cur][s.p.previous := prev][s.p.next := next];
    var p := UpdateStates(s.p);
    Processor(s.n, states, p, s.co, vin, states[p.current][Flatten(s.n, Extraction)])
  }

  /** The same sample, with calculateScheme writing node by node, in the
      source's order, over whatever p[0] held. */
  method ProcessSampleInPlace(s: Processor, vin: real) returns (t: Processor)
    requires Valid(s) && s.co.Some?
    ensures t == ProcessSample(s, vin)
  {
    var states := s.states;
    states := states[s.p.current := Inject(s.n, states[s.p.current], vin)];
    states := states[s.p.previous := Inject(s.n, states[s.p.previous], s.vinPrev)];
    var next := Scheme.CalculateScheme(s.n, s.co.value, states[s.p.current], states[s.p.previous], states[s.p.next]);
    states := states[s.p.next := next];
    var p := UpdateStates(s.p);
    t := Processor(s.n, states, p, s.co, vin, states[p.current][Flatten(s.n, Extraction)]);
  }

  // ---------------------------------------------------------------------------
  // A stream of samples

  /** The processor after a stream of input samples, with the output samples. */
  function Run(s: Processor, ins: seq<real>): (res: (Processor, seq<real>))
    requires Valid(s) && s.co.Some?
    ensures Valid(res.0) && res.0.n == s.n && res.0.co == s.co
    ensures |res.1| == |ins|
    decreases |ins|
  {
    if |ins| == 0 then (s, [])
    else
      var before := Run(s, ins[..|ins| - 1]);
      var t := ProcessSample(before.0, ins[|ins| - 1]);
      (t, before.1 + [t.vout])
  }

  /** The sample loop of processBlock for one channel. */
  method ProcessBlock(s: Processor, ins: seq<real>) returns (t: Processor, outs: seq<real>)
    requires Valid(s) && s.co.Some?
    ensures (t, outs) == Run(s, ins)
  {
    t, outs := s, [];
    for m := 0 to |ins|
      invariant (t, outs) == Run(s, ins[..m])
    {
      RunStep(s, ins, m);
      t := ProcessSampleInPlace(t, ins[m]);
      outs := outs + [t.vout];
    }
    assert ins[..|ins|] == ins;
  }

  /** One more input sample is one more iteration of the sample loop. */
  lemma RunStep(s: Processor, ins: seq<real>, m: int)
    requires Valid(s) && s.co.Some? && 0 <= m < |ins|
    ensures Run(s, ins[..m + 1]).0 == ProcessSample(Run(s, ins[..m]).0, ins[m])
    ensures Run(s, ins[..m + 1]).1 == Run(s, ins[..m]).1 + [ProcessSample(Run(s, ins[..m]).0, ins[m]).vout]
  {
    assert ins[..m + 1][..m] == ins[..m];
  }

  lemma RunLast(s: Processor, ins: seq<real>)
    requires Valid(s) && s.co.Some? && |ins| > 0
    ensures Run(s, ins).0 == ProcessSample(Run(s, ins[..|ins| - 1]).0, ins[|ins| - 1])
    ensures Run(s, ins).1 == Run(s, ins[..|ins| - 1]).1 + [Run(s, ins).0.vout]
  {
  }

  /** The reference semantics over a stream. */
  function Response(n: nat, co: Coeffs, l: Levels, ins: seq<real>): (res: (Levels, seq<real>))
    requires LevelsFit(n, l)
    ensures LevelsFit(n, res.0) && |res.1| == |ins|
    decreases |ins|
  {
    if |ins| == 0 then (l, [])
    else
      var before := Response(n, co, l, ins[..|ins| - 1]);
      var step := Leapfrog(n, co, before.0, ins[|ins| - 1]);
      (step.0, before.1 + [step.1])
  }

  lemma ResponseLast(n: nat, co: Coeffs, l: Levels, ins: seq<real>, k: int)
    requires LevelsFit(n, l) && k == |ins| - 1 >= 0
    ensures Response(n, co, l, ins).0 == Leapfrog(n, co, Response(n, co, l, ins[..k]).0, ins[k]).0
    ensures Response(n, co, l, ins).1 == Response(n, co, l, ins[..k]).1 + [Leapfrog(n, co, Response(n, co, l, ins[..k]).0, ins[k]).1]
  {
  }

  /** The rotating-buffer processor and the copying reference agree on every
      stream: same levels, same output samples. */
  lemma {:induction false} RunRefinesResponse(s: Processor, ins: seq<real>)
    requires Valid(s) && s.co.Some?
    ensures LevelsOf(Run(s, ins).0) == Response(s.n, s.co.value, LevelsOf(s), ins).0
    ensures Run(s, ins).1 == Response(s.n, s.co.value, LevelsOf(s), ins).1
    decreases |ins|
  {
    if |ins| > 0 {
      RunRefinesResponse(s, ins[..|ins| - 1]);
    }
  }

  // ---------------------------------------------------------------------------
  // Silence

  /** Both time levels the next sample reads are zero, and so is the input memory. */
  predicate Quiet(s: Processor)
    requires Valid(s)
  {
    Scheme.IsConstant(s.states[s.p.current], 0.0) && Scheme.IsConstant(s.states[s.p.previous], 0.0) && s.vinPrev == 0.0
  }

  /** A freshly constructed and prepared processor is quiet. */
  lemma FreshIsQuiet()
    ensures Valid(PrepareToPlay(Construct())) && PrepareToPlay(Construct()).co.Some?
    ensures Quiet(PrepareToPlay(Construct()))
  {
  }

  /** A zero sample into a quiet processor outputs zero, leaves all three
      buffers zero and the processor quiet. */
  lemma SilenceStep(s: Processor)
    requires Valid(s) && s.co.Some? && Quiet(s)
    ensures Quiet(ProcessSample(s, 0.0)) && ProcessSample(s, 0.0).vout == 0.0
    ensures forall b :: 0 <= b < 3 ==> Scheme.IsConstant(ProcessSample(s, 0.0).states[b], 0.0)
  {
    var t := ProcessSample(s, 0.0);
    var cur := Inject(s.n, s.states[s.p.current], 0.0);
    var prev := Inject(s.n, s.states[s.p.previous], s.vinPrev);
    assert cur == s.states[s.p.current];
    assert prev == s.states[s.p.previous];
    Scheme.StepZero(s.n, s.co.value, cur, prev);
    assert t.states[t.p.current] == Scheme.Step(s.n, s.co.value, cur, prev);
    assert Scheme.At(t.n, t.states[t.p.current], Extraction) == t.vout;
    forall b | 0 <= b < 3
      ensures Scheme.IsConstant(t.states[b], 0.0)
    {
      assert b == t.p.next || b == t.p.current || b == t.p.previous;
    }
  }

  /** A quiet processor fed silence outputs silence forever. */
  lemma {:induction false} SilenceForever(s: Processor, ins: seq<real>)
    requires Valid(s) && s.co.Some? && Quiet(s)
    requires forall m :: 0 <= m < |ins| ==> ins[m] == 0.0
    ensures Quiet(Run(s, ins).0)
    ensures forall m :: 0 <= m < |ins| ==> Run(s, ins).1[m] == 0.0
    decreases |ins|
  {
    if |ins| > 0 {
      var k := |ins| - 1;
      SilenceForever(s, ins[..k]);
      var before := Run(s, ins[..k]);
      SilenceStep(before.0);
      RunLast(s, ins);
      assert ins[k] == 0.0;
      SilentAppend(before.1, Run(s, ins).0.vout);
    }
  }

  /** Appending a zero sample to silent output keeps it silent. */
  lemma SilentAppend(a: seq<real>, b: real)
    requires forall m :: 0 <= m < |a| ==> a[m] == 0.0
    requires b == 0.0
    ensures forall m :: 0 <= m < |a| + 1 ==> (a + [b])[m] == 0.0
  {
  }

  // ---------------------------------------------------------------------------
  // Latency

  lemma ZeroBeyondWider(n: nat, u: seq<real>, c: Node, r: int, r2: int)
    requires Scheme.ZeroBeyond(n, u, c, r) && r <= r2
    ensures Scheme.ZeroBeyond(n, u, c, r2)
  {
  }

  /** Adding at the injection node keeps a field zero beyond any radius around it. */
  lemma InjectKeepsZeroBeyond(n: nat, u: seq<real>, v: real, r: int)
    requires Fits(n) && Scheme.ZeroBeyond(n, u, Injection, r) && r >= 0
    ensures Scheme.ZeroBeyond(n, Inject(n, u, v), Injection, r)
  {
  }

  /** One sample widens the support of both levels by one hop, and the
      output is zero while the extraction node lies beyond the new radius. */
  lemma LeapfrogSupport(n: nat, co: Coeffs, l: Levels, vin: real, r: int)
    requires LevelsFit(n, l) && n >= 3 && r >= 0
    requires Scheme.ZeroBeyond(n, l.cur, Injection, r) && Scheme.ZeroBeyond(n, l.prev, Injection, r)
    ensures Scheme.ZeroBeyond(n, Leapfrog(n, co, l, vin).0.cur, Injection, r + 1)
    ensures Scheme.ZeroBeyond(n, Leapfrog(n, co, l, vin).0.prev, Injection, r + 1)
    ensures Dist(Extraction, Injection) > r + 1 ==> Leapfrog(n, co, l, vin).1 == 0.0
  {
    var cur := Inject(n, l.cur, vin);
    var prev := Inject(n, l.prev, l.vinPrev);
    InjectKeepsZeroBeyond(n, l.cur, vin, r);
    InjectKeepsZeroBeyond(n, l.prev, l.vinPrev, r);
    Scheme.FinitePropagation(n, co, cur, prev, Injection, r);
    ZeroBeyondWider(n, cur, Injection, r, r + 1);
  }

  /** Started from silent levels, after m samples both levels vanish beyond m
      hops of the injection node, and every output sample taken while the
      extraction node was still out of reach is zero. */
  lemma {:induction false} ResponseSupport(n: nat, co: Coeffs, l: Levels, ins: seq<real>)
    requires LevelsFit(n, l) && n >= 3
    requires Scheme.IsConstant(l.cur, 0.0) && Scheme.IsConstant(l.prev, 0.0)
    ensures Scheme.ZeroBeyond(n, Response(n, co, l, ins).0.cur, Injection, |ins|)
    ensures Scheme.ZeroBeyond(n, Response(n, co, l, ins).0.prev, Injection, |ins|)
    ensures forall m :: 0 <= m < |ins| && m + 1 < Dist(Extraction, Injection) ==> Response(n, co, l, ins).1[m] == 0.0
  {
    ResponseLevelsSupport(n, co, l, ins);
    ResponseOutputs(n, co, l, ins);
  }

  /** The output half of ResponseSupport. */
  lemma {:induction false} ResponseOutputs(n: nat, co: Coeffs, l: Levels, ins: seq<real>)
    requires LevelsFit(n, l) && n >= 3
    requires Scheme.IsConstant(l.cur, 0.0) && Scheme.IsConstant(l.prev, 0.0)
    ensures forall m :: 0 <= m < |ins| && m + 1 < Dist(Extraction, Injection) ==> Response(n, co, l, ins).1[m] == 0.0
    decreases |ins|
  {
    if |ins| > 0 {
      var k := |ins| - 1;
      ResponseOutputs(n, co, l, ins[..k]);
      ResponseLevelsSupport(n, co, l, ins[..k]);
      ResponseLast(n, co, l, ins, k);
      var before := Response(n, co, l, ins[..k]);
      OutputStep(n, co, before.0, before.1, ins[k]);
    }
  }

  /** One sample more: the levels reach one hop further, so the new output is
      still zero while the extraction node is out of reach. */
  lemma OutputStep(n: nat, co: Coeffs, l: Levels, outs: seq<real>, vin: real)
    requires LevelsFit(n, l) && n >= 3
    requires Scheme.ZeroBeyond(n, l.cur, Injection, |outs|) && Scheme.ZeroBeyond(n, l.prev, Injection, |outs|)
    requires forall m :: 0 <= m < |outs| && m + 1 < Dist(Extraction, Injection) ==> outs[m] == 0.0
    ensures forall m :: 0 <= m < |outs| + 1 && m + 1 < Dist(Extraction, Injection) ==> (outs + [Leapfrog(n, co, l, vin).1])[m] == 0.0
  {
    LeapfrogSupport(n, co, l, vin, |outs|);
    QuietPrefix(outs, Leapfrog(n, co, l, vin).1, Dist(Extraction, Injection));
  }

  /** The level half of ResponseSupport: after m samples from silence both
      levels vanish beyond m hops of the injection node. */
  lemma {:induction false} ResponseLevelsSupport(n: nat, co: Coeffs, l: Levels, ins: seq<real>)
    requires LevelsFit(n, l) && n >= 3
    requires Scheme.IsConstant(l.cur, 0.0) && Scheme.IsConstant(l.prev, 0.0)
    ensures Scheme.ZeroBeyond(n, Response(n, co, l, ins).0.cur, Injection, |ins|)
    ensures Scheme.ZeroBeyond(n, Response(n, co, l, ins).0.prev, Injection, |ins|)
    decreases |ins|
  {
    if |ins| > 0 {
      var k := |ins| - 1;
      ResponseLevelsSupport(n, co, l, ins[..k]);
      var before := Response(n, co, l, ins[..k]);
      LeapfrogSupport(n, co, before.0, ins[k], k);
      ResponseLast(n, co, l, ins, k);
      assert k + 1 == |ins|;
    } else {
      assert Scheme.ZeroBeyond(n, l.cur, Injection, 0);
      assert Scheme.ZeroBeyond(n, l.prev, Injection, 0);
    }
  }

  /** Appending a sample keeps the output silent before step d - 1. */
  lemma QuietPrefix(a: seq<real>, b: real, d: int)
    requires forall m :: 0 <= m < |a| && m + 1 < d ==> a[m] == 0.0
    requires |a| + 1 < d ==> b == 0.0
    ensures forall m :: 0 <= m < |a| + 1 && m + 1 < d ==> (a + [b])[m] == 0.0
  {
  }

  /** A processor whose levels are silent outputs zero for every sample the
      wave front needs to travel from the injection to the extraction node. */
  lemma OutputLatency(s: Processor, ins: seq<real>)
    requires Valid(s) && s.co.Some?
    requires Scheme.IsConstant(s.states[s.p.current], 0.0) && Scheme.IsConstant(s.states[s.p.previous], 0.0)
    ensures forall m :: 0 <= m < |ins| && m + 1 < Dist(Extraction, Injection) ==> Run(s, ins).1[m] == 0.0
  {
    RunRefinesResponse(s, ins);
    ResponseSupport(s.n, s.co.value, LevelsOf(s), ins);
  }

  /** The source's nodes lie ten hops apart, so a freshly prepared processor
      outputs zero for its first nine samples, whatever the input. */
  lemma SourceLatency(ins: seq<real>)
    ensures Dist(Extraction, Injection) == 10
    ensures forall m :: 0 <= m < |ins| && m < 9 ==> Run(PrepareToPlay(Construct()), ins).1[m] == 0.0
  {
    FreshIsQuiet();
    OutputLatency(PrepareToPlay(Construct()), ins);
  }

  /** The source spells the two positions as 3 + 3*Ny + 3*Ny*Nz and
      5 + 7*Ny + 7*Ny*Nz; on the 10-cube these are the in-bounds, interior
      nodes (3,3,3) and (5,7,7). */
  lemma SourcePositions()
    ensures Fits(SourceSize)
    ensures Flatten(SourceSize, Injection) == SourceIndexing.BoxFlatten(10, 10, Injection) == 3 + 3 * 10 + 3 * 10 * 10
    ensures Flatten(SourceSize, Extraction) == SourceIndexing.BoxFlatten(10, 10, Extraction) == 5 + 7 * 10 + 7 * 10 * 10
    ensures ClassOf(SourceSize, Injection) == Interior && ClassOf(SourceSize, Extraction) == Interior
  {
  }
}
