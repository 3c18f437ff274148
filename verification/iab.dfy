/**
  The instrumental-arm bandit environment.

  An agent offers an instrument z; an individual of a latent compliance
  type k, drawn with probability pk[k], receives the treatment
  types[k][z]; the observed outcome is muKx[k][x] plus a noise term drawn
  uniformly from [-1, 1]. The environment keeps a count matrix indexed by
  (instrument, realised treatment), outcome sums indexed by instrument and
  by treatment, and three regret sequences.

  The two random draws of a pull (the type k and the noise vector eps) are
  explicit inputs here, so a pull is a pure transition.
 */
module Environment {
  import opened Vectors

  /** The parameters an environment is constructed from. */
  datatype Params = Params(
    nArms: nat,               // instruments and treatments share 0..nArms-1
    types: seq<seq<nat>>,     // types[k][z]: treatment received by type k offered z
    pk: seq<real>,            // probability of each compliance type
    muKx: seq<seq<real>>      // muKx[k][x]: mean outcome of type k under treatment x
  ) {
    /** Number of compliance types. */
    function K(): nat
    {
      |types|
    }

    /**
      One probability per type, a row of outcome means for every type (rows
      past the last type are never read), one column per arm, and every
      treatment is an arm.
     */
    predicate WellShaped()
    {
      && |pk| == |types|
      && |muKx| >= |types|
      && (forall k :: 0 <= k < |types| ==> |types[k]| == nArms && |muKx[k]| == nArms)
      && (forall k, z :: 0 <= k < |types| && 0 <= z < |types[k]| ==> types[k][z] < nArms)
    }
  }

  /** Immutable part of an environment: its parameters and the two derived mean vectors. */
  datatype Structure = Structure(params: Params, muX: seq<real>, muZ: seq<real>)

  /** Running statistics, cleared by Reset and advanced by Pull. */
  datatype Running = Running(
    nZx: seq<seq<nat>>,       // nZx[z][x]: pulls of instrument z that realised treatment x
    sZ: seq<real>,            // outcome sum per instrument
    sX: seq<real>,            // outcome sum per realised treatment
    ittRegret: seq<real>,
    stRegret: seq<real>,
    cRegret: seq<real>
  )

  datatype Iab = Iab(structure: Structure, running: Running)

  /** What a pull reports: the realised treatment and the observed outcome. */
  datatype Step = Step(env: Iab, x: nat, y: real)

  /** One pull with its two random draws made explicit. */
  datatype Trial = Trial(z: nat, k: nat, eps: seq<real>)

  // ---------------------------------------------------------------------
  // Structural means

  /** Contribution of the first m types to the structural mean of treatment x. */
  function MuXPrefix(p: Params, x: nat, m: nat): real
    requires p.WellShaped() && x < p.nArms && m <= p.K()
  {
    if m == 0 then 0.0 else MuXPrefix(p, x, m - 1) + p.pk[m - 1] * p.muKx[m - 1][x]
  }

  /** Contribution of the first m types to the reduced-form mean of instrument z. */
  function MuZPrefix(p: Params, z: nat, m: nat): real
    requires p.WellShaped() && z < p.nArms && m <= p.K()
  {
    if m == 0 then 0.0 else MuZPrefix(p, z, m - 1) + p.pk[m - 1] * p.muKx[m - 1][p.types[m - 1][z]]
  }

  /** mu_x[x]: the pk-weighted mean outcome if treatment x were given to everyone. */
  function MuX(p: Params): (r: seq<real>)
    requires p.WellShaped()
    ensures |r| == p.nArms
  {
    seq(p.nArms, x requires 0 <= x < p.nArms => MuXPrefix(p, x, p.K()))
  }

  /** mu_z[z]: the pk-weighted mean outcome if instrument z were offered to everyone. */
  function MuZ(p: Params): (r: seq<real>)
    requires p.WellShaped()
    ensures |r| == p.nArms
  {
    seq(p.nArms, z requires 0 <= z < p.nArms => MuZPrefix(p, z, p.K()))
  }

  /** A compliance row that sends every instrument to the same-numbered treatment. */
  predicate IsIdentity(row: seq<nat>, n: nat)
  {
    |row| == n && forall i :: 0 <= i < n ==> row[i] == i
  }

  /** When every type complies fully, offering z is the same as assigning z. */
  lemma {:induction false} FullComplianceMeansAgree(p: Params)
    requires p.WellShaped()
    requires forall k :: 0 <= k < p.K() ==> IsIdentity(p.types[k], p.nArms)
    ensures MuZ(p) == MuX(p)
  {
    forall z | 0 <= z < p.nArms
      ensures MuZPrefix(p, z, p.K()) == MuXPrefix(p, z, p.K())
    {
      UniformResponsePrefix(p, z, z, p.K());
    }
  }

  /**
    If every type answers instrument z with the same treatment x, offering z
    is worth exactly what assigning x is worth.
   */
  lemma UniformResponseMeans(p: Params, z: nat, x: nat)
    requires p.WellShaped() && z < p.nArms && x < p.nArms
    requires forall k :: 0 <= k < p.K() ==> p.types[k][z] == x
    ensures MuZ(p)[z] == MuX(p)[x]
  {
    UniformResponsePrefix(p, z, x, p.K());
  }

  lemma {:induction false} UniformResponsePrefix(p: Params, z: nat, x: nat, m: nat)
    requires p.WellShaped() && z < p.nArms && x < p.nArms && m <= p.K()
    requires forall k :: 0 <= k < p.K() ==> p.types[k][z] == x
    ensures MuZPrefix(p, z, m) == MuXPrefix(p, x, m)
  {
    if m > 0 {
      UniformResponsePrefix(p, z, x, m - 1);
    }
  }

  /**
    With type probabilities summing to 1, a treatment whose mean outcome is
    the same c for every type has structural mean c: mu_x is a weighted
    average over the types.
   */
  lemma TypeFreeMean(p: Params, x: nat, c: real)
    requires p.WellShaped() && x < p.nArms && Sum(p.pk) == 1.0
    requires forall k :: 0 <= k < p.K() ==> p.muKx[k][x] == c
    ensures MuX(p)[x] == c
  {
    MuXPrefixOfConstant(p, x, p.K(), c);
    assert p.pk[..p.K()] == p.pk;
  }

  lemma {:induction false} MuXPrefixOfConstant(p: Params, x: nat, m: nat, c: real)
    requires p.WellShaped() && x < p.nArms && m <= p.K()
    requires forall k :: 0 <= k < p.K() ==> p.muKx[k][x] == c
    ensures MuXPrefix(p, x, m) == c * Sum(p.pk[..m])
  {
    if m > 0 {
      MuXPrefixOfConstant(p, x, m - 1, c);
      assert p.pk[..m][..m - 1] == p.pk[..m - 1];
    }
  }

  // ---------------------------------------------------------------------
  // Well-formed states and the bookkeeping invariant

  /** The shape of the running statistics for nArms arms. */
  ghost predicate RunningShaped(r: Running, n: nat)
  {
    IsMatrix(r.nZx, n, n) && |r.sZ| == n && |r.sX| == n
  }

  /** The two mean vectors are the ones the parameters determine. */
  ghost predicate Derived(s: Structure)
    requires s.params.WellShaped()
  {
    s.muX == MuX(s.params) && s.muZ == MuZ(s.params)
  }

  /**
    Well-shaped parameters, one mean per arm, running statistics of the
    right shape. Whether the means are the derived ones is a property of the
    structure alone (Derived), which Construct establishes and every pull
    and reset keeps, since neither touches the structure.
   */
  ghost predicate Valid(e: Iab)
  {
    var p := e.structure.params;
    && p.WellShaped()
    && |e.structure.muX| == p.nArms
    && |e.structure.muZ| == p.nArms
    && RunningShaped(e.running, p.nArms)
  }

  /**
    n_x: pulls that realised each treatment, summing nZx over its first
    axis (instruments), so entry j bounds every cell of column j.
   */
  function NX(e: Iab): (r: seq<nat>)
    requires Valid(e)
    ensures |r| == e.structure.params.nArms
    ensures forall i, j :: 0 <= i < |r| && 0 <= j < |r| ==> e.running.nZx[i][j] <= r[j]
  {
    var n := e.structure.params.nArms;
    var m := e.running.nZx;
    assert forall i, j :: 0 <= i < n && 0 <= j < n ==> m[i][j] <= ColumnTotal(m, j) by {
      forall i, j | 0 <= i < n && 0 <= j < n
        ensures m[i][j] <= ColumnTotal(m, j)
      {
        EntryAtMostColumnTotal(m, i, j);
      }
    }
    ColumnTotals(m, n)
  }

  /**
    n_z: pulls of each instrument, summing nZx over its second axis
    (treatments), so entry i bounds every cell of row i.
   */
  function NZ(e: Iab): (r: seq<nat>)
    requires Valid(e)
    ensures |r| == e.structure.params.nArms
    ensures forall i, j :: 0 <= i < |r| && 0 <= j < |r| ==> e.running.nZx[i][j] <= r[i]
  {
    var n := e.structure.params.nArms;
    var m := e.running.nZx;
    assert forall i, j :: 0 <= i < n && 0 <= j < n ==> m[i][j] <= Total(m[i]) by {
      forall i, j | 0 <= i < n && 0 <= j < n
        ensures m[i][j] <= Total(m[i])
      {
        EntryAtMostTotal(m[i], j);
      }
    }
    RowTotals(m)
  }

  /** Both marginal count vectors add up to the grand total of the count matrix. */
  lemma MarginalTotals(e: Iab)
    requires Valid(e)
    ensures Total(NX(e)) == MatrixTotal(e.running.nZx)
    ensures Total(NZ(e)) == MatrixTotal(e.running.nZx)
  {
    MarginalsAgree(e.running.nZx, e.structure.params.nArms);
  }

  /**
    What every pull keeps true: one regret value per counted pull in each
    of the three lists, equal totals in the two outcome sums, and no
    outcome mass on an instrument or treatment that has never been counted.
   */
  ghost predicate Conserved(e: Iab)
    requires Valid(e)
  {
    var r := e.running;
    && |r.ittRegret| == MatrixTotal(r.nZx)
    && |r.stRegret| == MatrixTotal(r.nZx)
    && |r.cRegret| == MatrixTotal(r.nZx)
    && Sum(r.sZ) == Sum(r.sX)
    && (forall i :: 0 <= i < |r.sZ| && NZ(e)[i] == 0 ==> r.sZ[i] == 0.0)
    && (forall i :: 0 <= i < |r.sX| && NX(e)[i] == 0 ==> r.sX[i] == 0.0)
  }

  /**
    An outcome sum over a count, with the 1e-8 guard in the denominator;
    the guard keeps the sign of the sum.
   */
  function GuardedMean(s: real, n: nat): (u: real)
    ensures u < 0.0 <==> s < 0.0
    ensures u > 0.0 <==> s > 0.0
  {
    var d := n as real + 0.00000001;
    assert s == (s / d) * d;
    s / d
  }

  /** u_x: guarded mean outcome per realised treatment; it has the sign of that treatment's sum. */
  function UX(e: Iab): (r: seq<real>)
    requires Valid(e)
    ensures |r| == e.structure.params.nArms
    ensures forall i :: 0 <= i < |r| ==>
      (r[i] < 0.0 <==> e.running.sX[i] < 0.0) && (r[i] > 0.0 <==> e.running.sX[i] > 0.0)
  {
    var n := NX(e);
    seq(e.structure.params.nArms, i requires 0 <= i < e.structure.params.nArms =>
      GuardedMean(e.running.sX[i], n[i]))
  }

  /** u_z: guarded mean outcome per instrument; it has the sign of that instrument's sum. */
  function UZ(e: Iab): (r: seq<real>)
    requires Valid(e)
    ensures |r| == e.structure.params.nArms
    ensures forall i :: 0 <= i < |r| ==>
      (r[i] < 0.0 <==> e.running.sZ[i] < 0.0) && (r[i] > 0.0 <==> e.running.sZ[i] > 0.0)
  {
    var n := NZ(e);
    seq(e.structure.params.nArms, i requires 0 <= i < e.structure.params.nArms =>
      GuardedMean(e.running.sZ[i], n[i]))
  }

  /** Under the invariant, an arm that was never counted has empirical mean exactly 0. */
  lemma UnpulledMeansAreZero(e: Iab, i: nat)
    requires Valid(e) && Conserved(e) && i < e.structure.params.nArms
    ensures NX(e)[i] == 0 ==> UX(e)[i] == 0.0
    ensures NZ(e)[i] == 0 ==> UZ(e)[i] == 0.0
  {
  }

  // ---------------------------------------------------------------------
  // Construction and reset

  /** The cleared running statistics for n arms. */
  function Cleared(n: nat): Running
  {
    Running(ZeroMatrix(n), Zeros(n), Zeros(n), [], [], [])
  }

  /**
    Builds an environment. The source computes the two mean vectors by
    nested loops over arms and types, accumulating into zero vectors, then
    resets. Parameters whose tables do not have matching shapes make those
    loops or the later pulls fail with an indexing or broadcasting error,
    except with a single arm, where the length-1 noise vector and arange(1)
    broadcast against a row of any length and the pulls go on; here they
    all give None.
   */
  method Construct(p: Params) returns (r: Option<Iab>)
    ensures r.Some? <==> p.WellShaped()
    ensures r.Some? ==> Valid(r.value) && Conserved(r.value)
    ensures r.Some? ==> r.value.running == Cleared(p.nArms) && Reset(r.value) == r.value
    ensures r.Some? ==> r.value.structure.params == p
    ensures r.Some? ==> r.value.structure.muX == MuX(p) && r.value.structure.muZ == MuZ(p)
    ensures r.Some? ==> r.value.running.ittRegret == [] && MatrixTotal(r.value.running.nZx) == 0
  {
    if !p.WellShaped() {
      return None;
    }
    var n := p.nArms;
    var muX := Zeros(n);
    var x := 0;
    while x < n
      invariant 0 <= x <= n && |muX| == n
      invariant forall i :: 0 <= i < x ==> muX[i] == MuXPrefix(p, i, p.K())
      invariant forall i :: x <= i < n ==> muX[i] == 0.0
    {
      var k := 0;
      while k < p.K()
        invariant 0 <= k <= p.K() && |muX| == n
        invariant muX[x] == MuXPrefix(p, x, k)
        invariant forall i :: 0 <= i < x ==> muX[i] == MuXPrefix(p, i, p.K())
        invariant forall i :: x < i < n ==> muX[i] == 0.0
      {
        muX := muX[x := muX[x] + p.pk[k] * p.muKx[k][x]];
        k := k + 1;
      }
      x := x + 1;
    }
    var muZ := Zeros(n);
    var z := 0;
    while z < n
      invariant 0 <= z <= n && |muZ| == n
      invariant forall i :: 0 <= i < z ==> muZ[i] == MuZPrefix(p, i, p.K())
      invariant forall i :: z <= i < n ==> muZ[i] == 0.0
    {
      var k := 0;
      while k < p.K()
        invariant 0 <= k <= p.K() && |muZ| == n
        invariant muZ[z] == MuZPrefix(p, z, k)
        invariant forall i :: 0 <= i < z ==> muZ[i] == MuZPrefix(p, i, p.K())
        invariant forall i :: z < i < n ==> muZ[i] == 0.0
      {
        muZ := muZ[z := muZ[z] + p.pk[k] * p.muKx[k][p.types[k][z]]];
        k := k + 1;
      }
      z := z + 1;
    }
    var e := Iab(Structure(p, muX, muZ), Cleared(n));
    ZeroMatrixTotals(n);
    SumOfZeros(n);
    return Some(e);
  }

  /**
    Clears the count matrix, both outcome sums and the three regret lists;
    the structure is kept as it is.
   */
  function Reset(e: Iab): (r: Iab)
    requires Valid(e)
    ensures Valid(r) && Conserved(r)
    ensures r.structure == e.structure
    ensures MatrixTotal(r.running.nZx) == 0
    ensures forall i, j :: 0 <= i < e.structure.params.nArms && 0 <= j < e.structure.params.nArms ==>
      r.running.nZx[i][j] == 0
    ensures forall i :: 0 <= i < e.structure.params.nArms ==>
      r.running.sZ[i] == 0.0 && r.running.sX[i] == 0.0
    ensures r.running.ittRegret == [] && r.running.stRegret == [] && r.running.cRegret == []
  {
    var n := e.structure.params.nArms;
    ZeroMatrixTotals(n);
    SumOfZeros(n);
    Iab(e.structure, Cleared(n))
  }

  // ---------------------------------------------------------------------
  // Pull

  /** The noise vector ranges over the support of the uniform distribution on [-1, 1]. */
  predicate NoiseInRange(eps: seq<real>, n: nat)
  {
    |eps| == n && forall i :: 0 <= i < n ==> -1.0 <= eps[i] <= 1.0
  }

  /** What a pull demands: a valid instrument, a drawn type and a noise vector of the right shape. */
  ghost predicate Admissible(p: Params, t: Trial)
  {
    t.z < p.nArms && t.k < p.K() && NoiseInRange(t.eps, p.nArms)
  }

  /** y = muKx[k] + eps: the outcome every treatment would have under this draw. */
  function Outcomes(p: Params, k: nat, eps: seq<real>): (y: seq<real>)
    requires p.WellShaped() && k < p.K() && |eps| == p.nArms
    ensures |y| == p.nArms
    ensures NoiseInRange(eps, p.nArms) ==>
      forall x :: 0 <= x < p.nArms ==> p.muKx[k][x] - 1.0 <= y[x] <= p.muKx[k][x] + 1.0
  {
    seq(p.nArms, i requires 0 <= i < p.nArms => p.muKx[k][i] + eps[i])
  }

  /** Regret against always offering the best instrument, under the same draw. */
  function IttRegret(s: Structure, z: nat, k: nat, eps: seq<real>): (r: real)
    requires s.params.WellShaped() && |s.muZ| == s.params.nArms
    requires z < s.params.nArms && k < s.params.K() && |eps| == s.params.nArms
    // an instrument this type answers with the same treatment as the best one costs nothing
    ensures s.params.types[k][z] == s.params.types[k][Argmax(s.muZ)] ==> r == 0.0
    ensures NoiseInRange(eps, s.params.nArms) ==>
      r <= s.params.muKx[k][s.params.types[k][Argmax(s.muZ)]] - s.params.muKx[k][s.params.types[k][z]] + 2.0
  {
    var y := Outcomes(s.params, k, eps);
    var x := s.params.types[k];
    y[x[Argmax(s.muZ)]] - y[x[z]]
  }

  /** Regret against assigning the best treatment directly, under the same draw. */
  function StRegret(s: Structure, z: nat, k: nat, eps: seq<real>): (r: real)
    requires s.params.WellShaped() && |s.muX| == s.params.nArms
    requires z < s.params.nArms && k < s.params.K() && |eps| == s.params.nArms
    ensures s.params.types[k][z] == Argmax(s.muX) ==> r == 0.0
    ensures NoiseInRange(eps, s.params.nArms) ==>
      r <= s.params.muKx[k][Argmax(s.muX)] - s.params.muKx[k][s.params.types[k][z]] + 2.0
  {
    var y := Outcomes(s.params, k, eps);
    var x := s.params.types[k];
    y[Argmax(s.muX)] - y[x[z]]
  }

  /** Regret against the best treatment for a full complier; zero for any other type. */
  function CRegret(s: Structure, z: nat, k: nat, eps: seq<real>): (r: real)
    requires s.params.WellShaped()
    requires z < s.params.nArms && k < s.params.K() && |eps| == s.params.nArms
    ensures !IsIdentity(s.params.types[k], s.params.nArms) ==> r == 0.0
    ensures z == Argmax(s.params.muKx[k]) ==> r == 0.0
  {
    var y := Outcomes(s.params, k, eps);
    var x := s.params.types[k];
    if IsIdentity(x, s.params.nArms) then y[Argmax(s.params.muKx[k])] - y[x[z]] else 0.0
  }

  /**
    Offers instrument z to an individual of type k with noise eps: counts
    the pull in cell (z, x) where x = types[k][z], adds the observed outcome
    y[x] to the instrument's and the treatment's sums, and appends one value
    to each regret list.
   */
  function Pull(e: Iab, z: nat, k: nat, eps: seq<real>): (r: Step)
    requires Valid(e)
    requires Admissible(e.structure.params, Trial(z, k, eps))
    ensures Valid(r.env)
    ensures r.env.structure == e.structure
    ensures r.x == e.structure.params.types[k][z] && r.x < e.structure.params.nArms
    ensures r.y == e.structure.params.muKx[k][r.x] + eps[r.x]
    // exactly one cell of the count matrix moves, by one
    ensures forall i, j :: 0 <= i < e.structure.params.nArms && 0 <= j < e.structure.params.nArms ==>
      r.env.running.nZx[i][j] == e.running.nZx[i][j] + (if i == z && j == r.x then 1 else 0)
    // the observed outcome goes to instrument z's sum and to treatment x's sum, and nowhere else
    ensures forall i :: 0 <= i < e.structure.params.nArms ==>
      r.env.running.sZ[i] == e.running.sZ[i] + (if i == z then r.y else 0.0)
    ensures forall i :: 0 <= i < e.structure.params.nArms ==>
      r.env.running.sX[i] == e.running.sX[i] + (if i == r.x then r.y else 0.0)
    // each regret list grows by one value at its end
    ensures |r.env.running.ittRegret| == |e.running.ittRegret| + 1
    ensures |r.env.running.stRegret| == |e.running.stRegret| + 1
    ensures |r.env.running.cRegret| == |e.running.cRegret| + 1
    ensures r.env.running.ittRegret[..|e.running.ittRegret|] == e.running.ittRegret
    ensures r.env.running.stRegret[..|e.running.stRegret|] == e.running.stRegret
    ensures r.env.running.cRegret[..|e.running.cRegret|] == e.running.cRegret
    // the appended regrets are differences of entries of the same outcome vector
    ensures r.env.running.ittRegret[|e.running.ittRegret|] ==
      Outcomes(e.structure.params, k, eps)[e.structure.params.types[k][Argmax(e.structure.muZ)]] - r.y
    ensures r.env.running.stRegret[|e.running.stRegret|] ==
      Outcomes(e.structure.params, k, eps)[Argmax(e.structure.muX)] - r.y
    ensures !IsIdentity(e.structure.params.types[k], e.structure.params.nArms) ==>
      r.env.running.cRegret[|e.running.cRegret|] == 0.0
    ensures IsIdentity(e.structure.params.types[k], e.structure.params.nArms) ==>
      r.env.running.cRegret[|e.running.cRegret|] ==
        Outcomes(e.structure.params, k, eps)[Argmax(e.structure.params.muKx[k])] - r.y
    // playing the optimum costs nothing
    ensures z == Argmax(e.structure.muZ) ==> r.env.running.ittRegret[|e.running.ittRegret|] == 0.0
    ensures r.x == Argmax(e.structure.muX) ==> r.env.running.stRegret[|e.running.stRegret|] == 0.0
  {
    var s := e.structure;
    var p := s.params;
    var run := e.running;
    var y := Outcomes(p, k, eps);
    var x := p.types[k][z];
    var running' := Running(
      IncCell(run.nZx, z, x),
      run.sZ[z := run.sZ[z] + y[x]],
      run.sX[x := run.sX[x] + y[x]],
      run.ittRegret + [IttRegret(s, z, k, eps)],
      run.stRegret + [StRegret(s, z, k, eps)],
      run.cRegret + [CRegret(s, z, k, eps)]);
    IncCellTotals(run.nZx, p.nArms, z, x);
    Step(Iab(s, running'), x, y[x])
  }

  /** A pull keeps the bookkeeping invariant. */
  lemma PullConserves(e: Iab, z: nat, k: nat, eps: seq<real>)
    requires Valid(e) && Conserved(e)
    requires Admissible(e.structure.params, Trial(z, k, eps))
    ensures Conserved(Pull(e, z, k, eps).env)
    ensures MatrixTotal(Pull(e, z, k, eps).env.running.nZx) == MatrixTotal(e.running.nZx) + 1
  {
    var st := Pull(e, z, k, eps);
    PullCounts(e, z, k, eps);
    PullSums(e, z, k, eps);
    var run' := st.env.running;
    forall i | 0 <= i < |run'.sZ| && NZ(st.env)[i] == 0
      ensures run'.sZ[i] == 0.0
    {
    }
    forall i | 0 <= i < |run'.sX| && NX(st.env)[i] == 0
      ensures run'.sX[i] == 0.0
    {
    }
  }

  /** A pull adds one to the grand count, to n_z[z] and to n_x[x], and to nothing else. */
  lemma PullCounts(e: Iab, z: nat, k: nat, eps: seq<real>)
    requires Valid(e)
    requires Admissible(e.structure.params, Trial(z, k, eps))
    ensures MatrixTotal(Pull(e, z, k, eps).env.running.nZx) == MatrixTotal(e.running.nZx) + 1
    ensures forall i :: 0 <= i < e.structure.params.nArms ==>
      NZ(Pull(e, z, k, eps).env)[i] == NZ(e)[i] + (if i == z then 1 else 0)
    ensures forall i :: 0 <= i < e.structure.params.nArms ==>
      NX(Pull(e, z, k, eps).env)[i] == NX(e)[i] + (if i == Pull(e, z, k, eps).x then 1 else 0)
  {
    var st := Pull(e, z, k, eps);
    IncCellTotals(e.running.nZx, e.structure.params.nArms, z, st.x);
    assert st.env.running.nZx == IncCell(e.running.nZx, z, st.x);
  }

  /** A pull adds the observed outcome to the total of s_z and to the total of s_x. */
  lemma PullSums(e: Iab, z: nat, k: nat, eps: seq<real>)
    requires Valid(e)
    requires Admissible(e.structure.params, Trial(z, k, eps))
    ensures Sum(Pull(e, z, k, eps).env.running.sZ) == Sum(e.running.sZ) + Pull(e, z, k, eps).y
    ensures Sum(Pull(e, z, k, eps).env.running.sX) == Sum(e.running.sX) + Pull(e, z, k, eps).y
  {
    var st := Pull(e, z, k, eps);
    var run := e.running;
    assert st.env.running.sZ == run.sZ[z := run.sZ[z] + st.y];
    assert st.env.running.sX == run.sX[st.x := run.sX[st.x] + st.y];
    SumAddAt(run.sZ, z, st.y);
    SumAddAt(run.sX, st.x, st.y);
  }

  /**
    A full complier's regret is never below -2: the best treatment's mean is
    at least the played one's, and the two noise terms differ by at most 2.
   */
  lemma ComplierRegretBounded(s: Structure, z: nat, k: nat, eps: seq<real>)
    requires s.params.WellShaped()
    requires z < s.params.nArms && k < s.params.K() && NoiseInRange(eps, s.params.nArms)
    ensures CRegret(s, z, k, eps) >= -2.0
  {
    var p := s.params;
    if IsIdentity(p.types[k], p.nArms) {
      var b := Argmax(p.muKx[k]);
      assert p.types[k][z] == z;
      assert p.muKx[k][z] <= p.muKx[k][b];
    }
  }

  // ---------------------------------------------------------------------
  // Expected regret over the compliance type

  /** The first m types' pk-weighted ITT regret of instrument z with the noise at its mean, zero. */
  function ExpectedIttPrefix(s: Structure, z: nat, m: nat): real
    requires s.params.WellShaped() && |s.muZ| == s.params.nArms
    requires z < s.params.nArms && m <= s.params.K()
  {
    if m == 0 then 0.0
    else ExpectedIttPrefix(s, z, m - 1) + s.params.pk[m - 1] * IttRegret(s, z, m - 1, Zeros(s.params.nArms))
  }

  /**
    Averaged over the compliance type (noise at its mean), the ITT regret of
    instrument z is mu_z[best] - mu_z[z], hence never negative: the regret
    baseline is the best instrument by its true reduced-form mean.
   */
  lemma ExpectedIttRegret(s: Structure, z: nat)
    requires s.params.WellShaped() && Derived(s) && z < s.params.nArms
    ensures ExpectedIttPrefix(s, z, s.params.K()) == s.muZ[Argmax(s.muZ)] - s.muZ[z]
    ensures ExpectedIttPrefix(s, z, s.params.K()) >= 0.0
  {
    ExpectedIttPrefixIsDifference(s, z, Argmax(s.muZ), s.params.K());
  }

  lemma {:induction false} ExpectedIttPrefixIsDifference(s: Structure, z: nat, b: nat, m: nat)
    requires s.params.WellShaped() && |s.muZ| == s.params.nArms
    requires z < s.params.nArms && m <= s.params.K() && b == Argmax(s.muZ)
    ensures ExpectedIttPrefix(s, z, m) == MuZPrefix(s.params, b, m) - MuZPrefix(s.params, z, m)
  {
    if m > 0 {
      ExpectedIttPrefixIsDifference(s, z, b, m - 1);
      IttRegretAtMeanNoise(s, z, m - 1);
    }
  }

  /** With zero noise, the ITT regret of one type is the gap between its two type means. */
  lemma IttRegretAtMeanNoise(s: Structure, z: nat, k: nat)
    requires s.params.WellShaped() && |s.muZ| == s.params.nArms
    requires z < s.params.nArms && k < s.params.K()
    ensures IttRegret(s, z, k, Zeros(s.params.nArms)) ==
      s.params.muKx[k][s.params.types[k][Argmax(s.muZ)]] - s.params.muKx[k][s.params.types[k][z]]
  {
    var p := s.params;
    var y := Outcomes(p, k, Zeros(p.nArms));
    var b := Argmax(s.muZ);
    assert y[p.types[k][b]] == p.muKx[k][p.types[k][b]];
    assert y[p.types[k][z]] == p.muKx[k][p.types[k][z]];
  }

  // ---------------------------------------------------------------------
  // Runs: a sequence of pulls

  ghost predicate AllAdmissible(p: Params, ts: seq<Trial>)
  {
    forall i :: 0 <= i < |ts| ==> Admissible(p, ts[i])
  }

  /** The environment after the given pulls, in order. */
  function Run(e: Iab, ts: seq<Trial>): (r: Iab)
    requires Valid(e) && AllAdmissible(e.structure.params, ts)
    ensures Valid(r) && r.structure == e.structure
    decreases |ts|
  {
    if |ts| == 0 then e
    else
      var t := ts[|ts| - 1];
      Pull(Run(e, ts[..|ts| - 1]), t.z, t.k, t.eps).env
  }

  /** How many of the trials offered instrument i. */
  function CountOffered(ts: seq<Trial>, i: nat): nat
  {
    if |ts| == 0 then 0
    else CountOffered(ts[..|ts| - 1], i) + (if ts[|ts| - 1].z == i then 1 else 0)
  }

  /** How many of the trials realised treatment x. */
  function CountReceived(p: Params, ts: seq<Trial>, x: nat): nat
    requires p.WellShaped() && AllAdmissible(p, ts)
  {
    if |ts| == 0 then 0
    else
      var t := ts[|ts| - 1];
      CountReceived(p, ts[..|ts| - 1], x) + (if Received(p, t) == x then 1 else 0)
  }

  /** The treatment a trial realises: its type's answer to the offered instrument. */
  function Received(p: Params, t: Trial): nat
    requires p.WellShaped() && Admissible(p, t)
  {
    p.types[t.k][t.z]
  }

  /** The outcome a trial observes: its type's mean under the realised treatment plus that treatment's noise. */
  function Observed(p: Params, t: Trial): real
    requires p.WellShaped() && Admissible(p, t)
  {
    p.muKx[t.k][Received(p, t)] + t.eps[Received(p, t)]
  }

  /** Total outcome observed over the trials that offered instrument i. */
  function SumOffered(p: Params, ts: seq<Trial>, i: nat): real
    requires p.WellShaped() && AllAdmissible(p, ts)
  {
    if |ts| == 0 then 0.0
    else
      var t := ts[|ts| - 1];
      SumOffered(p, ts[..|ts| - 1], i) + (if t.z == i then Observed(p, t) else 0.0)
  }

  /** Total outcome observed over the trials that realised treatment x. */
  function SumReceived(p: Params, ts: seq<Trial>, x: nat): real
    requires p.WellShaped() && AllAdmissible(p, ts)
  {
    if |ts| == 0 then 0.0
    else
      var t := ts[|ts| - 1];
      SumReceived(p, ts[..|ts| - 1], x) + (if Received(p, t) == x then Observed(p, t) else 0.0)
  }

  /**
    After a reset and any sequence of pulls the bookkeeping invariant
    holds, the count matrix totals the number of pulls, and the three
    regret lists each hold one value per pull.
   */
  lemma {:induction false} RunBookkeeping(e: Iab, ts: seq<Trial>)
    requires Valid(e) && AllAdmissible(e.structure.params, ts)
    ensures Conserved(Run(Reset(e), ts))
    ensures MatrixTotal(Run(Reset(e), ts).running.nZx) == |ts|
    ensures |Run(Reset(e), ts).running.ittRegret| == |ts|
    ensures |Run(Reset(e), ts).running.stRegret| == |ts|
    ensures |Run(Reset(e), ts).running.cRegret| == |ts|
  {
    if |ts| > 0 {
      var front := ts[..|ts| - 1];
      var t := ts[|ts| - 1];
      assert AllAdmissible(e.structure.params, front);
      RunBookkeeping(e, front);
      PullConserves(Run(Reset(e), front), t.z, t.k, t.eps);
    }
  }

  /** After a reset and any sequence of pulls, n_x and n_z each total the number of pulls. */
  lemma {:induction false} MarginalsCountPulls(e: Iab, ts: seq<Trial>)
    requires Valid(e) && AllAdmissible(e.structure.params, ts)
    ensures Total(NX(Run(Reset(e), ts))) == |ts|
    ensures Total(NZ(Run(Reset(e), ts))) == |ts|
  {
    RunBookkeeping(e, ts);
    MarginalTotals(Run(Reset(e), ts));
  }

  /** A run of one more trial is one more pull. */
  lemma RunSnoc(e: Iab, ts: seq<Trial>)
    requires Valid(e) && AllAdmissible(e.structure.params, ts) && |ts| > 0
    ensures AllAdmissible(e.structure.params, ts[..|ts| - 1])
    ensures Run(e, ts) ==
      Pull(Run(e, ts[..|ts| - 1]), ts[|ts| - 1].z, ts[|ts| - 1].k, ts[|ts| - 1].eps).env
  {
  }

  /** After a reset and any pulls, n_z[i] is an independent count of the pulls that offered i. */
  lemma {:induction false} InstrumentCountsMatch(e: Iab, ts: seq<Trial>)
    requires Valid(e) && AllAdmissible(e.structure.params, ts)
    ensures forall i :: 0 <= i < e.structure.params.nArms ==>
      NZ(Run(Reset(e), ts))[i] == CountOffered(ts, i)
  {
    if |ts| == 0 {
      ZeroMatrixTotals(e.structure.params.nArms);
    } else {
      var front := ts[..|ts| - 1];
      var t := ts[|ts| - 1];
      RunSnoc(Reset(e), ts);
      InstrumentCountsMatch(e, front);
      PullCounts(Run(Reset(e), front), t.z, t.k, t.eps);
    }
  }

  /** After a reset and any pulls, n_x[j] is an independent count of the pulls that realised j. */
  lemma {:induction false} TreatmentCountsMatch(e: Iab, ts: seq<Trial>)
    requires Valid(e) && AllAdmissible(e.structure.params, ts)
    ensures forall j :: 0 <= j < e.structure.params.nArms ==>
      NX(Run(Reset(e), ts))[j] == CountReceived(e.structure.params, ts, j)
  {
    if |ts| == 0 {
      ZeroMatrixTotals(e.structure.params.nArms);
    } else {
      var front := ts[..|ts| - 1];
      var t := ts[|ts| - 1];
      RunSnoc(Reset(e), ts);
      TreatmentCountsMatch(e, front);
      PullCounts(Run(Reset(e), front), t.z, t.k, t.eps);
    }
  }

  /** After a reset and any pulls, s_z[i] is the total outcome of the pulls that offered i. */
  lemma {:induction false} InstrumentSumsMatch(e: Iab, ts: seq<Trial>)
    requires Valid(e) && AllAdmissible(e.structure.params, ts)
    ensures forall i :: 0 <= i < e.structure.params.nArms ==>
      Run(Reset(e), ts).running.sZ[i] == SumOffered(e.structure.params, ts, i)
  {
    if |ts| > 0 {
      RunSnoc(Reset(e), ts);
      InstrumentSumsMatch(e, ts[..|ts| - 1]);
    }
  }

  /** After a reset and any pulls, s_x[j] is the total outcome of the pulls that realised j. */
  lemma {:induction false} TreatmentSumsMatch(e: Iab, ts: seq<Trial>)
    requires Valid(e) && AllAdmissible(e.structure.params, ts)
    ensures forall j :: 0 <= j < e.structure.params.nArms ==>
      Run(Reset(e), ts).running.sX[j] == SumReceived(e.structure.params, ts, j)
  {
    if |ts| > 0 {
      RunSnoc(Reset(e), ts);
      TreatmentSumsMatch(e, ts[..|ts| - 1]);
    }
  }

  /**
    After a reset and any pulls, u_z[i] is the guarded average outcome of
    the pulls that offered i, and u_x[j] that of the pulls that realised j:
    the reduced-form and the as-treated empirical means.
   */
  lemma EmpiricalMeansMatch(e: Iab, ts: seq<Trial>)
    requires Valid(e) && AllAdmissible(e.structure.params, ts)
    ensures forall i :: 0 <= i < e.structure.params.nArms ==>
      UZ(Run(Reset(e), ts))[i] == GuardedMean(SumOffered(e.structure.params, ts, i), CountOffered(ts, i))
    ensures forall j :: 0 <= j < e.structure.params.nArms ==>
      UX(Run(Reset(e), ts))[j] ==
        GuardedMean(SumReceived(e.structure.params, ts, j), CountReceived(e.structure.params, ts, j))
  {
    InstrumentCountsMatch(e, ts);
    InstrumentSumsMatch(e, ts);
    TreatmentCountsMatch(e, ts);
    TreatmentSumsMatch(e, ts);
  }

  /**
    Over a run from a reset, entry i of each regret list is the regret of
    trial i: the lists are never reordered or pruned, and a trial whose
    drawn type is not a full complier contributes exactly 0 complier regret.
   */
  lemma {:induction false} RunRegretEntries(e: Iab, ts: seq<Trial>, i: nat)
    requires Valid(e) && AllAdmissible(e.structure.params, ts) && i < |ts|
    ensures |Run(Reset(e), ts).running.ittRegret| == |ts|
    ensures |Run(Reset(e), ts).running.stRegret| == |ts|
    ensures |Run(Reset(e), ts).running.cRegret| == |ts|
    ensures Run(Reset(e), ts).running.ittRegret[i] == IttRegret(e.structure, ts[i].z, ts[i].k, ts[i].eps)
    ensures Run(Reset(e), ts).running.stRegret[i] == StRegret(e.structure, ts[i].z, ts[i].k, ts[i].eps)
    ensures Run(Reset(e), ts).running.cRegret[i] == CRegret(e.structure, ts[i].z, ts[i].k, ts[i].eps)
    ensures !IsIdentity(e.structure.params.types[ts[i].k], e.structure.params.nArms) ==>
      Run(Reset(e), ts).running.cRegret[i] == 0.0
  {
    RunBookkeeping(e, ts);
    var front := ts[..|ts| - 1];
    assert AllAdmissible(e.structure.params, front);
    RunBookkeeping(e, front);
    if i < |ts| - 1 {
      RunRegretEntries(e, front, i);
      assert front[i] == ts[i];
    }
  }

  /** A reset forgets every pull made before it. */
  lemma ResetForgetsHistory(e: Iab, ts: seq<Trial>)
    requires Valid(e) && AllAdmissible(e.structure.params, ts)
    ensures Reset(Run(e, ts)) == Reset(e)
    ensures Run(e, ts).structure.muX == e.structure.muX && Run(e, ts).structure.muZ == e.structure.muZ
  {
  }
}
