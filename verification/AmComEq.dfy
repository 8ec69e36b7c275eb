/** The sigma protocol that links one commitment to a long vector with many commitments to its
    pieces, and its compressed form, which replaces the long response by the halving argument. */
module AmComEq {
  import opened Frame
  import opened Group
  import opened Transcript
  import opened Words
  import opened Wrappers

  datatype CommittingKey = CommittingKey(g: Vec, h: Vec)

  datatype PublicParameters = PublicParameters(polyCk: CommittingKey, coeffCk: CommittingKey)

  datatype Instance = Instance(c: int, cHat: Vec)

  datatype Witness = Witness(w: seq<Vec>, alpha: Vec, beta: seq<Vec>)

  datatype Randomness = Randomness(r: Vec, delta: Vec, gamma: Vec)

  datatype Commitment = Commitment(a: int, aHat: int)

  datatype Proof = Proof(commitment: Commitment, z: Vec, omega: Vec, omegaHat: Vec)

  datatype Sizes = Sizes(l: nat, d0: nat, d1: nat, d2: nat)

  // Challenges

  /** Both challenges panic when a point they absorb is at infinity. */
  function DrawX(curve: Curve, x: Instance, t: State): (Option<int>, State) {
    DrawFrom(curve, t, INSTANCE, [x.c] + x.cHat, PointsBytes(curve, [x.c] + x.cHat))
  }

  /** 1, x, x^2, ...: one power per piece. */
  function PowersOfX(curve: Curve, x: Instance, t: State): (r: (Option<Vec>, State))
    ensures r.0.Some? ==> |r.0.value| == |x.cHat|
  {
    match DrawX(curve, x, t)
    case (None, t') => (None, t')
    case (Some(e), t') => (Some(Powers(1, e, |x.cHat|)), t')
  }

  method ComputePowersOfX(x: Instance, transcript: SHA3Base) returns (powers: Option<Vec>)
    modifies transcript
    ensures (powers, transcript.Value()) == PowersOfX(transcript.curve, x, old(transcript.Value()))
  {
    var e := DrawChallenge(transcript, INSTANCE, [x.c] + x.cHat, PointsBytes(transcript.curve, [x.c] + x.cHat));
    if e.None? {
      return None;
    }
    var done: Vec := [];
    var curr := 1;
    for i := 0 to |x.cHat|
      invariant done == Powers(1, e.value, i) && curr == Power(e.value, i)
      invariant (e, transcript.Value()) == DrawX(transcript.curve, x, old(transcript.Value()))
    {
      PowersSnoc(1, e.value, i);
      done := done + [curr];
      curr := curr * e.value;
    }
    return Some(done);
  }

  /** Power `i` of the drawn challenge weights piece `i`, and the transcript is the one after the draw. */
  lemma WeightsArePowers(curve: Curve, x: Instance, t: State, i: nat)
    requires i < |x.cHat|
    ensures var (powers, end), (e, end') := PowersOfX(curve, x, t), DrawX(curve, x, t);
            && end == end' && (powers.Some? <==> e.Some?)
            && (powers.Some? ==> |powers.value| == |x.cHat| && powers.value[i] == Power(e.value, i))
  {
    hide DrawX;
    var e := DrawX(curve, x, t).0;
    if e.Some? { PowersAt(1, e.value, |x.cHat|, i); }
  }

  /** The commitment is absorbed as the reversed little-endian coordinates, second point first. */
  function CommitmentBytes(curve: Curve, cm: Commitment): Bytes {
    var (a, aHat) := (Residue(cm.a), Residue(cm.aHat));
    Reverse(curve.y(aHat) + curve.x(aHat) + curve.y(a) + curve.x(a))
  }

  function ComputeE(curve: Curve, cm: Commitment, t: State): (Option<int>, State) {
    DrawFrom(curve, t, COMMITMENT, [cm.a, cm.aHat], CommitmentBytes(curve, cm))
  }

  method DrawE(cm: Commitment, transcript: SHA3Base) returns (e: Option<int>)
    modifies transcript
    ensures (e, transcript.Value()) == ComputeE(transcript.curve, cm, old(transcript.Value()))
  {
    e := DrawChallenge(transcript, COMMITMENT, [cm.a, cm.aHat], CommitmentBytes(transcript.curve, cm));
  }

  /** The two panic exactly when one of the points, each named here, is at infinity. */
  lemma DrawnUnlessInfinite(curve: Curve, x: Instance, cm: Commitment, t: State)
    ensures DrawX(curve, x, t).0.None? <==> Same(x.c, 0) || exists i :: 0 <= i < |x.cHat| && Same(x.cHat[i], 0)
    ensures ComputeE(curve, cm, t).0.None? <==> Same(cm.a, 0) || Same(cm.aHat, 0)
  {
    var ps, qs := [x.c] + x.cHat, [cm.a, cm.aHat];
    assert ps[0] == x.c && forall i :: 0 <= i < |x.cHat| ==> ps[i + 1] == x.cHat[i];
    assert qs[0] == cm.a && qs[1] == cm.aHat;
  }

  /** The commitment's bytes are those of its two points, absorbed one after the other. */
  lemma CommitmentIsTwoPoints(curve: Curve, cm: Commitment)
    ensures CommitmentBytes(curve, cm) == PointsBytes(curve, [cm.a, cm.aHat])
  {
    var (x, y) := (curve.x(Residue(cm.a)), curve.y(Residue(cm.a)));
    var (xHat, yHat) := (curve.x(Residue(cm.aHat)), curve.y(Residue(cm.aHat)));
    assert yHat + xHat + y + x == (yHat + xHat) + (y + x);
    ReverseAppend(yHat + xHat, y + x);
    assert [cm.a, cm.aHat][1..] == [cm.aHat] && [cm.aHat][1..] == [];
    assert PointsBytes(curve, [cm.aHat]) == PointBytes(curve, cm.aHat) + [];
  }

  /** Equal challenges bind the whole instance, or there is a collision. */
  lemma InstanceBinds(curve: Curve, x: Instance, x': Instance, t: State)
    requires CoordinatesIdentify(curve)
    requires DrawX(curve, x, t).0.Some? && DrawX(curve, x, t).0 == DrawX(curve, x', t).0
    ensures || (Same(x.c, x'.c) && |x.cHat| == |x'.cHat|
                && forall i :: 0 <= i < |x.cHat| ==> Same(x.cHat[i], x'.cHat[i]))
            || ScalarCollision(curve.keccak, DrawnFrom(t, Ascii("instance"), PointsBytes(curve, [x.c] + x.cHat)),
                               DrawnFrom(t, Ascii("instance"), PointsBytes(curve, [x'.c] + x'.cHat)))
  {
    LabelsAreAscii();
    var ps, qs := [x.c] + x.cHat, [x'.c] + x'.cHat;
    ItemsBind(curve, t, INSTANCE, PointsBytes(curve, ps), PointsBytes(curve, qs));
    if PointsBytes(curve, ps) == PointsBytes(curve, qs) {
      PointsBytesBind(curve, ps, qs);
      assert Same(ps[0], qs[0]);
      forall i | 0 <= i < |x.cHat| ensures Same(x.cHat[i], x'.cHat[i]) {
        assert Same(ps[i + 1], qs[i + 1]);
      }
    }
  }

  /** And both points of the commitment. */
  lemma CommitmentBinds(curve: Curve, cm: Commitment, cm': Commitment, t: State)
    requires CoordinatesIdentify(curve)
    requires ComputeE(curve, cm, t).0.Some? && ComputeE(curve, cm, t).0 == ComputeE(curve, cm', t).0
    ensures || (Same(cm.a, cm'.a) && Same(cm.aHat, cm'.aHat))
            || ScalarCollision(curve.keccak, DrawnFrom(t, Ascii("commitment"), PointsBytes(curve, [cm.a, cm.aHat])),
                               DrawnFrom(t, Ascii("commitment"), PointsBytes(curve, [cm'.a, cm'.aHat])))
  {
    LabelsAreAscii();
    CommitmentIsTwoPoints(curve, cm);
    CommitmentIsTwoPoints(curve, cm');
    var ps, qs := [cm.a, cm.aHat], [cm'.a, cm'.aHat];
    ItemsBind(curve, t, COMMITMENT, PointsBytes(curve, ps), PointsBytes(curve, qs));
    if PointsBytes(curve, ps) == PointsBytes(curve, qs) {
      PointsBytesBind(curve, ps, qs);
      assert Same(ps[0], qs[0]) && Same(ps[1], qs[1]);
    }
  }

  // Vectors of pieces

  function Concat(vs: seq<Vec>): Vec {
    if vs == [] then [] else vs[0] + Concat(vs[1..])
  }

  /** The pieces of length `d0` of `v`, weighted and added up. */
  function Aggregate(v: Vec, d0: nat, weights: Vec): (r: Vec)
    requires |v| >= |weights| * d0
    ensures |r| == d0
    decreases |weights|
  {
    if weights == [] then Zeros(d0)
    else
      Rest(|weights|, d0);
      Plus(Scale(weights[0], v[..d0]), Aggregate(v[d0..], d0, weights[1..]))
  }

  lemma Rest(l: nat, d0: nat)
    requires l > 0
    ensures l * d0 == d0 + (l - 1) * d0
  {
  }

  /** One entry as the code sums it, by index. */
  function SumAt(v: Vec, d0: nat, weights: Vec, j: nat, n: nat): int
    requires |v| >= |weights| * d0 && j < d0 && n <= |weights|
  {
    if n == 0 then 0
    else
      InPiece(|weights|, d0, n - 1, j);
      SumAt(v, d0, weights, j, n - 1) + v[d0 * (n - 1) + j] * weights[n - 1]
  }

  lemma InPiece(l: nat, d0: nat, i: nat, j: nat)
    requires i < l && j < d0
    ensures 0 <= d0 * i + j < l * d0
  {
    assert (l - 1 - i) * d0 >= 0;
    assert l * d0 == d0 * i + d0 + (l - 1 - i) * d0;
  }

  lemma SumAtNext(v: Vec, d0: nat, weights: Vec, j: nat, n: nat)
    requires |v| >= |weights| * d0 && j < d0 && 0 < n <= |weights|
    ensures 0 <= d0 * (n - 1) + j < |v|
    ensures SumAt(v, d0, weights, j, n) == SumAt(v, d0, weights, j, n - 1) + v[d0 * (n - 1) + j] * weights[n - 1]
  {
    InPiece(|weights|, d0, n - 1, j);
  }

  lemma {:induction false} SumAtTail(v: Vec, d0: nat, weights: Vec, j: nat, n: nat)
    requires |v| >= |weights| * d0 && j < d0 && 0 < n <= |weights|
    ensures d0 <= |v| && |v[d0..]| >= (|weights| - 1) * d0
    ensures SumAt(v, d0, weights, j, n) == v[j] * weights[0] + SumAt(v[d0..], d0, weights[1..], j, n - 1)
  {
    Rest(|weights|, d0);
    SumAtNext(v, d0, weights, j, n);
    if n == 1 {
      assert d0 * 0 + j == j;
    } else {
      hide SumAt;
      SumAtTail(v, d0, weights, j, n - 1);
      SumAtNext(v[d0..], d0, weights[1..], j, n - 1);
      Rest(n - 1, d0);
      assert d0 * (n - 1) + j == d0 + (d0 * (n - 2) + j);
    }
  }

  /** The indexed sums of the code are the weighted sum of the pieces. */
  lemma {:induction false} AggregateAt(v: Vec, d0: nat, weights: Vec, j: nat)
    requires |v| >= |weights| * d0 && j < d0
    ensures Aggregate(v, d0, weights)[j] == SumAt(v, d0, weights, j, |weights|)
    decreases |weights|
  {
    if weights != [] {
      SumAtTail(v, d0, weights, j, |weights|);
      AggregateAt(v[d0..], d0, weights[1..], j);
      AggregateStepAt(v, d0, weights, j);
    }
  }

  lemma AggregateStepAt(v: Vec, d0: nat, weights: Vec, j: nat)
    requires |v| >= |weights| * d0 && j < d0 && weights != []
    ensures d0 <= |v| && |v[d0..]| >= (|weights| - 1) * d0
    ensures Aggregate(v, d0, weights)[j] == v[j] * weights[0] + Aggregate(v[d0..], d0, weights[1..])[j]
  {
    hide Aggregate, Plus, Scale;
    Rest(|weights|, d0);
    AggregateUnfold(v, d0, weights);
    WeightedAt(weights[0], v[..d0], Aggregate(v[d0..], d0, weights[1..]), j);
  }

  lemma AggregateUnfold(v: Vec, d0: nat, weights: Vec)
    requires |v| >= |weights| * d0 && weights != [] && d0 <= |v| && |v[d0..]| >= |weights[1..]| * d0
    ensures Aggregate(v, d0, weights) == Plus(Scale(weights[0], v[..d0]), Aggregate(v[d0..], d0, weights[1..]))
  {
    hide Plus, Scale;
  }

  lemma WeightedAt(c: int, x: Vec, y: Vec, j: nat)
    requires j < |x| == |y|
    ensures Plus(Scale(c, x), y)[j] == x[j] * c + y[j]
  {
  }

  method AggregateByIndex(v: Vec, d0: nat, weights: Vec) returns (r: Vec)
    requires |v| >= |weights| * d0
    ensures r == Aggregate(v, d0, weights)
  {
    r := [];
    for j := 0 to d0
      invariant |r| == j && forall k :: 0 <= k < j ==> r[k] == SumAt(v, d0, weights, k, |weights|)
    {
      var sum := 0;
      for i := 0 to |weights|
        invariant sum == SumAt(v, d0, weights, j, i)
      {
        InPiece(|weights|, d0, i, j);
        sum := sum + v[d0 * i + j] * weights[i];
      }
      r := r + [sum];
    }
    forall j | 0 <= j < d0 ensures r[j] == Aggregate(v, d0, weights)[j] {
      AggregateAt(v, d0, weights, j);
    }
  }

  /** Every generator scaled by every weight: the second half of the recursion's parameters. */
  function Stretch(g: Vec, weights: Vec): (r: Vec)
    ensures |r| == |weights| * |g|
  {
    if weights == [] then []
    else
      Rest(|weights|, |g|);
      Scale(weights[0], g) + Stretch(g, weights[1..])
  }

  /** Aggregating a vector or stretching the generators gives the same inner product. */
  lemma {:induction false} StretchIsAggregate(g: Vec, v: Vec, weights: Vec)
    requires |v| >= |weights| * |g|
    ensures Dot(Stretch(g, weights), v) == Dot(g, Aggregate(v, |g|, weights))
    decreases |weights|
  {
    var d0 := |g|;
    if weights == [] {
      DotZeros(g, d0);
    } else {
      Rest(|weights|, d0);
      var c, piece, rest := weights[0], v[..d0], v[d0..];
      StretchIsAggregate(g, rest, weights[1..]);
      assert v == piece + rest;
      DotAppend(Scale(c, g), piece, Stretch(g, weights[1..]), rest);
      DotComm(Scale(c, g), piece);
      DotScale(piece, c, g);
      DotComm(piece, g);
      DotPlus(g, Scale(c, piece), Aggregate(rest, d0, weights[1..]));
      DotScale(g, c, piece);
    }
  }

  // The prover

  function CommitmentFromRandom(pp: PublicParameters, powers: Vec, r: Randomness): Commitment
    requires |r.r| >= |powers| * |pp.coeffCk.g|
  {
    Commitment(Dot(pp.polyCk.g, r.r) + Dot(pp.polyCk.h, r.delta),
               Dot(pp.coeffCk.g, Aggregate(r.r, |pp.coeffCk.g|, powers)) + Dot(pp.coeffCk.h, r.gamma))
  }

  predicate Sized(n: Sizes, pp: PublicParameters, x: Instance, w: Witness, r: Randomness) {
    && |pp.polyCk.g| == n.l * n.d0 && |pp.polyCk.h| == n.d1 && |pp.coeffCk.g| == n.d0 && |pp.coeffCk.h| == n.d2
    && |x.cHat| == |w.w| == |w.beta| == n.l && |w.alpha| == n.d1
    && AllOfSize(w.w, n.d0) && AllOfSize(w.beta, n.d2)
    && |r.r| == n.l * n.d0 && |r.delta| == n.d1 && |r.gamma| == n.d2
  }

  lemma {:induction false} ConcatSize(vs: seq<Vec>, d: nat)
    requires AllOfSize(vs, d)
    ensures |Concat(vs)| == |vs| * d
  {
    if vs != [] {
      ConcatSize(vs[1..], d);
      Rest(|vs|, d);
    }
  }

  function Respond(r: Vec, e: int, w: Vec): Vec
    requires |r| == |w|
  {
    Plus(r, Scale(e, w))
  }

  function ProofWithAssignment(n: Sizes, pp: PublicParameters, x: Instance, w: Witness, r: Randomness, cm: Commitment,
                               powers: Vec, e: int): Proof
    requires Sized(n, pp, x, w, r) && |powers| == n.l
  {
    ConcatSize(w.w, n.d0);
    Proof(cm, Respond(r.r, e, Concat(w.w)), Respond(r.delta, e, w.alpha),
          Respond(r.gamma, e, WeightedSum(w.beta, n.d2, powers)))
  }

  function Prove(curve: Curve, n: Sizes, pp: PublicParameters, x: Instance, w: Witness, r: Randomness, t: State)
    : (Outcome<Proof>, State)
    requires Sized(n, pp, x, w, r)
  {
    match PowersOfX(curve, x, t)
    case (None, t1) => (Panics, t1)
    case (Some(powers), t1) =>
      var cm := CommitmentFromRandom(pp, powers, r);
      match ComputeE(curve, cm, t1)
      case (None, t2) => (Panics, t2)
      case (Some(e), t2) => (Returns(ProofWithAssignment(n, pp, x, w, r, cm, powers, e)), t2)
  }

  /** `create_proof`; the randomness is drawn by the caller. */
  method CreateProof(n: Sizes, pp: PublicParameters, x: Instance, w: Witness, r: Randomness, transcript: SHA3Base)
    returns (result: Outcome<Proof>)
    requires Sized(n, pp, x, w, r)
    modifies transcript
    ensures (result, transcript.Value()) == Prove(transcript.curve, n, pp, x, w, r, old(transcript.Value()))
  {
    hide ProofWithAssignment, Aggregate, Dot, ComputeE;
    var drawn := ComputePowersOfX(x, transcript);
    if drawn.None? {
      return Panics;
    }
    var powers := drawn.value;
    var aggregated := AggregateByIndex(r.r, |pp.coeffCk.g|, powers);
    var cm := Commitment(Dot(pp.polyCk.g, r.r) + Dot(pp.polyCk.h, r.delta),
                         Dot(pp.coeffCk.g, aggregated) + Dot(pp.coeffCk.h, r.gamma));
    var e := DrawE(cm, transcript);
    if e.None? {
      return Panics;
    }
    return Returns(ProofWithAssignment(n, pp, x, w, r, cm, powers, e.value));
  }

  /** A point of the instance is at infinity, or one of the commitment made from the randomness. */
  predicate AbsorbsInfinity(curve: Curve, pp: PublicParameters, x: Instance, r: Randomness, t: State)
    requires |r.r| >= |x.cHat| * |pp.coeffCk.g|
  {
    || AnyInfinity([x.c] + x.cHat)
    || var powers := PowersOfX(curve, x, t).0.value;
       var cm := CommitmentFromRandom(pp, powers, r);
       AnyInfinity([cm.a, cm.aHat])
  }

  // The verifier

  /** The single commitment opens to the response. */
  predicate SingleOpens(pp: PublicParameters, x: Instance, proof: Proof, e: int) {
    Same(Dot(pp.polyCk.g, proof.z) + Dot(pp.polyCk.h, proof.omega), proof.commitment.a + x.c * e)
  }

  /** The weighted pieces open to the aggregated response. */
  predicate PiecesOpen(pp: PublicParameters, x: Instance, proof: Proof, powers: Vec, e: int)
    requires |proof.z| >= |powers| * |pp.coeffCk.g|
  {
    Same(Dot(pp.coeffCk.g, Aggregate(proof.z, |pp.coeffCk.g|, powers)) + Dot(pp.coeffCk.h, proof.omegaHat),
         proof.commitment.aHat + Dot(x.cHat, powers) * e)
  }

  /** `verify_proof` panics on a response that is too short, and asserts both equations before it
      compares them again: it never returns false. */
  function Verify(curve: Curve, pp: PublicParameters, x: Instance, proof: Proof, t: State): (Outcome<bool>, State) {
    match PowersOfX(curve, x, t)
    case (None, t1) => (Panics, t1)
    case (Some(powers), t1) =>
      match ComputeE(curve, proof.commitment, t1)
      case (None, t2) => (Panics, t2)
      case (Some(e), t2) =>
        var long := |proof.z| >= |powers| * |pp.coeffCk.g|;
        (if long && SingleOpens(pp, x, proof, e) && PiecesOpen(pp, x, proof, powers, e) then Returns(true) else Panics,
         t2)
  }

  // Completeness of the sigma protocol

  /** The commitments of the instance open to the witness. */
  predicate ValidWitness(n: Sizes, pp: PublicParameters, x: Instance, w: Witness)
    requires |x.cHat| == |w.w| == |w.beta| == n.l
  {
    && Same(x.c, Dot(pp.polyCk.g, Concat(w.w)) + Dot(pp.polyCk.h, w.alpha))
    && forall i :: 0 <= i < n.l ==> PieceOpens(pp, x.cHat[i], w.w[i], w.beta[i])
  }

  predicate PieceOpens(pp: PublicParameters, c: int, w: Vec, beta: Vec) {
    Same(c, Dot(pp.coeffCk.g, w) + Dot(pp.coeffCk.h, beta))
  }

  lemma {:induction false} AggregateLinear(u: Vec, v: Vec, d0: nat, c: int, weights: Vec)
    requires |u| == |v| == |weights| * d0
    ensures Aggregate(Plus(u, Scale(c, v)), d0, weights)
         == Plus(Aggregate(u, d0, weights), Scale(c, Aggregate(v, d0, weights)))
    decreases |weights|
  {
    if weights == [] {
    } else {
      Rest(|weights|, d0);
      AggregateLinear(u[d0..], v[d0..], d0, c, weights[1..]);
      assert Plus(u, Scale(c, v))[d0..] == Plus(u[d0..], Scale(c, v[d0..]));
      PieceLinear(u, v, d0, c, weights[0], Aggregate(u[d0..], d0, weights[1..]), Aggregate(v[d0..], d0, weights[1..]));
    }
  }

  lemma PieceLinear(u: Vec, v: Vec, d0: nat, c: int, x: int, a: Vec, b: Vec)
    requires |u| == |v| >= d0 && |a| == |b| == d0
    ensures Plus(Scale(x, Plus(u, Scale(c, v))[..d0]), Plus(a, Scale(c, b)))
         == Plus(Plus(Scale(x, u[..d0]), a), Scale(c, Plus(Scale(x, v[..d0]), b)))
  {
    forall i | 0 <= i < d0
      ensures x * (u[i] + c * v[i]) + (a[i] + c * b[i]) == (x * u[i] + a[i]) + c * (x * v[i] + b[i])
    {
      Shuffle(x, u[i], c, v[i], a[i], b[i]);
    }
  }

  lemma Shuffle(x: int, u: int, c: int, v: int, a: int, b: int)
    ensures x * (u + c * v) + (a + c * b) == (x * u + a) + c * (x * v + b)
  {
    assert x * (c * v) == c * (x * v);
  }

  /** The pieces' commitments, weighted and added up, open to the aggregated witness. */
  lemma {:induction false} PiecesAggregate(pp: PublicParameters, cHat: Vec, w: seq<Vec>, beta: seq<Vec>, powers: Vec)
    requires |cHat| == |w| == |beta| == |powers|
    requires forall i :: 0 <= i < |w| ==> |w[i]| == |pp.coeffCk.g| && |beta[i]| == |pp.coeffCk.h|
    requires forall i :: 0 <= i < |w| ==> PieceOpens(pp, cHat[i], w[i], beta[i])
    ensures |Concat(w)| == |w| * |pp.coeffCk.g|
    ensures Same(Dot(cHat, powers), Dot(pp.coeffCk.g, Aggregate(Concat(w), |pp.coeffCk.g|, powers))
                                    + Dot(pp.coeffCk.h, WeightedSum(beta, |pp.coeffCk.h|, powers)))
    decreases |w|
  {
    var g, h, d0 := pp.coeffCk.g, pp.coeffCk.h, |pp.coeffCk.g|;
    ConcatSize(w, d0);
    if w == [] {
      DotZeros(g, d0);
      DotZeros(h, |h|);
    } else {
      ConcatSize(w[1..], d0);
      assert PieceOpens(pp, cHat[0], w[0], beta[0]);
      forall i | 0 <= i < |w| - 1 ensures PieceOpens(pp, cHat[1..][i], w[1..][i], beta[1..][i]) {
        assert PieceOpens(pp, cHat[i + 1], w[i + 1], beta[i + 1]);
      }
      PiecesAggregate(pp, cHat[1..], w[1..], beta[1..], powers[1..]);
      AggregateFirst(g, w, powers);
      AddPiece(pp, cHat, powers, w[0], beta[0], Aggregate(Concat(w[1..]), d0, powers[1..]),
               WeightedSum(beta[1..], |h|, powers[1..]));
    }
  }

  lemma AggregateFirst(g: Vec, w: seq<Vec>, powers: Vec)
    requires w != [] && |powers| == |w| && forall i :: 0 <= i < |w| ==> |w[i]| == |g|
    ensures |Concat(w)| == |w| * |g| && |Concat(w[1..])| == |w[1..]| * |g|
    ensures Aggregate(Concat(w), |g|, powers)
         == Plus(Scale(powers[0], w[0]), Aggregate(Concat(w[1..]), |g|, powers[1..]))
  {
    ConcatSize(w, |g|);
    ConcatSize(w[1..], |g|);
    assert Concat(w)[..|g|] == w[0] && Concat(w)[|g|..] == Concat(w[1..]);
  }

  lemma AddPiece(pp: PublicParameters, cHat: Vec, powers: Vec, w: Vec, beta: Vec, ws: Vec, betas: Vec)
    requires cHat != [] && powers != [] && PieceOpens(pp, cHat[0], w, beta) && |w| == |ws| && |beta| == |betas|
    requires Same(Dot(cHat[1..], powers[1..]), Dot(pp.coeffCk.g, ws) + Dot(pp.coeffCk.h, betas))
    ensures Same(Dot(cHat, powers), Dot(pp.coeffCk.g, Plus(Scale(powers[0], w), ws))
                                    + Dot(pp.coeffCk.h, Plus(Scale(powers[0], beta), betas)))
  {
    hide Same, Dot, Plus, Scale;
    var g, h, x, c, rest := pp.coeffCk.g, pp.coeffCk.h, powers[0], cHat[0], Dot(cHat[1..], powers[1..]);
    DotFirst(cHat, powers);
    DotPlus(g, Scale(x, w), ws);
    DotScale(g, x, w);
    DotPlus(h, Scale(x, beta), betas);
    DotScale(h, x, beta);
    SameMul(c, Dot(g, w) + Dot(h, beta), x);
    SameAdd(c * x, (Dot(g, w) + Dot(h, beta)) * x, rest, Dot(g, ws) + Dot(h, betas));
    DistributeSum(Dot(g, w), Dot(h, beta), x);
  }

  lemma DotFirst(x: Vec, y: Vec)
    requires x != [] && y != []
    ensures Dot(x, y) == x[0] * y[0] + Dot(x[1..], y[1..])
  {
  }

  lemma DistributeSum(a: int, b: int, x: int)
    ensures (a + b) * x == x * a + x * b
  {
  }

  /** By how much the instance's commitments miss a witness: the single one, and the weighted pieces. */
  function Miss(n: Sizes, pp: PublicParameters, x: Instance, w: Witness, powers: Vec): (int, int)
    requires |x.cHat| == |w.w| == |w.beta| == |powers| == n.l && |pp.coeffCk.g| == n.d0
    requires AllOfSize(w.w, n.d0) && AllOfSize(w.beta, n.d2)
  {
    ConcatSize(w.w, n.d0);
    (x.c - Dot(pp.polyCk.g, Concat(w.w)) - Dot(pp.polyCk.h, w.alpha),
     Dot(x.cHat, powers) - Dot(pp.coeffCk.g, Aggregate(Concat(w.w), n.d0, powers))
     - Dot(pp.coeffCk.h, WeightedSum(w.beta, n.d2, powers)))
  }

  /** The first equation for a proof made from any witness: its error is the miss, scaled. */
  lemma SingleError(n: Sizes, pp: PublicParameters, x: Instance, w: Witness, r: Randomness, powers: Vec, e: int)
    requires Sized(n, pp, x, w, r) && |powers| == n.l
    ensures var proof := ProofWithAssignment(n, pp, x, w, r, CommitmentFromRandom(pp, powers, r), powers, e);
            var opening := Dot(pp.polyCk.g, proof.z) + Dot(pp.polyCk.h, proof.omega);
            proof.commitment.a + x.c * e - opening == Miss(n, pp, x, w, powers).0 * e
  {
    hide Dot;
    ConcatSize(w.w, n.d0);
    DotLinear(pp.polyCk.g, r.r, e, Concat(w.w));
    DotLinear(pp.polyCk.h, r.delta, e, w.alpha);
    DistributeMinus(x.c, Dot(pp.polyCk.g, Concat(w.w)), Dot(pp.polyCk.h, w.alpha), e);
  }

  lemma DistributeMinus(a: int, b: int, c: int, e: int)
    ensures (a - b - c) * e == a * e - e * b - e * c
  {
  }

  lemma PiecesError(n: Sizes, pp: PublicParameters, x: Instance, w: Witness, r: Randomness, powers: Vec, e: int)
    requires Sized(n, pp, x, w, r) && |powers| == n.l
    ensures var proof := ProofWithAssignment(n, pp, x, w, r, CommitmentFromRandom(pp, powers, r), powers, e);
            var opening := Dot(pp.coeffCk.g, Aggregate(proof.z, n.d0, powers)) + Dot(pp.coeffCk.h, proof.omegaHat);
            proof.commitment.aHat + Dot(x.cHat, powers) * e - opening == Miss(n, pp, x, w, powers).1 * e
  {
    hide Dot, Aggregate, WeightedSum;
    var g, h := pp.coeffCk.g, pp.coeffCk.h;
    ConcatSize(w.w, n.d0);
    var beta := WeightedSum(w.beta, n.d2, powers);
    AggregateLinear(r.r, Concat(w.w), n.d0, e, powers);
    DotLinear(g, Aggregate(r.r, n.d0, powers), e, Aggregate(Concat(w.w), n.d0, powers));
    DotLinear(h, r.gamma, e, beta);
    DistributeMinus(Dot(x.cHat, powers), Dot(g, Aggregate(Concat(w.w), n.d0, powers)), Dot(h, beta), e);
  }

  lemma MissesNothing(n: Sizes, pp: PublicParameters, x: Instance, w: Witness, r: Randomness, powers: Vec)
    requires Sized(n, pp, x, w, r) && ValidWitness(n, pp, x, w) && |powers| == n.l
    ensures Same(Miss(n, pp, x, w, powers).0, 0) && Same(Miss(n, pp, x, w, powers).1, 0)
  {
    ConcatSize(w.w, n.d0);
    PiecesAggregate(pp, x.cHat, w.w, w.beta, powers);
    SameGap(x.c, Dot(pp.polyCk.g, Concat(w.w)) + Dot(pp.polyCk.h, w.alpha));
    SameGap(Dot(x.cHat, powers), Dot(pp.coeffCk.g, Aggregate(Concat(w.w), n.d0, powers))
                                 + Dot(pp.coeffCk.h, WeightedSum(w.beta, n.d2, powers)));
  }

  lemma EquationError(a: int, b: int, c: int)
    ensures Same(b + c, a) <==> Same(a - c - b, 0)
  {
    hide Same;
    if Same(b + c, a) {
      var k := SameBy(b + c, a);
      SameFrom(a - c - b, 0, -k);
    }
    if Same(a - c - b, 0) {
      var k := SameBy(a - c - b, 0);
      SameFrom(b + c, a, -k);
    }
  }

  /** The exact verdict on a proof made from any witness. The prover panics if and only if it absorbs a
      point at infinity; otherwise both misses, scaled by the challenge, must vanish, or the verifier
      panics. */
  lemma VerdictOnHonestProof(curve: Curve, n: Sizes, pp: PublicParameters, x: Instance, w: Witness, r: Randomness,
                             t: State)
    requires Sized(n, pp, x, w, r)
    ensures var (proved, end) := Prove(curve, n, pp, x, w, r, t);
            if AbsorbsInfinity(curve, pp, x, r, t) then proved.Panics?
            else
              && proved.Returns? && |proved.value.z| == |x.cHat| * |pp.coeffCk.g|
              && var (powers, t1) := PowersOfX(curve, x, t);
                 && powers.Some?
                 && var e := ComputeE(curve, proved.value.commitment, t1).0;
                    && e.Some?
                    && var miss := Miss(n, pp, x, w, powers.value);
                       Verify(curve, pp, x, proved.value, t)
                       == (if Same(miss.0 * e.value, 0) && Same(miss.1 * e.value, 0) then Returns(true)
                           else Panics, end)
  {
    hide Dot, Same, Aggregate, Miss, WeightedSum, AnyInfinity, CommitmentBytes, PointsBytes, Draw, Powers;
    if !AbsorbsInfinity(curve, pp, x, r, t) {
      var (Some(powers), t1) := PowersOfX(curve, x, t);
      var cm := CommitmentFromRandom(pp, powers, r);
      var Some(e) := ComputeE(curve, cm, t1).0;
      hide PowersOfX, ComputeE;
      var proof := ProofWithAssignment(n, pp, x, w, r, cm, powers, e);
      SingleError(n, pp, x, w, r, powers, e);
      PiecesError(n, pp, x, w, r, powers, e);
      EquationError(proof.commitment.a + x.c * e, Dot(pp.polyCk.g, proof.z), Dot(pp.polyCk.h, proof.omega));
      EquationError(proof.commitment.aHat + Dot(x.cHat, powers) * e,
                    Dot(pp.coeffCk.g, Aggregate(proof.z, n.d0, powers)), Dot(pp.coeffCk.h, proof.omegaHat));
    }
  }

  /** The sigma protocol accepts every proof made from a valid witness, with every randomness; there is
      none if and only if a point at infinity is absorbed. */
  lemma Completeness(curve: Curve, n: Sizes, pp: PublicParameters, x: Instance, w: Witness, r: Randomness, t: State)
    requires Sized(n, pp, x, w, r) && ValidWitness(n, pp, x, w)
    ensures var (proved, end) := Prove(curve, n, pp, x, w, r, t);
            if AbsorbsInfinity(curve, pp, x, r, t) then proved.Panics?
            else proved.Returns? && Verify(curve, pp, x, proved.value, t) == (Returns(true), end)
  {
    hide ComputeE, PowersOfX, Prove, Verify, Miss, ValidWitness, AbsorbsInfinity;
    VerdictOnHonestProof(curve, n, pp, x, w, r, t);
    var proved := Prove(curve, n, pp, x, w, r, t).0;
    if !AbsorbsInfinity(curve, pp, x, r, t) {
      var (Some(powers), t1) := PowersOfX(curve, x, t);
      var Some(e) := ComputeE(curve, proved.value.commitment, t1).0;
      MissesNothing(n, pp, x, w, r, powers);
      SameMul(Miss(n, pp, x, w, powers).0, 0, e);
      SameMul(Miss(n, pp, x, w, powers).1, 0, e);
    }
  }

  // Which witness was used cannot be seen

  function Minus(x: Vec, y: Vec): (r: Vec)
    requires |x| == |y|
    ensures |r| == |x|
  {
    Plus(x, Scale(-1, y))
  }

  /** The randomness with which witness `w'` gives the responses that `w` gives with `r`. */
  function Shifted(n: Sizes, pp: PublicParameters, x: Instance, w: Witness, w': Witness, r: Randomness, powers: Vec,
                   e: int): Randomness
    requires Sized(n, pp, x, w, r) && Sized(n, pp, x, w', r) && |powers| == n.l
  {
    ConcatSize(w.w, n.d0);
    ConcatSize(w'.w, n.d0);
    Randomness(Plus(r.r, Scale(e, Minus(Concat(w.w), Concat(w'.w)))),
               Plus(r.delta, Scale(e, Minus(w.alpha, w'.alpha))),
               Plus(r.gamma, Scale(e, Minus(WeightedSum(w.beta, n.d2, powers), WeightedSum(w'.beta, n.d2, powers)))))
  }

  lemma RespondsAlike(r: Vec, e: int, w: Vec, w': Vec)
    requires |r| == |w| == |w'|
    ensures Respond(Plus(r, Scale(e, Minus(w, w'))), e, w') == Respond(r, e, w)
  {
    forall i | 0 <= i < |r| ensures r[i] + e * (w[i] + -1 * w'[i]) + e * w'[i] == r[i] + e * w[i] {
      CancelsOut(r[i], e, w[i], w'[i]);
    }
  }

  lemma CancelsOut(r: int, e: int, w: int, w': int)
    ensures r + e * (w + -1 * w') + e * w' == r + e * w
  {
  }

  lemma ShiftedFits(n: Sizes, pp: PublicParameters, x: Instance, w: Witness, w': Witness, r: Randomness, powers: Vec,
                    e: int)
    requires Sized(n, pp, x, w, r) && Sized(n, pp, x, w', r) && |powers| == n.l
    ensures Sized(n, pp, x, w', Shifted(n, pp, x, w, w', r, powers, e))
  {
    ConcatSize(w.w, n.d0);
  }

  /** With the shifted randomness the other witness gives the same responses, and the same commitment as group
      elements. */
  lemma ShiftedProof(n: Sizes, pp: PublicParameters, x: Instance, w: Witness, w': Witness, r: Randomness, powers: Vec,
                     e: int)
    requires Sized(n, pp, x, w, r) && Sized(n, pp, x, w', r) && |powers| == n.l
    requires ValidWitness(n, pp, x, w) && ValidWitness(n, pp, x, w')
    ensures var r' := Shifted(n, pp, x, w, w', r, powers, e);
            && Sized(n, pp, x, w', r')
            && var cm, cm' := CommitmentFromRandom(pp, powers, r), CommitmentFromRandom(pp, powers, r');
               && Same(cm.a, cm'.a) && Same(cm.aHat, cm'.aHat)
               && ProofWithAssignment(n, pp, x, w', r', cm', powers, e)
                  == ProofWithAssignment(n, pp, x, w, r, cm, powers, e).(commitment := cm')
  {
    hide Same, Aggregate, Dot, WeightedSum, Plus, Scale, Minus, Miss, ValidWitness, CommitmentFromRandom;
    var r' := Shifted(n, pp, x, w, w', r, powers, e);
    ShiftedFits(n, pp, x, w, w', r, powers, e);
    ConcatSize(w.w, n.d0);
    ConcatSize(w'.w, n.d0);
    RespondsAlike(r.r, e, Concat(w.w), Concat(w'.w));
    RespondsAlike(r.delta, e, w.alpha, w'.alpha);
    RespondsAlike(r.gamma, e, WeightedSum(w.beta, n.d2, powers), WeightedSum(w'.beta, n.d2, powers));
    SingleError(n, pp, x, w, r, powers, e);
    SingleError(n, pp, x, w', r', powers, e);
    PiecesError(n, pp, x, w, r, powers, e);
    PiecesError(n, pp, x, w', r', powers, e);
    MissesNothing(n, pp, x, w, r, powers);
    MissesNothing(n, pp, x, w', r', powers);
    var cm, cm' := CommitmentFromRandom(pp, powers, r), CommitmentFromRandom(pp, powers, r');
    Closes(cm.a, cm'.a, Miss(n, pp, x, w, powers).0, Miss(n, pp, x, w', powers).0, e);
    Closes(cm.aHat, cm'.aHat, Miss(n, pp, x, w, powers).1, Miss(n, pp, x, w', powers).1, e);
  }

  lemma Closes(a: int, b: int, m: int, m': int, e: int)
    requires a - b == m * e - m' * e && Same(m, 0) && Same(m', 0)
    ensures Same(a, b)
  {
    hide Same;
    SameMul(m, 0, e);
    SameMul(m', 0, e);
    SameAdd(m * e, 0, m' * e, 0);
    SameGap(a, b);
  }

  lemma SameCommitment(curve: Curve, cm: Commitment, cm': Commitment, t: State)
    requires Same(cm.a, cm'.a) && Same(cm.aHat, cm'.aHat)
    ensures ComputeE(curve, cm, t) == ComputeE(curve, cm', t)
  {
    hide Draw;
    var ps, qs := [cm.a, cm.aHat], [cm'.a, cm'.aHat];
    assert AnyInfinity(ps) <==> Infinity(ps[0]) || Infinity(ps[1]);
    assert AnyInfinity(qs) <==> Infinity(qs[0]) || Infinity(qs[1]);
  }

  /** Two proofs with the same responses whose commitments are the same group elements. */
  predicate SameProof(p: Proof, q: Proof) {
    && Same(p.commitment.a, q.commitment.a) && Same(p.commitment.aHat, q.commitment.aHat)
    && p.z == q.z && p.omega == q.omega && p.omegaHat == q.omegaHat
  }

  /** No proof tells two valid witnesses of its instance apart: whatever proof one of them gives with some
      randomness, the other gives with some other randomness, and the transcripts end alike. */
  lemma WitnessIsHidden(curve: Curve, n: Sizes, pp: PublicParameters, x: Instance, w: Witness, w': Witness,
                        r: Randomness, t: State) returns (r': Randomness)
    requires Sized(n, pp, x, w, r) && Sized(n, pp, x, w', r)
    requires ValidWitness(n, pp, x, w) && ValidWitness(n, pp, x, w')
    ensures Sized(n, pp, x, w', r')
    ensures var (p, end), (p', end') := Prove(curve, n, pp, x, w, r, t), Prove(curve, n, pp, x, w', r', t);
            end == end' && (if p.Returns? then p'.Returns? && SameProof(p.value, p'.value) else p' == p)
  {
    hide PowersOfX, ComputeE, Respond, WeightedSum, CommitmentFromRandom, ValidWitness, Shifted;
    r' := r;
    var (powers, t1) := PowersOfX(curve, x, t);
    if powers.Some? {
      var cm := CommitmentFromRandom(pp, powers.value, r);
      var e := ComputeE(curve, cm, t1).0;
      var shift := if e.Some? then e.value else 0;
      r' := Shifted(n, pp, x, w, w', r, powers.value, shift);
      ShiftedProof(n, pp, x, w, w', r, powers.value, shift);
      SameCommitment(curve, cm, CommitmentFromRandom(pp, powers.value, r'), t1);
    }
  }

  // What two accepting responses give away

  /** The vector on the line through two responses, at the slope of their challenges. */
  function Slope(inv: int, z: Vec, z': Vec): (r: Vec)
    requires |z| == |z'|
    ensures |r| == |z|
  {
    Scale(inv, Minus(z, z'))
  }

  lemma DotOfSlope(g: Vec, inv: int, z: Vec, z': Vec)
    requires |z| == |z'|
    ensures Dot(g, Slope(inv, z, z')) == inv * (Dot(g, z) - Dot(g, z'))
  {
    hide Dot, Scale, Plus;
    DotScale(g, inv, Minus(z, z'));
    DotLinear(g, z, -1, z');
  }

  /** Two openings of one line, at different challenges, open its slope. */
  lemma SlopeOpens(g: Vec, h: Vec, a: int, a': int, c: int, e: int, e': int, inv: int, z: Vec, z': Vec, o: Vec, o': Vec)
    requires |z| == |z'| && |o| == |o'| && Same(a, a') && Same((e - e') * inv, 1)
    requires Same(Dot(g, z) + Dot(h, o), a + c * e) && Same(Dot(g, z') + Dot(h, o'), a' + c * e')
    ensures Same(c, Dot(g, Slope(inv, z, z')) + Dot(h, Slope(inv, o, o')))
  {
    hide Same, Dot, Slope;
    DotOfSlope(g, inv, z, z');
    DotOfSlope(h, inv, o, o');
    var d, d' := Dot(g, z) + Dot(h, o), Dot(g, z') + Dot(h, o');
    SameAdd(d, a + c * e, d', a' + c * e');
    SameGap(a, a');
    SameFrom(c * (e - e'), c * (e - e'), 0);
    SameAdd(a - a', 0, c * (e - e'), c * (e - e'));
    assert a + c * e - (a' + c * e') == a - a' + c * (e - e');
    SameTrans(d - d', a - a' + c * (e - e'), 0 + c * (e - e'));
    SameMul(d - d', c * (e - e'), inv);
    SameMul((e - e') * inv, 1, c);
    assert c * (e - e') * inv == (e - e') * inv * c;
    SameTrans((d - d') * inv, c * (e - e') * inv, c);
    SameSwaps((d - d') * inv, c);
    assert (d - d') * inv
        == inv * (Dot(g, z) - Dot(g, z')) + inv * (Dot(h, o) - Dot(h, o'));
  }

  /** Special soundness: two accepted responses to one commitment, for different challenges, give a vector that
      opens the single commitment and, aggregated, the weighted pieces: it is the same vector. */
  lemma ResponsesGiveTheWitness(pp: PublicParameters, x: Instance, p: Proof, q: Proof, powers: Vec, e: int, e': int,
                                inv: int)
    requires Same(p.commitment.a, q.commitment.a) && Same(p.commitment.aHat, q.commitment.aHat)
    requires |p.z| == |q.z| >= |powers| * |pp.coeffCk.g| && |p.omega| == |q.omega| && |p.omegaHat| == |q.omegaHat|
    requires SingleOpens(pp, x, p, e) && PiecesOpen(pp, x, p, powers, e)
    requires SingleOpens(pp, x, q, e') && PiecesOpen(pp, x, q, powers, e')
    requires Same((e - e') * inv, 1)
    ensures var w := Slope(inv, p.z, q.z);
            && Same(x.c, Dot(pp.polyCk.g, w) + Dot(pp.polyCk.h, Slope(inv, p.omega, q.omega)))
            && Same(Dot(x.cHat, powers), Dot(pp.coeffCk.g, Aggregate(w, |pp.coeffCk.g|, powers))
                                         + Dot(pp.coeffCk.h, Slope(inv, p.omegaHat, q.omegaHat)))
  {
    hide Same, Dot, Slope, Aggregate, Stretch;
    var g, stretched := pp.coeffCk.g, Stretch(pp.coeffCk.g, powers);
    StretchIsAggregate(g, p.z, powers);
    StretchIsAggregate(g, q.z, powers);
    StretchIsAggregate(g, Slope(inv, p.z, q.z), powers);
    SlopeOpens(pp.polyCk.g, pp.polyCk.h, p.commitment.a, q.commitment.a, x.c, e, e', inv, p.z, q.z, p.omega, q.omega);
    SlopeOpens(stretched, pp.coeffCk.h, p.commitment.aHat, q.commitment.aHat, Dot(x.cHat, powers), e, e', inv, p.z, q.z,
               p.omegaHat, q.omegaHat);
  }
}
