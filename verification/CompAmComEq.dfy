/** The compressed sigma protocol: the equations of the response become an instance of the halving
    argument, so only two entries of the response are sent. */
module CompAmComEq {
  import opened AmComEq
  import opened Group
  import opened Transcript
  import opened Words
  import opened Wrappers
  import CompDLEq

  datatype CompressedProof = CompressedProof(commitments: seq<CompDLEq.Commitment>, ace: Proof)

  /** The generators and the instance of the recursion. */
  function PrepareForCompDLEq(pp: PublicParameters, x: Instance, proof: Proof, powers: Vec, e: int)
    : (CompDLEq.PublicParameters, CompDLEq.Instance)
  {
    (CompDLEq.PublicParameters(pp.polyCk.g, Stretch(pp.coeffCk.g, powers)),
     CompDLEq.Instance(proof.commitment.a + x.c * e - Dot(pp.polyCk.h, proof.omega),
                       proof.commitment.aHat + Dot(x.cHat, powers) * e - Dot(pp.coeffCk.h, proof.omegaHat)))
  }

  function Compress(proof: Proof, rounds: CompDLEq.Proof): CompressedProof {
    CompressedProof(rounds.commitments, proof.(z := rounds.z))
  }

  /** `creat_proof_with_combined`: the sigma prover's response goes through the recursion. */
  function ProveCombined(curve: Curve, n: Sizes, pp: PublicParameters, x: Instance, w: Witness, r: Randomness, t: State)
    : (Outcome<CompressedProof>, State)
    requires Sized(n, pp, x, w, r)
  {
    match PowersOfX(curve, x, t)
    case (None, t1) => (Panics, t1)
    case (Some(powers), t1) =>
      var cm := CommitmentFromRandom(pp, powers, r);
      match ComputeE(curve, cm, t1)
      case (None, t2) => (Panics, t2)
      case (Some(e), t2) =>
        var proof := ProofWithAssignment(n, pp, x, w, r, cm, powers, e);
        var (pp', _) := PrepareForCompDLEq(pp, x, proof, powers, e);
        var (rounds, end) := CompDLEq.Prove(curve, pp', proof.z, t2);
        (CompressedWith(proof, rounds), end)
  }

  function CompressedWith(proof: Proof, rounds: Outcome<CompDLEq.Proof>): Outcome<CompressedProof> {
    match rounds
    case Returns(rounds) => Returns(Compress(proof, rounds))
    case Fails => Fails
    case Panics => Panics
  }

  method CreateProofWithCombined(n: Sizes, pp: PublicParameters, x: Instance, w: Witness, r: Randomness,
                                 transcript: SHA3Base)
    returns (result: Outcome<CompressedProof>)
    requires Sized(n, pp, x, w, r)
    modifies transcript
    ensures (result, transcript.Value()) == ProveCombined(transcript.curve, n, pp, x, w, r, old(transcript.Value()))
  {
    hide CompDLEq.Prove, ProofWithAssignment, Aggregate, Stretch;
    var drawn := ComputePowersOfX(x, transcript);
    if drawn.None? {
      return Panics;
    }
    var powers := drawn.value;
    var aggregated := AggregateByIndex(r.r, |pp.coeffCk.g|, powers);
    var cm := Commitment(Dot(pp.polyCk.g, r.r) + Dot(pp.polyCk.h, r.delta),
                         Dot(pp.coeffCk.g, aggregated) + Dot(pp.coeffCk.h, r.gamma));
    var e := DrawE(cm, transcript);
    if e.None? {
      return Panics;
    }
    var proof := ProofWithAssignment(n, pp, x, w, r, cm, powers, e.value);
    var (pp', x') := PrepareForCompDLEq(pp, x, proof, powers, e.value);
    var rounds := CompDLEq.CreateProof(pp', x', proof.z, transcript);
    return CompressedWith(proof, rounds);
  }

  function VerifyCombined(curve: Curve, pp: PublicParameters, x: Instance, proof: CompressedProof, t: State)
    : (Outcome<bool>, State)
  {
    if |proof.ace.z| != 2 then (Fails, t)
    else
      match PowersOfX(curve, x, t)
      case (None, t1) => (Panics, t1)
      case (Some(powers), t1) =>
        match ComputeE(curve, proof.ace.commitment, t1)
        case (None, t2) => (Panics, t2)
        case (Some(e), t2) =>
          var (pp', x') := PrepareForCompDLEq(pp, x, proof.ace, powers, e);
          CompDLEq.Verify(curve, pp', x', CompDLEq.Proof(proof.commitments, proof.ace.z), t2)
  }

  method VerifyProof(pp: PublicParameters, x: Instance, proof: CompressedProof, transcript: SHA3Base)
    returns (outcome: Outcome<bool>)
    modifies transcript
    ensures (outcome, transcript.Value()) == VerifyCombined(transcript.curve, pp, x, proof, old(transcript.Value()))
  {
    if |proof.ace.z| != 2 {
      return Fails;
    }
    hide CompDLEq.Verify, Stretch;
    var powers := ComputePowersOfX(x, transcript);
    if powers.None? {
      return Panics;
    }
    var e := DrawE(proof.ace.commitment, transcript);
    if e.None? {
      return Panics;
    }
    var (pp', x') := PrepareForCompDLEq(pp, x, proof.ace, powers.value, e.value);
    outcome := CompDLEq.VerifyProof(pp', x', CompDLEq.Proof(proof.commitments, proof.ace.z), transcript);
  }

  /** Which proofs the verifier panics on, of those with a response of length 2: the instance or the proof holds
      a point at infinity, or the proof does not have one commitment per halving. It fails on a response of
      another length, and, if it can draw its challenges, on generators that do not fit each other. */
  lemma VerifierPanicsExactlyWhen(curve: Curve, pp: PublicParameters, x: Instance, proof: CompressedProof, t: State)
    ensures var infinite := AnyInfinity([x.c] + x.cHat)
                            || AnyInfinity([proof.ace.commitment.a, proof.ace.commitment.aHat]);
            var fit := |pp.polyCk.g| == |x.cHat| * |pp.coeffCk.g|;
            && (VerifyCombined(curve, pp, x, proof, t).0.Fails? <==> |proof.ace.z| != 2 || (!infinite && !fit))
            && (VerifyCombined(curve, pp, x, proof, t).0.Panics? <==>
                  && |proof.ace.z| == 2
                  && (|| infinite
                      || (fit && (!CompDLEq.AllFinite(proof.commitments)
                                  || |pp.polyCk.g| != 2 * Pow2(|proof.commitments|)))))
  {
    hide AnyInfinity, CompDLEq.Verify, CompDLEq.AllFinite, Stretch, Draw;
    if |proof.ace.z| == 2 && !AnyInfinity([x.c] + x.cHat)
       && !AnyInfinity([proof.ace.commitment.a, proof.ace.commitment.aHat]) {
      var powers, t1 := PowersOfX(curve, x, t).0.value, PowersOfX(curve, x, t).1;
      var e, t2 := ComputeE(curve, proof.ace.commitment, t1).0.value, ComputeE(curve, proof.ace.commitment, t1).1;
      var (pp', x') := PrepareForCompDLEq(pp, x, proof.ace, powers, e);
      CompDLEq.VerifierPanicsExactlyWhen(curve, pp', x', CompDLEq.Proof(proof.commitments, proof.ace.z), t2);
    }
  }

  /** The reduction is exact: the response opens the recursion's instance if and only if the sigma
      protocol's two equations hold for it. */
  lemma ReductionIsExact(pp: PublicParameters, x: Instance, proof: Proof, powers: Vec, e: int)
    requires |proof.z| >= |powers| * |pp.coeffCk.g|
    ensures var (pp', x') := PrepareForCompDLEq(pp, x, proof, powers, e);
            && (Same(x'.y, Dot(pp'.g, proof.z)) <==> SingleOpens(pp, x, proof, e))
            && (Same(x'.yHat, Dot(pp'.gHat, proof.z)) <==> PiecesOpen(pp, x, proof, powers, e))
  {
    hide Dot, Stretch, Aggregate;
    StretchIsAggregate(pp.coeffCk.g, proof.z, powers);
    MoveOver(proof.commitment.a + x.c * e, Dot(pp.polyCk.h, proof.omega), Dot(pp.polyCk.g, proof.z));
    MoveOver(proof.commitment.aHat + Dot(x.cHat, powers) * e, Dot(pp.coeffCk.h, proof.omegaHat),
             Dot(pp.coeffCk.g, Aggregate(proof.z, |pp.coeffCk.g|, powers)));
  }

  lemma MoveOver(a: int, b: int, c: int)
    ensures Same(a - b, c) <==> Same(c + b, a)
  {
    SameGap(a - b, c);
    SameGap(a, c + b);
    assert a - b - c == a - (c + b);
  }

  /** The commitments of the recursion that the prover computes. */
  function Recursion(curve: Curve, n: Sizes, pp: PublicParameters, x: Instance, w: Witness, r: Randomness, t: State)
    : seq<CompDLEq.Commitment>
    requires Sized(n, pp, x, w, r) && !AbsorbsInfinity(curve, pp, x, r, t)
  {
    var (powers, t1) := PowersOfX(curve, x, t);
    var cm := CommitmentFromRandom(pp, powers.value, r);
    var (e, t2) := ComputeE(curve, cm, t1);
    var proof := ProofWithAssignment(n, pp, x, w, r, cm, powers.value, e.value);
    CompDLEq.Computed(curve, PrepareForCompDLEq(pp, x, proof, powers.value, e.value).0, proof.z, t2)
  }

  /** A point at infinity is absorbed before the recursion or computed in it. */
  predicate MeetsInfinity(curve: Curve, n: Sizes, pp: PublicParameters, x: Instance, w: Witness, r: Randomness,
                          t: State)
    requires Sized(n, pp, x, w, r)
  {
    AbsorbsInfinity(curve, pp, x, r, t) || !CompDLEq.AllFinite(Recursion(curve, n, pp, x, w, r, t))
  }

  /** The exact verdict on a compressed proof made from any witness, whenever the vector length is a
      power of two, at least 2. The prover panics if and only if it meets a point at infinity. Otherwise
      prover and verifier draw the same challenges and end with the same transcript, after one round less
      than the exponent, with two entries of the response left; and the proof is accepted if and only if
      both misses, scaled by all challenges, vanish. */
  lemma VerdictOnHonestProof(curve: Curve, n: Sizes, pp: PublicParameters, x: Instance, w: Witness, r: Randomness,
                             t: State, k: nat)
    requires Sized(n, pp, x, w, r) && n.l * n.d0 == Pow2(k + 1)
    ensures var (proved, end) := ProveCombined(curve, n, pp, x, w, r, t);
            if MeetsInfinity(curve, n, pp, x, w, r, t) then proved.Panics?
            else
              && proved.Returns? && |proved.value.commitments| == k && |proved.value.ace.z| == 2
              && var (powers, t1) := PowersOfX(curve, x, t);
                 && powers.Some?
                 && var (e, t2) := ComputeE(curve, proved.value.ace.commitment, t1);
                    && e.Some?
                    && var drawn := CompDLEq.Challenges(curve, proved.value.commitments, t2).0;
                       && drawn.Some?
                       && var scale, miss := CompDLEq.Product(drawn.value), Miss(n, pp, x, w, powers.value);
                          VerifyCombined(curve, pp, x, proved.value, t)
                          == (Returns(Same(miss.0 * e.value * scale, 0) && Same(miss.1 * e.value * scale, 0)), end)
  {
    hide Dot, Same, Aggregate, Miss, WeightedSum, Stretch, AnyInfinity, Draw, CommitmentBytes, PointsBytes, Powers;
    hide CompDLEq.Prove, CompDLEq.Verify, CompDLEq.Challenges, CompDLEq.Product, CompDLEq.Computed, CompDLEq.AllFinite;
    if !AbsorbsInfinity(curve, pp, x, r, t) {
      var powers, t1 := PowersOfX(curve, x, t).0.value, PowersOfX(curve, x, t).1;
      var cm := CommitmentFromRandom(pp, powers, r);
      var e, t2 := ComputeE(curve, cm, t1).0.value, ComputeE(curve, cm, t1).1;
      var proof := ProofWithAssignment(n, pp, x, w, r, cm, powers, e);
      SingleError(n, pp, x, w, r, powers, e);
      PiecesError(n, pp, x, w, r, powers, e);
      StretchIsAggregate(pp.coeffCk.g, proof.z, powers);
      var (pp', x') := PrepareForCompDLEq(pp, x, proof, powers, e);
      CompDLEq.Padded(proof.z, k);
      CompDLEq.VerdictOnHonestProof(curve, pp', x', proof.z, t2, k);
    }
  }

  /** So every compressed proof made from a valid witness is accepted, and there is one unless the prover
      meets a point at infinity. */
  lemma Completeness(curve: Curve, n: Sizes, pp: PublicParameters, x: Instance, w: Witness, r: Randomness,
                     t: State, k: nat)
    requires Sized(n, pp, x, w, r) && ValidWitness(n, pp, x, w) && n.l * n.d0 == Pow2(k + 1)
    ensures var (proved, end) := ProveCombined(curve, n, pp, x, w, r, t);
            if MeetsInfinity(curve, n, pp, x, w, r, t) then proved.Panics?
            else proved.Returns? && VerifyCombined(curve, pp, x, proved.value, t) == (Returns(true), end)
  {
    hide Miss, ComputeE, PowersOfX, ValidWitness, ProveCombined, VerifyCombined, MeetsInfinity;
    hide CompDLEq.Challenges, CompDLEq.Product;
    VerdictOnHonestProof(curve, n, pp, x, w, r, t, k);
    if !MeetsInfinity(curve, n, pp, x, w, r, t) {
      var proof := ProveCombined(curve, n, pp, x, w, r, t).0.value;
      var (powers, t1) := PowersOfX(curve, x, t);
      var (e, t2) := ComputeE(curve, proof.ace.commitment, t1);
      var scale := CompDLEq.Product(CompDLEq.Challenges(curve, proof.commitments, t2).0.value);
      var miss := Miss(n, pp, x, w, powers.value);
      MissesNothing(n, pp, x, w, r, powers.value);
      SameMul(miss.0, 0, e.value * scale);
      SameMul(miss.1, 0, e.value * scale);
      Associate(miss.0, e.value, scale);
      Associate(miss.1, e.value, scale);
    }
  }

  /** For every other length the protocol does not get through: the prover fails or panics, or its proof
      is refused for its length. */
  lemma OtherLengthsFail(curve: Curve, n: Sizes, pp: PublicParameters, x: Instance, w: Witness, r: Randomness, t: State)
    requires Sized(n, pp, x, w, r) && forall k: nat :: k > 0 ==> n.l * n.d0 != Pow2(k)
    ensures var proved := ProveCombined(curve, n, pp, x, w, r, t).0;
            proved.Returns? ==> VerifyCombined(curve, pp, x, proved.value, t).0 == Fails
  {
    hide Dot, Stretch, Aggregate, CommitmentFromRandom, PowersOfX, ComputeE, CompDLEq.Prove;
    if ProveCombined(curve, n, pp, x, w, r, t).0.Returns? {
      var powers, t1 := PowersOfX(curve, x, t).0.value, PowersOfX(curve, x, t).1;
      var cm := CommitmentFromRandom(pp, powers, r);
      var e, t2 := ComputeE(curve, cm, t1).0.value, ComputeE(curve, cm, t1).1;
      var proof := ProofWithAssignment(n, pp, x, w, r, cm, powers, e);
      OddLength(curve, PrepareForCompDLEq(pp, x, proof, powers, e).0, proof.z, t2);
    }
  }

  lemma OddLength(curve: Curve, pp: CompDLEq.PublicParameters, z: Vec, t: State)
    requires |pp.g| == |pp.gHat| == |z| && forall k: nat :: k > 0 ==> |z| != Pow2(k)
    ensures var proved := CompDLEq.Prove(curve, pp, z, t).0;
            proved.Returns? ==> |proved.value.z| != 2
  {
    var size := CompDLEq.RescaleSize(|z|);
    assert Pow2(0) == 1 && Pow2(1) == 2;
    if |z| > 2 {
      var j: nat :| size == Pow2(j);
      assert j == 0 || |z| != Pow2(j);
    } else {
      assert |z| < 2;
      assert CompDLEq.NextPow2(|z|, 0) == 1;
    }
  }

  /** Nor does a compressed proof: whatever one valid witness gives, every other one gives with some other
      randomness, commitments of the rounds included. */
  lemma WitnessStaysHidden(curve: Curve, n: Sizes, pp: PublicParameters, x: Instance, w: Witness, w': Witness,
                           r: Randomness, t: State) returns (r': Randomness)
    requires Sized(n, pp, x, w, r) && Sized(n, pp, x, w', r)
    requires ValidWitness(n, pp, x, w) && ValidWitness(n, pp, x, w')
    ensures Sized(n, pp, x, w', r')
    ensures var (p, end) := ProveCombined(curve, n, pp, x, w, r, t);
            var (p', end') := ProveCombined(curve, n, pp, x, w', r', t);
            && end == end'
            && (if p.Returns? then
                  p'.Returns? && p'.value.commitments == p.value.commitments && SameProof(p.value.ace, p'.value.ace)
                else p' == p)
  {
    hide PowersOfX, ComputeE, Respond, WeightedSum, CommitmentFromRandom, ValidWitness, Shifted, Stretch;
    hide CompDLEq.Prove;
    r' := r;
    var (powers, t1) := PowersOfX(curve, x, t);
    if powers.Some? {
      var cm := CommitmentFromRandom(pp, powers.value, r);
      var e := ComputeE(curve, cm, t1).0;
      var shift := if e.Some? then e.value else 0;
      r' := Shifted(n, pp, x, w, w', r, powers.value, shift);
      ShiftedProof(n, pp, x, w, w', r, powers.value, shift);
      SameCommitment(curve, cm, CommitmentFromRandom(pp, powers.value, r'), t1);
    }
  }
}
