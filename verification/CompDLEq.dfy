/** The halving argument: a proof that one short vector opens two long inner products. The prover
    halves generators and witness once per round; the verifier folds the generators in one shot. */
module CompDLEq {
  import opened Frame
  import opened Group
  import opened Transcript
  import opened Words
  import opened Wrappers

  datatype PublicParameters = PublicParameters(g: Vec, gHat: Vec)

  datatype Instance = Instance(y: int, yHat: int)

  datatype Commitment = Commitment(left: int, right: int, leftHat: int, rightHat: int)

  datatype Proof = Proof(commitments: seq<Commitment>, z: Vec)

  // One round

  /** Both halves of the generators, the first one scaled. */
  function Halve(g: Vec, c: int): (r: Vec)
    ensures |r| == |g| / 2
  {
    var mid := |g| / 2;
    seq(mid, i requires 0 <= i < mid => g[i] * c + g[mid + i])
  }

  function UpdateParameters(pp: PublicParameters, c: int): PublicParameters {
    PublicParameters(Halve(pp.g, c), Halve(pp.gHat, c))
  }

  function UpdateWitness(z: Vec, c: int): (r: Vec)
    ensures |r| == |z| / 2
  {
    var mid := |z| / 2;
    seq(mid, i requires 0 <= i < mid => z[i] + c * z[mid + i])
  }

  function UpdateInstance(x: Instance, cm: Commitment, c: int): Instance {
    Instance(cm.left + x.y * c + cm.right * (c * c), cm.leftHat + x.yHat * c + cm.rightHat * (c * c))
  }

  function DepthCommitment(pp: PublicParameters, z: Vec): Commitment
    requires |pp.g| == |z| && |pp.gHat| == |z|
  {
    var mid := |z| / 2;
    Commitment(Dot(pp.g[mid..], z[..mid]), Dot(pp.g[..mid], z[mid..]),
               Dot(pp.gHat[mid..], z[..mid]), Dot(pp.gHat[..mid], z[mid..]))
  }

  function Points(cm: Commitment): Vec {
    [cm.left, cm.right, cm.leftHat, cm.rightHat]
  }

  /** No challenge, but a panic, when one of the points is at infinity. */
  function ComputeChallenge(curve: Curve, cm: Commitment, t: State): (Option<int>, State) {
    DrawFrom(curve, t, COMMITMENTS, Points(cm), PointsBytes(curve, Points(cm)))
  }

  // The rounds of prover and verifier

  /** What `create_proof` returns, an error for a length mismatch, and the transcript it leaves. */
  function Rounds(curve: Curve, pp: PublicParameters, z: Vec, t: State): (Outcome<Proof>, State)
    requires |pp.g| == |pp.gHat|
    decreases |pp.g|
  {
    if |pp.g| <= 2 then (Returns(Proof([], z)), t)
    else if |z| != |pp.g| then (Fails, t)
    else
      var cm := DepthCommitment(pp, z);
      match ComputeChallenge(curve, cm, t)
      case (None, t') => (Panics, t')
      case (Some(c), t') =>
        var (rest, end) := Rounds(curve, UpdateParameters(pp, c), UpdateWitness(z, c), t');
        (WithFirst([cm], rest), end)
  }

  function WithFirst(cms: seq<Commitment>, rest: Outcome<Proof>): Outcome<Proof> {
    if rest.Returns? then Returns(rest.value.(commitments := cms + rest.value.commitments)) else rest
  }

  function RescaleSize(n: nat): (r: nat)
    ensures r >= n && exists k :: r == Pow2(k)
  {
    NextPow2(n, 0)
  }

  function NextPow2(n: nat, k: nat): (r: nat)
    ensures r >= n && exists j :: r == Pow2(j)
    decreases if n < Pow2(k) then 0 else n - Pow2(k) + 1
  {
    if n <= Pow2(k) then Pow2(k) else NextPow2(n, k + 1)
  }

  /** The witness, padded with zeros to a power of two. */
  function PrepareWitness(z: Vec): Vec {
    z + seq(RescaleSize(|z|) - |z|, _ => 0)
  }

  function Prove(curve: Curve, pp: PublicParameters, z: Vec, t: State): (Outcome<Proof>, State) {
    if |pp.g| != |pp.gHat| then (Fails, t) else Rounds(curve, pp, PrepareWitness(z), t)
  }

  method DrawRound(cm: Commitment, transcript: SHA3Base) returns (challenge: Option<int>)
    modifies transcript
    ensures (challenge, transcript.Value()) == ComputeChallenge(transcript.curve, cm, old(transcript.Value()))
  {
    challenge := DrawChallenge(transcript, COMMITMENTS, Points(cm), PointsBytes(transcript.curve, Points(cm)));
  }

  /** `whole` is `rest` with the commitments `done` put in front. */
  predicate Continues(whole: (Outcome<Proof>, State), done: seq<Commitment>, rest: (Outcome<Proof>, State)) {
    whole == (WithFirst(done, rest.0), rest.1)
  }

  lemma ContinuesNext(curve: Curve, pp: PublicParameters, z: Vec, t: State,
                      whole: (Outcome<Proof>, State), done: seq<Commitment>)
    requires |pp.g| == |pp.gHat| == |z| > 2 && Continues(whole, done, Rounds(curve, pp, z, t))
    ensures var cm := DepthCommitment(pp, z);
            match ComputeChallenge(curve, cm, t)
            case (None, t') => whole == (Panics, t')
            case (Some(c), t') =>
              Continues(whole, done + [cm], Rounds(curve, UpdateParameters(pp, c), UpdateWitness(z, c), t'))
  {
    hide DepthCommitment, ComputeChallenge, UpdateWitness, Halve;
    var cm := DepthCommitment(pp, z);
    var (c, t') := ComputeChallenge(curve, cm, t);
    if c.Some? {
      var rest := Rounds(curve, UpdateParameters(pp, c.value), UpdateWitness(z, c.value), t').0;
      if rest.Returns? {
        assert done + ([cm] + rest.value.commitments) == done + [cm] + rest.value.commitments;
      }
    }
  }

  method CreateProof(pp0: PublicParameters, x0: Instance, z0: Vec, transcript: SHA3Base) returns (r: Outcome<Proof>)
    modifies transcript
    ensures (r, transcript.Value()) == Prove(transcript.curve, pp0, z0, old(transcript.Value()))
  {
    if |pp0.g| != |pp0.gHat| {
      return Fails;
    }
    hide DepthCommitment, ComputeChallenge, UpdateWitness, Halve, UpdateInstance, PrepareWitness;
    var commitments: seq<Commitment> := [];
    var pp, x, z := pp0, x0, PrepareWitness(z0);
    ghost var whole := Rounds(transcript.curve, pp, z, transcript.Value());
    if whole.0.Returns? { assert [] + whole.0.value.commitments == whole.0.value.commitments; }
    while |pp.g| > 2
      invariant |pp.g| == |pp.gHat|
      invariant Continues(whole, commitments, Rounds(transcript.curve, pp, z, transcript.Value()))
      decreases |pp.g|
    {
      if |z| != |pp.g| || |z| != |pp.gHat| {
        return Fails;
      }
      ContinuesNext(transcript.curve, pp, z, transcript.Value(), whole, commitments);
      var cm := DepthCommitment(pp, z);
      var challenge := DrawRound(cm, transcript);
      if challenge.None? {
        return Panics;
      }
      pp := UpdateParameters(pp, challenge.value);
      x := UpdateInstance(x, cm, challenge.value);
      z := UpdateWitness(z, challenge.value);
      commitments := commitments + [cm];
    }
    assert commitments + [] == commitments;
    return Returns(Proof(commitments, z));
  }

  /** The verifier's challenges, one per commitment. */
  function Challenges(curve: Curve, cms: seq<Commitment>, t: State): (r: (Option<Vec>, State))
    ensures r.0.Some? ==> |r.0.value| == |cms|
  {
    if cms == [] then (Some([]), t)
    else
      match ComputeChallenge(curve, cms[0], t)
      case (None, t') => (None, t')
      case (Some(c), t') =>
        match Challenges(curve, cms[1..], t')
        case (None, end) => (None, end)
        case (Some(cs), end) => (Some([c] + cs), end)
  }

  function UpdateInstances(x: Instance, cms: seq<Commitment>, cs: Vec): Instance
    requires |cms| == |cs|
    decreases |cms|
  {
    if cms == [] then x else UpdateInstances(UpdateInstance(x, cms[0], cs[0]), cms[1..], cs[1..])
  }

  // The one-shot fold

  /** The factor of each pair of generators: halving, written as a table. */
  function Factors(cs: Vec): (r: Vec)
    ensures |r| == Pow2(|cs|)
  {
    if cs == [] then [1] else Scale(cs[0], Factors(cs[1..])) + Factors(cs[1..])
  }

  /** The product of the challenges selected by the bits of `b`, the last challenge by bit 0. */
  function Selected(cs: Vec, b: nat): int
    requires b < Pow2(|cs|)
  {
    if b == 0 then 1
    else (if b % 2 == 1 then cs[|cs| - 1] else 1) * Selected(cs[..|cs| - 1], b / 2)
  }

  /** The loop over the bits of `b`, and the index it leaves: one below zero exactly when the top bit is
      set or there are no challenges, where the unsigned index of the code wraps around. */
  method BitProduct(cs: Vec, b0: nat) returns (k: int, last: int)
    requires b0 < Pow2(|cs|)
    ensures k == Selected(cs, b0)
    ensures -1 <= last < |cs| && (last == -1 <==> cs == [] || b0 >= Pow2(|cs| - 1))
  {
    k := 1;
    var b: nat, i: int := b0, |cs| - 1;
    assert cs[..i + 1] == cs;
    while b > 0
      invariant -1 <= i < |cs| && b < Pow2(i + 1)
      invariant k * Selected(cs[..i + 1], b) == Selected(cs, b0)
      invariant if i == -1 then cs == [] || b0 >= Pow2(|cs| - 1) else (b >= Pow2(i) <==> b0 >= Pow2(|cs| - 1))
      decreases b
    {
      assert cs[..i + 1][..i] == cs[..i];
      Associate(k, if b % 2 == 1 then cs[i] else 1, Selected(cs[..i], b / 2));
      if b % 2 == 1 {
        k := k * cs[i];
      }
      b := b / 2;
      i := i - 1;
    }
    last := i;
  }

  method FactorTable(cs: Vec) returns (arr: Vec)
    ensures arr == Factors(cs)
  {
    var n := Pow2(|cs|);
    arr := [];
    for b := 0 to n
      invariant |arr| == b && forall j :: 0 <= j < b ==> arr[j] == Selected(cs, j)
    {
      var k, _ := BitProduct(cs, b);
      arr := arr + [k];
    }
    arr := Reversed(arr);
    forall j | 0 <= j < n ensures arr[j] == Factors(cs)[j] {
      FactorsAreSelected(cs, j);
    }
  }

  function Reversed(x: Vec): (r: Vec)
    ensures |r| == |x|
  {
    seq(|x|, i requires 0 <= i < |x| => x[|x| - 1 - i])
  }

  /** A product over bits can also be taken from the top bit down. */
  lemma {:induction false} SelectedFromTheTop(cs: Vec, b: nat)
    requires cs != [] && b < Pow2(|cs|)
    ensures var half := Pow2(|cs| - 1);
            && b % half < half == Pow2(|cs[1..]|)
            && Selected(cs, b) == (if b < half then 1 else cs[0]) * Selected(cs[1..], b % half)
  {
    var n, half := |cs|, Pow2(|cs| - 1);
    if n == 1 {
      assert half == 1 && Selected(cs[1..], 0) == 1;
      assert b == 0 || b == 1;
      assert Selected(cs[..0], 0) == 1;
    } else {
      var quarter := Pow2(n - 2);
      assert half == 2 * quarter;
      assert cs[..n - 1][1..] == cs[1..][..n - 2];
      SelectedFromTheTop(cs[..n - 1], b / 2);
      HalfModulo(b, quarter);
      SelectedUnfold(cs, b);
      SelectedUnfold(cs[1..], b % half);
      var low, top := if b % 2 == 1 then cs[n - 1] else 1, if b < half then 1 else cs[0];
      Associate(low, top, Selected(cs[1..][..n - 2], (b % half) / 2));
      Associate(top, low, Selected(cs[1..][..n - 2], (b % half) / 2));
    }
  }

  lemma SelectedUnfold(cs: Vec, b: nat)
    requires cs != [] && b < Pow2(|cs|)
    ensures b / 2 < Pow2(|cs| - 1)
    ensures Selected(cs, b) == (if b % 2 == 1 then cs[|cs| - 1] else 1) * Selected(cs[..|cs| - 1], b / 2)
  {
  }

  lemma HalfModulo(b: nat, q: nat)
    requires 0 < q && b < 4 * q
    ensures (b % (2 * q)) % 2 == b % 2 && (b % (2 * q)) / 2 == (b / 2) % q
    ensures b < 2 * q <==> b / 2 < q
  {
    if b < 2 * q {
      SmallModulo(b, 2 * q);
      SmallModulo(b / 2, q);
    } else {
      ModuloLap(b - 2 * q, 2 * q);
      SmallModulo(b - 2 * q, 2 * q);
      ModuloLap(b / 2 - q, q);
      SmallModulo(b / 2 - q, q);
    }
  }

  lemma FactorsAt(cs: Vec, j: nat)
    requires cs != [] && j < Pow2(|cs|)
    ensures var half := Pow2(|cs| - 1);
            Factors(cs)[j] == if j < half then cs[0] * Factors(cs[1..])[j] else Factors(cs[1..])[j - half]
  {
  }

  lemma FactorsOfNone()
    ensures Factors([])[0] == 1 == Selected([], 0)
  {
  }

  lemma TopBit(half: nat, j: nat)
    requires j < 2 * half
    ensures j < half ==> 2 * half - 1 - j >= half && (2 * half - 1 - j) % half == half - 1 - j
    ensures j >= half ==> 2 * half - 1 - j < half && (2 * half - 1 - j) % half == half - 1 - (j - half)
  {
    if j < half {
      ModuloLap(half - 1 - j, half);
      SmallModulo(half - 1 - j, half);
    } else {
      SmallModulo(2 * half - 1 - j, half);
    }
  }

  /** The reversed bit-product table is the halving table. */
  lemma {:induction false} FactorsAreSelected(cs: Vec, j: nat)
    requires j < Pow2(|cs|)
    ensures Factors(cs)[j] == Selected(cs, Pow2(|cs|) - 1 - j)
  {
    hide Factors, Selected;
    if cs == [] {
      FactorsOfNone();
    } else {
      var half := Pow2(|cs| - 1);
      SelectedFromTheTop(cs, 2 * half - 1 - j);
      FactorsAt(cs, j);
      TopBit(half, j);
      FactorsAreSelected(cs[1..], if j < half then j else j - half);
    }
  }

  function Evens(g: Vec): (r: Vec)
    ensures |r| == |g| / 2
  {
    seq(|g| / 2, i requires 0 <= i < |g| / 2 => g[2 * i])
  }

  function Odds(g: Vec): (r: Vec)
    ensures |r| == |g| / 2
  {
    seq(|g| / 2, i requires 0 <= i < |g| / 2 => g[2 * i + 1])
  }

  /** One inner product for the even positions and one for the odd ones. */
  function Fold(g: Vec, factors: Vec): Vec {
    [Dot(Evens(g), factors), Dot(Odds(g), factors)]
  }

  /** Halving once per challenge. */
  function Iterate(g: Vec, cs: Vec): (r: Vec)
    decreases |cs|
  {
    if cs == [] then g else Iterate(Halve(g, cs[0]), cs[1..])
  }

  lemma HalveAt(g: Vec, c: int, i: nat)
    requires i < |g| / 2
    ensures Halve(g, c)[i] == c * g[i] + g[|g| / 2 + i]
  {
  }

  lemma EvensOfHalf(g: Vec, c: int, n: nat)
    requires |g| == 4 * n
    ensures Evens(Halve(g, c)) == Plus(Scale(c, Evens(g)[..n]), Evens(g)[n..])
  {
    hide Halve;
    forall i | 0 <= i < n ensures Evens(Halve(g, c))[i] == c * Evens(g)[i] + Evens(g)[n + i] {
      HalveAt(g, c, 2 * i);
    }
  }

  lemma OddsOfHalf(g: Vec, c: int, n: nat)
    requires |g| == 4 * n
    ensures Odds(Halve(g, c)) == Plus(Scale(c, Odds(g)[..n]), Odds(g)[n..])
  {
    hide Halve;
    forall i | 0 <= i < n ensures Odds(Halve(g, c))[i] == c * Odds(g)[i] + Odds(g)[n + i] {
      HalveAt(g, c, 2 * i + 1);
    }
  }

  lemma FoldHalf(v: Vec, f: Vec, c: int)
    requires |v| == 2 * |f|
    ensures Dot(v, Scale(c, f) + f) == Dot(Plus(Scale(c, v[..|f|]), v[|f|..]), f)
  {
    var n := |f|;
    assert v == v[..n] + v[n..];
    DotAppend(v[..n], Scale(c, f), v[n..], f);
    DotScale(v[..n], c, f);
    DotLinearLeft(c, v[..n], v[n..], f);
  }

  /** The one-shot fold is the iterated halving, for every power-of-two length and every list of
      challenges. */
  lemma {:induction false} FoldIsIteratedHalving(g: Vec, cs: Vec)
    requires |g| == Pow2(|cs| + 1)
    ensures Fold(g, Factors(cs)) == Iterate(g, cs)
    decreases |cs|
  {
    if cs == [] {
      assert Pow2(1) == 2 * Pow2(0);
      assert Evens(g) == [g[0]] && Odds(g) == [g[1]];
      assert Dot([g[0]], [1]) == g[0] && Dot([g[1]], [1]) == g[1];
      assert g == [g[0], g[1]];
    } else {
      var f := Factors(cs[1..]);
      assert |g| == 2 * Pow2(|cs|) == 4 * Pow2(|cs| - 1);
      EvensOfHalf(g, cs[0], Pow2(|cs| - 1));
      OddsOfHalf(g, cs[0], Pow2(|cs| - 1));
      FoldHalf(Evens(g), f, cs[0]);
      FoldHalf(Odds(g), f, cs[0]);
      FoldIsIteratedHalving(Halve(g, cs[0]), cs[1..]);
    }
  }

  // The verifier

  predicate Opens(g: Vec, z: Vec, y: int)
    requires |g| == |z| == 2
  {
    Same(y, g[0] * z[0] + g[1] * z[1])
  }

  /** `verify_proof`: the length checks, the instance after all rounds, the folded generators. */
  function Verify(curve: Curve, pp: PublicParameters, x: Instance, proof: Proof, t: State): (Outcome<bool>, State) {
    if |proof.z| != 2 || |pp.g| != |pp.gHat| then (Fails, t)
    else
      match Challenges(curve, proof.commitments, t)
      case (None, end) => (Panics, end)
      case (Some(cs), end) => (Decide(pp, x, proof, cs), end)
  }

  function Decide(pp: PublicParameters, x: Instance, proof: Proof, cs: Vec): Outcome<bool>
    requires |proof.z| == 2 && |pp.g| == |pp.gHat| && |cs| == |proof.commitments|
  {
    var last := UpdateInstances(x, proof.commitments, cs);
    if |pp.g| != 2 * Pow2(|cs|) then Panics
    else
      Returns(Opens(Fold(pp.g, Factors(cs)), proof.z, last.y) && Opens(Fold(pp.gHat, Factors(cs)), proof.z, last.yHat))
  }

  method ReplayRounds(x0: Instance, cms: seq<Commitment>, transcript: SHA3Base)
    returns (challenges: Option<Vec>, x: Instance)
    modifies transcript
    ensures (challenges, transcript.Value()) == Challenges(transcript.curve, cms, old(transcript.Value()))
    ensures challenges.Some? ==> x == UpdateInstances(x0, cms, challenges.value)
  {
    hide ComputeChallenge, UpdateInstance;
    x := x0;
    var drawn: Vec := [];
    ghost var (all, end) := Challenges(transcript.curve, cms, transcript.Value());
    assert cms[0..] == cms && (all.Some? ==> [] + all.value == all.value);
    for i := 0 to |cms|
      invariant |drawn| == i
      invariant var (rest, t) := Challenges(transcript.curve, cms[i..], transcript.Value());
                && end == t && (all.Some? <==> rest.Some?)
                && (rest.Some? ==>
                      && all.value == drawn + rest.value
                      && UpdateInstances(x0, cms, all.value) == UpdateInstances(x, cms[i..], rest.value))
    {
      assert cms[i..][1..] == cms[i + 1..];
      ghost var rest := Challenges(transcript.curve, cms[i..], transcript.Value()).0;
      var challenge := DrawRound(cms[i], transcript);
      if challenge.None? {
        return None, x;
      }
      if rest.Some? {
        assert drawn + rest.value == drawn + [challenge.value] + rest.value[1..];
      }
      drawn := drawn + [challenge.value];
      x := UpdateInstance(x, cms[i], challenge.value);
    }
    assert drawn + [] == drawn;
    challenges := Some(drawn);
  }

  method VerifyProof(pp: PublicParameters, x0: Instance, proof: Proof, transcript: SHA3Base) returns (r: Outcome<bool>)
    modifies transcript
    ensures (r, transcript.Value()) == Verify(transcript.curve, pp, x0, proof, old(transcript.Value()))
  {
    if |proof.z| != 2 || |pp.g| != |pp.gHat| {
      return Fails;
    }
    var challenges, x := ReplayRounds(x0, proof.commitments, transcript);
    if challenges.None? {
      return Panics;
    }
    hide Challenges, UpdateInstances, Evens, Odds, Opens, Factors;
    var factors := FactorTable(challenges.value);
    if |pp.g| != 2 * |factors| || |pp.gHat| != 2 * |factors| {
      return Panics;
    }
    var g, gHat := Fold(pp.g, factors), Fold(pp.gHat, factors);
    return Returns(Opens(g, proof.z, x.y) && Opens(gHat, proof.z, x.yHat));
  }

  /** No point of the commitments is at infinity. */
  predicate AllFinite(cms: seq<Commitment>) {
    forall i :: 0 <= i < |cms| ==> Finite(cms[i])
  }

  predicate Finite(cm: Commitment) {
    !Same(cm.left, 0) && !Same(cm.right, 0) && !Same(cm.leftHat, 0) && !Same(cm.rightHat, 0)
  }

  lemma ChallengeUnlessInfinite(curve: Curve, cm: Commitment, t: State)
    ensures ComputeChallenge(curve, cm, t).0.Some? <==> Finite(cm)
  {
    var ps := Points(cm);
    if !Finite(cm) {
      assert Infinity(ps[0]) || Infinity(ps[1]) || Infinity(ps[2]) || Infinity(ps[3]);
    }
  }

  lemma {:induction false} DrawnUnlessInfinite(curve: Curve, cms: seq<Commitment>, t: State)
    ensures Challenges(curve, cms, t).0.Some? <==> AllFinite(cms)
  {
    if cms != [] {
      hide ComputeChallenge, Finite;
      ChallengeUnlessInfinite(curve, cms[0], t);
      assert AllFinite(cms) <==> Finite(cms[0]) && AllFinite(cms[1..]) by {
        assert forall i :: 1 <= i < |cms| ==> cms[i] == cms[1..][i - 1];
      }
      DrawnUnlessInfinite(curve, cms[1..], ComputeChallenge(curve, cms[0], t).1);
    }
  }

  /** The verifier panics exactly on a proof of the right response length that holds a point at infinity
      or does not have one commitment per halving. */
  lemma VerifierPanicsExactlyWhen(curve: Curve, pp: PublicParameters, x: Instance, proof: Proof, t: State)
    ensures Verify(curve, pp, x, proof, t).0.Panics? <==>
            && |proof.z| == 2 && |pp.g| == |pp.gHat|
            && (!AllFinite(proof.commitments) || |pp.g| != 2 * Pow2(|proof.commitments|))
    ensures Verify(curve, pp, x, proof, t).0.Fails? <==> |proof.z| != 2 || |pp.g| != |pp.gHat|
  {
    DrawnUnlessInfinite(curve, proof.commitments, t);
  }

  // Completeness

  lemma RoundAsVectors(g: Vec, z: Vec, c: int, mid: nat)
    requires |g| == |z| == 2 * mid
    ensures Halve(g, c) == Plus(Scale(c, g[..mid]), g[mid..])
    ensures UpdateWitness(z, c) == Plus(z[..mid], Scale(c, z[mid..]))
  {
    hide Halve;
    forall i | 0 <= i < mid ensures Halve(g, c)[i] == c * g[..mid][i] + g[mid..][i] {
      HalveAt(g, c, i);
    }
  }

  /** One round turns an inner product into the next one, whatever the witness. */
  lemma RoundKeepsTheProduct(g: Vec, z: Vec, c: int, mid: nat)
    requires |g| == |z| == 2 * mid
    ensures Dot(Halve(g, c), UpdateWitness(z, c))
         == Dot(g[mid..], z[..mid]) + Dot(g, z) * c + Dot(g[..mid], z[mid..]) * (c * c)
  {
    hide Dot, Plus, Scale, Halve, UpdateWitness;
    RoundAsVectors(g, z, c, mid);
    var gl, gr, zl, zr := g[..mid], g[mid..], z[..mid], z[mid..];
    DotLinearLeft(c, gl, gr, Plus(zl, Scale(c, zr)));
    DotLinear(gl, zl, c, zr);
    DotLinear(gr, zl, c, zr);
    DotSplit(g, z, mid);
    Expand(c, Dot(gl, zl), Dot(gl, zr), Dot(gr, zl), Dot(gr, zr));
  }

  lemma Expand(c: int, ll: int, lr: int, rl: int, rr: int)
    ensures c * (ll + c * lr) + (rl + c * rr) == rl + (ll + rr) * c + lr * (c * c)
  {
    assert c * (ll + c * lr) == c * ll + c * (c * lr);
    assert c * (c * lr) == lr * (c * c);
  }

  function Product(cs: Vec): int {
    if cs == [] then 1 else cs[0] * Product(cs[1..])
  }

  /** By how much an instance misses a witness. */
  function Gap(pp: PublicParameters, x: Instance, z: Vec): (int, int) {
    (x.y - Dot(pp.g, z), x.yHat - Dot(pp.gHat, z))
  }

  lemma RoundScalesTheGap(pp: PublicParameters, x: Instance, z: Vec, c: int)
    requires |pp.g| == |pp.gHat| == |z| && |z| % 2 == 0
    ensures Gap(UpdateParameters(pp, c), UpdateInstance(x, DepthCommitment(pp, z), c), UpdateWitness(z, c))
         == (Gap(pp, x, z).0 * c, Gap(pp, x, z).1 * c)
  {
    hide Dot, Halve, UpdateWitness;
    RoundKeepsTheProduct(pp.g, z, c, |z| / 2);
    RoundKeepsTheProduct(pp.gHat, z, c, |z| / 2);
    SubMul(x.y, Dot(pp.g, z), c);
    SubMul(x.yHat, Dot(pp.gHat, z), c);
  }

  lemma SubMul(x: int, y: int, c: int)
    ensures (x - y) * c == x * c - y * c
  {
  }

  // What the challenges bind

  predicate SamePoints(a: Commitment, b: Commitment) {
    Same(a.left, b.left) && Same(a.right, b.right) && Same(a.leftHat, b.leftHat) && Same(a.rightHat, b.rightHat)
  }

  /** The bytes hashed for the challenge of round `i`. */
  function RoundInput(curve: Curve, cms: seq<Commitment>, t: State, i: nat): Bytes
    requires i < |cms|
    decreases i
  {
    if i > 0 then RoundInput(curve, cms[1..], ComputeChallenge(curve, cms[0], t).1, i - 1)
    else
      var cm := cms[0];
      DrawnFrom(t, Ascii("commitments"), PointsBytes(curve, [cm.left, cm.right, cm.leftHat, cm.rightHat]))
  }

  lemma ChallengeBinds(curve: Curve, a: Commitment, b: Commitment, t: State)
    requires CoordinatesIdentify(curve)
    requires ComputeChallenge(curve, a, t).0.Some? && ComputeChallenge(curve, a, t).0 == ComputeChallenge(curve, b, t).0
    ensures ComputeChallenge(curve, a, t).1 == ComputeChallenge(curve, b, t).1
    ensures SamePoints(a, b)
         || ScalarCollision(curve.keccak, RoundInput(curve, [a], t, 0), RoundInput(curve, [b], t, 0))
  {
    LabelsAreAscii();
    var ps, qs := [a.left, a.right, a.leftHat, a.rightHat], [b.left, b.right, b.leftHat, b.rightHat];
    ItemsBind(curve, t, COMMITMENTS, PointsBytes(curve, ps), PointsBytes(curve, qs));
    if PointsBytes(curve, ps) == PointsBytes(curve, qs) {
      PointsBytesBind(curve, ps, qs);
      assert Same(ps[0], qs[0]) && Same(ps[1], qs[1]) && Same(ps[2], qs[2]) && Same(ps[3], qs[3]);
    }
  }

  /** Equal challenges, drawn from one transcript, bind the commitments: round by round these are the same
      four group elements, or what was hashed for them is a collision. */
  lemma {:induction false} ChallengesBind(curve: Curve, cms: seq<Commitment>, cms': seq<Commitment>, t: State)
    requires CoordinatesIdentify(curve)
    requires Challenges(curve, cms, t).0.Some? && Challenges(curve, cms, t).0 == Challenges(curve, cms', t).0
    ensures |cms| == |cms'|
    ensures forall i :: 0 <= i < |cms| ==>
              || SamePoints(cms[i], cms'[i])
              || ScalarCollision(curve.keccak, RoundInput(curve, cms, t, i), RoundInput(curve, cms', t, i))
  {
    if cms != [] {
      hide ComputeChallenge, CoordinatesIdentify, SamePoints, ScalarCollision, PointsBytes;
      var drawn, drawn' := Challenges(curve, cms, t).0.value, Challenges(curve, cms', t).0.value;
      assert drawn[0] == drawn'[0] && drawn[1..] == drawn'[1..];
      ChallengeBinds(curve, cms[0], cms'[0], t);
      var next := ComputeChallenge(curve, cms[0], t).1;
      assert Challenges(curve, cms[1..], next).0.value == drawn[1..];
      ChallengesBind(curve, cms[1..], cms'[1..], next);
      forall i | 0 <= i < |cms|
        ensures SamePoints(cms[i], cms'[i])
             || ScalarCollision(curve.keccak, RoundInput(curve, cms, t, i), RoundInput(curve, cms', t, i))
      {
        if i > 0 {
          assert cms[i] == cms[1..][i - 1] && cms'[i] == cms'[1..][i - 1];
        }
      }
    }
  }

  /** The commitments the prover computes, up to the first that has a point at infinity. */
  function Computed(curve: Curve, pp: PublicParameters, z: Vec, t: State): seq<Commitment>
    requires |pp.g| == |pp.gHat|
    decreases |pp.g|
  {
    if |pp.g| <= 2 || |z| != |pp.g| then []
    else
      var cm := DepthCommitment(pp, z);
      match ComputeChallenge(curve, cm, t)
      case (None, _) => [cm]
      case (Some(c), t') => [cm] + Computed(curve, UpdateParameters(pp, c), UpdateWitness(z, c), t')
  }

  lemma FiniteFirst(cm: Commitment, cms: seq<Commitment>)
    ensures AllFinite([cm] + cms) <==> Finite(cm) && AllFinite(cms)
  {
    hide Finite;
    assert forall i :: 0 <= i < |cms| ==> ([cm] + cms)[i + 1] == cms[i];
    assert ([cm] + cms)[0] == cm;
  }

  /** All rounds. The prover panics exactly at a commitment with a point at infinity. Otherwise prover
      and verifier draw the same challenges and leave the same transcript, there are exactly `k` rounds,
      the witness ends with two entries, and the gaps of the instance are scaled by the product of the
      challenges. */
  lemma {:induction false} RoundsScaleTheGap(curve: Curve, pp: PublicParameters, x: Instance, z: Vec, t: State, k: nat)
    requires |pp.g| == |pp.gHat| == |z| == Pow2(k + 1)
    ensures var (proved, end) := Rounds(curve, pp, z, t);
            if !AllFinite(Computed(curve, pp, z, t)) then proved.Panics?
            else
              && proved.Returns? && proved.value.commitments == Computed(curve, pp, z, t)
              && |proved.value.commitments| == k && |proved.value.z| == 2
              && var (drawn, end') := Challenges(curve, proved.value.commitments, t);
                 && drawn.Some? && end == end'
                 && var cs := drawn.value;
                    Gap(PublicParameters(Iterate(pp.g, cs), Iterate(pp.gHat, cs)),
                        UpdateInstances(x, proved.value.commitments, cs), proved.value.z)
                    == (Gap(pp, x, z).0 * Product(cs), Gap(pp, x, z).1 * Product(cs))
    decreases k
  {
    hide Gap, DepthCommitment, ComputeChallenge, UpdateInstance, Halve, UpdateWitness, AllFinite, Finite;
    if k == 0 {
      assert Pow2(1) == 2 * Pow2(0);
      NoneIsFinite();
    } else {
      assert Pow2(k + 1) == 2 * Pow2(k) && Pow2(k) == 2 * Pow2(k - 1);
      var cm := DepthCommitment(pp, z);
      var (drawn, t') := ComputeChallenge(curve, cm, t);
      ChallengeUnlessInfinite(curve, cm, t);
      if drawn.None? {
        FiniteFirst(cm, []);
        assert [cm] + [] == [cm];
      } else {
        var c := drawn.value;
        var pp', x', z' := UpdateParameters(pp, c), UpdateInstance(x, cm, c), UpdateWitness(z, c);
        RoundScalesTheGap(pp, x, z, c);
        RoundsScaleTheGap(curve, pp', x', z', t', k - 1);
        FiniteFirst(cm, Computed(curve, pp', z', t'));
        var rest := Rounds(curve, pp', z', t').0;
        if rest.Returns? {
          var cs := Challenges(curve, rest.value.commitments, t').0.value;
          assert ([cm] + rest.value.commitments)[1..] == rest.value.commitments && ([c] + cs)[1..] == cs;
          Associate(Gap(pp, x, z).0, c, Product(cs));
          Associate(Gap(pp, x, z).1, c, Product(cs));
        }
      }
    }
  }

  lemma NoneIsFinite()
    ensures AllFinite([])
  {
  }

  /** The exact verdict on a proof honestly computed from a witness that pads to the generators' length: there is
      none when a commitment has a point at infinity, for then the prover panics; otherwise it is accepted
      if and only if both gaps of the instance, times the product of the challenges, vanish. The gaps are
      those of the witness itself: the padding adds nothing. */
  lemma VerdictOnHonestProof(curve: Curve, pp: PublicParameters, x: Instance, z: Vec, t: State, k: nat)
    requires |pp.g| == |pp.gHat| == Pow2(k + 1) && Pow2(k) < |z| <= Pow2(k + 1)
    ensures var (proved, end) := Prove(curve, pp, z, t);
            if !AllFinite(Computed(curve, pp, PrepareWitness(z), t)) then proved.Panics?
            else
              && proved.Returns? && |proved.value.commitments| == k && |proved.value.z| == 2
              && var drawn := Challenges(curve, proved.value.commitments, t).0;
                 && drawn.Some?
                 && var product := Product(drawn.value);
                    Verify(curve, pp, x, proved.value, t)
                    == (Returns(Same(Gap(pp, x, z).0 * product, 0) && Same(Gap(pp, x, z).1 * product, 0)), end)
  {
    hide Rounds, Challenges, UpdateInstances, Iterate, Factors, PrepareWitness, Same, Product, Dot, Computed, AllFinite;
    Padded(z, k);
    PaddingAddsNothing(pp.g, z);
    PaddingAddsNothing(pp.gHat, z);
    RoundsScaleTheGap(curve, pp, x, PrepareWitness(z), t, k);
    var proved := Rounds(curve, pp, PrepareWitness(z), t).0;
    if proved.Returns? {
      var proof := proved.value;
      var cs := Challenges(curve, proof.commitments, t).0.value;
      FoldIsIteratedHalving(pp.g, cs);
      FoldIsIteratedHalving(pp.gHat, cs);
      DotOfTwo(Fold(pp.g, Factors(cs)), proof.z);
      DotOfTwo(Fold(pp.gHat, Factors(cs)), proof.z);
      var last := UpdateInstances(x, proof.commitments, cs);
      SameGap(last.y, Dot(Fold(pp.g, Factors(cs)), proof.z));
      SameGap(last.yHat, Dot(Fold(pp.gHat, Factors(cs)), proof.z));
    }
  }

  /** A witness longer than half a power of two is padded to that power, and not at all when it has that
      length. */
  lemma Padded(z: Vec, k: nat)
    requires Pow2(k) < |z| <= Pow2(k + 1)
    ensures RescaleSize(|z|) == |PrepareWitness(z)| == Pow2(k + 1) && PrepareWitness(z)[..|z|] == z
    ensures |z| == Pow2(k + 1) ==> PrepareWitness(z) == z
  {
    LeastPower(|z|, k, 0);
  }

  lemma {:induction false} LeastPower(n: nat, k: nat, j: nat)
    requires Pow2(k) < n <= Pow2(k + 1) && j <= k + 1
    ensures NextPow2(n, j) == Pow2(k + 1)
    decreases k + 1 - j
  {
    if j <= k {
      Pow2Order(j, k);
      LeastPower(n, k, j + 1);
    }
  }

  lemma PaddingAddsNothing(g: Vec, z: Vec)
    ensures Dot(g, PrepareWitness(z)) == Dot(g, z)
  {
    DotThenZeros(g, z, RescaleSize(|z|) - |z|);
  }

  lemma {:induction false} DotThenZeros(g: Vec, z: Vec, n: nat)
    ensures Dot(g, z + seq(n, _ => 0)) == Dot(g, z)
  {
    if z == [] {
      assert z + seq(n, _ => 0) == Zeros(n);
      DotZeros(g, n);
    } else if g != [] {
      assert (z + seq(n, _ => 0))[1..] == z[1..] + seq(n, _ => 0);
      DotThenZeros(g[1..], z[1..], n);
    }
  }

  /** The prover fails exactly when the generators' lengths differ, or there is a round to do and the padded
      witness has another length than they. */
  lemma ProverFailsExactlyWhen(curve: Curve, pp: PublicParameters, z: Vec, t: State)
    ensures Prove(curve, pp, z, t).0.Fails? <==>
            |pp.g| != |pp.gHat| || (|pp.g| > 2 && RescaleSize(|z|) != |pp.g|)
  {
    if |pp.g| == |pp.gHat| == RescaleSize(|z|) && |pp.g| > 2 {
      var j: nat :| RescaleSize(|z|) == Pow2(j);
      assert Pow2(0) == 1 && Pow2(1) == 2;
      RoundsScaleTheGap(curve, pp, Instance(0, 0), PrepareWitness(z), t, j - 1);
    }
  }

  lemma {:induction false} Pow2Order(j: nat, k: nat)
    requires j <= k
    ensures Pow2(j) <= Pow2(k) && (j < k ==> Pow2(j) < Pow2(k))
  {
    if j < k { Pow2Order(j, k - 1); }
  }

  /** A proof for a true instance is always accepted, if there is one: the prover panics exactly when it
      computes a point at infinity. */
  lemma Completeness(curve: Curve, pp: PublicParameters, x: Instance, z: Vec, t: State, k: nat)
    requires |pp.g| == |pp.gHat| == Pow2(k + 1) && Pow2(k) < |z| <= Pow2(k + 1)
    requires Same(x.y, Dot(pp.g, z)) && Same(x.yHat, Dot(pp.gHat, z))
    ensures var (proved, end) := Prove(curve, pp, z, t);
            if !AllFinite(Computed(curve, pp, PrepareWitness(z), t)) then proved.Panics?
            else proved.Returns? && Verify(curve, pp, x, proved.value, t) == (Returns(true), end)
  {
    hide Verify, Prove, Challenges, Dot, Product, Computed, AllFinite;
    VerdictOnHonestProof(curve, pp, x, z, t, k);
    SameGap(x.y, Dot(pp.g, z));
    SameGap(x.yHat, Dot(pp.gHat, z));
    var proved := Prove(curve, pp, z, t).0;
    if proved.Returns? {
      var product := Product(Challenges(curve, proved.value.commitments, t).0.value);
      SameMul(Gap(pp, x, z).0, 0, product);
      SameMul(Gap(pp, x, z).1, 0, product);
    }
  }

  /** So completeness has exceptions: with the zero witness the true instance of two points at infinity
      has no proof, whatever the generators. */
  lemma TrueInstanceWithoutProof(curve: Curve, pp: PublicParameters, t: State, k: nat)
    requires k >= 1 && |pp.g| == |pp.gHat| == Pow2(k + 1)
    ensures var z, x := Zeros(Pow2(k + 1)), Instance(0, 0);
            && Same(x.y, Dot(pp.g, z)) && Same(x.yHat, Dot(pp.gHat, z))
            && Prove(curve, pp, z, t) == (Panics, t)
  {
    var n, z := Pow2(k + 1), Zeros(Pow2(k + 1));
    assert n == 2 * Pow2(k) && Pow2(k) == 2 * Pow2(k - 1);
    DotZeros(pp.g, n);
    DotZeros(pp.gHat, n);
    Padded(z, k);
    assert z[..n / 2] == Zeros(n / 2);
    DotZeros(pp.g[n / 2..], n / 2);
    assert Infinity(Points(DepthCommitment(pp, z))[0]);
  }
}
