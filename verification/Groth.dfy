/** ccGroth16: a Groth16 proof with an external commitment to a slice of the witness. */
module Groth {
  import opened Group
  import opened Wrappers
  import Pedersen

  datatype CommittingKey = CommittingKey(batch: Vec, proofDependent: Vec, gammaEta: int, deltaEta: int)

  datatype VerifyingKey = VerifyingKey(ck: CommittingKey, alpha: int, beta2: int, gamma2: int, delta2: int,
                                       gammaAbc: Vec)

  datatype ProvingKey = ProvingKey(
    vk: VerifyingKey, beta1: int, delta1: int, aQuery: Vec, bQuery1: Vec, bQuery2: Vec, hQuery: Vec, lQuery: Vec)

  datatype Proof = Proof(a: int, b: int, c: int, d: int)

  datatype Opened = Opened(cm: int, opening: int)

  /** The setup's secrets and its two generators. */
  datatype Trapdoor = Trapdoor(alpha: int, beta: int, gamma: int, delta: int, eta: int, g1: int, g2: int)

  /** The circuit's polynomials at the secret point `t`: one entry per variable, and the vanishing
      polynomial's value. `size` is the degree bound of the quotient. */
  datatype Qap = Qap(a: Vec, b: Vec, c: Vec, t: int, zt: int, size: nat)

  /** Which of the circuit's variables are public, aggregated and committed. */
  datatype Layout = Layout(instance: nat, aggregation: nat, committed: nat)

  predicate Fits(q: Qap, n: Layout) {
    && |q.a| == |q.b| == |q.c| && 1 <= n.instance && n.instance + n.committed <= |q.a|
    && n.aggregation <= n.committed && 1 <= q.size
  }

  /** A field's inverse, undefined exactly at zero. */
  type Inverse = int -> Option<int>

  ghost predicate Inverts(inverse: Inverse) {
    forall x :: if Same(x, 0) then inverse(x) == None else inverse(x).Some? && Same(x * inverse(x).value, 1)
  }

  // Setup

  /** `beta * a + alpha * b + c` for each variable, divided. */
  function Combine(td: Trapdoor, a: Vec, b: Vec, c: Vec, inv: int): (r: Vec)
    requires |a| == |b| == |c|
    ensures |r| == |a|
  {
    seq(|a|, i requires 0 <= i < |a| => (td.beta * a[i] + td.alpha * b[i] + c[i]) * inv)
  }

  function HScalars(q: Qap, deltaInv: int): Vec
    requires 1 <= q.size
  {
    Scale(q.zt * deltaInv, Powers(1, q.t, q.size - 1))
  }

  /** `generate_parameters_with_qap`, once the circuit is synthesized. */
  function Generate(td: Trapdoor, q: Qap, n: Layout, inverse: Inverse): (r: Option<ProvingKey>)
    requires Fits(q, n)
    ensures r.Some? ==> |r.value.vk.ck.batch| == n.aggregation && |r.value.vk.gammaAbc| == n.instance
    ensures r.Some? ==> |r.value.vk.ck.proofDependent| == n.committed - n.aggregation
  {
    var (gi, di) := (inverse(td.gamma), inverse(td.delta));
    if gi.None? || di.None? then None
    else
      var cc := n.instance + n.committed;
      var gammaAbc := Scale(td.g1, Combine(td, q.a[..cc], q.b[..cc], q.c[..cc], gi.value));
      var l := Combine(td, q.a[cc..], q.b[cc..], q.c[cc..], di.value);
      var ck := CommittingKey(gammaAbc[n.instance..][..n.aggregation], gammaAbc[n.instance..][n.aggregation..],
                              td.g1 * (gi.value * td.eta), td.g1 * (di.value * td.eta));
      var vk := VerifyingKey(ck, td.g1 * td.alpha, td.g2 * td.beta, td.g2 * td.gamma, td.g2 * td.delta,
                             gammaAbc[..n.instance]);
      Some(ProvingKey(vk, td.g1 * td.beta, td.g1 * td.delta, Scale(td.g1, q.a), Scale(td.g1, q.b), Scale(td.g2, q.b),
                      Scale(td.g1, HScalars(q, di.value)), Scale(td.g1, l)))
  }

  /** There is a key if and only if neither of the two divisors is zero. */
  lemma GeneratesExactlyWhen(td: Trapdoor, q: Qap, n: Layout, inverse: Inverse)
    requires Fits(q, n) && Inverts(inverse)
    ensures Generate(td, q, n, inverse).Some? <==> !Same(td.gamma, 0) && !Same(td.delta, 0)
  {
    hide Same, Combine, HScalars;
    assert Inverted(inverse, td.gamma) && Inverted(inverse, td.delta) by { BothInverted(inverse, td.gamma, td.delta); }
  }

  predicate Inverted(inverse: Inverse, x: int) {
    inverse(x).Some? <==> !Same(x, 0)
  }

  lemma BothInverted(inverse: Inverse, x: int, y: int)
    requires Inverts(inverse)
    ensures Inverted(inverse, x) && Inverted(inverse, y)
  {
  }

  // Prover

  /** `batch_commit_with_challenge`, with the random opening given. */
  function Commit(ck: CommittingKey, committed: Vec, opening: int): Opened {
    Opened(Pedersen.Commit(ck.proofDependent, committed) + ck.gammaEta * opening, opening)
  }

  method CalculateCoeff(initial: int, query: Vec, vkParam: int, assignment: Vec) returns (res: int)
    requires query != []
    ensures res == initial + Dot(query, [1] + assignment) + vkParam
  {
    var el := query[0];
    var acc := Dot(query[1..], assignment);
    res := initial;
    res := res + el;
    res := res + acc;
    res := res + vkParam;
    assert ([1] + assignment)[1..] == assignment;
  }

  /** The proof as formulas in the whole assignment, the constant 1 first. */
  function CreateProof(pk: ProvingKey, cm: Opened, r: int, s: int, h: Vec, inputs: Vec, aux: Vec): Proof
    requires |pk.vk.ck.batch| + |pk.vk.ck.proofDependent| <= |aux| && h != []
  {
    var z := [1] + inputs + aux;
    var a := pk.delta1 * r + Dot(pk.aQuery, z) + pk.vk.alpha;
    var b1 := if Same(r, 0) then 0 else pk.delta1 * s + Dot(pk.bQuery1, z) + pk.beta1;
    var lAux := Dot(pk.lQuery, aux[|pk.vk.ck.batch| + |pk.vk.ck.proofDependent|..]);
    Proof(a, pk.vk.delta2 * s + Dot(pk.bQuery2, z) + pk.vk.beta2,
          a * s + b1 * r - pk.delta1 * (r * s) + lAux + Dot(pk.hQuery, h[..|h| - 1]) - pk.vk.ck.deltaEta * cm.opening,
          cm.cm)
  }

  method CreateProofWithAssignment(pk: ProvingKey, cm: Opened, r: int, s: int, h: Vec, inputs: Vec, aux: Vec)
    returns (proof: Proof)
    requires |pk.vk.ck.batch| + |pk.vk.ck.proofDependent| <= |aux| && h != []
    requires pk.aQuery != [] && pk.bQuery1 != [] && pk.bQuery2 != []
    ensures proof == CreateProof(pk, cm, r, s, h, inputs, aux)
  {
    var committed := |pk.vk.ck.batch| + |pk.vk.ck.proofDependent|;
    var hAcc := Dot(pk.hQuery, h[..|h| - 1]);
    var lAuxAcc := Dot(pk.lQuery, aux[committed..]);
    var rsDelta := pk.delta1 * (r * s);
    var assignment := inputs + aux;
    assert [1] + assignment == [1] + inputs + aux;
    var gA := CalculateCoeff(pk.delta1 * r, pk.aQuery, pk.vk.alpha, assignment);
    var sgA := gA * s;
    var g1B := 0;
    if !Same(r, 0) {
      g1B := CalculateCoeff(pk.delta1 * s, pk.bQuery1, pk.beta1, assignment);
    }
    var g2B := CalculateCoeff(pk.vk.delta2 * s, pk.bQuery2, pk.vk.beta2, assignment);
    var gC := sgA;
    gC := gC + g1B * r;
    gC := gC - rsDelta;
    gC := gC + lAuxAcc;
    gC := gC + hAcc;
    gC := gC - pk.vk.ck.deltaEta * cm.opening;
    proof := Proof(gA, g2B, gC, cm.cm);
  }

  // Verifier

  /** The prepared inputs, or nothing when their number does not match the key. */
  function PreparedInputs(vk: VerifyingKey, inputs: Vec): Option<int> {
    if |inputs| + 1 != |vk.gammaAbc| then None else Some(Dot(vk.gammaAbc, [1] + inputs))
  }

  method PrepareInputs(vk: VerifyingKey, inputs: Vec) returns (r: Option<int>)
    ensures r == PreparedInputs(vk, inputs)
    ensures r.None? <==> |vk.gammaAbc| != |inputs| + 1
    ensures r.Some? ==> r.value == vk.gammaAbc[0] + Dot(vk.gammaAbc[1..], inputs)
  {
    if |inputs| + 1 != |vk.gammaAbc| {
      return None;
    }
    assert ([1] + inputs)[1..] == inputs;
    var gIc := vk.gammaAbc[0];
    for i := 0 to |inputs|
      invariant gIc + Dot(vk.gammaAbc[i + 1..], inputs[i..]) == Dot(vk.gammaAbc, [1] + inputs)
    {
      assert vk.gammaAbc[i + 1..][1..] == vk.gammaAbc[i + 2..] && inputs[i..][1..] == inputs[i + 1..];
      gIc := gIc + vk.gammaAbc[i + 1] * inputs[i];
    }
    return Some(gIc);
  }

  /** How far the pairing equation is from holding. */
  function Residual(vk: VerifyingKey, proof: Proof, prepared: int): int {
    proof.a * proof.b + (proof.d + prepared) * -vk.gamma2 + proof.c * -vk.delta2 - vk.alpha * vk.beta2
  }

  predicate PairingHolds(vk: VerifyingKey, proof: Proof, prepared: int) {
    Same(proof.a * proof.b + (proof.d + prepared) * -vk.gamma2 + proof.c * -vk.delta2, vk.alpha * vk.beta2)
  }

  function Verify(vk: VerifyingKey, proof: Proof, inputs: Vec): Option<bool> {
    match PreparedInputs(vk, inputs)
    case None => None
    case Some(prepared) => Some(PairingHolds(vk, proof, prepared))
  }

  lemma HoldsWithoutResidual(vk: VerifyingKey, proof: Proof, prepared: int)
    ensures PairingHolds(vk, proof, prepared) <==> Same(Residual(vk, proof, prepared), 0)
  {
    hide Same;
    SameGap(proof.a * proof.b + (proof.d + prepared) * -vk.gamma2 + proof.c * -vk.delta2, vk.alpha * vk.beta2);
  }

  /** The verdict on any proof: none for a wrong number of inputs, and otherwise whether the pairing of A and B
      is that of the key, of D with the inputs, and of C. */
  lemma VerifiesExactlyWhen(vk: VerifyingKey, proof: Proof, inputs: Vec)
    ensures Verify(vk, proof, inputs).None? <==> |vk.gammaAbc| != |inputs| + 1
    ensures |vk.gammaAbc| == |inputs| + 1 ==>
              var prepared := vk.gammaAbc[0] + Dot(vk.gammaAbc[1..], inputs);
              Verify(vk, proof, inputs)
              == Some(Same(proof.a * proof.b,
                           vk.alpha * vk.beta2 + (proof.d + prepared) * vk.gamma2 + proof.c * vk.delta2))
  {
    if |vk.gammaAbc| == |inputs| + 1 {
      hide Same;
      assert ([1] + inputs)[1..] == inputs;
      var prepared := vk.gammaAbc[0] + Dot(vk.gammaAbc[1..], inputs);
      Negate(proof.d + prepared, vk.gamma2);
      Negate(proof.c, vk.delta2);
      var left := proof.a * proof.b + (proof.d + prepared) * -vk.gamma2 + proof.c * -vk.delta2;
      var right := vk.alpha * vk.beta2 + (proof.d + prepared) * vk.gamma2 + proof.c * vk.delta2;
      SameGap(left, vk.alpha * vk.beta2);
      SameGap(proof.a * proof.b, right);
      assert left - vk.alpha * vk.beta2 == proof.a * proof.b - right;
    }
  }

  // The residual of an honest proof

  /** The QAP's error for an assignment: zero when the circuit is satisfied. */
  function QapError(q: Qap, z: Vec, h: Vec): int
    requires h != [] && 1 <= q.size
  {
    Dot(q.a, z) * Dot(q.b, z) - Dot(q.c, z) - q.zt * Dot(Powers(1, q.t, q.size - 1), h[..|h| - 1])
  }

  lemma {:induction false} CombineDot(td: Trapdoor, a: Vec, b: Vec, c: Vec, inv: int, z: Vec)
    requires |a| == |b| == |c|
    ensures Dot(Combine(td, a, b, c, inv), z) == (td.beta * Dot(a, z) + td.alpha * Dot(b, z) + Dot(c, z)) * inv
  {
    if a == [] || z == [] {
    } else {
      assert Combine(td, a, b, c, inv)[1..] == Combine(td, a[1..], b[1..], c[1..], inv);
      CombineDot(td, a[1..], b[1..], c[1..], inv, z[1..]);
      CombineStep(td.beta, td.alpha, a[0], b[0], c[0], inv, z[0],
                  Dot(a[1..], z[1..]), Dot(b[1..], z[1..]), Dot(c[1..], z[1..]));
    }
  }

  lemma CombineStep(beta: int, alpha: int, a: int, b: int, c: int, inv: int, z: int, da: int, db: int, dc: int)
    ensures ((beta * a + alpha * b + c) * inv) * z + (beta * da + alpha * db + dc) * inv
         == (beta * (a * z + da) + alpha * (b * z + db) + (c * z + dc)) * inv
  {
    assert ((beta * a + alpha * b + c) * inv) * z == ((beta * a + alpha * b + c) * z) * inv;
    assert (beta * a + alpha * b + c) * z == beta * (a * z) + alpha * (b * z) + c * z;
  }

  /** What the prover's four group elements are, for a key from `Generate`: `x` and `y` are the
      exponents of A and B, `k1` and `k2` the combined values of the two parts of the assignment. */
  datatype Exponents = Exponents(x: int, y: int, k1: int, k2: int, h: int)

  function ExponentsOf(td: Trapdoor, q: Qap, cc: nat, r: int, s: int, h: Vec, z: Vec): Exponents
    requires h != [] && 1 <= q.size && |q.a| == |q.b| == |q.c| == |z| && cc <= |z|
  {
    Exponents(td.alpha + Dot(q.a, z) + r * td.delta, td.beta + Dot(q.b, z) + s * td.delta,
              td.beta * Dot(q.a[..cc], z[..cc]) + td.alpha * Dot(q.b[..cc], z[..cc]) + Dot(q.c[..cc], z[..cc]),
              td.beta * Dot(q.a[cc..], z[cc..]) + td.alpha * Dot(q.b[cc..], z[cc..]) + Dot(q.c[cc..], z[cc..]),
              q.zt * Dot(Powers(1, q.t, q.size - 1), h[..|h| - 1]))
  }

  lemma ScaledDot(u: int, x: Vec, z: Vec)
    ensures Dot(Scale(u, x), z) == u * Dot(x, z)
  {
    DotComm(Scale(u, x), z);
    DotScale(z, u, x);
    DotComm(z, x);
  }

  /** A and B of the proof. */
  lemma AandB(td: Trapdoor, q: Qap, n: Layout, inverse: Inverse, pk: ProvingKey, cm: Opened, r: int, s: int, h: Vec,
              inputs: Vec, aux: Vec)
    requires Fits(q, n) && Generate(td, q, n, inverse) == Some(pk) && n.committed <= |aux| && h != []
    requires |[1] + inputs + aux| == |q.a| && n.instance == |inputs| + 1
    ensures var e := ExponentsOf(td, q, n.instance + n.committed, r, s, h, [1] + inputs + aux);
            var proof := CreateProof(pk, cm, r, s, h, inputs, aux);
            proof.a == td.g1 * e.x && proof.b == td.g2 * e.y && proof.d == cm.cm
  {
    hide Dot, Combine;
    var z := [1] + inputs + aux;
    ScaledDot(td.g1, q.a, z);
    ScaledDot(td.g2, q.b, z);
    Gather(td.g1, td.delta, r, Dot(q.a, z), td.alpha);
    Gather(td.g2, td.delta, s, Dot(q.b, z), td.beta);
  }

  lemma Gather(u: int, d: int, r: int, a: int, b: int)
    ensures u * d * r + u * a + u * b == u * (b + a + r * d)
  {
    assert u * d * r == u * (r * d);
  }

  /** C of the proof. */
  lemma CofProof(td: Trapdoor, q: Qap, n: Layout, inverse: Inverse, pk: ProvingKey, cm: Opened, r: int, s: int, h: Vec,
                 inputs: Vec, aux: Vec)
    requires Fits(q, n) && Generate(td, q, n, inverse) == Some(pk) && n.committed <= |aux| && h != []
    requires |[1] + inputs + aux| == |q.a| && n.instance == |inputs| + 1
    ensures inverse(td.delta).Some?
    ensures var e := ExponentsOf(td, q, n.instance + n.committed, r, s, h, [1] + inputs + aux);
            var di := inverse(td.delta).value;
            Same(CreateProof(pk, cm, r, s, h, inputs, aux).c,
                 td.g1 * e.x * s + td.g1 * e.y * r - td.g1 * td.delta * (r * s)
                 + td.g1 * (e.k2 * di) + td.g1 * (e.h * di) - td.g1 * (di * td.eta) * cm.opening)
  {
    hide Dot, Combine, Same;
    var z, cc, di := [1] + inputs + aux, n.instance + n.committed, inverse(td.delta).value;
    AandB(td, q, n, inverse, pk, cm, r, s, h, inputs, aux);
    assert z[cc..] == aux[n.committed..];
    var l := Combine(td, q.a[cc..], q.b[cc..], q.c[cc..], di);
    ScaledDot(td.g1, l, z[cc..]);
    CombineDot(td, q.a[cc..], q.b[cc..], q.c[cc..], di, z[cc..]);
    HAccumulator(td.g1, q, di, h);
    ScaledDot(td.g1, q.b, z);
    Gather(td.g1, td.delta, s, Dot(q.b, z), td.beta);
    var b1 := if Same(r, 0) then 0 else pk.delta1 * s + Dot(pk.bQuery1, z) + pk.beta1;
    BTimesR(b1, td.g1 * (td.beta + Dot(q.b, z) + s * td.delta), r);
    SameAdds(b1 * r, td.g1 * (td.beta + Dot(q.b, z) + s * td.delta) * r,
             CreateProof(pk, cm, r, s, h, inputs, aux).c - b1 * r);
  }

  lemma SameAdds(x: int, y: int, c: int)
    requires Same(x, y)
    ensures Same(x + c, y + c)
  {
    SameAdd(x, y, c, c);
  }

  /** When `r` is zero the code skips B in the first group; nothing is lost. */
  lemma BTimesR(b1: int, b: int, r: int)
    requires b1 == if Same(r, 0) then 0 else b
    ensures Same(b1 * r, b * r)
  {
    if Same(r, 0) {
      SameMul(r, 0, b);
      SameTrans(r * b, 0, 0);
    }
  }

  lemma HAccumulator(u: int, q: Qap, di: int, h: Vec)
    requires h != [] && 1 <= q.size
    ensures Dot(Scale(u, HScalars(q, di)), h[..|h| - 1])
         == u * ((q.zt * Dot(Powers(1, q.t, q.size - 1), h[..|h| - 1])) * di)
  {
    hide Dot;
    var ps := Powers(1, q.t, q.size - 1);
    ScaledDot(u, HScalars(q, di), h[..|h| - 1]);
    ScaledDot(q.zt * di, ps, h[..|h| - 1]);
    Swap(q.zt, di, Dot(ps, h[..|h| - 1]));
  }

  lemma Swap(a: int, b: int, c: int)
    ensures a * b * c == a * c * b
  {
  }

  /** D with the aggregated commitments and the inputs: the key's slices line up. */
  lemma DwithInputs(td: Trapdoor, q: Qap, n: Layout, inverse: Inverse, pk: ProvingKey, opening: int, inputs: Vec,
                    aux: Vec)
    requires Fits(q, n) && Generate(td, q, n, inverse) == Some(pk) && n.committed <= |aux|
    requires |[1] + inputs + aux| == |q.a| && n.instance == |inputs| + 1
    ensures inverse(td.gamma).Some? && PreparedInputs(pk.vk, inputs).Some?
    ensures var gi, cc, z := inverse(td.gamma).value, n.instance + n.committed, [1] + inputs + aux;
            var k1 := td.beta * Dot(q.a[..cc], z[..cc]) + td.alpha * Dot(q.b[..cc], z[..cc]) + Dot(q.c[..cc], z[..cc]);
            Commit(pk.vk.ck, aux[n.aggregation..n.committed], opening).cm + Dot(pk.vk.ck.batch, aux[..n.aggregation])
            + PreparedInputs(pk.vk, inputs).value == td.g1 * (k1 * gi) + td.g1 * (gi * td.eta) * opening
  {
    hide Dot, Combine;
    var gi, cc, z := inverse(td.gamma).value, n.instance + n.committed, [1] + inputs + aux;
    var key := Scale(td.g1, Combine(td, q.a[..cc], q.b[..cc], q.c[..cc], gi));
    var com := aux[..n.committed];
    assert z[..cc] == ([1] + inputs) + com;
    assert com == aux[..n.aggregation] + aux[n.aggregation..n.committed];
    assert key == key[..n.instance] + key[n.instance..];
    var rest := key[n.instance..];
    assert rest == rest[..n.aggregation] + rest[n.aggregation..];
    DotAppend(key[..n.instance], [1] + inputs, rest, com);
    DotAppend(rest[..n.aggregation], aux[..n.aggregation], rest[n.aggregation..], aux[n.aggregation..n.committed]);
    ScaledDot(td.g1, Combine(td, q.a[..cc], q.b[..cc], q.c[..cc], gi), z[..cc]);
    CombineDot(td, q.a[..cc], q.b[..cc], q.c[..cc], gi, z[..cc]);
  }

  lemma DivideOut(x: int, inv: int, y: int)
    requires Same(y * inv, 1)
    ensures Same(x * inv * y, x)
  {
    hide Same;
    SameMul(y * inv, 1, x);
    assert y * inv * x == x * inv * y;
  }

  /** The algebra of the pairing equation. */
  lemma PairingAlgebra(td: Trapdoor, e: Exponents, a: int, b: int, c: int, r: int, s: int)
    requires e.x == td.alpha + a + r * td.delta && e.y == td.beta + b + s * td.delta
    requires e.k1 + e.k2 == td.beta * a + td.alpha * b + c
    ensures e.x * e.y - e.k1 - (e.x * s * td.delta + e.y * r * td.delta - td.delta * (r * s) * td.delta + e.k2 + e.h)
            - td.alpha * td.beta == a * b - c - e.h
  {
    var d, p, o := td.delta, td.alpha + a, td.beta + b;
    assert e.x * e.y == p * o + p * (s * d) + r * d * o + r * d * (s * d) by { Foil(p, r * d, o, s * d); }
    assert e.x * s * d == p * (s * d) + r * d * (s * d) by { Foil(p, r * d, 0, s * d); Associate(e.x, s, d); }
    assert e.y * r * d == r * d * o + r * d * (s * d) by { Foil(r * d, 0, o, s * d); Associate(e.y, r, d); }
    assert d * (r * s) * d == r * d * (s * d) by { Square(d, r, s); }
    assert p * o == td.alpha * td.beta + td.alpha * b + a * td.beta + a * b by { Foil(td.alpha, a, td.beta, b); }
  }

  lemma Foil(a: int, b: int, c: int, d: int)
    ensures (a + b) * (c + d) == a * c + a * d + b * c + b * d
  {
  }

  lemma Square(d: int, r: int, s: int)
    ensures d * (r * s) * d == r * d * (s * d)
  {
    assert d * (r * s) == (r * d) * s;
    assert (r * d) * s * d == (r * d) * (s * d);
  }

  /** The gamma side of the equation, where the inverse of gamma cancels. */
  lemma GammaSide(u: int, v: int, k1: int, gi: int, eta: int, o: int, gamma: int)
    requires Same(gamma * gi, 1)
    ensures Same((u * (k1 * gi) + u * (gi * eta) * o) * (v * gamma), u * v * (k1 + eta * o))
  {
    DivideOut(u * v * (k1 + eta * o), gi, gamma);
    assert u * (k1 * gi) + u * (gi * eta) * o == u * (k1 + eta * o) * gi by {
      Associate(u, k1, gi);
      Factor4(u, gi, eta, o);
      assert u * (k1 + eta * o) * gi == u * k1 * gi + u * (eta * o) * gi;
    }
    Reorder4(u, v, k1 + eta * o, gi, gamma);
  }

  lemma Factor4(a: int, b: int, c: int, d: int)
    ensures a * (b * c) * d == a * (c * d) * b
  {
    assert a * (b * c) * d == a * ((b * c) * d);
    assert (b * c) * d == (c * d) * b;
  }

  lemma Reorder4(u: int, v: int, k: int, gi: int, gamma: int)
    ensures u * k * gi * (v * gamma) == u * v * k * gi * gamma
  {
    assert u * k * gi * (v * gamma) == u * k * gi * v * gamma;
    assert u * k * gi * v == u * v * k * gi;
  }

  lemma DeltaInverted(u: int, k2: int, h: int, di: int, eta: int, o: int)
    ensures u * (k2 * di) + u * (h * di) - u * (di * eta) * o == u * (k2 + h - eta * o) * di
  {
    Associate(u, k2, di);
    Associate(u, h, di);
    Factor4(u, di, eta, o);
    assert u * (k2 + h - eta * o) * di == u * k2 * di + u * h * di - u * (eta * o) * di;
  }

  lemma DeltaPlain(u: int, x: int, s: int, y: int, r: int, delta: int)
    ensures u * x * s + u * y * r - u * delta * (r * s) == u * (x * s + y * r - delta * (r * s))
  {
    Associate(u, x, s);
    Associate(u, y, r);
    Associate(u, delta, r * s);
  }

  lemma DistributeThree(a: int, b: int, c: int, d: int)
    ensures (a + b - c) * d == a * d + b * d - c * d
  {
  }

  /** The delta side, where the inverse of delta cancels in the last three terms. */
  lemma DeltaSide(u: int, v: int, e: Exponents, s: int, r: int, di: int, eta: int, o: int, delta: int)
    requires Same(delta * di, 1)
    ensures Same((u * e.x * s + u * e.y * r - u * delta * (r * s) + u * (e.k2 * di) + u * (e.h * di)
                  - u * (di * eta) * o)
                 * (v * delta),
                 u * v * (e.x * s * delta + e.y * r * delta - delta * (r * s) * delta + e.k2 + e.h - eta * o))
  {
    hide Same;
    var k, free := e.k2 + e.h - eta * o, e.x * s + e.y * r - delta * (r * s);
    DeltaInverted(u, e.k2, e.h, di, eta, o);
    DeltaPlain(u, e.x, s, e.y, r, delta);
    DistributeThree(e.x * s, e.y * r, delta * (r * s), delta);
    DeltaSum(u, v, free, k, di, delta);
  }

  lemma DeltaSum(u: int, v: int, free: int, k: int, di: int, delta: int)
    requires Same(delta * di, 1)
    ensures Same((u * free + u * k * di) * (v * delta), u * v * (free * delta + k))
  {
    hide Same;
    DivideOut(u * v * k, di, delta);
    Reorder4(u, v, k, di, delta);
    Pull(u, v, free, delta);
    DistributeThree(u * free, u * k * di, 0, v * delta);
    DistributeLeft(u * v, free * delta, k);
    SameAdds(u * v * k * di * delta, u * v * k, u * v * (free * delta));
  }

  lemma Pull(u: int, v: int, x: int, y: int)
    ensures u * x * (v * y) == u * v * (x * y)
  {
    assert u * x * (v * y) == u * x * v * y;
    assert u * x * v == u * v * x;
  }

  /** The exact residual of a proof made from any assignment: the QAP's error, scaled by the two
      generators. The openings, the blinding factors and the trapdoor cancel. */
  lemma HonestResidual(td: Trapdoor, q: Qap, n: Layout, inverse: Inverse, pk: ProvingKey, opening: int, r: int, s: int,
                       h: Vec, inputs: Vec, aux: Vec, aggregated: int)
    requires Fits(q, n) && Inverts(inverse) && Generate(td, q, n, inverse) == Some(pk) && n.committed <= |aux|
             && h != []
    requires |[1] + inputs + aux| == |q.a| && n.instance == |inputs| + 1
    requires aggregated == Dot(pk.vk.ck.batch, aux[..n.aggregation])
    ensures PreparedInputs(pk.vk, inputs).Some?
    ensures var cm := Commit(pk.vk.ck, aux[n.aggregation..n.committed], opening);
            var proof := CreateProof(pk, cm, r, s, h, inputs, aux);
            Same(Residual(pk.vk, proof.(d := proof.d + aggregated), PreparedInputs(pk.vk, inputs).value),
                 td.g1 * td.g2 * QapError(q, [1] + inputs + aux, h))
  {
    hide Dot, Same, Combine;
    var z, cc, u, v := [1] + inputs + aux, n.instance + n.committed, td.g1, td.g2;
    var gi, di := inverse(td.gamma).value, inverse(td.delta).value;
    var cm := Commit(pk.vk.ck, aux[n.aggregation..n.committed], opening);
    var proof := CreateProof(pk, cm, r, s, h, inputs, aux);
    var e := ExponentsOf(td, q, cc, r, s, h, z);
    AandB(td, q, n, inverse, pk, cm, r, s, h, inputs, aux);
    CofProof(td, q, n, inverse, pk, cm, r, s, h, inputs, aux);
    DwithInputs(td, q, n, inverse, pk, opening, inputs, aux);
    InversesWork(inverse, td.gamma, td.delta);
    GammaSide(u, v, e.k1, gi, td.eta, opening, td.gamma);
    DeltaSide(u, v, e, s, r, di, td.eta, opening, td.delta);
    var c := u * e.x * s + u * e.y * r - u * td.delta * (r * s) + u * (e.k2 * di) + u * (e.h * di)
             - u * (di * td.eta) * opening;
    SameMul(proof.c, c, v * td.delta);
    var gammaTerm := u * v * (e.k1 + td.eta * opening);
    var inner := e.x * s * td.delta + e.y * r * td.delta - td.delta * (r * s) * td.delta + e.k2 + e.h
      - td.eta * opening;
    SameTrans(proof.c * (v * td.delta), c * (v * td.delta), u * v * inner);
    var d := proof.d + aggregated + PreparedInputs(pk.vk, inputs).value;
    ResidualFrom(pk.vk, proof.(d := proof.d + aggregated), PreparedInputs(pk.vk, inputs).value, gammaTerm,
                 u * v * inner);
    Pull(u, v, e.x, e.y);
    Pull(u, v, td.alpha, td.beta);
    DotSplit(q.a, z, cc);
    DotSplit(q.b, z, cc);
    DotSplit(q.c, z, cc);
    DistributeLeft(td.beta, Dot(q.a[..cc], z[..cc]), Dot(q.a[cc..], z[cc..]));
    DistributeLeft(td.alpha, Dot(q.b[..cc], z[..cc]), Dot(q.b[cc..], z[cc..]));
    PairingAlgebra(td, e, Dot(q.a, z), Dot(q.b, z), Dot(q.c, z), r, s);
    TakeFactor(u * v, e.x * e.y, e.k1 + td.eta * opening, inner, td.alpha * td.beta);
  }

  lemma TakeFactor(w: int, a: int, b: int, c: int, d: int)
    ensures w * a - w * b - w * c - w * d == w * (a - b - c - d)
  {
  }

  lemma InversesWork(inverse: Inverse, x: int, y: int)
    requires Inverts(inverse) && inverse(x).Some? && inverse(y).Some?
    ensures Same(x * inverse(x).value, 1) && Same(y * inverse(y).value, 1)
  {
  }

  lemma ResidualFrom(vk: VerifyingKey, proof: Proof, prepared: int, gammaTerm: int, deltaTerm: int)
    requires Same((proof.d + prepared) * vk.gamma2, gammaTerm) && Same(proof.c * vk.delta2, deltaTerm)
    ensures Same(Residual(vk, proof, prepared), proof.a * proof.b - gammaTerm - deltaTerm - vk.alpha * vk.beta2)
  {
    hide Same;
    var g, d := (proof.d + prepared) * vk.gamma2, proof.c * vk.delta2;
    Negate(proof.d + prepared, vk.gamma2);
    Negate(proof.c, vk.delta2);
    SameFrom(proof.a * proof.b, proof.a * proof.b, 0);
    SameFrom(vk.alpha * vk.beta2, vk.alpha * vk.beta2, 0);
    SameAdd(proof.a * proof.b, proof.a * proof.b, g, gammaTerm);
    SameAdd(proof.a * proof.b - g, proof.a * proof.b - gammaTerm, d, deltaTerm);
    SameAdd(proof.a * proof.b - g - d, proof.a * proof.b - gammaTerm - deltaTerm, vk.alpha * vk.beta2,
            vk.alpha * vk.beta2);
  }

  lemma Negate(x: int, y: int)
    ensures x * -y == -(x * y)
  {
  }

  // Rerandomisation

  function Rerandomized(vk: VerifyingKey, proof: Proof, r1: int, r1Inv: int, r2: int, r3: int): Proof {
    Proof(proof.a * r1Inv, proof.b * r1 + vk.delta2 * (r1 * r2), proof.c + proof.a * r2 + vk.ck.deltaEta * r3,
          proof.d + vk.ck.gammaEta * r3)
  }

  predicate Usable(draw: (int, int, int)) {
    !Same(draw.0, 0) && !Same(draw.1, 0) && !Same(draw.2, 0)
  }

  /** Draws from a tape until all three factors are nonzero; the tape stands for the generator. */
  method RerandomizeProof(vk: VerifyingKey, proof: Proof, inverse: Inverse, tape: seq<(int, int, int)>)
    returns (used: nat, renewed: Proof)
    requires Inverts(inverse) && exists i :: 0 <= i < |tape| && Usable(tape[i])
    ensures used < |tape| && !Same(tape[used].0, 0) && !Same(tape[used].1, 0) && !Same(tape[used].2, 0)
    ensures forall i :: 0 <= i < used ==> Same(tape[i].0, 0) || Same(tape[i].1, 0) || Same(tape[i].2, 0)
    ensures inverse(tape[used].0).Some?
    ensures renewed == Rerandomized(vk, proof, tape[used].0, inverse(tape[used].0).value, tape[used].1, tape[used].2)
  {
    used := 0;
    while !Usable(tape[used])
      invariant used < |tape| && forall i :: 0 <= i < used ==> !Usable(tape[i])
      decreases |tape| - used
    {
      used := used + 1;
    }
    var (r1, r2, r3) := tape[used];
    var r1Inv := inverse(r1).value;
    renewed := Proof(proof.a * r1Inv, proof.b * r1 + vk.delta2 * (r1 * r2),
                     proof.c + proof.a * r2 + vk.ck.deltaEta * r3,
                     proof.d + vk.ck.gammaEta * r3);
  }

  /** What the key's delta-side eta element carries into the pairing. */
  function EtaValue(vk: VerifyingKey): int {
    vk.ck.deltaEta * vk.delta2
  }

  /** Both eta elements of the key carry the same value `w` into the pairing. */
  predicate EtaBalanced(vk: VerifyingKey, w: int) {
    Same(vk.ck.gammaEta * vk.gamma2, w) && Same(EtaValue(vk), w)
  }

  /** The two eta elements of the key carry one value. */
  predicate EtasAgree(vk: VerifyingKey) {
    Same(vk.ck.gammaEta * vk.gamma2, vk.ck.deltaEta * vk.delta2)
  }

  lemma KeysAreEtaBalanced(td: Trapdoor, q: Qap, n: Layout, inverse: Inverse)
    requires Fits(q, n) && Inverts(inverse) && Generate(td, q, n, inverse).Some?
    ensures var vk := Generate(td, q, n, inverse).value.vk;
            EtaBalanced(vk, td.g1 * td.g2 * td.eta) && EtasAgree(vk)
  {
    hide Same, Combine;
    var gi, di := inverse(td.gamma).value, inverse(td.delta).value;
    InversesWork(inverse, td.gamma, td.delta);
    EtaTerm(td.g1, td.g2, gi, td.eta, td.gamma);
    EtaTerm(td.g1, td.g2, di, td.eta, td.delta);
    var vk, w := Generate(td, q, n, inverse).value.vk, td.g1 * td.g2 * td.eta;
    SameTrans(EtaValue(vk), w, w) by { SameFrom(w, w, 0); }
    SameTrans(vk.ck.gammaEta * vk.gamma2, w, EtaValue(vk));
  }

  lemma EtaTerm(u: int, v: int, inv: int, eta: int, y: int)
    requires Same(y * inv, 1)
    ensures Same(u * (inv * eta) * (v * y), u * v * eta)
  {
    hide Same;
    DivideOut(u * v * eta, inv, y);
    Factor4(u, inv, eta, 1);
    Reorder4(u, v, eta, inv, y);
  }

  lemma BlindedProduct(a: int, b: int, r1: int, r1Inv: int, r2: int, delta2: int)
    requires Same(r1 * r1Inv, 1)
    ensures Same(a * r1Inv * (b * r1 + delta2 * (r1 * r2)), a * b + a * r2 * delta2)
  {
    hide Same;
    DivideOut(a * b, r1Inv, r1);
    DivideOut(a * r2 * delta2, r1Inv, r1);
    assert a * r1Inv * (b * r1) == a * b * r1Inv * r1 by { Pull(a, b, r1Inv, r1); Associate(a * b, r1Inv, r1); }
    assert a * r1Inv * (delta2 * (r1 * r2)) == a * r2 * delta2 * r1Inv * r1 by { FiveWays(a, r1Inv, delta2, r1, r2); }
    DistributeLeft(a * r1Inv, b * r1, delta2 * (r1 * r2));
    SameAdd(a * b * r1Inv * r1, a * b, a * r2 * delta2 * r1Inv * r1, a * r2 * delta2);
  }

  lemma FiveWays(a: int, i: int, d: int, r: int, t: int)
    ensures a * i * (d * (r * t)) == a * t * d * i * r
  {
    assert d * (r * t) == t * d * r;
    Pull(a, t * d, i, r);
    assert a * (t * d) == a * t * d;
    Associate(a * t * d, i, r);
  }

  /** The residual after rerandomising with any eta term `x` in C. */
  lemma RerandomizedResidual(vk: VerifyingKey, proof: Proof, prepared: int, w: int, r1: int, r1Inv: int, r2: int,
                             r3: int, x: int)
    requires EtaBalanced(vk, w) && Same(r1 * r1Inv, 1)
    ensures Same(Residual(vk, Rerandomized(vk, proof, r1, r1Inv, r2, r3).(c := proof.c + proof.a * r2 + x), prepared),
                 Residual(vk, proof, prepared) - w * r3 - x * vk.delta2)
  {
    hide Same;
    var out := Rerandomized(vk, proof, r1, r1Inv, r2, r3).(c := proof.c + proof.a * r2 + x);
    var before, after := proof.a * proof.b + proof.a * r2 * vk.delta2, out.a * out.b;
    BlindedProduct(proof.a, proof.b, r1, r1Inv, r2, vk.delta2);
    ExpandD(proof.d, vk.ck.gammaEta * r3, prepared, vk.gamma2);
    ExpandC(proof.c, proof.a * r2, x, vk.delta2);
    Swap(vk.ck.gammaEta, r3, vk.gamma2);
    SameMul(vk.ck.gammaEta * vk.gamma2, w, r3);
    var kept := Residual(vk, proof, prepared) - before - x * vk.delta2;
    assert Residual(vk, out, prepared) == after + kept - vk.ck.gammaEta * vk.gamma2 * r3;
    SameAdds(after, before, kept);
    SameAdd(after + kept, before + kept, vk.ck.gammaEta * vk.gamma2 * r3, w * r3);
    assert r3 * w == w * r3;
  }

  lemma ExpandD(d: int, y: int, p: int, g: int)
    ensures (d + y + p) * -g == (d + p) * -g - y * g
  {
  }

  lemma ExpandC(c: int, s: int, x: int, d: int)
    ensures (c + s + x) * -d == c * -d - s * d - x * d
  {
  }

  /** The code adds `eta` in C where its prover subtracts it: rerandomising any proof shifts its
      residual by exactly `-2 * r3 * w`, with `w` the eta value of the key. */
  lemma RerandomizeShifts(vk: VerifyingKey, proof: Proof, prepared: int, w: int, r1: int, r1Inv: int, r2: int, r3: int)
    requires EtaBalanced(vk, w) && Same(r1 * r1Inv, 1)
    ensures Same(Residual(vk, Rerandomized(vk, proof, r1, r1Inv, r2, r3), prepared),
                 Residual(vk, proof, prepared) - 2 * r3 * w)
  {
    hide Same, Residual;
    var x := vk.ck.deltaEta * r3;
    RerandomizedResidual(vk, proof, prepared, w, r1, r1Inv, r2, r3, x);
    Swap(vk.ck.deltaEta, r3, vk.delta2);
    SameMul(vk.ck.deltaEta * vk.delta2, w, r3);
    ShiftBy(Residual(vk, Rerandomized(vk, proof, r1, r1Inv, r2, r3), prepared), Residual(vk, proof, prepared) - w * r3,
            x * vk.delta2, w * r3);
    assert 2 * r3 * w == w * r3 + w * r3;
  }

  lemma ShiftBy(a: int, b: int, x: int, y: int)
    requires Same(a, b - x) && Same(x, y)
    ensures Same(a, b - y)
  {
    hide Same;
    SameFrom(b, b, 0);
    SameAdd(b, b, x, y);
    SameTrans(a, b - x, b - y);
  }

  lemma ShiftedVerdict(vk: VerifyingKey, proof: Proof, prepared: int, w: int, r1: int, r1Inv: int, r2: int, r3: int)
    requires EtaBalanced(vk, w) && Same(r1 * r1Inv, 1) && PairingHolds(vk, proof, prepared)
    ensures PairingHolds(vk, Rerandomized(vk, proof, r1, r1Inv, r2, r3), prepared) <==> Same(2 * r3 * w, 0)
  {
    hide PairingHolds, Residual;
    var out := Rerandomized(vk, proof, r1, r1Inv, r2, r3);
    RerandomizeShifts(vk, proof, prepared, w, r1, r1Inv, r2, r3);
    HoldsWithoutResidual(vk, proof, prepared);
    HoldsWithoutResidual(vk, out, prepared);
    VanishTogether(Residual(vk, out, prepared), Residual(vk, proof, prepared), 2 * r3 * w);
  }

  lemma NonzeroFactor(inverse: Inverse, c: int, w: int)
    requires Inverts(inverse) && !Same(c, 0)
    ensures Same(c * w, 0) <==> Same(w, 0)
  {
    var ci := inverse(c).value;
    assert Same(c * ci, 1);
    hide Same;
    if Same(c * w, 0) {
      SameMul(c * ci, 1, w);
      SameMul(c * w, 0, ci);
      assert c * ci * w == c * w * ci;
      SameTrans(c * ci * w, w, w) by { SameFrom(w, w, 0); }
      SameTrans(w, c * ci * w, 0);
    }
    if Same(w, 0) {
      SameMul(w, 0, c);
    }
  }

  lemma TwoIsNotZero()
    ensures !Same(2, 0)
  {
  }

  /** Whatever usable factors are drawn, an accepted proof stays accepted if and only if the key's
      eta element vanishes in the pairing, which can be read off the key. */
  lemma RerandomizedVerdict(vk: VerifyingKey, proof: Proof, prepared: int, inverse: Inverse, r1: int, r2: int, r3: int)
    requires Inverts(inverse) && EtasAgree(vk) && Usable((r1, r2, r3)) && PairingHolds(vk, proof, prepared)
    ensures inverse(r1).Some?
    ensures PairingHolds(vk, Rerandomized(vk, proof, r1, inverse(r1).value, r2, r3), prepared)
            <==> Same(EtaValue(vk), 0)
  {
    TwoIsNotZero();
    hide Same, PairingHolds;
    assert Same(r1 * inverse(r1).value, 1);
    SameFrom(EtaValue(vk), EtaValue(vk), 0);
    ShiftedVerdict(vk, proof, prepared, EtaValue(vk), r1, inverse(r1).value, r2, r3);
    NonzeroFactor(inverse, 2, r3 * EtaValue(vk));
    NonzeroFactor(inverse, r3, EtaValue(vk));
    assert 2 * r3 * EtaValue(vk) == 2 * (r3 * EtaValue(vk));
  }

  /** A key whose eta elements agree and an accepted proof that its rerandomisation with factors 1
      turns into a refused one. */
  lemma RerandomisationBreaks() returns (vk: VerifyingKey, proof: Proof)
    ensures EtasAgree(vk) && PairingHolds(vk, proof, 0) && Same(1 * 1, 1) && Usable((1, 1, 1))
    ensures !PairingHolds(vk, Rerandomized(vk, proof, 1, 1, 1, 1), 0)
  {
    vk := VerifyingKey(CommittingKey([], [], 1, 1), 1, 1, 1, 1, [0]);
    proof := Proof(1, 1, 0, 0);
  }

  lemma VanishTogether(a: int, b: int, x: int)
    requires Same(a, b - x) && Same(b, 0)
    ensures Same(a, 0) <==> Same(x, 0)
  {
    hide Same;
    var j := SameBy(a, b - x);
    var k := SameBy(b, 0);
    if Same(a, 0) {
      var i := SameBy(a, 0);
      SameFrom(x, 0, k + j - i);
    }
    if Same(x, 0) {
      var i := SameBy(x, 0);
      SameFrom(a, 0, k + j - i);
    }
  }

  /** With the prover's own sign the residual, and so the verdict, is kept. */
  lemma WithTheProversSignItIsKept(vk: VerifyingKey, proof: Proof, prepared: int, w: int, r1: int, r1Inv: int, r2: int,
                                   r3: int)
    requires EtaBalanced(vk, w) && Same(r1 * r1Inv, 1)
    ensures var renewed := Rerandomized(vk, proof, r1, r1Inv, r2, r3);
            Same(Residual(vk, renewed.(c := proof.c + proof.a * r2 - vk.ck.deltaEta * r3), prepared),
                 Residual(vk, proof, prepared))
  {
    hide Same, Residual;
    var x := -(vk.ck.deltaEta * r3);
    RerandomizedResidual(vk, proof, prepared, w, r1, r1Inv, r2, r3, x);
    Swap(vk.ck.deltaEta, r3, vk.delta2);
    SameMul(vk.ck.deltaEta * vk.delta2, w, r3);
    assert x * vk.delta2 == -(vk.ck.deltaEta * vk.delta2 * r3) by { Negate(vk.delta2, vk.ck.deltaEta * r3); }
    SameFrom(0, 0, 0);
    SameAdd(0, 0, vk.ck.deltaEta * vk.delta2 * r3, w * r3);
    ShiftBy(Residual(vk, Rerandomized(vk, proof, r1, r1Inv, r2, r3).(c := proof.c + proof.a * r2 + x), prepared),
            Residual(vk, proof, prepared) - w * r3, x * vk.delta2, -(w * r3));
  }

  lemma CancelFactor(inverse: Inverse, c: int, x: int, y: int)
    requires Inverts(inverse) && !Same(c, 0) && Same(c * x, c * y)
    ensures Same(x, y)
  {
    SameGap(c * x, c * y);
    SameGap(x, y);
    NonzeroFactor(inverse, c, x - y);
    assert c * x - c * y == c * (x - y);
  }

  lemma SameInverse(r: int, i: int, r': int, i': int)
    requires Same(r * i, 1) && Same(r' * i', 1) && Same(i, i')
    ensures Same(r, r')
  {
    hide Same;
    SameMul(i, i', r * r');
    SameMul(r * i, 1, r');
    SameMul(r' * i', 1, r);
    assert r * i * r' == r * r' * i && r' * i' * r == r * r' * i';
    SameSwaps(r * r' * i', r);
    SameTrans(r, r * r' * i', r * r' * i) by { SameSwaps(r * r' * i, r * r' * i'); }
    SameTrans(r, r * r' * i, r');
  }

  /** The same A, B and D. */
  predicate SameElements(p: Proof, q: Proof) {
    Same(p.a, q.a) && Same(p.b, q.b) && Same(p.d, q.d)
  }

  /** Rerandomising does renew the proof: two usable draws that give the same A, B and D from it are the same
      field elements, if A and the two key elements they scale are not the point at infinity. */
  lemma DrawsShowInTheProof(vk: VerifyingKey, proof: Proof, inverse: Inverse, r1: int, r2: int, r3: int,
                            s1: int, s2: int, s3: int)
    requires Inverts(inverse) && Usable((r1, r2, r3)) && Usable((s1, s2, s3))
    requires !Infinity(proof.a) && !Infinity(vk.delta2) && !Infinity(vk.ck.gammaEta)
    ensures inverse(r1).Some? && inverse(s1).Some?
    ensures SameElements(Rerandomized(vk, proof, r1, inverse(r1).value, r2, r3),
                         Rerandomized(vk, proof, s1, inverse(s1).value, s2, s3))
            ==> Same(r1, s1) && Same(r2, s2) && Same(r3, s3)
  {
    assert Same(r1 * inverse(r1).value, 1) && Same(s1 * inverse(s1).value, 1);
    hide Same;
    if SameElements(Rerandomized(vk, proof, r1, inverse(r1).value, r2, r3),
                    Rerandomized(vk, proof, s1, inverse(s1).value, s2, s3)) {
      CancelFactor(inverse, proof.a, inverse(r1).value, inverse(s1).value);
      SameInverse(r1, inverse(r1).value, s1, inverse(s1).value);
      SameFrom(proof.d, proof.d, 0);
      SameAdd(proof.d + vk.ck.gammaEta * r3, proof.d + vk.ck.gammaEta * s3, proof.d, proof.d);
      CancelFactor(inverse, vk.ck.gammaEta, r3, s3);
      SecondFactor(vk.delta2, proof.b, inverse, r1, r2, s1, s2);
    }
  }

  lemma SecondFactor(delta: int, b: int, inverse: Inverse, r1: int, r2: int, s1: int, s2: int)
    requires Inverts(inverse) && !Same(delta, 0) && !Same(s1, 0) && Same(r1, s1)
    requires Same(b * r1 + delta * (r1 * r2), b * s1 + delta * (s1 * s2))
    ensures Same(r2, s2)
  {
    hide Same;
    SameMul(r1, s1, b);
    SameAdd(b * r1 + delta * (r1 * r2), b * s1 + delta * (s1 * s2), b * r1, b * s1);
    CancelFactor(inverse, delta, r1 * r2, s1 * s2);
    SameMul(r1, s1, r2);
    SameSwaps(r1 * r2, s1 * r2);
    SameTrans(s1 * r2, r1 * r2, s1 * s2);
    CancelFactor(inverse, s1, r2, s2);
  }
}
