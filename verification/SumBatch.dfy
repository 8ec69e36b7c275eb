/** Batches of transfers: the slot map, the builder of a state transition, the circuit that checks
    the sum is preserved, and the batch proof with its two verifiers. */
module SumBatch {
  import opened Frame
  import opened Group
  import opened Transcript
  import opened Wrappers
  import Groth
  import Pedersen

  type Address = b: Bytes | |b| == 20 witness seq(20, _ => 0)

  type u64 = x: int | 0 <= x < 0x1_0000_0000_0000_0000

  datatype Metadata = Metadata(laneID: u16, batchID: u64, txCount: u32)

  datatype Transfer = Transfer(sender: Address, receiver: Address, amount: int)

  datatype BatchInput = BatchInput(meta: Metadata, pre: Vec, post: Vec, preBlind: int, postBlind: int)

  // Slots

  datatype SlotMap = SlotMap(accounts: seq<Address>, index: map<Address, nat>) {
    /** Slots and accounts match one to one. */
    predicate Valid() {
      && accounts != []
      && (forall i :: 0 <= i < |accounts| ==> accounts[i] in index && index[accounts[i]] == i)
      && (forall a :: a in index ==> index[a] < |accounts| && accounts[index[a]] == a)
    }
  }

  predicate Distinct(accounts: seq<Address>) {
    forall i, j :: 0 <= i < j < |accounts| ==> accounts[i] != accounts[j]
  }

  /** Refuses an empty list and a repeated address; otherwise every account gets its own slot. */
  method NewSlotMap(accounts: seq<Address>) returns (r: Option<SlotMap>)
    ensures r.Some? <==> accounts != [] && Distinct(accounts)
    ensures r.Some? ==> r.value.Valid() && r.value.accounts == accounts
  {
    if accounts == [] {
      return None;
    }
    var index: map<Address, nat> := map[];
    for i := 0 to |accounts|
      invariant Distinct(accounts[..i])
      invariant forall j :: 0 <= j < i ==> accounts[j] in index && index[accounts[j]] == j
      invariant forall a :: a in index ==> index[a] < i && accounts[index[a]] == a
    {
      if accounts[i] in index {
        assert accounts[index[accounts[i]]] == accounts[i];
        return None;
      }
      index := index[accounts[i] := i];
    }
    assert accounts[..|accounts|] == accounts;
    return Some(SlotMap(accounts, index));
  }

  // The builder

  /** Debits, then credits. */
  function ApplyTransfer(slots: SlotMap, values: Vec, tx: Transfer): Vec
    requires slots.Valid() && |values| == |slots.accounts| && tx.sender in slots.index && tx.receiver in slots.index
  {
    var i, j := slots.index[tx.sender], slots.index[tx.receiver];
    var debited := values[i := values[i] - tx.amount];
    debited[j := debited[j] + tx.amount]
  }

  function ApplyTransfers(slots: SlotMap, values: Vec, txs: seq<Transfer>): (r: Option<Vec>)
    requires slots.Valid() && |values| == |slots.accounts|
    ensures r.Some? ==> |r.value| == |values|
  {
    if txs == [] then Some(values)
    else
      var (init, tx) := (txs[..|txs| - 1], txs[|txs| - 1]);
      match ApplyTransfers(slots, values, init)
      case None => None
      case Some(v) =>
        if tx.sender in slots.index && tx.receiver in slots.index then Some(ApplyTransfer(slots, v, tx)) else None
  }

  predicate Known(slots: SlotMap, txs: seq<Transfer>) {
    forall tx :: tx in txs ==> tx.sender in slots.accounts && tx.receiver in slots.accounts
  }

  /** `build_state_transition_batch`: the post-state is updated in place, transfer by transfer. It succeeds if
      and only if the lengths agree and every address has a slot. */
  method BuildStateTransitionBatch(slots: SlotMap, pre: Vec, txs: seq<Transfer>, meta: Metadata, preBlind: int,
                                   postBlind: int)
    returns (r: Option<BatchInput>)
    requires slots.Valid()
    ensures r.Some? <==> |slots.accounts| == |pre| == |txs| == meta.txCount && Known(slots, txs)
    ensures r.Some? ==>
              && r.value == BatchInput(meta, pre, r.value.post, preBlind, postBlind)
              && ApplyTransfers(slots, pre, txs) == Some(r.value.post)
  {
    if |slots.accounts| != meta.txCount || |pre| != |slots.accounts| || |txs| != meta.txCount {
      return None;
    }
    var post := pre;
    for k := 0 to |txs|
      invariant ApplyTransfers(slots, pre, txs[..k]) == Some(post)
    {
      var tx := txs[k];
      assert txs[..k + 1][..k] == txs[..k];
      if tx.sender !in slots.index || tx.receiver !in slots.index {
        SlotsAreAccounts(slots, tx.sender);
        SlotsAreAccounts(slots, tx.receiver);
        return None;
      }
      var i, j := slots.index[tx.sender], slots.index[tx.receiver];
      post := post[i := post[i] - tx.amount];
      post := post[j := post[j] + tx.amount];
    }
    assert txs[..|txs|] == txs;
    AppliesExactlyWhenKnown(slots, pre, txs);
    return Some(BatchInput(meta, pre, post, preBlind, postBlind));
  }

  lemma {:induction false} AppliesExactlyWhenKnown(slots: SlotMap, values: Vec, txs: seq<Transfer>)
    requires slots.Valid() && |values| == |slots.accounts|
    ensures ApplyTransfers(slots, values, txs).Some? <==> Known(slots, txs)
  {
    if txs != [] {
      var init, tx := txs[..|txs| - 1], txs[|txs| - 1];
      AppliesExactlyWhenKnown(slots, values, init);
      assert txs == init + [tx];
      SlotsAreAccounts(slots, tx.sender);
      SlotsAreAccounts(slots, tx.receiver);
    }
  }

  lemma SlotsAreAccounts(slots: SlotMap, a: Address)
    requires slots.Valid()
    ensures a in slots.index <==> a in slots.accounts
  {
  }

  function Sum(values: Vec): int {
    if values == [] then 0 else Sum(values[..|values| - 1]) + values[|values| - 1]
  }

  /** It is the inner product with ones. */
  lemma {:induction false} SumIsDotOnes(values: Vec)
    ensures Sum(values) == Dot(values, seq(|values|, _ => 1))
  {
    if values != [] {
      var n := |values| - 1;
      SumIsDotOnes(values[..n]);
      DotAppend(values[..n], seq(n, _ => 1), [values[n]], [1]);
      assert values == values[..n] + [values[n]] && seq(n + 1, _ => 1) == seq(n, _ => 1) + [1];
      assert Dot([values[n]], [1]) == values[n] + Dot([], []);
    }
  }

  lemma {:induction false} SumUpdate(values: Vec, i: nat, x: int)
    requires i < |values|
    ensures Sum(values[i := x]) == Sum(values) - values[i] + x
  {
    var n := |values| - 1;
    if i < n {
      SumUpdate(values[..n], i, x);
      assert values[i := x][..n] == values[..n][i := x];
    } else {
      assert values[i := x][..n] == values[..n];
    }
  }

  /** What a list of transfers does to one account. */
  function Net(txs: seq<Transfer>, a: Address): int {
    if txs == [] then 0
    else
      var tx := txs[|txs| - 1];
      Net(txs[..|txs| - 1], a) + (if tx.receiver == a then tx.amount else 0) - (if tx.sender == a then tx.amount else 0)
  }

  /** Every slot ends with its account's net change, self-transfers included, and so the sum of the
      slots is preserved. */
  lemma {:induction false} BuilderIsExact(slots: SlotMap, pre: Vec, txs: seq<Transfer>)
    requires slots.Valid() && |pre| == |slots.accounts| && ApplyTransfers(slots, pre, txs).Some?
    ensures var post := ApplyTransfers(slots, pre, txs).value;
            && Sum(post) == Sum(pre)
            && forall i :: 0 <= i < |pre| ==> post[i] == pre[i] + Net(txs, slots.accounts[i])
  {
    if txs != [] {
      var init, tx := txs[..|txs| - 1], txs[|txs| - 1];
      BuilderIsExact(slots, pre, init);
      TransferKeepsSum(slots, ApplyTransfers(slots, pre, init).value, tx);
    }
  }

  lemma TransferKeepsSum(slots: SlotMap, values: Vec, tx: Transfer)
    requires slots.Valid() && |values| == |slots.accounts| && tx.sender in slots.index && tx.receiver in slots.index
    ensures Sum(ApplyTransfer(slots, values, tx)) == Sum(values)
  {
    hide Sum;
    var i, j := slots.index[tx.sender], slots.index[tx.receiver];
    var debited := values[i := values[i] - tx.amount];
    SumUpdate(values, i, values[i] - tx.amount);
    SumUpdate(debited, j, debited[j] + tx.amount);
  }

  // The circuit

  predicate ValidInput(input: BatchInput) {
    input.meta.txCount > 0 && |input.pre| == |input.post| == input.meta.txCount
  }

  function PreVector(input: BatchInput): Vec { input.pre + [input.preBlind] }

  function PostVector(input: BatchInput): Vec { input.post + [input.postBlind] }

  /** The constraints of `SumPreservingBatchCircuit`. */
  predicate Satisfied(n: nat, tau: int, aggregation: Vec, pre: Vec, post: Vec)
    requires |pre| == |post| == n + 1
  {
    && Pedersen.EnforceEqual(aggregation, [pre, post], tau, None)
    && Same(Sum(pre[..n]), Sum(post[..n]))
  }

  function TauWeights(tau: int): Vec {
    Pedersen.PowersOfTau(tau, None, 2).0
  }

  function Aggregation(pre: Vec, post: Vec, tau: int): (r: Vec)
    requires |pre| == |post|
    ensures |r| == |pre|
  {
    WeightedSum([pre, post], |pre|, TauWeights(tau))
  }

  /** Whatever aggregation the prover supplies: the circuit is satisfied if and only if it is, entry by entry,
      the two states weighted with the challenge and its square, and the two sums agree, in the field. */
  lemma SatisfiedExactlyWhen(n: nat, tau: int, aggregation: Vec, pre: Vec, post: Vec)
    requires |aggregation| == |pre| == |post| == n + 1
    ensures Satisfied(n, tau, aggregation, pre, post) <==>
            && (forall c :: 0 <= c <= n ==> Same(aggregation[c], pre[c] * tau + post[c] * (tau * tau)))
            && Same(Sum(pre[..n]), Sum(post[..n]))
  {
    hide Same, Sum;
    var weights := TauWeights(tau);
    TwoWeights(tau);
    forall c | 0 <= c <= n
      ensures Same(Pedersen.Column([pre, post], weights, c, 2), aggregation[c])
         <==> Same(aggregation[c], pre[c] * tau + post[c] * (tau * tau))
    {
      ColumnOfTwo(pre, post, weights, c);
      SameSwaps(aggregation[c], pre[c] * tau + post[c] * (tau * tau));
    }
  }

  lemma ColumnOfTwo(pre: Vec, post: Vec, weights: Vec, c: nat)
    requires c < |pre| == |post| && |weights| == 2
    ensures Pedersen.Column([pre, post], weights, c, 2) == pre[c] * weights[0] + post[c] * weights[1]
  {
    assert Pedersen.Column([pre, post], weights, c, 1) == pre[c] * weights[0];
  }

  /** The honest aggregation satisfies the circuit exactly when the sums agree in the field. */
  lemma SatisfiedIffSumsAgree(n: nat, tau: int, pre: Vec, post: Vec)
    requires |pre| == |post| == n + 1
    ensures Satisfied(n, tau, Aggregation(pre, post, tau), pre, post) <==> Same(Sum(pre[..n]), Sum(post[..n]))
  {
    Pedersen.EnforceEqualIsAggregation(Aggregation(pre, post, tau), [pre, post], tau, None);
    forall c | 0 <= c < n + 1 ensures Same(Aggregation(pre, post, tau)[c], Aggregation(pre, post, tau)[c]) {
      SameFrom(Aggregation(pre, post, tau)[c], Aggregation(pre, post, tau)[c], 0);
    }
  }

  // The challenge

  /** What is not modelled: Keccak-256, and the 64 big-endian coordinate bytes of a point. */
  datatype Hashing = Hashing(keccak: Bytes -> Digest, xy: int -> Bytes)

  const DOMAIN: Bytes := [72, 121, 112, 101, 114, 76, 50, 46, 83, 117, 109, 80, 114, 101, 115, 101, 114, 118, 105,
                          110, 103, 66, 97, 116, 99, 104, 46, 118, 49]

  function Meta(meta: Metadata): (b: Bytes)
    ensures |b| == 14
  {
    ToBE(meta.laneID, 2) + ToBE(meta.batchID, 8) + ToBE(meta.txCount, 4)
  }

  /** What is hashed; the contract packs the same bytes. */
  function ChallengePreimage(o: Hashing, meta: Metadata, prev: int, next: int, cm: int): Bytes {
    DOMAIN + Meta(meta) + o.xy(Residue(prev)) + o.xy(Residue(next)) + o.xy(Residue(cm))
  }

  function Tau(o: Hashing, meta: Metadata, prev: int, next: int, cm: int): int {
    FromBE(o.keccak(ChallengePreimage(o, meta, prev, next, cm))) % ORDER
  }

  lemma MetaInjective(m: Metadata, m': Metadata)
    requires Meta(m) == Meta(m')
    ensures m == m'
  {
    MetaBytes(m);
    MetaBytes(m');
  }

  /** Different group elements have different coordinates. */
  ghost predicate CoordinatesIdentify(o: Hashing) {
    && (forall p :: 0 <= p < ORDER ==> |o.xy(p)| == 64)
    && (forall p, p' :: 0 <= p < ORDER && 0 <= p' < ORDER && o.xy(p) == o.xy(p') ==> p == p')
  }

  /** The challenge binds everything it should: different metadata or points hash different bytes. */
  lemma PreimageInjective(o: Hashing, m: Metadata, p: int, n: int, c: int, m': Metadata, p': int, n': int, c': int)
    requires CoordinatesIdentify(o) && ChallengePreimage(o, m, p, n, c) == ChallengePreimage(o, m', p', n', c')
    ensures m == m' && Same(p, p') && Same(n, n') && Same(c, c')
  {
    var b, b' := ChallengePreimage(o, m, p, n, c), ChallengePreimage(o, m', p', n', c');
    Fields(DOMAIN, Meta(m), o.xy(Residue(p)), o.xy(Residue(n)), o.xy(Residue(c)));
    Fields(DOMAIN, Meta(m'), o.xy(Residue(p')), o.xy(Residue(n')), o.xy(Residue(c')));
    MetaInjective(m, m');
  }

  /** The challenge is the hash of 235 bytes, as a big-endian number, reduced. */
  lemma TauIsTheHash(o: Hashing, meta: Metadata, prev: int, next: int, cm: int) returns (b: Bytes)
    requires CoordinatesIdentify(o)
    ensures |b| == 235 && b[..29] == Ascii("HyperL2.SumPreservingBatch.v1")
    ensures FromBE(b[29..31]) == meta.laneID && FromBE(b[31..39]) == meta.batchID && FromBE(b[39..43]) == meta.txCount
    ensures b[43..107] == o.xy(Residue(prev)) && b[107..171] == o.xy(Residue(next)) && b[171..] == o.xy(Residue(cm))
    ensures var tau := Tau(o, meta, prev, next, cm); 0 <= tau < ORDER && Same(tau, FromBE(o.keccak(b)))
  {
    hide Meta, FromBE, ToBE;
    b := ChallengePreimage(o, meta, prev, next, cm);
    Fields(DOMAIN, Meta(meta), o.xy(Residue(prev)), o.xy(Residue(next)), o.xy(Residue(cm)));
    DomainIsAscii();
    MetaBytes(meta);
    assert b[..29] == DOMAIN;
    assert b[29..31] == b[29..43][..2] && b[31..39] == b[29..43][2..10] && b[39..43] == b[29..43][10..];
    ResidueIsRemainder(Tau(o, meta, prev, next, cm));
    ResidueIsRemainder(FromBE(o.keccak(b)));
  }

  lemma DomainIsAscii()
    ensures DOMAIN == Ascii("HyperL2.SumPreservingBatch.v1")
  {
  }

  /** The metadata's three numbers, big-endian. */
  lemma MetaBytes(meta: Metadata)
    ensures var m := Meta(meta);
            FromBE(m[..2]) == meta.laneID && FromBE(m[2..10]) == meta.batchID && FromBE(m[10..]) == meta.txCount
  {
    var m := Meta(meta);
    assert m[..2] == ToBE(meta.laneID, 2) && m[2..10] == ToBE(meta.batchID, 8) && m[10..] == ToBE(meta.txCount, 4);
    assert ByteRange(2) == 0x1_0000 && ByteRange(4) == 0x1_0000_0000 && ByteRange(8) == 0x1_0000_0000_0000_0000;
    BytesKeepTheScalar(meta.laneID, 2);
    BytesKeepTheScalar(meta.batchID, 8);
    BytesKeepTheScalar(meta.txCount, 4);
  }

  /** Equal challenges bind the batch's metadata and its three points, or there is a collision. */
  lemma TauBinds(o: Hashing, m: Metadata, p: int, n: int, c: int, m': Metadata, p': int, n': int, c': int)
    requires CoordinatesIdentify(o) && Tau(o, m, p, n, c) == Tau(o, m', p', n', c')
    ensures || (m == m' && Same(p, p') && Same(n, n') && Same(c, c'))
            || ScalarCollision(o.keccak, ChallengePreimage(o, m, p, n, c), ChallengePreimage(o, m', p', n', c'))
  {
    var b, b' := ChallengePreimage(o, m, p, n, c), ChallengePreimage(o, m', p', n', c');
    ResidueIsRemainder(FromBE(o.keccak(b)));
    ResidueIsRemainder(FromBE(o.keccak(b')));
    if b == b' { PreimageInjective(o, m, p, n, c, m', p', n', c'); }
  }

  lemma Fields(d: Bytes, m: Bytes, p: Bytes, n: Bytes, c: Bytes)
    requires |d| == 29 && |m| == 14 && |p| == |n| == |c| == 64
    ensures var b := d + m + p + n + c;
            b[29..43] == m && b[43..107] == p && b[107..171] == n && b[171..] == c
  {
  }

  /** The prover's library refuses points at infinity. */
  function ComputeBatchChallenge(o: Hashing, meta: Metadata, prev: int, next: int, cm: int): Option<int> {
    if Infinity(prev) || Infinity(next) || Infinity(cm) then None else Some(Tau(o, meta, prev, next, cm))
  }

  // Prover and verifiers

  datatype Artifact = Artifact(meta: Metadata, prev: int, next: int, proof: Groth.Proof)

  /** The prover's random choices, and the part of the witness that synthesis adds after the three
      committed vectors, with the quotient polynomial for the whole assignment. */
  datatype Coins = Coins(opening: int, r: int, s: int, extra: Vec, h: Vec)

  function Assignment(input: BatchInput, tau: int, extra: Vec): Vec
    requires ValidInput(input)
  {
    Aggregation(PreVector(input), PostVector(input), tau) + PreVector(input) + PostVector(input) + extra
  }

  function ProveBatch(o: Hashing, pk: Groth.ProvingKey, ck: Groth.CommittingKey, input: BatchInput, coins: Coins)
    : Option<Artifact>
    requires pk.vk.ck == ck && coins.h != []
  {
    var width := input.meta.txCount + 1;
    if !ValidInput(input) || |ck.batch| != width || |ck.proofDependent| != width * 2 then None
    else
      var pre, post := PreVector(input), PostVector(input);
      var cm := Groth.Commit(ck, pre + post, coins.opening);
      var prev, next := Pedersen.Commit(ck.batch, pre), Pedersen.Commit(ck.batch, post);
      match ComputeBatchChallenge(o, input.meta, prev, next, cm.cm)
      case None => None
      case Some(tau) =>
        var aux := Assignment(input, tau, coins.extra);
        Some(Artifact(input.meta, prev, next, Groth.CreateProof(pk, cm, coins.r, coins.s, coins.h, [tau], aux)))
  }

  /** Adds the aggregated state commitments to D, overwriting it in a copy of the proof. */
  method PrepareVerifierProof(o: Hashing, artifact: Artifact) returns (r: Option<(int, Groth.Proof)>)
    ensures r == PreparedProof(o, artifact)
  {
    var tau := ComputeBatchChallenge(o, artifact.meta, artifact.prev, artifact.next, artifact.proof.d);
    if tau.None? {
      return None;
    }
    var aggregation, _ := Pedersen.Aggregate([artifact.prev, artifact.next], tau.value, None);
    var verifierProof := artifact.proof;
    verifierProof := verifierProof.(d := verifierProof.d + aggregation);
    return Some((tau.value, verifierProof));
  }

  function PreparedProof(o: Hashing, artifact: Artifact): Option<(int, Groth.Proof)> {
    match ComputeBatchChallenge(o, artifact.meta, artifact.prev, artifact.next, artifact.proof.d)
    case None => None
    case Some(tau) =>
      Some((tau, artifact.proof.(d := artifact.proof.d + Dot([artifact.prev, artifact.next], TauWeights(tau)))))
  }

  function VerifyBatch(o: Hashing, vk: Groth.VerifyingKey, artifact: Artifact): Option<bool> {
    match PreparedProof(o, artifact)
    case None => None
    case Some((tau, proof)) => Groth.Verify(vk, proof, [tau])
  }

  /** `verifyBatchTransition` of the contract: one product of four pairings. */
  predicate VerifyOnChain(o: Hashing, vk: Groth.VerifyingKey, artifact: Artifact)
    requires |vk.gammaAbc| == 2
  {
    var tau := Tau(o, artifact.meta, artifact.prev, artifact.next, artifact.proof.d);
    var aggregation := artifact.prev * tau + artifact.next * ((tau * tau) % ORDER);
    var preparedD := artifact.proof.d + aggregation;
    var inputs := vk.gammaAbc[0] + vk.gammaAbc[1] * tau;
    Same(artifact.proof.a * artifact.proof.b + -(preparedD + inputs) * vk.gamma2 + -artifact.proof.c * vk.delta2
         + -vk.alpha * vk.beta2, 0)
  }

  lemma SameFormula(o: Hashing, vk: Groth.VerifyingKey, artifact: Artifact)
    requires |vk.gammaAbc| == 2 && !Infinity(artifact.prev) && !Infinity(artifact.next) && !Infinity(artifact.proof.d)
    ensures VerifyBatch(o, vk, artifact) == Some(VerifyOnChain(o, vk, artifact))
  {
    hide Tau, Same, Dot, TauWeights;
    var tau := Tau(o, artifact.meta, artifact.prev, artifact.next, artifact.proof.d);
    var weights := TauWeights(tau);
    TwoWeights(tau);
    DotOfTwo([artifact.prev, artifact.next], weights);
    DotOfTwo(vk.gammaAbc, [1, tau]);
    assert [1] + [tau] == [1, tau];
    var d := artifact.proof.d + (artifact.prev * tau + artifact.next * (tau * tau))
      + (vk.gammaAbc[0] + vk.gammaAbc[1] * tau);
    var d' := artifact.proof.d + (artifact.prev * tau + artifact.next * ((tau * tau) % ORDER))
            + (vk.gammaAbc[0] + vk.gammaAbc[1] * tau);
    ReducedSquare(artifact.next, tau, d - artifact.next * (tau * tau), vk.gamma2);
    VerdictOfSame(artifact.proof.a * artifact.proof.b, d, d', vk.gamma2, artifact.proof.c, vk.delta2, vk.alpha,
                  vk.beta2);
  }

  /** The contract and the library give the same verdict exactly when none of the three points is at
      infinity: there the library gives none. */
  lemma SameVerdictOnChain(o: Hashing, vk: Groth.VerifyingKey, artifact: Artifact)
    requires |vk.gammaAbc| == 2
    ensures VerifyBatch(o, vk, artifact) == Some(VerifyOnChain(o, vk, artifact)) <==>
            !Infinity(artifact.prev) && !Infinity(artifact.next) && !Infinity(artifact.proof.d)
  {
    hide Tau, VerifyOnChain, Infinity, Groth.Verify;
    if !Infinity(artifact.prev) && !Infinity(artifact.next) && !Infinity(artifact.proof.d) {
      SameFormula(o, vk, artifact);
    }
  }

  /** A key and an artifact with points at infinity that the contract accepts and the library
      refuses, whatever the hash. */
  lemma AcceptedOnChainOnly(o: Hashing, meta: Metadata) returns (vk: Groth.VerifyingKey, artifact: Artifact)
    ensures |vk.gammaAbc| == 2 && VerifyOnChain(o, vk, artifact) && VerifyBatch(o, vk, artifact) == None
  {
    vk := Groth.VerifyingKey(Groth.CommittingKey([], [], 1, 1), 1, 1, 1, 1, [0, 0]);
    artifact := Artifact(meta, 0, 0, Groth.Proof(1, 1, 0, 0));
    hide Tau;
    assert Infinity(artifact.prev);
  }

  lemma TwoWeights(tau: int)
    ensures TauWeights(tau) == [tau, tau * tau]
  {
    assert Powers(tau * tau, tau, 1) == [tau * tau] + Powers(tau * tau * tau, tau, 0);
  }

  lemma ReducedSquare(next: int, tau: int, rest: int, gamma: int)
    ensures Same((rest + next * (tau * tau)) * gamma, (rest + next * ((tau * tau) % ORDER)) * gamma)
  {
    var k := (tau * tau) / ORDER;
    assert tau * tau == k * ORDER + (tau * tau) % ORDER;
    SameFrom(tau * tau, (tau * tau) % ORDER, k);
    hide Same;
    SameMul(tau * tau, (tau * tau) % ORDER, next);
    SameFrom(rest, rest, 0);
    SameAdd(rest, rest, next * (tau * tau), next * ((tau * tau) % ORDER));
    SameMul(rest + next * (tau * tau), rest + next * ((tau * tau) % ORDER), gamma);
  }

  lemma VerdictOfSame(ab: int, d: int, d': int, gamma: int, c: int, delta: int, alpha: int, beta: int)
    requires Same(d * gamma, d' * gamma)
    ensures Same(ab + d * -gamma + c * -delta, alpha * beta)
       <==> Same(ab + -d' * gamma + -c * delta + -alpha * beta, 0)
  {
    hide Same;
    Groth.Negate(d, gamma);
    Groth.Negate(c, delta);
    assert -d' * gamma == -(d' * gamma) && -c * delta == -(c * delta) && -alpha * beta == -(alpha * beta);
    var x, y := ab + d * -gamma + c * -delta, alpha * beta;
    var k := SameBy(d * gamma, d' * gamma);
    if Same(x, y) {
      var j := SameBy(x, y);
      SameFrom(ab + -d' * gamma + -c * delta + -alpha * beta, 0, j + k);
    }
    if Same(ab + -d' * gamma + -c * delta + -alpha * beta, 0) {
      var j := SameBy(ab + -d' * gamma + -c * delta + -alpha * beta, 0);
      SameFrom(x, y, j - k);
    }
  }

  // Completeness

  lemma AggregatedCommitments(key: Vec, pre: Vec, post: Vec, tau: int)
    requires |pre| == |post|
    ensures Dot([Pedersen.Commit(key, pre), Pedersen.Commit(key, post)], TauWeights(tau))
         == Dot(key, Aggregation(pre, post, tau))
  {
    assert Pedersen.BatchCommit(key, [pre, post]) == [Pedersen.Commit(key, pre), Pedersen.Commit(key, post)];
    Pedersen.CommitAggregates(key, [pre, post], |pre|, TauWeights(tau));
  }

  lemma AssignmentSlices(input: BatchInput, tau: int, extra: Vec)
    requires ValidInput(input)
    ensures var aux, width := Assignment(input, tau, extra), input.meta.txCount + 1;
            && |aux| == 3 * width + |extra|
            && aux[..width] == Aggregation(PreVector(input), PostVector(input), tau)
            && aux[width..3 * width] == PreVector(input) + PostVector(input)
  {
    hide Aggregation;
  }

  /** The keys, and a witness of the right size for them. */
  ghost predicate SetUp(td: Groth.Trapdoor, q: Groth.Qap, inverse: Groth.Inverse, pk: Groth.ProvingKey,
                        input: BatchInput, coins: Coins)
  {
    var width := input.meta.txCount + 1;
    var n := Groth.Layout(2, width, 3 * width);
    && ValidInput(input) && Groth.Fits(q, n) && Groth.Inverts(inverse)
    && Groth.Generate(td, q, n, inverse) == Some(pk)
    && |q.a| == 2 + 3 * width + |coins.extra| && coins.h != []
  }

  /** The three commitments of the batch, as its artifact carries them, and its challenge. */
  function Commitments(ck: Groth.CommittingKey, input: BatchInput, coins: Coins): (int, int, int)
    requires ValidInput(input)
  {
    (Pedersen.Commit(ck.batch, PreVector(input)), Pedersen.Commit(ck.batch, PostVector(input)),
     Groth.Commit(ck, PreVector(input) + PostVector(input), coins.opening).cm)
  }

  predicate CommitsInfinity(ck: Groth.CommittingKey, input: BatchInput, coins: Coins)
    requires ValidInput(input)
  {
    var (prev, next, cm) := Commitments(ck, input, coins);
    Infinity(prev) || Infinity(next) || Infinity(cm)
  }

  function BatchTau(o: Hashing, ck: Groth.CommittingKey, input: BatchInput, coins: Coins): int
    requires ValidInput(input)
  {
    var (prev, next, cm) := Commitments(ck, input, coins);
    Tau(o, input.meta, prev, next, cm)
  }

  /** When there is no proof, for any keys: the batch is empty, a length does not fit it, or a commitment is the
      point at infinity. */
  lemma ProverFailsExactlyWhen(o: Hashing, pk: Groth.ProvingKey, ck: Groth.CommittingKey, input: BatchInput,
                               coins: Coins)
    requires pk.vk.ck == ck && coins.h != []
    ensures var n := input.meta.txCount;
            var pre, post := input.pre + [input.preBlind], input.post + [input.postBlind];
            ProveBatch(o, pk, ck, input, coins).None? <==>
            || n == 0 || |input.pre| != n || |input.post| != n || |ck.batch| != n + 1
            || |ck.proofDependent| != 2 * (n + 1)
            || Same(Dot(ck.batch, pre), 0) || Same(Dot(ck.batch, post), 0)
            || Same(Dot(ck.proofDependent, pre + post) + ck.gammaEta * coins.opening, 0)
  {
    hide Same, Dot, Assignment, Tau;
  }

  /** With keys of the right size the prover fails only on points at infinity. */
  lemma ProverFailsOnlyAtInfinity(o: Hashing, td: Groth.Trapdoor, q: Groth.Qap, inverse: Groth.Inverse,
                                  pk: Groth.ProvingKey, input: BatchInput, coins: Coins)
    requires SetUp(td, q, inverse, pk, input, coins)
    ensures var proved := ProveBatch(o, pk, pk.vk.ck, input, coins);
            && (proved.None? <==> CommitsInfinity(pk.vk.ck, input, coins))
            && (proved.Some? ==>
                  && proved.value.meta == input.meta
                  && (proved.value.prev, proved.value.next, proved.value.proof.d)
                     == Commitments(pk.vk.ck, input, coins))
  {
    hide Infinity, Assignment, Groth.Generate, Groth.Commit;
  }

  /** The exact verdict on the batch made from any input, whatever the opening, blinds and randomness:
      there is no proof if and only if a commitment is the point at infinity; otherwise it is accepted if
      and only if the circuit's equation holds for the assignment. */
  lemma BatchVerdict(o: Hashing, td: Groth.Trapdoor, q: Groth.Qap, inverse: Groth.Inverse, pk: Groth.ProvingKey,
                     input: BatchInput, coins: Coins)
    requires SetUp(td, q, inverse, pk, input, coins)
    ensures var proved := ProveBatch(o, pk, pk.vk.ck, input, coins);
            if CommitsInfinity(pk.vk.ck, input, coins) then proved.None?
            else
              && proved.Some?
              && var tau := BatchTau(o, pk.vk.ck, input, coins);
                 var z := [1] + [tau] + Assignment(input, tau, coins.extra);
                 VerifyBatch(o, pk.vk, proved.value)
                 == Some(Same(td.g1 * td.g2 * Groth.QapError(q, z, coins.h), 0))
  {
    hide Tau, Same, Commitments, Infinity, ProveBatch, VerifyBatch, Groth.QapError, Assignment, Groth.Generate;
    ProverFailsOnlyAtInfinity(o, td, q, inverse, pk, input, coins);
    if !CommitsInfinity(pk.vk.ck, input, coins) {
      ProvedVerdict(o, td, q, inverse, pk, input, coins);
    }
  }

  lemma ProvedVerdict(o: Hashing, td: Groth.Trapdoor, q: Groth.Qap, inverse: Groth.Inverse, pk: Groth.ProvingKey,
                      input: BatchInput, coins: Coins)
    requires SetUp(td, q, inverse, pk, input, coins) && ProveBatch(o, pk, pk.vk.ck, input, coins).Some?
    ensures var artifact := ProveBatch(o, pk, pk.vk.ck, input, coins).value;
            var tau := Tau(o, artifact.meta, artifact.prev, artifact.next, artifact.proof.d);
            var z := [1] + [tau] + Assignment(input, tau, coins.extra);
            VerifyBatch(o, pk.vk, artifact) == Some(Same(td.g1 * td.g2 * Groth.QapError(q, z, coins.h), 0))
  {
    hide Tau, Same, Aggregation, Groth.QapError, Groth.Residual, Groth.PairingHolds, Groth.Generate, Dot, TauWeights;
    var width := input.meta.txCount + 1;
    var n := Groth.Layout(2, width, 3 * width);
    var artifact := ProveBatch(o, pk, pk.vk.ck, input, coins).value;
    var pre, post := PreVector(input), PostVector(input);
    var tau := Tau(o, artifact.meta, artifact.prev, artifact.next, artifact.proof.d);
    var aux := Assignment(input, tau, coins.extra);
    AssignmentSlices(input, tau, coins.extra);
    AggregatedCommitments(pk.vk.ck.batch, pre, post, tau);
    Groth.HonestResidual(td, q, n, inverse, pk, coins.opening, coins.r, coins.s, coins.h, [tau], aux,
                         Dot([artifact.prev, artifact.next], TauWeights(tau)));
    var proof := PreparedProof(o, artifact).value.1;
    var prepared := Groth.PreparedInputs(pk.vk, [tau]).value;
    Groth.HoldsWithoutResidual(pk.vk, proof, prepared);
    VanishesWith(Groth.Residual(pk.vk, proof, prepared), td.g1 * td.g2 * Groth.QapError(q, [1] + [tau] + aux, coins.h));
  }

  lemma VanishesWith(x: int, y: int)
    requires Same(x, y)
    ensures Same(x, 0) <==> Same(y, 0)
  {
    hide Same;
    var k := SameBy(x, y);
    if Same(x, 0) {
      var j := SameBy(x, 0);
      SameFrom(y, 0, j - k);
    }
    if Same(y, 0) {
      var j := SameBy(y, 0);
      SameFrom(x, 0, j + k);
    }
  }

  /** The circuit's QAP is right: an assignment that satisfies the circuit has no error. */
  predicate QapIsRight(q: Groth.Qap, input: BatchInput, tau: int, coins: Coins)
    requires ValidInput(input) && coins.h != [] && 1 <= q.size
  {
    var (pre, post) := (PreVector(input), PostVector(input));
    Satisfied(input.meta.txCount, tau, Aggregation(pre, post, tau), pre, post)
    ==> Same(Groth.QapError(q, [1] + [tau] + Assignment(input, tau, coins.extra), coins.h), 0)
  }

  /** Every batch of transfers the builder accepts has an accepted proof, off chain and on chain, for
      every slot map, blind, opening and prover randomness, unless a commitment is the point at infinity. */
  lemma BatchCompleteness(o: Hashing, td: Groth.Trapdoor, q: Groth.Qap, inverse: Groth.Inverse, pk: Groth.ProvingKey,
                          slots: SlotMap, txs: seq<Transfer>, input: BatchInput, coins: Coins)
    requires SetUp(td, q, inverse, pk, input, coins)
    requires slots.Valid() && |slots.accounts| == |input.pre| == |txs| == input.meta.txCount
    requires ApplyTransfers(slots, input.pre, txs) == Some(input.post)
    requires QapIsRight(q, input, BatchTau(o, pk.vk.ck, input, coins), coins)
    ensures var proved := ProveBatch(o, pk, pk.vk.ck, input, coins);
            if CommitsInfinity(pk.vk.ck, input, coins) then proved.None?
            else
              && proved.Some? && VerifyBatch(o, pk.vk, proved.value) == Some(true)
              && |pk.vk.gammaAbc| == 2 && VerifyOnChain(o, pk.vk, proved.value)
  {
    hide Tau, Same, Aggregation, Groth.QapError, Groth.Generate, VerifyBatch, VerifyOnChain, Satisfied;
    var tau := BatchTau(o, pk.vk.ck, input, coins);
    BuilderIsExact(slots, input.pre, txs);
    InputIsSatisfied(input, tau);
    BatchVerdict(o, td, q, inverse, pk, input, coins);
    SameMul(Groth.QapError(q, [1] + [tau] + Assignment(input, tau, coins.extra), coins.h), 0, td.g1 * td.g2);
    if !CommitsInfinity(pk.vk.ck, input, coins) {
      SameVerdictOnChain(o, pk.vk, ProveBatch(o, pk, pk.vk.ck, input, coins).value);
    }
  }

  lemma InputIsSatisfied(input: BatchInput, tau: int)
    requires ValidInput(input) && Sum(input.pre) == Sum(input.post)
    ensures var (pre, post) := (PreVector(input), PostVector(input));
            Satisfied(input.meta.txCount, tau, Aggregation(pre, post, tau), pre, post)
  {
    hide Aggregation;
    var n := input.meta.txCount;
    assert PreVector(input)[..n] == input.pre && PostVector(input)[..n] == input.post;
    SameFrom(Sum(input.pre), Sum(input.post), 0);
    SatisfiedIffSumsAgree(n, tau, PreVector(input), PostVector(input));
  }
}
