/** The L1 certification node: a replay-safe ledger that applies each certified block once. */
module L1 {
  import opened Frame
  import opened Words

  datatype ProofRecord = ProofRecord(blockIndex: u32, commitment: Digest, proofBytes: Bytes)

  datatype Request = Request(
    phase: string, blockIndex: u32, commitment: Digest, proof: ProofRecord, txCount: u32, txs: seq<Tx12>)

  /** The reason of an answer; the log entry's error text follows from it. */
  datatype Reason = Fine | Duplicate | Conflict | BadPayload | BadProof

  datatype Response = Response(
    accepted: bool, duplicate: bool, proofOK: bool, finalized: bool, reason: Reason, blockIndex: u32)

  datatype AcceptedBlock = AcceptedBlock(commitment: Digest, txCount: u32, stateVer: nat, deltaCount: nat)

  datatype BlockLog = BlockLog(
    phase: string, blockIndex: u32, txCount: u32, proofVerified: bool, finalized: bool, duplicate: bool,
    stateApplied: bool, stateVersion: nat, deltaCount: nat, reason: Reason, commitment: Digest)

  /** SHA-256 is a parameter; `Oracle` also fixes the seed the node checks proofs with. */
  datatype Oracle = Oracle(sha: Bytes -> Digest, seed: Bytes) {
    function CommitmentFromTxs(blockIndex: u32, txs: seq<Tx12>): Digest {
      sha(BlockPreimage(blockIndex, txs))
    }

    function GenerateProofBytes(blockIndex: u32): Bytes {
      sha(LE32(blockIndex) + sha(seed))
    }
  }

  // Balances

  type Balances = map<u32, int>

  /** A missing account reads as zero. */
  function Get(state: Balances, a: u32): int {
    if a in state then state[a] else 0
  }

  function ApplyTx(state: Balances, tx: Tx12): Balances {
    var debited := state[tx.sender := AsInt64(Get(state, tx.sender) - tx.amount)];
    debited[tx.receiver := AsInt64(Get(debited, tx.receiver) + tx.amount)]
  }

  function ApplyTxs(state: Balances, txs: seq<Tx12>): Balances {
    if txs == [] then state else ApplyTx(ApplyTxs(state, txs[..|txs| - 1]), txs[|txs| - 1])
  }

  /** What one transfer, and a list of transfers, does to an account of an ideal ledger. */
  function Delta(tx: Tx12, a: u32): int {
    (if tx.receiver == a then tx.amount as int else 0) - (if tx.sender == a then tx.amount as int else 0)
  }

  function Balance(txs: seq<Tx12>, a: u32): int {
    if txs == [] then 0 else Balance(txs[..|txs| - 1], a) + Delta(txs[|txs| - 1], a)
  }

  function Touched(txs: seq<Tx12>): set<u32> {
    if txs == [] then {} else Touched(txs[..|txs| - 1]) + {txs[|txs| - 1].sender, txs[|txs| - 1].receiver}
  }

  lemma ApplyTxIsDelta(state: Balances, tx: Tx12, a: u32)
    requires AsInt64(Get(state, a)) == Get(state, a)
    ensures Get(ApplyTx(state, tx), a) == AsInt64(Get(state, a) + Delta(tx, a))
  {
    AsInt64Sum(Get(state, a) - tx.amount, tx.amount);
  }

  /** The node's 64-bit balances are the ideal ledger's, modulo 2^64. */
  lemma {:induction false} ApplyTxsIsBalance(state: Balances, txs: seq<Tx12>, a: u32)
    requires AsInt64(Get(state, a)) == Get(state, a)
    ensures Get(ApplyTxs(state, txs), a) == AsInt64(Get(state, a) + Balance(txs, a))
  {
    if txs != [] {
      var pre, tx := txs[..|txs| - 1], txs[|txs| - 1];
      ApplyTxsIsBalance(state, pre, a);
      AsInt64Twice(Get(state, a) + Balance(pre, a));
      ApplyTxIsDelta(ApplyTxs(state, pre), tx, a);
      AsInt64Sum(Get(state, a) + Balance(pre, a), Delta(tx, a));
    }
  }

  /** One transfer: the sender loses the amount and the receiver gains it, in 64 bits; a transfer to oneself
      changes nothing, and nobody else is concerned. */
  lemma TransferMoves(state: Balances, tx: Tx12, a: u32)
    requires AsInt64(Get(state, a)) == Get(state, a)
    ensures Get(ApplyTx(state, tx), a)
         == if tx.sender == tx.receiver || (a != tx.sender && a != tx.receiver) then Get(state, a)
            else if a == tx.sender then AsInt64(Get(state, a) - tx.amount)
            else AsInt64(Get(state, a) + tx.amount)
  {
    ApplyTxIsDelta(state, tx, a);
  }

  lemma AsInt64Twice(x: int)
    ensures AsInt64(AsInt64(x)) == AsInt64(x)
  {
  }

  lemma {:induction false} BalanceAppend(txs: seq<Tx12>, us: seq<Tx12>, a: u32)
    ensures Balance(txs + us, a) == Balance(txs, a) + Balance(us, a)
  {
    if us == [] {
      assert txs + us == txs;
    } else {
      var n := |us| - 1;
      assert (txs + us)[..|txs + us| - 1] == txs + us[..n];
      BalanceAppend(txs, us[..n], a);
    }
  }

  /** Each balance stays far from the 64-bit limits while fewer than 2^31 transfers are applied. */
  lemma {:induction false} BalanceBound(txs: seq<Tx12>, a: u32)
    ensures -0x1_0000_0000 * |txs| <= Balance(txs, a) <= 0x1_0000_0000 * |txs|
  {
    if txs != [] { BalanceBound(txs[..|txs| - 1], a); }
  }

  /** Balances depend on which transfers were applied, not on their order. */
  lemma {:induction false} BalanceOrderFree(txs: seq<Tx12>, us: seq<Tx12>, a: u32)
    requires multiset(txs) == multiset(us)
    ensures Balance(txs, a) == Balance(us, a)
    decreases |txs|
  {
    if txs == [] {
      assert |us| == |multiset(us)| == |multiset(txs)| == 0;
    } else {
      var n := |txs| - 1;
      var x := txs[n];
      assert txs == txs[..n] + [x];
      assert x in multiset(txs);
      var i :| 0 <= i < |us| && us[i] == x;
      TakeOut(us, i);
      assert multiset(txs) == multiset(txs[..n]) + multiset{x};
      assert multiset(txs[..n]) == multiset(txs) - multiset{x};
      BalanceOrderFree(txs[..n], us[..i] + us[i + 1..], a);
      BalanceTakeOut(us, i, a);
    }
  }

  lemma TakeOut<X>(s: seq<X>, i: nat)
    requires i < |s|
    ensures multiset(s) == multiset(s[..i] + s[i + 1..]) + multiset{s[i]}
  {
    assert s == s[..i] + ([s[i]] + s[i + 1..]);
  }

  lemma BalanceTakeOut(us: seq<Tx12>, i: nat, a: u32)
    requires i < |us|
    ensures Balance(us, a) == Balance(us[..i] + us[i + 1..], a) + Delta(us[i], a)
  {
    assert us == us[..i] + ([us[i]] + us[i + 1..]);
    BalanceAppend(us[..i], [us[i]] + us[i + 1..], a);
    BalanceAppend([us[i]], us[i + 1..], a);
    BalanceAppend(us[..i], us[i + 1..], a);
    assert [us[i]][..0] == [];
  }

  /** The sum of the balances of accounts 0 to `n - 1`. */
  function SumBelow(txs: seq<Tx12>, n: nat): int
    requires n <= 0x1_0000_0000
  {
    if n == 0 then 0 else SumBelow(txs, n - 1) + Balance(txs, n - 1)
  }

  lemma {:induction false} SumBelowStep(txs: seq<Tx12>, tx: Tx12, n: nat)
    requires n <= 0x1_0000_0000
    ensures SumBelow(txs + [tx], n) == SumBelow(txs, n)
            + (if tx.receiver < n then tx.amount as int else 0) - (if tx.sender < n then tx.amount as int else 0)
  {
    if n > 0 {
      SumBelowStep(txs, tx, n - 1);
      assert (txs + [tx])[..|txs|] == txs;
    }
  }

  /** Money is conserved: the balances of all accounts in use sum to zero. */
  lemma {:induction false} BalancesSumToZero(txs: seq<Tx12>, n: nat)
    requires n <= 0x1_0000_0000
    requires forall tx :: tx in txs ==> tx.sender < n && tx.receiver < n
    ensures SumBelow(txs, n) == 0
    decreases |txs|
  {
    if txs == [] {
      SumOfNothing(n);
    } else {
      var pre := txs[..|txs| - 1];
      assert txs == pre + [txs[|txs| - 1]];
      BalancesSumToZero(pre, n);
      SumBelowStep(pre, txs[|txs| - 1], n);
    }
  }

  lemma {:induction false} SumOfNothing(n: nat)
    requires n <= 0x1_0000_0000
    ensures SumBelow([], n) == 0
  {
    if n > 0 { SumOfNothing(n - 1); }
  }

  // The node

  /** The node's state as a value, and what a submission does to it. */
  datatype Node = Node(blocks: map<u32, AcceptedBlock>, blockLog: seq<BlockLog>, state: Balances,
                       stateVersion: nat, verifiedTx: nat)

  const EMPTY_NODE := Node(map[], [], map[], 0, 0)

  predicate ProofOK(o: Oracle, req: Request) {
    && req.proof.proofBytes == o.GenerateProofBytes(req.blockIndex)
    && req.proof.blockIndex == req.blockIndex
    && req.proof.commitment == req.commitment
  }

  predicate PayloadOK(o: Oracle, req: Request) {
    && req.txCount == |req.txs| % 0x1_0000_0000
    && (forall tx :: tx in req.txs ==> tx.amount != 0)
    && o.CommitmentFromTxs(req.blockIndex, req.txs) == req.commitment
  }

  function Entry(req: Request, proofVerified: bool, finalized: bool, duplicate: bool, stateApplied: bool,
                 stateVersion: nat, deltaCount: nat, reason: Reason): BlockLog
  {
    BlockLog(req.phase, req.blockIndex, req.txCount, proofVerified, finalized, duplicate, stateApplied,
             stateVersion, deltaCount, reason, req.commitment)
  }

  /** The entry of a refusal that changes nothing. */
  function Refusal(n: Node, req: Request, proofVerified: bool, reason: Reason): BlockLog {
    Entry(req, proofVerified, false, false, false, n.stateVersion, |req.txs|, reason)
  }

  predicate SameBlock(b: AcceptedBlock, req: Request) {
    b.commitment == req.commitment && b.txCount == req.txCount
  }

  /** The five outcomes of a submission: duplicate, conflict, bad payload, bad proof, accepted. */
  function Submit(o: Oracle, n: Node, req: Request): (Node, Response) {
    var proofOK, payloadOK := ProofOK(o, req), PayloadOK(o, req);
    if req.blockIndex in n.blocks then
      var b := n.blocks[req.blockIndex];
      if SameBlock(b, req) then
        (n.(blockLog := n.blockLog + [Entry(req, proofOK, proofOK, true, false, b.stateVer, b.deltaCount, Duplicate)]),
         Response(proofOK && payloadOK, true, proofOK, proofOK && payloadOK, Duplicate, req.blockIndex))
      else
        (n.(blockLog := n.blockLog + [Refusal(n, req, false, Conflict)]),
         Response(false, true, false, false, Conflict, req.blockIndex))
    else if !payloadOK then
      (n.(blockLog := n.blockLog + [Refusal(n, req, proofOK, BadPayload)]),
       Response(false, false, proofOK, false, BadPayload, req.blockIndex))
    else if !proofOK then
      (n.(blockLog := n.blockLog + [Refusal(n, req, false, BadProof)]),
       Response(false, false, false, false, BadProof, req.blockIndex))
    else
      (Accept(n, req), Response(true, false, true, true, Fine, req.blockIndex))
  }

  function Accept(n: Node, req: Request): Node {
    var version, delta := n.stateVersion + 1, |Touched(req.txs)|;
    Node(n.blocks[req.blockIndex := AcceptedBlock(req.commitment, req.txCount, version, delta)],
         n.blockLog + [Entry(req, true, true, false, true, version, delta, Fine)],
         ApplyTxs(n.state, req.txs), version, n.verifiedTx + req.txCount)
  }

  /** The submission is the first good one for its block. */
  predicate Applies(o: Oracle, n: Node, req: Request) {
    req.blockIndex !in n.blocks && PayloadOK(o, req) && ProofOK(o, req)
  }

  /** What the answer says, with every condition written out: whether the request is accepted is whether
      it is good and the node now holds its block; it is a duplicate if the index was known; and each
      reason has its one cause. */
  lemma AnswersExactly(o: Oracle, n: Node, req: Request)
    ensures var (n', r) := Submit(o, n, req);
            var proofOK := req.proof == ProofRecord(req.blockIndex, req.commitment,
                                                    o.sha(LE32(req.blockIndex) + o.sha(o.seed)));
            var payloadOK := req.txCount == |req.txs| % 0x1_0000_0000 && (forall tx :: tx in req.txs ==> tx.amount != 0)
                             && req.commitment == o.sha(BlockPreimage(req.blockIndex, req.txs));
            var b := req.blockIndex;
            var known := b in n.blocks;
            var same := known && n.blocks[b].commitment == req.commitment && n.blocks[b].txCount == req.txCount;
            && r.blockIndex == b && (r.duplicate <==> known) && (r.proofOK <==> proofOK && (known ==> same))
            && (r.accepted <==> proofOK && payloadOK && (known ==> same)) && r.finalized == r.accepted
            && (r.accepted <==> proofOK && payloadOK && b in n'.blocks
                                && n'.blocks[b].commitment == req.commitment && n'.blocks[b].txCount == req.txCount)
            && (r.accepted && !r.duplicate <==> n'.stateVersion == n.stateVersion + 1)
            && (r.reason.Duplicate? <==> same) && (r.reason.Conflict? <==> known && !same)
            && (r.reason.BadPayload? <==> !known && !payloadOK)
            && (r.reason.BadProof? <==> !known && payloadOK && !proofOK)
            && (r.reason.Fine? <==> !known && payloadOK && proofOK)
  {
    hide ApplyTxs, Touched;
  }

  /** What is logged for a submission: the request's own data, the verdict on its proof as answered, and
      the version and count of the block it is about. */
  lemma LogsExactly(o: Oracle, n: Node, req: Request)
    ensures var (n', r) := Submit(o, n, req);
            var same := r.reason.Duplicate?;
            && |n'.blockLog| == |n.blockLog| + 1 && n'.blockLog[..|n.blockLog|] == n.blockLog
            && var e := n'.blockLog[|n.blockLog|];
               && (e.phase, e.blockIndex, e.txCount, e.commitment)
                  == (req.phase, req.blockIndex, req.txCount, req.commitment)
               && e.reason == r.reason && e.proofVerified == r.proofOK && e.duplicate == same
               && (e.finalized <==> r.accepted || (same && r.proofOK))
               && (e.stateApplied <==> r.accepted && !r.duplicate)
               && e.stateVersion == (if same then n.blocks[req.blockIndex].stateVer else n'.stateVersion)
               && e.deltaCount == (if same then n.blocks[req.blockIndex].deltaCount
                                   else if r.accepted then |Touched(req.txs)| else |req.txs|)
  {
    hide ApplyTxs, Touched, PayloadOK, ProofOK;
  }

  lemma {:induction false} TouchedAre(txs: seq<Tx12>, a: u32)
    ensures a in Touched(txs) <==> exists tx :: tx in txs && (tx.sender == a || tx.receiver == a)
  {
    if txs != [] {
      var n := |txs| - 1;
      TouchedAre(txs[..n], a);
      assert txs == txs[..n] + [txs[n]];
    }
  }

  /** The accounts the node keeps are those its transfers touched. */
  lemma {:induction false} AccountsAreTouched(state: Balances, txs: seq<Tx12>)
    ensures ApplyTxs(state, txs).Keys == state.Keys + Touched(txs)
  {
    hide AsInt64;
    if txs != [] { AccountsAreTouched(state, txs[..|txs| - 1]); }
  }

  class L1CertNode {
    const oracle: Oracle
    var blocks: map<u32, AcceptedBlock>
    var blockLog: seq<BlockLog>
    var state: Balances
    var stateVersion: nat
    var verifiedTx: nat    // the metric AddVerifiedTx feeds

    constructor (oracle: Oracle)
      ensures this.oracle == oracle && Value() == EMPTY_NODE
    {
      this.oracle := oracle;
      blocks, blockLog, state, stateVersion, verifiedTx := map[], [], map[], 0, 0;
    }

    ghost function Value(): Node
      reads this
    {
      Node(blocks, blockLog, state, stateVersion, verifiedTx)
    }

    method SubmitCertifiedBlock(req: Request) returns (r: Response)
      modifies this
      ensures (Value(), r) == Submit(oracle, old(Value()), req)
    {
      var proofOK := req.proof.proofBytes == oracle.GenerateProofBytes(req.blockIndex);
      if req.proof.blockIndex != req.blockIndex {
        proofOK := false;
      }
      if req.proof.commitment != req.commitment {
        proofOK := false;
      }
      var payloadOK := CheckPayload(req);

      if req.blockIndex in blocks {
        var existing := blocks[req.blockIndex];
        if existing.commitment == req.commitment && existing.txCount == req.txCount {
          blockLog := blockLog + [Entry(req, proofOK, proofOK, true, false,
                                        existing.stateVer, existing.deltaCount, Duplicate)];
          return Response(proofOK && payloadOK, true, proofOK, proofOK && payloadOK, Duplicate, req.blockIndex);
        }
        blockLog := blockLog + [Entry(req, false, false, false, false, stateVersion, |req.txs|, Conflict)];
        return Response(false, true, false, false, Conflict, req.blockIndex);
      }
      if !payloadOK {
        blockLog := blockLog + [Entry(req, proofOK, false, false, false, stateVersion, |req.txs|, BadPayload)];
        return Response(false, false, proofOK, false, BadPayload, req.blockIndex);
      }
      if !proofOK {
        blockLog := blockLog + [Entry(req, false, false, false, false, stateVersion, |req.txs|, BadProof)];
        return Response(false, false, false, false, BadProof, req.blockIndex);
      }
      var deltaCount := ApplyAll(req.txs);
      stateVersion := stateVersion + 1;
      blocks := blocks[req.blockIndex := AcceptedBlock(req.commitment, req.txCount, stateVersion, deltaCount)];
      verifiedTx := verifiedTx + req.txCount;
      blockLog := blockLog + [Entry(req, true, true, false, true, stateVersion, deltaCount, Fine)];
      return Response(true, false, true, true, Fine, req.blockIndex);
    }

    method CheckPayload(req: Request) returns (payloadOK: bool)
      ensures payloadOK == PayloadOK(oracle, req)
    {
      payloadOK := true;
      if req.txCount != |req.txs| % 0x1_0000_0000 {
        payloadOK := false;
      }
      for i := 0 to |req.txs|
        invariant payloadOK == (req.txCount == |req.txs| % 0x1_0000_0000)
        invariant forall j :: 0 <= j < i ==> req.txs[j].amount != 0
      {
        if req.txs[i].amount == 0 {
          return false;
        }
      }
      if oracle.CommitmentFromTxs(req.blockIndex, req.txs) != req.commitment {
        payloadOK := false;
      }
    }

    /** `applyTxs`: debits and credits in place, and counts the accounts it touched. */
    method ApplyAll(txs: seq<Tx12>) returns (n: nat)
      modifies this`state
      ensures state == ApplyTxs(old(state), txs) && n == |Touched(txs)|
    {
      if |txs| == 0 {
        return 0;
      }
      hide AsInt64;
      var changed: set<u32> := {};
      for i := 0 to |txs|
        invariant state == ApplyTxs(old(state), txs[..i]) && changed == Touched(txs[..i])
      {
        var tx := txs[i];
        state := state[tx.sender := AsInt64(Get(state, tx.sender) - tx.amount)];
        state := state[tx.receiver := AsInt64(Get(state, tx.receiver) + tx.amount)];
        changed := changed + {tx.sender} + {tx.receiver};
        assert txs[..i + 1][..i] == txs[..i];
      }
      assert txs[..|txs|] == txs;
      return |changed|;
    }
  }
}
