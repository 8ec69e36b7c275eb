/** The pipeline computes what a sequential ledger computes, whatever the interleaving and however
    many lanes its transfers are dealt into. */
module PipelineLedger {
  import opened Frame
  import opened L1
  import opened L1Runs
  import opened Pipeline
  import opened PipelineDrain
  import opened PipelineSafety
  import opened Words

  // Splitting and rejoining loses and invents nothing

  lemma NonZeroAppend(txs: seq<Tx12>, tx: Tx12)
    ensures NonZero(txs + [tx]) == NonZero(txs) + (if IsPayloadValid(tx) then [tx] else [])
  {
    assert (txs + [tx])[..|txs|] == txs;
  }

  lemma LaneOfAppend(txs: seq<Tx12>, tx: Tx12, lanes: nat, lane: nat)
    requires 0 < lanes
    ensures LaneOf(txs + [tx], lanes, lane) == LaneOf(txs, lanes, lane) + (if |txs| % lanes == lane then [tx] else [])
  {
    assert (txs + [tx])[..|txs|] == txs;
  }

  /** What one more transfer adds to the first `l` lanes. */
  function Added(i: nat, tx: Tx12, lanes: nat, l: nat): multiset<Tx12>
    requires 0 < lanes
  {
    if i % lanes < l && IsPayloadValid(tx) then multiset{tx} else multiset{}
  }

  lemma {:induction false} RejoinedAppend(txs: seq<Tx12>, tx: Tx12, lanes: nat, l: nat)
    requires 0 < lanes
    ensures multiset(Rejoined(txs + [tx], lanes, l)) == multiset(Rejoined(txs, lanes, l)) + Added(|txs|, tx, lanes, l)
  {
    hide LaneOf, NonZero, Added;
    AddedStep(|txs|, tx, lanes, l);
    if l > 0 {
      RejoinedAppend(txs, tx, lanes, l - 1);
      LaneAdded(txs, tx, lanes, l);
      var us := txs + [tx];
      SumsShift(multiset(Rejoined(us, lanes, l - 1)), multiset(NonZero(LaneOf(us, lanes, l - 1))),
                multiset(Rejoined(txs, lanes, l - 1)), multiset(NonZero(LaneOf(txs, lanes, l - 1))),
                Added(|txs|, tx, lanes, l - 1), Added(|txs|, tx, lanes, l));
    }
  }

  lemma SumsShift<X>(r': multiset<X>, n': multiset<X>, r: multiset<X>, n: multiset<X>, a: multiset<X>, b: multiset<X>)
    requires r' == r + a && n' + a == n + b
    ensures r' + n' == (r + n) + b
  {
    assert r' + n' == r + (n' + a);
  }

  lemma AddedStep(i: nat, tx: Tx12, lanes: nat, l: nat)
    requires 0 < lanes
    ensures l == 0 ==> Added(i, tx, lanes, l) == multiset{}
  {
  }

  lemma LaneAdded(txs: seq<Tx12>, tx: Tx12, lanes: nat, l: nat)
    requires 0 < lanes && 0 < l
    ensures multiset(NonZero(LaneOf(txs + [tx], lanes, l - 1))) + Added(|txs|, tx, lanes, l - 1)
         == multiset(NonZero(LaneOf(txs, lanes, l - 1))) + Added(|txs|, tx, lanes, l)
  {
    hide LaneOf, NonZero;
    var lane := LaneOf(txs, lanes, l - 1);
    LaneOfAppend(txs, tx, lanes, l - 1);
    NonZeroAppend(lane, tx);
    assert lane + [] == lane && NonZero(lane) + [] == NonZero(lane);
  }

  /** Rejoining all lanes gives back the valid transfers of the block, in some order. */
  lemma {:induction false} RejoinedIsNonZero(txs: seq<Tx12>, lanes: nat)
    requires 0 < lanes
    ensures multiset(Rejoined(txs, lanes, lanes)) == multiset(NonZero(txs))
  {
    if txs == [] {
      RejoinedNothing(lanes, lanes);
    } else {
      var n := |txs| - 1;
      assert txs == txs[..n] + [txs[n]];
      RejoinedIsNonZero(txs[..n], lanes);
      RejoinedAppend(txs[..n], txs[n], lanes, lanes);
    }
  }

  lemma {:induction false} RejoinedNothing(lanes: nat, l: nat)
    requires 0 < lanes
    ensures Rejoined([], lanes, l) == []
  {
    if l > 0 { RejoinedNothing(lanes, l - 1); }
  }

  lemma {:induction false} NonZeroIsExact(txs: seq<Tx12>, tx: Tx12)
    ensures multiset(NonZero(txs))[tx] == if IsPayloadValid(tx) then multiset(txs)[tx] else 0
  {
    if txs != [] {
      var n := |txs| - 1;
      assert txs == txs[..n] + [txs[n]];
      NonZeroIsExact(txs[..n], tx);
    }
  }

  /** A zero amount moves nothing, so dropping it changes no balance. */
  lemma {:induction false} ZeroAmountsMoveNothing(txs: seq<Tx12>, a: u32)
    ensures Balance(NonZero(txs), a) == Balance(txs, a)
  {
    if txs != [] {
      var n := |txs| - 1;
      ZeroAmountsMoveNothing(txs[..n], a);
      var kept := NonZero(txs[..n]);
      assert kept + [] == kept && (kept + [txs[n]])[..|kept|] == kept;
    }
  }

  lemma RejoinedAreValid(txs: seq<Tx12>, lanes: nat, tx: Tx12)
    requires 0 < lanes && tx in Rejoined(txs, lanes, lanes)
    ensures tx.amount != 0
  {
    RejoinedIsNonZero(txs, lanes);
    assert tx in multiset(Rejoined(txs, lanes, lanes));
    NonZeroIsExact(txs, tx);
  }

  // What is submitted, and what is applied of it

  /** The proof sent for block `b` is not the one the node generates to compare it with. */
  predicate IsBad(c: Config, b: nat) {
    b < 0x1_0000_0000 && SentProof(c, b) != c.oracle.sha(LE32(b) + c.oracle.sha(c.oracle.seed))
  }

  /** When the loaded proofs agree with the seed, that is exactly the block of the injected fault. */
  lemma BadExactlyAtTheFault(c: Config, b: u32)
    requires Consistent(c.oracle, c.proofs)
    ensures IsBad(c, b) <==> b > 0 && b == c.badProofAt
  {
    assert |c.oracle.GenerateProofBytes(b)| == 32;
    assert ProofOf(c, b) == c.oracle.GenerateProofBytes(b);
  }

  /** Every request is well formed, and the node's test of its proof fails exactly for a bad one. */
  lemma RequestIsGood(c: Config, b: nat)
    requires ConfigOk(c) && b < |c.jobs|
    ensures var req := RequestAt(c, b);
            && req.phase == c.jobs[b].phase
            && req.blockIndex == b && req.txs == Rejoined(c.jobs[b].txs, c.lanes, c.lanes)
            && req.txCount == |req.txs| % 0x1_0000_0000
            && PayloadOK(c.oracle, req) && (ProofOK(c.oracle, req) <==> !IsBad(c, b))
            && req.proof.blockIndex == b && req.proof.commitment == req.commitment
  {
    var req := RequestAt(c, b);
    forall tx | tx in req.txs ensures tx.amount != 0 {
      RejoinedAreValid(c.jobs[b].txs, c.lanes, tx);
    }
    SendsTheProof(c, c.proofs, CommitAt(c, b));
  }

  lemma {:induction false} NonZeroIsShorter(txs: seq<Tx12>)
    ensures |NonZero(txs)| <= |txs|
  {
    if txs != [] { NonZeroIsShorter(txs[..|txs| - 1]); }
  }

  lemma SameSize<X>(s: seq<X>, t: seq<X>)
    requires multiset(s) == multiset(t)
    ensures |s| == |t|
  {
    assert |s| == |multiset(s)|;
  }

  /** Its count is the number of the job's valid transfers, which fits 32 bits. */
  lemma RequestCount(c: Config, b: nat)
    requires ConfigOk(c) && b < |c.jobs|
    ensures RequestAt(c, b).txCount == |RequestAt(c, b).txs| == |NonZero(c.jobs[b].txs)|
  {
    hide RequestAt, Rejoined, NonZero, PayloadOK, ProofOK;
    RequestIsGood(c, b);
    RejoinedIsNonZero(c.jobs[b].txs, c.lanes);
    NonZeroIsShorter(c.jobs[b].txs);
    SameSize(RequestAt(c, b).txs, NonZero(c.jobs[b].txs));
  }

  function GoodRequests(c: Config, k: nat): seq<Request>
    requires ConfigOk(c) && k <= |c.jobs|
  {
    if k == 0 then [] else GoodRequests(c, k - 1) + (if IsBad(c, k - 1) then [] else [RequestAt(c, k - 1)])
  }

  predicate AreRequests(c: Config, reqs: seq<Request>)
    requires ConfigOk(c)
  {
    |reqs| <= |c.jobs| && forall k :: 0 <= k < |reqs| ==> RequestEntry(c, k, reqs[k])
  }

  lemma SubmitAddsOnlyItsBlock(o: Oracle, n: Node, req: Request, b: u32)
    requires b in Submit(o, n, req).0.blocks
    ensures b in n.blocks || b == req.blockIndex
  {
  }

  lemma {:induction false} AppliedAreGood(c: Config, reqs: seq<Request>)
    requires ConfigOk(c) && AreRequests(c, reqs)
    ensures Applied(c.oracle, reqs) == GoodRequests(c, |reqs|)
    ensures forall b: u32 :: b in Run(c.oracle, reqs).blocks ==> b < |reqs|
    decreases |reqs|
  {
    hide Submit, RequestAt, PayloadOK, ProofOK, ConfigOk;
    if reqs != [] {
      var n := |reqs| - 1;
      forall k | 0 <= k < n ensures RequestEntry(c, k, reqs[..n][k]) {
        assert RequestEntry(c, k, reqs[k]);
      }
      AppliedAreGood(c, reqs[..n]);
      assert RequestEntry(c, n, reqs[n]);
      RequestIsGood(c, n);
      forall b: u32 | b in Run(c.oracle, reqs).blocks ensures b < |reqs| {
        SubmitAddsOnlyItsBlock(c.oracle, Run(c.oracle, reqs[..n]), reqs[n], b);
      }
    }
  }

  /** The valid transfers of the first `k` jobs, without the blocks sent with a bad proof. */
  function LedgerTxs(c: Config, k: nat): seq<Tx12>
    requires k <= |c.jobs|
  {
    if k == 0 then [] else LedgerTxs(c, k - 1) + (if IsBad(c, k - 1) then [] else NonZero(c.jobs[k - 1].txs))
  }

  lemma TxsOfAppend(reqs: seq<Request>, req: Request)
    ensures TxsOf(reqs + [req]) == TxsOf(reqs) + req.txs
  {
    assert (reqs + [req])[..|reqs|] == reqs;
  }

  lemma {:induction false} GoodTxsAreTheLedgers(c: Config, k: nat, a: u32)
    requires ConfigOk(c) && k <= |c.jobs|
    ensures Balance(TxsOf(GoodRequests(c, k)), a) == Balance(LedgerTxs(c, k), a)
  {
    hide RequestAt, TxsOf, Balance, NonZero, PayloadOK, ProofOK, Rejoined;
    if k > 0 {
      GoodTxsAreTheLedgers(c, k - 1, a);
      var reqs, txs := GoodRequests(c, k - 1), NonZero(c.jobs[k - 1].txs);
      assert reqs + [] == reqs && LedgerTxs(c, k - 1) + [] == LedgerTxs(c, k - 1);
      var req := RequestAt(c, k - 1);
      RequestIsGood(c, k - 1);
      RejoinedIsNonZero(c.jobs[k - 1].txs, c.lanes);
      BalanceOrderFree(req.txs, txs, a);
      TxsOfAppend(reqs, req);
      BalanceAppend(TxsOf(reqs), req.txs, a);
      BalanceAppend(LedgerTxs(c, k - 1), txs, a);
    } else {
      assert GoodRequests(c, k) == [] && LedgerTxs(c, k) == [];
      LedgerStart(a);
    }
  }

  lemma LedgerStart(a: u32)
    ensures TxsOf([]) == [] && Balance([], a) == 0
  {
  }

  /** The same with every transfer of the jobs, zero amounts included. */
  function AllTxs(c: Config, k: nat): seq<Tx12>
    requires k <= |c.jobs|
  {
    if k == 0 then [] else AllTxs(c, k - 1) + (if IsBad(c, k - 1) then [] else c.jobs[k - 1].txs)
  }

  lemma LedgerNext(c: Config, k: nat)
    requires 0 < k <= |c.jobs|
    ensures IsBad(c, k - 1) ==> LedgerTxs(c, k) == LedgerTxs(c, k - 1) && AllTxs(c, k) == AllTxs(c, k - 1)
    ensures !IsBad(c, k - 1) ==> LedgerTxs(c, k) == LedgerTxs(c, k - 1) + NonZero(c.jobs[k - 1].txs)
    ensures !IsBad(c, k - 1) ==> AllTxs(c, k) == AllTxs(c, k - 1) + c.jobs[k - 1].txs
  {
    hide NonZero;
  }

  lemma LedgerEmpty(c: Config)
    ensures LedgerTxs(c, 0) == AllTxs(c, 0)
  {
  }

  lemma {:induction false} DroppingZerosIsHarmless(c: Config, k: nat, a: u32)
    requires k <= |c.jobs|
    ensures Balance(LedgerTxs(c, k), a) == Balance(AllTxs(c, k), a)
  {
    hide Balance, NonZero, LedgerTxs, AllTxs, IsBad;
    if k == 0 {
      LedgerEmpty(c);
    } else {
      DroppingZerosIsHarmless(c, k - 1, a);
      LedgerNext(c, k);
      BalanceAppend(LedgerTxs(c, k - 1), NonZero(c.jobs[k - 1].txs), a);
      BalanceAppend(AllTxs(c, k - 1), c.jobs[k - 1].txs, a);
      ZeroAmountsMoveNothing(c.jobs[k - 1].txs, a);
    }
  }

  lemma SubmittedAreRequests(c: Config, moves: seq<Move>)
    requires ConfigOk(c)
    ensures var s := Exec(c, moves);
            AreRequests(c, s.submitted) && s.l1 == Run(c.oracle, s.submitted)
  {
    AlwaysInv(c, moves);
    var s := Exec(c, moves);
    if s.submitted != [] { assert RequestEntry(c, |s.submitted| - 1, s.submitted[|s.submitted| - 1]); }
  }

  /** At every moment of every run the node's balances are those of a sequential ledger over the
      valid transfers of the first jobs, as many as have been submitted, without the blocks sent with a
      bad proof; the zero amounts it drops change no balance. Exactly, unless 2^31 transfers or more
      were applied. */
  lemma PipelineIsTheSequentialLedger(c: Config, moves: seq<Move>, a: u32)
    requires ConfigOk(c)
    ensures var s := Exec(c, moves);
            && |s.submitted| <= |c.jobs|
            && Get(s.l1.state, a) == AsInt64(Balance(LedgerTxs(c, |s.submitted|), a))
            && Balance(LedgerTxs(c, |s.submitted|), a) == Balance(AllTxs(c, |s.submitted|), a)
            && (|LedgerTxs(c, |s.submitted|)| < 0x8000_0000 ==>
                  Get(s.l1.state, a) == Balance(LedgerTxs(c, |s.submitted|), a))
  {
    var s := Exec(c, moves);
    SubmittedAreRequests(c, moves);
    AppliedAreGood(c, s.submitted);
    BalancesAreTheLedgers(c.oracle, s.submitted, a);
    GoodTxsAreTheLedgers(c, |s.submitted|, a);
    DroppingZerosIsHarmless(c, |s.submitted|, a);
    BalanceBound(LedgerTxs(c, |s.submitted|), a);
    SmallBalanceFits(Balance(LedgerTxs(c, |s.submitted|), a), |LedgerTxs(c, |s.submitted|)|);
  }

  /** A run that stops of itself, each stage on a poll that came late enough, ends with the balances
      of the whole ledger. */
  lemma LateRunsApplyEveryBlock(c: Config, moves: seq<Move>, a: u32)
    requires ConfigOk(c) && !Exec(c, moves).cancelled
    requires AllStoppedLate(Exec(c, moves))
    ensures Get(Exec(c, moves).l1.state, a) == AsInt64(Balance(LedgerTxs(c, |c.jobs|), a))
  {
    LatePollsDrain(c, moves);
    PipelineIsTheSequentialLedger(c, moves, a);
  }

  /** Two runs that submitted equally many blocks agree on every balance, even with different
      numbers of lanes, queue sizes and schedules. */
  lemma LanesDoNotMatter(c: Config, d: Config, ms: seq<Move>, ns: seq<Move>, a: u32)
    requires ConfigOk(c) && ConfigOk(d)
    requires c.oracle == d.oracle && c.jobs == d.jobs && c.badProofAt == d.badProofAt && c.proofs == d.proofs
    requires |Exec(c, ms).submitted| == |Exec(d, ns).submitted|
    ensures Get(Exec(c, ms).l1.state, a) == Get(Exec(d, ns).l1.state, a)
  {
    PipelineIsTheSequentialLedger(c, ms, a);
    PipelineIsTheSequentialLedger(d, ns, a);
    SameLedger(c, d, |Exec(c, ms).submitted|);
  }

  lemma SameBad(c: Config, d: Config, b: nat)
    requires c.oracle == d.oracle && c.badProofAt == d.badProofAt && c.proofs == d.proofs
    ensures IsBad(c, b) == IsBad(d, b)
  {
  }

  lemma {:induction false} SameLedger(c: Config, d: Config, k: nat)
    requires c.oracle == d.oracle && c.jobs == d.jobs && c.badProofAt == d.badProofAt && c.proofs == d.proofs
    requires k <= |c.jobs|
    ensures LedgerTxs(c, k) == LedgerTxs(d, k)
  {
    hide IsBad, NonZero;
    if k > 0 {
      SameLedger(c, d, k - 1);
      SameBad(c, d, k - 1);
    }
  }

  /** Block indices reach the node strictly increasing from 0, each with its count and valid
      transfers only; so no submission is ever a duplicate, and all but those with a bad proof apply. */
  lemma BlocksArriveInOrder(c: Config, moves: seq<Move>, k: nat)
    requires ConfigOk(c) && k < |Exec(c, moves).submitted| <= |c.jobs|
    ensures var req := Exec(c, moves).submitted[k];
            && req.phase == c.jobs[k].phase && req.blockIndex == k
            && req.txCount == |req.txs| == |NonZero(c.jobs[k].txs)|
            && multiset(req.txs) == multiset(NonZero(c.jobs[k].txs))
            && (Applies(c.oracle, Run(c.oracle, Exec(c, moves).submitted[..k]), req) <==> !IsBad(c, k))
  {
    var reqs := Exec(c, moves).submitted;
    SubmittedAreRequests(c, moves);
    assert RequestEntry(c, k, reqs[k]);
    RequestIsGood(c, k);
    RequestCount(c, k);
    RejoinedIsNonZero(c.jobs[k].txs, c.lanes);
    forall i | 0 <= i < k ensures RequestEntry(c, i, reqs[..k][i]) {
      assert RequestEntry(c, i, reqs[i]);
    }
    AppliedAreGood(c, reqs[..k]);
  }
}
