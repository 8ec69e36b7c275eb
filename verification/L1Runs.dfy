/** The ledger over every sequence of submissions: duplicates, conflicts, bad payloads and bad
    proofs in any order. */
module L1Runs {
  import opened Frame
  import opened L1
  import opened Words

  function Run(o: Oracle, reqs: seq<Request>): Node
    decreases |reqs|
  {
    if reqs == [] then EMPTY_NODE else Submit(o, Run(o, reqs[..|reqs| - 1]), reqs[|reqs| - 1]).0
  }

  /** The submissions that were applied, in order. */
  function Applied(o: Oracle, reqs: seq<Request>): seq<Request>
    decreases |reqs|
  {
    if reqs == [] then []
    else
      var pre, req := reqs[..|reqs| - 1], reqs[|reqs| - 1];
      Applied(o, pre) + (if Applies(o, Run(o, pre), req) then [req] else [])
  }

  function TxsOf(reqs: seq<Request>): seq<Tx12> {
    if reqs == [] then [] else TxsOf(reqs[..|reqs| - 1]) + reqs[|reqs| - 1].txs
  }

  function SumTxCount(reqs: seq<Request>): nat {
    if reqs == [] then 0 else SumTxCount(reqs[..|reqs| - 1]) + reqs[|reqs| - 1].txCount
  }

  /** The log entries that changed the state. */
  function AppliedLog(log: seq<BlockLog>): seq<BlockLog> {
    if log == [] then []
    else AppliedLog(log[..|log| - 1]) + (if log[|log| - 1].stateApplied then [log[|log| - 1]] else [])
  }

  lemma AppliedLogAppend(log: seq<BlockLog>, e: BlockLog)
    ensures AppliedLog(log + [e]) == AppliedLog(log) + (if e.stateApplied then [e] else [])
  {
    assert (log + [e])[..|log|] == log;
  }

  /** The `i`-th applied submission stands in `blocks` with version `i + 1`. */
  predicate AppliedAt(n: Node, req: Request, i: nat) {
    && req.blockIndex in n.blocks
    && n.blocks[req.blockIndex] == AcceptedBlock(req.commitment, req.txCount, i + 1, |Touched(req.txs)|)
  }

  /** The version of block `b` leads back to the submission that was applied for it. */
  predicate LedBack(n: Node, applied: seq<Request>, b: u32)
    requires b in n.blocks
  {
    var v := n.blocks[b].stateVer;
    1 <= v <= |applied| && applied[v - 1].blockIndex == b
  }

  predicate Good(o: Oracle, req: Request) {
    PayloadOK(o, req) && ProofOK(o, req)
  }

  ghost predicate BlocksOk(o: Oracle, n: Node, applied: seq<Request>) {
    && |n.blocks| == |applied|
    && (forall i {:trigger AppliedAt(n, applied[i], i)} :: 0 <= i < |applied| ==> AppliedAt(n, applied[i], i))
    && (forall i {:trigger Good(o, applied[i])} :: 0 <= i < |applied| ==> Good(o, applied[i]))
    && (forall b: u32 {:trigger LedBack(n, applied, b)} :: b in n.blocks ==> LedBack(n, applied, b))
  }

  ghost predicate StateOk(n: Node, applied: seq<Request>) {
    && n.stateVersion == |applied| && n.verifiedTx == SumTxCount(applied)
    && forall a: u32 :: Get(n.state, a) == AsInt64(Balance(TxsOf(applied), a))
  }

  /** An entry counts as certified exactly when it changed the state. */
  predicate EntryOk(e: BlockLog) {
    (e.finalized && e.proofVerified && !e.duplicate) <==> e.stateApplied
  }

  /** The `i`-th entry that changed the state is the `i`-th applied submission's. */
  ghost predicate LogOk(n: Node, applied: seq<Request>) {
    && |AppliedLog(n.blockLog)| == |applied|
    && (forall i :: 0 <= i < |applied| ==>
          AppliedLog(n.blockLog)[i]
            == Entry(applied[i], true, true, false, true, i + 1, |Touched(applied[i].txs)|, Fine))
    && (forall i :: 0 <= i < |n.blockLog| ==> EntryOk(n.blockLog[i]))
  }

  /** The node is what its applied submissions make it, and its log tells them apart. */
  ghost predicate NodeOk(o: Oracle, n: Node, applied: seq<Request>) {
    BlocksOk(o, n, applied) && StateOk(n, applied) && LogOk(n, applied)
  }

  /** A submission either is accepted or adds one log entry that changed nothing. */
  lemma SubmitShape(o: Oracle, n: Node, req: Request) returns (e: BlockLog)
    ensures Applies(o, n, req) ==> Submit(o, n, req).0 == Accept(n, req)
    ensures !Applies(o, n, req) ==>
              Submit(o, n, req).0 == n.(blockLog := n.blockLog + [e]) && !e.stateApplied && EntryOk(e)
  {
    e := Submit(o, n, req).0.blockLog[|n.blockLog|];
  }

  lemma LogAfter(log: seq<BlockLog>, e: BlockLog, n: Node, n': Node, applied: seq<Request>)
    requires LogOk(n, applied) && log == n.blockLog && n'.blockLog == log + [e] && !e.stateApplied && EntryOk(e)
    ensures LogOk(n', applied)
  {
    AppliedLogAppend(log, e);
  }

  lemma AcceptKeepsLog(n: Node, applied: seq<Request>, req: Request)
    requires LogOk(n, applied) && n.stateVersion == |applied|
    ensures LogOk(Accept(n, req), applied + [req])
  {
    var e := Entry(req, true, true, false, true, n.stateVersion + 1, |Touched(req.txs)|, Fine);
    AppliedLogAppend(n.blockLog, e);
  }

  lemma AcceptKeepsBlocks(o: Oracle, n: Node, applied: seq<Request>, req: Request)
    requires BlocksOk(o, n, applied) && n.stateVersion == |applied|
    requires req.blockIndex !in n.blocks && Good(o, req)
    ensures BlocksOk(o, Accept(n, req), applied + [req])
  {
    hide ApplyTxs, PayloadOK, ProofOK, Touched;
    var n', applied' := Accept(n, req), applied + [req];
    forall i | 0 <= i < |applied'| ensures AppliedAt(n', applied'[i], i) && Good(o, applied'[i]) {
      if i < |applied| { assert AppliedAt(n, applied[i], i) && Good(o, applied[i]); }
    }
    forall b: u32 | b in n'.blocks ensures LedBack(n', applied', b) {
      if b != req.blockIndex { assert LedBack(n, applied, b); }
    }
  }

  lemma AcceptKeepsState(n: Node, applied: seq<Request>, req: Request)
    requires StateOk(n, applied)
    ensures StateOk(Accept(n, req), applied + [req])
  {
    hide ApplyTxs, AsInt64, Balance, Touched;
    var n', applied' := Accept(n, req), applied + [req];
    assert applied'[..|applied|] == applied;
    forall a: u32 ensures Get(n'.state, a) == AsInt64(Balance(TxsOf(applied'), a)) {
      var before := Balance(TxsOf(applied), a);
      AsInt64Twice(before);
      ApplyTxsIsBalance(n.state, req.txs, a);
      BalanceAppend(TxsOf(applied), req.txs, a);
      AsInt64Sum(before, Balance(req.txs, a));
    }
  }

  lemma SubmitKeeps(o: Oracle, n: Node, applied: seq<Request>, req: Request)
    requires NodeOk(o, n, applied)
    ensures NodeOk(o, Submit(o, n, req).0, applied + if Applies(o, n, req) then [req] else [])
  {
    var e := SubmitShape(o, n, req);
    if Applies(o, n, req) {
      AcceptKeepsLog(n, applied, req);
      AcceptKeepsBlocks(o, n, applied, req);
      AcceptKeepsState(n, applied, req);
    } else {
      assert applied + [] == applied;
      OnlyLogged(o, n, applied, e);
    }
  }

  lemma OnlyLogged(o: Oracle, n: Node, applied: seq<Request>, e: BlockLog)
    requires NodeOk(o, n, applied) && !e.stateApplied && EntryOk(e)
    ensures NodeOk(o, n.(blockLog := n.blockLog + [e]), applied)
  {
    var n' := n.(blockLog := n.blockLog + [e]);
    LogAfter(n.blockLog, e, n, n', applied);
    forall i | 0 <= i < |applied| ensures AppliedAt(n', applied[i], i) && Good(o, applied[i]) {
      assert AppliedAt(n, applied[i], i) && Good(o, applied[i]);
    }
    forall b: u32 | b in n'.blocks ensures LedBack(n', applied, b) {
      assert LedBack(n, applied, b);
    }
  }

  /** On every run the node is exactly what its applied submissions make it. */
  lemma {:induction false} AlwaysNodeOk(o: Oracle, reqs: seq<Request>)
    ensures NodeOk(o, Run(o, reqs), Applied(o, reqs))
    decreases |reqs|
  {
    if reqs != [] {
      var pre := reqs[..|reqs| - 1];
      AlwaysNodeOk(o, pre);
      SubmitKeeps(o, Run(o, pre), Applied(o, pre), reqs[|reqs| - 1]);
    }
  }

  /** The balances are those of a ledger that applies each accepted block once, in the order of
      acceptance; with fewer than 2^31 transfers no balance wraps. */
  lemma BalancesAreTheLedgers(o: Oracle, reqs: seq<Request>, a: u32)
    ensures var txs := TxsOf(Applied(o, reqs));
            && Get(Run(o, reqs).state, a) == AsInt64(Balance(txs, a))
            && (|txs| < 0x8000_0000 ==> Get(Run(o, reqs).state, a) == Balance(txs, a))
  {
    AlwaysNodeOk(o, reqs);
    var txs := TxsOf(Applied(o, reqs));
    BalanceBound(txs, a);
    SmallBalanceFits(Balance(txs, a), |txs|);
  }

  lemma SmallBalanceFits(x: int, n: nat)
    requires -0x1_0000_0000 * n <= x <= 0x1_0000_0000 * n
    ensures n < 0x8000_0000 ==> AsInt64(x) == x
  {
  }

  /** The sum of the node's own balances below account `n`. */
  function NodeSum(state: Balances, n: nat): int
    requires n <= 0x1_0000_0000
  {
    if n == 0 then 0 else NodeSum(state, n - 1) + Get(state, n - 1)
  }

  /** The 64-bit balances add up to the ledger's balances, up to a number of wraps. */
  lemma {:induction false} NodeSumIsLedgerSum(o: Oracle, reqs: seq<Request>, n: nat) returns (wraps: int)
    requires n <= 0x1_0000_0000
    ensures NodeSum(Run(o, reqs).state, n) == SumBelow(TxsOf(Applied(o, reqs)), n) - TWO_64 * wraps
    ensures |TxsOf(Applied(o, reqs))| < 0x8000_0000 ==> wraps == 0
  {
    wraps := 0;
    if n > 0 {
      wraps := NodeSumIsLedgerSum(o, reqs, n - 1);
      BalancesAreTheLedgers(o, reqs, n - 1);
      wraps := wraps + Laps(Balance(TxsOf(Applied(o, reqs)), n - 1));
    }
  }

  /** No submission creates or destroys money: the balances of all accounts in use sum to zero
      modulo 2^64, and to zero itself while fewer than 2^31 transfers were applied. */
  lemma MoneyIsConserved(o: Oracle, reqs: seq<Request>, n: nat)
    requires n <= 0x1_0000_0000
    requires forall tx :: tx in TxsOf(Applied(o, reqs)) ==> tx.sender < n && tx.receiver < n
    ensures NodeSum(Run(o, reqs).state, n) % TWO_64 == 0
    ensures |TxsOf(Applied(o, reqs))| < 0x8000_0000 ==> NodeSum(Run(o, reqs).state, n) == 0
  {
    hide NodeSum, SumBelow, Run, Applied, TxsOf;
    var wraps := NodeSumIsLedgerSum(o, reqs, n);
    BalancesSumToZero(TxsOf(Applied(o, reqs)), n);
    WholeWords(wraps);
  }

  lemma WholeWords(n: int)
    ensures (0 - TWO_64 * n) % TWO_64 == 0
  {
  }

  /** The state version counts the accepted blocks and the log entries that changed the state; the
      versions logged are 1, 2, ... in order; and the metric is the sum of the accepted counts. */
  lemma VersionsAndMetrics(o: Oracle, reqs: seq<Request>)
    ensures var n, applied := Run(o, reqs), Applied(o, reqs);
            && n.stateVersion == |n.blocks| == |applied| == |AppliedLog(n.blockLog)|
            && n.verifiedTx == SumTxCount(applied)
            && (forall i :: 0 <= i < |applied| ==> AppliedLog(n.blockLog)[i].stateVersion == i + 1)
  {
    AlwaysNodeOk(o, reqs);
  }

  /** Each accepted block has its own version, the position of its acceptance, and records how many
      distinct accounts its transfers touch. */
  lemma BlockRecords(o: Oracle, reqs: seq<Request>, b: u32)
    requires b in Run(o, reqs).blocks
    ensures var n, applied := Run(o, reqs), Applied(o, reqs);
            var v := n.blocks[b].stateVer;
            && 1 <= v <= |applied| && applied[v - 1].blockIndex == b
            && n.blocks[b].deltaCount == |Touched(applied[v - 1].txs)|
            && n.blocks[b].txCount == |applied[v - 1].txs| % 0x1_0000_0000
            && Good(o, applied[v - 1])
  {
    AlwaysNodeOk(o, reqs);
    var n, applied := Run(o, reqs), Applied(o, reqs);
    assert LedBack(n, applied, b);
    var i := n.blocks[b].stateVer - 1;
    assert AppliedAt(n, applied[i], i) && Good(o, applied[i]);
  }

  /** Submitting again for an accepted block, whatever the request says, changes only the log. */
  lemma ResubmissionChangesNothing(o: Oracle, reqs: seq<Request>, req: Request)
    requires req.blockIndex in Run(o, reqs).blocks
    ensures var n, (n', r) := Run(o, reqs), Submit(o, Run(o, reqs), req);
            && n' == n.(blockLog := n'.blockLog) && r.duplicate
            && |n'.blockLog| == |n.blockLog| + 1 && n'.blockLog[..|n.blockLog|] == n.blockLog
            && !n'.blockLog[|n.blockLog|].stateApplied
            && Applied(o, reqs + [req]) == Applied(o, reqs)
  {
    assert (reqs + [req])[..|reqs|] == reqs;
  }

  /** Submitting an applied request again, at any later time, is answered "accepted" and "duplicate". */
  lemma AppliedAgainIsAccepted(o: Oracle, reqs: seq<Request>, req: Request)
    requires req in Applied(o, reqs)
    ensures Submit(o, Run(o, reqs), req).1 == Response(true, true, true, true, Duplicate, req.blockIndex)
  {
    AlwaysNodeOk(o, reqs);
    var n, applied := Run(o, reqs), Applied(o, reqs);
    var i :| 0 <= i < |applied| && applied[i] == req;
    assert AppliedAt(n, applied[i], i) && Good(o, applied[i]);
  }

  /** Two nodes that differ at most in their logs. */
  predicate SameButLog(n: Node, m: Node) {
    m == n.(blockLog := m.blockLog)
  }

  /** They answer a submission alike, log the same entry for it, and still differ at most in their logs. */
  lemma SubmitIgnoresLog(o: Oracle, n: Node, m: Node, req: Request)
    requires SameButLog(n, m)
    ensures Submit(o, m, req).1 == Submit(o, n, req).1 && SameButLog(Submit(o, n, req).0, Submit(o, m, req).0)
    ensures var n', m' := Submit(o, n, req).0.blockLog, Submit(o, m, req).0.blockLog;
            && |n'| == |n.blockLog| + 1 && n'[..|n.blockLog|] == n.blockLog
            && m' == m.blockLog + [n'[|n.blockLog|]]
  {
    hide PayloadOK, ProofOK, ApplyTxs, Touched, SameBlock;
    assert Submit(o, m, req).0.blockLog == m.blockLog + [Submit(o, n, req).0.blockLog[|n.blockLog|]];
  }

  /** The log with the entry of submission `i` put in. */
  predicate Logs(log: seq<BlockLog>, with: seq<BlockLog>, i: nat) {
    i <= |log| && |with| == |log| + 1 && with == log[..i] + [with[i]] + log[i..]
  }

  lemma LogsMore(log: seq<BlockLog>, with: seq<BlockLog>, i: nat, e: BlockLog)
    requires Logs(log, with, i)
    ensures Logs(log + [e], with + [e], i)
  {
    assert (log + [e])[..i] == log[..i] && (log + [e])[i..] == log[i..] + [e];
  }

  lemma {:induction false} LogLength(o: Oracle, reqs: seq<Request>)
    ensures |Run(o, reqs).blockLog| == |reqs|
  {
    if reqs != [] {
      hide Submit;
      LogLength(o, reqs[..|reqs| - 1]);
      SubmitIgnoresLog(o, Run(o, reqs[..|reqs| - 1]), Run(o, reqs[..|reqs| - 1]), reqs[|reqs| - 1]);
    }
  }

  /** Deleting a resubmission from any history changes nothing that comes later: not the blocks, the
      balances, the version or the metric, no answer to anyone, and of the log only its own entry. */
  lemma {:induction false} ResubmissionCanBeDeleted(o: Oracle, pre: seq<Request>, req: Request, post: seq<Request>)
    requires req.blockIndex in Run(o, pre).blocks
    ensures var n, m := Run(o, pre + post), Run(o, pre + [req] + post);
            && SameButLog(n, m) && Logs(n.blockLog, m.blockLog, |pre|) && !m.blockLog[|pre|].stateApplied
            && forall r :: Submit(o, m, r).1 == Submit(o, n, r).1
    decreases |post|
  {
    hide Submit;
    LogLength(o, pre + post);
    if post == [] {
      LogLength(o, pre);
      ResubmissionChangesNothing(o, pre, req);
      assert (pre + [req])[..|pre|] == pre && pre + [] == pre && pre + [req] + [] == pre + [req];
    } else {
      var k := |post| - 1;
      ResubmissionCanBeDeleted(o, pre, req, post[..k]);
      LogLength(o, pre + post[..k]);
      assert (pre + post)[..|pre + post| - 1] == pre + post[..k];
      assert (pre + [req] + post)[..|pre + [req] + post| - 1] == pre + [req] + post[..k];
      var n, m := Run(o, pre + post[..k]), Run(o, pre + [req] + post[..k]);
      SubmitIgnoresLog(o, n, m, post[k]);
      var e := Submit(o, n, post[k]).0.blockLog[|n.blockLog|];
      assert Submit(o, n, post[k]).0.blockLog == n.blockLog + [e];
      LogsMore(n.blockLog, m.blockLog, |pre|, e);
    }
    forall r ensures Submit(o, Run(o, pre + [req] + post), r).1 == Submit(o, Run(o, pre + post), r).1 {
      SubmitIgnoresLog(o, Run(o, pre + post), Run(o, pre + [req] + post), r);
    }
  }

  /** Two different inputs with one hash. */
  predicate Collision(o: Oracle, b: Bytes, c: Bytes) {
    b != c && o.sha(b) == o.sha(c)
  }

  /** A duplicate that is answered "accepted" carries the very transfers that were applied for its
      block, or else its payload and the applied one are a collision of the hash. */
  lemma AcceptedDuplicateIsTheSame(o: Oracle, reqs: seq<Request>, req: Request) returns (i: nat)
    requires req.blockIndex in Run(o, reqs).blocks && Submit(o, Run(o, reqs), req).1.accepted
    ensures i < |Applied(o, reqs)| && Applied(o, reqs)[i].blockIndex == req.blockIndex
    ensures Applied(o, reqs)[i].txs == req.txs
         || Collision(o, BlockPreimage(req.blockIndex, req.txs), BlockPreimage(req.blockIndex, Applied(o, reqs)[i].txs))
  {
    AlwaysNodeOk(o, reqs);
    var n, applied := Run(o, reqs), Applied(o, reqs);
    assert LedBack(n, applied, req.blockIndex);
    i := n.blocks[req.blockIndex].stateVer - 1;
    assert AppliedAt(n, applied[i], i) && Good(o, applied[i]);
    if BlockPreimage(req.blockIndex, req.txs) == BlockPreimage(req.blockIndex, applied[i].txs) {
      BlockPreimageInjective(req.blockIndex, req.txs, req.blockIndex, applied[i].txs);
    }
  }

  lemma {:induction false} BlocksBalanceTakeOut(reqs: seq<Request>, i: nat, a: u32)
    requires i < |reqs|
    ensures Balance(TxsOf(reqs), a) == Balance(TxsOf(reqs[..i] + reqs[i + 1..]), a) + Balance(reqs[i].txs, a)
    decreases |reqs|
  {
    hide Balance;
    var n := |reqs| - 1;
    BalanceAppend(TxsOf(reqs[..n]), reqs[n].txs, a);
    if i == n {
      assert reqs[..i] + reqs[i + 1..] == reqs[..n];
    } else {
      var rest := reqs[..i] + reqs[i + 1..];
      assert rest[..n - 1] == reqs[..n][..i] + reqs[..n][i + 1..];
      assert rest[n - 1] == reqs[n];
      BlocksBalanceTakeOut(reqs[..n], i, a);
      BalanceAppend(TxsOf(rest[..n - 1]), reqs[n].txs, a);
    }
  }

  lemma {:induction false} BlocksBalanceOrderFree(xs: seq<Request>, ys: seq<Request>, a: u32)
    requires multiset(xs) == multiset(ys)
    ensures Balance(TxsOf(xs), a) == Balance(TxsOf(ys), a)
    decreases |xs|
  {
    if xs == [] {
      assert |ys| == |multiset(ys)| == |multiset(xs)| == 0;
    } else {
      var n := |xs| - 1;
      assert xs == xs[..n] + [xs[n]];
      assert xs[n] in multiset(xs);
      var i :| 0 <= i < |ys| && ys[i] == xs[n];
      TakeOut(ys, i);
      assert multiset(xs) == multiset(xs[..n]) + multiset{xs[n]};
      assert multiset(xs[..n]) == multiset(xs) - multiset{xs[n]};
      BlocksBalanceOrderFree(xs[..n], ys[..i] + ys[i + 1..], a);
      BlocksBalanceTakeOut(ys, i, a);
      BalanceAppend(TxsOf(xs[..n]), xs[n].txs, a);
    }
  }

  /** Two histories that accept the same blocks, in whatever order, end with the same balances. */
  lemma AcceptanceOrderDoesNotMatter(o: Oracle, xs: seq<Request>, ys: seq<Request>, a: u32)
    requires multiset(Applied(o, xs)) == multiset(Applied(o, ys))
    ensures Get(Run(o, xs).state, a) == Get(Run(o, ys).state, a)
  {
    BalancesAreTheLedgers(o, xs, a);
    BalancesAreTheLedgers(o, ys, a);
    BlocksBalanceOrderFree(Applied(o, xs), Applied(o, ys), a);
  }

  // The report

  const CERTIFICATION: string := "certification"

  predicate CountsAsVerified(e: BlockLog) {
    e.phase == CERTIFICATION && e.finalized && e.proofVerified && !e.duplicate
  }

  predicate CountsAsFailure(e: BlockLog) {
    e.phase == CERTIFICATION && !CountsAsVerified(e) && !e.proofVerified
  }

  function LogTotals(log: seq<BlockLog>): (nat, nat, nat) {
    if log == [] then (0, 0, 0)
    else
      var (tx, blocks, failures) := LogTotals(log[..|log| - 1]);
      var e := log[|log| - 1];
      (tx + (if CountsAsVerified(e) then e.txCount else 0),
       blocks + (if CountsAsVerified(e) then 1 else 0),
       failures + (if CountsAsFailure(e) then 1 else 0))
  }

  /** The fold of `buildReport` over the block log. */
  method BuildReport(logs: seq<BlockLog>) returns (verifiedTx: nat, verifiedBlocks: nat, proofFailures: nat)
    ensures (verifiedTx, verifiedBlocks, proofFailures) == LogTotals(logs)
  {
    verifiedTx, verifiedBlocks, proofFailures := 0, 0, 0;
    for i := 0 to |logs|
      invariant (verifiedTx, verifiedBlocks, proofFailures) == LogTotals(logs[..i])
    {
      var entry := logs[i];
      assert logs[..i + 1][..i] == logs[..i];
      if entry.phase != CERTIFICATION {
        continue;
      }
      if entry.finalized && entry.proofVerified && !entry.duplicate {
        verifiedTx := verifiedTx + entry.txCount;
        verifiedBlocks := verifiedBlocks + 1;
      } else if !entry.proofVerified {
        proofFailures := proofFailures + 1;
      }
    }
    assert logs[..|logs|] == logs;
  }

  /** The same totals read off the ledger: the blocks first accepted in the certification phase. */
  function CertifiedTotals(applied: seq<Request>): (nat, nat) {
    if applied == [] then (0, 0)
    else
      var (tx, blocks) := CertifiedTotals(applied[..|applied| - 1]);
      var req := applied[|applied| - 1];
      if req.phase == CERTIFICATION then (tx + req.txCount, blocks + 1) else (tx, blocks)
  }

  lemma {:induction false} CertifiedAtMostVerified(applied: seq<Request>)
    ensures CertifiedTotals(applied).0 <= SumTxCount(applied) && CertifiedTotals(applied).1 <= |applied|
  {
    if applied != [] { CertifiedAtMostVerified(applied[..|applied| - 1]); }
  }

  /** The submission names a stored block but is not that block. */
  predicate Conflicts(n: Node, req: Request) {
    req.blockIndex in n.blocks && !SameBlock(n.blocks[req.blockIndex], req)
  }

  /** The certification-phase submissions with a bad proof, and those that conflict or have one. */
  function BadProofs(o: Oracle, reqs: seq<Request>): nat {
    if reqs == [] then 0
    else
      var req := reqs[|reqs| - 1];
      BadProofs(o, reqs[..|reqs| - 1]) + (if req.phase == CERTIFICATION && !ProofOK(o, req) then 1 else 0)
  }

  function Failures(o: Oracle, reqs: seq<Request>): nat {
    if reqs == [] then 0
    else
      var pre, req := reqs[..|reqs| - 1], reqs[|reqs| - 1];
      Failures(o, pre)
      + (if req.phase == CERTIFICATION && (Conflicts(Run(o, pre), req) || !ProofOK(o, req)) then 1 else 0)
  }

  /** Submission `i` is a conflict in the certification phase although its proof is good. */
  predicate GoodProofConflicts(o: Oracle, reqs: seq<Request>, i: nat)
    requires i < |reqs|
  {
    reqs[i].phase == CERTIFICATION && ProofOK(o, reqs[i]) && Conflicts(Run(o, reqs[..i]), reqs[i])
  }

  lemma FailureStep(o: Oracle, n: Node, req: Request)
    ensures LogTotals(Submit(o, n, req).0.blockLog).2 == LogTotals(n.blockLog).2
            + (if req.phase == CERTIFICATION && (Conflicts(n, req) || !ProofOK(o, req)) then 1 else 0)
  {
    hide LogTotals, ProofOK, PayloadOK, Touched, ApplyTxs;
    var log := Submit(o, n, req).0.blockLog;
    FailureAppend(n.blockLog, log[|n.blockLog|]);
    assert log == n.blockLog + [log[|n.blockLog|]];
  }

  lemma FailureAppend(log: seq<BlockLog>, e: BlockLog)
    ensures LogTotals(log + [e]).2 == LogTotals(log).2 + if CountsAsFailure(e) then 1 else 0
  {
    assert (log + [e])[..|log|] == log;
  }

  /** The report's failures are exactly the certification-phase submissions that conflict with a
      stored block or carry a bad proof. */
  lemma {:induction false} ReportedFailures(o: Oracle, reqs: seq<Request>)
    ensures LogTotals(Run(o, reqs).blockLog).2 == Failures(o, reqs)
    decreases |reqs|
  {
    if reqs != [] {
      hide Submit, LogTotals, ProofOK, Conflicts;
      var pre := reqs[..|reqs| - 1];
      ReportedFailures(o, pre);
      FailureStep(o, Run(o, pre), reqs[|reqs| - 1]);
    } else {
      assert LogTotals([]).2 == 0;
    }
  }

  /** They are the bad proofs if and only if no submission with a good proof conflicts; otherwise
      they are more. */
  lemma {:induction false} FailuresAreBadProofsExactlyWhen(o: Oracle, reqs: seq<Request>)
    ensures Failures(o, reqs) >= BadProofs(o, reqs)
    ensures Failures(o, reqs) == BadProofs(o, reqs) <==>
            forall i :: 0 <= i < |reqs| ==> !GoodProofConflicts(o, reqs, i)
    decreases |reqs|
  {
    if reqs != [] {
      hide ProofOK, Conflicts, Run;
      var n := |reqs| - 1;
      FailuresAreBadProofsExactlyWhen(o, reqs[..n]);
      forall i | 0 <= i < n ensures GoodProofConflicts(o, reqs[..n], i) <==> GoodProofConflicts(o, reqs, i) {
        assert reqs[..n][..i] == reqs[..i];
      }
      if Failures(o, reqs[..n]) != BadProofs(o, reqs[..n]) {
        var i :| 0 <= i < n && GoodProofConflicts(o, reqs[..n], i);
        assert GoodProofConflicts(o, reqs, i);
      } else {
        assert GoodProofConflicts(o, reqs, n) <==> Failures(o, reqs) != BadProofs(o, reqs);
      }
    }
  }

  /** It happens: a block resubmitted with its good proof and a wrong count is a reported failure. */
  lemma GoodProofReportedAsFailure(o: Oracle, b: u32) returns (reqs: seq<Request>)
    ensures |reqs| == 2 && ProofOK(o, reqs[0]) && ProofOK(o, reqs[1])
    ensures BadProofs(o, reqs) == 0 && LogTotals(Run(o, reqs).blockLog).2 == 1
  {
    var commitment := o.CommitmentFromTxs(b, []);
    var first := Request(CERTIFICATION, b, commitment, ProofRecord(b, commitment, o.GenerateProofBytes(b)), 0, []);
    var second := first.(txCount := 1);
    reqs := [first, second];
    assert reqs[..1] == [first] && [first][..0] == [];
    assert Applies(o, EMPTY_NODE, first);
    assert Run(o, [first]) == Accept(EMPTY_NODE, first);
    assert Failures(o, [first]) == 0 && BadProofs(o, [first]) == 0;
    ReportedFailures(o, reqs);
  }

  /** However duplicates, conflicts and bad proofs are mixed in, the report counts exactly the
      blocks the ledger first accepted in the certification phase, and so never more than the
      verified-transaction metric; and as failures exactly the conflicts and bad proofs of that
      phase. */
  lemma {:induction false} ReportAgreesWithLedger(o: Oracle, reqs: seq<Request>)
    ensures var n, applied := Run(o, reqs), Applied(o, reqs);
            && (LogTotals(n.blockLog).0, LogTotals(n.blockLog).1) == CertifiedTotals(applied)
            && LogTotals(n.blockLog).0 <= n.verifiedTx && LogTotals(n.blockLog).2 == Failures(o, reqs)
    decreases |reqs|
  {
    if reqs != [] {
      var pre, req := reqs[..|reqs| - 1], reqs[|reqs| - 1];
      ReportAgreesWithLedger(o, pre);
      ReportStep(o, Run(o, pre), Applied(o, pre), req);
    }
    AlwaysNodeOk(o, reqs);
    ReportedFailures(o, reqs);
    CertifiedAtMostVerified(Applied(o, reqs));
  }

  lemma ReportStep(o: Oracle, n: Node, applied: seq<Request>, req: Request)
    requires (LogTotals(n.blockLog).0, LogTotals(n.blockLog).1) == CertifiedTotals(applied)
    ensures var log := Submit(o, n, req).0.blockLog;
            (LogTotals(log).0, LogTotals(log).1) == CertifiedTotals(applied + if Applies(o, n, req) then [req] else [])
  {
    var e := SubmitShape(o, n, req);
    if Applies(o, n, req) {
      AcceptedEntryCounts(n, applied, req);
    } else {
      TotalsAppend(n.blockLog, e);
      assert applied + [] == applied;
    }
  }

  lemma AcceptedEntryCounts(n: Node, applied: seq<Request>, req: Request)
    requires (LogTotals(n.blockLog).0, LogTotals(n.blockLog).1) == CertifiedTotals(applied)
    ensures var log := Accept(n, req).blockLog;
            (LogTotals(log).0, LogTotals(log).1) == CertifiedTotals(applied + [req])
  {
    TotalsAppend(n.blockLog, Entry(req, true, true, false, true, n.stateVersion + 1, |Touched(req.txs)|, Fine));
    assert (applied + [req])[..|applied|] == applied;
  }

  lemma TotalsAppend(log: seq<BlockLog>, e: BlockLog)
    ensures LogTotals(log + [e]).0 == LogTotals(log).0 + if CountsAsVerified(e) then e.txCount else 0
    ensures LogTotals(log + [e]).1 == LogTotals(log).1 + if CountsAsVerified(e) then 1 else 0
  {
    assert (log + [e])[..|log|] == log;
  }
}
