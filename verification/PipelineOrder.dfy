/** In which order a block's transfers reach the node: lane by lane, and in a lane as the job has them. */
module PipelineOrder {
  import opened Frame
  import opened L1
  import opened Pipeline
  import opened PipelineLedger
  import opened PipelineReport
  import opened PipelineSafety

  /** Entry `k` of lane `lane` is the job's transfer at `lane + k * lanes`. */
  lemma {:induction false} LaneOfAt(txs: seq<Tx12>, lanes: nat, lane: nat, k: nat)
    requires 0 < lanes && lane < lanes
    ensures k < |LaneOf(txs, lanes, lane)| <==> lane + k * lanes < |txs|
    ensures lane + k * lanes < |txs| ==> LaneOf(txs, lanes, lane)[k] == txs[lane + k * lanes]
  {
    if txs != [] {
      var n := |txs| - 1;
      LaneOfAt(txs[..n], lanes, lane, k);
      var before := |LaneOf(txs[..n], lanes, lane)|;
      LaneOfAt(txs[..n], lanes, lane, before);
      if before > 0 { LaneOfAt(txs[..n], lanes, lane, before - 1); }
      NextOfLane(n, lanes, lane, before);
      if k < before { Ordered(k, before, lanes); } else if k > before { Ordered(before, k, lanes); }
    }
  }

  lemma Ordered(j: nat, k: nat, lanes: nat)
    requires j < k
    ensures j * lanes + lanes <= k * lanes
  {
    assert (j + 1) * lanes + (k - 1 - j) * lanes == k * lanes;
  }

  /** The `k`-th number from `lane` on in steps of `lanes` is `n` exactly when `n` has that remainder. */
  lemma NextOfLane(n: nat, lanes: nat, lane: nat, k: nat)
    requires lane < lanes && n <= lane + k * lanes && (k > 0 ==> lane + (k - 1) * lanes < n)
    ensures n % lanes == lane <==> n == lane + k * lanes
  {
    var q, r := n / lanes, n % lanes;
    if r == lane {
      if q < k { if q + 1 < k { Ordered(q, k - 1, lanes); } } else if q > k { Ordered(k, q, lanes); }
    } else if n == lane + k * lanes {
      if q < k { Ordered(q, k, lanes); } else if q > k { Ordered(k, q, lanes); }
      assert false;
    }
  }

  /** The valid transfers of one lane before position `n`, and those of the lanes below `lane`. */
  function InLane(txs: seq<Tx12>, lanes: nat, lane: nat, n: nat): set<int>
    requires 0 < lanes && n <= |txs|
  {
    set j | 0 <= j < n && txs[j].amount > 0 && j % lanes == lane
  }

  function Below(txs: seq<Tx12>, lanes: nat, lane: nat): set<int>
    requires 0 < lanes
  {
    set j | 0 <= j < |txs| && txs[j].amount > 0 && j % lanes < lane
  }

  lemma InLaneNext(txs: seq<Tx12>, lanes: nat, lane: nat, n: nat)
    requires 0 < lanes && n < |txs|
    ensures |InLane(txs, lanes, lane, n + 1)|
         == |InLane(txs, lanes, lane, n)| + if txs[n].amount > 0 && n % lanes == lane then 1 else 0
  {
    OneMore(InLane(txs, lanes, lane, n), InLane(txs, lanes, lane, n + 1), n);
  }

  lemma InLanePrefix(txs: seq<Tx12>, lanes: nat, lane: nat, n: nat, i: nat)
    requires 0 < lanes && i <= n <= |txs|
    ensures InLane(txs[..n], lanes, lane, i) == InLane(txs, lanes, lane, i)
  {
  }

  lemma {:induction false} LaneSize(txs: seq<Tx12>, lanes: nat, lane: nat)
    requires 0 < lanes
    ensures |NonZero(LaneOf(txs, lanes, lane))| == |InLane(txs, lanes, lane, |txs|)|
  {
    if txs != [] {
      hide NonZero, LaneOf, InLane;
      var n := |txs| - 1;
      LaneSize(txs[..n], lanes, lane);
      LastOfLane(txs, lanes, lane);
      InLanePrefix(txs, lanes, lane, n, n);
      InLaneNext(txs, lanes, lane, n);
    } else {
      assert InLane(txs, lanes, lane, 0) == {};
    }
  }

  lemma LastOfLane(txs: seq<Tx12>, lanes: nat, lane: nat)
    requires 0 < lanes && txs != []
    ensures var n, kept := |txs| - 1, NonZero(LaneOf(txs[..|txs| - 1], lanes, lane));
            NonZero(LaneOf(txs, lanes, lane))
            == if txs[n].amount > 0 && n % lanes == lane then kept + [txs[n]] else kept
  {
    hide NonZero, LaneOf;
    var n := |txs| - 1;
    assert txs == txs[..n] + [txs[n]];
    LaneOfAppend(txs[..n], txs[n], lanes, lane);
    NonZeroAppend(LaneOf(txs[..n], lanes, lane), txs[n]);
    assert LaneOf(txs[..n], lanes, lane) + [] == LaneOf(txs[..n], lanes, lane);
    assert NonZero(LaneOf(txs[..n], lanes, lane)) + [] == NonZero(LaneOf(txs[..n], lanes, lane));
  }

  lemma {:induction false} LaneKeepsOrder(txs: seq<Tx12>, lanes: nat, lane: nat, i: nat)
    requires 0 < lanes && i < |txs| && txs[i].amount > 0 && i % lanes == lane
    ensures var kept, k := NonZero(LaneOf(txs, lanes, lane)), |InLane(txs, lanes, lane, i)|;
            k < |kept| && kept[k] == txs[i]
  {
    hide NonZero, LaneOf, InLane;
    var n := |txs| - 1;
    LastOfLane(txs, lanes, lane);
    LaneSize(txs[..n], lanes, lane);
    InLanePrefix(txs, lanes, lane, n, n);
    if i < n {
      LaneKeepsOrder(txs[..n], lanes, lane, i);
      InLanePrefix(txs, lanes, lane, n, i);
    }
  }

  lemma {:induction false} RejoinedSize(txs: seq<Tx12>, lanes: nat, l: nat)
    requires 0 < lanes
    ensures |Rejoined(txs, lanes, l)| == |Below(txs, lanes, l)|
  {
    if l > 0 {
      hide NonZero, LaneOf, InLane, Below;
      RejoinedSize(txs, lanes, l - 1);
      LaneSize(txs, lanes, l - 1);
      BelowNext(txs, lanes, l);
    } else {
      assert Below(txs, lanes, l) == {};
    }
  }

  lemma BelowNext(txs: seq<Tx12>, lanes: nat, l: nat)
    requires 0 < lanes && 0 < l
    ensures |Below(txs, lanes, l)| == |Below(txs, lanes, l - 1)| + |InLane(txs, lanes, l - 1, |txs|)|
  {
    var below, lane := Below(txs, lanes, l - 1), InLane(txs, lanes, l - 1, |txs|);
    assert Below(txs, lanes, l) == below + lane && below !! lane;
  }

  lemma {:induction false} RejoinedAt(txs: seq<Tx12>, lanes: nat, l: nat, i: nat)
    requires 0 < lanes && i < |txs| && txs[i].amount > 0 && i % lanes < l
    ensures var place := |Below(txs, lanes, i % lanes)| + |InLane(txs, lanes, i % lanes, i)|;
            place < |Rejoined(txs, lanes, l)| && Rejoined(txs, lanes, l)[place] == txs[i]
  {
    hide NonZero, LaneOf, InLane, Below;
    if i % lanes == l - 1 {
      RejoinedSize(txs, lanes, l - 1);
      LaneKeepsOrder(txs, lanes, l - 1, i);
    } else {
      RejoinedAt(txs, lanes, l - 1, i);
    }
  }

  /** How many valid transfers go before transfer `i`: those of smaller lanes, and the earlier ones of its own. */
  function Place(txs: seq<Tx12>, lanes: nat, i: nat): nat
    requires 0 < lanes
  {
    |set j | 0 <= j < |txs| && txs[j].amount > 0 && (j % lanes < i % lanes || (j % lanes == i % lanes && j < i))|
  }

  lemma PlaceSplits(txs: seq<Tx12>, lanes: nat, i: nat)
    requires 0 < lanes && i <= |txs|
    ensures Place(txs, lanes, i) == |Below(txs, lanes, i % lanes)| + |InLane(txs, lanes, i % lanes, i)|
  {
    var below, lane := Below(txs, lanes, i % lanes), InLane(txs, lanes, i % lanes, i);
    assert below !! lane;
    assert (set j | 0 <= j < |txs| && txs[j].amount > 0
                    && (j % lanes < i % lanes || (j % lanes == i % lanes && j < i))) == below + lane;
  }

  /** In every run each submitted block holds its job's valid transfers in this order: the transfer at index
      `i` of the job has lane `i % lanes`, and the block is sorted by lane and then by index. */
  lemma TransfersArriveInOrder(c: Config, moves: seq<Move>, k: nat, i: nat)
    requires ConfigOk(c) && k < |Exec(c, moves).submitted| <= |c.jobs|
    requires i < |c.jobs[k].txs| && c.jobs[k].txs[i].amount > 0
    ensures var txs, place := Exec(c, moves).submitted[k].txs, Place(c.jobs[k].txs, c.lanes, i);
            place < |txs| && txs[place] == c.jobs[k].txs[i]
  {
    hide Exec, Rejoined, Place, Below, InLane, PayloadOK, ProofOK, RequestAt, Consistent;
    SubmittedAreRequests(c, moves);
    assert RequestEntry(c, k, Exec(c, moves).submitted[k]);
    RequestIsGood(c, k);
    PlaceSplits(c.jobs[k].txs, c.lanes, i);
    RejoinedAt(c.jobs[k].txs, c.lanes, c.lanes, i);
  }
}
