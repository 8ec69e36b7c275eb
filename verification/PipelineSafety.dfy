/** What every interleaving of the pipeline keeps: each queue and each hand holds exactly the next
    stretch of the one stream of jobs, lane batches and commits. */
module PipelineSafety {
  import opened Frame
  import opened L1
  import opened L1Runs
  import opened Pipeline

  // The streams

  /** Block and lane of the `n`-th lane batch. */
  function Pos(lanes: nat, n: nat): (r: (nat, nat))
    requires lanes > 0
    ensures r.1 < lanes
  {
    if n == 0 then (0, 0)
    else
      var (b, l) := Pos(lanes, n - 1);
      if l + 1 < lanes then (b, l + 1) else (b + 1, 0)
  }

  function BatchAt(c: Config, n: nat): LaneBatch
    requires ConfigOk(c) && Pos(c.lanes, n).0 < |c.jobs|
  {
    BatchOf(c, c.jobs[Pos(c.lanes, n).0], Pos(c.lanes, n).1)
  }

  /** The valid transfers of the first `l` lanes, in the order the aggregator appends them. */
  function Rejoined(txs: seq<Tx12>, lanes: nat, l: nat): seq<Tx12>
    requires lanes > 0
  {
    if l == 0 then [] else Rejoined(txs, lanes, l - 1) + NonZero(LaneOf(txs, lanes, l - 1))
  }

  function Hashes(c: Config, job: Job, l: nat): map<u16, Digest>
    requires l <= c.lanes <= 0x1_0000 && 0 < c.lanes
  {
    if l == 0 then map[] else Hashes(c, job, l - 1)[l - 1 := LaneHash(c, BatchOf(c, job, l - 1))]
  }

  /** A lane's hash is the hash of a frame that parses back to the block, the lane and the payload, with no
      flags and the reserved bytes zero. */
  lemma LaneHashIsOfItsFrame(c: Config, batch: LaneBatch) returns (b: Bytes)
    ensures LaneHash(c, batch) == c.oracle.sha(b)
    ensures Parse(b) == Ok(BatchFrame(0, batch.blockIndex, batch.laneID, batch.payload)) && b[14] == b[15] == 0
  {
    var f := BatchFrame(0, batch.blockIndex, batch.laneID, batch.payload);
    b := FrameBytes(f);
    ParseMarshal(f);
    MarshalParse(b);
    assert |b[14 := 0][15 := 0]| == |b|;
  }

  /** So equal lane hashes are of the same block, lane and payload, or a collision. */
  lemma LaneHashBinds(c: Config, batch: LaneBatch, batch': LaneBatch)
    requires LaneHash(c, batch) == LaneHash(c, batch')
    ensures || (batch.blockIndex, batch.laneID, batch.payload) == (batch'.blockIndex, batch'.laneID, batch'.payload)
            || Collision(c.oracle, FrameBytes(BatchFrame(0, batch.blockIndex, batch.laneID, batch.payload)),
                         FrameBytes(BatchFrame(0, batch'.blockIndex, batch'.laneID, batch'.payload)))
  {
    ParseMarshal(BatchFrame(0, batch.blockIndex, batch.laneID, batch.payload));
    ParseMarshal(BatchFrame(0, batch'.blockIndex, batch'.laneID, batch'.payload));
  }

  lemma {:induction false} HashesShape(c: Config, job: Job, l: nat)
    requires l <= c.lanes <= 0x1_0000 && 0 < c.lanes
    ensures |Hashes(c, job, l)| == l && forall i: u16 :: i in Hashes(c, job, l) <==> i < l
  {
    hide LaneHash, BatchOf;
    if l > 0 { HashesShape(c, job, l - 1); }
  }

  /** The open block after `l` of its lanes. */
  function OpenAt(c: Config, job: Job, l: nat): OpenBlock
    requires l <= c.lanes <= 0x1_0000 && 0 < c.lanes
  {
    var txs := Rejoined(job.txs, c.lanes, l);
    OpenBlock(job.phase, Hashes(c, job, l), |txs| % 0x1_0000_0000, txs)
  }

  function CommitAt(c: Config, b: nat): Commit
    requires ConfigOk(c) && b < |c.jobs|
  {
    CommitBlock(c, b, OpenAt(c, c.jobs[b], c.lanes))
  }

  function RequestAt(c: Config, b: nat): Request
    requires ConfigOk(c) && b < |c.jobs|
  {
    RequestFor(c, c.proofs, CommitAt(c, b))
  }

  // The invariant, one predicate per queue or hand

  predicate Ingested(c: Config, taken: nat, produced: nat, q: seq<Job>) {
    taken <= produced <= |c.jobs| && q == c.jobs[taken..produced]
  }

  /** `pos` is where the sequencer stands in the stream of lane batches. */
  predicate Dealt(c: Config, q: Sequencer, taken: nat, pos: (nat, nat)) {
    && taken <= |c.jobs|
    && if q.SeqSending? || q.SeqRetry? then taken > 0 && q.job == c.jobs[taken - 1] && pos == (taken - 1, q.lane)
       else if q == SeqStopped(Cancelled) then pos.0 < taken || pos == (taken, 0)
       else pos == (taken, 0)
  }

  predicate LaneEntry(c: Config, taken: nat, n: nat, batch: LaneBatch)
    requires ConfigOk(c)
  {
    Pos(c.lanes, n).0 < taken <= |c.jobs| && batch == BatchAt(c, n)
  }

  predicate InLanes(c: Config, taken: nat, received: nat, sent: nat, q: seq<LaneBatch>)
    requires ConfigOk(c)
  {
    && |q| == sent - received
    && forall k :: 0 <= k < |q| ==> LaneEntry(c, taken, received + k, q[k])
  }

  /** All lanes of block `committed` are in. */
  predicate Complete(c: Config, taken: nat, pos: (nat, nat), committed: nat, open: map<u32, OpenBlock>)
    requires ConfigOk(c)
  {
    && committed < taken <= |c.jobs| && pos == (committed + 1, 0)
    && open == map[committed := OpenAt(c, c.jobs[committed], c.lanes)]
  }

  /** Some lanes of block `committed` are in, and no other block is open. */
  predicate Partial(c: Config, taken: nat, pos: (nat, nat), committed: nat, open: map<u32, OpenBlock>)
    requires ConfigOk(c)
  {
    && pos.0 == committed <= taken <= |c.jobs| && pos.1 < c.lanes
    && if pos.1 == 0 then open == map[]
       else committed < taken && open == map[committed := OpenAt(c, c.jobs[committed], pos.1)]
  }

  predicate Aggregated(c: Config, agg: Aggregator, taken: nat, pos: (nat, nat), committed: nat,
                       open: map<u32, OpenBlock>)
    requires ConfigOk(c)
  {
    if agg.AggSending? || agg.AggRetry? then
      Complete(c, taken, pos, committed, open) && agg.commit == CommitAt(c, committed)
    else
      || Partial(c, taken, pos, committed, open)
      || (agg == AggStopped(Cancelled) && Complete(c, taken, pos, committed, open))
  }

  predicate CommitEntry(c: Config, b: nat, commit: Commit)
    requires ConfigOk(c)
  {
    b < |c.jobs| && commit == CommitAt(c, b)
  }

  predicate InCommits(c: Config, fetched: nat, committed: nat, q: seq<Commit>)
    requires ConfigOk(c)
  {
    && |q| == committed - fetched
    && forall k :: 0 <= k < |q| ==> CommitEntry(c, fetched + k, q[k])
  }

  predicate InHand(c: Config, rep: Replayer, fetched: nat, done: nat)
    requires ConfigOk(c)
  {
    if rep.RepHolding? then fetched == done + 1 && CommitEntry(c, done, rep.commit) else fetched == done
  }

  predicate RequestEntry(c: Config, b: nat, req: Request)
    requires ConfigOk(c)
  {
    b < |c.jobs| && req == RequestAt(c, b)
  }

  /** The book gives every block the proof it had at the start. */
  predicate Agrees(c: Config, book: map<u32, Bytes>) {
    forall b: u32 :: ProofFor(c, book, b) == ProofFor(c, c.proofs, b)
  }

  predicate Submitted(c: Config, submitted: seq<Request>, l1: Node, book: map<u32, Bytes>)
    requires ConfigOk(c)
  {
    && (forall k :: 0 <= k < |submitted| ==> RequestEntry(c, k, submitted[k]))
    && l1 == Run(c.oracle, submitted)
    && Agrees(c, book)
  }

  predicate Inv(c: Config, s: State)
    requires ConfigOk(c)
  {
    && Ingested(c, s.taken, s.produced, s.ingressQ)
    && Dealt(c, s.sequencer, s.taken, Pos(c.lanes, s.sent))
    && InLanes(c, s.taken, s.received, s.sent, s.laneQ)
    && Aggregated(c, s.aggregator, s.taken, Pos(c.lanes, s.received), s.committed, s.open)
    && InCommits(c, s.fetched, s.committed, s.commitQ)
    && InHand(c, s.replayer, s.fetched, |s.submitted|)
    && Submitted(c, s.submitted, s.l1, s.book)
  }

  // What each move does to its queues

  lemma EnqueueJob(c: Config, taken: nat, produced: nat, q: seq<Job>)
    requires Ingested(c, taken, produced, q) && produced < |c.jobs|
    ensures Ingested(c, taken, produced + 1, q + [c.jobs[produced]])
  {
  }

  /** Moves of the sequencer that send nothing. */
  lemma DealtMoves(c: Config, q: Sequencer, q': Sequencer, taken: nat, pos: (nat, nat))
    requires Dealt(c, q, taken, pos)
    requires if q.SeqSending? then q' == SeqRetry(q.job, q.lane)
             else if q.SeqRetry? then q' == SeqSending(q.job, q.lane) || q' == SeqStopped(Cancelled)
             else !q.SeqStopped? && !q'.SeqSending? && !q'.SeqRetry?
    ensures Dealt(c, q', taken, pos)
  {
  }

  lemma DealtTake(c: Config, q: Sequencer, taken: nat, pos: (nat, nat))
    requires Dealt(c, q, taken, pos) && q.SeqPoll? && taken < |c.jobs|
    ensures Dealt(c, SeqSending(c.jobs[taken], 0), taken + 1, pos)
  {
  }

  lemma DealtSend(c: Config, q: Sequencer, taken: nat, sent: nat)
    requires 0 < c.lanes && Dealt(c, q, taken, Pos(c.lanes, sent)) && q.SeqSending?
    ensures 0 < taken <= |c.jobs| && q.job == c.jobs[taken - 1] && Pos(c.lanes, sent) == (taken - 1, q.lane)
    ensures var q' := if q.lane + 1 < c.lanes then SeqSending(q.job, q.lane + 1) else SeqHead;
            Dealt(c, q', taken, Pos(c.lanes, sent + 1))
  {
    NextPos(c.lanes, sent);
  }

  lemma TakeJob(c: Config, taken: nat, produced: nat, q: seq<Job>, received: nat, sent: nat, laneQ: seq<LaneBatch>)
    requires ConfigOk(c) && Ingested(c, taken, produced, q) && q != [] && InLanes(c, taken, received, sent, laneQ)
    ensures taken < |c.jobs| && q[0] == c.jobs[taken] && Ingested(c, taken + 1, produced, q[1..])
    ensures InLanes(c, taken + 1, received, sent, laneQ)
  {
    forall k | 0 <= k < |laneQ| ensures LaneEntry(c, taken + 1, received + k, laneQ[k]) {
      assert LaneEntry(c, taken, received + k, laneQ[k]);
    }
  }

  lemma SendBatch(c: Config, taken: nat, received: nat, sent: nat, q: seq<LaneBatch>, lane: nat)
    requires ConfigOk(c) && InLanes(c, taken, received, sent, q)
    requires 0 < taken <= |c.jobs| && Pos(c.lanes, sent) == (taken - 1, lane)
    ensures InLanes(c, taken, received, sent + 1, q + [BatchOf(c, c.jobs[taken - 1], lane)])
  {
    var q' := q + [BatchOf(c, c.jobs[taken - 1], lane)];
    forall k | 0 <= k < |q'| ensures LaneEntry(c, taken, received + k, q'[k]) {
      if k < |q| { assert LaneEntry(c, taken, received + k, q[k]); }
    }
  }

  lemma ReceiveBatch(c: Config, taken: nat, received: nat, sent: nat, q: seq<LaneBatch>)
    requires ConfigOk(c) && InLanes(c, taken, received, sent, q) && q != []
    ensures InLanes(c, taken, received + 1, sent, q[1..]) && LaneEntry(c, taken, received, q[0])
  {
    assert LaneEntry(c, taken, received + 0, q[0]);
    forall k | 0 <= k < |q[1..]| ensures LaneEntry(c, taken, received + 1 + k, q[1..][k]) {
      assert LaneEntry(c, taken, received + (k + 1), q[k + 1]);
    }
  }

  lemma CountMore(m: nat, n: nat)
    ensures (m % 0x1_0000_0000 + n) % 0x1_0000_0000 == (m + n) % 0x1_0000_0000
  {
  }

  /** One more lane of the block in progress. */
  lemma AbsorbNext(c: Config, b: nat, l: nat, open: map<u32, OpenBlock>)
    requires ConfigOk(c) && b < |c.jobs| && l < c.lanes
    requires open == if l == 0 then map[] else map[b := OpenAt(c, c.jobs[b], l)]
    ensures Absorb(c, open, BatchOf(c, c.jobs[b], l)) == OpenAt(c, c.jobs[b], l + 1)
  {
    hide LaneHash, LaneOf, NonZero;
    var job := c.jobs[b];
    var st := OpenAt(c, job, l);
    var batch := BatchOf(c, job, l);
    assert st == if batch.blockIndex in open then open[batch.blockIndex] else OpenBlock(batch.phase, map[], 0, []);
    CountMore(|st.txs|, |NonZero(batch.payload)|);
  }

  lemma OpenAtSize(c: Config, job: Job, l: nat)
    requires l <= c.lanes <= 0x1_0000 && 0 < c.lanes
    ensures |OpenAt(c, job, l).laneHashes| == l
  {
    HashesShape(c, job, l);
  }

  lemma AggregateBatch(c: Config, agg: Aggregator, taken: nat, received: nat, committed: nat,
                       open: map<u32, OpenBlock>, batch: LaneBatch)
    requires ConfigOk(c) && agg.AggPoll? && Aggregated(c, agg, taken, Pos(c.lanes, received), committed, open)
    requires LaneEntry(c, taken, received, batch)
    ensures var b := Absorb(c, open, batch);
            var agg' := if |b.laneHashes| == c.lanes then AggSending(CommitBlock(c, batch.blockIndex, b)) else AggHead;
            Aggregated(c, agg', taken, Pos(c.lanes, received + 1), committed, open[batch.blockIndex := b])
  {
    hide Absorb, OpenAt, CommitBlock, LaneOf, Pos;
    var l := Pos(c.lanes, received).1;
    AbsorbNext(c, committed, l, open);
    NextPos(c.lanes, received);
    OpenAtSize(c, c.jobs[committed], l + 1);
    assert open[batch.blockIndex := OpenAt(c, c.jobs[committed], l + 1)]
        == map[committed := OpenAt(c, c.jobs[committed], l + 1)];
  }

  lemma NextPos(lanes: nat, n: nat)
    requires lanes > 0
    ensures var (b, l) := Pos(lanes, n); Pos(lanes, n + 1) == if l + 1 < lanes then (b, l + 1) else (b + 1, 0)
  {
  }

  /** Moves of the aggregator that neither receive nor commit. */
  lemma AggregatedMoves(c: Config, agg: Aggregator, agg': Aggregator, taken: nat, pos: (nat, nat), committed: nat,
                        open: map<u32, OpenBlock>)
    requires ConfigOk(c) && Aggregated(c, agg, taken, pos, committed, open)
    requires if agg.AggSending? then agg' == AggRetry(agg.commit)
             else if agg.AggRetry? then agg' == AggSending(agg.commit) || agg' == AggStopped(Cancelled)
             else !agg.AggStopped? && !agg'.AggSending? && !agg'.AggRetry?
    ensures Aggregated(c, agg', taken, pos, committed, open)
  {
  }

  lemma AggregatedTake(c: Config, agg: Aggregator, taken: nat, pos: (nat, nat), committed: nat,
                       open: map<u32, OpenBlock>)
    requires ConfigOk(c) && Aggregated(c, agg, taken, pos, committed, open) && taken < |c.jobs|
    ensures Aggregated(c, agg, taken + 1, pos, committed, open)
  {
  }

  lemma AggregatedCommit(c: Config, agg: Aggregator, taken: nat, pos: (nat, nat), committed: nat,
                         open: map<u32, OpenBlock>)
    requires ConfigOk(c) && Aggregated(c, agg, taken, pos, committed, open) && agg.AggSending?
    ensures committed < |c.jobs| && agg.commit == CommitAt(c, committed)
    ensures Aggregated(c, AggHead, taken, pos, committed + 1, open - {agg.commit.blockIndex})
  {
    assert open - {agg.commit.blockIndex} == map[];
  }

  lemma HandMoves(c: Config, rep: Replayer, rep': Replayer, fetched: nat, done: nat)
    requires ConfigOk(c) && InHand(c, rep, fetched, done) && !rep.RepHolding? && !rep'.RepHolding?
    ensures InHand(c, rep', fetched, done)
  {
  }

  lemma HandFills(c: Config, rep: Replayer, fetched: nat, done: nat, commit: Commit)
    requires ConfigOk(c) && InHand(c, rep, fetched, done) && !rep.RepHolding? && CommitEntry(c, fetched, commit)
    ensures InHand(c, RepHolding(commit), fetched + 1, done)
  {
  }

  lemma HandEmpties(c: Config, rep: Replayer, fetched: nat, done: nat)
    requires ConfigOk(c) && InHand(c, rep, fetched, done) && rep.RepHolding?
    ensures CommitEntry(c, done, rep.commit) && InHand(c, RepHead, fetched, done + 1)
  {
  }

  lemma QueueCommit(c: Config, fetched: nat, committed: nat, q: seq<Commit>)
    requires ConfigOk(c) && InCommits(c, fetched, committed, q) && committed < |c.jobs|
    ensures InCommits(c, fetched, committed + 1, q + [CommitAt(c, committed)])
  {
    var q' := q + [CommitAt(c, committed)];
    forall k | 0 <= k < |q'| ensures CommitEntry(c, fetched + k, q'[k]) {
      if k < |q| { assert CommitEntry(c, fetched + k, q[k]); }
    }
  }

  lemma FetchCommit(c: Config, fetched: nat, committed: nat, q: seq<Commit>)
    requires ConfigOk(c) && InCommits(c, fetched, committed, q) && q != []
    ensures InCommits(c, fetched + 1, committed, q[1..]) && CommitEntry(c, fetched, q[0])
  {
    assert CommitEntry(c, fetched + 0, q[0]);
    forall k | 0 <= k < |q[1..]| ensures CommitEntry(c, fetched + 1 + k, q[1..][k]) {
      assert CommitEntry(c, fetched + (k + 1), q[k + 1]);
    }
  }

  lemma BookAgrees(c: Config, book: map<u32, Bytes>, commit: Commit)
    requires Agrees(c, book)
    ensures RequestFor(c, book, commit) == RequestFor(c, c.proofs, commit)
    ensures Agrees(c, book[commit.blockIndex := ProofFor(c, book, commit.blockIndex)])
  {
    assert ProofFor(c, book, commit.blockIndex) == ProofFor(c, c.proofs, commit.blockIndex);
    var book' := book[commit.blockIndex := ProofFor(c, book, commit.blockIndex)];
    forall b: u32 ensures ProofFor(c, book', b) == ProofFor(c, c.proofs, b) {
      assert ProofFor(c, book, b) == ProofFor(c, c.proofs, b);
    }
  }

  lemma SubmitNext(c: Config, submitted: seq<Request>, l1: Node, book: map<u32, Bytes>, commit: Commit)
    requires ConfigOk(c) && Submitted(c, submitted, l1, book) && CommitEntry(c, |submitted|, commit)
    ensures var req := RequestFor(c, book, commit);
            Submitted(c, submitted + [req], Submit(c.oracle, l1, req).0,
                      book[commit.blockIndex := ProofFor(c, book, commit.blockIndex)])
  {
    hide RequestFor, ProofFor, CommitAt, Submit, Agrees;
    var req := RequestFor(c, book, commit);
    BookAgrees(c, book, commit);
    var s' := submitted + [req];
    assert s'[..|s'| - 1] == submitted;
    forall k | 0 <= k < |s'| ensures RequestEntry(c, k, s'[k]) {
      if k < |submitted| { assert RequestEntry(c, k, submitted[k]); }
    }
  }

  // Every step keeps the invariant

  lemma IngressKeeps(c: Config, s: State, room: bool)
    requires ConfigOk(c) && Inv(c, s)
    ensures Inv(c, StepIngress(c, s, room))
  {
    hide Ingested, Dealt, InLanes, Aggregated, InCommits, InHand, Submitted, Pos;
    if s.ingress.IngHead? {
    } else if s.ingress.IngTrying? {
      if room && |s.ingressQ| < c.capacity && s.produced < |c.jobs| {
        EnqueueJob(c, s.taken, s.produced, s.ingressQ);
      }
    } else if s.ingress.IngRetry? {
    }
  }

  lemma SequencerSends(c: Config, s: State)
    requires ConfigOk(c) && Inv(c, s) && s.sequencer.SeqSending? && |s.laneQ| < c.capacity
    ensures Inv(c, StepSequencer(c, s, true))
  {
    hide Ingested, Dealt, InLanes, Aggregated, InCommits, InHand, Submitted, Pos, Undealt;
    DealtSend(c, s.sequencer, s.taken, s.sent);
    SendBatch(c, s.taken, s.received, s.sent, s.laneQ, s.sequencer.lane);
  }

  lemma SequencerTakes(c: Config, s: State, room: bool)
    requires ConfigOk(c) && Inv(c, s) && s.sequencer.SeqPoll? && s.ingressQ != []
    ensures Inv(c, StepSequencer(c, s, room))
  {
    hide Ingested, Dealt, InLanes, Aggregated, InCommits, InHand, Submitted, Pos, Undealt;
    TakeJob(c, s.taken, s.produced, s.ingressQ, s.received, s.sent, s.laneQ);
    DealtTake(c, s.sequencer, s.taken, Pos(c.lanes, s.sent));
    AggregatedTake(c, s.aggregator, s.taken, Pos(c.lanes, s.received), s.committed, s.open);
  }

  lemma SequencerRests(c: Config, s: State, room: bool)
    requires ConfigOk(c) && Inv(c, s)
    requires s.sequencer.SeqPoll? ==> s.ingressQ == []
    requires s.sequencer.SeqSending? ==> !room || |s.laneQ| >= c.capacity
    ensures Inv(c, StepSequencer(c, s, room))
  {
    hide Ingested, Dealt, InLanes, Aggregated, InCommits, InHand, Submitted, Pos, Undealt;
    if !s.sequencer.SeqStopped? {
      DealtMoves(c, s.sequencer, StepSequencer(c, s, room).sequencer, s.taken, Pos(c.lanes, s.sent));
    }
  }

  lemma SequencerKeeps(c: Config, s: State, room: bool)
    requires ConfigOk(c) && Inv(c, s)
    ensures Inv(c, StepSequencer(c, s, room))
  {
    hide Inv, StepSequencer;
    if s.sequencer.SeqPoll? && s.ingressQ != [] {
      SequencerTakes(c, s, room);
    } else if s.sequencer.SeqSending? && room && |s.laneQ| < c.capacity {
      SequencerSends(c, s);
    } else {
      SequencerRests(c, s, room);
    }
  }

  lemma AggregatorReceives(c: Config, s: State, room: bool)
    requires ConfigOk(c) && Inv(c, s) && s.aggregator.AggPoll? && s.laneQ != []
    ensures Inv(c, StepAggregator(c, s, room))
  {
    hide Ingested, Dealt, InLanes, Aggregated, InCommits, InHand, Submitted, Pos, Absorb, CommitBlock, Zeros;
    ReceiveBatch(c, s.taken, s.received, s.sent, s.laneQ);
    AggregateBatch(c, s.aggregator, s.taken, s.received, s.committed, s.open, s.laneQ[0]);
  }

  lemma AggregatorCommits(c: Config, s: State)
    requires ConfigOk(c) && Inv(c, s) && s.aggregator.AggSending? && |s.commitQ| < c.capacity
    ensures Inv(c, StepAggregator(c, s, true))
  {
    hide Ingested, Dealt, InLanes, Aggregated, InCommits, InHand, Submitted, Pos, Absorb, CommitBlock, Zeros;
    AggregatedCommit(c, s.aggregator, s.taken, Pos(c.lanes, s.received), s.committed, s.open);
    QueueCommit(c, s.fetched, s.committed, s.commitQ);
  }

  lemma AggregatorWaits(c: Config, s: State, room: bool)
    requires ConfigOk(c) && Inv(c, s) && (s.aggregator.AggHead? || s.aggregator.AggPoll?)
    requires s.aggregator.AggPoll? ==> s.laneQ == []
    ensures Inv(c, StepAggregator(c, s, room))
  {
    hide ConfigOk, Ingested, Dealt, InLanes, Aggregated, InCommits, InHand, Submitted, Pos, Absorb, CommitBlock, Zeros;
    var agg, pos := s.aggregator, Pos(c.lanes, s.received);
    if agg.AggHead? {
      var agg' := if s.cancelled then AggStopped(Cancelled) else AggPoll;
      AggregatedMoves(c, agg, agg', s.taken, pos, s.committed, s.open);
    } else {
      AggregatedMoves(c, agg, AggEmpty(Poll(s.sequencerDone, s.sent)), s.taken, pos, s.committed, s.open);
    }
  }

  lemma AggregatorLeaves(c: Config, s: State, room: bool)
    requires ConfigOk(c) && Inv(c, s) && s.aggregator.AggEmpty?
    ensures Inv(c, StepAggregator(c, s, room))
  {
    hide ConfigOk, Ingested, Dealt, InLanes, Aggregated, InCommits, InHand, Submitted, Pos, Absorb, CommitBlock, Zeros;
    var agg, pos := s.aggregator, Pos(c.lanes, s.received);
    AggregatedMoves(c, agg, AggStopped(AfterPoll(agg.poll)), s.taken, pos, s.committed, s.open);
    AggregatedMoves(c, agg, AggHead, s.taken, pos, s.committed, s.open);
  }

  lemma AggregatorRetries(c: Config, s: State, room: bool)
    requires ConfigOk(c) && Inv(c, s) && (s.aggregator.AggSending? || s.aggregator.AggRetry?)
    requires s.aggregator.AggSending? ==> !room || |s.commitQ| >= c.capacity
    ensures Inv(c, StepAggregator(c, s, room))
  {
    hide ConfigOk, Ingested, Dealt, InLanes, Aggregated, InCommits, InHand, Submitted, Pos, Absorb, CommitBlock, Zeros;
    var agg, pos := s.aggregator, Pos(c.lanes, s.received);
    if agg.AggSending? {
      AggregatedMoves(c, agg, AggRetry(agg.commit), s.taken, pos, s.committed, s.open);
    } else {
      AggregatedMoves(c, agg, AggStopped(Cancelled), s.taken, pos, s.committed, s.open);
      AggregatedMoves(c, agg, AggSending(agg.commit), s.taken, pos, s.committed, s.open);
    }
  }

  lemma AggregatorStays(c: Config, s: State, room: bool)
    requires s.aggregator.AggStopped?
    ensures StepAggregator(c, s, room) == s
  {
    hide Absorb, CommitBlock, Zeros;
  }

  lemma AggregatorKeeps(c: Config, s: State, room: bool)
    requires ConfigOk(c) && Inv(c, s)
    ensures Inv(c, StepAggregator(c, s, room))
  {
    hide Inv, StepAggregator;
    if s.aggregator.AggPoll? && s.laneQ != [] {
      AggregatorReceives(c, s, room);
    } else if s.aggregator.AggSending? && room && |s.commitQ| < c.capacity {
      AggregatorCommits(c, s);
    } else if s.aggregator.AggSending? || s.aggregator.AggRetry? {
      AggregatorRetries(c, s, room);
    } else if s.aggregator.AggEmpty? {
      AggregatorLeaves(c, s, room);
    } else if s.aggregator.AggStopped? {
      AggregatorStays(c, s, room);
    } else {
      AggregatorWaits(c, s, room);
    }
  }

  lemma ReplayerFetches(c: Config, s: State)
    requires ConfigOk(c) && Inv(c, s) && s.replayer.RepPoll? && s.commitQ != []
    ensures Inv(c, StepReplayer(c, s))
  {
    hide Ingested, Dealt, InLanes, Aggregated, InCommits, InHand, Submitted, Pos, RequestFor, ProofFor, Submit;
    FetchCommit(c, s.fetched, s.committed, s.commitQ);
    HandFills(c, s.replayer, s.fetched, |s.submitted|, s.commitQ[0]);
  }

  lemma ReplayerSubmits(c: Config, s: State)
    requires ConfigOk(c) && Inv(c, s) && s.replayer.RepHolding?
    ensures Inv(c, StepReplayer(c, s))
  {
    hide Ingested, Dealt, InLanes, Aggregated, InCommits, InHand, Submitted, Pos, RequestFor, ProofFor, Submit;
    HandEmpties(c, s.replayer, s.fetched, |s.submitted|);
    SubmitNext(c, s.submitted, s.l1, s.book, s.replayer.commit);
  }

  lemma ReplayerKeeps(c: Config, s: State)
    requires ConfigOk(c) && Inv(c, s)
    ensures Inv(c, StepReplayer(c, s))
  {
    hide Ingested, Dealt, InLanes, Aggregated, InCommits, InHand, Submitted, Pos, RequestFor, ProofFor, Submit;
    if s.replayer.RepPoll? && s.commitQ != [] {
      ReplayerFetches(c, s);
    } else if s.replayer.RepHolding? {
      ReplayerSubmits(c, s);
    } else {
      HandMoves(c, s.replayer, StepReplayer(c, s).replayer, s.fetched, |s.submitted|);
    }
  }

  lemma StepKeeps(c: Config, s: State, m: Move)
    requires ConfigOk(c) && Inv(c, s)
    ensures Inv(c, Step(c, s, m))
  {
    hide Ingested, Dealt, InLanes, Aggregated, InCommits, InHand, Submitted, Pos,
         StepIngress, StepSequencer, StepAggregator, StepReplayer;
    match m
    case Cancel =>
    case MoveIngress(room) => IngressKeeps(c, s, room);
    case MoveSequencer(room) => SequencerKeeps(c, s, room);
    case MoveAggregator(room) => AggregatorKeeps(c, s, room);
    case MoveReplayer => ReplayerKeeps(c, s);
  }

  lemma {:induction false} AlwaysInv(c: Config, moves: seq<Move>)
    requires ConfigOk(c)
    ensures Inv(c, Exec(c, moves))
    decreases |moves|
  {
    if moves != [] {
      hide Inv, Step;
      AlwaysInv(c, moves[..|moves| - 1]);
      StepKeeps(c, Exec(c, moves[..|moves| - 1]), moves[|moves| - 1]);
    }
  }

  // The queues and the book

  predicate QueuesFit(c: Config, s: State) {
    |s.ingressQ| <= c.capacity && |s.laneQ| <= c.capacity && |s.commitQ| <= c.capacity
  }

  lemma IngressFits(c: Config, s: State, room: bool)
    requires QueuesFit(c, s)
    ensures QueuesFit(c, StepIngress(c, s, room))
  {
    if s.ingress.IngHead? {
    } else if s.ingress.IngTrying? {
    } else if s.ingress.IngRetry? {
    }
  }

  lemma SequencerFits(c: Config, s: State, room: bool)
    requires 0 < c.lanes && QueuesFit(c, s)
    ensures QueuesFit(c, StepSequencer(c, s, room))
  {
    hide BatchOf, Undealt;
    if s.sequencer.SeqHead? {
    } else if s.sequencer.SeqPoll? {
    } else if s.sequencer.SeqEmpty? {
    } else if s.sequencer.SeqSending? {
    } else if s.sequencer.SeqRetry? {
    }
  }

  lemma AggregatorFits(c: Config, s: State, room: bool)
    requires QueuesFit(c, s)
    ensures QueuesFit(c, StepAggregator(c, s, room))
  {
    hide Absorb, Zeros, CommitBlock;
    if s.aggregator.AggHead? {
    } else if s.aggregator.AggPoll? {
    } else if s.aggregator.AggEmpty? {
    } else if s.aggregator.AggSending? {
    } else if s.aggregator.AggRetry? {
    }
  }

  lemma ReplayerFits(c: Config, s: State)
    requires QueuesFit(c, s)
    ensures QueuesFit(c, StepReplayer(c, s))
  {
    hide RequestFor, ProofFor, Submit;
    if s.replayer.RepHead? {
    } else if s.replayer.RepPoll? {
    } else if s.replayer.RepEmpty? {
    } else if s.replayer.RepHolding? {
    }
  }

  /** No queue ever holds more than its capacity. */
  lemma {:induction false} QueuesAlwaysFit(c: Config, moves: seq<Move>)
    requires 0 < c.lanes
    ensures QueuesFit(c, Exec(c, moves))
    decreases |moves|
  {
    if moves != [] {
      hide QueuesFit, StepIngress, StepSequencer, StepAggregator, StepReplayer;
      var s := Exec(c, moves[..|moves| - 1]);
      QueuesAlwaysFit(c, moves[..|moves| - 1]);
      match moves[|moves| - 1]
      case Cancel => CancelFits(c, s);
      case MoveIngress(room) => IngressFits(c, s, room);
      case MoveSequencer(room) => SequencerFits(c, s, room);
      case MoveAggregator(room) => AggregatorFits(c, s, room);
      case MoveReplayer => ReplayerFits(c, s);
    }
  }

  lemma CancelFits(c: Config, s: State)
    requires QueuesFit(c, s)
    ensures QueuesFit(c, s.(cancelled := true))
  {
  }

  /** The proof of a block: the one that was loaded, or else the generated one. */
  function ProofOf(c: Config, b: u32): Bytes {
    if b in c.proofs then c.proofs[b] else c.oracle.sha(LE32(b) + c.oracle.sha(c.oracle.seed))
  }

  /** The proof as it is sent: the fault inverts the bits of its first byte, if it has one, and nothing else. */
  function SentProof(c: Config, b: u32): Bytes {
    var proof := ProofOf(c, b);
    if b > 0 && b == c.badProofAt && proof != [] then [255 - proof[0]] + proof[1..] else proof
  }

  predicate Kept(c: Config, book: map<u32, Bytes>, b: u32) {
    b in book && book[b] == ProofOf(c, b)
  }

  predicate Sent(c: Config, req: Request) {
    req.proof.proofBytes == SentProof(c, req.blockIndex)
  }

  ghost predicate BookOk(c: Config, book: map<u32, Bytes>, submitted: seq<Request>) {
    && (forall b: u32 ::
          b in book <==> b in c.proofs || exists k :: 0 <= k < |submitted| && submitted[k].blockIndex == b)
    && (forall b: u32 :: b in book ==> Kept(c, book, b))
    && (forall k :: 0 <= k < |submitted| ==> Sent(c, submitted[k]))
  }

  lemma SendsTheProof(c: Config, book: map<u32, Bytes>, commit: Commit)
    requires commit.blockIndex in book ==> Kept(c, book, commit.blockIndex)
    requires commit.blockIndex in c.proofs ==> commit.blockIndex in book
    ensures var b, req := commit.blockIndex, RequestFor(c, book, commit);
            Kept(c, book[b := ProofFor(c, book, b)], b) && req.blockIndex == b && Sent(c, req)
  {
  }

  lemma BookNext(c: Config, book: map<u32, Bytes>, submitted: seq<Request>, commit: Commit)
    requires BookOk(c, book, submitted)
    ensures var b, req := commit.blockIndex, RequestFor(c, book, commit);
            req.blockIndex == b && BookOk(c, book[b := ProofFor(c, book, b)], submitted + [req])
  {
    SendsTheProof(c, book, commit);
    hide RequestFor, ProofFor, Sent, ProofOf;
    var b, req := commit.blockIndex, RequestFor(c, book, commit);
    var book', submitted' := book[b := ProofFor(c, book, b)], submitted + [req];
    forall d: u32
      ensures d in book' <==> d in c.proofs || exists k :: 0 <= k < |submitted'| && submitted'[k].blockIndex == d
    {
      assert submitted'[|submitted|].blockIndex == b;
      if d in book && d !in c.proofs {
        var k :| 0 <= k < |submitted| && submitted[k].blockIndex == d;
        assert submitted'[k].blockIndex == d;
      }
    }
    forall d: u32 | d in book' ensures Kept(c, book', d) {
      if d != b { assert Kept(c, book, d); }
    }
  }

  lemma ReplayerKeepsBook(c: Config, s: State)
    requires BookOk(c, s.book, s.submitted)
    ensures var s' := StepReplayer(c, s); BookOk(c, s'.book, s'.submitted)
  {
    hide BookOk, RequestFor, ProofFor, Submit;
    if s.replayer.RepHead? {
    } else if s.replayer.RepPoll? {
    } else if s.replayer.RepEmpty? {
    } else if s.replayer.RepHolding? {
      BookNext(c, s.book, s.submitted, s.replayer.commit);
    }
  }

  lemma OnlyReplayerBooks(c: Config, s: State, m: Move)
    requires 0 < c.lanes
    ensures var s' := if m.MoveReplayer? then StepReplayer(c, s) else s;
            Step(c, s, m).book == s'.book && Step(c, s, m).submitted == s'.submitted
  {
    hide StepIngress, StepSequencer, StepAggregator, StepReplayer;
  }

  /** On every run, whatever proofs were loaded: the book holds these and those of the blocks submitted; each
      is the loaded one or, if there was none, the generated one; and that is the one sent, but for the
      injected fault. */
  lemma {:induction false} BookHoldsTheProofs(c: Config, moves: seq<Move>)
    requires 0 < c.lanes
    ensures BookOk(c, Exec(c, moves).book, Exec(c, moves).submitted)
    decreases |moves|
  {
    if moves == [] {
      StartsOk(c);
    } else {
      hide BookOk, Step, StepReplayer;
      var s := Exec(c, moves[..|moves| - 1]);
      BookHoldsTheProofs(c, moves[..|moves| - 1]);
      ReplayerKeepsBook(c, s);
      OnlyReplayerBooks(c, s, moves[|moves| - 1]);
    }
  }

  lemma StartsOk(c: Config)
    ensures BookOk(c, Start(c).book, Start(c).submitted)
  {
    forall b: u32 | b in c.proofs ensures Kept(c, c.proofs, b) { }
  }
}
