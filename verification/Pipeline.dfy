/** The certification pipeline as a step system: ingress, sequencer, aggregator and proof replayer
    run side by side over three bounded FIFO queues and three done flags, with a cancellation that
    may come at any time. Each enqueue, dequeue and flag test is one step. A poll
    fails exactly when its queue is empty: each queue has one enqueuing and one dequeuing thread, for
    which `RingSingle.PollFailsExactlyOnEmpty` shows it of the ring. */
module Pipeline {
  import opened Frame
  import opened L1
  import opened Wrappers

  /** The transfers of one job. A frame counts them in 32 bits; marshalling more would panic. */
  type Txs = t: seq<Tx12> | |t| < 0x1_0000_0000

  datatype Job = Job(phase: string, blockIndex: u32, txs: Txs)

  datatype LaneBatch = LaneBatch(phase: string, blockIndex: u32, laneID: u16, payload: Txs)

  datatype Commit = Commit(phase: string, blockIndex: u32, commitment: Digest, txCount: u32, txs: seq<Tx12>)

  /** `aggregateState`: what the aggregator has of a block that is not complete. */
  datatype OpenBlock = OpenBlock(phase: string, laneHashes: map<u16, Digest>, txCount: u32, txs: seq<Tx12>)

  /** `proofs` is the loaded dataset, which need not agree with the seed. */
  datatype Config = Config(
    oracle: Oracle, lanes: nat, capacity: nat, badProofAt: u32, proofs: map<u32, Bytes>, jobs: seq<Job>)

  // Sequencer: round-robin into lanes

  /** The transfers of one lane: every `lanes`-th, starting at `lane`. */
  function LaneOf(txs: seq<Tx12>, lanes: nat, lane: nat): (r: seq<Tx12>)
    requires lanes > 0
    ensures |r| <= |txs|
  {
    if txs == [] then []
    else
      var i := |txs| - 1;
      LaneOf(txs[..i], lanes, lane) + (if i % lanes == lane then [txs[i]] else [])
  }

  /** The transfers of the lanes from `lane` on. */
  function Undealt(txs: seq<Tx12>, lanes: nat, lane: nat): seq<Tx12>
    requires lanes > 0
    decreases lanes - lane
  {
    if lane >= lanes then [] else LaneOf(txs, lanes, lane) + Undealt(txs, lanes, lane + 1)
  }

  method SplitIntoLanes(txs: seq<Tx12>, lanes: nat) returns (out: seq<seq<Tx12>>)
    requires lanes > 0
    ensures |out| == lanes && forall l :: 0 <= l < lanes ==> out[l] == LaneOf(txs, lanes, l)
  {
    out := seq(lanes, _ => []);
    for i := 0 to |txs|
      invariant |out| == lanes && forall l :: 0 <= l < lanes ==> out[l] == LaneOf(txs[..i], lanes, l)
    {
      assert txs[..i + 1][..i] == txs[..i];
      var lane := i % lanes;
      out := out[lane := out[lane] + [txs[i]]];
    }
    assert txs[..|txs|] == txs;
  }

  function BatchOf(c: Config, job: Job, lane: nat): LaneBatch
    requires 0 < c.lanes
  {
    LaneBatch(job.phase, job.blockIndex, lane % 0x1_0000, LaneOf(job.txs, c.lanes, lane))
  }

  // Aggregator: rejoin the lanes of a block, dropping zero amounts

  predicate IsPayloadValid(tx: Tx12) { tx.amount > 0 }

  function NonZero(txs: seq<Tx12>): seq<Tx12> {
    if txs == [] then []
    else NonZero(txs[..|txs| - 1]) + (if IsPayloadValid(txs[|txs| - 1]) then [txs[|txs| - 1]] else [])
  }

  /** The transfers the aggregator drops. */
  function Zeros(txs: seq<Tx12>): seq<Tx12> {
    if txs == [] then []
    else Zeros(txs[..|txs| - 1]) + (if IsPayloadValid(txs[|txs| - 1]) then [] else [txs[|txs| - 1]])
  }

  function AddPayload(b: OpenBlock, payload: seq<Tx12>): OpenBlock {
    b.(txCount := (b.txCount + |NonZero(payload)|) % 0x1_0000_0000, txs := b.txs + NonZero(payload))
  }

  function LaneHash(c: Config, batch: LaneBatch): Digest {
    c.oracle.sha(FrameBytes(BatchFrame(0, batch.blockIndex, batch.laneID, batch.payload)))
  }

  /** The open block after one more lane batch. */
  function Absorb(c: Config, open: map<u32, OpenBlock>, batch: LaneBatch): OpenBlock {
    var st := if batch.blockIndex in open then open[batch.blockIndex] else OpenBlock(batch.phase, map[], 0, []);
    AddPayload(st.(laneHashes := st.laneHashes[batch.laneID := LaneHash(c, batch)]), batch.payload)
  }

  function CommitBlock(c: Config, blockIndex: u32, b: OpenBlock): Commit {
    Commit(b.phase, blockIndex, c.oracle.CommitmentFromTxs(blockIndex, b.txs), b.txCount, b.txs)
  }

  lemma CountOne(n: nat)
    ensures (n % 0x1_0000_0000 + 1) % 0x1_0000_0000 == (n + 1) % 0x1_0000_0000
  {
  }

  /** The aggregator's loop over one lane batch. */
  method AddValid(b: OpenBlock, payload: seq<Tx12>) returns (b': OpenBlock, drops: nat)
    ensures b' == AddPayload(b, payload) && drops == |Zeros(payload)|
  {
    var txCount: int, txs := b.txCount, b.txs;
    drops := 0;
    for i := 0 to |payload|
      invariant txCount == (b.txCount + |NonZero(payload[..i])|) % 0x1_0000_0000
      invariant txs == b.txs + NonZero(payload[..i]) && drops == |Zeros(payload[..i])|
    {
      assert payload[..i + 1][..i] == payload[..i];
      if !IsPayloadValid(payload[i]) {
        drops := drops + 1;
        continue;
      }
      CountOne(b.txCount + |NonZero(payload[..i])|);
      txCount := (txCount + 1) % 0x1_0000_0000;
      txs := txs + [payload[i]];
    }
    assert payload[..|payload|] == payload;
    b' := b.(txCount := txCount, txs := txs);
  }

  /** The aggregator's table of incomplete blocks, updated in place for each lane batch. */
  class Aggregation {
    const config: Config
    var states: map<u32, OpenBlock>

    constructor (config: Config)
      ensures this.config == config && states == map[]
    {
      this.config, states := config, map[];
    }

    /** Takes one batch in; `commit` is the finished block when this was its last lane. */
    method Receive(batch: LaneBatch) returns (commit: Option<Commit>, drops: nat)
      modifies this
      ensures states == old(states)[batch.blockIndex := Absorb(config, old(states), batch)]
      ensures commit == if |states[batch.blockIndex].laneHashes| == config.lanes
                        then Some(CommitBlock(config, batch.blockIndex, states[batch.blockIndex])) else None
      ensures drops == |Zeros(batch.payload)|
    {
      if batch.blockIndex !in states {
        states := states[batch.blockIndex := OpenBlock(batch.phase, map[], 0, [])];
      }
      var st := states[batch.blockIndex];
      st := st.(laneHashes := st.laneHashes[batch.laneID := LaneHash(config, batch)]);
      st, drops := AddValid(st, batch.payload);
      states := states[batch.blockIndex := st];
      commit := None;
      if |states[batch.blockIndex].laneHashes| == config.lanes {
        commit := Some(CommitBlock(config, batch.blockIndex, states[batch.blockIndex]));
      }
    }

    /** One turn of the aggregator's loop when the commit queue has room: a finished block is handed
        on and leaves the table. */
    method Process(batch: LaneBatch, commitQ: seq<Commit>) returns (commitQ': seq<Commit>, drops: nat)
      modifies this
      ensures var b := Absorb(config, old(states), batch);
              if |b.laneHashes| == config.lanes
              then
                && commitQ' == commitQ + [CommitBlock(config, batch.blockIndex, b)]
                && states == old(states) - {batch.blockIndex}
              else commitQ' == commitQ && states == old(states)[batch.blockIndex := b]
      ensures drops == |Zeros(batch.payload)|
    {
      var commit;
      commit, drops := Receive(batch);
      commitQ' := commitQ;
      if commit.Some? {
        commitQ' := commitQ + [commit.value];
        states := states - {batch.blockIndex};
      }
    }
  }

  // Replayer: attach the proof, corrupting it at the configured block

  function Corrupt(proof: Bytes): Bytes {
    if proof == [] then proof else proof[0 := 255 - proof[0]]
  }

  function ProofFor(c: Config, book: map<u32, Bytes>, blockIndex: u32): Bytes {
    if blockIndex in book then book[blockIndex] else c.oracle.GenerateProofBytes(blockIndex)
  }

  function RequestFor(c: Config, book: map<u32, Bytes>, commit: Commit): Request {
    var proof := ProofFor(c, book, commit.blockIndex);
    var sent := if c.badProofAt != 0 && c.badProofAt == commit.blockIndex then Corrupt(proof) else proof;
    Request(commit.phase, commit.blockIndex, commit.commitment,
            ProofRecord(commit.blockIndex, commit.commitment, sent), commit.txCount, commit.txs)
  }

  predicate Consistent(o: Oracle, book: map<u32, Bytes>) {
    forall b: u32 :: b in book ==> book[b] == o.GenerateProofBytes(b)
  }

  /** The book of pre-generated proofs, filled on demand. */
  class ProofBook {
    const oracle: Oracle
    var proof: map<u32, Bytes>

    constructor (oracle: Oracle)
      ensures this.oracle == oracle && proof == map[]
    {
      this.oracle := oracle;
      proof := map[];
    }

    method EnsureBlock(blockIndex: u32) returns (p: Bytes)
      modifies this
      ensures p == (if blockIndex in old(proof) then old(proof)[blockIndex] else oracle.GenerateProofBytes(blockIndex))
      ensures proof == old(proof)[blockIndex := p]
      ensures Consistent(oracle, old(proof)) ==> Consistent(oracle, proof) && p == oracle.GenerateProofBytes(blockIndex)
    {
      if blockIndex in proof {
        return proof[blockIndex];
      }
      p := oracle.GenerateProofBytes(blockIndex);
      proof := proof[blockIndex := p];
    }
  }

  // The step system

  datatype Ingress = IngHead | IngTrying | IngRetry | IngStopped

  /** What a failed poll remembers: whether the stage before was already done, and how much it had
      enqueued by then. */
  datatype Poll = Poll(done: bool, seen: nat)

  datatype Exit = Cancelled | AfterPoll(poll: Poll)

  datatype Sequencer =
    | SeqHead
    | SeqPoll
    | SeqEmpty(poll: Poll)
    | SeqSending(job: Job, lane: nat)
    | SeqRetry(job: Job, lane: nat)
    | SeqStopped(exit: Exit)

  datatype Aggregator =
    | AggHead
    | AggPoll
    | AggEmpty(poll: Poll)
    | AggSending(commit: Commit)
    | AggRetry(commit: Commit)
    | AggStopped(exit: Exit)

  datatype Replayer =
    | RepHead
    | RepPoll
    | RepEmpty(poll: Poll)
    | RepHolding(commit: Commit)
    | RepStopped(exit: Exit)

  /** Beside the program's own state: counters of what has passed each stage (jobs produced and
      taken, lane batches sent and received, commits made and fetched), the transfers dropped for a
      zero amount, and those in the sequencer's hand when a cancellation stopped it. */
  datatype State = State(
    cancelled: bool,
    ingress: Ingress, sequencer: Sequencer, aggregator: Aggregator, replayer: Replayer,
    ingressDone: bool, sequencerDone: bool, aggregatorDone: bool,
    ingressQ: seq<Job>, laneQ: seq<LaneBatch>, commitQ: seq<Commit>,
    open: map<u32, OpenBlock>, book: map<u32, Bytes>, l1: Node, drops: nat,
    produced: nat, taken: nat, sent: nat, received: nat, committed: nat, fetched: nat,
    zeroed: seq<Tx12>, abandoned: seq<Tx12>, submitted: seq<Request>)

  /** Who moves; `room` says whether an attempted enqueue finds its cell free. */
  datatype Move =
    | Cancel
    | MoveIngress(room: bool)
    | MoveSequencer(room: bool)
    | MoveAggregator(room: bool)
    | MoveReplayer

  /** What ingress makes of a configuration: block indices count up from 0. Lane ids are cast to 16
      bits, so there is room for 65536 lanes. */
  predicate ConfigOk(c: Config) {
    && 1 <= c.lanes <= 0x1_0000
    && |c.jobs| <= 0x1_0000_0000
    && forall b :: 0 <= b < |c.jobs| ==> c.jobs[b].blockIndex == b
  }

  function Start(c: Config): State {
    State(false, IngHead, SeqHead, AggHead, RepHead, false, false, false, [], [], [], map[], c.proofs, EMPTY_NODE, 0,
          0, 0, 0, 0, 0, 0, [], [], [])
  }

  function StepIngress(c: Config, s: State, room: bool): (r: State)
    ensures r == s.(ingress := r.ingress, ingressDone := r.ingressDone, ingressQ := r.ingressQ,
                    produced := r.produced, drops := r.drops)
    ensures r.drops >= s.drops
  {
    match s.ingress
    case IngHead =>
      if s.cancelled || s.produced >= |c.jobs| then s.(ingress := IngStopped, ingressDone := true)
      else s.(ingress := IngTrying)
    case IngTrying =>
      if room && |s.ingressQ| < c.capacity && s.produced < |c.jobs| then
        s.(ingress := IngHead, ingressQ := s.ingressQ + [c.jobs[s.produced]], produced := s.produced + 1)
      else s.(ingress := IngRetry)
    case IngRetry =>
      if s.cancelled then s.(ingress := IngStopped, ingressDone := true)
      else s.(ingress := IngTrying, drops := s.drops + 1)
    case IngStopped => s
  }

  function StepSequencer(c: Config, s: State, room: bool): (r: State)
    requires 0 < c.lanes
    ensures r == s.(sequencer := r.sequencer, sequencerDone := r.sequencerDone, ingressQ := r.ingressQ,
                    taken := r.taken, laneQ := r.laneQ, sent := r.sent, abandoned := r.abandoned, drops := r.drops)
    ensures r.drops >= s.drops && (r.abandoned != s.abandoned ==> s.cancelled)
  {
    match s.sequencer
    case SeqHead =>
      if s.cancelled then s.(sequencer := SeqStopped(Cancelled), sequencerDone := true) else s.(sequencer := SeqPoll)
    case SeqPoll =>
      if s.ingressQ == [] then s.(sequencer := SeqEmpty(Poll(s.ingressDone, s.produced)))
      else s.(sequencer := SeqSending(s.ingressQ[0], 0), ingressQ := s.ingressQ[1..], taken := s.taken + 1)
    case SeqEmpty(poll) =>
      if s.ingressDone then s.(sequencer := SeqStopped(AfterPoll(poll)), sequencerDone := true)
        else s.(sequencer := SeqHead)
    case SeqSending(job, lane) =>
      if room && |s.laneQ| < c.capacity then
        s.(sequencer := if lane + 1 < c.lanes then SeqSending(job, lane + 1) else SeqHead,
           laneQ := s.laneQ + [BatchOf(c, job, lane)], sent := s.sent + 1)
      else s.(sequencer := SeqRetry(job, lane))
    case SeqRetry(job, lane) =>
      if s.cancelled then
        s.(sequencer := SeqStopped(Cancelled), sequencerDone := true,
           abandoned := s.abandoned + Undealt(job.txs, c.lanes, lane))
      else s.(sequencer := SeqSending(job, lane), drops := s.drops + 1)
    case SeqStopped(_) => s
  }

  function StepAggregator(c: Config, s: State, room: bool): (r: State)
    ensures r == s.(aggregator := r.aggregator, aggregatorDone := r.aggregatorDone, laneQ := r.laneQ,
                    received := r.received, open := r.open, commitQ := r.commitQ, committed := r.committed,
                    zeroed := r.zeroed, drops := r.drops)
    ensures r.drops - s.drops >= |r.zeroed| - |s.zeroed|
  {
    match s.aggregator
    case AggHead =>
      if s.cancelled then s.(aggregator := AggStopped(Cancelled), aggregatorDone := true) else s.(aggregator := AggPoll)
    case AggPoll =>
      if s.laneQ == [] then s.(aggregator := AggEmpty(Poll(s.sequencerDone, s.sent)))
      else
        var batch := s.laneQ[0];
        var b := Absorb(c, s.open, batch);
        s.(laneQ := s.laneQ[1..], received := s.received + 1, open := s.open[batch.blockIndex := b],
           drops := s.drops + |Zeros(batch.payload)|, zeroed := s.zeroed + Zeros(batch.payload),
           aggregator := if |b.laneHashes| == c.lanes then AggSending(CommitBlock(c, batch.blockIndex, b)) else AggHead)
    case AggEmpty(poll) =>
      if s.sequencerDone && s.open == map[] then s.(aggregator := AggStopped(AfterPoll(poll)), aggregatorDone := true)
      else s.(aggregator := AggHead)
    case AggSending(commit) =>
      if room && |s.commitQ| < c.capacity then
        s.(aggregator := AggHead, commitQ := s.commitQ + [commit], committed := s.committed + 1,
           open := s.open - {commit.blockIndex})
      else s.(aggregator := AggRetry(commit))
    case AggRetry(commit) =>
      if s.cancelled then s.(aggregator := AggStopped(Cancelled), aggregatorDone := true)
      else s.(aggregator := AggSending(commit), drops := s.drops + 1)
    case AggStopped(_) => s
  }

  function StepReplayer(c: Config, s: State): (r: State)
    ensures r == s.(replayer := r.replayer, commitQ := r.commitQ, fetched := r.fetched, book := r.book, l1 := r.l1,
                    submitted := r.submitted)
  {
    match s.replayer
    case RepHead =>
      if s.cancelled then s.(replayer := RepStopped(Cancelled)) else s.(replayer := RepPoll)
    case RepPoll =>
      if s.commitQ == [] then s.(replayer := RepEmpty(Poll(s.aggregatorDone, s.committed)))
      else s.(replayer := RepHolding(s.commitQ[0]), commitQ := s.commitQ[1..], fetched := s.fetched + 1)
    case RepEmpty(poll) =>
      if s.aggregatorDone then s.(replayer := RepStopped(AfterPoll(poll))) else s.(replayer := RepHead)
    case RepHolding(commit) =>
      var req := RequestFor(c, s.book, commit);
      s.(replayer := RepHead, book := s.book[commit.blockIndex := ProofFor(c, s.book, commit.blockIndex)],
         l1 := Submit(c.oracle, s.l1, req).0, submitted := s.submitted + [req])
    case RepStopped(_) => s
  }

  function Step(c: Config, s: State, m: Move): State
    requires 0 < c.lanes
  {
    match m
    case Cancel => s.(cancelled := true)
    case MoveIngress(room) => StepIngress(c, s, room)
    case MoveSequencer(room) => StepSequencer(c, s, room)
    case MoveAggregator(room) => StepAggregator(c, s, room)
    case MoveReplayer => StepReplayer(c, s)
  }

  function Exec(c: Config, moves: seq<Move>): State
    requires 0 < c.lanes
    decreases |moves|
  {
    if moves == [] then Start(c)
    else Step(c, Exec(c, moves[..|moves| - 1]), moves[|moves| - 1])
  }
}
