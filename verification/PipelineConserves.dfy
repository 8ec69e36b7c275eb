/** Conservation: at every moment each transfer that entered is in exactly one place. */
module PipelineConserves {
  import opened Frame
  import opened L1
  import opened Pipeline
  import opened PipelineDrain
  import opened PipelineSafety

  function Count(txs: seq<Tx12>, x: Tx12): nat { multiset(txs)[x] }

  /** How often `x` occurs in the elements of a queue. */
  function CountIn<X>(q: seq<X>, txs: X -> seq<Tx12>, x: Tx12): nat {
    if q == [] then 0 else CountIn(q[..|q| - 1], txs, x) + Count(txs(q[|q| - 1]), x)
  }

  lemma CountAppend<X>(q: seq<X>, e: X, txs: X -> seq<Tx12>, x: Tx12)
    ensures CountIn(q + [e], txs, x) == CountIn(q, txs, x) + Count(txs(e), x)
  {
    assert (q + [e])[..|q|] == q;
  }

  lemma {:induction false} CountTail<X>(q: seq<X>, txs: X -> seq<Tx12>, x: Tx12)
    requires q != []
    ensures CountIn(q, txs, x) == Count(txs(q[0]), x) + CountIn(q[1..], txs, x)
  {
    var n := |q| - 1;
    if n > 0 {
      CountTail(q[..n], txs, x);
      assert q[1..][..n - 1] == q[..n][1..] && q[1..][n - 1] == q[n];
    }
  }

  function JobTxs(job: Job): seq<Tx12> { job.txs }

  function BatchTxs(batch: LaneBatch): seq<Tx12> { batch.payload }

  function CommitTxs(commit: Commit): seq<Tx12> { commit.txs }

  function RequestTxs(req: Request): seq<Tx12> { req.txs }

  function SequencerHand(c: Config, q: Sequencer): seq<Tx12>
    requires 0 < c.lanes
  {
    if q.SeqSending? || q.SeqRetry? then Undealt(q.job.txs, c.lanes, q.lane) else []
  }

  function OpenTxs(open: map<u32, OpenBlock>, b: nat): seq<Tx12> {
    if b in open then open[b].txs else []
  }

  function ReplayerHand(rep: Replayer): seq<Tx12> {
    if rep.RepHolding? then rep.commit.txs else []
  }

  /** How often `x` occurs anywhere: in a queue, in a hand, in the open block, submitted, dropped
      for a zero amount, or abandoned by a cancellation. */
  function Occurrences(c: Config, s: State, x: Tx12): nat
    requires 0 < c.lanes
  {
    CountIn(s.ingressQ, JobTxs, x) + Count(SequencerHand(c, s.sequencer), x) + CountIn(s.laneQ, BatchTxs, x)
    + Count(OpenTxs(s.open, s.committed), x) + CountIn(s.commitQ, CommitTxs, x) + Count(ReplayerHand(s.replayer), x)
    + CountIn(s.submitted, RequestTxs, x) + Count(s.zeroed, x) + Count(s.abandoned, x)
  }

  // Dealing

  /** How often `x` occurs in the first `l` lanes. */
  function InLanesBelow(txs: seq<Tx12>, lanes: nat, l: nat, x: Tx12): nat
    requires 0 < lanes
  {
    if l == 0 then 0 else InLanesBelow(txs, lanes, l - 1, x) + Count(LaneOf(txs, lanes, l - 1), x)
  }

  lemma LaneGains(txs: seq<Tx12>, tx: Tx12, lanes: nat, lane: nat, x: Tx12)
    requires 0 < lanes
    ensures Count(LaneOf(txs + [tx], lanes, lane), x)
         == Count(LaneOf(txs, lanes, lane), x) + (if |txs| % lanes == lane && x == tx then 1 else 0)
  {
    assert (txs + [tx])[..|txs|] == txs;
  }

  lemma {:induction false} LanesGain(txs: seq<Tx12>, tx: Tx12, lanes: nat, l: nat, x: Tx12)
    requires 0 < lanes
    ensures InLanesBelow(txs + [tx], lanes, l, x)
         == InLanesBelow(txs, lanes, l, x) + (if |txs| % lanes < l && x == tx then 1 else 0)
  {
    hide LaneOf, Count;
    if l > 0 {
      LanesGain(txs, tx, lanes, l - 1, x);
      LaneGains(txs, tx, lanes, l - 1, x);
    }
  }

  /** The lanes together hold each transfer of the job exactly as often as the job does. */
  lemma {:induction false} LanesHoldEverything(txs: seq<Tx12>, lanes: nat, x: Tx12)
    requires 0 < lanes
    ensures InLanesBelow(txs, lanes, lanes, x) == Count(txs, x)
  {
    if txs == [] {
      LanesOfNothing(lanes, lanes, x);
    } else {
      var n := |txs| - 1;
      assert txs == txs[..n] + [txs[n]];
      LanesHoldEverything(txs[..n], lanes, x);
      LanesGain(txs[..n], txs[n], lanes, lanes, x);
    }
  }

  lemma {:induction false} LanesOfNothing(lanes: nat, l: nat, x: Tx12)
    requires 0 < lanes
    ensures InLanesBelow([], lanes, l, x) == 0
  {
    if l > 0 { LanesOfNothing(lanes, l - 1, x); }
  }

  lemma {:induction false} UndealtIsTheRest(txs: seq<Tx12>, lanes: nat, l: nat, x: Tx12)
    requires 0 < lanes && l <= lanes
    ensures Count(Undealt(txs, lanes, l), x) + InLanesBelow(txs, lanes, l, x) == InLanesBelow(txs, lanes, lanes, x)
    decreases lanes - l
  {
    hide LaneOf;
    if l < lanes {
      UndealtIsTheRest(txs, lanes, l + 1, x);
      assert Undealt(txs, lanes, l) == LaneOf(txs, lanes, l) + Undealt(txs, lanes, l + 1);
    } else {
      assert Undealt(txs, lanes, l) == [];
    }
  }

  lemma {:induction false} NonZeroAndZeros(txs: seq<Tx12>, x: Tx12)
    ensures Count(txs, x) == Count(NonZero(txs), x) + Count(Zeros(txs), x)
  {
    if txs != [] {
      var n := |txs| - 1;
      assert txs == txs[..n] + [txs[n]];
      NonZeroAndZeros(txs[..n], x);
    }
  }

  // Every step moves transfers from one place to another

  lemma EnqueueMoves(c: Config, s: State, x: Tx12)
    requires s.produced < |c.jobs|
    ensures var job := c.jobs[s.produced];
            && CountIn(s.ingressQ + [job], JobTxs, x) == CountIn(s.ingressQ, JobTxs, x) + Count(job.txs, x)
            && CountIn(c.jobs[..s.produced + 1], JobTxs, x)
              == CountIn(c.jobs[..s.produced], JobTxs, x) + Count(job.txs, x)
  {
    var job := c.jobs[s.produced];
    CountAppend(s.ingressQ, job, JobTxs, x);
    CountAppend(c.jobs[..s.produced], job, JobTxs, x);
    assert c.jobs[..s.produced + 1] == c.jobs[..s.produced] + [job];
  }

  lemma IngressMoves(c: Config, s: State, room: bool, x: Tx12)
    requires 0 < c.lanes && s.produced <= |c.jobs| && StepIngress(c, s, room).produced <= |c.jobs|
    requires Occurrences(c, s, x) == CountIn(c.jobs[..s.produced], JobTxs, x)
    ensures Occurrences(c, StepIngress(c, s, room), x)
         == CountIn(c.jobs[..StepIngress(c, s, room).produced], JobTxs, x)
  {
    hide Count, CountIn, SequencerHand, OpenTxs, ReplayerHand;
    if s.ingress.IngHead? {
    } else if s.ingress.IngTrying? {
      if room && |s.ingressQ| < c.capacity && s.produced < |c.jobs| {
        EnqueueMoves(c, s, x);
      }
    } else if s.ingress.IngRetry? {
    }
  }

  lemma TakeMoves(c: Config, job: Job, x: Tx12)
    requires 0 < c.lanes
    ensures Count(Undealt(job.txs, c.lanes, 0), x) == Count(JobTxs(job), x)
  {
    UndealtIsTheRest(job.txs, c.lanes, 0, x);
    LanesHoldEverything(job.txs, c.lanes, x);
  }

  lemma SendMoves(c: Config, job: Job, lane: nat, x: Tx12)
    requires 0 < c.lanes && lane < c.lanes
    ensures Count(Undealt(job.txs, c.lanes, lane), x) == Count(BatchTxs(BatchOf(c, job, lane)), x)
            + Count(SequencerHand(c, if lane + 1 < c.lanes then SeqSending(job, lane + 1) else SeqHead), x)
  {
    hide LaneOf;
    assert Undealt(job.txs, c.lanes, lane) == LaneOf(job.txs, c.lanes, lane) + Undealt(job.txs, c.lanes, lane + 1);
    assert Undealt(job.txs, c.lanes, c.lanes) == [];
  }

  lemma SequencerSendMoves(c: Config, s: State, x: Tx12)
    requires ConfigOk(c) && Inv(c, s) && s.sequencer.SeqSending?
    ensures var q, batch := s.sequencer, BatchOf(c, s.sequencer.job, s.sequencer.lane);
            CountIn(s.laneQ, BatchTxs, x) + Count(SequencerHand(c, q), x) == CountIn(s.laneQ + [batch], BatchTxs, x)
            + Count(SequencerHand(c, if q.lane + 1 < c.lanes then SeqSending(q.job, q.lane + 1) else SeqHead), x)
  {
    hide Count, CountIn, BatchOf, Undealt, Inv;
    var q := s.sequencer;
    LaneInRange(c, s);
    SendMoves(c, q.job, q.lane, x);
    CountAppend(s.laneQ, BatchOf(c, q.job, q.lane), BatchTxs, x);
  }

  lemma LaneInRange(c: Config, s: State)
    requires ConfigOk(c) && Inv(c, s) && s.sequencer.SeqSending?
    ensures s.sequencer.lane < c.lanes
  {
    DealtSend(c, s.sequencer, s.taken, s.sent);
  }

  lemma AbandonMoves(c: Config, abandoned: seq<Tx12>, q: Sequencer, x: Tx12)
    requires 0 < c.lanes && q.SeqRetry?
    ensures Count(abandoned + Undealt(q.job.txs, c.lanes, q.lane), x)
            == Count(abandoned, x) + Count(SequencerHand(c, q), x)
  {
  }

  lemma SequencerTakeMoves(c: Config, s: State, room: bool, x: Tx12)
    requires 0 < c.lanes && s.sequencer.SeqPoll?
    ensures Occurrences(c, StepSequencer(c, s, room), x) == Occurrences(c, s, x)
  {
    hide CountIn, OpenTxs, ReplayerHand, BatchOf, Undealt, Inv, Count;
    CountNothing(x);
    if s.ingressQ != [] {
      CountTail(s.ingressQ, JobTxs, x);
      TakeMoves(c, s.ingressQ[0], x);
    }
  }

  lemma SequencerSendingMoves(c: Config, s: State, room: bool, x: Tx12)
    requires ConfigOk(c) && Inv(c, s) && (s.sequencer.SeqSending? || s.sequencer.SeqRetry?)
    ensures Occurrences(c, StepSequencer(c, s, room), x) == Occurrences(c, s, x)
  {
    hide CountIn, OpenTxs, ReplayerHand, BatchOf, Undealt, Inv, Count;
    CountNothing(x);
    if s.sequencer.SeqRetry? {
      AbandonMoves(c, s.abandoned, s.sequencer, x);
    } else if room && |s.laneQ| < c.capacity {
      SequencerSendMoves(c, s, x);
    }
  }

  lemma SequencerMoves(c: Config, s: State, room: bool, x: Tx12)
    requires ConfigOk(c) && Inv(c, s)
    ensures Occurrences(c, StepSequencer(c, s, room), x) == Occurrences(c, s, x)
  {
    hide CountIn, OpenTxs, ReplayerHand, BatchOf, Undealt, Inv, Count;
    if s.sequencer.SeqPoll? {
      SequencerTakeMoves(c, s, room, x);
    } else if s.sequencer.SeqSending? || s.sequencer.SeqRetry? {
      SequencerSendingMoves(c, s, room, x);
    }
  }

  lemma CountNothing(x: Tx12)
    ensures Count([], x) == 0
  {
  }

  /** Receiving a batch: its valid transfers join the open block, its zero amounts are dropped. */
  lemma ReceiveMoves(c: Config, s: State, x: Tx12)
    requires ConfigOk(c) && Inv(c, s) && s.aggregator.AggPoll? && s.laneQ != []
    ensures var batch := s.laneQ[0];
            && batch.blockIndex == s.committed
            && Count(OpenTxs(s.open[batch.blockIndex := Absorb(c, s.open, batch)], s.committed), x)
               + Count(s.zeroed + Zeros(batch.payload), x)
            == Count(OpenTxs(s.open, s.committed), x) + Count(s.zeroed, x) + Count(BatchTxs(batch), x)
  {
    var batch := s.laneQ[0];
    assert LaneEntry(c, s.taken, s.received + 0, batch);
    NonZeroAndZeros(batch.payload, x);
  }

  lemma CommitMoves(c: Config, s: State, x: Tx12)
    requires ConfigOk(c) && Inv(c, s) && s.aggregator.AggSending?
    ensures var commit := s.aggregator.commit;
            && Count(OpenTxs(s.open, s.committed), x) == Count(CommitTxs(commit), x)
            && Count(OpenTxs(s.open - {commit.blockIndex}, s.committed + 1), x) == 0
  {
    AggregatedCommit(c, s.aggregator, s.taken, Pos(c.lanes, s.received), s.committed, s.open);
  }

  lemma AggregatorReceiveMoves(c: Config, s: State, room: bool, x: Tx12)
    requires ConfigOk(c) && Inv(c, s) && s.aggregator.AggPoll?
    ensures Occurrences(c, StepAggregator(c, s, room), x) == Occurrences(c, s, x)
  {
    hide Count, CountIn, ReplayerHand, SequencerHand, OpenTxs, Absorb, Zeros, CommitBlock, Inv;
    if s.laneQ != [] {
      ReceiveMoves(c, s, x);
      CountTail(s.laneQ, BatchTxs, x);
    }
  }

  lemma AggregatorCommitMoves(c: Config, s: State, room: bool, x: Tx12)
    requires ConfigOk(c) && Inv(c, s) && s.aggregator.AggSending?
    ensures Occurrences(c, StepAggregator(c, s, room), x) == Occurrences(c, s, x)
  {
    hide Count, CountIn, ReplayerHand, SequencerHand, OpenTxs, Absorb, Zeros, CommitBlock, Inv;
    if room && |s.commitQ| < c.capacity {
      CommitMoves(c, s, x);
      CountAppend(s.commitQ, s.aggregator.commit, CommitTxs, x);
    }
  }

  lemma AggregatorRestMoves(c: Config, s: State, room: bool, x: Tx12)
    requires 0 < c.lanes && !s.aggregator.AggPoll? && !s.aggregator.AggSending?
    ensures Occurrences(c, StepAggregator(c, s, room), x) == Occurrences(c, s, x)
  {
    hide Count, CountIn, ReplayerHand, SequencerHand, OpenTxs, Absorb, Zeros, CommitBlock;
    if s.aggregator.AggHead? {
    } else if s.aggregator.AggEmpty? {
    } else if s.aggregator.AggRetry? {
    }
  }

  lemma AggregatorMoves(c: Config, s: State, room: bool, x: Tx12)
    requires ConfigOk(c) && Inv(c, s)
    ensures Occurrences(c, StepAggregator(c, s, room), x) == Occurrences(c, s, x)
  {
    hide Occurrences, StepAggregator, Inv;
    if s.aggregator.AggPoll? {
      AggregatorReceiveMoves(c, s, room, x);
    } else if s.aggregator.AggSending? {
      AggregatorCommitMoves(c, s, room, x);
    } else {
      AggregatorRestMoves(c, s, room, x);
    }
  }

  lemma ReplayerTakeMoves(c: Config, s: State, x: Tx12)
    requires 0 < c.lanes && (s.replayer.RepPoll? || s.replayer.RepHolding?)
    ensures Occurrences(c, StepReplayer(c, s), x) == Occurrences(c, s, x)
  {
    hide Count, CountIn, OpenTxs, SequencerHand, Submit, ProofFor;
    CountNothing(x);
    if s.replayer.RepPoll? {
      if s.commitQ != [] { CountTail(s.commitQ, CommitTxs, x); }
    } else {
      CountAppend(s.submitted, RequestFor(c, s.book, s.replayer.commit), RequestTxs, x);
    }
  }

  lemma ReplayerMoves(c: Config, s: State, x: Tx12)
    requires 0 < c.lanes
    ensures Occurrences(c, StepReplayer(c, s), x) == Occurrences(c, s, x)
  {
    if s.replayer.RepPoll? || s.replayer.RepHolding? {
      hide Occurrences, StepReplayer;
      ReplayerTakeMoves(c, s, x);
    } else {
      hide Count, CountIn, OpenTxs, SequencerHand, Submit, ProofFor, RequestFor;
      if s.replayer.RepHead? {
      } else if s.replayer.RepEmpty? {
      }
    }
  }

  lemma Bounded(c: Config, s: State)
    requires ConfigOk(c) && Inv(c, s)
    ensures s.produced <= |c.jobs|
  {
  }

  lemma StepMoves(c: Config, s: State, m: Move, x: Tx12)
    requires ConfigOk(c) && Inv(c, s) && Inv(c, Step(c, s, m)) && s.produced <= |c.jobs|
    requires Occurrences(c, s, x) == CountIn(c.jobs[..s.produced], JobTxs, x)
    ensures Step(c, s, m).produced <= |c.jobs|
    ensures Occurrences(c, Step(c, s, m), x) == CountIn(c.jobs[..Step(c, s, m).produced], JobTxs, x)
  {
    hide Inv, StepIngress, StepSequencer, StepAggregator, StepReplayer, Occurrences, CountIn;
    Bounded(c, Step(c, s, m));
    match m
    case Cancel => CancelMoves(c, s, x);
    case MoveIngress(room) => IngressMoves(c, s, room, x);
    case MoveSequencer(room) => SequencerMoves(c, s, room, x);
    case MoveAggregator(room) => AggregatorMoves(c, s, room, x);
    case MoveReplayer => ReplayerMoves(c, s, x);
  }

  lemma CancelMoves(c: Config, s: State, x: Tx12)
    requires 0 < c.lanes
    ensures Occurrences(c, s.(cancelled := true), x) == Occurrences(c, s, x)
  {
  }

  /** At every moment of every run, cancelled or not, each transfer occurs in the queues, the hands,
      the open block, the submissions and the discards together exactly as often as in the blocks
      that entered. */
  lemma {:induction false} TransfersAreConserved(c: Config, moves: seq<Move>, x: Tx12)
    requires ConfigOk(c)
    ensures Exec(c, moves).produced <= |c.jobs|
    ensures Occurrences(c, Exec(c, moves), x) == CountIn(c.jobs[..Exec(c, moves).produced], JobTxs, x)
    decreases |moves|
  {
    if moves == [] {
      NothingAtStart(c, x);
    } else {
      hide Inv, Step, Occurrences, CountIn;
      var pre, m := moves[..|moves| - 1], moves[|moves| - 1];
      AlwaysInv(c, pre);
      AlwaysInv(c, moves);
      TransfersAreConserved(c, pre, x);
      StepMoves(c, Exec(c, pre), m, x);
    }
  }

  lemma NothingAtStart(c: Config, x: Tx12)
    requires 0 < c.lanes
    ensures Occurrences(c, Start(c), x) == 0 == CountIn(c.jobs[..0], JobTxs, x)
  {
  }

  // The drop counter

  /** What can happen to an attempt to enqueue: it fails, and then it is tried again or, when a
      cancellation is seen, given up. */
  datatype Event = Failed | Retried | GivenUp

  predicate Happens(c: Config, s: State, m: Move, e: Event) {
    match m
    case Cancel => false
    case MoveIngress(room) =>
      if s.ingress.IngTrying? then e.Failed? && !(room && |s.ingressQ| < c.capacity && s.produced < |c.jobs|)
      else s.ingress.IngRetry? && (if s.cancelled then e.GivenUp? else e.Retried?)
    case MoveSequencer(room) =>
      if s.sequencer.SeqSending? then e.Failed? && !(room && |s.laneQ| < c.capacity)
      else s.sequencer.SeqRetry? && (if s.cancelled then e.GivenUp? else e.Retried?)
    case MoveAggregator(room) =>
      if s.aggregator.AggSending? then e.Failed? && !(room && |s.commitQ| < c.capacity)
      else s.aggregator.AggRetry? && (if s.cancelled then e.GivenUp? else e.Retried?)
    case MoveReplayer => false
  }

  /** How often an event happens in a run. */
  function Tally(c: Config, moves: seq<Move>, e: Event): nat
    requires 0 < c.lanes
    decreases |moves|
  {
    if moves == [] then 0
    else
      var n := |moves| - 1;
      Tally(c, moves[..n], e) + Bit(Happens(c, Exec(c, moves[..n]), moves[n], e))
  }

  function Bit(b: bool): nat { if b then 1 else 0 }

  /** The stages that stand between a failed attempt and what comes of it. */
  function Waiting(s: State): nat {
    Bit(s.ingress.IngRetry?) + Bit(s.sequencer.SeqRetry?) + Bit(s.aggregator.AggRetry?)
  }

  /** What one move does to the drop counter, and to the stages that wait. */
  predicate Counts(c: Config, s: State, m: Move, s': State) {
    && s'.drops - |s'.zeroed| == s.drops - |s.zeroed| + Bit(Happens(c, s, m, Retried))
    && Waiting(s')
      == Waiting(s) + Bit(Happens(c, s, m, Failed)) - Bit(Happens(c, s, m, Retried)) - Bit(Happens(c, s, m, GivenUp))
    && (s'.abandoned != s.abandoned ==> Happens(c, s, m, GivenUp))
  }

  lemma Bits()
    ensures Bit(true) == 1 && Bit(false) == 0
  {
  }

  /** The events of each stage, one by one. */
  lemma IngressEvents(c: Config, s: State, room: bool)
    ensures var m := MoveIngress(room);
            && (Happens(c, s, m, Failed) <==>
                  s.ingress.IngTrying? && !(room && |s.ingressQ| < c.capacity && s.produced < |c.jobs|))
            && (Happens(c, s, m, Retried) <==> s.ingress.IngRetry? && !s.cancelled)
            && (Happens(c, s, m, GivenUp) <==> s.ingress.IngRetry? && s.cancelled)
  {
  }

  lemma SequencerEvents(c: Config, s: State, room: bool)
    ensures var m := MoveSequencer(room);
            && (Happens(c, s, m, Failed) <==> s.sequencer.SeqSending? && !(room && |s.laneQ| < c.capacity))
            && (Happens(c, s, m, Retried) <==> s.sequencer.SeqRetry? && !s.cancelled)
            && (Happens(c, s, m, GivenUp) <==> s.sequencer.SeqRetry? && s.cancelled)
  {
  }

  lemma AggregatorEvents(c: Config, s: State, room: bool)
    ensures var m := MoveAggregator(room);
            && (Happens(c, s, m, Failed) <==> s.aggregator.AggSending? && !(room && |s.commitQ| < c.capacity))
            && (Happens(c, s, m, Retried) <==> s.aggregator.AggRetry? && !s.cancelled)
            && (Happens(c, s, m, GivenUp) <==> s.aggregator.AggRetry? && s.cancelled)
  {
  }

  lemma IngressCounts(c: Config, s: State, room: bool)
    ensures Counts(c, s, MoveIngress(room), StepIngress(c, s, room))
  {
    IngressEvents(c, s, room);
    Bits();
    hide Bit, Happens;
    if s.ingress.IngHead? {
    } else if s.ingress.IngTrying? {
    } else if s.ingress.IngRetry? {
    }
  }

  lemma SequencerSendCounts(c: Config, s: State, room: bool)
    requires 0 < c.lanes && (s.sequencer.SeqSending? || s.sequencer.SeqRetry?)
    ensures Counts(c, s, MoveSequencer(room), StepSequencer(c, s, room))
  {
    SequencerEvents(c, s, room);
    Bits();
    hide Bit, Happens, BatchOf, Undealt;
    if s.sequencer.SeqSending? {
    } else {
    }
  }

  lemma SequencerRestCounts(c: Config, s: State, room: bool)
    requires 0 < c.lanes && (s.sequencer.SeqHead? || s.sequencer.SeqEmpty? || s.sequencer.SeqStopped?)
    ensures Counts(c, s, MoveSequencer(room), StepSequencer(c, s, room))
  {
    SequencerEvents(c, s, room);
    Bits();
    hide Bit, Happens, BatchOf, Undealt;
    if s.sequencer.SeqHead? {
    } else if s.sequencer.SeqEmpty? {
    }
  }

  lemma SequencerPollCounts(c: Config, s: State, room: bool)
    requires 0 < c.lanes && s.sequencer.SeqPoll?
    ensures Counts(c, s, MoveSequencer(room), StepSequencer(c, s, room))
  {
    SequencerEvents(c, s, room);
    Bits();
    hide Bit, Happens, BatchOf, Undealt;
  }

  lemma SequencerCounts(c: Config, s: State, room: bool)
    requires 0 < c.lanes
    ensures Counts(c, s, MoveSequencer(room), StepSequencer(c, s, room))
  {
    hide Counts, StepSequencer;
    if s.sequencer.SeqSending? || s.sequencer.SeqRetry? {
      SequencerSendCounts(c, s, room);
    } else if s.sequencer.SeqPoll? {
      SequencerPollCounts(c, s, room);
    } else {
      SequencerRestCounts(c, s, room);
    }
  }

  lemma AggregatorSendCounts(c: Config, s: State, room: bool)
    requires (s.aggregator.AggSending? || s.aggregator.AggRetry?)
    ensures Counts(c, s, MoveAggregator(room), StepAggregator(c, s, room))
  {
    AggregatorEvents(c, s, room);
    Bits();
    hide Bit, Happens, Absorb, Zeros, CommitBlock;
    if s.aggregator.AggSending? {
    } else {
    }
  }

  lemma AggregatorRestCounts(c: Config, s: State, room: bool)
    requires !s.aggregator.AggPoll? && !s.aggregator.AggSending? && !s.aggregator.AggRetry?
    ensures Counts(c, s, MoveAggregator(room), StepAggregator(c, s, room))
  {
    AggregatorEvents(c, s, room);
    Bits();
    hide Bit, Happens, Absorb, Zeros, CommitBlock;
    if s.aggregator.AggHead? {
    } else if s.aggregator.AggEmpty? {
    }
  }

  lemma AggregatorPollCounts(c: Config, s: State, room: bool)
    requires s.aggregator.AggPoll?
    ensures Counts(c, s, MoveAggregator(room), StepAggregator(c, s, room))
  {
    AggregatorEvents(c, s, room);
    Bits();
    hide Bit, Happens, Absorb, Zeros, CommitBlock;
  }

  lemma AggregatorCounts(c: Config, s: State, room: bool)
    ensures Counts(c, s, MoveAggregator(room), StepAggregator(c, s, room))
  {
    hide Counts, StepAggregator;
    if s.aggregator.AggSending? || s.aggregator.AggRetry? {
      AggregatorSendCounts(c, s, room);
    } else if s.aggregator.AggPoll? {
      AggregatorPollCounts(c, s, room);
    } else {
      AggregatorRestCounts(c, s, room);
    }
  }

  lemma StepCounts(c: Config, s: State, m: Move)
    requires 0 < c.lanes
    ensures Counts(c, s, m, Step(c, s, m))
  {
    match m
    case Cancel =>
    case MoveIngress(room) =>
      hide StepIngress, Counts;
      IngressCounts(c, s, room);
    case MoveSequencer(room) =>
      hide StepSequencer, Counts;
      SequencerCounts(c, s, room);
    case MoveAggregator(room) =>
      hide StepAggregator, Counts;
      AggregatorCounts(c, s, room);
    case MoveReplayer =>
      hide StepReplayer;
  }

  /** On every run, `DropCount` is exactly the transfers dropped for a zero amount plus the attempts that
      were tried again; and a failed attempt was tried again, or given up, or its stage still waits. */
  lemma {:induction false} DropsAreZerosAndRetries(c: Config, moves: seq<Move>)
    requires 0 < c.lanes
    ensures var s := Exec(c, moves);
            && s.drops == |s.zeroed| + Tally(c, moves, Retried)
            && Tally(c, moves, Failed)
               == Tally(c, moves, Retried) + Tally(c, moves, GivenUp) + Waiting(s)
            && (s.abandoned != [] ==> Tally(c, moves, GivenUp) > 0)
    decreases |moves|
  {
    hide Step, Exec, Happens, Waiting, Tally;
    if moves != [] {
      var n := |moves| - 1;
      DropsAreZerosAndRetries(c, moves[..n]);
      LastMove(c, moves, Failed);
      LastMove(c, moves, Retried);
      LastMove(c, moves, GivenUp);
      StepCounts(c, Exec(c, moves[..n]), moves[n]);
    } else {
      NothingYet(c, moves, Failed);
      NothingYet(c, moves, Retried);
      NothingYet(c, moves, GivenUp);
    }
  }

  lemma LastMove(c: Config, moves: seq<Move>, e: Event)
    requires 0 < c.lanes && moves != []
    ensures var n := |moves| - 1;
            var s := Exec(c, moves[..n]);
            && Exec(c, moves) == Step(c, s, moves[n])
            && Tally(c, moves, e) == Tally(c, moves[..n], e) + Bit(Happens(c, s, moves[n], e))
  {
    hide Step, Happens;
  }

  lemma NothingYet(c: Config, moves: seq<Move>, e: Event)
    requires 0 < c.lanes && moves == []
    ensures var s := Exec(c, moves);
            s.drops == |s.zeroed| == Waiting(s) == Tally(c, moves, e) == 0 && s.abandoned == []
  {
    hide Exec, Tally, Waiting;
    RunStarts(c, moves);
    TallyStarts(c, moves, e);
    NoneWaitsAtStart(c);
  }

  lemma RunStarts(c: Config, moves: seq<Move>)
    requires 0 < c.lanes && moves == []
    ensures Exec(c, moves) == Start(c)
  {
    hide Step;
  }

  lemma TallyStarts(c: Config, moves: seq<Move>, e: Event)
    requires 0 < c.lanes && moves == []
    ensures Tally(c, moves, e) == 0
  {
    hide Exec, Step, Happens;
  }

  lemma NoneWaitsAtStart(c: Config)
    ensures Waiting(Start(c)) == 0
  {
  }

  ghost predicate NeverHappens(c: Config, moves: seq<Move>, e: Event)
    requires 0 < c.lanes
  {
    forall n :: 0 <= n < |moves| ==> !Happens(c, Exec(c, moves[..n]), moves[n], e)
  }

  lemma {:induction false} TallyIsZero(c: Config, moves: seq<Move>, e: Event)
    requires 0 < c.lanes
    ensures Tally(c, moves, e) == 0 <==> NeverHappens(c, moves, e)
    decreases |moves|
  {
    hide Exec, Happens;
    if moves != [] {
      var n := |moves| - 1;
      TallyIsZero(c, moves[..n], e);
      assert forall k :: 0 <= k < n ==> moves[..n][..k] == moves[..k] && moves[..n][k] == moves[k];
    }
  }

  lemma OnlyCancelledGiveUp(c: Config, s: State, m: Move)
    requires 0 < c.lanes && Happens(c, s, m, GivenUp)
    ensures s.cancelled && Step(c, s, m).cancelled
  {
  }

  lemma StaysCancelled(c: Config, s: State, m: Move)
    requires 0 < c.lanes && s.cancelled
    ensures Step(c, s, m).cancelled
  {
    hide StepIngress, StepSequencer, StepAggregator, StepReplayer;
  }

  lemma {:induction false} GivingUpMeansCancelled(c: Config, moves: seq<Move>)
    requires 0 < c.lanes && Tally(c, moves, GivenUp) > 0
    ensures Exec(c, moves).cancelled
    decreases |moves|
  {
    if moves != [] {
      hide Step, Happens;
      var n := |moves| - 1;
      if Happens(c, Exec(c, moves[..n]), moves[n], GivenUp) {
        OnlyCancelledGiveUp(c, Exec(c, moves[..n]), moves[n]);
      } else {
        GivingUpMeansCancelled(c, moves[..n]);
        StaysCancelled(c, Exec(c, moves[..n]), moves[n]);
      }
    }
  }

  /** So it counts the dropped transfers alone if and only if no attempt was ever tried again; and while
      nothing was cancelled, no other transfer was discarded. */
  lemma DropsCountZerosExactlyWhen(c: Config, moves: seq<Move>)
    requires 0 < c.lanes
    ensures var s := Exec(c, moves);
            && (s.drops == |s.zeroed| <==> NeverHappens(c, moves, Retried))
            && (s.abandoned != [] ==> s.cancelled)
  {
    hide Exec, NeverHappens, Tally;
    DropsAreZerosAndRetries(c, moves);
    TallyIsZero(c, moves, Retried);
    if Tally(c, moves, GivenUp) > 0 { GivingUpMeansCancelled(c, moves); }
  }

  /** A run that counts a drop and drops nothing: ingress fails once, and its job gets in after all. */
  lemma DropCountedNothingDropped(c: Config) returns (moves: seq<Move>)
    requires ConfigOk(c) && c.jobs != [] && c.capacity > 0
    ensures var s := Exec(c, moves);
            && s.drops == 1 && s.zeroed == [] && s.abandoned == [] && !s.cancelled
            && s.produced == 1 && s.ingressQ == [c.jobs[0]]
  {
    hide Exec;
    var try, fail := MoveIngress(true), MoveIngress(false);
    var s0 := Start(c);
    assert Exec(c, []) == s0 by { EmptyRun(c); }
    Steps3(c, [], try, fail, try);
    assert [] + [try, fail, try] == [try, fail, try];
    assert Exec(c, [try, fail, try]) == s0.(ingress := IngTrying, drops := 1);
    ExecNext(c, [try, fail, try], try);
    moves := [try, fail, try] + [try];
  }
}
