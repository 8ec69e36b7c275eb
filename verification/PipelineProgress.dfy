/** The pipeline cannot deadlock: which states can still submit everything, and how. */
module PipelineProgress {
  import opened Frame
  import opened L1
  import opened Pipeline
  import opened PipelineConserves
  import opened PipelineDrain
  import opened PipelineSafety

  /** No stage has left, or is bound to leave, on a poll that came before the last enqueue of the stage
      before it. */
  predicate SequencerHopes(s: State) {
    var q := s.sequencer;
    && (q.SeqEmpty? && s.ingressDone ==> q.poll.seen == s.produced)
    && (q.SeqStopped? && q.exit.AfterPoll? ==> q.exit.poll.seen == s.produced)
  }

  predicate AggregatorHopes(s: State) {
    var agg := s.aggregator;
    && (agg.AggEmpty? && s.sequencerDone && s.open == map[] ==> agg.poll.seen == s.sent)
    && (agg.AggStopped? && agg.exit.AfterPoll? ==> agg.exit.poll.seen == s.sent)
  }

  predicate ReplayerHopes(s: State) {
    var rep := s.replayer;
    && (rep.RepEmpty? && s.aggregatorDone ==> rep.poll.seen == s.committed)
    && (rep.RepStopped? && rep.exit.AfterPoll? ==> rep.exit.poll.seen == s.committed)
  }

  predicate Hopeful(s: State) {
    SequencerHopes(s) && AggregatorHopes(s) && ReplayerHopes(s)
  }

  /** A reachable state before any cancellation. */
  predicate Sound(c: Config, s: State)
    requires ConfigOk(c)
  {
    Inv(c, s) && FlagsOk(c, s) && Counted(s) && !s.cancelled
  }

  lemma SoundRun(c: Config, moves: seq<Move>)
    requires ConfigOk(c) && !Exec(c, moves).cancelled
    ensures Sound(c, Exec(c, moves))
  {
    hide Inv, FlagsOk, Counted;
    AlwaysInv(c, moves);
    AlwaysFlagsOk(c, moves);
    QueueSizes(c, Exec(c, moves));
  }

  // A schedule that helps: the last stage that has something to do moves

  predicate ReplayerReady(s: State) {
    !s.replayer.RepStopped? && (s.replayer.RepHolding? || s.replayer.RepEmpty? || s.commitQ != [] || s.aggregatorDone)
  }

  predicate AggregatorReady(s: State) {
    var agg := s.aggregator;
    !agg.AggStopped? && (agg.AggSending? || agg.AggRetry? || agg.AggEmpty? || s.laneQ != [] || s.sequencerDone)
  }

  predicate SequencerReady(s: State) {
    var q := s.sequencer;
    !q.SeqStopped? && (q.SeqSending? || q.SeqRetry? || q.SeqEmpty? || s.ingressQ != [] || s.ingressDone)
  }

  function Helper(s: State): Move {
    if ReplayerReady(s) then MoveReplayer
    else if AggregatorReady(s) then MoveAggregator(true)
    else if SequencerReady(s) then MoveSequencer(true)
    else MoveIngress(true)
  }

  // The distance to the end

  function IngressToGo(ing: Ingress): nat {
    match ing
    case IngHead => 2
    case IngTrying => 1
    case IngRetry => 2
    case IngStopped => 0
  }

  function SequencerToGo(q: Sequencer): nat {
    match q
    case SeqHead => 3
    case SeqPoll => 2
    case SeqEmpty(poll) => if poll.done then 1 else 4
    case SeqSending(_, _) => 1
    case SeqRetry(_, _) => 2
    case SeqStopped(_) => 0
  }

  function AggregatorToGo(agg: Aggregator): nat {
    match agg
    case AggHead => 3
    case AggPoll => 2
    case AggEmpty(poll) => if poll.done then 1 else 4
    case AggSending(_) => 1
    case AggRetry(_) => 2
    case AggStopped(_) => 0
  }

  function ReplayerToGo(rep: Replayer): nat {
    match rep
    case RepHead => 3
    case RepPoll => 2
    case RepEmpty(poll) => if poll.done then 1 else 4
    case RepHolding(_) => 0
    case RepStopped(_) => 0
  }

  /** Up to a constant: each transition of the counters outweighs whatever the stages do meanwhile. */
  function ToGo(s: State): int {
    IngressToGo(s.ingress) + SequencerToGo(s.sequencer) + AggregatorToGo(s.aggregator) + ReplayerToGo(s.replayer)
    - 5 * (s.produced + s.taken + s.sent + s.received + s.committed + s.fetched + |s.submitted|)
  }

  lemma {:induction false} PosReaches(lanes: nat, b: nat) returns (n: nat)
    requires 0 < lanes
    ensures Pos(lanes, n) == (b, 0)
  {
    if b == 0 {
      n := 0;
    } else {
      n := PosReaches(lanes, b - 1);
      n := PosAlong(lanes, n, b - 1, lanes - 1);
      n := n + 1;
    }
  }

  lemma {:induction false} PosAlong(lanes: nat, m: nat, b: nat, l: nat) returns (n: nat)
    requires l < lanes && Pos(lanes, m) == (b, 0)
    ensures Pos(lanes, n) == (b, l)
  {
    if l == 0 {
      n := m;
    } else {
      n := PosAlong(lanes, m, b, l - 1);
      n := n + 1;
    }
  }

  lemma NotNegative(c: Config, s: State, batches: nat)
    requires ConfigOk(c) && Sound(c, s) && Pos(c.lanes, batches) == (|c.jobs|, 0)
    ensures ToGo(s) + 25 * |c.jobs| + 10 * batches >= 0
  {
    hide Pos, InLanes, Submitted, ConfigOk, CommitAt, OpenAt, FlagsOk;
    if s.sent > batches { PosGrows(c.lanes, batches, s.sent); }
    Committed(c, s);
  }

  lemma Committed(c: Config, s: State)
    requires ConfigOk(c) && Inv(c, s)
    ensures s.committed <= s.taken <= s.produced <= |c.jobs|
  {
    hide Pos, InLanes, Submitted, CommitAt, OpenAt;
  }

  // Each move of the helper keeps the hope and comes closer

  predicate Helps(s: State, s': State) {
    Hopeful(s') && !s'.cancelled && ToGo(s') < ToGo(s)
  }

  lemma ReplayerHelps(c: Config, s: State)
    requires ConfigOk(c) && Sound(c, s) && Hopeful(s) && ReplayerReady(s)
    ensures Helps(s, StepReplayer(c, s))
  {
    hide Inv, Submit, RequestFor, ProofFor;
    if s.replayer.RepHead? {
    } else if s.replayer.RepPoll? {
    } else if s.replayer.RepEmpty? {
    } else {
    }
  }

  /** When the aggregator has polled after the sequencer was done, no block is open. */
  lemma NothingOpen(c: Config, s: State)
    requires ConfigOk(c) && Sound(c, s) && s.aggregator.AggEmpty? && s.aggregator.poll.done
    ensures s.sequencerDone && s.open == map[]
  {
    hide Pos, InLanes, Submitted, ConfigOk, CommitAt, OpenAt;
  }

  lemma AggregatorSendHelps(c: Config, s: State)
    requires ConfigOk(c) && c.capacity > 0 && Sound(c, s) && Hopeful(s) && !ReplayerReady(s)
    requires s.aggregator.AggSending? || s.aggregator.AggRetry?
    ensures Helps(s, StepAggregator(c, s, true))
  {
    hide Inv, Absorb, Zeros, CommitBlock, IngressFlag, SequencerFlag;
    if s.aggregator.AggSending? {
    } else {
    }
  }

  lemma AggregatorPollHelps(c: Config, s: State)
    requires ConfigOk(c) && Sound(c, s) && Hopeful(s) && s.aggregator.AggPoll? && (s.laneQ != [] || s.sequencerDone)
    ensures Helps(s, StepAggregator(c, s, true))
  {
    hide Inv, Absorb, Zeros, CommitBlock, IngressFlag, SequencerFlag;
    if s.laneQ == [] {
    } else {
    }
  }

  lemma AggregatorHeadHelps(c: Config, s: State)
    requires ConfigOk(c) && Sound(c, s) && Hopeful(s) && s.aggregator.AggHead?
    ensures Helps(s, StepAggregator(c, s, true))
  {
    hide Inv, Absorb, Zeros, CommitBlock, FlagsOk, Counted;
  }

  lemma AggregatorEmptyStep(c: Config, s: State)
    requires s.aggregator.AggEmpty?
    ensures StepAggregator(c, s, true)
         == if s.sequencerDone && s.open == map[]
            then s.(aggregator := AggStopped(AfterPoll(s.aggregator.poll)), aggregatorDone := true)
            else s.(aggregator := AggHead)
  {
    hide Absorb, Zeros, CommitBlock;
  }

  lemma LeavingHelps(c: Config, s: State, p: Poll)
    requires FlagsReplayer(s) && Hopeful(s) && !s.cancelled && !ReplayerReady(s) && s.aggregator == AggEmpty(p)
    requires s.sequencerDone && s.open == map[]
    ensures Helps(s, s.(aggregator := AggStopped(AfterPoll(p)), aggregatorDone := true))
  {
    hide IngressToGo, SequencerToGo, ReplayerToGo;
  }

  /** What `FlagsOk` says of a replayer that has left. */
  predicate FlagsReplayer(s: State) {
    s.replayer.RepStopped? && s.replayer.exit.AfterPoll? ==> s.aggregatorDone
  }

  lemma ReturningHelps(c: Config, s: State, p: Poll)
    requires Hopeful(s) && !s.cancelled && s.aggregator == AggEmpty(p) && !p.done
    ensures Helps(s, s.(aggregator := AggHead))
  {
    hide IngressToGo, SequencerToGo, ReplayerToGo;
  }

  lemma AggregatorEmptyHelps(c: Config, s: State)
    requires ConfigOk(c) && Sound(c, s) && Hopeful(s) && !ReplayerReady(s) && s.aggregator.AggEmpty?
    ensures Helps(s, StepAggregator(c, s, true))
  {
    AggregatorEmptyStep(c, s);
    if s.aggregator.poll.done { NothingOpen(c, s); }
    assert FlagsReplayer(s) && (s.aggregatorDone <==> s.aggregator.AggStopped?) && !s.cancelled;
    hide Inv, StepAggregator, FlagsOk, Counted, ConfigOk, Helps, Hopeful, ReplayerReady;
    if s.sequencerDone && s.open == map[] {
      LeavingHelps(c, s, s.aggregator.poll);
    } else {
      ReturningHelps(c, s, s.aggregator.poll);
    }
  }

  lemma AggregatorHelps(c: Config, s: State)
    requires ConfigOk(c) && c.capacity > 0 && Sound(c, s) && Hopeful(s) && !ReplayerReady(s) && AggregatorReady(s)
    ensures Helps(s, StepAggregator(c, s, true))
  {
    hide Sound, Hopeful, Helps, StepAggregator;
    if s.aggregator.AggSending? || s.aggregator.AggRetry? {
      AggregatorSendHelps(c, s);
    } else if s.aggregator.AggPoll? {
      AggregatorPollHelps(c, s);
    } else if s.aggregator.AggHead? {
      AggregatorHeadHelps(c, s);
    } else {
      AggregatorEmptyHelps(c, s);
    }
  }

  lemma SequencerHelps(c: Config, s: State)
    requires ConfigOk(c) && c.capacity > 0 && Sound(c, s) && Hopeful(s)
    requires !ReplayerReady(s) && !AggregatorReady(s) && SequencerReady(s)
    ensures Helps(s, StepSequencer(c, s, true))
  {
    hide Inv, BatchOf, Undealt;
    if s.sequencer.SeqHead? {
    } else if s.sequencer.SeqPoll? {
    } else if s.sequencer.SeqEmpty? {
    } else if s.sequencer.SeqSending? {
    } else {
    }
  }

  lemma IngressHelps(c: Config, s: State)
    requires ConfigOk(c) && c.capacity > 0 && Sound(c, s) && Hopeful(s) && !AllStopped(s)
    requires !ReplayerReady(s) && !AggregatorReady(s) && !SequencerReady(s)
    ensures Helps(s, StepIngress(c, s, true))
  {
    hide Inv;
    if s.ingress.IngHead? {
    } else if s.ingress.IngTrying? {
    } else {
    }
  }

  lemma HelperHelps(c: Config, s: State)
    requires ConfigOk(c) && c.capacity > 0 && Sound(c, s) && Hopeful(s) && !AllStopped(s)
    ensures Helps(s, Step(c, s, Helper(s)))
  {
    hide Sound, Hopeful, Helps, StepIngress, StepSequencer, StepAggregator, StepReplayer;
    if ReplayerReady(s) {
      ReplayerHelps(c, s);
    } else if AggregatorReady(s) {
      AggregatorHelps(c, s);
    } else if SequencerReady(s) {
      SequencerHelps(c, s);
    } else {
      IngressHelps(c, s);
    }
  }

  lemma {:induction false} HelpersFinish(c: Config, moves: seq<Move>, batches: nat, toGo: nat)
    returns (more: seq<Move>)
    requires ConfigOk(c) && c.capacity > 0 && Pos(c.lanes, batches) == (|c.jobs|, 0)
    requires !Exec(c, moves).cancelled && Hopeful(Exec(c, moves))
    requires ToGo(Exec(c, moves)) + 25 * |c.jobs| + 10 * batches <= toGo
    ensures var s := Exec(c, moves + more); AllStopped(s) && !s.cancelled && Hopeful(s)
    decreases toGo
  {
    hide Pos, Sound, Hopeful, Step, Exec, ToGo, AllStopped;
    var s := Exec(c, moves);
    SoundRun(c, moves);
    NotNegative(c, s, batches);
    if AllStopped(s) {
      more := [];
      assert moves + more == moves;
    } else {
      HelperHelps(c, s);
      ExecNext(c, moves, Helper(s));
      var next := moves + [Helper(s)];
      SoundRun(c, next);
      NotNegative(c, Exec(c, next), batches);
      more := HelpersFinish(c, next, batches, toGo - 1);
      assert next + more == moves + ([Helper(s)] + more);
      more := [Helper(s)] + more;
    }
  }

  // Lost hope does not come back

  lemma SequencerStaysHopeless(c: Config, s: State, m: Move)
    requires ConfigOk(c) && Sound(c, s) && !SequencerHopes(s) && !Step(c, s, m).cancelled
    ensures !SequencerHopes(Step(c, s, m))
  {
    hide Inv, StepAggregator, StepReplayer, BatchOf, Undealt, AggregatorFlag, ReplayerFlag;
    if m.MoveIngress? {
    } else if m.MoveSequencer? {
      if s.sequencer.SeqEmpty? {
      } else {
      }
    }
  }

  lemma AggregatorStaysHopeless(c: Config, s: State, m: Move)
    requires ConfigOk(c) && Sound(c, s) && !AggregatorHopes(s) && !Step(c, s, m).cancelled
    ensures !AggregatorHopes(Step(c, s, m))
  {
    hide Inv, StepIngress, StepReplayer, BatchOf, Undealt, Absorb, Zeros, CommitBlock, IngressFlag, ReplayerFlag;
    if m.MoveSequencer? {
    } else if m.MoveAggregator? {
      if s.aggregator.AggEmpty? {
      } else {
      }
    }
  }

  lemma ReplayerStaysHopeless(c: Config, s: State, m: Move)
    requires ConfigOk(c) && Sound(c, s) && !ReplayerHopes(s) && !Step(c, s, m).cancelled
    ensures !ReplayerHopes(Step(c, s, m))
  {
    hide Inv, StepIngress, StepSequencer, Absorb, Zeros, CommitBlock, RequestFor, Submit, IngressFlag, SequencerFlag;
    if m.MoveAggregator? {
    } else if m.MoveReplayer? {
      if s.replayer.RepEmpty? {
      } else {
      }
    }
  }

  lemma {:induction false} StaysHopeless(c: Config, moves: seq<Move>, more: seq<Move>)
    requires ConfigOk(c)
    requires !Exec(c, moves + more).cancelled
    ensures !Exec(c, moves).cancelled
    ensures Hopeful(Exec(c, moves + more)) ==> Hopeful(Exec(c, moves))
    decreases |more|
  {
    hide Sound, Step, SequencerHopes, AggregatorHopes, ReplayerHopes;
    if more == [] {
      assert moves + more == moves;
    } else {
      var n := |more| - 1;
      var s := Exec(c, moves + more[..n]);
      assert (moves + more)[..|moves + more| - 1] == moves + more[..n];
      if s.cancelled { StaysCancelled(c, s, more[n]); }
      SoundRun(c, moves + more[..n]);
      if !SequencerHopes(s) { SequencerStaysHopeless(c, s, more[n]); }
      if !AggregatorHopes(s) { AggregatorStaysHopeless(c, s, more[n]); }
      if !ReplayerHopes(s) { ReplayerStaysHopeless(c, s, more[n]); }
      StaysHopeless(c, moves, more[..n]);
    }
  }

  /** A run that ends with every block submitted, without a cancellation. */
  predicate Drained(c: Config, s: State) {
    AllStopped(s) && !s.cancelled && |s.submitted| == |c.jobs|
  }

  lemma EndsDrained(c: Config, moves: seq<Move>)
    requires ConfigOk(c)
    requires AllStopped(Exec(c, moves)) && !Exec(c, moves).cancelled
    ensures Drained(c, Exec(c, moves)) <==> Hopeful(Exec(c, moves))
  {
    hide Exec;
    DrainedExactlyWhenPolledAfterLast(c, moves);
  }

  /** No deadlock: with queues of any positive capacity, every reachable uncancelled state can still be
      brought to a run that submits every block, if and only if no stage has left, or is bound to leave,
      on a poll that came too early. */
  lemma CanDrainExactlyWhenHopeful(c: Config, moves: seq<Move>)
    requires ConfigOk(c) && c.capacity > 0 && !Exec(c, moves).cancelled
    ensures Hopeful(Exec(c, moves)) <==> exists more: seq<Move> :: Drained(c, Exec(c, moves + more))
  {
    hide Exec, Hopeful, Drained, Pos, ToGo;
    if Hopeful(Exec(c, moves)) {
      var batches := PosReaches(c.lanes, |c.jobs|);
      SoundRun(c, moves);
      NotNegative(c, Exec(c, moves), batches);
      var more := HelpersFinish(c, moves, batches, ToGo(Exec(c, moves)) + 25 * |c.jobs| + 10 * batches);
      EndsDrained(c, moves + more);
    }
    forall more: seq<Move> | Drained(c, Exec(c, moves + more)) ensures Hopeful(Exec(c, moves)) {
      DrainedIsStopped(c, Exec(c, moves + more));
      EndsDrained(c, moves + more);
      StaysHopeless(c, moves, more);
    }
  }

  lemma DrainedIsStopped(c: Config, s: State)
    requires Drained(c, s)
    ensures AllStopped(s) && !s.cancelled
  {
  }

  /** In particular from the start: every configuration has a run that submits everything. */
  lemma EveryConfigurationDrains(c: Config)
    requires ConfigOk(c) && c.capacity > 0
    ensures exists moves: seq<Move> :: Drained(c, Exec(c, moves))
  {
    hide Drained;
    CanDrainExactlyWhenHopeful(c, []);
    var more: seq<Move> :| Drained(c, Exec(c, [] + more));
    assert [] + more == more;
  }
}
