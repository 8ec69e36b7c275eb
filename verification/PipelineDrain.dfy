/** How the pipeline shuts down: when it has submitted everything, and when it has not. */
module PipelineDrain {
  import opened Frame
  import opened L1
  import opened L1Runs
  import opened Pipeline
  import opened PipelineSafety

  predicate IngressFlag(c: Config, s: State) {
    && (s.ingressDone <==> s.ingress.IngStopped?)
    && (s.ingressDone && !s.cancelled ==> s.produced >= |c.jobs|)
    && (s.ingress.IngTrying? || s.ingress.IngRetry? ==> s.produced < |c.jobs|)
  }

  /** The poll of a stage found its queue empty: the stage had taken all it saw, and if the stage
      before was done by then, it has taken all there will be. */
  predicate PollOk(poll: Poll, taken: nat, done: bool, enqueued: nat) {
    poll.seen == taken <= enqueued && (poll.done ==> done && poll.seen == enqueued)
  }

  predicate SequencerFlag(c: Config, s: State)
    requires 0 < c.lanes
  {
    var q := s.sequencer;
    && (s.sequencerDone <==> q.SeqStopped?)
    && (q.SeqEmpty? ==> PollOk(q.poll, s.taken, s.ingressDone, s.produced))
    && (q.SeqStopped? && q.exit.AfterPoll? ==> s.ingressDone && PollOk(q.exit.poll, s.taken, s.ingressDone, s.produced))
    && (q == SeqStopped(Cancelled) ==> s.cancelled)
  }

  predicate AggregatorFlag(s: State) {
    var agg := s.aggregator;
    && (s.aggregatorDone <==> agg.AggStopped?)
    && (agg.AggEmpty? ==> PollOk(agg.poll, s.received, s.sequencerDone, s.sent))
    && (agg.AggStopped? && agg.exit.AfterPoll? ==>
          s.sequencerDone && s.open == map[] && PollOk(agg.exit.poll, s.received, s.sequencerDone, s.sent))
    && (agg == AggStopped(Cancelled) ==> s.cancelled)
  }

  predicate ReplayerFlag(s: State) {
    var rep := s.replayer;
    && (rep.RepEmpty? ==> PollOk(rep.poll, s.fetched, s.aggregatorDone, s.committed))
    && (rep.RepStopped? && rep.exit.AfterPoll? ==>
          s.aggregatorDone && PollOk(rep.exit.poll, s.fetched, s.aggregatorDone, s.committed))
    && (rep == RepStopped(Cancelled) ==> s.cancelled)
  }

  predicate FlagsOk(c: Config, s: State)
    requires 0 < c.lanes
  {
    IngressFlag(c, s) && SequencerFlag(c, s) && AggregatorFlag(s) && ReplayerFlag(s)
  }

  predicate Counted(s: State) {
    && |s.ingressQ| == s.produced - s.taken && |s.laneQ| == s.sent - s.received
    && |s.commitQ| == s.committed - s.fetched
  }

  lemma QueueSizes(c: Config, s: State)
    requires ConfigOk(c) && Inv(c, s)
    ensures Counted(s)
  {
  }

  lemma IngressFlags(c: Config, s: State, room: bool)
    requires 0 < c.lanes && FlagsOk(c, s)
    ensures FlagsOk(c, StepIngress(c, s, room))
  {
    hide Pos;
    if s.ingress.IngHead? {
    } else if s.ingress.IngTrying? {
    } else if s.ingress.IngRetry? {
    }
  }

  lemma SequencerFlags(c: Config, s: State, room: bool)
    requires ConfigOk(c) && FlagsOk(c, s) && Counted(s)
    ensures FlagsOk(c, StepSequencer(c, s, room))
  {
    hide Pos, Undealt, BatchOf, ConfigOk;
    if s.sequencer.SeqHead? {
    } else if s.sequencer.SeqPoll? {
    } else if s.sequencer.SeqEmpty? {
    } else if s.sequencer.SeqSending? {
    } else if s.sequencer.SeqRetry? {
    }
  }

  lemma AggregatorPollFlags(c: Config, s: State, room: bool)
    requires 0 < c.lanes && FlagsOk(c, s) && Counted(s)
    requires s.aggregator.AggHead? || s.aggregator.AggPoll? || s.aggregator.AggEmpty?
    ensures FlagsOk(c, StepAggregator(c, s, room))
  {
    hide Pos, Absorb, Zeros, CommitBlock;
    if s.aggregator.AggHead? {
    } else if s.aggregator.AggPoll? {
    } else {
    }
  }

  lemma AggregatorSendFlags(c: Config, s: State, room: bool)
    requires 0 < c.lanes && FlagsOk(c, s) && Counted(s) && (s.aggregator.AggSending? || s.aggregator.AggRetry?)
    ensures FlagsOk(c, StepAggregator(c, s, room))
  {
    hide Pos, Absorb, Zeros, CommitBlock;
    if s.aggregator.AggSending? {
    } else {
    }
  }

  lemma AggregatorFlags(c: Config, s: State, room: bool)
    requires 0 < c.lanes && FlagsOk(c, s) && Counted(s)
    ensures FlagsOk(c, StepAggregator(c, s, room))
  {
    if s.aggregator.AggSending? || s.aggregator.AggRetry? {
      hide FlagsOk, Counted, StepAggregator;
      AggregatorSendFlags(c, s, room);
    } else if s.aggregator.AggStopped? {
      hide FlagsOk, Counted;
      AggregatorStays(c, s, room);
    } else {
      hide FlagsOk, Counted, StepAggregator;
      AggregatorPollFlags(c, s, room);
    }
  }

  lemma ReplayerPollFlags(c: Config, s: State)
    requires 0 < c.lanes && FlagsOk(c, s) && Counted(s) && (s.replayer.RepPoll? || s.replayer.RepEmpty?)
    ensures FlagsOk(c, StepReplayer(c, s))
  {
    hide Pos, Submit, RequestFor, ProofFor;
    if s.replayer.RepPoll? {
    } else {
    }
  }

  lemma ReplayerFlags(c: Config, s: State)
    requires 0 < c.lanes && FlagsOk(c, s) && Counted(s)
    ensures FlagsOk(c, StepReplayer(c, s))
  {
    hide Pos, Submit, RequestFor, ProofFor;
    if s.replayer.RepPoll? || s.replayer.RepEmpty? {
      hide FlagsOk, Counted, StepReplayer;
      ReplayerPollFlags(c, s);
    } else if s.replayer.RepHead? {
    } else if s.replayer.RepHolding? {
    }
  }

  lemma StepFlags(c: Config, s: State, m: Move)
    requires ConfigOk(c) && FlagsOk(c, s) && Inv(c, s)
    ensures FlagsOk(c, Step(c, s, m))
  {
    hide StepIngress, StepSequencer, StepAggregator, StepReplayer, FlagsOk, Inv, Counted;
    QueueSizes(c, s);
    match m
    case Cancel => CancelFlags(c, s);
    case MoveIngress(room) => IngressFlags(c, s, room);
    case MoveSequencer(room) => SequencerFlags(c, s, room);
    case MoveAggregator(room) => AggregatorFlags(c, s, room);
    case MoveReplayer => ReplayerFlags(c, s);
  }

  lemma {:induction false} AlwaysFlagsOk(c: Config, moves: seq<Move>)
    requires ConfigOk(c)
    ensures FlagsOk(c, Exec(c, moves))
    decreases |moves|
  {
    if moves != [] {
      hide Step, FlagsOk, Inv;
      var pre := moves[..|moves| - 1];
      AlwaysFlagsOk(c, pre);
      AlwaysInv(c, pre);
      StepFlags(c, Exec(c, pre), moves[|moves| - 1]);
    }
  }

  lemma CancelFlags(c: Config, s: State)
    requires 0 < c.lanes && FlagsOk(c, s)
    ensures FlagsOk(c, s.(cancelled := true))
  {
  }

  predicate AllStopped(s: State) {
    s.ingress.IngStopped? && s.sequencer.SeqStopped? && s.aggregator.AggStopped? && s.replayer.RepStopped?
  }

  /** Every stage left on a poll that failed after the stage before it was done. */
  predicate AllStoppedLate(s: State) {
    && s.sequencer.SeqStopped? && s.sequencer.exit.AfterPoll? && s.sequencer.exit.poll.done
    && s.aggregator.AggStopped? && s.aggregator.exit.AfterPoll? && s.aggregator.exit.poll.done
    && s.replayer.RepStopped? && s.replayer.exit.AfterPoll? && s.replayer.exit.poll.done
  }

  /** Where the counters stand when the last three stages have left of themselves. */
  lemma StoppedCounters(c: Config, s: State)
    requires ConfigOk(c) && Inv(c, s) && FlagsOk(c, s)
    requires s.sequencer.SeqStopped? && s.aggregator.AggStopped? && s.replayer.RepStopped?
    requires s.sequencer.exit.AfterPoll? && s.aggregator.exit.AfterPoll? && s.replayer.exit.AfterPoll?
    ensures s.fetched == |s.submitted| && s.committed <= s.taken <= s.produced
    ensures s.fetched <= s.committed && s.received <= s.sent
    ensures Pos(c.lanes, s.sent) == (s.taken, 0) && Pos(c.lanes, s.received) == (s.committed, 0)
  {
    hide Pos, InLanes, Submitted, ConfigOk, CommitAt, OpenAt;
    QueueSizes(c, s);
    assert s.committed !in s.open;
  }

  /** When every stage left late, every block that entered has been submitted; without a
      cancellation, that is every block. */
  lemma LatePollsDrain(c: Config, moves: seq<Move>)
    requires ConfigOk(c) && AllStoppedLate(Exec(c, moves))
    ensures var s := Exec(c, moves);
            |s.submitted| == s.produced && (!s.cancelled ==> |s.submitted| == |c.jobs|)
  {
    hide Exec, Inv, Pos;
    AlwaysInv(c, moves);
    AlwaysFlagsOk(c, moves);
    var s := Exec(c, moves);
    StoppedCounters(c, s);
    Produced(c, s);
  }

  lemma Produced(c: Config, s: State)
    requires ConfigOk(c) && Inv(c, s)
    ensures s.produced <= |c.jobs|
  {
  }

  /** Every stage's exiting poll saw all that the stage before it ever enqueued. */
  predicate PolledAfterLast(s: State)
    requires s.sequencer.SeqStopped? && s.aggregator.AggStopped? && s.replayer.RepStopped?
    requires s.sequencer.exit.AfterPoll? && s.aggregator.exit.AfterPoll? && s.replayer.exit.AfterPoll?
  {
    && s.sequencer.exit.poll.seen == s.produced && s.aggregator.exit.poll.seen == s.sent
    && s.replayer.exit.poll.seen == s.committed
  }

  /** An uncancelled run in which every stage has stopped has submitted every block if and only if each
      stage's exiting poll came after the last enqueue of the stage before it. */
  lemma DrainedExactlyWhenPolledAfterLast(c: Config, moves: seq<Move>)
    requires ConfigOk(c)
    requires AllStopped(Exec(c, moves)) && !Exec(c, moves).cancelled
    ensures var s := Exec(c, moves);
            && s.sequencer.exit.AfterPoll? && s.aggregator.exit.AfterPoll? && s.replayer.exit.AfterPoll?
            && (|s.submitted| == |c.jobs| <==> PolledAfterLast(s))
  {
    hide Exec, Inv, Pos;
    AlwaysInv(c, moves);
    AlwaysFlagsOk(c, moves);
    var s := Exec(c, moves);
    StoppedCounters(c, s);
    Produced(c, s);
    if s.received < s.sent { PosGrows(c.lanes, s.received, s.sent); }
  }

  // The polls happened

  predicate SequencerLeft(s: State, p: Poll) {
    s.sequencer == SeqEmpty(p) || s.sequencer == SeqStopped(AfterPoll(p))
  }

  predicate AggregatorLeft(s: State, p: Poll) {
    s.aggregator == AggEmpty(p) || s.aggregator == AggStopped(AfterPoll(p))
  }

  predicate ReplayerLeft(s: State, p: Poll) {
    s.replayer == RepEmpty(p) || s.replayer == RepStopped(AfterPoll(p))
  }

  /** What an exit remembers was so at the moment of its poll: the queue was empty, and flag and
      counter of the stage before were as recorded. */
  lemma SequencerPollStep(c: Config, s: State, m: Move, p: Poll)
    requires 0 < c.lanes && SequencerLeft(Step(c, s, m), p)
    ensures SequencerLeft(s, p)
            || (m.MoveSequencer? && s.sequencer == SeqPoll && s.ingressQ == [] && p == Poll(s.ingressDone, s.produced))
  {
    hide StepIngress, StepAggregator, StepReplayer, BatchOf, Undealt;
    if m.MoveSequencer? {
      if s.sequencer.SeqHead? {
      } else if s.sequencer.SeqPoll? {
      } else if s.sequencer.SeqEmpty? {
      }
    }
  }

  lemma {:induction false} SequencerPolledAt(c: Config, moves: seq<Move>, p: Poll)
    returns (n: nat)
    requires 0 < c.lanes && SequencerLeft(Exec(c, moves), p)
    ensures n < |moves| && moves[n].MoveSequencer?
    ensures var s := Exec(c, moves[..n]);
            s.sequencer == SeqPoll && s.ingressQ == [] && p == Poll(s.ingressDone, s.produced)
    decreases |moves|
  {
    if moves == [] {
      assert false;
    }
    hide Step, SequencerLeft;
    n := |moves| - 1;
    var pre := moves[..n];
    SequencerPollStep(c, Exec(c, pre), moves[n], p);
    if SequencerLeft(Exec(c, pre), p) {
      n := SequencerPolledAt(c, pre, p);
      assert moves[..n] == pre[..n];
    }
  }

  lemma AggregatorPollStep(c: Config, s: State, m: Move, p: Poll)
    requires 0 < c.lanes && AggregatorLeft(Step(c, s, m), p)
    ensures AggregatorLeft(s, p)
            || (m.MoveAggregator? && s.aggregator == AggPoll && s.laneQ == [] && p == Poll(s.sequencerDone, s.sent))
  {
    hide StepIngress, StepSequencer, StepReplayer, Absorb, Zeros, CommitBlock;
    if m.MoveAggregator? {
      if s.aggregator.AggHead? {
      } else if s.aggregator.AggPoll? {
      } else if s.aggregator.AggEmpty? {
      }
    }
  }

  lemma {:induction false} AggregatorPolledAt(c: Config, moves: seq<Move>, p: Poll)
    returns (n: nat)
    requires 0 < c.lanes && AggregatorLeft(Exec(c, moves), p)
    ensures n < |moves| && moves[n].MoveAggregator?
    ensures var s := Exec(c, moves[..n]);
            s.aggregator == AggPoll && s.laneQ == [] && p == Poll(s.sequencerDone, s.sent)
    decreases |moves|
  {
    if moves == [] {
      assert false;
    }
    hide Step, AggregatorLeft;
    n := |moves| - 1;
    var pre := moves[..n];
    AggregatorPollStep(c, Exec(c, pre), moves[n], p);
    if AggregatorLeft(Exec(c, pre), p) {
      n := AggregatorPolledAt(c, pre, p);
      assert moves[..n] == pre[..n];
    }
  }

  lemma ReplayerPollStep(c: Config, s: State, m: Move, p: Poll)
    requires 0 < c.lanes && ReplayerLeft(Step(c, s, m), p)
    ensures ReplayerLeft(s, p)
            || (m.MoveReplayer? && s.replayer == RepPoll && s.commitQ == [] && p == Poll(s.aggregatorDone, s.committed))
  {
    hide StepIngress, StepSequencer, StepAggregator, RequestFor, Submit;
    if m.MoveReplayer? {
      if s.replayer.RepHead? {
      } else if s.replayer.RepPoll? {
      } else if s.replayer.RepEmpty? {
      }
    }
  }

  lemma {:induction false} ReplayerPolledAt(c: Config, moves: seq<Move>, p: Poll)
    returns (n: nat)
    requires 0 < c.lanes && ReplayerLeft(Exec(c, moves), p)
    ensures n < |moves| && moves[n].MoveReplayer?
    ensures var s := Exec(c, moves[..n]);
            s.replayer == RepPoll && s.commitQ == [] && p == Poll(s.aggregatorDone, s.committed)
    decreases |moves|
  {
    if moves == [] {
      assert false;
    }
    hide Step, ReplayerLeft;
    n := |moves| - 1;
    var pre := moves[..n];
    ReplayerPollStep(c, Exec(c, pre), moves[n], p);
    if ReplayerLeft(Exec(c, pre), p) {
      n := ReplayerPolledAt(c, pre, p);
      assert moves[..n] == pre[..n];
    }
  }

  predicate Before(p: (nat, nat), q: (nat, nat)) {
    p.0 < q.0 || (p.0 == q.0 && p.1 < q.1)
  }

  lemma {:induction false} PosGrows(lanes: nat, m: nat, n: nat)
    requires 0 < lanes && m < n
    ensures Before(Pos(lanes, m), Pos(lanes, n))
  {
    if m + 1 < n { PosGrows(lanes, m, n - 1); }
  }

  lemma ExecNext(c: Config, moves: seq<Move>, m: Move)
    requires 0 < c.lanes
    ensures Exec(c, moves + [m]) == Step(c, Exec(c, moves), m)
  {
    assert (moves + [m])[..|moves|] == moves;
  }

  lemma Steps3(c: Config, moves: seq<Move>, m1: Move, m2: Move, m3: Move)
    requires 0 < c.lanes
    ensures Exec(c, moves + [m1, m2, m3]) == Step(c, Step(c, Step(c, Exec(c, moves), m1), m2), m3)
  {
    hide Exec, Step;
    ExecNext(c, moves, m1);
    ExecNext(c, moves + [m1], m2);
    ExecNext(c, moves + [m1] + [m2], m3);
    assert moves + [m1, m2, m3] == moves + [m1] + [m2] + [m3];
  }

  /** The flag is tested only after the poll, so the last block can slip in between: a run with no
      cancellation in which every stage stops and the block stays in the first queue. */
  lemma LastBlockCanBeLeftBehind(c: Config) returns (moves: seq<Move>)
    requires ConfigOk(c) && |c.jobs| == 1 && c.capacity > 0
    ensures var s := Exec(c, moves);
            && AllStopped(s) && !s.cancelled && s.produced == |c.jobs|
            && s.ingressQ == c.jobs && s.submitted == [] && s.l1 == EMPTY_NODE
  {
    hide Exec;
    var sq, ig, ag, rp := MoveSequencer(true), MoveIngress(true), MoveAggregator(true), MoveReplayer;
    var s0 := Start(c);
    assert Exec(c, []) == s0 by { EmptyRun(c); }
    var m1 := [sq, sq, ig];
    Steps3(c, [], sq, sq, ig);
    assert [] + [sq, sq, ig] == m1;
    var s1 := s0.(sequencer := SeqEmpty(Poll(false, 0)), ingress := IngTrying);
    assert Exec(c, m1) == s1;
    Steps3(c, m1, ig, ig, sq);
    var s2 := s1.(sequencer := SeqStopped(AfterPoll(Poll(false, 0))), ingress := IngStopped, ingressQ := c.jobs,
                  produced := 1, ingressDone := true, sequencerDone := true);
    assert [] + [c.jobs[0]] == c.jobs;
    assert Exec(c, m1 + [ig, ig, sq]) == s2;
    Steps3(c, m1 + [ig, ig, sq], ag, ag, ag);
    var s3 := s2.(aggregator := AggStopped(AfterPoll(Poll(true, 0))), aggregatorDone := true);
    assert Exec(c, m1 + [ig, ig, sq] + [ag, ag, ag]) == s3;
    Steps3(c, m1 + [ig, ig, sq] + [ag, ag, ag], rp, rp, rp);
    moves := m1 + [ig, ig, sq] + [ag, ag, ag] + [rp, rp, rp];
  }

  lemma EmptyRun(c: Config)
    requires 0 < c.lanes
    ensures Exec(c, []) == Start(c)
  {
  }

  // Too many lanes

  lemma {:induction false} FewLaneIds(ids: set<u16>, n: nat)
    requires forall l: u16 :: l in ids ==> l < n
    ensures |ids| <= n
    decreases n
  {
    if n == 0 {
      assert forall l: u16 :: l !in ids;
    } else {
      var last: int := n - 1;
      var rest := set l | l in ids && l != last;
      FewLaneIds(rest, n - 1);
      if last in ids {
        assert ids == rest + {last};
      } else {
        assert ids == rest;
      }
    }
  }

  predicate Idle(committed: nat, commitQ: seq<Commit>, submitted: seq<Request>, l1: Node, agg: Aggregator,
                 rep: Replayer) {
    && committed == 0 && commitQ == [] && submitted == [] && l1 == EMPTY_NODE
    && !agg.AggSending? && !agg.AggRetry? && !rep.RepHolding?
  }

  predicate NeverCommitted(s: State) {
    Idle(s.committed, s.commitQ, s.submitted, s.l1, s.aggregator, s.replayer)
  }

  lemma NeverComplete(c: Config, s: State)
    requires c.lanes > 0x1_0000 && s.laneQ != []
    ensures |Absorb(c, s.open, s.laneQ[0]).laneHashes| < c.lanes
  {
    var hashes := Absorb(c, s.open, s.laneQ[0]).laneHashes;
    FewLaneIds(hashes.Keys, 0x1_0000);
    assert |hashes| == |hashes.Keys|;
  }

  lemma SequencerNeverCommits(c: Config, s: State, room: bool)
    requires c.lanes > 0 && NeverCommitted(s)
    ensures NeverCommitted(StepSequencer(c, s, room))
  {
    hide BatchOf, Undealt, Idle;
    if s.sequencer.SeqHead? {
    } else if s.sequencer.SeqPoll? {
    } else if s.sequencer.SeqEmpty? {
    } else if s.sequencer.SeqSending? {
    } else if s.sequencer.SeqRetry? {
    }
  }

  lemma AggregatorNeverCompletes(c: Config, s: State, room: bool)
    requires c.lanes > 0x1_0000 && NeverCommitted(s) && s.aggregator.AggPoll? && s.laneQ != []
    ensures NeverCommitted(StepAggregator(c, s, room))
  {
    hide Absorb, Zeros, CommitBlock;
    NeverComplete(c, s);
  }

  lemma AggregatorNeverCommits(c: Config, s: State, room: bool)
    requires c.lanes > 0x1_0000 && NeverCommitted(s)
    ensures NeverCommitted(StepAggregator(c, s, room))
  {
    hide Absorb, Zeros, CommitBlock;
    if s.aggregator.AggPoll? && s.laneQ != [] {
      AggregatorNeverCompletes(c, s, room);
    } else if s.aggregator.AggHead? {
    } else if s.aggregator.AggEmpty? {
    }
  }

  lemma IngressNeverCommits(c: Config, s: State, room: bool)
    requires NeverCommitted(s)
    ensures NeverCommitted(StepIngress(c, s, room))
  {
    hide Idle;
    if s.ingress.IngHead? {
    } else if s.ingress.IngTrying? {
    } else if s.ingress.IngRetry? {
    }
  }

  lemma ReplayerNeverCommits(c: Config, s: State)
    requires NeverCommitted(s)
    ensures NeverCommitted(StepReplayer(c, s))
  {
    hide Submit, RequestFor;
    if s.replayer.RepHead? {
    } else if s.replayer.RepPoll? {
    } else if s.replayer.RepEmpty? {
    }
  }

  lemma NeverCommittedStep(c: Config, s: State, m: Move)
    requires c.lanes > 0x1_0000 && NeverCommitted(s)
    ensures NeverCommitted(Step(c, s, m))
  {
    hide Idle, StepIngress, StepSequencer, StepAggregator, StepReplayer;
    match m
    case Cancel =>
    case MoveIngress(room) => IngressNeverCommits(c, s, room);
    case MoveSequencer(room) => SequencerNeverCommits(c, s, room);
    case MoveAggregator(room) => AggregatorNeverCommits(c, s, room);
    case MoveReplayer => ReplayerNeverCommits(c, s);
  }

  /** Lane ids are cast to 16 bits: with more than 65536 lanes no block is ever complete, so nothing
      is ever committed or submitted. */
  lemma {:induction false} TooManyLanesNeverCommit(c: Config, moves: seq<Move>)
    requires c.lanes > 0x1_0000
    ensures NeverCommitted(Exec(c, moves))
    decreases |moves|
  {
    if moves != [] {
      hide Step, NeverCommitted;
      TooManyLanesNeverCommit(c, moves[..|moves| - 1]);
      NeverCommittedStep(c, Exec(c, moves[..|moves| - 1]), moves[|moves| - 1]);
    }
  }
}
