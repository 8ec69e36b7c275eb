/** A cancellation stops every stage, after boundedly many moves of its own and whatever the others do. */
module PipelineCancel {
  import opened Frame
  import opened L1
  import opened Pipeline
  import opened PipelineConserves
  import opened PipelineSafety

  datatype Stage = TheIngress | TheSequencer | TheAggregator | TheReplayer

  predicate Moves(m: Move, x: Stage) {
    match m
    case Cancel => false
    case MoveIngress(_) => x.TheIngress?
    case MoveSequencer(_) => x.TheSequencer?
    case MoveAggregator(_) => x.TheAggregator?
    case MoveReplayer => x.TheReplayer?
  }

  predicate Stopped(s: State, x: Stage) {
    match x
    case TheIngress => s.ingress.IngStopped?
    case TheSequencer => s.sequencer.SeqStopped?
    case TheAggregator => s.aggregator.AggStopped?
    case TheReplayer => s.replayer.RepStopped?
  }

  /** How many moves of its own a stage can still make once a cancellation is there to be seen. */
  function Left(c: Config, s: State, x: Stage): nat {
    match x
    case TheIngress =>
      (match s.ingress
       case IngHead => 1
       case IngTrying => 2
       case IngRetry => 1
       case IngStopped => 0)
    case TheSequencer =>
      (match s.sequencer
       case SeqHead => 1
       case SeqPoll => c.lanes + 3
       case SeqEmpty(_) => 2
       case SeqSending(_, lane) => if lane < c.lanes then c.lanes - lane + 2 else 2
       case SeqRetry(_, _) => 1
       case SeqStopped(_) => 0)
    case TheAggregator =>
      (match s.aggregator
       case AggHead => 1
       case AggPoll => 3
       case AggEmpty(_) => 2
       case AggSending(_) => 2
       case AggRetry(_) => 1
       case AggStopped(_) => 0)
    case TheReplayer =>
      (match s.replayer
       case RepHead => 1
       case RepPoll => 3
       case RepEmpty(_) => 2
       case RepHolding(_) => 2
       case RepStopped(_) => 0)
  }

  /** A stage comes closer with each move of its own, and no other move concerns it. */
  predicate Closer(c: Config, s: State, s': State, x: Stage, own: bool) {
    Left(c, s', x) + (if own && !Stopped(s, x) then 1 else 0) <= Left(c, s, x)
  }

  lemma IngressCloser(c: Config, s: State, room: bool, x: Stage)
    requires s.cancelled
    ensures Closer(c, s, StepIngress(c, s, room), x, x.TheIngress?)
  {
    if x.TheIngress? {
      if s.ingress.IngHead? {
      } else if s.ingress.IngTrying? {
      } else if s.ingress.IngRetry? {
      }
    } else {
      hide StepIngress;
    }
  }

  lemma SequencerCloser(c: Config, s: State, room: bool, x: Stage)
    requires s.cancelled && 0 < c.lanes
    ensures Closer(c, s, StepSequencer(c, s, room), x, x.TheSequencer?)
  {
    hide BatchOf, Undealt;
    if x.TheSequencer? {
      if s.sequencer.SeqHead? {
      } else if s.sequencer.SeqPoll? {
      } else if s.sequencer.SeqEmpty? {
      } else if s.sequencer.SeqSending? {
      } else if s.sequencer.SeqRetry? {
      }
    } else {
      hide StepSequencer;
    }
  }

  lemma AggregatorCloser(c: Config, s: State, room: bool, x: Stage)
    requires s.cancelled
    ensures Closer(c, s, StepAggregator(c, s, room), x, x.TheAggregator?)
  {
    hide Absorb, Zeros, CommitBlock;
    if x.TheAggregator? {
      if s.aggregator.AggHead? {
      } else if s.aggregator.AggPoll? {
      } else if s.aggregator.AggEmpty? {
      } else if s.aggregator.AggSending? {
      } else if s.aggregator.AggRetry? {
      }
    } else {
      hide StepAggregator;
    }
  }

  lemma ReplayerCloser(c: Config, s: State, x: Stage)
    requires s.cancelled
    ensures Closer(c, s, StepReplayer(c, s), x, x.TheReplayer?)
  {
    hide RequestFor, ProofFor, Submit;
    if x.TheReplayer? {
      if s.replayer.RepHead? {
      } else if s.replayer.RepPoll? {
      } else if s.replayer.RepEmpty? {
      } else if s.replayer.RepHolding? {
      }
    } else {
      hide StepReplayer;
    }
  }

  lemma StepCloser(c: Config, s: State, m: Move, x: Stage)
    requires s.cancelled && 0 < c.lanes
    ensures Closer(c, s, Step(c, s, m), x, Moves(m, x)) && Step(c, s, m).cancelled
  {
    StaysCancelled(c, s, m);
    hide Closer, StepIngress, StepSequencer, StepAggregator, StepReplayer;
    match m
    case Cancel => AgainCloser(c, s, x);
    case MoveIngress(room) => IngressCloser(c, s, room, x);
    case MoveSequencer(room) => SequencerCloser(c, s, room, x);
    case MoveAggregator(room) => AggregatorCloser(c, s, room, x);
    case MoveReplayer => ReplayerCloser(c, s, x);
  }

  lemma AgainCloser(c: Config, s: State, x: Stage)
    requires s.cancelled
    ensures Closer(c, s, s.(cancelled := true), x, false)
  {
  }

  lemma LeftBound(c: Config, s: State, x: Stage)
    ensures Left(c, s, x) <= c.lanes + 3
    ensures Left(c, s, x) == 0 <==> Stopped(s, x)
  {
  }

  /** A run is cancelled exactly when a cancellation came. */
  lemma {:induction false} CancelledExactlyWhen(c: Config, moves: seq<Move>)
    requires 0 < c.lanes
    ensures Exec(c, moves).cancelled <==> Cancel in moves
    decreases |moves|
  {
    if moves != [] {
      hide Step;
      CancelledExactlyWhen(c, moves[..|moves| - 1]);
      OnlyCancelCancels(c, Exec(c, moves[..|moves| - 1]), moves[|moves| - 1]);
    }
  }

  lemma OnlyCancelCancels(c: Config, s: State, m: Move)
    requires 0 < c.lanes
    ensures Step(c, s, m).cancelled <==> s.cancelled || m == Cancel
  {
    hide StepIngress, StepSequencer, StepAggregator, StepReplayer;
  }

  /** How many of the moves are the stage's. */
  function Own(moves: seq<Move>, x: Stage): nat {
    if moves == [] then 0 else Own(moves[..|moves| - 1], x) + if Moves(moves[|moves| - 1], x) then 1 else 0
  }

  lemma {:induction false} LeftAfter(c: Config, moves: seq<Move>, more: seq<Move>, x: Stage)
    requires 0 < c.lanes && Exec(c, moves).cancelled
    ensures var s, s' := Exec(c, moves), Exec(c, moves + more);
            s'.cancelled && (Stopped(s', x) || Left(c, s', x) + Own(more, x) <= Left(c, s, x))
            && Left(c, s', x) <= Left(c, s, x)
    decreases |more|
  {
    hide Step, Left, Stopped, Moves;
    if more == [] {
      assert moves + more == moves;
    } else {
      var n := |more| - 1;
      assert (moves + more)[..|moves + more| - 1] == moves + more[..n];
      LeftAfter(c, moves, more[..n], x);
      var s := Exec(c, moves + more[..n]);
      StepCloser(c, s, more[n], x);
      LeftBound(c, s, x);
      LeftBound(c, Step(c, s, more[n]), x);
    }
  }

  /** The done flags are up exactly when their stages have stopped. */
  predicate FlagsMatch(s: State) {
    && (s.ingressDone <==> s.ingress.IngStopped?) && (s.sequencerDone <==> s.sequencer.SeqStopped?)
    && (s.aggregatorDone <==> s.aggregator.AggStopped?)
  }

  lemma IngressMatches(c: Config, s: State, room: bool)
    requires FlagsMatch(s)
    ensures FlagsMatch(StepIngress(c, s, room))
  {
    if s.ingress.IngHead? {
    } else if s.ingress.IngTrying? {
    } else if s.ingress.IngRetry? {
    }
  }

  lemma SequencerMatches(c: Config, s: State, room: bool)
    requires 0 < c.lanes && FlagsMatch(s)
    ensures FlagsMatch(StepSequencer(c, s, room))
  {
    hide BatchOf, Undealt;
    if s.sequencer.SeqHead? {
    } else if s.sequencer.SeqPoll? {
    } else if s.sequencer.SeqEmpty? {
    } else if s.sequencer.SeqSending? {
    } else if s.sequencer.SeqRetry? {
    }
  }

  lemma AggregatorMatches(c: Config, s: State, room: bool)
    requires FlagsMatch(s)
    ensures FlagsMatch(StepAggregator(c, s, room))
  {
    hide Absorb, Zeros, CommitBlock;
    if s.aggregator.AggHead? {
    } else if s.aggregator.AggPoll? {
    } else if s.aggregator.AggEmpty? {
    } else if s.aggregator.AggSending? {
    } else if s.aggregator.AggRetry? {
    }
  }

  lemma StepMatches(c: Config, s: State, m: Move)
    requires 0 < c.lanes && FlagsMatch(s)
    ensures FlagsMatch(Step(c, s, m))
  {
    hide StepIngress, StepSequencer, StepAggregator, StepReplayer;
    match m
    case Cancel =>
    case MoveIngress(room) =>
      hide FlagsMatch;
      IngressMatches(c, s, room);
    case MoveSequencer(room) =>
      hide FlagsMatch;
      SequencerMatches(c, s, room);
    case MoveAggregator(room) =>
      hide FlagsMatch;
      AggregatorMatches(c, s, room);
    case MoveReplayer =>
  }

  lemma {:induction false} FlagsAlwaysMatch(c: Config, moves: seq<Move>)
    requires 0 < c.lanes
    ensures FlagsMatch(Exec(c, moves))
    decreases |moves|
  {
    if moves != [] {
      hide Step, FlagsMatch;
      FlagsAlwaysMatch(c, moves[..|moves| - 1]);
      StepMatches(c, Exec(c, moves[..|moves| - 1]), moves[|moves| - 1]);
    } else {
      RunStarts(c, moves);
    }
  }

  /** After a cancellation, in any run, a stage that makes as many moves as there are lanes, and three more,
      has stopped, and stays stopped; the flag of the stage is then raised for the next one. */
  lemma CancellationStops(c: Config, moves: seq<Move>, more: seq<Move>, x: Stage)
    requires 0 < c.lanes && Cancel in moves && Own(more, x) >= c.lanes + 3
    ensures var s := Exec(c, moves + more);
            && s.cancelled && Stopped(s, x)
            && (x.TheIngress? ==> s.ingressDone) && (x.TheSequencer? ==> s.sequencerDone)
            && (x.TheAggregator? ==> s.aggregatorDone)
  {
    hide Exec, Left, Own;
    CancelledExactlyWhen(c, moves);
    LeftAfter(c, moves, more, x);
    LeftBound(c, Exec(c, moves), x);
    LeftBound(c, Exec(c, moves + more), x);
    FlagsAlwaysMatch(c, moves + more);
  }
}
