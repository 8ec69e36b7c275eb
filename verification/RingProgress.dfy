/** What a failed call proves about the past, why a call retries, and that the ring as a whole
    always makes progress. */
module RingProgress {
  import opened RingFifo
  import opened RingProtocol
  import opened RingSafety
  import opened Words

  /** The ring after the first `n` steps of a schedule. */
  function At<T>(r0: Ring<T>, sched: Schedule<T>, n: nat): Ring<T>
    requires Shaped(r0) && n <= |sched|
    ensures Shaped(At(r0, sched, n))
  {
    Exec(r0, sched[..n])
  }

  lemma AtStep<T>(r0: Ring<T>, sched: Schedule<T>, n: nat)
    requires Shaped(r0) && n < |sched|
    ensures At(r0, sched, n + 1) == Next(At(r0, sched, n), sched[n].0, sched[n].1)
    ensures Record(r0, sched[..n + 1]) == Observe(Record(r0, sched[..n]), At(r0, sched, n), sched[n].0)
  {
    assert sched[..n + 1][..n] == sched[..n];
  }

  /** Thread `t`'s call is at one of these places. */
  predicate Trying<T>(l: Local<T>) { l.EnqHasPos? || l.EnqHasSeq? || l.DeqHasPos? || l.DeqHasSeq? }

  predicate Loaded<T>(l: Local<T>) { l.EnqHasSeq? || l.DeqHasSeq? }

  /** The instant at which the sequence a thread still compares was loaded. */
  ghost predicate LoadedAt<T>(r0: Ring<T>, sched: Schedule<T>, i: nat, t: nat, l: Local<T>)
    requires Shaped(r0) && i < |sched|
  {
    var r := At(r0, sched, i);
    && sched[i].0 == t && t in r.threads && Loaded(l)
    && (if l.EnqHasSeq? then r.threads[t] == EnqHasPos(l.v, l.pos) else r.threads[t] == DeqHasPos(l.pos))
    && l.seqn == CellAt(r, l.pos).sequence
  }

  /** Where a thread that is still trying stood one step earlier. */
  lemma StepBack<T>(r: Ring<T>, u: nat, call: Call<T>, t: nat)
    requires Shaped(r) && t in r.threads && Trying(Next(r, u, call).threads[t])
    ensures var l, l' := r.threads[t], Next(r, u, call).threads[t];
            if u != t then l == l'
            else if l'.EnqHasPos? then l == EnqStart(l'.v) && r.enqueuePos == l'.pos
            else if l'.DeqHasPos? then l == DeqStart && r.dequeuePos == l'.pos
            else if l'.EnqHasSeq? then l == EnqHasPos(l'.v, l'.pos) && l'.seqn == CellAt(r, l.pos).sequence
            else l == DeqHasPos(l'.pos) && l'.seqn == CellAt(r, l.pos).sequence
  {
  }

  lemma {:induction false} LoadInstant<T>(r0: Ring<T>, sched: Schedule<T>, n: nat, t: nat) returns (i: nat)
    requires Shaped(r0) && (forall u :: u in r0.threads ==> r0.threads[u].Idle?)
    requires n <= |sched| && t in At(r0, sched, n).threads && Loaded(At(r0, sched, n).threads[t])
    ensures i < n && LoadedAt(r0, sched, i, t, At(r0, sched, n).threads[t])
  {
    if n == 0 {
      assert false;
    }
    AtStep(r0, sched, n - 1);
    SameThreads(r0, sched[..n - 1]);
    SameThreads(r0, sched[..n]);
    StepBack(At(r0, sched, n - 1), sched[n - 1].0, sched[n - 1].1, t);
    if sched[n - 1].0 == t {
      i := n - 1;
    } else {
      i := LoadInstant(r0, sched, n - 1, t);
    }
  }

  lemma EnqueueTest<T>(r: Ring<T>, t: nat, call: Call<T>)
    requires Shaped(r) && r.width.Unbounded? && t in r.threads && r.threads[t].EnqHasSeq?
    ensures Next(r, t, call).threads[t] == EnqReturned(false) <==> r.threads[t].seqn < r.threads[t].pos
  {
  }

  lemma DequeueTest<T>(r: Ring<T>, t: nat, call: Call<T>)
    requires Shaped(r) && r.width.Unbounded? && t in r.threads && r.threads[t].DeqHasSeq?
    ensures Next(r, t, call).threads[t] == DeqReturned(r.zero, false) <==> r.threads[t].seqn < r.threads[t].pos + 1
    ensures !Next(r, t, call).threads[t].DeqReturned? || Next(r, t, call).threads[t] == DeqReturned(r.zero, false)
  {
  }

  /** An attempt of `Enqueue` returns false if and only if, at the instant at which it loaded its
      cell's sequence, its ticket was next and the queue was jammed: full, or with the cell's last
      dequeuer still at work. */
  lemma EnqueueFailure<T>(k: nat, zero: T, threads: set<nat>, sched: Schedule<T>, n: nat) returns (i: nat)
    requires k >= 1 && n < |sched|
    requires var r, t := At(NewRing(Unbounded, k, zero, threads), sched, n), sched[n].0;
             t in r.threads && r.threads[t].EnqHasSeq?
    ensures var r0 := NewRing(Unbounded, k, zero, threads);
            var r, t := At(r0, sched, n), sched[n].0;
            && i < n && LoadedAt(r0, sched, i, t, r.threads[t])
            && var r', h' := At(r0, sched, i), Record(r0, sched[..i]);
            && r'.dequeuePos <= |h'.tickets|
            && (Next(r, t, sched[n].1).threads[t] == EnqReturned(false) <==>
                  r'.enqueuePos == r.threads[t].pos && Jammed(r', h'))
  {
    hide Inv, Next, Record, Exec, Jammed;
    var r0 := NewRing(Unbounded, k, zero, threads);
    var t := sched[n].0;
    i := LoadInstant(r0, sched, n, t);
    SameThreads(r0, sched[..n]);
    SameThreads(r0, sched[..i]);
    EnqueueTest(At(r0, sched, n), t, sched[n].1);
    AlwaysInv(k, zero, threads, sched[..i]);
    FailingEnqueueLoad(At(r0, sched, i), Record(r0, sched[..i]), t);
  }

  lemma FailingEnqueueLoad<T>(r: Ring<T>, h: History<T>, t: nat)
    requires Inv(r, h) && t in r.threads && r.threads[t].EnqHasPos?
    ensures r.dequeuePos <= |h.tickets|
    ensures CellAt(r, r.threads[t].pos).sequence < r.threads[t].pos
            <==> r.enqueuePos == r.threads[t].pos && Jammed(r, h)
  {
    assert LocalOk(r, h, r.threads[t]);
    CellOfTicket(r, h, r.threads[t].pos);
    FailureIsExact(r, h);
  }

  /** An attempt of `Dequeue` returns false if and only if, at the instant at which it loaded its
      cell's sequence, its ticket was next and the queue was starved: empty, or with the ticket's
      enqueuer yet to publish. */
  lemma DequeueFailure<T>(k: nat, zero: T, threads: set<nat>, sched: Schedule<T>, n: nat) returns (i: nat)
    requires k >= 1 && n < |sched|
    requires var r, t := At(NewRing(Unbounded, k, zero, threads), sched, n), sched[n].0;
             t in r.threads && r.threads[t].DeqHasSeq?
    ensures var r0 := NewRing(Unbounded, k, zero, threads);
            var r, t := At(r0, sched, n), sched[n].0;
            && i < n && LoadedAt(r0, sched, i, t, r.threads[t])
            && var r', h' := At(r0, sched, i), Record(r0, sched[..i]);
            && r'.dequeuePos <= |h'.tickets|
            && (Next(r, t, sched[n].1).threads[t] == DeqReturned(r.zero, false) <==>
                  r'.dequeuePos == r.threads[t].pos && Starved(r', h'))
  {
    hide Inv, Next, Record, Exec, Starved;
    var r0 := NewRing(Unbounded, k, zero, threads);
    var t := sched[n].0;
    i := LoadInstant(r0, sched, n, t);
    SameThreads(r0, sched[..n]);
    SameThreads(r0, sched[..i]);
    DequeueTest(At(r0, sched, n), t, sched[n].1);
    AlwaysInv(k, zero, threads, sched[..i]);
    FailingDequeueLoad(At(r0, sched, i), Record(r0, sched[..i]), t);
  }

  lemma FailingDequeueLoad<T>(r: Ring<T>, h: History<T>, t: nat)
    requires Inv(r, h) && t in r.threads && r.threads[t].DeqHasPos?
    ensures r.dequeuePos <= |h.tickets|
    ensures CellAt(r, r.threads[t].pos).sequence < r.threads[t].pos + 1 <==>
            r.dequeuePos == r.threads[t].pos && Starved(r, h)
  {
    assert LocalOk(r, h, r.threads[t]);
    CellOfTicket(r, h, r.threads[t].pos);
    FailureIsExact(r, h);
  }

  /** The position a thread tries for is the counter it loaded at one earlier instant of the same
      call, and it has been trying ever since. */
  lemma {:induction false} TicketInstant<T>(r0: Ring<T>, sched: Schedule<T>, n: nat, t: nat) returns (i: nat)
    requires Shaped(r0) && (forall u :: u in r0.threads ==> r0.threads[u].Idle?)
    requires n <= |sched| && t in At(r0, sched, n).threads && Trying(At(r0, sched, n).threads[t])
    ensures i < n && sched[i].0 == t
    ensures var l := At(r0, sched, n).threads[t];
            var r := At(r0, sched, i);
            && t in r.threads
            && (if l.EnqHasPos? || l.EnqHasSeq? then r.threads[t] == EnqStart(l.v) && r.enqueuePos == l.pos
                else r.threads[t].DeqStart? && r.dequeuePos == l.pos)
    ensures forall j :: i < j <= n ==> t in At(r0, sched, j).threads && Trying(At(r0, sched, j).threads[t])
  {
    if n == 0 {
      assert false;
    }
    AtStep(r0, sched, n - 1);
    SameThreads(r0, sched[..n - 1]);
    SameThreads(r0, sched[..n]);
    StepBack(At(r0, sched, n - 1), sched[n - 1].0, sched[n - 1].1, t);
    if sched[n - 1].0 == t && !Trying(At(r0, sched, n - 1).threads[t]) {
      i := n - 1;
    } else {
      i := TicketInstant(r0, sched, n - 1, t);
    }
  }

  lemma CountersStep<T>(r: Ring<T>, t: nat, call: Call<T>)
    requires Shaped(r) && r.width.Unbounded?
    ensures Next(r, t, call).enqueuePos == r.enqueuePos || Next(r, t, call).enqueuePos == r.enqueuePos + 1
    ensures Next(r, t, call).dequeuePos == r.dequeuePos || Next(r, t, call).dequeuePos == r.dequeuePos + 1
  {
  }

  /** A thread that wins a ticket is no longer trying for one. */
  lemma StillTrying<T>(r: Ring<T>, t: nat, call: Call<T>)
    requires Shaped(r) && r.width.Unbounded? && t in r.threads && Trying(Next(r, t, call).threads[t])
    ensures Next(r, t, call).enqueuePos == r.enqueuePos && Next(r, t, call).dequeuePos == r.dequeuePos
  {
  }

  lemma {:induction false} CounterRose<T>(r0: Ring<T>, sched: Schedule<T>, i: nat, n: nat, enqueue: bool)
    returns (m: nat)
    requires Shaped(r0) && r0.width.Unbounded? && i <= n <= |sched|
    requires if enqueue then At(r0, sched, i).enqueuePos < At(r0, sched, n).enqueuePos
             else At(r0, sched, i).dequeuePos < At(r0, sched, n).dequeuePos
    ensures i <= m < n
    ensures if enqueue then At(r0, sched, m + 1).enqueuePos == At(r0, sched, m).enqueuePos + 1
            else At(r0, sched, m + 1).dequeuePos == At(r0, sched, m).dequeuePos + 1
    decreases n
  {
    if i == n {
      assert false;
    }
    hide Next, Exec;
    AtStep(r0, sched, n - 1);
    SameThreads(r0, sched[..n - 1]);
    var r, r' := At(r0, sched, n - 1), At(r0, sched, n);
    CountersStep(r, sched[n - 1].0, sched[n - 1].1);
    if (if enqueue then r'.enqueuePos == r.enqueuePos else r'.dequeuePos == r.dequeuePos) {
      m := CounterRose(r0, sched, i, n - 1, enqueue);
    } else {
      m := n - 1;
    }
  }

  /** A thread only retries when its counter has moved on. */
  lemma RetryIsLate<T>(r: Ring<T>, h: History<T>, t: nat, call: Call<T>)
    requires Inv(r, h) && t in r.threads && Loaded(r.threads[t])
    requires Next(r, t, call).threads[t].EnqStart? || Next(r, t, call).threads[t].DeqStart?
    ensures if r.threads[t].EnqHasSeq? then r.threads[t].pos < r.enqueuePos else r.threads[t].pos < r.dequeuePos
  {
    assert LocalOk(r, h, r.threads[t]);
  }

  /** A retry, whether after a lost compare-and-swap or a sequence from a later lap, is always
      caused by another thread winning the same counter since this thread loaded it. */
  lemma RetryHasRival<T>(k: nat, zero: T, threads: set<nat>, sched: Schedule<T>, n: nat) returns (i: nat, m: nat)
    requires k >= 1 && n < |sched|
    requires var r := At(NewRing(Unbounded, k, zero, threads), sched, n);
             var t := sched[n].0;
             && t in r.threads && Loaded(r.threads[t])
             && (Next(r, t, sched[n].1).threads[t].EnqStart? || Next(r, t, sched[n].1).threads[t].DeqStart?)
    ensures var r0 := NewRing(Unbounded, k, zero, threads);
            var t := sched[n].0;
            var l := At(r0, sched, n).threads[t];
            && i <= m < n && sched[i].0 == t && sched[m].0 != t
            && (if l.EnqHasSeq? then
                  && At(r0, sched, i).enqueuePos == l.pos
                  && At(r0, sched, m + 1).enqueuePos == At(r0, sched, m).enqueuePos + 1
                else
                  && At(r0, sched, i).dequeuePos == l.pos
                  && At(r0, sched, m + 1).dequeuePos == At(r0, sched, m).dequeuePos + 1)
  {
    var r0 := NewRing(Unbounded, k, zero, threads);
    var t := sched[n].0;
    var r := At(r0, sched, n);
    AlwaysInv(k, zero, threads, sched[..n]);
    hide Inv, Next, Record, Exec;
    i := TicketInstant(r0, sched, n, t);
    RetryIsLate(r, Record(r0, sched[..n]), t, sched[n].1);
    m := CounterRose(r0, sched, i, n, r.threads[t].EnqHasSeq?);
    AtStep(r0, sched, m);
    SameThreads(r0, sched[..m]);
    if sched[m].0 == t {
      StillTrying(At(r0, sched, m), t, sched[m].1);
      assert false;
    }
  }

  /** An upper bound on what a thread among `n` can still do before some call completes. A thread
      whose ticket has been overtaken owes a retry. */
  function Weight<T>(r: Ring<T>, l: Local<T>, n: nat): nat {
    var m := 4 * n + 6;
    match l
    case EnqStart(_) => m + 3
    case EnqHasPos(_, pos) => if pos == r.enqueuePos then m + 2 else m + 6
    case EnqHasSeq(_, pos, _) => if pos == r.enqueuePos then m + 1 else m + 5
    case EnqWon(_, _) => 3
    case EnqWrote(_, _) => 2
    case EnqCounting(_, _) => 1
    case DeqStart => m + 3
    case DeqHasPos(pos) => if pos == r.dequeuePos then m + 2 else m + 6
    case DeqHasSeq(pos, _) => if pos == r.dequeuePos then m + 1 else m + 5
    case DeqWon(_) => 4
    case DeqRead(_, _) => 3
    case DeqCleared(_, _) => 2
    case DeqCounting(_, _) => 1
    case _ => m + 4
  }

  function WeightOf<T>(r: Ring<T>, t: nat, n: nat): nat {
    if t in r.threads then Weight(r, r.threads[t], n) else 0
  }

  function Total<T>(r: Ring<T>, upTo: nat, n: nat): nat {
    if upTo == 0 then 0 else Total(r, upTo - 1, n) + WeightOf(r, upTo - 1, n)
  }

  predicate Completes<T>(r: Ring<T>, t: nat, call: Call<T>)
    requires Shaped(r)
  {
    var r' := Next(r, t, call);
    t in r'.threads && (r'.threads[t].EnqReturned? || r'.threads[t].DeqReturned?)
  }

  lemma {:induction false} TotalBound<T>(r: Ring<T>, upTo: nat, n: nat)
    ensures Total(r, upTo, n) <= upTo * (4 * n + 12)
  {
    if upTo > 0 {
      TotalBound(r, upTo - 1, n);
      assert upTo * (4 * n + 12) == (upTo - 1) * (4 * n + 12) + (4 * n + 12);
    }
  }

  /** If every other thread gains at most `gain` and thread `t` loses at least `loss`, so does the total. */
  lemma {:induction false} TotalAfter<T>(r: Ring<T>, r': Ring<T>, t: nat, upTo: nat, n: nat, gain: nat, loss: nat)
    requires forall u: nat :: u != t ==> WeightOf(r', u, n) <= WeightOf(r, u, n) + gain
    requires WeightOf(r', t, n) + loss <= WeightOf(r, t, n)
    ensures Total(r', upTo, n) + (if t < upTo then loss else 0) <= Total(r, upTo, n) + gain * upTo
  {
    if upTo > 0 {
      TotalAfter(r, r', t, upTo - 1, n, gain, loss);
      assert gain * upTo == gain * (upTo - 1) + gain;
    }
  }

  predicate Wins<T>(r: Ring<T>, l: Local<T>) {
    (l.EnqHasSeq? && EnqWins(r, l.pos, l.seqn)) || (l.DeqHasSeq? && DeqWins(r, l.pos, l.seqn))
  }

  lemma OwnWeightDrops<T>(r: Ring<T>, h: History<T>, t: nat, call: Call<T>, n: nat)
    requires Counters(r, h) && t in r.threads && LocalOk(r, h, r.threads[t]) && !Completes(r, t, call)
    ensures WeightOf(Next(r, t, call), t, n) + (if Wins(r, r.threads[t]) then 4 * n + 3 else 1) <= WeightOf(r, t, n)
  {
  }

  lemma OtherWeightsAfter<T>(r: Ring<T>, t: nat, call: Call<T>, u: nat, n: nat)
    requires Shaped(r) && t in r.threads && u != t
    ensures WeightOf(Next(r, t, call), u, n) <= WeightOf(r, u, n) + (if Wins(r, r.threads[t]) then 4 else 0)
  {
    var r' := Next(r, t, call);
    if !Wins(r, r.threads[t]) {
      assert r'.enqueuePos == r.enqueuePos && r'.dequeuePos == r.dequeuePos;
    }
    if u in r.threads {
      assert r'.threads[u] == r.threads[u];
    }
  }

  /** Every step that completes no call lowers the total. */
  lemma StepLowersTotal<T>(r: Ring<T>, h: History<T>, t: nat, call: Call<T>, n: nat)
    requires Inv(r, h) && t in r.threads && t < n && !Completes(r, t, call)
    ensures Total(Next(r, t, call), n, n) < Total(r, n, n)
  {
    var r' := Next(r, t, call);
    assert LocalOk(r, h, r.threads[t]);
    OwnWeightDrops(r, h, t, call, n);
    var wins := Wins(r, r.threads[t]);
    var gain, loss := if wins then 4 else 0, if wins then 4 * n + 3 else 1;
    forall u: nat | u != t ensures WeightOf(r', u, n) <= WeightOf(r, u, n) + gain {
      OtherWeightsAfter(r, t, call, u, n);
    }
    TotalAfter(r, r', t, n, n, gain, loss);
  }

  function Below(n: nat): (s: set<nat>)
    ensures forall t: nat :: t in s <==> t < n
  {
    if n == 0 then {} else Below(n - 1) + {n - 1}
  }

  /** Lock freedom: among any `n` threads, however they are scheduled and from any reachable
      state, some call completes within `n * (4n + 12) + 1` steps. */
  lemma SomeCallCompletes<T>(k: nat, zero: T, n: nat, sched: Schedule<T>, from: nat) returns (m: nat)
    requires k >= 1 && from + n * (4 * n + 12) < |sched|
    requires forall j :: 0 <= j < |sched| ==> sched[j].0 < n
    ensures from <= m <= from + n * (4 * n + 12)
    ensures Completes(At(NewRing(Unbounded, k, zero, Below(n)), sched, m), sched[m].0, sched[m].1)
  {
    var r0 := NewRing(Unbounded, k, zero, Below(n));
    m := from;
    TotalBound(At(r0, sched, from), n, n);
    while !Completes(At(r0, sched, m), sched[m].0, sched[m].1)
      invariant from <= m <= from + n * (4 * n + 12)
      invariant Total(At(r0, sched, m), n, n) + (m - from) <= n * (4 * n + 12)
      decreases |sched| - m
    {
      AlwaysInv(k, zero, Below(n), sched[..m]);
      SameThreads(r0, sched[..m]);
      StepLowersTotal(At(r0, sched, m), Record(r0, sched[..m]), sched[m].0, sched[m].1, n);
      AtStep(r0, sched, m);
      m := m + 1;
    }
  }

  /** Thread `t` alone for `n` steps. */
  function Alone<T>(r: Ring<T>, t: nat, call: Call<T>, n: nat): (r': Ring<T>)
    requires Shaped(r) && t in r.threads
    ensures Shaped(r') && t in r'.threads
    decreases n
  {
    if n == 0 then r else Alone(Next(r, t, call), t, call, n - 1)
  }

  /** From any reachable state a thread at the head of its loop that runs alone returns without
      a second iteration. */
  lemma AloneEnqueueReturns<T>(r: Ring<T>, h: History<T>, t: nat, call: Call<T>)
    requires Inv(r, h) && t in r.threads && r.threads[t].EnqStart?
    ensures var wins := CellAt(r, r.enqueuePos).sequence == r.enqueuePos;
            Alone(r, t, call, if wins then 6 else 3).threads[t] == EnqReturned(wins)
  {
    CellOfTicket(r, h, r.enqueuePos);
    AloneEnqueueRun(r, t, call);
  }

  lemma AloneEnqueueRun<T>(r: Ring<T>, t: nat, call: Call<T>)
    requires Shaped(r) && r.width.Unbounded? && t in r.threads && r.threads[t].EnqStart?
    requires CellAt(r, r.enqueuePos).sequence <= r.enqueuePos
    ensures var wins := CellAt(r, r.enqueuePos).sequence == r.enqueuePos;
            Alone(r, t, call, if wins then 6 else 3).threads[t] == EnqReturned(wins)
  {
    var wins := CellAt(r, r.enqueuePos).sequence == r.enqueuePos;
    var n := if wins then 6 else 3;
    var r1 := Next(r, t, call);
    var r2 := Next(r1, t, call);
    var r3 := Next(r2, t, call);
    assert Alone(r, t, call, n) == Alone(r3, t, call, n - 3) by {
      assert Alone(r, t, call, n) == Alone(r1, t, call, n - 1) == Alone(r2, t, call, n - 2);
    }
    if wins {
      var r4 := Next(r3, t, call);
      var r5 := Next(r4, t, call);
      assert Alone(r3, t, call, 3) == Alone(r4, t, call, 2) == Alone(r5, t, call, 1);
    }
  }

  lemma AloneAfterWinning<T>(r: Ring<T>, t: nat, call: Call<T>)
    requires Shaped(r) && t in r.threads && r.threads[t].DeqWon?
    ensures Alone(r, t, call, 4).threads[t] == DeqReturned(CellAt(r, r.threads[t].pos).value, true)
  {
    var r1 := Next(r, t, call);
    var r2 := Next(r1, t, call);
    var r3 := Next(r2, t, call);
    assert Alone(r, t, call, 4) == Alone(r1, t, call, 3) == Alone(r2, t, call, 2) == Alone(r3, t, call, 1);
  }

  lemma AloneDequeueReturns<T>(r: Ring<T>, h: History<T>, t: nat, call: Call<T>)
    requires Inv(r, h) && t in r.threads && r.threads[t].DeqStart?
    ensures var wins := CellAt(r, r.dequeuePos).sequence == r.dequeuePos + 1;
            && (wins ==> r.dequeuePos < r.enqueuePos)
            && Alone(r, t, call, if wins then 7 else 3).threads[t] ==
               if wins then DeqReturned(h.tickets[r.dequeuePos], true) else DeqReturned(r.zero, false)
  {
    var pos := r.dequeuePos;
    CellOfTicket(r, h, pos);
    assert CellOk(r, h, Index(r.capacity, pos));
    if CellAt(r, pos).sequence == pos + 1 { CellIsFull(r, h, pos); }
    AloneDequeueRun(r, t, call);
  }

  lemma AloneDequeueRun<T>(r: Ring<T>, t: nat, call: Call<T>)
    requires Shaped(r) && r.width.Unbounded? && t in r.threads && r.threads[t].DeqStart?
    requires CellAt(r, r.dequeuePos).sequence <= r.dequeuePos + 1
    ensures var c := CellAt(r, r.dequeuePos);
            var wins := c.sequence == r.dequeuePos + 1;
            Alone(r, t, call, if wins then 7 else 3).threads[t] ==
            if wins then DeqReturned(c.value, true) else DeqReturned(r.zero, false)
  {
    var wins := CellAt(r, r.dequeuePos).sequence == r.dequeuePos + 1;
    var n := if wins then 7 else 3;
    var r1 := Next(r, t, call);
    var r2 := Next(r1, t, call);
    var r3 := Next(r2, t, call);
    assert Alone(r, t, call, n) == Alone(r3, t, call, n - 3) by {
      assert Alone(r, t, call, n) == Alone(r1, t, call, n - 1) == Alone(r2, t, call, n - 2);
    }
    if wins { AloneAfterWinning(r3, t, call); }
  }
}
