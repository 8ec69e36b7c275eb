/** The ring with one enqueuing thread, as the pipeline uses it: what is published is a queue of its
    own, and a dequeue fails exactly when that queue is empty. */
module RingSingle {
  import opened RingFifo
  import opened RingProgress
  import opened RingProtocol
  import opened RingSafety
  import opened Words
  import opened Wrappers

  predicate DequeueStep?<T>(l: Local<T>) {
    l.DeqStart? || l.DeqHasPos? || l.DeqHasSeq? || l.DeqWon? || l.DeqRead? || l.DeqCleared? || l.DeqCounting?
  }

  /** Only thread `p` calls `Enqueue`, and only thread `q` calls `Dequeue`. */
  predicate EnqueuesOnly<T>(sched: Schedule<T>, p: nat) {
    forall n :: 0 <= n < |sched| && sched[n].1.CallEnqueue? ==> sched[n].0 == p
  }

  predicate DequeuesOnly<T>(sched: Schedule<T>, q: nat) {
    forall n :: 0 <= n < |sched| && sched[n].1.CallDequeue? ==> sched[n].0 == q
  }

  /** Then the only enqueuer holds no ticket but the last, and the only dequeuer tries for no ticket but
      the next. */
  predicate EnqueuerOk<T>(r: Ring<T>, p: nat, t: nat)
    requires t in r.threads
  {
    EnqueueStep?(r.threads[t]) ==> t == p && (EnqTicket(r.threads[t]).Some? ==> r.threads[t].pos + 1 == r.enqueuePos)
  }

  predicate DequeuerOk<T>(r: Ring<T>, q: nat, t: nat)
    requires t in r.threads
  {
    var l := r.threads[t];
    DequeueStep?(l) ==> t == q && (l.DeqHasPos? || l.DeqHasSeq? ==> l.pos == r.dequeuePos)
  }

  predicate OneEnqueuer<T>(r: Ring<T>, p: nat) {
    forall t :: t in r.threads ==> EnqueuerOk(r, p, t)
  }

  predicate OneDequeuer<T>(r: Ring<T>, q: nat) {
    forall t :: t in r.threads ==> DequeuerOk(r, q, t)
  }

  lemma EnqueuerStep<T>(r: Ring<T>, p: nat, t: nat, call: Call<T>)
    requires Shaped(r) && r.width.Unbounded? && OneEnqueuer(r, p) && (call.CallEnqueue? ==> t == p)
    ensures OneEnqueuer(Next(r, t, call), p)
  {
    var r' := Next(r, t, call);
    if t in r.threads {
      assert EnqueuerOk(r, p, t);
      forall u | u in r'.threads ensures EnqueuerOk(r', p, u) {
        assert EnqueuerOk(r, p, u);
      }
    }
  }

  lemma DequeuerStep<T>(r: Ring<T>, q: nat, t: nat, call: Call<T>)
    requires Shaped(r) && r.width.Unbounded? && OneDequeuer(r, q) && (call.CallDequeue? ==> t == q)
    ensures OneDequeuer(Next(r, t, call), q)
  {
    var r' := Next(r, t, call);
    if t in r.threads {
      assert DequeuerOk(r, q, t);
      forall u | u in r'.threads ensures DequeuerOk(r', q, u) {
        assert DequeuerOk(r, q, u);
      }
    }
  }

  lemma {:induction false} AlwaysOneEnqueuer<T>(k: nat, zero: T, threads: set<nat>, sched: Schedule<T>, p: nat)
    requires EnqueuesOnly(sched, p)
    ensures OneEnqueuer(Exec(NewRing(Unbounded, k, zero, threads), sched), p)
    decreases |sched|
  {
    if sched != [] {
      hide Next, OneEnqueuer;
      var n := |sched| - 1;
      assert forall m :: 0 <= m < n ==> sched[..n][m] == sched[m];
      AlwaysOneEnqueuer(k, zero, threads, sched[..n], p);
      SameThreads(NewRing(Unbounded, k, zero, threads), sched[..n]);
      EnqueuerStep(Exec(NewRing(Unbounded, k, zero, threads), sched[..n]), p, sched[n].0, sched[n].1);
    }
  }

  lemma {:induction false} AlwaysOneDequeuer<T>(k: nat, zero: T, threads: set<nat>, sched: Schedule<T>, q: nat)
    requires DequeuesOnly(sched, q)
    ensures OneDequeuer(Exec(NewRing(Unbounded, k, zero, threads), sched), q)
    decreases |sched|
  {
    if sched != [] {
      hide Next, OneDequeuer;
      var n := |sched| - 1;
      assert forall m :: 0 <= m < n ==> sched[..n][m] == sched[m];
      AlwaysOneDequeuer(k, zero, threads, sched[..n], q);
      SameThreads(NewRing(Unbounded, k, zero, threads), sched[..n]);
      DequeuerStep(Exec(NewRing(Unbounded, k, zero, threads), sched[..n]), q, sched[n].0, sched[n].1);
    }
  }

  /** One while the enqueuer is between winning its ticket and storing the sequence. */
  function Unpublished<T>(r: Ring<T>, p: nat): nat {
    if p in r.threads && EnqTicket(r.threads[p]).Some? then 1 else 0
  }

  /** The published queue: won and published by the enqueuer, and not yet won by a dequeuer. */
  function Published<T>(r: Ring<T>, h: History<T>, p: nat): seq<T>
    requires r.dequeuePos + Unpublished(r, p) <= r.enqueuePos == |h.tickets|
  {
    h.tickets[r.dequeuePos..r.enqueuePos - Unpublished(r, p)]
  }

  lemma PublishedIsDefined<T>(r: Ring<T>, h: History<T>, p: nat)
    requires Inv(r, h) && OneEnqueuer(r, p)
    ensures r.dequeuePos + Unpublished(r, p) <= r.enqueuePos == |h.tickets|
  {
    if Unpublished(r, p) == 1 {
      assert EnqueuerOk(r, p, p) && LocalOk(r, h, r.threads[p]);
      CellOfTicket(r, h, r.threads[p].pos);
    }
  }

  /** In every reachable state with one enqueuer, the test of `Dequeue` fails if and only if the
      published queue is empty. */
  lemma PublishedIsExact<T>(r: Ring<T>, h: History<T>, p: nat)
    requires Inv(r, h) && OneEnqueuer(r, p)
    ensures r.dequeuePos + Unpublished(r, p) <= r.enqueuePos == |h.tickets|
    ensures CellAt(r, r.dequeuePos).sequence < r.dequeuePos + 1 <==> Published(r, h, p) == []
  {
    hide Cells, Locals, Owners, Undelivered, Deliveries;
    PublishedIsDefined(r, h, p);
    StarvedIsExact(r, h);
    if EnqHeld(r, r.dequeuePos) {
      var t :| t in r.threads && EnqTicket(r.threads[t]) == Some(r.dequeuePos);
      assert EnqueuerOk(r, p, t);
    }
    if Unpublished(r, p) == 1 {
      assert EnqueuerOk(r, p, p);
    }
  }

  /** It is a first-in first-out queue too: the store of a cell's sequence appends to it, a winning
      dequeue takes its head, and no other step of any thread changes it. */
  lemma PublishedIsFifo<T>(r: Ring<T>, h: History<T>, p: nat, t: nat, call: Call<T>)
    requires Inv(r, h) && OneEnqueuer(r, p) && t in r.threads && (call.CallEnqueue? ==> t == p)
    ensures var r', h', l := Next(r, t, call), Observe(h, r, t), r.threads[t];
            && r.dequeuePos + Unpublished(r, p) <= r.enqueuePos == |h.tickets|
            && r'.dequeuePos + Unpublished(r', p) <= r'.enqueuePos == |h'.tickets|
            && var q, q' := Published(r, h, p), Published(r', h', p);
               if l.EnqWrote? then q' == q + [l.v]
               else if l.DeqHasSeq? && DeqWins(r, l.pos, l.seqn) then
                 q != [] && q' == q[1..] && h.tickets[l.pos] == q[0]
               else q' == q
  {
    hide Inv, Next, OneEnqueuer;
    StepKeeps(r, h, t, call);
    InvIsShaped(r, h);
    EnqueuerStep(r, p, t, call);
    PublishedIsDefined(r, h, p);
    PublishedIsDefined(Next(r, t, call), Observe(h, r, t), p);
    PublishedMoves(r, h, p, t, call);
  }

  lemma InvIsShaped<T>(r: Ring<T>, h: History<T>)
    requires Inv(r, h)
    ensures Shaped(r) && r.width.Unbounded? && r.dequeuePos <= r.enqueuePos == |h.tickets|
  {
  }

  /** What a step does to the counters, the tickets and the enqueuer's hand. */
  lemma StepMoves<T>(r: Ring<T>, h: History<T>, p: nat, t: nat, call: Call<T>)
    requires Shaped(r) && r.width.Unbounded? && OneEnqueuer(r, p) && t in r.threads
    ensures var r', h', l := Next(r, t, call), Observe(h, r, t), r.threads[t];
            if l.EnqHasSeq? && EnqWins(r, l.pos, l.seqn) then
              && r'.enqueuePos == r.enqueuePos + 1 && r'.dequeuePos == r.dequeuePos && h'.tickets == h.tickets + [l.v]
              && Unpublished(r, p) == 0 && Unpublished(r', p) == 1
            else
              && r'.enqueuePos == r.enqueuePos && h'.tickets == h.tickets
              && r'.dequeuePos == r.dequeuePos + (if l.DeqHasSeq? && DeqWins(r, l.pos, l.seqn) then 1 else 0)
              && Unpublished(r', p) == Unpublished(r, p) - (if l.EnqWrote? then 1 else 0)
  {
    hide Index;
    var l := r.threads[t];
    assert EnqueuerOk(r, p, t);
    if l.Idle? || l.EnqReturned? || l.DeqReturned? {
    } else if EnqueueStep?(l) {
      assert Next(r, t, call) == NextEnqueue(r, t) && t == p;
    } else {
      assert Next(r, t, call) == NextDequeue(r, t);
    }
  }

  lemma PublishedMoves<T>(r: Ring<T>, h: History<T>, p: nat, t: nat, call: Call<T>)
    requires Inv(r, h) && OneEnqueuer(r, p) && t in r.threads
    requires r.dequeuePos + Unpublished(r, p) <= r.enqueuePos == |h.tickets|
    requires var r', h' := Next(r, t, call), Observe(h, r, t);
             r'.dequeuePos + Unpublished(r', p) <= r'.enqueuePos == |h'.tickets|
    ensures var r', h', l := Next(r, t, call), Observe(h, r, t), r.threads[t];
            var q, q' := Published(r, h, p), Published(r', h', p);
            if l.EnqWrote? then q' == q + [l.v]
            else if l.DeqHasSeq? && DeqWins(r, l.pos, l.seqn) then
              q != [] && q' == q[1..] && h.tickets[l.pos] == q[0]
            else q' == q
  {
    var l := r.threads[t];
    var d, e := r.dequeuePos, r.enqueuePos - Unpublished(r, p);
    StepMoves(r, h, p, t, call);
    if l.EnqWrote? {
      assert LocalOk(r, h, l) && EnqueuerOk(r, p, t) && Unpublished(r, p) == 1;
      hide Inv, Next, Observe, OneEnqueuer, EnqTicket, Unpublished;
      SliceEnds(h.tickets, d, e + 1);
    } else if l.DeqHasSeq? && DeqWins(r, l.pos, l.seqn) {
      HeadIsPublished(r, h, p, t);
      hide Inv, Next, Observe, OneEnqueuer, EnqTicket, Unpublished;
      SliceEnds(h.tickets, d, e);
    } else if l.EnqHasSeq? && EnqWins(r, l.pos, l.seqn) {
      hide Inv, Next, Observe, OneEnqueuer, EnqTicket, Unpublished;
      assert (h.tickets + [l.v])[d..e] == h.tickets[d..e];
    } else {
      hide Inv, Next, Observe, OneEnqueuer, EnqTicket, Unpublished;
    }
  }

  lemma SliceEnds<X>(a: seq<X>, d: nat, e: nat)
    requires d < e <= |a|
    ensures a[d..e] == a[d..e - 1] + [a[e - 1]] && a[d..e][0] == a[d] && a[d..e][1..] == a[d + 1..e]
  {
  }

  lemma HeadIsPublished<T>(r: Ring<T>, h: History<T>, p: nat, t: nat)
    requires Inv(r, h) && OneEnqueuer(r, p) && t in r.threads && r.threads[t].DeqHasSeq?
    requires r.dequeuePos + Unpublished(r, p) <= r.enqueuePos == |h.tickets|
    ensures DeqWins(r, r.threads[t].pos, r.threads[t].seqn) ==> Published(r, h, p) != []
  {
    hide Cells, Owners, Undelivered, Deliveries;
    assert LocalOk(r, h, r.threads[t]);
    PublishedIsExact(r, h, p);
  }

  /** A poll of a ring with one enqueuer and one dequeuer returns false if and only if the published
      queue was empty at the instant at which it loaded its cell's sequence; otherwise it wins the head,
      without a retry. */
  lemma PollFailsExactlyOnEmpty<T>(k: nat, zero: T, threads: set<nat>, sched: Schedule<T>, n: nat, p: nat, q: nat)
    returns (i: nat)
    requires k >= 1 && n < |sched| && EnqueuesOnly(sched, p) && DequeuesOnly(sched, q)
    requires var r, t := At(NewRing(Unbounded, k, zero, threads), sched, n), sched[n].0;
             t in r.threads && r.threads[t].DeqHasSeq?
    ensures var r0 := NewRing(Unbounded, k, zero, threads);
            var r, t := At(r0, sched, n), sched[n].0;
            && i < n && LoadedAt(r0, sched, i, t, r.threads[t])
            && var r', h', l := At(r0, sched, i), Record(r0, sched[..i]), Next(r, t, sched[n].1).threads[t];
            && r'.dequeuePos + Unpublished(r', p) <= r'.enqueuePos == |h'.tickets|
            && (l == DeqReturned(r.zero, false) <==> Published(r', h', p) == [])
            && (l == DeqWon(r'.dequeuePos) <==> Published(r', h', p) != [])
  {
    hide Inv, Next, Record, Exec, OneEnqueuer, EnqueuesOnly, DequeuesOnly;
    var r0 := NewRing(Unbounded, k, zero, threads);
    var t := sched[n].0;
    i := LoadInstant(r0, sched, n, t);
    SameThreads(r0, sched[..n]);
    SameThreads(r0, sched[..i]);
    PrefixesToo(sched, n, p, q);
    PrefixesToo(sched, i, p, q);
    AlwaysInv(k, zero, threads, sched[..i]);
    AlwaysInv(k, zero, threads, sched[..n]);
    AlwaysOneEnqueuer(k, zero, threads, sched[..i], p);
    AlwaysOneDequeuer(k, zero, threads, sched[..i], q);
    AlwaysOneDequeuer(k, zero, threads, sched[..n], q);
    assert DequeuerOk(At(r0, sched, i), q, t) && DequeuerOk(At(r0, sched, n), q, t);
    PublishedIsExact(At(r0, sched, i), Record(r0, sched[..i]), p);
    LoneDequeueTest(At(r0, sched, n), Record(r0, sched[..n]), q, t, sched[n].1);
  }

  lemma PrefixesToo<T>(sched: Schedule<T>, n: nat, p: nat, q: nat)
    requires n <= |sched|
    ensures EnqueuesOnly(sched, p) ==> EnqueuesOnly(sched[..n], p)
    ensures DequeuesOnly(sched, q) ==> DequeuesOnly(sched[..n], q)
  {
    assert forall m :: 0 <= m < n ==> sched[..n][m] == sched[m];
  }

  lemma LoneDequeueTest<T>(r: Ring<T>, h: History<T>, q: nat, t: nat, call: Call<T>)
    requires Inv(r, h) && OneDequeuer(r, q) && t in r.threads && r.threads[t].DeqHasSeq?
    ensures var DeqHasSeq(pos, seqn), l := r.threads[t], Next(r, t, call).threads[t];
            && (l == DeqReturned(r.zero, false) <==> seqn < pos + 1)
            && (l == DeqWon(pos) <==> seqn >= pos + 1)
  {
    assert DequeuerOk(r, q, t) && LocalOk(r, h, r.threads[t]);
  }
}
