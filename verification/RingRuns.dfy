/** Runs of the ring, given by their schedules: what a failed call does not mean, and what happens to
    a thread that sleeps through 2^64 tickets. */
module RingRuns {
  import opened RingFifo
  import opened RingProgress
  import opened RingProtocol
  import opened RingSafety
  import opened RingWrap
  import opened Words

  // Stretches of one thread

  function Times<T>(t: nat, call: Call<T>, n: nat): (s: Schedule<T>)
    ensures |s| == n
  {
    seq(n, _ => (t, call))
  }

  lemma SameThreadsNext<T>(r: Ring<T>, t: nat, call: Call<T>)
    requires Shaped(r)
    ensures Next(r, t, call).threads.Keys == r.threads.Keys
  {
  }

  lemma {:induction false} ExecAlone<T>(r0: Ring<T>, sched: Schedule<T>, t: nat, call: Call<T>, n: nat)
    requires Shaped(r0) && t in Exec(r0, sched).threads
    ensures Exec(r0, sched + Times(t, call, n)) == Alone(Exec(r0, sched), t, call, n)
    decreases n
  {
    hide Next;
    if n == 0 {
      assert sched + Times(t, call, 0) == sched;
    } else {
      var next := sched + [(t, call)];
      assert next[..|sched|] == sched;
      SameThreadsNext(Exec(r0, sched), t, call);
      assert sched + Times(t, call, n) == next + Times(t, call, n - 1);
      ExecAlone(r0, next, t, call, n - 1);
    }
  }

  predicate Between<T>(l: Local<T>) {
    l.Idle? || l.EnqReturned? || l.DeqReturned?
  }

  lemma AloneMore<T>(r: Ring<T>, t: nat, call: Call<T>, m: nat, n: nat)
    requires Shaped(r) && t in r.threads
    ensures Alone(r, t, call, m + n) == Alone(Alone(r, t, call, m), t, call, n)
    decreases m
  {
    if m > 0 { AloneMore(Next(r, t, call), t, call, m - 1, n); }
  }

  lemma AloneOne<T>(r: Ring<T>, t: nat, call: Call<T>)
    requires Shaped(r) && t in r.threads
    ensures Alone(r, t, call, 1) == Next(r, t, call)
  {
    assert Alone(Next(r, t, call), t, call, 0) == Next(r, t, call);
  }

  lemma MovedTwice<T>(threads: map<nat, Local<T>>, t: nat, l: Local<T>, m: Local<T>)
    ensures threads[t := l][t := m] == threads[t := m]
  {
  }

  // The steps up to the comparison

  lemma NextStarts<T>(r: Ring<T>, t: nat, call: Call<T>)
    requires Shaped(r) && t in r.threads && Between(r.threads[t])
    ensures Next(r, t, call) == Goto(r, t, if call.CallEnqueue? then EnqStart(call.v) else DeqStart)
  {
  }

  lemma NextLoadsPos<T>(r: Ring<T>, t: nat, call: Call<T>)
    requires Shaped(r) && t in r.threads
    ensures r.threads[t].EnqStart? ==> Next(r, t, call) == Goto(r, t, EnqHasPos(r.threads[t].v, r.enqueuePos))
    ensures r.threads[t].DeqStart? ==> Next(r, t, call) == Goto(r, t, DeqHasPos(r.dequeuePos))
  {
  }

  lemma NextLoadsSequence<T>(r: Ring<T>, t: nat, call: Call<T>)
    requires Shaped(r) && t in r.threads
    ensures r.threads[t].EnqHasPos? ==>
              Next(r, t, call)
              == Goto(r, t, EnqHasSeq(r.threads[t].v, r.threads[t].pos, CellAt(r, r.threads[t].pos).sequence))
    ensures r.threads[t].DeqHasPos? ==>
              Next(r, t, call) == Goto(r, t, DeqHasSeq(r.threads[t].pos, CellAt(r, r.threads[t].pos).sequence))
  {
  }

  lemma Three<T>(r: Ring<T>, t: nat, call: Call<T>)
    requires Shaped(r) && t in r.threads
    ensures Alone(r, t, call, 3) == Next(Next(Next(r, t, call), t, call), t, call)
  {
    hide Next;
    var r1 := Next(r, t, call);
    var r2 := Next(r1, t, call);
    SameThreadsNext(r, t, call);
    SameThreadsNext(r1, t, call);
    assert Alone(r, t, call, 3) == Alone(r1, t, call, 2) == Alone(r2, t, call, 1);
    AloneOne(r2, t, call);
  }

  lemma EnqueueLoads<T>(r: Ring<T>, t: nat, v: T)
    requires Shaped(r) && t in r.threads && Between(r.threads[t])
    ensures Alone(r, t, CallEnqueue(v), 3)
         == Goto(r, t, EnqHasSeq(v, r.enqueuePos, CellAt(r, r.enqueuePos).sequence))
  {
    hide Next, Alone, Index;
    var e, call := r.enqueuePos, CallEnqueue(v);
    var q := CellAt(r, e).sequence;
    Three(r, t, call);
    NextStarts(r, t, call);
    NextLoadsPos(Goto(r, t, EnqStart(v)), t, call);
    MovedTwice(r.threads, t, EnqStart(v), EnqHasPos(v, e));
    NextLoadsSequence(Goto(r, t, EnqHasPos(v, e)), t, call);
    MovedTwice(r.threads, t, EnqHasPos(v, e), EnqHasSeq(v, e, q));
  }

  lemma DequeueLoads<T>(r: Ring<T>, t: nat)
    requires Shaped(r) && t in r.threads && Between(r.threads[t])
    ensures Alone(r, t, CallDequeue, 3) == Goto(r, t, DeqHasSeq(r.dequeuePos, CellAt(r, r.dequeuePos).sequence))
  {
    hide Next, Alone, Index;
    var d, call := r.dequeuePos, CallDequeue;
    var q := CellAt(r, d).sequence;
    Three(r, t, call);
    NextStarts(r, t, call);
    NextLoadsPos(Goto(r, t, DeqStart), t, call);
    MovedTwice(r.threads, t, DeqStart, DeqHasPos(d));
    NextLoadsSequence(Goto(r, t, DeqHasPos(d)), t, call);
    MovedTwice(r.threads, t, DeqHasPos(d), DeqHasSeq(d, q));
  }

  lemma NextCompares<T>(r: Ring<T>, t: nat, call: Call<T>)
    requires Shaped(r) && r.width.Unbounded? && t in r.threads && r.threads[t].EnqHasSeq?
             && r.threads[t].pos == r.enqueuePos
    ensures var EnqHasSeq(v, pos, seqn) := r.threads[t];
            && (seqn == pos ==> Next(r, t, call) == Goto(r.(enqueuePos := pos + 1), t, EnqWon(v, pos)))
            && (seqn < pos ==> Next(r, t, call) == Goto(r, t, EnqReturned(false)))
  {
  }

  lemma NextComparesToDequeue<T>(r: Ring<T>, t: nat, call: Call<T>)
    requires Shaped(r) && r.width.Unbounded? && t in r.threads && r.threads[t].DeqHasSeq?
             && r.threads[t].pos == r.dequeuePos
    ensures var DeqHasSeq(pos, seqn) := r.threads[t];
            && (seqn == pos + 1 ==> Next(r, t, call) == Goto(r.(dequeuePos := pos + 1), t, DeqWon(pos)))
            && (seqn < pos + 1 ==> Next(r, t, call) == Goto(r, t, DeqReturned(r.zero, false)))
  {
  }

  /** The first four steps of an enqueue that finds its cell free, and of one that does not. */
  lemma EnqueueWinsAlone<T>(r: Ring<T>, t: nat, v: T)
    requires Shaped(r) && r.width.Unbounded? && t in r.threads && Between(r.threads[t])
    ensures CellAt(r, r.enqueuePos).sequence == r.enqueuePos ==>
              Alone(r, t, CallEnqueue(v), 4) == Goto(r.(enqueuePos := r.enqueuePos + 1), t, EnqWon(v, r.enqueuePos))
    ensures CellAt(r, r.enqueuePos).sequence < r.enqueuePos ==>
              Alone(r, t, CallEnqueue(v), 4) == Goto(r, t, EnqReturned(false))
  {
    hide Alone, Next, Index;
    var e, call := r.enqueuePos, CallEnqueue(v);
    var seen := EnqHasSeq(v, e, CellAt(r, e).sequence);
    AloneMore(r, t, call, 3, 1);
    EnqueueLoads(r, t, v);
    AloneOne(Goto(r, t, seen), t, call);
    NextCompares(Goto(r, t, seen), t, call);
    MovedTwice(r.threads, t, seen, EnqWon(v, e));
    MovedTwice(r.threads, t, seen, EnqReturned(false));
  }

  lemma DequeueWinsAlone<T>(r: Ring<T>, t: nat)
    requires Shaped(r) && r.width.Unbounded? && t in r.threads && Between(r.threads[t])
    ensures CellAt(r, r.dequeuePos).sequence == r.dequeuePos + 1 ==>
              Alone(r, t, CallDequeue, 4) == Goto(r.(dequeuePos := r.dequeuePos + 1), t, DeqWon(r.dequeuePos))
    ensures CellAt(r, r.dequeuePos).sequence < r.dequeuePos + 1 ==>
              Alone(r, t, CallDequeue, 4) == Goto(r, t, DeqReturned(r.zero, false))
  {
    hide Alone, Next, Index;
    var d, call := r.dequeuePos, CallDequeue;
    var seen := DeqHasSeq(d, CellAt(r, d).sequence);
    AloneMore(r, t, call, 3, 1);
    DequeueLoads(r, t);
    AloneOne(Goto(r, t, seen), t, call);
    NextComparesToDequeue(Goto(r, t, seen), t, call);
    MovedTwice(r.threads, t, seen, DeqWon(d));
    MovedTwice(r.threads, t, seen, DeqReturned(r.zero, false));
  }

  /** The three steps after a won enqueue. */
  lemma PublishAlone<T>(r: Ring<T>, t: nat, call: Call<T>)
    requires Shaped(r) && r.width.Unbounded? && t in r.threads && r.threads[t].EnqWon?
    ensures var EnqWon(v, pos) := r.threads[t];
            Alone(r, t, call, 3) == Goto(Put(r, pos, Cell(pos + 1, v)).(length := r.length + 1), t, EnqReturned(true))
  {
    var EnqWon(v, pos) := r.threads[t];
    var r1 := Next(r, t, call);
    assert r1 == Goto(Put(r, pos, CellAt(r, pos).(value := v)), t, EnqWrote(v, pos));
    var r2 := Next(r1, t, call);
    assert r2 == Goto(Put(r, pos, Cell(pos + 1, v)), t, EnqCounting(v, pos));
    assert Alone(r, t, call, 3) == Alone(r1, t, call, 2) == Alone(r2, t, call, 1);
  }

  /** The four steps after a won dequeue. */
  lemma ReleaseAlone<T>(r: Ring<T>, t: nat, call: Call<T>)
    requires Shaped(r) && r.width.Unbounded? && t in r.threads && r.threads[t].DeqWon?
    ensures var pos := r.threads[t].pos;
            Alone(r, t, call, 4) == Goto(Put(r, pos, Cell(pos + r.capacity, r.zero)).(length := r.length - 1), t,
                                         DeqReturned(CellAt(r, pos).value, true))
  {
    var pos := r.threads[t].pos;
    var v := CellAt(r, pos).value;
    var r1 := Next(r, t, call);
    assert r1 == Goto(r, t, DeqRead(pos, v));
    var r2 := Next(r1, t, call);
    assert r2 == Goto(Put(r, pos, CellAt(r, pos).(value := r.zero)), t, DeqCleared(pos, v));
    var r3 := Next(r2, t, call);
    assert r3 == Goto(Put(r, pos, Cell(pos + r.capacity, r.zero)), t, DeqCounting(pos, v));
    assert Alone(r, t, call, 4) == Alone(r1, t, call, 3) == Alone(r2, t, call, 2) == Alone(r3, t, call, 1);
    AloneOne(r3, t, call);
  }

  /** The ring after thread `t` has completed an enqueue of `v`, and a dequeue. */
  function Enqueued<T>(r: Ring<T>, t: nat, v: T): Ring<T>
    requires Shaped(r)
  {
    r.(cells := r.cells[Index(r.capacity, r.enqueuePos) := Cell(r.enqueuePos + 1, v)],
       enqueuePos := r.enqueuePos + 1, length := r.length + 1, threads := r.threads[t := EnqReturned(true)])
  }

  function Dequeued<T>(r: Ring<T>, t: nat): Ring<T>
    requires Shaped(r)
  {
    r.(cells := r.cells[Index(r.capacity, r.dequeuePos) := Cell(r.dequeuePos + r.capacity, r.zero)],
       dequeuePos := r.dequeuePos + 1, length := r.length - 1,
       threads := r.threads[t := DeqReturned(CellAt(r, r.dequeuePos).value, true)])
  }

  lemma EnqueueAlone<T>(r: Ring<T>, t: nat, v: T)
    requires Shaped(r) && r.width.Unbounded? && t in r.threads && Between(r.threads[t])
    requires CellAt(r, r.enqueuePos).sequence == r.enqueuePos
    ensures Alone(r, t, CallEnqueue(v), 7) == Enqueued(r, t, v)
  {
    hide Alone, Next, Index;
    AloneMore(r, t, CallEnqueue(v), 4, 3);
    EnqueueWinsAlone(r, t, v);
    PublishAlone(Alone(r, t, CallEnqueue(v), 4), t, CallEnqueue(v));
    MovedTwice(r.threads, t, EnqWon(v, r.enqueuePos), EnqReturned(true));
  }

  lemma DequeueAlone<T>(r: Ring<T>, t: nat)
    requires Shaped(r) && r.width.Unbounded? && t in r.threads && Between(r.threads[t])
    requires CellAt(r, r.dequeuePos).sequence == r.dequeuePos + 1
    ensures Alone(r, t, CallDequeue, 8) == Dequeued(r, t)
  {
    hide Alone, Next, Index;
    AloneMore(r, t, CallDequeue, 4, 4);
    DequeueWinsAlone(r, t);
    ReleaseAlone(Alone(r, t, CallDequeue, 4), t, CallDequeue);
    MovedTwice(r.threads, t, DeqWon(r.dequeuePos), DeqReturned(CellAt(r, r.dequeuePos).value, true));
  }

  // What a failed call does not mean

  lemma NewCells<T>(k: nat, zero: T, threads: set<nat>, p: nat)
    requires p < Pow2(k)
    ensures CellAt(NewRing(Unbounded, k, zero, threads), p) == Cell(p, zero)
  {
    MaskSmall(p, k);
  }

  /** `Dequeue` can return false although the queue is not empty, even after an enqueue has returned:
      thread 0 wins ticket 0 and pauses, thread 1 enqueues and returns, and thread 2 finds nothing. */
  lemma DequeueFailsOnNonEmptyQueue<T>(k: nat, zero: T, v: T, w: T) returns (sched: Schedule<T>)
    requires k >= 1
    ensures var r0 := NewRing(Unbounded, k, zero, {0, 1, 2});
            var r, h := Exec(r0, sched), Record(r0, sched);
            && Inv(r, h) && Queue(r, h) != [] && 1 in r.threads && 2 in r.threads
            && r.threads[1] == EnqReturned(true) && r.threads[2] == DeqReturned(zero, false)
  {
    hide Exec, Alone, Inv, Record;
    var r0 := NewRing(Unbounded, k, zero, {0, 1, 2});
    assert Exec(r0, []) == r0 by { NothingYet(r0); }
    assert Pow2(k) == 2 * Pow2(k - 1);
    NewCells(k, zero, {0, 1, 2}, 0);
    NewCells(k, zero, {0, 1, 2}, 1);
    var s1 := Times(0, CallEnqueue(v), 4);
    ExecAlone(r0, [], 0, CallEnqueue(v), 4);
    EnqueueWinsAlone(r0, 0, v);
    assert [] + s1 == s1;
    var r1 := Exec(r0, s1);
    var s2 := s1 + Times(1, CallEnqueue(w), 7);
    ExecAlone(r0, s1, 1, CallEnqueue(w), 7);
    AloneMore(r1, 1, CallEnqueue(w), 4, 3);
    EnqueueWinsAlone(r1, 1, w);
    PublishAlone(Alone(r1, 1, CallEnqueue(w), 4), 1, CallEnqueue(w));
    var r2 := Exec(r0, s2);
    assert CellAt(r2, 0) == CellAt(r0, 0) by { OtherCell(k, 0, 1); }
    sched := s2 + Times(2, CallDequeue, 4);
    ExecAlone(r0, s2, 2, CallDequeue, 4);
    DequeueWinsAlone(r2, 2);
    AlwaysInv(k, zero, {0, 1, 2}, sched);
    TicketsAreCounted(Exec(r0, sched), Record(r0, sched));
  }

  lemma NothingYet<T>(r: Ring<T>)
    requires Shaped(r)
    ensures Exec(r, []) == r
  {
  }

  lemma TicketsAreCounted<T>(r: Ring<T>, h: History<T>)
    requires Inv(r, h)
    ensures r.dequeuePos <= |h.tickets| == r.enqueuePos && |Queue(r, h)| == r.enqueuePos - r.dequeuePos
  {
  }

  lemma OtherCell(k: nat, p: nat, q: nat)
    requires p < Pow2(k) && q < Pow2(k) && p != q
    ensures Index(Pow2(k), p) != Index(Pow2(k), q)
  {
    MaskSmall(p, k);
    MaskSmall(q, k);
  }

  /** `Enqueue` can return false although the queue is not full: of two values in a ring of two, one is
      won by a dequeuer that pauses before it releases the cell. */
  lemma EnqueueFailsOnNonFullQueue<T>(zero: T, u: T, v: T, w: T) returns (sched: Schedule<T>)
    ensures var r0 := NewRing(Unbounded, 1, zero, {0, 1});
            var r, h := Exec(r0, sched), Record(r0, sched);
            && Inv(r, h) && |Queue(r, h)| == 1 < r.capacity == 2
            && 0 in r.threads && r.threads[0] == EnqReturned(false)
  {
    hide Exec, Alone, Inv, Record;
    var r0 := NewRing(Unbounded, 1, zero, {0, 1});
    assert Exec(r0, []) == r0 by { NothingYet(r0); }
    assert Pow2(1) == 2 * Pow2(0);
    NewCells(1, zero, {0, 1}, 0);
    NewCells(1, zero, {0, 1}, 1);
    var s1 := Times(0, CallEnqueue(u), 7);
    ExecAlone(r0, [], 0, CallEnqueue(u), 7);
    assert [] + s1 == s1;
    var r1 := Exec(r0, s1);
    EnqueueAlone(r0, 0, u);
    OtherCell(1, 0, 1);
    var s2 := s1 + Times(0, CallEnqueue(v), 7);
    ExecAlone(r0, s1, 0, CallEnqueue(v), 7);
    EnqueueAlone(r1, 0, v);
    var r2 := Exec(r0, s2);
    var s3 := s2 + Times(1, CallDequeue, 4);
    ExecAlone(r0, s2, 1, CallDequeue, 4);
    DequeueWinsAlone(r2, 1);
    var r3 := Exec(r0, s3);
    sched := s3 + Times(0, CallEnqueue(w), 4);
    ExecAlone(r0, s3, 0, CallEnqueue(w), 4);
    assert CellAt(r3, 2) == CellAt(r3, 0) by { MaskLap(0, 1, 1); }
    EnqueueWinsAlone(r3, 0, w);
    AlwaysInv(1, zero, {0, 1}, sched);
    TicketsAreCounted(Exec(r0, sched), Record(r0, sched));
  }

  // Sleeping through 2^64 tickets

  /** The words of thread `t` do not mislead it. */
  predicate Close<T>(r: Ring<T>, l: Local<T>) {
    Behind(r, l) && !Misled(r, l)
  }

  /** Nor while it moves alone. */
  predicate CloseAlong<T>(r: Ring<T>, t: nat, call: Call<T>, n: nat)
    requires Shaped(r) && t in r.threads
    decreases n
  {
    n == 0 || (Close(r, r.threads[t]) && CloseAlong(Next(r, t, call), t, call, n - 1))
  }

  lemma CloseAlongMore<T>(r: Ring<T>, t: nat, call: Call<T>, m: nat, n: nat)
    requires Shaped(r) && t in r.threads
    requires CloseAlong(r, t, call, m) && CloseAlong(Alone(r, t, call, m), t, call, n)
    ensures CloseAlong(r, t, call, m + n)
    decreases m
  {
    if m > 0 { CloseAlongMore(Next(r, t, call), t, call, m - 1, n); }
  }

  lemma FitsNext<T>(r: Ring<T>, t: nat, call: Call<T>)
    requires Fits(r)
    ensures Fits(Next(r, t, call)) && Next(r, t, call).threads.Keys == r.threads.Keys
  {
    assert Next(r, t, call).capacity == r.capacity && Next(r, t, call).width == r.width;
  }

  /** A stretch of close steps takes the words where it takes the tickets. */
  lemma {:induction false} WordsFollow<T>(r: Ring<T>, t: nat, call: Call<T>, n: nat)
    requires Fits(r) && t in r.threads && CloseAlong(r, t, call, n)
    ensures t in Wrap(r).threads && Alone(Wrap(r), t, call, n) == Wrap(Alone(r, t, call, n))
    decreases n
  {
    hide Next, Wrap, Misled, Behind;
    WrapKeepsThreads(r);
    if n > 0 {
      StepCommutesWithWrap(r, t, call);
      FitsNext(r, t, call);
      WordsFollow(Next(r, t, call), t, call, n - 1);
    }
  }

  lemma WrapKeepsThreads<T>(r: Ring<T>)
    ensures Wrap(r).threads.Keys == r.threads.Keys
  {
  }

  lemma LoadsAreClose<T>(r: Ring<T>, t: nat, call: Call<T>)
    requires Shaped(r) && t in r.threads && Between(r.threads[t])
    ensures CloseAlong(r, t, call, 3)
  {
    hide Close;
    var r1 := Next(r, t, call);
    var r2 := Next(r1, t, call);
    Comparing(r, t);
    Comparing(r1, t);
    Comparing(r2, t);
    assert CloseAlong(r2, t, call, 1) && CloseAlong(r1, t, call, 2);
  }

  /** Only a thread that compares can be misled. */
  lemma Comparing<T>(r: Ring<T>, t: nat)
    requires t in r.threads && !Loaded(r.threads[t])
    ensures Close(r, r.threads[t])
  {
  }

  lemma PublishIsClose<T>(r: Ring<T>, t: nat, call: Call<T>)
    requires Shaped(r) && t in r.threads && r.threads[t].EnqWon?
    ensures CloseAlong(r, t, call, 3)
  {
    hide Close;
    var r1 := Next(r, t, call);
    var r2 := Next(r1, t, call);
    Comparing(r, t);
    Comparing(r1, t);
    Comparing(r2, t);
    assert CloseAlong(r2, t, call, 1) && CloseAlong(r1, t, call, 2);
  }

  lemma ReleaseIsClose<T>(r: Ring<T>, t: nat, call: Call<T>)
    requires Shaped(r) && t in r.threads && r.threads[t].DeqWon?
    ensures CloseAlong(r, t, call, 4)
  {
    hide Close;
    var r1 := Next(r, t, call);
    var r2 := Next(r1, t, call);
    var r3 := Next(r2, t, call);
    Comparing(r, t);
    Comparing(r1, t);
    Comparing(r2, t);
    Comparing(r3, t);
    assert CloseAlong(r3, t, call, 1) && CloseAlong(r2, t, call, 2) && CloseAlong(r1, t, call, 3);
  }

  lemma CloseOnce<T>(r: Ring<T>, t: nat, call: Call<T>)
    requires Shaped(r) && t in r.threads && Close(r, r.threads[t])
    ensures CloseAlong(r, t, call, 1)
  {
    assert CloseAlong(Next(r, t, call), t, call, 0);
  }

  lemma EnqueueIsClose<T>(r: Ring<T>, t: nat, v: T)
    requires Shaped(r) && r.width.Unbounded? && t in r.threads && Between(r.threads[t])
    requires CellAt(r, r.enqueuePos).sequence == r.enqueuePos
    ensures CloseAlong(r, t, CallEnqueue(v), 7)
  {
    hide Alone, CloseAlong, Next;
    var call := CallEnqueue(v);
    LoadsAreClose(r, t, call);
    EnqueueLoads(r, t, v);
    CloseOnce(Alone(r, t, call, 3), t, call);
    CloseAlongMore(r, t, call, 3, 1);
    EnqueueWinsAlone(r, t, v);
    PublishIsClose(Alone(r, t, call, 4), t, call);
    CloseAlongMore(r, t, call, 4, 3);
  }

  lemma DequeueIsClose<T>(r: Ring<T>, t: nat)
    requires Shaped(r) && r.width.Unbounded? && t in r.threads && Between(r.threads[t])
    requires CellAt(r, r.dequeuePos).sequence == r.dequeuePos + 1
    ensures CloseAlong(r, t, CallDequeue, 8)
  {
    hide Alone, CloseAlong, Next;
    LoadsAreClose(r, t, CallDequeue);
    DequeueLoads(r, t);
    CloseOnce(Alone(r, t, CallDequeue, 3), t, CallDequeue);
    CloseAlongMore(r, t, CallDequeue, 3, 1);
    DequeueWinsAlone(r, t);
    ReleaseIsClose(Alone(r, t, CallDequeue, 4), t, CallDequeue);
    CloseAlongMore(r, t, CallDequeue, 4, 4);
  }

  /** `j` values have passed through, and the ring is empty. */
  ghost predicate Lapped<T>(r: Ring<T>, j: nat) {
    && Fits(r) && r.enqueuePos == j == r.dequeuePos
    && forall p: nat {:trigger CellAt(r, p)} :: j <= p < j + r.capacity ==> CellAt(r, p).sequence == p
  }

  lemma RoundKeeps<T>(r: Ring<T>, j: nat, v: T)
    requires Lapped(r, j)
    ensures Shaped(Enqueued(r, 1, v)) && CellAt(Enqueued(r, 1, v), j).sequence == j + 1
    ensures Lapped(Dequeued(Enqueued(r, 1, v), 1), j + 1)
  {
    var c := r.capacity;
    var r2 := Dequeued(Enqueued(r, 1, v), 1);
    forall p: nat {:trigger CellAt(r2, p)} | j + 1 <= p < j + 1 + c ensures CellAt(r2, p).sequence == p {
      if p == j + c {
        NextLap(c, j);
      } else {
        SameCell(c, j, p);
        assert CellAt(r, p).sequence == p;
      }
    }
  }

  /** One value enqueued and dequeued by thread 1, in tickets and in words. */
  lemma Round<T>(r: Ring<T>, j: nat, v: T)
    requires Lapped(r, j) && 1 in r.threads && Between(r.threads[1])
    ensures var r1 := Alone(r, 1, CallEnqueue(v), 7);
            && r1 == Enqueued(r, 1, v) && 1 in r1.threads && Alone(r1, 1, CallDequeue, 8) == Dequeued(r1, 1)
            && 1 in Wrap(r).threads && Alone(Wrap(r), 1, CallEnqueue(v), 7) == Wrap(r1)
            && 1 in Wrap(r1).threads && Alone(Wrap(r1), 1, CallDequeue, 8) == Wrap(Dequeued(r1, 1))
  {
    hide Alone, CloseAlong, Wrap, Next;
    assert CellAt(r, j).sequence == j;
    RoundKeeps(r, j, v);
    EnqueueAlone(r, 1, v);
    EnqueueIsClose(r, 1, v);
    WordsFollow(r, 1, CallEnqueue(v), 7);
    var r1 := Enqueued(r, 1, v);
    assert Fits(r1);
    DequeueAlone(r1, 1);
    DequeueIsClose(r1, 1);
    WordsFollow(r1, 1, CallDequeue, 8);
  }

  /** Thread 0 loads ticket 0 and its sequence and falls asleep; thread 1 passes `j` values through. */
  function Sleep<T>(v: T, j: nat): Schedule<T> {
    if j == 0 then Times(0, CallEnqueue(v), 3)
    else Sleep(v, j - 1) + Times(1, CallEnqueue(v), 7) + Times(1, CallDequeue, 8)
  }

  lemma SleepStarts<T>(k: nat, zero: T, v: T)
    requires 1 <= k <= 63
    ensures var r0 := NewRing(Unbounded, k, zero, {0, 1});
            var r := Exec(r0, Sleep(v, 0));
            && r == Goto(r0, 0, EnqHasSeq(v, 0, 0)) && Lapped(r, 0)
            && Exec(NewRing(Bits64, k, zero, {0, 1}), Sleep(v, 0)) == Wrap(r)
  {
    hide Alone, CloseAlong, Next, Exec, Wrap;
    var r0, w0, call := NewRing(Unbounded, k, zero, {0, 1}), NewRing(Bits64, k, zero, {0, 1}), CallEnqueue(v);
    NothingYet(r0);
    NothingYet(w0);
    assert Pow2(k) >= 1;
    NewCells(k, zero, {0, 1}, 0);
    ExecAlone(r0, [], 0, call, 3);
    ExecAlone(w0, [], 0, call, 3);
    assert [] + Times(0, call, 3) == Times(0, call, 3);
    EnqueueLoads(r0, 0, v);
    LoadsAreClose(r0, 0, call);
    NewRingWraps(k, zero, {0, 1});
    WordsFollow(r0, 0, call, 3);
    var r := Goto(r0, 0, EnqHasSeq(v, 0, 0));
    forall p: nat {:trigger CellAt(r, p)} | p < r.capacity ensures CellAt(r, p).sequence == p {
      NewCells(k, zero, {0, 1}, p);
    }
  }

  lemma {:induction false} SleepRuns<T>(k: nat, zero: T, v: T, j: nat)
    requires 1 <= k <= 63
    ensures var r := Exec(NewRing(Unbounded, k, zero, {0, 1}), Sleep(v, j));
            && Lapped(r, j) && 0 in r.threads && r.threads[0] == EnqHasSeq(v, 0, 0)
            && 1 in r.threads && Between(r.threads[1])
            && Exec(NewRing(Bits64, k, zero, {0, 1}), Sleep(v, j)) == Wrap(r)
  {
    hide Alone, Next, Exec, Wrap, Lapped;
    if j == 0 {
      SleepStarts(k, zero, v);
    } else {
      var r0, w0, pre := NewRing(Unbounded, k, zero, {0, 1}), NewRing(Bits64, k, zero, {0, 1}), Sleep(v, j - 1);
      SleepRuns(k, zero, v, j - 1);
      var r := Exec(r0, pre);
      Round(r, j - 1, v);
      RoundKeeps(r, j - 1, v);
      ExecAlone(r0, pre, 1, CallEnqueue(v), 7);
      ExecAlone(w0, pre, 1, CallEnqueue(v), 7);
      ExecAlone(r0, pre + Times(1, CallEnqueue(v), 7), 1, CallDequeue, 8);
      ExecAlone(w0, pre + Times(1, CallEnqueue(v), 7), 1, CallDequeue, 8);
    }
  }

  /** Sleeping is harmless except for whole laps of words: for every `j` there is a run in which thread
      0 sleeps between loading ticket 0 and its compare-and-swap while `j` values pass. Up to there the
      words are those of the unbounded ring; its next step parts them if and only if `j` is a positive
      multiple of 2^64. */
  lemma SleepingPartsAtLapsOfWords<T>(k: nat, zero: T, v: T, j: nat, call: Call<T>) returns (sched: Schedule<T>)
    requires 1 <= k <= 63
    ensures var r0, w0 := NewRing(Unbounded, k, zero, {0, 1}), NewRing(Bits64, k, zero, {0, 1});
            var r, w := Exec(r0, sched), Exec(w0, sched);
            && Inv(r, Record(r0, sched)) && r.enqueuePos == j && w == Wrap(r)
            && 0 in r.threads && r.threads[0] == EnqHasSeq(v, 0, 0)
            && (Exec(w0, sched + [(0, call)]) == Wrap(Exec(r0, sched + [(0, call)])) <==> j == 0 || j % TWO_64 != 0)
  {
    sched := SleepLong(k, zero, v, j);
    hide Inv, Record, Wrap, Next;
    StepCommutesWithWrap(Exec(NewRing(Unbounded, k, zero, {0, 1}), sched), 0, call);
    assert (sched + [(0, call)])[..|sched|] == sched;
  }

  /** After exactly one lap it retries with tickets, but with words it wins a ticket that is not its. */
  lemma SleepingThroughALapOfWords<T>(k: nat, zero: T, v: T, call: Call<T>) returns (sched: Schedule<T>)
    requires 1 <= k <= 63
    ensures var r0, w0 := NewRing(Unbounded, k, zero, {0, 1}), NewRing(Bits64, k, zero, {0, 1});
            var r, w := Exec(r0, sched), Exec(w0, sched);
            && Inv(r, Record(r0, sched)) && r.enqueuePos == TWO_64 && w == Wrap(r)
            && 0 in r.threads && r.threads[0] == EnqHasSeq(v, 0, 0)
            && Next(r, 0, call).threads[0] == EnqStart(v) && Next(w, 0, call).threads[0] == EnqWon(v, 0)
            && Exec(w0, sched + [(0, call)]) != Wrap(Exec(r0, sched + [(0, call)]))
  {
    var laps: nat := TWO_64;
    sched := SleepingPartsAtLapsOfWords(k, zero, v, laps, call);
    hide Inv, Record;
    WakesUp(Exec(NewRing(Unbounded, k, zero, {0, 1}), sched), v, call);
  }

  lemma SleepLong<T>(k: nat, zero: T, v: T, j: nat) returns (sched: Schedule<T>)
    requires 1 <= k <= 63
    ensures var r0 := NewRing(Unbounded, k, zero, {0, 1});
            var r := Exec(r0, sched);
            && Inv(r, Record(r0, sched)) && Fits(r) && r.enqueuePos == j && 0 in r.threads
            && r.threads[0] == EnqHasSeq(v, 0, 0) && Exec(NewRing(Bits64, k, zero, {0, 1}), sched) == Wrap(r)
  {
    sched := Sleep(v, j);
    SleepRuns(k, zero, v, j);
    AlwaysInv(k, zero, {0, 1}, sched);
  }

  lemma WakesUp<T>(r: Ring<T>, v: T, call: Call<T>)
    requires Shaped(r) && r.width.Unbounded? && r.enqueuePos == TWO_64 && 0 in r.threads
    requires r.threads[0] == EnqHasSeq(v, 0, 0)
    ensures Next(r, 0, call).threads[0] == EnqStart(v)
    ensures Next(Wrap(r), 0, call).threads[0] == EnqWon(v, 0)
  {
    assert Wrap(r).threads[0] == EnqHasSeq(v, 0, 0) && Wrap(r).enqueuePos == 0;
  }
}
