/** The ring as a bounded first-in first-out queue, over every interleaving. */
module RingFifo {
  import opened RingProtocol
  import opened RingSafety
  import opened Words
  import opened Wrappers

  /** The abstract queue: the values of the tickets won by enqueuers and not yet by dequeuers. */
  function Queue<T>(r: Ring<T>, h: History<T>): seq<T>
    requires r.dequeuePos <= |h.tickets|
  {
    h.tickets[r.dequeuePos..]
  }

  /** The winning compare-and-swaps are the linearisation points: one appends to the queue, one
      removes the head, and no other step of any thread changes it. */
  lemma RefinesFifo<T>(r: Ring<T>, h: History<T>, t: nat, call: Call<T>)
    requires Inv(r, h) && t in r.threads
    ensures Inv(Next(r, t, call), Observe(h, r, t))
    ensures var q, q' := Queue(r, h), Queue(Next(r, t, call), Observe(h, r, t));
            var l := r.threads[t];
            && |q| <= r.capacity
            && (if l.EnqHasSeq? && EnqWins(r, l.pos, l.seqn) then |q| < r.capacity && q' == q + [l.v]
                else if l.DeqHasSeq? && DeqWins(r, l.pos, l.seqn) then
                  q != [] && q' == q[1..] && h.tickets[l.pos] == q[0]
                else q' == q)
  {
    StepKeeps(r, h, t, call);
    var l := r.threads[t];
    if l.DeqHasSeq? && DeqWins(r, l.pos, l.seqn) {
      HeadIsFull(r, h, t);
    } else if l.EnqHasSeq? && EnqWins(r, l.pos, l.seqn) {
      assert (h.tickets + [l.v])[r.dequeuePos..] == h.tickets[r.dequeuePos..] + [l.v];
    }
  }

  /** Two threads never have one cell's plain value field at the same time. */
  lemma NoSharedCell<T>(k: nat, zero: T, threads: set<nat>, sched: Schedule<T>, t: nat, u: nat)
    requires k >= 1 && t in threads && u in threads && t != u
    ensures var r := Exec(NewRing(Unbounded, k, zero, threads), sched);
            && t in r.threads && u in r.threads
            && (HeldTicket(r.threads[t]).Some? && HeldTicket(r.threads[u]).Some? ==>
                  Index(r.capacity, r.threads[t].pos) != Index(r.capacity, r.threads[u].pos))
  {
    AlwaysInv(k, zero, threads, sched);
    SameThreads(NewRing(Unbounded, k, zero, threads), sched);
    var r0 := NewRing(Unbounded, k, zero, threads);
    var r, h := Exec(r0, sched), Record(r0, sched);
    assert LocalOk(r, h, r.threads[t]) && LocalOk(r, h, r.threads[u]) && Apart(r.threads[t], r.threads[u]);
    if HeldTicket(r.threads[t]).Some? && HeldTicket(r.threads[u]).Some? {
      HoldersDoNotShare(r, h, r.threads[t], r.threads[u]);
    }
  }

  lemma {:induction false} SameThreads<T>(r: Ring<T>, sched: Schedule<T>)
    requires Shaped(r)
    ensures Exec(r, sched).threads.Keys == r.threads.Keys
    ensures Exec(r, sched).capacity == r.capacity && Exec(r, sched).width == r.width
    decreases |sched|
  {
    if sched != [] { SameThreads(r, sched[..|sched| - 1]); }
  }

  /** The value a dequeuer carries from its ticket's cell to its caller is the value the ticket was
      enqueued with, and no ticket is delivered twice. */
  lemma DeliversWhatWasEnqueued<T>(k: nat, zero: T, threads: set<nat>, sched: Schedule<T>, t: nat, call: Call<T>)
    requires k >= 1 && t in threads
    requires t in Exec(NewRing(Unbounded, k, zero, threads), sched).threads
    requires Exec(NewRing(Unbounded, k, zero, threads), sched).threads[t].DeqCounting?
    ensures var r0 := NewRing(Unbounded, k, zero, threads);
            var r, h := Exec(r0, sched), Record(r0, sched);
            var DeqCounting(pos, v) := r.threads[t];
            && pos < |h.tickets| && v == h.tickets[pos] && pos !in h.delivered
            && Next(r, t, call).threads[t] == DeqReturned(h.tickets[pos], true)
            && Record(r0, sched + [(t, call)]).delivered == h.delivered[pos := h.tickets[pos]]
  {
    hide Inv, Next, Observe, Exec;
    AlwaysInv(k, zero, threads, sched);
    var r0 := NewRing(Unbounded, k, zero, threads);
    var r, h := Exec(r0, sched), Record(r0, sched);
    CarriesTicketValue(r, h, t);
    DeliveryStep(r, h, t, call);
    assert (sched + [(t, call)])[..|sched|] == sched;
  }

  lemma DeliveryStep<T>(r: Ring<T>, h: History<T>, t: nat, call: Call<T>)
    requires Shaped(r) && t in r.threads && r.threads[t].DeqCounting?
    ensures var DeqCounting(pos, v) := r.threads[t];
            && Next(r, t, call).threads[t] == DeqReturned(v, true)
            && Observe(h, r, t).delivered == h.delivered[pos := v]
  {
  }

  lemma CarriesTicketValue<T>(r: Ring<T>, h: History<T>, t: nat)
    requires Inv(r, h) && t in r.threads && r.threads[t].DeqCounting?
    ensures var DeqCounting(pos, v) := r.threads[t];
            pos < |h.tickets| && v == h.tickets[pos] && pos !in h.delivered
  {
    assert LocalOk(r, h, r.threads[t]) && DeqClaim(r.threads[t]).Some?;
  }

  /** No thread is between winning a ticket and finishing with it. */
  ghost predicate Quiet<T>(r: Ring<T>) {
    forall t :: t in r.threads ==> EnqTicket(r.threads[t]).None? && DeqClaim(r.threads[t]).None?
  }

  /** Nothing is lost: once no operation is in flight, the delivered tickets are exactly those
      before the head, and the cells hold exactly the rest, in order. */
  lemma NothingLost<T>(k: nat, zero: T, threads: set<nat>, sched: Schedule<T>)
    requires k >= 1 && Quiet(Exec(NewRing(Unbounded, k, zero, threads), sched))
    ensures var r0 := NewRing(Unbounded, k, zero, threads);
            var r, h := Exec(r0, sched), Record(r0, sched);
            && (forall p: nat :: p in h.delivered <==> p < r.dequeuePos)
            && r.dequeuePos <= r.enqueuePos == |h.tickets| <= r.dequeuePos + r.capacity
            && (forall p :: p in h.delivered ==> h.delivered[p] == h.tickets[p])
            && (forall p: nat {:trigger CellAt(r, p)} :: r.dequeuePos <= p < r.enqueuePos ==>
                  CellAt(r, p) == Cell(p + 1, h.tickets[p]))
  {
    AlwaysInv(k, zero, threads, sched);
    var r0 := NewRing(Unbounded, k, zero, threads);
    var r, h := Exec(r0, sched), Record(r0, sched);
    forall p: nat | r.dequeuePos <= p < r.enqueuePos ensures CellAt(r, p) == Cell(p + 1, h.tickets[p]) {
      QueuedCell(r, h, p);
    }
  }

  lemma QueuedCell<T>(r: Ring<T>, h: History<T>, p: nat)
    requires Inv(r, h) && Quiet(r) && r.dequeuePos <= p < r.enqueuePos
    ensures CellAt(r, p) == Cell(p + 1, h.tickets[p])
  {
    var i := Index(r.capacity, p);
    assert CellOk(r, h, i);
    var q := r.cells[i].sequence;
    SameCell(r.capacity, p, q);
    SameCell(r.capacity, q, p);
    if q > 0 {
      SameCell(r.capacity, p, q - 1);
      SameCell(r.capacity, q - 1, p);
    }
  }

  /** The head of the queue is missing, or its enqueuer has yet to publish it. */
  ghost predicate Starved<T>(r: Ring<T>, h: History<T>)
    requires r.dequeuePos <= |h.tickets|
  {
    Queue(r, h) == [] || EnqHeld(r, r.dequeuePos)
  }

  /** The queue is full, or the dequeuer of the ticket a lap ago has yet to release its cell. */
  ghost predicate Jammed<T>(r: Ring<T>, h: History<T>)
    requires r.dequeuePos <= |h.tickets|
  {
    r.enqueuePos >= r.capacity && (|Queue(r, h)| == r.capacity || DeqHeld(r, r.enqueuePos - r.capacity))
  }

  /** A held ticket's cell stands where its holder needs it. */
  lemma HeldCell<T>(r: Ring<T>, h: History<T>, p: nat)
    requires Inv(r, h)
    ensures EnqHeld(r, p) ==> CellAt(r, p).sequence == p
    ensures DeqHeld(r, p) ==> CellAt(r, p).sequence == p + 1
  {
    if EnqHeld(r, p) {
      var t :| t in r.threads && EnqTicket(r.threads[t]) == Some(p);
      assert LocalOk(r, h, r.threads[t]);
    }
    if DeqHeld(r, p) {
      var t :| t in r.threads && DeqTicket(r.threads[t]) == Some(p);
      assert LocalOk(r, h, r.threads[t]);
    }
  }

  /** In every reachable state, whatever is in flight: the test of `Dequeue` fails exactly when the
      queue is starved, and the test of `Enqueue` exactly when it is jammed. */
  lemma FailureIsExact<T>(r: Ring<T>, h: History<T>)
    requires Inv(r, h)
    ensures CellAt(r, r.dequeuePos).sequence < r.dequeuePos + 1 <==> Starved(r, h)
    ensures CellAt(r, r.enqueuePos).sequence < r.enqueuePos <==> Jammed(r, h)
  {
    StarvedIsExact(r, h);
    JammedIsExact(r, h);
  }

  lemma StarvedIsExact<T>(r: Ring<T>, h: History<T>)
    requires Inv(r, h)
    ensures CellAt(r, r.dequeuePos).sequence < r.dequeuePos + 1 <==> Starved(r, h)
  {
    hide Locals, Owners, Undelivered, Deliveries;
    var d := r.dequeuePos;
    var q := CellAt(r, d).sequence;
    CellOfTicket(r, h, d);
    assert CellOk(r, h, Index(r.capacity, d));
    if q == d {
      CellIsFree(r, h, d);
    } else if q == d + 1 {
      CellIsFull(r, h, d);
      HeldCell(r, h, d);
    } else {
      SameCell(r.capacity, q, d);
      if q > 0 { SameCell(r.capacity, q - 1, d); }
    }
  }

  lemma JammedIsExact<T>(r: Ring<T>, h: History<T>)
    requires Inv(r, h)
    ensures CellAt(r, r.enqueuePos).sequence < r.enqueuePos <==> Jammed(r, h)
  {
    hide Locals, Owners, Undelivered, Deliveries;
    var e, c := r.enqueuePos, r.capacity;
    var q := CellAt(r, e).sequence;
    CellOfTicket(r, h, e);
    assert CellOk(r, h, Index(c, e));
    if q < e {
      var lap := e - c;
      NextLap(c, lap);
      if q == lap { CellIsFree(r, h, lap); } else { CellIsFull(r, h, lap); }
    } else {
      CellIsFree(r, h, e);
      if e >= c {
        NextLap(c, e - c);
        HeldCell(r, h, e - c);
      }
    }
  }

  /** So with no operation in flight the tests fail exactly on the empty and on the full queue. */
  lemma QuietFailureIsExact<T>(r: Ring<T>, h: History<T>)
    requires Inv(r, h) && Quiet(r)
    ensures CellAt(r, r.dequeuePos).sequence < r.dequeuePos + 1 <==> Queue(r, h) == []
    ensures CellAt(r, r.enqueuePos).sequence < r.enqueuePos <==> |Queue(r, h)| == r.capacity
  {
    FailureIsExact(r, h);
  }

  /** The enqueuers that have won a ticket and not yet counted it, and the dequeuers likewise. */
  predicate EnqInFlight<T>(l: Local<T>) {
    l.EnqWon? || l.EnqWrote? || l.EnqCounting?
  }

  predicate DeqInFlight<T>(l: Local<T>) {
    l.DeqWon? || l.DeqRead? || l.DeqCleared? || l.DeqCounting?
  }

  function Enqueuers<T>(r: Ring<T>): set<nat> {
    set t | t in r.threads && EnqInFlight(r.threads[t])
  }

  function Dequeuers<T>(r: Ring<T>): set<nat> {
    set t | t in r.threads && DeqInFlight(r.threads[t])
  }

  /** `length` lags the queue by exactly the operations in flight. */
  predicate LengthOk<T>(r: Ring<T>) {
    r.length == r.enqueuePos - r.dequeuePos - |Enqueuers(r)| + |Dequeuers(r)|
  }

  lemma InFlightAfter<T>(r: Ring<T>, r': Ring<T>, t: nat, l: Local<T>)
    requires t in r.threads && r'.threads == r.threads[t := l]
    ensures |Enqueuers(r')| == |Enqueuers(r)| + (if EnqInFlight(l) then 1 else 0)
                               - (if EnqInFlight(r.threads[t]) then 1 else 0)
    ensures |Dequeuers(r')| == |Dequeuers(r)| + (if DeqInFlight(l) then 1 else 0)
                               - (if DeqInFlight(r.threads[t]) then 1 else 0)
  {
    OneMoved(Enqueuers(r), Enqueuers(r'), t);
    OneMoved(Dequeuers(r), Dequeuers(r'), t);
  }

  lemma OneMoved(a: set<nat>, b: set<nat>, t: nat)
    requires forall u :: u != t ==> (u in a <==> u in b)
    ensures |b| == |a| + (if t in b then 1 else 0) - (if t in a then 1 else 0)
  {
    var c := a - {t};
    assert c == b - {t};
    if t in a { assert a == c + {t}; } else { assert a == c; }
    if t in b { assert b == c + {t}; } else { assert b == c; }
  }

  lemma LengthEnqueueStep<T>(r: Ring<T>, t: nat)
    requires Shaped(r) && t in r.threads && EnqueueStep?(r.threads[t])
    requires r.width.Unbounded? && LengthOk(r)
    ensures LengthOk(NextEnqueue(r, t))
  {
    var r' := NextEnqueue(r, t);
    InFlightAfter(r, r', t, r'.threads[t]);
  }

  lemma LengthDequeueStep<T>(r: Ring<T>, t: nat)
    requires Shaped(r) && t in r.threads && !EnqueueStep?(r.threads[t])
    requires !r.threads[t].Idle? && !r.threads[t].EnqReturned? && !r.threads[t].DeqReturned?
    requires r.width.Unbounded? && LengthOk(r)
    ensures LengthOk(NextDequeue(r, t))
  {
    var r' := NextDequeue(r, t);
    InFlightAfter(r, r', t, r'.threads[t]);
  }

  lemma LengthStep<T>(r: Ring<T>, t: nat, call: Call<T>)
    requires Shaped(r) && r.width.Unbounded? && LengthOk(r)
    ensures LengthOk(Next(r, t, call))
  {
    if t in r.threads {
      var l := r.threads[t];
      if l.Idle? || l.EnqReturned? || l.DeqReturned? {
        InFlightAfter(r, Next(r, t, call), t, Next(r, t, call).threads[t]);
      } else if EnqueueStep?(l) {
        LengthEnqueueStep(r, t);
      } else {
        LengthDequeueStep(r, t);
      }
    }
  }

  lemma {:induction false} LengthLagsByInFlight<T>(k: nat, zero: T, threads: set<nat>, sched: Schedule<T>)
    requires k >= 1
    ensures LengthOk(Exec(NewRing(Unbounded, k, zero, threads), sched))
    decreases |sched|
  {
    var r0 := NewRing(Unbounded, k, zero, threads);
    if sched == [] {
      assert Enqueuers(r0) == {} && Dequeuers(r0) == {};
    } else {
      var n := |sched| - 1;
      LengthLagsByInFlight(k, zero, threads, sched[..n]);
      SameThreads(r0, sched[..n]);
      LengthStep(Exec(r0, sched[..n]), sched[n].0, sched[n].1);
    }
  }

  /** So `Len` is exact whenever no operation is in flight. */
  lemma QuietLengthIsExact<T>(r: Ring<T>, h: History<T>)
    requires Inv(r, h) && LengthOk(r)
    requires forall t :: t in r.threads ==> !EnqInFlight(r.threads[t]) && !DeqInFlight(r.threads[t])
    ensures r.length == |Queue(r, h)|
  {
    assert Enqueuers(r) == {} && Dequeuers(r) == {};
  }
}
