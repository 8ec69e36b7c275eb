/** What every step of the ring keeps, over every schedule of any set of threads. */
module RingSafety {
  import opened RingProtocol
  import opened Words
  import opened Wrappers

  /** The ticket whose cell the thread has to itself between winning a compare-and-swap and
      storing the sequence, as an enqueuer and as a dequeuer. */
  function EnqTicket<T>(l: Local<T>): Option<nat> {
    if l.EnqWon? || l.EnqWrote? then Some(l.pos) else None
  }

  function DeqTicket<T>(l: Local<T>): Option<nat> {
    if l.DeqWon? || l.DeqRead? || l.DeqCleared? then Some(l.pos) else None
  }

  /** A dequeue ticket that is won and not yet delivered. */
  function DeqClaim<T>(l: Local<T>): Option<nat> {
    if l.DeqCounting? then Some(l.pos) else DeqTicket(l)
  }

  ghost predicate EnqHeld<T>(r: Ring<T>, p: nat) {
    exists t :: t in r.threads && EnqTicket(r.threads[t]) == Some(p)
  }

  ghost predicate DeqHeld<T>(r: Ring<T>, p: nat) {
    exists t :: t in r.threads && DeqTicket(r.threads[t]) == Some(p)
  }

  ghost predicate Claimed<T>(r: Ring<T>, p: nat) {
    exists t :: t in r.threads && DeqClaim(r.threads[t]) == Some(p)
  }

  /** The cell waits for the enqueue of ticket `p`. */
  predicate FreeFor<T>(r: Ring<T>, i: nat, p: nat)
    requires Shaped(r) && i < r.capacity
  {
    r.cells[i].sequence == p && Index(r.capacity, p) == i
  }

  /** The cell carries the published value of ticket `p`. */
  predicate FullOf<T>(r: Ring<T>, i: nat, p: nat)
    requires Shaped(r) && i < r.capacity
  {
    r.cells[i].sequence == p + 1 && Index(r.capacity, p) == i
  }

  ghost predicate FreeOk<T>(r: Ring<T>, p: nat) {
    && r.dequeuePos <= p < r.dequeuePos + r.capacity
    && (p < r.enqueuePos ==> EnqHeld(r, p))
  }

  ghost predicate FullOk<T>(r: Ring<T>, h: History<T>, i: nat, p: nat)
    requires Shaped(r) && i < r.capacity && |h.tickets| == r.enqueuePos
  {
    && r.enqueuePos <= p + r.capacity && p < r.enqueuePos
    && (r.dequeuePos <= p ==> r.cells[i].value == h.tickets[p])
    && (p < r.dequeuePos ==> DeqHeld(r, p))
  }

  ghost predicate CellOk<T>(r: Ring<T>, h: History<T>, i: nat)
    requires Shaped(r) && i < r.capacity && |h.tickets| == r.enqueuePos
  {
    var q := r.cells[i].sequence;
    || (FreeFor(r, i, q) && FreeOk(r, q))
    || (q > 0 && FullOf(r, i, q - 1) && FullOk(r, h, i, q - 1))
  }

  /** What a thread's locals tell about the shared state. */
  ghost predicate LocalOk<T>(r: Ring<T>, h: History<T>, l: Local<T>)
    requires Shaped(r) && |h.tickets| == r.enqueuePos && r.dequeuePos <= r.enqueuePos
  {
    match l
    case EnqHasPos(v, pos) => pos <= r.enqueuePos
    case EnqHasSeq(v, pos, seqn) =>
      && pos <= r.enqueuePos
      && (pos == r.enqueuePos ==> seqn <= pos)
      && (pos == r.enqueuePos && seqn == pos ==> CellAt(r, pos).sequence == pos)
    case EnqWon(v, pos) =>
      pos < r.enqueuePos && h.tickets[pos] == v && CellAt(r, pos).sequence == pos
    case EnqWrote(v, pos) =>
      pos < r.enqueuePos && h.tickets[pos] == v && CellAt(r, pos) == Cell(pos, v)
    case DeqHasPos(pos) => pos <= r.dequeuePos
    case DeqHasSeq(pos, seqn) =>
      && pos <= r.dequeuePos
      && (pos == r.dequeuePos ==> seqn <= pos + 1)
      && (pos == r.dequeuePos && seqn == pos + 1 ==> CellAt(r, pos).sequence == pos + 1)
    case DeqWon(pos) =>
      pos < r.dequeuePos && CellAt(r, pos) == Cell(pos + 1, h.tickets[pos])
    case DeqRead(pos, v) =>
      pos < r.dequeuePos && CellAt(r, pos).sequence == pos + 1 && v == h.tickets[pos]
    case DeqCleared(pos, v) =>
      pos < r.dequeuePos && CellAt(r, pos).sequence == pos + 1 && v == h.tickets[pos]
    case DeqCounting(pos, v) =>
      pos < r.dequeuePos && v == h.tickets[pos]
    case _ => true
  }

  ghost predicate Counters<T>(r: Ring<T>, h: History<T>) {
    && r.width.Unbounded? && Shaped(r) && r.capacity >= 2
    && (exists k: nat :: r.capacity == Pow2(k))
    && |h.tickets| == r.enqueuePos
    && r.dequeuePos <= r.enqueuePos <= r.dequeuePos + r.capacity
  }

  ghost predicate Cells<T>(r: Ring<T>, h: History<T>)
    requires Shaped(r) && |h.tickets| == r.enqueuePos
  {
    forall i: nat :: i < r.capacity ==> CellOk(r, h, i)
  }

  ghost predicate Locals<T>(r: Ring<T>, h: History<T>)
    requires Shaped(r) && |h.tickets| == r.enqueuePos && r.dequeuePos <= r.enqueuePos
  {
    forall t :: t in r.threads ==> LocalOk(r, h, r.threads[t])
  }

  ghost predicate Apart<T>(l: Local<T>, m: Local<T>) {
    && (EnqTicket(l).Some? ==> EnqTicket(l) != EnqTicket(m))
    && (DeqClaim(l).Some? ==> DeqClaim(l) != DeqClaim(m))
  }

  /** No two threads own one ticket. */
  ghost predicate Owners<T>(r: Ring<T>) {
    forall t, u :: t in r.threads && u in r.threads && t != u ==> Apart(r.threads[t], r.threads[u])
  }

  ghost predicate Undelivered<T>(r: Ring<T>, h: History<T>) {
    forall t :: t in r.threads && DeqClaim(r.threads[t]).Some? ==> DeqClaim(r.threads[t]).value !in h.delivered
  }

  ghost predicate Deliveries<T>(r: Ring<T>, h: History<T>)
    requires |h.tickets| == r.enqueuePos && r.dequeuePos <= r.enqueuePos
  {
    && (forall p :: p in h.delivered ==> p < r.dequeuePos && h.delivered[p] == h.tickets[p])
    && (forall p: nat :: p < r.dequeuePos ==> p in h.delivered || Claimed(r, p))
  }

  ghost predicate Inv<T>(r: Ring<T>, h: History<T>) {
    && Counters(r, h)
    && Cells(r, h)
    && Locals(r, h)
    && Owners(r)
    && Undelivered(r, h)
    && Deliveries(r, h)
  }

  /** Two tickets of one cell are at least a lap apart. */
  lemma SameCell(c: nat, p: nat, q: nat)
    requires exists k: nat :: c == Pow2(k)
    ensures Index(c, p) == Index(c, q) && p < q ==> p + c <= q
  {
    var k: nat :| c == Pow2(k);
    if Index(c, p) == Index(c, q) && p < q { MaskFar(p, q, k); }
  }

  lemma NextLap(c: nat, p: nat)
    requires exists k: nat :: c == Pow2(k)
    ensures c > 0 && Index(c, p + c) == Index(c, p)
  {
    var k: nat :| c == Pow2(k);
    MaskLap(p, k, k);
  }

  /** Where the sequence of ticket `p`'s cell can stand. */
  lemma CellOfTicket<T>(r: Ring<T>, h: History<T>, p: nat)
    requires Inv(r, h)
    ensures var q := CellAt(r, p).sequence;
            && (p < r.enqueuePos ==> q >= p)
            && (p == r.enqueuePos ==> q <= p)
            && (p == r.enqueuePos && q < p ==> p >= r.capacity && p - r.capacity <= q <= p - r.capacity + 1)
            && (p < r.dequeuePos ==> q >= p + 1)
            && (p == r.dequeuePos ==> q <= p + 1)
            && (p == r.dequeuePos && q < p ==> q + r.capacity == p + 1)
  {
    var c, i := r.capacity, Index(r.capacity, p);
    assert CellOk(r, h, i);
    var q := r.cells[i].sequence;
    SameCell(c, p, q);
    SameCell(c, q, p);
    if q > 0 {
      SameCell(c, p, q - 1);
      SameCell(c, q - 1, p);
    }
  }

  /** Moving thread `t` to `l` costs only the tickets `t` itself held. */
  lemma HoldersAfter<T>(r: Ring<T>, r': Ring<T>, t: nat, l: Local<T>)
    requires t in r.threads && r'.threads == r.threads[t := l]
    ensures forall p: nat :: EnqHeld(r, p) && EnqTicket(r.threads[t]) != Some(p) ==> EnqHeld(r', p)
    ensures forall p: nat :: DeqHeld(r, p) && DeqTicket(r.threads[t]) != Some(p) ==> DeqHeld(r', p)
    ensures forall p: nat :: Claimed(r, p) && DeqClaim(r.threads[t]) != Some(p) ==> Claimed(r', p)
    ensures EnqTicket(l).Some? ==> EnqHeld(r', EnqTicket(l).value)
    ensures DeqTicket(l).Some? ==> DeqHeld(r', DeqTicket(l).value)
    ensures DeqClaim(l).Some? ==> Claimed(r', DeqClaim(l).value)
  {
    assert r'.threads[t] == l;
    forall p: nat | EnqHeld(r, p) && EnqTicket(r.threads[t]) != Some(p) ensures EnqHeld(r', p) {
      var u :| u in r.threads && EnqTicket(r.threads[u]) == Some(p);
      assert u in r'.threads && r'.threads[u] == r.threads[u];
    }
    forall p: nat | DeqHeld(r, p) && DeqTicket(r.threads[t]) != Some(p) ensures DeqHeld(r', p) {
      var u :| u in r.threads && DeqTicket(r.threads[u]) == Some(p);
      assert u in r'.threads && r'.threads[u] == r.threads[u];
    }
    forall p: nat | Claimed(r, p) && DeqClaim(r.threads[t]) != Some(p) ensures Claimed(r', p) {
      var u :| u in r.threads && DeqClaim(r.threads[u]) == Some(p);
      assert u in r'.threads && r'.threads[u] == r.threads[u];
    }
  }

  lemma OwnersAfter<T>(r: Ring<T>, r': Ring<T>, t: nat, l: Local<T>)
    requires Owners(r) && t in r.threads && r'.threads == r.threads[t := l]
    requires forall u :: u in r.threads && u != t ==> Apart(l, r.threads[u])
    ensures Owners(r')
  {
    forall u, w | u in r'.threads && w in r'.threads && u != w
      ensures Apart(r'.threads[u], r'.threads[w])
    {
      assert Apart(r.threads[u], r.threads[w]);
    }
  }

  /** Steps after which thread `t` holds what it held and the shared state is as it was. */
  lemma PlainMove<T>(r: Ring<T>, r': Ring<T>, h: History<T>, t: nat, l: Local<T>)
    requires Inv(r, h) && t in r.threads && LocalOk(r, h, l)
    requires r' == r.(threads := r.threads[t := l], length := r'.length)
    requires EnqTicket(r.threads[t]) == EnqTicket(l)
    requires DeqTicket(r.threads[t]) == DeqTicket(l)
    requires DeqClaim(r.threads[t]) == DeqClaim(l)
    ensures Inv(r', h)
  {
    CellsAfterMove(r, r', h, t, l);
    assert Locals(r', h) by {
      forall u | u in r'.threads ensures LocalOk(r', h, r'.threads[u]) {
        assert u != t ==> LocalOk(r, h, r.threads[u]);
      }
    }
    OwnersAfter(r, r', t, l);
    assert Undelivered(r', h);
    assert Deliveries(r', h) by { HoldersAfter(r, r', t, l); }
  }

  lemma CellsAfterMove<T>(r: Ring<T>, r': Ring<T>, h: History<T>, t: nat, l: Local<T>)
    requires Counters(r, h) && Cells(r, h) && t in r.threads
    requires r' == r.(threads := r.threads[t := l], length := r'.length)
    requires EnqTicket(r.threads[t]) == EnqTicket(l) && DeqTicket(r.threads[t]) == DeqTicket(l)
    ensures Cells(r', h)
  {
    HoldersAfter(r, r', t, l);
    forall i: nat | i < r'.capacity ensures CellOk(r', h, i) {
      assert CellOk(r, h, i);
    }
  }

  lemma LoadSequenceToEnqueue<T>(r: Ring<T>, h: History<T>, t: nat, call: Call<T>)
    requires Inv(r, h) && t in r.threads && r.threads[t].EnqHasPos?
    ensures Inv(Next(r, t, call), Observe(h, r, t))
  {
    var EnqHasPos(v, pos) := r.threads[t];
    CellOfTicket(r, h, pos);
    assert LocalOk(r, h, r.threads[t]);
    PlainMove(r, Next(r, t, call), h, t, EnqHasSeq(v, pos, CellAt(r, pos).sequence));
  }

  lemma LoadSequenceToDequeue<T>(r: Ring<T>, h: History<T>, t: nat, call: Call<T>)
    requires Inv(r, h) && t in r.threads && r.threads[t].DeqHasPos?
    ensures Inv(Next(r, t, call), Observe(h, r, t))
  {
    var DeqHasPos(pos) := r.threads[t];
    CellOfTicket(r, h, pos);
    assert LocalOk(r, h, r.threads[t]);
    PlainMove(r, Next(r, t, call), h, t, DeqHasSeq(pos, CellAt(r, pos).sequence));
  }

  lemma ReadValue<T>(r: Ring<T>, h: History<T>, t: nat, call: Call<T>)
    requires Inv(r, h) && t in r.threads && r.threads[t].DeqWon?
    ensures Inv(Next(r, t, call), Observe(h, r, t))
  {
    assert LocalOk(r, h, r.threads[t]);
    var pos := r.threads[t].pos;
    PlainMove(r, Next(r, t, call), h, t, DeqRead(pos, CellAt(r, pos).value));
  }

  /** What the sequence read at ticket `p`'s cell says about that ticket. */
  lemma CellIsFull<T>(r: Ring<T>, h: History<T>, p: nat)
    requires Counters(r, h) && CellOk(r, h, Index(r.capacity, p)) && CellAt(r, p).sequence == p + 1
    ensures FullOk(r, h, Index(r.capacity, p), p)
  {
    SameCell(r.capacity, p, p + 1);
  }

  lemma CellIsFree<T>(r: Ring<T>, h: History<T>, p: nat)
    requires Counters(r, h) && CellOk(r, h, Index(r.capacity, p)) && CellAt(r, p).sequence == p
    ensures FreeOk(r, p)
  {
    if p > 0 { SameCell(r.capacity, p - 1, p); }
  }

  /** The cell an enqueuer is about to win does not still carry the ticket of a lap ago. */
  lemma NotALapBehind<T>(r: Ring<T>, i: nat, p: nat)
    requires Shaped(r) && r.capacity >= 2 && (exists k: nat :: r.capacity == Pow2(k))
    requires i < r.capacity && FullOf(r, i, p)
    requires CellAt(r, r.enqueuePos).sequence == r.enqueuePos
    ensures p + r.capacity != r.enqueuePos
  {
    NextLap(r.capacity, p);
  }

  lemma CellAfterEnqueueWins<T>(r: Ring<T>, r': Ring<T>, h: History<T>, v: T, i: nat)
    requires Counters(r, h) && i < r.capacity && CellOk(r, h, i)
    requires CellAt(r, r.enqueuePos).sequence == r.enqueuePos
    requires r' == r.(enqueuePos := r.enqueuePos + 1, threads := r'.threads)
    requires EnqHeld(r', r.enqueuePos)
    requires forall p: nat :: EnqHeld(r, p) ==> EnqHeld(r', p)
    requires forall p: nat :: DeqHeld(r, p) ==> DeqHeld(r', p)
    ensures CellOk(r', h.(tickets := h.tickets + [v]), i)
  {
    var q := r.cells[i].sequence;
    if FreeFor(r, i, q) && FreeOk(r, q) {
      assert FreeFor(r', i, q) && FreeOk(r', q);
    } else {
      NotALapBehind(r, i, q - 1);
      assert FullOk(r', h.(tickets := h.tickets + [v]), i, q - 1);
    }
  }

  lemma LocalsAfterEnqueueWins<T>(r: Ring<T>, h: History<T>, t: nat, v: T)
    requires Counters(r, h) && Locals(r, h) && Owners(r) && t in r.threads
    requires CellAt(r, r.enqueuePos).sequence == r.enqueuePos
    ensures var l := EnqWon(v, r.enqueuePos);
            var r' := Goto(r.(enqueuePos := r.enqueuePos + 1), t, l);
            Locals(r', h.(tickets := h.tickets + [v])) && Owners(r')
  {
    var l := EnqWon(v, r.enqueuePos);
    var r', h' := Goto(r.(enqueuePos := r.enqueuePos + 1), t, l), h.(tickets := h.tickets + [v]);
    forall u | u in r'.threads ensures LocalOk(r', h', r'.threads[u]) {
      assert u != t ==> LocalOk(r, h, r.threads[u]);
    }
    forall u | u in r.threads && u != t ensures Apart(l, r.threads[u]) {
      assert LocalOk(r, h, r.threads[u]);
    }
    OwnersAfter(r, r', t, l);
  }

  lemma EnqueueWins<T>(r: Ring<T>, h: History<T>, t: nat, call: Call<T>)
    requires Inv(r, h) && t in r.threads && r.threads[t].EnqHasSeq?
    requires EnqWins(r, r.threads[t].pos, r.threads[t].seqn)
    ensures Inv(Next(r, t, call), Observe(h, r, t))
  {
    var EnqHasSeq(v, pos, seqn) := r.threads[t];
    var r', h' := Goto(r.(enqueuePos := pos + 1), t, EnqWon(v, pos)), h.(tickets := h.tickets + [v]);
    assert Next(r, t, call) == r' && Observe(h, r, t) == h';
    assert LocalOk(r, h, r.threads[t]) && CellOk(r, h, Index(r.capacity, pos));
    CellIsFree(r, h, pos);
    assert Cells(r', h') by {
      HoldersAfter(r, r', t, EnqWon(v, pos));
      forall i: nat | i < r'.capacity ensures CellOk(r', h', i) {
        assert CellOk(r, h, i);
        CellAfterEnqueueWins(r, r', h, v, i);
      }
    }
    LocalsAfterEnqueueWins(r, h, t, v);
    DeliveriesAfterEnqueueWins(r, h, t, v);
  }

  lemma DeliveriesAfterEnqueueWins<T>(r: Ring<T>, h: History<T>, t: nat, v: T)
    requires Counters(r, h) && Undelivered(r, h) && Deliveries(r, h)
    requires t in r.threads && DeqClaim(r.threads[t]).None?
    ensures var r' := Goto(r.(enqueuePos := r.enqueuePos + 1), t, EnqWon(v, r.enqueuePos));
            var h' := h.(tickets := h.tickets + [v]);
            Undelivered(r', h') && Deliveries(r', h')
  {
    var r' := Goto(r.(enqueuePos := r.enqueuePos + 1), t, EnqWon(v, r.enqueuePos));
    HoldersAfter(r, r', t, EnqWon(v, r.enqueuePos));
  }

  lemma CellAfterDequeueWins<T>(r: Ring<T>, r': Ring<T>, h: History<T>, i: nat)
    requires Counters(r, h) && i < r.capacity && CellOk(r, h, i)
    requires CellAt(r, r.dequeuePos).sequence == r.dequeuePos + 1 && r.dequeuePos < r.enqueuePos
    requires r' == r.(dequeuePos := r.dequeuePos + 1, threads := r'.threads)
    requires DeqHeld(r', r.dequeuePos)
    requires forall p: nat :: EnqHeld(r, p) ==> EnqHeld(r', p)
    requires forall p: nat :: DeqHeld(r, p) ==> DeqHeld(r', p)
    ensures CellOk(r', h, i)
  {
    var q := r.cells[i].sequence;
    if FreeFor(r, i, q) && FreeOk(r, q) {
      assert FreeFor(r', i, q) && FreeOk(r', q);
    } else {
      assert FullOk(r', h, i, q - 1);
    }
  }

  /** A dequeuer that sees its ticket's sequence has found the head, published. */
  lemma HeadIsFull<T>(r: Ring<T>, h: History<T>, t: nat)
    requires Inv(r, h) && t in r.threads && r.threads[t].DeqHasSeq?
    requires DeqWins(r, r.threads[t].pos, r.threads[t].seqn)
    ensures r.threads[t].pos == r.dequeuePos < r.enqueuePos
    ensures CellAt(r, r.dequeuePos) == Cell(r.dequeuePos + 1, h.tickets[r.dequeuePos])
  {
    var pos := r.threads[t].pos;
    assert LocalOk(r, h, r.threads[t]) && CellOk(r, h, Index(r.capacity, pos));
    CellIsFull(r, h, pos);
  }

  lemma LocalsAfterDequeueWins<T>(r: Ring<T>, h: History<T>, t: nat)
    requires Counters(r, h) && Locals(r, h) && Owners(r) && Undelivered(r, h) && Deliveries(r, h)
    requires t in r.threads && r.dequeuePos < r.enqueuePos
    requires CellAt(r, r.dequeuePos) == Cell(r.dequeuePos + 1, h.tickets[r.dequeuePos])
    ensures var r' := Goto(r.(dequeuePos := r.dequeuePos + 1), t, DeqWon(r.dequeuePos));
            Locals(r', h) && Owners(r') && Undelivered(r', h)
  {
    var l := DeqWon(r.dequeuePos);
    var r' := Goto(r.(dequeuePos := r.dequeuePos + 1), t, l);
    forall u | u in r'.threads ensures LocalOk(r', h, r'.threads[u]) {
      assert u != t ==> LocalOk(r, h, r.threads[u]);
    }
    forall u | u in r.threads && u != t ensures Apart(l, r.threads[u]) {
      assert LocalOk(r, h, r.threads[u]);
    }
    OwnersAfter(r, r', t, l);
  }

  lemma DequeueWins<T>(r: Ring<T>, h: History<T>, t: nat, call: Call<T>)
    requires Inv(r, h) && t in r.threads && r.threads[t].DeqHasSeq?
    requires DeqWins(r, r.threads[t].pos, r.threads[t].seqn)
    ensures Inv(Next(r, t, call), Observe(h, r, t))
  {
    HeadIsFull(r, h, t);
    var r' := Goto(r.(dequeuePos := r.dequeuePos + 1), t, DeqWon(r.dequeuePos));
    assert Next(r, t, call) == r' && Observe(h, r, t) == h;
    assert Cells(r', h) by {
      HoldersAfter(r, r', t, DeqWon(r.dequeuePos));
      forall i: nat | i < r'.capacity ensures CellOk(r', h, i) {
        assert CellOk(r, h, i);
        CellAfterDequeueWins(r, r', h, i);
      }
    }
    LocalsAfterDequeueWins(r, h, t);
    DeliveriesAfterDequeueWins(r, h, t);
  }

  lemma DeliveriesAfterDequeueWins<T>(r: Ring<T>, h: History<T>, t: nat)
    requires Counters(r, h) && Deliveries(r, h) && r.dequeuePos < r.enqueuePos
    requires t in r.threads && DeqClaim(r.threads[t]).None?
    ensures Deliveries(Goto(r.(dequeuePos := r.dequeuePos + 1), t, DeqWon(r.dequeuePos)), h)
  {
    var r' := Goto(r.(dequeuePos := r.dequeuePos + 1), t, DeqWon(r.dequeuePos));
    HoldersAfter(r, r', t, DeqWon(r.dequeuePos));
  }

  /** The ticket whose cell a thread may write plainly. */
  function HeldTicket<T>(l: Local<T>): Option<nat> {
    if EnqTicket(l).Some? then EnqTicket(l) else DeqTicket(l)
  }

  lemma HoldersDoNotShare<T>(r: Ring<T>, h: History<T>, l: Local<T>, m: Local<T>)
    requires Counters(r, h) && LocalOk(r, h, l) && LocalOk(r, h, m) && Apart(l, m)
    requires HeldTicket(l).Some? && HeldTicket(m).Some?
    ensures Index(r.capacity, l.pos) != Index(r.capacity, m.pos)
  {
    SameCell(r.capacity, l.pos, m.pos);
    SameCell(r.capacity, m.pos, l.pos);
  }

  /** What a thread knows survives any write another thread makes to a cell it holds. */
  lemma StrangerKeeps<T>(r: Ring<T>, r': Ring<T>, h: History<T>, l: Local<T>, m: Local<T>)
    requires Counters(r, h) && LocalOk(r, h, l) && LocalOk(r, h, m) && Apart(l, m)
    requires HeldTicket(l).Some?
    requires var j := Index(r.capacity, l.pos);
             |r'.cells| == |r.cells| && r' == r.(cells := r.cells[j := r'.cells[j]], threads := r'.threads)
    ensures LocalOk(r', h, m)
  {
    if HeldTicket(m).Some? {
      HoldersDoNotShare(r, h, l, m);
    } else if m.EnqHasSeq? || m.DeqHasSeq? {
      SameCell(r.capacity, l.pos, m.pos);
      SameCell(r.capacity, m.pos, l.pos);
    }
  }

  /** A write to the cell of a held ticket leaves every other cell as it was. */
  lemma OtherCellKeeps<T>(r: Ring<T>, r': Ring<T>, h: History<T>, t: nat, l: Local<T>, i: nat)
    requires Counters(r, h) && t in r.threads && i < r.capacity && CellOk(r, h, i)
    requires HeldTicket(r.threads[t]).Some? && i != Index(r.capacity, r.threads[t].pos)
    requires r' == r.(cells := r'.cells, threads := r.threads[t := l])
    requires |r'.cells| == |r.cells| && r'.cells[i] == r.cells[i]
    ensures CellOk(r', h, i)
  {
    HoldersAfter(r, r', t, l);
    var q := r.cells[i].sequence;
    if FreeFor(r, i, q) && FreeOk(r, q) {
      assert FreeFor(r', i, q) && FreeOk(r', q);
    } else {
      assert FullOk(r', h, i, q - 1);
    }
  }

  /** The steps that write a held cell, given what becomes of that cell and of the thread. */
  lemma HeldWrite<T>(r: Ring<T>, r': Ring<T>, h: History<T>, t: nat, l: Local<T>)
    requires Inv(r, h) && t in r.threads && HeldTicket(r.threads[t]).Some?
    requires var j := Index(r.capacity, r.threads[t].pos);
             && |r'.cells| == |r.cells|
             && r' == r.(cells := r.cells[j := r'.cells[j]], threads := r.threads[t := l])
             && CellOk(r', h, j)
    requires LocalOk(r', h, l) && DeqClaim(l) == DeqClaim(r.threads[t])
    requires EnqTicket(l).Some? ==> EnqTicket(l) == EnqTicket(r.threads[t])
    ensures Inv(r', h)
  {
    assert LocalOk(r, h, r.threads[t]);
    assert Cells(r', h) by {
      forall i: nat | i < r'.capacity ensures CellOk(r', h, i) {
        assert CellOk(r, h, i);
        if i != Index(r.capacity, r.threads[t].pos) { OtherCellKeeps(r, r', h, t, l, i); }
      }
    }
    assert Locals(r', h) by {
      forall u | u in r'.threads ensures LocalOk(r', h, r'.threads[u]) {
        if u != t {
          assert LocalOk(r, h, r.threads[u]) && Apart(r.threads[t], r.threads[u]);
          StrangerKeeps(r, r', h, r.threads[t], r.threads[u]);
        }
      }
    }
    assert Owners(r') by {
      forall u | u in r.threads && u != t ensures Apart(l, r.threads[u]) {
        assert Apart(r.threads[t], r.threads[u]);
      }
      OwnersAfter(r, r', t, l);
    }
    HoldersAfter(r, r', t, l);
    assert Undelivered(r', h);
    assert Deliveries(r', h);
  }

  lemma WriteValueCell<T>(r: Ring<T>, r': Ring<T>, h: History<T>, t: nat)
    requires Counters(r, h) && t in r.threads && r.threads[t].EnqWon? && LocalOk(r, h, r.threads[t])
    requires CellOk(r, h, Index(r.capacity, r.threads[t].pos))
    requires r' == NextEnqueue(r, t)
    ensures CellOk(r', h, Index(r.capacity, r.threads[t].pos)) && LocalOk(r', h, r'.threads[t])
  {
    var pos := r.threads[t].pos;
    CellIsFree(r, h, pos);
    HoldersAfter(r, r', t, r'.threads[t]);
    assert FreeFor(r', Index(r.capacity, pos), pos) && FreeOk(r', pos);
  }

  lemma WriteValue<T>(r: Ring<T>, h: History<T>, t: nat, call: Call<T>)
    requires Inv(r, h) && t in r.threads && r.threads[t].EnqWon?
    ensures Inv(Next(r, t, call), Observe(h, r, t))
  {
    var r' := NextEnqueue(r, t);
    assert LocalOk(r, h, r.threads[t]) && CellOk(r, h, Index(r.capacity, r.threads[t].pos));
    WriteValueCell(r, r', h, t);
    HeldWrite(r, r', h, t, r'.threads[t]);
  }

  lemma PublishCell<T>(r: Ring<T>, r': Ring<T>, h: History<T>, t: nat)
    requires Counters(r, h) && t in r.threads && r.threads[t].EnqWrote? && LocalOk(r, h, r.threads[t])
    requires CellOk(r, h, Index(r.capacity, r.threads[t].pos))
    requires r' == NextEnqueue(r, t)
    ensures CellOk(r', h, Index(r.capacity, r.threads[t].pos)) && LocalOk(r', h, r'.threads[t])
  {
    var pos := r.threads[t].pos;
    CellIsFree(r, h, pos);
    assert FullOf(r', Index(r.capacity, pos), pos) && FullOk(r', h, Index(r.capacity, pos), pos);
  }

  lemma Publish<T>(r: Ring<T>, h: History<T>, t: nat, call: Call<T>)
    requires Inv(r, h) && t in r.threads && r.threads[t].EnqWrote?
    ensures Inv(Next(r, t, call), Observe(h, r, t))
  {
    var r' := NextEnqueue(r, t);
    assert LocalOk(r, h, r.threads[t]) && CellOk(r, h, Index(r.capacity, r.threads[t].pos));
    PublishCell(r, r', h, t);
    HeldWrite(r, r', h, t, r'.threads[t]);
  }

  lemma ClearValueCell<T>(r: Ring<T>, r': Ring<T>, h: History<T>, t: nat)
    requires Counters(r, h) && t in r.threads && r.threads[t].DeqRead? && LocalOk(r, h, r.threads[t])
    requires CellOk(r, h, Index(r.capacity, r.threads[t].pos))
    requires r' == NextDequeue(r, t)
    ensures CellOk(r', h, Index(r.capacity, r.threads[t].pos)) && LocalOk(r', h, r'.threads[t])
  {
    var pos := r.threads[t].pos;
    CellIsFull(r, h, pos);
    HoldersAfter(r, r', t, r'.threads[t]);
    assert FullOf(r', Index(r.capacity, pos), pos) && FullOk(r', h, Index(r.capacity, pos), pos);
  }

  lemma ClearValue<T>(r: Ring<T>, h: History<T>, t: nat, call: Call<T>)
    requires Inv(r, h) && t in r.threads && r.threads[t].DeqRead?
    ensures Inv(Next(r, t, call), Observe(h, r, t))
  {
    var r' := NextDequeue(r, t);
    assert LocalOk(r, h, r.threads[t]) && CellOk(r, h, Index(r.capacity, r.threads[t].pos));
    ClearValueCell(r, r', h, t);
    HeldWrite(r, r', h, t, r'.threads[t]);
  }

  lemma ReleaseCell<T>(r: Ring<T>, r': Ring<T>, h: History<T>, t: nat)
    requires Counters(r, h) && t in r.threads && r.threads[t].DeqCleared? && LocalOk(r, h, r.threads[t])
    requires CellOk(r, h, Index(r.capacity, r.threads[t].pos))
    requires r' == NextDequeue(r, t)
    ensures CellOk(r', h, Index(r.capacity, r.threads[t].pos)) && LocalOk(r', h, r'.threads[t])
  {
    var pos := r.threads[t].pos;
    CellIsFull(r, h, pos);
    NextLap(r.capacity, pos);
    assert FreeFor(r', Index(r.capacity, pos), pos + r.capacity) && FreeOk(r', pos + r.capacity);
  }

  lemma Release<T>(r: Ring<T>, h: History<T>, t: nat, call: Call<T>)
    requires Inv(r, h) && t in r.threads && r.threads[t].DeqCleared?
    ensures Inv(Next(r, t, call), Observe(h, r, t))
  {
    var r' := NextDequeue(r, t);
    assert LocalOk(r, h, r.threads[t]) && CellOk(r, h, Index(r.capacity, r.threads[t].pos));
    ReleaseCell(r, r', h, t);
    HeldWrite(r, r', h, t, r'.threads[t]);
  }

  lemma Deliver<T>(r: Ring<T>, h: History<T>, t: nat, call: Call<T>)
    requires Inv(r, h) && t in r.threads && r.threads[t].DeqCounting?
    ensures Inv(Next(r, t, call), Observe(h, r, t))
  {
    var DeqCounting(pos, v) := r.threads[t];
    var l, r', h' := DeqReturned(v, true), Next(r, t, call), Observe(h, r, t);
    assert r' == r.(threads := r.threads[t := l], length := r.length - 1);
    assert h' == h.(delivered := h.delivered[pos := v]);
    hide Next, Observe;
    assert LocalOk(r, h, r.threads[t]);
    assert Locals(r', h') by {
      forall u | u in r'.threads ensures LocalOk(r', h', r'.threads[u]) {
        assert u != t ==> LocalOk(r, h, r.threads[u]);
      }
    }
    CellsAfterMove(r, r', h, t, l);
    CellsIgnoreDeliveries(r', h, h');
    OwnersAfter(r, r', t, l);
    DeliveriesAfterDelivery(r, h, t, pos, v);
  }

  lemma CellsIgnoreDeliveries<T>(r: Ring<T>, h: History<T>, h': History<T>)
    requires Shaped(r) && |h.tickets| == r.enqueuePos && h'.tickets == h.tickets && Cells(r, h)
    ensures Cells(r, h')
  {
    forall i: nat | i < r.capacity ensures CellOk(r, h', i) {
      assert CellOk(r, h, i);
    }
  }

  lemma DeliveriesAfterDelivery<T>(r: Ring<T>, h: History<T>, t: nat, pos: nat, v: T)
    requires Counters(r, h) && Owners(r) && Undelivered(r, h) && Deliveries(r, h)
    requires t in r.threads && r.threads[t] == DeqCounting(pos, v) && pos < r.dequeuePos && v == h.tickets[pos]
    ensures var r' := r.(threads := r.threads[t := DeqReturned(v, true)], length := r.length - 1);
            var h' := h.(delivered := h.delivered[pos := v]);
            Undelivered(r', h') && Deliveries(r', h')
  {
    var r' := r.(threads := r.threads[t := DeqReturned(v, true)], length := r.length - 1);
    HoldersAfter(r, r', t, DeqReturned(v, true));
    var h' := h.(delivered := h.delivered[pos := v]);
    forall u | u in r'.threads && DeqClaim(r'.threads[u]).Some?
      ensures DeqClaim(r'.threads[u]).value !in h'.delivered
    {
      assert Apart(r.threads[u], r.threads[t]);
    }
  }

  lemma EnqueueStepKeeps<T>(r: Ring<T>, h: History<T>, t: nat, call: Call<T>)
    requires Inv(r, h) && t in r.threads && EnqueueStep?(r.threads[t])
    ensures Inv(Next(r, t, call), Observe(h, r, t))
  {
    var l := r.threads[t];
    if l.EnqHasPos? {
      LoadSequenceToEnqueue(r, h, t, call);
    } else if l.EnqHasSeq? && EnqWins(r, l.pos, l.seqn) {
      EnqueueWins(r, h, t, call);
    } else if l.EnqWon? {
      WriteValue(r, h, t, call);
    } else if l.EnqWrote? {
      Publish(r, h, t, call);
    } else {
      PlainMove(r, Next(r, t, call), h, t, Next(r, t, call).threads[t]);
    }
  }

  lemma DequeueStepKeeps<T>(r: Ring<T>, h: History<T>, t: nat, call: Call<T>)
    requires Inv(r, h) && t in r.threads && !EnqueueStep?(r.threads[t])
    ensures Inv(Next(r, t, call), Observe(h, r, t))
  {
    var l := r.threads[t];
    if l.DeqHasPos? {
      LoadSequenceToDequeue(r, h, t, call);
    } else if l.DeqHasSeq? && DeqWins(r, l.pos, l.seqn) {
      DequeueWins(r, h, t, call);
    } else if l.DeqWon? {
      ReadValue(r, h, t, call);
    } else if l.DeqRead? {
      ClearValue(r, h, t, call);
    } else if l.DeqCleared? {
      Release(r, h, t, call);
    } else if l.DeqCounting? {
      Deliver(r, h, t, call);
    } else {
      PlainMove(r, Next(r, t, call), h, t, Next(r, t, call).threads[t]);
    }
  }

  /** Every step of every thread keeps the invariant. */
  lemma StepKeeps<T>(r: Ring<T>, h: History<T>, t: nat, call: Call<T>)
    requires Inv(r, h)
    ensures Inv(Next(r, t, call), Observe(h, r, t))
  {
    if t in r.threads {
      if EnqueueStep?(r.threads[t]) {
        EnqueueStepKeeps(r, h, t, call);
      } else {
        DequeueStepKeeps(r, h, t, call);
      }
    }
  }

  lemma NewRingOk<T>(k: nat, zero: T, threads: set<nat>)
    requires k >= 1
    ensures Inv(NewRing(Unbounded, k, zero, threads), History([], map[]))
  {
    var r, h := NewRing(Unbounded, k, zero, threads), History([], map[]);
    assert r.capacity == 2 * Pow2(k - 1);
    forall i: nat | i < r.capacity ensures CellOk(r, h, i) {
      MaskSmall(i, k);
      assert FreeFor(r, i, i) && FreeOk(r, i);
    }
  }

  /** Over every schedule of any set of threads, the ring keeps its invariant. */
  lemma {:induction false} AlwaysInv<T>(k: nat, zero: T, threads: set<nat>, sched: Schedule<T>)
    requires k >= 1
    ensures var r := NewRing(Unbounded, k, zero, threads);
            Inv(Exec(r, sched), Record(r, sched))
    decreases |sched|
  {
    var r := NewRing(Unbounded, k, zero, threads);
    if sched == [] {
      NewRingOk(k, zero, threads);
    } else {
      var n := |sched| - 1;
      AlwaysInv(k, zero, threads, sched[..n]);
      StepKeeps(Exec(r, sched[..n]), Record(r, sched[..n]), sched[n].0, sched[n].1);
    }
  }
}
