/** The ring with 64-bit counters does, across wrap-around, what the ring with unbounded tickets
    does: the code's arithmetic is the tickets' arithmetic seen modulo 2^64. */
module RingWrap {
  import opened RingFifo
  import opened RingProgress
  import opened RingProtocol
  import opened RingSafety
  import opened Words

  function W(x: nat): nat { x % TWO_64 }

  function WrapCell<T>(c: Cell<T>): Cell<T> { c.(sequence := W(c.sequence)) }

  function WrapLocal<T>(l: Local<T>): Local<T> {
    match l
    case EnqHasPos(v, pos) => EnqHasPos(v, W(pos))
    case EnqHasSeq(v, pos, seqn) => EnqHasSeq(v, W(pos), W(seqn))
    case EnqWon(v, pos) => EnqWon(v, W(pos))
    case EnqWrote(v, pos) => EnqWrote(v, W(pos))
    case EnqCounting(v, pos) => EnqCounting(v, W(pos))
    case DeqHasPos(pos) => DeqHasPos(W(pos))
    case DeqHasSeq(pos, seqn) => DeqHasSeq(W(pos), W(seqn))
    case DeqWon(pos) => DeqWon(W(pos))
    case DeqRead(pos, v) => DeqRead(W(pos), v)
    case DeqCleared(pos, v) => DeqCleared(W(pos), v)
    case DeqCounting(pos, v) => DeqCounting(W(pos), v)
    case _ => l
  }

  /** The machine words behind an unbounded ring. */
  function Wrap<T>(r: Ring<T>): (w: Ring<T>)
    ensures Shaped(r) ==> Shaped(w)
  {
    Ring(Bits64, r.capacity, r.zero,
         seq(|r.cells|, i requires 0 <= i < |r.cells| => WrapCell(r.cells[i])),
         W(r.enqueuePos), W(r.dequeuePos), AsInt64(r.length),
         map t | t in r.threads :: WrapLocal(r.threads[t]))
  }

  /** The ring of the code: a power of two that fits a machine word. */
  ghost predicate Fits<T>(r: Ring<T>) {
    Shaped(r) && r.width.Unbounded? && exists k: nat :: k <= 63 && r.capacity == Pow2(k)
  }

  datatype Verdict = Wins | GivesUp | Retries

  /** What a thread does that is `dif` away from its ticket, the counter being where it was or not. */
  function Judge(dif: int, current: bool): Verdict {
    if dif == 0 && current then Wins else if dif < 0 then GivesUp else Retries
  }

  /** The words of a comparison mislead a thread that is `dif` away from its ticket and `lag` tickets
      behind the counter: it wins where the tickets retry, or gives up where they retry. */
  predicate MisledBy(dif: int, lag: nat) {
    || (dif == 0 && lag > 0 && lag % TWO_64 == 0)
    || (dif > 0 && (dif % TWO_64 >= TWO_63 || (dif % TWO_64 == 0 && lag % TWO_64 == 0)))
  }

  /** Where a thread that compares can stand: not ahead of the counter, and its sequence at most a lap
      behind. */
  predicate Behind<T>(r: Ring<T>, l: Local<T>) {
    match l
    case EnqHasSeq(_, pos, seqn) => pos <= r.enqueuePos && -TWO_63 <= seqn - pos
    case DeqHasSeq(pos, seqn) => pos <= r.dequeuePos && -TWO_63 <= seqn - (pos + 1)
    case _ => true
  }

  predicate Misled<T>(r: Ring<T>, l: Local<T>)
    requires Behind(r, l)
  {
    match l
    case EnqHasSeq(_, pos, seqn) => MisledBy(seqn - pos, r.enqueuePos - pos)
    case DeqHasSeq(pos, seqn) => MisledBy(seqn - (pos + 1), r.dequeuePos - pos)
    case _ => false
  }

  lemma WrapGoto<T>(r: Ring<T>, t: nat, l: Local<T>)
    ensures Wrap(Goto(r, t, l)) == Goto(Wrap(r), t, WrapLocal(l))
  {
  }

  lemma WrapIndex(c: nat, pos: nat)
    requires exists k: nat :: k <= 63 && c == Pow2(k)
    ensures c > 0 && Index(c, W(pos)) == Index(c, pos)
  {
    var k: nat :| k <= 63 && c == Pow2(k);
    MaskAfterWrap(pos, k);
  }

  lemma WrapPut<T>(r: Ring<T>, pos: nat, c: Cell<T>)
    requires Fits(r)
    ensures Wrap(Put(r, pos, c)) == Put(Wrap(r), W(pos), WrapCell(c))
  {
    WrapIndex(r.capacity, pos);
  }

  lemma WrapCellAt<T>(r: Ring<T>, pos: nat)
    requires Fits(r)
    ensures CellAt(Wrap(r), W(pos)) == WrapCell(CellAt(r, pos))
  {
    WrapIndex(r.capacity, pos);
  }

  lemma WrapPlus(a: nat, n: nat)
    ensures Norm(Bits64, W(a) + n) == W(a + n)
  {
  }

  lemma SameWord(a: nat, b: nat)
    requires a <= b
    ensures W(a) == W(b) <==> (b - a) % TWO_64 == 0
  {
  }

  /** What the comparisons of the code come down to. */
  lemma WordDif(a: nat, b: nat)
    ensures Dif(Bits64, W(a), W(b)) == AsInt64(a - b)
  {
    AsInt64Of(a);
    AsInt64Of(b);
    AsInt64Dif(a, b);
  }

  lemma JudgeWords(dif: int, lag: nat)
    requires -TWO_63 <= dif
    ensures Judge(AsInt64(dif), lag % TWO_64 == 0) == Judge(dif, lag == 0) <==> !MisledBy(dif, lag)
  {
  }

  /** Where a comparison leaves its ring. */
  function EnqSettled<T>(r: Ring<T>, t: nat, v: T, pos: nat, verdict: Verdict): Ring<T> {
    match verdict
    case Wins => Goto(r.(enqueuePos := Norm(r.width, pos + 1)), t, EnqWon(v, pos))
    case GivesUp => Goto(r, t, EnqReturned(false))
    case Retries => Goto(r, t, EnqStart(v))
  }

  function DeqSettled<T>(r: Ring<T>, t: nat, pos: nat, verdict: Verdict): Ring<T> {
    match verdict
    case Wins => Goto(r.(dequeuePos := Norm(r.width, pos + 1)), t, DeqWon(pos))
    case GivesUp => Goto(r, t, DeqReturned(r.zero, false))
    case Retries => Goto(r, t, DeqStart)
  }

  lemma Settles<T>(r: Ring<T>, t: nat)
    requires Shaped(r) && t in r.threads
    ensures r.threads[t].EnqHasSeq? ==>
              var EnqHasSeq(v, pos, seqn) := r.threads[t];
              NextEnqueue(r, t) == EnqSettled(r, t, v, pos, Judge(EnqDif(r, pos, seqn), r.enqueuePos == pos))
    ensures r.threads[t].DeqHasSeq? ==>
              var DeqHasSeq(pos, seqn) := r.threads[t];
              NextDequeue(r, t) == DeqSettled(r, t, pos, Judge(DeqDif(r, pos, seqn), r.dequeuePos == pos))
  {
    hide Goto, Dif;
  }

  lemma WrapSettled<T>(r: Ring<T>, t: nat, v: T, pos: nat, verdict: Verdict)
    requires r.width.Unbounded?
    ensures Wrap(EnqSettled(r, t, v, pos, verdict)) == EnqSettled(Wrap(r), t, v, W(pos), verdict)
    ensures Wrap(DeqSettled(r, t, pos, verdict)) == DeqSettled(Wrap(r), t, W(pos), verdict)
  {
    hide Goto, W;
    WrapPlus(pos, 1);
    if verdict.Wins? {
      WrapGoto(r.(enqueuePos := pos + 1), t, EnqWon(v, pos));
      WrapGoto(r.(dequeuePos := pos + 1), t, DeqWon(pos));
    } else if verdict.GivesUp? {
      WrapGoto<T>(r, t, EnqReturned(false));
      WrapGoto(r, t, DeqReturned(r.zero, false));
    } else {
      WrapGoto(r, t, EnqStart(v));
      WrapGoto(r, t, DeqStart);
    }
  }

  lemma SettledApart<T>(r: Ring<T>, t: nat, v: T, pos: nat, a: Verdict, b: Verdict)
    ensures EnqSettled(r, t, v, pos, a) == EnqSettled(r, t, v, pos, b) <==> a == b
    ensures DeqSettled(r, t, pos, a) == DeqSettled(r, t, pos, b) <==> a == b
  {
    assert EnqSettled(r, t, v, pos, a).threads[t] == EnqSettled(r, t, v, pos, b).threads[t] <==> a == b;
    assert DeqSettled(r, t, pos, a).threads[t] == DeqSettled(r, t, pos, b).threads[t] <==> a == b;
  }

  lemma WrapCompareToEnqueue<T>(r: Ring<T>, t: nat)
    requires Fits(r) && t in r.threads && r.threads[t].EnqHasSeq? && Behind(r, r.threads[t])
    ensures NextEnqueue(Wrap(r), t) == Wrap(NextEnqueue(r, t)) <==> !Misled(r, r.threads[t])
  {
    hide AsInt64, MisledBy, W, EnqSettled, DeqSettled, Judge, NextEnqueue;
    var EnqHasSeq(v, pos, seqn) := r.threads[t];
    var a, b := Judge(EnqDif(r, pos, seqn), r.enqueuePos == pos),
                Judge(EnqDif(Wrap(r), W(pos), W(seqn)), W(r.enqueuePos) == W(pos));
    Settles(r, t);
    Settles(Wrap(r), t);
    WrapSettled(r, t, v, pos, a);
    SettledApart(Wrap(r), t, v, W(pos), a, b);
    WordDif(seqn, pos);
    SameWord(pos, r.enqueuePos);
    JudgeWords(seqn - pos, r.enqueuePos - pos);
  }

  lemma WrapCompareToDequeue<T>(r: Ring<T>, t: nat)
    requires Fits(r) && t in r.threads && r.threads[t].DeqHasSeq? && Behind(r, r.threads[t])
    ensures NextDequeue(Wrap(r), t) == Wrap(NextDequeue(r, t)) <==> !Misled(r, r.threads[t])
  {
    hide AsInt64, MisledBy, W, EnqSettled, DeqSettled, Judge, NextDequeue;
    var DeqHasSeq(pos, seqn) := r.threads[t];
    var a, b := Judge(DeqDif(r, pos, seqn), r.dequeuePos == pos),
                Judge(DeqDif(Wrap(r), W(pos), W(seqn)), W(r.dequeuePos) == W(pos));
    Settles(r, t);
    Settles(Wrap(r), t);
    WrapSettled(r, t, r.zero, pos, a);
    SettledApart(Wrap(r), t, r.zero, W(pos), a, b);
    WrapPlus(pos, 1);
    WordDif(seqn, pos + 1);
    SameWord(pos, r.dequeuePos);
    JudgeWords(seqn - (pos + 1), r.dequeuePos - pos);
  }

  /** A write to a cell, with the move that follows it, wraps as one. */
  lemma WrapWrite<T>(r: Ring<T>, t: nat, pos: nat, c: Cell<T>, l: Local<T>)
    requires Fits(r)
    ensures Wrap(Goto(Put(r, pos, c), t, l)) == Goto(Put(Wrap(r), W(pos), WrapCell(c)), t, WrapLocal(l))
  {
    WrapPut(r, pos, c);
    WrapGoto(Put(r, pos, c), t, l);
  }

  lemma WrapEnqueueWrite<T>(r: Ring<T>, t: nat)
    requires Fits(r) && t in r.threads && r.threads[t].EnqWon?
    ensures NextEnqueue(Wrap(r), t) == Wrap(NextEnqueue(r, t))
  {
    var EnqWon(v, pos) := r.threads[t];
    WrapCellAt(r, pos);
    WrapWrite(r, t, pos, CellAt(r, pos).(value := v), EnqWrote(v, pos));
  }

  lemma WrapPublish<T>(r: Ring<T>, t: nat)
    requires Fits(r) && t in r.threads && r.threads[t].EnqWrote?
    ensures NextEnqueue(Wrap(r), t) == Wrap(NextEnqueue(r, t))
  {
    var EnqWrote(v, pos) := r.threads[t];
    WrapCellAt(r, pos);
    WrapPlus(pos, 1);
    WrapWrite(r, t, pos, CellAt(r, pos).(sequence := pos + 1), EnqCounting(v, pos));
  }

  lemma WrapDequeueClear<T>(r: Ring<T>, t: nat)
    requires Fits(r) && t in r.threads && r.threads[t].DeqRead?
    ensures NextDequeue(Wrap(r), t) == Wrap(NextDequeue(r, t))
  {
    var DeqRead(pos, v) := r.threads[t];
    WrapCellAt(r, pos);
    WrapWrite(r, t, pos, CellAt(r, pos).(value := r.zero), DeqCleared(pos, v));
  }

  lemma WrapRelease<T>(r: Ring<T>, t: nat)
    requires Fits(r) && t in r.threads && r.threads[t].DeqCleared?
    ensures NextDequeue(Wrap(r), t) == Wrap(NextDequeue(r, t))
  {
    var DeqCleared(pos, v) := r.threads[t];
    WrapCellAt(r, pos);
    WrapPlus(pos, r.capacity);
    WrapWrite(r, t, pos, CellAt(r, pos).(sequence := pos + r.capacity), DeqCounting(pos, v));
  }

  lemma WrapLoadPos<T>(r: Ring<T>, t: nat, call: Call<T>)
    requires Fits(r) && t in r.threads && (r.threads[t].EnqStart? || r.threads[t].DeqStart?)
    ensures Next(Wrap(r), t, call) == Wrap(Next(r, t, call))
  {
    if r.threads[t].EnqStart? {
      WrapGoto(r, t, EnqHasPos(r.threads[t].v, r.enqueuePos));
    } else {
      WrapGoto(r, t, DeqHasPos(r.dequeuePos));
    }
  }

  lemma WrapLoadSequence<T>(r: Ring<T>, t: nat, call: Call<T>)
    requires Fits(r) && t in r.threads && (r.threads[t].EnqHasPos? || r.threads[t].DeqHasPos?)
    ensures Next(Wrap(r), t, call) == Wrap(Next(r, t, call))
  {
    var pos := r.threads[t].pos;
    WrapCellAt(r, pos);
    if r.threads[t].EnqHasPos? {
      WrapGoto(r, t, EnqHasSeq(r.threads[t].v, pos, CellAt(r, pos).sequence));
    } else {
      WrapGoto(r, t, DeqHasSeq(pos, CellAt(r, pos).sequence));
    }
  }

  lemma WrapCounting<T>(r: Ring<T>, t: nat, call: Call<T>)
    requires Fits(r) && t in r.threads && (r.threads[t].EnqCounting? || r.threads[t].DeqCounting?)
    ensures Next(Wrap(r), t, call) == Wrap(Next(r, t, call))
  {
    AsInt64Sum(r.length, 1);
    AsInt64Sum(r.length, -1);
    if r.threads[t].EnqCounting? {
      WrapGoto(r.(length := r.length + 1), t, EnqReturned(true));
    } else {
      WrapGoto(r.(length := r.length - 1), t, DeqReturned(r.threads[t].v, true));
    }
  }

  lemma WrapReadValue<T>(r: Ring<T>, t: nat)
    requires Fits(r) && t in r.threads && r.threads[t].DeqWon?
    ensures NextDequeue(Wrap(r), t) == Wrap(NextDequeue(r, t))
  {
    var pos := r.threads[t].pos;
    WrapCellAt(r, pos);
    WrapGoto(r, t, DeqRead(pos, CellAt(r, pos).value));
  }

  /** One step with 64-bit words is the wrapped step of the unbounded ring, exactly when the thread is
      not misled. */
  lemma StepCommutesWithWrap<T>(r: Ring<T>, t: nat, call: Call<T>)
    requires Fits(r) && (t in r.threads ==> Behind(r, r.threads[t]))
    ensures Next(Wrap(r), t, call) == Wrap(Next(r, t, call)) <==> (t in r.threads ==> !Misled(r, r.threads[t]))
  {
    if t in r.threads {
      match r.threads[t]
      case EnqStart(_) => WrapLoadPos(r, t, call);
      case EnqHasPos(_, _) => WrapLoadSequence(r, t, call);
      case EnqHasSeq(_, _, _) => WrapCompareToEnqueue(r, t);
      case EnqWon(_, _) => WrapEnqueueWrite(r, t);
      case EnqWrote(_, _) => WrapPublish(r, t);
      case EnqCounting(_, _) => WrapCounting(r, t, call);
      case DeqStart => WrapLoadPos(r, t, call);
      case DeqHasPos(_) => WrapLoadSequence(r, t, call);
      case DeqHasSeq(_, _) => WrapCompareToDequeue(r, t);
      case DeqWon(_) => WrapReadValue(r, t);
      case DeqRead(_, _) => WrapDequeueClear(r, t);
      case DeqCleared(_, _) => WrapRelease(r, t);
      case DeqCounting(_, _) => WrapCounting(r, t, call);
      case Idle => WrapCallStarts(r, t, call);
      case EnqReturned(_) => WrapCallStarts(r, t, call);
      case DeqReturned(_, _) => WrapCallStarts(r, t, call);
    }
  }

  lemma WrapCallStarts<T>(r: Ring<T>, t: nat, call: Call<T>)
    requires Fits(r) && t in r.threads
    requires r.threads[t].Idle? || r.threads[t].EnqReturned? || r.threads[t].DeqReturned?
    ensures Next(Wrap(r), t, call) == Wrap(Next(r, t, call))
  {
    WrapGoto(r, t, if call.CallEnqueue? then EnqStart(call.v) else DeqStart);
  }

  /** How far a loaded sequence can be from the ticket it is compared with. */
  predicate SeqnNear<T>(r: Ring<T>, l: Local<T>) {
    match l
    case EnqHasPos(_, pos) => pos <= r.enqueuePos
    case DeqHasPos(pos) => pos <= r.dequeuePos
    case EnqHasSeq(_, pos, seqn) => pos <= r.enqueuePos && pos <= seqn + r.capacity && seqn < r.enqueuePos + r.capacity
    case DeqHasSeq(pos, seqn) => pos <= r.dequeuePos && pos < seqn + r.capacity && seqn < r.enqueuePos + r.capacity
    case _ => true
  }

  predicate AllNear<T>(r: Ring<T>) {
    forall t :: t in r.threads ==> SeqnNear(r, r.threads[t])
  }

  lemma SeqnOfCell<T>(r: Ring<T>, h: History<T>, pos: nat)
    requires Inv(r, h) && pos <= r.enqueuePos
    ensures var q := CellAt(r, pos).sequence;
            pos <= q + r.capacity && q < r.enqueuePos + r.capacity && (pos <= r.dequeuePos ==> pos < q + r.capacity)
  {
    CellOfTicket(r, h, pos);
    assert CellOk(r, h, Index(r.capacity, pos));
  }

  lemma {:induction false} SeqnAlwaysNear<T>(k: nat, zero: T, threads: set<nat>, sched: Schedule<T>)
    requires k >= 1
    ensures AllNear(Exec(NewRing(Unbounded, k, zero, threads), sched))
    decreases |sched|
  {
    if sched != [] {
      var n := |sched| - 1;
      SeqnAlwaysNear(k, zero, threads, sched[..n]);
      AlwaysInv(k, zero, threads, sched[..n]);
      var r0 := NewRing(Unbounded, k, zero, threads);
      SeqnStep(Exec(r0, sched[..n]), Record(r0, sched[..n]), sched[n].0, sched[n].1);
    }
  }

  lemma SeqnStep<T>(r: Ring<T>, h: History<T>, t: nat, call: Call<T>)
    requires Inv(r, h) && AllNear(r)
    ensures AllNear(Next(r, t, call))
  {
    if t in r.threads {
      if r.threads[t].EnqHasPos? || r.threads[t].DeqHasPos? {
        SeqnOfCell(r, h, r.threads[t].pos);
      }
      NearAfterStep(r, t, call);
    }
  }

  /** A thread that is about to load finds a sequence near its ticket. */
  predicate CellNear<T>(r: Ring<T>, l: Local<T>)
    requires Shaped(r)
  {
    l.EnqHasPos? || l.DeqHasPos? ==>
      var q := CellAt(r, l.pos).sequence;
      && l.pos + (if l.DeqHasPos? then 1 else 0) <= q + r.capacity
      && q < r.enqueuePos + r.capacity
  }

  lemma OwnNearAfterStep<T>(r: Ring<T>, t: nat, call: Call<T>)
    requires Shaped(r) && r.width.Unbounded? && t in r.threads
    requires SeqnNear(r, r.threads[t]) && CellNear(r, r.threads[t])
    ensures SeqnNear(Next(r, t, call), Next(r, t, call).threads[t])
  {
    var l := r.threads[t];
    if l.Idle? || l.EnqReturned? || l.DeqReturned? {
    } else if EnqueueStep?(l) {
      assert Next(r, t, call) == NextEnqueue(r, t);
    } else {
      assert Next(r, t, call) == NextDequeue(r, t);
    }
  }

  lemma CountersGrow<T>(r: Ring<T>, t: nat, call: Call<T>)
    requires Shaped(r) && r.width.Unbounded?
    ensures var r' := Next(r, t, call);
            r'.enqueuePos >= r.enqueuePos && r'.dequeuePos >= r.dequeuePos && r'.capacity == r.capacity
    ensures forall u :: u in r.threads && u != t ==>
                          u in Next(r, t, call).threads && Next(r, t, call).threads[u] == r.threads[u]
  {
  }

  lemma NearAfterStep<T>(r: Ring<T>, t: nat, call: Call<T>)
    requires Shaped(r) && r.width.Unbounded? && AllNear(r) && t in r.threads && CellNear(r, r.threads[t])
    ensures AllNear(Next(r, t, call))
  {
    OwnNearAfterStep(r, t, call);
    CountersGrow(r, t, call);
    StillNear(r, Next(r, t, call), t);
  }

  lemma StillNear<T>(r: Ring<T>, r': Ring<T>, t: nat)
    requires AllNear(r) && r'.threads.Keys == r.threads.Keys
    requires r'.enqueuePos >= r.enqueuePos && r'.dequeuePos >= r.dequeuePos && r'.capacity == r.capacity
    requires t in r'.threads ==> SeqnNear(r', r'.threads[t])
    requires forall u :: u in r.threads && u != t ==> r'.threads[u] == r.threads[u]
    ensures AllNear(r')
  {
    forall u | u in r'.threads ensures SeqnNear(r', r'.threads[u]) {
      if u != t { assert SeqnNear(r, r.threads[u]); }
    }
  }

  lemma NearIsBehind<T>(r: Ring<T>)
    requires Fits(r) && AllNear(r)
    ensures forall t :: t in r.threads ==> Behind(r, r.threads[t])
  {
    var k: nat :| k <= 63 && r.capacity == Pow2(k);
    CapacityFits(k);
    forall t | t in r.threads ensures Behind(r, r.threads[t]) {
      assert SeqnNear(r, r.threads[t]);
    }
  }

  /** In every reachable state every thread stands behind its counter. */
  lemma AlwaysBehind<T>(k: nat, zero: T, threads: set<nat>, sched: Schedule<T>)
    requires 1 <= k <= 63
    ensures var r := Exec(NewRing(Unbounded, k, zero, threads), sched);
            && Fits(r) && AllNear(r) && r.dequeuePos <= r.enqueuePos
            && (forall t :: t in r.threads ==> Behind(r, r.threads[t]))
  {
    SeqnAlwaysNear(k, zero, threads, sched);
    AlwaysInv(k, zero, threads, sched);
    SameThreads(NewRing(Unbounded, k, zero, threads), sched);
    NearIsBehind(Exec(NewRing(Unbounded, k, zero, threads), sched));
  }

  ghost predicate MisledAt<T>(r0: Ring<T>, sched: Schedule<T>, n: nat)
    requires Shaped(r0) && n < |sched|
  {
    var r, t := At(r0, sched, n), sched[n].0;
    t in r.threads && Behind(r, r.threads[t]) && Misled(r, r.threads[t])
  }

  ghost predicate NeverMisled<T>(r0: Ring<T>, sched: Schedule<T>)
    requires Shaped(r0)
  {
    forall n: nat :: n < |sched| ==> !MisledAt(r0, sched, n)
  }

  /** The words are those of the tickets after each of the first `n` steps. */
  ghost predicate Follows<T>(w0: Ring<T>, r0: Ring<T>, sched: Schedule<T>, n: nat)
    requires Shaped(w0) && Shaped(r0) && n <= |sched|
  {
    At(w0, sched, n) == Wrap(At(r0, sched, n))
  }

  lemma FollowsNext<T>(k: nat, zero: T, threads: set<nat>, sched: Schedule<T>, n: nat)
    requires 1 <= k <= 63 && n < |sched|
    requires Follows(NewRing(Bits64, k, zero, threads), NewRing(Unbounded, k, zero, threads), sched, n)
    ensures var r0, w0 := NewRing(Unbounded, k, zero, threads), NewRing(Bits64, k, zero, threads);
            Follows(w0, r0, sched, n + 1) <==> !MisledAt(r0, sched, n)
  {
    hide Wrap, Next, Misled, Behind, AllNear, Fits;
    var r0, w0 := NewRing(Unbounded, k, zero, threads), NewRing(Bits64, k, zero, threads);
    AlwaysBehind(k, zero, threads, sched[..n]);
    AtStep(r0, sched, n);
    AtStep(w0, sched, n);
    StepCommutesWithWrap(At(r0, sched, n), sched[n].0, sched[n].1);
  }

  lemma {:induction false} FollowsUntil<T>(k: nat, zero: T, threads: set<nat>, sched: Schedule<T>, n: nat)
    requires 1 <= k <= 63 && n <= |sched| && NeverMisled(NewRing(Unbounded, k, zero, threads), sched)
    ensures Follows(NewRing(Bits64, k, zero, threads), NewRing(Unbounded, k, zero, threads), sched, n)
  {
    hide MisledAt;
    if n == 0 {
      NewRingWraps(k, zero, threads);
    } else {
      FollowsUntil(k, zero, threads, sched, n - 1);
      FollowsNext(k, zero, threads, sched, n - 1);
    }
  }

  /** Under any schedule, the 64-bit ring goes wherever the unbounded ring goes, step by step and
      however often the counters wrap, if and only if no step is one of a misled thread. */
  lemma SimulatesExactlyWhenNotMisled<T>(k: nat, zero: T, threads: set<nat>, sched: Schedule<T>)
    requires 1 <= k <= 63
    ensures var r0, w0 := NewRing(Unbounded, k, zero, threads), NewRing(Bits64, k, zero, threads);
            (forall n: nat :: n <= |sched| ==> Follows(w0, r0, sched, n)) <==> NeverMisled(r0, sched)
  {
    hide Follows, MisledAt;
    var r0, w0 := NewRing(Unbounded, k, zero, threads), NewRing(Bits64, k, zero, threads);
    if NeverMisled(r0, sched) {
      forall n: nat | n <= |sched| ensures Follows(w0, r0, sched, n) {
        FollowsUntil(k, zero, threads, sched, n);
      }
    }
    if forall n: nat :: n <= |sched| ==> Follows(w0, r0, sched, n) {
      forall n: nat | n < |sched| ensures !MisledAt(r0, sched, n) {
        assert Follows(w0, r0, sched, n + 1);
        FollowsNext(k, zero, threads, sched, n);
      }
    }
  }

  /** No thread that is about to compare has been overtaken by 2^63 - capacity tickets. */
  ghost predicate NeverFarOvertaken<T>(r0: Ring<T>, sched: Schedule<T>)
    requires Shaped(r0)
  {
    forall n: nat {:trigger sched[n]} :: n < |sched| ==>
      var r := At(r0, sched, n);
      var t := sched[n].0;
      t in r.threads && Loaded(r.threads[t]) ==> r.enqueuePos + r.capacity <= r.threads[t].pos + TWO_63
  }

  lemma NotFarIsNotMisled<T>(r: Ring<T>, t: nat)
    requires t in r.threads && Behind(r, r.threads[t]) && SeqnNear(r, r.threads[t]) && r.dequeuePos <= r.enqueuePos
    requires Loaded(r.threads[t]) ==> r.enqueuePos + r.capacity <= r.threads[t].pos + TWO_63
    ensures !Misled(r, r.threads[t])
  {
  }

  /** It is enough that no thread sleeps through 2^63 tickets in the middle of one attempt. */
  lemma WrappedRingSimulates<T>(k: nat, zero: T, threads: set<nat>, sched: Schedule<T>)
    requires 1 <= k <= 63
    requires NeverFarOvertaken(NewRing(Unbounded, k, zero, threads), sched)
    ensures Exec(NewRing(Bits64, k, zero, threads), sched) == Wrap(Exec(NewRing(Unbounded, k, zero, threads), sched))
  {
    hide Wrap, Exec, Misled, Behind;
    var r0 := NewRing(Unbounded, k, zero, threads);
    forall n: nat | n < |sched| ensures !MisledAt(r0, sched, n) {
      AlwaysBehind(k, zero, threads, sched[..n]);
      if sched[n].0 in At(r0, sched, n).threads { NotFarIsNotMisled(At(r0, sched, n), sched[n].0); }
    }
    FollowsUntil(k, zero, threads, sched, |sched|);
    assert sched[..|sched|] == sched;
  }

  lemma NewRingWraps<T>(k: nat, zero: T, threads: set<nat>)
    requires 1 <= k <= 63
    ensures Wrap(NewRing(Unbounded, k, zero, threads)) == NewRing(Bits64, k, zero, threads)
  {
    CapacityFits(k);
    var a, b := Wrap(NewRing(Unbounded, k, zero, threads)), NewRing(Bits64, k, zero, threads);
    assert a.cells == b.cells;
    assert a.threads == b.threads;
  }

  lemma CapacityFits(k: nat)
    requires k <= 63
    ensures Pow2(k) <= TWO_63
  {
    Pow2Grows(k, 63);
    Pow2Of64();
    assert Pow2(64) == 2 * Pow2(63);
  }

  lemma {:induction false} Pow2Grows(i: nat, j: nat)
    requires i <= j
    ensures Pow2(i) <= Pow2(j)
  {
    if i < j { Pow2Grows(i, j - 1); }
  }
}
