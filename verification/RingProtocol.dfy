/** The lock-free ring as a step system: every atomic load, compare-and-swap, plain access
    and store of `Enqueue` and `Dequeue` is one step of one thread, and any thread may move
    next. The same step function runs with unbounded tickets or with 64-bit counters. */
module RingProtocol {
  import opened Words

  datatype Cell<T> = Cell(sequence: nat, value: T)

  /** Where a thread stands: the next thing it does, with the locals it still needs. */
  datatype Local<T> =
    | Idle
    | EnqStart(v: T)                          // loads enqueuePos
    | EnqHasPos(v: T, pos: nat)               // loads the cell's sequence
    | EnqHasSeq(v: T, pos: nat, seqn: nat)    // compares; on zero, compare-and-swap
    | EnqWon(v: T, pos: nat)                  // writes the cell's value
    | EnqWrote(v: T, pos: nat)                // stores the cell's sequence
    | EnqCounting(v: T, pos: nat)             // adds one to length
    | EnqReturned(ok: bool)
    | DeqStart                                // loads dequeuePos
    | DeqHasPos(pos: nat)                     // loads the cell's sequence
    | DeqHasSeq(pos: nat, seqn: nat)          // compares; on zero, compare-and-swap
    | DeqWon(pos: nat)                        // reads the cell's value
    | DeqRead(pos: nat, v: T)                 // overwrites the value with zero
    | DeqCleared(pos: nat, v: T)              // stores the cell's sequence
    | DeqCounting(pos: nat, v: T)             // subtracts one from length
    | DeqReturned(v: T, ok: bool)

  datatype Ring<T> = Ring(
    width: Width,
    capacity: nat,
    zero: T,
    cells: seq<Cell<T>>,
    enqueuePos: nat,
    dequeuePos: nat,
    length: int,
    threads: map<nat, Local<T>>)

  /** What a thread that is between operations starts next. */
  datatype Call<T> = CallEnqueue(v: T) | CallDequeue

  /** The cell a ticket selects: `pos & mask`. */
  function Index(capacity: nat, pos: nat): (i: nat)
    requires capacity > 0
    ensures i < capacity
  {
    BitAnd(pos, capacity - 1)
  }

  predicate Shaped<T>(r: Ring<T>) {
    r.capacity > 0 && |r.cells| == r.capacity
  }

  function CellAt<T>(r: Ring<T>, pos: nat): Cell<T>
    requires Shaped(r)
  {
    r.cells[Index(r.capacity, pos)]
  }

  function Put<T>(r: Ring<T>, pos: nat, c: Cell<T>): (r': Ring<T>)
    requires Shaped(r)
    ensures Shaped(r')
  {
    r.(cells := r.cells[Index(r.capacity, pos) := c])
  }

  function Goto<T>(r: Ring<T>, t: nat, l: Local<T>): (r': Ring<T>)
    ensures Shaped(r) ==> Shaped(r')
  {
    r.(threads := r.threads[t := l])
  }

  /** The `dif` of an enqueuer, and of a dequeuer, from what it has loaded. */
  function EnqDif<T>(r: Ring<T>, pos: nat, seqn: nat): int {
    Dif(r.width, seqn, pos)
  }

  function DeqDif<T>(r: Ring<T>, pos: nat, seqn: nat): int {
    Dif(r.width, seqn, Norm(r.width, pos + 1))
  }

  predicate EnqWins<T>(r: Ring<T>, pos: nat, seqn: nat) {
    EnqDif(r, pos, seqn) == 0 && r.enqueuePos == pos
  }

  predicate DeqWins<T>(r: Ring<T>, pos: nat, seqn: nat) {
    DeqDif(r, pos, seqn) == 0 && r.dequeuePos == pos
  }

  function Count(width: Width, n: int): int {
    if width.Unbounded? then n else AsInt64(n)
  }

  /** One step of thread `t`. */
  function Next<T>(r: Ring<T>, t: nat, call: Call<T>): (r': Ring<T>)
    requires Shaped(r)
    ensures Shaped(r')
  {
    if t !in r.threads then r
    else if r.threads[t].Idle? || r.threads[t].EnqReturned? || r.threads[t].DeqReturned? then
      Goto(r, t, if call.CallEnqueue? then EnqStart(call.v) else DeqStart)
    else if EnqueueStep?(r.threads[t]) then NextEnqueue(r, t)
    else NextDequeue(r, t)
  }

  predicate EnqueueStep?<T>(l: Local<T>) {
    l.EnqStart? || l.EnqHasPos? || l.EnqHasSeq? || l.EnqWon? || l.EnqWrote? || l.EnqCounting?
  }

  function NextEnqueue<T>(r: Ring<T>, t: nat): (r': Ring<T>)
    requires Shaped(r) && t in r.threads && EnqueueStep?(r.threads[t])
    ensures Shaped(r')
  {
    match r.threads[t]
    case EnqStart(v) =>
      Goto(r, t, EnqHasPos(v, r.enqueuePos))
    case EnqHasPos(v, pos) =>
      Goto(r, t, EnqHasSeq(v, pos, CellAt(r, pos).sequence))
    case EnqHasSeq(v, pos, seqn) =>
      if EnqWins(r, pos, seqn) then
        Goto(r.(enqueuePos := Norm(r.width, pos + 1)), t, EnqWon(v, pos))
      else if EnqDif(r, pos, seqn) < 0 then
        Goto(r, t, EnqReturned(false))
      else
        Goto(r, t, EnqStart(v))
    case EnqWon(v, pos) =>
      Goto(Put(r, pos, CellAt(r, pos).(value := v)), t, EnqWrote(v, pos))
    case EnqWrote(v, pos) =>
      Goto(Put(r, pos, CellAt(r, pos).(sequence := Norm(r.width, pos + 1))), t, EnqCounting(v, pos))
    case EnqCounting(v, pos) =>
      Goto(r.(length := Count(r.width, r.length + 1)), t, EnqReturned(true))
  }

  function NextDequeue<T>(r: Ring<T>, t: nat): (r': Ring<T>)
    requires Shaped(r) && t in r.threads && !EnqueueStep?(r.threads[t])
    requires !r.threads[t].Idle? && !r.threads[t].EnqReturned? && !r.threads[t].DeqReturned?
    ensures Shaped(r')
  {
    match r.threads[t]
    case DeqStart =>
      Goto(r, t, DeqHasPos(r.dequeuePos))
    case DeqHasPos(pos) =>
      Goto(r, t, DeqHasSeq(pos, CellAt(r, pos).sequence))
    case DeqHasSeq(pos, seqn) =>
      if DeqWins(r, pos, seqn) then
        Goto(r.(dequeuePos := Norm(r.width, pos + 1)), t, DeqWon(pos))
      else if DeqDif(r, pos, seqn) < 0 then
        Goto(r, t, DeqReturned(r.zero, false))
      else
        Goto(r, t, DeqStart)
    case DeqWon(pos) =>
      Goto(r, t, DeqRead(pos, CellAt(r, pos).value))
    case DeqRead(pos, v) =>
      Goto(Put(r, pos, CellAt(r, pos).(value := r.zero)), t, DeqCleared(pos, v))
    case DeqCleared(pos, v) =>
      Goto(Put(r, pos, CellAt(r, pos).(sequence := Norm(r.width, pos + r.capacity))), t, DeqCounting(pos, v))
    case DeqCounting(pos, v) =>
      Goto(r.(length := Count(r.width, r.length - 1)), t, DeqReturned(v, true))
  }

  /** A new ring of capacity `2^k`, with the given threads between operations. */
  function NewRing<T>(width: Width, k: nat, zero: T, threads: set<nat>): (r: Ring<T>)
    ensures Shaped(r)
  {
    Ring(width, Pow2(k), zero, seq(Pow2(k), i requires 0 <= i => Cell(i, zero)), 0, 0, 0,
         map t | t in threads :: Idle)
  }

  /** A schedule names the thread that moves and, should it be between operations, its next call. */
  type Schedule<T> = seq<(nat, Call<T>)>

  function Exec<T>(r: Ring<T>, sched: Schedule<T>): (r': Ring<T>)
    requires Shaped(r)
    ensures Shaped(r')
    decreases |sched|
  {
    if sched == [] then r
    else
      var n := |sched| - 1;
      Next(Exec(r, sched[..n]), sched[n].0, sched[n].1)
  }

  /** What an onlooker writes down while the ring runs: the value each enqueue ticket was won
      with, and the value the dequeue of each ticket returned. */
  datatype History<T> = History(tickets: seq<T>, delivered: map<nat, T>)

  function Observe<T>(h: History<T>, r: Ring<T>, t: nat): History<T> {
    if t !in r.threads then h
    else
      match r.threads[t]
      case EnqHasSeq(v, pos, seqn) =>
        if EnqWins(r, pos, seqn) then h.(tickets := h.tickets + [v]) else h
      case DeqCounting(pos, v) => h.(delivered := h.delivered[pos := v])
      case _ => h
  }

  function Record<T>(r: Ring<T>, sched: Schedule<T>): History<T>
    requires Shaped(r)
    decreases |sched|
  {
    if sched == [] then History([], map[])
    else
      var n := |sched| - 1;
      Observe(Record(r, sched[..n]), Exec(r, sched[..n]), sched[n].0)
  }
}
