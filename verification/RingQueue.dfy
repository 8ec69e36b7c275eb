/** The ring as the object the pipeline holds: cells and 64-bit counters updated in place. The
    methods are the code's loops; called one at a time they are a bounded FIFO queue, whatever
    number of times the counters have wrapped. */
module RingQueue {
  import opened RingProtocol
  import opened RingWrap
  import opened Words
  import opened Wrappers

  ghost predicate Capacity64(n: nat) {
    exists k: nat :: 1 <= k <= 63 && n == Pow2(k)
  }

  /** What the cell of ticket `j` carries: its published value, or no value and a wait for its enqueuer. */
  ghost predicate Carries<T>(c: Cell<T>, j: nat, head: nat, contents: seq<T>, zero: T)
    requires head <= j
  {
    if j < head + |contents| then c == Cell(W(j + 1), contents[j - head]) else c == Cell(W(j), zero)
  }

  /** The cells hold `contents`, the first of it at ticket `head`. */
  ghost predicate Holds<T>(cells: seq<Cell<T>>, head: nat, contents: seq<T>, zero: T) {
    && Capacity64(|cells|) && |contents| <= |cells|
    && forall j: nat {:trigger Index(|cells|, j)} :: head <= j < head + |cells| ==>
         Carries(cells[Index(|cells|, j)], j, head, contents, zero)
  }

  /** What `Enqueue` finds at its position. */
  lemma EnqueueFinds<T>(cells: seq<Cell<T>>, head: nat, contents: seq<T>, zero: T)
    requires Holds(cells, head, contents, zero)
    ensures var pos := W(head + |contents|);
            var i := BitAnd(pos, |cells| - 1);
            && i == Index(|cells|, head + |contents|)
            && Dif(Bits64, cells[i].sequence, pos) == if |contents| < |cells| then 0 else 1 - |cells|
  {
    hide BitAnd;
    var k: nat :| 1 <= k <= 63 && |cells| == Pow2(k);
    var tail := head + |contents|;
    MaskAfterWrap(tail, k);
    CapacityFits(k);
    if |contents| == |cells| {
      MaskLap(head, k, k);
      assert Carries(cells[Index(|cells|, head)], head, head, contents, zero);
      WrappedDifference(head + 1, tail);
    } else {
      assert Carries(cells[Index(|cells|, tail)], tail, head, contents, zero);
      WrappedDifference(tail, tail);
    }
  }

  /** What `Dequeue` finds at its position. */
  lemma DequeueFinds<T>(cells: seq<Cell<T>>, head: nat, contents: seq<T>, zero: T)
    requires Holds(cells, head, contents, zero)
    ensures var pos := W(head);
            var i := BitAnd(pos, |cells| - 1);
            && i == Index(|cells|, head)
            && (contents != [] ==> cells[i].value == contents[0])
            && Dif(Bits64, cells[i].sequence, Norm(Bits64, pos + 1)) == if contents != [] then 0 else -1
  {
    hide BitAnd;
    var k: nat :| 1 <= k <= 63 && |cells| == Pow2(k);
    MaskAfterWrap(head, k);
    WrapPlus(head, 1);
    assert Carries(cells[Index(|cells|, head)], head, head, contents, zero);
    WrappedDifference(if contents == [] then head else head + 1, head + 1);
  }

  lemma EnqueueKeeps<T>(cells: seq<Cell<T>>, head: nat, contents: seq<T>, zero: T, v: T)
    requires Holds(cells, head, contents, zero) && |contents| < |cells|
    ensures var tail := head + |contents|;
            Holds(cells[Index(|cells|, tail) := Cell(W(tail + 1), v)], head, contents + [v], zero)
  {
    var k: nat :| 1 <= k <= 63 && |cells| == Pow2(k);
    var tail := head + |contents|;
    var cells' := cells[Index(|cells|, tail) := Cell(W(tail + 1), v)];
    forall j: nat {:trigger Index(|cells'|, j)} | head <= j < head + |cells'|
      ensures Carries(cells'[Index(|cells'|, j)], j, head, contents + [v], zero)
    {
      assert Carries(cells[Index(|cells|, j)], j, head, contents, zero);
      if j != tail && Index(|cells|, j) == Index(|cells|, tail) {
        if j < tail { MaskFar(j, tail, k); } else { MaskFar(tail, j, k); }
      }
    }
  }

  lemma DequeueKeeps<T>(cells: seq<Cell<T>>, head: nat, contents: seq<T>, zero: T)
    requires Holds(cells, head, contents, zero) && contents != []
    ensures Holds(cells[Index(|cells|, head) := Cell(W(head + |cells|), zero)], head + 1, contents[1..], zero)
  {
    var k: nat :| 1 <= k <= 63 && |cells| == Pow2(k);
    var cells' := cells[Index(|cells|, head) := Cell(W(head + |cells|), zero)];
    forall j: nat {:trigger Index(|cells'|, j)} | head + 1 <= j < head + 1 + |cells'|
      ensures Carries(cells'[Index(|cells'|, j)], j, head + 1, contents[1..], zero)
    {
      if j == head + |cells| {
        MaskLap(head, k, k);
      } else {
        assert Carries(cells[Index(|cells|, j)], j, head, contents, zero);
        if Index(|cells|, j) == Index(|cells|, head) { MaskFar(head, j, k); }
      }
    }
  }

  lemma NewCellsHold<T>(cells: seq<Cell<T>>, zero: T)
    requires Capacity64(|cells|) && forall j :: 0 <= j < |cells| ==> cells[j] == Cell(j, zero)
    ensures Holds(cells, 0, [], zero)
  {
    var k: nat :| 1 <= k <= 63 && |cells| == Pow2(k);
    CapacityFits(k);
    forall j: nat {:trigger Index(|cells|, j)} | j < |cells| ensures Carries(cells[Index(|cells|, j)], j, 0, [], zero) {
      MaskSmall(j, k);
    }
  }

  class RingQueue<T> {
    const mask: nat
    const zero: T
    const cells: array<Cell<T>>
    var enqueuePos: nat
    var dequeuePos: nat
    var length: int
    ghost var head: nat      // the unbounded ticket behind dequeuePos
    ghost var contents: seq<T>

    ghost predicate Valid()
      reads this, cells
    {
      && Holds(cells[..], head, contents, zero) && mask == cells.Length - 1
      && enqueuePos == W(head + |contents|) && dequeuePos == W(head) && length == |contents|
    }

    constructor (capacity: nat, zero: T)
      requires Capacity64(capacity)
      ensures Valid() && fresh(cells)
      ensures contents == [] && cells.Length == capacity && this.zero == zero
    {
      mask := capacity - 1;
      this.zero := zero;
      cells := new Cell<T>[capacity](i => Cell(0, zero));
      enqueuePos, dequeuePos, length := 0, 0, 0;
      head, contents := 0, [];
      new;
      for i := 0 to capacity
        invariant contents == [] && head == 0 && length == 0 && enqueuePos == 0 && dequeuePos == 0
        invariant forall j :: 0 <= j < i ==> cells[j] == Cell(j, zero)
      {
        cells[i] := Cell(i, zero);
      }
      NewCellsHold(cells[..], zero);
    }

    /** The writes of the enqueuer that has just won ticket `pos`. */
    method Publish(i: nat, pos: nat, v: T)
      requires Holds(cells[..], head, contents, zero) && mask == cells.Length - 1 && length == |contents| < cells.Length
      requires pos == W(head + |contents|) && i == Index(cells.Length, head + |contents|)
      requires enqueuePos == W(head + |contents| + 1) && dequeuePos == W(head)
      modifies this`length, this`contents, cells
      ensures Valid() && contents == old(contents) + [v]
    {
      EnqueueKeeps(cells[..], head, contents, zero, v);
      WrapPlus(head + |contents|, 1);
      cells[i] := cells[i].(value := v);
      cells[i] := cells[i].(sequence := Norm(Bits64, pos + 1));
      length := length + 1;
      contents := contents + [v];
      assert cells[..] == old(cells[..])[i := Cell(Norm(Bits64, pos + 1), v)];
    }

    /** The read and writes of the dequeuer that has just won ticket `pos`. */
    method Release(i: nat, pos: nat) returns (v: T)
      requires Holds(cells[..], head, contents, zero) && mask == cells.Length - 1
      requires contents != [] && length == |contents|
      requires pos == W(head) && i == Index(cells.Length, head) && cells[i].value == contents[0]
      requires enqueuePos == W(head + |contents|) && dequeuePos == W(head + 1)
      modifies this`length, this`contents, this`head, cells
      ensures Valid() && v == old(contents)[0] && contents == old(contents)[1..]
    {
      DequeueKeeps(cells[..], head, contents, zero);
      WrapPlus(head, cells.Length);
      v := cells[i].value;
      cells[i] := cells[i].(value := zero);
      cells[i] := cells[i].(sequence := Norm(Bits64, pos + mask + 1));
      length := length - 1;
      assert cells[..] == old(cells[..])[i := Cell(Norm(Bits64, pos + mask + 1), zero)];
      head, contents := head + 1, contents[1..];
    }

    method Enqueue(v: T) returns (ok: bool)
      requires Valid()
      modifies this, cells
      ensures Valid()
      ensures ok == (|old(contents)| < cells.Length)
      ensures contents == if ok then old(contents) + [v] else old(contents)
    {
      var again := true;
      ok := false;
      while again
        invariant Valid()
        invariant again ==> contents == old(contents)
        invariant !again ==> ok == (|old(contents)| < cells.Length)
        invariant !again ==> contents == if ok then old(contents) + [v] else old(contents)
        decreases again
      {
        again := false;
        EnqueueFinds(cells[..], head, contents, zero);
        WrapPlus(head + |contents|, 1);
        var pos := enqueuePos;
        var i := BitAnd(pos, mask);
        var seqn := cells[i].sequence;
        var dif := Dif(Bits64, seqn, pos);
        if dif == 0 {
          if enqueuePos == pos {
            enqueuePos := Norm(Bits64, pos + 1);
            Publish(i, pos, v);
            ok := true;
          } else {
            assert false;  // no rival here; the concurrent case is RingProgress.RetryHasRival
            again := true;
          }
        } else if dif < 0 {
          ok := false;
        } else {
          assert false;
          again := true;
        }
      }
    }

    method Dequeue() returns (v: T, ok: bool)
      requires Valid()
      modifies this, cells
      ensures Valid()
      ensures ok == (old(contents) != [])
      ensures v == (if ok then old(contents)[0] else zero)
      ensures contents == if ok then old(contents)[1..] else old(contents)
    {
      var again := true;
      v, ok := zero, false;
      while again
        invariant Valid()
        invariant again ==> contents == old(contents)
        invariant !again ==> ok == (old(contents) != [])
        invariant !again ==> v == (if ok then old(contents)[0] else zero)
        invariant !again ==> contents == if ok then old(contents)[1..] else old(contents)
        decreases again
      {
        again := false;
        DequeueFinds(cells[..], head, contents, zero);
        WrapPlus(head, 1);
        var pos := dequeuePos;
        var i := BitAnd(pos, mask);
        var seqn := cells[i].sequence;
        var dif := Dif(Bits64, seqn, Norm(Bits64, pos + 1));
        if dif == 0 {
          if dequeuePos == pos {
            dequeuePos := Norm(Bits64, pos + 1);
            v := Release(i, pos);
            ok := true;
          } else {
            assert false;
            again := true;
          }
        } else if dif < 0 {
          v, ok := zero, false;
        } else {
          assert false;
          again := true;
        }
      }
    }

    method Len() returns (n: int)
      requires Valid()
      ensures n == |contents|
    {
      n := length;
    }
  }

  /** `NewRing` accepts exactly the powers of two from 2 up. */
  method NewRing<T>(capacity: nat, zero: T) returns (q: Option<RingQueue<T>>)
    requires capacity < TWO_64
    ensures q.Some? <==> exists k: nat :: k >= 1 && capacity == Pow2(k)
    ensures q.Some? ==> q.value.Valid() && fresh(q.value) && fresh(q.value.cells)
    ensures q.Some? ==> q.value.contents == [] && q.value.cells.Length == capacity
  {
    if capacity >= 1 { PowerOfTwoTest(capacity); }
    if capacity < 2 || BitAnd(capacity, capacity - 1) != 0 {
      assert forall k: nat {:trigger Pow2(k)} :: k >= 1 ==> Pow2(k) >= 2;
      return None;
    }
    SmallPower(capacity);
    var r := new RingQueue(capacity, zero);
    q := Some(r);
  }

  lemma SmallPower(n: nat)
    requires 2 <= n < TWO_64 && exists k: nat :: n == Pow2(k)
    ensures Capacity64(n)
  {
    var k: nat :| n == Pow2(k);
    if k >= 64 {
      Pow2Grows(64, k);
      Pow2Of64();
      assert false;
    }
  }
}
