/** Scalars and group elements. An element of a group of prime order is represented by its discrete
    logarithm: adding points adds, scaling multiplies, a multi-scalar multiplication is an inner
    product and a pairing is a product. A residue class is represented by any of its integers;
    whatever the program can observe, by comparing or serializing, goes through the class. */
module Group {

  /** The order of the groups of BN254. */
  const ORDER: nat := 21888242871839275222246405745257275088548364400416034343698204186575808495617

  /** The canonical integer of a residue class, stepping towards the range by the order. */
  function Residue(x: int): (r: int)
    ensures 0 <= r < ORDER
    decreases x < 0, if x < 0 then -x else x
  {
    if x < 0 then Residue(x + ORDER) else if x >= ORDER then Residue(x - ORDER) else x
  }

  /** The same field or group element. */
  predicate Same(x: int, y: int) {
    Residue(x) == Residue(y)
  }

  lemma {:induction false} ResidueIsRemainder(x: int)
    ensures Residue(x) == x % ORDER
    decreases x < 0, if x < 0 then -x else x
  {
    if x < 0 {
      ResidueIsRemainder(x + ORDER);
    } else if x >= ORDER {
      ResidueIsRemainder(x - ORDER);
    }
  }

  lemma SameBy(x: int, y: int) returns (k: int)
    requires Same(x, y)
    ensures x == y + k * ORDER
  {
    ResidueIsRemainder(x);
    ResidueIsRemainder(y);
    k := x / ORDER - y / ORDER;
  }

  lemma SameFrom(x: int, y: int, k: int)
    requires x == y + k * ORDER
    ensures Same(x, y)
  {
    ResidueIsRemainder(x);
    ResidueIsRemainder(y);
  }

  lemma SameMul(x: int, y: int, c: int)
    requires Same(x, y)
    ensures Same(x * c, y * c) && Same(c * x, c * y)
  {
    var k := SameBy(x, y);
    assert (y + k * ORDER) * c == y * c + (k * c) * ORDER;
    SameFrom(x * c, y * c, k * c);
  }

  lemma SameAdd(x: int, y: int, v: int, w: int)
    requires Same(x, y) && Same(v, w)
    ensures Same(x + v, y + w) && Same(x - v, y - w)
  {
    hide Same;
    var j := SameBy(x, y);
    var k := SameBy(v, w);
    SameFrom(x + v, y + w, j + k);
    SameFrom(x - v, y - w, j - k);
  }

  lemma SameSwaps(x: int, y: int)
    ensures Same(x, y) <==> Same(y, x)
  {
  }

  lemma SameTrans(x: int, y: int, z: int)
    requires Same(x, y) && Same(y, z)
    ensures Same(x, z) && Same(y, x)
  {
    hide Same;
    var j := SameBy(x, y);
    var k := SameBy(y, z);
    SameFrom(x, z, j + k);
    SameFrom(y, x, -j);
  }

  lemma SameGap(x: int, y: int)
    ensures Same(x, y) <==> Same(x - y, 0)
  {
    hide Same;
    if Same(x, y) {
      var k := SameBy(x, y);
      SameFrom(x - y, 0, k);
    }
    if Same(x - y, 0) {
      var k := SameBy(x - y, 0);
      SameFrom(x, y, k);
    }
  }

  // Products

  lemma Associate(a: int, b: int, c: int)
    ensures a * b * c == a * (b * c) == (b * c) * a
  {
  }

  lemma DistributeLeft(a: int, b: int, c: int)
    ensures a * (b + c) == a * b + a * c
  {
  }

  // Vectors

  type Vec = seq<int>

  /** The point at infinity, the neutral element, has no coordinates. */
  predicate Infinity(p: int) {
    Same(p, 0)
  }

  predicate AnyInfinity(ps: Vec) {
    exists i :: 0 <= i < |ps| && Infinity(ps[i])
  }

  /** A multi-scalar multiplication; the longer list is cut to the shorter one. */
  function Dot(x: Vec, y: Vec): int {
    if x == [] || y == [] then 0 else x[0] * y[0] + Dot(x[1..], y[1..])
  }

  lemma DotOfTwo(g: Vec, z: Vec)
    requires |g| == |z| == 2
    ensures Dot(g, z) == g[0] * z[0] + g[1] * z[1]
  {
    assert g[1..] == [g[1]] && z[1..] == [z[1]];
    assert Dot([g[1]], [z[1]]) == g[1] * z[1];
  }

  function Plus(x: Vec, y: Vec): (r: Vec)
    requires |x| == |y|
    ensures |r| == |x|
  {
    seq(|x|, i requires 0 <= i < |x| => x[i] + y[i])
  }

  function Scale(c: int, x: Vec): (r: Vec)
    ensures |r| == |x|
  {
    seq(|x|, i requires 0 <= i < |x| => c * x[i])
  }

  lemma {:induction false} DotComm(x: Vec, y: Vec)
    ensures Dot(x, y) == Dot(y, x)
  {
    if x != [] && y != [] { DotComm(x[1..], y[1..]); }
  }

  lemma {:induction false} DotAppend(x: Vec, y: Vec, v: Vec, w: Vec)
    requires |x| == |y|
    ensures Dot(x + v, y + w) == Dot(x, y) + Dot(v, w)
  {
    if x == [] {
      assert x + v == v && y + w == w;
    } else {
      assert (x + v)[1..] == x[1..] + v && (y + w)[1..] == y[1..] + w;
      DotAppend(x[1..], y[1..], v, w);
    }
  }

  lemma DotSplit(x: Vec, y: Vec, m: nat)
    requires |x| == |y| && m <= |x|
    ensures Dot(x, y) == Dot(x[..m], y[..m]) + Dot(x[m..], y[m..])
  {
    assert x == x[..m] + x[m..] && y == y[..m] + y[m..];
    DotAppend(x[..m], y[..m], x[m..], y[m..]);
  }

  lemma {:induction false} DotPlus(g: Vec, x: Vec, y: Vec)
    requires |x| == |y|
    ensures Dot(g, Plus(x, y)) == Dot(g, x) + Dot(g, y)
  {
    if g != [] && x != [] {
      assert Plus(x, y)[1..] == Plus(x[1..], y[1..]);
      DotPlus(g[1..], x[1..], y[1..]);
      assert g[0] * (x[0] + y[0]) == g[0] * x[0] + g[0] * y[0];
    }
  }

  lemma {:induction false} DotScale(g: Vec, c: int, x: Vec)
    ensures Dot(g, Scale(c, x)) == c * Dot(g, x)
  {
    if g != [] && x != [] {
      assert Scale(c, x)[1..] == Scale(c, x[1..]);
      DotScale(g[1..], c, x[1..]);
      Distribute(g[0], c, x[0], Dot(g[1..], x[1..]));
    }
  }

  lemma Distribute(g: int, c: int, x: int, d: int)
    ensures g * (c * x) + c * d == c * (g * x + d)
  {
    assert g * (c * x) == c * (g * x);
  }

  /** The same on the left. */
  lemma DotLinearLeft(c: int, x: Vec, y: Vec, z: Vec)
    requires |x| == |y|
    ensures Dot(Plus(Scale(c, x), y), z) == c * Dot(x, z) + Dot(y, z)
  {
    DotComm(Plus(Scale(c, x), y), z);
    DotPlus(z, Scale(c, x), y);
    DotScale(z, c, x);
    DotComm(z, x);
    DotComm(z, y);
  }

  lemma DotLinear(g: Vec, x: Vec, c: int, y: Vec)
    requires |x| == |y|
    ensures Dot(g, Plus(x, Scale(c, y))) == Dot(g, x) + c * Dot(g, y)
  {
    DotPlus(g, x, Scale(c, y));
    DotScale(g, c, y);
  }

  lemma {:induction false} SameDot(x: Vec, y: Vec, z: Vec)
    requires |x| == |y| && forall i :: 0 <= i < |x| ==> Same(x[i], y[i])
    ensures Same(Dot(x, z), Dot(y, z))
  {
    if x == [] || z == [] {
    } else {
      hide Same;
      SameDot(x[1..], y[1..], z[1..]);
      SameMul(x[0], y[0], z[0]);
      SameAdd(x[0] * z[0], y[0] * z[0], Dot(x[1..], z[1..]), Dot(y[1..], z[1..]));
    }
  }

  /** `start`, `start * x`, `start * x^2`, ... */
  function Powers(start: int, x: int, n: nat): (r: Vec)
    ensures |r| == n
    decreases n
  {
    if n == 0 then [] else [start] + Powers(start * x, x, n - 1)
  }

  function Power(x: int, n: nat): int {
    if n == 0 then 1 else x * Power(x, n - 1)
  }

  lemma {:induction false} PowersAt(start: int, x: int, n: nat, i: nat)
    requires i < n
    ensures Powers(start, x, n)[i] == start * Power(x, i)
    decreases n
  {
    if i > 0 {
      PowersAt(start * x, x, n - 1, i - 1);
      assert start * x * Power(x, i - 1) == start * (x * Power(x, i - 1));
    }
  }

  lemma {:induction false} PowersSnoc(start: int, x: int, n: nat)
    ensures Powers(start, x, n + 1) == Powers(start, x, n) + [start * Power(x, n)]
    decreases n
  {
    if n > 0 {
      PowersSnoc(start * x, x, n - 1);
      assert start * x * Power(x, n - 1) == start * (x * Power(x, n - 1));
    }
  }

  function Zeros(n: nat): (r: Vec)
    ensures |r| == n
  {
    seq(n, _ => 0)
  }

  lemma {:induction false} DotZeros(g: Vec, n: nat)
    ensures Dot(g, Zeros(n)) == 0
  {
    if g != [] && n > 0 {
      assert Zeros(n)[1..] == Zeros(n - 1);
      DotZeros(g[1..], n - 1);
    }
  }

  predicate AllOfSize(vs: seq<Vec>, n: nat) {
    forall i :: 0 <= i < |vs| ==> |vs[i]| == n
  }

  /** Vectors of length `n`, weighted and added up. */
  function WeightedSum(vs: seq<Vec>, n: nat, weights: Vec): (r: Vec)
    requires |vs| == |weights| && AllOfSize(vs, n)
    ensures |r| == n
  {
    if vs == [] then Zeros(n) else Plus(Scale(weights[0], vs[0]), WeightedSum(vs[1..], n, weights[1..]))
  }
}
