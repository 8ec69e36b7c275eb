/** Pedersen commitments and their aggregation with powers of a challenge. */
module Pedersen {
  import opened Group
  import opened Wrappers

  function Commit(key: Vec, v: Vec): int {
    Dot(key, v)
  }

  function BatchCommit(key: Vec, vs: seq<Vec>): (r: Vec)
    ensures |r| == |vs|
  {
    seq(|vs|, i requires 0 <= i < |vs| => Commit(key, vs[i]))
  }

  function Start(tau: int, initial: Option<int>): int {
    if initial.Some? then initial.value else tau
  }

  /** The powers of the challenge, and the one to continue with. */
  function PowersOfTau(tau: int, initial: Option<int>, n: nat): (r: (Vec, int))
    ensures |r.0| == n
  {
    (Powers(Start(tau, initial), tau, n), Start(tau, initial) * Power(tau, n))
  }

  method ComputePowers(tau: int, initial: Option<int>, n: nat) returns (powers: Vec, cur: int)
    ensures (powers, cur) == PowersOfTau(tau, initial, n)
  {
    powers := [];
    cur := Start(tau, initial);
    for i := 0 to n
      invariant (powers, cur) == PowersOfTau(tau, initial, i)
    {
      PowersSnoc(Start(tau, initial), tau, i);
      powers := powers + [cur];
      cur := cur * tau;
      Reorder(Start(tau, initial), Power(tau, i), tau);
    }
  }

  lemma Reorder(a: int, b: int, c: int)
    ensures a * b * c == a * (c * b)
  {
  }

  method Aggregate(commitments: Vec, tau: int, initial: Option<int>) returns (sum: int, next: int)
    ensures sum == Dot(commitments, PowersOfTau(tau, initial, |commitments|).0)
    ensures next == PowersOfTau(tau, initial, |commitments|).1
  {
    var powers, cur := ComputePowers(tau, initial, |commitments|);
    return Dot(commitments, powers), cur;
  }

  /** One coordinate of the vectors, weighted and added up from the left, as the code does it. */
  function Column(vs: seq<Vec>, weights: Vec, c: nat, k: nat): int
    requires k <= |vs| == |weights| && forall i :: 0 <= i < |vs| ==> c < |vs[i]|
  {
    if k == 0 then 0 else Column(vs, weights, c, k - 1) + vs[k - 1][c] * weights[k - 1]
  }

  lemma {:induction false} ColumnTail(vs: seq<Vec>, weights: Vec, c: nat, k: nat)
    requires 0 < k <= |vs| == |weights| && forall i :: 0 <= i < |vs| ==> c < |vs[i]|
    ensures Column(vs, weights, c, k) == vs[0][c] * weights[0] + Column(vs[1..], weights[1..], c, k - 1)
  {
    if k > 1 { ColumnTail(vs, weights, c, k - 1); }
  }

  lemma {:induction false} ColumnIsWeightedSum(vs: seq<Vec>, n: nat, weights: Vec, c: nat)
    requires |vs| == |weights| && AllOfSize(vs, n) && c < n
    ensures Column(vs, weights, c, |vs|) == WeightedSum(vs, n, weights)[c]
  {
    if vs != [] {
      ColumnTail(vs, weights, c, |vs|);
      ColumnIsWeightedSum(vs[1..], n, weights[1..], c);
    }
  }

  /** An empty list of vectors would be indexed at 0, and panic. */
  method ScalarAggregate(vs: seq<Vec>, tau: int, initial: Option<int>) returns (sum: Vec, next: int)
    requires vs != [] && AllOfSize(vs, |vs[0]|)
    ensures sum == WeightedSum(vs, |vs[0]|, PowersOfTau(tau, initial, |vs|).0)
    ensures next == PowersOfTau(tau, initial, |vs|).1
  {
    var powers, cur := ComputePowers(tau, initial, |vs|);
    sum := [];
    for c := 0 to |vs[0]|
      invariant |sum| == c && forall j :: 0 <= j < c ==> sum[j] == WeightedSum(vs, |vs[0]|, powers)[j]
    {
      var entry := 0;
      for k := 0 to |vs|
        invariant entry == Column(vs, powers, c, k)
      {
        entry := entry + vs[k][c] * powers[k];
      }
      ColumnIsWeightedSum(vs, |vs[0]|, powers, c);
      sum := sum + [entry];
    }
    next := cur;
  }

  /** Aggregating commitments commits to the aggregated vector. */
  lemma {:induction false} CommitAggregates(key: Vec, vs: seq<Vec>, n: nat, weights: Vec)
    requires |vs| == |weights| && AllOfSize(vs, n)
    ensures Dot(BatchCommit(key, vs), weights) == Commit(key, WeightedSum(vs, n, weights))
  {
    if vs == [] {
      DotZeros(key, n);
    } else {
      assert BatchCommit(key, vs)[1..] == BatchCommit(key, vs[1..]);
      CommitAggregates(key, vs[1..], n, weights[1..]);
      DotPlus(key, Scale(weights[0], vs[0]), WeightedSum(vs[1..], n, weights[1..]));
      DotScale(key, weights[0], vs[0]);
    }
  }

  /** The returned power continues an aggregation: two calls in sequence aggregate the two lists as
      one call does. */
  lemma AggregationContinues(xs: Vec, ys: Vec, tau: int, initial: Option<int>)
    ensures var (p, next) := PowersOfTau(tau, initial, |xs|);
            var (q, end) := PowersOfTau(tau, Some(next), |ys|);
            && Dot(xs + ys, PowersOfTau(tau, initial, |xs + ys|).0) == Dot(xs, p) + Dot(ys, q)
            && PowersOfTau(tau, initial, |xs + ys|).1 == end
  {
    hide Dot, Powers, Power;
    PowersContinue(Start(tau, initial), tau, |xs|, |ys|);
    var (p, next) := PowersOfTau(tau, initial, |xs|);
    DotAppend(xs, p, ys, PowersOfTau(tau, Some(next), |ys|).0);
  }

  lemma {:induction false} PowersContinue(start: int, x: int, m: nat, n: nat)
    ensures Powers(start, x, m + n) == Powers(start, x, m) + Powers(start * Power(x, m), x, n)
    ensures start * Power(x, m + n) == start * Power(x, m) * Power(x, n)
    decreases m
  {
    if m == 0 {
      assert start * 1 == start;
      assert Powers(start, x, 0) + Powers(start, x, n) == Powers(start, x, n);
    } else {
      PowersContinue(start * x, x, m - 1, n);
      Associate(start, x, Power(x, m - 1));
      Associate(start, x, Power(x, m + n - 1));
      assert [start] + (Powers(start * x, x, m - 1) + Powers(start * Power(x, m), x, n))
          == [start] + Powers(start * x, x, m - 1) + Powers(start * Power(x, m), x, n);
    }
  }

  /** The constraints of `enforce_equal`, one per coordinate the two lists share. */
  predicate EnforceEqual(aggregation: Vec, vs: seq<Vec>, tau: int, initial: Option<int>)
    requires vs != [] && AllOfSize(vs, |vs[0]|)
  {
    forall c :: 0 <= c < |aggregation| && c < |vs[0]| ==>
                  Same(Column(vs, PowersOfTau(tau, initial, |vs|).0, c, |vs|), aggregation[c])
  }

  /** They hold exactly when the witness is the scalar aggregation, as field elements. */
  lemma EnforceEqualIsAggregation(aggregation: Vec, vs: seq<Vec>, tau: int, initial: Option<int>)
    requires vs != [] && AllOfSize(vs, |vs[0]|) && |aggregation| == |vs[0]|
    ensures EnforceEqual(aggregation, vs, tau, initial) <==>
            forall c :: 0 <= c < |aggregation| ==>
                          Same(WeightedSum(vs, |vs[0]|, PowersOfTau(tau, initial, |vs|).0)[c], aggregation[c])
  {
    forall c | 0 <= c < |aggregation|
      ensures Column(vs, PowersOfTau(tau, initial, |vs|).0, c, |vs|)
           == WeightedSum(vs, |vs[0]|, PowersOfTau(tau, initial, |vs|).0)[c]
    {
      ColumnIsWeightedSum(vs, |vs[0]|, PowersOfTau(tau, initial, |vs|).0, c);
    }
  }
}
