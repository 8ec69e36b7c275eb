/** The Fiat-Shamir transcript that prover and verifier keep in step. */
module Transcript {
  import opened Frame
  import opened Group
  import opened Wrappers

  /** What is not modelled: Keccak-256, and the little-endian coordinates of a point. What they give for
      the point at infinity is never used. */
  datatype Curve = Curve(keccak: Bytes -> Digest, x: int -> Bytes, y: int -> Bytes)

  function Reverse(b: Bytes): (r: Bytes)
    ensures |r| == |b|
  {
    if b == [] then [] else Reverse(b[1..]) + [b[0]]
  }

  /** A point as it is absorbed: x then y, big-endian. Equal points have equal bytes. */
  function PointBytes(c: Curve, p: int): Bytes {
    Reverse(c.y(Residue(p)) + c.x(Residue(p)))
  }

  function PointsBytes(c: Curve, ps: Vec): Bytes {
    if ps == [] then [] else PointBytes(c, ps[0]) + PointsBytes(c, ps[1..])
  }

  lemma {:induction false} PointsBytesRespectSame(c: Curve, ps: Vec, qs: Vec)
    requires |ps| == |qs| && forall i :: 0 <= i < |ps| ==> Same(ps[i], qs[i])
    ensures PointsBytes(c, ps) == PointsBytes(c, qs)
  {
    if ps != [] {
      PointsBytesRespectSame(c, ps[1..], qs[1..]);
    }
  }

  function FromBE(b: Bytes): nat {
    if b == [] then 0 else
      var last: int := b[|b| - 1];
      0x100 * FromBE(b[..|b| - 1]) + last
  }

  /** The `n` low bytes of `x`, big-endian. */
  function ToBE(x: nat, n: nat): (b: Bytes)
    ensures |b| == n
  {
    if n == 0 then [] else ToBE(x / 0x100, n - 1) + [x % 0x100]
  }

  function ByteRange(n: nat): nat {
    if n == 0 then 1 else 0x100 * ByteRange(n - 1)
  }

  /** The next challenge depends on the previous one: nothing of it is lost in its bytes. */
  lemma {:induction false} BytesKeepTheScalar(x: nat, n: nat)
    requires x < ByteRange(n)
    ensures FromBE(ToBE(x, n)) == x
  {
    if n > 0 {
      BytesKeepTheScalar(x / 0x100, n - 1);
      assert ToBE(x, n)[..n - 1] == ToBE(x / 0x100, n - 1);
    }
  }

  datatype State = State(bytes: Bytes, useLabel: bool)

  function Append(t: State, tag: Bytes, item: Bytes): State {
    t.(bytes := t.bytes + (if t.useLabel then tag else []) + item)
  }

  /** The challenge, and a transcript that holds nothing but the challenge. */
  function Challenge(c: Curve, t: State, tag: Bytes): (r: (int, State))
    ensures 0 <= r.0 < ORDER && r.1.useLabel == t.useLabel
  {
    var e := FromBE(c.keccak(t.bytes + (if t.useLabel then tag else []))) % ORDER;
    (e, t.(bytes := ToBE(e, 32)))
  }

  class SHA3Base {
    const curve: Curve
    const useLabel: bool
    var bytes: Bytes

    constructor (curve: Curve, useLabel: bool)
      ensures this.curve == curve && Value() == State([], useLabel)
    {
      this.curve, this.useLabel, bytes := curve, useLabel, [];
    }

    ghost function Value(): State
      reads this
    {
      State(bytes, useLabel)
    }

    method AppendItem(tag: Bytes, item: Bytes)
      modifies this
      ensures Value() == Append(old(Value()), tag, item)
    {
      if useLabel {
        bytes := bytes + tag;
      }
      bytes := bytes + item;
    }

    method ChallengeScalar(tag: Bytes) returns (e: int)
      modifies this
      ensures (e, Value()) == Challenge(curve, old(Value()), tag)
    {
      if useLabel {
        bytes := bytes + tag;
      }
      var hash := curve.keccak(bytes);
      bytes := [];
      e := FromBE(hash) % ORDER;
      bytes := bytes + ToBE(e, 32);
      assert bytes == ToBE(e, 32) && old(bytes) + [] == old(bytes);
    }
  }

  // Labels, as ASCII

  const COMMITMENTS: Bytes := [99, 111, 109, 109, 105, 116, 109, 101, 110, 116, 115]
  const COMMITMENT: Bytes := [99, 111, 109, 109, 105, 116, 109, 101, 110, 116]
  const INSTANCE: Bytes := [105, 110, 115, 116, 97, 110, 99, 101]
  const CHALLENGE: Bytes := [99, 104, 97, 108, 108, 101, 110, 103, 101]

  /** Absorb some points, given as bytes, and draw a challenge. */
  function Draw(c: Curve, t: State, tag: Bytes, item: Bytes): (int, State) {
    Challenge(c, Append(t, tag, item), CHALLENGE)
  }

  /** The same as the code does it: reading the coordinates of a point at infinity panics, before
      anything is absorbed. */
  function DrawFrom(c: Curve, t: State, tag: Bytes, ps: Vec, item: Bytes): (Option<int>, State) {
    if AnyInfinity(ps) then (None, t)
    else
      var (e, t') := Draw(c, t, tag, item);
      (Some(e), t')
  }

  method DrawChallenge(transcript: SHA3Base, tag: Bytes, ps: Vec, item: Bytes) returns (e: Option<int>)
    modifies transcript
    ensures (e, transcript.Value()) == DrawFrom(transcript.curve, old(transcript.Value()), tag, ps, item)
  {
    for i := 0 to |ps|
      invariant forall j :: 0 <= j < i ==> !Infinity(ps[j])
      invariant transcript.Value() == old(transcript.Value())
    {
      if Infinity(ps[i]) {
        return None;
      }
    }
    transcript.AppendItem(tag, item);
    var challenge := transcript.ChallengeScalar(CHALLENGE);
    return Some(challenge);
  }

  // What a challenge binds

  /** The bytes that are hashed for a draw. */
  function DrawnFrom(t: State, tag: Bytes, item: Bytes): Bytes {
    if t.useLabel then t.bytes + tag + item + Ascii("challenge") else t.bytes + item
  }

  function Ascii(s: string): Bytes
    requires forall i :: 0 <= i < |s| ==> s[i] as int < 128
  {
    seq(|s|, i requires 0 <= i < |s| => s[i] as int)
  }

  lemma LabelsAreAscii()
    ensures COMMITMENTS == Ascii("commitments") && COMMITMENT == Ascii("commitment")
    ensures INSTANCE == Ascii("instance") && CHALLENGE == Ascii("challenge")
  {
  }

  /** Two different inputs whose digests are one scalar. */
  predicate ScalarCollision(hash: Bytes -> Digest, b: Bytes, c: Bytes) {
    b != c && Same(FromBE(hash(b)), FromBE(hash(c)))
  }

  /** The challenge is the hash of everything absorbed, as a big-endian number, reduced; and it is all that
      the transcript then holds. */
  lemma ChallengeIsTheHash(c: Curve, t: State, tag: Bytes, item: Bytes)
    ensures var (e, t') := Draw(c, t, tag, item);
            && 0 <= e < ORDER && Same(e, FromBE(c.keccak(DrawnFrom(t, tag, item))))
            && |t'.bytes| == 32 && FromBE(t'.bytes) == e && t'.useLabel == t.useLabel
  {
    LabelsAreAscii();
    var (e, t') := Draw(c, t, tag, item);
    var hash := FromBE(c.keccak(DrawnFrom(t, tag, item)));
    assert t.bytes + (if t.useLabel then tag else []) + item + (if t.useLabel then CHALLENGE else [])
        == DrawnFrom(t, tag, item);
    ResidueIsRemainder(e);
    ResidueIsRemainder(hash);
    ScalarsFit();
    BytesKeepTheScalar(e, 32);
  }

  lemma ScalarsFit()
    ensures ORDER < ByteRange(32)
  {
    assert ByteRange(4) == 0x1_0000_0000;
    RangesMultiply(4, 4);
    RangesMultiply(8, 8);
    RangesMultiply(16, 16);
  }

  lemma {:induction false} RangesMultiply(m: nat, n: nat)
    ensures ByteRange(m + n) == ByteRange(m) * ByteRange(n)
  {
    if m > 0 {
      RangesMultiply(m - 1, n);
      Associate(0x100, ByteRange(m - 1), ByteRange(n));
    }
  }

  /** The first byte weighs most. */
  lemma {:induction false} FirstByteIsHighest(b: Bytes)
    requires b != []
    ensures FromBE(b) == b[0] as int * ByteRange(|b| - 1) + FromBE(b[1..])
  {
    var n := |b| - 1;
    var first: int := b[0];
    if n == 0 {
      assert first * ByteRange(0) == first && b[..0] == [];
    } else {
      FirstByteIsHighest(b[..n]);
      assert b[..n][1..] == b[1..][..n - 1];
      Associate(first, ByteRange(n - 1), 0x100);
      assert 0x100 * (first * ByteRange(n - 1)) == first * ByteRange(n);
    }
  }

  /** Equal challenges come from equal bytes, or from a collision. */
  lemma DrawsBind(c: Curve, t: State, tag: Bytes, item: Bytes, t': State, tag': Bytes, item': Bytes)
    requires Draw(c, t, tag, item).0 == Draw(c, t', tag', item').0
    ensures DrawnFrom(t, tag, item) == DrawnFrom(t', tag', item')
         || ScalarCollision(c.keccak, DrawnFrom(t, tag, item), DrawnFrom(t', tag', item'))
  {
    ChallengeIsTheHash(c, t, tag, item);
    ChallengeIsTheHash(c, t', tag', item');
  }

  /** Draws from one transcript under one label: then the items are equal, or there is a collision. */
  lemma ItemsBind(c: Curve, t: State, tag: Bytes, item: Bytes, item': Bytes)
    requires Draw(c, t, tag, item).0 == Draw(c, t, tag, item').0
    ensures item == item' || ScalarCollision(c.keccak, DrawnFrom(t, tag, item), DrawnFrom(t, tag, item'))
  {
    DrawsBind(c, t, tag, item, t, tag, item');
    if DrawnFrom(t, tag, item) == DrawnFrom(t, tag, item') {
      var start := if t.useLabel then t.bytes + tag else t.bytes;
      var end := if t.useLabel then Ascii("challenge") else [];
      assert DrawnFrom(t, tag, item) == start + item + end && DrawnFrom(t, tag, item') == start + item' + end;
      assert item == (start + item + end)[|start|..|start| + |item|];
      assert item' == (start + item' + end)[|start|..|start| + |item'|];
    }
  }

  /** Coordinates are 32 bytes each, and different finite points differ in one. */
  ghost predicate CoordinatesIdentify(c: Curve) {
    && (forall p :: 0 < p < ORDER ==> |c.x(p)| == 32)
    && (forall p :: 0 < p < ORDER ==> |c.y(p)| == 32)
    && (forall p, p' :: 0 < p < ORDER && 0 < p' < ORDER && c.x(p) == c.x(p') && c.y(p) == c.y(p') ==> p == p')
  }

  lemma {:induction false} ReverseAt(b: Bytes, i: nat)
    requires i < |b|
    ensures Reverse(b)[i] == b[|b| - 1 - i]
  {
    if i < |b| - 1 { ReverseAt(b[1..], i); }
  }

  lemma {:induction false} ReverseAppend(a: Bytes, b: Bytes)
    ensures Reverse(a + b) == Reverse(b) + Reverse(a)
  {
    if a == [] {
      assert a + b == b && Reverse(b) + [] == Reverse(b);
    } else {
      ReverseAppend(a[1..], b);
      assert (a + b)[1..] == a[1..] + b;
    }
  }

  /** A point is absorbed as x then y, both big-endian. */
  lemma PointBytesAt(c: Curve, p: int, i: nat)
    requires |c.x(Residue(p))| == |c.y(Residue(p))| == 32 && i < 32
    ensures |PointBytes(c, p)| == 64
    ensures PointBytes(c, p)[i] == c.x(Residue(p))[31 - i] && PointBytes(c, p)[32 + i] == c.y(Residue(p))[31 - i]
  {
    ReverseAt(c.y(Residue(p)) + c.x(Residue(p)), i);
    ReverseAt(c.y(Residue(p)) + c.x(Residue(p)), 32 + i);
  }

  lemma FinitePoint(p: int)
    requires !Infinity(p)
    ensures 0 < Residue(p) < ORDER
  {
  }

  lemma PointBytesBind(c: Curve, p: int, q: int)
    requires CoordinatesIdentify(c) && !Infinity(p) && !Infinity(q) && PointBytes(c, p) == PointBytes(c, q)
    ensures Same(p, q)
  {
    FinitePoint(p);
    FinitePoint(q);
    forall i | 0 <= i < 32
      ensures c.x(Residue(p))[i] == c.x(Residue(q))[i] && c.y(Residue(p))[i] == c.y(Residue(q))[i]
    {
      PointBytesAt(c, p, 31 - i);
      PointBytesAt(c, q, 31 - i);
    }
    assert c.x(Residue(p)) == c.x(Residue(q)) && c.y(Residue(p)) == c.y(Residue(q));
  }

  /** Equal bytes are equal points. */
  lemma {:induction false} PointsBytesBind(c: Curve, ps: Vec, qs: Vec)
    requires CoordinatesIdentify(c) && !AnyInfinity(ps) && !AnyInfinity(qs)
    requires PointsBytes(c, ps) == PointsBytes(c, qs)
    ensures |ps| == |qs| && forall i :: 0 <= i < |ps| ==> Same(ps[i], qs[i])
  {
    if ps != [] { FirstPoint(c, ps); }
    if qs != [] { FirstPoint(c, qs); }
    if ps != [] && qs != [] {
      hide CoordinatesIdentify, PointBytes, PointsBytes;
      assert PointBytes(c, ps[0]) == PointBytes(c, qs[0]) by {
        assert PointsBytes(c, ps)[..64] == PointsBytes(c, qs)[..64];
      }
      PointBytesBind(c, ps[0], qs[0]);
      assert !AnyInfinity(ps[1..]) && !AnyInfinity(qs[1..]);
      PointsBytesBind(c, ps[1..], qs[1..]);
    }
  }

  lemma FirstPoint(c: Curve, ps: Vec)
    requires CoordinatesIdentify(c) && ps != [] && !AnyInfinity(ps)
    ensures |PointsBytes(c, ps)| >= 64 && !Infinity(ps[0])
    ensures PointsBytes(c, ps)[..64] == PointBytes(c, ps[0]) && PointsBytes(c, ps)[64..] == PointsBytes(c, ps[1..])
  {
    assert !Infinity(ps[0]);
    FinitePoint(ps[0]);
    PointBytesAt(c, ps[0], 0);
  }
}
