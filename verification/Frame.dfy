/** The wire formats: 12-byte transactions, transaction slices, lane batch frames, and the
    preimages that are hashed into commitments. */
module Frame {
  import opened Wrappers

  type byte = x: int | 0 <= x < 0x100
  type u16 = x: int | 0 <= x < 0x1_0000
  type u32 = x: int | 0 <= x < 0x1_0000_0000
  type Bytes = seq<byte>

  const BATCH_MAGIC: u32 := 0x42463131
  const VERSION_V1: u16 := 1

  datatype Error = Tx12Size | BadBatchMagic | BadBatchVer | ShortBatch | TxCountMismatch | TxSliceSize

  datatype Result<+T> = Ok(value: T) | Err(error: Error)

  datatype Tx12 = Tx12(sender: u32, receiver: u32, amount: u32)

  // Little-endian integers

  function LE16(x: u16): (b: Bytes)
    ensures |b| == 2
  {
    [x % 0x100, x / 0x100]
  }

  function LE32(x: u32): (b: Bytes)
    ensures |b| == 4
  {
    LE16(x % 0x1_0000) + LE16(x / 0x1_0000)
  }

  function FromLE16(b: Bytes): u16
    requires |b| == 2
  {
    var low: int, high: int := b[0], b[1];
    low + 0x100 * high
  }

  function FromLE32(b: Bytes): u32
    requires |b| == 4
  {
    var low: int, high: int := FromLE16(b[0..2]), FromLE16(b[2..4]);
    low + 0x1_0000 * high
  }

  lemma LERoundTrip(x: u32, y: u16)
    ensures FromLE32(LE32(x)) == x && FromLE16(LE16(y)) == y
  {
    var b := LE32(x);
    assert b[0..2] == LE16(x % 0x1_0000) && b[2..4] == LE16(x / 0x1_0000);
    LE16RoundTrip(x % 0x1_0000);
    LE16RoundTrip(x / 0x1_0000);
    LE16RoundTrip(y);
  }

  lemma LE16RoundTrip(y: u16)
    ensures FromLE16(LE16(y)) == y
  {
  }

  lemma LEReverse(b: Bytes, c: Bytes)
    requires |b| == 4 && |c| == 2
    ensures LE32(FromLE32(b)) == b && LE16(FromLE16(c)) == c
  {
    LE16Reverse(b[0..2]);
    LE16Reverse(b[2..4]);
    LE16Reverse(c);
    assert b == b[0..2] + b[2..4];
  }

  lemma LE16Reverse(c: Bytes)
    requires |c| == 2
    ensures LE16(FromLE16(c)) == c
  {
    var low: int, high: int := c[0], c[1];
    assert (low + 0x100 * high) % 0x100 == low && (low + 0x100 * high) / 0x100 == high;
  }

  /** A little-endian number of any length. */
  function Number(b: Bytes): nat {
    if b == [] then 0
    else
      var first: int := b[0];
      first + 0x100 * Number(b[1..])
  }

  lemma NumbersAreLittleEndian(b: Bytes, c: Bytes)
    requires |b| == 4 && |c| == 2
    ensures FromLE32(b) == Number(b) && FromLE16(c) == Number(c)
  {
    TwoByteNumber(c);
    TwoByteNumber(b[0..2]);
    TwoByteNumber(b[2..4]);
    assert b[1..][1..] == b[2..4];
  }

  lemma TwoByteNumber(c: Bytes)
    requires |c| == 2
    ensures FromLE16(c) == Number(c)
  {
    assert c[1..] == [c[1]] && Number([c[1]]) == c[1] as int + 0x100 * Number([]);
  }

  // Transactions

  function TxBytes(tx: Tx12): (b: Bytes)
    ensures |b| == 12
  {
    LE32(tx.sender) + LE32(tx.receiver) + LE32(tx.amount)
  }

  function UnmarshalTx12(b: Bytes): Result<Tx12> {
    if |b| != 12 then Err(Tx12Size)
    else Ok(Tx12(FromLE32(b[0..4]), FromLE32(b[4..8]), FromLE32(b[8..12])))
  }

  lemma TxRoundTrip(tx: Tx12)
    ensures UnmarshalTx12(TxBytes(tx)) == Ok(tx)
  {
    var b := TxBytes(tx);
    assert b[0..4] == LE32(tx.sender) && b[4..8] == LE32(tx.receiver) && b[8..12] == LE32(tx.amount);
    LERoundTrip(tx.sender, 0);
    LERoundTrip(tx.receiver, 0);
    LERoundTrip(tx.amount, 0);
  }

  lemma TxReverse(b: Bytes)
    requires |b| == 12
    ensures TxBytes(UnmarshalTx12(b).value) == b
  {
    LEReverse(b[0..4], [0, 0]);
    LEReverse(b[4..8], [0, 0]);
    LEReverse(b[8..12], [0, 0]);
    assert b == b[0..4] + b[4..8] + b[8..12];
  }

  function EncodeTxs(txs: seq<Tx12>): (b: Bytes)
    ensures |b| == 12 * |txs|
  {
    if txs == [] then [] else TxBytes(txs[0]) + EncodeTxs(txs[1..])
  }

  /** What `DecodeTxSlice` reads, 12 bytes at a time. */
  function DecodeTxs(b: Bytes): (txs: seq<Tx12>)
    requires |b| % 12 == 0
    ensures |txs| == |b| / 12
  {
    if b == [] then [] else [UnmarshalTx12(b[..12]).value] + DecodeTxs(b[12..])
  }

  lemma {:induction false} EncodeAppend(txs: seq<Tx12>, us: seq<Tx12>)
    ensures EncodeTxs(txs + us) == EncodeTxs(txs) + EncodeTxs(us)
  {
    if txs == [] {
      assert txs + us == us;
    } else {
      assert (txs + us)[1..] == txs[1..] + us;
      EncodeAppend(txs[1..], us);
    }
  }

  lemma EncodeNext(txs: seq<Tx12>, i: nat)
    requires i < |txs|
    ensures EncodeTxs(txs[..i + 1]) == EncodeTxs(txs[..i]) + TxBytes(txs[i])
  {
    EncodeAppend(txs[..i], [txs[i]]);
    assert txs[..i + 1] == txs[..i] + [txs[i]];
    assert EncodeTxs([txs[i]]) == TxBytes(txs[i]);
  }

  lemma {:induction false} DecodeAppend(b: Bytes, c: Bytes)
    requires |b| % 12 == 0 && |c| == 12
    ensures DecodeTxs(b + c) == DecodeTxs(b) + [UnmarshalTx12(c).value]
  {
    if b == [] {
      assert b + c == c && c[..12] == c && c[12..] == [];
    } else {
      assert (b + c)[..12] == b[..12] && (b + c)[12..] == b[12..] + c;
      DecodeAppend(b[12..], c);
    }
  }

  /** Decoding inverts encoding. */
  lemma {:induction false} DecodeEncode(txs: seq<Tx12>)
    ensures DecodeTxs(EncodeTxs(txs)) == txs
  {
    if txs != [] {
      var b := EncodeTxs(txs);
      assert b[..12] == TxBytes(txs[0]) && b[12..] == EncodeTxs(txs[1..]);
      TxRoundTrip(txs[0]);
      DecodeEncode(txs[1..]);
    }
  }

  /** Encoding inverts decoding, on every accepted payload. */
  lemma {:induction false} EncodeDecode(b: Bytes)
    requires |b| % 12 == 0
    ensures EncodeTxs(DecodeTxs(b)) == b
  {
    if b != [] {
      TxReverse(b[..12]);
      EncodeDecode(b[12..]);
      var txs := DecodeTxs(b);
      assert txs[1..] == DecodeTxs(b[12..]);
      assert b == b[..12] + b[12..];
    }
  }

  predicate ReadsAs(b: Bytes, tx: Tx12)
    requires |b| == 12
  {
    tx.sender == Number(b[..4]) && tx.receiver == Number(b[4..8]) && tx.amount == Number(b[8..])
  }

  /** A transaction is three little-endian numbers; any other length is refused. */
  lemma TxNumbers(b: Bytes)
    ensures |b| != 12 ==> UnmarshalTx12(b) == Err(Tx12Size)
    ensures |b| == 12 ==> UnmarshalTx12(b).Ok? && ReadsAs(b, UnmarshalTx12(b).value)
  {
    if |b| == 12 {
      NumbersAreLittleEndian(b[0..4], [0, 0]);
      NumbersAreLittleEndian(b[4..8], [0, 0]);
      NumbersAreLittleEndian(b[8..12], [0, 0]);
      assert b[8..] == b[8..12];
    }
  }

  /** Transaction `i` of a payload is read from the twelve bytes at `12 * i`. */
  lemma {:induction false} DecodedAt(b: Bytes, i: nat)
    requires |b| % 12 == 0 && 12 * i < |b|
    ensures ReadsAs(b[12 * i..12 * i + 12], DecodeTxs(b)[i])
  {
    hide UnmarshalTx12, ReadsAs;
    if i == 0 {
      TxNumbers(b[..12]);
    } else {
      DecodedAt(b[12..], i - 1);
      assert b[12..][12 * (i - 1)..12 * (i - 1) + 12] == b[12 * i..12 * i + 12];
    }
  }

  method CopyTx(out: array<byte>, offset: nat, tx: Tx12)
    requires offset + 12 <= out.Length
    modifies out
    ensures out[..offset + 12] == old(out[..offset]) + TxBytes(tx)
    ensures out[offset + 12..] == old(out[offset + 12..])
  {
    var enc := TxBytes(tx);
    forall k | 0 <= k < 12 {
      out[offset + k] := enc[k];
    }
  }

  /** The copy loop both encoders run, from `start` on. */
  method CopyTxs(out: array<byte>, start: nat, txs: seq<Tx12>)
    requires start + 12 * |txs| == out.Length
    modifies out
    ensures out[..] == old(out[..start]) + EncodeTxs(txs)
  {
    var offset := start;
    for i := 0 to |txs|
      invariant offset == start + 12 * i
      invariant out[..offset] == old(out[..start]) + EncodeTxs(txs[..i])
    {
      CopyTx(out, offset, txs[i]);
      EncodeNext(txs, i);
      offset := offset + 12;
    }
    assert txs[..|txs|] == txs && out[..offset] == out[..];
  }

  method EncodeTxSlice(txs: seq<Tx12>) returns (out: array<byte>)
    ensures fresh(out) && out[..] == EncodeTxs(txs)
  {
    out := new byte[12 * |txs|](_ => 0);
    CopyTxs(out, 0, txs);
  }

  method DecodeTxSlice(payload: Bytes) returns (r: Result<seq<Tx12>>)
    ensures r == if |payload| % 12 != 0 then Err(TxSliceSize) else Ok(DecodeTxs(payload))
  {
    if |payload| % 12 != 0 {
      return Err(TxSliceSize);
    }
    var out: seq<Tx12> := [];
    var offset := 0;
    for i := 0 to |payload| / 12
      invariant offset == 12 * i
      invariant out == DecodeTxs(payload[..offset])
    {
      var tx := UnmarshalTx12(payload[offset..offset + 12]);
      DecodeAppend(payload[..offset], payload[offset..offset + 12]);
      assert payload[..offset + 12] == payload[..offset] + payload[offset..offset + 12];
      out := out + [tx.value];
      offset := offset + 12;
    }
    assert payload[..offset] == payload;
    return Ok(out);
  }

  // Lane batch frames

  datatype BatchFrame = BatchFrame(flags: u16, blockIndex: u32, laneID: u16, payload: seq<Tx12>)

  /** The 20-byte header; bytes 14 and 15 are reserved and written as zero. */
  function Header(f: BatchFrame, txCount: u32): (b: Bytes)
    ensures |b| == 20
  {
    LE32(BATCH_MAGIC) + LE16(VERSION_V1) + LE16(f.flags) + LE32(f.blockIndex) + LE16(f.laneID) + LE16(0) + LE32(txCount)
  }

  function FrameBytes(f: BatchFrame): Bytes
    requires |f.payload| < 0x1_0000_0000
  {
    Header(f, |f.payload|) + EncodeTxs(f.payload)
  }

  function Parse(b: Bytes): Result<BatchFrame> {
    if |b| < 20 then Err(ShortBatch)
    else if FromLE32(b[0..4]) != BATCH_MAGIC then Err(BadBatchMagic)
    else if FromLE16(b[4..6]) != VERSION_V1 then Err(BadBatchVer)
    else if |b| != 20 + 12 * FromLE32(b[16..20]) then Err(TxCountMismatch)
    else Ok(BatchFrame(FromLE16(b[6..8]), FromLE32(b[8..12]), FromLE16(b[12..14]), DecodeTxs(b[20..])))
  }

  /** What is refused and why, in the order of the tests, and what the header fields of an accepted frame
      are, all as little-endian numbers at fixed bytes. */
  lemma ParsesExactly(b: Bytes)
    ensures var r := Parse(b);
            && (r == Err(ShortBatch) <==> |b| < 20)
            && (r == Err(BadBatchMagic) <==> |b| >= 20 && Number(b[..4]) != 0x42463131)
            && (r == Err(BadBatchVer) <==> |b| >= 20 && Number(b[..4]) == 0x42463131 && Number(b[4..6]) != 1)
            && (r == Err(TxCountMismatch) <==> |b| >= 20 && Number(b[..4]) == 0x42463131 && Number(b[4..6]) == 1
                                               && |b| != 20 + 12 * Number(b[16..20]))
            && (r.Err? ==> r.error in {ShortBatch, BadBatchMagic, BadBatchVer, TxCountMismatch})
            && (r.Ok? ==>
                  && r.value.flags == Number(b[6..8]) && r.value.blockIndex == Number(b[8..12])
                  && r.value.laneID == Number(b[12..14]) && |r.value.payload| == Number(b[16..20])
                  && r.value.payload == DecodeTxs(b[20..]))
  {
    hide Number, DecodeTxs, FromLE16, FromLE32;
    if |b| >= 20 {
      NumbersAreLittleEndian(b[0..4], b[4..6]);
      NumbersAreLittleEndian(b[8..12], b[6..8]);
      NumbersAreLittleEndian(b[16..20], b[12..14]);
    }
  }

  lemma HeaderFields(f: BatchFrame, txCount: u32)
    ensures var h := Header(f, txCount);
            && h[0..4] == LE32(BATCH_MAGIC) && h[4..6] == LE16(VERSION_V1) && h[6..8] == LE16(f.flags)
            && h[8..12] == LE32(f.blockIndex) && h[12..14] == LE16(f.laneID) && h[14..16] == LE16(0)
            && h[16..20] == LE32(txCount)
  {
  }

  /** Parsing inverts marshalling for every frame whose count fits its header. */
  lemma ParseMarshal(f: BatchFrame)
    requires |f.payload| < 0x1_0000_0000
    ensures Parse(FrameBytes(f)) == Ok(f)
  {
    var h, b := Header(f, |f.payload|), FrameBytes(f);
    HeaderFields(f, |f.payload|);
    assert b[0..4] == h[0..4] && b[4..6] == h[4..6] && b[6..8] == h[6..8] && b[8..12] == h[8..12]
        && b[12..14] == h[12..14] && b[16..20] == h[16..20];
    assert b[20..] == EncodeTxs(f.payload);
    LERoundTrip(BATCH_MAGIC, VERSION_V1);
    LERoundTrip(f.blockIndex, f.flags);
    LERoundTrip(|f.payload|, f.laneID);
    DecodeEncode(f.payload);
  }

  /** Re-marshalling an accepted payload restores it, except that the reserved bytes become zero. */
  lemma MarshalParse(b: Bytes)
    requires Parse(b).Ok?
    ensures FrameBytes(Parse(b).value) == b[14 := 0][15 := 0]
  {
    var f := Parse(b).value;
    Subslice(b, 20, 0, 4);
    Subslice(b, 20, 4, 6);
    Subslice(b, 20, 6, 8);
    Subslice(b, 20, 8, 12);
    Subslice(b, 20, 12, 14);
    Subslice(b, 20, 16, 20);
    HeaderReverse(b[..20]);
    assert Header(f, |f.payload|) == Header(f.(payload := []), |f.payload|);
    EncodeDecode(b[20..]);
    assert b[14 := 0][15 := 0] == b[..20][14 := 0][15 := 0] + b[20..];
  }

  lemma Subslice(b: Bytes, n: nat, i: nat, j: nat)
    requires i <= j <= n <= |b|
    ensures b[..n][i..j] == b[i..j]
  {
  }

  lemma HeaderReverse(h: Bytes)
    requires |h| == 20 && FromLE32(h[0..4]) == BATCH_MAGIC && FromLE16(h[4..6]) == VERSION_V1
    ensures Header(BatchFrame(FromLE16(h[6..8]), FromLE32(h[8..12]), FromLE16(h[12..14]), []), FromLE32(h[16..20]))
            == h[14 := 0][15 := 0]
  {
    LEReverse(h[0..4], h[4..6]);
    LEReverse(h[8..12], h[6..8]);
    LEReverse(h[16..20], h[12..14]);
    assert LE16(0) == [0, 0];
    assert h[14 := 0][15 := 0] == h[0..4] + h[4..6] + h[6..8] + h[8..12] + h[12..14] + [0, 0] + h[16..20];
  }

  /** No accepted frame stays accepted when cut short or extended. */
  lemma LengthIsBound(b: Bytes, c: Bytes)
    requires Parse(b).Ok? && b < c
    ensures Parse(c).Err?
    ensures forall n: nat {:trigger b[..n]} :: n < |b| ==> Parse(b[..n]).Err?
  {
    assert c[16..20] == b[16..20];
    forall n: nat {:trigger b[..n]} | n < |b| ensures Parse(b[..n]).Err? {
      if n >= 20 { assert b[..n][16..20] == b[16..20]; }
    }
  }

  method WriteHeader(out: array<byte>, f: BatchFrame, txCount: u32)
    requires out.Length >= 20
    modifies out
    ensures out[..20] == Header(f, txCount)
  {
    var header := Header(f, txCount);
    forall k | 0 <= k < 20 {
      out[k] := header[k];
    }
  }

  /** With 2^32 transactions or more the copy loop would run past the buffer and panic. */
  method MarshalBinary(f: BatchFrame) returns (out: array<byte>)
    requires |f.payload| < 0x1_0000_0000
    ensures fresh(out) && out[..] == FrameBytes(f)
  {
    var txCount: int := |f.payload| % 0x1_0000_0000;
    out := new byte[20 + 12 * txCount](_ => 0);
    WriteHeader(out, f, txCount);
    CopyTxs(out, 20, f.payload);
  }

  /** The mutable frame of the code. `UnmarshalBinary` overwrites the header fields before it
      checks the length, so a rejected payload can leave them changed. */
  class Batch {
    var flags: u16
    var blockIndex: u32
    var laneID: u16
    var payload: seq<Tx12>

    constructor (flags: u16, blockIndex: u32, laneID: u16, payload: seq<Tx12>)
      ensures Frame() == BatchFrame(flags, blockIndex, laneID, payload)
    {
      this.flags, this.blockIndex, this.laneID, this.payload := flags, blockIndex, laneID, payload;
    }

    ghost function Frame(): BatchFrame
      reads this
    {
      BatchFrame(flags, blockIndex, laneID, payload)
    }

    method UnmarshalBinary(b: Bytes) returns (r: Result<()>)
      modifies this
      ensures r.Ok? <==> Parse(b).Ok?
      ensures r.Ok? ==> Frame() == Parse(b).value
      ensures r.Err? ==> r.error == Parse(b).error
      ensures r.Err? && r.error != TxCountMismatch ==> Frame() == old(Frame())
      ensures r.Err? && r.error == TxCountMismatch ==>
                Frame() == BatchFrame(FromLE16(b[6..8]), FromLE32(b[8..12]), FromLE16(b[12..14]), old(payload))
    {
      if |b| < 20 {
        return Err(ShortBatch);
      }
      if FromLE32(b[0..4]) != BATCH_MAGIC {
        return Err(BadBatchMagic);
      }
      if FromLE16(b[4..6]) != VERSION_V1 {
        return Err(BadBatchVer);
      }
      flags := FromLE16(b[6..8]);
      blockIndex := FromLE32(b[8..12]);
      laneID := FromLE16(b[12..14]);
      var txCount: int := FromLE32(b[16..20]);
      var expected := 20 + 12 * txCount;
      if |b| != expected {
        return Err(TxCountMismatch);
      }
      var txs: seq<Tx12> := [];
      var offset := 20;
      for i := 0 to txCount
        invariant offset == 20 + 12 * i
        invariant txs == DecodeTxs(b[20..offset])
        invariant Frame() == BatchFrame(FromLE16(b[6..8]), FromLE32(b[8..12]), FromLE16(b[12..14]), old(payload))
      {
        var tx := UnmarshalTx12(b[offset..offset + 12]);
        DecodeAppend(b[20..offset], b[offset..offset + 12]);
        assert b[20..offset + 12] == b[20..offset] + b[offset..offset + 12];
        txs := txs + [tx.value];
        offset := offset + 12;
      }
      assert b[20..offset] == b[20..];
      payload := txs;
      return Ok(());
    }
  }

  // Commitment preimages

  /** What `CommitmentFromTxs` hashes. */
  function BlockPreimage(blockIndex: u32, txs: seq<Tx12>): Bytes {
    LE32(blockIndex) + EncodeTxs(txs)
  }

  lemma BlockPreimageInjective(i: u32, txs: seq<Tx12>, j: u32, us: seq<Tx12>)
    requires BlockPreimage(i, txs) == BlockPreimage(j, us)
    ensures i == j && txs == us
  {
    var b, c := BlockPreimage(i, txs), BlockPreimage(j, us);
    assert b[..4] == LE32(i) && c[..4] == LE32(j);
    assert b[4..] == EncodeTxs(txs) && c[4..] == EncodeTxs(us);
    LERoundTrip(i, 0);
    LERoundTrip(j, 0);
    DecodeEncode(txs);
    DecodeEncode(us);
  }

  /** They are the index in four little-endian bytes, and then the transactions as a payload. */
  lemma BlockPreimageLayout(blockIndex: u32, txs: seq<Tx12>)
    ensures var b := BlockPreimage(blockIndex, txs);
            && |b| == 4 + 12 * |txs| && Number(b[..4]) == blockIndex && DecodeTxs(b[4..]) == txs
  {
    var b := BlockPreimage(blockIndex, txs);
    assert b[..4] == LE32(blockIndex) && b[4..] == EncodeTxs(txs);
    LERoundTrip(blockIndex, 0);
    NumbersAreLittleEndian(b[..4], [0, 0]);
    DecodeEncode(txs);
  }

  type Digest = b: Bytes | |b| == 32 witness seq(32, _ => 0)

  /** The lanes of a lane-hash map from `lane` up with their hashes, in ascending order of lane. */
  function LaneHashes(m: map<u16, Digest>, lane: nat): seq<(u16, Digest)>
    requires lane <= 0x1_0000
    decreases 0x1_0000 - lane
  {
    if lane == 0x1_0000 then []
    else (if lane in m then [(lane, m[lane])] else []) + LaneHashes(m, lane + 1)
  }

  function LanePreimage(hs: seq<(u16, Digest)>): Bytes {
    if hs == [] then [] else LE16(hs[0].0) + hs[0].1 + LanePreimage(hs[1..])
  }

  lemma {:induction false} LaneHashesAreTheMap(m: map<u16, Digest>, lane: nat, l: u16, h: Digest)
    requires lane <= 0x1_0000
    ensures (l, h) in LaneHashes(m, lane) <==> l in m && m[l] == h && lane <= l
    decreases 0x1_0000 - lane
  {
    if lane < 0x1_0000 { LaneHashesAreTheMap(m, lane + 1, l, h); }
  }

  /** The lanes come in ascending order, each once. */
  lemma {:induction false} LaneHashesAscend(m: map<u16, Digest>, lane: nat, i: nat, j: nat)
    requires lane <= 0x1_0000 && i <= j < |LaneHashes(m, lane)|
    ensures lane <= LaneHashes(m, lane)[i].0
    ensures i < j ==> LaneHashes(m, lane)[i].0 < LaneHashes(m, lane)[j].0
    decreases 0x1_0000 - lane
  {
    if lane < 0x1_0000 {
      var skipped := if lane in m then 1 else 0;
      if j >= skipped { LaneHashesAscend(m, lane + 1, if i >= skipped then i - skipped else j - skipped, j - skipped); }
    }
  }

  /** Entry `i` of the preimage is at byte `34 * i`: the lane in two little-endian bytes, then its hash. */
  lemma {:induction false} LanePreimageAt(hs: seq<(u16, Digest)>, i: nat)
    requires i < |hs|
    ensures |LanePreimage(hs)| == 34 * |hs|
    ensures var at := LanePreimage(hs)[34 * i..34 * i + 34];
            Number(at[..2]) == hs[i].0 && at[2..] == hs[i].1
  {
    var b := LanePreimage(hs);
    LanePreimageSize(hs);
    if i == 0 {
      assert b[..34][..2] == LE16(hs[0].0);
      LE16RoundTrip(hs[0].0);
      TwoByteNumber(LE16(hs[0].0));
    } else {
      LanePreimageAt(hs[1..], i - 1);
      assert b[34..] == LanePreimage(hs[1..]);
      assert b[34..][34 * (i - 1)..34 * (i - 1) + 34] == b[34 * i..34 * i + 34];
    }
  }

  lemma {:induction false} LanePreimageSize(hs: seq<(u16, Digest)>)
    ensures |LanePreimage(hs)| == 34 * |hs|
  {
    if hs != [] { LanePreimageSize(hs[1..]); }
  }

  lemma {:induction false} LanePreimageAppend(hs: seq<(u16, Digest)>, e: (u16, Digest))
    ensures LanePreimage(hs + [e]) == LanePreimage(hs) + (LE16(e.0) + e.1)
  {
    if hs == [] {
      assert hs + [e] == [e];
      assert LanePreimage([e][1..]) == [];
    } else {
      assert (hs + [e])[1..] == hs[1..] + [e];
      LanePreimageAppend(hs[1..], e);
    }
  }

  lemma LanePreimageNext(hs: seq<(u16, Digest)>, i: nat)
    requires i < |hs|
    ensures LanePreimage(hs[..i + 1]) == LanePreimage(hs[..i]) + (LE16(hs[i].0) + hs[i].1)
  {
    LanePreimageAppend(hs[..i], hs[i]);
    assert hs[..i + 1] == hs[..i] + [hs[i]];
  }

  /** The aggregate commitment over a block's lane hashes; `sha` stands for SHA-256. */
  method AggregateCommitment(m: map<u16, Digest>, sha: Bytes -> Digest) returns (r: Option<Digest>)
    ensures r == if m == map[] then None else Some(sha(LanePreimage(LaneHashes(m, 0))))
  {
    if m == map[] {
      return None;
    }
    var lanes := LaneHashes(m, 0);
    var payload: Bytes := [];
    for i := 0 to |lanes|
      invariant payload == LanePreimage(lanes[..i])
    {
      LanePreimageNext(lanes, i);
      payload := payload + (LE16(lanes[i].0) + lanes[i].1);
    }
    assert lanes[..|lanes|] == lanes;
    return Some(sha(payload));
  }

  lemma {:induction false} LanePreimageReadBack(hs: seq<(u16, Digest)>, ks: seq<(u16, Digest)>)
    requires LanePreimage(hs) == LanePreimage(ks)
    ensures hs == ks
  {
    var b, c := LanePreimage(hs), LanePreimage(ks);
    if hs != [] && ks != [] {
      assert b[..2] == LE16(hs[0].0) && c[..2] == LE16(ks[0].0);
      LE16RoundTrip(hs[0].0);
      LE16RoundTrip(ks[0].0);
      assert b[2..34] == hs[0].1 && c[2..34] == ks[0].1;
      assert b[34..] == LanePreimage(hs[1..]) && c[34..] == LanePreimage(ks[1..]);
      LanePreimageReadBack(hs[1..], ks[1..]);
      assert hs == [hs[0]] + hs[1..] && ks == [ks[0]] + ks[1..];
    }
  }

  /** Different lane-hash maps have different preimages. */
  lemma LanePreimageInjective(m: map<u16, Digest>, n: map<u16, Digest>)
    requires LanePreimage(LaneHashes(m, 0)) == LanePreimage(LaneHashes(n, 0))
    ensures m == n
  {
    LanePreimageReadBack(LaneHashes(m, 0), LaneHashes(n, 0));
    forall l: u16 | l in m ensures l in n && n[l] == m[l] {
      LaneHashesAreTheMap(m, 0, l, m[l]);
      LaneHashesAreTheMap(n, 0, l, m[l]);
    }
    forall l: u16 | l in n ensures l in m {
      LaneHashesAreTheMap(n, 0, l, n[l]);
      LaneHashesAreTheMap(m, 0, l, n[l]);
    }
  }
}
