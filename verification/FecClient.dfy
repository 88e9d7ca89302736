/** internal/variants/udp-fec/client.go: splitting a payload into padded shards, framing each
    shard, and what one lost frame, recovery and reassembly give back. */
module FecClient {
  import opened Arithmetic
  import opened Wrappers
  import opened Bytes
  import opened Xor
  import opened PacketCodec
  import opened Fec

  const FRAME_HEADER: nat := 8 + 1

  function ShardSize(len: nat, k: nat): (r: nat)
    requires k > 0
    ensures r == 0 <==> len == 0
  {
    (len + k - 1) / k
  }

  /** payload[start..start + size], cut at the end of the payload and padded with zeros. */
  function PaddedAt(payload: seq<byte>, size: nat, start: nat): (r: seq<byte>)
    ensures |r| == size
  {
    var end := Min(start + size, |payload|);
    if start < |payload| then payload[start..end] + Zeros(size - (end - start)) else Zeros(size)
  }

  function DataShard(payload: seq<byte>, size: nat, i: nat): (r: seq<byte>)
    ensures |r| == size
  {
    PaddedAt(payload, size, i * size)
  }

  function Split(payload: seq<byte>, k: nat): (r: seq<seq<byte>>)
    requires k > 0
    ensures |r| == k && Rectangular(r, ShardSize(|payload|, k))
  {
    seq(k, i requires 0 <= i < k => DataShard(payload, ShardSize(|payload|, k), i))
  }

  function Concat(rows: seq<seq<byte>>): (r: seq<byte>) {
    if rows == [] then [] else Concat(rows[..|rows| - 1]) + rows[|rows| - 1]
  }

  /** Append the data shards and cut the result to the payload's length. */
  function Reassemble(rows: seq<seq<byte>>, len: nat): (r: seq<byte>) {
    var all := Concat(rows);
    if |all| > len then all[..len] else all
  }

  lemma DataShardStart(payload: seq<byte>, size: nat, i: nat)
    ensures i * size >= 0 && DataShard(payload, size, i) == PaddedAt(payload, size, i * size)
  {
  }

  /** One round of the copy loop, on a freshly zeroed row. */
  method CopyShard(payload: seq<byte>, shardSize: nat, start: nat, zeroed: seq<byte>) returns (row: seq<byte>)
    requires zeroed == Zeros(shardSize)
    ensures row == PaddedAt(payload, shardSize, start)
  {
    var end := start + shardSize;
    if end > |payload| {
      end := |payload|;
    }
    row := zeroed;
    if start < |payload| {
      hide Zeros;
      assert zeroed[end - start..] == Zeros(shardSize - (end - start));
      row := payload[start..end] + zeroed[end - start..];
    }
  }

  /** Byte j of a shard that starts at `start`. */
  lemma PaddedByte(payload: seq<byte>, size: nat, start: nat, j: nat)
    requires j < size
    ensures PaddedAt(payload, size, start)[j] == if start + j < |payload| then payload[start + j] else 0
  {
  }

  lemma DataShardByte(payload: seq<byte>, size: nat, i: nat, j: nat)
    requires j < size
    ensures i * size >= 0
    ensures DataShard(payload, size, i)[j] == if i * size + j < |payload| then payload[i * size + j] else 0
  {
    DataShardStart(payload, size, i);
    PaddedByte(payload, size, i * size, j);
  }

  /** The generator's allocation and copy loops; the last, unused row is the one Encode replaces. */
  method PadAndSplit(payload: seq<byte>, k: nat) returns (shards: seq<seq<byte>>)
    requires k > 0
    ensures |shards| == k + 1 && shards[..k] == Split(payload, k)
    ensures var size := ShardSize(|payload|, k);
            && shards[k] == Zeros(size)
            && forall i: nat, j: nat :: i < k && j < size ==>
                 i * size >= 0 && |shards[i]| == size
                 && shards[i][j] == if i * size + j < |payload| then payload[i * size + j] else 0
  {
    hide DataShard;
    var dataLen := |payload|;
    var shardSize := (dataLen + k - 1) / k;
    shards := [];
    for i := 0 to k + 1
      invariant |shards| == i
      invariant forall j :: 0 <= j < i ==> shards[j] == Zeros(shardSize)
    {
      shards := shards + [Zeros(shardSize)];
    }
    for i := 0 to k
      invariant |shards| == k + 1
      invariant forall j :: 0 <= j < i ==> shards[j] == DataShard(payload, shardSize, j)
      invariant forall j :: i <= j <= k ==> shards[j] == Zeros(shardSize)
    {
      DataShardStart(payload, shardSize, i);
      var row := CopyShard(payload, shardSize, i * shardSize, shards[i]);
      shards := shards[i := row];
    }
    forall i: nat, j: nat | i < k && j < shardSize
      ensures i * shardSize >= 0
      ensures shards[i][j] == if i * shardSize + j < |payload| then payload[i * shardSize + j] else 0
    {
      DataShardByte(payload, shardSize, i, j);
    }
  }

  lemma CancelFactor(a: nat, b: nat, k: nat)
    requires a * k < b * k
    ensures a < b
  {
  }

  /** k rows of the rounded-up size hold the payload, and no row is longer than the payload. */
  lemma ShardSizeCovers(len: nat, k: nat)
    requires k > 0
    ensures len <= k * ShardSize(len, k)
    ensures len > 0 ==> k * (ShardSize(len, k) - 1) < len
    ensures ShardSize(len, k) <= len
  {
    var q, r := (len + k - 1) / k, (len + k - 1) % k;
    assert len + k - 1 == q * k + r;
    assert q * k == k * q;
    assert (len + 1) * k == len * k + k;
    TimesMonotone(1, k, len);
    assert len * k == k * len;
    CancelFactor(q, len + 1, k);
  }

  lemma PrefixGrows(payload: seq<byte>, size: nat, front: seq<byte>)
    requires var m := Min(|front|, |payload|); front[..m] == payload[..m]
    ensures var m := Min(|front| + size, |payload|);
            (front + PaddedAt(payload, size, |front|))[..m] == payload[..m]
  {
  }

  /** The first n shards hold the first n * size bytes of the payload. */
  lemma {:induction false} ConcatIsPrefix(payload: seq<byte>, size: nat, rows: seq<seq<byte>>)
    requires forall i :: 0 <= i < |rows| ==> rows[i] == DataShard(payload, size, i)
    ensures |Concat(rows)| == |rows| * size
    ensures var m := Min(|rows| * size, |payload|); Concat(rows)[..m] == payload[..m]
  {
    hide PaddedAt;
    if rows != [] {
      var n := |rows| - 1;
      ConcatIsPrefix(payload, size, rows[..n]);
      assert |rows| * size == n * size + size;
      assert rows[n] == DataShard(payload, size, n);
      PrefixGrows(payload, size, Concat(rows[..n]));
    }
  }

  lemma SplitReassembles(payload: seq<byte>, k: nat)
    requires k > 0
    ensures Reassemble(Split(payload, k), |payload|) == payload
  {
    var size := ShardSize(|payload|, k);
    ShardSizeCovers(|payload|, k);
    ConcatIsPrefix(payload, size, Split(payload, k));
  }

  /** fecShard: the 9-byte header and the shard. */
  datatype Frame = Frame(packetID: uint64, shardID: byte, data: seq<byte>) {
    function Layout(): (r: seq<byte>)
      ensures |r| == FRAME_HEADER + |data|
    {
      BigEndian(packetID, 8) + [shardID] + data
    }

    method SerializeTo(buf: array<byte>) returns (out: array<byte>)
      modifies buf
      ensures var size := FRAME_HEADER + |data|;
              && (if size <= buf.Length then out == buf else fresh(out) && out.Length == size && unchanged(buf))
              && out[..size] == Layout()
              && (out == buf ==> buf[size..] == old(buf[size..]))
    {
      hide BigEndian;
      var totalLen := 8 + 1 + |data|;
      out := buf;
      if buf.Length < totalLen {
        out := new byte[totalLen];
      }
      PutBigEndian(out, 0, 8, packetID, []);
      Copy(out, 8, [shardID], BigEndian(packetID, 8));
      Copy(out, 9, data, BigEndian(packetID, 8) + [shardID]);
    }
  }

  /** The receiver's reading of the header; shorter datagrams are dropped. */
  function ParseFrame(s: seq<byte>): (r: Result<Frame, ParseError>) {
    if |s| < FRAME_HEADER then Err(TooShort) else Ok(Frame(U64At(s, 0), s[8], s[9..]))
  }

  /** A frame byte by byte. */
  lemma FrameFormat(f: Frame)
    ensures DigitsAt(f.Layout(), 0, 8, f.packetID) && f.Layout()[8] == f.shardID && f.Layout()[9..] == f.data
  {
    hide BigEndian;
    EncodedDigits(f.Layout(), 0, 8, f.packetID);
  }

  lemma FrameRoundTrip(f: Frame)
    ensures ParseFrame(f.Layout()) == Ok(f)
  {
    hide BigEndian, FromBigEndian;
    var s := f.Layout();
    PowerValues();
    BigEndianRoundTrip(f.packetID, 8);
    assert s[0..8] == BigEndian(f.packetID, 8);
    assert s[9..] == f.data;
  }

  /** The data shards of a payload followed by their parity. */
  function Encoded(payload: seq<byte>, k: nat): (r: seq<seq<byte>>)
    requires k > 0
    ensures |r| == k + 1 && Rectangular(r, ShardSize(|payload|, k))
  {
    Split(payload, k) + [FoldRows(Split(payload, k), ShardSize(|payload|, k))]
  }

  /** uint8(i) */
  function ShardNumber(i: nat): (r: byte)
    ensures (i - r) % 256 == 0
  {
    i % 256
  }

  /** The k data shards and their parity have numbers of their own exactly up to 255 data shards. */
  lemma ShardNumbersDistinct(k: nat)
    ensures (forall i: nat, j: nat :: i < j <= k ==> ShardNumber(i) != ShardNumber(j)) <==> k <= 255
  {
    assert ShardNumber(0) == ShardNumber(256);
  }

  function SentFrame(id: uint64, payload: seq<byte>, k: nat, i: nat): (r: seq<byte>)
    requires 0 < k && i <= k
  {
    Frame(id, ShardNumber(i), Encoded(payload, k)[i]).Layout()
  }

  /** What the receiver holds for Recover: the shard of every frame that arrived, nil for the others. */
  function Received(id: uint64, payload: seq<byte>, k: nat, lost: set<nat>): (r: seq<Shard>)
    requires 0 < k < 256
    ensures |r| == k + 1
  {
    seq(k + 1, i requires 0 <= i <= k =>
      var f := ParseFrame(SentFrame(id, payload, k, i));
      if i in lost || f.Err? then Nil else Shard.Bytes(f.value.data))
  }

  lemma ReceivedShards(id: uint64, payload: seq<byte>, k: nat, lost: set<nat>)
    requires 0 < k < 256
    ensures forall i :: 0 <= i <= k ==>
              Received(id, payload, k, lost)[i] == if i in lost then Nil else Shard.Bytes(Encoded(payload, k)[i])
  {
  }

  /** Scanning equally long shards: one hole is located, two are refused. */
  lemma {:induction false} ScanHoles(shards: seq<Shard>, size: nat, n: nat)
    requires n <= |shards| && size > 0
    requires forall i :: 0 <= i < n ==> shards[i].Missing() || |shards[i].Payload()| == size
    ensures match ScanShards(shards, n)
            case Ok(scan) => scan.size == 0 || scan.size == size
            case Err(e) =>
              e == MultipleMissing && exists i, j :: 0 <= i < j < n && shards[i].Missing() && shards[j].Missing()
  {
    if n > 0 {
      ScanHoles(shards, size, n - 1);
      var scan := ScanShards(shards, n - 1);
      if scan.Ok? && shards[n - 1].Missing() && scan.value.missing != -1 {
        assert shards[scan.value.missing].Missing();
      }
    }
  }

  /** Leaving row m out of an encoding and folding the rest gives row m back. */
  lemma FoldOfOthers(rows: seq<seq<byte>>, size: nat, m: nat)
    requires m <= |rows| && Rectangular(rows, size)
    ensures var all := rows + [FoldRows(rows, size)];
            Rectangular(Others(all, m), size) && FoldRows(Others(all, m), size) == all[m]
  {
    var all := rows + [FoldRows(rows, size)];
    forall i | 0 <= i < size
      ensures FoldRows(Others(all, m), size)[i] == all[m][i]
    {
      var column := Column(rows, i);
      var whole := column + [Fold(column)];
      assert Column(Others(all, m), i) == whole[..m] + whole[m + 1..];
      FoldRecovers(column, m);
      assert whole[m] == all[m][i];
    }
  }

  lemma AtMostOneHole(shards: seq<Shard>, lost: set<nat>, k: nat, missing: int)
    requires |shards| == k + 1
    requires forall i :: 0 <= i <= k ==> (shards[i].Missing() <==> i in lost)
    requires forall i :: 0 <= i <= k ==> (shards[i].Missing() <==> i == missing)
    ensures forall i, j :: i in lost && j in lost && i <= k && j <= k ==> i == j
  {
  }

  lemma OneHoleFilled(payload: seq<byte>, k: nat, shards: seq<Shard>, m: nat)
    requires 0 < k && |shards| == k + 1 && m <= k
    requires forall i :: 0 <= i <= k ==> shards[i] == if i == m then Nil else Shard.Bytes(Encoded(payload, k)[i])
    ensures var size := ShardSize(|payload|, k);
            && Rectangular(Others(Payloads(shards), m), size)
            && shards[m := Shard.Bytes(FoldRows(Others(Payloads(shards), m), size))] == Wrap(Encoded(payload, k))
  {
    var rows, size := Encoded(payload, k), ShardSize(|payload|, k);
    assert Others(Payloads(shards), m) == Others(rows, m);
    FoldOfOthers(Split(payload, k), size, m);
  }

  /** Two lost shards end the scan; otherwise it finds the one lost, if any. */
  lemma ScanOfLost(shards: seq<Shard>, size: nat, k: nat, lost: set<nat>)
    requires 0 < k && |shards| == k + 1 && size > 0
    requires forall i :: 0 <= i <= k ==> (shards[i].Missing() <==> i in lost)
    requires forall i :: 0 <= i <= k ==> shards[i].Missing() || |shards[i].Payload()| == size
    ensures match ScanShards(shards, k + 1)
            case Err(e) => e == MultipleMissing && exists i, j :: i in lost && j in lost && i <= k && j <= k && i != j
            case Ok(scan) =>
              && scan.size == size
              && (forall i :: 0 <= i <= k ==> (i in lost <==> i == scan.missing))
              && forall i, j :: i in lost && j in lost && i <= k && j <= k ==> i == j
  {
    ScanHoles(shards, size, k + 1);
    match ScanShards(shards, k + 1)
    case Err(_) =>
      var i, j :| 0 <= i < j <= k && shards[i].Missing() && shards[j].Missing();
      assert i in lost && j in lost;
    case Ok(scan) =>
      AtMostOneHole(shards, lost, k, scan.missing);
  }

  /** Recover undoes the loss exactly when at most one frame was lost: every shard, the parity
      included, is back, and with two or more losses the answer is always MultipleMissing. */
  lemma RecoverUndoesOneLoss(id: uint64, payload: seq<byte>, k: nat, lost: set<nat>)
    requires 0 < k < 256 && payload != []
    ensures Recovered(k + 1, Received(id, payload, k, lost)) ==
            if forall i, j :: i in lost && j in lost && i <= k && j <= k ==> i == j
            then Ok(Wrap(Encoded(payload, k))) else Err(MultipleMissing)
  {
    var shards, rows, size := Received(id, payload, k, lost), Encoded(payload, k), ShardSize(|payload|, k);
    ReceivedShards(id, payload, k, lost);
    ShardSizeCovers(|payload|, k);
    hide Encoded, FoldRows, Others, Received, ScanShards;
    ScanOfLost(shards, size, k, lost);
    var scan := ScanShards(shards, k + 1);
    if scan.Ok? && scan.value.missing == -1 {
      assert shards == Wrap(rows);
    } else if scan.Ok? {
      OneHoleFilled(payload, k, shards, scan.value.missing);
    }
  }

  /** Split, encode, frame, lose at most one frame, recover, concatenate the data shards, cut:
      the payload is back. */
  lemma EndToEnd(id: uint64, payload: seq<byte>, k: nat, lost: set<nat>)
    requires 0 < k < 256 && payload != []
    requires forall i, j :: i in lost && j in lost && i <= k && j <= k ==> i == j
    ensures var r := Recovered(k + 1, Received(id, payload, k, lost));
            r.Ok? && Reassemble(Payloads(r.value[..k]), |payload|) == payload
  {
    RecoverUndoesOneLoss(id, payload, k, lost);
    assert Payloads(Wrap(Encoded(payload, k))[..k]) == Split(payload, k);
    SplitReassembles(payload, k);
  }

  /** The payload split and encoded; the empty one is refused. */
  method EncodePayload(encoder: XorEncoder, payload: seq<byte>) returns (encoded: Result<seq<Shard>, EncodeError>)
    requires 0 < encoder.dataShards
    ensures encoded.Ok? <==> payload != []
    ensures encoded.Ok? ==> Payloads(encoded.value) == Encoded(payload, encoder.dataShards)
    ensures encoded.Ok? ==> forall i :: 0 <= i < |encoded.value| ==> encoded.value[i].Bytes?
  {
    hide DataShard, FoldRows, IsParity;
    var k := encoder.dataShards;
    var shards := PadAndSplit(payload, k);
    ShardSizeCovers(|payload|, k);
    assert Payloads(Wrap(shards[..k])) == Split(payload, k);
    assert Validate(Wrap(shards[..k]), k).Ok?;
    encoded := encoder.Encode(Wrap(shards[..k]));
  }

  /** What the sender's loop puts on the wire, frame after frame from the one reused buffer, is what
      Received above reads. */
  method SendShards(encoder: XorEncoder, id: uint64, payload: seq<byte>, serializeBuf: array<byte>)
    returns (frames: seq<seq<byte>>)
    requires 0 < encoder.dataShards
    modifies serializeBuf
    ensures payload == [] <==> frames == []
    ensures payload != [] ==>
              |frames| == encoder.dataShards + 1
              && forall i :: 0 <= i < |frames| ==> frames[i] == SentFrame(id, payload, encoder.dataShards, i)
  {
    hide Encoded, BigEndian;
    var k := encoder.dataShards;
    var encoded := EncodePayload(encoder, payload);
    frames := [];
    if encoded.Err? {
      return;
    }
    for i := 0 to |encoded.value|
      invariant |frames| == i
      invariant forall j :: 0 <= j < i ==> frames[j] == SentFrame(id, payload, k, j)
    {
      assert encoded.value[i].bytes == Payloads(encoded.value)[i];
      var frame := Frame(id, ShardNumber(i), encoded.value[i].bytes);
      var data := frame.SerializeTo(serializeBuf);
      frames := frames + [data[..FRAME_HEADER + |frame.data|]];
    }
  }
}
