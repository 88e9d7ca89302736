/** pkg/fec/xor.go and the sending half of internal/variants/udp-fec: pad-and-split, one parity
    shard, the 9-byte frame header, recovery of one lost shard, and reassembly. */
module Fec {
  import opened Wrappers
  import opened Bytes
  import opened Xor

  /** A Go slice that may be nil. */
  datatype Shard = Nil | Bytes(bytes: seq<byte>) {
    predicate Missing() {
      Nil? || bytes == []
    }

    function Payload(): (r: seq<byte>)
      ensures r == [] <==> Missing()
    {
      if Nil? then [] else bytes
    }
  }

  datatype EncodeError = WrongShardCount | NoDataShards | NilShard | UnequalShards | EmptyShards

  datatype RecoverError = WrongTotalCount | MultipleMissing | UnequalSizes | AllMissing

  /** What Recover knows after looking at a prefix of the shards. */
  datatype Scan = Scan(missing: int, size: nat)

  function Payloads(shards: seq<Shard>): (r: seq<seq<byte>>)
    ensures |r| == |shards|
    ensures forall i :: 0 <= i < |shards| ==> r[i] == shards[i].Payload()
  {
    seq(|shards|, i requires 0 <= i < |shards| => shards[i].Payload())
  }

  function Wrap(rows: seq<seq<byte>>): (r: seq<Shard>)
    ensures |r| == |rows|
    ensures forall i :: 0 <= i < |rows| ==> r[i] == Bytes(rows[i])
  {
    seq(|rows|, i requires 0 <= i < |rows| => Bytes(rows[i]))
  }

  predicate Rectangular(rows: seq<seq<byte>>, size: nat) {
    forall i :: 0 <= i < |rows| ==> |rows[i]| == size
  }

  function Column(rows: seq<seq<byte>>, i: nat): (r: seq<byte>)
    requires forall j :: 0 <= j < |rows| ==> i < |rows[j]|
    ensures |r| == |rows|
    ensures forall j :: 0 <= j < |rows| ==> r[j] == rows[j][i]
  {
    seq(|rows|, j requires 0 <= j < |rows| => rows[j][i])
  }

  /** The byte-wise exclusive or of equally long rows. */
  function FoldRows(rows: seq<seq<byte>>, size: nat): (r: seq<byte>)
    requires Rectangular(rows, size)
    ensures |r| == size
  {
    seq(size, i requires 0 <= i < size => Fold(Column(rows, i)))
  }

  /** Bit by bit: a bit of the parity is set exactly when an odd number of rows have it set. */
  ghost predicate IsParity(rows: seq<seq<byte>>, parity: seq<byte>)
    requires Rectangular(rows, |parity|)
  {
    forall i, k: nat :: 0 <= i < |parity| && k < 8 ==>
      Bit(parity[i], k) == |set j: nat | j < |rows| && Bit(rows[j][i], k) == 1| % 2
  }

  lemma FoldRowsIsParity(rows: seq<seq<byte>>, size: nat)
    requires Rectangular(rows, size)
    ensures IsParity(rows, FoldRows(rows, size))
  {
    hide Fold, Bit;
    var parity := FoldRows(rows, size);
    forall i, k: nat | 0 <= i < size && k < 8
      ensures Bit(parity[i], k) == |set j: nat | j < |rows| && Bit(rows[j][i], k) == 1| % 2
    {
      FoldAt(Column(rows, i), k);
      assert SetAt(Column(rows, i), k) == set j: nat | j < |rows| && Bit(rows[j][i], k) == 1;
    }
  }

  /** The first complaint Encode's validation loop has about shards[..n], or their common size. */
  function Validate(shards: seq<Shard>, n: nat): (r: Result<nat, EncodeError>)
    requires n <= |shards|
    ensures r.Ok? <==> forall i :: 0 <= i < n ==> shards[i].Bytes? && |shards[i].Payload()| == |shards[0].Payload()|
    ensures r.Ok? && n > 0 ==> r.value == |shards[0].Payload()|
  {
    if n == 0 then Ok(0)
    else
      match Validate(shards, n - 1)
      case Err(e) => Err(e)
      case Ok(size) =>
        if shards[n - 1].Nil? then Err(NilShard)
        else if n == 1 then Ok(|shards[0].bytes|)
        else if |shards[n - 1].bytes| != size then Err(UnequalShards)
        else Ok(size)
  }

  /** A complaint is about the first shard that is nil or of another length. */
  lemma {:induction false} ValidateComplaint(shards: seq<Shard>, n: nat) returns (m: nat)
    requires n <= |shards| && Validate(shards, n).Err?
    ensures m < n && Validate(shards, m).Ok?
    ensures Validate(shards, n).error == if shards[m].Nil? then NilShard else UnequalShards
    ensures shards[m].Bytes? ==> |shards[m].Payload()| != |shards[0].Payload()|
  {
    if Validate(shards, n - 1).Err? {
      m := ValidateComplaint(shards, n - 1);
    } else {
      m := n - 1;
    }
  }

  /** Recover's scan of shards[..n]: the missing index (-1 for none) and the size of the present ones. */
  function ScanShards(shards: seq<Shard>, n: nat): (r: Result<Scan, RecoverError>)
    requires n <= |shards|
    ensures r.Ok? ==> -1 <= r.value.missing < n
    ensures r.Ok? ==> forall i :: 0 <= i < n ==> (shards[i].Missing() <==> i == r.value.missing)
    ensures r.Ok? ==> forall i :: 0 <= i < n && i != r.value.missing ==> |shards[i].Payload()| == r.value.size
    ensures r.Ok? ==> (r.value.size == 0 <==> n == if r.value.missing == -1 then 0 else 1)
  {
    if n == 0 then Ok(Scan(-1, 0))
    else
      match ScanShards(shards, n - 1)
      case Err(e) => Err(e)
      case Ok(scan) =>
        var sh := shards[n - 1];
        if sh.Missing() then
          if scan.missing != -1 then Err(MultipleMissing) else Ok(scan.(missing := n - 1))
        else if scan.size == 0 then Ok(scan.(size := |sh.bytes|))
        else if |sh.bytes| != scan.size then Err(UnequalSizes)
        else Ok(scan)
  }

  /** A refusal is about the first shard that is the second missing one, or not of the others' length. */
  lemma {:induction false} ScanComplaint(shards: seq<Shard>, n: nat) returns (m: nat)
    requires n <= |shards| && ScanShards(shards, n).Err?
    ensures m < n && ScanShards(shards, m).Ok?
    ensures ScanShards(shards, n).error == if shards[m].Missing() then MultipleMissing else UnequalSizes
    ensures if shards[m].Missing() then exists j :: 0 <= j < m && shards[j].Missing()
            else exists j :: 0 <= j < m && !shards[j].Missing() && |shards[j].Payload()| != |shards[m].Payload()|
  {
    if ScanShards(shards, n - 1).Err? {
      m := ScanComplaint(shards, n - 1);
    } else {
      m := n - 1;
      var scan := ScanShards(shards, m).value;
      if shards[m].Missing() {
        assert shards[scan.missing].Missing();
      } else {
        var j := if scan.missing == 0 then 1 else 0;
        assert j < m && !shards[j].Missing();
      }
    }
  }

  /** All rows but row m; m == -1 leaves none out. */
  function Others(rows: seq<seq<byte>>, m: int): (r: seq<seq<byte>>)
    requires -1 <= m < |rows|
    ensures |r| == if m == -1 then |rows| else |rows| - 1
  {
    if m == -1 then rows else rows[..m] + rows[m + 1..]
  }

  /** Recover as a function: what the method below computes with its loops. */
  function Recovered(total: int, shards: seq<Shard>): (r: Result<seq<Shard>, RecoverError>) {
    if |shards| != total then Err(WrongTotalCount)
    else
      match ScanShards(shards, |shards|)
      case Err(e) => Err(e)
      case Ok(scan) =>
        if scan.missing == -1 then Ok(shards)
        else if scan.size == 0 then Err(AllMissing)
        else Ok(shards[scan.missing := Bytes(FoldRows(Others(Payloads(shards), scan.missing), scan.size))])
  }

  /** The two refusals that are not about the scan. */
  lemma RecoverRefusals(total: int, shards: seq<Shard>)
    ensures Recovered(total, shards) == Err(WrongTotalCount) <==> |shards| != total
    ensures Recovered(total, shards) == Err(AllMissing) <==> |shards| == total == 1 && shards[0].Missing()
  {
    hide FoldRows, Others;
    if |shards| == total && ScanShards(shards, |shards|).Err? {
      var m := ScanComplaint(shards, |shards|);
    }
  }

  lemma FoldStep(column: seq<byte>, n: nat)
    requires n <= |column|
    ensures Fold(column[..0]) == 0
    ensures n < |column| ==> Fold(column[..n + 1]) == XorByte(Fold(column[..n]), column[n])
  {
    if n < |column| {
      assert column[..n + 1][..n] == column[..n];
    }
  }

  lemma OthersAt(rows: seq<seq<byte>>, skip: int, j: nat, i: nat)
    requires -1 <= skip < |rows| && j < |rows| && j != skip
    requires forall k :: 0 <= k < |Others(rows, skip)| ==> i < |Others(rows, skip)[k]|
    ensures var seen := if skip == -1 || j < skip then j else j - 1;
            && seen < |Others(rows, skip)| && i < |rows[j]|
            && Column(Others(rows, skip), i)[seen] == rows[j][i]
  {
    assert Others(rows, skip)[if skip == -1 || j < skip then j else j - 1] == rows[j];
  }

  /** The inner loop shared by Encode (skip == -1) and Recover: byte i of every shard but the skipped one. */
  method XorColumn(shards: seq<Shard>, skip: int, size: nat, i: nat) returns (val: byte)
    requires -1 <= skip < |shards| && i < size
    requires Rectangular(Others(Payloads(shards), skip), size)
    ensures val == Fold(Column(Others(Payloads(shards), skip), i))
  {
    hide XorByte, Fold, Others, Column;
    ghost var column := Column(Others(Payloads(shards), skip), i);
    FoldStep(column, 0);
    val := 0;
    for j := 0 to |shards|
      invariant |column| == if skip == -1 then |shards| else |shards| - 1
      invariant val == Fold(column[..if skip == -1 || j <= skip then j else j - 1])
    {
      if j != skip {
        ghost var seen := if skip == -1 || j < skip then j else j - 1;
        OthersAt(Payloads(shards), skip, j, i);
        FoldStep(column, seen);
        val := XorByte(val, shards[j].bytes[i]);
      }
    }
    assert column[..|column|] == column;
  }

  /** The outer loop. */
  method XorRows(shards: seq<Shard>, skip: int, size: nat) returns (out: seq<byte>)
    requires -1 <= skip < |shards|
    requires Rectangular(Others(Payloads(shards), skip), size)
    ensures out == FoldRows(Others(Payloads(shards), skip), size)
  {
    hide Fold, Others;
    var bytes := new byte[size];
    ghost var target := FoldRows(Others(Payloads(shards), skip), size);
    for i := 0 to size
      invariant bytes[..i] == target[..i]
    {
      var val := XorColumn(shards, skip, size, i);
      bytes[i] := val;
    }
    out := bytes[..];
    assert out == target;
  }

  lemma PresentRowsRectangular(shards: seq<Shard>, missing: nat, size: nat)
    requires missing < |shards|
    requires forall i :: 0 <= i < |shards| && i != missing ==> |shards[i].Payload()| == size
    ensures Rectangular(Others(Payloads(shards), missing), size)
  {
  }

  lemma {:induction false} ValidateStops(shards: seq<Shard>, m: nat, n: nat)
    requires m <= n <= |shards|
    ensures Validate(shards, m).Err? ==> Validate(shards, n) == Validate(shards, m)
  {
    if m < n {
      ValidateStops(shards, m, n - 1);
    }
  }

  lemma {:induction false} ScanStops(shards: seq<Shard>, m: nat, n: nat)
    requires m <= n <= |shards|
    ensures ScanShards(shards, m).Err? ==> ScanShards(shards, n) == ScanShards(shards, m)
  {
    if m < n {
      ScanStops(shards, m, n - 1);
    }
  }

  class XorEncoder {
    const dataShards: int

    constructor (dataShards: int)
      ensures this.dataShards == dataShards
    {
      this.dataShards := dataShards;
    }

    /** Accepts exactly dataShards > 0 non-nil, non-empty, equally long shards, and appends their parity. */
    method Encode(shards: seq<Shard>) returns (r: Result<seq<Shard>, EncodeError>)
      ensures r.Ok? <==>
              && dataShards == |shards| > 0
              && shards[0].Bytes? && shards[0].bytes != []
              && Validate(shards, |shards|).Ok?
      ensures r.Ok? ==> Rectangular(Payloads(shards), |shards[0].bytes|)
      ensures r.Ok? ==> r.value == shards + [Bytes(FoldRows(Payloads(shards), |shards[0].bytes|))]
      ensures r.Ok? ==> IsParity(Payloads(shards), r.value[|shards|].Payload())
      ensures r.Err? ==>
                r.error == if |shards| != dataShards then WrongShardCount
                           else if dataShards == 0 then NoDataShards
                           else if Validate(shards, |shards|).Err? then Validate(shards, |shards|).error
                           else EmptyShards
    {
      if |shards| != dataShards {
        return Err(WrongShardCount);
      }
      if dataShards == 0 {
        return Err(NoDataShards);
      }
      var size := 0;
      for i := 0 to |shards|
        invariant Validate(shards, i) == Ok(size)
      {
        ValidateStops(shards, i + 1, |shards|);
        if shards[i].Nil? {
          return Err(NilShard);
        }
        if i == 0 {
          size := |shards[i].bytes|;
        } else if |shards[i].bytes| != size {
          return Err(UnequalShards);
        }
      }
      if size == 0 {
        return Err(EmptyShards);
      }
      var parity := XorRows(shards, -1, size);
      FoldRowsIsParity(Payloads(shards), size);
      var result := [];
      for i := 0 to |shards|
        invariant result == shards[..i]
      {
        result := result + [shards[i]];
      }
      return Ok(result + [Bytes(parity)]);
    }

    /** Recover's first loop. */
    method Locate(shards: seq<Shard>) returns (r: Result<Scan, RecoverError>)
      ensures r == ScanShards(shards, |shards|)
    {
      var missing: int, size: nat := -1, 0;
      for i := 0 to |shards|
        invariant -1 <= missing < i
        invariant ScanShards(shards, i) == Ok(Scan(missing, size))
      {
        ScanStops(shards, i + 1, |shards|);
        if shards[i].Missing() {
          if missing != -1 {
            return Err(MultipleMissing);
          }
          missing := i;
        } else if size == 0 {
          size := |shards[i].bytes|;
        } else if |shards[i].bytes| != size {
          return Err(UnequalSizes);
        }
      }
      return Ok(Scan(missing, size));
    }

    method Recover(shards: seq<Shard>) returns (r: Result<seq<Shard>, RecoverError>)
      ensures r == Recovered(dataShards + 1, shards)
    {
      hide Others, FoldRows, ScanShards;
      if |shards| != dataShards + 1 {
        return Err(WrongTotalCount);
      }
      var scan := Locate(shards);
      if scan.Err? {
        return Err(scan.error);
      }
      var missing, size := scan.value.missing, scan.value.size;
      if missing == -1 {
        return Ok(shards);
      }
      if size == 0 {
        return Err(AllMissing);
      }
      PresentRowsRectangular(shards, missing, size);
      var recovered := XorRows(shards, missing, size);
      var result := [];
      ghost var target := shards[missing := Bytes(recovered)];
      for i := 0 to |shards|
        invariant result == target[..i]
      {
        assert shards[i].Missing() <==> i == missing;
        result := result + [if shards[i].Missing() then Bytes(recovered) else shards[i]];
      }
      assert result == target;
      return Ok(result);
    }
  }
}
