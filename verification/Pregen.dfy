/** pkg/pregen/pregen.go: all packets serialised ahead of time into one arena, sized by a first
    loop and carved up by a second. */
module Pregen {
  import opened Wrappers
  import opened Arithmetic
  import opened Bytes
  import opened PacketCodec

  /** The payload length of packet id: id modulo the limit, but at least one byte. */
  function DataLen(id: nat, maxDataSize: nat): (n: nat)
    requires maxDataSize >= 1
    ensures 1 <= n <= maxDataSize
  {
    var n := id % maxDataSize;
    if n < 1 then 1 else n
  }

  /** The planned lengths count up from one to the limit less one, then give a single byte, and begin again. */
  lemma PlannedLength(id: nat, maxDataSize: nat)
    requires 1 <= id && 1 <= maxDataSize
    ensures id < maxDataSize ==> DataLen(id, maxDataSize) == id
    ensures DataLen(maxDataSize, maxDataSize) == 1
    ensures id > maxDataSize ==> DataLen(id, maxDataSize) == DataLen(id - maxDataSize, maxDataSize)
  {
    if id < maxDataSize {
      SmallModulus(id, maxDataSize);
    } else {
      NextMultiple(id - maxDataSize, maxDataSize);
    }
    NextMultiple(0, maxDataSize);
  }

  /** Where packet n + 1 begins. */
  function Offset(n: nat, maxDataSize: nat): (r: nat)
    requires maxDataSize >= 1
  {
    if n == 0 then 0 else Offset(n - 1, maxDataSize) + FIXED_SIZE + DataLen(n, maxDataSize)
  }

  /** Bytes that Deserialize accepts as packet id with a payload of the planned length. */
  predicate HoldsPacket(sha: HashFunction, s: seq<byte>, id: nat, maxDataSize: nat)
    requires maxDataSize >= 1
  {
    var r := Parse(sha, s);
    r.Ok? && r.value.id == id && |r.value.data| == DataLen(id, maxDataSize) && r.value.extra == []
    && |s| == EncodedSize(r.value)
  }

  /** What a slot holds, in plain numbers. */
  lemma SlotPacket(sha: HashFunction, s: seq<byte>, id: nat, maxDataSize: nat)
    requires 1 <= id && 1 <= maxDataSize && HoldsPacket(sha, s, id, maxDataSize)
    ensures var r := Parse(sha, s);
            && r.Ok? && r.value.id == id && r.value.extra == [] && |s| == 54 + |r.value.data|
            && (id < maxDataSize ==> |r.value.data| == id)
            && (id == maxDataSize ==> |r.value.data| == 1)
            && (id > maxDataSize ==> |r.value.data| == DataLen(id - maxDataSize, maxDataSize))
  {
    PlannedLength(id, maxDataSize);
  }

  /** zeroalloc.FillRandomBytes(buf[:n]) */
  method FillRandom(buf: array<byte>, n: nat)
    requires n <= buf.Length
    modifies buf
    ensures buf[n..] == old(buf[n..])
  {
    for i := 0 to n
      invariant buf[n..] == old(buf[n..])
    {
      var b: byte := *;
      buf[i] := b;
    }
  }

  /** The bytes SerializeTo delivers for packet id: none when the payload is too long for its length field,
      an error that Init does not look at. */
  function Delivered(id: nat, maxDataSize: nat): nat
    requires maxDataSize >= 1
  {
    if DataLen(id, maxDataSize) <= 0xFFFFFFFF then FIXED_SIZE + DataLen(id, maxDataSize) else 0
  }

  /** Where the second loop puts packet n + 1. */
  function Placed(n: nat, maxDataSize: nat): (r: nat)
    requires maxDataSize >= 1
  {
    if n == 0 then 0 else Placed(n - 1, maxDataSize) + Delivered(n, maxDataSize)
  }

  lemma {:induction false} PlacedWithin(m: nat, n: nat, maxDataSize: nat)
    requires maxDataSize >= 1 && m <= n
    ensures Placed(m, maxDataSize) <= Placed(n, maxDataSize) <= Offset(n, maxDataSize)
  {
    if m < n {
      PlacedWithin(m, n - 1, maxDataSize);
    } else if n > 0 {
      PlacedWithin(n - 1, n - 1, maxDataSize);
    }
  }

  /** The two loops agree - the slices fill the arena, and each begins where the sizing loop said -
      exactly when every payload fits its length field. */
  lemma {:induction false} LoopsAgreeIff(total: nat, maxDataSize: nat)
    requires maxDataSize >= 1
    ensures Placed(total, maxDataSize) == Offset(total, maxDataSize) <==>
            forall id :: 1 <= id <= total ==> DataLen(id, maxDataSize) <= 0xFFFFFFFF
    ensures Placed(total, maxDataSize) == Offset(total, maxDataSize) ==>
            forall n: nat :: n <= total ==> Placed(n, maxDataSize) == Offset(n, maxDataSize)
  {
    hide DataLen;
    if total > 0 {
      LoopsAgreeIff(total - 1, maxDataSize);
      PlacedWithin(total - 1, total - 1, maxDataSize);
    }
  }

  lemma ModuloBounds(x: nat, n: nat)
    requires n >= 1
    ensures x % n < n && x % n <= x
  {
  }

  /** Which is the case for every limit up to 2^32, and for every total below it. */
  lemma LoopsAgree(total: nat, maxDataSize: nat)
    requires maxDataSize >= 1 && (maxDataSize <= 0x1_0000_0000 || total <= 0xFFFFFFFF)
    ensures Placed(total, maxDataSize) == Offset(total, maxDataSize)
  {
    forall id | 1 <= id <= total
      ensures DataLen(id, maxDataSize) <= 0xFFFFFFFF
    {
      ModuloBounds(id, maxDataSize);
    }
    LoopsAgreeIff(total, maxDataSize);
  }

  /** What the second loop puts into slot id of the arena. */
  predicate Slot(sha: HashFunction, s: seq<byte>, id: nat, maxDataSize: nat)
    requires maxDataSize >= 1
  {
    if DataLen(id, maxDataSize) <= 0xFFFFFFFF then HoldsPacket(sha, s, id, maxDataSize) else s == []
  }

  lemma SlotLength(sha: HashFunction, s: seq<byte>, id: nat, maxDataSize: nat)
    requires maxDataSize >= 1 && Slot(sha, s, id, maxDataSize)
    ensures |s| == Delivered(id, maxDataSize)
  {
  }

  /** Consecutive slots from the start of the arena on. */
  ghost predicate Carved(sha: HashFunction, s: seq<byte>, packets: seq<(nat, nat)>, maxDataSize: nat)
    requires maxDataSize >= 1
  {
    && Placed(|packets|, maxDataSize) == |s|
    && forall i :: 0 <= i < |packets| ==>
         && packets[i] == (Placed(i, maxDataSize), Placed(i + 1, maxDataSize))
         && packets[i].0 <= packets[i].1 <= |s|
         && Slot(sha, s[packets[i].0..packets[i].1], i + 1, maxDataSize)
  }

  lemma NothingCarved(sha: HashFunction, maxDataSize: nat)
    requires maxDataSize >= 1
    ensures Carved(sha, [], [], maxDataSize)
  {
  }

  lemma CarveNext(sha: HashFunction, s: seq<byte>, chunk: seq<byte>, packets: seq<(nat, nat)>, maxDataSize: nat)
    requires maxDataSize >= 1 && Carved(sha, s, packets, maxDataSize)
    requires Slot(sha, chunk, |packets| + 1, maxDataSize)
    ensures Carved(sha, s + chunk, packets + [(|s|, |s| + |chunk|)], maxDataSize)
  {
    hide Slot, Delivered;
    var t := s + chunk;
    assert t[|s|..|s| + |chunk|] == chunk;
    SlotLength(sha, chunk, |packets| + 1, maxDataSize);
    forall i | 0 <= i < |packets|
      ensures t[packets[i].0..packets[i].1] == s[packets[i].0..packets[i].1]
    {
    }
  }

  /** The slots of the used part of the arena, seen in the whole of it. */
  lemma CarvedArena(sha: HashFunction, arena: seq<byte>, used: nat, packets: seq<(nat, nat)>, maxDataSize: nat)
    requires maxDataSize >= 1 && used <= |arena| && Carved(sha, arena[..used], packets, maxDataSize)
    ensures forall i :: 0 <= i < |packets| ==>
              && packets[i] == (Placed(i, maxDataSize), Placed(i + 1, maxDataSize))
              && packets[i].0 <= packets[i].1 <= used
              && Slot(sha, arena[packets[i].0..packets[i].1], i + 1, maxDataSize)
  {
    hide Slot, Placed;
    forall i | 0 <= i < |packets|
      ensures arena[..used][packets[i].0..packets[i].1] == arena[packets[i].0..packets[i].1]
    {
    }
  }

  /** One packet, serialised into the shared buffer: as long as the packet can be serialised at all, the
      buffer that Init has allocated is long enough and comes back itself. */
  method SerializeNext(sha: HashFunction, id: uint64, timestamp: int64, data: seq<byte>, serializeBuf: array<byte>,
      ghost maxDataSize: nat)
    returns (r: Result<array<byte>, SerializeError>)
    requires 1 <= maxDataSize && |data| == DataLen(id, maxDataSize)
    requires serializeBuf.Length == maxDataSize + FIXED_SIZE
    modifies serializeBuf
    ensures r.Ok? <==> |data| <= 0xFFFFFFFF
    ensures r.Ok? ==> r.value == serializeBuf && HoldsPacket(sha, r.value[..FIXED_SIZE + |data|], id, maxDataSize)
  {
    hide Parse, Layout;
    var pkt := new Packet(id, timestamp, data, sha(data));
    r := pkt.SerializeTo(sha, serializeBuf);
    if r.Ok? {
      ParseLayout(sha, pkt.View(), []);
      assert Layout(pkt.View()) + [] == r.value[..FIXED_SIZE + |data|];
    }
  }

  lemma MakesSlot(sha: HashFunction, chunk: seq<byte>, id: nat, maxDataSize: nat)
    requires maxDataSize >= 1
    requires if DataLen(id, maxDataSize) <= 0xFFFFFFFF then HoldsPacket(sha, chunk, id, maxDataSize) else chunk == []
    ensures Slot(sha, chunk, id, maxDataSize) && |chunk| == Delivered(id, maxDataSize)
  {
  }

  lemma Tiles(sha: HashFunction, arena: seq<byte>, total: nat, packets: seq<(nat, nat)>, maxDataSize: nat)
    requires maxDataSize >= 1 && (maxDataSize <= 0x1_0000_0000 || total <= 0xFFFFFFFF)
    requires |packets| == total && |arena| == Offset(total, maxDataSize)
    requires forall i :: 0 <= i < total ==>
               && packets[i] == (Placed(i, maxDataSize), Placed(i + 1, maxDataSize))
               && packets[i].0 <= packets[i].1 <= |arena|
               && Slot(sha, arena[packets[i].0..packets[i].1], i + 1, maxDataSize)
    ensures packets != [] ==> packets[total - 1].1 == |arena|
    ensures forall i :: 0 <= i < total ==>
              && packets[i] == (Offset(i, maxDataSize), Offset(i + 1, maxDataSize))
              && HoldsPacket(sha, arena[packets[i].0..packets[i].1], i + 1, maxDataSize)
  {
    hide DataLen, HoldsPacket;
    LoopsAgree(total, maxDataSize);
    LoopsAgreeIff(total, maxDataSize);
  }

  /** The slices, as bounds into the arena: they follow one another without gap or overlap from its first
      byte on, and slice i holds packet i + 1, or nothing if its payload was too long. */
  method Init(sha: HashFunction, total: nat, maxDataSize: nat) returns (arena: array<byte>, packets: seq<(nat, nat)>)
    requires 1 <= maxDataSize && total < TWO_TO_THE_64
    ensures |packets| == total
    ensures forall i :: 0 <= i < total ==> packets[i] == (Placed(i, maxDataSize), Placed(i + 1, maxDataSize))
    ensures arena.Length == Offset(total, maxDataSize)
    ensures forall i :: 0 <= i < total ==>
              && packets[i].0 <= packets[i].1 <= arena.Length
              && Slot(sha, arena[packets[i].0..packets[i].1], i + 1, maxDataSize)
    ensures maxDataSize <= 0x1_0000_0000 || total <= 0xFFFFFFFF ==>
              && (packets != [] ==> packets[total - 1].1 == arena.Length)
              && forall i :: 0 <= i < total ==>
                   && packets[i] == (Offset(i, maxDataSize), Offset(i + 1, maxDataSize))
                   && HoldsPacket(sha, arena[packets[i].0..packets[i].1], i + 1, maxDataSize)
  {
    hide Parse, Layout, DataLen, HoldsPacket, Slot, Carved;
    var totalArenaSize := 0;
    for id := 1 to total + 1
      invariant totalArenaSize == Offset(id - 1, maxDataSize)
    {
      totalArenaSize := totalArenaSize + FIXED_SIZE + DataLen(id, maxDataSize);
    }

    arena := new byte[totalArenaSize](_ => 0);
    var arenaOffset := 0;
    packets := [];
    NothingCarved(sha, maxDataSize);
    assert arena[..0] == [];
    var dataBuf := new byte[maxDataSize](_ => 0);
    var serializeBuf := new byte[maxDataSize + FIXED_SIZE](_ => 0);

    for id := 1 to total + 1
      invariant arenaOffset == Placed(id - 1, maxDataSize) <= arena.Length == Offset(total, maxDataSize)
      invariant |packets| == id - 1
      invariant Carved(sha, arena[..arenaOffset], packets, maxDataSize)
    {
      var dataLen := DataLen(id, maxDataSize);
      FillRandom(dataBuf, dataLen);
      var timestamp: int64 := *;
      var data := SerializeNext(sha, id, timestamp, dataBuf[..dataLen], serializeBuf, maxDataSize);
      var chunk := if data.Ok? then data.value[..FIXED_SIZE + dataLen] else [];
      MakesSlot(sha, chunk, id, maxDataSize);
      PlacedWithin(id, total, maxDataSize);
      var nextOffset := arenaOffset + |chunk|;
      ghost var written := arena[..arenaOffset];
      Copy(arena, arenaOffset, chunk, written);
      CarveNext(sha, written, chunk, packets, maxDataSize);
      packets := packets + [(arenaOffset, nextOffset)];
      arenaOffset := nextOffset;
    }
    PlacedWithin(total, total, maxDataSize);
    assert arena[..][..arenaOffset] == arena[..arenaOffset];
    CarvedArena(sha, arena[..], arenaOffset, packets, maxDataSize);
    forall i | 0 <= i < total
      ensures arena[..][packets[i].0..packets[i].1] == arena[packets[i].0..packets[i].1]
    {
    }
    if maxDataSize <= 0x1_0000_0000 || total <= 0xFFFFFFFF {
      Tiles(sha, arena[..], total, packets, maxDataSize);
    }
  }
}
