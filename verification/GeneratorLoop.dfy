/** The body of one generator goroutine (internal/variants/udp/client.go:161-209) on real buffers: the
    same two arrays are refilled for every packet, while the copies kept for retransmission are not. */
module GeneratorLoop {
  import opened Arithmetic
  import opened Bytes
  import opened PacketCodec
  import opened Protocol
  import Pregen

  /** What was put on the wire for an ID, against what was kept for it. */
  ghost predicate Matches(c: Config, sent: seq<byte>, kept: array<byte>, checksum: Digest, id: nat)
    reads kept
  {
    var r := Parse(c.sha, sent);
    && r.Ok? && r.value.id == id && r.value.extra == [] && r.value.data == kept[..]
         && r.value.checksum == checksum == c.sha(kept[..])
    && |kept[..]| == PayloadLength(c, id)
  }

  lemma FirstOwn(c: Config, idx: nat)
    requires idx < c.workers
    ensures Owner(c, 1 + idx) == idx
    ensures forall x: nat :: 1 <= x < 1 + idx ==> Owner(c, x) != idx
  {
  }

  /** From one ID of a worker to its next there is none in between. */
  lemma NextIsNext(c: Config, id: nat, idx: nat)
    requires c.workers > 0 && 1 <= id && Owner(c, id) == idx
    ensures Owner(c, id + c.workers) == idx
    ensures forall x: nat :: id <= x < id + c.workers && Owner(c, x) == idx ==> x == id
  {
    NextMultiple(id - 1, c.workers);
    forall x: nat | id <= x < id + c.workers && Owner(c, x) == idx
      ensures x == id
    {
      SameResidue(id - 1, x - 1, c.workers);
    }
  }

  /** One round: fill, serialise, send, and copy for the cache. */
  method Produce(c: Config, id: uint64, rawBuf: array<byte>, serializeBuf: array<byte>)
    returns (datagram: seq<byte>, pendingData: array<byte>, checksum: Digest)
    requires Sound(c) && rawBuf != serializeBuf
    requires rawBuf.Length == c.maxPacket && serializeBuf.Length == c.maxPacket + 128
    modifies rawBuf, serializeBuf
    ensures fresh(pendingData)
    ensures Matches(c, datagram, pendingData, checksum, id)
  {
    hide Parse, Layout, Zeros, Serialize;
    var dataLen := PayloadLength(c, id);
    assert dataLen <= c.maxPacket;
    hide PayloadLength;
    Pregen.FillRandom(rawBuf, dataLen);
    var payload := rawBuf[..dataLen];
    var timestamp: int64 := *;
    var pkt := new Packet(id, timestamp, payload, Zeros(DIGEST_SIZE));
    var r := pkt.SerializeTo(c.sha, serializeBuf);
    assert r.Ok? && r.value == serializeBuf;
    datagram := r.value[..FIXED_SIZE + dataLen];
    ParseLayout(c.sha, pkt.View(), []);
    assert Layout(pkt.View()) + [] == datagram;
    pendingData := new byte[dataLen](_ => 0);
    Copy(pendingData, 0, payload, []);
    assert pendingData[..] == payload;
    checksum := pkt.Checksum;
  }

  /** Worker idx sends and keeps exactly the IDs it owns, each once; and when the loop ends, every
      kept copy still equals what was sent for its ID, however often the shared buffers were refilled. */
  method Generate(c: Config, idx: nat)
      returns (sent: map<nat, seq<byte>>, kept: map<nat, array<byte>>, checksums: map<nat, Digest>)
    requires Sound(c) && idx < c.workers
    ensures forall id: nat :: id in sent <==> 1 <= id <= c.total && Owner(c, id) == idx
    ensures sent.Keys == kept.Keys == checksums.Keys
    ensures forall id :: id in sent ==> fresh(kept[id]) && Matches(c, sent[id], kept[id], checksums[id], id)
  {
    hide Matches, Parse, PayloadLength, Owner;
    var serializeBuf := new byte[c.maxPacket + 128](_ => 0);
    var rawBuf := new byte[c.maxPacket](_ => 0);
    sent, kept, checksums := map[], map[], map[];
    var id: nat := 1 + idx;
    FirstOwn(c, idx);
    while id <= c.total
      invariant 1 <= id <= c.total + c.workers && Owner(c, id) == idx
      invariant forall x: nat :: x in sent <==> 1 <= x <= c.total && x < id && Owner(c, x) == idx
      invariant sent.Keys == kept.Keys == checksums.Keys
      invariant fresh(serializeBuf) && fresh(rawBuf) && serializeBuf.Length == c.maxPacket + 128
                && rawBuf.Length == c.maxPacket
      invariant forall x :: x in sent ==> fresh(kept[x]) && kept[x] != rawBuf && kept[x] != serializeBuf
      invariant forall x :: x in sent ==> Matches(c, sent[x], kept[x], checksums[x], x)
      decreases c.total + c.workers - id
    {
      var datagram, pendingData, checksum := Produce(c, id, rawBuf, serializeBuf);
      sent, kept, checksums := sent[id := datagram], kept[id := pendingData], checksums[id := checksum];
      NextIsNext(c, id, idx);
      id := id + c.workers;
    }
  }
}
