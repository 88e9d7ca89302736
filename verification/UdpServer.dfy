/** internal/variants/udp/server.go: processMessage on the real deduplication cache and ordered
    buffer, and that a call nothing interferes with does what its five steps in Protocol do. */
module UdpServer {
  import opened Bytes
  import opened PacketCodec
  import opened CacheSpec
  import opened Order
  import opened Protocol
  import LruCache

  /** What the workers share: the deduplication cache and the ordered buffer. */
  datatype Shared = Shared(dedup: seq<Entry<nat, ()>>, ob: Buffer<nat>)

  /** How a call ends: the datagram does not parse; its ID was seen before; the worker hangs in the
      send on outputCh, having released something; or an ACK goes out. */
  datatype Reply = Rejected | Duplicate | Blocked | Acked(bytes: seq<byte>)

  predicate SeenRecently(dedup: seq<Entry<nat, ()>>, id: nat, now: int) {
    exists e :: e in dedup && e.key == id && !Expired(e, now)
  }

  /** The outcome of a call: only a packet that parses and whose ID has no live entry gets through;
      it is then remembered for dedupTTL, inserted, and acknowledged if and only if nothing is
      released. The ACK always says OK: what Deserialize accepts, VerifyChecksum accepts. */
  function Processed(c: Config, sh: Shared, data: seq<byte>, getAt: int, setAt: int): (Shared, Reply) {
    match Parse(c.sha, data)
    case Err(_) => (sh, Rejected)
    case Ok(p) =>
      if SeenRecently(sh.dedup, p.id, getAt) then (sh, Duplicate)
      else
        var (released, ob) := InsertInto<nat>(sh.ob, p.id, p.id);
        (Shared(Put<nat, ()>(sh.dedup, p.id, (), setAt + c.dedupTTL), ob),
         if released != [] then Blocked else Acked(AckBytes(Ack(p.id, true))))
  }

  /** Get finds something exactly when the ID has a live entry; and whether or not it swept an
      expired one on its way, the Set after it leaves the same cache. */
  lemma GetThenSet(es: seq<Entry<nat, ()>>, id: nat, now: int, expiresAt: int)
    requires UniqueKeys(es)
    ensures var (after, hit) := CacheSpec.Get<nat, ()>(es, id, now);
            && (hit.Some? <==> SeenRecently(es, id, now))
            && (hit.Some? ==> after == es)
            && (hit.None? ==> Put<nat, ()>(after, id, (), expiresAt) == Put<nat, ()>(es, id, (), expiresAt))
  {
    var (after, hit) := CacheSpec.Get<nat, ()>(es, id, now);
    var i := Find(es, id);
    if i < |es| {
      assert es[i] in es;
      if hit.None? {
        assert forall j :: 0 <= j < |after| ==> after[j].key != id;
        assert Find(after, id) == |after|;
      }
      forall e | e in es && e.key == id
        ensures e == es[i]
      {
      }
    }
  }

  class Server {
    const config: Config
    const dedup: LruCache.Cache<nat, ()>
    const orderedBuf: OrderedBuffer<nat>
    var recvCount: nat
    var badChecksum: nat

    constructor (config: Config, dedup: LruCache.Cache<nat, ()>, orderedBuf: OrderedBuffer<nat>)
      ensures this.config == config && this.dedup == dedup && this.orderedBuf == orderedBuf
      ensures recvCount == badChecksum == 0
    {
      this.config, this.dedup, this.orderedBuf := config, dedup, orderedBuf;
      recvCount, badChecksum := 0, 0;
    }

    ghost predicate Valid()
      reads dedup, dedup.nodes
    {
      dedup.Valid() && dedup.Recorded() && !dedup.stopped && dedup.ttl == config.dedupTTL
    }

    ghost function View(): Shared
      reads dedup`nodes, dedup.nodes, orderedBuf
    {
      Shared(dedup.View(), orderedBuf.View())
    }

    /** dedup.Get, and dedup.Set unless it found something. */
    method FirstTime(id: nat, getAt: int, setAt: int) returns (isNew: bool)
      requires Valid()
      modifies dedup, dedup.nodes
      ensures Valid()
      ensures isNew <==> !SeenRecently(old(dedup.View()), id, getAt)
      ensures dedup.View() ==
              if isNew then Put<nat, ()>(old(dedup.View()), id, (), setAt + config.dedupTTL) else old(dedup.View())
    {
      hide Put, SeenRecently, CacheSpec.Get, LruCache.Cache.Valid, LruCache.Cache.Recorded, LruCache.Cache.View;
      dedup.ValidMeansUnique();
      GetThenSet(dedup.View(), id, getAt, setAt + dedup.ttl);
      var seen := dedup.Get(id, getAt);
      if seen.Some? {
        return false;
      }
      assert forall i :: 0 <= i < |dedup.nodes| ==> dedup.nodes[i] in old(dedup.nodes);
      dedup.Set(id, (), setAt);
      return true;
    }

    /** The clock readings are those of dedup.Get and dedup.Set. */
    method ProcessMessage(data: seq<byte>, getAt: int, setAt: int) returns (reply: Reply)
      requires Valid()
      modifies this`recvCount, this`badChecksum, dedup, dedup.nodes, orderedBuf
      ensures Valid()
      ensures (View(), reply) == Processed(config, old(View()), data, getAt, setAt)
      ensures badChecksum == old(badChecksum)
      ensures recvCount == old(recvCount) + if reply.Rejected? then 0 else 1
    {
      hide Parse, Put, InsertInto, LruCache.Cache.Valid, LruCache.Cache.Recorded, LruCache.Cache.View;
      var pkt := new Packet(0, 0, [], Zeros(DIGEST_SIZE));
      var err := pkt.Deserialize(config.sha, data);
      if err.Err? {
        return Rejected;
      }
      var p := pkt.View();
      recvCount := recvCount + 1;
      var checksumOK := ChecksumHolds(config.sha, p);
      badChecksum := badChecksum + if checksumOK then 0 else 1;
      var isNew := FirstTime(p.id, getAt, setAt);
      if !isNew {
        return Duplicate;
      }
      var released := orderedBuf.Insert(p.id, p.id);
      if released != [] {
        return Blocked;
      }
      return Acked(BigEndian(p.id, 8) + [if checksumOK then 1 else 0]);
    }
  }

  function SharedOf(server: Protocol.Server): Shared {
    Shared(server.dedup, server.ob)
  }

  /** The states of worker k's five steps on a packet from the wire, run without interference: as many
      of them as the reply lets happen. */
  function Uninterrupted(c: Config, s: State, k: nat, p: Content): State {
    var looked := Apply(c, Apply(c, s, Take(k, p)), DedupGet(k));
    Apply(c, Apply(c, Apply(c, looked, DedupSet(k)), ServerInsert(k)), SendAck(k))
  }

  function WithWorker(s: State, k: nat, w: Worker): State
    requires k < |s.server.workers|
  {
    s.(server := s.server.(workers := s.server.workers[k := w]))
  }

  /** What a call leaves behind: nothing new unless it gets through; else the cache and the buffer, one
      more logged insert, and either a worker blocked for good or an ACK on the wire. */
  function Handled(c: Config, s: State, k: nat, data: seq<byte>): State
    requires k < |s.server.workers|
  {
    var (shared, reply) := Processed(c, SharedOf(s.server), data, s.now, s.now);
    if reply.Rejected? || reply.Duplicate? then s
    else
      var p := Parse(c.sha, data).value;
      var server := s.server.(dedup := shared.dedup, ob := shared.ob,
                              log := s.server.log + [LogEntry(p, true, reply.Blocked?)]);
      if reply.Blocked? then WithWorker(s.(server := server), k, Wedged(p.id))
      else s.(server := server, acks := s.acks + {Ack(p.id, true)})
  }

  lemma TakeStep(c: Config, s: State, k: nat, p: Content)
    requires Enabled(c, s, Take(k, p))
    ensures Apply(c, s, Take(k, p)) ==
            match Parse(c.sha, Delivered(c, p))
            case Err(_) => s
            case Ok(q) => WithWorker(s, k, Parsed(q, true))
  {
  }

  lemma DedupSteps(c: Config, s: State, k: nat)
    requires k < |s.server.workers| && UniqueKeys(s.server.dedup)
             && (s.server.workers[k].Parsed? || s.server.workers[k].WorkerIdle?)
    ensures Apply(c, Apply(c, s, DedupGet(k)), DedupSet(k)) ==
            match s.server.workers[k]
            case Parsed(p, ok) =>
              if SeenRecently(s.server.dedup, p.id, s.now) then WithWorker(s, k, WorkerIdle)
              else
                var marked := WithWorker(s, k, Marked(p, ok));
                marked.(server := marked.server.(dedup := Put<nat, ()>(s.server.dedup, p.id, (), s.now + c.dedupTTL)))
            case _ => s
  {
    hide Put, SeenRecently, CacheSpec.Get;
    if s.server.workers[k].Parsed? {
      var id: nat := s.server.workers[k].p.id;
      var ws, w := s.server.workers, s.server.workers[k];
      GetThenSet(s.server.dedup, id, s.now, s.now + c.dedupTTL);
      var looked := Apply(c, s, DedupGet(k));
      if SeenRecently(s.server.dedup, id, s.now) {
        assert looked == WithWorker(s, k, WorkerIdle);
      } else {
        assert looked.server.workers == ws[k := Missed(w.p, w.ok)];
        var marked := Next(c, looked, DedupSet(k));
        assert marked.server.workers == ws[k := Marked(w.p, w.ok)];
        assert looked.server.dedup == CacheSpec.Get<nat, ()>(s.server.dedup, id, s.now).0;
        assert marked.server.dedup == Put<nat, ()>(looked.server.dedup, id, (), s.now + c.dedupTTL);
      }
    }
  }

  lemma AnswerSteps(c: Config, s: State, k: nat)
    requires k < |s.server.workers| && (s.server.workers[k].Marked? || s.server.workers[k].WorkerIdle?)
    ensures Apply(c, Apply(c, s, ServerInsert(k)), SendAck(k)) ==
            match s.server.workers[k]
            case Marked(p, ok) =>
              var (released, ob) := InsertInto<nat>(s.server.ob, p.id, p.id);
              var after := WithWorker(s, k, if released != [] then Wedged(p.id) else WorkerIdle);
              after.(server := after.server.(ob := ob, log := s.server.log + [LogEntry(p, ok, released != [])]),
                     acks := s.acks + if released != [] then {} else {Ack(p.id, ok)})
            case _ => s
  {
    hide InsertInto;
  }

  /** A call of processMessage that nothing interferes with is those steps; an ACK it returns is the one
      that goes on the wire. */
  lemma ProcessMessageIsItsSteps(c: Config, s: State, k: nat, p: Content)
    requires k < |s.server.workers| && s.server.workers[k].WorkerIdle? && p in s.net && UniqueKeys(s.server.dedup)
    ensures Uninterrupted(c, s, k, p) == Handled(c, s, k, Delivered(c, p))
    ensures var reply := Processed(c, SharedOf(s.server), Delivered(c, p), s.now, s.now).1;
            reply.Acked? ==>
              exists a :: reply.bytes == AckBytes(a) && Handled(c, s, k, Delivered(c, p)).acks == s.acks + {a}
  {
    hide Put, InsertInto, SeenRecently, AckBytes, Parse, Delivered, Apply, Next;
    TakeStep(c, s, k, p);
    var ws, taken := s.server.workers, Apply(c, s, Take(k, p));
    DedupSteps(c, taken, k);
    var looked := Apply(c, Apply(c, taken, DedupGet(k)), DedupSet(k));
    AnswerSteps(c, looked, k);
    assert ws[k := WorkerIdle] == ws;
    assert looked.server.workers[k := WorkerIdle] == ws;
  }

  lemma SeenAfterPut(dedup: seq<Entry<nat, ()>>, id: nat, expiresAt: int, now: int)
    requires UniqueKeys(dedup)
    ensures SeenRecently(Put<nat, ()>(dedup, id, (), expiresAt), id, now) <==> now <= expiresAt
  {
    PutKeeps<nat, ()>(dedup, id, (), expiresAt);
    hide Put;
    var e := Entry<nat, ()>.Entry(id, (), expiresAt);
    var after := Put<nat, ()>(dedup, id, (), expiresAt);
    assert e in after && forall f :: f in after && f.key == id ==> f == e;
  }

  /** How long an ID is remembered: after a call that let it through, a later datagram of the same ID is
      ignored exactly as long as no more than dedupTTL has passed. */
  lemma RememberedFor(c: Config, sh: Shared, data: seq<byte>, getAt: int, setAt: int, again: seq<byte>, later: int,
      later': int)
    requires UniqueKeys(sh.dedup) && Parse(c.sha, data).Ok? && Parse(c.sha, again).Ok?
    requires Parse(c.sha, again).value.id == Parse(c.sha, data).value.id
    requires !Processed(c, sh, data, getAt, setAt).1.Duplicate?
    ensures Processed(c, Processed(c, sh, data, getAt, setAt).0, again, later, later').1.Duplicate? <==>
            later - setAt <= c.dedupTTL
  {
    SeenAfterPut(sh.dedup, Parse(c.sha, data).value.id, setAt + c.dedupTTL, later);
    hide Parse, InsertInto, Put, SeenRecently;
  }

  lemma EmptyIsUnique(c: Config)
    ensures UniqueKeys(Init(c).server.dedup)
  {
  }

  lemma GetKeepsUnique(es: seq<Entry<nat, ()>>, id: nat, now: int)
    requires UniqueKeys(es)
    ensures UniqueKeys(CacheSpec.Get<nat, ()>(es, id, now).0)
  {
  }

  lemma UniqueAfterStep(c: Config, s: State, step: Step)
    requires UniqueKeys(s.server.dedup) && Enabled(c, s, step)
    ensures UniqueKeys(Next(c, s, step).server.dedup)
  {
    hide InsertInto, Parse, Delivered, Put, UniqueKeys;
    if step.DedupSet? {
      PutKeeps<nat, ()>(s.server.dedup, s.server.workers[step.k].p.id, (), s.now + c.dedupTTL);
    } else if step.DedupGet? {
      var id: nat := s.server.workers[step.k].p.id;
      GetKeepsUnique(s.server.dedup, id, s.now);
    }
  }

  /** In every run the cache holds each ID at most once, as a map does. */
  lemma {:induction false} DedupStaysUnique(c: Config, steps: seq<Step>)
    ensures UniqueKeys(After(c, steps).server.dedup)
  {
    hide Enabled, Next, UniqueKeys;
    if steps == [] {
      EmptyIsUnique(c);
    } else {
      var front, step := steps[..|steps| - 1], steps[|steps| - 1];
      DedupStaysUnique(c, front);
      if Enabled(c, After(c, front), step) {
        UniqueAfterStep(c, After(c, front), step);
      }
    }
  }
}
