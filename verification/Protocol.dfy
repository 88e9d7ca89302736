/** internal/variants/udp: the client's generators, ACK receiver and retransmit daemon, the network,
    and the server's workers, as one transition system. Each step is one critical section of the
    code or one send: what the code does under separate locks is separate steps here. */
module Protocol {
  import opened Wrappers
  import opened Bytes
  import opened PacketCodec
  import opened CacheSpec
  import opened LayerSpec
  import opened Order

  /** The settings a run depends on, the hash function among them. */
  datatype Config = Config(
    sha: HashFunction,
    total: nat,            // TotalPackets
    workers: nat,          // generators
    maxPacket: nat,        // MaxPacketSize
    layers: nat,           // layers of the retransmit cache
    firstTTL: int,         // TTL of layer 0
    backoff: nat -> int,   // Backoff.Next
    serverWorkers: nat,
    dedupTTL: int)

  /** At least one layer, identifiers that do not wrap, and payloads whose length fits its field. */
  predicate Sound(c: Config) {
    c.layers >= 1 && c.total + c.workers < TWO_TO_THE_64 && c.maxPacket <= 0xFFFFFFFF
  }

  /** What the client keeps for a retransmission. */
  datatype PendingPacket = PendingPacket(data: seq<byte>, checksum: Digest)

  /** The line printed for an ID. */
  datatype Outcome = OK(id: nat) | FAIL(id: nat) | LOST(id: nat)

  /** A generator: the ID it works on, and the packet it has sent but not yet registered. */
  datatype Generator = Generator(next: nat, held: Option<PendingPacket>)

  /** ackReceiver between Delete and Insert. */
  datatype AckReceiver = AckIdle | AckDeleted(id: nat, ok: bool)

  /** retransmitterDaemon between PeekExpiredScan, PromoteLayer, and the send or the LOST insert. */
  datatype Daemon =
    | DaemonIdle
    | DaemonPeeked(id: nat, layer: nat)
    | DaemonResending(id: nat, packet: PendingPacket)
    | DaemonLosing(id: nat)

  /** A server worker inside processMessage. Wedged: blocked for ever in the send on outputCh, which
      NewServer never makes (internal/variants/udp/server.go:58-74, 163-165). */
  datatype Worker =
    | WorkerIdle
    | Parsed(p: Content, ok: bool)
    | Missed(p: Content, ok: bool)
    | Marked(p: Content, ok: bool)
    | Acking(id: nat, ok: bool)
    | Wedged(id: nat)

  datatype Ack = Ack(id: nat, ok: bool)

  /** One Insert at the server: the packet, the verdict on its checksum, whether it released anything. */
  datatype LogEntry = LogEntry(p: Content, ok: bool, released: bool)

  datatype Client = Client(
    gens: seq<Generator>,
    layers: Layers<nat, PendingPacket>,
    out: Buffer<Outcome>,
    emitted: seq<Outcome>,
    ack: AckReceiver,
    daemon: Daemon)

  datatype Server = Server(
    dedup: seq<Entry<nat, ()>>,
    ob: Buffer<nat>,
    workers: seq<Worker>,
    badChecksum: nat,
    log: seq<LogEntry>)

  /** What happened so far: the payload generated for each ID, how often each ID was put on the
      wire, and how often each was declared lost. */
  datatype History = History(payload: map<nat, seq<byte>>, tx: multiset<nat>, lost: multiset<nat>)

  /** net holds every packet whose encoding was ever sent, acks every ACK ever sent: delivering any
      member at any time, or never, covers loss, duplication, reordering and delay. */
  datatype State = State(
    client: Client,
    server: Server,
    net: set<Content>,
    acks: set<Ack>,
    now: int,
    hist: History)

  datatype Step =
    | GenSend(w: nat, data: seq<byte>, timestamp: int64)
    | GenRegister(w: nat)
    | AckDelete(ack: Ack)
    | AckInsert
    | Peek
    | PromoteStep
    | Resend(timestamp: int64)
    | DeclareLost
    | Take(k: nat, p: Content)
    | DedupGet(k: nat)
    | DedupSet(k: nat)
    | ServerInsert(k: nat)
    | SendAck(k: nat)
    | Tick(elapsed: nat)

  function Init(c: Config): State {
    State(
      Client(seq(c.workers, (w: nat) => Generator(1 + w, None)), seq(c.layers, _ => []), Empty(1), [],
             AckIdle, DaemonIdle),
      Server([], Empty(1), seq(c.serverWorkers, _ => WorkerIdle), 0, []),
      {}, {}, 0, History(map[], multiset{}, multiset{}))
  }

  /** The generator's payload length. */
  function PayloadLength(c: Config, id: nat): nat {
    var minLen, maxLen := id, 2 * id;
    var dataLen := if maxLen > minLen then minLen + id % (maxLen - minLen + 1) else minLen;
    if dataLen > c.maxPacket then c.maxPacket else dataLen
  }

  /** The packet a generator builds; SerializeTo fills in its checksum. */
  function FreshPacket(c: Config, id: uint64, timestamp: int64, data: seq<byte>): Content {
    Sealed(c.sha, Content(id, timestamp, data, Zeros(DIGEST_SIZE), []))
  }

  /** The packet the daemon builds from what the cache kept. */
  function ResentPacket(c: Config, id: uint64, timestamp: int64, p: PendingPacket): Content {
    Sealed(c.sha, Content(id, timestamp, p.data, p.checksum, []))
  }

  /** The bytes the server reads for a datagram: its encoding, cut to the receive buffer. */
  function Delivered(c: Config, p: Content): seq<byte> {
    var s := Layout(p);
    if |s| > c.maxPacket + 256 then s[..c.maxPacket + 256] else s
  }

  function AckBytes(a: Ack): (r: seq<byte>) {
    BigEndian(a.id, 8) + [if a.ok then 1 else 0]
  }

  /** The client's reading of an ACK: anything shorter than nine bytes is skipped. */
  function ParseAck(s: seq<byte>): Option<Ack> {
    if |s| < 9 then None else Some(Ack(FromBigEndian(s[0..8]), s[8] == 1))
  }

  predicate Enabled(c: Config, s: State, step: Step) {
    match step
    case GenSend(w, data, _) =>
      w < |s.client.gens| && s.client.gens[w].held.None? && s.client.gens[w].next <= c.total
      && s.client.gens[w].next < TWO_TO_THE_64
      && |data| == PayloadLength(c, s.client.gens[w].next)
    case GenRegister(w) => w < |s.client.gens| && s.client.gens[w].held.Some?
    case AckDelete(a) => s.client.ack.AckIdle? && a in s.acks && ParseAck(AckBytes(a)).Some?
    case AckInsert => s.client.ack.AckDeleted?
    case Peek => s.client.daemon.DaemonIdle?
    case PromoteStep => s.client.daemon.DaemonPeeked?
    case Resend(_) => s.client.daemon.DaemonResending? && s.client.daemon.id < TWO_TO_THE_64
    case DeclareLost => s.client.daemon.DaemonLosing?
    case Take(k, p) => k < |s.server.workers| && s.server.workers[k].WorkerIdle? && p in s.net
    case DedupGet(k) => k < |s.server.workers| && s.server.workers[k].Parsed?
    case DedupSet(k) => k < |s.server.workers| && s.server.workers[k].Missed?
    case ServerInsert(k) => k < |s.server.workers| && s.server.workers[k].Marked?
    case SendAck(k) => k < |s.server.workers| && s.server.workers[k].Acking?
    case Tick(_) => true
  }

  function Next(c: Config, s: State, step: Step): State
    requires Enabled(c, s, step)
  {
    match step
    case GenSend(w, data, timestamp) =>
      var g := s.client.gens[w];
      var p := FreshPacket(c, g.next, timestamp, data);
      s.(net := s.net + {p},
         hist := s.hist.(payload := s.hist.payload[g.next := data], tx := s.hist.tx + multiset{g.next}),
         client := s.client.(gens := s.client.gens[w := g.(held := Some(PendingPacket(p.data, p.checksum)))]))
    case GenRegister(w) =>
      var g := s.client.gens[w];
      s.(client := s.client.(
           layers := SetFirst<nat, PendingPacket>(s.client.layers, g.next, g.held.value, s.now + c.firstTTL),
           gens := s.client.gens[w := Generator(g.next + c.workers, None)]))
    case AckDelete(a) =>
      var read := ParseAck(AckBytes(a)).value;
      s.(client := s.client.(
           layers := DeleteAll<nat, PendingPacket>(s.client.layers, read.id),
           ack := AckDeleted(read.id, read.ok)))
    case AckInsert =>
      var id := s.client.ack.id;
      var (released, out) := InsertInto<Outcome>(s.client.out, id, if s.client.ack.ok then OK(id) else FAIL(id));
      s.(client := s.client.(out := out, emitted := s.client.emitted + released, ack := AckIdle))
    case Peek =>
      var found := PeekExpired<nat, PendingPacket>(s.client.layers, s.now);
      if found.None? then s
      else s.(client := s.client.(daemon := DaemonPeeked(found.value.key, found.value.layer)))
    case PromoteStep =>
      var d := s.client.daemon;
      var (layers, value, alive) :=
        Promote<nat, PendingPacket>(s.client.layers, d.id, d.layer, s.now + c.backoff(d.layer + 1));
      s.(client := s.client.(
           layers := layers,
           daemon := if alive && value.Some? then DaemonResending(d.id, value.value) else DaemonLosing(d.id)))
    case Resend(timestamp) =>
      var d := s.client.daemon;
      s.(net := s.net + {ResentPacket(c, d.id, timestamp, d.packet)},
         hist := s.hist.(tx := s.hist.tx + multiset{d.id}),
         client := s.client.(daemon := DaemonIdle))
    case DeclareLost =>
      var id := s.client.daemon.id;
      var (released, out) := InsertInto<Outcome>(s.client.out, id, LOST(id));
      s.(client := s.client.(out := out, emitted := s.client.emitted + released, daemon := DaemonIdle),
         hist := s.hist.(lost := s.hist.lost + multiset{id}))
    case Take(k, p) =>
      var read := Parse(c.sha, Delivered(c, p));
      if read.Err? then s
      else
        var ok := ChecksumHolds(c.sha, read.value);
        s.(server := s.server.(
             workers := s.server.workers[k := Parsed(read.value, ok)],
             badChecksum := s.server.badChecksum + if ok then 0 else 1))
    case DedupGet(k) =>
      var w := s.server.workers[k];
      var (dedup, hit) := CacheSpec.Get<nat, ()>(s.server.dedup, w.p.id, s.now);
      s.(server := s.server.(
           dedup := dedup,
           workers := s.server.workers[k := if hit.Some? then WorkerIdle else Missed(w.p, w.ok)]))
    case DedupSet(k) =>
      var w := s.server.workers[k];
      s.(server := s.server.(
           dedup := Put<nat, ()>(s.server.dedup, w.p.id, (), s.now + c.dedupTTL),
           workers := s.server.workers[k := Marked(w.p, w.ok)]))
    case ServerInsert(k) =>
      var w := s.server.workers[k];
      var (released, ob) := InsertInto<nat>(s.server.ob, w.p.id, w.p.id);
      s.(server := s.server.(
           ob := ob,
           log := s.server.log + [LogEntry(w.p, w.ok, released != [])],
           workers := s.server.workers[k := if released != [] then Wedged(w.p.id) else Acking(w.p.id, w.ok)]))
    case SendAck(k) =>
      var w := s.server.workers[k];
      s.(acks := s.acks + {Ack(w.id, w.ok)}, server := s.server.(workers := s.server.workers[k := WorkerIdle]))
    case Tick(elapsed) =>
      s.(now := s.now + elapsed)
  }

  /** An attempt at a step: a step that is not enabled leaves everything as it is. */
  function Apply(c: Config, s: State, step: Step): State {
    if Enabled(c, s, step) then Next(c, s, step) else s
  }

  /** The state after any sequence of attempts. Every run of the system is one of these. */
  function After(c: Config, steps: seq<Step>): State {
    if steps == [] then Init(c) else Apply(c, After(c, steps[..|steps| - 1]), steps[|steps| - 1])
  }

  // Who is responsible for an ID.

  /** The generator that handles an ID: worker idx takes 1 + idx, 1 + idx + workers, ... */
  function Owner(c: Config, id: nat): nat
    requires c.workers > 0 && id > 0
  {
    (id - 1) % c.workers
  }

  predicate Registered(c: Config, gens: seq<Generator>, id: nat) {
    1 <= id <= c.total && c.workers > 0 && Owner(c, id) < |gens| && id < gens[Owner(c, id)].next
  }

  /** Sent at least once: registered, or in a generator's hands. */
  predicate Sent(c: Config, gens: seq<Generator>, id: nat) {
    Registered(c, gens, id)
    || (1 <= id <= c.total && c.workers > 0 && Owner(c, id) < |gens|
        && gens[Owner(c, id)].held.Some? && gens[Owner(c, id)].next == id)
  }

  predicate GeneratorsDone(c: Config, s: State) {
    forall w :: 0 <= w < |s.client.gens| ==> s.client.gens[w].held.None? && s.client.gens[w].next > c.total
  }
}
