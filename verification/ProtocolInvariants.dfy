/** What holds in every reachable state, whatever the interleaving - including the runs in which an
    ACK falls between a peek and its promotion. */
module ProtocolInvariants {
  import opened Arithmetic
  import opened Wrappers
  import opened PacketCodec
  import opened LayerSpec
  import opened Order
  import opened Protocol

  /** A packet as the generators make them. */
  predicate Genuine(c: Config, p: Content) {
    1 <= p.id <= c.total && p.checksum == c.sha(p.data) && p.extra == [] && |p.data| <= c.maxPacket
  }

  predicate GoodPending(c: Config, p: PendingPacket) {
    p.checksum == c.sha(p.data) && |p.data| <= c.maxPacket
  }

  // Generators: worker w only ever stands at IDs it owns.

  ghost predicate GenInv(c: Config, gens: seq<Generator>) {
    && |gens| == c.workers
    && forall w :: 0 <= w < |gens| ==>
         && 1 <= gens[w].next && (gens[w].next - 1) % c.workers == w
         && (gens[w].held.Some? ==> gens[w].next <= c.total && GoodPending(c, gens[w].held.value))
  }

  /** Registering takes the generator past exactly one of its IDs: the one it held. */
  lemma RegisterAdvances(c: Config, gens: seq<Generator>, w: nat)
    requires GenInv(c, gens) && w < |gens| && gens[w].held.Some?
    ensures var gens' := gens[w := Generator(gens[w].next + c.workers, None)];
            && GenInv(c, gens')
            && (forall id: nat :: Registered(c, gens', id) <==> Registered(c, gens, id) || id == gens[w].next)
            && (forall id: nat :: Sent(c, gens', id) <==> Sent(c, gens, id))
            && !Registered(c, gens, gens[w].next) && Sent(c, gens, gens[w].next)
  {
    var n, g := c.workers, gens[w].next;
    var gens' := gens[w := Generator(g + n, None)];
    NextMultiple(g - 1, n);
    forall id: nat | 1 <= id <= c.total && Owner(c, id) == w && g <= id < g + n
      ensures id == g
    {
      SameResidue(g - 1, id - 1, n);
    }
    forall id: nat
      ensures Registered(c, gens', id) <==> Registered(c, gens, id) || id == g
    {
      if 1 <= id <= c.total && Owner(c, id) == w {
        assert gens'[w].next == g + n;
      }
    }
  }

  lemma SendMarks(c: Config, gens: seq<Generator>, w: nat, p: PendingPacket)
    requires GenInv(c, gens) && w < |gens| && gens[w].held.None? && gens[w].next <= c.total && GoodPending(c, p)
    ensures var gens' := gens[w := gens[w].(held := Some(p))];
            && GenInv(c, gens')
            && (forall id: nat :: Registered(c, gens', id) <==> Registered(c, gens, id))
            && (forall id: nat :: Sent(c, gens', id) <==> Sent(c, gens, id) || id == gens[w].next)
            && !Sent(c, gens, gens[w].next)
  {
  }

  // The retransmit cache and the daemon.

  ghost predicate LayerInv(c: Config, gens: seq<Generator>, ls: Layers<nat, PendingPacket>) {
    && |ls| == c.layers
    && OneEntryEach(ls)
    && forall e, i :: In(ls, e, i) ==> Registered(c, gens, e.key) && GoodPending(c, e.value)
  }

  /** A peeked ID is still the tail it was peeked at, or has been deleted altogether: registering
      inserts at heads, and nothing but the daemon moves entries. */
  ghost predicate DaemonInv(c: Config, gens: seq<Generator>, ls: Layers<nat, PendingPacket>, d: Daemon) {
    match d
    case DaemonIdle => true
    case DaemonPeeked(id, layer) =>
      layer < c.layers && Registered(c, gens, id) && forall j :: InLayer(ls, id, j) ==>
          j == layer && IsTailKey(ls, id, layer)
    case DaemonResending(id, p) => Registered(c, gens, id) && GoodPending(c, p)
    case DaemonLosing(id) => Registered(c, gens, id) && !Pending(ls, id)
  }

  // How often an ID has been sent and declared lost.

  function Resending(d: Daemon, id: nat): nat {
    if d.DaemonResending? && d.id == id then 1 else 0
  }

  predicate Busy(d: Daemon, id: nat) {
    !d.DaemonIdle? && d.id == id
  }

  predicate TxBounded(c: Config, d: Daemon, tx: multiset<nat>) {
    && (d.DaemonPeeked? ==> tx[d.id] == d.layer + 1)
    && (d.DaemonResending? ==> tx[d.id] < c.layers)
    && forall id :: id in tx ==> tx[id] <= c.layers
  }

  ghost predicate TxSent(c: Config, gens: seq<Generator>, tx: multiset<nat>) {
    && (forall id :: id in tx ==> Sent(c, gens, id))
    && forall w :: 0 <= w < |gens| && gens[w].held.Some? ==> tx[gens[w].next] == 1
  }

  /** An entry in layer i has been sent i + 1 times, the send under way included. */
  ghost predicate TxByLayer(ls: Layers<nat, PendingPacket>, d: Daemon, tx: multiset<nat>) {
    forall e, i: nat :: In(ls, e, i) ==> tx[e.key] + Resending(d, e.key) == i + 1
  }

  ghost predicate TxInv(c: Config, s: State) {
    && TxBounded(c, s.client.daemon, s.hist.tx)
    && TxSent(c, s.client.gens, s.hist.tx)
    && TxByLayer(s.client.layers, s.client.daemon, s.hist.tx)
  }

  ghost predicate LostInv(c: Config, gens: seq<Generator>, ls: Layers<nat, PendingPacket>, d: Daemon,
      lost: multiset<nat>) {
    forall id :: id in lost ==> lost[id] == 1 && Registered(c, gens, id) && !Pending(ls, id) && !Busy(d, id)
  }

  // The server.

  predicate Logged(log: seq<LogEntry>, id: nat) {
    exists i :: 0 <= i < |log| && log[i].p.id == id
  }

  /** Some Insert of the ID released nothing: the only case in which its worker goes on to the ACK. */
  predicate HeldBack(log: seq<LogEntry>, id: nat) {
    exists i :: 0 <= i < |log| && log[i].p.id == id && !log[i].released
  }

  ghost predicate NetInv(c: Config, gens: seq<Generator>, net: set<Content>) {
    forall p :: p in net ==> Genuine(c, p) && Sent(c, gens, p.id)
  }

  predicate WorkerSound(net: set<Content>, log: seq<LogEntry>, w: Worker) {
    match w
    case WorkerIdle => true
    case Parsed(p, ok) => ok && p in net
    case Missed(p, ok) => ok && p in net
    case Marked(p, ok) => ok && p in net
    case Acking(id, ok) => ok && HeldBack(log, id)
    case Wedged(id) => Logged(log, id)
  }

  predicate WorkerInv(c: Config, net: set<Content>, server: Server) {
    && |server.workers| == c.serverWorkers
    && server.badChecksum == 0
    && forall k :: 0 <= k < |server.workers| ==> WorkerSound(net, server.log, server.workers[k])
  }

  predicate LogInv(net: set<Content>, log: seq<LogEntry>, acks: set<Ack>) {
    && (forall i :: 0 <= i < |log| ==> log[i].ok && log[i].p in net)
    && (forall a :: a in acks ==> a.ok && HeldBack(log, a.id))
  }

  // The client's output.

  predicate Truthful(log: seq<LogEntry>, o: Outcome) {
    !o.FAIL? && (o.OK? ==> HeldBack(log, o.id))
  }

  /** The lines printed so far are for IDs 1, 2, 3, ... in order, one each. */
  predicate InOrder(log: seq<LogEntry>, emitted: seq<Outcome>) {
    forall j :: 0 <= j < |emitted| ==> emitted[j].id == 1 + j && Truthful(log, emitted[j])
  }

  ghost predicate OutInv(log: seq<LogEntry>, out: Buffer<Outcome>, emitted: seq<Outcome>) {
    && Settled(out)
    && out.next == 1 + |emitted|
    && InOrder(log, emitted)
    && (forall id :: id in out.held ==> out.held[id].id == id && Truthful(log, out.held[id]))
  }

  /** Answers are only ever given for IDs that were sent. */
  ghost predicate AnsweredInv(c: Config, gens: seq<Generator>, out: Buffer<Outcome>) {
    forall id: nat :: 1 <= id && Known(out, id) ==> Sent(c, gens, id)
  }

  predicate AckInv(log: seq<LogEntry>, ack: AckReceiver) {
    ack.AckDeleted? ==> ack.ok && HeldBack(log, ack.id)
  }

  /** What every reachable state satisfies. */
  ghost predicate Inv(c: Config, s: State) {
    && GenInv(c, s.client.gens)
    && LayerInv(c, s.client.gens, s.client.layers)
    && DaemonInv(c, s.client.gens, s.client.layers, s.client.daemon)
    && TxInv(c, s)
    && LostInv(c, s.client.gens, s.client.layers, s.client.daemon, s.hist.lost)
    && NetInv(c, s.client.gens, s.net)
    && WorkerInv(c, s.net, s.server)
    && LogInv(s.net, s.server.log, s.acks)
    && OutInv(s.server.log, s.client.out, s.client.emitted)
    && AnsweredInv(c, s.client.gens, s.client.out)
    && AckInv(s.server.log, s.client.ack)
  }

  lemma InitGens(c: Config)
    ensures GenInv(c, Init(c).client.gens)
    ensures forall w :: 0 <= w < c.workers ==> Init(c).client.gens[w].held.None?
  {
    forall w: nat | w < c.workers
      ensures w % c.workers == w
    {
      SmallModulus(w, c.workers);
    }
    hide Empty;
    assert forall w :: 0 <= w < c.workers ==> Init(c).client.gens[w] == Generator(1 + w, None);
  }

  lemma InitLayers(c: Config)
    ensures LayerInv(c, Init(c).client.gens, Init(c).client.layers)
    ensures forall e, i :: !In(Init(c).client.layers, e, i)
  {
  }

  lemma InvInit(c: Config)
    requires Sound(c)
    ensures Inv(c, Init(c))
  {
    hide GenInv, LayerInv, OneEntryEach, AllUnique;
    InitGens(c);
    InitLayers(c);
  }

  // Facts that only grow: IDs sent and registered, packets on the wire, the server's log.

  ghost predicate GensGrow(c: Config, gens: seq<Generator>, gens': seq<Generator>) {
    forall id: nat :: (Registered(c, gens, id) ==> Registered(c, gens', id))
        && (Sent(c, gens, id) ==> Sent(c, gens', id))
  }

  predicate LogGrows(log: seq<LogEntry>, log': seq<LogEntry>) {
    log <= log'
  }

  lemma ServerFactsGrow(c: Config, s: State, net': set<Content>, log': seq<LogEntry>)
    requires WorkerInv(c, s.net, s.server) && OutInv(s.server.log, s.client.out, s.client.emitted)
    requires AckInv(s.server.log, s.client.ack)
    requires s.net <= net' && LogGrows(s.server.log, log')
    ensures WorkerInv(c, net', s.server.(log := log'))
    ensures OutInv(log', s.client.out, s.client.emitted)
    ensures AckInv(log', s.client.ack)
    ensures forall a :: a in s.acks && HeldBack(s.server.log, a.id) ==> HeldBack(log', a.id)
  {
  }
}
