/** Every step keeps the invariant. */
module ProtocolSteps {
  import opened Wrappers
  import opened Bytes
  import opened PacketCodec
  import opened CacheSpec
  import opened LayerSpec
  import opened Order
  import opened Protocol
  import opened ProtocolInvariants

  lemma GensGrowth(c: Config, s: State, gens': seq<Generator>)
    requires Inv(c, s) && GensGrow(c, s.client.gens, gens')
    ensures LayerInv(c, gens', s.client.layers)
    ensures DaemonInv(c, gens', s.client.layers, s.client.daemon)
    ensures LostInv(c, gens', s.client.layers, s.client.daemon, s.hist.lost)
    ensures NetInv(c, gens', s.net)
    ensures AnsweredInv(c, gens', s.client.out)
  {
  }

  lemma FreshIsGenuine(c: Config, id: uint64, timestamp: int64, data: seq<byte>)
    requires 1 <= id <= c.total && |data| == PayloadLength(c, id)
    ensures var p := FreshPacket(c, id, timestamp, data);
            p.data == data && p.id == id && Genuine(c, p) && GoodPending(c, PendingPacket(p.data, p.checksum))
  {
  }

  lemma ResentIsGenuine(c: Config, id: uint64, timestamp: int64, q: PendingPacket)
    requires 1 <= id <= c.total && GoodPending(c, q)
    ensures var p := ResentPacket(c, id, timestamp, q);
            p.data == q.data && p.id == id && Genuine(c, p)
  {
  }

  /** A genuine packet fits the receive buffer and is parsed back whole, checksum and all. */
  lemma GenuineIsDelivered(c: Config, p: Content)
    requires Sound(c) && Genuine(c, p)
    ensures Parse(c.sha, Delivered(c, p)) == Ok(p)
  {
    hide Parse, Layout;
    ParseLayout(c.sha, p, []);
    assert Layout(p) + [] == Layout(p);
  }

  lemma AckIsReadBack(a: Ack)
    requires a.id < TWO_TO_THE_64
    ensures ParseAck(AckBytes(a)) == Some(a)
  {
    PowerValues();
    BigEndianRoundTrip(a.id, 8);
    assert AckBytes(a)[0..8] == BigEndian(a.id, 8);
  }

  /** An ACK byte by byte. */
  lemma AckFormat(a: Ack)
    ensures |AckBytes(a)| == 9 && DigitsAt(AckBytes(a), 0, 8, a.id) && AckBytes(a)[8] == if a.ok then 1 else 0
  {
    hide BigEndian;
    EncodedDigits(AckBytes(a), 0, 8, a.id);
  }

  lemma SendTx(c: Config, s: State, gens': seq<Generator>, w: nat)
    requires Sound(c) && Inv(c, s) && w < |s.client.gens|
    requires !Sent(c, s.client.gens, s.client.gens[w].next)
    requires |gens'| == |s.client.gens| && forall v :: 0 <= v < |gens'| && v != w ==> gens'[v] == s.client.gens[v]
    requires gens'[w].next == s.client.gens[w].next
    requires forall id: nat :: Sent(c, gens', id) <==> Sent(c, s.client.gens, id) || id == gens'[w].next
    ensures var tx := s.hist.tx + multiset{gens'[w].next};
            && TxBounded(c, s.client.daemon, tx)
            && TxSent(c, gens', tx)
            && TxByLayer(s.client.layers, s.client.daemon, tx)
  {
    var id := gens'[w].next;
    assert id !in s.hist.tx;
    forall v | 0 <= v < |gens'| && gens'[v].held.Some? && v != w
      ensures gens'[v].next != id
    {
      assert GenInv(c, s.client.gens);
    }
  }

  lemma GenSendKeeps(c: Config, s: State, step: Step)
    requires Sound(c) && Inv(c, s) && step.GenSend? && Enabled(c, s, step)
    ensures Inv(c, Next(c, s, step))
  {
    var gens, w := s.client.gens, step.w;
    var id := gens[w].next;
    FreshIsGenuine(c, id, step.timestamp, step.data);
    hide FreshPacket, Genuine, GoodPending, PayloadLength;
    var p := FreshPacket(c, id, step.timestamp, step.data);
    var s' := Next(c, s, step);
    SendMarks(c, gens, w, PendingPacket(p.data, p.checksum));
    GensGrowth(c, s, s'.client.gens);
    ServerFactsGrow(c, s, s'.net, s.server.log);
    SendTx(c, s, s'.client.gens, w);
  }

  ghost predicate TailsKept(ls: Layers<nat, PendingPacket>, ls': Layers<nat, PendingPacket>) {
    forall key: nat, i: nat :: IsTailKey(ls, key, i) ==> IsTailKey(ls', key, i)
  }

  lemma LayersAfterRegister(c: Config, s: State, gens': seq<Generator>, ls': Layers<nat, PendingPacket>,
      added: Entry<nat, PendingPacket>)
    requires Inv(c, s) && !Busy(s.client.daemon, added.key) && added.key !in s.hist.lost
    requires forall id: nat :: Registered(c, gens', id) <==> Registered(c, s.client.gens, id) || id == added.key
    requires GoodPending(c, added.value) && s.hist.tx[added.key] == 1
    requires |ls'| == |s.client.layers| && OneEntryEach(ls')
    requires Adds(s.client.layers, ls', added, 0)
    requires TailsKept(s.client.layers, ls')
    ensures LayerInv(c, gens', ls')
    ensures DaemonInv(c, gens', ls', s.client.daemon)
    ensures LostInv(c, gens', ls', s.client.daemon, s.hist.lost)
    ensures TxByLayer(ls', s.client.daemon, s.hist.tx)
  {
    hide OneEntryEach, GoodPending, Registered, IsTailKey;
    var ls := s.client.layers;
    forall id, j | id != added.key && InLayer(ls', id, j)
      ensures InLayer(ls, id, j)
    {
      var e :| In(ls', e, j) && e.key == id;
      Witness(ls, e, j);
    }
  }

  lemma TxAfterRegister(c: Config, s: State, gens': seq<Generator>, w: nat)
    requires Inv(c, s) && w < |s.client.gens|
    requires gens' == s.client.gens[w := Generator(s.client.gens[w].next + c.workers, None)]
    requires forall id: nat :: Sent(c, gens', id) <==> Sent(c, s.client.gens, id)
    ensures TxSent(c, gens', s.hist.tx)
  {
  }

  lemma RegisterKeepsClient(c: Config, s: State, w: nat, gens': seq<Generator>, ls': Layers<nat, PendingPacket>,
      added: Entry<nat, PendingPacket>)
    requires Inv(c, s) && w < |s.client.gens| && s.client.gens[w].held == Some(added.value)
             && s.client.gens[w].next == added.key
    requires gens' == s.client.gens[w := Generator(added.key + c.workers, None)] && GenInv(c, gens')
    requires forall id: nat :: Registered(c, gens', id) <==> Registered(c, s.client.gens, id) || id == added.key
    requires forall id: nat :: Sent(c, gens', id) <==> Sent(c, s.client.gens, id)
    requires !Busy(s.client.daemon, added.key) && added.key !in s.hist.lost
    requires |ls'| == |s.client.layers| && OneEntryEach(ls') && Adds(s.client.layers, ls', added, 0)
    requires TailsKept(s.client.layers, ls')
    ensures Inv(c, s.(client := s.client.(layers := ls', gens := gens')))
  {
    hide Registered, Sent, Adds, IsTailKey, OneEntryEach;
    GensGrowth(c, s, gens');
    LayersAfterRegister(c, s, gens', ls', added);
    TxAfterRegister(c, s, gens', w);
  }

  /** An unregistered ID is in no layer, in no declared loss, and not in the daemon's hands. */
  lemma NotYetKnown(c: Config, s: State, id: nat)
    requires Inv(c, s) && !Registered(c, s.client.gens, id)
    ensures !Pending(s.client.layers, id) && id !in s.hist.lost && !Busy(s.client.daemon, id)
  {
  }

  /** Inserting a new key at the head leaves the tail of a non-empty layer in place. */
  lemma TailsStay(ls: Layers<nat, PendingPacket>, id: nat, p: PendingPacket, expiresAt: int)
    requires ls != [] && !Pending(ls, id)
    ensures TailsKept(ls, SetFirst<nat, PendingPacket>(ls, id, p, expiresAt))
  {
    forall e | e in ls[0]
      ensures e.key != id
    {
      Witness(ls, e, 0);
    }
    AbsentKey(ls[0], id);
  }

  lemma GenRegisterKeeps(c: Config, s: State, step: Step)
    requires Sound(c) && Inv(c, s) && step.GenRegister? && Enabled(c, s, step)
    ensures Inv(c, Next(c, s, step))
  {
    hide SetFirst, Adds, Registered, Sent, IsTailKey, OneEntryEach, Pending, TailsKept;
    var gens, ls, w := s.client.gens, s.client.layers, step.w;
    var id: nat, p := gens[w].next, gens[w].held.value;
    var gens' := gens[w := Generator(id + c.workers, None)];
    var added: Entry<nat, PendingPacket> := Entry(id, p, s.now + c.firstTTL);
    RegisterAdvances(c, gens, w);
    NotYetKnown(c, s, id);
    SetFirstMembers(ls, id, p, added.expiresAt);
    TailsStay(ls, id, p, added.expiresAt);
    RegisterKeepsClient(c, s, w, gens', SetFirst<nat, PendingPacket>(ls, id, p, added.expiresAt), added);
  }

  lemma HeldBackWasSent(c: Config, s: State, id: nat)
    requires Inv(c, s) && (HeldBack(s.server.log, id) || Logged(s.server.log, id))
    ensures 1 <= id <= c.total && Sent(c, s.client.gens, id)
  {
  }

  /** Deleting one key leaves the tail of a layer in place when the tail has another key. */
  lemma OtherTailsStay(ls: Layers<nat, PendingPacket>, id: nat, key: nat, i: nat)
    requires IsTailKey(ls, key, i) && key != id
    ensures IsTailKey(DeleteAll<nat, PendingPacket>(ls, id), key, i)
  {
  }

  lemma FewerEntries(c: Config, s: State, ls': Layers<nat, PendingPacket>, gone: nat)
    requires Inv(c, s)
    requires |ls'| == |s.client.layers| && OneEntryEach(ls')
    requires Drops(s.client.layers, ls', gone)
    requires var d := s.client.daemon;
             d.DaemonPeeked? && d.id != gone && IsTailKey(s.client.layers, d.id, d.layer) ==>
                 IsTailKey(ls', d.id, d.layer)
    ensures LayerInv(c, s.client.gens, ls')
    ensures DaemonInv(c, s.client.gens, ls', s.client.daemon)
    ensures LostInv(c, s.client.gens, ls', s.client.daemon, s.hist.lost)
    ensures TxByLayer(ls', s.client.daemon, s.hist.tx)
  {
    hide OneEntryEach, GoodPending, Registered, IsTailKey;
    forall id: nat, j: nat | InLayer(ls', id, j)
      ensures InLayer(s.client.layers, id, j) && id != gone
    {
      var e :| In(ls', e, j) && e.key == id;
      Witness(s.client.layers, e, j);
    }
  }

  lemma AckDeleteKeeps(c: Config, s: State, step: Step)
    requires Sound(c) && Inv(c, s) && step.AckDelete? && Enabled(c, s, step)
    ensures Inv(c, Next(c, s, step))
    ensures Next(c, s, step).client.layers == DeleteAll<nat, PendingPacket>(s.client.layers, step.ack.id)
    ensures Next(c, s, step).client.ack == AckDeleted(step.ack.id, true)
  {
    var a, ls, d := step.ack, s.client.layers, s.client.daemon;
    assert HeldBack(s.server.log, a.id);
    HeldBackWasSent(c, s, a.id);
    AckIsReadBack(a);
    hide AckBytes, ParseAck, DeleteAll, Drops, OneEntryEach, HeldBack;
    DeleteMembers(ls, a.id);
    if d.DaemonPeeked? && d.id != a.id && IsTailKey(ls, d.id, d.layer) {
      OtherTailsStay(ls, a.id, d.id, d.layer);
    }
    FewerEntries(c, s, DeleteAll<nat, PendingPacket>(ls, a.id), a.id);
  }

  /** Printing after an Insert: the released lines continue the numbering. */
  lemma OutcomeInserted(log: seq<LogEntry>, out: Buffer<Outcome>, emitted: seq<Outcome>, o: Outcome)
    requires OutInv(log, out, emitted) && Truthful(log, o)
    ensures var (released, out') := InsertInto<Outcome>(out, o.id, o);
            OutInv(log, out', emitted + released)
            && forall id: nat :: Known(out', id) <==> Known(out, id) || id == o.id
  {
    hide Truthful, InsertInto;
    InsertStep(out, o.id, o);
  }

  lemma AckInsertKeeps(c: Config, s: State, step: Step)
    requires Sound(c) && Inv(c, s) && step.AckInsert? && Enabled(c, s, step)
    ensures Inv(c, Next(c, s, step))
  {
    hide InsertInto, HeldBack;
    HeldBackWasSent(c, s, s.client.ack.id);
    OutcomeInserted(s.server.log, s.client.out, s.client.emitted, OK(s.client.ack.id));
  }

  lemma PeekFindsTail(ls: Layers<nat, PendingPacket>, now: int)
    requires PeekExpired<nat, PendingPacket>(ls, now).Some?
    ensures var found := PeekExpired<nat, PendingPacket>(ls, now).value;
            IsTailKey(ls, found.key, found.layer)
  {
  }

  lemma PeekedIsTracked(c: Config, s: State, id: nat, i: nat)
    requires Inv(c, s) && s.client.daemon.DaemonIdle? && IsTailKey(s.client.layers, id, i)
    ensures DaemonInv(c, s.client.gens, s.client.layers, DaemonPeeked(id, i))
    ensures TxBounded(c, DaemonPeeked(id, i), s.hist.tx)
    ensures TxByLayer(s.client.layers, DaemonPeeked(id, i), s.hist.tx)
    ensures LostInv(c, s.client.gens, s.client.layers, DaemonPeeked(id, i), s.hist.lost)
  {
    var ls := s.client.layers;
    var tail := ls[i][|ls[i]| - 1];
    assert In(ls, tail, i);
    Witness(ls, tail, i);
    forall j | InLayer(ls, id, j)
      ensures j == i
    {
      var e :| In(ls, e, j) && e.key == id;
    }
  }

  lemma PeekKeeps(c: Config, s: State, step: Step)
    requires Sound(c) && Inv(c, s) && step.Peek? && Enabled(c, s, step)
    ensures Inv(c, Next(c, s, step))
  {
    hide PeekExpired;
    var found := PeekExpired<nat, PendingPacket>(s.client.layers, s.now);
    if found.Some? {
      PeekFindsTail(s.client.layers, s.now);
      PeekedIsTracked(c, s, found.value.key, found.value.layer);
    }
  }

  /** The layer was emptied between the peek and the promotion: the ID is gone and is about to be
      declared lost. */
  lemma PromoteNothing(c: Config, s: State, expiresAt: int)
    requires Inv(c, s) && s.client.daemon.DaemonPeeked? && s.client.layers[s.client.daemon.layer] == []
    ensures var ls, d := s.client.layers, s.client.daemon;
            && Promote<nat, PendingPacket>(ls, d.id, d.layer, expiresAt) == (ls, None, false)
            && DaemonInv(c, s.client.gens, ls, DaemonLosing(d.id))
            && TxBounded(c, DaemonLosing(d.id), s.hist.tx)
            && TxByLayer(ls, DaemonLosing(d.id), s.hist.tx)
            && LostInv(c, s.client.gens, ls, DaemonLosing(d.id), s.hist.lost)
  {
  }

  lemma LayersAfterPromote(c: Config, s: State, ls': Layers<nat, PendingPacket>, d': Daemon, x: int)
    requires Inv(c, s) && s.client.daemon.DaemonPeeked? && |ls'| == c.layers && OneEntryEach(ls')
    requires var d, ls := s.client.daemon, s.client.layers;
             ls[d.layer] != []
             && var tail := ls[d.layer][|ls[d.layer]| - 1];
             && d' == (if d.layer + 1 < c.layers then DaemonResending(d.id, tail.value) else DaemonLosing(d.id))
             && MovesUp(ls, ls', d.layer, tail, Entry<nat, PendingPacket>.Entry(d.id, tail.value, x))
    ensures LayerInv(c, s.client.gens, ls')
    ensures DaemonInv(c, s.client.gens, ls', d')
    ensures TxBounded(c, d', s.hist.tx)
    ensures TxByLayer(ls', d', s.hist.tx)
    ensures LostInv(c, s.client.gens, ls', d', s.hist.lost)
  {
    hide OneEntryEach, GoodPending, Registered;
    var d, ls := s.client.daemon, s.client.layers;
    var tail := ls[d.layer][|ls[d.layer]| - 1];
    assert In(ls, tail, d.layer);
    forall e, j: nat | In(ls', e, j) && e.key == d.id
      ensures j == d.layer + 1 < c.layers && e.value == tail.value
    {
      Witness(ls, e, j);
    }
    forall id: nat, j: nat | InLayer(ls', id, j) && id != d.id
      ensures InLayer(ls, id, j)
    {
      var e :| In(ls', e, j) && e.key == id;
      Witness(ls, e, j);
    }
    forall j | InLayer(ls', d.id, j)
      ensures j == d.layer + 1 < c.layers
    {
      var e :| In(ls', e, j) && e.key == d.id;
    }
  }

  lemma PromoteKeeps(c: Config, s: State, step: Step)
    requires Sound(c) && Inv(c, s) && step.PromoteStep? && Enabled(c, s, step)
    ensures Inv(c, Next(c, s, step))
  {
    hide NetInv, WorkerInv, LogInv, OutInv, AnsweredInv, AckInv, GenInv, TxSent, Promote, MovesUp;
    var ls, d := s.client.layers, s.client.daemon;
    var expiresAt := s.now + c.backoff(d.layer + 1);
    if ls[d.layer] == [] {
      PromoteNothing(c, s, expiresAt);
    } else {
      PromoteMembers(ls, d.id, d.layer, expiresAt);
      LayersAfterPromote(c, s, Promote<nat, PendingPacket>(ls, d.id, d.layer, expiresAt).0,
          Next(c, s, step).client.daemon, expiresAt);
    }
  }

  lemma HeldNotRegistered(c: Config, gens: seq<Generator>, w: nat)
    requires GenInv(c, gens) && w < |gens|
    ensures !Registered(c, gens, gens[w].next)
  {
  }

  lemma ResendKeeps(c: Config, s: State, step: Step)
    requires Sound(c) && Inv(c, s) && step.Resend? && Enabled(c, s, step)
    ensures Inv(c, Next(c, s, step))
  {
    var d, gens := s.client.daemon, s.client.gens;
    var s' := Next(c, s, step);
    ResentIsGenuine(c, d.id, step.timestamp, d.packet);
    hide ResentPacket, Genuine, GoodPending;
    ServerFactsGrow(c, s, s'.net, s.server.log);
    forall w | 0 <= w < |gens| && gens[w].held.Some?
      ensures gens[w].next != d.id
    {
      HeldNotRegistered(c, gens, w);
    }
    assert TxInv(c, s');
  }

  lemma DeclareLostKeeps(c: Config, s: State, step: Step)
    requires Sound(c) && Inv(c, s) && step.DeclareLost? && Enabled(c, s, step)
    ensures Inv(c, Next(c, s, step))
  {
    hide InsertInto;
    var id := s.client.daemon.id;
    OutcomeInserted(s.server.log, s.client.out, s.client.emitted, LOST(id));
    assert id !in s.hist.lost by {
      assert Busy(s.client.daemon, id);
    }
  }

  lemma TakeKeeps(c: Config, s: State, step: Step)
    requires Sound(c) && Inv(c, s) && step.Take? && Enabled(c, s, step)
    ensures Inv(c, Next(c, s, step))
    ensures Next(c, s, step).server.workers[step.k] == Parsed(step.p, true)
  {
    GenuineIsDelivered(c, step.p);
    hide Parse, Delivered;
  }

  lemma DedupKeeps(c: Config, s: State, step: Step)
    requires Sound(c) && Inv(c, s) && (step.DedupGet? || step.DedupSet?) && Enabled(c, s, step)
    ensures Inv(c, Next(c, s, step))
  {
    hide CacheSpec.Get, Put;
  }

  lemma LastIsLogged(log: seq<LogEntry>, e: LogEntry)
    ensures Logged(log + [e], e.p.id)
    ensures !e.released ==> HeldBack(log + [e], e.p.id)
  {
    assert (log + [e])[|log|] == e;
  }

  lemma ServerInsertKeeps(c: Config, s: State, step: Step)
    requires Sound(c) && Inv(c, s) && step.ServerInsert? && Enabled(c, s, step)
    ensures Inv(c, Next(c, s, step))
  {
    hide InsertInto, HeldBack, Logged;
    var w := s.server.workers[step.k];
    var entry := LogEntry(w.p, w.ok, InsertInto<nat>(s.server.ob, w.p.id, w.p.id).0 != []);
    var log' := s.server.log + [entry];
    assert WorkerSound(s.net, s.server.log, w);
    ServerFactsGrow(c, s, s.net, log');
    LastIsLogged(s.server.log, entry);
  }

  lemma SendAckKeeps(c: Config, s: State, step: Step)
    requires Sound(c) && Inv(c, s) && step.SendAck? && Enabled(c, s, step)
    ensures Inv(c, Next(c, s, step))
  {
    hide HeldBack, Logged;
    assert WorkerSound(s.net, s.server.log, s.server.workers[step.k]);
  }

  lemma TickKeeps(c: Config, s: State, step: Step)
    requires Inv(c, s) && step.Tick?
    ensures Inv(c, Next(c, s, step))
  {
  }

  lemma StepKeeps(c: Config, s: State, step: Step)
    requires Sound(c) && Inv(c, s) && Enabled(c, s, step)
    ensures Inv(c, Next(c, s, step))
  {
    hide Inv;
    match step
    case GenSend(_, _, _) => GenSendKeeps(c, s, step);
    case GenRegister(_) => GenRegisterKeeps(c, s, step);
    case AckDelete(_) => AckDeleteKeeps(c, s, step);
    case AckInsert => AckInsertKeeps(c, s, step);
    case Peek => PeekKeeps(c, s, step);
    case PromoteStep => PromoteKeeps(c, s, step);
    case Resend(_) => ResendKeeps(c, s, step);
    case DeclareLost => DeclareLostKeeps(c, s, step);
    case Take(_, _) => TakeKeeps(c, s, step);
    case DedupGet(_) => DedupKeeps(c, s, step);
    case DedupSet(_) => DedupKeeps(c, s, step);
    case ServerInsert(_) => ServerInsertKeeps(c, s, step);
    case SendAck(_) => SendAckKeeps(c, s, step);
    case Tick(_) => TickKeeps(c, s, step);
  }

  /** Every reachable state, in every interleaving, satisfies the invariant. */
  lemma {:induction false} RunsKeep(c: Config, steps: seq<Step>)
    requires Sound(c)
    ensures Inv(c, After(c, steps))
  {
    hide Inv;
    if steps == [] {
      InvInit(c);
    } else {
      var s, step := After(c, steps[..|steps| - 1]), steps[|steps| - 1];
      RunsKeep(c, steps[..|steps| - 1]);
      if Enabled(c, s, step) {
        StepKeeps(c, s, step);
      }
    }
  }
}
