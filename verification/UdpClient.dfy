/** internal/variants/udp/client.go on the real layer cache and ordered buffer: the bodies of its
    three loops as methods, and that each body, when nothing comes between, does what its steps in
    Protocol do. */
module UdpClient {
  import opened Wrappers
  import opened Bytes
  import opened PacketCodec
  import opened CacheSpec
  import opened LayerSpec
  import opened Order
  import opened Protocol
  import opened ProtocolInvariants
  import ProtocolSteps
  import LayeredCache
  import GeneratorLoop

  /** What the loops share: the retransmit cache, the ordered buffer and the printed lines. */
  datatype Shared = Shared(layers: Layers<nat, PendingPacket>, out: Buffer<Outcome>, emitted: seq<Outcome>)

  function SharedOf(cl: Protocol.Client): Shared {
    Shared(cl.layers, cl.out, cl.emitted)
  }

  /** An answer inserted, and whatever it releases printed. */
  function Report(sh: Shared, o: Outcome): Shared {
    var (released, out) := InsertInto<Outcome>(sh.out, o.id, o);
    Shared(sh.layers, out, sh.emitted + released)
  }

  /** A packet that has just been sent enters the first layer. */
  function Stored(c: Config, sh: Shared, id: nat, p: PendingPacket, now: int): Shared {
    sh.(layers := SetFirst<nat, PendingPacket>(sh.layers, id, p, now + c.firstTTL))
  }

  /** An ACK takes its packet out of every layer and answers for it. */
  function Acknowledged(sh: Shared, ackBuf: seq<byte>): Shared {
    match ParseAck(ackBuf)
    case None => sh
    case Some(a) =>
      Report(sh.(layers := DeleteAll<nat, PendingPacket>(sh.layers, a.id)), if a.ok then OK(a.id) else FAIL(a.id))
  }

  /** An overdue packet goes one layer up and out again, or is given up when there is no layer left. */
  function Retried(c: Config, sh: Shared, peekAt: int, promoteAt: int): Shared {
    match PeekExpired<nat, PendingPacket>(sh.layers, peekAt)
    case None => sh
    case Some(found) =>
      var popped := sh.layers[found.layer := Pop<nat, PendingPacket>(sh.layers[found.layer])];
      if found.layer + 1 < |sh.layers| then
        sh.(layers := popped[found.layer + 1 :=
              Put<nat, PendingPacket>(sh.layers[found.layer + 1], found.key, found.value,
                                      promoteAt + c.backoff(found.layer + 1))])
      else
        Report(sh.(layers := popped), LOST(found.key))
  }

  /** How a round of the daemon's loop ends: with a datagram sent, with a failed serialisation, with a
      LOST, or with a sleep. */
  datatype Round = Resent(datagram: seq<byte>) | NotSent | GaveUp | Slept(duration: int)

  const IDLE_SLEEP: int := 20

  predicate KeysFit(ls: Layers<nat, PendingPacket>) {
    forall i, e :: 0 <= i < |ls| && e in ls[i] ==> e.key < TWO_TO_THE_64
  }

  lemma KeysStillFit(ls: Layers<nat, PendingPacket>, key: nat)
    requires KeysFit(ls)
    ensures KeysFit(DeleteAll<nat, PendingPacket>(ls, key))
  {
  }

  lemma MovedKeysFit(ls: Layers<nat, PendingPacket>, key: nat, i: nat, expiresAt: int)
    requires KeysFit(ls) && key < TWO_TO_THE_64
    ensures KeysFit(Promote<nat, PendingPacket>(ls, key, i, expiresAt).0)
  {
  }

  lemma NewKeyFits(ls: Layers<nat, PendingPacket>, key: nat, p: PendingPacket, expiresAt: int)
    requires KeysFit(ls) && key < TWO_TO_THE_64
    ensures KeysFit(SetFirst<nat, PendingPacket>(ls, key, p, expiresAt))
  {
  }

  function SendOf(sha: HashFunction, p: Content): (r: Round)
    ensures r.Resent? || r.NotSent?
  {
    match Serialize(sha, p)
    case Ok(datagram) => Resent(datagram)
    case Err(_) => NotSent
  }

  /** A promotion straight after the peek pops the peeked packet. */
  lemma PromotesPeeked(ls: Layers<nat, PendingPacket>, now: int, expiresAt: int)
    requires KeysFit(ls)
    ensures match PeekExpired<nat, PendingPacket>(ls, now)
            case None => true
            case Some(found) =>
              && found.key < TWO_TO_THE_64 && found.layer < |ls|
              && var popped := ls[found.layer := Pop<nat, PendingPacket>(ls[found.layer])];
                 Promote<nat, PendingPacket>(ls, found.key, found.layer, expiresAt) ==
                 if found.layer + 1 < |ls| then
                   (popped[found.layer + 1 :=
                       Put<nat, PendingPacket>(ls[found.layer + 1], found.key, found.value, expiresAt)],
                    Some(found.value), true)
                 else (popped, Some(found.value), false)
  {
  }

  function RoundOf(c: Config, ls: Layers<nat, PendingPacket>, peekAt: int, promoteAt: int, timestamp: int64): Round
    requires KeysFit(ls)
  {
    match PeekExpired<nat, PendingPacket>(ls, peekAt)
    case Some(found) =>
      if found.layer + 1 == |ls| then GaveUp
      else
        PromotesPeeked(ls, peekAt, 0);
        SendOf(c.sha, Content(found.key, timestamp, found.value.data, found.value.checksum, []))
    case None =>
      match EarliestTail<nat, PendingPacket>(ls, |ls|)
      case None => Slept(IDLE_SLEEP)
      case Some(deadline) => Slept(if deadline > promoteAt then deadline - promoteAt else 0)
  }

  lemma RetryCases(c: Config, sh: Shared, found: Peeked<nat, PendingPacket>, peekAt: int, promoteAt: int,
      timestamp: int64)
    requires KeysFit(sh.layers) && PeekExpired<nat, PendingPacket>(sh.layers, peekAt) == Some(found)
    ensures found.key < TWO_TO_THE_64
    ensures var (ls, value, alive) :=
              Promote<nat, PendingPacket>(sh.layers, found.key, found.layer, promoteAt + c.backoff(found.layer + 1));
            && value == Some(found.value)
            && Retried(c, sh, peekAt, promoteAt) ==
               (if alive then sh.(layers := ls) else Report(sh.(layers := ls), LOST(found.key)))
            && RoundOf(c, sh.layers, peekAt, promoteAt, timestamp) ==
               if !alive then GaveUp
               else SendOf(c.sha, Content(found.key, timestamp, found.value.data, found.value.checksum, []))
  {
    hide PeekExpired, Promote, Report, SendOf, KeysFit;
    PromotesPeeked(sh.layers, peekAt, promoteAt + c.backoff(found.layer + 1));
  }

  // What a round means for the packets in the cache.

  /** A packet that was sent stands in the first layer with that layer's deadline, and all others stay. */
  lemma StoredMeans(c: Config, sh: Shared, id: nat, p: PendingPacket, now: int)
    requires OneEntryEach(sh.layers) && sh.layers != [] && !Pending(sh.layers, id)
    ensures var after := Stored(c, sh, id, p, now);
            && after == sh.(layers := after.layers)
            && Adds(sh.layers, after.layers, Entry(id, p, now + c.firstTTL), 0)
  {
    SetFirstMembers<nat, PendingPacket>(sh.layers, id, p, now + c.firstTTL);
  }

  /** An ACK of at least nine bytes takes its packet, and no other, out of all layers and inserts its answer. */
  lemma AcknowledgedMeans(sh: Shared, ackBuf: seq<byte>)
    requires OneEntryEach(sh.layers)
    ensures var after := Acknowledged(sh, ackBuf);
            if |ackBuf| < 9 then after == sh
            else
              var id := FromBigEndian(ackBuf[0..8]);
              var o := if ackBuf[8] == 1 then OK(id) else FAIL(id);
              && Drops(sh.layers, after.layers, id)
              && after.out == InsertInto<Outcome>(sh.out, id, o).1
              && after.emitted == sh.emitted + InsertInto<Outcome>(sh.out, id, o).0
  {
    hide FromBigEndian, InsertInto;
    if |ackBuf| >= 9 {
      DeleteMembers<nat, PendingPacket>(sh.layers, FromBigEndian(ackBuf[0..8]));
    }
  }

  ghost predicate NothingOverdue(ls: Layers<nat, PendingPacket>, now: int) {
    forall e, i: nat :: In(ls, e, i) ==> now <= e.expiresAt
  }

  /** An entry with the earliest deadline of all. */
  ghost predicate Least(ls: Layers<nat, PendingPacket>, e: Entry<nat, PendingPacket>, i: nat) {
    In(ls, e, i) && forall f, j: nat :: In(ls, f, j) ==> e.expiresAt <= f.expiresAt
  }

  /** With nothing pending it sleeps 20 ms; else until the earliest deadline of all, if that is still ahead. */
  ghost predicate SleepsUntilDue(ls: Layers<nat, PendingPacket>, now: int, round: Round) {
    if forall e, i: nat :: !In(ls, e, i) then round == Slept(20)
    else
      exists e, i: nat ::
        && Least(ls, e, i)
        && round == Slept(if e.expiresAt > now then e.expiresAt - now else 0)
  }

  lemma ScanFindsNothing(ls: Layers<nat, PendingPacket>, now: int)
    requires AllSorted(ls) && NothingOverdue(ls, now)
    ensures PeekExpired<nat, PendingPacket>(ls, now).None?
  {
    PeekIsFullScan<nat, PendingPacket>(ls, now);
    hide PeekExpired, Sorted;
    forall i, j | 0 <= i < |ls| && 0 <= j < |ls[i]|
      ensures !Expired(ls[i][j], now)
    {
      assert In(ls, ls[i][j], i);
    }
  }

  lemma EarliestIsLeast(ls: Layers<nat, PendingPacket>)
    requires AllSorted(ls)
    ensures match EarliestTail<nat, PendingPacket>(ls, |ls|)
            case None => forall e, i: nat :: !In(ls, e, i)
            case Some(deadline) => exists e, i: nat :: Least(ls, e, i) && e.expiresAt == deadline
  {
    EarliestIsMinimum<nat, PendingPacket>(ls);
    hide EarliestTail, Sorted;
    var r := EarliestTail<nat, PendingPacket>(ls, |ls|);
    if r.Some? {
      var i, j :| 0 <= i < |ls| && 0 <= j < |ls[i]| && ls[i][j].expiresAt == r.value;
      forall f, k: nat | In(ls, f, k)
        ensures r.value <= f.expiresAt
      {
        var m :| 0 <= m < |ls[k]| && ls[k][m] == f;
      }
      assert Least(ls, ls[i][j], i);
    }
  }

  lemma SleepMeans(c: Config, ls: Layers<nat, PendingPacket>, peekAt: int, promoteAt: int, timestamp: int64)
    requires KeysFit(ls) && AllSorted(ls) && NothingOverdue(ls, peekAt)
    ensures SleepsUntilDue(ls, promoteAt, RoundOf(c, ls, peekAt, promoteAt, timestamp))
  {
    ScanFindsNothing(ls, peekAt);
    EarliestIsLeast(ls);
    hide PeekExpired, EarliestTail, AllSorted, KeysFit;
  }

  /** The entry that the daemon takes up: of the lowest layer that has an overdue one, the earliest. */
  ghost predicate TakenUp(ls: Layers<nat, PendingPacket>, now: int, e: Entry<nat, PendingPacket>, i: nat) {
    && In(ls, e, i) && now > e.expiresAt
    && (forall f, j: nat :: In(ls, f, j) && j < i ==> now <= f.expiresAt)
    && (forall f :: In(ls, f, i) ==> e.expiresAt <= f.expiresAt)
  }

  lemma PeekedIsTail(ls: Layers<nat, PendingPacket>, now: int)
    ensures var r := PeekExpired<nat, PendingPacket>(ls, now);
            r.Some? ==>
              var i := r.value.layer;
              && i < |ls| && ls[i] != []
              && var e := ls[i][|ls[i]| - 1];
                 r.value.key == e.key && r.value.value == e.value && now > e.expiresAt
  {
  }

  lemma LiveBelow(ls: Layers<nat, PendingPacket>, now: int, i: nat)
    requires i <= |ls| && forall k, m :: 0 <= k < i && 0 <= m < |ls[k]| ==> !Expired(ls[k][m], now)
    ensures forall f, j: nat :: In(ls, f, j) && j < i ==> now <= f.expiresAt
  {
    forall f, j: nat | In(ls, f, j) && j < i
      ensures now <= f.expiresAt
    {
      var m :| 0 <= m < |ls[j]| && ls[j][m] == f;
    }
  }

  lemma TailLeast(ls: Layers<nat, PendingPacket>, i: nat)
    requires i < |ls| && Sorted(ls[i]) && ls[i] != []
    ensures forall f :: In(ls, f, i) ==> ls[i][|ls[i]| - 1].expiresAt <= f.expiresAt
  {
    forall f | In(ls, f, i)
      ensures ls[i][|ls[i]| - 1].expiresAt <= f.expiresAt
    {
      var j :| 0 <= j < |ls[i]| && ls[i][j] == f;
      TailIsLeast(ls[i], j);
    }
  }

  lemma SomethingTakenUp(ls: Layers<nat, PendingPacket>, now: int) returns (e: Entry<nat, PendingPacket>, i: nat)
    requires AllSorted(ls) && !NothingOverdue(ls, now)
    ensures i < |ls| && ls[i] != [] && e == ls[i][|ls[i]| - 1]
    ensures TakenUp(ls, now, e, i)
    ensures PeekExpired<nat, PendingPacket>(ls, now) == Some(LayerSpec.Peeked(e.key, e.value, i))
  {
    PeekIsFullScan<nat, PendingPacket>(ls, now);
    PeekedIsTail(ls, now);
    hide PeekExpired, Sorted;
    var f, k: nat :| In(ls, f, k) && now > f.expiresAt;
    var j :| 0 <= j < |ls[k]| && ls[k][j] == f;
    assert Expired(ls[k][j], now);
    i := PeekExpired<nat, PendingPacket>(ls, now).value.layer;
    e := ls[i][|ls[i]| - 1];
    TailLeast(ls, i);
    LiveBelow(ls, now, i);
  }

  lemma OnlyItsTail(ls: Layers<nat, PendingPacket>, e: Entry<nat, PendingPacket>, i: nat)
    requires OneEntryEach(ls) && i < |ls| && ls[i] != [] && e == ls[i][|ls[i]| - 1]
    ensures forall j :: InLayer(ls, e.key, j) ==> j == i && IsTailKey(ls, e.key, i)
  {
    assert In(ls, e, i);
  }

  /** With something overdue: that entry leaves its layer, and either stands one layer up with that layer's
      interval and is sent again under its own ID, or is answered LOST when there is no layer above. */
  lemma RetryMeans(c: Config, sh: Shared, peekAt: int, promoteAt: int, timestamp: int64)
    requires KeysFit(sh.layers) && AllSorted(sh.layers) && OneEntryEach(sh.layers) && !NothingOverdue(sh.layers, peekAt)
    ensures var after, round := Retried(c, sh, peekAt, promoteAt), RoundOf(c, sh.layers, peekAt, promoteAt, timestamp);
            exists e: Entry<nat, PendingPacket>, i: nat ::
              && TakenUp(sh.layers, peekAt, e, i) && e.key < TWO_TO_THE_64
              && MovesUp<nat, PendingPacket>(sh.layers, after.layers, i, e,
                   Entry(e.key, e.value, promoteAt + c.backoff(i + 1)))
              && if i + 1 < |sh.layers| then
                   && after == sh.(layers := after.layers)
                   && round == SendOf(c.sha, Content(e.key, timestamp, e.value.data, e.value.checksum, []))
                 else
                   round.GaveUp? && after == Report(sh.(layers := after.layers), LOST(e.key))
  {
    hide PeekExpired, Promote, InsertInto, SendOf, KeysFit, Retried, RoundOf, TakenUp, MovesUp, OneEntryEach, AllSorted,
        NothingOverdue;
    var e, i := SomethingTakenUp(sh.layers, peekAt);
    RetryCases(c, sh, LayerSpec.Peeked<nat, PendingPacket>.Peeked(e.key, e.value, i), peekAt, promoteAt, timestamp);
    OnlyItsTail(sh.layers, e, i);
    PromoteMembers<nat, PendingPacket>(sh.layers, e.key, i, promoteAt + c.backoff(i + 1));
    var after := Retried(c, sh, peekAt, promoteAt);
    assert MovesUp<nat, PendingPacket>(sh.layers, after.layers, i, e,
        Entry(e.key, e.value, promoteAt + c.backoff(i + 1)));
  }

  class Client {
    const config: Config
    const layerCache: LayeredCache.LayerCache<nat, PendingPacket>
    const orderedOutput: OrderedBuffer<Outcome>
    /** The lines printed. */
    var out: seq<Outcome>
    var sentCount: nat
    var ackCount: nat
    var lostCount: nat

    constructor (config: Config, layerCache: LayeredCache.LayerCache<nat, PendingPacket>,
        orderedOutput: OrderedBuffer<Outcome>)
      ensures this.config == config && this.layerCache == layerCache && this.orderedOutput == orderedOutput
      ensures out == [] && sentCount == ackCount == lostCount == 0
    {
      this.config, this.layerCache, this.orderedOutput := config, layerCache, orderedOutput;
      out, sentCount, ackCount, lostCount := [], 0, 0, 0;
    }

    /** The cache is the configured one. */
    ghost predicate Valid()
      reads layerCache.layers, layerCache.Nodes()
    {
      && layerCache.Valid()
      && |layerCache.layers| == config.layers
      && (layerCache.layers != [] ==> layerCache.layers[0].ttl == config.firstTTL)
      && (forall i: nat :: layerCache.backoff(i) == config.backoff(i))
      && KeysFit(layerCache.View())
    }

    ghost function View(): Shared
      reads this, orderedOutput, layerCache.layers
    {
      Shared(layerCache.View(), orderedOutput.View(), out)
    }

    /** Neither this object nor the ordered buffer is one of the cache's. */
    lemma OutsideTheCache()
      ensures this as object !in layerCache.Nodes() && this as object !in layerCache.layers
      ensures orderedOutput as object !in layerCache.Nodes() && orderedOutput as object !in layerCache.layers
    {
    }

    /** orderedOutput.Insert and the loop that prints what it returns. */
    method Insert(o: Outcome)
      requires Valid()
      modifies this`out, orderedOutput
      ensures Valid()
      ensures View() == Report(old(View()), o)
      ensures layerCache.Nodes() == old(layerCache.Nodes())
    {
      hide LayeredCache.LayerCache.Valid, KeysFit, LayeredCache.LayerCache.View;
      OutsideTheCache();
      var released := orderedOutput.Insert(o.id, o);
      for i := 0 to |released|
        invariant out == old(out) + released[..i]
        invariant orderedOutput.View() == InsertInto<Outcome>(old(orderedOutput.View()), o.id, o).1
      {
        out := out + [released[i]];
      }
      assert released[..|released|] == released;
    }

    method Store(id: uint64, p: PendingPacket, now: int)
      requires Valid() && Sound(config)
      modifies layerCache.layers, layerCache.Nodes()
      ensures Valid()
      ensures View() == Stored(config, old(View()), id, p, now)
    {
      hide LayeredCache.LayerCache.Valid, LayeredCache.LayerCache.Nodes, LayeredCache.LayerCache.View, KeysFit,
          SetFirst;
      OutsideTheCache();
      NewKeyFits(layerCache.View(), id, p, now + config.firstTTL);
      layerCache.Set(id, p, now);
    }

    /** One round of a generator's loop, on its two reused buffers. */
    method GeneratorRound(id: uint64, rawBuf: array<byte>, serializeBuf: array<byte>, now: int)
        returns (datagram: seq<byte>)
      requires Valid() && Sound(config) && rawBuf != serializeBuf
      requires rawBuf.Length == config.maxPacket && serializeBuf.Length == config.maxPacket + 128
      modifies rawBuf, serializeBuf, this`sentCount, layerCache.layers, layerCache.Nodes()
      ensures Valid()
      ensures var r := Parse(config.sha, datagram);
              && r.Ok? && r.value.id == id && r.value.extra == [] && |r.value.data| == PayloadLength(config, id)
              && View() == Stored(config, old(View()), id, PendingPacket(r.value.data, r.value.checksum), now)
      ensures sentCount == old(sentCount) + 1
    {
      hide LayeredCache.LayerCache.Valid, LayeredCache.LayerCache.View, KeysFit, SetFirst, Parse, PayloadLength, Valid;
      var pendingData, checksum;
      OutsideTheCache();
      assert rawBuf as object !in layerCache.Nodes() && serializeBuf as object !in layerCache.Nodes();
      hide LayeredCache.LayerCache.Nodes;
      datagram, pendingData, checksum := GeneratorLoop.Produce(config, id, rawBuf, serializeBuf);
      sentCount := sentCount + 1;
      OutsideTheCache();
      Store(id, PendingPacket(pendingData[..], checksum), now);
    }

    method Forget(id: nat)
      requires Valid()
      modifies layerCache.layers, layerCache.Nodes()
      ensures Valid()
      ensures View() == old(View()).(layers := DeleteAll<nat, PendingPacket>(old(layerCache.View()), id))
      ensures forall n :: n in layerCache.Nodes() ==> n in old(layerCache.Nodes())
    {
      hide LayeredCache.LayerCache.Valid, LayeredCache.LayerCache.View, DeleteAll, KeysFit;
      OutsideTheCache();
      KeysStillFit(layerCache.View(), id);
      layerCache.Delete(id);
    }

    /** One round of ackReceiver, given the bytes received. */
    method AckRound(ackBuf: seq<byte>)
      requires Valid()
      modifies this`out, this`ackCount, layerCache.layers, layerCache.Nodes(), orderedOutput
      ensures Valid()
      ensures View() == Acknowledged(old(View()), ackBuf)
      ensures ackCount == old(ackCount) + if |ackBuf| < 9 then 0 else 1
    {
      hide LayeredCache.LayerCache.Valid, LayeredCache.LayerCache.Nodes, LayeredCache.LayerCache.View, DeleteAll,
          KeysFit;
      hide Report, FromBigEndian;
      OutsideTheCache();
      if |ackBuf| < 9 {
        return;
      }
      var id := FromBigEndian(ackBuf[0..8]);
      var success := ackBuf[8] == 1;
      ackCount := ackCount + 1;
      Forget(id);
      OutsideTheCache();
      Insert(if success then OK(id) else FAIL(id));
    }

    method Promote(id: uint64, layerIdx: nat, promoteAt: int) returns (pp: Option<PendingPacket>, alive: bool)
      requires Valid()
      modifies layerCache.layers, layerCache.Nodes()
      ensures Valid()
      ensures (layerCache.View(), pp, alive) ==
              LayerSpec.Promote<nat, PendingPacket>(old(layerCache.View()), id, layerIdx,
                                                    promoteAt + layerCache.backoff(layerIdx + 1))
    {
      hide LayeredCache.LayerCache.Valid, LayeredCache.LayerCache.Nodes, LayeredCache.LayerCache.View, KeysFit,
          LayerSpec.Promote;
      MovedKeysFit(layerCache.View(), id, layerIdx, promoteAt + layerCache.backoff(layerIdx + 1));
      pp, alive := layerCache.PromoteLayer(id, layerIdx, promoteAt);
    }

    /** The packet rebuilt with a new timestamp, serialised and, unless that fails, sent. */
    method Resend(id: uint64, timestamp: int64, pp: PendingPacket) returns (round: Round)
      requires Valid()
      ensures Valid() && View() == old(View()) && layerCache.Nodes() == old(layerCache.Nodes())
      ensures round == SendOf(config.sha, Content(id, timestamp, pp.data, pp.checksum, []))
    {
      hide Layout, Valid, LayeredCache.LayerCache.View;
      ghost var nodes := layerCache.Nodes();
      var pkt := new Packet(id, timestamp, pp.data, pp.checksum);
      var none := new byte[0];
      assert pkt as object !in nodes && none as object !in nodes;
      assert pkt as object !in layerCache.layers && none as object !in layerCache.layers;
      var data := pkt.SerializeTo(config.sha, none);
      if data.Ok? {
        return Resent(data.value[..]);
      }
      return NotSent;
    }

    /** The daemon's work on an overdue packet. */
    method Retry(found: Peeked<nat, PendingPacket>, ghost peekAt: int, promoteAt: int, timestamp: int64)
        returns (round: Round)
      requires Valid() && PeekExpired<nat, PendingPacket>(layerCache.View(), peekAt) == Some(found)
      modifies this`out, this`lostCount, layerCache.layers, layerCache.Nodes(), orderedOutput
      ensures Valid()
      ensures View() == Retried(config, old(View()), peekAt, promoteAt)
      ensures KeysFit(old(layerCache.View()))
      ensures round == RoundOf(config, old(layerCache.View()), peekAt, promoteAt, timestamp)
      ensures lostCount == old(lostCount) + if round.GaveUp? then 1 else 0
    {
      hide LayeredCache.LayerCache.Valid, LayeredCache.LayerCache.Nodes, LayeredCache.LayerCache.View, KeysFit, Put,
          Pop;
      hide PeekExpired, LayerSpec.Promote, Report, Retried, RoundOf, SendOf;
      OutsideTheCache();
      RetryCases(config, View(), found, peekAt, promoteAt, timestamp);
      var id := found.key;
      var pp, alive := Promote(id, found.layer, promoteAt);
      if !alive {
        lostCount := lostCount + 1;
        OutsideTheCache();
        Insert(LOST(id));
        return GaveUp;
      }
      round := Resend(id, timestamp, pp.value);
    }

    /** One round of retransmitterDaemon; the two clock readings are those of the scan and of the
        promotion. */
    method DaemonRound(peekAt: int, promoteAt: int, timestamp: int64) returns (round: Round)
      requires Valid()
      modifies this`out, this`lostCount, layerCache.layers, layerCache.Nodes(), orderedOutput
      ensures Valid()
      ensures View() == Retried(config, old(View()), peekAt, promoteAt)
      ensures KeysFit(old(layerCache.View()))
      ensures round == RoundOf(config, old(layerCache.View()), peekAt, promoteAt, timestamp)
      ensures AllSorted(old(layerCache.View())) && NothingOverdue(old(layerCache.View()), peekAt) ==>
                SleepsUntilDue(old(layerCache.View()), promoteAt, round)
      ensures lostCount == old(lostCount) + if round.GaveUp? then 1 else 0
    {
      hide LayeredCache.LayerCache.Valid, LayeredCache.LayerCache.View, KeysFit, EarliestTail, SleepsUntilDue,
          AllSorted, NothingOverdue;
      if AllSorted(layerCache.View()) && NothingOverdue(layerCache.View(), peekAt) {
        SleepMeans(config, layerCache.View(), peekAt, promoteAt, timestamp);
      }
      hide Serialize, FirstExpired, InsertInto;
      var found := layerCache.PeekExpiredScan(peekAt);
      if found.Some? {
        round := Retry(found.value, peekAt, promoteAt, timestamp);
        return;
      }
      var earliestDeadline := layerCache.GetEarliestDeadline();
      if earliestDeadline.None? {
        return Slept(IDLE_SLEEP);
      }
      var now := promoteAt;
      return Slept(if earliestDeadline.value > now then earliestDeadline.value - now else 0);
    }
  }

  // The rounds and the steps.

  /** A generator's round with nothing in between is its send and its registration: the datagram's
      packet is the one that goes on the wire, and the cache is the one the round leaves. */
  lemma GeneratorRoundIsItsSteps(c: Config, s: State, w: nat, p: Content)
    requires Sound(c) && w < |s.client.gens| && s.client.gens[w].held.None?
    requires p.id == s.client.gens[w].next && 1 <= p.id <= c.total
    requires ChecksumHolds(c.sha, p) && p.extra == [] && |p.data| == PayloadLength(c, p.id)
    ensures Enabled(c, s, GenSend(w, p.data, p.timestamp))
    ensures var sent := Next(c, s, GenSend(w, p.data, p.timestamp));
            && Enabled(c, sent, GenRegister(w))
            && var done := Next(c, sent, GenRegister(w));
               && done.net == s.net + {p}
               && SharedOf(done.client) == Stored(c, SharedOf(s.client), p.id, PendingPacket(p.data, p.checksum), s.now)
               && done.client.gens == s.client.gens[w := Generator(p.id + c.workers, None)]
  {
    hide PayloadLength, SetFirst;
    assert FreshPacket(c, p.id, p.timestamp, p.data) == p;
  }

  /** An ACK receiver's round with nothing in between is the deletion and the insertion. */
  lemma AckRoundIsItsSteps(c: Config, s: State, a: Ack)
    requires a in s.acks && a.id < TWO_TO_THE_64 && s.client.ack.AckIdle?
    ensures Enabled(c, s, AckDelete(a))
    ensures var deleted := Next(c, s, AckDelete(a));
            && Enabled(c, deleted, AckInsert)
            && var done := Next(c, deleted, AckInsert);
               && SharedOf(done.client) == Acknowledged(SharedOf(s.client), AckBytes(a))
               && done.client.ack.AckIdle?
  {
    ProtocolSteps.AckIsReadBack(a);
  }

  lemma PeekStep(c: Config, s: State)
    requires s.client.daemon.DaemonIdle?
    ensures Next(c, s, Peek) ==
            match PeekExpired<nat, PendingPacket>(s.client.layers, s.now)
            case None => s
            case Some(found) => s.(client := s.client.(daemon := DaemonPeeked(found.key, found.layer)))
  {
  }

  lemma TickStep(c: Config, s: State, wait: nat)
    ensures Next(c, s, Tick(wait)) == s.(now := s.now + wait)
  {
  }

  lemma PromotionStep(c: Config, s: State)
    requires s.client.daemon.DaemonPeeked?
    ensures var d := s.client.daemon;
            var (ls, value, alive) :=
              Promote<nat, PendingPacket>(s.client.layers, d.id, d.layer, s.now + c.backoff(d.layer + 1));
            Next(c, s, PromoteStep) ==
            s.(client := s.client.(layers := ls,
                 daemon := if alive && value.Some? then DaemonResending(d.id, value.value) else DaemonLosing(d.id)))
  {
  }

  lemma LastStep(c: Config, s: State, timestamp: int64)
    ensures s.client.daemon.DaemonResending? && s.client.daemon.id < TWO_TO_THE_64 ==>
              var d, done := s.client.daemon, Next(c, s, Resend(timestamp));
              && done.net == s.net + {ResentPacket(c, d.id, timestamp, d.packet)}
              && done.client == s.client.(daemon := DaemonIdle)
    ensures s.client.daemon.DaemonLosing? ==>
              var d, done := s.client.daemon, Next(c, s, DeclareLost);
              && done.net == s.net
              && done.client.daemon.DaemonIdle?
              && SharedOf(done.client) == Report(SharedOf(s.client), LOST(d.id))
  {
  }

  lemma SendGood(c: Config, id: uint64, timestamp: int64, p: PendingPacket)
    requires Sound(c) && GoodPending(c, p)
    ensures SendOf(c.sha, Content(id, timestamp, p.data, p.checksum, []))
            == Resent(Layout(ResentPacket(c, id, timestamp, p)))
  {
  }

  lemma InvKeysFit(c: Config, s: State)
    requires Sound(c) && Inv(c, s)
    ensures KeysFit(s.client.layers)
  {
    forall i, e | 0 <= i < |s.client.layers| && e in s.client.layers[i]
      ensures e.key < TWO_TO_THE_64
    {
      assert In(s.client.layers, e, i);
    }
  }

  lemma PeekedIsGood(c: Config, s: State)
    requires Inv(c, s)
    ensures var found := PeekExpired<nat, PendingPacket>(s.client.layers, s.now);
            found.Some? ==> GoodPending(c, found.value.value)
  {
    var found := PeekExpired<nat, PendingPacket>(s.client.layers, s.now);
    if found.Some? {
      var ls, i := s.client.layers, found.value.layer;
      assert In(ls, ls[i][|ls[i]| - 1], i);
    }
  }

  /** A daemon's round that finds something overdue, and in which nothing but time moves between the
      scan and the promotion: the scan, the promotion, and the resend or the LOST. */
  lemma DaemonRoundIsItsSteps(c: Config, s: State, wait: nat, timestamp: int64)
    requires Sound(c) && Inv(c, s) && s.client.daemon.DaemonIdle?
    requires PeekExpired<nat, PendingPacket>(s.client.layers, s.now).Some?
    ensures KeysFit(s.client.layers)
    ensures var round := RoundOf(c, s.client.layers, s.now, s.now + wait, timestamp);
            var promoted := Next(c, Next(c, Next(c, s, Peek), Tick(wait)), PromoteStep);
            var last := if round.GaveUp? then DeclareLost else Resend(timestamp);
            && Enabled(c, promoted, last)
            && var done := Next(c, promoted, last);
               && done.client.daemon.DaemonIdle?
               && SharedOf(done.client) == Retried(c, SharedOf(s.client), s.now, s.now + wait)
               && (round.GaveUp? ==> done.net == s.net)
               && (!round.GaveUp? ==> exists p :: done.net == s.net + {p} && round == Resent(Layout(p)))
  {
    hide Next, PeekExpired, InsertInto, Promote, Retried, Report, Inv, KeysFit, Sealed, Layout, RoundOf, SendOf;
    InvKeysFit(c, s);
    var found := PeekExpired<nat, PendingPacket>(s.client.layers, s.now).value;
    PeekStep(c, s);
    var peeked := Next(c, s, Peek);
    TickStep(c, peeked, wait);
    var ticked := Next(c, peeked, Tick(wait));
    RetryCases(c, SharedOf(s.client), found, s.now, s.now + wait, timestamp);
    PeekedIsGood(c, s);
    SendGood(c, found.key, timestamp, found.value);
    PromotionStep(c, ticked);
    LastStep(c, Next(c, ticked, PromoteStep), timestamp);
  }
}
