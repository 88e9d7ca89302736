/** Runs, step by step from the initial state and with the program's own settings, in which what one might
    expect does not happen: an OK turned into a LOST, an early return, a server that stops, a packet
    inserted twice. */
module ProtocolRuns {
  import opened Wrappers
  import opened Bytes
  import opened PacketCodec
  import opened CacheSpec
  import opened LayerSpec
  import opened Order
  import opened Protocol
  import opened ProtocolInvariants
  import opened ProtocolSteps
  import opened ProtocolConservation
  import opened ProtocolAnswers
  import opened ProtocolDedup
  import Backoff
  import UdpServer

  /** DefaultConfig, NewClient and NewServer, in milliseconds: ten generators, three layers with the default
      backoff, thirty server workers, entries remembered for thirty seconds. Only the number of packets is
      left to the command line. */
  function DefaultConfig(sha: HashFunction, total: nat): Config {
    Config(sha, total, 10, 1400, 3, 100, (n: nat) => Backoff.Interval(100, 5000, 2.0, n), 30, 30000)
  }

  /** What the backoff comes to in the upper two layers. */
  lemma DefaultIntervals(sha: HashFunction, total: nat)
    ensures DefaultConfig(sha, total).backoff(1) == 200 && DefaultConfig(sha, total).backoff(2) == 400
  {
    Backoff.ClosedForm(100, 5000, 2, 1);
    Backoff.ClosedForm(100, 5000, 2, 2);
    assert Backoff.Power(2, 1) == 2 && Backoff.Power(2, 2) == 4;
  }

  function Payload(c: Config, id: nat): (r: seq<byte>)
    ensures |r| == PayloadLength(c, id)
  {
    seq(PayloadLength(c, id), _ => id % 256)
  }

  /** The packet with this ID, as the generator makes it, and what the client keeps of it. */
  function PacketOf(c: Config, id: uint64): Content {
    FreshPacket(c, id, 0, Payload(c, id))
  }

  function Kept(c: Config, id: uint64): PendingPacket {
    PendingPacket(PacketOf(c, id).data, PacketOf(c, id).checksum)
  }

  // Playing a list of steps from a state on.

  function Play(c: Config, s: State, steps: seq<Step>): State
    decreases |steps|
  {
    if steps == [] then s else Play(c, Apply(c, s, steps[0]), steps[1..])
  }

  lemma {:induction false} PlayOn(c: Config, s: State, a: seq<Step>, b: seq<Step>)
    ensures Play(c, s, a + b) == Play(c, Play(c, s, a), b)
    decreases |a|
  {
    hide Apply;
    if a == [] {
      assert a + b == b;
    } else {
      assert (a + b)[1..] == a[1..] + b;
      PlayOn(c, Apply(c, s, a[0]), a[1..], b);
    }
  }

  lemma {:induction false} PlayIsAfter(c: Config, steps: seq<Step>)
    ensures Play(c, Init(c), steps) == After(c, steps)
  {
    hide Apply, Init;
    if steps != [] {
      var n := |steps| - 1;
      PlayIsAfter(c, steps[..n]);
      assert steps == steps[..n] + [steps[n]];
      PlayOn(c, Init(c), steps[..n], [steps[n]]);
    }
  }

  lemma PlayOne(c: Config, s: State, a: Step)
    ensures Play(c, s, [a]) == Apply(c, s, a)
  {
    hide Apply;
  }

  lemma PlayTwo(c: Config, s: State, a: Step, b: Step)
    ensures Play(c, s, [a, b]) == Apply(c, Apply(c, s, a), b)
  {
    hide Apply;
    PlayOn(c, s, [a], [b]);
    assert [a, b] == [a] + [b];
  }

  lemma PlayThree(c: Config, s: State, x1: Step, x2: Step, x3: Step)
    ensures Play(c, s, [x1, x2, x3]) == Apply(c, Apply(c, Apply(c, s, x1), x2), x3)
  {
    hide Apply, Play;
    PlayTwo(c, s, x1, x2);
    PlayOn(c, s, [x1, x2], [x3]);
    PlayOne(c, Apply(c, Apply(c, s, x1), x2), x3);
    assert [x1, x2, x3] == [x1, x2] + [x3];
  }

  lemma PlayFour(c: Config, s: State, x1: Step, x2: Step, x3: Step, x4: Step)
    ensures Play(c, s, [x1, x2, x3, x4]) == Apply(c, Apply(c, Apply(c, Apply(c, s, x1), x2), x3), x4)
  {
    hide Apply, Play;
    PlayTwo(c, s, x1, x2);
    PlayTwo(c, Apply(c, Apply(c, s, x1), x2), x3, x4);
    PlayOn(c, s, [x1, x2], [x3, x4]);
    assert [x1, x2, x3, x4] == [x1, x2] + [x3, x4];
  }

  lemma PlayFive(c: Config, s: State, x1: Step, x2: Step, x3: Step, x4: Step, x5: Step)
    ensures Play(c, s, [x1, x2, x3, x4, x5]) == Apply(c, Apply(c, Apply(c, Apply(c, Apply(c, s, x1), x2), x3), x4), x5)
  {
    hide Apply, Play;
    PlayTwo(c, s, x1, x2);
    var t := Apply(c, Apply(c, s, x1), x2);
    PlayTwo(c, t, x3, x4);
    PlayOn(c, t, [x3, x4], [x5]);
    PlayOn(c, s, [x1, x2], [x3, x4] + [x5]);
    PlayOne(c, Play(c, t, [x3, x4]), x5);
    assert [x1, x2, x3, x4, x5] == [x1, x2] + ([x3, x4] + [x5]);
  }

  lemma PlayedAfter(c: Config, a: seq<Step>, b: seq<Step>)
    ensures After(c, a + b) == Play(c, After(c, a), b)
  {
    hide Apply, After, Init, Play;
    PlayIsAfter(c, a);
    PlayIsAfter(c, a + b);
    PlayOn(c, Init(c), a, b);
  }

  // The pieces the runs are made of.

  function SendAndRegister(c: Config, w: nat, id: nat): seq<Step> {
    [GenSend(w, Payload(c, id), 0), GenRegister(w)]
  }

  function Serve(k: nat, p: Content): seq<Step> {
    [Take(k, p), DedupGet(k), DedupSet(k), ServerInsert(k), SendAck(k)]
  }

  const TIME_OUT: seq<Step> := [Tick(1000), Peek]

  const RETRY: seq<Step> := [PromoteStep, Resend(0)]

  /** Two retransmissions, and the third time-out. */
  const TO_THE_TOP: seq<Step> := TIME_OUT + RETRY + TIME_OUT + RETRY + TIME_OUT

  const NOTHING: Layers<nat, PendingPacket> := [[], [], []]

  /** A packet alone in the cache, in layer i. */
  function Alone(c: Config, id: uint64, i: nat, at: int): Layers<nat, PendingPacket>
    requires i < 3
  {
    NOTHING[i := [Entry(id, Kept(c, id), at)]]
  }

  lemma Sends(c: Config, s: State, w: nat, id: uint64)
    requires id <= c.total && w < |s.client.gens| && s.client.gens[w] == Generator(id, None)
    ensures var t := Apply(c, s, GenSend(w, Payload(c, id), 0));
            && t.client == s.client.(gens := s.client.gens[w := Generator(id, Some(Kept(c, id)))])
            && t.net == s.net + {PacketOf(c, id)} && t.server == s.server && t.acks == s.acks && t.now == s.now
            && t.hist.payload == s.hist.payload[id as nat := Payload(c, id)]
  {
    hide FreshPacket, PayloadLength;
  }

  lemma RegistersHeld(c: Config, s: State, w: nat, id: nat, p: PendingPacket)
    requires w < |s.client.gens| && s.client.gens[w] == Generator(id, Some(p))
    ensures Apply(c, s, GenRegister(w)) == s.(client := s.client.(
              layers := SetFirst<nat, PendingPacket>(s.client.layers, id, p, s.now + c.firstTTL),
              gens := s.client.gens[w := Generator(id + c.workers, None)]))
  {
    hide SetFirst;
  }

  /** What a generator's round leaves behind. */
  predicate SentAndKept(c: Config, s: State, w: nat, id: uint64, t: State)
    requires w < |s.client.gens|
  {
    && t.client == s.client.(
         layers := SetFirst<nat, PendingPacket>(s.client.layers, id, Kept(c, id), s.now + c.firstTTL),
         gens := s.client.gens[w := Generator(id + c.workers, None)])
    && t.net == s.net + {PacketOf(c, id)} && t.server == s.server && t.acks == s.acks && t.now == s.now
    && t.hist.payload == s.hist.payload[id as nat := Payload(c, id)]
  }

  lemma PacketIsGenuine(c: Config, id: uint64)
    requires 1 <= id <= c.total
    ensures Genuine(c, PacketOf(c, id)) && PacketOf(c, id).id == id
  {
    FreshIsGenuine(c, id, 0, Payload(c, id));
  }

  lemma SendsThenRegisters(c: Config, s: State, w: nat, id: uint64)
    requires id <= c.total && w < |s.client.gens| && s.client.gens[w] == Generator(id, None)
    ensures SentAndKept(c, s, w, id, Apply(c, Apply(c, s, GenSend(w, Payload(c, id), 0)), GenRegister(w)))
  {
    hide PacketOf, Payload, Apply, Kept, SetFirst;
    Sends(c, s, w, id);
    RegistersHeld(c, Apply(c, s, GenSend(w, Payload(c, id), 0)), w, id, Kept(c, id));
  }

  lemma Registers(c: Config, s: State, w: nat, id: uint64)
    requires Sound(c) && 1 <= id <= c.total && w < |s.client.gens| && s.client.gens[w] == Generator(id, None)
    ensures Genuine(c, PacketOf(c, id)) && PacketOf(c, id).id == id
    ensures SentAndKept(c, s, w, id, Play(c, s, SendAndRegister(c, w, id)))
  {
    PacketIsGenuine(c, id);
    hide PacketOf, Genuine, Payload, Apply, Play, SentAndKept;
    PlayTwo(c, s, GenSend(w, Payload(c, id), 0), GenRegister(w));
    SendsThenRegisters(c, s, w, id);
  }

  /** The first packet registered in a run. */
  lemma RegistersFirst(sha: HashFunction, total: nat, id: uint64)
    requires 1 <= id <= total <= 10
    ensures var c := DefaultConfig(sha, total);
            var s, t := Init(c), After(c, SendAndRegister(c, id - 1, id));
            && Sound(c) && Genuine(c, PacketOf(c, id)) && PacketOf(c, id).id == id
            && t.client == s.client.(layers := Alone(c, id, 0, 100),
                                     gens := s.client.gens[id - 1 := Generator(id + 10, None)])
            && t.net == {PacketOf(c, id)} && t.server == s.server && t.acks == {} && t.now == 0
  {
    var c := DefaultConfig(sha, total);
    var s, steps := Init(c), SendAndRegister(c, id - 1, id);
    assert s.client.gens[id - 1] == Generator(id, None);
    assert s.client.layers == NOTHING;
    Registers(c, s, id - 1, id);
    PlayIsAfter(c, steps);
    hide FreshPacket, Genuine, After, Play;
    assert Put<nat, PendingPacket>([], id, Kept(c, id), 100) == [Entry(id, Kept(c, id), 100)];
  }

  lemma ServeIsUninterrupted(c: Config, s: State, k: nat, p: Content)
    ensures Play(c, s, Serve(k, p)) == UdpServer.Uninterrupted(c, s, k, p)
  {
    hide Apply, Play;
    PlayFive(c, s, Take(k, p), DedupGet(k), DedupSet(k), ServerInsert(k), SendAck(k));
  }

  /** Packets up to id have been inserted in order, and nothing else has been seen. */
  predicate SeenUpTo(server: Server, id: nat) {
    && UniqueKeys(server.dedup) && (forall e :: e in server.dedup ==> e.key <= id)
    && server.ob == Empty(id + 1)
  }

  lemma DueReleases(id: nat)
    ensures InsertInto<nat>(Empty(id), id, id) == ([id], Empty(id + 1))
  {
    InsertStep<nat>(Empty(id), id, id);
    hide InsertInto;
    var b: Buffer<nat> := Empty(id);
    var (out, after) := InsertInto<nat>(b, id, id);
    assert id + 1 !in b.held;
    assert after.next == id + 1;
    assert out == [id];
    assert forall x :: x in after.held ==> x == id;
    assert after.held == map[];
  }

  lemma NotSeen(server: Server, id: nat, now: int)
    requires 0 < id && SeenUpTo(server, id - 1)
    ensures !UdpServer.SeenRecently(server.dedup, id, now)
  {
  }

  lemma ProcessedInTurn(c: Config, server: Server, p: Content, data: seq<byte>, now: int)
    requires Parse(c.sha, data) == Ok(p) && p.id > 0 && SeenUpTo(server, p.id - 1)
    ensures UdpServer.Processed(c, UdpServer.SharedOf(server), data, now, now) ==
            (UdpServer.Shared(Put<nat, ()>(server.dedup, p.id, (), now + c.dedupTTL), Empty(p.id + 1)),
             UdpServer.Blocked)
  {
    NotSeen(server, p.id, now);
    DueReleases(p.id);
    hide Parse, InsertInto, Put, UniqueKeys, UdpServer.SeenRecently;
  }

  lemma SeenNext(server: Server, after: Server, id: nat, expiresAt: int)
    requires 0 < id && SeenUpTo(server, id - 1)
    requires after.dedup == Put<nat, ()>(server.dedup, id, (), expiresAt) && after.ob == Empty(id + 1)
    ensures SeenUpTo(after, id)
  {
    PutKeeps<nat, ()>(server.dedup, id, (), expiresAt);
    hide Put, UniqueKeys;
  }

  lemma HandledInTurn(c: Config, s: State, k: nat, p: Content, data: seq<byte>)
    requires Parse(c.sha, data) == Ok(p) && p.id > 0 && SeenUpTo(s.server, p.id - 1)
    requires k < |s.server.workers|
    ensures var t := UdpServer.Handled(c, s, k, data);
            && t == s.(server := t.server) && t.server.log == s.server.log + [LogEntry(p, true, true)]
            && t.server.workers == s.server.workers[k := Wedged(p.id)] && SeenUpTo(t.server, p.id)
  {
    ProcessedInTurn(c, s.server, p, data, s.now);
    hide Parse, Put, SeenUpTo, UdpServer.Processed;
    SeenNext(s.server, UdpServer.Handled(c, s, k, data).server, p.id, s.now + c.dedupTTL);
  }

  /** A packet in turn blocks its worker. */
  lemma ServesInTurn(c: Config, s: State, k: nat, p: Content)
    requires Sound(c) && Genuine(c, p) && p in s.net && SeenUpTo(s.server, p.id - 1)
    requires k < |s.server.workers| && s.server.workers[k].WorkerIdle?
    ensures var t := Play(c, s, Serve(k, p));
            && t == s.(server := t.server) && t.server.log == s.server.log + [LogEntry(p, true, true)]
            && t.server.workers == s.server.workers[k := Wedged(p.id)] && SeenUpTo(t.server, p.id)
  {
    hide Apply, Delivered, Play, UdpServer.Handled, UdpServer.Uninterrupted;
    GenuineIsDelivered(c, p);
    hide Parse;
    UdpServer.ProcessMessageIsItsSteps(c, s, k, p);
    HandledInTurn(c, s, k, p, Delivered(c, p));
    ServeIsUninterrupted(c, s, k, p);
  }

  lemma HandledOutOfTurn(c: Config, s: State, k: nat, p: Content, data: seq<byte>)
    requires Parse(c.sha, data) == Ok(p) && s.server.dedup == [] && s.server.ob == Empty(1) && p.id == 2
    requires k < |s.server.workers|
    ensures var t := UdpServer.Handled(c, s, k, data);
            t == s.(server := t.server, acks := s.acks + {Ack(2, true)}) && t.server.workers == s.server.workers
  {
    InsertStep<nat>(Empty(1), p.id, p.id);
    hide Parse, InsertInto, Put;
  }

  /** A server that sees packet 2 first acknowledges it. */
  lemma ServesOutOfTurn(c: Config, s: State, k: nat, p: Content)
    requires Sound(c) && Genuine(c, p) && p in s.net && p.id == 2
    requires s.server.dedup == [] && s.server.ob == Empty(1)
    requires k < |s.server.workers| && s.server.workers[k].WorkerIdle?
    ensures var t := Play(c, s, Serve(k, p));
            t == s.(server := t.server, acks := s.acks + {Ack(2, true)}) && t.server.workers == s.server.workers
  {
    hide Apply, Delivered, Play, UdpServer.Handled, UdpServer.Uninterrupted;
    GenuineIsDelivered(c, p);
    hide Parse, Genuine;
    UdpServer.ProcessMessageIsItsSteps(c, s, k, p);
    HandledOutOfTurn(c, s, k, p, Delivered(c, p));
    ServeIsUninterrupted(c, s, k, p);
  }

  lemma FreshServer(c: Config)
    ensures var server := Init(c).server;
            && server.dedup == [] && server.ob == Empty(1) && server.log == [] && SeenUpTo(server, 0)
            && |server.workers| == c.serverWorkers
            && forall k :: 0 <= k < c.serverWorkers ==> server.workers[k].WorkerIdle?
  {
  }

  lemma PeekAlone(c: Config, id: uint64, i: nat, at: int, now: int)
    requires i < 3 && at < now
    ensures PeekExpired<nat, PendingPacket>(Alone(c, id, i, at), now)
            == Some(LayerSpec.Peeked<nat, PendingPacket>.Peeked(id, Kept(c, id), i))
  {
    hide Kept;
    var ls := Alone(c, id, i, at);
    assert FirstExpired<nat, PendingPacket>(ls, now, i) == i;
    assert i > 1 ==> FirstExpired<nat, PendingPacket>(ls, now, 1) == i;
    assert FirstExpired<nat, PendingPacket>(ls, now, 0) == i;
  }

  /** A packet alone in the cache times out and is seen. */
  lemma TimesOut(c: Config, s: State, id: uint64, i: nat, at: int)
    requires i < 3 && s.client.layers == Alone(c, id, i, at) && at < s.now + 1000 && s.client.daemon.DaemonIdle?
    ensures Play(c, s, TIME_OUT) == s.(now := s.now + 1000, client := s.client.(daemon := DaemonPeeked(id, i)))
  {
    hide Alone;
    PlayTwo(c, s, Tick(1000), Peek);
    PeekAlone(c, id, i, at, s.now + 1000);
    hide PeekExpired;
  }

  lemma PromoteAlone(c: Config, id: uint64, i: nat, at: int, expiresAt: int)
    requires i < 3
    ensures var (ls, value, alive) := Promote<nat, PendingPacket>(Alone(c, id, i, at), id, i, expiresAt);
            && ls == (if i < 2 then Alone(c, id, i + 1, expiresAt) else NOTHING)
            && value == Some(Kept(c, id)) && (alive <==> i < 2)
  {
    hide Kept;
    var ls := Alone(c, id, i, at);
    assert Pop<nat, PendingPacket>(ls[i]) == [];
    assert ls[i := []] == NOTHING;
    assert Put<nat, PendingPacket>([], id, Kept(c, id), expiresAt) == [Entry(id, Kept(c, id), expiresAt)];
  }

  /** Below the last layer the daemon moves it up and sends it again. */
  lemma MovesUp(c: Config, s: State, id: uint64, i: nat, at: int)
    requires i < 2 && s.client.layers == Alone(c, id, i, at) && s.client.daemon == DaemonPeeked(id, i)
    ensures var t := Play(c, s, RETRY);
            && t.client == s.client.(layers := Alone(c, id, i + 1, s.now + c.backoff(i + 1)), daemon := DaemonIdle)
            && t.server == s.server && t.acks == s.acks && t.now == s.now
  {
    hide Alone, Kept;
    PlayTwo(c, s, PromoteStep, Resend(0));
    PromoteAlone(c, id, i, at, s.now + c.backoff(i + 1));
    hide Promote;
  }

  /** In the last layer the daemon gives it up. */
  lemma GivesUp(c: Config, s: State, id: uint64, at: int)
    requires s.client.layers == Alone(c, id, 2, at) && s.client.daemon == DaemonPeeked(id, 2)
    ensures Apply(c, s, PromoteStep) == s.(client := s.client.(layers := NOTHING, daemon := DaemonLosing(id)))
  {
    hide Alone, Kept;
    PromoteAlone(c, id, 2, at, s.now + c.backoff(3));
    hide Promote;
  }

  lemma TimesOutAndMovesUp(c: Config, s: State, id: uint64, i: nat, at: int)
    requires i < 2 && s.client.layers == Alone(c, id, i, at) && at < s.now + 1000 && s.client.daemon.DaemonIdle?
    ensures var t := Play(c, Play(c, s, TIME_OUT), RETRY);
            && t.client == s.client.(layers := Alone(c, id, i + 1, s.now + 1000 + c.backoff(i + 1)))
            && t.server == s.server && t.acks == s.acks && t.now == s.now + 1000
  {
    hide Play, Alone;
    TimesOut(c, s, id, i, at);
    MovesUp(c, Play(c, s, TIME_OUT), id, i, at);
  }

  /** A packet that is not acknowledged goes through all the layers. */
  lemma ToTheTop(sha: HashFunction, total: nat, steps: seq<Step>, id: uint64)
    requires var c := DefaultConfig(sha, total);
             var s := After(c, steps);
             s.client.layers == Alone(c, id, 0, 100) && s.now == 0 && s.client.daemon.DaemonIdle?
    ensures var c := DefaultConfig(sha, total);
            var s, t := After(c, steps), After(c, steps + TO_THE_TOP);
            && t.client == s.client.(layers := Alone(c, id, 2, 2400), daemon := DaemonPeeked(id, 2))
            && t.server == s.server && t.acks == s.acks
  {
    var c := DefaultConfig(sha, total);
    DefaultIntervals(sha, total);
    hide After, Play, DefaultConfig, Alone;
    var s := After(c, steps);
    var s1 := Play(c, Play(c, s, TIME_OUT), RETRY);
    var s2 := Play(c, Play(c, s1, TIME_OUT), RETRY);
    TimesOutAndMovesUp(c, s, id, 0, 100);
    TimesOutAndMovesUp(c, s1, id, 1, 1200);
    TimesOut(c, s2, id, 2, 2400);
    PlayedAfter(c, steps, TO_THE_TOP);
    PlayOn(c, s, TIME_OUT + RETRY + TIME_OUT + RETRY, TIME_OUT);
    PlayOn(c, s, TIME_OUT + RETRY + TIME_OUT, RETRY);
    PlayOn(c, s, TIME_OUT + RETRY, TIME_OUT);
    PlayOn(c, s, TIME_OUT, RETRY);
  }

  lemma NothingHeld()
    ensures TotalLen<nat, PendingPacket>(NOTHING) == 0
  {
    var ls: Layers<nat, PendingPacket> := NOTHING;
    assert ls[..2][..1] == ls[..1] && ls[..1][..0] == [];
    assert TotalLen(ls[..1]) == TotalLen(ls[..2]) == 0;
  }

  // Run may return before everything is printed.

  function ReturnSteps(c: Config): seq<Step> {
    SendAndRegister(c, 0, 1) + TO_THE_TOP + [PromoteStep]
  }

  /** One packet, sent three times, timed out and taken out of the cache by the daemon: generators done,
      cache empty - Run returns - and not a line printed. */
  lemma RunReturnsEarly(sha: HashFunction)
    ensures var c := DefaultConfig(sha, 1);
            var s := After(c, ReturnSteps(c));
            && GeneratorsDone(c, s) && TotalLen(s.client.layers) == 0
            && s.client.daemon == DaemonLosing(1) && s.client.emitted == []
  {
    var c := DefaultConfig(sha, 1);
    RegistersFirst(sha, 1, 1);
    hide After, Alone, FreshPacket;
    ToTheTop(sha, 1, SendAndRegister(c, 0, 1), 1);
    var t := After(c, SendAndRegister(c, 0, 1) + TO_THE_TOP);
    GivesUp(c, t, 1, 2400);
    PlayedAfter(c, SendAndRegister(c, 0, 1) + TO_THE_TOP, [PromoteStep]);
    PlayOne(c, t, PromoteStep);
    NothingHeld();
  }

  // A packet in turn blocks its worker.

  function WedgeSteps(c: Config): seq<Step> {
    SendAndRegister(c, 0, 1) + Serve(0, PacketOf(c, 1))
  }

  lemma LosesFirst(c: Config, s: State)
    requires s.client.daemon == DaemonLosing(1) && s.client.out == Empty(1) && s.client.emitted == []
    ensures var t := Apply(c, s, DeclareLost); t.client.emitted == [LOST(1)] && t.server == s.server && t.acks == s.acks
  {
    InsertStep<Outcome>(Empty(1), 1, LOST(1));
    hide InsertInto;
    var b: Buffer<Outcome> := Empty(1);
    var (out, after) := InsertInto<Outcome>(b, 1, LOST(1));
    assert 2 !in b.held;
    assert |out| == 1;
    assert out[0] == LOST(1);
  }

  /** The server has accepted packet 1, the worker that took it is blocked for good, there is no ACK - and
      the line the client prints in the end is that the packet was lost. */
  lemma FirstPacketWedges(sha: HashFunction)
    ensures var c := DefaultConfig(sha, 1);
            var s, end := After(c, WedgeSteps(c)), After(c, WedgeSteps(c) + TO_THE_TOP + [PromoteStep] + [DeclareLost]);
            && s.server.log == [LogEntry(PacketOf(c, 1), true, true)]
            && s.server.workers == Init(c).server.workers[0 := Wedged(1)]
            && end.client.emitted == [LOST(1)] && end.server == s.server && end.acks == {}
  {
    var c := DefaultConfig(sha, 1);
    var front, steps := SendAndRegister(c, 0, 1), WedgeSteps(c);
    RegistersFirst(sha, 1, 1);
    FreshServer(c);
    hide FreshPacket, Genuine, After, Alone, Play, SeenUpTo;
    ServesInTurn(c, After(c, front), 0, PacketOf(c, 1));
    PlayedAfter(c, front, Serve(0, PacketOf(c, 1)));
    ToTheTop(sha, 1, steps, 1);
    var t := After(c, steps + TO_THE_TOP);
    GivesUp(c, t, 1, 2400);
    PlayedAfter(c, steps + TO_THE_TOP, [PromoteStep]);
    PlayOne(c, t, PromoteStep);
    var u := After(c, steps + TO_THE_TOP + [PromoteStep]);
    PlayedAfter(c, steps + TO_THE_TOP + [PromoteStep], [DeclareLost]);
    PlayOne(c, u, DeclareLost);
    LosesFirst(c, u);
  }

  // Thirty packets delivered in order stop the server.

  /** Each packet is sent, registered and delivered, one after the other, to a worker of its own. */
  function InOrder(c: Config, n: nat): seq<Step>
    requires n <= 30
  {
    if n == 0 then [] else InOrder(c, n - 1) + SendAndRegister(c, (n - 1) % 10, n) + Serve(n - 1, PacketOf(c, n))
  }

  /** The first ID after n that generator w takes. */
  function FirstAfter(n: nat, w: nat): nat {
    n + 1 + (w - n) % 10
  }

  predicate Generated(gens: seq<Generator>, n: nat) {
    |gens| == 10 && forall w: nat :: w < 10 ==> gens[w] == Generator(FirstAfter(n, w), None)
  }

  predicate BlockedUpTo(workers: seq<Worker>, n: nat) {
    && |workers| == 30
    && forall k :: 0 <= k < 30 ==> workers[k] == if k < n then Wedged(k + 1) else WorkerIdle
  }

  predicate InOrderUpTo(s: State, n: nat) {
    && Generated(s.client.gens, n) && BlockedUpTo(s.server.workers, n) && SeenUpTo(s.server, n)
    && |s.server.log| == n && (forall i :: 0 <= i < n ==> s.server.log[i].p.id == i + 1)
    && s.acks == {}
  }

  lemma GeneratesNext(gens: seq<Generator>, n: nat)
    requires Generated(gens, n)
    ensures gens[n % 10] == Generator(n + 1, None)
    ensures Generated(gens[n % 10 := Generator(n + 11, None)], n + 1)
  {
  }

  lemma NextInOrder(c: Config, s: State, n: nat)
    requires Sound(c) && c.workers == 10 && n < 30 && n < c.total && InOrderUpTo(s, n)
    ensures var sent := Play(c, s, SendAndRegister(c, n % 10, n + 1));
            InOrderUpTo(Play(c, sent, Serve(n, PacketOf(c, n + 1))), n + 1)
  {
    hide Play, Genuine, FreshPacket, SeenUpTo, SetFirst, FirstAfter;
    GeneratesNext(s.client.gens, n);
    Registers(c, s, n % 10, n + 1);
    var sent := Play(c, s, SendAndRegister(c, n % 10, n + 1));
    ServesInTurn(c, sent, n, PacketOf(c, n + 1));
  }

  lemma InOrderInit(sha: HashFunction, total: nat)
    ensures InOrderUpTo(Init(DefaultConfig(sha, total)), 0)
  {
  }

  lemma {:induction false} InOrderRun(sha: HashFunction, total: nat, n: nat)
    requires Sound(DefaultConfig(sha, total)) && n <= 30 && n <= total
    ensures InOrderUpTo(After(DefaultConfig(sha, total), InOrder(DefaultConfig(sha, total), n)), n)
  {
    var c := DefaultConfig(sha, total);
    hide InOrderUpTo;
    if n == 0 {
      InOrderInit(sha, total);
    } else {
      hide After, Play, PacketOf;
      var front, send := InOrder(c, n - 1), SendAndRegister(c, (n - 1) % 10, n);
      InOrderRun(sha, total, n - 1);
      NextInOrder(c, After(c, front), n - 1);
      PlayedAfter(c, front, send);
      PlayedAfter(c, front + send, Serve(n - 1, PacketOf(c, n)));
    }
  }

  /** The first thirty packets, delivered at once and in order, stop the server for good: however the run
      goes on, it takes nothing more, acknowledges nothing, and the client prints nothing but LOST. */
  lemma ThirtyInOrderStopTheServer(sha: HashFunction, total: nat, more: seq<Step>)
    requires Sound(DefaultConfig(sha, total)) && 30 <= total
    ensures var c := DefaultConfig(sha, total);
            var s, t := After(c, InOrder(c, 30)), After(c, InOrder(c, 30) + more);
            && ProtocolServer.AllWedged(s) && |s.server.log| == 30
            && t.server == s.server && t.acks == {}
            && forall j :: 0 <= j < |t.client.emitted| ==> t.client.emitted[j].LOST?
  {
    var c := DefaultConfig(sha, total);
    InOrderRun(sha, total, 30);
    hide After, SeenUpTo, Generated;
    ProtocolServer.WedgedForGood(c, InOrder(c, 30), more);
    ProtocolServer.InOrderDeliveryIsNeverAcked(c, InOrder(c, 30) + more);
  }

  // An OK turned into a LOST, with no ACK between a peek and its promotion.

  /** Packet 2 is answered out of turn and timed out in the last layer. */
  function AnsweredSteps(c: Config): seq<Step> {
    SendAndRegister(c, 1, 2) + Serve(0, PacketOf(c, 2)) + TO_THE_TOP
  }

  lemma Answered(sha: HashFunction)
    ensures var c := DefaultConfig(sha, 2);
            var s := After(c, AnsweredSteps(c));
            && s.client.layers == Alone(c, 2, 2, 2400) && s.client.daemon == DaemonPeeked(2, 2)
            && s.client.ack.AckIdle? && s.client.out == Empty(1) && s.acks == {Ack(2, true)}
  {
    var c := DefaultConfig(sha, 2);
    var front := SendAndRegister(c, 1, 2);
    RegistersFirst(sha, 2, 2);
    FreshServer(c);
    hide FreshPacket, Genuine, After, Alone, Play;
    ServesOutOfTurn(c, After(c, front), 0, PacketOf(c, 2));
    PlayedAfter(c, front, Serve(0, PacketOf(c, 2)));
    ToTheTop(sha, 2, front + Serve(0, PacketOf(c, 2)), 2);
  }

  /** The ACK arrives after the promotion - or before it, which comes to the same. */
  function OverwriteSteps(c: Config, promoteFirst: bool): seq<Step> {
    AnsweredSteps(c)
    + if promoteFirst then [PromoteStep, AckDelete(Ack(2, true)), AckInsert]
      else [AckDelete(Ack(2, true)), AckInsert, PromoteStep]
  }

  lemma DeletesAlone(c: Config)
    ensures DeleteAll<nat, PendingPacket>(NOTHING, 2) == NOTHING
    ensures DeleteAll<nat, PendingPacket>(Alone(c, 2, 2, 2400), 2) == NOTHING
  {
    hide Kept;
  }

  lemma AckDeletes(c: Config, s: State)
    requires s.client.ack.AckIdle? && Ack(2, true) in s.acks
    requires s.client.layers == NOTHING || s.client.layers == Alone(c, 2, 2, 2400)
    ensures Apply(c, s, AckDelete(Ack(2, true))) ==
            s.(client := s.client.(layers := NOTHING, ack := AckDeleted(2, true)))
  {
    AckIsReadBack(Ack(2, true));
    DeletesAlone(c);
    hide AckBytes, ParseAck, Alone, DeleteAll;
  }

  lemma HeldBack(c: Config, s: State, step: Step)
    requires s.client.out.next == 1 && s.client.out.held.Keys <= {2}
    requires (step.AckInsert? && s.client.ack == AckDeleted(2, true))
             || (step.DeclareLost? && s.client.daemon == DaemonLosing(2))
    ensures var t := Apply(c, s, step);
            && t.client.out == Buffer(1, map[2 := if step.AckInsert? then OK(2) else LOST(2)])
            && t.client.layers == s.client.layers
            && t.client.daemon == (if step.AckInsert? then s.client.daemon else DaemonIdle)
  {
    var o := if step.AckInsert? then OK(2) else LOST(2);
    assert s.client.out.held[2 := o] == map[2 := o];
    assert InsertInto<Outcome>(s.client.out, 2, o) == ([], Buffer(1, map[2 := o]));
    hide InsertInto;
  }

  lemma GivesUpEmpty(c: Config, s: State)
    requires s.client.layers == NOTHING && s.client.daemon == DaemonPeeked(2, 2)
    ensures Apply(c, s, PromoteStep) == s.(client := s.client.(daemon := DaemonLosing(2)))
  {
  }

  /** The OK for packet 2, held back behind packet 1, becomes a LOST. */
  lemma OkBecomesLost(sha: HashFunction, promoteFirst: bool)
    ensures var c := DefaultConfig(sha, 2);
            var steps := OverwriteSteps(c, promoteFirst);
            && After(c, steps).client.out.held == map[2 := OK(2)]
            && After(c, steps + [DeclareLost]).client.out.held == map[2 := LOST(2)]
            && OverwritesOk(After(c, steps), DeclareLost)
  {
    var c := DefaultConfig(sha, 2);
    var front, ack, steps := AnsweredSteps(c), AckDelete(Ack(2, true)), OverwriteSteps(c, promoteFirst);
    Answered(sha);
    hide After, Apply, FreshPacket, Alone;
    var s := After(c, front);
    PlayedAfter(c, steps, [DeclareLost]);
    PlayOne(c, After(c, steps), DeclareLost);
    if promoteFirst {
      PlayedAfter(c, front, [PromoteStep, ack, AckInsert]);
      PlayThree(c, s, PromoteStep, ack, AckInsert);
      GivesUp(c, s, 2, 2400);
      AckDeletes(c, Apply(c, s, PromoteStep));
      HeldBack(c, Apply(c, Apply(c, s, PromoteStep), ack), AckInsert);
    } else {
      PlayedAfter(c, front, [ack, AckInsert, PromoteStep]);
      PlayThree(c, s, ack, AckInsert, PromoteStep);
      AckDeletes(c, s);
      HeldBack(c, Apply(c, s, ack), AckInsert);
      GivesUpEmpty(c, Apply(c, Apply(c, s, ack), AckInsert));
    }
    HeldBack(c, After(c, steps), DeclareLost);
  }

  lemma OverwriteLayout(c: Config)
    ensures var steps := OverwriteSteps(c, true) + [DeclareLost];
            && |steps| == 21 && steps[20] == DeclareLost
            && steps[..18] == AnsweredSteps(c) + [PromoteStep]
            && steps[..20] == OverwriteSteps(c, true)
            && forall i :: 0 <= i < 21 && steps[i].AckDelete? ==> i == 18
  {
    hide PacketOf, Payload;
    assert |TO_THE_TOP| == 10 && forall i :: 0 <= i < 10 ==> !TO_THE_TOP[i].AckDelete?;
    assert |AnsweredSteps(c)| == 17 && forall i :: 0 <= i < 17 ==> !AnsweredSteps(c)[i].AckDelete?;
  }

  /** With the promotion first no ACK falls between a peek and its promotion, and it happens all the same:
      the daemon has given the packet up already, and has yet to say so. */
  lemma EvenUndisturbed(sha: HashFunction)
    ensures var c := DefaultConfig(sha, 2);
            var steps := OverwriteSteps(c, true) + [DeclareLost];
            Undisturbed(c, steps) && !OksAreFinal(c, steps)
  {
    var c := DefaultConfig(sha, 2);
    var front, steps := AnsweredSteps(c), OverwriteSteps(c, true) + [DeclareLost];
    OkBecomesLost(sha, true);
    Answered(sha);
    PlayedAfter(c, front, [PromoteStep]);
    hide After, Apply, FreshPacket, Alone, OverwritesOk;
    PlayOne(c, After(c, front), PromoteStep);
    GivesUp(c, After(c, front), 2, 2400);
    OverwriteLayout(c);
    RunKeepsOksIff(c, steps);
  }

  // A packet inserted twice.

  lemma LooksUpNew(c: Config, s: State, k: nat, p: Content)
    requires k < |s.server.workers| && s.server.workers[k] == Parsed(p, true) && s.server.dedup == []
    ensures Apply(c, s, DedupGet(k)) == UdpServer.WithWorker(s, k, Missed(p, true))
  {
  }

  /** Workers 0 and 1 both take the packet, and look it up before either stores it. */
  lemma BothLookUp(c: Config, s: State, p: Content)
    requires Sound(c) && Genuine(c, p) && p in s.net && s.server.dedup == []
    requires |s.server.workers| > 1 && s.server.workers[0].WorkerIdle? && s.server.workers[1].WorkerIdle?
    ensures Play(c, s, [Take(0, p), Take(1, p), DedupGet(0), DedupGet(1)]) ==
            UdpServer.WithWorker(UdpServer.WithWorker(s, 0, Missed(p, true)), 1, Missed(p, true))
  {
    PlayFour(c, s, Take(0, p), Take(1, p), DedupGet(0), DedupGet(1));
    GenuineIsDelivered(c, p);
    hide Genuine, Parse, Delivered, Play;
    UdpServer.TakeStep(c, s, 0, p);
    var s1 := UdpServer.WithWorker(s, 0, Parsed(p, true));
    UdpServer.TakeStep(c, s1, 1, p);
    var s2 := UdpServer.WithWorker(s1, 1, Parsed(p, true));
    hide Apply;
    LooksUpNew(c, s2, 0, p);
    LooksUpNew(c, UdpServer.WithWorker(s2, 0, Missed(p, true)), 1, p);
    var ws, w := s.server.workers, Missed(p, true);
    assert ws[0 := Parsed(p, true)][1 := Parsed(p, true)][0 := w][1 := w] == ws[0 := w][1 := w];
  }

  function BothMissSteps(c: Config): seq<Step> {
    SendAndRegister(c, 0, 1) + [Take(0, PacketOf(c, 1)), Take(1, PacketOf(c, 1)), DedupGet(0), DedupGet(1)]
  }

  function RaceSteps(c: Config): seq<Step> {
    BothMissSteps(c) + [DedupSet(0), ServerInsert(0), DedupSet(1), ServerInsert(1)]
  }

  lemma BothMiss(sha: HashFunction)
    ensures var c := DefaultConfig(sha, 1);
            var p, s := PacketOf(c, 1), After(c, BothMissSteps(c));
            && p.id == 1 && |s.server.workers| == 30
            && s.server.workers[0] == Missed(p, true) && s.server.workers[1] == Missed(p, true)
            && s.server.ob == Empty(1) && s.server.log == [] && s.acks == {}
  {
    var c := DefaultConfig(sha, 1);
    RegistersFirst(sha, 1, 1);
    FreshServer(c);
    hide After, PacketOf, Play, Genuine, Alone;
    BothLookUp(c, After(c, SendAndRegister(c, 0, 1)), PacketOf(c, 1));
    PlayedAfter(c, SendAndRegister(c, 0, 1),
                [Take(0, PacketOf(c, 1)), Take(1, PacketOf(c, 1)), DedupGet(0), DedupGet(1)]);
  }

  lemma SendsAck(c: Config, s: State, k: nat)
    requires k < |s.server.workers| && s.server.workers[k].Acking?
    ensures Apply(c, s, SendAck(k)).acks == s.acks + {Ack(s.server.workers[k].id, s.server.workers[k].ok)}
  {
  }

  /** The network delivers one packet twice, and two workers look it up before either has stored it: the
      server inserts it twice, and acknowledges it once - which, alone, it never would have. */
  lemma InsertedTwice(sha: HashFunction)
    ensures var c := DefaultConfig(sha, 1);
            var s := After(c, RaceSteps(c));
            && |s.server.log| == 2 && s.server.log[0].p.id == s.server.log[1].p.id == 1
            && !NothingRacesOrExpires(c, RaceSteps(c))
            && After(c, RaceSteps(c) + [SendAck(1)]).acks == {Ack(1, true)}
  {
    var c := DefaultConfig(sha, 1);
    var front, steps := BothMissSteps(c), RaceSteps(c);
    BothMiss(sha);
    var s := After(c, front);
    RaceInsertsTwice(c, s, 0, 1);
    hide FreshPacket, After, Apply;
    PlayedAfter(c, front, [DedupSet(0), ServerInsert(0), DedupSet(1), ServerInsert(1)]);
    PlayFour(c, s, DedupSet(0), ServerInsert(0), DedupSet(1), ServerInsert(1));
    var t := After(c, steps);
    assert t.server.log[0].p.id == t.server.log[1].p.id == 1;
    if NothingRacesOrExpires(c, steps) {
      EachIdInsertedOnce(c, steps);
    }
    PlayedAfter(c, steps, [SendAck(1)]);
    PlayOne(c, t, SendAck(1));
    SendsAck(c, t, 1);
  }
}
