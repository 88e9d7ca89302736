/** A run in which an ACK falls between a peek and its promotion: packet 1 is forgotten for ever, and
    its bytes go out again under the ID of packet 2. */
module ProtocolCounterexample {
  import opened Wrappers
  import opened Bytes
  import opened PacketCodec
  import opened CacheSpec
  import opened LayerSpec
  import opened Order
  import opened Protocol
  import opened ProtocolInvariants
  import opened ProtocolSteps
  import opened ProtocolConservation
  import opened ProtocolForgotten
  import opened ProtocolRuns

  /** Packet 2 is registered before packet 1 and so becomes the tail. */
  function RegisterSteps(c: Config): seq<Step> {
    SendAndRegister(c, 1, 2) + SendAndRegister(c, 0, 1)
  }

  /** The daemon sees packet 2 expired; the server, getting it out of turn, acknowledges it. */
  function AnsweredSteps(c: Config): seq<Step> {
    RegisterSteps(c) + TIME_OUT + Serve(0, PacketOf(c, 2))
  }

  /** The ACK deletes packet 2; the promotion then pops packet 1. */
  function RaceSteps(c: Config): seq<Step> {
    AnsweredSteps(c) + [AckDelete(Ack(2, true)), PromoteStep]
  }

  /** Both packets in the first layer. */
  function Both(c: Config): Layers<nat, PendingPacket> {
    [[Entry(1, Kept(c, 1), 100), Entry(2, Kept(c, 2), 100)], [], []]
  }

  /** Packet 1's bytes in the second layer, under key 2. */
  function Mixed(c: Config): Layers<nat, PendingPacket> {
    [[], [Entry(2, Kept(c, 1), 1200)], []]
  }

  lemma PutSecond(c: Config)
    ensures SetFirst<nat, PendingPacket>(NOTHING, 2, Kept(c, 2), 100) == Alone(c, 2, 0, 100)
    ensures SetFirst<nat, PendingPacket>(Alone(c, 2, 0, 100), 1, Kept(c, 1), 100) == Both(c)
  {
    hide Kept;
    var second := Entry<nat, PendingPacket>.Entry(2, Kept(c, 2), 100);
    assert Put<nat, PendingPacket>([], 2, Kept(c, 2), 100) == [second];
    assert Find<nat, PendingPacket>([second], 1) == 1;
    assert Remove<nat, PendingPacket>([second], 1) == [second];
    assert Put<nat, PendingPacket>([second], 1, Kept(c, 1), 100) == Both(c)[0];
  }

  lemma Initially(c: Config)
    requires c.workers == 10 && c.layers == 3
    ensures var cl := Init(c).client;
            && cl.gens == seq(10, (w: nat) => Generator(1 + w, None)) && cl.layers == NOTHING
            && cl.out == Empty(1) && cl.emitted == [] && cl.ack.AckIdle? && cl.daemon.DaemonIdle?
  {
  }

  /** What the race leaves alone: packet 1 is behind its generator, nothing is answered. */
  predicate Unanswered(s: State) {
    && |s.client.gens| == 10 && s.client.gens[0] == Generator(11, None) && s.client.out == Empty(1)
  }

  predicate OwnPayloads(c: Config, s: State) {
    s.hist.payload == map[1 := Payload(c, 1), 2 := Payload(c, 2)]
  }

  /** Both packets pending, packet 2 on its way, and nothing else done yet. */
  predicate BothPending(c: Config, s: State, daemon: Daemon) {
    && s.client.layers == Both(c) && s.client.daemon == daemon && s.client.ack.AckIdle?
    && Unanswered(s) && OwnPayloads(c, s)
  }

  lemma BothRegistered(sha: HashFunction)
    ensures var c := DefaultConfig(sha, 2);
            var s := After(c, RegisterSteps(c));
            && Genuine(c, PacketOf(c, 2)) && PacketOf(c, 2).id == 2 && PacketOf(c, 2) in s.net
            && BothPending(c, s, DaemonIdle) && s.server == Init(c).server && s.acks == {} && s.now == 0
  {
    var c := DefaultConfig(sha, 2);
    var second, first := SendAndRegister(c, 1, 2), SendAndRegister(c, 0, 1);
    Initially(c);
    hide After, Play, FreshPacket, Genuine, SetFirst, Payload, PayloadLength;
    PlayIsAfter(c, second);
    PlayedAfter(c, second, first);
    PutSecond(c);
    Registers(c, Init(c), 1, 2);
    Registers(c, After(c, second), 0, 1);
  }

  lemma PeekSecond(c: Config)
    ensures PeekExpired<nat, PendingPacket>(Both(c), 1000)
            == Some(LayerSpec.Peeked<nat, PendingPacket>.Peeked(2, Kept(c, 2), 0))
  {
    hide Kept;
  }

  lemma SecondIsPeeked(c: Config, s: State)
    requires BothPending(c, s, DaemonIdle) && s.now == 0
    ensures var t := Play(c, s, TIME_OUT);
            && BothPending(c, t, DaemonPeeked(2, 0)) && t.now == 1000
            && t.server == s.server && t.acks == s.acks && t.net == s.net
  {
    hide Both, Payload, Play;
    PlayTwo(c, s, Tick(1000), Peek);
    PeekSecond(c);
    hide PeekExpired;
  }

  /** Packet 2 has timed out, been seen, and been acknowledged. */
  lemma PeekedAndAcked(sha: HashFunction)
    ensures var c := DefaultConfig(sha, 2);
            var s := After(c, AnsweredSteps(c));
            BothPending(c, s, DaemonPeeked(2, 0)) && s.acks == {Ack(2, true)} && s.now == 1000
  {
    var c := DefaultConfig(sha, 2);
    BothRegistered(sha);
    FreshServer(c);
    hide After, Play, PacketOf, Genuine, Both, Unanswered, OwnPayloads, SeenUpTo;
    SecondIsPeeked(c, After(c, RegisterSteps(c)));
    PlayedAfter(c, RegisterSteps(c), TIME_OUT);
    ServesOutOfTurn(c, After(c, RegisterSteps(c) + TIME_OUT), 0, PacketOf(c, 2));
    PlayedAfter(c, RegisterSteps(c) + TIME_OUT, Serve(0, PacketOf(c, 2)));
  }

  lemma DeleteSecond(c: Config)
    ensures DeleteAll<nat, PendingPacket>(Both(c), 2) == Alone(c, 1, 0, 100)
  {
    hide Kept;
    var es := Both(c)[0];
    assert Find<nat, PendingPacket>(es[1..], 2) == 0;
    assert Remove<nat, PendingPacket>(es, 2) == [es[0]];
    assert Remove<nat, PendingPacket>([], 2) == [];
  }

  lemma PromoteFirst(c: Config)
    ensures Promote<nat, PendingPacket>(Alone(c, 1, 0, 100), 2, 0, 1200) == (Mixed(c), Some(Kept(c, 1)), true)
  {
    hide Kept;
    var ls := Alone(c, 1, 0, 100);
    assert Pop<nat, PendingPacket>(ls[0]) == [];
    assert Put<nat, PendingPacket>([], 2, Kept(c, 1), 1200) == [Entry(2, Kept(c, 1), 1200)];
    assert ls[0 := []][1 := [Entry(2, Kept(c, 1), 1200)]] == Mixed(c);
  }

  lemma AckDeletesSecond(c: Config, s: State)
    requires s.client.ack.AckIdle? && Ack(2, true) in s.acks && s.client.layers == Both(c)
    ensures Apply(c, s, AckDelete(Ack(2, true))) ==
            s.(client := s.client.(layers := Alone(c, 1, 0, 100), ack := AckDeleted(2, true)))
  {
    AckIsReadBack(Ack(2, true));
    DeleteSecond(c);
    hide AckBytes, ParseAck, Alone, Both, DeleteAll;
  }

  lemma PromotesFirst(c: Config, s: State)
    requires s.client.layers == Alone(c, 1, 0, 100) && s.client.daemon == DaemonPeeked(2, 0)
    requires s.now + c.backoff(1) == 1200
    ensures Apply(c, s, PromoteStep) ==
            s.(client := s.client.(layers := Mixed(c), daemon := DaemonResending(2, Kept(c, 1))))
  {
    PromoteFirst(c);
    hide Promote, Alone, Mixed;
  }

  lemma Race(sha: HashFunction)
    ensures var c := DefaultConfig(sha, 2);
            var s := After(c, RaceSteps(c));
            && s.client.layers == Mixed(c) && s.client.daemon == DaemonResending(2, Kept(c, 1))
            && s.client.ack == AckDeleted(2, true) && Unanswered(s) && OwnPayloads(c, s)
  {
    var c := DefaultConfig(sha, 2);
    PeekedAndAcked(sha);
    DefaultIntervals(sha, 2);
    hide After, Apply, Play, DefaultConfig, Both, Mixed, Alone, OwnPayloads;
    var s, delete := After(c, AnsweredSteps(c)), AckDelete(Ack(2, true));
    AckDeletesSecond(c, s);
    PromotesFirst(c, Apply(c, s, delete));
    PlayTwo(c, s, delete, PromoteStep);
    PlayedAfter(c, AnsweredSteps(c), [delete, PromoteStep]);
  }

  lemma OnlySecond(c: Config)
    ensures forall i: nat :: !InLayer(Mixed(c), 1, i)
  {
    hide Kept;
    forall i: nat
      ensures !InLayer(Mixed(c), 1, i)
    {
      assert forall e :: e in Mixed(c)[1] ==> e.key == 2;
    }
  }

  /** Packet 1 is registered, but neither pending, nor answered, nor in anyone's hands. */
  lemma FirstIsForgotten(sha: HashFunction)
    ensures var c := DefaultConfig(sha, 2); Forgotten(c, After(c, RaceSteps(c)), 1)
  {
    var c := DefaultConfig(sha, 2);
    Race(sha);
    OnlySecond(c);
    hide After, Mixed, InLayer, OwnPayloads;
    assert Registered(c, After(c, RaceSteps(c)).client.gens, 1);
  }

  /** Conservation fails, and with it the output: however the run goes on, nothing is ever printed unless
      an ACK for packet 1 still arrives. */
  lemma ConservationCanFail(sha: HashFunction, more: seq<Step>)
    requires forall i :: 0 <= i < |more| && more[i].AckDelete? ==> more[i].ack.id != 1
    ensures var c := DefaultConfig(sha, 2);
            var s := After(c, RaceSteps(c) + more);
            Sound(c) && !Conserved(c, s) && s.client.emitted == []
  {
    FirstIsForgotten(sha);
    hide After;
    ForgottenForGood(DefaultConfig(sha, 2), RaceSteps(DefaultConfig(sha, 2)), more, 1);
  }

  lemma DifferentPayloads(c: Config)
    requires c.maxPacket >= 4
    ensures Payload(c, 1) == [1, 1] && Payload(c, 2) == [2, 2, 2, 2]
  {
  }

  /** Faithfulness fails: a datagram with ID 2 carries the bytes of packet 1, under a hash that fits. */
  lemma WrongBytesCanBeSent(sha: HashFunction)
    ensures var c := DefaultConfig(sha, 2);
            var s := After(c, RaceSteps(c) + [Resend(0)]);
            && s.hist.payload == map[1 := [1, 1], 2 := [2, 2, 2, 2]]
            && exists p :: p in s.net && p.id == 2 && p.data == [1, 1] && Parse(sha, Layout(p)) == Ok(p)
  {
    var c, q := DefaultConfig(sha, 2), Kept(DefaultConfig(sha, 2), 1);
    Race(sha);
    DifferentPayloads(c);
    hide After, Parse, Layout, Mixed, Payload, Play;
    var s := After(c, RaceSteps(c));
    PlayedAfter(c, RaceSteps(c), [Resend(0)]);
    PlayOne(c, s, Resend(0));
    var p := ResentPacket(c, 2, 0, q);
    ResentIsGenuine(c, 2, 0, q);
    ParseLayout(sha, p, []);
    assert Layout(p) + [] == Layout(p);
    assert p in After(c, RaceSteps(c) + [Resend(0)]).net;
  }
}
