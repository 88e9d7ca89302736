/** Every datagram ever sent for an ID carries that ID's payload and its hash, although generator
    buffers are reused and retransmissions are rebuilt from the cache. */
module ProtocolData {
  import opened Bytes
  import opened PacketCodec
  import opened CacheSpec
  import opened LayerSpec
  import opened Order
  import opened Protocol
  import opened ProtocolInvariants
  import opened ProtocolSteps
  import opened ProtocolConservation

  /** The bytes generated for an ID, once it has been sent. */
  predicate IsPayload(payload: map<nat, seq<byte>>, id: nat, data: seq<byte>) {
    id in payload && payload[id] == data
  }

  ghost predicate GensFaithful(gens: seq<Generator>, payload: map<nat, seq<byte>>) {
    forall w :: 0 <= w < |gens| && gens[w].held.Some? ==> IsPayload(payload, gens[w].next, gens[w].held.value.data)
  }

  ghost predicate CacheFaithful(ls: Layers<nat, PendingPacket>, payload: map<nat, seq<byte>>) {
    forall e, i: nat :: In(ls, e, i) ==> IsPayload(payload, e.key, e.value.data)
  }

  predicate DaemonFaithful(d: Daemon, payload: map<nat, seq<byte>>) {
    d.DaemonResending? ==> IsPayload(payload, d.id, d.packet.data)
  }

  predicate NetFaithful(net: set<Content>, payload: map<nat, seq<byte>>) {
    forall p :: p in net ==> IsPayload(payload, p.id, p.data)
  }

  ghost predicate PayloadsSent(c: Config, gens: seq<Generator>, payload: map<nat, seq<byte>>) {
    forall id :: id in payload ==> Sent(c, gens, id) && |payload[id]| == PayloadLength(c, id)
  }

  ghost predicate Faithful(c: Config, s: State) {
    && GensFaithful(s.client.gens, s.hist.payload)
    && CacheFaithful(s.client.layers, s.hist.payload)
    && DaemonFaithful(s.client.daemon, s.hist.payload)
    && NetFaithful(s.net, s.hist.payload)
    && PayloadsSent(c, s.client.gens, s.hist.payload)
  }

  /** A first send picks the payload once and for all: the ID was in nobody's hands before. */
  lemma SendFaithful(c: Config, s: State, step: Step)
    requires Sound(c) && Inv(c, s) && Faithful(c, s) && step.GenSend? && Enabled(c, s, step)
    ensures Faithful(c, Next(c, s, step))
  {
    hide FreshPacket, GoodPending, Genuine, PayloadLength, Sent, Registered;
    var gens, w := s.client.gens, step.w;
    var id := gens[w].next;
    FreshIsGenuine(c, id, step.timestamp, step.data);
    var p := FreshPacket(c, id, step.timestamp, step.data);
    SendMarks(c, gens, w, PendingPacket(p.data, p.checksum));
    assert id !in s.hist.payload;
  }

  lemma RegisterFaithful(c: Config, s: State, step: Step)
    requires Sound(c) && Inv(c, s) && Faithful(c, s) && step.GenRegister? && Enabled(c, s, step)
    ensures Faithful(c, Next(c, s, step))
  {
    hide SetFirst, Sent, Registered, OneEntryEach, Pending;
    var gens, w := s.client.gens, step.w;
    RegisterAdvances(c, gens, w);
    NotYetKnown(c, s, gens[w].next);
    SetFirstMembers<nat, PendingPacket>(s.client.layers, gens[w].next, gens[w].held.value, s.now + c.firstTTL);
  }

  lemma DeleteFaithful(c: Config, s: State, step: Step)
    requires Sound(c) && Inv(c, s) && Faithful(c, s) && step.AckDelete? && Enabled(c, s, step)
    ensures Faithful(c, Next(c, s, step))
  {
    hide DeleteAll, Sent, OneEntryEach;
    AckDeleteKeeps(c, s, step);
    DeleteMembers<nat, PendingPacket>(s.client.layers, step.ack.id);
  }

  lemma ResendFaithful(c: Config, s: State, step: Step)
    requires Sound(c) && Inv(c, s) && Faithful(c, s) && step.Resend? && Enabled(c, s, step)
    ensures Faithful(c, Next(c, s, step))
  {
    hide ResentPacket, Sent, Genuine;
    ResentIsGenuine(c, s.client.daemon.id, step.timestamp, s.client.daemon.packet);
  }

  lemma TailIsFaithful(ls: Layers<nat, PendingPacket>, i: nat, payload: map<nat, seq<byte>>)
    requires CacheFaithful(ls, payload) && i < |ls| && ls[i] != []
    ensures var tail := ls[i][|ls[i]| - 1]; IsPayload(payload, tail.key, tail.value.data)
  {
    assert In(ls, ls[i][|ls[i]| - 1], i);
  }

  /** Two IDs whose payloads happen to be the same bytes. */
  predicate SamePayload(payload: map<nat, seq<byte>>, x: nat, y: nat) {
    x in payload && y in payload && payload[x] == payload[y]
  }

  /** The promotion pops the packet that was peeked, or drops what it pops, or confuses two packets with
      the same bytes. */
  predicate TakesRightPacket(c: Config, s: State) {
    var ls, d := s.client.layers, s.client.daemon;
    d.DaemonPeeked? && d.layer < |ls| && ls[d.layer] != [] ==>
      var tail := ls[d.layer][|ls[d.layer]| - 1];
      tail.key == d.id || d.layer + 1 >= c.layers || SamePayload(s.hist.payload, d.id, tail.key)
  }

  lemma CacheAfterMove(ls: Layers<nat, PendingPacket>, ls': Layers<nat, PendingPacket>, i: nat,
      tail: Entry<nat, PendingPacket>, added: Entry<nat, PendingPacket>, payload: map<nat, seq<byte>>)
    requires MovesUp(ls, ls', i, tail, added) && CacheFaithful(ls, payload)
    ensures CacheFaithful(ls', payload) <==> (i + 1 < |ls| ==> IsPayload(payload, added.key, added.value.data))
  {
    assert i + 1 < |ls| ==> In(ls', added, i + 1);
  }

  lemma EmptyPromoteFaithful(c: Config, s: State)
    requires Inv(c, s) && Faithful(c, s) && s.client.daemon.DaemonPeeked?
    requires s.client.daemon.layer < |s.client.layers| ==> s.client.layers[s.client.daemon.layer] == []
    ensures Faithful(c, Next(c, s, PromoteStep))
    ensures TakesRightPacket(c, s)
  {
  }

  /** The exact condition: a promotion keeps the cache faithful if and only if it takes the right packet -
      which, with the peeked packet still at the tail, it always does. */
  lemma PromoteFaithfulIff(c: Config, s: State)
    requires Sound(c) && Inv(c, s) && Faithful(c, s) && s.client.daemon.DaemonPeeked?
    ensures Faithful(c, Next(c, s, PromoteStep)) <==> TakesRightPacket(c, s)
    ensures TailMatches(s) ==> TakesRightPacket(c, s)
  {
    var ls, d := s.client.layers, s.client.daemon;
    if d.layer < |ls| && ls[d.layer] != [] {
      hide Inv, Next, CacheFaithful, NetFaithful, GensFaithful, PayloadsSent, MovesUp, OneEntryEach;
      var tail, added := AfterPromote(c, s);
      CacheAfterMove(ls, Next(c, s, PromoteStep).client.layers, d.layer, tail, added, s.hist.payload);
      assert CacheFaithful(ls, s.hist.payload);
      TailIsFaithful(ls, d.layer, s.hist.payload);
    } else {
      EmptyPromoteFaithful(c, s);
    }
  }

  lemma StepFaithful(c: Config, s: State, step: Step)
    requires Sound(c) && Inv(c, s) && Faithful(c, s) && Enabled(c, s, step)
    requires step.PromoteStep? ==> TailMatches(s)
    ensures Faithful(c, Next(c, s, step))
  {
    match step
    case GenSend(_, _, _) => SendFaithful(c, s, step);
    case GenRegister(_) => RegisterFaithful(c, s, step);
    case AckDelete(_) => DeleteFaithful(c, s, step);
    case Resend(_) => ResendFaithful(c, s, step);
    case PromoteStep => PromoteFaithfulIff(c, s);
    case _ => hide InsertInto, PeekExpired, Parse, CacheSpec.Get, Put;
  }

  lemma InitFaithful(c: Config)
    ensures Faithful(c, Init(c))
  {
  }

  lemma {:induction false} UndisturbedRunsAreFaithful(c: Config, steps: seq<Step>)
    requires Sound(c) && Undisturbed(c, steps)
    ensures Faithful(c, After(c, steps))
  {
    hide Inv, Enabled, Next, Conserved, TailMatches;
    if steps == [] {
      InitFaithful(c);
    } else {
      var front, step := steps[..|steps| - 1], steps[|steps| - 1];
      assert forall i :: 0 <= i < |front| ==> front[..i] == steps[..i];
      UndisturbedRunsAreFaithful(c, front);
      UndisturbedRunsConserve(c, front);
      RunsKeep(c, front);
      if Enabled(c, After(c, front), step) {
        StepFaithful(c, After(c, front), step);
      }
    }
  }

  ghost predicate FaithfulThroughout(c: Config, steps: seq<Step>) {
    forall n: nat :: n <= |steps| ==> Faithful(c, After(c, steps[..n]))
  }

  /** Every promotion of the run takes the right packet. */
  predicate RightPacketsTaken(c: Config, steps: seq<Step>) {
    forall i: nat :: i < |steps| && steps[i].PromoteStep? && After(c, steps[..i]).client.daemon.DaemonPeeked? ==>
      TakesRightPacket(c, After(c, steps[..i]))
  }

  lemma AttemptFaithfulIff(c: Config, s: State, step: Step)
    requires Sound(c) && Inv(c, s) && Faithful(c, s)
    ensures Faithful(c, Apply(c, s, step)) <==>
            (step.PromoteStep? && s.client.daemon.DaemonPeeked? ==> TakesRightPacket(c, s))
  {
    hide Inv, Faithful, TakesRightPacket, Next;
    if Enabled(c, s, step) {
      if step.PromoteStep? {
        PromoteFaithfulIff(c, s);
      } else {
        StepFaithful(c, s, step);
      }
    }
  }

  /** The exact condition for whole runs. */
  lemma {:induction false} RunFaithfulIff(c: Config, steps: seq<Step>)
    requires Sound(c)
    ensures FaithfulThroughout(c, steps) <==> RightPacketsTaken(c, steps)
  {
    hide Enabled, Next, Faithful, TakesRightPacket;
    assert steps[..|steps|] == steps;
    if steps == [] {
      InitFaithful(c);
    } else {
      var front, step := steps[..|steps| - 1], steps[|steps| - 1];
      var s := After(c, front);
      assert forall i: nat :: i <= |front| ==> front[..i] == steps[..i];
      assert FaithfulThroughout(c, steps) <==> FaithfulThroughout(c, front) && Faithful(c, After(c, steps));
      assert RightPacketsTaken(c, steps) <==>
             RightPacketsTaken(c, front) && (step.PromoteStep? && s.client.daemon.DaemonPeeked? ==>
                 TakesRightPacket(c, s));
      RunFaithfulIff(c, front);
      RunsKeep(c, front);
      assert front[..|front|] == front;
      if Faithful(c, s) {
        AttemptFaithfulIff(c, s, step);
      }
    }
  }

  /** All datagrams of one ID - first sends and retransmissions - carry the same data and the same
      checksum, the hash of that data; and what the server accepts for the ID is that data. */
  lemma OneIdOnePayload(c: Config, steps: seq<Step>, p: Content, q: Content)
    requires Sound(c) && Undisturbed(c, steps)
    requires p in After(c, steps).net && q in After(c, steps).net && p.id == q.id
    ensures p.data == q.data && p.checksum == q.checksum == c.sha(p.data)
    ensures |p.data| == PayloadLength(c, p.id)
    ensures forall e :: e in After(c, steps).server.log && e.p.id == p.id ==> e.p.data == p.data && e.ok
  {
    UndisturbedRunsAreFaithful(c, steps);
    RunsKeep(c, steps);
    hide After, PayloadLength, Sent;
    var s := After(c, steps);
    assert IsPayload(s.hist.payload, p.id, p.data) && IsPayload(s.hist.payload, q.id, q.data);
    assert Genuine(c, p) && Genuine(c, q);
    forall e | e in s.server.log && e.p.id == p.id
      ensures e.p.data == p.data && e.ok
    {
      var i :| 0 <= i < |s.server.log| && s.server.log[i] == e;
      assert e.p in s.net;
    }
  }

  /** The payload length is twice the ID, up to the packet limit. */
  lemma PayloadLengthIsTwiceTheId(c: Config, id: nat)
    requires id > 0
    ensures PayloadLength(c, id) == if 2 * id > c.maxPacket then c.maxPacket else 2 * id
  {
  }
}
