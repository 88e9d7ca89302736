/** What each thread of client and server can do next: in every run nothing but the unmade channel of the
    server ever keeps one from going on, and what it does then has the effect it is there for. */
module ProtocolThreads {
  import opened Bytes
  import opened PacketCodec
  import opened CacheSpec
  import opened LayerSpec
  import opened Order
  import opened Protocol
  import opened ProtocolInvariants
  import opened ProtocolSteps
  import ProtocolData

  // The ACK receiver.

  /** An ACK on the wire, received: its packet leaves every layer, all others stay, and the answer is due. */
  lemma AckArrives(c: Config, s: State, a: Ack)
    requires AllUnique(s.client.layers)
    requires a in s.acks && a.id < TWO_TO_THE_64 && s.client.ack.AckIdle?
    ensures var t := Apply(c, s, AckDelete(a));
            && t == s.(client := s.client.(layers := t.client.layers, ack := AckDeleted(a.id, a.ok)))
            && forall e, i: nat :: In(t.client.layers, e, i) <==> In(s.client.layers, e, i) && e.key != a.id
  {
    AckIsReadBack(a);
    hide AckBytes, ParseAck;
    var ls := s.client.layers;
    forall i | 0 <= i < |ls|
      ensures forall e :: e in DeleteAll<nat, PendingPacket>(ls, a.id)[i] <==> e in ls[i] && e.key != a.id
    {
      RemoveKeeps<nat, PendingPacket>(ls[i], a.id);
    }
  }

  lemma AckIdsFit(c: Config, s: State, a: Ack)
    requires Sound(c) && Inv(c, s) && a in s.acks
    ensures a.id < TWO_TO_THE_64
  {
    HeldBackWasSent(c, s, a.id);
  }

  lemma AfterOne(c: Config, steps: seq<Step>, step: Step)
    ensures After(c, steps + [step]) == Apply(c, After(c, steps), step)
  {
    assert (steps + [step])[..|steps|] == steps;
  }

  lemma SamePending(ls: Layers<nat, PendingPacket>, ls': Layers<nat, PendingPacket>, gone: nat)
    requires forall e, i: nat :: In(ls', e, i) <==> In(ls, e, i) && e.key != gone
    ensures forall id: nat :: Pending(ls', id) <==> id != gone && Pending(ls, id)
  {
    forall id: nat
      ensures Pending(ls', id) <==> id != gone && Pending(ls, id)
    {
      if Pending(ls', id) {
        var i: nat :| InLayer(ls', id, i);
        var e :| In(ls', e, i) && e.key == id;
        Witness(ls, e, i);
      }
      if id != gone && Pending(ls, id) {
        var i: nat :| InLayer(ls, id, i);
        var e :| In(ls, e, i) && e.key == id;
        Witness(ls', e, i);
      }
    }
  }

  /** In every run: whichever ACK is on the wire, a receiver that waits for one can get it; the packet is then
      in no layer any more. */
  lemma EveryAckCanArrive(c: Config, steps: seq<Step>, a: Ack)
    requires Sound(c) && a in After(c, steps).acks && After(c, steps).client.ack.AckIdle?
    ensures var s, t := After(c, steps), After(c, steps + [AckDelete(a)]);
            && t.client.ack == AckDeleted(a.id, a.ok) && !Pending(t.client.layers, a.id)
            && forall id: nat :: id != a.id ==> (Pending(t.client.layers, id) <==> Pending(s.client.layers, id))
  {
    RunsKeep(c, steps);
    hide After, Apply;
    AfterOne(c, steps, AckDelete(a));
    var s := After(c, steps);
    AckIdsFit(c, s, a);
    AckArrives(c, s, a);
    SamePending(s.client.layers, Apply(c, s, AckDelete(a)).client.layers, a.id);
  }

  /** In every run it receives an ACK only when it waits for one and that ACK was sent, and inserts only after
      that. */
  lemma ReceiverGoesOn(c: Config, steps: seq<Step>, a: Ack)
    requires Sound(c)
    ensures var s := After(c, steps);
            && (Enabled(c, s, AckDelete(a)) <==> s.client.ack.AckIdle? && a in s.acks)
            && (Enabled(c, s, AckInsert) <==> s.client.ack.AckDeleted?)
  {
    RunsKeep(c, steps);
    hide After;
    if a in After(c, steps).acks {
      AckIdsFit(c, After(c, steps), a);
      AckIsReadBack(a);
    }
  }

  /** Where the client's answer for an ID is: on its line, or held back until its turn. */
  predicate AnswerIs(cl: Client, id: nat, o: Outcome) {
    if id < cl.out.next then 1 <= id <= |cl.emitted| && cl.emitted[id - 1] == o
    else id in cl.out.held && cl.out.held[id] == o
  }

  /** The answer the client is about to insert. */
  predicate Inserts(s: State, step: Step, o: Outcome) {
    || (step.AckInsert? && s.client.ack.AckDeleted? && o == if s.client.ack.ok then OK(s.client.ack.id)
        else FAIL(s.client.ack.id))
    || (step.DeclareLost? && s.client.daemon.DaemonLosing? && o == LOST(s.client.daemon.id))
  }

  lemma InsertedAnswer(cl: Client, o: Outcome)
    requires Settled(cl.out) && cl.out.next == 1 + |cl.emitted| && !(1 <= o.id < cl.out.next) && 1 <= o.id
    ensures var (released, out) := InsertInto<Outcome>(cl.out, o.id, o);
            && AnswerIs(cl.(out := out, emitted := cl.emitted + released), o.id, o)
            && forall j :: 0 <= j < |cl.emitted| ==> (cl.emitted + released)[j] == cl.emitted[j]
  {
    InsertStep<Outcome>(cl.out, o.id, o);
    hide InsertInto;
    var (released, out) := InsertInto<Outcome>(cl.out, o.id, o);
    assert Known(out, o.id);
    if o.id < out.next {
      assert released[o.id - cl.out.next] == o;
      assert (cl.emitted + released)[o.id - 1] == released[o.id - cl.out.next];
    }
  }

  lemma AnswerStep(c: Config, s: State, step: Step, o: Outcome)
    requires Inserts(s, step, o)
    ensures var t := Apply(c, s, step);
            var (released, out) := InsertInto<Outcome>(s.client.out, o.id, o);
            && t.client.out == out && t.client.emitted == s.client.emitted + released
            && t.client.layers == s.client.layers && t.server == s.server && t.net == s.net && t.acks == s.acks
            && (step.AckInsert? ==> t.client.ack.AckIdle? && t.client.daemon == s.client.daemon)
            && (step.DeclareLost? ==> t.client.daemon.DaemonIdle? && t.client.ack == s.client.ack)
            && t.hist == s.hist.(lost := s.hist.lost + if step.DeclareLost? then multiset{o.id} else multiset{})
  {
    hide InsertInto;
  }

  /** In every run: an answer that is due and not printed yet is inserted, and is then the ID's line or held
      back for its turn; printed lines stay, and the thread is free again. */
  lemma EveryAnswerIsInserted(c: Config, steps: seq<Step>, step: Step, o: Outcome)
    requires Sound(c) && Inserts(After(c, steps), step, o)
    ensures var s, t := After(c, steps), After(c, steps + [step]);
            && (s.client.out.next <= o.id ==> AnswerIs(t.client, o.id, o))
            && s.client.emitted <= t.client.emitted
            && (step.AckInsert? ==> t.client.ack.AckIdle?) && (step.DeclareLost? ==> t.client.daemon.DaemonIdle?)
            && t.hist.lost == s.hist.lost + if step.DeclareLost? then multiset{o.id} else multiset{}
  {
    RunsKeep(c, steps);
    hide After, Apply, Inserts;
    AfterOne(c, steps, step);
    var s := After(c, steps);
    AnswerStep(c, s, step, o);
    if s.client.out.next <= o.id {
      InsertedAnswer(s.client, o);
    }
    hide InsertInto;
  }

  // The server's workers.

  lemma PacketIsTaken(c: Config, s: State, k: nat, p: Content)
    requires Sound(c) && Genuine(c, p) && p in s.net && k < |s.server.workers| && s.server.workers[k].WorkerIdle?
    ensures var t := Apply(c, s, Take(k, p));
            t == s.(server := s.server.(workers := s.server.workers[k := Parsed(p, true)]))
  {
    GenuineIsDelivered(c, p);
    hide Parse, Delivered;
  }

  /** In every run: whichever packet is on the wire, any idle worker can take it, and has then parsed it
      whole. */
  lemma EveryPacketCanBeTaken(c: Config, steps: seq<Step>, k: nat, p: Content)
    requires Sound(c) && p in After(c, steps).net
    requires k < |After(c, steps).server.workers| && After(c, steps).server.workers[k].WorkerIdle?
    ensures var s, t := After(c, steps), After(c, steps + [Take(k, p)]);
            t == s.(server := s.server.(workers := s.server.workers[k := Parsed(p, true)]))
  {
    RunsKeep(c, steps);
    hide After, Apply, Genuine;
    AfterOne(c, steps, Take(k, p));
    PacketIsTaken(c, After(c, steps), k, p);
  }

  /** The step that takes a worker on, if it is not idle. */
  predicate TakesOn(w: Worker, k: nat, step: Step) {
    match w
    case WorkerIdle => false
    case Parsed(_, _) => step == DedupGet(k)
    case Missed(_, _) => step == DedupSet(k)
    case Marked(_, _) => step == ServerInsert(k)
    case Acking(_, _) => step == SendAck(k)
    case Wedged(_) => false
  }

  /** The steps of one worker. */
  predicate Moves(step: Step, k: nat) {
    match step
    case Take(j, _) => j == k
    case DedupGet(j) => j == k
    case DedupSet(j) => j == k
    case ServerInsert(j) => j == k
    case SendAck(j) => j == k
    case _ => false
  }

  /** In every run a worker with a packet can do its next step, and no other; an idle one can take exactly
      what was sent; one that is blocked can do nothing. */
  lemma WorkersGoOn(c: Config, steps: seq<Step>, k: nat, step: Step)
    requires k < |After(c, steps).server.workers| && Moves(step, k) && !step.Take?
    ensures Enabled(c, After(c, steps), step) <==> TakesOn(After(c, steps).server.workers[k], k, step)
    ensures forall p :: Enabled(c, After(c, steps), Take(k, p)) <==>
              After(c, steps).server.workers[k].WorkerIdle? && p in After(c, steps).net
  {
    hide After;
  }

  // The generators and the daemon.

  /** In every run a generator that has an ID left can send it, with any payload of the length due and no
      other, and one that has sent can register. */
  lemma GeneratorsGoOn(c: Config, steps: seq<Step>, w: nat, data: seq<byte>, timestamp: int64)
    requires Sound(c) && w < c.workers
    ensures var s := After(c, steps);
            && |s.client.gens| == c.workers
            && (Enabled(c, s, GenRegister(w)) <==> s.client.gens[w].held.Some?)
            && var due := 2 * s.client.gens[w].next;
               (Enabled(c, s, GenSend(w, data, timestamp)) <==>
                s.client.gens[w].held.None? && s.client.gens[w].next <= c.total
                && |data| == if due > c.maxPacket then c.maxPacket else due)
  {
    RunsKeep(c, steps);
    hide After, PayloadLength;
    ProtocolData.PayloadLengthIsTwiceTheId(c, After(c, steps).client.gens[w].next);
  }

  /** In every run the daemon can do its next step, and no other. */
  lemma DaemonGoesOn(c: Config, steps: seq<Step>, timestamp: int64)
    requires Sound(c)
    ensures var s := After(c, steps);
            && (Enabled(c, s, Peek) <==> s.client.daemon.DaemonIdle?)
            && (Enabled(c, s, PromoteStep) <==> s.client.daemon.DaemonPeeked?)
            && (Enabled(c, s, Resend(timestamp)) <==> s.client.daemon.DaemonResending?)
            && (Enabled(c, s, DeclareLost) <==> s.client.daemon.DaemonLosing?)
  {
    RunsKeep(c, steps);
    hide After;
  }

  // Lengths.

  ghost predicate LengthsDue(c: Config, s: State) {
    forall id :: id in s.hist.payload ==>
      1 <= id && |s.hist.payload[id]| == if 2 * id > c.maxPacket then c.maxPacket else 2 * id
  }

  lemma StepKeepsLengths(c: Config, s: State, step: Step)
    requires Inv(c, s) && LengthsDue(c, s) && Enabled(c, s, step)
    ensures LengthsDue(c, Next(c, s, step))
  {
    hide InsertInto, Parse, Delivered, FreshPacket, PeekExpired, Promote, SetFirst, DeleteAll, PayloadLength;
    if step.GenSend? {
      ProtocolData.PayloadLengthIsTwiceTheId(c, s.client.gens[step.w].next);
    }
  }

  /** In every run the payload generated for an ID is twice the ID long, or as long as the limit allows. */
  lemma {:induction false} PayloadsHaveTheirLength(c: Config, steps: seq<Step>)
    requires Sound(c)
    ensures LengthsDue(c, After(c, steps))
  {
    hide Enabled, Next, Inv;
    if steps != [] {
      var front, step := steps[..|steps| - 1], steps[|steps| - 1];
      PayloadsHaveTheirLength(c, front);
      RunsKeep(c, front);
      if Enabled(c, After(c, front), step) {
        StepKeepsLengths(c, After(c, front), step);
      }
    }
  }
}
