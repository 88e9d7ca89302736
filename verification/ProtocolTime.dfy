/** Why the daemon may look at the tails alone: in every run each layer of the client's cache is
    sorted by deadline, disturbed promotions included. */
module ProtocolTime {
  import opened CacheSpec
  import opened LayerSpec
  import opened Order
  import opened Protocol

  /** Layer 0 is fed with its own TTL, every other layer with the backoff before its attempt. */
  function Intervals(c: Config): nat -> int {
    (i: nat) => if i == 0 then c.firstTTL else c.backoff(i)
  }

  ghost predicate OnTime(c: Config, s: State) {
    Ordered(s.client.layers, Intervals(c), s.now)
  }

  /** Each step either leaves the layers alone or is one of the layer cache's operations, now. */
  lemma StepOnTime(c: Config, s: State, step: Protocol.Step)
    requires OnTime(c, s) && Enabled(c, s, step)
    ensures OnTime(c, Next(c, s, step))
  {
    hide Ordered, Promote, SetFirst, DeleteAll, InsertInto, CacheSpec.Get, Put, FreshPacket, PeekExpired;
    var ls, interval := s.client.layers, Intervals(c);
    match step
    case GenRegister(w) =>
      var g := s.client.gens[w];
      StepOrdered<nat, PendingPacket>(ls, interval, Timed(LayerSpec.Op.SetOp(g.next, g.held.value), s.now));
    case AckDelete(a) =>
      var read := ParseAck(AckBytes(a)).value;
      StepOrdered<nat, PendingPacket>(ls, interval, Timed(LayerSpec.Op.DeleteOp(read.id), s.now));
    case PromoteStep =>
      var d := s.client.daemon;
      StepOrdered<nat, PendingPacket>(ls, interval, Timed(LayerSpec.Op.PromoteOp(d.id, d.layer), s.now));
    case Tick(elapsed) =>
      OrderedLater<nat, PendingPacket>(ls, interval, s.now, s.now + elapsed);
    case _ =>
  }

  lemma EmptyIsOrdered(c: Config)
    ensures OnTime(c, Init(c))
  {
  }

  lemma {:induction false} RunsAreOnTime(c: Config, steps: seq<Protocol.Step>)
    ensures OnTime(c, After(c, steps))
  {
    hide Enabled, Next, OnTime;
    if steps == [] {
      EmptyIsOrdered(c);
    } else {
      var front, step := steps[..|steps| - 1], steps[|steps| - 1];
      RunsAreOnTime(c, front);
      if Enabled(c, After(c, front), step) {
        StepOnTime(c, After(c, front), step);
      }
    }
  }

  lemma NothingPending(ls: Layers<nat, PendingPacket>)
    ensures (forall i :: 0 <= i < |ls| ==> ls[i] == []) <==> forall id :: !Pending(ls, id)
  {
    forall i | 0 <= i < |ls| && ls[i] != []
      ensures Pending(ls, ls[i][0].key)
    {
      Witness(ls, ls[i][0], i);
    }
  }

  /** In every run, the daemon's scan comes back empty-handed exactly when no pending packet is
      overdue; and the deadline it then sleeps until is the least of all, so that nothing pending
      becomes overdue however long it sleeps up to that deadline. */
  lemma DaemonMissesNothing(c: Config, steps: seq<Protocol.Step>, elapsed: nat)
    ensures var s := After(c, steps);
            var found := PeekExpired<nat, PendingPacket>(s.client.layers, s.now);
            var earliest := EarliestTail<nat, PendingPacket>(s.client.layers, |s.client.layers|);
            && (found.None? <==> !SomewhereExpired(s.client.layers, s.now))
            && (earliest.None? <==> forall id :: !Pending(s.client.layers, id))
            && (earliest.Some? ==>
                  (SomewhereExpired(s.client.layers, s.now + elapsed) <==> s.now + elapsed > earliest.value))
  {
    hide After, PeekExpired, EarliestTail, Sorted, UniqueKeys;
    RunsAreOnTime(c, steps);
    var s := After(c, steps);
    PeekIsFullScan<nat, PendingPacket>(s.client.layers, s.now);
    EarliestIsMinimum<nat, PendingPacket>(s.client.layers);
    NothingPending(s.client.layers);
  }
}
