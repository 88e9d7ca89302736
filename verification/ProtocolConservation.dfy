/** No registered packet is ever forgotten - as long as a promotion finds the packet it was peeked
    for. Peek and promotion take the cache's lock separately, so an ACK can fall between them; what
    that breaks, and exactly when, is stated here. */
module ProtocolConservation {
  import opened CacheSpec
  import opened LayerSpec
  import opened Order
  import opened Protocol
  import opened ProtocolInvariants
  import opened ProtocolSteps

  /** Deleted by the ACK receiver, or dropped by the daemon, and about to be inserted. */
  predicate InHand(s: State, id: nat) {
    s.client.ack == AckDeleted(id, true) || s.client.daemon == DaemonLosing(id)
  }

  ghost predicate Tracked(s: State, id: nat) {
    Pending(s.client.layers, id) || Known(s.client.out, id) || InHand(s, id)
  }

  /** Every registered ID is pending in some layer, answered, or on its way from one to the other. */
  ghost predicate Conserved(c: Config, s: State) {
    forall id: nat :: Registered(c, s.client.gens, id) ==> Tracked(s, id)
  }

  /** A packet waiting to be promoted is still the tail of the layer it was seen in. */
  predicate TailMatches(s: State) {
    var d := s.client.daemon;
    d.DaemonPeeked? ==> IsTailKey(s.client.layers, d.id, d.layer)
  }

  lemma PendingGrows(ls: Layers<nat, PendingPacket>, ls': Layers<nat, PendingPacket>, added: Entry<nat, PendingPacket>)
    requires Adds(ls, ls', added, 0)
    ensures forall x: nat :: Pending(ls, x) ==> Pending(ls', x)
  {
    forall x: nat | Pending(ls, x)
      ensures Pending(ls', x)
    {
      var i :| InLayer(ls, x, i);
      var e :| In(ls, e, i) && e.key == x;
      Witness(ls', e, i);
    }
  }

  lemma RegisterConserves(c: Config, s: State, step: Step)
    requires Sound(c) && Inv(c, s) && Conserved(c, s) && step.GenRegister? && Enabled(c, s, step)
    ensures Conserved(c, Next(c, s, step))
  {
    hide SetFirst, Registered, Sent, OneEntryEach;
    var gens, ls, w := s.client.gens, s.client.layers, step.w;
    var id: nat, p := gens[w].next, gens[w].held.value;
    var added: Entry<nat, PendingPacket> := Entry(id, p, s.now + c.firstTTL);
    var ls' := SetFirst<nat, PendingPacket>(ls, id, p, added.expiresAt);
    RegisterAdvances(c, gens, w);
    NotYetKnown(c, s, id);
    SetFirstMembers(ls, id, p, added.expiresAt);
    assert In(ls', added, 0);
    Witness(ls', added, 0);
    PendingGrows(ls, ls', added);
  }

  lemma PendingAfterDelete(ls: Layers<nat, PendingPacket>, ls': Layers<nat, PendingPacket>, gone: nat)
    requires Drops(ls, ls', gone)
    ensures forall x: nat :: Pending(ls', x) <==> Pending(ls, x) && x != gone
  {
    forall x: nat
      ensures Pending(ls', x) <==> Pending(ls, x) && x != gone
    {
      if Pending(ls, x) && x != gone {
        var i :| InLayer(ls, x, i);
        var e :| In(ls, e, i) && e.key == x;
        Witness(ls', e, i);
      }
      if Pending(ls', x) {
        var i :| InLayer(ls', x, i);
        var e :| In(ls', e, i) && e.key == x;
        Witness(ls, e, i);
      }
    }
  }

  lemma AckDeleteConserves(c: Config, s: State, step: Step)
    requires Sound(c) && Inv(c, s) && Conserved(c, s) && step.AckDelete? && Enabled(c, s, step)
    ensures Conserved(c, Next(c, s, step))
  {
    hide DeleteAll, Registered, OneEntryEach, Pending;
    AckDeleteKeeps(c, s, step);
    DeleteMembers(s.client.layers, step.ack.id);
    PendingAfterDelete(s.client.layers, DeleteAll<nat, PendingPacket>(s.client.layers, step.ack.id), step.ack.id);
  }

  lemma InsertConserves(c: Config, s: State, step: Step)
    requires Sound(c) && Inv(c, s) && Conserved(c, s) && (step.AckInsert? || step.DeclareLost?) && Enabled(c, s, step)
    ensures Conserved(c, Next(c, s, step))
  {
    hide InsertInto, Registered, Pending;
    var id: nat := if step.AckInsert? then s.client.ack.id else s.client.daemon.id;
    OutcomeInserted(s.server.log, s.client.out, s.client.emitted, if step.AckInsert? then OK(id) else LOST(id));
  }

  lemma TailIsOnly(ls: Layers<nat, PendingPacket>, e: Entry<nat, PendingPacket>, i: nat, j: nat)
    requires OneEntryEach(ls) && i < |ls| && ls[i] != []
    ensures In(ls, e, j) && e.key == ls[i][|ls[i]| - 1].key ==> j == i
  {
    assert In(ls, ls[i][|ls[i]| - 1], i);
  }

  /** Who is still in the cache after a promotion: the popped tail has left it, and the promoted ID
      is in it unless the last layer was popped. */
  lemma PendingAfterMove(ls: Layers<nat, PendingPacket>, ls': Layers<nat, PendingPacket>, i: nat,
      tail: Entry<nat, PendingPacket>, added: Entry<nat, PendingPacket>)
    requires OneEntryEach(ls) && i < |ls| && ls[i] != [] && tail == ls[i][|ls[i]| - 1]
    requires MovesUp(ls, ls', i, tail, added)
    ensures forall x: nat :: Pending(ls', x) <==> (Pending(ls, x) && x != tail.key) || (i + 1 < |ls| && x == added.key)
  {
    hide OneEntryEach;
    if i + 1 < |ls| {
      Witness(ls', added, i + 1);
    }
    forall x: nat
      ensures Pending(ls', x) <==> (Pending(ls, x) && x != tail.key) || (i + 1 < |ls| && x == added.key)
    {
      if Pending(ls, x) && x != tail.key {
        var j :| InLayer(ls, x, j);
        var e :| In(ls, e, j) && e.key == x;
        Witness(ls', e, j);
      }
      if Pending(ls', x) {
        var j :| InLayer(ls', x, j);
        var e :| In(ls', e, j) && e.key == x;
        Witness(ls, e, j);
        TailIsOnly(ls, e, i, j);
      }
    }
  }

  /** The promotion about to happen finds the packet it was peeked for, or an empty layer, or a
      packet that was answered already. */
  predicate TakesNothingOpen(s: State) {
    var ls, d := s.client.layers, s.client.daemon;
    d.DaemonPeeked? && d.layer < |ls| && ls[d.layer] != [] ==>
      var tail := ls[d.layer][|ls[d.layer]| - 1];
      tail.key == d.id || Known(s.client.out, tail.key) || s.client.ack == AckDeleted(tail.key, true)
  }

  /** The cache and the daemon after promoting from a layer that still holds something. */
  lemma AfterPromote(c: Config, s: State) returns (tail: Entry<nat, PendingPacket>, added: Entry<nat, PendingPacket>)
    requires Inv(c, s) && s.client.daemon.DaemonPeeked?
    requires s.client.daemon.layer < |s.client.layers| && s.client.layers[s.client.daemon.layer] != []
    ensures var ls, d, s' := s.client.layers, s.client.daemon, Apply(c, s, PromoteStep);
            && tail == ls[d.layer][|ls[d.layer]| - 1]
            && added.key == d.id && added.value == tail.value
            && |ls| == c.layers && OneEntryEach(ls)
            && MovesUp(ls, s'.client.layers, d.layer, tail, added)
            && s' == s.(client := s.client.(layers := s'.client.layers, daemon := s'.client.daemon))
            && s'.client.daemon ==
               (if d.layer + 1 < c.layers then DaemonResending(d.id, tail.value) else DaemonLosing(d.id))
  {
    hide Pending, Registered, Known, OneEntryEach, TxInv, LostInv, NetInv, OutInv, GenInv;
    var ls, d := s.client.layers, s.client.daemon;
    var expiresAt := s.now + c.backoff(d.layer + 1);
    tail := ls[d.layer][|ls[d.layer]| - 1];
    added := Entry(d.id, tail.value, expiresAt);
    PromoteMembers(ls, d.id, d.layer, expiresAt);
  }

  lemma PendingAfterPromote(c: Config, s: State) returns (tail: Entry<nat, PendingPacket>)
    requires Inv(c, s) && s.client.daemon.DaemonPeeked?
    requires s.client.daemon.layer < |s.client.layers| && s.client.layers[s.client.daemon.layer] != []
    ensures var ls, d := s.client.layers, s.client.daemon;
            && tail == ls[d.layer][|ls[d.layer]| - 1]
            && Enabled(c, s, PromoteStep)
            && (Next(c, s, PromoteStep).client.daemon ==
                if d.layer + 1 < c.layers then DaemonResending(d.id, tail.value) else DaemonLosing(d.id))
            && forall x: nat :: Pending(Next(c, s, PromoteStep).client.layers, x) <==>
                 (Pending(ls, x) && x != tail.key) || (d.layer + 1 < c.layers && x == d.id)
  {
    hide Inv, Next, Pending, MovesUp, OneEntryEach;
    var added;
    tail, added := AfterPromote(c, s);
    PendingAfterMove(s.client.layers, Next(c, s, PromoteStep).client.layers, s.client.daemon.layer, tail, added);
  }

  lemma EmptyPromoteConserves(c: Config, s: State)
    requires Inv(c, s) && Conserved(c, s) && s.client.daemon.DaemonPeeked?
    requires s.client.daemon.layer < |s.client.layers| ==> s.client.layers[s.client.daemon.layer] == []
    ensures Conserved(c, Next(c, s, PromoteStep))
  {
    hide Promote, Pending, Registered, Known;
    PromoteNothing(c, s, s.now + c.backoff(s.client.daemon.layer + 1));
  }

  lemma TrackedAfterPromote(c: Config, s: State, tail: Entry<nat, PendingPacket>)
    requires Inv(c, s) && Conserved(c, s) && s.client.daemon.DaemonPeeked?
    requires s.client.daemon.layer < |s.client.layers| && s.client.layers[s.client.daemon.layer] != []
    requires tail == s.client.layers[s.client.daemon.layer][|s.client.layers[s.client.daemon.layer]| - 1]
    requires var d, s' := s.client.daemon, Next(c, s, PromoteStep);
             && (s'.client.daemon ==
                 if d.layer + 1 < c.layers then DaemonResending(d.id, tail.value) else DaemonLosing(d.id))
             && forall x: nat :: Pending(s'.client.layers, x) <==>
                  (Pending(s.client.layers, x) && x != tail.key) || (d.layer + 1 < c.layers && x == d.id)
    ensures Conserved(c, Next(c, s, PromoteStep)) <==>
              tail.key == s.client.daemon.id || Known(s.client.out, tail.key)
                  || s.client.ack == AckDeleted(tail.key, true)
  {
    hide Promote, Pending, Registered, Known;
    var s' := Next(c, s, PromoteStep);
    assert In(s.client.layers, tail, s.client.daemon.layer);
    assert Registered(c, s.client.gens, tail.key);
    assert Conserved(c, s') ==> Tracked(s', tail.key);
  }

  /** The exact condition: a promotion keeps every ID tracked if and only if it takes nothing open. */
  lemma PromoteConservesIff(c: Config, s: State)
    requires Sound(c) && Inv(c, s) && Conserved(c, s) && s.client.daemon.DaemonPeeked?
    ensures Conserved(c, Next(c, s, PromoteStep)) <==> TakesNothingOpen(s)
  {
    hide Inv, Conserved, Next;
    var ls, d := s.client.layers, s.client.daemon;
    if d.layer < |ls| && ls[d.layer] != [] {
      var tail := PendingAfterPromote(c, s);
      TrackedAfterPromote(c, s, tail);
    } else {
      EmptyPromoteConserves(c, s);
    }
  }

  /** Every other step conserves unconditionally. */
  lemma StepConserves(c: Config, s: State, step: Step)
    requires Sound(c) && Inv(c, s) && Conserved(c, s) && Enabled(c, s, step)
    requires step.PromoteStep? ==> TailMatches(s)
    ensures Conserved(c, Next(c, s, step))
  {
    match step
    case GenSend(w, data, timestamp) =>
      hide FreshPacket, GoodPending, Pending, Known;
      FreshIsGenuine(c, s.client.gens[w].next, timestamp, data);
      var p := FreshPacket(c, s.client.gens[w].next, timestamp, data);
      SendMarks(c, s.client.gens, w, PendingPacket(p.data, p.checksum));
    case GenRegister(_) => RegisterConserves(c, s, step);
    case AckDelete(_) => AckDeleteConserves(c, s, step);
    case AckInsert => InsertConserves(c, s, step);
    case DeclareLost => InsertConserves(c, s, step);
    case PromoteStep => PromoteConservesIff(c, s);
    case _ =>
  }

  /** Between a peek and its promotion only one step can take the tail away: an ACK deleting the
      peeked ID itself. Generators, other ACKs, the server and the clock cannot. */
  lemma TailStaysUntilItsAck(c: Config, s: State, step: Step)
    requires Sound(c) && Inv(c, s) && TailMatches(s) && Enabled(c, s, step)
    requires !(step.AckDelete? && s.client.daemon.DaemonPeeked? && step.ack.id == s.client.daemon.id)
    ensures TailMatches(Next(c, s, step))
  {
    hide SetFirst, Promote, InsertInto, CacheSpec.Get, Put, FreshPacket, Registered, Sent;
    var d, ls := s.client.daemon, s.client.layers;
    match step
    case GenRegister(w) =>
      NotYetKnown(c, s, s.client.gens[w].next) by {
        HeldNotRegistered(c, s.client.gens, w);
      }
      TailsStay(ls, s.client.gens[w].next, s.client.gens[w].held.value, s.now + c.firstTTL);
    case AckDelete(a) =>
      AckDeleteKeeps(c, s, step);
      if d.DaemonPeeked? {
        OtherTailsStay(ls, a.id, d.id, d.layer);
      }
    case Peek =>
      if PeekExpired<nat, PendingPacket>(ls, s.now).Some? {
        PeekFindsTail(ls, s.now);
      }
    case _ =>
  }

  /** No ACK deletes an ID while the daemon stands between the peek and the promotion of that ID. */
  predicate Undisturbed(c: Config, steps: seq<Step>) {
    forall i :: 0 <= i < |steps| && steps[i].AckDelete? ==>
      var s := After(c, steps[..i]);
      Enabled(c, s, steps[i]) ==> !(s.client.daemon.DaemonPeeked? && s.client.daemon.id == steps[i].ack.id)
  }

  /** Initially a generator stands at its first ID, so none is behind it. */
  lemma FirstOwnIsBig(c: Config, id: nat)
    ensures 1 <= id && c.workers > 0 ==> Owner(c, id) < id
  {
  }

  lemma InitConserves(c: Config)
    ensures Conserved(c, Init(c)) && TailMatches(Init(c))
  {
    hide Owner;
    assert forall id: nat :: !Registered(c, Init(c).client.gens, id) by {
      forall id: nat
        ensures !Registered(c, Init(c).client.gens, id)
      {
        FirstOwnIsBig(c, id);
      }
    }
  }

  /** In every such run nothing registered is ever lost track of. */
  lemma {:induction false} UndisturbedRunsConserve(c: Config, steps: seq<Step>)
    requires Sound(c) && Undisturbed(c, steps)
    ensures Conserved(c, After(c, steps)) && TailMatches(After(c, steps))
  {
    hide Inv, Enabled, Next, Conserved, TailMatches;
    if steps == [] {
      InitConserves(c);
    } else {
      var front, step := steps[..|steps| - 1], steps[|steps| - 1];
      var s := After(c, front);
      assert forall i :: 0 <= i < |front| ==> front[..i] == steps[..i];
      UndisturbedRunsConserve(c, front);
      RunsKeep(c, front);
      if Enabled(c, s, step) {
        StepConserves(c, s, step);
        TailStaysUntilItsAck(c, s, step);
      }
    }
  }

  /** Nothing registered is lost track of at any point of the run. */
  ghost predicate ConservedThroughout(c: Config, steps: seq<Step>) {
    forall n: nat :: n <= |steps| ==> Conserved(c, After(c, steps[..n]))
  }

  /** No promotion of the run takes a packet that is neither the peeked one nor answered. */
  predicate NothingOpenTaken(c: Config, steps: seq<Step>) {
    forall i: nat :: i < |steps| && steps[i].PromoteStep? && After(c, steps[..i]).client.daemon.DaemonPeeked? ==>
      TakesNothingOpen(After(c, steps[..i]))
  }

  lemma AttemptConservesIff(c: Config, s: State, step: Step)
    requires Sound(c) && Inv(c, s) && Conserved(c, s)
    ensures Conserved(c, Apply(c, s, step)) <==>
            (step.PromoteStep? && s.client.daemon.DaemonPeeked? ==> TakesNothingOpen(s))
  {
    hide Inv, Conserved, TakesNothingOpen, Next;
    if Enabled(c, s, step) {
      if step.PromoteStep? {
        PromoteConservesIff(c, s);
      } else {
        StepConserves(c, s, step);
      }
    }
  }

  /** The exact condition for whole runs. */
  lemma {:induction false} RunConservesIff(c: Config, steps: seq<Step>)
    requires Sound(c)
    ensures ConservedThroughout(c, steps) <==> NothingOpenTaken(c, steps)
  {
    hide Enabled, Next, Conserved, TakesNothingOpen;
    assert steps[..|steps|] == steps;
    if steps == [] {
      InitConserves(c);
    } else {
      var front, step := steps[..|steps| - 1], steps[|steps| - 1];
      var s := After(c, front);
      assert forall i: nat :: i <= |front| ==> front[..i] == steps[..i];
      assert ConservedThroughout(c, steps) <==> ConservedThroughout(c, front) && Conserved(c, After(c, steps));
      assert NothingOpenTaken(c, steps) <==>
             NothingOpenTaken(c, front) && (step.PromoteStep? && s.client.daemon.DaemonPeeked? ==> TakesNothingOpen(s));
      RunConservesIff(c, front);
      RunsKeep(c, front);
      assert front[..|front|] == front;
      if Conserved(c, s) {
        AttemptConservesIff(c, s, step);
      }
    }
  }

  lemma OutputBounds(c: Config, s: State)
    requires Inv(c, s)
    ensures |s.client.emitted| <= c.total
    ensures forall j :: 0 <= j < |s.client.emitted| ==> s.client.emitted[j].id == 1 + j
    ensures |s.client.emitted| == c.total ==> forall id: nat :: 1 <= id <= c.total ==> Known(s.client.out, id)
  {
    if |s.client.emitted| > 0 {
      assert Known(s.client.out, |s.client.emitted|);
    }
  }

  lemma AllKnownAllPrinted(c: Config, s: State)
    requires Inv(c, s) && forall id: nat :: 1 <= id <= c.total ==> Known(s.client.out, id)
    ensures |s.client.emitted| >= c.total
  {
    assert !Known(s.client.out, s.client.out.next);
  }

  lemma DoneMeansRegistered(c: Config, s: State, id: nat)
    requires Inv(c, s) && GeneratorsDone(c, s) && c.workers > 0 && 1 <= id <= c.total
    ensures Registered(c, s.client.gens, id)
  {
  }

  lemma {:induction false} EmptyMeansNonePending(ls: Layers<nat, PendingPacket>)
    requires TotalLen(ls) == 0
    ensures forall i :: 0 <= i < |ls| ==> ls[i] == []
    ensures forall id: nat :: !Pending(ls, id)
  {
    if ls != [] {
      EmptyMeansNonePending(ls[..|ls| - 1]);
      assert forall i :: 0 <= i < |ls| - 1 ==> ls[i] == ls[..|ls| - 1][i];
    }
  }

  /** No unanswered ID is in the hands of the ACK receiver or the daemon. */
  predicate NothingInHand(c: Config, s: State) {
    forall id: nat :: 1 <= id <= c.total && InHand(s, id) ==> Known(s.client.out, id)
  }

  lemma RegisteredIsInRange(c: Config, gens: seq<Generator>, id: nat)
    requires Registered(c, gens, id)
    ensures 1 <= id <= c.total
  {
  }

  lemma DrainedState(c: Config, s: State)
    requires Inv(c, s) && c.workers > 0 && GeneratorsDone(c, s) && TotalLen(s.client.layers) == 0
    ensures |s.client.emitted| <= c.total
    ensures forall j :: 0 <= j < |s.client.emitted| ==> s.client.emitted[j].id == 1 + j
    ensures |s.client.emitted| == c.total <==> Conserved(c, s) && NothingInHand(c, s)
  {
    hide Inv, Known, InHand, Pending, Registered, GeneratorsDone;
    OutputBounds(c, s);
    EmptyMeansNonePending(s.client.layers);
    forall id: nat | 1 <= id <= c.total
      ensures Registered(c, s.client.gens, id)
    {
      DoneMeansRegistered(c, s, id);
    }
    if Conserved(c, s) && NothingInHand(c, s) {
      forall id: nat | 1 <= id <= c.total
        ensures Known(s.client.out, id)
      {
        assert Tracked(s, id);
      }
      AllKnownAllPrinted(c, s);
    }
    if |s.client.emitted| == c.total {
      forall id: nat | Registered(c, s.client.gens, id)
        ensures Tracked(s, id)
      {
        RegisteredIsInRange(c, s.client.gens, id);
      }
    }
  }

  /** What is printed, in any run, once the generators are done and the cache is empty - the condition on
      which Run returns: the lines for IDs 1..n in order, and all of them exactly when nothing registered
      has been lost track of and no unanswered ID is still in hand. */
  lemma DrainedOutput(c: Config, steps: seq<Step>)
    requires Sound(c) && c.workers > 0
    requires GeneratorsDone(c, After(c, steps)) && TotalLen(After(c, steps).client.layers) == 0
    ensures var s := After(c, steps);
            && |s.client.emitted| <= c.total
            && (forall j :: 0 <= j < |s.client.emitted| ==> s.client.emitted[j].id == 1 + j)
            && (|s.client.emitted| == c.total <==> Conserved(c, s) && NothingInHand(c, s))
  {
    RunsKeep(c, steps);
    DrainedState(c, After(c, steps));
  }
}
