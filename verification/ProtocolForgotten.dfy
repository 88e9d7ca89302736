/** What it costs to lose track of a packet: unless an ACK for that very packet still comes, neither its
    line nor any line after it is ever printed. */
module ProtocolForgotten {
  import opened LayerSpec
  import opened Order
  import opened Protocol
  import opened ProtocolInvariants
  import opened ProtocolSteps
  import opened ProtocolConservation

  /** Registered, but neither pending, nor answered, nor in anyone's hands. */
  ghost predicate Forgotten(c: Config, s: State, id: nat) {
    && Registered(c, s.client.gens, id)
    && !Tracked(s, id)
    && !Busy(s.client.daemon, id)
  }

  lemma RegisterForgets(c: Config, s: State, w: nat, id: nat)
    requires Sound(c) && Inv(c, s) && Forgotten(c, s, id) && Enabled(c, s, GenRegister(w))
    ensures Forgotten(c, Next(c, s, GenRegister(w)), id)
  {
    hide SetFirst, Registered, Sent, OneEntryEach;
    var gens, ls := s.client.gens, s.client.layers;
    var x: nat, p := gens[w].next, gens[w].held.value;
    var expiresAt := s.now + c.firstTTL;
    RegisterAdvances(c, gens, w);
    NotYetKnown(c, s, x);
    SetFirstMembers<nat, PendingPacket>(ls, x, p, expiresAt);
    var ls' := SetFirst<nat, PendingPacket>(ls, x, p, expiresAt);
    if Pending(ls', id) {
      var i: nat :| InLayer(ls', id, i);
      var e :| In(ls', e, i) && e.key == id;
      Witness(ls, e, i);
    }
  }

  lemma AnswerForgets(c: Config, s: State, step: Step, id: nat)
    requires Sound(c) && Inv(c, s) && Forgotten(c, s, id) && (step.AckInsert? || step.DeclareLost?)
             && Enabled(c, s, step)
    ensures Forgotten(c, Next(c, s, step), id)
  {
    hide InsertInto, Registered, Pending;
    var x: nat := if step.AckInsert? then s.client.ack.id else s.client.daemon.id;
    OutcomeInserted(s.server.log, s.client.out, s.client.emitted, if step.AckInsert? then OK(x) else LOST(x));
  }

  lemma PeekForgets(c: Config, s: State, id: nat)
    requires Inv(c, s) && Forgotten(c, s, id) && s.client.daemon.DaemonIdle?
    ensures Forgotten(c, Next(c, s, Peek), id)
  {
    hide Registered, Known, PeekExpired;
    var ls := s.client.layers;
    var found := PeekExpired<nat, PendingPacket>(ls, s.now);
    if found.Some? {
      PeekFindsTail(ls, s.now);
      var tail := ls[found.value.layer][|ls[found.value.layer]| - 1];
      Witness(ls, tail, found.value.layer);
      assert Pending(ls, found.value.key);
    }
  }

  lemma PromoteForgets(c: Config, s: State, id: nat)
    requires Sound(c) && Inv(c, s) && Forgotten(c, s, id) && s.client.daemon.DaemonPeeked?
    ensures Forgotten(c, Next(c, s, PromoteStep), id)
  {
    hide Inv, Pending, Registered, Known;
    var ls, d := s.client.layers, s.client.daemon;
    if d.layer < |ls| && ls[d.layer] != [] {
      hide Promote;
      var tail := PendingAfterPromote(c, s);
    }
  }

  /** No step but the arrival of its ACK finds a forgotten packet again. */
  lemma StaysForgotten(c: Config, s: State, step: Step, id: nat)
    requires Sound(c) && Inv(c, s) && Forgotten(c, s, id) && Enabled(c, s, step)
    requires step.AckDelete? ==> step.ack.id != id
    ensures Forgotten(c, Next(c, s, step), id)
  {
    var ls := s.client.layers;
    match step
    case GenSend(w, data, timestamp) =>
      hide Pending, FreshPacket, Known;
    case GenRegister(w) => RegisterForgets(c, s, w, id);
    case AckDelete(a) =>
      hide DeleteAll, Registered, OneEntryEach, Pending;
      AckDeleteKeeps(c, s, step);
      DeleteMembers<nat, PendingPacket>(ls, a.id);
      PendingAfterDelete(ls, DeleteAll<nat, PendingPacket>(ls, a.id), a.id);
    case AckInsert => AnswerForgets(c, s, step, id);
    case DeclareLost => AnswerForgets(c, s, step, id);
    case Peek => PeekForgets(c, s, id);
    case PromoteStep => PromoteForgets(c, s, id);
    case _ => hide Pending, Known, Registered;
  }

  lemma NotPrinted(c: Config, s: State, id: nat)
    requires Inv(c, s) && Forgotten(c, s, id)
    ensures |s.client.emitted| < id
  {
  }

  lemma {:induction false} ForgottenForGood(c: Config, steps: seq<Step>, more: seq<Step>, id: nat)
    requires Sound(c) && Forgotten(c, After(c, steps), id)
    requires forall i :: 0 <= i < |more| && more[i].AckDelete? ==> more[i].ack.id != id
    ensures Forgotten(c, After(c, steps + more), id)
    ensures |After(c, steps + more).client.emitted| < id
  {
    hide Inv, Forgotten, Enabled, Next;
    if more == [] {
      assert steps + more == steps;
    } else {
      var front, step := more[..|more| - 1], more[|more| - 1];
      ForgottenForGood(c, steps, front, id);
      assert (steps + more)[..|steps + more| - 1] == steps + front;
      RunsKeep(c, steps + front);
      if Enabled(c, After(c, steps + front), step) {
        StaysForgotten(c, After(c, steps + front), step, id);
      }
    }
    RunsKeep(c, steps + more);
    NotPrinted(c, After(c, steps + more), id);
  }
}
