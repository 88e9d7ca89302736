/** How often an ID can be sent and declared lost, and a quantity that every registration and every
    promotion of a packet uses up. */
module ProtocolProgress {
  import opened Arithmetic
  import opened Wrappers
  import opened CacheSpec
  import opened LayerSpec
  import opened Protocol
  import opened ProtocolInvariants
  import opened ProtocolSteps

  lemma RegisteredIsSent(c: Config, gens: seq<Generator>, id: nat)
    ensures Registered(c, gens, id) ==> Sent(c, gens, id)
  {
  }

  /** In every run, disturbed or not: at most one transmission per layer and at most one LOST per
      ID, and none at all for IDs no generator has sent. */
  lemma SendsAndLossesBounded(c: Config, steps: seq<Step>, id: nat)
    requires Sound(c)
    ensures var s := After(c, steps);
            && s.hist.tx[id] <= c.layers
            && s.hist.lost[id] <= 1
            && (!Sent(c, s.client.gens, id) ==> s.hist.tx[id] == 0 && s.hist.lost[id] == 0)
  {
    RunsKeep(c, steps);
    hide After, Sent, Registered, Pending;
    var s := After(c, steps);
    assert id in s.hist.tx <==> s.hist.tx[id] > 0;
    assert id in s.hist.lost <==> s.hist.lost[id] > 0;
    RegisteredIsSent(c, s.client.gens, id);
  }

  /** The IDs still to be registered. */
  ghost function ToRegister(c: Config, gens: seq<Generator>): (r: set<nat>)
  {
    set id: nat | 1 <= id <= c.total && !Registered(c, gens, id)
  }

  /** The promotions the first n layers can still give rise to: one per entry and remaining layer. */
  function PromotionsLeft(ls: Layers<nat, PendingPacket>, n: nat): (r: nat)
    requires n <= |ls|
  {
    if n == 0 then 0 else PromotionsLeft(ls, n - 1) + |ls[n - 1]| * (|ls| - (n - 1))
  }

  /** layers + 1 for every ID to register, and for every pending packet the number of layers it has yet to leave. */
  ghost function Work(c: Config, s: State): (r: nat) {
    |ToRegister(c, s.client.gens)| * (c.layers + 1) + PromotionsLeft(s.client.layers, |s.client.layers|)
  }

  lemma {:induction false} PromotionsLeftUpdate(ls: Layers<nat, PendingPacket>, i: nat, es: seq<Entry<nat,
      PendingPacket>>, n: nat)
    requires i < |ls| && n <= |ls|
    ensures PromotionsLeft(ls[i := es], n) ==
            PromotionsLeft(ls, n) + if i < n then |es| * (|ls| - i) - |ls[i]| * (|ls| - i) else 0
  {
    if n > 0 {
      PromotionsLeftUpdate(ls, i, es, n - 1);
    }
  }

  lemma OneStepUp(n: nat, k: int)
    ensures (n + 1) * k == n * k + k
  {
  }

  lemma OneFewer(c: Config, gens: seq<Generator>, gens': seq<Generator>, id: nat)
    requires 1 <= id <= c.total && !Registered(c, gens, id)
    requires forall x: nat :: Registered(c, gens', x) <==> Registered(c, gens, x) || x == id
    ensures |ToRegister(c, gens)| == |ToRegister(c, gens')| + 1
  {
    hide Registered;
    assert ToRegister(c, gens) == ToRegister(c, gens') + {id};
  }

  lemma NewKeyAdds(ls: Layers<nat, PendingPacket>, id: nat, p: PendingPacket, expiresAt: int)
    requires ls != [] && !Pending(ls, id)
    ensures |Put<nat, PendingPacket>(ls[0], id, p, expiresAt)| == |ls[0]| + 1
  {
    forall e | e in ls[0]
      ensures e.key != id
    {
      Witness(ls, e, 0);
    }
    AbsentKey(ls[0], id);
  }

  /** Registering trades layers + 1 for layers. */
  lemma RegisterWorks(c: Config, s: State, w: nat)
    requires Sound(c) && Inv(c, s) && Enabled(c, s, GenRegister(w))
    ensures Work(c, Next(c, s, GenRegister(w))) == Work(c, s) - 1
  {
    hide Registered, Sent, PromotionsLeft, Put, OneEntryEach, Pending, ToRegister;
    var gens, ls := s.client.gens, s.client.layers;
    var id: nat, p := gens[w].next, gens[w].held.value;
    var gens' := gens[w := Generator(id + c.workers, None)];
    RegisterAdvances(c, gens, w);
    NotYetKnown(c, s, id);
    OneFewer(c, gens, gens', id);
    OneStepUp(|ToRegister(c, gens')|, c.layers + 1);
    NewKeyAdds(ls, id, p, s.now + c.firstTTL);
    var es := Put<nat, PendingPacket>(ls[0], id, p, s.now + c.firstTTL);
    PromotionsLeftUpdate(ls, 0, es, |ls|);
    OneStepUp(|ls[0]|, |ls|);
  }

  lemma KeyOnlyBelow(ls: Layers<nat, PendingPacket>, id: nat, i: nat)
    requires i + 1 < |ls| && forall j :: InLayer(ls, id, j) ==> j == i
    ensures forall e :: e in ls[i + 1] ==> e.key != id
  {
    forall e | e in ls[i + 1]
      ensures e.key != id
    {
      Witness(ls, e, i + 1);
    }
  }

  lemma PutAbsent(es: seq<Entry<nat, PendingPacket>>, id: nat, p: PendingPacket, expiresAt: int)
    requires Remove(es, id) == es
    ensures |Put<nat, PendingPacket>(es, id, p, expiresAt)| == |es| + 1
  {
  }

  /** A promotion that takes a packet out of a layer uses up exactly one unit, whichever packet it is. */
  lemma PromoteWorks(c: Config, s: State)
    requires Sound(c) && Inv(c, s) && s.client.daemon.DaemonPeeked?
    ensures var ls, d := s.client.layers, s.client.daemon;
            Work(c, Next(c, s, PromoteStep)) ==
            Work(c, s) - if d.layer < |ls| && ls[d.layer] != [] then 1 else 0
  {
    hide ToRegister, PromotionsLeft, Put, OneEntryEach, Registered;
    var ls, d := s.client.layers, s.client.daemon;
    var i, expiresAt := d.layer, s.now + c.backoff(d.layer + 1);
    PromoteCases(ls, d.id, i, expiresAt);
    hide Promote;
    if ls[i] == [] {
      assert ls[i := Pop(ls[i])] == ls;
    } else {
      var popped := ls[i := Pop(ls[i])];
      PromotionsLeftUpdate(ls, i, Pop(ls[i]), |ls|);
      OneStepUp(|ls[i]| - 1, |ls| - i);
      if i + 1 < |ls| {
        KeyOnlyBelow(ls, d.id, i);
        var value := ls[i][|ls[i]| - 1].value;
        var es := Put<nat, PendingPacket>(popped[i + 1], d.id, value, expiresAt);
        AbsentKey(ls[i + 1], d.id);
        PutAbsent(ls[i + 1], d.id, value, expiresAt);
        PromotionsLeftUpdate(popped, i + 1, es, |ls|);
        OneStepUp(|ls[i + 1]|, |ls| - (i + 1));
      }
    }
  }

  lemma RemoveShortens(es: seq<Entry<nat, PendingPacket>>, id: nat)
    ensures |Remove<nat, PendingPacket>(es, id)| <= |es|
  {
  }

  lemma {:induction false} DeletingOnlyLowers(ls: Layers<nat, PendingPacket>, id: nat, n: nat)
    requires n <= |ls|
    ensures PromotionsLeft(DeleteAll<nat, PendingPacket>(ls, id), n) <= PromotionsLeft(ls, n)
  {
    hide DeleteAll, Remove;
    if n > 0 {
      var ls' := DeleteAll<nat, PendingPacket>(ls, id);
      DeletingOnlyLowers(ls, id, n - 1);
      RemoveShortens(ls[n - 1], id);
      TimesMonotone(|ls'[n - 1]|, |ls[n - 1]|, |ls| - (n - 1));
    }
  }

  /** Registering a packet, or taking one out of a layer to promote it. */
  predicate Progresses(s: State, step: Step) {
    || step.GenRegister?
    || (step.PromoteStep? && s.client.daemon.DaemonPeeked?
        && s.client.daemon.layer < |s.client.layers| && s.client.layers[s.client.daemon.layer] != [])
  }

  lemma StepWorks(c: Config, s: State, step: Step)
    requires Sound(c) && Inv(c, s) && Enabled(c, s, step)
    ensures Work(c, Next(c, s, step)) + (if Progresses(s, step) then 1 else 0) <= Work(c, s)
  {
    match step
    case GenRegister(w) => RegisterWorks(c, s, w);
    case PromoteStep => PromoteWorks(c, s);
    case AckDelete(a) =>
      hide DeleteAll, ToRegister, PromotionsLeft;
      AckDeleteKeeps(c, s, step);
      DeletingOnlyLowers(s.client.layers, a.id, |s.client.layers|);
    case GenSend(w, data, timestamp) =>
      hide FreshPacket, GoodPending, PromotionsLeft, Registered;
      FreshIsGenuine(c, s.client.gens[w].next, timestamp, data);
      var p := FreshPacket(c, s.client.gens[w].next, timestamp, data);
      SendMarks(c, s.client.gens, w, PendingPacket(p.data, p.checksum));
      assert ToRegister(c, Next(c, s, step).client.gens) == ToRegister(c, s.client.gens);
    case _ =>
  }

  /** The registrations and promotions of a run. */
  function ProgressCount(c: Config, steps: seq<Step>): (n: nat) {
    if steps == [] then 0
    else
      var front, step := steps[..|steps| - 1], steps[|steps| - 1];
      var s := After(c, front);
      ProgressCount(c, front) + if Enabled(c, s, step) && Progresses(s, step) then 1 else 0
  }

  function FirstIds(n: nat): (r: set<nat>)
    ensures |r| == n
    ensures forall id: nat :: id in r <==> 1 <= id <= n
  {
    if n == 0 then {} else FirstIds(n - 1) + {n}
  }

  lemma FewerElements<T>(a: set<T>, b: set<T>)
    requires a <= b
    ensures |a| <= |b|
  {
    assert b == a + (b - a);
  }

  lemma {:induction false} EmptyLayersLeaveNothing(ls: Layers<nat, PendingPacket>, n: nat)
    requires n <= |ls| && forall i :: 0 <= i < |ls| ==> ls[i] == []
    ensures PromotionsLeft(ls, n) == 0
  {
    if n > 0 {
      EmptyLayersLeaveNothing(ls, n - 1);
    }
  }

  lemma InitialWork(c: Config)
    ensures Work(c, Init(c)) <= c.total * (c.layers + 1)
  {
    var ids := FirstIds(c.total);
    assert ToRegister(c, Init(c).client.gens) <= ids;
    FewerElements(ToRegister(c, Init(c).client.gens), ids);
    TimesMonotone(|ToRegister(c, Init(c).client.gens)|, c.total, c.layers + 1);
    EmptyLayersLeaveNothing(Init(c).client.layers, c.layers);
  }

  /** However long a run is, it registers and promotes at most total * (layers + 1) times. */
  lemma {:induction false} ProgressIsBounded(c: Config, steps: seq<Step>)
    requires Sound(c)
    ensures ProgressCount(c, steps) + Work(c, After(c, steps)) <= c.total * (c.layers + 1)
  {
    hide Inv, Enabled, Next, Work, Progresses;
    if steps == [] {
      InitialWork(c);
    } else {
      var front, step := steps[..|steps| - 1], steps[|steps| - 1];
      ProgressIsBounded(c, front);
      RunsKeep(c, front);
      if Enabled(c, After(c, front), step) {
        StepWorks(c, After(c, front), step);
      }
    }
  }
}
