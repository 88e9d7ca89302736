/** Whether an OK the client has in hand stays an OK. It need not: an answer still held back behind an
    earlier ID can be overwritten by the LOST of a daemon that had already given the packet up. */
module ProtocolAnswers {
  import opened Order
  import opened Protocol
  import opened ProtocolInvariants
  import opened ProtocolSteps

  /** The client has an OK for the ID: printed, or waiting for its turn. */
  predicate SaysOk(cl: Client, id: nat) {
    || (id in cl.out.held && cl.out.held[id] == OK(id))
    || (1 <= id <= |cl.emitted| && cl.emitted[id - 1] == OK(id))
  }

  ghost predicate KeepsOks(s: State, s': State) {
    forall id: nat :: SaysOk(s.client, id) ==> SaysOk(s'.client, id)
  }

  /** The LOST about to be inserted is for an ID whose OK is still held back. */
  predicate OverwritesOk(s: State, step: Step) {
    && step.DeclareLost? && s.client.daemon.DaemonLosing?
    && s.client.daemon.id in s.client.out.held && s.client.out.held[s.client.daemon.id] == OK(s.client.daemon.id)
  }

  /** What an insert does to the OKs: nothing, unless it puts another answer in the place of one. */
  lemma InsertKeepsOks(cl: Client, o: Outcome)
    requires Settled(cl.out) && cl.out.next == 1 + |cl.emitted|
    ensures var (released, out) := InsertInto<Outcome>(cl.out, o.id, o);
            var cl' := cl.(out := out, emitted := cl.emitted + released);
            (forall id: nat :: SaysOk(cl, id) ==> SaysOk(cl', id)) <==>
            (o.id in cl.out.held && cl.out.held[o.id] == OK(o.id) ==> o == OK(o.id))
  {
    var (released, out) := InsertInto<Outcome>(cl.out, o.id, o);
    var cl' := cl.(out := out, emitted := cl.emitted + released);
    InsertStep<Outcome>(cl.out, o.id, o);
    hide InsertInto;
    forall id: nat | SaysOk(cl, id) && (id != o.id || o == OK(o.id))
      ensures SaysOk(cl', id)
    {
      if id in cl.out.held && cl.out.held[id] == OK(id) {
        assert Known(out, id);
        if id < out.next {
          assert released[id - cl.out.next] == OK(id);
          assert cl'.emitted[id - 1] == released[id - 1 - |cl.emitted|];
        }
      } else {
        assert cl'.emitted[id - 1] == cl.emitted[id - 1];
      }
    }
    if o.id in cl.out.held && cl.out.held[o.id] == OK(o.id) {
      assert released == [] && Known(out, o.id);
      assert SaysOk(cl, o.id);
    } else if SaysOk(cl, o.id) {
      assert cl'.emitted[o.id - 1] == cl.emitted[o.id - 1];
    }
  }

  lemma SameAnswers(c: Config, s: State, step: Step)
    requires Enabled(c, s, step) && !step.AckInsert? && !step.DeclareLost?
    ensures var s' := Next(c, s, step);
            forall id: nat :: SaysOk(s'.client, id) <==> SaysOk(s.client, id)
  {
    hide InsertInto;
  }

  /** The answer a step inserts. */
  function Inserts(s: State, step: Step): Outcome
    requires (step.AckInsert? && s.client.ack.AckDeleted?) || (step.DeclareLost? && s.client.daemon.DaemonLosing?)
  {
    if step.DeclareLost? then LOST(s.client.daemon.id)
    else if s.client.ack.ok then OK(s.client.ack.id)
    else FAIL(s.client.ack.id)
  }

  lemma InsertSteps(c: Config, s: State, step: Step)
    requires Enabled(c, s, step) && (step.AckInsert? || step.DeclareLost?)
    ensures var o, cl' := Inserts(s, step), Next(c, s, step).client;
            var (released, out) := InsertInto<Outcome>(s.client.out, o.id, o);
            cl'.out == out && cl'.emitted == s.client.emitted + released
  {
    hide InsertInto;
  }

  lemma OnlyOutputCounts(cl: Client, cl': Client)
    requires cl'.out == cl.out && cl'.emitted == cl.emitted
    ensures forall id: nat :: SaysOk(cl', id) <==> SaysOk(cl, id)
  {
  }

  lemma AnswersInOrder(c: Config, s: State)
    requires Inv(c, s)
    ensures Settled(s.client.out) && s.client.out.next == 1 + |s.client.emitted|
    ensures s.client.ack.AckDeleted? ==> s.client.ack.ok
  {
  }

  /** The exact condition for one step. */
  lemma StepKeepsOksIff(c: Config, s: State, step: Step)
    requires Inv(c, s) && Enabled(c, s, step)
    ensures KeepsOks(s, Next(c, s, step)) <==> !OverwritesOk(s, step)
  {
    hide Inv, Next, InsertInto, SaysOk;
    if step.AckInsert? || step.DeclareLost? {
      AnswersInOrder(c, s);
      InsertSteps(c, s, step);
      var o := Inserts(s, step);
      InsertKeepsOks(s.client, o);
      var (released, out) := InsertInto<Outcome>(s.client.out, o.id, o);
      OnlyOutputCounts(s.client.(out := out, emitted := s.client.emitted + released), Next(c, s, step).client);
    } else {
      SameAnswers(c, s, step);
    }
  }

  /** Once the client has an OK for an ID it has one ever after. */
  ghost predicate OksAreFinal(c: Config, steps: seq<Step>) {
    forall m: nat, n: nat :: m <= n <= |steps| ==> KeepsOks(After(c, steps[..m]), After(c, steps[..n]))
  }

  predicate NoOkOverwritten(c: Config, steps: seq<Step>) {
    forall i: nat :: i < |steps| ==> !OverwritesOk(After(c, steps[..i]), steps[i])
  }

  lemma NoChange(s: State)
    ensures KeepsOks(s, s)
  {
  }

  lemma AttemptKeepsOksIff(c: Config, steps: seq<Step>, i: nat)
    requires Sound(c) && i < |steps|
    ensures KeepsOks(After(c, steps[..i]), After(c, steps[..i + 1])) <==> !OverwritesOk(After(c, steps[..i]), steps[i])
  {
    assert steps[..i + 1][..i] == steps[..i];
    RunsKeep(c, steps[..i]);
    hide Inv, Next, KeepsOks;
    var s := After(c, steps[..i]);
    if Enabled(c, s, steps[i]) {
      StepKeepsOksIff(c, s, steps[i]);
    } else {
      NoChange(s);
    }
  }

  lemma {:induction false} KeptFromTo(c: Config, steps: seq<Step>, m: nat, n: nat)
    requires Sound(c) && NoOkOverwritten(c, steps) && m <= n <= |steps|
    ensures KeepsOks(After(c, steps[..m]), After(c, steps[..n]))
    decreases n
  {
    hide After, SaysOk, OverwritesOk;
    if m < n {
      KeptFromTo(c, steps, m, n - 1);
      AttemptKeepsOksIff(c, steps, n - 1);
    }
  }

  /** The exact condition for whole runs. */
  lemma RunKeepsOksIff(c: Config, steps: seq<Step>)
    requires Sound(c)
    ensures OksAreFinal(c, steps) <==> NoOkOverwritten(c, steps)
  {
    hide After, KeepsOks, OverwritesOk;
    if OksAreFinal(c, steps) {
      forall i: nat | i < |steps|
        ensures !OverwritesOk(After(c, steps[..i]), steps[i])
      {
        AttemptKeepsOksIff(c, steps, i);
      }
    }
    if NoOkOverwritten(c, steps) {
      forall m: nat, n: nat | m <= n <= |steps|
        ensures KeepsOks(After(c, steps[..m]), After(c, steps[..n]))
      {
        KeptFromTo(c, steps, m, n);
      }
    }
  }
}
