/** What the unmade outputCh of the UDP server does to the protocol. A worker whose Insert releases
    anything blocks for ever in `s.outputCh <- r` before it sends its ACK
    (internal/variants/udp/server.go:58-74, 163-176), so only packets that arrive out of turn are
    ever acknowledged, and every release costs a worker. */
module ProtocolServer {
  import opened PacketCodec
  import opened CacheSpec
  import opened Order
  import opened Protocol
  import opened ProtocolInvariants
  import opened ProtocolSteps

  /** The server's ordered buffer has seen these calls. */
  function Calls(log: seq<LogEntry>): (r: seq<Call<nat>>)
    ensures |r| == |log|
    ensures forall i :: 0 <= i < |log| ==> r[i] == Call(log[i].p.id as nat, log[i].p.id as nat)
  {
    seq(|log|, i requires 0 <= i < |log| => Call(log[i].p.id, log[i].p.id))
  }

  /** The ID the server is waiting for after these inserts. */
  function Due(log: seq<LogEntry>): nat {
    Run(1, Calls(log)).1.next
  }

  function CountReleased(log: seq<LogEntry>): (n: nat)
    ensures n <= |log|
  {
    if log == [] then 0 else CountReleased(log[..|log| - 1]) + if log[|log| - 1].released then 1 else 0
  }

  function CountWedged(ws: seq<Worker>): (n: nat)
    ensures n <= |ws|
  {
    if ws == [] then 0 else CountWedged(ws[..|ws| - 1]) + if ws[|ws| - 1].Wedged? then 1 else 0
  }

  lemma {:induction false} CountWedgedUpdate(ws: seq<Worker>, k: nat, w: Worker)
    requires k < |ws|
    ensures CountWedged(ws[k := w]) ==
            CountWedged(ws) - (if ws[k].Wedged? then 1 else 0) + if w.Wedged? then 1 else 0
  {
    var n := |ws| - 1;
    if k < n {
      CountWedgedUpdate(ws[..n], k, w);
      assert ws[k := w][..n] == ws[..n][k := w];
    } else {
      assert ws[k := w][..n] == ws[..n];
    }
  }

  /** Each logged insert released something exactly when it brought the ID that was due; and there
      are as many wedged workers as such inserts. */
  ghost predicate ServerInv(server: Server) {
    && server.ob == Run(1, Calls(server.log)).1
    && (forall i :: 0 <= i < |server.log| ==>
          (server.log[i].released <==> server.log[i].p.id == Due(server.log[..i])))
    && CountReleased(server.log) == CountWedged(server.workers)
  }

  lemma CallsSnoc(log: seq<LogEntry>, e: LogEntry)
    ensures Calls(log + [e])[..|log|] == Calls(log)
    ensures Run(1, Calls(log + [e])).1 == InsertInto<nat>(Run(1, Calls(log)).1, e.p.id, e.p.id).1
  {
  }

  lemma LogGrowsTruthfully(log: seq<LogEntry>, e: LogEntry)
    requires forall i :: 0 <= i < |log| ==> (log[i].released <==> log[i].p.id == Due(log[..i]))
    requires e.released <==> e.p.id == Due(log)
    ensures var log' := log + [e];
            && (forall i :: 0 <= i < |log'| ==> (log'[i].released <==> log'[i].p.id == Due(log'[..i])))
            && CountReleased(log') == CountReleased(log) + if e.released then 1 else 0
  {
    hide Due;
    var log' := log + [e];
    assert log'[..|log|] == log;
    forall i | 0 <= i < |log'|
      ensures log'[i].released <==> log'[i].p.id == Due(log'[..i])
    {
      if i < |log| {
        assert log'[..i] == log[..i];
      }
    }
  }

  lemma InsertStepServer(server: Server, k: nat, p: Content, ok: bool)
    requires ServerInv(server) && k < |server.workers| && !server.workers[k].Wedged?
    ensures var (released, ob) := InsertInto<nat>(server.ob, p.id, p.id);
            ServerInv(server.(
              ob := ob,
              log := server.log + [LogEntry(p, ok, released != [])],
              workers := server.workers[k := if released != [] then Wedged(p.id) else Acking(p.id, ok)]))
  {
    hide InsertInto, Run, Calls, CountWedged;
    var id: nat := p.id;
    var (released, ob) := InsertInto<nat>(server.ob, id, id);
    var e := LogEntry(p, ok, released != []);
    RunState<nat>(1, Calls(server.log));
    InsertStep<nat>(server.ob, id, id);
    CallsSnoc(server.log, e);
    CountWedgedUpdate(server.workers, k, if released != [] then Wedged(id) else Acking(id, ok));
    LogGrowsTruthfully(server.log, e);
  }

  lemma ServerStep(c: Config, s: State, step: Step)
    requires Enabled(c, s, step) && ServerInv(s.server)
    ensures ServerInv(Next(c, s, step).server)
  {
    hide InsertInto, Run, Parse, Delivered, CacheSpec.Get, Put, CountWedged, CountReleased;
    if step.ServerInsert? {
      var w := s.server.workers[step.k];
      InsertStepServer(s.server, step.k, w.p, w.ok);
    } else if step.Take? || step.DedupGet? || step.DedupSet? || step.SendAck? {
      CountWedgedUpdate(s.server.workers, step.k, Next(c, s, step).server.workers[step.k]);
      assert Next(c, s, step).server.workers ==
             s.server.workers[step.k := Next(c, s, step).server.workers[step.k]];
    }
  }

  lemma {:induction false} NoneWedged(ws: seq<Worker>)
    requires forall k :: 0 <= k < |ws| ==> ws[k].WorkerIdle?
    ensures CountWedged(ws) == 0
  {
    if ws != [] {
      NoneWedged(ws[..|ws| - 1]);
    }
  }

  lemma InitServer(c: Config)
    ensures ServerInv(Init(c).server)
  {
    NoneWedged(Init(c).server.workers);
  }

  lemma {:induction false} RunsKeepServer(c: Config, steps: seq<Step>)
    ensures ServerInv(After(c, steps).server)
  {
    hide Enabled, Next, ServerInv;
    if steps == [] {
      InitServer(c);
    } else {
      var front, step := steps[..|steps| - 1], steps[|steps| - 1];
      RunsKeepServer(c, front);
      if Enabled(c, After(c, front), step) {
        ServerStep(c, After(c, front), step);
      }
    }
  }

  /** In every run each release has wedged a worker for good: there are never more releases than workers. */
  lemma ReleasesCostWorkers(c: Config, steps: seq<Step>)
    requires Sound(c)
    ensures var server := After(c, steps).server;
            CountReleased(server.log) == CountWedged(server.workers) <= c.serverWorkers
  {
    RunsKeepServer(c, steps);
    RunsKeep(c, steps);
  }

  predicate LoggedBefore(log: seq<LogEntry>, i: nat, id: nat)
    requires i <= |log|
  {
    exists j :: 0 <= j < i && log[j].p.id == id
  }

  /** An insert out of turn: of an ID already inserted, or with a smaller ID still missing. */
  predicate OutOfTurn(log: seq<LogEntry>, i: nat)
    requires i < |log|
  {
    LoggedBefore(log, i, log[i].p.id) || exists y :: 1 <= y < log[i].p.id && !LoggedBefore(log, i, y)
  }

  lemma InsertedIsLogged(log: seq<LogEntry>, i: nat)
    requires i <= |log|
    ensures forall y: nat :: Inserted(Calls(log[..i]), y) <==> LoggedBefore(log, i, y)
  {
    var before := log[..i];
    forall y: nat
      ensures Inserted(Calls(before), y) <==> LoggedBefore(log, i, y)
    {
      if Inserted(Calls(before), y) {
        var j :| 0 <= j < |before| && Calls(before)[j].id == y;
        assert log[j].p.id == y;
      }
      if LoggedBefore(log, i, y) {
        var j :| 0 <= j < i && log[j].p.id == y;
        assert Calls(before)[j].id == y;
      }
    }
  }

  lemma HeldBackMeansOutOfTurn(server: Server, i: nat)
    requires ServerInv(server) && i < |server.log| && 1 <= server.log[i].p.id
    ensures !server.log[i].released <==> OutOfTurn(server.log, i)
  {
    var log, id: nat := server.log, server.log[i].p.id;
    var before := log[..i];
    RunState<nat>(1, Calls(before));
    hide Run, Settled, LastValue;
    assert server.log[i].released <==> id == Due(before);
    InsertedIsLogged(log, i);
    var due := Due(before);
    assert !LoggedBefore(log, i, due);
  }

  lemma AllInsertsTruthful(c: Config, steps: seq<Step>, i: nat)
    requires Sound(c) && i < |After(c, steps).server.log|
    ensures var log := After(c, steps).server.log;
            log[i].ok && (!log[i].released <==> OutOfTurn(log, i))
  {
    RunsKeep(c, steps);
    RunsKeepServer(c, steps);
    hide After, OutOfTurn, ServerInv;
    var s := After(c, steps);
    assert s.server.log[i].p in s.net;
    HeldBackMeansOutOfTurn(s.server, i);
  }

  /** Some insert of the ID came out of turn. */
  predicate CameOutOfTurn(log: seq<LogEntry>, id: nat) {
    exists i :: 0 <= i < |log| && log[i].p.id == id && OutOfTurn(log, i)
  }

  lemma HeldBackIff(c: Config, steps: seq<Step>, id: nat)
    requires Sound(c)
    ensures var log := After(c, steps).server.log; HeldBack(log, id) <==> CameOutOfTurn(log, id)
  {
    hide After, OutOfTurn;
    forall i | 0 <= i < |After(c, steps).server.log|
      ensures var log := After(c, steps).server.log; !log[i].released <==> OutOfTurn(log, i)
    {
      AllInsertsTruthful(c, steps, i);
    }
  }

  /** An ACK in flight always answers an insert that came out of turn. */
  lemma AcksAreOutOfTurn(c: Config, steps: seq<Step>, a: Ack)
    requires Sound(c) && a in After(c, steps).acks
    ensures var log := After(c, steps).server.log;
            a.ok && CameOutOfTurn(log, a.id)
  {
    RunsKeep(c, steps);
    HeldBackIff(c, steps, a.id);
    hide After, OutOfTurn, ServerInv;
    assert HeldBack(After(c, steps).server.log, a.id);
  }

  /** The ACK for the ID is on the wire, or a worker is about to send it. */
  predicate Acknowledged(s: State, id: nat, ok: bool) {
    || Ack(id, ok) in s.acks
    || exists k :: 0 <= k < |s.server.workers| && s.server.workers[k] == Acking(id, ok)
  }

  predicate Blocked(workers: seq<Worker>, id: nat) {
    exists k :: 0 <= k < |workers| && workers[k] == Wedged(id)
  }

  /** Every insert that released nothing has been answered or is about to be; every other one has blocked
      the worker that made it. */
  predicate LogAnswered(s: State) {
    forall i :: 0 <= i < |s.server.log| ==>
      var e := s.server.log[i];
      if e.released then Blocked(s.server.workers, e.p.id) else Acknowledged(s, e.p.id, e.ok)
  }

  /** No step takes an ACK back or frees a blocked worker. */
  lemma AnswersStay(c: Config, s: State, step: Step, id: nat, ok: bool)
    requires Enabled(c, s, step)
    ensures Acknowledged(s, id, ok) ==> Acknowledged(Next(c, s, step), id, ok)
    ensures Blocked(s.server.workers, id) ==> Blocked(Next(c, s, step).server.workers, id)
  {
    hide InsertInto, Parse, Delivered, CacheSpec.Get, Put;
    var s' := Next(c, s, step);
    if k :| 0 <= k < |s.server.workers| && s.server.workers[k] == Wedged(id) {
      assert s'.server.workers[k] == Wedged(id);
    }
    if k :| 0 <= k < |s.server.workers| && s.server.workers[k] == Acking(id, ok) {
      assert s'.server.workers[k] == Acking(id, ok) || Ack(id, ok) in s'.acks;
    }
  }

  lemma InsertAnswers(c: Config, s: State, k: nat)
    requires Enabled(c, s, ServerInsert(k))
    ensures var s' := Next(c, s, ServerInsert(k));
            var e := s'.server.log[|s.server.log|];
            && s'.server.log == s.server.log + [e]
            && if e.released then Blocked(s'.server.workers, e.p.id) else Acknowledged(s', e.p.id, e.ok)
  {
    hide InsertInto;
    var s' := Next(c, s, ServerInsert(k));
    assert s'.server.workers[k] == s'.server.workers[k];
  }

  lemma OnlyInsertsLog(c: Config, s: State, step: Step)
    requires Enabled(c, s, step) && !step.ServerInsert?
    ensures Next(c, s, step).server.log == s.server.log
  {
    hide InsertInto, Parse, Delivered, CacheSpec.Get, Put;
  }

  lemma AnsweredStep(c: Config, s: State, step: Step)
    requires LogAnswered(s) && Enabled(c, s, step)
    ensures LogAnswered(Next(c, s, step))
  {
    if step.ServerInsert? {
      InsertAnswers(c, s, step.k);
    } else {
      OnlyInsertsLog(c, s, step);
    }
    hide Next, Enabled, Acknowledged, Blocked;
    forall i | 0 <= i < |s.server.log|
      ensures var e, s' := s.server.log[i], Next(c, s, step);
              if e.released then Blocked(s'.server.workers, e.p.id) else Acknowledged(s', e.p.id, e.ok)
    {
      AnswersStay(c, s, step, s.server.log[i].p.id, s.server.log[i].ok);
    }
  }

  lemma NothingLogged(c: Config)
    ensures LogAnswered(Init(c))
  {
  }

  lemma {:induction false} RunsAnswer(c: Config, steps: seq<Step>)
    ensures LogAnswered(After(c, steps))
  {
    hide Enabled, Next, LogAnswered;
    if steps == [] {
      NothingLogged(c);
    } else {
      var front, step := steps[..|steps| - 1], steps[|steps| - 1];
      RunsAnswer(c, front);
      if Enabled(c, After(c, front), step) {
        AnsweredStep(c, After(c, front), step);
      }
    }
  }

  /** In every run the server has acknowledged an ID, or is about to, if and only if some insert of it came
      out of turn. */
  lemma AcknowledgedIffOutOfTurn(c: Config, steps: seq<Step>, id: nat)
    requires Sound(c)
    ensures var s := After(c, steps);
            Acknowledged(s, id, true) <==> CameOutOfTurn(s.server.log, id)
  {
    RunsKeep(c, steps);
    RunsAnswer(c, steps);
    HeldBackIff(c, steps, id);
    hide After, OutOfTurn;
    var s := After(c, steps);
    if HeldBack(s.server.log, id) {
      var i :| 0 <= i < |s.server.log| && s.server.log[i].p.id == id && !s.server.log[i].released;
      AllInsertsTruthful(c, steps, i);
    }
  }

  lemma InTurn(log: seq<LogEntry>, i: nat)
    requires i < |log| && forall j :: 0 <= j <= i ==> log[j].p.id == j + 1
    ensures !OutOfTurn(log, i)
  {
    forall y | 1 <= y < log[i].p.id
      ensures LoggedBefore(log, i, y)
    {
      assert log[y - 1].p.id == y;
    }
  }

  lemma {:induction false} AllReleased(log: seq<LogEntry>)
    requires forall i :: 0 <= i < |log| ==> log[i].released
    ensures CountReleased(log) == |log|
  {
    if log != [] {
      AllReleased(log[..|log| - 1]);
    }
  }

  /** A server that processes the packets in order, each once - the best a network can do - sends no
      ACK at all, and stops after as many packets as it has workers. */
  lemma InOrderDeliveryIsNeverAcked(c: Config, steps: seq<Step>)
    requires Sound(c)
    requires var log := After(c, steps).server.log;
             forall i :: 0 <= i < |log| ==> log[i].p.id == i + 1
    ensures var s := After(c, steps);
            && s.acks == {}
            && |s.server.log| <= c.serverWorkers
            && forall j :: 0 <= j < |s.client.emitted| ==> s.client.emitted[j].LOST?
  {
    RunsKeep(c, steps);
    ReleasesCostWorkers(c, steps);
    hide After, OutOfTurn, CountReleased, CountWedged;
    var s := After(c, steps);
    forall i | 0 <= i < |s.server.log|
      ensures s.server.log[i].released
    {
      InTurn(s.server.log, i);
      AllInsertsTruthful(c, steps, i);
    }
    AllReleased(s.server.log);
    assert forall id: nat :: !HeldBack(s.server.log, id);
  }

  lemma FirstIdIsInTurn(log: seq<LogEntry>, i: nat)
    requires i < |log| && log[i].p.id == 1
    requires forall j, k :: 0 <= j < k < |log| ==> !(log[j].p.id == 1 && log[k].p.id == 1)
    ensures !OutOfTurn(log, i)
  {
  }

  /** ID 1 is never out of turn the first time: unless the server inserts it twice, the first line
      the client prints, if it prints any, says that packet 1 was lost. */
  lemma FirstLineIsLost(c: Config, steps: seq<Step>)
    requires Sound(c)
    requires var log := After(c, steps).server.log;
             forall i, j :: 0 <= i < j < |log| ==> !(log[i].p.id == 1 && log[j].p.id == 1)
    ensures var s := After(c, steps);
            && (forall a :: a in s.acks ==> a.id != 1)
            && (s.client.emitted != [] ==> s.client.emitted[0] == LOST(1))
  {
    RunsKeep(c, steps);
    RunsKeepServer(c, steps);
    hide After, ServerInv;
    var s := After(c, steps);
    forall i | 0 <= i < |s.server.log| && s.server.log[i].p.id == 1
      ensures s.server.log[i].released
    {
      FirstIdIsInTurn(s.server.log, i);
      HeldBackMeansOutOfTurn(s.server, i);
    }
    assert !HeldBack(s.server.log, 1);
  }

  predicate AllWedged(s: State) {
    forall k :: 0 <= k < |s.server.workers| ==> s.server.workers[k].Wedged?
  }

  lemma WedgedStep(c: Config, s: State, step: Step)
    requires AllWedged(s) && Enabled(c, s, step)
    ensures Next(c, s, step).server == s.server && Next(c, s, step).acks == s.acks
  {
  }

  /** Once every worker is wedged the server never logs or acknowledges anything again. */
  lemma {:induction false} WedgedForGood(c: Config, steps: seq<Step>, more: seq<Step>)
    requires AllWedged(After(c, steps))
    ensures After(c, steps + more).server == After(c, steps).server
    ensures After(c, steps + more).acks == After(c, steps).acks
  {
    if more == [] {
      assert steps + more == steps;
    } else {
      var front, step := more[..|more| - 1], more[|more| - 1];
      WedgedForGood(c, steps, front);
      assert (steps + more)[..|steps + more| - 1] == steps + front;
      hide Next;
      var s := After(c, steps + front);
      if Enabled(c, s, step) {
        WedgedStep(c, s, step);
      }
    }
  }

  ghost predicate Accepted(c: Config, s: State, o: Outcome) {
    match o
    case OK(id) => exists i :: 0 <= i < |s.server.log|
                     && s.server.log[i].p.id == id && s.server.log[i].ok
                     && s.server.log[i].p.checksum == c.sha(s.server.log[i].p.data)
                     && s.server.log[i].p in s.net
    case FAIL(_) => false
    case LOST(_) => true
  }

  /** In every run: an OK printed or waiting at the client belongs to a packet the server accepted,
      with that ID and a matching hash; no FAIL is ever printed, every ACK says OK, and badChecksum
      stays zero - Deserialize has already turned away whatever would have raised it. */
  lemma OkMeansAccepted(c: Config, steps: seq<Step>)
    requires Sound(c)
    ensures var s := After(c, steps);
            && s.server.badChecksum == 0
            && (forall a :: a in s.acks ==> a.ok)
            && (forall j :: 0 <= j < |s.client.emitted| ==> Accepted(c, s, s.client.emitted[j]))
            && (forall id :: id in s.client.out.held ==> Accepted(c, s, s.client.out.held[id]))
  {
    RunsKeep(c, steps);
    hide After;
    var s := After(c, steps);
    forall o: Outcome | Truthful(s.server.log, o)
      ensures Accepted(c, s, o)
    {
      if o.OK? {
        var i :| 0 <= i < |s.server.log| && s.server.log[i].p.id == o.id && !s.server.log[i].released;
        assert s.server.log[i].p in s.net;
      }
    }
  }

  lemma RepeatsAreOutOfTurn(log: seq<LogEntry>)
    ensures forall i, j :: 0 <= i < j < |log| && log[i].p.id == log[j].p.id ==> OutOfTurn(log, j)
  {
  }

  /** The packets the server has accepted and will not answer: the ID was inserted once, in turn, and the
      worker that did it is blocked. Whatever line the client has for such an ID, printed or held back, is
      LOST. Every other accepted ID has been acknowledged, or is about to be. */
  lemma AcceptedYetUnanswered(c: Config, steps: seq<Step>, id: nat)
    requires Sound(c) && Logged(After(c, steps).server.log, id)
    ensures var s := After(c, steps);
            var log, cl := s.server.log, s.client;
            !Acknowledged(s, id, true) ==>
              && Blocked(s.server.workers, id)
              && (forall i, j :: 0 <= i < j < |log| ==> !(log[i].p.id == id && log[j].p.id == id))
              && (1 <= id <= |cl.emitted| ==> cl.emitted[id - 1] == LOST(id))
              && (id in cl.out.held ==> cl.out.held[id] == LOST(id))
    ensures var s := After(c, steps);
            !Acknowledged(s, id, true) <==> !CameOutOfTurn(s.server.log, id)
  {
    RunsKeep(c, steps);
    RunsAnswer(c, steps);
    AcknowledgedIffOutOfTurn(c, steps, id);
    HeldBackIff(c, steps, id);
    hide After, Acknowledged, Blocked;
    var s := After(c, steps);
    if !Acknowledged(s, id, true) {
      var log := s.server.log;
      var i :| 0 <= i < |log| && log[i].p.id == id;
      assert log[i].released;
      RepeatsAreOutOfTurn(log);
    }
  }
}
