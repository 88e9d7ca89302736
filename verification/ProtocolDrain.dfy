/** From any point of a run at which the generators are done, no answer is in hand and nothing registered
    has been lost track of, the daemon alone finishes, with no ACK ever arriving: every schedule of clock
    and daemon makes the same number of moves to the end, and none gets stuck before it. */
module ProtocolDrain {
  import opened Arithmetic
  import opened CacheSpec
  import opened LayerSpec
  import opened Order
  import opened Protocol
  import opened ProtocolInvariants
  import opened ProtocolSteps
  import opened ProtocolConservation
  import opened ProtocolProgress
  import opened ProtocolTime

  /** Time and the daemon. */
  predicate OfDaemon(step: Protocol.Step) {
    step.Tick? || step.Peek? || step.PromoteStep? || step.Resend? || step.DeclareLost?
  }

  predicate DaemonOnly(steps: seq<Protocol.Step>) {
    forall i :: 0 <= i < |steps| ==> OfDaemon(steps[i])
  }

  /** Generators done, ACK receiver and daemon at the heads of their loops. */
  predicate Quiet(c: Config, s: State) {
    GeneratorsDone(c, s) && s.client.ack.AckIdle? && s.client.daemon.DaemonIdle?
  }

  /** What a quiet point leads to while only the daemon moves. */
  ghost predicate Draining(c: Config, s: State) {
    && Inv(c, s) && OnTime(c, s) && TailMatches(s) && Conserved(c, s)
    && GeneratorsDone(c, s) && s.client.ack.AckIdle?
  }

  /** Nothing pending, nothing in hand, and one line for every ID, in order. */
  predicate Finished(c: Config, s: State) {
    && s.client.daemon.DaemonIdle? && TotalLen(s.client.layers) == 0
    && |s.client.emitted| == c.total
    && forall j :: 0 <= j < c.total ==> s.client.emitted[j].id == 1 + j
  }

  /** The moves still to come: three for each promotion - scan, promotion, and resend or LOST. */
  ghost function MovesLeft(c: Config, s: State): int {
    3 * Work(c, s) + if s.client.daemon.DaemonIdle? then 0 else if s.client.daemon.DaemonPeeked? then -1 else 1
  }

  /** The scans still to come. */
  ghost function ScansLeft(c: Config, s: State): int {
    Work(c, s) - if s.client.daemon.DaemonPeeked? then 1 else 0
  }

  /** A step of the daemon that does something; letting time pass does not count. */
  predicate IsMove(c: Config, s: State, step: Protocol.Step) {
    !step.Tick? && Apply(c, s, step) != s
  }

  function CountMoves(c: Config, s: State, steps: seq<Protocol.Step>): (n: nat)
    decreases |steps|
  {
    if steps == [] then 0
    else (if IsMove(c, s, steps[0]) then 1 else 0) + CountMoves(c, Apply(c, s, steps[0]), steps[1..])
  }

  lemma Extend(c: Config, steps: seq<Protocol.Step>, step: Protocol.Step)
    ensures After(c, steps + [step]) == Apply(c, After(c, steps), step)
  {
    assert (steps + [step])[..|steps|] == steps;
  }

  lemma StepKeepsDraining(c: Config, s: State, step: Protocol.Step)
    requires Sound(c) && Draining(c, s) && OfDaemon(step)
    ensures Draining(c, Apply(c, s, step))
  {
    hide Inv, OnTime, Conserved, TailMatches;
    if Enabled(c, s, step) {
      StepKeeps(c, s, step);
      StepOnTime(c, s, step);
      ProtocolConservation.StepConserves(c, s, step);
      TailStaysUntilItsAck(c, s, step);
      hide InsertInto, Promote, PeekExpired;
    }
  }

  lemma PromoteMoves(c: Config, s: State)
    requires Sound(c) && Draining(c, s) && s.client.daemon.DaemonPeeked?
    ensures Work(c, Next(c, s, PromoteStep)) == Work(c, s) - 1
    ensures var d := Next(c, s, PromoteStep).client.daemon; d.DaemonResending? || d.DaemonLosing?
  {
    hide Work, OnTime, Conserved, Inv;
    PromoteWorks(c, s);
    hide Promote;
  }

  lemma SameWork(c: Config, s: State, s': State, step: Protocol.Step)
    requires OfDaemon(step) && !step.PromoteStep? && Enabled(c, s, step) && s' == Next(c, s, step)
    ensures Work(c, s') == Work(c, s)
  {
    hide InsertInto, PeekExpired, ResentPacket, PromotionsLeft, ToRegister;
  }

  /** Each move is one of those that were left, whatever its kind. */
  lemma StepMoves(c: Config, s: State, step: Protocol.Step)
    requires Sound(c) && Draining(c, s) && OfDaemon(step)
    ensures MovesLeft(c, Apply(c, s, step)) == MovesLeft(c, s) - if IsMove(c, s, step) then 1 else 0
    ensures ScansLeft(c, Apply(c, s, step)) == ScansLeft(c, s) - if IsMove(c, s, step) && step.Peek? then 1 else 0
  {
    hide Work, OnTime, Conserved;
    if Enabled(c, s, step) {
      if step.PromoteStep? {
        PromoteMoves(c, s);
      } else {
        SameWork(c, s, Next(c, s, step), step);
        hide Inv, InsertInto, PeekExpired, ResentPacket;
      }
    }
  }

  lemma {:induction false} NothingLeftIff(ls: Layers<nat, PendingPacket>, n: nat)
    requires n <= |ls|
    ensures PromotionsLeft(ls, n) == 0 <==> forall i :: 0 <= i < n ==> ls[i] == []
  {
    if n > 0 {
      NothingLeftIff(ls, n - 1);
      ProductIsZero(|ls[n - 1]|, |ls| - (n - 1));
    }
  }

  lemma {:induction false} TotalLenZeroIff(ls: Layers<nat, PendingPacket>)
    ensures TotalLen(ls) == 0 <==> forall i :: 0 <= i < |ls| ==> ls[i] == []
  {
    if ls != [] {
      TotalLenZeroIff(ls[..|ls| - 1]);
      assert forall i :: 0 <= i < |ls| - 1 ==> ls[..|ls| - 1][i] == ls[i];
    }
  }

  lemma WorkWhenDone(c: Config, s: State)
    requires Inv(c, s) && GeneratorsDone(c, s) && c.workers > 0
    ensures Work(c, s) == PromotionsLeft(s.client.layers, |s.client.layers|)
  {
    hide Inv, Registered, GeneratorsDone;
    forall id: nat | 1 <= id <= c.total
      ensures Registered(c, s.client.gens, id)
    {
      DoneMeansRegistered(c, s, id);
    }
    assert ToRegister(c, s.client.gens) == {};
  }

  /** No moves are left exactly at the end. */
  lemma FinishedIff(c: Config, s: State)
    requires Sound(c) && c.workers > 0 && Draining(c, s)
    ensures MovesLeft(c, s) >= 0
    ensures MovesLeft(c, s) == 0 <==> Finished(c, s)
  {
    var ls := s.client.layers;
    WorkWhenDone(c, s);
    NothingLeftIff(ls, |ls|);
    TotalLenZeroIff(ls);
    hide Work, Inv, OnTime, Conserved, GeneratorsDone, TotalLen;
    if s.client.daemon.DaemonPeeked? {
      assert ls[s.client.daemon.layer] != [];
    } else if s.client.daemon.DaemonIdle? && TotalLen(ls) == 0 {
      DrainedState(c, s);
    }
  }

  lemma QuietIsDraining(c: Config, steps: seq<Protocol.Step>)
    requires Sound(c) && Quiet(c, After(c, steps)) && Conserved(c, After(c, steps))
    ensures Draining(c, After(c, steps))
  {
    RunsKeep(c, steps);
    RunsAreOnTime(c, steps);
  }

  lemma {:induction false} MovesCount(c: Config, steps: seq<Protocol.Step>, more: seq<Protocol.Step>)
    requires Sound(c) && Draining(c, After(c, steps)) && DaemonOnly(more)
    ensures Draining(c, After(c, steps + more))
    ensures MovesLeft(c, After(c, steps + more)) == MovesLeft(c, After(c, steps)) - CountMoves(c, After(c, steps), more)
    decreases |more|
  {
    hide After, Apply, Draining, MovesLeft, IsMove;
    if more == [] {
      assert steps + more == steps;
    } else {
      Extend(c, steps, more[0]);
      StepKeepsDraining(c, After(c, steps), more[0]);
      StepMoves(c, After(c, steps), more[0]);
      MovesCount(c, steps + [more[0]], more[1..]);
      assert steps + more == steps + [more[0]] + more[1..];
    }
  }

  /** For every schedule of clock and daemon: it makes at most as many moves as there were promotions left
      to make, times three, and it has finished exactly when it has made that many. */
  lemma EveryDaemonRun(c: Config, steps: seq<Protocol.Step>, more: seq<Protocol.Step>)
    requires Sound(c) && c.workers > 0 && Quiet(c, After(c, steps)) && Conserved(c, After(c, steps))
    requires DaemonOnly(more)
    ensures var moves, all := CountMoves(c, After(c, steps), more), 3 * Work(c, After(c, steps));
            moves <= all && (Finished(c, After(c, steps + more)) <==> moves == all)
  {
    QuietIsDraining(c, steps);
    MovesCount(c, steps, more);
    FinishedIff(c, After(c, steps + more));
  }

  lemma {:induction false} SomethingPending(ls: Layers<nat, PendingPacket>)
    requires TotalLen(ls) > 0
    ensures exists id :: Pending(ls, id)
  {
    TotalLenZeroIff(ls);
    var i :| 0 <= i < |ls| && ls[i] != [];
    Witness(ls, ls[i][0], i);
    assert Pending(ls, ls[i][0].key);
  }

  /** Once the clock has passed the earliest deadline, the scan finds something. */
  lemma WaitFinds(c: Config, s: State) returns (elapsed: nat)
    requires OnTime(c, s) && TotalLen(s.client.layers) > 0
    ensures PeekExpired<nat, PendingPacket>(s.client.layers, s.now + elapsed).Some?
  {
    hide TotalLen, EarliestTail, PeekExpired, Sorted, UniqueKeys;
    var ls := s.client.layers;
    SomethingPending(ls);
    NothingPending(ls);
    EarliestIsMinimum<nat, PendingPacket>(ls);
    var earliest := EarliestTail<nat, PendingPacket>(ls, |ls|).value;
    elapsed := if earliest >= s.now then earliest - s.now + 1 else 0;
    PeekIsFullScan<nat, PendingPacket>(ls, s.now + elapsed);
    assert SomewhereExpired(ls, s.now + elapsed);
  }

  lemma MoveMoves(c: Config, s: State, elapsed: nat, move: Protocol.Step)
    requires Sound(c) && Inv(c, s)
    requires match s.client.daemon
             case DaemonIdle => move == Peek && PeekExpired<nat, PendingPacket>(s.client.layers, s.now + elapsed).Some?
             case DaemonPeeked(_, _) => move == PromoteStep
             case DaemonLosing(_) => move == DeclareLost
             case DaemonResending(_, _) => move == Resend(0)
    ensures IsMove(c, Apply(c, s, Tick(elapsed)), move)
  {
    hide PeekExpired, Promote, InsertInto, ResentPacket;
  }

  lemma TickIsNoMove(c: Config, s: State, step: Protocol.Step)
    requires step.Tick?
    ensures !IsMove(c, s, step)
  {
  }

  lemma MoveNow(c: Config, s: State, move: Protocol.Step)
    requires Sound(c) && Inv(c, s)
    requires match s.client.daemon
             case DaemonIdle => move == Peek
             case DaemonPeeked(_, _) => move == PromoteStep
             case DaemonLosing(_) => move == DeclareLost
             case DaemonResending(_, _) => move == Resend(0)
    ensures !move.Peek? ==> IsMove(c, s, move)
  {
    hide PeekExpired, Promote, InsertInto, ResentPacket;
  }

  /** While moves are left the daemon can make one: at once, or with a scan after a wait. */
  lemma NextMove(c: Config, s: State) returns (wait: Protocol.Step, move: Protocol.Step)
    requires Sound(c) && Draining(c, s) && c.workers > 0 && MovesLeft(c, s) > 0
    ensures wait.Tick? && OfDaemon(move)
    ensures if move.Peek? then IsMove(c, Apply(c, s, wait), move) else IsMove(c, s, move)
  {
    var elapsed := 0;
    var d := s.client.daemon;
    if d.DaemonIdle? {
      FinishedIff(c, s);
      WorkWhenDone(c, s);
      NothingLeftIff(s.client.layers, |s.client.layers|);
      TotalLenZeroIff(s.client.layers);
      elapsed := WaitFinds(c, s);
      move := Peek;
    } else if d.DaemonPeeked? {
      move := PromoteStep;
    } else if d.DaemonLosing? {
      move := DeclareLost;
    } else {
      move := Resend(0);
    }
    wait := Tick(elapsed);
    MoveMoves(c, s, elapsed, move);
    MoveNow(c, s, move);
  }

  lemma MakeMove(c: Config, steps: seq<Protocol.Step>) returns (first: seq<Protocol.Step>)
    requires Sound(c) && c.workers > 0 && Draining(c, After(c, steps)) && MovesLeft(c, After(c, steps)) > 0
    ensures DaemonOnly(first) && Draining(c, After(c, steps + first))
    ensures var s, s' := After(c, steps), After(c, steps + first);
            && MovesLeft(c, s') == MovesLeft(c, s) - 1
            && |first| == 1 + ScansLeft(c, s) - ScansLeft(c, s')
  {
    hide After, Apply, Draining, MovesLeft, ScansLeft, IsMove;
    var s := After(c, steps);
    var wait, move := NextMove(c, s);
    var waited := if move.Peek? then steps + [wait] else steps;
    if move.Peek? {
      Extend(c, steps, wait);
      StepKeepsDraining(c, s, wait);
      StepMoves(c, s, wait);
      TickIsNoMove(c, s, wait);
      assert steps + [wait, move] == waited + [move];
    }
    Extend(c, waited, move);
    StepKeepsDraining(c, After(c, waited), move);
    StepMoves(c, After(c, waited), move);
    first := if move.Peek? then [wait, move] else [move];
  }

  lemma LeftToDo(c: Config, s: State)
    requires Sound(c) && c.workers > 0 && Draining(c, s)
    ensures MovesLeft(c, s) >= 0 && ScansLeft(c, s) >= 0
    ensures MovesLeft(c, s) == 0 <==> Finished(c, s)
    ensures Quiet(c, s) ==> MovesLeft(c, s) + ScansLeft(c, s) == 4 * Work(c, s)
  {
    FinishedIff(c, s);
    hide Work;
  }

  /** So every schedule of clock and daemon, at whatever point it stops, can be completed - from a quiet
      point in four steps for each promotion: wait, scan, promotion, and resend or LOST. */
  lemma {:induction false} DaemonFinishes(c: Config, steps: seq<Protocol.Step>) returns (more: seq<Protocol.Step>)
    requires Sound(c) && c.workers > 0 && Draining(c, After(c, steps))
    ensures DaemonOnly(more) && |more| <= MovesLeft(c, After(c, steps)) + ScansLeft(c, After(c, steps))
    ensures Quiet(c, After(c, steps)) ==> |more| <= 4 * Work(c, After(c, steps))
    ensures Finished(c, After(c, steps + more))
    decreases MovesLeft(c, After(c, steps))
  {
    hide After, Apply, Draining, MovesLeft, ScansLeft, Finished, Quiet, Work;
    LeftToDo(c, After(c, steps));
    if MovesLeft(c, After(c, steps)) == 0 {
      more := [];
      assert steps + more == steps;
    } else {
      var first := MakeMove(c, steps);
      var rest := DaemonFinishes(c, steps + first);
      more := first + rest;
      assert steps + more == steps + first + rest;
    }
  }
}
