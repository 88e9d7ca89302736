/** The worker pool as its users see it: tasks start in the order in which they were accepted, and no
    submitter, worker or Close is ever stuck without a reason. */
module PoolOrder {
  import opened WorkerPool

  /** The tasks accepted in a run, in order. */
  function Sent(start: Pool, steps: seq<Step>): seq<Task> {
    if steps == [] then []
    else
      var front, step := steps[..|steps| - 1], steps[|steps| - 1];
      Sent(start, front) + if step.Send? && Enabled(After(start, front), step) then [step.task] else []
  }

  /** The tasks that workers have taken up, in order, as the workers have them. */
  function Started(start: Pool, steps: seq<Step>): seq<Task> {
    if steps == [] then []
    else
      var front, step := steps[..|steps| - 1], steps[|steps| - 1];
      var p := After(start, front);
      Started(start, front) +
      if step.Receive? && Enabled(p, step) && Next(p, step).workers[step.w].Running?
      then [Next(p, step).workers[step.w].task] else []
  }

  lemma StepInOrder(p: Pool, step: Step, sent: seq<Task>, started: seq<Task>)
    requires Enabled(p, step) && started + p.queue == sent
    ensures var p' := Next(p, step);
            && (step.Send? ==> started + p'.queue == sent + [step.task])
            && (step.Receive? ==>
                  p'.workers[step.w].Running? && started + [p'.workers[step.w].task] + p'.queue == sent)
            && (!step.Send? && !step.Receive? ==> p'.queue == p.queue)
  {
    if step.Receive? {
      assert p.queue == [p.queue[0]] + p.queue[1..];
    }
  }

  /** In every run: what was started, followed by what is queued, is what was accepted, in that order. */
  lemma {:induction false} TasksStartInOrder(workers: int, queueSize: int, steps: seq<Step>)
    ensures var start := New(workers, queueSize);
            Started(start, steps) + After(start, steps).queue == Sent(start, steps)
  {
    hide Enabled, Next;
    if steps != [] {
      var start, front, step := New(workers, queueSize), steps[..|steps| - 1], steps[|steps| - 1];
      TasksStartInOrder(workers, queueSize, front);
      if Enabled(After(start, front), step) {
        StepInOrder(After(start, front), step, Sent(start, front), Started(start, front));
      }
    }
  }

  /** As long as the program has not panicked: Submit gets past its checks exactly until Close is called; a
      submission goes through whenever there is room in the open channel, and no longer hangs once the
      context is cancelled; any idle worker can take a queued task, any running one can finish, and an idle
      one leaves once the closed channel is drained; and Close goes on, to return when all have left. */
  lemma NobodyIsStuck(p: Pool, t: Task, w: nat)
    requires !p.panicked && w < |p.workers|
    ensures Enabled(p, BeginSubmit(t)) <==> p.closing.NotCalled?
    ensures Enabled(p, CallClose) <==> p.closing.NotCalled?
    ensures Enabled(p, Send(t)) <==> t in p.submitting && !ClosedChannel(p) && |p.queue| < p.capacity
    ensures Enabled(p, GiveUp(t)) <==> t in p.submitting && Cancelled(p)
    ensures p.workers[w].Idle? && p.queue != [] ==> Enabled(p, Receive(w))
    ensures p.workers[w].Running? ==> Enabled(p, Finish(w))
    ensures p.workers[w].Idle? && p.queue == [] && ClosedChannel(p) ==> Enabled(p, Exit(w))
    ensures p.closing.Swapped? ==> Enabled(p, CloseChannel)
    ensures p.closing.ChannelClosed? ==> Enabled(p, Cancel)
    ensures p.closing.Waiting? && (forall v :: 0 <= v < |p.workers| ==> p.workers[v].Exited?) ==> Enabled(p, WaitDone)
  {
  }

  /** A send that meets the closed channel ends the program; and Close may time out as long as it waits. */
  lemma PanicEndsTheRun(p: Pool, t: Task, step: Step)
    requires !p.panicked
    ensures t in p.submitting && ClosedChannel(p) ==>
              Enabled(p, SendOnClosed(t)) && Apply(Apply(p, SendOnClosed(t)), step) == p.(panicked := true)
    ensures p.closing.Waiting? ==> Enabled(p, TimeOut)
  {
  }

  // Close can always be brought to its return.

  /** The program is running, and Close has not returned or timed out. */
  predicate Unfinished(p: Pool) {
    !p.panicked && !p.closing.Returned? && !p.closing.TimedOut?
  }

  function PhasesLeft(c: Closing): nat {
    match c
    case NotCalled => 4
    case Swapped => 3
    case ChannelClosed => 2
    case Waiting => 1
    case _ => 0
  }

  /** The workers that have not left. */
  function StillThere(workers: seq<WorkerState>): set<nat> {
    set w: nat | w < |workers| && !workers[w].Exited?
  }

  /** q is closer to the return of Close than p. */
  predicate Closer(p: Pool, q: Pool) {
    && (q.closing.Returned? || Unfinished(q))
    && (PhasesLeft(q.closing) < PhasesLeft(p.closing)
        || (q.closing == p.closing && Left(q) < Left(p))
        || (q.closing == p.closing && Left(q) == Left(p) && |StillThere(q.workers)| < |StillThere(p.workers)|))
  }

  lemma FinishIsCloser(p: Pool, w: nat)
    requires Unfinished(p) && w < |p.workers| && p.workers[w].Running?
    ensures Closer(p, Apply(p, Finish(w)))
  {
    hide RunningTasks, StillThere;
    OneFewerOrMore(p.workers, w, Idle);
  }

  lemma ReceiveIsCloser(p: Pool, w: nat)
    requires Unfinished(p) && w < |p.workers| && p.workers[w].Idle? && p.queue != []
    ensures Closer(p, Apply(p, Receive(w)))
  {
    hide RunningTasks, StillThere;
    OneFewerOrMore(p.workers, w, Running(p.queue[0]));
  }

  lemma ExitIsCloser(p: Pool, w: nat)
    requires Unfinished(p) && ClosedChannel(p) && w < |p.workers| && p.workers[w].Idle? && p.queue == []
    ensures Closer(p, Apply(p, Exit(w)))
  {
    hide RunningTasks;
    OneFewerOrMore(p.workers, w, Exited);
    assert StillThere(Apply(p, Exit(w)).workers) == StillThere(p.workers) - {w};
    hide StillThere;
  }

  lemma NextPhaseIsCloser(p: Pool, step: Step)
    requires Unfinished(p) && Enabled(p, step)
    requires step.CallClose? || step.CloseChannel? || step.Cancel? || step.WaitDone?
    ensures Closer(p, Apply(p, step))
  {
    hide Left, StillThere;
  }

  /** A step towards the return of Close: its own next one, or one of a worker it waits for. */
  lemma ClosingStep(p: Pool) returns (step: Step)
    requires Inv(p) && Unfinished(p) && |p.workers| > 0
    ensures Closer(p, Apply(p, step))
  {
    hide RunningTasks, FirstFailure, Closer, Apply;
    match p.closing
    case NotCalled =>
      step := CallClose;
      NextPhaseIsCloser(p, step);
    case Swapped =>
      step := CloseChannel;
      NextPhaseIsCloser(p, step);
    case ChannelClosed =>
      step := Cancel;
      NextPhaseIsCloser(p, step);
    case Waiting =>
      if w: nat :| w < |p.workers| && p.workers[w].Running? {
        step := Finish(w);
        FinishIsCloser(p, w);
      } else if p.queue != [] {
        assert p.workers[0].Idle?;
        step := Receive(0);
        ReceiveIsCloser(p, 0);
      } else if w: nat :| w < |p.workers| && p.workers[w].Idle? {
        step := Exit(w);
        ExitIsCloser(p, w);
      } else {
        step := WaitDone;
        NextPhaseIsCloser(p, step);
      }
  }

  /** From every state of every run in which the program has not panicked and Close has neither returned nor
      timed out: Close and the workers can be scheduled so that it returns, having waited for every task. */
  lemma {:induction false} CloseCanReturn(workers: int, queueSize: int, steps: seq<Step>) returns (more: seq<Step>)
    requires Unfinished(After(New(workers, queueSize), steps))
    ensures After(New(workers, queueSize), steps + more).closing.Returned?
    decreases PhasesLeft(After(New(workers, queueSize), steps).closing), Left(After(New(workers, queueSize), steps)),
              |StillThere(After(New(workers, queueSize), steps).workers)|
  {
    var start := New(workers, queueSize);
    RunsKeep(workers, queueSize, steps);
    SizesStay(start, steps);
    hide After, Apply, Inv, Left, StillThere;
    var step := ClosingStep(After(start, steps));
    Extend(start, steps, step);
    if After(start, steps + [step]).closing.Returned? {
      more := [step];
    } else {
      var rest := CloseCanReturn(workers, queueSize, steps + [step]);
      more := [step] + rest;
      assert steps + more == steps + [step] + rest;
    }
  }
}
