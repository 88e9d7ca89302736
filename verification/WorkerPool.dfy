/** pkg/workerpool/workerpool.go: submitters, workers and Close as interleaved steps. A Submit that
    meets the closed channel panics in Go and ends the program: that step ends the run here. */
module WorkerPool {
  import opened Wrappers

  /** A task, and whether executing it fails. */
  datatype Task = Task(id: int, fails: bool)

  datatype WorkerState = Idle | Running(task: Task) | Exited

  /** Submit between its checks and the send on taskCh. */
  datatype Submission = Submission(task: Task)

  /** Close: not called; swapped the closed flag; closed taskCh; cancelled the context and waits for
      the workers; returned through done with the pool's error, or on a timeout. */
  datatype Closing = NotCalled | Swapped | ChannelClosed | Waiting | Returned(err: Option<Task>) | TimedOut

  datatype Pool = Pool(
    capacity: nat,
    queue: seq<Task>,
    workers: seq<WorkerState>,
    submitting: multiset<Task>,
    closing: Closing,
    err: Option<Task>,       // the task whose error p.err holds
    accepted: multiset<Task>,  // tasks whose Submit returned nil
    executed: seq<Task>,     // in order of completion
    panicked: bool)

  datatype Step =
    | BeginSubmit(task: Task)   // closed.Load() and ctx.Done() both negative
    | Send(task: Task)
    | SendOnClosed(task: Task)
    | GiveUp(task: Task)        // ctx.Done() after cancel
    | Receive(w: nat)
    | Finish(w: nat)
    | Exit(w: nat)
    | CallClose
    | CloseChannel
    | Cancel
    | WaitDone
    | TimeOut

  /** New: one worker and a queue of ten where a non-positive size is asked for. */
  function New(workers: int, queueSize: int): (p: Pool)
    ensures p.capacity >= 1 && |p.workers| >= 1
    ensures p.capacity == if queueSize > 0 then queueSize else 10
    ensures |p.workers| == if workers > 0 then workers else 1
  {
    Pool(if queueSize <= 0 then 10 else queueSize, [], seq(if workers <= 0 then 1 else workers, _ => Idle),
         multiset{}, NotCalled, None, multiset{}, [], false)
  }

  /** closed.Load() */
  predicate Closed(p: Pool) {
    !p.closing.NotCalled?
  }

  /** close(p.taskCh) has happened. */
  predicate ClosedChannel(p: Pool) {
    !p.closing.NotCalled? && !p.closing.Swapped?
  }

  predicate Cancelled(p: Pool) {
    ClosedChannel(p) && !p.closing.ChannelClosed?
  }

  predicate Enabled(p: Pool, step: Step) {
    !p.panicked &&
    match step
    case BeginSubmit(_) => !Closed(p)
    case Send(t) => t in p.submitting && !ClosedChannel(p) && |p.queue| < p.capacity
    case SendOnClosed(t) => t in p.submitting && ClosedChannel(p)
    case GiveUp(t) => t in p.submitting && Cancelled(p)
    case Receive(w) => w < |p.workers| && p.workers[w].Idle? && p.queue != []
    case Finish(w) => w < |p.workers| && p.workers[w].Running?
    case Exit(w) => w < |p.workers| && p.workers[w].Idle? && p.queue == [] && ClosedChannel(p)
    case CallClose => p.closing.NotCalled?
    case CloseChannel => p.closing.Swapped?
    case Cancel => p.closing.ChannelClosed?
    case WaitDone => p.closing.Waiting? && forall w :: 0 <= w < |p.workers| ==> p.workers[w].Exited?
    case TimeOut => p.closing.Waiting?
  }

  function Next(p: Pool, step: Step): Pool
    requires Enabled(p, step)
  {
    match step
    case BeginSubmit(t) => p.(submitting := p.submitting + multiset{t})
    case Send(t) =>
      p.(submitting := p.submitting - multiset{t}, queue := p.queue + [t], accepted := p.accepted + multiset{t})
    case SendOnClosed(t) => p.(panicked := true)
    case GiveUp(t) => p.(submitting := p.submitting - multiset{t})
    case Receive(w) => p.(queue := p.queue[1..], workers := p.workers[w := Running(p.queue[0])])
    case Finish(w) =>
      var t := p.workers[w].task;
      p.(workers := p.workers[w := Idle],
         executed := p.executed + [t],
         err := if t.fails && p.err.None? then Some(t) else p.err)
    case Exit(w) => p.(workers := p.workers[w := Exited])
    case CallClose => p.(closing := Swapped)
    case CloseChannel => p.(closing := ChannelClosed)
    case Cancel => p.(closing := Waiting)
    case WaitDone => p.(closing := Returned(p.err))
    case TimeOut => p.(closing := TimedOut)
  }

  function Apply(p: Pool, step: Step): Pool {
    if Enabled(p, step) then Next(p, step) else p
  }

  function After(p: Pool, steps: seq<Step>): Pool {
    if steps == [] then p else Apply(After(p, steps[..|steps| - 1]), steps[|steps| - 1])
  }

  function Held(w: WorkerState): multiset<Task> {
    if w.Running? then multiset{w.task} else multiset{}
  }

  function RunningTasks(ws: seq<WorkerState>): (m: multiset<Task>) {
    if ws == [] then multiset{} else RunningTasks(ws[..|ws| - 1]) + Held(ws[|ws| - 1])
  }

  lemma AddBoth(a: multiset<Task>, x: multiset<Task>, b: multiset<Task>, y: multiset<Task>, rest: multiset<Task>)
    requires a + x == b + y
    ensures (a + rest) + x == (b + rest) + y
  {
    assert (a + rest) + x == (a + x) + rest;
    assert (b + rest) + y == (b + y) + rest;
  }

  lemma NothingAdded(a: multiset<Task>, b: multiset<Task>, y: multiset<Task>)
    ensures a + multiset{} == b + y ==> a == b + y
    ensures a + y == b + multiset{} ==> b == a + y
    ensures b + multiset{} == b
  {
  }

  lemma Swap(a: multiset<Task>, x: multiset<Task>, y: multiset<Task>)
    ensures (a + x) + y == (a + y) + x
  {
  }

  lemma {:induction false} RunningUpdate(ws: seq<WorkerState>, k: nat, w: WorkerState)
    requires k < |ws|
    ensures RunningTasks(ws[k := w]) + Held(ws[k]) == RunningTasks(ws) + Held(w)
  {
    hide Held;
    var n := |ws| - 1;
    if k < n {
      RunningUpdate(ws[..n], k, w);
      assert ws[k := w][..n] == ws[..n][k := w];
      AddBoth(RunningTasks(ws[k := w][..n]), Held(ws[k]), RunningTasks(ws[..n]), Held(w), Held(ws[n]));
    } else {
      assert ws[k := w][..n] == ws[..n];
      Swap(RunningTasks(ws[..n]), Held(w), Held(ws[n]));
    }
  }

  /** The first task of a completed sequence that failed. */
  function FirstFailure(done: seq<Task>): (r: Option<Task>)
    ensures r.None? <==> forall t :: t in done ==> !t.fails
    ensures r.Some? ==> exists i :: 0 <= i < |done| && done[i] == r.value && r.value.fails
                          && forall j :: 0 <= j < i ==> !done[j].fails
  {
    if done == [] then None
    else
      var before := FirstFailure(done[..|done| - 1]);
      if before.Some? then before
      else if done[|done| - 1].fails then Some(done[|done| - 1]) else None
  }

  /** Accepted tasks are queued, running or executed, each as often as it was accepted; the queue
      keeps within its capacity; p.err is the first failure. */
  ghost predicate Inv(p: Pool) {
    && p.accepted == multiset(p.queue) + RunningTasks(p.workers) + multiset(p.executed)
    && |p.queue| <= p.capacity
    && p.err == FirstFailure(p.executed)
    && ((exists w :: 0 <= w < |p.workers| && p.workers[w].Exited?) ==> ClosedChannel(p) && p.queue == [])
    && (p.closing.Returned? ==>
          p.closing.err == p.err && forall w :: 0 <= w < |p.workers| ==> p.workers[w].Exited?)
  }

  lemma QueueTail(q: seq<Task>)
    requires q != []
    ensures multiset(q) == multiset{q[0]} + multiset(q[1..])
  {
    assert q == [q[0]] + q[1..];
  }

  lemma FirstFailureSnoc(done: seq<Task>, t: Task)
    ensures FirstFailure(done + [t]) ==
            if FirstFailure(done).Some? then FirstFailure(done) else if t.fails then Some(t) else None
  {
  }

  /** a + b + c with x moved from one part to another, or added to the first. */
  lemma Shuffle(a: multiset<Task>, b: multiset<Task>, c: multiset<Task>, x: multiset<Task>)
    ensures (x + a) + b + c == a + (b + x) + c
    ensures a + (b + x) + c == a + b + (c + x)
    ensures (a + b + c) + x == (a + x) + b + c
  {
  }

  lemma SendKeeps(p: Pool, t: Task)
    requires Inv(p) && Enabled(p, Send(t))
    ensures Inv(Next(p, Send(t)))
  {
  }

  lemma ReceiveKeeps(p: Pool, w: nat)
    requires Inv(p) && Enabled(p, Receive(w))
    ensures Inv(Next(p, Receive(w)))
  {
    hide RunningTasks, FirstFailure;
    var first := multiset{p.queue[0]};
    RunningUpdate(p.workers, w, Running(p.queue[0]));
    QueueTail(p.queue);
    NothingAdded(RunningTasks(Next(p, Receive(w)).workers), RunningTasks(p.workers), first);
    Shuffle(multiset(p.queue[1..]), RunningTasks(p.workers), multiset(p.executed), first);
  }

  /** A task that finishes moves from the running to the executed ones. */
  lemma FinishMoves(p: Pool, w: nat)
    requires w < |p.workers| && p.workers[w].Running?
    ensures multiset(p.queue) + RunningTasks(p.workers) + multiset(p.executed) ==
            multiset(p.queue) + RunningTasks(p.workers[w := Idle]) + multiset(p.executed + [p.workers[w].task])
  {
    hide RunningTasks;
    var t := p.workers[w].task;
    var rest := RunningTasks(p.workers[w := Idle]);
    RunningUpdate(p.workers, w, Idle);
    NothingAdded(rest, RunningTasks(p.workers), multiset{t});
    Shuffle(multiset(p.queue), rest, multiset(p.executed), multiset{t});
  }

  lemma FinishKeeps(p: Pool, w: nat)
    requires Inv(p) && Enabled(p, Finish(w))
    ensures Inv(Next(p, Finish(w)))
  {
    hide RunningTasks, FirstFailure;
    FinishMoves(p, w);
    FirstFailureSnoc(p.executed, p.workers[w].task);
  }

  lemma ExitKeeps(p: Pool, w: nat)
    requires Inv(p) && Enabled(p, Exit(w))
    ensures Inv(Next(p, Exit(w)))
  {
    hide RunningTasks, FirstFailure;
    RunningUpdate(p.workers, w, Exited);
    var after, before := RunningTasks(Next(p, Exit(w)).workers), RunningTasks(p.workers);
    NothingAdded(after, before, multiset{});
    assert after == before;
  }

  lemma OtherStepKeeps(p: Pool, step: Step)
    requires Inv(p) && Enabled(p, step) && !step.Send? && !step.Receive? && !step.Finish? && !step.Exit?
    ensures Inv(Next(p, step))
  {
    hide RunningTasks, FirstFailure;
  }

  lemma StepKeeps(p: Pool, step: Step)
    requires Inv(p) && Enabled(p, step)
    ensures Inv(Next(p, step))
  {
    hide Next, Enabled, Inv;
    match step
    case Send(t) => SendKeeps(p, t);
    case Receive(w) => ReceiveKeeps(p, w);
    case Finish(w) => FinishKeeps(p, w);
    case Exit(w) => ExitKeeps(p, w);
    case _ => OtherStepKeeps(p, step);
  }

  lemma {:induction false} NoneRunning(ws: seq<WorkerState>)
    requires forall w :: 0 <= w < |ws| ==> !ws[w].Running?
    ensures RunningTasks(ws) == multiset{}
  {
    if ws != [] {
      NoneRunning(ws[..|ws| - 1]);
    }
  }

  lemma {:induction false} RunsKeep(workers: int, queueSize: int, steps: seq<Step>)
    ensures Inv(After(New(workers, queueSize), steps))
  {
    hide Next, Enabled;
    if steps == [] {
      NoneRunning(New(workers, queueSize).workers);
    } else {
      RunsKeep(workers, queueSize, steps[..|steps| - 1]);
      var p := After(New(workers, queueSize), steps[..|steps| - 1]);
      if Enabled(p, steps[|steps| - 1]) {
        StepKeeps(p, steps[|steps| - 1]);
      }
    }
  }

  /** In every run, with any number of workers: nothing accepted is lost or run twice, and the queue
      never overflows. */
  lemma AcceptedTasksConserved(workers: int, queueSize: int, steps: seq<Step>)
    ensures var p := After(New(workers, queueSize), steps);
            && p.accepted == multiset(p.queue) + RunningTasks(p.workers) + multiset(p.executed)
            && |p.queue| <= p.capacity
  {
    RunsKeep(workers, queueSize, steps);
  }

  lemma SizesKept(p: Pool, step: Step)
    ensures var q := Apply(p, step);
            q.capacity == p.capacity && |q.workers| == |p.workers|
  {
  }

  lemma {:induction false} SizesStay(p: Pool, steps: seq<Step>)
    ensures var q := After(p, steps);
            q.capacity == p.capacity && |q.workers| == |p.workers|
  {
    hide Next, Enabled;
    if steps != [] {
      SizesStay(p, steps[..|steps| - 1]);
      SizesKept(After(p, steps[..|steps| - 1]), steps[|steps| - 1]);
    }
  }

  /** A Close that returns because the workers are done: every accepted task was executed exactly as
      often as it was accepted, and the result is an error exactly when some task failed - the first
      one to fail. */
  lemma CloseDrains(workers: int, queueSize: int, steps: seq<Step>)
    requires After(New(workers, queueSize), steps).closing.Returned?
    ensures var p := After(New(workers, queueSize), steps);
            && multiset(p.executed) == p.accepted
            && p.queue == []
            && p.closing.err == FirstFailure(p.executed)
            && (p.closing.err.Some? <==> exists t :: t in p.executed && t.fails)
  {
    RunsKeep(workers, queueSize, steps);
    var p := After(New(workers, queueSize), steps);
    NoneRunning(p.workers);
    SizesStay(New(workers, queueSize), steps);
    assert p.workers[0].Exited?;
  }

  /** Close has not been called, and the program is running. */
  predicate Open(p: Pool) {
    p.closing.NotCalled? && !p.panicked
  }

  lemma Extend(p: Pool, steps: seq<Step>, step: Step)
    ensures After(p, steps + [step]) == Apply(After(p, steps), step)
  {
    assert (steps + [step])[..|steps|] == steps;
  }

  /** Nothing is queued and no worker is busy. */
  predicate Quiet(p: Pool) {
    p.queue == [] && forall w :: 0 <= w < |p.workers| ==> p.workers[w].Idle?
  }

  /** What is left for the workers: two steps for a queued task, one for a running one. */
  function Left(p: Pool): nat {
    2 * |p.queue| + |RunningTasks(p.workers)|
  }

  lemma OneFewerOrMore(ws: seq<WorkerState>, k: nat, w: WorkerState)
    requires k < |ws|
    ensures |RunningTasks(ws[k := w])| ==
            |RunningTasks(ws)| + (if w.Running? then 1 else 0) - if ws[k].Running? then 1 else 0
  {
    hide RunningTasks;
    RunningUpdate(ws, k, w);
    assert |RunningTasks(ws[k := w]) + Held(ws[k])| == |RunningTasks(ws) + Held(w)|;
  }

  lemma SettleStep(p: Pool) returns (step: Step)
    requires Inv(p) && Open(p) && !Quiet(p) && |p.workers| > 0
    ensures var q := Apply(p, step);
            Open(q) && q.accepted == p.accepted && Left(q) < Left(p)
  {
    hide RunningTasks, FirstFailure;
    if w: nat :| w < |p.workers| && p.workers[w].Running? {
      step := Finish(w);
      OneFewerOrMore(p.workers, w, Idle);
    } else {
      step := Receive(0);
      OneFewerOrMore(p.workers, 0, Running(p.queue[0]));
    }
  }

  /** The workers alone bring an open pool to rest. */
  lemma {:induction false} Settle(workers: int, queueSize: int, steps: seq<Step>) returns (more: seq<Step>)
    requires Open(After(New(workers, queueSize), steps))
    ensures var before, p := After(New(workers, queueSize), steps), After(New(workers, queueSize), steps + more);
            Open(p) && Quiet(p) && p.accepted == before.accepted
    decreases Left(After(New(workers, queueSize), steps))
  {
    var start := New(workers, queueSize);
    RunsKeep(workers, queueSize, steps);
    SizesStay(start, steps);
    hide After, Apply, Inv, Left, Quiet;
    if Quiet(After(start, steps)) {
      more := [];
      assert steps + [] == steps;
    } else {
      var step := SettleStep(After(start, steps));
      Extend(start, steps, step);
      var rest := Settle(workers, queueSize, steps + [step]);
      more := [step] + rest;
      assert steps + more == steps + [step] + rest;
    }
  }

  /** A task has been accepted and executed since, last of all, and nothing accepted is left undone. */
  predicate Served(before: Pool, p: Pool, t: Task) {
    && Open(p)
    && p.accepted == multiset(p.executed) == before.accepted + multiset{t}
    && p.executed != [] && p.executed[|p.executed| - 1] == t
  }

  lemma SubmitOne(p: Pool, t: Task)
    requires Open(p) && p.queue == [] && p.capacity > 0
    ensures var q := Apply(Apply(p, BeginSubmit(t)), Send(t));
            q == p.(queue := [t], accepted := p.accepted + multiset{t},
                    submitting := p.submitting + multiset{t} - multiset{t})
  {
  }

  lemma ServeOne(p: Pool, t: Task)
    requires Open(p) && p.queue == [t] && p.workers != [] && p.workers[0].Idle?
    ensures var q := Apply(Apply(p, Receive(0)), Finish(0));
            Open(q) && q.accepted == p.accepted && q.executed == p.executed + [t]
  {
  }

  lemma AllExecuted(p: Pool)
    requires Inv(p) && Quiet(p)
    ensures p.accepted == multiset(p.executed)
  {
    NoneRunning(p.workers);
    hide RunningTasks, FirstFailure;
  }

  lemma RunTask(p: Pool, t: Task)
    requires Inv(p) && Open(p) && Quiet(p) && |p.workers| > 0 && p.capacity > 0
    ensures Served(p, Apply(Apply(Apply(Apply(p, BeginSubmit(t)), Send(t)), Receive(0)), Finish(0)), t)
  {
    AllExecuted(p);
    hide Inv, Apply;
    SubmitOne(p, t);
    ServeOne(Apply(Apply(p, BeginSubmit(t)), Send(t)), t);
  }

  lemma FourSteps(p: Pool, steps: seq<Step>, a: Step, b: Step, c: Step, d: Step)
    ensures After(p, steps + [a, b, c, d]) == Apply(Apply(Apply(Apply(After(p, steps), a), b), c), d)
  {
    hide After, Apply;
    Extend(p, steps, a);
    Extend(p, steps + [a], b);
    Extend(p, steps + [a] + [b], c);
    Extend(p, steps + [a] + [b] + [c], d);
    assert steps + [a, b, c, d] == steps + [a] + [b] + [c] + [d];
  }

  lemma ServedSince(before: Pool, settled: Pool, p: Pool, t: Task)
    requires settled.accepted == before.accepted && Served(settled, p, t)
    ensures Served(before, p, t)
  {
  }

  /** Whatever sizes were asked for: from every state of a run before Close, one more task can be
      submitted, accepted and executed, and everything accepted before it as well. There is always a
      worker for it and a place in the queue. */
  lemma OneMoreTask(workers: int, queueSize: int, steps: seq<Step>, t: Task) returns (more: seq<Step>)
    requires Open(After(New(workers, queueSize), steps))
    ensures Served(After(New(workers, queueSize), steps), After(New(workers, queueSize), steps + more), t)
  {
    hide After, Apply, Inv, Quiet, New, Open, Served;
    var start := New(workers, queueSize);
    var first := Settle(workers, queueSize, steps);
    RunsKeep(workers, queueSize, steps + first);
    SizesStay(start, steps + first);
    RunTask(After(start, steps + first), t);
    FourSteps(start, steps + first, BeginSubmit(t), Send(t), Receive(0), Finish(0));
    more := first + [BeginSubmit(t), Send(t), Receive(0), Finish(0)];
    assert steps + more == steps + first + [BeginSubmit(t), Send(t), Receive(0), Finish(0)];
    ServedSince(After(start, steps), After(start, steps + first), After(start, steps + more), t);
  }
}
