/** The UDP server's buffer hand-off: one receiver, a pool of reusable buffers, a bounded queue of
    pointers into them, and any number of workers whose packets are slices of the buffer they hold.
    It behaves as if every datagram were copied. */
module ServerBuffers {
  import opened Wrappers
  import opened Bytes
  import opened PacketCodec

  datatype Config = Config(sha: HashFunction, bufSize: nat, queueSize: nat, workers: nat)

  /** Run's loop: about to take a buffer, waiting in ReceiveTo with one, or about to enqueue it. */
  datatype Receiver = Polling | Holding(b: nat) | Filled(b: nat, n: nat)

  datatype Job = Job(b: nat, n: nat)

  /** A parsed Packet: the copied fields, and the lengths of the two slices into the buffer. */
  datatype Slices = Slices(id: uint64, timestamp: int64, checksum: Digest, dataLen: nat, extraLen: nat)

  /** Free; took a job; deserialized it; re-read the data slice in VerifyChecksum. */
  datatype Worker =
    | Free
    | Took(b: nat, n: nat)
    | Parsed(b: nat, n: nat, p: Slices)
    | Judged(b: nat, n: nat, p: Slices, ok: bool)

  datatype State = State(
    mem: map<nat, seq<byte>>,
    pool: set<nat>,
    receiver: Receiver,
    queue: seq<Job>,
    workers: seq<Worker>)

  datatype Step =
    | GetPooled(b: nat)
    | GetNew(b: nat)
    | Collect(b: nat)              // the garbage collector empties the pool
    | Receive(datagram: seq<byte>)
    | ReceiveError
    | Enqueue
    | Discard                       // the queue is full
    | Take(w: nat)
    | ParseJob(w: nat)
    | Verify(w: nat)
    | Finish(w: nat)

  function Init(c: Config): State {
    State(map[], {}, Polling, [], seq(c.workers, _ => Free))
  }

  function Cut(c: Config, d: seq<byte>): (r: seq<byte>)
    ensures |r| <= c.bufSize
  {
    if |d| > c.bufSize then d[..c.bufSize] else d
  }

  predicate Busy(w: Worker) {
    !w.Free?
  }

  /** Packet.Data, read through its slice. */
  function DataSlice(mem: map<nat, seq<byte>>, b: nat, p: Slices): seq<byte>
    requires b in mem && 20 + p.dataLen <= |mem[b]|
  {
    mem[b][20..20 + p.dataLen]
  }

  predicate Enabled(c: Config, s: State, step: Step) {
    match step
    case GetPooled(b) => s.receiver.Polling? && b in s.pool
    case GetNew(b) => s.receiver.Polling? && b !in s.mem
    case Collect(b) => b in s.pool
    case Receive(d) => s.receiver.Holding? && s.receiver.b in s.mem && |s.mem[s.receiver.b]| == c.bufSize
    case ReceiveError => s.receiver.Holding?
    case Enqueue => s.receiver.Filled? && |s.queue| < c.queueSize
    case Discard => s.receiver.Filled? && |s.queue| >= c.queueSize
    case Take(w) => w < |s.workers| && s.workers[w].Free? && s.queue != []
    case ParseJob(w) => w < |s.workers| && s.workers[w].Took? && s.workers[w].b in s.mem
         && s.workers[w].n <= |s.mem[s.workers[w].b]|
    case Verify(w) => w < |s.workers| && s.workers[w].Parsed? && s.workers[w].b in s.mem
                      && 20 + s.workers[w].p.dataLen <= |s.mem[s.workers[w].b]|
    case Finish(w) => w < |s.workers| && (s.workers[w].Parsed? || s.workers[w].Judged?)
  }

  function Next(c: Config, s: State, step: Step): State
    requires Enabled(c, s, step)
  {
    match step
    case GetPooled(b) => s.(pool := s.pool - {b}, receiver := Holding(b))
    case GetNew(b) => s.(mem := s.mem[b := Zeros(c.bufSize)], receiver := Holding(b))
    case Collect(b) => s.(pool := s.pool - {b})
    case Receive(d) =>
      var b, got := s.receiver.b, Cut(c, d);
      s.(mem := s.mem[b := got + s.mem[b][|got|..]], receiver := Filled(b, |got|))
    case ReceiveError => s.(pool := s.pool + {s.receiver.b}, receiver := Polling)
    case Enqueue => s.(queue := s.queue + [Job(s.receiver.b, s.receiver.n)], receiver := Polling)
    case Discard => s.(pool := s.pool + {s.receiver.b}, receiver := Polling)
    case Take(w) => s.(queue := s.queue[1..], workers := s.workers[w := Took(s.queue[0].b, s.queue[0].n)])
    case ParseJob(w) =>
      var b, n := s.workers[w].b, s.workers[w].n;
      var read := Parse(c.sha, s.mem[b][..n]);
      if read.Err? then s.(pool := s.pool + {b}, workers := s.workers[w := Free])
      else
        var p := read.value;
        s.(workers := s.workers[w := Parsed(b, n, Slices(p.id, p.timestamp, p.checksum, |p.data|, |p.extra|))])
    case Verify(w) =>
      var b, n, p := s.workers[w].b, s.workers[w].n, s.workers[w].p;
      s.(workers := s.workers[w := Judged(b, n, p, c.sha(DataSlice(s.mem, b, p)) == p.checksum)])
    case Finish(w) => s.(pool := s.pool + {s.workers[w].b}, workers := s.workers[w := Free])
  }

  function Apply(c: Config, s: State, step: Step): State {
    if Enabled(c, s, step) then Next(c, s, step) else s
  }

  function After(c: Config, steps: seq<Step>): State {
    if steps == [] then Init(c) else Apply(c, After(c, steps[..|steps| - 1]), steps[|steps| - 1])
  }

  // Ownership.

  predicate ReceiverOwns(r: Receiver, b: nat) {
    !r.Polling? && r.b == b
  }

  predicate QueueOwns(queue: seq<Job>, b: nat) {
    exists i :: 0 <= i < |queue| && queue[i].b == b
  }

  predicate WorkerOwns(workers: seq<Worker>, b: nat) {
    exists w :: 0 <= w < |workers| && Busy(workers[w]) && workers[w].b == b
  }

  predicate AllocatedAll(c: Config, s: State) {
    && (forall b :: b in s.mem ==> |s.mem[b]| == c.bufSize)
    && (forall b :: b in s.pool ==> b in s.mem)
    && (!s.receiver.Polling? ==> s.receiver.b in s.mem)
    && (s.receiver.Filled? ==> s.receiver.n <= c.bufSize)
    && (forall i :: 0 <= i < |s.queue| ==> s.queue[i].b in s.mem && s.queue[i].n <= c.bufSize)
    && (forall w :: 0 <= w < |s.workers| && Busy(s.workers[w]) ==>
          s.workers[w].b in s.mem && s.workers[w].n <= c.bufSize)
  }

  /** Each buffer has at most one owner: the pool, the receiver, one queue entry, or one worker. */
  ghost predicate OneOwner(s: State) {
    && (forall i, j :: 0 <= i < j < |s.queue| ==> s.queue[i].b != s.queue[j].b)
    && (forall v, w :: 0 <= v < w < |s.workers| && Busy(s.workers[v]) && Busy(s.workers[w]) ==>
          s.workers[v].b != s.workers[w].b)
    && (forall i, w :: 0 <= i < |s.queue| && 0 <= w < |s.workers| && Busy(s.workers[w]) ==>
          s.queue[i].b != s.workers[w].b)
    && (forall i :: 0 <= i < |s.queue| ==> s.queue[i].b !in s.pool && !ReceiverOwns(s.receiver, s.queue[i].b))
    && (forall w :: 0 <= w < |s.workers| && Busy(s.workers[w]) ==>
          s.workers[w].b !in s.pool && !ReceiverOwns(s.receiver, s.workers[w].b))
    && (!s.receiver.Polling? ==> s.receiver.b !in s.pool)
  }

  lemma StepKeepsAllocation(c: Config, s: State, step: Step)
    requires AllocatedAll(c, s) && Enabled(c, s, step)
    ensures AllocatedAll(c, Next(c, s, step))
  {
    hide Parse;
  }

  lemma ReceiverStepKeepsOwners(c: Config, s: State, step: Step)
    requires AllocatedAll(c, s) && OneOwner(s) && Enabled(c, s, step)
    requires !step.Take? && !step.ParseJob? && !step.Verify? && !step.Finish?
    ensures OneOwner(Next(c, s, step))
  {
  }

  lemma WorkerStepKeepsOwners(c: Config, s: State, step: Step)
    requires OneOwner(s) && Enabled(c, s, step)
    requires step.Take? || step.ParseJob? || step.Verify? || step.Finish?
    ensures OneOwner(Next(c, s, step))
  {
    hide Parse;
  }

  lemma StepKeepsOwners(c: Config, s: State, step: Step)
    requires AllocatedAll(c, s) && OneOwner(s) && Enabled(c, s, step)
    ensures AllocatedAll(c, Next(c, s, step)) && OneOwner(Next(c, s, step))
  {
    StepKeepsAllocation(c, s, step);
    hide Next, AllocatedAll, OneOwner;
    if step.Take? || step.ParseJob? || step.Verify? || step.Finish? {
      WorkerStepKeepsOwners(c, s, step);
    } else {
      ReceiverStepKeepsOwners(c, s, step);
    }
  }

  predicate Owned(s: State, b: nat) {
    b in s.pool || ReceiverOwns(s.receiver, b) || QueueOwns(s.queue, b) || WorkerOwns(s.workers, b)
  }

  lemma QueueOwnersMove(queue: seq<Job>, j: Job, b: nat)
    ensures QueueOwns(queue + [j], b) <==> QueueOwns(queue, b) || j.b == b
    ensures queue != [] ==> (QueueOwns(queue, b) <==> QueueOwns(queue[1..], b) || queue[0].b == b)
  {
    var longer := queue + [j];
    if QueueOwns(queue, b) {
      var i :| 0 <= i < |queue| && queue[i].b == b;
      assert longer[i].b == b;
      assert i > 0 ==> queue[1..][i - 1].b == b;
    }
    assert longer[|queue|] == j;
  }

  lemma WorkerOwnersMove(workers: seq<Worker>, k: nat, w: Worker, b: nat)
    requires k < |workers|
    requires forall v :: 0 <= v < |workers| && v != k && Busy(workers[v]) && Busy(workers[k]) ==>
             workers[v].b != workers[k].b
    ensures WorkerOwns(workers[k := w], b) <==>
            (WorkerOwns(workers, b) && !(Busy(workers[k]) && workers[k].b == b)) || (Busy(w) && w.b == b)
    ensures Busy(workers[k]) ==> WorkerOwns(workers, workers[k].b)
  {
    var after := workers[k := w];
    if WorkerOwns(workers, b) && !(Busy(workers[k]) && workers[k].b == b) {
      var v :| 0 <= v < |workers| && Busy(workers[v]) && workers[v].b == b;
      assert after[v] == workers[v];
    }
    if Busy(w) && w.b == b {
      assert after[k] == w;
    }
  }

  lemma PooledOnly(s: State, b: nat)
    requires OneOwner(s) && b in s.pool
    ensures !ReceiverOwns(s.receiver, b) && !QueueOwns(s.queue, b) && !WorkerOwns(s.workers, b)
  {
  }

  /** No step loses a buffer or makes one up: only the pool's New adds one, and only the garbage
      collector takes one away. */
  lemma BuffersConserved(c: Config, s: State, step: Step)
    requires AllocatedAll(c, s) && OneOwner(s) && Enabled(c, s, step)
    ensures forall b: nat :: Owned(Next(c, s, step), b) <==> (Owned(s, b) && step != Collect(b)) || step == GetNew(b)
  {
    hide Parse, QueueOwns, WorkerOwns;
    var s' := Next(c, s, step);
    forall b: nat
      ensures Owned(s', b) <==> (Owned(s, b) && step != Collect(b)) || step == GetNew(b)
    {
      match step
      case Enqueue =>
        QueueOwnersMove(s.queue, Job(s.receiver.b, s.receiver.n), b);
      case Take(w) =>
        QueueOwnersMove(s.queue, s.queue[0], b);
        WorkerOwnersMove(s.workers, w, s'.workers[w], b);
      case ParseJob(w) =>
        WorkerOwnersMove(s.workers, w, s'.workers[w], b);
      case Verify(w) =>
        WorkerOwnersMove(s.workers, w, s'.workers[w], b);
      case Finish(w) =>
        WorkerOwnersMove(s.workers, w, s'.workers[w], b);
      case Collect(x) =>
        PooledOnly(s, x);
      case _ =>
    }
  }

  // The machine without buffers: datagrams are passed on by value.

  datatype Reader =
    | Idle
    | Has(d: seq<byte>)
    | Read(d: seq<byte>, p: Content)
    | Checked(d: seq<byte>, p: Content, ok: bool)

  datatype Plain = Plain(arrived: Option<seq<byte>>, jobs: seq<seq<byte>>, readers: seq<Reader>)

  /** What a step means for the plain machine; buffer management means nothing to it. */
  function PlainNext(c: Config, a: Plain, step: Step): Plain {
    match step
    case Receive(d) => a.(arrived := Some(Cut(c, d)))
    case Enqueue => if a.arrived.Some? then a.(jobs := a.jobs + [a.arrived.value], arrived := None) else a
    case Discard => a.(arrived := None)
    case Take(w) =>
      if w >= |a.readers| || a.jobs == [] then a
      else a.(jobs := a.jobs[1..], readers := a.readers[w := Has(a.jobs[0])])
    case ParseJob(w) =>
      if w < |a.readers| && a.readers[w].Has? then
        var read := Parse(c.sha, a.readers[w].d);
        a.(readers := a.readers[w := if read.Ok? then Read(a.readers[w].d, read.value) else Idle])
      else a
    case Verify(w) =>
      if w < |a.readers| && a.readers[w].Read? then
        a.(readers := a.readers[w := Checked(a.readers[w].d, a.readers[w].p, ChecksumHolds(c.sha, a.readers[w].p))])
      else a
    case Finish(w) => if w < |a.readers| then a.(readers := a.readers[w := Idle]) else a
    case _ => a
  }

  /** What a buffer currently holds, up to a length (nothing for an unknown buffer). */
  function Holds(mem: map<nat, seq<byte>>, b: nat, n: nat): seq<byte> {
    if b in mem && n <= |mem[b]| then mem[b][..n] else []
  }

  /** The packet a worker sees when it follows its slices now. */
  function Seen(mem: map<nat, seq<byte>>, b: nat, n: nat, p: Slices): Content {
    var s := Holds(mem, b, n);
    if FIXED_SIZE + p.dataLen + p.extraLen <= |s| then
      Content(p.id, p.timestamp, s[20..20 + p.dataLen], p.checksum,
              s[FIXED_SIZE + p.dataLen..FIXED_SIZE + p.dataLen + p.extraLen])
    else Content(p.id, p.timestamp, [], p.checksum, [])
  }

  function Abstract(mem: map<nat, seq<byte>>, w: Worker): Reader {
    match w
    case Free => Idle
    case Took(b, n) => Has(Holds(mem, b, n))
    case Parsed(b, n, p) => Read(Holds(mem, b, n), Seen(mem, b, n, p))
    case Judged(b, n, p, ok) => Checked(Holds(mem, b, n), Seen(mem, b, n, p), ok)
  }

  function Abstraction(s: State): (a: Plain)
    ensures |a.jobs| == |s.queue| && |a.readers| == |s.workers|
    ensures forall i :: 0 <= i < |s.queue| ==> a.jobs[i] == Holds(s.mem, s.queue[i].b, s.queue[i].n)
    ensures forall w :: 0 <= w < |s.workers| ==> a.readers[w] == Abstract(s.mem, s.workers[w])
  {
    Plain(if s.receiver.Filled? then Some(Holds(s.mem, s.receiver.b, s.receiver.n)) else None,
          seq(|s.queue|, i requires 0 <= i < |s.queue| => Holds(s.mem, s.queue[i].b, s.queue[i].n)),
          seq(|s.workers|, w requires 0 <= w < |s.workers| => Abstract(s.mem, s.workers[w])))
  }

  /** A parsed job's slices lie inside the bytes received, which still parse to what they show. */
  predicate SliceSound(c: Config, mem: map<nat, seq<byte>>, w: Worker) {
    w.Parsed? || w.Judged? ==>
      && FIXED_SIZE + w.p.dataLen + w.p.extraLen <= w.n
      && Parse(c.sha, Holds(mem, w.b, w.n)) == Ok(Seen(mem, w.b, w.n, w.p))
      && (w.Judged? ==> w.ok)
  }

  predicate SlicesSound(c: Config, s: State) {
    forall w :: 0 <= w < |s.workers| ==> SliceSound(c, s.mem, s.workers[w])
  }

  lemma ParsedSlices(sha: HashFunction, s: seq<byte>)
    requires Parse(sha, s).Ok?
    ensures var p := Parse(sha, s).value;
            && FIXED_SIZE + |p.data| + |p.extra| <= |s|
            && p.data == s[20..20 + |p.data|]
            && p.extra == s[FIXED_SIZE + |p.data|..FIXED_SIZE + |p.data| + |p.extra|]
  {
  }

  /** Memory is only written by GetNew and Receive, in a buffer the receiver owns: everyone else
      keeps seeing what they saw. */
  lemma OthersUndisturbed(c: Config, s: State, step: Step)
    requires AllocatedAll(c, s) && OneOwner(s) && Enabled(c, s, step)
    ensures var mem' := Next(c, s, step).mem;
            && (forall i :: 0 <= i < |s.queue| ==> s.queue[i].b in mem' && mem'[s.queue[i].b] == s.mem[s.queue[i].b])
            && (forall w :: 0 <= w < |s.workers| && Busy(s.workers[w]) ==>
                  s.workers[w].b in mem' && mem'[s.workers[w].b] == s.mem[s.workers[w].b])
            && (!step.Receive? && !s.receiver.Polling? ==>
                  s.receiver.b in mem' && mem'[s.receiver.b] == s.mem[s.receiver.b])
  {
    hide Parse;
  }

  ghost predicate Inv(c: Config, s: State) {
    AllocatedAll(c, s) && OneOwner(s) && SlicesSound(c, s)
  }

  lemma SameBufferSameView(mem: map<nat, seq<byte>>, mem': map<nat, seq<byte>>, w: Worker)
    requires Busy(w) && w.b in mem && w.b in mem' && mem[w.b] == mem'[w.b]
    ensures Abstract(mem, w) == Abstract(mem', w)
  {
  }

  /** What every holder but the receiver sees is what it saw. */
  lemma SameView(c: Config, s: State, step: Step)
    requires Inv(c, s) && Enabled(c, s, step)
    ensures var mem' := Next(c, s, step).mem;
            && (forall i :: 0 <= i < |s.queue| ==>
                  Holds(mem', s.queue[i].b, s.queue[i].n) == Holds(s.mem, s.queue[i].b, s.queue[i].n))
            && (forall w :: 0 <= w < |s.workers| ==> Abstract(mem', s.workers[w]) == Abstract(s.mem, s.workers[w]))
            && (!step.Receive? && s.receiver.Filled? ==>
                  Holds(mem', s.receiver.b, s.receiver.n) == Holds(s.mem, s.receiver.b, s.receiver.n))
  {
    OthersUndisturbed(c, s, step);
    var mem' := Next(c, s, step).mem;
    hide Next, OneOwner, SlicesSound, Parse;
    forall w | 0 <= w < |s.workers|
      ensures Abstract(mem', s.workers[w]) == Abstract(s.mem, s.workers[w])
    {
      if Busy(s.workers[w]) {
        SameBufferSameView(s.mem, mem', s.workers[w]);
      }
    }
  }

  lemma SliceOfPrefix<T>(s: seq<T>, n: nat, i: nat, j: nat)
    requires i <= j <= n <= |s|
    ensures s[..n][i..j] == s[i..j]
  {
  }

  /** Verifying through the slice compares the hash of the data that was parsed. */
  lemma VerifyAgrees(c: Config, s: State, w: nat)
    requires Inv(c, s) && Enabled(c, s, Verify(w))
    ensures var b, n, p := s.workers[w].b, s.workers[w].n, s.workers[w].p;
            && c.sha(DataSlice(s.mem, b, p)) == p.checksum
            && ChecksumHolds(c.sha, Seen(s.mem, b, n, p))
  {
    hide Parse, OneOwner;
    var b, n, p := s.workers[w].b, s.workers[w].n, s.workers[w].p;
    SliceOfPrefix(s.mem[b], n, 20, 20 + p.dataLen);
  }

  lemma ParsedIsSeen(c: Config, mem: map<nat, seq<byte>>, b: nat, n: nat)
    requires Parse(c.sha, Holds(mem, b, n)).Ok?
    ensures var p := Parse(c.sha, Holds(mem, b, n)).value;
            Seen(mem, b, n, Slices(p.id, p.timestamp, p.checksum, |p.data|, |p.extra|)) == p
  {
  }

  lemma NewSliceSound(c: Config, s: State, step: Step)
    requires Inv(c, s) && Enabled(c, s, step) && (step.ParseJob? || step.Verify?)
    ensures SliceSound(c, s.mem, Next(c, s, step).workers[step.w])
  {
    hide Parse, OneOwner;
    if step.ParseJob? {
      var b, n := s.workers[step.w].b, s.workers[step.w].n;
      if Parse(c.sha, Holds(s.mem, b, n)).Ok? {
        ParsedSlices(c.sha, Holds(s.mem, b, n));
        ParsedIsSeen(c, s.mem, b, n);
      }
    } else {
      assert SliceSound(c, s.mem, s.workers[step.w]);
      VerifyAgrees(c, s, step.w);
    }
  }

  /** The worker whose packet or verdict a step sets, or none. */
  function Reading(s: State, step: Step): nat {
    if step.ParseJob? || step.Verify? then step.w else |s.workers|
  }

  lemma OtherWorkers(c: Config, s: State, step: Step)
    requires Enabled(c, s, step)
    ensures var s' := Next(c, s, step);
            && |s'.workers| == |s.workers|
            && forall w :: 0 <= w < |s.workers| && w != Reading(s, step) ==>
                 s'.workers[w] == s.workers[w] || s'.workers[w].Free? || s'.workers[w].Took?
  {
    hide Parse;
  }

  lemma ReadingKeepsMemory(c: Config, s: State, step: Step)
    requires Enabled(c, s, step) && (step.ParseJob? || step.Verify?)
    ensures Next(c, s, step).mem == s.mem
  {
    hide Parse;
  }

  lemma SoundWhereUnchanged(c: Config, s: State, s': State, changed: nat)
    requires SlicesSound(c, s) && |s'.workers| == |s.workers|
    requires forall w :: 0 <= w < |s.workers| && w != changed ==>
               s'.workers[w] == s.workers[w] || s'.workers[w].Free? || s'.workers[w].Took?
    requires forall w :: 0 <= w < |s.workers| && Busy(s.workers[w]) ==>
               s.workers[w].b in s'.mem && s.workers[w].b in s.mem && s'.mem[s.workers[w].b] == s.mem[s.workers[w].b]
    requires changed < |s'.workers| ==> SliceSound(c, s'.mem, s'.workers[changed])
    ensures SlicesSound(c, s')
  {
    hide Parse;
  }

  lemma SlicesStaySound(c: Config, s: State, step: Step)
    requires Inv(c, s) && Enabled(c, s, step)
    ensures SlicesSound(c, Next(c, s, step))
  {
    hide Next, SliceSound, SlicesSound, Parse;
    OthersUndisturbed(c, s, step);
    OtherWorkers(c, s, step);
    if step.ParseJob? || step.Verify? {
      NewSliceSound(c, s, step);
      ReadingKeepsMemory(c, s, step);
    }
    SoundWhereUnchanged(c, s, Next(c, s, step), Reading(s, step));
  }

  lemma WorkerStepRefines(c: Config, s: State, step: Step)
    requires Inv(c, s) && Enabled(c, s, step) && (step.ParseJob? || step.Verify? || step.Finish?)
    ensures Abstraction(Next(c, s, step)) == PlainNext(c, Abstraction(s), step)
  {
    hide Parse, OneOwner, AllocatedAll, Seen;
    var w := step.w;
    var a', expected := Abstraction(Next(c, s, step)), PlainNext(c, Abstraction(s), step);
    if step.ParseJob? {
      var b, n := s.workers[w].b, s.workers[w].n;
      if Parse(c.sha, Holds(s.mem, b, n)).Ok? {
        ParsedIsSeen(c, s.mem, b, n);
      }
    } else if step.Verify? {
      VerifyAgrees(c, s, w);
    }
    assert a'.readers == expected.readers;
    assert a'.jobs == expected.jobs;
  }

  lemma TakenIsHad(mem: map<nat, seq<byte>>, j: Job)
    ensures Abstract(mem, Took(j.b, j.n)) == Has(Holds(mem, j.b, j.n))
  {
  }

  lemma QueueStepRefines(c: Config, s: State, step: Step)
    requires Inv(c, s) && Enabled(c, s, step) && !step.ParseJob? && !step.Verify? && !step.Finish?
    ensures Abstraction(Next(c, s, step)) == PlainNext(c, Abstraction(s), step)
  {
    SameView(c, s, step);
    hide Parse, OneOwner, Abstract, SlicesSound;
    var a', expected := Abstraction(Next(c, s, step)), PlainNext(c, Abstraction(s), step);
    if step.Take? {
      TakenIsHad(s.mem, s.queue[0]);
    }
    assert a'.readers == expected.readers;
    assert a'.jobs == expected.jobs;
  }

  /** One concrete step is one plain step on what the buffers stand for. */
  lemma StepRefines(c: Config, s: State, step: Step)
    requires Inv(c, s) && Enabled(c, s, step)
    ensures Inv(c, Next(c, s, step))
    ensures Abstraction(Next(c, s, step)) == PlainNext(c, Abstraction(s), step)
  {
    hide Next, PlainNext, Abstraction, OneOwner, AllocatedAll, SlicesSound;
    StepKeepsOwners(c, s, step);
    SlicesStaySound(c, s, step);
    if step.ParseJob? || step.Verify? || step.Finish? {
      WorkerStepRefines(c, s, step);
    } else {
      QueueStepRefines(c, s, step);
    }
  }

  /** The steps of a run that took effect. */
  function Effective(c: Config, steps: seq<Step>): seq<Step> {
    if steps == [] then []
    else
      var front, step := steps[..|steps| - 1], steps[|steps| - 1];
      Effective(c, front) + if Enabled(c, After(c, front), step) then [step] else []
  }

  function PlainAfter(c: Config, steps: seq<Step>): Plain {
    if steps == [] then Plain(None, [], seq(c.workers, _ => Idle))
    else PlainNext(c, PlainAfter(c, steps[..|steps| - 1]), steps[|steps| - 1])
  }

  lemma InitRefines(c: Config)
    ensures Inv(c, Init(c)) && Abstraction(Init(c)) == PlainAfter(c, [])
  {
  }

  /** Any number of workers, any interleaving: sharing and reusing buffers cannot be told from
      copying every datagram. Each buffer has one owner throughout. */
  lemma {:induction false} BuffersRefineCopies(c: Config, steps: seq<Step>)
    ensures var s := After(c, steps);
            Inv(c, s) && Abstraction(s) == PlainAfter(c, Effective(c, steps))
  {
    hide Next, PlainNext, Abstraction, Inv, Enabled;
    if steps == [] {
      InitRefines(c);
    } else {
      var front, step := steps[..|steps| - 1], steps[|steps| - 1];
      BuffersRefineCopies(c, front);
      if Enabled(c, After(c, front), step) {
        StepRefines(c, After(c, front), step);
        var e := Effective(c, front);
        assert (e + [step])[..|e|] == e;
      } else {
        assert Effective(c, front) + [] == Effective(c, front);
      }
    }
  }

  predicate HasPacket(s: State, w: nat) {
    w < |s.workers| && (s.workers[w].Parsed? || s.workers[w].Judged?)
  }

  /** The packet as the worker sees it through its slices. */
  function PacketSeen(s: State, w: nat): (Content)
    requires HasPacket(s, w)
  {
    Seen(s.mem, s.workers[w].b, s.workers[w].n, s.workers[w].p)
  }

  lemma StaysPut(c: Config, s: State, step: Step, w: nat)
    requires Inv(c, s) && Enabled(c, s, step) && w < c.workers && step != Finish(w) && HasPacket(s, w)
    ensures var s' := Next(c, s, step);
            HasPacket(s', w) && PacketSeen(s', w) == PacketSeen(s, w) && (s'.workers[w].Judged? ==> s'.workers[w].ok)
  {
    hide Parse;
    OthersUndisturbed(c, s, step);
    SlicesStaySound(c, s, step);
    hide OneOwner, AllocatedAll, Seen;
  }

  lemma JudgedOk(c: Config, s: State, w: nat)
    requires Inv(c, s) && HasPacket(s, w)
    ensures s.workers[w].Judged? ==> s.workers[w].ok
  {
    hide Parse, OneOwner, AllocatedAll, Seen;
  }

  /** A worker that has parsed a packet keeps seeing the same packet, whatever else happens, until it
      finishes; and the checksum re-read through the slice never fails. */
  lemma PacketsStayPut(c: Config, steps: seq<Step>, step: Step, w: nat)
    requires w < c.workers && step != Finish(w)
    requires HasPacket(After(c, steps), w)
    ensures var s, s' := After(c, steps), Apply(c, After(c, steps), step);
            && HasPacket(s', w) && PacketSeen(s', w) == PacketSeen(s, w)
            && (s'.workers[w].Judged? ==> s'.workers[w].ok)
  {
    BuffersRefineCopies(c, steps);
    hide After, Next, Enabled, Inv, HasPacket, PacketSeen;
    var s := After(c, steps);
    if Enabled(c, s, step) {
      StaysPut(c, s, step, w);
    } else {
      JudgedOk(c, s, w);
    }
  }
}
