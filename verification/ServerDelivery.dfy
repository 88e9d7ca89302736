/** What the server's workers get, in terms of the datagrams on the wire: every datagram that enters the
    queue is handed out once, in order of arrival, and whole unless it is longer than a buffer; and no
    party to the hand-off is ever stuck. */
module ServerDelivery {
  import opened Wrappers
  import opened Bytes
  import opened PacketCodec
  import opened ServerBuffers

  /** The datagram received last, those that entered the queue, how many of them were taken, and which one
      each worker took last. */
  datatype History = History(last: seq<byte>, sent: seq<seq<byte>>, taken: nat, job: map<nat, nat>)

  function Recorded(h: History, step: Step): History {
    match step
    case Receive(d) => h.(last := d)
    case Enqueue => h.(sent := h.sent + [h.last])
    case Take(w) => h.(taken := h.taken + 1, job := h.job[w := h.taken])
    case _ => h
  }

  /** The history of a run: the steps of it that took effect. */
  function HistoryOf(c: Config, steps: seq<Step>): History {
    if steps == [] then History([], [], 0, map[])
    else
      var front, step := steps[..|steps| - 1], steps[|steps| - 1];
      var h := HistoryOf(c, front);
      if Enabled(c, After(c, front), step) then Recorded(h, step) else h
  }

  /** What is read of a datagram: all of it, or as much as a buffer holds. */
  predicate AsRead(c: Config, d: seq<byte>, got: seq<byte>) {
    && (|d| <= c.bufSize ==> got == d)
    && (|d| > c.bufSize ==> got == d[..c.bufSize])
  }

  predicate ReaderTracks(c: Config, r: Reader, h: History, w: nat) {
    !r.Idle? ==>
      && w in h.job && h.job[w] < h.taken <= |h.sent| && AsRead(c, h.sent[h.job[w]], r.d)
      && (r.Read? || r.Checked? ==> Parse(c.sha, r.d) == Ok(r.p))
  }

  /** The machine without buffers follows the history. */
  ghost predicate Tracks(c: Config, a: Plain, h: History) {
    && (a.arrived.Some? ==> AsRead(c, h.last, a.arrived.value))
    && h.taken + |a.jobs| == |h.sent|
    && (forall i :: 0 <= i < |a.jobs| ==> AsRead(c, h.sent[h.taken + i], a.jobs[i]))
    && (forall w :: 0 <= w < |a.readers| ==> ReaderTracks(c, a.readers[w], h, w))
    && (forall v, w :: v in h.job && w in h.job && v != w ==> h.job[v] != h.job[w])
    && (forall w :: w in h.job ==> h.job[w] < h.taken)
  }

  lemma TakeTracks(c: Config, a: Plain, w: nat, h: History)
    requires Tracks(c, a, h) && w < |a.readers| && a.jobs != []
    ensures Tracks(c, PlainNext(c, a, Take(w)), Recorded(h, Take(w)))
  {
    hide Parse, AsRead;
    var a', h' := PlainNext(c, a, Take(w)), Recorded(h, Take(w));
    assert AsRead(c, h.sent[h.taken + 0], a.jobs[0]);
    forall i | 0 <= i < |a'.jobs|
      ensures AsRead(c, h'.sent[h'.taken + i], a'.jobs[i])
    {
      assert AsRead(c, h.sent[h.taken + (i + 1)], a.jobs[i + 1]);
    }
  }

  lemma ReceiverTracks(c: Config, a: Plain, step: Step, h: History)
    requires Tracks(c, a, h) && !step.Take? && !step.ParseJob? && !step.Verify? && !step.Finish?
    requires step.Enqueue? ==> a.arrived.Some?
    ensures Tracks(c, PlainNext(c, a, step), Recorded(h, step))
  {
    hide Parse;
  }

  lemma WorkerTracks(c: Config, a: Plain, step: Step, h: History)
    requires Tracks(c, a, h) && (step.ParseJob? || step.Verify? || step.Finish?)
    ensures Tracks(c, PlainNext(c, a, step), Recorded(h, step))
  {
    hide Parse, AsRead;
  }

  lemma StepTracks(c: Config, s: State, step: Step, h: History)
    requires Enabled(c, s, step) && Tracks(c, Abstraction(s), h)
    ensures Tracks(c, PlainNext(c, Abstraction(s), step), Recorded(h, step))
  {
    hide Parse, Abstract, Holds, Tracks, PlainNext, Recorded;
    match step
    case Take(w) => TakeTracks(c, Abstraction(s), w, h);
    case ParseJob(_) => WorkerTracks(c, Abstraction(s), step, h);
    case Verify(_) => WorkerTracks(c, Abstraction(s), step, h);
    case Finish(_) => WorkerTracks(c, Abstraction(s), step, h);
    case _ => ReceiverTracks(c, Abstraction(s), step, h);
  }

  lemma InitTracks(c: Config)
    ensures Tracks(c, Abstraction(Init(c)), History([], [], 0, map[]))
  {
  }

  lemma {:induction false} RunTracks(c: Config, steps: seq<Step>)
    ensures Tracks(c, Abstraction(After(c, steps)), HistoryOf(c, steps))
  {
    hide Next, PlainNext, Abstraction, Inv, Enabled, Tracks;
    if steps == [] {
      InitTracks(c);
    } else {
      var front, step := steps[..|steps| - 1], steps[|steps| - 1];
      RunTracks(c, front);
      BuffersRefineCopies(c, front);
      if Enabled(c, After(c, front), step) {
        StepRefines(c, After(c, front), step);
        StepTracks(c, After(c, front), step, HistoryOf(c, front));
      }
    }
  }

  /** The bytes that a busy worker's buffer holds for it. */
  function JobBytes(s: State, w: nat): seq<byte>
    requires w < |s.workers| && Busy(s.workers[w])
  {
    Holds(s.mem, s.workers[w].b, s.workers[w].n)
  }

  lemma WorkerView(s: State, w: nat)
    requires w < |s.workers| && Busy(s.workers[w])
    ensures var r := Abstraction(s).readers[w];
            && !r.Idle? && r.d == JobBytes(s, w)
            && (HasPacket(s, w) ==> (r.Read? || r.Checked?) && r.p == PacketSeen(s, w))
  {
  }

  /** In every run: the queue holds the datagrams that entered it and were not taken yet, in order; each busy
      worker has one of those taken, no two of them the same; and the packet it sees is the one parsed
      from that datagram. */
  lemma DatagramsDelivered(c: Config, steps: seq<Step>)
    ensures var s, h := After(c, steps), HistoryOf(c, steps);
            && h.taken + |s.queue| == |h.sent|
            && (forall i :: 0 <= i < |s.queue| ==>
                  AsRead(c, h.sent[h.taken + i], Holds(s.mem, s.queue[i].b, s.queue[i].n)))
            && (forall w :: 0 <= w < |s.workers| && Busy(s.workers[w]) ==>
                  && w in h.job && h.job[w] < h.taken
                  && AsRead(c, h.sent[h.job[w]], JobBytes(s, w))
                  && (HasPacket(s, w) ==> Parse(c.sha, JobBytes(s, w)) == Ok(PacketSeen(s, w))))
            && (forall v, w :: v in h.job && w in h.job && v != w ==> h.job[v] != h.job[w])
  {
    RunTracks(c, steps);
    hide After, HistoryOf, Parse, Abstract, Holds, HasPacket, PacketSeen, JobBytes;
    var s, h := After(c, steps), HistoryOf(c, steps);
    forall w | 0 <= w < |s.workers| && Busy(s.workers[w])
      ensures w in h.job && h.job[w] < h.taken && AsRead(c, h.sent[h.job[w]], JobBytes(s, w))
      ensures HasPacket(s, w) ==> Parse(c.sha, JobBytes(s, w)) == Ok(PacketSeen(s, w))
    {
      WorkerView(s, w);
      assert ReaderTracks(c, Abstraction(s).readers[w], h, w);
    }
  }

  lemma SizesStay(c: Config, s: State, step: Step)
    requires Enabled(c, s, step) && |s.queue| <= c.queueSize
    ensures |Next(c, s, step).queue| <= c.queueSize && |Next(c, s, step).workers| == |s.workers|
  {
    hide Parse;
  }

  lemma {:induction false} SizesKept(c: Config, steps: seq<Step>)
    ensures |After(c, steps).queue| <= c.queueSize && |After(c, steps).workers| == c.workers
  {
    hide Enabled, Next;
    if steps != [] {
      var front, step := steps[..|steps| - 1], steps[|steps| - 1];
      SizesKept(c, front);
      if Enabled(c, After(c, front), step) {
        SizesStay(c, After(c, front), step);
      }
    }
  }

  /** In every run the receiver can take its next step: with any buffer of the pool or a new one, with any
      datagram, and then into the queue if that has room and past it if not. */
  lemma ReceiverIsNeverStuck(c: Config, steps: seq<Step>, b: nat, d: seq<byte>)
    ensures var s := After(c, steps);
            && (s.receiver.Polling? && b in s.pool ==> Enabled(c, s, GetPooled(b)))
            && (s.receiver.Polling? && b !in s.mem ==> Enabled(c, s, GetNew(b)))
            && (s.receiver.Holding? ==> Enabled(c, s, Receive(d)) && Enabled(c, s, ReceiveError))
            && (s.receiver.Filled? ==>
                  |s.queue| <= c.queueSize
                  && Enabled(c, s, if |s.queue| < c.queueSize then Enqueue else Discard))
  {
    BuffersRefineCopies(c, steps);
    SizesKept(c, steps);
    hide After, Parse, Next, OneOwner, SlicesSound, Abstraction, PlainAfter;
  }

  lemma WorkerCanGoOn(c: Config, s: State, w: nat)
    requires Inv(c, s) && w < |s.workers|
    ensures s.workers[w].Free? && s.queue != [] ==> Enabled(c, s, Take(w))
    ensures s.workers[w].Took? ==> Enabled(c, s, ParseJob(w))
    ensures s.workers[w].Parsed? ==> Enabled(c, s, Verify(w))
    ensures s.workers[w].Parsed? || s.workers[w].Judged? ==> Enabled(c, s, Finish(w))
  {
    hide Parse, Next, OneOwner, Seen;
    assert SliceSound(c, s.mem, s.workers[w]);
  }

  /** In every run each worker can take its next step: the oldest job, and with that through to its end. */
  lemma WorkersAreNeverStuck(c: Config, steps: seq<Step>, w: nat)
    requires w < c.workers
    ensures var s := After(c, steps);
            && |s.workers| == c.workers
            && (s.workers[w].Free? && s.queue != [] ==> Enabled(c, s, Take(w)))
            && (s.workers[w].Took? ==> Enabled(c, s, ParseJob(w)))
            && (s.workers[w].Parsed? ==> Enabled(c, s, Verify(w)))
            && (s.workers[w].Parsed? || s.workers[w].Judged? ==> Enabled(c, s, Finish(w)))
  {
    BuffersRefineCopies(c, steps);
    SizesKept(c, steps);
    hide After, Enabled, Inv, Abstraction, PlainAfter;
    WorkerCanGoOn(c, After(c, steps), w);
  }

  lemma ParsesJob(c: Config, s: State, w: nat)
    requires Inv(c, s) && Enabled(c, s, ParseJob(w))
    ensures var s' := Next(c, s, ParseJob(w));
            && |s'.workers| == |s.workers|
            && match Parse(c.sha, JobBytes(s, w))
               case Ok(p) => HasPacket(s', w) && PacketSeen(s', w) == p
               case Err(_) => s'.workers[w].Free?
  {
    hide Parse, OneOwner;
    var b, n := s.workers[w].b, s.workers[w].n;
    if Parse(c.sha, Holds(s.mem, b, n)).Ok? {
      ParsedIsSeen(c, s.mem, b, n);
    }
  }

  /** A worker that took a datagram gets the packet in it, or is free again if there is none. */
  lemma TakenIsParsed(c: Config, steps: seq<Step>, w: nat)
    requires w < c.workers && w < |After(c, steps).workers| && After(c, steps).workers[w].Took?
    ensures var h, s' := HistoryOf(c, steps), After(c, steps + [ParseJob(w)]);
            && w in h.job && h.job[w] < |h.sent|
            && var d := h.sent[h.job[w]];
               && w < |s'.workers|
               && (|d| <= c.bufSize ==>
                     match Parse(c.sha, d)
                     case Ok(p) => HasPacket(s', w) && PacketSeen(s', w) == p
                     case Err(_) => s'.workers[w].Free?)
  {
    DatagramsDelivered(c, steps);
    WorkersAreNeverStuck(c, steps, w);
    BuffersRefineCopies(c, steps);
    var s := After(c, steps);
    assert (steps + [ParseJob(w)])[..|steps|] == steps;
    ParsesJob(c, s, w);
  }

  /** A datagram received into a new buffer, queued, and taken by a free worker. */
  function HandedOver(c: Config, s: State, b: nat, d: seq<byte>, w: nat): State {
    Apply(c, Apply(c, Apply(c, Apply(c, s, GetNew(b)), Receive(d)), Enqueue), Take(w))
  }

  lemma HandsOver(c: Config, s: State, b: nat, d: seq<byte>, w: nat)
    requires s.receiver.Polling? && s.queue == [] && 0 < c.queueSize && b !in s.mem && |d| <= c.bufSize
    requires w < |s.workers| && s.workers[w].Free?
    ensures var t := HandedOver(c, s, b, d, w);
            && t == s.(mem := t.mem, workers := s.workers[w := Took(b, |d|)])
            && b in t.mem && |t.mem[b]| == c.bufSize && t.mem[b][..|d|] == d
  {
    var held := Apply(c, s, GetNew(b));
    assert held == s.(mem := s.mem[b := Zeros(c.bufSize)], receiver := Holding(b));
    var filled := Apply(c, held, Receive(d));
    assert filled.receiver == Filled(b, |d|) && filled.mem[b] == d + held.mem[b][|d|..];
    var queued := Apply(c, filled, Enqueue);
    assert queued == s.(mem := filled.mem, queue := [Job(b, |d|)]);
  }

  /** A job that holds no packet ends at once; one that does is parsed. */
  lemma ParsesDatagram(c: Config, s: State, w: nat, b: nat, d: seq<byte>)
    requires w < |s.workers| && s.workers[w] == Took(b, |d|)
    requires b in s.mem && |s.mem[b]| >= |d| && s.mem[b][..|d|] == d
    ensures var t := Apply(c, s, ParseJob(w));
            match Parse(c.sha, d)
            case Err(_) => t == s.(workers := s.workers[w := Free], pool := s.pool + {b})
            case Ok(p) =>
              && t == s.(workers := t.workers) && |t.workers| == |s.workers|
              && t.workers == s.workers[w := t.workers[w]] && t.workers[w].Parsed? && t.workers[w].b == b
              && t.workers[w].p == Slices(p.id, p.timestamp, p.checksum, |p.data|, |p.extra|)
              && HasPacket(t, w) && PacketSeen(t, w) == p
  {
    hide Parse;
    assert Holds(s.mem, b, |d|) == d;
    if Parse(c.sha, d).Ok? {
      ParsedIsSeen(c, s.mem, b, |d|);
    }
  }

  /** A parsed packet passes its second check, and its buffer goes back to the pool. */
  lemma JudgesAndFinishes(c: Config, s: State, w: nat, d: seq<byte>)
    requires Parse(c.sha, d).Ok?
    requires w < |s.workers| && s.workers[w].Parsed? && s.workers[w].b in s.mem
    requires var p := Parse(c.sha, d).value;
             s.workers[w].p == Slices(p.id, p.timestamp, p.checksum, |p.data|, |p.extra|)
    requires |s.mem[s.workers[w].b]| >= |d| && s.mem[s.workers[w].b][..|d|] == d
    ensures var judged := Apply(c, s, Verify(w));
            && |judged.workers| == |s.workers| && judged.workers[w].Judged? && judged.workers[w].ok
            && Apply(c, judged, Finish(w)) ==
               s.(workers := s.workers[w := Free], pool := s.pool + {s.workers[w].b})
  {
    ParsedSlices(c.sha, d);
    hide Parse;
    var p := Parse(c.sha, d).value;
    SliceOfPrefix(s.mem[s.workers[w].b], |d|, 20, 20 + |p.data|);
    assert s.workers[w := Apply(c, s, Verify(w)).workers[w]][w := Free] == s.workers[w := Free];
  }

  /** Whenever the receiver is free, the queue empty and a worker free, any datagram that fits a buffer gets
      through to that worker: it sees the packet in it, finds its checksum right, and gives the buffer back -
      at once if there is no packet in it. */
  lemma OneMoreDatagram(c: Config, s: State, b: nat, d: seq<byte>, w: nat)
    requires s.receiver.Polling? && s.queue == [] && 0 < c.queueSize && b !in s.mem && |d| <= c.bufSize
    requires w < |s.workers| && s.workers[w].Free?
    ensures var t := Apply(c, HandedOver(c, s, b, d, w), ParseJob(w));
            match Parse(c.sha, d)
            case Err(_) => t.workers == s.workers && t.pool == s.pool + {b}
            case Ok(p) =>
              && HasPacket(t, w) && PacketSeen(t, w) == p
              && var judged := Apply(c, t, Verify(w));
                 && w < |judged.workers| && judged.workers[w].Judged? && judged.workers[w].ok
                 && Apply(c, judged, Finish(w)).workers == s.workers
                 && Apply(c, judged, Finish(w)).pool == s.pool + {b}
  {
    HandsOver(c, s, b, d, w);
    hide HandedOver, Parse, Apply, HasPacket, PacketSeen;
    var t := HandedOver(c, s, b, d, w);
    ParsesDatagram(c, t, w, b, d);
    if Parse(c.sha, d).Ok? {
      JudgesAndFinishes(c, Apply(c, t, ParseJob(w)), w, d);
      var p := Apply(c, t, ParseJob(w)).workers[w];
      assert s.workers[w := Took(b, |d|)][w := p][w := Free] == s.workers;
    } else {
      assert s.workers[w := Took(b, |d|)][w := Free] == s.workers;
    }
  }
}
