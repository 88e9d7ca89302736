/** Deduplication at the server. Get and Set on the dedup cache are two critical sections and its entries
    expire, so an ID can get past it twice. When exactly that happens is stated here for every run. */
module ProtocolDedup {
  import opened PacketCodec
  import opened CacheSpec
  import opened Order
  import opened Protocol
  import opened ProtocolInvariants
  import ProtocolServer

  /** A worker past its lookup and not yet at its insert. */
  predicate Handling(w: Worker) {
    w.Missed? || w.Marked?
  }

  /** The ID has got past a lookup before: a worker is on its way to insert it, or it has been inserted. */
  predicate GotPast(server: Server, id: nat) {
    || (exists k :: 0 <= k < |server.workers| && Handling(server.workers[k]) && server.workers[k].p.id == id)
    || Logged(server.log, id)
  }

  /** No ID has got past the cache twice. */
  ghost predicate OnceInv(server: Server) {
    && (forall j, k :: 0 <= j < k < |server.workers| && Handling(server.workers[j]) && Handling(server.workers[k]) ==>
          server.workers[j].p.id != server.workers[k].p.id)
    && (forall i, k :: 0 <= i < |server.log| && 0 <= k < |server.workers| && Handling(server.workers[k]) ==>
          server.log[i].p.id != server.workers[k].p.id)
    && (forall i, j :: 0 <= i < j < |server.log| ==> server.log[i].p.id != server.log[j].p.id)
  }

  /** A lookup that lets through an ID that has got past before. */
  predicate SlipsThrough(c: Config, s: State, step: Step) {
    step.DedupGet? && Enabled(c, s, step) &&
    var id: nat := s.server.workers[step.k].p.id;
    GotPast(s.server, id) && CacheSpec.Get<nat, ()>(s.server.dedup, id, s.now).1.None?
  }

  lemma LookupStep(c: Config, s: State, k: nat)
    requires OnceInv(s.server) && Enabled(c, s, DedupGet(k))
    ensures OnceInv(Next(c, s, DedupGet(k)).server) <==> !SlipsThrough(c, s, DedupGet(k))
  {
    hide CacheSpec.Get;
    var id: nat := s.server.workers[k].p.id;
    var server, server' := s.server, Next(c, s, DedupGet(k)).server;
    if CacheSpec.Get<nat, ()>(server.dedup, id, s.now).1.None? {
      assert Handling(server'.workers[k]) && server'.workers[k].p.id == id && server'.log == server.log;
      if j :| 0 <= j < |server.workers| && Handling(server.workers[j]) && server.workers[j].p.id == id {
        assert server'.workers[j] == server.workers[j];
      } else if i :| 0 <= i < |server.log| && server.log[i].p.id == id {
        assert server'.log[i].p.id == server'.workers[k].p.id;
      }
    }
  }

  lemma InsertOnce(c: Config, s: State, k: nat)
    requires OnceInv(s.server) && Enabled(c, s, ServerInsert(k))
    ensures OnceInv(Next(c, s, ServerInsert(k)).server)
  {
    hide InsertInto;
  }

  lemma OtherSteps(c: Config, s: State, step: Step)
    requires OnceInv(s.server) && Enabled(c, s, step) && !step.DedupGet?
    ensures OnceInv(Next(c, s, step).server)
  {
    hide InsertInto, Put, Parse, Delivered;
    if step.ServerInsert? {
      InsertOnce(c, s, step.k);
    }
  }

  lemma NoLookupNoSlip(c: Config, s: State, step: Step)
    ensures !step.DedupGet? || !Enabled(c, s, step) ==> !SlipsThrough(c, s, step)
  {
  }

  /** The exact condition for one attempt. */
  lemma AttemptOnceIff(c: Config, s: State, step: Step)
    requires OnceInv(s.server)
    ensures OnceInv(Apply(c, s, step).server) <==> !SlipsThrough(c, s, step)
  {
    hide OnceInv, Next, SlipsThrough;
    NoLookupNoSlip(c, s, step);
    if Enabled(c, s, step) {
      if step.DedupGet? {
        LookupStep(c, s, step.k);
      } else {
        OtherSteps(c, s, step);
      }
    }
  }

  /** At no point of the run has an ID got past the cache twice. */
  ghost predicate OnceThroughout(c: Config, steps: seq<Step>) {
    forall n: nat :: n <= |steps| ==> OnceInv(After(c, steps[..n]).server)
  }

  /** Every lookup of an ID that got past before finds it. */
  predicate NothingSlips(c: Config, steps: seq<Step>) {
    forall i: nat :: i < |steps| ==> !SlipsThrough(c, After(c, steps[..i]), steps[i])
  }

  lemma InitOnce(c: Config)
    ensures OnceInv(Init(c).server)
  {
  }

  /** The exact condition for whole runs. */
  lemma {:induction false} RunOnceIff(c: Config, steps: seq<Step>)
    ensures OnceThroughout(c, steps) <==> NothingSlips(c, steps)
  {
    hide OnceInv, SlipsThrough, Apply;
    assert steps[..|steps|] == steps;
    if steps == [] {
      InitOnce(c);
    } else {
      var front, step := steps[..|steps| - 1], steps[|steps| - 1];
      assert forall i: nat :: i <= |front| ==> front[..i] == steps[..i];
      assert front[..|front|] == front;
      RunOnceIff(c, front);
      assert OnceThroughout(c, steps) <==> OnceThroughout(c, front) && OnceInv(After(c, steps).server);
      assert NothingSlips(c, steps) <==> NothingSlips(c, front) && !SlipsThrough(c, After(c, front), step);
      if OnceInv(After(c, front).server) {
        AttemptOnceIff(c, After(c, front), step);
      }
    }
  }

  lemma SetAndInsert(c: Config, s: State, k: nat)
    requires k < |s.server.workers| && Handling(s.server.workers[k])
    ensures var w, done := s.server.workers[k], Apply(c, Apply(c, s, DedupSet(k)), ServerInsert(k));
            var (released, ob) := InsertInto<nat>(s.server.ob, w.p.id, w.p.id);
            && done.server.ob == ob && done.acks == s.acks
            && done.server.log == s.server.log + [LogEntry(w.p, w.ok, released != [])]
            && done.server.workers ==
               s.server.workers[k := if released != [] then Wedged(w.p.id) else Acking(w.p.id, w.ok)]
  {
    hide InsertInto, Put;
    var ws, w := s.server.workers, s.server.workers[k];
    assert ws[k := Marked(w.p, w.ok)][k := Wedged(w.p.id)] == ws[k := Wedged(w.p.id)];
    assert ws[k := Marked(w.p, w.ok)][k := Acking(w.p.id, w.ok)] == ws[k := Acking(w.p.id, w.ok)];
  }

  /** What it means to have got past twice: two workers on their way with the same ID both insert it, and
      the second, releasing nothing, goes on to acknowledge it. */
  lemma RaceInsertsTwice(c: Config, s: State, j: nat, k: nat)
    requires j < |s.server.workers| && k < |s.server.workers| && j != k
    requires Handling(s.server.workers[j]) && Handling(s.server.workers[k])
    requires s.server.workers[j].p.id == s.server.workers[k].p.id && Settled(s.server.ob)
    ensures var id := s.server.workers[j].p.id;
            var done := Apply(c, Apply(c, Apply(c, Apply(c, s, DedupSet(j)), ServerInsert(j)), DedupSet(k)),
                ServerInsert(k));
            && |done.server.log| == |s.server.log| + 2
            && done.server.log[|s.server.log|].p.id == done.server.log[|s.server.log| + 1].p.id == id
            && |done.server.workers| == |s.server.workers| && done.acks == s.acks
            && done.server.workers[k] == Acking(id, s.server.workers[k].ok)
  {
    hide InsertInto, Put, Apply;
    var id := s.server.workers[j].p.id;
    SetAndInsert(c, s, j);
    var s1 := Apply(c, Apply(c, s, DedupSet(j)), ServerInsert(j));
    SetAndInsert(c, s1, k);
    InsertStep<nat>(s.server.ob, id, id);
    InsertStep<nat>(s1.server.ob, id, id);
  }

  // Why a lookup lets an ID through again.

  predicate Remembered(dedup: seq<Entry<nat, ()>>, id: nat) {
    exists e :: e in dedup && e.key == id
  }

  /** An ID is in the cache from its worker's Set on, and not before. */
  ghost predicate CacheInv(server: Server) {
    && UniqueKeys(server.dedup)
    && (forall k :: 0 <= k < |server.workers| && server.workers[k].Missed? ==>
          !Remembered(server.dedup, server.workers[k].p.id))
    && (forall k :: 0 <= k < |server.workers| && server.workers[k].Marked? ==>
          Remembered(server.dedup, server.workers[k].p.id))
    && (forall i :: 0 <= i < |server.log| ==> Remembered(server.dedup, server.log[i].p.id))
  }

  lemma LookupForgets(dedup: seq<Entry<nat, ()>>, id: nat, now: int)
    requires UniqueKeys(dedup)
    ensures var (after, hit) := CacheSpec.Get<nat, ()>(dedup, id, now);
            && UniqueKeys(after)
            && (hit.Some? ==> after == dedup)
            && (hit.None? ==> !Remembered(after, id))
            && (forall x: nat :: x != id ==> (Remembered(after, x) <==> Remembered(dedup, x)))
            && (hit.None? <==> forall e :: e in dedup && e.key == id ==> Expired(e, now))
  {
    var i := Find(dedup, id);
    if i < |dedup| {
      RemoveAtKeeps(dedup, i);
      assert dedup[i] in dedup;
      forall e | e in dedup && e.key == id
        ensures e == dedup[i]
      {
        var j :| 0 <= j < |dedup| && dedup[j] == e;
      }
    }
  }

  lemma SetRemembers(dedup: seq<Entry<nat, ()>>, id: nat, expiresAt: int)
    requires UniqueKeys(dedup)
    ensures var after := Put<nat, ()>(dedup, id, (), expiresAt);
            UniqueKeys(after) && forall x: nat :: Remembered(after, x) <==> Remembered(dedup, x) || x == id
  {
    PutKeeps<nat, ()>(dedup, id, (), expiresAt);
    hide Put, UniqueKeys;
    var after, added := Put<nat, ()>(dedup, id, (), expiresAt), Entry<nat, ()>.Entry(id, (), expiresAt);
    assert added in after && added.key == id;
    forall x: nat | Remembered(dedup, x) && x != id
      ensures Remembered(after, x)
    {
      var e :| e in dedup && e.key == x;
      assert e in after;
    }
    forall x: nat | Remembered(after, x) && x != id
      ensures Remembered(dedup, x)
    {
      var e :| e in after && e.key == x;
      assert e in dedup;
    }
  }

  lemma LookupKeepsCache(c: Config, s: State, k: nat)
    requires CacheInv(s.server) && Enabled(c, s, DedupGet(k)) && !SlipsThrough(c, s, DedupGet(k))
    ensures CacheInv(Next(c, s, DedupGet(k)).server)
  {
    hide CacheSpec.Get, Remembered, UniqueKeys;
    var server, id: nat := s.server, s.server.workers[k].p.id;
    LookupForgets(server.dedup, id, s.now);
    if CacheSpec.Get<nat, ()>(server.dedup, id, s.now).1.None? {
      assert forall j :: 0 <= j < |server.workers| && Handling(server.workers[j]) ==> server.workers[j].p.id != id;
      assert forall i :: 0 <= i < |server.log| ==> server.log[i].p.id != id;
    }
  }

  lemma SetKeepsCache(c: Config, s: State, k: nat)
    requires CacheInv(s.server) && OnceInv(s.server) && Enabled(c, s, DedupSet(k))
    ensures CacheInv(Next(c, s, DedupSet(k)).server)
  {
    hide Put, Remembered, UniqueKeys;
    SetRemembers(s.server.dedup, s.server.workers[k].p.id, s.now + c.dedupTTL);
  }

  lemma OtherStepsKeepCache(c: Config, s: State, step: Step)
    requires CacheInv(s.server) && Enabled(c, s, step) && !step.DedupGet? && !step.DedupSet?
    ensures CacheInv(Next(c, s, step).server)
  {
    hide InsertInto, Parse, Delivered, Remembered, UniqueKeys;
  }

  lemma InitCache(c: Config)
    ensures CacheInv(Init(c).server)
  {
  }

  lemma {:induction false} RunsKeepCache(c: Config, steps: seq<Step>)
    requires NothingSlips(c, steps)
    ensures CacheInv(After(c, steps).server)
  {
    hide Next, Enabled, SlipsThrough, CacheInv, OnceInv;
    if steps == [] {
      InitCache(c);
    } else {
      var front, step := steps[..|steps| - 1], steps[|steps| - 1];
      var s := After(c, front);
      assert forall i: nat :: i <= |front| ==> front[..i] == steps[..i];
      assert front[..|front|] == front;
      RunsKeepCache(c, front);
      RunOnceIff(c, front);
      assert OnceInv(s.server);
      if Enabled(c, s, step) {
        match step
        case DedupGet(k) => LookupKeepsCache(c, s, k);
        case DedupSet(k) => SetKeepsCache(c, s, k);
        case _ => OtherStepsKeepCache(c, s, step);
      }
    }
  }

  lemma OneOfAKey(dedup: seq<Entry<nat, ()>>, e: Entry<nat, ()>, f: Entry<nat, ()>)
    requires UniqueKeys(dedup) && e in dedup && f in dedup && e.key == f.key
    ensures e == f
  {
    var i :| 0 <= i < |dedup| && dedup[i] == e;
    var j :| 0 <= j < |dedup| && dedup[j] == f;
  }

  /** Some other worker has missed the ID and not yet stored it. */
  predicate Racing(server: Server, id: nat) {
    exists j :: 0 <= j < |server.workers| && server.workers[j].Missed? && server.workers[j].p.id == id
  }

  predicate HasExpired(dedup: seq<Entry<nat, ()>>, id: nat, now: int) {
    exists e :: e in dedup && e.key == id && Expired(e, now)
  }

  lemma MissesIff(server: Server, id: nat, now: int)
    requires CacheInv(server) && GotPast(server, id)
    ensures CacheSpec.Get<nat, ()>(server.dedup, id, now).1.None? <==>
            Racing(server, id) || HasExpired(server.dedup, id, now)
  {
    LookupForgets(server.dedup, id, now);
    hide CacheSpec.Get, UniqueKeys;
    if Racing(server, id) {
      assert !Remembered(server.dedup, id);
    } else {
      assert Remembered(server.dedup, id);
      var e :| e in server.dedup && e.key == id;
      forall f | f in server.dedup && f.key == id
        ensures f == e
      {
        OneOfAKey(server.dedup, e, f);
      }
    }
  }

  lemma WorkerThere(c: Config, s: State, k: nat)
    requires Enabled(c, s, DedupGet(k))
    ensures k < |s.server.workers| && s.server.workers[k].Parsed?
  {
  }

  lemma SlipMeans(c: Config, s: State, k: nat)
    requires Enabled(c, s, DedupGet(k))
    ensures var id: nat := s.server.workers[k].p.id;
            SlipsThrough(c, s, DedupGet(k)) <==>
            GotPast(s.server, id) && CacheSpec.Get<nat, ()>(s.server.dedup, id, s.now).1.None?
  {
  }

  /** The two causes: a lookup is the first to let an ID through again exactly when another worker has
      missed it and not yet stored it, or when its entry has expired. */
  lemma WhySlips(c: Config, steps: seq<Step>, k: nat)
    requires NothingSlips(c, steps) && Enabled(c, After(c, steps), DedupGet(k))
    ensures var s := After(c, steps);
            var id: nat := s.server.workers[k].p.id;
            GotPast(s.server, id) ==>
              (SlipsThrough(c, s, DedupGet(k)) <==> Racing(s.server, id) || HasExpired(s.server.dedup, id, s.now))
  {
    hide After, CacheInv, Racing, HasExpired, GotPast, NothingSlips, SlipsThrough, CacheSpec.Get, Enabled;
    RunsKeepCache(c, steps);
    var s := After(c, steps);
    WorkerThere(c, s, k);
    var id: nat := s.server.workers[k].p.id;
    SlipMeans(c, s, k);
    if GotPast(s.server, id) {
      MissesIff(s.server, id, s.now);
    }
  }

  /** A lookup that meets one of the two causes. */
  predicate RacedOrExpired(c: Config, s: State, step: Step) {
    step.DedupGet? && Enabled(c, s, step) &&
    var id: nat := s.server.workers[step.k].p.id;
    GotPast(s.server, id) && (Racing(s.server, id) || HasExpired(s.server.dedup, id, s.now))
  }

  /** Whenever an ID that got past before is looked up, no other worker has missed it without storing it
      yet, and its entry is still alive. */
  predicate NothingRacesOrExpires(c: Config, steps: seq<Step>) {
    forall i: nat :: i < |steps| ==> !RacedOrExpired(c, After(c, steps[..i]), steps[i])
  }

  lemma SlipsIffCaused(c: Config, steps: seq<Step>, step: Step)
    requires NothingSlips(c, steps)
    ensures var s := After(c, steps); SlipsThrough(c, s, step) <==> RacedOrExpired(c, s, step)
  {
    hide After, NothingSlips, Racing, HasExpired, GotPast, CacheSpec.Get;
    if step.DedupGet? && Enabled(c, After(c, steps), step) {
      WhySlips(c, steps, step.k);
    }
  }

  lemma {:induction false} SlipsOnlyIfCaused(c: Config, steps: seq<Step>)
    ensures NothingSlips(c, steps) <==> NothingRacesOrExpires(c, steps)
  {
    hide SlipsThrough, RacedOrExpired, After;
    if steps != [] {
      var front, step := steps[..|steps| - 1], steps[|steps| - 1];
      assert forall i: nat :: i <= |front| ==> front[..i] == steps[..i];
      assert front[..|front|] == front;
      SlipsOnlyIfCaused(c, front);
      assert NothingSlips(c, steps) <==> NothingSlips(c, front) && !SlipsThrough(c, After(c, front), step);
      assert NothingRacesOrExpires(c, steps) <==>
             NothingRacesOrExpires(c, front) && !RacedOrExpired(c, After(c, front), step);
      if NothingSlips(c, front) {
        SlipsIffCaused(c, front, step);
      }
    }
  }

  /** The exact condition by its causes: an ID gets past the cache twice in a run if and only if it is looked
      up again while another worker is between lookup and store, or after its entry has expired. */
  lemma OnceUnlessRacedOrExpired(c: Config, steps: seq<Step>)
    ensures OnceThroughout(c, steps) <==> NothingRacesOrExpires(c, steps)
  {
    RunOnceIff(c, steps);
    SlipsOnlyIfCaused(c, steps);
  }

  /** So every ID reaches the server's ordered buffer at most once unless that happens. */
  lemma EachIdInsertedOnce(c: Config, steps: seq<Step>)
    requires NothingRacesOrExpires(c, steps)
    ensures var log := After(c, steps).server.log;
            forall i, j :: 0 <= i < j < |log| ==> log[i].p.id != log[j].p.id
  {
    OnceUnlessRacedOrExpired(c, steps);
    hide After, NothingRacesOrExpires;
    assert steps[..|steps|] == steps;
    assert OnceInv(After(c, steps).server);
  }

  /** In such a run packet 1 is never acknowledged, whatever the network does, and the first line the
      client prints is always that it was lost. */
  lemma FirstPacketIsReportedLost(c: Config, steps: seq<Step>)
    requires Sound(c) && NothingRacesOrExpires(c, steps)
    ensures var s := After(c, steps);
            && (forall a :: a in s.acks ==> a.id != 1)
            && (s.client.emitted != [] ==> s.client.emitted[0] == LOST(1))
  {
    EachIdInsertedOnce(c, steps);
    ProtocolServer.FirstLineIsLost(c, steps);
  }
}
