/** What pkg/lru/cache.go's map and linked list stand for: one sequence of entries, from the head
    of the list (set last) to its tail, in which no key occurs twice. */
module CacheSpec {
  import opened Wrappers

  datatype Entry<K, V> = Entry(key: K, value: V, expiresAt: int)

  predicate UniqueKeys<K(==), V>(es: seq<Entry<K, V>>) {
    forall i, j :: 0 <= i < j < |es| ==> es[i].key != es[j].key
  }

  predicate HasKey<K(==), V>(es: seq<Entry<K, V>>, key: K) {
    exists i :: 0 <= i < |es| && es[i].key == key
  }

  /** now.After(expiresAt) */
  predicate Expired<K, V>(e: Entry<K, V>, now: int) {
    now > e.expiresAt
  }

  /** Latest deadline first. */
  predicate Sorted<K, V>(es: seq<Entry<K, V>>) {
    forall i, j :: 0 <= i < j < |es| ==> es[i].expiresAt >= es[j].expiresAt
  }

  /** The position of a key, or the length when it is absent. */
  function Find<K(==), V>(es: seq<Entry<K, V>>, key: K): (i: nat)
    ensures i <= |es|
    ensures i < |es| ==> es[i].key == key
    ensures forall j :: 0 <= j < i ==> es[j].key != key
  {
    if es == [] || es[0].key == key then 0 else 1 + Find(es[1..], key)
  }

  function RemoveAt<T>(s: seq<T>, i: nat): (r: seq<T>)
    requires i < |s|
  {
    s[..i] + s[i + 1..]
  }

  function Remove<K(==), V>(es: seq<Entry<K, V>>, key: K): (r: seq<Entry<K, V>>) {
    var i := Find(es, key);
    if i < |es| then RemoveAt(es, i) else es
  }

  /** Set and SetWithTTL. */
  function Put<K(==), V>(es: seq<Entry<K, V>>, key: K, value: V, expiresAt: int): (r: seq<Entry<K, V>>) {
    [Entry(key, value, expiresAt)] + Remove(es, key)
  }

  /** Get: an expired entry is removed on the way. */
  function Get<K(==), V>(es: seq<Entry<K, V>>, key: K, now: int): (r: (seq<Entry<K, V>>, Option<V>)) {
    var i := Find(es, key);
    if i == |es| then (es, None)
    else if Expired(es[i], now) then (RemoveAt(es, i), None)
    else (es, Some(es[i].value))
  }

  function Tail<K, V>(es: seq<Entry<K, V>>): (r: Option<Entry<K, V>>) {
    if es == [] then None else Some(es[|es| - 1])
  }

  function Pop<K, V>(es: seq<Entry<K, V>>): (r: seq<Entry<K, V>>) {
    if es == [] then es else es[..|es| - 1]
  }

  /** cleanup's loop: entries leave from the tail while the tail is expired. */
  function Sweep<K, V>(es: seq<Entry<K, V>>, now: int): (r: seq<Entry<K, V>>)
    ensures r <= es
  {
    if es != [] && Expired(es[|es| - 1], now) then Sweep(es[..|es| - 1], now) else es
  }

  /** What that loop removes, in the order it removes it. */
  function SweptOff<K, V>(es: seq<Entry<K, V>>, now: int): (r: seq<Entry<K, V>>)
    ensures |r| + |Sweep(es, now)| == |es|
  {
    if es != [] && Expired(es[|es| - 1], now) then [es[|es| - 1]] + SweptOff(es[..|es| - 1], now) else []
  }

  /** One turn of the loop, and its end. */
  lemma SweepUnfolds<K, V>(es: seq<Entry<K, V>>, now: int, done: seq<Entry<K, V>>)
    ensures es != [] && Expired(es[|es| - 1], now) ==>
              var front, last := es[..|es| - 1], es[|es| - 1];
              && Sweep(es, now) == Sweep(front, now)
              && done + SweptOff(es, now) == (done + [last]) + SweptOff(front, now)
    ensures es == [] || !Expired(es[|es| - 1], now) ==> Sweep(es, now) == es && done + SweptOff(es, now) == done
  {
  }

  /** The removed entries are the rest of the list, tail first. */
  lemma {:induction false} SweptOffIsTheRest<K, V>(es: seq<Entry<K, V>>, now: int, i: nat)
    requires i < |SweptOff(es, now)|
    ensures SweptOff(es, now)[i] == es[|es| - 1 - i]
  {
    if i > 0 {
      SweptOffIsTheRest(es[..|es| - 1], now, i - 1);
    }
  }

  /** The full-scan meaning of cleanup: what is not expired, in order. */
  function Live<K, V>(es: seq<Entry<K, V>>, now: int): (r: seq<Entry<K, V>>) {
    if es == [] then [] else Live(es[..|es| - 1], now) + if Expired(es[|es| - 1], now) then [] else [es[|es| - 1]]
  }

  lemma {:induction false} NothingExpired<K, V>(es: seq<Entry<K, V>>, now: int)
    requires forall i :: 0 <= i < |es| ==> !Expired(es[i], now)
    ensures Live(es, now) == es
  {
    if es != [] {
      NothingExpired(es[..|es| - 1], now);
      assert es == es[..|es| - 1] + [es[|es| - 1]];
    }
  }

  /** Behind an expired entry, towards the tail, there are only expired ones. */
  predicate ExpiredTowardsTail<K, V>(es: seq<Entry<K, V>>, now: int) {
    forall i, j :: 0 <= i < j < |es| && Expired(es[i], now) ==> Expired(es[j], now)
  }

  lemma {:induction false} LiveKeeps<K, V>(es: seq<Entry<K, V>>, now: int, i: nat)
    requires i < |es|
    ensures |Live(es, now)| <= |es|
    ensures Expired(es[i], now) ==> |Live(es, now)| < |es|
  {
    var front := es[..|es| - 1];
    if i < |front| {
      LiveKeeps(front, now, i);
    } else if front != [] {
      LiveKeeps(front, now, 0);
    }
  }

  /** The exact condition under which stopping at the first live tail loses nothing. */
  lemma {:induction false} SweepIsFullScanIff<K, V>(es: seq<Entry<K, V>>, now: int)
    ensures Sweep(es, now) == Live(es, now) <==> ExpiredTowardsTail(es, now)
  {
    if es != [] {
      var front := es[..|es| - 1];
      if Expired(es[|es| - 1], now) {
        SweepIsFullScanIff(front, now);
        assert ExpiredTowardsTail(es, now) <==> ExpiredTowardsTail(front, now);
      } else if forall i :: 0 <= i < |es| ==> !Expired(es[i], now) {
        NothingExpired(es, now);
      } else {
        var i :| 0 <= i < |es| && Expired(es[i], now);
        LiveKeeps(es, now, i);
        assert i < |es| - 1;
      }
    }
  }

  /** A list sorted by deadline meets it at every time. */
  lemma SweepIsFullScan<K, V>(es: seq<Entry<K, V>>, now: int)
    requires Sorted(es)
    ensures Sweep(es, now) == Live(es, now)
  {
    SweepIsFullScanIff(es, now);
  }

  /** And only a sorted list does: what no line of the code states is what the loop relies on. */
  lemma SortedIffAlwaysFullScan<K, V>(es: seq<Entry<K, V>>)
    ensures Sorted(es) <==> forall now :: Sweep(es, now) == Live(es, now)
  {
    if Sorted(es) {
      forall now
        ensures Sweep(es, now) == Live(es, now)
      {
        SweepIsFullScanIff(es, now);
      }
    } else {
      var i, j :| 0 <= i < j < |es| && es[i].expiresAt < es[j].expiresAt;
      SweepIsFullScanIff(es, es[j].expiresAt);
      assert Expired(es[i], es[j].expiresAt) && !Expired(es[j], es[j].expiresAt);
    }
  }

  /** For illustration: a live entry at the tail shields an expired one. */
  lemma SweepMissesWhenUnsorted()
    ensures exists es: seq<Entry<int, int>>, now :: UniqueKeys(es) && Sweep(es, now) != Live(es, now)
  {
    var es := [Entry(1, 0, 5), Entry(2, 0, 50)];
    SweepIsFullScanIff(es, 10);
    assert Expired(es[0], 10) && !Expired(es[1], 10);
  }

  // Each operation keeps keys unique, and says what became of every other key.

  lemma FindUnique<K, V>(es: seq<Entry<K, V>>, i: nat)
    requires UniqueKeys(es) && i < |es|
    ensures Find(es, es[i].key) == i
  {
  }

  lemma RemoveAtKeeps<K, V>(es: seq<Entry<K, V>>, i: nat)
    requires UniqueKeys(es) && i < |es|
    ensures var r := RemoveAt(es, i);
            && UniqueKeys(r) && !HasKey(r, es[i].key)
            && (forall e :: e in r <==> e in es && e.key != es[i].key)
            && (Sorted(es) ==> Sorted(r))
  {
    var r := RemoveAt(es, i);
    assert forall j :: 0 <= j < |r| ==> r[j] == es[if j < i then j else j + 1];
    forall e | e in es && e.key != es[i].key
      ensures e in r
    {
      var j :| 0 <= j < |es| && es[j] == e;
      assert r[if j < i then j else j - 1] == e;
    }
  }

  lemma RemoveKeeps<K, V>(es: seq<Entry<K, V>>, key: K)
    requires UniqueKeys(es)
    ensures UniqueKeys(Remove(es, key)) && !HasKey(Remove(es, key), key)
    ensures forall e :: e in Remove(es, key) <==> e in es && e.key != key
    ensures Sorted(es) ==> Sorted(Remove(es, key))
  {
    hide UniqueKeys, Sorted, RemoveAt;
    var i := Find(es, key);
    if i < |es| {
      RemoveAtKeeps(es, i);
    } else {
      assert forall e :: e in es ==> e.key != key;
    }
  }

  /** A new entry at the head, of a key that is not there. */
  lemma HeadKeeps<K, V>(e: Entry<K, V>, es: seq<Entry<K, V>>)
    requires UniqueKeys(es) && forall f :: f in es ==> f.key != e.key
    ensures UniqueKeys([e] + es)
    ensures Sorted(es) && (forall f :: f in es ==> f.expiresAt <= e.expiresAt) ==> Sorted([e] + es)
  {
    assert forall j :: 0 < j < |[e] + es| ==> ([e] + es)[j] == es[j - 1];
  }

  lemma PutKeeps<K, V>(es: seq<Entry<K, V>>, key: K, value: V, expiresAt: int)
    requires UniqueKeys(es)
    ensures UniqueKeys(Put(es, key, value, expiresAt))
    ensures forall e :: e in Put(es, key, value, expiresAt) <==>
            e == Entry(key, value, expiresAt) || (e in es && e.key != key)
    ensures Sorted(es) && (forall e :: e in es ==> e.expiresAt <= expiresAt) ==> Sorted(Put(es, key, value, expiresAt))
  {
    RemoveKeeps(es, key);
    HeadKeeps(Entry(key, value, expiresAt), Remove(es, key));
    hide UniqueKeys, Sorted, Remove;
  }

  lemma KeySetSize<K, V>(es: seq<Entry<K, V>>)
    requires UniqueKeys(es)
    ensures |set e | e in es :: e.key| == |es|
  {
    if es != [] {
      var front, last := es[..|es| - 1], es[|es| - 1];
      KeySetSize(front);
      assert (set e | e in es :: e.key) == (set e | e in front :: e.key) + {last.key};
    }
  }

  // Whole runs, and where every entry ever set has gone.

  datatype Op<K, V> =
    | SetOp(key: K, value: V, expiresAt: int)
    | GetOp(key: K, now: int)
    | DeleteOp(key: K)
    | PopOp
    | CleanupOp(now: int)

  /** The list, and by name every way out of it: entries given to scheduleFinalize, entries popped
      for the caller, and entries replaced by a Set of the same key. */
  datatype Books<K(==), V(==)> = Books(
    live: seq<Entry<K, V>>,
    created: multiset<Entry<K, V>>,
    finalized: multiset<Entry<K, V>>,
    popped: multiset<Entry<K, V>>,
    overwritten: multiset<Entry<K, V>>)

  function At<K(==), V(==)>(es: seq<Entry<K, V>>, key: K): multiset<Entry<K, V>> {
    var i := Find(es, key);
    if i < |es| then multiset{es[i]} else multiset{}
  }

  /** What Get removes. */
  function Gone<K(==), V(==)>(es: seq<Entry<K, V>>, key: K, now: int): multiset<Entry<K, V>> {
    var i := Find(es, key);
    if i < |es| && Expired(es[i], now) then multiset{es[i]} else multiset{}
  }

  function Step<K(==), V(==)>(b: Books<K, V>, op: Op<K, V>): (r: Books<K, V>) {
    match op
    case SetOp(key, value, expiresAt) =>
      b.(live := Put(b.live, key, value, expiresAt),
         created := b.created + multiset{Entry(key, value, expiresAt)},
         overwritten := b.overwritten + At(b.live, key))
    case GetOp(key, now) =>
      b.(live := Get(b.live, key, now).0, finalized := b.finalized + Gone(b.live, key, now))
    case DeleteOp(key) =>
      b.(live := Remove(b.live, key), finalized := b.finalized + At(b.live, key))
    case PopOp =>
      b.(live := Pop(b.live), popped := b.popped + multiset(b.live[|Pop(b.live)|..]))
    case CleanupOp(now) =>
      var kept := Sweep(b.live, now);
      b.(live := kept, finalized := b.finalized + multiset(b.live[|kept|..]))
  }

  function RunOps<K(==), V(==)>(ops: seq<Op<K, V>>): (r: Books<K, V>) {
    if ops == [] then Books([], multiset{}, multiset{}, multiset{}, multiset{})
    else Step(RunOps(ops[..|ops| - 1]), ops[|ops| - 1])
  }

  /** The operations leave this list, and finalize what was scheduled. */
  ghost predicate Matches<K, V>(ops: seq<Op<K, V>>, live: seq<Entry<K, V>>, scheduled: seq<Entry<K, V>>) {
    RunOps(ops).live == live && RunOps(ops).finalized == multiset(scheduled)
  }

  lemma SetMatches<K, V>(ops: seq<Op<K, V>>, live: seq<Entry<K, V>>, scheduled: seq<Entry<K, V>>, key: K, value: V,
      expiresAt: int)
    requires Matches(ops, live, scheduled)
    ensures Matches(ops + [SetOp(key, value, expiresAt)], Put(live, key, value, expiresAt), scheduled)
  {
    assert (ops + [SetOp(key, value, expiresAt)])[..|ops|] == ops;
  }

  lemma GetMatches<K, V>(ops: seq<Op<K, V>>, live: seq<Entry<K, V>>, scheduled: seq<Entry<K, V>>, key: K, now: int)
    requires Matches(ops, live, scheduled)
    ensures var i := Find(live, key);
            Matches(ops + [GetOp(key, now)], Get(live, key, now).0,
                    scheduled + if i < |live| && Expired(live[i], now) then [live[i]] else [])
  {
    assert (ops + [GetOp(key, now)])[..|ops|] == ops;
  }

  lemma DeleteMatches<K, V>(ops: seq<Op<K, V>>, live: seq<Entry<K, V>>, scheduled: seq<Entry<K, V>>, key: K)
    requires Matches(ops, live, scheduled)
    ensures var i := Find(live, key);
            Matches(ops + [DeleteOp(key)], Remove(live, key), scheduled + if i < |live| then [live[i]] else [])
  {
    assert (ops + [DeleteOp(key)])[..|ops|] == ops;
  }

  lemma PopMatches<K, V>(ops: seq<Op<K, V>>, live: seq<Entry<K, V>>, scheduled: seq<Entry<K, V>>)
    requires Matches(ops, live, scheduled)
    ensures Matches(ops + [PopOp], Pop(live), scheduled)
  {
    assert (ops + [PopOp])[..|ops|] == ops;
  }

  /** What a cleanup schedules, as often as it occurs, is what it took off. */
  lemma {:induction false} SweptOffCounts<K, V>(es: seq<Entry<K, V>>, now: int)
    ensures multiset(SweptOff(es, now)) == multiset(es[|Sweep(es, now)|..])
  {
    if es != [] && Expired(es[|es| - 1], now) {
      var front := es[..|es| - 1];
      SweptOffCounts(front, now);
      var n := |Sweep(front, now)|;
      assert es[n..] == front[n..] + [es[|es| - 1]];
    }
  }

  lemma CleanupMatches<K, V>(ops: seq<Op<K, V>>, live: seq<Entry<K, V>>, scheduled: seq<Entry<K, V>>, now: int)
    requires Matches(ops, live, scheduled)
    ensures Matches(ops + [CleanupOp(now)], Sweep(live, now), scheduled + SweptOff(live, now))
  {
    assert (ops + [CleanupOp(now)])[..|ops|] == ops;
    SweptOffCounts(live, now);
  }

  /** Entries that leave the list for one of the three other places, and entries that enter it. */
  lemma Moves<K, V>(b: Books<K, V>, kept: multiset<Entry<K, V>>, moved: multiset<Entry<K, V>>,
      added: multiset<Entry<K, V>>)
    requires b.created == multiset(b.live) + b.finalized + b.popped + b.overwritten
    requires multiset(b.live) == kept + moved
    ensures b.created + added == (added + kept) + (b.finalized + moved) + b.popped + b.overwritten
    ensures b.created + added == (added + kept) + b.finalized + (b.popped + moved) + b.overwritten
    ensures b.created + added == (added + kept) + b.finalized + b.popped + (b.overwritten + moved)
  {
  }

  lemma RemovalConserves<K, V>(es: seq<Entry<K, V>>, key: K)
    ensures multiset(es) == multiset(Remove(es, key)) + At(es, key)
  {
    var i := Find(es, key);
    if i < |es| {
      assert es == es[..i] + [es[i]] + es[i + 1..];
    }
  }

  lemma GetRemoves<K, V>(es: seq<Entry<K, V>>, key: K, now: int)
    ensures Get(es, key, now).0 == if Gone(es, key, now) == multiset{} then es else Remove(es, key)
    ensures Gone(es, key, now) == multiset{} || Gone(es, key, now) == At(es, key)
  {
  }

  lemma KeyStepConserves<K, V>(b: Books<K, V>, op: Op<K, V>)
    requires op.SetOp? || op.GetOp? || op.DeleteOp?
    requires UniqueKeys(b.live)
    requires b.created == multiset(b.live) + b.finalized + b.popped + b.overwritten
    ensures var b' := Step(b, op);
            && UniqueKeys(b'.live)
            && b'.created == multiset(b'.live) + b'.finalized + b'.popped + b'.overwritten
  {
    hide Find, Remove, UniqueKeys, Get, Gone, At, Sorted, HasKey;
    RemoveKeeps(b.live, op.key);
    RemovalConserves(b.live, op.key);
    match op
    case SetOp(key, value, expiresAt) =>
      PutKeeps(b.live, key, value, expiresAt);
      Moves(b, multiset(Remove(b.live, key)), At(b.live, key), multiset{Entry(key, value, expiresAt)});
    case GetOp(key, now) =>
      GetRemoves(b.live, key, now);
      Moves(b, multiset(Get(b.live, key, now).0), Gone(b.live, key, now), multiset{});
    case DeleteOp(key) =>
      Moves(b, multiset(Remove(b.live, key)), At(b.live, key), multiset{});
  }

  lemma SweepIsPrefix<K, V>(es: seq<Entry<K, V>>, now: int)
    ensures Sweep(es, now) == es[..|Sweep(es, now)|]
  {
  }

  lemma PrefixConserves<K, V>(es: seq<Entry<K, V>>, n: nat)
    requires n <= |es| && UniqueKeys(es)
    ensures multiset(es) == multiset(es[..n]) + multiset(es[n..])
    ensures UniqueKeys(es[..n])
  {
    assert es == es[..n] + es[n..];
  }

  lemma TailStepConserves<K, V>(b: Books<K, V>, op: Op<K, V>)
    requires op.PopOp? || op.CleanupOp?
    requires UniqueKeys(b.live)
    requires b.created == multiset(b.live) + b.finalized + b.popped + b.overwritten
    ensures var b' := Step(b, op);
            && UniqueKeys(b'.live)
            && b'.created == multiset(b'.live) + b'.finalized + b'.popped + b'.overwritten
  {
    hide UniqueKeys, Sweep;
    var kept := if op.PopOp? then Pop(b.live) else Sweep(b.live, op.now);
    PrefixConserves(b.live, |kept|);
    if op.CleanupOp? {
      SweepIsPrefix(b.live, op.now);
    }
    Moves(b, multiset(kept), multiset(b.live[|kept|..]), multiset{});
  }

  lemma StepConserves<K, V>(b: Books<K, V>, op: Op<K, V>)
    requires UniqueKeys(b.live)
    requires b.created == multiset(b.live) + b.finalized + b.popped + b.overwritten
    ensures var b' := Step(b, op);
            && UniqueKeys(b'.live)
            && b'.created == multiset(b'.live) + b'.finalized + b'.popped + b'.overwritten
  {
    if op.PopOp? || op.CleanupOp? {
      TailStepConserves(b, op);
    } else {
      KeyStepConserves(b, op);
    }
  }

  /** Conservation: after any run, every entry ever set is in exactly one place - still in the list,
      handed to the finalizer, popped, or overwritten - as many times as it was set. */
  lemma {:induction false} EveryEntryAccountedFor<K, V>(ops: seq<Op<K, V>>)
    ensures var b := RunOps(ops);
            && UniqueKeys(b.live)
            && b.created == multiset(b.live) + b.finalized + b.popped + b.overwritten
  {
    if ops != [] {
      var b, op := RunOps(ops[..|ops| - 1]), ops[|ops| - 1];
      EveryEntryAccountedFor(ops[..|ops| - 1]);
      StepConserves(b, op);
    }
  }
}
