/** What pkg/lru/layer.go does to its stack of caches, seen as a sequence of entry lists, and why
    looking at the tails alone is enough. */
module LayerSpec {
  import opened Wrappers
  import opened CacheSpec

  type Layers<K, V> = seq<seq<Entry<K, V>>>

  function SetFirst<K(==), V>(ls: Layers<K, V>, key: K, value: V, expiresAt: int): (r: Layers<K, V>) {
    if ls == [] then ls else ls[0 := Put(ls[0], key, value, expiresAt)]
  }

  function DeleteAll<K(==), V>(ls: Layers<K, V>, key: K): (r: Layers<K, V>)
    ensures |r| == |ls|
    ensures forall i :: 0 <= i < |ls| ==> r[i] == Remove(ls[i], key)
  {
    seq(|ls|, i requires 0 <= i < |ls| => Remove(ls[i], key))
  }

  /** Get from the i-th layer on: the first live value; expired entries of the key met on the way are
      removed. */
  function GetFrom<K(==), V>(ls: Layers<K, V>, key: K, now: int, i: nat): (r: (Layers<K, V>, Option<V>))
    requires i <= |ls|
    ensures |r.0| == |ls|
    decreases |ls| - i
  {
    if i == |ls| then (ls, None)
    else
      var (es, value) := CacheSpec.Get(ls[i], key, now);
      if value.Some? then (ls[i := es], value) else GetFrom(ls[i := es], key, now, i + 1)
  }

  lemma GetFromHere<K, V>(ls: Layers<K, V>, key: K, now: int, i: nat)
    requires i <= |ls|
    ensures i == |ls| ==> GetFrom(ls, key, now, i) == (ls, None)
    ensures i < |ls| ==>
              var (es, value) := CacheSpec.Get(ls[i], key, now);
              GetFrom(ls, key, now, i) ==
              if value.Some? then (ls[i := es], value) else GetFrom(ls[i := es], key, now, i + 1)
  {
  }

  predicate TailExpired<K, V>(es: seq<Entry<K, V>>, now: int) {
    es != [] && Expired(es[|es| - 1], now)
  }

  /** The lowest layer at or above `from` whose tail is expired, or the number of layers. */
  function FirstExpired<K, V>(ls: Layers<K, V>, now: int, from: nat): (i: nat)
    requires from <= |ls|
    ensures from <= i <= |ls|
    ensures i < |ls| ==> TailExpired(ls[i], now)
    ensures forall j :: from <= j < i ==> !TailExpired(ls[j], now)
    decreases |ls| - from
  {
    if from == |ls| || TailExpired(ls[from], now) then from else FirstExpired(ls, now, from + 1)
  }

  datatype Peeked<K, V> = Peeked(key: K, value: V, layer: nat)

  function PeekExpired<K, V>(ls: Layers<K, V>, now: int): (r: Option<Peeked<K, V>>) {
    var i := FirstExpired(ls, now, 0);
    if i == |ls| then None
    else
      var e := ls[i][|ls[i]| - 1];
      Some(Peeked(e.key, e.value, i))
  }

  /** The least deadline among the tails of the first n layers. */
  function EarliestTail<K, V>(ls: Layers<K, V>, n: nat): (r: Option<int>)
    requires n <= |ls|
  {
    if n == 0 then None
    else
      var before, es := EarliestTail(ls, n - 1), ls[n - 1];
      if es != [] && (before.None? || es[|es| - 1].expiresAt < before.value) then Some(es[|es| - 1].expiresAt)
      else before
  }

  /** PromoteLayer: pops the tail of the layer, whatever its key is, and sets the popped value one
      layer up under the key it was given. The second part is the value handed back (None where Go
      returns the zero value) and whether the packet is still alive. */
  function Promote<K(==), V>(ls: Layers<K, V>, key: K, i: int, expiresAt: int): (r: (Layers<K, V>, Option<V>, bool)) {
    if i < 0 || i >= |ls| || ls[i] == [] then (ls, None, false)
    else
      var value := ls[i][|ls[i]| - 1].value;
      var popped := ls[i := Pop(ls[i])];
      if i + 1 >= |ls| then (popped, Some(value), false)
      else (popped[i + 1 := Put(ls[i + 1], key, value, expiresAt)], Some(value), true)
  }

  /** PromoteLayer by its exits. */
  lemma PromoteCases<K, V>(ls: Layers<K, V>, key: K, i: int, expiresAt: int)
    ensures i < 0 || i >= |ls| ==> Promote(ls, key, i, expiresAt) == (ls, None, false)
    ensures 0 <= i < |ls| ==>
              var popped, tail := ls[i := Pop(ls[i])], Tail(ls[i]);
              && (tail.None? ==> Promote(ls, key, i, expiresAt) == (popped, None, false))
              && (tail.Some? && i + 1 == |ls| ==>
                    Promote(ls, key, i, expiresAt) == (popped, Some(tail.value.value), false))
              && (tail.Some? && i + 1 < |ls| ==>
                    Promote(ls, key, i, expiresAt) ==
                    (popped[i + 1 := Put(popped[i + 1], key, tail.value.value, expiresAt)],
                     Some(tail.value.value), true))
  {
    if 0 <= i < |ls| && ls[i] == [] {
      assert ls == ls[i := Pop(ls[i])];
    }
  }

  function TotalLen<K, V>(ls: Layers<K, V>): (n: nat) {
    if ls == [] then 0 else TotalLen(ls[..|ls| - 1]) + |ls[|ls| - 1]|
  }

  // Sortedness, which no line of the code states.

  predicate AllUnique<K(==), V>(ls: Layers<K, V>) {
    forall i :: 0 <= i < |ls| ==> UniqueKeys(ls[i])
  }

  predicate AllSorted<K, V>(ls: Layers<K, V>) {
    forall i :: 0 <= i < |ls| ==> Sorted(ls[i])
  }

  /** No entry of layer i is due later than its layer's interval from now. */
  ghost predicate Bounded<K, V>(ls: Layers<K, V>, interval: nat -> int, now: int) {
    forall i, e :: 0 <= i < |ls| && e in ls[i] ==> e.expiresAt <= now + interval(i)
  }

  ghost predicate Ordered<K, V>(ls: Layers<K, V>, interval: nat -> int, now: int) {
    AllUnique(ls) && AllSorted(ls) && Bounded(ls, interval, now)
  }

  datatype Op<K, V> = SetOp(key: K, value: V) | GetOp(key: K) | DeleteOp(key: K) | PromoteOp(key: K, layer: int)

  datatype Timed<K, V> = Timed(op: Op<K, V>, now: int)

  /** interval(0) is the first layer's own TTL; layer i > 0 is only ever fed with Backoff.Next(i). */
  function Step<K(==), V>(ls: Layers<K, V>, interval: nat -> int, t: Timed<K, V>): (r: Layers<K, V>) {
    match t.op
    case SetOp(key, value) => SetFirst(ls, key, value, t.now + interval(0))
    case GetOp(key) => GetFrom(ls, key, t.now, 0).0
    case DeleteOp(key) => DeleteAll(ls, key)
    case PromoteOp(key, i) => Promote(ls, key, i, t.now + if i + 1 < 0 then 0 else interval(i + 1)).0
  }

  function Run<K(==), V>(layers: nat, interval: nat -> int, run: seq<Timed<K, V>>): (r: Layers<K, V>) {
    if run == [] then seq(layers, _ => []) else Step(Run(layers, interval, run[..|run| - 1]), interval, run[|run| - 1])
  }

  predicate ClockNeverGoesBack<K, V>(run: seq<Timed<K, V>>) {
    forall i, j :: 0 <= i < j < |run| ==> run[i].now <= run[j].now
  }

  lemma OrderedLater<K, V>(ls: Layers<K, V>, interval: nat -> int, earlier: int, now: int)
    requires Ordered(ls, interval, earlier) && earlier <= now
    ensures Ordered(ls, interval, now)
  {
  }

  lemma PutOrdered<K, V>(ls: Layers<K, V>, interval: nat -> int, now: int, i: nat, key: K, value: V)
    requires Ordered(ls, interval, now) && i < |ls|
    ensures Ordered(ls[i := Put(ls[i], key, value, now + interval(i))], interval, now)
  {
    hide Put, UniqueKeys, Sorted;
    var es := Put(ls[i], key, value, now + interval(i));
    PutKeeps(ls[i], key, value, now + interval(i));
    assert forall e :: e in ls[i] ==> e.expiresAt <= now + interval(i);
    assert Sorted(ls[i]) && Sorted(es);
  }

  lemma PopOrdered<K, V>(ls: Layers<K, V>, interval: nat -> int, now: int, i: nat)
    requires Ordered(ls, interval, now) && i < |ls|
    ensures Ordered(ls[i := Pop(ls[i])], interval, now)
  {
  }

  lemma DeleteOrdered<K, V>(ls: Layers<K, V>, interval: nat -> int, now: int, key: K)
    requires Ordered(ls, interval, now)
    ensures Ordered(DeleteAll(ls, key), interval, now)
  {
    forall i | 0 <= i < |ls|
      ensures UniqueKeys(Remove(ls[i], key)) && Sorted(Remove(ls[i], key))
      ensures forall e :: e in Remove(ls[i], key) ==> e in ls[i]
    {
      RemoveKeeps(ls[i], key);
    }
  }

  lemma GetKeeps<K, V>(es: seq<Entry<K, V>>, key: K, now: int)
    requires UniqueKeys(es)
    ensures var r := CacheSpec.Get(es, key, now).0;
            && UniqueKeys(r) && (Sorted(es) ==> Sorted(r))
            && forall e :: e in r <==> e in es && !(e.key == key && Expired(e, now))
  {
    var i := Find(es, key);
    if i < |es| {
      RemoveAtKeeps(es, i);
      forall e | e in es && e.key == key
        ensures e == es[i]
      {
        var j :| 0 <= j < |es| && es[j] == e;
      }
    }
  }

  lemma {:induction false} GetOrdered<K, V>(ls: Layers<K, V>, interval: nat -> int, now: int, key: K, at: int, i: nat)
    requires Ordered(ls, interval, now) && i <= |ls|
    ensures Ordered(GetFrom(ls, key, at, i).0, interval, now)
    decreases |ls| - i
  {
    if i < |ls| {
      var (es, value) := CacheSpec.Get(ls[i], key, at);
      hide CacheSpec.Get, UniqueKeys, Sorted;
      GetKeeps(ls[i], key, at);
      var ls' := ls[i := es];
      assert Sorted(ls[i]);
      assert Ordered(ls', interval, now);
      if value.None? {
        GetOrdered(ls', interval, now, key, at, i + 1);
      }
    }
  }

  lemma PromoteOrdered<K, V>(ls: Layers<K, V>, interval: nat -> int, now: int, key: K, i: nat)
    requires Ordered(ls, interval, now)
    ensures Ordered(Promote(ls, key, i, now + interval(i + 1)).0, interval, now)
  {
    hide Ordered, Put, Pop;
    if i < |ls| && ls[i] != [] {
      PopOrdered(ls, interval, now, i);
      if i + 1 < |ls| {
        PutOrdered(ls[i := Pop(ls[i])], interval, now, i + 1, key, ls[i][|ls[i]| - 1].value);
      }
    }
  }

  lemma StepOrdered<K, V>(ls: Layers<K, V>, interval: nat -> int, t: Timed<K, V>)
    requires Ordered(ls, interval, t.now)
    ensures Ordered(Step(ls, interval, t), interval, t.now)
  {
    hide Ordered, Put, DeleteAll, GetFrom;
    match t.op
    case SetOp(key, value) =>
      if ls != [] {
        PutOrdered(ls, interval, t.now, 0, key, value);
      }
    case GetOp(key) =>
      GetOrdered(ls, interval, t.now, key, t.now, 0);
    case DeleteOp(key) =>
      DeleteOrdered(ls, interval, t.now, key);
    case PromoteOp(key, i) =>
      if i >= 0 {
        PromoteOrdered(ls, interval, t.now, key, i);
      }
  }

  /** Every run under a clock that never goes back leaves every layer sorted by deadline. */
  lemma {:induction false} RunsAreOrdered<K, V>(layers: nat, interval: nat -> int, run: seq<Timed<K, V>>, now: int)
    requires ClockNeverGoesBack(run)
    requires run != [] ==> run[|run| - 1].now <= now
    ensures Ordered(Run(layers, interval, run), interval, now)
  {
    if run != [] {
      var last := run[|run| - 1];
      RunsAreOrdered(layers, interval, run[..|run| - 1], last.now);
      StepOrdered(Run(layers, interval, run[..|run| - 1]), interval, last);
      OrderedLater(Run(layers, interval, run), interval, last.now, now);
    }
  }

  // The tails tell the whole story.

  ghost predicate SomewhereExpired<K, V>(ls: Layers<K, V>, now: int) {
    exists i, j :: 0 <= i < |ls| && 0 <= j < |ls[i]| && Expired(ls[i][j], now)
  }

  /** PeekExpiredScan finds nothing exactly when no entry of any layer is expired; otherwise it
      returns an entry with the earliest deadline of the lowest layer that holds an expired one. */
  lemma PeekIsFullScan<K, V>(ls: Layers<K, V>, now: int)
    requires AllSorted(ls)
    ensures PeekExpired(ls, now).None? <==> !SomewhereExpired(ls, now)
    ensures PeekExpired(ls, now).Some? ==>
              var p := PeekExpired(ls, now).value;
              && p.layer < |ls| && ls[p.layer] != []
              && (forall i, j :: 0 <= i < p.layer && 0 <= j < |ls[i]| ==> !Expired(ls[i][j], now))
              && exists j :: 0 <= j < |ls[p.layer]|
                   && ls[p.layer][j].key == p.key && ls[p.layer][j].value == p.value && Expired(ls[p.layer][j], now)
                   && forall k :: 0 <= k < |ls[p.layer]| ==> ls[p.layer][j].expiresAt <= ls[p.layer][k].expiresAt
  {
  }

  lemma TailIsLeast<K, V>(es: seq<Entry<K, V>>, k: nat)
    requires Sorted(es) && k < |es|
    ensures es[|es| - 1].expiresAt <= es[k].expiresAt
  {
  }

  lemma {:induction false} EarliestOfTails<K, V>(ls: Layers<K, V>, n: nat)
    requires n <= |ls|
    ensures var r := EarliestTail(ls, n);
            && (r.None? <==> forall i :: 0 <= i < n ==> ls[i] == [])
            && (r.Some? ==> exists i :: 0 <= i < n && ls[i] != [] && ls[i][|ls[i]| - 1].expiresAt == r.value)
            && (r.Some? ==> forall i :: 0 <= i < n && ls[i] != [] ==> r.value <= ls[i][|ls[i]| - 1].expiresAt)
  {
    if n > 0 {
      EarliestOfTails(ls, n - 1);
    }
  }

  /** GetEarliestDeadline is the minimum over every entry of every layer, and absent exactly when
      there is no entry at all. */
  lemma EarliestIsMinimum<K, V>(ls: Layers<K, V>)
    requires AllSorted(ls)
    ensures var r := EarliestTail(ls, |ls|);
            && (r.None? <==> forall i :: 0 <= i < |ls| ==> ls[i] == [])
            && (r.Some? ==> exists i, j :: 0 <= i < |ls| && 0 <= j < |ls[i]| && ls[i][j].expiresAt == r.value)
            && (r.Some? ==> forall i, j :: 0 <= i < |ls| && 0 <= j < |ls[i]| ==> r.value <= ls[i][j].expiresAt)
  {
    EarliestOfTails(ls, |ls|);
    forall i, j | 0 <= i < |ls| && 0 <= j < |ls[i]|
      ensures ls[i][|ls[i]| - 1].expiresAt <= ls[i][j].expiresAt
    {
      TailIsLeast(ls[i], j);
    }
  }

  // Where a key can be.

  predicate In<K(==), V(==)>(ls: Layers<K, V>, e: Entry<K, V>, i: nat) {
    i < |ls| && e in ls[i]
  }

  ghost predicate InLayer<K(!new), V(!new)>(ls: Layers<K, V>, key: K, i: nat) {
    exists e :: In(ls, e, i) && e.key == key
  }

  ghost predicate Pending<K(!new), V(!new)>(ls: Layers<K, V>, key: K) {
    exists i :: InLayer(ls, key, i)
  }

  /** Every key has at most one entry, in at most one layer. */
  ghost predicate OneEntryEach<K(!new), V(!new)>(ls: Layers<K, V>) {
    && AllUnique(ls)
    && forall e, f, i, j :: In(ls, e, i) && In(ls, f, j) && e.key == f.key ==> i == j
  }

  /** ls' is ls with entry e added to layer i. */
  ghost predicate Adds<K(!new), V(!new)>(ls: Layers<K, V>, ls': Layers<K, V>, e: Entry<K, V>, i: nat) {
    forall f, j: nat :: In(ls', f, j) <==> In(ls, f, j) || (j == i && f == e)
  }

  /** ls' is ls without the entries of one key. */
  ghost predicate Drops<K(!new), V(!new)>(ls: Layers<K, V>, ls': Layers<K, V>, key: K) {
    forall f, j: nat :: In(ls', f, j) <==> In(ls, f, j) && f.key != key
  }

  /** ls' is ls without the tail of layer i, and - unless i is the last layer - with e in layer i + 1. */
  ghost predicate MovesUp<K(!new), V(!new)>(ls: Layers<K, V>, ls': Layers<K, V>, i: nat, tail: Entry<K, V>,
      e: Entry<K, V>)
  {
    forall f, j: nat :: In(ls', f, j) <==>
      (In(ls, f, j) && !(j == i && f.key == tail.key)) || (i + 1 < |ls| && j == i + 1 && f == e)
  }

  predicate IsTailKey<K(==), V>(ls: Layers<K, V>, key: K, i: int) {
    0 <= i < |ls| && ls[i] != [] && ls[i][|ls[i]| - 1].key == key
  }

  lemma Witness<K(!new), V(!new)>(ls: Layers<K, V>, e: Entry<K, V>, i: nat)
    ensures In(ls, e, i) ==> InLayer(ls, e.key, i)
  {
  }

  lemma PopMembers<K, V>(es: seq<Entry<K, V>>)
    requires UniqueKeys(es) && es != []
    ensures UniqueKeys(Pop(es))
    ensures forall e :: e in Pop(es) <==> e in es && e.key != es[|es| - 1].key
  {
  }

  /** Setting a new key adds that entry to the first layer and disturbs nothing. */
  lemma SetFirstMembers<K(!new), V(!new)>(ls: Layers<K, V>, key: K, value: V, expiresAt: int)
    requires OneEntryEach(ls) && ls != [] && !Pending(ls, key)
    ensures var r := SetFirst(ls, key, value, expiresAt);
            |r| == |ls| && OneEntryEach(r) && Adds(ls, r, Entry(key, value, expiresAt), 0)
  {
    var r := SetFirst(ls, key, value, expiresAt);
    PutKeeps(ls[0], key, value, expiresAt);
    forall e, i
      ensures In(r, e, i) <==> In(ls, e, i) || (i == 0 && e == Entry(key, value, expiresAt))
    {
      if In(ls, e, i) {
        Witness(ls, e, i);
      }
    }
    forall e, f, i, j | In(r, e, i) && In(r, f, j) && e.key == f.key
      ensures i == j
    {
      Witness(ls, e, i);
      Witness(ls, f, j);
    }
  }

  lemma DeleteMembers<K(!new), V(!new)>(ls: Layers<K, V>, key: K)
    requires OneEntryEach(ls)
    ensures var r := DeleteAll(ls, key);
            |r| == |ls| && OneEntryEach(r) && Drops(ls, r, key)
  {
    var r := DeleteAll(ls, key);
    forall i | 0 <= i < |ls|
      ensures UniqueKeys(r[i])
      ensures forall e :: e in r[i] <==> e in ls[i] && e.key != key
    {
      RemoveKeeps(ls[i], key);
    }
    assert forall e, i :: In(r, e, i) ==> In(ls, e, i);
  }

  lemma LayersMoveUp<K(!new), V(!new)>(ls: Layers<K, V>, r: Layers<K, V>, i: nat, tail: Entry<K, V>, added: Entry<K, V>)
    requires i < |ls| == |r|
    requires forall e :: e in r[i] <==> e in ls[i] && e.key != tail.key
    requires i + 1 < |ls| ==> forall e :: e in r[i + 1] <==> e == added || (e in ls[i + 1] && e.key != added.key)
    requires i + 1 < |ls| ==> forall e :: e in ls[i + 1] ==> e.key != added.key
    requires forall j :: 0 <= j < |ls| && j != i && j != i + 1 ==> r[j] == ls[j]
    ensures MovesUp(ls, r, i, tail, added)
  {
    forall f: Entry<K, V>, j: nat
      ensures In(r, f, j) <==>
              (In(ls, f, j) && !(j == i && f.key == tail.key)) || (i + 1 < |ls| && j == i + 1 && f == added)
    {
      if j == i {
        assert f in r[i] <==> f in ls[i] && f.key != tail.key;
      } else if j == i + 1 && j < |ls| {
        assert f in r[i + 1] <==> f == added || (f in ls[i + 1] && f.key != added.key);
      } else if j < |ls| {
        assert r[j] == ls[j];
      }
    }
  }

  lemma OnlyTheTailCanMatch<K(!new), V(!new)>(ls: Layers<K, V>, key: K, i: nat)
    requires i < |ls| && ls[i] != []
    requires forall j :: InLayer(ls, key, j) ==> j == i && IsTailKey(ls, key, i)
    ensures forall e :: e in ls[i] && e.key == key ==> key == ls[i][|ls[i]| - 1].key
    ensures i + 1 < |ls| ==> forall e :: e in ls[i + 1] ==> e.key != key
  {
    forall e: Entry<K, V>
      ensures In(ls, e, i) && e.key == key ==> key == ls[i][|ls[i]| - 1].key
      ensures In(ls, e, i + 1) ==> e.key != key
    {
      Witness(ls, e, i);
      Witness(ls, e, i + 1);
    }
  }

  lemma PromoteLayerByLayer<K, V>(ls: Layers<K, V>, key: K, i: nat, expiresAt: int)
    requires AllUnique(ls) && i < |ls| && ls[i] != []
    ensures var (r, value, alive) := Promote(ls, key, i, expiresAt);
            var tail := ls[i][|ls[i]| - 1];
            && |r| == |ls| && AllUnique(r)
            && alive == (i + 1 < |ls|)
            && value == Some(tail.value)
            && (forall e :: e in r[i] <==> e in ls[i] && e.key != tail.key)
            && (alive ==> forall e :: e in r[i + 1] <==>
                  e == Entry(key, tail.value, expiresAt) || (e in ls[i + 1] && e.key != key))
            && (forall j :: 0 <= j < |ls| && j != i && j != i + 1 ==> r[j] == ls[j])
  {
    hide Pop, Put, UniqueKeys;
    PopMembers(ls[i]);
    if i + 1 < |ls| {
      PutKeeps(ls[i + 1], key, ls[i][|ls[i]| - 1].value, expiresAt);
    }
  }

  lemma PromotedStillOneEach<K(!new), V(!new)>(ls: Layers<K, V>, r: Layers<K, V>, key: K, i: nat, added: Entry<K, V>)
    requires OneEntryEach(ls) && i < |ls| == |r| && AllUnique(r) && added.key == key
    requires forall j :: InLayer(ls, key, j) ==> j == i
    requires forall e :: e in r[i] ==> e in ls[i] && e.key != key
    requires exists tail :: MovesUp(ls, r, i, tail, added)
    ensures OneEntryEach(r)
  {
    forall e, f, j, k | In(r, e, j) && In(r, f, k) && e.key == f.key
      ensures j == k
    {
      Witness(ls, e, j);
      Witness(ls, f, k);
    }
  }

  /** Promoting a non-empty layer: its tail is gone from there, and - unless it was the last layer -
      the tail's value stands one layer up under the key that was passed. */
  lemma PromoteMembers<K(!new), V(!new)>(ls: Layers<K, V>, key: K, i: nat, expiresAt: int)
    requires OneEntryEach(ls) && i < |ls| && ls[i] != []
    requires forall j :: InLayer(ls, key, j) ==> j == i && IsTailKey(ls, key, i)
    ensures var (r, value, alive) := Promote(ls, key, i, expiresAt);
            var tail := ls[i][|ls[i]| - 1];
            && |r| == |ls| && OneEntryEach(r)
            && alive == (i + 1 < |ls|)
            && value == Some(tail.value)
            && MovesUp(ls, r, i, tail, Entry(key, tail.value, expiresAt))
  {
    var r := Promote(ls, key, i, expiresAt).0;
    var tail := ls[i][|ls[i]| - 1];
    PromoteLayerByLayer(ls, key, i, expiresAt);
    OnlyTheTailCanMatch(ls, key, i);
    hide Promote, Pop, Put, AllUnique, UniqueKeys, InLayer, IsTailKey;
    LayersMoveUp(ls, r, i, tail, Entry(key, tail.value, expiresAt));
    PromotedStillOneEach(ls, r, key, i, Entry(key, tail.value, expiresAt));
  }

  lemma {:induction false} TotalLenUpdate<K, V>(ls: Layers<K, V>, i: nat, es: seq<Entry<K, V>>)
    requires i < |ls|
    ensures TotalLen(ls[i := es]) == TotalLen(ls) - |ls[i]| + |es|
  {
    var n := |ls| - 1;
    if i == n {
      assert ls[i := es][..n] == ls[..n];
    } else {
      assert ls[i := es][..n] == ls[..n][i := es];
      TotalLenUpdate(ls[..n], i, es);
    }
  }

  lemma AbsentKey<K, V>(es: seq<Entry<K, V>>, key: K)
    requires forall e :: e in es ==> e.key != key
    ensures Remove(es, key) == es
  {
  }

  /** Promoting a packet under its own key moves exactly that (key, value) one layer up and keeps
      the total; from the last layer it takes it out. */
  lemma PromoteMovesOne<K(!new), V(!new)>(ls: Layers<K, V>, key: K, i: nat, expiresAt: int)
    requires OneEntryEach(ls) && IsTailKey(ls, key, i)
    ensures var (r, value, alive) := Promote(ls, key, i, expiresAt);
            && OneEntryEach(r)
            && alive == (i + 1 < |ls|)
            && (alive ==> TotalLen(r) == TotalLen(ls) && r[i + 1][0] == Entry(key, ls[i][|ls[i]| - 1].value, expiresAt))
            && (!alive ==> TotalLen(r) == TotalLen(ls) - 1)
            && !InLayer(r, key, i)
            && (forall e: Entry<K, V>, j :: e.key != key ==> (In(r, e, j) <==> In(ls, e, j)))
  {
    var tail := ls[i][|ls[i]| - 1];
    assert In(ls, tail, i);
    PromoteMembers(ls, key, i, expiresAt);
    TotalLenUpdate(ls, i, Pop(ls[i]));
    if i + 1 < |ls| {
      forall e | e in ls[i + 1]
        ensures e.key != key
      {
        assert In(ls, e, i + 1);
      }
      AbsentKey(ls[i + 1], key);
      TotalLenUpdate(ls[i := Pop(ls[i])], i + 1, Put(ls[i + 1], key, tail.value, expiresAt));
    }
  }

  ghost predicate LiveIn<K(!new), V(!new)>(ls: Layers<K, V>, key: K, now: int, value: V) {
    exists e, i :: In(ls, e, i) && e.key == key && e.value == value && !Expired(e, now)
  }

  lemma SameEntry<K, V>(es: seq<Entry<K, V>>, e: Entry<K, V>, f: Entry<K, V>)
    requires UniqueKeys(es)
    ensures e in es && f in es && e.key == f.key ==> e == f
  {
    if e in es && f in es && e.key == f.key {
      var i :| 0 <= i < |es| && es[i] == e;
      var j :| 0 <= j < |es| && es[j] == f;
    }
  }

  lemma GetValue<K, V>(es: seq<Entry<K, V>>, key: K, now: int)
    requires UniqueKeys(es)
    ensures var value := CacheSpec.Get(es, key, now).1;
            && (forall e :: e in es && e.key == key && !Expired(e, now) ==> value == Some(e.value))
            && (value.Some? ==> exists e :: e in es && e.key == key && e.value == value.value && !Expired(e, now))
  {
    var i := Find(es, key);
    if i < |es| {
      assert es[i] in es;
      forall e | e in es && e.key == key
        ensures e == es[i]
      {
        var j :| 0 <= j < |es| && es[j] == e;
      }
    }
  }

  lemma {:induction false} GetFromMembers<K(!new), V(!new)>(ls: Layers<K, V>, key: K, now: int, from: nat)
    requires OneEntryEach(ls) && from <= |ls|
    ensures var (r, value) := GetFrom(ls, key, now, from);
            && (forall e, j: nat :: In(r, e, j) <==> In(ls, e, j) && !(j >= from && e.key == key && Expired(e, now)))
            && OneEntryEach(r)
            && (forall e, j: nat :: In(ls, e, j) && j >= from && e.key == key && !Expired(e, now) ==>
                  value == Some(e.value))
            && (value.Some? ==>
                  exists e, j: nat ::
                    In(ls, e, j) && j >= from && e.key == key && e.value == value.value && !Expired(e, now))
    decreases |ls| - from
  {
    if from < |ls| {
      var (es, found) := CacheSpec.Get(ls[from], key, now);
      GetKeeps(ls[from], key, now);
      GetValue(ls[from], key, now);
      hide CacheSpec.Get, UniqueKeys;
      var ls' := ls[from := es];
      assert forall e, j: nat :: In(ls', e, j) <==> In(ls, e, j) && !(j == from && e.key == key && Expired(e, now));
      assert OneEntryEach(ls');
      if found.None? {
        GetFromMembers(ls', key, now, from + 1);
      } else {
        var e :| e in ls[from] && e.key == key && e.value == found.value && !Expired(e, now);
        assert In(ls, e, from);
        forall f, j: nat | In(ls, f, j) && f.key == key
          ensures f == e
        {
          SameEntry(ls[from], e, f);
        }
      }
    }
  }

  /** Where each key has one entry, Get finds exactly a live value, and takes out exactly an expired one. */
  lemma GetMembers<K(!new), V(!new)>(ls: Layers<K, V>, key: K, now: int)
    requires OneEntryEach(ls)
    ensures var (r, value) := GetFrom(ls, key, now, 0);
            && (forall e, j :: In(r, e, j) <==> In(ls, e, j) && !(e.key == key && Expired(e, now)))
            && OneEntryEach(r)
            && (forall v :: value == Some(v) <==> LiveIn(ls, key, now, v))
  {
    GetFromMembers(ls, key, now, 0);
    var (r, value) := GetFrom(ls, key, now, 0);
    forall v
      ensures value == Some(v) <==> LiveIn(ls, key, now, v)
    {
      if LiveIn(ls, key, now, v) {
        var e, i :| In(ls, e, i) && e.key == key && e.value == v && !Expired(e, now);
        assert In(ls, e, i) && i >= 0;
      }
    }
  }
}
