/** Runs of a layered cache used as the client uses it: every key is set once, and promoted only as
    the tail of its layer. */
module LayerRuns {
  import opened CacheSpec
  import opened LayerSpec

  /** The use the client makes of the cache: no key is set while it is pending, and a promotion names
      the tail it pops. */
  ghost predicate Orderly<K(!new), V(!new)>(ls: Layers<K, V>, op: LayerSpec.Op<K, V>) {
    && (op.SetOp? ==> ls != [] && !Pending(ls, op.key))
    && (op.PromoteOp? ==> IsTailKey(ls, op.key, op.layer))
  }

  ghost predicate OrderlyRun<K(!new), V(!new)>(layers: nat, interval: nat -> int, run: seq<Timed<K, V>>) {
    forall n: nat :: n < |run| ==> Orderly(LayerSpec.Run(layers, interval, run[..n]), run[n].op)
  }

  lemma FrontOneEach<K(!new), V(!new)>(ls: Layers<K, V>)
    requires OneEntryEach(ls) && ls != []
    ensures OneEntryEach(ls[..|ls| - 1])
  {
    var front := ls[..|ls| - 1];
    assert forall e, i :: In(front, e, i) ==> In(ls, e, i);
  }

  /** A key is in the last layer or in those before, never in both. */
  lemma FrontPending<K(!new), V(!new)>(ls: Layers<K, V>, key: K)
    requires OneEntryEach(ls) && ls != []
    ensures var n := |ls| - 1;
            && (Pending(ls, key) <==> Pending(ls[..n], key) || HasKey(ls[n], key))
            && !(Pending(ls[..n], key) && HasKey(ls[n], key))
  {
    var n := |ls| - 1;
    var front := ls[..n];
    if Pending(front, key) {
      var i: nat :| InLayer(front, key, i);
      var e :| In(front, e, i) && e.key == key;
      Witness(ls, e, i);
      if HasKey(ls[n], key) {
        var j :| 0 <= j < |ls[n]| && ls[n][j].key == key;
        assert In(ls, ls[n][j], n) && In(ls, e, i);
      }
    }
    if HasKey(ls[n], key) {
      var j :| 0 <= j < |ls[n]| && ls[n][j].key == key;
      Witness(ls, ls[n][j], n);
    }
    if Pending(ls, key) {
      var i: nat :| InLayer(ls, key, i);
      var e :| In(ls, e, i) && e.key == key;
      if i < n {
        Witness(front, e, i);
      } else {
        assert HasKey(ls[n], key);
      }
    }
  }

  lemma RemoveLen<K, V>(es: seq<Entry<K, V>>, key: K)
    ensures |Remove(es, key)| == |es| - if HasKey(es, key) then 1 else 0
  {
    var i := Find(es, key);
    assert i < |es| ==> HasKey(es, key);
  }

  lemma {:induction false} DeleteLen<K(!new), V(!new)>(ls: Layers<K, V>, key: K)
    requires OneEntryEach(ls)
    ensures TotalLen(DeleteAll(ls, key)) == TotalLen(ls) - if Pending(ls, key) then 1 else 0
  {
    if ls != [] {
      var n := |ls| - 1;
      var front := ls[..n];
      FrontOneEach(ls);
      assert DeleteAll(ls, key)[..n] == DeleteAll(front, key);
      DeleteLen(front, key);
      FrontPending(ls, key);
      RemoveLen(ls[n], key);
    }
  }

  /** An expired entry of the key lies in layer `from` or above. */
  ghost predicate Overdue<K(!new), V(!new)>(ls: Layers<K, V>, key: K, now: int, from: nat) {
    exists e, j: nat :: In(ls, e, j) && j >= from && e.key == key && Expired(e, now)
  }

  /** What Get does to one layer, and what that means for the layers from there on. */
  lemma GetOneLayer<K(!new), V(!new)>(ls: Layers<K, V>, key: K, now: int, from: nat)
    requires OneEntryEach(ls) && from < |ls|
    ensures var (es, found) := CacheSpec.Get(ls[from], key, now);
            var ls' := ls[from := es];
            && OneEntryEach(ls')
            && |es| == |ls[from]| - (if Overdue(ls, key, now, from) && !Overdue(ls', key, now, from + 1) then 1 else 0)
            && (found.Some? ==> !Overdue(ls, key, now, from))
            && (Overdue(ls', key, now, from + 1) ==> Overdue(ls, key, now, from))
  {
    var (es, found) := CacheSpec.Get(ls[from], key, now);
    var ls' := ls[from := es];
    var i := Find(ls[from], key);
    GetKeeps(ls[from], key, now);
    assert forall e, j: nat :: j != from ==> (In(ls', e, j) <==> In(ls, e, j));
    assert forall e, j: nat :: In(ls', e, j) ==> In(ls, e, j);
    if i < |ls[from]| {
      var e := ls[from][i];
      assert In(ls, e, from);
      forall f, j: nat | In(ls, f, j) && f.key == key
        ensures f == e && j == from
      {
        SameEntry(ls[from], e, f);
      }
    } else {
      assert forall e :: In(ls, e, from) ==> e.key != key;
      if Overdue(ls, key, now, from) {
        var e, j: nat :| In(ls, e, j) && j >= from && e.key == key && Expired(e, now);
        assert In(ls', e, j);
      }
    }
  }

  lemma {:induction false} GetLen<K(!new), V(!new)>(ls: Layers<K, V>, key: K, now: int, from: nat)
    requires OneEntryEach(ls) && from <= |ls|
    ensures TotalLen(GetFrom(ls, key, now, from).0) == TotalLen(ls) - if Overdue(ls, key, now, from) then 1 else 0
    decreases |ls| - from
  {
    if from < |ls| {
      var (es, found) := CacheSpec.Get(ls[from], key, now);
      var ls' := ls[from := es];
      GetOneLayer(ls, key, now, from);
      hide CacheSpec.Get, OneEntryEach, TotalLen, Overdue;
      TotalLenUpdate(ls, from, es);
      if found.None? {
        GetLen(ls', key, now, from + 1);
      }
    }
  }

  lemma TailKeyIndex<K, V>(ls: Layers<K, V>, key: K, i: int)
    requires IsTailKey(ls, key, i)
    ensures 0 <= i < |ls|
  {
  }

  lemma SetAddsOne<K(!new), V(!new)>(ls: Layers<K, V>, key: K, value: V, expiresAt: int)
    requires OneEntryEach(ls) && ls != [] && !Pending(ls, key)
    ensures OneEntryEach(SetFirst(ls, key, value, expiresAt))
    ensures TotalLen(SetFirst(ls, key, value, expiresAt)) == TotalLen(ls) + 1
  {
    SetFirstMembers(ls, key, value, expiresAt);
    hide OneEntryEach, Pending;
    TotalLenUpdate(ls, 0, Put(ls[0], key, value, expiresAt));
    RemoveLen(ls[0], key);
    forall j | 0 <= j < |ls[0]|
      ensures ls[0][j].key != key
    {
      Witness(ls, ls[0][j], 0);
    }
  }

  /** Set adds one; a promotion to the next layer leaves Len as it is; it is lowered, by one, by a
      promotion off the last layer, the Delete of a present key and the Get of an expired one, and by
      nothing else. And each key stays in one place. */
  lemma LenByStep<K(!new), V(!new)>(ls: Layers<K, V>, interval: nat -> int, t: Timed<K, V>)
    requires OneEntryEach(ls) && Orderly(ls, t.op)
    ensures var ls' := LayerSpec.Step(ls, interval, t);
            && OneEntryEach(ls')
            && TotalLen(ls') == TotalLen(ls) +
                 if t.op.SetOp? then 1
                 else if t.op.GetOp? then if Overdue(ls, t.op.key, t.now, 0) then -1 else 0
                 else if t.op.DeleteOp? then if Pending(ls, t.op.key) then -1 else 0
                 else if t.op.layer + 1 < |ls| then 0 else -1
  {
    hide OneEntryEach, Pending, SetFirst, GetFrom, DeleteAll, Promote, TotalLen, IsTailKey, Overdue;
    match t.op
    case SetOp(key, value) => SetAddsOne(ls, key, value, t.now + interval(0));
    case GetOp(key) =>
      GetMembers(ls, key, t.now);
      GetLen(ls, key, t.now, 0);
    case DeleteOp(key) =>
      DeleteMembers(ls, key);
      DeleteLen(ls, key);
    case PromoteOp(key, i) =>
      TailKeyIndex(ls, key, i);
      PromoteMovesOne(ls, key, i, t.now + interval(i + 1));
  }

  /** So in every such run each key is in at most one layer, with one entry. */
  lemma {:induction false} EachKeyInOneLayer<K(!new), V(!new)>(layers: nat, interval: nat -> int, run: seq<Timed<K, V>>)
    requires OrderlyRun(layers, interval, run)
    ensures OneEntryEach(LayerSpec.Run(layers, interval, run))
  {
    if run != [] {
      var front, last := run[..|run| - 1], run[|run| - 1];
      assert forall n: nat :: n <= |front| ==> front[..n] == run[..n];
      EachKeyInOneLayer(layers, interval, front);
      hide OneEntryEach, Orderly, LayerSpec.Step;
      assert run[..|run| - 1] == front;
      LenByStep(LayerSpec.Run(layers, interval, front), interval, last);
    }
  }
}
