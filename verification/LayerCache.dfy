/** pkg/lru/layer.go over real caches: each method is the corresponding function of LayerSpec on
    the lists its caches hold. */
module LayeredCache {
  import opened Wrappers
  import opened CacheSpec
  import opened LruCache
  import LayerSpec

  /** What a promotion does to the layers' caches: a PopTail, which schedules nothing, and - if the packet
      lives on - a Set one layer up. */
  ghost function PromoteOps<K, V>(ops: seq<seq<CacheSpec.Op<K, V>>>, i: int, key: K, moved: Option<V>, expiresAt: int)
    : seq<seq<CacheSpec.Op<K, V>>>
  {
    if i < 0 || i >= |ops| then ops
    else
      var popped := ops[i := ops[i] + [PopOp]];
      if moved.None? || i + 1 >= |ops| then popped
      else popped[i + 1 := popped[i + 1] + [SetOp(key, moved.value, expiresAt)]]
  }

  /** One more operation on each of the first n layers. */
  function Extended<T>(ops: seq<seq<T>>, n: nat, op: T): (r: seq<seq<T>>)
    ensures |r| == |ops|
    ensures forall j :: 0 <= j < |ops| ==> r[j] == if j < n then ops[j] + [op] else ops[j]
  {
    seq(|ops|, j requires 0 <= j < |ops| => if j < n then ops[j] + [op] else ops[j])
  }

  lemma ExtendedNext<T>(ops: seq<seq<T>>, n: nat, op: T)
    requires n < |ops|
    ensures Extended(ops, n + 1, op) == Extended(ops, n, op)[n := Extended(ops, n, op)[n] + [op]]
  {
  }

  class LayerCache<K(==), V> {
    const layers: seq<Cache<K, V>>
    /** The Backoff strategy: the interval before the given attempt. */
    const backoff: int -> int

    constructor (layers: seq<Cache<K, V>>, backoff: int -> int)
      ensures this.layers == layers && this.backoff == backoff
    {
      this.layers, this.backoff := layers, backoff;
    }

    ghost function Nodes(): set<object>
      reads layers
    {
      set i, n | 0 <= i < |layers| && n in layers[i].nodes :: n as object
    }

    ghost predicate Running(i: nat)
      requires i < |layers|
      reads layers[i], layers[i].nodes
    {
      layers[i].Valid() && layers[i].Recorded() && !layers[i].stopped
    }

    /** Every cache is sound and running, and no two share a node. */
    ghost predicate Valid()
      reads layers, Nodes()
    {
      && (forall i, n :: 0 <= i < |layers| && n in layers[i].nodes ==> n in Nodes())
      && (forall i :: 0 <= i < |layers| ==> Running(i))
      && (forall i, j :: 0 <= i < j < |layers| ==> layers[i] != layers[j])
      && (forall i, j, n :: 0 <= i < |layers| && 0 <= j < |layers| && i != j && n in layers[i].nodes ==>
            n !in layers[j].nodes)
    }

    ghost function View(): (r: LayerSpec.Layers<K, V>)
      reads layers
      ensures |r| == |layers|
      ensures forall i :: 0 <= i < |layers| ==> r[i] == layers[i].View()
    {
      seq(|layers|, i requires 0 <= i < |layers| reads layers => layers[i].View())
    }

    /** The operations performed on each layer. With Recorded, they say what was scheduled for
        finalization there. */
    ghost function Ops(): (r: seq<seq<CacheSpec.Op<K, V>>>)
      reads layers
      ensures |r| == |layers|
      ensures forall i :: 0 <= i < |layers| ==> r[i] == layers[i].ops
    {
      seq(|layers|, i requires 0 <= i < |layers| reads layers => layers[i].ops)
    }

    /** A layer left alone, nodes and all, is as it was. */
    twostate lemma LayerUntouched(j: nat)
      requires j < |layers| && old(Running(j))
      requires unchanged(layers[j]) && forall n :: n in old(layers[j].nodes) ==> unchanged(n)
      ensures Running(j) && layers[j].View() == old(layers[j].View())
    {
    }

    /** Layer i may have dropped nodes and added new ones: still no two layers share one. */
    twostate lemma StillDisjoint(i: nat)
      requires i < |layers| && old(Valid())
      requires forall j :: 0 <= j < |layers| && j != i ==> layers[j].nodes == old(layers[j].nodes)
      requires forall n :: n in layers[i].nodes ==> n in old(layers[i].nodes) || !old(allocated(n))
      ensures forall j, k, n :: 0 <= j < |layers| && 0 <= k < |layers| && j != k && n in layers[j].nodes ==>
                n !in layers[k].nodes
    {
      hide Running;
    }

    /** One layer worked on, the others and their nodes left alone. */
    twostate lemma OneLayerStep(i: nat)
      requires i < |layers| && old(Valid())
      requires forall j :: 0 <= j < |layers| && j != i ==> unchanged(layers[j])
      requires forall j, n :: 0 <= j < |layers| && j != i && n in old(layers[j].nodes) ==> unchanged(n)
      requires Running(i)
      requires forall n :: n in layers[i].nodes ==> n in old(layers[i].nodes) || !old(allocated(n))
      ensures Valid()
      ensures View() == old(View())[i := layers[i].View()]
      ensures Ops() == old(Ops())[i := layers[i].ops]
    {
      hide Running, Cache.View;
      forall j | 0 <= j < |layers| && j != i
        ensures Running(j) && layers[j].View() == old(layers[j].View())
      {
        LayerUntouched(j);
      }
      StillDisjoint(i);
    }

    /** One layer's Get, Delete, PopTail and SetWithTTL, among the others. */
    method GetAt(i: nat, key: K, now: int) returns (r: Option<V>)
      requires Valid() && i < |layers|
      modifies layers, Nodes()
      ensures Valid() && View() == old(View())[i := CacheSpec.Get(old(View())[i], key, now).0]
      ensures r == CacheSpec.Get(old(View())[i], key, now).1
      ensures Ops() == old(Ops())[i := old(Ops())[i] + [GetOp(key, now)]]
      ensures forall n :: n in Nodes() ==> n in old(Nodes())
    {
      hide Cache.Valid, Cache.Recorded, Cache.View, CacheSpec.Get;
      assert Running(i);
      r := layers[i].Get(key, now);
      OneLayerStep(i);
      assert forall j :: 0 <= j < |layers| && j != i ==> layers[j].nodes == old(layers[j].nodes);
    }

    method DeleteAt(i: nat, key: K)
      requires Valid() && i < |layers|
      modifies layers, Nodes()
      ensures Valid() && View() == old(View())[i := Remove(old(View())[i], key)]
      ensures Ops() == old(Ops())[i := old(Ops())[i] + [DeleteOp(key)]]
      ensures forall n :: n in Nodes() ==> n in old(Nodes())
    {
      hide Cache.Valid, Cache.Recorded, Cache.View, Remove;
      assert Running(i);
      layers[i].Delete(key);
      OneLayerStep(i);
      assert forall j :: 0 <= j < |layers| && j != i ==> layers[j].nodes == old(layers[j].nodes);
    }

    method PopFrom(i: nat) returns (popped: Option<Entry<K, V>>)
      requires Valid() && i < |layers|
      modifies layers, Nodes()
      ensures Valid() && View() == old(View())[i := Pop(old(View())[i])]
      ensures popped == Tail(old(View())[i])
      ensures Ops() == old(Ops())[i := old(Ops())[i] + [PopOp]]
      ensures forall n :: n in Nodes() ==> n in old(Nodes())
    {
      hide Cache.Valid, Cache.Recorded, Cache.View, Pop, Tail;
      assert Running(i);
      popped := layers[i].PopTail();
      OneLayerStep(i);
      assert forall j :: 0 <= j < |layers| && j != i ==> layers[j].nodes == old(layers[j].nodes);
    }

    method StoreIn(i: nat, key: K, value: V, customTTL: int, now: int)
      requires Valid() && i < |layers|
      modifies layers, Nodes()
      ensures Valid() && View() == old(View())[i := Put(old(View())[i], key, value, now + customTTL)]
      ensures Ops() == old(Ops())[i := old(Ops())[i] + [SetOp(key, value, now + customTTL)]]
    {
      hide Cache.Valid, Cache.Recorded, Cache.View, Put;
      assert Running(i);
      layers[i].SetWithTTL(key, value, customTTL, now);
      OneLayerStep(i);
    }

    method Set(key: K, value: V, now: int)
      requires Valid()
      modifies layers, Nodes()
      ensures Valid()
      ensures View() == LayerSpec.SetFirst(old(View()), key, value, if layers == [] then 0 else now + layers[0].ttl)
      ensures layers != [] ==> layers[0].ops == old(layers[0].ops) + [SetOp(key, value, now + layers[0].ttl)]
      ensures forall j :: 0 < j < |layers| ==> unchanged(layers[j])
      ensures forall j, n :: 0 < j < |layers| && n in old(layers[j].nodes) ==> unchanged(n)
    {
      hide Cache.Valid, Cache.Recorded, Cache.View, Put;
      if |layers| > 0 {
        assert Running(0);
        layers[0].Set(key, value, now);
        OneLayerStep(0);
      }
    }

    /** A Get of the key on every layer up to the one that has a live value. */
    method Get(key: K, now: int) returns (r: Option<V>)
      requires Valid()
      modifies layers, Nodes()
      ensures Valid()
      ensures (View(), r) == LayerSpec.GetFrom(old(View()), key, now, 0)
      ensures exists n: nat :: n <= |layers| && (r.None? ==> n == |layers|) &&
                Ops() == Extended(old(Ops()), n, GetOp(key, now))
    {
      hide Valid, View, Ops, CacheSpec.Get, LayerSpec.GetFrom, Extended;
      for i := 0 to |layers|
        invariant Valid()
        invariant LayerSpec.GetFrom(View(), key, now, i) == LayerSpec.GetFrom(old(View()), key, now, 0)
        invariant Ops() == Extended(old(Ops()), i, GetOp(key, now))
        invariant forall n :: n in Nodes() ==> n in old(Nodes())
      {
        LayerSpec.GetFromHere(View(), key, now, i);
        ExtendedNext(old(Ops()), i, GetOp(key, now));
        r := GetAt(i, key, now);
        if r.Some? {
          return;
        }
      }
      LayerSpec.GetFromHere(View(), key, now, |layers|);
      return None;
    }

    method Delete(key: K)
      requires Valid()
      modifies layers, Nodes()
      ensures Valid()
      ensures View() == LayerSpec.DeleteAll(old(View()), key)
      ensures Ops() == Extended(old(Ops()), |layers|, DeleteOp(key))
      ensures forall n :: n in Nodes() ==> n in old(Nodes())
    {
      hide Valid, View, Ops, Remove, Extended;
      for i := 0 to |layers|
        invariant Valid()
        invariant forall j :: 0 <= j < |layers| ==>
                  View()[j] == if j < i then Remove(old(View())[j], key) else old(View())[j]
        invariant Ops() == Extended(old(Ops()), i, DeleteOp(key))
        invariant forall n :: n in Nodes() ==> n in old(Nodes())
      {
        ExtendedNext(old(Ops()), i, DeleteOp(key));
        DeleteAt(i, key);
      }
    }

    method PeekExpiredScan(now: int) returns (r: Option<LayerSpec.Peeked<K, V>>)
      requires Valid()
      ensures r == LayerSpec.PeekExpired(View(), now)
    {
      hide Cache.Valid, Cache.Recorded, Cache.View;
      for i := 0 to |layers|
        invariant LayerSpec.FirstExpired(View(), now, 0) == LayerSpec.FirstExpired(View(), now, i)
      {
        assert Running(i);
        var tail := layers[i].PeekTail();
        if tail.Some? && now > tail.value.expiresAt {
          return Some(LayerSpec.Peeked(tail.value.key, tail.value.value, i));
        }
      }
      return None;
    }

    method GetEarliestDeadline() returns (r: Option<int>)
      requires Valid()
      ensures r == LayerSpec.EarliestTail(View(), |View()|)
    {
      hide Cache.Valid, Cache.Recorded, Cache.View;
      var earliest, found := 0, false;
      for i := 0 to |layers|
        invariant LayerSpec.EarliestTail(View(), i) == if found then Some(earliest) else None
      {
        assert Running(i);
        var tail := layers[i].PeekTail();
        if tail.Some? {
          if !found || tail.value.expiresAt < earliest {
            earliest := tail.value.expiresAt;
            found := true;
          }
        }
      }
      return if found then Some(earliest) else None;
    }

    /** The key of the popped entry is ignored, as in the code. */
    method PromoteLayer(key: K, currentLayerIndex: int, now: int) returns (value: Option<V>, alive: bool)
      requires Valid()
      modifies layers, Nodes()
      ensures Valid()
      ensures (View(), value, alive) ==
              LayerSpec.Promote(old(View()), key, currentLayerIndex, now + backoff(currentLayerIndex + 1))
      ensures Ops() == PromoteOps(old(Ops()), currentLayerIndex, key, if alive then value else None,
                                  now + backoff(currentLayerIndex + 1))
    {
      hide Valid, View, Ops, LayerSpec.Promote, Put, Pop, Tail;
      LayerSpec.PromoteCases(View(), key, currentLayerIndex, now + backoff(currentLayerIndex + 1));
      var i := currentLayerIndex;
      if i < 0 || i >= |layers| {
        return None, false;
      }
      var popped := PopFrom(i);
      if popped.None? {
        return None, false;
      }
      var nextLayer := i + 1;
      if nextLayer >= |layers| {
        return Some(popped.value.value), false;
      }
      var nextTTL := backoff(nextLayer);
      StoreIn(nextLayer, key, popped.value.value, nextTTL, now);
      return Some(popped.value.value), true;
    }

    method Len() returns (total: nat)
      requires Valid()
      ensures total == LayerSpec.TotalLen(View())
    {
      hide Cache.Valid, Cache.Recorded, Cache.View;
      total := 0;
      for i := 0 to |layers|
        invariant total == LayerSpec.TotalLen(View()[..i])
      {
        assert Running(i);
        assert View()[..i + 1][..i] == View()[..i];
        var n := layers[i].Len();
        total := total + n;
      }
      assert View()[..|layers|] == View();
    }
  }
}
