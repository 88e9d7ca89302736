/** pkg/lru/cache.go: a map into an intrusive doubly linked list, kept in step by every method. */
module LruCache {
  import opened Wrappers
  import opened CacheSpec

  class Node<K(==), V> {
    const key: K
    const value: V
    const expiresAt: int
    var prev: Node?<K, V>
    var next: Node?<K, V>

    constructor (key: K, value: V, expiresAt: int)
      ensures this.key == key && this.value == value && this.expiresAt == expiresAt
      ensures prev == null && next == null
    {
      this.key, this.value, this.expiresAt := key, value, expiresAt;
      prev, next := null, null;
    }

    function Content(): Entry<K, V> {
      Entry(key, value, expiresAt)
    }
  }

  ghost function Contents<K, V>(nodes: seq<Node<K, V>>): (r: seq<Entry<K, V>>)
    ensures |r| == |nodes|
    ensures forall i :: 0 <= i < |nodes| ==> r[i] == nodes[i].Content()
  {
    seq(|nodes|, i requires 0 <= i < |nodes| => nodes[i].Content())
  }

  lemma ContentsRemoveAt<K, V>(nodes: seq<Node<K, V>>, i: nat)
    requires i < |nodes|
    ensures Contents(RemoveAt(nodes, i)) == RemoveAt(Contents(nodes), i)
  {
  }

  lemma ContentsCons<K, V>(n: Node<K, V>, nodes: seq<Node<K, V>>)
    ensures Contents([n] + nodes) == [n.Content()] + Contents(nodes)
  {
  }

  lemma ContentsSnoc<K, V>(nodes: seq<Node<K, V>>, n: Node<K, V>)
    ensures Contents(nodes + [n]) == Contents(nodes) + [n.Content()]
  {
  }

  /** The map's nodes are exactly the list's, each under its own key. */
  ghost predicate MapAgrees<K, V>(items: map<K, Node<K, V>>, nodes: seq<Node<K, V>>) {
    && (forall i :: 0 <= i < |nodes| ==> nodes[i].key in items && items[nodes[i].key] == nodes[i])
    && (forall k :: k in items ==> items[k] in nodes && items[k].key == k)
  }

  lemma AgreesAfterRemove<K, V>(items: map<K, Node<K, V>>, nodes: seq<Node<K, V>>, i: nat)
    requires MapAgrees(items, nodes) && i < |nodes|
    requires forall j :: 0 <= j < |nodes| && j != i ==> nodes[j] != nodes[i]
    ensures MapAgrees(items - {nodes[i].key}, RemoveAt(nodes, i))
  {
  }

  lemma AgreesAfterInsert<K, V>(items: map<K, Node<K, V>>, nodes: seq<Node<K, V>>, n: Node<K, V>)
    requires MapAgrees(items - {n.key}, nodes)
    ensures MapAgrees(items[n.key := n], [n] + nodes)
  {
    assert items[n.key := n] == (items - {n.key})[n.key := n];
    assert n in [n] + nodes;
  }

  /** A node that leaves the queue joins the calls. */
  lemma QueueMoves<K, V>(queue: seq<Node<K, V>>, calls: seq<Entry<K, V>>)
    requires queue != []
    ensures multiset(Contents(queue)) + multiset(calls) ==
            multiset(Contents(queue[1..])) + multiset(calls + [queue[0].Content()])
  {
    assert Contents(queue) == [queue[0].Content()] + Contents(queue[1..]);
  }

  lemma DropLast<T>(s: seq<T>)
    ensures s != [] ==> RemoveAt(s, |s| - 1) == s[..|s| - 1]
  {
  }

  class Cache<K(==), V> {
    const ttl: int
    const hasFinalizer: bool
    const finalizerBuf: nat
    var items: map<K, Node<K, V>>
    var head: Node?<K, V>
    var tail: Node?<K, V>
    var stopped: bool
    /** The finalizeCh queue, and the calls of the finalizer so far. */
    var finalizeCh: seq<Node<K, V>>
    var finalizerCalls: seq<Entry<K, V>>
    /** A token waits in wakeCh (capacity one; it exists only with a finalizer). */
    var wakePending: bool

    /** The list from head to tail. */
    ghost var nodes: seq<Node<K, V>>
    /** Every node given to ScheduleFinalize, in order. */
    ghost var scheduled: seq<Entry<K, V>>
    /** The operations performed on this cache, in order. */
    ghost var ops: seq<Op<K, V>>

    constructor (ttl: int, hasFinalizer: bool, finalizerBuf: nat)
      ensures Valid() && View() == [] && finalizerCalls == [] && finalizeCh == [] && !stopped && !wakePending
      ensures Recorded() && ops == []
      ensures this.ttl == ttl && this.hasFinalizer == hasFinalizer && this.finalizerBuf == finalizerBuf
    {
      this.ttl, this.hasFinalizer, this.finalizerBuf := ttl, hasFinalizer, finalizerBuf;
      items, head, tail, stopped := map[], null, null, false;
      finalizeCh, finalizerCalls, wakePending := [], [], false;
      nodes, scheduled, ops := [], [], [];
    }

    /** prev and next are each other's inverse, and both follow the ghost sequence. */
    ghost predicate Linked()
      reads this`head, this`tail, this`nodes, nodes
    {
      && (forall i, j :: 0 <= i < j < |nodes| ==> nodes[i] != nodes[j])
      && head == (if nodes == [] then null else nodes[0])
      && tail == (if nodes == [] then null else nodes[|nodes| - 1])
      && (forall i {:trigger nodes[i].prev} :: 0 <= i < |nodes| ==>
            nodes[i].prev == if i == 0 then null else nodes[i - 1])
      && (forall i {:trigger nodes[i].next} :: 0 <= i < |nodes| ==>
            nodes[i].next == if i == |nodes| - 1 then null else nodes[i + 1])
    }

    ghost predicate Valid()
      reads this`head, this`tail, this`nodes, this`items, nodes
    {
      Linked() && MapAgrees(items, nodes)
    }

    ghost function View(): seq<Entry<K, V>>
      reads this`nodes
    {
      Contents(nodes)
    }

    /** With a finalizer, every scheduled node is either still queued or has been finalized, as many
        times as it was scheduled; without one, nothing is. */
    ghost predicate Accounted()
      reads this`scheduled, this`finalizeCh, this`finalizerCalls
    {
      if hasFinalizer then multiset(scheduled) == multiset(Contents(finalizeCh)) + multiset(finalizerCalls)
      else finalizeCh == [] && finalizerCalls == []
    }

    /** The list is what the operations performed leave, and what was scheduled is what they finalize. */
    ghost predicate Recorded()
      reads this`ops, this`nodes, this`scheduled, this`finalizeCh, this`finalizerCalls
    {
      Accounted() && Matches(ops, View(), scheduled)
    }

    lemma ValidMeansUnique()
      requires Valid()
      ensures UniqueKeys(View())
    {
    }

    /** In every reachable state of the object, every entry ever set is in exactly one place: in the list,
        scheduled for finalization, popped, or overwritten. With a finalizer, what was scheduled is queued
        or has been finalized; without one it is simply gone. */
    lemma EveryEntryIsSomewhere()
      requires Valid() && Recorded()
      ensures var b := RunOps(ops);
              b.created == multiset(View()) + multiset(scheduled) + b.popped + b.overwritten
      ensures if hasFinalizer then multiset(scheduled) == multiset(Contents(finalizeCh)) + multiset(finalizerCalls)
              else finalizeCh == [] && finalizerCalls == []
    {
      EveryEntryAccountedFor(ops);
    }

    /** Where a mapped key sits in the list. */
    lemma Locate(key: K) returns (i: nat)
      requires Valid()
      ensures i == Find(View(), key) <= |nodes|
      ensures key in items <==> i < |nodes|
      ensures key in items ==> nodes[i] == items[key]
    {
      i := Find(View(), key);
      if key in items {
        var j :| 0 <= j < |nodes| && nodes[j] == items[key];
        ValidMeansUnique();
        FindUnique(View(), j);
      }
    }

    /** The loop guard of Cleanup, read off the abstract list. */
    lemma TailIsLast()
      requires Valid()
      ensures |View()| == |nodes|
      ensures tail == null <==> View() == []
      ensures tail != null ==> tail == nodes[|nodes| - 1]
      ensures tail != null ==> View()[|View()| - 1] == tail.Content()
    {
    }

    method InsertHead(n: Node<K, V>)
      requires Linked() && n !in nodes && n.prev == null && n.next == null
      modifies this`head, this`tail, this`nodes, nodes, n
      ensures Linked() && nodes == [n] + old(nodes)
    {
      if head == null {
        head, tail := n, n;
        nodes := [n];
        return;
      }
      n.next := head;
      head.prev := n;
      head := n;
      nodes := [n] + nodes;
    }

    method RemoveNode(n: Node<K, V>, ghost i: nat)
      requires Linked() && i < |nodes| && nodes[i] == n
      modifies this`head, this`tail, this`nodes, nodes
      ensures Linked() && nodes == RemoveAt(old(nodes), i)
      ensures n.prev == null && n.next == null
    {
      ghost var was := nodes;
      assert i > 0 ==> was[i].prev == was[i - 1] && was[i - 1].next == n;
      assert i + 1 < |was| ==> was[i].next == was[i + 1] && was[i + 1].prev == n;
      if n.prev != null {
        n.prev.next := n.next;
      } else {
        head := n.next;
      }
      if n.next != null {
        n.next.prev := n.prev;
      } else {
        tail := n.prev;
      }
      n.prev := null;
      n.next := null;
      nodes := RemoveAt(nodes, i);
      assert forall j :: 0 <= j < |nodes| ==> nodes[j] == was[if j < i then j else j + 1];
    }

    /** RemoveNode on a mapped node: the list loses it, the map has yet to. */
    method Unlink(n: Node<K, V>, ghost i: nat)
      requires Valid() && i < |nodes| && nodes[i] == n
      modifies this`head, this`tail, this`nodes, nodes
      ensures Linked() && n !in nodes
      ensures MapAgrees(items - {n.key}, nodes)
      ensures View() == RemoveAt(old(View()), i)
      ensures nodes == RemoveAt(old(nodes), i)
    {
      ContentsRemoveAt(nodes, i);
      AgreesAfterRemove(items, nodes, i);
      RemoveNode(n, i);
    }

    /** The queue takes the node exactly when it has room, else the finalizer is called on the spot. */
    method ScheduleFinalize(n: Node<K, V>)
      requires Accounted()
      modifies this`finalizeCh, this`finalizerCalls, this`scheduled
      ensures Accounted() && scheduled == old(scheduled) + [n.Content()]
      ensures finalizeCh == old(finalizeCh) + if hasFinalizer && |old(finalizeCh)| < finalizerBuf then [n] else []
      ensures finalizerCalls ==
              old(finalizerCalls) + if hasFinalizer && |old(finalizeCh)| >= finalizerBuf then [n.Content()] else []
    {
      scheduled := scheduled + [n.Content()];
      if hasFinalizer {
        if |finalizeCh| < finalizerBuf {
          ContentsSnoc(finalizeCh, n);
          finalizeCh := finalizeCh + [n];
        } else {
          finalizerCalls := finalizerCalls + [n.Content()];
        }
      }
    }

    /** removeNode, the map deletion and scheduleFinalize, which Get, Delete and Cleanup share. */
    method Discard(n: Node<K, V>, ghost i: nat)
      requires Valid() && Accounted() && i < |nodes| && nodes[i] == n
      modifies this`items, this`head, this`tail, this`nodes, nodes
      modifies this`finalizeCh, this`finalizerCalls, this`scheduled
      ensures Valid() && Accounted()
      ensures View() == RemoveAt(old(View()), i) && nodes == RemoveAt(old(nodes), i)
      ensures scheduled == old(scheduled) + [old(View())[i]]
    {
      hide MapAgrees, Linked;
      Unlink(n, i);
      items := items - {n.key};
      ScheduleFinalize(n);
    }

    /** One round of finalizerWorker's loop: the queue's first node is finalized and leaves it. */
    method FinalizerWorkerStep()
      requires Recorded()
      modifies this`finalizeCh, this`finalizerCalls
      ensures Recorded()
      ensures if old(finalizeCh) == [] then finalizeCh == [] && finalizerCalls == old(finalizerCalls)
              else
                && finalizeCh == old(finalizeCh)[1..]
                && finalizerCalls == old(finalizerCalls) + [old(finalizeCh[0]).Content()]
    {
      hide Matches, Contents;
      if finalizeCh != [] {
        var n := finalizeCh[0];
        QueueMoves(finalizeCh, finalizerCalls);
        finalizeCh := finalizeCh[1..];
        finalizerCalls := finalizerCalls + [n.Content()];
      }
    }

    /** The node that a new one of the same key replaces, if there is one, leaves the list. */
    method UnlinkOld(key: K)
      requires Valid()
      modifies this`head, this`tail, this`nodes, nodes
      ensures Linked() && MapAgrees(items - {key}, nodes)
      ensures View() == Remove(old(View()), key)
      ensures forall n :: n in nodes ==> n in old(nodes)
    {
      hide MapAgrees, Contents, Linked;
      ghost var i := Locate(key);
      if key in items {
        Unlink(items[key], i);
      } else {
        assert items - {key} == items;
      }
    }

    /** The part that Set and SetWithTTL share. */
    method Put(key: K, value: V, expiresAt: int)
      requires Valid()
      modifies this`items, this`head, this`tail, this`nodes, nodes
      ensures Valid()
      ensures View() == CacheSpec.Put(old(View()), key, value, expiresAt)
      ensures forall n :: n in nodes ==> n in old(nodes) || fresh(n)
    {
      hide MapAgrees, Contents, Linked, Remove;
      UnlinkOld(key);
      assert forall i :: 0 <= i < |nodes| ==> nodes[i] in old(nodes);
      var node := new Node(key, value, expiresAt);
      AgreesAfterInsert(items, nodes, node);
      ContentsCons(node, nodes);
      items := items[key := node];
      InsertHead(node);
      assert MapAgrees(items, nodes);
    }

    /** A stopped cache changes nothing. */
    method Set(key: K, value: V, now: int)
      requires Valid() && Recorded()
      modifies this`items, this`head, this`tail, this`nodes, this`ops, nodes
      ensures Valid() && Recorded()
      ensures View() == if stopped then old(View()) else CacheSpec.Put(old(View()), key, value, now + ttl)
      ensures ops == old(ops) + if stopped then [] else [SetOp(key, value, now + ttl)]
      ensures forall n :: n in nodes ==> n in old(nodes) || fresh(n)
    {
      hide MapAgrees, Contents, Linked, CacheSpec.Put, Matches;
      if stopped {
        return;
      }
      SetMatches(ops, View(), scheduled, key, value, now + ttl);
      Put(key, value, now + ttl);
      ops := ops + [SetOp(key, value, now + ttl)];
    }

    method SetWithTTL(key: K, value: V, customTTL: int, now: int)
      requires Valid() && Recorded()
      modifies this`items, this`head, this`tail, this`nodes, this`ops, nodes
      ensures Valid() && Recorded()
      ensures View() == if stopped then old(View()) else CacheSpec.Put(old(View()), key, value, now + customTTL)
      ensures ops == old(ops) + if stopped then [] else [SetOp(key, value, now + customTTL)]
      ensures forall n :: n in nodes ==> n in old(nodes) || fresh(n)
    {
      hide MapAgrees, Contents, Linked, CacheSpec.Put, Matches;
      if stopped {
        return;
      }
      SetMatches(ops, View(), scheduled, key, value, now + customTTL);
      Put(key, value, now + customTTL);
      ops := ops + [SetOp(key, value, now + customTTL)];
    }

    method Get(key: K, now: int) returns (r: Option<V>)
      requires Valid() && Recorded()
      modifies this`items, this`head, this`tail, this`nodes, this`ops, nodes
      modifies this`finalizeCh, this`finalizerCalls, this`scheduled
      ensures Valid() && Recorded()
      ensures (View(), r) == CacheSpec.Get(old(View()), key, now)
      ensures View() == old(View()) ==> scheduled == old(scheduled)
      ensures View() != old(View()) ==> scheduled == old(scheduled) + [old(View())[Find(old(View()), key)]]
      ensures ops == old(ops) + [GetOp(key, now)]
      ensures forall n :: n in nodes ==> n in old(nodes)
    {
      hide MapAgrees, Contents, Linked, Matches;
      ghost var i := Locate(key);
      GetMatches(ops, View(), scheduled, key, now);
      ops := ops + [GetOp(key, now)];
      assert scheduled + [] == scheduled;
      if key !in items {
        return None;
      }
      var node := items[key];
      if now > node.expiresAt {
        Discard(node, i);
        assert |View()| < |old(View())|;
        return None;
      }
      return Some(node.value);
    }

    method Delete(key: K)
      requires Valid() && Recorded()
      modifies this`items, this`head, this`tail, this`nodes, this`ops, nodes
      modifies this`finalizeCh, this`finalizerCalls, this`scheduled
      ensures Valid() && Recorded()
      ensures View() == Remove(old(View()), key)
      ensures var i := Find(old(View()), key);
              scheduled == old(scheduled) + if i < |old(View())| then [old(View())[i]] else []
      ensures ops == old(ops) + [DeleteOp(key)]
      ensures forall n :: n in nodes ==> n in old(nodes)
    {
      hide MapAgrees, Contents, Linked, Matches;
      ghost var i := Locate(key);
      DeleteMatches(ops, View(), scheduled, key);
      ops := ops + [DeleteOp(key)];
      assert scheduled + [] == scheduled;
      if key !in items {
        return;
      }
      var node := items[key];
      Discard(node, i);
    }

    method Len() returns (n: nat)
      requires Valid()
      ensures n == |View()|
    {
      ValidMeansUnique();
      KeySetSize(View());
      assert (set e | e in View() :: e.key) == items.Keys by {
        forall k | k in items.Keys
          ensures k in set e | e in View() :: e.key
        {
          var j :| 0 <= j < |nodes| && nodes[j] == items[k];
          assert View()[j] in View() && View()[j].key == k;
        }
      }
      n := |items|;
    }

    method PeekTail() returns (r: Option<Entry<K, V>>)
      requires Valid()
      ensures r == Tail(View())
    {
      if tail == null {
        return None;
      }
      return Some(tail.Content());
    }

    /** RemoveNode(tail) and the map deletion. */
    method DropTail() returns (n: Node<K, V>)
      requires Valid() && tail != null
      modifies this`items, this`head, this`tail, this`nodes, nodes
      ensures Valid()
      ensures n == old(tail) && View() == Pop(old(View()))
      ensures nodes == old(nodes)[..|old(nodes)| - 1]
    {
      n := tail;
      assert n == nodes[|nodes| - 1];
      hide MapAgrees, Linked;
      Unlink(n, |nodes| - 1);
      items := items - {n.key};
    }

    /** The popped node is not scheduled for finalization. */
    method PopTail() returns (r: Option<Entry<K, V>>)
      requires Valid() && Recorded()
      modifies this`items, this`head, this`tail, this`nodes, this`ops, nodes
      ensures Valid() && Recorded()
      ensures r == Tail(old(View())) && View() == Pop(old(View()))
      ensures ops == old(ops) + [PopOp]
      ensures forall n :: n in nodes ==> n in old(nodes)
    {
      hide Matches, MapAgrees, Linked;
      TailIsLast();
      PopMatches(ops, View(), scheduled);
      ops := ops + [PopOp];
      if tail == null {
        return None;
      }
      var n := DropTail();
      return Some(n.Content());
    }

    /** The body of the loop of Cleanup. */
    method DiscardTail()
      requires Valid() && Accounted() && tail != null
      modifies this`items, this`head, this`tail, this`nodes, nodes
      modifies this`finalizeCh, this`finalizerCalls, this`scheduled
      ensures Valid() && Accounted()
      ensures old(View()) != [] && View() == old(View())[..|old(View())| - 1]
      ensures old(nodes) != [] && nodes == old(nodes)[..|old(nodes)| - 1]
      ensures scheduled == old(scheduled) + [old(View())[|old(View())| - 1]]
    {
      TailIsLast();
      DropLast(View());
      DropLast(nodes);
      Discard(tail, |nodes| - 1);
    }

    /** The loop of Cleanup. */
    method DiscardExpired(now: int)
      requires Valid() && Accounted()
      modifies this`items, this`head, this`tail, this`nodes, nodes
      modifies this`finalizeCh, this`finalizerCalls, this`scheduled
      ensures Valid() && Accounted()
      ensures View() == Sweep(old(View()), now)
      ensures scheduled == old(scheduled) + SweptOff(old(View()), now)
      ensures nodes <= old(nodes)
    {
      hide MapAgrees, Contents, Linked, Accounted, Sweep, SweptOff;
      while tail != null && now > tail.expiresAt
        invariant Valid() && Accounted()
        invariant Sweep(View(), now) == Sweep(old(View()), now)
        invariant scheduled + SweptOff(View(), now) == old(scheduled) + SweptOff(old(View()), now)
        invariant nodes <= old(nodes)
        decreases |nodes|
      {
        assert forall m :: m in nodes ==> m in old(nodes);
        TailIsLast();
        SweepUnfolds(View(), now, scheduled);
        DiscardTail();
      }
      TailIsLast();
      SweepUnfolds(View(), now, scheduled);
    }

    /** Leaves the swept list, schedules what it removed tail first, and re-arms its own wake-up
        whenever something is left - so with a finalizer the cleanup loop never rests while the cache
        is not empty. */
    method Cleanup(now: int)
      requires Valid() && Recorded()
      modifies this`items, this`head, this`tail, this`nodes, this`ops, nodes
      modifies this`finalizeCh, this`finalizerCalls, this`scheduled, this`wakePending
      ensures Valid() && Recorded()
      ensures View() == Sweep(old(View()), now)
      ensures scheduled == old(scheduled) + SweptOff(old(View()), now)
      ensures ops == old(ops) + [CleanupOp(now)]
      ensures wakePending == (old(wakePending) || (hasFinalizer && View() != []))
      ensures forall n :: n in nodes ==> n in old(nodes)
    {
      hide MapAgrees, Contents, Linked, Sweep, SweptOff, Matches;
      CleanupMatches(ops, View(), scheduled, now);
      DiscardExpired(now);
      TailIsLast();
      ops := ops + [CleanupOp(now)];
      if tail != null && hasFinalizer {
        wakePending := true;
      }
    }
  }
}
