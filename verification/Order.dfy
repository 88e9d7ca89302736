/** pkg/order/ordered_buffer.go: in-order release, and what a whole history of Insert calls emits. */
module Order {
  /** nextID and the map of values waiting for their turn. */
  datatype Buffer<V> = Buffer(next: nat, held: map<nat, V>)

  function Empty<V>(start: nat): Buffer<V> {
    Buffer(start, map[])
  }

  /** The loop of Insert: release while the next ID is present. */
  function Drain<V>(b: Buffer<V>): (r: (seq<V>, Buffer<V>))
    ensures r.1.next == b.next + |r.0|
    ensures r.1.next !in b.held
    ensures r.1.held == map id | id in b.held && !(b.next <= id < r.1.next) :: b.held[id]
    decreases |b.held|
  {
    if b.next !in b.held then
      ([], b)
    else
      var later := Drain(Buffer(b.next + 1, b.held - {b.next}));
      ([b.held[b.next]] + later.0, later.1)
  }

  lemma {:induction false} DrainValue<V>(b: Buffer<V>, j: nat)
    requires j < |Drain(b).0|
    ensures b.next + j in b.held && Drain(b).0[j] == b.held[b.next + j]
    decreases j
  {
    if j > 0 {
      DrainValue(Buffer(b.next + 1, b.held - {b.next}), j - 1);
    }
  }

  lemma DrainUnfolds<V>(b: Buffer<V>, before: seq<V>)
    ensures b.next !in b.held ==> Drain(b) == ([], b)
    ensures b.next in b.held ==>
              var later := Drain(Buffer(b.next + 1, b.held - {b.next}));
              && Drain(b).1 == later.1
              && before + Drain(b).0 == (before + [b.held[b.next]]) + later.0
  {
  }

  function InsertInto<V>(b: Buffer<V>, id: nat, value: V): (r: (seq<V>, Buffer<V>)) {
    if id < b.next then ([], b) else Drain(b.(held := b.held[id := value]))
  }

  /** Between calls everything waiting lies strictly beyond the next ID. */
  ghost predicate Settled<V>(b: Buffer<V>) {
    forall id :: id in b.held ==> b.next < id
  }

  predicate Known<V>(b: Buffer<V>, id: nat) {
    id < b.next || id in b.held
  }

  /** One Insert: it releases something exactly when it brings the ID that is due, what it releases
      is the unbroken run of values from there on, and it makes known the inserted ID and no other. */
  lemma InsertStep<V>(b: Buffer<V>, id: nat, value: V)
    requires Settled(b)
    ensures var (out, after) := InsertInto(b, id, value);
            && Settled(after)
            && (out != [] <==> id == b.next)
            && after.next == b.next + |out|
            && (forall x: nat :: Known(after, x) <==> Known(b, x) || x == id)
            && (forall x :: b.next <= x < after.next ==> x == id || x in b.held)
            && (forall j :: 0 <= j < |out| ==>
                  out[j] ==
                  if b.next + j == id then value else if b.next + j in b.held then b.held[b.next + j] else value)
            && (forall x :: x in after.held ==>
                  (x == id || x in b.held) && after.held[x] == if x == id then value else b.held[x])
  {
    var (out, after) := InsertInto(b, id, value);
    if b.next <= id {
      var start := b.(held := b.held[id := value]);
      assert (out, after) == Drain(start);
      assert start.next == b.next && start.held == b.held[id := value];
      forall j | 0 <= j < |out|
        ensures out[j] == if b.next + j == id then value else if b.next + j in b.held then b.held[b.next + j] else value
      {
        DrainValue(start, j);
      }
      forall x | b.next <= x < after.next
        ensures x == id || x in b.held
      {
        DrainValue(start, x - b.next);
      }
      forall x: nat
        ensures Known(after, x) <==> Known(b, x) || x == id
      {
        assert x in after.held <==> x in start.held && !(start.next <= x < after.next);
      }
    }
  }

  class OrderedBuffer<V> {
    var nextID: nat
    var buffer: map<nat, V>

    constructor (startID: nat)
      ensures View() == Empty(startID)
    {
      nextID, buffer := startID, map[];
    }

    ghost function View(): Buffer<V>
      reads this
    {
      Buffer(nextID, buffer)
    }

    method Insert(id: nat, value: V) returns (result: seq<V>)
      modifies this
      ensures (result, View()) == InsertInto(old(View()), id, value)
    {
      hide Drain;
      result := [];
      if id < nextID {
        return;
      }
      buffer := buffer[id := value];
      ghost var start := View();
      assert [] + Drain(start).0 == Drain(start).0;
      while nextID in buffer
        invariant result + Drain(View()).0 == Drain(start).0
        invariant Drain(View()).1 == Drain(start).1
        decreases |buffer|
      {
        DrainUnfolds(View(), result);
        result := result + [buffer[nextID]];
        buffer := buffer - {nextID};
        nextID := nextID + 1;
      }
      DrainUnfolds(View(), result);
      assert result == Drain(start).0;
    }

    method Len() returns (n: nat)
      ensures n == |View().held|
    {
      n := |buffer|;
    }
  }

  // Whole histories of Insert calls.

  datatype Call<V> = Call(id: nat, value: V)

  /** Everything emitted by a history of calls on a fresh buffer, and the buffer it leaves. */
  function Run<V>(start: nat, h: seq<Call<V>>): (r: (seq<V>, Buffer<V>)) {
    if h == [] then
      ([], Empty(start))
    else
      var (emitted, b) := Run(start, h[..|h| - 1]);
      var call := h[|h| - 1];
      var (out, after) := InsertInto(b, call.id, call.value);
      (emitted + out, after)
  }

  predicate Inserted<V>(h: seq<Call<V>>, id: nat) {
    exists i :: 0 <= i < |h| && h[i].id == id
  }

  predicate InsertedAll<V>(h: seq<Call<V>>, from: nat, to: nat) {
    forall id :: from <= id <= to ==> Inserted(h, id)
  }

  function LastValue<V>(h: seq<Call<V>>, id: nat): V
    requires Inserted(h, id)
  {
    var call := h[|h| - 1];
    if call.id == id then call.value else LastValue(h[..|h| - 1], id)
  }

  lemma PrefixInserted<V>(h: seq<Call<V>>, n: nat, from: nat, to: nat)
    requires n <= |h| && InsertedAll(h[..n], from, to)
    ensures InsertedAll(h, from, to)
  {
    forall id | from <= id <= to
      ensures Inserted(h, id)
    {
      assert Inserted(h[..n], id);
      var i :| 0 <= i < n && h[..n][i].id == id;
      assert h[i].id == id;
    }
  }

  /** The length of the shortest prefix of h that contains every ID from start to id:
      the call that ends it is the one that releases id. */
  function ReleasedBy<V>(h: seq<Call<V>>, start: nat, id: nat): (m: nat)
    requires InsertedAll(h, start, id)
    ensures m <= |h| && InsertedAll(h[..m], start, id)
    ensures forall n :: 0 <= n < m ==> !InsertedAll(h[..n], start, id)
  {
    assert h[..|h|] == h;
    if h != [] && InsertedAll(h[..|h| - 1], start, id) then
      var m := ReleasedBy(h[..|h| - 1], start, id);
      assert forall n :: 0 <= n <= m ==> h[..|h| - 1][..n] == h[..n];
      m
    else
      assert forall n :: 0 <= n < |h| ==> !InsertedAll(h[..n], start, id) by {
        forall n | 0 <= n < |h| ensures !InsertedAll(h[..n], start, id) {
          if InsertedAll(h[..n], start, id) {
            assert h[..|h| - 1][..n] == h[..n];
            PrefixInserted(h[..|h| - 1], n, start, id);
          }
        }
      }
      |h|
  }

  lemma InsertedSnoc<V>(h: seq<Call<V>>, call: Call<V>)
    ensures forall id :: Inserted(h + [call], id) <==> Inserted(h, id) || id == call.id
    ensures forall id :: Inserted(h + [call], id) ==>
              LastValue(h + [call], id) == if id == call.id then call.value else LastValue(h, id)
  {
    var g := h + [call];
    assert g[..|g| - 1] == h;
    forall id
      ensures Inserted(g, id) <==> Inserted(h, id) || id == call.id
    {
      if Inserted(h, id) {
        var i :| 0 <= i < |h| && h[i].id == id;
        assert g[i].id == id;
      }
      if id == call.id {
        assert g[|h|].id == id;
      }
    }
  }

  /** The state after any history: nextID is the least ID at or past start that was never inserted,
      the IDs waiting are exactly the inserted ones beyond it, each with the last value given. */
  lemma {:induction false} RunState<V>(start: nat, h: seq<Call<V>>)
    ensures var (emitted, b) := Run(start, h);
            && start <= b.next == start + |emitted|
            && (forall id :: start <= id < b.next ==> Inserted(h, id))
            && !Inserted(h, b.next)
            && Settled(b)
            && (forall id :: id in b.held <==> b.next < id && Inserted(h, id))
            && (forall id :: id in b.held ==> b.held[id] == LastValue(h, id))
  {
    if h != [] {
      var h' := h[..|h| - 1];
      var call := h[|h| - 1];
      RunState(start, h');
      InsertedSnoc(h', call);
      assert h == h' + [call];
      var (emitted', b') := Run(start, h');
      InsertStep(b', call.id, call.value);
      var b := Run(start, h).1;
      forall id | start <= id < b.next
        ensures Inserted(h, id)
      {
        if b'.next <= id {
          assert id == call.id || id in b'.held;
        }
      }
      assert !Known(b, b.next);
    }
  }

  lemma ReleasedNow<V>(h: seq<Call<V>>, start: nat, id: nat, missing: nat)
    requires h != [] && InsertedAll(h, start, id) && start <= missing <= id && !Inserted(h[..|h| - 1], missing)
    ensures ReleasedBy(h, start, id) == |h| && h[..|h|] == h
  {
  }

  /** One value of what a call releases. */
  lemma OutValue<V>(b: Buffer<V>, call: Call<V>, k: nat)
    requires Settled(b) && k < |InsertInto(b, call.id, call.value).0|
    ensures b.next + k == call.id || b.next + k in b.held
    ensures InsertInto(b, call.id, call.value).0[k] ==
            if b.next + k == call.id then call.value else b.held[b.next + k]
  {
    InsertStep(b, call.id, call.value);
    hide InsertInto;
  }

  lemma ValueAfter<V>(h: seq<Call<V>>, call: Call<V>, id: nat)
    requires Inserted(h + [call], id)
    ensures id != call.id ==> Inserted(h, id)
    ensures LastValue(h + [call], id) == if id == call.id then call.value else LastValue(h, id)
  {
    InsertedSnoc(h, call);
  }

  lemma EmittedByLastCall<V>(start: nat, h: seq<Call<V>>, j: nat)
    requires h != [] && |Run(start, h[..|h| - 1]).0| <= j < |Run(start, h).0|
    requires InsertedAll(h, start, start + j)
    ensures ReleasedBy(h, start, start + j) == |h| && h[..|h|] == h
    ensures Run(start, h).0[j] == LastValue(h, start + j)
  {
    hide Settled, LastValue, Drain;
    var h', call := h[..|h| - 1], h[|h| - 1];
    var (emitted, b) := Run(start, h');
    RunState(start, h');
    assert start <= b.next <= start + j && !Inserted(h', b.next);
    ReleasedNow(h, start, start + j, b.next);
    assert h == h' + [call];
    assert Inserted(h, start + j);
    hide InsertInto, ReleasedBy, InsertedAll, Inserted;
    ValueAfter(h', call, start + j);
    OutValue(b, call, j - |emitted|);
  }

  /** What is emitted, value by value: the j-th is for ID start + j, and it is the value that ID
      had when the shortest sufficient prefix of the history ended. */
  lemma {:induction false} EmittedValue<V>(start: nat, h: seq<Call<V>>, j: nat)
    requires j < |Run(start, h).0|
    ensures InsertedAll(h, start, start + j)
    ensures var m := ReleasedBy(h, start, start + j);
            Inserted(h[..m], start + j) && Run(start, h).0[j] == LastValue(h[..m], start + j)
  {
    var h' := h[..|h| - 1];
    RunState(start, h);
    RunState(start, h');
    if j < |Run(start, h').0| {
      EmittedValue(start, h', j);
      var m := ReleasedBy(h', start, start + j);
      assert h'[..m] == h[..m];
    } else {
      EmittedByLastCall(start, h, j);
    }
  }

  /** No ID is given two different values. */
  predicate Consistent<V(==)>(h: seq<Call<V>>) {
    forall i, j :: 0 <= i < |h| && 0 <= j < |h| && h[i].id == h[j].id ==> h[i].value == h[j].value
  }

  lemma {:induction false} LastValueOccurs<V>(h: seq<Call<V>>, id: nat)
    requires Inserted(h, id)
    ensures exists i :: 0 <= i < |h| && h[i] == Call(id, LastValue(h, id))
  {
    if h[|h| - 1].id != id {
      var i :| 0 <= i < |h| && h[i].id == id;
      assert h[..|h| - 1][i].id == id;
      LastValueOccurs(h[..|h| - 1], id);
      var k :| 0 <= k < |h| - 1 && h[..|h| - 1][k] == Call(id, LastValue(h, id));
      assert h[k] == Call(id, LastValue(h, id));
    } else {
      assert h[|h| - 1] == Call(id, LastValue(h, id));
    }
  }

  lemma SameValue<V>(g: seq<Call<V>>, h: seq<Call<V>>, m: nat, n: nat, id: nat)
    requires m <= |g| && n <= |h| && Inserted(g[..m], id) && Inserted(h[..n], id)
    requires Consistent(h) && forall c :: c in g ==> c in h
    ensures LastValue(g[..m], id) == LastValue(h[..n], id)
  {
    LastValueOccurs(g[..m], id);
    LastValueOccurs(h[..n], id);
    var i :| 0 <= i < m && g[..m][i] == Call(id, LastValue(g[..m], id));
    var k :| 0 <= k < n && h[..n][k] == Call(id, LastValue(h[..n], id));
    assert g[i] in h;
    assert h[k].id == id;
  }

  lemma InsertedIsMembership<V>(h: seq<Call<V>>, id: nat)
    ensures Inserted(h, id) <==> exists c :: c in h && c.id == id
  {
  }

  lemma SameEmitted<V>(start: nat, g: seq<Call<V>>, h: seq<Call<V>>)
    requires Consistent(h) && forall c :: c in g <==> c in h
    requires Run(start, g).1.next == Run(start, h).1.next
    ensures Run(start, g).0 == Run(start, h).0
  {
    hide Run, ReleasedBy, LastValue, Consistent;
    RunState(start, g);
    RunState(start, h);
    var out1, out2 := Run(start, g).0, Run(start, h).0;
    forall j | 0 <= j < |out1|
      ensures out1[j] == out2[j]
    {
      EmittedValue(start, g, j);
      EmittedValue(start, h, j);
      SameValue(g, h, ReleasedBy(g, start, start + j), ReleasedBy(h, start, start + j), start + j);
    }
  }

  lemma SameBuffer<V>(start: nat, g: seq<Call<V>>, h: seq<Call<V>>)
    requires Consistent(h) && forall c :: c in g <==> c in h
    requires forall id :: Inserted(g, id) <==> Inserted(h, id)
    ensures Run(start, g).1 == Run(start, h).1
  {
    hide Run, LastValue, Consistent;
    RunState(start, g);
    RunState(start, h);
    var b1, b2 := Run(start, g).1, Run(start, h).1;
    assert b1.next == b2.next;
    assert g[..|g|] == g && h[..|h|] == h;
    forall id | id in b1.held
      ensures id in b2.held && b1.held[id] == b2.held[id]
    {
      SameValue(g, h, |g|, |h|, id);
    }
    assert forall id :: id in b2.held ==> id in b1.held;
    assert b1.held == b2.held;
  }

  /** Order does not matter, nor does repetition: two histories made of the same calls, with one
      value per ID, emit the same stream and leave the same buffer. */
  lemma OrderIrrelevant<V>(start: nat, g: seq<Call<V>>, h: seq<Call<V>>)
    requires Consistent(h)
    requires forall c :: c in g <==> c in h
    ensures Run(start, g) == Run(start, h)
  {
    forall id
      ensures Inserted(g, id) <==> Inserted(h, id)
    {
      InsertedIsMembership(g, id);
      InsertedIsMembership(h, id);
    }
    SameBuffer(start, g, h);
    SameEmitted(start, g, h);
  }

  /** In particular any permutation of distinct IDs gives the same output. */
  lemma PermutationIrrelevant<V>(start: nat, g: seq<Call<V>>, h: seq<Call<V>>)
    requires multiset(g) == multiset(h)
    requires forall i, j :: 0 <= i < j < |h| ==> h[i].id != h[j].id
    ensures Run(start, g) == Run(start, h)
  {
    forall c
      ensures c in g <==> c in h
    {
      assert c in g <==> c in multiset(g);
      assert c in h <==> c in multiset(h);
    }
    OrderIrrelevant(start, g, h);
  }
}
