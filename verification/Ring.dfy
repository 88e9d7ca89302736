/** pkg/order/ring.go: the fixed-window ring buffer, and its simulation by the map-based buffer. */
module Ring {
  import opened Wrappers
  import opened Order

  /** The fields of RingBuffer: slot contents, which slots are filled, nextID and count. */
  datatype State<V> = State(start: nat, next: nat, buf: seq<V>, filled: seq<bool>, count: nat)

  function CountTrue(s: seq<bool>): (n: nat)
    ensures n <= |s|
    ensures n == 0 <==> forall i :: 0 <= i < |s| ==> !s[i]
  {
    if s == [] then 0 else CountTrue(s[..|s| - 1]) + if s[|s| - 1] then 1 else 0
  }

  lemma {:induction false} CountTrueSplit(s: seq<bool>, t: seq<bool>)
    ensures CountTrue(s + t) == CountTrue(s) + CountTrue(t)
  {
    if t == [] {
      assert s + t == s;
    } else {
      assert (s + t)[..|s + t| - 1] == s + t[..|t| - 1];
      CountTrueSplit(s, t[..|t| - 1]);
    }
  }

  lemma CountTrueUpdate(s: seq<bool>, i: nat, b: bool)
    requires i < |s|
    ensures CountTrue(s[i := b]) == CountTrue(s) - (if s[i] then 1 else 0) + if b then 1 else 0
  {
    assert s == s[..i] + [s[i]] + s[i + 1..];
    assert s[i := b] == s[..i] + [b] + s[i + 1..];
    CountTrueSplit(s[..i] + [s[i]], s[i + 1..]);
    CountTrueSplit(s[..i] + [b], s[i + 1..]);
    assert (s[..i] + [s[i]])[..i] == s[..i] && (s[..i] + [b])[..i] == s[..i];
  }

  ghost predicate Valid<V>(r: State<V>) {
    && |r.buf| == |r.filled|
    && r.start <= r.next <= r.start + |r.buf|
    && r.count == CountTrue(r.filled)
  }

  function New<V>(size: nat, start: nat, zero: V): State<V> {
    State(start, start, seq(size, _ => zero), seq(size, _ => false), 0)
  }

  predicate InWindow<V>(r: State<V>, id: nat) {
    r.start <= id < r.start + |r.buf|
  }

  function InsertSlot<V>(r: State<V>, id: nat, value: V): (State<V>, bool)
    requires |r.buf| == |r.filled|
  {
    if !InWindow(r, id) then (r, false)
    else
      var offset := (id - r.start) % |r.buf|;
      var r' := r.(buf := r.buf[offset := value]);
      (if r.filled[offset] then r' else r'.(filled := r.filled[offset := true], count := r.count + 1), true)
  }

  function TakeNext<V>(r: State<V>, zero: V): (State<V>, Option<V>)
    requires Valid(r)
  {
    if r.count == 0 || r.next >= r.start + |r.buf| then (r, None)
    else
      var offset := (r.next - r.start) % |r.buf|;
      if !r.filled[offset] then (r, None)
      else
        (State(r.start, r.next + 1, r.buf[offset := zero], r.filled[offset := false], r.count - 1), Some(r.buf[offset]))
  }

  lemma OffsetInWindow(id: nat, start: nat, size: nat)
    requires start <= id < start + size
    ensures (id - start) % size == id - start
  {
  }

  lemma InsertSlotKeeps<V>(r: State<V>, id: nat, value: V)
    requires Valid(r)
    ensures Valid(InsertSlot(r, id, value).0)
  {
    hide CountTrue;
    if InWindow(r, id) {
      OffsetInWindow(id, r.start, |r.buf|);
      CountTrueUpdate(r.filled, id - r.start, true);
    }
  }

  /** What InsertSlot does to the slots: an ID has the one at its distance from start. */
  lemma InsertSlotEffect<V>(r: State<V>, id: nat, value: V)
    requires Valid(r)
    ensures var (r', ok) := InsertSlot(r, id, value);
            && (ok <==> r.start <= id < r.start + |r.buf|)
            && (ok ==> r'.buf == r.buf[id - r.start := value] && r'.filled == r.filled[id - r.start := true])
            && (!ok ==> r' == r)
  {
    hide CountTrue;
    if InWindow(r, id) {
      OffsetInWindow(id, r.start, |r.buf|);
    }
  }

  lemma TakeNextEffect<V>(r: State<V>, zero: V)
    requires Valid(r)
    ensures var (r', taken) := TakeNext(r, zero);
            && (taken.Some? <==> r.next < r.start + |r.buf| && r.filled[r.next - r.start])
            && (taken.Some? ==>
                  var offset := r.next - r.start;
                  && taken.value == r.buf[offset] && r'.next == r.next + 1
                  && r'.buf == r.buf[offset := zero] && r'.filled == r.filled[offset := false])
            && (taken.None? ==> r' == r)
  {
    hide CountTrue;
    if r.next < r.start + |r.buf| {
      OffsetInWindow(r.next, r.start, |r.buf|);
    }
  }

  lemma TakeNextStays<V>(r: State<V>, zero: V)
    requires Valid(r)
    ensures TakeNext(r, zero).0.start == r.start
  {
    hide CountTrue;
  }

  lemma TakeNextKeeps<V>(r: State<V>, zero: V)
    requires Valid(r)
    ensures Valid(TakeNext(r, zero).0)
    ensures TakeNext(r, zero).1.Some? ==> TakeNext(r, zero).0.count < r.count
  {
    hide CountTrue;
    if r.count > 0 && r.next < r.start + |r.buf| {
      OffsetInWindow(r.next, r.start, |r.buf|);
      CountTrueUpdate(r.filled, r.next - r.start, false);
    }
  }

  /** GetNext until it says no. */
  function DrainAll<V>(r: State<V>, zero: V): (out: (State<V>, seq<V>))
    requires Valid(r)
    ensures Valid(out.0)
    decreases r.count
  {
    TakeNextKeeps(r, zero);
    var (r', taken) := TakeNext(r, zero);
    if taken.None? then (r', [])
    else
      var (r'', later) := DrainAll(r', zero);
      (r'', [taken.value] + later)
  }

  class RingBuffer<V(0)> {
    const zero: V
    const size: nat
    const startID: nat
    var buf: array<V>
    var filled: array<bool>
    var nextID: nat
    var count: nat

    constructor (size: nat, startID: nat, zero: V)
      ensures View() == New(size, startID, zero) && Sound()
      ensures fresh(buf) && fresh(filled) && this.zero == zero
    {
      this.zero, this.size, this.startID := zero, size, startID;
      buf := new V[size](_ => zero);
      filled := new bool[size](_ => false);
      nextID, count := startID, 0;
      new;
      assert filled[..] == seq(size, _ => false);
      assert buf[..] == seq(size, _ => zero);
    }

    ghost function View(): State<V>
      reads this, buf, filled
    {
      State(startID, nextID, buf[..], filled[..], count)
    }

    ghost predicate Sound()
      reads this, buf, filled
    {
      buf.Length == filled.Length == size && Valid(View()) && buf as object != filled
    }

    method Insert(id: nat, value: V) returns (ok: bool)
      requires Sound()
      modifies this`count, buf, filled
      ensures Sound()
      ensures (View(), ok) == InsertSlot(old(View()), id, value)
      ensures ok <==> startID <= id < startID + size
      ensures ok ==>
                && buf[..] == old(buf[..])[id - startID := value]
                && filled[..] == old(filled[..])[id - startID := true]
      ensures !ok ==> View() == old(View())
    {
      InsertSlotKeeps(View(), id, value);
      InsertSlotEffect(View(), id, value);
      hide CountTrue;
      if id < startID || id >= startID + size {
        return false;
      }
      var offset := (id - startID) % size;
      buf[offset] := value;
      if !filled[offset] {
        filled[offset] := true;
        count := count + 1;
      }
      return true;
    }

    method GetNext() returns (r: Option<V>)
      requires Sound()
      modifies this`count, this`nextID, buf, filled
      ensures Sound()
      ensures (View(), r) == TakeNext(old(View()), zero)
      ensures r.Some? <==> old(nextID) < startID + size && old(filled[nextID - startID])
      ensures r.Some? ==>
                var offset := old(nextID) - startID;
                && r.value == old(buf[offset]) && nextID == old(nextID) + 1
                && buf[..] == old(buf[..])[offset := zero] && filled[..] == old(filled[..])[offset := false]
      ensures r.None? ==> View() == old(View())
    {
      TakeNextKeeps(View(), zero);
      TakeNextEffect(View(), zero);
      hide CountTrue;
      if count == 0 || nextID >= startID + size {
        return None;
      }
      var offset := (nextID - startID) % size;
      if !filled[offset] {
        return None;
      }
      var val := buf[offset];
      buf[offset] := zero;
      filled[offset] := false;
      count := count - 1;
      nextID := nextID + 1;
      return Some(val);
    }

    /** The number of filled slots, stale ones included. */
    method Len() returns (n: nat)
      requires Sound()
      ensures n == CountTrue(filled[..])
    {
      n := count;
    }
  }

  /** The ring and the map agree on everything at or past the next ID; slots below it are free to
      hold leftovers of late re-inserts. */
  ghost predicate Simulates<V>(r: State<V>, b: Buffer<V>) {
    && Valid(r)
    && r.next == b.next
    && (forall id :: id in b.held ==> r.next <= id < r.start + |r.buf|)
    && (forall o :: r.next - r.start <= o < |r.buf| ==>
          (r.filled[o] <==> r.start + o in b.held) && (r.filled[o] ==> r.buf[o] == b.held[r.start + o]))
  }

  lemma TakeSimulates<V>(r: State<V>, b: Buffer<V>, zero: V)
    requires Simulates(r, b) && TakeNext(r, zero).1.Some?
    ensures Valid(r) && b.next in b.held
    ensures TakeNext(r, zero).1 == Some(b.held[b.next])
    ensures Simulates(TakeNext(r, zero).0, Buffer(b.next + 1, b.held - {b.next}))
  {
    hide CountTrue;
    TakeNextKeeps(r, zero);
    OffsetInWindow(r.next, r.start, |r.buf|);
    var o := r.next - r.start;
    assert r.filled[o] && r.start + o == b.next;
  }

  lemma NothingToTake<V>(r: State<V>, b: Buffer<V>, zero: V)
    requires Simulates(r, b) && TakeNext(r, zero).1.None?
    ensures Valid(r)
    ensures b.next !in b.held && TakeNext(r, zero).0 == r
  {
    if r.next < r.start + |r.buf| {
      OffsetInWindow(r.next, r.start, |r.buf|);
      var o := r.next - r.start;
      assert r.filled[o] <==> r.start + o in b.held;
    }
  }

  lemma {:induction false} DrainSimulates<V>(r: State<V>, b: Buffer<V>, zero: V)
    requires Valid(r) && Simulates(r, b)
    ensures DrainAll(r, zero).1 == Drain(b).0
    ensures Simulates(DrainAll(r, zero).0, Drain(b).1)
    decreases r.count
  {
    hide Simulates;
    TakeNextKeeps(r, zero);
    if TakeNext(r, zero).1.Some? {
      TakeSimulates(r, b, zero);
      DrainSimulates(TakeNext(r, zero).0, Buffer(b.next + 1, b.held - {b.next}), zero);
    } else {
      NothingToTake(r, b, zero);
    }
  }

  lemma SettledDrain<V>(b: Buffer<V>)
    requires Settled(b)
    ensures Drain(b) == ([], b)
  {
  }

  /** One in-window call on both sides: same values out, still in agreement. A stale ID is ignored
      by the map and leaves a filled slot behind in the ring, which no later drain can see. */
  lemma CallSimulates<V>(r: State<V>, b: Buffer<V>, id: nat, value: V, zero: V)
    requires Simulates(r, b) && Settled(b) && InWindow(r, id)
    ensures var r' := InsertSlot(r, id, value).0;
            && Valid(r')
            && DrainAll(r', zero).1 == InsertInto(b, id, value).0
            && Simulates(DrainAll(r', zero).0, InsertInto(b, id, value).1)
  {
    hide CountTrue, DrainAll, Drain;
    var r' := InsertSlot(r, id, value).0;
    InsertSlotKeeps(r, id, value);
    OffsetInWindow(id, r.start, |r.buf|);
    if id < b.next {
      assert Simulates(r', b);
      SettledDrain(b);
      DrainSimulates(r', b, zero);
    } else {
      DrainSimulates(r', b.(held := b.held[id := value]), zero);
    }
  }

  lemma AllEmpty(size: nat)
    ensures CountTrue(seq(size, _ => false)) == 0
  {
  }

  lemma {:induction false} DrainKeepsWindow<V>(r: State<V>, zero: V)
    requires Valid(r)
    ensures |DrainAll(r, zero).0.buf| == |r.buf| && DrainAll(r, zero).0.start == r.start
    decreases r.count
  {
    TakeNextKeeps(r, zero);
    if TakeNext(r, zero).1.Some? {
      DrainKeepsWindow(TakeNext(r, zero).0, zero);
    }
  }

  /** A whole history on the ring, drained after every call. */
  function RunRing<V>(size: nat, start: nat, zero: V, h: seq<Call<V>>): (r: (State<V>, seq<V>))
    ensures Valid(r.0) && |r.0.buf| == size && r.0.start == start
  {
    if h == [] then
      assert Valid(New(size, start, zero)) by { AllEmpty(size); }
      (New(size, start, zero), [])
    else
      var (r, emitted) := RunRing(size, start, zero, h[..|h| - 1]);
      var call := h[|h| - 1];
      InsertSlotKeeps(r, call.id, call.value);
      var (r', ok) := InsertSlot(r, call.id, call.value);
      var (r'', out) := DrainAll(r', zero);
      DrainKeepsWindow(r', zero);
      (r'', emitted + out)
  }

  /** The calls whose ID lies in the ring's window. */
  function InWindowCalls<V>(size: nat, start: nat, h: seq<Call<V>>): seq<Call<V>> {
    if h == [] then []
    else
      var call := h[|h| - 1];
      InWindowCalls(size, start, h[..|h| - 1]) + if start <= call.id < start + size then [call] else []
  }

  lemma BothEmpty<V>(size: nat, start: nat, zero: V)
    ensures Simulates(New(size, start, zero), Empty(start)) && Settled(Empty<V>(start))
  {
  }

  /** Every history, late and repeated IDs included: the ring emits exactly what the map-based
      buffer emits when it is given the in-window calls, and the two stay in agreement. */
  lemma {:induction false} RingRefinesBuffer<V>(size: nat, start: nat, zero: V, h: seq<Call<V>>)
    ensures var (r, emitted) := RunRing(size, start, zero, h);
            var (expected, b) := Run(start, InWindowCalls(size, start, h));
            emitted == expected && Simulates(r, b) && Settled(b)
  {
    hide Simulates, Settled, CountTrue;
    if h == [] {
      BothEmpty(size, start, zero);
    } else {
      var h', call := h[..|h| - 1], h[|h| - 1];
      RingRefinesBuffer(size, start, zero, h');
      var g := InWindowCalls(size, start, h');
      var (r, emitted) := RunRing(size, start, zero, h');
      var b := Run(start, g).1;
      if start <= call.id < start + size {
        assert (g + [call])[..|g|] == g;
        CallSimulates(r, b, call.id, call.value, zero);
        InsertStep(b, call.id, call.value);
      } else {
        assert InWindowCalls(size, start, h) == g;
        DrainSimulates(r, b, zero);
        SettledDrain(b);
        assert emitted + [] == emitted;
      }
    }
  }

  function HeldFrom<V>(b: Buffer<V>, from: nat): set<nat> {
    set id | id in b.held && from <= id
  }

  lemma HeldFromStep<V>(b: Buffer<V>, from: nat)
    ensures |HeldFrom(b, from)| == |HeldFrom(b, from + 1)| + if from in b.held then 1 else 0
  {
    if from in b.held {
      assert HeldFrom(b, from) == HeldFrom(b, from + 1) + {from};
    } else {
      assert HeldFrom(b, from) == HeldFrom(b, from + 1);
    }
  }

  lemma CountTrueFirst(s: seq<bool>, o: nat)
    requires o < |s|
    ensures CountTrue(s[o..]) == CountTrue(s[o + 1..]) + if s[o] then 1 else 0
  {
    assert s[o..] == [s[o]] + s[o + 1..];
    CountTrueSplit([s[o]], s[o + 1..]);
    assert [s[o]][..0] == [];
  }

  lemma {:induction false} HeldCount<V>(r: State<V>, b: Buffer<V>, o: nat)
    requires Simulates(r, b) && r.next - r.start <= o <= |r.buf|
    ensures CountTrue(r.filled[o..]) == |HeldFrom(b, r.start + o)|
    decreases |r.buf| - o
  {
    hide CountTrue;
    if o == |r.buf| {
      assert HeldFrom(b, r.start + o) == {};
    } else {
      HeldCount(r, b, o + 1);
      HeldFromStep(b, r.start + o);
      CountTrueFirst(r.filled, o);
    }
  }

  /** Len of the ring counts the values still due plus one for every slot that a late re-insert
      refilled below nextID; it equals the other buffer's Len exactly when there is no such slot. */
  lemma LenCountsLeftovers<V>(r: State<V>, b: Buffer<V>)
    requires Simulates(r, b)
    ensures r.count == |b.held| + CountTrue(r.filled[..r.next - r.start])
    ensures r.count == |b.held| <==> forall o :: 0 <= o < r.next - r.start ==> !r.filled[o]
  {
    var n := r.next - r.start;
    assert r.filled == r.filled[..n] + r.filled[n..];
    CountTrueSplit(r.filled[..n], r.filled[n..]);
    HeldCount(r, b, n);
    assert b.held.Keys == HeldFrom(b, r.start + n);
  }

  /** Draining empties the slots of the IDs it releases and no other. */
  lemma {:induction false} DrainSlots<V>(r: State<V>, zero: V)
    requires Valid(r)
    ensures var r' := DrainAll(r, zero).0;
            && r'.start == r.start && r.next <= r'.next && |r'.filled| == |r.filled|
            && (r.next <= r.start + |r.filled| ==> r'.next <= r.start + |r.filled|)
            && forall o :: 0 <= o < |r.filled| ==>
                 (r'.filled[o] <==> r.filled[o] && !(r.next - r.start <= o < r'.next - r.start))
    decreases r.count
  {
    TakeNextKeeps(r, zero);
    TakeNextEffect(r, zero);
    TakeNextStays(r, zero);
    hide TakeNext, CountTrue;
    if TakeNext(r, zero).1.Some? {
      DrainSlots(TakeNext(r, zero).0, zero);
    }
  }

  /** Some call of the history brought an ID that had been released before. */
  ghost predicate Late<V>(size: nat, start: nat, zero: V, h: seq<Call<V>>, id: nat) {
    exists n: nat :: n < |h| && h[n].id == id && id < RunRing(size, start, zero, h[..n]).0.next
  }

  lemma OneCall<V>(r: State<V>, call: Call<V>, zero: V, o: nat)
    requires Valid(r) && Valid(InsertSlot(r, call.id, call.value).0) && o < |r.filled|
    ensures var r' := DrainAll(InsertSlot(r, call.id, call.value).0, zero).0;
            && r.next <= r'.next <= r.start + |r.filled|
            && |r'.filled| == |r.filled|
            && (o < r'.next - r.start ==>
                  (r'.filled[o] <==> o < r.next - r.start && (r.filled[o] || call.id == r.start + o)))
  {
    hide CountTrue, DrainAll;
    DrainSlots(InsertSlot(r, call.id, call.value).0, zero);
    if InWindow(r, call.id) {
      OffsetInWindow(call.id, r.start, |r.buf|);
    }
  }

  /** One call and its drain, seen by the slots below nextID. */
  lemma LeftoverStep<V>(size: nat, start: nat, zero: V, h: seq<Call<V>>, o: nat)
    requires h != [] && o < size
    ensures var r, r', call := RunRing(size, start, zero, h[..|h| - 1]).0, RunRing(size, start, zero, h).0, h[|h| - 1];
            && r.next <= r'.next <= start + size
            && (o < r'.next - start ==>
                  (r'.filled[o] <==> o < r.next - start && (r.filled[o] || call.id == start + o)))
  {
    var r, call := RunRing(size, start, zero, h[..|h| - 1]).0, h[|h| - 1];
    InsertSlotKeeps(r, call.id, call.value);
    OneCall(r, call, zero, o);
  }

  lemma LateSnoc<V>(size: nat, start: nat, zero: V, h: seq<Call<V>>, id: nat)
    requires h != []
    ensures var front, call := h[..|h| - 1], h[|h| - 1];
            Late(size, start, zero, h, id) <==>
            Late(size, start, zero, front, id) || (call.id == id && id < RunRing(size, start, zero, front).0.next)
  {
    hide RunRing;
    var front := h[..|h| - 1];
    assert forall n: nat :: n <= |front| ==> h[..n] == front[..n];
    assert front[..|front|] == front;
    if Late(size, start, zero, front, id) {
      var n: nat :| n < |front| && front[n].id == id && id < RunRing(size, start, zero, front[..n]).0.next;
      assert h[n].id == id;
    }
    if Late(size, start, zero, h, id) {
      var n: nat :| n < |h| && h[n].id == id && id < RunRing(size, start, zero, h[..n]).0.next;
      assert n < |front| ==> front[n].id == id;
    }
  }

  lemma LateSnocEmpty<V>(size: nat, start: nat, zero: V, id: nat)
    ensures !Late(size, start, zero, [], id)
  {
  }

  lemma {:induction false} LateIsReleased<V>(size: nat, start: nat, zero: V, h: seq<Call<V>>, id: nat)
    requires Late(size, start, zero, h, id) && start <= id < start + size
    ensures id < RunRing(size, start, zero, h).0.next
  {
    hide RunRing, Late;
    LateSnocEmpty(size, start, zero, id);
    if h != [] {
      LateSnoc(size, start, zero, h, id);
      LeftoverStep(size, start, zero, h, id - start);
      if Late(size, start, zero, h[..|h| - 1], id) {
        LateIsReleased(size, start, zero, h[..|h| - 1], id);
      }
    }
  }

  lemma NothingReleased<V>(size: nat, start: nat, zero: V)
    ensures RunRing(size, start, zero, []).0.next == start
  {
  }

  /** A released ID's slot is filled exactly when the history brought that ID once more after its release. */
  lemma {:induction false} LeftoversAreLate<V>(size: nat, start: nat, zero: V, h: seq<Call<V>>, o: nat)
    requires o < size && o < RunRing(size, start, zero, h).0.next - start
    ensures RunRing(size, start, zero, h).0.filled[o] <==> Late(size, start, zero, h, start + o)
  {
    hide RunRing, Late;
    if h == [] {
      NothingReleased(size, start, zero);
    } else {
      var front := h[..|h| - 1];
      LeftoverStep(size, start, zero, h, o);
      LateSnoc(size, start, zero, h, start + o);
      if o < RunRing(size, start, zero, front).0.next - start {
        LeftoversAreLate(size, start, zero, front, o);
      } else if Late(size, start, zero, front, start + o) {
        LateIsReleased(size, start, zero, front, start + o);
      }
    }
  }

  /** After any history the two buffers' Len differ exactly when some in-window call brought an ID that had
      been released before. */
  lemma LenAgreesIff<V>(size: nat, start: nat, zero: V, h: seq<Call<V>>)
    ensures RunRing(size, start, zero, h).0.count == |Run(start, InWindowCalls(size, start, h)).1.held| <==>
            forall id :: start <= id < start + size ==> !Late(size, start, zero, h, id)
  {
    hide RunRing, Run, Late;
    var r, b := RunRing(size, start, zero, h).0, Run(start, InWindowCalls(size, start, h)).1;
    RingRefinesBuffer(size, start, zero, h);
    LenCountsLeftovers(r, b);
    forall id | start <= id < start + size
      ensures Late(size, start, zero, h, id) <==> id < r.next && r.filled[id - start]
    {
      if id < r.next {
        LeftoversAreLate(size, start, zero, h, id - start);
      } else if Late(size, start, zero, h, id) {
        LateIsReleased(size, start, zero, h, id);
      }
    }
    if r.count != |b.held| {
      var o :| 0 <= o < r.next - r.start && r.filled[o];
      assert Late(size, start, zero, h, start + o);
    }
    if exists id :: start <= id < start + size && Late(size, start, zero, h, id) {
      var id :| start <= id < start + size && Late(size, start, zero, h, id);
      assert r.filled[id - start];
    }
  }

  lemma FirstIsReleased<V>(size: nat, start: nat, zero: V, value: V)
    requires size > 0
    ensures RunRing(size, start, zero, [Call(start, value)]).0.next > start
  {
    var h := [Call(start, value)];
    assert InWindowCalls(size, start, h) == h by {
      assert InWindowCalls<V>(size, start, h[..0]) == [];
    }
    hide RunRing, Run, InWindowCalls;
    RingRefinesBuffer(size, start, zero, h);
    RunState(start, h);
    assert h[0].id == start;
  }

  /** For instance when one ID is inserted twice: the first is released at once, the second stays. */
  lemma LateCallShows<V>(size: nat, start: nat, zero: V, value: V)
    requires size > 0
    ensures var h := [Call(start, value), Call(start, value)];
            RunRing(size, start, zero, h).0.count != |Run(start, InWindowCalls(size, start, h)).1.held|
  {
    hide RunRing, Run, InWindowCalls;
    var h := [Call(start, value), Call(start, value)];
    FirstIsReleased(size, start, zero, value);
    assert h[..1] == [Call(start, value)] && h[1].id == start;
    assert Late(size, start, zero, h, start);
    LenAgreesIff(size, start, zero, h);
  }
}
