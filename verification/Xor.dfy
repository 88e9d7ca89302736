/** Go's ^ on bytes, bit by bit, and the running exclusive or that the erasure code accumulates. */
module Xor {
  import opened Arithmetic
  import opened Bytes

  function PowerOfTwo(k: nat): (r: nat)
    ensures 0 < r
  {
    if k == 0 then 1 else 2 * PowerOfTwo(k - 1)
  }

  /** Exclusive or of the k low bits. */
  function XorBits(k: nat, a: nat, b: nat): (r: nat)
    ensures r < PowerOfTwo(k)
  {
    if k == 0 then 0
    else (if a % 2 == b % 2 then 0 else 1) + 2 * XorBits(k - 1, a / 2, b / 2)
  }

  lemma ByteBits()
    ensures PowerOfTwo(8) == 256
  {
  }

  function XorByte(a: byte, b: byte): (r: byte) {
    ByteBits();
    XorBits(8, a, b)
  }

  lemma {:induction false} BitsAssociate(k: nat, a: nat, b: nat, c: nat)
    ensures XorBits(k, XorBits(k, a, b), c) == XorBits(k, a, XorBits(k, b, c))
  {
    if k > 0 {
      BitsAssociate(k - 1, a / 2, b / 2, c / 2);
      assert XorBits(k, a, b) / 2 == XorBits(k - 1, a / 2, b / 2);
      assert XorBits(k, b, c) / 2 == XorBits(k - 1, b / 2, c / 2);
    }
  }

  lemma {:induction false} BitLaws(k: nat, a: nat, b: nat)
    ensures XorBits(k, a, b) == XorBits(k, b, a)
    ensures XorBits(k, a, a) == 0
    ensures a < PowerOfTwo(k) ==> XorBits(k, 0, a) == a
  {
    if k > 0 {
      BitLaws(k - 1, a / 2, b / 2);
    }
  }

  lemma ByteLaws(a: byte, b: byte, c: byte)
    ensures XorByte(XorByte(a, b), c) == XorByte(a, XorByte(b, c))
    ensures XorByte(a, b) == XorByte(b, a)
    ensures XorByte(a, a) == 0
    ensures XorByte(0, a) == a
  {
    ByteBits();
    BitsAssociate(8, a, b, c);
    BitLaws(8, a, b);
  }

  /** val ^= c over the column, in order, from zero. */
  function Fold(column: seq<byte>): (r: byte) {
    if column == [] then 0 else XorByte(Fold(column[..|column| - 1]), column[|column| - 1])
  }

  /** Bit k of a number, least significant first. */
  function Bit(x: nat, k: nat): (r: nat)
    ensures r < 2
  {
    x / PowerOfTwo(k) % 2
  }

  lemma BitAbove(x: nat, k: nat)
    requires k > 0
    ensures Bit(x, k) == Bit(x / 2, k - 1)
  {
    DivideTwice(x, 2, PowerOfTwo(k - 1));
  }

  lemma {:induction false} XorBitsAt(n: nat, a: nat, b: nat, k: nat)
    requires k < n
    ensures Bit(XorBits(n, a, b), k) == if Bit(a, k) == Bit(b, k) then 0 else 1
  {
    if k > 0 {
      hide Bit;
      XorBitsAt(n - 1, a / 2, b / 2, k - 1);
      BitAbove(a, k);
      BitAbove(b, k);
      BitAbove(XorBits(n, a, b), k);
      assert XorBits(n, a, b) / 2 == XorBits(n - 1, a / 2, b / 2);
    }
  }

  /** A bit of the exclusive or is set exactly when the two bits differ. */
  lemma XorByteAt(a: byte, b: byte, k: nat)
    requires k < 8
    ensures Bit(XorByte(a, b), k) == 1 <==> Bit(a, k) != Bit(b, k)
  {
    XorBitsAt(8, a, b, k);
  }

  lemma ZeroBits(k: nat)
    ensures Bit(0, k) == 0
  {
  }

  /** The places of a column at which bit k is set. */
  function SetAt(column: seq<byte>, k: nat): set<nat> {
    set j: nat | j < |column| && Bit(column[j], k) == 1
  }

  lemma NothingSet(k: nat)
    ensures SetAt([], k) == {}
  {
  }

  lemma SetAtGrows(column: seq<byte>, k: nat)
    requires column != []
    ensures var n := |column| - 1;
            |SetAt(column, k)| == |SetAt(column[..n], k)| + Bit(column[n], k)
  {
    hide Bit;
    var n := |column| - 1;
    assert SetAt(column, k) == SetAt(column[..n], k) + if Bit(column[n], k) == 1 then {n} else {};
  }

  /** A bit of the fold is the parity of how many of the column's bytes have it set. */
  lemma {:induction false} FoldAt(column: seq<byte>, k: nat)
    requires k < 8
    ensures Bit(Fold(column), k) == |SetAt(column, k)| % 2
  {
    hide XorByte, Bit, SetAt;
    if column == [] {
      ZeroBits(k);
      NothingSet(k);
    } else {
      var n := |column| - 1;
      FoldAt(column[..n], k);
      XorByteAt(Fold(column[..n]), column[n], k);
      SetAtGrows(column, k);
    }
  }

  /** Any one term can be taken out of a fold and put back at the end. */
  lemma {:induction false} FoldTakesOut(column: seq<byte>, m: nat)
    requires m < |column|
    ensures Fold(column) == XorByte(Fold(column[..m] + column[m + 1..]), column[m])
  {
    hide XorByte;
    var n := |column| - 1;
    if m == n {
      assert column[..m] + column[m + 1..] == column[..n];
    } else {
      var front, rest := column[..n], column[..m] + column[m + 1..];
      FoldTakesOut(front, m);
      var a, b, c := Fold(front[..m] + front[m + 1..]), column[m], column[n];
      assert rest[..|rest| - 1] == front[..m] + front[m + 1..];
      ByteLaws(a, b, c);
      ByteLaws(b, c, a);
      ByteLaws(a, c, b);
    }
  }

  lemma EqualWhenXorIsZero(a: byte, b: byte)
    requires XorByte(a, b) == 0
    ensures a == b
  {
    hide XorByte;
    ByteLaws(a, b, b);
    ByteLaws(b, b, a);
    ByteLaws(a, 0, 0);
  }

  lemma WholeFoldIsZero(column: seq<byte>)
    ensures Fold(column + [Fold(column)]) == 0
  {
    hide XorByte;
    var all := column + [Fold(column)];
    assert all[..|all| - 1] == column;
    ByteLaws(Fold(column), 0, 0);
  }

  /** With the parity byte appended, the fold of all columns but one is the one left out. */
  lemma FoldRecovers(column: seq<byte>, m: nat)
    requires m <= |column|
    ensures var all := column + [Fold(column)];
            Fold(all[..m] + all[m + 1..]) == all[m]
  {
    hide XorByte, Fold;
    var all := column + [Fold(column)];
    WholeFoldIsZero(column);
    FoldTakesOut(all, m);
    EqualWhenXorIsZero(Fold(all[..m] + all[m + 1..]), all[m]);
  }
}
