/** Bytes, fixed-width big-endian integers (encoding/binary's BigEndian) and the hash parameter.

    SHA-256 is the Go standard library's, so the model takes it as an arbitrary function
    from byte strings to 32-byte digests: every result holds for every such function. */
module Bytes {
  import opened Arithmetic

  type byte = x: int | 0 <= x < 256

  const TWO_TO_THE_16: int := 0x1_0000
  const TWO_TO_THE_32: int := 0x1_0000_0000
  const TWO_TO_THE_63: int := 0x8000_0000_0000_0000
  const TWO_TO_THE_64: int := 0x1_0000_0000_0000_0000

  type uint64 = x: int | 0 <= x < TWO_TO_THE_64
  type int64 = x: int | -TWO_TO_THE_63 <= x < TWO_TO_THE_63

  const DIGEST_SIZE: nat := 32

  function Zeros(n: nat): (r: seq<byte>)
    ensures |r| == n
    ensures forall i :: 0 <= i < n ==> r[i] == 0
  {
    seq(n, _ => 0)
  }

  type Digest = d: seq<byte> | |d| == DIGEST_SIZE witness Zeros(DIGEST_SIZE)
  type HashFunction = seq<byte> -> Digest

  function Power256(k: nat): (r: nat)
    ensures 0 < r
  {
    if k == 0 then 1 else 256 * Power256(k - 1)
  }

  /** The k bytes of x, most significant first; higher bits are dropped as a Go conversion drops them. */
  function BigEndian(x: nat, k: nat): (r: seq<byte>)
    ensures |r| == k
  {
    if k == 0 then [] else BigEndian(x / 256, k - 1) + [x % 256]
  }

  function FromBigEndian(s: seq<byte>): (r: nat)
    ensures r < Power256(|s|)
  {
    if s == [] then 0 else FromBigEndian(s[..|s| - 1]) * 256 + s[|s| - 1]
  }

  lemma {:induction false} BigEndianRoundTrip(x: nat, k: nat)
    requires x < Power256(k)
    ensures FromBigEndian(BigEndian(x, k)) == x
  {
    if k > 0 {
      BigEndianRoundTrip(x / 256, k - 1);
      assert BigEndian(x, k)[..k - 1] == BigEndian(x / 256, k - 1);
    }
  }

  lemma {:induction false} FromBigEndianRoundTrip(s: seq<byte>)
    ensures BigEndian(FromBigEndian(s), |s|) == s
  {
    if s != [] {
      FromBigEndianRoundTrip(s[..|s| - 1]);
      assert s == s[..|s| - 1] + [s[|s| - 1]];
    }
  }

  /** Most significant byte first: byte i is the digit of weight 256^(k - 1 - i). */
  lemma {:induction false} BigEndianDigit(x: nat, k: nat, i: nat)
    requires i < k
    ensures BigEndian(x, k)[i] == x / Power256(k - 1 - i) % 256
  {
    if i < k - 1 {
      BigEndianDigit(x / 256, k - 1, i);
      DivideTwice(x, 256, Power256(k - 2 - i));
    }
  }

  lemma PowerValues()
    ensures Power256(2) == TWO_TO_THE_16
    ensures Power256(4) == TWO_TO_THE_32
    ensures Power256(8) == TWO_TO_THE_64
  {
  }

  /** uint64(x) of a signed value, and int64(x) back: two's complement. */
  function ToUnsigned(t: int64): (r: uint64)
    ensures (t - r) % TWO_TO_THE_64 == 0
  {
    if t < 0 then t + TWO_TO_THE_64 else t
  }

  function ToSigned(u: uint64): (r: int64)
    ensures ToUnsigned(r) == u
  {
    if u < TWO_TO_THE_63 then u else u - TWO_TO_THE_64
  }

  /** Go's copy into dst[offset..]: the whole of src, which the caller knows to fit.
      `written` names what the bytes before the offset already are. */
  method Copy(dst: array<byte>, offset: nat, src: seq<byte>, ghost written: seq<byte>)
    requires offset + |src| <= dst.Length
    requires dst[..offset] == written
    modifies dst
    ensures dst[..offset + |src|] == written + src
    ensures forall i :: offset + |src| <= i < dst.Length ==> dst[i] == old(dst[i])
  {
    forall i | 0 <= i < |src| {
      dst[offset + i] := src[i];
    }
    assert dst[..offset] == written;
  }

  /** binary.BigEndian.PutUint* into dst[offset..offset + width]. */
  method PutBigEndian(dst: array<byte>, offset: nat, width: nat, x: nat, ghost written: seq<byte>)
    requires offset + width <= dst.Length
    requires dst[..offset] == written
    modifies dst
    ensures dst[..offset + width] == written + BigEndian(x, width)
    ensures forall i :: offset + width <= i < dst.Length ==> dst[i] == old(dst[i])
  {
    Copy(dst, offset, BigEndian(x, width), written);
  }
}
