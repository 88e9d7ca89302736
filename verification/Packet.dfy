/** pkg/packet: the wire format, its parser, and the in-place methods of the Packet struct. */
module PacketCodec {
  import opened Wrappers
  import opened Bytes

  datatype SerializeError = DataTooLarge | ExtraTooLarge

  datatype ParseError =
    | TooShort
    | DataLengthExceedsPacket
    | MissingChecksum
    | MissingExtraLength
    | ExtraLengthExceedsPacket
    | ChecksumMismatch

  /** The field values of a Packet. */
  datatype Content = Content(id: uint64, timestamp: int64, data: seq<byte>, checksum: Digest, extra: seq<byte>)

  /** ID, timestamp, data length, checksum, extra length. */
  const FIXED_SIZE: nat := 8 + 8 + 4 + 32 + 2

  predicate Serializable(p: Content) {
    |p.data| <= 0xFFFFFFFF && |p.extra| <= 0xFFFF
  }

  function EncodedSize(p: Content): nat {
    FIXED_SIZE + |p.data| + |p.extra|
  }

  /** The checksum SerializeTo leaves in the struct: a zero one counts as "not computed yet". */
  function Sealed(sha: HashFunction, p: Content): Content {
    if p.checksum == Zeros(DIGEST_SIZE) then p.(checksum := sha(p.data)) else p
  }

  function Header(p: Content): (r: seq<byte>)
    ensures |r| == 20
  {
    BigEndian(p.id, 8) + BigEndian(ToUnsigned(p.timestamp), 8) + BigEndian(|p.data|, 4)
  }

  function Layout(p: Content): (r: seq<byte>)
    ensures |r| == EncodedSize(p)
  {
    Header(p) + p.data + p.checksum + BigEndian(|p.extra|, 2) + p.extra
  }

  function Serialize(sha: HashFunction, p: Content): Result<seq<byte>, SerializeError> {
    if |p.data| > 0xFFFFFFFF then Err(DataTooLarge)
    else if |p.extra| > 0xFFFF then Err(ExtraTooLarge)
    else Ok(Layout(Sealed(sha, p)))
  }

  predicate ChecksumHolds(sha: HashFunction, p: Content) {
    sha(p.data) == p.checksum
  }

  function U64At(s: seq<byte>, offset: nat): (r: uint64)
    requires offset + 8 <= |s|
  {
    PowerValues();
    FromBigEndian(s[offset..offset + 8])
  }

  function DataLength(s: seq<byte>): nat
    requires 20 <= |s|
  {
    FromBigEndian(s[16..20])
  }

  /** Deserialize, with its two late length checks kept where the code has them; neither can ever fire. */
  function Parse(sha: HashFunction, s: seq<byte>): (r: Result<Content, ParseError>)
    ensures r != Err(MissingChecksum) && r != Err(MissingExtraLength)
    ensures r.Ok? ==> ChecksumHolds(sha, r.value)
  {
    if |s| < FIXED_SIZE then Err(TooShort)
    else
      var dataLen := DataLength(s);
      if dataLen > |s| - 20 - 32 - 2 then Err(DataLengthExceedsPacket)
      else
        var afterData := 20 + dataLen;
        if |s| < afterData + 32 then Err(MissingChecksum)
        else if |s| < afterData + 32 + 2 then Err(MissingExtraLength)
        else
          var extraLen := FromBigEndian(s[afterData + 32..afterData + 34]);
          var afterExtraLen := afterData + 34;
          if extraLen > |s| - afterExtraLen then Err(ExtraLengthExceedsPacket)
          else
            var p := Content(U64At(s, 0), ToSigned(U64At(s, 8)), s[20..afterData],
                             s[afterData..afterData + 32], s[afterExtraLen..afterExtraLen + extraLen]);
            if ChecksumHolds(sha, p) then Ok(p) else Err(ChecksumMismatch)
  }

  lemma LayoutPieces(p: Content)
    ensures Header(p) == BigEndian(p.id, 8) + BigEndian(ToUnsigned(p.timestamp), 8) + BigEndian(|p.data|, 4)
    ensures Layout(p) == Header(p) + p.data + p.checksum + BigEndian(|p.extra|, 2) + p.extra
  {
  }

  /** Where each field of an encoding lies. */
  lemma LayoutSlices(p: Content, rest: seq<byte>)
    requires Serializable(p)
    ensures var s := Layout(p) + rest;
            var d := |p.data|;
            && s[0..8] == BigEndian(p.id, 8)
            && s[8..16] == BigEndian(ToUnsigned(p.timestamp), 8)
            && s[16..20] == BigEndian(d, 4)
            && s[20..20 + d] == p.data
            && s[20 + d..52 + d] == p.checksum
            && s[52 + d..54 + d] == BigEndian(|p.extra|, 2)
            && s[54 + d..54 + d + |p.extra|] == p.extra
  {
  }

  /** The bytes from an offset on are the digits of x, the most significant first. */
  predicate DigitsAt(s: seq<byte>, offset: nat, width: nat, x: nat) {
    && offset + width <= |s|
    && forall k :: offset <= k < offset + width ==> s[k] == x / Power256(offset + width - 1 - k) % 256
  }

  lemma EncodedDigits(s: seq<byte>, offset: nat, width: nat, x: nat)
    requires offset + width <= |s| && s[offset..offset + width] == BigEndian(x, width)
    ensures DigitsAt(s, offset, width, x)
  {
    hide BigEndian, Power256;
    forall k | offset <= k < offset + width
      ensures s[k] == x / Power256(offset + width - 1 - k) % 256
    {
      BigEndianDigit(x, width, k - offset);
      assert s[k] == s[offset..offset + width][k - offset];
    }
  }

  /** The encoding byte by byte: integers most significant byte first, a negative timestamp as its two's
      complement. */
  lemma WireFormat(p: Content)
    requires Serializable(p)
    ensures var s, d := Layout(p), |p.data|;
            && |s| == 54 + d + |p.extra|
            && DigitsAt(s, 0, 8, p.id) && DigitsAt(s, 8, 8, ToUnsigned(p.timestamp)) && DigitsAt(s, 16, 4, d)
            && s[20..20 + d] == p.data && s[20 + d..52 + d] == p.checksum
            && DigitsAt(s, 52 + d, 2, |p.extra|) && s[54 + d..] == p.extra
  {
    hide BigEndian, DigitsAt;
    var s, d := Layout(p), |p.data|;
    LayoutSlices(p, []);
    assert s + [] == s;
    EncodedDigits(s, 0, 8, p.id);
    EncodedDigits(s, 8, 8, ToUnsigned(p.timestamp));
    EncodedDigits(s, 16, 4, d);
    EncodedDigits(s, 52 + d, 2, |p.extra|);
  }

  /** The length of the extra field, where the data length says it lies. */
  function ExtraLength(s: seq<byte>): nat
    requires FIXED_SIZE <= |s| && FIXED_SIZE + DataLength(s) <= |s|
  {
    FromBigEndian(s[52 + DataLength(s)..54 + DataLength(s)])
  }

  /** Which bytes are refused, and with which error. */
  lemma ParseErrors(sha: HashFunction, s: seq<byte>)
    ensures Parse(sha, s) == Err(TooShort) <==> |s| < 54
    ensures |s| >= 54 ==>
              (Parse(sha, s) == Err(DataLengthExceedsPacket) <==> 54 + DataLength(s) > |s|)
    ensures |s| >= 54 && 54 + DataLength(s) <= |s| ==>
              var d := DataLength(s);
              && (Parse(sha, s) == Err(ExtraLengthExceedsPacket) <==> 54 + d + ExtraLength(s) > |s|)
              && (54 + d + ExtraLength(s) <= |s| ==>
                    (Parse(sha, s) == Err(ChecksumMismatch) <==> sha(s[20..20 + d]) != s[20 + d..52 + d])
                    && (Parse(sha, s).Ok? <==> sha(s[20..20 + d]) == s[20 + d..52 + d]))
  {
    hide FromBigEndian;
  }

  /** Parsing an encoding, whatever follows it: every field comes back, and the only way to be
      turned away is a checksum that is not the hash of the data. */
  lemma ParseLayout(sha: HashFunction, p: Content, rest: seq<byte>)
    requires Serializable(p)
    ensures Parse(sha, Layout(p) + rest) == if ChecksumHolds(sha, p) then Ok(p) else Err(ChecksumMismatch)
  {
    hide BigEndian, FromBigEndian;
    LayoutSlices(p, rest);
    PowerValues();
    BigEndianRoundTrip(p.id, 8);
    BigEndianRoundTrip(ToUnsigned(p.timestamp), 8);
    BigEndianRoundTrip(|p.data|, 4);
    BigEndianRoundTrip(|p.extra|, 2);
  }

  /** Deserialize after Serialize restores every field exactly when the packet's checksum was unset or right. */
  lemma RoundTrip(sha: HashFunction, p: Content)
    requires Serializable(p)
    ensures var s := Serialize(sha, p).value;
            && (Parse(sha, s).Ok? <==> p.checksum == Zeros(DIGEST_SIZE) || p.checksum == sha(p.data))
            && (Parse(sha, s).Ok? ==> Parse(sha, s).value == p.(checksum := sha(p.data)))
            && (Parse(sha, s).Err? ==> Parse(sha, s).error == ChecksumMismatch)
  {
    var q := Sealed(sha, p);
    ParseLayout(sha, q, []);
    assert Layout(q) + [] == Layout(q);
  }

  /** A datagram cut short anywhere is rejected. */
  lemma PrefixRejected(sha: HashFunction, p: Content, n: nat)
    requires Serializable(p) && n < EncodedSize(p)
    ensures Parse(sha, Layout(p)[..n]).Err?
  {
    hide BigEndian, FromBigEndian;
    var s, d := Layout(p), |p.data|;
    LayoutSlices(p, []);
    assert s + [] == s;
    PowerValues();
    BigEndianRoundTrip(d, 4);
    BigEndianRoundTrip(|p.extra|, 2);
    if n >= FIXED_SIZE {
      assert s[..n][16..20] == s[16..20];
      assert DataLength(s[..n]) == d;
      if d <= n - FIXED_SIZE {
        assert s[..n][52 + d..54 + d] == s[52 + d..54 + d];
      }
    }
  }

  lemma FieldsReencode(sha: HashFunction, s: seq<byte>)
    requires Parse(sha, s).Ok?
    ensures var p := Parse(sha, s).value;
            && Serializable(p)
            && BigEndian(p.id, 8) == s[0..8]
            && BigEndian(ToUnsigned(p.timestamp), 8) == s[8..16]
            && BigEndian(|p.data|, 4) == s[16..20]
            && BigEndian(|p.extra|, 2) == s[52 + |p.data|..54 + |p.data|]
  {
    hide BigEndian, FromBigEndian;
    var d := |Parse(sha, s).value.data|;
    PowerValues();
    FromBigEndianRoundTrip(s[0..8]);
    FromBigEndianRoundTrip(s[8..16]);
    FromBigEndianRoundTrip(s[16..20]);
    FromBigEndianRoundTrip(s[52 + d..54 + d]);
  }

  lemma SevenPieces(s: seq<byte>, d: nat, e: nat)
    requires 54 + d + e <= |s|
    ensures s[..54 + d + e] ==
            s[0..8] + s[8..16] + s[16..20] + s[20..20 + d] + s[20 + d..52 + d] + s[52 + d..54 + d]
            + s[54 + d..54 + d + e]
  {
  }

  /** Serialising an accepted packet gives back the bytes it was read from, up to its own length. */
  lemma ReserializeAccepted(sha: HashFunction, s: seq<byte>)
    requires Parse(sha, s).Ok?
    ensures var p := Parse(sha, s).value;
            && EncodedSize(p) <= |s|
            && Serialize(sha, p) == Ok(s[..EncodedSize(p)])
  {
    var p := Parse(sha, s).value;
    hide BigEndian, FromBigEndian;
    var d, e := |p.data|, |p.extra|;
    FieldsReencode(sha, s);
    SevenPieces(s, d, e);
    assert Serializable(p) && Sealed(sha, p) == p;
  }

  /** pkg/packet.Packet: SerializeTo fills in the checksum, Deserialize assigns the fields. */
  class Packet {
    var ID: uint64
    var Timestamp: int64
    var Data: seq<byte>
    var Checksum: Digest
    var Extra: seq<byte>

    constructor (id: uint64, timestamp: int64, data: seq<byte>, checksum: Digest)
      ensures View() == Content(id, timestamp, data, checksum, [])
    {
      ID, Timestamp, Data, Checksum, Extra := id, timestamp, data, checksum, [];
    }

    function View(): Content
      reads this
    {
      Content(ID, Timestamp, Data, Checksum, Extra)
    }

    /** The writing half of SerializeTo, into a buffer that is long enough. */
    method Write(sha: HashFunction, data: array<byte>)
      requires Serializable(View()) && EncodedSize(View()) <= data.Length
      modifies this`Checksum, data
      ensures View() == Sealed(sha, old(View()))
      ensures data[..EncodedSize(View())] == Layout(View())
      ensures forall i :: EncodedSize(View()) <= i < data.Length ==> data[i] == old(data[i])
    {
      hide BigEndian, FromBigEndian, Zeros, Header, Layout;
      var payload, extra := Data, Extra;
      ghost var p := Sealed(sha, View());
      LayoutPieces(p);
      var offset := 0;
      PutBigEndian(data, offset, 8, ID, []);
      offset := offset + 8;
      PutBigEndian(data, offset, 8, ToUnsigned(Timestamp), BigEndian(p.id, 8));
      offset := offset + 8;
      PutBigEndian(data, offset, 4, |payload|, BigEndian(p.id, 8) + BigEndian(ToUnsigned(p.timestamp), 8));
      offset := offset + 4;

      if |payload| > 0 {
        Copy(data, offset, payload, Header(p));
        offset := offset + |payload|;
      }
      ghost var written := Header(p) + payload;
      assert data[..offset] == written;

      if Checksum == Zeros(DIGEST_SIZE) {
        Checksum := sha(payload);
      }
      var checksum := Checksum;
      assert View() == p && checksum == p.checksum;
      Copy(data, offset, checksum, written);
      offset := offset + 32;
      written := written + checksum;
      PutBigEndian(data, offset, 2, |extra|, written);
      offset := offset + 2;
      written := written + BigEndian(|extra|, 2);

      if |extra| > 0 {
        Copy(data, offset, extra, written);
      }
      assert data[..offset + |extra|] == written + extra;
    }

    /** The result is buf itself when its capacity suffices, else a new array; its first
        EncodedSize bytes are the encoding and the rest of buf keeps its old contents. */
    method SerializeTo(sha: HashFunction, buf: array<byte>) returns (r: Result<array<byte>, SerializeError>)
      modifies this`Checksum, buf
      ensures r.Err? <==> !Serializable(old(View()))
      ensures r.Err? ==> Serialize(sha, old(View())) == Err(r.error) && unchanged(this) && unchanged(buf)
      ensures r.Err? ==> r.error == if |Data| > 0xFFFFFFFF then DataTooLarge else ExtraTooLarge
      ensures r.Ok? ==> View() == Sealed(sha, old(View()))
      ensures r.Ok? ==>
                var out, size := r.value, EncodedSize(View());
                && (if size <= buf.Length then out == buf else fresh(out) && out.Length == size && unchanged(buf))
                && out[..size] == Layout(View())
                && (out == buf ==> buf[size..] == old(buf[size..]))
    {
      var dataLen, extraLen := |Data|, |Extra|;
      if dataLen > 0xFFFFFFFF {
        return Err(DataTooLarge);
      }
      if extraLen > 0xFFFF {
        return Err(ExtraTooLarge);
      }
      var totalLen := 8 + 8 + 4 + dataLen + 32 + 2 + extraLen;
      var data := buf;
      if buf.Length < totalLen {
        data := new byte[totalLen];
      }
      Write(sha, data);
      return Ok(data);
    }

    /** nil on acceptance; on an error the fields parsed before the failing check have been overwritten. */
    method Deserialize(sha: HashFunction, data: seq<byte>) returns (err: Result<(), ParseError>)
      modifies this
      ensures Parse(sha, data) == if err.Ok? then Ok(View()) else Err(err.error)
      ensures err == Err(TooShort) ==> unchanged(this)
    {
      hide FromBigEndian;
      if |data| < 8 + 8 + 4 + 32 + 2 {
        return Err(TooShort);
      }
      var offset := 0;
      ID := U64At(data, offset);
      offset := offset + 8;
      Timestamp := ToSigned(U64At(data, offset));
      offset := offset + 8;
      var dataLen := FromBigEndian(data[offset..offset + 4]);
      offset := offset + 4;
      if dataLen > |data| - offset - 32 - 2 {
        return Err(DataLengthExceedsPacket);
      }
      Data := if dataLen > 0 then data[offset..offset + dataLen] else [];
      assert Data == data[20..20 + dataLen];
      offset := offset + dataLen;
      if |data| < offset + 32 {
        return Err(MissingChecksum);
      }
      Checksum := data[offset..offset + 32];
      offset := offset + 32;
      if |data| < offset + 2 {
        return Err(MissingExtraLength);
      }
      var extraLen := FromBigEndian(data[offset..offset + 2]);
      offset := offset + 2;
      if extraLen > |data| - offset {
        return Err(ExtraLengthExceedsPacket);
      }
      Extra := if extraLen > 0 then data[offset..offset + extraLen] else [];
      assert Extra == data[54 + dataLen..54 + dataLen + extraLen];
      if !ChecksumHolds(sha, View()) {
        return Err(ChecksumMismatch);
      }
      return Ok(());
    }
  }
}
