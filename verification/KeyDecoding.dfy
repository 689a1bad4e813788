/**
 Signing-key files hold one CBOR construct, a definite-length byte string, as hex text.
 The decoder accepts three length forms (RFC 8949, section 3, major type 2); the encoder is
 the writer it inverts.
 */
module KeyDecoding {
  import opened Prelude

  type Byte = b: int | 0 <= b < 256

  datatype DecodeError =
    | BadHex
    | EmptyPayload
    | NotAByteString(initial: Byte)
    | TruncatedLength
    | UnsupportedLength(info: nat)
    | TruncatedPayload(declared: nat, available: nat)

  // ---------- hex text ----------

  function HexDigit(n: int): (c: char)
    requires 0 <= n < 16
  {
    if n < 10 then ('0' as int + n) as char else ('a' as int + n - 10) as char
  }

  function HexValue(c: char): (r: Option<int>)
    ensures r.Some? ==> 0 <= r.value < 16
  {
    if '0' <= c <= '9' then Some(c as int - '0' as int)
    else if 'a' <= c <= 'f' then Some(c as int - 'a' as int + 10)
    else if 'A' <= c <= 'F' then Some(c as int - 'A' as int + 10)
    else None
  }

  function HexEncode(bytes: seq<Byte>): string {
    if bytes == [] then "" else [HexDigit(bytes[0] / 16), HexDigit(bytes[0] % 16)] + HexEncode(bytes[1..])
  }

  function HexDecode(text: string): Option<seq<Byte>> {
    if text == "" then Some([])
    else if |text| == 1 then None
    else
      match (HexValue(text[0]), HexValue(text[1]), HexDecode(text[2..]))
      case (Some(hi), Some(lo), Some(rest)) => Some([hi * 16 + lo] + rest)
      case _ => None
  }

  lemma DigitRoundTrip(n: int)
    requires 0 <= n < 16
    ensures HexValue(HexDigit(n)) == Some(n)
  {
  }

  lemma {:induction false} HexRoundTrip(bytes: seq<Byte>)
    ensures HexDecode(HexEncode(bytes)) == Some(bytes)
  {
    if bytes != [] {
      var b, rest := bytes[0], bytes[1..];
      HexRoundTrip(rest);
      var text := HexEncode(bytes);
      assert text[0] == HexDigit(b / 16) && text[1] == HexDigit(b % 16);
      assert text[2..] == HexEncode(rest);
      DigitRoundTrip(b / 16);
      DigitRoundTrip(b % 16);
      assert bytes == [b] + rest;
    }
  }

  // ---------- the byte string ----------

  /** The decoder. The top three bits select the major type, the low five the length form. */
  function DecodeByteString(hex: string): Result<seq<Byte>, DecodeError> {
    match HexDecode(hex)
    case None => Err(BadHex)
    case Some(bytes) =>
      if bytes == [] then Err(EmptyPayload)
      else if bytes[0] / 32 != 2 then Err(NotAByteString(bytes[0]))
      else
        var info := bytes[0] % 32;
        if info <= 23 then Payload(bytes, 1, info)
        else if info == 24 then
          if |bytes| < 2 then Err(TruncatedLength) else Payload(bytes, 2, bytes[1])
        else if info == 25 then
          if |bytes| < 3 then Err(TruncatedLength) else Payload(bytes, 3, TwoByteLength(bytes[1], bytes[2]))
        else Err(UnsupportedLength(info))
  }

  function TwoByteLength(hi: int, lo: int): int {
    hi * 256 + lo
  }

  function Payload(bytes: seq<Byte>, start: nat, len: nat): Result<seq<Byte>, DecodeError>
    requires start <= |bytes|
  {
    if |bytes| < start + len then Err(TruncatedPayload(len, |bytes| - start))
    else Ok(bytes[start..start + len])
  }

  /** The encoder. Lengths of 256 and above are cast to 16 bits, so a longer payload wraps. */
  function EncodeByteString(payload: seq<Byte>): seq<Byte> {
    var len := |payload|;
    if len < 24 then [0x40 + len] + payload
    else if len < 256 then [0x58, len] + payload
    else [0x59, len % 0x1_0000 / 256, len % 256] + payload
  }

  // ---------- what decoding accepts ----------

  datatype LengthForm = Short | OneByte | TwoBytes

  ghost predicate Fits(form: LengthForm, len: nat) {
    match form
    case Short => len < 24
    case OneByte => len < 256
    case TwoBytes => len < 0x1_0000
  }

  ghost function Header(form: LengthForm, len: nat): seq<Byte>
    requires Fits(form, len)
  {
    match form
    case Short => [0x40 + len]
    case OneByte => [0x58, len]
    case TwoBytes => [0x59, len / 256, len % 256]
  }

  /** `bytes` is a header of some form announcing `payload`, the payload, and anything after it. */
  ghost predicate Announces(bytes: seq<Byte>, payload: seq<Byte>) {
    exists form ::
      && Fits(form, |payload|)
      && Header(form, |payload|) + payload <= bytes
  }

  lemma DecodedIsAnnounced(hex: string, payload: seq<Byte>)
    requires DecodeByteString(hex) == Ok(payload)
    ensures HexDecode(hex).Some? && Announces(HexDecode(hex).value, payload)
  {
    var bytes := HexDecode(hex).value;
    var info := bytes[0] % 32;
    assert bytes[0] == 64 + info;
    if info <= 23 {
      PayloadIsAnnounced(bytes, payload, Short);
    } else if info == 24 {
      PayloadIsAnnounced(bytes, payload, OneByte);
    } else {
      PayloadIsAnnounced(bytes, payload, TwoBytes);
    }
  }

  lemma PayloadIsAnnounced(bytes: seq<Byte>, payload: seq<Byte>, form: LengthForm)
    requires Fits(form, |payload|)
    requires var h := Header(form, |payload|);
             |h| + |payload| <= |bytes| && h == bytes[..|h|] && payload == bytes[|h|..|h| + |payload|]
    ensures Announces(bytes, payload)
  {
    var h := Header(form, |payload|);
    assert h + payload == bytes[..|h| + |payload|];
  }

  lemma AnnouncedIsDecoded(hex: string, form: LengthForm, payload: seq<Byte>, rest: seq<Byte>)
    requires Fits(form, |payload|)
    requires HexDecode(hex) == Some(Header(form, |payload|) + payload + rest)
    ensures DecodeByteString(hex) == Ok(payload)
  {
    var h := Header(form, |payload|);
    var bytes := h + payload + rest;
    assert bytes[|h|..|h| + |payload|] == payload;
    assert forall i :: 0 <= i < |h| ==> bytes[i] == h[i];
  }

  /** Decoding succeeds with a payload exactly when the bytes announce that payload. */
  lemma DecodesExactlyWhatIsAnnounced(hex: string, payload: seq<Byte>)
    ensures DecodeByteString(hex) == Ok(payload)
       <==> HexDecode(hex).Some? && Announces(HexDecode(hex).value, payload)
  {
    if DecodeByteString(hex) == Ok(payload) {
      DecodedIsAnnounced(hex, payload);
    } else if HexDecode(hex).Some? && Announces(HexDecode(hex).value, payload) {
      var bytes := HexDecode(hex).value;
      var form :| Fits(form, |payload|) && Header(form, |payload|) + payload <= bytes;
      var head := Header(form, |payload|) + payload;
      assert bytes == head + bytes[|head|..];
      AnnouncedIsDecoded(hex, form, payload, bytes[|head|..]);
    }
  }

  /** Decoding undoes encoding, whatever bytes follow, for every payload shorter than 2^16 bytes. */
  lemma DecodeUndoesEncode(payload: seq<Byte>, trailing: seq<Byte>)
    requires |payload| < 0x1_0000
    ensures DecodeByteString(HexEncode(EncodeByteString(payload) + trailing)) == Ok(payload)
  {
    var bytes := EncodeByteString(payload) + trailing;
    HexRoundTrip(bytes);
    var form := if |payload| < 24 then Short else if |payload| < 256 then OneByte else TwoBytes;
    assert Header(form, |payload|) + payload == EncodeByteString(payload);
    assert Header(form, |payload|) + payload <= bytes;
    assert Announces(bytes, payload);
    DecodesExactlyWhatIsAnnounced(HexEncode(bytes), payload);
  }

  /** The bound is exact: a longer payload never survives the 16-bit length. */
  lemma RoundTripsExactlyBelow64K(payload: seq<Byte>)
    ensures DecodeByteString(HexEncode(EncodeByteString(payload))) == Ok(payload) <==> |payload| < 0x1_0000
  {
    if |payload| < 0x1_0000 {
      DecodeUndoesEncode(payload, []);
      assert EncodeByteString(payload) + [] == EncodeByteString(payload);
    } else {
      HexRoundTrip(EncodeByteString(payload));
    }
  }
}
