/**
 The three authenticated payloads: TCP frame v1, TCP envelope v2 and UDP knock. For
 each, encoder and decoder are inverse in both directions, and exactly the payloads
 for which that is so are named.
 */
module Payloads {
  import opened Bytes
  import opened Codec
  import opened Wrappers

  type int64 = x: int | -0x8000_0000_0000_0000 <= x < 0x8000_0000_0000_0000
  type Hash = b: seq<byte> | |b| == 16 witness [0, 0, 0, 0, 0, 0, 0, 0, 0, 0, 0, 0, 0, 0, 0, 0]

  const SESSION_ID_MIN: nat := 16

  datatype EncodeError = PortOutOfRange | FrameTooLarge | InvalidFrame

  /** Conversion of a signed to an unsigned 64-bit number and back. */
  function ToUint64(v: int64): (r: uint64) {
    if v >= 0 then v else v + 0x1_0000_0000_0000_0000
  }

  function ToInt64(v: uint64): (r: int64) {
    if v < 0x8000_0000_0000_0000 then v else v - 0x1_0000_0000_0000_0000
  }

  // -------------------------------------------------------------------- frame v1

  datatype Payload = Payload(
    clientIDHash: Hash, timestampMS: int64, serverPort: int, methodName: seq<byte>, sessionID: seq<byte>, extensions: seq<byte>)

  predicate Encodable(p: Payload) {
    0 <= p.serverPort <= 65535 && |p.methodName| <= 255 && |p.sessionID| <= 255 && |p.extensions| <= 65535
  }

  function PayloadBytes(p: Payload): (r: seq<byte>)
    requires Encodable(p)
  {
    p.clientIDHash + (U64(ToUint64(p.timestampMS)) + (U16(p.serverPort)
    + (Var8(p.methodName) + (Var8(p.sessionID) + Var16(p.extensions)))))
  }

  function ParsePayload(raw: seq<byte>): (r: Option<Payload>) {
    var (id, s1) :- Take(raw, 16);
    var (ts, s2) :- TakeU64(s1);
    var (port, s3) :- TakeU16(s2);
    var (methodName, s4) :- TakeVar8(s3);
    var (session, s5) :- TakeVar8(s4);
    var (extLen, s6) :- TakeU16(s5);
    if extLen != |s6| then None
    else Some(Payload(id, ToInt64(ts), port, methodName, session, s6))
  }

  lemma PayloadRoundTrip(p: Payload)
    requires Encodable(p)
    ensures ParsePayload(PayloadBytes(p)) == Some(p)
  {
    hide U64, U16, Var8, TakeU64, TakeU16, TakeVar8, Take;
    var s5 := Var16(p.extensions);
    var s4 := Var8(p.sessionID) + s5;
    var s3 := Var8(p.methodName) + s4;
    var s2 := U16(p.serverPort) + s3;
    var s1 := U64(ToUint64(p.timestampMS)) + s2;
    TakeWritten(p.clientIDHash, s1);
    TakeU64Written(ToUint64(p.timestampMS), s2);
    TakeU16Written(p.serverPort, s3);
    TakeVar8Written(p.methodName, s4);
    TakeVar8Written(p.sessionID, s5);
    TakeU16Written(|p.extensions|, p.extensions);
  }

  lemma PayloadCanonical(raw: seq<byte>)
    requires ParsePayload(raw).Some?
    ensures var p := ParsePayload(raw).value; Encodable(p) && PayloadBytes(p) == raw
  {
    hide U64, U16, Var8, FromU64, FromU16, TakeVar8;
    var p := ParsePayload(raw).value;
    var s1 := raw[16..];
    var s2 := s1[8..];
    var s3 := s2[2..];
    var (_, s4) := TakeVar8(s3).value;
    var (_, s5) := TakeVar8(s4).value;
    TakenU64(s1);
    TakenU16(s2);
    TakenVar8(s3);
    TakenVar8(s4);
    TakenU16(s5);
    assert raw == raw[..16] + s1;
  }

  method EncodePayload(p: Payload) returns (r: Result<seq<byte>, EncodeError>)
    ensures r.Ok? <==> Encodable(p)
    ensures r.Ok? ==> r.value == PayloadBytes(p)
    ensures r.Err? ==> r.error == if 0 <= p.serverPort <= 65535 then FrameTooLarge else PortOutOfRange
  {
    hide U64, U16, ToUint64;
    if p.serverPort < 0 || p.serverPort > 65535 {
      return Err(PortOutOfRange);
    }
    if |p.methodName| > 255 || |p.sessionID| > 255 || |p.extensions| > 65535 {
      return Err(FrameTooLarge);
    }
    var buf: seq<byte> := [];
    buf := buf + p.clientIDHash;
    buf := buf + U64(ToUint64(p.timestampMS));
    buf := buf + U16(p.serverPort);
    buf := buf + [|p.methodName| as byte];
    buf := buf + p.methodName;
    buf := buf + [|p.sessionID| as byte];
    buf := buf + p.sessionID;
    buf := buf + U16(|p.extensions|);
    buf := buf + p.extensions;
    assert buf == PayloadBytes(p);
    return Ok(buf);
  }

  method DecodePayload(raw: seq<byte>) returns (r: Option<Payload>)
    ensures r == ParsePayload(raw)
  {
    hide TakeU64, TakeU16, TakeVar8;
    var reader := new BinaryReader(raw);
    var id := reader.ReadFixed(16);
    if id.None? {
      return None;
    }
    var ts := reader.ReadUint64();
    if ts.None? {
      return None;
    }
    var port := reader.ReadUint16();
    if port.None? {
      return None;
    }
    var methodName := reader.ReadVar8();
    if methodName.None? {
      return None;
    }
    var session := reader.ReadVar8();
    if session.None? {
      return None;
    }
    var extLen := reader.ReadUint16();
    if extLen.None? {
      return None;
    }
    if extLen.value != reader.Remaining() {
      return None;
    }
    ghost var last := reader.Rest();
    var ext := reader.ReadFixed(extLen.value);
    if ext.None? {
      return None;
    }
    assert ext.value == last;
    return Some(Payload(id.value, ToInt64(ts.value), port.value, methodName.value, session.value, ext.value));
  }

  // ------------------------------------------------------------------ envelope v2

  datatype PayloadV2 = PayloadV2(
    version: byte, flags: byte, timestampMS: int64, clientIDHash: Hash, serverPort: int,
    methodName: seq<byte>, sessionID: seq<byte>, extensions: seq<byte>)

  predicate EncodableV2(p: PayloadV2) {
    0 <= p.serverPort <= 65535 && |p.methodName| <= 255 && |p.sessionID| <= 255 && |p.extensions| <= 65535
  }

  function PayloadV2Bytes(p: PayloadV2): (r: seq<byte>)
    requires EncodableV2(p)
    ensures |r| == 32 + |p.methodName| + |p.sessionID| + |p.extensions|
  {
    [p.version, p.flags] + (U64(ToUint64(p.timestampMS)) + (p.clientIDHash + (U16(p.serverPort)
    + (Var8(p.methodName) + (Var8(p.sessionID) + Var16(p.extensions))))))
  }

  /** Reads a payload and leaves what follows it. */
  function TakePayloadV2(raw: seq<byte>): (r: Taken<PayloadV2>) {
    var (version, s0) :- TakeByte(raw);
    var (flags, s1) :- TakeByte(s0);
    var (ts, s2) :- TakeU64(s1);
    var (id, s3) :- Take(s2, 16);
    var (port, s4) :- TakeU16(s3);
    var (methodName, s5) :- TakeVar8(s4);
    var (session, s6) :- TakeVar8(s5);
    var (ext, s7) :- TakeVar16(s6);
    Some((PayloadV2(version, flags, ToInt64(ts), id, port, methodName, session, ext), s7))
  }

  lemma PayloadV2RoundTrip(p: PayloadV2, rest: seq<byte>)
    requires EncodableV2(p)
    ensures TakePayloadV2(PayloadV2Bytes(p) + rest) == Some((p, rest))
  {
    hide U64, U16, Var8, Var16, TakeU64, TakeU16, TakeVar8, TakeVar16, Take;
    var s6 := Var16(p.extensions) + rest;
    var s5 := Var8(p.sessionID) + s6;
    var s4 := Var8(p.methodName) + s5;
    var s3 := U16(p.serverPort) + s4;
    var s2 := p.clientIDHash + s3;
    var s1 := U64(ToUint64(p.timestampMS)) + s2;
    var raw := [p.version, p.flags] + s1;
    assert PayloadV2Bytes(p) + rest == raw;
    assert raw[1..][1..] == s1;
    TakeU64Written(ToUint64(p.timestampMS), s2);
    TakeWritten(p.clientIDHash, s3);
    TakeU16Written(p.serverPort, s4);
    TakeVar8Written(p.methodName, s5);
    TakeVar8Written(p.sessionID, s6);
    TakeVar16Written(p.extensions, rest);
  }

  lemma PayloadV2Canonical(raw: seq<byte>)
    requires TakePayloadV2(raw).Some?
    ensures var (p, rest) := TakePayloadV2(raw).value; EncodableV2(p) && PayloadV2Bytes(p) + rest == raw
  {
    hide U64, U16, Var8, Var16, FromU64, FromU16, TakeVar8, TakeVar16;
    var (p, rest) := TakePayloadV2(raw).value;
    var s1 := raw[2..];
    var s2 := s1[8..];
    var s3 := s2[16..];
    var s4 := s3[2..];
    var (_, s5) := TakeVar8(s4).value;
    var (_, s6) := TakeVar8(s5).value;
    TakenU64(s1);
    TakenU16(s3);
    TakenVar8(s4);
    TakenVar8(s5);
    TakenVar16(s6);
    assert raw == [p.version, p.flags] + s1;
    assert s2 == p.clientIDHash + s3;
    assert s6 == Var16(p.extensions) + rest;
    RegroupV2(p, rest);
  }

  lemma RegroupV2(p: PayloadV2, rest: seq<byte>)
    requires EncodableV2(p)
    ensures PayloadV2Bytes(p) + rest ==
            [p.version, p.flags] + (U64(ToUint64(p.timestampMS)) + (p.clientIDHash + (U16(p.serverPort)
            + (Var8(p.methodName) + (Var8(p.sessionID) + (Var16(p.extensions) + rest))))))
  {
  }

  method EncodeEnvelopeV2Payload(p: PayloadV2) returns (r: Result<seq<byte>, EncodeError>)
    ensures r.Ok? <==> EncodableV2(p)
    ensures r.Ok? ==> r.value == PayloadV2Bytes(p)
    ensures r.Err? ==> r.error == if 0 <= p.serverPort <= 65535 then FrameTooLarge else PortOutOfRange
  {
    hide U64, U16, ToUint64;
    if p.serverPort < 0 || p.serverPort > 65535 {
      return Err(PortOutOfRange);
    }
    if |p.methodName| > 255 || |p.sessionID| > 255 || |p.extensions| > 65535 {
      return Err(FrameTooLarge);
    }
    var buf: seq<byte> := [];
    buf := buf + [p.version];
    buf := buf + [p.flags];
    buf := buf + U64(ToUint64(p.timestampMS));
    buf := buf + p.clientIDHash;
    buf := buf + U16(p.serverPort);
    buf := buf + [|p.methodName| as byte];
    buf := buf + p.methodName;
    buf := buf + [|p.sessionID| as byte];
    buf := buf + p.sessionID;
    buf := buf + U16(|p.extensions|);
    buf := buf + p.extensions;
    assert buf == PayloadV2Bytes(p);
    return Ok(buf);
  }

  /** The payload and the position after it. */
  method DecodeEnvelopeV2PayloadWithLength(raw: seq<byte>) returns (r: Option<(PayloadV2, nat)>)
    ensures r.None? <==> TakePayloadV2(raw).None?
    ensures r.Some? ==> r.value.1 <= |raw| && TakePayloadV2(raw) == Some((r.value.0, raw[r.value.1..]))
  {
    hide TakeU64, TakeU16, TakeVar8, TakeVar16, TakeByte;
    var reader := new BinaryReader(raw);
    var version := reader.ReadByte();
    if version.None? {
      return None;
    }
    var flags := reader.ReadByte();
    if flags.None? {
      return None;
    }
    var ts := reader.ReadUint64();
    if ts.None? {
      return None;
    }
    var id := reader.ReadFixed(16);
    if id.None? {
      return None;
    }
    var port := reader.ReadUint16();
    if port.None? {
      return None;
    }
    var methodName := reader.ReadVar8();
    if methodName.None? {
      return None;
    }
    var session := reader.ReadVar8();
    if session.None? {
      return None;
    }
    var ext := reader.ReadVar16();
    if ext.None? {
      return None;
    }
    var p := PayloadV2(version.value, flags.value, ToInt64(ts.value), id.value, port.value,
                       methodName.value, session.value, ext.value);
    return Some((p, reader.pos));
  }

  // -------------------------------------------------------------------- UDP knock

  datatype KnockPayload = KnockPayload(
    frameType: byte, clientIDHash: Hash, timestampMS: int64, methodName: seq<byte>, serverPort: int, sessionID: seq<byte>,
    sequenceID: seq<byte>, sequenceIndex: int, sequenceTotal: int, clientRandom: seq<byte>, extensions: seq<TLV>)

  predicate EncodableKnock(p: KnockPayload) {
    && 1 <= |p.methodName| <= 255 && |p.sessionID| <= 255 && |p.sequenceID| <= 255 && |p.clientRandom| <= 255
    && 1 <= p.serverPort <= 65535
    && TlvSize(p.extensions) <= 65535
  }

  /** The second half of a payload. */
  datatype KnockTail = KnockTail(
    sequenceID: seq<byte>, sequenceIndex: int, sequenceTotal: int, clientRandom: seq<byte>, extensions: seq<TLV>)

  function TailOf(p: KnockPayload): (t: KnockTail) {
    KnockTail(p.sequenceID, p.sequenceIndex, p.sequenceTotal, p.clientRandom, p.extensions)
  }

  predicate EncodableTail(t: KnockTail) {
    |t.sequenceID| <= 255 && |t.clientRandom| <= 255 && TlvSize(t.extensions) <= 65535
  }

  /** Index and total are written as single bytes: higher bits are lost. */
  function TailBytes(t: KnockTail): (r: seq<byte>)
    requires EncodableTail(t)
  {
    Var8(t.sequenceID) + ([t.sequenceIndex % 256, t.sequenceTotal % 256] + (Var8(t.clientRandom) + Var16(TlvBytes(t.extensions))))
  }

  function ParseTail(raw: seq<byte>): (r: Option<KnockTail>) {
    var (sequence, s1) :- TakeVar8(raw);
    var (index, s2) :- TakeByte(s1);
    var (total, s3) :- TakeByte(s2);
    var (random, s4) :- TakeVar8(s3);
    var (extLen, s5) :- TakeU16(s4);
    var tlvs :- ParseTlvs(s5);
    if extLen != |s5| then None else Some(KnockTail(sequence, index, total, random, tlvs))
  }

  function KnockBytes(p: KnockPayload): (r: seq<byte>)
    requires EncodableKnock(p)
  {
    [p.frameType] + (p.clientIDHash + (U64(ToUint64(p.timestampMS)) + (Var8(p.methodName) + (U16(p.serverPort)
    + (Var8(p.sessionID) + TailBytes(TailOf(p)))))))
  }

  function ParseKnock(raw: seq<byte>): (r: Option<KnockPayload>) {
    var (frameType, s1) :- TakeByte(raw);
    var (id, s2) :- Take(s1, 16);
    var (ts, s3) :- TakeU64(s2);
    var (methodName, s4) :- TakeVar8(s3);
    var (port, s5) :- TakeU16(s4);
    var (session, s6) :- TakeVar8(s5);
    var t :- ParseTail(s6);
    if methodName == [] || 0 < |session| < SESSION_ID_MIN then None
    else Some(KnockPayload(frameType, id, ToInt64(ts), methodName, port, session, t.sequenceID, t.sequenceIndex,
                           t.sequenceTotal, t.clientRandom, t.extensions))
  }

  lemma TailReadBack(t: KnockTail)
    requires EncodableTail(t)
    ensures ParseTail(TailBytes(t)) == Some(t.(sequenceIndex := t.sequenceIndex % 256, sequenceTotal := t.sequenceTotal % 256))
  {
    hide U16, Var8, TakeU16, TakeVar8, TlvBytes, ParseTlvs, TlvSize;
    var ext := TlvBytes(t.extensions);
    var s3 := Var8(t.clientRandom) + Var16(ext);
    var s1 := [t.sequenceIndex % 256, t.sequenceTotal % 256] + s3;
    assert s1[1..][1..] == s3;
    TakeVar8Written(t.sequenceID, s1);
    TakeVar8Written(t.clientRandom, Var16(ext));
    TakeU16Written(|ext|, ext);
    TlvRoundTrip(t.extensions);
  }

  lemma TailCanonical(raw: seq<byte>)
    requires ParseTail(raw).Some?
    ensures var t := ParseTail(raw).value;
            && EncodableTail(t) && TailBytes(t) == raw && 0 <= t.sequenceIndex <= 255 && 0 <= t.sequenceTotal <= 255
  {
    hide U16, Var8, FromU16, TakeVar8, TlvBytes, ParseTlvs, TlvSize;
    var t := ParseTail(raw).value;
    var s1 := TakeVar8(raw).value.1;
    var s3 := s1[2..];
    assert s1 == [t.sequenceIndex, t.sequenceTotal] + s3 && s1[1..][1..] == s3;
    var s4 := TakeVar8(s3).value.1;
    TakenVar8(raw);
    TakenVar8(s3);
    TakenU16(s4);
    TlvCanonical(s4[2..]);
  }

  /** The payloads that survive a round trip: the decoder also refuses short session
      ids, which the encoder writes. */
  predicate RoundTripsKnock(p: KnockPayload) {
    && (p.sessionID == [] || |p.sessionID| >= SESSION_ID_MIN)
    && 0 <= p.sequenceIndex <= 255 && 0 <= p.sequenceTotal <= 255
  }

  /** What the decoder makes of any encoded payload. */
  lemma KnockReadBack(p: KnockPayload)
    requires EncodableKnock(p)
    ensures ParseKnock(KnockBytes(p)) ==
            if 0 < |p.sessionID| < SESSION_ID_MIN then None
            else Some(p.(sequenceIndex := p.sequenceIndex % 256, sequenceTotal := p.sequenceTotal % 256))
  {
    hide U64, U16, Var8, TakeU64, TakeU16, TakeVar8, Take, TlvSize, TailBytes, ParseTail;
    var s6 := TailBytes(TailOf(p));
    var s5 := Var8(p.sessionID) + s6;
    var s4 := U16(p.serverPort) + s5;
    var s3 := Var8(p.methodName) + s4;
    var s2 := U64(ToUint64(p.timestampMS)) + s3;
    assert KnockBytes(p)[1..] == p.clientIDHash + s2;
    TakeWritten(p.clientIDHash, s2);
    TakeU64Written(ToUint64(p.timestampMS), s3);
    TakeVar8Written(p.methodName, s4);
    TakeU16Written(p.serverPort, s5);
    TakeVar8Written(p.sessionID, s6);
    TailReadBack(TailOf(p));
  }

  /** Decoding what was encoded gives the payload back exactly for those. */
  lemma KnockRoundTripIff(p: KnockPayload)
    requires EncodableKnock(p)
    ensures ParseKnock(KnockBytes(p)) == Some(p) <==> RoundTripsKnock(p)
  {
    hide ParseKnock, KnockBytes, EncodableKnock;
    KnockReadBack(p);
  }

  /** Everything the decoder accepts is the encoding of what it is read as, except that
      the encoder refuses port 0. */
  lemma KnockCanonical(raw: seq<byte>)
    requires ParseKnock(raw).Some?
    ensures var p := ParseKnock(raw).value;
            && RoundTripsKnock(p)
            && (EncodableKnock(p) <==> p.serverPort >= 1)
            && (p.serverPort >= 1 ==> KnockBytes(p) == raw)
  {
    hide U64, U16, Var8, FromU64, FromU16, TakeVar8, TlvSize, TailBytes, ParseTail;
    var p := ParseKnock(raw).value;
    var s1 := raw[1..];
    var s2 := s1[16..];
    var s3 := s2[8..];
    var s4 := TakeVar8(s3).value.1;
    var s5 := s4[2..];
    TakenU64(s2);
    TakenVar8(s3);
    TakenU16(s4);
    TakenVar8(s5);
    TailCanonical(TakeVar8(s5).value.1);
    assert raw == [p.frameType] + s1 && s1 == p.clientIDHash + s2;
  }

  /** One more part is written. */
  lemma Joined(written: seq<byte>, part: seq<byte>, rest: seq<byte>, whole: seq<byte>)
    requires written + (part + rest) == whole
    ensures written + part + rest == whole
  {
  }

  /** Writes what follows the session id. */
  method WriteTail(t: KnockTail, ext: seq<byte>) returns (buf: seq<byte>)
    requires EncodableTail(t) && ext == TlvBytes(t.extensions)
    ensures buf == TailBytes(t)
  {
    hide TlvSize, TlvBytes, U16;
    buf := [|t.sequenceID| as byte] + t.sequenceID;
    buf := buf + [t.sequenceIndex % 256];
    buf := buf + [t.sequenceTotal % 256];
    buf := buf + [|t.clientRandom| as byte] + t.clientRandom;
    buf := buf + U16(|ext|) + ext;
    assert buf == TailBytes(t);
  }

  method EncodeKnockPayload(p: KnockPayload) returns (r: Result<seq<byte>, EncodeError>)
    ensures r.Ok? <==> EncodableKnock(p)
    ensures r.Ok? ==> r.value == KnockBytes(p)
  {
    hide TlvSize, TlvBytes, U64, U16, TailBytes;
    if p.methodName == [] || |p.methodName| > 255 || |p.sessionID| > 255 || |p.sequenceID| > 255 || |p.clientRandom| > 255 {
      return Err(InvalidFrame);
    }
    if p.serverPort < 1 || p.serverPort > 65535 {
      return Err(InvalidFrame);
    }
    var ext := EncodeTLVs(p.extensions);
    if ext.None? {
      return Err(FrameTooLarge);
    }
    var tail := WriteTail(TailOf(p), ext.value);
    ghost var whole := KnockBytes(p);
    ghost var s5 := Var8(p.sessionID) + tail;
    ghost var s4 := U16(p.serverPort) + s5;
    ghost var s3 := Var8(p.methodName) + s4;
    ghost var s2 := U64(ToUint64(p.timestampMS)) + s3;
    var buf: seq<byte> := [p.frameType];
    Joined(buf, p.clientIDHash, s2, whole);
    buf := buf + p.clientIDHash;
    Joined(buf, U64(ToUint64(p.timestampMS)), s3, whole);
    buf := buf + U64(ToUint64(p.timestampMS));
    Joined(buf, Var8(p.methodName), s4, whole);
    buf := buf + ([|p.methodName| as byte] + p.methodName);
    Joined(buf, U16(p.serverPort), s5, whole);
    buf := buf + U16(p.serverPort);
    Joined(buf, Var8(p.sessionID), tail, whole);
    buf := buf + ([|p.sessionID| as byte] + p.sessionID);
    return Ok(buf + tail);
  }

  /** Reads what follows the session id. */
  method ReadTail(reader: BinaryReader) returns (r: Option<KnockTail>)
    requires reader.Valid()
    modifies reader
    ensures r == ParseTail(old(reader.Rest()))
  {
    hide TakeU16, TakeVar8, TakeByte, ParseTlvs;
    var sequence := reader.ReadVar8();
    if sequence.None? {
      return None;
    }
    var index := reader.ReadByte();
    if index.None? {
      return None;
    }
    var total := reader.ReadByte();
    if total.None? {
      return None;
    }
    var random := reader.ReadVar8();
    if random.None? {
      return None;
    }
    var extLen := reader.ReadUint16();
    if extLen.None? || extLen.value != reader.Remaining() {
      return None;
    }
    ghost var last := reader.Rest();
    var ext := reader.ReadFixed(extLen.value);
    if ext.None? {
      return None;
    }
    assert ext.value == last;
    var tlvs := DecodeTLVs(ext.value);
    if tlvs.None? {
      return None;
    }
    return Some(KnockTail(sequence.value, index.value, total.value, random.value, tlvs.value));
  }

  method DecodeKnockPayload(raw: seq<byte>) returns (r: Option<KnockPayload>)
    ensures r == ParseKnock(raw)
  {
    hide TakeU64, TakeU16, TakeVar8, TakeByte, ParseTail;
    var reader := new BinaryReader(raw);
    var frameType := reader.ReadByte();
    if frameType.None? {
      return None;
    }
    var id := reader.ReadFixed(16);
    if id.None? {
      return None;
    }
    var ts := reader.ReadUint64();
    if ts.None? {
      return None;
    }
    var methodName := reader.ReadVar8();
    if methodName.None? || methodName.value == [] {
      return None;
    }
    var port := reader.ReadUint16();
    if port.None? {
      return None;
    }
    var session := reader.ReadVar8();
    if session.None? {
      return None;
    }
    var tail := ReadTail(reader);
    if tail.None? || 0 < |session.value| < SESSION_ID_MIN {
      return None;
    }
    var t := tail.value;
    return Some(KnockPayload(frameType.value, id.value, ToInt64(ts.value), methodName.value, port.value, session.value,
                             t.sequenceID, t.sequenceIndex, t.sequenceTotal, t.clientRandom, t.extensions));
  }
}
