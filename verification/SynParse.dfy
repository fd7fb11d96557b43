/**
 SYN packets: finding the IP header in a captured frame and reading the knock fields.
 */
module SynParse {
  import opened Bytes
  import opened Wrappers
  import opened Checksum
  import opened SynParts
  import opened SynBuild

  const TYPE_IPV4: uint16 := 0x0800
  const TYPE_IPV6: uint16 := 0x86dd
  const SCAN_LIMIT: nat := 64

  function Word(data: seq<byte>, at: nat): (r: uint16)
    requires at + 2 <= |data|
  {
    FromU16(data[at..at + 2])
  }

  // ------------------------------------------------------------- finding the header

  /** The header's place according to the Ethernet type, with or without one VLAN tag. */
  function EthernetOffset(frame: seq<byte>, kind: uint16): (r: Option<nat>) {
    if |frame| < 14 then None
    else if Word(frame, 12) == kind then Some(14)
    else if (Word(frame, 12) == 0x8100 || Word(frame, 12) == 0x88a8) && |frame| >= 18 && Word(frame, 16) == kind then Some(18)
    else None
  }

  predicate LooksLikeIPv4(frame: seq<byte>, i: nat)
    requires i + 20 <= |frame|
  {
    && frame[i] / 16 == 4 && frame[i] % 16 >= 5
    && Word(frame, i + 2) >= 20 && i + Word(frame, i + 2) <= |frame| && frame[i + 9] == 6
  }

  predicate LooksLikeIPv6(frame: seq<byte>, i: nat)
    requires i + 40 <= |frame|
  {
    && frame[i] / 16 == 6 && frame[i + 6] == 6
    && Word(frame, i + 4) >= 8 && i + 40 + Word(frame, i + 4) <= |frame|
  }

  function Limit(frame: seq<byte>): (r: nat)
    ensures r <= |frame|
  {
    if |frame| < SCAN_LIMIT then |frame| else SCAN_LIMIT
  }

  /** The first place from `i` on that looks like a header. */
  function ScanIPv4(frame: seq<byte>, i: nat): (r: Option<nat>)
    ensures r.Some? ==> i <= r.value && r.value + 20 <= Limit(frame) && LooksLikeIPv4(frame, r.value)
    ensures forall k: nat :: i <= k && k + 20 <= Limit(frame) && (r.None? || k < r.value) ==> !LooksLikeIPv4(frame, k)
    decreases |frame| - i
  {
    if i + 20 > Limit(frame) then None else if LooksLikeIPv4(frame, i) then Some(i) else ScanIPv4(frame, i + 1)
  }

  function ScanIPv6(frame: seq<byte>, i: nat): (r: Option<nat>)
    ensures r.Some? ==> i <= r.value && r.value + 40 <= Limit(frame) && LooksLikeIPv6(frame, r.value)
    ensures forall k: nat :: i <= k && k + 40 <= Limit(frame) && (r.None? || k < r.value) ==> !LooksLikeIPv6(frame, k)
    decreases |frame| - i
  {
    if i + 40 > Limit(frame) then None else if LooksLikeIPv6(frame, i) then Some(i) else ScanIPv6(frame, i + 1)
  }

  function OffsetIPv4(frame: seq<byte>): (r: Option<nat>) {
    var o := EthernetOffset(frame, TYPE_IPV4);
    if o.Some? then o else ScanIPv4(frame, 0)
  }

  function OffsetIPv6(frame: seq<byte>): (r: Option<nat>) {
    var o := EthernetOffset(frame, TYPE_IPV6);
    if o.Some? then o else ScanIPv6(frame, 0)
  }

  method FindIPv4Offset(frame: seq<byte>) returns (r: Option<nat>)
    ensures r == OffsetIPv4(frame)
  {
    var o := EthernetOffset(frame, TYPE_IPV4);
    if o.Some? {
      return o;
    }
    var max := if |frame| < SCAN_LIMIT then |frame| else SCAN_LIMIT;
    var i := 0;
    while i + 20 <= max
      invariant ScanIPv4(frame, 0) == ScanIPv4(frame, i)
    {
      if LooksLikeIPv4(frame, i) {
        return Some(i);
      }
      i := i + 1;
    }
    return None;
  }

  method FindIPv6Offset(frame: seq<byte>) returns (r: Option<nat>)
    ensures r == OffsetIPv6(frame)
  {
    var o := EthernetOffset(frame, TYPE_IPV6);
    if o.Some? {
      return o;
    }
    var max := if |frame| < SCAN_LIMIT then |frame| else SCAN_LIMIT;
    var i := 0;
    while i + 40 <= max
      invariant ScanIPv6(frame, 0) == ScanIPv6(frame, i)
    {
      if LooksLikeIPv6(frame, i) {
        return Some(i);
      }
      i := i + 1;
    }
    return None;
  }

  // ------------------------------------------------------------------ TCP options

  /** The value of the first well-formed timestamp option. */
  function Timestamp(options: seq<byte>): (r: Option<uint32>)
    decreases |options|
  {
    if options == [] || options[0] == 0 then None
    else if options[0] == 1 then Timestamp(options[1..])
    else if |options| < 2 || options[1] < 2 || options[1] > |options| then None
    else if options[0] == 8 && options[1] == 10 then Some(FromU32(options[2..6]))
    else Timestamp(options[options[1]..])
  }

  method ParseTimestamp(options: seq<byte>) returns (r: Option<uint32>)
    ensures r == Timestamp(options)
  {
    var i := 0;
    while i < |options|
      invariant 0 <= i <= |options|
      invariant Timestamp(options) == Timestamp(options[i..])
    {
      var rest := options[i..];
      var kind := options[i];
      if kind == 0 {
        return None;
      }
      if kind == 1 {
        assert rest[1..] == options[i + 1..];
        i := i + 1;
        continue;
      }
      if i + 1 >= |options| {
        return None;
      }
      var length := options[i + 1];
      if length < 2 || i + length > |options| {
        return None;
      }
      if kind == 8 && length == 10 {
        assert rest[2..6] == options[i + 2..i + 6];
        return Some(FromU32(options[i + 2..i + 6]));
      }
      assert rest[length..] == options[i + length..];
      i := i + length;
    }
    return None;
  }

  // ----------------------------------------------------------------- the segment

  datatype Segment = Segment(src: seq<byte>, tcp: seq<byte>)

  function SegmentIPv4(frame: seq<byte>): (r: Option<Segment>) {
    var off := OffsetIPv4(frame);
    if off.None? || |frame| < off.value + 20 then None
    else
      var ip := frame[off.value..];
      var headerLen := ip[0] % 16 * 4;
      var stated := Word(ip, 2);
      var total := if stated <= headerLen || |ip| < stated then |ip| else stated;
      if headerLen < 20 || |ip| < headerLen || ip[9] != 6 then None
      else Some(Segment(ip[12..16], ip[headerLen..total]))
  }

  function SegmentIPv6At(frame: seq<byte>, off: nat): (r: Option<Segment>)
    ensures r.Some? ==> |r.value.tcp| >= 20
  {
    if |frame| < off + 40 then None
    else
      var ip := frame[off..];
      var length := Word(ip, 4);
      if ip[6] != 6 || length < 20 || |ip| < 40 + length then None
      else Some(Segment(ip[8..24], ip[40..40 + length]))
  }

  function SegmentIPv6(frame: seq<byte>): (r: Option<Segment>)
    ensures r.Some? ==> |r.value.tcp| >= 20
  {
    var off := OffsetIPv6(frame);
    if off.None? then None else SegmentIPv6At(frame, off.value)
  }

  predicate OnlySyn(flags: byte) {
    flags / 2 % 2 == 1 && flags / 16 % 2 == 0 && flags / 4 % 2 == 0
  }

  function HeaderFields(tcp: seq<byte>): (r: Option<SynFields>)
    requires |tcp| >= 20
  {
    var headerLen := tcp[12] / 16 * 4;
    if !OnlySyn(tcp[13]) || headerLen < 20 || |tcp| < headerLen then None
    else
      var ts := Timestamp(tcp[20..headerLen]);
      if ts.None? then None else Some(SynFields(FromU32(tcp[4..8]), Word(tcp, 14), ts.value))
  }

  // ------------------------------------------------------------------ the parsers

  datatype Syn = Syn(src: seq<byte>, port: int, fields: SynFields)

  function FromSegment(s: Option<Segment>): (r: Option<Syn>) {
    if s.None? || |s.value.tcp| < 20 then None
    else
      var f := HeaderFields(s.value.tcp);
      if f.None? then None else Some(Syn(s.value.src, Word(s.value.tcp, 2), f.value))
  }

  /** Reads any SYN: an IPv6 reading wins over an IPv4 one. */
  function ParseSynPacket(frame: seq<byte>): (r: Option<Syn>) {
    var v6 := FromSegment(SegmentIPv6(frame));
    if v6.Some? then v6 else FromSegment(SegmentIPv4(frame))
  }

  function KnockFromSegment(s: Option<Segment>, port: int): (r: Option<(seq<byte>, SynFields)>) {
    if s.None? || |s.value.tcp| < 20 || Word(s.value.tcp, 2) != port then None
    else
      var f := HeaderFields(s.value.tcp);
      if f.None? then None else Some((s.value.src, f.value))
  }

  /** Reads a SYN to one port. */
  function ParseSynKnock(frame: seq<byte>, port: int): (r: Option<(seq<byte>, SynFields)>) {
    var v6 := KnockFromSegment(SegmentIPv6(frame), port);
    if v6.Some? then v6 else KnockFromSegment(SegmentIPv4(frame), port)
  }

  /** A packet read without a port in mind is read the same with its port in mind. */
  lemma PacketIsKnock(frame: seq<byte>)
    requires ParseSynPacket(frame).Some?
    ensures var p := ParseSynPacket(frame).value; ParseSynKnock(frame, p.port) == Some((p.src, p.fields))
  {
    hide SegmentIPv6, SegmentIPv4, HeaderFields;
  }

  /** A knock read for a port is that packet, unless the frame reads as an IPv6 SYN to
      another port as well. */
  lemma KnockIsPacketIff(frame: seq<byte>, port: int)
    requires ParseSynKnock(frame, port).Some?
    ensures var k, v6 := ParseSynKnock(frame, port).value, FromSegment(SegmentIPv6(frame));
            ParseSynPacket(frame) == Some(Syn(k.0, port, k.1)) <==> !(v6.Some? && v6.value.port != port)
  {
    hide SegmentIPv6, SegmentIPv4, HeaderFields;
  }

  /** An IPv4 SYN to port 22 whose Ethernet addresses look like an IPv6 header: read from
      the start of the frame, it is an IPv6 SYN to port 443. */
  const TWO_WAYS: seq<byte> := seq(72, i => TwoWaysAt(i))

  function TwoWaysAt(i: int): (b: byte) {
    match i
    case 0 => 96
    case 5 => 32
    case 6 => 6
    case 7 => 64
    case 12 => 8
    case 14 => 69
    case 17 => 58
    case 22 => 64
    case 23 => 6
    case 26 => 10
    case 29 => 1
    case 30 => 10
    case 33 => 2
    case 37 => 22
    case 42 => 1
    case 43 => 187
    case 46 => 128
    case 47 => 2
    case 52 => 128
    case 53 => 2
    case 54 => 1
    case 55 => 1
    case 56 => 8
    case 57 => 10
    case 60 => 1
    case 61 => 1
    case 62 => 8
    case 63 => 10
    case _ => 0
  }

  /** Bytes that make a segment a SYN with a timestamp option. */
  predicate SynBytes(frame: seq<byte>, at: nat, port: uint16)
    requires at + 32 <= |frame|
  {
    && frame[at + 2] == port / 256 && frame[at + 3] == port % 256 && frame[at + 12] == 128 && frame[at + 13] == 2
    && frame[at + 20] == 1 && frame[at + 21] == 1 && frame[at + 22] == 8 && frame[at + 23] == 10
  }

  lemma ReadsAsSyn(tcp: seq<byte>, port: uint16)
    requires 32 <= |tcp| && SynBytes(tcp, 0, port)
    ensures HeaderFields(tcp).Some? && Word(tcp, 2) == port
  {
    hide FromU32;
    var options := tcp[20..32];
    assert options[0] == 1 && options[1] == 1 && options[2] == 8 && options[3] == 10;
    assert Timestamp(options[1..][1..]).Some?;
    assert Timestamp(options[1..]).Some?;
  }

  lemma TwoWaysBytes()
    ensures SynBytes(TWO_WAYS, 34, 22) && SynBytes(TWO_WAYS, 40, 443)
  {
    var f := TWO_WAYS;
    assert f[36] == TwoWaysAt(36) && f[37] == TwoWaysAt(37) && f[46] == TwoWaysAt(46) && f[47] == TwoWaysAt(47);
    assert f[54] == TwoWaysAt(54) && f[55] == TwoWaysAt(55) && f[56] == TwoWaysAt(56) && f[57] == TwoWaysAt(57);
    assert f[42] == TwoWaysAt(42) && f[43] == TwoWaysAt(43) && f[52] == TwoWaysAt(52) && f[53] == TwoWaysAt(53);
    assert f[60] == TwoWaysAt(60) && f[61] == TwoWaysAt(61) && f[62] == TwoWaysAt(62) && f[63] == TwoWaysAt(63);
  }

  lemma TwoWaysHeads()
    ensures TWO_WAYS[12..14] == [8, 0] && TWO_WAYS[4..6] == [0, 32] && TWO_WAYS[16] == 0 && TWO_WAYS[17] == 58
  {
    var f := TWO_WAYS;
    assert f[4] == TwoWaysAt(4) && f[5] == TwoWaysAt(5) && f[12] == TwoWaysAt(12) && f[13] == TwoWaysAt(13);
    assert f[16] == TwoWaysAt(16) && f[17] == TwoWaysAt(17);
  }

  lemma SixReading()
    ensures SegmentIPv6(TWO_WAYS).Some?
    ensures var tcp := SegmentIPv6(TWO_WAYS).value.tcp; HeaderFields(tcp).Some? && Word(tcp, 2) == 443
  {
    hide HeaderFields, FromU32;
    var frame := TWO_WAYS;
    TwoWaysBytes();
    TwoWaysHeads();
    assert OffsetIPv6(frame) == Some(0) && frame[0..] == frame;
    assert SegmentIPv6(frame) == Some(Segment(frame[8..24], frame[40..72]));
    assert SynBytes(frame[40..72], 0, 443);
    ReadsAsSyn(frame[40..72], 443);
  }

  lemma FourReading()
    ensures SegmentIPv4(TWO_WAYS).Some? && |SegmentIPv4(TWO_WAYS).value.tcp| >= 32
    ensures var tcp := SegmentIPv4(TWO_WAYS).value.tcp; HeaderFields(tcp).Some? && Word(tcp, 2) == 22
  {
    hide HeaderFields, FromU32;
    var frame, ip := TWO_WAYS, TWO_WAYS[14..];
    TwoWaysBytes();
    TwoWaysHeads();
    TwoAt(ip, 2);
    assert OffsetIPv4(frame) == Some(14);
    assert SegmentIPv4(frame) == Some(Segment(ip[12..16], ip[20..58]));
    assert ip[20..58] == frame[34..72];
    assert SynBytes(frame[34..72], 0, 22);
    ReadsAsSyn(ip[20..58], 22);
  }

  /** The parsers disagree on it: what is a knock to port 22 for one is a packet to port 443
      for the other. */
  lemma ParsersDisagree()
    ensures ParseSynKnock(TWO_WAYS, 22).Some?
    ensures ParseSynPacket(TWO_WAYS).Some? && ParseSynPacket(TWO_WAYS).value.port == 443
  {
    hide HeaderFields, SegmentIPv4, SegmentIPv6;
    SixReading();
    FourReading();
  }

  // ------------------------------------------------------------------- round trips

  /** An Ethernet header: addresses longer than 6 bytes are cut, shorter ones padded. */
  function Mac(addr: seq<byte>): (r: seq<byte>)
    ensures |r| == 6
  {
    seq(6, i requires 0 <= i < 6 => if i < |addr| then addr[i] else 0)
  }

  method BuildEthernetIPv4Frame(srcMac: seq<byte>, dstMac: seq<byte>, packet: seq<byte>) returns (r: seq<byte>)
    ensures r == EthernetFrame(Mac(dstMac) + Mac(srcMac), TYPE_IPV4, packet)
  {
    hide Mac;
    var frame := new byte[14 + |packet|](_ => 0);
    var dst, src := Mac(dstMac), Mac(srcMac);
    Put(frame, 0, dst);
    Put(frame, 6, src);
    Put(frame, 12, U16(TYPE_IPV4));
    Put(frame, 14, packet);
    assert frame[..] == dst + src + U16(TYPE_IPV4) + packet;
    return frame[..];
  }

  function EthernetFrame(macs: seq<byte>, kind: uint16, packet: seq<byte>): (r: seq<byte>)
    requires |macs| == 12
    ensures |r| == 14 + |packet|
  {
    macs + U16(kind) + packet
  }

  lemma TcpParts(p: Ports, f: SynFields, sum: uint16)
    ensures var tcp := TcpHeader(p, f, sum);
            && tcp[2..4] == U16(p.dst) && tcp[4..8] == U32(f.sequence) && tcp[12] == 0x80 && tcp[13] == 2
            && tcp[14..16] == U16(f.window)
  {
    hide U32;
    var tcp, q := TcpHeader(p, f, sum), U32(f.sequence);
    assert tcp[2] == p.dst / 256 && tcp[3] == p.dst % 256;
    assert tcp[4] == q[0] && tcp[5] == q[1] && tcp[6] == q[2] && tcp[7] == q[3];
    assert tcp[14] == f.window / 256 && tcp[15] == f.window % 256;
  }

  lemma TcpOptions(p: Ports, f: SynFields, sum: uint16)
    ensures TcpHeader(p, f, sum)[20..32] == [1, 1, 8, 10] + U32(f.timestamp) + [0, 0, 0, 0]
  {
    hide U32;
    var tcp, t := TcpHeader(p, f, sum), U32(f.timestamp);
    assert tcp[20] == 1 && tcp[21] == 1 && tcp[22] == 8 && tcp[23] == 10;
    assert tcp[24] == t[0] && tcp[25] == t[1] && tcp[26] == t[2] && tcp[27] == t[3];
    assert tcp[28] == 0 && tcp[29] == 0 && tcp[30] == 0 && tcp[31] == 0;
  }

  /** The segment reads back to the port and fields it was built from. */
  lemma SegmentReadsBack(p: Ports, f: SynFields, sum: uint16)
    ensures HeaderFields(TcpHeader(p, f, sum)) == Some(f)
    ensures Word(TcpHeader(p, f, sum), 2) == p.dst
  {
    hide U32, FromU32, TcpHeader, Timestamp, U16, FromU16;
    var tcp := TcpHeader(p, f, sum);
    TcpParts(p, f, sum);
    TcpOptions(p, f, sum);
    U16RoundTrip(p.dst);
    U16RoundTrip(f.window);
    U32RoundTrip(f.sequence);
    OptionsReadBack(f.timestamp);
  }

  lemma OptionsReadBack(ts: uint32)
    ensures Timestamp([1, 1, 8, 10] + U32(ts) + [0, 0, 0, 0]) == Some(ts)
  {
    hide U32, FromU32;
    var rest := [8, 10] + U32(ts) + [0, 0, 0, 0];
    var options := [1, 1, 8, 10] + U32(ts) + [0, 0, 0, 0];
    assert options[1..] == [1] + rest;
    assert options[1..][1..] == rest;
    assert rest[2..6] == U32(ts);
    U32RoundTrip(ts);
    assert Timestamp(rest) == Some(ts);
    assert Timestamp([1] + rest) == Timestamp(rest);
  }

  /** No place in a framed IPv4 SYN reads as an IPv6 SYN. */
  lemma NoIPv6Reading(macs: seq<byte>, src: seq<byte>, dst: seq<byte>, p: Ports, id: uint16, f: SynFields, off: nat)
    requires |macs| == 12 && |src| == 4 && |dst| == 4 && off + 40 <= SCAN_LIMIT
    requires var frame := EthernetFrame(macs, TYPE_IPV4, PacketIPv4(src, dst, p, id, f)); LooksLikeIPv6(frame, off)
    ensures FromSegment(SegmentIPv6At(EthernetFrame(macs, TYPE_IPV4, PacketIPv4(src, dst, p, id, f)), off)) == None
  {
    hide ChecksumOf, U32, Timestamp, FromU16, PseudoIPv4;
    var frame := EthernetFrame(macs, TYPE_IPV4, PacketIPv4(src, dst, p, id, f));
    TcpBytesInFrame(macs, src, dst, p, id, f);
    if off < 6 && SegmentIPv6At(frame, off).Some? {
      var tcp := SegmentIPv6At(frame, off).value.tcp;
      assert tcp[12] == frame[off + 52] && tcp[13] == frame[off + 53];
    }
  }

  /** Bytes 12 and 52 to 57 of the frame. */
  lemma TcpBytesInFrame(macs: seq<byte>, src: seq<byte>, dst: seq<byte>, p: Ports, id: uint16, f: SynFields)
    requires |macs| == 12 && |src| == 4 && |dst| == 4
    ensures var frame := EthernetFrame(macs, TYPE_IPV4, PacketIPv4(src, dst, p, id, f));
            frame[12..14] == U16(TYPE_IPV4) && frame[53..58] == [0, 1, 1, 8, 10]
  {
    hide ChecksumOf, U32, PseudoIPv4;
    var packet := PacketIPv4(src, dst, p, id, f);
    var frame := EthernetFrame(macs, TYPE_IPV4, packet);
    var tcp := SummedTcpHeader(PseudoIPv4(src, dst, TCP_SIZE), p, f);
    assert packet[20..] == tcp;
    assert frame[53..58] == tcp[19..24];
  }

  /** An Ethernet frame around a built packet always reads back to what the packet was
      built from, although the frame is first scanned for an IPv6 header. */
  lemma FrameRoundTrip(macs: seq<byte>, src: seq<byte>, dst: seq<byte>, p: Ports, id: uint16, f: SynFields)
    requires |macs| == 12 && |src| == 4 && |dst| == 4
    ensures ParseSynPacket(EthernetFrame(macs, TYPE_IPV4, PacketIPv4(src, dst, p, id, f))) == Some(Syn(src, p.dst, f))
  {
    hide FromSegment, PacketIPv4, ScanIPv6, LooksLikeIPv6, SegmentIPv6At, SegmentIPv4;
    var frame := EthernetFrame(macs, TYPE_IPV4, PacketIPv4(src, dst, p, id, f));
    NotIPv6Typed(macs, src, dst, p, id, f);
    if ScanIPv6(frame, 0).Some? {
      NoIPv6Reading(macs, src, dst, p, id, f, ScanIPv6(frame, 0).value);
    } else {
      NothingFromNothing();
    }
    IPv4Reading(macs, src, dst, p, id, f);
  }

  lemma NothingFromNothing()
    ensures FromSegment(None) == None
  {
  }

  lemma NotIPv6Typed(macs: seq<byte>, src: seq<byte>, dst: seq<byte>, p: Ports, id: uint16, f: SynFields)
    requires |macs| == 12 && |src| == 4 && |dst| == 4
    ensures var frame := EthernetFrame(macs, TYPE_IPV4, PacketIPv4(src, dst, p, id, f));
            EthernetOffset(frame, TYPE_IPV4) == Some(14) && EthernetOffset(frame, TYPE_IPV6) == None
  {
    hide PacketIPv4;
    var frame := EthernetFrame(macs, TYPE_IPV4, PacketIPv4(src, dst, p, id, f));
    assert frame[12..14] == U16(TYPE_IPV4);
  }

  lemma IPv4Reading(macs: seq<byte>, src: seq<byte>, dst: seq<byte>, p: Ports, id: uint16, f: SynFields)
    requires |macs| == 12 && |src| == 4 && |dst| == 4
    ensures FromSegment(SegmentIPv4(EthernetFrame(macs, TYPE_IPV4, PacketIPv4(src, dst, p, id, f)))) == Some(Syn(src, p.dst, f))
  {
    hide ChecksumOf, IPv4Header, TcpHeader, HeaderFields, PseudoIPv4, EthernetOffset, ScanIPv4, FromU16;
    var head, tcp := SummedIPv4Header(src, dst, id), SummedTcpHeader(PseudoIPv4(src, dst, TCP_SIZE), p, f);
    var packet := PacketIPv4(src, dst, p, id, f);
    NotIPv6Typed(macs, src, dst, p, id, f);
    assert EthernetFrame(macs, TYPE_IPV4, packet)[14..] == packet;
    IPv4HeaderReads(src, dst, id, ChecksumOf(IPv4Header(src, dst, id, 0)));
    assert packet[2..4] == head[2..4] && packet[12..16] == head[12..16] && packet[20..52] == tcp;
    SegmentReadsBack(p, f, ChecksumOf(PseudoIPv4(src, dst, TCP_SIZE) + TcpHeader(p, f, 0)));
  }

  /** The same for IPv6 packets in frames that say so. */
  lemma FrameRoundTripIPv6(macs: seq<byte>, src: seq<byte>, dst: seq<byte>, p: Ports, f: SynFields)
    requires |macs| == 12 && |src| == 16 && |dst| == 16
    ensures ParseSynPacket(EthernetFrame(macs, TYPE_IPV6, PacketIPv6(src, dst, p, f))) == Some(Syn(src, p.dst, f))
  {
    hide ChecksumOf, TcpHeader, HeaderFields, PseudoIPv6, ScanIPv6, SegmentIPv4;
    var packet := PacketIPv6(src, dst, p, f);
    var frame := EthernetFrame(macs, TYPE_IPV6, packet);
    var tcp := SummedTcpHeader(PseudoIPv6(src, dst, TCP_SIZE), p, f);
    assert frame[12..14] == U16(TYPE_IPV6);
    assert frame[14..] == packet;
    assert packet[4..6] == [0, 32] && packet[6] == 6;
    assert packet[8..24] == src && packet[40..72] == tcp;
    SegmentReadsBack(p, f, ChecksumOf(PseudoIPv6(src, dst, TCP_SIZE) + TcpHeader(p, f, 0)));
  }

  // ------------------------------------------------------------- any well-formed packet

  /** The eight bits of a byte, lowest first. */
  function FromBits(bits: seq<bool>): (v: nat)
    requires |bits| == 8
    ensures v <= 255
  {
    (if bits[0] then 1 else 0) + (if bits[1] then 2 else 0) + (if bits[2] then 4 else 0) + (if bits[3] then 8 else 0)
    + (if bits[4] then 16 else 0) + (if bits[5] then 32 else 0) + (if bits[6] then 64 else 0) + (if bits[7] then 128 else 0)
  }

  /** The flags say SYN, and neither ACK nor RST; the others do not matter. */
  lemma OnlySynIff(bits: seq<bool>)
    requires |bits| == 8
    ensures OnlySyn(FromBits(bits)) <==> bits[1] && !bits[4] && !bits[2]
  {
  }

  /** A TCP option other than the end of the list and the timestamp. */
  datatype TcpOption = Nop | Other(kind: byte, data: seq<byte>) {
    predicate Good() {
      Other? ==> kind >= 2 && |data| <= 253 && !(kind == 8 && |data| == 8)
    }

    function Bytes(): (b: seq<byte>)
      requires Good()
    {
      if Nop? then [1] else [kind, 2 + |data|] + data
    }
  }

  function OptionBytes(options: seq<TcpOption>): (b: seq<byte>)
    requires forall o :: o in options ==> o.Good()
  {
    if options == [] then [] else options[0].Bytes() + OptionBytes(options[1..])
  }

  /** Other options are passed over. */
  lemma {:induction false} OthersPassed(options: seq<TcpOption>, tail: seq<byte>)
    requires forall o :: o in options ==> o.Good()
    ensures Timestamp(OptionBytes(options) + tail) == Timestamp(tail)
  {
    if options == [] {
      assert OptionBytes(options) + tail == tail;
    } else {
      OthersPassed(options[1..], tail);
      var rest := OptionBytes(options[1..]) + tail;
      assert OptionBytes(options) + tail == options[0].Bytes() + rest;
      OnePassed(options[0], rest);
    }
  }

  lemma OnePassed(o: TcpOption, rest: seq<byte>)
    requires o.Good()
    ensures Timestamp(o.Bytes() + rest) == Timestamp(rest)
  {
    hide FromU32;
    var all := o.Bytes() + rest;
    assert all[|o.Bytes()|..] == rest;
  }

  /** Whatever other options come before it and whatever follows, the first timestamp option
      is read; without one before the end of the list, nothing is. */
  lemma TimestampReadBack(options: seq<TcpOption>, ts: uint32, echo: seq<byte>, tail: seq<byte>)
    requires (forall o :: o in options ==> o.Good()) && |echo| == 4
    ensures Timestamp(OptionBytes(options) + ([8, 10] + U32(ts) + echo + tail)) == Some(ts)
    ensures Timestamp(OptionBytes(options)) == None
    ensures Timestamp(OptionBytes(options) + ([0] + tail)) == None
  {
    hide U32, FromU32;
    var stamp := [8, 10] + U32(ts) + echo + tail;
    OthersPassed(options, stamp);
    assert stamp[2..6] == U32(ts);
    U32RoundTrip(ts);
    OthersPassed(options, []);
    assert OptionBytes(options) + [] == OptionBytes(options);
    OthersPassed(options, [0] + tail);
  }

  /** A TCP segment with any options and any data. */
  function TcpSegment(p: Ports, f: SynFields, ack: seq<byte>, flags: byte, sums: seq<byte>, options: seq<byte>, data: seq<byte>): (tcp: seq<byte>)
    requires |ack| == 4 && |sums| == 4 && |options| % 4 == 0 && |options| <= 40
    ensures |tcp| == 20 + |options| + |data|
  {
    U16(p.src) + U16(p.dst) + U32(f.sequence) + ack + [(5 + |options| / 4) * 16, flags] + U16(f.window) + sums + options + data
  }

  lemma TcpSegmentParts(p: Ports, f: SynFields, ack: seq<byte>, flags: byte, sums: seq<byte>, options: seq<byte>, data: seq<byte>)
    requires |ack| == 4 && |sums| == 4 && |options| % 4 == 0 && |options| <= 40
    ensures var tcp := TcpSegment(p, f, ack, flags, sums, options, data);
            && tcp[2..4] == U16(p.dst) && tcp[4..8] == U32(f.sequence) && tcp[14..16] == U16(f.window)
            && tcp[12] / 16 * 4 == 20 + |options| && tcp[13] == flags && tcp[20..20 + |options|] == options
  {
    hide U16, U32;
    var tcp := TcpSegment(p, f, ack, flags, sums, options, data);
    var head := U16(p.src) + U16(p.dst) + U32(f.sequence) + ack + [(5 + |options| / 4) * 16, flags] + U16(f.window) + sums;
    assert |head| == 20 && tcp == head + (options + data);
    assert tcp[20..20 + |options|] == options;
    assert head[2..4] == U16(p.dst) && head[4..8] == U32(f.sequence) && head[14..16] == U16(f.window);
    assert tcp[2..4] == head[2..4] && tcp[4..8] == head[4..8] && tcp[14..16] == head[14..16];
  }

  /** A segment is read exactly if it is a SYN with a timestamp option, and then to its
      destination port and its knock fields. */
  lemma SegmentReadIff(p: Ports, f: SynFields, ack: seq<byte>, flags: byte, sums: seq<byte>, options: seq<byte>, data: seq<byte>)
    requires |ack| == 4 && |sums| == 4 && |options| % 4 == 0 && |options| <= 40
    ensures var tcp := TcpSegment(p, f, ack, flags, sums, options, data);
            && HeaderFields(tcp) == (if OnlySyn(flags) && Timestamp(options).Some?
                                     then Some(SynFields(f.sequence, f.window, Timestamp(options).value)) else None)
            && Word(tcp, 2) == p.dst
  {
    hide U16, U32, FromU16, FromU32, Timestamp, OnlySyn, TcpSegment;
    TcpSegmentParts(p, f, ack, flags, sums, options, data);
    U16RoundTrip(p.dst);
    U16RoundTrip(f.window);
    U32RoundTrip(f.sequence);
  }

  /** An Ethernet frame with or without a VLAN tag, and padded at the end. */
  function TaggedFrame(macs: seq<byte>, tag: Option<(bool, uint16)>, kind: uint16, packet: seq<byte>, padding: seq<byte>): (r: seq<byte>)
    requires |macs| == 12
  {
    macs + (if tag.None? then [] else U16(if tag.value.0 then 0x8100 else 0x88a8) + U16(tag.value.1)) + U16(kind) + packet + padding
  }

  function HeaderAt(tag: Option<(bool, uint16)>): (n: nat) {
    if tag.None? then 14 else 18
  }

  lemma TaggedOffset(macs: seq<byte>, tag: Option<(bool, uint16)>, kind: uint16, packet: seq<byte>, padding: seq<byte>)
    requires |macs| == 12 && (kind == TYPE_IPV4 || kind == TYPE_IPV6)
    ensures var frame := TaggedFrame(macs, tag, kind, packet, padding);
            && |frame| == HeaderAt(tag) + |packet| + |padding|
            && EthernetOffset(frame, kind) == Some(HeaderAt(tag)) && frame[HeaderAt(tag)..] == packet + padding
  {
    hide U16, FromU16;
    var frame := TaggedFrame(macs, tag, kind, packet, padding);
    U16RoundTrip(kind);
    U16RoundTrip(0x8100);
    U16RoundTrip(0x88a8);
    var n := HeaderAt(tag);
    assert frame[n - 2..n] == U16(kind) && frame[n..] == packet + padding;
    if tag.Some? {
      assert frame[12..14] == U16(if tag.value.0 then 0x8100 else 0x88a8);
    }
  }

  /** An IPv4 packet with any header options around a segment. `rest` is the identification,
      the fragment field and the time to live. */
  function AnyIPv4(tos: byte, rest: seq<byte>, sum: seq<byte>, src: seq<byte>, dst: seq<byte>, options: seq<byte>, tcp: seq<byte>): (ip: seq<byte>)
    requires |rest| == 5 && |sum| == 2 && |src| == 4 && |dst| == 4 && |options| % 4 == 0 && |options| <= 40
    requires 20 + |options| + |tcp| <= 65535
    ensures |ip| == 20 + |options| + |tcp|
  {
    [0x45 + |options| / 4, tos] + U16(20 + |options| + |tcp|) + rest + [6] + sum + src + dst + options + tcp
  }

  lemma AnyIPv4Parts(tos: byte, rest: seq<byte>, sum: seq<byte>, src: seq<byte>, dst: seq<byte>, options: seq<byte>, tcp: seq<byte>)
    requires |rest| == 5 && |sum| == 2 && |src| == 4 && |dst| == 4 && |options| % 4 == 0 && |options| <= 40
    requires 20 + |options| + |tcp| <= 65535
    ensures var ip := AnyIPv4(tos, rest, sum, src, dst, options, tcp);
            && ip[0] % 16 * 4 == 20 + |options| && ip[2..4] == U16(20 + |options| + |tcp|) && ip[9] == 6
            && ip[12..16] == src && ip[16..20] == dst && ip[20 + |options|..] == tcp
  {
    hide U16;
    var ip := AnyIPv4(tos, rest, sum, src, dst, options, tcp);
    var head := [0x45 + |options| / 4, tos] + U16(20 + |options| + |tcp|) + rest + [6] + sum + src + dst;
    assert |head| == 20 && ip == head + options + tcp;
    assert ip[2..4] == head[2..4] == U16(20 + |options| + |tcp|);
    assert ip[12..16] == head[12..16] == src;
    assert ip[16..20] == head[16..20] == dst;
  }

  /** Every well-formed IPv4 packet yields its source and its segment, with or without a VLAN
      tag, whatever its header options, and without the padding of the frame. */
  lemma AnyIPv4Read(macs: seq<byte>, tag: Option<(bool, uint16)>, tos: byte, rest: seq<byte>, sum: seq<byte>, src: seq<byte>, dst: seq<byte>,
                    options: seq<byte>, tcp: seq<byte>, padding: seq<byte>)
    requires |macs| == 12 && |rest| == 5 && |sum| == 2 && |src| == 4 && |dst| == 4 && |options| % 4 == 0 && |options| <= 40
    requires tcp != [] && 20 + |options| + |tcp| <= 65535
    ensures SegmentIPv4(TaggedFrame(macs, tag, TYPE_IPV4, AnyIPv4(tos, rest, sum, src, dst, options, tcp), padding)) == Some(Segment(src, tcp))
  {
    hide U16, FromU16, EthernetOffset, ScanIPv4, TaggedFrame, AnyIPv4;
    var packet := AnyIPv4(tos, rest, sum, src, dst, options, tcp);
    var frame := TaggedFrame(macs, tag, TYPE_IPV4, packet, padding);
    TaggedOffset(macs, tag, TYPE_IPV4, packet, padding);
    AnyIPv4Parts(tos, rest, sum, src, dst, options, tcp);
    var ip := packet + padding;
    assert ip[2..4] == packet[2..4] && ip[12..16] == packet[12..16];
    U16RoundTrip(20 + |options| + |tcp|);
    assert ip[20 + |options|..|packet|] == tcp;
  }

  /** An IPv6 packet around a segment. */
  function AnyIPv6(flow: seq<byte>, hops: byte, src: seq<byte>, dst: seq<byte>, tcp: seq<byte>): (ip: seq<byte>)
    requires |flow| == 4 && |src| == 16 && |dst| == 16 && |tcp| <= 65535
    ensures |ip| == 40 + |tcp|
  {
    flow + U16(|tcp|) + [6, hops] + src + dst + tcp
  }

  lemma AnyIPv6Parts(flow: seq<byte>, hops: byte, src: seq<byte>, dst: seq<byte>, tcp: seq<byte>)
    requires |flow| == 4 && |src| == 16 && |dst| == 16 && |tcp| <= 65535
    ensures var ip := AnyIPv6(flow, hops, src, dst, tcp);
            ip[4..6] == U16(|tcp|) && ip[6] == 6 && ip[8..24] == src && ip[40..] == tcp
  {
    hide U16;
    var ip := AnyIPv6(flow, hops, src, dst, tcp);
    var head := flow + U16(|tcp|) + [6, hops] + src + dst;
    assert |head| == 40 && ip == head + tcp;
    assert ip[4..6] == head[4..6] == U16(|tcp|);
    assert ip[8..24] == head[8..24] == src;
  }

  lemma AnyIPv6Read(macs: seq<byte>, tag: Option<(bool, uint16)>, flow: seq<byte>, hops: byte, src: seq<byte>, dst: seq<byte>,
                    tcp: seq<byte>, padding: seq<byte>)
    requires |macs| == 12 && |flow| == 4 && |src| == 16 && |dst| == 16 && 20 <= |tcp| <= 65535
    ensures SegmentIPv6(TaggedFrame(macs, tag, TYPE_IPV6, AnyIPv6(flow, hops, src, dst, tcp), padding)) == Some(Segment(src, tcp))
  {
    hide U16, FromU16, EthernetOffset, ScanIPv6, TaggedFrame, AnyIPv6;
    var packet := AnyIPv6(flow, hops, src, dst, tcp);
    TaggedOffset(macs, tag, TYPE_IPV6, packet, padding);
    AnyIPv6Parts(flow, hops, src, dst, tcp);
    var ip := packet + padding;
    assert ip[4..6] == packet[4..6] && ip[8..24] == packet[8..24];
    U16RoundTrip(|tcp|);
    assert ip[40..40 + |tcp|] == tcp;
  }

  /** A well-formed IPv4 packet without an Ethernet header is found at its first byte if and
      only if its addresses do not read as an Ethernet type: packets from 8.0.0.0/16 do. */
  lemma BareIPv4Offset(tos: byte, rest: seq<byte>, sum: seq<byte>, src: seq<byte>, dst: seq<byte>, options: seq<byte>, tcp: seq<byte>,
                       padding: seq<byte>)
    requires |rest| == 5 && |sum| == 2 && |src| == 4 && |dst| == 4 && |options| % 4 == 0 && |options| <= 40
    requires 20 + |options| + |tcp| <= 65535
    ensures OffsetIPv4(AnyIPv4(tos, rest, sum, src, dst, options, tcp) + padding) ==
            if src[..2] == [8, 0] then Some(14)
            else if (src[..2] == [0x81, 0] || src[..2] == [0x88, 0xa8]) && dst[..2] == [8, 0] then Some(18)
            else Some(0)
  {
    hide U16, FromU16, ScanIPv4, AnyIPv4;
    var packet := AnyIPv4(tos, rest, sum, src, dst, options, tcp);
    var ip := packet + padding;
    AnyIPv4Parts(tos, rest, sum, src, dst, options, tcp);
    AnyIPv4First(tos, rest, sum, src, dst, options, tcp);
    assert ip[2..4] == packet[2..4];
    U16RoundTrip(20 + |options| + |tcp|);
    FirstPlace(ip);
    assert ip[12..14] == packet[12..16][..2] == src[..2];
    assert ip[16..18] == packet[16..20][..2] == dst[..2];
    TypeBytes(src[..2]);
    TypeBytes(dst[..2]);
  }

  lemma TypeBytes(b: seq<byte>)
    requires |b| == 2
    ensures FromU16(b) == 0x0800 <==> b == [8, 0]
    ensures FromU16(b) == 0x8100 <==> b == [0x81, 0]
    ensures FromU16(b) == 0x88a8 <==> b == [0x88, 0xa8]
  {
  }

  /** Then it is read as well. */
  lemma BareIPv4Read(tos: byte, rest: seq<byte>, sum: seq<byte>, src: seq<byte>, dst: seq<byte>, options: seq<byte>, tcp: seq<byte>,
                     padding: seq<byte>)
    requires |rest| == 5 && |sum| == 2 && |src| == 4 && |dst| == 4 && |options| % 4 == 0 && |options| <= 40
    requires tcp != [] && 20 + |options| + |tcp| <= 65535
    requires OffsetIPv4(AnyIPv4(tos, rest, sum, src, dst, options, tcp) + padding) == Some(0)
    ensures SegmentIPv4(AnyIPv4(tos, rest, sum, src, dst, options, tcp) + padding) == Some(Segment(src, tcp))
  {
    hide U16, FromU16, OffsetIPv4, AnyIPv4;
    var packet := AnyIPv4(tos, rest, sum, src, dst, options, tcp);
    var ip := packet + padding;
    AnyIPv4Parts(tos, rest, sum, src, dst, options, tcp);
    assert ip[2..4] == packet[2..4] && ip[12..16] == packet[12..16];
    U16RoundTrip(20 + |options| + |tcp|);
    assert ip[20 + |options|..|packet|] == tcp;
    assert ip[0..] == ip;
  }

  lemma AnyIPv4First(tos: byte, rest: seq<byte>, sum: seq<byte>, src: seq<byte>, dst: seq<byte>, options: seq<byte>, tcp: seq<byte>)
    requires |rest| == 5 && |sum| == 2 && |src| == 4 && |dst| == 4 && |options| % 4 == 0 && |options| <= 40
    requires 20 + |options| + |tcp| <= 65535
    ensures var first := AnyIPv4(tos, rest, sum, src, dst, options, tcp)[0]; first / 16 == 4 && first % 16 >= 5
  {
    hide U16;
  }

  lemma FirstPlace(frame: seq<byte>)
    requires |frame| >= 20 && LooksLikeIPv4(frame, 0)
    ensures ScanIPv4(frame, 0) == Some(0)
  {
  }
}
