/**
 SYN packets that carry a knock in sequence number, window and timestamp: building them
 with valid checksums.
 */
module SynBuild {
  import opened Bytes
  import opened Wrappers
  import opened Checksum
  import opened SynParts

  const IPV4_SIZE: nat := 20
  const IPV6_SIZE: nat := 40
  const TCP_SIZE: nat := 32

  /** The 4-byte form of an address, if it has one. */
  function To4(ip: seq<byte>): (r: Option<seq<byte>>)
    ensures r.Some? ==> |r.value| == 4 && |ip| >= 4 && r.value == ip[|ip| - 4..]
  {
    if |ip| == 4 then Some(ip)
    else if |ip| == 16 && ip[..12] == [0, 0, 0, 0, 0, 0, 0, 0, 0, 0, 0xff, 0xff] then Some(ip[12..])
    else None
  }

  /** The 16-byte form of an address, if it is not a 4-byte address. */
  function To16(ip: seq<byte>): (r: Option<seq<byte>>)
    ensures r.Some? ==> r.value == ip && |ip| == 16
  {
    if |ip| == 16 && To4(ip).None? then Some(ip) else None
  }

  // ----------------------------------------------------------------- the formats

  function IPv4Header(src: seq<byte>, dst: seq<byte>, id: uint16, sum: uint16): (h: seq<byte>)
    requires |src| == 4 && |dst| == 4
    ensures |h| == IPV4_SIZE
  {
    [0x45, 0, 0, 52, id / 256, id % 256, 0, 0, 64, 6, sum / 256, sum % 256,
     src[0], src[1], src[2], src[3], dst[0], dst[1], dst[2], dst[3]]
  }

  function IPv6Header(src: seq<byte>, dst: seq<byte>): (h: seq<byte>)
    requires |src| == 16 && |dst| == 16
    ensures |h| == IPV6_SIZE
  {
    [0x60, 0, 0, 0, 0, 32, 6, 64] + src + dst
  }

  /** The numbers a TCP header is made of. */
  datatype Ports = Ports(src: uint16, dst: uint16)

  function TcpHeader(p: Ports, f: SynFields, sum: uint16): (h: seq<byte>)
    ensures |h| == TCP_SIZE
  {
    var q, t := U32(f.sequence), U32(f.timestamp);
    [p.src / 256, p.src % 256, p.dst / 256, p.dst % 256, q[0], q[1], q[2], q[3], 0, 0, 0, 0, 0x80, 2,
     f.window / 256, f.window % 256, sum / 256, sum % 256, 0, 0, 1, 1, 8, 10, t[0], t[1], t[2], t[3], 0, 0, 0, 0]
  }

  /** What the TCP checksum covers besides the segment. */
  function PseudoIPv4(src: seq<byte>, dst: seq<byte>, length: nat): (h: seq<byte>)
    requires |src| == 4 && |dst| == 4
    ensures |h| == 12
  {
    src + dst + [0, 6] + U16(length % 0x1_0000)
  }

  function PseudoIPv6(src: seq<byte>, dst: seq<byte>, length: nat): (h: seq<byte>)
    requires |src| == 16 && |dst| == 16
    ensures |h| == 40
  {
    src + dst + U32(length % 0x1_0000_0000) + [0, 0, 0, 6]
  }

  function SummedIPv4Header(src: seq<byte>, dst: seq<byte>, id: uint16): (h: seq<byte>)
    requires |src| == 4 && |dst| == 4
    ensures |h| == IPV4_SIZE
  {
    IPv4Header(src, dst, id, ChecksumOf(IPv4Header(src, dst, id, 0)))
  }

  function SummedTcpHeader(pseudo: seq<byte>, p: Ports, f: SynFields): (h: seq<byte>)
    ensures |h| == TCP_SIZE
  {
    TcpHeader(p, f, ChecksumOf(pseudo + TcpHeader(p, f, 0)))
  }

  /** Every built IPv4 header verifies. */
  lemma IPv4HeaderVerifies(src: seq<byte>, dst: seq<byte>, id: uint16)
    requires |src| == 4 && |dst| == 4
    ensures ChecksumOf(SummedIPv4Header(src, dst, id)) == 0
  {
    hide ChecksumOf;
    var zeroed := IPv4Header(src, dst, id, 0);
    IPv4Stored(src, dst, id, ChecksumOf(zeroed));
    StoredVerifies(zeroed, 10);
  }

  lemma IPv4Stored(src: seq<byte>, dst: seq<byte>, id: uint16, sum: uint16)
    requires |src| == 4 && |dst| == 4
    ensures IPv4Header(src, dst, id, sum) == Stored(IPv4Header(src, dst, id, 0), 10, sum)
  {
  }

  /** Every built TCP segment verifies under its pseudo header. */
  lemma TcpHeaderVerifies(pseudo: seq<byte>, p: Ports, f: SynFields)
    requires |pseudo| == 12 || |pseudo| == 40
    ensures ChecksumOf(pseudo + SummedTcpHeader(pseudo, p, f)) == 0
  {
    hide ChecksumOf, TcpHeader;
    var zeroed := pseudo + TcpHeader(p, f, 0);
    var at := |pseudo| + 16;
    TcpStored(p, f, ChecksumOf(zeroed));
    assert pseudo + SummedTcpHeader(pseudo, p, f) == Stored(zeroed, at, ChecksumOf(zeroed));
    StoredVerifies(zeroed, at);
  }

  lemma TcpStored(p: Ports, f: SynFields, sum: uint16)
    ensures TcpHeader(p, f, 0)[16] == 0 && TcpHeader(p, f, 0)[17] == 0
    ensures TcpHeader(p, f, sum) == Stored(TcpHeader(p, f, 0), 16, sum)
  {
    hide U32;
  }

  // ----------------------------------------------------------- the whole packets

  function PacketIPv4(src: seq<byte>, dst: seq<byte>, p: Ports, id: uint16, f: SynFields): (r: seq<byte>)
    requires |src| == 4 && |dst| == 4
    ensures |r| == IPV4_SIZE + TCP_SIZE
  {
    SummedIPv4Header(src, dst, id) + SummedTcpHeader(PseudoIPv4(src, dst, TCP_SIZE), p, f)
  }

  function PacketIPv6(src: seq<byte>, dst: seq<byte>, p: Ports, f: SynFields): (r: seq<byte>)
    requires |src| == 16 && |dst| == 16
    ensures |r| == IPV6_SIZE + TCP_SIZE
  {
    IPv6Header(src, dst) + SummedTcpHeader(PseudoIPv6(src, dst, TCP_SIZE), p, f)
  }

  /** A TCP segment that opens a connection and carries a knock, byte by byte. */
  predicate SynSegment(tcp: seq<byte>, srcPort: int, dstPort: int, f: SynFields) {
    && |tcp| == 32
    && FromU16(tcp[0..2]) == srcPort % 0x1_0000 && FromU16(tcp[2..4]) == dstPort % 0x1_0000
    && FromU32(tcp[4..8]) == f.sequence && tcp[8..12] == [0, 0, 0, 0]
    && tcp[12] / 16 * 4 == 32 && tcp[12] % 16 == 0 && tcp[13] == 2
    && FromU16(tcp[14..16]) == f.window && tcp[18..20] == [0, 0]
    && tcp[20..24] == [1, 1, 8, 10] && FromU32(tcp[24..28]) == f.timestamp && tcp[28..32] == [0, 0, 0, 0]
  }

  /** Such a segment in an IPv4 packet between two addresses. The header checksum verifies, and
      the TCP checksum verifies under the addresses that the packet itself carries. */
  predicate SynOverIPv4(packet: seq<byte>, src: seq<byte>, dst: seq<byte>, srcPort: int, dstPort: int, id: uint16, f: SynFields) {
    && |packet| == 52
    && packet[0] / 16 == 4 && packet[0] % 16 * 4 == 20 && packet[1] == 0 && FromU16(packet[2..4]) == |packet|
    && FromU16(packet[4..6]) == id && packet[6..8] == [0, 0] && packet[8] == 64 && packet[9] == 6
    && packet[12..16] == src && packet[16..20] == dst
    && ChecksumOf(packet[..20]) == 0
    && SynSegment(packet[20..], srcPort, dstPort, f)
    && ChecksumOf(packet[12..16] + packet[16..20] + [0, 6, 0, 32] + packet[20..]) == 0
  }

  predicate SynOverIPv6(packet: seq<byte>, src: seq<byte>, dst: seq<byte>, srcPort: int, dstPort: int, f: SynFields) {
    && |packet| == 72
    && packet[0] / 16 == 6 && packet[..4] == [packet[0], 0, 0, 0] && packet[0] % 16 == 0
    && FromU16(packet[4..6]) == |packet| - 40 && packet[6] == 6 && packet[7] == 64
    && packet[8..24] == src && packet[24..40] == dst
    && SynSegment(packet[40..], srcPort, dstPort, f)
    && ChecksumOf(packet[8..24] + packet[24..40] + [0, 0, 0, 32, 0, 0, 0, 6] + packet[40..]) == 0
  }

  lemma TwoAt(data: seq<byte>, i: nat)
    requires i + 2 <= |data|
    ensures data[i..i + 2] == [data[i], data[i + 1]]
    ensures FromU16(data[i..i + 2]) == data[i] as int * 256 + data[i + 1]
  {
  }

  lemma FourAt(data: seq<byte>, i: nat)
    requires i + 4 <= |data|
    ensures data[i..i + 4] == [data[i], data[i + 1], data[i + 2], data[i + 3]]
  {
  }

  /** The bytes of the header, up to the flags, up to the options, and the rest. */
  lemma TcpHeaderStart(p: Ports, f: SynFields, sum: uint16)
    ensures var h, q := TcpHeader(p, f, sum), U32(f.sequence);
            && h[0] == p.src / 256 && h[1] == p.src % 256 && h[2] == p.dst / 256 && h[3] == p.dst % 256
            && h[4] == q[0] && h[5] == q[1] && h[6] == q[2] && h[7] == q[3]
            && h[8] == 0 && h[9] == 0
  {
    hide U32;
  }

  lemma TcpHeaderMiddle(p: Ports, f: SynFields, sum: uint16)
    ensures var h := TcpHeader(p, f, sum);
            && h[10] == 0 && h[11] == 0 && h[12] == 0x80 && h[13] == 2
            && h[14] == f.window / 256 && h[15] == f.window % 256 && h[18] == 0 && h[19] == 0
  {
    hide U32;
  }

  lemma TcpHeaderEnd(p: Ports, f: SynFields, sum: uint16)
    ensures var h, t := TcpHeader(p, f, sum), U32(f.timestamp);
            && h[20] == 1 && h[21] == 1 && h[22] == 8 && h[23] == 10
            && h[24] == t[0] && h[25] == t[1] && h[26] == t[2] && h[27] == t[3]
            && h[28] == 0 && h[29] == 0 && h[30] == 0 && h[31] == 0
  {
    hide U32;
  }

  lemma TcpHeaderReads(srcPort: int, dstPort: int, f: SynFields, sum: uint16)
    ensures SynSegment(TcpHeader(Ports(srcPort % 0x1_0000, dstPort % 0x1_0000), f, sum), srcPort, dstPort, f)
  {
    hide U32, FromU32, FromU16, TcpHeader;
    var p := Ports(srcPort % 0x1_0000, dstPort % 0x1_0000);
    var tcp := TcpHeader(p, f, sum);
    TcpHeaderStart(p, f, sum);
    TcpHeaderMiddle(p, f, sum);
    TcpHeaderEnd(p, f, sum);
    TwoAt(tcp, 0);
    TwoAt(tcp, 2);
    FourAt(tcp, 4);
    FourAt(tcp, 8);
    TwoAt(tcp, 14);
    TwoAt(tcp, 18);
    FourAt(tcp, 20);
    FourAt(tcp, 24);
    FourAt(tcp, 28);
    var q, t := U32(f.sequence), U32(f.timestamp);
    FourAt(q, 0);
    FourAt(t, 0);
    assert q[0..4] == q && t[0..4] == t;
    U32RoundTrip(f.sequence);
    U32RoundTrip(f.timestamp);
  }

  lemma IPv4HeaderReads(src: seq<byte>, dst: seq<byte>, id: uint16, sum: uint16)
    requires |src| == 4 && |dst| == 4
    ensures var h := IPv4Header(src, dst, id, sum);
            && h[0] == 0x45 && h[1] == 0 && FromU16(h[2..4]) == 52 && FromU16(h[4..6]) == id && h[6..8] == [0, 0]
            && h[8] == 64 && h[9] == 6 && h[12..16] == src && h[16..20] == dst
  {
  }

  /** What the IPv4 packet says: addresses, ports, knock fields and checksums. */
  lemma PacketIPv4Reads(src: seq<byte>, dst: seq<byte>, srcPort: int, dstPort: int, id: uint16, f: SynFields)
    requires |src| == 4 && |dst| == 4
    ensures SynOverIPv4(PacketIPv4(src, dst, Ports(srcPort % 0x1_0000, dstPort % 0x1_0000), id, f), src, dst, srcPort, dstPort, id, f)
  {
    hide ChecksumOf, IPv4Header, TcpHeader, SynSegment, FromU16;
    var p, pseudo := Ports(srcPort % 0x1_0000, dstPort % 0x1_0000), PseudoIPv4(src, dst, TCP_SIZE);
    var head, tcp := SummedIPv4Header(src, dst, id), SummedTcpHeader(pseudo, p, f);
    var packet := PacketIPv4(src, dst, p, id, f);
    Halves(head, tcp);
    IPv4HeaderReads(src, dst, id, ChecksumOf(IPv4Header(src, dst, id, 0)));
    TcpHeaderReads(srcPort, dstPort, f, ChecksumOf(pseudo + TcpHeader(p, f, 0)));
    IPv4HeaderVerifies(src, dst, id);
    TcpHeaderVerifies(pseudo, p, f);
    forall i: nat, j: nat | i <= j <= |head| ensures packet[i..j] == head[i..j] {
      Inside(head, tcp, i, j);
    }
    assert pseudo == src + dst + [0, 6, 0, 32];
  }

  lemma Halves(a: seq<byte>, b: seq<byte>)
    ensures (a + b)[..|a|] == a && (a + b)[|a|..] == b
  {
  }

  lemma Inside(a: seq<byte>, b: seq<byte>, i: nat, j: nat)
    requires i <= j <= |a|
    ensures (a + b)[i..j] == a[i..j]
  {
  }

  lemma IPv6HeaderReads(src: seq<byte>, dst: seq<byte>)
    requires |src| == 16 && |dst| == 16
    ensures var h := IPv6Header(src, dst);
            && h[..4] == [0x60, 0, 0, 0] && FromU16(h[4..6]) == 32 && h[6] == 6 && h[7] == 64
            && h[8..24] == src && h[24..40] == dst
  {
  }

  lemma PacketIPv6Reads(src: seq<byte>, dst: seq<byte>, srcPort: int, dstPort: int, f: SynFields)
    requires |src| == 16 && |dst| == 16
    ensures SynOverIPv6(PacketIPv6(src, dst, Ports(srcPort % 0x1_0000, dstPort % 0x1_0000), f), src, dst, srcPort, dstPort, f)
  {
    hide ChecksumOf, IPv6Header, TcpHeader, SynSegment, FromU16;
    var p, pseudo := Ports(srcPort % 0x1_0000, dstPort % 0x1_0000), PseudoIPv6(src, dst, TCP_SIZE);
    var head, tcp := IPv6Header(src, dst), SummedTcpHeader(pseudo, p, f);
    var packet := PacketIPv6(src, dst, p, f);
    Halves(head, tcp);
    IPv6HeaderReads(src, dst);
    TcpHeaderReads(srcPort, dstPort, f, ChecksumOf(pseudo + TcpHeader(p, f, 0)));
    TcpHeaderVerifies(pseudo, p, f);
    forall i: nat, j: nat | i <= j <= |head| ensures packet[i..j] == head[i..j] {
      Inside(head, tcp, i, j);
    }
    assert packet[0] == head[..4][0];
    assert pseudo == src + dst + [0, 0, 0, 32, 0, 0, 0, 6];
  }

  // ---------------------------------------------------------------- in place

  /** Copies bytes into a packet. */
  method Put(packet: array<byte>, at: nat, data: seq<byte>)
    requires at + |data| <= packet.Length
    modifies packet
    ensures forall i :: 0 <= i < packet.Length ==>
                          packet[i] == if at <= i < at + |data| then data[i - at] else old(packet[i])
  {
    for i := 0 to |data|
      invariant forall k :: 0 <= k < packet.Length ==>
                              packet[k] == if at <= k < at + i then data[k - at] else old(packet[k])
    {
      packet[at + i] := data[i];
    }
  }

  /** Writes everything but the checksum. */
  method WriteIPv4Fields(packet: array<byte>, src: seq<byte>, dst: seq<byte>, id: uint16)
    requires packet.Length == IPV4_SIZE + TCP_SIZE && |src| == 4 && |dst| == 4
    requires forall i :: 0 <= i < packet.Length ==> packet[i] == 0
    modifies packet
    ensures packet[..IPV4_SIZE] == IPv4Header(src, dst, id, 0)
    ensures forall i :: IPV4_SIZE <= i < packet.Length ==> packet[i] == 0
  {
    packet[0] := 0x45;
    Put(packet, 2, U16(packet.Length));
    Put(packet, 4, U16(id));
    packet[8] := 64;
    packet[9] := 6;
    Put(packet, 12, src);
    Put(packet, 16, dst);
  }

  method WriteIPv4Header(packet: array<byte>, src: seq<byte>, dst: seq<byte>, id: uint16)
    requires packet.Length == IPV4_SIZE + TCP_SIZE && |src| == 4 && |dst| == 4
    requires forall i :: 0 <= i < packet.Length ==> packet[i] == 0
    modifies packet
    ensures packet[..IPV4_SIZE] == SummedIPv4Header(src, dst, id)
    ensures forall i :: IPV4_SIZE <= i < packet.Length ==> packet[i] == 0
  {
    hide ChecksumOf, IPv4Header;
    WriteIPv4Fields(packet, src, dst, id);
    ghost var zeroed := packet[..IPV4_SIZE];
    var sum := InternetChecksum(packet[..IPV4_SIZE]);
    Put(packet, 10, U16(sum));
    assert packet[..IPV4_SIZE] == Stored(zeroed, 10, sum);
    IPv4Stored(src, dst, id, sum);
  }

  /** Writes the header up to the flags. */
  method WriteTcpStart(packet: array<byte>, at: nat, srcPort: int, dstPort: int, f: SynFields)
    requires packet.Length == at + TCP_SIZE
    requires forall i :: at <= i < packet.Length ==> packet[i] == 0
    modifies packet
    ensures packet[at..at + 14] == TcpHeader(Ports(srcPort % 0x1_0000, dstPort % 0x1_0000), f, 0)[..14]
    ensures forall i :: at + 14 <= i < packet.Length ==> packet[i] == 0
    ensures packet[..at] == old(packet[..at])
  {
    hide U32;
    Put(packet, at, U16(srcPort % 0x1_0000));
    Put(packet, at + 2, U16(dstPort % 0x1_0000));
    Put(packet, at + 4, U32(f.sequence));
    packet[at + 12] := TCP_SIZE / 4 * 16;
    packet[at + 13] := 2;
  }

  /** Writes everything but the checksum. */
  method WriteTcpFields(packet: array<byte>, at: nat, srcPort: int, dstPort: int, f: SynFields)
    requires packet.Length == at + TCP_SIZE
    requires forall i :: at <= i < packet.Length ==> packet[i] == 0
    modifies packet
    ensures packet[at..] == TcpHeader(Ports(srcPort % 0x1_0000, dstPort % 0x1_0000), f, 0)
    ensures packet[..at] == old(packet[..at])
  {
    hide U32;
    WriteTcpStart(packet, at, srcPort, dstPort, f);
    ghost var start := packet[at..at + 14];
    Put(packet, at + 14, U16(f.window));
    Put(packet, at + 20, [1, 1, 8, 10]);
    Put(packet, at + 24, U32(f.timestamp));
    ghost var h := TcpHeader(Ports(srcPort % 0x1_0000, dstPort % 0x1_0000), f, 0);
    assert packet[at..at + 14] == start == h[..14];
    assert packet[at + 14..] == h[14..];
    assert packet[at..] == packet[at..at + 14] + packet[at + 14..];
  }

  method WriteTcpHeader(packet: array<byte>, at: nat, pseudo: seq<byte>, srcPort: int, dstPort: int, f: SynFields)
    requires packet.Length == at + TCP_SIZE
    requires forall i :: at <= i < packet.Length ==> packet[i] == 0
    modifies packet
    ensures packet[at..] == SummedTcpHeader(pseudo, Ports(srcPort % 0x1_0000, dstPort % 0x1_0000), f)
    ensures packet[..at] == old(packet[..at])
  {
    hide ChecksumOf, TcpHeader;
    ghost var p := Ports(srcPort % 0x1_0000, dstPort % 0x1_0000);
    WriteTcpFields(packet, at, srcPort, dstPort, f);
    var sum := InternetChecksum(pseudo + packet[at..]);
    ghost var zeroed := packet[at..];
    Put(packet, at + 16, U16(sum));
    assert packet[at..] == Stored(zeroed, 16, sum);
    TcpStored(p, f, sum);
  }

  /** Builds an IPv4 packet: fails exactly if an address has no 4-byte form. */
  method BuildSynPacket(srcIP: seq<byte>, dstIP: seq<byte>, srcPort: int, dstPort: int, id: uint16, f: SynFields)
    returns (r: Option<seq<byte>>)
    ensures r == if To4(srcIP).None? || To4(dstIP).None? then None else
                 Some(PacketIPv4(To4(srcIP).value, To4(dstIP).value, Ports(srcPort % 0x1_0000, dstPort % 0x1_0000), id, f))
    ensures r.Some? ==> SynOverIPv4(r.value, srcIP[|srcIP| - 4..], dstIP[|dstIP| - 4..], srcPort, dstPort, id, f)
  {
    hide ChecksumOf, SummedIPv4Header, SummedTcpHeader, To4, PseudoIPv4, SynOverIPv4;
    var src, dst := To4(srcIP), To4(dstIP);
    if src.None? || dst.None? {
      return None;
    }
    var packet := new byte[IPV4_SIZE + TCP_SIZE](_ => 0);
    WriteIPv4Header(packet, src.value, dst.value, id);
    WriteTcpHeader(packet, IPV4_SIZE, PseudoIPv4(src.value, dst.value, TCP_SIZE), srcPort, dstPort, f);
    assert packet[..] == packet[..IPV4_SIZE] + packet[IPV4_SIZE..];
    PacketIPv4Reads(src.value, dst.value, srcPort, dstPort, id, f);
    return Some(packet[..]);
  }

  method BuildSynPacketIPv6(srcIP: seq<byte>, dstIP: seq<byte>, srcPort: int, dstPort: int, f: SynFields)
    returns (r: Option<seq<byte>>)
    ensures r == if To16(srcIP).None? || To16(dstIP).None? then None else
                 Some(PacketIPv6(To16(srcIP).value, To16(dstIP).value, Ports(srcPort % 0x1_0000, dstPort % 0x1_0000), f))
    ensures r.Some? ==> SynOverIPv6(r.value, srcIP, dstIP, srcPort, dstPort, f)
  {
    hide ChecksumOf, SummedTcpHeader, To16, PseudoIPv6, SynOverIPv6;
    var src, dst := To16(srcIP), To16(dstIP);
    if src.None? || dst.None? {
      return None;
    }
    var packet := new byte[IPV6_SIZE + TCP_SIZE](_ => 0);
    packet[0] := 0x60;
    Put(packet, 4, U16(TCP_SIZE));
    packet[6] := 6;
    packet[7] := 64;
    Put(packet, 8, src.value);
    Put(packet, 24, dst.value);
    assert packet[..IPV6_SIZE] == IPv6Header(src.value, dst.value);
    WriteTcpHeader(packet, IPV6_SIZE, PseudoIPv6(src.value, dst.value, TCP_SIZE), srcPort, dstPort, f);
    assert packet[..] == packet[..IPV6_SIZE] + packet[IPV6_SIZE..];
    PacketIPv6Reads(src.value, dst.value, srcPort, dstPort, f);
    return Some(packet[..]);
  }
}
