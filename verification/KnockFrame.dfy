/**
 UDP knock frames: building one, opening one, and why the same packet never opens
 twice.
 */
module KnockFrame {
  import opened Bytes
  import opened Codec
  import opened Crypto
  import opened Payloads
  import opened Wrappers
  import opened Replay
  import opened Freshness
  import Envelope
  import Time

  const HEADER_SIZE: nat := 28
  const FRAME_VERSION: byte := 1
  const DEFAULT_MAX_FRAME_SIZE: int := 1024
  const TYPE_UDP: byte := 1
  const TYPE_UDP_SEQUENCE: byte := 2
  const SEQUENCE_ID_SIZE: nat := 16
  const MAX_PARTS: int := 8
  const MIN_SECRET_SIZE: nat := 16
  const MILLISECOND: int := 1_000_000

  datatype Client = Client(clientID: string, secret: seq<byte>)

  predicate ValidClient(who: Client) {
    0 < |who.clientID| <= 65535 && '\0' !in who.clientID && |who.secret| >= MIN_SECRET_SIZE
  }

  // ----------------------------------------------------------------- the header

  datatype Header = Header(nonce: Hash, keyHint: uint64, sealedLen: uint16, flags: byte, reserved: byte)

  function HeaderBytes(h: Header): (r: seq<byte>)
    ensures |r| == HEADER_SIZE
  {
    h.nonce + U64(h.keyHint) + U16(h.sealedLen) + [h.flags, h.reserved]
  }

  function ParseHeader(b: seq<byte>): (h: Header)
    requires |b| == HEADER_SIZE
  {
    Header(b[..16], FromU64(b[16..24]), FromU16(b[24..26]), b[26], b[27])
  }

  lemma HeaderRoundTrip(h: Header)
    ensures ParseHeader(HeaderBytes(h)) == h
  {
    hide U64, U16, FromU64, FromU16;
    var b := HeaderBytes(h);
    assert b[..16] == h.nonce && b[16..24] == U64(h.keyHint) && b[24..26] == U16(h.sealedLen);
    U64RoundTrip(h.keyHint);
    U16RoundTrip(h.sealedLen);
  }

  // ------------------------------------------------------------ keys and hashes

  function KeyHint(c: Primitives, secret: seq<byte>, nonce: Hash, serverPort: int): (r: uint64) {
    if serverPort < 1 || serverPort > 65535 then 0
    else c.mac64(secret, Envelope.AsciiBytes("libknock udp-knock hint v1") + nonce + U16(serverPort))
  }

  function KnockHash(c: Primitives, who: Client): (r: seq<byte>) {
    c.mac128(who.secret, Envelope.AsciiBytes("libknock client-id v1") + Envelope.AsciiBytes(who.clientID))
  }

  function KnockBox(c: Primitives, secret: seq<byte>, h: Header, serverPort: int, sealed: seq<byte>): (b: Box) {
    Box(c.derive(secret, h.nonce, Envelope.AsciiBytes("libknock udp-knock frame v1")), h.nonce[..12], sealed,
        HeaderBytes(h) + [FRAME_VERSION] + U16(serverPort % 0x1_0000))
  }

  // -------------------------------------------------------------------- opening

  datatype ServerConfig = ServerConfig(
    clients: seq<Client>, serverPort: int, methodName: seq<byte>, timeWindow: int, maxFrameSize: int, allowSequence: bool)

  /** Flag 1 marks a sequence, flag 2 a session id, flag 4 extensions. */
  predicate FlagsAgree(flags: byte, p: KnockPayload) {
    && flags <= 7
    && (flags % 2 == 1 <==> p.frameType == TYPE_UDP_SEQUENCE)
    && (flags / 2 % 2 == 1 <==> |p.sessionID| >= SESSION_ID_MIN)
    && (flags / 4 % 2 == 1 <==> p.extensions != [])
  }

  predicate TypeAllowed(cfg: ServerConfig, p: KnockPayload) {
    if p.frameType == TYPE_UDP_SEQUENCE then
      && cfg.allowSequence && |p.sequenceID| == SEQUENCE_ID_SIZE
      && 2 <= p.sequenceTotal <= MAX_PARTS && 0 <= p.sequenceIndex < p.sequenceTotal
    else
      p.frameType == TYPE_UDP
  }

  datatype Search = NoClient | BadPayload | Hit(who: Client, payload: KnockPayload)

  /** The first client whose hint matches, whose key opens the message and whose hash
      the message carries. A message that opens but cannot be read ends the search. */
  function Find(c: Primitives, log: Log, clients: seq<Client>, h: Header, serverPort: int, sealed: seq<byte>): (s: Search) {
    if clients == [] then NoClient
    else
      var who, rest := clients[0], Find(c, log, clients[1..], h, serverPort, sealed);
      if !ValidClient(who) || KeyHint(c, who.secret, h.nonce, serverPort) != h.keyHint then rest
      else
        match Open(log, KnockBox(c, who.secret, h, serverPort, sealed))
        case None => rest
        case Some(plain) =>
          match ParseKnock(plain)
          case None => BadPayload
          case Some(p) => if p.clientIDHash != KnockHash(c, who) then rest else Hit(who, p)
  }

  predicate GoodHeader(h: Header, length: nat) {
    h.reserved == 0 && h.flags <= 7 && h.sealedLen > 0 && HEADER_SIZE + h.sealedLen == length
  }

  datatype Knock = Knock(clientID: string, nonce: Hash, payload: KnockPayload, flags: byte)

  function EffectiveMax(n: int): (r: int) {
    if n <= 0 then DEFAULT_MAX_FRAME_SIZE else n
  }

  /** Everything about a packet that does not depend on the time. */
  function Authentic(c: Primitives, log: Log, cfg: ServerConfig, packet: seq<byte>): (r: Option<Knock>) {
    if !(1 <= cfg.serverPort <= 65535) || |packet| < HEADER_SIZE || |packet| > EffectiveMax(cfg.maxFrameSize) then None
    else
      var h := ParseHeader(packet[..HEADER_SIZE]);
      if !GoodHeader(h, |packet|) then None
      else
        match Find(c, log, cfg.clients, h, cfg.serverPort, packet[HEADER_SIZE..])
        case NoClient => None
        case BadPayload => None
        case Hit(who, p) =>
          if p.serverPort != cfg.serverPort || !FlagsAgree(h.flags, p)
             || (cfg.methodName != [] && p.methodName != cfg.methodName) || !TypeAllowed(cfg, p) then None
          else Some(Knock(who.clientID, h.nonce, p, h.flags))
  }

  method FindClient(c: Primitives, log: Log, clients: seq<Client>, h: Header, serverPort: int, sealed: seq<byte>) returns (s: Search)
    ensures s == Find(c, log, clients, h, serverPort, sealed)
  {
    hide ParseKnock, KnockBox, KnockHash, KeyHint, ValidClient, Open;
    for i := 0 to |clients|
      invariant Find(c, log, clients, h, serverPort, sealed) == Find(c, log, clients[i..], h, serverPort, sealed)
    {
      assert clients[i..][1..] == clients[i + 1..];
      var who := clients[i];
      if !ValidClient(who) {
        continue;
      }
      if KeyHint(c, who.secret, h.nonce, serverPort) != h.keyHint {
        continue;
      }
      var plain := Open(log, KnockBox(c, who.secret, h, serverPort, sealed));
      if plain.None? {
        continue;
      }
      var payload := DecodeKnockPayload(plain.value);
      if payload.None? {
        return BadPayload;
      }
      if payload.value.clientIDHash != KnockHash(c, who) {
        continue;
      }
      return Hit(who, payload.value);
    }
    return NoClient;
  }

  function Arrival(c: Primitives, log: Log, cfg: ServerConfig, packet: seq<byte>, checkedAt: int, markedAt: int): (d: Delivery) {
    match Authentic(c, log, cfg, packet)
    case None => Delivery(false, "", 0, checkedAt, markedAt)
    case Some(k) => Delivery(true, ReplayKey(k.clientID, k.nonce), k.payload.timestampMS * MILLISECOND, checkedAt, markedAt)
  }

  /** Opens a packet: it must be authentic, within the time window, and not marked. Only
      then it leaves a mark. */
  method OpenKnockFrame(c: Primitives, log: Log, cfg: ServerConfig, packet: seq<byte>, replay: MemoryReplayCache,
                        checkedAt: int, markedAt: int) returns (r: Option<Knock>)
    requires replay.Valid() && replay.clock <= markedAt
    modifies replay, replay.entries
    ensures replay.Valid() && replay.clock <= markedAt
    ensures var d, w := Arrival(c, log, cfg, packet, checkedAt, markedAt), EffectiveWindow(cfg.timeWindow);
            && (r.Some? <==> Within(d, w) && Decide(old(replay.marks), replay.maxEntries, d.key, markedAt) == Accepted)
            && (r.Some? ==> r == Authentic(c, log, cfg, packet))
            && replay.marks == if Within(d, w) then Marked(old(replay.marks), replay.maxEntries, replay.ttl, d.key, markedAt)
                               else old(replay.marks)
  {
    hide Find, ParseHeader, Agree, ReplayKey, FlagsAgree, TypeAllowed;
    var maxFrameSize := if cfg.maxFrameSize <= 0 then DEFAULT_MAX_FRAME_SIZE else cfg.maxFrameSize;
    var window := if cfg.timeWindow <= 0 then 30 * Time.SECOND else cfg.timeWindow;
    if cfg.serverPort < 1 || cfg.serverPort > 65535 || |packet| < HEADER_SIZE || |packet| > maxFrameSize {
      return None;
    }
    var h := ParseHeader(packet[..HEADER_SIZE]);
    if h.reserved != 0 || h.flags > 7 || h.sealedLen == 0 || HEADER_SIZE + h.sealedLen != |packet| {
      return None;
    }
    var s := FindClient(c, log, cfg.clients, h, cfg.serverPort, packet[HEADER_SIZE..]);
    if !s.Hit? {
      return None;
    }
    var p := s.payload;
    if p.serverPort != cfg.serverPort || !FlagsAgree(h.flags, p) {
      return None;
    }
    if cfg.methodName != [] && p.methodName != cfg.methodName {
      return None;
    }
    if !TypeAllowed(cfg, p) {
      return None;
    }
    var age := checkedAt - p.timestampMS * MILLISECOND;
    if age < -window || age > window {
      return None;
    }
    var outcome := replay.CheckAndMark(s.who.clientID, h.nonce, markedAt);
    if outcome != Accepted {
      return None;
    }
    return Some(Knock(s.who.clientID, h.nonce, p, h.flags));
  }

  // ------------------------------------------------------- accepted at most once

  /** A packet, what was sealed by the time it arrived, and the two clock readings. */
  datatype Receipt = Receipt(packet: seq<byte>, log: Log, checkedAt: int, markedAt: int)

  function Deliveries(c: Primitives, cfg: ServerConfig, rs: seq<Receipt>): (ds: seq<Delivery>)
    ensures |ds| == |rs|
    ensures forall i :: 0 <= i < |rs| ==> ds[i] == Arrival(c, rs[i].log, cfg, rs[i].packet, rs[i].checkedAt, rs[i].markedAt)
  {
    seq(|rs|, i requires 0 <= i < |rs| => Arrival(c, rs[i].log, cfg, rs[i].packet, rs[i].checkedAt, rs[i].markedAt))
  }

  /** Everything sealed stays sealed. */
  ghost predicate Extends(log': Log, log: Log) {
    forall b :: b in log ==> b in log' && log'[b] == log[b]
  }

  /** No two keys sealed to the same bytes under one nonce and binding. */
  ghost predicate OneKey(log: Log) {
    forall b, b' :: b in log && b' in log && b.nonce == b'.nonce && b.sealed == b'.sealed && b.aad == b'.aad ==> b == b'
  }

  /** The message was sealed by this client, for this header and port, and says `p`. */
  ghost predicate SealedBy(c: Primitives, log: Log, who: Client, h: Header, serverPort: int, sealed: seq<byte>, p: KnockPayload) {
    var box := KnockBox(c, who.secret, h, serverPort, sealed);
    && ValidClient(who) && KeyHint(c, who.secret, h.nonce, serverPort) == h.keyHint
    && box in log && ParseKnock(log[box]) == Some(p) && p.clientIDHash == KnockHash(c, who)
  }

  lemma {:induction false} HitIsSealedBy(c: Primitives, log: Log, clients: seq<Client>, h: Header, serverPort: int, sealed: seq<byte>)
    requires Find(c, log, clients, h, serverPort, sealed).Hit?
    ensures var s := Find(c, log, clients, h, serverPort, sealed);
            s.who in clients && SealedBy(c, log, s.who, h, serverPort, sealed, s.payload)
  {
    hide ParseKnock, KnockBox, KnockHash, KeyHint, ValidClient;
    if Find(c, log, clients, h, serverPort, sealed) == Find(c, log, clients[1..], h, serverPort, sealed) {
      HitIsSealedBy(c, log, clients[1..], h, serverPort, sealed);
    }
  }

  /** The search goes on after this client: its hint does not fit, it did not seal the
      message, or the message names another client. */
  ghost predicate PassedOver(c: Primitives, log: Log, who: Client, h: Header, serverPort: int, sealed: seq<byte>) {
    var box := KnockBox(c, who.secret, h, serverPort, sealed);
    || !ValidClient(who) || KeyHint(c, who.secret, h.nonce, serverPort) != h.keyHint || box !in log
    || (ParseKnock(log[box]).Some? && ParseKnock(log[box]).value.clientIDHash != KnockHash(c, who))
  }

  /** The search ends at client `i`. */
  ghost predicate EndsSearch(c: Primitives, log: Log, clients: seq<Client>, h: Header, serverPort: int, sealed: seq<byte>, i: nat) {
    && i < |clients| && !PassedOver(c, log, clients[i], h, serverPort, sealed)
    && forall k :: 0 <= k < i ==> PassedOver(c, log, clients[k], h, serverPort, sealed)
  }

  /** The search is exact: it ends at the first client that is not passed over, with a hit if
      that client's message can be read and with nothing if it cannot. */
  lemma {:induction false} FindIff(c: Primitives, log: Log, clients: seq<Client>, h: Header, serverPort: int, sealed: seq<byte>)
    ensures var s := Find(c, log, clients, h, serverPort, sealed);
            && (s == NoClient <==> forall k :: 0 <= k < |clients| ==> PassedOver(c, log, clients[k], h, serverPort, sealed))
            && (forall i: nat :: EndsSearch(c, log, clients, h, serverPort, sealed, i) ==>
                  var box := KnockBox(c, clients[i].secret, h, serverPort, sealed);
                  box in log && s == if ParseKnock(log[box]).None? then BadPayload else Hit(clients[i], ParseKnock(log[box]).value))
  {
    hide ParseKnock, KnockBox, KnockHash, KeyHint, ValidClient;
    if clients != [] {
      var rest := clients[1..];
      FindIff(c, log, rest, h, serverPort, sealed);
      forall i: nat | EndsSearch(c, log, clients, h, serverPort, sealed, i) && i > 0
        ensures EndsSearch(c, log, rest, h, serverPort, sealed, i - 1)
      {
        assert clients[i] == rest[i - 1];
        forall k | 0 <= k < i - 1 ensures PassedOver(c, log, rest[k], h, serverPort, sealed) {
          assert rest[k] == clients[k + 1];
        }
      }
      assert forall k :: 0 <= k < |rest| ==> rest[k] == clients[k + 1];
    }
  }

  /** Only what a configured client sealed for this very packet and port is authentic: its
      header is well formed and fits the packet, the message names the port and the method
      of the server, its flags tell what it holds, and a part of a sequence is in range and
      sequences are allowed. */
  lemma AuthenticMeans(c: Primitives, log: Log, cfg: ServerConfig, packet: seq<byte>) returns (who: Client)
    requires Authentic(c, log, cfg, packet).Some?
    ensures var k := Authentic(c, log, cfg, packet).value;
            && 28 <= |packet| <= EffectiveMax(cfg.maxFrameSize) && 1 <= cfg.serverPort <= 65535
            && var h := ParseHeader(packet[..28]);
               && |packet| == 28 + h.sealedLen && h.sealedLen > 0 && h.reserved == 0 && k.nonce == packet[..16] && k.flags == h.flags <= 7
               && who in cfg.clients && who.clientID == k.clientID
               && SealedBy(c, log, who, h, cfg.serverPort, packet[28..], k.payload)
               && k.payload.serverPort == cfg.serverPort
               && (cfg.methodName != [] ==> k.payload.methodName == cfg.methodName)
               && (h.flags in {1, 3, 5, 7} <==> k.payload.frameType == 2)
               && (h.flags in {2, 3, 6, 7} <==> |k.payload.sessionID| >= SESSION_ID_MIN)
               && (h.flags in {4, 5, 6, 7} <==> k.payload.extensions != [])
               && (k.payload.frameType == 1 || k.payload.frameType == 2)
               && (k.payload.frameType == 2 ==> && cfg.allowSequence && |k.payload.sequenceID| == 16
                                                && 2 <= k.payload.sequenceTotal <= 8
                                                && 0 <= k.payload.sequenceIndex < k.payload.sequenceTotal)
  {
    hide Find, SealedBy, ParseKnock;
    var h := ParseHeader(packet[..28]);
    HitIsSealedBy(c, log, cfg.clients, h, cfg.serverPort, packet[28..]);
    who := Find(c, log, cfg.clients, h, cfg.serverPort, packet[28..]).who;
    assert packet[..28][..16] == packet[..16];
  }

  /** In every run a packet is accepted if and only if it is authentic, its timestamp is
      within the window of the clock, its client and nonce were not accepted less than `ttl`
      before, and what was accepted since does not fill the cache. */
  lemma PacketAcceptedIff(c: Primitives, cfg: ServerConfig, limit: int, ttl: int, delay: int, rs: seq<Receipt>, j: nat)
    requires Orderly(Deliveries(c, cfg, rs), delay) && j < |rs|
    ensures var ds, w := Deliveries(c, cfg, rs), EffectiveWindow(cfg.timeWindow);
            var k, recent := Authentic(c, rs[j].log, cfg, rs[j].packet), RecentlyAccepted(w, limit, ttl, ds, j);
            AcceptedAt(w, limit, ttl, ds, j) <==>
            && k.Some?
            && rs[j].checkedAt - k.value.payload.timestampMS * MILLISECOND <= w
            && k.value.payload.timestampMS * MILLISECOND - rs[j].checkedAt <= w
            && ReplayKey(k.value.clientID, k.value.nonce) !in recent && |recent| < limit
  {
    hide Authentic, EffectiveWindow, AcceptedAt, RecentlyAccepted, Orderly, ReplayKey;
    AcceptedIff(EffectiveWindow(cfg.timeWindow), limit, ttl, delay, Deliveries(c, cfg, rs), j);
  }

  /** What a message opens to does not change while more is sealed. */
  lemma {:induction false} FindStable(c: Primitives, log: Log, log': Log, clients: seq<Client>, h: Header, serverPort: int, sealed: seq<byte>)
    requires Extends(log', log) && OneKey(log') && Find(c, log, clients, h, serverPort, sealed).Hit?
    ensures Find(c, log', clients, h, serverPort, sealed) == Find(c, log, clients, h, serverPort, sealed)
  {
    hide ParseKnock, KnockHash, KeyHint, ValidClient, HeaderBytes;
    var who := clients[0];
    var box := KnockBox(c, who.secret, h, serverPort, sealed);
    HitIsSealedBy(c, log, clients, h, serverPort, sealed);
    if Find(c, log, clients, h, serverPort, sealed) == Find(c, log, clients[1..], h, serverPort, sealed) {
      FindStable(c, log, log', clients[1..], h, serverPort, sealed);
    }
    assert box in log' ==> box in log;
  }

  lemma AuthenticStable(c: Primitives, log: Log, log': Log, cfg: ServerConfig, packet: seq<byte>)
    requires Extends(log', log) && OneKey(log') && Authentic(c, log, cfg, packet).Some?
    ensures Authentic(c, log', cfg, packet) == Authentic(c, log, cfg, packet)
  {
    hide Find, ParseHeader, FlagsAgree, TypeAllowed, Extends, OneKey;
    FindStable(c, log, log', cfg.clients, ParseHeader(packet[..HEADER_SIZE]), cfg.serverPort, packet[HEADER_SIZE..]);
  }

  /** For every window and timestamp, a packet is accepted at most once in any run, while
      clients go on sealing, if marks live for `KnockReplayTTL` and each is made before the
      spare time of that lifetime has passed since the check. */
  lemma PacketAcceptedOnce(c: Primitives, cfg: ServerConfig, limit: int, rs: seq<Receipt>, i: nat, j: nat)
    requires i < j < |rs| && rs[i].packet == rs[j].packet
    requires Extends(rs[j].log, rs[i].log) && OneKey(rs[j].log)
    requires forall x, y :: 0 <= x < y < |rs| ==> rs[x].markedAt <= rs[y].markedAt
    requires var spare := KnockReplayTTL(cfg.timeWindow) - 2 * EffectiveWindow(cfg.timeWindow);
             forall x :: 0 <= x < |rs| ==> 0 <= rs[x].markedAt - rs[x].checkedAt < spare
    ensures var ds, w, ttl := Deliveries(c, cfg, rs), EffectiveWindow(cfg.timeWindow), KnockReplayTTL(cfg.timeWindow);
            !(AcceptedAt(w, limit, ttl, ds, i) && AcceptedAt(w, limit, ttl, ds, j))
  {
    hide Authentic, KnockReplayTTL, EffectiveWindow, MarksAfterDeliveries, Extends, OneKey, Decide, ReplayKey;
    var w, ttl := EffectiveWindow(cfg.timeWindow), KnockReplayTTL(cfg.timeWindow);
    var ds := Deliveries(c, cfg, rs);
    assert Orderly(ds, ttl - 2 * w);
    if AcceptedAt(w, limit, ttl, ds, i) {
      AuthenticStable(c, rs[i].log, rs[j].log, cfg, rs[i].packet);
      AcceptedOnce(w, limit, ttl, ttl - 2 * w, ds, i, j);
    }
  }

  /** Any delay below a second between the check and the mark is within that spare time. */
  lemma PacketAcceptedOnceInTime(c: Primitives, cfg: ServerConfig, limit: int, rs: seq<Receipt>, i: nat, j: nat)
    requires i < j < |rs| && rs[i].packet == rs[j].packet
    requires Extends(rs[j].log, rs[i].log) && OneKey(rs[j].log)
    requires forall x, y :: 0 <= x < y < |rs| ==> rs[x].markedAt <= rs[y].markedAt
    requires forall x :: 0 <= x < |rs| ==> 0 <= rs[x].markedAt - rs[x].checkedAt < 1_000_000_000
    ensures var ds, w, ttl := Deliveries(c, cfg, rs), EffectiveWindow(cfg.timeWindow), KnockReplayTTL(cfg.timeWindow);
            !(AcceptedAt(w, limit, ttl, ds, i) && AcceptedAt(w, limit, ttl, ds, j))
  {
    hide AcceptedAt, Extends, OneKey, Arrival;
    PacketAcceptedOnce(c, cfg, limit, rs, i, j);
  }

  // ------------------------------------------------------------------- building

  /** The nonce and the client random are empty when they are to be drawn; key hint 0
      asks for the computed one. */
  datatype Options = Options(
    who: Client, methodName: seq<byte>, serverPort: int, sessionID: seq<byte>, sequenceID: seq<byte>, sequenceIndex: int,
    sequenceTotal: int, clientRandom: seq<byte>, extensions: seq<TLV>, nonce: seq<byte>, keyHint: uint64,
    timestampMS: int64, maxFrameSize: int)

  /** Bytes drawn at random while building. */
  datatype Drawn = Drawn(nonce: Hash, clientRandom: Hash)

  const UDP_METHOD: seq<byte> := [117, 100, 112]

  predicate IsSequence(o: Options) {
    o.sequenceTotal > 0 || o.sequenceID != []
  }

  function PayloadOf(c: Primitives, o: Options, d: Drawn): (p: KnockPayload)
    requires |KnockHash(c, o.who)| == 16
  {
    KnockPayload(
      if IsSequence(o) then TYPE_UDP_SEQUENCE else TYPE_UDP, KnockHash(c, o.who), o.timestampMS,
      if o.methodName == [] then UDP_METHOD else o.methodName, o.serverPort, o.sessionID,
      if IsSequence(o) then o.sequenceID else [], if IsSequence(o) then o.sequenceIndex else 0,
      if IsSequence(o) then o.sequenceTotal else 0,
      if o.clientRandom == [] then d.clientRandom else o.clientRandom, o.extensions)
  }

  function FlagsOf(p: KnockPayload): (flags: byte) {
    (if p.frameType == TYPE_UDP_SEQUENCE then 1 else 0) + (if p.sessionID != [] then 2 else 0)
    + (if p.extensions != [] then 4 else 0)
  }

  function NonceOf(o: Options, d: Drawn): (n: Hash)
    requires |o.nonce| == 0 || |o.nonce| == 16
  {
    if o.nonce == [] then d.nonce else o.nonce
  }

  function HintOf(c: Primitives, o: Options, d: Drawn): (h: uint64)
    requires |o.nonce| == 0 || |o.nonce| == 16
  {
    if o.keyHint != 0 then o.keyHint else KeyHint(c, o.who.secret, NonceOf(o, d), o.serverPort)
  }

  /** The options are well formed and the payload can be written. */
  predicate Writable(c: Primitives, o: Options, d: Drawn) {
    && |KnockHash(c, o.who)| == 16
    && ValidClient(o.who) && 1 <= o.serverPort <= 65535
    && (o.sessionID == [] || |o.sessionID| >= SESSION_ID_MIN)
    && (IsSequence(o) ==>
          |o.sequenceID| == SEQUENCE_ID_SIZE && 2 <= o.sequenceTotal <= MAX_PARTS && 0 <= o.sequenceIndex < o.sequenceTotal)
    && EncodableKnock(PayloadOf(c, o, d))
    && (|o.nonce| == 0 || |o.nonce| == 16)
  }

  predicate Buildable(c: Primitives, o: Options, d: Drawn) {
    && Writable(c, o, d)
    && var n := |KnockBytes(PayloadOf(c, o, d))| + OVERHEAD;
       n <= 65535 && HEADER_SIZE + n <= EffectiveMax(o.maxFrameSize)
  }

  function HeaderFor(c: Primitives, o: Options, d: Drawn): (h: Header)
    requires Buildable(c, o, d)
  {
    var p := PayloadOf(c, o, d);
    Header(NonceOf(o, d), HintOf(c, o, d), |KnockBytes(p)| + OVERHEAD, FlagsOf(p), 0)
  }

  function SealedFor(c: Primitives, o: Options, d: Drawn): (s: seq<byte>)
    requires Buildable(c, o, d)
  {
    var b := KnockBox(c, o.who.secret, HeaderFor(c, o, d), o.serverPort, []);
    c.seal(b.key, b.nonce, KnockBytes(PayloadOf(c, o, d)), b.aad)
  }

  /** Builds a frame: exactly when the options can be written and the frame is not too
      large. */
  method BuildKnockFrame(c: Primitives, o: Options, d: Drawn) returns (r: Option<seq<byte>>)
    requires |KnockHash(c, o.who)| == 16
    ensures r.Some? <==> Buildable(c, o, d)
    ensures r.Some? ==> r.value == HeaderBytes(HeaderFor(c, o, d)) + SealedFor(c, o, d)
  {
    hide KnockBytes, KnockHash, EncodableKnock, HeaderBytes, KnockBox;
    var maxFrameSize := if o.maxFrameSize <= 0 then DEFAULT_MAX_FRAME_SIZE else o.maxFrameSize;
    if !ValidClient(o.who) || o.serverPort < 1 || o.serverPort > 65535 {
      return None;
    }
    if 0 < |o.sessionID| < SESSION_ID_MIN {
      return None;
    }
    if o.sequenceTotal > 0 || o.sequenceID != [] {
      if |o.sequenceID| != SEQUENCE_ID_SIZE {
        return None;
      }
      if o.sequenceTotal < 2 || o.sequenceTotal > MAX_PARTS || o.sequenceIndex < 0 || o.sequenceIndex >= o.sequenceTotal {
        return None;
      }
    }
    var p := PayloadOf(c, o, d);
    var plain := EncodeKnockPayload(p);
    if plain.Err? {
      return None;
    }
    if |o.nonce| != 0 && |o.nonce| != 16 {
      return None;
    }
    var sealedLen := |plain.value| + OVERHEAD;
    if sealedLen > 65535 || HEADER_SIZE + sealedLen > maxFrameSize {
      return None;
    }
    var h := Header(NonceOf(o, d), HintOf(c, o, d), sealedLen, FlagsOf(p), 0);
    var b := KnockBox(c, o.who.secret, h, o.serverPort, []);
    return Some(HeaderBytes(h) + c.seal(b.key, b.nonce, plain.value, b.aad));
  }

  // ------------------------------------------------- what is built can be opened

  /** What a server must agree on for the frame to open. */
  predicate Agrees(c: Primitives, cfg: ServerConfig, o: Options, d: Drawn)
    requires Buildable(c, o, d)
  {
    && o.who in cfg.clients && cfg.serverPort == o.serverPort
    && HintOf(c, o, d) == KeyHint(c, o.who.secret, NonceOf(o, d), o.serverPort)
    && |KnockBytes(PayloadOf(c, o, d))| + OVERHEAD + HEADER_SIZE <= EffectiveMax(cfg.maxFrameSize)
    && (cfg.methodName == [] || cfg.methodName == PayloadOf(c, o, d).methodName)
    && (IsSequence(o) ==> cfg.allowSequence)
  }

  /** The frame's own box is the only one sealed with this nonce to these bytes, and no
      other client of the server has the sender's hash. */
  ghost predicate Genuine(c: Primitives, log: Log, cfg: ServerConfig, o: Options, d: Drawn)
    requires Buildable(c, o, d)
  {
    var box := KnockBox(c, o.who.secret, HeaderFor(c, o, d), o.serverPort, SealedFor(c, o, d));
    && box in log && log[box] == KnockBytes(PayloadOf(c, o, d))
    && (forall b :: b in log && b.nonce == box.nonce && b.sealed == box.sealed ==> b == box)
    && (forall w :: w in cfg.clients && KnockHash(c, w) == KnockHash(c, o.who) ==> w == o.who)
  }

  lemma PortsDiffer(h: Header, p: int, q: int)
    requires 1 <= p <= 65535 && 1 <= q <= 65535
    requires HeaderBytes(h) + [FRAME_VERSION] + U16(p % 0x1_0000) == HeaderBytes(h) + [FRAME_VERSION] + U16(q % 0x1_0000)
    ensures p == q
  {
    hide HeaderBytes, U16, FromU16;
    var a, b := HeaderBytes(h) + [FRAME_VERSION] + U16(p % 0x1_0000), HeaderBytes(h) + [FRAME_VERSION] + U16(q % 0x1_0000);
    assert a[HEADER_SIZE + 1..] == U16(p % 0x1_0000) && b[HEADER_SIZE + 1..] == U16(q % 0x1_0000);
    U16RoundTrip(p % 0x1_0000);
    U16RoundTrip(q % 0x1_0000);
  }

  /** What the sealed message reads as. */
  lemma ReadsBack(c: Primitives, o: Options, d: Drawn)
    requires Buildable(c, o, d)
    ensures ParseKnock(KnockBytes(PayloadOf(c, o, d))) == Some(PayloadOf(c, o, d))
  {
    hide KnockBytes, ParseKnock, KnockHash, EncodableKnock;
    KnockReadBack(PayloadOf(c, o, d));
  }

  /** Only the sender opens the frame, and only on its port and with its hint. */
  lemma {:induction false} FoundIff(c: Primitives, log: Log, cfg: ServerConfig, o: Options, d: Drawn, clients: seq<Client>)
    requires Buildable(c, o, d) && Genuine(c, log, cfg, o, d)
    requires 1 <= cfg.serverPort <= 65535
    requires forall w :: w in clients ==> w in cfg.clients
    ensures Find(c, log, clients, HeaderFor(c, o, d), cfg.serverPort, SealedFor(c, o, d)) ==
            if o.who in clients && cfg.serverPort == o.serverPort
               && HintOf(c, o, d) == KeyHint(c, o.who.secret, NonceOf(o, d), o.serverPort)
            then Hit(o.who, PayloadOf(c, o, d)) else NoClient
  {
    hide ParseKnock, KnockBytes, EncodableKnock, KnockHash, HeaderBytes, U16, KeyHint, SealedFor;
    if clients != [] {
      var w, h, sealed := clients[0], HeaderFor(c, o, d), SealedFor(c, o, d);
      FoundIff(c, log, cfg, o, d, clients[1..]);
      var box := KnockBox(c, w.secret, h, cfg.serverPort, sealed);
      if box in log {
        assert box == KnockBox(c, o.who.secret, h, o.serverPort, sealed);
        PortsDiffer(h, cfg.serverPort, o.serverPort);
        ReadsBack(c, o, d);
      }
    }
  }

  /** A built frame opens at a server if and only if the server agrees with the sender,
      and then it opens to what was put in. */
  lemma BuiltOpensIff(c: Primitives, log: Log, cfg: ServerConfig, o: Options, d: Drawn)
    requires Lengths(c) && Buildable(c, o, d) && Genuine(c, log, cfg, o, d)
    ensures Authentic(c, log, cfg, HeaderBytes(HeaderFor(c, o, d)) + SealedFor(c, o, d)) ==
            if Agrees(c, cfg, o, d)
            then Some(Knock(o.who.clientID, NonceOf(o, d), PayloadOf(c, o, d), FlagsOf(PayloadOf(c, o, d)))) else None
  {
    hide ParseKnock, KnockBytes, EncodableKnock, KnockHash, HeaderBytes, ParseHeader, U16, KeyHint, KnockBox, Find, Genuine;
    var h, sealed := HeaderFor(c, o, d), SealedFor(c, o, d);
    var packet := HeaderBytes(h) + sealed;
    assert packet[..HEADER_SIZE] == HeaderBytes(h) && packet[HEADER_SIZE..] == sealed;
    HeaderRoundTrip(h);
    if 1 <= cfg.serverPort <= 65535 {
      FoundIff(c, log, cfg, o, d, cfg.clients);
    }
  }
}
