/**
 Envelope v2: an authenticated frame padded to one of a few bucket sizes. The cipher
 is an ideal box: opening succeeds exactly on what was sealed. Keyed hashes and key
 derivation are arbitrary functions.
 */
module Crypto {
  import opened Bytes
  import opened Wrappers

  const OVERHEAD: nat := 16

  type Key = seq<byte>

  /** A sealed message with everything it is bound to. */
  datatype Box = Box(key: Key, nonce: seq<byte>, sealed: seq<byte>, aad: seq<byte>)

  /** What was sealed so far. */
  type Log = map<Box, seq<byte>>

  function Open(log: Log, box: Box): (r: Option<seq<byte>>) {
    if box in log then Some(log[box]) else None
  }

  datatype Primitives = Primitives(
    seal: (Key, seq<byte>, seq<byte>, seq<byte>) -> seq<byte>,
    derive: (seq<byte>, seq<byte>, seq<byte>) -> Key,
    mac64: (seq<byte>, seq<byte>) -> uint64,
    mac128: (seq<byte>, seq<byte>) -> seq<byte>)

  /** A sealed message is 16 bytes longer than the message. */
  ghost predicate Lengths(c: Primitives) {
    && (forall k, n, p, a :: |c.seal(k, n, p, a)| == |p| + OVERHEAD)
    && (forall s, d :: |c.mac128(s, d)| == 16)
  }
}

module Buckets {
  import opened Lists

  const DEFAULT_BUCKETS: seq<int> := [128, 192, 256, 384, 512]

  predicate Supported(bucket: int) {
    bucket in DEFAULT_BUCKETS
  }

  ghost predicate Increasing(s: seq<int>) {
    forall i, j :: 0 <= i < j < |s| ==> s[i] < s[j]
  }

  method Deduplicate(input: seq<int>) returns (out: seq<int>)
    ensures Distinct(out)
    ensures forall v :: v in out <==> v in input && Supported(v)
  {
    out := [];
    for i := 0 to |input|
      invariant Distinct(out)
      invariant forall v :: v in out <==> v in input[..i] && Supported(v)
    {
      assert input[..i + 1] == input[..i] + [input[i]];
      if Supported(input[i]) && input[i] !in out {
        out := out + [input[i]];
      }
    }
    assert input[..|input|] == input;
  }

  /** Insertion sort. */
  method Sort(a: array<int>)
    modifies a
    ensures forall i, j :: 0 <= i < j < a.Length ==> a[i] <= a[j]
    ensures multiset(a[..]) == old(multiset(a[..]))
  {
    for i := 0 to a.Length
      invariant forall p, q :: 0 <= p < q < i ==> a[p] <= a[q]
      invariant multiset(a[..]) == old(multiset(a[..]))
    {
      var j := i;
      while j > 0 && a[j] < a[j - 1]
        invariant 0 <= j <= i
        invariant forall p, q :: 0 <= p < q <= i && q != j ==> a[p] <= a[q]
        invariant multiset(a[..]) == old(multiset(a[..]))
      {
        a[j], a[j - 1] := a[j - 1], a[j];
        j := j - 1;
      }
    }
  }

  /** The supported sizes that `input` names, in increasing order; all of them if it
      names none. */
  function Chosen(input: seq<int>): (r: seq<int>) {
    Filter(DEFAULT_BUCKETS, b => input == [] || b in input)
  }

  lemma ChosenMembers(input: seq<int>)
    ensures Increasing(Chosen(input))
    ensures forall v :: v in Chosen(input) <==> (input == [] || v in input) && Supported(v)
  {
    var keep := b => input == [] || b in input;
    FilterIncreasing(DEFAULT_BUCKETS, keep);
    forall v ensures v in Chosen(input) <==> (input == [] || v in input) && Supported(v) {
      FilterMember(DEFAULT_BUCKETS, keep, v);
    }
  }

  lemma {:induction false} FilterIncreasing(s: seq<int>, keep: int -> bool)
    requires Increasing(s)
    ensures Increasing(Filter(s, keep))
  {
    if s != [] {
      FilterIncreasing(s[1..], keep);
      var rest := Filter(s[1..], keep);
      forall i | 0 <= i < |rest| ensures s[0] < rest[i] {
        FilterMember(s[1..], keep, rest[i]);
      }
    }
  }

  /** A set of numbers has one increasing enumeration. */
  lemma {:induction false} IncreasingOnce(s: seq<int>, t: seq<int>)
    requires Increasing(s) && Increasing(t) && forall v :: v in s <==> v in t
    ensures s == t
  {
    var first := if s != [] then s[0] else if t != [] then t[0] else 0;
    assert first in s <==> first in t;
    if s != [] && t != [] {
      assert s[0] in s && t[0] in t;
      assert forall v :: v in s[1..] <==> v in s && v != s[0];
      assert forall v :: v in t[1..] <==> v in t && v != t[0];
      IncreasingOnce(s[1..], t[1..]);
    }
  }

  /** Deduplicates and sorts. */
  method EnvelopeV2Buckets(input: seq<int>) returns (out: seq<int>)
    ensures out == Chosen(input) && Increasing(out)
    ensures forall v :: v in out <==> (input == [] || v in input) && Supported(v)
  {
    ChosenMembers(input);
    if input == [] {
      IncreasingOnce(DEFAULT_BUCKETS, Chosen(input));
      return DEFAULT_BUCKETS;
    }
    var distinct := Deduplicate(input);
    var a := new int[|distinct|](i requires 0 <= i < |distinct| => distinct[i]);
    assert a[..] == distinct;
    Sort(a);
    out := a[..];
    SortedDistinct(distinct, out);
    IncreasingOnce(out, Chosen(input));
  }

  lemma SortedDistinct(s: seq<int>, t: seq<int>)
    requires Distinct(s) && multiset(s) == multiset(t)
    requires forall i, j :: 0 <= i < j < |t| ==> t[i] <= t[j]
    ensures Increasing(t)
    ensures forall v :: v in t <==> v in s
  {
    forall v ensures v in t <==> v in s {
      assert v in t <==> v in multiset(t);
    }
    forall i, j | 0 <= i < j < |t| ensures t[i] < t[j] {
      if t[i] == t[j] {
        DistinctOnce(s, t[i]);
        RepeatedTwice(t, i, j);
      }
    }
  }

  lemma {:induction false} DistinctOnce(s: seq<int>, v: int)
    requires Distinct(s)
    ensures multiset(s)[v] <= 1
  {
    if s != [] {
      DistinctOnce(s[1..], v);
      assert s == [s[0]] + s[1..];
      if s[0] == v {
        assert v !in s[1..];
      }
    }
  }

  lemma RepeatedTwice(t: seq<int>, i: nat, j: nat)
    requires i < j < |t| && t[i] == t[j]
    ensures multiset(t)[t[i]] >= 2
  {
    assert t == t[..i] + [t[i]] + t[i + 1..j] + [t[j]] + t[j + 1..];
  }
}

module Envelope {
  import opened Buckets
  import opened Bytes
  import opened Codec
  import opened Crypto
  import opened Lists
  import opened Payloads
  import opened Wrappers

  const FRAME_V1_VERSION: byte := 1
  const VERSION: byte := 2
  const FLAG_SERVER_PROOF: byte := 1
  const PREFIX_SIZE: nat := 24
  const ROUTE_HINT_SIZE: nat := 8
  const MAX_SIZE: int := 512
  const MIN_SECRET_SIZE: nat := 16

  type Prefix = b: seq<byte> | |b| == 24
    witness [0, 0, 0, 0, 0, 0, 0, 0, 0, 0, 0, 0, 0, 0, 0, 0, 0, 0, 0, 0, 0, 0, 0, 0]

  datatype HintMode = NoHint | RouteHint

  datatype Header = Header(prefixRandom: Prefix, routeHint: uint64, bucketSize: int, hintMode: HintMode)

  function PrefixLength(mode: HintMode): (n: nat) {
    if mode == RouteHint then PREFIX_SIZE + ROUTE_HINT_SIZE else PREFIX_SIZE
  }

  function AsciiBytes(s: string): (r: seq<byte>) {
    seq(|s|, i requires 0 <= i < |s| => s[i] as int % 256)
  }

  // ------------------------------------------------------- keys, hints, bindings

  function DeriveKey(c: Primitives, secret: seq<byte>, prefix: Prefix): (k: Key) {
    c.derive(secret, prefix, AsciiBytes("libknock tcp-auth envelope v2"))
  }

  function ComputeRouteHint(c: Primitives, secret: seq<byte>, prefix: Prefix, serverPort: int): (r: uint64) {
    if serverPort < 0 || serverPort > 65535 then 0
    else c.mac64(secret, AsciiBytes("libknock tcp-auth hint v2") + prefix + U16(serverPort))
  }

  function ClientIDHash(c: Primitives, secret: seq<byte>, clientID: string): (r: seq<byte>) {
    c.mac128(secret, AsciiBytes("client-id") + AsciiBytes(clientID))
  }

  function Hint(h: Header): (r: seq<byte>) {
    if h.hintMode == RouteHint then U64(h.routeHint) else []
  }

  /** Binds routing, size, port and protocol to the sealed message. */
  function Aad(h: Header, serverPort: int): (r: seq<byte>) {
    h.prefixRandom + Hint(h) + U16(h.bucketSize % 0x1_0000) + U16(serverPort % 0x1_0000)
    + AsciiBytes("tcp-auth-envelope-v2")
  }

  /** A sealed message is bound to its bucket: no other bucket has the same binding. */
  lemma AadDeterminesBucket(h: Header, h': Header, serverPort: int)
    requires Aad(h, serverPort) == Aad(h', serverPort) && h.hintMode == h'.hintMode
    requires 0 <= h.bucketSize <= 65535 && 0 <= h'.bucketSize <= 65535
    ensures h.prefixRandom == h'.prefixRandom && h.bucketSize == h'.bucketSize
    ensures h.hintMode == RouteHint ==> h.routeHint == h'.routeHint
  {
    hide AsciiBytes, U64, U16;
    var tail := U16(serverPort % 0x1_0000) + AsciiBytes("tcp-auth-envelope-v2");
    var (p, t, b) := (h.prefixRandom, Hint(h), U16(h.bucketSize % 0x1_0000));
    var (p', t', b') := (h'.prefixRandom, Hint(h'), U16(h'.bucketSize % 0x1_0000));
    assert Aad(h, serverPort) == p + (t + (b + tail)) && Aad(h', serverPort) == p' + (t' + (b' + tail));
    SplitAt(p, t + (b + tail), p', t' + (b' + tail));
    SplitAt(t, b + tail, t', b' + tail);
    SplitAt(b, tail, b', tail);
    U16RoundTrip(h.bucketSize);
    U16RoundTrip(h'.bucketSize);
    U64RoundTrip(h.routeHint);
    U64RoundTrip(h'.routeHint);
  }

  lemma SplitAt(a: seq<byte>, b: seq<byte>, a': seq<byte>, b': seq<byte>)
    requires a + b == a' + b' && |a| == |a'|
    ensures a == a' && b == b'
  {
    assert (a + b)[..|a|] == a && (a' + b')[..|a|] == a';
    assert (a + b)[|a|..] == b && (a' + b')[|a|..] == b';
  }

  function BoxOf(c: Primitives, secret: seq<byte>, h: Header, serverPort: int, sealed: seq<byte>): (r: Box) {
    Box(DeriveKey(c, secret, h.prefixRandom), h.prefixRandom, sealed, Aad(h, serverPort))
  }

  // ------------------------------------------------------------------- the body

  /** Payload, padding length, padding. */
  function Body(p: PayloadV2, padding: seq<byte>): (r: seq<byte>)
    requires EncodableV2(p) && |padding| <= 65535
  {
    PayloadV2Bytes(p) + Var16(padding)
  }

  function ParseBody(plain: seq<byte>): (r: Option<PayloadV2>) {
    var (p, rest) :- TakePayloadV2(plain);
    var (n, padding) :- TakeU16(rest);
    if n != |padding| || p.version != VERSION || p.flags > FLAG_SERVER_PROOF then None else Some(p)
  }

  /** A body is read back whatever the padding, and nothing else is accepted. */
  lemma BodyRoundTrip(p: PayloadV2, padding: seq<byte>)
    requires EncodableV2(p) && |padding| <= 65535 && p.version == VERSION && p.flags <= FLAG_SERVER_PROOF
    ensures ParseBody(Body(p, padding)) == Some(p)
  {
    hide PayloadV2Bytes, TakePayloadV2;
    PayloadV2RoundTrip(p, Var16(padding));
    TakeU16Written(|padding|, padding);
  }

  lemma BodyCanonical(plain: seq<byte>)
    requires ParseBody(plain).Some?
    ensures exists padding :: EncodableV2(ParseBody(plain).value) && |padding| <= 65535 &&
                              plain == Body(ParseBody(plain).value, padding)
  {
    hide PayloadV2Bytes, TakePayloadV2;
    PayloadV2Canonical(plain);
    var (p, rest) := TakePayloadV2(plain).value;
    TakenU16(rest);
    assert plain == Body(p, rest[2..]);
  }

  /** Opens a sealed body. The padding length must account for every byte. */
  method OpenEnvelopeV2Payload(c: Primitives, log: Log, secret: seq<byte>, h: Header, serverPort: int, sealed: seq<byte>)
    returns (r: Option<PayloadV2>)
    ensures r == OpenPayload(c, log, secret, h, serverPort, sealed)
  {
    hide TakePayloadV2;
    var plain := Open(log, BoxOf(c, secret, h, serverPort, sealed));
    if plain.None? {
      return None;
    }
    var decoded := DecodeEnvelopeV2PayloadWithLength(plain.value);
    if decoded.None? {
      return None;
    }
    var (payload, next) := decoded.value;
    ghost var rest := plain.value[next..];
    if next + 2 > |plain.value| {
      return None;
    }
    assert rest[..2] == plain.value[next..next + 2];
    var paddingLen := FromU16(plain.value[next..next + 2]);
    if next + 2 + paddingLen != |plain.value| {
      return None;
    }
    if payload.version != VERSION {
      return None;
    }
    if payload.flags > FLAG_SERVER_PROOF {
      return None;
    }
    return Some(payload);
  }

  function OpenPayload(c: Primitives, log: Log, secret: seq<byte>, h: Header, serverPort: int, sealed: seq<byte>): (r: Option<PayloadV2>) {
    var plain :- Open(log, BoxOf(c, secret, h, serverPort, sealed));
    ParseBody(plain)
  }

  // ------------------------------------------------------------------- building

  datatype Config = Config(hintMode: HintMode, buckets: seq<int>, randomPadding: bool)

  function EffectiveBuckets(cfg: Config): (r: seq<int>) {
    if cfg.buckets == [] then DEFAULT_BUCKETS else cfg.buckets
  }

  predicate ValidBuckets(cfg: Config) {
    forall b :: b in EffectiveBuckets(cfg) ==> Supported(b)
  }

  datatype Client = Client(clientID: string, secret: seq<byte>)

  datatype Request = Request(
    serverPort: int, nowMS: int64, flags: byte, methodName: seq<byte>, sessionID: seq<byte>, extensions: seq<byte>)

  function RequestPayload(c: Primitives, who: Client, q: Request, hash: Hash): (p: PayloadV2) {
    PayloadV2(VERSION, q.flags, q.nowMS, hash, q.serverPort, q.methodName, q.sessionID, q.extensions)
  }

  /** What the client must get right. */
  predicate Acceptable(c: Primitives, who: Client, q: Request, cfg: Config) {
    && ValidBuckets(cfg) && who.clientID != "" && |who.secret| >= MIN_SECRET_SIZE && q.flags <= FLAG_SERVER_PROOF
    && 0 <= q.serverPort <= 65535 && |q.methodName| <= 255 && |q.sessionID| <= 255 && |q.extensions| <= 65535
  }

  /** The size a bucket is compared with. It leaves out the two bytes of the padding
      length. */
  function MinSize(q: Request, mode: HintMode): (n: nat) {
    PrefixLength(mode) + 32 + |q.methodName| + |q.sessionID| + |q.extensions| + OVERHEAD
  }

  function WireFrame(h: Header, sealed: seq<byte>): (r: seq<byte>) {
    h.prefixRandom + Hint(h) + sealed
  }

  datatype Built = Built(frame: seq<byte>, header: Header)

  function AtLeast(minSize: int): (r: int -> bool) {
    b => b >= minSize
  }

  /** The configured bucket sizes that are large enough, in increasing order. */
  function Fitting(cfg: Config, minSize: int): (r: seq<int>) {
    Filter(Chosen(EffectiveBuckets(cfg)), AtLeast(minSize))
  }

  /** The bucket a draw selects, if one fits. */
  function Picked(cfg: Config, minSize: int, pick: nat): (r: Option<int>) {
    var all := Fitting(cfg, minSize);
    if all == [] then None else Some(all[pick % |all|])
  }

  /** Any of them can be picked, and nothing else. */
  lemma PickableIff(cfg: Config, minSize: int, bucket: int)
    requires ValidBuckets(cfg)
    ensures bucket in EffectiveBuckets(cfg) && bucket >= minSize <==> exists pick: nat :: Picked(cfg, minSize, pick) == Some(bucket)
    ensures bucket in EffectiveBuckets(cfg) && bucket >= minSize <==> bucket in Fitting(cfg, minSize)
  {
    hide Filter, Chosen;
    ChosenMembers(EffectiveBuckets(cfg));
    FilterMember(Chosen(EffectiveBuckets(cfg)), AtLeast(minSize), bucket);
    var all := Fitting(cfg, minSize);
    if bucket in all {
      var pick :| 0 <= pick < |all| && all[pick] == bucket;
      assert pick % |all| == pick;
      assert Picked(cfg, minSize, pick) == Some(bucket);
    }
  }

  method PickBucket(cfg: Config, minSize: int, pick: nat) returns (r: Option<int>)
    requires ValidBuckets(cfg)
    ensures r == Picked(cfg, minSize, pick)
    ensures r.Some? ==> r.value in EffectiveBuckets(cfg) && r.value >= minSize
    ensures r.None? ==> forall b :: b in EffectiveBuckets(cfg) ==> b < minSize
  {
    hide Filter, Chosen;
    var buckets := EnvelopeV2Buckets(EffectiveBuckets(cfg));
    var candidates: seq<int> := [];
    PassStart(buckets, AtLeast(minSize));
    for i := 0 to |buckets|
      invariant candidates == Filter(buckets[..i], AtLeast(minSize))
    {
      FilterOneMore(buckets, i, AtLeast(minSize));
      if buckets[i] >= minSize {
        candidates := candidates + [buckets[i]];
      }
    }
    assert buckets[..|buckets|] == buckets;
    PickedFits(cfg, minSize);
    if candidates == [] {
      return None;
    }
    return Some(candidates[pick % |candidates|]);
  }

  lemma FilterOneMore(s: seq<int>, i: nat, keep: int -> bool)
    requires i < |s|
    ensures Filter(s[..i + 1], keep) == Filter(s[..i], keep) + if keep(s[i]) then [s[i]] else []
  {
    assert s[..i + 1] == s[..i] + [s[i]];
    FilterAppend(s[..i], [s[i]], keep);
  }

  lemma PickedFits(cfg: Config, minSize: int)
    requires ValidBuckets(cfg)
    ensures forall k :: 0 <= k < |Fitting(cfg, minSize)| ==> Fitting(cfg, minSize)[k] in EffectiveBuckets(cfg) && Fitting(cfg, minSize)[k] >= minSize
    ensures Fitting(cfg, minSize) == [] ==> forall b :: b in EffectiveBuckets(cfg) ==> b < minSize
  {
    hide Filter, Chosen;
    forall k | 0 <= k < |Fitting(cfg, minSize)|
      ensures Fitting(cfg, minSize)[k] in EffectiveBuckets(cfg) && Fitting(cfg, minSize)[k] >= minSize
    {
      PickableIff(cfg, minSize, Fitting(cfg, minSize)[k]);
    }
    forall b | b in EffectiveBuckets(cfg) && b >= minSize ensures Fitting(cfg, minSize) != [] {
      PickableIff(cfg, minSize, b);
    }
  }

  /** Noise or zeros, as configured. */
  function Padding(cfg: Config, n: nat, noise: seq<byte>): (p: seq<byte>)
    requires n <= |noise|
    ensures |p| == n
  {
    if cfg.randomPadding then noise[..n] else seq(n, i => 0)
  }

  /** A well-formed envelope: it fills its bucket exactly, does not start like a frame
      of the older protocol, and whoever opens it reads the request. */
  ghost predicate IsEnvelope(c: Primitives, who: Client, q: Request, cfg: Config, b: Built, body: seq<byte>) {
    var n := PrefixLength(cfg.hintMode);
    var hash := ClientIDHash(c, who.secret, who.clientID);
    && b.header.hintMode == cfg.hintMode
    && b.header.bucketSize in EffectiveBuckets(cfg) && |b.frame| == b.header.bucketSize > n
    && b.frame[..n] == b.header.prefixRandom + Hint(b.header)
    && b.frame[0] != FRAME_V1_VERSION
    && (cfg.hintMode == RouteHint ==>
          b.header.routeHint == ComputeRouteHint(c, who.secret, b.header.prefixRandom, q.serverPort))
    && (cfg.hintMode == NoHint ==> b.header.routeHint == 0)
    && |hash| == 16 && ParseBody(body) == Some(RequestPayload(c, who, q, hash))
    && b.frame[n..] == c.seal(DeriveKey(c, who.secret, b.header.prefixRandom), b.header.prefixRandom, body,
                              Aad(b.header, q.serverPort))
  }

  function BodyFor(c: Primitives, who: Client, q: Request, cfg: Config, bucket: int, noise: seq<byte>): (body: seq<byte>)
    requires Lengths(c) && Acceptable(c, who, q, cfg) && MinSize(q, cfg.hintMode) + 2 <= bucket <= MAX_SIZE <= |noise|
  {
    PayloadV2Bytes(RequestPayload(c, who, q, ClientIDHash(c, who.secret, who.clientID)))
    + Var16(Padding(cfg, bucket - MinSize(q, cfg.hintMode) - 2, noise))
  }

  /** Random padding can be anything; otherwise it is zeros. */
  lemma PaddingIs(cfg: Config, noise: seq<byte>, want: seq<byte>)
    requires want <= noise
    ensures Padding(cfg, |want|, noise) == if cfg.randomPadding then want else seq(|want|, i => 0)
  {
  }

  /** Builds an envelope, exactly if the input is acceptable and the picked bucket has room for
      the padding length as well. Random draws are inputs: the prefix, redrawn until its
      first byte is not the version byte of the older protocol, the bucket and the padding. */
  method BuildEnvelopeV2(c: Primitives, who: Client, q: Request, cfg: Config, prefix: Prefix, pick: nat, noise: seq<byte>)
    returns (r: Option<Built>, ghost body: seq<byte>)
    requires Lengths(c) && prefix[0] != FRAME_V1_VERSION && |noise| >= MAX_SIZE
    ensures r.Some? ==> Acceptable(c, who, q, cfg) && IsEnvelope(c, who, q, cfg, r.value, body)
    ensures r.Some? ==> r.value.header.prefixRandom == prefix
    ensures r.Some? ==> MinSize(q, cfg.hintMode) + 2 <= r.value.header.bucketSize <= MAX_SIZE
    ensures r.Some? ==> body == BodyFor(c, who, q, cfg, r.value.header.bucketSize, noise)
    ensures var least := MinSize(q, cfg.hintMode);
            var bucket := Picked(cfg, least, pick);
            && (r.Some? <==> Acceptable(c, who, q, cfg) && bucket.Some? && bucket.value >= least + 2)
            && (r.Some? ==> r.value.header.bucketSize == bucket.value)
  {
    hide Fitting, PayloadV2Bytes, IsEnvelope, BodyFor, ComputeRouteHint, AsciiBytes;
    body := [];
    if !ValidBuckets(cfg) || who.clientID == "" || |who.secret| < MIN_SECRET_SIZE || q.flags > FLAG_SERVER_PROOF {
      return None, body;
    }
    if q.serverPort < 0 || q.serverPort > 65535 {
      return None, body;
    }
    var hint := if cfg.hintMode == RouteHint then ComputeRouteHint(c, who.secret, prefix, q.serverPort) else 0;
    var payload := RequestPayload(c, who, q, ClientIDHash(c, who.secret, who.clientID));
    var plain := EncodeEnvelopeV2Payload(payload);
    if plain.Err? {
      return None, body;
    }
    var minSize := PREFIX_SIZE + |plain.value| + OVERHEAD;
    if cfg.hintMode == RouteHint {
      minSize := minSize + ROUTE_HINT_SIZE;
    }
    var bucket := PickBucket(cfg, minSize, pick);
    if bucket.None? {
      return None, body;
    }
    var h := Header(prefix, hint, bucket.value, cfg.hintMode);
    var sealedLen := bucket.value - PrefixLength(cfg.hintMode);
    var paddingLen := sealedLen - OVERHEAD - |plain.value| - 2;
    if paddingLen < 0 {
      return None, body;
    }
    var built;
    built, body := SealBody(c, who, q, cfg, h, plain.value, paddingLen, noise);
    return Some(built), body;
  }

  method SealBody(c: Primitives, who: Client, q: Request, cfg: Config, h: Header, plain: seq<byte>, paddingLen: nat, noise: seq<byte>)
    returns (built: Built, ghost body: seq<byte>)
    requires Lengths(c) && Acceptable(c, who, q, cfg) && h.prefixRandom[0] != FRAME_V1_VERSION && h.hintMode == cfg.hintMode
    requires plain == PayloadV2Bytes(RequestPayload(c, who, q, ClientIDHash(c, who.secret, who.clientID)))
    requires h.routeHint == if cfg.hintMode == RouteHint then ComputeRouteHint(c, who.secret, h.prefixRandom, q.serverPort) else 0
    requires h.bucketSize in EffectiveBuckets(cfg) && MinSize(q, cfg.hintMode) + 2 + paddingLen == h.bucketSize <= MAX_SIZE <= |noise|
    ensures IsEnvelope(c, who, q, cfg, built, body) && built.header == h
    ensures body == BodyFor(c, who, q, cfg, h.bucketSize, noise)
  {
    hide PayloadV2Bytes, ParseBody, DeriveKey, ComputeRouteHint, ClientIDHash, Aad, U64;
    var padding := Padding(cfg, paddingLen, noise);
    var buf := plain;
    buf := buf + U16(paddingLen);
    buf := buf + padding;
    ghost var payload := RequestPayload(c, who, q, ClientIDHash(c, who.secret, who.clientID));
    assert buf == Body(payload, padding);
    var sealed := c.seal(DeriveKey(c, who.secret, h.prefixRandom), h.prefixRandom, buf, Aad(h, q.serverPort));
    var out: seq<byte> := h.prefixRandom;
    if h.hintMode == RouteHint {
      out := out + U64(h.routeHint);
    }
    out := out + sealed;
    BodyRoundTrip(payload, padding);
    FrameParts(h, sealed);
    assert out == WireFrame(h, sealed);
    return Built(out, h), buf;
  }

  lemma FrameParts(h: Header, sealed: seq<byte>)
    ensures var n, out := PrefixLength(h.hintMode), WireFrame(h, sealed);
            && |out| == n + |sealed| && out[..n] == h.prefixRandom + Hint(h) && out[n..] == sealed && out[0] == h.prefixRandom[0]
  {
    hide U64;
  }

  /** Whoever holds the secret reads the request that was built. */
  lemma EnvelopeOpens(c: Primitives, who: Client, q: Request, cfg: Config, b: Built, body: seq<byte>, log: Log)
    requires IsEnvelope(c, who, q, cfg, b, body)
    requires var box := BoxOf(c, who.secret, b.header, q.serverPort, b.frame[PrefixLength(cfg.hintMode)..]);
             box in log && log[box] == body
    ensures OpenPayload(c, log, who.secret, b.header, q.serverPort, b.frame[PrefixLength(cfg.hintMode)..]) ==
            Some(RequestPayload(c, who, q, ClientIDHash(c, who.secret, who.clientID)))
  {
  }
}
