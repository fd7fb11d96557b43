/**
 The server's side around the trial loops: resolving candidate secrets, validating
 the configuration, routing between the two protocols, checking a peer, and the
 hand-over of the connection.
 */
module Auth {
  import opened Buckets
  import opened Bytes
  import opened Codec
  import opened Crypto
  import opened Envelope
  import opened Lists
  import opened Payloads
  import opened Server
  import opened Stream
  import opened Wrappers
  import Freshness
  import Replay
  import Time

  // ------------------------------------------------------------------- resolving

  /** Secrets by client id: one each, or several while they are rotated. */
  datatype Secrets = Static(one: map<string, seq<byte>>) | Rotating(many: map<string, seq<seq<byte>>>) {
    function Ids(): (r: set<string>) {
      if Static? then one.Keys else many.Keys
    }

    function Versions(id: string): (r: seq<seq<byte>>)
      requires id in Ids()
    {
      if Static? then [one[id]] else many[id]
    }
  }

  /** What the resolver is asked: a route hint to match, or nothing. */
  datatype Meta = Meta(prefix: Prefix, serverPort: int, hint: Option<uint64>)

  predicate Matches(c: Primitives, meta: Meta, secret: seq<byte>) {
    && secret != []
    && (meta.hint.Some? ==> ComputeRouteHint(c, secret, meta.prefix, meta.serverPort) == meta.hint.value)
  }

  function OfVersions(c: Primitives, meta: Meta, id: string, versions: seq<seq<byte>>): (r: seq<Client>)
    ensures |r| <= |versions|
  {
    if versions == [] then []
    else (if Matches(c, meta, versions[0]) then [Client(id, versions[0])] else []) + OfVersions(c, meta, id, versions[1..])
  }

  /** The candidates, client by client in the order of `ids`. */
  function Resolved(c: Primitives, secrets: Secrets, meta: Meta, ids: seq<string>): (r: seq<Client>)
    requires forall id :: id in ids ==> id in secrets.Ids()
  {
    if ids == [] then []
    else OfVersions(c, meta, ids[0], secrets.Versions(ids[0])) + Resolved(c, secrets, meta, ids[1..])
  }

  function VersionCount(secrets: Secrets, ids: seq<string>): (n: nat)
    requires forall id :: id in ids ==> id in secrets.Ids()
  {
    if ids == [] then 0 else |secrets.Versions(ids[0])| + VersionCount(secrets, ids[1..])
  }

  lemma {:induction false} ResolvedAtMost(c: Primitives, secrets: Secrets, meta: Meta, ids: seq<string>)
    requires forall id :: id in ids ==> id in secrets.Ids()
    ensures |Resolved(c, secrets, meta, ids)| <= VersionCount(secrets, ids)
  {
    if ids != [] {
      ResolvedAtMost(c, secrets, meta, ids[1..]);
    }
  }

  /** The count does not depend on the order in which the map is walked. */
  lemma {:induction false} CountInAnyOrder(secrets: Secrets, ids: seq<string>, ids': seq<string>, keys: set<string>)
    requires Enumerates(ids, keys) && Enumerates(ids', keys) && keys <= secrets.Ids()
    ensures VersionCount(secrets, ids) == VersionCount(secrets, ids')
  {
    if ids != [] {
      var id := ids[0];
      EnumeratesAll(ids', keys, id);
      var k :| 0 <= k < |ids'| && ids'[k] == id;
      CountCut(secrets, ids', k);
      EnumeratesCut(ids, keys, 0);
      EnumeratesCut(ids', keys, k);
      assert Cut(ids, 0) == ids[1..];
      CountInAnyOrder(secrets, ids[1..], Cut(ids', k), keys - {id});
    }
  }

  lemma {:induction false} CountCut(secrets: Secrets, ids: seq<string>, k: nat)
    requires k < |ids| && forall id :: id in ids ==> id in secrets.Ids()
    ensures forall id :: id in Cut(ids, k) ==> id in secrets.Ids()
    ensures VersionCount(secrets, ids) == |secrets.Versions(ids[k])| + VersionCount(secrets, Cut(ids, k))
  {
    if k > 0 {
      CountCut(secrets, ids[1..], k - 1);
      assert Cut(ids, k) == [ids[0]] + Cut(ids[1..], k - 1);
    } else {
      assert Cut(ids, 0) == ids[1..];
    }
  }

  lemma ResolvedStep(c: Primitives, secrets: Secrets, meta: Meta, ids: seq<string>, i: nat, out: seq<Client>)
    requires i < |ids| && forall id :: id in ids ==> id in secrets.Ids()
    ensures out + Resolved(c, secrets, meta, ids[i..]) ==
            out + OfVersions(c, meta, ids[i], secrets.Versions(ids[i])) + Resolved(c, secrets, meta, ids[i + 1..])
  {
    hide OfVersions;
    assert ids[i..][1..] == ids[i + 1..];
  }

  lemma ResolvedEnd(c: Primitives, secrets: Secrets, meta: Meta, out: seq<Client>)
    ensures out + Resolved(c, secrets, meta, []) == out
  {
  }

  /** Walks the client ids, which the source sorts first. */
  method ResolveCandidates(c: Primitives, secrets: Secrets, meta: Meta, ids: seq<string>) returns (out: seq<Client>)
    requires Enumerates(ids, secrets.Ids())
    ensures out == Resolved(c, secrets, meta, ids)
  {
    EnumeratesOnly(ids, secrets.Ids());
    hide OfVersions, Resolved, Enumerates;
    out := [];
    assert ids[0..] == ids;
    for i := 0 to |ids|
      invariant out + Resolved(c, secrets, meta, ids[i..]) == Resolved(c, secrets, meta, ids)
    {
      var some := ResolveVersions(c, meta, ids[i], secrets.Versions(ids[i]));
      ResolvedStep(c, secrets, meta, ids, i, out);
      out := out + some;
    }
    assert ids[|ids|..] == [];
    ResolvedEnd(c, secrets, meta, out);
  }

  method ResolveVersions(c: Primitives, meta: Meta, id: string, versions: seq<seq<byte>>) returns (out: seq<Client>)
    ensures out == OfVersions(c, meta, id, versions)
  {
    hide ComputeRouteHint, OfVersions;
    out := [];
    assert versions[0..] == versions;
    for j := 0 to |versions|
      invariant out + OfVersions(c, meta, id, versions[j..]) == OfVersions(c, meta, id, versions)
    {
      VersionsStep(c, meta, id, versions, j, out);
      if |versions[j]| == 0 {
        continue;
      }
      if meta.hint.Some? && ComputeRouteHint(c, versions[j], meta.prefix, meta.serverPort) != meta.hint.value {
        continue;
      }
      out := out + [Client(id, versions[j])];
    }
    assert versions[|versions|..] == [];
    VersionsEnd(c, meta, id, out);
  }

  lemma VersionsStep(c: Primitives, meta: Meta, id: string, versions: seq<seq<byte>>, j: nat, out: seq<Client>)
    requires j < |versions|
    ensures out + OfVersions(c, meta, id, versions[j..]) ==
            (if Matches(c, meta, versions[j]) then out + [Client(id, versions[j])] else out) + OfVersions(c, meta, id, versions[j + 1..])
  {
    hide Matches;
    assert versions[j..][1..] == versions[j + 1..];
  }

  lemma VersionsEnd(c: Primitives, meta: Meta, id: string, out: seq<Client>)
    ensures out + OfVersions(c, meta, id, []) == out
  {
  }

  /** Counts in whatever order the map yields its keys. */
  method StaticCandidateCount(secrets: Secrets, ghost ids: seq<string>) returns (count: nat)
    requires Enumerates(ids, secrets.Ids())
    ensures count == VersionCount(secrets, ids)
  {
    var todo, walked: seq<string> := secrets.Ids(), [];
    count := 0;
    while todo != {}
      invariant Enumerates(walked, secrets.Ids() - todo) && todo <= secrets.Ids()
      invariant count == VersionCount(secrets, walked)
      decreases todo
    {
      var id :| id in todo;
      todo := todo - {id};
      ghost var before := walked;
      walked := walked + [id];
      CountCut(secrets, walked, |before|);
      assert Cut(walked, |before|) == before;
      count := count + |secrets.Versions(id)|;
    }
    CountInAnyOrder(secrets, ids, walked, secrets.Ids());
  }

  // --------------------------------------------------------------- configuration

  const FRAME_V1_HEADER_SIZE: int := 29
  const DEFAULT_MAX_FRAME_SIZE: int := 1024

  datatype Protocol = FrameV1 | EnvelopeV2

  datatype ServerConfig = ServerConfig(
    secrets: Secrets, hintMode: HintMode, buckets: seq<int>, maxFrameSize: int, maxAuthAttempts: int, timeWindow: int,
    preferred: Protocol, acceptV1: bool, acceptV2: bool)
  {
    /** An empty list of accepted protocols stands for the preferred one. */
    function WithDefaults(): (r: ServerConfig) {
      this.(maxFrameSize := if maxFrameSize <= 0 then DEFAULT_MAX_FRAME_SIZE else maxFrameSize,
            maxAuthAttempts := if maxAuthAttempts <= 0 then 64 else maxAuthAttempts,
            timeWindow := if timeWindow <= 0 then 30 * Time.SECOND else timeWindow,
            acceptV1 := acceptV1 || (!acceptV2 && preferred == FrameV1),
            acceptV2 := acceptV2 || (!acceptV1 && preferred == EnvelopeV2))
    }

    /** The envelope settings matter, also when envelopes are preferred but not accepted. */
    predicate ChecksV2() {
      preferred == EnvelopeV2 || acceptV2
    }
  }

  function FitsIn(maxFrameSize: int): (r: int -> bool) {
    b => b <= maxFrameSize
  }

  /** The number of decryptions a frame without a hint can cost at worst. */
  function NoneCost(cfg: ServerConfig, ids: seq<string>): (n: nat)
    requires Enumerates(ids, cfg.secrets.Ids())
  {
    VersionCount(cfg.secrets, ids) * |Filter(Chosen(cfg.buckets), FitsIn(cfg.maxFrameSize))|
  }

  method EnvelopeV2NoneAttemptCost(cfg: ServerConfig, ghost ids: seq<string>) returns (cost: nat)
    requires Enumerates(ids, cfg.secrets.Ids())
    ensures cost == NoneCost(cfg, ids)
  {
    hide VersionCount, Filter, Enumerates;
    var candidates := StaticCandidateCount(cfg.secrets, ids);
    if candidates == 0 {
      return 0;
    }
    var all := EnvelopeV2Buckets(cfg.buckets);
    var buckets := 0;
    FilterNone(FitsIn(cfg.maxFrameSize));
    for i := 0 to |all|
      invariant buckets == |Filter(all[..i], FitsIn(cfg.maxFrameSize))|
    {
      PassStep(all, i, FitsIn(cfg.maxFrameSize));
      if all[i] <= cfg.maxFrameSize {
        buckets := buckets + 1;
      }
    }
    assert all[..|all|] == all;
    return candidates * buckets;
  }

  lemma FilterNone(keep: int -> bool)
    ensures Filter([], keep) == []
  {
  }

  predicate BucketsFit(cfg: ServerConfig) {
    var all := if cfg.buckets == [] then DEFAULT_BUCKETS else cfg.buckets;
    forall b :: b in all ==> Supported(b) && b <= cfg.maxFrameSize
  }

  /** The configurations that pass. */
  ghost predicate Passes(cfg: ServerConfig, ids: seq<string>)
    requires Enumerates(ids, cfg.secrets.Ids())
  {
    && cfg.maxFrameSize >= FRAME_V1_HEADER_SIZE
    && (cfg.ChecksV2() ==> BucketsFit(cfg) && (cfg.hintMode == NoHint ==> NoneCost(cfg, ids) <= cfg.maxAuthAttempts))
  }

  method Validate(cfg0: ServerConfig, ghost ids: seq<string>) returns (ok: bool)
    requires Enumerates(ids, cfg0.secrets.Ids())
    ensures ok <==> Passes(cfg0.WithDefaults(), ids)
  {
    var cfg := cfg0.WithDefaults();
    if cfg.maxFrameSize < FRAME_V1_HEADER_SIZE {
      return false;
    }
    if cfg.ChecksV2() {
      if !BucketsFit(cfg) {
        return false;
      }
      if cfg.hintMode == NoHint {
        var cost := EnvelopeV2NoneAttemptCost(cfg, ids);
        if cost > cfg.maxAuthAttempts {
          return false;
        }
      }
    }
    return true;
  }

  // -------------------------------------------------------------- attempt budget

  lemma {:induction false} FilterWeaker(s: seq<int>, keep: int -> bool, more: int -> bool)
    requires forall x :: keep(x) ==> more(x)
    ensures |Filter(s, keep)| <= |Filter(s, more)|
  {
    if s != [] {
      FilterWeaker(s[1..], keep, more);
    }
  }

  function JobOf(c: Primitives, log: Log, cfg: ServerConfig, ids: seq<string>, h: Header, serverPort: int): (job: Job)
    requires Enumerates(ids, cfg.secrets.Ids())
  {
    Job(c, log, h, serverPort, cfg.maxFrameSize, cfg.maxAuthAttempts, Chosen(cfg.buckets),
        Resolved(c, cfg.secrets, MetaOf(cfg, h, serverPort), ids))
  }

  function MetaOf(cfg: ServerConfig, h: Header, serverPort: int): (m: Meta) {
    Meta(h.prefixRandom, serverPort, if cfg.hintMode == RouteHint then Some(h.routeHint) else None)
  }

  /** A validated server that tries every candidate never runs out of attempts, on any
      frame. */
  lemma NeverOutOfBudget(c: Primitives, log: Log, cfg: ServerConfig, ids: seq<string>, h: Header, serverPort: int,
                         rest: seq<byte>, s: Scan)
    requires Enumerates(ids, cfg.secrets.Ids()) && Passes(cfg, ids)
    requires cfg.acceptV2 && cfg.hintMode == NoHint && h.hintMode == NoHint
    requires Scanned(JobOf(c, log, cfg, ids, h, serverPort), rest, s)
    ensures !s.OutOfBudget?
    ensures |JobOf(c, log, cfg, ids, h, serverPort).candidates| <= cfg.maxAuthAttempts
  {
    hide Scanned, Resolved, VersionCount, Filter, Chosen, Usable, FitsIn;
    var job := JobOf(c, log, cfg, ids, h, serverPort);
    var tried, counted := |Filter(job.buckets, Usable(job))|, |Filter(job.buckets, FitsIn(cfg.maxFrameSize))|;
    UsableFits(job, cfg.maxFrameSize);
    ResolvedAtMost(c, cfg.secrets, MetaOf(cfg, h, serverPort), ids);
    SomeBucketFits(cfg);
    Products(|job.candidates|, VersionCount(cfg.secrets, ids), tried, counted);
    assert tried * |job.candidates| == |job.candidates| * tried;
    BudgetEnough(job, rest, s);
  }

  lemma UsableFits(job: Job, maxFrameSize: int)
    requires job.maxFrameSize == maxFrameSize
    ensures |Filter(job.buckets, Usable(job))| <= |Filter(job.buckets, FitsIn(maxFrameSize))|
  {
    FilterWeaker(job.buckets, Usable(job), FitsIn(maxFrameSize));
  }

  lemma Products(a: nat, b: nat, x: nat, y: nat)
    requires a <= b && x <= y && y >= 1
    ensures a * x <= b * y && a <= b * y
  {
    assert a * x <= b * x <= b * y;
    assert b * 1 <= b * y;
  }

  lemma SomeBucketFits(cfg: ServerConfig)
    requires BucketsFit(cfg)
    ensures |Filter(Chosen(cfg.buckets), FitsIn(cfg.maxFrameSize))| >= 1
  {
    ChosenMembers(cfg.buckets);
    var b := if cfg.buckets == [] then DEFAULT_BUCKETS[0] else cfg.buckets[0];
    assert b in Chosen(cfg.buckets);
    FilterMember(Chosen(cfg.buckets), FitsIn(cfg.maxFrameSize), b);
  }

  /** Every secret is a candidate when there is no hint to match. */
  lemma {:induction false} ResolvedAll(c: Primitives, secrets: Secrets, meta: Meta, ids: seq<string>)
    requires forall id :: id in ids ==> id in secrets.Ids() && forall v :: v in secrets.Versions(id) ==> v != []
    requires meta.hint == None
    ensures |Resolved(c, secrets, meta, ids)| == VersionCount(secrets, ids)
  {
    if ids != [] {
      AllVersions(c, meta, ids[0], secrets.Versions(ids[0]));
      ResolvedAll(c, secrets, meta, ids[1..]);
    }
  }

  lemma {:induction false} AllVersions(c: Primitives, meta: Meta, id: string, versions: seq<seq<byte>>)
    requires meta.hint == None && forall v :: v in versions ==> v != []
    ensures |OfVersions(c, meta, id, versions)| == |versions|
  {
    if versions != [] {
      assert versions[0] in versions && forall v :: v in versions[1..] ==> v in versions;
      AllVersions(c, meta, id, versions[1..]);
    }
  }

  const BLANK: Header := Header([0, 0, 0, 0, 0, 0, 0, 0, 0, 0, 0, 0, 0, 0, 0, 0, 0, 0, 0, 0, 0, 0, 0, 0], 0, 0, NoHint)

  /** A server at which nothing opens, whatever its configuration. */
  function BlankJob(c: Primitives, cfg: ServerConfig, ids: seq<string>): (job: Job)
    requires Enumerates(ids, cfg.secrets.Ids())
  {
    JobOf(c, map[], cfg, ids, BLANK, 1)
  }

  /** Every bucket is of use, and short enough for a stream of 512 bytes. */
  predicate AllOfUse(job: Job) {
    job.h.hintMode == NoHint && forall b :: b in job.buckets ==> 128 <= b <= 512 && b <= job.maxFrameSize
  }

  lemma NothingOpens(job: Job, rest: seq<byte>, i: nat, j: nat)
    requires job.log == map[] && i < |job.buckets| && j < |job.candidates| && AllOfUse(job) && |rest| >= 512
    ensures Fails(job, rest, i, j)
  {
    hide ClientIDHash, ParseBody, Aad, DeriveKey, ComputeRouteHint;
    assert job.buckets[i] in job.buckets;
  }

  lemma BlankBuckets(c: Primitives, cfg: ServerConfig, ids: seq<string>)
    requires Enumerates(ids, cfg.secrets.Ids()) && BucketsFit(cfg)
    ensures AllOfUse(BlankJob(c, cfg, ids))
    ensures |Filter(Chosen(cfg.buckets), FitsIn(cfg.maxFrameSize))| == |BlankJob(c, cfg, ids).buckets|
  {
    hide Chosen, Resolved, Enumerates, Supported;
    ChosenMembers(cfg.buckets);
    forall b | b in Chosen(cfg.buckets) ensures 128 <= b <= 512 && b <= cfg.maxFrameSize {
      SupportedSizes(b);
      assert cfg.buckets == [] ==> b in DEFAULT_BUCKETS;
    }
    FilterAll(Chosen(cfg.buckets), FitsIn(cfg.maxFrameSize));
  }

  lemma SupportedSizes(b: int)
    requires Supported(b)
    ensures 128 <= b <= 512 && b in DEFAULT_BUCKETS
  {
  }

  lemma OfUse(job: Job, b: int)
    requires AllOfUse(job) && b in job.buckets
    ensures Usable(job)(b)
  {
    assert PrefixLength(job.h.hintMode) + OVERHEAD == 40;
  }

  /** Attempt number `n` of a server at which nothing opens. */
  lemma AttemptNumber(job: Job, rest: seq<byte>, n: nat) returns (i: nat, j: nat)
    requires job.log == map[] && AllOfUse(job) && |rest| >= 512 && n < |job.candidates| * |job.buckets|
    ensures i < |job.buckets| && j < |job.candidates| && Usable(job)(job.buckets[i])
    ensures AttemptsBefore(job, i, j) == n && AllFailBefore(job, rest, i, j)
  {
    hide Filter, Fails;
    var k := |job.candidates|;
    i, j := n / k, n % k;
    Quotient(n, k, |job.buckets|);
    OfUse(job, job.buckets[i]);
    forall b | b in job.buckets[..i] ensures Usable(job)(b) {
      OfUse(job, b);
    }
    FilterAll(job.buckets[..i], Usable(job));
    forall x, y | 0 <= x < |job.buckets| && 0 <= y < k ensures Fails(job, rest, x, y) {
      NothingOpens(job, rest, x, y);
    }
  }

  lemma Quotient(n: nat, k: nat, m: nat)
    requires n < k * m && k > 0
    ensures n / k < m && n / k * k + n % k == n
  {
    if n / k >= m {
      Products(m, n / k, k, k);
    }
  }

  /** The validation of the attempt budget is exact: without empty secrets, it passes if and
      only if no frame can make the server run out of attempts. */
  lemma BudgetIff(c: Primitives, cfg: ServerConfig, ids: seq<string>)
    requires Enumerates(ids, cfg.secrets.Ids()) && BucketsFit(cfg) && cfg.maxAuthAttempts >= 0
    requires cfg.maxFrameSize >= FRAME_V1_HEADER_SIZE && cfg.acceptV2 && cfg.hintMode == NoHint
    requires forall id :: id in cfg.secrets.Ids() ==> forall v :: v in cfg.secrets.Versions(id) ==> v != []
    ensures Passes(cfg, ids) <==>
            forall log, h: Header, serverPort, rest, s ::
              h.hintMode == NoHint && Scanned(JobOf(c, log, cfg, ids, h, serverPort), rest, s) ==> !s.OutOfBudget?
  {
    hide Scanned, Resolved, VersionCount, Chosen, Enumerates, BucketsFit, NoneCost;
    if Passes(cfg, ids) {
      forall log, h: Header, serverPort, rest, s | h.hintMode == NoHint && Scanned(JobOf(c, log, cfg, ids, h, serverPort), rest, s)
        ensures !s.OutOfBudget?
      {
        NeverOutOfBudget(c, log, cfg, ids, h, serverPort, rest, s);
      }
    } else {
      var rest, s := RunsOut(c, cfg, ids);
      assert Scanned(JobOf(c, map[], cfg, ids, BLANK, 1), rest, s);
    }
  }

  lemma RunsOut(c: Primitives, cfg: ServerConfig, ids: seq<string>) returns (rest: seq<byte>, s: Scan)
    requires Enumerates(ids, cfg.secrets.Ids()) && BucketsFit(cfg) && 0 <= cfg.maxAuthAttempts < NoneCost(cfg, ids) && cfg.hintMode == NoHint
    requires forall id :: id in cfg.secrets.Ids() ==> forall v :: v in cfg.secrets.Versions(id) ==> v != []
    ensures s.OutOfBudget? && Scanned(BlankJob(c, cfg, ids), rest, s)
  {
    hide Resolved, VersionCount, Filter, Chosen, Enumerates, BucketsFit, FitsIn, AllFailBefore, AttemptsBefore, AllOfUse;
    var job := BlankJob(c, cfg, ids);
    EnumeratesOnly(ids, cfg.secrets.Ids());
    ResolvedAll(c, cfg.secrets, MetaOf(cfg, BLANK, 1), ids);
    BlankBuckets(c, cfg, ids);
    rest := seq(512, i => 0);
    var i, j := AttemptNumber(job, rest, cfg.maxAuthAttempts);
    s := OutOfBudget(i, j);
  }

  // --------------------------------------------------------- checking the peer

  datatype Failure =
    | ReadFailed | UnknownClient | TooManyCandidates | AuthFailed | TimeSkew | ReplayDetected | ReplayCacheFull

  /** The peer, if one was found, and why it is refused, if it is. */
  datatype AuthResult = AuthResult(peer: Option<Peer>, failure: Option<Failure>)

  const MILLISECOND: int := 1_000_000

  predicate InWindow(timestampMS: int, window: int, now: int) {
    -window <= now - timestampMS * MILLISECOND <= window
  }

  predicate PortFits(peer: Peer, serverPort: int) {
    serverPort <= 0 || peer.serverPort == serverPort
  }

  /** The peer gets as far as the replay cache. */
  predicate Reaches(cfg: ServerConfig, peer: Peer, serverPort: int, checkedAt: int) {
    PortFits(peer, serverPort) && InWindow(peer.timestampMS, cfg.timeWindow, checkedAt)
  }

  function PeerKey(peer: Peer): (r: string) {
    Replay.ReplayKey(peer.clientID, peer.nonce)
  }

  /** Why a peer is refused, if it is: port, time window, replay, in this order. */
  function PeerFailure(cfg: ServerConfig, peer: Peer, serverPort: int, marks: Replay.Marks, limit: int,
                       checkedAt: int, markedAt: int): (why: Option<Failure>) {
    if !PortFits(peer, serverPort) then Some(AuthFailed)
    else if !InWindow(peer.timestampMS, cfg.timeWindow, checkedAt) then Some(TimeSkew)
    else
      match Replay.Decide(marks, limit, PeerKey(peer), markedAt)
      case Accepted => None
      case ReplayDetected => Some(ReplayDetected)
      case CacheFull => Some(ReplayCacheFull)
  }

  /** A peer with the wrong port or outside the window leaves no mark. */
  function MarksAfterPeer(cfg: ServerConfig, peer: Peer, serverPort: int, marks: Replay.Marks, limit: int, ttl: int,
                          checkedAt: int, markedAt: int): (r: Replay.Marks) {
    if Reaches(cfg, peer, serverPort, checkedAt) then Replay.Marked(marks, limit, ttl, PeerKey(peer), markedAt) else marks
  }

  /** The clock is read once for the window and once for the mark. */
  method ValidatePeerCommon(cfg: ServerConfig, peer: Peer, serverPort: int, replay: Replay.MemoryReplayCache,
                            checkedAt: int, markedAt: int) returns (why: Option<Failure>)
    requires replay.Valid() && replay.clock <= markedAt
    modifies replay, replay.entries
    ensures replay.Valid() && replay.clock <= markedAt
    ensures why == PeerFailure(cfg, peer, serverPort, old(replay.marks), replay.maxEntries, checkedAt, markedAt)
    ensures replay.marks == MarksAfterPeer(cfg, peer, serverPort, old(replay.marks), replay.maxEntries, replay.ttl, checkedAt, markedAt)
  {
    hide Replay.Agree, Replay.ReplayKey;
    if serverPort > 0 && peer.serverPort != serverPort {
      return Some(AuthFailed);
    }
    var age := checkedAt - peer.timestampMS * MILLISECOND;
    if age < -cfg.timeWindow || age > cfg.timeWindow {
      return Some(TimeSkew);
    }
    var r := replay.CheckAndMark(peer.clientID, peer.nonce, markedAt);
    match r
    case Accepted => return None;
    case ReplayDetected => return Some(ReplayDetected);
    case CacheFull => return Some(ReplayCacheFull);
  }

  // ----------------------------------------------------- freshness of connections

  /** A peer that was found, with the two clock readings. */
  datatype Reception = Reception(peer: Peer, checkedAt: int, markedAt: int)

  function DeliveryOf(serverPort: int, r: Reception): (d: Freshness.Delivery) {
    Freshness.Delivery(PortFits(r.peer, serverPort), PeerKey(r.peer), r.peer.timestampMS * MILLISECOND, r.checkedAt, r.markedAt)
  }

  function DeliveriesOf(serverPort: int, rs: seq<Reception>): (ds: seq<Freshness.Delivery>)
    ensures |ds| == |rs| && forall i :: 0 <= i < |rs| ==> ds[i] == DeliveryOf(serverPort, rs[i])
  {
    seq(|rs|, i requires 0 <= i < |rs| => DeliveryOf(serverPort, rs[i]))
  }

  /** Checking a peer is a delivery: accepted alike, marked alike. */
  lemma PeerIsDelivery(cfg: ServerConfig, serverPort: int, marks: Replay.Marks, limit: int, ttl: int, r: Reception)
    ensures var d := DeliveryOf(serverPort, r);
            && (PeerFailure(cfg, r.peer, serverPort, marks, limit, r.checkedAt, r.markedAt) == None <==>
                Freshness.Within(d, cfg.timeWindow) && Replay.Decide(marks, limit, d.key, d.markedAt) == Replay.Accepted)
            && MarksAfterPeer(cfg, r.peer, serverPort, marks, limit, ttl, r.checkedAt, r.markedAt) ==
               if Freshness.Within(d, cfg.timeWindow) then Replay.Marked(marks, limit, ttl, d.key, d.markedAt) else marks
  {
    hide Replay.Decide, Replay.Marked, Replay.ReplayKey;
  }

  /** Why reception `j` of a run is refused, if it is. */
  function FailureAt(cfg: ServerConfig, serverPort: int, limit: int, ttl: int, rs: seq<Reception>, j: nat): (why: Option<Failure>)
    requires j < |rs|
  {
    PeerFailure(cfg, rs[j].peer, serverPort, MarksBefore(cfg, serverPort, limit, ttl, rs, j), limit, rs[j].checkedAt, rs[j].markedAt)
  }

  function MarksBefore(cfg: ServerConfig, serverPort: int, limit: int, ttl: int, rs: seq<Reception>, j: nat): (marks: Replay.Marks)
    requires j < |rs|
  {
    Freshness.MarksAfterDeliveries(cfg.timeWindow, limit, ttl, DeliveriesOf(serverPort, rs)[..j])
  }

  /** Reception `i` was accepted less than `ttl` before reception `j` would be marked. */
  predicate AcceptedRecently(cfg: ServerConfig, serverPort: int, limit: int, ttl: int, rs: seq<Reception>, i: nat, j: nat) {
    i < j < |rs| && FailureAt(cfg, serverPort, limit, ttl, rs, i) == None && rs[j].markedAt < rs[i].markedAt + ttl
  }

  function RecentPeers(cfg: ServerConfig, serverPort: int, limit: int, ttl: int, rs: seq<Reception>, j: nat): (keys: set<string>)
    requires j < |rs|
  {
    set i | 0 <= i < j && AcceptedRecently(cfg, serverPort, limit, ttl, rs, i, j) :: PeerKey(rs[i].peer)
  }

  predicate SameSender(a: Peer, b: Peer) {
    a.clientID == b.clientID && a.nonce == b.nonce
  }

  /** Every refusal is exact, in every run: the wrong port, a timestamp further from the clock
      than the window, a sender and nonce accepted less than `ttl` before, or as many of
      those as the cache may hold, in this order. */
  lemma FailureIff(cfg: ServerConfig, serverPort: int, limit: int, ttl: int, delay: int, rs: seq<Reception>, j: nat)
    requires Freshness.Orderly(DeliveriesOf(serverPort, rs), delay) && j < |rs|
    ensures var peer, why := rs[j].peer, FailureAt(cfg, serverPort, limit, ttl, rs, j);
            var age := rs[j].checkedAt - peer.timestampMS * 1_000_000;
            var portOk, timeOk := serverPort <= 0 || peer.serverPort == serverPort, age <= cfg.timeWindow && -age <= cfg.timeWindow;
            var again := exists i: nat :: AcceptedRecently(cfg, serverPort, limit, ttl, rs, i, j) && SameSender(rs[i].peer, peer);
            var full := |RecentPeers(cfg, serverPort, limit, ttl, rs, j)| >= limit;
            && (why == Some(AuthFailed) <==> !portOk)
            && (why == Some(TimeSkew) <==> portOk && !timeOk)
            && (why == Some(ReplayDetected) <==> portOk && timeOk && again)
            && (why == Some(ReplayCacheFull) <==> portOk && timeOk && !again && full)
            && (why == None <==> portOk && timeOk && !again && !full)
  {
    hide Freshness.Orderly, Freshness.MarksAfterDeliveries, Replay.ReplayKey, RecentPeers, AcceptedRecently, Freshness.RecentlyAccepted;
    LiveIsRecentPeers(cfg, serverPort, limit, ttl, delay, rs, j);
    RecentSender(cfg, serverPort, limit, ttl, rs, j);
  }

  lemma RecentSender(cfg: ServerConfig, serverPort: int, limit: int, ttl: int, rs: seq<Reception>, j: nat)
    requires j < |rs|
    ensures PeerKey(rs[j].peer) in RecentPeers(cfg, serverPort, limit, ttl, rs, j) <==>
            exists i: nat :: AcceptedRecently(cfg, serverPort, limit, ttl, rs, i, j) && SameSender(rs[i].peer, rs[j].peer)
  {
    hide FailureAt;
    forall i: nat | AcceptedRecently(cfg, serverPort, limit, ttl, rs, i, j)
      ensures PeerKey(rs[i].peer) == PeerKey(rs[j].peer) <==> SameSender(rs[i].peer, rs[j].peer)
    {
      SameKeyIffSameSender(rs[i].peer, rs[j].peer);
    }
  }

  lemma SameKeyIffSameSender(a: Peer, b: Peer)
    ensures PeerKey(a) == PeerKey(b) <==> SameSender(a, b)
  {
    if PeerKey(a) == PeerKey(b) {
      Replay.ReplayKeyInjective(a.clientID, a.nonce, b.clientID, b.nonce);
    }
  }

  lemma AcceptedIsAcceptedAt(cfg: ServerConfig, serverPort: int, limit: int, ttl: int, rs: seq<Reception>, i: nat)
    requires i < |rs|
    ensures FailureAt(cfg, serverPort, limit, ttl, rs, i) == None <==>
            Freshness.AcceptedAt(cfg.timeWindow, limit, ttl, DeliveriesOf(serverPort, rs), i)
  {
    hide PeerFailure, Replay.Decide, Freshness.Within, PeerKey, Freshness.MarksAfterDeliveries;
    PeerIsDelivery(cfg, serverPort, MarksBefore(cfg, serverPort, limit, ttl, rs, i), limit, ttl, rs[i]);
  }

  lemma LiveIsRecentPeers(cfg: ServerConfig, serverPort: int, limit: int, ttl: int, delay: int, rs: seq<Reception>, j: nat)
    requires Freshness.Orderly(DeliveriesOf(serverPort, rs), delay) && j < |rs|
    ensures Replay.LiveMarks(MarksBefore(cfg, serverPort, limit, ttl, rs, j), rs[j].markedAt).Keys ==
            RecentPeers(cfg, serverPort, limit, ttl, rs, j)
  {
    hide Freshness.Orderly, Freshness.MarksAfterDeliveries, Freshness.AcceptedAt, FailureAt, PeerKey;
    var ds := DeliveriesOf(serverPort, rs);
    Freshness.LiveIffRecent(cfg.timeWindow, limit, ttl, delay, ds, j);
    forall i | 0 <= i < j
      ensures FailureAt(cfg, serverPort, limit, ttl, rs, i) == None <==> Freshness.AcceptedAt(cfg.timeWindow, limit, ttl, ds, i)
    {
      AcceptedIsAcceptedAt(cfg, serverPort, limit, ttl, rs, i);
    }
    assert Freshness.RecentlyAccepted(cfg.timeWindow, limit, ttl, ds, j) == RecentPeers(cfg, serverPort, limit, ttl, rs, j);
  }

  /** No run of a server with delays below `delay` accepts the same peer twice. */
  ghost predicate NeverTwice(cfg: ServerConfig, serverPort: int, limit: int, ttl: int, delay: int) {
    forall rs: seq<Reception>, i: nat, j: nat ::
      Freshness.Orderly(DeliveriesOf(serverPort, rs), delay) && i < j < |rs| && rs[i].peer == rs[j].peer ==>
      !(Freshness.AcceptedAt(cfg.timeWindow, limit, ttl, DeliveriesOf(serverPort, rs), i)
        && Freshness.AcceptedAt(cfg.timeWindow, limit, ttl, DeliveriesOf(serverPort, rs), j))
  }

  /** The exact lifetime that connections need: marks must outlive the whole window by the
      delay between the check and the mark. */
  lemma ServerFreshIff(cfg: ServerConfig, serverPort: int, limit: int, ttl: int, delay: int, peer: Peer)
    requires cfg.timeWindow > 0 && limit >= 1 && delay >= 1 && PortFits(peer, serverPort)
    ensures NeverTwice(cfg, serverPort, limit, ttl, delay) <==> delay <= ttl - 2 * cfg.timeWindow
  {
    hide Freshness.Orderly, Freshness.AcceptedAt, Replay.ReplayKey;
    var w := cfg.timeWindow;
    if delay <= ttl - 2 * w {
      forall rs: seq<Reception>, i: nat, j: nat
        | Freshness.Orderly(DeliveriesOf(serverPort, rs), delay) && i < j < |rs| && rs[i].peer == rs[j].peer
        ensures !(Freshness.AcceptedAt(w, limit, ttl, DeliveriesOf(serverPort, rs), i)
                  && Freshness.AcceptedAt(w, limit, ttl, DeliveriesOf(serverPort, rs), j))
      {
        Freshness.AcceptedOnce(w, limit, ttl, delay, DeliveriesOf(serverPort, rs), i, j);
      }
    } else {
      var stamp := peer.timestampMS * MILLISECOND;
      Freshness.TwiceIsAcceptedTwice(PeerKey(peer), stamp, w, limit, ttl, delay);
      var ds := Freshness.Twice(PeerKey(peer), stamp, w, ttl);
      var rs := [Reception(peer, ds[0].checkedAt, ds[0].markedAt), Reception(peer, ds[1].checkedAt, ds[1].markedAt)];
      assert DeliveriesOf(serverPort, rs) == ds;
      assert rs[0].peer == rs[1].peer;
    }
  }

  /** The lifetime of marks when no cache is configured. */
  function DefaultLifetime(cfg: ServerConfig): (ttl: int) {
    2 * cfg.timeWindow
  }

  /** The default lifetime is too short, by any delay at all: a peer that is accepted at the
      very start of its window is accepted again at the very end. */
  lemma DefaultLifetimeTooShort(cfg: ServerConfig, serverPort: int, limit: int, delay: int, peer: Peer)
    requires cfg.timeWindow > 0 && limit >= 1 && delay >= 1 && PortFits(peer, serverPort)
    ensures !NeverTwice(cfg, serverPort, limit, DefaultLifetime(cfg), delay)
  {
    ServerFreshIff(cfg, serverPort, limit, DefaultLifetime(cfg), delay, peer);
  }

  // ----------------------------------------------------------------- the envelope

  /** The header as the server reads it from the first bytes. */
  function HeaderOf(start: seq<byte>, mode: HintMode): (h: Header)
    requires |start| == PrefixLength(mode)
  {
    Header(start[..24], if mode == RouteHint then FromU64(start[24..]) else 0, 0, mode)
  }

  lemma HeaderReadBack(h: Header)
    ensures |h.prefixRandom + Hint(h)| == PrefixLength(h.hintMode)
    ensures h.hintMode == NoHint ==> h.routeHint == 0 ==> HeaderOf(h.prefixRandom + Hint(h), h.hintMode) == h.(bucketSize := 0)
    ensures h.hintMode == RouteHint ==> HeaderOf(h.prefixRandom + Hint(h), h.hintMode) == h.(bucketSize := 0)
  {
    hide U64, FromU64;
    var start := h.prefixRandom + Hint(h);
    assert start[..24] == h.prefixRandom && start[24..] == Hint(h);
    U64RoundTrip(h.routeHint);
  }

  /** The envelope is complete at the front of the stream, and the server would accept
      its sender as attempt (i, j). */
  ghost predicate Delivered(c: Primitives, log: Log, cfg: ServerConfig, ids: seq<string>, serverPort: int,
                            bytes: seq<byte>, sent: Sent, i: nat, j: nat)
    requires Enumerates(ids, cfg.secrets.Ids())
  {
    && sent.built.frame <= bytes && sent.cfg.hintMode == cfg.hintMode && |bytes| >= PrefixLength(cfg.hintMode)
    && var n := PrefixLength(cfg.hintMode);
       var job := JobOf(c, log, cfg, ids, HeaderOf(bytes[..n], cfg.hintMode), serverPort);
       && Arrives(job, bytes[n..], sent, i, j)
       && (cfg.hintMode == NoHint ==> |job.candidates| <= cfg.maxAuthAttempts)
  }

  /** Whoever's secret the server knows is among the candidates for the own envelope. */
  lemma {:induction false} KnownIsResolved(c: Primitives, secrets: Secrets, meta: Meta, ids: seq<string>, who: Client)
    requires forall id :: id in ids ==> id in secrets.Ids()
    requires who.clientID in ids && who.secret in secrets.Versions(who.clientID) && Matches(c, meta, who.secret)
    ensures who in Resolved(c, secrets, meta, ids)
  {
    hide Matches;
    if ids[0] == who.clientID {
      VersionIsResolved(c, meta, who, secrets.Versions(ids[0]));
    } else {
      assert who.clientID in ids[1..];
      KnownIsResolved(c, secrets, meta, ids[1..], who);
    }
  }

  lemma {:induction false} VersionIsResolved(c: Primitives, meta: Meta, who: Client, versions: seq<seq<byte>>)
    requires who.secret in versions && Matches(c, meta, who.secret)
    ensures who in OfVersions(c, meta, who.clientID, versions)
  {
    hide Matches;
    if versions[0] != who.secret {
      assert who.secret in versions[1..];
      VersionIsResolved(c, meta, who, versions[1..]);
    }
  }

  /** What it takes: the client's secret is configured, its bucket is one the server
      uses, and the budget allows every candidate on every usable bucket, which for
      servers without hints validation guarantees. */
  ghost predicate Welcome(c: Primitives, log: Log, cfg: ServerConfig, ids: seq<string>, serverPort: int,
                          bytes: seq<byte>, sent: Sent)
    requires Enumerates(ids, cfg.secrets.Ids())
  {
    && sent.built.frame <= bytes && sent.cfg.hintMode == cfg.hintMode && serverPort == sent.q.serverPort
    && sent.who.clientID in ids && sent.who.secret in cfg.secrets.Versions(sent.who.clientID)
    && var job := JobOf(c, log, cfg, ids, sent.built.header, serverPort);
       && Genuine(c, log, job.candidates, sent)
       && sent.built.header.bucketSize in job.buckets
       && PrefixLength(cfg.hintMode) + OVERHEAD <= sent.built.header.bucketSize <= cfg.maxFrameSize
       && |Filter(job.buckets, Usable(job))| * |job.candidates| <= cfg.maxAuthAttempts
       && (cfg.hintMode == NoHint ==> |job.candidates| <= cfg.maxAuthAttempts)
  }

  /** Such an envelope is delivered: some attempt within the budget is the sender's. */
  lemma WelcomeIsDelivered(c: Primitives, log: Log, cfg: ServerConfig, ids: seq<string>, serverPort: int,
                           bytes: seq<byte>, sent: Sent) returns (i: nat, j: nat)
    requires Enumerates(ids, cfg.secrets.Ids()) && Welcome(c, log, cfg, ids, serverPort, bytes, sent)
    ensures Delivered(c, log, cfg, ids, serverPort, bytes, sent, i, j)
  {
    hide Genuine, Resolved, Filter, Chosen, Enumerates, Matches;
    var h, n := sent.built.header, PrefixLength(cfg.hintMode);
    var known := JobOf(c, log, cfg, ids, h, serverPort);
    HeaderArrives(c, log, known.candidates, sent, bytes, n);
    var job := JobOf(c, log, cfg, ids, HeaderOf(bytes[..n], cfg.hintMode), serverPort);
    assert job == known.(h := h.(bucketSize := 0));
    SenderMatches(c, log, cfg, known.candidates, sent);
    EnumeratesOnly(ids, cfg.secrets.Ids());
    KnownIsResolved(c, cfg.secrets, MetaOf(cfg, h, serverPort), ids, sent.who);
    i :| 0 <= i < |job.buckets| && job.buckets[i] == h.bucketSize;
    j :| 0 <= j < |job.candidates| && job.candidates[j] == sent.who;
    ChosenMembers(cfg.buckets);
    SameUsable(job, known);
    WithinBudget(job, i, j);
  }

  lemma SameUsable(job: Job, known: Job)
    requires job == known.(h := job.h) && job.h.hintMode == known.h.hintMode
    ensures |Filter(job.buckets, Usable(job))| == |Filter(known.buckets, Usable(known))|
  {
    FilterWeaker(job.buckets, Usable(job), Usable(known));
    FilterWeaker(job.buckets, Usable(known), Usable(job));
  }

  lemma EnumeratesOnly(ids: seq<string>, keys: set<string>)
    requires Enumerates(ids, keys)
    ensures forall id :: id in ids ==> id in keys
  {
  }

  lemma SenderMatches(c: Primitives, log: Log, cfg: ServerConfig, candidates: seq<Client>, sent: Sent)
    requires Genuine(c, log, candidates, sent) && sent.cfg.hintMode == cfg.hintMode
    ensures Matches(c, MetaOf(cfg, sent.built.header, sent.q.serverPort), sent.who.secret)
    ensures sent.built.header.hintMode == cfg.hintMode
  {
    hide ParseBody, Aad, DeriveKey, ClientIDHash, ComputeRouteHint, Hint;
  }

  lemma HeaderArrives(c: Primitives, log: Log, candidates: seq<Client>, sent: Sent, bytes: seq<byte>, n: nat)
    requires Genuine(c, log, candidates, sent) && sent.built.frame <= bytes && n == PrefixLength(sent.cfg.hintMode)
    ensures n <= |sent.built.frame| && SealedPart(sent) <= bytes[n..]
    ensures HeaderOf(bytes[..n], sent.cfg.hintMode) == sent.built.header.(bucketSize := 0)
  {
    hide ParseBody, Aad, DeriveKey, ClientIDHash, ComputeRouteHint, Hint, U64, FromU64;
    HeaderReadBack(sent.built.header);
    assert bytes[..n] == sent.built.frame[..n];
  }

  lemma SealedSize(job: Job, rest: seq<byte>, sent: Sent, i: nat, j: nat)
    requires Arrives(job, rest, sent, i, j)
    ensures |sent.built.frame| == job.buckets[i] && sent.cfg.hintMode == job.h.hintMode
    ensures |sent.built.frame| >= PrefixLength(sent.cfg.hintMode)
    ensures |SealedPart(sent)| == job.buckets[i] - PrefixLength(sent.cfg.hintMode)
    ensures job.candidates != []
  {
    SealedLength(job.c, job.log, job.candidates, sent);
  }

  /** Only configured secrets that match are candidates. */
  lemma {:induction false} ResolvedIsKnown(c: Primitives, secrets: Secrets, meta: Meta, ids: seq<string>, who: Client)
    requires forall id :: id in ids ==> id in secrets.Ids()
    requires who in Resolved(c, secrets, meta, ids)
    ensures who.clientID in ids && who.secret in secrets.Versions(who.clientID) && Matches(c, meta, who.secret)
  {
    hide Matches;
    var first := OfVersions(c, meta, ids[0], secrets.Versions(ids[0]));
    if who in first {
      ResolvedIsVersion(c, meta, ids[0], secrets.Versions(ids[0]), who);
    } else {
      ResolvedIsKnown(c, secrets, meta, ids[1..], who);
    }
  }

  lemma {:induction false} ResolvedIsVersion(c: Primitives, meta: Meta, id: string, versions: seq<seq<byte>>, who: Client)
    requires who in OfVersions(c, meta, id, versions)
    ensures who.clientID == id && who.secret in versions && Matches(c, meta, who.secret)
  {
    hide Matches;
    if !(Matches(c, meta, versions[0]) && who == Client(id, versions[0])) {
      ResolvedIsVersion(c, meta, id, versions[1..], who);
    }
  }

  /** The bytes after the prefix, up to a bucket size, were sealed with `secret` for this
      header and port, and what was sealed names the client of `peer` and is what `peer`
      says. With route hints the prefix carries the hint of `secret`. */
  ghost predicate SealedWith(c: Primitives, log: Log, cfg: ServerConfig, serverPort: int, bytes: seq<byte>, bucket: int,
                             secret: seq<byte>, peer: Peer) {
    var n := PrefixLength(cfg.hintMode);
    && n <= bucket <= |bytes| && bucket in Chosen(cfg.buckets) && bucket <= cfg.maxFrameSize
    && |secret| >= MIN_SECRET_SIZE && peer.clientID != "" && peer.nonce == bytes[..24]
    && var h := HeaderOf(bytes[..n], cfg.hintMode).(bucketSize := bucket);
       && BoxOf(c, secret, h, serverPort, bytes[n..bucket]) in log
       && (cfg.hintMode == RouteHint ==> FromU64(bytes[24..32]) == ComputeRouteHint(c, secret, bytes[..24], serverPort))
       && ParseBody(log[BoxOf(c, secret, h, serverPort, bytes[n..bucket])]).Some?
       && var p := ParseBody(log[BoxOf(c, secret, h, serverPort, bytes[n..bucket])]).value;
          && p.clientIDHash == ClientIDHash(c, secret, peer.clientID)
          && peer.timestampMS == p.timestampMS && peer.serverPort == p.serverPort && peer.methodName == p.methodName
          && peer.sessionID == p.sessionID && peer.extensions == p.extensions && peer.flags == p.flags
  }

  ghost predicate SealedByKnown(c: Primitives, log: Log, cfg: ServerConfig, serverPort: int, bytes: seq<byte>, peer: Peer) {
    && peer.clientID in cfg.secrets.Ids()
    && exists secret, bucket ::
         secret in cfg.secrets.Versions(peer.clientID) && SealedWith(c, log, cfg, serverPort, bytes, bucket, secret, peer)
  }

  lemma FoundIsSealed(c: Primitives, log: Log, cfg: ServerConfig, ids: seq<string>, serverPort: int, bytes: seq<byte>,
                      i: nat, j: nat, peer: Peer)
    requires Enumerates(ids, cfg.secrets.Ids()) && |bytes| >= PrefixLength(cfg.hintMode)
    requires var n := PrefixLength(cfg.hintMode);
             Scanned(JobOf(c, log, cfg, ids, HeaderOf(bytes[..n], cfg.hintMode), serverPort), bytes[n..], Found(i, j, peer))
    ensures SealedByKnown(c, log, cfg, serverPort, bytes, peer)
  {
    hide Resolved, Enumerates, Chosen, ParseBody, Aad, DeriveKey, ClientIDHash, ComputeRouteHint, Matches, FromU64;
    var n := PrefixLength(cfg.hintMode);
    var job := JobOf(c, log, cfg, ids, HeaderOf(bytes[..n], cfg.hintMode), serverPort);
    var who, bucket := job.candidates[j], job.buckets[i];
    EnumeratesOnly(ids, cfg.secrets.Ids());
    ResolvedIsKnown(c, cfg.secrets, MetaOf(cfg, job.h, serverPort), ids, who);
    assert bytes[n..][..bucket - n] == bytes[n..bucket];
    assert bytes[..n][..24] == bytes[..24];
    if cfg.hintMode == RouteHint {
      assert bytes[..n][24..] == bytes[24..32];
    }
    assert SealedWith(c, log, cfg, serverPort, bytes, bucket, who.secret, peer);
  }

  /** Why no peer is found. */
  ghost predicate NoPeer(c: Primitives, log: Log, cfg: ServerConfig, ids: seq<string>, serverPort: int, bytes: seq<byte>, why: Failure)
    requires Enumerates(ids, cfg.secrets.Ids())
  {
    var n := PrefixLength(cfg.hintMode);
    if |bytes| < n then why == ReadFailed
    else
      var job := JobOf(c, log, cfg, ids, HeaderOf(bytes[..n], cfg.hintMode), serverPort);
      if job.candidates == [] then why == UnknownClient
      else if cfg.hintMode == NoHint && |job.candidates| > cfg.maxAuthAttempts then why == TooManyCandidates
      else
        || (why == AuthFailed && Scanned(job, bytes[n..], Exhausted))
        || (why == ReadFailed && exists i :: Scanned(job, bytes[n..], EndOfStream(i)))
        || (why == TooManyCandidates && exists i, j :: Scanned(job, bytes[n..], OutOfBudget(i, j)))
  }

  method AuthenticateEnvelopeV2(c: Primitives, log: Log, br: Reader, cfg: ServerConfig, ids: seq<string>, serverPort: int,
                                replay: Replay.MemoryReplayCache, checkedAt: int, markedAt: int) returns (r: AuthResult)
    requires Enumerates(ids, cfg.secrets.Ids())
    requires br.Valid() && br.demanded <= br.pos + 1
    requires replay.Valid() && replay.clock <= markedAt
    modifies br, replay, replay.entries
    ensures br.Valid() && replay.Valid() && replay.clock <= markedAt
    ensures r.peer.None? ==> replay.marks == old(replay.marks) && r.failure.Some?
    ensures r.peer.None? ==> NoPeer(c, log, cfg, ids, serverPort, old(br.Rest()), r.failure.value)
    ensures r.peer.Some? ==> SealedByKnown(c, log, cfg, serverPort, old(br.Rest()), r.peer.value)
    ensures r.peer.Some? ==>
              && r.failure == PeerFailure(cfg, r.peer.value, serverPort, old(replay.marks), replay.maxEntries, checkedAt, markedAt)
              && replay.marks ==
                 MarksAfterPeer(cfg, r.peer.value, serverPort, old(replay.marks), replay.maxEntries, replay.ttl, checkedAt, markedAt)
    ensures forall sent, i, j :: Delivered(c, log, cfg, ids, serverPort, old(br.Rest()), sent, i, j) ==>
              && br.pos == old(br.pos) + |sent.built.frame|
              && br.demanded == br.pos
              && r.peer == Some(SentPeer(sent))
    ensures forall sent :: Welcome(c, log, cfg, ids, serverPort, old(br.Rest()), sent) ==>
              && br.pos == old(br.pos) + |sent.built.frame|
              && br.demanded == br.pos
              && r.peer == Some(SentPeer(sent))
  {
    hide Welcome, Arrives, Scanned, Resolved, Chosen, Enumerates, Replay.Agree, SentPeer, PeerFailure, MarksAfterPeer,
         Replay.MemoryReplayCache.Valid, SealedByKnown;
    var n := PrefixLength(cfg.hintMode);
    ghost var bytes := br.Rest();
    forall sent | Welcome(c, log, cfg, ids, serverPort, bytes, sent)
      ensures exists i, j :: Delivered(c, log, cfg, ids, serverPort, bytes, sent, i, j)
    {
      var i, j := WelcomeIsDelivered(c, log, cfg, ids, serverPort, bytes, sent);
    }
    var start := br.ReadFull(n);
    if start.None? {
      return AuthResult(None, Some(ReadFailed));
    }
    var h := HeaderOf(start.value, cfg.hintMode);
    var candidates := ResolveCandidates(c, cfg.secrets, MetaOf(cfg, h, serverPort), ids);
    assert bytes[..n] == start.value && br.Rest() == bytes[n..];
    forall sent, i, j | Delivered(c, log, cfg, ids, serverPort, bytes, sent, i, j) ensures candidates != [] {
      SealedSize(JobOf(c, log, cfg, ids, h, serverPort), br.Rest(), sent, i, j);
    }
    if candidates == [] {
      return AuthResult(None, Some(UnknownClient));
    }
    if cfg.hintMode == NoHint && |candidates| > cfg.maxAuthAttempts {
      return AuthResult(None, Some(TooManyCandidates));
    }
    var buckets := EnvelopeV2Buckets(cfg.buckets);
    var job := Job(c, log, h, serverPort, cfg.maxFrameSize, cfg.maxAuthAttempts, buckets, candidates);
    assert job == JobOf(c, log, cfg, ids, h, serverPort);
    var s := TryAll(job, br);
    forall sent, i, j | Delivered(c, log, cfg, ids, serverPort, bytes, sent, i, j)
      ensures s.Found? && s.peer == SentPeer(sent) && |sent.built.frame| == job.buckets[s.i]
      ensures Asked(job, s) == job.buckets[s.i] - n
    {
      EnvelopeIsFound(job, br.Rest(), sent, i, j, s);
      SealedSize(job, br.Rest(), sent, i, j);
    }
    match s
    case Exhausted => return AuthResult(None, Some(AuthFailed));
    case EndOfStream(_) => return AuthResult(None, Some(ReadFailed));
    case OutOfBudget(_, _) => return AuthResult(None, Some(TooManyCandidates));
    case Found(i, j, peer) =>
      FoundIsSealed(c, log, cfg, ids, serverPort, bytes, i, j, peer);
      br.Discard(buckets[i] - n);
      var why := ValidatePeerCommon(cfg, peer, serverPort, replay, checkedAt, markedAt);
      return AuthResult(Some(peer), why);
  }

  // -------------------------------------------------------------------- frame v1

  datatype HeaderV1 = HeaderV1(version: byte, flags: byte, reserved: byte, nonce: Hash, keyHint: uint64, sealedLen: uint16)

  function HeaderV1Bytes(h: HeaderV1): (r: seq<byte>)
    ensures |r| == FRAME_V1_HEADER_SIZE && r[0] == h.version
  {
    [h.version, h.flags, h.reserved] + h.nonce + U64(h.keyHint) + U16(h.sealedLen)
  }

  function ParseHeaderV1(b: seq<byte>): (h: HeaderV1)
    requires |b| == FRAME_V1_HEADER_SIZE
  {
    HeaderV1(b[0], b[1], b[2], b[3..19], FromU64(b[19..27]), FromU16(b[27..29]))
  }

  lemma HeaderV1RoundTrip(h: HeaderV1)
    ensures ParseHeaderV1(HeaderV1Bytes(h)) == h
  {
    hide U64, U16, FromU64, FromU16;
    var b := HeaderV1Bytes(h);
    assert b[3..19] == h.nonce && b[19..27] == U64(h.keyHint) && b[27..29] == U16(h.sealedLen);
    U64RoundTrip(h.keyHint);
    U16RoundTrip(h.sealedLen);
  }

  lemma HeaderV1Canonical(b: seq<byte>)
    requires |b| == FRAME_V1_HEADER_SIZE
    ensures HeaderV1Bytes(ParseHeaderV1(b)) == b
  {
    hide U64, U16, FromU64, FromU16;
    FromU64RoundTrip(b[19..27]);
    FromU16RoundTrip(b[27..29]);
    assert b == [b[0], b[1], b[2]] + b[3..19] + b[19..27] + b[27..29];
  }

  predicate GoodHeaderV1(h: HeaderV1, maxFrameSize: int) {
    && h.version == FRAME_V1_VERSION && h.reserved == 0 && h.flags <= FLAG_SERVER_PROOF
    && h.sealedLen > 0 && FRAME_V1_HEADER_SIZE + h.sealedLen <= maxFrameSize
  }

  ghost predicate StartsWithFrame(bytes: seq<byte>, h: HeaderV1, sealed: seq<byte>) {
    |sealed| == h.sealedLen && HeaderV1Bytes(h) + sealed <= bytes
  }

  /** A stream starts with at most one frame: the header fixes where it ends. */
  lemma FrameAtStart(bytes: seq<byte>, h: HeaderV1, sealed: seq<byte>)
    ensures StartsWithFrame(bytes, h, sealed) <==>
            && |bytes| >= FRAME_V1_HEADER_SIZE + h.sealedLen
            && ParseHeaderV1(bytes[..FRAME_V1_HEADER_SIZE]) == h
            && sealed == bytes[FRAME_V1_HEADER_SIZE..][..h.sealedLen]
  {
    hide HeaderV1Bytes, ParseHeaderV1;
    if StartsWithFrame(bytes, h, sealed) {
      assert bytes[..FRAME_V1_HEADER_SIZE] == HeaderV1Bytes(h);
      HeaderV1RoundTrip(h);
    } else if |bytes| >= FRAME_V1_HEADER_SIZE + h.sealedLen && ParseHeaderV1(bytes[..FRAME_V1_HEADER_SIZE]) == h {
      HeaderV1Canonical(bytes[..FRAME_V1_HEADER_SIZE]);
    }
  }

  function FrameLimit(maxFrameSize: int): (r: int) {
    if maxFrameSize <= 0 then DEFAULT_MAX_FRAME_SIZE else maxFrameSize
  }

  /** Reads a frame: exactly the well-formed frames that fit are read, and exactly their
      bytes are consumed. */
  method ReadFrame(br: Reader, maxFrameSize: int) returns (r: Option<(HeaderV1, seq<byte>)>)
    requires br.Valid()
    modifies br
    ensures br.Valid()
    ensures forall h, sealed ::
              r == Some((h, sealed)) <==> GoodHeaderV1(h, FrameLimit(maxFrameSize)) && StartsWithFrame(old(br.Rest()), h, sealed)
    ensures r.Some? ==>
              && r.value.0.version == 1 && r.value.0.flags <= 1 && r.value.0.reserved == 0
              && 0 < r.value.0.sealedLen == |r.value.1| <= FrameLimit(maxFrameSize) - 29
    ensures r.Some? ==> br.pos == old(br.pos) + FRAME_V1_HEADER_SIZE + |r.value.1|
    ensures FrameLimit(maxFrameSize) < FRAME_V1_HEADER_SIZE ==> br.pos == old(br.pos)
  {
    hide HeaderV1Bytes, ParseHeaderV1, StartsWithFrame;
    var limit := if maxFrameSize <= 0 then DEFAULT_MAX_FRAME_SIZE else maxFrameSize;
    if limit < FRAME_V1_HEADER_SIZE {
      return None;
    }
    ghost var bytes := br.Rest();
    forall h, sealed
      ensures StartsWithFrame(bytes, h, sealed) <==>
              && |bytes| >= FRAME_V1_HEADER_SIZE + h.sealedLen
              && ParseHeaderV1(bytes[..FRAME_V1_HEADER_SIZE]) == h
              && sealed == bytes[FRAME_V1_HEADER_SIZE..][..h.sealedLen]
    {
      FrameAtStart(bytes, h, sealed);
    }
    var raw := br.ReadFull(FRAME_V1_HEADER_SIZE);
    if raw.None? {
      return None;
    }
    var h := ParseHeaderV1(raw.value);
    if h.version != FRAME_V1_VERSION || h.reserved != 0 || h.flags > FLAG_SERVER_PROOF {
      return None;
    }
    if h.sealedLen == 0 || FRAME_V1_HEADER_SIZE + h.sealedLen > limit {
      return None;
    }
    var sealed := br.ReadFull(h.sealedLen);
    if sealed.None? {
      return None;
    }
    return Some((h, sealed.value));
  }

  /** Chooses the decoder from the first byte, which it does not consume. A frame of
      either protocol goes to its own decoder. */
  method Route(br: Reader, cfg: ServerConfig) returns (p: Option<Protocol>)
    requires br.Valid() && br.demanded == br.pos
    modifies br`demanded
    ensures br.Valid() && br.demanded <= br.pos + 1
    ensures !cfg.acceptV1 && !cfg.acceptV2 ==> p == None
    ensures p == Some(FrameV1) ==> cfg.acceptV1
    ensures p == Some(EnvelopeV2) ==> cfg.acceptV2
    ensures forall h: HeaderV1 :: cfg.acceptV1 && h.version == FRAME_V1_VERSION && HeaderV1Bytes(h) <= br.Rest() ==>
              p == Some(FrameV1)
    ensures forall c, sent: Sent ::
              (cfg.acceptV2 && IsEnvelope(c, sent.who, sent.q, sent.cfg, sent.built, sent.body) && sent.built.frame <= br.Rest()) ==>
              p == Some(EnvelopeV2)
  {
    if cfg.acceptV2 && !cfg.acceptV1 {
      return Some(EnvelopeV2);
    }
    if cfg.acceptV1 && !cfg.acceptV2 {
      return Some(FrameV1);
    }
    if !cfg.acceptV1 && !cfg.acceptV2 {
      return None;
    }
    var b := br.Peek(1);
    if b.None? {
      return None;
    }
    return Some(if b.value[0] == FRAME_V1_VERSION then FrameV1 else EnvelopeV2);
  }
}
