/**
 The authenticating server: it reads a prefix, resolves candidate secrets and tries
 every candidate on every bucket size, peeking at the stream, until one opens.
 */
module Stream {
  import opened Bytes
  import opened Wrappers

  /** A buffered connection. `demanded` is how far into the stream the reader has asked
      for bytes, and so how long it can be made to wait. */
  class Reader {
    const bytes: seq<byte>
    var pos: nat
    ghost var demanded: nat

    ghost predicate Valid()
      reads this
    {
      pos <= |bytes| && pos <= demanded
    }

    constructor (bytes: seq<byte>)
      ensures Valid() && this.bytes == bytes && pos == 0 && demanded == 0
    {
      this.bytes, pos, demanded := bytes, 0, 0;
    }

    ghost function Rest(): (r: seq<byte>)
      requires Valid()
      reads this
    {
      bytes[pos..]
    }

    /** Looks at the next `n` bytes without consuming them. */
    method Peek(n: nat) returns (r: Option<seq<byte>>)
      requires Valid()
      modifies this`demanded
      ensures Valid()
      ensures r == if |Rest()| < n then None else Some(Rest()[..n])
      ensures demanded == if old(demanded) < pos + n then pos + n else old(demanded)
    {
      demanded := if demanded < pos + n then pos + n else demanded;
      if |bytes| < pos + n {
        return None;
      }
      assert bytes[pos..pos + n] == Rest()[..n];
      return Some(bytes[pos..pos + n]);
    }

    method Discard(n: nat)
      requires Valid() && n <= |Rest()| && pos + n <= demanded
      modifies this`pos
      ensures Valid() && pos == old(pos) + n
    {
      pos := pos + n;
    }

    /** Consumes the next `n` bytes, or what there is of them. */
    method ReadFull(n: nat) returns (r: Option<seq<byte>>)
      requires Valid()
      modifies this
      ensures Valid()
      ensures demanded == if old(demanded) < old(pos) + n then old(pos) + n else old(demanded)
      ensures r.Some? <==> |old(Rest())| >= n
      ensures r.Some? ==> r.value == old(Rest())[..n] && pos == old(pos) + n
      ensures r.None? ==> pos == |bytes|
    {
      var here := pos;
      r := Peek(n);
      pos := if r.Some? then here + n else |bytes|;
    }
  }
}

module Server {
  import opened Buckets
  import opened Bytes
  import opened Crypto
  import opened Envelope
  import opened Lists
  import opened Payloads
  import opened Stream
  import opened Wrappers

  datatype Peer = Peer(
    clientID: string, nonce: seq<byte>, timestampMS: int64, serverPort: int,
    methodName: seq<byte>, sessionID: seq<byte>, extensions: seq<byte>, flags: byte)

  /** A candidate is accepted if its hint matches, its key opens the message and the
      message names its client. */
  function CandidatePeer(c: Primitives, log: Log, who: Client, h: Header, sealed: seq<byte>, serverPort: int): (r: Option<Peer>) {
    if who.clientID == "" || |who.secret| < MIN_SECRET_SIZE then None
    else if h.hintMode == RouteHint && ComputeRouteHint(c, who.secret, h.prefixRandom, serverPort) != h.routeHint then None
    else
      var p :- OpenPayload(c, log, who.secret, h, serverPort, sealed);
      if p.clientIDHash != ClientIDHash(c, who.secret, who.clientID) then None
      else Some(Peer(who.clientID, h.prefixRandom, p.timestampMS, p.serverPort, p.methodName, p.sessionID, p.extensions, p.flags))
  }

  /** What the nested loops work on: the configuration, the header as read, and the
      bytes that follow the prefix. */
  datatype Job = Job(c: Primitives, log: Log, h: Header, serverPort: int, maxFrameSize: int, maxAttempts: int,
                     buckets: seq<int>, candidates: seq<Client>)

  function Usable(job: Job): (r: int -> bool) {
    b => b <= job.maxFrameSize && b >= PrefixLength(job.h.hintMode) + OVERHEAD
  }

  function Need(job: Job, bucket: int): (n: int) {
    bucket - PrefixLength(job.h.hintMode)
  }

  /** Attempt (i, j): candidate `j` on bucket `i`. */
  function Attempt(job: Job, rest: seq<byte>, i: nat, j: nat): (r: Option<Peer>)
    requires i < |job.buckets| && j < |job.candidates|
    requires 0 <= Need(job, job.buckets[i]) <= |rest|
  {
    CandidatePeer(job.c, job.log, job.candidates[j], job.h.(bucketSize := job.buckets[i]),
                  rest[..Need(job, job.buckets[i])], job.serverPort)
  }

  ghost predicate Fails(job: Job, rest: seq<byte>, i: nat, j: nat)
    requires i < |job.buckets| && j < |job.candidates|
  {
    0 <= Need(job, job.buckets[i]) <= |rest| && Attempt(job, rest, i, j) == None
  }

  /** All attempts before (i, j) failed, in the order bucket by bucket. */
  ghost predicate AllFailBefore(job: Job, rest: seq<byte>, i: nat, j: nat)
    requires i <= |job.buckets| && j <= |job.candidates|
  {
    && (forall x, y :: 0 <= x < i && 0 <= y < |job.candidates| && Usable(job)(job.buckets[x]) ==> Fails(job, rest, x, y))
    && (i < |job.buckets| ==> forall y :: 0 <= y < j ==> Fails(job, rest, i, y))
  }

  /** How many attempts precede (i, j). */
  function AttemptsBefore(job: Job, i: nat, j: nat): (n: nat)
    requires i <= |job.buckets|
  {
    |Filter(job.buckets[..i], Usable(job))| * |job.candidates| + j
  }

  datatype Scan = Found(i: nat, j: nat, peer: Peer) | Exhausted | OutOfBudget(i: nat, j: nat) | EndOfStream(i: nat)

  /** What the loops find: the first attempt that succeeds, unless the budget or the
      stream ends before it. */
  ghost predicate Scanned(job: Job, rest: seq<byte>, s: Scan) {
    match s
    case Found(i, j, peer) =>
      && i < |job.buckets| && j < |job.candidates| && Usable(job)(job.buckets[i])
      && 0 <= Need(job, job.buckets[i]) <= |rest|
      && Attempt(job, rest, i, j) == Some(peer) && AllFailBefore(job, rest, i, j)
    case Exhausted => AllFailBefore(job, rest, |job.buckets|, 0)
    case OutOfBudget(i, j) =>
      && i < |job.buckets| && j < |job.candidates| && Usable(job)(job.buckets[i])
      && AllFailBefore(job, rest, i, j) && AttemptsBefore(job, i, j) >= job.maxAttempts
    case EndOfStream(i) =>
      && i < |job.buckets| && Usable(job)(job.buckets[i])
      && AllFailBefore(job, rest, i, 0) && |rest| < Need(job, job.buckets[i])
  }

  /** How far the loops asked into the stream after the prefix. */
  function Asked(job: Job, s: Scan): (n: int)
    requires s.Found? || s.OutOfBudget? || s.EndOfStream? ==> s.i < |job.buckets|
  {
    match s
    case Found(i, _, _) => Need(job, job.buckets[i])
    case OutOfBudget(i, _) => Need(job, job.buckets[i])
    case EndOfStream(i) => Need(job, job.buckets[i])
    case Exhausted => if job.buckets == [] then 0 else Need(job, job.buckets[|job.buckets| - 1])
  }

  /** How many times the loops tried to open the message. */
  function Tried(job: Job, s: Scan): (n: nat)
    requires s.Found? || s.OutOfBudget? || s.EndOfStream? ==> s.i < |job.buckets|
  {
    match s
    case Found(i, j, _) => AttemptsBefore(job, i, j) + 1
    case OutOfBudget(i, j) => AttemptsBefore(job, i, j)
    case EndOfStream(i) => AttemptsBefore(job, i, 0)
    case Exhausted => AttemptsBefore(job, |job.buckets|, 0)
  }

  function Budget(job: Job): (n: nat) {
    if job.maxAttempts < 0 then 0 else job.maxAttempts
  }

  lemma NextBucket(job: Job, i: nat)
    requires i < |job.buckets|
    ensures AttemptsBefore(job, i + 1, 0) ==
            AttemptsBefore(job, i, if Usable(job)(job.buckets[i]) then |job.candidates| else 0)
  {
    PassStep(job.buckets, i, Usable(job));
    var n, k := |Filter(job.buckets[..i], Usable(job))|, |job.candidates|;
    assert (n + 1) * k == n * k + k;
  }

  /** The nested loops over buckets and candidates. Nothing is consumed. */
  method TryAll(job: Job, br: Reader) returns (s: Scan)
    requires br.Valid() && Increasing(job.buckets) && br.demanded == br.pos
    modifies br`demanded
    ensures br.Valid()
    ensures Scanned(job, br.Rest(), s)
    ensures s.Found? || s.OutOfBudget? || s.EndOfStream? ==> s.i < |job.buckets|
    ensures br.demanded <= br.pos + (if Asked(job, s) < 0 then 0 else Asked(job, s))
    ensures Tried(job, s) <= Budget(job) && (s.OutOfBudget? ==> Tried(job, s) == Budget(job))
    ensures s.Found? ==> 0 <= Need(job, job.buckets[s.i]) <= |br.Rest()| && br.demanded == br.pos + Need(job, job.buckets[s.i])
  {
    hide CandidatePeer;
    var attempts := 0;
    var i := 0;
    while i < |job.buckets|
      invariant i <= |job.buckets| && br.Valid()
      invariant AllFailBefore(job, br.Rest(), i, 0) && attempts == AttemptsBefore(job, i, 0) <= Budget(job)
      invariant br.demanded == br.pos || (i > 0 && br.demanded <= br.pos + Need(job, job.buckets[i - 1]))
    {
      NextBucket(job, i);
      var bucket := job.buckets[i];
      if Usable(job)(bucket) {
        var sealed := br.Peek(bucket - PrefixLength(job.h.hintMode));
        if sealed.None? {
          return EndOfStream(i);
        }
        var hit;
        attempts, hit := TryCandidates(job, br.Rest(), i, sealed.value, attempts);
        if !hit.Exhausted? {
          return hit;
        }
      }
      i := i + 1;
    }
    return Exhausted;
  }

  method TryCandidates(job: Job, ghost rest: seq<byte>, i: nat, sealed: seq<byte>, attempts0: nat)
    returns (attempts: nat, s: Scan)
    requires i < |job.buckets| && Usable(job)(job.buckets[i])
    requires 0 <= Need(job, job.buckets[i]) <= |rest| && sealed == rest[..Need(job, job.buckets[i])]
    requires AllFailBefore(job, rest, i, 0) && attempts0 == AttemptsBefore(job, i, 0) <= Budget(job)
    ensures s.Exhausted? ==> AllFailBefore(job, rest, i, |job.candidates|) && attempts == attempts0 + |job.candidates| <= Budget(job)
    ensures !s.Exhausted? ==> !s.EndOfStream? && s.i == i && Scanned(job, rest, s)
    ensures !s.Exhausted? ==> Tried(job, s) <= Budget(job) && (s.OutOfBudget? ==> Tried(job, s) == Budget(job))
  {
    hide CandidatePeer, Filter;
    attempts := attempts0;
    for j := 0 to |job.candidates|
      invariant attempts == attempts0 + j <= Budget(job) && AllFailBefore(job, rest, i, j)
    {
      if attempts >= job.maxAttempts {
        return attempts, OutOfBudget(i, j);
      }
      attempts := attempts + 1;
      var p := CandidatePeer(job.c, job.log, job.candidates[j], job.h.(bucketSize := job.buckets[i]), sealed, job.serverPort);
      if p.Some? {
        return attempts, Found(i, j, p.value);
      }
    }
    return attempts, Exhausted;
  }

  // ------------------------------------------------------------- clean hand-over

  /** An envelope that a client built. */
  datatype Sent = Sent(who: Client, q: Request, cfg: Config, built: Built, body: seq<byte>)

  function SealedPart(sent: Sent): (r: seq<byte>)
    requires |sent.built.frame| >= PrefixLength(sent.cfg.hintMode)
  {
    sent.built.frame[PrefixLength(sent.cfg.hintMode)..]
  }

  function SentBox(c: Primitives, sent: Sent): (r: Box)
    requires |sent.built.frame| >= PrefixLength(sent.cfg.hintMode)
  {
    BoxOf(c, sent.who.secret, sent.built.header, sent.q.serverPort, SealedPart(sent))
  }

  /** The envelope was built as it should be, it is the only thing ever sealed under its
      random prefix, and no two candidates' ids share a hash with the sender's. */
  ghost predicate Genuine(c: Primitives, log: Log, candidates: seq<Client>, sent: Sent) {
    && sent.who.clientID != "" && |sent.who.secret| >= MIN_SECRET_SIZE
    && IsEnvelope(c, sent.who, sent.q, sent.cfg, sent.built, sent.body)
    && 0 <= sent.built.header.bucketSize <= 65535
    && SentBox(c, sent) in log && log[SentBox(c, sent)] == sent.body
    && (forall box :: box in log && box.nonce == sent.built.header.prefixRandom ==> box == SentBox(c, sent))
    && (forall other :: other in candidates ==>
          ClientIDHash(c, other.secret, other.clientID) == ClientIDHash(c, sent.who.secret, sent.who.clientID) ==>
            other.clientID == sent.who.clientID)
  }

  function SentPeer(sent: Sent): (p: Peer) {
    Peer(sent.who.clientID, sent.built.header.prefixRandom, sent.q.nowMS, sent.q.serverPort,
         sent.q.methodName, sent.q.sessionID, sent.q.extensions, sent.q.flags)
  }

  /** Whatever a candidate manages to open is the envelope, at its own bucket size, and
      names its sender. */
  lemma OnlyTheEnvelopeOpens(c: Primitives, log: Log, candidates: seq<Client>, sent: Sent, who: Client, h: Header, sealed: seq<byte>)
    requires Genuine(c, log, candidates, sent) && who in candidates
    requires h.prefixRandom == sent.built.header.prefixRandom && h.hintMode == sent.cfg.hintMode && 0 <= h.bucketSize <= 65535
    requires CandidatePeer(c, log, who, h, sealed, sent.q.serverPort).Some?
    ensures h.bucketSize == sent.built.header.bucketSize
    ensures CandidatePeer(c, log, who, h, sealed, sent.q.serverPort) == Some(SentPeer(sent))
  {
    hide ParseBody, Aad, DeriveKey, ClientIDHash, ComputeRouteHint, Hint;
    var port := sent.q.serverPort;
    assert BoxOf(c, who.secret, h, port, sealed) == SentBox(c, sent);
    AadDeterminesBucket(h, sent.built.header, port);
  }

  /** The sender's own candidate opens it. */
  lemma SenderOpens(c: Primitives, log: Log, candidates: seq<Client>, sent: Sent)
    requires Genuine(c, log, candidates, sent)
    ensures CandidatePeer(c, log, sent.who, sent.built.header, SealedPart(sent), sent.q.serverPort) == Some(SentPeer(sent))
  {
    hide ParseBody, Aad, DeriveKey, ClientIDHash, ComputeRouteHint, Hint;
  }

  /** The envelope arrives, followed by anything, at a server that offers its sender at
      (i, j) within the budget. */
  ghost predicate Arrives(job: Job, rest: seq<byte>, sent: Sent, i: nat, j: nat) {
    && Genuine(job.c, job.log, job.candidates, sent)
    && job.h.(bucketSize := sent.built.header.bucketSize) == sent.built.header && job.serverPort == sent.q.serverPort
    && SealedPart(sent) <= rest
    && Increasing(job.buckets) && (forall b :: b in job.buckets ==> 0 <= b <= 65535)
    && i < |job.buckets| && job.buckets[i] == sent.built.header.bucketSize && Usable(job)(job.buckets[i])
    && j < |job.candidates| && job.candidates[j] == sent.who
    && AttemptsBefore(job, i, j) < job.maxAttempts
  }

  /** For every envelope followed by any application bytes, the loops stop at the
      envelope's own bucket with the sender's identity. Because the buckets increase,
      they asked for no byte past the envelope. */
  lemma EnvelopeIsFound(job: Job, rest: seq<byte>, sent: Sent, i: nat, j: nat, s: Scan)
    requires Arrives(job, rest, sent, i, j) && Scanned(job, rest, s)
    ensures s.Found? && s.i == i && s.peer == SentPeer(sent)
    ensures Asked(job, s) == |SealedPart(sent)|
  {
    hide Genuine, CandidatePeer, IsEnvelope;
    SealedLength(job.c, job.log, job.candidates, sent);
    SenderOpens(job.c, job.log, job.candidates, sent);
    assert rest[..Need(job, job.buckets[i])] == SealedPart(sent);
    assert Attempt(job, rest, i, j) == Some(SentPeer(sent));
    assert !Fails(job, rest, i, j);
    match s
    case Found(x, y, peer) =>
      assert job.buckets[x] in job.buckets;
      OnlyTheEnvelopeOpens(job.c, job.log, job.candidates, sent, job.candidates[y],
                           job.h.(bucketSize := job.buckets[x]), rest[..Need(job, job.buckets[x])]);
    case Exhausted =>
    case OutOfBudget(x, y) =>
      BudgetBefore(job, rest, x, y, i, j);
    case EndOfStream(x) =>
  }

  lemma SealedLength(c: Primitives, log: Log, candidates: seq<Client>, sent: Sent)
    requires Genuine(c, log, candidates, sent)
    ensures |sent.built.frame| >= PrefixLength(sent.cfg.hintMode)
    ensures |SealedPart(sent)| == sent.built.header.bucketSize - PrefixLength(sent.cfg.hintMode)
    ensures sent.built.header.hintMode == sent.cfg.hintMode
  {
  }

  /** If everything before (x, y) failed and (i, j) does not, (x, y) is no later. */
  lemma BudgetBefore(job: Job, rest: seq<byte>, x: nat, y: nat, i: nat, j: nat)
    requires x < |job.buckets| && y < |job.candidates| && i < |job.buckets| && j < |job.candidates|
    requires AllFailBefore(job, rest, x, y) && Usable(job)(job.buckets[x]) && Usable(job)(job.buckets[i])
    requires !Fails(job, rest, i, j)
    ensures AttemptsBefore(job, x, y) <= AttemptsBefore(job, i, j)
  {
    hide Fails, Usable;
    if x < i {
      NextBucket(job, x);
      MoreBuckets(job, x + 1, i);
    }
  }

  lemma {:induction false} MoreBuckets(job: Job, x: nat, i: nat)
    requires x <= i <= |job.buckets|
    ensures AttemptsBefore(job, x, 0) <= AttemptsBefore(job, i, 0)
    decreases i
  {
    hide Usable;
    if x < i {
      MoreBuckets(job, x, i - 1);
      NextBucket(job, i - 1);
    }
  }

  /** Enough attempts for every candidate on every usable bucket are always enough. */
  lemma BudgetEnough(job: Job, rest: seq<byte>, s: Scan)
    requires Scanned(job, rest, s) && |Filter(job.buckets, Usable(job))| * |job.candidates| <= job.maxAttempts
    ensures !s.OutOfBudget?
  {
    hide Filter, Fails, Usable;
    if s.OutOfBudget? {
      WithinBudget(job, s.i, s.j);
    }
  }

  lemma WithinBudget(job: Job, i: nat, j: nat)
    requires i < |job.buckets| && j < |job.candidates| && Usable(job)(job.buckets[i])
    requires |Filter(job.buckets, Usable(job))| * |job.candidates| <= job.maxAttempts
    ensures AttemptsBefore(job, i, j) < job.maxAttempts
  {
    hide Filter, Usable;
    assert job.buckets[..|job.buckets|] == job.buckets;
    NextBucket(job, i);
    MoreBuckets(job, i + 1, |job.buckets|);
  }
}
