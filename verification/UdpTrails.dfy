/**
 UDP sequences, the reference: a client sends all parts of a sequence, in any
 order, within a window of the first. An attempt is remembered as the trail of the
 parts accepted so far, and a key that completed or timed out is blocked for a
 while. Nothing here counts or prunes.
 */
module UdpTrails {
  import opened Bytes
  import opened Inflight
  import opened Replay
  import opened Text
  import Lists

  const MAX_PARTS: int := 8

  datatype Options = Options(length: int, window: int, maxInflightPerIP: int, maxTotalInflight: int)

  /** An accepted part. */
  datatype Part = Part(index: int, session: seq<byte>, at: int)

  type Trail = seq<Part>
  type Trails = map<string, Trail>

  datatype Reason = InvalidFrame | BadIndex | Replayed | TooManyPerIP | TooMany | SessionMismatch | Duplicate

  datatype Verdict = Partial | Complete | Rejected(reason: Reason)

  /** A strictly partial sequence: at least one part, at least one missing, no part
      twice, one session, all within the window of the first. */
  ghost predicate Attempt(o: Options, t: Trail) {
    && 1 <= |t| < o.length
    && PartsOk(o, t)
  }

  ghost predicate PartsOk(o: Options, t: Trail)
    requires |t| >= 1
  {
    && (forall j :: 0 <= j < |t| ==> 0 <= t[j].index < o.length)
    && (forall i, j :: 0 <= i < j < |t| ==> t[i].index != t[j].index)
    && (forall j :: 0 <= j < |t| ==> t[j].session == t[0].session)
    && (forall j :: 0 <= j < |t| ==> t[0].at <= t[j].at <= t[0].at + o.window)
  }

  ghost predicate HasIndex(t: Trail, i: int) {
    exists j :: 0 <= j < |t| && t[j].index == i
  }

  predicate TimedOut(t: Trail, window: int, now: int)
    requires |t| >= 1
  {
    now - t[0].at > window
  }

  // ------------------------------------------------------------------ one packet

  /** A sequence packet that was opened and authenticated. */
  datatype Packet = Packet(ip: string, key: string, index: int, total: int, session: seq<byte>, now: int) {
    function AsPart(): (r: Part) {
      Part(index, session, now)
    }
  }

  predicate GoodIndex(o: Options, p: Packet) {
    p.total == o.length && 2 <= p.total <= MAX_PARTS && 0 <= p.index < p.total
  }

  predicate IsBlocked(blocked: Marks, key: string, now: int) {
    key in blocked && blocked[key] > now
  }

  /** The answer to a packet, given the attempts that have not timed out. */
  ghost function Decision(o: Options, trails: Trails, blocked: Marks, p: Packet): (r: Verdict)
    requires forall k :: k in trails ==> |trails[k]| >= 1
  {
    if !GoodIndex(o, p) then Rejected(BadIndex)
    else if IsBlocked(blocked, p.key, p.now) then Rejected(Replayed)
    else if p.key !in trails then
      if |Of(trails.Keys, p.ip)| >= o.maxInflightPerIP then Rejected(TooManyPerIP)
      else if |trails| >= o.maxTotalInflight then Rejected(TooMany)
      else Partial
    else if p.session != trails[p.key][0].session then Rejected(SessionMismatch)
    else if HasIndex(trails[p.key], p.index) then Rejected(Duplicate)
    else if |trails[p.key]| + 1 == o.length then Complete
    else Partial
  }

  ghost function Extended(trails: Trails, p: Packet): (t: Trail) {
    (if p.key in trails then trails[p.key] else []) + [p.AsPart()]
  }

  ghost function TrailsAfter(o: Options, trails: Trails, blocked: Marks, p: Packet): (r: Trails)
    requires forall k :: k in trails ==> |trails[k]| >= 1
  {
    match Decision(o, trails, blocked, p)
    case Rejected(_) => trails
    case Partial => trails[p.key := Extended(trails, p)]
    case Complete => trails - {p.key}
  }

  /** A key is blocked if there is room among the live blocks. */
  function Block(blocked: Marks, limit: int, ttl: int, key: string, now: int): (r: Marks) {
    if |LiveMarks(blocked, now)| < limit then blocked[key := now + ttl] else blocked
  }

  ghost function BlockedAfter(o: Options, trails: Trails, blocked: Marks, ttl: int, p: Packet): (r: Marks)
    requires forall k :: k in trails ==> |trails[k]| >= 1
  {
    if Decision(o, trails, blocked, p) == Complete
    then Block(blocked, o.maxTotalInflight, ttl, p.key, p.now)
    else blocked
  }

  // ------------------------------------------------------------------ invariants

  function AtLeastZero(n: int): (r: nat) {
    if n < 0 then 0 else n
  }

  /** What holds between packets: all attempts are strictly partial, none has a
      blocked key, and they are as few as the options ask, in all and per address. */
  ghost predicate Sound(o: Options, trails: Trails, blocked: Marks, now: int) {
    && (forall k :: k in trails ==> Attempt(o, trails[k]))
    && (forall k :: k in trails ==> !IsBlocked(blocked, k, now) && trails[k][0].at <= now)
    && Few(o, trails.Keys)
  }

  ghost predicate Few(o: Options, keys: set<string>) {
    && |keys| <= AtLeastZero(o.maxTotalInflight)
    && (forall ip :: |Of(keys, ip)| <= AtLeastZero(o.maxInflightPerIP))
  }

  ghost predicate NoneTimedOut(o: Options, trails: Trails, now: int)
    requires forall k :: k in trails ==> |trails[k]| >= 1
  {
    forall k :: k in trails ==> !TimedOut(trails[k], o.window, now)
  }

  /** An accepted part extends an attempt in good order. */
  lemma ExtendedOk(o: Options, trails: Trails, blocked: Marks, p: Packet)
    requires Sound(o, trails, blocked, p.now) && NoneTimedOut(o, trails, p.now) && o.window >= 0
    requires !Decision(o, trails, blocked, p).Rejected?
    ensures PartsOk(o, Extended(trails, p))
    ensures |Extended(trails, p)| <= o.length
  {
    if p.key in trails {
      var t := trails[p.key];
      assert Attempt(o, t) && !HasIndex(t, p.index);
      assert forall j :: 0 <= j < |t| ==> t[j].index != p.index;
    }
  }

  /** Completion is exact: it is reported iff the parts accepted for the key, this one
      included, are every index once, all of one session and within the window. */
  lemma CompleteIffAllParts(o: Options, trails: Trails, blocked: Marks, p: Packet)
    requires Sound(o, trails, blocked, p.now) && NoneTimedOut(o, trails, p.now) && o.window >= 0
    requires !Decision(o, trails, blocked, p).Rejected?
    ensures PartsOk(o, Extended(trails, p))
    ensures Decision(o, trails, blocked, p) == Complete <==>
            forall i :: 0 <= i < o.length ==> HasIndex(Extended(trails, p), i)
    ensures Decision(o, trails, blocked, p) == Complete ==> |Extended(trails, p)| == o.length
  {
    ExtendedOk(o, trails, blocked, p);
    var t := Extended(trails, p);
    FullIffAllIndices(o, t);
  }

  /** Distinct indices below `length` are all of them iff there are `length` of them. */
  lemma FullIffAllIndices(o: Options, t: Trail)
    requires 1 <= |t| <= o.length && PartsOk(o, t)
    ensures |t| == o.length <==> forall i :: 0 <= i < o.length ==> HasIndex(t, i)
  {
    var seen, all := Indices(t), Below(o.length);
    IndicesSize(t);
    assert seen <= all;
    if |t| == o.length {
      Lists.SubsetOfSameSize(seen, all);
      forall i | 0 <= i < o.length ensures HasIndex(t, i) {
        assert i in seen;
      }
    } else if forall i :: 0 <= i < o.length ==> HasIndex(t, i) {
      forall i | i in all ensures i in seen {
        assert HasIndex(t, i);
      }
      Lists.SubsetSize(all, seen);
    }
  }

  ghost function Indices(t: Trail): (r: set<int>) {
    set j | 0 <= j < |t| :: t[j].index
  }

  ghost function Below(n: int): (r: set<int>)
    ensures forall i :: i in r <==> 0 <= i < n
    ensures n >= 0 ==> |r| == n
  {
    if n <= 0 then {} else Below(n - 1) + {n - 1}
  }

  lemma {:induction false} IndicesSize(t: Trail)
    requires forall i, j :: 0 <= i < j < |t| ==> t[i].index != t[j].index
    ensures |Indices(t)| == |t|
  {
    if t != [] {
      var n := |t| - 1;
      IndicesSize(t[..n]);
      assert Indices(t) == Indices(t[..n]) + {t[n].index};
    }
  }

  /** Every packet keeps what holds between packets. */
  lemma SoundAfter(o: Options, trails: Trails, blocked: Marks, ttl: int, p: Packet)
    requires Sound(o, trails, blocked, p.now) && NoneTimedOut(o, trails, p.now) && o.window >= 0
    requires BeforeNul(p.key) == p.ip
    ensures Sound(o, TrailsAfter(o, trails, blocked, p), BlockedAfter(o, trails, blocked, ttl, p), p.now)
  {
    match Decision(o, trails, blocked, p)
    case Rejected(_) =>
    case Partial =>
      SoundExtended(o, trails, blocked, p);
    case Complete =>
      FewerSound(o, trails, trails - {p.key}, blocked, Block(blocked, o.maxTotalInflight, ttl, p.key, p.now), p.now);
  }

  lemma SoundExtended(o: Options, trails: Trails, blocked: Marks, p: Packet)
    requires Sound(o, trails, blocked, p.now) && NoneTimedOut(o, trails, p.now) && o.window >= 0
    requires BeforeNul(p.key) == p.ip && Decision(o, trails, blocked, p) == Partial
    ensures Sound(o, trails[p.key := Extended(trails, p)], blocked, p.now)
  {
    hide PartsOk, Of, BeforeNul, HasIndex;
    ExtendedOk(o, trails, blocked, p);
    var after := trails[p.key := Extended(trails, p)];
    assert after.Keys == trails.Keys + {p.key};
    if p.key !in trails {
      FewAdd(o, trails.Keys, p.key);
    } else {
      assert after.Keys == trails.Keys;
    }
  }

  lemma FewAdd(o: Options, keys: set<string>, key: string)
    requires Few(o, keys) && key !in keys
    requires |keys| < o.maxTotalInflight && |Of(keys, BeforeNul(key))| < o.maxInflightPerIP
    ensures Few(o, keys + {key})
  {
    forall ip ensures |Of(keys + {key}, ip)| <= AtLeastZero(o.maxInflightPerIP) {
      OfAdd(keys, key, ip);
    }
  }

  /** Dropping attempts and blocking their keys keeps the rest in order. */
  lemma FewerSound(o: Options, trails: Trails, trails': Trails, blocked: Marks, blocked': Marks, now: int)
    requires Sound(o, trails, blocked, now)
    requires trails'.Keys <= trails.Keys && forall k :: k in trails' ==> trails'[k] == trails[k]
    requires forall k :: k in trails' ==> SameAt(blocked, blocked', k)
    ensures Sound(o, trails', blocked', now)
  {
    Lists.SubsetSize(trails'.Keys, trails.Keys);
    forall ip ensures |Of(trails'.Keys, ip)| <= AtLeastZero(o.maxInflightPerIP) {
      Lists.SubsetSize(Of(trails'.Keys, ip), Of(trails.Keys, ip));
    }
  }

  ghost predicate SameAt(m: Marks, m': Marks, k: string) {
    (k in m <==> k in m') && (k in m ==> m[k] == m'[k])
  }

  /** What pruning does: timed-out attempts go, and their keys are blocked, unless the
      live blocks already fill the completed set. */
  ghost predicate Prunes(o: Options, trails: Trails, blocked: Marks, ttl: int, now: int, trails': Trails, blocked': Marks)
    requires forall k :: k in trails ==> |trails[k]| >= 1
  {
    && (forall k :: k in trails' <==> k in trails && !TimedOut(trails[k], o.window, now))
    && (forall k :: k in trails' ==> trails'[k] == trails[k])
    && (forall k :: k !in trails || k in trails' ==> SameAt(blocked, blocked', k))
    && (forall k :: k in trails && k !in trails' ==>
          || (k in blocked' && blocked'[k] == now + ttl)
          || (SameAt(blocked, blocked', k) && |LiveMarks(blocked', now)| >= o.maxTotalInflight))
  }

  /** Pruning in the middle: the keys in `todo` have not been looked at. */
  ghost predicate PrunesSoFar(o: Options, trails: Trails, blocked: Marks, ttl: int, now: int, todo: set<string>,
                              trails': Trails, blocked': Marks)
    requires forall k :: k in trails ==> |trails[k]| >= 1
  {
    && todo <= trails'.Keys
    && (forall k :: k in trails' <==> k in trails && (k in todo || !TimedOut(trails[k], o.window, now)))
    && (forall k :: k in trails' ==> trails'[k] == trails[k])
    && (forall k :: k !in trails || k in trails' ==> SameAt(blocked, blocked', k))
    && (forall k :: k in trails && k !in trails' ==>
          || (k in blocked' && blocked'[k] == now + ttl)
          || (SameAt(blocked, blocked', k) && |LiveMarks(blocked', now)| >= o.maxTotalInflight))
  }

  lemma PruneOne(o: Options, trails: Trails, blocked: Marks, ttl: int, now: int, todo: set<string>,
                 trails': Trails, blocked': Marks, key: string)
    requires forall k :: k in trails ==> |trails[k]| >= 1
    requires PrunesSoFar(o, trails, blocked, ttl, now, todo, trails', blocked') && key in todo
    ensures TimedOut(trails[key], o.window, now) ==>
              PrunesSoFar(o, trails, blocked, ttl, now, todo - {key}, trails' - {key},
                          Block(blocked', o.maxTotalInflight, ttl, key, now))
    ensures !TimedOut(trails[key], o.window, now) ==>
              PrunesSoFar(o, trails, blocked, ttl, now, todo - {key}, trails', blocked')
  {
  }

  lemma SoundPruned(o: Options, trails: Trails, blocked: Marks, ttl: int, clock: int, now: int, trails': Trails, blocked': Marks)
    requires Sound(o, trails, blocked, clock) && clock <= now
    requires Prunes(o, trails, blocked, ttl, now, trails', blocked')
    ensures Sound(o, trails', blocked', now) && NoneTimedOut(o, trails', now)
  {
    assert Sound(o, trails, blocked, now);
    FewerSound(o, trails, trails', blocked, blocked', now);
  }

  // ---------------------------------------------------------------- whole runs

  ghost predicate NonEmpty(trails: Trails) {
    forall k :: k in trails ==> |trails[k]| >= 1
  }

  /** One packet from one state of the run to the next: prune, then decide. */
  ghost predicate Step(o: Options, ttl: int, trails: Trails, blocked: Marks, p: Packet,
                       trails': Trails, blocked': Marks, r: Verdict) {
    exists live, blocks ::
      && NonEmpty(trails) && NonEmpty(live)
      && Prunes(o, trails, blocked, ttl, p.now, live, blocks)
      && r == Decision(o, live, blocks, p)
      && trails' == TrailsAfter(o, live, blocks, p)
      && blocked' == BlockedAfter(o, live, blocks, ttl, p)
  }

  /** No step lifts a live block, and a packet of the blocked key is a replay. */
  lemma BlockHolds(o: Options, ttl: int, trails: Trails, blocked: Marks, clock: int, p: Packet,
                   trails': Trails, blocked': Marks, r: Verdict, key: string)
    requires Sound(o, trails, blocked, clock) && clock <= p.now
    requires Step(o, ttl, trails, blocked, p, trails', blocked', r)
    requires IsBlocked(blocked, key, p.now)
    ensures SameAt(blocked, blocked', key)
    ensures p.key == key ==> r == if GoodIndex(o, p) then Rejected(Replayed) else Rejected(BadIndex)
  {
    hide Few, PartsOk, LiveMarks, Of, HasIndex;
    var live, blocks :|
      NonEmpty(trails) && NonEmpty(live) && Prunes(o, trails, blocked, ttl, p.now, live, blocks) &&
      r == Decision(o, live, blocks, p) && trails' == TrailsAfter(o, live, blocks, p) &&
      blocked' == BlockedAfter(o, live, blocks, ttl, p);
    assert key !in trails;
    assert SameAt(blocked, blocks, key);
  }

  lemma StepSound(o: Options, ttl: int, trails: Trails, blocked: Marks, clock: int, p: Packet,
                  trails': Trails, blocked': Marks, r: Verdict)
    requires Sound(o, trails, blocked, clock) && clock <= p.now && o.window >= 0 && BeforeNul(p.key) == p.ip
    requires Step(o, ttl, trails, blocked, p, trails', blocked', r)
    ensures Sound(o, trails', blocked', p.now)
  {
    hide Sound, Prunes, Decision, TrailsAfter, BlockedAfter;
    var live, blocks :|
      NonEmpty(trails) && NonEmpty(live) && Prunes(o, trails, blocked, ttl, p.now, live, blocks) &&
      r == Decision(o, live, blocks, p) && trails' == TrailsAfter(o, live, blocks, p) &&
      blocked' == BlockedAfter(o, live, blocks, ttl, p);
    SoundPruned(o, trails, blocked, ttl, clock, p.now, live, blocks);
    SoundAfter(o, live, blocks, ttl, p);
  }

  datatype Moment = Moment(trails: Trails, blocked: Marks)

  /** A run from the empty tracker, with a clock that never goes back. */
  ghost predicate Run(o: Options, ttl: int, h: seq<Moment>, ps: seq<Packet>, rs: seq<Verdict>) {
    && |h| == |ps| + 1 == |rs| + 1
    && h[0] == Moment(map[], map[])
    && (forall i, j :: 0 <= i < j < |ps| ==> ps[i].now <= ps[j].now)
    && (forall i :: 0 <= i < |ps| ==> BeforeNul(ps[i].key) == ps[i].ip)
    && (forall i :: 0 <= i < |ps| ==> Step(o, ttl, h[i].trails, h[i].blocked, ps[i], h[i + 1].trails, h[i + 1].blocked, rs[i]))
  }

  function ClockAt(ps: seq<Packet>, i: nat): (r: int)
    requires i < |ps|
  {
    if i == 0 then ps[0].now else ps[i - 1].now
  }

  /** The invariant holds in every reachable state. */
  lemma {:induction false} RunSound(o: Options, ttl: int, h: seq<Moment>, ps: seq<Packet>, rs: seq<Verdict>, i: nat)
    requires Run(o, ttl, h, ps, rs) && i < |ps| && o.window >= 0
    ensures Sound(o, h[i].trails, h[i].blocked, ClockAt(ps, i)) && ClockAt(ps, i) <= ps[i].now
  {
    if i == 0 {
      assert forall ip :: Of({}, ip) == {};
    } else {
      RunSound(o, ttl, h, ps, rs, i - 1);
      StepSound(o, ttl, h[i - 1].trails, h[i - 1].blocked, ClockAt(ps, i - 1), ps[i - 1],
                h[i].trails, h[i].blocked, rs[i - 1]);
    }
  }

  /** In every run, a blocked key is refused until its block expires, whatever packets
      arrive in between. */
  lemma {:induction false} RefusedUntilExpiry(o: Options, ttl: int, h: seq<Moment>, ps: seq<Packet>, rs: seq<Verdict>,
                                              i: nat, j: nat, key: string)
    requires Run(o, ttl, h, ps, rs) && i <= j < |ps| && o.window >= 0
    requires key in h[i].blocked && ps[j].now < h[i].blocked[key]
    ensures key in h[j].blocked && h[j].blocked[key] == h[i].blocked[key]
    ensures ps[j].key == key ==> rs[j].Rejected?
    decreases j
  {
    hide Sound, Step;
    if i < j {
      RefusedUntilExpiry(o, ttl, h, ps, rs, i, j - 1, key);
      RunSound(o, ttl, h, ps, rs, j - 1);
      BlockHolds(o, ttl, h[j - 1].trails, h[j - 1].blocked, ClockAt(ps, j - 1), ps[j - 1],
                 h[j].trails, h[j].blocked, rs[j - 1], key);
    }
    RunSound(o, ttl, h, ps, rs, j);
    BlockHolds(o, ttl, h[j].trails, h[j].blocked, ClockAt(ps, j), ps[j],
               h[j + 1].trails, h[j + 1].blocked, rs[j], key);
  }
}
