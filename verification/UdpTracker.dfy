/**
 The UDP sequence tracker: a map of partial sequences with counters per address,
 and a bounded set of keys that completed or timed out. It gives the answers of the
 reference `UdpTrails`.
 */
module UdpTracker {
  import opened Bytes
  import opened Cache
  import opened Inflight
  import opened Replay
  import opened Text
  import opened UdpTrails
  import Time

  const FRAME_TYPE_UDP_SEQUENCE: byte := 2

  datatype KnockInfo = KnockInfo(
    frameType: byte, clientID: string, methodName: string, serverPort: int, sessionID: seq<byte>,
    sequenceID: seq<byte>, sequenceIndex: int, sequenceTotal: int)

  datatype SeqState = SeqState(firstSeen: int, lastSeen: int, parts: seq<bool>, sessionID: seq<byte>, total: int)

  type States = map<string, SeqState>

  // ----------------------------------------------------------------------- keys

  function SequenceStateKey(ip: string, info: KnockInfo): (r: string) {
    ip + NUL + (info.clientID + NUL + (Hex(info.sequenceID) + NUL + (Decimal(info.serverPort) + NUL + info.methodName)))
  }

  /** The key determines source, client, sequence id, port and method. Addresses never
      contain NUL and client ids with NUL are refused before they get here. */
  lemma SequenceStateKeyInjective(ip: string, a: KnockInfo, ip': string, b: KnockInfo)
    requires NoNul(ip) && NoNul(ip') && NoNul(a.clientID) && NoNul(b.clientID)
    requires SequenceStateKey(ip, a) == SequenceStateKey(ip', b)
    ensures ip == ip' && a.clientID == b.clientID && a.sequenceID == b.sequenceID
    ensures a.serverPort == b.serverPort && a.methodName == b.methodName
  {
    var a3, b3 := Decimal(a.serverPort) + NUL + a.methodName, Decimal(b.serverPort) + NUL + b.methodName;
    var a2, b2 := Hex(a.sequenceID) + NUL + a3, Hex(b.sequenceID) + NUL + b3;
    SplitFirst(ip, a.clientID + NUL + a2, ip', b.clientID + NUL + b2);
    SplitFirst(a.clientID, a2, b.clientID, b2);
    SplitFirst(Hex(a.sequenceID), a3, Hex(b.sequenceID), b3);
    SplitFirst(Decimal(a.serverPort), a.methodName, Decimal(b.serverPort), b.methodName);
    HexInjective(a.sequenceID, b.sequenceID);
    DecimalInjective(a.serverPort, b.serverPort);
  }

  /** Parts with NUL bytes in between. */
  function Joined(parts: seq<string>): (r: string)
    requires |parts| >= 1
  {
    var n := |parts| - 1;
    if n == 0 then parts[0] else Joined(parts[..n]) + NUL + parts[n]
  }

  /** Splits a key at its NUL bytes. */
  method SplitStateKey(key: string) returns (parts: seq<string>)
    ensures |parts| >= 1 && Joined(parts) == key
    ensures forall i :: 0 <= i < |parts| ==> NoNul(parts[i])
    ensures parts[0] == BeforeNul(key)
  {
    var out: seq<string> := [];
    var start := 0;
    for i := 0 to |key|
      invariant start <= i
      invariant forall j :: 0 <= j < |out| ==> NoNul(out[j])
      invariant forall j :: start <= j < i ==> key[j] != '\0'
      invariant if out == [] then start == 0 else Joined(out) + NUL == key[..start]
    {
      if key[i] == '\0' {
        ghost var before := out;
        out := out + [key[start..i]];
        assert out[..|before|] == before;
        assert key[..i + 1] == key[..start] + key[start..i] + NUL;
        start := i + 1;
      }
    }
    parts := out + [key[start..]];
    assert parts[..|out|] == out;
    assert key == key[..start] + key[start..];
    JoinedHead(parts);
  }

  lemma {:induction false} JoinedHead(parts: seq<string>)
    requires |parts| >= 1 && forall i :: 0 <= i < |parts| ==> NoNul(parts[i])
    ensures BeforeNul(Joined(parts)) == parts[0]
    ensures |parts| == 1 || exists rest :: Joined(parts) == parts[0] + NUL + rest
  {
    var n := |parts| - 1;
    if n == 0 {
      BeforeNulNone(parts[0]);
    } else {
      JoinedHead(parts[..n]);
      if n == 1 {
        BeforeNulJoin(parts[0], parts[1]);
      } else {
        var rest :| Joined(parts[..n]) == parts[0] + NUL + rest;
        assert Joined(parts) == parts[0] + NUL + (rest + NUL + parts[n]);
        BeforeNulJoin(parts[0], rest + NUL + parts[n]);
      }
    }
  }

  lemma {:induction false} BeforeNulNone(s: string)
    requires NoNul(s)
    ensures BeforeNul(s) == s
  {
    if s != "" {
      BeforeNulNone(s[1..]);
    }
  }

  lemma KeyAddress(ip: string, info: KnockInfo)
    requires NoNul(ip)
    ensures BeforeNul(SequenceStateKey(ip, info)) == ip
  {
    BeforeNulJoin(ip, info.clientID + NUL + (Hex(info.sequenceID) + NUL + (Decimal(info.serverPort) + NUL + info.methodName)));
  }

  // --------------------------------------------------------- states and trails

  ghost predicate Mirrors(o: Options, st: SeqState, t: Trail) {
    && |t| >= 1
    && st.firstSeen == t[0].at && st.sessionID == t[0].session
    && |st.parts| == st.total == o.length
    && (forall i :: 0 <= i < |st.parts| ==> (st.parts[i] <==> HasIndex(t, i)))
  }

  ghost predicate Mirrored(o: Options, states: States, trails: Trails) {
    && states.Keys == trails.Keys
    && (forall k :: k in states ==> Mirrors(o, states[k], trails[k]))
  }

  /** Setting the flag of a part is appending it to the trail. */
  lemma MirrorsNext(o: Options, st: SeqState, t: Trail, p: Packet)
    requires Mirrors(o, st, t) && 0 <= p.index < o.length
    ensures Mirrors(o, st.(parts := st.parts[p.index := true], lastSeen := p.now), t + [p.AsPart()])
  {
    var t' := t + [p.AsPart()];
    forall i | 0 <= i < o.length ensures st.parts[p.index := true][i] <==> HasIndex(t', i) {
      assert HasIndex(t', i) <==> HasIndex(t, i) || i == p.index by {
        if HasIndex(t, i) {
          var j :| 0 <= j < |t| && t[j].index == i;
          assert t'[j].index == i;
        }
        assert t'[|t|].index == p.index;
      }
    }
  }

  lemma MirrorsFirst(o: Options, p: Packet)
    requires 0 <= p.index < o.length
    ensures Mirrors(o, SeqState(p.now, p.now, Unseen(o.length)[p.index := true], p.session, o.length), [p.AsPart()])
  {
    var t := [p.AsPart()];
    assert t[0].index == p.index;
  }

  function Unseen(n: nat): (r: seq<bool>)
    ensures |r| == n && forall i :: 0 <= i < n ==> !r[i]
  {
    seq(n, i => false)
  }

  method AllSeen(parts: seq<bool>) returns (r: bool)
    ensures r <==> forall i :: 0 <= i < |parts| ==> parts[i]
  {
    for i := 0 to |parts|
      invariant forall j :: 0 <= j < i ==> parts[j]
    {
      if !parts[i] {
        return false;
      }
    }
    return true;
  }

  function NormalizedOptions(o: Options): (r: Options) {
    Options(
      if o.length == 0 then 3 else o.length,
      if o.window <= 0 then 10 * Time.SECOND else o.window,
      if o.maxInflightPerIP == 0 then 8 else o.maxInflightPerIP,
      if o.maxTotalInflight == 0 then 4096 else o.maxTotalInflight)
  }

  class SequenceTracker {
    const opts: Options
    const nonceTTL: int
    const completed: TTLLRU<string, ()>
    var states: States
    var perIP: map<string, int>
    var total: int

    /** The reference state and the latest clock reading. */
    ghost var trails: Trails
    ghost var blocked: Marks
    ghost var clock: int

    ghost predicate Valid()
      reads this, completed
    {
      && Configured()
      && completed.Valid() && Agree(blocked, completed.entries, clock)
      && Counted(states.Keys, perIP, total)
      && Mirrored(opts, states, trails)
      && Sound(opts, trails, blocked, clock)
    }

    ghost predicate Configured()
      reads this
    {
      && opts.window > 0 && nonceTTL > 0 && clock >= Time.ZERO
      && completed.maxEntries == (if opts.maxTotalInflight <= 0 then 1 else opts.maxTotalInflight)
    }

    constructor (o: Options, nonceTTL: int)
      ensures Valid() && fresh(completed)
      ensures opts == NormalizedOptions(o)
      ensures this.nonceTTL == if nonceTTL <= opts.window then 2 * Time.MINUTE else nonceTTL
      ensures trails == map[] && blocked == map[] && clock == Time.ZERO
    {
      var n := NormalizedOptions(o);
      opts := n;
      this.nonceTTL := if nonceTTL <= n.window then 2 * Time.MINUTE else nonceTTL;
      states, perIP, total := map[], map[], 0;
      trails, blocked, clock := map[], map[], Time.ZERO;
      completed := new TTLLRU(n.maxTotalInflight);
    }

    /** Remembers a key if the set has room among its live entries. A live entry is
        never evicted for it. */
    method MarkCompletedLocked(key: string, now: int)
      requires Configured() && now >= Time.ZERO
      requires completed.Valid() && Agree(blocked, completed.entries, now)
      modifies completed, this`blocked
      ensures completed.Valid() && Agree(blocked, completed.entries, now)
      ensures blocked == Block(old(blocked), opts.maxTotalInflight, nonceTTL, key, now)
    {
      hide Agree, LiveMarks, Touch;
      LiveSizes(blocked, completed.entries, now);
      var n := completed.Len();
      if n >= opts.maxTotalInflight {
        SweepCompleted(now);
      }
      n := completed.Len();
      if n < opts.maxTotalInflight {
        AgreeMarked(blocked, completed.entries, now, key, now + nonceTTL);
        completed.SetUntil(key, (), now + nonceTTL);
        blocked := blocked[key := now + nonceTTL];
      }
    }

    method SweepCompleted(now: int)
      requires completed.Valid() && Agree(blocked, completed.entries, now)
      modifies completed
      ensures completed.Valid() && Agree(blocked, completed.entries, now)
      ensures |completed.entries| == |LiveMarks(blocked, now)|
    {
      LiveSizes(blocked, completed.entries, now);
      var _ := completed.Sweep(now);
    }

    method RemoveLocked(key: string, ip: string)
      requires Counted(states.Keys, perIP, total) && Mirrored(opts, states, trails)
      requires key in states && BeforeNul(key) == ip
      modifies this`states, this`perIP, this`total, this`trails
      ensures Counted(states.Keys, perIP, total) && Mirrored(opts, states, trails)
      ensures states == old(states) - {key} && trails == old(trails) - {key}
    {
      CountedRemove(states.Keys, perIP, total, key);
      states := states - {key};
      trails := trails - {key};
      assert states.Keys == old(states).Keys - {key};
      if Get(perIP, ip) > 0 {
        perIP := perIP[ip := perIP[ip] - 1];
      }
      if total > 0 {
        total := total - 1;
      }
    }

    /** Drops the timed-out attempts, in any order, and blocks their keys while there
        is room. */
    method PruneLocked(now: int)
      requires Valid() && clock <= now
      modifies this, completed
      ensures Valid() && clock == now
      ensures Prunes(opts, old(trails), old(blocked), nonceTTL, now, trails, blocked)
      ensures NoneTimedOut(opts, trails, now)
    {
      hide Agree, Counted, Mirrors, Sound, Attempt, Block, PrunesSoFar, TTLLRU.Valid;
      ghost var trails0, blocked0, clock0 := trails, blocked, clock;
      AttemptsNonEmpty(opts, trails, blocked, clock);
      AgreeLater(blocked, completed.entries, clock, now);
      PruneStart(opts, trails, blocked, nonceTTL, now);
      clock := now;
      var todo := states.Keys;
      while todo != {}
        invariant Configured() && clock == now
        invariant completed.Valid() && Agree(blocked, completed.entries, now)
        invariant Counted(states.Keys, perIP, total) && Mirrored(opts, states, trails)
        invariant PrunesSoFar(opts, trails0, blocked0, nonceTTL, now, todo, trails, blocked)
        invariant todo <= states.Keys
        decreases todo
      {
        var key :| key in todo;
        PruneOne(opts, trails0, blocked0, nonceTTL, now, todo, trails, blocked, key);
        FirstSeenIs(opts, states, trails, trails0, blocked0, nonceTTL, now, todo, blocked, key);
        todo := todo - {key};
        if now - states[key].firstSeen > opts.window {
          var parts := SplitStateKey(key);
          MarkCompletedLocked(key, now);
          RemoveLocked(key, parts[0]);
        }
      }
      PruneEnd(opts, trails0, blocked0, nonceTTL, now, trails, blocked);
      SoundPruned(opts, trails0, blocked0, nonceTTL, clock0, now, trails, blocked);
      SweepCompleted(now);
    }

    method CheckCompleted(key: string, now: int) returns (hit: bool)
      requires completed.Valid() && Agree(blocked, completed.entries, now)
      modifies completed
      ensures completed.Valid() && Agree(blocked, completed.entries, now)
      ensures hit <==> IsBlocked(blocked, key, now)
    {
      var r := completed.GetAt(key, now);
      hit := r.Some?;
    }

    /** A new state, with its first part seen. */
    method AddFirst(p: Packet)
      requires Counted(states.Keys, perIP, total) && Mirrored(opts, states, trails)
      requires p.key !in states && BeforeNul(p.key) == p.ip && GoodIndex(opts, p)
      modifies this`states, this`perIP, this`total, this`trails
      ensures Counted(states.Keys, perIP, total) && Mirrored(opts, states, trails)
      ensures trails == old(trails)[p.key := [p.AsPart()]]
    {
      hide Counted, Mirrors;
      CountedAdd(states.Keys, perIP, total, p.key);
      MirrorsFirst(opts, p);
      var state := SeqState(p.now, p.now, Unseen(p.total), p.session, p.total);
      states := states[p.key := state.(parts := state.parts[p.index := true])];
      trails := trails[p.key := [p.AsPart()]];
      perIP := perIP[p.ip := Get(perIP, p.ip) + 1];
      total := total + 1;
      assert states.Keys == old(states).Keys + {p.key};
    }

    /** One more part of an attempt that has not timed out. */
    method AddNext(p: Packet) returns (r: Verdict)
      requires Configured() && clock == p.now && completed.Valid() && Agree(blocked, completed.entries, p.now)
      requires Counted(states.Keys, perIP, total) && Mirrored(opts, states, trails)
      requires Sound(opts, trails, blocked, p.now) && NoneTimedOut(opts, trails, p.now)
      requires p.key in states && BeforeNul(p.key) == p.ip && GoodIndex(opts, p)
      requires !IsBlocked(blocked, p.key, p.now)
      modifies this`states, this`perIP, this`total, this`trails, this`blocked, completed
      ensures completed.Valid() && Agree(blocked, completed.entries, p.now)
      ensures Counted(states.Keys, perIP, total) && Mirrored(opts, states, trails)
      ensures r == Decision(opts, old(trails), old(blocked), p)
      ensures trails == TrailsAfter(opts, old(trails), old(blocked), p)
      ensures blocked == BlockedAfter(opts, old(trails), old(blocked), nonceTTL, p)
    {
      hide Agree, Counted, Sound, Block, TTLLRU.Valid, HasIndex, PartsOk, Mirrors;
      MirroredAt(opts, states, trails, p);
      var state := states[p.key];
      if p.now - state.firstSeen > opts.window {
        // Pruning already removed every such state.
        assert false;
      }
      if state.total != p.total || state.sessionID != p.session {
        return Rejected(SessionMismatch);
      }
      if state.parts[p.index] {
        return Rejected(Duplicate);
      }
      var all := SetPart(p);
      if !all {
        return Partial;
      }
      MarkCompletedLocked(p.key, p.now);
      RemoveLocked(p.key, p.ip);
      assert trails == old(trails) - {p.key};
      return Complete;
    }

    method SetPart(p: Packet) returns (all: bool)
      requires opts.window > 0 && Counted(states.Keys, perIP, total) && Mirrored(opts, states, trails)
      requires Sound(opts, trails, blocked, p.now) && NoneTimedOut(opts, trails, p.now)
      requires p.key in states && GoodIndex(opts, p) && !IsBlocked(blocked, p.key, p.now)
      requires p.session == trails[p.key][0].session && !HasIndex(trails[p.key], p.index)
      modifies this`states, this`trails
      ensures Counted(states.Keys, perIP, total) && Mirrored(opts, states, trails)
      ensures trails == old(trails)[p.key := old(trails)[p.key] + [p.AsPart()]]
      ensures all <==> |trails[p.key]| == opts.length
    {
      hide Counted, Sound, Mirrors;
      MirroredAt(opts, states, trails, p);
      NextPart(opts, states[p.key], trails, blocked, p);
      var state := states[p.key];
      state := state.(parts := state.parts[p.index := true], lastSeen := p.now);
      states := states[p.key := state];
      trails := trails[p.key := trails[p.key] + [p.AsPart()]];
      assert states.Keys == old(states).Keys;
      all := AllSeen(state.parts);
    }

    /** The packet after pruning: exactly the reference's decision. */
    method AddPruned(p: Packet) returns (r: Verdict)
      requires Valid() && clock == p.now && NoneTimedOut(opts, trails, p.now) && BeforeNul(p.key) == p.ip
      modifies this, completed
      ensures Valid() && clock == p.now
      ensures r == Decision(opts, old(trails), old(blocked), p)
      ensures trails == TrailsAfter(opts, old(trails), old(blocked), p)
      ensures blocked == BlockedAfter(opts, old(trails), old(blocked), nonceTTL, p)
    {
      hide Agree, Counted, Sound, Block, TTLLRU.Valid, HasIndex, PartsOk, Mirrors;
      SoundAfter(opts, trails, blocked, nonceTTL, p);
      CountsAre(states.Keys, perIP, total, p.ip);
      if p.total != opts.length || p.total < 2 || p.total > MAX_PARTS || p.index < 0 || p.index >= p.total {
        return Rejected(BadIndex);
      }
      var hit := CheckCompleted(p.key, p.now);
      if hit {
        return Rejected(Replayed);
      }
      if p.key in states {
        r := AddNext(p);
        return;
      }
      if Get(perIP, p.ip) >= opts.maxInflightPerIP {
        return Rejected(TooManyPerIP);
      }
      if total >= opts.maxTotalInflight {
        return Rejected(TooMany);
      }
      assert Extended(trails, p) == [p.AsPart()];
      AddFirst(p);
      return Partial;
    }

    /** One opened and authenticated packet. Frames of another type change nothing;
        otherwise states, blocks and answer are a step of the reference. */
    method Add(ip: string, info: KnockInfo, now: int) returns (r: Verdict)
      requires Valid() && clock <= now && NoNul(ip)
      modifies this, completed
      ensures Valid()
      ensures info.frameType != FRAME_TYPE_UDP_SEQUENCE ==>
                r == Rejected(InvalidFrame) && trails == old(trails) && blocked == old(blocked) && clock == old(clock)
      ensures info.frameType == FRAME_TYPE_UDP_SEQUENCE ==>
                && clock == now
                && Step(opts, nonceTTL, old(trails), old(blocked), PacketOf(ip, info, now), trails, blocked, r)
    {
      hide Agree, Counted, Mirrors, Decision, TrailsAfter, BlockedAfter, Prunes, TTLLRU.Valid;
      if info.frameType != FRAME_TYPE_UDP_SEQUENCE {
        return Rejected(InvalidFrame);
      }
      KeyAddress(ip, info);
      PruneLocked(now);
      r := AddPruned(PacketOf(ip, info, now));
    }
  }

  function PacketOf(ip: string, info: KnockInfo, now: int): (p: Packet) {
    Packet(ip, SequenceStateKey(ip, info), info.sequenceIndex, info.sequenceTotal, info.sessionID, now)
  }

  lemma CountsAre(keys: set<string>, perIP: map<string, int>, total: int, ip: string)
    requires Counted(keys, perIP, total)
    ensures Get(perIP, ip) == |Of(keys, ip)| && total == |keys|
  {
  }

  lemma MirroredAt(o: Options, states: States, trails: Trails, p: Packet)
    requires Mirrored(o, states, trails) && p.key in states && GoodIndex(o, p)
    ensures var st, t := states[p.key], trails[p.key];
            && |t| >= 1 && st.firstSeen == t[0].at && st.sessionID == t[0].session && |st.parts| == st.total == p.total
            && (st.parts[p.index] <==> HasIndex(t, p.index))
  {
  }

  /** Once the next part is seen, all parts are seen iff the trail is complete. */
  lemma NextPart(o: Options, st: SeqState, trails: Trails, blocked: Marks, p: Packet)
    requires Sound(o, trails, blocked, p.now) && NoneTimedOut(o, trails, p.now) && o.window >= 0
    requires p.key in trails && Mirrors(o, st, trails[p.key]) && GoodIndex(o, p)
    requires !IsBlocked(blocked, p.key, p.now) && p.session == trails[p.key][0].session && !HasIndex(trails[p.key], p.index)
    ensures var st', t' := st.(parts := st.parts[p.index := true], lastSeen := p.now), trails[p.key] + [p.AsPart()];
            && Mirrors(o, st', t')
            && ((forall i :: 0 <= i < |st'.parts| ==> st'.parts[i]) <==> |t'| == o.length)
  {
    MirrorsNext(o, st, trails[p.key], p);
    CompleteIffAllParts(o, trails, blocked, p);
  }

  lemma AttemptsNonEmpty(o: Options, trails: Trails, blocked: Marks, now: int)
    requires Sound(o, trails, blocked, now)
    ensures forall k :: k in trails ==> |trails[k]| >= 1
  {
  }

  lemma AgreeLater(blocked: Marks, entries: map<string, Item<()>>, clock: int, now: int)
    requires Agree(blocked, entries, clock) && clock <= now
    ensures Agree(blocked, entries, now)
  {
  }

  lemma PruneStart(o: Options, trails: Trails, blocked: Marks, ttl: int, now: int)
    requires forall k :: k in trails ==> |trails[k]| >= 1
    ensures PrunesSoFar(o, trails, blocked, ttl, now, trails.Keys, trails, blocked)
  {
  }

  lemma PruneEnd(o: Options, trails: Trails, blocked: Marks, ttl: int, now: int, trails': Trails, blocked': Marks)
    requires forall k :: k in trails ==> |trails[k]| >= 1
    requires PrunesSoFar(o, trails, blocked, ttl, now, {}, trails', blocked')
    ensures Prunes(o, trails, blocked, ttl, now, trails', blocked')
  {
  }

  lemma FirstSeenIs(o: Options, states: States, trails: Trails, trails0: Trails, blocked0: Marks, ttl: int, now: int,
                    todo: set<string>, blocked: Marks, key: string)
    requires forall k :: k in trails0 ==> |trails0[k]| >= 1
    requires Mirrored(o, states, trails) && PrunesSoFar(o, trails0, blocked0, ttl, now, todo, trails, blocked) && key in todo
    ensures key in trails0 && key in states
    ensures now - states[key].firstSeen > o.window <==> TimedOut(trails0[key], o.window, now)
  {
  }

  lemma AgreeMarked(blocked: Marks, entries: map<string, Item<()>>, now: int, key: string, until: int)
    requires Agree(blocked, entries, now)
    ensures Agree(blocked[key := until], entries[key := Item((), until)], now)
  {
  }

  lemma LiveSizes(blocked: Marks, entries: map<string, Item<()>>, now: int)
    requires Agree(blocked, entries, now)
    ensures |LiveMarks(blocked, now)| == |Live(entries, now)| <= |entries|
  {
    DecideFromStore(blocked, entries, 0, "", now);
    assert LiveMarks(blocked, now).Keys == Live(entries, now).Keys;
  }
}
