/**
 The SYN sequence tracker: clients prove themselves by a short series of SYN
 packets sent in order, each bound to a time slot.
 */
module SynTracker {
  import opened Bytes
  import opened Inflight
  import opened Replay
  import opened SynParts
  import opened Text
  import opened Wrappers
  import Time

  datatype SequenceOptions = SequenceOptions(
    length: int, slotSeconds: int, window: int, maxInflightPerIP: int, maxTotalInflight: int)

  function Normalized(o: SequenceOptions): (r: SequenceOptions) {
    SequenceOptions(
      if o.length == 0 then 3 else o.length,
      if o.slotSeconds == 0 then 30 else o.slotSeconds,
      if o.window <= 0 then 10 * Time.SECOND else o.window,
      if o.maxInflightPerIP == 0 then 8 else o.maxInflightPerIP,
      if o.maxTotalInflight == 0 then 4096 else o.maxTotalInflight)
  }

  datatype State = State(firstSeen: int, lastSeen: int, matched: int, clientID: string, slot: int) {
    function Pair(): (m: Match) {
      Match(clientID, slot)
    }
  }

  type States = map<string, State>

  // ----------------------------------------------------------------------- keys

  function StateKey(ip: string, clientID: string, slot: int): (r: string) {
    ip + NUL + (clientID + NUL + Decimal(slot))
  }

  /** Address, client and slot can be read back from a key, even when the client id
      contains NUL bytes. */
  lemma StateKeyInjective(ip: string, c: string, s: int, ip': string, c': string, s': int)
    requires NoNul(ip) && NoNul(ip') && StateKey(ip, c, s) == StateKey(ip', c', s')
    ensures ip == ip' && c == c' && s == s'
  {
    SplitFirst(ip, c + NUL + Decimal(s), ip', c' + NUL + Decimal(s'));
    SplitLast(c, Decimal(s), c', Decimal(s'));
    DecimalInjective(s, s');
  }

  predicate HasPrefix(key: string, prefix: string) {
    |key| >= |prefix| && key[..|prefix|] == prefix
  }

  lemma PrefixIsAddress(ip: string, c: string, s: int, other: string)
    requires NoNul(ip) && NoNul(other)
    ensures HasPrefix(StateKey(ip, c, s), other + NUL) <==> ip == other
    ensures BeforeNul(StateKey(ip, c, s)) == ip
  {
    var key, prefix := StateKey(ip, c, s), other + NUL;
    BeforeNulJoin(ip, c + NUL + Decimal(s));
    if HasPrefix(key, prefix) {
      assert key == other + NUL + key[|prefix|..];
      BeforeNulJoin(other, key[|prefix|..]);
    }
  }

  const SYN_KNOCK_PURPOSE_LENGTH: uint16 := 9

  /** The nonce under which the first part of a sequence is remembered. */
  function SynNonce(fields: SynFields, serverPort: int): (r: seq<byte>) {
    U32(fields.sequence) + U16(fields.window) + U32(fields.timestamp)
    + U16(serverPort % 0x1_0000) + U16(SYN_KNOCK_PURPOSE_LENGTH)
  }

  lemma SynNonceInjective(f: SynFields, g: SynFields, port: int)
    requires SynNonce(f, port) == SynNonce(g, port)
    ensures f == g
  {
    var n, m := SynNonce(f, port), SynNonce(g, port);
    assert n[0..4] == U32(f.sequence) && n[4..6] == U16(f.window) && n[6..10] == U32(f.timestamp);
    assert m[0..4] == U32(g.sequence) && m[4..6] == U16(g.window) && m[6..10] == U32(g.timestamp);
    U32RoundTrip(f.sequence);
    U32RoundTrip(g.sequence);
    U32RoundTrip(f.timestamp);
    U32RoundTrip(g.timestamp);
    U16RoundTrip(f.window);
    U16RoundTrip(g.window);
  }

  // ------------------------------------------------------ what every run keeps

  /** When a sequence was started, and by whom. */
  datatype Start = Start(at: int, client: ClientSecret)

  type Starts = map<Match, Start>

  function StartKey(l: Listener, c: ClientSecret, slot: int): (r: string) {
    ReplayKey(c.clientID, SynNonce(l.tag(c, slot, 0), l.protectedPort))
  }

  /** Every start happened while its slot was accepted and left a replay mark. */
  ghost predicate StartsMarked(l: Listener, slotSeconds: int, low: int, high: int, ttl: int,
                               started: Starts, marks: Marks, clock: int) {
    forall m :: m in started ==>
      && started[m].client in l.clients && started[m].client.clientID == m.clientID
      && low <= m.slot <= high
      && 0 <= started[m].at <= clock && Accepts(m.slot, started[m].at, slotSeconds)
      && StartKey(l, started[m].client, m.slot) in marks
      && marks[StartKey(l, started[m].client, m.slot)] == started[m].at + ttl
  }

  /** A first part whose fields the replay cache accepts starts a sequence that was
      never started before: three slots of acceptance fit the lifetime of a mark. */
  lemma FreshStart(l: Listener, slotSeconds: int, low: int, high: int, ttl: int,
                   started: Starts, marks: Marks, clock: int, limit: int,
                   c: ClientSecret, slot: int, now: int)
    requires CollisionFree(l, low, high) && c in l.clients && low <= slot <= high
    requires ttl >= 3 * EffectiveSlotSeconds(slotSeconds) * Time.SECOND
    requires StartsMarked(l, slotSeconds, low, high, ttl, started, marks, clock)
    requires clock <= now && 0 <= now && Accepts(slot, now, slotSeconds)
    requires Decide(marks, limit, StartKey(l, c, slot), now) == Accepted
    ensures Match(c.clientID, slot) !in started
    ensures StartsMarked(l, slotSeconds, low, high, ttl, started[Match(c.clientID, slot) := Start(now, c)],
                         marks[StartKey(l, c, slot) := now + ttl], now)
  {
    var m := Match(c.clientID, slot);
    if m in started {
      assert started[m].client == c;
      AcceptanceSpanSinceEpoch(slot, slotSeconds, started[m].at, now);
      assert false;
    }
    forall n | n in started ensures StartKey(l, started[n].client, n.slot) != StartKey(l, c, slot) {
      var d := started[n].client;
      if StartKey(l, d, n.slot) == StartKey(l, c, slot) {
        var port := l.protectedPort;
        ReplayKeyInjective(d.clientID, SynNonce(l.tag(d, n.slot, 0), port),
                           c.clientID, SynNonce(l.tag(c, slot, 0), port));
        SynNonceInjective(l.tag(d, n.slot, 0), l.tag(c, slot, 0), port);
      }
    }
  }

  ghost predicate Keyed(states: States) {
    forall k :: k in states ==>
      NoNul(BeforeNul(k)) && k == StateKey(BeforeNul(k), states[k].clientID, states[k].slot)
  }

  /** Every state in flight is filed under its own key, was started, has not
      completed, and no two states belong to the same (client, slot). */
  ghost predicate Filed(states: States, started: Starts, completed: set<Match>) {
    && completed <= started.Keys
    && Keyed(states)
    && (forall k :: k in states ==>
          && states[k].Pair() in started && states[k].Pair() !in completed
          && states[k].matched >= 1)
    && (forall k, k' :: k in states && k' in states && states[k].Pair() == states[k'].Pair() ==> k == k')
  }

  lemma FiledFresh(states: States, started: Starts, completed: set<Match>, ip: string, m: Match, s: Start, now: int)
    requires Filed(states, started, completed) && NoNul(ip) && m !in started
    ensures var k := StateKey(ip, m.clientID, m.slot);
            && k !in states && BeforeNul(k) == ip
            && Filed(states[k := State(now, now, 1, m.clientID, m.slot)], started[m := s], completed)
  {
    var k := StateKey(ip, m.clientID, m.slot);
    PrefixIsAddress(ip, m.clientID, m.slot, ip);
    if k in states {
      StateKeyInjective(ip, m.clientID, m.slot, BeforeNul(k), states[k].clientID, states[k].slot);
    }
  }

  // ------------------------------------------------------ what one packet does

  function Pruned(states: States, window: int, now: int): (r: States) {
    map k | k in states && now - states[k].firstSeen <= window :: states[k]
  }

  /** The states and the answer that a packet leaves behind. */
  datatype Result = Result(states: States, complete: bool, client: string)

  /** Packet: destination port, fields and arrival time. */
  datatype Packet = Packet(ip: string, dstPort: int, fields: SynFields, now: int)

  ghost predicate IsPartOf(l: Listener, o: SequenceOptions, p: Packet, index: int, m: Match) {
    Recognised(l, o.slotSeconds, o.length, index, p.dstPort, p.fields, p.now, m)
  }

  /** The packet is the next part that the state under key `k` waits for. */
  ghost predicate Hit(l: Listener, o: SequenceOptions, states: States, p: Packet, k: string) {
    k in states && BeforeNul(k) == p.ip && IsPartOf(l, o, p, states[k].matched, states[k].Pair())
  }

  ghost function AdvanceResult(o: SequenceOptions, states: States, k: string, now: int): (r: Result)
    requires k in states
  {
    var st := states[k];
    if st.matched + 1 >= o.length then Result(states - {k}, true, st.clientID)
    else Result(states[k := st.(matched := st.matched + 1, lastSeen := now)], false, "")
  }

  ghost predicate MayStart(l: Listener, o: SequenceOptions, states: States, marks: Marks, limit: int, p: Packet, m: Match) {
    && |Of(states.Keys, p.ip)| < o.maxInflightPerIP
    && |states| < o.maxTotalInflight
    && Decide(marks, limit, ReplayKey(m.clientID, SynNonce(p.fields, l.protectedPort)), p.now) == Accepted
  }

  ghost function StartResult(l: Listener, o: SequenceOptions, states: States, marks: Marks, limit: int, p: Packet, m: Match): (r: Result) {
    if !MayStart(l, o, states, marks, limit, p, m) then Result(states, false, "")
    else if o.length == 1 then Result(states, true, m.clientID)
    else
      var first := State(p.now, p.now, 1, m.clientID, m.slot);
      Result(states[StateKey(p.ip, m.clientID, m.slot) := first], false, "")
  }

  /** A sequence of one part starts and completes at once. */
  lemma FiledAtOnce(states: States, started: Starts, completed: set<Match>, m: Match, s: Start)
    requires Filed(states, started, completed) && m !in started
    ensures m !in completed && Filed(states, started[m := s], completed + {m})
  {
  }

  lemma StartsMarkedLater(l: Listener, slotSeconds: int, low: int, high: int, ttl: int,
                          started: Starts, marks: Marks, clock: int, now: int)
    requires StartsMarked(l, slotSeconds, low, high, ttl, started, marks, clock) && clock <= now
    ensures StartsMarked(l, slotSeconds, low, high, ttl, started, marks, now)
  {
  }

  lemma KeysHaveNul(states: States, started: Starts, completed: set<Match>)
    requires Filed(states, started, completed)
    ensures forall k :: k in states ==> '\0' in k
    ensures Keyed(states)
  {
  }

  lemma FiledPruned(states: States, started: Starts, completed: set<Match>, window: int, now: int)
    requires Filed(states, started, completed)
    ensures Filed(Pruned(states, window, now), started, completed) && Keyed(Pruned(states, window, now))
  {
  }

  lemma FiledRemoved(states: States, started: Starts, completed: set<Match>, k: string)
    requires Filed(states, started, completed) && k in states
    ensures Filed(states - {k}, started, completed + {states[k].Pair()})
  {
  }

  lemma FiledUpdated(states: States, started: Starts, completed: set<Match>, k: string, now: int)
    requires Filed(states, started, completed) && k in states
    ensures var st := states[k];
            Filed(states[k := st.(matched := st.matched + 1, lastSeen := now)], started, completed)
  {
  }

  /** Completing a sequence leaves no other state of the same (client, slot). */
  lemma FiledAdvanced(o: SequenceOptions, states: States, started: Starts, completed: set<Match>, k: string, now: int)
    requires Filed(states, started, completed) && k in states
    ensures var r := AdvanceResult(o, states, k, now);
            && states[k].Pair() !in completed
            && (r.complete ==> r.client == states[k].clientID)
            && Filed(r.states, started, if r.complete then completed + {states[k].Pair()} else completed)
  {
    if states[k].matched + 1 >= o.length {
      FiledRemoved(states, started, completed, k);
    } else {
      FiledUpdated(states, started, completed, k, now);
    }
  }

  /** What `Add` does to the states `pre`, in whatever order it visits them. */
  ghost predicate AddSpec(l: Listener, o: SequenceOptions, pre: States, marks: Marks, limit: int, p: Packet, r: Result) {
    var live := Pruned(pre, o.window, p.now);
    && (forall k :: Hit(l, o, live, p, k) ==> r == AdvanceResult(o, live, k, p.now))
    && ((forall k :: !Hit(l, o, live, p, k)) ==>
          && (forall m :: IsPartOf(l, o, p, 0, m) ==> r == StartResult(l, o, live, marks, limit, p, m))
          && ((forall m :: !IsPartOf(l, o, p, 0, m)) ==> r == Result(live, false, "")))
  }

  /** At most one state waits for a packet. */
  lemma HitOnce(l: Listener, low: int, high: int, o: SequenceOptions, states: States, started: Starts,
                completed: set<Match>, p: Packet, k: string, k': string)
    requires CollisionFree(l, low, high) && low < SlotAt(p.now, o.slotSeconds) < high
    requires Filed(states, started, completed)
    requires Hit(l, o, states, p, k) && Hit(l, o, states, p, k')
    ensures k == k'
  {
    RecognisedOnce(l, low, high, o.slotSeconds, o.length, states[k].matched, states[k'].matched,
                   p.dstPort, p.fields, p.now, states[k].Pair(), states[k'].Pair());
  }

  lemma AdvanceMeetsSpec(l: Listener, low: int, high: int, o: SequenceOptions, pre: States, started: Starts,
                         completed: set<Match>, marks: Marks, limit: int, p: Packet, k: string)
    requires CollisionFree(l, low, high) && low < SlotAt(p.now, o.slotSeconds) < high
    requires Filed(Pruned(pre, o.window, p.now), started, completed)
    requires Hit(l, o, Pruned(pre, o.window, p.now), p, k)
    ensures AddSpec(l, o, pre, marks, limit, p, AdvanceResult(o, Pruned(pre, o.window, p.now), k, p.now))
  {
    var live := Pruned(pre, o.window, p.now);
    forall k' | Hit(l, o, live, p, k') ensures k' == k {
      HitOnce(l, low, high, o, live, started, completed, p, k, k');
    }
  }

  lemma BeginMeetsSpec(l: Listener, o: SequenceOptions, pre: States, marks: Marks, limit: int, p: Packet, r: Result)
    requires forall k :: !Hit(l, o, Pruned(pre, o.window, p.now), p, k)
    requires forall m :: IsPartOf(l, o, p, 0, m) ==>
               r == StartResult(l, o, Pruned(pre, o.window, p.now), marks, limit, p, m)
    requires (forall m :: !IsPartOf(l, o, p, 0, m)) ==> r == Result(Pruned(pre, o.window, p.now), false, "")
    ensures AddSpec(l, o, pre, marks, limit, p, r)
  {
  }

  /** The order in which the map is visited makes no difference. */
  lemma AddDeterministic(l: Listener, o: SequenceOptions, pre: States, marks: Marks, limit: int, p: Packet, r: Result, r': Result)
    requires AddSpec(l, o, pre, marks, limit, p, r) && AddSpec(l, o, pre, marks, limit, p, r')
    ensures r == r'
  {
    var live := Pruned(pre, o.window, p.now);
    if k :| Hit(l, o, live, p, k) {
      assert r == AdvanceResult(o, live, k, p.now);
    } else if m :| IsPartOf(l, o, p, 0, m) {
      assert r == StartResult(l, o, live, marks, limit, p, m);
    }
  }

  // ------------------------------------------------------------------ whole runs

  /** What a tracker is configured with: the listener, the options, and the size and mark
      lifetime of its replay cache. Tags are free of collisions for slots `low` to `high`. */
  datatype Setting = Setting(l: Listener, o: SequenceOptions, limit: int, ttl: int, low: int, high: int)

  ghost predicate Sufficient(w: Setting) {
    CollisionFree(w.l, w.low, w.high) && w.ttl >= 3 * EffectiveSlotSeconds(w.o.slotSeconds) * Time.SECOND
  }

  /** The states and the replay marks between two packets. */
  datatype Moment = Moment(states: States, marks: Marks)

  datatype Answer = Answer(complete: bool, client: string)

  ghost predicate Arrives(w: Setting, p: Packet, clock: int) {
    NoNul(p.ip) && 0 <= p.now && clock <= p.now && w.low < SlotAt(p.now, w.o.slotSeconds) < w.high
  }

  function Remaining(w: Setting, s: Moment, p: Packet): (r: States) {
    Pruned(s.states, w.o.window, p.now)
  }

  /** The packet starts the sequence `m`. */
  ghost predicate Starting(w: Setting, s: Moment, p: Packet, m: Match) {
    && (forall k :: !Hit(w.l, w.o, Remaining(w, s, p), p, k))
    && IsPartOf(w.l, w.o, p, 0, m) && MayStart(w.l, w.o, Remaining(w, s, p), s.marks, w.limit, p, m)
  }

  ghost predicate Finishes(w: Setting, s: Moment, p: Packet, k: string, m: Match) {
    var live := Remaining(w, s, p);
    Hit(w.l, w.o, live, p, k) && live[k].Pair() == m && live[k].matched + 1 >= w.o.length
  }

  /** The packet completes the sequence `m`: as the last part a state waits for, or as the
      only part of it. */
  ghost predicate Completing(w: Setting, s: Moment, p: Packet, m: Match) {
    || (exists k :: Finishes(w, s, p, k, m))
    || (w.o.length == 1 && Starting(w, s, p, m))
  }

  function MarkOf(w: Setting, p: Packet, m: Match): (r: string) {
    ReplayKey(m.clientID, SynNonce(p.fields, w.l.protectedPort))
  }

  /** One packet: the states and the answer of `AddSpec`, and a mark for what it starts. */
  ghost predicate Step(w: Setting, s: Moment, p: Packet, s': Moment, a: Answer) {
    && AddSpec(w.l, w.o, s.states, s.marks, w.limit, p, Result(s'.states, a.complete, a.client))
    && (forall m :: Starting(w, s, p, m) ==> s'.marks == s.marks[MarkOf(w, p, m) := p.now + w.ttl])
    && ((forall m :: !Starting(w, s, p, m)) ==> s'.marks == s.marks)
  }

  /** The sequences started and completed so far account for the states and the marks. */
  ghost predicate History(w: Setting, s: Moment, started: Starts, completed: set<Match>, clock: int) {
    && Filed(s.states, started, completed)
    && StartsMarked(w.l, w.o.slotSeconds, w.low, w.high, w.ttl, started, s.marks, clock)
  }

  /** What starts was never started before, and its state overwrites none. */
  lemma StartIsNew(w: Setting, s: Moment, started: Starts, completed: set<Match>, clock: int, p: Packet, m: Match)
    returns (begun: Start)
    requires Sufficient(w) && History(w, s, started, completed, clock) && Arrives(w, p, clock) && Starting(w, s, p, m)
    ensures m !in started && StateKey(p.ip, m.clientID, m.slot) !in Remaining(w, s, p)
    ensures StartsMarked(w.l, w.o.slotSeconds, w.low, w.high, w.ttl, started[m := begun],
                         s.marks[MarkOf(w, p, m) := p.now + w.ttl], p.now)
  {
    hide Filed, StartsMarked, Pruned, Hit;
    var c :| c in w.l.clients && c.clientID == m.clientID && IsPart(w.l, c, m.slot, w.o.length, 0, p.dstPort, p.fields);
    begun := Start(p.now, c);
    FreshStart(w.l, w.o.slotSeconds, w.low, w.high, w.ttl, started, s.marks, clock, w.limit, c, m.slot, p.now);
    FiledPruned(s.states, started, completed, w.o.window, p.now);
    FiledFresh(Remaining(w, s, p), started, completed, p.ip, m, begun, p.now);
  }

  /** Only one sequence starts with a packet. */
  lemma StartsOne(w: Setting, s: Moment, p: Packet, clock: int, m: Match, n: Match)
    requires Sufficient(w) && Arrives(w, p, clock) && Starting(w, s, p, m) && Starting(w, s, p, n)
    ensures m == n
  {
    hide CollisionFree, Recognised, Pruned, Hit;
    RecognisedOnce(w.l, w.low, w.high, w.o.slotSeconds, w.o.length, 0, 0, p.dstPort, p.fields, p.now, m, n);
  }

  /** The history after a packet: exactly what it starts and completes is new. */
  ghost predicate Grown(w: Setting, s: Moment, p: Packet, started: Starts, started': Starts,
                        completed: set<Match>, completed': set<Match>) {
    && (forall m :: m in started' <==> m in started || Starting(w, s, p, m))
    && (forall m :: Starting(w, s, p, m) ==> m !in started)
    && (forall m :: m in completed' <==> m in completed || Completing(w, s, p, m))
    && (forall m :: Completing(w, s, p, m) ==> m !in completed)
  }

  lemma StepOnHit(w: Setting, s: Moment, p: Packet, s': Moment, a: Answer, k: string)
    requires Step(w, s, p, s', a) && Hit(w.l, w.o, Remaining(w, s, p), p, k)
    ensures Result(s'.states, a.complete, a.client) == AdvanceResult(w.o, Remaining(w, s, p), k, p.now)
    ensures s'.marks == s.marks && forall m :: !Starting(w, s, p, m)
  {
    hide Pruned, AdvanceResult, StartResult, Recognised;
  }

  lemma StepOnNothing(w: Setting, s: Moment, p: Packet, s': Moment, a: Answer)
    requires Step(w, s, p, s', a)
    requires forall k :: !Hit(w.l, w.o, Remaining(w, s, p), p, k)
    requires forall m :: !Starting(w, s, p, m)
    ensures Result(s'.states, a.complete, a.client) == Result(Remaining(w, s, p), false, "")
    ensures s'.marks == s.marks && forall m, k :: !Finishes(w, s, p, k, m)
  {
    hide Pruned, Hit, IsPartOf, MayStart;
    if m :| IsPartOf(w.l, w.o, p, 0, m) {
      assert !Starting(w, s, p, m);
    }
  }

  /** A packet that a state waits for completes that state's sequence or none. */
  lemma CompletingHit(w: Setting, s: Moment, started: Starts, completed: set<Match>, clock: int, p: Packet, k: string)
    requires Sufficient(w) && History(w, s, started, completed, clock) && Arrives(w, p, clock)
    requires Hit(w.l, w.o, Remaining(w, s, p), p, k)
    ensures forall m :: Completing(w, s, p, m) <==> Finishes(w, s, p, k, m)
  {
    hide Filed, StartsMarked, CollisionFree, Recognised, Pruned;
    FiledPruned(s.states, started, completed, w.o.window, p.now);
    forall m, k' | Finishes(w, s, p, k', m) ensures k' == k {
      HitOnce(w.l, w.low, w.high, w.o, Remaining(w, s, p), started, completed, p, k, k');
    }
  }

  /** A state advances. */
  lemma HitKeeps(w: Setting, s: Moment, started: Starts, completed: set<Match>, clock: int, p: Packet, s': Moment, a: Answer, k: string)
    returns (completed': set<Match>)
    requires Sufficient(w) && History(w, s, started, completed, clock) && Arrives(w, p, clock)
    requires Step(w, s, p, s', a) && Hit(w.l, w.o, Remaining(w, s, p), p, k)
    ensures History(w, s', started, completed', p.now) && Grown(w, s, p, started, started, completed, completed')
    ensures a.complete <==> Finishes(w, s, p, k, Remaining(w, s, p)[k].Pair())
    ensures a.complete ==> a.client == Remaining(w, s, p)[k].clientID
  {
    hide Filed, StartsMarked, Sufficient, Step, Starting, Completing, Pruned, IsPartOf;
    var live := Remaining(w, s, p);
    StepOnHit(w, s, p, s', a, k);
    CompletingHit(w, s, started, completed, clock, p, k);
    FiledPruned(s.states, started, completed, w.o.window, p.now);
    FiledAdvanced(w.o, live, started, completed, k, p.now);
    StartsMarkedLater(w.l, w.o.slotSeconds, w.low, w.high, w.ttl, started, s.marks, clock, p.now);
    completed' := if a.complete then completed + {live[k].Pair()} else completed;
  }

  /** A sequence starts. */
  lemma StartKeeps(w: Setting, s: Moment, started: Starts, completed: set<Match>, clock: int, p: Packet, s': Moment, a: Answer, m: Match)
    returns (started': Starts, completed': set<Match>)
    requires Sufficient(w) && History(w, s, started, completed, clock) && Arrives(w, p, clock)
    requires Step(w, s, p, s', a) && Starting(w, s, p, m)
    ensures History(w, s', started', completed', p.now) && Grown(w, s, p, started, started', completed, completed')
    ensures a.complete <==> w.o.length == 1
    ensures a.complete ==> a.client == m.clientID
  {
    hide Filed, StartsMarked, Sufficient, Arrives, Pruned, Hit, MayStart, StateKey, MarkOf;
    var live := Remaining(w, s, p);
    var begun := StartIsNew(w, s, started, completed, clock, p, m);
    FiledPruned(s.states, started, completed, w.o.window, p.now);
    started' := started[m := begun];
    completed' := if w.o.length == 1 then completed + {m} else completed;
    FiledFresh(live, started, completed, p.ip, m, begun, p.now) by { hide Filed; ArrivesPlain(w, p, clock); }
    FiledAtOnce(live, started, completed, m, begun);
    forall n | Starting(w, s, p, n) ensures n == m {
      StartsOne(w, s, p, clock, m, n);
    }
    assert forall n, k :: !Finishes(w, s, p, k, n);
  }

  lemma ArrivesPlain(w: Setting, p: Packet, clock: int)
    requires Arrives(w, p, clock)
    ensures NoNul(p.ip)
  {
  }

  /** A packet that neither hits nor starts changes nothing but what is pruned. */
  lemma NothingKeeps(w: Setting, s: Moment, started: Starts, completed: set<Match>, clock: int, p: Packet, s': Moment, a: Answer)
    requires History(w, s, started, completed, clock) && Arrives(w, p, clock) && Step(w, s, p, s', a)
    requires forall k :: !Hit(w.l, w.o, Remaining(w, s, p), p, k)
    requires forall m :: !Starting(w, s, p, m)
    ensures History(w, s', started, completed, p.now) && Grown(w, s, p, started, started, completed, completed)
    ensures !a.complete
  {
    hide Filed, StartsMarked, Pruned, Hit, Step, Starting, Finishes;
    StepOnNothing(w, s, p, s', a);
    FiledPruned(s.states, started, completed, w.o.window, p.now);
    StartsMarkedLater(w.l, w.o.slotSeconds, w.low, w.high, w.ttl, started, s.marks, clock, p.now);
  }

  /** Every packet keeps the history, and completion is reported for what it completes. */
  lemma StepKeeps(w: Setting, s: Moment, started: Starts, completed: set<Match>, clock: int, p: Packet, s': Moment, a: Answer)
    returns (started': Starts, completed': set<Match>)
    requires Sufficient(w) && History(w, s, started, completed, clock) && Arrives(w, p, clock) && Step(w, s, p, s', a)
    ensures History(w, s', started', completed', p.now) && Grown(w, s, p, started, started', completed, completed')
    ensures a.complete <==> exists m :: Completing(w, s, p, m)
    ensures a.complete ==> exists m :: Completing(w, s, p, m) && m.clientID == a.client
  {
    hide Sufficient, History, Arrives, Step, Grown, Pruned, Hit, MayStart, IsPartOf;
    var live := Remaining(w, s, p);
    started' := started;
    if k :| Hit(w.l, w.o, live, p, k) {
      completed' := HitKeeps(w, s, started, completed, clock, p, s', a, k);
      CompletingHit(w, s, started, completed, clock, p, k);
    } else if m :| Starting(w, s, p, m) {
      started', completed' := StartKeeps(w, s, started, completed, clock, p, s', a, m);
      assert a.complete ==> Completing(w, s, p, m);
    } else {
      NothingKeeps(w, s, started, completed, clock, p, s', a);
      completed' := completed;
    }
  }

  /** A run from the empty tracker: packets arrive in order of the clock, each answered by a
      step. */
  ghost predicate Run(w: Setting, h: seq<Moment>, ps: seq<Packet>, answers: seq<Answer>) {
    && |h| == |ps| + 1 == |answers| + 1
    && h[0] == Moment(map[], map[])
    && (forall i :: 0 <= i < |ps| ==> Arrives(w, ps[i], ClockBefore(ps, i)))
    && (forall i :: 0 <= i < |ps| ==> Step(w, h[i], ps[i], h[i + 1], answers[i]))
  }

  function ClockBefore(ps: seq<Packet>, i: nat): (r: int)
    requires i <= |ps|
  {
    if i == 0 then 0 else ps[i - 1].now
  }

  ghost predicate StartsBefore(w: Setting, h: seq<Moment>, ps: seq<Packet>, n: nat, m: Match)
    requires n <= |ps| <= |h|
  {
    exists i :: 0 <= i < n && Starting(w, h[i], ps[i], m)
  }

  ghost predicate CompletesBefore(w: Setting, h: seq<Moment>, ps: seq<Packet>, n: nat, m: Match)
    requires n <= |ps| <= |h|
  {
    exists i :: 0 <= i < n && Completing(w, h[i], ps[i], m)
  }

  /** At every point of a run, the history is exactly what its packets started and
      completed. */
  lemma {:induction false} RunHistory(w: Setting, h: seq<Moment>, ps: seq<Packet>, answers: seq<Answer>, n: nat)
    returns (started: Starts, completed: set<Match>)
    requires Sufficient(w) && Run(w, h, ps, answers) && n <= |ps|
    ensures History(w, h[n], started, completed, ClockBefore(ps, n))
    ensures forall m :: m in started <==> StartsBefore(w, h, ps, n, m)
    ensures forall m :: m in completed <==> CompletesBefore(w, h, ps, n, m)
  {
    hide Sufficient, Step, Starting, Completing, Arrives, History;
    if n == 0 {
      started, completed := map[], {};
      EmptyHistory(w);
    } else {
      var s, c := RunHistory(w, h, ps, answers, n - 1);
      started, completed := StepKeeps(w, h[n - 1], s, c, ClockBefore(ps, n - 1), ps[n - 1], h[n], answers[n - 1]);
      forall m ensures StartsBefore(w, h, ps, n, m) <==> StartsBefore(w, h, ps, n - 1, m) || Starting(w, h[n - 1], ps[n - 1], m) {
      }
      forall m ensures CompletesBefore(w, h, ps, n, m) <==> CompletesBefore(w, h, ps, n - 1, m) || Completing(w, h[n - 1], ps[n - 1], m) {
      }
    }
  }

  lemma EmptyHistory(w: Setting)
    ensures History(w, Moment(map[], map[]), map[], {}, 0)
  {
  }

  /** In every run, no two packets start the same (client, slot), from whatever addresses
      they come, and a start overwrites no state. */
  lemma StartedOnce(w: Setting, h: seq<Moment>, ps: seq<Packet>, answers: seq<Answer>, i: nat, j: nat, m: Match)
    requires Sufficient(w) && Run(w, h, ps, answers) && i < j < |ps| && Starting(w, h[j], ps[j], m)
    ensures !Starting(w, h[i], ps[i], m)
    ensures StateKey(ps[j].ip, m.clientID, m.slot) !in Remaining(w, h[j], ps[j])
  {
    hide Sufficient, Step, Starting, Arrives, History;
    var started, completed := RunHistory(w, h, ps, answers, j);
    var _ := StartIsNew(w, h[j], started, completed, ClockBefore(ps, j), ps[j], m);
    assert !StartsBefore(w, h, ps, j, m);
  }

  /** In every run, no two packets complete the same (client, slot), and what completes was
      started by this packet or an earlier one. */
  lemma CompletedOnce(w: Setting, h: seq<Moment>, ps: seq<Packet>, answers: seq<Answer>, i: nat, j: nat, m: Match)
    requires Sufficient(w) && Run(w, h, ps, answers) && i < j < |ps| && Completing(w, h[j], ps[j], m)
    ensures !Completing(w, h[i], ps[i], m)
    ensures StartsBefore(w, h, ps, j + 1, m)
  {
    hide Sufficient, Step, Starting, Completing, Arrives, Filed, StartsMarked;
    var started, completed := RunHistory(w, h, ps, answers, j);
    var started', completed' := StepKeeps(w, h[j], started, completed, ClockBefore(ps, j), ps[j], h[j + 1], answers[j]);
    assert !CompletesBefore(w, h, ps, j, m);
    CompletedStarted(h[j + 1].states, started', completed', m);
    assert m in started || Starting(w, h[j], ps[j], m);
  }

  lemma CompletedStarted(states: States, started: Starts, completed: set<Match>, m: Match)
    requires Filed(states, started, completed) && m in completed
    ensures m in started
  {
  }

  /** In every run, completion is reported exactly when a sequence completes, and for its
      client. */
  lemma CompletionReported(w: Setting, h: seq<Moment>, ps: seq<Packet>, answers: seq<Answer>, j: nat)
    requires Sufficient(w) && Run(w, h, ps, answers) && j < |ps|
    ensures answers[j].complete <==> exists m :: Completing(w, h[j], ps[j], m)
    ensures answers[j].complete ==> exists m :: Completing(w, h[j], ps[j], m) && m.clientID == answers[j].client
  {
    hide Sufficient, Step, Starting, Completing, Arrives, History;
    var started, completed := RunHistory(w, h, ps, answers, j);
    var _, _ := StepKeeps(w, h[j], started, completed, ClockBefore(ps, j), ps[j], h[j + 1], answers[j]);
  }

  // ------------------------------------------------------------------- the tracker

  ghost function MarksAfterFirst(w: Setting, live: States, marks: Marks, p: Packet, m: Match): (r: Marks) {
    if MayStart(w.l, w.o, live, marks, w.limit, p, m) then marks[MarkOf(w, p, m) := p.now + w.ttl] else marks
  }

  lemma OnlyPart(w: Setting, p: Packet, clock: int, m: Match)
    requires Sufficient(w) && Arrives(w, p, clock) && IsPartOf(w.l, w.o, p, 0, m)
    ensures forall n :: IsPartOf(w.l, w.o, p, 0, n) ==> n == m
  {
    hide CollisionFree, Recognised;
    forall n | IsPartOf(w.l, w.o, p, 0, n) ensures n == m {
      RecognisedOnce(w.l, w.low, w.high, w.o.slotSeconds, w.o.length, 0, 0, p.dstPort, p.fields, p.now, m, n);
    }
  }

  lemma ArrivesInOrder(w: Setting, p: Packet, clock: int)
    requires Arrives(w, p, clock)
    ensures clock <= p.now
  {
  }

  /** The key of a sequence that may start is not taken. */
  lemma NewStateKey(w: Setting, live: States, marks: Marks, started: Starts, completed: set<Match>, clock: int, p: Packet, m: Match)
    requires Sufficient(w) && History(w, Moment(live, marks), started, completed, clock) && Arrives(w, p, clock)
    requires IsPartOf(w.l, w.o, p, 0, m) && MayStart(w.l, w.o, live, marks, w.limit, p, m)
    ensures StateKey(p.ip, m.clientID, m.slot) !in live && BeforeNul(StateKey(p.ip, m.clientID, m.slot)) == p.ip
  {
    hide Filed, StartsMarked;
    var c :| c in w.l.clients && c.clientID == m.clientID && IsPart(w.l, c, m.slot, w.o.length, 0, p.dstPort, p.fields);
    FreshStart(w.l, w.o.slotSeconds, w.low, w.high, w.ttl, started, marks, clock, w.limit, c, m.slot, p.now);
    FiledFresh(live, started, completed, p.ip, m, Start(p.now, c), p.now);
  }

  lemma ReadyToPrune(w: Setting, s: Moment, started: Starts, completed: set<Match>, clock: int, p: Packet)
    requires History(w, s, started, completed, clock)
    ensures forall k :: k in s.states ==> '\0' in k
    ensures Keyed(Remaining(w, s, p)) && History(w, Moment(Remaining(w, s, p), s.marks), started, completed, clock)
  {
    hide StartsMarked;
    KeysHaveNul(s.states, started, completed);
    FiledPruned(s.states, started, completed, w.o.window, p.now);
  }

  lemma HitMeetsStep(w: Setting, s: Moment, started: Starts, completed: set<Match>, clock: int, p: Packet, k: string)
    requires Sufficient(w) && History(w, s, started, completed, clock) && Arrives(w, p, clock)
    requires Hit(w.l, w.o, Remaining(w, s, p), p, k)
    ensures var r := AdvanceResult(w.o, Remaining(w, s, p), k, p.now);
            Step(w, s, p, Moment(r.states, s.marks), Answer(r.complete, r.client))
  {
    hide Filed, StartsMarked, CollisionFree, Recognised, Pruned;
    FiledPruned(s.states, started, completed, w.o.window, p.now);
    AdvanceMeetsSpec(w.l, w.low, w.high, w.o, s.states, started, completed, s.marks, w.limit, p, k);
  }

  lemma BeginMeetsStep(w: Setting, s: Moment, p: Packet, s': Moment, a: Answer)
    requires forall k :: !Hit(w.l, w.o, Remaining(w, s, p), p, k)
    requires forall m :: IsPartOf(w.l, w.o, p, 0, m) ==>
               && Result(s'.states, a.complete, a.client) == StartResult(w.l, w.o, Remaining(w, s, p), s.marks, w.limit, p, m)
               && s'.marks == MarksAfterFirst(w, Remaining(w, s, p), s.marks, p, m)
    requires (forall m :: !IsPartOf(w.l, w.o, p, 0, m)) ==>
               Result(s'.states, a.complete, a.client) == Result(Remaining(w, s, p), false, "") && s'.marks == s.marks
    ensures Step(w, s, p, s', a)
  {
    hide Pruned, Hit, IsPartOf, StartResult, MayStart;
    BeginMeetsSpec(w.l, w.o, s.states, s.marks, w.limit, p, Result(s'.states, a.complete, a.client));
    if m :| IsPartOf(w.l, w.o, p, 0, m) {
      assert s'.marks == MarksAfterFirst(w, Remaining(w, s, p), s.marks, p, m);
      assert Starting(w, s, p, m) <==> MayStart(w.l, w.o, Remaining(w, s, p), s.marks, w.limit, p, m);
    }
  }

  class SynSeqTracker {
    const opts: SequenceOptions
    const l: Listener
    const replay: SynReplayCache
    var states: States
    var perIP: map<string, int>
    var total: int

    /** The slots of the run for which tags are taken to be free of collisions. */
    ghost const low: int
    ghost const high: int
    /** Every sequence ever started and every one completed. */
    ghost var started: Starts
    ghost var completed: set<Match>
    /** The latest clock reading. */
    ghost var clock: int

    ghost function World(): (w: Setting) {
      Setting(l, opts, replay.maxEntries, replay.ttl, low, high)
    }

    ghost predicate Valid()
      reads this, replay, replay.entries
    {
      && replay.Valid() && replay.clock <= clock && Sufficient(World())
      && Counted(states.Keys, perIP, total)
      && History(World(), Moment(states, replay.marks), started, completed, clock)
    }

    constructor (o: SequenceOptions, l: Listener, ghost low: int, ghost high: int)
      requires CollisionFree(l, low, high)
      ensures Valid() && fresh(replay) && fresh(replay.entries)
      ensures opts == Normalized(o) && this.l == l && this.low == low && this.high == high
      ensures states == map[] && replay.marks == map[] && started == map[] && completed == {} && clock == 0
    {
      opts, this.l, this.low, this.high := Normalized(o), l, low, high;
      states, perIP, total := map[], map[], 0;
      started, completed, clock := map[], {}, 0;
      replay := new SynReplayCache(Normalized(o).slotSeconds * Time.SECOND * 3);
    }

    method DecInflightLocked(key: string, ip: string)
      requires Counted(states.Keys + {key}, perIP, total) && key !in states && ip == BeforeNul(key)
      modifies this`perIP, this`total
      ensures Counted(states.Keys, perIP, total)
    {
      CountedRemove(states.Keys + {key}, perIP, total, key);
      assert states.Keys + {key} - {key} == states.Keys;
      if Get(perIP, ip) > 0 {
        perIP := perIP[ip := perIP[ip] - 1];
        if perIP[ip] == 0 {
          perIP := perIP - {ip};
        }
      }
      if total > 0 {
        total := total - 1;
      }
    }

    method PruneLocked(now: int)
      requires Counted(states.Keys, perIP, total) && forall k :: k in states ==> '\0' in k
      modifies this`states, this`perIP, this`total
      ensures Counted(states.Keys, perIP, total)
      ensures states == Pruned(old(states), opts.window, now)
    {
      var todo := states.Keys;
      while todo != {}
        invariant todo <= states.Keys
        invariant Counted(states.Keys, perIP, total)
        invariant forall k :: k in states <==>
                    k in old(states) && (k in todo || now - old(states)[k].firstSeen <= opts.window)
        invariant forall k :: k in states ==> states[k] == old(states)[k]
        decreases todo
      {
        var key :| key in todo;
        todo := todo - {key};
        if now - states[key].firstSeen > opts.window {
          ghost var before := states.Keys;
          states := states - {key};
          assert states.Keys + {key} == before;
          // Every key has an address part, so the fallback for keys without one is dead.
          assert '\0' in key;
          DecInflightLocked(key, BeforeNul(key));
        }
      }
    }

    /** Looks for a state that waits for this packet, in any order. */
    method FindHit(p: Packet) returns (hit: Option<string>)
      requires Sufficient(World()) && Arrives(World(), p, clock) && Keyed(states)
      ensures hit.Some? ==> Hit(l, opts, states, p, hit.value)
      ensures hit.None? ==> forall k :: !Hit(l, opts, states, p, k)
    {
      var todo := states.Keys;
      while todo != {}
        invariant todo <= states.Keys
        invariant forall k :: k in states && k !in todo ==> !Hit(l, opts, states, p, k)
        decreases todo
      {
        var key :| key in todo;
        todo := todo - {key};
        var st := states[key];
        var found := Waits(key, st, p);
        if found {
          return Some(key);
        }
      }
      return None;
    }

    method Waits(key: string, st: State, p: Packet) returns (found: bool)
      requires Sufficient(World()) && Arrives(World(), p, clock)
      requires NoNul(BeforeNul(key)) && key == StateKey(BeforeNul(key), st.clientID, st.slot)
      ensures found <==> BeforeNul(key) == p.ip && IsPartOf(l, opts, p, st.matched, st.Pair())
    {
      PrefixIsAddress(BeforeNul(key), st.clientID, st.slot, p.ip);
      if !HasPrefix(key, p.ip + NUL) {
        return false;
      }
      var part := VerifySynSeqPart(l, opts.slotSeconds, opts.length, st.matched, p.dstPort, p.fields, p.now);
      if part.Some? && IsPartOf(l, opts, p, st.matched, st.Pair()) {
        RecognisedOnce(l, low, high, opts.slotSeconds, opts.length, st.matched, st.matched,
                       p.dstPort, p.fields, p.now, part.value, st.Pair());
      }
      return part.Some? && part.value.clientID == st.clientID && part.value.slot == st.slot;
    }

    /** The next part arrived: one more matched, or the sequence is complete. */
    method Advance(key: string, now: int) returns (complete: bool, client: string)
      requires Counted(states.Keys, perIP, total) && key in states
      modifies this`states, this`perIP, this`total
      ensures Counted(states.Keys, perIP, total)
      ensures Result(states, complete, client) == AdvanceResult(opts, old(states), key, now)
    {
      var st := states[key];
      states := states[key := st.(matched := st.matched + 1, lastSeen := now)];
      assert states.Keys == old(states).Keys;
      if st.matched + 1 >= opts.length {
        states := states - {key};
        assert states.Keys + {key} == old(states).Keys;
        DecInflightLocked(key, BeforeNul(key));
        return true, st.clientID;
      }
      return false, "";
    }

    /** The first part of a sequence: it starts if the counters and the replay cache
        allow it. */
    method Begin(p: Packet) returns (complete: bool, client: string)
      requires replay.Valid() && replay.clock <= clock && Sufficient(World()) && Counted(states.Keys, perIP, total)
      requires History(World(), Moment(states, replay.marks), started, completed, clock) && Arrives(World(), p, clock)
      modifies this`states, this`perIP, this`total, replay, replay.entries
      ensures replay.Valid() && replay.clock <= p.now && Counted(states.Keys, perIP, total)
      ensures forall m :: IsPartOf(l, opts, p, 0, m) ==>
                && Result(states, complete, client) ==
                   StartResult(l, opts, old(states), old(replay.marks), replay.maxEntries, p, m)
                && replay.marks == MarksAfterFirst(World(), old(states), old(replay.marks), p, m)
      ensures (forall m :: !IsPartOf(l, opts, p, 0, m)) ==>
                Result(states, complete, client) == Result(old(states), false, "") && replay.marks == old(replay.marks)
    {
      hide History, Sufficient, Recognised, SynReplayCache.Valid, StateKey, BeforeNul, Of, MarkOf;
      var part := VerifySynSeqPart(l, opts.slotSeconds, opts.length, 0, p.dstPort, p.fields, p.now);
      if part.None? {
        return false, "";
      }
      var m := part.value;
      OnlyPart(World(), p, clock, m);
      assert Get(perIP, p.ip) == |Of(states.Keys, p.ip)|;
      if Get(perIP, p.ip) >= opts.maxInflightPerIP || total >= opts.maxTotalInflight {
        return false, "";
      }
      complete, client := BeginMatched(p, m);
    }

    method BeginMatched(p: Packet, m: Match) returns (complete: bool, client: string)
      requires replay.Valid() && replay.clock <= clock && Sufficient(World()) && Counted(states.Keys, perIP, total)
      requires History(World(), Moment(states, replay.marks), started, completed, clock) && Arrives(World(), p, clock)
      requires IsPartOf(l, opts, p, 0, m)
      requires |Of(states.Keys, p.ip)| < opts.maxInflightPerIP && |states| < opts.maxTotalInflight
      modifies this`states, this`perIP, this`total, replay, replay.entries
      ensures replay.Valid() && replay.clock <= p.now && Counted(states.Keys, perIP, total)
      ensures Result(states, complete, client) ==
              StartResult(l, opts, old(states), old(replay.marks), replay.maxEntries, p, m)
      ensures replay.marks == MarksAfterFirst(World(), old(states), old(replay.marks), p, m)
    {
      hide History, Sufficient, IsPartOf, Counted, SynReplayCache.Valid, ReplayKey, SynNonce, StateKey, BeforeNul, Arrives;
      ArrivesInOrder(World(), p, clock);
      var r := replay.CheckAndMark(m.clientID, SynNonce(p.fields, l.protectedPort), p.now);
      if r != Accepted {
        return false, "";
      }
      if opts.length == 1 {
        return true, m.clientID;
      }
      NewStateKey(World(), states, old(replay.marks), started, completed, clock, p, m);
      InsertLocked(StateKey(p.ip, m.clientID, m.slot), p.ip, State(p.now, p.now, 1, m.clientID, m.slot));
      return false, "";
    }

    method InsertLocked(key: string, ip: string, st: State)
      requires Counted(states.Keys, perIP, total) && key !in states && BeforeNul(key) == ip
      modifies this`states, this`perIP, this`total
      ensures Counted(states.Keys, perIP, total) && states == old(states)[key := st]
    {
      CountedAdd(states.Keys, perIP, total, key);
      states := states[key := st];
      perIP := perIP[ip := Get(perIP, ip) + 1];
      total := total + 1;
      assert states.Keys == old(states).Keys + {key};
    }

    /** One packet is one step: the counters equal the number of states in all and per
        address, and what starts or completes never did before, from whatever address. */
    method Add(p: Packet) returns (complete: bool, client: string)
      requires Valid() && Arrives(World(), p, clock)
      modifies this, replay, replay.entries
      ensures Valid() && clock == p.now
      ensures Step(World(), Moment(old(states), old(replay.marks)), p, Moment(states, replay.marks), Answer(complete, client))
      ensures Grown(World(), Moment(old(states), old(replay.marks)), p, old(started), started, old(completed), completed)
    {
      hide History, Sufficient, Counted, Arrives, Step, SynReplayCache.Valid, Grown;
      complete, client := Answered(p);
      FinishStep(Moment(old(states), old(replay.marks)), p, Answer(complete, client));
    }

    /** Prunes, then looks for a state that waits for the packet, then for a start. */
    method Answered(p: Packet) returns (complete: bool, client: string)
      requires Valid() && Arrives(World(), p, clock)
      modifies this`states, this`perIP, this`total, replay, replay.entries
      ensures replay.Valid() && replay.clock <= p.now && Counted(states.Keys, perIP, total)
      ensures Step(World(), Moment(old(states), old(replay.marks)), p, Moment(states, replay.marks), Answer(complete, client))
    {
      hide History, Sufficient, Counted, Arrives, Step, SynReplayCache.Valid, AdvanceResult, StartResult, Pruned, Hit, IsPartOf,
           MarksAfterFirst;
      ghost var w, s0 := World(), Moment(states, replay.marks);
      ReadyToPrune(w, s0, started, completed, clock, p);
      ArrivesInOrder(w, p, clock);
      PruneLocked(p.now);
      var hit := FindHit(p);
      if hit.Some? {
        HitMeetsStep(w, s0, started, completed, clock, p, hit.value);
        complete, client := Advance(hit.value, p.now);
      } else {
        complete, client := Begin(p);
        BeginMeetsStep(w, s0, p, Moment(states, replay.marks), Answer(complete, client));
      }
    }

    /** Records what the packet started and completed. */
    ghost method FinishStep(s0: Moment, p: Packet, a: Answer)
      requires Sufficient(World()) && History(World(), s0, started, completed, clock) && Arrives(World(), p, clock)
      requires Step(World(), s0, p, Moment(states, replay.marks), a)
      modifies this`started, this`completed, this`clock
      ensures clock == p.now && History(World(), Moment(states, replay.marks), started, completed, clock)
      ensures Grown(World(), s0, p, old(started), started, old(completed), completed)
    {
      hide *;
      started, completed := StepKeeps(World(), s0, started, completed, clock, p, Moment(states, replay.marks), a);
      clock := p.now;
    }
  }
}
