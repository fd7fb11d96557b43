/**
 UDP sequences over whole runs: what the packets and the answers alone say about when a
 sequence is complete, and what happens to its key afterwards.
 */
module UdpRuns {
  import opened Replay
  import opened Text
  import opened UdpTrails
  import opened Inflight
  import Lists

  // ---------------------------------------------------------- the current attempt

  predicate AllBefore(at: seq<nat>, n: nat) {
    forall x :: 0 <= x < |at| ==> at[x] < n
  }

  /** The steps of an attempt, unless it has timed out. */
  function Unexpired(o: Options, ps: seq<Packet>, at: seq<nat>, now: int): (r: seq<nat>)
    requires AllBefore(at, |ps|)
  {
    if at != [] && now - ps[at[0]].now > o.window then [] else at
  }

  /** The steps before step `n` that make up the current attempt of a key: those answered
      Partial since it last began, completed or timed out. */
  function Current(o: Options, ps: seq<Packet>, rs: seq<Verdict>, n: nat, key: string): (at: seq<nat>)
    requires n <= |ps| && n <= |rs|
    ensures AllBefore(at, n)
  {
    if n == 0 then []
    else
      var before := Unexpired(o, ps, Current(o, ps, rs, n - 1, key), ps[n - 1].now);
      if ps[n - 1].key != key || rs[n - 1].Rejected? then before
      else if rs[n - 1] == Partial then before + [n - 1]
      else []
  }

  /** The attempt as step `j` finds it, after pruning. */
  function Found(o: Options, ps: seq<Packet>, rs: seq<Verdict>, j: nat): (at: seq<nat>)
    requires j < |ps| && j <= |rs|
    ensures AllBefore(at, j)
  {
    Unexpired(o, ps, Current(o, ps, rs, j, ps[j].key), ps[j].now)
  }

  /** The steps are parts of `key`, in order, each answered Partial. */
  ghost predicate ArePartial(ps: seq<Packet>, rs: seq<Verdict>, at: seq<nat>, key: string) {
    && AllBefore(at, |ps|) && AllBefore(at, |rs|)
    && (forall x :: 0 <= x < |at| ==> ps[at[x]].key == key && rs[at[x]] == Partial)
    && (forall x, y :: 0 <= x < y < |at| ==> at[x] < at[y])
  }

  lemma OnePartMore(ps: seq<Packet>, rs: seq<Verdict>, at: seq<nat>, n: nat, key: string)
    requires ArePartial(ps, rs, at, key) && AllBefore(at, n) && n < |ps| && n < |rs| && ps[n].key == key && rs[n] == Partial
    ensures ArePartial(ps, rs, at + [n], key)
  {
    var more := at + [n];
    forall x | 0 <= x < |more| ensures more[x] < |ps| && more[x] < |rs| && ps[more[x]].key == key && rs[more[x]] == Partial {
      assert x < |at| ==> more[x] == at[x];
    }
    forall x, y | 0 <= x < y < |more| ensures more[x] < more[y] {
      assert more[x] == at[x] && (y < |at| ==> more[y] == at[y]);
    }
  }

  /** An attempt is made of such steps. */
  lemma {:induction false} CurrentArePartial(o: Options, ps: seq<Packet>, rs: seq<Verdict>, n: nat, key: string)
    requires n <= |ps| && n <= |rs|
    ensures ArePartial(ps, rs, Current(o, ps, rs, n, key), key)
  {
    hide ArePartial;
    NoneArePartial(ps, rs, key);
    if n > 0 {
      CurrentArePartial(o, ps, rs, n - 1, key);
      var before := Unexpired(o, ps, Current(o, ps, rs, n - 1, key), ps[n - 1].now);
      if ps[n - 1].key == key && rs[n - 1] == Partial {
        OnePartMore(ps, rs, before, n - 1, key);
      }
    }
  }

  lemma NoneArePartial(ps: seq<Packet>, rs: seq<Verdict>, key: string)
    ensures ArePartial(ps, rs, [], key)
  {
  }

  ghost function PartsAt(ps: seq<Packet>, at: seq<nat>): (t: Trail)
    requires AllBefore(at, |ps|)
    ensures |t| == |at|
    ensures forall x :: 0 <= x < |at| ==> t[x] == ps[at[x]].AsPart()
  {
    seq(|at|, x requires 0 <= x < |at| => ps[at[x]].AsPart())
  }

  ghost function TrailOf(trails: Trails, key: string): (t: Trail) {
    if key in trails then trails[key] else []
  }

  ghost function LiveTrail(o: Options, t: Trail, now: int): (r: Trail) {
    if t != [] && TimedOut(t, o.window, now) then [] else t
  }

  /** What a step does to the trail of one key. */
  lemma StepTrail(o: Options, ttl: int, s: Moment, p: Packet, s': Moment, r: Verdict, key: string)
    requires Step(o, ttl, s.trails, s.blocked, p, s'.trails, s'.blocked, r)
    ensures var t := LiveTrail(o, TrailOf(s.trails, key), p.now);
            TrailOf(s'.trails, key) ==
            if p.key != key || r.Rejected? then t else if r == Partial then t + [p.AsPart()] else []
  {
    hide Decision, BlockedAfter;
    var live, blocks :|
      NonEmpty(s.trails) && NonEmpty(live) && Prunes(o, s.trails, s.blocked, ttl, p.now, live, blocks) &&
      r == Decision(o, live, blocks, p) && s'.trails == TrailsAfter(o, live, blocks, p) &&
      s'.blocked == BlockedAfter(o, live, blocks, ttl, p);
    assert TrailOf(live, key) == LiveTrail(o, TrailOf(s.trails, key), p.now);
  }

  lemma LivePartsAt(o: Options, ps: seq<Packet>, at: seq<nat>, now: int)
    requires AllBefore(at, |ps|)
    ensures LiveTrail(o, PartsAt(ps, at), now) == PartsAt(ps, Unexpired(o, ps, at, now))
  {
  }

  lemma PartsAtOneMore(ps: seq<Packet>, at: seq<nat>, n: nat)
    requires AllBefore(at, |ps|) && n < |ps|
    ensures PartsAt(ps, at + [n]) == PartsAt(ps, at) + [ps[n].AsPart()]
  {
  }

  lemma RunBegins(o: Options, ttl: int, h: seq<Moment>, ps: seq<Packet>, rs: seq<Verdict>)
    requires Run(o, ttl, h, ps, rs)
    ensures |h| == |ps| + 1 == |rs| + 1 && h[0] == Moment(map[], map[])
  {
    hide Step;
  }

  lemma RunStep(o: Options, ttl: int, h: seq<Moment>, ps: seq<Packet>, rs: seq<Verdict>, i: nat)
    requires Run(o, ttl, h, ps, rs) && i < |ps|
    ensures Step(o, ttl, h[i].trails, h[i].blocked, ps[i], h[i + 1].trails, h[i + 1].blocked, rs[i])
  {
    hide Step;
  }

  /** In every run the trail of a key is its current attempt. */
  lemma {:induction false} TrailIsCurrent(o: Options, ttl: int, h: seq<Moment>, ps: seq<Packet>, rs: seq<Verdict>, n: nat, key: string)
    requires Run(o, ttl, h, ps, rs) && n <= |ps|
    ensures TrailOf(h[n].trails, key) == PartsAt(ps, Current(o, ps, rs, n, key))
  {
    hide Run, Step, LiveTrail, PartsAt;
    RunBegins(o, ttl, h, ps, rs);
    if n > 0 {
      TrailIsCurrent(o, ttl, h, ps, rs, n - 1, key);
      RunStep(o, ttl, h, ps, rs, n - 1);
      StepTrail(o, ttl, h[n - 1], ps[n - 1], h[n], rs[n - 1], key);
      var at := Current(o, ps, rs, n - 1, key);
      LivePartsAt(o, ps, at, ps[n - 1].now);
      PartsAtOneMore(ps, Unexpired(o, ps, at, ps[n - 1].now), n - 1);
    }
  }

  // ------------------------------------------------------------ exact completion

  /** The steps carry every index once, one session id, and lie within the window of the
      first. */
  ghost predicate Whole(o: Options, ps: seq<Packet>, at: seq<nat>) {
    && AllBefore(at, |ps|)
    && |at| == o.length
    && (forall x :: 0 <= x < |at| ==> 0 <= ps[at[x]].index < o.length)
    && (forall x, y :: 0 <= x < y < |at| ==> ps[at[x]].index != ps[at[y]].index)
    && (forall x :: 0 <= x < |at| ==> ps[at[x]].session == ps[at[0]].session)
    && (forall x :: 0 <= x < |at| ==> ps[at[0]].now <= ps[at[x]].now <= ps[at[0]].now + o.window)
  }

  lemma WholeIsFull(o: Options, ps: seq<Packet>, at: seq<nat>)
    requires at != [] && AllBefore(at, |ps|)
    ensures Whole(o, ps, at) <==> |at| == o.length && PartsOk(o, PartsAt(ps, at))
  {
    var t := PartsAt(ps, at);
    forall x | 0 <= x < |at| ensures t[x].index == ps[at[x]].index && t[x].session == ps[at[x]].session && t[x].at == ps[at[x]].now {
    }
    if |at| == o.length && PartsOk(o, t) {
      forall x, y | 0 <= x < y < |at| ensures ps[at[x]].index != ps[at[y]].index {
        assert t[x].index != t[y].index;
      }
    }
  }

  /** Every index is among whole steps. */
  lemma WholeHasEveryIndex(o: Options, ps: seq<Packet>, at: seq<nat>, index: int) returns (x: nat)
    requires Whole(o, ps, at) && 0 <= index < o.length
    ensures x < |at| && ps[at[x]].index == index
  {
    WholeIsFull(o, ps, at);
    var t := PartsAt(ps, at);
    FullIffAllIndices(o, t);
    assert HasIndex(t, index);
    x :| 0 <= x < |t| && t[x].index == index;
  }

  /** One step is complete exactly when the live trail and the packet are whole. */
  lemma StepCompletes(o: Options, ttl: int, s: Moment, clock: int, p: Packet, s': Moment, r: Verdict)
    requires Step(o, ttl, s.trails, s.blocked, p, s'.trails, s'.blocked, r)
    requires Sound(o, s.trails, s.blocked, clock) && clock <= p.now && o.window >= 0
    ensures var t := LiveTrail(o, TrailOf(s.trails, p.key), p.now) + [p.AsPart()];
            r == Complete <==> GoodIndex(o, p) && |t| == o.length && PartsOk(o, t)
  {
    hide Sound, BlockedAfter, TrailsAfter;
    var live, blocks :|
      NonEmpty(s.trails) && NonEmpty(live) && Prunes(o, s.trails, s.blocked, ttl, p.now, live, blocks) &&
      r == Decision(o, live, blocks, p) && s'.trails == TrailsAfter(o, live, blocks, p) &&
      s'.blocked == BlockedAfter(o, live, blocks, ttl, p);
    SoundPruned(o, s.trails, s.blocked, ttl, clock, p.now, live, blocks);
    LiveTrailIs(o, ttl, s, p, live, blocks);
    DecidesComplete(o, live, blocks, p);
  }

  lemma LiveTrailIs(o: Options, ttl: int, s: Moment, p: Packet, live: Trails, blocks: Marks)
    requires NonEmpty(s.trails) && Prunes(o, s.trails, s.blocked, ttl, p.now, live, blocks)
    ensures LiveTrail(o, TrailOf(s.trails, p.key), p.now) == TrailOf(live, p.key)
  {
  }

  lemma DecidesComplete(o: Options, live: Trails, blocks: Marks, p: Packet)
    requires Sound(o, live, blocks, p.now) && NonEmpty(live) && NoneTimedOut(o, live, p.now) && o.window >= 0
    ensures var t := TrailOf(live, p.key) + [p.AsPart()];
            Decision(o, live, blocks, p) == Complete <==> GoodIndex(o, p) && |t| == o.length && PartsOk(o, t)
  {
    var t := TrailOf(live, p.key) + [p.AsPart()];
    assert t == Extended(live, p);
    if Decision(o, live, blocks, p) == Complete {
      CompleteIffAllParts(o, live, blocks, p);
    } else if GoodIndex(o, p) && |t| == o.length && PartsOk(o, t) {
      var was := live[p.key];
      assert t[|was|].session == t[0].session == was[0].session;
      forall j | 0 <= j < |was| ensures was[j].index != p.index {
        assert t[j].index != t[|was|].index;
      }
    }
  }

  /** Completion is exact, in every run: a packet is answered Complete if and only if its
      index is good and the current attempt of its key, together with it, carries every
      index once, with one session id, within the window of the first. By
      `CurrentArePartial` the attempt is made of earlier packets answered Partial. */
  lemma CompleteIffWhole(o: Options, ttl: int, h: seq<Moment>, ps: seq<Packet>, rs: seq<Verdict>, j: nat)
    requires Run(o, ttl, h, ps, rs) && j < |ps| && o.window >= 0
    ensures rs[j] == Complete <==> GoodIndex(o, ps[j]) && Whole(o, ps, Found(o, ps, rs, j) + [j])
  {
    hide Step, Sound, Whole, PartsOk;
    var at := Found(o, ps, rs, j);
    RunSound(o, ttl, h, ps, rs, j);
    TrailIsCurrent(o, ttl, h, ps, rs, j, ps[j].key);
    StepCompletes(o, ttl, h[j], ClockAt(ps, j), ps[j], h[j + 1], rs[j]);
    assert LiveTrail(o, TrailOf(h[j].trails, ps[j].key), ps[j].now) == PartsAt(ps, at);
    assert PartsAt(ps, at) + [ps[j].AsPart()] == PartsAt(ps, at + [j]);
    WholeIsFull(o, ps, at + [j]);
  }

  /** So every completion has its earlier packets. */
  lemma CompleteHasParts(o: Options, ttl: int, h: seq<Moment>, ps: seq<Packet>, rs: seq<Verdict>, j: nat) returns (at: seq<nat>)
    requires Run(o, ttl, h, ps, rs) && j < |ps| && o.window >= 0 && rs[j] == Complete
    ensures Whole(o, ps, at + [j])
    ensures AllBefore(at, j) && ArePartial(ps, rs, at, ps[j].key)
  {
    CompleteIffWhole(o, ttl, h, ps, rs, j);
    CurrentArePartial(o, ps, rs, j, ps[j].key);
    at := Found(o, ps, rs, j);
  }

  // ------------------------------------------------- why the attempt must be current

  const TWO: Options := Options(2, 10, 8, 8)

  function PartOfTwo(index: int, now: int): (p: Packet) {
    Packet("a", "a", index, 2, [], now)
  }

  /** Both parts, and the second one again. */
  const THREE: seq<Packet> := [PartOfTwo(0, 0), PartOfTwo(1, 1), PartOfTwo(1, 2)]
  const ANSWERS: seq<Verdict> := [Partial, Complete, Rejected(Replayed)]

  ghost function States3(): (h: seq<Moment>) {
    var done := Moment(map[], map["a" := 101]);
    [Moment(map[], map[]), Moment(map["a" := [Part(0, [], 0)]], map[]), done, done]
  }

  /** Earlier packets answered Partial that are whole together with a packet are not enough:
      the same part sent again is whole with the first one, and is refused. */
  lemma WholeIsNotEnough()
    ensures Run(TWO, 100, States3(), THREE, ANSWERS)
    ensures ANSWERS[0] == Partial && Whole(TWO, THREE, [0, 2]) && ANSWERS[2].Rejected?
  {
    hide Step, Whole;
    var h := States3();
    RepeatIsWhole();
    FirstOfThree();
    SecondOfThree();
    ThirdOfThree();
    AddressOfA();
    forall i | 0 <= i < 3
      ensures Step(TWO, 100, h[i].trails, h[i].blocked, THREE[i], h[i + 1].trails, h[i + 1].blocked, ANSWERS[i])
    {
      assert i == 0 || i == 1 || i == 2;
    }
  }

  lemma RepeatIsWhole()
    ensures Whole(TWO, THREE, [0, 2])
  {
  }

  lemma AddressOfA()
    ensures BeforeNul("a") == "a"
  {
    assert "a"[1..] == "";
    assert BeforeNul("a") == "a";
  }

  lemma FirstOfThree()
    ensures var h := States3(); Step(TWO, 100, h[0].trails, h[0].blocked, THREE[0], h[1].trails, h[1].blocked, ANSWERS[0])
  {
    var live: Trails, blocks: Marks := map[], map[];
    assert Of(live.Keys, "a") == {};
    assert Prunes(TWO, map[], map[], 100, 0, live, blocks);
    assert Decision(TWO, live, blocks, THREE[0]) == Partial;
    assert Extended(live, THREE[0]) == [Part(0, [], 0)];
  }

  lemma SecondOfThree()
    ensures var h := States3(); Step(TWO, 100, h[1].trails, h[1].blocked, THREE[1], h[2].trails, h[2].blocked, ANSWERS[1])
  {
    var live: Trails, blocks: Marks := map["a" := [Part(0, [], 0)]], map[];
    assert Prunes(TWO, live, blocks, 100, 1, live, blocks);
    assert !HasIndex(live["a"], 1);
    assert Decision(TWO, live, blocks, THREE[1]) == Complete;
    assert live - {"a"} == map[];
    assert LiveMarks(blocks, 1) == map[];
  }

  lemma ThirdOfThree()
    ensures var h := States3(); Step(TWO, 100, h[2].trails, h[2].blocked, THREE[2], h[3].trails, h[3].blocked, ANSWERS[2])
  {
    var live: Trails, blocks: Marks := map[], map["a" := 101];
    assert Prunes(TWO, live, blocks, 100, 2, live, blocks);
    assert Decision(TWO, live, blocks, THREE[2]) == Rejected(Replayed);
  }

  // ------------------------------------------------------------ after an attempt

  /** The attempt of `key` ends at step `i`: it completes, or it is found timed out. */
  predicate EndsAt(o: Options, ps: seq<Packet>, rs: seq<Verdict>, i: nat, key: string)
    requires i < |ps| && i < |rs|
  {
    || (rs[i] == Complete && ps[i].key == key)
    || Unexpired(o, ps, Current(o, ps, rs, i, key), ps[i].now) != Current(o, ps, rs, i, key)
  }

  /** There is room for `key` among the live blocks of the others. */
  ghost predicate RoomFor(o: Options, blocked: Marks, key: string, now: int) {
    |LiveMarks(blocked - {key}, now)| < o.maxTotalInflight
  }

  lemma CompletedBlocks(o: Options, live: Trails, blocks: Marks, ttl: int, p: Packet)
    requires NonEmpty(live) && Decision(o, live, blocks, p) == Complete
    requires RoomFor(o, BlockedAfter(o, live, blocks, ttl, p), p.key, p.now)
    ensures var b := BlockedAfter(o, live, blocks, ttl, p); p.key in b && b[p.key] == p.now + ttl
  {
    assert LiveMarks(blocks - {p.key}, p.now) == LiveMarks(blocks, p.now);
  }

  lemma TimeoutBlocks(o: Options, ttl: int, s: Moment, clock: int, p: Packet, live: Trails, blocks: Marks, key: string)
    requires Sound(o, s.trails, s.blocked, clock) && clock <= p.now && NonEmpty(s.trails) && NonEmpty(live)
    requires Prunes(o, s.trails, s.blocked, ttl, p.now, live, blocks)
    requires key in s.trails && TimedOut(s.trails[key], o.window, p.now)
    requires RoomFor(o, BlockedAfter(o, live, blocks, ttl, p), key, p.now)
    ensures key in blocks && blocks[key] == p.now + ttl
    ensures var b := BlockedAfter(o, live, blocks, ttl, p); key in b && b[key] == p.now + ttl
  {
    hide PartsOk, Few, HasIndex, Of;
    var after := BlockedAfter(o, live, blocks, ttl, p);
    if !(key in blocks && blocks[key] == p.now + ttl) {
      assert !IsBlocked(blocks, key, p.now);
      forall k | k in LiveMarks(blocks, p.now) ensures k in LiveMarks(after - {key}, p.now) {
      }
      Lists.SubsetSize(LiveMarks(blocks, p.now).Keys, LiveMarks(after - {key}, p.now).Keys);
    }
  }

  /** A step that ends an attempt blocks its key if there is room, and a packet of a key
      found timed out is refused already. */
  lemma EndBlocks(o: Options, ttl: int, s: Moment, clock: int, p: Packet, s': Moment, r: Verdict, key: string)
    requires Step(o, ttl, s.trails, s.blocked, p, s'.trails, s'.blocked, r)
    requires Sound(o, s.trails, s.blocked, clock) && clock <= p.now && RoomFor(o, s'.blocked, key, p.now)
    requires (r == Complete && p.key == key) || (key in s.trails && |s.trails[key]| >= 1 && TimedOut(s.trails[key], o.window, p.now))
    ensures key in s'.blocked && s'.blocked[key] == p.now + ttl
    ensures !(r == Complete && p.key == key) && p.key == key && ttl > 0 ==> r.Rejected?
  {
    hide Sound, Prunes, BlockedAfter, TrailsAfter, RoomFor;
    var live, blocks :|
      NonEmpty(s.trails) && NonEmpty(live) && Prunes(o, s.trails, s.blocked, ttl, p.now, live, blocks) &&
      r == Decision(o, live, blocks, p) && s'.trails == TrailsAfter(o, live, blocks, p) &&
      s'.blocked == BlockedAfter(o, live, blocks, ttl, p);
    if r == Complete && p.key == key {
      CompletedBlocks(o, live, blocks, ttl, p);
    } else {
      TimeoutBlocks(o, ttl, s, clock, p, live, blocks, key);
    }
  }

  /** In every run, if there is room when the attempt of a key ends, by completion or by
      timeout, every later packet of that key is refused for the nonce lifetime, and so is
      the packet that found it timed out. */
  lemma EndedKeyRefused(o: Options, ttl: int, h: seq<Moment>, ps: seq<Packet>, rs: seq<Verdict>, i: nat, j: nat, key: string)
    requires Run(o, ttl, h, ps, rs) && i <= j < |ps| && o.window >= 0
    requires EndsAt(o, ps, rs, i, key) && RoomFor(o, h[i + 1].blocked, key, ps[i].now)
    requires ps[j].key == key && ps[j].now < ps[i].now + ttl
    requires i == j ==> rs[i] != Complete
    ensures rs[j].Rejected?
  {
    hide Step, Sound, RoomFor;
    RunSound(o, ttl, h, ps, rs, i);
    TrailIsCurrent(o, ttl, h, ps, rs, i, key);
    EndBlocks(o, ttl, h[i], ClockAt(ps, i), ps[i], h[i + 1], rs[i], key);
    if i < j {
      RefusedUntilExpiry(o, ttl, h, ps, rs, i + 1, j, key);
    }
  }

  // ----------------------------------------------------------------- every answer

  /** The keys with an attempt in progress when step `j` is decided. */
  function InProgress(o: Options, ps: seq<Packet>, rs: seq<Verdict>, j: nat): (keys: set<string>)
    requires j < |ps| && j <= |rs|
  {
    set i | 0 <= i < j && Unexpired(o, ps, Current(o, ps, rs, j, ps[i].key), ps[j].now) != [] :: ps[i].key
  }

  function InProgressFrom(o: Options, ps: seq<Packet>, rs: seq<Verdict>, j: nat, ip: string): (keys: set<string>)
    requires j < |ps| && j <= |rs|
  {
    set i | 0 <= i < j && ps[i].ip == ip && Unexpired(o, ps, Current(o, ps, rs, j, ps[i].key), ps[j].now) != [] :: ps[i].key
  }

  /** The attempt `at` of the key does not take packet `j`: another session, or a part again. */
  predicate OtherSession(ps: seq<Packet>, at: seq<nat>, j: nat)
    requires j < |ps| && AllBefore(at, j)
  {
    at != [] && ps[j].session != ps[at[0]].session
  }

  predicate SentBefore(ps: seq<Packet>, at: seq<nat>, j: nat)
    requires j < |ps| && AllBefore(at, j)
  {
    exists x :: 0 <= x < |at| && ps[at[x]].index == ps[j].index
  }

  /** How a packet is answered, from the attempt it finds and from three facts: whether its
      key is blocked, and whether its address and the tracker have room. */
  ghost predicate AnsweredBy(o: Options, ps: seq<Packet>, at: seq<nat>, j: nat, blocked: bool, fewFrom: bool, few: bool, r: Verdict)
    requires j < |ps| && AllBefore(at, j)
  {
    var good := ps[j].total == o.length && 2 <= o.length <= 8 && 0 <= ps[j].index < o.length;
    var same, again := !OtherSession(ps, at, j), SentBefore(ps, at, j);
    && (r == Rejected(BadIndex) <==> !good)
    && (r == Rejected(Replayed) <==> good && at == [] && blocked)
    && (r == Rejected(TooManyPerIP) <==> good && at == [] && !blocked && !fewFrom)
    && (r == Rejected(TooMany) <==> good && at == [] && !blocked && fewFrom && !few)
    && (r == Rejected(SessionMismatch) <==> good && at != [] && !same)
    && (r == Rejected(Duplicate) <==> good && at != [] && same && again)
    && (r == Complete <==> good && at != [] && same && !again && |at| + 1 == o.length)
    && (r == Partial <==>
          || (good && at == [] && !blocked && fewFrom && few)
          || (good && at != [] && same && !again && |at| + 1 < o.length))
    && r != Rejected(InvalidFrame)
  }

  lemma DecisionAnswers(o: Options, live: Trails, blocks: Marks, ps: seq<Packet>, at: seq<nat>, j: nat)
    requires j < |ps| && AllBefore(at, j) && NonEmpty(live) && Sound(o, live, blocks, ps[j].now)
    requires TrailOf(live, ps[j].key) == PartsAt(ps, at)
    ensures AnsweredBy(o, ps, at, j, IsBlocked(blocks, ps[j].key, ps[j].now),
                       |Of(live.Keys, ps[j].ip)| < o.maxInflightPerIP, |live.Keys| < o.maxTotalInflight,
                       Decision(o, live, blocks, ps[j]))
  {
    hide Of, PartsOk, Few;
    var p := ps[j];
    if p.key in live {
      assert Attempt(o, live[p.key]);
      assert HasIndex(live[p.key], p.index) <==> SentBefore(ps, at, j);
    }
  }

  lemma LiveIffInProgress(o: Options, ttl: int, h: seq<Moment>, ps: seq<Packet>, rs: seq<Verdict>, j: nat, live: Trails, blocks: Marks)
    requires Run(o, ttl, h, ps, rs) && j < |ps| && NonEmpty(h[j].trails) && NonEmpty(live)
    requires Prunes(o, h[j].trails, h[j].blocked, ttl, ps[j].now, live, blocks)
    ensures live.Keys == InProgress(o, ps, rs, j)
    ensures Of(live.Keys, ps[j].ip) == InProgressFrom(o, ps, rs, j, ps[j].ip)
    ensures TrailOf(live, ps[j].key) == PartsAt(ps, Found(o, ps, rs, j))
  {
    hide Step, Current, Unexpired, Prunes;
    forall key
      ensures key in live <==> Unexpired(o, ps, Current(o, ps, rs, j, key), ps[j].now) != []
      ensures key in live ==> exists i :: 0 <= i < j && ps[i].key == key
    {
      LiveKey(o, ttl, h, ps, rs, j, live, blocks, key);
    }
    LiveKey(o, ttl, h, ps, rs, j, live, blocks, ps[j].key);
  }

  lemma LiveKey(o: Options, ttl: int, h: seq<Moment>, ps: seq<Packet>, rs: seq<Verdict>, j: nat, live: Trails, blocks: Marks, key: string)
    requires Run(o, ttl, h, ps, rs) && j < |ps| && NonEmpty(h[j].trails) && NonEmpty(live)
    requires Prunes(o, h[j].trails, h[j].blocked, ttl, ps[j].now, live, blocks)
    ensures TrailOf(live, key) == PartsAt(ps, Unexpired(o, ps, Current(o, ps, rs, j, key), ps[j].now))
    ensures key in live <==> Unexpired(o, ps, Current(o, ps, rs, j, key), ps[j].now) != []
    ensures key in live ==> exists i :: 0 <= i < j && ps[i].key == key
  {
    hide Step;
    TrailIsCurrent(o, ttl, h, ps, rs, j, key);
    var at := Current(o, ps, rs, j, key);
    LivePartsAt(o, ps, at, ps[j].now);
    assert TrailOf(live, key) == LiveTrail(o, TrailOf(h[j].trails, key), ps[j].now);
    CurrentArePartial(o, ps, rs, j, key);
    assert at != [] ==> ps[at[0]].key == key;
  }

  /** Every answer is exact, in every run: which one a packet gets follows from its index and
      total, from the current attempt of its key, from how many attempts are in progress,
      from its address and in all, and from the block of its key. */
  lemma AnswerIff(o: Options, ttl: int, h: seq<Moment>, ps: seq<Packet>, rs: seq<Verdict>, j: nat)
    requires Run(o, ttl, h, ps, rs) && j < |ps| && o.window >= 0
    ensures AnsweredBy(o, ps, Found(o, ps, rs, j), j, IsBlocked(h[j + 1].blocked, ps[j].key, ps[j].now),
                       |InProgressFrom(o, ps, rs, j, ps[j].ip)| < o.maxInflightPerIP,
                       |InProgress(o, ps, rs, j)| < o.maxTotalInflight, rs[j])
  {
    hide Sound, AnsweredBy, Prunes, InProgress, InProgressFrom, Found, TrailsAfter, Decision;
    var s, p, s', r := h[j], ps[j], h[j + 1], rs[j];
    assert Step(o, ttl, s.trails, s.blocked, p, s'.trails, s'.blocked, r);
    var live, blocks :|
      NonEmpty(s.trails) && NonEmpty(live) && Prunes(o, s.trails, s.blocked, ttl, p.now, live, blocks) &&
      r == Decision(o, live, blocks, p) && s'.trails == TrailsAfter(o, live, blocks, p) &&
      s'.blocked == BlockedAfter(o, live, blocks, ttl, p);
    RunSound(o, ttl, h, ps, rs, j);
    SoundPruned(o, s.trails, s.blocked, ttl, ClockAt(ps, j), p.now, live, blocks);
    LiveIffInProgress(o, ttl, h, ps, rs, j, live, blocks);
    DecisionAnswers(o, live, blocks, ps, Found(o, ps, rs, j), j);
    SameAnswer(o, ps, Found(o, ps, rs, j), j, live, blocks, ttl,
      |InProgressFrom(o, ps, rs, j, ps[j].ip)| < o.maxInflightPerIP, |InProgress(o, ps, rs, j)| < o.maxTotalInflight);
  }

  /** Only a packet that finds an attempt can block its own key, so what it finds may be read
      off afterwards. */
  lemma SameAnswer(o: Options, ps: seq<Packet>, at: seq<nat>, j: nat, live: Trails, blocks: Marks, ttl: int, fewFrom: bool, few: bool)
    requires j < |ps| && AllBefore(at, j) && NonEmpty(live)
    requires AnsweredBy(o, ps, at, j, IsBlocked(blocks, ps[j].key, ps[j].now), fewFrom, few, Decision(o, live, blocks, ps[j]))
    ensures AnsweredBy(o, ps, at, j, IsBlocked(BlockedAfter(o, live, blocks, ttl, ps[j]), ps[j].key, ps[j].now), fewFrom, few,
                       Decision(o, live, blocks, ps[j]))
  {
    hide Decision, SentBefore, OtherSession;
  }

  // ---------------------------------------------------------------- where blocks come from

  lemma StepBlock(o: Options, ttl: int, s: Moment, p: Packet, s': Moment, r: Verdict, key: string)
    requires Step(o, ttl, s.trails, s.blocked, p, s'.trails, s'.blocked, r) && key in s'.blocked
    ensures || (key in s.blocked && s'.blocked[key] == s.blocked[key])
            || (s'.blocked[key] == p.now + ttl
                && ((r == Complete && p.key == key) || LiveTrail(o, TrailOf(s.trails, key), p.now) != TrailOf(s.trails, key)))
  {
    hide Decision, TrailsAfter;
    var live, blocks :|
      NonEmpty(s.trails) && NonEmpty(live) && Prunes(o, s.trails, s.blocked, ttl, p.now, live, blocks) &&
      r == Decision(o, live, blocks, p) && s'.trails == TrailsAfter(o, live, blocks, p) &&
      s'.blocked == BlockedAfter(o, live, blocks, ttl, p);
  }

  /** In every run a block was set when an attempt of its key ended, by completion or by
      timeout, and lasts the nonce lifetime from then on. */
  lemma {:induction false} BlockedWasEnded(o: Options, ttl: int, h: seq<Moment>, ps: seq<Packet>, rs: seq<Verdict>, n: nat, key: string)
    returns (i: nat)
    requires Run(o, ttl, h, ps, rs) && n <= |ps| && key in h[n].blocked
    ensures i < n && EndsAt(o, ps, rs, i, key) && h[n].blocked[key] == ps[i].now + ttl
  {
    hide Step;
    var last := n - 1;
    StepBlock(o, ttl, h[last], ps[last], h[n], rs[last], key);
    if key in h[last].blocked && h[n].blocked[key] == h[last].blocked[key] {
      i := BlockedWasEnded(o, ttl, h, ps, rs, last, key);
    } else {
      i := last;
      TrailIsCurrent(o, ttl, h, ps, rs, last, key);
    }
  }
}
