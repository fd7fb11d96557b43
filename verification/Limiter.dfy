/**
 The rate limiter: a counter per key that is reset when its window has passed. The
 reference below never forgets a window.
 */
module Limiter {
  import opened Lists
  import Replay
  import Time

  const DEFAULT_MAX_ENTRIES: int := 65536

  /** At most `limit` calls per window of length `every`, at most `max` windows. */
  datatype Config = Config(limit: int, every: int, max: int) {
    ghost predicate Valid() {
      limit >= 1 && every >= 1 && max >= 1
    }
  }

  datatype Bucket = Bucket(start: int, used: int)

  type Buckets = map<string, Bucket>

  // -------------------------------------------------------------- the reference

  function KeyOf(key: string): (r: string) {
    if key == "" then "default" else key
  }

  /** The window of `key` has not passed. */
  predicate Open(c: Config, b: Buckets, key: string, now: int) {
    key in b && now < b[key].start + c.every
  }

  function OpenKeys(c: Config, b: Buckets, now: int): (r: set<string>) {
    set k | k in b && Open(c, b, k, now)
  }

  /** An open window has room for `limit` calls; a new window needs one of `max` places. */
  predicate Allowed(c: Config, b: Buckets, key: string, now: int) {
    if Open(c, b, key, now) then b[key].used < c.limit else |OpenKeys(c, b, now)| < c.max
  }

  function After(c: Config, b: Buckets, key: string, now: int): (r: Buckets) {
    if !Allowed(c, b, key, now) then b
    else if Open(c, b, key, now) then b[key := Bucket(b[key].start, b[key].used + 1)]
    else b[key := Bucket(now, 1)]
  }

  function BucketsAfter(c: Config, calls: seq<Replay.Call>): (r: Buckets) {
    if calls == [] then map[]
    else
      var last := calls[|calls| - 1];
      After(c, BucketsAfter(c, calls[..|calls| - 1]), KeyOf(last.key), last.now)
  }

  /** Call `i` of the run is allowed. */
  predicate AllowedAt(c: Config, calls: seq<Replay.Call>, i: nat)
    requires i < |calls|
  {
    Allowed(c, BucketsAfter(c, calls[..i]), KeyOf(calls[i].key), calls[i].now)
  }

  /** How many calls for `key` at times in [from, to) are allowed. */
  function Count(c: Config, calls: seq<Replay.Call>, key: string, from: int, to: int): (n: nat) {
    if calls == [] then 0
    else
      var i := |calls| - 1;
      Count(c, calls[..i], key, from, to)
      + if KeyOf(calls[i].key) == key && from <= calls[i].now < to && AllowedAt(c, calls, i) then 1 else 0
  }

  lemma {:induction false} NoneBefore(c: Config, calls: seq<Replay.Call>, key: string, from: int, to: int)
    requires forall i :: 0 <= i < |calls| ==> calls[i].now < from
    ensures Count(c, calls, key, from, to) == 0
  {
    if calls != [] {
      NoneBefore(c, calls[..|calls| - 1], key, from, to);
    }
  }

  /** What the counts in an interval of one window's length can be, by where the key's
      last window started. */
  ghost predicate Bounded(c: Config, b: Buckets, key: string, from: int, n: nat) {
    if key !in b then n == 0
    else
      && 1 <= b[key].used <= c.limit
      && (b[key].start < from ==> n <= b[key].used - 1)
      && (from <= b[key].start < from + c.every ==> n <= c.limit - 1 + b[key].used)
      && n <= 2 * c.limit - 1
  }

  lemma {:induction false} AlwaysBounded(c: Config, calls: seq<Replay.Call>, key: string, from: int)
    requires c.Valid() && Replay.NonDecreasing(calls)
    ensures Bounded(c, BucketsAfter(c, calls), key, from, Count(c, calls, key, from, from + c.every))
    ensures key in BucketsAfter(c, calls) ==> calls != [] && BucketsAfter(c, calls)[key].start <= calls[|calls| - 1].now
  {
    hide Allowed;
    if calls != [] {
      var i := |calls| - 1;
      var last, before := calls[i], BucketsAfter(c, calls[..i]);
      AlwaysBounded(c, calls[..i], key, from);
      if last.now < from {
        NoneBefore(c, calls[..i], key, from, from + c.every);
      }
      if Allowed(c, before, key, last.now) && Open(c, before, key, last.now) {
        AllowedHasRoom(c, before, key, last.now);
      }
    }
  }

  lemma AllowedHasRoom(c: Config, b: Buckets, key: string, now: int)
    requires Allowed(c, b, key, now) && Open(c, b, key, now)
    ensures b[key].used < c.limit
  {
  }

  /** In every run with a clock that never goes back, every half-open interval of one
      window's length has at most 2 * limit - 1 allowed calls for a key. */
  lemma AtMostTwiceLessOne(c: Config, calls: seq<Replay.Call>, key: string, from: int)
    requires c.Valid() && Replay.NonDecreasing(calls)
    ensures Count(c, calls, key, from, from + c.every) <= 2 * c.limit - 1
  {
    AlwaysBounded(c, calls, key, from);
  }

  // ------------------------------------------------------ every answer, from the calls

  /** The allowed calls for `key` among the first `n`, since its window last began. */
  function Since(c: Config, calls: seq<Replay.Call>, n: nat, key: string): (at: seq<nat>)
    requires n <= |calls|
    ensures forall x :: 0 <= x < |at| ==> at[x] < n && KeyOf(calls[at[x]].key) == key
  {
    if n == 0 then []
    else
      var before := Since(c, calls, n - 1, key);
      if KeyOf(calls[n - 1].key) != key || !AllowedAt(c, calls, n - 1) then before
      else if before == [] || calls[n - 1].now >= calls[before[0]].now + c.every then [n - 1]
      else before + [n - 1]
  }

  /** The window that these calls began has not passed at `now`. */
  predicate Lasting(c: Config, calls: seq<Replay.Call>, at: seq<nat>, now: int)
    requires forall x :: 0 <= x < |at| ==> at[x] < |calls|
  {
    at != [] && now < calls[at[0]].now + c.every
  }

  /** The keys with a window at call `j`. */
  function Windows(c: Config, calls: seq<Replay.Call>, j: nat): (keys: set<string>)
    requires j < |calls|
  {
    set i | 0 <= i < j && Lasting(c, calls, Since(c, calls, j, KeyOf(calls[i].key)), calls[j].now) :: KeyOf(calls[i].key)
  }

  /** In every run the window of a key began with the first of its calls since, and counts
      them all. */
  lemma {:induction false} WindowIsCalls(c: Config, calls: seq<Replay.Call>, n: nat, key: string)
    requires n <= |calls|
    ensures var at, b := Since(c, calls, n, key), BucketsAfter(c, calls[..n]);
            (key in b <==> at != []) && (key in b ==> b[key] == Bucket(calls[at[0]].now, |at|))
  {
    hide Allowed;
    if n > 0 {
      WindowIsCalls(c, calls, n - 1, key);
      assert calls[..n][..n - 1] == calls[..n - 1];
    }
  }

  lemma WindowsAreOpen(c: Config, calls: seq<Replay.Call>, j: nat)
    requires j < |calls|
    ensures OpenKeys(c, BucketsAfter(c, calls[..j]), calls[j].now) == Windows(c, calls, j)
  {
    hide BucketsAfter, Since;
    var b := BucketsAfter(c, calls[..j]);
    forall key
      ensures Open(c, b, key, calls[j].now) <==> Lasting(c, calls, Since(c, calls, j, key), calls[j].now)
      ensures Lasting(c, calls, Since(c, calls, j, key), calls[j].now) ==> exists i :: 0 <= i < j && KeyOf(calls[i].key) == key
    {
      WindowIsCalls(c, calls, j, key);
      var at := Since(c, calls, j, key);
      assert at != [] ==> KeyOf(calls[at[0]].key) == key;
    }
  }

  /** Every answer is exact, in every run: a call is allowed if and only if its key has a
      window with fewer calls than the limit, or none and fewer keys than `max` have one. */
  lemma AllowedIff(c: Config, calls: seq<Replay.Call>, j: nat)
    requires j < |calls|
    ensures var at := Since(c, calls, j, KeyOf(calls[j].key));
            AllowedAt(c, calls, j) <==>
            if Lasting(c, calls, at, calls[j].now) then |at| < c.limit else |Windows(c, calls, j)| < c.max
  {
    hide BucketsAfter, Since, Windows;
    WindowIsCalls(c, calls, j, KeyOf(calls[j].key));
    WindowsAreOpen(c, calls, j);
  }

  function Repeated(key: string, now: int, m: nat): (r: seq<Replay.Call>)
    ensures |r| == m
  {
    seq(m, _ => Replay.Call(key, now))
  }

  lemma Appended(c: Config, calls: seq<Replay.Call>, key: string, now: int, from: int, to: int)
    requires key != ""
    ensures var all := calls + [Replay.Call(key, now)];
            && BucketsAfter(c, all) == After(c, BucketsAfter(c, calls), key, now)
            && Count(c, all, key, from, to) == Count(c, calls, key, from, to)
               + if from <= now < to && Allowed(c, BucketsAfter(c, calls), key, now) then 1 else 0
  {
    hide After, Allowed;
    var all := calls + [Replay.Call(key, now)];
    assert all[..|calls|] == calls;
  }

  /** Calls in an open window that fit are all allowed. */
  lemma {:induction false} Burst(c: Config, calls: seq<Replay.Call>, key: string, now: int, m: nat, from: int, to: int)
    requires key != "" && Open(c, BucketsAfter(c, calls), key, now) && BucketsAfter(c, calls)[key].used + m <= c.limit
    ensures var all, b := calls + Repeated(key, now, m), BucketsAfter(c, calls)[key];
            && BucketsAfter(c, all) == BucketsAfter(c, calls)[key := Bucket(b.start, b.used + m)]
            && Count(c, all, key, from, to) == Count(c, calls, key, from, to) + if from <= now < to then m else 0
  {
    hide BucketsAfter, Count, OpenKeys;
    if m == 0 {
      assert calls + Repeated(key, now, m) == calls;
    } else {
      var fewer := calls + Repeated(key, now, m - 1);
      Burst(c, calls, key, now, m - 1, from, to);
      assert calls + Repeated(key, now, m) == fewer + [Replay.Call(key, now)];
      Appended(c, fewer, key, now, from, to);
    }
  }

  /** One call at time 0, the rest of its window just before it passes, and a whole
      window right after. */
  function Crowd(c: Config, key: string): (r: seq<Replay.Call>)
    requires c.Valid()
  {
    [Replay.Call(key, 0)] + Repeated(key, c.every - 1, c.limit - 1) + [Replay.Call(key, c.every)]
    + Repeated(key, c.every, c.limit - 1)
  }

  /** The bound is reached for every limit, unless windows are a nanosecond long. */
  lemma BoundReached(c: Config, key: string)
    requires c.Valid() && c.every >= 2 && key != ""
    ensures Replay.NonDecreasing(Crowd(c, key))
    ensures Count(c, Crowd(c, key), key, c.every - 1, c.every - 1 + c.every) == 2 * c.limit - 1
  {
    hide BucketsAfter, Count, OpenKeys, Repeated, Replay.NonDecreasing;
    CrowdInOrder(c, key);
    var from, to := c.every - 1, c.every - 1 + c.every;
    var first := [Replay.Call(key, 0)];
    FirstCall(c, key, from, to);
    Burst(c, first, key, c.every - 1, c.limit - 1, from, to);
    var early := first + Repeated(key, c.every - 1, c.limit - 1);
    NextWindow(c, early, key, from, to);
    Burst(c, early + [Replay.Call(key, c.every)], key, c.every, c.limit - 1, from, to);
  }

  lemma CrowdInOrder(c: Config, key: string)
    requires c.Valid()
    ensures Replay.NonDecreasing(Crowd(c, key))
  {
  }

  lemma FirstCall(c: Config, key: string, from: int, to: int)
    requires c.Valid() && key != "" && 0 < from
    ensures var b := BucketsAfter(c, [Replay.Call(key, 0)]); b == map[key := Bucket(0, 1)]
    ensures Count(c, [Replay.Call(key, 0)], key, from, to) == 0
  {
    Appended(c, [], key, 0, from, to);
    assert [] + [Replay.Call(key, 0)] == [Replay.Call(key, 0)];
    assert OpenKeys(c, map[], 0) == {};
  }

  lemma NextWindow(c: Config, calls: seq<Replay.Call>, key: string, from: int, to: int)
    requires c.Valid() && key != "" && from <= c.every < to
    requires key in BucketsAfter(c, calls) && BucketsAfter(c, calls)[key].start == 0
    requires forall k :: k in BucketsAfter(c, calls) ==> k == key
    ensures var all := calls + [Replay.Call(key, c.every)];
            && key in BucketsAfter(c, all) && BucketsAfter(c, all)[key] == Bucket(c.every, 1)
            && Count(c, all, key, from, to) == Count(c, calls, key, from, to) + 1
  {
    hide BucketsAfter, Count;
    Appended(c, calls, key, c.every, from, to);
    assert OpenKeys(c, BucketsAfter(c, calls), c.every) == {};
  }

  // -------------------------------------------------------------------- the code

  /** Store and reference agree on the windows that are open at `now`. */
  ghost predicate Agree(c: Config, b: Buckets, entries: Buckets, now: int) {
    && (forall k :: Open(c, b, k, now) ==> k in entries && entries[k] == b[k])
    && (forall k :: Open(c, entries, k, now) ==> k in b && entries[k] == b[k])
  }

  ghost predicate AllOpen(c: Config, entries: Buckets, now: int) {
    forall k :: k in entries ==> Open(c, entries, k, now)
  }

  lemma AgreeLater(c: Config, b: Buckets, entries: Buckets, now: int, later: int)
    requires Agree(c, b, entries, now) && now <= later
    ensures Agree(c, b, entries, later)
  {
  }

  lemma AgreeDropped(c: Config, b: Buckets, entries: Buckets, key: string, now: int)
    requires Agree(c, b, entries, now) && !Open(c, entries, key, now)
    ensures Agree(c, b, entries - {key}, now)
  {
  }

  lemma AgreeStored(c: Config, b: Buckets, entries: Buckets, key: string, w: Bucket, now: int)
    requires Agree(c, b, entries, now)
    ensures Agree(c, b[key := w], entries[key := w], now)
  {
    assert forall k :: k != key ==> (Open(c, b[key := w], k, now) <==> Open(c, b, k, now));
    assert forall k :: k != key ==> (Open(c, entries[key := w], k, now) <==> Open(c, entries, k, now));
  }

  lemma SizeFromStore(c: Config, b: Buckets, entries: Buckets, key: string, now: int)
    requires Agree(c, b, entries, now)
    ensures Open(c, b, key, now) <==> Open(c, entries, key, now)
    ensures Open(c, b, key, now) ==> b[key] == entries[key]
    ensures |OpenKeys(c, b, now)| <= |entries|
    ensures key in entries && !Open(c, entries, key, now) ==> |OpenKeys(c, b, now)| < |entries|
    ensures AllOpen(c, entries, now) ==> |OpenKeys(c, b, now)| == |entries|
  {
    var open := OpenKeys(c, b, now);
    assert open == OpenKeys(c, entries, now);
    SubsetSize(open, entries.Keys);
    if key in entries && !Open(c, entries, key, now) {
      SubsetSize(open, entries.Keys - {key});
    }
    if AllOpen(c, entries, now) {
      assert open == entries.Keys;
    }
  }

  class Limiter {
    const c: Config
    var entries: Buckets
    var order: seq<string>
    var lastSweep: int

    /** Every window there ever was, and the latest clock reading. */
    ghost var windows: Buckets
    ghost var clock: int

    ghost predicate Valid()
      reads this
    {
      && c.Valid() && |entries| <= c.max
      && Enumerates(order, entries.Keys)
      && Agree(c, windows, entries, clock)
    }

    constructor WithLimit(limit: int, every: int, maxEntries: int)
      ensures Valid() && windows == map[] && clock == Time.ZERO
      ensures c.limit == if limit <= 0 then 1 else limit
      ensures c.every == if every <= 0 then Time.SECOND else every
      ensures c.max == if maxEntries <= 0 then DEFAULT_MAX_ENTRIES else maxEntries
    {
      c := Config(if limit <= 0 then 1 else limit, if every <= 0 then Time.SECOND else every,
                  if maxEntries <= 0 then DEFAULT_MAX_ENTRIES else maxEntries);
      entries, order, lastSweep := map[], [], Time.ZERO;
      windows, clock := map[], Time.ZERO;
    }

    /** Takes a window that has passed out of map and list. */
    method RemoveBucketLocked(key: string)
      requires Valid() && key in entries && !Open(c, entries, key, clock)
      modifies this`entries, this`order
      ensures Valid() && entries == old(entries) - {key}
    {
      hide Agree, Enumerates, Open;
      AgreeDropped(c, windows, entries, key, clock);
      WithoutEnumerates(order, entries.Keys, key);
      SubsetSize((entries - {key}).Keys, entries.Keys);
      assert (entries - {key}).Keys == entries.Keys - {key};
      entries := entries - {key};
      order := Without(order, key);
    }

    /** Removes exactly the windows that have passed. */
    method SweepLocked(now: int) returns (removed: nat)
      requires Valid() && clock == now
      modifies this`entries, this`order
      ensures Valid() && AllOpen(c, entries, clock)
      ensures forall k :: Open(c, old(entries), k, clock) ==> k in entries && entries[k] == old(entries)[k]
      ensures forall k :: k in entries ==> k in old(entries)
      ensures removed == |old(entries)| - |entries|
    {
      hide Agree, Enumerates;
      removed := 0;
      var todo := entries.Keys;
      while todo != {}
        invariant Valid()
        invariant forall k :: k in entries ==> k in old(entries) && entries[k] == old(entries)[k]
        invariant forall k :: Open(c, old(entries), k, clock) ==> k in entries
        invariant forall k :: k in entries && k !in todo ==> Open(c, entries, k, clock)
        invariant todo <= entries.Keys
        invariant removed == |old(entries)| - |entries|
        decreases todo
      {
        var k :| k in todo;
        todo := todo - {k};
        if now >= entries[k].start + c.every {
          RemoveBucketLocked(k);
          removed := removed + 1;
        }
      }
    }
  
    method SweepPeriodicallyLocked(now: int)
      requires Valid() && clock == now
      modifies this`entries, this`order, this`lastSweep
      ensures Valid()
    {
      hide Agree, Enumerates;
      if lastSweep == Time.ZERO {
        lastSweep := now;
        return;
      }
      var interval := c.every / 2;
      if interval <= 0 || interval > Time.MINUTE {
        interval := Time.MINUTE;
      }
      if now - lastSweep < interval {
        return;
      }
      var _ := SweepLocked(now);
      lastSweep := now;
    }

    /** Both sweeps: afterwards a full map is full of open windows. */
    method MakeRoomLocked(now: int)
      requires Valid() && clock <= now
      modifies this
      ensures Valid() && clock == now && windows == old(windows)
      ensures |entries| >= c.max ==> AllOpen(c, entries, now)
    {
      hide Agree, Enumerates;
      AgreeLater(c, windows, entries, clock, now);
      clock := now;
      SweepPeriodicallyLocked(now);
      if |entries| >= c.max {
        var _ := SweepLocked(now);
      }
    }

    /** Exactly the reference's answer and the reference's windows. */
    method AllowAt(key: string, now: int) returns (allowed: bool)
      requires Valid() && clock <= now
      modifies this
      ensures Valid() && clock == now
      ensures allowed == Allowed(c, old(windows), KeyOf(key), now)
      ensures windows == After(c, old(windows), KeyOf(key), now)
    {
      hide Agree, Enumerates, OpenKeys;
      var k := if key == "" then "default" else key;
      MakeRoomLocked(now);
      SizeFromStore(c, windows, entries, k, now);
      if k !in entries && |entries| >= c.max {
        return false;
      }
      if k !in entries || now >= entries[k].start + c.every {
        OpenWindow(k, now);
        return true;
      }
      MoveToBack(k);
      if entries[k].used >= c.limit {
        return false;
      }
      CountCall(k);
      return true;
    }

    /** Starts a window, in the place of one that has passed if there is one. */
    method OpenWindow(key: string, now: int)
      requires Valid() && clock == now && !Open(c, entries, key, now)
      requires key !in entries ==> |entries| < c.max
      modifies this`entries, this`order, this`windows
      ensures Valid() && windows == old(windows)[key := Bucket(now, 1)]
    {
      hide Agree, Enumerates, Open;
      if key in entries {
        RemoveBucketLocked(key);
      }
      AgreeStored(c, windows, entries, key, Bucket(now, 1), now);
      EnumeratesAppend(order, entries.Keys, key);
      assert entries[key := Bucket(now, 1)].Keys == entries.Keys + {key};
      entries := entries[key := Bucket(now, 1)];
      order := order + [key];
      windows := windows[key := Bucket(now, 1)];
    }

    method MoveToBack(key: string)
      requires Valid() && key in entries
      modifies this`order
      ensures Valid()
    {
      hide Agree, Enumerates;
      WithoutEnumerates(order, entries.Keys, key);
      EnumeratesAppend(Without(order, key), entries.Keys - {key}, key);
      assert entries.Keys - {key} + {key} == entries.Keys;
      order := Without(order, key) + [key];
    }

    method CountCall(key: string)
      requires Valid() && key in entries && key in windows && windows[key] == entries[key]
      modifies this`entries, this`windows
      ensures Valid() && windows == old(windows)[key := Bucket(old(entries)[key].start, old(entries)[key].used + 1)]
    {
      hide Agree, Enumerates;
      var w := Bucket(entries[key].start, entries[key].used + 1);
      AgreeStored(c, windows, entries, key, w, clock);
      assert entries[key := w].Keys == entries.Keys;
      entries := entries[key := w];
      windows := windows[key := w];
    }
  }
}
