/**
 Replay protection: an accepted (client, nonce) pair is refused until its mark
 expires. The reference below remembers every mark for ever and asks which ones
 are still live. Both caches of the library give exactly its answers although
 they forget expired marks at odd times and one of them only estimates how many
 marks it holds.
 */
module Replay {
  import opened Bytes
  import opened Cache
  import opened Text
  import Lists
  import Time

  const DEFAULT_TIME_WINDOW: int := 30 * Time.SECOND
  const DEFAULT_MAX_ENTRIES: int := 65536

  datatype Outcome = Accepted | ReplayDetected | CacheFull

  // -------------------------------------------------------------- the reference

  type Marks = map<string, int>

  function LiveMarks(marks: Marks, now: int): (r: Marks) {
    map k | k in marks && marks[k] > now :: marks[k]
  }

  /** Replay iff the key is live; full iff it is not and the live marks fill the
      cache; accepted otherwise. */
  function Decide(marks: Marks, limit: int, key: string, now: int): (r: Outcome) {
    if key in marks && marks[key] > now then ReplayDetected
    else if |LiveMarks(marks, now)| >= limit then CacheFull
    else Accepted
  }

  function Marked(marks: Marks, limit: int, ttl: int, key: string, now: int): (r: Marks) {
    if Decide(marks, limit, key, now) == Accepted then marks[key := now + ttl] else marks
  }

  datatype Call = Call(key: string, now: int)

  ghost predicate NonDecreasing(calls: seq<Call>) {
    forall i, j :: 0 <= i < j < |calls| ==> calls[i].now <= calls[j].now
  }

  function MarksAfter(limit: int, ttl: int, calls: seq<Call>): (r: Marks) {
    if calls == [] then map[]
    else
      var c := calls[|calls| - 1];
      Marked(MarksAfter(limit, ttl, calls[..|calls| - 1]), limit, ttl, c.key, c.now)
  }

  /** The answer to call `i` of a run. */
  function Answer(limit: int, ttl: int, calls: seq<Call>, i: nat): (r: Outcome)
    requires i < |calls|
  {
    Decide(MarksAfter(limit, ttl, calls[..i]), limit, calls[i].key, calls[i].now)
  }

  /** An accepted call leaves a mark that only a later accepted call replaces. */
  lemma {:induction false} AcceptLeavesMark(limit: int, ttl: int, calls: seq<Call>, i: nat)
    requires NonDecreasing(calls) && i < |calls| && Answer(limit, ttl, calls, i) == Accepted
    ensures calls[i].key in MarksAfter(limit, ttl, calls)
    ensures MarksAfter(limit, ttl, calls)[calls[i].key] >= calls[i].now + ttl
  {
    var n := |calls| - 1;
    if i < n {
      assert calls[..n][..i] == calls[..i];
      AcceptLeavesMark(limit, ttl, calls[..n], i);
    }
  }

  /** Every mark was left by an accepted call. */
  lemma {:induction false} MarkFromAccept(limit: int, ttl: int, calls: seq<Call>, key: string) returns (i: nat)
    requires key in MarksAfter(limit, ttl, calls)
    ensures i < |calls| && calls[i].key == key && Answer(limit, ttl, calls, i) == Accepted
    ensures MarksAfter(limit, ttl, calls)[key] == calls[i].now + ttl
  {
    var n := |calls| - 1;
    if calls[n].key == key && Answer(limit, ttl, calls, n) == Accepted {
      i := n;
    } else {
      i := MarkFromAccept(limit, ttl, calls[..n], key);
      assert calls[..n][..i] == calls[..i];
    }
  }

  ghost predicate AcceptedWithinTtl(limit: int, ttl: int, calls: seq<Call>, i: nat, j: nat)
    requires i < j < |calls|
  {
    && calls[i].key == calls[j].key
    && Answer(limit, ttl, calls, i) == Accepted
    && calls[j].now < calls[i].now + ttl
  }

  /** In every run with a clock that never goes back, a call is refused as a replay
      exactly when the same key was accepted less than `ttl` before, whatever else
      was marked in between. */
  lemma ReplayIffRecentAccept(limit: int, ttl: int, calls: seq<Call>, j: nat)
    requires NonDecreasing(calls) && j < |calls|
    ensures Answer(limit, ttl, calls, j) == ReplayDetected <==>
            exists i: nat :: i < j && AcceptedWithinTtl(limit, ttl, calls, i, j)
  {
    var before, key := calls[..j], calls[j].key;
    forall i: nat | i < j && AcceptedWithinTtl(limit, ttl, calls, i, j)
      ensures Answer(limit, ttl, calls, j) == ReplayDetected
    {
      assert before[..i] == calls[..i];
      AcceptLeavesMark(limit, ttl, before, i);
    }
    if Answer(limit, ttl, calls, j) == ReplayDetected {
      var i := MarkFromAccept(limit, ttl, before, key);
      assert before[..i] == calls[..i];
      assert AcceptedWithinTtl(limit, ttl, calls, i, j);
    }
  }

  /** The keys accepted less than `ttl` before call `j`. */
  function RecentKeys(limit: int, ttl: int, calls: seq<Call>, j: nat): (keys: set<string>)
    requires j < |calls|
  {
    set i | 0 <= i < j && Answer(limit, ttl, calls, i) == Accepted && calls[j].now < calls[i].now + ttl :: calls[i].key
  }

  /** Every answer is exact, in every run: a replay iff the key is among those accepted less
      than `ttl` before, full iff it is not and these keys fill the cache. */
  lemma AnswerIffRecent(limit: int, ttl: int, calls: seq<Call>, j: nat)
    requires NonDecreasing(calls) && j < |calls|
    ensures var recent := RecentKeys(limit, ttl, calls, j);
            && (Answer(limit, ttl, calls, j) == ReplayDetected <==> calls[j].key in recent)
            && (Answer(limit, ttl, calls, j) == CacheFull <==> calls[j].key !in recent && |recent| >= limit)
            && (Answer(limit, ttl, calls, j) == Accepted <==> calls[j].key !in recent && |recent| < limit)
  {
    hide Marked;
    var live := LiveMarks(MarksAfter(limit, ttl, calls[..j]), calls[j].now);
    assert live.Keys == RecentKeys(limit, ttl, calls, j) by {
      LiveIffRecent(limit, ttl, calls, j);
    }
  }

  lemma LiveIffRecent(limit: int, ttl: int, calls: seq<Call>, j: nat)
    requires NonDecreasing(calls) && j < |calls|
    ensures LiveMarks(MarksAfter(limit, ttl, calls[..j]), calls[j].now).Keys == RecentKeys(limit, ttl, calls, j)
  {
    hide MarksAfter, Decide;
    var before, marks := calls[..j], MarksAfter(limit, ttl, calls[..j]);
    forall key | key in LiveMarks(marks, calls[j].now) ensures key in RecentKeys(limit, ttl, calls, j) {
      var i := MarkFromAccept(limit, ttl, before, key);
      assert before[..i] == calls[..i];
    }
    forall i | 0 <= i < j && Answer(limit, ttl, calls, i) == Accepted && calls[j].now < calls[i].now + ttl
      ensures calls[i].key in LiveMarks(marks, calls[j].now)
    {
      assert before[..i] == calls[..i];
      AcceptLeavesMark(limit, ttl, before, i);
    }
  }

  // ----------------------------------------------------------------------- keys

  function ReplayKey(clientID: string, nonce: seq<byte>): (r: string) {
    clientID + NUL + Hex(nonce)
  }

  /** Different (client, nonce) pairs never share a key, even for client ids that
      contain NUL bytes. */
  lemma ReplayKeyInjective(c: string, n: seq<byte>, c': string, n': seq<byte>)
    requires ReplayKey(c, n) == ReplayKey(c', n')
    ensures c == c' && n == n'
  {
    SplitLast(c, Hex(n), c', Hex(n'));
    HexInjective(n, n');
  }

  // ----------------------------------------------------------------- refinement

  /** The store and the reference agree on every mark that is live at `now`. */
  ghost predicate Agree(marks: Marks, entries: map<string, Item<()>>, now: int) {
    && (forall k :: k in marks && marks[k] > now ==> k in entries && entries[k].expiresAt == marks[k])
    && (forall k :: k in entries && entries[k].expiresAt > now ==> k in marks && entries[k].expiresAt == marks[k])
  }

  lemma LiveFromStore(marks: Marks, entries: map<string, Item<()>>, now: int)
    requires Agree(marks, entries, now)
    ensures |LiveMarks(marks, now)| == |Live(entries, now)| <= |entries|
    ensures (forall k :: k in entries ==> LiveAt(entries, k, now)) ==> |Live(entries, now)| == |entries|
  {
    assert LiveMarks(marks, now).Keys == Live(entries, now).Keys;
    Lists.SubsetSize(Live(entries, now).Keys, entries.Keys);
    if forall k :: k in entries ==> LiveAt(entries, k, now) {
      assert Live(entries, now) == entries;
    }
  }

  /** Any store that agrees with the reference can answer for it. */
  lemma DecideFromStore(marks: Marks, entries: map<string, Item<()>>, limit: int, key: string, now: int)
    requires Agree(marks, entries, now)
    ensures Decide(marks, limit, key, now) ==
            if LiveAt(entries, key, now) then ReplayDetected
            else if |Live(entries, now)| >= limit then CacheFull
            else Accepted
    ensures |Live(entries, now)| <= |entries|
    ensures (forall k :: k in entries ==> LiveAt(entries, k, now)) ==> |Live(entries, now)| == |entries|
  {
    LiveFromStore(marks, entries, now);
  }

  function SweepInterval(ttl: int): (r: int)
    ensures ttl > 0 ==> 0 < r <= ttl
  {
    if ttl <= 30 * Time.SECOND then ttl else 30 * Time.SECOND
  }

  /** The cache of the authenticating server. `active` is what it believes to be
      the number of stored marks. It may over-count, but never under-counts. */
  class MemoryReplayCache {
    const ttl: int
    const sweepEvery: int
    const maxEntries: int
    const entries: TTLLRU<string, ()>
    var nextSweep: int
    var active: int

    /** Every mark ever made, and the latest clock reading. */
    ghost var marks: Marks
    ghost var clock: int

    ghost predicate Valid()
      reads this, entries
    {
      && entries.Valid() && entries.maxEntries == maxEntries
      && ttl > 0 && clock >= Time.ZERO
      && |entries.entries| <= active <= maxEntries
      && Agree(marks, entries.entries, clock)
    }

    constructor WithLimit(ttl: int, maxEntries: int)
      ensures Valid() && fresh(entries)
      ensures this.ttl == if ttl <= 0 then DEFAULT_TIME_WINDOW * 2 else ttl
      ensures this.maxEntries == if maxEntries <= 0 then DEFAULT_MAX_ENTRIES else maxEntries
      ensures marks == map[] && clock == Time.ZERO
    {
      var t := if ttl <= 0 then DEFAULT_TIME_WINDOW * 2 else ttl;
      var m := if maxEntries <= 0 then DEFAULT_MAX_ENTRIES else maxEntries;
      this.ttl, this.maxEntries, sweepEvery := t, m, SweepInterval(t);
      nextSweep, active := Time.ZERO, 0;
      marks, clock := map[], Time.ZERO;
      entries := new TTLLRU(m);
    }

    method SweepLocked(now: int) returns (removed: nat)
      requires Valid() && clock <= now
      modifies this, entries
      ensures Valid() && clock == now && marks == old(marks) && nextSweep == old(nextSweep)
      ensures active == |entries.entries|
      ensures forall k :: k in entries.entries ==> LiveAt(entries.entries, k, now)
    {
      removed := entries.Sweep(now);
      active := entries.Len();
      clock := now;
    }

    /** The periodic sweep, and the eager one when the cache looks full. If it
        still looks full afterwards, it is full of live marks. */
    method MaybeSweepLocked(now: int)
      requires Valid() && clock <= now
      modifies this, entries
      ensures Valid() && clock == now && marks == old(marks)
      ensures active >= maxEntries ==>
                && active == |entries.entries|
                && forall k :: k in entries.entries ==> LiveAt(entries.entries, k, now)
    {
      if nextSweep == Time.ZERO {
        nextSweep := now + sweepEvery;
      } else if now >= nextSweep {
        var _ := SweepLocked(now);
        nextSweep := now + sweepEvery;
      }
      if active >= maxEntries {
        var _ := SweepLocked(now);
        nextSweep := now + sweepEvery;
      }
      clock := now;
    }

    /** Exactly the reference's answer and the reference's marks. */
    method CheckAndMark(clientID: string, nonce: seq<byte>, now: int) returns (r: Outcome)
      requires Valid() && clock <= now
      modifies this, entries
      ensures Valid() && clock == now
      ensures r == Decide(old(marks), maxEntries, ReplayKey(clientID, nonce), now)
      ensures marks == Marked(old(marks), maxEntries, ttl, ReplayKey(clientID, nonce), now)
    {
      var key := ReplayKey(clientID, nonce);
      MaybeSweepLocked(now);
      if active >= maxEntries {
        r := RefuseLocked(key, now);
      } else {
        r := MarkLocked(key, now);
      }
    }

    /** The cache is full of live marks: a live key is a replay, any other is refused. */
    method RefuseLocked(key: string, now: int) returns (r: Outcome)
      requires Valid() && clock == now && |entries.entries| >= maxEntries
      requires forall k :: k in entries.entries ==> LiveAt(entries.entries, k, now)
      modifies entries
      ensures Valid()
      ensures r == Decide(marks, maxEntries, key, now) && r != Accepted
    {
      DecideFromStore(marks, entries.entries, maxEntries, key, now);
      Lists.SubsetSize((entries.entries - {key}).Keys, entries.entries.Keys);
      var hit := entries.GetAt(key, now);
      r := if hit.Some? then ReplayDetected else CacheFull;
    }

    /** There is room: only a live mark of the same key stands in the way. */
    method MarkLocked(key: string, now: int) returns (r: Outcome)
      requires Valid() && clock == now && active < maxEntries
      modifies this, entries
      ensures Valid() && clock == now
      ensures r == Decide(old(marks), maxEntries, key, now)
      ensures marks == Marked(old(marks), maxEntries, ttl, key, now)
    {
      DecideFromStore(marks, entries.entries, maxEntries, key, now);
      var added := entries.AddIfAbsent(key, (), now + ttl, now);
      if !added {
        return ReplayDetected;
      }
      active := active + 1;
      marks := marks[key := now + ttl];
      return Accepted;
    }

    method Sweep(now: int) returns (removed: nat)
      requires Valid() && clock <= now
      modifies this, entries
      ensures Valid() && clock == now && marks == old(marks)
    {
      removed := SweepLocked(now);
      nextSweep := now + sweepEvery;
    }
  }

  /** The cache of the SYN listeners, which asks the store for its size. */
  class SynReplayCache {
    const ttl: int
    const sweepEvery: int
    const maxEntries: int
    const entries: TTLLRU<string, ()>
    var nextSweep: int

    ghost var marks: Marks
    ghost var clock: int

    ghost predicate Valid()
      reads this, entries
    {
      && entries.Valid() && entries.maxEntries == maxEntries
      && ttl > 0 && clock >= Time.ZERO
      && Agree(marks, entries.entries, clock)
    }

    constructor (ttl: int)
      ensures Valid() && fresh(entries)
      ensures this.ttl == if ttl <= 0 then 2 * Time.MINUTE else ttl
      ensures maxEntries == DEFAULT_MAX_ENTRIES && marks == map[] && clock == Time.ZERO
    {
      var t := if ttl <= 0 then 2 * Time.MINUTE else ttl;
      this.ttl, sweepEvery, maxEntries := t, SweepInterval(t), DEFAULT_MAX_ENTRIES;
      nextSweep, marks, clock := Time.ZERO, map[], Time.ZERO;
      entries := new TTLLRU(DEFAULT_MAX_ENTRIES);
    }

    method SweepLocked(now: int)
      requires Valid() && clock == now
      modifies entries
      ensures Valid() && forall k :: k in entries.entries ==> LiveAt(entries.entries, k, now)
    {
      var _ := entries.Sweep(now);
    }

    method MaybeSweepLocked(now: int)
      requires Valid() && clock <= now
      modifies this, entries
      ensures Valid() && clock == now && marks == old(marks)
      ensures |entries.entries| >= maxEntries ==>
                forall k :: k in entries.entries ==> LiveAt(entries.entries, k, now)
    {
      clock := now;
      if nextSweep == Time.ZERO {
        nextSweep := now + sweepEvery;
      } else if now >= nextSweep {
        SweepLocked(now);
        nextSweep := now + sweepEvery;
      }
      var n := entries.Len();
      if n >= maxEntries {
        SweepLocked(now);
        nextSweep := now + sweepEvery;
      }
    }

    method RefuseLocked(key: string, now: int) returns (r: Outcome)
      requires Valid() && clock == now && |entries.entries| >= maxEntries
      requires forall k :: k in entries.entries ==> LiveAt(entries.entries, k, now)
      modifies entries
      ensures Valid()
      ensures r == Decide(marks, maxEntries, key, now) && r != Accepted
    {
      DecideFromStore(marks, entries.entries, maxEntries, key, now);
      var hit := entries.GetAt(key, now);
      r := if hit.Some? then ReplayDetected else CacheFull;
    }

    method MarkLocked(key: string, now: int) returns (r: Outcome)
      requires Valid() && clock == now && |entries.entries| < maxEntries
      modifies this, entries
      ensures Valid() && clock == now
      ensures r == Decide(old(marks), maxEntries, key, now)
      ensures marks == Marked(old(marks), maxEntries, ttl, key, now)
    {
      DecideFromStore(marks, entries.entries, maxEntries, key, now);
      var added := entries.AddIfAbsent(key, (), now + ttl, now);
      if !added {
        return ReplayDetected;
      }
      marks := marks[key := now + ttl];
      return Accepted;
    }

    /** The same answers and the same marks as the reference, and so as
        `MemoryReplayCache`. */
    method CheckAndMark(clientID: string, nonce: seq<byte>, now: int) returns (r: Outcome)
      requires Valid() && clock <= now
      modifies this, entries
      ensures Valid() && clock == now
      ensures r == Decide(old(marks), maxEntries, ReplayKey(clientID, nonce), now)
      ensures marks == Marked(old(marks), maxEntries, ttl, ReplayKey(clientID, nonce), now)
    {
      var key := ReplayKey(clientID, nonce);
      MaybeSweepLocked(now);
      var n := entries.Len();
      if n >= maxEntries {
        r := RefuseLocked(key, now);
      } else {
        r := MarkLocked(key, now);
      }
    }
  }
}
