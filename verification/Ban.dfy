/**
 The ban list: bans are never evicted, and while every slot holds an active ban every
 key is reported as banned.
 */
module Ban {
  import opened Cache
  import Lists
  import Replay
  import Time

  const DEFAULT_MAX_ENTRIES: int := 65536

  /** Until when each key was last banned. */
  type Bans = Replay.Marks

  predicate Active(bans: Bans, key: string, now: int) {
    key in bans && bans[key] > now
  }

  predicate Full(bans: Bans, limit: int, now: int) {
    |Replay.LiveMarks(bans, now)| >= limit
  }

  /** The list refuses a ban of a new key when it is full; a renewal always fits. */
  predicate Refused(bans: Bans, limit: int, key: string, until: int, now: int) {
    key != "" && until != Time.ZERO && !Active(bans, key, now) && Full(bans, limit, now)
  }

  function Banned(bans: Bans, limit: int, key: string, until: int, now: int): (r: Bans) {
    if key == "" || until == Time.ZERO || Refused(bans, limit, key, until, now) then bans else bans[key := until]
  }

  predicate Reported(bans: Bans, limit: int, key: string, now: int) {
    key != "" && (Active(bans, key, now) || Full(bans, limit, now))
  }

  // ------------------------------------------------------------------------ runs

  datatype Step = BanStep(key: string, until: int, now: int) | UnbanStep(key: string) | OtherStep

  function BansAfter(bans: Bans, limit: int, steps: seq<Step>): (r: Bans) {
    if steps == [] then bans
    else
      var before := BansAfter(bans, limit, steps[..|steps| - 1]);
      match steps[|steps| - 1]
      case BanStep(key, until, now) => Banned(before, limit, key, until, now)
      case UnbanStep(key) => before - {key}
      case OtherStep => before
  }

  /** No step bans or unbans the key. */
  ghost predicate LeavesAlone(steps: seq<Step>, key: string) {
    forall i :: 0 <= i < |steps| ==> steps[i].OtherStep? || steps[i].key != key
  }

  lemma {:induction false} StepsKeep(bans: Bans, limit: int, steps: seq<Step>, key: string)
    requires LeavesAlone(steps, key)
    ensures key in BansAfter(bans, limit, steps) <==> key in bans
    ensures key in bans ==> BansAfter(bans, limit, steps)[key] == bans[key]
  {
    if steps != [] {
      StepsKeep(bans, limit, steps[..|steps| - 1], key);
    }
  }

  /** A ban that was stored is reported until it expires, whatever happens to other keys
      meanwhile. */
  lemma BanPersists(bans: Bans, limit: int, key: string, until: int, now: int, steps: seq<Step>, later: int)
    requires key != "" && until != Time.ZERO && !Refused(bans, limit, key, until, now)
    requires LeavesAlone(steps, key) && later < until
    ensures Reported(BansAfter(Banned(bans, limit, key, until, now), limit, steps), limit, key, later)
  {
    StepsKeep(Banned(bans, limit, key, until, now), limit, steps, key);
  }

  /** A key never banned is reported only because the list is full: if nobody bans it,
      its report says nothing but that. */
  lemma ReportedIffFull(bans: Bans, limit: int, steps: seq<Step>, key: string, later: int)
    requires key != "" && key !in bans && LeavesAlone(steps, key)
    ensures Reported(BansAfter(bans, limit, steps), limit, key, later) <==> Full(BansAfter(bans, limit, steps), limit, later)
  {
    StepsKeep(bans, limit, steps, key);
  }

  /** Every ban that filled the list when a ban was refused outlives `later`: nobody takes it
      back, and whoever renews it renews it beyond `later`. */
  ghost predicate SlotsStayActive(bans: Bans, now: int, steps: seq<Step>, later: int) {
    forall k :: Active(bans, k, now) ==> bans[k] > later && KeepsBeyond(steps, k, later)
  }

  ghost predicate KeepsBeyond(steps: seq<Step>, key: string, later: int) {
    forall i :: 0 <= i < |steps| ==>
                  steps[i].OtherStep? || steps[i].key != key || (steps[i].BanStep? && steps[i].until > later)
  }

  lemma {:induction false} StepsKeepBeyond(bans: Bans, limit: int, steps: seq<Step>, key: string, later: int)
    requires key in bans && bans[key] > later && KeepsBeyond(steps, key, later)
    ensures Active(BansAfter(bans, limit, steps), key, later)
  {
    if steps != [] {
      StepsKeepBeyond(bans, limit, steps[..|steps| - 1], key, later);
    }
  }

  /** After a refusal every non-empty key is reported, for as long as all slots hold
      active bans: the refused key is not let through. */
  lemma RefusalFailsClosed(bans: Bans, limit: int, key: string, until: int, now: int, steps: seq<Step>, later: int, other: string)
    requires Refused(bans, limit, key, until, now) && SlotsStayActive(bans, now, steps, later) && other != ""
    ensures Reported(BansAfter(bans, limit, steps), limit, other, later)
  {
    var after := BansAfter(bans, limit, steps);
    forall k | k in Replay.LiveMarks(bans, now) ensures k in Replay.LiveMarks(after, later) {
      assert Active(bans, k, now);
      StepsKeepBeyond(bans, limit, steps, k, later);
    }
    Lists.SubsetSize(Replay.LiveMarks(bans, now).Keys, Replay.LiveMarks(after, later).Keys);
  }

  // ------------------------------------------------------ every answer, from the steps

  /** Step `i` bans `key`, and the list took the ban. */
  predicate TookBan(limit: int, steps: seq<Step>, i: nat, key: string) {
    && i < |steps| && steps[i].BanStep? && steps[i].key == key != "" && steps[i].until != Time.ZERO
    && !Refused(BansAfter(map[], limit, steps[..i]), limit, key, steps[i].until, steps[i].now)
  }

  predicate TookBack(steps: seq<Step>, k: nat, key: string) {
    k < |steps| && steps[k] == UnbanStep(key)
  }

  /** The ban of step `i` is the last word on `key` among the first `n` steps. */
  ghost predicate Stands(limit: int, steps: seq<Step>, i: nat, n: nat, key: string) {
    && i < n <= |steps| && TookBan(limit, steps, i, key)
    && forall k: nat :: i < k < n ==> !TookBan(limit, steps, k, key) && !TookBack(steps, k, key)
  }

  /** In every run the list holds exactly the bans that stand. */
  lemma {:induction false} HeldIffStands(limit: int, steps: seq<Step>, n: nat, key: string)
    requires n <= |steps|
    ensures var bans := BansAfter(map[], limit, steps[..n]);
            && (key in bans <==> exists i: nat :: Stands(limit, steps, i, n, key))
            && (forall i: nat :: Stands(limit, steps, i, n, key) ==> bans[key] == steps[i].until)
  {
    hide Refused;
    if n > 0 {
      var last := n - 1;
      assert steps[..n][..last] == steps[..last];
      HeldIffStands(limit, steps, last, key);
      if TookBan(limit, steps, last, key) {
        assert Stands(limit, steps, last, n, key);
      } else if !TookBack(steps, last, key) {
        forall i: nat ensures Stands(limit, steps, i, n, key) <==> Stands(limit, steps, i, last, key) {
        }
      }
    }
  }

  /** The keys with a ban that stands and has not expired. */
  ghost predicate BannedNow(limit: int, steps: seq<Step>, n: nat, now: int, key: string, i: nat) {
    Stands(limit, steps, i, n, key) && steps[i].until > now
  }

  lemma ActiveIffBanned(limit: int, steps: seq<Step>, n: nat, now: int, key: string)
    requires n <= |steps|
    ensures Active(BansAfter(map[], limit, steps[..n]), key, now) <==> exists i: nat :: BannedNow(limit, steps, n, now, key, i)
  {
    hide BansAfter, Stands;
    HeldIffStands(limit, steps, n, key);
    if Active(BansAfter(map[], limit, steps[..n]), key, now) {
      var i: nat :| Stands(limit, steps, i, n, key);
      assert BannedNow(limit, steps, n, now, key, i);
    }
  }

  /** Every answer is exact, in every run: a key is reported if and only if a ban of it stands
      and has not expired, or as many keys as the list may hold have such a ban. A ban is
      refused if and only if its key has none and as many other keys have. */
  lemma ReportedIff(limit: int, steps: seq<Step>, n: nat, now: int, key: string, until: int) returns (banned: set<string>)
    requires n <= |steps|
    ensures forall k :: k in banned <==> exists i: nat :: BannedNow(limit, steps, n, now, k, i)
    ensures var bans := BansAfter(map[], limit, steps[..n]);
            && (Reported(bans, limit, key, now) <==> key != "" && (key in banned || |banned| >= limit))
            && (Refused(bans, limit, key, until, now) <==> key != "" && until != Time.ZERO && key !in banned && |banned| >= limit)
  {
    hide BansAfter, BannedNow;
    var bans := BansAfter(map[], limit, steps[..n]);
    banned := Replay.LiveMarks(bans, now).Keys;
    forall k ensures k in banned <==> exists i: nat :: BannedNow(limit, steps, n, now, k, i) {
      ActiveIffBanned(limit, steps, n, now, k);
    }
  }

  // ------------------------------------------------------------------ refinement

  lemma AgreeLater(bans: Bans, entries: map<string, Item<()>>, now: int, later: int)
    requires Replay.Agree(bans, entries, now) && now <= later
    ensures Replay.Agree(bans, entries, later)
    ensures Replay.Agree(bans, Live(entries, later), later)
    ensures forall k :: LiveAt(entries, k, later) <==> Active(bans, k, later)
  {
  }

  lemma AgreeDropped(bans: Bans, entries: map<string, Item<()>>, key: string, now: int)
    requires Replay.Agree(bans, entries, now)
    ensures Replay.Agree(bans - {key}, entries - {key}, now)
    ensures !LiveAt(entries, key, now) ==> Replay.Agree(bans, entries - {key}, now)
  {
  }

  lemma AgreeStored(bans: Bans, entries: map<string, Item<()>>, key: string, until: int, now: int)
    requires Replay.Agree(bans, entries, now)
    ensures Replay.Agree(bans[key := until], entries[key := Item((), until)], now)
  {
  }

  // -------------------------------------------------------------------- the list

  function Interval(current: int, ttl: int): (r: int)
    ensures 0 < current <= Time.MINUTE ==> 0 < r <= current
  {
    if ttl <= 0 then current
    else
      var half := if ttl / 2 <= 0 then ttl else ttl / 2;
      var interval := if half > Time.MINUTE then Time.MINUTE else half;
      if current <= 0 || interval < current then interval else current
  }

  class BanList {
    const entries: TTLLRU<string, ()>
    var lastSweep: int
    var sweepInterval: int

    /** Every ban that was stored and not taken back, and the latest clock reading. */
    ghost var bans: Bans
    ghost var clock: int

    ghost predicate Valid()
      reads this, entries
    {
      entries.Valid() && 0 < sweepInterval <= Time.MINUTE && Replay.Agree(bans, entries.entries, clock)
    }

    constructor WithLimit(maxEntries: int)
      ensures Valid() && fresh(entries) && bans == map[] && clock == Time.ZERO
      ensures entries.maxEntries == if maxEntries <= 0 then DEFAULT_MAX_ENTRIES else maxEntries
    {
      entries := new TTLLRU(if maxEntries <= 0 then DEFAULT_MAX_ENTRIES else maxEntries);
      lastSweep, sweepInterval := Time.ZERO, Time.MINUTE;
      bans, clock := map[], Time.ZERO;
    }

    /** Fails exactly when a new key meets a full list, and then changes no ban. */
    method BanUntilE(key: string, until: int, now: int) returns (full: bool)
      requires Valid() && clock <= now
      modifies this, entries
      ensures Valid() && clock == now
      ensures full == Refused(old(bans), entries.maxEntries, key, until, now)
      ensures bans == Banned(old(bans), entries.maxEntries, key, until, now)
    {
      hide Replay.Agree, Full;
      AgreeLater(bans, entries.entries, clock, now);
      clock := now;
      if key == "" || until == Time.ZERO {
        return false;
      }
      sweepInterval := Interval(sweepInterval, until - now);
      var _ := entries.Sweep(now);
      lastSweep := now;
      full := StoreLocked(key, until, now);
    }

    method StoreLocked(key: string, until: int, now: int) returns (full: bool)
      requires Valid() && clock == now && key != "" && until != Time.ZERO
      requires forall k :: k in entries.entries ==> LiveAt(entries.entries, k, now)
      modifies this, entries
      ensures Valid() && clock == now
      ensures full == Refused(old(bans), entries.maxEntries, key, until, now)
      ensures bans == Banned(old(bans), entries.maxEntries, key, until, now)
    {
      hide Replay.Agree, Replay.LiveMarks, Live, Replayed, Touch;
      AgreeLater(bans, entries.entries, now, now);
      Replay.LiveFromStore(bans, entries.entries, now);
      AgreeStored(bans, entries.entries, key, until, now);
      var found := entries.Peek(key);
      var n := entries.Len();
      if found.None? && n >= entries.maxEntries {
        return true;
      }
      entries.SetUntil(key, (), until);
      bans := bans[key := until];
      return false;
    }

    /** Reports exactly the keys with an active ban, and every key while the list is
        full of active bans. */
    method IsBannedAt(key: string, now: int) returns (banned: bool)
      requires Valid() && clock <= now
      modifies this, entries
      ensures Valid() && clock == now && bans == old(bans)
      ensures banned == Reported(bans, entries.maxEntries, key, now)
    {
      hide Replay.Agree, Replay.LiveMarks, Live;
      AgreeLater(bans, entries.entries, clock, now);
      AgreeDropped(bans, entries.entries, key, now);
      clock := now;
      if key == "" {
        return false;
      }
      var hit := entries.GetAt(key, now);
      if hit.Some? {
        return true;
      }
      Replay.LiveFromStore(bans, entries.entries, now);
      var n := entries.Len();
      if n < entries.maxEntries {
        return false;
      }
      var active := entries.ActiveLen(now);
      return active >= entries.maxEntries;
    }

    method Unban(key: string)
      requires Valid()
      modifies this, entries
      ensures Valid() && clock == old(clock) && bans == old(bans) - {key}
    {
      hide Replay.Agree;
      AgreeDropped(bans, entries.entries, key, clock);
      var _ := entries.Delete(key);
      bans := bans - {key};
    }

    method Sweep(now: int) returns (removed: nat)
      requires Valid() && clock <= now
      modifies this, entries
      ensures Valid() && clock == now && bans == old(bans)
    {
      hide Replay.Agree;
      AgreeLater(bans, entries.entries, clock, now);
      clock := now;
      removed := entries.Sweep(now);
    }
  }
}
