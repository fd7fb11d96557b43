/**
 The store of knock sessions and firewall leases. Its caches may forget sessions early,
 so a session may be refused too soon; it is never granted too often.
 */
module SessionStore {
  import opened Bytes
  import opened Cache
  import opened Sessions
  import opened Text
  import opened Wrappers
  import Leases
  import Lists
  import Time

  const DEFAULT_MAX_SESSIONS: int := 4096

  function FirewallKey(addr: Addr, port: int): (r: string) {
    (if addr.Addr? then addr.text else "invalid IP") + NUL + Decimal(port)
  }

  /** Different addresses or ports never share a lease. */
  lemma FirewallKeyInjective(a: Addr, p: int, b: Addr, q: int)
    requires a.Addr? && b.Addr? && FirewallKey(a, p) == FirewallKey(b, q)
    ensures a == b && p == q
  {
    SplitLast(a.text, Decimal(p), b.text, Decimal(q));
    DecimalInjective(p, q);
  }

  /** A grant into a cache, which may drop another session for it. */
  lemma AddMeetsStep(limit: int, store: Sessions.Store, key: SessionKey, s: Session, expiresAt: int, dropped: SessionKey)
    requires Sane(store) && s.remaining >= 1 && KeyPort(s.port) == key.port
    ensures var all := store[key := Item(s, expiresAt)];
            Sane(all) && (key in store || |store| < limit ==> Sessions.Step(limit, store, AddOp(key, s, expiresAt), all))
    ensures var fewer := (store - {dropped})[key := Item(s, expiresAt)];
            Sane(fewer) && (key !in store && |store| >= limit ==> Sessions.Step(limit, store, AddOp(key, s, expiresAt), fewer))
  {
  }

  lemma SaneLess(s: Leases.State, key: string, now: int)
    requires Leases.Sane(s)
    ensures Leases.Sane(Leases.State(Live(s.store, now), s.nextID))
    ensures Leases.Sane(Leases.State(s.store - {key}, s.nextID))
  {
  }

  lemma SaneIssued(s: Leases.State, key: string, until: int)
    requires Leases.Sane(s)
    ensures Leases.Sane(Leases.State(s.store[key := Item(s.nextID + 1, until)], s.nextID + 1))
  {
  }

  /** What a mark does once the expired leases are swept away. */
  lemma MarkMeetsStep(limit: int, s: Leases.State, key: string, until: int, now: int)
    ensures var op, swept := Leases.MarkOp(key, until, now), Live(s.store, now);
            && (Leases.Issues(limit, s, op) <==> key in swept || |swept| < limit)
            && (forall k :: k in swept ==> swept[k].expiresAt > now)
            && (Leases.Issues(limit, s, op) ==>
                  Leases.Step(limit, s, op, Leases.State(swept[key := Item(s.nextID + 1, until)], s.nextID + 1)))
            && (!Leases.Issues(limit, s, op) ==> Leases.Step(limit, s, op, Leases.State(swept, s.nextID)))
  {
  }

  class KnockSessionStore {
    const sessions: TTLLRU<SessionKey, Session>
    const firewall: TTLLRU<string, nat>
    var nextID: nat

    ghost predicate Valid()
      reads this, sessions, firewall
    {
      && sessions.Valid() && firewall.Valid()
      && Sane(sessions.entries) && Leases.Sane(Leased())
    }

    /** The leases and the id issued last. */
    ghost function Leased(): (s: Leases.State)
      reads this, firewall
    {
      Leases.State(firewall.entries, nextID)
    }

    constructor WithLimit(max: int)
      ensures Valid() && fresh(sessions) && fresh(firewall)
      ensures sessions.entries == map[] && Leased() == Leases.State(map[], 0)
      ensures sessions.maxEntries == firewall.maxEntries == if max <= 0 then DEFAULT_MAX_SESSIONS else max
    {
      var limit := if max <= 0 then DEFAULT_MAX_SESSIONS else max;
      sessions := new TTLLRU(limit);
      firewall := new TTLLRU(limit);
      nextID := 0;
    }

    // -------------------------------------------------------------- knock sessions

    /** Grants uses until `now + ttl`; the grant takes the place of an older one. */
    method AddSessionForPort(remote: Addr, clientID: string, sessionID: seq<byte>, port: int, ttl: int, uses: int, now: int)
      requires Valid()
      modifies sessions
      ensures Valid()
      ensures if remote.NoAddr? || clientID == "" || now + ttl == Time.ZERO then sessions.entries == old(sessions.entries)
              else
                var s := Session(if uses <= 0 then 1 else uses, port, sessionID);
                Sessions.Step(sessions.maxEntries, old(sessions.entries), AddOp(KeyFor(remote, clientID, port), s, now + ttl), sessions.entries)
    {
      hide Sane, Leases.Sane, Sessions.Step, Replayed;
      if remote.NoAddr? || clientID == "" {
        return;
      }
      var n := if uses <= 0 then 1 else uses;
      GrantLocked(KeyFor(remote, clientID, port), Session(n, port, sessionID), now + ttl);
    }

    method GrantLocked(key: SessionKey, s: Session, expiresAt: int)
      requires Valid() && s.remaining >= 1 && KeyPort(s.port) == key.port
      modifies sessions
      ensures Valid()
      ensures expiresAt == Time.ZERO ==> sessions.entries == old(sessions.entries)
      ensures expiresAt != Time.ZERO ==>
                Sessions.Step(sessions.maxEntries, old(sessions.entries), AddOp(key, s, expiresAt), sessions.entries)
    {
      hide Sane, Leases.Sane, Sessions.Step, Sessions.Added, KeyPort, Replayed, Touch;
      AddMeetsStep(sessions.maxEntries, sessions.entries, key, s, expiresAt, if |sessions.order| > 0 then sessions.order[0] else key);
      sessions.SetUntil(key, s, expiresAt);
    }

    method GetSessionLocked(key: SessionKey, now: int) returns (s: Option<Session>, expired: bool)
      requires Valid()
      modifies sessions
      ensures Valid()
      ensures expired <==> key in old(sessions.entries) && old(sessions.entries)[key].expiresAt <= now
      ensures s == if LiveAt(old(sessions.entries), key, now) then Some(old(sessions.entries)[key].value) else None
      ensures sessions.entries == if expired then old(sessions.entries) - {key} else old(sessions.entries)
    {
      hide Leases.Sane, Replayed, Lists.Without;
      var entry := sessions.Peek(key);
      if entry.None? {
        return None, false;
      }
      if entry.value.expiresAt <= now {
        var _ := sessions.Delete(key);
        return None, true;
      }
      return Some(entry.value.value), false;
    }

    /** Admits a connection exactly as `Judge` says and takes one use: the second lookup
        of port 0 never changes the answer. */
    method CheckAndConsume(remote: Addr, clientID: string, serverPort: int, sessionID: seq<byte>, now: int) returns (r: Admission)
      requires Valid()
      modifies sessions
      ensures Valid()
      ensures remote.NoAddr? ==> r == NoRemote && sessions.entries == old(sessions.entries)
      ensures remote.Addr? ==>
                var op := UseOp(KeyFor(remote, clientID, serverPort), serverPort, sessionID, now);
                && r == Judge(old(sessions.entries), op.key, serverPort, sessionID, now)
                && Sessions.Step(sessions.maxEntries, old(sessions.entries), op, sessions.entries)
    {
      hide Sane, Leases.Sane;
      if remote.NoAddr? {
        return NoRemote;
      }
      var key := KeyFor(remote, clientID, serverPort);
      var s, expired := GetSessionLocked(key, now);
      if s.None? && !expired && serverPort == 0 {
        key := KeyFor(remote, clientID, 0);
        s, expired := GetSessionLocked(key, now);
      }
      if expired {
        return SessionExpired;
      }
      if s.None? {
        return NoSession;
      }
      if s.value.sessionID != [] && s.value.sessionID != sessionID {
        return IdMismatch;
      }
      if s.value.port > 0 && serverPort > 0 && s.value.port != serverPort {
        return PortMismatch;
      }
      ConsumeLocked(key);
      return Admitted;
    }

    /** Counts a use down, and drops the session with the last one. */
    method ConsumeLocked(key: SessionKey)
      requires Valid() && key in sessions.entries
      modifies sessions
      ensures Valid()
      ensures sessions.entries == SessionsLeft(old(sessions.entries), key, Admitted)
    {
      hide Sane, Leases.Sane;
      SaneLeft(sessions.entries, key, Admitted);
      var item := sessions.entries[key];
      var left := item.value.remaining - 1;
      if left <= 0 {
        var _ := sessions.Delete(key);
      } else {
        assert sessions.entries[key := Item(item.value.(remaining := left), item.expiresAt)].Keys == sessions.entries.Keys;
        sessions.entries := sessions.entries[key := Item(item.value.(remaining := left), item.expiresAt)];
      }
    }

    /** Drops the sessions of a client at an address, for all ports. */
    method Remove(remote: Addr, clientID: string) returns (removed: bool)
      requires Valid()
      modifies sessions
      ensures Valid()
      ensures Sessions.Step(sessions.maxEntries, old(sessions.entries), LoseOp, sessions.entries)
      ensures forall k :: k in sessions.entries <==> k in old(sessions.entries) && !(k.remote == remote && k.clientID == clientID)
      ensures removed <==> sessions.entries.Keys != old(sessions.entries).Keys
    {
      hide Leases.Sane, Replayed, Lists.Without;
      var n := sessions.DeleteWhere((k: SessionKey, _) => k.remote == remote && k.clientID == clientID);
      SmallerIff(old(sessions.entries), sessions.entries);
      return n > 0;
    }

    method RemoveForPort(remote: Addr, clientID: string, port: int) returns (removed: bool)
      requires Valid()
      modifies sessions
      ensures Valid()
      ensures Sessions.Step(sessions.maxEntries, old(sessions.entries), LoseOp, sessions.entries)
      ensures sessions.entries == old(sessions.entries) - {KeyFor(remote, clientID, port)}
      ensures removed <==> KeyFor(remote, clientID, port) in old(sessions.entries)
    {
      hide Leases.Sane, Replayed, Lists.Without;
      removed := sessions.Delete(KeyFor(remote, clientID, port));
    }

    /** Drops the sessions of a client at an address that have expired. */
    method Expire(remote: Addr, clientID: string, now: int) returns (removed: bool)
      requires Valid()
      modifies sessions
      ensures Valid()
      ensures Sessions.Step(sessions.maxEntries, old(sessions.entries), LoseOp, sessions.entries)
      ensures forall k :: k in sessions.entries <==>
                            k in old(sessions.entries)
                            && !(k.remote == remote && k.clientID == clientID && now >= old(sessions.entries)[k].expiresAt)
      ensures removed <==> sessions.entries.Keys != old(sessions.entries).Keys
    {
      hide Leases.Sane, Replayed, Lists.Without;
      var n := sessions.DeleteWhere(
        (k: SessionKey, e: Item<Session>) => k.remote == remote && k.clientID == clientID && now >= e.expiresAt);
      SmallerIff(old(sessions.entries), sessions.entries);
      return n > 0;
    }

    method ExpireForPort(remote: Addr, clientID: string, port: int, now: int) returns (removed: bool)
      requires Valid()
      modifies sessions
      ensures Valid()
      ensures Sessions.Step(sessions.maxEntries, old(sessions.entries), LoseOp, sessions.entries)
      ensures forall k :: k in sessions.entries <==>
                            k in old(sessions.entries)
                            && !(k == KeyFor(remote, clientID, port) && now >= old(sessions.entries)[k].expiresAt)
      ensures removed <==> sessions.entries.Keys != old(sessions.entries).Keys
    {
      hide Leases.Sane, Replayed, Lists.Without;
      var n := sessions.DeleteWhere((k: SessionKey, e: Item<Session>) => k == KeyFor(remote, clientID, port) && now >= e.expiresAt);
      SmallerIff(old(sessions.entries), sessions.entries);
      return n > 0;
    }

    // -------------------------------------------------------------- firewall leases

    /** Issues the next id exactly when the key is live or there is room, and never loses
        a live lease of another key. */
    method MarkFirewall(remote: Addr, port: int, ttl: int, now: int) returns (id: nat, ok: bool)
      requires Valid() && now >= Time.ZERO
      modifies this`nextID, firewall
      ensures Valid()
      ensures remote.NoAddr? || port <= 0 || ttl <= 0 ==> !ok && id == 0 && Leased() == old(Leased())
      ensures remote.Addr? && port > 0 && ttl > 0 ==>
                var op := Leases.MarkOp(FirewallKey(remote, port), now + ttl, now);
                && ok == Leases.Issues(firewall.maxEntries, old(Leased()), op)
                && id == (if ok then nextID else 0)
                && Leases.Step(firewall.maxEntries, old(Leased()), op, Leased())
                && (!ok ==> firewall.entries == Live(old(firewall.entries), now))
    {
      hide Sane, Leases.Sane, FirewallKey, Live, Leases.Issues, Leases.Step, Replayed;
      if remote.NoAddr? || port <= 0 || ttl <= 0 {
        return 0, false;
      }
      var key := FirewallKey(remote, port);
      MarkMeetsStep(firewall.maxEntries, Leased(), key, now + ttl, now);
      SaneLess(Leased(), key, now);
      var _ := firewall.Sweep(now);
      var entry := firewall.Peek(key);
      if entry.Some? && entry.value.expiresAt > now {
        id := IssueLocked(key, now + ttl);
        return id, true;
      }
      var n := firewall.Len();
      if n >= firewall.maxEntries {
        return 0, false;
      }
      id := IssueLocked(key, now + ttl);
      return id, true;
    }

    method IssueLocked(key: string, expiresAt: int) returns (id: nat)
      requires Valid() && expiresAt != Time.ZERO
      requires key in firewall.entries || |firewall.entries| < firewall.maxEntries
      modifies this`nextID, firewall
      ensures Valid()
      ensures id == nextID == old(nextID) + 1
      ensures firewall.entries == old(firewall.entries)[key := Item(id, expiresAt)]
    {
      hide Sane, Leases.Sane, Replayed, Touch;
      SaneIssued(Leased(), key, expiresAt);
      nextID := nextID + 1;
      id := nextID;
      firewall.SetUntil(key, id, expiresAt);
    }

    /** Ends a lease exactly when the id is the stored one and its time has passed. */
    method ExpireFirewall(remote: Addr, port: int, id: nat, now: int) returns (ended: bool)
      requires Valid()
      modifies firewall
      ensures Valid()
      ensures var op := Leases.EndOp(FirewallKey(remote, port), id, now);
              && ended == Leases.Ends(old(Leased()), op)
              && Leases.Step(firewall.maxEntries, old(Leased()), op, Leased())
    {
      hide Sane, Leases.Sane, FirewallKey;
      SaneLess(Leased(), FirewallKey(remote, port), now);
      if id == 0 {
        return false;
      }
      var key := FirewallKey(remote, port);
      var lease := firewall.Peek(key);
      if lease.None? || lease.value.value != id || now < lease.value.expiresAt {
        return false;
      }
      ended := firewall.Delete(key);
    }

    method RemoveFirewall(remote: Addr, port: int) returns (removed: bool)
      requires Valid()
      modifies firewall
      ensures Valid()
      ensures Leases.Step(firewall.maxEntries, old(Leased()), Leases.LoseOp, Leased())
      ensures removed <==> FirewallKey(remote, port) in old(firewall.entries)
      ensures firewall.entries == old(firewall.entries) - {FirewallKey(remote, port)}
    {
      hide Sane, Leases.Sane, FirewallKey;
      SaneLess(Leased(), FirewallKey(remote, port), 0);
      removed := firewall.Delete(FirewallKey(remote, port));
    }
  }

  lemma SmallerIff(were: Sessions.Store, are: Sessions.Store)
    requires are.Keys <= were.Keys
    ensures |are| < |were| <==> are.Keys != were.Keys
  {
    Lists.SubsetSize(are.Keys, were.Keys);
    if |are| >= |were| {
      Lists.SubsetOfSameSize(are.Keys, were.Keys);
    }
  }
}
