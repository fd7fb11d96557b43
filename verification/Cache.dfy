/**
 Instants and durations. An instant is a number of nanoseconds since the Unix
 epoch, a duration a number of nanoseconds.
 */
module Time {
  const SECOND: int := 1_000_000_000
  const MINUTE: int := 60 * SECOND

  /** Go's zero `time.Time`: midnight of 1 January of year 1. */
  const ZERO: int := -62135596800 * SECOND
}

module Wrappers {
  datatype Option<+T> = None | Some(value: T) {
    predicate IsFailure() {
      None?
    }

    function PropagateFailure<U>(): Option<U>
      requires None?
    {
      None
    }

    function Extract(): T
      requires Some?
    {
      value
    }
  }

  datatype Result<+T, +E> = Ok(value: T) | Err(error: E)
}

/** Sequences filtered by a predicate, and sizes of finite sets. */
module Lists {
  /** The elements of `s` that satisfy `keep`, in order. */
  function Filter<T>(s: seq<T>, keep: T -> bool): (r: seq<T>)
    ensures |r| <= |s|
  {
    if s == [] then []
    else if keep(s[0]) then [s[0]] + Filter(s[1..], keep)
    else Filter(s[1..], keep)
  }

  lemma {:induction false} FilterMember<T>(s: seq<T>, keep: T -> bool, x: T)
    ensures x in Filter(s, keep) <==> x in s && keep(x)
  {
    if s != [] {
      FilterMember(s[1..], keep, x);
      assert x in s <==> x == s[0] || x in s[1..];
    }
  }

  lemma {:induction false} FilterAppend<T>(a: seq<T>, b: seq<T>, keep: T -> bool)
    ensures Filter(a + b, keep) == Filter(a, keep) + Filter(b, keep)
  {
    if a == [] {
      assert a + b == b;
    } else {
      assert (a + b)[1..] == a[1..] + b;
      FilterAppend(a[1..], b, keep);
    }
  }

  lemma {:induction false} FilterAll<T>(s: seq<T>, keep: T -> bool)
    requires forall e :: e in s ==> keep(e)
    ensures Filter(s, keep) == s
  {
    if s != [] {
      FilterAll(s[1..], keep);
    }
  }

  ghost predicate Distinct<T>(s: seq<T>) {
    forall i, j :: 0 <= i < j < |s| ==> s[i] != s[j]
  }

  /** `s` lists elements of `keys` only, none twice, and as many as there are
      (so, by `EnumeratesAll`, all of them). */
  ghost predicate Enumerates<T>(s: seq<T>, keys: set<T>) {
    && |s| == |keys|
    && Distinct(s)
    && forall i :: 0 <= i < |s| ==> s[i] in keys
  }

  lemma EnumeratesAll<T>(s: seq<T>, keys: set<T>, x: T)
    requires Enumerates(s, keys) && x in keys
    ensures x in s
  {
    ElementsSize(s);
    SubsetOfSameSize(Elements(s), keys);
  }

  ghost function Elements<T>(s: seq<T>): (r: set<T>) {
    set x | x in s
  }

  lemma {:induction false} ElementsSize<T>(s: seq<T>)
    requires Distinct(s)
    ensures |Elements(s)| == |s|
  {
    if s != [] {
      var n := |s| - 1;
      ElementsSize(s[..n]);
      assert Elements(s) == Elements(s[..n]) + {s[n]};
    }
  }

  lemma {:induction false} SubsetSize<T>(a: set<T>, b: set<T>)
    requires a <= b
    ensures |a| <= |b|
  {
    if x :| x in a {
      SubsetSize(a - {x}, b - {x});
    }
  }

  lemma SubsetOfSameSize<T>(a: set<T>, b: set<T>)
    requires a <= b && |a| >= |b|
    ensures a == b
  {
    if !(b <= a) {
      var x :| x in b && x !in a;
      SubsetSize(a + {x}, b);
    }
  }

  function Cut<T>(s: seq<T>, i: nat): (r: seq<T>)
    requires i < |s|
  {
    s[..i] + s[i + 1..]
  }

  /** The list in the middle of a filtering pass: `seen` elements looked at. */
  ghost function Pass<T>(all: seq<T>, seen: nat, keep: T -> bool): (r: seq<T>)
    requires seen <= |all|
    ensures |Filter(all[..seen], keep)| + (|all| - seen) == |r|
  {
    Filter(all[..seen], keep) + all[seen..]
  }

  lemma PassStep<T>(all: seq<T>, seen: nat, keep: T -> bool)
    requires seen < |all|
    ensures var i := |Filter(all[..seen], keep)|;
            && Pass(all, seen, keep)[i] == all[seen]
            && |Filter(all[..seen + 1], keep)| == (if keep(all[seen]) then i + 1 else i)
            && Pass(all, seen + 1, keep) == if keep(all[seen]) then Pass(all, seen, keep) else Cut(Pass(all, seen, keep), i)
  {
    hide Cut;
    assert all[..seen + 1] == all[..seen] + [all[seen]];
    assert all[seen..] == [all[seen]] + all[seen + 1..];
    FilterAppend(all[..seen], [all[seen]], keep);
    CutMiddle(Filter(all[..seen], keep), all[seen], all[seen + 1..]);
  }

  lemma CutMiddle<T>(a: seq<T>, x: T, b: seq<T>)
    ensures (a + ([x] + b))[|a|] == x && Cut(a + ([x] + b), |a|) == a + b && (a + [x]) + b == a + ([x] + b)
  {
  }

  lemma PassStart<T>(all: seq<T>, keep: T -> bool)
    ensures Pass(all, 0, keep) == all && |Filter(all[..0], keep)| == 0
  {
  }

  lemma PassDone<T>(all: seq<T>, keep: T -> bool)
    ensures Pass(all, |all|, keep) == Filter(all, keep)
  {
    assert all[..|all|] == all;
  }

  lemma {:induction false} FilterDistinct<T>(s: seq<T>, keep: T -> bool)
    requires Distinct(s)
    ensures Distinct(Filter(s, keep))
  {
    if s != [] {
      FilterDistinct(s[1..], keep);
      FilterMember(s[1..], keep, s[0]);
    }
  }

  lemma FilterEnumerates<T>(s: seq<T>, keys: set<T>, keep: T -> bool)
    requires Enumerates(s, keys)
    ensures Enumerates(Filter(s, keep), set k | k in keys && keep(k))
  {
    var r, kept := Filter(s, keep), set k | k in keys && keep(k);
    FilterDistinct(s, keep);
    forall i | 0 <= i < |r| ensures r[i] in kept {
      FilterMember(s, keep, r[i]);
    }
    forall k | k in kept ensures k in Elements(r) {
      EnumeratesAll(s, keys, k);
      FilterMember(s, keep, k);
    }
    ElementsSize(r);
    assert Elements(r) == kept;
  }

  lemma EnumeratesOne<T>(s: seq<T>, a: set<T>, b: set<T>)
    requires Enumerates(s, a) && Enumerates(s, b)
    ensures a == b
  {
    forall x | x in a + b ensures x in a && x in b {
      if x in a {
        EnumeratesAll(s, a, x);
      } else {
        EnumeratesAll(s, b, x);
      }
    }
  }

  lemma EnumeratesCut<T>(s: seq<T>, keys: set<T>, i: nat)
    requires Enumerates(s, keys) && i < |s|
    ensures Enumerates(Cut(s, i), keys - {s[i]})
  {
    var t := Cut(s, i);
    forall j | 0 <= j < |t| ensures t[j] == if j < i then s[j] else s[j + 1] {
    }
  }

  lemma EnumeratesAppend<T>(s: seq<T>, keys: set<T>, x: T)
    requires Enumerates(s, keys) && x !in keys
    ensures Enumerates(s + [x], keys + {x})
  {
  }

  lemma EnumeratesMoved<T>(s: seq<T>, keys: set<T>, i: nat)
    requires Enumerates(s, keys) && i < |s|
    ensures Enumerates(Cut(s, i) + [s[i]], keys)
  {
    hide Enumerates, Cut;
    assert s[i] in keys by { ElementIn(s, keys, i); }
    EnumeratesCut(s, keys, i);
    EnumeratesAppend(Cut(s, i), keys - {s[i]}, s[i]);
    assert keys - {s[i]} + {s[i]} == keys;
  }

  lemma ElementIn<T>(s: seq<T>, keys: set<T>, i: nat)
    requires Enumerates(s, keys) && i < |s|
    ensures s[i] in keys
  {
  }

  function Without<T(==)>(s: seq<T>, x: T): (r: seq<T>) {
    Filter(s, y => y != x)
  }

  /** Taking `s[i]` out of a list without repeats removes that position only. */
  lemma {:induction false} WithoutAt<T>(s: seq<T>, i: nat)
    requires Distinct(s) && i < |s|
    ensures Without(s, s[i]) == Cut(s, i)
  {
    if i == 0 {
      WithoutAbsent(s[1..], s[0]);
    } else {
      WithoutAt(s[1..], i - 1);
      assert Cut(s, i) == [s[0]] + Cut(s[1..], i - 1);
    }
  }

  lemma WithoutEnumerates<T>(s: seq<T>, keys: set<T>, x: T)
    requires Enumerates(s, keys) && x in keys
    ensures Enumerates(Without(s, x), keys - {x})
  {
    EnumeratesAll(s, keys, x);
    var i :| 0 <= i < |s| && s[i] == x;
    WithoutAt(s, i);
    EnumeratesCut(s, keys, i);
  }

  lemma WithoutAbsent<T>(s: seq<T>, x: T)
    requires x !in s
    ensures Without(s, x) == s
  {
    FilterAll(s, y => y != x);
  }
}

/**
 The bounded TTL/LRU store every other store is built on: a hash map, and a list
 of its keys from least to most recently touched. A list element is identified
 by its key.
 */
module Cache {
  import opened Lists
  import opened Wrappers
  import Time

  datatype Item<V> = Item(value: V, expiresAt: int)

  /** The map without its expired items. */
  function Live<K, V>(m: map<K, Item<V>>, now: int): (r: map<K, Item<V>>) {
    map k | k in m && LiveAt(m, k, now) :: m[k]
  }

  predicate LiveAt<K, V>(m: map<K, Item<V>>, key: K, now: int) {
    key in m && m[key].expiresAt > now
  }

  function IsLive<K, V>(m: map<K, Item<V>>, now: int): (r: K -> bool) {
    k => LiveAt(m, k, now)
  }

  function Spares<K, V>(m: map<K, Item<V>>, matches: (K, Item<V>) -> bool): (r: K -> bool) {
    k => k in m && !matches(k, m[k])
  }

  /** The list after `key` was touched: it goes to the back. */
  function Touch<K(==)>(s: seq<K>, key: K): (r: seq<K>) {
    Without(s, key) + [key]
  }

  lemma Filtered<K, V>(all: seq<K>, were: map<K, Item<V>>, order: seq<K>, entries: map<K, Item<V>>, keep: K -> bool)
    requires Enumerates(all, were.Keys) && Enumerates(order, entries.Keys) && order == Filter(all, keep)
    requires forall k :: k in entries ==> k in were && entries[k] == were[k]
    ensures entries == map k | k in were && keep(k) :: were[k]
  {
    FilterEnumerates(all, were.Keys, keep);
    EnumeratesOne(order, entries.Keys, set k | k in were.Keys && keep(k));
  }

  lemma Swept<K, V>(all: seq<K>, were: map<K, Item<V>>, order: seq<K>, entries: map<K, Item<V>>, now: int)
    requires Enumerates(all, were.Keys) && Enumerates(order, entries.Keys) && order == Filter(all, IsLive(were, now))
    requires forall k :: k in entries ==> k in were && entries[k] == were[k]
    ensures entries == Live(were, now)
  {
    Filtered(all, were, order, entries, IsLive(were, now));
  }

  lemma Spared<K, V>(all: seq<K>, were: map<K, Item<V>>, order: seq<K>, entries: map<K, Item<V>>, matches: (K, Item<V>) -> bool)
    requires Enumerates(all, were.Keys) && Enumerates(order, entries.Keys) && order == Filter(all, Spares(were, matches))
    requires forall k :: k in entries ==> k in were && entries[k] == were[k]
    ensures entries == map k | k in were && !matches(k, were[k]) :: were[k]
  {
    Filtered(all, were, order, entries, Spares(were, matches));
  }

  lemma LiveSize<K, V>(order: seq<K>, entries: map<K, Item<V>>, now: int)
    requires Enumerates(order, entries.Keys)
    ensures |Filter(order, IsLive(entries, now))| == |Live(entries, now)|
  {
    FilterEnumerates(order, entries.Keys, IsLive(entries, now));
    assert Live(entries, now).Keys == set k | k in entries.Keys && IsLive(entries, now)(k);
  }

  // ------------------------------------------------------- order of last touch

  /** What happened to a key: it was stored or read, or it was removed. */
  datatype Move<K> = Touched(key: K) | Dropped(key: K)

  /** The list after a history of moves. */
  function Replayed<K(==)>(moves: seq<Move<K>>): (r: seq<K>) {
    if moves == [] then []
    else
      var before, last := Replayed(moves[..|moves| - 1]), moves[|moves| - 1];
      if last.Touched? then Touch(before, last.key) else Without(before, last.key)
  }

  lemma ReplayedNext<K>(moves: seq<Move<K>>, m: Move<K>)
    ensures Replayed(moves + [m]) == if m.Touched? then Touch(Replayed(moves), m.key) else Without(Replayed(moves), m.key)
  {
    assert (moves + [m])[..|moves|] == moves;
  }

  /** One history continues another by removals only. */
  ghost predicate OnlyDrops<K>(before: seq<Move<K>>, after: seq<Move<K>>) {
    before <= after && forall i :: |before| <= i < |after| ==> after[i].Dropped?
  }

  lemma OneMoreDrop<K>(before: seq<Move<K>>, after: seq<Move<K>>, key: K)
    requires OnlyDrops(before, after)
    ensures OnlyDrops(before, after + [Dropped(key)])
  {
  }

  lemma NoDropsYet<K>(moves: seq<Move<K>>)
    ensures OnlyDrops(moves, moves)
  {
  }

  /** Index of the last move of `k`, or -1. */
  function LastMove<K(==)>(moves: seq<Move<K>>, k: K): (r: int)
    ensures -1 <= r < |moves|
    ensures r >= 0 ==> moves[r].key == k
    ensures forall i :: r < i < |moves| ==> moves[i].key != k
  {
    if moves == [] then -1
    else if moves[|moves| - 1].key == k then |moves| - 1
    else LastMove(moves[..|moves| - 1], k)
  }

  /** For every history, the list holds exactly the keys whose last move was a
      touch. */
  lemma {:induction false} HeldIffTouched<K>(moves: seq<Move<K>>, k: K)
    ensures k in Replayed(moves) <==> LastMove(moves, k) >= 0 && moves[LastMove(moves, k)].Touched?
  {
    if moves != [] {
      var prefix, last := moves[..|moves| - 1], moves[|moves| - 1];
      HeldIffTouched(prefix, k);
      FilterMember(Replayed(prefix), y => y != last.key, k);
    }
  }

  /** For every history, the list is in order of last touch. */
  lemma {:induction false} OrderedByLastTouch<K>(moves: seq<Move<K>>)
    ensures InTouchOrder(Replayed(moves), moves)
  {
    if moves != [] {
      var prefix, last := moves[..|moves| - 1], moves[|moves| - 1];
      var rest := Without(Replayed(prefix), last.key);
      OrderedByLastTouch(prefix);
      WithoutInTouchOrder(Replayed(prefix), prefix, last.key);
      forall i | 0 <= i < |rest| ensures LastMove(moves, rest[i]) == LastMove(prefix, rest[i]) {
        FilterMember(Replayed(prefix), y => y != last.key, rest[i]);
      }
    }
  }

  ghost predicate InTouchOrder<K>(s: seq<K>, moves: seq<Move<K>>) {
    forall i, j :: 0 <= i < j < |s| ==> LastMove(moves, s[i]) < LastMove(moves, s[j])
  }

  lemma {:induction false} WithoutInTouchOrder<K>(s: seq<K>, moves: seq<Move<K>>, x: K)
    requires InTouchOrder(s, moves)
    ensures InTouchOrder(Without(s, x), moves)
  {
    if s != [] {
      var rest := Without(s[1..], x);
      WithoutInTouchOrder(s[1..], moves, x);
      forall i | 0 <= i < |rest| ensures rest[i] in s[1..] {
        FilterMember(s[1..], y => y != x, rest[i]);
      }
    }
  }

  class TTLLRU<K(==), V> {
    var entries: map<K, Item<V>>
    var order: seq<K>
    const maxEntries: int

    /** Everything that was touched and removed. */
    ghost var moves: seq<Move<K>>

    /** Map and list hold the same keys, the list each of them once, there are never more
        than `maxEntries` of them, and the list is what the moves left. */
    ghost predicate Valid()
      reads this
    {
      && maxEntries >= 1
      && |order| <= maxEntries
      && Enumerates(order, entries.Keys)
      && order == Replayed(moves)
    }

    /** At all times the list is in order of last touch, and holds exactly the keys whose
        last move was a touch. */
    lemma InOrderOfLastTouch(key: K)
      requires Valid()
      ensures InTouchOrder(order, moves)
      ensures key in entries <==> LastMove(moves, key) >= 0 && moves[LastMove(moves, key)].Touched?
    {
      OrderedByLastTouch(moves);
      HeldIffTouched(moves, key);
      if key in entries {
        EnumeratesAll(order, entries.Keys, key);
      }
    }

    constructor (maxEntries: int)
      ensures Valid() && entries == map[] && order == [] && moves == []
      ensures this.maxEntries == if maxEntries <= 0 then 1 else maxEntries
    {
      entries, order, moves := map[], [], [];
      this.maxEntries := if maxEntries <= 0 then 1 else maxEntries;
    }

    /** Position in the list of a stored key. */
    method Locate(key: K) returns (i: nat)
      requires Valid() && key in entries
      ensures i < |order| && order[i] == key
    {
      EnumeratesAll(order, entries.Keys, key);
      i := 0;
      while i + 1 < |order| && order[i] != key
        invariant i < |order|
        invariant forall j :: 0 <= j < i ==> order[j] != key
      {
        i := i + 1;
      }
    }

    /** Unlinks `order[i]` from the list and from the map. */
    method RemoveElementLocked(i: nat)
      requires Valid() && i < |order|
      modifies this
      ensures Valid()
      ensures order == Cut(old(order), i) == Without(old(order), old(order)[i])
      ensures entries == old(entries) - {old(order)[i]}
      ensures moves == old(moves) + [Dropped(old(order)[i])]
    {
      WithoutAt(order, i);
      EnumeratesCut(order, entries.Keys, i);
      ElementIn(order, entries.Keys, i);
      hide Replayed, Enumerates, Without;
      ReplayedNext(moves, Dropped(order[i]));
      assert (entries - {order[i]}).Keys == entries.Keys - {order[i]};
      moves := moves + [Dropped(order[i])];
      entries := entries - {order[i]};
      order := order[..i] + order[i + 1..];
    }

    method MoveToBack(i: nat)
      requires Valid() && i < |order|
      modifies this`order, this`moves
      ensures Valid()
      ensures order == Touch(old(order), old(order)[i])
      ensures moves == old(moves) + [Touched(old(order)[i])]
    {
      WithoutAt(order, i);
      EnumeratesMoved(order, entries.Keys, i);
      hide Replayed, Enumerates, Without;
      ReplayedNext(moves, Touched(order[i]));
      moves := moves + [Touched(order[i])];
      order := order[..i] + order[i + 1..] + [order[i]];
    }

    /** Updating keeps every other entry. An insert into a full cache drops exactly
        the least recently touched entry, and nothing else is lost. */
    method SetLocked(key: K, value: V, expiresAt: int)
      requires Valid()
      modifies this
      ensures Valid()
      ensures key in old(entries) || |old(order)| < maxEntries ==>
                && order == Touch(old(order), key)
                && entries == old(entries)[key := Item(value, expiresAt)]
                && moves == old(moves) + [Touched(key)]
      ensures key !in old(entries) && |old(order)| == maxEntries ==>
                && order == Touch(old(order)[1..], key)
                && entries == (old(entries) - {old(order)[0]})[key := Item(value, expiresAt)]
                && moves == old(moves) + [Dropped(old(order)[0]), Touched(key)]
    {
      hide Replayed;
      if key in entries {
        var i := Locate(key);
        entries := entries[key := Item(value, expiresAt)];
        MoveToBack(i);
        return;
      }
      while |entries| >= maxEntries && |order| > 0
        invariant Valid() && |old(order)| - 1 <= |order| <= |old(order)|
        invariant |order| == |old(order)| ==> order == old(order) && entries == old(entries) && moves == old(moves)
        invariant |order| < |old(order)| ==>
                    && |old(order)| == maxEntries
                    && order == old(order)[1..] && entries == old(entries) - {old(order)[0]}
                    && moves == old(moves) + [Dropped(old(order)[0])]
        decreases |order|
      {
        RemoveElementLocked(0);
      }
      WithoutAbsent(order, key);
      ReplayedNext(moves, Touched(key));
      moves := moves + [Touched(key)];
      order := order + [key];
      entries := entries[key := Item(value, expiresAt)];
    }

    /** A zero expiry time stores nothing. */
    method SetUntil(key: K, value: V, expiresAt: int)
      requires Valid()
      modifies this
      ensures Valid()
      ensures expiresAt == Time.ZERO ==> order == old(order) && entries == old(entries) && moves == old(moves)
      ensures expiresAt != Time.ZERO && (key in old(entries) || |old(order)| < maxEntries) ==>
                && order == Touch(old(order), key)
                && entries == old(entries)[key := Item(value, expiresAt)]
                && moves == old(moves) + [Touched(key)]
      ensures expiresAt != Time.ZERO && key !in old(entries) && |old(order)| == maxEntries ==>
                && order == Touch(old(order)[1..], key)
                && entries == (old(entries) - {old(order)[0]})[key := Item(value, expiresAt)]
                && moves == old(moves) + [Dropped(old(order)[0]), Touched(key)]
    {
      hide Replayed;
      if expiresAt == Time.ZERO {
        return;
      }
      SetLocked(key, value, expiresAt);
    }

    /** Stores the entry unless `key` is live; a live hit is touched instead. */
    method AddIfAbsent(key: K, value: V, expiresAt: int, now: int) returns (added: bool)
      requires Valid()
      modifies this
      ensures Valid()
      ensures added <==> expiresAt != Time.ZERO && !LiveAt(old(entries), key, now)
      ensures !added ==> entries == old(entries)
      ensures !added ==> order == if expiresAt == Time.ZERO then old(order) else Touch(old(order), key)
      ensures !added ==> moves == if expiresAt == Time.ZERO then old(moves) else old(moves) + [Touched(key)]
      ensures added ==> |moves| > 0 && moves[|moves| - 1] == Touched(key) && OnlyDrops(old(moves), moves[..|moves| - 1])
      ensures added && (key in old(entries) || |old(order)| < maxEntries) ==>
                && order == Touch(old(order), key)
                && entries == old(entries)[key := Item(value, expiresAt)]
      ensures added && key !in old(entries) && |old(order)| == maxEntries ==>
                && order == Touch(old(order)[1..], key)
                && entries == (old(entries) - {old(order)[0]})[key := Item(value, expiresAt)]
    {
      hide Replayed;
      if expiresAt == Time.ZERO {
        return false;
      }
      if key in entries {
        var i := Locate(key);
        if entries[key].expiresAt > now {
          MoveToBack(i);
          return false;
        }
        RemoveElementLocked(i);
        WithoutAbsent(order, key);
      }
      SetLocked(key, value, expiresAt);
      return true;
    }

    /** Reads an entry, live or not, without touching it. */
    method Peek(key: K) returns (r: Option<Item<V>>)
      requires Valid()
      ensures r == if key in entries then Some(entries[key]) else None
    {
      if key !in entries {
        return None;
      }
      return Some(entries[key]);
    }

    /** A live hit is touched, an expired one removed. */
    method GetAt(key: K, now: int) returns (r: Option<V>)
      requires Valid()
      modifies this
      ensures Valid()
      ensures LiveAt(old(entries), key, now) ==>
                && r == Some(old(entries)[key].value)
                && entries == old(entries) && order == Touch(old(order), key) && moves == old(moves) + [Touched(key)]
      ensures !LiveAt(old(entries), key, now) ==>
                && r == None && entries == old(entries) - {key} && order == Without(old(order), key)
                && moves == old(moves) + if key in old(entries) then [Dropped(key)] else []
    {
      hide Replayed;
      if key !in entries {
        WithoutAbsent(order, key);
        return None;
      }
      var i := Locate(key);
      if entries[key].expiresAt <= now {
        RemoveElementLocked(i);
        return None;
      }
      MoveToBack(i);
      return Some(entries[key].value);
    }

    method Delete(key: K) returns (removed: bool)
      requires Valid()
      modifies this
      ensures Valid()
      ensures removed <==> key in old(entries)
      ensures entries == old(entries) - {key} && order == Without(old(order), key)
      ensures moves == old(moves) + if removed then [Dropped(key)] else []
    {
      hide Replayed;
      if key !in entries {
        WithoutAbsent(order, key);
        return false;
      }
      var i := Locate(key);
      RemoveElementLocked(i);
      return true;
    }

    /** Removes exactly the entries that match, keeping the order of the rest. */
    method DeleteWhere(matches: (K, Item<V>) -> bool) returns (removed: nat)
      requires Valid()
      modifies this
      ensures Valid()
      ensures entries == map k | k in old(entries) && !matches(k, old(entries)[k]) :: old(entries)[k]
      ensures order == Filter(old(order), Spares(old(entries), matches))
      ensures removed == |old(order)| - |order|
      ensures OnlyDrops(old(moves), moves)
    {
      hide Replayed, OnlyDrops, Without, Filter, Pass, Enumerates;
      NoDropsYet(moves);
      ghost var all, were, seen := order, entries, 0;
      ghost var keep := Spares(were, matches);
      PassStart(all, keep);
      removed := 0;
      var i := 0;
      while i < |order|
        invariant Valid()
        invariant seen == i + removed <= |all| && i == |Filter(all[..seen], keep)|
        invariant order == Pass(all, seen, keep) && OnlyDrops(old(moves), moves)
        invariant forall k :: k in entries ==> k in were && entries[k] == were[k]
        decreases |order| - i
      {
        PassStep(all, seen, keep);
        ElementIn(order, entries.Keys, i);
        if matches(order[i], entries[order[i]]) {
          OneMoreDrop(old(moves), moves, order[i]);
          RemoveElementLocked(i);
          removed := removed + 1;
        } else {
          i := i + 1;
        }
        seen := seen + 1;
      }
      assert seen == |all|;
      PassDone(all, keep);
      Spared(all, were, order, entries, matches);
    }

    /** Removes exactly the expired entries. */
    method Sweep(now: int) returns (removed: nat)
      requires Valid()
      modifies this
      ensures Valid()
      ensures entries == Live(old(entries), now)
      ensures order == Filter(old(order), IsLive(old(entries), now))
      ensures removed == |old(order)| - |order|
      ensures OnlyDrops(old(moves), moves)
    {
      hide Replayed, OnlyDrops, Without, Filter, Pass, Enumerates;
      NoDropsYet(moves);
      ghost var all, were, seen := order, entries, 0;
      ghost var keep := IsLive(were, now);
      PassStart(all, keep);
      removed := 0;
      var i := 0;
      while i < |order|
        invariant Valid()
        invariant seen == i + removed <= |all| && i == |Filter(all[..seen], keep)|
        invariant order == Pass(all, seen, keep) && OnlyDrops(old(moves), moves)
        invariant forall k :: k in entries ==> k in were && entries[k] == were[k]
        decreases |order| - i
      {
        PassStep(all, seen, keep);
        ElementIn(order, entries.Keys, i);
        if entries[order[i]].expiresAt <= now {
          OneMoreDrop(old(moves), moves, order[i]);
          RemoveElementLocked(i);
          removed := removed + 1;
        } else {
          i := i + 1;
        }
        seen := seen + 1;
      }
      assert seen == |all|;
      PassDone(all, keep);
      Swept(all, were, order, entries, now);
    }

    /** The number of stored entries, expired ones included. */
    method Len() returns (n: nat)
      requires Valid()
      ensures n == |entries|
    {
      n := |entries|;
    }

    method ActiveLen(now: int) returns (active: nat)
      requires Valid()
      ensures active == |Live(entries, now)|
    {
      hide Replayed, Filter, Pass, Enumerates;
      ghost var keep := IsLive(entries, now);
      PassStart(order, keep);
      active := 0;
      for i := 0 to |order|
        invariant active == |Filter(order[..i], keep)|
      {
        PassStep(order, i, keep);
        ElementIn(order, entries.Keys, i);
        if entries[order[i]].expiresAt > now {
          active := active + 1;
        }
      }
      PassDone(order, keep);
      LiveSize(order, entries, now);
    }
  }
}
