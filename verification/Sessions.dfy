/**
 Knock sessions as a store that operations change: every connection let in is paid for by
 the latest knock of the same client for the same port. The store may lose a session at
 any time, because its cache is bounded.
 */
module Sessions {
  import opened Bytes
  import opened Cache

  /** An IP address by its text. */
  datatype Addr = NoAddr | Addr(text: string)

  datatype SessionKey = SessionKey(remote: Addr, clientID: string, port: uint16)

  /** A port out of range counts as port 0. */
  function KeyPort(port: int): (r: uint16) {
    if port < 0 || port > 65535 then 0 else port
  }

  function KeyFor(remote: Addr, clientID: string, port: int): (r: SessionKey) {
    SessionKey(remote, clientID, KeyPort(port))
  }

  datatype Session = Session(remaining: int, port: int, sessionID: seq<byte>)

  type Store = map<SessionKey, Item<Session>>

  datatype Admission = Admitted | SessionExpired | NoSession | IdMismatch | PortMismatch | NoRemote

  /** What is answered to a connection with a given port and session id. */
  function Judge(store: Store, key: SessionKey, port: int, id: seq<byte>, now: int): (r: Admission) {
    if key !in store then NoSession
    else if store[key].expiresAt <= now then SessionExpired
    else
      var s := store[key].value;
      if s.sessionID != [] && s.sessionID != id then IdMismatch
      else if s.port > 0 && port > 0 && s.port != port then PortMismatch
      else Admitted
  }

  /** The sessions left by an answer: one use is taken, and what has expired or is used up
      goes. */
  function SessionsLeft(store: Store, key: SessionKey, r: Admission): (left: Store)
    requires r == Admitted ==> key in store
  {
    if r == SessionExpired then store - {key}
    else if r != Admitted then store
    else
      var s := store[key].value;
      if s.remaining <= 1 then store - {key}
      else store[key := Item(s.(remaining := s.remaining - 1), store[key].expiresAt)]
  }

  /** Every stored session has a use left and is filed under its own port. */
  ghost predicate Sane(store: Store) {
    forall k :: k in store ==> store[k].value.remaining >= 1 && KeyPort(store[k].value.port) == k.port
  }

  lemma SaneLeft(store: Store, key: SessionKey, r: Admission)
    requires Sane(store) && (r == Admitted ==> key in store)
    ensures Sane(SessionsLeft(store, key, r))
  {
  }

  /** For ports in range, negative ones included, the port check never refuses. */
  lemma PortMismatchOutOfRange(store: Store, remote: Addr, client: string, port: int, id: seq<byte>, now: int)
    requires Sane(store) && Judge(store, KeyFor(remote, client, port), port, id, now) == PortMismatch
    ensures port > 65535
  {
    assert KeyFor(remote, client, port) in store;
  }

  // ------------------------------------------------------------------------- steps

  ghost predicate Part(fewer: Store, store: Store) {
    forall k :: k in fewer ==> k in store && fewer[k] == store[k]
  }

  datatype Op =
    | AddOp(key: SessionKey, session: Session, expiresAt: int)
    | UseOp(key: SessionKey, port: int, id: seq<byte>, now: int)
    | LoseOp

  /** A grant of a new key drops one other session, if the store is full. */
  ghost predicate Added(limit: int, store: Store, key: SessionKey, item: Item<Session>, store': Store) {
    if key in store || |store| < limit then store' == store[key := item]
    else exists dropped :: store' == (store - {dropped})[key := item]
  }

  ghost predicate Step(limit: int, store: Store, op: Op, store': Store) {
    match op
    case AddOp(key, s, expiresAt) =>
      s.remaining >= 1 && KeyPort(s.port) == key.port && Added(limit, store, key, Item(s, expiresAt), store')
    case UseOp(key, port, id, now) =>
      KeyPort(port) == key.port && store' == SessionsLeft(store, key, Judge(store, key, port, id, now))
    case LoseOp => Part(store', store)
  }

  lemma AddedPart(limit: int, store: Store, key: SessionKey, item: Item<Session>, store': Store)
    requires Added(limit, store, key, item, store')
    ensures key in store' && store'[key] == item && Part(store' - {key}, store)
    ensures key in store || |store| < limit ==> Part(store - {key}, store')
  {
  }

  /** A run of the store, which starts empty. */
  ghost predicate IsRun(limit: int, run: seq<Store>, ops: seq<Op>) {
    && |run| == |ops| + 1 && run[0] == map[]
    && forall i :: 0 <= i < |ops| ==> Step(limit, run[i], ops[i], run[i + 1])
  }

  /** Step `i` lets a connection in. */
  predicate Admits(store: Store, op: Op) {
    op.UseOp? && Judge(store, op.key, op.port, op.id, op.now) == Admitted
  }

  /** The latest grant for a key before step `n`, or -1. */
  function LastAdd(ops: seq<Op>, n: nat, key: SessionKey): (i: int)
    requires n <= |ops|
    ensures -1 <= i < n
    ensures i >= 0 ==> ops[i].AddOp? && ops[i].key == key
    ensures forall j :: i < j < n ==> !(ops[j].AddOp? && ops[j].key == key)
  {
    if n == 0 then -1 else if ops[n - 1].AddOp? && ops[n - 1].key == key then n - 1 else LastAdd(ops, n - 1, key)
  }

  /** How many connections were let in for a key in steps `from` to `n - 1`. */
  ghost function Uses(run: seq<Store>, ops: seq<Op>, from: nat, n: nat, key: SessionKey): (r: nat)
    requires n <= |ops| <= |run|
  {
    if n <= from then 0
    else Uses(run, ops, from, n - 1, key) + if Admits(run[n - 1], ops[n - 1]) && ops[n - 1].key == key then 1 else 0
  }

  function Granted(ops: seq<Op>, n: nat, key: SessionKey): (r: int)
    requires n <= |ops|
  {
    if n == 0 then 0
    else Granted(ops, n - 1, key) + if ops[n - 1].AddOp? && ops[n - 1].key == key then ops[n - 1].session.remaining else 0
  }

  /** A stored session is the latest grant of its key less the uses since. */
  ghost predicate Backed(run: seq<Store>, ops: seq<Op>, n: nat, key: SessionKey)
    requires n <= |ops| <= |run| && n < |run| && key in run[n]
  {
    var i, item := LastAdd(ops, n, key), run[n][key];
    && i >= 0 && item.expiresAt == ops[i].expiresAt
    && item.value == ops[i].session.(remaining := ops[i].session.remaining - Uses(run, ops, i + 1, n, key))
    && item.value.remaining >= 1
  }

  /** Where a stored session comes from: it is granted just now, or was stored before, with
      one use more if a connection is let in. */
  lemma StepItem(limit: int, store: Store, op: Op, store': Store, key: SessionKey)
    requires Step(limit, store, op, store') && key in store'
    ensures op.AddOp? && op.key == key ==> store'[key] == Item(op.session, op.expiresAt) && op.session.remaining >= 1
    ensures !(op.AddOp? && op.key == key) ==>
              && key in store && store'[key].expiresAt == store[key].expiresAt
              && var used := if Admits(store, op) && op.key == key then 1 else 0;
                 && store'[key].value == store[key].value.(remaining := store[key].value.remaining - used)
                 && (used == 1 ==> store'[key].value.remaining >= 1)
  {
    hide Added;
    if op.AddOp? {
      AddedPart(limit, store, op.key, Item(op.session, op.expiresAt), store');
      assert key != op.key ==> key in store' - {op.key};
    }
  }

  lemma {:induction false} StoredIsBacked(limit: int, run: seq<Store>, ops: seq<Op>, n: nat, key: SessionKey)
    requires IsRun(limit, run, ops) && n <= |ops| && key in run[n]
    ensures Backed(run, ops, n, key)
  {
    hide Step, Admits;
    var op := ops[n - 1];
    StepItem(limit, run[n - 1], op, run[n], key);
    if !(op.AddOp? && op.key == key) {
      StoredIsBacked(limit, run, ops, n - 1, key);
    }
  }

  /** In every run, whoever is let in is covered by the latest grant of the key: before it
      expires, with an empty or equal session id, and while uses of it are left. */
  lemma EveryUseCovered(limit: int, run: seq<Store>, ops: seq<Op>, j: nat)
    requires IsRun(limit, run, ops) && j < |ops| && Admits(run[j], ops[j])
    ensures var i := LastAdd(ops, j, ops[j].key);
            && i >= 0 && ops[j].now < ops[i].expiresAt
            && (ops[i].session.sessionID == [] || ops[i].session.sessionID == ops[j].id)
            && Uses(run, ops, i + 1, j, ops[j].key) < ops[i].session.remaining
  {
    hide Step, Uses, LastAdd;
    AdmittedIsStored(run[j], ops[j]);
    StoredIsBacked(limit, run, ops, j, ops[j].key);
  }

  ghost function Remains(store: Store, key: SessionKey): (r: int) {
    if key in store then store[key].value.remaining else 0
  }

  lemma StepRemains(limit: int, store: Store, op: Op, store': Store, key: SessionKey)
    requires Step(limit, store, op, store') && Remains(store, key) >= 0 && (key in store ==> Remains(store, key) >= 1)
    ensures Remains(store', key) + (if Admits(store, op) && op.key == key then 1 else 0)
            <= Remains(store, key) + if op.AddOp? && op.key == key then op.session.remaining else 0
  {
    hide Step, Judge;
    AdmittedIsStored(store, op);
    if key in store' {
      StepItem(limit, store, op, store', key);
    } else {
      GrantIsStored(limit, store, op, store');
    }
  }

  lemma GrantIsStored(limit: int, store: Store, op: Op, store': Store)
    requires Step(limit, store, op, store')
    ensures op.AddOp? ==> op.key in store' && op.session.remaining >= 1
  {
    hide Added;
    if op.AddOp? {
      AddedPart(limit, store, op.key, Item(op.session, op.expiresAt), store');
    }
  }

  /** What the store still holds of a key was never given out. */
  lemma {:induction false} LeftOver(limit: int, run: seq<Store>, ops: seq<Op>, n: nat, key: SessionKey)
    requires IsRun(limit, run, ops) && n <= |ops|
    ensures Uses(run, ops, 0, n, key) + Remains(run[n], key) <= Granted(ops, n, key)
    ensures Remains(run[n], key) >= 0 && (key in run[n] ==> Remains(run[n], key) >= 1)
  {
    hide Step, Admits;
    if key in run[n] {
      StoredIsBacked(limit, run, ops, n, key);
    }
    if n > 0 {
      LeftOver(limit, run, ops, n - 1, key);
      StepRemains(limit, run[n - 1], ops[n - 1], run[n], key);
    }
  }

  lemma AdmittedIsStored(store: Store, op: Op)
    ensures Admits(store, op) ==> op.key in store
  {
  }

  /** Conservation: in every run a key is used at most as often as all its grants together
      allow. */
  lemma UsesConserved(limit: int, run: seq<Store>, ops: seq<Op>, n: nat, key: SessionKey)
    requires IsRun(limit, run, ops) && n <= |ops|
    ensures Uses(run, ops, 0, n, key) <= Granted(ops, n, key)
  {
    LeftOver(limit, run, ops, n, key);
  }

  // --------------------------------------------------------------- every answer

  /** The grant lets a connection with this session id in at `now`. */
  predicate InTime(grant: Op, now: int)
    requires grant.AddOp?
  {
    now < grant.expiresAt
  }

  predicate Suits(grant: Op, id: seq<byte>)
    requires grant.AddOp?
  {
    grant.session.sessionID == [] || grant.session.sessionID == id
  }

  /** Every answer is exact, in every run: what a connection is told follows from whether a
      session of its key is stored, and then from the latest grant of the key. With a port
      in range it is let in if and only if one is stored, before the grant expires, and
      the session id of the grant is empty or its own. */
  lemma AnswerIff(limit: int, run: seq<Store>, ops: seq<Op>, j: nat)
    requires IsRun(limit, run, ops) && j < |ops| && ops[j].UseOp?
    ensures var op, i, stored := ops[j], LastAdd(ops, j, ops[j].key), ops[j].key in run[j];
            var r := Judge(run[j], op.key, op.port, op.id, op.now);
            && (stored ==> i >= 0)
            && (r == NoSession <==> !stored)
            && (r == SessionExpired <==> stored && !InTime(ops[i], op.now))
            && (r == IdMismatch <==> stored && InTime(ops[i], op.now) && !Suits(ops[i], op.id))
            && (r == PortMismatch <==> && stored && InTime(ops[i], op.now) && Suits(ops[i], op.id)
                                       && op.port > 65535 && ops[i].session.port > 0 && ops[i].session.port != op.port)
            && (op.port <= 65535 ==> (Admits(run[j], op) <==> stored && InTime(ops[i], op.now) && Suits(ops[i], op.id)))
            && r != NoRemote
  {
    hide Uses;
    var key := ops[j].key;
    assert Step(limit, run[j], ops[j], run[j + 1]);
    if key in run[j] {
      StoredIsBacked(limit, run, ops, j, key);
      GrantFits(limit, run, ops, LastAdd(ops, j, key));
    }
  }

  lemma GrantFits(limit: int, run: seq<Store>, ops: seq<Op>, i: nat)
    requires IsRun(limit, run, ops) && i < |ops| && ops[i].AddOp?
    ensures ops[i].session.remaining >= 1 && KeyPort(ops[i].session.port) == ops[i].key.port
  {
    hide Added;
    assert Step(limit, run[i], ops[i], run[i + 1]);
  }

  // ------------------------------------------------------ which sessions are stored

  /** Step `k` removes the session of `key`, or drops it to make room for another. */
  predicate Drops(run: seq<Store>, ops: seq<Op>, k: nat, key: SessionKey) {
    k < |ops| && k + 1 < |run| && key in run[k] && key !in run[k + 1] && !ops[k].UseOp?
  }

  /** Step `k` is a use of `key`. */
  predicate IsUse(ops: seq<Op>, k: nat, key: SessionKey) {
    k < |ops| && ops[k].UseOp? && ops[k].key == key
  }

  /** Since its latest grant, at step `i`, the session of `key` was not dropped, no use came
      after it expired, and not all uses are taken. */
  ghost predicate Lasts(run: seq<Store>, ops: seq<Op>, i: int, n: nat, key: SessionKey)
    requires n <= |ops| <= |run| && i < n && (i >= 0 ==> ops[i].AddOp?)
  {
    && i >= 0
    && (forall k: nat :: i < k < n ==> !Drops(run, ops, k, key))
    && (forall k: nat :: i < k < n && IsUse(ops, k, key) ==> InTime(ops[i], ops[k].now))
    && Uses(run, ops, i + 1, n, key) < ops[i].session.remaining
  }

  /** What one step does to the session of a key that it does not grant. */
  lemma StepStored(limit: int, store: Store, op: Op, store': Store, key: SessionKey)
    requires Step(limit, store, op, store') && !(op.AddOp? && op.key == key)
    ensures key in store' ==> key in store
    ensures op.UseOp? && op.key != key ==> (key in store' <==> key in store)
    ensures op.UseOp? && op.key == key && key in store ==>
              (key in store' <==> store[key].expiresAt > op.now && !(Admits(store, op) && store[key].value.remaining <= 1))
  {
    hide Added;
    if op.AddOp? {
      AddedPart(limit, store, op.key, Item(op.session, op.expiresAt), store');
      assert key in store' ==> key in store' - {op.key};
    }
  }

  /** In every run a session is stored exactly as long as its latest grant lasts. */
  lemma {:induction false} StoredIff(limit: int, run: seq<Store>, ops: seq<Op>, n: nat, key: SessionKey)
    requires IsRun(limit, run, ops) && n <= |ops|
    ensures key in run[n] <==> Lasts(run, ops, LastAdd(ops, n, key), n, key)
  {
    hide Step;
    if n > 0 {
      var last, op := n - 1, ops[n - 1];
      assert Step(limit, run[last], op, run[n]);
      if op.AddOp? && op.key == key {
        GrantIsStored(limit, run[last], op, run[n]);
      } else {
        StoredIff(limit, run, ops, last, key);
        StepStored(limit, run[last], op, run[n], key);
        if key in run[last] {
          StoredIsBacked(limit, run, ops, last, key);
        }
        LastsOn(run, ops, LastAdd(ops, last, key), last, key);
      }
    }
  }

  lemma LastsOn(run: seq<Store>, ops: seq<Op>, i: int, n: nat, key: SessionKey)
    requires n < |ops| <= |run| && i < n && (i >= 0 ==> ops[i].AddOp?)
    ensures Lasts(run, ops, i, n + 1, key) <==>
            && Lasts(run, ops, i, n, key) && !Drops(run, ops, n, key)
            && (IsUse(ops, n, key) ==> InTime(ops[i], ops[n].now))
            && Uses(run, ops, i + 1, n + 1, key) < ops[i].session.remaining
  {
    hide Drops, IsUse, InTime;
  }

  /** In every run a session is dropped only by a removal, or by a grant of another key while
      the store is full. */
  lemma DropsOnlyIf(limit: int, run: seq<Store>, ops: seq<Op>, k: nat, key: SessionKey)
    requires IsRun(limit, run, ops) && Drops(run, ops, k, key)
    ensures ops[k].LoseOp? || (ops[k].AddOp? && ops[k].key != key && ops[k].key !in run[k] && |run[k]| >= limit)
  {
    hide Added;
    var op := ops[k];
    assert Step(limit, run[k], op, run[k + 1]);
    if op.AddOp? {
      AddedPart(limit, run[k], op.key, Item(op.session, op.expiresAt), run[k + 1]);
      assert key != op.key ==> key in run[k] - {op.key};
    }
  }
}

/**
 Firewall leases as a store that operations change: every lease gets a new id, and only
 the timer of the latest lease of a key ends it.
 */
module Leases {
  import opened Cache

  type Store = map<string, Item<nat>>

  datatype State = State(store: Store, nextID: nat)

  /** A lease is given to a live key and to a new one if there is room. */
  predicate Grants(store: Store, limit: int, key: string, now: int) {
    LiveAt(store, key, now) || |Live(store, now)| < limit
  }

  predicate EndsLease(store: Store, key: string, id: nat, now: int) {
    id != 0 && key in store && store[key].value == id && now >= store[key].expiresAt
  }

  /** Ids are those issued so far, and no two keys share one. */
  ghost predicate Sane(s: State) {
    && (forall k :: k in s.store ==> 1 <= s.store[k].value <= s.nextID)
    && (forall k, k' :: k in s.store && k' in s.store && s.store[k].value == s.store[k'].value ==> k == k')
  }

  ghost predicate Part(fewer: Store, store: Store) {
    forall k :: k in fewer ==> k in store && fewer[k] == store[k]
  }

  datatype Op =
    | MarkOp(key: string, until: int, now: int)
    | EndOp(key: string, id: nat, now: int)
    | LoseOp

  predicate Issues(limit: int, s: State, op: Op) {
    op.MarkOp? && Grants(s.store, limit, op.key, op.now)
  }

  predicate Ends(s: State, op: Op) {
    op.EndOp? && EndsLease(s.store, op.key, op.id, op.now)
  }

  ghost predicate Step(limit: int, s: State, op: Op, s': State) {
    if Issues(limit, s, op) then
      s' == State(Live(s.store, op.now)[op.key := Item(s.nextID + 1, op.until)], s.nextID + 1)
    else if op.EndOp? then
      s' == if Ends(s, op) then State(s.store - {op.key}, s.nextID) else s
    else if op.MarkOp? then
      s' == State(Live(s.store, op.now), s.nextID)
    else
      s'.nextID == s.nextID && Part(s'.store, s.store)
  }

  lemma StepSane(limit: int, s: State, op: Op, s': State)
    requires Sane(s) && Step(limit, s, op, s')
    ensures Sane(s')
  {
    hide Grants;
  }

  ghost predicate IsRun(limit: int, run: seq<State>, ops: seq<Op>) {
    && |run| == |ops| + 1 && run[0] == State(map[], 0)
    && forall i :: 0 <= i < |ops| ==> Step(limit, run[i], ops[i], run[i + 1])
  }

  lemma {:induction false} RunSane(limit: int, run: seq<State>, ops: seq<Op>, n: nat)
    requires IsRun(limit, run, ops) && n < |run|
    ensures Sane(run[n])
  {
    hide Step, Sane;
    if n == 0 {
      EmptySane();
    } else {
      RunSane(limit, run, ops, n - 1);
      StepSane(limit, run[n - 1], ops[n - 1], run[n]);
    }
  }

  lemma EmptySane()
    ensures Sane(State(map[], 0))
  {
  }

  lemma {:induction false} NextIdGrows(limit: int, run: seq<State>, ops: seq<Op>, i: nat, j: nat)
    requires IsRun(limit, run, ops) && i <= j < |run|
    ensures run[i].nextID <= run[j].nextID
    decreases j
  {
    if i < j {
      NextIdGrows(limit, run, ops, i, j - 1);
      assert Step(limit, run[j - 1], ops[j - 1], run[j]);
    }
  }

  /** In every run ids strictly increase, so none is issued twice. */
  lemma IdsIncrease(limit: int, run: seq<State>, ops: seq<Op>, i: nat, j: nat)
    requires IsRun(limit, run, ops) && i < j < |ops| && Issues(limit, run[i], ops[i]) && Issues(limit, run[j], ops[j])
    ensures run[i + 1].nextID < run[j + 1].nextID
  {
    NextIdGrows(limit, run, ops, i + 1, j);
    assert Step(limit, run[j], ops[j], run[j + 1]);
  }

  /** An id that is gone stays gone. */
  lemma {:induction false} GoneStaysGone(limit: int, run: seq<State>, ops: seq<Op>, i: nat, n: nat, id: nat)
    requires IsRun(limit, run, ops) && i <= n < |run| && id <= run[i].nextID
    requires forall k :: k in run[i].store ==> run[i].store[k].value != id
    ensures forall k :: k in run[n].store ==> run[n].store[k].value != id
    decreases n
  {
    hide Grants;
    if i < n {
      GoneStaysGone(limit, run, ops, i, n - 1, id);
      NextIdGrows(limit, run, ops, i, n - 1);
      assert Step(limit, run[n - 1], ops[n - 1], run[n]);
    }
  }

  /** In every run no id is ended twice. */
  lemma EndedOnce(limit: int, run: seq<State>, ops: seq<Op>, i: nat, j: nat)
    requires IsRun(limit, run, ops) && i < j < |ops| && Ends(run[i], ops[i]) && Ends(run[j], ops[j])
    ensures ops[i].id != ops[j].id
  {
    RunSane(limit, run, ops, i);
    assert Step(limit, run[i], ops[i], run[i + 1]);
    GoneStaysGone(limit, run, ops, i + 1, j, ops[i].id);
  }

  /** After an issue the key holds nothing older. */
  lemma {:induction false} NothingOlder(limit: int, run: seq<State>, ops: seq<Op>, i: nat, n: nat)
    requires IsRun(limit, run, ops) && i < n < |run| && Issues(limit, run[i], ops[i])
    ensures ops[i].key in run[n].store ==> run[n].store[ops[i].key].value >= run[i + 1].nextID
    decreases n
  {
    hide Grants;
    assert Step(limit, run[n - 1], ops[n - 1], run[n]);
    if i + 1 < n {
      NothingOlder(limit, run, ops, i, n - 1);
      NextIdGrows(limit, run, ops, i + 1, n - 1);
    }
  }

  /** In every run a stale timer never ends a renewed lease: what ends a lease of a key
      carries an id no older than any issued for the key so far. */
  lemma StaleNeverEnds(limit: int, run: seq<State>, ops: seq<Op>, i: nat, j: nat)
    requires IsRun(limit, run, ops) && i < j < |ops|
    requires Issues(limit, run[i], ops[i]) && Ends(run[j], ops[j]) && ops[i].key == ops[j].key
    ensures run[i + 1].nextID <= ops[j].id
  {
    NothingOlder(limit, run, ops, i, j);
  }

  /** Every stored lease was issued for its key, with its id and expiry. */
  lemma {:induction false} StoredWasIssued(limit: int, run: seq<State>, ops: seq<Op>, n: nat, key: string) returns (i: nat)
    requires IsRun(limit, run, ops) && n < |run| && key in run[n].store
    ensures i < n && Issues(limit, run[i], ops[i]) && ops[i].key == key
    ensures run[n].store[key] == Item(run[i + 1].nextID, ops[i].until)
  {
    hide Grants;
    assert Step(limit, run[n - 1], ops[n - 1], run[n]);
    if Issues(limit, run[n - 1], ops[n - 1]) && ops[n - 1].key == key {
      i := n - 1;
    } else {
      i := StoredWasIssued(limit, run, ops, n - 1, key);
    }
  }

  /** In every run a lease is ended only after it was issued for that key, when its time has
      passed. */
  lemma EndedWasIssued(limit: int, run: seq<State>, ops: seq<Op>, j: nat) returns (i: nat)
    requires IsRun(limit, run, ops) && j < |ops| && Ends(run[j], ops[j])
    ensures i < j && Issues(limit, run[i], ops[i]) && ops[i].key == ops[j].key
    ensures run[i + 1].nextID == ops[j].id && ops[i].until <= ops[j].now
  {
    i := StoredWasIssued(limit, run, ops, j, ops[j].key);
  }

  // ------------------------------------------------------ which leases are stored

  /** Step `i` issues a lease for `key`. */
  predicate IssuesTo(limit: int, run: seq<State>, ops: seq<Op>, i: nat, key: string) {
    i < |ops| && i + 1 < |run| && Issues(limit, run[i], ops[i]) && ops[i].key == key
  }

  /** Step `k` takes the lease issued at step `i` away: a new lease of the key takes its
      place, a mark finds it expired, its timer ends it, or it is removed. */
  predicate TakesAway(limit: int, run: seq<State>, ops: seq<Op>, i: nat, k: nat, key: string)
    requires IssuesTo(limit, run, ops, i, key)
  {
    && k < |ops| && k + 1 < |run|
    && match ops[k]
       case MarkOp(other, _, now) => ops[i].until <= now || IssuesTo(limit, run, ops, k, key)
       case EndOp(other, id, now) => other == key && id == run[i + 1].nextID && ops[i].until <= now
       case LoseOp => key in run[k].store && key !in run[k + 1].store
  }

  /** The lease issued at step `i` is the one stored. */
  predicate Stored(run: seq<State>, ops: seq<Op>, i: nat, n: nat, key: string) {
    && i < |ops| && i + 1 < |run| && n < |run| && ops[i].MarkOp?
    && key in run[n].store && run[n].store[key] == Item(run[i + 1].nextID, ops[i].until)
  }

  lemma IssuedStored(limit: int, run: seq<State>, ops: seq<Op>, i: nat, key: string)
    requires IsRun(limit, run, ops) && IssuesTo(limit, run, ops, i, key)
    ensures Stored(run, ops, i, i + 1, key) && 1 <= run[i + 1].nextID == run[i].nextID + 1
  {
    hide Grants, Live;
    assert Step(limit, run[i], ops[i], run[i + 1]);
  }

  lemma OneStepStored(limit: int, run: seq<State>, ops: seq<Op>, i: nat, k: nat, key: string)
    requires IsRun(limit, run, ops) && IssuesTo(limit, run, ops, i, key) && i < k < |ops|
    requires 1 <= run[i + 1].nextID <= run[k].nextID
    ensures Stored(run, ops, i, k + 1, key) <==> Stored(run, ops, i, k, key) && !TakesAway(limit, run, ops, i, k, key)
  {
    hide Grants;
    var s, op, s' := run[k], ops[k], run[k + 1];
    assert Step(limit, s, op, s');
    assert op.LoseOp? && key in s'.store ==> key in s.store && s'.store[key] == s.store[key];
  }

  /** In every run a lease is stored exactly until something takes it away. */
  lemma {:induction false} StoredIff(limit: int, run: seq<State>, ops: seq<Op>, i: nat, n: nat, key: string)
    requires IsRun(limit, run, ops) && IssuesTo(limit, run, ops, i, key) && i < n < |run|
    ensures Stored(run, ops, i, n, key) <==> forall k: nat :: i < k < n ==> !TakesAway(limit, run, ops, i, k, key)
    decreases n
  {
    hide Step, TakesAway, Stored, IssuesTo;
    IssuedStored(limit, run, ops, i, key);
    if i + 1 < n {
      StoredIff(limit, run, ops, i, n - 1, key);
      NextIdGrows(limit, run, ops, i + 1, n - 1);
      OneStepStored(limit, run, ops, i, n - 1, key);
    }
  }

  /** In every run a timer ends a lease if and only if the lease issued with its id, for its
      key, is still stored and the time of that lease has passed. */
  lemma EndsIff(limit: int, run: seq<State>, ops: seq<Op>, j: nat)
    requires IsRun(limit, run, ops) && j < |ops| && ops[j].EndOp?
    ensures Ends(run[j], ops[j]) <==>
            exists i: nat :: && i < j && IssuesTo(limit, run, ops, i, ops[j].key) && Stored(run, ops, i, j, ops[j].key)
                             && ops[j].id == run[i + 1].nextID && ops[i].until <= ops[j].now
    ensures Ends(run[j], ops[j]) ==> run[j + 1] == State(run[j].store - {ops[j].key}, run[j].nextID)
    ensures !Ends(run[j], ops[j]) ==> run[j + 1] == run[j]
  {
    hide Grants, Live;
    var key := ops[j].key;
    assert Step(limit, run[j], ops[j], run[j + 1]);
    if Ends(run[j], ops[j]) {
      var i := StoredWasIssued(limit, run, ops, j, key);
      assert IssuesTo(limit, run, ops, i, key) && Stored(run, ops, i, j, key);
    }
    forall i: nat | i < j && IssuesTo(limit, run, ops, i, key) && Stored(run, ops, i, j, key)
      ensures run[i + 1].nextID >= 1
    {
      IssuedStored(limit, run, ops, i, key);
    }
  }

  /** The lease of `key` issued at step `i` is stored at step `n` and has not expired. */
  predicate Active(limit: int, run: seq<State>, ops: seq<Op>, i: nat, n: nat, key: string, now: int) {
    i < n && IssuesTo(limit, run, ops, i, key) && Stored(run, ops, i, n, key) && now < ops[i].until
  }

  /** In every run a lease is issued if and only if the key has an active one, or fewer keys
      than the limit have. The others keep theirs. */
  lemma IssuedIff(limit: int, run: seq<State>, ops: seq<Op>, j: nat) returns (active: set<string>)
    requires IsRun(limit, run, ops) && j < |ops| && ops[j].MarkOp?
    ensures forall k :: k in active <==> exists i :: Active(limit, run, ops, i, j, k, ops[j].now)
    ensures Issues(limit, run[j], ops[j]) <==> ops[j].key in active || |active| < limit
    ensures run[j + 1].nextID == run[j].nextID + if Issues(limit, run[j], ops[j]) then 1 else 0
    ensures run[j + 1].store.Keys == active + if Issues(limit, run[j], ops[j]) then {ops[j].key} else {}
  {
    var now := ops[j].now;
    active := Live(run[j].store, now).Keys;
    assert Step(limit, run[j], ops[j], run[j + 1]);
    forall k ensures k in active <==> exists i :: Active(limit, run, ops, i, j, k, now) {
      if k in active {
        var i := StoredWasIssued(limit, run, ops, j, k);
        assert Active(limit, run, ops, i, j, k, now);
      }
    }
  }
}
