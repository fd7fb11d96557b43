/**
 The authenticating listener: one accept loop, some workers, the goroutine that closes
 the ready channel and any number of callers that close the listener, interleaved in any
 order. A connection from a limited source holds a slot while it is queued or being
 authenticated.
 */
module Listener {
  import opened Wrappers

  /** `source` is the limited source of a connection, if it has one; `max` connections of a
      source may hold slots; `capacity` connections may be queued. */
  datatype Config = Config(source: nat -> Option<string>, max: int, capacity: nat)

  datatype Acceptor =
    | Accepting
    | Got(conn: nat)
    | Acquired(conn: nat)
    | Recorded(conn: nat)
    | Dropping(conn: nat, last: bool)
    | Releasing(conn: nat, last: bool, found: bool)
    | Exiting
    | Leaving
    | Exited

  datatype Worker =
    | Idle
    | Working(conn: nat)
    | Taking(conn: nat, ok: bool)
    | Freeing(conn: nat, ok: bool, found: bool)
    | Offering(conn: nat)
    | Quitting
    | Gone

  /** Who has a connection in hand. */
  datatype Place = AtAcceptor | Queued | AtWorker(w: nat) | Elsewhere

  datatype Slot = NoSlot | Held(key: string) | Freed

  datatype Conn = Conn(place: Place, slot: Slot)

  datatype State = State(
    acceptor: Acceptor, workers: seq<Worker>, pending: seq<nat>, pendingClosed: bool, readyClosed: bool, closerGone: bool,
    done: bool, wait: int, conns: map<nat, Conn>, counts: map<string, int>, releases: set<nat>)

  function Start(workers: nat): (s: State) {
    State(Accepting, seq(workers, _ => Idle), [], false, false, false, false, 1 + workers, map[], map[], {})
  }

  datatype Step =
    | AcceptConn(conn: nat)
    | AcceptFails
    | StopRetrying
    | Acquire
    | Record
    | Enqueue
    | SelectDone
    | SelectDefault
    | TakeRelease
    | CallRelease
    | ClosePending
    | AcceptorDone
    | Receive(w: nat)
    | RangeEnds(w: nat)
    | AuthEnds(w: nat, ok: bool)
    | WorkerTakes(w: nat)
    | WorkerFrees(w: nat)
    | HandOver(w: nat)
    | GiveUp(w: nat)
    | WorkerDone(w: nat)
    | CloseListener
    | CloseReady

  predicate WorkerStep(step: Step) {
    step.Receive? || step.RangeEnds? || step.AuthEnds? || step.WorkerTakes? || step.WorkerFrees? || step.HandOver?
    || step.GiveUp? || step.WorkerDone?
  }

  predicate WorkerEnabled(s: State, step: Step)
    requires WorkerStep(step)
  {
    && step.w < |s.workers|
    && var me := s.workers[step.w];
       match step
       case Receive(_) => me.Idle? && s.pending != []
       case RangeEnds(_) => me.Idle? && s.pending == [] && s.pendingClosed
       case AuthEnds(_, _) => me.Working?
       case WorkerTakes(_) => me.Taking?
       case WorkerFrees(_) => me.Freeing?
       case HandOver(_) => me.Offering?
       case GiveUp(_) => me.Offering? && s.done
       case WorkerDone(_) => me.Quitting?
  }

  predicate Enabled(c: Config, s: State, step: Step) {
    if WorkerStep(step) then WorkerEnabled(s, step)
    else
      match step
      case AcceptConn(conn) => s.acceptor.Accepting? && conn !in s.conns
      case AcceptFails => s.acceptor.Accepting?
      case StopRetrying => s.acceptor.Accepting? && s.done
      case Acquire => s.acceptor.Got?
      case Record => s.acceptor.Acquired?
      case Enqueue => s.acceptor.Recorded? && |s.pending| < c.capacity
      case SelectDone => s.acceptor.Recorded? && s.done
      case SelectDefault => s.acceptor.Recorded? && !s.done && |s.pending| >= c.capacity
      case TakeRelease => s.acceptor.Dropping?
      case CallRelease => s.acceptor.Releasing?
      case ClosePending => s.acceptor.Exiting?
      case AcceptorDone => s.acceptor.Leaving?
      case CloseListener => true
      case CloseReady => s.wait == 0 && !s.closerGone
  }

  function Get(counts: map<string, int>, key: string): (n: int) {
    if key in counts then counts[key] else 0
  }

  function Raised(counts: map<string, int>, key: string): (r: map<string, int>) {
    counts[key := Get(counts, key) + 1]
  }

  function Lowered(counts: map<string, int>, key: string): (r: map<string, int>) {
    if Get(counts, key) <= 1 then counts - {key} else counts[key := Get(counts, key) - 1]
  }

  function Put(s: State, conn: nat, place: Place): (r: State) {
    if conn in s.conns then s.(conns := s.conns[conn := s.conns[conn].(place := place)]) else s
  }

  /** Calls the release function of a connection, which works once. */
  function Free(s: State, conn: nat, place: Place, found: bool): (r: State) {
    if conn in s.conns && s.conns[conn].slot.Held? && found
    then s.(conns := s.conns[conn := Conn(place, Freed)], counts := Lowered(s.counts, s.conns[conn].slot.key))
    else Put(s, conn, place)
  }

  function Reserve(c: Config, s: State, conn: nat): (r: State) {
    match c.source(conn)
    case None => s.(acceptor := Acquired(conn))
    case Some(key) =>
      if c.max <= 0 then s.(acceptor := Acquired(conn))
      else if Get(s.counts, key) >= c.max then Put(s, conn, Elsewhere).(acceptor := Accepting)
      else s.(acceptor := Acquired(conn), counts := Raised(s.counts, key), conns := s.conns[conn := Conn(AtAcceptor, Held(key))])
  }

  function WorkerApply(s: State, step: Step): (r: State)
    requires WorkerStep(step) && WorkerEnabled(s, step)
  {
    var w, me := step.w, s.workers[step.w];
    match step
    case Receive(_) =>
      Put(s, s.pending[0], AtWorker(w)).(pending := s.pending[1..], workers := s.workers[w := Working(s.pending[0])])
    case RangeEnds(_) => s.(workers := s.workers[w := Quitting])
    case AuthEnds(_, ok) => s.(workers := s.workers[w := Taking(me.conn, ok)])
    case WorkerTakes(_) =>
      s.(workers := s.workers[w := Freeing(me.conn, me.ok, me.conn in s.releases)], releases := s.releases - {me.conn})
    case WorkerFrees(_) =>
      Free(s, me.conn, Elsewhere, me.found).(workers := s.workers[w := if me.ok then Offering(me.conn) else Idle])
    case HandOver(_) => s.(workers := s.workers[w := Idle])
    case GiveUp(_) => s.(workers := s.workers[w := Quitting])
    case WorkerDone(_) => s.(workers := s.workers[w := Gone], wait := s.wait - 1)
  }

  function Apply(c: Config, s: State, step: Step): (r: State)
    requires Enabled(c, s, step)
  {
    if WorkerStep(step) then WorkerApply(s, step)
    else
      match step
      case AcceptConn(conn) => s.(acceptor := Got(conn), conns := s.conns[conn := Conn(AtAcceptor, NoSlot)])
      case AcceptFails => s.(acceptor := Exiting, done := true)
      case StopRetrying => s.(acceptor := Exiting)
      case Acquire => Reserve(c, s, s.acceptor.conn)
      case Record => s.(acceptor := Recorded(s.acceptor.conn), releases := s.releases + {s.acceptor.conn})
      case Enqueue => Put(s, s.acceptor.conn, Queued).(acceptor := Accepting, pending := s.pending + [s.acceptor.conn])
      case SelectDone => s.(acceptor := Dropping(s.acceptor.conn, true))
      case SelectDefault => s.(acceptor := Dropping(s.acceptor.conn, false))
      case TakeRelease =>
        var conn := s.acceptor.conn;
        s.(acceptor := Releasing(conn, s.acceptor.last, conn in s.releases), releases := s.releases - {conn})
      case CallRelease =>
        Free(s, s.acceptor.conn, Elsewhere, s.acceptor.found).(acceptor := if s.acceptor.last then Exiting else Accepting)
      case ClosePending => s.(pendingClosed := true, acceptor := Leaving)
      case AcceptorDone => s.(acceptor := Exited, wait := s.wait - 1)
      case CloseListener => s.(done := true)
      case CloseReady => s.(readyClosed := true, closerGone := true)
  }

  // --------------------------------------------------------------------- channels

  function Busy(workers: seq<Worker>): (n: nat) {
    if workers == [] then 0 else Busy(workers[..|workers| - 1]) + if workers[|workers| - 1].Gone? then 0 else 1
  }

  lemma {:induction false} BusyUpdate(workers: seq<Worker>, w: nat, v: Worker)
    requires w < |workers|
    ensures Busy(workers[w := v]) == Busy(workers) + (if v.Gone? then 0 else 1) - if workers[w].Gone? then 0 else 1
  {
    var n := |workers| - 1;
    if w == n {
      assert workers[w := v][..n] == workers[..n];
    } else {
      BusyUpdate(workers[..n], w, v);
      assert workers[w := v][..n] == workers[..n][w := v];
    }
  }

  lemma {:induction false} NoneBusy(workers: seq<Worker>, w: nat)
    requires Busy(workers) == 0 && w < |workers|
    ensures workers[w].Gone?
  {
    if w < |workers| - 1 {
      NoneBusy(workers[..|workers| - 1], w);
    }
  }

  lemma {:induction false} AllIdleBusy(workers: nat)
    ensures Busy(seq(workers, _ => Idle)) == workers
  {
    if workers > 0 {
      assert seq(workers, _ => Idle)[..workers - 1] == seq(workers - 1, _ => Idle);
      AllIdleBusy(workers - 1);
    }
  }

  /** The wait count is the number of goroutines that may still use the channels, and each
      channel is closed by the last of its senders. */
  ghost predicate ChannelsOk(s: State) {
    && (s.pendingClosed <==> s.acceptor.Leaving? || s.acceptor.Exited?)
    && s.wait == (if s.acceptor.Exited? then 0 else 1) + Busy(s.workers)
    && (s.readyClosed ==> s.wait == 0)
    && (s.readyClosed <==> s.closerGone)
  }

  lemma WorkerChannels(s: State, step: Step)
    requires ChannelsOk(s) && WorkerStep(step) && WorkerEnabled(s, step)
    ensures ChannelsOk(WorkerApply(s, step))
  {
    hide Busy, Lowered;
    BusyUpdate(s.workers, step.w, WorkerApply(s, step).workers[step.w]);
  }

  lemma ChannelsKept(c: Config, s: State, step: Step)
    requires ChannelsOk(s) && Enabled(c, s, step)
    ensures ChannelsOk(Apply(c, s, step))
  {
    hide Busy, WorkerApply, WorkerEnabled, Get, Raised, Lowered;
    if WorkerStep(step) {
      WorkerChannels(s, step);
    }
  }

  /** What a step does to the channels that would make the program panic. */
  ghost predicate Panics(s: State, step: Step) {
    || (step.Enqueue? && s.pendingClosed)
    || (step.HandOver? && s.readyClosed)
    || (step.ClosePending? && s.pendingClosed)
    || (step.CloseReady? && s.readyClosed)
    || ((step.AcceptorDone? || step.WorkerDone?) && s.wait <= 0)
  }

  lemma NoPanic(c: Config, s: State, step: Step)
    requires ChannelsOk(s) && Enabled(c, s, step)
    ensures !Panics(s, step)
  {
    if (step.HandOver? && s.readyClosed) || (step.WorkerDone? && s.wait <= 0) {
      NoneBusy(s.workers, step.w);
    }
  }

  // ------------------------------------------------------------------------ slots

  /** The connections of a source that hold a slot. */
  ghost function Holders(conns: map<nat, Conn>, key: string): (r: set<nat>) {
    set conn | conn in conns && conns[conn].slot == Held(key)
  }

  ghost predicate CountsOk(c: Config, s: State) {
    forall key :: Get(s.counts, key) == |Holders(s.conns, key)| && (Get(s.counts, key) == 0 || Get(s.counts, key) <= c.max)
  }

  lemma HoldersPut(conns: map<nat, Conn>, conn: nat, v: Conn, key: string)
    ensures |Holders(conns[conn := v], key)| == |Holders(conns, key)|
              + (if v.slot == Held(key) then 1 else 0) - if conn in conns && conns[conn].slot == Held(key) then 1 else 0
  {
    var h := Holders(conns, key);
    assert Holders(conns[conn := v], key) == if v.slot == Held(key) then h + {conn} else h - {conn};
  }

  lemma CountsPut(c: Config, s: State, conn: nat, place: Place)
    requires CountsOk(c, s)
    ensures CountsOk(c, Put(s, conn, place))
  {
    hide Holders;
    if conn in s.conns {
      forall key ensures |Holders(Put(s, conn, place).conns, key)| == |Holders(s.conns, key)| {
        HoldersPut(s.conns, conn, s.conns[conn].(place := place), key);
      }
    }
  }

  lemma LoweredGet(counts: map<string, int>, k: string, key: string)
    requires Get(counts, k) >= 1
    ensures Get(Lowered(counts, k), key) == Get(counts, key) - if key == k then 1 else 0
  {
  }

  lemma CountsFree(c: Config, s: State, conn: nat, place: Place, found: bool)
    requires CountsOk(c, s)
    ensures CountsOk(c, Free(s, conn, place, found))
  {
    hide Holders, Get, Lowered;
    var t := Free(s, conn, place, found);
    if conn in s.conns && s.conns[conn].slot.Held? && found {
      var k := s.conns[conn].slot.key;
      assert Get(s.counts, k) >= 1 by {
        HoldersPut(s.conns, conn, Conn(place, Freed), k);
        assert Get(s.counts, k) == |Holders(s.conns, k)|;
      }
      forall key ensures Get(t.counts, key) == |Holders(t.conns, key)| && (Get(t.counts, key) == 0 || Get(t.counts, key) <= c.max) {
        HoldersPut(s.conns, conn, Conn(place, Freed), key);
        LoweredGet(s.counts, k, key);
        assert Get(s.counts, key) == |Holders(s.conns, key)|;
      }
    } else {
      CountsPut(c, s, conn, place);
    }
  }

  lemma CountsReserve(c: Config, s: State, conn: nat)
    requires CountsOk(c, s) && conn in s.conns && s.conns[conn].slot == NoSlot
    ensures CountsOk(c, Reserve(c, s, conn))
  {
    hide Holders, Put, Get, Raised;
    var t := Reserve(c, s, conn);
    CountsPut(c, s, conn, Elsewhere);
    if c.source(conn).Some? && c.max > 0 && Get(s.counts, c.source(conn).value) < c.max {
      var k := c.source(conn).value;
      forall key ensures Get(t.counts, key) == |Holders(t.conns, key)| && (Get(t.counts, key) == 0 || Get(t.counts, key) <= c.max) {
        HoldersPut(s.conns, conn, Conn(AtAcceptor, Held(k)), key);
        RaisedGet(s.counts, k, key);
        assert Get(s.counts, key) == |Holders(s.conns, key)|;
      }
    }
  }

  lemma RaisedGet(counts: map<string, int>, k: string, key: string)
    ensures Get(Raised(counts, k), key) == Get(counts, key) + if key == k then 1 else 0
  {
  }

  lemma CountsKept(c: Config, s: State, step: Step)
    requires CountsOk(c, s) && Enabled(c, s, step)
    requires s.acceptor.Got? ==> s.acceptor.conn in s.conns && s.conns[s.acceptor.conn].slot == NoSlot
    ensures CountsOk(c, Apply(c, s, step))
  {
    hide Holders, Put, Free, Reserve, Get;
    match step
    case AcceptConn(conn) =>
      forall key ensures |Holders(s.conns[conn := Conn(AtAcceptor, NoSlot)], key)| == |Holders(s.conns, key)| {
        HoldersPut(s.conns, conn, Conn(AtAcceptor, NoSlot), key);
      }
    case Acquire => CountsReserve(c, s, s.acceptor.conn);
    case Enqueue => CountsPut(c, s, s.acceptor.conn, Queued);
    case CallRelease => CountsFree(c, s, s.acceptor.conn, Elsewhere, s.acceptor.found);
    case Receive(w) => CountsPut(c, s, s.pending[0], AtWorker(w));
    case WorkerFrees(w) => CountsFree(c, s, s.workers[w].conn, Elsewhere, s.workers[w].found);
    case _ =>
  }

  // ----------------------------------------------------------------------- places

  predicate AcceptorHas(a: Acceptor, conn: nat) {
    (a.Got? || a.Acquired? || a.Recorded? || a.Dropping? || a.Releasing?) && a.conn == conn
  }

  predicate WorkerHas(w: Worker, conn: nat) {
    (w.Working? || w.Taking? || w.Freeing?) && w.conn == conn
  }

  /** The slot a connection gets: its source's, unless it has none or limiting is off. */
  function Due(c: Config, conn: nat): (r: Slot) {
    if c.max > 0 && c.source(conn).Some? then Held(c.source(conn).value) else NoSlot
  }

  /** A connection is where its place says, its release function can still be found until
      it is called, and it holds the slot it is due as long as it is in hand. */
  predicate ConnOk(c: Config, s: State, conn: nat)
    requires conn in s.conns
  {
    match s.conns[conn].place
    case AtAcceptor =>
      && AcceptorHas(s.acceptor, conn)
      && s.conns[conn].slot == (if s.acceptor.Got? then NoSlot else Due(c, conn))
      && (s.acceptor.Recorded? || s.acceptor.Dropping? ==> conn in s.releases)
      && (s.acceptor.Releasing? ==> s.acceptor.found)
    case Queued => conn in s.pending && conn in s.releases && s.conns[conn].slot == Due(c, conn)
    case AtWorker(w) =>
      && w < |s.workers| && WorkerHas(s.workers[w], conn) && s.conns[conn].slot == Due(c, conn)
      && (s.workers[w].Working? || s.workers[w].Taking? ==> conn in s.releases)
      && (s.workers[w].Freeing? ==> s.workers[w].found)
    case Elsewhere => !s.conns[conn].slot.Held?
  }

  predicate At(s: State, conn: nat, place: Place) {
    conn in s.conns && s.conns[conn].place == place
  }

  ghost predicate PlacesOk(c: Config, s: State) {
    && (forall conn :: conn in s.conns ==> ConnOk(c, s, conn))
    && (forall conn :: AcceptorHas(s.acceptor, conn) ==> At(s, conn, AtAcceptor))
    && (forall i :: 0 <= i < |s.pending| ==> At(s, s.pending[i], Queued))
    && (forall i, j :: 0 <= i < j < |s.pending| ==> s.pending[i] != s.pending[j])
    && (forall w, conn :: 0 <= w < |s.workers| && WorkerHas(s.workers[w], conn) ==> At(s, conn, AtWorker(w)))
  }

  /** All connections but one are as they were. */
  ghost predicate OthersSame(s: State, t: State, conn: nat) {
    forall x :: x != conn ==>
                  && (x in t.conns <==> x in s.conns) && (x in t.releases <==> x in s.releases)
                  && (x in s.conns && x in t.conns ==> t.conns[x] == s.conns[x])
  }

  /** Only the acceptor moves, with one connection. */
  lemma AcceptorMoved(c: Config, s: State, t: State, conn: nat)
    requires PlacesOk(c, s) && t.pending == s.pending && t.workers == s.workers && OthersSame(s, t, conn)
    requires At(s, conn, AtAcceptor) || conn !in s.conns
    requires forall x :: AcceptorHas(s.acceptor, x) ==> x == conn
    requires forall x :: AcceptorHas(t.acceptor, x) ==> x == conn && At(t, conn, AtAcceptor)
    requires conn in t.conns && ConnOk(c, t, conn)
    ensures PlacesOk(c, t)
  {
    forall x | x in t.conns && x != conn ensures ConnOk(c, t, x) {
      assert ConnOk(c, s, x);
    }
    forall i | 0 <= i < |t.pending| ensures At(t, t.pending[i], Queued) {
      assert At(s, s.pending[i], Queued);
    }
    forall w, x | 0 <= w < |t.workers| && WorkerHas(t.workers[w], x) ensures At(t, x, AtWorker(w)) {
      assert WorkerHas(s.workers[w], x) && At(s, x, AtWorker(w));
    }
  }

  lemma AcceptPlaces(c: Config, s: State, conn: nat)
    requires PlacesOk(c, s) && Enabled(c, s, AcceptConn(conn))
    ensures PlacesOk(c, Apply(c, s, AcceptConn(conn)))
  {
    hide PlacesOk;
    AcceptorMoved(c, s, Apply(c, s, AcceptConn(conn)), conn);
  }

  lemma AcquirePlaces(c: Config, s: State)
    requires PlacesOk(c, s) && s.acceptor.Got?
    ensures PlacesOk(c, Reserve(c, s, s.acceptor.conn))
  {
    hide Get, Raised, PlacesOk;
    HeldByAcceptor(c, s);
    assert AcceptorHas(s.acceptor, s.acceptor.conn);
    AcceptorMoved(c, s, Reserve(c, s, s.acceptor.conn), s.acceptor.conn);
  }

  lemma AcquireIsReserve(c: Config, s: State)
    requires Enabled(c, s, Acquire)
    ensures s.acceptor.Got? && Apply(c, s, Acquire) == Reserve(c, s, s.acceptor.conn)
  {
    hide Reserve;
  }

  lemma CallReleasePlaces(c: Config, s: State)
    requires PlacesOk(c, s) && Enabled(c, s, CallRelease)
    ensures PlacesOk(c, Apply(c, s, CallRelease))
  {
    hide Lowered, PlacesOk;
    HeldByAcceptor(c, s);
    assert AcceptorHas(s.acceptor, s.acceptor.conn);
    AcceptorMoved(c, s, Apply(c, s, CallRelease), s.acceptor.conn);
  }

  /** The acceptor moves on with the connection it has. */
  lemma AcceptorPlaces(c: Config, s: State, step: Step)
    requires PlacesOk(c, s) && Enabled(c, s, step)
    requires step.Record? || step.TakeRelease? || step.SelectDone? || step.SelectDefault?
    ensures PlacesOk(c, Apply(c, s, step))
  {
    hide PlacesOk;
    HeldByAcceptor(c, s);
    assert AcceptorHas(s.acceptor, s.acceptor.conn);
    AcceptorMoved(c, s, Apply(c, s, step), s.acceptor.conn);
  }

  lemma HeldByAcceptor(c: Config, s: State)
    requires PlacesOk(c, s)
    ensures forall x :: AcceptorHas(s.acceptor, x) ==> At(s, x, AtAcceptor) && ConnOk(c, s, x)
  {
  }

  lemma EnqueuePlaces(c: Config, s: State)
    requires PlacesOk(c, s) && Enabled(c, s, Enqueue)
    ensures PlacesOk(c, Apply(c, s, Enqueue))
  {
    assert AcceptorHas(s.acceptor, s.acceptor.conn) && At(s, s.acceptor.conn, AtAcceptor);
    assert ConnOk(c, s, s.acceptor.conn);
    var t := Apply(c, s, Enqueue);
    forall conn | conn in t.conns ensures ConnOk(c, t, conn) {
      assert conn in s.conns ==> ConnOk(c, s, conn);
    }
    forall i | 0 <= i < |t.pending| ensures At(t, t.pending[i], Queued) {
      assert i < |s.pending| ==> At(s, s.pending[i], Queued);
    }
    forall w, conn | 0 <= w < |t.workers| && WorkerHas(t.workers[w], conn) ensures At(t, conn, AtWorker(w)) {
      assert WorkerHas(s.workers[w], conn) ==> At(s, conn, AtWorker(w));
    }
  }

  /** The other steps take no connection in hand or out of it. */
  lemma OtherPlaces(c: Config, s: State, step: Step)
    requires PlacesOk(c, s) && Enabled(c, s, step)
    requires step.AcceptFails? || step.StopRetrying? || step.ClosePending? || step.AcceptorDone? || step.CloseListener? || step.CloseReady?
    ensures PlacesOk(c, Apply(c, s, step))
  {
    hide PlacesOk;
    HandsUnchanged(c, s, Apply(c, s, step));
  }

  lemma HandsUnchanged(c: Config, s: State, t: State)
    requires PlacesOk(c, s) && t.pending == s.pending && t.workers == s.workers && t.conns == s.conns && t.releases == s.releases
    requires t.acceptor == s.acceptor || forall x :: !AcceptorHas(s.acceptor, x) && !AcceptorHas(t.acceptor, x)
    ensures PlacesOk(c, t)
  {
    forall x | x in t.conns ensures ConnOk(c, t, x) {
      assert ConnOk(c, s, x);
    }
    forall i | 0 <= i < |t.pending| ensures At(t, t.pending[i], Queued) {
      assert At(s, s.pending[i], Queued);
    }
    forall w, x | 0 <= w < |t.workers| && WorkerHas(t.workers[w], x) ensures At(t, x, AtWorker(w)) {
      assert WorkerHas(s.workers[w], x) && At(s, x, AtWorker(w));
    }
    forall x | AcceptorHas(t.acceptor, x) ensures At(t, x, AtAcceptor) {
      assert AcceptorHas(s.acceptor, x) && At(s, x, AtAcceptor);
    }
  }

  lemma ReceivePlaces(c: Config, s: State, w: nat)
    requires PlacesOk(c, s) && Enabled(c, s, Receive(w))
    ensures PlacesOk(c, Apply(c, s, Receive(w)))
  {
    var first := s.pending[0];
    assert At(s, first, Queued) && ConnOk(c, s, first);
    var t := Apply(c, s, Receive(w));
    forall conn | conn in t.conns ensures ConnOk(c, t, conn) {
      assert ConnOk(c, s, conn);
    }
    forall i | 0 <= i < |t.pending| ensures At(t, t.pending[i], Queued) {
      assert At(s, s.pending[i + 1], Queued);
    }
    forall v, conn | 0 <= v < |t.workers| && WorkerHas(t.workers[v], conn) ensures At(t, conn, AtWorker(v)) {
      assert v != w ==> At(s, conn, AtWorker(v));
    }
  }

  /** Only one worker moves, with the connection it has. */
  lemma WorkerMoved(c: Config, s: State, t: State, w: nat, conn: nat)
    requires PlacesOk(c, s) && t.pending == s.pending && t.acceptor == s.acceptor && OthersSame(s, t, conn)
    requires w < |s.workers| == |t.workers| && t.workers == s.workers[w := t.workers[w]] && At(s, conn, AtWorker(w))
    requires forall x :: WorkerHas(t.workers[w], x) ==> x == conn && At(t, conn, AtWorker(w))
    requires conn in t.conns && ConnOk(c, t, conn)
    ensures PlacesOk(c, t)
  {
    assert ConnOk(c, s, conn);
    forall x | x in t.conns && x != conn ensures ConnOk(c, t, x) {
      assert ConnOk(c, s, x);
    }
    forall i | 0 <= i < |t.pending| ensures At(t, t.pending[i], Queued) {
      assert At(s, s.pending[i], Queued);
    }
    forall v, x | 0 <= v < |t.workers| && WorkerHas(t.workers[v], x) ensures At(t, x, AtWorker(v)) {
      assert v != w ==> WorkerHas(s.workers[v], x) && At(s, x, AtWorker(v));
    }
    forall x | AcceptorHas(t.acceptor, x) ensures At(t, x, AtAcceptor) {
      assert AcceptorHas(s.acceptor, x) && At(s, x, AtAcceptor);
    }
  }

  lemma WorkerPlaces(c: Config, s: State, step: Step)
    requires PlacesOk(c, s) && (step.AuthEnds? || step.WorkerTakes? || step.WorkerFrees?) && Enabled(c, s, step)
    ensures PlacesOk(c, Apply(c, s, step))
  {
    hide Get, Raised, Lowered, PlacesOk;
    HeldByWorker(c, s, step.w);
    assert WorkerHas(s.workers[step.w], s.workers[step.w].conn);
    WorkerMoved(c, s, Apply(c, s, step), step.w, s.workers[step.w].conn);
  }

  lemma HeldByWorker(c: Config, s: State, w: nat)
    requires PlacesOk(c, s) && w < |s.workers|
    ensures forall x :: WorkerHas(s.workers[w], x) ==> At(s, x, AtWorker(w)) && ConnOk(c, s, x)
  {
  }

  /** A worker without a connection from the queue moves. */
  lemma FreeWorkerPlaces(c: Config, s: State, step: Step)
    requires PlacesOk(c, s) && (step.RangeEnds? || step.HandOver? || step.GiveUp? || step.WorkerDone?) && Enabled(c, s, step)
    ensures PlacesOk(c, Apply(c, s, step))
  {
    var t := Apply(c, s, step);
    forall x | x in t.conns ensures ConnOk(c, t, x) {
      assert ConnOk(c, s, x);
    }
    forall i | 0 <= i < |t.pending| ensures At(t, t.pending[i], Queued) {
      assert At(s, s.pending[i], Queued);
    }
    forall v, x | 0 <= v < |t.workers| && WorkerHas(t.workers[v], x) ensures At(t, x, AtWorker(v)) {
      assert WorkerHas(s.workers[v], x) && At(s, x, AtWorker(v));
    }
  }

  // -------------------------------------------------------------------------- runs

  ghost predicate Inv(c: Config, s: State) {
    ChannelsOk(s) && CountsOk(c, s) && PlacesOk(c, s)
  }

  lemma StepKeeps(c: Config, s: State, step: Step)
    requires Inv(c, s) && Enabled(c, s, step)
    ensures Inv(c, Apply(c, s, step))
  {
    hide ChannelsOk, CountsOk, Enabled, Apply, PlacesOk, WorkerStep;
    ChannelsKept(c, s, step);
    GotHasNoSlot(c, s);
    CountsKept(c, s, step);
    PlacesKept(c, s, step);
  }

  lemma GotHasNoSlot(c: Config, s: State)
    requires PlacesOk(c, s)
    ensures s.acceptor.Got? ==> s.acceptor.conn in s.conns && s.conns[s.acceptor.conn].slot == NoSlot
  {
    if s.acceptor.Got? {
      assert AcceptorHas(s.acceptor, s.acceptor.conn) && At(s, s.acceptor.conn, AtAcceptor);
      assert ConnOk(c, s, s.acceptor.conn);
    }
  }

  lemma PlacesKept(c: Config, s: State, step: Step)
    requires PlacesOk(c, s) && Enabled(c, s, step)
    ensures PlacesOk(c, Apply(c, s, step))
  {
    hide PlacesOk, Enabled, Apply;
    if step.Receive? {
      ReceivePlaces(c, s, step.w);
    } else if step.AuthEnds? || step.WorkerTakes? || step.WorkerFrees? {
      WorkerPlaces(c, s, step);
    } else if step.RangeEnds? || step.HandOver? || step.GiveUp? || step.WorkerDone? {
      FreeWorkerPlaces(c, s, step);
    } else if step.Enqueue? {
      EnqueuePlaces(c, s);
    } else if step.AcceptConn? {
      AcceptPlaces(c, s, step.conn);
    } else if step.Acquire? {
      AcquireIsReserve(c, s);
      AcquirePlaces(c, s);
    } else if step.CallRelease? {
      CallReleasePlaces(c, s);
    } else if step.Record? || step.TakeRelease? || step.SelectDone? || step.SelectDefault? {
      AcceptorPlaces(c, s, step);
    } else {
      OtherPlaces(c, s, step);
    }
  }

  /** The states of a run with some number of workers. */
  ghost predicate IsRun(c: Config, run: seq<State>, steps: seq<Step>) {
    && |run| == |steps| + 1 && run[0] == Start(|run[0].workers|)
    && forall i :: 0 <= i < |steps| ==> Enabled(c, run[i], steps[i]) && run[i + 1] == Apply(c, run[i], steps[i])
  }

  lemma {:induction false} RunKeeps(c: Config, run: seq<State>, steps: seq<Step>, n: nat)
    requires IsRun(c, run, steps) && n < |run|
    ensures Inv(c, run[n])
  {
    hide Inv, Enabled, Apply;
    if n == 0 {
      StartOk(c, |run[0].workers|);
    } else {
      RunKeeps(c, run, steps, n - 1);
      StepKeeps(c, run[n - 1], steps[n - 1]);
    }
  }

  lemma StartOk(c: Config, workers: nat)
    ensures Inv(c, Start(workers))
  {
    AllIdleBusy(workers);
    assert forall key :: Holders(map[], key) == {};
  }

  /** In every run, no step sends on a closed channel, closes one twice, or counts a
      goroutine off that was not counted. */
  lemma NeverPanics(c: Config, run: seq<State>, steps: seq<Step>, n: nat)
    requires IsRun(c, run, steps) && n < |steps|
    ensures !Panics(run[n], steps[n])
  {
    hide Panics, Enabled, Apply, ChannelsOk, CountsOk, PlacesOk;
    RunKeeps(c, run, steps, n);
    NoPanic(c, run[n], steps[n]);
  }

  /** In every run the count of a source is the number of its connections that hold a
      slot, and is at most the maximum. */
  lemma CountIsHolders(c: Config, run: seq<State>, steps: seq<Step>, n: nat, key: string)
    requires IsRun(c, run, steps) && n < |run| && c.max > 0
    ensures Get(run[n].counts, key) == |Holders(run[n].conns, key)| <= c.max
  {
    hide Enabled, Apply, Holders, PlacesOk, ChannelsOk;
    RunKeeps(c, run, steps, n);
  }

  /** A connection is in hand: past the limiter, at the accept loop, in the queue or being
      authenticated. */
  ghost predicate InHand(s: State, conn: nat) {
    || (AcceptorHas(s.acceptor, conn) && !s.acceptor.Got?)
    || conn in s.pending
    || exists w :: 0 <= w < |s.workers| && WorkerHas(s.workers[w], conn)
  }

  /** In every run exactly the connections in hand that are due a slot hold it: none is
      lost when a connection is dropped, refused or handed over, and none is held longer. */
  lemma HeldIffInHand(c: Config, run: seq<State>, steps: seq<Step>, n: nat, conn: nat)
    requires IsRun(c, run, steps) && n < |run| && conn in run[n].conns
    ensures run[n].conns[conn].slot.Held? <==> InHand(run[n], conn) && Due(c, conn).Held?
    ensures run[n].conns[conn].slot.Held? ==> run[n].conns[conn].slot == Due(c, conn)
  {
    hide Enabled, Apply, CountsOk, ChannelsOk;
    RunKeeps(c, run, steps, n);
    var s := run[n];
    assert ConnOk(c, s, conn);
    if conn in s.pending {
      var i :| 0 <= i < |s.pending| && s.pending[i] == conn;
      assert At(s, conn, Queued);
    }
  }

  /** When all goroutines have ended, exactly the connections left in the queue that were
      due a slot still hold it. */
  lemma HeldAtEndIffQueued(c: Config, run: seq<State>, steps: seq<Step>, n: nat, conn: nat)
    requires IsRun(c, run, steps) && n < |run| && run[n].readyClosed && conn in run[n].conns
    ensures run[n].conns[conn].slot.Held? <==> conn in run[n].pending && Due(c, conn).Held?
  {
    hide Enabled, Apply, CountsOk, PlacesOk;
    HeldIffInHand(c, run, steps, n, conn);
    RunKeeps(c, run, steps, n);
    var s := run[n];
    if exists w :: 0 <= w < |s.workers| && WorkerHas(s.workers[w], conn) {
      var w :| 0 <= w < |s.workers| && WorkerHas(s.workers[w], conn);
      NoneBusy(s.workers, w);
    }
  }

  // ------------------------------------------------------ a slot left in the queue

  /** Every connection comes from one source, which may hold two slots. */
  const ONE_SOURCE: Config := Config(_ => Some("a"), 2, 2)

  /** A run is possible from `s` with these steps and ends in `last`. */
  ghost predicate Leads(c: Config, s: State, steps: seq<Step>, last: State)
    decreases |steps|
  {
    if steps == [] then s == last else Enabled(c, s, steps[0]) && Leads(c, Apply(c, s, steps[0]), steps[1..], last)
  }

  lemma {:induction false} LeadsOn(c: Config, s: State, a: seq<Step>, mid: State, b: seq<Step>, last: State)
    requires Leads(c, s, a, mid) && Leads(c, mid, b, last)
    ensures Leads(c, s, a + b, last)
    decreases |a|
  {
    if a == [] {
      assert a + b == b;
    } else {
      LeadsOn(c, Apply(c, s, a[0]), a[1..], mid, b, last);
      assert (a + b)[1..] == a[1..] + b;
    }
  }

  lemma {:induction false} LeadsToRun(c: Config, s: State, steps: seq<Step>, last: State) returns (run: seq<State>)
    requires Leads(c, s, steps, last)
    decreases |steps|
    ensures |run| == |steps| + 1 && run[0] == s && run[|steps|] == last
    ensures forall i :: 0 <= i < |steps| ==> Enabled(c, run[i], steps[i]) && run[i + 1] == Apply(c, run[i], steps[i])
  {
    hide Enabled, Apply;
    if steps == [] {
      run := [s];
    } else {
      var rest := LeadsToRun(c, Apply(c, s, steps[0]), steps[1..], last);
      run := [s] + rest;
      forall i | 0 <= i < |steps| ensures Enabled(c, run[i], steps[i]) && run[i + 1] == Apply(c, run[i], steps[i]) {
        if i > 0 {
          assert run[i] == rest[i - 1] && steps[i] == steps[1..][i - 1];
        }
      }
    }
  }

  lemma LeadsStep(c: Config, s: State, step: Step, t: State, rest: seq<Step>, last: State)
    requires Enabled(c, s, step) && Apply(c, s, step) == t && Leads(c, t, rest, last)
    ensures Leads(c, s, [step] + rest, last)
  {
    hide Enabled, Apply;
    assert ([step] + rest)[1..] == rest;
  }

  lemma LeadsOne(c: Config, s: State, step: Step, t: State)
    requires Enabled(c, s, step) && Apply(c, s, step) == t
    ensures Leads(c, s, [step], t)
  {
    hide Enabled, Apply;
    assert [step][1..] == [];
  }

  const QUEUEING: seq<Step> := [Acquire, Record, Enqueue]
  const AUTHENTICATING: seq<Step> := [AuthEnds(0, true), WorkerTakes(0), WorkerFrees(0)]
  const WORKER_LEAVING: seq<Step> := [CloseListener, GiveUp(0), WorkerDone(0)]
  const OTHERS_LEAVING: seq<Step> := [AcceptFails, ClosePending, AcceptorDone, CloseReady]

  function QueuedUp(s: State, conn: nat): (t: State) {
    s.(pending := s.pending + [conn], conns := s.conns[conn := Conn(Queued, Held("a"))],
       counts := Raised(s.counts, "a"), releases := s.releases + {conn})
  }

  function WithSlot(s: State, conn: nat): (t: State) {
    s.(acceptor := Acquired(conn), counts := Raised(s.counts, "a"), conns := s.conns[conn := Conn(AtAcceptor, Held("a"))])
  }

  lemma RecordAndQueue(s: State, conn: nat)
    requires s.acceptor.Accepting? && |s.pending| < 2
    ensures Leads(ONE_SOURCE, WithSlot(s, conn), [Record] + [Enqueue], QueuedUp(s, conn))
  {
    hide Raised, Leads;
    var c, last, s2 := ONE_SOURCE, QueuedUp(s, conn), WithSlot(s, conn);
    var s3 := s2.(acceptor := Recorded(conn), releases := s.releases + {conn});
    assert Apply(c, s3, Enqueue) == last;
    LeadsOne(c, s3, Enqueue, last);
    LeadsStep(c, s2, Record, s3, [Enqueue], last);
  }

  /** How a connection from the source gets into the queue. */
  lemma QueueUp(s: State, conn: nat)
    requires s.acceptor.Accepting? && conn !in s.conns && Get(s.counts, "a") < 2 && |s.pending| < 2
    ensures Leads(ONE_SOURCE, s, [AcceptConn(conn)] + QUEUEING, QueuedUp(s, conn))
  {
    hide Raised, Leads, QueuedUp, Get;
    var c, last, s2 := ONE_SOURCE, QueuedUp(s, conn), WithSlot(s, conn);
    var s1 := s.(acceptor := Got(conn), conns := s.conns[conn := Conn(AtAcceptor, NoSlot)]);
    RecordAndQueue(s, conn);
    AcquireIsReserve(c, s1);
    assert Reserve(c, s1, conn) == s2;
    LeadsStep(c, s1, Acquire, s2, [Record] + [Enqueue], last);
    assert QUEUEING == [Acquire] + ([Record] + [Enqueue]);
    LeadsStep(c, s, AcceptConn(conn), s1, QUEUEING, last);
  }

  function TakenBy(s: State, conn: nat): (t: State) {
    Put(s, conn, AtWorker(0)).(pending := [], workers := [Working(conn)])
  }

  /** The worker takes the first connection in the queue. */
  lemma TakeOne(s: State, conn: nat)
    requires s.workers == [Idle] && s.pending == [conn]
    ensures Leads(ONE_SOURCE, s, [Receive(0)], TakenBy(s, conn))
  {
    hide Leads, Put;
    LeadsOne(ONE_SOURCE, s, Receive(0), TakenBy(s, conn));
  }

  function Authenticated(s: State, conn: nat): (t: State) {
    s.(workers := [Offering(conn)], releases := s.releases - {conn},
       conns := s.conns[conn := Conn(Elsewhere, Freed)], counts := Lowered(s.counts, "a"))
  }

  /** The worker authenticates its connection and frees its slot. */
  lemma Authenticate(s: State, conn: nat)
    requires s.workers == [Working(conn)] && conn in s.conns && conn in s.releases && s.conns[conn].slot == Held("a")
    ensures Leads(ONE_SOURCE, s, AUTHENTICATING, Authenticated(s, conn))
  {
    hide Lowered, Leads;
    var c, last := ONE_SOURCE, Authenticated(s, conn);
    var s1 := s.(workers := [Taking(conn, true)]);
    var s2 := s.(workers := [Freeing(conn, true, true)], releases := s.releases - {conn});
    LeadsOne(c, s2, WorkerFrees(0), last);
    LeadsStep(c, s1, WorkerTakes(0), s2, [WorkerFrees(0)], last);
    LeadsStep(c, s, AuthEnds(0, true), s1, [WorkerTakes(0)] + [WorkerFrees(0)], last);
    assert AUTHENTICATING == [AuthEnds(0, true)] + ([WorkerTakes(0)] + [WorkerFrees(0)]);
  }

  function WorkerLeft(s: State): (t: State) {
    s.(done := true, workers := [Gone], wait := s.wait - 1)
  }

  /** The listener is closed while the worker offers a connection. */
  lemma WorkerLeaves(s: State, conn: nat)
    requires s.workers == [Offering(conn)]
    ensures Leads(ONE_SOURCE, s, WORKER_LEAVING, WorkerLeft(s))
  {
    hide Leads;
    var c, last := ONE_SOURCE, WorkerLeft(s);
    var s1 := s.(done := true);
    var s2 := s1.(workers := [Quitting]);
    LeadsOne(c, s2, WorkerDone(0), last);
    LeadsStep(c, s1, GiveUp(0), s2, [WorkerDone(0)], last);
    LeadsStep(c, s, CloseListener, s1, [GiveUp(0)] + [WorkerDone(0)], last);
    assert WORKER_LEAVING == [CloseListener] + ([GiveUp(0)] + [WorkerDone(0)]);
  }

  function AllLeft(s: State): (t: State) {
    s.(done := true, wait := s.wait - 1, acceptor := Exited, pendingClosed := true, readyClosed := true, closerGone := true)
  }

  /** The accept loop ends, and the ready channel is closed. */
  lemma OthersLeave(s: State)
    requires s.acceptor.Accepting? && s.wait == 1 && !s.closerGone
    ensures Leads(ONE_SOURCE, s, OTHERS_LEAVING, AllLeft(s))
  {
    hide Leads;
    var c, last := ONE_SOURCE, AllLeft(s);
    var s1 := s.(done := true, acceptor := Exiting);
    var s2 := s1.(acceptor := Leaving, pendingClosed := true);
    var s3 := s2.(acceptor := Exited, wait := s.wait - 1);
    LeadsOne(c, s3, CloseReady, last);
    LeadsStep(c, s2, AcceptorDone, s3, [CloseReady], last);
    LeadsStep(c, s1, ClosePending, s2, [AcceptorDone] + [CloseReady], last);
    LeadsStep(c, s, AcceptFails, s1, [ClosePending] + ([AcceptorDone] + [CloseReady]), last);
    assert OTHERS_LEAVING == [AcceptFails] + ([ClosePending] + ([AcceptorDone] + [CloseReady]));
  }

  /** Two connections are queued; the only worker authenticates the first, and gives up
      offering it when the listener is closed. */
  const SHUTDOWN: seq<Step> :=
    ([AcceptConn(0)] + QUEUEING) + ([Receive(0)] + (([AcceptConn(1)] + QUEUEING) + (AUTHENTICATING + (WORKER_LEAVING + OTHERS_LEAVING))))

  ghost function BeforeClosing(): (s: State) {
    Authenticated(QueuedUp(TakenBy(QueuedUp(Start(1), 0), 0), 1), 0)
  }

  lemma FirstHalf(steps: seq<Step>, last: State)
    requires Leads(ONE_SOURCE, BeforeClosing(), steps, last)
    ensures Leads(ONE_SOURCE, Start(1),
                  ([AcceptConn(0)] + QUEUEING) + ([Receive(0)] + (([AcceptConn(1)] + QUEUEING) + (AUTHENTICATING + steps))), last)
  {
    hide Leads;
    var c, s := ONE_SOURCE, Start(1);
    var s1 := QueuedUp(s, 0);
    var s2 := TakenBy(s1, 0);
    var s3 := QueuedUp(s2, 1);
    QueueUp(s, 0);
    TakeOne(s1, 0);
    QueueUp(s2, 1);
    Authenticate(s3, 0);
    LeadsOn(c, s3, AUTHENTICATING, BeforeClosing(), steps, last);
    LeadsOn(c, s2, [AcceptConn(1)] + QUEUEING, s3, AUTHENTICATING + steps, last);
    LeadsOn(c, s1, [Receive(0)], s2, ([AcceptConn(1)] + QUEUEING) + (AUTHENTICATING + steps), last);
    LeadsOn(c, s, [AcceptConn(0)] + QUEUEING, s1, [Receive(0)] + (([AcceptConn(1)] + QUEUEING) + (AUTHENTICATING + steps)), last);
  }

  /** A run that ends with all goroutines gone and a slot still held. */
  lemma SlotLeftInQueue() returns (run: seq<State>)
    ensures IsRun(ONE_SOURCE, run, SHUTDOWN)
    ensures var s := run[|SHUTDOWN|];
            s.readyClosed && s.pending == [1] && 1 in s.conns && s.conns[1].slot == Held("a") && Get(s.counts, "a") == 1
  {
    hide Leads, Enabled, Apply;
    var c, s := ONE_SOURCE, BeforeClosing();
    var last := AllLeft(WorkerLeft(s));
    WorkerLeaves(s, 0);
    OthersLeave(WorkerLeft(s));
    LeadsOn(c, s, WORKER_LEAVING, WorkerLeft(s), OTHERS_LEAVING, last);
    FirstHalf(WORKER_LEAVING + OTHERS_LEAVING, last);
    run := LeadsToRun(c, Start(1), SHUTDOWN, last);
  }
}
