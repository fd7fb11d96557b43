/**
 The authenticating listener over whole runs: which connections it hands over, and what
 becomes of a connection whose authentication fails.
 */
module ListenerRuns {
  import opened Listener
  import opened Wrappers

  // ------------------------------------------------------------- one worker's steps

  /** A worker has a connection whose authentication has ended, with this result. */
  predicate Carries(w: Worker, conn: nat, ok: bool) {
    w == Taking(conn, ok) || (w.Freeing? && w.conn == conn && w.ok == ok) || (w == Offering(conn) && ok)
  }

  /** Step `i` ends the authentication of `conn` by worker `w`. */
  predicate EndsAuth(run: seq<State>, steps: seq<Step>, i: nat, w: nat, conn: nat, ok: bool) {
    && i < |run| && i < |steps| && steps[i] == AuthEnds(w, ok)
    && w < |run[i].workers| && run[i].workers[w] == Working(conn)
  }

  ghost predicate SameButConns(s: State, t: State) {
    t.workers == s.workers && t.pending == s.pending && t.acceptor == s.acceptor && t.done == s.done
  }

  lemma FreeKeeps(s: State, conn: nat, place: Place, found: bool)
    ensures SameButConns(s, Free(s, conn, place, found)) && SameButConns(s, Put(s, conn, place))
  {
    hide Lowered;
  }

  lemma ReserveKeeps(c: Config, s: State, conn: nat)
    ensures var t := Reserve(c, s, conn); t.workers == s.workers && t.pending == s.pending && t.done == s.done
  {
    hide Raised, Get, Put;
    FreeKeeps(s, conn, Elsewhere, false);
  }

  /** The steps of the accept loop and the closers leave the workers alone. */
  lemma OtherStepsKeepWorkers(c: Config, s: State, step: Step)
    requires Enabled(c, s, step) && !WorkerStep(step)
    ensures Apply(c, s, step).workers == s.workers
  {
    hide Free, Put, Reserve, WorkerEnabled, WorkerApply;
    match step
    case Acquire => ReserveKeeps(c, s, s.acceptor.conn);
    case Enqueue => FreeKeeps(s, s.acceptor.conn, Queued, false);
    case CallRelease => FreeKeeps(s, s.acceptor.conn, Elsewhere, s.acceptor.found);
    case _ =>
  }

  /** A worker's step moves that worker alone. */
  lemma OneWorkerMoves(s: State, step: Step)
    requires WorkerStep(step) && WorkerEnabled(s, step)
    ensures var t := WorkerApply(s, step);
            |t.workers| == |s.workers| && forall w :: 0 <= w < |s.workers| && w != step.w ==> t.workers[w] == s.workers[w]
  {
    hide Free, Put;
  }

  lemma ApplyWorkerStep(c: Config, s: State, step: Step)
    requires WorkerStep(step) && Enabled(c, s, step)
    ensures WorkerEnabled(s, step) && Apply(c, s, step) == WorkerApply(s, step)
  {
    hide WorkerApply, WorkerEnabled;
  }

  lemma WorkersStay(c: Config, s: State, step: Step, w: nat)
    requires Enabled(c, s, step) && w < |s.workers|
    ensures var t := Apply(c, s, step);
            |t.workers| == |s.workers| && (!(WorkerStep(step) && step.w == w) ==> t.workers[w] == s.workers[w])
  {
    hide Enabled, Apply, WorkerApply, WorkerEnabled, WorkerStep;
    if WorkerStep(step) {
      ApplyWorkerStep(c, s, step);
      OneWorkerMoves(s, step);
    } else {
      OtherStepsKeepWorkers(c, s, step);
    }
  }

  /** A worker that carries a connection got it by ending its authentication just now, or
      carried it before. */
  lemma CarriedBefore(c: Config, s: State, step: Step, w: nat, conn: nat, ok: bool)
    requires Enabled(c, s, step) && w < |s.workers| == |Apply(c, s, step).workers| && Carries(Apply(c, s, step).workers[w], conn, ok)
    ensures Carries(s.workers[w], conn, ok) || (step == AuthEnds(w, ok) && s.workers[w] == Working(conn))
  {
    hide Enabled, Apply, WorkerApply, WorkerEnabled;
    WorkersStay(c, s, step, w);
    if WorkerStep(step) && step.w == w {
      ApplyWorkerStep(c, s, step);
      MineBefore(s, step, conn, ok);
    }
  }

  lemma MineBefore(s: State, step: Step, conn: nat, ok: bool)
    requires WorkerStep(step) && WorkerEnabled(s, step) && Carries(WorkerApply(s, step).workers[step.w], conn, ok)
    ensures Carries(s.workers[step.w], conn, ok) || (step == AuthEnds(step.w, ok) && s.workers[step.w] == Working(conn))
  {
    hide Free, Put;
  }

  lemma SameWorkers(c: Config, run: seq<State>, steps: seq<Step>, n: nat)
    requires IsRun(c, run, steps) && n < |steps|
    ensures Enabled(c, run[n], steps[n]) && run[n + 1] == Apply(c, run[n], steps[n])
    ensures |run[n].workers| == |run[n + 1].workers|
  {
    hide Enabled, Apply;
    if |run[n].workers| > 0 {
      WorkersStay(c, run[n], steps[n], 0);
    } else {
      NoWorkers(c, run[n], steps[n]);
    }
  }

  lemma NoWorkers(c: Config, s: State, step: Step)
    requires Enabled(c, s, step) && s.workers == []
    ensures Apply(c, s, step).workers == []
  {
    hide Apply;
    OtherStepsKeepWorkers(c, s, step);
  }

  /** The end of an authentication and the hand-over, for the worker itself. */
  lemma AuthEndsNext(c: Config, s: State, w: nat, ok: bool)
    requires Enabled(c, s, AuthEnds(w, ok))
    ensures s.workers[w].Working? && Apply(c, s, AuthEnds(w, ok)).workers == s.workers[w := Taking(s.workers[w].conn, ok)]
  {
  }

  lemma HandOverNext(c: Config, s: State, w: nat)
    requires Enabled(c, s, HandOver(w))
    ensures Apply(c, s, HandOver(w)).workers == s.workers[w := Idle]
  {
  }

  lemma NothingAtStart(workers: nat)
    ensures forall w :: 0 <= w < workers ==> Start(workers).workers[w] == Idle
  {
  }

  // -------------------------------------------------- only what authenticated is offered

  /** In every run, what a worker carries is a connection that it authenticated, with that
      result, and that it has carried ever since. */
  lemma {:induction false} CarriedWasAuthenticated(c: Config, run: seq<State>, steps: seq<Step>, n: nat, w: nat, conn: nat, ok: bool)
    returns (i: nat)
    requires IsRun(c, run, steps) && n < |run| && w < |run[n].workers| && Carries(run[n].workers[w], conn, ok)
    ensures i < n && EndsAuth(run, steps, i, w, conn, ok)
    ensures forall k :: i < k <= n ==> w < |run[k].workers| && Carries(run[k].workers[w], conn, ok)
    decreases n
  {
    hide Enabled, Apply;
    NothingAtStart(|run[0].workers|);
    var last := n - 1;
    SameWorkers(c, run, steps, last);
    CarriedBefore(c, run[last], steps[last], w, conn, ok);
    if Carries(run[last].workers[w], conn, ok) {
      i := CarriedWasAuthenticated(c, run, steps, last, w, conn, ok);
    } else {
      i := last;
    }
  }

  /** Step `n` hands `conn` over to the caller of Accept. */
  predicate HandsOver(run: seq<State>, steps: seq<Step>, n: nat, w: nat, conn: nat) {
    && n < |run| && n < |steps| && steps[n] == HandOver(w)
    && w < |run[n].workers| && run[n].workers[w] == Offering(conn)
  }

  /** In every run a connection that is handed over was authenticated with success before,
      by the same worker. */
  lemma HandedOverWasAuthenticated(c: Config, run: seq<State>, steps: seq<Step>, n: nat, w: nat, conn: nat) returns (i: nat)
    requires IsRun(c, run, steps) && HandsOver(run, steps, n, w, conn)
    ensures i < n && EndsAuth(run, steps, i, w, conn, true)
  {
    hide IsRun;
    i := CarriedWasAuthenticated(c, run, steps, n, w, conn, true);
  }

  // ----------------------------------------------- what is released is offered, or not

  lemma CarriesOn(c: Config, s: State, step: Step, w: nat, conn: nat, ok: bool)
    requires Enabled(c, s, step) && w < |s.workers| == |Apply(c, s, step).workers|
    requires (s.workers[w].Taking? || s.workers[w].Freeing?) && Carries(s.workers[w], conn, ok)
    ensures var v := Apply(c, s, step).workers[w];
            if step == WorkerFrees(w) then v == (if ok then Offering(conn) else Idle)
            else (v.Taking? || v.Freeing?) && Carries(v, conn, ok)
  {
    hide Enabled, Apply, WorkerApply, WorkerEnabled;
    WorkersStay(c, s, step, w);
    if WorkerStep(step) && step.w == w {
      ApplyWorkerStep(c, s, step);
      MineOn(s, step, conn, ok);
    }
  }

  lemma MineOn(s: State, step: Step, conn: nat, ok: bool)
    requires WorkerStep(step) && WorkerEnabled(s, step) && |WorkerApply(s, step).workers| == |s.workers|
    requires (s.workers[step.w].Taking? || s.workers[step.w].Freeing?) && Carries(s.workers[step.w], conn, ok)
    ensures var v := WorkerApply(s, step).workers[step.w];
            if step.WorkerFrees? then v == (if ok then Offering(conn) else Idle)
            else (v.Taking? || v.Freeing?) && Carries(v, conn, ok)
  {
    hide Free, Put;
    FreeKeeps(s, conn, Elsewhere, s.workers[step.w].Freeing? && s.workers[step.w].found);
  }

  lemma {:induction false} CarriesUntilFreed(c: Config, run: seq<State>, steps: seq<Step>, i: nat, n: nat, w: nat, conn: nat, ok: bool)
    requires IsRun(c, run, steps) && EndsAuth(run, steps, i, w, conn, ok) && i < n < |run|
    requires forall k :: i < k < n ==> steps[k] != WorkerFrees(w)
    ensures w < |run[n].workers| && (run[n].workers[w].Taking? || run[n].workers[w].Freeing?) && Carries(run[n].workers[w], conn, ok)
    decreases n
  {
    hide Enabled, Apply;
    var last := n - 1;
    SameWorkers(c, run, steps, last);
    if last == i {
      AuthEndsNext(c, run[i], w, ok);
    } else {
      CarriesUntilFreed(c, run, steps, i, last, w, conn, ok);
      CarriesOn(c, run[last], steps[last], w, conn, ok);
    }
  }

  /** In every run the release after an authentication is followed by the offer of the
      connection if it succeeded, and by the next connection if it failed. */
  lemma ReleasedThen(c: Config, run: seq<State>, steps: seq<Step>, i: nat, j: nat, w: nat, conn: nat, ok: bool)
    requires IsRun(c, run, steps) && EndsAuth(run, steps, i, w, conn, ok) && i < j < |steps| && steps[j] == WorkerFrees(w)
    requires forall k :: i < k < j ==> steps[k] != WorkerFrees(w)
    ensures w < |run[j + 1].workers| && run[j + 1].workers[w] == if ok then Offering(conn) else Idle
  {
    hide Enabled, Apply;
    CarriesUntilFreed(c, run, steps, i, j, w, conn, ok);
    SameWorkers(c, run, steps, j);
    CarriesOn(c, run[j], steps[j], w, conn, ok);
  }

  // ------------------------------------------------------------------ only once

  /** The authentication of `conn` has ended. */
  ghost predicate Past(s: State, conn: nat) {
    && conn in s.conns
    && match s.conns[conn].place
       case Elsewhere => true
       case AtWorker(w) => w < |s.workers| && (s.workers[w].Taking? || s.workers[w].Freeing?) && s.workers[w].conn == conn
       case _ => false
  }

  lemma PastKept(c: Config, s: State, step: Step, conn: nat)
    requires PlacesOk(c, s) && Enabled(c, s, step) && Past(s, conn)
    ensures Past(Apply(c, s, step), conn)
  {
    hide PlacesOk, Enabled, Apply, WorkerApply, WorkerEnabled, WorkerStep, Past;
    HandsAreApart(c, s, conn);
    if WorkerStep(step) {
      ApplyWorkerStep(c, s, step);
      PastAtWorkers(s, step, conn);
    } else {
      OtherStepsKeepWorkers(c, s, step);
      PastAtOthers(c, s, step, conn);
    }
  }

  /** No one but a worker past its authentication has `conn`. */
  ghost predicate Apart(s: State, conn: nat) {
    && conn in s.conns && !AcceptorHas(s.acceptor, conn)
    && (s.pending != [] ==> s.pending[0] != conn)
    && forall w :: 0 <= w < |s.workers| && WorkerHas(s.workers[w], conn) ==> s.conns[conn].place == AtWorker(w)
  }

  ghost predicate Untouched(s: State, t: State, conn: nat) {
    conn in s.conns && conn in t.conns && t.conns[conn] == s.conns[conn]
  }

  lemma FreeUntouched(s: State, x: nat, place: Place, found: bool, conn: nat)
    requires conn in s.conns && x != conn
    ensures Untouched(s, Free(s, x, place, found), conn) && Untouched(s, Put(s, x, place), conn)
  {
    hide Lowered;
  }

  lemma ReserveUntouched(c: Config, s: State, x: nat, conn: nat)
    requires conn in s.conns && x != conn
    ensures Untouched(s, Reserve(c, s, x), conn)
  {
    hide Raised, Get;
  }

  lemma PastAtOthers(c: Config, s: State, step: Step, conn: nat)
    requires Enabled(c, s, step) && !WorkerStep(step) && Past(s, conn) && Apart(s, conn)
    requires Apply(c, s, step).workers == s.workers
    ensures Past(Apply(c, s, step), conn)
  {
    hide Free, Put, Reserve, WorkerEnabled, WorkerApply, Past;
    assert Untouched(s, Apply(c, s, step), conn) by {
      match step
      case Acquire => ReserveUntouched(c, s, s.acceptor.conn, conn);
      case Enqueue => FreeUntouched(s, s.acceptor.conn, Queued, false, conn);
      case CallRelease => FreeUntouched(s, s.acceptor.conn, Elsewhere, s.acceptor.found, conn);
      case _ =>
    }
    PastStays(s, Apply(c, s, step), conn);
  }

  lemma PastStays(s: State, t: State, conn: nat)
    requires Past(s, conn) && Untouched(s, t, conn) && t.workers == s.workers
    ensures Past(t, conn)
  {
  }

  lemma PastAtWorkers(s: State, step: Step, conn: nat)
    requires WorkerStep(step) && WorkerEnabled(s, step) && Past(s, conn) && Apart(s, conn)
    ensures Past(WorkerApply(s, step), conn)
  {
    hide Free, Put;
    match step
    case Receive(w) => FreeUntouched(s, s.pending[0], AtWorker(w), false, conn);
    case WorkerFrees(w) => PastFreed(s, w, conn);
    case _ =>
  }

  lemma PastFreed(s: State, w: nat, conn: nat)
    requires WorkerEnabled(s, WorkerFrees(w)) && Past(s, conn) && Apart(s, conn)
    ensures Past(WorkerApply(s, WorkerFrees(w)), conn)
  {
    hide Free;
    var x, found := s.workers[w].conn, s.workers[w].found;
    if x != conn {
      FreeUntouched(s, x, Elsewhere, found, conn);
    } else {
      FreePlaces(s, conn, Elsewhere, found);
    }
  }

  lemma FreePlaces(s: State, conn: nat, place: Place, found: bool)
    requires conn in s.conns
    ensures At(Free(s, conn, place, found), conn, place)
  {
    hide Lowered;
  }

  lemma HandsAreApart(c: Config, s: State, conn: nat)
    requires PlacesOk(c, s) && Past(s, conn)
    ensures Apart(s, conn)
  {
    assert s.pending != [] ==> At(s, s.pending[0], Queued);
    assert AcceptorHas(s.acceptor, conn) ==> At(s, conn, AtAcceptor);
    forall w | 0 <= w < |s.workers| && WorkerHas(s.workers[w], conn) ensures s.conns[conn].place == AtWorker(w) {
      assert At(s, conn, AtWorker(w));
    }
  }

  lemma PastAfter(c: Config, run: seq<State>, steps: seq<Step>, i: nat, w: nat, conn: nat, ok: bool)
    requires IsRun(c, run, steps) && EndsAuth(run, steps, i, w, conn, ok)
    ensures Past(run[i + 1], conn)
  {
    hide Inv;
    RunPlaces(c, run, steps, i);
    SameWorkers(c, run, steps, i);
    WorkingIsThere(c, run[i], w, conn);
  }

  lemma RunPlaces(c: Config, run: seq<State>, steps: seq<Step>, n: nat)
    requires IsRun(c, run, steps) && n < |run|
    ensures PlacesOk(c, run[n])
  {
    hide IsRun, PlacesOk, CountsOk, ChannelsOk;
    RunKeeps(c, run, steps, n);
  }

  lemma WorkingIsThere(c: Config, s: State, w: nat, conn: nat)
    requires PlacesOk(c, s) && w < |s.workers| && s.workers[w] == Working(conn)
    ensures At(s, conn, AtWorker(w))
  {
    assert WorkerHas(s.workers[w], conn);
  }

  lemma {:induction false} PastForEver(c: Config, run: seq<State>, steps: seq<Step>, i: nat, n: nat, w: nat, conn: nat, ok: bool)
    requires IsRun(c, run, steps) && EndsAuth(run, steps, i, w, conn, ok) && i < n < |run|
    ensures Past(run[n], conn)
    decreases n
  {
    hide IsRun, PlacesOk, Enabled, Apply, Past, EndsAuth;
    if n == i + 1 {
      PastAfter(c, run, steps, i, w, conn, ok);
    } else {
      RunLength(c, run, steps);
      PastForEver(c, run, steps, i, n - 1, w, conn, ok);
      SameWorkers(c, run, steps, n - 1);
      RunPlaces(c, run, steps, n - 1);
      PastKept(c, run[n - 1], steps[n - 1], conn);
    }
  }

  lemma RunLength(c: Config, run: seq<State>, steps: seq<Step>)
    requires IsRun(c, run, steps)
    ensures |run| == |steps| + 1
  {
  }

  /** In every run a connection is authenticated at most once. */
  lemma AuthenticatedOnce(c: Config, run: seq<State>, steps: seq<Step>, i: nat, j: nat, w: nat, v: nat, conn: nat, ok: bool, ok': bool)
    requires IsRun(c, run, steps) && EndsAuth(run, steps, i, w, conn, ok) && EndsAuth(run, steps, j, v, conn, ok')
    ensures i == j && w == v && ok == ok'
  {
    hide IsRun, PlacesOk, Enabled, Apply;
    if i < j {
      PastForEver(c, run, steps, i, j, w, conn, ok);
      RunPlaces(c, run, steps, j);
      WorkingIsThere(c, run[j], v, conn);
    } else if j < i {
      PastForEver(c, run, steps, j, i, v, conn, ok');
      RunPlaces(c, run, steps, i);
      WorkingIsThere(c, run[i], w, conn);
    }
  }

  /** In every run a connection whose authentication failed is never offered and never handed
      over, by any worker, before or after. */
  lemma FailedNeverOffered(c: Config, run: seq<State>, steps: seq<Step>, i: nat, n: nat, w: nat, v: nat, conn: nat)
    requires IsRun(c, run, steps) && EndsAuth(run, steps, i, w, conn, false) && n < |run| && v < |run[n].workers|
    ensures run[n].workers[v] != Offering(conn)
    ensures !HandsOver(run, steps, n, v, conn)
  {
    hide IsRun;
    if run[n].workers[v] == Offering(conn) {
      var j := CarriedWasAuthenticated(c, run, steps, n, v, conn, true);
      AuthenticatedOnce(c, run, steps, i, j, w, v, conn, false, true);
    }
  }

  /** In every run a connection is handed over at most once. */
  lemma HandedOverOnce(c: Config, run: seq<State>, steps: seq<Step>, i: nat, j: nat, w: nat, v: nat, conn: nat)
    requires IsRun(c, run, steps) && i <= j && HandsOver(run, steps, i, w, conn) && HandsOver(run, steps, j, v, conn)
    ensures i == j && w == v
  {
    hide Enabled, Apply, EndsAuth;
    var a := CarriedWasAuthenticated(c, run, steps, i, w, conn, true);
    var b := CarriedWasAuthenticated(c, run, steps, j, v, conn, true);
    AuthenticatedOnce(c, run, steps, a, b, w, v, conn, true, true);
    if i < j {
      SameWorkers(c, run, steps, i);
      HandOverNext(c, run[i], w);
    }
  }

  // ------------------------------------------------------------------- the queue

  /** The connections put into the queue by the first `n` steps, and those taken out. */
  ghost function Queue(run: seq<State>, steps: seq<Step>, n: nat): (conns: seq<nat>)
    requires n <= |run| && n <= |steps|
  {
    if n == 0 then []
    else
      Queue(run, steps, n - 1) +
      if steps[n - 1].Enqueue? && run[n - 1].acceptor.Recorded? then [run[n - 1].acceptor.conn] else []
  }

  ghost function Taken(run: seq<State>, steps: seq<Step>, n: nat): (conns: seq<nat>)
    requires n < |run| && n <= |steps|
  {
    if n == 0 then []
    else
      Taken(run, steps, n - 1) +
      if steps[n - 1].Receive? && steps[n - 1].w < |run[n].workers| && run[n].workers[steps[n - 1].w].Working?
      then [run[n].workers[steps[n - 1].w].conn] else []
  }

  lemma EnqueueNext(c: Config, s: State)
    requires Enabled(c, s, Enqueue)
    ensures s.acceptor.Recorded? && |s.pending| < c.capacity && Apply(c, s, Enqueue).pending == s.pending + [s.acceptor.conn]
  {
    hide Put;
    FreeKeeps(s, s.acceptor.conn, Queued, false);
  }

  lemma ReceiveNext(c: Config, s: State, w: nat)
    requires Enabled(c, s, Receive(w))
    ensures var t := Apply(c, s, Receive(w));
            w < |t.workers| && t.workers[w].Working? && s.pending == [t.workers[w].conn] + t.pending
  {
    hide Put;
    FreeKeeps(s, s.pending[0], AtWorker(w), false);
  }

  lemma QueueLeftAlone(c: Config, s: State, step: Step)
    requires Enabled(c, s, step) && !step.Enqueue? && !step.Receive?
    ensures Apply(c, s, step).pending == s.pending
  {
    hide Free, Put, Reserve;
    match step
    case Acquire => ReserveKeeps(c, s, s.acceptor.conn);
    case CallRelease => FreeKeeps(s, s.acceptor.conn, Elsewhere, s.acceptor.found);
    case WorkerFrees(w) => FreeKeeps(s, s.workers[w].conn, Elsewhere, s.workers[w].found);
    case _ =>
  }

  /** In every run the workers take the connections in the order in which the accept loop
      queued them, and no more are waiting than the queue may hold. */
  lemma {:induction false} QueueIsFifo(c: Config, run: seq<State>, steps: seq<Step>, n: nat)
    requires IsRun(c, run, steps) && n < |run|
    ensures Queue(run, steps, n) == Taken(run, steps, n) + run[n].pending
    ensures |run[n].pending| <= c.capacity
  {
    hide Enabled, Apply;
    if n > 0 {
      var s, step, t := run[n - 1], steps[n - 1], run[n];
      QueueIsFifo(c, run, steps, n - 1);
      SameWorkers(c, run, steps, n - 1);
      if step.Enqueue? {
        EnqueueNext(c, s);
        Regroup(Taken(run, steps, n - 1), s.pending, [s.acceptor.conn]);
      } else if step.Receive? {
        ReceiveNext(c, s, step.w);
        Regroup(Taken(run, steps, n - 1), [t.workers[step.w].conn], t.pending);
      } else {
        QueueLeftAlone(c, s, step);
      }
    }
  }

  lemma Regroup(a: seq<nat>, b: seq<nat>, c: seq<nat>)
    ensures a + b + c == a + (b + c)
  {
  }

  // ------------------------------------------------------------------ the limiter

  /** In every run the limiter refuses a connection if and only if it is due a slot and its
      source already has as many connections with slots as it may. Otherwise the
      connection goes on, with the slot it is due. */
  lemma RefusedIff(c: Config, run: seq<State>, steps: seq<Step>, n: nat)
    requires IsRun(c, run, steps) && n < |steps| && steps[n] == Acquire
    ensures run[n].acceptor.Got?
    ensures var conn, t := run[n].acceptor.conn, run[n + 1];
            var full := Due(c, conn).Held? && |Holders(run[n].conns, Due(c, conn).key)| >= c.max;
            && (t.acceptor == if full then Accepting else Acquired(conn))
            && conn in t.conns && t.conns[conn].slot == (if full then NoSlot else Due(c, conn))
            && (full ==> t.conns[conn].place == Elsewhere)
  {
    hide Enabled, Apply, Holders, PlacesOk, ChannelsOk, Raised;
    RunKeeps(c, run, steps, n);
    SameWorkers(c, run, steps, n);
    GotHasNoSlot(c, run[n]);
    AcquireIsReserve(c, run[n]);
    if c.source(run[n].acceptor.conn).Some? {
      assert Get(run[n].counts, c.source(run[n].acceptor.conn).value) == |Holders(run[n].conns, c.source(run[n].acceptor.conn).value)|;
    }
  }

  // ------------------------------------------------------------------- the ends

  lemma WorkerStaysOut(c: Config, s: State, step: Step, w: nat)
    requires Enabled(c, s, step) && w < |s.workers|
    ensures var t := Apply(c, s, step);
            && |t.workers| == |s.workers|
            && (s.workers[w].Quitting? || s.workers[w].Gone? || step == GiveUp(w) || step == RangeEnds(w) ==>
                  t.workers[w].Quitting? || t.workers[w].Gone?)
  {
    hide Enabled, Apply, WorkerApply, WorkerEnabled;
    WorkersStay(c, s, step, w);
    if WorkerStep(step) && step.w == w {
      ApplyWorkerStep(c, s, step);
      MineOut(s, step);
    }
  }

  lemma MineOut(s: State, step: Step)
    requires WorkerStep(step) && WorkerEnabled(s, step) && |WorkerApply(s, step).workers| == |s.workers|
    ensures var v := WorkerApply(s, step).workers[step.w];
            s.workers[step.w].Quitting? || s.workers[step.w].Gone? || step.GiveUp? || step.RangeEnds? ==> v.Quitting? || v.Gone?
  {
    hide Free, Put;
  }

  /** In every run a worker that gave up an offer, because the listener is done, or found the
      queue closed and empty takes no connection any more. */
  lemma {:induction false} WorkerOutForGood(c: Config, run: seq<State>, steps: seq<Step>, i: nat, n: nat, w: nat)
    requires IsRun(c, run, steps) && i < n < |run| && w < |run[i].workers| && (steps[i] == GiveUp(w) || steps[i] == RangeEnds(w))
    ensures w < |run[n].workers| && (run[n].workers[w].Quitting? || run[n].workers[w].Gone?)
    decreases n
  {
    hide Enabled, Apply;
    SameWorkers(c, run, steps, n - 1);
    if n - 1 > i {
      WorkerOutForGood(c, run, steps, i, n - 1, w);
    }
    WorkerStaysOut(c, run[n - 1], steps[n - 1], w);
  }

  predicate Stopped(a: Acceptor) {
    a.Exiting? || a.Leaving? || a.Exited?
  }

  lemma AcceptorStaysOut(c: Config, s: State, step: Step)
    requires Enabled(c, s, step) && (Stopped(s.acceptor) || step.AcceptFails? || step.StopRetrying?)
    ensures Stopped(Apply(c, s, step).acceptor)
  {
    hide Free, Put, Reserve;
    match step
    case Receive(w) => FreeKeeps(s, s.pending[0], AtWorker(w), false);
    case WorkerFrees(w) => FreeKeeps(s, s.workers[w].conn, Elsewhere, s.workers[w].found);
    case _ =>
  }

  lemma AcceptorMovesOn(c: Config, s: State, step: Step, conn: nat, last: bool)
    requires Enabled(c, s, step)
    requires (s.acceptor.Dropping? || s.acceptor.Releasing?) && s.acceptor.conn == conn && s.acceptor.last == last
    ensures var a := Apply(c, s, step).acceptor;
            if step.CallRelease? then a == (if last then Exiting else Accepting)
            else (a.Dropping? || a.Releasing?) && a.conn == conn && a.last == last
  {
    hide Free, Put, Reserve;
    match step
    case CallRelease => FreeKeeps(s, s.acceptor.conn, Elsewhere, s.acceptor.found);
    case Receive(w) => FreeKeeps(s, s.pending[0], AtWorker(w), false);
    case WorkerFrees(w) => FreeKeeps(s, s.workers[w].conn, Elsewhere, s.workers[w].found);
    case _ =>
  }

  lemma {:induction false} DropsUntilReleased(c: Config, run: seq<State>, steps: seq<Step>, i: nat, n: nat)
    requires IsRun(c, run, steps) && i < n < |run| && (steps[i].SelectDone? || steps[i].SelectDefault?)
    requires forall k :: i < k < n ==> !steps[k].CallRelease?
    ensures run[i].acceptor.Recorded?
    ensures var a := run[n].acceptor;
            (a.Dropping? || a.Releasing?) && a.conn == run[i].acceptor.conn && a.last == steps[i].SelectDone?
    decreases n
  {
    hide Enabled, Apply;
    var last := n - 1;
    SameWorkers(c, run, steps, last);
    if last == i {
      DropBegins(c, run[i], steps[i]);
    } else {
      DropsUntilReleased(c, run, steps, i, last);
      AcceptorMovesOn(c, run[last], steps[last], run[i].acceptor.conn, steps[i].SelectDone?);
    }
  }

  lemma DropBegins(c: Config, s: State, step: Step)
    requires Enabled(c, s, step) && (step.SelectDone? || step.SelectDefault?)
    ensures s.acceptor.Recorded? && Apply(c, s, step).acceptor == Dropping(s.acceptor.conn, step.SelectDone?)
  {
  }

  /** In every run the accept loop ends after the connection that it drops because the
      listener is done, and goes on after one that it drops because the queue is full. */
  lemma DroppedThen(c: Config, run: seq<State>, steps: seq<Step>, i: nat, j: nat)
    requires IsRun(c, run, steps) && i < j < |steps| && (steps[i].SelectDone? || steps[i].SelectDefault?) && steps[j].CallRelease?
    requires forall k :: i < k < j ==> !steps[k].CallRelease?
    ensures run[j + 1].acceptor == if steps[i].SelectDone? then Exiting else Accepting
  {
    hide Enabled, Apply;
    DropsUntilReleased(c, run, steps, i, j);
    SameWorkers(c, run, steps, j);
    AcceptorMovesOn(c, run[j], steps[j], run[i].acceptor.conn, steps[i].SelectDone?);
  }

  /** In every run the accept loop accepts nothing any more once it has stopped. */
  lemma {:induction false} AcceptorOutForGood(c: Config, run: seq<State>, steps: seq<Step>, i: nat, n: nat)
    requires IsRun(c, run, steps) && i < n < |run| && (Stopped(run[i].acceptor) || steps[i].AcceptFails? || steps[i].StopRetrying?)
    ensures Stopped(run[n].acceptor) && (n < |steps| ==> !steps[n].AcceptConn?)
    decreases n
  {
    hide Apply;
    SameWorkers(c, run, steps, n - 1);
    if n - 1 > i {
      AcceptorOutForGood(c, run, steps, i, n - 1);
    }
    AcceptorStaysOut(c, run[n - 1], steps[n - 1]);
  }

  lemma DoneNext(c: Config, s: State, step: Step)
    requires Enabled(c, s, step)
    ensures Apply(c, s, step).done <==> s.done || step.CloseListener? || step.AcceptFails?
  {
    hide Free, Put, Reserve;
    match step
    case Acquire => ReserveKeeps(c, s, s.acceptor.conn);
    case Enqueue => FreeKeeps(s, s.acceptor.conn, Queued, false);
    case CallRelease => FreeKeeps(s, s.acceptor.conn, Elsewhere, s.acceptor.found);
    case Receive(w) => FreeKeeps(s, s.pending[0], AtWorker(w), false);
    case WorkerFrees(w) => FreeKeeps(s, s.workers[w].conn, Elsewhere, s.workers[w].found);
    case _ =>
  }

  /** In every run the listener is done exactly when it was closed or the inner listener
      failed for good. */
  lemma {:induction false} DoneIff(c: Config, run: seq<State>, steps: seq<Step>, n: nat)
    requires IsRun(c, run, steps) && n < |run|
    ensures run[n].done <==> exists i :: 0 <= i < n && (steps[i].CloseListener? || steps[i].AcceptFails?)
  {
    hide Enabled, Apply;
    if n > 0 {
      DoneIff(c, run, steps, n - 1);
      SameWorkers(c, run, steps, n - 1);
      DoneNext(c, run[n - 1], steps[n - 1]);
    }
  }
}
