/**
 A set of timers that can be stopped together. Goroutines that register timers, run
 callbacks and stop the set interleave in any order; what one of them does while it
 holds the lock is one step.
 */
module Timerset {
  import opened Wrappers

  /** Where a timer is in its life. */
  datatype Phase =
    | Adding      // counted, not yet in the set
    | Armed       // waiting for its time
    | Fired       // callback started, not yet out of the set
    | Running     // user function running
    | Returned    // user function finished, not yet counted off
    | Finished    // counted off after its callback
    | Stopped     // stopped before its time, not yet counted off
    | Cancelled   // counted off without a callback

  /** Where a call that stops the set is. `before` are the timers registered when it began. */
  datatype Stop =
    | Visiting(batch: set<nat>, stopped: Option<nat>, before: set<nat>)
    | Waiting(before: set<nat>)
    | Ended(before: set<nat>)

  datatype State = State(timers: map<nat, Phase>, registered: set<nat>, wait: int, stops: map<nat, Stop>)

  const START: State := State(map[], {}, 0, map[])

  datatype Step =
    | Count(id: nat)
    | Register(id: nat)
    | Fire(id: nat)
    | Unregister(id: nat)
    | FunctionEnds(id: nat)
    | CallbackDone(id: nat)
    | TakeAll(call: nat)
    | TryStop(call: nat, id: nat)
    | StopDone(call: nat)
    | BeginWait(call: nat)
    | WaitEnds(call: nat)

  predicate Resolved(p: Phase) {
    p == Finished || p == Cancelled
  }

  predicate In(s: State, id: nat, p: Phase) {
    id in s.timers && s.timers[id] == p
  }

  predicate Enabled(s: State, step: Step) {
    match step
    case Count(id) => id !in s.timers
    case Register(id) => In(s, id, Adding)
    case Fire(id) => In(s, id, Armed)
    case Unregister(id) => In(s, id, Fired)
    case FunctionEnds(id) => In(s, id, Running)
    case CallbackDone(id) => In(s, id, Returned)
    case TakeAll(call) => call !in s.stops
    case TryStop(call, id) => call in s.stops && s.stops[call].Visiting? && s.stops[call].stopped == None && id in s.stops[call].batch
    case StopDone(call) => call in s.stops && s.stops[call].Visiting? && s.stops[call].stopped.Some?
    case BeginWait(call) => call in s.stops && s.stops[call].Visiting? && s.stops[call].stopped == None && s.stops[call].batch == {}
    case WaitEnds(call) => call in s.stops && s.stops[call].Waiting? && s.wait == 0
  }

  function Moved(s: State, id: nat, p: Phase): (r: State) {
    s.(timers := s.timers[id := p])
  }

  function Apply(s: State, step: Step): (r: State)
    requires Enabled(s, step)
  {
    match step
    case Count(id) => Moved(s, id, Adding).(wait := s.wait + 1)
    case Register(id) => Moved(s, id, Armed).(registered := s.registered + {id})
    case Fire(id) => Moved(s, id, Fired)
    case Unregister(id) => Moved(s, id, Running).(registered := s.registered - {id})
    case FunctionEnds(id) => Moved(s, id, Returned)
    case CallbackDone(id) => Moved(s, id, Finished).(wait := s.wait - 1)
    case TakeAll(call) =>
      var before := set id | id in s.timers && s.timers[id] != Adding;
      s.(registered := {}, stops := s.stops[call := Visiting(s.registered, None, before)])
    case TryStop(call, id) =>
      var c := s.stops[call];
      var rest := c.(batch := c.batch - {id});
      if In(s, id, Armed) then Moved(s, id, Stopped).(stops := s.stops[call := rest.(stopped := Some(id))])
      else s.(stops := s.stops[call := rest])
    case StopDone(call) =>
      var id := s.stops[call].stopped.value;
      var visited := s.(stops := s.stops[call := s.stops[call].(stopped := None)]);
      // The entry counts itself off at most once.
      if In(s, id, Stopped) then Moved(visited, id, Cancelled).(wait := s.wait - 1) else visited
    case BeginWait(call) => s.(stops := s.stops[call := Waiting(s.stops[call].before)])
    case WaitEnds(call) => s.(stops := s.stops[call := Ended(s.stops[call].before)])
  }

  // --------------------------------------------------------------------- invariant

  ghost function Unresolved(timers: map<nat, Phase>): (r: set<nat>) {
    set id | id in timers && !Resolved(timers[id])
  }

  ghost predicate StopOk(s: State, c: Stop) {
    && (forall id :: id in c.before ==> id in s.timers)
    && (c.Visiting? && c.stopped.Some? ==> c.stopped.value in s.timers && s.timers[c.stopped.value] in {Stopped, Cancelled})
    && (c.Ended? ==> forall id :: id in c.before ==> id in s.timers && Resolved(s.timers[id]))
  }

  /** Some call that is stopping the set will count a stopped timer off. */
  ghost predicate HasStopper(s: State, id: nat) {
    exists call :: call in s.stops && s.stops[call].Visiting? && s.stops[call].stopped == Some(id)
  }

  /** The wait count is the number of unresolved timers, and a call that has ended leaves
      none of the earlier timers unresolved. */
  ghost predicate Inv(s: State) {
    && s.wait == |Unresolved(s.timers)|
    && (forall call :: call in s.stops ==> StopOk(s, s.stops[call]))
    && (forall id :: In(s, id, Stopped) ==> HasStopper(s, id))
  }

  lemma UnresolvedMoved(timers: map<nat, Phase>, id: nat, p: Phase)
    ensures |Unresolved(timers[id := p])| == |Unresolved(timers)|
              + (if Resolved(p) then 0 else 1) - (if id in timers && !Resolved(timers[id]) then 1 else 0)
  {
    var u, v := Unresolved(timers), Unresolved(timers[id := p]);
    assert v == if Resolved(p) then u - {id} else u + {id};
  }

  lemma StopsStayOk(s: State, id: nat, p: Phase, c: Stop)
    requires StopOk(s, c)
    requires id in s.timers ==> !Resolved(s.timers[id]) && (s.timers[id] == Stopped ==> p in {Stopped, Cancelled})
    ensures StopOk(Moved(s, id, p), c)
  {
  }

  /** Steps of a timer's own goroutines. */
  lemma TimerStepKeeps(s: State, step: Step)
    requires Inv(s) && Enabled(s, step)
    requires step.Count? || step.Register? || step.Fire? || step.Unregister? || step.FunctionEnds? || step.CallbackDone?
    ensures Inv(Apply(s, step))
  {
    hide StopOk, Unresolved;
    var t := Apply(s, step);
    var p := t.timers[step.id];
    UnresolvedMoved(s.timers, step.id, p);
    forall call | call in s.stops ensures StopOk(t, s.stops[call]) {
      StopsStayOk(s, step.id, p, s.stops[call]);
      SameTimers(Moved(s, step.id, p), t, s.stops[call]);
    }
    forall id | In(t, id, Stopped) ensures HasStopper(t, id) {
      assert In(s, id, Stopped);
    }
  }

  lemma SameTimers(s: State, t: State, c: Stop)
    requires StopOk(s, c) && s.timers == t.timers
    ensures StopOk(t, c)
  {
  }

  lemma TryStopKeeps(s: State, call: nat, id: nat)
    requires Inv(s) && Enabled(s, TryStop(call, id))
    ensures Inv(Apply(s, TryStop(call, id)))
  {
    hide Unresolved;
    var t := Apply(s, TryStop(call, id));
    assert StopOk(s, s.stops[call]);
    if In(s, id, Armed) {
      UnresolvedMoved(s.timers, id, Stopped);
    }
    forall k | k in t.stops ensures StopOk(t, t.stops[k]) {
      assert StopOk(s, s.stops[k]);
    }
    forall x: nat | In(t, x, Stopped) ensures HasStopper(t, x) {
      if x == id && In(s, id, Armed) {
        assert t.stops[call].stopped == Some(x);
      } else {
        assert In(s, x, Stopped);
        var k :| k in s.stops && s.stops[k].Visiting? && s.stops[k].stopped == Some(x);
        assert t.stops[k].stopped == Some(x);
      }
    }
  }

  lemma StopDoneKeeps(s: State, call: nat)
    requires Inv(s) && Enabled(s, StopDone(call))
    ensures Inv(Apply(s, StopDone(call)))
  {
    hide Unresolved;
    var t, id := Apply(s, StopDone(call)), s.stops[call].stopped.value;
    assert StopOk(s, s.stops[call]);
    UnresolvedMoved(s.timers, id, Cancelled);
    forall k | k in t.stops ensures StopOk(t, t.stops[k]) {
      assert StopOk(s, s.stops[k]);
    }
    forall x: nat | In(t, x, Stopped) ensures HasStopper(t, x) {
      assert In(s, x, Stopped) && x != id;
      var k :| k in s.stops && s.stops[k].Visiting? && s.stops[k].stopped == Some(x);
      assert t.stops[k].stopped == Some(x);
    }
  }

  lemma NoneUnresolved(timers: map<nat, Phase>, id: nat)
    requires |Unresolved(timers)| == 0 && id in timers
    ensures Resolved(timers[id])
  {
    assert id !in Unresolved(timers);
  }

  lemma CallStepKeeps(s: State, step: Step)
    requires Inv(s) && Enabled(s, step) && (step.TakeAll? || step.BeginWait? || step.WaitEnds?)
    ensures Inv(Apply(s, step))
  {
    hide Unresolved;
    var t := Apply(s, step);
    forall k | k in t.stops ensures StopOk(t, t.stops[k]) {
      assert k in s.stops ==> StopOk(s, s.stops[k]);
      if step == WaitEnds(k) {
        forall id | id in t.stops[k].before ensures Resolved(t.timers[id]) {
          NoneUnresolved(s.timers, id);
        }
      }
    }
    forall x: nat | In(t, x, Stopped) ensures HasStopper(t, x) {
      assert In(s, x, Stopped);
      var k :| k in s.stops && s.stops[k].Visiting? && s.stops[k].stopped == Some(x);
      assert t.stops[k].stopped == Some(x);
    }
  }

  lemma StepKeeps(s: State, step: Step)
    requires Inv(s) && Enabled(s, step)
    ensures Inv(Apply(s, step))
  {
    hide Inv, Enabled, Apply;
    match step
    case TryStop(call, id) => TryStopKeeps(s, call, id);
    case StopDone(call) => StopDoneKeeps(s, call);
    case TakeAll(_) => CallStepKeeps(s, step);
    case BeginWait(_) => CallStepKeeps(s, step);
    case WaitEnds(_) => CallStepKeeps(s, step);
    case _ => TimerStepKeeps(s, step);
  }

  // -------------------------------------------------------------------------- runs

  /** The states of a run: each follows from the one before by a step that was possible. */
  ghost predicate IsRun(run: seq<State>, steps: seq<Step>) {
    && |run| == |steps| + 1 && run[0] == START
    && forall i :: 0 <= i < |steps| ==> Enabled(run[i], steps[i]) && run[i + 1] == Apply(run[i], steps[i])
  }

  lemma {:induction false} RunKeeps(run: seq<State>, steps: seq<Step>, n: nat)
    requires IsRun(run, steps) && n < |run|
    ensures Inv(run[n])
  {
    if n == 0 {
      assert Unresolved(START.timers) == {};
    } else {
      RunKeeps(run, steps, n - 1);
      StepKeeps(run[n - 1], steps[n - 1]);
    }
  }

  /** In every run the wait count is the number of unresolved timers. */
  lemma WaitCounts(run: seq<State>, steps: seq<Step>, n: nat)
    requires IsRun(run, steps) && n < |run|
    ensures run[n].wait == |Unresolved(run[n].timers)|
  {
    RunKeeps(run, steps, n);
  }

  /** In every run, once a call that stops the set has ended, each timer registered before
      it began was cancelled or its callback has finished, and stays so. */
  lemma NothingAfterStop(run: seq<State>, steps: seq<Step>, n: nat, call: nat, id: nat)
    requires IsRun(run, steps) && n < |run|
    requires call in run[n].stops && run[n].stops[call].Ended? && id in run[n].stops[call].before
    ensures id in run[n].timers && Resolved(run[n].timers[id])
  {
    RunKeeps(run, steps, n);
    assert StopOk(run[n], run[n].stops[call]);
  }

  /** The timers a call answers for are all those registered when it began. */
  lemma {:induction false} BeforeIsAll(run: seq<State>, steps: seq<Step>, i: nat, n: nat, call: nat)
    requires IsRun(run, steps) && i < n < |run| && steps[i] == TakeAll(call)
    ensures call in run[n].stops
    ensures forall id :: id in run[n].stops[call].before <==> id in run[i].timers && run[i].timers[id] != Adding
  {
    if n == i + 1 {
    } else {
      BeforeIsAll(run, steps, i, n - 1, call);
    }
  }

  /** Waiting never hangs for want of a step: every unresolved timer can move on. */
  lemma UnresolvedMovesOn(run: seq<State>, steps: seq<Step>, n: nat, id: nat)
    requires IsRun(run, steps) && n < |run| && id in Unresolved(run[n].timers)
    ensures Enabled(run[n], Register(id)) || Enabled(run[n], Fire(id)) || Enabled(run[n], Unregister(id))
            || Enabled(run[n], FunctionEnds(id)) || Enabled(run[n], CallbackDone(id))
            || exists call :: Enabled(run[n], StopDone(call)) && run[n].stops[call].stopped == Some(id)
  {
    RunKeeps(run, steps, n);
    var s := run[n];
    if In(s, id, Stopped) {
      var call :| call in s.stops && s.stops[call].Visiting? && s.stops[call].stopped == Some(id);
      assert Enabled(s, StopDone(call));
    }
  }

  // ---------------------------------------------------------- what stopping does

  /** Some call has taken the timer and not yet looked at it. */
  ghost predicate Taken(s: State, id: nat, call: nat) {
    call in s.stops && s.stops[call].Visiting? && id in s.stops[call].batch
  }

  /** Every armed timer can be found: it is in the set, or a call has yet to look at it. */
  ghost predicate ArmedFound(s: State) {
    forall id :: In(s, id, Armed) ==> id in s.registered || exists call :: Taken(s, id, call)
  }

  lemma ArmedFoundKept(s: State, step: Step)
    requires ArmedFound(s) && Enabled(s, step)
    ensures ArmedFound(Apply(s, step))
  {
    var t := Apply(s, step);
    forall id: nat | In(t, id, Armed) ensures id in t.registered || exists call :: Taken(t, id, call) {
      if id in s.registered {
        if step.TakeAll? {
          assert Taken(t, id, step.call);
        }
      } else if In(s, id, Armed) {
        var call :| Taken(s, id, call);
        assert Taken(t, id, call);
      }
    }
  }

  lemma {:induction false} RunFinds(run: seq<State>, steps: seq<Step>, n: nat)
    requires IsRun(run, steps) && n < |run|
    ensures ArmedFound(run[n])
  {
    hide Enabled, Apply, ArmedFound;
    if n == 0 {
      NothingArmedAtStart();
    } else {
      RunFinds(run, steps, n - 1);
      ArmedFoundKept(run[n - 1], steps[n - 1]);
    }
  }

  lemma NothingArmedAtStart()
    ensures ArmedFound(START)
  {
  }

  lemma VisitKept(s: State, step: Step, call: nat, id: nat)
    requires Enabled(s, step) && call in s.stops && id in s.timers && s.timers[id] != Adding
    requires s.timers[id] != Armed || (s.stops[call].Visiting? && id in s.stops[call].batch)
    ensures var t := Apply(s, step);
            && call in t.stops && id in t.timers && t.timers[id] != Adding
            && (t.timers[id] != Armed || (t.stops[call].Visiting? && id in t.stops[call].batch))
  {
  }

  lemma {:induction false} VisitsAll(run: seq<State>, steps: seq<Step>, i: nat, n: nat, call: nat, id: nat)
    requires IsRun(run, steps) && i < n < |run| && steps[i] == TakeAll(call) && id in run[i].registered
    requires id in run[i].timers && run[i].timers[id] != Adding
    ensures call in run[n].stops && id in run[n].timers && run[n].timers[id] != Adding
    ensures run[n].timers[id] != Armed || (run[n].stops[call].Visiting? && id in run[n].stops[call].batch)
    decreases n
  {
    hide Enabled;
    if n - 1 > i {
      hide Apply;
      VisitsAll(run, steps, i, n - 1, call, id);
      VisitKept(run[n - 1], steps[n - 1], call, id);
    }
  }

  /** In every run, when a call that stops the set waits, none of the timers registered
      before it began is still waiting for its time, unless another call has taken it and
      has yet to look at it. */
  lemma NoneLeftArmed(run: seq<State>, steps: seq<Step>, i: nat, n: nat, call: nat, id: nat)
    requires IsRun(run, steps) && i < n < |run| && steps[i] == TakeAll(call)
    requires id in run[i].timers && run[i].timers[id] != Adding
    requires call in run[n].stops && !run[n].stops[call].Visiting?
    ensures id in run[n].timers
    ensures run[n].timers[id] == Armed ==> id !in run[i].registered && exists other :: other != call && Taken(run[n], id, other)
  {
    hide Enabled, Apply;
    TimersStay(run, steps, i, n, id);
    if id in run[i].registered {
      VisitsAll(run, steps, i, n, call, id);
    } else {
      RunFinds(run, steps, n);
      NotRegisteredAgain(run, steps, i, n, id);
    }
  }

  lemma {:induction false} TimersStay(run: seq<State>, steps: seq<Step>, i: nat, n: nat, id: nat)
    requires IsRun(run, steps) && i <= n < |run| && id in run[i].timers && run[i].timers[id] != Adding
    ensures id in run[n].timers && run[n].timers[id] != Adding
    decreases n
  {
    if i < n {
      TimersStay(run, steps, i, n - 1, id);
    }
  }

  lemma {:induction false} NotRegisteredAgain(run: seq<State>, steps: seq<Step>, i: nat, n: nat, id: nat)
    requires IsRun(run, steps) && i <= n < |run| && id in run[i].timers && run[i].timers[id] != Adding && id !in run[i].registered
    ensures id !in run[n].registered
    decreases n
  {
    if i < n {
      NotRegisteredAgain(run, steps, i, n - 1, id);
      TimersStay(run, steps, i, n - 1, id);
    }
  }

  /** Step `i` put the timer into the set, and no step since took it out. */
  ghost predicate PutIn(steps: seq<Step>, i: nat, n: nat, id: nat) {
    && i < n <= |steps| && steps[i] == Register(id)
    && forall k: nat :: i < k < n ==> steps[k] != Unregister(id) && !steps[k].TakeAll?
  }

  lemma RegisteredNext(s: State, step: Step, id: nat)
    requires Enabled(s, step)
    ensures id in Apply(s, step).registered <==>
            step == Register(id) || (id in s.registered && step != Unregister(id) && !step.TakeAll?)
  {
  }

  /** In every run the set holds exactly the timers that were registered and whose callback
      has not started since, and that no call took. */
  lemma {:induction false} RegisteredIff(run: seq<State>, steps: seq<Step>, n: nat, id: nat)
    requires IsRun(run, steps) && n < |run|
    ensures id in run[n].registered <==> exists i: nat :: PutIn(steps, i, n, id)
  {
    hide Enabled, Apply;
    if n > 0 {
      var last := n - 1;
      RegisteredIff(run, steps, last, id);
      RegisteredNext(run[last], steps[last], id);
      if steps[last] == Register(id) {
        assert PutIn(steps, last, n, id);
      } else if steps[last] != Unregister(id) && !steps[last].TakeAll? {
        assert forall i: nat :: PutIn(steps, i, n, id) <==> PutIn(steps, i, last, id);
      }
    }
  }

  /** No timer is in the set and taken, or taken by two calls. */
  ghost predicate Apart(s: State) {
    && (forall id :: id in s.registered ==> id in s.timers && (s.timers[id] == Armed || s.timers[id] == Fired))
    && (forall id, call :: Taken(s, id, call) ==> id in s.timers && s.timers[id] != Adding && id !in s.registered)
    && (forall id, call, other :: Taken(s, id, call) && Taken(s, id, other) ==> call == other)
  }

  lemma ApartKept(s: State, step: Step)
    requires Apart(s) && Enabled(s, step)
    ensures Apart(Apply(s, step))
  {
    var t := Apply(s, step);
    assert step.TryStop? ==> Taken(s, step.id, step.call);
    forall id, call | Taken(t, id, call)
      ensures Taken(s, id, call) || (step == TakeAll(call) && id in s.registered)
    {
    }
  }

  /** In every run at most one call gets to stop a timer. */
  lemma {:induction false} TakenOnce(run: seq<State>, steps: seq<Step>, n: nat)
    requires IsRun(run, steps) && n < |run|
    ensures Apart(run[n])
  {
    hide Enabled, Apply, Apart;
    if n == 0 {
      NoneTakenAtStart();
    } else {
      TakenOnce(run, steps, n - 1);
      ApartKept(run[n - 1], steps[n - 1]);
    }
  }

  lemma NoneTakenAtStart()
    ensures Apart(START)
  {
  }

  // ------------------------------------------------------- callbacks, at most once

  predicate CalledBack(p: Phase) {
    p == Fired || p == Running || p == Returned || p == Finished
  }

  lemma CalledBackStays(s: State, step: Step, id: nat)
    requires Enabled(s, step) && id in s.timers
    ensures id in Apply(s, step).timers
    ensures CalledBack(Apply(s, step).timers[id]) <==> CalledBack(s.timers[id]) || step == Fire(id)
    ensures step == Fire(id) ==> !CalledBack(s.timers[id])
  {
  }

  /** In every run the callback of a timer started exactly if a step fired it, and no timer
      fires twice. So a cancelled timer never ran, and a finished one ran once. */
  lemma {:induction false} CalledBackIff(run: seq<State>, steps: seq<Step>, n: nat, id: nat)
    requires IsRun(run, steps) && n < |run| && id in run[n].timers
    ensures CalledBack(run[n].timers[id]) <==> exists i :: 0 <= i < n && steps[i] == Fire(id)
    ensures forall i, j :: 0 <= i < j < n && steps[i] == Fire(id) ==> steps[j] != Fire(id)
  {
    hide Enabled, Apply;
    if n > 0 {
      var last := n - 1;
      if id in run[last].timers {
        CalledBackIff(run, steps, last, id);
        CalledBackStays(run[last], steps[last], id);
      } else {
        NotFiredBefore(run, steps, last, id);
        CountedFirst(run[last], steps[last], id);
      }
    }
  }

  lemma CountedFirst(s: State, step: Step, id: nat)
    requires Enabled(s, step) && id !in s.timers
    ensures step != Fire(id)
    ensures id in Apply(s, step).timers ==> Apply(s, step).timers[id] == Adding
  {
  }

  lemma {:induction false} NotFiredBefore(run: seq<State>, steps: seq<Step>, n: nat, id: nat)
    requires IsRun(run, steps) && n < |run| && id !in run[n].timers
    ensures forall i :: 0 <= i < n ==> steps[i] != Fire(id)
  {
    if n > 0 {
      if id !in run[n - 1].timers {
        NotFiredBefore(run, steps, n - 1, id);
      }
    }
  }
}
