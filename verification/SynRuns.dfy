/**
 SYN sequences over whole runs, from the packets: which packets complete a sequence, and
 which start one.
 */
module SynRuns {
  import opened Inflight
  import opened Replay
  import opened SynParts
  import opened SynTracker
  import opened Text

  // ------------------------------------------------------------------ the chain

  /** How many parts it takes. */
  function Needed(o: SequenceOptions): (n: nat) {
    if o.length == 1 then 1 else if o.length < 2 then 2 else o.length
  }

  /** Packet `i` is part `x` of `m`, from address `ip`. */
  ghost predicate PartAt(w: Setting, ps: seq<Packet>, i: nat, ip: string, x: nat, m: Match) {
    i < |ps| && ps[i].ip == ip && IsPartOf(w.l, w.o, ps[i], x, m)
  }

  /** The steps are parts 0, 1, 2, ... of `m` from one address, each the first of its kind
      after the one before, all within the window of the first. */
  ghost predicate Chain(w: Setting, ps: seq<Packet>, at: seq<nat>, m: Match) {
    && |at| >= 1
    && (forall x :: 0 <= x < |at| ==> at[x] < |ps|)
    && (forall x :: 0 <= x < |at| ==> PartAt(w, ps, at[x], ps[at[0]].ip, x, m))
    && (forall x :: 0 < x < |at| ==> at[x - 1] < at[x])
    && (forall x, i :: 0 < x < |at| && at[x - 1] < i < at[x] ==> !PartAt(w, ps, i, ps[at[0]].ip, x, m))
    && (forall x :: 0 < x < |at| ==> ps[at[x]].now - ps[at[0]].now <= w.o.window)
  }

  /** The chain begins with a packet that was let in as a start. */
  ghost predicate Started(w: Setting, h: seq<Moment>, ps: seq<Packet>, at: seq<nat>, m: Match) {
    Chain(w, ps, at, m) && at[0] < |h| && Starting(w, h[at[0]], ps[at[0]], m)
  }

  /** The next part has not arrived between the last step of the chain and step `n`. */
  ghost predicate Awaits(w: Setting, ps: seq<Packet>, at: seq<nat>, n: nat, m: Match)
    requires Chain(w, ps, at, m)
  {
    forall i :: at[|at| - 1] < i < n ==> !PartAt(w, ps, i, ps[at[0]].ip, |at|, m)
  }

  /** A stored state is a chain: it holds the number of its parts, and when it began. */
  ghost predicate Stands(w: Setting, h: seq<Moment>, ps: seq<Packet>, n: nat, k: string, st: State, at: seq<nat>) {
    && Started(w, h, ps, at, st.Pair())
    && at[|at| - 1] < n && Awaits(w, ps, at, n, st.Pair())
    && st.matched == |at| < Needed(w.o) && st.firstSeen == ps[at[0]].now
    && k == StateKey(ps[at[0]].ip, st.clientID, st.slot)
  }

  // ----------------------------------------------------------------- one step on

  /** The state under `k` is left as it is. */
  ghost predicate Stays(w: Setting, s: Moment, p: Packet, s': Moment, k: string) {
    var live := Remaining(w, s, p);
    k in live && k in s'.states && !Hit(w.l, w.o, live, p, k) && s'.states[k] == live[k]
  }

  /** The packet is counted as the next part, and is not the last. */
  ghost predicate Advances(w: Setting, s: Moment, p: Packet, s': Moment, k: string) {
    var live := Remaining(w, s, p);
    && Hit(w.l, w.o, live, p, k) && live[k].matched + 1 < w.o.length
    && k in s'.states && s'.states[k] == live[k].(matched := live[k].matched + 1, lastSeen := p.now)
  }

  /** The packet starts `m` under `k`. */
  ghost predicate Begins(w: Setting, s: Moment, p: Packet, s': Moment, k: string, m: Match) {
    && Starting(w, s, p, m) && w.o.length != 1 && k == StateKey(p.ip, m.clientID, m.slot)
    && k in s'.states && s'.states[k] == State(p.now, p.now, 1, m.clientID, m.slot)
  }

  /** Where a stored state comes from. */
  lemma StepState(w: Setting, s: Moment, p: Packet, s': Moment, a: Answer, k: string)
    requires Step(w, s, p, s', a) && k in s'.states
    ensures Stays(w, s, p, s', k) || Advances(w, s, p, s', k) || exists m :: Begins(w, s, p, s', k, m)
  {
    hide Pruned, Recognised, MayStart, StateKey;
    var live := Remaining(w, s, p);
    if j :| Hit(w.l, w.o, live, p, j) {
      assert Result(s'.states, a.complete, a.client) == AdvanceResult(w.o, live, j, p.now);
      OtherHitToo(w, s, p, s', a, j, k);
    } else if m :| IsPartOf(w.l, w.o, p, 0, m) {
      assert Result(s'.states, a.complete, a.client) == StartResult(w.l, w.o, live, s.marks, w.limit, p, m);
      assert Starting(w, s, p, m) <==> MayStart(w.l, w.o, live, s.marks, w.limit, p, m);
      assert k !in live || s'.states[k] != live[k] ==> Begins(w, s, p, s', k, m);
    }
  }

  /** Every hit gives the same result. */
  lemma OtherHitToo(w: Setting, s: Moment, p: Packet, s': Moment, a: Answer, j: string, k: string)
    requires Step(w, s, p, s', a) && Hit(w.l, w.o, Remaining(w, s, p), p, j) && k in s'.states
    ensures Stays(w, s, p, s', k) || Advances(w, s, p, s', k)
  {
    hide Pruned, Recognised;
    var live := Remaining(w, s, p);
    assert Result(s'.states, a.complete, a.client) == AdvanceResult(w.o, live, j, p.now);
    if Hit(w.l, w.o, live, p, k) {
      assert Result(s'.states, a.complete, a.client) == AdvanceResult(w.o, live, k, p.now);
    }
  }

  lemma LiveIs(w: Setting, s: Moment, p: Packet, k: string)
    ensures k in Remaining(w, s, p) <==> k in s.states && p.now - s.states[k].firstSeen <= w.o.window
    ensures k in Remaining(w, s, p) ==> Remaining(w, s, p)[k] == s.states[k]
  {
  }

  lemma ChainGrows(w: Setting, ps: seq<Packet>, at: seq<nat>, n: nat, m: Match)
    requires Chain(w, ps, at, m) && at[|at| - 1] < n < |ps| && Awaits(w, ps, at, n, m)
    requires PartAt(w, ps, n, ps[at[0]].ip, |at|, m) && ps[n].now - ps[at[0]].now <= w.o.window
    ensures Chain(w, ps, at + [n], m) && Awaits(w, ps, at + [n], n + 1, m)
  {
    hide PartAt;
    var all := at + [n];
    forall x, i | 0 < x < |all| && all[x - 1] < i < all[x] ensures !PartAt(w, ps, i, ps[all[0]].ip, x, m) {
      assert x < |at| ==> all[x] == at[x] && all[x - 1] == at[x - 1];
    }
  }

  lemma ChainBegins(w: Setting, ps: seq<Packet>, n: nat, m: Match)
    requires n < |ps| && IsPartOf(w.l, w.o, ps[n], 0, m)
    ensures Chain(w, ps, [n], m) && Awaits(w, ps, [n], n + 1, m)
  {
    hide IsPartOf;
  }

  /** The packet is the part that the state of a chain waits for. */
  lemma HitIsNext(w: Setting, h: seq<Moment>, ps: seq<Packet>, n: nat, k: string, live: States, at: seq<nat>)
    requires n < |ps| && k in live && Stands(w, h, ps, n, k, live[k], at) && NoNul(ps[at[0]].ip)
    ensures Hit(w.l, w.o, live, ps[n], k) <==> PartAt(w, ps, n, ps[at[0]].ip, |at|, live[k].Pair())
  {
    hide IsPartOf, StateKey;
    PrefixIsAddress(ps[at[0]].ip, live[k].clientID, live[k].slot, ps[at[0]].ip);
  }

  // --------------------------------------------------------- states are chains

  lemma AddressPlain(w: Setting, h: seq<Moment>, ps: seq<Packet>, answers: seq<Answer>, i: nat)
    requires Run(w, h, ps, answers) && i < |ps|
    ensures NoNul(ps[i].ip)
  {
  }

  lemma ChainHasFirst(w: Setting, ps: seq<Packet>, at: seq<nat>, m: Match)
    requires Chain(w, ps, at, m)
    ensures |at| >= 1 && at[0] < |ps|
  {
  }

  /** In every run a stored state is a chain of its parts, begun by a start. */
  lemma {:induction false} StateIsChain(w: Setting, h: seq<Moment>, ps: seq<Packet>, answers: seq<Answer>, n: nat, k: string)
    returns (at: seq<nat>)
    requires Sufficient(w) && Run(w, h, ps, answers) && n <= |ps| && k in h[n].states
    ensures Stands(w, h, ps, n, k, h[n].states[k], at)
  {
    hide Sufficient, Step, Starting, Hit, Arrives, Chain, Awaits, IsPartOf, StateKey, Pruned;
    var i := n - 1;
    var live := Remaining(w, h[i], ps[i]);
    StepState(w, h[i], ps[i], h[n], answers[i], k);
    LiveIs(w, h[i], ps[i], k);
    if m :| Begins(w, h[i], ps[i], h[n], k, m) {
      at := [i];
      BeginsAt(w, h, ps, i, k, h[n].states[k], m);
    } else {
      HitIsStored(w, h[i], ps[i], k);
      var before := StateIsChain(w, h, ps, answers, i, k);
      ChainHasFirst(w, ps, before, h[i].states[k].Pair());
      AddressPlain(w, h, ps, answers, before[0]);
      HitIsNext(w, h, ps, i, k, live, before);
      at := OneOn(w, h, ps, i, k, h[i].states[k], h[n].states[k], before, Hit(w.l, w.o, live, ps[i], k));
    }
  }

  lemma HitIsStored(w: Setting, s: Moment, p: Packet, k: string)
    ensures Hit(w.l, w.o, Remaining(w, s, p), p, k) ==> k in Remaining(w, s, p)
  {
    hide Pruned, IsPartOf;
  }

  lemma OneOn(w: Setting, h: seq<Moment>, ps: seq<Packet>, i: nat, k: string, st: State, st': State, at: seq<nat>, hit: bool)
    returns (at': seq<nat>)
    requires i < |ps| && Stands(w, h, ps, i, k, st, at) && ps[i].now - st.firstSeen <= w.o.window
    requires hit <==> PartAt(w, ps, i, ps[at[0]].ip, |at|, st.Pair())
    requires if hit then st.matched + 1 < w.o.length && st' == st.(matched := st.matched + 1, lastSeen := ps[i].now) else st' == st
    ensures Stands(w, h, ps, i + 1, k, st', at')
  {
    hide PartAt, StateKey, Starting;
    if hit {
      at' := at + [i];
      ChainGrows(w, ps, at, i, st.Pair());
    } else {
      at' := at;
      assert Awaits(w, ps, at, i + 1, st.Pair());
    }
  }

  lemma BeginsAt(w: Setting, h: seq<Moment>, ps: seq<Packet>, i: nat, k: string, st: State, m: Match)
    requires i < |ps| && i < |h| && Starting(w, h[i], ps[i], m) && w.o.length != 1
    requires k == StateKey(ps[i].ip, m.clientID, m.slot) && st == State(ps[i].now, ps[i].now, 1, m.clientID, m.slot)
    ensures Stands(w, h, ps, i + 1, k, st, [i])
  {
    hide StateKey, Pruned, Hit, Recognised, MayStart;
    ChainBegins(w, ps, i, m);
    assert st.Pair() == m;
  }

  // --------------------------------------------------------- completion, only if

  /** In every run, what completes is a whole chain: all its parts arrived, in order, from
      one address, within the window of a start. */
  lemma CompletionIsChain(w: Setting, h: seq<Moment>, ps: seq<Packet>, answers: seq<Answer>, j: nat, m: Match) returns (at: seq<nat>)
    requires Sufficient(w) && Run(w, h, ps, answers) && j < |ps| && Completing(w, h[j], ps[j], m)
    ensures Started(w, h, ps, at, m) && |at| == Needed(w.o) && at[|at| - 1] == j
  {
    hide Sufficient, Step, Starting, Arrives, Awaits, StateKey, Pruned, Recognised;
    if k :| Finishes(w, h[j], ps[j], k, m) {
      var live := Remaining(w, h[j], ps[j]);
      LiveIs(w, h[j], ps[j], k);
      var before := StateIsChain(w, h, ps, answers, j, k);
      AddressPlain(w, h, ps, answers, before[0]);
      HitIsNext(w, h, ps, j, k, live, before);
      ChainGrows(w, ps, before, j, m);
      at := before + [j];
    } else {
      at := [j];
      StartIsPart(w, h[j], ps[j], m);
      ChainBegins(w, ps, j, m);
    }
  }

  lemma StartIsPart(w: Setting, s: Moment, p: Packet, m: Match)
    requires Starting(w, s, p, m)
    ensures IsPartOf(w.l, w.o, p, 0, m)
  {
  }

  // ------------------------------------------------------------- completion, if

  lemma {:induction false} ClockOrder(w: Setting, h: seq<Moment>, ps: seq<Packet>, answers: seq<Answer>, i: nat, j: nat)
    requires Run(w, h, ps, answers) && i <= j < |ps|
    ensures ps[i].now <= ps[j].now
    decreases j
  {
    hide Run;
    if i < j {
      ClockOrder(w, h, ps, answers, i, j - 1);
      ClockGrows(w, h, ps, answers, j);
    }
  }

  lemma ClockGrows(w: Setting, h: seq<Moment>, ps: seq<Packet>, answers: seq<Answer>, j: nat)
    requires Run(w, h, ps, answers) && 0 < j < |ps|
    ensures ps[j - 1].now <= ps[j].now
  {
    hide Step;
    assert Arrives(w, ps[j], ClockBefore(ps, j));
  }

  /** A state that the packet is not for, and that has not timed out, stays. */
  lemma UnhitStays(w: Setting, h: seq<Moment>, ps: seq<Packet>, answers: seq<Answer>, i: nat, k: string)
    requires Sufficient(w) && Run(w, h, ps, answers) && i < |ps|
    requires k in Remaining(w, h[i], ps[i]) && !Hit(w.l, w.o, Remaining(w, h[i], ps[i]), ps[i], k)
    ensures k in h[i + 1].states && h[i + 1].states[k] == Remaining(w, h[i], ps[i])[k]
  {
    hide Sufficient, Pruned, Hit, IsPartOf, MayStart, StateKey, Arrives, History;
    var s, p, s', a := h[i], ps[i], h[i + 1], answers[i];
    var live := Remaining(w, s, p);
    assert Step(w, s, p, s', a);
    if j :| Hit(w.l, w.o, live, p, j) {
      StepOnHit(w, s, p, s', a, j);
      HitIsStored(w, s, p, j);
    } else if m :| Starting(w, s, p, m) {
      var started, completed := RunHistory(w, h, ps, answers, i);
      var _ := StartIsNew(w, s, started, completed, ClockBefore(ps, i), p, m);
      assert Result(s'.states, a.complete, a.client) == StartResult(w.l, w.o, live, s.marks, w.limit, p, m);
    } else {
      StepOnNothing(w, s, p, s', a);
    }
  }

  /** The state that a chain has built up. */
  ghost predicate Built(ps: seq<Packet>, s: Moment, k: string, at: seq<nat>, m: Match)
    requires |at| >= 1 && at[0] < |ps|
  {
    && k == StateKey(ps[at[0]].ip, m.clientID, m.slot)
    && k in s.states && s.states[k].Pair() == m && s.states[k].matched == |at| && s.states[k].firstSeen == ps[at[0]].now
  }

  /** A chain that has begun, misses a part, and waits for it at step `n`. */
  ghost predicate Waiting(w: Setting, h: seq<Moment>, ps: seq<Packet>, n: nat, at: seq<nat>, m: Match) {
    Started(w, h, ps, at, m) && |at| < Needed(w.o) && at[|at| - 1] < n && Awaits(w, ps, at, n, m)
  }

  lemma ChainPrefix(w: Setting, h: seq<Moment>, ps: seq<Packet>, at: seq<nat>, m: Match)
    requires Started(w, h, ps, at, m) && 1 < |at| <= Needed(w.o)
    ensures Waiting(w, h, ps, at[|at| - 1], at[..|at| - 1], m)
    ensures ps[at[|at| - 1]].now - ps[at[0]].now <= w.o.window
  {
    hide PartAt, Starting;
    var less := at[..|at| - 1];
    forall x, i | 0 < x < |less| && less[x - 1] < i < less[x] ensures !PartAt(w, ps, i, ps[less[0]].ip, x, m) {
      assert at[x - 1] < i < at[x];
    }
  }

  lemma ShorterWait(w: Setting, h: seq<Moment>, ps: seq<Packet>, n: nat, at: seq<nat>, m: Match)
    requires Waiting(w, h, ps, n, at, m) && at[|at| - 1] < n - 1
    ensures Waiting(w, h, ps, n - 1, at, m)
  {
    hide Chain, PartAt, Starting;
  }

  /** While a chain waits within the window, its state stands. */
  lemma {:induction false} Progress(w: Setting, h: seq<Moment>, ps: seq<Packet>, answers: seq<Answer>, at: seq<nat>, m: Match, n: nat)
    requires Sufficient(w) && Run(w, h, ps, answers) && Waiting(w, h, ps, n, at, m)
    requires n <= |ps| && (at[|at| - 1] < n - 1 ==> ps[n - 1].now - ps[at[0]].now <= w.o.window)
    ensures Built(ps, h[n], StateKey(ps[at[0]].ip, m.clientID, m.slot), at, m)
    decreases n
  {
    hide Sufficient, Run, Starting, Hit, PartAt, StateKey, Pruned;
    RunLengths(w, h, ps, answers);
    var k := StateKey(ps[at[0]].ip, m.clientID, m.slot);
    if at[|at| - 1] < n - 1 {
      ShorterWait(w, h, ps, n, at, m);
      if at[|at| - 1] < n - 2 { ClockOrder(w, h, ps, answers, n - 2, n - 1); }
      Progress(w, h, ps, answers, at, m, n - 1);
      LiveIs(w, h[n - 1], ps[n - 1], k);
      HitIff(w, h, ps, answers, at, m, n - 1, k);
      assert !PartAt(w, ps, n - 1, ps[at[0]].ip, |at|, m);
      UnhitStays(w, h, ps, answers, n - 1, k);
    } else if |at| == 1 {
      StartStored(w, h, ps, answers, at[0], m);
    } else {
      ChainPrefix(w, h, ps, at, m);
      var less := at[..|at| - 1];
      if less[|less| - 1] < n - 2 { ClockOrder(w, h, ps, answers, n - 2, n - 1); }
      Progress(w, h, ps, answers, less, m, n - 1);
      LiveIs(w, h[n - 1], ps[n - 1], k);
      HitStored(w, h, ps, answers, at, m, k);
    }
  }

  lemma RunLengths(w: Setting, h: seq<Moment>, ps: seq<Packet>, answers: seq<Answer>)
    requires Run(w, h, ps, answers)
    ensures |h| == |ps| + 1 == |answers| + 1
  {
  }

  lemma HitIff(w: Setting, h: seq<Moment>, ps: seq<Packet>, answers: seq<Answer>, at: seq<nat>, m: Match, i: nat, k: string)
    requires Run(w, h, ps, answers) && |at| >= 1 && at[0] < |ps| && i < |ps| && i < |h| && Built(ps, h[i], k, at, m)
    requires k in Remaining(w, h[i], ps[i]) && Remaining(w, h[i], ps[i])[k] == h[i].states[k]
    ensures Hit(w.l, w.o, Remaining(w, h[i], ps[i]), ps[i], k) <==> PartAt(w, ps, i, ps[at[0]].ip, |at|, m)
  {
    hide IsPartOf, StateKey, Pruned, Step;
    AddressPlain(w, h, ps, answers, at[0]);
    PrefixIsAddress(ps[at[0]].ip, m.clientID, m.slot, ps[at[0]].ip);
  }

  lemma StartStored(w: Setting, h: seq<Moment>, ps: seq<Packet>, answers: seq<Answer>, i: nat, m: Match)
    requires Run(w, h, ps, answers) && i < |ps| && Starting(w, h[i], ps[i], m) && w.o.length != 1
    ensures var k := StateKey(ps[i].ip, m.clientID, m.slot);
            k in h[i + 1].states && h[i + 1].states[k] == State(ps[i].now, ps[i].now, 1, m.clientID, m.slot)
  {
    hide Pruned, Hit, Recognised, MayStart, StateKey, Arrives;
    assert Step(w, h[i], ps[i], h[i + 1], answers[i]);
    assert Result(h[i + 1].states, answers[i].complete, answers[i].client)
        == StartResult(w.l, w.o, Remaining(w, h[i], ps[i]), h[i].marks, w.limit, ps[i], m);
  }

  lemma HitStored(w: Setting, h: seq<Moment>, ps: seq<Packet>, answers: seq<Answer>, at: seq<nat>, m: Match, k: string)
    requires Run(w, h, ps, answers) && Chain(w, ps, at, m) && 1 < |at| < Needed(w.o)
    requires at[|at| - 1] < |h| && Built(ps, h[at[|at| - 1]], k, at[..|at| - 1], m)
    requires var i := at[|at| - 1]; k in Remaining(w, h[i], ps[i]) && Remaining(w, h[i], ps[i])[k] == h[i].states[k]
    ensures at[|at| - 1] + 1 < |h| && Built(ps, h[at[|at| - 1] + 1], k, at, m)
  {
    hide Pruned, Hit, PartAt, StateKey, Arrives, Step;
    var i := at[|at| - 1];
    HitIff(w, h, ps, answers, at[..|at| - 1], m, i, k);
    assert Step(w, h[i], ps[i], h[i + 1], answers[i]);
    StepOnHit(w, h[i], ps[i], h[i + 1], answers[i], k);
  }

  /** In every run, a whole chain completes the sequence with its last part. */
  lemma ChainCompletes(w: Setting, h: seq<Moment>, ps: seq<Packet>, answers: seq<Answer>, at: seq<nat>, m: Match)
    requires Sufficient(w) && Run(w, h, ps, answers) && Started(w, h, ps, at, m) && |at| == Needed(w.o)
    ensures var j := at[|at| - 1]; Completing(w, h[j], ps[j], m)
  {
    hide Sufficient, Run, Starting, Hit, PartAt, StateKey, Pruned;
    RunLengths(w, h, ps, answers);
    if |at| > 1 {
      var less, j, k := at[..|at| - 1], at[|at| - 1], StateKey(ps[at[0]].ip, m.clientID, m.slot);
      ChainPrefix(w, h, ps, at, m);
      if less[|less| - 1] < j - 1 { ClockOrder(w, h, ps, answers, j - 1, j); }
      Progress(w, h, ps, answers, less, m, j);
      LiveIs(w, h[j], ps[j], k);
      HitIff(w, h, ps, answers, less, m, j, k);
      assert Finishes(w, h[j], ps[j], k, m);
    }
  }

  ghost predicate EndsChain(w: Setting, h: seq<Moment>, ps: seq<Packet>, j: nat, m: Match, at: seq<nat>) {
    Started(w, h, ps, at, m) && |at| == Needed(w.o) && at[|at| - 1] == j
  }

  /** Completion is exact, in every run: a packet completes `m` if and only if it is the last
      of a chain that a start began, with all the parts of `m` in order. */
  lemma CompletesIffChain(w: Setting, h: seq<Moment>, ps: seq<Packet>, answers: seq<Answer>, j: nat, m: Match)
    requires Sufficient(w) && Run(w, h, ps, answers) && j < |ps|
    ensures Completing(w, h[j], ps[j], m) <==> exists at :: EndsChain(w, h, ps, j, m, at)
  {
    hide Sufficient, Run, Started, Completing;
    RunLengths(w, h, ps, answers);
    if Completing(w, h[j], ps[j], m) {
      var at := CompletionIsChain(w, h, ps, answers, j, m);
      assert EndsChain(w, h, ps, j, m, at);
    }
    if at :| EndsChain(w, h, ps, j, m, at) {
      ChainCompletes(w, h, ps, answers, at, m);
    }
  }

  /** In every run, complete is answered exactly to the packets that end such a chain. */
  lemma CompleteIffChain(w: Setting, h: seq<Moment>, ps: seq<Packet>, answers: seq<Answer>, j: nat)
    requires Sufficient(w) && Run(w, h, ps, answers) && j < |ps|
    ensures answers[j].complete <==> exists m, at :: EndsChain(w, h, ps, j, m, at)
    ensures answers[j].complete ==> exists m, at :: EndsChain(w, h, ps, j, m, at) && m.clientID == answers[j].client
  {
    hide Sufficient, Run, EndsChain, Completing;
    RunLengths(w, h, ps, answers);
    CompletionReported(w, h, ps, answers, j);
    if answers[j].complete {
      var m :| Completing(w, h[j], ps[j], m) && m.clientID == answers[j].client;
      CompletesIffChain(w, h, ps, answers, j, m);
    } else if m, at :| EndsChain(w, h, ps, j, m, at) {
      CompletesIffChain(w, h, ps, answers, j, m);
      assert false;
    }
  }

  // ------------------------------------------------------------ what clients send

  /** The packet carries what the client sends as part `x` in a slot. */
  predicate IsSent(w: Setting, c: ClientSecret, slot: int, p: Packet, x: nat) {
    p.dstPort == w.l.protectedPort && p.fields == w.l.tag(c, slot, x)
  }

  /** A client sends all its parts for a slot: they arrive in order, from one address, while
      the slot is accepted and within the window of the first, and nobody repeats the next
      part from that address before it arrives. */
  ghost predicate AllSent(w: Setting, ps: seq<Packet>, at: seq<nat>, c: ClientSecret, slot: int) {
    && c in w.l.clients && |at| == PartCount(w.o.length)
    && (forall x :: 0 <= x < |at| ==> at[x] < |ps|)
    && (forall x :: 0 <= x < |at| ==> ps[at[x]].ip == ps[at[0]].ip)
    && (forall x :: 0 <= x < |at| ==> IsSent(w, c, slot, ps[at[x]], x) && Accepts(slot, ps[at[x]].now, w.o.slotSeconds))
    && (forall x :: 0 < x < |at| ==> at[x - 1] < at[x] && ps[at[x]].now - ps[at[0]].now <= w.o.window)
    && (forall x, i :: 0 < x < |at| && at[x - 1] < i < at[x] && ps[i].ip == ps[at[0]].ip ==> !IsSent(w, c, slot, ps[i], x))
  }

  /** The parts a client sends are the ones that are recognised. */
  lemma SentIffPart(w: Setting, c: ClientSecret, slot: int, p: Packet, x: nat)
    requires Sufficient(w) && c in w.l.clients && x < PartCount(w.o.length)
    ensures IsPartOf(w.l, w.o, p, x, Match(c.clientID, slot)) <==> IsSent(w, c, slot, p, x) && Accepts(slot, p.now, w.o.slotSeconds)
  {
    if IsPartOf(w.l, w.o, p, x, Match(c.clientID, slot)) {
      var d :| d in w.l.clients && d.clientID == c.clientID && IsPart(w.l, d, slot, w.o.length, x, p.dstPort, p.fields);
      assert d == c;
    } else if IsSent(w, c, slot, p, x) && Accepts(slot, p.now, w.o.slotSeconds) {
      assert IsPart(w.l, c, slot, w.o.length, x, p.dstPort, p.fields);
    }
  }

  lemma SentIsChain(w: Setting, ps: seq<Packet>, at: seq<nat>, c: ClientSecret, slot: int)
    requires Sufficient(w) && AllSent(w, ps, at, c, slot)
    ensures Chain(w, ps, at, Match(c.clientID, slot))
  {
    hide Sufficient, IsSent, Accepts, IsPartOf;
    var m := Match(c.clientID, slot);
    forall x: nat | x < |at| ensures PartAt(w, ps, at[x], ps[at[0]].ip, x, m) {
      SentIffPart(w, c, slot, ps[at[x]], x);
    }
    forall x: nat, i: nat | 0 < x < |at| && at[x - 1] < i < at[x] ensures !PartAt(w, ps, i, ps[at[0]].ip, x, m) {
      SentIffPart(w, c, slot, ps[i], x);
    }
  }

  /** The last packet a client sends completes its sequence if and only if the length is one
      of those for which as many parts are sent as are waited for. */
  lemma SentCompletesIff(w: Setting, h: seq<Moment>, ps: seq<Packet>, answers: seq<Answer>, at: seq<nat>, c: ClientSecret, slot: int)
    requires Sufficient(w) && Run(w, h, ps, answers) && AllSent(w, ps, at, c, slot)
    requires Starting(w, h[at[0]], ps[at[0]], Match(c.clientID, slot))
    ensures var j := at[|at| - 1]; Completing(w, h[j], ps[j], Match(c.clientID, slot)) <==> 2 <= w.o.length <= 5
  {
    hide Sufficient, Run, Starting, Completing, Chain, IsSent, Accepts;
    RunLengths(w, h, ps, answers);
    var m, j := Match(c.clientID, slot), at[|at| - 1];
    SentIsChain(w, ps, at, c, slot);
    if 2 <= w.o.length <= 5 {
      ChainCompletes(w, h, ps, answers, at, m);
    } else if Completing(w, h[j], ps[j], m) {
      var chain := CompletionIsChain(w, h, ps, answers, j, m);
      SamePart(w, h, ps, answers, at, chain, m, j);
      assert false;
    }
  }

  /** A packet is the same part in every chain. */
  lemma SamePart(w: Setting, h: seq<Moment>, ps: seq<Packet>, answers: seq<Answer>, a: seq<nat>, b: seq<nat>, m: Match, j: nat)
    requires Sufficient(w) && Run(w, h, ps, answers) && Chain(w, ps, a, m) && Chain(w, ps, b, m)
    requires a[|a| - 1] == j == b[|b| - 1]
    ensures |a| == |b|
  {
    hide Sufficient, Run, Chain, Recognised, CollisionFree, SlotAt;
    ChainEnds(w, ps, a, m);
    ChainEnds(w, ps, b, m);
    InSlots(w, h, ps, answers, j);
    RecognisedOnce(w.l, w.low, w.high, w.o.slotSeconds, w.o.length, |a| - 1, |b| - 1, ps[j].dstPort, ps[j].fields, ps[j].now, m, m);
  }

  lemma ChainEnds(w: Setting, ps: seq<Packet>, at: seq<nat>, m: Match)
    requires Chain(w, ps, at, m)
    ensures |at| >= 1 && at[|at| - 1] < |ps| && IsPartOf(w.l, w.o, ps[at[|at| - 1]], |at| - 1, m)
    ensures |at| <= PartCount(w.o.length)
  {
    hide Accepts;
    assert PartAt(w, ps, at[|at| - 1], ps[at[0]].ip, |at| - 1, m);
  }

  lemma InSlots(w: Setting, h: seq<Moment>, ps: seq<Packet>, answers: seq<Answer>, j: nat)
    requires Sufficient(w) && Run(w, h, ps, answers) && j < |ps|
    ensures CollisionFree(w.l, w.low, w.high) && w.low < SlotAt(ps[j].now, w.o.slotSeconds) < w.high
  {
    hide Step, CollisionFree;
    assert Arrives(w, ps[j], ClockBefore(ps, j));
  }

  /** A listener that waits for more than five parts never completes a sequence, in any run,
      because no more than five are ever recognised. */
  lemma LongNeverCompletes(w: Setting, h: seq<Moment>, ps: seq<Packet>, answers: seq<Answer>, j: nat)
    requires Sufficient(w) && Run(w, h, ps, answers) && j < |ps| && w.o.length > 5
    ensures !answers[j].complete
  {
    hide Sufficient, Run, Starting, Completing, Chain;
    RunLengths(w, h, ps, answers);
    CompletionReported(w, h, ps, answers, j);
    if answers[j].complete {
      var m :| Completing(w, h[j], ps[j], m);
      var at := CompletionIsChain(w, h, ps, answers, j, m);
      ChainEnds(w, ps, at, m);
    }
  }

  // ------------------------------------------------------------- which packets start

  /** Packet `n` finds a chain waiting within the window, filed under `k`. */
  ghost predicate Open(w: Setting, h: seq<Moment>, ps: seq<Packet>, n: nat, k: string, at: seq<nat>, m: Match) {
    && Waiting(w, h, ps, n, at, m)
    && n < |ps| && ps[n].now - ps[at[0]].now <= w.o.window
    && k == StateKey(ps[at[0]].ip, m.clientID, m.slot)
  }

  /** The states left by the pruning are the waiting chains, and a packet is counted for one
      exactly when it is the part that this chain waits for. */
  lemma LiveIffOpen(w: Setting, h: seq<Moment>, ps: seq<Packet>, answers: seq<Answer>, n: nat, k: string)
    requires Sufficient(w) && Run(w, h, ps, answers) && n < |ps|
    ensures k in Remaining(w, h[n], ps[n]) <==> exists at, m :: Open(w, h, ps, n, k, at, m)
  {
    hide Sufficient, Run, Chain, Starting, Awaits, StateKey, Pruned;
    RunLengths(w, h, ps, answers);
    LiveIs(w, h[n], ps[n], k);
    if k in Remaining(w, h[n], ps[n]) {
      var at := StateIsChain(w, h, ps, answers, n, k);
      assert Open(w, h, ps, n, k, at, h[n].states[k].Pair());
    }
    if at, m :| Open(w, h, ps, n, k, at, m) {
      OpenIsLive(w, h, ps, answers, n, k, at, m);
    }
  }

  lemma OpenIsLive(w: Setting, h: seq<Moment>, ps: seq<Packet>, answers: seq<Answer>, n: nat, k: string, at: seq<nat>, m: Match)
    requires Sufficient(w) && Run(w, h, ps, answers) && Open(w, h, ps, n, k, at, m)
    ensures k in Remaining(w, h[n], ps[n])
    ensures Hit(w.l, w.o, Remaining(w, h[n], ps[n]), ps[n], k) <==> PartAt(w, ps, n, ps[at[0]].ip, |at|, m)
  {
    hide Sufficient, Run, Starting, Awaits, StateKey, Pruned, PartAt, Hit;
    RunLengths(w, h, ps, answers);
    ClockOrder(w, h, ps, answers, n - 1, n);
    Progress(w, h, ps, answers, at, m, n);
    LiveIs(w, h[n], ps[n], k);
    HitIff(w, h, ps, answers, at, m, n, k);
  }

  /** Packet `n` is the part that an open chain waits for. */
  ghost predicate Awaited(w: Setting, h: seq<Moment>, ps: seq<Packet>, n: nat, k: string, at: seq<nat>, m: Match) {
    Open(w, h, ps, n, k, at, m) && PartAt(w, ps, n, ps[at[0]].ip, |at|, m)
  }

  lemma HitIffAwaited(w: Setting, h: seq<Moment>, ps: seq<Packet>, answers: seq<Answer>, n: nat, k: string)
    requires Sufficient(w) && Run(w, h, ps, answers) && n < |ps|
    ensures Hit(w.l, w.o, Remaining(w, h[n], ps[n]), ps[n], k) <==> exists at, m :: Awaited(w, h, ps, n, k, at, m)
  {
    hide Sufficient, Run, Open, Hit, PartAt, Pruned;
    RunLengths(w, h, ps, answers);
    if Hit(w.l, w.o, Remaining(w, h[n], ps[n]), ps[n], k) {
      HitIsStored(w, h[n], ps[n], k);
      LiveIffOpen(w, h, ps, answers, n, k);
      var at, m :| Open(w, h, ps, n, k, at, m);
      OpenIsLive(w, h, ps, answers, n, k, at, m);
      assert Awaited(w, h, ps, n, k, at, m);
    }
    if at, m :| Awaited(w, h, ps, n, k, at, m) {
      OpenIsLive(w, h, ps, answers, n, k, at, m);
    }
  }

  lemma NoHitIffNoneAwaits(w: Setting, h: seq<Moment>, ps: seq<Packet>, answers: seq<Answer>, n: nat)
    requires Sufficient(w) && Run(w, h, ps, answers) && n < |ps|
    ensures (forall k :: !Hit(w.l, w.o, Remaining(w, h[n], ps[n]), ps[n], k)) <==> (forall k, at, m :: !Awaited(w, h, ps, n, k, at, m))
  {
    hide Sufficient, Run, Hit, Pruned, Awaited;
    RunLengths(w, h, ps, answers);
    var live, p := Remaining(w, h[n], ps[n]), ps[n];
    if k :| Hit(w.l, w.o, live, p, k) {
      HitIffAwaited(w, h, ps, answers, n, k);
    }
    if k, at, m :| Awaited(w, h, ps, n, k, at, m) {
      HitIffAwaited(w, h, ps, answers, n, k);
    }
  }

  /** Step `i` started `m` and left the mark `key`. */
  ghost predicate Left(w: Setting, h: seq<Moment>, ps: seq<Packet>, i: nat, key: string, m: Match) {
    i < |ps| && i < |h| && Starting(w, h[i], ps[i], m) && MarkOf(w, ps[i], m) == key
  }

  lemma StepMarks(w: Setting, h: seq<Moment>, ps: seq<Packet>, answers: seq<Answer>, i: nat, key: string)
    requires Run(w, h, ps, answers) && i < |ps|
    ensures (forall m :: !Left(w, h, ps, i, key, m)) ==>
              (key in h[i + 1].marks <==> key in h[i].marks) && (key in h[i].marks ==> h[i + 1].marks[key] == h[i].marks[key])
    ensures (exists m :: Left(w, h, ps, i, key, m)) ==> key in h[i + 1].marks && h[i + 1].marks[key] == ps[i].now + w.ttl
  {
    hide AddSpec, Starting, Arrives, MarkOf;
    assert Step(w, h[i], ps[i], h[i + 1], answers[i]);
    if m :| Starting(w, h[i], ps[i], m) {
      assert MarkOf(w, ps[i], m) == key ==> Left(w, h, ps, i, key, m);
    }
  }

  /** A mark was left by a start. */
  lemma {:induction false} MarkWasLeft(w: Setting, h: seq<Moment>, ps: seq<Packet>, answers: seq<Answer>, n: nat, key: string)
    returns (i: nat, m: Match)
    requires Run(w, h, ps, answers) && n <= |ps| && key in h[n].marks
    ensures i < n && Left(w, h, ps, i, key, m) && h[n].marks[key] == ps[i].now + w.ttl
    decreases n
  {
    hide Step, Arrives, Left;
    var last := n - 1;
    StepMarks(w, h, ps, answers, last, key);
    if m' :| Left(w, h, ps, last, key, m') {
      i, m := last, m';
    } else {
      i, m := MarkWasLeft(w, h, ps, answers, last, key);
    }
  }

  /** What a start leaves stays, or a later start puts it off. */
  lemma {:induction false} MarkStays(w: Setting, h: seq<Moment>, ps: seq<Packet>, answers: seq<Answer>, i: nat, n: nat, key: string, m: Match)
    requires Run(w, h, ps, answers) && i < n <= |ps| && Left(w, h, ps, i, key, m)
    ensures key in h[n].marks && h[n].marks[key] >= ps[i].now + w.ttl
    decreases n
  {
    hide Run, Left;
    RunLengths(w, h, ps, answers);
    StepMarks(w, h, ps, answers, n - 1, key);
    if i < n - 1 {
      MarkStays(w, h, ps, answers, i, n - 1, key, m);
      ClockOrder(w, h, ps, answers, i, n - 1);
    }
  }

  /** A start not longer ago than the marks last left the mark `key`. */
  ghost predicate Recent(w: Setting, h: seq<Moment>, ps: seq<Packet>, n: nat, key: string, i: nat, m: Match) {
    i < n < |ps| && Left(w, h, ps, i, key, m) && ps[n].now < ps[i].now + w.ttl
  }

  lemma LiveMarkIffRecent(w: Setting, h: seq<Moment>, ps: seq<Packet>, answers: seq<Answer>, n: nat, key: string)
    requires Run(w, h, ps, answers) && n < |ps|
    ensures key in LiveMarks(h[n].marks, ps[n].now) <==> exists i, m :: Recent(w, h, ps, n, key, i, m)
  {
    hide Run, Left;
    RunLengths(w, h, ps, answers);
    if key in LiveMarks(h[n].marks, ps[n].now) {
      var i, m := MarkWasLeft(w, h, ps, answers, n, key);
      assert Recent(w, h, ps, n, key, i, m);
    }
    if i, m :| Recent(w, h, ps, n, key, i, m) {
      MarkStays(w, h, ps, answers, i, n, key, m);
    }
  }

  /** A start is exact, in every run: a packet starts `m` if and only if it is part 0 of it,
      no open chain waits for the packet, the open chains of its address and all of them are
      below their limits, no recent start left its mark, and there is room for one more. */
  lemma StartsIff(w: Setting, h: seq<Moment>, ps: seq<Packet>, answers: seq<Answer>, j: nat, m: Match)
    returns (open: set<string>, recent: set<string>)
    requires Sufficient(w) && Run(w, h, ps, answers) && j < |ps|
    ensures forall k :: k in open <==> exists at, m' :: Open(w, h, ps, j, k, at, m')
    ensures forall key :: key in recent <==> exists i, m' :: Recent(w, h, ps, j, key, i, m')
    ensures Starting(w, h[j], ps[j], m) <==>
            && PartAt(w, ps, j, ps[j].ip, 0, m)
            && (forall k, at, m' :: !Awaited(w, h, ps, j, k, at, m'))
            && |Of(open, ps[j].ip)| < w.o.maxInflightPerIP && |open| < w.o.maxTotalInflight
            && MarkOf(w, ps[j], m) !in recent && |recent| < w.limit
  {
    hide Sufficient, Run, Open, Hit, IsPartOf, Pruned, Recent, Awaited, MarkOf, Starting;
    RunLengths(w, h, ps, answers);
    var live, marks := Remaining(w, h[j], ps[j]), LiveMarks(h[j].marks, ps[j].now);
    open, recent := live.Keys, marks.Keys;
    forall k ensures k in open <==> exists at, m' :: Open(w, h, ps, j, k, at, m') {
      LiveIffOpen(w, h, ps, answers, j, k);
    }
    NoHitIffNoneAwaits(w, h, ps, answers, j);
    forall key ensures key in recent <==> exists i, m' :: Recent(w, h, ps, j, key, i, m') {
      LiveMarkIffRecent(w, h, ps, answers, j, key);
    }
    StartingMeans(w, h[j], ps[j], m);
  }

  lemma StartingMeans(w: Setting, s: Moment, p: Packet, m: Match)
    ensures var live, marks := Remaining(w, s, p), LiveMarks(s.marks, p.now);
            Starting(w, s, p, m) <==>
            && (forall k :: !Hit(w.l, w.o, live, p, k)) && IsPartOf(w.l, w.o, p, 0, m)
            && |Of(live.Keys, p.ip)| < w.o.maxInflightPerIP && |live.Keys| < w.o.maxTotalInflight
            && MarkOf(w, p, m) !in marks.Keys && |marks.Keys| < w.limit
  {
    hide Hit, IsPartOf, Pruned;
  }
}
