/** What every run of the hook engine guarantees: conservation of references, lifetime of
    the return probes, and the quiesce barrier. */
module HookTheorems {
  import opened Tally
  import opened HookEngine
  import opened Runs

  // ------------------------------------------------------------------ conservation

  function HookTotal(hooks: seq<Hook>): int {
    if hooks == [] then 0 else HookTotal(hooks[..|hooks| - 1]) + hooks[|hooks| - 1].inflight
  }

  function WeightBelow(n: nat, c: Call): nat {
    if c.hook < n then AnyHookWeight(c) else 0
  }

  function BelowWeight(n: nat): Call -> nat {
    (c: Call) => WeightBelow(n, c)
  }

  lemma {:induction false} HookTotalIs(s: State, n: nat)
    requires n <= |s.hooks| && Counts(s)
    ensures HookTotal(s.hooks[..n]) == Sum(s.calls, BelowWeight(n))
  {
    if n == 0 {
      SumZero(s.calls, BelowWeight(0));
    } else {
      assert s.hooks[..n][..n - 1] == s.hooks[..n - 1];
      HookTotalIs(s, n - 1);
      SumPlus(s.calls, BelowWeight(n - 1), HookWeight(n - 1), BelowWeight(n));
    }
  }

  /** No call sits between two of the three counter updates. */
  predicate AtRest(s: State) {
    forall i | 0 <= i < |s.calls| ::
      !s.calls[i].phase.Held? && !s.calls[i].phase.HookCounted? && !MidReturn(s.calls[i].phase)
  }

  /** Conservation, on every state of every run: each in-flight call the engine reports, per
      hook or globally, is backed by a module reference, and at rest the three agree. */
  lemma ReferencesBackEveryCall(s: State)
    requires Reachable(s)
    ensures 0 <= s.inflight <= s.refs && 0 <= HookTotal(s.hooks) <= s.refs
    ensures AtRest(s) ==> s.refs == s.inflight == HookTotal(s.hooks)
  {
    ReachableInv(s);
    assert s.hooks[..|s.hooks|] == s.hooks;
    HookTotalIs(s, |s.hooks|);
    SumSame(s.calls, BelowWeight(|s.hooks|), AnyHookWeight);
    SumMonotone(s.calls, GlobalWeight, RefWeight);
    SumMonotone(s.calls, AnyHookWeight, RefWeight);
    if AtRest(s) {
      SumSame(s.calls, GlobalWeight, RefWeight);
      SumSame(s.calls, AnyHookWeight, RefWeight);
    }
  }

  lemma LeakStep(s: State, e: Event, i: nat)
    requires Inv(s) && i < |s.calls| && s.calls[i].phase.Leaked?
    ensures i < |Next(s, e).calls| && Next(s, e).calls[i].phase.Leaked?
  {
    if e.ControlStep? {
      ControlOrphansNone(s, e.ok);
    }
  }

  lemma {:induction false} LeakStays(s: State, es: seq<Event>, i: nat)
    requires Inv(s) && i < |s.calls| && s.calls[i].phase.Leaked?
    ensures i < |Run(s, es).calls| && Run(s, es).calls[i].phase.Leaked?
  {
    if es != [] {
      LeakStays(s, es[..|es| - 1], i);
      RunInv(s, es[..|es| - 1]);
      LeakStep(Run(s, es[..|es| - 1]), es[|es| - 1], i);
    }
  }

  /** A call that returned without its handler is never forgotten: from then on the counts
      stay positive and the module cannot be deleted, so draining can fail for ever. */
  lemma LeakIsPermanent(s: State, es: seq<Event>, i: nat)
    requires Inv(s) && i < |s.calls| && s.calls[i].phase.Leaked?
    ensures Run(s, es).live && Run(s, es).refs >= 1 && Run(s, es).inflight >= 1
  {
    LeakStays(s, es, i);
    RunInv(s, es);
    SumMember(Run(s, es).calls, i, RefWeight);
    SumMember(Run(s, es).calls, i, GlobalWeight);
  }

  // ------------------------------------------------------------------ return probes

  /** A hook whose calls may rely on its return probe. */
  predicate Probed(k: Hook) {
    k.probe && k.retprobeInstalled
  }

  /** An armed hook has its return probe, a hook without one has no call in flight, and a
      registered probe can be found by the final teardown. */
  predicate ProbeFollows(s: State, h: nat)
    requires h < |s.hooks|
  {
    && (s.live && s.hooks[h].armed ==> Probed(s.hooks[h]))
    && (!Probed(s.hooks[h]) ==> s.hooks[h].inflight == 0)
    && (s.hooks[h].probe && s.control.Idle? ==> h in s.lifetime)
  }

  lemma UnprobedIsIdle(s: State, h: nat)
    requires Inv(s) && h < |s.hooks| && !Probed(s.hooks[h])
    ensures s.hooks[h].inflight == 0
  {
    if !s.live {
      NoRefNoCall(s);
    }
    forall i | 0 <= i < |s.calls| ensures OneHookWeight(h, s.calls[i]) == 0 {
      assert !s.live ==> RefWeight(s.calls[i]) == 0;
    }
    SumZero(s.calls, HookWeight(h));
  }

  /** Return-probe lifetime, over every run of install, failed install, remove, reinstall, enter,
      return and missed return. */
  lemma ReturnProbeLifetime(s: State, h: nat)
    requires Reachable(s) && h < |s.hooks|
    ensures ProbeFollows(s, h)
  {
    ReachableInv(s);
    assert HookOk(s, h);
    if !Probed(s.hooks[h]) {
      UnprobedIsIdle(s, h);
    }
  }

  /** No call ever loses its handler to a return probe that was unregistered under it. */
  lemma NoneOrphaned(s: State, i: nat)
    requires Reachable(s) && i < |s.calls|
    ensures s.calls[i].phase != Body(Orphaned)
  {
    ReachableInv(s);
  }

  function Repeat(n: nat): (es: seq<Event>)
    ensures |es| == n
  {
    seq(n, _ => ControlStep(true))
  }

  predicate Cleared(hooks: seq<Hook>) {
    forall h | 0 <= h < |hooks| :: !hooks[h].probe && !hooks[h].retprobeInstalled
  }

  lemma LastTeardownStep(s: State)
    requires Inv(s) && s.control.TearDown? && s.control.k >= |s.lifetime|
    ensures Cleared(s.hooks) && Next(s, ControlStep(true)) == s.(control := Idle)
  {
    forall h | 0 <= h < |s.hooks| ensures !s.hooks[h].probe && !s.hooks[h].retprobeInstalled {
      assert HookOk(s, h);
      assert s.hooks[h].retprobeInstalled ==> h in s.lifetime;
    }
  }

  /** Each step of the teardown gets on in the list and touches no call. */
  lemma TeardownStep(s: State)
    requires Inv(s) && s.control.TearDown? && s.control.k < |s.lifetime|
    ensures var t := Next(s, ControlStep(true));
            && Inv(t) && t.calls == s.calls && t.lifetime == s.lifetime && t.control.TearDown?
            && (t.control.k == s.control.k + 1 || (t.control.k == s.control.k && t.control.half && !s.control.half))
  {
    NextInv(s, ControlStep(true));
    ControlOrphansNone(s, true);
  }

  /** The final teardown, run to its end, leaves no return probe registered and orphans no call. */
  lemma {:induction false} TeardownClears(s: State)
    requires Inv(s) && s.control.TearDown?
    ensures exists n: nat :: var t := Run(s, Repeat(n)); t.control.Idle? && t.calls == s.calls && Cleared(t.hooks)
    decreases |s.lifetime| - s.control.k, if s.control.half then 0 else 1
  {
    hide Inv, Next;
    var t := Next(s, ControlStep(true));
    if s.control.k < |s.lifetime| {
      TeardownStep(s);
      TeardownClears(t);
      var n: nat :| var u := Run(t, Repeat(n)); u.control.Idle? && u.calls == t.calls && Cleared(u.hooks);
      RunFirst(Next, Run, s, ControlStep(true), Repeat(n));
      assert Repeat(n + 1) == [ControlStep(true)] + Repeat(n);
    } else {
      LastTeardownStep(s);
      assert Repeat(1) == [ControlStep(true)];
      RunFirst(Next, Run, s, ControlStep(true), []);
      assert [ControlStep(true)] + [] == [ControlStep(true)];
    }
  }

  lemma UnreferencedCalls(s: State)
    requires s.refs == Sum(s.calls, RefWeight)
    ensures s.refs >= 0 && (s.refs == 0 <==> forall i | 0 <= i < |s.calls| :: RefWeight(s.calls[i]) == 0)
  {
    hide RefWeight;
    SumMembers(s.calls, RefWeight);
    if forall i | 0 <= i < |s.calls| :: RefWeight(s.calls[i]) == 0 {
      SumZero(s.calls, RefWeight);
    }
  }

  /** The module can be deleted exactly when no redirected call and nobody else holds a reference
      and no lifecycle operation is under way. */
  lemma DeletedExactly(s: State)
    requires Reachable(s) && s.live
    ensures !Next(s, DeleteModule).live <==>
              s.control.Idle? && s.other == 0 && forall i | 0 <= i < |s.calls| :: RefWeight(s.calls[i]) == 0
  {
    ReachableInv(s);
    assert s.refs == Sum(s.calls, RefWeight);
    hide Inv, RefWeight, Sum;
    UnreferencedCalls(s);
  }

  /** The final teardown of a deleted module can always be run, to its end. */
  lemma TeardownRuns(s: State)
    requires Reachable(s) && !s.live && s.control.Idle?
    ensures exists n: nat :: var t := Run(Next(s, BeginTeardown), Repeat(n));
              t.control.Idle? && t.calls == s.calls && Cleared(t.hooks)
  {
    ReachableInv(s);
    NextInv(s, BeginTeardown);
    TeardownClears(Next(s, BeginTeardown));
  }

  // ------------------------------------------------------------------ quiesce barrier

  /** The gate is shut and nobody is about to open it. */
  predicate Shut(s: State) {
    s.quiescing && !(s.lock.ByWriter? && !s.lock.value)
  }

  /** The number of ordinary calls that were let through and have not fully returned. */
  function OrdinaryLive(s: State): nat {
    Sum(s.calls, OrdinaryWeight)
  }

  predicate NoOrdinaryBody(s: State) {
    forall i | 0 <= i < |s.calls| :: !OrdinaryBody(s.calls[i])
  }

  /** shadow_hook_quiesce(true), from any state in which it can take the lock, shuts the gate. */
  lemma QuiesceShuts(s: State)
    requires s.lock.Free?
    ensures var t := Next(Next(Next(s, QuiesceLock(true)), QuiesceStep), QuiesceStep);
            Shut(t) && t.lock.Free? && t.calls == s.calls
  {
  }

  lemma ShutAdvance(s: State, i: nat, instance: bool)
    requires Shut(s) && LockOk(s) && i < |s.calls|
    ensures Shut(AdvanceCall(s, i, instance)) && OrdinaryLive(AdvanceCall(s, i, instance)) <= OrdinaryLive(s)
  {
    SumUpdate(s.calls, i, s.calls[i].(phase := Operation(s, i, instance).phase), OrdinaryWeight);
  }

  lemma ShutStep(s: State, e: Event)
    requires Inv(s) && Shut(s) && e != QuiesceLock(false)
    ensures Shut(Next(s, e)) && OrdinaryLive(Next(s, e)) <= OrdinaryLive(s)
  {
    hide Counts, ProbesOk, ControlOk, GateOk, CallsOk;
    match e
    case Fire(h, fromModule) =>
      if h < |s.hooks| {
        SumAppend(s.calls, Call(h, s.hooks[h].exempt, Fired), OrdinaryWeight);
      }
    case Advance(i, instance) => if i < |s.calls| { ShutAdvance(s, i, instance); }
    case ControlStep(ok) => ControlOrphansNone(s, ok);
    case _ => assert Next(s, e).calls == s.calls;
  }

  lemma {:induction false} ShutRun(s: State, es: seq<Event>)
    requires Inv(s) && Shut(s) && QuiesceLock(false) !in es
    ensures Inv(Run(s, es)) && Shut(Run(s, es)) && OrdinaryLive(Run(s, es)) <= OrdinaryLive(s)
  {
    if es != [] {
      ShutRun(s, es[..|es| - 1]);
      ShutStep(Run(s, es[..|es| - 1]), es[|es| - 1]);
      NextInv(Run(s, es[..|es| - 1]), es[|es| - 1]);
    }
  }

  /** The only ordinary calls left have finished their replacement and both counter updates. */
  predicate Drained(s: State) {
    forall i | 0 <= i < |s.calls| :: OrdinaryWeight(s.calls[i]) == 1 ==> s.calls[i].phase.GlobalDropped?
  }

  lemma ShutIdle(s: State)
    requires Inv(s) && Shut(s) && s.inflight == 0
    ensures NoOrdinaryBody(s)
    ensures Drained(s)
  {
    SumMembers(s.calls, GlobalWeight);
  }

  lemma DrainedIsSilent(s: State)
    requires Drained(s)
    ensures NoOrdinaryBody(s)
  {
    forall i | 0 <= i < |s.calls| ensures !OrdinaryBody(s.calls[i]) {
      assert OrdinaryWeight(s.calls[i]) == 1 ==> s.calls[i].phase.GlobalDropped?;
    }
  }

  lemma DrainedStep(s: State, e: Event)
    requires Inv(s) && Shut(s) && e != QuiesceLock(false)
    requires Drained(s)
    ensures Drained(Next(s, e))
  {
    hide Counts, ProbesOk, GateOk, ControlOk;
    if e.ControlStep? {
      ControlOrphansNone(s, e.ok);
    }
    if e.Advance? && e.call < |s.calls| {
      var c := s.calls[e.call].(phase := Operation(s, e.call, e.instance).phase);
      assert OrdinaryWeight(s.calls[e.call]) == 1 ==> s.calls[e.call].phase.GlobalDropped?;
      assert OrdinaryWeight(c) == 1 ==> c.phase.GlobalDropped?;
    }
  }

  lemma {:induction false} DrainedRun(s: State, es: seq<Event>)
    requires Inv(s) && Shut(s) && QuiesceLock(false) !in es
    requires Drained(s)
    ensures Drained(Run(s, es))
    ensures NoOrdinaryBody(Run(s, es))
  {
    if es != [] {
      DrainedRun(s, es[..|es| - 1]);
      ShutRun(s, es[..|es| - 1]);
      DrainedStep(Run(s, es[..|es| - 1]), es[|es| - 1]);
    }
    DrainedIsSilent(Run(s, es));
  }

  /** The barrier.  Once the gate is shut, the number of ordinary calls in flight never
      rises; and once the global count is read as zero, no ordinary replacement runs for as
      long as nobody asks to reopen the gate, whatever exempt hooks keep doing. */
  lemma QuiesceBarrier(s: State, es: seq<Event>, more: seq<Event>)
    requires Reachable(s) && Shut(s)
    requires QuiesceLock(false) !in es && QuiesceLock(false) !in more
    ensures OrdinaryLive(Run(s, es)) <= OrdinaryLive(s)
    ensures Run(s, es).inflight == 0 ==> NoOrdinaryBody(Run(Run(s, es), more))
  {
    ReachableInv(s);
    ShutRun(s, es);
    if Run(s, es).inflight == 0 {
      ShutIdle(Run(s, es));
      DrainedRun(Run(s, es), more);
    }
  }
}
