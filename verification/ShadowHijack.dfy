/** The functions of glue/shadow_hijack.c as they are written, updating the hooks and the
    counters in place.

    Each method is one undisturbed execution.  The `...Effect` lemmas prove that what it does is
    what the atomic operations of module HookEngine that it consists of add up to, so everything
    proved there about all interleavings applies to it. */
module ShadowHijack {
  import opened Options
  import opened HookEngine
  import opened Runs

  /** One registered hook array, identified by its address. */
  datatype Group = Group(hooks: seq<nat>, active: bool)

  /** -ENOENT, another error, or 0. */
  datatype Code = Missing | Failed | Done

  /** What the kernel answers when one hook is installed: whether a symbol of it is found, and
      the results of registering the return probe and the redirect. */
  datatype Kernel = Kernel(resolves: bool, probe: Code, arm: Code)

  // ------------------------------------------------------------------ runs of one thread

  function AdvanceOf(i: nat, instance: bool): State -> State {
    (s: State) => Next(s, Advance(i, instance))
  }

  function Advances(s: State, i: nat, instance: bool, n: nat): State {
    Repeated(AdvanceOf(i, instance), s, n)
  }

  /** One call of a hooked symbol, up to its replacement or to the genuine function. */
  function Entered(s: State, h: nat, instance: bool): State {
    Advances(Next(s, Fire(h, false)), |s.calls|, instance, 7)
  }

  function StepOf(ok: bool): State -> State {
    (s: State) => Next(s, ControlStep(ok))
  }

  function Steps(s: State, ok: bool, n: nat): State {
    Repeated(StepOf(ok), s, n)
  }

  // ------------------------------------------------------------------ the same, in one go

  predicate Admits(s: State, h: nat)
    requires h < |s.hooks|
  {
    !(s.quiescing && !s.hooks[h].exempt) && s.hooks[h].retprobeInstalled && s.live
  }

  /** `s` with one more call, in phase `p`. */
  function With(s: State, h: nat, p: Phase): State
    requires h < |s.hooks|
  {
    s.(calls := s.calls + [Call(h, s.hooks[h].exempt, p)])
  }

  lemma AdvanceLast(s: State, h: nat, p: Phase, t: State, instance: bool)
    requires h < |s.hooks| && t.calls == With(s, h, p).calls
    ensures var i := |s.calls|;
            Next(t, Advance(i, instance)).calls == With(s, h, Operation(t, i, instance).phase).calls
  {
  }

  function Locking(s: State, h: nat, p: Phase): State
    requires h < |s.hooks|
  {
    With(s, h, p).(lock := ByCall(|s.calls|))
  }

  lemma EnterGate(s: State, h: nat, instance: bool)
    requires s.lock.Free? && h < |s.hooks| && s.hooks[h].armed
    ensures var i, t := |s.calls|, Next(s, Fire(h, false));
            && Advances(t, i, instance, 1) == Locking(s, h, Locked)
            && Advances(t, i, instance, 2)
               == Locking(s, h, if s.quiescing && !s.hooks[h].exempt then Rejecting else PastGate)
  {
    var i, t := |s.calls|, Next(s, Fire(h, false));
    assert t == With(s, h, Fired);
    AdvanceLast(s, h, Fired, t, instance);
    var u := Next(t, Advance(i, instance));
    assert Advances(t, i, instance, 1) == u == Locking(s, h, Locked);
    AdvanceLast(s, h, Locked, u, instance);
    assert Advances(t, i, instance, 2) == Next(u, Advance(i, instance));
  }

  lemma Rejected(s: State, h: nat, t: State, instance: bool, n: nat)
    requires h < |s.hooks| && s.lock.Free? && n > 0
    requires t == Locking(s, h, Rejecting)
    ensures Advances(t, |s.calls|, instance, n) == With(s, h, FellThrough)
  {
    if n == 1 {
      assert Advances(t, |s.calls|, instance, 0) == t;
      AdvanceLast(s, h, Rejecting, t, instance);
    } else {
      Rejected(s, h, t, instance, n - 1);
      AdvanceLast(s, h, FellThrough, With(s, h, FellThrough), instance);
    }
  }

  /** `s` with one more call, in phase `p`, holding what that phase holds. */
  function Holding(s: State, h: nat, p: Phase): State
    requires h < |s.hooks|
  {
    var c := Call(h, s.hooks[h].exempt, p);
    With(s, h, p).(refs := s.refs + RefWeight(c), hooks := AddInflight(s.hooks, h, AnyHookWeight(c)),
                   inflight := s.inflight + GlobalWeight(c), lock := if HoldsLock(p) then ByCall(|s.calls|) else s.lock)
  }

  function After(p: Phase, instance: bool): Phase {
    match p
    case PastGate => ProbeSeen
    case ProbeSeen => Held
    case Held => HookCounted
    case HookCounted => Counted
    case Counted => Body(if instance then Tracked else NoInstance)
    case _ => p
  }

  lemma HoldingStep(s: State, h: nat, p: Phase, instance: bool)
    requires s.lock.Free? && h < |s.hooks| && Admits(s, h) && Admitting(p)
    ensures Next(Holding(s, h, p), Advance(|s.calls|, instance)) == Holding(s, h, After(p, instance))
  {
    AdvanceLast(s, h, p, Holding(s, h, p), instance);
  }

  lemma Admitted(s: State, h: nat, instance: bool)
    requires s.lock.Free? && h < |s.hooks| && Admits(s, h)
    ensures Advances(Locking(s, h, PastGate), |s.calls|, instance, 5)
         == Holding(s, h, Body(if instance then Tracked else NoInstance))
  {
    var i, t := |s.calls|, Locking(s, h, PastGate);
    assert t == Holding(s, h, PastGate);
    HoldingStep(s, h, PastGate, instance);
    assert Advances(t, i, instance, 1) == Holding(s, h, ProbeSeen);
    HoldingStep(s, h, ProbeSeen, instance);
    assert Advances(t, i, instance, 2) == Holding(s, h, Held);
    HoldingStep(s, h, Held, instance);
    assert Advances(t, i, instance, 3) == Holding(s, h, HookCounted);
    HoldingStep(s, h, HookCounted, instance);
    assert Advances(t, i, instance, 4) == Holding(s, h, Counted);
    HoldingStep(s, h, Counted, instance);
  }

  lemma ProbeMissing(s: State, h: nat, instance: bool)
    requires h < |s.hooks| && !s.hooks[h].retprobeInstalled
    ensures Next(Locking(s, h, PastGate), Advance(|s.calls|, instance)) == Locking(s, h, Rejecting)
  {
    AdvanceLast(s, h, PastGate, Locking(s, h, PastGate), instance);
  }

  lemma NoProbe(s: State, h: nat, instance: bool)
    requires s.lock.Free? && h < |s.hooks| && !s.hooks[h].retprobeInstalled
    ensures Advances(Locking(s, h, PastGate), |s.calls|, instance, 5) == Holding(s, h, FellThrough)
  {
    FellThroughHoldsNothing(s, h);
    var i, t := |s.calls|, Locking(s, h, PastGate);
    ProbeMissing(s, h, instance);
    RepeatedAdd(AdvanceOf(i, instance), t, 1, 4);
    Rejected(s, h, Locking(s, h, Rejecting), instance, 4);
  }

  lemma NoModule(s: State, h: nat, instance: bool)
    requires s.lock.Free? && h < |s.hooks| && s.hooks[h].retprobeInstalled && !s.live
    ensures Advances(Locking(s, h, PastGate), |s.calls|, instance, 5) == Holding(s, h, FellThrough)
  {
    FellThroughHoldsNothing(s, h);
    var i, t := |s.calls|, Locking(s, h, PastGate);
    AdvanceLast(s, h, PastGate, t, instance);
    var u := Locking(s, h, ProbeSeen);
    assert Advances(t, i, instance, 1) == u;
    AdvanceLast(s, h, ProbeSeen, u, instance);
    assert Advances(t, i, instance, 2) == Next(u, Advance(i, instance)) == Locking(s, h, Rejecting);
    RepeatedAdd(AdvanceOf(i, instance), t, 2, 3);
    Rejected(s, h, Locking(s, h, Rejecting), instance, 3);
  }

  /** Past the gate the call is let through, or turned away for want of a return probe or of a
      module reference. */
  lemma PastTheGate(s: State, h: nat, instance: bool)
    requires s.lock.Free? && h < |s.hooks| && !(s.quiescing && !s.hooks[h].exempt)
    ensures Advances(Locking(s, h, PastGate), |s.calls|, instance, 5) == EnteredBy(s, h, instance)
  {
    if Admits(s, h) {
      Admitted(s, h, instance);
    } else if s.live {
      NoProbe(s, h, instance);
    } else if s.hooks[h].retprobeInstalled {
      NoModule(s, h, instance);
    } else {
      NoProbe(s, h, instance);
    }
  }

  /** The whole effect of one call of a hooked symbol: a call that is let through holds one
      reference and counts once in each counter; one that is not leaves no trace. */
  function EnteredBy(s: State, h: nat, instance: bool): State
    requires h < |s.hooks|
  {
    Holding(s, h, if Admits(s, h) then Body(if instance then Tracked else NoInstance) else FellThrough)
  }

  lemma FellThroughHoldsNothing(s: State, h: nat)
    requires h < |s.hooks|
    ensures Holding(s, h, FellThrough) == With(s, h, FellThrough)
  {
  }

  lemma EnteredFields(s: State, h: nat, instance: bool)
    requires s.lock.Free? && h < |s.hooks|
    ensures var t, n := EnteredBy(s, h, instance), if Admits(s, h) then 1 else 0;
            && t == s.(calls := t.calls, hooks := t.hooks, refs := s.refs + n, inflight := s.inflight + n)
            && t.calls == s.calls + [Call(h, s.hooks[h].exempt,
                                         if !Admits(s, h) then FellThrough
                                           else Body(if instance then Tracked else NoInstance))]
            && t.hooks == if Admits(s, h) then s.hooks[h := s.hooks[h].(inflight := s.hooks[h].inflight + 1)] else s.hooks
  {
  }

  /** It is what the call's atomic operations add up to. */
  lemma EnterEffect(s: State, h: nat, instance: bool)
    requires s.lock.Free? && h < |s.hooks| && s.hooks[h].armed
    ensures Entered(s, h, instance) == EnteredBy(s, h, instance)
  {
    var i, t := |s.calls|, Next(s, Fire(h, false));
    assert Entered(s, h, instance) == Advances(Advances(t, i, instance, 2), i, instance, 5) by {
      RepeatedAdd(AdvanceOf(i, instance), t, 2, 5);
    }
    EnterGate(s, h, instance);
    FellThroughHoldsNothing(s, h);
    if s.quiescing && !s.hooks[h].exempt {
      Rejected(s, h, Locking(s, h, Rejecting), instance, 5);
    } else {
      PastTheGate(s, h, instance);
    }
  }

  // ------------------------------------------------------------------ returning

  /** `s` with call `i` in phase `p`, holding what that phase holds. */
  function Returning(s: State, i: nat, p: Phase): State
    requires i < |s.calls|
  {
    var c := s.calls[i].(phase := p);
    s.(calls := s.calls[i := c], refs := s.refs + RefWeight(c) - 1,
       hooks := AddInflight(s.hooks, c.hook, AnyHookWeight(c) - 1), inflight := s.inflight + GlobalWeight(c) - 1)
  }

  lemma AddInflightTwice(hooks: seq<Hook>, h: nat, a: int, b: int)
    ensures AddInflight(AddInflight(hooks, h, a), h, b) == AddInflight(hooks, h, a + b)
  {
  }

  lemma ReturningStep(s: State, i: nat, p: Phase)
    requires i < |s.calls| && s.calls[i].phase == Body(Handler.Tracked)
    requires p == Body(Handler.Tracked) || p.InHandler? || p.HookDropped? || p.GlobalDropped?
    ensures Next(Returning(s, i, p), Advance(i, true))
         == Returning(s, i, if p.Body? then InHandler else if p.InHandler? then HookDropped
                            else if p.HookDropped? then GlobalDropped else Returned)
  {
    var t := Returning(s, i, p);
    var q := Operation(t, i, true).phase;
    var c, d := s.calls[i].(phase := p), s.calls[i].(phase := q);
    assert t.calls[i := t.calls[i].(phase := q)] == s.calls[i := d];
    AddInflightTwice(s.hooks, c.hook, AnyHookWeight(c) - 1, AnyHookWeight(d) - AnyHookWeight(c));
    hide AddInflight;
  }

  /** The whole effect of one return: a tracked one gives everything back, any other leaks. */
  function ReturnedFrom(s: State, i: nat): State
    requires i < |s.calls| && s.calls[i].phase.Body? && s.calls[i].hook < |s.hooks|
  {
    var h := s.calls[i].hook;
    if s.calls[i].phase.handler.Tracked?
    then s.(calls := s.calls[i := s.calls[i].(phase := Returned)], refs := s.refs - 1,
            hooks := s.hooks[h := s.hooks[h].(inflight := s.hooks[h].inflight - 1)],
            inflight := s.inflight - 1)
    else s.(calls := s.calls[i := s.calls[i].(phase := Leaked)])
  }

  lemma ReturnedHolds(s: State, i: nat)
    requires i < |s.calls| && s.calls[i].phase.Body? && s.calls[i].hook < |s.hooks|
    ensures Returning(s, i, if s.calls[i].phase.handler.Tracked? then Returned else Leaked) == ReturnedFrom(s, i)
  {
  }

  lemma Leaks(s: State, i: nat)
    requires i < |s.calls| && s.calls[i].phase.Body? && !s.calls[i].phase.handler.Tracked?
    ensures Advances(s, i, true, 4) == Returning(s, i, Leaked)
  {
    var t := Returning(s, i, Leaked);
    assert Advances(s, i, true, 1) == t;
    assert t.calls[i := t.calls[i].(phase := Leaked)] == t.calls;
    assert Next(t, Advance(i, true)) == t;
    assert Advances(s, i, true, 2) == t;
    assert Advances(s, i, true, 3) == t;
  }

  /** A tracked return gives back its one reference and both counts; any other return leaks. */
  lemma ReturnEffect(s: State, i: nat)
    requires i < |s.calls| && s.calls[i].phase.Body? && s.calls[i].hook < |s.hooks|
    ensures Advances(s, i, true, 4) == ReturnedFrom(s, i)
  {
    ReturnedHolds(s, i);
    if s.calls[i].phase.handler.Tracked? {
      ReturningStep(s, i, Body(Handler.Tracked));
      assert Advances(s, i, true, 1) == Returning(s, i, InHandler);
      ReturningStep(s, i, InHandler);
      assert Advances(s, i, true, 2) == Returning(s, i, HookDropped);
      ReturningStep(s, i, HookDropped);
      assert Advances(s, i, true, 3) == Returning(s, i, GlobalDropped);
      ReturningStep(s, i, GlobalDropped);
    } else {
      Leaks(s, i);
    }
  }

  // ------------------------------------------------------------------ install and remove

  /** shadow_hook_install() says -ENOENT for a missing symbol, the kernel's error, which may be
      -ENOENT as well, for a probe or a redirect that it refuses, and 0 otherwise; only the 0
      of a hook that was not installed before leaves a new redirect, and no failure leaves
      anything behind but a place on the lifetime list. */
  function CodeOf(h: Hook, k: Kernel): Code {
    if h.installed then Done
    else if !k.resolves then Missing
    else if !h.retprobeInstalled && !k.probe.Done? then k.probe
    else k.arm
  }

  function InstallCode(s: State, h: nat, k: Kernel): Code
    requires h < |s.hooks|
  {
    CodeOf(s.hooks[h], k)
  }

  /** The hook after its installation. */
  function Landed(h: Hook, k: Kernel): Hook {
    if CodeOf(h, k).Done? && !h.installed
    then h.(armed := true, installed := true, probe := true, retprobeInstalled := true) else h
  }

  /** What an installation that reaches the redirect leaves behind. */
  function Redirected(s: State, h: nat): seq<Hook>
    requires h < |s.hooks|
  {
    s.hooks[h := s.hooks[h].(armed := true, installed := true, probe := true, retprobeInstalled := true)]
  }

  /** Every running replacement has the return probe it relies on. */
  predicate Sound(s: State) {
    && (forall h | 0 <= h < |s.hooks| :: s.hooks[h].probe == s.hooks[h].retprobeInstalled)
    && (forall i | 0 <= i < |s.calls| :: s.calls[i].phase == Body(Tracked) && s.calls[i].hook < |s.hooks| ==>
          s.hooks[s.calls[i].hook].retprobeInstalled)
  }

  /** The engine is sound whenever no lifecycle operation is under way. */
  lemma IdleIsSound(s: State)
    requires Inv(s) && s.control.Idle? && s.live
    ensures Sound(s)
  {
    forall h | 0 <= h < |s.hooks| ensures s.hooks[h].probe == s.hooks[h].retprobeInstalled {
      assert HookOk(s, h);
    }
  }

  /** A return probe that is not registered has no call to lose. */
  lemma NothingToOrphan(s: State, h: nat)
    requires Sound(s) && h < |s.hooks| && !s.hooks[h].retprobeInstalled
    ensures OrphanAll(s.calls, h) == s.calls
  {
  }

  function OnLifetime(s: State, h: nat): seq<nat> {
    if h in s.lifetime then s.lifetime else s.lifetime + [h]
  }

  /** The return probe of `h` registered, and on the lifetime list. */
  function WithProbe(s: State, h: nat): State
    requires h < |s.hooks|
  {
    s.(hooks := s.hooks[h := s.hooks[h].(probe := true, retprobeInstalled := true)], lifetime := OnLifetime(s, h))
  }

  /** The return probe of `h` unregistered. */
  function WithoutProbe(s: State, h: nat): State
    requires h < |s.hooks|
  {
    s.(calls := OrphanAll(s.calls, h), hooks := s.hooks[h := s.hooks[h].(probe := false, retprobeInstalled := false)])
  }

  /** Registering and unregistering a fresh return probe leaves a place on the lifetime list and
      nothing else. */
  lemma ProbeRestores(s: State, h: nat)
    requires Sound(s) && h < |s.hooks|
    ensures s.hooks[h].probe == s.hooks[h].retprobeInstalled
    ensures !s.hooks[h].retprobeInstalled ==> WithoutProbe(WithProbe(s, h), h) == s.(lifetime := OnLifetime(s, h))
  {
    if !s.hooks[h].retprobeInstalled {
      NothingToOrphan(s, h);
      assert s.hooks[h := s.hooks[h]] == s.hooks;
    }
  }

  predicate Installable(s: State, h: nat) {
    h < |s.hooks| && s.control.Idle? && s.live && Inv(s)
  }

  lemma StepsAre(s: State, ok: bool)
    ensures Steps(s, ok, 1) == Next(s, ControlStep(ok))
    ensures Steps(s, ok, 2) == Next(Steps(s, ok, 1), ControlStep(ok))
    ensures Steps(s, ok, 3) == Next(Steps(s, ok, 2), ControlStep(ok))
    ensures Steps(s, ok, 4) == Next(Steps(s, ok, 3), ControlStep(ok))
  {
  }

  /** The return probe is registered, its flag set, and the hook about to be redirected. */
  function Probing(s: State, h: nat): State
    requires h < |s.hooks|
  {
    s.(hooks := s.hooks[h := s.hooks[h].(probe := true, retprobeInstalled := true)],
       lifetime := OnLifetime(s, h), control := Arming(h, true))
  }

  /** The first half of an installation with a fresh return probe. */
  lemma InstallProbe(s: State, h: nat, ok: bool)
    requires Installable(s, h) && !s.hooks[h].installed && !s.hooks[h].retprobeInstalled
    ensures Steps(Next(s, BeginInstall(h, true, true)), ok, 2)
         == Probing(s, h)
  {
    StepsAre(Next(s, BeginInstall(h, true, true)), ok);
  }

  lemma {:induction false} StepsInv(s: State, ok: bool, n: nat)
    requires Inv(s)
    ensures Inv(Steps(s, ok, n))
  {
    if n > 0 {
      StepsInv(s, ok, n - 1);
      NextInv(Steps(s, ok, n - 1), ControlStep(ok));
    }
  }

  lemma ArmProbed(s: State, h: nat)
    requires h < |s.hooks|
    ensures Steps(Probing(s, h), true, 2) == s.(hooks := Redirected(s, h), lifetime := OnLifetime(s, h), control := Idle)
  {
    StepsAre(Probing(s, h), true);
  }

  lemma RollBackProbed(s: State, h: nat)
    requires h < |s.hooks| && !s.hooks[h].probe && !s.hooks[h].retprobeInstalled && Inv(Probing(s, h))
    ensures Steps(Probing(s, h), false, 2) == s.(lifetime := OnLifetime(s, h), control := Idle)
  {
    StepsAre(Probing(s, h), false);
    UnregisterOrphansNone(Probing(s, h), h);
    assert s.hooks[h := s.hooks[h]] == s.hooks;
  }

  lemma ProbingInv(s: State, h: nat, ok: bool)
    requires Installable(s, h) && !s.hooks[h].installed && !s.hooks[h].retprobeInstalled
    ensures Inv(Probing(s, h)) && !s.hooks[h].probe
  {
    InstallProbe(s, h, ok);
    assert HookOk(s, h);
    NextInv(s, BeginInstall(h, true, true));
    StepsInv(Next(s, BeginInstall(h, true, true)), ok, 2);
  }

  lemma InstallToProbed(s: State, h: nat, ok: bool)
    requires Installable(s, h) && !s.hooks[h].installed && !s.hooks[h].retprobeInstalled
    ensures Steps(Next(s, BeginInstall(h, true, true)), ok, 4) == Steps(Probing(s, h), ok, 2)
  {
    InstallProbe(s, h, ok);
    hide Next, Probing, Inv;
    RepeatedAdd(StepOf(ok), Next(s, BeginInstall(h, true, true)), 2, 2);
  }

  lemma InstallArmed(s: State, h: nat)
    requires Installable(s, h) && !s.hooks[h].installed && !s.hooks[h].retprobeInstalled
    ensures Steps(Next(s, BeginInstall(h, true, true)), true, 4)
         == s.(hooks := Redirected(s, h), lifetime := OnLifetime(s, h))
  {
    InstallToProbed(s, h, true);
    ArmProbed(s, h);
  }

  lemma InstallRolledBack(s: State, h: nat)
    requires Installable(s, h) && !s.hooks[h].installed && !s.hooks[h].retprobeInstalled
    ensures Steps(Next(s, BeginInstall(h, true, true)), false, 4) == s.(lifetime := OnLifetime(s, h))
  {
    InstallToProbed(s, h, false);
    ProbingInv(s, h, false);
    RollBackProbed(s, h);
  }

  lemma InstallAgain(s: State, h: nat, probeOk: bool, ok: bool)
    requires Installable(s, h) && !s.hooks[h].installed && s.hooks[h].retprobeInstalled
    ensures Steps(Next(s, BeginInstall(h, true, probeOk)), ok, 4) == s.(hooks := if ok then Redirected(s, h) else s.hooks)
  {
    var t := Next(s, BeginInstall(h, true, probeOk));
    StepsAre(t, ok);
    assert HookOk(s, h);
  }

  /** The whole effect of shadow_hook_install() on one hook. */
  function InstalledBy(s: State, h: nat, k: Kernel): State
    requires h < |s.hooks|
  {
    s.(hooks := if InstallCode(s, h, k).Done? && !s.hooks[h].installed then Redirected(s, h) else s.hooks,
       lifetime := if !s.hooks[h].installed && k.resolves && !s.hooks[h].retprobeInstalled && k.probe.Done?
                   then OnLifetime(s, h) else s.lifetime)
  }

  lemma InstallGivesUp(s: State, h: nat, k: Kernel)
    requires Installable(s, h)
    requires s.hooks[h].installed || !k.resolves || (!s.hooks[h].retprobeInstalled && !k.probe.Done?)
    ensures Steps(Next(s, BeginInstall(h, k.resolves, k.probe.Done?)), k.arm.Done?, 4) == s == InstalledBy(s, h, k)
  {
    StepsAre(s, k.arm.Done?);
  }

  lemma InstalledSound(s: State, h: nat, k: Kernel)
    requires h < |s.hooks| && Sound(s)
    ensures Sound(InstalledBy(s, h, k))
  {
  }

  /** It is what the operations of one installation add up to. */
  lemma InstallEffect(s: State, h: nat, k: Kernel)
    requires Installable(s, h)
    ensures Steps(Next(s, BeginInstall(h, k.resolves, k.probe.Done?)), k.arm.Done?, 4) == InstalledBy(s, h, k)
  {
    if s.hooks[h].installed || !k.resolves || (!s.hooks[h].retprobeInstalled && !k.probe.Done?) {
      InstallGivesUp(s, h, k);
    } else if s.hooks[h].retprobeInstalled {
      InstallAgain(s, h, k.probe.Done?, k.arm.Done?);
    } else if k.arm.Done? {
      InstallArmed(s, h);
    } else {
      InstallRolledBack(s, h);
    }
  }

  /** The whole effect of shadow_hook_remove() on one hook. */
  function RemovedBy(s: State, h: nat): State
    requires h < |s.hooks|
  {
    s.(hooks := if s.hooks[h].installed then s.hooks[h := s.hooks[h].(armed := false, installed := false)] else s.hooks)
  }

  lemma RemoveEffect(s: State, h: nat)
    requires s.control.Idle? && h < |s.hooks|
    ensures Steps(Next(s, BeginRemove(h)), true, 1) == RemovedBy(s, h)
  {
    StepsAre(Next(s, BeginRemove(h)), true);
  }

  // ------------------------------------------------------------------ groups of hooks

  predicate Known(s: State, list: seq<nat>) {
    forall m | 0 <= m < |list| :: list[m] < |s.hooks|
  }

  /** shadow_hook_install_all() on the first `n` hooks of `list`, none of which failed. */
  function InstalledAll(s: State, list: seq<nat>, ks: seq<Kernel>, n: nat): (t: State)
    requires Known(s, list) && n <= |list| == |ks|
    ensures |t.hooks| == |s.hooks|
  {
    if n == 0 then s else InstalledBy(InstalledAll(s, list, ks, n - 1), list[n - 1], ks[n - 1])
  }

  /** What the `n`th hook's installation answers. */
  function CodeAt(s: State, list: seq<nat>, ks: seq<Kernel>, n: nat): Code
    requires Known(s, list) && n < |list| == |ks|
  {
    InstallCode(InstalledAll(s, list, ks, n), list[n], ks[n])
  }

  /** How many of the first `n` installations answered 0. */
  function Successes(s: State, list: seq<nat>, ks: seq<Kernel>, n: nat): nat
    requires Known(s, list) && n <= |list| == |ks|
  {
    if n == 0 then 0 else Successes(s, list, ks, n - 1) + (if CodeAt(s, list, ks, n - 1).Done? then 1 else 0)
  }

  predicate NoneFailed(s: State, list: seq<nat>, ks: seq<Kernel>, n: nat)
    requires Known(s, list) && n <= |list| == |ks|
  {
    forall m | 0 <= m < n :: CodeAt(s, list, ks, m) != Failed
  }

  /** Equal but for hooks of `list`, whose flags may differ, and the lifetime list. */
  predicate OnlyListed(s: State, t: State, list: seq<nat>) {
    && t == s.(hooks := t.hooks, lifetime := t.lifetime)
    && |t.hooks| == |s.hooks|
    && forall h | 0 <= h < |s.hooks| ::
         && (h !in list ==> t.hooks[h] == s.hooks[h])
         && t.hooks[h].inflight == s.hooks[h].inflight && t.hooks[h].exempt == s.hooks[h].exempt
  }

  predicate Ready(s: State, list: seq<nat>) {
    s.control.Idle? && s.live && Inv(s) && Known(s, list)
  }

  lemma InstallKeepsInv(s: State, h: nat, k: Kernel)
    requires Installable(s, h)
    ensures Installable(InstalledBy(s, h, k), h)
  {
    InstallEffect(s, h, k);
    NextInv(s, BeginInstall(h, k.resolves, k.probe.Done?));
    StepsInv(Next(s, BeginInstall(h, k.resolves, k.probe.Done?)), k.arm.Done?, 4);
  }

  lemma {:induction false} InstalledAllInv(s: State, list: seq<nat>, ks: seq<Kernel>, n: nat)
    requires Ready(s, list) && n <= |list| == |ks|
    ensures Ready(InstalledAll(s, list, ks, n), list)
  {
    if n > 0 {
      InstalledAllInv(s, list, ks, n - 1);
      InstallKeepsInv(InstalledAll(s, list, ks, n - 1), list[n - 1], ks[n - 1]);
    }
  }

  /** Installing one hook changes that hook only, and it is installed then exactly if the
      answer is 0. */
  lemma InstallOne(s: State, list: seq<nat>, m: nat, k: Kernel)
    requires Known(s, list) && m < |list|
    ensures var t, h := InstalledBy(s, list[m], k), list[m];
            && OnlyListed(s, t, list)
            && (forall g | 0 <= g < |s.hooks| :: s.hooks[g].installed ==> t.hooks[g].installed)
            && (t.hooks[h].installed <==> InstallCode(s, h, k).Done?)
  {
  }

  lemma OnlyListedTrans(s: State, t: State, u: State, list: seq<nat>)
    requires OnlyListed(s, t, list) && OnlyListed(t, u, list)
    ensures OnlyListed(s, u, list)
  {
  }

  lemma {:induction false} InstalledAllListed(s: State, list: seq<nat>, ks: seq<Kernel>, n: nat)
    requires Known(s, list) && n <= |list| == |ks|
    ensures OnlyListed(s, InstalledAll(s, list, ks, n), list)
  {
    hide InstalledBy;
    if n > 0 {
      InstalledAllListed(s, list, ks, n - 1);
      var t := InstalledAll(s, list, ks, n - 1);
      InstallOne(t, list, n - 1, ks[n - 1]);
      OnlyListedTrans(s, t, InstalledBy(t, list[n - 1], ks[n - 1]), list);
    }
  }

  /** An installed hook stays installed while the rest of its group is installed. */
  lemma {:induction false} InstalledAllKeeps(s: State, list: seq<nat>, ks: seq<Kernel>, m: nat, n: nat, h: nat)
    requires Known(s, list) && m <= n <= |list| == |ks| && h < |s.hooks|
    ensures InstalledAll(s, list, ks, m).hooks[h].installed ==> InstalledAll(s, list, ks, n).hooks[h].installed
  {
    if m < n {
      InstalledAllKeeps(s, list, ks, m, n - 1, h);
      InstallOne(InstalledAll(s, list, ks, n - 1), list, n - 1, ks[n - 1]);
    }
  }

  /** A hook whose installation answered 0 is installed when the pass is through. */
  lemma InstalledAllDone(s: State, list: seq<nat>, ks: seq<Kernel>, m: nat, n: nat)
    requires Known(s, list) && m < n <= |list| == |ks| && CodeAt(s, list, ks, m).Done?
    ensures InstalledAll(s, list, ks, n).hooks[list[m]].installed
  {
    InstallOne(InstalledAll(s, list, ks, m), list, m, ks[m]);
    InstalledAllKeeps(s, list, ks, m + 1, n, list[m]);
  }

  /** How far an installation pass got, and what it answered. */
  predicate PassEnded(s: State, list: seq<nat>, ks: seq<Kernel>, code: Code, done: nat)
    requires Known(s, list) && |list| == |ks|
  {
    && done <= |list| && (code.Done? || code.Failed?)
    && if code.Done? then done == |list| && NoneFailed(s, list, ks, done)
       else done > 0 && NoneFailed(s, list, ks, done - 1) && CodeAt(s, list, ks, done - 1).Failed?
  }

  function Kernels(kernel: seq<Kernel>, list: seq<nat>): (ks: seq<Kernel>)
    requires forall i | 0 <= i < |list| :: list[i] < |kernel|
    ensures |ks| == |list|
  {
    seq(|list|, i requires 0 <= i < |list| => kernel[list[i]])
  }

  lemma InstalledIsLanded(s: State, h: nat, k: Kernel)
    requires h < |s.hooks|
    ensures InstalledBy(s, h, k).hooks == s.hooks[h := Landed(s.hooks[h], k)]
  {
  }

  /** Installing a hook once more, with the same answers, gives the same. */
  lemma LandedTwice(h: Hook, k: Kernel)
    ensures CodeOf(Landed(h, k), k) == CodeOf(h, k) && Landed(Landed(h, k), k) == Landed(h, k)
  {
  }

  /** With one answer of the kernel for each hook, what a pass does to a hook depends on that
      hook alone, as it was before the pass: neither the order nor the other hooks matter. */
  lemma {:induction false} PassByHook(s: State, list: seq<nat>, kernel: seq<Kernel>, n: nat)
    requires Known(s, list) && n <= |list| && |kernel| == |s.hooks|
    ensures forall h | 0 <= h < |s.hooks| :: InstalledAll(s, list, Kernels(kernel, list), n).hooks[h]
              == if h in list[..n] then Landed(s.hooks[h], kernel[h]) else s.hooks[h]
  {
    if n > 0 {
      var h := list[n - 1];
      PassByHook(s, list, kernel, n - 1);
      InstalledIsLanded(InstalledAll(s, list, Kernels(kernel, list), n - 1), h, kernel[h]);
      LandedTwice(s.hooks[h], kernel[h]);
      assert list[..n] == list[..n - 1] + [h];
    }
  }

  lemma CodesByHook(s: State, list: seq<nat>, kernel: seq<Kernel>, m: nat)
    requires Known(s, list) && m < |list| && |kernel| == |s.hooks|
    ensures CodeAt(s, list, Kernels(kernel, list), m) == CodeOf(s.hooks[list[m]], kernel[list[m]])
  {
    PassByHook(s, list, kernel, m);
    LandedTwice(s.hooks[list[m]], kernel[list[m]]);
  }

  /** A pass counts every hook of its array exactly if every installation answers 0. */
  lemma {:induction false} AllSucceeded(s: State, list: seq<nat>, ks: seq<Kernel>, n: nat)
    requires Known(s, list) && n <= |list| == |ks|
    ensures Successes(s, list, ks, n) <= n
    ensures Successes(s, list, ks, n) == n <==> forall m | 0 <= m < n :: CodeAt(s, list, ks, m).Done?
  {
    if n > 0 { AllSucceeded(s, list, ks, n - 1); }
  }

  /** shadow_hook_remove_all() on the first `n` hooks of `list`. */
  function RemovedAll(s: State, list: seq<nat>, n: nat): (t: State)
    requires Known(s, list) && n <= |list|
    ensures |t.hooks| == |s.hooks|
  {
    if n == 0 then s else RemovedBy(RemovedAll(s, list, n - 1), list[n - 1])
  }

  lemma {:induction false} RemovedAllInv(s: State, list: seq<nat>, n: nat)
    requires s.control.Idle? && Inv(s) && Known(s, list) && n <= |list|
    ensures var t := RemovedAll(s, list, n); t.control.Idle? && Inv(t)
  {
    if n > 0 {
      RemovedAllInv(s, list, n - 1);
      var t := RemovedAll(s, list, n - 1);
      RemoveEffect(t, list[n - 1]);
      NextInv(t, BeginRemove(list[n - 1]));
      StepsInv(Next(t, BeginRemove(list[n - 1])), true, 1);
    }
  }

  /** Between lifecycle operations a hook is redirected exactly if it is installed. */
  predicate Agree(hooks: seq<Hook>) {
    forall h | 0 <= h < |hooks| :: hooks[h].armed <==> hooks[h].installed
  }

  lemma IdleAgrees(s: State)
    requires Inv(s) && s.control.Idle?
    ensures Agree(s.hooks)
  {
    forall h | 0 <= h < |s.hooks| ensures s.hooks[h].armed <==> s.hooks[h].installed {
      assert HookOk(s, h);
    }
  }

  /** `b` is `a` with some redirects taken away and nothing else. */
  predicate Fewer(a: seq<Hook>, b: seq<Hook>) {
    && |a| == |b|
    && forall h | 0 <= h < |a| ::
         && b[h] == a[h].(armed := b[h].armed, installed := b[h].installed)
         && (b[h].armed ==> a[h].armed) && (b[h].installed ==> a[h].installed)
  }

  /** Afterwards no listed hook is redirected, no other hook changed, and every return probe
      stays, even that of a removed hook. */
  lemma {:induction false} RemovedAllMeans(s: State, list: seq<nat>, n: nat)
    requires Agree(s.hooks) && Known(s, list) && n <= |list|
    ensures var t := RemovedAll(s, list, n);
            && t == s.(hooks := t.hooks) && Agree(t.hooks) && Fewer(s.hooks, t.hooks)
            && (forall m | 0 <= m < n :: !t.hooks[list[m]].installed && !t.hooks[list[m]].armed)
            && (forall h | 0 <= h < |s.hooks| && h !in list :: t.hooks[h] == s.hooks[h])
  {
    if n > 0 {
      RemovedAllMeans(s, list, n - 1);
    }
  }

  // ------------------------------------------------------------------ the registry of groups

  /** Each hook array is registered at most once. */
  predicate Distinct(groups: seq<Group>) {
    forall i, j | 0 <= i < j < |groups| :: groups[i].hooks != groups[j].hooks
  }

  /** Whether the array is registered, and what its flag says. */
  function Status(groups: seq<Group>, hooks: seq<nat>): Option<bool> {
    if groups == [] then None
    else if groups[0].hooks == hooks then Some(groups[0].active)
    else Status(groups[1..], hooks)
  }

  function Position(groups: seq<Group>, hooks: seq<nat>): (i: nat)
    ensures i <= |groups|
    ensures i < |groups| ==> groups[i].hooks == hooks && Status(groups, hooks) == Some(groups[i].active)
    ensures i == |groups| ==> Status(groups, hooks).None?
    ensures forall j | 0 <= j < i :: groups[j].hooks != hooks
  {
    if groups == [] || groups[0].hooks == hooks then 0 else 1 + Position(groups[1..], hooks)
  }

  /** Setting the flag at the place where an array is found, or appending it, changes the
      status of that array only. */
  lemma {:induction false} StatusUpdated(groups: seq<Group>, i: nat, active: bool, other: seq<nat>)
    requires i < |groups|
    ensures Status(groups[i := groups[i].(active := active)], other)
         == if other == groups[i].hooks && i == Position(groups, other) then Some(active) else Status(groups, other)
  {
    var t := groups[i := groups[i].(active := active)];
    if i == 0 {
      assert t[1..] == groups[1..];
    } else {
      assert t[1..] == groups[1..][i - 1 := groups[i].(active := active)];
      StatusUpdated(groups[1..], i - 1, active, other);
    }
  }

  lemma {:induction false} StatusAppended(groups: seq<Group>, g: Group, other: seq<nat>)
    requires Status(groups, g.hooks).None?
    ensures Status(groups + [g], other) == if other == g.hooks then Some(g.active) else Status(groups, other)
  {
    if groups != [] {
      assert (groups + [g])[1..] == groups[1..] + [g];
      StatusAppended(groups[1..], g, other);
    }
  }

  // ------------------------------------------------------------------ final teardown

  /** The kernel may run the module's exit code: no call holds a reference, and the lifetime
      list reaches every return probe. */
  predicate Deletable(s: State) {
    && (forall i | 0 <= i < |s.calls| :: RefWeight(s.calls[i]) == 0)
    && (forall j | 0 <= j < |s.lifetime| :: s.lifetime[j] < |s.hooks|)
    && (forall h | 0 <= h < |s.hooks| :: s.hooks[h].probe ==> s.hooks[h].retprobeInstalled)
    && (forall h | 0 <= h < |s.hooks| :: s.hooks[h].retprobeInstalled ==> h in s.lifetime)
  }

  lemma DeletedIsDeletable(s: State)
    requires Inv(s) && !s.live && s.control.Idle?
    ensures Deletable(s)
  {
    NoRefNoCall(s);
    forall h | 0 <= h < |s.hooks|
      ensures s.hooks[h].probe ==> s.hooks[h].retprobeInstalled
      ensures s.hooks[h].retprobeInstalled ==> h in s.lifetime
    {
      assert HookOk(s, h);
    }
  }

  lemma OrphansNone(s: State, h: nat)
    requires Deletable(s)
    ensures OrphanAll(s.calls, h) == s.calls
  {
    forall i | 0 <= i < |s.calls| ensures Orphan(s.calls[i], h) == s.calls[i] {
      assert RefWeight(s.calls[i]) == 0;
    }
  }

  /** The teardown has gone through the first `i` places of the lifetime list. */
  predicate TornDown(s: State, hooks: seq<Hook>, i: nat) {
    && |hooks| == |s.hooks| && i <= |s.lifetime|
    && forall h | 0 <= h < |hooks| ::
         hooks[h] == if h in s.lifetime[..i] then s.hooks[h].(probe := false, retprobeInstalled := false) else s.hooks[h]
  }

  lemma TornBegins(s: State)
    ensures TornDown(s, s.hooks, 0)
  {
  }

  lemma TornNext(s: State, hooks: seq<Hook>, i: nat)
    requires Deletable(s) && TornDown(s, hooks, i) && i < |s.lifetime|
    ensures var h := s.lifetime[i];
            && h < |hooks|
            && TornDown(s, if hooks[h].retprobeInstalled
                           then hooks[h := hooks[h].(probe := false, retprobeInstalled := false)] else hooks, i + 1)
  {
    assert s.lifetime[..i + 1] == s.lifetime[..i] + [s.lifetime[i]];
  }

  lemma TornEnds(s: State, hooks: seq<Hook>)
    requires Deletable(s) && TornDown(s, hooks, |s.lifetime|)
    ensures forall h | 0 <= h < |hooks| ::
              hooks[h] == s.hooks[h].(probe := false, retprobeInstalled := false)
  {
    assert s.lifetime[..|s.lifetime|] == s.lifetime;
  }

  // ------------------------------------------------------------------ the code

  class Engine {
    var hooks: seq<Hook>
    var lifetime: seq<nat>
    var calls: seq<Call>
    var lock: Lock
    var quiescing: bool
    var inflight: int
    var refs: int
    var other: nat
    var live: bool
    var control: Control
    var groups: seq<Group>

    function View(): State
      reads this
    {
      State(hooks, lifetime, calls, lock, quiescing, inflight, refs, other, live, control)
    }

    constructor (exempt: seq<bool>)
      ensures View() == Init(exempt) && groups == []
    {
      hooks := seq(|exempt|, i requires 0 <= i < |exempt| => Hook(exempt[i], false, false, false, false, 0));
      lifetime, calls, lock, quiescing := [], [], Free, false;
      inflight, refs, other, live, control, groups := 0, 0, 0, true, Idle, [];
    }

    /** shadow_hook_thunk() and shadow_hook_redirect_enter(). */
    method RedirectEnter(h: nat, instance: bool) returns (entered: bool)
      requires lock.Free? && h < |hooks|
      modifies this
      ensures View() == EnteredBy(old(View()), h, instance)
      ensures entered == old(Admits(View(), h))
      ensures entered ==> refs == old(refs) + 1 && inflight == old(inflight) + 1
      ensures !entered ==> refs == old(refs) && inflight == old(inflight) && hooks == old(hooks)
      ensures groups == old(groups)
    {
      var i := |calls|;
      var reached := FellThrough;
      entered := false;
      lock := ByCall(i);
      if quiescing && !hooks[h].exempt {
      } else if !hooks[h].retprobeInstalled || !live {
      } else {
        refs := refs + 1;
        hooks := hooks[h := hooks[h].(inflight := hooks[h].inflight + 1)];
        inflight := inflight + 1;
        entered := true;
        reached := Body(if instance then Handler.Tracked else NoInstance);
      }
      lock := Free;
      calls := calls + [Call(h, hooks[h].exempt, reached)];
      EnteredFields(old(View()), h, instance);
    }

    /** shadow_hook_retprobe_ret(), or its absence when no instance was free. */
    method RetprobeRet(i: nat)
      requires i < |calls| && calls[i].phase.Body? && calls[i].hook < |hooks|
      modifies this
      ensures View() == ReturnedFrom(old(View()), i)
      ensures ReturnedFrom(old(View()), i) == Advances(old(View()), i, true, 4)
      ensures groups == old(groups)
    {
      hide Advances;
      ReturnEffect(View(), i);
      if !calls[i].phase.handler.Tracked? {
        calls := calls[i := calls[i].(phase := Leaked)];
        return;
      }
      var h := calls[i].hook;
      hooks := hooks[h := hooks[h].(inflight := hooks[h].inflight - 1)];
      inflight := inflight - 1;
      refs := refs - 1;
      calls := calls[i := calls[i].(phase := Returned)];
    }

    /** shadow_hook_quiesce(). */
    method Quiesce(value: bool)
      requires lock.Free?
      modifies this
      ensures View() == Next(Next(Next(old(View()), QuiesceLock(value)), QuiesceStep), QuiesceStep)
      ensures quiescing == value && lock.Free?
      ensures groups == old(groups)
    {
      lock := ByWriter(value, false);
      quiescing := value;
      lock := Free;
    }

    /** shadow_hook_retprobe_install(). */
    method RetprobeInstall(h: nat, k: Kernel) returns (code: Code)
      requires h < |hooks|
      modifies this`hooks, this`lifetime
      ensures code == if old(hooks[h].retprobeInstalled) then Done else k.probe
      ensures View() == if old(hooks[h].retprobeInstalled) || !code.Done? then old(View()) else WithProbe(old(View()), h)
    {
      if hooks[h].retprobeInstalled {
        return Done;
      }
      if !k.probe.Done? {
        return k.probe;
      }
      hooks := hooks[h := hooks[h].(probe := true, retprobeInstalled := true)];
      if h !in lifetime {
        lifetime := lifetime + [h];
      }
      return Done;
    }

    /** shadow_hook_retprobe_remove(). */
    method RetprobeRemove(h: nat)
      requires h < |hooks|
      modifies this`hooks, this`calls
      ensures View() == WithoutProbe(old(View()), h)
    {
      calls := OrphanAll(calls, h);
      hooks := hooks[h := hooks[h].(probe := false, retprobeInstalled := false)];
    }

    /** shadow_hook_install(). */
    method Install(h: nat, k: Kernel) returns (code: Code)
      requires h < |hooks| && Sound(View())
      modifies this
      ensures View() == InstalledBy(old(View()), h, k) && code == InstallCode(old(View()), h, k)
      ensures Sound(View())
      ensures groups == old(groups)
    {
      ghost var s := View();
      InstalledSound(s, h, k);
      ProbeRestores(s, h);
      hide Sound, OrphanAll;
      if hooks[h].installed {
        return Done;
      }
      if !k.resolves {
        return Missing;
      }
      var newRetprobe := !hooks[h].retprobeInstalled;
      code := RetprobeInstall(h, k);
      if !code.Done? {
        return;
      }
      code := k.arm;
      if !code.Done? {
        if newRetprobe {
          RetprobeRemove(h);
        }
        return;
      }
      hooks := hooks[h := hooks[h].(armed := true, installed := true)];
    }

    /** shadow_hook_remove(). */
    method Remove(h: nat)
      requires h < |hooks|
      modifies this
      ensures View() == RemovedBy(old(View()), h) && groups == old(groups)
    {
      if !hooks[h].installed {
        return;
      }
      hooks := hooks[h := hooks[h].(armed := false)];
      hooks := hooks[h := hooks[h].(installed := false)];
    }

    /** The first locked section of shadow_hook_registry_add(). */
    method Reactivate(list: seq<nat>) returns (found: bool)
      requires Distinct(groups)
      modifies this`groups
      ensures Distinct(groups) && found == old(Status(groups, list)).Some?
      ensures !found ==> groups == old(groups)
      ensures forall other :: Status(groups, other)
                == if other == list && found then Some(true) else Status(old(groups), other)
    {
      var i := FindGroup(list);
      found := i < |groups|;
      if found {
        forall other ensures Status(groups[i := groups[i].(active := true)], other) ==
                             if other == list then Some(true) else Status(groups, other) {
          StatusUpdated(groups, i, true, other);
        }
        groups := groups[i := groups[i].(active := true)];
      }
    }

    /** The second locked section: a group that was registered meanwhile stays as it is. */
    method AppendOnce(list: seq<nat>)
      requires Distinct(groups)
      modifies this`groups
      ensures Distinct(groups)
      ensures old(Status(groups, list)).Some? ==> groups == old(groups)
      ensures old(Status(groups, list)).None? ==>
                forall other :: Status(groups, other) == if other == list then Some(true) else Status(old(groups), other)
    {
      var i := FindGroup(list);
      if i == |groups| {
        forall other ensures Status(groups + [Group(list, true)], other) ==
                             if other == list then Some(true) else Status(groups, other) {
          StatusAppended(groups, Group(list, true), other);
        }
        groups := groups + [Group(list, true)];
      }
    }

    /** shadow_hook_registry_add(); `memory` says whether a new node could be allocated, and
        `meanwhile` is the registry as other callers have left it while the lock was dropped
        for the allocation.  Whatever they did, no array is registered twice; and one that
        another caller registered and marked inactive in that window is left inactive. */
    method RegistryAdd(list: seq<nat>, memory: bool, meanwhile: seq<Group>)
      requires Distinct(groups) && Distinct(meanwhile)
      modifies this`groups
      ensures Distinct(groups)
      ensures var before := if old(Status(groups, list)).Some? then old(groups) else meanwhile;
              forall other :: Status(groups, other) ==
                if other != list then Status(before, other)
                else if old(Status(groups, list)).Some? then Some(true)
                else if Status(meanwhile, list).None? && memory then Some(true)
                else Status(meanwhile, list)
    {
      var found := Reactivate(list);
      if found {
        return;
      }
      groups := meanwhile;
      if !memory {
        return;
      }
      AppendOnce(list);
    }

    /** shadow_hook_registry_find_locked(): a walk of the list. */
    method FindGroup(list: seq<nat>) returns (i: nat)
      ensures i == Position(groups, list)
    {
      i := 0;
      while i < |groups| && groups[i].hooks != list
        invariant i <= |groups|
        invariant Position(groups, list) == i + Position(groups[i..], list)
      {
        i := i + 1;
      }
    }

    /** shadow_hook_registry_remove(). */
    method RegistryRemove(list: seq<nat>)
      requires Distinct(groups)
      modifies this`groups
      ensures Distinct(groups)
      ensures forall other :: Status(groups, other) ==
                if other == list && old(Status(groups, list)).Some? then Some(false) else Status(old(groups), other)
    {
      var i := FindGroup(list);
      if i < |groups| {
        forall other ensures Status(groups[i := groups[i].(active := false)], other) ==
                             if other == list then Some(false) else Status(groups, other) {
          StatusUpdated(groups, i, false, other);
        }
        groups := groups[i := groups[i].(active := false)];
      }
    }

    /** The loop of shadow_hook_install_all(): a hook that answers -ENOENT is skipped, any other error ends
        the pass. */
    method InstallEach(list: seq<nat>, ks: seq<Kernel>) returns (code: Code, count: nat, done: nat)
      requires Known(View(), list) && Sound(View()) && |list| == |ks|
      modifies this
      ensures Sound(View()) && groups == old(groups)
      ensures PassEnded(old(View()), list, ks, code, done) && View() == InstalledAll(old(View()), list, ks, done)
      ensures count == Successes(old(View()), list, ks, done)
    {
      ghost var s := View();
      done, count := 0, 0;
      while done < |list|
        invariant done <= |list| && View() == InstalledAll(s, list, ks, done) && groups == old(groups) && Sound(View())
        invariant NoneFailed(s, list, ks, done) && count == Successes(s, list, ks, done)
      {
        var c := Install(list[done], ks[done]);
        done := done + 1;
        if c.Missing? {
          continue;
        }
        if c.Failed? {
          return Failed, count, done;
        }
        count := count + 1;
      }
      code := Done;
    }

    /** shadow_hook_install_all(). */
    method InstallAll(list: seq<nat>, ks: seq<Kernel>, memory: bool) returns (code: Code, count: nat, done: nat)
      requires Distinct(groups) && Known(View(), list) && Sound(View()) && |list| == |ks|
      modifies this
      ensures Sound(View())
      ensures Distinct(groups) && (memory || old(Status(groups, list)).Some? ==> Status(groups, list) == Some(true))
      ensures PassEnded(old(View()), list, ks, code, done) && View() == InstalledAll(old(View()), list, ks, done)
      ensures count == Successes(old(View()), list, ks, done)
    {
      RegistryAdd(list, memory, groups);
      code, count, done := InstallEach(list, ks);
    }

    /** shadow_hook_remove_all(). */
    method RemoveAll(list: seq<nat>)
      requires Distinct(groups) && Known(View(), list)
      modifies this
      ensures Distinct(groups) && Status(groups, list) != Some(true)
      ensures View() == RemovedAll(old(View()), list, |list|)
    {
      ghost var s := View();
      var i := 0;
      while i < |list|
        invariant i <= |list| && View() == RemovedAll(s, list, i) && groups == old(groups)
      {
        if hooks[list[i]].installed {
          Remove(list[i]);
        }
        i := i + 1;
      }
      RegistryRemove(list);
    }

    /** shadow_hook_teardown_all_retprobes(), once the last module reference is gone. */
    method TeardownAllRetprobes()
      requires Deletable(View())
      modifies this
      ensures forall h | 0 <= h < |hooks| :: !hooks[h].probe && !hooks[h].retprobeInstalled
      ensures |hooks| == |old(hooks)|
      ensures forall h | 0 <= h < |hooks| :: hooks[h] == old(hooks[h]).(probe := false, retprobeInstalled := false)
      ensures View() == old(View()).(hooks := hooks) && groups == old(groups)
    {
      ghost var s := View();
      var i := 0;
      TornBegins(s);
      hide TornDown, OrphanAll;
      while i < |lifetime|
        invariant i <= |lifetime| && View() == s.(hooks := hooks) && |hooks| == |s.hooks| && groups == old(groups)
        invariant TornDown(s, hooks, i)
      {
        TornNext(s, hooks, i);
        OrphansNone(s, lifetime[i]);
        if hooks[lifetime[i]].retprobeInstalled {
          RetprobeRemove(lifetime[i]);
        }
        i := i + 1;
      }
      TornEnds(s, hooks);
    }
  }
}
