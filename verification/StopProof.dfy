/** The invariant of the controlled stop holds in every reachable state. */
module StopProof {
  import opened Tally
  import opened ControlledStop
  import H = HookEngine
  import HT = HookTheorems
  import P = PinTable
  import PT = PinTheorems
  import O = PidnsOps

  // ------------------------------------------------------------------ engine steps

  /** What one engine step does to the calls: append one, change the phase of one, or nothing. */
  predicate CallsFollow(e: H.State, v: H.Event, t: H.State) {
    || t.calls == e.calls
    || (!v.Advance? && |t.calls| == |e.calls| + 1 && t.calls[..|e.calls|] == e.calls)
    || (v.Advance? && v.call < |e.calls| && |t.calls| == |e.calls|
        && t.calls == e.calls[v.call := t.calls[v.call]]
        && t.calls[v.call].exempt == e.calls[v.call].exempt)
  }

  lemma EngineCalls(e: H.State, v: H.Event)
    requires H.Inv(e)
    ensures CallsFollow(e, v, H.Next(e, v))
  {
    match v
    case Advance(i, instance) =>
    case ControlStep(ok) => H.ControlOrphansNone(e, ok);
    case _ =>
  }

  /** Appending a call or advancing one keeps the link between calls and pinning work. */
  lemma FollowLinked(s: State, e: H.Event, t: H.State)
    requires Linked(s) && CallsFollow(s.eng, e, t)
    requires e.Advance? && InBody(s, e.call) ==> Resting(s, e.call)
    ensures Linked(Follow(s, e, t))
  {
  }

  lemma SlotsInv(p: P.State, n: nat)
    requires P.Inv(p)
    ensures P.Inv(p.(threads := Slots(p.threads, n, P.Rest)))
  {
    P.SpawnInv(p);
    assert p == p.(threads := p.threads);
  }

  lemma SlotsOps(o: O.State, threads: seq<O.Asking>)
    requires OpsOk(o)
    requires (exists n: nat :: threads == Slots(o.threads, n, O.Idle)) || (exists i: nat :: threads == Forget(o.threads, i))
    ensures OpsOk(o.(threads := threads))
  {
  }

  lemma FollowOps(s: State, e: H.Event, t: H.State)
    requires OpsOk(s.ops)
    ensures OpsOk(Follow(s, e, t).ops)
  {
    var threads := Follow(s, e, t).ops.threads;
    assert threads == Slots(s.ops.threads, |t.calls|, O.Idle) || (e.Advance? && threads == Forget(s.ops.threads, e.call));
    SlotsOps(s.ops, threads);
    assert Follow(s, e, t).ops == s.ops.(threads := threads);
  }

  lemma FollowParts(s: State, e: H.Event, t: H.State)
    requires Parts(s) && H.Inv(t) && t.other >= s.nsfs.refs + s.proc.refs
    ensures Parts(Follow(s, e, t))
  {
    SlotsInv(s.nsfs, |t.calls|);
    SlotsInv(s.proc, |t.calls|);
    FollowOps(s, e, t);
    assert P.Inv(Follow(s, e, t).nsfs);
    assert P.Inv(Follow(s, e, t).proc);
  }

  lemma EngineOther(e: H.State, v: H.Event)
    ensures H.Next(e, v).other >= e.other - (if v.OtherPut? then 1 else 0)
  {
    match v
    case Advance(i, instance) => if i < |e.calls| { H.AdvanceFrame(e, i, instance); }
    case ControlStep(ok) => H.ControlFrame(e, ok);
    case _ =>
  }

  lemma FollowConfigured(s: State, e: H.Event, t: H.State)
    requires Configured(s) && H.SameExempt(t.hooks, s.eng.hooks)
    ensures Configured(Follow(s, e, t))
  {
  }

  lemma ThunksAdvance(e: H.State, i: nat, instance: bool)
    requires ThunksOk(e) && i < |e.calls|
    ensures ThunksOk(H.AdvanceCall(e, i, instance))
  {
    H.AdvanceFrame(e, i, instance);
    var t := H.AdvanceCall(e, i, instance);
    assert Entering(t.calls[i].phase) ==> Entering(e.calls[i].phase);
    forall j | 0 <= j < |t.calls| && Entering(t.calls[j].phase) && t.calls[j].hook < |t.hooks|
      ensures t.hooks[t.calls[j].hook].armed || t.control == H.Disarmed(t.calls[j].hook)
    {
      assert Entering(e.calls[j].phase);
    }
  }

  lemma ThunksBegin(e: H.State, v: H.Event)
    requires H.Inv(e) && ThunksOk(e)
    requires v.BeginInstall? || v.BeginRemove? || v.BeginTeardown?
    ensures ThunksOk(H.Next(e, v))
  {
  }

  /** Thunks start under armed hooks and a disarm waits for them. */
  lemma ThunksStep(e: H.State, v: H.Event)
    requires H.Inv(e) && ThunksOk(e)
    requires v.ControlStep? && e.control.Disarmed? ==> !ThunkRunning(e, e.control.h)
    ensures ThunksOk(H.Next(e, v))
  {
    hide H.Inv, P.Inv, OpsOk;
    match v
    case Advance(i, instance) => if i < |e.calls| { ThunksAdvance(e, i, instance); }
    case ControlStep(ok) => ThunksControl(e, ok);
    case BeginInstall(_, _, _) => ThunksBegin(e, v);
    case BeginRemove(_) => ThunksBegin(e, v);
    case BeginTeardown => ThunksBegin(e, v);
    case Fire(_, _) =>
    case _ =>
      var t := H.Next(e, v);
      assert t.calls == e.calls && t.hooks == e.hooks && t.control == e.control;
  }

  lemma ThunksControl(e: H.State, ok: bool)
    requires H.Inv(e) && ThunksOk(e)
    requires e.control.Disarmed? ==> !ThunkRunning(e, e.control.h)
    ensures ThunksOk(H.AdvanceControl(e, ok))
  {
    H.ControlOrphansNone(e, ok);
    var t := H.AdvanceControl(e, ok);
    if e.control.Disarmed? {
      assert forall i | 0 <= i < |e.calls| :: e.calls[i].hook == e.control.h ==> !Entering(e.calls[i].phase);
    }
  }

  lemma FollowSystem(s: State, e: H.Event, t: H.State)
    requires System(s) && CallsFollow(s.eng, e, t)
    requires e.Advance? && InBody(s, e.call) ==> Resting(s, e.call)
    requires H.Inv(t) && t.other >= s.nsfs.refs + s.proc.refs && H.SameExempt(t.hooks, s.eng.hooks) && ThunksOk(t)
    ensures System(Follow(s, e, t))
  {
    FollowLinked(s, e, t);
    FollowParts(s, e, t);
    FollowConfigured(s, e, t);
    assert Follow(s, e, t).eng == t;
  }

  lemma EngineSystem(s: State, e: H.Event)
    requires System(s) && EngineAllowed(s, e)
    ensures System(Follow(s, e, H.Next(s.eng, e)))
  {
    H.NextInv(s.eng, e);
    EngineCalls(s.eng, e);
    EngineOther(s.eng, e);
    H.NextExempt(s.eng, e);
    ThunksStep(s.eng, e);
    FollowSystem(s, e, H.Next(s.eng, e));
  }

  // ------------------------------------------------------------------ pinning steps

  /** What one pinning step does to the threads, the references and the fixed parts. */
  lemma PinFrame(p: P.State, v: P.Event)
    requires !v.Spawn?
    ensures var t := P.Next(p, v);
            && t.mutexed == p.mutexed && |t.threads| == |p.threads|
            && p.refs - 1 <= t.refs <= p.refs + 1
            && (t.refs > p.refs ==> v.Step? && v.answer.moduleLive)
  {
  }

  lemma PinThreads(p: P.State, v: P.Event, i: nat)
    requires !v.Spawn? && i < |p.threads| && P.MutexOk(p)
    ensures var t := P.Next(p, v);
            && |t.threads| == |p.threads|
            && (!t.threads[i].Rest? ==> !p.threads[i].Rest? || v == P.StartPin(i) || (v.StartEvict? && v.thread == i))
            && (!p.mutexed && Lookup(t.threads[i]) ==> Lookup(p.threads[i]) || v == P.StartPin(i))
  {
  }

  lemma AccountOk(e: H.State, before: int, after: int, rest: int)
    requires H.Inv(e) && ThunksOk(e)
    requires 0 <= before && 0 <= rest && e.other >= before + rest && before - 1 <= after <= before + 1
    requires after > before ==> e.live
    ensures var t := Account(e, before, after);
            H.Inv(t) && ThunksOk(t) && t == e.(other := t.other) && t.other >= after + rest
  {
    if after > before {
      H.ModuleInv(e, H.OtherGet);
      assert Account(e, before, after) == H.Next(e, H.OtherGet);
    } else if after < before {
      H.ModuleInv(e, H.OtherPut);
      assert Account(e, before, after) == H.Next(e, H.OtherPut);
    }
  }

  lemma RefsNonNegative(p: P.State)
    requires P.Inv(p)
    ensures p.refs >= 0
  {
  }

  lemma NsfsSlots(s: State, v: P.Event)
    requires System(s) && NsfsAllowed(s, v)
    ensures SlotsOk(s.eng.calls, P.Next(s.nsfs, v).threads, s.proc.threads, s.ops.threads)
  {
    var t := P.Next(s.nsfs, v);
    PinFrame(s.nsfs, v);
    forall i | 0 <= i < |s.eng.calls| ensures SlotOk(s.eng.calls[i], t.threads[i], s.proc.threads[i], s.ops.threads[i]) {
      PinThreads(s.nsfs, v, i);
      assert SlotOk(s.eng.calls[i], s.nsfs.threads[i], s.proc.threads[i], s.ops.threads[i]);
    }
  }

  lemma NsfsSystem(s: State, v: P.Event)
    requires System(s) && NsfsAllowed(s, v)
    ensures var t := P.Next(s.nsfs, v); System(s.(nsfs := t, eng := Account(s.eng, s.nsfs.refs, t.refs)))
  {
    P.NextInv(s.nsfs, v);
    PinFrame(s.nsfs, v);
    NsfsSlots(s, v);
    RefsNonNegative(s.nsfs);
    RefsNonNegative(s.proc);
    AccountOk(s.eng, s.nsfs.refs, P.Next(s.nsfs, v).refs, s.proc.refs);
  }

  lemma ProcSlots(s: State, v: P.Event)
    requires System(s) && ProcAllowed(s, v)
    ensures SlotsOk(s.eng.calls, s.nsfs.threads, P.Next(s.proc, v).threads, s.ops.threads)
  {
    var t := P.Next(s.proc, v);
    PinFrame(s.proc, v);
    forall i | 0 <= i < |s.eng.calls| ensures SlotOk(s.eng.calls[i], s.nsfs.threads[i], t.threads[i], s.ops.threads[i]) {
      PinThreads(s.proc, v, i);
      assert SlotOk(s.eng.calls[i], s.nsfs.threads[i], s.proc.threads[i], s.ops.threads[i]);
    }
  }

  lemma ProcKind(s: State, v: P.Event)
    requires ProcAllowed(s, v)
    ensures v.StartPin? || v.StartEvict? || v.Step? || v.DropPath?
    ensures v.Step? ==> v.answer.moduleLive == s.eng.live
  {
  }

  lemma SystemParts(s: State)
    requires System(s)
    ensures P.Inv(s.nsfs) && P.Inv(s.proc) && H.Inv(s.eng) && ThunksOk(s.eng) && s.eng.other >= s.nsfs.refs + s.proc.refs
  {
  }

  /** The system with another procfs table and another count of other references. */
  lemma ProcMoved(s: State, t: P.State, e: H.State)
    requires System(s) && P.Inv(t) && t.mutexed == s.proc.mutexed
    requires SlotsOk(s.eng.calls, s.nsfs.threads, t.threads, s.ops.threads)
    requires H.Inv(e) && ThunksOk(e) && e == s.eng.(other := e.other) && e.other >= s.nsfs.refs + t.refs
    ensures System(s.(proc := t, eng := e))
  {
    hide H.Inv, P.Inv, SlotsOk, OpsOk, ThunksOk, RolesOk, Listed;
  }

  lemma ProcSystem(s: State, v: P.Event)
    requires System(s) && ProcAllowed(s, v)
    ensures var t := P.Next(s.proc, v); System(s.(proc := t, eng := Account(s.eng, s.proc.refs, t.refs)))
  {
    hide System, H.Inv, P.Inv, P.Next, ProcAllowed, Account, SlotsOk, ThunksOk;
    SystemParts(s);
    P.NextInv(s.proc, v);
    ProcKind(s, v);
    PinFrame(s.proc, v);
    ProcSlots(s, v);
    RefsNonNegative(s.nsfs);
    RefsNonNegative(s.proc);
    var t := P.Next(s.proc, v);
    AccountOk(s.eng, s.proc.refs, t.refs, s.nsfs.refs);
    ProcMoved(s, t, Account(s.eng, s.proc.refs, t.refs));
  }

  lemma PidnsThreads(o: O.State, v: O.Event, i: nat)
    requires (v.Create? || v.Ask? || v.Step?) && i < |o.threads|
    ensures var t := O.Next(o, v);
            |t.threads| == |o.threads| && (t.threads[i].Idle? || !o.threads[i].Idle? || (v.Ask? && v.thread == i))
  {
  }

  lemma PidnsSlots(s: State, v: O.Event)
    requires System(s) && PidnsAllowed(s, v)
    ensures SlotsOk(s.eng.calls, s.nsfs.threads, s.proc.threads, O.Next(s.ops, v).threads)
  {
    hide H.Inv, P.Inv, OpsOk, ThunksOk, Configured;
    var t := O.Next(s.ops, v);
    assert |t.threads| == |s.ops.threads|;
    forall i | 0 <= i < |s.eng.calls| ensures SlotOk(s.eng.calls[i], s.nsfs.threads[i], s.proc.threads[i], t.threads[i]) {
      assert SlotOk(s.eng.calls[i], s.nsfs.threads[i], s.proc.threads[i], s.ops.threads[i]);
      PidnsThreads(s.ops, v, i);
    }
  }

  lemma PidnsSystem(s: State, v: O.Event)
    requires System(s) && PidnsAllowed(s, v)
    ensures System(s.(ops := O.Next(s.ops, v)))
  {
    O.NextTarget(s.ops, v);
    O.NextGrant(s.ops, v);
    PidnsSlots(s, v);
  }

  // ------------------------------------------------------------------ what the stop has established

  /** The steps other threads take while a stop runs leave the engine's flags, gate and
      lifecycle thread alone and do not undo what a drain or a removal achieved. */
  predicate Calm(e: H.State, t: H.State) {
    && H.SameFlags(t.hooks, e.hooks) && t.control == e.control && t.quiescing == e.quiescing
    && (e.lock.ByWriter? || t.lock.ByWriter? ==> t.lock == e.lock)
    && (HT.Shut(e) && HT.Drained(e) ==> HT.Drained(t))
    && (Silent(e) ==> Silent(t))
  }

  predicate CalmEvent(v: H.Event) {
    v.Fire? || v.Advance? || v.OtherGet? || v.OtherPut?
  }

  lemma SilentStep(e: H.State, v: H.Event)
    requires H.Inv(e) && Silent(e) && CalmEvent(v)
    ensures Silent(H.Next(e, v))
  {
    match v
    case Advance(i, instance) =>
      if i < |e.calls| {
        H.AdvanceFrame(e, i, instance);
        var t := H.AdvanceCall(e, i, instance);
        assert !Entering(t.calls[i].phase) && H.GlobalWeight(t.calls[i]) == 0;
      }
    case _ =>
  }

  lemma CalmFlags(e: H.State, v: H.Event)
    requires CalmEvent(v) && H.LockOk(e)
    ensures var t := H.Next(e, v);
            && H.SameFlags(t.hooks, e.hooks) && t.control == e.control && t.quiescing == e.quiescing
            && (e.lock.ByWriter? || t.lock.ByWriter? ==> t.lock == e.lock)
  {
    if v.Advance? && v.call < |e.calls| {
      H.AdvanceFrame(e, v.call, v.instance);
    }
  }

  lemma CalmStep(e: H.State, v: H.Event)
    requires H.Inv(e) && CalmEvent(v)
    ensures Calm(e, H.Next(e, v))
  {
    var t := H.Next(e, v);
    CalmFlags(e, v);
    assert Silent(e) ==> Silent(t) by {
      if Silent(e) { SilentStep(e, v); }
    }
    assert HT.Shut(e) && HT.Drained(e) ==> HT.Drained(t) by {
      if HT.Shut(e) && HT.Drained(e) { HT.DrainedStep(e, v); }
    }
  }

  /** A removal that left nothing to enter and nothing in flight is also drained. */
  lemma SilentDrained(e: H.State)
    requires Silent(e)
    ensures HT.Drained(e)
  {
    forall i | 0 <= i < |e.calls| && H.OrdinaryWeight(e.calls[i]) == 1 ensures e.calls[i].phase.GlobalDropped? {
      assert !Entering(e.calls[i].phase) && H.GlobalWeight(e.calls[i]) == 0;
    }
  }

  /** Nothing that the stop has established is touched: its own variables are the same, the
      engine moved calmly, and the pin tables kept their gate and did not fill up again. */
  predicate Kept(s: State, t: State) {
    && t == s.(eng := t.eng, nsfs := t.nsfs, proc := t.proc, ops := t.ops)
    && Calm(s.eng, t.eng)
    && t.nsfs.stopping == s.nsfs.stopping
    && (s.nsfs.mutex.Stopper? || t.nsfs.mutex.Stopper? ==> t.nsfs.mutex == s.nsfs.mutex)
    && (Stage(s.pc) >= 13 ==> t.proc.count == 0)
    && (Stage(s.pc) >= 14 ==> t.nsfs.count == 0)
  }

  lemma KeptFacts(s: State, t: State)
    requires Inv(s) && Kept(s, t)
    ensures LockFacts(t.pc, t.eng) && MutexFacts(t.pc, t.nsfs) && ControlFacts(t.pc, t.eng.control, t.removal, t.nsfsHooks)
  {
  }

  lemma KeptGates(s: State, t: State)
    requires Inv(s) && Kept(s, t)
    ensures GateFacts(t.pc, t.nsfs.stopping, t.eng.quiescing)
    ensures DrainFacts(t.pc, t.eng, t.proc.count, t.nsfs.count)
  {
    if Stage(s.pc) >= 24 { SilentDrained(t.eng); }
  }

  lemma DisarmedKept(a: seq<H.Hook>, b: seq<H.Hook>, list: seq<nat>, k: nat)
    requires H.SameFlags(b, a)
    ensures DisarmedUpTo(a, list, k) ==> DisarmedUpTo(b, list, k)
    ensures NoneArmed(a) ==> NoneArmed(b)
  {
  }

  lemma KeptRemoval(s: State, t: State)
    requires Inv(s) && Kept(s, t)
    ensures RemovalFacts(t.pc, t.eng.hooks, t.removal, t.nsfsHooks) && SilentFacts(t.pc, t.eng)
  {
    DisarmedKept(s.eng.hooks, t.eng.hooks, s.removal, |s.removal|);
    if s.pc.Remove? { DisarmedKept(s.eng.hooks, t.eng.hooks, s.removal, s.pc.k + (if s.pc.half then 1 else 0)); }
    if s.pc.RemoveNsfs? { DisarmedKept(s.eng.hooks, t.eng.hooks, s.nsfsHooks, s.pc.k + (if s.pc.half then 1 else 0)); }
  }

  lemma KeptEntry(s: State, t: State)
    requires Inv(s) && Kept(s, t)
    ensures EntryFacts(t)
  {
  }

  lemma KeptInv(s: State, t: State)
    requires Inv(s) && Kept(s, t) && System(t)
    ensures Inv(t)
  {
    KeptFacts(s, t);
    KeptGates(s, t);
    KeptRemoval(s, t);
    KeptEntry(s, t);
  }

  // ------------------------------------------------------------------ every other thread

  /** With the gate shut and the drain complete no lookup can be pinning anything. */
  lemma NoLookup(s: State)
    requires System(s) && HT.Drained(s.eng)
    ensures forall i | 0 <= i < |s.proc.threads| :: !Lookup(s.proc.threads[i])
    ensures forall i | 0 <= i < |s.ops.threads| :: s.ops.threads[i].Idle?
  {
    forall i | 0 <= i < |s.eng.calls| ensures !Lookup(s.proc.threads[i]) && s.ops.threads[i].Idle? {
      assert SlotOk(s.eng.calls[i], s.nsfs.threads[i], s.proc.threads[i], s.ops.threads[i]);
      assert H.OrdinaryWeight(s.eng.calls[i]) == 1 ==> s.eng.calls[i].phase.GlobalDropped?;
    }
  }

  lemma ProcStaysZero(s: State, v: P.Event)
    requires System(s) && HT.Drained(s.eng) && s.proc.count == 0 && ProcAllowed(s, v)
    ensures P.Next(s.proc, v).count == 0
  {
    hide H.Inv, P.Counts, P.CoverOk, P.HoldersOk, P.MutexOk;
    NoLookup(s);
    PT.CountRises(s.proc, v);
    P.NextInv(s.proc, v);
    forall i | 0 <= i < |s.proc.threads| ensures !P.Next(s.proc, v).threads[i].Hashed? {
      PinThreads(s.proc, v, i);
    }
    PinFrame(s.proc, v);
    PT.ShutCount(P.Next(s.proc, v));
  }

  lemma NsfsStaysZero(s: State, v: P.Event)
    requires P.Inv(s.nsfs) && PT.Shut(s.nsfs) && s.nsfs.count == 0 && NsfsAllowed(s, v)
    ensures P.Next(s.nsfs, v).count == 0
  {
    PT.ShutStep(s.nsfs, v);
    P.NextInv(s.nsfs, v);
    PT.ShutCount(P.Next(s.nsfs, v));
  }

  lemma CalmAccount(e: H.State, before: int, after: int)
    requires before - 1 <= after <= before + 1
    ensures Calm(e, Account(e, before, after))
  {
  }

  lemma PinCalm(p: P.State, v: P.Event)
    requires P.MutexOk(p) && !v.StopLock? && !v.StopStep?
    ensures var t := P.Next(p, v);
            && t.stopping == p.stopping
            && (p.mutex.Stopper? || t.mutex.Stopper? ==> t.mutex == p.mutex)
  {
  }

  /** While nothing is being stopped only the system itself and the gates matter. */
  lemma ReadyInv(s: State, t: State)
    requires Inv(s) && s.pc.Ready? && System(t)
    requires t == s.(eng := t.eng, nsfs := t.nsfs, proc := t.proc, ops := t.ops)
    requires t.nsfs.stopping == s.nsfs.stopping && !t.nsfs.mutex.Stopper?
    ensures Inv(t)
  {
  }

  lemma FollowShape(s: State, e: H.Event, t: H.State)
    ensures var u := Follow(s, e, t);
            && u == s.(eng := t, nsfs := u.nsfs, proc := u.proc, ops := u.ops)
            && u.nsfs == s.nsfs.(threads := u.nsfs.threads) && u.proc == s.proc.(threads := u.proc.threads)
  {
  }

  lemma EngineInv(s: State, e: H.Event)
    requires Inv(s) && EngineAllowed(s, e)
    ensures Inv(Follow(s, e, H.Next(s.eng, e)))
  {
    hide H.Inv, P.Inv;
    EngineSystem(s, e);
    FollowShape(s, e, H.Next(s.eng, e));
    if s.pc.Ready? {
      ReadyInv(s, Follow(s, e, H.Next(s.eng, e)));
    } else {
      CalmStep(s.eng, e);
      KeptInv(s, Follow(s, e, H.Next(s.eng, e)));
    }
  }

  lemma NsfsInv(s: State, v: P.Event)
    requires Inv(s) && NsfsAllowed(s, v)
    ensures var t := P.Next(s.nsfs, v); Inv(s.(nsfs := t, eng := Account(s.eng, s.nsfs.refs, t.refs)))
  {
    hide H.Inv, EntryFacts;
    NsfsSystem(s, v);
    PinCalm(s.nsfs, v);
    PinFrame(s.nsfs, v);
    CalmAccount(s.eng, s.nsfs.refs, P.Next(s.nsfs, v).refs);
    if Stage(s.pc) >= 14 { NsfsStaysZero(s, v); }
    var t := P.Next(s.nsfs, v);
    KeptInv(s, s.(nsfs := t, eng := Account(s.eng, s.nsfs.refs, t.refs)));
  }

  lemma ProcInv(s: State, v: P.Event)
    requires Inv(s) && ProcAllowed(s, v)
    ensures var t := P.Next(s.proc, v); Inv(s.(proc := t, eng := Account(s.eng, s.proc.refs, t.refs)))
  {
    hide H.Inv, P.Inv, EntryFacts;
    ProcSystem(s, v);
    PinFrame(s.proc, v);
    CalmAccount(s.eng, s.proc.refs, P.Next(s.proc, v).refs);
    if Stage(s.pc) >= 13 { ProcStaysZero(s, v); }
    var t := P.Next(s.proc, v);
    KeptInv(s, s.(proc := t, eng := Account(s.eng, s.proc.refs, t.refs)));
  }

  lemma PidnsInv(s: State, v: O.Event)
    requires Inv(s) && PidnsAllowed(s, v)
    ensures Inv(s.(ops := O.Next(s.ops, v)))
  {
    hide H.Inv, P.Inv;
    PidnsSystem(s, v);
    KeptInv(s, s.(ops := O.Next(s.ops, v)));
  }

  // ------------------------------------------------------------------ the stop's own steps

  predicate StopEvent(v: H.Event) {
    v.QuiesceLock? || v.QuiesceStep? || v.BeginRemove? || v.ControlStep?
  }

  lemma StopEngineFrame(e: H.State, v: H.Event)
    requires H.Inv(e) && StopEvent(v)
    ensures var t := H.Next(e, v);
            && t.calls == e.calls && t.other == e.other && H.SameExempt(t.hooks, e.hooks) && t.inflight == e.inflight
  {
    if v.ControlStep? {
      H.ControlOrphansNone(e, v.ok);
      H.ControlFrame(e, v.ok);
    }
  }

  lemma SharedEvent(s: State)
    ensures var op := StopShared(s);
            && (op.OnEngine? ==> StopEvent(op.e))
            && ((op.OnEngine? && op.e.ControlStep? && s.eng.control.Disarmed?
               && ControlFacts(s.pc, s.eng.control, s.removal, s.nsfsHooks)) ==>
                  !ThunkRunning(s.eng, s.eng.control.h))
            && (op.OnNsfs? ==> op.pin.StopLock? || op.pin.StopStep?)
            && (op.OnPidns? ==> s.pc.DetachLocked?)
  {
  }

  lemma StopEngineSystem(s: State)
    requires System(s) && ControlFacts(s.pc, s.eng.control, s.removal, s.nsfsHooks)
    ensures var t := ApplyEngine(s.eng, StopShared(s));
            && H.Inv(t) && ThunksOk(t) && t.calls == s.eng.calls && t.other == s.eng.other
            && H.SameExempt(t.hooks, s.eng.hooks) && t.inflight == s.eng.inflight
  {
    SharedEvent(s);
    if StopShared(s).OnEngine? {
      H.NextInv(s.eng, StopShared(s).e);
      ThunksStep(s.eng, StopShared(s).e);
      StopEngineFrame(s.eng, StopShared(s).e);
    }
  }

  lemma GateFrame(p: P.State, v: P.Event)
    requires v.StopLock? || v.StopStep?
    ensures var t := P.Next(p, v);
            && t.threads == p.threads && t.refs == p.refs && t.count == p.count && t.mutexed == p.mutexed
  {
  }

  lemma StopNsfsSystem(s: State)
    requires System(s)
    ensures var t := ApplyNsfs(s.nsfs, StopShared(s));
            && P.Inv(t) && t.threads == s.nsfs.threads && t.refs == s.nsfs.refs && t.count == s.nsfs.count
            && t.mutexed == s.nsfs.mutexed
  {
    SharedEvent(s);
    if StopShared(s).OnNsfs? {
      P.NextInv(s.nsfs, StopShared(s).pin);
      GateFrame(s.nsfs, StopShared(s).pin);
    }
  }

  lemma StopPidnsSystem(s: State)
    requires System(s) && (s.pc.DetachLocked? ==> HT.Drained(s.eng))
    ensures var t := ApplyPidns(s.ops, StopShared(s));
            && OpsOk(t) && t.threads == s.ops.threads
  {
    SharedEvent(s);
    if StopShared(s).OnPidns? {
      NoLookup(s);
      O.NextTarget(s.ops, O.Detach);
    }
  }

  lemma StopSystem(s: State, a: Answer)
    requires Inv(s)
    ensures System(StopStep(s, a))
  {
    hide H.Inv, P.Inv;
    StopEngineSystem(s);
    StopNsfsSystem(s);
    StopPidnsSystem(s);
  }

  // ------------------------------------------------------------------ facts after a step of the stop

  /** What writing the quiesce flag does: wait for the lock, take it, write, release. */
  predicate Wrote(e: H.State, value: bool, k: nat, t: H.State) {
    && t.hooks == e.hooks && t.control == e.control && t.calls == e.calls
    && (if k == 0 && !e.lock.Free? then t == e
        else if k < 2 then Writing(t, value, k + 1) && (k == 0 ==> t.quiescing == e.quiescing)
        else t.lock.Free? && t.quiescing == value)
  }

  lemma WriteStep(e: H.State, value: bool, k: nat)
    requires Writing(e, value, k)
    ensures Wrote(e, value, k, H.Next(e, QuiesceOp(value, k)))
  {
  }

  predicate Set(p: P.State, value: bool, k: nat, t: P.State) {
    && t.count == p.count
    && (if k == 0 && !p.mutex.Nobody? then t == p
        else if k < 2 then Setting(t, value, k + 1) && (k == 0 ==> t.stopping == p.stopping)
        else t.mutex.Nobody? && t.stopping == value)
  }

  lemma SettingStep(p: P.State, value: bool, k: nat)
    requires Setting(p, value, k)
    ensures Set(p, value, k, P.Next(p, NsfsOp(value, k)))
  {
  }

  predicate NotRearmed(a: seq<H.Hook>, b: seq<H.Hook>) {
    |a| == |b| && forall h | 0 <= h < |a| :: b[h].armed ==> a[h].armed
  }

  lemma StillDisarmed(a: seq<H.Hook>, b: seq<H.Hook>, list: seq<nat>, k: nat)
    requires NotRearmed(a, b)
    ensures DisarmedUpTo(a, list, k) ==> DisarmedUpTo(b, list, k)
    ensures NoneArmed(a) ==> NoneArmed(b)
  {
  }

  /** The lifecycle thread of a removal that has got to place `k` of `list`. */
  predicate AtPlace(e: H.State, list: seq<nat>, k: nat, half: bool) {
    && DisarmedUpTo(e.hooks, list, k + (if half then 1 else 0))
    && (if half then k < |list| && e.control == H.Disarmed(list[k]) else e.control.Idle?)
  }

  /** One operation of a removal gets on by at most one place and re-arms nothing. */
  predicate Removed(e: H.State, list: seq<nat>, k: nat, half: bool, t: H.State) {
    && NotRearmed(e.hooks, t.hooks) && t.quiescing == e.quiescing && t.lock == e.lock && t.calls == e.calls
    && (if k >= |list| then t == e
        else if half then (if ThunkRunning(e, list[k]) then t == e else AtPlace(t, list, k + 1, false))
        else if Installed(e, list[k]) then AtPlace(t, list, k, true)
        else AtPlace(t, list, k + 1, false))
  }

  lemma RemoveStep(e: H.State, list: seq<nat>, k: nat, half: bool)
    requires H.Inv(e) && AtPlace(e, list, k, half)
    ensures Removed(e, list, k, half, ApplyEngine(e, RemoveOp(e, list, k, half)))
  {
    if k < |list| && list[k] < |e.hooks| {
      assert H.HookOk(e, list[k]);
    }
  }

  predicate EngineMoved(s: State, t: H.State) {
    match s.pc
    case Quiesce(k) => Wrote(s.eng, true, k, t)
    case Reopen(k) => Wrote(s.eng, false, k, t)
    case UndoQuiesce(k) => Wrote(s.eng, false, k, t)
    case Remove(k, half) => Removed(s.eng, s.removal, k, half, t)
    case RemoveNsfs(k, half) => Removed(s.eng, s.nsfsHooks, k, half, t)
    case _ => t == s.eng
  }

  predicate NsfsMoved(s: State, t: P.State) {
    match s.pc
    case ShutNsfs(k) => Set(s.nsfs, true, k, t)
    case UndoNsfs(k) => Set(s.nsfs, false, k, t)
    case _ => t == s.nsfs
  }

  lemma StopEngineMoves(s: State)
    requires Inv(s)
    ensures EngineMoved(s, ApplyEngine(s.eng, StopShared(s)))
  {
    hide H.Inv, P.Inv, EntryFacts, H.Next;
    match s.pc
    case Quiesce(k) => WriteStep(s.eng, true, k);
    case Reopen(k) => WriteStep(s.eng, false, k);
    case UndoQuiesce(k) => WriteStep(s.eng, false, k);
    case Remove(k, half) => RemoveStep(s.eng, s.removal, k, half);
    case RemoveNsfs(k, half) => RemoveStep(s.eng, s.nsfsHooks, k, half);
    case _ =>
  }

  lemma StopNsfsMoves(s: State)
    requires MutexFacts(s.pc, s.nsfs)
    ensures NsfsMoved(s, ApplyNsfs(s.nsfs, StopShared(s)))
  {
    match s.pc
    case ShutNsfs(k) => SettingStep(s.nsfs, true, k);
    case UndoNsfs(k) => SettingStep(s.nsfs, false, k);
    case _ =>
  }

  lemma WritingLocks(s: State, a: Answer, t: H.State)
    requires LockFacts(s.pc, s.eng) && EngineMoved(s, t)
    requires s.pc.Quiesce? || s.pc.Reopen? || s.pc.UndoQuiesce?
    ensures LockFacts(StopPc(s, a), t)
  {
  }

  lemma StopLocks(s: State, a: Answer, t: H.State)
    requires LockFacts(s.pc, s.eng) && EngineMoved(s, t)
    ensures LockFacts(StopPc(s, a), t)
  {
    if s.pc.Quiesce? || s.pc.Reopen? || s.pc.UndoQuiesce? {
      WritingLocks(s, a, t);
    } else {
      assert t.lock == s.eng.lock;
    }
  }

  lemma StopMutex(s: State, a: Answer, t: P.State)
    requires MutexFacts(s.pc, s.nsfs) && NsfsMoved(s, t)
    ensures MutexFacts(StopPc(s, a), t)
  {
  }

  lemma StopControl(s: State, a: Answer, t: H.State)
    requires ControlFacts(s.pc, s.eng.control, s.removal, s.nsfsHooks) && EngineMoved(s, t)
    ensures ControlFacts(StopPc(s, a), t.control, s.removal, s.nsfsHooks)
  {
  }

  lemma StopGates(s: State, a: Answer, t: H.State, p: P.State)
    requires LockFacts(s.pc, s.eng) && MutexFacts(s.pc, s.nsfs) && GateFacts(s.pc, s.nsfs.stopping, s.eng.quiescing)
    requires EngineMoved(s, t) && NsfsMoved(s, p)
    ensures GateFacts(StopPc(s, a), p.stopping, t.quiescing)
  {
  }

  lemma SameCalls(s: State, t: H.State)
    requires EngineMoved(s, t)
    ensures t.calls == s.eng.calls
  {
  }

  /** Which test lets the stop reach each later stage. */
  predicate Advanced(s: State, next: Pc) {
    && (Stage(next) >= 12 ==> Stage(s.pc) >= 12 || (s.pc.CheckDrained? && s.eng.inflight <= 0))
    && (Stage(next) >= 13 ==> Stage(s.pc) >= 13 || (s.pc.CheckProc? && s.proc.count == 0))
    && (Stage(next) >= 14 ==> Stage(s.pc) >= 14 || (s.pc.CheckNsfs? && s.nsfs.count == 0))
    && (Stage(next) >= 21 ==> Stage(s.pc) >= 21 || (s.pc.Remove? && s.pc.k >= |s.removal|))
    && (Stage(next) >= 23 ==>
          || Stage(s.pc) >= 23 || (s.pc.RemoveNsfs? && s.pc.k >= |s.nsfsHooks|)
          || (s.pc.CheckNsfsExit? && s.nsfs.count != 0))
    && (Stage(next) >= 24 ==> Stage(s.pc) >= 24 || (s.pc.DrainLast? && s.eng.inflight <= 0))
  }

  lemma StopAdvances(s: State, a: Answer)
    ensures Advanced(s, StopPc(s, a))
  {
  }

  lemma InflightNonNegative(e: H.State)
    requires H.Inv(e)
    ensures e.inflight >= 0
  {
  }

  /** The drain: the poll loop saw no call in flight while the gate was shut. */
  lemma StopDrained(s: State, t: H.State)
    requires Inv(s) && EngineMoved(s, t)
    requires Stage(s.pc) >= 12 || (s.pc.CheckDrained? && s.eng.inflight <= 0)
    ensures HT.Drained(t)
  {
    SameCalls(s, t);
    InflightNonNegative(s.eng);
    if s.pc.CheckDrained? {
      HT.ShutIdle(s.eng);
    }
  }

  lemma StopDrains(s: State, next: Pc, t: H.State)
    requires Inv(s) && EngineMoved(s, t) && Advanced(s, next)
    ensures DrainFacts(next, t, s.proc.count, s.nsfs.count)
  {
    if Stage(next) >= 12 { StopDrained(s, t); }
  }

  /** Nothing armed and nothing in flight: nobody enters or runs a replacement. */
  lemma DrainedLast(e: H.State)
    requires H.Inv(e) && ThunksOk(e) && e.control.Idle? && NoneArmed(e.hooks) && e.inflight <= 0
    ensures Silent(e)
  {
    SumMembers(e.calls, H.GlobalWeight);
    forall i | 0 <= i < |e.calls| ensures !Entering(e.calls[i].phase) && H.GlobalWeight(e.calls[i]) == 0 {
      assert e.calls[i].hook < |e.hooks|;
    }
  }

  lemma StopSilent(s: State, next: Pc, t: H.State)
    requires Inv(s) && EngineMoved(s, t) && Advanced(s, next)
    ensures SilentFacts(next, t)
  {
    if Stage(next) >= 24 {
      if s.pc.DrainLast? { DrainedLast(s.eng); }
      assert t.hooks == s.eng.hooks && t.calls == s.eng.calls;
    }
  }

  /** Both lists done: no hook is armed. */
  lemma AllDisarmed(hooks: seq<H.Hook>, removal: seq<nat>, nsfsHooks: seq<nat>)
    requires Listed(|hooks|, removal, nsfsHooks)
    requires DisarmedUpTo(hooks, removal, |removal|) && DisarmedUpTo(hooks, nsfsHooks, |nsfsHooks|)
    ensures NoneArmed(hooks)
  {
    forall h | 0 <= h < |hooks| ensures !hooks[h].armed {
      if h in removal {
        var j :| 0 <= j < |removal| && removal[j] == h;
      } else {
        assert h in nsfsHooks;
        var j :| 0 <= j < |nsfsHooks| && nsfsHooks[j] == h;
      }
    }
  }

  predicate Start(next: Pc) {
    Removing(next) && next.k == 0 && !next.half
  }

  predicate Removing(pc: Pc) {
    pc.Remove? || pc.RemoveNsfs?
  }

  function RemovalList(s: State, pc: Pc): seq<nat> {
    if pc.Remove? then s.removal else s.nsfsHooks
  }

  /** Where a removal stands after one of its operations. */
  predicate Unhooked(s: State, t: H.State, next: Pc) {
    Removing(next) ==>
      || Start(next)
      || (s.pc.Remove? == next.Remove? && Removing(s.pc) && AtPlace(t, RemovalList(s, next), next.k, next.half))
  }

  lemma PlaceOf(s: State)
    requires Inv(s) && Removing(s.pc)
    ensures AtPlace(s.eng, RemovalList(s, s.pc), s.pc.k, s.pc.half)
  {
  }

  lemma StopUnhooks(s: State, a: Answer, t: H.State)
    requires Removing(s.pc) ==> AtPlace(s.eng, RemovalList(s, s.pc), s.pc.k, s.pc.half)
    requires EngineMoved(s, t)
    ensures Unhooked(s, t, StopPc(s, a))
  {
  }

  lemma StopRemoval(s: State, next: Pc, t: H.State)
    requires RemovalFacts(s.pc, s.eng.hooks, s.removal, s.nsfsHooks) && Listed(|s.eng.hooks|, s.removal, s.nsfsHooks)
    requires DrainFacts(s.pc, s.eng, s.proc.count, s.nsfs.count)
    requires NotRearmed(s.eng.hooks, t.hooks) && Unhooked(s, t, next) && Advanced(s, next)
    ensures RemovalFacts(next, t.hooks, s.removal, s.nsfsHooks)
  {
    StillDisarmed(s.eng.hooks, t.hooks, s.removal, |s.removal|);
    if s.pc.RemoveNsfs? && s.pc.k >= |s.nsfsHooks| {
      AllDisarmed(s.eng.hooks, s.removal, s.nsfsHooks);
    }
  }

  lemma NeverRearmed(s: State, t: H.State)
    requires EngineMoved(s, t)
    ensures NotRearmed(s.eng.hooks, t.hooks)
  {
  }

  /** The quiesce flag, while the stop writes it, */
  lemma WritingQuiesceEntry(s: State, a: Answer, t: H.State)
    requires QuiesceEntry(s.pc, s.eng.quiescing, s.was, s.entry.quiescing) && LockFacts(s.pc, s.eng)
    requires GateFacts(s.pc, s.nsfs.stopping, s.eng.quiescing) && EngineMoved(s, t)
    requires s.pc.Quiesce? || s.pc.Reopen? || s.pc.UndoQuiesce?
    ensures QuiesceEntry(StopPc(s, a), t.quiescing, s.was, s.entry.quiescing)
  {
  }

  /** while it removes hooks, */
  lemma RemovingQuiesceEntry(s: State, a: Answer, t: H.State)
    requires QuiesceEntry(s.pc, s.eng.quiescing, s.was, s.entry.quiescing) && EngineMoved(s, t)
    requires s.pc.Remove? || s.pc.RemoveNsfs?
    ensures QuiesceEntry(StopPc(s, a), t.quiescing, s.was, s.entry.quiescing)
  {
  }

  /** and otherwise. */
  lemma StopQuiesceEntry(s: State, a: Answer, t: H.State)
    requires QuiesceEntry(s.pc, s.eng.quiescing, s.was, s.entry.quiescing) && LockFacts(s.pc, s.eng)
    requires GateFacts(s.pc, s.nsfs.stopping, s.eng.quiescing) && EngineMoved(s, t)
    ensures QuiesceEntry(StopPc(s, a), t.quiescing, if s.pc.SaveQuiesce? then s.eng.quiescing else s.was, s.entry.quiescing)
  {
    if s.pc.Quiesce? || s.pc.Reopen? || s.pc.UndoQuiesce? {
      WritingQuiesceEntry(s, a, t);
    } else if s.pc.Remove? || s.pc.RemoveNsfs? {
      RemovingQuiesceEntry(s, a, t);
    } else {
      assert t == s.eng;
    }
  }

  lemma StopGateEntry(s: State, a: Answer, t: P.State, u: State)
    requires GateEntry(s.pc, s.enabled, s.nsfs.stopping, s.proxyStopping, s.userStopping)
    requires LoadedEntry(s.pc, s.enabled, s.overlayUp, s.ipcUp)
    requires MutexFacts(s.pc, s.nsfs) && NsfsMoved(s, t) && u == Moved(s, a, s.eng, t, s.ops)
    ensures GateEntry(u.pc, u.enabled, t.stopping, u.proxyStopping, u.userStopping)
  {
  }

  lemma ForwardMountEntry(s: State, a: Answer, u: State)
    requires MountEntry(s.pc, s.cancelled, s.mountArmed, s.entry.mountArmed) && u == Moved(s, a, s.eng, s.nsfs, s.ops)
    requires Stage(s.pc) > 9
    ensures MountEntry(u.pc, u.cancelled, u.mountArmed, u.entry.mountArmed)
  {
    hide Sleeps, DetachBusy, ThunkRunning, Installed, O.CanDetach;
  }

  lemma StopMountEntry(s: State, a: Answer, u: State)
    requires MountEntry(s.pc, s.cancelled, s.mountArmed, s.entry.mountArmed) && u == Moved(s, a, s.eng, s.nsfs, s.ops)
    ensures MountEntry(u.pc, u.cancelled, u.mountArmed, u.entry.mountArmed)
  {
    if Stage(s.pc) > 9 {
      ForwardMountEntry(s, a, u);
    }
  }

  lemma LateLoadedEntry(s: State, a: Answer, u: State)
    requires LoadedEntry(s.pc, s.enabled, s.overlayUp, s.ipcUp) && u == Moved(s, a, s.eng, s.nsfs, s.ops)
    requires Stage(s.pc) >= 17
    ensures LoadedEntry(u.pc, u.enabled, u.overlayUp, u.ipcUp)
  {
    hide Sleeps, DetachBusy, ThunkRunning, Installed, O.CanDetach;
  }

  lemma StopLoadedEntry(s: State, a: Answer, u: State)
    requires LoadedEntry(s.pc, s.enabled, s.overlayUp, s.ipcUp) && u == Moved(s, a, s.eng, s.nsfs, s.ops)
    ensures LoadedEntry(u.pc, u.enabled, u.overlayUp, u.ipcUp)
  {
    if Stage(s.pc) >= 17 {
      LateLoadedEntry(s, a, u);
    }
  }

  lemma StopWaitEntry(s: State, a: Answer, u: State)
    requires WaitEntry(s.pc, s.waited) && u == Moved(s, a, s.eng, s.nsfs, s.ops)
    ensures WaitEntry(u.pc, u.waited)
  {
  }

  /** Up to the first removal, and on every way back, the hooks are as the stop found them. */
  lemma StopHooksEntry(s: State, a: Answer, t: H.State)
    requires HooksEntry(s.pc, s.eng.hooks, s.entry.hooks) && EngineMoved(s, t)
    ensures HooksEntry(StopPc(s, a), t.hooks, s.entry.hooks)
  {
    hide H.Next, H.Inv;
  }

  lemma StopEntry(s: State, a: Answer, e: H.State, p: P.State, o: O.State)
    requires Inv(s) && EngineMoved(s, e) && NsfsMoved(s, p)
    ensures EntryFacts(Moved(s, a, e, p, o))
  {
    StopQuiesceEntry(s, a, e);
    StopMountEntry(s, a, Moved(s, a, s.eng, s.nsfs, s.ops));
    StopGateEntry(s, a, p, Moved(s, a, s.eng, p, s.ops));
    StopLoadedEntry(s, a, Moved(s, a, s.eng, s.nsfs, s.ops));
    StopHooksEntry(s, a, e);
    StopWaitEntry(s, a, Moved(s, a, s.eng, s.nsfs, s.ops));
  }

  lemma StopFacts(s: State, a: Answer, e: H.State, p: P.State, o: O.State)
    requires Inv(s) && EngineMoved(s, e) && NsfsMoved(s, p) && System(Moved(s, a, e, p, o))
    ensures Inv(Moved(s, a, e, p, o))
  {
    StopLocks(s, a, e);
    StopMutex(s, a, p);
    StopControl(s, a, e);
    StopGates(s, a, e, p);
    StopAdvances(s, a);
    if Removing(s.pc) { PlaceOf(s); }
    StopUnhooks(s, a, e);
    NeverRearmed(s, e);
    StopRemoval(s, StopPc(s, a), e);
    StopSilent(s, StopPc(s, a), e);
    StopEntry(s, a, e, p, o);
    StopDrains(s, StopPc(s, a), e);
    assert p.count == s.nsfs.count;
  }

  lemma StopInv(s: State, a: Answer)
    requires Inv(s)
    ensures Inv(StopStep(s, a))
  {
    var op := StopShared(s);
    StopSystem(s, a);
    StopEngineMoves(s);
    StopNsfsMoves(s);
    StopFacts(s, a, ApplyEngine(s.eng, op), ApplyNsfs(s.nsfs, op), ApplyPidns(s.ops, op));
  }

  // ------------------------------------------------------------------ every run

  lemma LoadInv(s: State)
    requires Inv(s) && s.pc.Ready?
    ensures Inv(Next(s, Load))
  {
    OpenInv(s.nsfs);
  }

  lemma OpenInv(p: P.State)
    requires P.Inv(p)
    ensures P.Inv(p.(stopping := false))
  {
    P.GateChange(p, p.(stopping := false));
  }

  /** The stop's own variables do not matter to the rest of the system. */
  lemma SystemSame(s: State, t: State)
    requires System(s)
    requires t.roles == s.roles && t.removal == s.removal && t.nsfsHooks == s.nsfsHooks
    requires t.eng == s.eng && t.nsfs == s.nsfs && t.proc == s.proc && t.ops == s.ops
    ensures System(t)
  {
  }

  lemma BeginFacts(s: State)
    requires Inv(s) && CanBegin(s)
    ensures EntryFacts(Begun(s))
    ensures LockFacts(StopProxies, s.eng) && MutexFacts(StopProxies, s.nsfs)
    ensures ControlFacts(StopProxies, s.eng.control, s.removal, s.nsfsHooks)
  {
  }

  lemma BeginInv(s: State)
    requires Inv(s) && CanBegin(s)
    ensures Inv(Begun(s))
  {
    SystemSame(s, Begun(s));
    BeginFacts(s);
    var t := Begun(s);
    assert t.pc == StopProxies && t.eng == s.eng && t.nsfs == s.nsfs;
  }

  lemma ReturnFacts(s: State)
    requires Inv(s) && (s.pc.Stopped? || s.pc.Refused?)
    ensures EntryFacts(s.(pc := Ready)) && MutexFacts(Ready, s.nsfs)
  {
  }

  lemma ReturnInv(s: State)
    requires Inv(s) && (s.pc.Stopped? || s.pc.Refused?)
    ensures Inv(s.(pc := Ready))
  {
    SystemSame(s, s.(pc := Ready));
    ReturnFacts(s);
  }

  lemma NextInv(s: State, e: Event)
    requires Inv(s)
    ensures Inv(Next(s, e))
  {
    hide Inv, EngineAllowed, NsfsAllowed, ProcAllowed, PidnsAllowed, Follow, Account, StopStep, CanBegin, Begun;
    match e
    case Engine(v) => if EngineAllowed(s, v) { EngineInv(s, v); }
    case Nsfs(v) => if NsfsAllowed(s, v) { NsfsInv(s, v); }
    case Proc(v) => if ProcAllowed(s, v) { ProcInv(s, v); }
    case Pidns(v) => if PidnsAllowed(s, v) { PidnsInv(s, v); }
    case Load => if s.pc.Ready? { LoadInv(s); }
    case Begin => if CanBegin(s) { BeginInv(s); }
    case Stop(a) => StopInv(s, a);
    case Return => if s.pc.Stopped? || s.pc.Refused? { ReturnInv(s); }
  }

  lemma {:induction false} RunInv(s: State, es: seq<Event>)
    requires Inv(s)
    ensures Inv(Run(s, es))
  {
    if es != [] {
      RunInv(s, es[..|es| - 1]);
      NextInv(Run(s, es[..|es| - 1]), es[|es| - 1]);
    }
  }

  lemma InitInv(roles: seq<Role>, removal: seq<nat>, nsfsHooks: seq<nat>)
    requires Listed(|roles|, removal, nsfsHooks)
    ensures Inv(Init(roles, removal, nsfsHooks))
  {
    var s := Init(roles, removal, nsfsHooks);
    H.InitInv(seq(|roles|, i requires 0 <= i < |roles| => !(roles[i].ProcLookup? || roles[i].OtherOrdinary?)));
    PT.InitInv(true);
    PT.InitInv(false);
  }

  lemma ReachableInv(s: State)
    requires Reachable(s)
    ensures Inv(s)
  {
    var roles, removal, nsfsHooks, es :|
      Listed(|roles|, removal, nsfsHooks) && s == Run(Init(roles, removal, nsfsHooks), es);
    InitInv(roles, removal, nsfsHooks);
    RunInv(Init(roles, removal, nsfsHooks), es);
  }

  lemma SinceInv(s: State, t: State)
    requires Inv(s) && CanBegin(s) && Since(s, t)
    ensures Inv(t)
  {
    var es :| Begin !in es && t == Run(Begun(s), es);
    BeginInv(s);
    RunInv(Begun(s), es);
  }
}
