/** The hook engine of glue/shadow_hijack.c as a transition system.

    One event is one atomic operation: taking the quiesce spinlock, reading a flag,
    taking a module reference, bumping one counter.  A run is any list of events; an
    event that is not possible in the current state changes nothing, so every
    theorem below quantifies over every interleaving. */
module HookEngine {
  import opened Tally

  // ------------------------------------------------------------------ state

  /** What the return probe will do for a running replacement: run its handler, not
      run it because no kretprobe instance was free, or not run it because the probe
      was unregistered meanwhile. */
  datatype Handler = Tracked | NoInstance | Orphaned

  /** Where one intercepted call is. */
  datatype Phase =
    | Fired                    // thunk running, spinning on the quiesce lock
    | Locked                   // lock held, nothing checked
    | PastGate                 // quiesce check passed
    | ProbeSeen                // retprobe_installed read as true
    | Held                     // module reference taken
    | HookCounted              // hook->inflight incremented
    | Counted                  // shadow_hook_inflight incremented, lock still held
    | Rejecting                // refused, lock still held
    | Body(handler: Handler)   // replacement function running
    | InHandler                // return handler running, nothing undone
    | HookDropped              // hook->inflight decremented
    | GlobalDropped            // shadow_hook_inflight decremented
    | Returned                 // module reference dropped
    | FellThrough              // genuine kernel function ran instead
    | Leaked                   // returned without the handler

  datatype Call = Call(hook: nat, exempt: bool, phase: Phase)

  datatype Hook = Hook(
    exempt: bool,              // quiesce_exempt
    armed: bool,               // forward ftrace/kprobe redirect is live
    installed: bool,           // the `installed` flag
    probe: bool,               // kretprobe is registered with the kernel
    retprobeInstalled: bool,   // the `retprobe_installed` flag
    inflight: int)

  /** Holder of shadow_hook_quiesce_lock. */
  datatype Lock = Free | ByCall(call: nat) | ByWriter(value: bool, written: bool)

  /** The single lifecycle thread that installs, removes and tears down hooks. */
  datatype Control =
    | Idle
    | Probed(h: nat)                  // kretprobe registered, flag not set yet
    | Flagged(h: nat)                 // flag set, not on the lifetime list yet
    | Arming(h: nat, first: bool)     // about to arm; first == new_retprobe
    | ArmedNow(h: nat)                // armed, `installed` not set yet
    | RollingBack(h: nat)             // arm failed, fresh probe unregistered
    | Disarmed(h: nat)                // redirect gone, `installed` not cleared yet
    | TearDown(k: nat, half: bool)    // final teardown, at lifetime list index k

  datatype State = State(
    hooks: seq<Hook>,
    lifetime: seq<nat>,        // shadow_hook_lifetime_hooks
    calls: seq<Call>,
    lock: Lock,
    quiescing: bool,
    inflight: int,             // shadow_hook_inflight
    refs: int,                 // module references held by redirected calls
    other: nat,                // every other module reference
    live: bool,                // try_module_get() can still succeed
    control: Control)

  datatype Event =
    | Fire(h: nat, fromModule: bool)      // hooked symbol called
    | Advance(call: nat, instance: bool)  // next atomic operation of that call
    | QuiesceLock(value: bool)            // shadow_hook_quiesce(value) takes the lock
    | QuiesceStep                         // ... writes the flag, then unlocks
    | OtherGet
    | OtherPut
    | DeleteModule                        // delete_module(): refuses while referenced
    | BeginInstall(h: nat, resolves: bool, probeOk: bool)
    | BeginRemove(h: nat)
    | BeginTeardown
    | ControlStep(ok: bool)               // next atomic operation of the lifecycle thread

  // ------------------------------------------------------------------ steps

  function SetHook(s: State, h: nat, k: Hook): State
    requires h < |s.hooks|
  {
    s.(hooks := s.hooks[h := k])
  }

  /** What one atomic operation of a call does: its next phase, what it adds to the
      module references, to its hook's counter and to the global counter, and who
      holds the quiesce lock afterwards. */
  datatype Effect = Effect(phase: Phase, refs: int, hook: int, inflight: int, lock: Lock)

  /** shadow_hook_redirect_enter() and shadow_hook_retprobe_ret(), one operation at a time. */
  function Operation(s: State, i: nat, instance: bool): Effect
    requires i < |s.calls|
  {
    var c := s.calls[i];
    match c.phase
    case Fired => if s.lock.Free? then Effect(Locked, 0, 0, 0, ByCall(i)) else Effect(Fired, 0, 0, 0, s.lock)
    case Locked => Effect(if s.quiescing && !c.exempt then Rejecting else PastGate, 0, 0, 0, s.lock)
    case PastGate =>
      Effect(if c.hook < |s.hooks| && s.hooks[c.hook].retprobeInstalled then ProbeSeen else Rejecting, 0, 0, 0, s.lock)
    case ProbeSeen => if s.live then Effect(Held, 1, 0, 0, s.lock) else Effect(Rejecting, 0, 0, 0, s.lock)
    case Held => Effect(HookCounted, 0, 1, 0, s.lock)
    case HookCounted => Effect(Counted, 0, 0, 1, s.lock)
    case Counted => Effect(Body(if instance then Tracked else NoInstance), 0, 0, 0, Free)
    case Rejecting => Effect(FellThrough, 0, 0, 0, Free)
    case Body(handler) => Effect(if handler.Tracked? then InHandler else Leaked, 0, 0, 0, s.lock)
    case InHandler => Effect(HookDropped, 0, -1, 0, s.lock)
    case HookDropped => Effect(GlobalDropped, 0, 0, -1, s.lock)
    case GlobalDropped => Effect(Returned, -1, 0, 0, s.lock)
    case _ => Effect(c.phase, 0, 0, 0, s.lock)
  }

  function AddInflight(hooks: seq<Hook>, h: nat, d: int): seq<Hook> {
    if h < |hooks| && d != 0 then hooks[h := hooks[h].(inflight := hooks[h].inflight + d)] else hooks
  }

  function AdvanceCall(s: State, i: nat, instance: bool): State
    requires i < |s.calls|
  {
    var e := Operation(s, i, instance);
    s.(calls := s.calls[i := s.calls[i].(phase := e.phase)],
       hooks := AddInflight(s.hooks, s.calls[i].hook, e.hook),
       refs := s.refs + e.refs,
       inflight := s.inflight + e.inflight,
       lock := e.lock)
  }

  /** unregister_kretprobe() clears the back pointer of every running instance. */
  function Orphan(c: Call, h: nat): Call {
    if c.hook == h && c.phase == Body(Tracked) then c.(phase := Body(Orphaned)) else c
  }

  function OrphanAll(calls: seq<Call>, h: nat): (r: seq<Call>)
    ensures |r| == |calls|
    ensures forall i | 0 <= i < |calls| :: r[i] == Orphan(calls[i], h)
  {
    seq(|calls|, i requires 0 <= i < |calls| => Orphan(calls[i], h))
  }

  function Unregister(s: State, h: nat): State
    requires h < |s.hooks|
  {
    SetHook(s, h, s.hooks[h].(probe := false)).(calls := OrphanAll(s.calls, h))
  }

  /** One operation of shadow_hook_install(), _remove() or the final teardown. */
  function AdvanceControl(s: State, ok: bool): State {
    match s.control
    case Idle => s
    case Probed(h) =>
      if h < |s.hooks| then SetHook(s, h, s.hooks[h].(retprobeInstalled := true)).(control := Flagged(h)) else s
    case Flagged(h) =>
      s.(lifetime := if h in s.lifetime then s.lifetime else s.lifetime + [h], control := Arming(h, true))
    case Arming(h, first) =>
      if h >= |s.hooks| then s
      else if ok then SetHook(s, h, s.hooks[h].(armed := true)).(control := ArmedNow(h))
      else if first then Unregister(s, h).(control := RollingBack(h))
      else s.(control := Idle)
    case ArmedNow(h) =>
      if h < |s.hooks| then SetHook(s, h, s.hooks[h].(installed := true)).(control := Idle) else s
    case RollingBack(h) =>
      if h < |s.hooks| then SetHook(s, h, s.hooks[h].(retprobeInstalled := false)).(control := Idle) else s
    case Disarmed(h) =>
      if h < |s.hooks| then SetHook(s, h, s.hooks[h].(installed := false)).(control := Idle) else s
    case TearDown(k, half) =>
      if k >= |s.lifetime| then s.(control := Idle)
      else
        var h := s.lifetime[k];
        if h >= |s.hooks| || !s.hooks[h].retprobeInstalled then s.(control := TearDown(k + 1, false))
        else if !half then Unregister(s, h).(control := TearDown(k, true))
        else SetHook(s, h, s.hooks[h].(retprobeInstalled := false)).(control := TearDown(k + 1, false))
  }

  function Next(s: State, e: Event): State {
    match e
    case Fire(h, fromModule) =>
      if h < |s.hooks| && s.hooks[h].armed && !fromModule
      then s.(calls := s.calls + [Call(h, s.hooks[h].exempt, Fired)]) else s
    case Advance(i, instance) =>
      if i < |s.calls| then AdvanceCall(s, i, instance) else s
    case QuiesceLock(value) =>
      if s.lock.Free? then s.(lock := ByWriter(value, false)) else s
    case QuiesceStep =>
      if !s.lock.ByWriter? then s
      else if s.lock.written then s.(lock := Free)
      else s.(quiescing := s.lock.value, lock := ByWriter(s.lock.value, true))
    case OtherGet => if s.live then s.(other := s.other + 1) else s
    case OtherPut => if s.other > 0 then s.(other := s.other - 1) else s
    case DeleteModule =>
      if s.live && s.control.Idle? && s.refs + s.other == 0 then s.(live := false) else s
    case BeginInstall(h, resolves, probeOk) =>
      if !s.live || !s.control.Idle? || h >= |s.hooks| || s.hooks[h].installed || !resolves then s
      else if s.hooks[h].retprobeInstalled then s.(control := Arming(h, false))
      else if probeOk then SetHook(s, h, s.hooks[h].(probe := true)).(control := Probed(h))
      else s
    case BeginRemove(h) =>
      if s.control.Idle? && h < |s.hooks| && s.hooks[h].installed
      then SetHook(s, h, s.hooks[h].(armed := false)).(control := Disarmed(h)) else s
    case BeginTeardown =>
      if s.control.Idle? && !s.live then s.(control := TearDown(0, false)) else s
    case ControlStep(ok) => AdvanceControl(s, ok)
  }

  function Run(s: State, es: seq<Event>): State {
    if es == [] then s else Next(Run(s, es[..|es| - 1]), es[|es| - 1])
  }

  /** Module just loaded: nothing installed, no call seen. */
  function Init(exempt: seq<bool>): State {
    State(seq(|exempt|, i requires 0 <= i < |exempt| => Hook(exempt[i], false, false, false, false, 0)),
          [], [], Free, false, 0, 0, 0, true, Idle)
  }

  /** A state of some run of the engine. */
  ghost predicate Reachable(s: State) {
    exists exempt, es :: s == Run(Init(exempt), es)
  }

  // ------------------------------------------------------------------ weights

  function RefWeight(c: Call): nat {
    match c.phase
    case Held => 1 case HookCounted => 1 case Counted => 1 case Body(_) => 1
    case InHandler => 1 case HookDropped => 1 case GlobalDropped => 1 case Leaked => 1
    case _ => 0
  }

  function GlobalWeight(c: Call): nat {
    match c.phase
    case Counted => 1 case Body(_) => 1 case InHandler => 1 case HookDropped => 1 case Leaked => 1
    case _ => 0
  }

  function AnyHookWeight(c: Call): nat {
    match c.phase
    case HookCounted => 1 case Counted => 1 case Body(_) => 1 case InHandler => 1 case Leaked => 1
    case _ => 0
  }

  function OneHookWeight(h: nat, c: Call): nat {
    if c.hook == h then AnyHookWeight(c) else 0
  }

  function HookWeight(h: nat): Call -> nat {
    (c: Call) => OneHookWeight(h, c)
  }

  predicate HoldsLock(p: Phase) {
    p.Locked? || p.Rejecting? || Admitting(p)
  }

  /** Past the quiesce check and still under the lock. */
  predicate Admitting(p: Phase) {
    p.PastGate? || p.ProbeSeen? || p.Held? || p.HookCounted? || p.Counted?
  }

  predicate MidReturn(p: Phase) {
    p.HookDropped? || p.GlobalDropped?
  }

  /** An ordinary call that was let through and has not fully returned. */
  function OrdinaryWeight(c: Call): nat {
    if !c.exempt && (Admitting(c.phase) || c.phase.Body? || c.phase.InHandler? || MidReturn(c.phase)) then 1 else 0
  }

  predicate OrdinaryBody(c: Call) {
    !c.exempt && c.phase.Body?
  }

  // ------------------------------------------------------------------ invariant

  predicate Counts(s: State) {
    && s.refs == Sum(s.calls, RefWeight)
    && s.inflight == Sum(s.calls, GlobalWeight)
    && forall h | 0 <= h < |s.hooks| :: s.hooks[h].inflight == Sum(s.calls, HookWeight(h))
  }

  predicate LockOk(s: State) {
    && (s.lock.ByCall? ==> s.lock.call < |s.calls|)
    && forall i | 0 <= i < |s.calls| :: HoldsLock(s.calls[i].phase) <==> s.lock == ByCall(i)
  }

  predicate CallsOk(s: State) {
    forall i | 0 <= i < |s.calls| ::
      && s.calls[i].hook < |s.hooks|
      && s.calls[i].exempt == s.hooks[s.calls[i].hook].exempt
      && s.calls[i].phase != Body(Orphaned)
  }

  /** While quiescing, no ordinary call is between the gate and the end of its entry. */
  predicate GateOk(s: State) {
    s.quiescing ==> forall i | 0 <= i < |s.calls| :: !s.calls[i].exempt ==> !Admitting(s.calls[i].phase)
  }

  predicate Fresh(s: State, h: nat) {
    || s.control == Probed(h)
    || s.control == Flagged(h)
    || s.control == Arming(h, true)
    || s.control == RollingBack(h)
  }

  predicate ControlOk(s: State) {
    match s.control
    case Idle => true
    case TearDown(k, half) =>
      && !s.live && k <= |s.lifetime|
      && (half ==> k < |s.lifetime| && s.lifetime[k] < |s.hooks| && !s.hooks[s.lifetime[k]].probe)
    case Disarmed(h) => h < |s.hooks| && !s.hooks[h].armed
    case Arming(h, first) => s.live && h < |s.hooks| && s.hooks[h].retprobeInstalled && !s.hooks[h].installed
    case ArmedNow(h) => s.live && h < |s.hooks| && s.hooks[h].armed && !s.hooks[h].installed
    case Probed(h) => s.live && h < |s.hooks|
    case Flagged(h) => s.live && h < |s.hooks| && s.hooks[h].retprobeInstalled
    case RollingBack(h) => s.live && h < |s.hooks|
  }

  predicate HookOk(s: State, h: nat)
    requires h < |s.hooks|
  {
    var k := s.hooks[h];
    // a redirect is live only above a working return probe
    && (s.live && k.armed ==> k.probe && k.retprobeInstalled)
    // the two flags follow the kernel's registrations except while one is being changed
    && (k.installed <==> (k.armed && s.control != ArmedNow(h)) || s.control == Disarmed(h))
    && (s.live ==> (k.probe <==> (k.retprobeInstalled || s.control == Probed(h)) && s.control != RollingBack(h)))
    && (!s.live && k.probe ==> k.retprobeInstalled)
    // every registered return probe can be found by the final teardown
    && (k.retprobeInstalled && s.control != Flagged(h) ==> h in s.lifetime)
    && (Fresh(s, h) ==> !k.armed && !k.installed)
  }

  predicate ProbesOk(s: State) {
    && (forall h | 0 <= h < |s.hooks| :: HookOk(s, h))
    && (forall i | 0 <= i < |s.calls| :: s.live && s.calls[i].hook < |s.hooks| ==>
          s.hooks[s.calls[i].hook].probe && s.hooks[s.calls[i].hook].retprobeInstalled)
    && (forall i | 0 <= i < |s.calls| :: !Fresh(s, s.calls[i].hook))
    && (forall j | 0 <= j < |s.lifetime| :: s.lifetime[j] < |s.hooks|)
    && (s.control.TearDown? ==> forall j | 0 <= j < s.control.k && j < |s.lifetime| ::
          s.lifetime[j] < |s.hooks| ==> !s.hooks[s.lifetime[j]].probe && !s.hooks[s.lifetime[j]].retprobeInstalled)
  }

  predicate Inv(s: State) {
    && Counts(s) && LockOk(s) && CallsOk(s) && GateOk(s) && ControlOk(s) && ProbesOk(s)
    && (!s.live ==> s.refs == 0 && s.other == 0)
  }

  // ------------------------------------------------------------------ preservation

  lemma CountsStep(s: State, i: nat, x: Call)
    requires i < |s.calls| && Counts(s)
    ensures Sum(s.calls[i := x], RefWeight) == s.refs - RefWeight(s.calls[i]) + RefWeight(x)
    ensures Sum(s.calls[i := x], GlobalWeight) == s.inflight - GlobalWeight(s.calls[i]) + GlobalWeight(x)
    ensures forall h | 0 <= h < |s.hooks| ::
              Sum(s.calls[i := x], HookWeight(h)) == s.hooks[h].inflight - OneHookWeight(h, s.calls[i]) + OneHookWeight(h, x)
  {
    SumUpdate(s.calls, i, x, RefWeight);
    SumUpdate(s.calls, i, x, GlobalWeight);
    forall h | 0 <= h < |s.hooks|
      ensures Sum(s.calls[i := x], HookWeight(h)) == s.hooks[h].inflight - OneHookWeight(h, s.calls[i]) + OneHookWeight(h, x)
    {
      SumUpdate(s.calls, i, x, HookWeight(h));
    }
  }

  /** The counters move exactly as the weights of the call's phase do. */
  lemma OperationWeights(s: State, i: nat, instance: bool)
    requires CallsOk(s) && i < |s.calls|
    ensures var e := Operation(s, i, instance);
            var x := s.calls[i].(phase := e.phase);
            && e.refs == RefWeight(x) - RefWeight(s.calls[i])
            && e.inflight == GlobalWeight(x) - GlobalWeight(s.calls[i])
            && e.hook == AnyHookWeight(x) - AnyHookWeight(s.calls[i])
            && x.phase != Body(Orphaned)
  {
  }

  lemma AdvanceCounts(s: State, i: nat, instance: bool)
    requires Counts(s) && CallsOk(s) && i < |s.calls|
    ensures Counts(AdvanceCall(s, i, instance))
  {
    var x := s.calls[i].(phase := Operation(s, i, instance).phase);
    OperationWeights(s, i, instance);
    CountsStep(s, i, x);
  }

  lemma AdvanceLock(s: State, i: nat, instance: bool)
    requires LockOk(s) && i < |s.calls|
    ensures LockOk(AdvanceCall(s, i, instance))
  {
  }

  lemma AdvanceGate(s: State, i: nat, instance: bool)
    requires CallsOk(s) && GateOk(s) && i < |s.calls|
    ensures CallsOk(AdvanceCall(s, i, instance)) && GateOk(AdvanceCall(s, i, instance))
  {
    OperationWeights(s, i, instance);
    var e := Operation(s, i, instance);
    assert s.quiescing && !s.calls[i].exempt ==> !Admitting(e.phase);
  }

  /** ProbesOk depends on the hooks' flags, the lifecycle thread and which hook each call is on. */
  lemma ProbesFrame(s: State, t: State)
    requires ProbesOk(s) && ControlOk(s)
    requires t.lifetime == s.lifetime && t.control == s.control && t.live == s.live
    requires |t.hooks| == |s.hooks| && |t.calls| == |s.calls|
    requires forall h | 0 <= h < |s.hooks| :: t.hooks[h] == s.hooks[h].(inflight := t.hooks[h].inflight)
    requires forall j | 0 <= j < |s.calls| :: t.calls[j].hook == s.calls[j].hook
    ensures ProbesOk(t) && ControlOk(t)
  {
    forall h | 0 <= h < |t.hooks| ensures HookOk(t, h) {
      assert HookOk(s, h);
    }
    forall j | 0 <= j < |t.calls| ensures !Fresh(t, t.calls[j].hook) {
      assert !Fresh(s, s.calls[j].hook);
    }
  }

  lemma AdvanceInv(s: State, i: nat, instance: bool)
    requires Inv(s) && i < |s.calls|
    ensures Inv(AdvanceCall(s, i, instance))
  {
    AdvanceCounts(s, i, instance);
    AdvanceLock(s, i, instance);
    AdvanceGate(s, i, instance);
    ProbesFrame(s, AdvanceCall(s, i, instance));
    if !s.live {
      NoRefNoCall(s);
      assert RefWeight(s.calls[i]) == 0;
    }
  }

  /** With no reference left, no call is in a phase that holds one. */
  lemma NoRefNoCall(s: State)
    requires Counts(s) && s.refs == 0
    ensures forall i | 0 <= i < |s.calls| :: RefWeight(s.calls[i]) == 0
  {
    SumMembers(s.calls, RefWeight);
  }

  lemma UnregisterOrphansNone(s: State, h: nat)
    requires Inv(s) && h < |s.hooks|
    requires !s.live || Fresh(s, h)
    ensures OrphanAll(s.calls, h) == s.calls
  {
    if !s.live {
      NoRefNoCall(s);
    }
    forall i | 0 <= i < |s.calls| ensures Orphan(s.calls[i], h) == s.calls[i] {
      assert !Fresh(s, s.calls[i].hook);
      assert !s.live ==> RefWeight(s.calls[i]) == 0;
    }
  }

  /** No lifecycle operation, in particular no rollback and no teardown, costs a running
      call its return handler. */
  lemma ControlOrphansNone(s: State, ok: bool)
    requires Inv(s)
    ensures AdvanceControl(s, ok).calls == s.calls
  {
    match s.control {
      case Arming(h, first) =>
        if !ok && first { UnregisterOrphansNone(s, h); }
      case TearDown(k, half) =>
        if k < |s.lifetime| { UnregisterOrphansNone(s, s.lifetime[k]); }
      case _ =>
    }
  }

  /** Unregistering a probe touches one hook's probe and the running calls. */
  lemma UnregisterCounts(s: State, h: nat)
    requires h < |s.hooks|
    ensures var t := Unregister(s, h);
            && t == s.(hooks := t.hooks, calls := t.calls) && |t.hooks| == |s.hooks|
            && forall g | 0 <= g < |s.hooks| ::
                 t.hooks[g].inflight == s.hooks[g].inflight && t.hooks[g].exempt == s.hooks[g].exempt
  {
  }

  lemma ControlScalars(s: State, ok: bool)
    ensures var t := AdvanceControl(s, ok);
            && t.lock == s.lock && t.quiescing == s.quiescing && t.inflight == s.inflight && t.refs == s.refs
            && t.other == s.other && t.live == s.live && |t.calls| == |s.calls|
  {
  }

  /** No lifecycle operation touches what the calls hold. */
  lemma ControlCounts(s: State, ok: bool)
    ensures var t := AdvanceControl(s, ok);
            && t.lock == s.lock && t.quiescing == s.quiescing && t.inflight == s.inflight && t.refs == s.refs
            && t.other == s.other && t.live == s.live && |t.hooks| == |s.hooks|
            && (forall h | 0 <= h < |s.hooks| ::
                  t.hooks[h].inflight == s.hooks[h].inflight && t.hooks[h].exempt == s.hooks[h].exempt)
  {
    ControlScalars(s, ok);
    match s.control
    case TearDown(k, half) =>
      if k < |s.lifetime| && s.lifetime[k] < |s.hooks| { UnregisterCounts(s, s.lifetime[k]); }
    case Arming(h, _) => if h < |s.hooks| { UnregisterCounts(s, h); }
    case _ =>
  }

  lemma ControlInv(s: State, ok: bool)
    requires Inv(s)
    ensures Inv(AdvanceControl(s, ok))
  {
    var t := AdvanceControl(s, ok);
    ControlOrphansNone(s, ok);
    ControlCounts(s, ok);
    ControlKeeps(s, t);
    if s.control.TearDown? {
      TeardownProbes(s, t, ok);
    } else {
      LifecycleProbes(s, t, ok);
    }
  }

  /** A lifecycle operation that orphans no call leaves calls, counters and lock alone. */
  lemma ControlKeeps(s: State, t: State)
    requires Inv(s) && t.calls == s.calls && t.lock == s.lock && t.quiescing == s.quiescing
    requires t.inflight == s.inflight && t.refs == s.refs && t.other == s.other && t.live == s.live
    requires |t.hooks| == |s.hooks|
    requires forall h | 0 <= h < |s.hooks| ::
               t.hooks[h].inflight == s.hooks[h].inflight && t.hooks[h].exempt == s.hooks[h].exempt
    ensures Counts(t) && LockOk(t) && CallsOk(t) && GateOk(t) && (!t.live ==> t.refs == 0 && t.other == 0)
  {
  }

  /** An operation of the lifecycle thread on another hook. */
  lemma LifecycleElsewhere(s: State, ok: bool, h: nat)
    requires ControlOk(s) && !s.control.TearDown? && h < |s.hooks| && HookOk(s, h)
    requires s.control.Idle? || s.control.h != h
    ensures |AdvanceControl(s, ok).hooks| == |s.hooks| && HookOk(AdvanceControl(s, ok), h)
  {
  }

  lemma LifecycleHook(s: State, ok: bool, h: nat)
    requires ControlOk(s) && !s.control.TearDown? && h < |s.hooks| && HookOk(s, h)
    ensures |AdvanceControl(s, ok).hooks| == |s.hooks| && HookOk(AdvanceControl(s, ok), h)
  {
    if s.control.Idle? || s.control.h != h {
      LifecycleElsewhere(s, ok, h);
    }
  }

  lemma LifecycleProbes(s: State, t: State, ok: bool)
    requires ProbesOk(s) && ControlOk(s) && !s.control.TearDown?
    requires t == AdvanceControl(s, ok) && t.calls == s.calls
    ensures ProbesOk(t) && ControlOk(t)
  {
    forall h | 0 <= h < |s.hooks| ensures HookOk(t, h) {
      LifecycleHook(s, ok, h);
    }
    if s.control.Flagged? {
      assert HookOk(s, s.control.h);
    }
    LifecycleCalls(s, t, ok);
  }

  lemma LifecycleCalls(s: State, t: State, ok: bool)
    requires ProbesOk(s) && ControlOk(s) && !s.control.TearDown?
    requires t == AdvanceControl(s, ok) && t.calls == s.calls
    ensures forall j | 0 <= j < |t.calls| :: !Fresh(t, t.calls[j].hook)
    ensures forall i | 0 <= i < |t.calls| :: t.live && t.calls[i].hook < |t.hooks| ==>
              t.hooks[t.calls[i].hook].probe && t.hooks[t.calls[i].hook].retprobeInstalled
  {
    forall j | 0 <= j < |t.calls|
      ensures !Fresh(t, t.calls[j].hook)
      ensures t.live && t.calls[j].hook < |t.hooks| ==>
                t.hooks[t.calls[j].hook].probe && t.hooks[t.calls[j].hook].retprobeInstalled
    {
      assert !Fresh(s, s.calls[j].hook);
    }
  }

  lemma TeardownProbes(s: State, t: State, ok: bool)
    requires ProbesOk(s) && ControlOk(s) && s.control.TearDown?
    requires t == AdvanceControl(s, ok) && t.calls == s.calls
    ensures ProbesOk(t) && ControlOk(t)
  {
    forall h | 0 <= h < |t.hooks| ensures HookOk(t, h) {
      assert HookOk(s, h);
    }
    forall j | t.control.TearDown? && 0 <= j < t.control.k && j < |t.lifetime|
      ensures !t.hooks[t.lifetime[j]].probe && !t.hooks[t.lifetime[j]].retprobeInstalled
    {
      assert HookOk(s, s.lifetime[j]);
    }
  }

  lemma BeginHook(s: State, e: Event, h: nat)
    requires ControlOk(s) && h < |s.hooks| && HookOk(s, h)
    requires e.BeginInstall? || e.BeginRemove? || e.BeginTeardown?
    ensures |Next(s, e).hooks| == |s.hooks| && HookOk(Next(s, e), h)
  {
  }

  lemma BeginProbes(s: State, e: Event)
    requires ProbesOk(s) && ControlOk(s) && (e.BeginInstall? || e.BeginRemove? || e.BeginTeardown?)
    ensures ProbesOk(Next(s, e)) && ControlOk(Next(s, e))
  {
    var t := Next(s, e);
    forall h | 0 <= h < |t.hooks| ensures HookOk(t, h) {
      BeginHook(s, e, h);
    }
    if e.BeginInstall? && e.h < |s.hooks| {
      assert HookOk(s, e.h);
    }
    forall j | 0 <= j < |t.calls| ensures !Fresh(t, t.calls[j].hook) {
      assert !Fresh(s, s.calls[j].hook);
    }
  }

  /** `s` with one more call that has just fired. */
  function WithFired(s: State, h: nat): State
    requires h < |s.hooks|
  {
    s.(calls := s.calls + [Call(h, s.hooks[h].exempt, Fired)])
  }

  lemma FireCounts(s: State, h: nat)
    requires Counts(s) && h < |s.hooks|
    ensures Counts(WithFired(s, h))
  {
    var c, t := Call(h, s.hooks[h].exempt, Fired), WithFired(s, h);
    SumAppend(s.calls, c, RefWeight);
    SumAppend(s.calls, c, GlobalWeight);
    forall k | 0 <= k < |t.hooks| ensures t.hooks[k].inflight == Sum(t.calls, HookWeight(k)) {
      SumAppend(s.calls, c, HookWeight(k));
      assert HookWeight(k)(c) == 0;
    }
  }

  lemma FireProbes(s: State, h: nat)
    requires ProbesOk(s) && ControlOk(s) && h < |s.hooks| && s.hooks[h].armed
    ensures ProbesOk(WithFired(s, h))
  {
    var t := WithFired(s, h);
    assert HookOk(s, h);
    forall k | 0 <= k < |t.hooks| ensures HookOk(t, k) {
      assert HookOk(s, k);
    }
    forall i | 0 <= i < |t.calls| ensures !Fresh(t, t.calls[i].hook) {
      assert i < |s.calls| ==> !Fresh(s, s.calls[i].hook);
    }
  }

  lemma FireInv(s: State, h: nat)
    requires Inv(s) && h < |s.hooks| && s.hooks[h].armed
    ensures Inv(Next(s, Fire(h, false)))
  {
    FireCounts(s, h);
    FireProbes(s, h);
    assert Next(s, Fire(h, false)) == WithFired(s, h);
  }

  lemma QuiesceGate(s: State, e: Event)
    requires LockOk(s) && GateOk(s) && (e.QuiesceLock? || e.QuiesceStep?)
    ensures LockOk(Next(s, e)) && GateOk(Next(s, e))
  {
  }

  /** A step that touches neither hooks nor calls nor counters. */
  lemma SameCounts(s: State, t: State)
    requires Counts(s) && CallsOk(s)
    requires t.hooks == s.hooks && t.calls == s.calls && t.refs == s.refs && t.inflight == s.inflight
    ensures Counts(t) && CallsOk(t)
  {
  }

  lemma QuiesceInv(s: State, e: Event)
    requires Inv(s) && (e.QuiesceLock? || e.QuiesceStep?)
    ensures Inv(Next(s, e))
  {
    hide Counts, ProbesOk, ControlOk;
    ProbesFrame(s, Next(s, e));
    SameCounts(s, Next(s, e));
    QuiesceGate(s, e);
  }

  lemma ModuleInv(s: State, e: Event)
    requires Inv(s) && (e.OtherGet? || e.OtherPut? || e.DeleteModule?)
    ensures Inv(Next(s, e))
  {
    var t := Next(s, e);
    forall h | 0 <= h < |t.hooks| ensures HookOk(t, h) {
      assert HookOk(s, h);
    }
  }

  lemma BeginInv(s: State, e: Event)
    requires Inv(s) && (e.BeginInstall? || e.BeginRemove? || e.BeginTeardown?)
    ensures Inv(Next(s, e))
  {
    hide Counts, LockOk, CallsOk, GateOk;
    ControlKeeps(s, Next(s, e));
    BeginProbes(s, e);
  }

  lemma NextInv(s: State, e: Event)
    requires Inv(s)
    ensures Inv(Next(s, e))
  {
    match e
    case Fire(h, fromModule) =>
      if h < |s.hooks| && s.hooks[h].armed && !fromModule { FireInv(s, h); }
    case Advance(i, instance) =>
      if i < |s.calls| { AdvanceInv(s, i, instance); }
    case ControlStep(ok) => ControlInv(s, ok);
    case QuiesceLock(_) => QuiesceInv(s, e);
    case QuiesceStep => QuiesceInv(s, e);
    case OtherGet => ModuleInv(s, e);
    case OtherPut => ModuleInv(s, e);
    case DeleteModule => ModuleInv(s, e);
    case _ => BeginInv(s, e);
  }

  // ------------------------------------------------------------------ frames

  predicate SameExempt(a: seq<Hook>, b: seq<Hook>) {
    |a| == |b| && forall h | 0 <= h < |a| :: a[h].exempt == b[h].exempt
  }

  /** Equal in everything but the in-flight counters. */
  predicate SameFlags(a: seq<Hook>, b: seq<Hook>) {
    |a| == |b| && forall h | 0 <= h < |a| :: a[h] == b[h].(inflight := a[h].inflight)
  }

  lemma ControlFrame(s: State, ok: bool)
    ensures var t := AdvanceControl(s, ok);
            && SameExempt(t.hooks, s.hooks) && |t.calls| == |s.calls|
            && t.lock == s.lock && t.quiescing == s.quiescing && t.live == s.live && t.other == s.other
  {
    ControlScalars(s, ok);
    ControlCounts(s, ok);
    hide AdvanceControl;
  }

  lemma AdvanceFrame(s: State, i: nat, instance: bool)
    requires i < |s.calls|
    ensures var t := AdvanceCall(s, i, instance);
            && SameFlags(t.hooks, s.hooks) && |t.calls| == |s.calls|
            && t.control == s.control && t.quiescing == s.quiescing && t.live == s.live && t.other == s.other
            && (forall j | 0 <= j < |s.calls| && j != i :: t.calls[j] == s.calls[j])
            && t.calls[i] == s.calls[i].(phase := Operation(s, i, instance).phase)
  {
  }

  lemma NextExempt(s: State, e: Event)
    ensures SameExempt(Next(s, e).hooks, s.hooks)
  {
    match e
    case Advance(i, instance) => if i < |s.calls| { AdvanceFrame(s, i, instance); }
    case ControlStep(ok) => ControlFrame(s, ok);
    case BeginInstall(_, _, _) =>
    case BeginRemove(_) =>
    case _ => assert Next(s, e).hooks == s.hooks;
  }

  lemma {:induction false} RunInv(s: State, es: seq<Event>)
    requires Inv(s)
    ensures Inv(Run(s, es))
  {
    if es != [] {
      RunInv(s, es[..|es| - 1]);
      NextInv(Run(s, es[..|es| - 1]), es[|es| - 1]);
    }
  }

  lemma InitInv(exempt: seq<bool>)
    ensures Inv(Init(exempt))
  {
  }

  lemma ReachableInv(s: State)
    requires Reachable(s)
    ensures Inv(s)
  {
    var exempt, es :| s == Run(Init(exempt), es);
    InitInv(exempt);
    RunInv(Init(exempt), es);
  }
}
