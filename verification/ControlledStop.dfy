/** The controlled stop, __vendor_kernel_exit(false), running against the rest of the system.

    The hook engine, the NSFS and procfs pin tables and the pid-namespace operations keep
    taking their own atomic steps between any two operations of the stop.  A pinning
    replacement can only work while the engine call it belongs to is in its body, and a
    module reference taken for a pin is one of the engine's other references. */
module ControlledStop {
  import H = HookEngine
  import HT = HookTheorems
  import P = PinTable
  import O = PidnsOps

  // ------------------------------------------------------------------ state

  /** Which replacement function a hook leads to. */
  datatype Role = NsfsPath | NsfsEvict | ProcLookup | ProcEvict | OtherExempt | OtherOrdinary

  /** Program counter of the stop: what it does next. */
  datatype Pc =
    | Ready
    | StopProxies                  // vns_nsproxy_stop_begin()
    | StopUsers                    // vns_user_ns_stop_begin()
    | CheckProxies                 // deferred flush, read the live count
    | ShutNsfs(k: nat)             // vns_nsfs_lifecycle_begin_exit(), operation k
    | DrainBefore                  // first poll loop
    | CheckBefore                  // in-flight calls, live objects, prepare_exit results
    | SaveQuiesce                  // was_quiescing = shadow_hook_is_quiescing()
    | Quiesce(k: nat)              // shadow_hook_quiesce(true), operation k
    | CancelMount                  // vns_mqueue_dev_cancel()
    | DrainAfter                   // second poll loop
    | CheckDrained
    | CheckProc                    // vns_procfs_compat_prepare_exit()
    | CheckNsfs                    // vns_nsfs_lifecycle_prepare_exit()
    | CheckIpc                     // vns_sem_prepare_exit(), vns_shm_prepare_exit()
    | CheckMqueue                  // vns_mqueue_fs_prepare_exit()
    | DetachReads(k: nat)          // the four unlocked reads of the detach
    | DetachLocked
    | Disable                      // vendor_kernel_enabled = false
    | ExitOverlay
    | Remove(k: nat, half: bool)   // forward hooks, in removal order
    | CheckNsfsExit                // vns_nsfs_lifecycle_exit() reads the pin count
    | RemoveNsfs(k: nat, half: bool)
    | DrainLast                    // final poll loop
    | ClearState                   // maps, registry, default IPC namespace
    | Reopen(k: nat)               // shadow_hook_quiesce(false) unless it was set before
    | Stopped
    | UndoMount                    // refusal: re-arm the mount work
    | UndoQuiesce(k: nat)
    | UndoNsfs(k: nat)
    | UndoProxies
    | UndoUsers
    | Refused

  /** What a stop found when it began. */
  datatype Entry = Entry(quiescing: bool, mountArmed: bool, hooks: seq<H.Hook>)

  datatype State = State(
    roles: seq<Role>,              // of each hook
    removal: seq<nat>,             // every hook but the two NSFS ones, in removal order
    nsfsHooks: seq<nat>,
    eng: H.State,
    nsfs: P.State,
    proc: P.State,
    ops: O.State,
    proxyStopping: bool,           // nsproxy creation gate is closed
    userStopping: bool,            // user-namespace creation gate is closed
    mountArmed: bool,              // the mqueue mount work may run
    enabled: bool,                 // vendor_kernel_enabled
    overlayUp: bool,
    ipcUp: bool,
    pc: Pc,
    waited: nat,                   // milliseconds slept in the two bounded poll loops
    was: bool,                     // was_quiescing
    cancelled: bool,               // this run cancelled the mount work
    entry: Entry)

  /** What the parts outside this model answer to a stop operation. */
  datatype Answer = Answer(liveProxies: nat, error: bool)

  datatype Event =
    | Engine(e: H.Event)
    | Nsfs(pin: P.Event)
    | Proc(pin: P.Event)
    | Pidns(ask: O.Event)
    | Load                         // vendor_kernel_init() succeeds
    | Begin
    | Stop(answer: Answer)
    | Return                       // the caller sees the result; a new stop may begin

  // ------------------------------------------------------------------ environment

  predicate InBody(s: State, i: nat) {
    i < |s.eng.calls| && s.eng.calls[i].phase.Body?
  }

  predicate HasRole(s: State, i: nat, r: Role) {
    InBody(s, i) && s.eng.calls[i].hook < |s.roles| && s.roles[s.eng.calls[i].hook] == r
  }

  predicate Resting(s: State, i: nat) {
    && (i < |s.nsfs.threads| ==> s.nsfs.threads[i].Rest?)
    && (i < |s.proc.threads| ==> s.proc.threads[i].Rest?)
  }

  predicate Entering(p: H.Phase) {
    p.Fired? || H.HoldsLock(p)
  }

  /** Disarming returns only when no thunk of that hook is running. */
  predicate ThunkRunning(e: H.State, h: nat) {
    exists i | 0 <= i < |e.calls| :: e.calls[i].hook == h && Entering(e.calls[i].phase)
  }

  /** Engine steps that can happen now.  A body returns only when its pinning work is done.
      Lifecycle operations exclude each other: while a stop runs, nobody else installs,
      removes, quiesces or deletes. */
  predicate EngineAllowed(s: State, e: H.Event) {
    match e
    case Fire(_, _) => true
    case Advance(i, _) => InBody(s, i) ==> Resting(s, i)
    case OtherGet => true
    case OtherPut => s.eng.other > s.nsfs.refs + s.proc.refs
    case ControlStep(_) => s.pc.Ready? && (s.eng.control.Disarmed? ==> !ThunkRunning(s.eng, s.eng.control.h))
    case _ => s.pc.Ready?
  }

  /** One slot of pinning work for each of `n` calls; a new one starts out as `x`. */
  function Slots<T>(threads: seq<T>, n: nat, x: T): seq<T> {
    if n > |threads| then threads + [x] else threads
  }

  function Forget(threads: seq<O.Asking>, i: nat): seq<O.Asking> {
    if i < |threads| then threads[i := O.Idle] else threads
  }

  /** The engine moved to `t`: a new call brings an idle slot of pinning work with it, and a
      body that returns forgets what it asked for. */
  function Follow(s: State, e: H.Event, t: H.State): State {
    s.(eng := t,
       nsfs := s.nsfs.(threads := Slots(s.nsfs.threads, |t.calls|, P.Rest)),
       proc := s.proc.(threads := Slots(s.proc.threads, |t.calls|, P.Rest)),
       ops := s.ops.(threads := if e.Advance? && InBody(s, e.call) then Forget(s.ops.threads, e.call)
                                else Slots(s.ops.threads, |t.calls|, O.Idle)))
  }

  predicate NsfsAllowed(s: State, e: P.Event) {
    match e
    case StartPin(i) => HasRole(s, i, NsfsPath)
    case StartEvict(i, _) => HasRole(s, i, NsfsEvict)
    case Step(_, a) => a.moduleLive == s.eng.live
    case DropPath(_) => true
    case _ => false
  }

  predicate ProcAllowed(s: State, e: P.Event) {
    match e
    case StartPin(i) => HasRole(s, i, ProcLookup)
    case StartEvict(i, _) => HasRole(s, i, ProcEvict)
    case Step(i, a) =>
      && a.moduleLive == s.eng.live
      && (i < |s.proc.threads| && s.proc.threads[i].Tentative? && i < |s.ops.threads| ==>
            && !s.ops.threads[i].Asked? && !s.ops.threads[i].Eligible?
            && (s.ops.threads[i].Denied? ==> a.made == P.Failed))
    case DropPath(_) => true
    case _ => false
  }

  predicate PidnsAllowed(s: State, e: O.Event) {
    match e
    case Create(_) => true
    case Ask(i, _) => HasRole(s, i, ProcLookup) && i < |s.proc.threads| && s.proc.threads[i].Tentative?
    case Step(_) => true
    case _ => false
  }

  /** A pin's module reference is taken and dropped together with the table's own count of it. */
  function Account(e: H.State, before: int, after: int): H.State {
    if after > before then e.(other := e.other + 1)
    else if after < before && e.other > 0 then e.(other := e.other - 1)
    else e
  }

  // ------------------------------------------------------------------ the stop

  /** The one operation on a shared structure that the next stop operation performs. */
  datatype Shared = Nothing | OnEngine(e: H.Event) | OnNsfs(pin: P.Event) | OnPidns

  function QuiesceOp(value: bool, k: nat): H.Event {
    if k == 0 then H.QuiesceLock(value) else H.QuiesceStep
  }

  function NsfsOp(value: bool, k: nat): P.Event {
    if k == 0 then P.StopLock(value) else P.StopStep
  }

  predicate Installed(e: H.State, h: nat) {
    h < |e.hooks| && e.hooks[h].installed
  }

  /** shadow_hook_remove_all() over `list`: disarm, then clear the flag, of each installed hook. */
  function RemoveOp(e: H.State, list: seq<nat>, k: nat, half: bool): Shared {
    if k >= |list| then Nothing
    else if half then (if ThunkRunning(e, list[k]) then Nothing else OnEngine(H.ControlStep(true)))
    else if Installed(e, list[k]) then OnEngine(H.BeginRemove(list[k]))
    else Nothing
  }

  function StopShared(s: State): Shared {
    match s.pc
    case ShutNsfs(k) => OnNsfs(NsfsOp(true, k))
    case Quiesce(k) => OnEngine(QuiesceOp(true, k))
    case DetachLocked => if O.CanDetach(s.ops) then OnPidns else Nothing
    case Remove(k, half) => RemoveOp(s.eng, s.removal, k, half)
    case RemoveNsfs(k, half) => RemoveOp(s.eng, s.nsfsHooks, k, half)
    case Reopen(k) => OnEngine(QuiesceOp(false, k))
    case UndoQuiesce(k) => OnEngine(QuiesceOp(false, k))
    case UndoNsfs(k) => OnNsfs(NsfsOp(false, k))
    case _ => Nothing
  }

  /** Three operations: lock (waiting while it is taken), write, unlock. */
  function LockPc(free: bool, k: nat, here: Pc, again: Pc, done: Pc): Pc {
    if k == 0 then (if free then again else here) else if k >= 2 then done else again
  }

  function RemovePc(e: H.State, list: seq<nat>, k: nat, half: bool, finish: Pc, next: Pc, done: Pc): Pc {
    if k >= |list| then done
    else if half then (if ThunkRunning(e, list[k]) then finish else next)
    else if Installed(e, list[k]) then finish
    else next
  }

  predicate DetachBusy(s: State, k: nat) {
    match k
    case 0 => !s.eng.quiescing
    case 1 => s.eng.inflight != 0
    case 2 => s.proc.count != 0
    case _ => s.nsfs.count != 0
  }

  /** `while (inflight > 0 && waited_ms < 30000) msleep(10)`: does this test sleep? */
  predicate Sleeps(s: State) {
    (s.pc.DrainBefore? || s.pc.DrainAfter?) && s.eng.inflight > 0 && s.waited < 30000
  }

  function StopPc(s: State, a: Answer): Pc {
    match s.pc
    case StopProxies => StopUsers
    case StopUsers => CheckProxies
    case CheckProxies => if a.liveProxies > 0 then UndoProxies else ShutNsfs(0)
    case ShutNsfs(k) => LockPc(s.nsfs.mutex.Nobody?, k, s.pc, ShutNsfs(k + 1), DrainBefore)
    case DrainBefore => if Sleeps(s) then DrainBefore else CheckBefore
    case CheckBefore => if s.eng.inflight > 0 || a.liveProxies > 0 || a.error then UndoNsfs(0) else SaveQuiesce
    case SaveQuiesce => Quiesce(0)
    case Quiesce(k) => LockPc(s.eng.lock.Free?, k, s.pc, Quiesce(k + 1), CancelMount)
    case CancelMount => DrainAfter
    case DrainAfter => if Sleeps(s) then DrainAfter else CheckDrained
    case CheckDrained => if s.eng.inflight > 0 then UndoMount else CheckProc
    case CheckProc => if s.proc.count != 0 then UndoMount else CheckNsfs
    case CheckNsfs =>
      if !s.nsfs.mutex.Nobody? then CheckNsfs
      else if !s.nsfs.stopping || s.nsfs.count != 0 then UndoMount
      else CheckIpc
    case CheckIpc => if a.error then UndoMount else CheckMqueue
    case CheckMqueue => if a.error then UndoMount else DetachReads(0)
    case DetachReads(k) => if DetachBusy(s, k) then UndoMount else if k >= 3 then DetachLocked else DetachReads(k + 1)
    case DetachLocked => if O.CanDetach(s.ops) then Disable else UndoMount
    case Disable => ExitOverlay
    case ExitOverlay => Remove(0, false)
    case Remove(k, half) => RemovePc(s.eng, s.removal, k, half, Remove(k, true), Remove(k + 1, false), CheckNsfsExit)
    case CheckNsfsExit => if s.nsfs.count != 0 then DrainLast else RemoveNsfs(0, false)
    case RemoveNsfs(k, half) => RemovePc(s.eng, s.nsfsHooks, k, half, RemoveNsfs(k, true),
      RemoveNsfs(k + 1, false), DrainLast)
    case DrainLast => if s.eng.inflight > 0 then DrainLast else ClearState
    case ClearState => if s.was then Stopped else Reopen(0)
    case Reopen(k) => LockPc(s.eng.lock.Free?, k, s.pc, Reopen(k + 1), Stopped)
    case UndoMount => if s.was then UndoNsfs(0) else UndoQuiesce(0)
    case UndoQuiesce(k) => LockPc(s.eng.lock.Free?, k, s.pc, UndoQuiesce(k + 1), UndoNsfs(0))
    case UndoNsfs(k) => LockPc(s.nsfs.mutex.Nobody?, k, s.pc, UndoNsfs(k + 1), UndoProxies)
    case UndoProxies => UndoUsers
    case UndoUsers => Refused
    case _ => s.pc
  }

  function ApplyEngine(e: H.State, op: Shared): H.State {
    if op.OnEngine? then H.Next(e, op.e) else e
  }

  function ApplyNsfs(p: P.State, op: Shared): P.State {
    if op.OnNsfs? then P.Next(p, op.pin) else p
  }

  function ApplyPidns(o: O.State, op: Shared): O.State {
    if op.OnPidns? then O.DetachOps(o) else o
  }

  /** The next operation of the stop on its own variables and the gates, with what it made of
      the shared structures. */
  function Moved(s: State, a: Answer, e: H.State, p: P.State, o: O.State): State {
    s.(pc := StopPc(s, a), eng := e, nsfs := p, ops := o,
       proxyStopping := if s.pc.StopProxies? then true else if s.pc.UndoProxies? then false else s.proxyStopping,
       userStopping := if s.pc.StopUsers? then true else if s.pc.UndoUsers? then false else s.userStopping,
       mountArmed := if s.pc.CancelMount? then false else if s.pc.UndoMount? then true else s.mountArmed,
       cancelled := s.cancelled || s.pc.CancelMount?,
       waited := if Sleeps(s) then s.waited + 10 else s.waited,
       was := if s.pc.SaveQuiesce? then s.eng.quiescing else s.was,
       enabled := s.enabled && !s.pc.Disable?,
       overlayUp := s.overlayUp && !s.pc.ExitOverlay?,
       ipcUp := s.ipcUp && !s.pc.ClearState?)
  }

  function StopStep(s: State, a: Answer): State {
    var op := StopShared(s);
    Moved(s, a, ApplyEngine(s.eng, op), ApplyNsfs(s.nsfs, op), ApplyPidns(s.ops, op))
  }

  /** The stop begins when the subsystem is enabled, its caller holds a module reference, and
      no lifecycle operation or other writer is active. */
  predicate CanBegin(s: State) {
    s.pc.Ready? && s.enabled && s.eng.live && s.eng.control.Idle? && !s.eng.lock.ByWriter?
  }

  function Begun(s: State): State {
    s.(pc := StopProxies, waited := 0, was := false, cancelled := false,
       entry := Entry(s.eng.quiescing, s.mountArmed, s.eng.hooks))
  }

  function Next(s: State, e: Event): State {
    match e
    case Engine(h) => if EngineAllowed(s, h) then Follow(s, h, H.Next(s.eng, h)) else s
    case Nsfs(p) =>
      if NsfsAllowed(s, p)
      then var t := P.Next(s.nsfs, p); s.(nsfs := t, eng := Account(s.eng, s.nsfs.refs, t.refs))
      else s
    case Proc(p) =>
      if ProcAllowed(s, p)
      then var t := P.Next(s.proc, p); s.(proc := t, eng := Account(s.eng, s.proc.refs, t.refs))
      else s
    case Pidns(o) => if PidnsAllowed(s, o) then s.(ops := O.Next(s.ops, o)) else s
    case Load =>
      if s.pc.Ready? && !s.enabled
      then s.(nsfs := s.nsfs.(stopping := false), proxyStopping := false, userStopping := false,
              mountArmed := true, enabled := true, overlayUp := true, ipcUp := true)
      else s
    case Begin => if CanBegin(s) then Begun(s) else s
    case Stop(a) => StopStep(s, a)
    case Return => if s.pc.Stopped? || s.pc.Refused? then s.(pc := Ready) else s
  }

  function Run(s: State, es: seq<Event>): State {
    if es == [] then s else Next(Run(s, es[..|es| - 1]), es[|es| - 1])
  }

  /** A module that has just been loaded, with hooks in the given roles and removal order. */
  function Init(roles: seq<Role>, removal: seq<nat>, nsfsHooks: seq<nat>): State {
    State(roles, removal, nsfsHooks,
          H.Init(seq(|roles|, i requires 0 <= i < |roles| => !(roles[i].ProcLookup? || roles[i].OtherOrdinary?))),
          P.Init(true), P.Init(false), O.START,
          false, false, false, false, false, false, Ready, 0, false, false, Entry(false, false, []))
  }

  /** A state of some run of a freshly loaded module, whose hooks are all on a removal list. */
  ghost predicate Reachable(s: State) {
    exists roles, removal, nsfsHooks, es ::
      Listed(|roles|, removal, nsfsHooks) && s == Run(Init(roles, removal, nsfsHooks), es)
  }

  /** A state of the stop that began in `s`, or a later one before the next stop. */
  ghost predicate Since(s: State, t: State) {
    exists es :: Begin !in es && t == Run(Begun(s), es)
  }

  // ------------------------------------------------------------------ the system without the stop

  predicate Lookup(t: P.Thread) {
    P.PastCheck(t) || t.Queued? || t.Surplus?
  }

  /** A hook is exempt exactly where the source exempts it. */
  predicate RolesOk(roles: seq<Role>, hooks: seq<H.Hook>) {
    && |roles| == |hooks|
    && forall h | 0 <= h < |roles| :: hooks[h].exempt <==> !(roles[h].ProcLookup? || roles[h].OtherOrdinary?)
  }

  /** Every hook is on one of the two removal lists. */
  predicate Listed(n: nat, removal: seq<nat>, nsfsHooks: seq<nat>) {
    forall h | 0 <= h < n :: h in removal || h in nsfsHooks
  }

  predicate Configured(s: State) {
    && RolesOk(s.roles, s.eng.hooks) && Listed(|s.roles|, s.removal, s.nsfsHooks)
    && s.nsfs.mutexed && !s.proc.mutexed
  }

  /** Pinning work happens only inside the body of the call it belongs to; lookups and pid
      namespace questions only inside ordinary ones. */
  predicate SlotOk(c: H.Call, n: P.Thread, p: P.Thread, o: O.Asking) {
    && (!n.Rest? || !p.Rest? || !o.Idle? ==> c.phase.Body?)
    && (Lookup(p) || !o.Idle? ==> !c.exempt)
  }

  predicate SlotsOk(calls: seq<H.Call>, nsfs: seq<P.Thread>, proc: seq<P.Thread>, ops: seq<O.Asking>) {
    && |nsfs| == |calls| && |proc| == |calls| && |ops| == |calls|
    && forall i | 0 <= i < |calls| :: SlotOk(calls[i], nsfs[i], proc[i], ops[i])
  }

  predicate Linked(s: State) {
    SlotsOk(s.eng.calls, s.nsfs.threads, s.proc.threads, s.ops.threads)
  }

  predicate OpsOk(o: O.State) {
    O.TargetOk(o) && O.EligibleOk(o) && O.GrantOk(o)
  }

  predicate Parts(s: State) {
    H.Inv(s.eng) && P.Inv(s.nsfs) && P.Inv(s.proc) && OpsOk(s.ops) && s.eng.other >= s.nsfs.refs + s.proc.refs
  }

  /** A thunk runs only under an armed hook, or one that is just being disarmed. */
  predicate ThunksOk(e: H.State) {
    forall i | 0 <= i < |e.calls| :: Entering(e.calls[i].phase) && e.calls[i].hook < |e.hooks| ==>
      e.hooks[e.calls[i].hook].armed || e.control == H.Disarmed(e.calls[i].hook)
  }

  predicate System(s: State) {
    Configured(s) && Linked(s) && Parts(s) && ThunksOk(s.eng)
  }

  // ------------------------------------------------------------------ what the stop has established

  /** How far the stop has got; 0 when it is not running or is backing out. */
  function Stage(pc: Pc): nat {
    match pc
    case StopProxies => 1 case StopUsers => 2 case CheckProxies => 3 case ShutNsfs(_) => 4
    case DrainBefore => 5 case CheckBefore => 6 case SaveQuiesce => 7 case Quiesce(_) => 8
    case CancelMount => 9 case DrainAfter => 10 case CheckDrained => 11 case CheckProc => 12
    case CheckNsfs => 13 case CheckIpc => 14 case CheckMqueue => 15 case DetachReads(_) => 16
    case DetachLocked => 17 case Disable => 18 case ExitOverlay => 19 case Remove(_, _) => 20
    case CheckNsfsExit => 21 case RemoveNsfs(_, _) => 22 case DrainLast => 23 case ClearState => 24
    case Reopen(_) => 25 case Stopped => 26
    case _ => 0
  }

  predicate Undoing(pc: Pc) {
    pc.UndoMount? || pc.UndoQuiesce? || pc.UndoNsfs? || pc.UndoProxies? || pc.UndoUsers? || pc.Refused?
  }

  /** No hook on the first `k` places of `list` is armed. */
  predicate DisarmedUpTo(hooks: seq<H.Hook>, list: seq<nat>, k: nat) {
    forall j | 0 <= j < k && j < |list| :: list[j] < |hooks| ==> !hooks[list[j]].armed
  }

  predicate NoneArmed(hooks: seq<H.Hook>) {
    forall h | 0 <= h < |hooks| :: !hooks[h].armed
  }

  /** No call is entering or running a replacement, of any hook. */
  predicate Silent(e: H.State) {
    NoneArmed(e.hooks) && forall i | 0 <= i < |e.calls| :: !Entering(e.calls[i].phase) && H.GlobalWeight(e.calls[i]) == 0
  }

  /** The quiesce lock while a writer is at operation k of writing `value`. */
  predicate Writing(e: H.State, value: bool, k: nat) {
    if k == 0 then !e.lock.ByWriter?
    else k <= 2 && e.lock == H.ByWriter(value, k == 2) && (k == 2 ==> e.quiescing == value)
  }

  predicate LockFacts(pc: Pc, e: H.State) {
    match pc
    case Ready => true
    case Quiesce(k) => Writing(e, true, k)
    case Reopen(k) => Writing(e, false, k)
    case UndoQuiesce(k) => Writing(e, false, k)
    case _ => !e.lock.ByWriter?
  }

  predicate Setting(p: P.State, value: bool, k: nat) {
    if k == 0 then !p.mutex.Stopper?
    else k <= 2 && p.mutex == P.Stopper(value, k == 2) && (k == 2 ==> p.stopping == value)
  }

  predicate MutexFacts(pc: Pc, p: P.State) {
    match pc
    case ShutNsfs(k) => Setting(p, true, k)
    case UndoNsfs(k) => Setting(p, false, k)
    case _ => !p.mutex.Stopper?
  }

  predicate ControlFacts(pc: Pc, control: H.Control, removal: seq<nat>, nsfsHooks: seq<nat>) {
    match pc
    case Ready => true
    case Remove(k, half) => if half then k < |removal| && control == H.Disarmed(removal[k]) else control.Idle?
    case RemoveNsfs(k, half) => if half then k < |nsfsHooks| && control == H.Disarmed(nsfsHooks[k]) else control.Idle?
    case _ => control.Idle?
  }

  /** Creation of pins and entry of ordinary calls are shut off. */
  predicate GateFacts(pc: Pc, stopping: bool, quiescing: bool) {
    && (Stage(pc) >= 5 ==> stopping)
    && (9 <= Stage(pc) <= 24 ==> quiescing)
  }

  /** Nothing is left of what was let in before. */
  predicate DrainFacts(pc: Pc, e: H.State, procCount: int, nsfsCount: int) {
    && (12 <= Stage(pc) ==> HT.Drained(e))
    && (13 <= Stage(pc) ==> procCount == 0)
    && (14 <= Stage(pc) ==> nsfsCount == 0)
  }

  predicate RemovalFacts(pc: Pc, hooks: seq<H.Hook>, removal: seq<nat>, nsfsHooks: seq<nat>) {
    && (pc.Remove? ==> DisarmedUpTo(hooks, removal, pc.k + (if pc.half then 1 else 0)))
    && (Stage(pc) >= 21 ==> DisarmedUpTo(hooks, removal, |removal|))
    && (pc.RemoveNsfs? ==> DisarmedUpTo(hooks, nsfsHooks, pc.k + (if pc.half then 1 else 0)))
    && (Stage(pc) >= 23 ==> NoneArmed(hooks))
  }

  predicate SilentFacts(pc: Pc, e: H.State) {
    Stage(pc) >= 24 ==> Silent(e)
  }

  /** The quiesce flag, compared with what the stop found. */
  predicate QuiesceEntry(pc: Pc, quiescing: bool, was: bool, entry: bool) {
    && (1 <= Stage(pc) <= 7 || (pc.Quiesce? && pc.k <= 1) ==> quiescing == entry)
    && (Stage(pc) >= 8 || pc.UndoMount? || pc.UndoQuiesce? ==> was == entry)
    && (pc.UndoMount? ==> quiescing)
    && (pc.UndoQuiesce? || pc.Reopen? ==> !was)
    && (pc.UndoNsfs? || pc.UndoProxies? || pc.UndoUsers? || pc.Refused? || pc.Stopped? ==> quiescing == entry)
  }

  predicate MountEntry(pc: Pc, cancelled: bool, armed: bool, entry: bool) {
    && (Stage(pc) >= 10 || pc.UndoMount? ==> cancelled)
    && (1 <= Stage(pc) <= 9 ==> !cancelled)
    && (pc.Ready? || cancelled || armed == entry)
    && (cancelled && Undoing(pc) && !pc.UndoMount? ==> armed)
  }

  /** The three creation gates. */
  predicate GateEntry(pc: Pc, enabled: bool, stopping: bool, proxyStopping: bool, userStopping: bool) {
    && (pc.UndoProxies? || pc.UndoUsers? || pc.Refused? || 1 <= Stage(pc) <= 3 || (pc.Ready? && enabled) ==> !stopping)
    && (pc.UndoUsers? || pc.Refused? || (pc.Ready? && enabled) ==> !proxyStopping)
    && (pc.Refused? || (pc.Ready? && enabled) ==> !userStopping)
  }

  predicate LoadedEntry(pc: Pc, enabled: bool, overlayUp: bool, ipcUp: bool) {
    && (1 <= Stage(pc) <= 18 || Undoing(pc) ==> enabled)
    && (Stage(pc) >= 19 ==> !enabled)
    && (enabled ==> overlayUp && ipcUp)
  }

  predicate HooksEntry(pc: Pc, hooks: seq<H.Hook>, entry: seq<H.Hook>) {
    1 <= Stage(pc) <= 19 || Undoing(pc) ==> H.SameFlags(hooks, entry)
  }

  predicate WaitEntry(pc: Pc, waited: nat) {
    pc.Ready? || (waited <= 30000 && waited % 10 == 0)
  }

  predicate EntryFacts(s: State) {
    && QuiesceEntry(s.pc, s.eng.quiescing, s.was, s.entry.quiescing)
    && MountEntry(s.pc, s.cancelled, s.mountArmed, s.entry.mountArmed)
    && GateEntry(s.pc, s.enabled, s.nsfs.stopping, s.proxyStopping, s.userStopping)
    && LoadedEntry(s.pc, s.enabled, s.overlayUp, s.ipcUp)
    && HooksEntry(s.pc, s.eng.hooks, s.entry.hooks)
    && WaitEntry(s.pc, s.waited)
  }

  predicate Inv(s: State) {
    && System(s) && LockFacts(s.pc, s.eng) && MutexFacts(s.pc, s.nsfs)
    && ControlFacts(s.pc, s.eng.control, s.removal, s.nsfsHooks)
    && GateFacts(s.pc, s.nsfs.stopping, s.eng.quiescing)
    && DrainFacts(s.pc, s.eng, s.proc.count, s.nsfs.count)
    && RemovalFacts(s.pc, s.eng.hooks, s.removal, s.nsfsHooks) && SilentFacts(s.pc, s.eng)
    && EntryFacts(s)
  }
}
