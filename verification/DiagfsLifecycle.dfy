/** Loading and unloading submodules through the control files of glue/lkm4ctr_diagfs.c, and the
    worker that unloads the whole module.

    Writers and the worker share one mutex and a few variables.  One event is one section
    under that mutex, one lifecycle callback, or one step of the worker between two sections;
    a run is any list of events. */
module DiagfsLifecycle {
  import opened Tally
  import opened Options

  // ------------------------------------------------------------------ state

  datatype Status = Active | Unloaded | Loading | GracefulUnloading | ForceUnloading

  predicate Busy(s: Status) {
    s.Loading? || s.GracefulUnloading? || s.ForceUnloading?
  }

  /** A submodule: which callbacks it has, whether its hooks are registered as active, and the
      state that its status file shows. */
  datatype Module = Module(hasInit: bool, hasExit: bool, registered: bool, status: Status)

  /** What one writer is in the middle of. */
  datatype Op =
    | Idle
    | Calling(m: nat)                    // inside mod_init or mod_exit of one submodule
    | LoadingAll(m: nat, calling: bool)  // load_all(), at submodule m
    | Spawning                           // unload accepted, worker not started yet

  /** Why the worker unloads every submodule. */
  datatype Why = AtStart | Escalated2 | Escalated | AfterDrain

  datatype Pc =
    | Asleep
    | ReadFlags
    | QuiesceOn
    | UnloadAll(why: Why, m: nat, calling: bool, failed: bool)
    | AutoUmount
    | ReadRefcount                       // the loop condition
    | Escalate                           // the locked section of the loop
    | CheckTimeout
    | Sleep
    | LaunchRmmod
    | Launched
    | QuiesceOff                         // on every error path
    | GiveUp

  datatype Worker = Worker(
    pc: Pc, force: bool, force2: bool,
    waited: nat,                         // milliseconds slept
    quiesced: bool,
    drained: bool,                       // a reference count of at most 1 was read after quiescing
    cleaned: Option<nat>)                // loads so far when unload_all_now() last returned 0

  const RESTING := Worker(Asleep, false, false, 0, false, false, None)

  datatype State = State(
    modules: seq<Module>,
    global: Status,
    inProgress: bool,
    force: bool,
    force2: bool,
    ops: seq<Op>,
    worker: Worker,
    launched: bool,                      // rmmod has been started
    loads: nat)                          // how many mod_init callbacks have been entered

  /** What the environment answers: whether the call succeeded, whether the submodule's hooks
      are registered afterwards, and the module reference count. */
  datatype Answer = Answer(ok: bool, registered: bool, refcount: int)

  datatype Event =
    | Load(m: nat)                       // "load" to a submodule's control file
    | Unload(m: nat, force: bool)        // "unload" or "force"
    | LoadAll                            // "load" to the global control file
    | UnloadModule(force: bool, force2: bool)
    | Step(op: nat, answer: Answer)
    | WorkerStep(answer: Answer)

  // ------------------------------------------------------------------ submodules

  function Stable(m: Module): Status {
    if m.registered then Active else Unloaded
  }

  function SetStatus(modules: seq<Module>, m: nat, status: Status): seq<Module> {
    if m < |modules| then modules[m := modules[m].(status := status)] else modules
  }

  /** The locked section after a callback. */
  function Settle(modules: seq<Module>, m: nat, registered: bool): seq<Module> {
    if m < |modules|
    then modules[m := modules[m].(registered := registered, status := Stable(modules[m].(registered := registered)))]
    else modules
  }

  predicate AnyBusy(modules: seq<Module>) {
    exists m | 0 <= m < |modules| :: Busy(modules[m].status)
  }

  /** The check that every operation makes first. */
  predicate Free(s: State) {
    s.global.Active? && !s.inProgress && !AnyBusy(s.modules)
  }

  // ------------------------------------------------------------------ writers

  function Begin(s: State, op: Op): State {
    s.(ops := s.ops + [op])
  }

  function StartLoad(s: State, m: nat): State {
    if m < |s.modules| && s.modules[m].hasInit && Free(s) && !Stable(s.modules[m]).Active?
    then s.(modules := SetStatus(s.modules, m, Loading), ops := s.ops + [Calling(m)], loads := s.loads + 1)
    else s
  }

  function StartUnload(s: State, m: nat, force: bool): State {
    if m < |s.modules| && s.modules[m].hasExit && Free(s) && (force || Stable(s.modules[m]).Active?)
    then s.(modules := SetStatus(s.modules, m, if force then ForceUnloading else GracefulUnloading),
      ops := s.ops + [Calling(m)])
    else s
  }

  function StartLoadAll(s: State): State {
    if Free(s) then s.(global := Loading, ops := s.ops + [LoadingAll(0, false)]) else s
  }

  /** The locked section of a global unload command: an unload that is already running is only
      escalated. */
  function StartUnloadModule(s: State, force: bool, force2: bool): State {
    var escalate2 := force2 && !s.force2;
    var escalate := (force || force2) && !s.force;
    if s.inProgress then
      s.(force := s.force || escalate2 || escalate, force2 := s.force2 || escalate2,
         global := if escalate2 || escalate then ForceUnloading else s.global)
    else if Free(s) then
      s.(inProgress := true, force := force || force2, force2 := force2,
         global := if force || force2 then ForceUnloading else GracefulUnloading, ops := s.ops + [Spawning])
    else s
  }

  /** load_all() at submodule `m`: entering its mod_init, or passing it over. */
  predicate Enters(s: State, m: nat) {
    m < |s.modules| && s.modules[m].hasInit && !Stable(s.modules[m]).Active?
  }

  function StepOp(s: State, i: nat, a: Answer): State
    requires i < |s.ops|
  {
    match s.ops[i]
    case Idle => s
    case Calling(m) => s.(modules := Settle(s.modules, m, a.registered), ops := s.ops[i := Idle])
    case LoadingAll(m, calling) =>
      if calling then s.(modules := Settle(s.modules, m, a.registered), ops := s.ops[i := LoadingAll(m + 1, false)])
      else if m >= |s.modules| then s.(global := Active, ops := s.ops[i := Idle])
      else if Enters(s, m) then
        s.(modules := SetStatus(s.modules, m, Loading), ops := s.ops[i := LoadingAll(m, true)], loads := s.loads + 1)
      else s.(ops := s.ops[i := LoadingAll(m + 1, false)])
    case Spawning =>
      if a.ok then s.(worker := RESTING.(pc := ReadFlags), ops := s.ops[i := Idle])
      else s.(inProgress := false, global := Active, ops := s.ops[i := Idle])
  }

  // ------------------------------------------------------------------ the worker

  const TIMEOUT := 30000
  const POLL := 50

  /** Where the worker goes when unload_all_now() is through. */
  function AfterUnload(w: Worker, why: Why): Pc {
    match why
    case AtStart => AutoUmount
    case Escalated2 => CheckTimeout
    case Escalated => CheckTimeout
    case AfterDrain => LaunchRmmod
  }

  /** Does unload_all_now() call mod_exit of submodule `m`? */
  predicate Exits(modules: seq<Module>, m: nat, force: bool) {
    m < |modules| && modules[m].hasExit && (force || Stable(modules[m]).Active?)
  }

  /** The next step of the worker on its own variables. */
  function WorkerPc(s: State, a: Answer): Pc {
    var w := s.worker;
    match w.pc
    case Asleep => Asleep
    case ReadFlags => QuiesceOn
    case QuiesceOn => if w.force then UnloadAll(AtStart, 0, false, false) else AutoUmount
    case UnloadAll(why, m, calling, failed) =>
      if calling then UnloadAll(why, m + 1, false, failed || !a.ok)
      else if m < |s.modules| then
        (if Exits(s.modules, m, !why.AfterDrain?) then UnloadAll(why, m, true, failed)
          else UnloadAll(why, m + 1, false, failed))
      else if failed then QuiesceOff
      else AfterUnload(w, why)
    case AutoUmount => ReadRefcount
    case ReadRefcount =>
      if a.refcount > 1 then Escalate
      else if w.force then LaunchRmmod
      else UnloadAll(AfterDrain, 0, false, false)
    case Escalate =>
      var esc, esc2 := !w.force && s.force, !w.force2 && s.force2;
      if esc then UnloadAll(Escalated, 0, false, false)
      else if esc2 then UnloadAll(Escalated2, 0, false, false)
      else CheckTimeout
    case CheckTimeout => if w.waited >= TIMEOUT then QuiesceOff else Sleep
    case Sleep => ReadRefcount
    case LaunchRmmod => if a.ok then Launched else QuiesceOff
    case Launched => Asleep
    case QuiesceOff => GiveUp
    case GiveUp => Asleep
  }

  predicate UnloadDone(s: State) {
    s.worker.pc.UnloadAll? && !s.worker.pc.calling && s.worker.pc.m >= |s.modules| && !s.worker.pc.failed
  }

  function StepWorker(s: State, a: Answer): Worker {
    var w := s.worker;
    w.(pc := WorkerPc(s, a),
       force := if w.pc.ReadFlags? then s.force
                else if w.pc.Escalate? then w.force || s.force || (s.force2 && !w.force2) else w.force,
       force2 := if w.pc.ReadFlags? then s.force2 else if w.pc.Escalate? then w.force2 || s.force2 else w.force2,
       waited := if w.pc.Sleep? then w.waited + POLL else w.waited,
       quiesced := w.pc.QuiesceOn? || (w.quiesced && !w.pc.QuiesceOff?),
       drained := w.drained || (w.pc.ReadRefcount? && a.refcount <= 1),
       cleaned := if UnloadDone(s) then Some(s.loads) else w.cleaned)
  }

  /** What the worker's step does to the submodules. */
  function WorkerModules(s: State, a: Answer): seq<Module> {
    var pc := s.worker.pc;
    if !pc.UnloadAll? then s.modules
    else if pc.calling then Settle(s.modules, pc.m, a.registered)
    else if Exits(s.modules, pc.m, !pc.why.AfterDrain?)
    then SetStatus(s.modules, pc.m, if pc.why.AfterDrain? then GracefulUnloading else ForceUnloading)
    else s.modules
  }

  function NextWorker(s: State, a: Answer): State {
    var ends := s.worker.pc.Launched? || s.worker.pc.GiveUp?;
    s.(modules := WorkerModules(s, a),
       worker := StepWorker(s, a),
       inProgress := s.inProgress && !ends,
       force := s.force && !ends,
       force2 := s.force2 && !ends,
       global := if s.worker.pc.GiveUp? then Active else s.global,
       launched := s.launched || (s.worker.pc.LaunchRmmod? && a.ok))
  }

  function Next(s: State, e: Event): State {
    match e
    case Load(m) => StartLoad(s, m)
    case Unload(m, force) => StartUnload(s, m, force)
    case LoadAll => StartLoadAll(s)
    case UnloadModule(force, force2) => StartUnloadModule(s, force, force2)
    case Step(i, a) => if i < |s.ops| then StepOp(s, i, a) else s
    case WorkerStep(a) => NextWorker(s, a)
  }

  function Run(s: State, es: seq<Event>): State {
    if es == [] then s else Next(Run(s, es[..|es| - 1]), es[|es| - 1])
  }

  /** The file system has just been registered: nothing is going on. */
  function Init(modules: seq<Module>): State {
    State(seq(|modules|, i requires 0 <= i < |modules| => modules[i].(status := Stable(modules[i]))),
          Active, false, false, false, [], RESTING, false, 0)
  }

  // ------------------------------------------------------------------ invariant

  function Weight(op: Op): nat {
    if op.Idle? then 0 else 1
  }

  /** How many operations are under way. */
  function Running(s: State): nat {
    Sum(s.ops, Weight) + if s.worker.pc.Asleep? then 0 else 1
  }

  /** Every submodule but `m` is in a stable state. */
  predicate StableBut(modules: seq<Module>, m: nat) {
    forall k | 0 <= k < |modules| && k != m :: modules[k].status == Stable(modules[k])
  }

  predicate AllStable(modules: seq<Module>) {
    forall k | 0 <= k < |modules| :: modules[k].status == Stable(modules[k])
  }

  predicate Unloading(global: Status) {
    global.GracefulUnloading? || global.ForceUnloading?
  }

  /** What the shared variables say while an operation is under way. */
  predicate OpOk(s: State, op: Op) {
    match op
    case Idle => true
    case Calling(m) => m < |s.modules| && StableBut(s.modules, m) && s.global.Active? && !s.inProgress && !s.launched
                       && Busy(s.modules[m].status)
    case LoadingAll(m, calling) =>
      && s.global.Loading? && !s.inProgress && !s.launched
      && (if calling then m < |s.modules| && StableBut(s.modules, m) else AllStable(s.modules))
    case Spawning => AllStable(s.modules) && Unloading(s.global) && s.inProgress && !s.launched
  }

  predicate WorkerOk(s: State) {
    if s.worker.pc.Asleep? then true
    else
      && Unloading(s.global) && s.inProgress && (s.launched <==> s.worker.pc.Launched?)
      && (if s.worker.pc.UnloadAll? && s.worker.pc.calling then StableBut(s.modules, s.worker.pc.m)
        else AllStable(s.modules))
  }

  predicate Exclusive(s: State) {
    Running(s) <= 1 && WorkerOk(s) && forall i | 0 <= i < |s.ops| :: OpOk(s, s.ops[i])
  }

  /** With nothing under way the file system is at rest, unless rmmod has been started. */
  predicate AtRest(s: State) {
    !s.inProgress && AllStable(s.modules) && (if s.launched then Unloading(s.global) else s.global.Active?)
  }

  /** From the first unload of a forced run on. */
  predicate Waiting(pc: Pc) {
    pc.AutoUmount? || pc.ReadRefcount? || pc.Escalate? || pc.CheckTimeout? || pc.Sleep? || pc.LaunchRmmod? || pc.Launched?
  }

  /** What the worker has established before each of its steps. */
  predicate Earned(s: State) {
    var w := s.worker;
    && (w.pc.ReadFlags? || w.pc.QuiesceOn? ==> w.waited == 0)
    && (w.waited <= TIMEOUT && w.waited % POLL == 0 && (w.pc.Sleep? ==> w.waited < TIMEOUT))
    && (!w.pc.Asleep? && !w.pc.ReadFlags? && !w.pc.QuiesceOn? && !w.pc.GiveUp? ==> w.quiesced)
    && (w.force && Waiting(w.pc) ==> w.cleaned == Some(s.loads))
    && (w.pc.LaunchRmmod? || w.pc.Launched? ==> w.drained && w.cleaned == Some(s.loads))
    && (w.pc.UnloadAll? && w.pc.why.AfterDrain? ==> w.drained)
  }

  predicate Inv(s: State) {
    Exclusive(s) && (Running(s) == 0 ==> AtRest(s)) && Earned(s)
  }

  // ------------------------------------------------------------------ preservation

  /** A check that succeeds finds nothing else under way. */
  lemma FreeIsAlone(s: State)
    requires Inv(s) && Free(s)
    ensures Running(s) == 0 && AllStable(s.modules) && !s.launched
  {
    SumMembers(s.ops, Weight);
    if Running(s) > 0 {
      if s.worker.pc.Asleep? {
        SomeRuns(s.ops);
      }
    }
  }

  lemma {:induction false} SomeRuns(ops: seq<Op>)
    requires Sum(ops, Weight) > 0
    ensures exists i | 0 <= i < |ops| :: !ops[i].Idle?
  {
    var n := |ops| - 1;
    if ops[n].Idle? {
      SomeRuns(ops[..n]);
      var i :| 0 <= i < n && !ops[..n][i].Idle?;
      assert !ops[i].Idle?;
    }
  }

  /** With one operation under way every other thread is idle and, if it is not the worker's,
      the worker sleeps. */
  lemma OnlyOne(s: State, i: nat)
    requires Running(s) <= 1 && i < |s.ops| && !s.ops[i].Idle?
    ensures s.worker.pc.Asleep? && Running(s) == 1
    ensures forall j | 0 <= j < |s.ops| && j != i :: s.ops[j].Idle?
  {
    SumMember(s.ops, i, Weight);
    forall j | 0 <= j < |s.ops| && j != i ensures s.ops[j].Idle? {
      if j < i { SumPair(s.ops, j, i, Weight); } else { SumPair(s.ops, i, j, Weight); }
    }
  }

  lemma WorkerAlone(s: State)
    requires Running(s) <= 1 && !s.worker.pc.Asleep?
    ensures forall j | 0 <= j < |s.ops| :: s.ops[j].Idle?
  {
    SumMembers(s.ops, Weight);
  }

  /** A new operation starts alone. */
  lemma StartInv(s: State, t: State, op: Op)
    requires Inv(s) && Running(s) == 0 && t.ops == s.ops + [op] && t.worker == s.worker
    requires OpOk(t, op) && !op.Idle?
    ensures Inv(t)
  {
    SumAppend(s.ops, op, Weight);
    SumMembers(s.ops, Weight);
    forall i | 0 <= i < |t.ops| ensures OpOk(t, t.ops[i]) {
      if i < |s.ops| { assert Weight(s.ops[i]) == 0; }
    }
  }

  lemma LoadInv(s: State, m: nat)
    requires Inv(s)
    ensures Inv(StartLoad(s, m))
  {
    if m < |s.modules| && s.modules[m].hasInit && Free(s) && !Stable(s.modules[m]).Active? {
      FreeIsAlone(s);
      StartInv(s, StartLoad(s, m), Calling(m));
    }
  }

  lemma UnloadInv(s: State, m: nat, force: bool)
    requires Inv(s)
    ensures Inv(StartUnload(s, m, force))
  {
    if m < |s.modules| && s.modules[m].hasExit && Free(s) && (force || Stable(s.modules[m]).Active?) {
      FreeIsAlone(s);
      StartInv(s, StartUnload(s, m, force), Calling(m));
    }
  }

  lemma LoadAllInv(s: State)
    requires Inv(s)
    ensures Inv(StartLoadAll(s))
  {
    if Free(s) {
      FreeIsAlone(s);
      StartInv(s, StartLoadAll(s), LoadingAll(0, false));
    }
  }

  /** An escalation changes only how the running unload proceeds. */
  lemma EscalateInv(s: State, force: bool, force2: bool)
    requires Inv(s) && s.inProgress
    ensures Inv(StartUnloadModule(s, force, force2))
  {
    var t := StartUnloadModule(s, force, force2);
    forall i | 0 <= i < |t.ops| ensures OpOk(t, t.ops[i]) {
      assert OpOk(s, s.ops[i]);
    }
  }

  lemma UnloadModuleInv(s: State, force: bool, force2: bool)
    requires Inv(s)
    ensures Inv(StartUnloadModule(s, force, force2))
  {
    if s.inProgress {
      EscalateInv(s, force, force2);
    } else if Free(s) {
      FreeIsAlone(s);
      StartInv(s, StartUnloadModule(s, force, force2), Spawning);
    }
  }

  /** One step of an operation: everybody else stays idle. */
  lemma OpMoves(s: State, i: nat, t: State, op: Op)
    requires Inv(s) && i < |s.ops| && !s.ops[i].Idle? && t.ops == s.ops[i := op]
    requires if op.Idle? then (!t.worker.pc.Asleep? ==> WorkerOk(t)) && (t.worker.pc.Asleep? ==> AtRest(t))
             else t.worker == s.worker && OpOk(t, op)
    requires Earned(t)
    ensures Inv(t)
  {
    OnlyOne(s, i);
    SumUpdate(s.ops, i, op, Weight);
  }

  lemma SettleStable(modules: seq<Module>, m: nat, registered: bool)
    requires StableBut(modules, m)
    ensures AllStable(Settle(modules, m, registered))
  {
  }

  lemma LoadingAllInv(s: State, i: nat, a: Answer)
    requires Inv(s) && i < |s.ops| && s.ops[i].LoadingAll?
    ensures Inv(StepOp(s, i, a))
  {
    var t := StepOp(s, i, a);
    OnlyOne(s, i);
    assert OpOk(s, s.ops[i]);
    if s.ops[i].calling {
      SettleStable(s.modules, s.ops[i].m, a.registered);
    }
    OpMoves(s, i, t, t.ops[i]);
  }

  lemma StepOpInv(s: State, i: nat, a: Answer)
    requires Inv(s) && i < |s.ops|
    ensures Inv(StepOp(s, i, a))
  {
    match s.ops[i]
    case Idle =>
    case LoadingAll(_, _) => LoadingAllInv(s, i, a);
    case Calling(m) =>
      OnlyOne(s, i);
      assert OpOk(s, s.ops[i]);
      SettleStable(s.modules, m, a.registered);
      OpMoves(s, i, StepOp(s, i, a), Idle);
    case Spawning =>
      OnlyOne(s, i);
      assert OpOk(s, s.ops[i]);
      OpMoves(s, i, StepOp(s, i, a), Idle);
  }

  lemma WorkerModulesOk(s: State, a: Answer)
    requires WorkerOk(s) && !s.worker.pc.Asleep?
    ensures var t := NextWorker(s, a);
            if t.worker.pc.UnloadAll? && t.worker.pc.calling then StableBut(t.modules, t.worker.pc.m)
              else AllStable(t.modules)
  {
  }

  lemma WorkerEarns(s: State, a: Answer)
    requires Earned(s)
    ensures Earned(NextWorker(s, a))
  {
  }

  lemma WorkerInv(s: State, a: Answer)
    requires Inv(s)
    ensures Inv(NextWorker(s, a))
  {
    var t := NextWorker(s, a);
    if s.worker.pc.Asleep? {
      assert t == s;
    } else {
      WorkerAlone(s);
      WorkerModulesOk(s, a);
      WorkerEarns(s, a);
      forall i | 0 <= i < |t.ops| ensures OpOk(t, t.ops[i]) {
        assert s.ops[i].Idle?;
      }
      SumZero(s.ops, Weight);
    }
  }

  lemma NextInv(s: State, e: Event)
    requires Inv(s)
    ensures Inv(Next(s, e))
  {
    match e
    case Load(m) => LoadInv(s, m);
    case Unload(m, force) => UnloadInv(s, m, force);
    case LoadAll => LoadAllInv(s);
    case UnloadModule(force, force2) => UnloadModuleInv(s, force, force2);
    case Step(i, a) => if i < |s.ops| { StepOpInv(s, i, a); }
    case WorkerStep(a) => WorkerInv(s, a);
  }

  lemma {:induction false} RunInv(s: State, es: seq<Event>)
    requires Inv(s)
    ensures Inv(Run(s, es))
  {
    if es != [] {
      RunInv(s, es[..|es| - 1]);
      NextInv(Run(s, es[..|es| - 1]), es[|es| - 1]);
    }
  }

  lemma InitInv(modules: seq<Module>)
    ensures Inv(Init(modules))
  {
  }

  // ------------------------------------------------------------------ what holds in every run

  /** Inside mod_init or mod_exit. */
  predicate InCallback(op: Op) {
    op.Calling? || (op.LoadingAll? && op.calling)
  }

  predicate WorkerInCallback(w: Worker) {
    w.pc.UnloadAll? && w.pc.calling
  }

  function CallbackWeight(op: Op): nat {
    if InCallback(op) then 1 else 0
  }

  ghost predicate Reachable(s: State) {
    exists modules, es :: s == Run(Init(modules), es)
  }

  lemma ReachableInv(s: State)
    requires Reachable(s)
    ensures Inv(s)
  {
    var modules, es :| s == Run(Init(modules), es);
    InitInv(modules);
    RunInv(Init(modules), es);
  }

  /** How many threads are inside a lifecycle callback. */
  function Callbacks(s: State): nat {
    Sum(s.ops, CallbackWeight) + if WorkerInCallback(s.worker) then 1 else 0
  }

  /** Exclusion, in every reachable state: at most one thread is inside a lifecycle callback. */
  lemma LifecycleExclusion(s: State)
    requires Reachable(s)
    ensures Callbacks(s) <= Running(s) <= 1
  {
    ReachableInv(s);
    SumMonotone(s.ops, CallbackWeight, Weight);
  }

  /** Whenever nothing is under way and no rmmod was started, the global state is active, every
      submodule shows a stable state and no unload is marked as in progress. */
  lemma NothingLeftBehind(s: State)
    requires Reachable(s) && Running(s) == 0 && !s.launched
    ensures s.global.Active? && AllStable(s.modules) && !s.inProgress
  {
    ReachableInv(s);
  }

  /** rmmod is started only by a worker that has quiesced the hooks, has then read a reference
      count of at most 1, and has in this run unloaded every submodule with result 0, with no
      submodule loaded since: on the graceful path, the forced paths and after an escalation
      while waiting. */
  lemma LaunchIsEarned(s: State, e: Event)
    requires Reachable(s) && !s.launched && Next(s, e).launched
    ensures s.worker.pc.LaunchRmmod? && s.worker.quiesced && s.worker.drained && s.worker.cleaned == Some(s.loads)
  {
    ReachableInv(s);
  }

  /** The worker sleeps at most 600 times, and gives up at the first test after that. */
  lemma BoundedWait(s: State)
    requires Reachable(s)
    ensures s.worker.waited / POLL <= 600 && (s.worker.pc.Sleep? ==> s.worker.waited / POLL < 600)
  {
    ReachableInv(s);
  }

  // ------------------------------------------------------------------ the worker ends

  /** Steps of a pass over `n` submodules, from submodule `m` on. */
  function PassLeft(n: nat, m: nat, calling: bool): nat {
    if m < n then 2 * (n - m) - (if calling then 1 else 0) else if calling then 1 else 0
  }

  /** Steps of the unloads that an escalation may still ask for. */
  function EscalationsLeft(n: nat, w: Worker): nat {
    (if w.force then 0 else 2 * n + 1) + (if w.force2 then 0 else 2 * n + 1)
  }

  /** Steps of the rounds of the loop that are still possible, each of at most four. */
  function RoundsLeft(n: nat, w: Worker): nat {
    4 * ((if w.waited < TIMEOUT then TIMEOUT - w.waited else 0) / POLL) + EscalationsLeft(n, w) + 2 * n + 1
  }

  /** A bound on the steps the worker has before it. */
  function StepsLeft(n: nat, w: Worker): nat {
    var r := RoundsLeft(n, w);
    match w.pc
    case Asleep => 0
    case ReadFlags => RoundsLeft(n, w.(force := false, force2 := false)) + 2 * n + 9
    case QuiesceOn => r + 2 * n + 8
    case UnloadAll(AtStart, m, calling, _) => r + 7 + PassLeft(n, m, calling)
    case AutoUmount => r + 6
    case ReadRefcount => r + 5
    case Escalate => r + 4
    case UnloadAll(Escalated, m, calling, _) => r + 4 + PassLeft(n, m, calling)
    case UnloadAll(Escalated2, m, calling, _) => r + 4 + PassLeft(n, m, calling)
    case CheckTimeout => r + 3
    case Sleep => r + 2
    case UnloadAll(AfterDrain, m, calling, _) => 4 + PassLeft(n, m, calling)
    case LaunchRmmod => 3
    case QuiesceOff => 2
    case Launched => 1
    case GiveUp => 1
  }

  /** Escalating costs one of the unloads that were still possible. */
  lemma EscalateLeft(s: State, a: Answer)
    requires Inv(s) && s.worker.pc.Escalate?
    ensures StepsLeft(|s.modules|, StepWorker(s, a)) < StepsLeft(|s.modules|, s.worker)
  {
  }

  lemma SleepLeft(s: State, a: Answer)
    requires Inv(s) && (s.worker.pc.CheckTimeout? || s.worker.pc.Sleep?)
    ensures StepsLeft(|s.modules|, StepWorker(s, a)) < StepsLeft(|s.modules|, s.worker)
  {
  }

  lemma PassGoesOn(s: State, a: Answer)
    requires s.worker.pc.UnloadAll?
    ensures StepsLeft(|s.modules|, StepWorker(s, a)) < StepsLeft(|s.modules|, s.worker)
  {
    var t := StepWorker(s, a);
    assert RoundsLeft(|s.modules|, t) == RoundsLeft(|s.modules|, s.worker);
    hide RoundsLeft;
  }

  lemma BeginGoesOn(s: State, a: Answer)
    requires s.worker.pc.ReadFlags?
    ensures StepsLeft(|s.modules|, StepWorker(s, a)) < StepsLeft(|s.modules|, s.worker)
  {
  }

  lemma RestGoesOn(s: State, a: Answer)
    requires !s.worker.pc.Asleep? && !s.worker.pc.ReadFlags? && !s.worker.pc.UnloadAll?
    requires !s.worker.pc.Escalate? && !s.worker.pc.CheckTimeout? && !s.worker.pc.Sleep?
    ensures StepsLeft(|s.modules|, StepWorker(s, a)) < StepsLeft(|s.modules|, s.worker)
  {
    assert RoundsLeft(|s.modules|, StepWorker(s, a)) == RoundsLeft(|s.modules|, s.worker) >= 2 * |s.modules| + 1;
    hide RoundsLeft;
  }

  /** Every step of the worker uses one up, whatever the environment answers and whatever the
      writers have asked for. */
  lemma WorkerGetsOn(s: State, a: Answer)
    requires Inv(s) && !s.worker.pc.Asleep?
    ensures StepsLeft(|s.modules|, StepWorker(s, a)) < StepsLeft(|s.modules|, s.worker)
  {
    hide StepsLeft, StepWorker;
    match s.worker.pc
    case ReadFlags => BeginGoesOn(s, a);
    case Escalate => EscalateLeft(s, a);
    case CheckTimeout => SleepLeft(s, a);
    case Sleep => SleepLeft(s, a);
    case UnloadAll(_, _, _, _) => PassGoesOn(s, a);
    case _ => RestGoesOn(s, a);
  }

  lemma ModulesKept(s: State, e: Event)
    ensures |Next(s, e).modules| == |s.modules|
  {
  }

  /** Nobody else touches a worker that runs. */
  lemma WorkerIsAlone(s: State, e: Event)
    requires Inv(s) && !s.worker.pc.Asleep? && !e.WorkerStep?
    ensures Next(s, e).worker == s.worker
  {
    if e.Step? && e.op < |s.ops| {
      assert OpOk(s, s.ops[e.op]);
      SumMember(s.ops, e.op, Weight);
    }
  }

  /** How many steps the worker takes in a run. */
  function WorkerSteps(es: seq<Event>): nat {
    if es == [] then 0 else WorkerSteps(es[..|es| - 1]) + (if es[|es| - 1].WorkerStep? then 1 else 0)
  }

  /** The worker runs throughout. */
  predicate RunsOn(s: State, es: seq<Event>) {
    forall k | 0 <= k <= |es| :: !Run(s, es[..k]).worker.pc.Asleep?
  }

  lemma {:induction false} StepsUsed(s: State, es: seq<Event>)
    requires Inv(s) && RunsOn(s, es)
    ensures Inv(Run(s, es)) && |Run(s, es).modules| == |s.modules|
    ensures WorkerSteps(es) + StepsLeft(|s.modules|, Run(s, es).worker) <= StepsLeft(|s.modules|, s.worker)
  {
    if es != [] {
      var n := |es| - 1;
      var t, e := Run(s, es[..n]), es[n];
      forall k | 0 <= k <= n ensures !Run(s, es[..n][..k]).worker.pc.Asleep? {
        assert es[..n][..k] == es[..k];
      }
      StepsUsed(s, es[..n]);
      NextInv(t, e);
      ModulesKept(t, e);
      if e.WorkerStep? {
        WorkerGetsOn(t, e.answer);
      } else {
        WorkerIsAlone(t, e);
      }
    }
  }

  lemma RoundsBound(n: nat, w: Worker)
    ensures RoundsLeft(n, w) <= 6 * n + 2403
  {
  }

  lemma StepsBound(n: nat, w: Worker)
    ensures StepsLeft(n, w) <= 8 * n + 2412
    ensures !w.pc.Asleep? ==> StepsLeft(n, w) > 0
  {
    RoundsBound(n, w);
    RoundsBound(n, w.(force := false, force2 := false));
    hide RoundsLeft;
  }

  /** The worker ends.  However often the writers escalate, whatever the reference count does and
      whichever submodule refuses, it takes fewer than 8n + 2412 steps of its own for `n`
      submodules before it sleeps again, having started rmmod or given up. */
  lemma WorkerEnds(s: State, es: seq<Event>)
    requires Reachable(s) && RunsOn(s, es)
    ensures WorkerSteps(es) < StepsLeft(|s.modules|, s.worker) <= 8 * |s.modules| + 2412
  {
    ReachableInv(s);
    hide StepsLeft, Inv;
    StepsUsed(s, es);
    StepsBound(|s.modules|, s.worker);
    StepsBound(|s.modules|, Run(s, es).worker);
    assert es[..|es|] == es;
  }

  lemma LaunchedAlone(s: State)
    requires Inv(s) && s.launched
    ensures Unloading(s.global) && forall i | 0 <= i < |s.ops| :: s.ops[i].Idle?
  {
    forall i | 0 <= i < |s.ops| ensures s.ops[i].Idle? {
      assert OpOk(s, s.ops[i]);
    }
    SumZero(s.ops, Weight);
  }

  /** After the launch nothing can be loaded or unloaded any more: the global state never shows
      active again. */
  lemma LaunchedIsFinal(s: State, e: Event)
    requires Reachable(s) && s.launched
    ensures Next(s, e).launched && Unloading(Next(s, e).global) && Next(s, e).loads == s.loads
  {
    ReachableInv(s);
    LaunchedAlone(s);
  }
}
