/** The self-unload worker of glue/lkm4ctr_diagfs.c running against the hook engine: its two
    quiesce calls write the engine's gate, and the reference count it waits for is the engine's.

    One event is one event of either machine; those of the worker that touch the engine do
    both at once.  While the worker runs nobody else writes the gate. */
module SafeUnload {
  import opened Tally
  import H = HookEngine
  import Hooks = HookTheorems
  import D = DiagfsLifecycle

  datatype State = State(unload: D.State, hooks: H.State)

  datatype Event = Unload(d: D.Event) | Hook(h: H.Event)

  /** The worker keeps a module reference of its own from its start to its end. */
  function Own(pc: D.Pc): nat {
    if pc.Asleep? || pc.ReadFlags? then 0 else 1
  }

  function Quiesce(h: H.State, value: bool): H.State {
    H.Next(H.Next(H.Next(h, H.QuiesceLock(value)), H.QuiesceStep), H.QuiesceStep)
  }

  function RefCount(h: H.State): int {
    h.refs + h.other
  }

  /** The worker cannot go on: it spins on the quiesce lock, or the module is going away, which
      the open control file rules out. */
  predicate Blocked(s: State) {
    || (s.unload.worker.pc.QuiesceOn? && !s.hooks.lock.Free?)
    || (s.unload.worker.pc.QuiesceOff? && !s.hooks.lock.Free?)
    || (s.unload.worker.pc.ReadFlags? && !s.hooks.live)
  }

  /** What a step of the worker does to the engine. */
  function WorkerHooks(s: State): H.State {
    match s.unload.worker.pc
    case ReadFlags => H.Next(s.hooks, H.OtherGet)
    case QuiesceOn => Quiesce(s.hooks, true)
    case QuiesceOff => Quiesce(s.hooks, false)
    case Launched => H.Next(s.hooks, H.OtherPut)
    case GiveUp => H.Next(s.hooks, H.OtherPut)
    case _ => s.hooks
  }

  function Next(s: State, e: Event): State {
    match e
    case Unload(d) =>
      if !d.WorkerStep? then s.(unload := D.Next(s.unload, d))
      else if Blocked(s) then s
      else State(D.Next(s.unload, D.WorkerStep(d.answer.(refcount := RefCount(s.hooks)))), WorkerHooks(s))
    case Hook(h) =>
      if h.QuiesceLock? || (h.OtherPut? && s.hooks.other <= Own(s.unload.worker.pc)) then s
      else s.(hooks := H.Next(s.hooks, h))
  }

  function Run(s: State, es: seq<Event>): State {
    if es == [] then s else Next(Run(s, es[..|es| - 1]), es[|es| - 1])
  }

  ghost predicate Reachable(s: State) {
    exists modules, exempt, es :: s == Run(State(D.Init(modules), H.Init(exempt)), es)
  }

  // ------------------------------------------------------------------ invariant

  /** What the worker knows about the engine. */
  predicate Gated(s: State) {
    && (s.unload.worker.quiesced ==> Hooks.Shut(s.hooks))
    && (s.unload.worker.quiesced && s.unload.worker.drained ==> Hooks.Drained(s.hooks))
    && (s.unload.launched ==> s.unload.worker.quiesced && s.unload.worker.drained)
    && (s.unload.worker.pc.ReadFlags? || s.unload.worker.pc.QuiesceOn? ==> !s.unload.worker.drained)
    && Own(s.unload.worker.pc) <= s.hooks.other
  }

  predicate Inv(s: State) {
    D.Inv(s.unload) && H.Inv(s.hooks) && Gated(s)
  }

  lemma QuiesceInv(h: H.State, value: bool)
    requires H.Inv(h) && h.lock.Free?
    ensures H.Inv(Quiesce(h, value)) && Quiesce(h, value).other == h.other
    ensures value ==> Hooks.Shut(Quiesce(h, value))
  {
    H.NextInv(h, H.QuiesceLock(value));
    H.NextInv(H.Next(h, H.QuiesceLock(value)), H.QuiesceStep);
    H.NextInv(H.Next(H.Next(h, H.QuiesceLock(value)), H.QuiesceStep), H.QuiesceStep);
  }

  /** Whoever else holds a reference, a count of one leaves none for a redirected call. */
  lemma OneLeavesNoCall(h: H.State)
    requires H.Inv(h) && Hooks.Shut(h) && h.other >= 1 && RefCount(h) <= 1
    ensures h.refs == 0 && h.inflight == 0 && Hooks.Drained(h)
  {
    SumMonotone(h.calls, H.GlobalWeight, H.RefWeight);
    Hooks.ShutIdle(h);
  }

  /** Once rmmod has been started nobody but the worker moves. */
  lemma LaunchedStays(s: D.State, e: D.Event)
    requires D.Inv(s) && s.launched && s.worker.quiesced && s.worker.drained
    ensures D.Next(s, e).worker.quiesced && D.Next(s, e).worker.drained
  {
    D.LaunchedAlone(s);
  }

  /** A step that is not the worker's leaves the worker alone, or starts it afresh. */
  lemma OthersLeaveWorker(s: D.State, e: D.Event)
    requires D.Inv(s) && !e.WorkerStep?
    ensures D.Next(s, e).launched == s.launched
    ensures D.Next(s, e).worker == s.worker || (!s.launched && D.Next(s, e).worker == D.RESTING.(pc := D.ReadFlags))
  {
    if e.Step? && e.op < |s.ops| {
      assert D.OpOk(s, s.ops[e.op]);
    }
  }

  /** The worker's reference, as its step takes or puts it. */
  function OwnDelta(pc: D.Pc): int {
    if pc.ReadFlags? then 1 else if pc.Launched? || pc.GiveUp? then -1 else 0
  }

  lemma WorkerOwns(s: D.State, a: D.Answer)
    ensures Own(D.WorkerPc(s, a)) == Own(s.worker.pc) + OwnDelta(s.worker.pc)
  {
  }

  /** What the worker's step leaves of the gate. */
  lemma WorkerHooksOk(s: State)
    requires Inv(s) && !Blocked(s)
    ensures var pc, h, t := s.unload.worker.pc, s.hooks, WorkerHooks(s);
            && H.Inv(t) && t.other == h.other + OwnDelta(pc)
            && (pc.QuiesceOn? ==> Hooks.Shut(t))
            && (!pc.QuiesceOff? && Hooks.Shut(h) ==> Hooks.Shut(t))
            && (!pc.QuiesceOn? && !pc.QuiesceOff? && Hooks.Drained(h) ==> Hooks.Drained(t))
  {
    hide H.Inv, D.Inv;
    match s.unload.worker.pc
    case ReadFlags => H.NextInv(s.hooks, H.OtherGet);
    case QuiesceOn => QuiesceInv(s.hooks, true);
    case QuiesceOff => QuiesceInv(s.hooks, false);
    case Launched => H.NextInv(s.hooks, H.OtherPut);
    case GiveUp => H.NextInv(s.hooks, H.OtherPut);
    case _ =>
  }

  lemma WorkerDrains(s: State, a: D.Answer)
    requires Inv(s) && !Blocked(s)
    ensures var t := Next(s, Unload(D.WorkerStep(a)));
            t.unload.worker.quiesced && t.unload.worker.drained ==> Hooks.Drained(t.hooks)
  {
    hide H.Inv, D.Exclusive;
    WorkerHooksOk(s);
    if s.unload.worker.pc.ReadRefcount? && RefCount(s.hooks) <= 1 {
      OneLeavesNoCall(s.hooks);
    }
  }

  lemma WorkerLaunches(s: D.State, a: D.Answer)
    requires D.Inv(s) && (s.launched ==> s.worker.quiesced && s.worker.drained)
    ensures var t := D.Next(s, D.WorkerStep(a)); t.launched ==> t.worker.quiesced && t.worker.drained
  {
    if s.launched {
      LaunchedStays(s, D.WorkerStep(a));
    }
  }

  lemma WorkerInv(s: State, a: D.Answer)
    requires Inv(s) && !Blocked(s)
    ensures Inv(Next(s, Unload(D.WorkerStep(a))))
  {
    hide H.Inv, D.Inv;
    var b := a.(refcount := RefCount(s.hooks));
    D.NextInv(s.unload, D.WorkerStep(b));
    WorkerOwns(s.unload, b);
    WorkerHooksOk(s);
    WorkerDrains(s, a);
    WorkerLaunches(s.unload, b);
  }

  lemma HookInv(s: State, h: H.Event)
    requires Inv(s)
    ensures Inv(Next(s, Hook(h)))
  {
    if !h.QuiesceLock? {
      H.NextInv(s.hooks, h);
      OtherFalls(s.hooks, h);
      if s.unload.worker.quiesced {
        Hooks.ShutStep(s.hooks, h);
        if s.unload.worker.drained { Hooks.DrainedStep(s.hooks, h); }
      }
    }
  }

  lemma OtherFalls(h: H.State, e: H.Event)
    ensures H.Next(h, e).other >= if e.OtherPut? && h.other > 0 then h.other - 1 else h.other
  {
  }

  lemma NextInv(s: State, e: Event)
    requires Inv(s)
    ensures Inv(Next(s, e))
  {
    match e
    case Unload(d) =>
      if !d.WorkerStep? {
        D.NextInv(s.unload, d);
        OthersLeaveWorker(s.unload, d);
      } else if !Blocked(s) {
        WorkerInv(s, d.answer);
      }
    case Hook(h) => HookInv(s, h);
  }

  lemma {:induction false} RunInv(s: State, es: seq<Event>)
    requires Inv(s)
    ensures Inv(Run(s, es))
  {
    if es != [] {
      RunInv(s, es[..|es| - 1]);
      NextInv(Run(s, es[..|es| - 1]), es[|es| - 1]);
    }
  }

  lemma ReachableInv(s: State)
    requires Reachable(s)
    ensures Inv(s)
  {
    var modules, exempt, es :| s == Run(State(D.Init(modules), H.Init(exempt)), es);
    D.InitInv(modules);
    H.InitInv(exempt);
    RunInv(State(D.Init(modules), H.Init(exempt)), es);
  }

  // ------------------------------------------------------------------ what holds in every run

  /** When the worker reads the reference count that lets it go on, no redirected call of any
      kind, exempt or not, holds a reference or is counted. */
  lemma DrainedReadIsEmpty(s: State, a: D.Answer)
    requires Reachable(s) && s.unload.worker.pc.ReadRefcount? && !Next(s, Unload(D.WorkerStep(a))).unload.worker.pc.Escalate?
    ensures s.hooks.refs == 0 && s.hooks.inflight == 0
    ensures forall i | 0 <= i < |s.hooks.calls| :: H.RefWeight(s.hooks.calls[i]) == 0
  {
    ReachableInv(s);
    OneLeavesNoCall(s.hooks);
    SumMembers(s.hooks.calls, H.RefWeight);
  }

  /** From there until the worker gives up, however long the graceful unload of the submodules
      takes and whatever exempt hooks do meanwhile, no ordinary replacement runs; so none runs
      when rmmod is started, nor at any later time. */
  lemma LaunchIsSilent(s: State)
    requires Reachable(s)
    requires s.unload.launched || s.unload.worker.pc.LaunchRmmod?
             || (s.unload.worker.pc.UnloadAll? && s.unload.worker.pc.why.AfterDrain?)
    ensures Hooks.Shut(s.hooks) && Hooks.NoOrdinaryBody(s.hooks)
  {
    ReachableInv(s);
    Hooks.DrainedIsSilent(s.hooks);
  }

  // ------------------------------------------------------------------ the gate

  /** Between its two quiesce calls. */
  predicate Quieting(pc: D.Pc) {
    !pc.Asleep? && !pc.ReadFlags? && !pc.QuiesceOn? && !pc.GiveUp?
  }

  /** The gate is shut while the worker is between its calls, and for good after a launch. */
  predicate GateFollows(s: State) {
    !s.hooks.lock.ByWriter? && (s.hooks.quiescing <==> Quieting(s.unload.worker.pc) || s.unload.launched)
  }

  lemma HookGate(h: H.State, e: H.Event)
    requires !h.lock.ByWriter? && !e.QuiesceLock?
    ensures !H.Next(h, e).lock.ByWriter? && H.Next(h, e).quiescing == h.quiescing
  {
  }

  lemma WorkerGate(s: State)
    requires !Blocked(s) && !s.hooks.lock.ByWriter?
    ensures !WorkerHooks(s).lock.ByWriter?
    ensures WorkerHooks(s).quiescing == if s.unload.worker.pc.QuiesceOn? then true
                                        else if s.unload.worker.pc.QuiesceOff? then false else s.hooks.quiescing
  {
  }

  lemma QuietingMoves(s: D.State, a: D.Answer)
    requires D.Inv(s)
    ensures var t := D.Next(s, D.WorkerStep(a));
            Quieting(t.worker.pc) || t.launched <==>
              s.worker.pc.QuiesceOn? || (!s.worker.pc.QuiesceOff? && (Quieting(s.worker.pc) || s.launched))
  {
    if s.launched { D.LaunchedAlone(s); }
  }

  lemma GateNext(s: State, e: Event)
    requires Inv(s) && GateFollows(s)
    ensures GateFollows(Next(s, e))
  {
    hide Inv, D.Inv, H.Inv, Blocked, D.Next, H.Next, WorkerHooks;
    match e
    case Unload(d) =>
      InvParts(s);
      if !d.WorkerStep? {
        OthersLeaveWorker(s.unload, d);
        if !s.unload.worker.pc.Asleep? { D.WorkerIsAlone(s.unload, d); }
      } else if !Blocked(s) {
        WorkerGate(s);
        QuietingMoves(s.unload, d.answer.(refcount := RefCount(s.hooks)));
      }
    case Hook(h) => if !h.QuiesceLock? { HookGate(s.hooks, h); }
  }

  lemma InvParts(s: State)
    requires Inv(s)
    ensures D.Inv(s.unload) && H.Inv(s.hooks)
  {
  }

  lemma {:induction false} GateRun(s: State, es: seq<Event>)
    requires Inv(s) && GateFollows(s)
    ensures GateFollows(Run(s, es))
  {
    if es != [] {
      GateRun(s, es[..|es| - 1]);
      RunInv(s, es[..|es| - 1]);
      GateNext(Run(s, es[..|es| - 1]), es[|es| - 1]);
    }
  }

  /** A worker that gives up gives the gate back.  In every reachable state ordinary calls are
      turned away exactly from the worker's first quiesce call to its second, or for good once it
      has started rmmod. */
  lemma GateIsGivenBack(s: State)
    requires Reachable(s)
    ensures s.hooks.quiescing <==> Quieting(s.unload.worker.pc) || s.unload.launched
  {
    var modules, exempt, es :| s == Run(State(D.Init(modules), H.Init(exempt)), es);
    D.InitInv(modules);
    H.InitInv(exempt);
    GateRun(State(D.Init(modules), H.Init(exempt)), es);
  }
}
