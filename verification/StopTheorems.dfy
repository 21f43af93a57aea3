/** What the controlled stop guarantees, in every interleaving with redirected calls, returns,
    missed returns, pinning, evictions, module references and pid-namespace questions. */
module StopTheorems {
  import opened Tally
  import opened ControlledStop
  import opened StopProof
  import H = HookEngine
  import HT = HookTheorems
  import P = PinTable
  import PT = PinTheorems
  import O = PidnsOps

  // ------------------------------------------------------------------ safety

  lemma ZeroUnpinned(p: P.State)
    requires P.Inv(p) && p.count == 0
    requires forall i | 0 <= i < |p.threads| :: !p.threads[i].Hashed? && !p.threads[i].Made?
    ensures PT.Unpinned(p)
  {
    PT.ShutCount(p);
    forall x | x in p.inodes ensures p.inodes[x] == P.Evicted {
      assert p.inodes[x] != P.Evicted ==> P.Covered(p, x);
      assert !P.BeingPinned(p, x);
    }
  }

  /** Nothing is counted in a pin table and nothing is pinned in it. */
  predicate Empty(p: P.State) {
    p.count == 0 && PT.Unpinned(p)
  }

  /** The state once the detach has been decided. */
  predicate Safe(s: State) {
    HT.NoOrdinaryBody(s.eng) && Empty(s.nsfs) && Empty(s.proc)
  }

  lemma PassedIsSafe(s: State)
    requires Inv(s) && Stage(s.pc) >= 17
    ensures Safe(s)
  {
    NoLookup(s);
    ZeroUnpinned(s.proc);
    ZeroUnpinned(s.nsfs);
    forall i | 0 <= i < |s.eng.calls| ensures !H.OrdinaryBody(s.eng.calls[i]) {
      assert H.OrdinaryWeight(s.eng.calls[i]) == 1 ==> s.eng.calls[i].phase.GlobalDropped?;
    }
  }

  /** Once the checks are passed, and at every later step to the end of the stop, no ordinary
      call is inside a replacement, both pin counts are zero, both tables are empty and every
      inode this module ever handed out has been evicted. */
  lemma StopIsSafe(s: State)
    requires Reachable(s) && Stage(s.pc) >= 17
    ensures Safe(s)
  {
    ReachableInv(s);
    PassedIsSafe(s);
  }

  /** No hook redirects or claims to, and nothing is counted in flight. */
  predicate Quiet(e: H.State) {
    Silent(e) && e.inflight == 0 && forall h | 0 <= h < |e.hooks| :: !e.hooks[h].armed && !e.hooks[h].installed
  }

  lemma SilentIsQuiet(e: H.State)
    requires H.Inv(e) && Silent(e) && e.control.Idle?
    ensures Quiet(e)
  {
    SumZero(e.calls, H.GlobalWeight);
    forall h | 0 <= h < |e.hooks| ensures !e.hooks[h].armed && !e.hooks[h].installed {
      assert H.HookOk(e, h);
    }
  }

  /** After the final drain no hook is armed or installed and no call of any kind, exempt or
      not, is entering, running or returning from a replacement. */
  lemma StoppedIsSilent(s: State)
    requires Reachable(s) && Stage(s.pc) >= 24
    ensures Quiet(s.eng)
  {
    ReachableInv(s);
    SilentIsQuiet(s.eng);
  }

  // ------------------------------------------------------------------ refusal

  lemma EngineEntry(s: State, v: H.Event)
    ensures Next(s, Engine(v)).entry == s.entry
  {
    FollowShape(s, v, H.Next(s.eng, v));
  }

  lemma PinEntry(s: State, v: P.Event)
    ensures Next(s, Nsfs(v)).entry == s.entry && Next(s, Proc(v)).entry == s.entry
  {
  }

  lemma StopEntry(s: State, a: Answer)
    ensures Next(s, Stop(a)).entry == s.entry
  {
    assert Next(s, Stop(a)) == StopStep(s, a);
  }

  lemma EntryKept(s: State, e: Event)
    requires !e.Begin?
    ensures Next(s, e).entry == s.entry
  {
    match e
    case Engine(v) => EngineEntry(s, v);
    case Nsfs(v) => PinEntry(s, v);
    case Proc(v) => PinEntry(s, v);
    case Stop(a) => StopEntry(s, a);
    case _ =>
  }

  lemma {:induction false} EntryStays(s: State, es: seq<Event>)
    requires Begin !in es
    ensures Run(s, es).entry == s.entry
  {
    if es != [] {
      EntryStays(s, es[..|es| - 1]);
      EntryKept(Run(s, es[..|es| - 1]), es[|es| - 1]);
    }
  }

  lemma EntrySince(s: State, t: State)
    requires Since(s, t)
    ensures t.entry == Entry(s.eng.quiescing, s.mountArmed, s.eng.hooks)
  {
    var es :| Begin !in es && t == Run(Begun(s), es);
    EntryStays(Begun(s), es);
  }

  /** New namespaces may be created and everything is loaded. */
  predicate Open(t: State) {
    !t.proxyStopping && !t.userStopping && !t.nsfs.stopping && t.enabled && t.overlayUp && t.ipcUp
  }

  lemma RefusedIsOpen(t: State)
    requires Inv(t) && t.pc.Refused?
    ensures Open(t)
  {
  }

  /** A refused stop is a no-op on gates.  Whatever happened meanwhile, and at whichever of the
      eight points it was refused, when the caller gets the error the creation gates are open
      and everything is still loaded ... */
  lemma RefusalReopens(s: State, t: State)
    requires Reachable(s) && CanBegin(s) && Since(s, t) && t.pc.Refused?
    ensures Open(t)
  {
    ReachableInv(s);
    SinceInv(s, t);
    RefusedIsOpen(t);
  }

  lemma RefusedIsRestored(t: State)
    requires Inv(t) && t.pc.Refused?
    ensures t.eng.quiescing == t.entry.quiescing && H.SameFlags(t.eng.hooks, t.entry.hooks)
    ensures t.mountArmed <==> t.cancelled || t.entry.mountArmed
  {
  }

  /** ... the quiesce flag and every hook are as they were when the stop began, and so is the
      mount work, unless the stop cancelled it: then it is armed, even if it was not before. */
  lemma RefusalRestores(s: State, t: State)
    requires Reachable(s) && CanBegin(s) && Since(s, t) && t.pc.Refused?
    ensures t.eng.quiescing == s.eng.quiescing && H.SameFlags(t.eng.hooks, s.eng.hooks)
    ensures t.mountArmed <==> t.cancelled || s.mountArmed
  {
    ReachableInv(s);
    SinceInv(s, t);
    EntrySince(s, t);
    RefusedIsRestored(t);
  }

  lemma StoppedIsDisabled(t: State)
    requires Inv(t) && t.pc.Stopped?
    ensures t.eng.quiescing == t.entry.quiescing && !t.enabled
  {
  }

  /** A completed stop leaves the quiesce flag as it found it, too. */
  lemma CompletionRestoresQuiesce(s: State, t: State)
    requires Reachable(s) && CanBegin(s) && Since(s, t) && t.pc.Stopped?
    ensures t.eng.quiescing == s.eng.quiescing && !t.enabled
  {
    ReachableInv(s);
    SinceInv(s, t);
    EntrySince(s, t);
    StoppedIsDisabled(t);
  }

  /** The two bounded poll loops together sleep at most 3000 times. */
  lemma BoundedWait(s: State)
    requires Reachable(s) && !s.pc.Ready?
    ensures s.waited / 10 <= 3000 && (Sleeps(s) ==> s.waited / 10 < 3000)
  {
    ReachableInv(s);
  }

  // ------------------------------------------------------------------ attached operations

  lemma EngineTarget(s: State, v: H.Event)
    ensures Next(s, Engine(v)).ops.target == s.ops.target
  {
    var t := H.Next(s.eng, v);
    assert Follow(s, v, t).ops == s.ops.(threads := Follow(s, v, t).ops.threads);
  }

  lemma PidnsTarget(o: O.State, v: O.Event)
    requires O.TargetOk(o) && o.target.Some? && !v.Detach?
    ensures O.Next(o, v).target == o.target
  {
  }

  lemma TargetMoves(s: State, e: Event)
    requires Inv(s) && s.ops.target.Some? && Next(s, e).ops.target != s.ops.target
    ensures s.pc.DetachLocked? && Next(s, e).ops.target.None?
  {
    match e
    case Engine(v) => EngineTarget(s, v);
    case Pidns(v) => if PidnsAllowed(s, v) { PidnsTarget(s.ops, v); }
    case Stop(a) => SharedEvent(s);
    case _ =>
  }

  /** The operations attached to an initial pid namespace go away in one step only, and then
      nothing that could use them is left: no lookup was told that they are attached, no
      ordinary call runs, and no procfs or NSFS inode of this module is alive. */
  lemma DetachIsSafe(s: State, e: Event)
    requires Reachable(s) && s.ops.target.Some? && Next(s, e).ops.target != s.ops.target
    ensures s.pc.DetachLocked? && Safe(s) && Next(s, e).ops.target.None?
    ensures forall i | 0 <= i < |s.ops.threads| :: s.ops.threads[i].Idle?
  {
    ReachableInv(s);
    TargetMoves(s, e);
    PassedIsSafe(s);
    NoLookup(s);
  }

  // ------------------------------------------------------------------ references and leaks

  lemma UnreferencedIsEvicted(p: P.State)
    requires P.Inv(p) && p.refs == 0
    ensures PT.AllEvicted(p)
  {
    forall x | x in p.inodes ensures p.inodes[x] == P.Evicted {
      if p.inodes[x] != P.Evicted {
        PT.CoveredIsReferenced(p, x);
      }
    }
  }

  /** The module cannot be deleted under a pin: when it is gone, no inode of either table is
      alive and no redirected call holds a reference. */
  lemma DeletedIsUnpinned(s: State)
    requires Reachable(s) && !s.eng.live
    ensures s.eng.refs == 0 && s.nsfs.refs == 0 && s.proc.refs == 0
    ensures PT.AllEvicted(s.nsfs) && PT.AllEvicted(s.proc)
  {
    ReachableInv(s);
    RefsNonNegative(s.nsfs);
    RefsNonNegative(s.proc);
    UnreferencedIsEvicted(s.nsfs);
    UnreferencedIsEvicted(s.proc);
  }

  predicate HasLeak(e: H.State, i: nat) {
    i < |e.calls| && e.calls[i].phase.Leaked?
  }

  lemma EngineLeak(s: State, v: H.Event, i: nat)
    requires Inv(s) && HasLeak(s.eng, i)
    ensures HasLeak(Next(s, Engine(v)).eng, i)
  {
    HT.LeakStep(s.eng, v, i);
    assert Follow(s, v, H.Next(s.eng, v)).eng == H.Next(s.eng, v);
  }

  lemma AccountCalls(e: H.State, before: int, after: int)
    ensures Account(e, before, after).calls == e.calls
  {
  }

  lemma PinLeak(s: State, v: P.Event)
    ensures Next(s, Nsfs(v)).eng.calls == s.eng.calls && Next(s, Proc(v)).eng.calls == s.eng.calls
  {
    AccountCalls(s.eng, s.nsfs.refs, P.Next(s.nsfs, v).refs);
    AccountCalls(s.eng, s.proc.refs, P.Next(s.proc, v).refs);
  }

  lemma StopLeak(s: State, a: Answer)
    requires Inv(s)
    ensures Next(s, Stop(a)).eng.calls == s.eng.calls
  {
    hide H.Inv, P.Inv;
    StopEngineSystem(s);
    assert Next(s, Stop(a)).eng == ApplyEngine(s.eng, StopShared(s));
  }

  lemma LocalLeak(s: State, e: Event)
    requires e.Pidns? || e.Load? || e.Begin? || e.Return?
    ensures Next(s, e).eng == s.eng
  {
  }

  lemma LeakKept(s: State, e: Event, i: nat)
    requires Inv(s) && HasLeak(s.eng, i)
    ensures HasLeak(Next(s, e).eng, i)
  {
    match e
    case Engine(v) => EngineLeak(s, v, i);
    case Nsfs(v) => PinLeak(s, v);
    case Proc(v) => PinLeak(s, v);
    case Stop(a) => StopLeak(s, a);
    case _ => LocalLeak(s, e);
  }

  lemma LeakStage(s: State, i: nat)
    requires Inv(s) && HasLeak(s.eng, i)
    ensures Stage(s.pc) < 24
  {
    assert H.GlobalWeight(s.eng.calls[i]) == 1;
  }

  lemma {:induction false} LeakForever(s: State, es: seq<Event>, i: nat)
    requires Inv(s) && HasLeak(s.eng, i)
    ensures Inv(Run(s, es)) && HasLeak(Run(s, es).eng, i)
  {
    if es != [] {
      LeakForever(s, es[..|es| - 1], i);
      NextInv(Run(s, es[..|es| - 1]), es[|es| - 1]);
      LeakKept(Run(s, es[..|es| - 1]), es[|es| - 1], i);
    }
  }

  /** After one missed return no stop ever finishes: it is refused, or it waits for ever in
      the last poll loop, which has no bound. */
  lemma LeakPreventsStop(s: State, es: seq<Event>, i: nat)
    requires Reachable(s) && HasLeak(s.eng, i)
    ensures Stage(Run(s, es).pc) < 24
  {
    ReachableInv(s);
    LeakForever(s, es, i);
    LeakStage(Run(s, es), i);
  }

  /** A fail-safe pin is never given back. */
  lemma PermanentStep(p: P.State, v: P.Event)
    ensures P.Next(p, v).permanent >= p.permanent
  {
  }

  lemma StopPermanent(s: State, a: Answer)
    ensures StopStep(s, a).nsfs.permanent >= s.nsfs.permanent && StopStep(s, a).proc == s.proc
  {
    hide P.Next, H.Next, StopPc, StopShared;
    if StopShared(s).OnNsfs? { PermanentStep(s.nsfs, StopShared(s).pin); }
  }

  lemma EnginePermanent(s: State, v: H.Event)
    ensures Next(s, Engine(v)).nsfs.permanent == s.nsfs.permanent && Next(s, Engine(v)).proc.permanent == s.proc.permanent
  {
    hide H.Next, EngineAllowed;
    FollowShape(s, v, H.Next(s.eng, v));
    hide Follow;
  }

  lemma NsfsPermanent(s: State, v: P.Event)
    ensures Next(s, Nsfs(v)).nsfs.permanent >= s.nsfs.permanent && Next(s, Nsfs(v)).proc == s.proc
  {
    hide P.Next, NsfsAllowed, Account;
    PermanentStep(s.nsfs, v);
  }

  lemma ProcPermanent(s: State, v: P.Event)
    ensures Next(s, Proc(v)).proc.permanent >= s.proc.permanent && Next(s, Proc(v)).nsfs == s.nsfs
  {
    hide P.Next, ProcAllowed, Account;
    PermanentStep(s.proc, v);
  }

  lemma PermanentKept(s: State, e: Event)
    ensures Next(s, e).nsfs.permanent >= s.nsfs.permanent && Next(s, e).proc.permanent >= s.proc.permanent
  {
    hide P.Next, H.Next, O.Next, StopStep, Follow, Account, EngineAllowed, NsfsAllowed, ProcAllowed, PidnsAllowed;
    match e
    case Engine(v) => EnginePermanent(s, v);
    case Nsfs(v) => NsfsPermanent(s, v);
    case Proc(v) => ProcPermanent(s, v);
    case Stop(a) => StopPermanent(s, a); assert Next(s, e) == StopStep(s, a);
    case _ =>
  }

  lemma {:induction false} PermanentForever(s: State, es: seq<Event>)
    ensures Run(s, es).nsfs.permanent >= s.nsfs.permanent && Run(s, es).proc.permanent >= s.proc.permanent
  {
    if es != [] {
      PermanentForever(s, es[..|es| - 1]);
      PermanentKept(Run(s, es[..|es| - 1]), es[|es| - 1]);
    }
  }

  /** After one fail-safe pin, in either table, every stop is refused before it detaches anything. */
  lemma PermanentPreventsStop(s: State, es: seq<Event>)
    requires Reachable(s) && (s.nsfs.permanent > 0 || s.proc.permanent > 0)
    ensures Stage(Run(s, es).pc) < 17
  {
    ReachableInv(s);
    RunInv(s, es);
    PermanentForever(s, es);
    if Stage(Run(s, es).pc) >= 17 {
      PassedIsSafe(Run(s, es));
    }
  }

  // ------------------------------------------------------------------ the rest of the system is free

  /** Call `i` is in the body of a replacement of role `r`. */
  predicate Plays(s: State, i: nat, r: Role) {
    && i < |s.eng.calls| && s.eng.calls[i].phase.Body? && s.eng.calls[i].hook < |s.roles|
    && s.roles[s.eng.calls[i].hook] == r
  }

  lemma PinsAct(s: State, v: P.Event)
    ensures NsfsAllowed(s, v) ==> Next(s, Nsfs(v)).nsfs == P.Next(s.nsfs, v)
    ensures ProcAllowed(s, v) ==> Next(s, Proc(v)).proc == P.Next(s.proc, v)
  {
    hide P.Next, Account, NsfsAllowed, ProcAllowed;
  }

  /** Neither a running stop nor the engine holds back what a replacement does inside its body: it
      pins and evicts as the pin tables do on their own, at every stage of a stop. */
  lemma BodiesPin(s: State, i: nat, x: nat, a: P.Answer)
    ensures Plays(s, i, NsfsPath) ==> Next(s, Nsfs(P.StartPin(i))).nsfs == P.Next(s.nsfs, P.StartPin(i))
    ensures Plays(s, i, NsfsEvict) ==> Next(s, Nsfs(P.StartEvict(i, x))).nsfs == P.Next(s.nsfs, P.StartEvict(i, x))
    ensures Plays(s, i, ProcLookup) ==> Next(s, Proc(P.StartPin(i))).proc == P.Next(s.proc, P.StartPin(i))
    ensures Plays(s, i, ProcEvict) ==> Next(s, Proc(P.StartEvict(i, x))).proc == P.Next(s.proc, P.StartEvict(i, x))
    ensures a.moduleLive == s.eng.live ==> Next(s, Nsfs(P.Step(i, a))).nsfs == P.Next(s.nsfs, P.Step(i, a))
  {
    hide Next, P.Next;
    PinsAct(s, P.StartPin(i));
    PinsAct(s, P.StartEvict(i, x));
    PinsAct(s, P.Step(i, a));
  }

  /** The steps of a lookup wait for the answer to its question, and it can always ask one. */
  lemma LookupsAsk(s: State, i: nat, n: nat, a: P.Answer)
    requires Plays(s, i, ProcLookup) && i < |s.proc.threads| && i < |s.ops.threads|
    ensures s.proc.threads[i].Tentative? ==>
              && Next(s, Pidns(O.Ask(i, n))).ops == O.Next(s.ops, O.Ask(i, n))
              && Next(s, Pidns(O.Step(i))).ops == O.Next(s.ops, O.Step(i))
    ensures a.moduleLive == s.eng.live
            && (!s.proc.threads[i].Tentative? || s.ops.threads[i].Idle? || s.ops.threads[i].Granted?) ==>
              Next(s, Proc(P.Step(i, a))).proc == P.Next(s.proc, P.Step(i, a))
  {
    hide P.Next, O.Next, Account;
  }

  /** Calls begin, go on and return whenever the engine lets them, but for a body whose work is not
      done; and anybody may take a reference. */
  lemma CallsGoOn(s: State, h: nat, fromModule: bool, i: nat, instance: bool)
    ensures Next(s, Engine(H.Fire(h, fromModule))).eng == H.Next(s.eng, H.Fire(h, fromModule))
    ensures Next(s, Engine(H.OtherGet)).eng == H.Next(s.eng, H.OtherGet)
    ensures (i < |s.nsfs.threads| && i < |s.proc.threads| && s.nsfs.threads[i].Rest? && s.proc.threads[i].Rest?)
            || (i < |s.eng.calls| && !s.eng.calls[i].phase.Body?) ==>
              Next(s, Engine(H.Advance(i, instance))).eng == H.Next(s.eng, H.Advance(i, instance))
  {
    hide H.Next;
  }
}
