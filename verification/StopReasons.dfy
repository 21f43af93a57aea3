/** Why the controlled stop goes on and why it is refused: what it is told at its tests, in every
    interleaving with the rest of the system. */
module StopReasons {
  import opened ControlledStop
  import opened StopProof
  import H = HookEngine
  import HT = HookTheorems
  import P = PinTable
  import O = PidnsOps

  // ------------------------------------------------------------------ one step

  lemma EnginePc(s: State, v: H.Event)
    ensures Next(s, Engine(v)).pc == s.pc && Next(s, Engine(v)).waited == s.waited
  {
    hide EngineAllowed, H.Next;
    FollowShape(s, v, H.Next(s.eng, v));
    hide Follow;
  }

  lemma SharedPc(s: State, e: Event)
    requires e.Nsfs? || e.Proc? || e.Pidns?
    ensures Next(s, e).pc == s.pc && Next(s, e).waited == s.waited
  {
    hide NsfsAllowed, ProcAllowed, PidnsAllowed, Account, P.Next, O.Next;
  }

  lemma CallerPc(s: State, e: Event)
    requires e.Load? || e.Return?
    ensures Next(s, e).pc == if e.Return? && (s.pc.Stopped? || s.pc.Refused?) then Ready else s.pc
    ensures Next(s, e).waited == s.waited
  {
  }

  lemma Forward(pc: Pc)
    ensures Stage(pc) >= 1 <==> !Undoing(pc) && !pc.Ready?
  {
  }

  /** How other events move the program counter. */
  lemma OtherPc(s: State, e: Event)
    requires !e.Stop? && !e.Begin?
    ensures Next(s, e).pc == s.pc || ((s.pc.Stopped? || s.pc.Refused?) && Next(s, e).pc.Ready?)
    ensures Next(s, e).waited == s.waited
  {
    hide Next;
    match e
    case Engine(v) => EnginePc(s, v);
    case Nsfs(_) => SharedPc(s, e);
    case Proc(_) => SharedPc(s, e);
    case Pidns(_) => SharedPc(s, e);
    case _ => CallerPc(s, e);
  }

  lemma StopsPc(s: State, a: Answer)
    ensures Next(s, Stop(a)).pc == StopPc(s, a)
    ensures Next(s, Stop(a)).waited == if Sleeps(s) then s.waited + 10 else s.waited
  {
    assert Next(s, Stop(a)) == StopStep(s, a);
    hide StopPc, StopShared;
  }

  /** Without Begin a stop that backs out or has ended does not go forward again. */
  lemma NeverForward(s: State, e: Event)
    requires Stage(s.pc) == 0 && !e.Begin?
    ensures Stage(Next(s, e).pc) == 0 && (s.pc.Ready? ==> Next(s, e).pc.Ready?)
  {
    hide Next;
    match e
    case Stop(a) => StopsPc(s, a);
    case _ => OtherPc(s, e);
  }

  // ------------------------------------------------------------------ the reasons

  /** What can keep a stop from going on. */
  datatype Reason = LiveProxies | Unprepared | InFlight | ProcPinned | NsfsPinned

  /** In `s` the stop is told reason `r`, by answer `a` or by what it reads. */
  predicate Gives(s: State, a: Answer, r: Reason) {
    match r
    case LiveProxies => (s.pc.CheckProxies? || s.pc.CheckBefore?) && a.liveProxies > 0
    case Unprepared => (s.pc.CheckBefore? || s.pc.CheckIpc? || s.pc.CheckMqueue?) && a.error
    case InFlight => (s.pc.CheckBefore? || s.pc.CheckDrained? || s.pc == DetachReads(1)) && s.eng.inflight > 0
    case ProcPinned => s.pc.CheckProc? && s.proc.count != 0
    case NsfsPinned => s.pc.CheckNsfs? && s.nsfs.mutex.Nobody? && s.nsfs.count != 0
  }

  /** Event `k` of the run tells the stop reason `r`. */
  predicate Told(s: State, es: seq<Event>, k: nat, r: Reason) {
    k < |es| && es[k].Stop? && Gives(Run(s, es[..k]), es[k].answer, r)
  }

  /** What the other tests of the code always find. */
  predicate Sound(s: State) {
    && (s.pc.CheckNsfs? ==> s.nsfs.stopping)
    && (s.pc.DetachReads? ==> s.eng.quiescing && s.eng.inflight >= 0 && s.proc.count == 0 && s.nsfs.count == 0)
    && O.CanDetach(s.ops)
  }

  lemma IsSound(s: State)
    requires Inv(s)
    ensures Sound(s)
  {
    hide EntryFacts, Linked, Configured;
    InflightNonNegative(s.eng);
    assert O.TargetOk(s.ops);
  }

  /** One step of the stop backs out exactly if it is told a reason. */
  lemma StepReason(s: State, a: Answer)
    requires Sound(s) && Stage(s.pc) >= 1
    ensures Undoing(StopPc(s, a)) <==> exists r :: Gives(s, a, r)
  {
    GivesOne(s, a);
    if s.pc.DetachReads? { DetachReason(s, a); } else { TestReason(s, a); }
  }

  predicate GivesSome(s: State, a: Answer) {
    || Gives(s, a, LiveProxies) || Gives(s, a, Unprepared) || Gives(s, a, InFlight)
    || Gives(s, a, ProcPinned) || Gives(s, a, NsfsPinned)
  }

  lemma DetachReason(s: State, a: Answer)
    requires Sound(s) && s.pc.DetachReads?
    ensures Undoing(StopPc(s, a)) <==> GivesSome(s, a)
  {
  }

  lemma TestReason(s: State, a: Answer)
    requires Sound(s) && Stage(s.pc) >= 1 && !s.pc.DetachReads?
    ensures Undoing(StopPc(s, a)) <==> GivesSome(s, a)
  {
  }

  lemma GivesOne(s: State, a: Answer)
    ensures (exists r :: Gives(s, a, r)) <==> GivesSome(s, a)
  {
    hide Gives;
    if r :| Gives(s, a, r) {
      match r case LiveProxies => case Unprepared => case InFlight => case ProcPinned => case NsfsPinned =>
    }
  }

  lemma UndoingGoesOn(s: State, a: Answer)
    requires Undoing(s.pc)
    ensures Undoing(StopPc(s, a))
  {
  }

  // ------------------------------------------------------------------ refused exactly for a reason

  lemma ToldBefore(s: State, es: seq<Event>, n: nat, k: nat, r: Reason)
    requires k < n <= |es|
    ensures Told(s, es, k, r) <==> Told(s, es[..n], k, r)
  {
    assert es[..n][..k] == es[..k];
  }

  /** Whether the stop backs out and whether a reason was told go together in one more step. */
  lemma ReasonsNext(s: State, e: Event)
    requires Inv(s) && !e.Begin? && !s.pc.Ready? && !Next(s, e).pc.Ready?
    ensures Undoing(Next(s, e).pc) <==> Undoing(s.pc) || (e.Stop? && exists r :: Gives(s, e.answer, r))
  {
    hide Next;
    match e
    case Stop(a) =>
      StopsPc(s, a);
      hide Inv, Gives;
      if Undoing(s.pc) { UndoingGoesOn(s, a); } else { StepReasonHere(s, a); }
    case _ => OtherPc(s, e);
  }

  lemma StepReasonHere(s: State, a: Answer)
    requires Inv(s) && !s.pc.Ready? && !Undoing(s.pc)
    ensures Undoing(StopPc(s, a)) <==> exists r :: Gives(s, a, r)
  {
    hide Inv, Gives, StopPc, Sound;
    IsSound(s);
    StepReason(s, a);
  }

  lemma {:induction false} ReasonsRun(s: State, es: seq<Event>)
    requires Inv(s) && Stage(s.pc) >= 1 && Begin !in es && !Run(s, es).pc.Ready?
    ensures Undoing(Run(s, es).pc) <==> exists k: nat, r :: Told(s, es, k, r)
  {
    hide Inv, Gives, Next, Undoing, Stage;
    if es == [] {
      Forward(s.pc);
    } else {
      var n := |es| - 1;
      var t, e := Run(s, es[..n]), es[n];
      Forward(t.pc);
      if t.pc.Ready? { NeverForward(t, e); }
      RunInv(s, es[..n]);
      ReasonsRun(s, es[..n]);
      ReasonsNext(t, e);
      if Undoing(t.pc) {
        var k: nat, r :| Told(s, es[..n], k, r);
        ToldBefore(s, es, n, k, r);
      } else if e.Stop? {
        if r :| Gives(t, e.answer, r) { assert Told(s, es, n, r); }
      }
      if k: nat, r :| Told(s, es, k, r) {
        if k < n { ToldBefore(s, es, n, k, r); }
      }
    }
  }

  /** Until its result is seen, a stop backs out or is refused if and only if it was told a reason
      at one of its tests: a live nsproxy, an error of a part that is not ready, calls in flight,
      or a pinned inode.  No later step forgets one, and the other tests of the code never refuse. */
  lemma RefusedForAReason(s: State, es: seq<Event>)
    requires Reachable(s) && CanBegin(s) && Begin !in es && !Run(Begun(s), es).pc.Ready?
    ensures Undoing(Run(Begun(s), es).pc) <==> exists k: nat, r :: Told(Begun(s), es, k, r)
  {
    hide Inv, Reachable, Run, Next, Told;
    ReachableInv(s);
    BeginInv(s);
    assert Stage(Begun(s).pc) == 1;
    ReasonsRun(Begun(s), es);
  }

  // ------------------------------------------------------------------ no stage is skipped

  /** Event `k` of the run is an operation of the stop at program counter `pc`. */
  predicate Takes(s: State, es: seq<Event>, k: nat, pc: Pc) {
    k < |es| && es[k].Stop? && Run(s, es[..k]).pc == pc
  }

  /** Event `k` of the run takes the stop from stage `n` to a later one. */
  predicate Completes(s: State, es: seq<Event>, k: nat, n: nat) {
    k < |es| && es[k].Stop? && Stage(Run(s, es[..k]).pc) == n < Stage(Run(s, es[..k + 1]).pc)
  }

  lemma CompletesBefore(s: State, es: seq<Event>, n: nat, k: nat, stage: nat)
    requires k < n <= |es| && Completes(s, es[..n], k, stage)
    ensures Completes(s, es, k, stage)
  {
    assert es[..n][..k] == es[..k] && es[..n][..k + 1] == es[..k + 1];
  }

  /** Only the last stage of all, opening the gate again, may be left out. */
  lemma OneStage(s: State, a: Answer)
    requires Stage(s.pc) >= 14 ==> s.nsfs.count == 0
    ensures Stage(StopPc(s, a)) <= Stage(s.pc) + 1 || Stage(s.pc) == 24
  {
  }

  lemma NoPinLeft(s: State)
    requires Inv(s)
    ensures Stage(s.pc) >= 14 ==> s.nsfs.count == 0
  {
    hide System, EntryFacts;
  }

  lemma StageNext(s: State, e: Event)
    requires Inv(s) && !e.Begin? && Stage(Next(s, e).pc) > Stage(s.pc)
    ensures e.Stop? && Stage(s.pc) >= 1 && (Stage(Next(s, e).pc) == Stage(s.pc) + 1 || Stage(s.pc) == 24)
  {
    hide Next, Inv, StopPc;
    if Stage(s.pc) == 0 { NeverForward(s, e); }
    match e
    case Stop(a) => StopsPc(s, a); NoPinLeft(s); OneStage(s, a);
    case _ => OtherPc(s, e);
  }

  lemma {:induction false} StagesRun(s: State, es: seq<Event>, n: nat)
    requires Inv(s) && Stage(s.pc) == 1 && Begin !in es && 1 <= n <= 24 && Stage(Run(s, es).pc) > n
    ensures exists k: nat :: Completes(s, es, k, n)
  {
    hide Inv, Next, Stage;
    if es != [] {
      var m := |es| - 1;
      var t, e := Run(s, es[..m]), es[m];
      RunInv(s, es[..m]);
      if Stage(t.pc) > n {
        StagesRun(s, es[..m], n);
        var k: nat :| Completes(s, es[..m], k, n);
        CompletesBefore(s, es, m, k, n);
      } else {
        StageNext(t, e);
        assert es[..m + 1] == es;
        assert Completes(s, es, m, n);
      }
    }
  }

  /** A stop that has got past a stage has performed it. */
  lemma NoStageSkipped(s: State, es: seq<Event>, n: nat)
    requires Reachable(s) && CanBegin(s) && Begin !in es && 1 <= n <= 24 && Stage(Run(Begun(s), es).pc) > n
    ensures exists k: nat :: Completes(Begun(s), es, k, n)
  {
    hide Inv, Reachable, Run, Next, Completes;
    ReachableInv(s);
    BeginInv(s);
    StagesRun(Begun(s), es, n);
  }

  /** The tests that are a stage of their own. */
  predicate IsTest(pc: Pc) {
    || pc.CheckProxies? || pc.CheckBefore? || pc.CheckDrained? || pc.CheckProc? || pc.CheckNsfs?
    || pc.CheckIpc? || pc.CheckMqueue? || pc.DetachLocked?
  }

  lemma OnlyTest(test: Pc, pc: Pc)
    requires IsTest(test) && Stage(pc) == Stage(test)
    ensures pc == test
  {
  }

  /** A test of the stop that is a stage of its own has been made. */
  lemma TestMade(s: State, es: seq<Event>, test: Pc)
    requires Reachable(s) && CanBegin(s) && Begin !in es
    requires IsTest(test) && Stage(Run(Begun(s), es).pc) > Stage(test)
    ensures exists k: nat :: Takes(Begun(s), es, k, test)
  {
    hide Run, Next, Begun, CanBegin, Reachable;
    NoStageSkipped(s, es, Stage(test));
    var k: nat :| Completes(Begun(s), es, k, Stage(test));
    OnlyTest(test, Run(Begun(s), es[..k]).pc);
    assert Takes(Begun(s), es, k, test);
  }

  /** Before anything is detached the stop has asked for live objects and for every part that has
      to be ready, and was told each time that there is nothing left and no error. */
  lemma DetachIsCleared(s: State, es: seq<Event>)
    requires Reachable(s) && CanBegin(s) && Begin !in es && Stage(Run(Begun(s), es).pc) >= 17
    ensures exists k: nat :: Takes(Begun(s), es, k, CheckProxies)
    ensures exists k: nat :: Takes(Begun(s), es, k, CheckBefore)
    ensures exists k: nat :: Takes(Begun(s), es, k, CheckIpc)
    ensures exists k: nat :: Takes(Begun(s), es, k, CheckMqueue)
    ensures forall k: nat :: Takes(Begun(s), es, k, CheckProxies) ==> es[k].answer.liveProxies == 0
    ensures forall k: nat :: Takes(Begun(s), es, k, CheckBefore) ==> es[k].answer == Answer(0, false)
    ensures forall k: nat :: Takes(Begun(s), es, k, CheckIpc) || Takes(Begun(s), es, k, CheckMqueue) ==> !es[k].answer.error
  {
    hide Run, Next, Begun, CanBegin, Reachable, Takes;
    TestMade(s, es, CheckProxies);
    TestMade(s, es, CheckBefore);
    TestMade(s, es, CheckIpc);
    TestMade(s, es, CheckMqueue);
    NothingTold(s, es);
  }

  lemma NothingTold(s: State, es: seq<Event>)
    requires Reachable(s) && CanBegin(s) && Begin !in es && Stage(Run(Begun(s), es).pc) >= 1
    ensures forall k: nat :: Takes(Begun(s), es, k, CheckProxies) ==> es[k].answer.liveProxies == 0
    ensures forall k: nat :: Takes(Begun(s), es, k, CheckBefore) ==> es[k].answer == Answer(0, false)
    ensures forall k: nat :: Takes(Begun(s), es, k, CheckIpc) || Takes(Begun(s), es, k, CheckMqueue) ==> !es[k].answer.error
  {
    hide Run, Next, Begun, CanBegin, Reachable, Takes, Told;
    Forward(Run(Begun(s), es).pc);
    RefusedForAReason(s, es);
    forall k: nat {
      TakenIsTold(Begun(s), es, k);
    }
  }

  lemma TakenIsTold(s: State, es: seq<Event>, k: nat)
    ensures Takes(s, es, k, CheckProxies) && !Told(s, es, k, LiveProxies) ==> es[k].answer.liveProxies == 0
    ensures Takes(s, es, k, CheckBefore) && !Told(s, es, k, LiveProxies) && !Told(s, es, k, Unprepared) ==>
              es[k].answer == Answer(0, false)
    ensures (Takes(s, es, k, CheckIpc) || Takes(s, es, k, CheckMqueue)) && !Told(s, es, k, Unprepared) ==>
              !es[k].answer.error
  {
    hide Run;
  }

  // ------------------------------------------------------------------ the poll loops

  predicate Polls(pc: Pc) {
    pc.DrainBefore? || pc.DrainAfter?
  }

  /** How often the run slept in one of the two bounded poll loops. */
  function Slept(s: State, es: seq<Event>): nat {
    if es == [] then 0
    else
      var n := |es| - 1;
      var t := Run(s, es[..n]);
      Slept(s, es[..n]) + if es[n].Stop? && Polls(t.pc) && Run(s, es).pc == t.pc then 1 else 0
  }

  lemma SleepNext(s: State, e: Event)
    requires !e.Begin?
    ensures Next(s, e).waited == s.waited + if e.Stop? && Polls(s.pc) && Next(s, e).pc == s.pc then 10 else 0
    ensures e.Stop? && Polls(s.pc) && Next(s, e).pc != s.pc ==> s.eng.inflight <= 0 || s.waited >= 30000
  {
    hide Next;
    match e
    case Stop(a) => StopsPc(s, a);
    case _ => OtherPc(s, e);
  }

  lemma {:induction false} SleptIsWaited(s: State, es: seq<Event>)
    requires s.waited == 0 && Begin !in es
    ensures Run(s, es).waited == 10 * Slept(s, es)
  {
    hide Next;
    if es != [] {
      SleptIsWaited(s, es[..|es| - 1]);
      SleepNext(Run(s, es[..|es| - 1]), es[|es| - 1]);
    }
  }

  /** The stop is patient: it leaves a poll loop only when it has seen no call in flight, or after
      exactly 3000 sleeps in the two loops together. */
  lemma PollIsPatient(s: State, es: seq<Event>, e: Event)
    requires Reachable(s) && CanBegin(s) && Begin !in es && e.Stop?
    requires var t := Run(Begun(s), es); Polls(t.pc) && Next(t, e).pc != t.pc
    ensures Run(Begun(s), es).eng.inflight == 0 || Slept(Begun(s), es) == 3000
  {
    ReachableInv(s);
    BeginInv(s);
    RunInv(Begun(s), es);
    SleptIsWaited(Begun(s), es);
    var t := Run(Begun(s), es);
    InflightNonNegative(t.eng);
    SleepNext(t, e);
    assert WaitEntry(t.pc, t.waited);
  }

  // ------------------------------------------------------------------ what each stage has done

  predicate Gates(pc: Pc, proxyStopping: bool, userStopping: bool, mountArmed: bool) {
    && (Stage(pc) >= 2 ==> proxyStopping) && (Stage(pc) >= 3 ==> userStopping) && (Stage(pc) >= 10 ==> !mountArmed)
  }

  predicate Gone(pc: Pc, attached: bool, overlayUp: bool, ipcUp: bool) {
    (Stage(pc) >= 18 ==> !attached) && (Stage(pc) >= 20 ==> !overlayUp) && (Stage(pc) >= 25 ==> !ipcUp)
  }

  /** The gates that are shut and the parts that are gone, stage by stage. */
  predicate Done(s: State) {
    Gates(s.pc, s.proxyStopping, s.userStopping, s.mountArmed) && Gone(s.pc, s.ops.target.Some?, s.overlayUp, s.ipcUp)
  }

  /** Once the ordinary calls are gone nobody can attach operations. */
  lemma NobodyAttaches(s: State, v: O.Event)
    requires Inv(s) && Stage(s.pc) >= 18 && s.ops.target.None? && PidnsAllowed(s, v)
    ensures O.Next(s.ops, v).target.None?
  {
    NoLookup(s);
  }

  lemma EngineOps(s: State, v: H.Event)
    ensures var t := Next(s, Engine(v)); t.ops.target == s.ops.target && t.pc == s.pc && SameGates(s, t)
  {
    hide EngineAllowed, H.Next;
    FollowShape(s, v, H.Next(s.eng, v));
  }

  predicate SameGates(s: State, t: State) {
    && t.proxyStopping == s.proxyStopping && t.userStopping == s.userStopping && t.mountArmed == s.mountArmed
    && t.overlayUp == s.overlayUp && t.ipcUp == s.ipcUp
  }

  lemma DoneStop(s: State, a: Answer)
    requires Inv(s) && Done(s)
    ensures Done(Next(s, Stop(a)))
  {
    assert Next(s, Stop(a)) == StopStep(s, a);
    NoPinLeft(s);
    IsSound(s);
    hide Inv, Sound;
    StopDetaches(s);
    DoneGates(s, a);
    DoneGone(s, a);
  }

  lemma DoneGates(s: State, a: Answer)
    requires Gates(s.pc, s.proxyStopping, s.userStopping, s.mountArmed) && (Stage(s.pc) >= 14 ==> s.nsfs.count == 0)
    ensures var t := StopStep(s, a); Gates(t.pc, t.proxyStopping, t.userStopping, t.mountArmed)
  {
    hide StopShared;
    OneStage(s, a);
    StageKept(s, a);
    hide StopPc;
  }

  /** A stop that backs out does not go forward. */
  lemma StageKept(s: State, a: Answer)
    ensures Stage(s.pc) == 0 ==> Stage(StopPc(s, a)) == 0
  {
  }

  lemma DoneGone(s: State, a: Answer)
    requires Gone(s.pc, s.ops.target.Some?, s.overlayUp, s.ipcUp) && (Stage(s.pc) >= 14 ==> s.nsfs.count == 0)
    requires ApplyPidns(s.ops, StopShared(s)).target.Some? ==> s.ops.target.Some? && !s.pc.DetachLocked?
    ensures var t := StopStep(s, a); Gone(t.pc, t.ops.target.Some?, t.overlayUp, t.ipcUp)
  {
    hide StopShared, ApplyPidns;
    OneStage(s, a);
    StageKept(s, a);
    hide StopPc;
  }

  lemma StopDetaches(s: State)
    requires O.TargetOk(s.ops) && O.CanDetach(s.ops)
    ensures ApplyPidns(s.ops, StopShared(s)).target.Some? ==> s.ops.target.Some? && !s.pc.DetachLocked?
  {
  }

  lemma DoneNext(s: State, e: Event)
    requires Inv(s) && Done(s)
    ensures Done(Next(s, e))
  {
    hide Inv, EngineAllowed, NsfsAllowed, ProcAllowed, PidnsAllowed, Account, H.Next, P.Next, O.Next, Follow, StopStep;
    match e
    case Engine(v) => EngineOps(s, v);
    case Pidns(v) => if PidnsAllowed(s, v) && Stage(s.pc) >= 18 { NobodyAttaches(s, v); }
    case Stop(a) => DoneStop(s, a);
    case _ =>
  }

  lemma {:induction false} DoneRun(s: State, es: seq<Event>)
    requires Inv(s) && Done(s)
    ensures Done(Run(s, es))
  {
    if es != [] {
      DoneRun(s, es[..|es| - 1]);
      RunInv(s, es[..|es| - 1]);
      DoneNext(Run(s, es[..|es| - 1]), es[|es| - 1]);
    }
  }

  lemma InitDone(roles: seq<Role>, removal: seq<nat>, nsfsHooks: seq<nat>)
    ensures Done(Init(roles, removal, nsfsHooks))
  {
  }

  /** At every stage the gates before it are shut and the parts before it are gone: no namespace is
      created from the first check on, the mount work is off once it is cancelled, no operations
      are attached from the detach on, and a stop that ends leaves neither overlay nor IPC. */
  lemma StagesAreDone(s: State)
    requires Reachable(s)
    ensures Stage(s.pc) >= 3 ==> s.proxyStopping && s.userStopping
    ensures Stage(s.pc) >= 10 ==> !s.mountArmed
    ensures Stage(s.pc) >= 18 ==> s.ops.target.None?
    ensures s.pc.Stopped? ==> !s.overlayUp && !s.ipcUp && !s.enabled
  {
    hide Run, Next, Init, Inv;
    var roles, removal, nsfsHooks, es :|
      Listed(|roles|, removal, nsfsHooks) && s == Run(Init(roles, removal, nsfsHooks), es);
    InitInv(roles, removal, nsfsHooks);
    InitDone(roles, removal, nsfsHooks);
    DoneRun(Init(roles, removal, nsfsHooks), es);
    ReachableInv(s);
    StoppedIsOff(s);
  }

  lemma StoppedIsOff(s: State)
    requires Inv(s)
    ensures s.pc.Stopped? ==> !s.enabled
  {
    hide System;
  }
}
