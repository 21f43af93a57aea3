/** The controlled stop can succeed: left alone with a quiet system it always runs to its end. */
module StopProgress {
  import opened ControlledStop
  import opened Runs
  import opened StopProof
  import H = HookEngine
  import P = PinTable
  import O = PidnsOps

  /** Nothing is in flight, entering, pinned, or in the middle of a locked section of a hook. */
  predicate Undisturbed(s: State) {
    && s.eng.inflight == 0 && s.proc.count == 0 && s.nsfs.count == 0
    && (forall i | 0 <= i < |s.eng.calls| :: !Entering(s.eng.calls[i].phase))
    && !s.eng.lock.ByCall? && !s.nsfs.mutex.Helper?
  }

  /** No live namespace object and no error from the parts outside this model. */
  const CLEAR := Answer(0, false)

  /** What is left to do within the current stage. */
  function Left(pc: Pc, removal: seq<nat>, nsfsHooks: seq<nat>): int {
    match pc
    case ShutNsfs(k) => 3 - k
    case Quiesce(k) => 3 - k
    case Reopen(k) => 3 - k
    case DetachReads(k) => 4 - k
    case Remove(k, half) => 2 * (|removal| - k) + (if half then 0 else 1)
    case RemoveNsfs(k, half) => 2 * (|nsfsHooks| - k) + (if half then 0 else 1)
    case _ => 0
  }

  /** Gets on: a later stage, or less left to do in the same one. */
  predicate GetsOn(s: State, next: Pc) {
    || Stage(next) > Stage(s.pc)
    || (Stage(next) == Stage(s.pc)
        && 0 <= Left(next, s.removal, s.nsfsHooks) + 1 <= Left(s.pc, s.removal, s.nsfsHooks))
  }

  /** What every test of the stop finds in such a state. */
  predicate Passes(s: State) {
    s.eng.inflight == 0 && s.proc.count == 0 && s.nsfs.count == 0 && PassesGate(s) && PassesNsfs(s) && PassesDetach(s)
  }

  predicate PassesGate(s: State) {
    Requiescing(s.pc) ==> s.pc.k <= 2 && (s.pc.k == 0 ==> s.eng.lock.Free?)
  }

  predicate PassesNsfs(s: State) {
    && (s.pc.ShutNsfs? ==> s.pc.k <= 2 && (s.pc.k == 0 ==> s.nsfs.mutex.Nobody?))
    && (s.pc.CheckNsfs? ==> s.nsfs.mutex.Nobody? && s.nsfs.stopping)
  }

  predicate PassesDetach(s: State) {
    && (s.pc.DetachReads? ==> s.eng.quiescing)
    && (s.pc.DetachLocked? ==> O.CanDetach(s.ops))
  }

  predicate Requiescing(pc: Pc) {
    pc.Quiesce? || pc.Reopen? || pc.UndoQuiesce?
  }

  lemma GatePasses(s: State)
    requires Inv(s) && Undisturbed(s)
    ensures PassesGate(s)
  {
    hide H.Inv, P.Inv, EntryFacts, System;
  }

  lemma NsfsPasses(s: State)
    requires Inv(s) && Undisturbed(s)
    ensures PassesNsfs(s)
  {
  }

  lemma UndisturbedPasses(s: State)
    requires Inv(s) && Undisturbed(s)
    ensures Passes(s)
  {
    GatePasses(s);
    NsfsPasses(s);
    assert O.TargetOk(s.ops);
  }

  lemma NoThunk(e: H.State, h: nat)
    requires forall i | 0 <= i < |e.calls| :: !Entering(e.calls[i].phase)
    ensures !ThunkRunning(e, h)
  {
  }

  /** Where the stop goes on from the two removals. */
  lemma RemovalGoesOn(s: State)
    requires (s.pc.Remove? || s.pc.RemoveNsfs?) && (s.pc.half ==> s.pc.k < |if s.pc.Remove? then s.removal else s.nsfsHooks|)
    requires forall h: nat :: !ThunkRunning(s.eng, h)
    ensures GetsOn(s, StopPc(s, CLEAR))
  {
  }

  lemma CheckGoesOn(s: State)
    requires Passes(s) && 1 <= Stage(s.pc) <= 15
    ensures GetsOn(s, StopPc(s, CLEAR))
  {
  }

  lemma DetachGoesOn(s: State)
    requires Passes(s) && 16 <= Stage(s.pc) <= 19
    ensures GetsOn(s, StopPc(s, CLEAR))
  {
  }

  lemma EndGoesOn(s: State)
    requires Passes(s) && 21 <= Stage(s.pc) <= 25 && !s.pc.RemoveNsfs?
    ensures GetsOn(s, StopPc(s, CLEAR))
  {
  }

  lemma StopGoesOn(s: State)
    requires Inv(s) && Undisturbed(s) && 1 <= Stage(s.pc) <= 25
    ensures GetsOn(s, StopPc(s, CLEAR))
  {
    UndisturbedPasses(s);
    if s.pc.Remove? || s.pc.RemoveNsfs? {
      forall h: nat ensures !ThunkRunning(s.eng, h) {
        NoThunk(s.eng, h);
      }
      RemovalGoesOn(s);
    } else if Stage(s.pc) <= 15 {
      CheckGoesOn(s);
    } else if Stage(s.pc) <= 19 {
      DetachGoesOn(s);
    } else {
      EndGoesOn(s);
    }
  }

  lemma LocksKept(s: State, e: H.State, p: P.State)
    requires EngineMoved(s, e) && NsfsMoved(s, p) && !s.eng.lock.ByCall? && !s.nsfs.mutex.Helper?
    ensures !e.lock.ByCall? && !p.mutex.Helper? && p.count == s.nsfs.count
  {
  }

  lemma StaysUndisturbed(s: State)
    requires Inv(s) && Undisturbed(s)
    ensures Undisturbed(StopStep(s, CLEAR))
  {
    StopEngineSystem(s);
    StopEngineMoves(s);
    StopNsfsMoves(s);
    LocksKept(s, ApplyEngine(s.eng, StopShared(s)), ApplyNsfs(s.nsfs, StopShared(s)));
  }

  function Stops(n: nat): (es: seq<Event>)
    ensures |es| == n
  {
    seq(n, _ => Stop(CLEAR))
  }

  predicate Ends(s: State, n: nat) {
    Run(s, Stops(n)).pc.Stopped?
  }

  lemma OneMore(s: State, n: nat)
    requires Ends(StopStep(s, CLEAR), n)
    ensures Ends(s, n + 1)
  {
    assert Next(s, Stop(CLEAR)) == StopStep(s, CLEAR);
    hide Next, StopStep;
    RunFirst(Next, Run, s, Stop(CLEAR), Stops(n));
    assert Stops(n + 1) == [Stop(CLEAR)] + Stops(n);
  }

  /** A stop that nobody disturbs any more, wherever it is, ends successfully. */
  lemma {:induction false} StopEnds(s: State)
    requires Inv(s) && Undisturbed(s) && Stage(s.pc) >= 1
    ensures exists n: nat :: Ends(s, n)
    decreases 27 - Stage(s.pc), Left(s.pc, s.removal, s.nsfsHooks)
  {
    if s.pc.Stopped? {
      assert Ends(s, 0);
    } else {
      var t := StopStep(s, CLEAR);
      StopGoesOn(s);
      StopInv(s, CLEAR);
      StaysUndisturbed(s);
      StopEnds(t);
      var n: nat :| Ends(t, n);
      OneMore(s, n);
    }
  }

  /** So a loaded system that is quiet when the stop begins can always be stopped. */
  lemma QuietSystemStops(s: State)
    requires Reachable(s) && CanBegin(s) && Undisturbed(s)
    ensures exists n: nat :: Ends(Begun(s), n)
  {
    ReachableInv(s);
    BeginInv(s);
    StopEnds(Begun(s));
  }

  // ------------------------------------------------------------------ backing out ends

  /** How many operations a stop that backs out has before it. */
  function UndoLeft(pc: Pc): int {
    match pc
    case UndoMount => 9
    case UndoQuiesce(k) => 8 - k
    case UndoNsfs(k) => 5 - k
    case UndoProxies => 2
    case UndoUsers => 1
    case _ => 0
  }

  /** No call holds one of the two locks that backing out needs. */
  predicate Unlocked(s: State) {
    !s.eng.lock.ByCall? && !s.nsfs.mutex.Helper?
  }

  lemma UndoStep(s: State, a: Answer)
    requires Inv(s) && Undoing(s.pc) && Unlocked(s)
    ensures Undoing(StopPc(s, a)) && 0 <= UndoLeft(StopPc(s, a))
    ensures UndoLeft(StopPc(s, a)) < UndoLeft(s.pc) || StopPc(s, a).Refused?
    ensures s.pc.Refused? ==> StopPc(s, a).Refused?
  {
    hide System, EntryFacts;
  }

  lemma UndoKeepsUnlocked(s: State, a: Answer)
    requires Inv(s) && Unlocked(s)
    ensures Unlocked(StopStep(s, a))
  {
    hide H.Inv, P.Inv, EntryFacts, StopPc;
    StopEngineSystem(s);
    StopEngineMoves(s);
    StopNsfsMoves(s);
    LocksKept(s, ApplyEngine(s.eng, StopShared(s)), ApplyNsfs(s.nsfs, StopShared(s)));
  }

  lemma {:induction false} BacksOut(s: State, es: seq<Event>)
    requires Inv(s) && Undoing(s.pc) && Unlocked(s) && forall e | e in es :: e.Stop?
    ensures var t := Run(s, es);
            && Inv(t) && Unlocked(t) && Undoing(t.pc)
            && (t.pc.Refused? || 1 <= UndoLeft(t.pc) <= UndoLeft(s.pc) - |es|)
  {
    hide Inv, Unlocked, Undoing, StopPc, UndoLeft;
    if es == [] {
      UndoLeftPositive(s);
    } else {
      var n := |es| - 1;
      var t := Run(s, es[..n]);
      assert es[n] in es;
      BacksOut(s, es[..n]);
      UndoStep(t, es[n].answer);
      UndoKeepsUnlocked(t, es[n].answer);
      StopInv(t, es[n].answer);
      assert Run(s, es) == StopStep(t, es[n].answer);
      UndoLeftPositive(Run(s, es));
    }
  }

  lemma UndoLeftPositive(s: State)
    requires Inv(s) && Undoing(s.pc)
    ensures s.pc.Refused? || UndoLeft(s.pc) >= 1
  {
    hide System, EntryFacts;
  }

  /** A stop that backs out comes to its end: unless a call keeps one of the locks, it is refused
      after at most nine operations of its own, whatever it is answered. */
  lemma BackingOutEnds(s: State, es: seq<Event>)
    requires Reachable(s) && Undoing(s.pc) && Unlocked(s) && |es| >= 9 && forall e | e in es :: e.Stop?
    ensures Run(s, es).pc.Refused?
  {
    hide Inv, Run, Reachable;
    ReachableInv(s);
    BacksOut(s, es);
    assert UndoLeft(s.pc) <= 9;
  }
}
