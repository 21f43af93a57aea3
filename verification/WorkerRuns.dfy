/** What the unload worker of glue/lkm4ctr_diagfs.c does over a whole run, from its first step to
    its last, while writers escalate: when it starts rmmod, when it gives up, and which submodules
    it has unloaded by then. */
module WorkerRuns {
  import opened Tally
  import opened Options
  import opened DiagfsLifecycle

  // ------------------------------------------------------------------ what happens in a run

  /** What can happen to the worker in one of its steps. */
  datatype Happening =
    | Exits(m: nat)              // mod_exit of a submodule returns
    | ExitFails                  // ... with an error
    | CountDrops                 // a reference count of at most 1 is read
    | RmmodFails

  predicate Is(w: Worker, a: Answer, h: Happening) {
    match h
    case Exits(m) => WorkerInCallback(w) && w.pc.m == m
    case ExitFails => WorkerInCallback(w) && !a.ok
    case CountDrops => w.pc.ReadRefcount? && a.refcount <= 1
    case RmmodFails => w.pc.LaunchRmmod? && !a.ok
  }

  predicate HappensAt(s: State, es: seq<Event>, k: nat, h: Happening) {
    k < |es| && es[k].WorkerStep? && Is(Run(s, es[..k]).worker, es[k].answer, h)
  }

  ghost predicate Happens(s: State, es: seq<Event>, h: Happening) {
    exists k: nat :: HappensAt(s, es, k, h)
  }

  lemma HappensNext(s: State, es: seq<Event>, h: Happening)
    requires es != []
    ensures var n := |es| - 1;
            Happens(s, es, h) <==>
              Happens(s, es[..n], h) || (es[n].WorkerStep? && Is(Run(s, es[..n]).worker, es[n].answer, h))
  {
    hide Run, Is;
    var n := |es| - 1;
    forall k: nat | k < n ensures HappensAt(s, es, k, h) <==> HappensAt(s, es[..n], k, h) {
      assert es[..n][..k] == es[..k];
    }
    if Happens(s, es[..n], h) {
      var k: nat :| HappensAt(s, es[..n], k, h);
      assert HappensAt(s, es, k, h);
    }
    if es[n].WorkerStep? && Is(Run(s, es[..n]).worker, es[n].answer, h) {
      assert HappensAt(s, es, n, h);
    }
    if Happens(s, es, h) {
      var k: nat :| HappensAt(s, es, k, h);
      if k < n { assert HappensAt(s, es[..n], k, h); }
    }
  }

  /** How often the worker has slept. */
  function Sleeps(s: State, es: seq<Event>): nat {
    if es == [] then 0
    else
      var n := |es| - 1;
      Sleeps(s, es[..n]) + if es[n].WorkerStep? && Run(s, es[..n]).worker.pc.Sleep? then 1 else 0
  }

  // ------------------------------------------------------------------ the rest of the system

  lemma ModulesAlone(s: State, e: Event)
    requires Inv(s) && !s.worker.pc.Asleep? && !e.WorkerStep?
    ensures Next(s, e).modules == s.modules
  {
    if e.Step? && e.op < |s.ops| {
      assert OpOk(s, s.ops[e.op]);
      SumMember(s.ops, e.op, Weight);
    }
  }

  lemma RunsOnBefore(s: State, es: seq<Event>, n: nat)
    requires RunsOn(s, es) && n <= |es|
    ensures RunsOn(s, es[..n]) && !Run(s, es[..n]).worker.pc.Asleep?
  {
    hide Run;
    forall k | 0 <= k <= n ensures !Run(s, es[..n][..k]).worker.pc.Asleep? {
      assert es[..n][..k] == es[..k];
    }
  }

  /** A worker that has just been started. */
  predicate Started(s: State) {
    s.worker == RESTING.(pc := ReadFlags)
  }

  // ------------------------------------------------------------------ launch or give up

  predicate Early(pc: Pc) {
    || pc.ReadFlags? || pc.QuiesceOn? || pc.AutoUmount? || pc.ReadRefcount? || pc.Escalate?
    || pc.CheckTimeout? || pc.Sleep?
  }

  /** What the worker's place tells of what has happened: a failed unload, a drained count, a
      failed rmmod. */
  predicate Story(w: Worker, exit: bool, drop: bool, rmmod: bool) {
    && (w.pc.UnloadAll? ==> w.pc.failed == exit && !rmmod && (w.pc.why.AfterDrain? <==> drop))
    && (Early(w.pc) ==> !exit && !rmmod && !drop)
    && (w.pc.LaunchRmmod? || w.pc.Launched? ==> !exit && !rmmod && drop)
    && (w.pc.QuiesceOff? || w.pc.GiveUp? ==> exit || rmmod || (!drop && w.waited >= TIMEOUT))
  }

  lemma StoryNext(s: State, a: Answer, exit: bool, drop: bool, rmmod: bool)
    requires Story(s.worker, exit, drop, rmmod) && !StepWorker(s, a).pc.Asleep?
    ensures Story(StepWorker(s, a), exit || Is(s.worker, a, ExitFails), drop || Is(s.worker, a, CountDrops),
                  rmmod || Is(s.worker, a, RmmodFails))
  {
  }

  ghost predicate Told(s: State, es: seq<Event>, w: Worker) {
    Story(w, Happens(s, es, ExitFails), Happens(s, es, CountDrops), Happens(s, es, RmmodFails))
  }

  lemma {:induction false} StoryRun(s: State, es: seq<Event>)
    requires Inv(s) && Started(s) && RunsOn(s, es)
    ensures Told(s, es, Run(s, es).worker) && Run(s, es).worker.waited == POLL * Sleeps(s, es)
  {
    hide Inv, Story, StepWorker, Is;
    if es == [] {
      StoryStart(s);
    } else {
      var n := |es| - 1;
      var t, e := Run(s, es[..n]), es[n];
      RunsOnBefore(s, es, n);
      RunsOnBefore(s, es, |es|);
      assert es[..|es|] == es;
      StoryRun(s, es[..n]);
      RunInv(s, es[..n]);
      HappensNext(s, es, ExitFails);
      HappensNext(s, es, CountDrops);
      HappensNext(s, es, RmmodFails);
      if e.WorkerStep? {
        assert Next(t, e).worker == StepWorker(t, e.answer);
        StoryNext(t, e.answer, Happens(s, es[..n], ExitFails), Happens(s, es[..n], CountDrops),
                  Happens(s, es[..n], RmmodFails));
        Waits(t, e.answer);
      } else {
        WorkerIsAlone(t, e);
      }
    }
  }

  lemma Waits(s: State, a: Answer)
    ensures StepWorker(s, a).waited == s.worker.waited + if s.worker.pc.Sleep? then POLL else 0
  {
    hide WorkerPc;
  }

  lemma StoryStart(s: State)
    requires Started(s)
    ensures Told(s, [], s.worker)
  {
  }

  /** rmmod is started if it can be.  When the worker comes to its end it has started rmmod if and
      only if every mod_exit it called succeeded, a reference count of at most 1 was read, and
      rmmod could be started, with and without force ... */
  lemma LaunchesExactly(s: State, es: seq<Event>)
    requires Reachable(s) && Started(s) && RunsOn(s, es)
    requires Run(s, es).worker.pc.Launched? || Run(s, es).worker.pc.GiveUp?
    ensures Run(s, es).launched <==>
              !Happens(s, es, ExitFails) && Happens(s, es, CountDrops) && !Happens(s, es, RmmodFails)
  {
    hide Happens, Reachable;
    ReachableInv(s);
    StoryRun(s, es);
    RunInv(s, es);
    LaunchedIs(Run(s, es));
    hide Inv, Run;
  }

  lemma LaunchedIs(s: State)
    requires Inv(s) && !s.worker.pc.Asleep?
    ensures s.launched <==> s.worker.pc.Launched?
  {
  }

  /** ... and it gives up if and only if an unload failed, rmmod failed, or it slept 600 times, for
      30 seconds in all, and never read such a count. */
  lemma GivesUpExactly(s: State, es: seq<Event>)
    requires Reachable(s) && Started(s) && RunsOn(s, es)
    requires Run(s, es).worker.pc.Launched? || Run(s, es).worker.pc.GiveUp?
    ensures Run(s, es).worker.pc.GiveUp? <==>
              || Happens(s, es, ExitFails) || Happens(s, es, RmmodFails)
              || (!Happens(s, es, CountDrops) && Sleeps(s, es) == 600)
  {
    hide Happens, Reachable;
    ReachableInv(s);
    StoryRun(s, es);
    RunInv(s, es);
    WaitsAtMost(Run(s, es));
    hide Inv, Run;
  }

  lemma WaitsAtMost(s: State)
    requires Inv(s)
    ensures s.worker.waited <= TIMEOUT
  {
  }

  // ------------------------------------------------------------------ every submodule

  /** How far the worker's place tells that the exit of submodule `m` was called; on the graceful
      path only of one that is registered. */
  predicate Visited(w: Worker, m: nat, it: Module, called: bool) {
    it.hasExit ==>
      && (w.pc.UnloadAll? && m < w.pc.m ==> called || (w.pc.why.AfterDrain? && !it.registered))
      && (w.force && Waiting(w.pc) ==> called) && (w.pc.UnloadAll? && w.pc.why.AfterDrain? ==> !w.force)
      && (w.pc.LaunchRmmod? || w.pc.Launched? ==> called || !it.registered)
  }

  lemma VisitedNext(s: State, a: Answer, m: nat, called: bool)
    requires m < |s.modules| && Visited(s.worker, m, s.modules[m], called)
    ensures var t := NextWorker(s, a);
            && |t.modules| == |s.modules| && t.modules[m].hasExit == s.modules[m].hasExit
            && Visited(t.worker, m, t.modules[m], called || Is(s.worker, a, Exits(m)))
  {
    hide Visited, NextWorker, Is;
    if s.worker.pc.UnloadAll? { VisitedPass(s, a, m, called); } else { VisitedRest(s, a, m, called); }
  }

  lemma VisitedPass(s: State, a: Answer, m: nat, called: bool)
    requires m < |s.modules| && Visited(s.worker, m, s.modules[m], called) && s.worker.pc.UnloadAll?
    ensures var t := NextWorker(s, a);
            && |t.modules| == |s.modules| && t.modules[m].hasExit == s.modules[m].hasExit
            && Visited(t.worker, m, t.modules[m], called || Is(s.worker, a, Exits(m)))
  {
  }

  lemma VisitedRest(s: State, a: Answer, m: nat, called: bool)
    requires m < |s.modules| && Visited(s.worker, m, s.modules[m], called) && !s.worker.pc.UnloadAll?
    ensures var t := NextWorker(s, a);
            && |t.modules| == |s.modules| && t.modules[m].hasExit == s.modules[m].hasExit
            && Visited(t.worker, m, t.modules[m], called || Is(s.worker, a, Exits(m)))
  {
  }

  lemma {:induction false} VisitedRun(s: State, es: seq<Event>, m: nat)
    requires Inv(s) && Started(s) && RunsOn(s, es) && m < |s.modules|
    ensures var t := Run(s, es);
            && |t.modules| == |s.modules| && t.modules[m].hasExit == s.modules[m].hasExit
            && Visited(t.worker, m, t.modules[m], Happens(s, es, Exits(m)))
  {
    hide Inv, Visited, NextWorker, Is;
    if es == [] {
      VisitedStart(s, m);
    } else {
      var n := |es| - 1;
      var t, e := Run(s, es[..n]), es[n];
      RunsOnBefore(s, es, n);
      VisitedRun(s, es[..n], m);
      RunInv(s, es[..n]);
      HappensNext(s, es, Exits(m));
      if e.WorkerStep? {
        assert Next(t, e) == NextWorker(t, e.answer);
        VisitedNext(t, e.answer, m, Happens(s, es[..n], Exits(m)));
      } else {
        WorkerIsAlone(t, e);
        ModulesAlone(t, e);
      }
    }
  }

  lemma VisitedStart(s: State, m: nat)
    requires Started(s) && m < |s.modules|
    ensures Visited(s.worker, m, s.modules[m], Happens(s, [], Exits(m)))
  {
  }

  /** Nothing stays loaded behind rmmod.  By the time it is started the worker has called mod_exit
      of every submodule that has one; without force it may leave out those that are not
      registered, and they still are not. */
  lemma EverySubmoduleExits(s: State, es: seq<Event>, m: nat)
    requires Reachable(s) && Started(s) && RunsOn(s, es) && Run(s, es).worker.pc.Launched?
    requires m < |s.modules| && s.modules[m].hasExit
    ensures m < |Run(s, es).modules|
    ensures Happens(s, es, Exits(m)) || (!Run(s, es).worker.force && !Run(s, es).modules[m].registered)
  {
    hide Happens, Reachable, Run;
    ReachableInv(s);
    VisitedRun(s, es, m);
  }

  /** An escalation that the worker sees in its loop is obeyed: it unloads everything by force
      before it does anything else, and stays forced. */
  lemma EscalationIsObeyed(s: State, a: Answer)
    requires Reachable(s) && s.worker.pc.Escalate?
    requires (s.force && !s.worker.force) || (s.force2 && !s.worker.force2)
    ensures var w := Next(s, WorkerStep(a)).worker;
            && w.force && (s.force2 ==> w.force2)
            && w.pc.UnloadAll? && !w.pc.why.AfterDrain? && w.pc.m == 0 && !w.pc.calling && !w.pc.failed
  {
  }

  /** The flags never fall while the worker runs. */
  lemma ForceStays(s: State, e: Event)
    requires Reachable(s) && !s.worker.pc.Asleep? && !s.worker.pc.ReadFlags?
    ensures s.worker.force ==> Next(s, e).worker.force
    ensures s.worker.force2 ==> Next(s, e).worker.force2
  {
    ReachableInv(s);
    if !e.WorkerStep? { WorkerIsAlone(s, e); }
  }

  /** The worker's last step leaves no request behind, so the next one starts afresh; after giving
      up, the global state is active again. */
  lemma EndsClean(s: State, a: Answer)
    requires Reachable(s) && (s.worker.pc.Launched? || s.worker.pc.GiveUp?)
    ensures var t := Next(s, WorkerStep(a));
            && t.worker.pc.Asleep? && !t.inProgress && !t.force && !t.force2 && t.modules == s.modules
            && Running(t) == 0 && (s.worker.pc.GiveUp? ==> t.global.Active? && !t.launched)
  {
    ReachableInv(s);
    WorkerAlone(s);
    SumZero(s.ops, Weight);
  }
}
