/** What the control files of glue/lkm4ctr_diagfs.c do with nobody in between: one submodule
    loaded or unloaded, and all of them loaded. */
module LoadRuns {
  import opened Options
  import opened DiagfsLifecycle
  import opened Runs

  /** Nothing is under way and rmmod has not been started. */
  predicate Resting(s: State) {
    Running(s) == 0 && !s.launched
  }

  lemma RestingIsFree(s: State)
    requires Reachable(s) && Resting(s)
    ensures Free(s) && AllStable(s.modules)
  {
    ReachableInv(s);
    forall m | 0 <= m < |s.modules| ensures !Busy(s.modules[m].status) {
      assert s.modules[m].status == Stable(s.modules[m]);
    }
  }

  /** Submodule `m` with its hooks registered or not, and its status file to match. */
  function Registered(s: State, m: nat, registered: bool): seq<Module>
    requires m < |s.modules|
  {
    s.modules[m := Module(s.modules[m].hasInit, s.modules[m].hasExit, registered, if registered then Active else Unloaded)]
  }

  /** A load calls mod_init exactly if the submodule has one and is not active yet; its status
      then tells whether its hooks are registered, and no other submodule changes. */
  lemma LoadEffect(s: State, m: nat, a: Answer)
    requires Reachable(s) && Resting(s)
    ensures Next(Next(s, Load(m)), Step(|s.ops|, a)) ==
              if m < |s.modules| && s.modules[m].hasInit && !s.modules[m].registered
              then s.(modules := Registered(s, m, a.registered), ops := s.ops + [Idle], loads := s.loads + 1)
              else s
  {
    RestingIsFree(s);
    if m < |s.modules| && s.modules[m].hasInit && !s.modules[m].registered {
      var t := Next(s, Load(m));
      assert t.ops[|s.ops| := Idle] == s.ops + [Idle];
      assert Settle(t.modules, m, a.registered) == Registered(s, m, a.registered);
    }
  }

  /** An unload calls mod_exit exactly if the submodule has one and is active, or is forced. */
  lemma UnloadEffect(s: State, m: nat, force: bool, a: Answer)
    requires Reachable(s) && Resting(s)
    ensures Next(Next(s, Unload(m, force)), Step(|s.ops|, a)) ==
              if m < |s.modules| && s.modules[m].hasExit && (force || s.modules[m].registered)
              then s.(modules := Registered(s, m, a.registered), ops := s.ops + [Idle])
              else s
  {
    RestingIsFree(s);
    if m < |s.modules| && s.modules[m].hasExit && (force || s.modules[m].registered) {
      var t := Next(s, Unload(m, force));
      assert t.ops[|s.ops| := Idle] == s.ops + [Idle];
      assert Settle(t.modules, m, a.registered) == Registered(s, m, a.registered);
    }
  }

  // ------------------------------------------------------------------ starting the worker

  /** An accepted unload of the whole module starts the worker, which first reads how it was asked;
      if no thread can be started, everything is as before. */
  lemma UnloadModuleStarts(s: State, force: bool, force2: bool, a: Answer, b: Answer)
    requires Reachable(s) && Resting(s)
    ensures var t := Next(Next(s, UnloadModule(force, force2)), Step(|s.ops|, a));
            if !a.ok then t == s.(ops := s.ops + [Idle], force := force || force2, force2 := force2)
            else
              && t.worker == RESTING.(pc := ReadFlags) && t.inProgress && Unloading(t.global) && t.modules == s.modules
              && Next(t, WorkerStep(b)).worker == RESTING.(pc := QuiesceOn, force := force || force2, force2 := force2)
  {
    RestingIsFree(s);
    ReachableInv(s);
    var t := Next(s, UnloadModule(force, force2));
    assert t.ops[|s.ops| := Idle] == s.ops + [Idle];
  }

  /** A request while the worker runs is never lost: it is refused nothing and starts nothing, but
      the flags that the worker will look at have it. */
  lemma EscalationIsRecorded(s: State, force: bool, force2: bool)
    requires Reachable(s) && s.inProgress
    ensures var t := Next(s, UnloadModule(force, force2));
            && t == s.(force := s.force || force || force2, force2 := s.force2 || force2, global := t.global)
            && (t.force != s.force || t.force2 != s.force2 ==> t.global.ForceUnloading?)
            && (t.force == s.force && t.force2 == s.force2 ==> t.global == s.global)
  {
  }

  /** While anything is under way every request is refused, but for those that escalate. */
  lemma BusyRefuses(s: State, e: Event)
    requires Reachable(s) && Running(s) > 0 && !s.inProgress
    requires e.Load? || e.Unload? || e.LoadAll? || e.UnloadModule?
    ensures Next(s, e) == s
  {
    ReachableInv(s);
    if Free(s) { FreeIsAlone(s); }
  }

  // ------------------------------------------------------------------ loading all

  /** After its mod_init, if that is called, submodule `m` has its hooks registered as `outcome`
      says. */
  function AfterLoad(it: Module, outcome: bool): Module {
    if it.hasInit && !it.registered
    then Module(it.hasInit, it.hasExit, outcome, if outcome then Active else Unloaded) else it
  }

  /** The submodules from place `m` on have been gone through. */
  predicate LoadedFrom(was: seq<Module>, now: seq<Module>, m: nat, outcomes: seq<bool>) {
    && |was| == |now| == |outcomes|
    && forall k | 0 <= k < |was| :: now[k] == if k >= m then AfterLoad(was[k], outcomes[k]) else was[k]
  }

  /** How many submodules from place `m` on are loaded. */
  function ToLoad(modules: seq<Module>, m: nat): nat
    decreases |modules| - m
  {
    if m >= |modules| then 0
    else ToLoad(modules, m + 1) + if modules[m].hasInit && !modules[m].registered then 1 else 0
  }

  /** Operation `i` goes on; a mod_init that returns has the outcome it is given. */
  function Proceed(s: State, i: nat, outcomes: seq<bool>): State {
    if i < |s.ops| && s.ops[i].LoadingAll?
    then Next(s, Step(i, Answer(true, s.ops[i].m < |outcomes| && outcomes[s.ops[i].m], 0))) else s
  }

  function Proceeds(i: nat, outcomes: seq<bool>): State -> State {
    (s: State) => Proceed(s, i, outcomes)
  }

  /** load_all(), `n` steps of it. */
  function Loading(s: State, i: nat, outcomes: seq<bool>, n: nat): State {
    Repeated(Proceeds(i, outcomes), s, n)
  }

  /** load_all() at place `m` of the submodules. */
  predicate AtPlace(s: State, i: nat, m: nat) {
    i < |s.ops| && s.ops[i] == LoadingAll(m, false) && AllStable(s.modules)
  }

  predicate Ends(s: State, i: nat, m: nat, outcomes: seq<bool>, n: nat) {
    var t := Loading(s, i, outcomes, n);
    && i < |s.ops|
    && LoadedFrom(s.modules, t.modules, m, outcomes)
    && t == s.(modules := t.modules, global := Active, ops := s.ops[i := Idle], loads := s.loads + ToLoad(s.modules, m))
  }

  lemma FirstStep(s: State, i: nat, outcomes: seq<bool>, n: nat)
    ensures Loading(s, i, outcomes, n + 1) == Loading(Proceed(s, i, outcomes), i, outcomes, n)
  {
    RepeatedFirst(Proceeds(i, outcomes), s, n + 1);
  }

  /** Passing over a submodule that is not loaded. */
  lemma PassesOver(s: State, i: nat, m: nat, outcomes: seq<bool>)
    requires AtPlace(s, i, m) && m < |s.modules| && !(s.modules[m].hasInit && !s.modules[m].registered)
    ensures Proceed(s, i, outcomes) == s.(ops := s.ops[i := LoadingAll(m + 1, false)])
    ensures AtPlace(Proceed(s, i, outcomes), i, m + 1)
    ensures m < |outcomes| ==> s.modules[m := AfterLoad(s.modules[m], outcomes[m])] == s.modules
  {
  }

  /** Entering and leaving its mod_init. */
  lemma LoadsOne(s: State, i: nat, m: nat, outcomes: seq<bool>)
    requires AtPlace(s, i, m) && m < |s.modules| == |outcomes| && s.modules[m].hasInit && !s.modules[m].registered
    ensures Proceed(Proceed(s, i, outcomes), i, outcomes) ==
              s.(modules := s.modules[m := AfterLoad(s.modules[m], outcomes[m])],
                 ops := s.ops[i := LoadingAll(m + 1, false)], loads := s.loads + 1)
    ensures AtPlace(Proceed(Proceed(s, i, outcomes), i, outcomes), i, m + 1)
  {
    var t := Proceed(s, i, outcomes);
    assert t.ops[i] == LoadingAll(m, true);
    assert t.ops[i := LoadingAll(m + 1, false)] == s.ops[i := LoadingAll(m + 1, false)];
    assert Settle(t.modules, m, outcomes[m]) == s.modules[m := AfterLoad(s.modules[m], outcomes[m])];
  }

  lemma {:induction false} SameToLoad(a: seq<Module>, b: seq<Module>, m: nat)
    requires |a| == |b| && forall k | m <= k < |a| :: a[k] == b[k]
    ensures ToLoad(a, m) == ToLoad(b, m)
    decreases |a| - m
  {
    if m < |a| { SameToLoad(a, b, m + 1); }
  }

  lemma {:induction false} LoadsFrom(s: State, i: nat, m: nat, outcomes: seq<bool>)
    requires AtPlace(s, i, m) && m <= |s.modules| == |outcomes|
    ensures exists n: nat :: Ends(s, i, m, outcomes, n)
    decreases |s.modules| - m
  {
    hide Proceed, Loading, AllStable, Ends, AfterLoad, ToLoad;
    if m == |s.modules| {
      LoadsNothing(s, i, m, outcomes);
    } else {
      var t := Proceed(s, i, outcomes);
      if s.modules[m].hasInit && !s.modules[m].registered {
        LoadsOne(s, i, m, outcomes);
        var u := Proceed(t, i, outcomes);
        LoadsFrom(u, i, m + 1, outcomes);
        var n: nat :| Ends(u, i, m + 1, outcomes, n);
        FirstStep(s, i, outcomes, n + 1);
        FirstStep(t, i, outcomes, n);
        EndsEarlier(s, u, i, m, outcomes, n + 2, n);
      } else {
        PassesOver(s, i, m, outcomes);
        LoadsFrom(t, i, m + 1, outcomes);
        var n: nat :| Ends(t, i, m + 1, outcomes, n);
        FirstStep(s, i, outcomes, n);
        EndsEarlier(s, t, i, m, outcomes, n + 1, n);
      }
    }
  }

  /** From one submodule on to the next. */
  lemma EndsEarlier(s: State, u: State, i: nat, m: nat, outcomes: seq<bool>, n: nat, k: nat)
    requires i < |s.ops| && m < |s.modules| == |outcomes| && Ends(u, i, m + 1, outcomes, k)
    requires Loading(s, i, outcomes, n) == Loading(u, i, outcomes, k)
    requires u == s.(modules := s.modules[m := AfterLoad(s.modules[m], outcomes[m])],
                     ops := s.ops[i := LoadingAll(m + 1, false)],
                     loads := s.loads + if s.modules[m].hasInit && !s.modules[m].registered then 1 else 0)
    ensures Ends(s, i, m, outcomes, n)
  {
    hide Loading;
    SameToLoad(s.modules, u.modules, m + 1);
    assert u.ops[i := Idle] == s.ops[i := Idle];
  }

  lemma LoadsNothing(s: State, i: nat, m: nat, outcomes: seq<bool>)
    requires AtPlace(s, i, m) && m == |s.modules| == |outcomes|
    ensures Ends(s, i, m, outcomes, 1)
  {
    assert Loading(s, i, outcomes, 0) == s;
    assert Loading(s, i, outcomes, 1) == Proceed(s, i, outcomes);
  }

  /** Loading everything comes to its end: mod_init has been called once for each submodule that
      has one and was not active, for no other, and the global state is active again. */
  lemma LoadAllEffect(s: State, outcomes: seq<bool>)
    requires Reachable(s) && Resting(s) && |outcomes| == |s.modules|
    ensures exists n: nat :: var t := Loading(Next(s, LoadAll), |s.ops|, outcomes, n);
              && LoadedFrom(s.modules, t.modules, 0, outcomes)
              && t == s.(modules := t.modules, ops := s.ops + [Idle], loads := s.loads + ToLoad(s.modules, 0))
  {
    RestingIsFree(s);
    ReachableInv(s);
    var i, t := |s.ops|, Next(s, LoadAll);
    assert t.ops[i := Idle] == s.ops + [Idle];
    LoadsFrom(t, i, 0, outcomes);
    var n: nat :| Ends(t, i, 0, outcomes, n);
    assert Loading(t, i, outcomes, n).global == s.global;
  }
}
