/** vendor_kernel_init() from the default IPC namespace on, with the NSFS lifecycle and
    task-exit hooks it installs on the way. */
module VendorInit {
  import opened Options
  import opened HookEngine
  import opened ShadowHijack

  /** Which hooks belong to which array; every hook is named by its index. */
  datatype Layout = Layout(
    nsfs: seq<nat>, exit: seq<nat>, core: seq<nat>, ipc: seq<nat>,
    procLifecycle: seq<nat>,   // those of the two procfs lifecycle hooks that this kernel needs
    procfs: seq<nat>, userns: seq<nat>,
    cloneHooks: seq<nat>,      // core hooks without which nothing may start,
    nativeHooks: seq<nat>,     // ... with these if the kernel has user namespaces of its own,
    credHooks: seq<nat>)       // ... and these if it has not

  /** Where an initialisation stopped. */
  datatype Failure = IpcDefault | Overlay | NsfsLifecycle | ExitHooks | CoreHooks | NotReady | IpcHooks

  /** What the rest of the system answers during one initialisation. */
  datatype Answers = Answers(
    ipcOk: bool, overlayOk: bool,
    kernel: seq<Kernel>,       // for each hook
    memory: bool,              // registry nodes can be allocated
    pins: bool,                // an NSFS pin exists when the lifecycle is taken down again
    nativeUserns: bool)

  predicate Disjoint(a: seq<nat>, b: seq<nat>) {
    forall i, j | 0 <= i < |a| && 0 <= j < |b| :: a[i] != b[j]
  }

  /** The hooks that vendor_kernel_required_lifecycle_hooks_ready() asks for. */
  function Required(l: Layout, nativeUserns: bool): seq<nat> {
    l.cloneHooks + if nativeUserns then l.nativeHooks else l.credHooks
  }

  /** The required hooks are all in the core array. */
  predicate RequiredAreCore(l: Layout) {
    forall native: bool, i: nat | i < |Required(l, native)| :: Required(l, native)[i] in l.core
  }

  /** The arrays do not share hooks. */
  predicate Separate(l: Layout) {
    && RequiredSeparate(l) && Disjoint(l.nsfs + l.exit + l.core + l.ipc, l.procLifecycle + l.procfs + l.userns)
    && Disjoint(l.procLifecycle, l.procfs) && Disjoint(l.procLifecycle + l.procfs, l.userns)
  }

  /** Neither do those that a failed initialisation must leave alone or clean up. */
  predicate RequiredSeparate(l: Layout) {
    && Disjoint(l.nsfs, l.exit) && Disjoint(l.nsfs, l.core) && Disjoint(l.nsfs, l.ipc)
    && (forall i, j | 0 <= i < j < |l.exit| :: l.exit[i] != l.exit[j])
    && Disjoint(l.exit, l.core) && Disjoint(l.exit, l.ipc) && Disjoint(l.core, l.ipc)
  }

  predicate InRange(n: nat, l: Layout) {
    && (forall i | 0 <= i < |l.nsfs| :: l.nsfs[i] < n) && (forall i | 0 <= i < |l.exit| :: l.exit[i] < n)
    && (forall i | 0 <= i < |l.core| :: l.core[i] < n) && (forall i | 0 <= i < |l.ipc| :: l.ipc[i] < n)
    && (forall i | 0 <= i < |l.procLifecycle| :: l.procLifecycle[i] < n)
    && (forall i | 0 <= i < |l.procfs| :: l.procfs[i] < n) && (forall i | 0 <= i < |l.userns| :: l.userns[i] < n)
  }

  /** No hook of `list` redirects anything. */
  predicate Quiet(hooks: seq<Hook>, list: seq<nat>) {
    forall i | 0 <= i < |list| :: list[i] < |hooks| ==> !hooks[list[i]].armed
  }

  /** No hook of `list` from place `n` on redirects anything. */
  predicate QuietFrom(hooks: seq<Hook>, list: seq<nat>, n: int) {
    forall i | 0 <= i < |list| && n <= i :: list[i] < |hooks| ==> !hooks[list[i]].armed
  }

  /** Every hook of `list` redirects and has its return probe. */
  predicate Working(hooks: seq<Hook>, list: seq<nat>) {
    forall i | 0 <= i < |list| :: list[i] < |hooks| && hooks[list[i]].armed && hooks[list[i]].retprobeInstalled
  }

  /** No exit, core or IPC hook is left, and the NSFS hooks work or are gone. */
  predicate Clean(hooks: seq<Hook>, l: Layout, nsfsActive: bool) {
    && Quiet(hooks, l.exit) && Quiet(hooks, l.core) && Quiet(hooks, l.ipc)
    && (if nsfsActive then Working(hooks, l.nsfs) else Quiet(hooks, l.nsfs))
  }

  /** The hooks outside `list` are the same. */
  predicate Outside(a: seq<Hook>, b: seq<Hook>, list: seq<nat>) {
    |a| == |b| && forall h | 0 <= h < |a| && h !in list :: b[h] == a[h]
  }

  /** `b` has every redirect and every return probe of `a`. */
  predicate Grown(a: seq<Hook>, b: seq<Hook>) {
    |a| == |b| && forall h | 0 <= h < |a| ::
      (a[h].armed ==> b[h].armed) && (a[h].retprobeInstalled ==> b[h].retprobeInstalled)
  }

  // ------------------------------------------------------------------ when it succeeds

  /** No installation of `list` fails, though some may answer -ENOENT. */
  predicate NoFailure(hooks: seq<Hook>, list: seq<nat>, kernel: seq<Kernel>) {
    forall i | 0 <= i < |list| :: list[i] < |hooks| == |kernel| ==> !CodeOf(hooks[list[i]], kernel[list[i]]).Failed?
  }

  /** Every installation of `list` answers 0. */
  predicate AllDone(hooks: seq<Hook>, list: seq<nat>, kernel: seq<Kernel>) {
    forall i | 0 <= i < |list| :: list[i] < |hooks| == |kernel| ==> CodeOf(hooks[list[i]], kernel[list[i]]).Done?
  }

  /** Every hook of `list` ends up installed, with its return probe. */
  predicate AllLive(hooks: seq<Hook>, list: seq<nat>, kernel: seq<Kernel>) {
    forall i | 0 <= i < |list| :: list[i] < |hooks| == |kernel| ==>
      var h := Landed(hooks[list[i]], kernel[list[i]]); h.installed && h.retprobeInstalled
  }

  /** Where an initialisation fails, if it does, told from the hooks as they are before it and
      what the system answers. */
  function Outcome(hooks: seq<Hook>, l: Layout, nsfsActive: bool, a: Answers): Option<Failure> {
    if !a.ipcOk then Some(IpcDefault)
    else if !a.overlayOk then Some(Overlay)
    else if !nsfsActive && !AllLive(hooks, l.nsfs, a.kernel) then Some(NsfsLifecycle)
    else if !AllDone(hooks, l.exit, a.kernel) then Some(ExitHooks)
    else if CoreOutcome(hooks, l, a).Some? then CoreOutcome(hooks, l, a)
    else if !NoFailure(hooks, l.ipc, a.kernel) then Some(IpcHooks)
    else None
  }

  /** ... with the core hooks and those among them that are required, or with the IPC hooks. */
  function CoreOutcome(hooks: seq<Hook>, l: Layout, a: Answers): Option<Failure> {
    if !NoFailure(hooks, l.core, a.kernel) then Some(CoreHooks)
    else if !AllLive(hooks, Required(l, a.nativeUserns), a.kernel) then Some(NotReady)
    else None
  }

  /** Where every answer is favourable, everything is loaded. */
  lemma AllIsWell(hooks: seq<Hook>, l: Layout, nsfsActive: bool, a: Answers)
    requires a.ipcOk && a.overlayOk && |a.kernel| == |hooks|
    requires forall h | 0 <= h < |hooks| :: a.kernel[h] == Kernel(true, Done, Done)
    requires forall h | 0 <= h < |hooks| :: hooks[h].installed ==> hooks[h].retprobeInstalled
    ensures Outcome(hooks, l, nsfsActive, a).None?
  {
    forall h | 0 <= h < |hooks|
      ensures CodeOf(hooks[h], a.kernel[h]).Done? && Landed(hooks[h], a.kernel[h]).retprobeInstalled
    {
    }
  }

  /** What happens to other hooks does not change what the installations of `other` answer. */
  lemma SameHooksSameCodes(x: seq<Hook>, y: seq<Hook>, list: seq<nat>, other: seq<nat>, kernel: seq<Kernel>)
    requires Outside(x, y, list) && Disjoint(list, other)
    ensures NoFailure(x, other, kernel) == NoFailure(y, other, kernel)
    ensures AllDone(x, other, kernel) == AllDone(y, other, kernel)
    ensures AllLive(x, other, kernel) == AllLive(y, other, kernel)
  {
    forall i | 0 <= i < |other| && other[i] < |x| ensures y[other[i]] == x[other[i]] {
      assert other[i] !in list;
    }
  }

  lemma SameCoreOutcome(x: seq<Hook>, y: seq<Hook>, list: seq<nat>, l: Layout, a: Answers)
    requires Outside(x, y, list) && Disjoint(list, l.core) && RequiredAreCore(l)
    ensures CoreOutcome(x, l, a) == CoreOutcome(y, l, a)
  {
    SameHooksSameCodes(x, y, list, l.core, a.kernel);
    var r := Required(l, a.nativeUserns);
    forall i, j | 0 <= i < |list| && 0 <= j < |r| ensures list[i] != r[j] {
      var k :| 0 <= k < |l.core| && l.core[k] == r[j];
    }
    SameHooksSameCodes(x, y, list, r, a.kernel);
  }

  // ------------------------------------------------------------------ what the passes do

  lemma {:induction false} InstalledAgrees(s: State, list: seq<nat>, ks: seq<Kernel>, n: nat)
    requires Known(s, list) && n <= |list| == |ks| && Agree(s.hooks)
    ensures Agree(InstalledAll(s, list, ks, n).hooks)
    ensures Outside(s.hooks, InstalledAll(s, list, ks, n).hooks, list)
    ensures Grown(s.hooks, InstalledAll(s, list, ks, n).hooks)
  {
    if n > 0 {
      InstalledAgrees(s, list, ks, n - 1);
      assert list[n - 1] in list;
    }
  }

  lemma OutsideKeeps(a: seq<Hook>, b: seq<Hook>, list: seq<nat>, other: seq<nat>)
    requires Outside(a, b, list) && Disjoint(list, other)
    ensures Quiet(a, other) ==> Quiet(b, other)
    ensures Working(a, other) ==> Working(b, other)
  {
    forall i | 0 <= i < |other| && other[i] < |a| ensures b[other[i]] == a[other[i]] {
      assert other[i] !in list;
    }
  }

  /** What is outside all of `list` and `other`. */
  lemma OutsideBoth(a: seq<Hook>, b: seq<Hook>, c: seq<Hook>, list: seq<nat>, other: seq<nat>)
    requires Outside(a, b, list) && Outside(b, c, other)
    ensures Outside(a, c, list + other)
    ensures (forall h | h in other :: h in list) ==> Outside(a, c, list)
  {
  }

  lemma GrownKeeps(a: seq<Hook>, b: seq<Hook>, list: seq<nat>)
    requires Grown(a, b)
    ensures Working(a, list) ==> Working(b, list)
  {
  }

  /** What one installation pass means for the hooks. */
  lemma PassMeans(s: State, list: seq<nat>, ks: seq<Kernel>, n: nat)
    requires Known(s, list) && n <= |list| == |ks| && Agree(s.hooks)
    ensures var t := InstalledAll(s, list, ks, n);
            && Agree(t.hooks) && Outside(s.hooks, t.hooks, list) && Grown(s.hooks, t.hooks)
            && (Successes(s, list, ks, n) == |list| ==> forall m | 0 <= m < |list| :: t.hooks[list[m]].armed)
  {
    InstalledAgrees(s, list, ks, n);
    AllSucceeded(s, list, ks, n);
    if Successes(s, list, ks, n) == |list| {
      forall m | 0 <= m < |list| ensures InstalledAll(s, list, ks, n).hooks[list[m]].armed {
        InstalledAllDone(s, list, ks, m, n);
      }
    }
  }

  /** The pass answers 0 exactly if no hook fails, which can be told from the hooks before it. */
  lemma PassAnswers(s: State, list: seq<nat>, kernel: seq<Kernel>, code: Code, done: nat)
    requires Known(s, list) && |kernel| == |s.hooks| && PassEnded(s, list, Kernels(kernel, list), code, done)
    ensures code.Done? <==> NoFailure(s.hooks, list, kernel)
  {
    if code.Done? {
      forall m | 0 <= m < |list| ensures !CodeOf(s.hooks[list[m]], kernel[list[m]]).Failed? {
        CodesByHook(s, list, kernel, m);
      }
    } else {
      CodesByHook(s, list, kernel, done - 1);
    }
  }

  /** It counts all hooks exactly if all succeed. */
  lemma PassCounts(s: State, list: seq<nat>, kernel: seq<Kernel>, code: Code, done: nat)
    requires Known(s, list) && |kernel| == |s.hooks| && PassEnded(s, list, Kernels(kernel, list), code, done)
    ensures Successes(s, list, Kernels(kernel, list), done) == |list| <==> AllDone(s.hooks, list, kernel)
  {
    AllSucceeded(s, list, Kernels(kernel, list), done);
    forall m | 0 <= m < |list|
      ensures CodeAt(s, list, Kernels(kernel, list), m) == CodeOf(s.hooks[list[m]], kernel[list[m]])
    {
      CodesByHook(s, list, kernel, m);
    }
  }

  // ------------------------------------------------------------------ how far a pass gets

  /** Every installation of `list` lets a pass go on: behind an answer of 0 always, and behind
      -ENOENT if it is not strict. */
  predicate GoesOn(was: seq<Hook>, list: seq<nat>, kernel: seq<Kernel>, strict: bool) {
    if strict then AllDone(was, list, kernel) else NoFailure(was, list, kernel)
  }

  /** A pass comes to hook `h`, told from the hooks before it. */
  predicate Reached(was: seq<Hook>, list: seq<nat>, kernel: seq<Kernel>, strict: bool, h: nat) {
    exists j | 0 <= j < |list| :: list[j] == h && GoesOn(was, list[..j], kernel, strict)
  }

  /** The hooks of `list` after a pass: each that it comes to is as its own installation leaves it. */
  predicate Taken(was: seq<Hook>, now: seq<Hook>, list: seq<nat>, kernel: seq<Kernel>, strict: bool) {
    && |was| == |now| == |kernel|
    && forall h | 0 <= h < |was| && h in list ::
         now[h] == if Reached(was, list, kernel, strict, h) then Landed(was[h], kernel[h]) else was[h]
  }

  /** Every hook of `list` is as its own installation leaves it. */
  predicate Lands(was: seq<Hook>, now: seq<Hook>, list: seq<nat>, kernel: seq<Kernel>) {
    && |was| == |now| == |kernel|
    && forall h | 0 <= h < |was| && h in list :: now[h] == Landed(was[h], kernel[h])
  }

  /** The hooks of `list` are the same. */
  predicate Untouched(was: seq<Hook>, now: seq<Hook>, list: seq<nat>) {
    |was| == |now| && forall h | 0 <= h < |was| && h in list :: now[h] == was[h]
  }

  lemma GoesOnBefore(was: seq<Hook>, list: seq<nat>, kernel: seq<Kernel>, strict: bool, i: nat, j: nat)
    requires i <= j <= |list| && GoesOn(was, list[..j], kernel, strict)
    ensures GoesOn(was, list[..i], kernel, strict)
  {
    forall k | 0 <= k < i ensures list[..i][k] == list[..j][k] {
    }
  }

  /** A pass that ended behind place `done` came to the hooks before that place. */
  lemma EndsBehind(was: seq<Hook>, list: seq<nat>, kernel: seq<Kernel>, strict: bool, done: nat, h: nat)
    requires done <= |list| && (done > 0 ==> GoesOn(was, list[..done - 1], kernel, strict))
    requires done < |list| ==> !GoesOn(was, list[..done], kernel, strict)
    ensures Reached(was, list, kernel, strict, h) <==> h in list[..done]
  {
    hide GoesOn;
    if h in list[..done] {
      var j :| 0 <= j < done && list[j] == h;
      GoesOnBefore(was, list, kernel, strict, j, done - 1);
    }
    if Reached(was, list, kernel, strict, h) {
      var j :| 0 <= j < |list| && list[j] == h && GoesOn(was, list[..j], kernel, strict);
      if j >= done {
        GoesOnBefore(was, list, kernel, strict, done, j);
      }
      assert h == list[..done][j];
    }
  }

  lemma GroupTaken(s: State, list: seq<nat>, kernel: seq<Kernel>, code: Code, done: nat)
    requires Known(s, list) && |kernel| == |s.hooks| && PassEnded(s, list, Kernels(kernel, list), code, done)
    ensures Taken(s.hooks, InstalledAll(s, list, Kernels(kernel, list), done).hooks, list, kernel, false)
    ensures code.Done? ==> Lands(s.hooks, InstalledAll(s, list, Kernels(kernel, list), done).hooks, list, kernel)
  {
    PassByHook(s, list, kernel, done);
    GroupEnd(s, list, kernel, code, done);
    hide InstalledAll, PassEnded, GoesOn;
    forall h: nat {
      EndsBehind(s.hooks, list, kernel, false, done, h);
    }
    assert code.Done? ==> list[..done] == list;
  }

  lemma GroupEnd(s: State, list: seq<nat>, kernel: seq<Kernel>, code: Code, done: nat)
    requires Known(s, list) && |kernel| == |s.hooks| && PassEnded(s, list, Kernels(kernel, list), code, done)
    ensures done > 0 ==> GoesOn(s.hooks, list[..done - 1], kernel, false)
    ensures done < |list| ==> !GoesOn(s.hooks, list[..done], kernel, false)
    ensures code.Done? ==> done == |list|
  {
    forall m | 0 <= m < |list|
      ensures CodeAt(s, list, Kernels(kernel, list), m) == CodeOf(s.hooks[list[m]], kernel[list[m]])
    {
      CodesByHook(s, list, kernel, m);
    }
    if done < |list| {
      assert list[..done][done - 1] == list[done - 1];
    }
  }

  /** What a pass over other hooks leaves as it was. */
  lemma TakenKept(a: seq<Hook>, b: seq<Hook>, c: seq<Hook>, list: seq<nat>, kernel: seq<Kernel>, strict: bool,
      other: seq<nat>)
    requires Outside(b, c, other) && Disjoint(other, list)
    ensures Taken(a, b, list, kernel, strict) ==> Taken(a, c, list, kernel, strict)
    ensures Lands(a, b, list, kernel) ==> Lands(a, c, list, kernel)
    ensures Untouched(a, b, list) ==> Untouched(a, c, list)
  {
    hide Reached;
    assert forall h | h in list :: h !in other;
  }

  lemma TakenLater(a: seq<Hook>, b: seq<Hook>, c: seq<Hook>, list: seq<nat>, kernel: seq<Kernel>, strict: bool,
      other: seq<nat>)
    requires Outside(a, b, other) && Disjoint(other, list)
    ensures Taken(b, c, list, kernel, strict) ==> Taken(a, c, list, kernel, strict)
    ensures Lands(b, c, list, kernel) ==> Lands(a, c, list, kernel)
    ensures Untouched(b, c, list) ==> Untouched(a, c, list)
  {
    assert forall h | h in list :: h !in other;
    forall h: nat ensures Reached(a, list, kernel, strict, h) == Reached(b, list, kernel, strict, h) {
      forall j | 0 <= j < |list| ensures GoesOn(a, list[..j], kernel, strict) == GoesOn(b, list[..j], kernel, strict) {
        assert Disjoint(other, list[..j]);
        SameHooksSameCodes(a, b, other, list[..j], kernel);
      }
    }
  }

  /** The first `i` hooks of `list` have been installed, whatever each of them answered. */
  predicate OneByOne(was: seq<Hook>, now: seq<Hook>, list: seq<nat>, kernel: seq<Kernel>, i: nat) {
    && |was| == |now| == |kernel| && i <= |list| && Grown(was, now)
    && forall h | 0 <= h < |was| :: now[h] == if h in list[..i] then Landed(was[h], kernel[h]) else was[h]
  }

  lemma OneMore(was: seq<Hook>, now: seq<Hook>, list: seq<nat>, kernel: seq<Kernel>, i: nat)
    requires OneByOne(was, now, list, kernel, i) && i < |list| && list[i] < |was|
    requires AllDone(was, list[..i], kernel)
    ensures OneByOne(was, now[list[i] := Landed(now[list[i]], kernel[list[i]])], list, kernel, i + 1)
    ensures CodeOf(now[list[i]], kernel[list[i]]).Done? <==> AllDone(was, list[..i + 1], kernel)
  {
    var h := list[i];
    LandedTwice(was[h], kernel[h]);
    assert list[..i + 1] == list[..i] + [h];
    hide CodeOf;
  }

  lemma TakenOneByOne(was: seq<Hook>, now: seq<Hook>, list: seq<nat>, kernel: seq<Kernel>, i: nat)
    requires OneByOne(was, now, list, kernel, i)
    requires i > 0 ==> AllDone(was, list[..i - 1], kernel)
    requires i < |list| ==> !AllDone(was, list[..i], kernel)
    ensures Outside(was, now, list) && Taken(was, now, list, kernel, true)
  {
    forall h: nat {
      EndsBehind(was, list, kernel, true, i, h);
    }
    hide Reached, AllDone;
  }

  // ------------------------------------------------------------------ what a successful initialisation leaves

  /** The two NSFS hooks, unless they were left over, and the task-exit hooks. */
  predicate LifecycleTaken(was: seq<Hook>, now: seq<Hook>, l: Layout, nsfsActive: bool, a: Answers) {
    && (if nsfsActive then Untouched(was, now, l.nsfs) else Lands(was, now, l.nsfs, a.kernel))
    && Lands(was, now, l.exit, a.kernel)
  }

  /** All arrays that must be installed. */
  predicate RequiredTaken(was: seq<Hook>, now: seq<Hook>, l: Layout, nsfsActive: bool, a: Answers) {
    && LifecycleTaken(was, now, l, nsfsActive, a)
    && Lands(was, now, l.core, a.kernel) && Lands(was, now, l.ipc, a.kernel)
  }

  lemma LifecycleLands(x: seq<Hook>, y: seq<Hook>, z: seq<Hook>, l: Layout, nsfsActive: bool, a: Answers)
    requires Separate(l) && Outside(x, y, l.nsfs) && Outside(y, z, l.exit)
    requires if nsfsActive then y == x else Lands(x, y, l.nsfs, a.kernel) || !AllLive(x, l.nsfs, a.kernel)
    ensures Lands(y, z, l.exit, a.kernel) && (nsfsActive || Lands(x, y, l.nsfs, a.kernel)) ==>
              LifecycleTaken(x, z, l, nsfsActive, a)
  {
    hide Lands, Untouched, Outside;
    LifecycleApart(l);
    Reversed(l.nsfs, l.exit);
    TakenKept(x, y, z, l.nsfs, a.kernel, true, l.exit);
    TakenLater(x, y, z, l.exit, a.kernel, true, l.nsfs);
    if nsfsActive { SameIsUntouched(x, l.nsfs); }
  }

  lemma Reversed(a: seq<nat>, b: seq<nat>)
    requires Disjoint(a, b)
    ensures Disjoint(b, a)
  {
  }

  lemma SameIsUntouched(x: seq<Hook>, list: seq<nat>)
    ensures Untouched(x, x, list)
  {
  }

  /** The lifecycle, core and IPC hooks, one array after the other. */
  lemma RequiredLands(w: seq<Hook>, x: seq<Hook>, y: seq<Hook>, z: seq<Hook>, l: Layout, nsfsActive: bool, a: Answers)
    requires Separate(l) && LifecycleTaken(w, x, l, nsfsActive, a) && Outside(w, x, l.nsfs + l.exit)
    requires Outside(x, y, l.core) && Lands(x, y, l.core, a.kernel)
    requires Outside(y, z, l.ipc) && Lands(y, z, l.ipc, a.kernel)
    ensures RequiredTaken(w, z, l, nsfsActive, a) && Outside(w, z, RequiredHooks(l))
  {
    OutsideBoth(w, x, y, l.nsfs + l.exit, l.core);
    OutsideBoth(w, y, z, l.nsfs + l.exit + l.core, l.ipc);
    RequiredApart(l);
    hide Lands, Untouched, Outside, Disjoint, Separate;
    TakenKept(w, x, y, l.nsfs, a.kernel, true, l.core);
    TakenKept(w, y, z, l.nsfs, a.kernel, true, l.ipc);
    TakenKept(w, x, y, l.exit, a.kernel, true, l.core);
    TakenKept(w, y, z, l.exit, a.kernel, true, l.ipc);
    TakenLater(w, x, y, l.core, a.kernel, true, l.nsfs + l.exit);
    TakenKept(w, y, z, l.core, a.kernel, true, l.ipc);
    TakenLater(w, y, z, l.ipc, a.kernel, true, l.nsfs + l.exit + l.core);
  }

  lemma RequiredApart(l: Layout)
    requires RequiredSeparate(l)
    ensures Disjoint(l.core, l.nsfs) && Disjoint(l.ipc, l.nsfs) && Disjoint(l.core, l.exit) && Disjoint(l.ipc, l.exit)
    ensures Disjoint(l.nsfs + l.exit, l.core) && Disjoint(l.ipc, l.core) && Disjoint(l.nsfs + l.exit + l.core, l.ipc)
  {
  }

  /** The optional arrays, one after the other. */
  lemma OptionalLands(w: seq<Hook>, x: seq<Hook>, y: seq<Hook>, z: seq<Hook>, l: Layout, a: Answers)
    requires Separate(l)
    requires Outside(w, x, l.procLifecycle) && Taken(w, x, l.procLifecycle, a.kernel, true)
    requires Outside(x, y, l.procfs) && Taken(x, y, l.procfs, a.kernel, false)
    requires if a.nativeUserns then z == y else Outside(y, z, l.userns) && Taken(y, z, l.userns, a.kernel, false)
    ensures OptionalTaken(w, z, l, a) && Outside(w, z, OptionalHooks(l))
  {
    OutsideBoth(w, x, y, l.procLifecycle, l.procfs);
    OptionalApart(l);
    if a.nativeUserns {
      SameIsUntouched(y, l.userns);
      assert Outside(y, z, l.userns);
    }
    OutsideBoth(w, y, z, l.procLifecycle + l.procfs, l.userns);
    hide Taken, Untouched, Outside, Disjoint, Separate;
    TakenKept(w, x, y, l.procLifecycle, a.kernel, true, l.procfs);
    TakenKept(w, y, z, l.procLifecycle, a.kernel, true, l.userns);
    TakenLater(w, x, y, l.procfs, a.kernel, false, l.procLifecycle);
    TakenKept(w, y, z, l.procfs, a.kernel, false, l.userns);
    TakenLater(w, y, z, l.userns, a.kernel, false, l.procLifecycle + l.procfs);
  }

  lemma OptionalApart(l: Layout)
    requires Separate(l)
    ensures Disjoint(l.procfs, l.procLifecycle) && Disjoint(l.procLifecycle, l.procfs)
    ensures Disjoint(l.userns, l.procLifecycle) && Disjoint(l.userns, l.procfs)
    ensures Disjoint(l.procLifecycle + l.procfs, l.userns)
  {
    assert forall i | 0 <= i < |l.procLifecycle| :: (l.procLifecycle + l.procfs)[i] == l.procLifecycle[i];
    assert forall i | 0 <= i < |l.procfs| :: (l.procLifecycle + l.procfs)[|l.procLifecycle| + i] == l.procfs[i];
  }

  /** The optional hooks come after the required ones and leave them alone. */
  lemma AllLand(x: seq<Hook>, y: seq<Hook>, z: seq<Hook>, l: Layout, nsfsActive: bool, a: Answers)
    requires Separate(l) && RequiredTaken(x, y, l, nsfsActive, a) && Outside(x, y, RequiredHooks(l))
    requires OptionalTaken(y, z, l, a) && Outside(y, z, OptionalHooks(l))
    ensures RequiredTaken(x, z, l, nsfsActive, a) && OptionalTaken(x, z, l, a)
    ensures Outside(x, z, RequiredHooks(l) + OptionalHooks(l))
  {
    OutsideBoth(x, y, z, RequiredHooks(l), OptionalHooks(l));
    AllApart(l);
    hide Taken, Lands, Untouched, Outside, Disjoint, Separate, RequiredHooks, OptionalHooks;
    TakenKept(x, y, z, l.nsfs, a.kernel, true, OptionalHooks(l));
    TakenKept(x, y, z, l.exit, a.kernel, true, OptionalHooks(l));
    TakenKept(x, y, z, l.core, a.kernel, true, OptionalHooks(l));
    TakenKept(x, y, z, l.ipc, a.kernel, true, OptionalHooks(l));
    TakenLater(x, y, z, l.procLifecycle, a.kernel, true, RequiredHooks(l));
    TakenLater(x, y, z, l.procfs, a.kernel, false, RequiredHooks(l));
    TakenLater(x, y, z, l.userns, a.kernel, false, RequiredHooks(l));
  }

  lemma DisjointParts(a: seq<nat>, b: seq<nat>, c: seq<nat>)
    ensures Disjoint(a + b, c) <==> Disjoint(a, c) && Disjoint(b, c)
    ensures Disjoint(c, a + b) <==> Disjoint(c, a) && Disjoint(c, b)
  {
    assert forall i | 0 <= i < |a| :: (a + b)[i] == a[i];
    assert forall i | 0 <= i < |b| :: (a + b)[|a| + i] == b[i];
  }

  lemma AllApart(l: Layout)
    requires Separate(l)
    ensures Disjoint(OptionalHooks(l), l.nsfs) && Disjoint(OptionalHooks(l), l.exit)
    ensures Disjoint(OptionalHooks(l), l.core) && Disjoint(OptionalHooks(l), l.ipc)
    ensures Disjoint(RequiredHooks(l), l.procLifecycle) && Disjoint(RequiredHooks(l), l.procfs)
    ensures Disjoint(RequiredHooks(l), l.userns)
  {
    var r, o := RequiredHooks(l), OptionalHooks(l);
    Reversed(r, o);
    hide Disjoint;
    DisjointParts(l.nsfs + l.exit + l.core, l.ipc, o);
    DisjointParts(l.nsfs + l.exit, l.core, o);
    DisjointParts(l.nsfs, l.exit, o);
    DisjointParts(l.procLifecycle + l.procfs, l.userns, r);
    DisjointParts(l.procLifecycle, l.procfs, r);
  }

  /** The others: the two procfs lifecycle hooks one after the other up to the first that does not
      answer 0, the procfs hooks up to a failure, and so the uid and gid translation hooks, if
      the kernel has no user namespaces of its own. */
  predicate OptionalTaken(was: seq<Hook>, now: seq<Hook>, l: Layout, a: Answers) {
    && Taken(was, now, l.procLifecycle, a.kernel, true) && Taken(was, now, l.procfs, a.kernel, false)
    && (if a.nativeUserns then Untouched(was, now, l.userns) else Taken(was, now, l.userns, a.kernel, false))
  }

  function RequiredHooks(l: Layout): seq<nat> {
    l.nsfs + l.exit + l.core + l.ipc
  }

  function OptionalHooks(l: Layout): seq<nat> {
    l.procLifecycle + l.procfs + l.userns
  }

  /** With every answer favourable all optional hooks redirect, those for uids and gids exactly
      where they are needed. */
  lemma OptionalArmed(was: seq<Hook>, now: seq<Hook>, l: Layout, a: Answers)
    requires OptionalTaken(was, now, l, a) && InRange(|was|, l) && Agree(was)
    requires forall h | 0 <= h < |was| :: a.kernel[h] == Kernel(true, Done, Done)
    ensures forall h | h in l.procLifecycle + l.procfs :: now[h].armed
    ensures forall h | h in l.userns :: now[h].armed <==> !a.nativeUserns || was[h].armed
  {
    forall h: nat | h in l.procLifecycle ensures now[h].armed { GoodReaches(was, l.procLifecycle, a.kernel, true, h); }
    forall h: nat | h in l.procfs ensures now[h].armed { GoodReaches(was, l.procfs, a.kernel, false, h); }
    forall h: nat | h in l.userns ensures now[h].armed <==> !a.nativeUserns || was[h].armed {
      GoodReaches(was, l.userns, a.kernel, false, h);
    }
  }

  lemma GoodReaches(was: seq<Hook>, list: seq<nat>, kernel: seq<Kernel>, strict: bool, h: nat)
    requires |was| == |kernel| && h < |was| && h in list
    requires forall g | 0 <= g < |was| :: kernel[g] == Kernel(true, Done, Done)
    ensures Reached(was, list, kernel, strict, h) && CodeOf(was[h], kernel[h]).Done?
  {
    var j :| 0 <= j < |list| && list[j] == h;
    assert GoesOn(was, list[..j], kernel, strict);
  }

  /** Hooks that live have answered 0; and once all have, only the return probes are in doubt. */
  lemma LiveIsDone(was: seq<Hook>, list: seq<nat>, kernel: seq<Kernel>)
    requires |was| == |kernel| && forall i | 0 <= i < |list| :: list[i] < |was|
    ensures AllLive(was, list, kernel) ==> AllDone(was, list, kernel)
    ensures AllDone(was, list, kernel) ==> NoFailure(was, list, kernel)
    ensures AllDone(was, list, kernel) ==>
              (AllLive(was, list, kernel) <==>
               forall i | 0 <= i < |list| :: Landed(was[list[i]], kernel[list[i]]).retprobeInstalled)
  {
    if AllLive(was, list, kernel) {
      forall i | 0 <= i < |list| ensures CodeOf(was[list[i]], kernel[list[i]]).Done? {
        assert Landed(was[list[i]], kernel[list[i]]).installed;
      }
    }
  }

  /** After a pass in which all answered 0 the hooks work exactly if each has its return probe. */
  lemma LandsLive(was: seq<Hook>, now: seq<Hook>, list: seq<nat>, kernel: seq<Kernel>)
    requires Lands(was, now, list, kernel) && AllDone(was, list, kernel) && Agree(now)
    requires forall i | 0 <= i < |list| :: list[i] < |was|
    ensures AllLive(was, list, kernel) <==> Working(now, list)
    ensures AllLive(was, list, kernel) <==> forall i | 0 <= i < |list| :: now[list[i]].retprobeInstalled
  {
    forall i | 0 <= i < |list|
      ensures now[list[i]] == Landed(was[list[i]], kernel[list[i]]) && now[list[i]].installed
    {
      assert list[i] in list;
    }
  }

  /** The hooks of `list` have been installed one by one, up to place `i`. */
  predicate UpTo(was: seq<Hook>, now: seq<Hook>, list: seq<nat>, kernel: seq<Kernel>, i: nat) {
    && |was| == |kernel| && i <= |list| && Outside(was, now, list)
    && (forall j | 0 <= j < |list| :: list[j] < |was|)
    && (forall j | 0 <= j < i ::
          && now[list[j]].armed && CodeOf(was[list[j]], kernel[list[j]]).Done?
          && now[list[j]] == Landed(was[list[j]], kernel[list[j]]))
    && (forall j | i <= j < |list| :: now[list[j]] == was[list[j]])
  }

  lemma UpToNext(was: seq<Hook>, now: seq<Hook>, list: seq<nat>, kernel: seq<Kernel>, i: nat)
    requires UpTo(was, now, list, kernel, i) && i < |list| && Agree(was) && Quiet(was, list)
    requires forall m, n | 0 <= m < n < |list| :: list[m] != list[n]
    ensures var h := list[i];
            var next := now[h := Landed(now[h], kernel[h])];
            if CodeOf(now[h], kernel[h]).Done? then UpTo(was, next, list, kernel, i + 1)
            else Outside(was, next, list) && QuietFrom(next, list, i) && !AllDone(was, list, kernel)
  {
  }

  /** After a pass over the core hooks the required ones work exactly if they all had to. */
  lemma ReadyIsAllLive(before: seq<Hook>, after: seq<Hook>, l: Layout, a: Answers)
    requires |before| == |after| == |a.kernel| && RequiredAreCore(l) && InRange(|before|, l)
    requires forall h | h in l.core :: h < |before| && after[h] == Landed(before[h], a.kernel[h])
    ensures (forall i | 0 <= i < |Required(l, a.nativeUserns)| ::
               var h := after[Required(l, a.nativeUserns)[i]]; h.installed && h.retprobeInstalled)
       <==> AllLive(before, Required(l, a.nativeUserns), a.kernel)
  {
  }

  lemma LifecycleApart(l: Layout)
    requires Separate(l)
    ensures Disjoint(l.nsfs + l.exit, l.core) && Disjoint(l.nsfs + l.exit, l.ipc) && Disjoint(l.core, l.nsfs)
  {
  }

  /** Undoing the core and exit hooks leaves the IPC hooks quiet and the NSFS hooks as they are. */
  lemma UndoKeeps(a: seq<Hook>, b: seq<Hook>, l: Layout)
    requires Separate(l) && Fewer(a, b)
    ensures Quiet(a, l.ipc) ==> Quiet(b, l.ipc)
    ensures Outside(a, b, l.core + l.exit) && Working(a, l.nsfs) ==> Working(b, l.nsfs)
  {
    forall i | 0 <= i < |l.nsfs| ensures l.nsfs[i] !in l.core + l.exit {
      assert forall j | 0 <= j < |l.core| :: l.nsfs[i] != l.core[j];
      assert forall j | 0 <= j < |l.exit| :: l.nsfs[i] != l.exit[j];
    }
  }

  /** The NSFS hooks are nobody else's. */
  lemma NsfsKeeps(a: seq<Hook>, b: seq<Hook>, l: Layout, kernel: seq<Kernel>)
    requires Separate(l) && Outside(a, b, l.nsfs)
    ensures Quiet(a, l.exit) ==> Quiet(b, l.exit)
    ensures Quiet(a, l.core) ==> Quiet(b, l.core)
    ensures Quiet(a, l.ipc) ==> Quiet(b, l.ipc)
    ensures AllDone(a, l.exit, kernel) == AllDone(b, l.exit, kernel)
  {
    OutsideKeeps(a, b, l.nsfs, l.exit);
    OutsideKeeps(a, b, l.nsfs, l.core);
    OutsideKeeps(a, b, l.nsfs, l.ipc);
    SameHooksSameCodes(a, b, l.nsfs, l.exit, kernel);
  }

  lemma ExitKeeps(a: seq<Hook>, b: seq<Hook>, l: Layout)
    requires Separate(l) && Outside(a, b, l.exit)
    ensures Quiet(a, l.core) ==> Quiet(b, l.core)
    ensures Quiet(a, l.ipc) ==> Quiet(b, l.ipc)
    ensures Working(a, l.nsfs) ==> Working(b, l.nsfs)
  {
    OutsideKeeps(a, b, l.exit, l.core);
    OutsideKeeps(a, b, l.exit, l.ipc);
    assert forall i, j | 0 <= i < |l.exit| && 0 <= j < |l.nsfs| :: l.nsfs[j] != l.exit[i];
    OutsideKeeps(a, b, l.exit, l.nsfs);
  }

  // ------------------------------------------------------------------ the code

  class VendorKernel {
    const engine: Engine
    const layout: Layout
    var nsfsActive: bool           // vns_nsfs_hooks_active
    var nsfsStopping: bool
    var proxyStopping: bool
    var userStopping: bool
    var overlayUp: bool
    var ipcUp: bool
    var mountArmed: bool
    var enabled: bool              // vendor_kernel_enabled

    ghost predicate Valid()
      reads this, engine
    {
      && Separate(layout) && RequiredAreCore(layout) && InRange(|engine.hooks|, layout) && |layout.nsfs| == 2
      && Distinct(engine.groups) && Sound(engine.View()) && Agree(engine.hooks)
    }

    constructor (e: Engine, l: Layout)
      ensures engine == e && layout == l && !enabled && !nsfsActive && !overlayUp && !ipcUp
    {
      engine, layout := e, l;
      nsfsActive, nsfsStopping, proxyStopping, userStopping := false, false, false, false;
      overlayUp, ipcUp, mountArmed, enabled := false, false, false, false;
    }

    /** shadow_hook_remove_all(), seen from its caller. */
    method RemoveGroup(list: seq<nat>)
      requires Valid() && Known(engine.View(), list)
      modifies engine
      ensures Valid() && Quiet(engine.hooks, list)
      ensures Fewer(old(engine.hooks), engine.hooks) && Outside(old(engine.hooks), engine.hooks, list)
    {
      RemovedAllMeans(engine.View(), list, |list|);
      engine.RemoveAll(list);
    }

    /** shadow_hook_install_all(), seen from its caller. */
    method InstallGroup(list: seq<nat>, a: Answers) returns (ok: bool, count: nat)
      requires Valid() && |a.kernel| == |engine.hooks| && Known(engine.View(), list)
      modifies engine
      ensures Valid() && Outside(old(engine.hooks), engine.hooks, list) && Grown(old(engine.hooks), engine.hooks)
      ensures ok <==> NoFailure(old(engine.hooks), list, a.kernel)
      ensures count == |list| <==> AllDone(old(engine.hooks), list, a.kernel)
      ensures Taken(old(engine.hooks), engine.hooks, list, a.kernel, false)
      ensures ok ==> Lands(old(engine.hooks), engine.hooks, list, a.kernel)
    {
      ghost var s := engine.View();
      var code, n, done := engine.InstallAll(list, Kernels(a.kernel, list), a.memory);
      PassMeans(s, list, Kernels(a.kernel, list), done);
      PassAnswers(s, list, a.kernel, code, done);
      PassCounts(s, list, a.kernel, code, done);
      GroupTaken(s, list, a.kernel, code, done);
      hide Taken, Lands;
      ok, count := code.Done?, n;
    }

    /** shadow_hook_install(), seen from its caller. */
    method InstallHook(h: nat, a: Answers) returns (code: Code)
      requires Valid() && |a.kernel| == |engine.hooks| && h < |engine.hooks|
      modifies engine
      ensures Valid() && engine.hooks == old(engine.hooks)[h := Landed(old(engine.hooks)[h], a.kernel[h])]
      ensures code == CodeOf(old(engine.hooks)[h], a.kernel[h]) && (code.Done? ==> engine.hooks[h].armed)
    {
      InstalledIsLanded(engine.View(), h, a.kernel[h]);
      code := engine.Install(h, a.kernel[h]);
    }

    /** vns_nsfs_lifecycle_init(): both hooks, with their return probes, or none. */
    method NsfsInit(a: Answers) returns (ok: bool)
      requires Valid() && |a.kernel| == |engine.hooks|
      modifies engine, `nsfsActive, `nsfsStopping
      ensures Valid() && Outside(old(engine.hooks), engine.hooks, layout.nsfs)
      ensures ok <==> old(nsfsActive) || AllLive(old(engine.hooks), layout.nsfs, a.kernel)
      ensures old(nsfsActive) ==> nsfsActive && engine.hooks == old(engine.hooks)
      ensures ok && !old(nsfsActive) ==>
                && nsfsActive && !nsfsStopping && Working(engine.hooks, layout.nsfs)
                && Lands(old(engine.hooks), engine.hooks, layout.nsfs, a.kernel)
      ensures !ok ==> !nsfsActive && Quiet(engine.hooks, layout.nsfs)
    {
      hide Taken, Grown, NoFailure, Lands, AllDone, AllLive, Working;
      if nsfsActive {
        return true;
      }
      nsfsStopping := false;
      LiveIsDone(engine.hooks, layout.nsfs, a.kernel);
      var installed, count := InstallGroup(layout.nsfs, a);
      if !installed || count != 2 {
        RemoveGroup(layout.nsfs);
        return false;
      }
      LandsLive(old(engine.hooks), engine.hooks, layout.nsfs, a.kernel);
      if !engine.hooks[layout.nsfs[0]].retprobeInstalled || !engine.hooks[layout.nsfs[1]].retprobeInstalled {
        RemoveGroup(layout.nsfs);
        return false;
      }
      nsfsActive := true;
      return true;
    }

    /** vns_nsfs_lifecycle_exit(): leaves the hooks alone while an inode is pinned. */
    method NsfsExit(pins: bool)
      requires Valid()
      modifies engine, `nsfsActive
      ensures Valid() && Fewer(old(engine.hooks), engine.hooks) && Outside(old(engine.hooks), engine.hooks, layout.nsfs)
      ensures nsfsActive <==> old(nsfsActive) && pins
      ensures old(nsfsActive) && !pins ==> Quiet(engine.hooks, layout.nsfs)
      ensures !old(nsfsActive) || pins ==> engine.hooks == old(engine.hooks)
    {
      if !nsfsActive {
        return;
      }
      if pins {
        return;
      }
      RemoveGroup(layout.nsfs);
      nsfsActive := false;
    }

    /** vns_exit_hook_init(): every hook, or none; on failure what was installed is removed. */
    method ExitHookInit(a: Answers) returns (ok: bool)
      requires Valid() && |a.kernel| == |engine.hooks| && Quiet(engine.hooks, layout.exit)
      modifies engine
      ensures Valid() && Outside(old(engine.hooks), engine.hooks, layout.exit)
      ensures ok <==> AllDone(old(engine.hooks), layout.exit, a.kernel)
      ensures if ok
              then && (forall i | 0 <= i < |layout.exit| :: engine.hooks[layout.exit[i]].armed)
                   && Lands(old(engine.hooks), engine.hooks, layout.exit, a.kernel)
              else Quiet(engine.hooks, layout.exit)
    {
      ghost var was := engine.hooks;
      var list := layout.exit;
      var i := 0;
      while i < |list|
        invariant i <= |list| && Valid() && UpTo(was, engine.hooks, list, a.kernel, i)
      {
        UpToNext(was, engine.hooks, list, a.kernel, i);
        var code := InstallHook(list[i], a);
        if !code.Done? {
          RollBackExitHooks(i);
          return false;
        }
        i := i + 1;
      }
      return true;
    }

    /** The error path of vns_exit_hook_init(): removes the hooks before place `i`, last first. */
    method RollBackExitHooks(n: nat)
      requires Valid() && n <= |layout.exit| && QuietFrom(engine.hooks, layout.exit, n)
      modifies engine
      ensures Valid() && Outside(old(engine.hooks), engine.hooks, layout.exit)
      ensures Quiet(engine.hooks, layout.exit)
    {
      var i := n;
      while i > 0
        invariant 0 <= i <= |layout.exit| && Valid() && Outside(old(engine.hooks), engine.hooks, layout.exit)
        invariant QuietFrom(engine.hooks, layout.exit, i)
      {
        i := i - 1;
        engine.Remove(layout.exit[i]);
      }
    }

    /** vns_exit_hook_exit(). */
    method ExitHookExit()
      requires Valid()
      modifies engine
      ensures Valid() && Quiet(engine.hooks, layout.exit)
      ensures Fewer(old(engine.hooks), engine.hooks) && Outside(old(engine.hooks), engine.hooks, layout.exit)
      ensures engine.groups == old(engine.groups)
    {
      var i := |layout.exit|;
      while i > 0
        invariant 0 <= i <= |layout.exit| && Valid() && engine.groups == old(engine.groups)
        invariant Fewer(old(engine.hooks), engine.hooks) && Outside(old(engine.hooks), engine.hooks, layout.exit)
        invariant forall j | i <= j < |layout.exit| :: !engine.hooks[layout.exit[j]].armed
      {
        i := i - 1;
        engine.Remove(layout.exit[i]);
      }
    }

    /** vendor_kernel_required_lifecycle_hooks_ready(). */
    method RequiredReady(nativeUserns: bool) returns (ready: bool)
      requires Valid()
      ensures ready <==> forall i | 0 <= i < |Required(layout, nativeUserns)| ::
                var h := engine.hooks[Required(layout, nativeUserns)[i]]; h.installed && h.retprobeInstalled
    {
      var list := Required(layout, nativeUserns);
      for i := 0 to |list|
        invariant forall j | 0 <= j < i :: engine.hooks[list[j]].installed && engine.hooks[list[j]].retprobeInstalled
      {
        if !engine.hooks[list[i]].installed || !engine.hooks[list[i]].retprobeInstalled {
          return false;
        }
      }
      return true;
    }

    /** vns_procfs_compat_lifecycle_init(): best effort, the second hook only after the first. */
    method ProcLifecycleInit(a: Answers)
      requires Valid() && |a.kernel| == |engine.hooks|
      modifies engine
      ensures Valid() && Grown(old(engine.hooks), engine.hooks)
      ensures Outside(old(engine.hooks), engine.hooks, layout.procLifecycle)
      ensures Taken(old(engine.hooks), engine.hooks, layout.procLifecycle, a.kernel, true)
    {
      ghost var was := engine.hooks;
      var list := layout.procLifecycle;
      var i := 0;
      while i < |list|
        invariant i <= |list| && Valid() && OneByOne(was, engine.hooks, list, a.kernel, i)
        invariant AllDone(was, list[..i], a.kernel)
      {
        OneMore(was, engine.hooks, list, a.kernel, i);
        var code := InstallHook(list[i], a);
        i := i + 1;
        if !code.Done? {
          break;
        }
      }
      TakenOneByOne(was, engine.hooks, list, a.kernel, i);
    }

    /** The common undo of the later failures. */
    method UndoHooks(pins: bool)
      requires Valid() && nsfsActive
      modifies engine, `nsfsActive, `overlayUp, `ipcUp
      ensures Valid() && Fewer(old(engine.hooks), engine.hooks)
      ensures Quiet(engine.hooks, layout.core) && Quiet(engine.hooks, layout.exit)
      ensures nsfsActive == pins
      ensures if pins then Outside(old(engine.hooks), engine.hooks, layout.core + layout.exit)
        else Quiet(engine.hooks, layout.nsfs)
      ensures !overlayUp && !ipcUp
    {
      RemoveGroup(layout.core);
      NsfsExit(pins);
      ExitHookExit();
      overlayUp := false;
      ipcUp := false;
    }

    /** The same, seen from where nothing of the IPC array is installed. */
    method UndoAll(pins: bool)
      requires Valid() && nsfsActive && Working(engine.hooks, layout.nsfs) && Quiet(engine.hooks, layout.ipc)
      modifies engine, `nsfsActive, `overlayUp, `ipcUp
      ensures Valid() && |engine.hooks| == |old(engine.hooks)|
      ensures !overlayUp && !ipcUp && nsfsActive == pins && Clean(engine.hooks, layout, nsfsActive)
    {
      ghost var before := engine.hooks;
      UndoHooks(pins);
      UndoKeeps(before, engine.hooks, layout);
    }

    /** The core hooks, and whether those among them that are required work. */
    method InstallCore(a: Answers) returns (failure: Option<Failure>)
      requires Valid() && |a.kernel| == |engine.hooks| && nsfsActive && Working(engine.hooks, layout.nsfs)
      requires Quiet(engine.hooks, layout.core) && Quiet(engine.hooks, layout.ipc)
      modifies engine, `nsfsActive, `overlayUp, `ipcUp
      ensures Valid() && failure == CoreOutcome(old(engine.hooks), layout, a)
      ensures failure.None? ==>
                && Outside(old(engine.hooks), engine.hooks, layout.core)
                && nsfsActive && overlayUp == old(overlayUp) && ipcUp == old(ipcUp)
                && Working(engine.hooks, Required(layout, a.nativeUserns))
                && Lands(old(engine.hooks), engine.hooks, layout.core, a.kernel)
      ensures |engine.hooks| == |old(engine.hooks)|
      ensures failure.Some? ==> !overlayUp && !ipcUp && nsfsActive == a.pins && Clean(engine.hooks, layout, nsfsActive)
    {
      ghost var before := engine.hooks;
      var core, _ := InstallGroup(layout.core, a);
      OutsideKeeps(before, engine.hooks, layout.core, layout.ipc);
      assert forall i, j | 0 <= i < |layout.core| && 0 <= j < |layout.nsfs| :: layout.nsfs[j] != layout.core[i];
      OutsideKeeps(before, engine.hooks, layout.core, layout.nsfs);
      if !core {
        UndoAll(a.pins);
        return Some(CoreHooks);
      }
      ReadyIsAllLive(before, engine.hooks, layout, a);
      var ready := RequiredReady(a.nativeUserns);
      if !ready {
        UndoAll(a.pins);
        return Some(NotReady);
      }
      return None;
    }

    /** The IPC hooks, the last that can fail. */
    method InstallIpc(a: Answers) returns (ok: bool)
      requires Valid() && |a.kernel| == |engine.hooks| && nsfsActive && Working(engine.hooks, layout.nsfs)
      modifies engine, `nsfsActive, `overlayUp, `ipcUp
      ensures Valid() && ok == NoFailure(old(engine.hooks), layout.ipc, a.kernel)
      ensures |engine.hooks| == |old(engine.hooks)|
      ensures ok ==>
                && Grown(old(engine.hooks), engine.hooks) && Outside(old(engine.hooks), engine.hooks, layout.ipc)
                && Lands(old(engine.hooks), engine.hooks, layout.ipc, a.kernel)
                && nsfsActive && overlayUp == old(overlayUp) && ipcUp == old(ipcUp)
      ensures !ok ==> !overlayUp && !ipcUp && nsfsActive == a.pins && Clean(engine.hooks, layout, nsfsActive)
    {
      ghost var before := engine.hooks;
      var ipc, _ := InstallGroup(layout.ipc, a);
      ok := ipc;
      GrownKeeps(before, engine.hooks, layout.nsfs);
      if !ok {
        ghost var between := engine.hooks;
        RemoveGroup(layout.ipc);
        assert forall i, j | 0 <= i < |layout.ipc| && 0 <= j < |layout.nsfs| :: layout.nsfs[j] != layout.ipc[i];
        OutsideKeeps(between, engine.hooks, layout.ipc, layout.nsfs);
        UndoAll(a.pins);
      }
    }

    /** The undo of a failure of the task-exit hooks. */
    method UndoNsfs(pins: bool)
      requires Valid() && nsfsActive && Clean(engine.hooks, layout, nsfsActive)
      modifies engine, `nsfsActive, `overlayUp, `ipcUp
      ensures Valid() && Outside(old(engine.hooks), engine.hooks, layout.nsfs)
      ensures !overlayUp && !ipcUp && nsfsActive == pins && Clean(engine.hooks, layout, nsfsActive)
    {
      ghost var before := engine.hooks;
      NsfsExit(pins);
      OutsideKeeps(before, engine.hooks, layout.nsfs, layout.exit);
      OutsideKeeps(before, engine.hooks, layout.nsfs, layout.core);
      OutsideKeeps(before, engine.hooks, layout.nsfs, layout.ipc);
      overlayUp := false;
      ipcUp := false;
    }

    /** The NSFS lifecycle and the task-exit hooks, which undo no hook array but their own. */
    method InstallLifecycle(a: Answers) returns (failure: Option<Failure>)
      requires Valid() && |a.kernel| == |engine.hooks| && Clean(engine.hooks, layout, nsfsActive)
      modifies engine, `nsfsActive, `nsfsStopping, `overlayUp, `ipcUp
      ensures Valid() && |engine.hooks| == |old(engine.hooks)|
      ensures Outside(old(engine.hooks), engine.hooks, layout.nsfs + layout.exit)
      ensures failure == if !old(nsfsActive) && !AllLive(old(engine.hooks), layout.nsfs, a.kernel) then Some(NsfsLifecycle)
                         else if !AllDone(old(engine.hooks), layout.exit, a.kernel) then Some(ExitHooks) else None
      ensures failure.None? ==>
                && nsfsActive && Working(engine.hooks, layout.nsfs) && overlayUp == old(overlayUp) && ipcUp == old(ipcUp)
                && Quiet(engine.hooks, layout.core) && Quiet(engine.hooks, layout.ipc)
                && LifecycleTaken(old(engine.hooks), engine.hooks, layout, old(nsfsActive), a)
      ensures failure.Some? ==>
                && !overlayUp && !ipcUp && (nsfsActive <==> failure == Some(ExitHooks) && a.pins)
                && Clean(engine.hooks, layout, nsfsActive)
    {
      hide Lands, LifecycleTaken, AllLive, AllDone, Working;
      ghost var before := engine.hooks;
      var nsfs := NsfsInit(a);
      NsfsKeeps(before, engine.hooks, layout, a.kernel);
      if !nsfs {
        overlayUp := false;
        ipcUp := false;
        return Some(NsfsLifecycle);
      }
      ghost var between := engine.hooks;
      var exits := ExitHookInit(a);
      ExitKeeps(between, engine.hooks, layout);
      OutsideBoth(before, between, engine.hooks, layout.nsfs, layout.exit);
      LifecycleLands(before, between, engine.hooks, layout, old(nsfsActive), a);
      if !exits {
        between := engine.hooks;
        UndoNsfs(a.pins);
        OutsideBoth(before, between, engine.hooks, layout.nsfs + layout.exit, layout.nsfs);
        return Some(ExitHooks);
      }
      return None;
    }

    /** From the NSFS lifecycle to the IPC hooks: everything that must work, or nothing. */
    method InstallRequired(a: Answers) returns (failure: Option<Failure>)
      requires Valid() && |a.kernel| == |engine.hooks| && Clean(engine.hooks, layout, nsfsActive)
      requires a.ipcOk && a.overlayOk
      modifies engine, `nsfsActive, `nsfsStopping, `overlayUp, `ipcUp
      ensures Valid() && |engine.hooks| == |old(engine.hooks)|
      ensures failure == Outcome(old(engine.hooks), layout, old(nsfsActive), a)
      ensures failure.None? ==>
                && nsfsActive && Working(engine.hooks, layout.nsfs)
                && Working(engine.hooks, Required(layout, a.nativeUserns))
                && overlayUp == old(overlayUp) && ipcUp == old(ipcUp)
                && RequiredTaken(old(engine.hooks), engine.hooks, layout, old(nsfsActive), a)
                && Outside(old(engine.hooks), engine.hooks, RequiredHooks(layout))
      ensures failure.Some? ==>
                && !overlayUp && !ipcUp && (nsfsActive <==> failure != Some(NsfsLifecycle) && a.pins)
                && Clean(engine.hooks, layout, nsfsActive)
    {
      hide Clean, Working, Outside, Grown, NoFailure, AllLive, AllDone, Lands, LifecycleTaken, RequiredTaken;
      ghost var before := engine.hooks;
      failure := InstallLifecycle(a);
      if failure.Some? {
        return;
      }
      LifecycleApart(layout);
      SameCoreOutcome(before, engine.hooks, layout.nsfs + layout.exit, layout, a);
      SameHooksSameCodes(before, engine.hooks, layout.nsfs + layout.exit, layout.ipc, a.kernel);
      ghost var lifecycle := engine.hooks;
      ghost var between := engine.hooks;
      failure := InstallCore(a);
      if failure.Some? {
        return;
      }
      OutsideKeeps(between, engine.hooks, layout.core, layout.nsfs);
      SameHooksSameCodes(between, engine.hooks, layout.core, layout.ipc, a.kernel);
      between := engine.hooks;
      var ipc := InstallIpc(a);
      if !ipc {
        return Some(IpcHooks);
      }
      GrownKeeps(between, engine.hooks, layout.nsfs);
      GrownKeeps(between, engine.hooks, Required(layout, a.nativeUserns));
      RequiredLands(before, lifecycle, between, engine.hooks, layout, old(nsfsActive), a);
    }

    /** vendor_kernel_init(). */
    method Init(a: Answers) returns (failure: Option<Failure>)
      requires Valid() && |a.kernel| == |engine.hooks|
      requires !enabled ==> !overlayUp && !ipcUp
      requires !enabled ==> Clean(engine.hooks, layout, nsfsActive)
      modifies engine, this
      ensures Valid() && |engine.hooks| == |old(engine.hooks)|
      // which failure, if any
      ensures failure == if old(enabled) then None else Outcome(old(engine.hooks), layout, old(nsfsActive), a)
      // already loaded: nothing happens
      ensures old(enabled) ==> enabled && engine.hooks == old(engine.hooks)
      // loaded: the required hooks work and the gates are open
      ensures failure.None? ==> enabled
      ensures failure.None? && !old(enabled) ==>
                && overlayUp && ipcUp && nsfsActive && Working(engine.hooks, layout.nsfs)
                  && Working(engine.hooks, Required(layout, a.nativeUserns))
                && !proxyStopping && !userStopping && mountArmed
      // ... and every hook of every array is as the pass that came to it leaves it
      ensures failure.None? && !old(enabled) ==>
                && RequiredTaken(old(engine.hooks), engine.hooks, layout, old(nsfsActive), a)
                && OptionalTaken(old(engine.hooks), engine.hooks, layout, a)
                && Outside(old(engine.hooks), engine.hooks, RequiredHooks(layout) + OptionalHooks(layout))
      // failed: nothing is left, except NSFS hooks that must outlive a pin
      ensures failure.Some? ==>
                !enabled && !overlayUp && !ipcUp && Clean(engine.hooks, layout, nsfsActive)
      // the NSFS hooks: under a pin they stay if they were reached; without one they stay only
      // if they were left over before and the failure came first
      ensures failure.Some? ==>
                (nsfsActive <==> if a.ipcOk && a.overlayOk
                                 then a.pins && (old(nsfsActive) || AllLive(old(engine.hooks), layout.nsfs, a.kernel))
                                 else old(nsfsActive))
    {
      if enabled {
        return None;
      }
      if !a.ipcOk {
        return Some(IpcDefault);
      }
      ipcUp := true;
      if !a.overlayOk {
        ipcUp := false;
        return Some(Overlay);
      }
      overlayUp := true;
      failure := InstallRequired(a);
      if failure.Some? {
        return;
      }
      ghost var before := engine.hooks;
      InstallOptional(a);
      GrownKeeps(before, engine.hooks, layout.nsfs);
      GrownKeeps(before, engine.hooks, Required(layout, a.nativeUserns));
      AllLand(old(engine.hooks), before, engine.hooks, layout, old(nsfsActive), a);
      proxyStopping := false;
      mountArmed := true;
      userStopping := false;
      enabled := true;
    }

    /** The procfs and uid translation hooks, none of which is required. */
    method InstallOptional(a: Answers)
      requires Valid() && |a.kernel| == |engine.hooks|
      modifies engine
      ensures Valid() && Grown(old(engine.hooks), engine.hooks)
      ensures OptionalTaken(old(engine.hooks), engine.hooks, layout, a)
      ensures Outside(old(engine.hooks), engine.hooks, OptionalHooks(layout))
    {
      hide Taken, Lands, Outside, OptionalTaken, AllDone, NoFailure;
      ProcLifecycleInit(a);
      ghost var first := engine.hooks;
      var procfs, _ := InstallGroup(layout.procfs, a);
      ghost var second := engine.hooks;
      if !a.nativeUserns {
        var userns, _ := InstallGroup(layout.userns, a);
      }
      OptionalLands(old(engine.hooks), first, second, engine.hooks, layout, a);
    }
  }

  // ------------------------------------------------------------------ hooks that are left over

  /** Two NSFS hooks, a task-exit hook, a required core hook and an IPC hook. */
  const SMALL := Layout([0, 1], [2], [3], [4], [], [], [], [3], [], [])

  const GOOD := Kernel(true, Done, Done)

  /** The core hook cannot be redirected, and an inode is pinned. */
  const CORE_FAILS := Answers(true, true, [GOOD, GOOD, GOOD, Kernel(true, Done, Failed), GOOD], true, true, true)

  /** Nothing is pinned, and there is no default IPC namespace. */
  const IPC_FAILS := CORE_FAILS.(ipcOk := false, pins := false)

  method LoadSmall() returns (v: VendorKernel)
    ensures fresh(v) && fresh(v.engine) && v.layout == SMALL && v.Valid() && |v.engine.hooks| == 5
    ensures !v.enabled && !v.overlayUp && !v.ipcUp && !v.nsfsActive && Clean(v.engine.hooks, SMALL, false)
    ensures forall h | 0 <= h < 5 :: !v.engine.hooks[h].installed && !v.engine.hooks[h].retprobeInstalled
  {
    hide Disjoint, Separate, RequiredAreCore, InRange;
    var e := new Engine([true, true, true, false, false]);
    v := new VendorKernel(e, SMALL);
    SmallIsLaidOut();
  }

  lemma SmallIsLaidOut()
    ensures Separate(SMALL) && InRange(5, SMALL) && RequiredAreCore(SMALL)
  {
    assert SMALL.core == [3];
    forall native: bool, i: nat | i < |Required(SMALL, native)| ensures Required(SMALL, native)[i] in SMALL.core {
      assert Required(SMALL, native) == [3];
    }
  }

  lemma CoreFails(hooks: seq<Hook>)
    requires |hooks| == 5 && forall h | 0 <= h < 5 :: !hooks[h].installed && !hooks[h].retprobeInstalled
    ensures AllLive(hooks, SMALL.nsfs, CORE_FAILS.kernel)
    ensures Outcome(hooks, SMALL, false, CORE_FAILS) == Some(CoreHooks)
  {
    assert SMALL.core[0] == 3 && CodeOf(hooks[3], CORE_FAILS.kernel[3]).Failed?;
  }

  /** The NSFS hooks can be left without a pin: a first initialisation fails at a core hook while
      an inode is pinned, and has to leave them; the pin goes; a second one fails before it
      reaches them. */
  method LeftOverHooks() returns (v: VendorKernel, first: Option<Failure>, second: Option<Failure>)
    ensures first == Some(CoreHooks) && second == Some(IpcDefault)
    ensures !v.enabled && v.nsfsActive && v.layout.nsfs == [0, 1] && Working(v.engine.hooks, v.layout.nsfs)
  {
    v := LoadSmall();
    CoreFails(v.engine.hooks);
    first := v.Init(CORE_FAILS);
    second := v.Init(IPC_FAILS);
  }
}
