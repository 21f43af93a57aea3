/** Attaching proc_ns_operations to an initial pid namespace that has none, from
    glue/vendor_kernel_procfs.c.

    The lookup fallback first reads the pointer without the lock, then decides under it;
    the controlled stop detaches under the same lock.  One event is one unlocked read or
    one locked section. */
module PidnsOps {
  import opened Options

  /** ns.ops: NULL, this module's operations, or anybody else's. */
  datatype Ops = Null | Ours | Foreign

  datatype Namespace = Namespace(level: nat, hasParent: bool, inum: nat, hasUserNs: bool, ops: Ops)

  datatype Asking =
    | Idle                      // not asking
    | Asked(ns: nat)            // about to read ops without the lock
    | Eligible(ns: nat)         // looked attachable, wants the lock
    | Granted(ns: nat)
    | Denied

  datatype State = State(
    namespaces: seq<Namespace>,
    target: Option<nat>,        // vns_proc_init_pid_ns_ops_target
    threads: seq<Asking>)

  datatype Event =
    | Spawn
    | Create(namespace: Namespace)// a pid namespace comes into being
    | Ask(thread: nat, ns: nat)
    | Step(thread: nat)
    | Reset(thread: nat)
    | Detach

  /** The initial namespace of a kernel without its own pid namespace link. */
  predicate Attachable(n: Namespace) {
    n.ops.Null? && n.level == 0 && !n.hasParent && n.inum != 0 && n.hasUserNs
  }

  function SetOps(s: State, n: nat, ops: Ops): State
    requires n < |s.namespaces|
  {
    s.(namespaces := s.namespaces[n := s.namespaces[n].(ops := ops)])
  }

  function SetThread(s: State, i: nat, a: Asking): State
    requires i < |s.threads|
  {
    s.(threads := s.threads[i := a])
  }

  function StepThread(s: State, i: nat): State
    requires i < |s.threads|
  {
    match s.threads[i]
    case Asked(n) =>
      if n >= |s.namespaces| then SetThread(s, i, Denied)
      else if s.namespaces[n].ops.Ours? then SetThread(s, i, Granted(n))
      else SetThread(s, i, if Attachable(s.namespaces[n]) then Eligible(n) else Denied)
    case Eligible(n) =>
      if n >= |s.namespaces| then SetThread(s, i, Denied)
      else if s.namespaces[n].ops.Null? && s.target.None?
      then SetThread(SetOps(s, n, Ours), i, Granted(n)).(target := Some(n))
      else if s.namespaces[n].ops.Ours? && s.target == Some(n) then SetThread(s, i, Granted(n))
      else SetThread(s, i, Denied)
    case _ => s
  }

  /** The locked section of vns_procfs_compat_detach_init_pidns_ops(): does it accept? */
  predicate CanDetach(s: State) {
    s.target.Some? && s.target.value < |s.namespaces| ==> s.namespaces[s.target.value].ops.Ours?
  }

  function DetachOps(s: State): State {
    if s.target.Some? && s.target.value < |s.namespaces| && CanDetach(s)
    then SetOps(s, s.target.value, Null).(target := None) else s
  }

  function Next(s: State, e: Event): State {
    match e
    case Spawn => s.(threads := s.threads + [Idle])
    case Create(n) =>
      // only the vendored copy of pid namespaces is born with this module's operations
      if n.ops.Ours? ==> n.level > 0 then s.(namespaces := s.namespaces + [n]) else s
    case Ask(i, n) => if i < |s.threads| && s.threads[i].Idle? then SetThread(s, i, Asked(n)) else s
    case Step(i) => if i < |s.threads| then StepThread(s, i) else s
    case Reset(i) => if i < |s.threads| then SetThread(s, i, Idle) else s
    case Detach => DetachOps(s)
  }

  function Run(s: State, es: seq<Event>): State {
    if es == [] then s else Next(Run(s, es[..|es| - 1]), es[|es| - 1])
  }

  const START := State([], None, [])

  /** The recorded target and the attached pointer always agree, so at most one initial
      namespace carries this module's operations. */
  predicate TargetOk(s: State) {
    && (s.target.Some? ==> s.target.value < |s.namespaces| && s.namespaces[s.target.value].level == 0)
    && (forall n | 0 <= n < |s.namespaces| :: s.namespaces[n].level == 0 ==>
          (s.namespaces[n].ops.Ours? <==> s.target == Some(n)))
  }

  predicate EligibleOk(s: State) {
    forall i | 0 <= i < |s.threads| :: s.threads[i].Eligible? ==>
      s.threads[i].ns < |s.namespaces| && s.namespaces[s.threads[i].ns].level == 0
  }

  /** Whoever was told that the operations are attached can rely on it. */
  predicate GrantOk(s: State) {
    forall i | 0 <= i < |s.threads| :: s.threads[i].Granted? ==>
      s.threads[i].ns < |s.namespaces| && s.namespaces[s.threads[i].ns].ops.Ours?
  }

  lemma NextTarget(s: State, e: Event)
    requires TargetOk(s) && EligibleOk(s)
    ensures TargetOk(Next(s, e)) && EligibleOk(Next(s, e))
  {
  }

  /** A grant survives every step but a detach. */
  lemma NextGrant(s: State, e: Event)
    requires GrantOk(s) && !e.Detach?
    ensures GrantOk(Next(s, e))
  {
  }

  lemma {:induction false} TargetAlways(es: seq<Event>)
    ensures TargetOk(Run(START, es)) && EligibleOk(Run(START, es))
  {
    if es != [] {
      TargetAlways(es[..|es| - 1]);
      NextTarget(Run(START, es[..|es| - 1]), es[|es| - 1]);
    }
  }

  ghost predicate Reachable(s: State) {
    exists es :: s == Run(START, es)
  }

  lemma ReachableTarget(s: State)
    requires Reachable(s)
    ensures TargetOk(s)
  {
    var es :| s == Run(START, es);
    TargetAlways(es);
  }

  /** In every reachable state at most one initial pid namespace carries operations attached by
      the fallback, and it is the recorded one. */
  lemma OneTarget(s: State, m: nat, n: nat)
    requires Reachable(s)
    requires m < |s.namespaces| && s.namespaces[m].level == 0 && s.namespaces[m].ops.Ours?
    requires n < |s.namespaces| && s.namespaces[n].level == 0 && s.namespaces[n].ops.Ours?
    ensures m == n && s.target == Some(m)
  {
    ReachableTarget(s);
  }

  /** The recorded target always is an initial namespace that carries these operations. */
  lemma TargetAgrees(s: State)
    requires Reachable(s) && s.target.Some?
    ensures s.target.value < |s.namespaces|
    ensures s.namespaces[s.target.value].level == 0 && s.namespaces[s.target.value].ops.Ours?
  {
    ReachableTarget(s);
  }

  /** A detach is accepted in every reachable state, clears the target's pointer and no other,
      and leaves no initial namespace with this module's operations. */
  lemma DetachClears(s: State, n: nat)
    requires Reachable(s) && n < |s.namespaces|
    ensures var t := Next(s, Detach);
            && CanDetach(s) && t.target.None? && |t.namespaces| == |s.namespaces|
            && (s.namespaces[n].level == 0 ==> !t.namespaces[n].ops.Ours?)
            && (s.target != Some(n) ==> t.namespaces[n] == s.namespaces[n])
  {
    ReachableTarget(s);
  }

  // ------------------------------------------------------------------ what a question is answered

  lemma ReachableEligible(s: State)
    requires Reachable(s)
    ensures EligibleOk(s)
  {
    var es :| s == Run(START, es);
    TargetAlways(es);
  }

  /** Namespace `n` carries this module's operations. */
  predicate Carries(s: State, n: nat) {
    n < |s.namespaces| && s.namespaces[n].ops.Ours?
  }

  /** Namespace `n` is an initial one without operations, and none is recorded. */
  predicate CanAttach(s: State, n: nat) {
    && s.target.None? && n < |s.namespaces| && s.namespaces[n].ops.Null?
    && s.namespaces[n].level == 0 && !s.namespaces[n].hasParent && s.namespaces[n].inum != 0 && s.namespaces[n].hasUserNs
  }

  /** `t` is `s` with this module's operations attached to namespace `n`, and recorded. */
  predicate Attached(s: State, t: State, n: nat) {
    && n < |s.namespaces| == |t.namespaces| && t.target == Some(n)
    && t.namespaces[n] == s.namespaces[n].(ops := Ours)
    && forall m | 0 <= m < |s.namespaces| && m != n :: t.namespaces[m] == s.namespaces[m]
  }

  /** A question, its unlocked read and its locked section, with nobody in between. */
  function Question(s: State, i: nat, n: nat): State {
    Next(Next(Next(s, Ask(i, n)), Step(i)), Step(i))
  }

  lemma QuestionReads(s: State, i: nat, n: nat)
    requires i < |s.threads| && s.threads[i].Idle?
    ensures Next(Next(s, Ask(i, n)), Step(i)) ==
              s.(threads := s.threads[i := if Carries(s, n) then Granted(n)
                                           else if n < |s.namespaces| && Attachable(s.namespaces[n]) then Eligible(n)
                                           else Denied])
  {
    assert s.threads[i := Asked(n)][i := Granted(n)] == s.threads[i := Granted(n)];
    assert s.threads[i := Asked(n)][i := Eligible(n)] == s.threads[i := Eligible(n)];
    assert s.threads[i := Asked(n)][i := Denied] == s.threads[i := Denied];
  }

  /** An undisturbed question is granted if and only if the namespace carries the operations already
      or they can be attached to it; in the second case, and in no other, they are. */
  lemma UndisturbedQuestion(s: State, i: nat, n: nat)
    requires Reachable(s) && i < |s.threads| && s.threads[i].Idle?
    ensures var t := Question(s, i, n);
            && |t.threads| == |s.threads|
            && t.threads[i] == (if Carries(s, n) || CanAttach(s, n) then Granted(n) else Denied)
            && (forall j | 0 <= j < |s.threads| && j != i :: t.threads[j] == s.threads[j])
            && (if CanAttach(s, n) then Attached(s, t, n) else t.namespaces == s.namespaces && t.target == s.target)
  {
    ReachableTarget(s);
    QuestionReads(s, i, n);
  }

  /** Whatever happened since the unlocked read, the locked section turns a thread away if and only
      if by now the pointer is foreign or another target is recorded.  Otherwise the namespace
      carries the operations and is the target. */
  lemma LockedAnswer(s: State, i: nat)
    requires Reachable(s) && i < |s.threads| && s.threads[i].Eligible?
    ensures var n, t := s.threads[i].ns, Next(s, Step(i));
            && n < |s.namespaces| == |t.namespaces| && |t.threads| == |s.threads|
            && (t.threads[i] == Denied <==> s.namespaces[n].ops.Foreign? || (s.target.Some? && s.target != Some(n)))
            && (t.threads[i] != Denied ==> t.threads[i] == Granted(n) && t.namespaces[n].ops.Ours? && t.target == Some(n))
            && (t.threads[i] == Denied ==> t.namespaces == s.namespaces && t.target == s.target)
  {
    ReachableTarget(s);
    ReachableEligible(s);
  }
}
