/** The inode pin tables of glue/vendor_kernel_nsfs_lifecycle.c and
    glue/vendor_kernel_procfs.c.

    Both files trade one module reference for one entry keyed by inode, and give it back
    after the real eviction of that inode.  The NSFS table does its pinning under a
    lifecycle mutex with a `stopping` gate and may keep a permanent fail-safe pin when no
    record could be allocated; the procfs table has neither (`mutexed` is false) and
    simply gives up without a record.  One event is one atomic operation or one spinlock
    section; a run is any list of events. */
module PinTable {
  import opened Tally
  import opened Options

  /** Where one redirected call into the path helper, the lookup or the eviction hook is. */
  datatype Thread =
    | Rest                                    // not in a pinning replacement, or finished
    | Queued                                  // wants the lifecycle mutex
    | Inside                                  // has it, stopping not checked
    | Admitted                                // may go on
    | Allocated(record: bool)                 // pin record allocated, or not
    | Tentative(record: bool)                 // module reference taken
    | Made(record: bool, made: Option<nat>)   // real helper succeeded
    | Hashed(inode: nat)                      // entry added, counter not bumped
    | Surplus                                 // reference not needed after all
    | Leaving                                 // only the mutex left to release
    | EvictStart(inode: nat)                  // eviction hook entered
    | EvictRan(inode: nat)                    // real eviction has run
    | Unhashed(inode: nat)                    // entry removed, counter not dropped
    | CountDropped(inode: nat)                // counter dropped, reference still held

  /** Life of a module-owned inode that the real helper returned. */
  datatype Inode = Live(holders: nat) | Evicting | Evicted

  datatype Owner = Nobody | Helper(thread: nat) | Stopper(value: bool, written: bool)

  datatype Made = Failed | NoInode | Found(inode: nat)

  datatype State = State(
    mutexed: bool,
    threads: seq<Thread>,
    mutex: Owner,
    stopping: bool,
    table: set<nat>,
    count: int,
    permanent: nat,           // fail-safe pins that no eviction will release
    refs: int,                // module references held for this table
    inodes: map<nat, Inode>)

  /** What the environment answers to the next operation of a thread. */
  datatype Answer = Answer(record: bool, moduleLive: bool, made: Made)

  datatype Event =
    | Spawn
    | StartPin(thread: nat)
    | StartEvict(thread: nat, inode: nat)
    | Step(thread: nat, answer: Answer)
    | DropPath(inode: nat)
    | StopLock(value: bool)   // begin_exit (true) or abort_exit (false) takes the mutex
    | StopStep                // ... writes the flag, then unlocks

  predicate Busy(t: Thread) {
    t.Inside? || t.Admitted? || t.Allocated? || t.Tentative? || t.Made? || t.Hashed? || t.Surplus? || t.Leaving?
  }

  /** Past the stopping check: may still add a pin. */
  predicate PastCheck(t: Thread) {
    t.Admitted? || t.Allocated? || t.Tentative? || t.Made? || t.Hashed?
  }

  /** The real helper's contract: it returns a fresh inode or a live one, never one whose
      eviction has begun. */
  predicate Returnable(s: State, x: nat) {
    x in s.inodes ==> s.inodes[x].Live?
  }

  function Hold(inodes: map<nat, Inode>, x: nat): map<nat, Inode> {
    inodes[x := if x in inodes && inodes[x].Live? then Live(inodes[x].holders + 1) else Live(1)]
  }

  /** What one operation of a thread does: its next phase, what it adds to the counter, the
      permanent pins and the module references, and the new table, inodes and mutex. */
  datatype Effect = Effect(
    thread: Thread, count: int, permanent: nat, refs: int,
    table: set<nat>, inodes: map<nat, Inode>, mutex: Owner)

  function Move(s: State, t: Thread): Effect {
    Effect(t, 0, 0, 0, s.table, s.inodes, s.mutex)
  }

  function Finished(s: State): Thread {
    if s.mutexed then Leaving else Rest
  }

  function Operation(s: State, i: nat, a: Answer): Effect
    requires i < |s.threads|
  {
    match s.threads[i]
    case Rest => Move(s, Rest)
    case Queued =>
      if !s.mutexed then Move(s, Admitted)
      else if s.mutex.Nobody? then Move(s, Inside).(mutex := Helper(i))
      else Move(s, Queued)
    case Inside => Move(s, if s.stopping then Leaving else Admitted)
    case Admitted => Move(s, if a.record || s.mutexed then Allocated(a.record) else Finished(s))
    case Allocated(record) =>
      if a.moduleLive then Move(s, Tentative(record)).(refs := 1) else Move(s, Finished(s))
    case Tentative(record) =>
      (match a.made
       case Failed => Move(s, Surplus)
       case NoInode => Move(s, Made(record, None))
       case Found(x) =>
         if Returnable(s, x) then Move(s, Made(record, Some(x))).(inodes := Hold(s.inodes, x))
         else Move(s, Tentative(record)))
    case Made(record, made) =>
      if made.None? || !record then Move(s, Finished(s)).(count := 1, permanent := 1)
      else if made.value in s.table then Move(s, Surplus)
      else Move(s, Hashed(made.value)).(table := s.table + {made.value})
    case Hashed(x) => Move(s, Finished(s)).(count := 1)
    case Surplus => Move(s, Finished(s)).(refs := -1)
    case Leaving => Move(s, Rest).(mutex := Nobody)
    case EvictStart(x) => Move(s, EvictRan(x)).(inodes := s.inodes[x := Evicted])
    case EvictRan(x) =>
      if x in s.table then Move(s, Unhashed(x)).(table := s.table - {x})
      else Move(s, Rest).(inodes := s.inodes - {x})
    case Unhashed(x) => Move(s, CountDropped(x)).(count := -1)
    case CountDropped(x) => Move(s, Rest).(refs := -1, inodes := s.inodes - {x})
  }

  function StepThread(s: State, i: nat, a: Answer): State
    requires i < |s.threads|
  {
    var e := Operation(s, i, a);
    s.(threads := s.threads[i := e.thread], count := s.count + e.count, permanent := s.permanent + e.permanent,
       refs := s.refs + e.refs, table := e.table, inodes := e.inodes, mutex := e.mutex)
  }

  function Next(s: State, e: Event): State {
    match e
    case Spawn => s.(threads := s.threads + [Rest])
    case StartPin(i) => if i < |s.threads| && s.threads[i].Rest? then s.(threads := s.threads[i := Queued]) else s
    case StartEvict(i, x) =>
      if i < |s.threads| && s.threads[i].Rest? && x in s.inodes && s.inodes[x] == Live(0)
      then s.(threads := s.threads[i := EvictStart(x)], inodes := s.inodes[x := Evicting]) else s
    case Step(i, a) => if i < |s.threads| then StepThread(s, i, a) else s
    case DropPath(x) =>
      if x in s.inodes && s.inodes[x].Live? && s.inodes[x].holders > HolderThreads(s.threads, x)
      then s.(inodes := s.inodes[x := Live(s.inodes[x].holders - 1)]) else s
    case StopLock(value) => if s.mutex.Nobody? then s.(mutex := Stopper(value, false)) else s
    case StopStep =>
      if !s.mutex.Stopper? then s
      else if s.mutex.written then s.(mutex := Nobody)
      else s.(stopping := s.mutex.value, mutex := Stopper(s.mutex.value, true))
  }

  function Run(s: State, es: seq<Event>): State {
    if es == [] then s else Next(Run(s, es[..|es| - 1]), es[|es| - 1])
  }

  function Init(mutexed: bool): State {
    State(mutexed, [], Nobody, false, {}, 0, 0, 0, map[])
  }

  // ------------------------------------------------------------------ weights

  function HeldWeight(x: nat, t: Thread): nat {
    if Holding(t) == Some(x) then 1 else 0
  }

  function HolderWeight(x: nat): Thread -> nat {
    (t: Thread) => HeldWeight(x, t)
  }

  /** How many threads still hold a path of inode `x`. */
  function HolderThreads(threads: seq<Thread>, x: nat): nat {
    Sum(threads, HolderWeight(x))
  }

  function RefWeight(t: Thread): nat {
    if t.Tentative? || t.Made? || t.Surplus? || t.Unhashed? || t.CountDropped? then 1 else 0
  }

  function HashedWeight(t: Thread): nat {
    if t.Hashed? then 1 else 0
  }

  function UnhashedWeight(t: Thread): nat {
    if t.Unhashed? then 1 else 0
  }

  // ------------------------------------------------------------------ invariant

  predicate Counts(s: State) {
    && s.count + Sum(s.threads, HashedWeight) == |s.table| + s.permanent + Sum(s.threads, UnhashedWeight)
    && s.refs == Sum(s.threads, RefWeight) + |s.table| + s.permanent
  }

  predicate MutexOk(s: State) {
    && (s.mutex.Helper? ==> s.mutex.thread < |s.threads|)
    && (s.mutexed ==> forall i | 0 <= i < |s.threads| :: Busy(s.threads[i]) <==> s.mutex == Helper(i))
    && (!s.mutexed ==> !s.mutex.Helper? && forall i | 0 <= i < |s.threads| ::
          !s.threads[i].Inside? && !s.threads[i].Leaving?)
  }

  predicate GateOk(s: State) {
    s.mutexed && s.stopping ==> forall i | 0 <= i < |s.threads| :: !PastCheck(s.threads[i])
  }

  /** The inode an eviction thread is working on, and how far it has got. */
  predicate EvictOk(s: State, t: Thread) {
    match t
    case EvictStart(x) => x in s.inodes && s.inodes[x] == Evicting
    case EvictRan(x) => x in s.inodes && s.inodes[x] == Evicted
    case Unhashed(x) => x in s.inodes && s.inodes[x] == Evicted && x !in s.table
    case CountDropped(x) => x in s.inodes && s.inodes[x] == Evicted && x !in s.table
    case _ => true
  }

  /** The inode an eviction thread is responsible for. */
  function Target(t: Thread): Option<nat> {
    match t
    case EvictStart(x) => Some(x)
    case EvictRan(x) => Some(x)
    case Unhashed(x) => Some(x)
    case CountDropped(x) => Some(x)
    case _ => None
  }

  /** The inode whose path a pinning thread still holds. */
  function Holding(t: Thread): Option<nat> {
    match t
    case Made(_, made) => made
    case Hashed(x) => Some(x)
    case _ => None
  }

  predicate HoldingOk(s: State, t: Thread) {
    Holding(t).Some? ==> Holding(t).value in s.inodes && s.inodes[Holding(t).value].Live?
  }

  predicate ThreadsOk(s: State) {
    && (forall i | 0 <= i < |s.threads| :: EvictOk(s, s.threads[i]) && HoldingOk(s, s.threads[i]))
    && (forall i, j | 0 <= i < j < |s.threads| :: Target(s.threads[i]).Some? ==>
          Target(s.threads[i]) != Target(s.threads[j]))
  }

  predicate HoldersOk(s: State) {
    forall x | x in s.inodes && s.inodes[x].Live? :: HolderThreads(s.threads, x) <= s.inodes[x].holders
  }

  predicate Pinning(t: Thread, x: nat) {
    t.Made? && t.made == Some(x)
  }

  predicate BeingPinned(s: State, x: nat) {
    exists i | 0 <= i < |s.threads| :: Pinning(s.threads[i], x)
  }

  predicate Covered(s: State, x: nat) {
    x in s.table || s.permanent > 0 || BeingPinned(s, x)
  }

  predicate CoverOk(s: State) {
    && (forall x | x in s.table :: x in s.inodes)
    && (forall x | x in s.inodes && s.inodes[x] != Evicted :: Covered(s, x))
  }

  predicate Inv(s: State) {
    Counts(s) && MutexOk(s) && GateOk(s) && ThreadsOk(s) && HoldersOk(s) && CoverOk(s)
  }

  // ------------------------------------------------------------------ preservation

  lemma ThreadSums(s: State, i: nat, t: Thread)
    requires i < |s.threads|
    ensures Sum(s.threads[i := t], RefWeight) == Sum(s.threads, RefWeight) - RefWeight(s.threads[i]) + RefWeight(t)
    ensures Sum(s.threads[i := t], HashedWeight)
         == Sum(s.threads, HashedWeight) - HashedWeight(s.threads[i]) + HashedWeight(t)
    ensures Sum(s.threads[i := t], UnhashedWeight)
         == Sum(s.threads, UnhashedWeight) - UnhashedWeight(s.threads[i]) + UnhashedWeight(t)
  {
    SumUpdate(s.threads, i, t, RefWeight);
    SumUpdate(s.threads, i, t, HashedWeight);
    SumUpdate(s.threads, i, t, UnhashedWeight);
  }

  /** How many entries an operation adds to the table. */
  function TableDelta(t: Thread, u: Thread): int {
    if t.Made? && u.Hashed? then 1 else if t.EvictRan? && u.Unhashed? then -1 else 0
  }

  lemma OneMore(table: set<nat>, x: nat)
    requires x !in table
    ensures |table + {x}| == |table| + 1
  {
  }

  lemma OneLess(table: set<nat>, x: nat)
    requires x in table
    ensures |table - {x}| == |table| - 1
  {
  }

  /** The table, as far as an operation that neither adds nor removes an entry is concerned. */
  lemma OtherTable(s: State, i: nat, a: Answer)
    requires i < |s.threads| && !s.threads[i].Made? && !s.threads[i].EvictRan?
    ensures Operation(s, i, a).table == s.table && TableDelta(s.threads[i], Operation(s, i, a).thread) == 0
  {
  }

  lemma OperationTable(s: State, i: nat, a: Answer)
    requires i < |s.threads|
    ensures |Operation(s, i, a).table| == |s.table| + TableDelta(s.threads[i], Operation(s, i, a).thread)
  {
    match s.threads[i]
    case Made(record, made) =>
      if record && made.Some? && made.value !in s.table { OneMore(s.table, made.value); }
    case EvictRan(x) => if x in s.table { OneLess(s.table, x); }
    case _ => OtherTable(s, i, a);
  }

  /** The counter moves exactly as the table and the weights of the phase do, */
  lemma OperationCount(s: State, i: nat, a: Answer)
    requires i < |s.threads|
    ensures var e, t := Operation(s, i, a), s.threads[i];
            e.count + HashedWeight(e.thread) - HashedWeight(t)
            == TableDelta(t, e.thread) + e.permanent + UnhashedWeight(e.thread) - UnhashedWeight(t)
  {
  }

  /** and so do the references. */
  lemma OperationRefs(s: State, i: nat, a: Answer)
    requires i < |s.threads|
    ensures var e, t := Operation(s, i, a), s.threads[i];
            e.refs == RefWeight(e.thread) - RefWeight(t) + TableDelta(t, e.thread) + e.permanent
  {
  }

  lemma StepCounts(s: State, i: nat, a: Answer)
    requires Counts(s) && i < |s.threads|
    ensures Counts(StepThread(s, i, a))
  {
    ThreadSums(s, i, Operation(s, i, a).thread);
    OperationTable(s, i, a);
    OperationCount(s, i, a);
    OperationRefs(s, i, a);
  }

  lemma StepMutex(s: State, i: nat, a: Answer)
    requires MutexOk(s) && i < |s.threads|
    ensures MutexOk(StepThread(s, i, a))
  {
  }

  lemma StepGate(s: State, i: nat, a: Answer)
    requires GateOk(s) && i < |s.threads|
    ensures GateOk(StepThread(s, i, a))
  {
  }

  /** An operation touches the life of one inode only: the one the thread works on. */
  lemma OperationInodes(s: State, i: nat, a: Answer)
    requires ThreadsOk(s) && i < |s.threads|
    ensures var e := Operation(s, i, a);
            && EvictOk(StepThread(s, i, a), e.thread) && HoldingOk(StepThread(s, i, a), e.thread)
            && (Target(e.thread).Some? ==> Target(e.thread) == Target(s.threads[i]))
            && (forall x | x in s.inodes && Target(s.threads[i]) != Some(x) ::
                  && x in e.inodes
                  && (x in e.table <==> x in s.table || e.thread == Hashed(x))
                  && (e.inodes[x] == s.inodes[x]
                      || (s.inodes[x].Live? && Holding(e.thread) == Some(x)
                          && e.inodes[x] == Live(s.inodes[x].holders + 1))))
  {
    assert EvictOk(s, s.threads[i]) && HoldingOk(s, s.threads[i]);
  }

  lemma StepThreads(s: State, i: nat, a: Answer)
    requires ThreadsOk(s) && i < |s.threads|
    ensures ThreadsOk(StepThread(s, i, a))
  {
    var t := StepThread(s, i, a);
    OperationInodes(s, i, a);
    forall j | 0 <= j < |t.threads| ensures EvictOk(t, t.threads[j]) && HoldingOk(t, t.threads[j]) {
      assert EvictOk(s, s.threads[j]) && HoldingOk(s, s.threads[j]);
      assert EvictOk(s, s.threads[i]) && HoldingOk(s, s.threads[i]);
      assert j != i && Target(s.threads[i]).Some? ==> Target(s.threads[i]) != Target(s.threads[j]);
    }
  }

  lemma StepHolder(s: State, i: nat, a: Answer, x: nat)
    requires HoldersOk(s) && ThreadsOk(s) && i < |s.threads|
    requires x in StepThread(s, i, a).inodes && StepThread(s, i, a).inodes[x].Live?
    ensures HolderThreads(StepThread(s, i, a).threads, x) <= StepThread(s, i, a).inodes[x].holders
  {
    OperationInodes(s, i, a);
    SumUpdate(s.threads, i, Operation(s, i, a).thread, HolderWeight(x));
    if x !in s.inodes {
      FreshUnheld(s, x);
    }
    assert EvictOk(s, s.threads[i]) && HoldingOk(s, s.threads[i]);
  }

  lemma StepHolders(s: State, i: nat, a: Answer)
    requires HoldersOk(s) && ThreadsOk(s) && i < |s.threads|
    ensures HoldersOk(StepThread(s, i, a))
  {
    var t := StepThread(s, i, a);
    forall x | x in t.inodes && t.inodes[x].Live? ensures HolderThreads(t.threads, x) <= t.inodes[x].holders {
      StepHolder(s, i, a, x);
    }
  }

  lemma FreshUnheld(s: State, x: nat)
    requires ThreadsOk(s) && x !in s.inodes
    ensures HolderThreads(s.threads, x) == 0
  {
    forall j | 0 <= j < |s.threads| ensures HeldWeight(x, s.threads[j]) == 0 {
      assert HoldingOk(s, s.threads[j]);
    }
    SumZero(s.threads, HolderWeight(x));
  }

  lemma StepCover(s: State, i: nat, a: Answer)
    requires CoverOk(s) && ThreadsOk(s) && i < |s.threads|
    ensures CoverOk(StepThread(s, i, a))
  {
    var t := StepThread(s, i, a);
    assert EvictOk(s, s.threads[i]) && HoldingOk(s, s.threads[i]);
    forall x | x in t.inodes && t.inodes[x] != Evicted ensures Covered(t, x) {
      if x in s.inodes && s.inodes[x] != Evicted && BeingPinned(s, x) {
        var j :| 0 <= j < |s.threads| && Pinning(s.threads[j], x);
        assert j != i ==> Pinning(t.threads[j], x);
      }
      assert Pinning(t.threads[i], x) ==> BeingPinned(t, x);
    }
  }

  lemma StepInv(s: State, i: nat, a: Answer)
    requires Inv(s) && i < |s.threads|
    ensures Inv(StepThread(s, i, a))
  {
    StepCounts(s, i, a);
    StepMutex(s, i, a);
    StepGate(s, i, a);
    StepThreads(s, i, a);
    StepHolders(s, i, a);
    StepCover(s, i, a);
  }

  /** The invariant reads a state's threads only through their phases: a change that leaves
      everything but one idle thread alone keeps it. */
  lemma CoverFrame(s: State, t: State)
    requires CoverOk(s) && t.table == s.table && t.permanent == s.permanent
    requires |s.threads| <= |t.threads|
    requires forall i | 0 <= i < |s.threads| && s.threads[i].Made? :: t.threads[i] == s.threads[i]
    requires t.inodes.Keys == s.inodes.Keys
    requires forall x | x in t.inodes :: s.inodes[x] == Evicted ==> t.inodes[x] == Evicted
    ensures CoverOk(t)
  {
    forall x | x in t.inodes && t.inodes[x] != Evicted ensures Covered(t, x) {
      assert Covered(s, x);
      if BeingPinned(s, x) {
        var j :| 0 <= j < |s.threads| && Pinning(s.threads[j], x);
        assert Pinning(t.threads[j], x);
      }
    }
  }

  lemma SpawnCounts(s: State)
    requires Counts(s)
    ensures Counts(s.(threads := s.threads + [Rest]))
  {
    SumAppend(s.threads, Rest, RefWeight);
    SumAppend(s.threads, Rest, HashedWeight);
    SumAppend(s.threads, Rest, UnhashedWeight);
  }

  lemma SpawnHolders(s: State)
    requires HoldersOk(s)
    ensures HoldersOk(s.(threads := s.threads + [Rest]))
  {
    forall x | x in s.inodes && s.inodes[x].Live? ensures HolderThreads(s.threads + [Rest], x) <= s.inodes[x].holders {
      SumAppend(s.threads, Rest, HolderWeight(x));
    }
  }

  lemma SpawnInv(s: State)
    requires Inv(s)
    ensures Inv(s.(threads := s.threads + [Rest]))
  {
    var t := s.(threads := s.threads + [Rest]);
    SpawnCounts(s);
    SpawnHolders(s);
    hide Counts, HoldersOk;
    forall j | 0 <= j < |t.threads| ensures EvictOk(t, t.threads[j]) && HoldingOk(t, t.threads[j]) {
      assert j < |s.threads| ==> EvictOk(s, s.threads[j]) && HoldingOk(s, s.threads[j]);
    }
    CoverFrame(s, t);
  }

  /** A thread that starts holds no path yet. */
  lemma QueuedHolders(s: State, i: nat)
    requires HoldersOk(s) && i < |s.threads| && s.threads[i].Rest?
    ensures HoldersOk(s.(threads := s.threads[i := Queued]))
  {
    forall x | x in s.inodes && s.inodes[x].Live?
      ensures HolderThreads(s.threads[i := Queued], x) <= s.inodes[x].holders
    {
      SumUpdate(s.threads, i, Queued, HolderWeight(x));
    }
  }

  lemma QueuedThreads(s: State, i: nat)
    requires ThreadsOk(s) && i < |s.threads| && s.threads[i].Rest?
    ensures ThreadsOk(s.(threads := s.threads[i := Queued]))
  {
    var t := s.(threads := s.threads[i := Queued]);
    forall j | 0 <= j < |t.threads| ensures EvictOk(t, t.threads[j]) && HoldingOk(t, t.threads[j]) {
      assert EvictOk(s, s.threads[j]) && HoldingOk(s, s.threads[j]);
    }
  }

  lemma StartPinInv(s: State, i: nat)
    requires Inv(s) && i < |s.threads| && s.threads[i].Rest?
    ensures Inv(Next(s, StartPin(i)))
  {
    var t := Next(s, StartPin(i));
    ThreadSums(s, i, Queued);
    QueuedHolders(s, i);
    QueuedThreads(s, i);
    CoverFrame(s, t);
  }

  /** An inode without holders is neither held by a pinning thread nor being evicted. */
  lemma UnheldIsFree(s: State, x: nat)
    requires ThreadsOk(s) && HoldersOk(s) && x in s.inodes && s.inodes[x] == Live(0)
    ensures forall j | 0 <= j < |s.threads| ::
              Holding(s.threads[j]) != Some(x) && Target(s.threads[j]) != Some(x)
  {
    forall j | 0 <= j < |s.threads|
      ensures Holding(s.threads[j]) != Some(x) && Target(s.threads[j]) != Some(x)
    {
      SumMember(s.threads, j, HolderWeight(x));
      assert EvictOk(s, s.threads[j]);
    }
  }

  lemma StartEvictThreads(s: State, i: nat, x: nat)
    requires ThreadsOk(s) && HoldersOk(s)
    requires i < |s.threads| && s.threads[i].Rest? && x in s.inodes && s.inodes[x] == Live(0)
    ensures ThreadsOk(Next(s, StartEvict(i, x))) && HoldersOk(Next(s, StartEvict(i, x)))
  {
    var t := Next(s, StartEvict(i, x));
    UnheldIsFree(s, x);
    forall j | 0 <= j < |t.threads| ensures EvictOk(t, t.threads[j]) && HoldingOk(t, t.threads[j]) {
      assert EvictOk(s, s.threads[j]) && HoldingOk(s, s.threads[j]);
    }
    forall y | y in t.inodes && t.inodes[y].Live? ensures HolderThreads(t.threads, y) <= t.inodes[y].holders {
      SumUpdate(s.threads, i, EvictStart(x), HolderWeight(y));
    }
  }

  lemma StartEvictInv(s: State, i: nat, x: nat)
    requires Inv(s) && i < |s.threads| && s.threads[i].Rest? && x in s.inodes && s.inodes[x] == Live(0)
    ensures Inv(Next(s, StartEvict(i, x)))
  {
    ThreadSums(s, i, EvictStart(x));
    StartEvictThreads(s, i, x);
    CoverFrame(s, Next(s, StartEvict(i, x)));
  }

  lemma DropInv(s: State, x: nat)
    requires Inv(s)
    ensures Inv(Next(s, DropPath(x)))
  {
    var t := Next(s, DropPath(x));
    forall j | 0 <= j < |t.threads| ensures EvictOk(t, t.threads[j]) && HoldingOk(t, t.threads[j]) {
      assert EvictOk(s, s.threads[j]) && HoldingOk(s, s.threads[j]);
    }
    CoverFrame(s, t);
  }

  /** The gate and the mutex do not matter to threads, holders and coverage. */
  lemma GateChange(s: State, t: State)
    requires ThreadsOk(s) && HoldersOk(s) && CoverOk(s)
    requires t.threads == s.threads && t.inodes == s.inodes && t.table == s.table && t.permanent == s.permanent
    ensures ThreadsOk(t) && HoldersOk(t) && CoverOk(t)
  {
    forall j | 0 <= j < |t.threads| ensures EvictOk(t, t.threads[j]) && HoldingOk(t, t.threads[j]) {
      assert EvictOk(s, s.threads[j]) && HoldingOk(s, s.threads[j]);
    }
    CoverFrame(s, t);
  }

  lemma StopInv(s: State, e: Event)
    requires Inv(s) && (e.StopLock? || e.StopStep?)
    ensures Inv(Next(s, e))
  {
    GateChange(s, Next(s, e));
  }

  lemma NextInv(s: State, e: Event)
    requires Inv(s)
    ensures Inv(Next(s, e))
  {
    match e
    case Spawn => SpawnInv(s);
    case StartPin(i) => if i < |s.threads| && s.threads[i].Rest? { StartPinInv(s, i); }
    case StartEvict(i, x) =>
      if i < |s.threads| && s.threads[i].Rest? && x in s.inodes && s.inodes[x] == Live(0) { StartEvictInv(s, i, x); }
    case Step(i, a) => if i < |s.threads| { StepInv(s, i, a); }
    case DropPath(x) => DropInv(s, x);
    case _ => StopInv(s, e);
  }

  lemma {:induction false} RunInv(s: State, es: seq<Event>)
    requires Inv(s)
    ensures Inv(Run(s, es))
  {
    if es != [] {
      RunInv(s, es[..|es| - 1]);
      NextInv(Run(s, es[..|es| - 1]), es[|es| - 1]);
    }
  }
}
