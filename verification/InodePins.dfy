/** The pin tables as glue/vendor_kernel_nsfs_lifecycle.c and glue/vendor_kernel_procfs.c write
    them, updating the table, the counter and the module references in place.

    Each method is one undisturbed call; what it does is proved to be what the operations of
    one thread of module PinTable add up to, so everything proved there about all
    interleavings applies to it. */
module InodePins {
  import opened Options
  import opened PinTable
  import opened PinTheorems
  import opened Runs
  import opened Tally

  // ------------------------------------------------------------------ one thread, undisturbed

  function StepOf(i: nat, a: Answer): State -> State {
    (s: State) => Next(s, Step(i, a))
  }

  /** `n` operations of thread `i`. */
  function Steps(s: State, i: nat, a: Answer, n: nat): State {
    Repeated(StepOf(i, a), s, n)
  }

  /** A thread may start: it is at rest and nobody holds the lifecycle mutex. */
  predicate CanStart(s: State, i: nat) {
    i < |s.threads| && s.threads[i].Rest? && s.mutex.Nobody?
  }

  /** `s` with thread `i` in phase `t`, which holds the mutex if its phase does. */
  function With(s: State, i: nat, t: Thread): State
    requires i < |s.threads|
  {
    s.(threads := s.threads[i := t], mutex := if s.mutexed && Busy(t) then Helper(i) else s.mutex)
  }

  /** Where thread `i` of With(s, i, t) goes and what that changes, as one operation. */
  lemma WithStep(s: State, i: nat, t: Thread, a: Answer)
    requires CanStart(s, i) && (Busy(t) || t.Queued?) && (!s.mutexed ==> !t.Inside? && !t.Leaving?)
    ensures var e := Operation(With(s, i, t), i, a);
            Next(With(s, i, t), Step(i, a))
            == With(s.(count := s.count + e.count, permanent := s.permanent + e.permanent, refs := s.refs + e.refs,
                       table := e.table, inodes := e.inodes), i, e.thread)
  {
    var u := With(s, i, t);
    var e := Operation(u, i, a);
    assert u.threads[i := e.thread] == s.threads[i := e.thread];
  }

  lemma RestStays(s: State, i: nat, a: Answer, n: nat)
    requires i < |s.threads| && s.threads[i].Rest?
    ensures Steps(s, i, a, n) == s
  {
    if n > 0 {
      RestStays(s, i, a, n - 1);
      assert s.threads[i := Rest] == s.threads;
    }
  }

  lemma BackAtRest(s: State, i: nat)
    requires CanStart(s, i)
    ensures With(s, i, Rest) == s
  {
    assert s.threads[i := Rest] == s.threads;
  }

  /** From the end of the work to rest: the NSFS helper still has the mutex to release. */
  lemma Finishes(s: State, i: nat, a: Answer, n: nat)
    requires CanStart(s, i) && n > 0
    ensures Steps(With(s, i, Finished(s)), i, a, n) == s
  {
    BackAtRest(s, i);
    if s.mutexed {
      WithStep(s, i, Leaving, a);
      assert Steps(With(s, i, Leaving), i, a, 1) == s;
      RepeatedAdd(StepOf(i, a), With(s, i, Leaving), 1, n - 1);
      RestStays(s, i, a, n - 1);
    } else {
      RestStays(s, i, a, n);
    }
  }

  // ------------------------------------------------------------------ one call of the helper hook

  /** The call ends before the real helper has made anything. */
  predicate Declined(s: State, a: Answer) {
    (s.mutexed && s.stopping) || (!s.mutexed && !a.record) || !a.moduleLive || a.made.Failed?
  }

  function FoundInode(a: Answer): Option<nat> {
    if a.made.Found? then Some(a.made.inode) else None
  }

  /** What vns_*_pin_inode() leaves behind, given one tentative module reference. */
  function PinnedBy(s: State, inode: Option<nat>, record: bool): State {
    var fallback := inode.None? || !record;
    var known := !fallback && inode.value in s.table;
    s.(count := if known then s.count else s.count + 1,
       refs := if known then s.refs else s.refs + 1,
       permanent := if fallback then s.permanent + 1 else s.permanent,
       table := if fallback || known then s.table else s.table + {inode.value})
  }

  /** The whole call: a new pin costs one module reference and counts once; an inode that is
      pinned already, and a call that is declined, cost nothing. */
  function CalledBy(s: State, a: Answer): State {
    if Declined(s, a) then s
    else PinnedBy(s.(inodes := if a.made.Found? then Hold(s.inodes, a.made.inode) else s.inodes), FoundInode(a), a.record)
  }

  /** The tentative reference is given back. */
  lemma GivesBack(s: State, i: nat, a: Answer, n: nat)
    requires CanStart(s, i) && n > 1
    ensures Steps(With(s.(refs := s.refs + 1), i, Surplus), i, a, n) == s
  {
    var u := s.(refs := s.refs + 1);
    WithStep(u, i, Surplus, a);
    assert Steps(With(u, i, Surplus), i, a, 1) == With(s, i, Finished(s));
    RepeatedAdd(StepOf(i, a), With(u, i, Surplus), 1, n - 1);
    Finishes(s, i, a, n - 1);
  }

  lemma PinFallback(s: State, i: nat, record: bool, made: Option<nat>, a: Answer)
    requires CanStart(s, i) && (made.None? || !record)
    ensures Steps(With(s.(refs := s.refs + 1), i, Made(record, made)), i, a, 3) == PinnedBy(s, made, record)
  {
    var u := With(s.(refs := s.refs + 1), i, Made(record, made));
    WithStep(s.(refs := s.refs + 1), i, Made(record, made), a);
    assert Steps(u, i, a, 1) == With(PinnedBy(s, made, record), i, Finished(s));
    RepeatedAdd(StepOf(i, a), u, 1, 2);
    Finishes(PinnedBy(s, made, record), i, a, 2);
  }

  lemma PinKnown(s: State, i: nat, x: nat, a: Answer)
    requires CanStart(s, i) && x in s.table
    ensures Steps(With(s.(refs := s.refs + 1), i, Made(true, Some(x))), i, a, 3) == PinnedBy(s, Some(x), true)
  {
    var u := With(s.(refs := s.refs + 1), i, Made(true, Some(x)));
    WithStep(s.(refs := s.refs + 1), i, Made(true, Some(x)), a);
    assert Steps(u, i, a, 1) == With(s.(refs := s.refs + 1), i, Surplus);
    RepeatedAdd(StepOf(i, a), u, 1, 2);
    GivesBack(s, i, a, 2);
  }

  lemma PinNew(s: State, i: nat, x: nat, a: Answer)
    requires CanStart(s, i) && x !in s.table
    ensures Steps(With(s.(refs := s.refs + 1), i, Made(true, Some(x))), i, a, 3) == PinnedBy(s, Some(x), true)
  {
    var u := With(s.(refs := s.refs + 1), i, Made(true, Some(x)));
    var w := s.(refs := s.refs + 1, table := s.table + {x});
    WithStep(s.(refs := s.refs + 1), i, Made(true, Some(x)), a);
    assert Steps(u, i, a, 1) == With(w, i, Hashed(x));
    WithStep(w, i, Hashed(x), a);
    assert Steps(u, i, a, 2) == With(PinnedBy(s, Some(x), true), i, Finished(s));
    RepeatedAdd(StepOf(i, a), u, 2, 1);
    Finishes(PinnedBy(s, Some(x), true), i, a, 1);
  }

  /** pin_inode(), from the moment the real helper has returned. */
  lemma PinEffect(s: State, i: nat, record: bool, made: Option<nat>, a: Answer)
    requires CanStart(s, i)
    ensures Steps(With(s.(refs := s.refs + 1), i, Made(record, made)), i, a, 3) == PinnedBy(s, made, record)
  {
    if made.None? || !record {
      PinFallback(s, i, record, made, a);
    } else if made.value in s.table {
      PinKnown(s, i, made.value, a);
    } else {
      PinNew(s, i, made.value, a);
    }
  }

  /** From the start of the call to the decision whether to go on. */
  lemma CallAdmitted(s: State, i: nat, a: Answer)
    requires CanStart(s, i)
    ensures Steps(Next(s, StartPin(i)), i, a, if s.mutexed then 2 else 1)
         == With(s, i, if s.mutexed && s.stopping then Leaving else Admitted)
  {
    assert Next(s, StartPin(i)) == With(s, i, Queued);
    WithStep(s, i, Queued, a);
    assert Steps(Next(s, StartPin(i)), i, a, 1) == With(s, i, if s.mutexed then Inside else Admitted);
    if s.mutexed {
      WithStep(s, i, Inside, a);
      assert Steps(Next(s, StartPin(i)), i, a, 2) == Next(With(s, i, Inside), Step(i, a));
    }
  }

  /** From there to the real helper, or out. */
  lemma CallGoesOn(s: State, i: nat, a: Answer)
    requires CanStart(s, i) && (a.made.Found? ==> Returnable(s, a.made.inode))
    ensures Steps(With(s, i, Admitted), i, a, 6) == CalledBy(s.(stopping := false), a).(stopping := s.stopping)
  {
    var u := With(s, i, Admitted);
    WithStep(s, i, Admitted, a);
    if !s.mutexed && !a.record {
      assert Steps(u, i, a, 1) == With(s, i, Finished(s));
      RepeatedAdd(StepOf(i, a), u, 1, 5);
      Finishes(s, i, a, 5);
    } else {
      assert Steps(u, i, a, 1) == With(s, i, Allocated(a.record));
      RepeatedAdd(StepOf(i, a), u, 1, 5);
      CallHolds(s, i, a);
    }
  }

  lemma CallHolds(s: State, i: nat, a: Answer)
    requires CanStart(s, i) && (a.made.Found? ==> Returnable(s, a.made.inode)) && (s.mutexed || a.record)
    ensures Steps(With(s, i, Allocated(a.record)), i, a, 5) == CalledBy(s.(stopping := false), a).(stopping := s.stopping)
  {
    var u := With(s, i, Allocated(a.record));
    WithStep(s, i, Allocated(a.record), a);
    RepeatedAdd(StepOf(i, a), u, 1, 4);
    if !a.moduleLive {
      assert Steps(u, i, a, 1) == With(s, i, Finished(s));
      Finishes(s, i, a, 4);
    } else {
      assert Steps(u, i, a, 1) == With(s.(refs := s.refs + 1), i, Tentative(a.record));
      CallMakes(s, i, a);
    }
  }

  lemma CallMakes(s: State, i: nat, a: Answer)
    requires CanStart(s, i) && (a.made.Found? ==> Returnable(s, a.made.inode)) && (s.mutexed || a.record) && a.moduleLive
    ensures Steps(With(s.(refs := s.refs + 1), i, Tentative(a.record)), i, a, 4)
         == CalledBy(s.(stopping := false), a).(stopping := s.stopping)
  {
    hide Next, Inv;
    var r := s.(refs := s.refs + 1);
    var u := With(r, i, Tentative(a.record));
    WithStep(r, i, Tentative(a.record), a);
    RepeatedAdd(StepOf(i, a), u, 1, 3);
    if a.made.Failed? {
      assert Steps(u, i, a, 1) == With(r, i, Surplus);
      GivesBack(s, i, a, 3);
    } else {
      var h := s.(inodes := if a.made.Found? then Hold(s.inodes, a.made.inode) else s.inodes);
      assert Steps(u, i, a, 1) == With(h.(refs := h.refs + 1), i, Made(a.record, FoundInode(a)));
      PinEffect(h, i, a.record, FoundInode(a), a);
    }
  }

  /** The whole effect of a call is what its operations add up to. */
  lemma CallEffect(s: State, i: nat, a: Answer)
    requires CanStart(s, i) && (a.made.Found? ==> Returnable(s, a.made.inode))
    ensures Steps(Next(s, StartPin(i)), i, a, if s.mutexed then 8 else 7) == CalledBy(s, a)
  {
    CallAdmitted(s, i, a);
    RepeatedAdd(StepOf(i, a), Next(s, StartPin(i)), if s.mutexed then 2 else 1, 6);
    if s.mutexed && s.stopping {
      Finishes(s, i, a, 6);
    } else {
      CallGoesOn(s, i, a);
    }
  }

  // ------------------------------------------------------------------ one eviction

  /** The eviction hook: the real eviction first, then the pin goes with its reference. */
  function UnpinnedBy(s: State, x: nat): State {
    s.(table := s.table - {x},
       count := if x in s.table then s.count - 1 else s.count,
       refs := if x in s.table then s.refs - 1 else s.refs,
       inodes := s.inodes - {x})
  }

  function EvictingWith(s: State, i: nat, t: Thread, x: nat, life: Inode): State
    requires i < |s.threads|
  {
    s.(threads := s.threads[i := t], inodes := s.inodes[x := life])
  }

  /** The last operation of an eviction that had a pin to give back. */
  lemma EvictLast(s: State, i: nat, x: nat, a: Answer)
    requires i < |s.threads| && s.threads[i].Rest? && x in s.table
    ensures Next(EvictingWith(s.(table := s.table - {x}, count := s.count - 1), i, CountDropped(x), x, Evicted), Step(i, a))
         == UnpinnedBy(s, x)
  {
    assert s.threads[i := CountDropped(x)][i := Rest] == s.threads;
    assert s.inodes[x := Evicted] - {x} == s.inodes - {x};
  }

  lemma EvictUnpins(s: State, i: nat, x: nat, a: Answer)
    requires i < |s.threads| && s.threads[i].Rest?
    ensures Steps(EvictingWith(s, i, EvictRan(x), x, Evicted), i, a, 3) == UnpinnedBy(s, x)
  {
    var u := EvictingWith(s, i, EvictRan(x), x, Evicted);
    assert s.threads[i := Rest] == s.threads;
    assert s.inodes[x := Evicted] - {x} == s.inodes - {x};
    if x in s.table {
      var v := s.(table := s.table - {x});
      assert Steps(u, i, a, 1) == EvictingWith(v, i, Unhashed(x), x, Evicted);
      assert Steps(u, i, a, 2) == EvictingWith(v.(count := s.count - 1), i, CountDropped(x), x, Evicted);
      EvictLast(s, i, x, a);
    } else {
      assert s.table - {x} == s.table;
      assert Steps(u, i, a, 1) == UnpinnedBy(s, x);
      RepeatedAdd(StepOf(i, a), u, 1, 2);
      RestStays(UnpinnedBy(s, x), i, a, 2);
    }
  }

  /** The whole effect of an eviction is what its operations add up to. */
  lemma EvictEffect(s: State, i: nat, x: nat, a: Answer)
    requires i < |s.threads| && s.threads[i].Rest? && x in s.inodes && s.inodes[x] == Live(0)
    ensures Steps(Next(s, StartEvict(i, x)), i, a, 4) == UnpinnedBy(s, x)
  {
    var u := Next(s, StartEvict(i, x));
    assert s.inodes[x := Evicting][x := Evicted] == s.inodes[x := Evicted];
    assert Steps(u, i, a, 1) == EvictingWith(s, i, EvictRan(x), x, Evicted);
    RepeatedAdd(StepOf(i, a), u, 1, 3);
    EvictUnpins(s, i, x, a);
  }

  // ------------------------------------------------------------------ the stop

  /** The three operations of the machine on the flag, with nobody else at the mutex. */
  lemma FlagEffect(s: State, value: bool)
    requires s.mutex.Nobody?
    ensures Next(Next(Next(s, StopLock(value)), StopStep), StopStep) == s.(stopping := value)
  {
  }

  /** With the gate shut and nobody in the mutex, a count of zero leaves nothing pinned; and at
      rest nothing but a pin keeps the count from being zero. */
  lemma ZeroIsUnpinned(s: State)
    requires Inv(s) && s.mutexed && s.stopping && s.mutex.Nobody?
    ensures s.count == 0 ==> Unpinned(s)
    ensures AtRest(s) && Unpinned(s) ==> s.count == 0
  {
    if s.count == 0 {
      ZeroStaysZero(s, []);
    }
    if AtRest(s) {
      ShutCount(s);
      SumZero(s.threads, UnhashedWeight);
    }
  }

  // ------------------------------------------------------------------ the code

  class Pins {
    const mutexed: bool            // the NSFS table; the procfs table has no lifecycle mutex
    var table: set<nat>
    var count: int
    var stopping: bool
    var refs: int                  // module references taken and not put
    ghost var permanent: nat
    ghost var inodes: map<nat, Inode>

    /** The state as module PinTable sees it, with the given threads at rest. */
    ghost function View(threads: seq<Thread>): State
      reads this
    {
      State(mutexed, threads, Nobody, stopping, table, count, permanent, refs, inodes)
    }

    constructor (nsfs: bool)
      ensures mutexed == nsfs && View([]) == Init(nsfs)
    {
      mutexed, table, count, stopping, refs := nsfs, {}, 0, false, 0;
      permanent, inodes := 0, map[];
    }

    /** vns_nsfs_pin_inode() and vns_procfs_pin_inode(): the caller's tentative module reference
        becomes the pin's, or is put if the inode is pinned already. */
    method PinInode(inode: Option<nat>, record: bool)
      modifies this`table, this`count, this`refs, this`permanent
      ensures forall threads :: View(threads) == PinnedBy(old(View(threads)).(refs := old(refs) - 1), inode, record)
    {
      if inode.None? || !record {
        count := count + 1;
        permanent := permanent + 1;
        return;
      }
      if inode.value in table {
        refs := refs - 1;
        return;
      }
      table := table + {inode.value};
      count := count + 1;
    }

    /** vns_nsfs_unpin_inode() and vns_procfs_unpin_inode(). */
    method UnpinInode(x: nat)
      modifies this`table, this`count, this`refs
      ensures table == old(table) - {x}
      ensures count == old(count) - (if x in old(table) then 1 else 0)
        && refs == old(refs) - (if x in old(table) then 1 else 0)
    {
      if x !in table {
        return;
      }
      table := table - {x};
      count := count - 1;
      refs := refs - 1;
    }

    /** The eviction hooks. */
    method Evict(x: nat)
      modifies this
      ensures forall threads :: View(threads) == UnpinnedBy(old(View(threads)), x)
    {
      inodes := inodes - {x};
      UnpinInode(x);
    }

    /** The path-helper hooks and the fallback part of the procfs lookup hook. */
    method CallHelper(a: Answer) returns (made: bool)
      modifies this
      ensures forall threads :: View(threads) == CalledBy(old(View(threads)), a)
      ensures made <==> !Declined(old(View([])), a)
    {
      if mutexed && stopping {
        return false;
      }
      if !mutexed && !a.record {
        return false;
      }
      if !a.moduleLive {
        return false;
      }
      refs := refs + 1;
      if a.made.Failed? {
        refs := refs - 1;
        return false;
      }
      inodes := if a.made.Found? then Hold(inodes, a.made.inode) else inodes;
      PinInode(if a.made.Found? then Some(a.made.inode) else None, a.record);
      return true;
    }

    /** vns_nsfs_lifecycle_begin_exit(): the machine's three operations on the flag, after which
        the gate is shut. */
    method BeginExit()
      modifies this`stopping
      ensures forall threads :: View(threads)
                == Next(Next(Next(old(View(threads)), StopLock(true)), StopStep), StopStep)
      ensures mutexed ==> forall threads :: Shut(View(threads))
    {
      ghost var s := View([]);
      stopping := true;
      forall threads ensures View(threads) ==
        Next(Next(Next(s.(threads := threads), StopLock(true)), StopStep), StopStep)
      {
        FlagEffect(s.(threads := threads), true);
      }
    }

    /** vns_nsfs_lifecycle_abort_exit(): the same with the gate open. */
    method AbortExit()
      modifies this`stopping
      ensures forall threads :: View(threads)
                == Next(Next(Next(old(View(threads)), StopLock(false)), StopStep), StopStep)
      ensures forall threads :: !Shut(View(threads))
    {
      ghost var s := View([]);
      stopping := false;
      forall threads ensures View(threads) ==
        Next(Next(Next(s.(threads := threads), StopLock(false)), StopStep), StopStep)
      {
        FlagEffect(s.(threads := threads), false);
      }
    }

    /** vns_nsfs_lifecycle_prepare_exit(): whatever the other threads are doing, it accepts only
        if nothing is pinned; and with all of them at rest, exactly if the gate is shut and
        nothing is pinned. */
    method PrepareExit() returns (ok: bool)
      requires mutexed
      ensures ok ==> stopping && count == 0
      ensures forall threads | Inv(View(threads)) && ok :: Unpinned(View(threads))
      ensures forall threads | Inv(View(threads)) && AtRest(View(threads)) :: ok <==> stopping && Unpinned(View(threads))
    {
      forall threads | Inv(View(threads)) && stopping
        ensures count == 0 ==> Unpinned(View(threads))
        ensures AtRest(View(threads)) && Unpinned(View(threads)) ==> count == 0
      {
        ZeroIsUnpinned(View(threads));
      }
      if !stopping {
        return false;
      }
      return count == 0;
    }
  }
}
