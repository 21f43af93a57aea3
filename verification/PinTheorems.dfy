/** What every run of a pin table guarantees: references behind pins, coverage of every
    module-owned inode until its real eviction, and the stopping gate. */
module PinTheorems {
  import opened Tally
  import opened PinTable

  lemma InitInv(mutexed: bool)
    ensures Inv(Init(mutexed))
  {
  }

  /** A state of some run of a pin table. */
  ghost predicate Reachable(s: State) {
    exists mutexed, es :: s == Run(Init(mutexed), es)
  }

  lemma ReachableInv(s: State)
    requires Reachable(s)
    ensures Inv(s)
  {
    var mutexed, es :| s == Run(Init(mutexed), es);
    InitInv(mutexed);
    RunInv(Init(mutexed), es);
  }

  /** No thread is between two of the updates of table, counter and references. */
  predicate AtRest(s: State) {
    forall i | 0 <= i < |s.threads| ::
      RefWeight(s.threads[i]) == 0 && HashedWeight(s.threads[i]) == 0
  }

  /** Conservation: every pin, and every unit of the counter, is backed by a module
      reference; at rest references, counter and table agree, so a permanent pin is never
      given back. */
  lemma ReferencesBackPins(s: State)
    requires Reachable(s)
    ensures s.count <= s.refs && |s.table| + s.permanent <= s.refs
    ensures AtRest(s) ==> s.refs == s.count == |s.table| + s.permanent
  {
    ReachableInv(s);
    SumMonotone(s.threads, UnhashedWeight, RefWeight);
    if AtRest(s) {
      SumZero(s.threads, RefWeight);
      SumZero(s.threads, HashedWeight);
      SumZero(s.threads, UnhashedWeight);
    }
  }

  /** A module-owned inode that the real helper returned is covered, and keeps the module
      referenced, until its real eviction has run. */
  lemma CoveredIsReferenced(s: State, x: nat)
    requires Inv(s) && x in s.inodes && s.inodes[x] != Evicted
    ensures Covered(s, x) && s.refs >= 1
  {
    if x in s.table {
      assert |s.table| == |s.table - {x}| + 1;
    } else if s.permanent == 0 {
      var i :| 0 <= i < |s.threads| && Pinning(s.threads[i], x);
      SumMember(s.threads, i, RefWeight);
    }
  }

  lemma CoverageUntilEviction(s: State, x: nat)
    requires Reachable(s) && x in s.inodes && s.inodes[x] != Evicted
    ensures Covered(s, x) && s.refs >= 1
  {
    ReachableInv(s);
    CoveredIsReferenced(s, x);
  }

  /** Only a thread past the check can raise the counter. */
  lemma CountRises(s: State, e: Event)
    ensures Next(s, e).count <= s.count || (e.Step? && e.thread < |s.threads| && PastCheck(s.threads[e.thread]))
  {
  }

  /** begin_exit has returned and nobody is about to abort. */
  predicate Shut(s: State) {
    s.mutexed && s.stopping && !(s.mutex.Stopper? && !s.mutex.value)
  }

  lemma BeginExitShuts(s: State)
    requires s.mutexed && s.mutex.Nobody?
    ensures var t := Next(Next(Next(s, StopLock(true)), StopStep), StopStep);
            Shut(t) && t.mutex.Nobody? && t.count == s.count && t.threads == s.threads
  {
  }

  lemma ShutStep(s: State, e: Event)
    requires Inv(s) && Shut(s) && e != StopLock(false)
    ensures Shut(Next(s, e)) && Next(s, e).count <= s.count
  {
    CountRises(s, e);
  }

  /** After begin_exit the pin count never rises until abort_exit. */
  lemma {:induction false} ShutRun(s: State, es: seq<Event>)
    requires Inv(s) && Shut(s) && StopLock(false) !in es
    ensures Inv(Run(s, es)) && Shut(Run(s, es)) && Run(s, es).count <= s.count
  {
    if es != [] {
      ShutRun(s, es[..|es| - 1]);
      ShutStep(Run(s, es[..|es| - 1]), es[|es| - 1]);
      NextInv(Run(s, es[..|es| - 1]), es[|es| - 1]);
    }
  }

  lemma ShutCount(s: State)
    requires Inv(s) && (Shut(s) || forall i | 0 <= i < |s.threads| :: !s.threads[i].Hashed?)
    ensures s.count == |s.table| + s.permanent + Sum(s.threads, UnhashedWeight)
  {
    SumZero(s.threads, HashedWeight);
  }

  /** Every inode that the table's helper ever returned has been evicted. */
  predicate AllEvicted(s: State) {
    forall x | x in s.inodes :: s.inodes[x] == Evicted
  }

  /** A table that pins nothing: no entry, no permanent pin and no inode alive. */
  predicate Unpinned(s: State) {
    s.table == {} && s.permanent == 0 && AllEvicted(s)
  }

  /** prepare_exit accepts a count of zero only when nothing is pinned, and from then on
      nothing becomes pinned until abort_exit. */
  lemma ZeroStaysZero(s: State, es: seq<Event>)
    requires Inv(s) && Shut(s) && s.count == 0 && StopLock(false) !in es
    ensures var t := Run(s, es);
            t.count == 0 && Unpinned(t)
  {
    ShutRun(s, es);
    var t := Run(s, es);
    ShutCount(t);
    forall x | x in t.inodes ensures t.inodes[x] == Evicted {
      assert t.inodes[x] != Evicted ==> Covered(t, x);
      assert !BeingPinned(t, x);
    }
  }
}
