/** When the controlled stop can still succeed: from a settled system exactly if no call has leaked
    and no inode is pinned for good.  Live inodes do not matter, as they can be evicted first. */
module StopPossible {
  import opened Tally
  import opened Runs
  import opened ControlledStop
  import opened StopProof
  import opened StopTheorems
  import opened StopProgress
  import H = HookEngine
  import P = PinTable
  import PT = PinTheorems
  import O = PidnsOps
  import S = ShadowHijack
  import I = InodePins

  // ------------------------------------------------------------------ settled systems

  predicate Finished(p: H.Phase) {
    p.Returned? || p.FellThrough? || p.Leaked?
  }

  /** No eviction is under way. */
  predicate AllLive(p: P.State) {
    forall x | x in p.inodes :: p.inodes[x].Live?
  }

  /** No call, no stop and no lifecycle operation is under way in a module that is loaded. */
  predicate Settled(s: State) {
    && s.pc.Ready? && s.eng.live && s.eng.control.Idle? && s.eng.lock.Free? && s.nsfs.mutex.Nobody?
    && (forall i | 0 <= i < |s.eng.calls| :: Finished(s.eng.calls[i].phase))
    && AllLive(s.nsfs) && AllLive(s.proc)
  }

  /** Hook `h` redirects the eviction of NSFS or of procfs inodes. */
  predicate Evicts(s: State, h: nat, nsfs: bool) {
    h < |s.roles| && h < |s.eng.hooks| && s.eng.hooks[h].armed && s.roles[h] == if nsfs then NsfsEvict else ProcEvict
  }

  predicate Evictable(s: State) {
    && (exists h | 0 <= h < |s.roles| :: Evicts(s, h, true))
    && (exists h | 0 <= h < |s.roles| :: Evicts(s, h, false))
  }

  /** What blocks every later stop. */
  predicate Blocked(s: State) {
    s.nsfs.permanent > 0 || s.proc.permanent > 0 || exists i | 0 <= i < |s.eng.calls| :: s.eng.calls[i].phase.Leaked?
  }

  ghost predicate Leads(s: State, t: State) {
    exists es :: t == Run(s, es)
  }

  lemma LeadsOn(s: State, t: State, u: State)
    requires Leads(s, t) && Leads(t, u)
    ensures Leads(s, u)
  {
    var a :| t == Run(s, a);
    var b :| u == Run(t, b);
    RunBoth(Next, Run, s, a, b);
    assert u == Run(s, a + b);
  }

  lemma OneEvent(s: State, e: Event)
    ensures Leads(s, Next(s, e))
  {
    assert [e][..0] == [];
    assert Run(s, []) == s;
    assert Run(s, [e]) == Next(s, e);
  }

  lemma LeadsInv(s: State, t: State)
    requires Inv(s) && Leads(s, t)
    ensures Inv(t)
  {
    var es :| t == Run(s, es);
    RunInv(s, es);
  }

  // ------------------------------------------------------------------ one call

  /** Call `i` has no pinning work and no question. */
  predicate Slack(s: State, i: nat) {
    && i < |s.eng.calls| == |s.nsfs.threads| == |s.proc.threads| == |s.ops.threads|
    && s.nsfs.threads[i].Rest? && s.proc.threads[i].Rest? && s.ops.threads[i].Idle?
  }

  /** An operation of a call without pinning work is one of the engine alone. */
  lemma CallStep(s: State, i: nat)
    requires Slack(s, i)
    ensures Next(s, Engine(H.Advance(i, true))) == s.(eng := H.Next(s.eng, H.Advance(i, true)))
    ensures Slack(s.(eng := H.Next(s.eng, H.Advance(i, true))), i)
  {
    assert s.ops.threads[i := O.Idle] == s.ops.threads;
  }

  lemma {:induction false} CallSteps(s: State, i: nat, n: nat)
    requires Slack(s, i)
    ensures Slack(s.(eng := S.Advances(s.eng, i, true, n)), i)
    ensures Leads(s, s.(eng := S.Advances(s.eng, i, true, n)))
  {
    if n == 0 {
      assert Run(s, []) == s;
    } else {
      CallSteps(s, i, n - 1);
      var t := s.(eng := S.Advances(s.eng, i, true, n - 1));
      CallStep(t, i);
      OneEvent(t, Engine(H.Advance(i, true)));
      LeadsOn(s, t, Next(t, Engine(H.Advance(i, true))));
    }
  }

  /** The system with a slot for one more call. */
  function Slotted(s: State, e: H.State): State {
    s.(eng := e, nsfs := s.nsfs.(threads := s.nsfs.threads + [P.Rest]),
       proc := s.proc.(threads := s.proc.threads + [P.Rest]), ops := s.ops.(threads := s.ops.threads + [O.Idle]))
  }

  /** A call of an armed hook gets in, if its hook lets it. */
  lemma CallEnters(s: State, h: nat)
    requires Linked(s) && h < |s.eng.hooks| && s.eng.hooks[h].armed && s.eng.lock.Free?
    ensures Leads(s, Slotted(s, S.EnteredBy(s.eng, h, true)))
    ensures Slack(Slotted(s, S.EnteredBy(s.eng, h, true)), |s.eng.calls|)
  {
    var e := Engine(H.Fire(h, false));
    var t := Slotted(s, H.Next(s.eng, H.Fire(h, false)));
    assert Next(s, e) == t;
    OneEvent(s, e);
    CallSteps(t, |s.eng.calls|, 7);
    S.EnterEffect(s.eng, h, true);
    LeadsOn(s, t, t.(eng := S.EnteredBy(s.eng, h, true)));
  }

  /** A tracked call without pinning work returns. */
  lemma CallReturns(s: State, i: nat)
    requires Slack(s, i) && s.eng.calls[i].phase == H.Body(H.Tracked) && s.eng.calls[i].hook < |s.eng.hooks|
    ensures Leads(s, s.(eng := S.ReturnedFrom(s.eng, i)))
  {
    CallSteps(s, i, 4);
    S.ReturnEffect(s.eng, i);
  }

  // ------------------------------------------------------------------ one inode

  /** One of the two tables. */
  function Table(s: State, nsfs: bool): P.State {
    if nsfs then s.nsfs else s.proc
  }

  function WithTable(s: State, nsfs: bool, p: P.State, other: nat): State {
    var t := s.(eng := s.eng.(other := other));
    if nsfs then t.(nsfs := p) else t.(proc := p)
  }

  function OnTable(nsfs: bool, v: P.Event): Event {
    if nsfs then Nsfs(v) else Proc(v)
  }

  predicate TableAllowed(s: State, nsfs: bool, v: P.Event) {
    if nsfs then NsfsAllowed(s, v) else ProcAllowed(s, v)
  }

  /** Some continuation changes the one table to `p` and otherwise only the number of references. */
  ghost predicate TableLeads(s: State, nsfs: bool, p: P.State) {
    exists other :: Leads(s, WithTable(s, nsfs, p, other))
  }

  lemma TableStays(s: State, nsfs: bool)
    ensures TableLeads(s, nsfs, Table(s, nsfs))
  {
    assert Run(s, []) == s;
    assert Leads(s, WithTable(s, nsfs, Table(s, nsfs), s.eng.other));
  }

  lemma TableNext(s: State, nsfs: bool, p: P.State, v: P.Event, other: nat)
    requires TableAllowed(WithTable(s, nsfs, p, other), nsfs, v)
    ensures var u := Next(WithTable(s, nsfs, p, other), OnTable(nsfs, v));
            u == WithTable(s, nsfs, P.Next(p, v), u.eng.other)
  {
    hide P.Next;
  }

  lemma TableMoves(s: State, nsfs: bool, p: P.State, v: P.Event)
    requires TableLeads(s, nsfs, p) && forall other :: TableAllowed(WithTable(s, nsfs, p, other), nsfs, v)
    ensures TableLeads(s, nsfs, P.Next(p, v))
  {
    var other :| Leads(s, WithTable(s, nsfs, p, other));
    var t := WithTable(s, nsfs, p, other);
    TableNext(s, nsfs, p, v, other);
    hide Next, P.Next, Leads;
    OneEvent(t, OnTable(nsfs, v));
    LeadsOn(s, t, Next(t, OnTable(nsfs, v)));
  }

  predicate InEviction(t: P.Thread) {
    t.Rest? || P.Target(t).Some?
  }

  lemma EvictionStep(p: P.State, i: nat, a: P.Answer)
    requires i < |p.threads| && InEviction(p.threads[i])
    ensures |P.Next(p, P.Step(i, a)).threads| == |p.threads| && InEviction(P.Next(p, P.Step(i, a)).threads[i])
  {
  }

  lemma StepAllowed(s: State, nsfs: bool, p: P.State, i: nat, a: P.Answer, other: nat)
    requires i < |p.threads| && InEviction(p.threads[i]) && a.moduleLive == s.eng.live
    ensures TableAllowed(WithTable(s, nsfs, p, other), nsfs, P.Step(i, a))
  {
  }

  lemma StartAllowed(s: State, nsfs: bool, p: P.State, i: nat, x: nat, other: nat)
    requires HasRole(s, i, if nsfs then NsfsEvict else ProcEvict)
    ensures TableAllowed(WithTable(s, nsfs, p, other), nsfs, P.StartEvict(i, x))
  {
  }

  lemma {:induction false} EvictionSteps(s: State, nsfs: bool, p: P.State, i: nat, a: P.Answer, n: nat)
    requires TableLeads(s, nsfs, p) && i < |p.threads| && InEviction(p.threads[i]) && a.moduleLive == s.eng.live
    ensures var q := I.Steps(p, i, a, n);
            TableLeads(s, nsfs, q) && i < |q.threads| && InEviction(q.threads[i])
  {
    if n > 0 {
      EvictionSteps(s, nsfs, p, i, a, n - 1);
      var q := I.Steps(p, i, a, n - 1);
      assert I.Steps(p, i, a, n) == P.Next(q, P.Step(i, a));
      hide TableLeads, TableAllowed, P.Next, I.Steps, InEviction;
      EvictionStep(q, i, a);
      forall other: nat ensures TableAllowed(WithTable(s, nsfs, q, other), nsfs, P.Step(i, a)) {
        StepAllowed(s, nsfs, q, i, a, other);
      }
      TableMoves(s, nsfs, q, P.Step(i, a));
    }
  }

  /** An eviction call in its body evicts an inode that nobody holds. */
  lemma EvictsInode(s: State, nsfs: bool, i: nat, x: nat)
    requires HasRole(s, i, if nsfs then NsfsEvict else ProcEvict) && Slack(s, i)
    requires x in Table(s, nsfs).inodes && Table(s, nsfs).inodes[x] == P.Live(0)
    ensures TableLeads(s, nsfs, I.UnpinnedBy(Table(s, nsfs), x))
  {
    var a, p := P.Answer(true, s.eng.live, P.Failed), Table(s, nsfs);
    var q := P.Next(p, P.StartEvict(i, x));
    assert InEviction(q.threads[i]) && |q.threads| == |p.threads|;
    TableStays(s, nsfs);
    I.EvictEffect(p, i, x, a);
    hide TableLeads, TableAllowed, P.Next, I.Steps, I.UnpinnedBy, InEviction;
    forall other: nat ensures TableAllowed(WithTable(s, nsfs, p, other), nsfs, P.StartEvict(i, x)) {
      StartAllowed(s, nsfs, p, i, x, other);
    }
    TableMoves(s, nsfs, p, P.StartEvict(i, x));
    EvictionSteps(s, nsfs, q, i, a, 4);
  }

  /** The table with nobody holding a path of `x`. */
  function Unheld(p: P.State, x: nat): P.State {
    p.(inodes := p.inodes[x := P.Live(0)])
  }

  /** The holders of an inode let go of it. */
  lemma {:induction false} PathsDropped(s: State, nsfs: bool, p: P.State, x: nat, n: nat)
    requires TableLeads(s, nsfs, p) && forall i | 0 <= i < |p.threads| :: p.threads[i].Rest?
    requires x in p.inodes && p.inodes[x] == P.Live(n)
    ensures TableLeads(s, nsfs, Unheld(p, x))
    decreases n
  {
    hide TableLeads;
    if n == 0 {
      assert p.inodes[x := P.Live(0)] == p.inodes;
    } else {
      SumZero(p.threads, P.HolderWeight(x));
      var q := p.(inodes := p.inodes[x := P.Live(n - 1)]);
      assert P.Next(p, P.DropPath(x)) == q;
      TableMoves(s, nsfs, p, P.DropPath(x));
      assert q.inodes[x := P.Live(0)] == p.inodes[x := P.Live(0)];
      PathsDropped(s, nsfs, q, x, n - 1);
    }
  }

  // ------------------------------------------------------------------ one eviction, from call to return

  /** In a settled system no call has pinning work or a question left. */
  lemma SlotsRest(s: State)
    requires Inv(s) && Settled(s)
    ensures forall i | 0 <= i < |s.eng.calls| :: Slack(s, i)
    ensures forall i | 0 <= i < |s.nsfs.threads| :: s.nsfs.threads[i].Rest?
    ensures forall i | 0 <= i < |s.proc.threads| :: s.proc.threads[i].Rest?
  {
    forall i | 0 <= i < |s.eng.calls| ensures Slack(s, i) {
      assert SlotOk(s.eng.calls[i], s.nsfs.threads[i], s.proc.threads[i], s.ops.threads[i]);
    }
  }

  /** The engine lets a call of an eviction hook in, whatever the quiesce flag says. */
  lemma EvictionAdmitted(s: State, h: nat, nsfs: bool)
    requires Inv(s) && Settled(s) && Evicts(s, h, nsfs)
    ensures S.Admits(s.eng, h)
  {
    assert H.HookOk(s.eng, h);
  }

  /** The system once an eviction call has entered its body. */
  function InBodyOf(s: State, h: nat): State
    requires h < |s.eng.hooks|
  {
    Slotted(s, S.EnteredBy(s.eng, h, true))
  }

  lemma EvictionEnters(s: State, h: nat, nsfs: bool)
    requires Inv(s) && Settled(s) && Evicts(s, h, nsfs)
    ensures var t, i := InBodyOf(s, h), |s.eng.calls|;
            && Leads(s, t) && Slack(t, i) && HasRole(t, i, if nsfs then NsfsEvict else ProcEvict)
            && t.eng == s.eng.(calls := t.eng.calls, hooks := t.eng.hooks, refs := t.eng.refs, inflight := t.eng.inflight)
            && t.eng.calls == s.eng.calls + [H.Call(h, s.eng.hooks[h].exempt, H.Body(H.Tracked))]
            && t.eng.hooks == s.eng.hooks[h := s.eng.hooks[h].(inflight := s.eng.hooks[h].inflight + 1)]
  {
    EvictionAdmitted(s, h, nsfs);
    S.EnteredFields(s.eng, h, true);
    hide S.EnteredBy, Next;
    CallEnters(s, h);
  }

  // ------------------------------------------------------------------ one inode less

  /** A settled system that comes after `s` and can be cleared as well. */
  ghost predicate Follows(s: State, t: State) {
    Leads(s, t) && Inv(t) && Settled(t) && Evictable(t) && (Blocked(t) ==> Blocked(s))
  }

  lemma StillEvictable(s: State, t: State)
    requires Evictable(s) && t.roles == s.roles && |t.eng.hooks| == |s.eng.hooks|
    requires forall h | 0 <= h < |s.eng.hooks| :: t.eng.hooks[h].armed == s.eng.hooks[h].armed
    ensures Evictable(t)
  {
    var a :| 0 <= a < |s.roles| && Evicts(s, a, true);
    var b :| 0 <= b < |s.roles| && Evicts(s, b, false);
    assert Evicts(t, a, true) && Evicts(t, b, false);
  }

  lemma UnheldSettled(s: State, nsfs: bool, x: nat, other: nat)
    requires Settled(s) && Evictable(s) && x in Table(s, nsfs).inodes
    ensures var t := WithTable(s, nsfs, Unheld(Table(s, nsfs), x), other);
            Settled(t) && Evictable(t) && (Blocked(t) ==> Blocked(s))
  {
    StillEvictable(s, WithTable(s, nsfs, Unheld(Table(s, nsfs), x), other));
    hide Evictable;
  }

  /** First its holders let go of the inode ... */
  lemma Released(s: State, nsfs: bool, x: nat)
    requires Inv(s) && Settled(s) && Evictable(s) && x in Table(s, nsfs).inodes
    ensures exists other: nat :: Follows(s, WithTable(s, nsfs, Unheld(Table(s, nsfs), x), other))
  {
    var p := Table(s, nsfs);
    SlotsRest(s);
    TableStays(s, nsfs);
    hide Inv, Leads, Evictable, Blocked;
    PathsDropped(s, nsfs, p, x, p.inodes[x].holders);
    var other :| Leads(s, WithTable(s, nsfs, Unheld(p, x), other));
    LeadsInv(s, WithTable(s, nsfs, Unheld(p, x), other));
    UnheldSettled(s, nsfs, x, other);
    hide Settled;
    assert Follows(s, WithTable(s, nsfs, Unheld(p, x), other));
  }

  /** The whole of one eviction. */
  function AfterEviction(s: State, h: nat, nsfs: bool, x: nat, other: nat): State
    requires h < |s.eng.hooks|
  {
    var t := InBodyOf(s, h);
    WithTable(t, nsfs, I.UnpinnedBy(Table(t, nsfs), x), other)
  }

  lemma InBodyFields(s: State, h: nat)
    requires h < |s.eng.hooks| && s.eng.lock.Free? && S.Admits(s.eng, h)
    ensures var t := InBodyOf(s, h);
            && t.eng.calls == s.eng.calls + [H.Call(h, s.eng.hooks[h].exempt, H.Body(H.Tracked))]
            && t.eng.hooks == s.eng.hooks[h := s.eng.hooks[h].(inflight := s.eng.hooks[h].inflight + 1)]
            && t.pc == s.pc && t.roles == s.roles && t.eng.live == s.eng.live && t.eng.control == s.eng.control
            && t.eng.lock == s.eng.lock && t.nsfs.mutex == s.nsfs.mutex
  {
    S.EnteredFields(s.eng, h, true);
    hide S.EnteredBy;
  }

  lemma TableFields(t: State, nsfs: bool, p: P.State, other: nat)
    requires p.mutex == Table(t, nsfs).mutex
    ensures var u := WithTable(t, nsfs, p, other);
            u.eng == t.eng.(other := other) && u.pc == t.pc && u.roles == t.roles && u.nsfs.mutex == t.nsfs.mutex
  {
  }

  lemma UnpinnedMutex(p: P.State, x: nat)
    ensures I.UnpinnedBy(p, x).mutex == p.mutex
  {
  }

  lemma AfterEvictionFields(s: State, h: nat, nsfs: bool, x: nat, other: nat)
    requires h < |s.eng.hooks| && s.eng.lock.Free? && S.Admits(s.eng, h)
    ensures var t := AfterEviction(s, h, nsfs, x, other);
            && t.eng.calls == s.eng.calls + [H.Call(h, s.eng.hooks[h].exempt, H.Body(H.Tracked))]
            && t.eng.hooks == s.eng.hooks[h := s.eng.hooks[h].(inflight := s.eng.hooks[h].inflight + 1)]
            && t.pc == s.pc && t.roles == s.roles && t.eng.live == s.eng.live && t.eng.control == s.eng.control
            && t.eng.lock == s.eng.lock && t.nsfs.mutex == s.nsfs.mutex
  {
    InBodyFields(s, h);
    var t := InBodyOf(s, h);
    hide InBodyOf, I.UnpinnedBy, S.Admits;
    assert AfterEviction(s, h, nsfs, x, other) == WithTable(t, nsfs, I.UnpinnedBy(Table(t, nsfs), x), other);
    UnpinnedMutex(Table(t, nsfs), x);
    hide AfterEviction;
    TableFields(t, nsfs, I.UnpinnedBy(Table(t, nsfs), x), other);
    hide WithTable;
  }

  /** The system after the eviction call has returned. */
  function Evicted(s: State, h: nat, nsfs: bool, x: nat, other: nat): State
    requires h < |s.eng.hooks| && s.eng.lock.Free? && S.Admits(s.eng, h)
  {
    AfterEvictionFields(s, h, nsfs, x, other);
    var t := AfterEviction(s, h, nsfs, x, other);
    t.(eng := S.ReturnedFrom(t.eng, |s.eng.calls|))
  }

  /** ... then it is evicted. */
  lemma EvictionEnds(s: State, h: nat, nsfs: bool, x: nat)
    requires Inv(s) && Settled(s) && Evicts(s, h, nsfs)
    requires x in Table(s, nsfs).inodes && Table(s, nsfs).inodes[x] == P.Live(0)
    ensures S.Admits(s.eng, h) && exists other: nat :: Leads(s, Evicted(s, h, nsfs, x, other))
  {
    var t, i := InBodyOf(s, h), |s.eng.calls|;
    EvictionAdmitted(s, h, nsfs);
    EvictionEnters(s, h, nsfs);
    EvictsInode(t, nsfs, i, x);
    var other :| Leads(t, WithTable(t, nsfs, I.UnpinnedBy(Table(t, nsfs), x), other));
    var u := AfterEviction(s, h, nsfs, x, other);
    AfterEvictionFields(s, h, nsfs, x, other);
    assert Slack(u, i);
    hide Leads, Inv, Settled, S.ReturnedFrom, InBodyOf, WithTable, Slack, HasRole;
    CallReturns(u, i);
    LeadsOn(s, t, u);
    LeadsOn(s, u, Evicted(s, h, nsfs, x, other));
  }

  /** The return of the one call that `t` has more than `s`. */
  lemma ReturnShape(s: State, t: State, h: nat)
    requires h < |s.eng.hooks|
    requires t.eng.calls == s.eng.calls + [H.Call(h, s.eng.hooks[h].exempt, H.Body(H.Tracked))]
    requires t.eng.hooks == s.eng.hooks[h := s.eng.hooks[h].(inflight := s.eng.hooks[h].inflight + 1)]
    ensures var e := S.ReturnedFrom(t.eng, |s.eng.calls|);
            && e == t.eng.(calls := e.calls, refs := e.refs, hooks := e.hooks, inflight := e.inflight)
            && e.calls == s.eng.calls + [H.Call(h, s.eng.hooks[h].exempt, H.Returned)]
            && |e.hooks| == |s.eng.hooks|
            && (forall g | 0 <= g < |s.eng.hooks| :: e.hooks[g].armed == s.eng.hooks[g].armed)
  {
  }

  lemma EvictedShape(s: State, h: nat, nsfs: bool, x: nat, other: nat)
    requires h < |s.eng.hooks| && s.eng.lock.Free? && S.Admits(s.eng, h)
    ensures var u := Evicted(s, h, nsfs, x, other);
            && u.eng.calls == s.eng.calls + [H.Call(h, s.eng.hooks[h].exempt, H.Returned)]
            && |u.eng.hooks| == |s.eng.hooks|
            && (forall g | 0 <= g < |s.eng.hooks| :: u.eng.hooks[g].armed == s.eng.hooks[g].armed)
            && u.pc == s.pc && u.roles == s.roles && u.eng.live == s.eng.live && u.eng.control == s.eng.control
            && u.eng.lock == s.eng.lock && u.nsfs.mutex == s.nsfs.mutex
  {
    AfterEvictionFields(s, h, nsfs, x, other);
    ReturnShape(s, AfterEviction(s, h, nsfs, x, other), h);
    hide AfterEviction, S.ReturnedFrom, S.Admits;
  }

  lemma EvictedTables(s: State, h: nat, nsfs: bool, x: nat, other: nat)
    requires h < |s.eng.hooks| && s.eng.lock.Free? && S.Admits(s.eng, h)
    ensures var u := Evicted(s, h, nsfs, x, other);
            && Table(u, nsfs).inodes == Table(s, nsfs).inodes - {x} && Table(u, !nsfs).inodes == Table(s, !nsfs).inodes
            && u.nsfs.permanent == s.nsfs.permanent && u.proc.permanent == s.proc.permanent
  {
    hide S.EnteredBy, S.ReturnedFrom;
  }

  lemma EvictedSettled(s: State, h: nat, nsfs: bool, x: nat, other: nat)
    requires Settled(s) && Evictable(s) && h < |s.eng.hooks| && S.Admits(s.eng, h)
    ensures Settled(Evicted(s, h, nsfs, x, other)) && Evictable(Evicted(s, h, nsfs, x, other))
  {
    var u := Evicted(s, h, nsfs, x, other);
    EvictedShape(s, h, nsfs, x, other);
    EvictedTables(s, h, nsfs, x, other);
    hide Evicted;
    StillEvictable(s, u);
    assert AllLive(u.nsfs) && AllLive(u.proc);
    hide Evictable;
  }

  lemma EvictedBlocked(s: State, h: nat, nsfs: bool, x: nat, other: nat)
    requires h < |s.eng.hooks| && s.eng.lock.Free? && S.Admits(s.eng, h)
    ensures Blocked(Evicted(s, h, nsfs, x, other)) ==> Blocked(s)
  {
    EvictedShape(s, h, nsfs, x, other);
    EvictedTables(s, h, nsfs, x, other);
    hide Evicted, S.Admits;
  }

  lemma FollowsOn(s: State, t: State, u: State)
    requires Follows(s, t) && Follows(t, u)
    ensures Follows(s, u)
  {
    hide Inv, Settled, Evictable, Blocked, Leads;
    LeadsOn(s, t, u);
  }

  lemma EvictedOnce(s: State, nsfs: bool, x: nat)
    requires Inv(s) && Settled(s) && Evictable(s)
    requires x in Table(s, nsfs).inodes && Table(s, nsfs).inodes[x] == P.Live(0)
    ensures exists u :: Follows(s, u) && Table(u, nsfs).inodes == Table(s, nsfs).inodes - {x}
                        && Table(u, !nsfs).inodes == Table(s, !nsfs).inodes
  {
    var h :| 0 <= h < |s.roles| && Evicts(s, h, nsfs);
    EvictionEnds(s, h, nsfs, x);
    var other: nat :| Leads(s, Evicted(s, h, nsfs, x, other));
    var u := Evicted(s, h, nsfs, x, other);
    EvictedTables(s, h, nsfs, x, other);
    EvictedSettled(s, h, nsfs, x, other);
    EvictedBlocked(s, h, nsfs, x, other);
    hide Inv, Leads, Settled, Evictable, Blocked, Evicted, S.Admits;
    LeadsInv(s, u);
    assert Follows(s, u);
  }

  /** One inode less. */
  lemma OneLess(s: State, nsfs: bool, x: nat)
    requires Inv(s) && Settled(s) && Evictable(s) && x in Table(s, nsfs).inodes
    ensures exists u :: Follows(s, u) && Table(u, nsfs).inodes.Keys == Table(s, nsfs).inodes.Keys - {x}
                        && Table(u, !nsfs).inodes == Table(s, !nsfs).inodes
  {
    hide Inv, Leads, Settled, Evictable, Blocked;
    Released(s, nsfs, x);
    var o: nat :| Follows(s, WithTable(s, nsfs, Unheld(Table(s, nsfs), x), o));
    var t := WithTable(s, nsfs, Unheld(Table(s, nsfs), x), o);
    EvictedOnce(t, nsfs, x);
    var u :| Follows(t, u) && Table(u, nsfs).inodes == Table(t, nsfs).inodes - {x}
             && Table(u, !nsfs).inodes == Table(t, !nsfs).inodes;
    FollowsOn(s, t, u);
    assert Table(u, nsfs).inodes.Keys == Table(s, nsfs).inodes.Keys - {x};
  }

  /** All of them gone. */
  lemma {:induction false} AllEvicted(s: State)
    requires Inv(s) && Settled(s) && Evictable(s)
    ensures exists u :: Follows(s, u) && u.nsfs.inodes == map[] && u.proc.inodes == map[]
    decreases |s.nsfs.inodes.Keys| + |s.proc.inodes.Keys|
  {
    hide Inv, Leads, Settled, Evictable, Blocked;
    if x :| x in s.nsfs.inodes {
      OneLess(s, true, x);
      var t :| Follows(s, t) && t.nsfs.inodes.Keys == s.nsfs.inodes.Keys - {x} && t.proc.inodes == s.proc.inodes;
      AllEvicted(t);
      var u :| Follows(t, u) && u.nsfs.inodes == map[] && u.proc.inodes == map[];
      FollowsOn(s, t, u);
    } else if x :| x in s.proc.inodes {
      OneLess(s, false, x);
      var t :| Follows(s, t) && t.proc.inodes.Keys == s.proc.inodes.Keys - {x} && t.nsfs.inodes == s.nsfs.inodes;
      AllEvicted(t);
      var u :| Follows(t, u) && u.nsfs.inodes == map[] && u.proc.inodes == map[];
      FollowsOn(s, t, u);
    } else {
      NothingToDo(s);
      assert s.nsfs.inodes == map[] && s.proc.inodes == map[];
    }
  }

  lemma NothingToDo(s: State)
    requires Inv(s) && Settled(s) && Evictable(s)
    ensures Follows(s, s)
  {
    assert Run(s, []) == s;
  }

  // ------------------------------------------------------------------ the stop itself

  /** With no inode left and nothing that blocks it, nothing disturbs a stop. */
  lemma ClearedIsUndisturbed(s: State)
    requires Inv(s) && Settled(s) && !Blocked(s) && s.nsfs.inodes == map[] && s.proc.inodes == map[]
    ensures Undisturbed(s)
  {
    SlotsRest(s);
    SumZero(s.eng.calls, H.GlobalWeight);
    assert s.nsfs.table == {} && s.proc.table == {};
    SumZero(s.nsfs.threads, P.UnhashedWeight);
    SumZero(s.proc.threads, P.UnhashedWeight);
    PT.ShutCount(s.nsfs);
    PT.ShutCount(s.proc);
  }

  predicate Loaded(s: State) {
    Undisturbed(s) && CanBegin(s)
  }

  /** The subsystem is loaded, if it is not, ... */
  lemma LoadsFirst(s: State)
    requires Inv(s) && Settled(s) && Undisturbed(s)
    ensures exists t :: Leads(s, t) && Inv(t) && Loaded(t)
  {
    if s.enabled {
      assert Run(s, []) == s;
      assert Leads(s, s) && Loaded(s);
    } else {
      OneEvent(s, Load);
      var t := Next(s, Load);
      assert Loaded(t);
      hide Next, Leads, Inv, Loaded;
      LeadsInv(s, t);
    }
  }

  lemma BegunUndisturbed(s: State)
    requires Loaded(s)
    ensures Undisturbed(Begun(s)) && Begun(s).pc.StopProxies? && Next(s, Begin) == Begun(s)
  {
  }

  /** ... and a stop begins. */
  lemma StopBegins(s: State)
    requires Inv(s) && Settled(s) && Undisturbed(s)
    ensures exists t :: Leads(s, t) && Inv(t) && Undisturbed(t) && t.pc.StopProxies?
  {
    LoadsFirst(s);
    var t :| Leads(s, t) && Inv(t) && Loaded(t);
    BegunUndisturbed(t);
    OneEvent(t, Begin);
    hide Next, Leads, Inv, Begun, Undisturbed, Settled, Loaded;
    LeadsOn(s, t, Begun(t));
    LeadsInv(s, Begun(t));
  }

  lemma ClearedStops(s: State)
    requires Inv(s) && Settled(s) && !Blocked(s) && s.nsfs.inodes == map[] && s.proc.inodes == map[]
    ensures exists t :: Leads(s, t) && t.pc.Stopped?
  {
    ClearedIsUndisturbed(s);
    StopBegins(s);
    var t :| Leads(s, t) && Inv(t) && Undisturbed(t) && t.pc.StopProxies?;
    hide Inv, Undisturbed, Settled, Leads;
    StopEnds(t);
    var n: nat :| Ends(t, n);
    EndsLeads(t, n);
    LeadsOn(s, t, Run(t, Stops(n)));
  }

  lemma EndsLeads(t: State, n: nat)
    requires Ends(t, n)
    ensures Leads(t, Run(t, Stops(n))) && Run(t, Stops(n)).pc.Stopped?
  {
  }

  lemma BlockedRun(s: State, es: seq<Event>)
    requires Reachable(s) && Blocked(s)
    ensures !Run(s, es).pc.Stopped?
  {
    hide Reachable, Run, Next;
    if s.nsfs.permanent > 0 || s.proc.permanent > 0 {
      PermanentPreventsStop(s, es);
    } else {
      var i :| 0 <= i < |s.eng.calls| && s.eng.calls[i].phase.Leaked?;
      LeakPreventsStop(s, es, i);
    }
  }

  lemma BlockedNeverStops(s: State, t: State)
    requires Reachable(s) && Blocked(s) && Leads(s, t)
    ensures !t.pc.Stopped?
  {
    hide Reachable, Blocked, Next, Run;
    var es :| t == Run(s, es);
    BlockedRun(s, es);
  }

  /** When a stop can still succeed.  In a settled system that can evict its inodes, some
      continuation completes a stop if and only if no call has leaked and nothing is pinned for
      good: neither calls that fell through, nor live inodes, however often they are held, nor
      an earlier refusal or completion make a difference. */
  lemma StopIsPossible(s: State)
    requires Reachable(s) && Settled(s) && Evictable(s)
    ensures (exists t :: Leads(s, t) && t.pc.Stopped?) <==> !Blocked(s)
  {
    if Blocked(s) {
      forall t | Leads(s, t) ensures !t.pc.Stopped? {
        BlockedNeverStops(s, t);
      }
    } else {
      ReachableInv(s);
      hide Inv, Settled, Evictable, Leads;
      AllEvicted(s);
      var u :| Follows(s, u) && u.nsfs.inodes == map[] && u.proc.inodes == map[];
      ClearedStops(u);
      var t :| Leads(u, t) && t.pc.Stopped?;
      LeadsOn(s, u, t);
    }
  }
}
