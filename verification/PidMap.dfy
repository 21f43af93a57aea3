/** The task-PID map of glue/vendor_kernel_procfs.c: which struct pid a procfs directory inode
    belongs to.

    The inode constructor hook brackets the real constructor with two reads of the task's
    pid and keeps one reference in the map if they agree.  One event is one operation on a
    reference or one section under the map's lock; a run is any list of events. */
module PidMap {
  import opened Tally
  import opened Options
  import opened Runs

  // ------------------------------------------------------------------ state

  datatype Entry = Entry(inode: nat, pid: nat)

  /** The map, its counter, and every struct pid reference this file holds. */
  datatype Map = Map(entries: seq<Entry>, count: int, held: multiset<nat>)

  /** What one caller is doing. */
  datatype Thread =
    | Idle
    | Bracketed(before: Option<nat>)                  // first read done, constructor running
    | Built(first: nat, inode: nat)                  // constructor succeeded
    | Compared(first: nat, after: Option<nat>, inode: nat)
    | Agreed(pid: nat, inode: nat)                    // about to be mapped
    | Mapping(pid: nat, inode: nat)                   // map node allocated
    | Dropping(pids: seq<nat>)                        // references to put, last first

  datatype State = State(m: Map, threads: seq<Thread>)

  /** What the environment answers to the next operation. */
  datatype Answer = Answer(inode: Option<nat>, pid: Option<nat>, memory: bool)

  datatype Event =
    | MakeInode(before: Option<nat>)                  // the hook starts; get_task_pid() may give NULL
    | Step(thread: nat, answer: Answer)
    | Evict(inode: nat)                               // vns_procfs_unmap_task_pid()
    | Lookup(inode: nat)                              // vns_procfs_task_for_inode()
    | ClearAll

  function Ref(p: Option<nat>): multiset<nat> {
    if p.Some? then multiset{p.value} else multiset{}
  }

  function Listed(p: Option<nat>): seq<nat> {
    if p.Some? then [p.value] else []
  }

  // ------------------------------------------------------------------ the map

  function Find(entries: seq<Entry>, inode: nat): (i: nat)
    ensures i <= |entries|
    ensures i < |entries| ==> entries[i].inode == inode
    ensures forall j | 0 <= j < i :: entries[j].inode != inode
  {
    if entries == [] || entries[0].inode == inode then 0 else 1 + Find(entries[1..], inode)
  }

  function PidOf(entries: seq<Entry>, inode: nat): Option<nat> {
    if Find(entries, inode) < |entries| then Some(entries[Find(entries, inode)].pid) else None
  }

  /** The locked section of vns_procfs_map_task_pid(): replaces the pid of an inode that is
      already mapped, or adds an entry. */
  function Insert(m: Map, inode: nat, pid: nat): Map {
    var i := Find(m.entries, inode);
    m.(entries := if i < |m.entries| then m.entries[i := Entry(inode, pid)] else m.entries + [Entry(inode, pid)],
       count := if i < |m.entries| then m.count else m.count + 1)
  }

  /** The locked section of vns_procfs_unmap_task_pid(). */
  function Delete(m: Map, inode: nat): Map {
    var i := Find(m.entries, inode);
    m.(entries := if i < |m.entries| then m.entries[..i] + m.entries[i + 1..] else m.entries,
       count := if i < |m.entries| then m.count - 1 else m.count)
  }

  function Pids(entries: seq<Entry>): (pids: seq<nat>)
    ensures |pids| == |entries| && forall i | 0 <= i < |pids| :: pids[i] == entries[i].pid
  {
    seq(|entries|, i requires 0 <= i < |entries| => entries[i].pid)
  }

  // ------------------------------------------------------------------ runs

  function Begin(s: State, m: Map, t: Thread): State {
    s.(m := m, threads := s.threads + [t])
  }

  function Hold(m: Map, p: Option<nat>): Map {
    m.(held := m.held + Ref(p))
  }

  function Drop(m: Map, p: Option<nat>): Map {
    m.(held := m.held - Ref(p))
  }

  function Move(s: State, i: nat, m: Map, t: Thread): State
    requires i < |s.threads|
  {
    s.(m := m, threads := s.threads[i := t])
  }

  /** vendor_kernel_hook_proc_pid_make_inode() and what follows, one operation at a time: where
      the caller is next ... */
  function After(m: Map, t: Thread, a: Answer): Thread {
    match t
    case Idle => Idle
    case Bracketed(before) =>
      if a.inode.Some? && before.Some? then Built(before.value, a.inode.value) else Dropping(Listed(before))
    case Built(before, inode) => Compared(before, a.pid, inode)
    case Compared(before, after, inode) =>
      if after == Some(before) then Agreed(before, inode) else Dropping([before] + Listed(after))
    case Agreed(pid, inode) => if a.memory then Mapping(pid, inode) else Dropping([pid])
    case Mapping(pid, inode) => Dropping(Listed(PidOf(m.entries, inode)))
    case Dropping(pids) => if pids == [] then Idle else Dropping(pids[..|pids| - 1])
  }

  /** ... and what it does to the map and the references. */
  function Changed(m: Map, t: Thread, a: Answer): Map {
    match t
    case Built(_, _) => Hold(m, a.pid)
    case Compared(before, after, _) => Drop(m, if after == Some(before) then after else None)
    case Mapping(pid, inode) => Insert(m, inode, pid)
    case Dropping(pids) => Drop(m, if pids == [] then None else Some(pids[|pids| - 1]))
    case _ => m
  }

  function StepThread(s: State, i: nat, a: Answer): State
    requires i < |s.threads|
  {
    Move(s, i, Changed(s.m, s.threads[i], a), After(s.m, s.threads[i], a))
  }

  function Next(s: State, e: Event): State {
    match e
    case MakeInode(before) => Begin(s, Hold(s.m, before), Bracketed(before))
    case Step(i, a) => if i < |s.threads| then StepThread(s, i, a) else s
    case Evict(inode) => Begin(s, Delete(s.m, inode), Dropping(Listed(PidOf(s.m.entries, inode))))
    case Lookup(inode) =>
      var p := PidOf(s.m.entries, inode);
      Begin(s, Hold(s.m, p), Dropping(Listed(p)))
    case ClearAll => Begin(s, s.m.(entries := [], count := s.m.count - |s.m.entries|), Dropping(Pids(s.m.entries)))
  }

  function Run(s: State, es: seq<Event>): State {
    if es == [] then s else Next(Run(s, es[..|es| - 1]), es[|es| - 1])
  }

  const START := State(Map([], 0, multiset{}), [])

  // ------------------------------------------------------------------ invariant

  /** One if `x` is `p`. */
  function One(x: nat, p: nat): nat {
    if x == p then 1 else 0
  }

  function Opt(x: Option<nat>, p: nat): nat {
    if x == Some(p) then 1 else 0
  }

  function PidWeight(p: nat): nat -> nat {
    (x: nat) => One(x, p)
  }

  function EntryWeight(p: nat): Entry -> nat {
    (e: Entry) => One(e.pid, p)
  }

  /** How many references to `p` a caller holds. */
  function Holds(t: Thread, p: nat): nat {
    match t
    case Idle => 0
    case Bracketed(before) => Opt(before, p)
    case Built(before, _) => One(before, p)
    case Compared(before, after, _) => One(before, p) + Opt(after, p)
    case Agreed(pid, _) => One(pid, p)
    case Mapping(pid, _) => One(pid, p)
    case Dropping(pids) => Sum(pids, PidWeight(p))
  }

  function TransitWeight(p: nat): Thread -> nat {
    (t: Thread) => Holds(t, p)
  }

  function Entries(m: Map, p: nat): nat {
    Sum(m.entries, EntryWeight(p))
  }

  function Transit(s: State, p: nat): nat {
    Sum(s.threads, TransitWeight(p))
  }

  ghost predicate Balanced(s: State) {
    forall p: nat :: s.m.held[p] == Entries(s.m, p) + Transit(s, p)
  }

  predicate Unique(entries: seq<Entry>) {
    forall i, j | 0 <= i < j < |entries| :: entries[i].inode != entries[j].inode
  }

  predicate MapOk(m: Map) {
    Unique(m.entries) && m.count == |m.entries|
  }

  ghost predicate Inv(s: State) {
    Balanced(s) && MapOk(s.m)
  }

  // ------------------------------------------------------------------ preservation

  lemma InsertEntries(m: Map, inode: nat, pid: nat, p: nat)
    ensures Entries(Insert(m, inode, pid), p) == Entries(m, p) + One(pid, p) - Opt(PidOf(m.entries, inode), p)
  {
    var i := Find(m.entries, inode);
    if i < |m.entries| {
      SumUpdate(m.entries, i, Entry(inode, pid), EntryWeight(p));
    } else {
      SumAppend(m.entries, Entry(inode, pid), EntryWeight(p));
    }
  }

  lemma DeleteEntries(m: Map, inode: nat, p: nat)
    ensures Entries(Delete(m, inode), p) == Entries(m, p) - Opt(PidOf(m.entries, inode), p)
  {
    var i := Find(m.entries, inode);
    if i < |m.entries| {
      SumRemove(m.entries, i, EntryWeight(p));
    }
  }

  lemma {:induction false} PidsSum(entries: seq<Entry>, p: nat)
    ensures Sum(Pids(entries), PidWeight(p)) == Sum(entries, EntryWeight(p))
  {
    if entries == [] {
      assert Pids(entries) == [];
    } else {
      var n := |entries| - 1;
      PidsSum(entries[..n], p);
      assert Pids(entries)[..n] == Pids(entries[..n]);
    }
  }

  lemma {:induction false} PidsCount(entries: seq<Entry>, p: nat)
    ensures multiset(Pids(entries))[p] == Sum(entries, EntryWeight(p))
  {
    if entries == [] {
      assert Pids(entries) == [];
    } else {
      var n := |entries| - 1;
      PidsCount(entries[..n], p);
      assert Pids(entries) == Pids(entries[..n]) + [entries[n].pid];
    }
  }

  lemma MoveTransit(s: State, i: nat, m: Map, t: Thread, p: nat)
    requires i < |s.threads|
    ensures Transit(Move(s, i, m, t), p) == Transit(s, p) - Holds(s.threads[i], p) + Holds(t, p)
  {
    SumUpdate(s.threads, i, t, TransitWeight(p));
  }

  lemma BeginTransit(s: State, m: Map, t: Thread, p: nat)
    ensures Transit(Begin(s, m, t), p) == Transit(s, p) + Holds(t, p)
  {
    SumAppend(s.threads, t, TransitWeight(p));
  }

  lemma PutOne(held: multiset<nat>, x: Option<nat>, p: nat)
    requires held[p] >= Opt(x, p)
    ensures (held - Ref(x))[p] + Opt(x, p) == held[p]
  {
  }

  lemma GetOne(held: multiset<nat>, x: Option<nat>, p: nat)
    ensures (held + Ref(x))[p] == held[p] + Opt(x, p)
  {
  }

  lemma ListedSum(x: Option<nat>, y: nat, p: nat)
    ensures Sum(Listed(x), PidWeight(p)) == Opt(x, p)
    ensures Sum([y] + Listed(x), PidWeight(p)) == One(y, p) + Opt(x, p)
  {
    SumAppend([], y, PidWeight(p));
    assert [] + [y] == [y];
    if x.Some? {
      SumAppend([], x.value, PidWeight(p));
      assert [] + [x.value] == [x.value];
      SumAppend([y], x.value, PidWeight(p));
    } else {
      assert [y] + Listed(x) == [y];
    }
  }

  /** References held, less those of the map and of one caller. */
  function Rest(m: Map, t: Thread, p: nat): int {
    m.held[p] - Entries(m, p) - Holds(t, p)
  }

  lemma DropLast(m: Map, pids: seq<nat>, a: Answer, p: nat)
    requires m.held[p] >= Sum(pids, PidWeight(p)) && pids != []
    ensures Rest(Changed(m, Dropping(pids), a), After(m, Dropping(pids), a), p) == Rest(m, Dropping(pids), p)
  {
    PutOne(m.held, Some(pids[|pids| - 1]), p);
  }

  lemma CompareTwo(m: Map, first: nat, after: Option<nat>, inode: nat, a: Answer, p: nat)
    requires m.held[p] >= One(first, p) + Opt(after, p)
    ensures var t := Compared(first, after, inode); Rest(Changed(m, t, a), After(m, t, a), p) == Rest(m, t, p)
  {
    PutOne(m.held, if after == Some(first) then after else None, p);
    ListedSum(after, first, p);
  }

  lemma MapBalance(m: Map, pid: nat, inode: nat, a: Answer, p: nat)
    ensures var t := Mapping(pid, inode); Rest(Changed(m, t, a), After(m, t, a), p) == Rest(m, t, p)
  {
    InsertEntries(m, inode, pid, p);
    ListedSum(PidOf(m.entries, inode), 0, p);
    hide PidOf;
  }

  /** One operation moves references between the held set, the map and its own hands only. */
  lemma StepBalance(m: Map, t: Thread, a: Answer, p: nat)
    requires m.held[p] >= Holds(t, p)
    ensures Rest(Changed(m, t, a), After(m, t, a), p) == Rest(m, t, p)
  {
    hide Insert, PidOf;
    match t
    case Idle =>
    case Bracketed(before) => ListedSum(before, 0, p);
    case Built(before, inode) => GetOne(m.held, a.pid, p);
    case Compared(before, after, inode) => CompareTwo(m, before, after, inode, a, p);
    case Agreed(pid, _) => ListedSum(None, pid, p); assert [pid] + Listed(None) == [pid];
    case Mapping(pid, inode) => MapBalance(m, pid, inode, a, p);
    case Dropping(pids) => if pids == [] { PutOne(m.held, None, p); } else { DropLast(m, pids, a, p); }
  }

  lemma StepInv(s: State, i: nat, a: Answer)
    requires Inv(s) && i < |s.threads|
    ensures Inv(StepThread(s, i, a))
  {
    var t := StepThread(s, i, a);
    forall p: nat ensures t.m.held[p] == Entries(t.m, p) + Transit(t, p) {
      SumMember(s.threads, i, TransitWeight(p));
      StepBalance(s.m, s.threads[i], a, p);
      MoveTransit(s, i, t.m, t.threads[i], p);
    }
    assert MapOk(t.m) by {
      match s.threads[i]
      case Mapping(pid, inode) => InsertOk(s.m, inode, pid);
      case _ =>
    }
  }

  lemma InsertOk(m: Map, inode: nat, pid: nat)
    requires MapOk(m)
    ensures MapOk(Insert(m, inode, pid))
  {
  }

  lemma EvictBalance(s: State, inode: nat, p: nat)
    requires Balanced(s)
    ensures s.m.held[p] == Entries(Delete(s.m, inode), p)
                           + Transit(Begin(s, Delete(s.m, inode), Dropping(Listed(PidOf(s.m.entries, inode)))), p)
  {
    var x := PidOf(s.m.entries, inode);
    DeleteEntries(s.m, inode, p);
    assert Holds(Dropping(Listed(x)), p) == Opt(x, p) by { ListedSum(x, 0, p); }
    BeginTransit(s, Delete(s.m, inode), Dropping(Listed(x)), p);
  }

  lemma EvictInv(s: State, inode: nat)
    requires Inv(s)
    ensures Inv(Next(s, Evict(inode)))
  {
    DeleteOk(s.m, inode);
    var t := Next(s, Evict(inode));
    forall p: nat ensures t.m.held[p] == Entries(t.m, p) + Transit(t, p) {
      EvictBalance(s, inode, p);
    }
  }

  lemma HoldInv(s: State, q: Option<nat>, t: Thread)
    requires Inv(s) && forall p: nat :: Holds(t, p) == Opt(q, p)
    ensures Inv(Begin(s, Hold(s.m, q), t))
  {
    forall p: nat
      ensures Transit(Begin(s, Hold(s.m, q), t), p) == Transit(s, p) + Opt(q, p)
        && Hold(s.m, q).held[p] == s.m.held[p] + Opt(q, p)
    {
      GetOne(s.m.held, q, p);
      BeginTransit(s, Hold(s.m, q), t, p);
    }
  }

  lemma ClearInv(s: State)
    requires Inv(s)
    ensures Inv(Next(s, ClearAll))
  {
    var t := Next(s, ClearAll);
    forall p: nat ensures t.m.held[p] == Entries(t.m, p) + Transit(t, p) {
      PidsSum(s.m.entries, p);
      BeginTransit(s, t.m, Dropping(Pids(s.m.entries)), p);
    }
  }

  lemma NextInv(s: State, e: Event)
    requires Inv(s)
    ensures Inv(Next(s, e))
  {
    match e
    case MakeInode(before) => HoldInv(s, before, Bracketed(before));
    case Step(i, a) => if i < |s.threads| { StepInv(s, i, a); }
    case Evict(inode) => EvictInv(s, inode);
    case Lookup(inode) =>
      var q := PidOf(s.m.entries, inode);
      forall p: nat ensures Holds(Dropping(Listed(q)), p) == Opt(q, p) { ListedSum(q, 0, p); }
      HoldInv(s, q, Dropping(Listed(q)));
    case ClearAll => ClearInv(s);
  }

  lemma {:induction false} RunInv(s: State, es: seq<Event>)
    requires Inv(s)
    ensures Inv(Run(s, es))
  {
    if es != [] {
      RunInv(s, es[..|es| - 1]);
      NextInv(Run(s, es[..|es| - 1]), es[|es| - 1]);
    }
  }

  // ------------------------------------------------------------------ what holds in every run

  ghost predicate Reachable(s: State) {
    exists es :: s == Run(START, es)
  }

  lemma ReachableInv(s: State)
    requires Reachable(s)
    ensures Inv(s)
  {
    var es :| s == Run(START, es);
    RunInv(START, es);
  }

  /** Conservation, over any interleaving of constructors, evictions, lookups and clears: every
      struct pid reference this file holds is owned by exactly one map entry or is in the
      hands of exactly one caller, so none is lost and none is put twice. */
  lemma PidConservation(s: State, p: nat)
    requires Reachable(s)
    ensures s.m.held[p] == Entries(s.m, p) + Transit(s, p)
  {
    ReachableInv(s);
  }

  /** The counter is the number of entries, and no inode has two. */
  lemma CountIsEntries(s: State)
    requires Reachable(s)
    ensures s.m.count == |s.m.entries| && Unique(s.m.entries)
  {
    ReachableInv(s);
  }

  predicate AllIdle(s: State) {
    forall i | 0 <= i < |s.threads| :: s.threads[i].Idle?
  }

  /** Once every caller is done, the references held are exactly the pids of the map: every
      constructor's reference ended in one entry or was dropped. */
  lemma AtRestHeldIsMap(s: State)
    requires Reachable(s) && AllIdle(s)
    ensures s.m.held == multiset(Pids(s.m.entries))
  {
    ReachableInv(s);
    forall p: nat ensures s.m.held[p] == multiset(Pids(s.m.entries))[p] {
      SumZero(s.threads, TransitWeight(p));
      PidsCount(s.m.entries, p);
    }
  }

  /** After a clear, and once every caller is done, no reference is held. */
  lemma ClearedAtRest(s: State)
    requires Reachable(s) && AllIdle(s) && s.m.entries == []
    ensures s.m.held == multiset{}
  {
    AtRestHeldIsMap(s);
    assert Pids(s.m.entries) == [];
  }

  /** With one entry per inode, a lookup finds exactly the entries there are. */
  lemma PidOfMember(entries: seq<Entry>, e: Entry)
    requires Unique(entries)
    ensures e in entries <==> PidOf(entries, e.inode) == Some(e.pid)
  {
  }

  lemma PidOfNone(entries: seq<Entry>, inode: nat)
    ensures PidOf(entries, inode).None? <==> forall e | e in entries :: e.inode != inode
  {
    var i := Find(entries, inode);
    if i < |entries| {
      assert entries[i] in entries;
    }
  }

  /** Two tables with the same entries for an inode answer a lookup of it alike. */
  lemma SameLookup(a: seq<Entry>, b: seq<Entry>, inode: nat)
    requires Unique(a) && Unique(b)
    requires forall e: Entry | e.inode == inode :: e in a <==> e in b
    ensures PidOf(a, inode) == PidOf(b, inode)
  {
    PidOfNone(a, inode);
    if PidOf(a, inode).Some? {
      var e := Entry(inode, PidOf(a, inode).value);
      PidOfMember(a, e);
      PidOfMember(b, e);
    } else {
      PidOfNone(b, inode);
    }
  }

  /** After a section that maps an inode, a lookup of it finds the new pid and every other
      lookup is unchanged. */
  lemma InsertThenFind(m: Map, inode: nat, pid: nat, other: nat)
    requires MapOk(m)
    ensures PidOf(Insert(m, inode, pid).entries, other) == if other == inode then Some(pid) else PidOf(m.entries, other)
  {
    InsertOk(m, inode, pid);
    var i, t := Find(m.entries, inode), Insert(m, inode, pid).entries;
    assert t[i] == Entry(inode, pid);
    if other == inode {
      PidOfMember(t, Entry(inode, pid));
    } else {
      forall e: Entry | e.inode == other ensures e in m.entries <==> e in t {
        if e in m.entries {
          var j :| 0 <= j < |m.entries| && m.entries[j] == e;
          assert t[j] == e;
        }
      }
      SameLookup(m.entries, t, other);
    }
  }

  lemma DeleteOk(m: Map, inode: nat)
    requires MapOk(m)
    ensures MapOk(Delete(m, inode))
  {
  }

  lemma DeleteKeeps(m: Map, inode: nat, j: nat)
    requires j < |m.entries| && m.entries[j].inode != inode
    ensures m.entries[j] in Delete(m, inode).entries
  {
    var i, t := Find(m.entries, inode), Delete(m, inode).entries;
    hide MapOk;
    assert t[if j < i then j else j - 1] == m.entries[j];
  }

  lemma DeleteLeaves(m: Map, inode: nat, j: nat)
    requires MapOk(m) && j < |Delete(m, inode).entries|
    ensures Delete(m, inode).entries[j] in m.entries && Delete(m, inode).entries[j].inode != inode
  {
    var i, t := Find(m.entries, inode), Delete(m, inode).entries;
    assert i < |m.entries| ==> t[j] == m.entries[if j < i then j else j + 1];
  }

  lemma DeleteMembers(m: Map, inode: nat, e: Entry)
    requires MapOk(m)
    ensures e in Delete(m, inode).entries <==> e in m.entries && e.inode != inode
  {
    hide Delete, MapOk;
    if e in m.entries && e.inode != inode {
      var j :| 0 <= j < |m.entries| && m.entries[j] == e;
      DeleteKeeps(m, inode, j);
    }
    if e in Delete(m, inode).entries {
      var j :| 0 <= j < |Delete(m, inode).entries| && Delete(m, inode).entries[j] == e;
      DeleteLeaves(m, inode, j);
    }
  }

  /** After an eviction the inode is unmapped and every other lookup is unchanged. */
  lemma DeleteThenFind(m: Map, inode: nat, other: nat)
    requires MapOk(m)
    ensures PidOf(Delete(m, inode).entries, other) == if other == inode then None else PidOf(m.entries, other)
  {
    DeleteOk(m, inode);
    var t := Delete(m, inode).entries;
    forall e: Entry ensures e in t <==> e in m.entries && e.inode != inode {
      DeleteMembers(m, inode, e);
    }
    hide Delete, PidOf;
    if other == inode {
      PidOfNone(t, inode);
    } else {
      SameLookup(m.entries, t, other);
    }
  }

  /** vns_procfs_map_task_pid(), undisturbed: it takes over the caller's reference in every case. */
  function Mapped(m: Map, inode: nat, pid: nat, memory: bool): Map {
    if memory then Drop(Insert(m, inode, pid), PidOf(m.entries, inode)) else Drop(m, Some(pid))
  }

  /** The whole constructor hook, undisturbed. */
  function Made(m: Map, before: Option<nat>, made: Option<nat>, after: Option<nat>, memory: bool): Map {
    if made.None? || before.None? then Drop(Hold(m, before), before)
    else if after != before then Drop(Drop(Hold(Hold(m, before), after), after), before)
    else Mapped(Drop(Hold(Hold(m, before), after), after), made.value, before.value, memory)
  }

  lemma HoldDrop(m: Map, p: Option<nat>)
    ensures Drop(Hold(m, p), p) == m
  {
  }

  /** The hook leaves a trace only if both reads agree and there is memory: then the inode maps
      to that pid, whose reference the map now owns, and the pid it mapped to before has lost
      its own. */
  lemma MadeMeans(m: Map, before: Option<nat>, made: Option<nat>, after: Option<nat>, memory: bool)
    ensures Made(m, before, made, after, memory)
         == if made.Some? && before.Some? && after == before && memory
            then Drop(Insert(Hold(m, before), made.value, before.value), PidOf(m.entries, made.value))
            else m
  {
    HoldDrop(m, before);
    HoldDrop(Hold(m, before), after);
  }

  /** Puts the pids of the first `n` entries. */
  function DropAll(m: Map, entries: seq<Entry>, n: nat): Map
    requires n <= |entries|
  {
    if n == 0 then m else Drop(DropAll(m, entries, n - 1), Some(entries[n - 1].pid))
  }

  lemma {:induction false} DropAllMeans(m: Map, entries: seq<Entry>, n: nat)
    requires n <= |entries|
    ensures DropAll(m, entries, n) == m.(held := m.held - multiset(Pids(entries[..n])))
  {
    if n == 0 {
      assert Pids(entries[..0]) == [];
      assert m.held - multiset(Pids(entries[..0])) == m.held;
    } else {
      DropAllMeans(m, entries, n - 1);
      assert Pids(entries[..n]) == Pids(entries[..n - 1]) + [entries[n - 1].pid];
      assert m.held - multiset(Pids(entries[..n]))
        == m.held - multiset(Pids(entries[..n - 1])) - Ref(Some(entries[n - 1].pid));
    }
  }

  lemma DropAllIs(m: Map, entries: seq<Entry>)
    ensures DropAll(m, entries, |entries|) == m.(held := m.held - multiset(Pids(entries)))
  {
    DropAllMeans(m, entries, |entries|);
    assert entries[..|entries|] == entries;
  }

  // ------------------------------------------------------------------ one caller, undisturbed

  function StepOf(i: nat, a: Answer): State -> State {
    (s: State) => Next(s, Step(i, a))
  }

  /** `n` operations of caller `i`. */
  function Steps(s: State, i: nat, a: Answer, n: nat): State {
    Repeated(StepOf(i, a), s, n)
  }

  /** One operation of the caller that began last. */
  lemma OneStep(s: State, m: Map, t: Thread, a: Answer)
    ensures StepOf(|s.threads|, a)(Begin(s, m, t)) == Begin(s, Changed(m, t, a), After(m, t, a))
  {
    assert (s.threads + [t])[|s.threads| := After(m, t, a)] == s.threads + [After(m, t, a)];
  }

  lemma {:induction false} FirstStep(s: State, m: Map, t: Thread, a: Answer, n: nat)
    requires n > 0
    ensures Steps(Begin(s, m, t), |s.threads|, a, n)
         == Steps(Begin(s, Changed(m, t, a), After(m, t, a)), |s.threads|, a, n - 1)
  {
    hide Hold, Drop, Insert;
    OneStep(s, m, t, a);
    RepeatedFirst(StepOf(|s.threads|, a), Begin(s, m, t), n);
  }

  lemma {:induction false} IdleStays(s: State, m: Map, a: Answer, n: nat)
    ensures Steps(Begin(s, m, Idle), |s.threads|, a, n) == Begin(s, m, Idle)
  {
    if n > 0 {
      FirstStep(s, m, Idle, a, n);
      IdleStays(s, m, a, n - 1);
    }
  }

  /** The references of a list put one by one, last first. */
  function Dropped(m: Map, pids: seq<nat>): Map
    decreases |pids|
  {
    if pids == [] then m else Dropped(Drop(m, Some(pids[|pids| - 1])), pids[..|pids| - 1])
  }

  lemma DropNone(m: Map)
    ensures Drop(m, None) == m
  {
  }

  lemma DroppedListed(m: Map, y: nat, x: Option<nat>)
    ensures Dropped(m, Listed(x)) == Drop(m, x)
    ensures Dropped(m, [y] + Listed(x)) == Drop(Drop(m, x), Some(y))
  {
    DropNone(m);
    assert ([y] + Listed(x))[..|Listed(x)|] == if x.Some? then [y] else [];
    assert Dropped(Drop(m, x), [y]) == Drop(Drop(m, x), Some(y)) by {
      assert [y][..0] == [];
    }
  }

  lemma MinusTwice(held: multiset<nat>, x: multiset<nat>, y: multiset<nat>)
    ensures held - x - y == held - (y + x)
  {
  }

  /** In whatever order the references of a list are put. */
  lemma {:induction false} DroppedMeans(m: Map, pids: seq<nat>)
    ensures Dropped(m, pids) == m.(held := m.held - multiset(pids))
    decreases |pids|
  {
    if pids == [] {
      assert m.held - multiset(pids) == m.held;
    } else {
      var k := |pids| - 1;
      DroppedMeans(Drop(m, Some(pids[k])), pids[..k]);
      assert pids == pids[..k] + [pids[k]];
      MinusTwice(m.held, Ref(Some(pids[k])), multiset(pids[..k]));
    }
  }

  /** It takes one operation for each reference and one to end. */
  lemma {:induction false} Drops(s: State, m: Map, pids: seq<nat>, a: Answer, n: nat)
    requires n > |pids|
    ensures Steps(Begin(s, m, Dropping(pids)), |s.threads|, a, n) == Begin(s, Dropped(m, pids), Idle)
    decreases |pids|
  {
    hide Drop;
    FirstStep(s, m, Dropping(pids), a, n);
    if pids == [] {
      DropNone(m);
      IdleStays(s, m, a, n - 1);
    } else {
      Drops(s, Drop(m, Some(pids[|pids| - 1])), pids[..|pids| - 1], a, n - 1);
    }
  }

  lemma {:induction false} DropsAll(s: State, m: Map, pids: seq<nat>, a: Answer)
    ensures Steps(Begin(s, m, Dropping(pids)), |s.threads|, a, |pids| + 1)
         == Begin(s, m.(held := m.held - multiset(pids)), Idle)
  {
    Drops(s, m, pids, a, |pids| + 1);
    DroppedMeans(m, pids);
  }

  lemma LookupHolds(s: State, inode: nat, q: nat)
    ensures var t, p := Next(s, Lookup(inode)), PidOf(s.m.entries, inode);
            && |t.threads| == |s.threads| + 1
            && t.m.held[q] == s.m.held[q] + Opt(p, q) && Holds(t.threads[|s.threads|], q) == Opt(p, q)
  {
    var p := PidOf(s.m.entries, inode);
    hide PidOf;
    GetOne(s.m.held, p, q);
    ListedSum(p, 0, q);
    assert Next(s, Lookup(inode)).threads[|s.threads|] == Dropping(Listed(p));
  }

  /** A lookup takes a reference to the pid of the inode, if it is mapped, before it lets go of the
      lock; the caller holds it until it puts it, and then everything is as before. */
  lemma LookupEffect(s: State, inode: nat, a: Answer)
    ensures var t, p := Next(s, Lookup(inode)), PidOf(s.m.entries, inode);
            && t.m.entries == s.m.entries && |t.threads| == |s.threads| + 1
            && (forall q: nat :: t.m.held[q] == s.m.held[q] + Opt(p, q) && Holds(t.threads[|s.threads|], q) == Opt(p, q))
            && Steps(t, |s.threads|, a, 2) == Begin(s, s.m, Idle)
  {
    forall q: nat {
      LookupHolds(s, inode, q);
    }
    hide Holds, Opt, PidOf, Drop;
    var p := PidOf(s.m.entries, inode);
    Drops(s, Hold(s.m, p), Listed(p), a, 2);
    DroppedListed(Hold(s.m, p), 0, p);
    HoldDrop(s.m, p);
  }

  /** The last part of the constructor hook: vns_procfs_map_task_pid(), with a node for the map */
  lemma {:induction false} NodeEffect(s: State, m: Map, inode: nat, pid: nat, a: Answer, n: nat)
    requires n >= 3
    ensures Steps(Begin(s, m, Mapping(pid, inode)), |s.threads|, a, n) == Begin(s, Mapped(m, inode, pid, true), Idle)
  {
    hide Drop, Insert;
    var x, t := PidOf(m.entries, inode), Insert(m, inode, pid);
    FirstStep(s, m, Mapping(pid, inode), a, n);
    Drops(s, t, Listed(x), a, n - 1);
    DroppedListed(t, 0, x);
  }

  /** and without one. */
  lemma {:induction false} MapEffect(s: State, m: Map, inode: nat, pid: nat, a: Answer, n: nat)
    requires n >= 4
    ensures Steps(Begin(s, m, Agreed(pid, inode)), |s.threads|, a, n) == Begin(s, Mapped(m, inode, pid, a.memory), Idle)
  {
    hide Drop, Insert;
    FirstStep(s, m, Agreed(pid, inode), a, n);
    if a.memory {
      NodeEffect(s, m, inode, pid, a, n - 1);
    } else {
      Drops(s, m, Listed(Some(pid)), a, n - 1);
      DroppedListed(m, 0, Some(pid));
    }
  }

  /** The middle part: the second read of the pid and the comparison. */
  lemma {:induction false} CompareEffect(s: State, m: Map, before: nat, inode: nat, a: Answer, n: nat)
    requires n >= 6
    ensures Steps(Begin(s, m, Built(before, inode)), |s.threads|, a, n)
         == Begin(s, if a.pid != Some(before) then Drop(Drop(Hold(m, a.pid), a.pid), Some(before))
                     else Mapped(Drop(Hold(m, a.pid), a.pid), inode, before, a.memory), Idle)
  {
    hide Hold, Drop, Mapped;
    var h, t := Hold(m, a.pid), Compared(before, a.pid, inode);
    FirstStep(s, m, Built(before, inode), a, n);
    FirstStep(s, h, t, a, n - 1);
    if a.pid == Some(before) {
      MapEffect(s, Drop(h, a.pid), inode, before, a, n - 2);
    } else {
      DropNone(h);
      Drops(s, h, [before] + Listed(a.pid), a, n - 2);
      DroppedListed(h, before, a.pid);
    }
  }

  /** From the first read on, with whatever map it left. */
  lemma {:induction false} BracketEffect(s: State, h: Map, before: Option<nat>, a: Answer, n: nat)
    requires n >= 7
    ensures Steps(Begin(s, h, Bracketed(before)), |s.threads|, a, n)
         == Begin(s, if a.inode.None? || before.None? then Drop(h, before)
                     else if a.pid != before then Drop(Drop(Hold(h, a.pid), a.pid), before)
                     else Mapped(Drop(Hold(h, a.pid), a.pid), a.inode.value, before.value, a.memory), Idle)
  {
    hide Hold, Drop, Mapped;
    FirstStep(s, h, Bracketed(before), a, n);
    if a.inode.Some? && before.Some? {
      CompareEffect(s, h, before.value, a.inode.value, a, n - 1);
    } else {
      Drops(s, h, Listed(before), a, n - 1);
      DroppedListed(h, 0, before);
    }
  }

  /** The constructor hook, undisturbed, is what its operations add up to: after seven it is
      through, whichever way it went. */
  lemma {:induction false} MakeEffect(s: State, before: Option<nat>, a: Answer, n: nat)
    requires n >= 7
    ensures Steps(Next(s, MakeInode(before)), |s.threads|, a, n)
         == Begin(s, Made(s.m, before, a.inode, a.pid, a.memory), Idle)
  {
    BracketEffect(s, Hold(s.m, before), before, a, n);
  }

  /** So is vns_procfs_unmap_task_pid(), */
  lemma {:induction false} UnmapEffect(s: State, inode: nat, a: Answer)
    ensures Steps(Next(s, Evict(inode)), |s.threads|, a, 2)
         == Begin(s, Drop(Delete(s.m, inode), PidOf(s.m.entries, inode)), Idle)
  {
    var x := PidOf(s.m.entries, inode);
    Drops(s, Delete(s.m, inode), Listed(x), a, 2);
    DroppedListed(Delete(s.m, inode), 0, x);
  }

  /** The map without its entries, whose references are still held. */
  function Emptied(m: Map): Map {
    m.(entries := [], count := m.count - |m.entries|)
  }

  /** and the clearing of the whole map. */
  lemma {:induction false} ClearEffect(s: State, a: Answer)
    ensures Steps(Next(s, ClearAll), |s.threads|, a, |s.m.entries| + 1)
         == Begin(s, Emptied(s.m).(held := s.m.held - multiset(Pids(s.m.entries))), Idle)
  {
    DropsAll(s, Emptied(s.m), Pids(s.m.entries), a);
  }

  // ------------------------------------------------------------------ the code

  class TaskPids {
    var entries: seq<Entry>
    var count: int                 // vns_procfs_task_pid_count
    var held: multiset<nat>

    function View(): Map
      reads this
    {
      Map(entries, count, held)
    }

    constructor ()
      ensures View() == START.m
    {
      entries, count, held := [], 0, multiset{};
    }

    method GetPid(p: Option<nat>)
      modifies this`held
      ensures View() == Hold(old(View()), p)
    {
      held := held + Ref(p);
    }

    method PutPid(p: Option<nat>)
      modifies this`held
      ensures View() == Drop(old(View()), p)
    {
      held := held - Ref(p);
    }

    method FindEntry(inode: nat) returns (i: nat)
      ensures i == Find(entries, inode)
    {
      i := 0;
      while i < |entries| && entries[i].inode != inode
        invariant i <= |entries| && Find(entries, inode) == i + Find(entries[i..], inode)
      {
        i := i + 1;
      }
    }

    /** vns_procfs_map_task_pid(): takes over the caller's reference in every case. */
    method MapTaskPid(inode: nat, pid: nat, memory: bool)
      modifies this
      ensures View() == Mapped(old(View()), inode, pid, memory)
    {
      if !memory {
        PutPid(Some(pid));
        return;
      }
      var i := FindEntry(inode);
      if i < |entries| {
        var oldPid := entries[i].pid;
        entries := entries[i := Entry(inode, pid)];
        PutPid(Some(oldPid));
        return;
      }
      entries := entries + [Entry(inode, pid)];
      count := count + 1;
      assert held - Ref(None) == held;
    }

    /** vns_procfs_unmap_task_pid(). */
    method UnmapTaskPid(inode: nat)
      modifies this
      ensures View() == Drop(Delete(old(View()), inode), PidOf(old(entries), inode))
    {
      var i := FindEntry(inode);
      if i < |entries| {
        var found := entries[i];
        entries := entries[..i] + entries[i + 1..];
        count := count - 1;
        PutPid(Some(found.pid));
      } else {
        assert held - Ref(None) == held;
      }
    }

    /** vendor_kernel_hook_proc_pid_make_inode(): the two reads of the task's pid and the result
        of the real constructor are parameters. */
    method MakeInode(before: Option<nat>, made: Option<nat>, after: Option<nat>, memory: bool)
      modifies this
      ensures View() == Made(old(View()), before, made, after, memory)
    {
      GetPid(before);
      if made.None? || before.None? {
        PutPid(before);
        return;
      }
      GetPid(after);
      if after != before {
        PutPid(after);
        PutPid(before);
        return;
      }
      PutPid(after);
      MapTaskPid(made.value, before.value, memory);
    }

    /** The locked half of vns_procfs_compat_clear_task_pid_map(). */
    method UnhookAll() returns (removed: seq<Entry>)
      modifies this`entries, this`count
      ensures removed == old(entries) && View() == Emptied(old(View()))
    {
      ghost var all := entries;
      removed := [];
      while entries != []
        invariant |removed| <= |all| && removed == all[..|removed|] && entries == all[|removed|..]
        invariant count == old(count) - |removed|
        decreases |entries|
      {
        removed := removed + [entries[0]];
        entries := entries[1..];
        count := count - 1;
      }
    }

    /** vns_procfs_compat_clear_task_pid_map(): unhooks every entry, then puts each pid. */
    method ClearTaskPidMap()
      modifies this
      ensures View() == Emptied(old(View())).(held := old(held) - multiset(Pids(old(entries))))
    {
      var removed := UnhookAll();
      ghost var m := View();
      DropAllIs(m, removed);
      var i := 0;
      while i < |removed|
        invariant i <= |removed| && View() == DropAll(m, removed, i)
      {
        PutPid(Some(removed[i].pid));
        i := i + 1;
      }
    }
  }
}
