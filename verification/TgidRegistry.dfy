/** The tgid registry of glue/vendor_kernel_module.c: which nsproxy each thread group uses.

    Every entry owns one reference to its nsproxy.  One event is one section under the
    registry lock or one operation between two such sections; a run is any list of events. */
module TgidRegistry {
  import opened Tally
  import opened Options

  // ------------------------------------------------------------------ state

  datatype Task = Task(tgid: int, proxy: Option<nat>)

  /** The registry and the reference counts of all nsproxy objects; a count that drops to zero
      frees its object for good. */
  datatype Registry = Registry(tasks: seq<Task>, taskCount: nat, refs: seq<int>, freed: set<nat>)

  /** What a caller is doing between two sections. */
  datatype Operation =
    | Idle
    | Removing(proxy: Option<nat>)           // detached by remove: the entry's reference is to be put
    | Taking(proxy: Option<nat>)             // detached by take: it goes to the caller
    | Copying(child: int, source: nat)       // clone holds a reference of its own
    | Copied(source: nat)                    // ... which it has to put

  datatype State = State(reg: Registry, outside: seq<nat>, ops: seq<Operation>)

  datatype Event =
    | New                                    // an nsproxy is created by somebody
    | OutsideGet(p: nat)
    | OutsidePut(p: nat)
    | Set(tgid: int, proxy: Option<nat>, memory: bool)
    | Remove(tgid: int)
    | Take(tgid: int)
    | Clone(parent: int, child: int)
    | Step(op: nat, memory: bool)            // the next section of a running operation
    | ClearAll

  // ------------------------------------------------------------------ reference counts

  function Add(refs: seq<int>, p: Option<nat>, d: int): seq<int> {
    if p.Some? && p.value < |refs| then refs[p.value := refs[p.value] + d] else refs
  }

  /** The objects a put frees. */
  function Freed(refs: seq<int>, p: Option<nat>): set<nat> {
    if p.Some? && p.value < |refs| && refs[p.value] == 1 then {p.value} else {}
  }

  function Get(r: Registry, p: Option<nat>): Registry {
    r.(refs := Add(r.refs, p, 1))
  }

  function Put(r: Registry, p: Option<nat>): Registry {
    r.(refs := Add(r.refs, p, -1), freed := r.freed + Freed(r.refs, p))
  }

  // ------------------------------------------------------------------ the table

  /** __vns_task_find_locked(): the place of the entry, or the length. */
  function Find(tasks: seq<Task>, tgid: int): (i: nat)
    ensures i <= |tasks|
    ensures i < |tasks| ==> tasks[i].tgid == tgid
    ensures forall j | 0 <= j < i :: tasks[j].tgid != tgid
  {
    if tasks == [] || tasks[0].tgid == tgid then 0 else 1 + Find(tasks[1..], tgid)
  }

  function ProxyOf(tasks: seq<Task>, tgid: int): Option<nat> {
    if Find(tasks, tgid) < |tasks| then tasks[Find(tasks, tgid)].proxy else None
  }

  predicate Refused(r: Registry, tgid: int, memory: bool) {
    Find(r.tasks, tgid) == |r.tasks| && !memory
  }

  /** vns_registry_set_nsproxy(): a new entry if there is none, then the new reference, then
      the old one away, all under the lock. */
  function SetTask(r: Registry, tgid: int, p: Option<nat>): Registry {
    var i := Find(r.tasks, tgid);
    Put(Get(r, p), ProxyOf(r.tasks, tgid)).(
      tasks := if i < |r.tasks| then r.tasks[i := Task(tgid, p)] else r.tasks + [Task(tgid, p)],
      taskCount := if i < |r.tasks| then r.taskCount else r.taskCount + 1)
  }

  /** __vns_registry_detach(): the entry leaves the table with its reference. */
  function Detach(r: Registry, tgid: int): Registry {
    var i := Find(r.tasks, tgid);
    r.(tasks := if i < |r.tasks| then r.tasks[..i] + r.tasks[i + 1..] else r.tasks,
       taskCount := if i < |r.tasks| && r.taskCount > 0 then r.taskCount - 1 else r.taskCount)
  }

  /** vns_registry_clear_all(), first entry first. */
  function Cleared(r: Registry): (t: Registry)
    ensures t.tasks == [] && |t.refs| == |r.refs|
    decreases |r.tasks|
  {
    if r.tasks == [] then r.(taskCount := 0)
    else Cleared(Put(r.(tasks := r.tasks[1..]), r.tasks[0].proxy))
  }

  // ------------------------------------------------------------------ runs

  function Begin(s: State, r: Registry, op: Operation): State {
    s.(reg := r, ops := s.ops + [op])
  }

  function Gain(outside: seq<nat>, p: Option<nat>): seq<nat> {
    if p.Some? && p.value < |outside| then outside[p.value := outside[p.value] + 1] else outside
  }

  function StepOperation(s: State, i: nat, memory: bool): State
    requires i < |s.ops|
  {
    match s.ops[i]
    case Idle => s
    case Removing(p) => s.(reg := Put(s.reg, p), ops := s.ops[i := Idle])
    case Taking(p) => s.(outside := Gain(s.outside, p), ops := s.ops[i := Idle])
    case Copying(child, p) =>
      s.(reg := if Refused(s.reg, child, memory) then s.reg else SetTask(s.reg, child, Some(p)),
        ops := s.ops[i := Copied(p)])
    case Copied(p) => s.(reg := Put(s.reg, Some(p)), ops := s.ops[i := Idle])
  }

  /** The caller of set holds a reference to what it sets. */
  predicate Owned(s: State, p: Option<nat>) {
    p.Some? ==> p.value < |s.outside| && s.outside[p.value] > 0
  }

  function Next(s: State, e: Event): State {
    match e
    case New => s.(reg := s.reg.(refs := s.reg.refs + [1]), outside := s.outside + [1])
    case OutsideGet(p) =>
      if Owned(s, Some(p)) then s.(reg := Get(s.reg, Some(p)), outside := Gain(s.outside, Some(p))) else s
    case OutsidePut(p) =>
      if Owned(s, Some(p)) then s.(reg := Put(s.reg, Some(p)), outside := s.outside[p := s.outside[p] - 1]) else s
    case Set(tgid, p, memory) =>
      if Owned(s, p) && !Refused(s.reg, tgid, memory) then s.(reg := SetTask(s.reg, tgid, p)) else s
    case Remove(tgid) => Begin(s, Detach(s.reg, tgid), Removing(ProxyOf(s.reg.tasks, tgid)))
    case Take(tgid) => Begin(s, Detach(s.reg, tgid), Taking(ProxyOf(s.reg.tasks, tgid)))
    case Clone(parent, child) =>
      var p := ProxyOf(s.reg.tasks, parent);
      if p.Some? then Begin(s, Get(s.reg, p), Copying(child, p.value)) else s
    case Step(i, memory) => if i < |s.ops| then StepOperation(s, i, memory) else s
    case ClearAll => s.(reg := Cleared(s.reg))
  }

  function Run(s: State, es: seq<Event>): State {
    if es == [] then s else Next(Run(s, es[..|es| - 1]), es[|es| - 1])
  }

  const START := State(Registry([], 0, [], {}), [], [])

  // ------------------------------------------------------------------ invariant

  /** One if `o` is `p`. */
  function Is(o: Option<nat>, p: nat): nat {
    if o == Some(p) then 1 else 0
  }

  function EntryWeight(p: nat): Task -> nat {
    (t: Task) => Is(t.proxy, p)
  }

  function Held(op: Operation): Option<nat> {
    match op
    case Idle => None
    case Removing(p) => p
    case Taking(p) => p
    case Copying(_, p) => Some(p)
    case Copied(p) => Some(p)
  }

  function TransitWeight(p: nat): Operation -> nat {
    (op: Operation) => Is(Held(op), p)
  }

  function Entries(r: Registry, p: nat): nat {
    Sum(r.tasks, EntryWeight(p))
  }

  function Transit(s: State, p: nat): nat {
    Sum(s.ops, TransitWeight(p))
  }

  /** Every reference has exactly one owner. */
  predicate Balanced(s: State) {
    && |s.outside| == |s.reg.refs|
    && forall p | 0 <= p < |s.reg.refs| :: s.reg.refs[p] == s.outside[p] + Entries(s.reg, p) + Transit(s, p)
  }

  predicate Known(s: State) {
    && (forall i | 0 <= i < |s.reg.tasks| :: s.reg.tasks[i].proxy.Some? ==> s.reg.tasks[i].proxy.value < |s.reg.refs|)
    && (forall i | 0 <= i < |s.ops| :: Held(s.ops[i]).Some? ==> Held(s.ops[i]).value < |s.reg.refs|)
  }

  /** An object is freed exactly when its count has dropped to zero. */
  predicate FreedOk(r: Registry) {
    r.freed == set p | 0 <= p < |r.refs| && r.refs[p] == 0
  }

  predicate Unique(tasks: seq<Task>) {
    forall i, j | 0 <= i < j < |tasks| :: tasks[i].tgid != tasks[j].tgid
  }

  predicate TableOk(r: Registry) {
    Unique(r.tasks) && r.taskCount == |r.tasks|
  }

  predicate Inv(s: State) {
    Balanced(s) && Known(s) && FreedOk(s.reg) && TableOk(s.reg)
  }

  // ------------------------------------------------------------------ preservation

  lemma SetEntries(r: Registry, tgid: int, p: Option<nat>, q: nat)
    ensures Entries(SetTask(r, tgid, p), q) == Entries(r, q) + Is(p, q) - Is(ProxyOf(r.tasks, tgid), q)
  {
    var i := Find(r.tasks, tgid);
    if i < |r.tasks| {
      SumUpdate(r.tasks, i, Task(tgid, p), EntryWeight(q));
    } else {
      SumAppend(r.tasks, Task(tgid, p), EntryWeight(q));
    }
  }

  lemma DetachEntries(r: Registry, tgid: int, q: nat)
    ensures Entries(Detach(r, tgid), q) == Entries(r, q) - Is(ProxyOf(r.tasks, tgid), q)
  {
    var i := Find(r.tasks, tgid);
    if i < |r.tasks| {
      SumRemove(r.tasks, i, EntryWeight(q));
    }
  }

  /** The table part of every section. */
  lemma SetTable(r: Registry, tgid: int, p: Option<nat>)
    requires TableOk(r)
    ensures TableOk(SetTask(r, tgid, p))
  {
  }

  lemma DetachTable(r: Registry, tgid: int)
    requires TableOk(r)
    ensures TableOk(Detach(r, tgid)) && Find(Detach(r, tgid).tasks, tgid) == |Detach(r, tgid).tasks|
  {
    var i, t := Find(r.tasks, tgid), Detach(r, tgid).tasks;
    forall j | 0 <= j < |t| ensures t[j].tgid != tgid {
      if i < |r.tasks| {
        assert t[j] == r.tasks[if j < i then j else j + 1];
      }
    }
  }

  /** Whoever owns a reference keeps the object alive. */
  lemma OwnersKeepAlive(s: State)
    requires Inv(s)
    ensures forall p: nat | Owned(s, Some(p)) :: s.reg.refs[p] >= 1 && p !in s.reg.freed
    ensures forall i | 0 <= i < |s.reg.tasks| && s.reg.tasks[i].proxy.Some? ::
              s.reg.refs[s.reg.tasks[i].proxy.value] >= 1 && s.reg.tasks[i].proxy.value !in s.reg.freed
    ensures forall i | 0 <= i < |s.ops| && Held(s.ops[i]).Some? ::
              s.reg.refs[Held(s.ops[i]).value] >= 1 && Held(s.ops[i]).value !in s.reg.freed
  {
    forall i | 0 <= i < |s.reg.tasks| && s.reg.tasks[i].proxy.Some?
      ensures s.reg.refs[s.reg.tasks[i].proxy.value] >= 1
    {
      SumMember(s.reg.tasks, i, EntryWeight(s.reg.tasks[i].proxy.value));
    }
    forall i | 0 <= i < |s.ops| && Held(s.ops[i]).Some?
      ensures s.reg.refs[Held(s.ops[i]).value] >= 1
    {
      SumMember(s.ops, i, TransitWeight(Held(s.ops[i]).value));
    }
  }

  /** The new reference is taken before the old one is put, so an object that its owner keeps
      alive is not freed, even when the entry is set to what it already holds. */
  lemma SetRefs(r: Registry, tgid: int, p: Option<nat>, q: nat)
    requires q < |r.refs|
    ensures SetTask(r, tgid, p).refs[q] == r.refs[q] + Is(p, q) - Is(ProxyOf(r.tasks, tgid), q)
  {
  }

  lemma SetFreed(r: Registry, tgid: int, p: Option<nat>)
    requires FreedOk(r)
    requires p.Some? ==> p.value < |r.refs| && r.refs[p.value] >= 1
    requires ProxyOf(r.tasks, tgid).Some? ==>
               ProxyOf(r.tasks, tgid).value < |r.refs| && r.refs[ProxyOf(r.tasks, tgid).value] >= 1
    ensures FreedOk(SetTask(r, tgid, p))
  {
  }

  lemma SetBalanced(s: State, tgid: int, p: Option<nat>)
    requires Balanced(s)
    ensures var r := SetTask(s.reg, tgid, p);
            && |r.refs| == |s.reg.refs|
            && forall q | 0 <= q < |r.refs| ::
                 r.refs[q] - Entries(r, q) == s.reg.refs[q] - Entries(s.reg, q)
  {
    forall q | 0 <= q < |s.reg.refs|
      ensures SetTask(s.reg, tgid, p).refs[q] - Entries(SetTask(s.reg, tgid, p), q) == s.reg.refs[q] - Entries(s.reg, q)
    {
      SetRefs(s.reg, tgid, p, q);
      SetEntries(s.reg, tgid, p, q);
    }
  }

  /** Setting an entry, whoever holds the reference meanwhile. */
  lemma SetInv(s: State, tgid: int, p: Option<nat>)
    requires Inv(s) && (p.Some? ==> p.value < |s.reg.refs| && s.reg.refs[p.value] >= 1)
    ensures Inv(s.(reg := SetTask(s.reg, tgid, p)))
  {
    OwnersKeepAlive(s);
    SetBalanced(s, tgid, p);
    SetFreed(s.reg, tgid, p);
    SetTable(s.reg, tgid, p);
    var r := SetTask(s.reg, tgid, p);
    forall i | 0 <= i < |r.tasks| ensures r.tasks[i].proxy.Some? ==> r.tasks[i].proxy.value < |r.refs| {
      assert i < |s.reg.tasks| ==> r.tasks[i] == s.reg.tasks[i] || r.tasks[i].proxy == p;
    }
  }

  /** An operation changes hands or ends: what it adds to transit. */
  lemma OpSums(s: State, i: nat, op: Operation, q: nat)
    requires i < |s.ops|
    ensures Sum(s.ops[i := op], TransitWeight(q)) == Transit(s, q) - Is(Held(s.ops[i]), q) + Is(Held(op), q)
  {
    SumUpdate(s.ops, i, op, TransitWeight(q));
  }

  lemma PutFreed(r: Registry, p: Option<nat>)
    requires FreedOk(r) && (p.Some? ==> p.value < |r.refs| && r.refs[p.value] >= 1)
    ensures FreedOk(Put(r, p)) && FreedOk(Get(r, p))
  {
  }

  /** Putting the reference of a running operation. */
  lemma PutInv(s: State, i: nat)
    requires Inv(s) && i < |s.ops|
    ensures Inv(s.(reg := Put(s.reg, Held(s.ops[i])), ops := s.ops[i := Idle]))
  {
    OwnersKeepAlive(s);
    PutFreed(s.reg, Held(s.ops[i]));
    forall q | 0 <= q < |s.reg.refs|
      ensures Sum(s.ops[i := Idle], TransitWeight(q)) == Transit(s, q) - Is(Held(s.ops[i]), q)
    {
      OpSums(s, i, Idle, q);
    }
  }

  lemma HandInv(s: State, i: nat)
    requires Inv(s) && i < |s.ops|
    ensures Inv(s.(outside := Gain(s.outside, Held(s.ops[i])), ops := s.ops[i := Idle]))
  {
    forall q | 0 <= q < |s.reg.refs|
      ensures Sum(s.ops[i := Idle], TransitWeight(q)) == Transit(s, q) - Is(Held(s.ops[i]), q)
    {
      OpSums(s, i, Idle, q);
    }
  }

  lemma CopyInv(s: State, i: nat, memory: bool)
    requires Inv(s) && i < |s.ops| && s.ops[i].Copying?
    ensures Inv(StepOperation(s, i, memory))
  {
    var p, child := s.ops[i].source, s.ops[i].child;
    OwnersKeepAlive(s);
    SetInv(s, child, Some(p));
    forall q | 0 <= q < |s.reg.refs| ensures Sum(s.ops[i := Copied(p)], TransitWeight(q)) == Transit(s, q) {
      OpSums(s, i, Copied(p), q);
    }
  }

  lemma BeginOp(s: State, op: Operation, q: nat)
    ensures Sum(s.ops + [op], TransitWeight(q)) == Transit(s, q) + Is(Held(op), q)
  {
    SumAppend(s.ops, op, TransitWeight(q));
  }

  lemma DetachInv(s: State, tgid: int, op: Operation)
    requires Inv(s) && Held(op) == ProxyOf(s.reg.tasks, tgid)
    ensures Inv(Begin(s, Detach(s.reg, tgid), op))
  {
    DetachTable(s.reg, tgid);
    var t := Begin(s, Detach(s.reg, tgid), op);
    forall q | 0 <= q < |t.reg.refs| ensures t.reg.refs[q] == t.outside[q] + Entries(t.reg, q) + Transit(t, q) {
      DetachEntries(s.reg, tgid, q);
      BeginOp(s, op, q);
    }
    forall i | 0 <= i < |t.reg.tasks| ensures t.reg.tasks[i] in s.reg.tasks {
    }
  }

  lemma CloneInv(s: State, parent: int, child: int)
    requires Inv(s)
    ensures Inv(Next(s, Clone(parent, child)))
  {
    var p := ProxyOf(s.reg.tasks, parent);
    if p.Some? {
      OwnersKeepAlive(s);
      PutFreed(s.reg, p);
      forall q | 0 <= q < |s.reg.refs|
        ensures Sum(s.ops + [Copying(child, p.value)], TransitWeight(q)) == Transit(s, q) + Is(p, q)
      {
        BeginOp(s, Copying(child, p.value), q);
      }
    }
  }

  lemma NewInv(s: State)
    requires Inv(s)
    ensures Inv(Next(s, New))
  {
    var t, n := Next(s, New), |s.reg.refs|;
    SumZero(s.reg.tasks, EntryWeight(n));
    SumZero(s.ops, TransitWeight(n));
  }

  lemma OutsideInv(s: State, p: nat)
    requires Inv(s)
    ensures Inv(Next(s, OutsideGet(p))) && Inv(Next(s, OutsidePut(p)))
  {
    OwnersKeepAlive(s);
    if Owned(s, Some(p)) {
      PutFreed(s.reg, Some(p));
    }
  }

  /** The table without its first entry, whose reference has been put. */
  function ClearedFirst(r: Registry): Registry
    requires r.tasks != []
  {
    Put(r.(tasks := r.tasks[1..]), r.tasks[0].proxy)
  }

  lemma FirstEntry(r: Registry, q: nat)
    requires r.tasks != []
    ensures Entries(ClearedFirst(r), q) == Entries(r, q) - Is(r.tasks[0].proxy, q)
  {
    assert r.tasks[..0] + r.tasks[1..] == r.tasks[1..];
    SumRemove(r.tasks, 0, EntryWeight(q));
  }

  predicate EntriesBacked(r: Registry) {
    && (forall i | 0 <= i < |r.tasks| :: r.tasks[i].proxy.Some? ==> r.tasks[i].proxy.value < |r.refs|)
    && (forall q | 0 <= q < |r.refs| :: r.refs[q] >= Entries(r, q))
  }

  lemma ClearFirst(r: Registry)
    requires r.tasks != [] && FreedOk(r) && EntriesBacked(r)
    ensures var t := ClearedFirst(r);
            && FreedOk(t) && EntriesBacked(t) && |t.refs| == |r.refs|
            && forall q | 0 <= q < |r.refs| :: t.refs[q] - Entries(t, q) == r.refs[q] - Entries(r, q)
  {
    var p := r.tasks[0].proxy;
    forall q | 0 <= q < |r.refs| ensures Entries(ClearedFirst(r), q) == Entries(r, q) - Is(p, q) {
      FirstEntry(r, q);
    }
    if p.Some? { SumMember(r.tasks, 0, EntryWeight(p.value)); }
    PutFreed(r.(tasks := r.tasks[1..]), p);
  }

  /** Clearing puts exactly the reference of each entry. */
  lemma {:induction false} ClearedMeans(r: Registry)
    requires FreedOk(r) && EntriesBacked(r)
    ensures FreedOk(Cleared(r)) && Cleared(r).taskCount == 0
    ensures forall q | 0 <= q < |r.refs| :: Cleared(r).refs[q] == r.refs[q] - Entries(r, q)
    decreases |r.tasks|
  {
    if r.tasks != [] {
      ClearFirst(r);
      ClearedMeans(ClearedFirst(r));
    }
  }

  lemma ClearInv(s: State)
    requires Inv(s)
    ensures Inv(Next(s, ClearAll))
  {
    ClearedMeans(s.reg);
  }

  lemma NextInv(s: State, e: Event)
    requires Inv(s)
    ensures Inv(Next(s, e))
  {
    match e
    case New => NewInv(s);
    case OutsideGet(p) => OutsideInv(s, p);
    case OutsidePut(p) => OutsideInv(s, p);
    case Set(tgid, p, memory) => if Owned(s, p) { OwnersKeepAlive(s); SetInv(s, tgid, p); }
    case Remove(tgid) => DetachInv(s, tgid, Removing(ProxyOf(s.reg.tasks, tgid)));
    case Take(tgid) => DetachInv(s, tgid, Taking(ProxyOf(s.reg.tasks, tgid)));
    case Clone(parent, child) => CloneInv(s, parent, child);
    case Step(i, memory) =>
      if i < |s.ops| {
        match s.ops[i]
        case Idle =>
        case Removing(_) => PutInv(s, i);
        case Taking(_) => HandInv(s, i);
        case Copying(_, _) => CopyInv(s, i, memory);
        case Copied(_) => PutInv(s, i);
      }
    case ClearAll => ClearInv(s);
  }

  lemma {:induction false} RunInv(s: State, es: seq<Event>)
    requires Inv(s)
    ensures Inv(Run(s, es))
  {
    if es != [] {
      RunInv(s, es[..|es| - 1]);
      NextInv(Run(s, es[..|es| - 1]), es[|es| - 1]);
    }
  }

  // ------------------------------------------------------------------ what holds in every run

  ghost predicate Reachable(s: State) {
    exists es :: s == Run(START, es)
  }

  lemma ReachableInv(s: State)
    requires Reachable(s)
    ensures Inv(s)
  {
    var es :| s == Run(START, es);
    RunInv(START, es);
  }

  /** Conservation, over any interleaving of set, remove, take, clone and clear: every reference
      of every nsproxy belongs to an outside owner, to an entry or to a running operation. */
  lemma RegistryConservation(s: State, p: nat)
    requires Reachable(s) && p < |s.reg.refs|
    ensures p < |s.outside| && s.reg.refs[p] == s.outside[p] + Entries(s.reg, p) + Transit(s, p)
  {
    ReachableInv(s);
  }

  /** No entry ever points to a freed object, or to one about to be freed by somebody else. */
  lemma EntriesAlive(s: State, i: nat)
    requires Reachable(s) && i < |s.reg.tasks| && s.reg.tasks[i].proxy.Some?
    ensures var p := s.reg.tasks[i].proxy.value; p < |s.reg.refs| && s.reg.refs[p] >= 1 && p !in s.reg.freed
  {
    ReachableInv(s);
    OwnersKeepAlive(s);
  }

  /** An nsproxy is freed by the put of its last reference, and by no other: a freed one has no
      owner left, and one without an owner is freed. */
  lemma FreedExactly(s: State, p: nat)
    requires Reachable(s) && p < |s.reg.refs|
    ensures p < |s.outside|
    ensures p in s.reg.freed <==> s.outside[p] == 0 && Entries(s.reg, p) == 0 && Transit(s, p) == 0
  {
    ReachableInv(s);
  }

  /** Each tgid has at most one entry, and the count is the size of the table. */
  lemma OneEntryEach(s: State)
    requires Reachable(s)
    ensures Unique(s.reg.tasks) && s.reg.taskCount == |s.reg.tasks|
  {
    ReachableInv(s);
  }

  lemma FindUpdated(tasks: seq<Task>, i: nat, t: Task, tgid: int)
    requires i < |tasks| && tasks[i].tgid == t.tgid
    ensures Find(tasks[i := t], tgid) == Find(tasks, tgid)
  {
    var u := tasks[i := t];
    assert Find(u, tgid) < |tasks| ==> tasks[Find(u, tgid)].tgid == u[Find(u, tgid)].tgid;
    assert Find(tasks, tgid) < |tasks| ==> u[Find(tasks, tgid)].tgid == tasks[Find(tasks, tgid)].tgid;
  }

  lemma FindAppended(tasks: seq<Task>, t: Task, tgid: int)
    requires Find(tasks, t.tgid) == |tasks|
    ensures Find(tasks + [t], tgid) == if tgid == t.tgid then |tasks|
                                       else if Find(tasks, tgid) < |tasks| then Find(tasks, tgid) else |tasks| + 1
  {
    var u := tasks + [t];
    assert Find(u, tgid) < |tasks| ==> tasks[Find(u, tgid)] == u[Find(u, tgid)];
    assert Find(tasks, tgid) < |tasks| ==> u[Find(tasks, tgid)] == tasks[Find(tasks, tgid)];
    assert u[|tasks|] == t;
  }

  /** After a set, the lookup of that tgid finds what was set and every other lookup is as
      before. */
  lemma SetThenFind(r: Registry, tgid: int, p: Option<nat>, other: int)
    ensures ProxyOf(SetTask(r, tgid, p).tasks, other) == if other == tgid then p else ProxyOf(r.tasks, other)
  {
    var i := Find(r.tasks, tgid);
    if i < |r.tasks| {
      FindUpdated(r.tasks, i, Task(tgid, p), other);
    } else {
      FindAppended(r.tasks, Task(tgid, p), other);
    }
  }

  /** So it is for a set in a run: it does what it says whenever there is memory for a new entry,
      and nothing without. */
  lemma SetIsFound(s: State, tgid: int, p: Option<nat>, memory: bool, other: int)
    requires Owned(s, p)
    ensures var done := memory || Find(s.reg.tasks, tgid) < |s.reg.tasks|;
            ProxyOf(Next(s, Set(tgid, p, memory)).reg.tasks, other)
            == if done && other == tgid then p else ProxyOf(s.reg.tasks, other)
  {
    SetThenFind(s.reg, tgid, p, other);
  }

  /** A clear in a run leaves no entry, and takes from each count what the entries had. */
  lemma ClearEmpties(s: State, q: nat)
    requires Reachable(s) && q < |s.reg.refs|
    ensures var t := Next(s, ClearAll).reg;
            && t.tasks == [] && t.taskCount == 0 && |t.refs| == |s.reg.refs|
            && t.refs[q] == s.reg.refs[q] - Entries(s.reg, q)
  {
    ReachableInv(s);
    ClearedMeans(s.reg);
  }

  /** Setting an entry to what it already holds frees nothing and changes nothing. */
  lemma SelfSetIsNoOp(r: Registry, tgid: int)
    requires ProxyOf(r.tasks, tgid).Some?
    requires ProxyOf(r.tasks, tgid).value < |r.refs| && r.refs[ProxyOf(r.tasks, tgid).value] >= 1
    ensures SetTask(r, tgid, ProxyOf(r.tasks, tgid)) == r
  {
    var i := Find(r.tasks, tgid);
    assert r.tasks[i] == Task(tgid, ProxyOf(r.tasks, tgid));
    assert Put(Get(r, r.tasks[i].proxy), r.tasks[i].proxy).refs == r.refs;
  }

  // ------------------------------------------------------------------ the code

  /** The sections of one clone in order, with nothing in between. */
  function Cloned(r: Registry, parent: int, child: int, memory: bool): Registry {
    var p := ProxyOf(r.tasks, parent);
    if p.None? then r
    else
      var held := Get(r, p);
      Put(if Refused(held, child, memory) then held else SetTask(held, child, p), p)
  }

  /** The operation that began last, and the section it is before. */
  lemma LastStep(s: State, r: Registry, op: Operation, memory: bool)
    requires !op.Idle?
    ensures Next(Begin(s, r, op), Step(|s.ops|, memory)) ==
            match op
            case Removing(p) => Begin(s, Put(r, p), Idle)
            case Taking(p) => Begin(s.(outside := Gain(s.outside, p)), r, Idle)
            case Copying(child, p) =>
              Begin(s, if Refused(r, child, memory) then r else SetTask(r, child, Some(p)), Copied(p))
            case Copied(p) => Begin(s, Put(r, Some(p)), Idle)
  {
    assert forall x: Operation :: (s.ops + [op])[|s.ops| := x] == s.ops + [x];
  }

  /** A clone is what its three sections add up to when nothing comes between them. */
  lemma CloneEffect(s: State, parent: int, child: int, memory: bool)
    ensures Next(Next(Next(s, Clone(parent, child)), Step(|s.ops|, memory)), Step(|s.ops|, memory))
         == if ProxyOf(s.reg.tasks, parent).Some? then Begin(s, Cloned(s.reg, parent, child, memory), Idle) else s
  {
    var p := ProxyOf(s.reg.tasks, parent);
    if p.Some? {
      var held := Get(s.reg, p);
      LastStep(s, held, Copying(child, p.value), memory);
      LastStep(s, if Refused(held, child, memory) then held else SetTask(held, child, p), Copied(p.value), memory);
    }
  }

  /** What vns_registry_remove() does is what its two sections add up to. */
  lemma RemoveEffect(s: State, tgid: int, memory: bool)
    ensures Next(Next(s, Remove(tgid)), Step(|s.ops|, memory))
         == Begin(s, Put(Detach(s.reg, tgid), ProxyOf(s.reg.tasks, tgid)), Idle)
  {
    LastStep(s, Detach(s.reg, tgid), Removing(ProxyOf(s.reg.tasks, tgid)), memory);
  }

  /** So is what vns_registry_take_nsproxy() does: the reference is the caller's from then on. */
  lemma TakeEffect(s: State, tgid: int, memory: bool)
    ensures Next(Next(s, Take(tgid)), Step(|s.ops|, memory))
         == Begin(s.(outside := Gain(s.outside, ProxyOf(s.reg.tasks, tgid))), Detach(s.reg, tgid), Idle)
  {
    LastStep(s, Detach(s.reg, tgid), Taking(ProxyOf(s.reg.tasks, tgid)), memory);
  }

  /** A clone leaves parent and child with the same nsproxy, and costs exactly the reference
      that the child's entry owns. */
  lemma CloneShares(r: Registry, parent: int, child: int, memory: bool)
    requires ProxyOf(r.tasks, parent).Some? && !Refused(r, child, memory)
    requires ProxyOf(r.tasks, parent).value < |r.refs|
    ensures var t, p := Cloned(r, parent, child, memory), ProxyOf(r.tasks, parent);
            && ProxyOf(t.tasks, child) == p && ProxyOf(t.tasks, parent) == p
            && |t.refs| == |r.refs|
            && forall q | 0 <= q < |r.refs| ::
                 t.refs[q] == r.refs[q] + Is(p, q) - Is(ProxyOf(r.tasks, child), q)
  {
    var p := ProxyOf(r.tasks, parent);
    SetThenFind(Get(r, p), child, p, child);
    SetThenFind(Get(r, p), child, p, parent);
    forall q | 0 <= q < |r.refs|
      ensures Cloned(r, parent, child, memory).refs[q] == r.refs[q] + Is(p, q) - Is(ProxyOf(r.tasks, child), q)
    {
      SetRefs(Get(r, p), child, p, q);
    }
  }

  class Tasks {
    var tasks: seq<Task>
    var taskCount: nat
    var refs: seq<int>
    var freed: set<nat>

    function View(): Registry
      reads this
    {
      Registry(tasks, taskCount, refs, freed)
    }

    constructor ()
      ensures View() == START.reg
    {
      tasks, taskCount, refs, freed := [], 0, [], {};
    }

    /** __vns_task_find_locked(). */
    method FindLocked(tgid: int) returns (i: nat)
      ensures i == Find(tasks, tgid)
    {
      i := 0;
      while i < |tasks| && tasks[i].tgid != tgid
        invariant i <= |tasks| && Find(tasks, tgid) == i + Find(tasks[i..], tgid)
      {
        i := i + 1;
      }
    }

    method GetNsproxy(p: nat)
      modifies this`refs
      ensures View() == Get(old(View()), Some(p))
    {
      if p < |refs| {
        refs := refs[p := refs[p] + 1];
      }
    }

    /** vns_put_nsproxy(): the last put frees the object. */
    method PutNsproxy(p: nat)
      modifies this`refs, this`freed
      ensures View() == Put(old(View()), Some(p))
    {
      if p < |refs| {
        refs := refs[p := refs[p] - 1];
        if refs[p] == 0 {
          freed := freed + {p};
        }
      }
    }

    /** vns_registry_set_nsproxy(). */
    method SetNsproxy(tgid: int, p: Option<nat>, memory: bool) returns (ok: bool)
      modifies this
      ensures ok <==> !Refused(old(View()), tgid, memory)
      ensures View() == if ok then SetTask(old(View()), tgid, p) else old(View())
    {
      var i := FindLocked(tgid);
      if i == |tasks| {
        if !memory {
          return false;
        }
        tasks := tasks + [Task(tgid, None)];
        taskCount := taskCount + 1;
      }
      if p.Some? {
        GetNsproxy(p.value);
      }
      if tasks[i].proxy.Some? {
        PutNsproxy(tasks[i].proxy.value);
      }
      tasks := tasks[i := Task(tgid, p)];
      ok := true;
      assert tasks == SetTask(old(View()), tgid, p).tasks;
    }

    /** __vns_registry_detach(). */
    method DetachTask(tgid: int) returns (task: Option<Task>)
      modifies this`tasks, this`taskCount
      ensures View() == Detach(old(View()), tgid)
      ensures task == if Find(old(tasks), tgid) < |old(tasks)| then Some(old(tasks)[Find(old(tasks), tgid)]) else None
    {
      var i := FindLocked(tgid);
      if i == |tasks| {
        return None;
      }
      task := Some(tasks[i]);
      tasks := tasks[..i] + tasks[i + 1..];
      if taskCount > 0 {
        taskCount := taskCount - 1;
      }
    }

    /** vns_registry_remove(). */
    method RemoveTask(tgid: int)
      modifies this
      ensures View() == Put(Detach(old(View()), tgid), ProxyOf(old(tasks), tgid))
    {
      var t := DetachTask(tgid);
      if t.None? {
        return;
      }
      if t.value.proxy.Some? {
        PutNsproxy(t.value.proxy.value);
      }
    }

    /** vns_registry_take_nsproxy(). */
    method TakeNsproxy(tgid: int) returns (p: Option<nat>)
      modifies this`tasks, this`taskCount
      ensures View() == Detach(old(View()), tgid) && p == ProxyOf(old(tasks), tgid)
    {
      var t := DetachTask(tgid);
      p := if t.None? then None else t.value.proxy;
    }

    /** vns_registry_clone(). */
    method CloneTask(parent: int, child: int, memory: bool)
      modifies this
      ensures View() == Cloned(old(View()), parent, child, memory)
    {
      var i := FindLocked(parent);
      if i == |tasks| || tasks[i].proxy.None? {
        return;
      }
      var p := tasks[i].proxy.value;
      GetNsproxy(p);
      var ok := SetNsproxy(child, Some(p), memory);
      PutNsproxy(p);
    }

    /** vns_registry_clear_all(). */
    method ClearTasks()
      modifies this
      ensures View() == Cleared(old(View()))
    {
      while tasks != []
        invariant Cleared(View()) == Cleared(old(View()))
        decreases |tasks|
      {
        ghost var before := View();
        var t := tasks[0];
        tasks := tasks[1..];
        if t.proxy.Some? {
          PutNsproxy(t.proxy.value);
        }
        assert freed + {} == freed;
        assert View() == Put(before.(tasks := before.tasks[1..]), before.tasks[0].proxy);
        assert Cleared(before) == Cleared(View());
      }
      taskCount := 0;
    }
  }
}
