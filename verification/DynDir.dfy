/** The dynamic directories of glue/lkm4ctr_diagfs.c: one file per live instance, named by its
    key, and listed by reads that may stop anywhere. */
module DynDir {
  import opened Options
  import opened Numerals
  import opened Tally

  const U32_LIMIT := 0x1_0000_0000
  const LISTED_MAX := 4096

  // ------------------------------------------------------------------ keys

  /** (u32)x */
  function ToU32(x: int): (r: nat)
    ensures r < U32_LIMIT
  {
    x % U32_LIMIT
  }

  /** (int)key and (pid_t)key: the low 32 bits, signed. */
  function ToInt(key: nat): (r: int)
    ensures -0x8000_0000 <= r < 0x8000_0000
  {
    var low := key % U32_LIMIT;
    if low < 0x8000_0000 then low else low - U32_LIMIT
  }

  predicate IsPid(x: int) {
    -0x8000_0000 <= x < 0x8000_0000
  }

  lemma IdSurvives(x: int)
    requires IsPid(x)
    ensures ToInt(ToU32(x)) == x
  {
  }

  /** What a directory lists: the ids of one provider, or the module's own reference holders. */
  datatype Directory =
    | Provider(ids: seq<int>)
    | Resources(mounts: nat, hooks: nat, refcount: int)   // refcount < 0: unknown

  datatype Kind = Mount | Hook | Other

  function Code(k: Kind): nat {
    match k case Mount => 1 case Hook => 2 case Other => 3
  }

  function KindName(k: Kind): string {
    match k case Mount => "mount-" case Hook => "hook-" case Other => "other-"
  }

  function KeyOf(k: Kind, i: nat): nat
  {
    Code(k) * U32_LIMIT + i
  }

  function KindOf(key: nat): Kind {
    if ToInt(key / U32_LIMIT) == 1 then Mount else if ToInt(key / U32_LIMIT) == 2 then Hook else Other
  }

  function Max(a: int, b: int): int {
    if a > b then a else b
  }

  /** lkm4ctr_diag_res_counts(): what is not a mount or a hook call is somebody else's. */
  function Others(d: Directory): (n: nat)
    requires d.Resources?
  {
    if d.refcount < 0 then 0 else Max(0, d.refcount - 1 - d.mounts - d.hooks)
  }

  predicate WellFormed(d: Directory) {
    match d
    case Provider(ids) => (forall i | 0 <= i < |ids| :: IsPid(ids[i]))
      && (forall i, j | 0 <= i < j < |ids| :: ids[i] != ids[j])
    case Resources(mounts, hooks, refcount) => mounts < 0x8000_0000 && hooks < 0x8000_0000 && refcount < 0x8000_0000
  }

  /** The key of the `i`th live instance, in snapshot order. */
  function KeyAt(d: Directory, i: nat): nat
    requires i < Count(d)
  {
    match d
    case Provider(ids) => ToU32(ids[i])
    case Resources(mounts, hooks, _) =>
      if i < mounts then KeyOf(Mount, i)
      else if i < mounts + hooks then KeyOf(Hook, i - mounts)
      else KeyOf(Other, i - mounts - hooks)
  }

  function Count(d: Directory): nat {
    match d
    case Provider(ids) => |ids|
    case Resources(mounts, hooks, _) => mounts + hooks + Others(d)
  }

  function Snapshot(d: Directory): (keys: seq<nat>)
    ensures |keys| == Count(d)
  {
    seq(Count(d), i requires 0 <= i < Count(d) => KeyAt(d, i))
  }

  /** With a known reference count the resources directory accounts for every reference but the
      loader's own, and for every mount and hook call even when there are more of those. */
  lemma ResourcesCount(d: Directory)
    requires d.Resources?
    ensures d.refcount >= 0 ==> Count(d) == Max(d.mounts + d.hooks, d.refcount - 1)
    ensures d.refcount < 0 ==> Count(d) == d.mounts + d.hooks
  {
  }

  /** vns_diag_res_present() and lkm4ctr_diag_res_present(). */
  predicate Present(d: Directory, key: nat) {
    match d
    case Provider(ids) => ToInt(key) in ids
    case Resources(mounts, hooks, _) =>
      var i := key % U32_LIMIT;
      if ToInt(key / U32_LIMIT) == 1 then i < mounts
      else if ToInt(key / U32_LIMIT) == 2 then i < hooks
      else if ToInt(key / U32_LIMIT) == 3 then i < Others(d)
      else false
  }

  // ------------------------------------------------------------------ names

  function NameOf(d: Directory, key: nat): string {
    if d.Provider? then Decimal(key) else KindName(KindOf(key)) + Decimal(key % U32_LIMIT)
  }

  function WithKind(k: Kind, v: Option<nat>): Option<nat> {
    if v.Some? && v.value < U32_LIMIT then Some(KeyOf(k, v.value)) else None
  }

  function ParseName(d: Directory, name: string): Option<nat> {
    if d.Provider? then Parse(name)
    else if KindName(Mount) <= name then WithKind(Mount, Parse(name[6..]))
    else if KindName(Hook) <= name then WithKind(Hook, Parse(name[5..]))
    else if KindName(Other) <= name then WithKind(Other, Parse(name[6..]))
    else None
  }

  lemma KeyParts(k: Kind, i: nat)
    requires i < U32_LIMIT
    ensures KeyOf(k, i) / U32_LIMIT == Code(k) && KeyOf(k, i) % U32_LIMIT == i && KindOf(KeyOf(k, i)) == k
  {
  }

  lemma KindNamesDiffer(k: Kind, s: string)
    ensures KindName(k) + s != "" && (KindName(k) + s)[0] == KindName(k)[0]
    ensures (KindName(k) + s)[|KindName(k)|..] == s
    ensures forall j: Kind :: KindName(j) <= KindName(k) + s <==> j == k
  {
    forall j: Kind ensures KindName(j) <= KindName(k) + s <==> j == k {
      if KindName(j) <= KindName(k) + s {
        assert KindName(j)[0] == (KindName(k) + s)[0];
      }
    }
  }

  lemma ResourceParses(d: Directory, k: Kind, n: nat)
    requires d.Resources? && n < U32_LIMIT
    ensures ParseName(d, NameOf(d, KeyOf(k, n))) == Some(KeyOf(k, n))
  {
    KeyParts(k, n);
    PrintThenParse(n);
    KindNamesDiffer(k, Decimal(n));
    hide Decimal, Parse;
  }

  /** Every listed name parses back to its own key, and a lookup of it finds the instance. */
  lemma ListedIsFound(d: Directory, i: nat)
    requires WellFormed(d) && i < Count(d)
    ensures ParseName(d, NameOf(d, KeyAt(d, i))) == Some(KeyAt(d, i))
    ensures Present(d, KeyAt(d, i))
  {
    var key := KeyAt(d, i);
    match d
    case Provider(ids) =>
      IdSurvives(ids[i]);
      PrintThenParse(key);
    case Resources(mounts, hooks, _) =>
      var k := if i < mounts then Mount else if i < mounts + hooks then Hook else Other;
      var n := if i < mounts then i else if i < mounts + hooks then i - mounts else i - mounts - hooks;
      KeyParts(k, n);
      ResourceParses(d, k, n);
  }

  /** Conversely a lookup finds exactly the listed instances, except that a provider ignores
      the high half of a key: only a name that stands for at most 32 bits is its own. */
  lemma FoundIsListed(d: Directory, key: nat)
    requires WellFormed(d) && key < U64_LIMIT && Present(d, key)
    ensures key in Snapshot(d) <==> (d.Provider? ==> key < U32_LIMIT)
    ensures d.Provider? ==> key % U32_LIMIT in Snapshot(d)
  {
    match d
    case Provider(ids) =>
      var i :| 0 <= i < |ids| && ids[i] == ToInt(key);
      assert ToU32(ids[i]) == key % U32_LIMIT;
      assert Snapshot(d)[i] == key % U32_LIMIT;
    case Resources(mounts, hooks, _) =>
      var n := key % U32_LIMIT;
      var i := if ToInt(key / U32_LIMIT) == 1 then n else if ToInt(key / U32_LIMIT) == 2 then mounts + n
        else mounts + hooks + n;
      assert Snapshot(d)[i] == key;
  }

  /** No two instances have the same name. */
  lemma NamesDiffer(d: Directory, i: nat, j: nat)
    requires WellFormed(d) && i < j < Count(d)
    ensures NameOf(d, KeyAt(d, i)) != NameOf(d, KeyAt(d, j))
  {
    ListedIsFound(d, i);
    ListedIsFound(d, j);
    if d.Provider? {
      IdSurvives(d.ids[i]);
      IdSurvives(d.ids[j]);
    }
  }

  const NAME_MAX := 255

  /** lkm4ctr_diagfs_dyn_lookup() finds a live instance under this name. */
  predicate Accepted(d: Directory, name: string) {
    |name| < NAME_MAX && ParseName(d, name).Some? && Present(d, ParseName(d, name).value)
  }

  /** `name` is the name of a live instance. */
  predicate Named(d: Directory, name: string) {
    exists i | 0 <= i < Count(d) :: NameOf(d, KeyAt(d, i)) == name
  }

  /** The part of a name that is parsed as a number. */
  function NumberPart(d: Directory, name: string): string {
    if d.Provider? then name
    else if KindName(Mount) <= name then name[6..]
    else if KindName(Hook) <= name then name[5..]
    else if KindName(Other) <= name then name[6..]
    else ""
  }

  lemma NameIsShort(d: Directory, key: nat)
    requires key < U64_LIMIT
    ensures |NameOf(d, key)| <= 26
  {
    assert Power10(10) == 10_000_000_000;
    assert Power10(20) == 100_000_000_000_000_000_000;
    DecimalLength(key, 20);
    DecimalLength(key % U32_LIMIT, 20);
  }

  /** Every live instance is found under its name. */
  lemma NamedIsAccepted(d: Directory, name: string)
    requires WellFormed(d) && Named(d, name)
    ensures Accepted(d, name)
  {
    var i :| 0 <= i < Count(d) && NameOf(d, KeyAt(d, i)) == name;
    ListedIsFound(d, i);
    NameIsShort(d, KeyAt(d, i));
  }

  /** A key in the snapshot is found under no other live name than its own. */
  lemma SnapshotNamed(d: Directory, name: string, key: nat)
    requires WellFormed(d) && ParseName(d, name) == Some(key)
    ensures Named(d, name) <==> key in Snapshot(d) && NameOf(d, key) == name
  {
    if Named(d, name) {
      var i :| 0 <= i < Count(d) && NameOf(d, KeyAt(d, i)) == name;
      ListedIsFound(d, i);
      assert Snapshot(d)[i] == key;
    }
    if key in Snapshot(d) && NameOf(d, key) == name {
      var i :| 0 <= i < Count(d) && Snapshot(d)[i] == key;
      assert NameOf(d, KeyAt(d, i)) == name;
    }
  }

  /** A parsed name is the printed name of its key exactly if its number is written canonically. */
  lemma ParsedIsPrinted(d: Directory, name: string)
    requires ParseName(d, name).Some?
    ensures NameOf(d, ParseName(d, name).value) == name <==> Canonical(NumberPart(d, name))
  {
    var part := NumberPart(d, name);
    ParseThenPrint(part);
    if d.Resources? {
      var k := if KindName(Mount) <= name then Mount else if KindName(Hook) <= name then Hook else Other;
      assert name == KindName(k) + part;
      KeyParts(k, Parse(part).value);
    }
  }

  /** A lookup finds a live instance under its own name and under others.  A name it finds
      something under is that of an instance if and only if its number is written canonically
      and, in a provider's directory, has at most 32 bits: a provider ignores the rest. */
  lemma AliasOrListed(d: Directory, name: string)
    requires WellFormed(d) && Accepted(d, name)
    ensures Named(d, name) <==>
              Canonical(NumberPart(d, name)) && (d.Provider? ==> ParseName(d, name).value < U32_LIMIT)
  {
    var key := ParseName(d, name).value;
    SnapshotNamed(d, name, key);
    ParsedIsPrinted(d, name);
    FoundIsListed(d, key);
  }

  /** The name of a key, with its number written as `part`. */
  function Spelled(d: Directory, key: nat, part: string): string {
    if d.Provider? then part else KindName(KindOf(key)) + part
  }

  lemma SpelledParses(d: Directory, key: nat, part: string)
    ensures NumberPart(d, Spelled(d, key, part)) == part
    ensures ParseName(d, Spelled(d, key, part))
         == if d.Provider? then Parse(part) else WithKind(KindOf(key), Parse(part))
  {
    if d.Resources? {
      KindNamesDiffer(KindOf(key), part);
    }
  }

  /** A zero in front of the number of a live instance gives another name that finds it, which
      is no instance's own. */
  lemma LeadingZeroIsAlias(d: Directory, i: nat)
    requires WellFormed(d) && i < Count(d)
    ensures var key := KeyAt(d, i);
            var alias := Spelled(d, key, "0" + Decimal(if d.Provider? then key else key % U32_LIMIT));
            Accepted(d, alias) && ParseName(d, alias) == Some(key) && !Named(d, alias)
  {
    var key := KeyAt(d, i);
    var n := if d.Provider? then key else key % U32_LIMIT;
    ListedIsFound(d, i);
    SpelledParses(d, key, Decimal(n));
    SpelledParses(d, key, "0" + Decimal(n));
    ZeroThenDigits(n);
    PrintThenParse(n);
    NameIsShort(d, key);
    AliasOrListed(d, Spelled(d, key, "0" + Decimal(n)));
  }

  lemma LowBits(high: nat, low: nat)
    requires low < U32_LIMIT
    ensures (high * U32_LIMIT + low) % U32_LIMIT == low && ToInt(high * U32_LIMIT + low) == ToInt(low)
  {
  }

  /** The instance with id `x` is found under every number with the low 32 bits of its key. */
  lemma HighBitsAreAlias(d: Directory, i: nat, high: nat)
    requires WellFormed(d) && d.Provider? && i < Count(d) && 0 < high < U32_LIMIT
    ensures var alias := Decimal(high * U32_LIMIT + KeyAt(d, i));
            Accepted(d, alias) && Canonical(alias) && !Named(d, alias)
  {
    var key := high * U32_LIMIT + KeyAt(d, i);
    ListedIsFound(d, i);
    NameIsShort(d, key);
    PrintThenParse(key);
    ParseThenPrint(Decimal(key));
    LowBits(high, KeyAt(d, i));
    hide Decimal, Canonical, Named;
    AliasOrListed(d, Decimal(key));
  }

  // ------------------------------------------------------------------ listing

  function Names(d: Directory, n: nat): (names: seq<string>)
    requires n <= Count(d)
    ensures |names| == n
  {
    seq(n, i requires 0 <= i < n => NameOf(d, KeyAt(d, i)))
  }

  /** Everything a listing of the directory shows, in order. */
  function Listing(d: Directory): (names: seq<string>)
    ensures |names| == 2 + Min(Count(d), LISTED_MAX)
  {
    [".", ".."] + Names(d, Min(Count(d), LISTED_MAX))
  }

  /** What one read from `pos` with room for `room` names delivers. */
  function Chunk<T>(listing: seq<T>, pos: nat, room: nat): (names: seq<T>)
    ensures |names| <= room && (pos <= |listing| ==> pos + |names| <= |listing|)
  {
    if pos >= |listing| then [] else listing[pos..Min(pos + room, |listing|)]
  }

  /** The first `n` keys are stored, as far as there is room. */
  predicate Stored(d: Directory, keys: array<nat>, n: nat)
    requires n <= Count(d)
    reads keys
  {
    forall i | 0 <= i < n && i < keys.Length :: keys[i] == KeyAt(d, i)
  }

  method StoreKey(d: Directory, keys: array<nat>, n: nat, key: nat)
    requires n < Count(d) && key == KeyAt(d, n) && Stored(d, keys, n)
    modifies keys
    ensures Stored(d, keys, n + 1)
  {
    if n < keys.Length {
      keys[n] := key;
    }
  }

  /** The snapshot functions: the total is reported even when the array is too small. */
  method TakeSnapshot(d: Directory, keys: array<nat>) returns (n: nat)
    modifies keys
    ensures n == Count(d) && Stored(d, keys, n)
  {
    n := 0;
    match d
    case Provider(ids) =>
      while n < |ids|
        invariant n <= |ids| && Stored(d, keys, n)
      {
        StoreKey(d, keys, n, ToU32(ids[n]));
        n := n + 1;
      }
    case Resources(mounts, hooks, _) =>
      n := AddKeys(d, Mount, 0, mounts, keys);
      n := AddKeys(d, Hook, n, hooks, keys);
      n := AddKeys(d, Other, n, Others(d), keys);
  }

  /** One of the three loops of lkm4ctr_diag_res_snapshot(). */
  method AddKeys(d: Directory, k: Kind, start: nat, count: nat, keys: array<nat>) returns (n: nat)
    requires start + count <= Count(d) && forall i | 0 <= i < count :: KeyAt(d, start + i) == KeyOf(k, i)
    requires Stored(d, keys, start)
    modifies keys
    ensures n == start + count && Stored(d, keys, n)
  {
    n := start;
    for i := 0 to count
      invariant n == start + i && Stored(d, keys, n)
    {
      StoreKey(d, keys, n, KeyOf(k, i));
      n := n + 1;
    }
  }

  const DOTS: seq<string> := [".", ".."]

  /** dir_emit_dots(). */
  method EmitDots(pos: nat, room: nat) returns (names: seq<string>, end: nat)
    ensures names == Chunk(DOTS, pos, room) && end == pos + |names|
  {
    names, end := [], pos;
    if end == 0 {
      if room == 0 {
        return;
      }
      names, end := ["."], 1;
    }
    if end == 1 {
      if room == |names| {
        return;
      }
      names, end := names + [".."], 2;
    }
  }

  /** The place in the listing that a file position stands for.  A position is narrowed to an
      int, so that 2 to the 32 and more begins the instances again, and one whose low half is
      negative, or less than 2, is past the end. */
  function Place(pos: nat): (place: nat)
    ensures pos < 0x8000_0000 ==> place == pos
    ensures pos >= 2 ==> place >= 2
  {
    if pos < 2 then pos else if ToInt(pos) >= 2 then ToInt(pos) else 2 + LISTED_MAX
  }

  lemma PlaceRepeats(pos: nat, k: nat)
    requires pos >= 2
    ensures Place(pos + k * U32_LIMIT) == Place(pos)
  {
    assert (pos + k * U32_LIMIT) % U32_LIMIT == pos % U32_LIMIT;
  }

  /** The loop of lkm4ctr_diagfs_dyn_iterate() over the snapshot. */
  method EmitKeys(d: Directory, keys: array<nat>, total: nat, pos: nat, room: nat) returns (names: seq<string>, end: nat)
    requires 2 <= pos && total == Min(Count(d), LISTED_MAX) <= keys.Length
    requires Stored(d, keys, total)
    ensures names == Chunk(Listing(d), Place(pos), room) && end == pos + |names|
  {
    names, end := [], pos;
    var i := ToInt(pos) - 2;
    ghost var l, first := Listing(d), Place(pos);
    while i >= 0 && i < total
      invariant |l| == 2 + total && |names| == end - pos <= room
      invariant i >= 0 ==> i == first + |names| - 2 && (if first <= |l| then first + |names| <= |l| else names == [])
      invariant i < 0 ==> first >= |l| && names == []
      invariant names == Slice(l, first, first + |names|)
      decreases total - i
    {
      if |names| == room {
        return;
      }
      SliceNext(l, first, first + |names|);
      StoredIsListed(d, keys, total, i);
      names := names + [NameOf(d, keys[i])];
      end := end + 1;
      i := i + 1;
    }
  }

  lemma StoredIsListed(d: Directory, keys: array<nat>, total: nat, i: nat)
    requires i < total == Min(Count(d), LISTED_MAX) <= keys.Length && Stored(d, keys, total)
    ensures Listing(d)[2 + i] == NameOf(d, keys[i])
  {
  }

  lemma SliceNext<T>(s: seq<T>, a: nat, b: nat)
    requires a <= b < |s|
    ensures Slice(s, a, b + 1) == Slice(s, a, b) + [s[b]]
  {
  }

  function Slice<T>(s: seq<T>, a: nat, b: nat): seq<T> {
    if a <= b <= |s| then s[a..b] else []
  }

  /** A read across the place `mid` is the two reads up to it and from it. */
  lemma ChunkJoins<T>(l: seq<T>, pos: nat, mid: nat, room: nat)
    requires pos <= mid <= |l| && mid - pos <= room
    ensures Chunk(l, pos, room) == l[pos..mid] + Chunk(l, mid, room - (mid - pos))
  {
  }

  /** A read that begins among the dots, of a listing that begins with them. */
  lemma ChunkOfDots(l: seq<string>, pos: nat, room: nat)
    requires pos < 2 <= |l| && l[..2] == DOTS
    ensures var c := Chunk(DOTS, pos, room);
            if room < 2 - pos then Chunk(l, pos, room) == c && pos + |c| < 2
            else c == l[pos..2] && Chunk(l, pos, room) == c + Chunk(l, 2, room - (2 - pos))
  {
    if room >= 2 - pos {
      assert DOTS[pos..2] == l[pos..2];
      ChunkJoins(l, pos, 2, room);
    } else {
      assert DOTS[pos..pos + room] == l[pos..pos + room];
    }
  }

  /** The listing begins with the two dots. */
  lemma ChunkSplits(d: Directory, pos: nat, room: nat)
    ensures var c := Chunk(DOTS, pos, room);
            Chunk(Listing(d), Place(pos), room)
            == if pos + |c| < 2 then c else c + Chunk(Listing(d), Place(pos + |c|), room - |c|)
  {
    if pos < 2 {
      var l := Listing(d);
      assert l[..2] == DOTS;
      hide Listing, Chunk;
      ChunkOfDots(l, pos, room);
    }
  }

  /** lkm4ctr_diagfs_dyn_iterate(): one read from position `pos`, for a reader that takes `room`
      more names; `memory` says whether the key array could be allocated. */
  method Iterate(d: Directory, pos: nat, room: nat, memory: bool) returns (names: seq<string>, end: nat, ok: bool)
    ensures ok ==> names == Chunk(Listing(d), Place(pos), room)
    ensures !ok ==> !memory && names == Chunk(DOTS, pos, room)
    ensures end == pos + |names|
  {
    names, end := EmitDots(pos, room);
    ChunkSplits(d, pos, room);
    if end < 2 {
      return names, end, true;
    }
    if !memory {
      return names, end, false;
    }
    var keys := new nat[LISTED_MAX];
    var total := TakeSnapshot(d, keys);
    if total > LISTED_MAX {
      total := LISTED_MAX;
    }
    var more, last := EmitKeys(d, keys, total, end, room - |names|);
    return names + more, last, true;
  }

  /** A directory read in any number of partial reads, each from where the last one stopped. */
  function ReadAll<T>(listing: seq<T>, rooms: seq<nat>): seq<T> {
    if rooms == [] then []
    else
      var done := ReadAll(listing, rooms[..|rooms| - 1]);
      done + Chunk(listing, |done|, rooms[|rooms| - 1])
  }

  const ROOM: nat -> nat := n => n

  /** How many names all the reads have room for. */
  function Room(rooms: seq<nat>): nat {
    Sum(rooms, ROOM)
  }

  lemma ChunkExtends<T>(listing: seq<T>, pos: nat, room: nat)
    requires pos <= |listing|
    ensures listing[..pos] + Chunk(listing, pos, room) == listing[..Min(pos + room, |listing|)]
  {
  }

  /** Whatever the sizes of the reads, together they show each name once and in order, as many
      as there was room for. */
  lemma {:induction false} PartialReads<T>(listing: seq<T>, rooms: seq<nat>)
    ensures ReadAll(listing, rooms) == listing[..Min(Room(rooms), |listing|)]
  {
    if rooms == [] {
      assert listing[..0] == [];
    } else {
      var n := |rooms| - 1;
      PartialReads(listing, rooms[..n]);
      var pos := Min(Room(rooms[..n]), |listing|);
      ChunkExtends(listing, pos, rooms[n]);
      assert Min(pos + rooms[n], |listing|) == Min(Room(rooms), |listing|);
    }
  }

  lemma ReadNext(l: seq<string>, rooms: seq<nat>, i: nat)
    requires i < |rooms|
    ensures var done := ReadAll(l, rooms[..i]);
            && ReadAll(l, rooms[..i + 1]) == done + Chunk(l, |done|, rooms[i])
            && |ReadAll(l, rooms[..i + 1])| <= |l| && ReadAll(l, rooms[..i + 1]) <= l
            && done <= l
  {
    assert rooms[..i + 1][..i] == rooms[..i];
    PartialReads(l, rooms[..i + 1]);
    PartialReads(l, rooms[..i]);
  }

  lemma DotsBegin(d: Directory, done: seq<string>, room: nat)
    requires done <= Listing(d)
    ensures done + Chunk(DOTS, |done|, room) <= Listing(d)
  {
    var l := Listing(d);
    assert l[..2] == DOTS;
    if |done| < 2 {
      ChunkOfDots(l, |done|, room);
    }
  }

  /** One read where the last one stopped. */
  method ReadOn(d: Directory, done: seq<string>, room: nat, memory: bool) returns (names: seq<string>, ok: bool)
    requires done <= Listing(d)
    ensures ok ==> names == done + Chunk(Listing(d), |done|, room)
    ensures !ok ==> !memory && names <= Listing(d)
  {
    var more, pos;
    more, pos, ok := Iterate(d, |done|, room, memory);
    DotsBegin(d, done, room);
    names := done + more;
  }

  /** A reader of a directory that does not change: one read after the other, each from where the
      last one stopped, until one fails. */
  method ReadDirectory(d: Directory, rooms: seq<nat>, memory: bool) returns (names: seq<string>, ok: bool)
    ensures ok ==> names == ReadAll(Listing(d), rooms)
    ensures !ok ==> !memory && names <= Listing(d)
  {
    names, ok := [], true;
    var i := 0;
    ghost var l := Listing(d);
    while i < |rooms|
      invariant i <= |rooms| && names == ReadAll(l, rooms[..i]) && names <= l && ok
    {
      ReadNext(l, rooms, i);
      names, ok := ReadOn(d, names, rooms[i], memory);
      if !ok {
        return;
      }
      i := i + 1;
    }
    assert rooms[..|rooms|] == rooms;
  }

  /** The names of a listing are all different, so no instance is shown twice. */
  lemma ListingDistinct(d: Directory, i: nat, j: nat)
    requires WellFormed(d) && 2 <= i < j < |Listing(d)|
    ensures Listing(d)[i] != Listing(d)[j]
  {
    NamesDiffer(d, i - 2, j - 2);
  }

  /** Reading a directory of at most 4096 instances to its end, in whatever pieces, shows every
      instance exactly once, in snapshot order. */
  lemma FullRead(d: Directory, rooms: seq<nat>)
    requires Count(d) <= LISTED_MAX && Room(rooms) >= 2 + Count(d)
    ensures ReadAll(Listing(d), rooms) == [".", ".."] + Names(d, Count(d))
  {
    var l := Listing(d);
    PartialReads(l, rooms);
    assert Min(Room(rooms), |l|) == |l|;
    assert l[..|l|] == l;
  }
}
