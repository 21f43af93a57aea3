/** The ring of glue/lkm4ctr_log.c, for entries of any type `T`: the most recent entries, and a
    renderer that keeps the newest lines that fit.  `line` formats an entry and `wanted` says
    which entries match. */
module LogRing {
  const CAPACITY := 512

  // ------------------------------------------------------------------ many lines

  function Text<T>(es: seq<T>, line: T -> string): string {
    if es == [] then "" else Text(es[..|es| - 1], line) + line(es[|es| - 1])
  }

  function Matching<T>(es: seq<T>, wanted: T -> bool): (r: seq<T>)
    ensures |r| <= |es|
  {
    if es == [] then []
    else
      var e := es[|es| - 1];
      Matching(es[..|es| - 1], wanted) + if wanted(e) then [e] else []
  }

  lemma Associative(x: string, y: string, z: string)
    ensures x + y + z == x + (y + z)
  {
  }

  lemma {:induction false} TextConcat<T>(a: seq<T>, b: seq<T>, line: T -> string)
    ensures Text(a + b, line) == Text(a, line) + Text(b, line)
  {
    if b == [] {
      assert a + b == a;
      assert Text(a, line) + "" == Text(a, line);
    } else {
      var n := |b| - 1;
      TextConcat(a, b[..n], line);
      assert (a + b)[..|a + b| - 1] == a + b[..n] && (a + b)[|a + b| - 1] == b[n];
      Associative(Text(a, line), Text(b[..n], line), line(b[n]));
    }
  }

  lemma {:induction false} MatchingConcat<T>(a: seq<T>, b: seq<T>, wanted: T -> bool)
    ensures Matching(a + b, wanted) == Matching(a, wanted) + Matching(b, wanted)
  {
    if b == [] {
      assert a + b == a;
    } else {
      var n := |b| - 1;
      MatchingConcat(a, b[..n], wanted);
      assert (a + b)[..|a + b| - 1] == a + b[..n] && (a + b)[|a + b| - 1] == b[n];
      var last := if wanted(b[n]) then [b[n]] else [];
      assert Matching(b, wanted) == Matching(b[..n], wanted) + last;
      assert Matching(a + b, wanted) == Matching(a + b[..n], wanted) + last;
    }
  }

  /** The newest `k` of `es`. */
  function Newest<T>(es: seq<T>, k: nat): seq<T> {
    if k <= |es| then es[|es| - k..] else es
  }

  predicate Fits<T>(es: seq<T>, k: nat, size: nat, line: T -> string) {
    k <= |es| && (k > 0 ==> |Text(Newest(es, k), line)| < size)
  }

  /** How many of the newest entries fit: the longest suffix whose text is shorter than `size`. */
  predicate LongestFit<T>(es: seq<T>, k: nat, size: nat, line: T -> string) {
    Fits(es, k, size, line) && forall j | k < j <= |es| :: |Text(Newest(es, j), line)| >= size
  }

  lemma {:induction false} TextGrows<T>(es: seq<T>, j: nat, k: nat, line: T -> string)
    requires j <= k <= |es|
    ensures |Text(Newest(es, j), line)| <= |Text(Newest(es, k), line)|
  {
    var a := es[|es| - k..|es| - j];
    assert Newest(es, k) == a + Newest(es, j);
    TextConcat(a, Newest(es, j), line);
  }

  lemma MatchingTail<T>(c: seq<T>, i: nat, wanted: T -> bool)
    requires i <= |c|
    ensures |Matching(c[i..], wanted)| <= |Matching(c, wanted)|
    ensures Matching(c[i..], wanted) == Newest(Matching(c, wanted), |Matching(c[i..], wanted)|)
  {
    assert c == c[..i] + c[i..];
    MatchingConcat(c[..i], c[i..], wanted);
  }

  lemma MatchingSplit<T>(c: seq<T>, i: nat, wanted: T -> bool)
    requires i < |c|
    ensures Matching(c[i..], wanted) == (if wanted(c[i]) then [c[i]] else []) + Matching(c[i + 1..], wanted)
    ensures |Matching(c[i..], wanted)| <= |Matching(c, wanted)|
    ensures Matching(c[i..], wanted) == Newest(Matching(c, wanted), |Matching(c[i..], wanted)|)
  {
    assert c[i..] == [c[i]] + c[i + 1..];
    MatchingConcat([c[i]], c[i + 1..], wanted);
    assert [c[i]][..0] == [];
    MatchingTail(c, i, wanted);
  }

  lemma TextSnoc<T>(es: seq<T>, e: T, line: T -> string)
    ensures Text(es + [e], line) == Text(es, line) + line(e)
    ensures es + [] == es
  {
    assert (es + [e])[..|es|] == es;
  }

  lemma FitEnds<T>(ms: seq<T>, k: nat, size: nat, line: T -> string)
    requires k < |ms| && |Text(Newest(ms, k + 1), line)| >= size && Fits(ms, k, size, line)
    ensures LongestFit(ms, k, size, line)
  {
    forall j | k < j <= |ms| ensures |Text(Newest(ms, j), line)| >= size {
      TextGrows(ms, k + 1, j, line);
    }
  }

  lemma TextCons<T>(e: T, rest: seq<T>, line: T -> string)
    ensures Text([e] + rest, line) == line(e) + Text(rest, line)
  {
    TextConcat([e], rest, line);
    assert [e][..0] == [];
    assert Text([e], line) == "" + line(e);
  }

  /** One step of pass 1: one more entry at the front of the suffix from place `j` on. */
  lemma FitStep<T>(c: seq<T>, j: nat, wanted: T -> bool, line: T -> string)
    requires 0 < j <= |c|
    ensures var rest := Matching(c[j..], wanted);
            if wanted(c[j - 1])
            then && |Matching(c[j - 1..], wanted)| == |rest| + 1
                 && |Text(Matching(c[j - 1..], wanted), line)| == |line(c[j - 1])| + |Text(rest, line)|
            else Matching(c[j - 1..], wanted) == rest
  {
    MatchingSplit(c, j - 1, wanted);
    TextCons(c[j - 1], Matching(c[j..], wanted), line);
  }

  /** The first line that does not fit ends pass 1. */
  lemma FitStop<T>(c: seq<T>, j: nat, wanted: T -> bool, size: nat, line: T -> string)
    requires 0 < j <= |c| && |Matching(c[j - 1..], wanted)| == |Matching(c[j..], wanted)| + 1
    requires |Text(Matching(c[j - 1..], wanted), line)| >= size
    requires |Matching(c[j..], wanted)| > 0 ==> |Text(Matching(c[j..], wanted), line)| < size
    ensures LongestFit(Matching(c, wanted), |Matching(c[j..], wanted)|, size, line)
  {
    var ms, k := Matching(c, wanted), |Matching(c[j..], wanted)|;
    MatchingTail(c, j - 1, wanted);
    MatchingTail(c, j, wanted);
    assert Newest(ms, k + 1) == Matching(c[j - 1..], wanted);
    assert Fits(ms, k, size, line);
    FitEnds(ms, k, size, line);
  }

  lemma FitAll<T>(ms: seq<T>, size: nat, line: T -> string)
    requires |ms| > 0 ==> |Text(ms, line)| < size
    ensures LongestFit(ms, |ms|, size, line)
  {
    assert Newest(ms, |ms|) == ms;
  }

  /** What pass 3 has rendered after `matched` matches. */
  function Rendered<T>(ms: seq<T>, skip: nat, matched: nat): seq<T>
    requires matched <= |ms|
  {
    if matched <= skip then [] else ms[skip..matched]
  }

  lemma RenderedNext<T>(ms: seq<T>, skip: nat, matched: nat, line: T -> string)
    requires skip <= matched < |ms|
    ensures Text(Rendered(ms, skip, matched + 1), line) == Text(Rendered(ms, skip, matched), line) + line(ms[matched])
  {
    assert Rendered(ms, skip, matched + 1)[..matched - skip] == Rendered(ms, skip, matched);
  }

  lemma RenderedFits<T>(ms: seq<T>, skip: nat, matched: nat, line: T -> string)
    requires skip < matched <= |ms|
    ensures |Text(Rendered(ms, skip, matched), line)| <= |Text(Newest(ms, |ms| - skip), line)|
  {
    assert Newest(ms, |ms| - skip) == ms[skip..matched] + ms[matched..];
    TextConcat(ms[skip..matched], ms[matched..], line);
  }

  lemma RenderStep<T>(ms: seq<T>, skip: nat, matched: nat, keep: nat, size: nat, line: T -> string)
    requires skip <= matched < |ms| && skip + keep == |ms| && Fits(ms, keep, size, line)
    ensures Text(Rendered(ms, skip, matched + 1), line) == Text(Rendered(ms, skip, matched), line) + line(ms[matched])
    ensures |Text(Rendered(ms, skip, matched), line)| + |line(ms[matched])| < size
  {
    RenderedNext(ms, skip, matched, line);
    RenderedFits(ms, skip, matched + 1, line);
  }

  lemma MatchingPrefix<T>(c: seq<T>, i: nat, wanted: T -> bool)
    requires i < |c|
    ensures var m := Matching(c[..i], wanted);
            && Matching(c[..i + 1], wanted) == m + (if wanted(c[i]) then [c[i]] else [])
            && |Matching(c[..i + 1], wanted)| <= |Matching(c, wanted)|
            && Matching(c[..i + 1], wanted) == Matching(c, wanted)[..|Matching(c[..i + 1], wanted)|]
  {
    assert c[..i + 1][..i] == c[..i];
    assert c == c[..i + 1] + c[i + 1..];
    MatchingConcat(c[..i + 1], c[i + 1..], wanted);
  }

  /** Whether the entry at place `i` matches, and where it then stands among the matches. */
  lemma MatchingAt<T>(c: seq<T>, i: nat, wanted: T -> bool)
    requires i < |c|
    ensures var m, ms := |Matching(c[..i], wanted)|, Matching(c, wanted);
            if wanted(c[i]) then m < |ms| && ms[m] == c[i] && |Matching(c[..i + 1], wanted)| == m + 1
            else |Matching(c[..i + 1], wanted)| == m <= |ms|
  {
    MatchingPrefix(c, i, wanted);
    assert wanted(c[i]) ==> Matching(c[..i + 1], wanted)[|Matching(c[..i], wanted)|] == c[i];
  }

  /** Where the entries of a ring are after a write at `head`. */
  lemma IndexMoves(head: nat, count: nat, i: nat)
    requires head < CAPACITY && count <= CAPACITY
    ensures var n := if count < CAPACITY then count + 1 else count;
            var newHead := (head + 1) % CAPACITY;
            i < n ==>
              var k := (newHead + CAPACITY - n + i) % CAPACITY;
              var j := count + 1 - n + i;
              if j == count then k == head else k != head && k == (head + CAPACITY - count + j) % CAPACITY
  {
  }

  // ------------------------------------------------------------------ the ring

  /** Keeping the newest entries one by one keeps the newest of all. */
  lemma {:induction false} NewestOfHistory<T>(es: seq<T>, e: T)
    ensures Newest(Newest(es, CAPACITY) + [e], CAPACITY) == Newest(es + [e], CAPACITY)
  {
  }

  /** What is left of a history of writes if each drops all but the newest 512. */
  function Kept<T>(history: seq<T>): seq<T> {
    if history == [] then []
    else Newest(Kept(history[..|history| - 1]) + [history[|history| - 1]], CAPACITY)
  }

  lemma KeptNext<T>(history: seq<T>, e: T)
    ensures Kept(history + [e]) == Newest(Kept(history) + [e], CAPACITY)
  {
    assert (history + [e])[..|history|] == history;
  }

  /** Whatever was written, in any number of writes, the newest 512 of all of it are left. */
  lemma {:induction false} KeepsNewest<T>(history: seq<T>)
    ensures Kept(history) == Newest(history, 512)
  {
    if history != [] {
      var n := |history| - 1;
      KeepsNewest(history[..n]);
      NewestOfHistory(history[..n], history[n]);
      assert history[..n] + [history[n]] == history;
    }
  }

  method Scnprintf(buf: array<char>, pos: nat, size: nat, s: string) returns (written: nat)
    requires pos + size <= buf.Length
    modifies buf
    ensures written == if size == 0 then 0 else if |s| < size then |s| else size - 1
    ensures buf[..pos] == old(buf[..pos])
    ensures written <= |s| && buf[pos..pos + written] == s[..written]
    ensures size > 0 ==> buf[pos + written] == '\0'
  {
    if size == 0 {
      return 0;
    }
    written := 0;
    while written < |s| && written < size - 1
      invariant written <= |s| && written <= size - 1
      invariant buf[..pos] == old(buf[..pos]) && buf[pos..pos + written] == s[..written]
    {
      buf[pos + written] := s[written];
      written := written + 1;
    }
    buf[pos + written] := '\0';
  }

  /** scnprintf(buf + pos, pos < buflen ? buflen - pos : 0, ...) of a line that fits. */
  method WriteLine(buf: array<char>, pos: nat, buflen: nat, line: string) returns (end: nat)
    requires pos + |line| < buflen <= buf.Length
    modifies buf
    ensures end == pos + |line| && buf[..end] == old(buf[..pos]) + line && buf[end] == '\0'
  {
    var n := Scnprintf(buf, pos, if pos < buflen then buflen - pos else 0, line);
    end := pos + n;
    assert buf[..end] == buf[..pos] + buf[pos..end];
  }

  /** Pass 1 at the entry `e`, the last before place `from` of `c`: passed over if it does not
      match, counted if its line still fits, and the end of the pass otherwise. */
  method FitEntry<T>(ghost c: seq<T>, ghost from: nat, e: T, wanted: T -> bool, buflen: nat, keep: nat, kept: nat,
                     line: T -> string) returns (done: bool, more: nat, size: nat)
    requires 0 < from <= |c| && c[from - 1] == e
    requires keep == |Matching(c[from..], wanted)| && kept == |Text(Matching(c[from..], wanted), line)|
    requires keep > 0 ==> kept < buflen
    ensures if done then more == keep && LongestFit(Matching(c, wanted), keep, buflen, line)
            else && more == |Matching(c[from - 1..], wanted)| && size == |Text(Matching(c[from - 1..], wanted), line)|
                 && (more > 0 ==> size < buflen)
  {
    FitStep(c, from, wanted, line);
    if !wanted(e) {
      return false, keep, kept;
    }
    size := kept + |line(e)|;
    if size >= buflen {
      FitStop(c, from, wanted, buflen, line);
      return true, keep, kept;
    }
    done, more := false, keep + 1;
  }

  /** The buffer holds the matches rendered so far, closed by a NUL if there are any. */
  predicate Written<T>(ms: seq<T>, skip: nat, matched: nat, buf: array<char>, pos: nat, line: T -> string)
    requires matched <= |ms|
    reads buf
  {
    && pos <= buf.Length && buf[..pos] == Text(Rendered(ms, skip, matched), line)
    && (matched > skip ==> pos < buf.Length && buf[pos] == '\0')
  }

  /** Pass 3 has gone through the first `i` entries of `c`, `matched` of which match. */
  ghost predicate Rendering<T>(c: seq<T>, i: nat, wanted: T -> bool, skip: nat, matched: nat, buf: array<char>, pos: nat,
                               buflen: nat, line: T -> string)
    reads buf
  {
    && i <= |c| && matched == |Matching(c[..i], wanted)| <= |Matching(c, wanted)|
    && pos <= buflen && Written(Matching(c, wanted), skip, matched, buf, pos, line)
  }

  /** Pass 3 at the entry `e`, the `i`th of `c`: passed over if it does not match or is one of
      the first `skip` matches, written otherwise. */
  method RenderEntry<T>(ghost c: seq<T>, ghost i: nat, e: T, wanted: T -> bool, skip: nat, matched: nat, ghost keep: nat,
                        buf: array<char>, pos: nat, buflen: nat, line: T -> string) returns (end: nat, next: nat)
    requires i < |c| && c[i] == e && |Matching(c, wanted)| == skip + keep
    requires Fits(Matching(c, wanted), keep, buflen, line) && buflen <= buf.Length
    requires Rendering(c, i, wanted, skip, matched, buf, pos, buflen, line)
    modifies buf
    ensures Rendering(c, i + 1, wanted, skip, next, buf, end, buflen, line)
  {
    MatchingAt(c, i, wanted);
    if !wanted(e) {
      return pos, matched;
    }
    next := matched + 1;
    if matched < skip {
      return pos, next;
    }
    RenderStep(Matching(c, wanted), skip, matched, keep, buflen, line);
    end := WriteLine(buf, pos, buflen, line(e));
  }

  /** The buffer begins with the text of `es`, closed by a NUL if there is any. */
  predicate Prints<T>(es: seq<T>, buf: array<char>, line: T -> string)
    reads buf
  {
    var t := Text(es, line);
    |t| <= buf.Length && buf[..|t|] == t && (es != [] ==> |t| < buf.Length && buf[|t|] == '\0')
  }

  lemma RenderingBegins<T>(c: seq<T>, wanted: T -> bool, skip: nat, buf: array<char>, buflen: nat, line: T -> string)
    ensures Rendering(c, 0, wanted, skip, 0, buf, 0, buflen, line)
  {
  }

  /** All that is kept has been rendered. */
  lemma WrittenPrints<T>(ms: seq<T>, keep: nat, buf: array<char>, end: nat, line: T -> string)
    requires keep <= |ms| && Written(ms, |ms| - keep, |ms|, buf, end, line)
    ensures Prints(Newest(ms, keep), buf, line)
  {
    assert Rendered(ms, |ms| - keep, |ms|) == Newest(ms, keep);
  }

  /** Pass 3 ends when all that is kept has been rendered. */
  lemma RenderingEnds<T>(c: seq<T>, i: nat, wanted: T -> bool, skip: nat, matched: nat, buf: array<char>, pos: nat,
                         buflen: nat, line: T -> string)
    requires Rendering(c, i, wanted, skip, matched, buf, pos, buflen, line)
    requires i == |c| || matched >= |Matching(c, wanted)|
    ensures Written(Matching(c, wanted), skip, |Matching(c, wanted)|, buf, pos, line)
  {
    hide Written, Text, Matching;
    if i == |c| {
      assert c[..i] == c;
    }
  }

  class Ring<T(!new)> {
    const ring: array<T>
    var head: nat                  // the next write lands here
    var count: nat
    ghost var history: seq<T>      // every entry ever written

    predicate InBounds()
      reads this
    {
      ring.Length == CAPACITY && head < CAPACITY && count <= CAPACITY
    }

    /** The ring holds what is left of its history. */
    ghost predicate Valid()
      reads this, ring
    {
      InBounds() && Contents() == Kept(history)
    }

    /** Where the `i`th oldest entry is. */
    function Index(i: nat): (k: nat)
      requires head < CAPACITY && i < count <= CAPACITY
      reads this
      ensures k < CAPACITY
    {
      (head + CAPACITY - count + i) % CAPACITY
    }

    ghost function Contents(): (es: seq<T>)
      requires InBounds()
      reads this, ring
      ensures |es| == count
    {
      seq(count, i requires 0 <= i < count && InBounds() reads this, ring => ring[Index(i)])
    }

    /** The ring holds the entries `c`. */
    ghost predicate Holds(c: seq<T>)
      reads this, ring
    {
      InBounds() && Contents() == c
    }

    /** The `i`th oldest entry. */
    function At(i: nat, ghost c: seq<T>): (e: T)
      requires Holds(c) && i < count
      reads this, ring
      ensures i < |c| == count && e == c[i]
    {
      ring[Index(i)]
    }

    constructor (blank: T)
      ensures Valid() && fresh(ring) && history == []
    {
      ring := new T[CAPACITY](_ => blank);
      head, count := 0, 0;
      history := [];
    }

    /** The write of lkm4ctr_log() and the step of its two counters. */
    method Store(e: T)
      requires InBounds()
      modifies this`head, this`count, ring
      ensures InBounds() && Contents() == Newest(old(Contents()) + [e], CAPACITY)
    {
      ghost var was, oldHead, oldCount := Contents(), head, count;
      ring[head] := e;
      head := (head + 1) % CAPACITY;
      if count < CAPACITY {
        count := count + 1;
      }
      ghost var dropped := oldCount + 1 - count;
      assert Newest(was + [e], CAPACITY) == (was + [e])[dropped..];
      forall i | 0 <= i < count ensures Contents()[i] == (was + [e])[dropped + i] {
        IndexMoves(oldHead, oldCount, i);
      }
    }

    /** One more entry in the log. */
    method Append(e: T)
      requires Valid()
      modifies this, ring
      ensures Valid() && history == old(history) + [e]
    {
      hide Kept, Newest;
      KeptNext(history, e);
      Store(e);
      ghost var left := Contents();
      history := history + [e];
      assert Contents() == left;
    }

    /** Pass 1, newest to oldest: how many of the newest matching entries fit. */
    method CountFitting(wanted: T -> bool, buflen: nat, line: T -> string) returns (keep: nat)
      requires InBounds()
      ensures LongestFit(Matching(Contents(), wanted), keep, buflen, line)
    {
      ghost var c := Contents();
      var kept := 0;
      var i := 0;
      keep := 0;
      ghost var from := count;
      assert c[from..] == [];
      while i < count
        invariant 0 <= i <= count && from == count - i
        invariant keep == |Matching(c[from..], wanted)| && kept == |Text(Matching(c[from..], wanted), line)|
        invariant keep > 0 ==> kept < buflen
      {
        var done;
        done, keep, kept := FitEntry(c, from, At(count - 1 - i, c), wanted, buflen, keep, kept, line);
        if done {
          return;
        }
        from := from - 1;
        i := i + 1;
      }
      assert c[from..] == c;
      FitAll(Matching(c, wanted), buflen, line);
    }

    /** Pass 2, oldest to newest: the size of every matching entry. */
    method CountAll(wanted: T -> bool, line: T -> string) returns (total: nat, matched: nat)
      requires InBounds()
      ensures total == |Text(Matching(Contents(), wanted), line)| && matched == |Matching(Contents(), wanted)|
    {
      ghost var c := Contents();
      total, matched := 0, 0;
      for i := 0 to count
        invariant total == |Text(Matching(c[..i], wanted), line)| && matched == |Matching(c[..i], wanted)|
      {
        var e := At(i, c);
        MatchingPrefix(c, i, wanted);
        TextSnoc(Matching(c[..i], wanted), e, line);
        if wanted(e) {
          total := total + |line(e)|;
          matched := matched + 1;
        }
      }
      assert c[..count] == c;
    }

    /** Pass 3 at the `i`th oldest entry. */
    method RenderAt(ghost c: seq<T>, i: nat, wanted: T -> bool, skip: nat, matched: nat, ghost keep: nat,
                    buf: array<char>, pos: nat, buflen: nat, line: T -> string) returns (end: nat, next: nat)
      requires Holds(c) && i < count && buf as object != ring
      requires |Matching(c, wanted)| == skip + keep && Fits(Matching(c, wanted), keep, buflen, line)
      requires buflen <= buf.Length && Rendering(c, i, wanted, skip, matched, buf, pos, buflen, line)
      modifies buf
      ensures Holds(c) && Rendering(c, i + 1, wanted, skip, next, buf, end, buflen, line)
    {
      end, next := RenderEntry(c, i, At(i, c), wanted, skip, matched, keep, buf, pos, buflen, line);
    }

    /** The loop of pass 3: it ends at the newest entry, or when all that is kept is rendered. */
    method RenderFrom(ghost c: seq<T>, wanted: T -> bool, skip: nat, keep: nat, buf: array<char>, buflen: nat,
                      line: T -> string) returns (i: nat, matched: nat, end: nat)
      requires Holds(c) && buflen <= buf.Length && buf as object != ring && count == |c|
      requires |Matching(c, wanted)| == skip + keep && Fits(Matching(c, wanted), keep, buflen, line)
      requires Rendering(c, 0, wanted, skip, 0, buf, 0, buflen, line)
      modifies buf
      ensures Rendering(c, i, wanted, skip, matched, buf, end, buflen, line) && (i == |c| || matched >= skip + keep)
    {
      hide *;
      i, matched, end := 0, 0, 0;
      while i < count && matched < skip + keep
        invariant i <= count && Holds(c)
        invariant Rendering(c, i, wanted, skip, matched, buf, end, buflen, line)
      {
        end, matched := RenderAt(c, i, wanted, skip, matched, keep, buf, end, buflen, line);
        i := i + 1;
      }
    }

    /** Pass 3: renders the newest `keep` of the `all` entries `ms` that match, oldest first. */
    method RenderKept(ghost c: seq<T>, wanted: T -> bool, buf: array<char>, buflen: nat, keep: nat, all: nat,
                      line: T -> string) returns (end: nat)
      requires Holds(c) && buflen <= buf.Length && buf as object != ring
      requires Fits(Matching(c, wanted), keep, buflen, line) && all == |Matching(c, wanted)|
      modifies buf
      ensures Written(Matching(c, wanted), all - keep, all, buf, end, line)
    {
      var i, matched;
      RenderingBegins(c, wanted, all - keep, buf, buflen, line);
      i, matched, end := RenderFrom(c, wanted, all - keep, keep, buf, buflen, line);
      RenderingEnds(c, i, wanted, all - keep, matched, buf, end, buflen, line);
    }

    /** Whatever was written, the ring holds the newest 512 of it. */
    lemma HoldsNewest()
      requires Valid()
      ensures Contents() == Newest(history, CAPACITY)
    {
      KeepsNewest(history);
    }

    /** lkm4ctr_log_snprintf(): the longest suffix of the matching entries that fits, whole
        lines only, oldest first; the result is the size of all of them. */
    method Snprintf(wanted: T -> bool, buf: array<char>, buflen: nat, line: T -> string)
      returns (total: nat, ghost keep: nat)
      requires InBounds() && buflen <= buf.Length && buf as object != ring
      modifies buf
      ensures Contents() == old(Contents())
      ensures total == |Text(Matching(Contents(), wanted), line)|
      ensures LongestFit(Matching(Contents(), wanted), keep, buflen, line)
      ensures Prints(Newest(Matching(Contents(), wanted), keep), buf, line)
    {
      hide Written, Prints, Text, Matching, Newest;
      var fitting := CountFitting(wanted, buflen, line);
      var needed, matched := CountAll(wanted, line);
      var end := RenderKept(Contents(), wanted, buf, buflen, fitting, matched, line);
      WrittenPrints(Matching(Contents(), wanted), fitting, buf, end, line);
      total, keep := needed, fitting;
    }
  }
}
