/** Rendering a diagnostics file: nested scnprintf() renderers and the grow-and-retry loop of
    glue/lkm4ctr_diagfs.c. */
module ShowLoop {
  import opened Options
  import opened LogRing
  import opened Numerals
  import Log

  const INITIAL_CAP := 4096
  const MAX_CAP := 1048576

  // ------------------------------------------------------------------ renderers

  /** What a renderer prints: one scnprintf(), or the calls of a renderer one after another. */
  datatype Content = Piece(text: string) | Calls(parts: seq<Content>)

  function Flat(c: Content): string
    decreases c
  {
    match c
    case Piece(text) => text
    case Calls(parts) => FlatUpTo(parts, |parts|)
  }

  /** The text of the first `n` calls. */
  function FlatUpTo(parts: seq<Content>, n: nat): string
    requires n <= |parts|
    decreases parts, n
  {
    if n == 0 then "" else FlatUpTo(parts, n - 1) + Flat(parts[n - 1])
  }

  /** The part of a text that fits a buffer of `size` bytes and its closing NUL. */
  function Fitting(s: string, size: nat): string {
    if |s| < size then s else if size == 0 then "" else s[..size - 1]
  }

  /** The empty text before the first call, and one more call. */
  lemma FittingNext(a: string, b: string, size: nat)
    ensures Fitting("", size) == ""
    ensures var fa := Fitting(a, size);
            && |fa| <= size
            && Fitting(a + b, size) == fa + Fitting(b, if |fa| < size then size - |fa| else 0)
  {
  }

  /** A nested renderer: each call gets what is left of the buffer, and the position moves by
      what each reports. */
  method Render(c: Content, buf: array<char>, pos: nat, size: nat) returns (end: nat)
    requires pos + size <= buf.Length
    modifies buf
    ensures end == pos + |Fitting(Flat(c), size)| <= pos + size
    ensures buf[..end] == old(buf[..pos]) + Fitting(Flat(c), size)
    decreases c
  {
    match c
    case Piece(text) =>
      var n := Scnprintf(buf, pos, size, text);
      end := pos + n;
      assert buf[..end] == buf[..pos] + buf[pos..end];
    case Calls(parts) =>
      end := RenderCalls(parts, buf, pos, size);
  }

  method RenderCalls(parts: seq<Content>, buf: array<char>, start: nat, size: nat) returns (pos: nat)
    requires start + size <= buf.Length
    modifies buf
    ensures pos == start + |Fitting(FlatUpTo(parts, |parts|), size)| <= start + size
    ensures buf[..pos] == old(buf[..start]) + Fitting(FlatUpTo(parts, |parts|), size)
    decreases parts
  {
    pos := start;
    for i := 0 to |parts|
      invariant pos == start + |Fitting(FlatUpTo(parts, i), size)| <= start + size
      invariant buf[..pos] == old(buf[..start]) + Fitting(FlatUpTo(parts, i), size)
    {
      FittingNext(FlatUpTo(parts, i), Flat(parts[i]), size);
      pos := Render(parts[i], buf, pos, if pos < start + size then start + size - pos else 0);
    }
  }

  // ------------------------------------------------------------------ the loop

  /** The buffer size of attempt `k`. */
  function Cap(k: nat): (cap: nat)
    ensures INITIAL_CAP <= cap <= MAX_CAP
  {
    if k == 0 then INITIAL_CAP else Min(2 * Cap(k - 1), MAX_CAP)
  }

  lemma CapReachesMax()
    ensures Cap(5) == 131072 && Cap(8) == MAX_CAP
  {
    assert Cap(1) == 8192 && Cap(2) == 16384 && Cap(3) == 32768 && Cap(4) == 65536;
    assert Cap(6) == 262144 && Cap(7) == 524288;
  }

  /** The last attempt is as good as one with the largest buffer; any other did not fit. */
  lemma AttemptEnds(t: string, cap: nat)
    requires 0 < cap <= MAX_CAP
    ensures |Fitting(t, cap)| + 1 < cap || cap == MAX_CAP ==> Fitting(t, cap) == Fitting(t, MAX_CAP)
    ensures |Fitting(t, cap)| + 1 >= cap ==> |t| + 1 >= cap
  {
  }

  lemma CapBelowMax(k: nat)
    requires k <= 8 && Cap(k) < MAX_CAP
    ensures k < 8 && Cap(k + 1) == Min(2 * Cap(k), MAX_CAP)
  {
    CapReachesMax();
  }

  /** One attempt: a buffer, the rendering into it, and the bytes of it that would be written. */
  method Attempt(c: Content, cap: nat) returns (need: nat, text: string)
    requires cap > 0
    ensures text == Fitting(Flat(c), cap) && need == |text| < cap
  {
    var buf := new char[cap];
    need := Render(c, buf, 0, cap);
    text := buf[..if need < cap then need else cap - 1];
  }

  /** The rendering of attempt `k` does not fit its buffer. */
  predicate TooLong(c: Content, k: nat) {
    |Flat(c)| + 1 >= Cap(k)
  }

  /** The first `n` attempts had a buffer, and their renderings did not fit. */
  predicate GivenUp(source: seq<Content>, memory: seq<bool>, n: nat) {
    n <= |source| && n <= |memory| && forall k | 0 <= k < n :: memory[k] && TooLong(source[k], k)
  }

  lemma GivenUpNext(source: seq<Content>, memory: seq<bool>, n: nat)
    requires GivenUp(source, memory, n) && n < |source| && n < |memory| && memory[n]
    ensures TooLong(source[n], n) ==> GivenUp(source, memory, n + 1)
  {
  }

  /** One round of the loop: it ends with as much of the text as fits the limit, or goes on with
      a larger buffer. */
  method Round(c: Content, cap: nat, ghost k: nat) returns (done: bool, text: string, next: nat)
    requires k <= 8 && cap == Cap(k)
    ensures if done then text == Fitting(Flat(c), MAX_CAP) else k < 8 && next == Cap(k + 1) && TooLong(c, k)
  {
    var need;
    need, text := Attempt(c, cap);
    AttemptEnds(Flat(c), cap);
    if need + 1 < cap || cap >= MAX_CAP {
      return true, text, cap;
    }
    CapBelowMax(k);
    next := cap * 2;
    if next > MAX_CAP {
      next := MAX_CAP;
    }
    done := false;
  }

  /** lkm4ctr_diagfs_show() over a nested renderer.  `source` is what the system prints at each
      attempt, which need not be the same, and `memory` says whether the buffer of an attempt
      could be allocated. */
  method Show(source: seq<Content>, memory: seq<bool>) returns (out: Option<string>, renders: nat)
    requires |source| == |memory| == 9
    ensures renders <= 9
    // what is written is the longest prefix of the last rendering that fits the limit
    ensures out.Some? ==> renders > 0 && out.value == Fitting(Flat(source[renders - 1]), MAX_CAP)
    ensures out.None? ==> renders < 9 && !memory[renders]
    // and a buffer is only given up when its rendering did not fit
    ensures renders > 0 ==> GivenUp(source, memory, renders - 1)
  {
    var cap := INITIAL_CAP;
    renders := 0;
    assert cap == Cap(0);
    hide Cap, TooLong, GivenUp;
    while true
      invariant renders <= 8 && cap == Cap(renders)
      invariant GivenUp(source, memory, renders)
      decreases 8 - renders
    {
      if !memory[renders] {
        return None, renders;
      }
      GivenUpNext(source, memory, renders);
      var done, text, next := Round(source[renders], cap, renders);
      renders := renders + 1;
      if done {
        return Some(text), renders;
      }
      cap := next;
    }
  }

  /** Every line with the given tag, oldest first. */
  ghost function WholeText(r: Ring<Log.Entry>, tag: Option<string>): string
    reads r
  {
    Text(Log.Shown(r, tag), Log.Line)
  }

  /** The log as every attempt finds it. */
  ghost predicate AllUsable(rings: seq<Ring<Log.Entry>>)
    reads set r | r in rings :: r, set r | r in rings :: r.ring
  {
    forall r | r in rings :: Log.Usable(r)
  }

  method AttemptLog(r: Ring<Log.Entry>, tag: Option<string>, cap: nat) returns (need: nat, text: string)
    requires Log.Usable(r) && cap > 0
    ensures Log.Usable(r) && need == |WholeText(r, tag)| <= 127488
    ensures need < cap ==> text == WholeText(r, tag)
  {
    var buf := new char[cap];
    ghost var keep;
    need, keep := Log.Snprintf(r, tag, buf, cap);
    WholeFits(Log.Shown(r, tag), keep, cap);
    text := buf[..if need < cap then need else cap - 1];
  }

  lemma LogNeedsMore(k: nat, need: nat)
    requires k <= 5 && need <= 127488 && need + 1 >= Cap(k)
    ensures k < 5 && Cap(k + 1) == 2 * Cap(k) <= MAX_CAP
  {
    CapReachesMax();
  }

  lemma LogCapBelowMax(k: nat)
    requires k <= 5
    ensures Cap(k) < MAX_CAP
  {
    CapReachesMax();
  }

  /** One round of the loop over the log: it ends with the whole text, or doubles the buffer. */
  method LogRound(rings: seq<Ring<Log.Entry>>, k: nat, tag: Option<string>, cap: nat)
    returns (done: bool, text: string, next: nat)
    requires |rings| == 6 && AllUsable(rings) && k <= 5 && cap == Cap(k)
    ensures AllUsable(rings)
    ensures if done then text == WholeText(rings[k], tag) else k < 5 && next == Cap(k + 1)
  {
    var need;
    need, text := AttemptLog(rings[k], tag, cap);
    LogCapBelowMax(k);
    if need + 1 < cap || cap >= MAX_CAP {
      return true, text, cap;
    }
    LogNeedsMore(k, need);
    next := Min(cap * 2, MAX_CAP);
    done := false;
  }

  /** The same loop over the log, whose renderer reports the size of all matching lines: the
      whole log fits a buffer of 128 KiB, so every matching line is written, and nothing else.
      `rings` is the log as each attempt finds it. */
  method ShowLog(rings: seq<Ring<Log.Entry>>, tag: Option<string>, memory: seq<bool>)
    returns (out: Option<string>, renders: nat)
    requires |rings| == |memory| == 6 && AllUsable(rings)
    ensures renders <= 6 && AllUsable(rings)
    ensures out.Some? ==> renders > 0 && out.value == WholeText(rings[renders - 1], tag)
    ensures out.None? ==> renders < 6 && !memory[renders]
  {
    var cap := INITIAL_CAP;
    renders := 0;
    while true
      invariant renders <= 5 && cap == Cap(renders)
      invariant AllUsable(rings)
      decreases 5 - renders
    {
      if !memory[renders] {
        return None, renders;
      }
      var done, text, next := LogRound(rings, renders, tag, cap);
      renders := renders + 1;
      if done {
        return Some(text), renders;
      }
      cap := next;
    }
  }

  lemma WholeFits(ms: seq<Log.Entry>, keep: nat, cap: nat)
    requires LongestFit(ms, keep, cap, Log.Line)
    ensures |Text(ms, Log.Line)| < cap ==> Newest(ms, keep) == ms
  {
    assert Newest(ms, |ms|) == ms;
  }
}
