/** The log of glue/lkm4ctr_log.c: tagged lines in a ring. */
module Log {
  import opened Options
  import opened LogRing
  import opened Numerals

  const TAG_MAX := 20
  const LINE_MAX := 200
  const NSEC_PER_SEC := 1_000_000_000
  const NSEC_PER_USEC := 1000

  datatype Level = Info | Warn | Err

  datatype Entry = Entry(timestamp: nat, level: Level, tag: string, msg: string)

  /** What fits the fields of struct lkm4ctr_log_entry. */
  predicate FitsFields(e: Entry) {
    e.timestamp < 0x1_0000_0000_0000_0000 && |e.tag| < TAG_MAX && |e.msg| < LINE_MAX
  }

  // ------------------------------------------------------------------ one line

  /** %0kllu of a number with at most k digits. */
  function Padded(n: nat, k: nat): (s: string)
    ensures |s| == k
  {
    if k == 0 then "" else Padded(n / 10, k - 1) + [DigitChar(n % 10)]
  }

  function LevelName(level: Level): string {
    match level
    case Warn => "warn"
    case Err => "error"
    case Info => "info"
  }

  /** The conversions and separators of "[%llu.%06llu][%s][%s] %s\n", in order. */
  function Pieces(e: Entry): (r: seq<string>)
    ensures |r| == 11
  {
    ["[", Decimal(e.timestamp / NSEC_PER_SEC), ".", Padded(e.timestamp % NSEC_PER_SEC / NSEC_PER_USEC, 6), "][",
     e.tag, "][", LevelName(e.level), "] ", e.msg, "\n"]
  }

  function Join(pieces: seq<string>): string {
    if pieces == [] then "" else pieces[0] + Join(pieces[1..])
  }

  function Line(e: Entry): string {
    Join(Pieces(e))
  }

  function Total(bounds: seq<nat>): nat {
    if bounds == [] then 0 else bounds[0] + Total(bounds[1..])
  }

  lemma {:induction false} JoinBound(pieces: seq<string>, bounds: seq<nat>)
    requires |pieces| == |bounds| && forall i | 0 <= i < |pieces| :: |pieces[i]| <= bounds[i]
    ensures |Join(pieces)| <= Total(bounds)
    ensures pieces != [] ==> |Join(pieces)| >= |pieces[0]|
  {
    if pieces != [] {
      JoinBound(pieces[1..], bounds[1..]);
    }
  }

  const BOUNDS: seq<nat> := [1, 11, 1, 6, 2, 19, 2, 5, 2, 199, 1]

  lemma BoundsTotal()
    ensures Total(BOUNDS) == 249
  {
    assert BOUNDS[1..][1..][1..][1..] == [2, 19, 2, 5, 2, 199, 1];
    assert Total([2, 19, 2, 5, 2, 199, 1]) == 230 by {
      assert [2, 19, 2, 5, 2, 199, 1][1..][1..][1..][1..] == [2, 199, 1];
    }
  }

  /** A line has at most 249 characters: eleven digits of seconds, six of microseconds, a
      19-character tag, "error", a 199-character message and the punctuation. */
  lemma LineLength(e: Entry)
    requires FitsFields(e)
    ensures 1 <= |Line(e)| <= 249
  {
    assert Power10(11) == 100_000_000_000;
    DecimalLength(e.timestamp / NSEC_PER_SEC, 11);
    JoinBound(Pieces(e), BOUNDS);
    BoundsTotal();
  }

  // ------------------------------------------------------------------ reading a line

  /** What a line says. */
  datatype Reading = Reading(seconds: nat, micros: nat, tag: string, level: Level, msg: string)

  /** What is in front of the first `c` of a string, and what is behind it. */
  function CutAt(s: string, c: char): (r: (string, string))
    ensures c !in r.0
  {
    if s == "" then ("", "")
    else if s[0] == c then ("", s[1..])
    else var r := CutAt(s[1..], c); ([s[0]] + r.0, r.1)
  }

  function Tail(s: string): string {
    if s == "" then "" else s[1..]
  }

  function LevelNamed(s: string): Option<Level> {
    if s == "warn" then Some(Warn) else if s == "error" then Some(Err) else if s == "info" then Some(Info) else None
  }

  /** The form of a line, with its numbers and its level still as they are written. */
  function Template(seconds: string, micros: string, tag: string, level: string, msg: string): string {
    "[" + seconds + "." + micros + "][" + tag + "][" + level + "] " + msg + "\n"
  }

  /** A reader for lines: it cuts at the first full stop and the next three closing brackets. */
  function ReadLine(s: string): Option<Reading> {
    var seconds := CutAt(Tail(s), '.');
    var micros := CutAt(seconds.1, ']');
    var tag := CutAt(Tail(micros.1), ']');
    var level := CutAt(Tail(tag.1), ']');
    var rest := Tail(level.1);
    var msg := if rest == "" then "" else rest[..|rest| - 1];
    if AllDigits(seconds.0) && AllDigits(micros.0) && |micros.0| == 6 && LevelNamed(level.0).Some?
       && s == Template(seconds.0, micros.0, tag.0, level.0, msg)
    then Some(Reading(Value(seconds.0), Value(micros.0), tag.0, LevelNamed(level.0).value, msg))
    else None
  }

  lemma {:induction false} CutsAt(x: string, c: char, y: string)
    requires c !in x
    ensures CutAt(x + [c] + y, c) == (x, y)
  {
    var s := x + [c] + y;
    if x == "" {
      assert s[1..] == y;
    } else {
      CutsAt(x[1..], c, y);
      assert s[0] == x[0] && s[1..] == x[1..] + [c] + y;
      assert [x[0]] + x[1..] == x;
    }
  }

  lemma {:induction false} PaddedDigits(n: nat, k: nat)
    requires n < Power10(k)
    ensures AllDigits(Padded(n, k)) && Value(Padded(n, k)) == n
  {
    if k > 0 {
      PaddedDigits(n / 10, k - 1);
      assert Padded(n, k)[..k - 1] == Padded(n / 10, k - 1);
    }
  }

  function Seconds(e: Entry): string {
    Decimal(e.timestamp / NSEC_PER_SEC)
  }

  function Micros(e: Entry): string {
    Padded(e.timestamp % NSEC_PER_SEC / NSEC_PER_USEC, 6)
  }

  lemma Regroup(a: string, b: string, c: string, d: string, rest: string)
    ensures a + (b + (c + (d + rest))) == a + b + c + d + rest
  {
    assert c + (d + rest) == c + d + rest;
    assert b + (c + d + rest) == b + c + d + rest;
  }

  lemma JoinFour(p: seq<string>)
    requires |p| >= 4
    ensures Join(p) == p[0] + p[1] + p[2] + p[3] + Join(p[4..])
  {
    JoinFirst(p);
    JoinFirst(p[1..]);
    JoinFirst(p[2..]);
    JoinFirst(p[3..]);
    hide Join;
    assert p[1..][1..] == p[2..] && p[2..][1..] == p[3..] && p[3..][1..] == p[4..];
    Regroup(p[0], p[1], p[2], p[3], Join(p[4..]));
  }

  /** The pieces of a line make up its template. */
  lemma LineIsTemplate(e: Entry)
    ensures Line(e) == Template(Seconds(e), Micros(e), e.tag, LevelName(e.level), e.msg)
  {
    hide Join, LevelName, Padded, Decimal;
    var p := Pieces(e);
    JoinFour(p);
    JoinFour(p[4..]);
    assert p[4..][4..] == ["] ", e.msg, "\n"];
    JoinThree("] ", e.msg, "\n");
  }

  lemma JoinThree(a: string, b: string, c: string)
    ensures Join([a, b, c]) == a + b + c
  {
    var p := [a, b, c];
    JoinFirst(p);
    JoinFirst([b, c]);
    JoinFirst([c]);
    assert p[1..] == [b, c] && [b, c][1..] == [c] && [c][1..] == [];
    assert a + (b + c) == a + b + c;
  }

  lemma JoinFirst(pieces: seq<string>)
    requires pieces != []
    ensures Join(pieces) == pieces[0] + Join(pieces[1..])
  {
  }

  lemma TailOf(c: char, s: string)
    ensures Tail([c] + s) == s
  {
  }

  /** What the reader sees of a template, from the level on, from the tag on, and from the start. */
  function FromLevel(level: string, msg: string): string {
    ['['] + (level + [']'] + ([' '] + (msg + "\n")))
  }

  function FromTag(tag: string, level: string, msg: string): string {
    ['['] + (tag + [']'] + FromLevel(level, msg))
  }

  lemma TemplateIs(seconds: string, micros: string, tag: string, level: string, msg: string)
    ensures Template(seconds, micros, tag, level, msg)
         == ['['] + (seconds + ['.'] + (micros + [']'] + FromTag(tag, level, msg)))
  {
    assert "][" + tag == [']'] + (['['] + tag);
    assert "][" + level == [']'] + (['['] + level);
    assert "] " + msg == [']'] + ([' '] + msg);
  }

  /** The reader takes a template apart. */
  lemma TemplateReads(seconds: string, micros: string, tag: string, level: string, msg: string)
    requires AllDigits(seconds) && AllDigits(micros) && |micros| == 6 && LevelNamed(level).Some? && ']' !in tag
    ensures ReadLine(Template(seconds, micros, tag, level, msg))
         == Some(Reading(Value(seconds), Value(micros), tag, LevelNamed(level).value, msg))
  {
    hide Template, Value, CutAt, Tail;
    TemplateIs(seconds, micros, tag, level, msg);
    TailOf('[', seconds + ['.'] + (micros + [']'] + FromTag(tag, level, msg)));
    CutsAt(seconds, '.', micros + [']'] + FromTag(tag, level, msg));
    CutsAt(micros, ']', FromTag(tag, level, msg));
    TailOf('[', tag + [']'] + FromLevel(level, msg));
    CutsAt(tag, ']', FromLevel(level, msg));
    TailOf('[', level + [']'] + ([' '] + (msg + "\n")));
    CutsAt(level, ']', [' '] + (msg + "\n"));
    TailOf(' ', msg + "\n");
    assert (msg + "\n")[..|msg|] == msg;
  }

  lemma ReadTag(s: string)
    ensures ReadLine(s).Some? ==> ']' !in ReadLine(s).value.tag
  {
  }

  /** A line can be read back.  The reader recovers the seconds, the microseconds, the tag, the
      level and the message of an entry if and only if the tag has no closing bracket. */
  lemma LineReads(e: Entry)
    ensures ReadLine(Line(e))
         == Some(Reading(e.timestamp / 1_000_000_000, e.timestamp % 1_000_000_000 / 1000, e.tag, e.level, e.msg))
       <==> ']' !in e.tag
  {
    LineIsTemplate(e);
    ReadTag(Line(e));
    hide ReadLine, Line, Template;
    if ']' !in e.tag {
      DecimalDigits(e.timestamp / NSEC_PER_SEC);
      assert Power10(6) == 1_000_000;
      PaddedDigits(e.timestamp % NSEC_PER_SEC / NSEC_PER_USEC, 6);
      TemplateReads(Seconds(e), Micros(e), e.tag, LevelName(e.level), e.msg);
    }
  }

  /** With one, two entries may be printed alike. */
  lemma BracketIsAmbiguous(timestamp: nat)
    ensures Line(Entry(timestamp, Info, "x", "y][info] z")) == Line(Entry(timestamp, Info, "x][info] y", "z"))
  {
    LineIsTemplate(Entry(timestamp, Info, "x", "y][info] z"));
    LineIsTemplate(Entry(timestamp, Info, "x][info] y", "z"));
  }

  predicate Matches(e: Entry, tag: Option<string>) {
    tag.Some? ==> e.tag == tag.value
  }

  function Cut(s: string, size: nat): (r: string)
    requires size > 0
    ensures r <= s && |r| == Min(|s|, size - 1)
  {
    if |s| < size then s else s[..size - 1]
  }

  /** The entry lkm4ctr_log() makes of its arguments. */
  function Made(timestamp: nat, level: Level, tag: Option<string>, msg: string): Entry {
    Entry(timestamp, level, Cut(if tag.Some? then tag.value else "lkm4ctr", TAG_MAX), Cut(msg, LINE_MAX))
  }

  /** What was logged is what is read: the time in seconds and microseconds, the level, and of tag
      and message as much as their fields hold. */
  lemma LoggedIsRead(timestamp: nat, level: Level, tag: Option<string>, msg: string)
    requires tag.Some? ==> ']' !in tag.value
    ensures ReadLine(Line(Made(timestamp, level, tag, msg)))
         == Some(Reading(timestamp / 1_000_000_000, timestamp % 1_000_000_000 / 1000,
                         if tag.None? then "lkm4ctr" else tag.value[..Min(|tag.value|, 19)], level,
                         msg[..Min(|msg|, 199)]))
  {
    hide ReadLine, Line;
    var e := Made(timestamp, level, tag, msg);
    CutIs(msg, LINE_MAX);
    CutIs(if tag.Some? then tag.value else "lkm4ctr", TAG_MAX);
    LineReads(e);
  }

  lemma CutIs(s: string, size: nat)
    requires size > 0
    ensures Cut(s, size) == s[..Min(|s|, size - 1)]
  {
  }

  lemma MadeFits(timestamp: nat, level: Level, tag: Option<string>, msg: string)
    requires timestamp < 0x1_0000_0000_0000_0000
    ensures FitsFields(Made(timestamp, level, tag, msg))
  {
  }

  /** The filter of a NULL tag accepts every entry. */
  function Wanted(tag: Option<string>): Entry -> bool {
    (e: Entry) => Matches(e, tag)
  }

  /** A filtered log has exactly the entries with that tag; without a tag it is the whole log. */
  lemma {:induction false} FilterMeans(es: seq<Entry>, tag: Option<string>, e: Entry)
    ensures e in Matching(es, Wanted(tag)) <==> e in es && (tag.None? || e.tag == tag.value)
    ensures tag.None? ==> Matching(es, Wanted(tag)) == es
  {
    if es != [] {
      FilterMeans(es[..|es| - 1], tag, e);
      assert es == es[..|es| - 1] + [es[|es| - 1]];
    }
  }

  // ------------------------------------------------------------------ the log

  predicate AllFit(es: seq<Entry>) {
    forall i | 0 <= i < |es| :: FitsFields(es[i])
  }

  lemma {:induction false} MatchingFit(es: seq<Entry>, wanted: Entry -> bool)
    requires AllFit(es)
    ensures AllFit(Matching(es, wanted))
  {
    if es != [] { MatchingFit(es[..|es| - 1], wanted); }
  }

  lemma {:induction false} TextBound(es: seq<Entry>)
    requires AllFit(es)
    ensures |Text(es, Line)| <= 249 * |es|
  {
    if es != [] {
      LineLength(es[|es| - 1]);
      TextBound(es[..|es| - 1]);
    }
  }

  /** The whole log, however filtered, is shorter than 128 KiB. */
  lemma WholeLogFits(es: seq<Entry>, tag: Option<string>)
    requires |es| <= CAPACITY && AllFit(es)
    ensures |Text(Matching(es, Wanted(tag)), Line)| <= 127488 < 131072
  {
    MatchingFit(es, Wanted(tag));
    TextBound(Matching(es, Wanted(tag)));
  }

  /** The log: every entry ever written fits its fields. */
  ghost predicate Usable(r: Ring<Entry>)
    reads r, r.ring
  {
    r.Valid() && AllFit(r.history)
  }

  /** The matching entries among the newest 512 ever written, oldest first. */
  ghost function Shown(r: Ring<Entry>, tag: Option<string>): seq<Entry>
    reads r
  {
    Matching(Newest(r.history, CAPACITY), Wanted(tag))
  }

  /** lkm4ctr_log(). */
  method Write(r: Ring<Entry>, timestamp: nat, level: Level, tag: Option<string>, msg: string)
    requires Usable(r) && timestamp < 0x1_0000_0000_0000_0000
    modifies r, r.ring
    ensures Usable(r) && r.history == old(r.history) + [Made(timestamp, level, tag, msg)]
  {
    MadeFits(timestamp, level, tag, msg);
    r.Append(Made(timestamp, level, tag, msg));
  }

  /** lkm4ctr_log_snprintf(). */
  method Snprintf(r: Ring<Entry>, tag: Option<string>, buf: array<char>, buflen: nat) returns (total: nat, ghost keep: nat)
    requires Usable(r) && buflen <= buf.Length
    modifies buf
    ensures Usable(r)
    ensures total == |Text(Shown(r, tag), Line)| <= 127488
    ensures LongestFit(Shown(r, tag), keep, buflen, Line)
    ensures Prints(Newest(Shown(r, tag), keep), buf, Line)
  {
    r.HoldsNewest();
    total, keep := r.Snprintf(Wanted(tag), buf, buflen, Line);
    WholeLogFits(Newest(r.history, CAPACITY), tag);
  }
}
