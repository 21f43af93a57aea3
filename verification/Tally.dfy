/** Weighted counts over sequences.

    The protocol models keep every thread that ever ran in a sequence and express a
    kernel counter as the sum of a weight over that sequence.  A step that moves one
    thread from one phase to another then changes the sum by the difference of the
    two weights. */
module Tally {

  function Sum<T>(s: seq<T>, w: T -> nat): nat {
    if s == [] then 0 else Sum(s[..|s| - 1], w) + w(s[|s| - 1])
  }

  lemma {:induction false} SumUpdate<T>(s: seq<T>, i: nat, x: T, w: T -> nat)
    requires i < |s|
    ensures Sum(s[i := x], w) + w(s[i]) == Sum(s, w) + w(x)
  {
    var n := |s| - 1;
    if i == n {
      assert s[i := x][..n] == s[..n];
    } else {
      assert s[i := x][..n] == s[..n][i := x];
      SumUpdate(s[..n], i, x, w);
    }
  }

  lemma SumAppend<T>(s: seq<T>, x: T, w: T -> nat)
    ensures Sum(s + [x], w) == Sum(s, w) + w(x)
  {
    assert (s + [x])[..|s|] == s;
  }

  lemma {:induction false} SumMember<T>(s: seq<T>, i: nat, w: T -> nat)
    requires i < |s|
    ensures w(s[i]) <= Sum(s, w)
  {
    if i < |s| - 1 {
      SumMember(s[..|s| - 1], i, w);
    }
  }

  lemma {:induction false} SumMembers<T>(s: seq<T>, w: T -> nat)
    ensures forall i | 0 <= i < |s| :: w(s[i]) <= Sum(s, w)
  {
    forall i | 0 <= i < |s| ensures w(s[i]) <= Sum(s, w) {
      SumMember(s, i, w);
    }
  }

  lemma {:induction false} SumMonotone<T>(s: seq<T>, v: T -> nat, w: T -> nat)
    requires forall i | 0 <= i < |s| :: v(s[i]) <= w(s[i])
    ensures Sum(s, v) <= Sum(s, w)
  {
    if s != [] {
      var n := |s| - 1;
      assert forall i | 0 <= i < n :: s[..n][i] == s[i];
      SumMonotone(s[..n], v, w);
    }
  }

  lemma SumSame<T>(s: seq<T>, v: T -> nat, w: T -> nat)
    requires forall i | 0 <= i < |s| :: v(s[i]) == w(s[i])
    ensures Sum(s, v) == Sum(s, w)
  {
    SumMonotone(s, v, w);
    SumMonotone(s, w, v);
  }

  lemma {:induction false} SumZero<T>(s: seq<T>, w: T -> nat)
    requires forall i | 0 <= i < |s| :: w(s[i]) == 0
    ensures Sum(s, w) == 0
  {
    if s != [] {
      var n := |s| - 1;
      assert forall i | 0 <= i < n :: s[..n][i] == s[i];
      SumZero(s[..n], w);
    }
  }

  /** Two distinct members count separately. */
  lemma {:induction false} SumPair<T>(s: seq<T>, i: nat, j: nat, w: T -> nat)
    requires i < j < |s|
    ensures w(s[i]) + w(s[j]) <= Sum(s, w)
  {
    var n := |s| - 1;
    if j == n {
      assert s[..n][i] == s[i];
      SumMember(s[..n], i, w);
    } else {
      assert s[..n][i] == s[i] && s[..n][j] == s[j];
      SumPair(s[..n], i, j, w);
    }
  }

  lemma {:induction false} SumPlus<T>(s: seq<T>, u: T -> nat, v: T -> nat, w: T -> nat)
    requires forall i | 0 <= i < |s| :: u(s[i]) + v(s[i]) == w(s[i])
    ensures Sum(s, u) + Sum(s, v) == Sum(s, w)
  {
    if s != [] {
      var n := |s| - 1;
      assert forall i | 0 <= i < n :: s[..n][i] == s[i];
      SumPlus(s[..n], u, v, w);
    }
  }

  lemma {:induction false} SumRemove<T>(s: seq<T>, i: nat, w: T -> nat)
    requires i < |s|
    ensures Sum(s[..i] + s[i + 1..], w) + w(s[i]) == Sum(s, w)
  {
    var n := |s| - 1;
    if i == n {
      assert s[..i] + s[i + 1..] == s[..n];
    } else {
      assert (s[..i] + s[i + 1..])[..n - 1] == s[..n][..i] + s[..n][i + 1..];
      SumRemove(s[..n], i, w);
    }
  }
}
