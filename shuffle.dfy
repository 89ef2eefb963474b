/**
 * The Fisher-Yates shuffle, driven by explicit draws.
 *
 * The source shuffles in place with `for (i = n - 1; i > 0; i--)`,
 * exchanging position i with a position j drawn by
 * `Math.floor(Math.random() * (i + 1))`. Here the draws are a parameter:
 * `swaps[k]` is the j drawn at step k, when i = n - 1 - k.
 */
module FisherYates {

  /**
   * A prefix of the draws of one shuffle: the k-th draw is made when the
   * loop index is n - 1 - k and lies in 0 .. n - 1 - k.
   */
  predicate ValidSwaps(swaps: seq<nat>, n: nat) {
    |swaps| < n && forall k :: 0 <= k < |swaps| ==> swaps[k] <= n - 1 - k
  }

  /** Exchanges the elements at i and j (a no-op when i == j). */
  function Swap<T>(s: seq<T>, i: nat, j: nat): (r: seq<T>)
    requires i < |s| && j < |s|
    ensures |r| == |s| && r[i] == s[j] && r[j] == s[i]
    ensures forall k :: 0 <= k < |s| && k != i && k != j ==> r[k] == s[k]
  {
    s[i := s[j]][j := s[i]]
  }

  /**
   * The Fisher-Yates shuffle of s after the steps that use the draws in
   * swaps: step k exchanges position n - 1 - k with position swaps[k].
   */
  function Shuffle<T>(s: seq<T>, swaps: seq<nat>): (r: seq<T>)
    requires ValidSwaps(swaps, |s|)
    ensures |r| == |s|
    decreases |swaps|
  {
    if swaps == [] then s
    else
      var n := |swaps| - 1;
      Swap(Shuffle(s, swaps[..n]), |s| - 1 - n, swaps[n])
  }

  /** One more draw performs one more exchange, at the next position down. */
  lemma {:induction false} ShuffleSnoc<T>(s: seq<T>, swaps: seq<nat>, j: nat)
    requires ValidSwaps(swaps + [j], |s|)
    ensures ValidSwaps(swaps, |s|) && j <= |s| - 1 - |swaps|
    ensures Shuffle(s, swaps + [j]) == Swap(Shuffle(s, swaps), |s| - 1 - |swaps|, j)
  {
    var longer := swaps + [j];
    forall k | 0 <= k < |swaps| ensures swaps[k] <= |s| - 1 - k {
      assert longer[k] == swaps[k];
    }
    assert longer[|swaps|] == j;
    assert longer[..|swaps|] == swaps;
    assert Shuffle(s, longer) == Swap(Shuffle(s, longer[..|swaps|]), |s| - 1 - |swaps|, longer[|swaps|]);
  }

  /** The steps of a shuffle, one prefix of the draws at a time. */
  lemma {:induction false} ShufflePrefixStep<T>(s: seq<T>, swaps: seq<nat>, n: nat)
    requires ValidSwaps(swaps, |s|) && n < |swaps|
    ensures ValidSwaps(swaps[..n], |s|) && ValidSwaps(swaps[..n + 1], |s|)
    ensures Shuffle(s, swaps[..n + 1]) == Swap(Shuffle(s, swaps[..n]), |s| - 1 - n, swaps[n])
  {
    PrefixValid(swaps, |s|, n);
    PrefixValid(swaps, |s|, n + 1);
    var longer := swaps[..n + 1];
    ShuffleUnfold(s, longer);
    assert |longer| - 1 == n;
    assert longer[..n] == swaps[..n];
    assert longer[n] == swaps[n];
  }

  /**
   * Step n of the loop as the loop body performs it: the element at
   * i = |s| - 1 - n and the element at the drawn index trade places.
   */
  lemma {:induction false} ShuffleStepUpdate<T>(s: seq<T>, swaps: seq<nat>, n: nat)
    requires ValidSwaps(swaps, |s|) && n < |swaps|
    ensures ValidSwaps(swaps[..n], |s|) && ValidSwaps(swaps[..n + 1], |s|) && swaps[n] < |s|
    ensures var x, i := Shuffle(s, swaps[..n]), |s| - 1 - n;
      Shuffle(s, swaps[..n + 1]) == x[i := x[swaps[n]]][swaps[n] := x[i]]
  {
    ShufflePrefixStep(s, swaps, n);
  }

  /** The last draw is the last exchange. */
  lemma {:induction false} ShuffleUnfold<T>(s: seq<T>, swaps: seq<nat>)
    requires ValidSwaps(swaps, |s|) && swaps != []
    ensures ValidSwaps(swaps[..|swaps| - 1], |s|)
    ensures Shuffle(s, swaps) == Swap(Shuffle(s, swaps[..|swaps| - 1]), |s| - |swaps|, swaps[|swaps| - 1])
  {
    PrefixValid(swaps, |s|, |swaps| - 1);
  }

  /** The draws that exchange every position with itself. */
  function NoSwaps(n: nat): (swaps: seq<nat>)
    requires n >= 1
    ensures ValidSwaps(swaps, n) && |swaps| == n - 1
  {
    seq(n - 1, k requires 0 <= k < n - 1 => n - 1 - k)
  }

  /** Drawing j == i at every step leaves the sequence as it was. */
  lemma {:induction false} ShuffleWithoutSwapsIsIdentity<T>(s: seq<T>, swaps: seq<nat>)
    requires ValidSwaps(swaps, |s|)
    requires forall k :: 0 <= k < |swaps| ==> swaps[k] == |s| - 1 - k
    ensures Shuffle(s, swaps) == s
    decreases |swaps|
  {
    if swaps != [] {
      ShuffleWithoutSwapsIsIdentity(s, swaps[..|swaps| - 1]);
    }
  }

  /** An exchange keeps the elements, counted with multiplicity. */
  lemma SwapPermutes<T>(s: seq<T>, i: nat, j: nat)
    requires i < |s| && j < |s|
    ensures multiset(Swap(s, i, j)) == multiset(s)
  {
  }

  /** The shuffle only rearranges: it keeps the multiset of elements. */
  lemma {:induction false} ShufflePermutes<T>(s: seq<T>, swaps: seq<nat>)
    requires ValidSwaps(swaps, |s|)
    ensures multiset(Shuffle(s, swaps)) == multiset(s)
    decreases |swaps|
  {
    if swaps != [] {
      var n := |swaps| - 1;
      ShufflePermutes(s, swaps[..n]);
      SwapPermutes(Shuffle(s, swaps[..n]), |s| - 1 - n, swaps[n]);
    }
  }

  /** The shuffle draws a digit for position i from the first i + 1 positions only. */
  lemma {:induction false} SwapKeepsPrefix<T>(s: seq<T>, i: nat, j: nat)
    requires j <= i < |s|
    ensures multiset(Swap(s, i, j)[..i + 1]) == multiset(s[..i + 1])
    ensures Swap(s, i, j)[i + 1..] == s[i + 1..]
  {
    var r := Swap(s, i, j);
    assert r[..i + 1] == Swap(s[..i + 1], i, j);
    SwapPermutes(s[..i + 1], i, j);
  }

  /** Fixing position i of y to t[i] moves the boundary between the open prefix and the fixed suffix down by one. */
  lemma {:induction false} FixPosition<T>(y: seq<T>, t: seq<T>, i: nat)
    requires i < |y| == |t| && y[i] == t[i]
    requires multiset(y[..i + 1]) == multiset(t[..i + 1]) && y[i + 1..] == t[i + 1..]
    ensures multiset(y[..i]) == multiset(t[..i]) && y[i..] == t[i..]
  {
    assert y[..i + 1] == y[..i] + [y[i]];
    assert t[..i + 1] == t[..i] + [t[i]];
    assert multiset(y[..i]) == multiset(y[..i + 1]) - multiset{y[i]};
    assert multiset(t[..i]) == multiset(t[..i + 1]) - multiset{t[i]};
    assert y[i..] == [y[i]] + y[i + 1..];
    assert t[i..] == [t[i]] + t[i + 1..];
  }

  /**
   * One step of the reachability argument: positions above i already hold
   * t's elements and positions 0 .. i hold the rest of them; drawing the
   * index of t[i] fixes position i too.
   */
  lemma {:induction false} ReachStep<T>(s: seq<T>, t: seq<T>, sw: seq<nat>, i: nat) returns (j: nat)
    requires 0 < i < |s| == |t| && |sw| == |s| - 1 - i && ValidSwaps(sw, |s|)
    requires multiset(Shuffle(s, sw)[..i + 1]) == multiset(t[..i + 1])
    requires Shuffle(s, sw)[i + 1..] == t[i + 1..]
    ensures ValidSwaps(sw + [j], |s|)
    ensures multiset(Shuffle(s, sw + [j])[..i]) == multiset(t[..i])
    ensures Shuffle(s, sw + [j])[i..] == t[i..]
  {
    var x := Shuffle(s, sw);
    assert t[i] in multiset(x[..i + 1]) by { assert t[..i + 1][i] == t[i]; }
    j :| 0 <= j <= i && x[j] == t[i] by { assert t[i] in x[..i + 1]; }
    assert ValidSwaps(sw + [j], |s|) by {
      forall k | 0 <= k < |sw| + 1 ensures (sw + [j])[k] <= |s| - 1 - k {
        if k < |sw| { assert (sw + [j])[k] == sw[k]; }
      }
    }
    ShuffleSnoc(s, sw, j);
    SwapKeepsPrefix(x, i, j);
    FixPosition(Swap(x, i, j), t, i);
  }

  /**
   * Every arrangement of the ten digits (indeed of any sequence) comes out
   * of the shuffle for some choice of draws. With DrawsDetermineShuffle,
   * each arrangement of distinct elements comes from exactly one draw
   * sequence: the shuffle is a bijection between the 10 * 9 * ... * 2 draw
   * sequences and the arrangements of the ten digits.
   */
  lemma {:induction false} EveryArrangementReachable<T>(s: seq<T>, t: seq<T>)
    requires |s| >= 1 && multiset(s) == multiset(t)
    ensures exists swaps :: ValidSwaps(swaps, |s|) && |swaps| == |s| - 1 && Shuffle(s, swaps) == t
  {
    var n := |s|;
    assert |t| == n by { assert |multiset(t)| == |multiset(s)|; }
    var sw: seq<nat> := [];
    var i := n - 1;
    assert s[..n] == s && t[..n] == t;
    while i > 0
      invariant 0 <= i < n && |sw| == n - 1 - i && ValidSwaps(sw, n)
      invariant multiset(Shuffle(s, sw)[..i + 1]) == multiset(t[..i + 1])
      invariant Shuffle(s, sw)[i + 1..] == t[i + 1..]
    {
      var j := ReachStep(s, t, sw, i);
      sw, i := sw + [j], i - 1;
    }
    var x := Shuffle(s, sw);
    assert x[..1] == [x[0]] && t[..1] == [t[0]];
    assert x[0] in multiset(t[..1]);
    assert x == x[..1] + x[1..] && t == t[..1] + t[1..];
  }

  /** No element occurs twice. */
  ghost predicate Distinct<T>(s: seq<T>) {
    forall p, q :: 0 <= p < q < |s| ==> s[p] != s[q]
  }

  /** A prefix of valid draws is valid. */
  lemma {:induction false} PrefixValid(swaps: seq<nat>, n: nat, k: nat)
    requires ValidSwaps(swaps, n) && k <= |swaps|
    ensures ValidSwaps(swaps[..k], n)
  {
    forall m | 0 <= m < k ensures swaps[..k][m] <= n - 1 - m {
      assert swaps[..k][m] == swaps[m];
    }
  }

  /** An exchange of distinct elements leaves them distinct. */
  lemma {:induction false} SwapKeepsDistinct<T>(s: seq<T>, i: nat, j: nat)
    requires i < |s| && j < |s| && Distinct(s)
    ensures Distinct(Swap(s, i, j))
  {
    var r := Swap(s, i, j);
    forall p, q | 0 <= p < q < |s| ensures r[p] != r[q] {
      var p' := if p == i then j else if p == j then i else p;
      var q' := if q == i then j else if q == j then i else q;
      assert r[p] == s[p'] && r[q] == s[q'] && p' != q';
    }
  }

  /** Shuffling distinct elements leaves them distinct. */
  lemma {:induction false} ShuffleKeepsDistinct<T>(s: seq<T>, swaps: seq<nat>)
    requires ValidSwaps(swaps, |s|) && Distinct(s)
    ensures Distinct(Shuffle(s, swaps))
    decreases |swaps|
  {
    if swaps != [] {
      var n := |swaps| - 1;
      ShuffleKeepsDistinct(s, swaps[..n]);
      SwapKeepsDistinct(Shuffle(s, swaps[..n]), |s| - 1 - n, swaps[n]);
    }
  }

  /**
   * Step k of the shuffle is the last one to touch position n - 1 - k: the
   * later steps leave the top k + 1 positions as they are.
   */
  lemma {:induction false} LaterStepsKeepSuffix<T>(s: seq<T>, swaps: seq<nat>, k: nat)
    requires ValidSwaps(swaps, |s|) && k <= |swaps|
    ensures ValidSwaps(swaps[..k], |s|)
    ensures Shuffle(s, swaps)[|s| - k..] == Shuffle(s, swaps[..k])[|s| - k..]
    decreases |swaps|
  {
    PrefixValid(swaps, |s|, k);
    if k < |swaps| {
      var n := |swaps| - 1;
      PrefixValid(swaps, |s|, n);
      assert swaps[..n][..k] == swaps[..k];
      LaterStepsKeepSuffix(s, swaps[..n], k);
      var x := Shuffle(s, swaps[..n]);
      var r := Shuffle(s, swaps);
      assert r == Swap(x, |s| - 1 - n, swaps[n]);
      forall p | |s| - k <= p < |s| ensures r[p] == x[p] {
      }
      assert r[|s| - k..] == x[|s| - k..];
    } else {
      assert swaps[..k] == swaps;
    }
  }

  /**
   * What ends up at position n - 1 - m is what step m drew into it: the
   * element at index a[m] after the first m steps.
   */
  lemma {:induction false} ShuffleAtStep<T>(s: seq<T>, a: seq<nat>, m: nat)
    requires ValidSwaps(a, |s|) && m < |a|
    ensures ValidSwaps(a[..m], |s|) && a[m] < |s|
    ensures Shuffle(s, a)[|s| - 1 - m] == Shuffle(s, a[..m])[a[m]]
  {
    ShufflePrefixStep(s, a, m);
    LaterStepsKeepSuffix(s, a, m + 1);
    var i := |s| - 1 - m;
    assert Shuffle(s, a)[i] == Shuffle(s, a)[|s| - (m + 1)..][0];
    assert Shuffle(s, a[..m + 1])[i] == Shuffle(s, a[..m + 1])[|s| - (m + 1)..][0];
  }

  /** Two draw sequences that agree before step m and shuffle distinct elements alike agree at step m. */
  lemma {:induction false} StepDetermined<T>(s: seq<T>, a: seq<nat>, b: seq<nat>, m: nat)
    requires Distinct(s) && ValidSwaps(a, |s|) && ValidSwaps(b, |s|) && |a| == |b|
    requires Shuffle(s, a) == Shuffle(s, b)
    requires m < |a| && a[..m] == b[..m]
    ensures a[m] == b[m] && a[..m + 1] == b[..m + 1]
  {
    ShuffleAtStep(s, a, m);
    ShuffleAtStep(s, b, m);
    ShuffleKeepsDistinct(s, a[..m]);
    assert a[..m + 1] == a[..m] + [a[m]];
    assert b[..m + 1] == b[..m] + [b[m]];
  }

  /**
   * Different draws shuffle distinct elements differently: an arrangement
   * of distinct elements comes from one draw sequence only.
   */
  lemma {:induction false} DrawsDetermineShuffle<T>(s: seq<T>, a: seq<nat>, b: seq<nat>)
    requires Distinct(s) && ValidSwaps(a, |s|) && ValidSwaps(b, |s|) && |a| == |b|
    requires Shuffle(s, a) == Shuffle(s, b)
    ensures a == b
  {
    for m := 0 to |a|
      invariant a[..m] == b[..m]
    {
      StepDetermined(s, a, b, m);
    }
    assert a[..|a|] == a && b[..|b|] == b;
  }
}
