/**
 * The in-place Fisher–Yates shuffle of shuffleArray. The draws of Math.random are
 * replaced by a caller-supplied sequence `js` of swap partners: at step `i`
 * (for `i` from the last index down to 1) position `i` is swapped with `js[i]`,
 * where `js[i] <= i`, the range of `Math.floor(Math.random() * (i + 1))`.
 */
module Shuffle {
  import opened Cards

  /** `js` is a possible outcome of the random draws for an array of length `n`. */
  predicate IsSwapSeq(js: seq<nat>, n: nat) {
    |js| == n && forall i | 0 <= i < n :: js[i] <= i
  }

  /** The swap partners that leave every element in place. */
  function IdentitySwaps(n: nat): (js: seq<nat>)
    ensures IsSwapSeq(js, n)
  {
    seq(n, i requires 0 <= i < n => i)
  }

  /** Exchange the elements at positions `i` and `j` (the destructuring swap). */
  function Swap<T>(s: seq<T>, i: nat, j: nat): (r: seq<T>)
    requires i < |s| && j < |s|
    ensures |r| == |s| && r[i] == s[j] && r[j] == s[i]
    ensures forall k | 0 <= k < |s| && k != i && k != j :: r[k] == s[k]
  {
    s[i := s[j]][j := s[i]]
  }

  lemma SwapPermutes<T>(s: seq<T>, i: nat, j: nat)
    requires i < |s| && j < |s|
    ensures multiset(Swap(s, i, j)) == multiset(s)
  {
  }

  /** The sequence after the steps `i`, `i - 1`, ..., 1 of the shuffle loop. */
  function ShuffleFrom<T>(s: seq<T>, js: seq<nat>, i: int): (r: seq<T>)
    requires IsSwapSeq(js, |s|) && i < |s|
    ensures |r| == |s|
    decreases i
  {
    if i <= 0 then s else ShuffleFrom(Swap(s, i, js[i]), js, i - 1)
  }

  /** The result of shuffleArray on `s` for the draws `js`. */
  function Shuffled<T>(s: seq<T>, js: seq<nat>): (r: seq<T>)
    requires IsSwapSeq(js, |s|)
  {
    ShuffleFrom(s, js, |s| - 1)
  }

  /** Every step is a swap, so the steps together permute the sequence. */
  lemma {:induction false} ShuffleFromPermutes<T>(s: seq<T>, js: seq<nat>, i: int)
    requires IsSwapSeq(js, |s|) && i < |s|
    ensures multiset(ShuffleFrom(s, js, i)) == multiset(s)
    decreases i
  {
    if i > 0 {
      SwapPermutes(s, i, js[i]);
      ShuffleFromPermutes(Swap(s, i, js[i]), js, i - 1);
    }
  }

  /** A shuffle is a permutation: same length, same multiset of elements. */
  lemma ShuffledIsPermutation<T>(s: seq<T>, js: seq<nat>)
    requires IsSwapSeq(js, |s|)
    ensures |Shuffled(s, js)| == |s|
    ensures multiset(Shuffled(s, js)) == multiset(s)
    ensures forall x :: x in Shuffled(s, js) <==> x in s
  {
    var r := Shuffled(s, js);
    ShuffleFromPermutes(s, js, |s| - 1);
    forall x ensures x in r <==> x in s {
      assert x in r <==> x in multiset(r);
      assert x in s <==> x in multiset(s);
    }
  }

  /** Swapping keeps a sequence without repetitions without repetitions. */
  lemma SwapDistinct<T>(s: seq<T>, i: nat, j: nat)
    requires i < |s| && j < |s|
    requires Distinct(s)
    ensures Distinct(Swap(s, i, j))
  {
    var r := Swap(s, i, j);
    forall a, b | 0 <= a < b < |r| ensures r[a] != r[b] {
      var a' := if a == i then j else if a == j then i else a;
      var b' := if b == i then j else if b == j then i else b;
      assert r[a] == s[a'] && r[b] == s[b'] && a' != b';
    }
  }

  /** Shuffling keeps a sequence without repetitions without repetitions. */
  lemma {:induction false} ShuffleFromDistinct<T>(s: seq<T>, js: seq<nat>, i: int)
    requires IsSwapSeq(js, |s|) && i < |s|
    requires Distinct(s)
    ensures Distinct(ShuffleFrom(s, js, i))
    decreases i
  {
    if i > 0 {
      SwapDistinct(s, i, js[i]);
      ShuffleFromDistinct(Swap(s, i, js[i]), js, i - 1);
    }
  }

  /** With every position swapped with itself the shuffle changes nothing. */
  lemma {:induction false} ShuffleFromIdentity<T>(s: seq<T>, i: int)
    requires i < |s|
    ensures ShuffleFrom(s, IdentitySwaps(|s|), i) == s
    decreases i
  {
    if i > 0 {
      var js := IdentitySwaps(|s|);
      assert Swap(s, i, js[i]) == s;
      ShuffleFromIdentity(s, i - 1);
    }
  }

  /** The steps below position `i` never touch positions above `i`. */
  lemma {:induction false} ShuffleFromKeepsAbove<T>(s: seq<T>, js: seq<nat>, i: int, k: nat)
    requires IsSwapSeq(js, |s|) && i < k < |s|
    ensures ShuffleFrom(s, js, i)[k] == s[k]
    decreases i
  {
    if i > 0 {
      var t := Swap(s, i, js[i]);
      ShuffleFromKeepsAbove(t, js, i - 1, k);
    }
  }

  /**
   * Each step fixes its position for good: after the whole shuffle, position
   * `i >= 1` holds the element that step `i` brought there.
   */
  lemma {:induction false} ShuffleFromAt<T>(s: seq<T>, js: seq<nat>, i: int)
    requires IsSwapSeq(js, |s|) && 0 < i < |s|
    ensures ShuffleFrom(s, js, i)[i] == s[js[i]]
  {
    ShuffleFromKeepsAbove(Swap(s, i, js[i]), js, i - 1, i);
  }

  /** shuffleArray: the loop of the source, on the array in place. */
  method ShuffleArray<T>(a: array<T>, js: seq<nat>)
    requires IsSwapSeq(js, a.Length)
    modifies a
    ensures a[..] == Shuffled(old(a[..]), js)
    ensures multiset(a[..]) == multiset(old(a[..]))
  {
    ShuffledIsPermutation(a[..], js);
    var i := a.Length - 1;
    while i > 0
      invariant -1 <= i < a.Length
      invariant ShuffleFrom(a[..], js, i) == Shuffled(old(a[..]), js)
      decreases i
    {
      var j := js[i];
      ghost var before := a[..];
      var t := a[i];
      a[i] := a[j];
      a[j] := t;
      assert a[..] == Swap(before, i, j);
      i := i - 1;
    }
  }
}
