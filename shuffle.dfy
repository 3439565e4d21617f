/** `ArrayUtility.Shuffle` and `ArrayUtility.Swap`: the Fisher–Yates shuffle
    in place. The random number generator becomes a parameter: `draws[i]` is
    what the i-th call `rand.Next(n + 1)` returned, a number in [0, n]. */
module ArrayUtility {

  /** `s` with the entries at `i` and `j` exchanged. */
  ghost function Swapped<T>(s: seq<T>, i: nat, j: nat): (r: seq<T>)
    requires i < |s| && j < |s|
  {
    s[i := s[j]][j := s[i]]
  }

  /** Swap exchanges the two entries and keeps all others. */
  lemma SwappedEntries<T>(s: seq<T>, i: nat, j: nat)
    requires i < |s| && j < |s|
    ensures |Swapped(s, i, j)| == |s|
    ensures Swapped(s, i, j)[i] == s[j] && Swapped(s, i, j)[j] == s[i]
    ensures forall k :: 0 <= k < |s| && k != i && k != j ==> Swapped(s, i, j)[k] == s[k]
  {
  }

  /** Swapping twice restores the sequence. */
  lemma SwapTwice<T>(s: seq<T>, i: nat, j: nat)
    requires i < |s| && j < |s|
    ensures Swapped(Swapped(s, i, j), i, j) == s
  {
    var t := Swapped(Swapped(s, i, j), i, j);
    assert forall k :: 0 <= k < |s| ==> t[k] == s[k];
  }

  /** Swapping an entry with itself changes nothing. */
  lemma SwapSameIndex<T>(s: seq<T>, i: nat)
    requires i < |s|
    ensures Swapped(s, i, i) == s
  {
  }

  /** A swap only permutes the entries. */
  lemma SwapPermutes<T>(s: seq<T>, i: nat, j: nat)
    requires i < |s| && j < |s|
    ensures multiset(Swapped(s, i, j)) == multiset(s)
  {
    if i != j {
      var u := s[i := s[j]];
      assert multiset(u) == multiset(s) - multiset{s[i]} + multiset{s[j]};
      assert multiset(u[j := s[i]]) == multiset(u) - multiset{u[j]} + multiset{s[i]};
    }
  }

  method Swap<T>(a: array<T>, source: nat, destination: nat)
    requires source < a.Length && destination < a.Length
    modifies a
    ensures a[..] == Swapped(old(a[..]), source, destination)
  {
    var obj := a[source];
    a[source] := a[destination];
    a[destination] := obj;
  }

  /** The draws a generator can deliver while shuffling `length` entries:
      one per step, the i-th at most the index `length - 1 - i` it swaps. */
  predicate ValidDraws(draws: seq<int>, length: nat) {
    |draws| >= length - 1 &&
    forall i :: 0 <= i < |draws| && i < length - 1 ==> 0 <= draws[i] <= length - 1 - i
  }

  /** The steps of the shuffle from index `n` down to 1, as a function. */
  ghost function ShuffledFrom<T>(s: seq<T>, draws: seq<int>, n: nat): seq<T>
    requires n < |s| && ValidDraws(draws, |s|)
    decreases n
  {
    if n == 0 then s
    else ShuffledFrom(Swapped(s, n, draws[|s| - 1 - n]), draws, n - 1)
  }

  /** The outcome of the whole shuffle. */
  ghost function Shuffled<T>(s: seq<T>, draws: seq<int>): seq<T>
    requires ValidDraws(draws, |s|)
  {
    if |s| == 0 then s else ShuffledFrom(s, draws, |s| - 1)
  }

  lemma {:induction false} ShuffledFromPermutes<T>(s: seq<T>, draws: seq<int>, n: nat)
    requires n < |s| && ValidDraws(draws, |s|)
    ensures |ShuffledFrom(s, draws, n)| == |s|
    ensures multiset(ShuffledFrom(s, draws, n)) == multiset(s)
    decreases n
  {
    if n > 0 {
      var t := Swapped(s, n, draws[|s| - 1 - n]);
      SwapPermutes(s, n, draws[|s| - 1 - n]);
      ShuffledFromPermutes(t, draws, n - 1);
    }
  }

  /** Whatever the generator returns, the shuffle yields a permutation of
      its input of the same length. */
  lemma ShuffledPermutes<T>(s: seq<T>, draws: seq<int>)
    requires ValidDraws(draws, |s|)
    ensures |Shuffled(s, draws)| == |s|
    ensures multiset(Shuffled(s, draws)) == multiset(s)
  {
    if |s| > 0 {
      ShuffledFromPermutes(s, draws, |s| - 1);
    }
  }

  /** An array of at most one entry is never changed. */
  lemma ShuffleShort<T>(s: seq<T>, draws: seq<int>)
    requires |s| <= 1 && ValidDraws(draws, |s|)
    ensures Shuffled(s, draws) == s
  {
  }

  /** Fisher–Yates: for each position from the last down to 1, swap it with
      the position the next draw picks among it and the ones before it. */
  method Shuffle<T>(a: array<T>, draws: seq<int>)
    requires ValidDraws(draws, a.Length)
    modifies a
    ensures a[..] == Shuffled(old(a[..]), draws)
    ensures multiset(a[..]) == multiset(old(a[..]))
  {
    ShuffledPermutes(a[..], draws);
    var n := a.Length;
    if n == 0 {
      return;
    }
    n := n - 1;
    while n > 0
      invariant 0 <= n < a.Length
      invariant Shuffled(old(a[..]), draws) == ShuffledFrom(a[..], draws, n)
      decreases n
    {
      var k := draws[a.Length - 1 - n];
      Swap(a, n, k);
      n := n - 1;
    }
  }
}

/** `ArrayHelper.Shuffle` and `ArrayHelper.Swap`, the extension-method copy
    of the same algorithm; its Shuffle hands back the array it was given. */
module ArrayHelper {
  import ArrayUtility

  method Swap<T>(a: array<T>, source: nat, destination: nat)
    requires source < a.Length && destination < a.Length
    modifies a
    ensures a[..] == ArrayUtility.Swapped(old(a[..]), source, destination)
  {
    ArrayUtility.Swap(a, source, destination);
  }

  method Shuffle<T>(a: array<T>, draws: seq<int>) returns (r: array<T>)
    requires ArrayUtility.ValidDraws(draws, a.Length)
    modifies a
    ensures r == a
    ensures a[..] == ArrayUtility.Shuffled(old(a[..]), draws)
  {
    ArrayUtility.Shuffle(a, draws);
    r := a;
  }
}

/** The `ArrayUtility` of the trunk tree, a copy of the same shuffle and
    swap. */
module ArrayUtilityTrunk {
  import ArrayUtility

  method Swap<T>(a: array<T>, source: nat, destination: nat)
    requires source < a.Length && destination < a.Length
    modifies a
    ensures a[..] == ArrayUtility.Swapped(old(a[..]), source, destination)
  {
    ArrayUtility.Swap(a, source, destination);
  }

  method Shuffle<T>(a: array<T>, draws: seq<int>)
    requires ArrayUtility.ValidDraws(draws, a.Length)
    modifies a
    ensures a[..] == ArrayUtility.Shuffled(old(a[..]), draws)
    ensures multiset(a[..]) == multiset(old(a[..]))
  {
    ArrayUtility.Shuffle(a, draws);
  }
}
