/**
 * `OraOopGenerics`: the two-pass swap shuffle `ListRandomizer.randomizeList`
 * and the append-only `ObjectList`. The random indices the shuffle draws
 * are an input sequence: `draws[p * n + i]` is the index drawn at step `i`
 * of pass `p` for a list of `n` items.
 */
module Generics {
  import opened Wrappers

  /** The number of passes `randomizeList` makes over the list. */
  const REPEATS: nat := 2

  const NO_LIST_MESSAGE: string := "No list was passed."

  /** One step of a pass: exchange positions `i` and `j` unless they coincide. */
  function SwapStep<T>(s: seq<T>, i: nat, j: nat): (r: seq<T>)
    requires i < |s| && j < |s|
    ensures |r| == |s|
  {
    seq(|s|, k requires 0 <= k < |s| => if k == i then s[j] else if k == j then s[i] else s[k])
  }

  /** A swap is the two updates `randomizeList` makes, or nothing when `i == j`. */
  lemma SwapUpdates<T>(s: seq<T>, i: nat, j: nat)
    requires i < |s| && j < |s|
    ensures SwapStep(s, i, j) == if i != j then s[i := s[j]][j := s[i]] else s
  {
  }

  /** A swap exchanges two items and touches nothing else. */
  lemma SwapPermutes<T>(s: seq<T>, i: nat, j: nat)
    requires i < |s| && j < |s|
    ensures multiset(SwapStep(s, i, j)) == multiset(s)
    ensures SwapStep(s, i, j)[i] == s[j] && SwapStep(s, i, j)[j] == s[i]
  {
    SwapUpdates(s, i, j);
    if i != j {
      var t := s[i := s[j]];
      assert multiset(t) == multiset(s) - multiset{s[i]} + multiset{s[j]};
    }
  }

  /** Draws lie in `[0, n)`, as `Random.nextInt(n)` promises. */
  predicate ValidDraws(draws: seq<int>, n: nat) {
    |draws| == REPEATS * n && forall k :: 0 <= k < |draws| ==> 0 <= draws[k] < n
  }

  /** The list after the first `steps` steps of one pass using `draws`. */
  function Pass<T>(s: seq<T>, draws: seq<int>, steps: nat): (r: seq<T>)
    requires steps <= |s| && |draws| == |s|
    requires forall k :: 0 <= k < |draws| ==> 0 <= draws[k] < |s|
    ensures |r| == |s|
  {
    if steps == 0 then s
    else SwapStep(Pass(s, draws, steps - 1), steps - 1, draws[steps - 1])
  }

  /** The order `randomizeList` leaves a non-empty list in: two full passes. */
  function Randomized<T>(s: seq<T>, draws: seq<int>): (r: seq<T>)
    requires ValidDraws(draws, |s|)
    ensures |r| == |s|
  {
    var n := |s|;
    Pass(Pass(s, draws[..n], n), draws[n..], n)
  }

  /** A pass only exchanges items, so it is a permutation. */
  lemma {:induction false} PassPermutes<T>(s: seq<T>, draws: seq<int>, steps: nat)
    requires steps <= |s| && |draws| == |s|
    requires forall k :: 0 <= k < |draws| ==> 0 <= draws[k] < |s|
    ensures multiset(Pass(s, draws, steps)) == multiset(s)
  {
    if steps > 0 {
      PassPermutes(s, draws, steps - 1);
      SwapPermutes(Pass(s, draws, steps - 1), steps - 1, draws[steps - 1]);
    }
  }

  /** The shuffled list holds exactly the items of the input. */
  lemma RandomizedPermutes<T>(s: seq<T>, draws: seq<int>)
    requires ValidDraws(draws, |s|)
    ensures multiset(Randomized(s, draws)) == multiset(s)
  {
    var n := |s|;
    PassPermutes(s, draws[..n], n);
    PassPermutes(Pass(s, draws[..n], n), draws[n..], n);
  }

  /** A pass in which every draw names the current position changes nothing. */
  lemma {:induction false} PassIdentity<T>(s: seq<T>, draws: seq<int>, steps: nat)
    requires steps <= |s| && |draws| == |s|
    requires forall k :: 0 <= k < |draws| ==> draws[k] == k
    ensures Pass(s, draws, steps) == s
  {
    if steps > 0 {
      PassIdentity(s, draws, steps - 1);
    }
  }

  /** A one-item list is never reordered: its only draw is always 0. */
  lemma SingletonUnchanged<T>(s: seq<T>, draws: seq<int>)
    requires |s| == 1 && ValidDraws(draws, 1)
    ensures Randomized(s, draws) == s
  {
    PassIdentity(s, draws[..1], 1);
    PassIdentity(s, draws[1..], 1);
  }

  /**
   * `randomizeList`: a null list is refused; an empty list is left alone;
   * otherwise two passes swap each position with its drawn index. The list
   * ends up as `Randomized` of its old contents, a permutation of them.
   */
  method RandomizeList<T>(list: array?<T>, draws: seq<int>) returns (r: Result<(), string>)
    requires list != null ==> ValidDraws(draws, list.Length)
    modifies list
    ensures list == null <==> r.Err?
    ensures r.Err? ==> r.error == NO_LIST_MESSAGE
    ensures list != null && list.Length == 0 ==> list[..] == old(list[..])
    ensures list != null ==> list[..] == Randomized(old(list[..]), draws)
    ensures list != null ==> multiset(list[..]) == multiset(old(list[..]))
  {
    if list == null {
      return Err(NO_LIST_MESSAGE);
    }
    if list.Length == 0 {
      return Ok(());
    }
    var n := list.Length;
    var repeats := 0;
    while repeats < REPEATS
      invariant 0 <= repeats <= REPEATS
      invariant repeats == 0 ==> list[..] == old(list[..])
      invariant repeats == 1 ==> list[..] == Pass(old(list[..]), draws[..n], n)
      invariant repeats == 2 ==> list[..] == Randomized(old(list[..]), draws)
    {
      ShufflePass(list, draws[repeats * n..repeats * n + n]);
      assert repeats == 0 ==> draws[repeats * n..repeats * n + n] == draws[..n];
      assert repeats == 1 ==> draws[repeats * n..repeats * n + n] == draws[n..];
      repeats := repeats + 1;
    }
    RandomizedPermutes(old(list[..]), draws);
    return Ok(());
  }

  /** One pass of `randomizeList`: the inner loop over every position. */
  method ShufflePass<T>(list: array<T>, pass: seq<int>)
    requires |pass| == list.Length
    requires forall k :: 0 <= k < |pass| ==> 0 <= pass[k] < list.Length
    modifies list
    ensures list[..] == Pass(old(list[..]), pass, list.Length)
  {
    var idx := 0;
    while idx < list.Length
      invariant 0 <= idx <= list.Length
      invariant list[..] == Pass(old(list[..]), pass, idx)
    {
      var randomIdx := pass[idx];
      ghost var before := list[..];
      if idx != randomIdx {
        var tmp := list[idx];
        list[idx] := list[randomIdx];
        list[randomIdx] := tmp;
        assert list[..] == before[idx := before[randomIdx]][randomIdx := before[idx]];
      }
      SwapUpdates(before, idx, randomIdx);
      assert list[..] == SwapStep(before, idx, randomIdx);
      idx := idx + 1;
    }
  }

  /** `ObjectList`: a list that only grows, read by position. */
  class ObjectList<T> {
    var objects: seq<T>

    constructor ()
      ensures objects == []
    {
      objects := [];
    }

    /** `add`: appends, leaving every earlier position as it was. */
    method Add(item: T)
      modifies this
      ensures objects == old(objects) + [item]
      ensures Size() == old(Size()) + 1
      ensures Get(old(Size())) == Some(item)
      ensures forall i :: 0 <= i < old(Size()) ==> Get(i) == old(Get(i))
    {
      objects := objects + [item];
    }

    function Size(): (r: nat)
      reads this
      ensures r == |objects|
    {
      |objects|
    }

    /** `get`: the item at a position, or `None` where Java throws. */
    function Get(index: int): (r: Option<T>)
      reads this
      ensures r.Some? <==> 0 <= index < Size()
      ensures r.Some? ==> r.value == objects[index]
    {
      if 0 <= index < |objects| then Some(objects[index]) else None
    }
  }
}
