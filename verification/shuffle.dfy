/**
  The deck shuffle. The game sorts the doubled symbol list with a comparator that
  answers at random; all the model keeps of that is that the outcome is SOME
  permutation. The random answers are a parameter: `draws[i]` picks which of the
  cards still left goes to position i (an out-of-range draw picks the first).
*/
module Shuffling {
  import opened Seqs

  function Shuffle<T>(xs: seq<T>, draws: seq<nat>): (r: seq<T>)
    ensures multiset(r) == multiset(xs)
    ensures |r| == |xs|
    decreases |xs|
  {
    if |xs| == 0 then []
    else
      var k := if |draws| > 0 && draws[0] < |xs| then draws[0] else 0;
      var later := if |draws| > 0 then draws[1..] else [];
      assert xs == xs[..k] + [xs[k]] + xs[k + 1..];
      [xs[k]] + Shuffle(xs[..k] + xs[k + 1..], later)
  }

  /**
    A first draw below the number of cards left picks exactly that card; if the
    later draws shuffle the rest into the tail of ys, all the draws give ys.
  */
  lemma ShuffleStep<T>(xs: seq<T>, ys: seq<T>, k: nat, later: seq<nat>)
    requires k < |xs| && |ys| > 0 && xs[k] == ys[0]
    requires Shuffle(xs[..k] + xs[k + 1..], later) == ys[1..]
    ensures Shuffle(xs, [k] + later) == ys
  {
    assert ([k] + later)[1..] == later;
    assert ys == [ys[0]] + ys[1..];
  }

  /** The position of some occurrence of x in xs. */
  ghost function IndexOf<T>(xs: seq<T>, x: T): (k: nat)
    requires x in xs
    ensures k < |xs| && xs[k] == x
  {
    if xs[0] == x then 0 else 1 + IndexOf(xs[1..], x)
  }

  /** Matching the first element of ys with position k of xs leaves two permutations of each other. */
  lemma PermutationTail<T>(xs: seq<T>, ys: seq<T>, k: nat)
    requires multiset(ys) == multiset(xs) && |ys| > 0 && k < |xs| && xs[k] == ys[0]
    ensures multiset(ys[1..]) == multiset(xs[..k] + xs[k + 1..])
  {
    RemoveAt(xs, k);
    DropFirst(ys);
  }

  /**
    Random draws under which the shuffle turns xs into ys: every permutation of
    the deck is a possible outcome, so the model does not restrict the shuffle.
  */
  ghost function DrawsFor<T>(xs: seq<T>, ys: seq<T>): (draws: seq<nat>)
    requires multiset(ys) == multiset(xs)
    ensures Shuffle(xs, draws) == ys
    decreases |xs|
  {
    if |ys| == 0 then
      assert |xs| == |multiset(xs)| == 0;
      []
    else
      assert ys[0] in multiset(xs);
      var k := IndexOf(xs, ys[0]);
      PermutationTail(xs, ys, k);
      var later := DrawsFor(xs[..k] + xs[k + 1..], ys[1..]);
      ShuffleStep(xs, ys, k, later);
      [k] + later
  }
}
