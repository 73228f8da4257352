/**
 * The ordered lists behind ChainedEventLoader and ChainedEventListenerIO:
 * add at the end or, on request, at the front; remove the first entry that
 * is the given object.
 */
module Chains {

  /** addEventLoader / addEventListenerIO: append, or array_unshift when prepend is set. */
  function Added<T>(chain: seq<T>, x: T, prepend: bool): (r: seq<T>)
    ensures |r| == |chain| + 1
    ensures prepend ==> r[0] == x && r[1..] == chain
    ensures !prepend ==> r[|chain|] == x && r[..|chain|] == chain
  {
    if prepend then [x] + chain else chain + [x]
  }

  /** The position of the first occurrence of x, |chain| when there is none. */
  function FirstIndex<T(==)>(chain: seq<T>, x: T): (i: nat)
    ensures i <= |chain|
    ensures i < |chain| ==> chain[i] == x
    ensures forall j | 0 <= j < i :: chain[j] != x
    decreases |chain|
  {
    if chain == [] then 0
    else if chain[0] == x then 0
    else 1 + FirstIndex(chain[1..], x)
  }

  /** FirstIndex is the first position holding x. */
  lemma FirstIndexIsFirst<T>(chain: seq<T>, x: T, i: nat)
    requires i <= |chain| && (i < |chain| ==> chain[i] == x)
    requires forall j | 0 <= j < i :: chain[j] != x
    ensures FirstIndex(chain, x) == i
  {
  }

  /**
   * removeEventLoader / removeEventListenerIO: drop the first entry identical
   * to x and report whether there was one. PHP's unset leaves a hole in the
   * array's indices; the iteration order of the others is what is kept here.
   */
  function RemoveFirst<T(==)>(chain: seq<T>, x: T): (r: (seq<T>, bool))
  {
    var i := FirstIndex(chain, x);
    if i < |chain| then (chain[..i] + chain[i + 1..], true) else (chain, false)
  }

  /**
   * Removal succeeds exactly when x is in the chain. Then the result is the
   * chain without its first x, everything before that x unchanged and
   * everything after it shifted one place, so exactly one x is gone;
   * otherwise the chain is unchanged.
   */
  lemma RemoveFirstSpec<T>(chain: seq<T>, x: T)
    ensures var r := RemoveFirst(chain, x);
      && (r.1 <==> x in chain)
      && (!r.1 ==> r.0 == chain)
      && (r.1 ==>
            var i := FirstIndex(chain, x);
            && |r.0| == |chain| - 1
            && x !in chain[..i]
            && (forall j | 0 <= j < i :: r.0[j] == chain[j])
            && (forall j | i <= j < |r.0| :: r.0[j] == chain[j + 1])
            && multiset(r.0) == multiset(chain) - multiset{x})
  {
    var i := FirstIndex(chain, x);
    if i < |chain| {
      var r := chain[..i] + chain[i + 1..];
      assert x !in chain[..i];
      assert forall j | 0 <= j < i :: r[j] == chain[j];
      assert forall j | i <= j < |r| :: r[j] == chain[j + 1];
      MultisetWithout(chain, i);
    } else {
      assert x !in chain;
    }
  }

  /** Dropping the entry at position i takes exactly that entry out of the multiset of entries. */
  lemma MultisetWithout<T>(chain: seq<T>, i: nat)
    requires i < |chain|
    ensures multiset(chain[..i] + chain[i + 1..]) == multiset(chain) - multiset{chain[i]}
  {
    assert chain == chain[..i] + [chain[i]] + chain[i + 1..];
  }
}
