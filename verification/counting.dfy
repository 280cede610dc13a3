/** Occurrence counts of sequence elements, the form in which "exactly once" is stated and
    proved throughout the model. */
module Counting {

  /** The number of occurrences of j in s. */
  function Count(s: seq<nat>, j: int): nat
  {
    if |s| == 0 then 0 else Count(s[..|s| - 1], j) + (if s[|s| - 1] == j then 1 else 0)
  }

  /** `Count` is the multiplicity in the multiset of the list. */
  lemma {:induction false} CountIsMultiplicity(s: seq<nat>, j: int)
    ensures Count(s, j) == multiset(s)[j]
  {
    if |s| > 0 {
      CountIsMultiplicity(s[..|s| - 1], j);
      assert s == s[..|s| - 1] + [s[|s| - 1]];
      assert multiset(s) == multiset(s[..|s| - 1]) + multiset{s[|s| - 1]};
    }
  }

  /** Occurrences in a concatenation add up. */
  lemma {:induction false} CountConcat(a: seq<nat>, b: seq<nat>, j: int)
    ensures Count(a + b, j) == Count(a, j) + Count(b, j)
  {
    if |b| > 0 {
      var init := b[..|b| - 1];
      CountConcat(a, init, j);
      assert (a + b)[..|a + b| - 1] == a + init;
      assert (a + b)[|a + b| - 1] == b[|b| - 1];
    } else {
      assert a + b == a;
    }
  }

  /** A one-element list holds its element once. */
  lemma CountSingleton(v: nat, j: int)
    ensures Count([v], j) == if v == j then 1 else 0
  {
    assert [v][..0] == [];
  }

  /** 1 when b holds, 0 otherwise. */
  function Ind(b: bool): nat
  {
    if b then 1 else 0
  }
}
