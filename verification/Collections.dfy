/** A collection of numbers that is not empty has a member. */
module Collections {
  lemma SomeInSet(s: set<int>)
    ensures s == {} || exists x :: x in s
  {
    if forall x :: x !in s {
      assert s == {};
    }
  }

  lemma SomeInMultiset(m: multiset<int>)
    ensures m == multiset{} || exists x :: x in m
  {
    if forall x :: x !in m {
      assert m == multiset{};
    }
  }
}
