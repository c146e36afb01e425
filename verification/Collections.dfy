/** Sets and sequences: a member of a set, a sequence without one element. */
module Collections {
  /** A non-empty set has a member, in the form that a choice statement needs. */
  lemma SomeMember(s: set<int>)
    requires s != {}
    ensures exists n :: n in s
  {
    if forall n :: n !in s {
      assert false;
    }
  }

  /** The sequence without its element at i, if it has one there. */
  function Without<T>(s: seq<T>, i: nat): seq<T> {
    if i < |s| then s[..i] + s[i + 1..] else s
  }
}
