/** Facts about finite sets shared by the registry and the listener IO. */
module Sets {

  /** A non-empty set has an element: here is one, so `:|` may pick from the set. */
  lemma NonEmptyHasMember<T(00)>(s: set<T>) returns (x: T)
    requires s != {}
    ensures x in s
  {
    assert (forall y :: y !in s) ==> s == {};
    x :| x in s;
  }
}
