/**
 * The row scan behind a `SELECT`: the rows of a table are read one at a
 * time, in an order the store chooses, into a list.
 */
module Tables {

  /** A non-empty set has an element to pick. */
  lemma NonEmptyHasElement(s: set<int>)
    requires s != {}
    ensures exists x :: x in s
  {
    if forall x :: x !in s {
      assert false;
    }
  }

  /**
   * Lists every key of a table exactly once, in an unspecified order.
   */
  method Enumerate(keys: set<int>) returns (xs: seq<int>)
    ensures |xs| == |keys|
    ensures forall i :: 0 <= i < |xs| ==> xs[i] in keys
    ensures forall k :: k in keys ==> k in xs
    ensures forall i, j :: 0 <= i < j < |xs| ==> xs[i] != xs[j]
  {
    xs := [];
    var rest := keys;
    while rest != {}
      invariant rest <= keys
      invariant |xs| + |rest| == |keys|
      invariant forall i :: 0 <= i < |xs| ==> xs[i] in keys && xs[i] !in rest
      invariant forall k :: k in keys && k !in rest ==> k in xs
      invariant forall i, j :: 0 <= i < j < |xs| ==> xs[i] != xs[j]
      decreases |rest|
    {
      NonEmptyHasElement(rest);
      var x :| x in rest;
      xs := xs + [x];
      rest := rest - {x};
    }
  }
}
