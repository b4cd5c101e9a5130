/** Reading an unordered collection: any order may come out. */
module Unordered {
  lemma Inhabited(s: set<int>)
    ensures s == {} || exists x: int :: x in s
  {
    if !(exists x: int :: x in s) { assert s == {}; }
  }

  /** The elements of a set in some order. */
  method AnyOrder(s: set<int>) returns (xs: seq<int>)
    ensures forall y :: y in xs <==> y in s
    ensures forall i, j :: 0 <= i < j < |xs| ==> xs[i] != xs[j]
  {
    xs := [];
    var rest := s;
    while rest != {}
      invariant rest <= s
      invariant forall y :: y in xs <==> y in s && y !in rest
      invariant forall i, j :: 0 <= i < j < |xs| ==> xs[i] != xs[j]
      decreases |rest|
    {
      Inhabited(rest);
      var x :| x in rest;
      assert forall i :: 0 <= i < |xs| ==> xs[i] in xs;
      xs := xs + [x];
      rest := rest - {x};
    }
  }

  lemma InhabitedStrings(s: set<string>)
    ensures s == {} || exists x: string :: x in s
  {
    if !(exists x: string :: x in s) { assert s == {}; }
  }
}
