/** Enumerations of a finite set: the order in which a hash map hands out its entries is
    unspecified, so the model describes iteration by "some sequence listing every element
    exactly once". */
module Enumeration {

  /** `order` lists every element of `s` once and nothing else. */
  ghost predicate Enumerates<T>(order: seq<T>, s: set<T>) {
    && (forall x | x in order :: x in s)
    && (forall x | x in s :: x in order)
    && (forall i, j :: 0 <= i < j < |order| ==> order[i] != order[j])
  }

  /** An enumeration is as long as the set it lists. */
  lemma {:induction false} EnumerationSize<T>(order: seq<T>, s: set<T>)
    requires Enumerates(order, s)
    ensures |order| == |s|
  {
    if order == [] {
      assert s == {};
    } else {
      var rest := s - {order[0]};
      assert Enumerates(order[1..], rest) by {
        forall x | x in order[1..] || x in rest ensures x in order[1..] <==> x in rest {
          if x in order[1..] {
            var k :| 0 <= k < |order[1..]| && order[1..][k] == x;
            assert order[k + 1] == x;
          }
          if x in rest {
            assert x in order;
            var k :| 0 <= k < |order| && order[k] == x;
            assert k != 0;
            assert order[1..][k - 1] == x;
          }
        }
      }
      EnumerationSize(order[1..], rest);
    }
  }
}
