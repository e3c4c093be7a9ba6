/** The orders in which the members of a set can be gone through: Go promises nothing about the order of a map. */
module Orders {

  /** A list of all members of a set, each once, in some order. */
  predicate Enumerates(order: seq<string>, members: set<string>) {
    && (forall k :: 0 <= k < |order| ==> order[k] in members)
    && (forall x :: x in members ==> x in order)
    && (forall j, k :: 0 <= j < k < |order| ==> order[j] != order[k])
  }

  lemma {:induction false} SomeOrder(members: set<string>) returns (order: seq<string>)
    ensures Enumerates(order, members)
  {
    if members == {} {
      order := [];
    } else {
      var x :| x in members;
      var rest := SomeOrder(members - {x});
      order := [x] + rest;
      forall y | y in members
        ensures y in order
      {
        if y != x {
          assert y in rest;
        }
      }
    }
  }

  lemma Prepend(x: string, rest: seq<string>, members: set<string>)
    requires x in members && Enumerates(rest, members - {x})
    ensures Enumerates([x] + rest, members)
  {
    forall y | y in members
      ensures y in [x] + rest
    {
      if y != x {
        assert y in rest;
      }
    }
  }
}
