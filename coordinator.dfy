/**
 * The `Coordinator` protocol's child bookkeeping: a coordinator holds its children in order and
 * removes a child by identity, dropping every occurrence of it.
 */
module Coordinators {

  /** Removes every occurrence of `c` (by reference) from `children`, keeping the others in order. */
  function RemovingAll(children: seq<Coordinator>, c: Coordinator): (r: seq<Coordinator>)
    ensures c !in r
    ensures forall i :: 0 <= i < |r| ==> r[i] in children
    ensures forall i :: 0 <= i < |children| && children[i] != c ==> children[i] in r
    ensures |r| <= |children|
  {
    if children == [] then []
    else if children[0] == c then RemovingAll(children[1..], c)
    else [children[0]] + RemovingAll(children[1..], c)
  }

  class Coordinator {
    var childCoordinators: seq<Coordinator>

    constructor ()
      ensures childCoordinators == []
    {
      childCoordinators := [];
    }

    /** `addChild(_:)`: appends, even when the child is already present. */
    method AddChild(coordinator: Coordinator)
      modifies this
      ensures childCoordinators == old(childCoordinators) + [coordinator]
    {
      childCoordinators := childCoordinators + [coordinator];
    }

    /** `removeChild(_:)`: `removeAll { $0 === coordinator }`. */
    method RemoveChild(coordinator: Coordinator)
      modifies this
      ensures childCoordinators == RemovingAll(old(childCoordinators), coordinator)
    {
      var children := childCoordinators;
      var kept: seq<Coordinator> := [];
      var i := 0;
      while i < |children|
        invariant 0 <= i <= |children|
        invariant kept == RemovingAll(children[..i], coordinator)
      {
        RemovingAllAppend(children[..i], [children[i]], coordinator);
        assert children[..i + 1] == children[..i] + [children[i]];
        if children[i] != coordinator {
          kept := kept + [children[i]];
        }
        i := i + 1;
      }
      assert children[..i] == children;
      childCoordinators := kept;
    }
  }

  /** Removal distributes over concatenation, so the survivors keep their relative order. */
  lemma {:induction false} RemovingAllAppend(xs: seq<Coordinator>, ys: seq<Coordinator>, c: Coordinator)
    ensures RemovingAll(xs + ys, c) == RemovingAll(xs, c) + RemovingAll(ys, c)
    decreases |xs|
  {
    if xs == [] {
      assert xs + ys == ys;
    } else {
      assert (xs + ys)[1..] == xs[1..] + ys;
      RemovingAllAppend(xs[1..], ys, c);
    }
  }

  /** Removing a coordinator that is not a child leaves the children as they were. */
  lemma {:induction false} RemovingAllAbsent(children: seq<Coordinator>, c: Coordinator)
    requires c !in children
    ensures RemovingAll(children, c) == children
    decreases |children|
  {
    if children != [] {
      assert c !in children[1..];
      RemovingAllAbsent(children[1..], c);
    }
  }

  /** Adding a child twice and removing it once leaves none of it: removal is by identity, not by count. */
  lemma AddTwiceRemoveOnce(children: seq<Coordinator>, c: Coordinator)
    requires c !in children
    ensures RemovingAll(children + [c] + [c], c) == children
  {
    RemovingAllAppend(children + [c], [c], c);
    RemovingAllAppend(children, [c], c);
    RemovingAllAbsent(children, c);
  }
}
