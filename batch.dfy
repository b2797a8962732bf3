/**
 * Collecting the results of a batch loop: each item of a fetched list leaves
 * either an entry or nothing, and the list that is uploaded holds the entries
 * in the order their items were fetched.
 */
module Batch {
  import opened Wrappers

  /** The entries of `slots`, in order, skipping the items that produced none. */
  function Collected<T>(slots: seq<Option<T>>): (r: seq<T>)
    ensures |r| <= |slots|
    ensures forall x :: x in r ==> Some(x) in slots
  {
    if slots == [] then []
    else
      var last := slots[|slots| - 1];
      Collected(slots[..|slots| - 1]) + (if last.Some? then [last.value] else [])
  }

  /** How many entries the items before `i` contributed: the position item `i`'s entry takes. */
  function Rank<T>(slots: seq<Option<T>>, i: nat): nat
    requires i <= |slots|
  {
    |Collected(slots[..i])|
  }

  /** The entry of item `i`, if it has one, sits at position `Rank(slots, i)`. */
  lemma {:induction false} CollectedAt<T>(slots: seq<Option<T>>, i: nat)
    requires i < |slots| && slots[i].Some?
    ensures Rank(slots, i) < |Collected(slots)|
    ensures Collected(slots)[Rank(slots, i)] == slots[i].value
    decreases |slots|
  {
    var n := |slots| - 1;
    var front := slots[..n];
    if i == n {
      assert slots[..i] == front;
    } else {
      assert front[..i] == slots[..i];
      CollectedAt(front, i);
    }
  }

  /** Ranks never decrease, and each entry strictly raises the rank of the items after it. */
  lemma {:induction false} RankGrows<T>(slots: seq<Option<T>>, i: nat, j: nat)
    requires i < j <= |slots|
    ensures Rank(slots, i) <= Rank(slots, j)
    ensures slots[i].Some? ==> Rank(slots, i) < Rank(slots, j)
    decreases j - i
  {
    var step := slots[..i + 1];
    assert step[..i] == slots[..i];
    if i + 1 < j {
      RankGrows(slots, i + 1, j);
    }
  }

  /** Entries keep the fetch order: an earlier item's entry comes first. */
  lemma CollectedInOrder<T>(slots: seq<Option<T>>, i: nat, j: nat)
    requires i < j < |slots| && slots[i].Some? && slots[j].Some?
    ensures Rank(slots, i) < Rank(slots, j) < |Collected(slots)|
    ensures Collected(slots)[Rank(slots, i)] == slots[i].value
    ensures Collected(slots)[Rank(slots, j)] == slots[j].value
  {
    RankGrows(slots, i, j);
    CollectedAt(slots, i);
    CollectedAt(slots, j);
  }

  /** Nothing is collected exactly when no item produced an entry. */
  lemma {:induction false} CollectedEmpty<T>(slots: seq<Option<T>>)
    ensures Collected(slots) == [] <==> forall i :: 0 <= i < |slots| ==> slots[i].None?
    decreases |slots|
  {
    if slots != [] {
      var n := |slots| - 1;
      CollectedEmpty(slots[..n]);
      assert forall i :: 0 <= i < n ==> slots[..n][i] == slots[i];
    }
  }

  /** Every item that produced an entry is collected: nothing is lost. */
  lemma {:induction false} CollectedAll<T>(slots: seq<Option<T>>)
    ensures (forall i :: 0 <= i < |slots| ==> slots[i].Some?) ==> |Collected(slots)| == |slots|
    decreases |slots|
  {
    if slots != [] {
      var n := |slots| - 1;
      CollectedAll(slots[..n]);
      assert forall i :: 0 <= i < n ==> slots[..n][i] == slots[i];
    }
  }

  /** Appending one slot appends its entry, if any: the step a batch loop takes. */
  lemma CollectedSnoc<T>(slots: seq<Option<T>>, s: Option<T>)
    ensures Collected(slots + [s]) == Collected(slots) + (if s.Some? then [s.value] else [])
  {
    assert (slots + [s])[..|slots|] == slots;
  }
}
