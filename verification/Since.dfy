/** What has begun at some step of a run and has not ended at a later one. */
module Since {
  ghost predicate Holds(begins: nat -> bool, ends: nat -> bool, k: nat) {
    exists i: nat :: HoldsFrom(begins, ends, i, k)
  }

  /** It begins at step i, and no step from there to the k-th ends it. */
  ghost predicate HoldsFrom(begins: nat -> bool, ends: nat -> bool, i: nat, k: nat) {
    i < k && begins(i) && forall j: nat :: i < j < k ==> !ends(j)
  }

  lemma Next(begins: nat -> bool, ends: nat -> bool, k: nat)
    ensures Holds(begins, ends, k + 1) <==> begins(k) || (Holds(begins, ends, k) && !ends(k))
  {
    var n := k + 1;
    if begins(k) {
      assert HoldsFrom(begins, ends, k, n);
    }
    if i: nat :| HoldsFrom(begins, ends, i, k) {
      assert !ends(k) ==> HoldsFrom(begins, ends, i, n);
    }
    if i: nat :| HoldsFrom(begins, ends, i, n) {
      assert i < k ==> HoldsFrom(begins, ends, i, k);
    }
  }

  /** A property that starts out false, becomes true at the steps that begin it and stays so up to those that end
      it, holds after k steps exactly when one of them began it and none has ended it since. */
  lemma {:induction false} Tracks(property: nat -> bool, begins: nat -> bool, ends: nat -> bool, k: nat)
    requires !property(0)
    requires forall i: nat :: i < k ==> (property(i + 1) <==> begins(i) || (property(i) && !ends(i)))
    ensures property(k) <==> Holds(begins, ends, k)
  {
    if k > 0 {
      Tracks(property, begins, ends, k - 1);
      Next(begins, ends, k - 1);
    }
  }
}
