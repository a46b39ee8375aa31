/** Sequences of identifiers ordered by a time, newest first. */
module Recency {
  import opened ConversationService

  type Times = map<nat, nat>

  ghost predicate NewestFirst(line: Times, ids: seq<nat>) {
    && (forall i :: 0 <= i < |ids| ==> ids[i] in line)
    && (forall i, j :: 0 <= i < j < |ids| ==> line[ids[i]] >= line[ids[j]])
  }

  ghost predicate DistinctTimes(line: Times) {
    forall m, n :: m in line && n in line && line[m] == line[n] ==> m == n
  }

  lemma LastIsOldest(line: Times, a: seq<nat>, b: seq<nat>)
    requires a != [] && b != [] && NewestFirst(line, a) && NewestFirst(line, b) && Elements(a) <= Elements(b)
    ensures line[b[|b| - 1]] <= line[a[|a| - 1]]
  {
    var x := a[|a| - 1];
    assert x in Elements(a);
    assert x in Elements(b);
  }

  lemma DropLast(a: seq<nat>)
    requires NoDuplicates(a) && a != []
    ensures NoDuplicates(a[..|a| - 1]) && Elements(a[..|a| - 1]) == Elements(a) - {a[|a| - 1]}
  {
    assert a == a[..|a| - 1] + [a[|a| - 1]];
  }

  /** With distinct times there is only one way to list a set newest first. */
  lemma {:induction false} SortedUnique(line: Times, a: seq<nat>, b: seq<nat>)
    requires DistinctTimes(line) && NoDuplicates(a) && NoDuplicates(b) && NewestFirst(line, a) && NewestFirst(line, b)
    requires Elements(a) == Elements(b)
    ensures a == b
    decreases |a|
  {
    SizeOfDistinct(a);
    SizeOfDistinct(b);
    if a != [] {
      var n := |a| - 1;
      LastIsOldest(line, a, b);
      LastIsOldest(line, b, a);
      assert a[n] == b[n];
      DropLast(a);
      DropLast(b);
      SortedUnique(line, a[..n], b[..n]);
    }
  }
}
