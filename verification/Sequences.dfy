/** Subsequences: keeping some elements of a list, in order. */
module Sequences {

  /** f sends the elements of a, in order, to equal elements of b. */
  ghost predicate Embeds<T>(a: seq<T>, b: seq<T>, f: seq<nat>) {
    && |f| == |a|
    && (forall i :: 0 <= i < |f| ==> f[i] < |b| && b[f[i]] == a[i])
    && (forall i, j :: 0 <= i < j < |f| ==> f[i] < f[j])
  }

  ghost predicate Subsequence<T>(a: seq<T>, b: seq<T>) { exists f :: Embeds(a, b, f) }

  lemma SubsequenceConcat<T>(a1: seq<T>, b1: seq<T>, a2: seq<T>, b2: seq<T>)
    requires Subsequence(a1, b1) && Subsequence(a2, b2)
    ensures Subsequence(a1 + a2, b1 + b2)
  {
    var f1 :| Embeds(a1, b1, f1);
    var f2 :| Embeds(a2, b2, f2);
    var f: seq<nat> := f1 + seq(|f2|, i requires 0 <= i < |f2| => |b1| + f2[i]);
    assert Embeds(a1 + a2, b1 + b2, f);
  }

  lemma SubsequenceReflexive<T>(a: seq<T>)
    ensures Subsequence(a, a)
  {
    assert Embeds(a, a, seq(|a|, i => i));
  }

  lemma EmptySubsequence<T>(b: seq<T>)
    ensures Subsequence([], b)
  {
    assert Embeds([], b, []);
  }

  ghost predicate Climbs(f: seq<nat>) { forall j, k :: 0 <= j < k < |f| ==> f[j] < f[k] }

  lemma {:induction false} AtLeast(f: seq<nat>, i: nat)
    requires i < |f| && Climbs(f)
    ensures f[i] >= i
  {
    if i > 0 {
      AtLeast(f, i - 1);
    }
  }

  lemma {:induction false} AtMost(f: seq<nat>, n: nat, i: nat)
    requires i < |f| && Climbs(f) && forall j :: 0 <= j < |f| ==> f[j] < n
    ensures f[i] + (|f| - i) <= n
    decreases |f| - i
  {
    if i < |f| - 1 {
      AtMost(f, n, i + 1);
    }
  }

  /** A list as long as the list it is kept from is that list. */
  lemma EqualLengthSubsequence<T>(a: seq<T>, b: seq<T>)
    requires Subsequence(a, b) && |a| == |b|
    ensures a == b
  {
    var f :| Embeds(a, b, f);
    assert Climbs(f);
    forall i | 0 <= i < |a| ensures a[i] == b[i] {
      AtLeast(f, i);
      AtMost(f, |b|, i);
    }
  }

  lemma NoSubsequenceOfNothing<T>(a: seq<T>)
    ensures a != [] ==> !Subsequence(a, [])
  {
    forall f | a != [] ensures !Embeds(a, [], f) {
      assert |f| == |a| ==> 0 <= f[0];
    }
  }
}
