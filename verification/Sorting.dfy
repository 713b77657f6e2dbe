/** Sorting slices in place. The Go library's sorts appear as insertion sort; the
    results below say that nothing depends on that choice. */
module Sorting {

  /** s with x inserted behind every element that x is not less than, from the right. */
  function Insert<T>(s: seq<T>, x: T, less: (T, T) -> bool): (r: seq<T>)
    ensures |r| == |s| + 1
  {
    if s == [] || !less(x, s[|s| - 1]) then s + [x]
    else Insert(s[..|s| - 1], x, less) + [s[|s| - 1]]
  }

  function Sort<T>(s: seq<T>, less: (T, T) -> bool): (r: seq<T>)
    ensures |r| == |s|
  {
    if s == [] then [] else Insert(Sort(s[..|s| - 1], less), s[|s| - 1], less)
  }

  method SortInPlace<T>(a: array<T>, less: (T, T) -> bool)
    modifies a
    ensures a[..] == Sort(old(a[..]), less)
  {
    hide Insert;
    ghost var s := a[..];
    for i := 0 to a.Length
      invariant a[..i] == Sort(s[..i], less)
      invariant a[i..] == s[i..]
    {
      SinkLast(a, i, less, s);
      assert s[..i + 1][..i] == s[..i] && s[..i + 1][i] == s[i];
    }
    assert a[..a.Length] == a[..] && s[..a.Length] == s;
  }

  /** One round: a[i] sinks into the sorted part before it. */
  method SinkLast<T>(a: array<T>, i: nat, less: (T, T) -> bool, ghost s: seq<T>)
    requires i < a.Length == |s| && a[i..] == s[i..]
    modifies a
    ensures a[..i + 1] == Insert(old(a[..i]), s[i], less)
    ensures a[i + 1..] == s[i + 1..]
  {
    var j := i;
    ghost var front, x := a[..i], s[i];
    assert a[i] == a[i..][0] == x;
    assert a[i + 1..] == a[i..][1..];
    assert Insert(a[..j], x, less) + a[j + 1..i + 1] == Insert(front, x, less);
    while j > 0 && less(a[j], a[j - 1])
      invariant 0 <= j <= i && a[j] == x
      invariant Insert(a[..j], x, less) + a[j + 1..i + 1] == Insert(front, x, less)
      invariant a[i + 1..] == s[i + 1..]
    {
      ghost var before, behind := a[..j], a[j + 1..i + 1];
      InsertSinks(before, x, less);
      Passed(Insert(before[..j - 1], x, less), before[j - 1], behind);
      a[j], a[j - 1] := a[j - 1], a[j];
      assert a[..j - 1] == before[..j - 1];
      assert a[j..i + 1] == [before[j - 1]] + behind;
      j := j - 1;
    }
    assert Insert(a[..j], x, less) == a[..j] + [x];
    assert a[..i + 1] == a[..j] + [x] + a[j + 1..i + 1];
  }

  lemma Passed<T>(front: seq<T>, y: T, behind: seq<T>)
    ensures front + [y] + behind == front + ([y] + behind)
  {
  }

  method SortedCopy<T>(s: seq<T>, less: (T, T) -> bool) returns (out: seq<T>)
    ensures out == Sort(s, less)
  {
    var a := new T[|s|](i requires 0 <= i < |s| => s[i]);
    assert a[..] == s;
    SortInPlace(a, less);
    out := a[..];
  }

  // ----- sorted, and a permutation -------------------------------------------------

  /** less is a strict order whose incomparability is transitive. */
  ghost predicate WeakOrder<T(!new)>(less: (T, T) -> bool) {
    && (forall x, y :: less(x, y) ==> !less(y, x))
    && (forall x, y, z :: less(x, y) && less(y, z) ==> less(x, z))
    && (forall x, y, z :: less(x, z) ==> less(x, y) || less(y, z))
  }

  ghost predicate Sorted<T>(s: seq<T>, less: (T, T) -> bool) {
    forall i, j :: 0 <= i < j < |s| ==> !less(s[j], s[i])
  }

  lemma {:induction false} InsertMultiset<T>(s: seq<T>, x: T, less: (T, T) -> bool)
    ensures multiset(Insert(s, x, less)) == multiset(s) + multiset{x}
  {
    if s != [] && less(x, s[|s| - 1]) {
      InsertMultiset(s[..|s| - 1], x, less);
      assert s == s[..|s| - 1] + [s[|s| - 1]];
    }
  }

  lemma {:induction false} SortMultiset<T>(s: seq<T>, less: (T, T) -> bool)
    ensures multiset(Sort(s, less)) == multiset(s)
  {
    if s != [] {
      SortMultiset(s[..|s| - 1], less);
      InsertMultiset(Sort(s[..|s| - 1], less), s[|s| - 1], less);
      assert s == s[..|s| - 1] + [s[|s| - 1]];
    }
  }

  lemma {:induction false} InsertSorted<T(!new)>(s: seq<T>, x: T, less: (T, T) -> bool)
    requires WeakOrder(less) && Sorted(s, less)
    ensures Sorted(Insert(s, x, less), less)
  {
    if s != [] {
      var front, last := s[..|s| - 1], s[|s| - 1];
      if less(x, last) {
        InsertSorted(front, x, less);
        var r := Insert(front, x, less);
        InsertMultiset(front, x, less);
        forall i | 0 <= i < |r| ensures !less(last, r[i]) {
          assert r[i] in multiset(r);
          if r[i] != x {
            assert r[i] in front;
          }
        }
      } else {
        forall i | 0 <= i < |s| ensures !less(x, s[i]) {
          assert i < |s| - 1 ==> !less(s[|s| - 1], s[i]);
        }
      }
    }
  }

  lemma {:induction false} SortSorts<T(!new)>(s: seq<T>, less: (T, T) -> bool)
    requires WeakOrder(less)
    ensures Sorted(Sort(s, less), less)
  {
    if s != [] {
      SortSorts(s[..|s| - 1], less);
      InsertSorted(Sort(s[..|s| - 1], less), s[|s| - 1], less);
    }
  }

  /** Any two different elements of s are ordered. */
  ghost predicate Total<T>(s: seq<T>, less: (T, T) -> bool) {
    forall x, y :: x in s && y in s ==> x == y || less(x, y) || less(y, x)
  }

  lemma TailOf<T>(a: seq<T>, less: (T, T) -> bool)
    requires a != []
    ensures multiset(a[1..]) == multiset(a) - multiset{a[0]}
    ensures Sorted(a, less) ==> Sorted(a[1..], less)
    ensures Total(a, less) ==> Total(a[1..], less)
  {
    assert a == [a[0]] + a[1..];
  }

  lemma SameLength<T>(a: seq<T>, b: seq<T>)
    requires multiset(a) == multiset(b)
    ensures |a| == |b|
  {
    assert |multiset(a)| == |a| && |multiset(b)| == |b|;
  }

  lemma FirstAndRest<T>(a: seq<T>, b: seq<T>)
    requires a != [] && b != [] && a[0] == b[0] && a[1..] == b[1..]
    ensures a == b
  {
    assert a == [a[0]] + a[1..] && b == [b[0]] + b[1..];
  }

  lemma SameFirst<T>(a: seq<T>, b: seq<T>, less: (T, T) -> bool)
    requires a != [] && b != [] && multiset(a) == multiset(b)
    requires Sorted(a, less) && Sorted(b, less) && Total(a, less)
    ensures a[0] == b[0]
  {
    assert a[0] in multiset(b) && b[0] in multiset(a);
    var i :| 0 <= i < |b| && b[i] == a[0];
    var j :| 0 <= j < |a| && a[j] == b[0];
    assert i > 0 ==> !less(b[i], b[0]);
    assert j > 0 ==> !less(a[j], a[0]);
  }

  /** There is only one way to sort elements that are all ordered. */
  lemma {:induction false} SortedDetermined<T>(a: seq<T>, b: seq<T>, less: (T, T) -> bool)
    requires multiset(a) == multiset(b) && Sorted(a, less) && Sorted(b, less) && Total(a, less)
    ensures a == b
  {
    hide Sorted, Total;
    SameLength(a, b);
    if |a| > 0 {
      SameFirst(a, b, less);
      TailOf(a, less);
      TailOf(b, less);
      SortedDetermined(a[1..], b[1..], less);
      FirstAndRest(a, b);
    }
  }

  // ----- stability -------------------------------------------------------------------

  /** The elements of s that satisfy p, in order. */
  function Filter<T>(s: seq<T>, p: T -> bool): (r: seq<T>) {
    if s == [] then []
    else if p(s[0]) then [s[0]] + Filter(s[1..], p)
    else Filter(s[1..], p)
  }

  lemma {:induction false} FilterConcat<T>(a: seq<T>, b: seq<T>, p: T -> bool)
    ensures Filter(a + b, p) == Filter(a, p) + Filter(b, p)
  {
    if a == [] {
      assert a + b == b;
    } else {
      assert (a + b)[1..] == a[1..] + b;
      FilterConcat(a[1..], b, p);
    }
  }

  lemma FilterOne<T>(x: T, p: T -> bool)
    ensures Filter([x], p) == if p(x) then [x] else []
  {
  }

  /** p never separates x from something it is not smaller or greater than: a class
      of the order, or anything else that only overtakes strictly. */
  ghost predicate NeverOvertakes<T(!new)>(p: T -> bool, less: (T, T) -> bool) {
    forall x, y :: p(x) && p(y) ==> !less(x, y)
  }

  lemma InsertSinks<T>(s: seq<T>, x: T, less: (T, T) -> bool)
    requires s != [] && less(x, s[|s| - 1])
    ensures Insert(s, x, less) == Insert(s[..|s| - 1], x, less) + [s[|s| - 1]]
  {
  }

  lemma {:induction false} InsertKeepsClass<T(!new)>(s: seq<T>, x: T, less: (T, T) -> bool, p: T -> bool)
    requires NeverOvertakes(p, less)
    ensures Filter(Insert(s, x, less), p) == Filter(s + [x], p)
  {
    if s != [] && less(x, s[|s| - 1]) {
      var front, last := s[..|s| - 1], s[|s| - 1];
      InsertKeepsClass(front, x, less, p);
      FilterConcat(Insert(front, x, less), [last], p);
      FilterConcat(front, [x], p);
      FilterConcat(s, [x], p);
      FilterConcat(front, [last], p);
      hide Filter, Insert;
      assert s == front + [last];
      FilterOne(x, p);
      FilterOne(last, p);
      assert Insert(s, x, less) == Insert(front, x, less) + [last] by { InsertSinks(s, x, less); }
      assert p(x) && p(last) ==> !less(x, last);
    }
  }

  /** Stability: equal elements keep their relative order. */
  lemma {:induction false} SortIsStable<T(!new)>(s: seq<T>, less: (T, T) -> bool, p: T -> bool)
    requires NeverOvertakes(p, less)
    ensures Filter(Sort(s, less), p) == Filter(s, p)
  {
    if s != [] {
      var front, last := s[..|s| - 1], s[|s| - 1];
      SortIsStable(front, less, p);
      InsertKeepsClass(Sort(front, less), last, less, p);
      FilterConcat(Sort(front, less), [last], p);
      FilterConcat(front, [last], p);
      assert s == front + [last];
    }
  }

  // ----- what a filter keeps -------------------------------------------------------------

  lemma {:induction false} FilterCount<T>(s: seq<T>, p: T -> bool, x: T)
    ensures multiset(Filter(s, p))[x] == if p(x) then multiset(s)[x] else 0
  {
    if s != [] {
      FilterCount(s[1..], p, x);
      assert s == [s[0]] + s[1..];
    }
  }

  lemma {:induction false} FilterAll<T>(s: seq<T>, p: T -> bool)
    requires forall x <- s :: p(x)
    ensures Filter(s, p) == s
  {
    if s != [] {
      FilterAll(s[1..], p);
    }
  }

  lemma {:induction false} FilterNone<T>(s: seq<T>, p: T -> bool)
    requires forall x <- s :: !p(x)
    ensures Filter(s, p) == []
  {
    if s != [] {
      FilterNone(s[1..], p);
    }
  }
}
