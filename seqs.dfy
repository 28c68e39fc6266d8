/** The optional value used for a record that may be missing and for a
    selection widget that may have nothing to offer. */
module Wrappers {
  datatype Option<T> = None | Some(value: T)
}

/** Sequence operations shared by the table model: filtering rows by a
    predicate (the store's delete-where and select-where, and Python list
    comprehensions with an `if`), and pairwise properties such as "no two
    rows share a key". */
module Seqs {

  /** The elements of `s` that satisfy `keep`, in their original order. */
  function Filter<T(!new)>(s: seq<T>, keep: T -> bool): (r: seq<T>)
    ensures |r| <= |s|
    ensures forall x :: x in r <==> x in s && keep(x)
  {
    if s == [] then []
    else if keep(s[0]) then [s[0]] + Filter(s[1..], keep)
    else Filter(s[1..], keep)
  }

  /** Filtering distributes over concatenation: the survivors keep their order. */
  lemma {:induction false} FilterConcat<T(!new)>(a: seq<T>, b: seq<T>, keep: T -> bool)
    ensures Filter(a + b, keep) == Filter(a, keep) + Filter(b, keep)
  {
    if a == [] {
      assert a + b == b;
    } else {
      assert (a + b)[0] == a[0];
      assert (a + b)[1..] == a[1..] + b;
      FilterConcat(a[1..], b, keep);
    }
  }

  /** Filtering keeps every occurrence of a kept value and no occurrence of a dropped one. */
  lemma {:induction false} FilterCount<T(!new)>(s: seq<T>, keep: T -> bool, x: T)
    ensures multiset(Filter(s, keep))[x] == if keep(x) then multiset(s)[x] else 0
  {
    if s != [] {
      assert s == [s[0]] + s[1..];
      FilterCount(s[1..], keep, x);
    }
  }

  /** Filtering with complementary predicates splits a sequence in two. */
  lemma {:induction false} FilterSplit<T(!new)>(s: seq<T>, keep: T -> bool, drop: T -> bool)
    requires forall x :: drop(x) <==> !keep(x)
    ensures |Filter(s, keep)| + |Filter(s, drop)| == |s|
  {
    if s != [] {
      FilterSplit(s[1..], keep, drop);
    }
  }

  /** Filtering by a stronger predicate after a weaker one is filtering by the stronger one. */
  lemma {:induction false} FilterOfFilter<T(!new)>(s: seq<T>, weak: T -> bool, strong: T -> bool)
    requires forall x :: strong(x) ==> weak(x)
    ensures Filter(Filter(s, weak), strong) == Filter(s, strong)
  {
    if s != [] {
      FilterOfFilter(s[1..], weak, strong);
    }
  }

  /** A filter that keeps everything is the identity. */
  lemma {:induction false} FilterKeepsAll<T(!new)>(s: seq<T>, keep: T -> bool)
    requires forall i :: 0 <= i < |s| ==> keep(s[i])
    ensures Filter(s, keep) == s
  {
    if s != [] {
      FilterKeepsAll(s[1..], keep);
    }
  }

  /** A filter that keeps nothing of `s` is empty. */
  lemma {:induction false} FilterKeepsNone<T(!new)>(s: seq<T>, keep: T -> bool)
    requires forall i :: 0 <= i < |s| ==> !keep(s[i])
    ensures Filter(s, keep) == []
  {
    if s != [] {
      FilterKeepsNone(s[1..], keep);
    }
  }

  /** Every two elements of `s`, taken in order, are related by `rel`. */
  ghost predicate Pairwise<T>(s: seq<T>, rel: (T, T) -> bool)
  {
    forall i, j :: 0 <= i < j < |s| ==> rel(s[i], s[j])
  }

  /** Dropping elements never breaks a pairwise property. */
  lemma {:induction false} FilterPreservesPairwise<T(!new)>(s: seq<T>, keep: T -> bool, rel: (T, T) -> bool)
    requires Pairwise(s, rel)
    ensures Pairwise(Filter(s, keep), rel)
  {
    if s != [] {
      var tail := Filter(s[1..], keep);
      FilterPreservesPairwise(s[1..], keep, rel);
      if keep(s[0]) {
        forall j | 0 <= j < |tail|
          ensures rel(s[0], tail[j])
        {
          assert tail[j] in s[1..];
          var k :| 0 <= k < |s[1..]| && s[1..][k] == tail[j];
          assert s[k + 1] == tail[j];
        }
        var r := [s[0]] + tail;
        forall i, j | 0 <= i < j < |r|
          ensures rel(r[i], r[j])
        {
          if i > 0 {
            assert r[i] == tail[i - 1] && r[j] == tail[j - 1];
          } else {
            assert r[j] == tail[j - 1];
          }
        }
      }
    }
  }

  /** Appending `x` keeps a pairwise property when every earlier element relates to `x`. */
  lemma AppendPreservesPairwise<T>(s: seq<T>, x: T, rel: (T, T) -> bool)
    requires Pairwise(s, rel)
    requires forall i :: 0 <= i < |s| ==> rel(s[i], x)
    ensures Pairwise(s + [x], rel)
  {
  }

  predicate Unequal<T(==)>(a: T, b: T)
  {
    a != b
  }

  /** No value occurs twice in `s`. */
  ghost predicate Distinct<T>(s: seq<T>)
  {
    Pairwise(s, Unequal)
  }
}
