/** Order-preserving filtering and first-match search over sequences. */
module Seqs {
  import opened Options

  /** The elements of `s` that `keep` accepts, in their original order (JavaScript's `Array.prototype.filter`). */
  function Filter<T(==)>(s: seq<T>, keep: T -> bool): (r: seq<T>)
    ensures |r| <= |s|
    ensures forall i :: 0 <= i < |r| ==> r[i] in s && keep(r[i])
    ensures forall i :: 0 <= i < |s| && keep(s[i]) ==> s[i] in r
  {
    if s == [] then [] else (if keep(s[0]) then [s[0]] else []) + Filter(s[1..], keep)
  }

  /** Filtering a concatenation filters each part: the kept elements keep their relative order. */
  lemma {:induction false} FilterAppend<T>(a: seq<T>, b: seq<T>, keep: T -> bool)
    ensures Filter(a + b, keep) == Filter(a, keep) + Filter(b, keep)
    decreases |a|
  {
    if a != [] {
      assert (a + b)[1..] == a[1..] + b;
      FilterAppend(a[1..], b, keep);
    } else {
      assert a + b == b;
    }
  }

  /** A filter that accepts every element changes nothing. */
  lemma {:induction false} FilterKeepsAll<T>(s: seq<T>, keep: T -> bool)
    requires forall i :: 0 <= i < |s| ==> keep(s[i])
    ensures Filter(s, keep) == s
    decreases |s|
  {
    if s != [] {
      FilterKeepsAll(s[1..], keep);
    }
  }

  /** A filter that rejects exactly one element removes that element and nothing else. */
  lemma FilterDropOne<T>(pre: seq<T>, gone: T, post: seq<T>, keep: T -> bool)
    requires forall i :: 0 <= i < |pre| ==> keep(pre[i])
    requires !keep(gone)
    requires forall i :: 0 <= i < |post| ==> keep(post[i])
    ensures Filter(pre + [gone] + post, keep) == pre + post
  {
    assert Filter(pre + [gone], keep) == pre by {
      FilterKeepsAll(pre, keep);
      assert Filter([gone], keep) == [] by {
        assert [gone][1..] == [];
      }
      FilterAppend(pre, [gone], keep);
    }
    assert Filter(post, keep) == post by {
      FilterKeepsAll(post, keep);
    }
    FilterAppend(pre + [gone], post, keep);
  }

  /** The complement of a filter condition. */
  function Not<T>(keep: T -> bool): T -> bool {
    x => !keep(x)
  }

  /** What a filter keeps and what its complement keeps together account for every element. */
  lemma {:induction false} FilterPartition<T>(s: seq<T>, keep: T -> bool)
    ensures |Filter(s, keep)| + |Filter(s, Not(keep))| == |s|
    ensures multiset(Filter(s, keep)) + multiset(Filter(s, Not(keep))) == multiset(s)
    decreases |s|
  {
    if s != [] {
      FilterPartition(s[1..], keep);
      assert s == [s[0]] + s[1..];
    }
  }

  /** The index of the first element of `s` that satisfies `p` (the first match of a query). */
  function FirstIndex<T>(s: seq<T>, p: T -> bool): (r: Option<nat>)
    ensures r.Some? ==> r.value < |s| && p(s[r.value])
    ensures r.Some? ==> forall j :: 0 <= j < r.value ==> !p(s[j])
    ensures r.None? <==> forall j :: 0 <= j < |s| ==> !p(s[j])
  {
    if s == [] then None
    else if p(s[0]) then Some(0)
    else match FirstIndex(s[1..], p)
      case None => None
      case Some(i) => Some(i + 1)
  }
}
