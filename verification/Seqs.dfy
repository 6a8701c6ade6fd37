/** Order and multiplicity of sequences: subsequences, duplicates and filters. */
module Seqs {

  /** `a` is obtained from `b` by deleting elements, keeping the order. */
  ghost predicate Subseq<T>(a: seq<T>, b: seq<T>)
    decreases |b|
  {
    a == [] ||
    (b != [] &&
     ((a[|a| - 1] == b[|b| - 1] && Subseq(a[..|a| - 1], b[..|b| - 1])) ||
      Subseq(a, b[..|b| - 1])))
  }

  ghost predicate NoDup<T>(s: seq<T>) {
    forall i, j :: 0 <= i < j < |s| ==> s[i] != s[j]
  }

  lemma SubseqGrow<T>(a: seq<T>, b: seq<T>, x: T)
    requires Subseq(a, b)
    ensures Subseq(a, b + [x])
    ensures Subseq(a + [x], b + [x])
  {
  }

  lemma {:induction false} SubseqRefl<T>(a: seq<T>)
    ensures Subseq(a, a)
    decreases |a|
  {
    if a != [] {
      SubseqRefl(a[..|a| - 1]);
    }
  }

  lemma {:induction false} SubseqTrans<T>(a: seq<T>, b: seq<T>, c: seq<T>)
    requires Subseq(a, b) && Subseq(b, c)
    ensures Subseq(a, c)
    decreases |c|, |b|
  {
    if a != [] {
      var b', c' := b[..|b| - 1], c[..|c| - 1];
      if Subseq(b, c') {
        SubseqTrans(a, b, c');
      } else if Subseq(a, b') {
        SubseqTrans(a, b', c');
      } else {
        SubseqTrans(a[..|a| - 1], b', c');
      }
    }
  }

  lemma {:induction false} SubseqConcat<T>(a: seq<T>, a': seq<T>, b: seq<T>, b': seq<T>)
    requires Subseq(a, a') && Subseq(b, b')
    ensures Subseq(a + b, a' + b')
    decreases |b'|, |a'|
  {
    if b' == [] {
      assert a + b == a && a' + b' == a';
    } else {
      var init := b'[..|b'| - 1];
      assert (a' + b')[..|a' + b'| - 1] == a' + init;
      if Subseq(b, init) {
        SubseqConcat(a, a', b, init);
      } else if b == [] {
        assert Subseq(b, init);
      } else {
        SubseqConcat(a, a', b[..|b| - 1], init);
        assert (a + b)[..|a + b| - 1] == a + b[..|b| - 1];
      }
    }
  }

  /** The last stretch of a subsequence gives way to a newly appended element. */
  lemma SubseqReplaceTail<T>(s: seq<T>, tail: seq<T>, b: seq<T>, x: T)
    requires Subseq(s + tail, b)
    ensures Subseq(s + [x], b + [x])
  {
    SubseqRefl(s);
    assert Subseq([], tail);
    SubseqConcat(s, s, [], tail);
    assert s + [] == s;
    SubseqTrans(s, s + tail, b);
    SubseqGrow(s, b, x);
  }

  lemma {:induction false} SubseqIn<T>(a: seq<T>, b: seq<T>, x: T)
    requires Subseq(a, b) && x in a
    ensures x in b
    decreases |b|
  {
    var b' := b[..|b| - 1];
    if Subseq(a, b') {
      SubseqIn(a, b', x);
    } else if x != a[|a| - 1] {
      assert x in a[..|a| - 1];
      SubseqIn(a[..|a| - 1], b', x);
    }
  }

  lemma {:induction false} SubseqNoDup<T>(a: seq<T>, b: seq<T>)
    requires Subseq(a, b) && NoDup(b)
    ensures NoDup(a)
    decreases |b|
  {
    if a != [] {
      var b' := b[..|b| - 1];
      if Subseq(a, b') {
        SubseqNoDup(a, b');
      } else {
        var a' := a[..|a| - 1];
        SubseqNoDup(a', b');
        forall i | 0 <= i < |a'| ensures a[i] != a[|a| - 1] {
          SubseqIn(a', b', a[i]);
        }
      }
    }
  }

  /** What stands earlier in a subsequence stands earlier in the whole. */
  lemma {:induction false} SubseqOrder<T>(a: seq<T>, b: seq<T>, k: nat, l: nat, p: nat, q: nat)
    requires Subseq(a, b) && NoDup(b) && k < l < |a| && p < |b| && q < |b| && a[k] == b[p] && a[l] == b[q]
    ensures p < q
    decreases |b|
  {
    var n := |b| - 1;
    if Subseq(a, b[..n]) {
      InPrefix(b, n, a, k, p);
      InPrefix(b, n, a, l, q);
      SubseqOrder(a, b[..n], k, l, p, q);
    } else {
      var a' := a[..|a| - 1];
      InPrefix(b, n, a', k, p);
      if l < |a| - 1 {
        InPrefix(b, n, a', l, q);
        SubseqOrder(a', b[..n], k, l, p, q);
      }
    }
  }

  lemma InPrefix<T>(b: seq<T>, n: nat, a: seq<T>, k: nat, p: nat)
    requires n < |b| && NoDup(b) && Subseq(a, b[..n]) && k < |a| && p < |b| && a[k] == b[p]
    ensures p < n
  {
    SubseqIn(a, b[..n], a[k]);
    var i :| 0 <= i < n && b[..n][i] == a[k];
    assert b[i] == b[p];
  }

  function Filter<T>(s: seq<T>, keep: T -> bool): (r: seq<T>)
    ensures forall i :: 0 <= i < |r| ==> r[i] in s && keep(r[i])
  {
    if s == [] then []
    else
      var rest := Filter(s[..|s| - 1], keep);
      if keep(s[|s| - 1]) then rest + [s[|s| - 1]] else rest
  }

  lemma {:induction false} FilterIn<T>(s: seq<T>, keep: T -> bool, x: T)
    ensures x in Filter(s, keep) <==> x in s && keep(x)
    decreases |s|
  {
    if s != [] {
      FilterIn(s[..|s| - 1], keep, x);
      assert s == s[..|s| - 1] + [s[|s| - 1]];
    }
  }

  lemma {:induction false} FilterSubseq<T>(s: seq<T>, keep: T -> bool)
    ensures Subseq(Filter(s, keep), s)
    decreases |s|
  {
    if s != [] {
      var init, last := s[..|s| - 1], s[|s| - 1];
      var kept := Filter(init, keep);
      FilterSubseq(init, keep);
      SubseqGrow(kept, init, last);
      assert init + [last] == s;
      assert Filter(s, keep) == if keep(last) then kept + [last] else kept;
    }
  }

  function Map<T, U>(s: seq<T>, f: T -> U): (r: seq<U>)
    ensures |r| == |s|
    ensures forall i :: 0 <= i < |s| ==> r[i] == f(s[i])
  {
    seq(|s|, i requires 0 <= i < |s| => f(s[i]))
  }

  lemma {:induction false} SubseqMap<T, U>(a: seq<T>, b: seq<T>, f: T -> U)
    requires Subseq(a, b)
    ensures Subseq(Map(a, f), Map(b, f))
    decreases |b|
  {
    if a != [] {
      var a', b' := a[..|a| - 1], b[..|b| - 1];
      assert Map(b, f)[..|b| - 1] == Map(b', f);
      if Subseq(a, b') {
        SubseqMap(a, b', f);
      } else {
        SubseqMap(a', b', f);
        assert Map(a, f)[..|a| - 1] == Map(a', f);
      }
    }
  }

  /** What a filter keeps and what it drops together are what was there. */
  lemma {:induction false} FilterPartition<T, U>(s: seq<T>, keep: T -> bool, drop: T -> bool, f: T -> U)
    requires forall x :: x in s ==> drop(x) == !keep(x)
    ensures multiset(Map(s, f)) == multiset(Map(Filter(s, keep), f)) + multiset(Map(Filter(s, drop), f))
    decreases |s|
  {
    if s != [] {
      var init, last := s[..|s| - 1], s[|s| - 1];
      FilterPartition(init, keep, drop, f);
      assert Map(s, f) == Map(init, f) + [f(last)];
      if keep(last) {
        assert Map(Filter(s, keep), f) == Map(Filter(init, keep), f) + [f(last)];
      } else {
        assert Map(Filter(s, drop), f) == Map(Filter(init, drop), f) + [f(last)];
      }
    }
  }

  /** When everything before a dropped element is dropped too, a filter cuts off a prefix. */
  lemma {:induction false} FilterSplits<T>(s: seq<T>, drop: T -> bool, keep: T -> bool)
    requires forall i, j :: 0 <= i < j < |s| && drop(s[j]) ==> drop(s[i])
    requires forall i :: 0 <= i < |s| ==> keep(s[i]) == !drop(s[i])
    ensures var k := |Filter(s, drop)|; k <= |s| && Filter(s, drop) == s[..k] && Filter(s, keep) == s[k..]
    decreases |s|
  {
    if s != [] {
      var init, last := s[..|s| - 1], s[|s| - 1];
      FilterSplits(init, drop, keep);
      if drop(last) {
        FilterAll(init, drop, keep);
      } else {
        var k := |Filter(init, drop)|;
        assert s[k..] == init[k..] + [last];
      }
    }
  }

  lemma {:induction false} FilterAll<T>(s: seq<T>, drop: T -> bool, keep: T -> bool)
    requires forall i :: 0 <= i < |s| ==> drop(s[i]) && !keep(s[i])
    ensures Filter(s, drop) == s && Filter(s, keep) == []
    decreases |s|
  {
    if s != [] {
      FilterAll(s[..|s| - 1], drop, keep);
    }
  }

  lemma {:induction false} FilterConcat<T>(a: seq<T>, b: seq<T>, keep: T -> bool)
    ensures Filter(a + b, keep) == Filter(a, keep) + Filter(b, keep)
    decreases |b|
  {
    if b == [] {
      assert a + b == a;
    } else {
      var init := b[..|b| - 1];
      FilterConcat(a, init, keep);
      assert (a + b)[..|a + b| - 1] == a + init;
    }
  }

  lemma {:induction false} NoDupCount<T>(s: seq<T>, x: T)
    requires NoDup(s)
    ensures multiset(s)[x] == if x in s then 1 else 0
    decreases |s|
  {
    if s != [] {
      var init, last := s[..|s| - 1], s[|s| - 1];
      NoDupCount(init, x);
      assert s == init + [last];
      assert last !in init;
    }
  }

  lemma SameElementsSameLength<T>(a: seq<T>, b: seq<T>)
    requires NoDup(a) && NoDup(b) && forall x :: x in a <==> x in b
    ensures |a| == |b|
  {
    forall x ensures multiset(a)[x] == multiset(b)[x] {
      NoDupCount(a, x);
      NoDupCount(b, x);
    }
    assert multiset(a) == multiset(b);
    assert |multiset(a)| == |a| && |multiset(b)| == |b|;
  }

  /** Equally many distinct elements drawn from a duplicate-free list are that list. */
  lemma SameSize<T>(a: seq<T>, b: seq<T>)
    requires NoDup(a) && NoDup(b) && |a| == |b| && forall i :: 0 <= i < |a| ==> a[i] in b
    ensures multiset(a) == multiset(b)
  {
    forall x ensures multiset(a)[x] <= multiset(b)[x] {
      NoDupCount(a, x);
      NoDupCount(b, x);
    }
    assert multiset(a) <= multiset(b);
    var rest := multiset(b) - multiset(a);
    assert multiset(b) == multiset(a) + rest;
    assert |multiset(b)| == |multiset(a)| + |rest|;
    assert rest == multiset{};
  }
}
