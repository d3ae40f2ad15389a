/** Sequence helpers shared by the models: filtering, subsequences, JavaScript's
    `Array.prototype.slice`, duplicate-free lists and first-seen de-duplication. */
module Seqs {

  /** `a` can be obtained from `b` by deleting elements (order is kept). */
  predicate IsSubseq<T(==)>(a: seq<T>, b: seq<T>)
    decreases |b|
  {
    a == [] ||
    (b != [] && ((a[0] == b[0] && IsSubseq(a[1..], b[1..])) || IsSubseq(a, b[1..])))
  }

  lemma {:induction false} SubseqMembers<T>(a: seq<T>, b: seq<T>)
    requires IsSubseq(a, b)
    ensures forall i :: 0 <= i < |a| ==> a[i] in b
    decreases |b|
  {
    if a != [] {
      if IsSubseq(a, b[1..]) {
        SubseqMembers(a, b[1..]);
      } else {
        SubseqMembers(a[1..], b[1..]);
        forall i | 0 <= i < |a| ensures a[i] in b {
          if i > 0 {
            assert a[i] == a[1..][i - 1];
          }
        }
      }
    }
  }

  lemma {:induction false} SubseqTrans<T>(a: seq<T>, b: seq<T>, c: seq<T>)
    requires IsSubseq(a, b) && IsSubseq(b, c)
    ensures IsSubseq(a, c)
    decreases |c|
  {
    if a != [] {
      if IsSubseq(b, c[1..]) {
        SubseqTrans(a, b, c[1..]);
      } else if a[0] == b[0] && IsSubseq(a[1..], b[1..]) {
        SubseqTrans(a[1..], b[1..], c[1..]);
      } else {
        SubseqTrans(a, b[1..], c[1..]);
      }
    }
  }

  lemma {:induction false} PrefixIsSubseq<T>(s: seq<T>, n: nat)
    requires n <= |s|
    ensures IsSubseq(s[..n], s)
    decreases |s|
  {
    if n > 0 {
      assert s[..n][1..] == s[1..][..n - 1];
      PrefixIsSubseq(s[1..], n - 1);
    }
  }

  /** `Array.prototype.filter`: the elements satisfying `f`, in their original order. */
  function Filter<T>(s: seq<T>, f: T -> bool): (r: seq<T>)
    ensures |r| <= |s|
    ensures forall i :: 0 <= i < |r| ==> r[i] in s && f(r[i])
    ensures forall i :: 0 <= i < |s| && f(s[i]) ==> s[i] in r
  {
    if s == [] then []
    else if f(s[0]) then [s[0]] + Filter(s[1..], f)
    else Filter(s[1..], f)
  }

  /** A filter keeps every copy of a kept element: `x` occurs in the result
      as often as in `s` when `f(x)`, and not at all otherwise. */
  lemma {:induction false} FilterMultiset<T>(s: seq<T>, f: T -> bool, x: T)
    ensures multiset(Filter(s, f))[x] == if f(x) then multiset(s)[x] else 0
  {
    if s != [] {
      var rest := Filter(s[1..], f);
      FilterMultiset(s[1..], f, x);
      assert s == [s[0]] + s[1..];
      assert multiset(s) == multiset{s[0]} + multiset(s[1..]);
      if f(s[0]) {
        assert Filter(s, f) == [s[0]] + rest;
        assert multiset(Filter(s, f)) == multiset{s[0]} + multiset(rest);
      } else {
        assert Filter(s, f) == rest;
      }
    }
  }

  /** `FilterMultiset` for every element at once. */
  lemma FilterCounts<T(!new)>(s: seq<T>, f: T -> bool)
    ensures forall x :: multiset(Filter(s, f))[x] == if f(x) then multiset(s)[x] else 0
  {
    forall x ensures multiset(Filter(s, f))[x] == if f(x) then multiset(s)[x] else 0 {
      FilterMultiset(s, f, x);
    }
  }

  lemma {:induction false} FilterIsSubseq<T>(s: seq<T>, f: T -> bool)
    ensures IsSubseq(Filter(s, f), s)
    decreases |s|
  {
    if s != [] {
      FilterIsSubseq(s[1..], f);
    }
  }

  /** Filtering with two tests that agree everywhere gives the same list. */
  lemma {:induction false} FilterSame<T>(s: seq<T>, f: T -> bool, g: T -> bool)
    requires forall x :: f(x) == g(x)
    ensures Filter(s, f) == Filter(s, g)
    decreases |s|
  {
    if s != [] {
      FilterSame(s[1..], f, g);
    }
  }

  /** No two elements share a key. */
  predicate DistinctBy<T, K(==)>(s: seq<T>, key: T -> K) {
    forall i, j :: 0 <= i < j < |s| ==> key(s[i]) != key(s[j])
  }

  /** Filtering keeps keys distinct. */
  lemma {:induction false} FilterDistinctBy<T, K>(s: seq<T>, f: T -> bool, key: T -> K)
    requires DistinctBy(s, key)
    ensures DistinctBy(Filter(s, f), key)
    decreases |s|
  {
    if s != [] {
      var rest := Filter(s[1..], f);
      FilterDistinctBy(s[1..], f, key);
      if f(s[0]) {
        forall j | 0 <= j < |rest| ensures key(rest[j]) != key(s[0]) {
          var k :| 0 <= k < |s[1..]| && s[1..][k] == rest[j];
          assert s[k + 1] == rest[j];
        }
        var r := [s[0]] + rest;
        forall i, j | 0 <= i < j < |r| ensures key(r[i]) != key(r[j]) {
          assert r[j] == rest[j - 1];
          if i > 0 {
            assert r[i] == rest[i - 1];
          }
        }
      }
    }
  }

  /** `flatMap`: the lists `f` gives for each element, one after another. */
  function FlatMap<A, B>(s: seq<A>, f: A -> seq<B>): seq<B>
    decreases |s|
  {
    if s == [] then [] else f(s[0]) + FlatMap(s[1..], f)
  }

  lemma {:induction false} FlatMapAppend<A, B>(a: seq<A>, b: seq<A>, f: A -> seq<B>)
    ensures FlatMap(a + b, f) == FlatMap(a, f) + FlatMap(b, f)
    decreases |a|
  {
    if a == [] {
      assert a + b == b;
    } else {
      assert (a + b)[0] == a[0];
      assert (a + b)[1..] == a[1..] + b;
      FlatMapAppend(a[1..], b, f);
    }
  }

  /** What holds of every output of `f` holds of every element of the flat map. */
  lemma {:induction false} FlatMapAll<A, B>(s: seq<A>, f: A -> seq<B>, p: B -> bool)
    requires forall x, k :: 0 <= k < |f(x)| ==> p(f(x)[k])
    ensures forall k :: 0 <= k < |FlatMap(s, f)| ==> p(FlatMap(s, f)[k])
    decreases |s|
  {
    if s != [] {
      var h := f(s[0]);
      var rest := FlatMap(s[1..], f);
      FlatMapAll(s[1..], f, p);
      forall k | 0 <= k < |h + rest| ensures p((h + rest)[k]) {
        if k < |h| {
          assert (h + rest)[k] == h[k];
        } else {
          assert (h + rest)[k] == rest[k - |h|];
        }
      }
    }
  }

  /** When `f` gives one output for the elements passing `p` and none for the
      others, the flat map is as long as the filter. */
  lemma {:induction false} FlatMapCount<A, B>(s: seq<A>, f: A -> seq<B>, p: A -> bool)
    requires forall x :: |f(x)| == if p(x) then 1 else 0
    ensures |FlatMap(s, f)| == |Filter(s, p)|
    decreases |s|
  {
    if s != [] {
      FlatMapCount(s[1..], f, p);
    }
  }

  /** Where `Array.prototype.slice` starts or stops for an index argument `k`
      on a list of length `n`: negative arguments count from the end, and
      the result is clamped to `[0, n]`. */
  function SliceIndex(k: int, n: nat): (r: nat)
    ensures r <= n
  {
    if k < 0 then (if n + k < 0 then 0 else n + k)
    else if k < n then k else n
  }

  /** `s.slice(start, end)`. */
  function JsSlice<T>(s: seq<T>, start: int, end: int): (r: seq<T>)
    ensures |r| <= |s|
    ensures 0 <= start <= end ==> |r| == SliceIndex(end, |s|) - SliceIndex(start, |s|)
    ensures forall i :: 0 <= i < |r| ==> SliceIndex(start, |s|) + i < |s| && r[i] == s[SliceIndex(start, |s|) + i]
  {
    var a := SliceIndex(start, |s|);
    var b := SliceIndex(end, |s|);
    if a < b then s[a..b] else []
  }

  /** `s.slice(0, n)` for a non-negative `n` is the prefix of length `min(n, |s|)`. */
  lemma PrefixSlice<T>(s: seq<T>, n: int)
    requires 0 <= n
    ensures JsSlice(s, 0, n) == if n < |s| then s[..n] else s
  {
  }

  /** No element occurs twice. */
  predicate NoDup<T(==)>(s: seq<T>) {
    forall i, j :: 0 <= i < j < |s| ==> s[i] != s[j]
  }

  /** One step of adding `x` to an insertion-ordered JavaScript `Set` held as `acc`. */
  function AddNew<T(==)>(acc: seq<T>, x: T): seq<T> {
    if x in acc then acc else acc + [x]
  }

  /** The insertion-ordered contents of a JavaScript `Set` that starts as `acc`
      and is then given the elements of `s` one by one. */
  function AddAll<T(==)>(acc: seq<T>, s: seq<T>): seq<T>
    decreases |s|
  {
    if s == [] then acc else AddNew(AddAll(acc, s[..|s| - 1]), s[|s| - 1])
  }

  lemma {:induction false} AddAllPrefix<T>(acc: seq<T>, s: seq<T>)
    ensures |acc| <= |AddAll(acc, s)| && AddAll(acc, s)[..|acc|] == acc
    decreases |s|
  {
    if s != [] {
      AddAllPrefix(acc, s[..|s| - 1]);
    }
  }

  lemma {:induction false} AddAllMembers<T>(acc: seq<T>, s: seq<T>)
    ensures forall x :: x in AddAll(acc, s) <==> x in acc || x in s
    decreases |s|
  {
    if s != [] {
      var init := s[..|s| - 1];
      AddAllMembers(acc, init);
      assert s == init + [s[|s| - 1]];
    }
  }

  lemma {:induction false} AddAllNoDup<T>(acc: seq<T>, s: seq<T>)
    requires NoDup(acc)
    ensures NoDup(AddAll(acc, s))
    decreases |s|
  {
    if s != [] {
      AddAllNoDup(acc, s[..|s| - 1]);
    }
  }

  lemma {:induction false} AddAllOrder<T>(acc: seq<T>, s: seq<T>)
    ensures |acc| <= |AddAll(acc, s)|
    ensures IsSubseq(AddAll(acc, s)[|acc|..], s)
    decreases |s|
  {
    AddAllPrefix(acc, s);
    if s != [] {
      var init := s[..|s| - 1];
      var last := s[|s| - 1];
      AddAllOrder(acc, init);
      AddAllPrefix(acc, init);
      var r0 := AddAll(acc, init);
      assert s == init + [last];
      if last !in r0 {
        assert (r0 + [last])[|acc|..] == r0[|acc|..] + [last];
        SubseqAppend(r0[|acc|..], init, last);
      } else {
        SubseqGrow(r0[|acc|..], init, last);
      }
    }
  }

  /** The position of the first occurrence of `x` in `s`, or `|s|` when `x` does not occur. */
  function FirstIndex<T(==)>(s: seq<T>, x: T): (n: nat)
    ensures n <= |s|
    ensures n < |s| ==> s[n] == x
    ensures n == |s| <==> x !in s
    ensures forall k :: 0 <= k < n ==> s[k] != x
  {
    if s == [] then 0
    else if s[0] == x then 0
    else 1 + FirstIndex(s[1..], x)
  }

  /** Appending an element leaves the first position of what already occurs unchanged. */
  lemma FirstIndexAppend<T>(s: seq<T>, y: T, x: T)
    requires x in s
    ensures FirstIndex(s + [y], x) == FirstIndex(s, x)
  {
    var n := FirstIndex(s, x);
    var m := FirstIndex(s + [y], x);
    assert (s + [y])[n] == x;
    assert m <= n;
    assert s[m] == (s + [y])[m];
  }

  /** The elements `AddAll` adds after `acc` are those of `s` not in `acc`,
      listed in the order of their first occurrence in `s`. */
  lemma {:induction false} AddAllFirstSeen<T>(acc: seq<T>, s: seq<T>)
    ensures |acc| <= |AddAll(acc, s)|
    ensures forall i :: |acc| <= i < |AddAll(acc, s)| ==> AddAll(acc, s)[i] in s && AddAll(acc, s)[i] !in acc
    ensures forall i, j :: |acc| <= i < j < |AddAll(acc, s)| ==>
      FirstIndex(s, AddAll(acc, s)[i]) < FirstIndex(s, AddAll(acc, s)[j])
    decreases |s|
  {
    AddAllPrefix(acc, s);
    if s != [] {
      var init := s[..|s| - 1];
      var last := s[|s| - 1];
      AddAllFirstSeen(acc, init);
      AddAllPrefix(acc, init);
      AddAllMembers(acc, init);
      var r0 := AddAll(acc, init);
      var r := AddAll(acc, s);
      assert s == init + [last];
      forall i | |acc| <= i < |r0|
        ensures FirstIndex(s, r0[i]) == FirstIndex(init, r0[i]) < |init|
      {
        FirstIndexAppend(init, last, r0[i]);
      }
      if last !in r0 {
        assert last !in init;
        assert FirstIndex(s, last) == |init|;
      }
    }
  }

  lemma {:induction false} SubseqAppend<T>(a: seq<T>, b: seq<T>, x: T)
    requires IsSubseq(a, b)
    ensures IsSubseq(a + [x], b + [x])
    decreases |b|
  {
    if a == [] {
      assert a + [x] == [x];
      SubseqSingletonEnd(b, x);
    } else if b == [] {
      assert false;
    } else if IsSubseq(a, b[1..]) {
      assert (b + [x])[1..] == b[1..] + [x];
      SubseqAppend(a, b[1..], x);
    } else {
      assert (a + [x])[1..] == a[1..] + [x];
      assert (b + [x])[1..] == b[1..] + [x];
      SubseqAppend(a[1..], b[1..], x);
    }
  }

  lemma {:induction false} SubseqSingletonEnd<T>(b: seq<T>, x: T)
    ensures IsSubseq([x], b + [x])
    decreases |b|
  {
    if b == [] {
      assert [x][1..] == [];
    } else {
      assert (b + [x])[1..] == b[1..] + [x];
      SubseqSingletonEnd(b[1..], x);
    }
  }

  lemma {:induction false} SubseqGrow<T>(a: seq<T>, b: seq<T>, x: T)
    requires IsSubseq(a, b)
    ensures IsSubseq(a, b + [x])
    decreases |b|
  {
    if a != [] {
      assert (b + [x])[1..] == b[1..] + [x];
      if IsSubseq(a, b[1..]) {
        SubseqGrow(a, b[1..], x);
      } else {
        SubseqGrow(a[1..], b[1..], x);
      }
    }
  }
}
