/** Counting category entries across posts, the nested `forEach` loops behind
    `BlogManager.getAllCategories` (a `Record` that starts empty) and
    `getCategoriesWithCounts` (a `Map` seeded with zero counts), followed by the
    descending sort on the count. */
module Tally {
  import opened Seqs
  import opened StableSort
  import opened BlogTypes

  /** Every category entry of every post, post by post (duplicates kept). */
  function Entries(posts: seq<BlogPost>): seq<string>
    decreases |posts|
  {
    if posts == [] then [] else Entries(posts[..|posts| - 1]) + posts[|posts| - 1].categories
  }

  datatype CategoryCount = CategoryCount(name: string, count: int)

  function CountOf(c: CategoryCount): int { c.count }

  function NameOf(c: CategoryCount): string { c.name }

  /** The sum of the counts of `names`, taken from the last name backwards. */
  function SumCounts(names: seq<string>, counts: map<string, int>): int
    requires forall i :: 0 <= i < |names| ==> names[i] in counts
  {
    if names == [] then 0
    else SumCounts(names[..|names| - 1], counts) + counts[names[|names| - 1]]
  }

  lemma {:induction false} SumCountsOutside(names: seq<string>, counts: map<string, int>, c: string, v: int)
    requires forall i :: 0 <= i < |names| ==> names[i] in counts
    requires c !in names
    ensures SumCounts(names, counts[c := v]) == SumCounts(names, counts)
  {
    if names != [] {
      SumCountsOutside(names[..|names| - 1], counts, c, v);
    }
  }

  lemma {:induction false} SumCountsBump(names: seq<string>, counts: map<string, int>, c: string)
    requires forall i :: 0 <= i < |names| ==> names[i] in counts
    requires NoDup(names) && c in names
    ensures SumCounts(names, counts[c := counts[c] + 1]) == SumCounts(names, counts) + 1
  {
    var init := names[..|names| - 1];
    var last := names[|names| - 1];
    if last == c {
      assert c !in init;
      SumCountsOutside(init, counts, c, counts[c] + 1);
    } else {
      assert c in init;
      SumCountsBump(init, counts, c);
    }
  }

  /** The count of each of `names` among the entries `seen`. */
  function CountMap(names: seq<string>, seen: seq<string>): (m: map<string, int>)
    ensures forall i :: 0 <= i < |names| ==> names[i] in m
  {
    map n | n in names :: multiset(seen)[n]
  }

  /** The record after counting the entries `seen`, starting from `seed` at zero:
      its key order is the seed, then every other category at its first
      occurrence, and each count is the number of occurrences of its name. */
  predicate Tallied(seed: seq<string>, seen: seq<string>, names: seq<string>, counts: map<string, int>) {
    names == AddAll(seed, seen) && counts == CountMap(names, seen)
  }

  /** Counting one more entry `c`: a known name goes up by one, a new name is
      appended with count one. */
  lemma TallyStep(seed: seq<string>, seen: seq<string>, c: string, names: seq<string>, counts: map<string, int>)
    requires Tallied(seed, seen, names, counts)
    ensures c in counts ==> Tallied(seed, seen + [c], names, counts[c := counts[c] + 1])
    ensures c !in counts ==> Tallied(seed, seen + [c], names + [c], counts[c := 1])
  {
    if c in counts {
      TallyKnown(seed, seen, c, names, counts);
    } else {
      TallyNew(seed, seen, c, names, counts);
    }
  }

  lemma TallyKnown(seed: seq<string>, seen: seq<string>, c: string, names: seq<string>, counts: map<string, int>)
    requires Tallied(seed, seen, names, counts) && c in counts
    ensures Tallied(seed, seen + [c], names, counts[c := counts[c] + 1])
  {
    var next := seen + [c];
    assert next[..|next| - 1] == seen;
    assert c in names;
    assert AddAll(seed, next) == names;
    assert multiset(next) == multiset(seen) + multiset{c};
    var m := counts[c := counts[c] + 1];
    var want := CountMap(names, next);
    forall n | n in names ensures m[n] == want[n] {
    }
    assert m.Keys == want.Keys;
  }

  lemma TallyNew(seed: seq<string>, seen: seq<string>, c: string, names: seq<string>, counts: map<string, int>)
    requires Tallied(seed, seen, names, counts) && c !in counts
    ensures Tallied(seed, seen + [c], names + [c], counts[c := 1])
  {
    var next := seen + [c];
    assert next[..|next| - 1] == seen;
    assert c !in names;
    assert AddAll(seed, next) == names + [c];
    AddAllMembers(seed, seen);
    assert c !in seen;
    assert multiset(next) == multiset(seen) + multiset{c};
    var m := counts[c := 1];
    var want := CountMap(names + [c], next);
    forall n | n in names + [c] ensures m[n] == want[n] {
    }
    assert m.Keys == want.Keys;
  }

  /** The counts of a tally add up to the number of entries counted. */
  lemma {:induction false} TallySum(seed: seq<string>, seen: seq<string>)
    requires NoDup(seed)
    ensures var names := AddAll(seed, seen);
      SumCounts(names, CountMap(names, seen)) == |seen|
  {
    var names := AddAll(seed, seen);
    if seen == [] {
      ZeroSum(seed, CountMap(seed, seen));
    } else {
      var prev := seen[..|seen| - 1];
      var c := seen[|seen| - 1];
      assert prev + [c] == seen;
      var before := AddAll(seed, prev);
      var counts := CountMap(before, prev);
      TallySum(seed, prev);
      AddAllNoDup(seed, prev);
      TallyStep(seed, prev, c, before, counts);
      if c in counts {
        SumCountsBump(before, counts, c);
      } else {
        SumCountsOutside(before, counts, c, 1);
        assert (before + [c])[..|before|] == before;
      }
    }
  }

  /** The nested loops: every category of every post is counted once. */
  method CountCategories(seed: seq<string>, posts: seq<BlogPost>)
    returns (names: seq<string>, counts: map<string, int>)
    ensures Tallied(seed, Entries(posts), names, counts)
  {
    names := seed;
    counts := map n | n in seed :: 0;
    ghost var seen: seq<string> := [];
    var i := 0;
    while i < |posts|
      invariant 0 <= i <= |posts|
      invariant seen == Entries(posts[..i])
      invariant Tallied(seed, seen, names, counts)
    {
      var cats := posts[i].categories;
      EntriesStep(posts, i);
      ghost var target := seen + cats;
      var j := 0;
      while j < |cats|
        invariant 0 <= j <= |cats|
        invariant seen + cats[j..] == target
        invariant Tallied(seed, seen, names, counts)
      {
        var c := cats[j];
        TallyStep(seed, seen, c, names, counts);
        if c in counts {
          counts := counts[c := counts[c] + 1];
        } else {
          names := names + [c];
          counts := counts[c := 1];
        }
        ConsAssoc(seen, c, cats, j);
        seen := seen + [c];
        j := j + 1;
      }
      i := i + 1;
    }
    assert posts[..|posts|] == posts;
  }

  lemma ConsAssoc(seen: seq<string>, c: string, cats: seq<string>, j: nat)
    requires j < |cats| && cats[j] == c
    ensures (seen + [c]) + cats[j + 1..] == seen + cats[j..]
  {
    assert cats[j..] == [c] + cats[j + 1..];
  }

  lemma EntriesStep(posts: seq<BlogPost>, i: nat)
    requires i < |posts|
    ensures Entries(posts[..i + 1]) == Entries(posts[..i]) + posts[i].categories
  {
    assert posts[..i + 1][..i] == posts[..i];
  }

  lemma {:induction false} ZeroSum(names: seq<string>, counts: map<string, int>)
    requires forall i :: 0 <= i < |names| ==> names[i] in counts && counts[names[i]] == 0
    ensures SumCounts(names, counts) == 0
  {
    if names != [] {
      ZeroSum(names[..|names| - 1], counts);
    }
  }

  /** `Object.entries(...)` / `Array.from(map.entries())` mapped to `{ name, count }`. */
  function Pairs(names: seq<string>, counts: map<string, int>): (r: seq<CategoryCount>)
    requires forall i :: 0 <= i < |names| ==> names[i] in counts
    ensures |r| == |names|
    ensures forall i :: 0 <= i < |r| ==> r[i] == CategoryCount(names[i], counts[names[i]])
  {
    seq(|names|, i requires 0 <= i < |names| => CategoryCount(names[i], counts[names[i]]))
  }

  lemma {:induction false} SumPairs(names: seq<string>, counts: map<string, int>)
    requires forall i :: 0 <= i < |names| ==> names[i] in counts
    ensures SumBy(Pairs(names, counts), CountOf) == SumCounts(names, counts)
  {
    if names != [] {
      var init := names[..|names| - 1];
      SumPairs(init, counts);
      SumBySnoc(Pairs(init, counts), CategoryCount(names[|names| - 1], counts[names[|names| - 1]]), CountOf);
      assert Pairs(names, counts) ==
             Pairs(init, counts) + [CategoryCount(names[|names| - 1], counts[names[|names| - 1]])];
    }
  }

  lemma {:induction false} SumBySnoc<T>(s: seq<T>, x: T, f: T -> int)
    ensures SumBy(s + [x], f) == SumBy(s, f) + f(x)
  {
    if s != [] {
      assert (s + [x])[1..] == s[1..] + [x];
      SumBySnoc(s[1..], x, f);
    } else {
      assert s + [x] == [x];
    }
  }

  /** The tally as a list sorted by count, largest first; ties keep key order. */
  function Ranked(names: seq<string>, counts: map<string, int>): seq<CategoryCount>
    requires forall i :: 0 <= i < |names| ==> names[i] in counts
  {
    SortDesc(Pairs(names, counts), CountOf)
  }

  /** The sorted list holds each name exactly once, with its own count. */
  lemma RankedEntries(names: seq<string>, counts: map<string, int>)
    requires forall i :: 0 <= i < |names| ==> names[i] in counts
    requires NoDup(names)
    ensures var r := Ranked(names, counts);
      && |r| == |names|
      && (forall i :: 0 <= i < |r| ==> r[i].name in names && r[i].name in counts && r[i].count == counts[r[i].name])
      && (forall n :: n in names ==> exists i :: 0 <= i < |r| && r[i].name == n)
      && (forall i, j :: 0 <= i < j < |r| ==> r[i].name != r[j].name)
  {
    var p := Pairs(names, counts);
    var r := Ranked(names, counts);
    SortDescPerm(p, CountOf);
    assert NoDup(p) by {
      forall i, j | 0 <= i < j < |p| ensures p[i] != p[j] {
        assert p[i].name == names[i] && p[j].name == names[j];
      }
    }
    PermNoDup(p, r);
    forall i | 0 <= i < |r|
      ensures r[i].name in names && r[i].name in counts && r[i].count == counts[r[i].name]
    {
      assert r[i] in multiset(p);
      var k :| 0 <= k < |p| && p[k] == r[i];
    }
    forall n | n in names ensures exists i :: 0 <= i < |r| && r[i].name == n {
      var k :| 0 <= k < |names| && names[k] == n;
      assert p[k] in multiset(r);
      var i :| 0 <= i < |r| && r[i] == p[k];
    }
  }

  /** What the sorted tally holds: every tallied name exactly once with its
      number of occurrences, by count largest first, counts summing to the
      number of entries. */
  lemma RankedProps(seed: seq<string>, posts: seq<BlogPost>, names: seq<string>, counts: map<string, int>)
    requires NoDup(seed)
    requires Tallied(seed, Entries(posts), names, counts)
    ensures var r := Ranked(names, counts);
      && |r| == |names|
      && (forall i :: 0 <= i < |r| ==> r[i].name in names && r[i].count == multiset(Entries(posts))[r[i].name])
      && (forall n :: n in names ==> exists i :: 0 <= i < |r| && r[i].name == n)
      && (forall i, j :: 0 <= i < j < |r| ==> r[i].name != r[j].name)
      && Descending(r, CountOf)
      && SumBy(r, CountOf) == |Entries(posts)|
  {
    var p := Pairs(names, counts);
    AddAllNoDup(seed, Entries(posts));
    RankedEntries(names, counts);
    SortDescSorted(p, CountOf);
    SortDescSum(p, CountOf, CountOf);
    SumPairs(names, counts);
    TallySum(seed, Entries(posts));
  }
}
