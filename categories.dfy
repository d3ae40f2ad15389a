/** The category helpers of `src/data/blogData/categories.ts`: the seed list,
    the ordered union of every category in use, the every-tenth-post test,
    the zero-seeded category counts and the inference of categories for a
    post that has none. */
module Categories {
  import opened Seqs
  import opened Text
  import opened StableSort
  import opened BlogTypes
  import opened Tally

  /** The four categories the site starts with, in display order. */
  const InitialCategories: seq<string> :=
    ["AI Agents and Automations", "AI Tools", "My Experiences", "AI Prompting"]

  lemma InitialCategoriesDistinct()
    ensures NoDup(InitialCategories)
  {
    assert InitialCategories[0][3] != InitialCategories[1][3];
    assert InitialCategories[0][3] != InitialCategories[3][3];
    assert InitialCategories[1][3] != InitialCategories[3][3];
    assert InitialCategories[0][0] != InitialCategories[2][0];
    assert InitialCategories[1][0] != InitialCategories[2][0];
    assert InitialCategories[3][0] != InitialCategories[2][0];
  }

  /** Every post category occurs among the entries. */
  lemma {:induction false} EntriesHold(posts: seq<BlogPost>, i: nat, k: nat)
    requires i < |posts| && k < |posts[i].categories|
    ensures posts[i].categories[k] in Entries(posts)
    decreases |posts|
  {
    var last := |posts| - 1;
    if i < last {
      EntriesHold(posts[..last], i, k);
    }
  }

  /** Every entry is a category of some post. */
  lemma {:induction false} EntriesFrom(posts: seq<BlogPost>, x: string)
    requires x in Entries(posts)
    ensures exists i, k :: 0 <= i < |posts| && 0 <= k < |posts[i].categories| && posts[i].categories[k] == x
    decreases |posts|
  {
    var last := |posts| - 1;
    if x in Entries(posts[..last]) {
      EntriesFrom(posts[..last], x);
      var i, k :| 0 <= i < last && 0 <= k < |posts[..last][i].categories| && posts[..last][i].categories[k] == x;
      assert posts[i].categories[k] == x;
    } else {
      var k :| 0 <= k < |posts[last].categories| && posts[last].categories[k] == x;
    }
  }

  /** `getAllCategories`: a `Set` seeded with the initial categories and then
      given every category of every post, read back in insertion order. */
  method GetAllCategories(posts: seq<BlogPost>) returns (r: seq<string>)
    ensures r == AddAll(InitialCategories, Entries(posts))
  {
    r := InitialCategories;
    ghost var seen: seq<string> := [];
    var i := 0;
    while i < |posts|
      invariant 0 <= i <= |posts|
      invariant seen == Entries(posts[..i])
      invariant r == AddAll(InitialCategories, seen)
    {
      var cats := posts[i].categories;
      EntriesStep(posts, i);
      ghost var target := seen + cats;
      var j := 0;
      while j < |cats|
        invariant 0 <= j <= |cats|
        invariant seen + cats[j..] == target
        invariant r == AddAll(InitialCategories, seen)
      {
        var c := cats[j];
        assert (seen + [c])[..|seen|] == seen;
        if c !in r {
          r := r + [c];
        }
        ConsAssoc(seen, c, cats, j);
        seen := seen + [c];
        j := j + 1;
      }
      i := i + 1;
    }
    assert posts[..|posts|] == posts;
  }

  /** The union starts with the initial categories in order, holds every
      category of every post and nothing else, holds each name once, and
      lists the new names in the order they were first seen. */
  lemma AllCategoriesProps(posts: seq<BlogPost>)
    ensures var r := AddAll(InitialCategories, Entries(posts));
      && |InitialCategories| <= |r|
      && r[..|InitialCategories|] == InitialCategories
      && (forall i, k :: 0 <= i < |posts| && 0 <= k < |posts[i].categories| ==> posts[i].categories[k] in r)
      && (forall x :: x in r ==> x in InitialCategories || x in Entries(posts))
      && NoDup(r)
      && IsSubseq(r[|InitialCategories|..], Entries(posts))
      && (forall i, j :: |InitialCategories| <= i < j < |r| ==>
            FirstIndex(Entries(posts), r[i]) < FirstIndex(Entries(posts), r[j]))
  {
    var e := Entries(posts);
    AddAllPrefix(InitialCategories, e);
    AddAllMembers(InitialCategories, e);
    InitialCategoriesDistinct();
    AddAllNoDup(InitialCategories, e);
    AddAllOrder(InitialCategories, e);
    AddAllFirstSeen(InitialCategories, e);
    forall i, k | 0 <= i < |posts| && 0 <= k < |posts[i].categories|
      ensures posts[i].categories[k] in AddAll(InitialCategories, e)
    {
      EntriesHold(posts, i, k);
    }
  }

  /** `shouldUpdateCategories`: every tenth post count, the empty list included. */
  predicate ShouldUpdateCategories(posts: seq<BlogPost>) {
    |posts| % 10 == 0
  }

  /** Adding ten posts never changes the answer, and it is yes for no posts. */
  lemma ShouldUpdatePeriodic(posts: seq<BlogPost>, more: seq<BlogPost>)
    requires |more| == 10
    ensures ShouldUpdateCategories(posts + more) == ShouldUpdateCategories(posts)
    ensures ShouldUpdateCategories([])
  {
  }

  /** Of any ten consecutive list lengths exactly one triggers an update. */
  lemma ShouldUpdateOncePerTen(n: nat, posts: seq<BlogPost>)
    requires n <= |posts| < n + 10
    ensures ShouldUpdateCategories(posts) <==> |posts| == n + (10 - n % 10) % 10
  {
  }

  /** `getCategoriesWithCounts`: a `Map` seeded with the initial categories at
      zero, then counting every entry, read back in insertion order and sorted
      by count, largest first. */
  method GetCategoriesWithCounts(posts: seq<BlogPost>) returns (r: seq<CategoryCount>)
    ensures var names := AddAll(InitialCategories, Entries(posts));
      r == Ranked(names, CountMap(names, Entries(posts)))
    ensures forall k :: 0 <= k < |InitialCategories| ==>
      exists i :: 0 <= i < |r| && r[i].name == InitialCategories[k]
    ensures forall i, k :: 0 <= i < |posts| && 0 <= k < |posts[i].categories| ==>
      exists j :: 0 <= j < |r| && r[j].name == posts[i].categories[k]
    ensures forall i :: 0 <= i < |r| ==> r[i].count == multiset(Entries(posts))[r[i].name]
    ensures forall i, j :: 0 <= i < j < |r| ==> r[i].name != r[j].name
    ensures Descending(r, CountOf)
    ensures SumBy(r, CountOf) == |Entries(posts)|
  {
    var names, counts := CountCategories(InitialCategories, posts);
    r := Ranked(names, counts);
    InitialCategoriesDistinct();
    RankedProps(InitialCategories, posts, names, counts);
    CountsCover(posts);
  }

  /** The ranked counts list every initial category and every post category. */
  lemma CountsCover(posts: seq<BlogPost>)
    ensures var names := AddAll(InitialCategories, Entries(posts));
      var r := Ranked(names, CountMap(names, Entries(posts)));
      && (forall k :: 0 <= k < |InitialCategories| ==>
            exists i :: 0 <= i < |r| && r[i].name == InitialCategories[k])
      && (forall i, k :: 0 <= i < |posts| && 0 <= k < |posts[i].categories| ==>
            exists j :: 0 <= j < |r| && r[j].name == posts[i].categories[k])
  {
    var e := Entries(posts);
    var names := AddAll(InitialCategories, e);
    InitialCategoriesDistinct();
    RankedProps(InitialCategories, posts, names, CountMap(names, e));
    AddAllPrefix(InitialCategories, e);
    forall k | 0 <= k < |InitialCategories| ensures InitialCategories[k] in names {
      assert names[k] == InitialCategories[k];
    }
    AddAllMembers(InitialCategories, e);
    forall i, k | 0 <= i < |posts| && 0 <= k < |posts[i].categories|
      ensures posts[i].categories[k] in names
    {
      EntriesHold(posts, i, k);
    }
  }

  /** Whether the lower-cased category occurs in the lower-cased content or title. */
  predicate Mentions(post: BlogPost, category: string) {
    var c := LowerStr(category);
    Contains(LowerStr(post.content), c) || Contains(LowerStr(post.title), c)
  }

  /** `getRelevantCategories`: the post's own categories when it has any,
      otherwise those of `allCategories` that the post mentions. */
  function GetRelevantCategories(post: BlogPost, allCategories: seq<string>): (r: seq<string>)
    ensures |post.categories| > 0 ==> r == post.categories
    ensures |post.categories| == 0 ==>
      && IsSubseq(r, allCategories)
      && (forall i :: 0 <= i < |r| ==> Mentions(post, r[i]))
      && (forall i :: 0 <= i < |allCategories| && Mentions(post, allCategories[i]) ==> allCategories[i] in r)
      && (forall c :: multiset(r)[c] == if Mentions(post, c) then multiset(allCategories)[c] else 0)
  {
    if |post.categories| > 0 then post.categories
    else
      FilterIsSubseq(allCategories, (c: string) => Mentions(post, c));
      FilterCounts(allCategories, (c: string) => Mentions(post, c));
      Filter(allCategories, (c: string) => Mentions(post, c))
  }

  /** Inference ignores letter case: two spellings that lower-case alike are
      either both chosen or both left out. */
  lemma RelevantIgnoresCase(post: BlogPost, a: string, b: string)
    requires |post.categories| == 0
    requires LowerStr(a) == LowerStr(b)
    ensures a in GetRelevantCategories(post, [a, b]) <==> b in GetRelevantCategories(post, [a, b])
  {
    var r := GetRelevantCategories(post, [a, b]);
    assert Mentions(post, a) == Mentions(post, b);
    if a in r {
      var i :| 0 <= i < |r| && r[i] == a;
      assert Mentions(post, a);
      assert [a, b][1] == b;
    }
    if b in r {
      var i :| 0 <= i < |r| && r[i] == b;
      assert Mentions(post, b);
      assert [a, b][0] == a;
    }
  }
}
