/** The blog query layer of `src/data/blogData/BlogManager.ts`: a date-sorted
    copy of the post list and the queries the pages run against it. */
module BlogQueries {
  import opened Wrappers
  import opened Seqs
  import opened Text
  import opened StableSort
  import opened BlogTypes
  import opened Tally

  /** `new Date(p.publishedAt).getTime()`, given the date parser `time`. */
  function ByDate(time: string -> int): BlogPost -> int {
    (p: BlogPost) => time(p.publishedAt)
  }

  /** The constructor's sort: newest first, a permutation of the data, and
      posts with equal dates keep their load order. */
  lemma SortByDateProps(data: seq<BlogPost>, time: string -> int)
    ensures var r := SortDesc(data, ByDate(time));
      && Descending(r, ByDate(time))
      && multiset(r) == multiset(data)
      && |r| == |data|
      && (forall k :: WithKey(r, ByDate(time), k) == WithKey(data, ByDate(time), k))
  {
    SortDescSorted(data, ByDate(time));
    SortDescPerm(data, ByDate(time));
    forall k ensures WithKey(SortDesc(data, ByDate(time)), ByDate(time), k) == WithKey(data, ByDate(time), k) {
      SortDescStable(data, ByDate(time), k);
    }
  }

  /** Some category of `post` lower-cases to the lower-cased `category`. */
  predicate InCategory(post: BlogPost, category: string) {
    exists k :: 0 <= k < |post.categories| && LowerStr(post.categories[k]) == LowerStr(category)
  }

  /** A post paired with its relatedness score. */
  datatype ScoredPost = ScoredPost(post: BlogPost, score: int)

  function ScoreOf(s: ScoredPost): int { s.score }

  /** How many entries of `cats` occur (exactly) among `other`'s categories. */
  function Shared(cats: seq<string>, other: BlogPost): (n: nat)
    ensures n <= |cats|
    ensures n == 0 <==> forall k :: 0 <= k < |cats| ==> cats[k] !in other.categories
  {
    if cats == [] then 0
    else Shared(cats[..|cats| - 1], other) + (if cats[|cats| - 1] in other.categories then 1 else 0)
  }

  /** Two points for every category of `post` that `other` also carries. */
  function RelatedScore(post: BlogPost, other: BlogPost): int {
    2 * Shared(post.categories, other)
  }

  /** The `map` callback of `getRelatedBlogPosts`: two points for each of
      `post`'s categories that `otherPost` also has. */
  method ScorePost(post: BlogPost, otherPost: BlogPost) returns (score: int)
    ensures score == RelatedScore(post, otherPost)
  {
    score := 0;
    var j := 0;
    while j < |post.categories|
      invariant 0 <= j <= |post.categories|
      invariant score == 2 * Shared(post.categories[..j], otherPost)
    {
      assert post.categories[..j + 1][..j] == post.categories[..j];
      if post.categories[j] in otherPost.categories {
        score := score + 2;
      }
      j := j + 1;
    }
    assert post.categories[..j] == post.categories;
  }

  /** Each of `ps` paired with its score against `post`, in order. */
  function ScoreAll(post: BlogPost, ps: seq<BlogPost>): (r: seq<ScoredPost>)
    ensures |r| == |ps|
    ensures forall m :: 0 <= m < |r| ==> r[m] == ScoredPost(ps[m], RelatedScore(post, ps[m]))
  {
    if ps == [] then [] else [ScoredPost(ps[0], RelatedScore(post, ps[0]))] + ScoreAll(post, ps[1..])
  }

  /** The posts of scored entries, in order (`.map(item => item.post)`). */
  function PostsOf(s: seq<ScoredPost>): (r: seq<BlogPost>)
    ensures |r| == |s|
    ensures forall m :: 0 <= m < |r| ==> r[m] == s[m].post
  {
    if s == [] then [] else [s[0].post] + PostsOf(s[1..])
  }

  /** Posts whose score against `post` is exactly `k`. */
  function ScoresExactly(post: BlogPost, k: int): BlogPost -> bool {
    (p: BlogPost) => RelatedScore(post, p) == k
  }

  /** Picking the entries scoring `k` out of the scored list gives the posts
      scoring `k`, in their original order. */
  lemma {:induction false} ScoreAllWithKey(post: BlogPost, ps: seq<BlogPost>, k: int)
    ensures PostsOf(WithKey(ScoreAll(post, ps), ScoreOf, k)) == Filter(ps, ScoresExactly(post, k))
  {
    if ps != [] {
      ScoreAllWithKey(post, ps[1..], k);
      var s := ScoreAll(post, ps);
      assert s[1..] == ScoreAll(post, ps[1..]);
      var head := if ScoreOf(s[0]) == k then [s[0]] else [];
      var tail := WithKey(s[1..], ScoreOf, k);
      assert WithKey(s, ScoreOf, k) == head + tail;
      assert PostsOf(head + tail) == PostsOf(head) + PostsOf(tail);
    }
  }

  class BlogManager {
    /** The posts, newest first. */
    const blogPosts: seq<BlogPost>
    /** The date parser the posts were sorted with. */
    ghost const time: string -> int

    ghost predicate Sorted() {
      Descending(blogPosts, ByDate(time))
    }

    /** Sorts a copy of `blogData` by date, newest first; when sorting throws
        (a date getter that fails), the store is empty. The caller's list is a
        value and is left as it was. */
    constructor (blogData: seq<BlogPost>, time: string -> int, threw: bool)
      ensures this.time == time
      ensures !threw ==> blogPosts == SortDesc(blogData, ByDate(time))
      ensures threw ==> blogPosts == []
      ensures Sorted()
    {
      this.time := time;
      if threw {
        blogPosts := [];
      } else {
        blogPosts := SortDesc(blogData, ByDate(time));
        SortByDateProps(blogData, time);
      }
    }

    /** The store itself, not a copy. */
    function GetAllBlogPosts(): (r: seq<BlogPost>)
      ensures r == blogPosts
    {
      blogPosts
    }

    /** The first post at or after index `i` whose slug is `slug`. */
    function FindFrom(slug: string, i: nat): (r: Option<BlogPost>)
      requires i <= |blogPosts|
      ensures r.Some? ==> exists j :: i <= j < |blogPosts| && blogPosts[j] == r.value && r.value.slug == slug &&
                                      forall k :: i <= k < j ==> blogPosts[k].slug != slug
      ensures r.None? ==> forall k :: i <= k < |blogPosts| ==> blogPosts[k].slug != slug
      decreases |blogPosts| - i
    {
      if i == |blogPosts| then None
      else if blogPosts[i].slug == slug then Some(blogPosts[i])
      else FindFrom(slug, i + 1)
    }

    /** `getBlogPostBySlug`: the first post, in date order, with that slug. */
    function GetBlogPostBySlug(slug: string): (r: Option<BlogPost>)
      ensures r.Some? ==> exists j :: 0 <= j < |blogPosts| && blogPosts[j] == r.value && r.value.slug == slug &&
                                      forall k :: 0 <= k < j ==> blogPosts[k].slug != slug
      ensures r.None? <==> forall k :: 0 <= k < |blogPosts| ==> blogPosts[k].slug != slug
    {
      FindFrom(slug, 0)
    }

    /** `getFeaturedBlogPosts`: the featured posts, in date order. */
    function GetFeaturedBlogPosts(): (r: seq<BlogPost>)
      ensures IsSubseq(r, blogPosts)
      ensures forall i :: 0 <= i < |r| ==> r[i].featured
      ensures forall i :: 0 <= i < |blogPosts| && blogPosts[i].featured ==> blogPosts[i] in r
      ensures forall p :: multiset(r)[p] == if p.featured then multiset(blogPosts)[p] else 0
    {
      FilterIsSubseq(blogPosts, (p: BlogPost) => p.featured);
      FilterCounts(blogPosts, (p: BlogPost) => p.featured);
      Filter(blogPosts, (p: BlogPost) => p.featured)
    }

    /** `getRecentBlogPosts(limit = 5)`: `blogPosts.slice(0, limit)`. */
    function GetRecentBlogPosts(limit: int := 5): (r: seq<BlogPost>)
      ensures 0 <= limit ==> r == blogPosts[..if limit < |blogPosts| then limit else |blogPosts|]
      ensures limit < 0 ==> r == blogPosts[..if |blogPosts| + limit < 0 then 0 else |blogPosts| + limit]
    {
      JsSlice(blogPosts, 0, limit)
    }

    /** The recent posts are the newest ones: none left out is newer. */
    lemma RecentAreNewest(limit: int)
      requires Sorted()
      ensures var r := GetRecentBlogPosts(limit);
        forall i, j :: 0 <= i < |r| <= j < |blogPosts| ==> time(r[i].publishedAt) >= time(blogPosts[j].publishedAt)
    {
      var r := GetRecentBlogPosts(limit);
      forall i, j | 0 <= i < |r| <= j < |blogPosts|
        ensures time(r[i].publishedAt) >= time(blogPosts[j].publishedAt)
      {
        assert r[i] == blogPosts[i];
        assert ByDate(time)(blogPosts[i]) >= ByDate(time)(blogPosts[j]);
      }
    }

    /** `getBlogPostsByCategory`: the posts with a category equal to `category`
        up to letter case, in date order. */
    function GetBlogPostsByCategory(category: string): (r: seq<BlogPost>)
      ensures IsSubseq(r, blogPosts)
      ensures forall i :: 0 <= i < |r| ==> InCategory(r[i], category)
      ensures forall i :: 0 <= i < |blogPosts| && InCategory(blogPosts[i], category) ==> blogPosts[i] in r
      ensures forall p :: multiset(r)[p] == if InCategory(p, category) then multiset(blogPosts)[p] else 0
    {
      FilterIsSubseq(blogPosts, (p: BlogPost) => InCategory(p, category));
      FilterCounts(blogPosts, (p: BlogPost) => InCategory(p, category));
      Filter(blogPosts, (p: BlogPost) => InCategory(p, category))
    }

    /** Spellings that lower-case alike select the same posts ("AI" and "ai"). */
    lemma CategoryIgnoresCase(a: string, b: string)
      requires LowerStr(a) == LowerStr(b)
      ensures GetBlogPostsByCategory(a) == GetBlogPostsByCategory(b)
    {
      FilterSame(blogPosts, (p: BlogPost) => InCategory(p, a), (p: BlogPost) => InCategory(p, b));
    }

    /** The posts other than `post` (`otherPosts`), in stored order. */
    function Others(post: BlogPost): (r: seq<BlogPost>)
      ensures forall i :: 0 <= i < |r| ==> r[i] in blogPosts && r[i].id != post.id
      ensures forall k :: 0 <= k < |blogPosts| && blogPosts[k].id != post.id ==> blogPosts[k] in r
    {
      FilterIsSubseq(blogPosts, (p: BlogPost) => p.id != post.id);
      Filter(blogPosts, (p: BlogPost) => p.id != post.id)
    }

    /** Each other post occurs in `Others(post)` as often as it is stored. */
    lemma OthersCounts(post: BlogPost)
      ensures forall p :: multiset(Others(post))[p] == if p.id != post.id then multiset(blogPosts)[p] else 0
    {
      FilterCounts(blogPosts, (p: BlogPost) => p.id != post.id);
    }

    /** The other posts with their scores, stably sorted highest first. */
    function Ranking(post: BlogPost): seq<ScoredPost> {
      SortDesc(ScoreAll(post, Others(post)), ScoreOf)
    }

    /** `getRelatedBlogPosts(post, limit = 3)`: the other posts scored by shared
        categories, stably sorted by score, highest first, cut to `limit`. */
    method GetRelatedBlogPosts(post: BlogPost, limit: int := 3) returns (r: seq<BlogPost>)
      ensures r == PostsOf(JsSlice(Ranking(post), 0, limit))
      ensures forall i :: 0 <= i < |r| ==> r[i] in blogPosts && r[i].id != post.id
      ensures 0 <= limit ==> |r| == if limit < |Others(post)| then limit else |Others(post)|
      ensures forall i, j :: 0 <= i < j < |r| ==> RelatedScore(post, r[i]) >= RelatedScore(post, r[j])
      ensures forall i, k :: (0 <= i < |r| && 0 <= k < |blogPosts| && blogPosts[k].id != post.id &&
        RelatedScore(post, blogPosts[k]) > RelatedScore(post, r[i])) ==> blogPosts[k] in r
    {
      var otherPosts := Others(post);
      var scoredPosts: seq<ScoredPost> := [];
      var i := 0;
      while i < |otherPosts|
        invariant 0 <= i <= |otherPosts|
        invariant |scoredPosts| == i
        invariant forall m :: 0 <= m < i ==> scoredPosts[m] == ScoredPost(otherPosts[m], RelatedScore(post, otherPosts[m]))
      {
        var otherPost := otherPosts[i];
        var score := ScorePost(post, otherPost);
        scoredPosts := scoredPosts + [ScoredPost(otherPost, score)];
        i := i + 1;
      }
      assert scoredPosts == ScoreAll(post, otherPosts);
      var sorted := SortDesc(scoredPosts, ScoreOf);
      var top := JsSlice(sorted, 0, limit);
      r := PostsOf(top);
      RelatedProps(post, limit, otherPosts, scoredPosts, top, r);
    }

    /** Posts with equal scores stay in stored order (newest first): the
        entries of the ranking scoring `k` are the other posts scoring `k`. */
    lemma RankingTies(post: BlogPost, k: int)
      ensures PostsOf(WithKey(Ranking(post), ScoreOf, k)) == Filter(Others(post), ScoresExactly(post, k))
    {
      SortDescStable(ScoreAll(post, Others(post)), ScoreOf, k);
      ScoreAllWithKey(post, Others(post), k);
    }

    /** The scored list holds each other post with its score. */
    predicate ScoredOthers(post: BlogPost, otherPosts: seq<BlogPost>, scored: seq<ScoredPost>) {
      && otherPosts == Others(post)
      && |scored| == |otherPosts|
      && forall m :: 0 <= m < |scored| ==> scored[m] == ScoredPost(otherPosts[m], RelatedScore(post, otherPosts[m]))
    }

    /** Every entry of the sorted list is another post with its own score. */
    lemma SortedEntry(post: BlogPost, otherPosts: seq<BlogPost>, scored: seq<ScoredPost>, m: nat)
      requires ScoredOthers(post, otherPosts, scored)
      requires m < |SortDesc(scored, ScoreOf)|
      ensures var e := SortDesc(scored, ScoreOf)[m];
        e.score == RelatedScore(post, e.post) && e.post in blogPosts && e.post.id != post.id
    {
      var sorted := SortDesc(scored, ScoreOf);
      SortDescPerm(scored, ScoreOf);
      assert sorted[m] in multiset(scored);
      var q :| 0 <= q < |scored| && scored[q] == sorted[m];
    }

    /** Every other post has its scored entry somewhere in the sorted list. */
    lemma EntryOfOther(post: BlogPost, otherPosts: seq<BlogPost>, scored: seq<ScoredPost>, k: nat)
      requires ScoredOthers(post, otherPosts, scored)
      requires k < |blogPosts| && blogPosts[k].id != post.id
      ensures exists m :: 0 <= m < |SortDesc(scored, ScoreOf)| &&
                          SortDesc(scored, ScoreOf)[m] == ScoredPost(blogPosts[k], RelatedScore(post, blogPosts[k]))
    {
      var sorted := SortDesc(scored, ScoreOf);
      SortDescPerm(scored, ScoreOf);
      var x := blogPosts[k];
      assert x in otherPosts;
      var q :| 0 <= q < |otherPosts| && otherPosts[q] == x;
      assert scored[q] in multiset(sorted);
      var m :| 0 <= m < |sorted| && sorted[m] == scored[q];
    }

    lemma RelatedProps(post: BlogPost, limit: int, otherPosts: seq<BlogPost>, scored: seq<ScoredPost>,
                       top: seq<ScoredPost>, r: seq<BlogPost>)
      requires ScoredOthers(post, otherPosts, scored)
      requires top == JsSlice(SortDesc(scored, ScoreOf), 0, limit)
      requires |r| == |top| && forall m :: 0 <= m < |top| ==> r[m] == top[m].post
      ensures forall i :: 0 <= i < |r| ==> r[i] in blogPosts && r[i].id != post.id
      ensures 0 <= limit ==> |r| == if limit < |otherPosts| then limit else |otherPosts|
      ensures forall i, j :: 0 <= i < j < |r| ==> RelatedScore(post, r[i]) >= RelatedScore(post, r[j])
      ensures forall i, k :: (0 <= i < |r| && 0 <= k < |blogPosts| && blogPosts[k].id != post.id &&
        RelatedScore(post, blogPosts[k]) > RelatedScore(post, r[i])) ==> blogPosts[k] in r
    {
      var sorted := SortDesc(scored, ScoreOf);
      SortDescPerm(scored, ScoreOf);
      TopIsPrefix(sorted, limit, top);
      forall m | 0 <= m < |sorted|
        ensures sorted[m].score == RelatedScore(post, sorted[m].post)
        ensures sorted[m].post in blogPosts && sorted[m].post.id != post.id
      {
        SortedEntry(post, otherPosts, scored, m);
      }
      SortDescSorted(scored, ScoreOf);
      RelatedTopK(post, otherPosts, scored, sorted, top, r);
    }

    /** The slice from 0 is a prefix of the sorted list, `limit` long when
        there are enough entries and all of them otherwise. */
    static lemma TopIsPrefix(sorted: seq<ScoredPost>, limit: int, top: seq<ScoredPost>)
      requires top == JsSlice(sorted, 0, limit)
      ensures |top| <= |sorted| && top == sorted[..|top|]
      ensures 0 <= limit ==> |top| == if limit < |sorted| then limit else |sorted|
    {
      if 0 <= limit {
        PrefixSlice(sorted, limit);
      }
    }

    /** No other post outscores a chosen one without being chosen itself. */
    lemma RelatedTopK(post: BlogPost, otherPosts: seq<BlogPost>, scored: seq<ScoredPost>,
                      sorted: seq<ScoredPost>, top: seq<ScoredPost>, r: seq<BlogPost>)
      requires ScoredOthers(post, otherPosts, scored)
      requires sorted == SortDesc(scored, ScoreOf) && Descending(sorted, ScoreOf)
      requires |top| <= |sorted| && top == sorted[..|top|]
      requires |r| == |top| && forall m :: 0 <= m < |top| ==> r[m] == top[m].post
      requires forall m :: 0 <= m < |top| ==> top[m].score == RelatedScore(post, top[m].post)
      ensures forall i, k :: (0 <= i < |r| && 0 <= k < |blogPosts| && blogPosts[k].id != post.id &&
        RelatedScore(post, blogPosts[k]) > RelatedScore(post, r[i])) ==> blogPosts[k] in r
    {
      forall i, k | (0 <= i < |r| && 0 <= k < |blogPosts| && blogPosts[k].id != post.id &&
        RelatedScore(post, blogPosts[k]) > RelatedScore(post, r[i]))
        ensures blogPosts[k] in r
      {
        EntryOfOther(post, otherPosts, scored, k);
        var m :| 0 <= m < |sorted| && sorted[m] == ScoredPost(blogPosts[k], RelatedScore(post, blogPosts[k]));
        assert sorted[i] == top[i];
        assert ScoreOf(sorted[i]) == RelatedScore(post, r[i]) < ScoreOf(sorted[m]);
        assert m < |top|;
        assert r[m] == blogPosts[k];
      }
    }

    /** `getAllCategories`: every category string in use, with its number of
        occurrences, by count largest first. */
    method GetAllCategories() returns (r: seq<CategoryCount>)
      ensures var names := AddAll([], Entries(blogPosts));
        r == Ranked(names, CountMap(names, Entries(blogPosts)))
      ensures forall i :: 0 <= i < |r| ==> r[i].name in Entries(blogPosts)
      ensures forall x :: x in Entries(blogPosts) ==> exists i :: 0 <= i < |r| && r[i].name == x
      ensures forall i :: 0 <= i < |r| ==> r[i].count == multiset(Entries(blogPosts))[r[i].name]
      ensures forall i, j :: 0 <= i < j < |r| ==> r[i].name != r[j].name
      ensures Descending(r, CountOf)
      ensures SumBy(r, CountOf) == |Entries(blogPosts)|
    {
      var names, counts := CountCategories([], blogPosts);
      r := Ranked(names, counts);
      RankedProps([], blogPosts, names, counts);
      AddAllMembers([], Entries(blogPosts));
    }
  }
}
