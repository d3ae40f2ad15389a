/** The list logic of `src/components/Blog/BlogGrid.tsx`: which posts a grid
    shows, the category name read from a URL slug, the limit, the page count,
    the page slice, the invalid-page test, the page-change guard and the
    window of page buttons; and the two effects that keep the grid's state. */
module BlogGridLogic {
  import opened Wrappers
  import opened Seqs
  import opened Text
  import opened BlogTypes
  import opened BlogQueries

  /** `word.charAt(0).toUpperCase() + word.slice(1)`. */
  function Capitalize(w: string): (r: string)
    ensures |r| == |w|
    ensures w != [] ==> r[0] == Upper(w[0]) && r[1..] == w[1..]
  {
    if w == [] then [] else [Upper(w[0])] + w[1..]
  }

  /** The pieces, each capitalized except (when `capFirst` is false) the first. */
  function CapWords(parts: seq<string>, capFirst: bool): (r: seq<string>)
    ensures |r| == |parts|
  {
    seq(|parts|, i requires 0 <= i < |parts| => if i == 0 && !capFirst then parts[i] else Capitalize(parts[i]))
  }

  /** `slug.split('-').map(capitalize).join(' ')`. */
  function SlugToName(slug: string): (r: string)
    ensures |r| == |slug|
    ensures forall i :: 0 <= i < |slug| ==> r[i] == NameChar(slug, i, true)
  {
    SlugToNameIsNameFrom(slug, true);
    Join(CapWords(Split(slug, '-'), true), " ")
  }

  /** Character by character: a dash becomes a space, a character at the
      start (when `atStart`) or after a dash is upper-cased, any other is kept. */
  function NameChar(s: string, i: nat, atStart: bool): char
    requires i < |s|
  {
    if s[i] == '-' then ' '
    else if (i == 0 && atStart) || (i > 0 && s[i - 1] == '-') then Upper(s[i])
    else s[i]
  }

  /** The same conversion, one character at a time. */
  function NameFrom(s: string, atStart: bool): (r: string)
    ensures |r| == |s|
    ensures forall i :: 0 <= i < |s| ==> r[i] == NameChar(s, i, atStart)
  {
    if s == [] then []
    else
      var rest := NameFrom(s[1..], s[0] == '-');
      assert forall i :: 1 <= i < |s| ==> NameChar(s[1..], i - 1, s[0] == '-') == NameChar(s, i, atStart);
      [NameChar(s, 0, atStart)] + rest
  }

  /** Split, capitalize and join agrees with the character-by-character rule. */
  lemma {:induction false} SlugToNameIsNameFrom(s: string, atStart: bool)
    ensures Join(CapWords(Split(s, '-'), atStart), " ") == NameFrom(s, atStart)
  {
    if s != [] {
      SlugToNameIsNameFrom(s[1..], s[0] == '-');
      if s[0] == '-' {
        DashStep(s, atStart);
      } else {
        CharStep(s, atStart);
      }
    }
  }

  /** `CapWords` peels off its first piece; every later piece is capitalized. */
  lemma CapWordsCons(parts: seq<string>, capFirst: bool)
    requires |parts| >= 1
    ensures CapWords(parts, capFirst) ==
            [if capFirst then Capitalize(parts[0]) else parts[0]] + CapWords(parts[1..], true)
  {
    var r := CapWords(parts, capFirst);
    var t := CapWords(parts[1..], true);
    forall i | 1 <= i < |r| ensures r[i] == t[i - 1] {
      assert parts[1..][i - 1] == parts[i];
    }
  }

  lemma DashStep(s: string, atStart: bool)
    requires s != [] && s[0] == '-'
    requires Join(CapWords(Split(s[1..], '-'), true), " ") == NameFrom(s[1..], true)
    ensures Join(CapWords(Split(s, '-'), atStart), " ") == NameFrom(s, atStart)
  {
    var rs := Split(s[1..], '-');
    assert Split(s, '-') == [""] + rs;
    JoinCapDash(rs, atStart);
    NameFromCons(s, atStart);
    assert NameChar(s, 0, atStart) == ' ';
  }

  /** An empty first piece contributes only the separator. */
  lemma JoinCapDash(rs: seq<string>, atStart: bool)
    requires |rs| >= 1
    ensures Join(CapWords([""] + rs, atStart), " ") == " " + Join(CapWords(rs, true), " ")
  {
    var x := CapWords(rs, true);
    CapWordsCons([""] + rs, atStart);
    assert ([""] + rs)[1..] == rs;
    assert CapWords([""] + rs, atStart) == [""] + x;
    JoinCons("", x, " ");
  }

  lemma NameFromCons(s: string, atStart: bool)
    requires s != []
    ensures NameFrom(s, atStart) == [NameChar(s, 0, atStart)] + NameFrom(s[1..], s[0] == '-')
  {
  }

  lemma CharStep(s: string, atStart: bool)
    requires s != [] && s[0] != '-'
    requires Join(CapWords(Split(s[1..], '-'), false), " ") == NameFrom(s[1..], false)
    ensures Join(CapWords(Split(s, '-'), atStart), " ") == NameFrom(s, atStart)
  {
    var rs := Split(s[1..], '-');
    var c := NameChar(s, 0, atStart);
    var y := CapWords(rs[1..], true);
    CapWordsCons(rs, false);
    var parts := [[s[0]] + rs[0]] + rs[1..];
    assert Split(s, '-') == parts;
    CapWordsCons(parts, atStart);
    assert parts[1..] == rs[1..];
    HeadCapitalized(s[0], rs[0], atStart);
    assert CapWords(parts, atStart) == [[c] + rs[0]] + y;
    JoinHead(c, rs[0], y, " ");
    assert NameFrom(s, atStart) == [c] + NameFrom(s[1..], false);
  }

  lemma HeadCapitalized(h: char, w: string, capFirst: bool)
    ensures (if capFirst then Capitalize([h] + w) else [h] + w) == [if capFirst then Upper(h) else h] + w
  {
    if capFirst {
      assert ([h] + w)[1..] == w;
    }
  }

  lemma JoinCons(x: string, ys: seq<string>, sep: string)
    ensures Join([x] + ys, sep) == if ys == [] then x else x + sep + Join(ys, sep)
  {
    assert ([x] + ys)[1..] == ys;
  }

  lemma JoinHead(c: char, a: string, ys: seq<string>, sep: string)
    ensures Join([[c] + a] + ys, sep) == [c] + Join([a] + ys, sep)
  {
    JoinCons([c] + a, ys, sep);
    JoinCons(a, ys, sep);
    if ys != [] {
      assert [c] + a + sep + Join(ys, sep) == [c] + (a + sep + Join(ys, sep));
    }
  }

  /** The grid's `type` prop. */
  datatype GridType = AllPosts | CategoryPosts

  /** A prop string that JavaScript treats as true: present and non-empty. */
  predicate Truthy(s: Option<string>) { s.Some? && s.value != "" }

  /** The post source, by strict precedence: featured, then an explicit
      category, then a category named by a URL slug, then every post. */
  function SelectPosts(m: BlogManager, showFeatured: bool, category: Option<string>,
                       gridType: GridType, categorySlug: Option<string>): (r: seq<BlogPost>)
    ensures showFeatured ==> r == m.GetFeaturedBlogPosts()
    ensures !showFeatured && Truthy(category) ==> r == m.GetBlogPostsByCategory(category.value)
    ensures !showFeatured && !Truthy(category) && gridType == CategoryPosts && Truthy(categorySlug) ==>
      r == m.GetBlogPostsByCategory(SlugToName(categorySlug.value))
    ensures !showFeatured && !Truthy(category) && !(gridType == CategoryPosts && Truthy(categorySlug)) ==>
      r == m.blogPosts
    ensures IsSubseq(r, m.blogPosts)
  {
    if showFeatured then m.GetFeaturedBlogPosts()
    else if Truthy(category) then m.GetBlogPostsByCategory(category.value)
    else if gridType == CategoryPosts && Truthy(categorySlug) then m.GetBlogPostsByCategory(SlugToName(categorySlug.value))
    else SubseqRefl(m.blogPosts); m.GetAllBlogPosts()
  }

  lemma {:induction false} SubseqRefl<T>(s: seq<T>)
    ensures IsSubseq(s, s)
  {
    PrefixIsSubseq(s, |s|);
    assert s[..|s|] == s;
  }

  /** The limit: a prefix of at most `limit` posts, applied only for a
      positive limit and without pagination. */
  function ApplyLimit(posts: seq<BlogPost>, limit: Option<int>, showPagination: bool): (r: seq<BlogPost>)
    ensures limit.Some? && limit.value > 0 && !showPagination ==>
      r == posts[..if limit.value < |posts| then limit.value else |posts|]
    ensures !(limit.Some? && limit.value > 0 && !showPagination) ==> r == posts
  {
    if limit.Some? && limit.value > 0 && !showPagination then
      PrefixSlice(posts, limit.value);
      JsSlice(posts, 0, limit.value)
    else posts
  }

  /** `Math.max(1, Math.ceil(n / postsPerPage))`. */
  function TotalPages(n: nat, postsPerPage: int): (t: int)
    requires postsPerPage >= 1
    ensures t >= 1
    ensures (t - 1) * postsPerPage < n || t == 1
    ensures n <= t * postsPerPage
  {
    var q := (n + postsPerPage - 1) / postsPerPage;
    assert q * postsPerPage + (n + postsPerPage - 1) % postsPerPage == n + postsPerPage - 1;
    if q < 1 then 1 else q
  }

  /** `allPosts.slice((page - 1) * postsPerPage, (page - 1) * postsPerPage + postsPerPage)`. */
  function PageSlice(posts: seq<BlogPost>, page: int, postsPerPage: int): seq<BlogPost> {
    var start := (page - 1) * postsPerPage;
    JsSlice(posts, start, start + postsPerPage)
  }

  function Min(a: int, b: int): int { if a < b then a else b }

  /** Page `page` (from 1) holds the posts from `(page-1)*k` up to `page*k`,
      cut at the end of the list: at most `k` posts. */
  lemma PageSliceBounds(posts: seq<BlogPost>, page: int, k: int)
    requires page >= 1 && k >= 1
    ensures var n := |posts|;
      PageSlice(posts, page, k) == posts[Min((page - 1) * k, n)..Min(page * k, n)]
    ensures |PageSlice(posts, page, k)| <= k
  {
    assert (page - 1) * k + k == page * k;
    assert (page - 1) * k >= 0;
  }

  /** Pages 1 to `m`, one after another. */
  function PagesUpTo(posts: seq<BlogPost>, k: int, m: nat): seq<BlogPost> {
    if m == 0 then [] else PagesUpTo(posts, k, m - 1) + PageSlice(posts, m, k)
  }

  lemma StepDown(m: nat, k: int)
    requires m >= 1 && k >= 1
    ensures 0 <= (m - 1) * k == m * k - k
  {
  }

  lemma {:induction false} PagesUpToPrefix(posts: seq<BlogPost>, k: int, m: nat)
    requires k >= 1
    ensures PagesUpTo(posts, k, m) == posts[..Min(m * k, |posts|)]
  {
    if m > 0 {
      var n := |posts|;
      var a := Min((m - 1) * k, n);
      var b := Min(m * k, n);
      PagesUpToPrefix(posts, k, m - 1);
      PageSliceBounds(posts, m, k);
      StepDown(m, k);
      assert 0 <= a <= b <= n;
      assert posts[..a] + posts[a..b] == posts[..b];
    }
  }

  /** All pages, in order, give back the whole list. */
  lemma PagesCoverAll(posts: seq<BlogPost>, k: int)
    requires k >= 1
    ensures PagesUpTo(posts, k, TotalPages(|posts|, k)) == posts
  {
    PagesUpToPrefix(posts, k, TotalPages(|posts|, k));
  }

  /** The redirect test of the second effect. */
  predicate InvalidPage(page: int, totalPages: int) {
    page < 1 || (page > totalPages && totalPages > 0)
  }

  /** With at least one page, a page is invalid exactly when it is outside
      `1..totalPages`. */
  lemma InvalidPageMeaning(page: int, totalPages: int)
    requires totalPages >= 1
    ensures InvalidPage(page, totalPages) <==> !(1 <= page <= totalPages)
  {
  }

  /** Where `handlePageChange` navigates: nowhere, to the bare path, or to
      the path with `?page=n`. */
  datatype Navigation = NoNavigation | ToPath | ToPageQuery(page: int)

  function PageChange(newPage: int, totalPages: int): (r: Navigation)
    ensures r != NoNavigation <==> 1 <= newPage <= totalPages
    ensures r == ToPath <==> newPage == 1 && 1 <= totalPages
    ensures r.ToPageQuery? ==> r.page == newPage && 2 <= newPage <= totalPages
  {
    if newPage > 0 && newPage <= totalPages then
      if newPage == 1 then ToPath else ToPageQuery(newPage)
    else NoNavigation
  }

  /** The numbered buttons: `min(5, totalPages)` consecutive pages from
      `max(1, min(currentPage - 2, totalPages - 4))`, so the current page sits
      in the middle unless the window would run past page 1 or the last page. */
  function PageWindow(currentPage: int, totalPages: int): (r: seq<int>)
    ensures |r| == if totalPages < 5 then (if totalPages < 0 then 0 else totalPages) else 5
    ensures forall i :: 0 < i < |r| ==> r[i] == r[i - 1] + 1
    ensures totalPages >= 1 ==> forall i :: 0 <= i < |r| ==> 1 <= r[i] <= totalPages
    ensures 1 <= currentPage <= totalPages ==> currentPage in r
    ensures 1 <= totalPages < 5 ==> r[0] == 1
    ensures |r| > 0 && currentPage <= 3 ==> r[0] == 1
    ensures totalPages >= 5 && 3 <= currentPage <= totalPages - 2 ==> r[2] == currentPage
    ensures totalPages >= 5 && currentPage >= totalPages - 2 ==> r[4] == totalPages
  {
    var len := if totalPages < 5 then (if totalPages < 0 then 0 else totalPages) else 5;
    var first := Max(1, Min(currentPage - 2, totalPages - 4));
    var r := seq(len, i requires 0 <= i < len => first + i);
    if 1 <= currentPage <= totalPages then
      assert r[currentPage - first] == currentPage;
      r
    else r
  }

  function Max(a: int, b: int): int { if a < b then b else a }

  /** The grid's props. */
  datatype GridProps = GridProps(
    showFeatured: bool,
    limit: Option<int>,
    category: Option<string>,
    categorySlug: Option<string>,
    gridType: GridType,
    showPagination: bool,
    postsPerPage: int)

  /** The props' defaults: no featuring, all posts, no pagination, 9 a page. */
  const DefaultProps := GridProps(false, None, None, None, AllPosts, false, 9)

  /** The grid component's state. */
  class BlogGridState {
    var allPosts: seq<BlogPost>
    var displayedPosts: seq<BlogPost>
    var totalPages: int
    var isLoading: bool

    constructor ()
      ensures allPosts == [] && displayedPosts == [] && totalPages == 1 && isLoading
    {
      allPosts := [];
      displayedPosts := [];
      totalPages := 1;
      isLoading := true;
    }

    /** The first effect: chooses and limits the posts, and counts the pages
        when paginating. */
    method LoadPosts(m: BlogManager, props: GridProps)
      requires props.postsPerPage >= 1
      modifies this
      ensures allPosts == ApplyLimit(SelectPosts(m, props.showFeatured, props.category, props.gridType, props.categorySlug),
                                     props.limit, props.showPagination)
      ensures props.showPagination ==> totalPages == TotalPages(|allPosts|, props.postsPerPage)
      ensures !props.showPagination ==> totalPages == old(totalPages)
      ensures displayedPosts == old(displayedPosts) && !isLoading
    {
      isLoading := true;
      var posts := SelectPosts(m, props.showFeatured, props.category, props.gridType, props.categorySlug);
      posts := ApplyLimit(posts, props.limit, props.showPagination);
      allPosts := posts;
      if props.showPagination {
        totalPages := TotalPages(|posts|, props.postsPerPage);
      }
      isLoading := false;
    }

    /** The second effect: shows the current page (or everything without
        pagination) and reports whether to redirect to the bare path. */
    method UpdateDisplayed(props: GridProps, currentPage: int) returns (redirect: bool)
      modifies this
      ensures props.showPagination ==> displayedPosts == PageSlice(allPosts, currentPage, props.postsPerPage)
      ensures !props.showPagination ==> displayedPosts == allPosts
      ensures redirect <==> props.showPagination && InvalidPage(currentPage, totalPages)
      ensures allPosts == old(allPosts) && totalPages == old(totalPages) && isLoading == old(isLoading)
    {
      redirect := false;
      if props.showPagination {
        displayedPosts := PageSlice(allPosts, currentPage, props.postsPerPage);
        if InvalidPage(currentPage, totalPages) {
          redirect := true;
        }
      } else {
        displayedPosts := allPosts;
      }
    }
  }

  /** Mounting the grid on page `currentPage`: both effects run after the
      first render and read that render's state, so the second effect sees the
      constructor's empty list and single page while the first loads the
      posts. On a paginated grid every page other than 1 is therefore sent back
      to the bare path, however many posts there are. */
  method Mount(m: BlogManager, props: GridProps, currentPage: int) returns (g: BlogGridState, redirect: bool)
    requires props.postsPerPage >= 1
    ensures fresh(g)
    ensures redirect <==> props.showPagination && currentPage != 1
    ensures g.allPosts == ApplyLimit(SelectPosts(m, props.showFeatured, props.category, props.gridType, props.categorySlug),
                                     props.limit, props.showPagination)
    ensures g.totalPages == if props.showPagination then TotalPages(|g.allPosts|, props.postsPerPage) else 1
    ensures g.displayedPosts == [] && !g.isLoading
  {
    g := new BlogGridState();
    // The second effect's reads are those of the first render.
    redirect := g.UpdateDisplayed(props, currentPage);
    g.LoadPosts(m, props);
  }
}
