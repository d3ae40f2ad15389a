/** The logic of `scripts/process-blog-posts.ts`: the reading-time estimate,
    the post built from a Markdown file's front matter (its defaults, its SEO
    record and its table of contents), and `updateBlogData`'s merge of new
    posts into the stored ones, newest first. Reading files, generating the
    id and writing the data file are left to the caller. */
module PostProcessing {
  import opened Wrappers
  import opened Seqs
  import opened Text
  import opened StableSort
  import opened BlogTypes
  import opened Markdown
  import opened BlogQueries

  const WordsPerMinute := 200

  /** The words of `content` as `content.trim().split(/\s+/)` counts them:
      blank content still yields one (empty) piece. */
  function WordCount(content: string): (n: nat)
    ensures n >= 1
  {
    |SplitOnSpaces(Trim(content))|
  }

  /** `calculateReadingTime`: minutes at 200 words a minute, rounded up. */
  function ReadingTime(content: string): (r: int)
    ensures r >= 1
    ensures (r - 1) * WordsPerMinute < WordCount(content) <= r * WordsPerMinute
  {
    (WordCount(content) + WordsPerMinute - 1) / WordsPerMinute
  }

  /** Blank content reads in one minute. */
  lemma ReadingTimeBlank(content: string)
    requires IsBlank(content)
    ensures WordCount(content) == 1 && ReadingTime(content) == 1
  {
    assert Trim(content) == [];
  }

  /** For words joined by single spaces, surrounded by nothing, the count is
      the number of words. */
  lemma ReadingTimeOfWords(ws: seq<string>)
    requires |ws| >= 1
    requires forall i :: 0 <= i < |ws| ==> ws[i] != []
    requires forall i, k :: 0 <= i < |ws| && 0 <= k < |ws[i]| ==> !IsSpace(ws[i][k])
    ensures WordCount(Join(ws, " ")) == |ws|
    ensures ReadingTime(Join(ws, " ")) == (|ws| + WordsPerMinute - 1) / WordsPerMinute
  {
    var j := Join(ws, " ");
    JoinFirst(ws, " ");
    JoinLast(ws, " ");
    TrimUnchanged(j);
    SplitOnSpacesJoin(ws);
  }

  /** On content that is not blank, every counted piece is a non-empty run
      of non-whitespace characters. */
  lemma WordsAreWords(content: string)
    requires !IsBlank(content)
    ensures var ws := SplitOnSpaces(Trim(content));
      forall i :: 0 <= i < |ws| ==> ws[i] != [] && forall k :: 0 <= k < |ws[i]| ==> !IsSpace(ws[i][k])
  {
    SplitOnSpacesWords(Trim(content));
  }

  /** `data.readingTime || calculateReadingTime(content)`: a front-matter value
      that is missing or zero is replaced by the estimate. */
  function ResolveReadingTime(given: Option<int>, content: string): (r: int)
    ensures given.Some? && given.value != 0 ==> r == given.value
    ensures given.None? || given.value == 0 ==> r == ReadingTime(content)
    ensures r != 0
  {
    if given.Some? && given.value != 0 then given.value else ReadingTime(content)
  }

  /** The front matter's `author`: bio, title and social links may be left out. */
  datatype FrontAuthor = FrontAuthor(
    name: string, avatar: string,
    bio: Option<string>, title: Option<string>, social: Option<map<string, string>>)

  /** The front matter's optional `seo` block. */
  datatype FrontSeo = FrontSeo(
    title: Option<string>, description: Option<string>,
    keywords: Option<seq<string>>, ogImage: Option<string>)

  /** A Markdown file's front matter. `tags` is read but the post schema has
      no such field, so parsing the post drops it. */
  datatype FrontMatter = FrontMatter(
    title: string,
    slug: string,
    date: string,
    lastModified: Option<string>,
    author: FrontAuthor,
    readingTime: Option<int>,
    categories: seq<string>,
    tags: seq<string>,
    featured: Option<bool>,
    draft: Option<bool>,
    excerpt: string,
    coverImage: string,
    seo: Option<FrontSeo>)

  const DefaultBio := "AI and automation expert"
  const DefaultTitle := "AI Solutions Architect"
  const DefaultSocial: map<string, string> :=
    map["twitter" := "https://twitter.com/williamspurlock",
        "linkedin" := "https://linkedin.com/in/williamspurlock"]

  /** The site's only author, with fixed fallbacks for what the front matter leaves out. */
  function PostAuthor(a: FrontAuthor): (r: Author)
    ensures r.id == "1" && r.name == a.name && r.avatar == a.avatar
    ensures r.bio == OptOrElse(a.bio, DefaultBio)
    ensures r.title == OptOrElse(a.title, DefaultTitle)
    ensures a.social.Some? ==> r.social == a.social.value
    ensures a.social.None? ==> r.social == DefaultSocial
  {
    Author("1", a.name, a.avatar, OptOrElse(a.bio, DefaultBio), OptOrElse(a.title, DefaultTitle),
           a.social.GetOr(DefaultSocial))
  }

  /** The SEO record when the front matter has an `seo` block: each field the
      block leaves out or leaves empty falls back to the post's own data
      (an empty keyword list given in the block is kept). */
  function SeoFromBlock(fm: FrontMatter, s: FrontSeo): (r: Seo)
    ensures r.title == Some(OptOrElse(s.title, fm.title + SiteName))
    ensures r.description == Some(OptOrElse(s.description, fm.excerpt))
    ensures s.keywords.Some? ==> r.keywords == s.keywords
    ensures s.keywords.None? ==> r.keywords == Some(fm.categories)
    ensures r.ogImage == Some(OptOrElse(s.ogImage, fm.coverImage))
    ensures r.publishedTime == Some(fm.date)
    ensures r.modifiedTime == Some(OptOrElse(fm.lastModified, fm.date))
    ensures r.section ==
            Some(if fm.categories != [] && fm.categories[0] != "" then fm.categories[0] else "Blog")
    ensures r.authors == Some([fm.author.name])
    ensures r.canonicalUrl == Some(BlogUrlPrefix + fm.slug)
  {
    Seo(
      Some(OptOrElse(s.title, fm.title + SiteName)),
      Some(OptOrElse(s.description, fm.excerpt)),
      Some(s.keywords.GetOr(fm.categories)),
      Some(OptOrElse(s.ogImage, fm.coverImage)),
      Some(fm.date),
      Some(OptOrElse(fm.lastModified, fm.date)),
      Some(if fm.categories == [] then "Blog" else OrElse(fm.categories[0], "Blog")),
      Some([fm.author.name]),
      Some(BlogUrlPrefix + fm.slug))
  }

  /** The draft post handed to `generateSEOMetadata` when there is no `seo`
      block: it has no `updatedAt`, so `lastModified` plays no part. */
  function SeoDraft(fm: FrontMatter, id: string, content: string, readingTime: int): BlogPost {
    BlogPost(
      id, fm.slug, fm.title, fm.excerpt, content, fm.coverImage, fm.date, None, readingTime,
      false, true, fm.categories,
      Author("1", fm.author.name, fm.author.avatar, DefaultBio, DefaultTitle, DefaultSocial),
      Seo(None, None, None, None, None, None, None, None, None),
      [], [], None, Metadata(0, 0, 0, 0))
  }

  /** `seoMetadata`: from the block when there is one, otherwise generated. */
  function SeoFor(fm: FrontMatter, id: string, content: string, readingTime: int): Seo {
    match fm.seo
    case Some(s) => SeoFromBlock(fm, s)
    case None => GenerateSeoMetadata(SeoDraft(fm, id, content, readingTime))
  }

  /** The two routes agree except on `modifiedTime`: without a block the
      generated record takes the publication date even when `lastModified` is set. */
  lemma SeoRoutesAgree(fm: FrontMatter, id: string, content: string, readingTime: int)
    requires fm.seo.None?
    ensures var empty := FrontSeo(None, None, None, None);
      var generated := SeoFor(fm, id, content, readingTime);
      var fromBlock := SeoFromBlock(fm, empty);
      && generated.modifiedTime == Some(fm.date)
      && generated == fromBlock.(modifiedTime := Some(fm.date))
  {
  }

  /** `processMarkdownFile` once the file is read: `id` is the fresh UUID. */
  function ProcessMarkdownFile(fm: FrontMatter, content: string, id: string): (r: BlogPost)
    ensures r.id == id && r.slug == fm.slug && r.title == fm.title
    ensures r.excerpt == fm.excerpt && r.content == content && r.coverImage == fm.coverImage
    ensures r.publishedAt == fm.date && r.updatedAt == fm.lastModified
    ensures r.readingTime == ResolveReadingTime(fm.readingTime, content)
    ensures r.featured == fm.featured.GetOr(false)
    ensures r.draft == fm.draft.GetOr(true)
    ensures r.categories == fm.categories
    ensures r.author == PostAuthor(fm.author)
    ensures r.seo == SeoFor(fm, id, content, r.readingTime)
    ensures r.tableOfContents == TableOfContents(content)
    ensures r.relatedPosts == [] && r.series.None? && r.metadata == Metadata(0, 0, 0, 0)
  {
    var readingTime := ResolveReadingTime(fm.readingTime, content);
    BlogPost(
      id, fm.slug, fm.title, fm.excerpt, content, fm.coverImage, fm.date, fm.lastModified,
      readingTime, fm.featured.GetOr(false), fm.draft.GetOr(true), fm.categories,
      PostAuthor(fm.author), SeoFor(fm, id, content, readingTime),
      TableOfContents(content), [], None, Metadata(0, 0, 0, 0))
  }

  /** Without an `seo` block, the stored SEO record is what `generateSEOMetadata`
      would give for the finished post exactly when `lastModified` is absent,
      empty or the publication date itself. */
  lemma ProcessedSeoIsGenerated(fm: FrontMatter, content: string, id: string)
    requires fm.seo.None?
    ensures var p := ProcessMarkdownFile(fm, content, id);
      p.seo == GenerateSeoMetadata(p) <==>
      (fm.lastModified.None? || fm.lastModified.value == "" || fm.lastModified.value == fm.date)
  {
    var p := ProcessMarkdownFile(fm, content, id);
    if !(fm.lastModified.None? || fm.lastModified.value == "" || fm.lastModified.value == fm.date) {
      assert GenerateSeoMetadata(p).modifiedTime == Some(fm.lastModified.value);
      assert p.seo.modifiedTime == Some(fm.date);
    }
  }

  /** With an `seo` block that sets nothing, the stored record is exactly the
      generated one, `lastModified` included. */
  lemma EmptyBlockIsGenerated(fm: FrontMatter, content: string, id: string)
    requires fm.seo == Some(FrontSeo(None, None, None, None))
    ensures var p := ProcessMarkdownFile(fm, content, id);
      p.seo == GenerateSeoMetadata(p)
  {
  }

  /** Some post in `posts` has this slug (`newPosts.some(...)`). */
  predicate HasSlug(posts: seq<BlogPost>, slug: string) {
    exists i :: 0 <= i < |posts| && posts[i].slug == slug
  }

  /** The merge: every new post, then the stored posts whose slug no new post takes. */
  function MergePosts(newPosts: seq<BlogPost>, existing: seq<BlogPost>): seq<BlogPost> {
    newPosts + Filter(existing, (e: BlogPost) => !HasSlug(newPosts, e.slug))
  }

  /** The merge keeps the new posts first and in order; of the stored posts it
      keeps, in order, exactly those whose slug no new post has, so a new post
      replaces a stored one with its slug. */
  lemma MergeProps(newPosts: seq<BlogPost>, existing: seq<BlogPost>)
    ensures var r := MergePosts(newPosts, existing);
      && |newPosts| <= |r| <= |newPosts| + |existing|
      && r[..|newPosts|] == newPosts
      && IsSubseq(r[|newPosts|..], existing)
      && (forall i :: |newPosts| <= i < |r| ==> !HasSlug(newPosts, r[i].slug))
      && (forall i :: 0 <= i < |existing| && !HasSlug(newPosts, existing[i].slug) ==>
            existing[i] in r[|newPosts|..])
      && (forall e :: multiset(r[|newPosts|..])[e] ==
            if HasSlug(newPosts, e.slug) then 0 else multiset(existing)[e])
  {
    var f := (e: BlogPost) => !HasSlug(newPosts, e.slug);
    var r := MergePosts(newPosts, existing);
    FilterIsSubseq(existing, f);
    FilterCounts(existing, f);
    assert r[|newPosts|..] == Filter(existing, f);
  }

  function SlugOf(p: BlogPost): string { p.slug }

  /** No two posts share a slug. */
  predicate DistinctSlugs(posts: seq<BlogPost>) {
    DistinctBy(posts, SlugOf)
  }

  /** When the new posts and the stored posts each have distinct slugs, so
      does the merge: a slug never appears twice in the regenerated data. */
  lemma MergeDistinctSlugs(newPosts: seq<BlogPost>, existing: seq<BlogPost>)
    requires DistinctSlugs(newPosts) && DistinctSlugs(existing)
    ensures DistinctSlugs(MergePosts(newPosts, existing))
  {
    var f := (e: BlogPost) => !HasSlug(newPosts, e.slug);
    var kept := Filter(existing, f);
    FilterDistinctBy(existing, f, SlugOf);
    var r := newPosts + kept;
    forall i, j | 0 <= i < j < |r| ensures SlugOf(r[i]) != SlugOf(r[j]) {
      if j >= |newPosts| && i < |newPosts| {
        assert r[j] == kept[j - |newPosts|];
        assert !HasSlug(newPosts, r[j].slug);
        assert r[i] == newPosts[i];
      } else if i >= |newPosts| {
        assert r[i] == kept[i - |newPosts|] && r[j] == kept[j - |newPosts|];
      }
    }
  }

  /** The sorted merge is newest first, a permutation of the merge, holds
      every new post, and holds no stored post whose slug a new post takes. */
  lemma SortedMergeProps(newPosts: seq<BlogPost>, existing: seq<BlogPost>, time: string -> int)
    ensures var merged := MergePosts(newPosts, existing);
      var r := SortDesc(merged, ByDate(time));
      && Descending(r, ByDate(time))
      && multiset(r) == multiset(merged)
      && (forall i :: 0 <= i < |newPosts| ==> newPosts[i] in r)
      && (forall i :: 0 <= i < |r| ==> r[i] in newPosts || (r[i] in existing && !HasSlug(newPosts, r[i].slug)))
  {
    var merged := MergePosts(newPosts, existing);
    var r := SortDesc(merged, ByDate(time));
    SortByDateProps(merged, time);
    PermSameMembers(r, merged);
    forall i | 0 <= i < |newPosts| ensures newPosts[i] in r {
      assert merged[i] == newPosts[i];
    }
    MergeMembers(newPosts, existing);
  }

  /** Every post of the merge is a new post or a stored post whose slug no new post has. */
  lemma MergeMembers(newPosts: seq<BlogPost>, existing: seq<BlogPost>)
    ensures var merged := MergePosts(newPosts, existing);
      forall x :: x in merged ==> x in newPosts || (x in existing && !HasSlug(newPosts, x.slug))
  {
    var f := (e: BlogPost) => !HasSlug(newPosts, e.slug);
    var kept := Filter(existing, f);
    forall x | x in newPosts + kept ensures x in newPosts || (x in existing && !HasSlug(newPosts, x.slug)) {
      if x !in newPosts {
        var k :| 0 <= k < |kept| && kept[k] == x;
      }
    }
  }

  const MissingDataMessage := "Could not find blogData array in file"

  /** `updateBlogData` between reading and writing the data file: `stored` is the
      array found in the file (`None` when the pattern does not match, which
      throws), and the result is the list written back, newest first. */
  method UpdateBlogData(newPosts: seq<BlogPost>, stored: Option<seq<BlogPost>>, time: string -> int)
    returns (r: Result<seq<BlogPost>, string>)
    ensures stored.None? <==> r.Failure?
    ensures stored.None? ==> r.error == MissingDataMessage
    ensures stored.Some? ==> r.value == SortDesc(MergePosts(newPosts, stored.value), ByDate(time))
    ensures r.Success? ==> Descending(r.value, ByDate(time))
    ensures r.Success? ==> multiset(r.value) == multiset(MergePosts(newPosts, stored.value))
    ensures r.Success? ==> forall i :: 0 <= i < |newPosts| ==> newPosts[i] in r.value
    ensures r.Success? ==> forall i :: 0 <= i < |r.value| ==>
      r.value[i] in newPosts || (r.value[i] in stored.value && !HasSlug(newPosts, r.value[i].slug))
  {
    if stored.None? {
      return Failure(MissingDataMessage);
    }
    var existingPosts := stored.value;
    var allPosts := newPosts + Filter(existingPosts, (e: BlogPost) => !HasSlug(newPosts, e.slug));
    assert allPosts == MergePosts(newPosts, existingPosts);
    allPosts := SortDesc(allPosts, ByDate(time));
    SortedMergeProps(newPosts, existingPosts, time);
    r := Success(allPosts);
  }
}
