/** The blog record types and the two helpers beside them: `createBlogPost`
    (defaults overridden field by field) and `generateSEOMetadata`. */
module BlogTypes {
  import opened Wrappers

  datatype Author = Author(
    id: string, name: string, avatar: string, bio: string, title: string,
    social: map<string, string>)

  /** Every SEO field is optional in the schema. */
  datatype Seo = Seo(
    title: Option<string>,
    description: Option<string>,
    keywords: Option<seq<string>>,
    ogImage: Option<string>,
    publishedTime: Option<string>,
    modifiedTime: Option<string>,
    section: Option<string>,
    authors: Option<seq<string>>,
    canonicalUrl: Option<string>)

  datatype TocItem = TocItem(level: int, title: string, slug: string)

  datatype Series = Series(id: string, title: string, order: int)

  datatype Metadata = Metadata(views: int, likes: int, shares: int, comments: int)

  /** A blog post. `publishedAt` and `updatedAt` are ISO-8601 strings; code that
      orders posts compares their parsed times (see `BlogManager`). */
  datatype BlogPost = BlogPost(
    id: string,
    slug: string,
    title: string,
    excerpt: string,
    content: string,
    coverImage: string,
    publishedAt: string,
    updatedAt: Option<string>,
    readingTime: int,
    featured: bool,
    draft: bool,
    categories: seq<string>,
    author: Author,
    seo: Seo,
    tableOfContents: seq<TocItem>,
    relatedPosts: seq<string>,
    series: Option<Series>,
    metadata: Metadata)

  /** `Partial<BlogPost>`: `None` is a field the caller left out. The two
      fields that are optional in `BlogPost` itself carry their value directly. */
  datatype PartialPost = PartialPost(
    id: Option<string>,
    slug: Option<string>,
    title: Option<string>,
    excerpt: Option<string>,
    content: Option<string>,
    coverImage: Option<string>,
    publishedAt: Option<string>,
    updatedAt: Option<string>,
    readingTime: Option<int>,
    featured: Option<bool>,
    draft: Option<bool>,
    categories: Option<seq<string>>,
    author: Option<Author>,
    seo: Option<Seo>,
    tableOfContents: Option<seq<TocItem>>,
    relatedPosts: Option<seq<string>>,
    series: Option<Series>,
    metadata: Option<Metadata>)

  const DefaultCoverImage := "/images/default-blog-cover.jpg"
  const SiteName := " | William Spurlock"
  const BlogUrlPrefix := "https://williamspurlock.com/blog/"

  /** JavaScript's `s || fallback` on strings: the empty string is falsy. */
  function OrElse(s: string, fallback: string): (r: string)
    ensures r == s || r == fallback
    ensures r == "" ==> s == "" && fallback == ""
    ensures s != "" ==> r == s
  {
    if s != "" then s else fallback
  }

  /** The same for an optional string: absent or empty falls back. */
  function OptOrElse(s: Option<string>, fallback: string): (r: string)
    ensures s.Some? && s.value != "" ==> r == s.value
    ensures s.None? || s.value == "" ==> r == fallback
  {
    match s
    case Some(v) => OrElse(v, fallback)
    case None => fallback
  }

  /** `createBlogPost`'s `defaultPost`; `now` is `new Date().toISOString()`. */
  function DefaultPost(now: string): BlogPost {
    BlogPost(
      "", "", "", "", "", DefaultCoverImage, now, None, 0, false, true, [],
      Author("", "", "", "", "", map[]),
      Seo(Some(""), Some(""), Some([]), Some(""), Some(now), Some(now), Some("Blog"), Some([]), None),
      [], [], None, Metadata(0, 0, 0, 0))
  }

  /** `createBlogPost(data)` = `{ ...defaultPost, ...data }`: each field is the
      caller's when given, otherwise the default. The merge is shallow: a given
      `author`, `seo` or `metadata` replaces the whole default record. */
  function CreateBlogPost(d: PartialPost, now: string): (r: BlogPost)
    ensures r.id == d.id.GetOr("") && r.slug == d.slug.GetOr("")
    ensures r.title == d.title.GetOr("") && r.excerpt == d.excerpt.GetOr("")
    ensures r.content == d.content.GetOr("")
    ensures r.coverImage == d.coverImage.GetOr(DefaultCoverImage)
    ensures r.publishedAt == d.publishedAt.GetOr(now)
    ensures r.updatedAt == d.updatedAt
    ensures r.readingTime == d.readingTime.GetOr(0)
    ensures r.featured == d.featured.GetOr(false) && r.draft == d.draft.GetOr(true)
    ensures r.categories == d.categories.GetOr([])
    ensures d.author.Some? ==> r.author == d.author.value
    ensures d.author.None? ==> r.author.name == "" && r.author.social == map[]
    ensures d.seo.None? ==> r.seo.section == Some("Blog") && r.seo.canonicalUrl.None?
    ensures d.seo.Some? ==> r.seo == d.seo.value
    ensures r.tableOfContents == d.tableOfContents.GetOr([])
    ensures r.relatedPosts == d.relatedPosts.GetOr([]) && r.series == d.series
    ensures r.metadata == d.metadata.GetOr(Metadata(0, 0, 0, 0))
  {
    var z := DefaultPost(now);
    BlogPost(
      d.id.GetOr(z.id), d.slug.GetOr(z.slug), d.title.GetOr(z.title),
      d.excerpt.GetOr(z.excerpt), d.content.GetOr(z.content),
      d.coverImage.GetOr(z.coverImage), d.publishedAt.GetOr(z.publishedAt),
      d.updatedAt, d.readingTime.GetOr(z.readingTime), d.featured.GetOr(z.featured),
      d.draft.GetOr(z.draft), d.categories.GetOr(z.categories), d.author.GetOr(z.author),
      d.seo.GetOr(z.seo), d.tableOfContents.GetOr(z.tableOfContents),
      d.relatedPosts.GetOr(z.relatedPosts), d.series, d.metadata.GetOr(z.metadata))
  }

  /** Every field of `p`, given. */
  function Given(p: BlogPost): PartialPost {
    PartialPost(
      Some(p.id), Some(p.slug), Some(p.title), Some(p.excerpt), Some(p.content),
      Some(p.coverImage), Some(p.publishedAt), p.updatedAt, Some(p.readingTime),
      Some(p.featured), Some(p.draft), Some(p.categories), Some(p.author), Some(p.seo),
      Some(p.tableOfContents), Some(p.relatedPosts), p.series, Some(p.metadata))
  }

  const NoFields := PartialPost(
    None, None, None, None, None, None, None, None, None,
    None, None, None, None, None, None, None, None, None)

  /** Given every field, `createBlogPost` returns the post itself, whatever the clock says. */
  lemma CreateFromAllFields(p: BlogPost, now: string)
    ensures CreateBlogPost(Given(p), now) == p
  {
  }

  /** Given nothing, it returns the defaults. */
  lemma CreateFromNoFields(now: string)
    ensures CreateBlogPost(NoFields, now) == DefaultPost(now)
  {
  }

  /** `generateSEOMetadata(post)`: a complete SEO record derived from the post. */
  function GenerateSeoMetadata(post: BlogPost): (r: Seo)
    ensures r.title == Some(post.title + SiteName)
    ensures r.description == Some(post.excerpt)
    ensures r.keywords == Some(post.categories)
    ensures r.ogImage == Some(post.coverImage)
    ensures r.publishedTime == Some(post.publishedAt)
    ensures r.modifiedTime ==
            Some(if post.updatedAt.Some? && post.updatedAt.value != "" then post.updatedAt.value
                 else post.publishedAt)
    ensures r.section ==
            Some(if post.categories != [] && post.categories[0] != "" then post.categories[0]
                 else "Blog")
    ensures r.authors == Some([post.author.name])
    ensures r.canonicalUrl == Some(BlogUrlPrefix + post.slug)
  {
    Seo(
      Some(post.title + SiteName),
      Some(post.excerpt),
      Some(post.categories),
      Some(post.coverImage),
      Some(post.publishedAt),
      Some(OptOrElse(post.updatedAt, post.publishedAt)),
      Some(if post.categories == [] then "Blog" else OrElse(post.categories[0], "Blog")),
      Some([post.author.name]),
      Some(BlogUrlPrefix + post.slug))
  }

  /** The canonical URL gives back the slug: two posts share a canonical URL
      exactly when they share a slug. */
  lemma CanonicalUrlSlug(p: BlogPost, q: BlogPost)
    ensures GenerateSeoMetadata(p).canonicalUrl.value[|BlogUrlPrefix|..] == p.slug
    ensures GenerateSeoMetadata(p).canonicalUrl == GenerateSeoMetadata(q).canonicalUrl <==>
            p.slug == q.slug
  {
    var u := GenerateSeoMetadata(p).canonicalUrl.value;
    var v := GenerateSeoMetadata(q).canonicalUrl.value;
    assert u[|BlogUrlPrefix|..] == p.slug;
    assert v[|BlogUrlPrefix|..] == q.slug;
  }
}
