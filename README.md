# PersonalWebsite content logic in Dafny

This project models the content logic of William Spurlock's personal website and proves properties of it. It covers:

- **The blog query layer (`BlogManager`).** A date-sorted copy of the posts with these queries:
  - by slug;
  - featured;
  - recent;
  - category;
  - related posts;
  - per-category counts.
- **The project store (`ProjectManager`).** A list of projects with priority-sorted views, and add, update, delete, toggle and set-priority operations.
- **The category helpers.** Ordered union with the initial categories, counting, the every-tenth-post test and category inference.
- **The six-question contact-form wizard**, with its validators.
- **The blog grid's list logic.** Post source, slug-to-name conversion, limit, page count, page slice, invalid-page test, page-change guard and page-button window.
- **The markdown helpers.** `generateSlug`, the table-of-contents extractor and the heading classes.
- **The post-processing script's logic.** Reading time, front-matter defaults, the SEO record, and the merge-by-slug and date sort that regenerate the post data.
- **The blog-post record helpers.** `createBlogPost` and `generateSEOMetadata`.

One module per source file:

| module | source file |
|---|---|
| `BlogQueries` (blog_manager.dfy) | src/data/blogData/BlogManager.ts |
| `Projects` (project_manager.dfy) | src/data/projectData/ProjectManager.ts |
| `Categories` (categories.dfy) | src/data/blogData/categories.ts |
| `ContactWizard` (contact_form.dfy) | src/components/ContactFormPopup.tsx |
| `BlogGridLogic` (blog_grid.dfy) | src/components/Blog/BlogGrid.tsx |
| `Markdown` (markdown.dfy) | src/components/Blog/BlogPost.tsx |
| `PostProcessing` (process_posts.dfy) | scripts/process-blog-posts.ts |
| `BlogTypes` (blog_types.dfy) | src/types/BlogPost.ts |

Support modules:

- **`Tally`** holds the category counting that `BlogManager.getAllCategories` and `getCategoriesWithCounts` share.
- **`StableSort`** models the JavaScript library sort, which is stable, as a stable insertion sort (descending by an integer key) with its permutation, order and stability lemmas.
- **`Seqs`** holds sequence tools:
  - `Array.filter`;
  - `Array.slice`, including negative indices;
  - insertion-ordered set union;
  - flat-map;
  - subsequences.
- **`Text`** holds the string tools: JavaScript whitespace, ASCII case mapping, `trim`, `split` and `join`.
- **`Wrappers`** holds `Option` and `Result`.

Modelling choices:

- **Dates.** `new Date(s).getTime()` is a parameter `time: string -> int`. The code only compares these values.
- **Ids.** Project ids are natural numbers.
- **Errors.** Thrown errors become `Result` values. A constructor that can fail takes whether it threw as an input.
- **State in place.** The classes (`BlogManager`, `ProjectManager`, `ContactForm`, `BlogGridState`) keep the fields the source updates in place.
  - `ProjectManager`'s `projects` is a `seq` field the methods reassign.
  - The React state setters of the form and the grid are field assignments.
  - A React effect reads the state of the render it follows, not what an earlier effect of the same commit set. `Mount` therefore runs the grid's second effect against the constructor's state, and `UpdateDisplayed` called on its own stands for a later run of that effect, after a re-render.

## Model

| member | source | states |
|---|---|---|
| StableSort.SortDescPerm | src/data/blogData/BlogManager.ts:11-13 | sorting returns a permutation of its input, of the same length |
| StableSort.SortDescSorted | src/data/blogData/BlogManager.ts:11-13 | the sorted list is ordered by key, largest first |
| StableSort.SortDescStable | src/data/blogData/BlogManager.ts:11-13 | items with equal keys keep their original relative order (the library sort is stable) |
| StableSort.SortDescSum | src/data/blogData/BlogManager.ts:132-134 | sorting leaves the sum of any per-item quantity unchanged |
| Seqs.Filter | src/data/blogData/BlogManager.ts:50 | `Array.filter` keeps exactly the elements satisfying the predicate |
| Seqs.FilterMultiset | src/data/blogData/BlogManager.ts:50 | a filter keeps every copy of a kept element and none of a dropped one |
| Seqs.FilterIsSubseq | src/data/blogData/BlogManager.ts:50 | a filter keeps the elements in their original order |
| Seqs.JsSlice | src/data/blogData/BlogManager.ts:61 | `Array.slice`: indices are clamped and negative ones count from the end; the length is the distance between them, and each element is the source element at the clamped start plus its offset |
| Seqs.PrefixSlice | src/data/blogData/BlogManager.ts:61 | `slice(0, n)` for `n >= 0` is the prefix of length `min(n, length)` |
| Seqs.AddAllMembers | src/data/blogData/categories.ts:13-23 | the set union holds exactly the seed's and the added elements |
| Seqs.AddAllPrefix | src/data/blogData/categories.ts:16 | the union starts with the seed, in order |
| Seqs.AddAllNoDup | src/data/blogData/categories.ts:13 | a union seeded without duplicates has none |
| Seqs.AddAllOrder | src/data/blogData/categories.ts:19-21 | the names after the seed are a subsequence of the added elements |
| Seqs.AddAllFirstSeen | src/data/blogData/categories.ts:13-23 | the names after the seed are added elements not in the seed, listed by strictly increasing first position among the added elements |
| Text.Trim | scripts/process-blog-posts.ts:46 | `trim` is empty exactly for blank input, otherwise starts and ends with a non-space |
| Text.TrimKeepsMiddle | scripts/process-blog-posts.ts:46 | `trim` is the input with only its edge whitespace removed: a slice of it with nothing but whitespace on either side |
| Text.LowerStr | src/data/blogData/BlogManager.ts:68-71 | `toLowerCase` maps each character through ASCII lower-casing and keeps the length |
| Text.JoinSplit | src/components/Blog/BlogGrid.tsx:68-70 | joining the pieces of a split with the separator gives back the string |
| Text.SplitJoin | src/components/Blog/BlogGrid.tsx:68-70 | splitting a join of separator-free pieces gives back the pieces |
| Text.SplitOnSpacesJoin | scripts/process-blog-posts.ts:46 | splitting on whitespace runs gives back space-joined words |
| BlogTypes.OptOrElse | src/types/BlogPost.ts:117 | `x \|\| fallback` takes a present, non-empty string, else the fallback |
| BlogTypes.CreateBlogPost | src/types/BlogPost.ts:65-107 | each field is the supplied value when present, else its default; a supplied author or seo replaces the whole record |
| BlogTypes.CreateFromAllFields | src/types/BlogPost.ts:65-107 | supplying every field of a post rebuilds that post exactly |
| BlogTypes.CreateFromNoFields | src/types/BlogPost.ts:66-104 | supplying nothing gives the default post |
| BlogTypes.GenerateSeoMetadata | src/types/BlogPost.ts:110-122 | the SEO record from a post: title with site name, excerpt, categories, cover image, dates with the `updatedAt` fallback, first category or 'Blog', author, canonical URL |
| BlogTypes.CanonicalUrlSlug | src/types/BlogPost.ts:120 | the canonical URL ends in the slug, and two posts share a canonical URL exactly when they share a slug |
| Markdown.CollapseRuns | src/components/Blog/BlogPost.tsx:32-33 | replacing non-alphanumeric runs leaves only slug characters and no two dashes in a row |
| Markdown.GenerateSlug | src/components/Blog/BlogPost.tsx:31-35 | the slug contains only `a-z0-9-`, no edge dash, no double dash, and is no longer than its text |
| Markdown.SlugFixed | src/components/Blog/BlogPost.tsx:31-35 | a well-formed slug is its own slug |
| Markdown.GenerateSlugWords | src/components/Blog/BlogPost.tsx:31-35 | the slug is exactly the maximal `[a-z0-9]` runs of the lower-cased text, in order, joined by single dashes; nothing else survives and other characters before the first run or after the last leave no trace |
| Markdown.CollapseWords | src/components/Blog/BlogPost.tsx:33 | on text starting with an alphanumeric, the replacement gives the runs joined by single dashes plus one dash when the text ends in other characters |
| Markdown.GenerateSlugIdempotent | src/components/Blog/BlogPost.tsx:31-35 | slugging a slug changes nothing |
| Markdown.ParseHeading | src/components/Blog/BlogPost.tsx:75-82 | a recognised heading has level equal to its `#` count in 2..4, a non-empty title, and the title's slug |
| Markdown.NotTwoToFour | src/components/Blog/BlogPost.tsx:75 | lines with one or five or more `#` give no heading |
| Markdown.HeadingWithTitle | src/components/Blog/BlogPost.tsx:75-82 | 2-4 `#`, whitespace and a one-line title always give that heading |
| Markdown.HeadingItems | src/components/Blog/BlogPost.tsx:76-84 | each line contributes one well-formed item if it is a heading and none otherwise |
| Markdown.TocOfLinesWellFormed | src/components/Blog/BlogPost.tsx:77-82 | every table-of-contents item is well formed (level 2-4, title, slug of the title) |
| Markdown.TocOfLinesAppend | src/components/Blog/BlogPost.tsx:74-84 | items keep line order: the table of concatenated lines is the concatenation of the tables |
| Markdown.TocOfLinesCount | src/components/Blog/BlogPost.tsx:74-84 | the table has exactly one item per heading line |
| Markdown.PageTableOfContents | src/components/Blog/BlogPost.tsx:87 | the table is empty unless the full post is shown |
| Markdown.HeadingClass | src/components/Blog/BlogPost.tsx:90-101 | the fallback class is given exactly to levels outside 2..4 |
| Markdown.TocItemsStyled | src/components/Blog/BlogPost.tsx:90-101 | no table-of-contents item gets the fallback class |
| Tally.CountCategories | src/data/blogData/categories.ts:33-46 | the nested loops tally every category entry of every post |
| Tally.TallyStep | src/data/blogData/categories.ts:43-44 | counting one entry raises a known name's count by one, or adds a new name with count 1 |
| Tally.TallySum | src/data/blogData/categories.ts:41-46 | the counts sum to the number of entries seen |
| Tally.RankedProps | src/data/blogData/categories.ts:48-50 | the ranked list holds each name once with its number of occurrences, sorted by count descending, counts summing to the entries |
| Categories.InitialCategoriesDistinct | src/data/blogData/categories.ts:4-9 | the four initial categories are distinct |
| Categories.GetAllCategories | src/data/blogData/categories.ts:12-24 | the result is the insertion-ordered union of the initial and the post categories |
| Categories.AllCategoriesProps | src/data/blogData/categories.ts:12-24 | starts with the initial categories, holds every post category and nothing else, has no duplicates, and lists the new names by strictly increasing first position among the post categories |
| Categories.ShouldUpdatePeriodic | src/data/blogData/categories.ts:27-29 | adding ten posts does not change the answer, and the empty list answers true |
| Categories.ShouldUpdateOncePerTen | src/data/blogData/categories.ts:27-29 | within any ten consecutive lengths exactly one answers true, the next multiple of ten |
| Categories.GetCategoriesWithCounts | src/data/blogData/categories.ts:32-51 | every initial and post category is listed once with its exact count; sorted by count descending; counts sum to the entries |
| Categories.CountsCover | src/data/blogData/categories.ts:36-46 | initial categories (count 0 included) and post categories all appear in the ranked list |
| Categories.GetRelevantCategories | src/data/blogData/categories.ts:54-68 | a post's own categories when it has any, else exactly the given categories mentioned in content or title, in order and with their multiplicity |
| Categories.RelevantIgnoresCase | src/data/blogData/categories.ts:61-67 | two spellings equal up to case are chosen together or not at all |
| BlogQueries.SortByDateProps | src/data/blogData/BlogManager.ts:11-13 | the date sort is newest first, a permutation of the data, and keeps load order among equal dates |
| BlogQueries.Shared | src/data/blogData/BlogManager.ts:93-97 | the shared-category count is at most the post's category count, and zero exactly when nothing is shared |
| BlogQueries.ScorePost | src/data/blogData/BlogManager.ts:91-99 | the loop's score is two points per category of the post found exactly in the other post |
| BlogQueries.BlogManager.constructor | src/data/blogData/BlogManager.ts:9-27 | the store is the data sorted by date, newest first, or empty when loading threw |
| BlogQueries.BlogManager.GetAllBlogPosts | src/data/blogData/BlogManager.ts:30-33 | returns the stored, date-sorted list |
| BlogQueries.BlogManager.GetBlogPostBySlug | src/data/blogData/BlogManager.ts:36-45 | the first post with that slug, or none exactly when no post has it |
| BlogQueries.BlogManager.GetFeaturedBlogPosts | src/data/blogData/BlogManager.ts:48-57 | exactly the featured posts, each as often as it is stored, in stored order |
| BlogQueries.BlogManager.GetRecentBlogPosts | src/data/blogData/BlogManager.ts:60-62 | the prefix of length `min(limit, n)` (default 5); a negative limit drops posts from the end |
| BlogQueries.BlogManager.RecentAreNewest | src/data/blogData/BlogManager.ts:60-62 | every recent post is at least as new as every post left out |
| BlogQueries.BlogManager.GetBlogPostsByCategory | src/data/blogData/BlogManager.ts:65-80 | exactly the posts with a category equal to the argument up to case, each as often as it is stored, in stored order |
| BlogQueries.BlogManager.CategoryIgnoresCase | src/data/blogData/BlogManager.ts:68-72 | spellings that differ only in case give identical results |
| BlogQueries.ScoreAll | src/data/blogData/BlogManager.ts:89-100 | each post is paired with its own score, in order |
| BlogQueries.PostsOf | src/data/blogData/BlogManager.ts:106 | `.map(item => item.post)` keeps order and length |
| BlogQueries.ScoreAllWithKey | src/data/blogData/BlogManager.ts:89-100 | the entries scoring `k` are the posts scoring `k`, in order |
| BlogQueries.BlogManager.Others | src/data/blogData/BlogManager.ts:86 | exactly the stored posts with another id, in stored order |
| BlogQueries.BlogManager.OthersCounts | src/data/blogData/BlogManager.ts:86 | each post with another id occurs as often as it is stored |
| BlogQueries.BlogManager.GetRelatedBlogPosts | src/data/blogData/BlogManager.ts:83-114 | the posts of the first `limit` entries of the stable score ranking of the other posts, so exactly `min(limit, number of other posts)` posts for `limit >= 0`; other posts only, scores non-increasing, and no better-scoring other post is left out |
| BlogQueries.BlogManager.RankingTies | src/data/blogData/BlogManager.ts:103 | the sort is stable: posts with equal scores stay in stored order, newest first |
| BlogQueries.BlogManager.RelatedProps | src/data/blogData/BlogManager.ts:86-106 | the scored, sorted, sliced list has exactly `min(limit, number of other posts)` entries for `limit >= 0`, other posts only, scores non-increasing, and no better-scoring other post left out |
| BlogQueries.BlogManager.TopIsPrefix | src/data/blogData/BlogManager.ts:106 | `slice(0, limit)` of the ranking is its prefix of exactly `min(limit, length)` entries for `limit >= 0` |
| BlogQueries.BlogManager.RelatedTopK | src/data/blogData/BlogManager.ts:103-106 | a prefix of the score ranking holds every other post scoring above any member |
| BlogQueries.BlogManager.GetAllCategories | src/data/blogData/BlogManager.ts:117-135 | each distinct post category once with its occurrence count, sorted by count descending, counts summing to all entries |
| Projects.Complete | src/data/projectData/ProjectManager.ts:17-21 | all fields copied, `featured` defaults to false, and `priority` defaults to the given value |
| Projects.ApplyProps | src/data/projectData/ProjectManager.ts:61-64 | an empty update changes nothing, an update applied twice equals once, and absent fields are kept |
| Projects.FindIndex | src/data/projectData/ProjectManager.ts:58 | the first index holding the id, or none exactly when no project has it |
| Projects.MaxId | src/data/projectData/ProjectManager.ts:100 | the largest id, 0 for no projects |
| Projects.NextIdFresh | src/data/projectData/ProjectManager.ts:99-101 | the generated id is at least 1 and differs from every existing id |
| Projects.MaxPriority | src/data/projectData/ProjectManager.ts:104 | the largest priority, floored at 0 |
| Projects.NextPriorityLast | src/data/projectData/ProjectManager.ts:103-105 | the next priority is at least 1 and above every existing priority |
| Projects.SortByPriority | src/data/projectData/ProjectManager.ts:26 | a permutation sorted by priority ascending, in which projects of equal priority keep their list order |
| Projects.FlippedTwice | src/data/projectData/ProjectManager.ts:79-86 | toggling twice restores the list, and toggling never moves the project's index |
| Projects.DeleteKeepsOthers | src/data/projectData/ProjectManager.ts:70-76 | removing the first match shortens the list by one, keeps the rest in order, and removes only that project |
| Projects.ProjectManager.constructor | src/data/projectData/ProjectManager.ts:14-22 | each loaded project gets `featured = false` and `priority = 999` where missing |
| Projects.ProjectManager.GetAllProjects | src/data/projectData/ProjectManager.ts:25-27 | a permutation of the projects sorted by priority ascending, equal priorities (such as every defaulted 999) in list order |
| Projects.ProjectManager.GetFeaturedProjects | src/data/projectData/ProjectManager.ts:30-34 | a permutation of the featured projects, sorted by priority ascending, equal priorities in list order |
| Projects.ProjectManager.GetProjectsByType | src/data/projectData/ProjectManager.ts:37-41 | a permutation of the projects of that type, sorted by priority ascending, equal priorities in list order; 'all' matches none |
| Projects.ProjectManager.AddProject | src/data/projectData/ProjectManager.ts:44-54 | appends one project with the next id and, when missing, the next priority; nothing else changes |
| Projects.ProjectManager.UpdateProject | src/data/projectData/ProjectManager.ts:57-67 | unknown id fails and changes nothing; otherwise only the first match becomes itself overridden by the update |
| Projects.ProjectManager.DeleteProject | src/data/projectData/ProjectManager.ts:70-76 | unknown id fails and changes nothing; otherwise exactly the first match is removed |
| Projects.ProjectManager.ToggleFeatured | src/data/projectData/ProjectManager.ts:79-86 | unknown id fails; otherwise only the first match's `featured` flips |
| Projects.ProjectManager.UpdatePriority | src/data/projectData/ProjectManager.ts:89-96 | unknown id fails; otherwise only the first match's priority is set |
| ContactWizard.Set | src/components/ContactFormPopup.tsx:78-81 | the current field takes the value, and no other field changes |
| ContactWizard.EmailValidIsPattern | src/components/ContactFormPopup.tsx:29 | the email check accepts exactly `local@domain.tld` with non-empty parts free of whitespace and `@` |
| ContactWizard.PhoneValidMeaning | src/components/ContactFormPopup.tsx:37 | blank is accepted; otherwise 7 to 20 characters drawn from digits, whitespace and `+-()` |
| ContactWizard.RunValidator | src/components/ContactFormPopup.tsx:29-37 | each validator passes exactly on its pattern and otherwise gives its message |
| ContactWizard.ValidateField | src/components/ContactFormPopup.tsx:87-107 | a blank required answer fails with 'This field is required' before any validator runs |
| ContactWizard.QuestionRules | src/components/ContactFormPopup.tsx:15-60 | when each of the six answers passes |
| ContactWizard.SubmitErrorOf | src/components/ContactFormPopup.tsx:123-134 | no error exactly on success; otherwise a non-empty message |
| ContactWizard.ContactForm.constructor | src/components/ContactFormPopup.tsx:63-75 | step 0, all fields empty, no errors, not submitting, not submitted |
| ContactWizard.ContactForm.HandleInputChange | src/components/ContactFormPopup.tsx:77-85 | only the current question's field changes, and the validation error is cleared |
| ContactWizard.ContactForm.ValidateCurrentField | src/components/ContactFormPopup.tsx:87-107 | passes exactly when the current answer validates, else records the message |
| ContactWizard.ContactForm.HandleNext | src/components/ContactFormPopup.tsx:109-138 | a failing answer stays put; a passing one moves on, or submits on the last step with the outcome's effect; step stays in 0..5 |
| ContactWizard.ContactForm.HandleBack | src/components/ContactFormPopup.tsx:140-145 | one step back with the error cleared, or nothing at step 0 |
| BlogGridLogic.Capitalize | src/components/Blog/BlogGrid.tsx:69 | the first character upper-cased, the rest kept |
| BlogGridLogic.SlugToName | src/components/Blog/BlogGrid.tsx:68-70 | dashes become spaces, and the first character and each character after a dash are upper-cased |
| BlogGridLogic.SlugToNameIsNameFrom | src/components/Blog/BlogGrid.tsx:68-70 | split-capitalize-join equals the character-by-character rule |
| BlogGridLogic.SelectPosts | src/components/Blog/BlogGrid.tsx:62-74 | featured, then explicit category, then slug category, then all; always a subsequence of the store |
| BlogGridLogic.ApplyLimit | src/components/Blog/BlogGrid.tsx:77-79 | a prefix of `min(limit, n)` only for a positive limit without pagination |
| BlogGridLogic.TotalPages | src/components/Blog/BlogGrid.tsx:85 | at least 1, and the fewest pages that hold every post |
| BlogGridLogic.PageSliceBounds | src/components/Blog/BlogGrid.tsx:101-103 | page p is `posts[(p-1)k .. min(pk, n)]`, at most k posts |
| BlogGridLogic.PagesUpToPrefix | src/components/Blog/BlogGrid.tsx:101-103 | pages 1..m together are the first `min(mk, n)` posts |
| BlogGridLogic.PagesCoverAll | src/components/Blog/BlogGrid.tsx:101-103 | pages 1..totalPages together are the whole list |
| BlogGridLogic.InvalidPageMeaning | src/components/Blog/BlogGrid.tsx:106 | with at least one page, a page is invalid exactly outside 1..totalPages |
| BlogGridLogic.PageChange | src/components/Blog/BlogGrid.tsx:174-187 | navigation only for pages in range; page 1 without a query parameter |
| BlogGridLogic.PageWindow | src/components/Blog/BlogGrid.tsx:298-299 | `min(5, totalPages)` consecutive pages in range, containing the current page when it is valid; it starts at 1 for pages up to 3 or fewer than five pages, ends at the last page for the last three pages, and otherwise has the current page in the middle |
| BlogGridLogic.BlogGridState.constructor | src/components/Blog/BlogGrid.tsx:44-47 | no posts, one page, loading |
| BlogGridLogic.BlogGridState.LoadPosts | src/components/Blog/BlogGrid.tsx:55-95 | the selected, limited posts; the page count when paginating; loading ends |
| BlogGridLogic.BlogGridState.UpdateDisplayed | src/components/Blog/BlogGrid.tsx:98-116 | the current page's slice (or all posts), and a redirect exactly for an invalid page |
| BlogGridLogic.Mount | src/components/Blog/BlogGrid.tsx:44-116 | on mount both effects read the first render's state, so a paginated grid redirects every page other than 1, while the posts and page count are loaded |
| PostProcessing.WordCount | scripts/process-blog-posts.ts:46 | the piece count is at least 1 |
| PostProcessing.ReadingTime | scripts/process-blog-posts.ts:44-48 | at least 1, and the ceiling of words / 200 |
| PostProcessing.ReadingTimeBlank | scripts/process-blog-posts.ts:44-48 | blank content counts as one word and one minute |
| PostProcessing.ReadingTimeOfWords | scripts/process-blog-posts.ts:44-48 | text of n space-separated words counts n words and takes ceil(n / 200) minutes |
| PostProcessing.WordsAreWords | scripts/process-blog-posts.ts:46 | on non-blank content every counted piece is a non-empty run of non-whitespace |
| PostProcessing.ResolveReadingTime | scripts/process-blog-posts.ts:59 | a non-zero front-matter value is kept, otherwise the estimate; never zero |
| PostProcessing.PostAuthor | scripts/process-blog-posts.ts:137-147 | author id "1", name and avatar kept, bio/title/social take fixed defaults when missing |
| PostProcessing.SeoFromBlock | scripts/process-blog-posts.ts:78-87 | each missing or empty SEO field falls back to the post's value |
| PostProcessing.SeoRoutesAgree | scripts/process-blog-posts.ts:78-121 | without a block the generated record equals the empty-block one except that `modifiedTime` is the date |
| PostProcessing.ProcessMarkdownFile | scripts/process-blog-posts.ts:50-159 | the post built from front matter: field by field, featured false and draft true by default, table of contents of the content |
| PostProcessing.ProcessedSeoIsGenerated | scripts/process-blog-posts.ts:88-121 | without a block the stored SEO equals `generateSEOMetadata` of the post exactly when `lastModified` is absent, empty or the date |
| PostProcessing.EmptyBlockIsGenerated | scripts/process-blog-posts.ts:78-87 | an empty block gives exactly the generated record |
| PostProcessing.MergeProps | scripts/process-blog-posts.ts:175-180 | new posts first, then, in order and with their multiplicity, exactly the stored posts whose slug no new post has |
| PostProcessing.MergeDistinctSlugs | scripts/process-blog-posts.ts:175-180 | with distinct slugs on both sides, the merge has distinct slugs |
| PostProcessing.MergeMembers | scripts/process-blog-posts.ts:175-180 | every merged post is new or a stored post with an unmatched slug |
| PostProcessing.SortedMergeProps | scripts/process-blog-posts.ts:175-185 | the sorted merge is newest first, a permutation of the merge, holds all new posts and no replaced stored post |
| PostProcessing.UpdateBlogData | scripts/process-blog-posts.ts:162-185 | no data array fails with the script's message; otherwise the merge sorted by date with the properties above |

## Left out

**Behaviour kept as the code has it:**
- Related-post scoring uses only categories, compared exactly, at 2 points each. Tags are not scored, and categories are not compared case-insensitively there.
- The contact form has no "Other" free-text sub-field.

**Not modelled in the blog store (`BlogManager`):**
- An unparseable `publishedAt` makes `getTime()` NaN, so the comparator returns NaN and the order is up to the engine. `time: string -> int` always gives a number, so this case is not modelled.
- `getAllBlogPosts` returns the internal array itself. The model returns its value, so aliasing is not modelled.
- `getAllCategories` goes through `Object.entries`, which lists integer-like keys before the others. The model keeps first-seen order for all names.
- A `Record` key such as `constructor` or `__proto__` behaves specially in JavaScript. Categories are treated as plain keys.
- The `console.error` calls in the catch blocks are not modelled. Only the constructor's catch, which empties the store, is modelled.
- Sorting in place is modelled as assigning the sorted value.
- A post whose `categories` is not an array is not modelled, because the type always has one.

**Not modelled in the project store (`ProjectManager`):**
- Ids are natural numbers, so `parseInt` of a non-numeric id (NaN) is not modelled.
- `saveProjects` only logs.
- `priority` is a JavaScript number but is modelled as `int`, so fractional priorities are not covered.
- An update field given explicitly as `undefined` is not modelled.
- Objects returned by `toggleFeatured`/`updatePriority` are aliases into the list. The model returns a copy.
- `getProjectsByType('all')` matches no project, so it returns an empty list. This follows the code.

**Not modelled in the contact form:**
- The submission request, the `setTimeout` auto-close and the progress-bar percentage (a float) are left out.
- The request's outcome is an input to `HandleNext`. The user cannot act while a submission runs, so the model treats it as one step.

**Not modelled in the blog grid:**
- `navigate`, `window.scrollTo` and console output are left out. A redirect is returned as a boolean.
- `limit` and `postsPerPage` are JavaScript numbers but are modelled as `int`, so fractional values (a fractional slice bound or page count) are not covered.
- `parseInt` of the page parameter is left out, so the current page is an integer input and a NaN page is not modelled.
- BlogGridLogic.TotalPages and BlogGridState.LoadPosts require `postsPerPage >= 1`. A zero or negative page size would make JavaScript divide by zero, and the component never passes one.
- The error branches of the effects are left out, since the modelled queries do not throw.
- React's scheduling after mount is not modelled: how the redirect from `Mount` and the re-render it causes interleave with the second effect's later runs is left to the caller, who calls `UpdateDisplayed` again with the new page.

**Not modelled in the post-processing script:**
- File reading and writing are left out.
- `gray-matter` parsing is left out: the front matter and body are inputs.
- `uuidv4` is left out: the id is a parameter.
- The regex match and `eval` of the data file are left out: the stored array is an `Option` input, and `None` models a failed match.
- `processAllPosts` is directory I/O and is left out.
- zod's `BlogPostSchema.parse` is left out. The only effect kept is that the post has no `tags` field.
- A non-numeric `readingTime` is not modelled.
- `new Date().toISOString()` defaults of `createBlogPost` are a `now` parameter.
- In `createBlogPost` (src/types/BlogPost.ts:106), a field supplied explicitly as `undefined` overrides its default, because the spread copies it. The model treats an absent field and an `undefined` one alike, so that case is not modelled.

**Text handling and markdown:**
- Case mapping is ASCII only; Unicode case folding is not modelled.
- Whitespace is the explicit set JavaScript's `\s` matches.
- `marked` and `DOMPurify` rendering is left out. Only the slug and table-of-contents logic is kept.
