/** The heading helpers of the blog post page and of the post-processing script:
    `generateSlug`, the table-of-contents extractor and `getHeadingClass`. */
module Markdown {
  import opened Wrappers
  import opened Text
  import opened BlogTypes
  import opened Seqs

  /** The characters a slug is made of. */
  predicate IsSlugChar(c: char) { IsLowerAlnum(c) || c == '-' }

  /** A well-formed slug: only `a-z`, `0-9` and `-`, no `-` at either end and
      no two `-` in a row. */
  predicate IsSlug(s: string) {
    && (forall i :: 0 <= i < |s| ==> IsSlugChar(s[i]))
    && (s != [] ==> s[0] != '-' && s[|s| - 1] != '-')
    && (forall i :: 0 <= i < |s| - 1 ==> !(s[i] == '-' && s[i + 1] == '-'))
  }

  /** The number of leading characters outside `[a-z0-9]`. */
  function NonAlnumRun(s: string): (n: nat)
    ensures 0 < |s| && !IsLowerAlnum(s[0]) ==> 0 < n
    ensures n <= |s|
    ensures forall i :: 0 <= i < n ==> !IsLowerAlnum(s[i])
    ensures n < |s| ==> IsLowerAlnum(s[n])
  {
    if s == [] || IsLowerAlnum(s[0]) then 0 else 1 + NonAlnumRun(s[1..])
  }

  /** `.replace(/[^a-z0-9]+/g, '-')`: each maximal run of other characters becomes one `-`. */
  function CollapseRuns(s: string): (r: string)
    ensures forall i :: 0 <= i < |r| ==> IsSlugChar(r[i])
    ensures forall i :: 0 <= i < |r| - 1 ==> !(r[i] == '-' && r[i + 1] == '-')
    ensures s != [] && IsLowerAlnum(s[0]) ==> r != [] && r[0] == s[0]
    ensures s == [] <==> r == []
    decreases |s|
  {
    if s == [] then []
    else if IsLowerAlnum(s[0]) then [s[0]] + CollapseRuns(s[1..])
    else "-" + CollapseRuns(s[NonAlnumRun(s)..])
  }

  /** `.replace(/(^-|-$)/g, '')`: one `-` removed at each end. */
  function StripEdgeDashes(t: string): string {
    var a := if t != [] && t[0] == '-' then t[1..] else t;
    if a != [] && a[|a| - 1] == '-' then a[..|a| - 1] else a
  }

  /** `generateSlug`: lower-case, then collapse and strip the dashes. */
  function GenerateSlug(text: string): (r: string)
    ensures IsSlug(r)
    ensures |r| <= |text|
  {
    var c := CollapseRuns(LowerStr(text));
    CollapseLength(LowerStr(text));
    StripEdgeDashes(c)
  }

  lemma {:induction false} CollapseLength(s: string)
    ensures |CollapseRuns(s)| <= |s|
    decreases |s|
  {
    if s != [] {
      if IsLowerAlnum(s[0]) {
        CollapseLength(s[1..]);
      } else {
        CollapseLength(s[NonAlnumRun(s)..]);
      }
    }
  }

  lemma {:induction false} CollapseFixesSlugChars(s: string)
    requires forall i :: 0 <= i < |s| ==> IsSlugChar(s[i])
    requires forall i :: 0 <= i < |s| - 1 ==> !(s[i] == '-' && s[i + 1] == '-')
    ensures CollapseRuns(s) == s
    decreases |s|
  {
    if s != [] {
      if !IsLowerAlnum(s[0]) {
        assert NonAlnumRun(s) == 1 by {
          if |s| > 1 {
            assert IsLowerAlnum(s[1]);
            assert NonAlnumRun(s[1..]) == 0;
          } else {
            assert s[1..] == [];
          }
        }
      }
      CollapseFixesSlugChars(s[1..]);
    }
  }

  lemma SlugFixed(t: string)
    requires IsSlug(t)
    ensures GenerateSlug(t) == t
  {
    LowerSlugChars(t);
    CollapseFixesSlugChars(t);
    StripSlug(t);
  }

  lemma StripSlug(t: string)
    requires t != [] ==> t[0] != '-' && t[|t| - 1] != '-'
    ensures StripEdgeDashes(t) == t
  {
  }

  lemma LowerSlugChars(t: string)
    requires forall i :: 0 <= i < |t| ==> IsSlugChar(t[i])
    ensures LowerStr(t) == t
  {
    forall i | 0 <= i < |t| ensures LowerStr(t)[i] == t[i] {
      assert IsSlugChar(t[i]);
    }
  }

  /** `generateSlug` leaves a slug unchanged, and so is idempotent. */
  lemma GenerateSlugIdempotent(s: string)
    ensures IsSlug(s) ==> GenerateSlug(s) == s
    ensures GenerateSlug(GenerateSlug(s)) == GenerateSlug(s)
  {
    if IsSlug(s) {
      SlugFixed(s);
    }
    SlugFixed(GenerateSlug(s));
  }

  /** The number of leading characters in `[a-z0-9]`. */
  function AlnumRun(s: string): (n: nat)
    ensures 0 < |s| && IsLowerAlnum(s[0]) ==> 0 < n
    ensures n <= |s|
    ensures forall i :: 0 <= i < n ==> IsLowerAlnum(s[i])
    ensures n < |s| ==> !IsLowerAlnum(s[n])
  {
    if s == [] || !IsLowerAlnum(s[0]) then 0 else 1 + AlnumRun(s[1..])
  }

  /** A non-empty run of `[a-z0-9]`. */
  predicate IsWord(w: string) {
    w != [] && forall i :: 0 <= i < |w| ==> IsLowerAlnum(w[i])
  }

  /** The maximal runs of `[a-z0-9]` in `s`, in order. */
  function Words(s: string): (r: seq<string>)
    ensures forall i :: 0 <= i < |r| ==> IsWord(r[i])
    decreases |s|
  {
    var n := NonAlnumRun(s);
    if n == |s| then []
    else
      var t := s[n..];
      var w := AlnumRun(t);
      [t[..w]] + Words(t[w..])
  }

  /** `generateSlug` keeps exactly the alphanumeric runs of the lower-cased
      text, in order, and puts a single `-` between neighbouring runs: every
      stretch of other characters between two runs becomes one `-`, and those
      before the first run or after the last disappear. */
  lemma GenerateSlugWords(text: string)
    ensures GenerateSlug(text) == Join(Words(LowerStr(text)), "-")
  {
    var s := LowerStr(text);
    assert GenerateSlug(text) == StripEdgeDashes(CollapseRuns(s));
    if s == [] {
      assert NonAlnumRun(s) == |s|;
    } else if IsLowerAlnum(s[0]) {
      SlugWordsAlnumStart(s);
    } else {
      SlugWordsOtherStart(s);
    }
  }

  /** The slug of a text that starts with an alphanumeric. */
  lemma SlugWordsAlnumStart(s: string)
    requires s != [] && IsLowerAlnum(s[0])
    ensures StripEdgeDashes(CollapseRuns(s)) == Join(Words(s), "-")
  {
    CollapseWords(s);
    JoinedWordsEdges(Words(s));
    StripAround(CollapseRuns(s), Join(Words(s), "-"), Trail(s));
  }

  /** The slug of a text that starts with other characters. */
  lemma SlugWordsOtherStart(s: string)
    requires s != [] && !IsLowerAlnum(s[0])
    ensures StripEdgeDashes(CollapseRuns(s)) == Join(Words(s), "-")
  {
    var m := NonAlnumRun(s);
    WordsSkip(s);
    CollapseSkip(s);
    if m < |s| {
      SlugWordsAfterDash(s[m..]);
    } else {
      assert s[m..] == [];
      assert NonAlnumRun(s[m..]) == 0;
    }
  }

  /** The leading `-` that a run of other characters left is dropped. */
  lemma SlugWordsAfterDash(s: string)
    requires s != [] && IsLowerAlnum(s[0])
    ensures StripEdgeDashes("-" + CollapseRuns(s)) == Join(Words(s), "-")
  {
    CollapseWords(s);
    JoinedWordsEdges(Words(s));
    StripAround(CollapseRuns(s), Join(Words(s), "-"), Trail(s));
  }

  /** `-` when `s` ends outside `[a-z0-9]`, nothing otherwise. */
  function Trail(s: string): string {
    if s != [] && !IsLowerAlnum(s[|s| - 1]) then "-" else ""
  }

  /** A non-empty suffix ends where the whole text does. */
  lemma TrailSuffix(s: string, k: nat)
    requires k < |s|
    ensures Trail(s[k..]) == Trail(s)
  {
    assert s[k..][|s[k..]| - 1] == s[|s| - 1];
  }

  /** Leading characters outside `[a-z0-9]` contribute no word. */
  lemma WordsSkip(v: string)
    ensures Words(v) == Words(v[NonAlnumRun(v)..])
  {
    var v2 := v[NonAlnumRun(v)..];
    assert NonAlnumRun(v2) == 0;
    assert v2[0..] == v2;
  }

  /** A text starting with an alphanumeric begins with its first word. */
  lemma WordsCons(s: string)
    requires s != [] && IsLowerAlnum(s[0])
    ensures Words(s) == [s[..AlnumRun(s)]] + Words(s[AlnumRun(s)..])
  {
    assert NonAlnumRun(s) == 0;
    assert s[0..] == s;
  }

  /** A leading run of other characters collapses to one `-`. */
  lemma CollapseSkip(v: string)
    requires v != [] && !IsLowerAlnum(v[0])
    ensures CollapseRuns(v) == "-" + CollapseRuns(v[NonAlnumRun(v)..])
  {
  }

  /** Collapsing a run of alphanumerics keeps it as it is. */
  lemma {:induction false} CollapseAlnumPrefix(u: string, v: string)
    requires forall i :: 0 <= i < |u| ==> IsLowerAlnum(u[i])
    ensures CollapseRuns(u + v) == u + CollapseRuns(v)
    decreases |u|
  {
    if u == [] {
      assert u + v == v;
    } else {
      assert (u + v)[1..] == u[1..] + v;
      CollapseAlnumPrefix(u[1..], v);
    }
  }

  /** Joining with `-` after a first piece. */
  lemma JoinDash(u: string, ws: seq<string>)
    ensures Join([u] + ws, "-") == if ws == [] then u else u + "-" + Join(ws, "-")
  {
    assert ([u] + ws)[1..] == ws;
  }

  /** On a text that starts with an alphanumeric (or is empty), collapsing
      gives the words joined by `-`, plus one trailing `-` when the text ends
      outside `[a-z0-9]`. */
  lemma {:induction false} CollapseWords(s: string)
    requires s == [] || IsLowerAlnum(s[0])
    ensures CollapseRuns(s) == Join(Words(s), "-") + Trail(s)
    decreases |s|, 1
  {
    if s != [] {
      var w := AlnumRun(s);
      var u, v := s[..w], s[w..];
      assert s == u + v;
      CollapseAlnumPrefix(u, v);
      WordsCons(s);
      JoinDash(u, Words(v));
      CollapseGap(v);
      if v == [] {
        assert s[|s| - 1] == u[w - 1];
      } else {
        TrailSuffix(s, w);
      }
      Glue(u, Words(v) == [], Join(Words(v), "-"), Trail(v));
    }
  }

  /** On a text that starts outside `[a-z0-9]` (or is empty), collapsing
      gives one `-` before the words when there are any, the words joined by
      `-`, and the trailing `-`. */
  lemma {:induction false} CollapseGap(v: string)
    requires v == [] || !IsLowerAlnum(v[0])
    ensures CollapseRuns(v) == (if Words(v) == [] then "" else "-") + Join(Words(v), "-") + Trail(v)
    decreases |v|, 0
  {
    if v != [] {
      var m := NonAlnumRun(v);
      WordsSkip(v);
      CollapseSkip(v);
      var v2 := v[m..];
      if m == |v| {
        assert v2 == [];
        assert Words(v2) == [] && CollapseRuns(v2) == [];
        assert Trail(v) == "-" by {
          assert !IsLowerAlnum(v[|v| - 1]);
        }
        assert CollapseRuns(v) == "-";
      } else {
        CollapseWords(v2);
        WordsCons(v2);
        assert Words(v) == Words(v2) != [];
        TrailSuffix(v, m);
        DashBefore(CollapseRuns(v2), Join(Words(v2), "-"), Trail(v2));
      }
    }
  }

  /** A dash in front of a join and its trail. */
  lemma DashBefore(c: string, j: string, t: string)
    requires c == j + t
    ensures "-" + c == "-" + j + t
  {
  }

  /** Putting a first word in front of the collapsed rest. */
  lemma Glue(u: string, none: bool, j: string, t: string)
    requires none ==> j == ""
    ensures u + ((if none then "" else "-") + j + t) == (if none then u else u + "-" + j) + t
  {
    if none {
      assert "" + j + t == t;
    } else {
      Regroup(u, "-", j, t);
    }
  }

  /** A join of words starts and ends with an alphanumeric. */
  lemma JoinedWordsEdges(ws: seq<string>)
    requires ws != [] && forall i :: 0 <= i < |ws| ==> IsWord(ws[i])
    ensures var j := Join(ws, "-"); j != [] && IsLowerAlnum(j[0]) && IsLowerAlnum(j[|j| - 1])
  {
    JoinFirst(ws, "-");
    JoinLast(ws, "-");
    assert IsWord(ws[0]) && IsWord(ws[|ws| - 1]);
  }

  /** Concatenation regrouped. */
  lemma Regroup<T>(a: seq<T>, b: seq<T>, c: seq<T>, d: seq<T>)
    ensures a + (b + (c + d)) == a + b + c + d
  {
  }

  /** Dropping one edge dash on each side of `j`, with or without a leading
      dash, leaves `j`. */
  lemma StripAround(c: string, j: string, trail: string)
    requires c == j + trail
    requires j != [] && IsLowerAlnum(j[0]) && IsLowerAlnum(j[|j| - 1])
    requires trail == "" || trail == "-"
    ensures StripEdgeDashes(c) == j
    ensures StripEdgeDashes("-" + c) == j
  {
    assert ("-" + c)[1..] == c;
    if trail == "-" {
      assert c[..|c| - 1] == j;
    } else {
      assert c == j;
    }
  }

  /** The number of leading `#`. */
  function HashRun(s: string): (n: nat)
    ensures n <= |s|
    ensures forall i :: 0 <= i < n ==> s[i] == '#'
    ensures n < |s| ==> s[n] != '#'
  {
    if s == [] || s[0] != '#' then 0 else 1 + HashRun(s[1..])
  }

  /** The filter `/^#{2,4}\s/`: two to four `#`, then whitespace. */
  predicate IsHeadingLine(line: string) {
    var h := HashRun(line);
    2 <= h <= 4 && h < |line| && IsSpace(line[h])
  }

  predicate NoLineTerminator(s: string) {
    forall i :: 0 <= i < |s| ==> !IsLineTerminator(s[i])
  }

  /** The `(.+)$` group of `/^(#{2,4})\s+(.+)$/` matched against what follows the
      `#`s (`rest` starts with whitespace). `\s+` is greedy, so the title is what
      follows the whitespace run; when nothing does, the match backtracks and the
      title is the last whitespace character. `.` matches no line terminator
      (a `\r` left by `split('\n')` makes the match fail). */
  function HeadingTitle(rest: string): Option<string> {
    var w := LeadingSpaces(rest);
    if w < |rest| then
      (if NoLineTerminator(rest[w..]) then Some(rest[w..]) else None)
    else if 2 <= |rest| && !IsLineTerminator(rest[|rest| - 1]) then Some(rest[|rest| - 1..])
    else None
  }

  /** One line of the extractor's `filter`/`map`/`filter` chain. */
  function ParseHeading(line: string): (r: Option<TocItem>)
    ensures r.Some? ==> IsHeadingLine(line)
    ensures r.Some? ==> r.value.level == HashRun(line) && 2 <= r.value.level <= 4
    ensures r.Some? ==> r.value.title != [] && r.value.slug == GenerateSlug(r.value.title)
  {
    if !IsHeadingLine(line) then None
    else
      var h := HashRun(line);
      match HeadingTitle(line[h..])
      case None => None
      case Some(title) => Some(TocItem(h, title, GenerateSlug(title)))
  }

  /** A line with one `#`, or five or more, is never a heading. */
  lemma NotTwoToFour(line: string)
    requires HashRun(line) == 1 || HashRun(line) >= 5
    ensures ParseHeading(line) == None
  {
  }

  /** A line of two to four `#`, whitespace, and then a title that starts with
      a non-space character and holds no line terminator yields exactly that title. */
  lemma HeadingWithTitle(hashes: nat, spaces: string, title: string)
    requires 2 <= hashes <= 4
    requires spaces != [] && IsBlank(spaces)
    requires title != [] && !IsSpace(title[0]) && NoLineTerminator(title)
    ensures ParseHeading(seq(hashes, _ => '#') + spaces + title) ==
            Some(TocItem(hashes, title, GenerateSlug(title)))
  {
    var line := seq(hashes, _ => '#') + spaces + title;
    assert HashRun(line) == hashes by {
      HashRunPrefix(hashes, spaces + title);
      assert line == seq(hashes, _ => '#') + (spaces + title);
    }
    var rest := line[hashes..];
    assert rest == spaces + title;
    LeadingSpacesPrefix(spaces, title);
  }

  lemma {:induction false} HashRunPrefix(k: nat, t: string)
    requires t != [] && t[0] != '#'
    ensures HashRun(seq(k, _ => '#') + t) == k
  {
    if k > 0 {
      var s := seq(k, _ => '#') + t;
      assert s[1..] == seq(k - 1, _ => '#') + t;
      HashRunPrefix(k - 1, t);
    } else {
      assert seq(k, _ => '#') + t == t;
    }
  }

  lemma {:induction false} LeadingSpacesPrefix(spaces: string, t: string)
    requires IsBlank(spaces) && t != [] && !IsSpace(t[0])
    ensures LeadingSpaces(spaces + t) == |spaces|
  {
    if spaces != [] {
      assert (spaces + t)[1..] == spaces[1..] + t;
      LeadingSpacesPrefix(spaces[1..], t);
    } else {
      assert spaces + t == t;
    }
  }

  /** The items one line contributes: its heading, or nothing. */
  function HeadingItems(line: string): (r: seq<TocItem>)
    ensures |r| == if ParseHeading(line).Some? then 1 else 0
    ensures forall k :: 0 <= k < |r| ==> WellFormedItem(r[k])
  {
    match ParseHeading(line) case Some(t) => [t] case None => []
  }

  /** A well-formed item: a level from 2 to 4, a title, and the title's slug. */
  predicate WellFormedItem(t: TocItem) {
    2 <= t.level <= 4 && t.title != [] && t.slug == GenerateSlug(t.title)
  }

  /** The extractor over a list of lines, keeping line order. */
  function TocOfLines(lines: seq<string>): seq<TocItem> {
    FlatMap(lines, HeadingItems)
  }

  /** Every extracted item is well formed. */
  lemma TocOfLinesWellFormed(lines: seq<string>)
    ensures forall k :: 0 <= k < |TocOfLines(lines)| ==> WellFormedItem(TocOfLines(lines)[k])
  {
    FlatMapAll(lines, HeadingItems, WellFormedItem);
  }

  /** Extraction distributes over concatenation: items appear in line order. */
  lemma TocOfLinesAppend(a: seq<string>, b: seq<string>)
    ensures TocOfLines(a + b) == TocOfLines(a) + TocOfLines(b)
  {
    FlatMapAppend(a, b, HeadingItems);
  }

  /** Exactly one item per line that parses as a heading, none for any other line. */
  lemma TocOfLinesCount(lines: seq<string>)
    ensures |TocOfLines(lines)| == |Filter(lines, (l: string) => ParseHeading(l).Some?)|
  {
    FlatMapCount(lines, HeadingItems, (l: string) => ParseHeading(l).Some?);
  }

  /** `generateTableOfContents(content)`: split on `\n`, keep heading lines. */
  function TableOfContents(content: string): seq<TocItem> {
    TocOfLines(Split(content, '\n'))
  }

  /** The page computes the table only when it shows the full post. */
  function PageTableOfContents(showFullContent: bool, content: string): (r: seq<TocItem>)
    ensures !showFullContent ==> r == []
    ensures showFullContent ==> r == TableOfContents(content)
  {
    if showFullContent then TableOfContents(content) else []
  }

  /** `getHeadingClass`: a class of its own for levels 2 to 4, and the plain
      fallback for every other level. */
  function HeadingClass(level: int): (r: string)
    ensures r == "text-base" <==> !(2 <= level <= 4)
  {
    match level
    case 2 => "text-base font-medium"
    case 3 => "text-sm ml-4"
    case 4 => "text-xs ml-8"
    case _ => "text-base"
  }

  /** Every table-of-contents item gets the class of its own level, never the fallback. */
  lemma {:induction false} TocItemsStyled(content: string)
    ensures forall k :: 0 <= k < |TableOfContents(content)| ==>
              HeadingClass(TableOfContents(content)[k].level) != "text-base"
  {
    TocOfLinesWellFormed(Split(content, '\n'));
  }
}
