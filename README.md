# Portfolio site: static Open Graph pages, post catalog, blog views and a terminal tutorial

This project models the part of the portfolio site that computes something. It is
written in Dafny and proves properties of that model.

- **The static page generator** (`OgPages`). The script takes the published posts
  from the catalog. For each post it escapes double quotes in the title, excerpt and
  author. It builds the post's address and resolves its image to an absolute link.
  It then assembles the block of meta tags and splices that block over the first
  one-line `<title>…</title>` of the built `dist/index.html`. The result is written
  to `dist/<slug>/index.html`, and the script reports how many pages it wrote.
  - The disk is a map from path to content.
  - The path is joined and cleaned up as `path.join` does: empty pieces and `.` are dropped and `..` climbs one folder, so the slugs `""` and `.` name the template itself.
  - The run is a method whose loop writes one page per published post.
  - The title search is an explicit scanner with the regular expression's
    semantics: leftmost start, lazy close, and `.` that does not cross a line
    terminator.
  - `String.prototype.replace`'s `$` replacement patterns are modelled too.
- **The post catalog** (`Catalog`): the seven records of `blogPosts`, the draft
  filter, and the facts about the records that the generator and the views rely on.
- **The post page** (`PostPage`):
  - the lookup by slug, with a redirect to `/blog`;
  - the related posts;
  - the preview text;
  - the head elements the page asks the head component for, compared with what
    the generator writes into the static page.
- **The head component** (`Seo`): default properties, the title rule, and the
  element list, including the article-only elements.
- **The blog index** (`RecentPosts`):
  - The in-place, stable, newest-first sort of the shared post array is an
    insertion sort on an `array<Post>`, proved equal to a functional sort.
  - That functional sort is proved ordered, a permutation and stable.
  - The index also takes the first three posts and cuts each card's excerpt and tags.
- **The Linux terminal tutorial** (`LinuxTutorial`). The command history, the
  recall index and the input line are fields of the class `Terminal`. Each handler
  is a method proved against a function on the screen state: execute, submit,
  arrow keys, clear and run example.
  - Command lookup normalises the command by trimming it and lower-casing it.
  - `clear` empties the history.
  - Unknown commands get a `command not found` message.

`Strings` holds the string helpers: ECMAScript `trim`, ASCII `toLowerCase`, `join`,
`slice` and containment. `Markup` holds the element datatype that the generator and
the head component both render, and the selectors that read values back out of a
block of elements.

## Model

| member | source | states |
|---|---|---|
| Catalog.Published | project/scripts/generate-og-pages.js:10 | the kept posts are exactly the catalog's posts whose draft flag is not `true`, and there are no more of them than posts |
| Catalog.PublishedAppend | project/scripts/generate-og-pages.js:10 | filtering distributes over concatenation, so catalog order is kept |
| Catalog.PublishedCount | project/scripts/generate-og-pages.js:10 | published posts plus drafts add up to the catalog's length |
| Catalog.PublishedSlugsDistinct | project/scripts/generate-og-pages.js:10 | filtering keeps slugs pairwise distinct |
| Catalog.PublishedNoDrafts | project/scripts/generate-og-pages.js:10 | a catalog without drafts is published whole |
| Catalog.CatalogIdsDistinct | project/src/data/blogPosts.js:20-113 | the catalog has seven posts, with pairwise distinct ids |
| Catalog.CatalogSlugsSafe | project/src/data/blogPosts.js:24-103 | slugs are pairwise distinct, and each is a single path segment: non-empty, no `/`, not starting with `.` |
| Catalog.CatalogDrafts | project/src/data/blogPosts.js:22-33 | the post with id `1` is the only draft, so six posts are published, in catalog order |
| Catalog.CatalogImages | project/src/data/blogPosts.js:32-111 | every image is present and starts with `https://` or `/` |
| Catalog.CatalogDatesWellFormed | project/src/data/blogPosts.js:28-107 | every publish date is written `YYYY-MM-DD` and names a day that exists on the Gregorian calendar |
| Catalog.CatalogDatesDistinct | project/src/data/blogPosts.js:28-107 | no two posts share a publish date |
| Catalog.CatalogQuoteFree | project/src/data/blogPosts.js:23-106 | no title and no author contains a double quote |
| OgPages.EscapeQuotes | project/scripts/generate-og-pages.js:26-27 | the escaped text has no double quote left |
| OgPages.EscapeQuotesIdentity | project/scripts/generate-og-pages.js:26 | escaping leaves quote-free text unchanged |
| OgPages.EscapeQuotesIdempotent | project/scripts/generate-og-pages.js:26 | escaping twice is escaping once |
| OgPages.EscapeQuotesAppend | project/scripts/generate-og-pages.js:26 | escaping works character by character: it distributes over concatenation |
| OgPages.UnescapeEscapeQuotes | project/scripts/generate-og-pages.js:26 | for text without `&`, turning each `&quot;` back into `"` restores the input, so every `"` and nothing else became `&quot;` |
| OgPages.CanonicalUrl | project/scripts/generate-og-pages.js:28 | the address is the site origin and `/`, followed by exactly the slug |
| OgPages.CanonicalUrlInjective | project/scripts/generate-og-pages.js:28 | different slugs give different addresses |
| OgPages.ResolveImage | project/scripts/generate-og-pages.js:29-31 | the image the page names: a link starting with `http` as it is, any other text after the site origin, and `undefined` there when the post has no image (properties in `ResolveImageAbsolute`) |
| OgPages.ResolveImageAbsolute | project/scripts/generate-og-pages.js:29-31 | an image starting with `http` is kept, any other is appended to the origin with no separator, an absent one becomes the origin plus `undefined`; the result always starts with `http` |
| OgPages.Prepare | project/scripts/generate-og-pages.js:26-33 | the values prepared for a post: title, excerpt and author with their double quotes escaped, the post's address, its resolved image and its publish date as it is (properties in `PrepareQuoteFree`) |
| OgPages.PrepareQuoteFree | project/scripts/generate-og-pages.js:26-33 | the prepared title, description and author hold no double quote, and a quote-free title is used unchanged |
| OgPages.MetaBlock | project/scripts/generate-og-pages.js:36-64 | the block of elements in the script's order: primary tags, Open Graph tags with one `article:tag` per tag, Twitter tags and the canonical link (properties in the `MetaBlock…` lemmas) |
| OgPages.MetaTags | project/scripts/generate-og-pages.js:36-64 | the text of a post's block, rendered from its prepared values and its tags |
| OgPages.MetaBlockTitle | project/scripts/generate-og-pages.js:38-39 | the block's one document title is the escaped title followed by the site-name suffix, appended even when the title already names the site; the `title` meta holds the escaped title |
| OgPages.MetaBlockSocialTitles | project/scripts/generate-og-pages.js:47-58 | `og:title` and `twitter:title` each hold the escaped title once |
| OgPages.MetaBlockUrl | project/scripts/generate-og-pages.js:46-57 | `og:url` and `twitter:url` each hold the post's address once |
| OgPages.MetaBlockCanonical | project/scripts/generate-og-pages.js:64 | the canonical link holds the post's address once |
| OgPages.MetaBlockImage | project/scripts/generate-og-pages.js:49-60 | `og:image` and `twitter:image` each hold the resolved image once |
| OgPages.MetaBlockTags | project/scripts/generate-og-pages.js:42-53 | `keywords` holds the tags joined by `, `; there is one `article:tag` per tag, in tag order, and no other |
| OgPages.MetaBlockAvoids | project/scripts/generate-og-pages.js:36-64 | if no value placed in the block has a `$`, the block's elements and fixed texts have none |
| OgPages.MetaTagsDollarFree | project/scripts/generate-og-pages.js:36-64 | a post whose texts have no `$` gives a meta block without `$` |
| OgPages.PreparedDollarFree | project/scripts/generate-og-pages.js:36-64 | the rendered block has no `$` when the prepared values and the joined tags have none |
| OgPages.FindClose | project/scripts/generate-og-pages.js:69 | finds the first `</title>` reachable without crossing a line terminator, or reports that there is none |
| OgPages.FindTitle | project/scripts/generate-og-pages.js:69 | returns the leftmost `<title>` that opens a match, closed at its nearest `</title>` on the same line, or reports that no position opens a match |
| OgPages.Expand | project/scripts/generate-og-pages.js:67-71 | the text `replace` puts in place of the match for a replacement string, with its `$$`, `$&`, `` $` `` and `$'` patterns (properties in `ExpandLiteral` and `ExpandPatterns`) |
| OgPages.ExpandLiteral | project/scripts/generate-og-pages.js:67-71 | a replacement text without `$` is inserted literally |
| OgPages.ExpandPatterns | project/scripts/generate-og-pages.js:67-71 | `$$`, `$&`, `` $` `` and `$'` expand to a dollar, the match, the text before and the text after; `$1` stays literal with no capture groups |
| OgPages.ReplaceTitle | project/scripts/generate-og-pages.js:67-71 | the template with its leftmost one-line title element replaced by the expanded replacement, or unchanged without one (properties in the `ReplaceTitle…` lemmas) |
| OgPages.ReplaceTitleNoMatch | project/scripts/generate-og-pages.js:67-71 | a template without a one-line title is left unchanged |
| OgPages.ReplaceTitleKeepsOutside | project/scripts/generate-og-pages.js:67-71 | for any replacement, the text before and after the leftmost match is kept and the replacement's expansion for that match goes between them |
| OgPages.ReplaceTitleSplice | project/scripts/generate-og-pages.js:67-71 | with a match, the leftmost lazy match is cut out, the block is put in its place, and everything before and after is kept byte for byte |
| OgPages.Page | project/scripts/generate-og-pages.js:67-71 | the page written for a post: its rendered block spliced over the template's title (properties in `PageShows`) |
| OgPages.PageShows | project/scripts/generate-og-pages.js:36-71 | every value the block carries appears, rendered, in the written page |
| OgPages.Split | project/scripts/generate-og-pages.js:74-78 | a path cut at every `/`, empty pieces kept, as `path.join` reads its arguments |
| OgPages.Step | project/scripts/generate-og-pages.js:74-78 | one piece of a path joined onto the folders so far: empty and `.` pieces are dropped, `..` removes the last folder (or is kept when there is no folder to remove or the last one is itself `..`), any other piece is added |
| OgPages.Normalize | project/scripts/generate-og-pages.js:74-78 | the folders left after joining the pieces one by one |
| OgPages.NormalizeAppend | project/scripts/generate-og-pages.js:74-78 | joining two lists of pieces is joining the second from where the first ends |
| OgPages.NormalizeDropsEmpty | project/scripts/generate-og-pages.js:74-78 | an empty piece, from a doubled or trailing `/`, changes nothing |
| OgPages.OutputPath | project/scripts/generate-og-pages.js:74-78 | the file a slug's page is written to: `dist`, the slug and `index.html` joined and cleaned up as `path.join` does, relative to the project's top folder |
| OgPages.OutputPathOfSegment | project/scripts/generate-og-pages.js:74-78 | a slug that is one plain path segment gives `dist/<slug>/index.html` |
| OgPages.OutputPathEmpty | project/scripts/generate-og-pages.js:74-78 | an empty slug names the template `dist/index.html` itself |
| OgPages.OutputPathDot | project/scripts/generate-og-pages.js:74-78 | the slug `.` names the template `dist/index.html` itself |
| OgPages.OutputPathDotDot | project/scripts/generate-og-pages.js:74-78 | the slug `..` climbs out of `dist` to `index.html` at the project's top |
| OgPages.OutputPathIgnoresTrailingSlash | project/scripts/generate-og-pages.js:74-78 | a trailing `/` on a slug names the same file |
| OgPages.OutputPathIgnoresDoubledSlash | project/scripts/generate-og-pages.js:74-78 | a doubled `/` in a slug names the same file as a single one |
| OgPages.OutputPathInjective | project/scripts/generate-og-pages.js:74-78 | safe slugs give distinct files, each `dist/<slug>/index.html`, none of which is the template |
| OgPages.WriteAll | project/scripts/generate-og-pages.js:24-85 | the disk after the loop: each post in turn writes its page at its path, a later write to the same path replacing an earlier one (properties in the `WriteAll…` lemmas) |
| OgPages.WriteAllStep | project/scripts/generate-og-pages.js:24-85 | writing one more post adds its page at its path to what the earlier posts wrote |
| OgPages.Generate | project/scripts/generate-og-pages.js:10-87 | a missing template ends the run with exit code 1 and nothing written; otherwise the disk becomes the template's disk with every published page written in order, and the reported count is the number of published posts |
| OgPages.WriteAllElsewhere | project/scripts/generate-og-pages.js:74-79 | a path no post writes to keeps its content, or stays absent |
| OgPages.WriteAllLastWins | project/scripts/generate-og-pages.js:74-79 | a post whose path no later post reuses finds its own page at that path |
| OgPages.GenerateWritesEachPublished | project/scripts/generate-og-pages.js:10-79 | with safe, distinct slugs, every published post's page sits at its own path |
| OgPages.GenerateSkipsDraft | project/scripts/generate-og-pages.js:10-79 | with safe, distinct slugs, a draft's path is written only if it already existed, and a file already there keeps its content |
| OgPages.GenerateKeepsTemplate | project/scripts/generate-og-pages.js:13-79 | with safe slugs, the template file is not overwritten |
| Seo.FullTitle | project/src/components/SEO.tsx:25-26 | the full title starts with the title and names the site; it equals the title exactly when the title already names the site |
| Seo.FullTitleIdempotent | project/src/components/SEO.tsx:26 | applying the title rule twice is applying it once |
| Seo.NoPropsTitle | project/src/components/SEO.tsx:16-26 | with no properties the full title is the default title |
| Seo.Resolve | project/src/components/SEO.tsx:15-24 | each property the caller leaves out takes its default; the publish date has none |
| Seo.Head | project/src/components/SEO.tsx:31-69 | the element list: common elements, the article elements on an article, and the closing elements (properties in the `Head…` and `Opening…` lemmas) |
| Seo.ArticleSilent | project/src/components/SEO.tsx:54-62 | the article part carries only the three article elements |
| Seo.ClosingSilent | project/src/components/SEO.tsx:65-69 | the closing elements carry no title, link or property meta |
| Seo.OpeningSilent | project/src/components/SEO.tsx:31-51 | the common elements carry no article element |
| Seo.HeadFromOpening | project/src/components/SEO.tsx:31-69 | non-article property elements and the title and link come from the common elements only |
| Seo.OpeningTitles | project/src/components/SEO.tsx:31-40 | the document title and `og:title` are the full title, once each |
| Seo.OpeningTwitterTitle | project/src/components/SEO.tsx:48 | `twitter:title` is the full title under the `property` attribute, and there is no `name="twitter:title"` |
| Seo.OpeningUrl | project/src/components/SEO.tsx:35-39 | the canonical link and `og:url` are the page's address, once each |
| Seo.OpeningTwitterUrl | project/src/components/SEO.tsx:47 | `twitter:url` is the page's address, once |
| Seo.HeadTitles | project/src/components/SEO.tsx:31-48 | in the whole head, the document title, `og:title` and `twitter:title` all equal the full title |
| Seo.HeadUrls | project/src/components/SEO.tsx:35-47 | in the whole head, the canonical link, `og:url` and `twitter:url` all equal the address |
| Seo.HeadKeywords | project/src/components/SEO.tsx:33 | the `keywords` meta holds the keywords joined by `, ` |
| Seo.ArticleValues | project/src/components/SEO.tsx:54-62 | the article part has one `article:tag` per keyword, in order, and the publish time, exactly when the page is an article with a non-empty publish date |
| Seo.HeadFromArticle | project/src/components/SEO.tsx:54-62 | the head's article elements are those of the article part |
| Seo.HeadArticleTags | project/src/components/SEO.tsx:54-62 | the head has one `article:tag` per keyword, in order, and the publish time, only on a dated article, and none otherwise |
| PostPage.FindBySlug | project/src/components/BlogPost.tsx:12 | finds the first post whose slug matches, or reports that none does |
| PostPage.Route | project/src/components/BlogPost.tsx:12-16 | a known slug shows the first post with that slug; an unknown one redirects to `/blog` |
| PostPage.RouteShowsDraft | project/src/components/BlogPost.tsx:12-16 | the catalog's draft is still shown at its address |
| PostPage.Candidates | project/src/components/BlogPost.tsx:27 | the candidates are exactly the posts with another id that share a tag with the current post |
| PostPage.CandidatesAppend | project/src/components/BlogPost.tsx:27 | the filter distributes over concatenation, so catalog order is kept |
| PostPage.RelatedPosts | project/src/components/BlogPost.tsx:26-28 | at most three related posts, none the current post, each sharing a tag with it |
| PostPage.RelatedTakesFirst | project/src/components/BlogPost.tsx:26-28 | a related post with fewer than three related posts before it is shown, at its place in catalog order |
| PostPage.Preview | project/src/components/BlogPost.tsx:196 | the preview is the first 100 characters of the excerpt followed by `...` |
| PostPage.SeoProps | project/src/components/BlogPost.tsx:32-41 | the properties the post page passes to the head component: the post's title, excerpt, tags, image and address, type `article`, its publish date and author |
| PostPage.PostHead | project/src/components/BlogPost.tsx:32-41 | the head elements of a post page (properties in the `…MatchesGenerator` lemmas) |
| PostPage.CanonicalMatchesGenerator | project/src/components/BlogPost.tsx:37 | the page's canonical link and `og:url` equal the generator's, both the post's address |
| PostPage.ArticleTagsMatchGenerator | project/src/components/BlogPost.tsx:32-41 | with a publish date the page lists the same `article:tag` elements as the generator; with an empty date it lists none |
| PostPage.PostHeadTitle | project/src/components/BlogPost.tsx:33 | the page's document title is the title rule applied to the post's title |
| PostPage.GeneratorTitle | project/scripts/generate-og-pages.js:38 | for a quote-free title the generator's document title is the title followed by the site-name suffix |
| PostPage.TitleMatchesGenerator | project/src/components/BlogPost.tsx:33 | for a quote-free title, the page and the generator give the same document title exactly when the title does not name the site |
| PostPage.SuffixRulesAgree | project/src/components/SEO.tsx:26 | the conditional and the unconditional suffix rules agree exactly on titles that do not name the site |
| RecentPosts.DateKey | project/src/components/Blog.tsx:9 | the number the comparator sorts a date by (properties in `DateKeyValue` and `DateKeyOrder`) |
| RecentPosts.DateKeyValue | project/src/components/Blog.tsx:9 | the key of a calendar date is its year·10000 + month·100 + day |
| RecentPosts.Earlier | project/src/components/Blog.tsx:9 | one calendar day comes before another: an earlier year, or the same year and an earlier month, or the same month and an earlier day |
| RecentPosts.DateKeyOrder | project/src/components/Blog.tsx:9 | for real calendar days, one key is smaller exactly when its day is earlier, and two keys are equal exactly when the days are the same |
| RecentPosts.Insert | project/src/components/Blog.tsx:9 | one post placed into a newest-first list after every post at least as new (properties in the `Insert…` lemmas) |
| RecentPosts.SortByDate | project/src/components/Blog.tsx:9 | the stable newest-first sort by insertion (properties in the `SortByDate…` lemmas) |
| RecentPosts.InsertPosBetween | project/src/components/Blog.tsx:9 | the insert position is after every post at least as new and before every older one |
| RecentPosts.InsertPosUnique | project/src/components/Blog.tsx:9 | that position is the only one with this property |
| RecentPosts.InsertShifts | project/src/components/Blog.tsx:9 | inserting keeps the posts before the position and shifts the others by one |
| RecentPosts.InsertNewestFirst | project/src/components/Blog.tsx:9 | inserting into a newest-first list keeps it newest first |
| RecentPosts.SortByDateNewestFirst | project/src/components/Blog.tsx:9 | the sorted list is newest first |
| RecentPosts.SortByDatePermutes | project/src/components/Blog.tsx:8-9 | the sorted list is a permutation of the input, drafts included |
| RecentPosts.InsertPermutes | project/src/components/Blog.tsx:9 | inserting adds exactly the one post |
| RecentPosts.SortByDateStable | project/src/components/Blog.tsx:9 | posts with equal dates keep their relative order |
| RecentPosts.InsertAt | project/src/components/Blog.tsx:9 | shifting one array element into the sorted prefix gives the functional insert and leaves the rest of the array alone |
| RecentPosts.SortByDateSnoc | project/src/components/Blog.tsx:9 | sorting one more post inserts it into the sorted prefix |
| RecentPosts.SortInPlace | project/src/components/Blog.tsx:8-9 | the shared array is reordered in place into the stable newest-first sort of its old contents |
| RecentPosts.Recent | project/src/components/Blog.tsx:8-10 | the array is sorted in place and the first three of it are returned |
| RecentPosts.RecentOf | project/src/components/Blog.tsx:8-10 | the first three posts of the newest-first sort (properties in `RecentOfNewest` and `RecentOfFirstIsNewest`) |
| RecentPosts.RecentOfNewest | project/src/components/Blog.tsx:8-10 | the selection has `min(3, n)` posts, newest first, and no post left out is newer than one shown |
| RecentPosts.RecentOfFirstIsNewest | project/src/components/Blog.tsx:8-10 | the first card's post is at least as new as every post |
| RecentPosts.CardExcerpt | project/src/components/Blog.tsx:81 | the first card shows the whole excerpt; the others show its first 120 characters and `...` |
| RecentPosts.CardTags | project/src/components/Blog.tsx:85 | the first card shows up to four tags, the others up to two, always a prefix of the post's tags |
| LinuxTutorial.LookupKey | project/src/components/tutorials/LinuxTutorial.tsx:121 | the key a command is looked up by: trimmed and lower-cased (properties in the `LookupKey…` lemmas) |
| LinuxTutorial.LookupKeyIgnoresPadding | project/src/components/tutorials/LinuxTutorial.tsx:121 | white space before or after a command does not change its lookup key |
| LinuxTutorial.LookupKeyIgnoresCase | project/src/components/tutorials/LinuxTutorial.tsx:121 | lower-casing a command first does not change its lookup key |
| LinuxTutorial.LookupKeyOfKey | project/src/components/tutorials/LinuxTutorial.tsx:121 | a lower-case command without outer white space is its own key |
| LinuxTutorial.Respond | project/src/components/tutorials/LinuxTutorial.tsx:17-129 | a command gets its canned output exactly when its key is in the command table; otherwise the output is `bash: `, the raw command and `: command not found` |
| LinuxTutorial.Executed | project/src/components/tutorials/LinuxTutorial.tsx:120-138 | a command whose key is `clear` empties the history; any other appends exactly one entry with the raw command and its output, keeping earlier entries; the `clear` sentinel output never enters the history |
| LinuxTutorial.Typed | project/src/components/tutorials/LinuxTutorial.tsx:299 | typing replaces the input and nothing else |
| LinuxTutorial.Submitted | project/src/components/tutorials/LinuxTutorial.tsx:140-147 | a blank input changes nothing; otherwise the command runs, the input empties and the recall index goes back to -1; the index stays in range |
| LinuxTutorial.Up | project/src/components/tutorials/LinuxTutorial.tsx:150-157 | ArrowUp moves the index one step back in time, never past the oldest command, and shows that command; at the oldest it changes nothing |
| LinuxTutorial.Down | project/src/components/tutorials/LinuxTutorial.tsx:158-169 | ArrowDown from an index above 0 moves one step forward and shows that command; from 0 it goes to -1 and empties the input; from -1 it changes nothing |
| LinuxTutorial.Pressed | project/src/components/tutorials/LinuxTutorial.tsx:149-170 | the screen after a key: ArrowUp and ArrowDown as above, any other key changes nothing; the history is kept and the index stays in range |
| LinuxTutorial.DownUndoesUp | project/src/components/tutorials/LinuxTutorial.tsx:150-169 | on a screen showing its recalled command, ArrowDown undoes an ArrowUp that moved |
| LinuxTutorial.UpTimesWalksBack | project/src/components/tutorials/LinuxTutorial.tsx:150-157 | k presses of ArrowUp within the history show the command k steps further back |
| LinuxTutorial.UpReachesOldest | project/src/components/tutorials/LinuxTutorial.tsx:150-157 | as many presses as entries reach the oldest command, where ArrowUp stops |
| LinuxTutorial.DownAsWritten | project/src/components/tutorials/LinuxTutorial.tsx:158-169 | ArrowDown as written reads outside the history exactly when the index is beyond its length |
| LinuxTutorial.DownAsWrittenInRange | project/src/components/tutorials/LinuxTutorial.tsx:158-169 | with the index in range, ArrowDown as written is the modelled ArrowDown |
| LinuxTutorial.ClearedAsWritten | project/src/components/tutorials/LinuxTutorial.tsx:182-185 | clearing as written empties history and input but keeps the index, so ArrowDown reads outside the history whenever the index was above 0 |
| LinuxTutorial.ClearedAsWrittenBreaksRecall | project/src/components/tutorials/LinuxTutorial.tsx:182-185 | run `ls` and `pwd`, press ArrowUp twice and clear: ArrowDown then reads outside the empty history |
| LinuxTutorial.Cleared | project/src/components/tutorials/LinuxTutorial.tsx:182-185 | the corrected clear returns to the start screen, on which ArrowDown is safe |
| LinuxTutorial.RanExample | project/src/components/tutorials/LinuxTutorial.tsx:187-191 | running an example appends one entry with the example and its canned output, keeps the index and leaves the input empty |
| LinuxTutorial.ExamplesAreKeys | project/src/components/tutorials/LinuxTutorial.tsx:193-198 | every example is a lower-case trimmed key of the command table other than `clear` |
| LinuxTutorial.ExampleExecuted | project/src/components/tutorials/LinuxTutorial.tsx:189-198 | executing an example appends exactly its entry with its canned output |
| LinuxTutorial.Terminal.constructor | project/src/components/tutorials/LinuxTutorial.tsx:11-13 | a new terminal has an empty history, index -1 and an empty input |
| LinuxTutorial.Terminal.Execute | project/src/components/tutorials/LinuxTutorial.tsx:120-138 | the history becomes the executed history; index and input are unchanged |
| LinuxTutorial.Terminal.Change | project/src/components/tutorials/LinuxTutorial.tsx:299 | the input becomes the typed text |
| LinuxTutorial.Terminal.Submit | project/src/components/tutorials/LinuxTutorial.tsx:140-147 | the state becomes the submitted screen, and the index stays in range |
| LinuxTutorial.Terminal.KeyDown | project/src/components/tutorials/LinuxTutorial.tsx:149-170 | the state becomes the screen after the key, and the index stays in range |
| LinuxTutorial.Terminal.ClearTerminal | project/src/components/tutorials/LinuxTutorial.tsx:182-185 | the state becomes the start screen (the corrected clear) |
| LinuxTutorial.Terminal.RunExample | project/src/components/tutorials/LinuxTutorial.tsx:187-191 | the state becomes the screen after running the example, and the index stays in range |

## Left out

- File system and process effects of the generator (reading the template, creating folders, writing files, exiting, logging) are modelled as a map from path to content and an `Outcome` value. The log lines are not modelled; only the final count is kept.
- OgPages.OutputPath: paths are taken relative to the project's top folder, so a `..` that would climb above the file system's root is not stopped there, and Windows separators are not modelled. Failures of `mkdirSync` and `writeFileSync` (a file where a folder is needed, a missing permission) are not modelled either.
- PostPage.Preview: cuts after 100 Unicode scalar values, whereas `substring` counts UTF-16 code units; for an excerpt holding characters above U+FFFF the source cuts earlier and can split a surrogate pair.
- RecentPosts.CardExcerpt: cuts after 120 Unicode scalar values, whereas `substring` counts UTF-16 code units, with the same consequence for characters above U+FFFF.
- The regular-expression engine and `String.prototype.replace` in general are not modelled: only the one title pattern and the `$` patterns of a replacement string are.
- `$`-freedom of the seven catalog posts' texts is not proved: a meta block is shown to be spliced literally only under the hypothesis that the post's texts have no `$`.
- React rendering, hook batching, the router and Helmet's merging of head elements with those already in `index.html` are not modelled. State updates in the terminal are taken as sequential, and the page's head is the element list the head component asks for.
- React's `key` on the article tags is not modelled: duplicate keywords are listed twice.
- The JSON-LD script of the head component is left out, because it is a library serialiser (`JSON.stringify`).
- `Date` parsing and formatting (`formatDate`, the terminal's timestamps) are left out. Blog dates are compared by a day number read from `YYYY-MM-DD`.
- RecentPosts.SortInPlace: requires every publish date to be a `YYYY-MM-DD` naming a day that exists on the calendar. For any other string the comparator's `Date` parsing gives `NaN` (a month 13, say) or, depending on the engine, a day rolled over into the next month (February 30 read as March 2); the order that results is not modelled.
- The blog index and the post page share one mutable `blogPosts` array in the site. The post page takes the catalog as a value, so the reordering done by the blog index is not carried over to the post page's `find` and related posts.
- The terminal's canned outputs are opaque: an output is its key. Lookups of inherited object properties (such as `constructor`) in the command table are not modelled, and `toLowerCase` is modelled for ASCII letters only.
- LinuxTutorial.Terminal.ClearTerminal: implements the corrected clear, which also resets the recall index. The behaviour as written is modelled on values by `ClearedAsWritten` (see Findings).
- The other pages and components (header, footer, hero, projects, contact, tutorials list, networking and blockchain tutorials, charts) are presentation, timers, network or floating point, and are not part of this model.

## Findings

| source | as written | input that shows it | evidently intended | confidence | as-written member | corrected member |
|---|---|---|---|---|---|---|
| project/src/components/tutorials/LinuxTutorial.tsx:182-185 | `clearTerminal` empties the history and the input but keeps `historyIndex` | run `ls`, run `pwd`, press ArrowUp twice (index 1), click clear, press ArrowDown: it reads `commands[-1]`, which is `undefined`, and puts it in the input | clearing also resets `historyIndex` to -1, as submitting does | not executed | LinuxTutorial.ClearedAsWritten | LinuxTutorial.Cleared |
