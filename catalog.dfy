/** The post catalog: the `blogPosts` array that the page generator and the
    blog views import, and the facts about its seven records that the rest of
    the site silently relies on. */
module Catalog {
  import opened Strings

  /** One blog post record. `image` and `draft` are optional in the source. */
  datatype Post = Post(
    id: string,
    title: string,
    slug: string,
    excerpt: string,
    contentFile: string,
    author: string,
    publishDate: string,
    readTime: nat,
    tags: seq<string>,
    featured: bool,
    image: Option<string>,
    draft: Option<bool>)

  /** The draft flag is set; an absent flag counts as not set. */
  predicate IsDraft(p: Post) {
    p.draft == Some(true)
  }

  /** The posts whose draft flag is not set, in catalog order. */
  function Published(posts: seq<Post>): (r: seq<Post>)
    ensures |r| <= |posts|
    ensures forall p :: p in r <==> p in posts && !IsDraft(p)
  {
    if posts == [] then []
    else (if IsDraft(posts[0]) then [] else [posts[0]]) + Published(posts[1..])
  }

  /** Number of drafts in `posts`. */
  function DraftCount(posts: seq<Post>): nat {
    if posts == [] then 0
    else (if IsDraft(posts[0]) then 1 else 0) + DraftCount(posts[1..])
  }

  /** Filtering keeps catalog order: it distributes over concatenation. */
  lemma {:induction false} PublishedAppend(a: seq<Post>, b: seq<Post>)
    ensures Published(a + b) == Published(a) + Published(b)
  {
    if a == [] {
      assert a + b == b;
    } else {
      assert (a + b)[1..] == a[1..] + b;
      PublishedAppend(a[1..], b);
    }
  }

  /** Every record is either published or counted as a draft. */
  lemma {:induction false} PublishedCount(posts: seq<Post>)
    ensures |Published(posts)| + DraftCount(posts) == |posts|
  {
    if posts != [] {
      PublishedCount(posts[1..]);
    }
  }

  predicate SlugsDistinct(posts: seq<Post>) {
    forall i, j :: 0 <= i < j < |posts| ==> posts[i].slug != posts[j].slug
  }

  /** Filtering keeps distinct slugs distinct. */
  lemma {:induction false} PublishedSlugsDistinct(posts: seq<Post>)
    requires SlugsDistinct(posts)
    ensures SlugsDistinct(Published(posts))
  {
    if posts != [] {
      var rest := posts[1..];
      assert SlugsDistinct(rest) by {
        forall i, j | 0 <= i < j < |rest| ensures rest[i].slug != rest[j].slug {
          assert rest[i] == posts[i + 1] && rest[j] == posts[j + 1];
        }
      }
      PublishedSlugsDistinct(rest);
      forall q | q in Published(rest) ensures q.slug != posts[0].slug {
        var j :| 0 <= j < |rest| && rest[j] == q;
        assert posts[j + 1] == q;
      }
    }
  }

  /** A slug that is one non-empty path segment: no `/` and no leading `.`. */
  predicate IsPathSegment(slug: string) {
    slug != [] && '/' !in slug && slug[0] != '.'
  }

  predicate IsDigit(c: char) {
    '0' <= c <= '9'
  }

  /** The number a decimal digit stands for. */
  function DigitValue(c: char): int {
    c as int - '0' as int
  }

  /** The year, month and day written in a `YYYY-MM-DD` string. */
  function Year(d: string): int
    requires |d| == 10
  {
    DigitValue(d[0]) * 1000 + DigitValue(d[1]) * 100 + DigitValue(d[2]) * 10 + DigitValue(d[3])
  }

  function Month(d: string): int
    requires |d| == 10
  {
    DigitValue(d[5]) * 10 + DigitValue(d[6])
  }

  function Day(d: string): int
    requires |d| == 10
  {
    DigitValue(d[8]) * 10 + DigitValue(d[9])
  }

  /** Gregorian leap years. */
  predicate IsLeapYear(y: int) {
    y % 4 == 0 && (y % 100 != 0 || y % 400 == 0)
  }

  function DaysInMonth(y: int, m: int): int {
    if m == 2 then (if IsLeapYear(y) then 29 else 28)
    else if m == 4 || m == 6 || m == 9 || m == 11 then 30
    else 31
  }

  /** A fixed-width `YYYY-MM-DD` string naming a day that exists on the calendar. */
  predicate IsIsoDate(d: string) {
    |d| == 10 && d[4] == '-' && d[7] == '-'
    && IsDigit(d[0]) && IsDigit(d[1]) && IsDigit(d[2]) && IsDigit(d[3])
    && IsDigit(d[5]) && IsDigit(d[6]) && IsDigit(d[8]) && IsDigit(d[9])
    && 1 <= Month(d) <= 12 && 1 <= Day(d) <= DaysInMonth(Year(d), Month(d))
  }

  /** The image is present and is either an https URL or a site-rooted path. */
  predicate HasAbsoluteOrRootedImage(p: Post) {
    p.image.Some? && (StartsWith(p.image.value, "https://") || StartsWith(p.image.value, "/"))
  }

  predicate IdsDistinct(posts: seq<Post>) {
    forall i, j :: 0 <= i < j < |posts| ==> posts[i].id != posts[j].id
  }

  predicate DatesDistinct(posts: seq<Post>) {
    forall i, j :: 0 <= i < j < |posts| ==> posts[i].publishDate != posts[j].publishDate
  }

  // blogPosts.js, the record opening at line 21
  const Post1 := Post(
    id := "1",
    title := "Blog Post Template - Copy This "
      + "Pattern",
    slug := "blog-post-template-copy-this-pattern",
    excerpt := "This is a template blog post that "
      + "demonstrates the proper structure "
      + "and formatting. Copy and modify "
      + "this pattern for your new blog "
      + "posts.",
    contentFile := "blog-post-template.md",
    author := "Tim Illguth",
    publishDate := "2024-12-25",
    readTime := 5,
    tags := ["Template", "Guide", "Example"],
    featured := true,
    image := Some("https://"
      + ("images.pexels.com/photos/546819/"
        + "pexels-photo-"
        + "546819.jpeg?auto=compress&cs=tinysrg"
        + "b&w=800")),
    draft := Some(true))

  // blogPosts.js, the record opening at line 35
  const Post2 := Post(
    id := "2",
    title := "Vibe Coding vs Knowledgeable "
      + "Developers: The AI Productivity "
      + "Divide",
    slug := "vibe-coding-vs-knowledgeable-"
      + "developers-the-ai-productivity-"
      + "divide",
    excerpt := "The race to functional, upgradeable "
      + "products has fundamentally shifted "
      + "in 2025. While AI coding tools "
      + "promise to democratize software "
      + "development, the data reveals a "
      + "counterintuitive truth: expertise "
      + "amplifies AI benefits far more than "
      + "enthusiasm alone.",
    contentFile := "vibe-coding-vs-knowledgeable-"
      + "developers-the-ai-productivity-"
      + "divide.md",
    author := "Tim Illguth",
    publishDate := "2025-05-15",
    readTime := 15,
    tags := ["AI", "Development", "Productivity", "Career", "Software Engineering"],
    featured := true,
    image := Some("/media/Vibe_coder.png"),
    draft := None)

  // blogPosts.js, the record opening at line 48
  const Post3 := Post(
    id := "3",
    title := "Blockchain Development Principles: "
      + "Building Secure and Scalable DApps",
    slug := "blockchain-development-principles",
    excerpt := "Master the fundamental principles "
      + "of blockchain development, from "
      + "smart contract security to gas "
      + "optimization. Learn how to build "
      + "robust decentralized applications "
      + "that can handle real-world scale "
      + "and complexity.",
    contentFile := "blockchain-development-principles.md",
    author := "Tim Illguth",
    publishDate := "2025-04-30",
    readTime := 12,
    tags := ["Blockchain", "Smart Contracts", "DeFi", "Security", "Ethereum"],
    featured := false,
    image := Some("https://"
      + ("images.pexels.com/photos/844124/"
        + "pexels-photo-"
        + "844124.jpeg?auto=compress&cs=tinysrg"
        + "b&w=800")),
    draft := None)

  // blogPosts.js, the record opening at line 61
  const Post4 := Post(
    id := "4",
    title := "Thoughts on Thread-Safe Blockchain "
      + "Development",
    slug := "thoughts-on-thread-safe-blockchain-"
      + "development",
    excerpt := "Blockchain development presents "
      + "unique concurrency challenges that "
      + "traditional thread-safety patterns "
      + "cannot address. Explore how state "
      + "conflicts, MEV, and transaction "
      + "ordering create new paradigms for "
      + "building robust decentralized "
      + "applications.",
    contentFile := "thoughts-on-thread-safety.md",
    author := "Tim Illguth",
    publishDate := "2025-04-05",
    readTime := 10,
    tags := ["Blockchain", "Concurrency", "Smart Contracts", "MEV", "Architecture"],
    featured := false,
    image := Some("https://"
      + ("images.pexels.com/photos/730547/"
        + "pexels-photo-"
        + "730547.jpeg?auto=compress&cs=tinysrg"
        + "b&w=800")),
    draft := None)

  // blogPosts.js, the record opening at line 74
  const Post5 := Post(
    id := "5",
    title := "Solidity Gas Optimization: Stop "
      + "Using uint256 for Everything",
    slug := "save-up-to-half-of-your-gas-fees",
    excerpt := "Most Solidity developers default to "
      + "uint256 for all integer "
      + "declarations, but this bad habit "
      + "costs users millions in unnecessary "
      + "gas fees. Learn how byte packing "
      + "and proper type selection can "
      + "dramatically reduce your smart "
      + "contract costs.",
    contentFile := "save-up-to-half-of-your-gas-fees.md",
    author := "Tim Illguth",
    publishDate := "2025-10-13",
    readTime := 14,
    tags := ["Solidity", "Gas Optimization", "Smart Contracts", "Ethereum", "Best Practices"],
    featured := true,
    image := Some("/media/bytestacking.png"),
    draft := None)

  // blogPosts.js, the record opening at line 87
  const Post6 := Post(
    id := "6",
    title := "Getting Started with Agentic "
      + "Coding: Your First Step into AI-"
      + "Assisted Development",
    slug := "getting-started-with-agentic-coding",
    excerpt := "Discover how agentic coding tools "
      + "like Claude Code, AmazonQ, and "
      + "Augment Code are transforming "
      + "software development. Learn which "
      + "tools to use, when to use them, and "
      + "how to integrate them into your VS "
      + "Code workflow for maximum "
      + "productivity.",
    contentFile := "getting-started-with-agentic-"
      + "coding.md",
    author := "Tim Illguth",
    publishDate := "2025-10-27",
    readTime := 18,
    tags := ["AI", "Agentic Coding", "VS Code", "Developer Tools", "Productivity", "Claude Code", "AmazonQ", "Augment Code"],
    featured := true,
    image := Some("/media/major_productivity.png"),
    draft := None)

  // blogPosts.js, the record opening at line 100
  const Post7 := Post(
    id := "7",
    title := "Integrating x402 Payments: How AI "
      + "Agents and APIs Finally Got a "
      + "Payment Layer",
    slug := "integrating-x402-payments",
    excerpt := "Learn how x402 enables true "
      + "micropayments for APIs using "
      + "Ethereum L2s and ERC-3009 gasless "
      + "signatures. No subscriptions, no "
      + "API keys\U{00E2}\U{20AC}\U{201D}just instant, "
      + "programmable payments perfect for "
      + "AI agents and machine-to-machine "
      + "commerce.",
    contentFile := "integrating-x402-payments.md",
    author := "Tim Illguth",
    publishDate := "2025-10-29",
    readTime := 25,
    tags := ["x402", "Payments", "HTTP 402", "Micropayments", "Blockchain", "AI Agents", "Ethereum", "API Monetization", "Base", "USDC"],
    featured := true,
    image := Some("https://"
      + ("images.pexels.com/photos/6771985/"
        + "pexels-photo-"
        + "6771985.jpeg?auto=compress&cs=tinysr"
        + "gb&w=800")),
    draft := None)

  /** `blogPosts`, in declaration order. */
  const BlogPosts: seq<Post> := [Post1, Post2, Post3, Post4, Post5, Post6, Post7]

  /** Filtering a run of non-drafts keeps all of it. */
  lemma {:induction false} PublishedNoDrafts(posts: seq<Post>)
    requires forall p :: p in posts ==> !IsDraft(p)
    ensures Published(posts) == posts
    ensures DraftCount(posts) == 0
  {
    if posts != [] {
      PublishedNoDrafts(posts[1..]);
    }
  }

  /** The title of each record: no double quote, so escaping it changes nothing. */
  predicate TitleQuoteFree(p: Post) {
    '"' !in p.title
  }

  lemma TitleQuoteFree1() ensures TitleQuoteFree(Post1) {
    assert '"' !in "Blog Post Template - Copy This ";
    assert '"' !in "Pattern";
  }

  lemma TitleQuoteFree2() ensures TitleQuoteFree(Post2) {
    assert '"' !in "Vibe Coding vs Knowledgeable ";
    assert '"' !in "Developers: The AI Productivity ";
    assert '"' !in "Divide";
  }

  lemma TitleQuoteFree3() ensures TitleQuoteFree(Post3) {
    assert '"' !in "Blockchain Development Principles: ";
    assert '"' !in "Building Secure and Scalable DApps";
  }

  lemma TitleQuoteFree4() ensures TitleQuoteFree(Post4) {
    assert '"' !in "Thoughts on Thread-Safe Blockchain ";
    assert '"' !in "Development";
  }

  lemma TitleQuoteFree5() ensures TitleQuoteFree(Post5) {
    assert '"' !in "Solidity Gas Optimization: Stop ";
    assert '"' !in "Using uint256 for Everything";
  }

  lemma TitleQuoteFree6() ensures TitleQuoteFree(Post6) {
    assert '"' !in "Getting Started with Agentic ";
    assert '"' !in "Coding: Your First Step into AI-";
    assert '"' !in "Assisted Development";
  }

  lemma TitleQuoteFree7() ensures TitleQuoteFree(Post7) {
    assert '"' !in "Integrating x402 Payments: How AI ";
    assert '"' !in "Agents and APIs Finally Got a ";
    assert '"' !in "Payment Layer";
  }

  lemma SlugIsPathSegment1() ensures IsPathSegment(Post1.slug) {
    assert '/' !in "blog-post-template-copy-this-pattern";
  }

  lemma SlugIsPathSegment2() ensures IsPathSegment(Post2.slug) {
    assert '/' !in "vibe-coding-vs-knowledgeable-";
    assert '/' !in "developers-the-ai-productivity-";
    assert '/' !in "divide";
  }

  lemma SlugIsPathSegment3() ensures IsPathSegment(Post3.slug) {
    assert '/' !in "blockchain-development-principles";
  }

  lemma SlugIsPathSegment4() ensures IsPathSegment(Post4.slug) {
    assert '/' !in "thoughts-on-thread-safe-blockchain-";
    assert '/' !in "development";
  }

  lemma SlugIsPathSegment5() ensures IsPathSegment(Post5.slug) {
    assert '/' !in "save-up-to-half-of-your-gas-fees";
  }

  lemma SlugIsPathSegment6() ensures IsPathSegment(Post6.slug) {
    assert '/' !in "getting-started-with-agentic-coding";
  }

  lemma SlugIsPathSegment7() ensures IsPathSegment(Post7.slug) {
    assert '/' !in "integrating-x402-payments";
  }

  /** The catalog's ids are pairwise distinct. */
  lemma CatalogIdsDistinct()
    ensures |BlogPosts| == 7
    ensures IdsDistinct(BlogPosts)
  {
  }

  /** No two posts share a slug: their first four letters already differ. */
  lemma CatalogSlugsDistinct()
    ensures SlugsDistinct(BlogPosts)
  {
    SlugHeads();
    DistinctByHeads(BlogPosts, ["blog", "vibe", "bloc", "thou", "save", "gett", "inte"]);
  }

  /** The first four letters of each slug. */
  lemma SlugHeads()
    ensures |Post1.slug| >= 4 && Post1.slug[..4] == "blog"
    ensures |Post2.slug| >= 4 && Post2.slug[..4] == "vibe"
    ensures |Post3.slug| >= 4 && Post3.slug[..4] == "bloc"
    ensures |Post4.slug| >= 4 && Post4.slug[..4] == "thou"
    ensures |Post5.slug| >= 4 && Post5.slug[..4] == "save"
    ensures |Post6.slug| >= 4 && Post6.slug[..4] == "gett"
    ensures |Post7.slug| >= 4 && Post7.slug[..4] == "inte"
  {
  }

  /** Posts whose slugs start with pairwise distinct heads have distinct slugs. */
  lemma DistinctByHeads(posts: seq<Post>, heads: seq<string>)
    requires |posts| == |heads|
    requires forall i :: 0 <= i < |posts| ==> |posts[i].slug| >= 4 && posts[i].slug[..4] == heads[i]
    requires forall i, j :: 0 <= i < j < |heads| ==> heads[i] != heads[j]
    ensures SlugsDistinct(posts)
  {
  }

  /** The slugs are pairwise distinct single path segments. */
  lemma CatalogSlugsSafe()
    ensures SlugsDistinct(BlogPosts)
    ensures forall i :: 0 <= i < |BlogPosts| ==> IsPathSegment(BlogPosts[i].slug)
  {
    CatalogSlugsDistinct();
    SlugIsPathSegment1();
    SlugIsPathSegment2();
    SlugIsPathSegment3();
    SlugIsPathSegment4();
    SlugIsPathSegment5();
    SlugIsPathSegment6();
    SlugIsPathSegment7();
  }

  /** Exactly one record, the template with id `1`, is a draft; six are published. */
  lemma CatalogDrafts()
    ensures IsDraft(BlogPosts[0]) && BlogPosts[0].id == "1"
    ensures forall p :: p in BlogPosts[1..] ==> !IsDraft(p)
    ensures DraftCount(BlogPosts) == 1
    ensures Published(BlogPosts) == BlogPosts[1..]
    ensures |Published(BlogPosts)| == 6
  {
    var rest := [Post2, Post3, Post4, Post5, Post6, Post7];
    assert BlogPosts == [Post1] + rest;
    assert !IsDraft(Post2) && !IsDraft(Post3) && !IsDraft(Post4);
    assert !IsDraft(Post5) && !IsDraft(Post6) && !IsDraft(Post7);
    DraftFirst(Post1, rest);
  }

  /** A draft followed by a run of non-drafts: only the run is published. */
  lemma DraftFirst(first: Post, rest: seq<Post>)
    requires IsDraft(first)
    requires forall p :: p in rest ==> !IsDraft(p)
    ensures Published([first] + rest) == rest
    ensures DraftCount([first] + rest) == 1
    ensures ([first] + rest)[1..] == rest
  {
    PublishedNoDrafts(rest);
    assert ([first] + rest)[1..] == rest;
  }

  /** Every image is an https URL or a site-rooted path. */
  lemma CatalogImages()
    ensures forall i :: 0 <= i < |BlogPosts| ==> HasAbsoluteOrRootedImage(BlogPosts[i])
  {
  }

  /** Every date is written `YYYY-MM-DD` and names a real day. */
  lemma CatalogDatesWellFormed()
    ensures forall i :: 0 <= i < |BlogPosts| ==> IsIsoDate(BlogPosts[i].publishDate)
  {
    DatesWellFormedFirst();
    DatesWellFormedLast();
  }

  /** The first four posts' dates are real days. */
  lemma DatesWellFormedFirst()
    ensures IsIsoDate(Post1.publishDate) && IsIsoDate(Post2.publishDate)
    ensures IsIsoDate(Post3.publishDate) && IsIsoDate(Post4.publishDate)
  {
    assert IsIsoDate(Post1.publishDate) && IsIsoDate(Post2.publishDate);
  }

  /** The last three posts' dates are real days. */
  lemma DatesWellFormedLast()
    ensures IsIsoDate(Post5.publishDate) && IsIsoDate(Post6.publishDate) && IsIsoDate(Post7.publishDate)
  {
    assert IsIsoDate(Post5.publishDate);
  }

  /** No two posts share a publication date. */
  lemma CatalogDatesDistinct()
    ensures DatesDistinct(BlogPosts)
  {
  }

  /** No title and no author contains a double quote. */
  lemma CatalogQuoteFree()
    ensures forall i :: 0 <= i < |BlogPosts| ==> TitleQuoteFree(BlogPosts[i])
    ensures forall i :: 0 <= i < |BlogPosts| ==> '"' !in BlogPosts[i].author
  {
    TitleQuoteFree1();
    TitleQuoteFree2();
    TitleQuoteFree3();
    TitleQuoteFree4();
    TitleQuoteFree5();
    TitleQuoteFree6();
    TitleQuoteFree7();
  }
}
