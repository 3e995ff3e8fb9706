/** The page of one post in the single-page application: the post is looked up by
    the slug in the address, a list of related posts is offered below it, and the
    head elements it asks for describe the post the way the page generator does. */
module PostPage {
  import opened Strings
  import opened Catalog
  import opened Markup
  import OgPages
  import Seo

  /** The index of the first post with the slug, as the catalog's `find` locates it. */
  function FindBySlug(posts: seq<Post>, slug: string): (r: Option<nat>)
    ensures r.Some? ==> r.value < |posts| && posts[r.value].slug == slug
    ensures r.Some? ==> forall j :: 0 <= j < r.value ==> posts[j].slug != slug
    ensures r.None? <==> forall j :: 0 <= j < |posts| ==> posts[j].slug != slug
  {
    if posts == [] then None
    else if posts[0].slug == slug then Some(0)
    else
      match FindBySlug(posts[1..], slug)
      case None => None
      case Some(i) => Some(i + 1)
  }

  datatype View = Show(post: Post) | Redirect(to: string)

  /** A known slug shows its post, whether or not it is a draft; an unknown one
      sends the reader to the blog index. */
  function Route(posts: seq<Post>, slug: string): (v: View)
    ensures v.Redirect? <==> forall j :: 0 <= j < |posts| ==> posts[j].slug != slug
    ensures v.Redirect? ==> v.to == "/blog"
    ensures v.Show? ==> exists i ::
      (0 <= i < |posts| && posts[i] == v.post && v.post.slug == slug
       && forall j :: 0 <= j < i ==> posts[j].slug != slug)
  {
    match FindBySlug(posts, slug)
    case Some(i) => Show(posts[i])
    case None => Redirect("/blog")
  }

  /** The draft template is not filtered out: its address shows it. */
  lemma RouteShowsDraft()
    ensures IsDraft(BlogPosts[0])
    ensures Route(BlogPosts, BlogPosts[0].slug) == Show(BlogPosts[0])
  {
    CatalogDrafts();
  }

  /** Some tag of `q` is also a tag of `current`. */
  predicate SharesTag(q: Post, current: Post) {
    exists k | 0 <= k < |q.tags| :: q.tags[k] in current.tags
  }

  predicate IsRelated(q: Post, current: Post) {
    q.id != current.id && SharesTag(q, current)
  }

  /** The posts related to `current`, in catalog order. */
  function Candidates(posts: seq<Post>, current: Post): (r: seq<Post>)
    ensures |r| <= |posts|
    ensures forall q :: q in r <==> q in posts && IsRelated(q, current)
  {
    if posts == [] then []
    else (if IsRelated(posts[0], current) then [posts[0]] else []) + Candidates(posts[1..], current)
  }

  /** Selecting related posts distributes over concatenation, so it keeps catalog order. */
  lemma {:induction false} CandidatesAppend(a: seq<Post>, b: seq<Post>, current: Post)
    ensures Candidates(a + b, current) == Candidates(a, current) + Candidates(b, current)
  {
    if a == [] {
      assert a + b == b;
    } else {
      assert (a + b)[0] == a[0];
      assert (a + b)[1..] == a[1..] + b;
      CandidatesAppend(a[1..], b, current);
    }
  }

  /** At most three related posts: the first three in catalog order. */
  function RelatedPosts(posts: seq<Post>, current: Post): (r: seq<Post>)
    ensures |r| <= 3
    ensures forall q :: q in r ==> q in posts && q.id != current.id && SharesTag(q, current)
  {
    Take(Candidates(posts, current), 3)
  }

  /** A related post is left out only when three related posts come before it:
      one with fewer before it is shown, at its place among the related posts. */
  lemma RelatedTakesFirst(posts: seq<Post>, current: Post, i: nat)
    requires i < |posts| && IsRelated(posts[i], current)
    requires |Candidates(posts[..i], current)| < 3
    ensures |Candidates(posts[..i], current)| < |RelatedPosts(posts, current)|
      && RelatedPosts(posts, current)[|Candidates(posts[..i], current)|] == posts[i]
  {
    var before := Candidates(posts[..i], current);
    assert posts == posts[..i] + posts[i..];
    CandidatesAppend(posts[..i], posts[i..], current);
    assert Candidates(posts[i..], current)[0] == posts[i];
    assert Candidates(posts, current)[|before|] == posts[i];
  }

  /** The preview of a related post: its first hundred characters and an ellipsis. */
  function Preview(p: Post): (r: string)
    ensures |r| == Min(100, |p.excerpt|) + 3
    ensures r[..|r| - 3] == p.excerpt[..Min(100, |p.excerpt|)]
    ensures r[|r| - 3..] == "..."
  {
    Take(p.excerpt, 100) + "..."
  }

  /** The properties the page hands to the head component. */
  function SeoProps(p: Post): Seo.Props {
    Seo.Props(
      title := Some(p.title),
      description := Some(p.excerpt),
      keywords := Some(p.tags),
      image := p.image,
      url := Some(OgPages.CanonicalUrl(p.slug)),
      pageType := Some(Seo.Article),
      publishDate := Some(p.publishDate),
      author := Some(p.author))
  }

  /** The head elements of a post's page. */
  function PostHead(p: Post): Block {
    Seo.Head(Seo.Resolve(SeoProps(p)))
  }

  /** The page's canonical link is the address the generator writes into the
      post's static page, there as canonical link, `og:url` and `twitter:url` alike. */
  lemma CanonicalMatchesGenerator(p: Post)
    ensures Values(PostHead(p), CanonicalHref) == [OgPages.CanonicalUrl(p.slug)]
    ensures Values(PostHead(p), CanonicalHref)
      == Values(OgPages.MetaBlock(OgPages.Prepare(p), p.tags), CanonicalHref)
    ensures Values(PostHead(p), MetaKey(Property, "og:url"))
      == Values(OgPages.MetaBlock(OgPages.Prepare(p), p.tags), MetaKey(Property, "og:url"))
  {
    var s := Seo.Resolve(SeoProps(p));
    Seo.HeadUrls(s, Seo.FullTitle(s.title), Join(s.keywords, ", "));
    OgPages.MetaBlockCanonical(OgPages.Prepare(p), p.tags);
    OgPages.MetaBlockUrl(OgPages.Prepare(p), p.tags);
  }

  /** The page lists one `article:tag` per tag, as the generator does, exactly
      when the post has a publish date; with an empty date it lists none. */
  lemma ArticleTagsMatchGenerator(p: Post)
    ensures p.publishDate != [] ==>
      (Values(PostHead(p), MetaKey(Property, "article:tag"))
       == Values(OgPages.MetaBlock(OgPages.Prepare(p), p.tags), MetaKey(Property, "article:tag")))
    ensures p.publishDate == [] ==> Values(PostHead(p), MetaKey(Property, "article:tag")) == []
  {
    var s := Seo.Resolve(SeoProps(p));
    Seo.HeadArticleTags(s, Seo.FullTitle(s.title), Join(s.keywords, ", "));
    OgPages.MetaBlockTags(OgPages.Prepare(p), p.tags);
  }

  /** The page's document title is the title rule applied to the post's title. */
  lemma PostHeadTitle(p: Post)
    ensures Values(PostHead(p), TitleText) == [Seo.FullTitle(p.title)]
  {
    var s := Seo.Resolve(SeoProps(p));
    Seo.HeadTitles(s, Seo.FullTitle(s.title), Join(s.keywords, ", "));
  }

  /** The generator's document title for a title without double quotes. */
  lemma GeneratorTitle(p: Post)
    requires '"' !in p.title
    ensures Values(OgPages.MetaBlock(OgPages.Prepare(p), p.tags), TitleText) == [p.title + " | Tim Illguth"]
  {
    OgPages.MetaBlockTitle(OgPages.Prepare(p), p.tags);
    OgPages.EscapeQuotesIdentity(p.title);
  }

  /** For a title without double quotes, the page and the generator give the same
      document title exactly when the title does not already name the site: the
      generator appends the site name unconditionally, the page only when it is missing. */
  lemma TitleMatchesGenerator(p: Post)
    requires '"' !in p.title
    ensures Values(PostHead(p), TitleText)
        == Values(OgPages.MetaBlock(OgPages.Prepare(p), p.tags), TitleText)
      <==> !Contains(p.title, Seo.SiteTitle)
  {
    PostHeadTitle(p);
    GeneratorTitle(p);
    SuffixRulesAgree(p.title);
  }

  /** The title rule and the unconditional suffix agree exactly on titles that do
      not name the site. */
  lemma SuffixRulesAgree(title: string)
    ensures [Seo.FullTitle(title)] == [title + " | Tim Illguth"] <==> !Contains(title, Seo.SiteTitle)
  {
    assert Seo.SiteTitle == "Tim Illguth";
    assert title + " | " + Seo.SiteTitle == title + " | Tim Illguth";
    if Contains(title, Seo.SiteTitle) {
      assert |title + " | Tim Illguth"| != |title|;
    }
  }
}
