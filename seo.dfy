/** The head elements every page of the single-page application asks for: the
    full-title rule, the default values that stand in for missing properties,
    and the meta elements, of which the article ones appear only on dated
    articles. */
module Seo {
  import opened Strings
  import opened Markup

  const SiteTitle := "Tim Illguth"

  /** "Tim Illguth - Fullstack Blockchain Developer & Network Engineer" */
  const DefaultTitle := SiteTitle + " - Fullstack Blockchain Developer & Network Engineer"
  const DefaultDescription := "Certified Blockchain Developer, Linux Engineer, and Network "
    + "Security Specialist building secure, scalable solutions for the decentralized future."
  const DefaultKeywords := ["blockchain", "developer", "smart contracts", "web3", "defi",
    "network security"]
  const DefaultImage := "https://timillguth.com/og-image.jpg"
  const DefaultUrl := "https://timillguth.com"
  const DefaultAuthor := "Tim Illguth"

  datatype PageType = Website | Article

  function TypeText(t: PageType): string {
    match t
    case Website => "website"
    case Article => "article"
  }

  /** The properties a page passes; `None` is a property left undefined. */
  datatype Props = Props(
    title: Option<string>,
    description: Option<string>,
    keywords: Option<seq<string>>,
    image: Option<string>,
    url: Option<string>,
    pageType: Option<PageType>,
    publishDate: Option<string>,
    author: Option<string>)

  const NoProps := Props(None, None, None, None, None, None, None, None)

  /** The properties after the defaults have been applied; `publishDate` has none. */
  datatype Settings = Settings(
    title: string,
    description: string,
    keywords: seq<string>,
    image: string,
    url: string,
    pageType: PageType,
    publishDate: Option<string>,
    author: string)

  /** A default parameter: it stands in only for an undefined value. */
  function Or<T>(o: Option<T>, default: T): (r: T)
    ensures o.Some? ==> r == o.value
    ensures o.None? ==> r == default
  {
    if o.Some? then o.value else default
  }

  function Resolve(p: Props): Settings {
    Settings(
      title := Or(p.title, DefaultTitle),
      description := Or(p.description, DefaultDescription),
      keywords := Or(p.keywords, DefaultKeywords),
      image := Or(p.image, DefaultImage),
      url := Or(p.url, DefaultUrl),
      pageType := Or(p.pageType, Website),
      publishDate := p.publishDate,
      author := Or(p.author, DefaultAuthor))
  }

  /** The document title: the site name is appended unless the title already
      mentions it, so every title names the site and a title is never extended twice. */
  function FullTitle(title: string): (r: string)
    ensures Contains(r, SiteTitle)
    ensures StartsWith(r, title)
    ensures Contains(title, SiteTitle) <==> r == title
  {
    if Contains(title, SiteTitle) then title
    else
      ContainsMiddle(title + " | ", SiteTitle, "");
      assert title + " | " + SiteTitle + "" == title + " | " + SiteTitle;
      assert (title + " | " + SiteTitle)[..|title|] == title;
      title + " | " + SiteTitle
  }

  lemma FullTitleIdempotent(title: string)
    ensures FullTitle(FullTitle(title)) == FullTitle(title)
  {
  }

  /** The default title already names the site, so a page that passes no title
      gets the default title unchanged. */
  lemma NoPropsTitle()
    ensures FullTitle(Resolve(NoProps).title) == DefaultTitle
  {
    var rest := " - Fullstack Blockchain Developer & Network Engineer";
    ContainsMiddle("", SiteTitle, rest);
    assert "" + SiteTitle + rest == DefaultTitle;
  }

  /** The article elements appear when the page is an article and its publish
      date is truthy: present and not empty. */
  predicate ShowsArticleTags(s: Settings) {
    s.pageType == Article && s.publishDate.Some? && s.publishDate.value != []
  }

  /** The head elements, in document order. */
  function Head(s: Settings): Block {
    HeadLines(s, FullTitle(s.title), Join(s.keywords, ", "))
  }

  /** The head elements around the full title and the joined keywords. */
  function HeadLines(s: Settings, full: string, keywordText: string): Block {
    Then(Opening(s, full, keywordText), Then(ArticleLines(s), Closing()))
  }

  /** The elements every page has; the Twitter elements are written with
      `property`, not `name`. */
  function Opening(s: Settings, full: string, keywordText: string): Block {
    Line(Single(TitleTag(full)),
    Line(Single(Meta(Name, "description", s.description)),
    Line(Single(Meta(Name, "keywords", keywordText)),
    Line(Single(Meta(Name, "author", s.author)),
    Line(Single(CanonicalLink(s.url)),
    Line(Single(Meta(Property, "og:type", TypeText(s.pageType))),
    Line(Single(Meta(Property, "og:url", s.url)),
    Line(Single(Meta(Property, "og:title", full)),
    Line(Single(Meta(Property, "og:description", s.description)),
    Line(Single(Meta(Property, "og:image", s.image)),
    Line(Single(Meta(Property, "og:site_name", SiteTitle)),
    Line(Single(Meta(Property, "twitter:card", "summary_large_image")),
    Line(Single(Meta(Property, "twitter:url", s.url)),
    Line(Single(Meta(Property, "twitter:title", full)),
    Line(Single(Meta(Property, "twitter:description", s.description)),
    Line(Single(Meta(Property, "twitter:image", s.image)),
    Line(Single(Meta(Property, "twitter:creator", "@timillguth")),
    End)))))))))))))))))
  }

  /** The article elements: present only on a dated article. */
  function ArticleLines(s: Settings): Block {
    if ShowsArticleTags(s) then
      Line(Single(Meta(Property, "article:published_time", s.publishDate.value)),
      Line(Single(Meta(Property, "article:author", s.author)),
      Line(Row(MetaRow(Property, "article:tag", s.keywords)),
      End)))
    else End
  }

  /** The crawler, viewport and language elements every page ends with. */
  function Closing(): Block {
    Line(Single(Meta(Name, "robots", "index, follow")),
    Line(Single(Meta(Name, "googlebot", "index, follow")),
    Line(Single(Meta(Name, "viewport", "width=device-width, initial-scale=1.0")),
    Line(Single(Meta(HttpEquiv, "Content-Type", "text/html; charset=utf-8")),
    Line(Single(Meta(Name, "language", "English")),
    End)))))
  }

  /** The closing elements carry no title, no link and no `property` element. */
  lemma ClosingSilent(sel: Selector)
    requires !sel.MetaKey? || sel.attr == Property
    ensures Values(Closing(), sel) == []
  {
    CountLine(sel);
  }

  /** The article elements carry nothing but their three keys. */
  lemma ArticleSilent(s: Settings, sel: Selector)
    requires sel != MetaKey(Property, "article:published_time")
    requires sel != MetaKey(Property, "article:author")
    requires sel != MetaKey(Property, "article:tag")
    ensures Values(ArticleLines(s), sel) == []
  {
    CountLine(sel);
    MetaRowValues(Property, "article:tag", s.keywords, sel);
  }

  /** A value the opening elements carry is the head's only value for its
      selector, provided the article and closing elements say nothing about it. */
  lemma HeadFromOpening(s: Settings, full: string, keywordText: string, sel: Selector)
    requires !sel.MetaKey? || sel.attr == Property
    requires sel != MetaKey(Property, "article:published_time")
    requires sel != MetaKey(Property, "article:author")
    requires sel != MetaKey(Property, "article:tag")
    ensures Values(HeadLines(s, full, keywordText), sel) == Values(Opening(s, full, keywordText), sel)
  {
    ArticleSilent(s, sel);
    ClosingSilent(sel);
    ValuesThen(ArticleLines(s), Closing(), sel);
    ValuesThen(Opening(s, full, keywordText), Then(ArticleLines(s), Closing()), sel);
    assert Values(Opening(s, full, keywordText), sel) + ([] + [])
      == Values(Opening(s, full, keywordText), sel);
  }

  lemma OpeningOnce(s: Settings, full: string, keywordText: string, sel: Selector, x: string)
    requires HasLine(Opening(s, full, keywordText), Single(Carrier(sel, x)))
    requires Count(Opening(s, full, keywordText), sel) == 1
    ensures Values(Opening(s, full, keywordText), sel) == [x]
  {
    ValuesSingle(Opening(s, full, keywordText), sel, x);
  }

  lemma OpeningTitles(s: Settings, full: string, keywordText: string)
    ensures Values(Opening(s, full, keywordText), TitleText) == [full]
    ensures Values(Opening(s, full, keywordText), MetaKey(Property, "og:title")) == [full]
  {
    var s1, s2 := TitleText, MetaKey(Property, "og:title");
    CountLine(s1);
    CountLine(s2);
    HasLineStep(Single(Carrier(s1, full)));
    HasLineStep(Single(Carrier(s2, full)));
    OpeningOnce(s, full, keywordText, s1, full);
    OpeningOnce(s, full, keywordText, s2, full);
  }

  lemma OpeningTwitterTitle(s: Settings, full: string, keywordText: string)
    ensures Values(Opening(s, full, keywordText), MetaKey(Property, "twitter:title")) == [full]
    ensures Values(Opening(s, full, keywordText), MetaKey(Name, "twitter:title")) == []
  {
    var s1, s2 := MetaKey(Property, "twitter:title"), MetaKey(Name, "twitter:title");
    CountLine(s1);
    CountLine(s2);
    HasLineStep(Single(Carrier(s1, full)));
    OpeningOnce(s, full, keywordText, s1, full);
  }

  lemma OpeningUrl(s: Settings, full: string, keywordText: string)
    ensures Values(Opening(s, full, keywordText), CanonicalHref) == [s.url]
    ensures Values(Opening(s, full, keywordText), MetaKey(Property, "og:url")) == [s.url]
  {
    var s1, s2 := CanonicalHref, MetaKey(Property, "og:url");
    CountLine(s1);
    CountLine(s2);
    HasLineStep(Single(Carrier(s1, s.url)));
    HasLineStep(Single(Carrier(s2, s.url)));
    OpeningOnce(s, full, keywordText, s1, s.url);
    OpeningOnce(s, full, keywordText, s2, s.url);
  }

  lemma OpeningTwitterUrl(s: Settings, full: string, keywordText: string)
    ensures Values(Opening(s, full, keywordText), MetaKey(Property, "twitter:url")) == [s.url]
  {
    var s1 := MetaKey(Property, "twitter:url");
    CountLine(s1);
    HasLineStep(Single(Carrier(s1, s.url)));
    OpeningOnce(s, full, keywordText, s1, s.url);
  }

  /** The document title, `og:title` and `twitter:title` are all the full title,
      and the Twitter one is a `property`: no element names it. */
  lemma HeadTitles(s: Settings, full: string, keywordText: string)
    ensures Values(HeadLines(s, full, keywordText), TitleText) == [full]
    ensures Values(HeadLines(s, full, keywordText), MetaKey(Property, "og:title")) == [full]
    ensures Values(HeadLines(s, full, keywordText), MetaKey(Property, "twitter:title")) == [full]
  {
    OpeningTitles(s, full, keywordText);
    OpeningTwitterTitle(s, full, keywordText);
    HeadFromOpening(s, full, keywordText, TitleText);
    HeadFromOpening(s, full, keywordText, MetaKey(Property, "og:title"));
    HeadFromOpening(s, full, keywordText, MetaKey(Property, "twitter:title"));
  }

  /** The page address is the canonical link, `og:url` and `twitter:url`. */
  lemma HeadUrls(s: Settings, full: string, keywordText: string)
    ensures Values(HeadLines(s, full, keywordText), CanonicalHref) == [s.url]
    ensures Values(HeadLines(s, full, keywordText), MetaKey(Property, "og:url")) == [s.url]
    ensures Values(HeadLines(s, full, keywordText), MetaKey(Property, "twitter:url")) == [s.url]
  {
    OpeningUrl(s, full, keywordText);
    OpeningTwitterUrl(s, full, keywordText);
    HeadFromOpening(s, full, keywordText, CanonicalHref);
    HeadFromOpening(s, full, keywordText, MetaKey(Property, "og:url"));
    HeadFromOpening(s, full, keywordText, MetaKey(Property, "twitter:url"));
  }

  /** The keywords element holds the keywords joined by a comma and a space. */
  lemma HeadKeywords(s: Settings, full: string, keywordText: string)
    ensures Values(HeadLines(s, full, keywordText), MetaKey(Name, "keywords")) == [keywordText]
  {
    var sel := MetaKey(Name, "keywords");
    CountLine(sel);
    HasLineStep(Single(Carrier(sel, keywordText)));
    OpeningOnce(s, full, keywordText, sel, keywordText);
    ArticleSilent(s, sel);
    assert Values(Closing(), sel) == [];
    ValuesThen(ArticleLines(s), Closing(), sel);
    ValuesThen(Opening(s, full, keywordText), Then(ArticleLines(s), Closing()), sel);
  }

  /** The opening elements carry no article element. */
  lemma OpeningSilent(s: Settings, full: string, keywordText: string, key: string)
    requires key == "article:published_time" || key == "article:author" || key == "article:tag"
    ensures Values(Opening(s, full, keywordText), MetaKey(Property, key)) == []
  {
    CountLine(MetaKey(Property, key));
  }

  lemma ArticleValues(s: Settings)
    ensures Values(ArticleLines(s), MetaKey(Property, "article:tag"))
      == (if ShowsArticleTags(s) then s.keywords else [])
    ensures Values(ArticleLines(s), MetaKey(Property, "article:published_time"))
      == (if ShowsArticleTags(s) then [s.publishDate.value] else [])
  {
    var s1, s2 := MetaKey(Property, "article:tag"), MetaKey(Property, "article:published_time");
    if ShowsArticleTags(s) {
      var row := Row(MetaRow(Property, "article:tag", s.keywords));
      MetaRowValues(Property, "article:tag", s.keywords, s1);
      MetaRowValues(Property, "article:tag", s.keywords, s2);
      CountLine(s1);
      CountLine(s2);
      HasLineStep(row);
      HasLineStep(Single(Carrier(s2, s.publishDate.value)));
      ValuesFromOneLine(ArticleLines(s), s1, row);
      ValuesSingle(ArticleLines(s), s2, s.publishDate.value);
    }
  }

  /** An article element's values are those of the article part alone. */
  lemma HeadFromArticle(s: Settings, full: string, keywordText: string, key: string)
    requires key == "article:published_time" || key == "article:author" || key == "article:tag"
    ensures Values(HeadLines(s, full, keywordText), MetaKey(Property, key))
      == Values(ArticleLines(s), MetaKey(Property, key))
  {
    var sel := MetaKey(Property, key);
    OpeningSilent(s, full, keywordText, key);
    ClosingSilent(sel);
    ValuesThen(ArticleLines(s), Closing(), sel);
    ValuesThen(Opening(s, full, keywordText), Then(ArticleLines(s), Closing()), sel);
    assert [] + (Values(ArticleLines(s), sel) + []) == Values(ArticleLines(s), sel);
  }

  /** One `article:tag` per keyword, in order, and the publish time, exactly when
      the page is a dated article; none otherwise. */
  lemma HeadArticleTags(s: Settings, full: string, keywordText: string)
    ensures Values(HeadLines(s, full, keywordText), MetaKey(Property, "article:tag"))
      == (if ShowsArticleTags(s) then s.keywords else [])
    ensures Values(HeadLines(s, full, keywordText), MetaKey(Property, "article:published_time"))
      == (if ShowsArticleTags(s) then [s.publishDate.value] else [])
  {
    ArticleValues(s);
    HeadFromArticle(s, full, keywordText, "article:tag");
    HeadFromArticle(s, full, keywordText, "article:published_time");
  }
}
