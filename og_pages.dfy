/** The static page generator: for every published post it takes the built
    `dist/index.html`, replaces its first `<title>` element with a block of
    Open Graph and Twitter meta tags describing the post, and writes the result
    to `dist/<slug>/index.html`, so that crawlers which do not run scripts see a
    preview of each post. */
module OgPages {
  import opened Strings
  import opened Catalog
  import opened Markup

  const SiteOrigin := "https://timillguth.com"

  /** Every double quote replaced by the entity `&quot;`, all other characters kept. */
  function EscapeQuotes(s: string): (r: string)
    ensures '"' !in r
  {
    if s == [] then []
    else (if s[0] == '"' then "&quot;" else [s[0]]) + EscapeQuotes(s[1..])
  }

  /** Text without a double quote comes through escaping unchanged. */
  lemma {:induction false} EscapeQuotesIdentity(s: string)
    requires '"' !in s
    ensures EscapeQuotes(s) == s
  {
    if s != [] {
      EscapeQuotesIdentity(s[1..]);
      assert [s[0]] + s[1..] == s;
    }
  }

  /** Escaping twice is escaping once. */
  lemma EscapeQuotesIdempotent(s: string)
    ensures EscapeQuotes(EscapeQuotes(s)) == EscapeQuotes(s)
  {
    EscapeQuotesIdentity(EscapeQuotes(s));
  }

  /** Escaping works character by character: it distributes over concatenation. */
  lemma {:induction false} EscapeQuotesAppend(a: string, b: string)
    ensures EscapeQuotes(a + b) == EscapeQuotes(a) + EscapeQuotes(b)
  {
    if a == [] {
      assert a + b == b;
    } else {
      assert (a + b)[0] == a[0];
      assert (a + b)[1..] == a[1..] + b;
      EscapeQuotesAppend(a[1..], b);
    }
  }

  /** Reads `&quot;` back as a double quote. */
  function UnescapeQuotes(s: string): string {
    if s == [] then []
    else if StartsWith(s, "&quot;") then "\"" + UnescapeQuotes(s[6..])
    else [s[0]] + UnescapeQuotes(s[1..])
  }

  /** Escaping loses nothing on text without an ampersand: unescaping restores it. */
  lemma {:induction false} UnescapeEscapeQuotes(s: string)
    requires '&' !in s
    ensures UnescapeQuotes(EscapeQuotes(s)) == s
  {
    if s != [] {
      var rest := EscapeQuotes(s[1..]);
      UnescapeEscapeQuotes(s[1..]);
      if s[0] == '"' {
        assert EscapeQuotes(s) == "&quot;" + rest;
        assert ("&quot;" + rest)[6..] == rest;
      } else {
        assert EscapeQuotes(s) == [s[0]] + rest;
        assert ([s[0]] + rest)[1..] == rest;
      }
      assert [s[0]] + s[1..] == s;
    }
  }

  /** The address of a post: the site origin followed by the slug. */
  function CanonicalUrl(slug: string): (r: string)
    ensures StartsWith(r, SiteOrigin + "/")
    ensures r[|SiteOrigin| + 1..] == slug
  {
    SiteOrigin + "/" + slug
  }

  /** Different slugs give different addresses. */
  lemma CanonicalUrlInjective(a: string, b: string)
    requires CanonicalUrl(a) == CanonicalUrl(b)
    ensures a == b
  {
    assert a == CanonicalUrl(a)[|SiteOrigin| + 1..];
  }

  /** An image address starting with `http` is kept; anything else gets the site's
      origin put in front of it with no separator, an absent image reading as the
      word `undefined`. */
  function ResolveImage(image: Option<string>): string {
    match image
    case Some(v) => if StartsWith(v, "http") then v else SiteOrigin + v
    case None => SiteOrigin + "undefined"
  }

  lemma StartsWithAppend(a: string, b: string, prefix: string)
    requires StartsWith(a, prefix)
    ensures StartsWith(a + b, prefix)
  {
    assert (a + b)[..|prefix|] == a[..|prefix|];
  }

  /** The resolved image is always an absolute `http` address: a link that is already
      one is kept as it is; anything else is placed after the site origin, and a
      missing image becomes the text `undefined` there. */
  lemma ResolveImageAbsolute(image: Option<string>)
    ensures StartsWith(ResolveImage(image), "http")
    ensures image.Some? && StartsWith(image.value, "http") ==> ResolveImage(image) == image.value
    ensures image.Some? && !StartsWith(image.value, "http") ==>
      ResolveImage(image) == SiteOrigin + image.value
    ensures image.None? ==> ResolveImage(image) == SiteOrigin + "undefined"
  {
    assert StartsWith(SiteOrigin, "http");
    match image
    case Some(v) => StartsWithAppend(SiteOrigin, v, "http");
    case None => StartsWithAppend(SiteOrigin, "undefined", "http");
  }

  /** The values the script prepares for a post before filling in its template:
      title, excerpt and author with their double quotes escaped, the post's
      address and its resolved image. */
  datatype Prepared = Prepared(
    title: string, description: string, url: string, image: string,
    publishDate: string, author: string, keywords: string)

  function Prepare(p: Post): Prepared {
    Prepared(
      title := EscapeQuotes(p.title),
      description := EscapeQuotes(p.excerpt),
      url := CanonicalUrl(p.slug),
      image := ResolveImage(p.image),
      publishDate := p.publishDate,
      author := EscapeQuotes(p.author),
      keywords := Join(p.tags, ", "))
  }

  /** The block of meta tags, one entry per line of the generator's template; the
      line of `article:tag` elements holds one element per tag, and is an indent
      with nothing after it when there are no tags. */
  function MetaBlock(v: Prepared, tags: seq<string>): Block {
    Line(Single(Comment("Primary Meta Tags")),
    Line(Single(TitleTag(v.title + " | Tim Illguth")),
    Line(Single(Meta(Name, "title", v.title)),
    Line(Single(Meta(Name, "description", v.description)),
    Line(Single(Meta(Name, "author", v.author)),
    Line(Single(Meta(Name, "keywords", v.keywords)),
    Line(Blank,
    Line(Single(Comment("Open Graph / Facebook")),
    Line(Single(Meta(Property, "og:type", "article")),
    Line(Single(Meta(Property, "og:url", v.url)),
    Line(Single(Meta(Property, "og:title", v.title)),
    Line(Single(Meta(Property, "og:description", v.description)),
    Line(Single(Meta(Property, "og:image", v.image)),
    Line(Single(Meta(Property, "og:site_name", "Tim Illguth")),
    Line(Single(Meta(Property, "article:published_time", v.publishDate)),
    Line(Single(Meta(Property, "article:author", v.author)),
    Line(Row(MetaRow(Property, "article:tag", tags)),
    Line(Blank,
    Line(Single(Comment("Twitter")),
    Line(Single(Meta(Name, "twitter:card", "summary_large_image")),
    Line(Single(Meta(Name, "twitter:url", v.url)),
    Line(Single(Meta(Name, "twitter:title", v.title)),
    Line(Single(Meta(Name, "twitter:description", v.description)),
    Line(Single(Meta(Name, "twitter:image", v.image)),
    Line(Single(Meta(Name, "twitter:creator", "@timillguth")),
    Line(Blank,
    Line(Single(Comment("Canonical URL")),
    Line(Single(CanonicalLink(v.url)),
    End))))))))))))))))))))))))))))
  }

  /** The text the generator splices into a post's page. */
  function MetaTags(p: Post): string {
    Render(MetaBlock(Prepare(p), p.tags))
  }

  /** The block carries `x` once for `sel`, on a line of its own. */
  lemma MetaBlockOnce(v: Prepared, tags: seq<string>, sel: Selector, x: string)
    requires HasLine(MetaBlock(v, tags), Single(Carrier(sel, x)))
    requires Count(MetaBlock(v, tags), sel) == 1
    ensures Values(MetaBlock(v, tags), sel) == [x]
  {
    ValuesSingle(MetaBlock(v, tags), sel, x);
  }

  /** The block has exactly one `<title>`: the escaped post title followed by the
      site name, which is appended whether or not the title already holds it; the
      `title` meta element holds the escaped title alone. */
  lemma MetaBlockTitle(v: Prepared, tags: seq<string>)
    ensures Values(MetaBlock(v, tags), TitleText) == [v.title + " | Tim Illguth"]
    ensures Values(MetaBlock(v, tags), MetaKey(Name, "title")) == [v.title]
  {
    MetaBlockTitleTag(v, tags);
    MetaBlockTitleMeta(v, tags);
  }

  /** The `<title>` half of `MetaBlockTitle`. */
  lemma MetaBlockTitleTag(v: Prepared, tags: seq<string>)
    ensures Values(MetaBlock(v, tags), TitleText) == [v.title + " | Tim Illguth"]
  {
    MetaRowValues(Property, "article:tag", tags, TitleText);
    CountLine(TitleText);
    HasLineStep(Single(Carrier(TitleText, v.title + " | Tim Illguth")));
    MetaBlockOnce(v, tags, TitleText, v.title + " | Tim Illguth");
  }

  /** The `title` meta half of `MetaBlockTitle`. */
  lemma MetaBlockTitleMeta(v: Prepared, tags: seq<string>)
    ensures Values(MetaBlock(v, tags), MetaKey(Name, "title")) == [v.title]
  {
    var sel := MetaKey(Name, "title");
    MetaRowValues(Property, "article:tag", tags, sel);
    CountLine(sel);
    HasLineStep(Single(Carrier(sel, v.title)));
    MetaBlockOnce(v, tags, sel, v.title);
  }

  /** The escaped title is also given once each as `og:title` and `twitter:title`. */
  lemma MetaBlockSocialTitles(v: Prepared, tags: seq<string>)
    ensures Values(MetaBlock(v, tags), MetaKey(Property, "og:title")) == [v.title]
    ensures Values(MetaBlock(v, tags), MetaKey(Name, "twitter:title")) == [v.title]
  {
    var s1, s2 := MetaKey(Property, "og:title"), MetaKey(Name, "twitter:title");
    MetaRowValues(Property, "article:tag", tags, s1);
    MetaRowValues(Property, "article:tag", tags, s2);
    CountLine(s1);
    CountLine(s2);
    HasLineStep(Single(Carrier(s1, v.title)));
    HasLineStep(Single(Carrier(s2, v.title)));
    MetaBlockOnce(v, tags, s1, v.title);
    MetaBlockOnce(v, tags, s2, v.title);
  }

  /** The post's address is given once each as `og:url` and `twitter:url`. */
  lemma MetaBlockUrl(v: Prepared, tags: seq<string>)
    ensures Values(MetaBlock(v, tags), MetaKey(Property, "og:url")) == [v.url]
    ensures Values(MetaBlock(v, tags), MetaKey(Name, "twitter:url")) == [v.url]
  {
    var s1, s2 := MetaKey(Property, "og:url"), MetaKey(Name, "twitter:url");
    MetaRowValues(Property, "article:tag", tags, s1);
    MetaRowValues(Property, "article:tag", tags, s2);
    CountLine(s1);
    CountLine(s2);
    HasLineStep(Single(Carrier(s1, v.url)));
    HasLineStep(Single(Carrier(s2, v.url)));
    MetaBlockOnce(v, tags, s1, v.url);
    MetaBlockOnce(v, tags, s2, v.url);
  }

  /** ... and once more as the one canonical link. */
  lemma MetaBlockCanonical(v: Prepared, tags: seq<string>)
    ensures Values(MetaBlock(v, tags), CanonicalHref) == [v.url]
  {
    MetaRowValues(Property, "article:tag", tags, CanonicalHref);
    CountLine(CanonicalHref);
    HasLineStep(Single(CanonicalLink(v.url)));
    MetaBlockOnce(v, tags, CanonicalHref, v.url);
  }

  /** Both preview images are the resolved image. */
  lemma MetaBlockImage(v: Prepared, tags: seq<string>)
    ensures Values(MetaBlock(v, tags), MetaKey(Property, "og:image")) == [v.image]
    ensures Values(MetaBlock(v, tags), MetaKey(Name, "twitter:image")) == [v.image]
  {
    var s1, s2 := MetaKey(Property, "og:image"), MetaKey(Name, "twitter:image");
    MetaRowValues(Property, "article:tag", tags, s1);
    MetaRowValues(Property, "article:tag", tags, s2);
    CountLine(s1);
    CountLine(s2);
    HasLineStep(Single(Carrier(s1, v.image)));
    HasLineStep(Single(Carrier(s2, v.image)));
    MetaBlockOnce(v, tags, s1, v.image);
    MetaBlockOnce(v, tags, s2, v.image);
  }

  /** The tags are listed once as `keywords`, joined by a comma and a space, and
      again as one `article:tag` element per tag, in order, on a single line. */
  lemma MetaBlockTags(v: Prepared, tags: seq<string>)
    ensures Values(MetaBlock(v, tags), MetaKey(Name, "keywords")) == [v.keywords]
    ensures Values(MetaBlock(v, tags), MetaKey(Property, "article:tag")) == tags
  {
    var s1, s2 := MetaKey(Name, "keywords"), MetaKey(Property, "article:tag");
    var row := Row(MetaRow(Property, "article:tag", tags));
    MetaRowValues(Property, "article:tag", tags, s1);
    MetaRowValues(Property, "article:tag", tags, s2);
    CountLine(s1);
    CountLine(s2);
    HasLineStep(Single(Carrier(s1, v.keywords)));
    HasLineStep(row);
    MetaBlockOnce(v, tags, s1, v.keywords);
    ValuesFromOneLine(MetaBlock(v, tags), s2, row);
  }

  /** The prepared title, description and author hold no double quote, so the
      attributes they fill cannot be cut short. */
  lemma PrepareQuoteFree(p: Post)
    ensures '"' !in Prepare(p).title && '"' !in Prepare(p).description && '"' !in Prepare(p).author
    ensures '"' !in p.title ==> Prepare(p).title == p.title
  {
    if '"' !in p.title {
      EscapeQuotesIdentity(p.title);
    }
  }

  /** Escaping adds only the characters of `&quot;`. */
  lemma {:induction false} EscapeQuotesAvoids(s: string, c: char)
    requires c !in s && c !in "&quot;"
    ensures c !in EscapeQuotes(s)
  {
    if s != [] {
      EscapeQuotesAvoids(s[1..], c);
    }
  }

  /** No text a post's block is built from holds a dollar sign. */
  predicate DollarFree(p: Post) {
    && '$' !in p.title && '$' !in p.excerpt && '$' !in p.author
    && '$' !in p.slug && '$' !in p.publishDate
    && (p.image.Some? ==> '$' !in p.image.value)
    && forall k :: 0 <= k < |p.tags| ==> '$' !in p.tags[k]
  }

  /** The fixed texts of the primary part hold no dollar sign. */
  lemma PrimaryTextsDollarFree()
    ensures '$' !in " | Tim Illguth" && '$' !in "Primary Meta Tags"
    ensures '$' !in "title" && '$' !in "description" && '$' !in "author" && '$' !in "keywords"
  {
  }

  /** The fixed texts of the Open Graph part hold no dollar sign. */
  lemma OpenGraphTextsDollarFree()
    ensures '$' !in "Open Graph / Facebook" && '$' !in "og:type" && '$' !in "article"
    ensures '$' !in "og:url" && '$' !in "og:title" && '$' !in "og:description"
    ensures '$' !in "og:image" && '$' !in "og:site_name" && '$' !in "Tim Illguth"
    ensures '$' !in "article:published_time" && '$' !in "article:author" && '$' !in "article:tag"
  {
  }

  /** The fixed texts of the Twitter part hold no dollar sign. */
  lemma TwitterTextsDollarFree()
    ensures '$' !in "Twitter" && '$' !in "twitter:card" && '$' !in "summary_large_image"
    ensures '$' !in "twitter:url" && '$' !in "twitter:title" && '$' !in "twitter:description"
    ensures '$' !in "twitter:image" && '$' !in "twitter:creator" && '$' !in "@timillguth"
    ensures '$' !in "Canonical URL"
  {
  }

  lemma MetaBlockAvoids(v: Prepared, tags: seq<string>)
    requires '$' !in v.title && '$' !in v.description && '$' !in v.url
    requires '$' !in v.image && '$' !in v.publishDate && '$' !in v.author && '$' !in v.keywords
    requires forall k :: 0 <= k < |tags| ==> '$' !in tags[k]
    ensures BlockAvoids(MetaBlock(v, tags), '$')
  {
    PrimaryTextsDollarFree();
    OpenGraphTextsDollarFree();
    TwitterTextsDollarFree();
    MetaRowAvoids(Property, "article:tag", tags, '$');
    BlockAvoidsStep('$');
  }

  /** Then the block the post is given holds no dollar sign either, so `replace`
      inserts it literally. */
  lemma MetaTagsDollarFree(p: Post)
    requires DollarFree(p)
    ensures '$' !in MetaTags(p)
  {
    EscapeQuotesAvoids(p.title, '$');
    EscapeQuotesAvoids(p.excerpt, '$');
    EscapeQuotesAvoids(p.author, '$');
    JoinAvoids(p.tags, ", ", '$');
    PreparedDollarFree(p);
  }

  lemma PreparedDollarFree(p: Post)
    requires DollarFree(p)
    requires '$' !in EscapeQuotes(p.title) && '$' !in EscapeQuotes(p.excerpt)
    requires '$' !in EscapeQuotes(p.author) && '$' !in Join(p.tags, ", ")
    ensures '$' !in Render(MetaBlock(Prepare(p), p.tags))
  {
    var v := Prepare(p);
    assert '$' !in v.url;
    assert '$' !in v.image;
    MetaBlockAvoids(v, p.tags);
    BlockDollarFree(MetaBlock(v, p.tags));
  }


  /** `.` in a regular expression matches anything but these. */
  predicate IsLineTerminator(c: char) {
    c == '\n' || c == '\r' || c == '\U{2028}' || c == '\U{2029}'
  }

  const OpenTitle := "<title>"
  const CloseTitle := "</title>"

  /** A `</title>` starts at `j`, reachable from `from` without crossing a line end. */
  predicate CloseReachable(t: string, from: int, j: int) {
    0 <= from <= j && OccursAt(t, CloseTitle, j)
    && forall k :: from <= k < j ==> !IsLineTerminator(t[k])
  }

  /** `/<title>.*?<\/title>/` matches from the `<title>` at `i` to the `</title>` at `j`. */
  predicate TitleMatch(t: string, i: int, j: int) {
    OccursAt(t, OpenTitle, i) && CloseReachable(t, i + 7, j)
  }

  /** The expression can match starting at `i`. */
  ghost predicate OpensMatch(t: string, i: int) {
    exists j :: TitleMatch(t, i, j)
  }

  /** The match the expression finds: it starts as early as any match can, and its
      lazy `.*?` stops at the first `</title>`. */
  ghost predicate LeftmostMatch(t: string, i: int, j: int) {
    TitleMatch(t, i, j)
    && (forall i' :: 0 <= i' < i ==> !OpensMatch(t, i'))
    && (forall j' :: i + 7 <= j' < j ==> !OccursAt(t, CloseTitle, j'))
  }

  lemma CloseReachableShift(t: string, from: nat)
    requires from < |t| && !OccursAt(t, CloseTitle, from) && !IsLineTerminator(t[from])
    ensures forall j :: CloseReachable(t, from, j) <==> CloseReachable(t, from + 1, j)
  {
  }

  /** The lazy `.*?`: the first `</title>` at or after `from`, unless a line ends first. */
  function FindClose(t: string, from: nat): (r: Option<nat>)
    requires from <= |t|
    ensures r.Some? ==> CloseReachable(t, from, r.value)
    ensures r.Some? ==> forall j :: from <= j < r.value ==> !OccursAt(t, CloseTitle, j)
    ensures r.None? ==> forall j :: !CloseReachable(t, from, j)
    decreases |t| - from
  {
    if from + 8 > |t| then None
    else if OccursAt(t, CloseTitle, from) then Some(from)
    else if IsLineTerminator(t[from]) then None
    else
      CloseReachableShift(t, from);
      FindClose(t, from + 1)
  }

  /** The leftmost match at or after `from`, as the start of `<title>` and the start
      of the `</title>` that ends it. */
  function FindTitle(t: string, from: nat): (r: Option<(nat, nat)>)
    requires from <= |t|
    ensures r.Some? ==> from <= r.value.0 && TitleMatch(t, r.value.0, r.value.1)
    ensures r.Some? ==> forall i :: from <= i < r.value.0 ==> !OpensMatch(t, i)
    ensures r.Some? ==> forall j :: r.value.0 + 7 <= j < r.value.1 ==> !OccursAt(t, CloseTitle, j)
    ensures r.None? ==> forall i :: from <= i ==> !OpensMatch(t, i)
    decreases |t| - from
  {
    if from + 7 > |t| then None
    else if OccursAt(t, OpenTitle, from) && FindClose(t, from + 7).Some? then
      Some((from, FindClose(t, from + 7).value))
    else FindTitle(t, from + 1)
  }

  /** The substitution `String.prototype.replace` makes for a replacement string:
      `$$`, `$&`, `` $` `` and `$'` stand for a dollar sign, the matched text, the
      text before it and the text after it; any other `$` is kept (the pattern has
      no groups, so `$1` and `$<` stay literal). */
  function Expand(rep: string, matched: string, before: string, after: string): string {
    if |rep| >= 2 && rep[0] == '$' && rep[1] == '$' then "$" + Expand(rep[2..], matched, before, after)
    else if |rep| >= 2 && rep[0] == '$' && rep[1] == '&' then matched + Expand(rep[2..], matched, before, after)
    else if |rep| >= 2 && rep[0] == '$' && rep[1] == '`' then before + Expand(rep[2..], matched, before, after)
    else if |rep| >= 2 && rep[0] == '$' && rep[1] == '\'' then after + Expand(rep[2..], matched, before, after)
    else if rep == [] then []
    else [rep[0]] + Expand(rep[1..], matched, before, after)
  }

  /** A replacement without a dollar sign is inserted literally. */
  lemma {:induction false} ExpandLiteral(rep: string, matched: string, before: string, after: string)
    requires '$' !in rep
    ensures Expand(rep, matched, before, after) == rep
  {
    if rep != [] {
      ExpandLiteral(rep[1..], matched, before, after);
      assert [rep[0]] + rep[1..] == rep;
    }
  }

  /** The four patterns: a doubled dollar sign is one dollar sign, and the others
      copy the match, the text before it and the text after it. */
  lemma ExpandPatterns(matched: string, before: string, after: string)
    ensures Expand("$$", matched, before, after) == "$"
    ensures Expand("$&", matched, before, after) == matched
    ensures Expand("$`", matched, before, after) == before
    ensures Expand("$'", matched, before, after) == after
    ensures Expand("$1", matched, before, after) == "$1"
  {
    assert "$$"[2..] == [] && "$&"[2..] == [] && "$`"[2..] == [] && "$'"[2..] == [];
    assert "$1"[1..] == "1" && "1"[1..] == [];
    assert Expand("1", matched, before, after) == "1";
  }

  /** The template with its first one-line title element replaced; later ones are kept. */
  function ReplaceTitle(template: string, rep: string): string {
    match FindTitle(template, 0)
    case None => template
    case Some((i, j)) =>
      template[..i] + Expand(rep, template[i..j + 8], template[..i], template[j + 8..]) + template[j + 8..]
  }

  /** A template the expression does not match is written unchanged. */
  lemma ReplaceTitleNoMatch(template: string, rep: string)
    requires forall i, j :: !TitleMatch(template, i, j)
    ensures ReplaceTitle(template, rep) == template
  {
  }

  /** For any replacement, the page keeps everything before the leftmost one-line
      `<title>…</title>` and everything after it, and puts the expansion of the
      replacement for that match in between. */
  lemma ReplaceTitleKeepsOutside(template: string, rep: string, k: nat)
    requires OpensMatch(template, k)
    ensures exists i, j ::
      (LeftmostMatch(template, i, j)
       && ReplaceTitle(template, rep)
          == template[..i] + Expand(rep, template[i..j + 8], template[..i], template[j + 8..]) + template[j + 8..])
  {
    var r := FindTitle(template, 0);
    assert r.Some?;
    var i, j := r.value.0, r.value.1;
    assert LeftmostMatch(template, i, j);
  }

  /** With a dollar-free replacement, the page is the template with its leftmost
      one-line `<title>…</title>` cut out and the replacement put in its place;
      everything before and after is kept. */
  lemma ReplaceTitleSplice(template: string, rep: string, k: nat)
    requires '$' !in rep
    requires OpensMatch(template, k)
    ensures exists i, j ::
      (LeftmostMatch(template, i, j)
       && ReplaceTitle(template, rep) == template[..i] + rep + template[j + 8..])
  {
    var r := FindTitle(template, 0);
    assert r.Some?;
    var i, j := r.value.0, r.value.1;
    ExpandLiteral(rep, template[i..j + 8], template[..i], template[j + 8..]);
    assert LeftmostMatch(template, i, j);
  }

  /** The pieces of a path between its slashes, empty pieces included. */
  function Split(path: string): (r: seq<string>)
    ensures |r| >= 1
  {
    if path == [] then [""]
    else if path[0] == '/' then [""] + Split(path[1..])
    else
      var rest := Split(path[1..]);
      [[path[0]] + rest[0]] + rest[1..]
  }

  /** How `path.join` takes one segment on top of the folders reached so far: an
      empty segment and `.` change nothing, and `..` leaves the last folder, or
      climbs above the start when there is none left to leave. */
  function Step(folders: seq<string>, segment: string): seq<string> {
    if segment == "" || segment == "." then folders
    else if segment == ".." then
      if folders != [] && folders[|folders| - 1] != ".." then folders[..|folders| - 1]
      else folders + [".."]
    else folders + [segment]
  }

  /** The clean-up of a whole list of segments, read left to right. */
  function Normalize(folders: seq<string>, segments: seq<string>): seq<string>
    decreases |segments|
  {
    if segments == [] then folders
    else Normalize(Step(folders, segments[0]), segments[1..])
  }

  /** The output file of a slug, relative to the project: the slug's folder is
      joined onto `dist`, then `index.html` onto that folder. Cleaning up once at the
      end is the same as cleaning up after each join (`NormalizeAppend`). */
  function OutputPath(slug: string): string {
    Join(Normalize([], ["dist"] + Split(slug) + ["index.html"]), "/")
  }

  const TemplatePath := "dist/index.html"

  /** Cleaning up a list in two parts is cleaning up the second part from where the
      first one ends. */
  lemma {:induction false} NormalizeAppend(folders: seq<string>, first: seq<string>, second: seq<string>)
    ensures Normalize(folders, first + second) == Normalize(Normalize(folders, first), second)
    decreases |first|
  {
    if first == [] {
      assert first + second == second;
    } else {
      assert (first + second)[0] == first[0];
      assert (first + second)[1..] == first[1..] + second;
      NormalizeAppend(Step(folders, first[0]), first[1..], second);
    }
  }

  /** An empty segment anywhere is dropped. */
  lemma NormalizeDropsEmpty(folders: seq<string>, before: seq<string>, after: seq<string>)
    ensures Normalize(folders, before + [""] + after) == Normalize(folders, before + after)
  {
    NormalizeAppend(folders, before, [""] + after);
    NormalizeAppend(folders, before, after);
    assert ([""] + after)[1..] == after;
    assert before + [""] + after == before + ([""] + after);
  }

  /** A path without a slash is one segment. */
  lemma {:induction false} SplitPlain(path: string)
    requires '/' !in path
    ensures Split(path) == [path]
  {
    if path != [] {
      SplitPlain(path[1..]);
      assert [path[0]] + path[1..] == path;
    }
  }

  /** A slash after a first segment without slashes splits the path there. */
  lemma {:induction false} SplitAppend(first: string, rest: string)
    requires '/' !in first
    ensures Split(first + "/" + rest) == [first] + Split(rest)
  {
    var path := first + "/" + rest;
    if first == [] {
      assert path[0] == '/' && path[1..] == rest;
    } else {
      assert path[0] == first[0];
      assert path[1..] == first[1..] + "/" + rest;
      SplitAppend(first[1..], rest);
      assert [first[0]] + first[1..] == first;
    }
  }

  /** Cleaning up starts with the first segment. */
  lemma NormalizeCons(folders: seq<string>, segment: string, rest: seq<string>)
    ensures Normalize(folders, [segment] + rest) == Normalize(Step(folders, segment), rest)
  {
    assert ([segment] + rest)[1..] == rest;
  }

  /** A slug that is one path segment gets `dist/<slug>/index.html`. */
  lemma OutputPathOfSegment(slug: string)
    requires IsPathSegment(slug)
    ensures OutputPath(slug) == "dist/" + slug + "/index.html"
  {
    assert slug != "" && slug != "." && slug != ".." by {
      assert slug[0] != '.';
    }
    assert Step(["dist"], slug) == ["dist", slug];
    OutputPathThrough(slug, ["dist", slug]);
    JoinThree("dist", slug, "index.html", "/");
    assert ["dist", slug] + ["index.html"] == ["dist", slug, "index.html"];
  }

  /** Three parts joined by a separator. */
  lemma JoinThree(x: string, y: string, z: string, sep: string)
    ensures Join([x, y, z], sep) == x + sep + y + sep + z
  {
    var parts := [x, y, z];
    assert parts[1..] == [y, z] && parts[1..][1..] == [z];
    assert Join([z], sep) == z;
    assert Join([y, z], sep) == y + sep + z;
  }

  /** The file a slug names when cleaning up leaves only `folders` before `index.html`. */
  lemma OutputPathThrough(slug: string, folders: seq<string>)
    requires '/' !in slug
    requires Step(["dist"], slug) == folders
    ensures OutputPath(slug) == Join(folders + ["index.html"], "/")
  {
    SplitPlain(slug);
    assert ["dist"] + Split(slug) + ["index.html"] == ["dist"] + ([slug] + ["index.html"]);
    NormalizeCons([], "dist", [slug] + ["index.html"]);
    assert Step([], "dist") == ["dist"];
    NormalizeCons(["dist"], slug, ["index.html"]);
    NormalizeCons(folders, "index.html", []);
    assert Step(folders, "index.html") == folders + ["index.html"];
  }

  /** The template's own path, as its folder and file joined. */
  lemma TemplatePathJoined()
    ensures Join(["dist", "index.html"], "/") == TemplatePath
  {
    var parts := ["dist", "index.html"];
    assert parts[1..] == ["index.html"];
  }

  /** The clean-up at work: an empty slug names the template itself. */
  lemma OutputPathEmpty()
    ensures OutputPath("") == TemplatePath
  {
    assert Step(["dist"], "") == ["dist"];
    OutputPathThrough("", ["dist"]);
    assert ["dist"] + ["index.html"] == ["dist", "index.html"];
    TemplatePathJoined();
  }

  /** A slug `.` also names the template itself. */
  lemma OutputPathDot()
    ensures OutputPath(".") == TemplatePath
  {
    assert Step(["dist"], ".") == ["dist"];
    OutputPathThrough(".", ["dist"]);
    assert ["dist"] + ["index.html"] == ["dist", "index.html"];
    TemplatePathJoined();
  }

  /** A slug `..` climbs out of `dist` to `index.html` at the project's top. */
  lemma OutputPathDotDot()
    ensures OutputPath("..") == "index.html"
  {
    assert Step(["dist"], "..") == [];
    OutputPathThrough("..", []);
    assert [] + ["index.html"] == ["index.html"];
  }

  /** A trailing slash makes no difference to the file. */
  lemma OutputPathIgnoresTrailingSlash(a: string)
    requires '/' !in a
    ensures OutputPath(a + "/") == OutputPath(a)
  {
    SplitPlain(a);
    SplitAppend(a, "");
    assert a + "/" == a + "/" + "";
    assert ["dist"] + Split(a + "/") + ["index.html"] == ["dist", a] + [""] + ["index.html"];
    assert ["dist"] + Split(a) + ["index.html"] == ["dist", a] + ["index.html"];
    NormalizeDropsEmpty([], ["dist", a], ["index.html"]);
  }

  /** A doubled slash makes no difference to the file. */
  lemma OutputPathIgnoresDoubledSlash(a: string, b: string)
    requires '/' !in a
    ensures OutputPath(a + "//" + b) == OutputPath(a + "/" + b)
  {
    var rest := Split(b);
    SplitDoubled(a, b);
    SplitAppend(a, b);
    Regroup("dist", a, "", rest, "index.html");
    NormalizeDropsEmpty([], ["dist", a], rest + ["index.html"]);
  }

  /** The lists of pieces around a split path, regrouped. */
  lemma Regroup<T>(x: T, y: T, z: T, m: seq<T>, e: T)
    ensures [x] + ([y, z] + m) + [e] == [x, y] + [z] + (m + [e])
    ensures [x] + ([y] + m) + [e] == [x, y] + (m + [e])
  {
  }

  /** A doubled slash leaves an empty piece between its neighbours. */
  lemma SplitDoubled(a: string, b: string)
    requires '/' !in a
    ensures Split(a + "//" + b) == [a, ""] + Split(b)
  {
    SplitAppend([], b);
    assert [] + "/" + b == "/" + b;
    SplitAppend(a, "/" + b);
    assert a + "//" + b == a + "/" + ("/" + b);
  }

  /** Different path segments give different files, and none of them is the template. */
  lemma OutputPathInjective(a: string, b: string)
    requires IsPathSegment(a) && IsPathSegment(b)
    ensures OutputPath(a) != TemplatePath
    ensures OutputPath(a) == OutputPath(b) ==> a == b
  {
    OutputPathOfSegment(a);
    OutputPathOfSegment(b);
    if OutputPath(a) == OutputPath(b) {
      var n := |"dist/"|;
      assert |a| == |b|;
      assert a == OutputPath(a)[n..n + |a|];
      assert b == OutputPath(b)[n..n + |b|];
    }
  }

  /** The page written for a post. */
  function Page(template: string, p: Post): string {
    ReplaceTitle(template, MetaTags(p))
  }

  /** Whatever the block carries is written out in the page, provided the template
      has a title to replace and the block has no dollar sign. */
  lemma PageShows(template: string, p: Post, sel: Selector, x: string)
    requires '$' !in MetaTags(p)
    requires exists k :: OpensMatch(template, k)
    requires x in Values(MetaBlock(Prepare(p), p.tags), sel)
    ensures Contains(Page(template, p), RenderElement(Carrier(sel, x)))
  {
    var k :| OpensMatch(template, k);
    ReplaceTitleSplice(template, MetaTags(p), k);
    var i, j :|
      LeftmostMatch(template, i, j)
      && ReplaceTitle(template, MetaTags(p)) == template[..i] + MetaTags(p) + template[j + 8..];
    ValuesRendered(MetaBlock(Prepare(p), p.tags), sel, x);
    ContainsExtend(template[..i], MetaTags(p), template[j + 8..], RenderElement(Carrier(sel, x)));
  }

  /** What a run of the generator ends with. */
  datatype Outcome =
    | Aborted(exitCode: int)
    | Finished(disk: map<string, string>, reported: nat)

  /** The disk after writing the pages of `posts` in order; a later post with the
      same output path overwrites an earlier one. */
  function WriteAll(disk: map<string, string>, template: string, posts: seq<Post>): map<string, string> {
    if posts == [] then disk
    else
      var last := posts[|posts| - 1];
      WriteAll(disk, template, posts[..|posts| - 1])[OutputPath(last.slug) := Page(template, last)]
  }

  /** Writing one more post adds its page to what the earlier posts wrote. */
  lemma WriteAllStep(disk: map<string, string>, template: string, posts: seq<Post>, k: nat)
    requires k < |posts|
    ensures WriteAll(disk, template, posts[..k + 1])
      == WriteAll(disk, template, posts[..k])[OutputPath(posts[k].slug) := Page(template, posts[k])]
  {
    assert posts[..k + 1][..k] == posts[..k];
  }

  /** The script: filter out drafts, read the template (exit with status 1 if it is
      missing), then write one page per published post and report their number. */
  method Generate(disk: map<string, string>, posts: seq<Post>) returns (out: Outcome)
    ensures TemplatePath !in disk ==> out == Aborted(1)
    ensures TemplatePath in disk ==>
      out == Finished(WriteAll(disk, disk[TemplatePath], Published(posts)), |Published(posts)|)
  {
    var published := Published(posts);
    if TemplatePath !in disk {
      return Aborted(1);
    }
    var template := disk[TemplatePath];
    var files := disk;
    var k := 0;
    while k < |published|
      invariant 0 <= k <= |published|
      invariant files == WriteAll(disk, template, published[..k])
    {
      WriteAllStep(disk, template, published, k);
      files := files[OutputPath(published[k].slug) := Page(template, published[k])];
      k := k + 1;
    }
    assert published[..k] == published;
    return Finished(files, |published|);
  }

  /** A path no post writes keeps what the disk held. */
  lemma {:induction false} WriteAllElsewhere(disk: map<string, string>, template: string, posts: seq<Post>, path: string)
    requires forall k :: 0 <= k < |posts| ==> OutputPath(posts[k].slug) != path
    ensures path in WriteAll(disk, template, posts) <==> path in disk
    ensures path in disk ==> WriteAll(disk, template, posts)[path] == disk[path]
  {
    if posts != [] {
      WriteAllElsewhere(disk, template, posts[..|posts| - 1], path);
    }
  }

  /** A path holds the page of the last post written there. */
  lemma {:induction false} WriteAllLastWins(disk: map<string, string>, template: string, posts: seq<Post>, k: nat)
    requires k < |posts|
    requires forall l :: k < l < |posts| ==> OutputPath(posts[l].slug) != OutputPath(posts[k].slug)
    ensures OutputPath(posts[k].slug) in WriteAll(disk, template, posts)
    ensures WriteAll(disk, template, posts)[OutputPath(posts[k].slug)] == Page(template, posts[k])
  {
    var last, init := posts[|posts| - 1], posts[..|posts| - 1];
    assert WriteAll(disk, template, posts)
      == WriteAll(disk, template, init)[OutputPath(last.slug) := Page(template, last)];
    if k < |posts| - 1 {
      assert init[k] == posts[k];
      assert OutputPath(last.slug) != OutputPath(posts[k].slug);
      WriteAllLastWins(disk, template, init, k);
    }
  }

  /** The slugs of `posts` are distinct path segments. */
  ghost predicate SafeSlugs(posts: seq<Post>) {
    SlugsDistinct(posts) && forall k :: 0 <= k < |posts| ==> IsPathSegment(posts[k].slug)
  }

  /** On such a catalog every published post's page is written at its own path. */
  lemma GenerateWritesEachPublished(disk: map<string, string>, template: string, posts: seq<Post>, p: Post)
    requires SafeSlugs(posts)
    requires p in posts && !IsDraft(p)
    ensures OutputPath(p.slug) in WriteAll(disk, template, Published(posts))
    ensures WriteAll(disk, template, Published(posts))[OutputPath(p.slug)] == Page(template, p)
  {
    var pub := Published(posts);
    PublishedSlugsDistinct(posts);
    var k :| 0 <= k < |pub| && pub[k] == p;
    forall l | k < l < |pub| ensures OutputPath(pub[l].slug) != OutputPath(pub[k].slug) {
      assert pub[l] in pub;
      var i :| 0 <= i < |posts| && posts[i] == pub[l];
      var j :| 0 <= j < |posts| && posts[j] == pub[k];
      OutputPathInjective(pub[l].slug, pub[k].slug);
    }
    WriteAllLastWins(disk, template, pub, k);
  }

  /** On such a catalog nothing is written at a draft's path: a file already there
      keeps its content. */
  lemma GenerateSkipsDraft(disk: map<string, string>, template: string, posts: seq<Post>, p: Post)
    requires SafeSlugs(posts)
    requires p in posts && IsDraft(p)
    ensures OutputPath(p.slug) in WriteAll(disk, template, Published(posts)) <==> OutputPath(p.slug) in disk
    ensures OutputPath(p.slug) in disk ==>
      WriteAll(disk, template, Published(posts))[OutputPath(p.slug)] == disk[OutputPath(p.slug)]
  {
    var pub := Published(posts);
    forall l | 0 <= l < |pub| ensures OutputPath(pub[l].slug) != OutputPath(p.slug) {
      var q := pub[l];
      assert q in pub;
      var i :| 0 <= i < |posts| && posts[i] == p;
      var j :| 0 <= j < |posts| && posts[j] == q;
      assert i != j;
      OutputPathInjective(q.slug, p.slug);
    }
    WriteAllElsewhere(disk, template, pub, OutputPath(p.slug));
  }

  /** On such a catalog the template is never overwritten. */
  lemma GenerateKeepsTemplate(disk: map<string, string>, posts: seq<Post>)
    requires TemplatePath in disk
    requires SafeSlugs(posts)
    ensures TemplatePath in WriteAll(disk, disk[TemplatePath], Published(posts))
    ensures WriteAll(disk, disk[TemplatePath], Published(posts))[TemplatePath] == disk[TemplatePath]
  {
    var pub := Published(posts);
    forall l | 0 <= l < |pub| ensures OutputPath(pub[l].slug) != TemplatePath {
      assert pub[l] in pub;
      var j :| 0 <= j < |posts| && posts[j] == pub[l];
      OutputPathInjective(pub[l].slug, pub[l].slug);
    }
    WriteAllElsewhere(disk, disk[TemplatePath], pub, TemplatePath);
  }
}
