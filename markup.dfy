/** Head markup: the `<title>`, `<meta>` and `<link>` elements the site emits, the
    indented block of lines the page generator writes into each page, and the
    extraction of the value a given kind of element carries. */
module Markup {
  import opened Strings

  /** The attribute that names a `<meta>` element. */
  datatype Attr = Name | Property | HttpEquiv

  datatype Element =
    | Comment(text: string)
    | TitleTag(text: string)
    | Meta(attr: Attr, key: string, content: string)
    | CanonicalLink(href: string)

  function AttrText(a: Attr): string {
    match a
    case Name => "name"
    case Property => "property"
    case HttpEquiv => "http-equiv"
  }

  /** The HTML text of one element, written the way the generator's template writes it. */
  function RenderElement(e: Element): string {
    match e
    case Comment(text) => "<!-- " + text + " -->"
    case TitleTag(text) => "<title>" + text + "</title>"
    case Meta(attr, key, content) =>
      "<meta " + AttrText(attr) + "=\"" + key + "\" content=\"" + content + "\" />"
    case CanonicalLink(href) => "<link rel=\"canonical\" href=\"" + href + "\" />"
  }

  function RenderAll(es: seq<Element>): (r: seq<string>)
    ensures |r| == |es|
    ensures forall k :: 0 <= k < |es| ==> r[k] == RenderElement(es[k])
  {
    if es == [] then [] else [RenderElement(es[0])] + RenderAll(es[1..])
  }

  /** A line of a head block: empty, indented by four spaces and holding one
      element, or holding a row of elements that breaks and re-indents between them. */
  datatype Line = Blank | Single(element: Element) | Row(elements: seq<Element>)

  /** A head block, line by line. */
  datatype Block = End | Line(line: Line, rest: Block)

  function RenderLine(l: Line): string {
    match l
    case Blank => ""
    case Single(e) => "    " + RenderElement(e)
    case Row(es) => "    " + Join(RenderAll(es), "\n    ")
  }

  /** Every line is preceded by a newline, so the block starts on a fresh line. */
  function Render(b: Block): string {
    match b
    case End => ""
    case Line(l, rest) => "\n" + RenderLine(l) + Render(rest)
  }

  /** What to read off a block: the content of the `<meta>` elements with a given
      attribute and key, the text of `<title>`, or the canonical link. */
  datatype Selector = MetaKey(attr: Attr, key: string) | TitleText | CanonicalHref

  /** The element that carries value `v` for selector `sel`. */
  function Carrier(sel: Selector, v: string): Element {
    match sel
    case MetaKey(attr, key) => Meta(attr, key, v)
    case TitleText => TitleTag(v)
    case CanonicalHref => CanonicalLink(v)
  }

  function Pick(e: Element, sel: Selector): seq<string> {
    match e
    case Meta(attr, key, content) => if sel == MetaKey(attr, key) then [content] else []
    case TitleTag(text) => if sel == TitleText then [text] else []
    case CanonicalLink(href) => if sel == CanonicalHref then [href] else []
    case Comment(_) => []
  }

  /** An element yields a value exactly when it is the element carrying it. */
  lemma PickCarrier(e: Element, sel: Selector, v: string)
    ensures v in Pick(e, sel) <==> e == Carrier(sel, v)
  {
  }

  /** The values selected from a row of elements, in document order. */
  function RowValues(es: seq<Element>, sel: Selector): seq<string> {
    if es == [] then [] else Pick(es[0], sel) + RowValues(es[1..], sel)
  }

  function LineValues(l: Line, sel: Selector): seq<string> {
    match l
    case Blank => []
    case Single(e) => Pick(e, sel)
    case Row(es) => RowValues(es, sel)
  }

  /** The values selected from a block, in document order. */
  function Values(b: Block, sel: Selector): seq<string> {
    match b
    case End => []
    case Line(l, rest) => LineValues(l, sel) + Values(rest, sel)
  }

  /** Block `a` followed by block `b`. */
  function Then(a: Block, b: Block): Block {
    match a
    case End => b
    case Line(l, rest) => Line(l, Then(rest, b))
  }

  /** The values of two blocks in a row are those of the first, then those of the second. */
  lemma {:induction false} ValuesThen(a: Block, b: Block, sel: Selector)
    ensures Values(Then(a, b), sel) == Values(a, sel) + Values(b, sel)
  {
    match a
    case End =>
      assert Values(a, sel) + Values(b, sel) == Values(b, sel);
    case Line(l, rest) =>
      ValuesThen(rest, b, sel);
      assert LineValues(l, sel) + (Values(rest, sel) + Values(b, sel))
        == (LineValues(l, sel) + Values(rest, sel)) + Values(b, sel);
  }

  /** How many values a block holds for a selector. */
  function Count(b: Block, sel: Selector): (n: nat)
    ensures n == |Values(b, sel)|
  {
    match b
    case End => 0
    case Line(l, rest) => |LineValues(l, sel)| + Count(rest, sel)
  }

  /** One step of `Count`, for every line at once (blocks are long literals). */
  lemma CountLine(sel: Selector)
    ensures forall l, rest :: Count(Line(l, rest), sel) == |LineValues(l, sel)| + Count(rest, sel)
  {
  }

  /** The block holds line `l`. */
  predicate HasLine(b: Block, l: Line) {
    b.Line? && (b.line == l || HasLine(b.rest, l))
  }

  /** One step of `HasLine`, for every line at once. */
  lemma HasLineStep(l: Line)
    ensures forall m, rest :: HasLine(Line(m, rest), l) == (m == l || HasLine(rest, l))
  {
  }

  /** A line of a block contributes to the block's count. */
  lemma {:induction false} CountCoversLine(b: Block, sel: Selector, l: Line)
    requires HasLine(b, l)
    ensures |LineValues(l, sel)| <= Count(b, sel)
  {
    if b.line != l {
      CountCoversLine(b.rest, sel, l);
    }
  }

  /** When one line of a block holds all of its values for a selector, they are
      the block's values. */
  lemma {:induction false} ValuesFromOneLine(b: Block, sel: Selector, l: Line)
    requires HasLine(b, l)
    requires |LineValues(l, sel)| == Count(b, sel)
    ensures Values(b, sel) == LineValues(l, sel)
  {
    if b.line == l {
      assert Count(b.rest, sel) == 0;
    } else {
      CountCoversLine(b.rest, sel, l);
      ValuesFromOneLine(b.rest, sel, l);
    }
  }

  /** A block with a single value for a selector, on a line of its own. */
  lemma ValuesSingle(b: Block, sel: Selector, v: string)
    requires HasLine(b, Single(Carrier(sel, v)))
    requires Count(b, sel) == 1
    ensures Values(b, sel) == [v]
  {
    ValuesFromOneLine(b, sel, Single(Carrier(sel, v)));
  }

  /** A row of meta elements built one per value, in order. */
  function MetaRow(attr: Attr, key: string, vs: seq<string>): (es: seq<Element>)
    ensures |es| == |vs|
    ensures forall k :: 0 <= k < |vs| ==> es[k] == Meta(attr, key, vs[k])
  {
    if vs == [] then [] else [Meta(attr, key, vs[0])] + MetaRow(attr, key, vs[1..])
  }

  /** Such a row selects its values, in order, and nothing else. */
  lemma {:induction false} MetaRowValues(attr: Attr, key: string, vs: seq<string>, sel: Selector)
    ensures RowValues(MetaRow(attr, key, vs), sel) == (if sel == MetaKey(attr, key) then vs else [])
  {
    if vs != [] {
      var es := MetaRow(attr, key, vs);
      assert es[1..] == MetaRow(attr, key, vs[1..]);
      MetaRowValues(attr, key, vs[1..], sel);
    }
  }

  /** Every element of a row appears verbatim in the row's text. */
  lemma RowContains(es: seq<Element>, k: nat)
    requires k < |es|
    ensures Contains(RenderLine(Row(es)), RenderElement(es[k]))
  {
    JoinContainsPart(RenderAll(es), "\n    ", k);
    ContainsExtend("    ", Join(RenderAll(es), "\n    "), "", RenderElement(es[k]));
    assert "    " + Join(RenderAll(es), "\n    ") + "" == RenderLine(Row(es));
  }

  lemma {:induction false} RowValuesCarried(es: seq<Element>, sel: Selector, v: string)
    requires v in RowValues(es, sel)
    ensures exists k :: 0 <= k < |es| && es[k] == Carrier(sel, v)
  {
    PickCarrier(es[0], sel, v);
    if v !in Pick(es[0], sel) {
      RowValuesCarried(es[1..], sel, v);
      var k :| 0 <= k < |es[1..]| && es[1..][k] == Carrier(sel, v);
      assert es[k + 1] == Carrier(sel, v);
    }
  }

  /** Whatever a line carries for a selector is written out in its text. */
  lemma LineValuesRendered(l: Line, sel: Selector, v: string)
    requires v in LineValues(l, sel)
    ensures Contains(RenderLine(l), RenderElement(Carrier(sel, v)))
  {
    match l
    case Single(e) =>
      PickCarrier(e, sel, v);
      ContainsMiddle("    ", RenderElement(e), "");
      assert "    " + RenderElement(e) + "" == RenderLine(l);
    case Row(es) =>
      RowValuesCarried(es, sel, v);
      var k :| 0 <= k < |es| && es[k] == Carrier(sel, v);
      RowContains(es, k);
  }

  /** Whatever the block carries for a selector is written out in its text,
      inside the element that carries it. */
  lemma {:induction false} ValuesRendered(b: Block, sel: Selector, v: string)
    requires v in Values(b, sel)
    ensures Contains(Render(b), RenderElement(Carrier(sel, v)))
  {
    var t := RenderElement(Carrier(sel, v));
    match b
    case Line(l, rest) =>
      if v in LineValues(l, sel) {
        LineValuesRendered(l, sel, v);
        ContainsExtend("\n", RenderLine(l), Render(rest), t);
      } else {
        ValuesRendered(rest, sel, v);
        ContainsExtend("\n" + RenderLine(l), Render(rest), "", t);
        assert "\n" + RenderLine(l) + Render(rest) + "" == Render(b);
      }
  }

  /** No text the element carries holds `c`. */
  predicate ElementAvoids(e: Element, c: char) {
    match e
    case Comment(text) => c !in text
    case TitleTag(text) => c !in text
    case Meta(_, key, content) => c !in key && c !in content
    case CanonicalLink(href) => c !in href
  }

  predicate LineAvoids(l: Line, c: char) {
    match l
    case Blank => true
    case Single(e) => ElementAvoids(e, c)
    case Row(es) => forall k :: 0 <= k < |es| ==> ElementAvoids(es[k], c)
  }

  predicate BlockAvoids(b: Block, c: char) {
    b.End? || (LineAvoids(b.line, c) && BlockAvoids(b.rest, c))
  }

  /** A row of meta elements avoids `c` when its key and values do. */
  lemma MetaRowAvoids(attr: Attr, key: string, vs: seq<string>, c: char)
    requires c !in key
    requires forall k :: 0 <= k < |vs| ==> c !in vs[k]
    ensures LineAvoids(Row(MetaRow(attr, key, vs)), c)
  {
  }

  /** One step of `BlockAvoids`, for every line at once. */
  lemma BlockAvoidsStep(c: char)
    ensures forall l, rest :: BlockAvoids(Line(l, rest), c) == (LineAvoids(l, c) && BlockAvoids(rest, c))
  {
  }

  /** The markup around the values holds no dollar sign, so a block whose values
      hold none renders without one. */
  lemma ElementDollarFree(e: Element)
    requires ElementAvoids(e, '$')
    ensures '$' !in RenderElement(e)
  {
    match e
    case Comment(text) =>
      assert '$' !in "<!-- " && '$' !in " -->";
    case TitleTag(text) =>
      assert '$' !in "<title>" && '$' !in "</title>";
    case Meta(attr, key, content) =>
      assert '$' !in AttrText(attr);
      assert '$' !in "<meta " && '$' !in "=\"" && '$' !in "\" content=\"" && '$' !in "\" />";
    case CanonicalLink(href) =>
      assert '$' !in "<link rel=\"canonical\" href=\"" && '$' !in "\" />";
  }

  lemma {:induction false} RowDollarFree(es: seq<Element>)
    requires forall k :: 0 <= k < |es| ==> ElementAvoids(es[k], '$')
    ensures '$' !in Join(RenderAll(es), "\n    ")
  {
    forall k | 0 <= k < |es| ensures '$' !in RenderAll(es)[k] {
      ElementDollarFree(es[k]);
    }
    JoinAvoids(RenderAll(es), "\n    ", '$');
  }

  lemma {:induction false} BlockDollarFree(b: Block)
    requires BlockAvoids(b, '$')
    ensures '$' !in Render(b)
  {
    if b.Line? {
      match b.line {
        case Blank =>
        case Single(e) => ElementDollarFree(e);
        case Row(es) => RowDollarFree(es);
      }
      BlockDollarFree(b.rest);
    }
  }
}
