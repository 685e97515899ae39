/** The article-description lookup of the touch receipt and the Google
    link lookup, as pure selection functions over what the outside sources
    answered. Each outbound request is one `Fetch`: it raised (timeout,
    connection error, or a body the parser rejects), it came back with a
    non-OK status, or it came back OK with the content the code extracts. */
module Lookup {
  import opened Wrappers
  import opened Text

  datatype Fetch<T> = Raised | NotOk | Fetched(content: T)

  /** One product-description item of the autodoc search page: the text of
      its title element and of its value element, None where that element is
      missing (in the browser, where looking it up raises). */
  datatype DescriptionItem = DescriptionItem(title: Option<string>, value: Option<string>)

  /** What the headless browser saw on the autodoc search page: nothing, when
      starting it or loading the page raised; otherwise the product-description
      items, the product-name element and the product-link element (None
      where looking the element up raised). */
  datatype BrowserPage =
    | BrowserFailed
    | BrowserLoaded(items: seq<DescriptionItem>, name: Option<string>, link: Option<string>)

  /** The answers of every source the view may consult, in the order it
      consults them: the OpenFoodFacts JSON API (`product.product_name`, None
      when absent), the OpenFoodFacts product page (text of the `h2.title-1`
      heading, None when absent), the autodoc search page (its description
      items) and the headless browser on that same page. */
  datatype Sources = Sources(
    json: Fetch<Option<string>>,
    html: Fetch<Option<string>>,
    autodoc: Fetch<seq<DescriptionItem>>,
    browser: BrowserPage)

  const ArticleNumberLabel: string := "Artikelnummer"

  /** An item whose title and value are both present and whose title
      contains "Artikelnummer". */
  predicate IsArticleNumber(d: DescriptionItem) {
    d.title.Some? && d.value.Some? && Contains(d.title.value, ArticleNumberLabel)
  }

  /** The position of the first element satisfying `p`: what a loop over
      the elements that stops at its first hit (`break`) finds. */
  function FirstWhere<T>(xs: seq<T>, p: T -> bool): (r: Option<nat>)
    ensures r.None? <==> forall i | 0 <= i < |xs| :: !p(xs[i])
    ensures r.Some? ==> r.value < |xs| && p(xs[r.value]) && forall j | 0 <= j < r.value :: !p(xs[j])
  {
    if xs == [] then None
    else if p(xs[0]) then Some(0)
    else
      var rest := FirstWhere(xs[1..], p);
      assert forall i | 1 <= i < |xs| :: xs[i] == xs[1..][i - 1];
      if rest.Some? then Some(rest.value + 1) else None
  }

  /** The value of the first item that is an article number. */
  function FirstArticleNumber(items: seq<DescriptionItem>): (r: Option<string>)
    ensures r.None? <==> forall i | 0 <= i < |items| :: !IsArticleNumber(items[i])
    ensures r.Some? ==> exists i | 0 <= i < |items| :: (
      && IsArticleNumber(items[i]) && r.value == items[i].value.value
      && forall j | 0 <= j < i :: !IsArticleNumber(items[j]))
  {
    var i := FirstWhere(items, IsArticleNumber);
    if i.Some? then Some(items[i.value].value.value) else None
  }

  /** Stripped text that is not blank, or None. */
  function NonBlank(text: Option<string>): (r: Option<string>)
    ensures r.Some? <==> text.Some? && Strip(text.value) != []
    ensures r.Some? ==> r.value == Strip(text.value)
  {
    if text.Some? && Strip(text.value) != [] then Some(Strip(text.value)) else None
  }

  /** The browser fallback, which starts from the description found so far:
      the first article number among the items; otherwise the stripped,
      non-blank product name; only when looking up the name element raised,
      the stripped, non-blank product link. */
  function BrowserDescription(current: string, page: BrowserPage): (r: string)
    ensures page.BrowserFailed? ==> r == current
    ensures page.BrowserLoaded? && FirstArticleNumber(page.items).Some? ==>
              r == Strip(FirstArticleNumber(page.items).value)
    ensures page.BrowserLoaded? && FirstArticleNumber(page.items).None? && page.name.Some? ==>
              r == (if NonBlank(page.name).Some? then NonBlank(page.name).value else current)
    ensures page.BrowserLoaded? && FirstArticleNumber(page.items).None? && page.name.None? ==>
              r == (if NonBlank(page.link).Some? then NonBlank(page.link).value else current)
  {
    match page
    case BrowserFailed => current
    case BrowserLoaded(items, name, link) =>
      match FirstArticleNumber(items)
      case Some(v) => Strip(v)
      case None =>
        if name.Some? then (if NonBlank(name).Some? then NonBlank(name).value else current)
        else if NonBlank(link).Some? then NonBlank(link).value
        else current
  }

  /** The fallback chain the view runs when the JSON answer was OK but had no
      product name. The heading of the product page, if not blank, replaces
      the default; then the autodoc page is consulted regardless, and its
      first article number overrides everything; failing that, the browser
      is tried. A request that raises ends the chain with the description
      found so far. */
  function FallbackDescription(default: string, src: Sources): (r: string)
    // a raising product-page request ends the chain before anything is found
    ensures src.html.Raised? ==> r == default
    // the autodoc article number overrides the heading and the default
    ensures !src.html.Raised? && src.autodoc.Fetched? && FirstArticleNumber(src.autodoc.content).Some? ==>
              r == Strip(FirstArticleNumber(src.autodoc.content).value)
    // a raising autodoc request keeps the non-blank heading, else the default
    ensures !src.html.Raised? && src.autodoc.Raised? ==>
              r == (if src.html.Fetched? && NonBlank(src.html.content).Some? then NonBlank(src.html.content).value else default)
    // no article number on an answered autodoc page: the browser continues from there
    ensures !src.html.Raised? && (src.autodoc.NotOk? || (src.autodoc.Fetched? && FirstArticleNumber(src.autodoc.content).None?)) ==>
              r == BrowserDescription(
                     if src.html.Fetched? && NonBlank(src.html.content).Some? then NonBlank(src.html.content).value else default,
                     src.browser)
  {
    if src.html.Raised? then default
    else
      var afterHtml := if src.html.Fetched? && NonBlank(src.html.content).Some? then NonBlank(src.html.content).value else default;
      match src.autodoc
      case Raised => afterHtml
      case NotOk => BrowserDescription(afterHtml, src.browser)
      case Fetched(items) =>
        match FirstArticleNumber(items)
        case Some(v) => Strip(v)
        case None => BrowserDescription(afterHtml, src.browser)
  }

  /** The JSON product name, when the answer carries a non-empty one. */
  function JsonName(json: Fetch<Option<string>>): (r: Option<string>)
    ensures r.Some? <==> json.Fetched? && json.content.Some? && json.content.value != []
    ensures r.Some? ==> r.value == json.content.value
  {
    if json.Fetched? && json.content.Some? && json.content.value != [] then json.content else None
  }

  /** The description `touch_main` gives an unknown article number `n`: the
      non-empty JSON product name; `str(n)` when the JSON request raised or
      was not OK; otherwise the fallback chain starting from `str(n)`. */
  function ViewDescription(n: int, src: Sources): (r: string)
    ensures JsonName(src.json).Some? ==> r == JsonName(src.json).value
    ensures src.json.Raised? || src.json.NotOk? ==> r == IntToString(n)
    ensures src.json.Fetched? && JsonName(src.json).None? ==> r == FallbackDescription(IntToString(n), src)
  {
    if !src.json.Fetched? then IntToString(n)
    else if JsonName(src.json).Some? then JsonName(src.json).value
    else FallbackDescription(IntToString(n), src)
  }

  /** The description TouchGoodsReceiptAPIView gives an unknown article
      number: the non-empty JSON product name, else `str(n)`. The API has no
      fallback chain. */
  function ApiDescription(n: int, json: Fetch<Option<string>>): (r: string)
    ensures JsonName(json).Some? ==> r == JsonName(json).value
    ensures JsonName(json).None? ==> r == IntToString(n)
  {
    if JsonName(json).Some? then JsonName(json).value else IntToString(n)
  }

  /** When no source yields anything the description stays `str(n)`. */
  lemma NothingFoundKeepsDefault(n: int, src: Sources)
    requires JsonName(src.json).None?
    requires !(src.html.Fetched? && NonBlank(src.html.content).Some?)
    requires src.autodoc.Fetched? ==> FirstArticleNumber(src.autodoc.content).None?
    requires src.browser.BrowserLoaded? ==> BrowserFindsNothing(src.browser)
    ensures ViewDescription(n, src) == IntToString(n)
  {
    var d := IntToString(n);
    if src.json.Fetched? && !src.html.Raised? {
      BrowserKeepsCurrent(d, src.browser);
      assert FallbackDescription(d, src) == d;
    }
  }

  /** A loaded page without article number, name or link. */
  predicate BrowserFindsNothing(page: BrowserPage)
    requires page.BrowserLoaded?
  {
    && FirstArticleNumber(page.items).None?
    && NonBlank(page.name).None?
    && (page.name.None? ==> NonBlank(page.link).None?)
  }

  lemma BrowserKeepsCurrent(current: string, page: BrowserPage)
    requires page.BrowserLoaded? ==> BrowserFindsNothing(page)
    ensures BrowserDescription(current, page) == current
  {
  }

  /** The fallbacks run only when the JSON answer was OK without a product
      name; in every other case the view and the API agree. */
  lemma ViewAgreesWithApi(n: int, src: Sources)
    requires !(src.json.Fetched? && JsonName(src.json).None?)
    ensures ViewDescription(n, src) == ApiDescription(n, src.json)
  {
  }

  /** An autodoc article number overrides a heading found on the product
      page, and the browser is then not consulted. */
  lemma AutodocOverridesHeading(n: int, src: Sources, items: seq<DescriptionItem>, v: string)
    requires src.json.Fetched? && JsonName(src.json).None?
    requires src.html.Fetched? && NonBlank(src.html.content).Some?
    requires src.autodoc == Fetched(items) && FirstArticleNumber(items) == Some(v)
    ensures ViewDescription(n, src) == Strip(v)
  {
    assert FallbackDescription(IntToString(n), src) == Strip(v);
  }

  /** The browser is consulted only when the autodoc page gave no article
      number: with an article number, any browser outcome gives the same
      description. */
  lemma BrowserOnlyWithoutArticleNumber(n: int, src: Sources, other: BrowserPage)
    requires src.autodoc.Fetched? && FirstArticleNumber(src.autodoc.content).Some?
    ensures ViewDescription(n, src) == ViewDescription(n, src.(browser := other))
  {
  }

  /** A heading on the product page is kept when the autodoc request fails,
      even though the request comes after it. */
  lemma HeadingSurvivesAutodocFailure(n: int, src: Sources)
    requires src.json.Fetched? && JsonName(src.json).None?
    requires src.html.Fetched? && NonBlank(src.html.content).Some?
    requires src.autodoc.Raised?
    ensures ViewDescription(n, src) == NonBlank(src.html.content).value
  {
  }

  /** The autodoc value is stripped but not checked for blankness, so the
      description can come out empty. */
  lemma BlankArticleNumberGivesEmptyDescription(n: int)
    ensures var src := Sources(Fetched(None), NotOk,
                               Fetched([DescriptionItem(Some("Artikelnummer:"), Some("  "))]), BrowserFailed);
            ViewDescription(n, src) == []
  {
    var items := [DescriptionItem(Some("Artikelnummer:"), Some("  "))];
    assert OccursAt("Artikelnummer:", ArticleNumberLabel, 0);
    assert IsArticleNumber(items[0]);
    assert AllSpace("  ");
  }

  /** An anchor of the Google result page that has an `href`. */
  datatype Anchor = Anchor(href: string, text: string)

  predicate IsAutodocLink(a: Anchor) {
    Contains(a.href, "autodoc.de") && Strip(a.text) != []
  }

  /** The stripped text of the first anchor linking to autodoc.de whose text
      is not blank. */
  function FirstAutodocLink(anchors: seq<Anchor>): (r: Option<string>)
    ensures r.None? <==> forall i | 0 <= i < |anchors| :: !IsAutodocLink(anchors[i])
    ensures r.Some? ==> exists i | 0 <= i < |anchors| :: (
      && IsAutodocLink(anchors[i]) && r.value == Strip(anchors[i].text)
      && forall j | 0 <= j < i :: !IsAutodocLink(anchors[j]))
  {
    var i := FirstWhere(anchors, IsAutodocLink);
    if i.Some? then Some(Strip(anchors[i.value].text)) else None
  }

  /** `google_item_info_api` and GoogleItemInfoAPIView: the first autodoc
      link text of the result page, or the SKU itself when the request
      raised, was not OK, or found no such link. */
  function GoogleName(sku: string, page: Fetch<seq<Anchor>>): (r: string)
    ensures !page.Fetched? ==> r == sku
    ensures page.Fetched? ==> r == (if FirstAutodocLink(page.content).Some? then FirstAutodocLink(page.content).value else sku)
    ensures r == sku || r != []
  {
    if page.Fetched? && FirstAutodocLink(page.content).Some? then FirstAutodocLink(page.content).value else sku
  }

  /** The first anchor that is an autodoc link gives the name. */
  lemma FirstLinkAt(anchors: seq<Anchor>, i: nat)
    requires i < |anchors| && IsAutodocLink(anchors[i])
    requires forall j | 0 <= j < i :: !IsAutodocLink(anchors[j])
    ensures FirstAutodocLink(anchors) == Some(Strip(anchors[i].text))
  {
    var r := FirstAutodocLink(anchors);
    var w :| 0 <= w < |anchors| && IsAutodocLink(anchors[w]) && r.value == Strip(anchors[w].text)
             && forall j | 0 <= j < w :: !IsAutodocLink(anchors[j]);
    assert w == i;
  }

  /** A first autodoc anchor with blank text is passed over for the next one. */
  lemma BlankLinkSkipped(sku: string, blank: Anchor, next: Anchor)
    requires AllSpace(blank.text) && IsAutodocLink(next)
    ensures GoogleName(sku, Fetched([blank, next])) == Strip(next.text)
  {
    var anchors := [blank, next];
    assert Strip(blank.text) == [];
    assert !IsAutodocLink(anchors[0]);
    FirstLinkAt(anchors, 1);
    assert FirstAutodocLink(anchors) == Some(Strip(next.text));
  }
}
