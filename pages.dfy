/** What the scraper reads from the browser, in src/_scraper.py: the product
    links of the listing page (`find_products`) and the fields of a product
    page (`_parse_product`). Every browser call is an outcome given in
    advance: a value, or the exception the call raises. */
module Pages {
  import opened Outcomes
  import opened Decorator
  import opened Products
  import opened Fields

  const NoSuchElement := "NoSuchElementException"
  const Timeout := "TimeoutException"

  /** `RETRY`: the policy of the browser lookups, which retries a missing
      element or a timed-out wait three times with the delay doubling from 1,
      capped at 5. */
  const BrowserRetry := Policy(Kinds({NoSuchElement, Timeout}), 3, 1, 5, 2)

  /** The retried sleeps of the browser lookups: 2, 4, then 5 from the third
      on; a lookup that keeps failing sleeps 2, 4 and 5 before it re-raises. */
  lemma BrowserSleeps()
    ensures SleepTime(BrowserRetry, 1) == 2 && SleepTime(BrowserRetry, 2) == 4
    ensures forall n :: n >= 3 ==> SleepTime(BrowserRetry, n) == 5
  {
    assert Pow(2, 2) == 4;
    forall n | n >= 3
      ensures SleepTime(BrowserRetry, n) == 5
    {
      PowMonotone(2, 3, n);
      assert Pow(2, 3) == 8;
    }
  }

  // ---------------------------------------------------------------------
  // The listing page.

  /** A product link of the listing: what reading its text and its `href`
      attribute gives. */
  datatype Element = Element(text: Attempt<string>, href: Attempt<Option<string>>)

  /** The product one link becomes: a text that cannot be read gives the name
      `''`, whatever the exception; an `href` that raises
      `NoSuchElementException` gives `None`; any other exception from `href`
      escapes. */
  function Listed(e: Element): (r: Attempt<Product>)
    ensures r.Ok? <==> e.href.Ok? || e.href.error.kind == NoSuchElement
    ensures r.Err? ==> e.href == Err(r.error)
    ensures r.Ok? ==> r.value.href == (if e.href.Ok? then e.href.value else None)
  {
    var name := if e.text.Ok? then e.text.value else "";
    match e.href
    case Ok(h) => Ok(Product(h, Some(name), None, None, None, None, None))
    case Err(x) =>
      if x.kind == NoSuchElement then Ok(Product(None, Some(name), None, None, None, None, None))
      else Err(x)
  }

  /** The products of the links, in their order, or the first exception that
      escapes. */
  function Listing(es: seq<Element>): Attempt<seq<Product>>
  {
    if es == [] then Ok([])
    else match Listing(es[..|es| - 1])
      case Err(x) => Err(x)
      case Ok(ps) =>
        match Listed(es[|es| - 1])
        case Err(x) => Err(x)
        case Ok(p) => Ok(ps + [p])
  }

  /** The listing succeeds exactly when no link's `href` raises anything but
      `NoSuchElementException`; then it has one product per link, in link
      order, named from the link's text and pointing at its `href`. Otherwise
      it raises the exception of the first such link. */
  lemma {:induction false} ListingContract(es: seq<Element>)
    ensures Listing(es).Ok? <==> forall i :: 0 <= i < |es| ==> Listed(es[i]).Ok?
    ensures Listing(es).Ok? <==>
      forall i :: 0 <= i < |es| ==> es[i].href.Ok? || es[i].href.error.kind == NoSuchElement
    ensures Listing(es).Ok? ==>
      && |Listing(es).value| == |es|
      && forall i :: 0 <= i < |es| ==> Listing(es).value[i] == Listed(es[i]).value
    ensures Listing(es).Err? ==>
      exists i :: 0 <= i < |es| && Listed(es[i]) == Err(Listing(es).error)
        && forall j :: 0 <= j < i ==> Listed(es[j]).Ok?
  {
    if es != [] {
      var front := es[..|es| - 1];
      ListingContract(front);
      assert forall i :: 0 <= i < |front| ==> front[i] == es[i];
      if Listing(front).Err? {
        var i :| 0 <= i < |front| && Listed(front[i]) == Err(Listing(front).error)
          && forall j :: 0 <= j < i ==> Listed(front[j]).Ok?;
        assert Listed(es[i]) == Err(Listing(es).error);
      }
    }
  }

  /** The first exception that escapes stops the listing: no later link is read. */
  lemma {:induction false} ListingStops(es: seq<Element>, j: nat)
    requires j <= |es| && Listing(es[..j]).Err?
    ensures Listing(es) == Listing(es[..j])
    decreases |es| - j
  {
    if j < |es| {
      assert es[..j + 1][..j] == es[..j];
      ListingStops(es, j + 1);
    } else {
      assert es[..j] == es;
    }
  }

  /** Each listed product has a name, never `None`, and nothing else but its
      `href` set; the name is the link's text when that can be read. */
  lemma ListedShape(e: Element)
    requires Listed(e).Ok?
    ensures var p := Listed(e).value;
      && p.name == Some(if e.text.Ok? then e.text.value else "")
      && p.href == (if e.href.Ok? then e.href.value else None)
      && p.(href := None, name := None) == FromHref(None)
  {
  }

  // ---------------------------------------------------------------------
  // A product page.

  /** What the browser gives on a product page: the error of navigating to it
      (`None` when it loads), the text of the rating element (or the exception
      of waiting for it), of the title, of the description block and of the
      price, and the size of the page source in KB (or the exception of
      reading the source). */
  datatype Page = Page(
    loadError: Option<Error>,
    rating: Attempt<string>,
    title: Attempt<string>,
    text: Attempt<string>,
    price: Attempt<string>,
    sizeKB: Attempt<nat>)

  /** The browser: the page it shows for an `href` when the scraper has
      already opened `n` pages, so that a page may differ from one pass
      to the next. */
  type Web = (nat, Option<string>) -> Page

  const MissingDescription := "Missing product description."

  /** The description a page gives: the first line of the block, the
      sentinel when there is no block, or the exception of reading it. A
      description is always a single line; a block that can be read gives a
      prefix of its text; a missing block is never an error, and any other
      exception is the one reading the block raised. */
  function DescriptionOf(text: Attempt<string>): (r: Attempt<string>)
    ensures text.Ok? ==> r == Ok(FirstLine(text.value))
    ensures text.Err? && text.error.kind == NoSuchElement ==> r == Ok(MissingDescription)
    ensures r.Ok? ==> '\n' !in r.value
    ensures text.Ok? ==> r.Ok? && r.value <= text.value
    ensures r.Err? <==> text.Err? && text.error.kind != NoSuchElement
    ensures r.Err? ==> text == Err(r.error)
  {
    match text
    case Ok(t) => Ok(FirstLine(t))
    case Err(x) => if x.kind == NoSuchElement then Ok(MissingDescription) else Err(x)
  }

  /** The rating a page gives: its text, `Unrated` when waiting for it times
      out, or the exception of waiting. Read backwards: `Unrated` means the
      wait timed out, a rating text means the element was read with that
      text, and an exception is the wait's own, never a time-out. */
  function RatingOf(rating: Attempt<string>): (r: Attempt<Rating>)
    ensures r == Ok(Unrated) <==> rating.Err? && rating.error.kind == Timeout
    ensures r.Ok? && r.value.Rated? ==> rating == Ok(r.value.text)
    ensures r.Err? ==> rating == Err(r.error) && r.error.kind != Timeout
  {
    match rating
    case Ok(t) => Ok(Rated(t))
    case Err(x) => if x.kind == Timeout then Ok(Unrated) else Err(x)
  }

  /** `_parse_product`: the product as the page leaves it, and the dict view
      it returns or the exception it raises. The fields are set in the
      source's order (rating, name, description, price unit and price, page
      size), each as soon as it is read, so a failing step leaves the fields
      set before it in place. */
  function Extract(p: Product, page: Page): (Product, Attempt<Dict>)
  {
    if page.loadError.Some? then (p, Err(page.loadError.value))
    else match RatingOf(page.rating)
    case Err(x) => (p, Err(x))
    case Ok(rating) =>
      var p1 := p.(rating := Some(rating));
      match page.title
      case Err(x) => (p1, Err(x))
      case Ok(title) =>
        var p2 := p1.(name := Some(title));
        match DescriptionOf(page.text)
        case Err(x) => (p2, Err(x))
        case Ok(desc) =>
          var p3 := p2.(description := Some(desc));
          match page.price
          case Err(x) => (p3, Err(x))
          case Ok(priceStr) =>
            match SplitPrice(priceStr)
            case Err(x) => (p3, Err(x))
            case Ok(split) =>
              var p4 := p3.(priceUnit := Some(split.0), price := Some(split.1));
              match page.sizeKB
              case Err(x) => (p4, Err(x))
              case Ok(size) =>
                var p5 := p4.(pageSize := Some(size));
                (p5, Ok(AsDict(p5)))
  }

  /** Every lookup of the page succeeds, with a missing rating and a missing
      description allowed, the price string is not empty and the page source
      can be read. */
  predicate Extractable(page: Page)
  {
    && page.loadError.None?
    && RatingOf(page.rating).Ok?
    && page.title.Ok?
    && DescriptionOf(page.text).Ok?
    && page.price.Ok?
    && page.price.value != []
    && page.sizeKB.Ok?
  }

  /** Extraction succeeds exactly on an extractable page, and then the product
      holds what the page shows: the page title as its name, the rating (or
      `Unrated`), the first description line (or the sentinel), the split
      price, the page size, and its `href` unchanged; the result is its dict
      view, in which `Title` is the new name and no value is `null`. */
  lemma ExtractSucceeds(p: Product, page: Page)
    ensures Extract(p, page).1.Ok? <==> Extractable(page)
    ensures Extractable(page) ==>
      var (q, d) := Extract(p, page);
      && q.href == p.href
      && q.name == Some(page.title.value)
      && q.rating == Some(RatingOf(page.rating).value)
      && q.description == Some(DescriptionOf(page.text).value)
      && (q.priceUnit.value, q.price.value) == SplitPrice(page.price.value).value
      && q.pageSize == Some(page.sizeKB.value)
      && d == Ok(AsDict(q))
      && d.value["Title"] == Str(page.title.value)
      && Null !in d.value.Values
  {
    if Extractable(page) {
      ExtractOnExtractable(p, page);
      var q := Extract(p, page).0;
      assert AsDict(q)["Title"] == Str(page.title.value);
      assert forall k :: k in AsDict(q) ==> AsDict(q)[k] != Null;
    } else {
      ExtractOnOther(p, page);
    }
  }

  /** On an extractable page every step succeeds and sets its fields. */
  lemma ExtractOnExtractable(p: Product, page: Page)
    requires Extractable(page)
    ensures var split := SplitPrice(page.price.value).value;
      var q := p.(rating := Some(RatingOf(page.rating).value), name := Some(page.title.value),
                  description := Some(DescriptionOf(page.text).value),
                  priceUnit := Some(split.0), price := Some(split.1), pageSize := Some(page.sizeKB.value));
      SplitPrice(page.price.value).Ok? && Extract(p, page) == (q, Ok(AsDict(q)))
  {
    SplitPriceShape(page.price.value);
  }

  /** On any other page some step fails. */
  lemma ExtractOnOther(p: Product, page: Page)
    requires !Extractable(page)
    ensures Extract(p, page).1.Err?
  {
    SplitPriceShape(if page.price.Ok? then page.price.value else []);
  }

  /** The page title overwrites the name as soon as it is read, even when a
      later step fails; a failure before it leaves the name as it was. */
  lemma TitleOverwritesName(p: Product, page: Page)
    ensures var q := Extract(p, page).0;
      q.name == (if page.loadError.None? && RatingOf(page.rating).Ok? && page.title.Ok?
                 then Some(page.title.value) else p.name)
  {
  }

  /** A failed extraction raises the exception of the first step that failed,
      and only an exception of a browser call or the `IndexError` of an
      empty price string. */
  lemma ExtractFailure(p: Product, page: Page)
    requires Extract(p, page).1.Err?
    ensures var e := Extract(p, page).1.error;
      || (page.loadError.Some? && e == page.loadError.value)
      || (page.loadError.None? && page.rating.Err? && page.rating.error.kind != Timeout && e == page.rating.error)
      || (page.loadError.None? && RatingOf(page.rating).Ok? && page.title.Err? && e == page.title.error)
      || (page.loadError.None? && RatingOf(page.rating).Ok? && page.title.Ok? && DescriptionOf(page.text).Err?
          && e == page.text.error)
      || (page.loadError.None? && RatingOf(page.rating).Ok? && page.title.Ok? && DescriptionOf(page.text).Ok?
          && page.price.Err? && e == page.price.error)
      || (page.loadError.None? && RatingOf(page.rating).Ok? && page.title.Ok? && DescriptionOf(page.text).Ok?
          && page.price == Ok([]) && e == IndexOutOfRange)
      || (page.loadError.None? && RatingOf(page.rating).Ok? && page.title.Ok? && DescriptionOf(page.text).Ok?
          && page.price.Ok? && page.price.value != [] && page.sizeKB.Err? && e == page.sizeKB.error)
  {
    SplitPriceShape(if page.price.Ok? then page.price.value else []);
  }

  /** Extraction never touches the `href`. */
  lemma ExtractKeepsHref(p: Product, page: Page)
    ensures Extract(p, page).0.href == p.href
  {
  }
}
