/** The `Product` record of src/_product.py and its dict view. */
module Products {
  import opened Outcomes

  /** The rating a product page shows, or the `NaN` the scraper stores when
      the page shows none. */
  datatype Rating = Unrated | Rated(text: string)

  /** A JSON value of the dict view: `null`, a string, an integer or `NaN`. */
  datatype Value = Null | Str(s: string) | Num(n: nat) | NaN

  /** A product's dict view, and what a checkpoint file holds. */
  type Dict = map<string, Value>

  /** The dataclass: `href` is the only constructor argument without a default;
      every other field defaults to `None`. The listing puts a string or `None`
      in `href`, and `price` holds the price as a string. */
  datatype Product = Product(
    href: Option<string>,
    name: Option<string>,
    price: Option<string>,
    priceUnit: Option<string>,
    description: Option<string>,
    rating: Option<Rating>,
    pageSize: Option<nat>)

  /** `Product(href = href)`. */
  function FromHref(href: Option<string>): Product
  {
    Product(href, None, None, None, None, None, None)
  }

  /** The keys of the dict view. */
  const DictKeys: set<string> := {"Title", "Price", "Price_Unit", "Short_Desc", "Rating", "Page_Size_KB"}

  function StrValue(o: Option<string>): Value
  {
    match o
    case None => Null
    case Some(s) => Str(s)
  }

  function RatingValue(o: Option<Rating>): Value
  {
    match o
    case None => Null
    case Some(Unrated) => NaN
    case Some(Rated(t)) => Str(t)
  }

  function SizeValue(o: Option<nat>): Value
  {
    match o
    case None => Null
    case Some(n) => Num(n)
  }

  /** `as_dict`: every field but `href`, under its own key. */
  function AsDict(p: Product): (d: Dict)
    ensures d.Keys == DictKeys
  {
    map["Title" := StrValue(p.name),
        "Price" := StrValue(p.price),
        "Price_Unit" := StrValue(p.priceUnit),
        "Short_Desc" := StrValue(p.description),
        "Rating" := RatingValue(p.rating),
        "Page_Size_KB" := SizeValue(p.pageSize)]
  }

  // ---------------------------------------------------------------------
  // Reading a dict view back, the inverse of AsDict.

  function StrField(v: Value): Option<Option<string>>
  {
    match v
    case Null => Some(None)
    case Str(s) => Some(Some(s))
    case _ => None
  }

  function RatingField(v: Value): Option<Option<Rating>>
  {
    match v
    case Null => Some(None)
    case NaN => Some(Some(Unrated))
    case Str(t) => Some(Some(Rated(t)))
    case _ => None
  }

  function SizeField(v: Value): Option<Option<nat>>
  {
    match v
    case Null => Some(None)
    case Num(n) => Some(Some(n))
    case _ => None
  }

  /** The product a dict view describes, given the `href` it does not hold;
      `None` when a key is missing or holds a value of the wrong kind. */
  function FromDict(d: Dict, href: Option<string>): Option<Product>
  {
    if !(DictKeys <= d.Keys) then None
    else
      var name, price, unit, desc := StrField(d["Title"]), StrField(d["Price"]), StrField(d["Price_Unit"]), StrField(d["Short_Desc"]);
      var rating, size := RatingField(d["Rating"]), SizeField(d["Page_Size_KB"]);
      if name.None? || price.None? || unit.None? || desc.None? || rating.None? || size.None? then None
      else Some(Product(href, name.value, price.value, unit.value, desc.value, rating.value, size.value))
  }

  /** The dict view loses nothing but `href`: reading it back with the
      product's `href` gives the product again. */
  lemma DictRoundTrip(p: Product)
    ensures FromDict(AsDict(p), p.href) == Some(p)
  {
    var d := AsDict(p);
    assert d["Title"] == StrValue(p.name) && d["Price"] == StrValue(p.price);
    assert d["Price_Unit"] == StrValue(p.priceUnit) && d["Short_Desc"] == StrValue(p.description);
    assert d["Rating"] == RatingValue(p.rating) && d["Page_Size_KB"] == SizeValue(p.pageSize);
    match p.rating
    case None =>
    case Some(r) => match r { case Unrated => case Rated(_) => }
  }

  /** Two products have the same dict view exactly when they agree on every
      field but `href`. */
  lemma AsDictIgnoresOnlyHref(p: Product, q: Product)
    ensures AsDict(p) == AsDict(q) <==> p.(href := q.href) == q
  {
    if AsDict(p) == AsDict(q) {
      DictRoundTrip(p);
      DictRoundTrip(q);
      assert FromDict(AsDict(p), q.href) == Some(p.(href := q.href));
    }
  }

  /** A product built from its `href` alone has a dict view of six `null`s. */
  lemma BareProductIsAllNull(href: Option<string>)
    ensures AsDict(FromHref(href)) == map k | k in DictKeys :: Null
  {
  }
}
