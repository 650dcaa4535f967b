/** `BootsPageScraper` of src/_scraper.py: the listing scan, the extraction of
    one product, the cleanup of the checkpoint directory and the resumable
    pass over the products, retried as a whole, as pure functions.

    The checkpoint directory is a map from checkpoint names to the dict each
    file holds, or `None` once it has been removed. A pass is specified by the
    pure function `Pass`; the methods of the class, in module BootsScraper,
    are proved to do what it says. */
module Scraper {
  import opened Outcomes
  import opened Decorator
  import opened Products
  import opened Fields
  import opened Pages
  import opened Bags

  // ---------------------------------------------------------------------
  // Checkpoints.

  /** The name of a checkpoint file: the checkpoint name of a product name,
      or the `n`-th random id. A random id holds `-`, which no checkpoint name
      holds, so the two kinds never meet. */
  datatype Key = Named(name: string) | Uuid(n: nat)

  /** `if product.name: ... else: uuid.uuid4()`, with the random ids drawn
      from a counter. A checkpoint name is never empty and holds word
      characters only, so never the `-` of a random id. */
  function KeyOf(name: Option<string>, nextUuid: nat): (k: Key)
    ensures k.Uuid? <==> name.None? || name.value == []
    ensures k.Named? ==> k == Named(CheckpointName(name.value))
    ensures k.Uuid? ==> k == Uuid(nextUuid)
    ensures k.Named? ==> k.name != [] && AllWord(k.name) && '-' !in k.name
  {
    if name.Some? && name.value != [] then
      CheckpointNameShape(name.value);
      assert !IsWordChar('-');
      Named(CheckpointName(name.value))
    else Uuid(nextUuid)
  }

  /** The checkpoint directory: each file's name and the dict it holds. */
  type Store = map<Key, Dict>

  /** `failed_products`: the error text of a failed product, by its name. */
  type Ledger = map<Option<string>, string>

  const FileNotFound := Error("FileNotFoundError", "[Errno 2] No such file or directory")
  const NoProductCount := Error("AttributeError", "'BootsPageScraper' object has no attribute '_n_products'")
  const MissingPrice := Error("KeyError", "'Price'")
  const NotNumeric := Error("ValueError", "Unable to parse string")
  const ScrapingKind := "ScrapingException"

  function DecimalDigits(n: nat): string
  {
    var d := [(n % 10 + 48) as char];
    if n < 10 then d else DecimalDigits(n / 10) + d
  }

  /** The aggregate failure of a pass with `n` failed products. */
  function ScrapingFailed(n: nat): Error
  {
    Error(ScrapingKind, "Scrapping process failed for " + DecimalDigits(n) + " products.")
  }

  /** `parse_products`' own policy: only its aggregate failure is retried,
      and only once, after one second. */
  const PassRetry := Policy(Kinds({ScrapingKind}), 2, 1, 5, 1)

  /** Everything the scraper's methods change: the checkpoint directory, the
      product count of the last scan, the output file, the failure logs
      written, how many random ids and product pages have been used. */
  datatype Scraper = Scraper(
    tmp: Option<Store>,
    nProducts: Option<nat>,
    output: Option<multiset<Dict>>,
    logs: seq<Ledger>,
    nextUuid: nat,
    pagesOpened: nat)

  /** No random id from `nextUuid` on names a checkpoint of `tmp`. */
  predicate FreshIds(tmp: Option<Store>, nextUuid: nat)
  {
    tmp.Some? ==> forall k :: k in tmp.value && k.Uuid? ==> k.n < nextUuid
  }

  /** No random id to be drawn names a checkpoint already. */
  predicate Fresh(s: Scraper)
  {
    FreshIds(s.tmp, s.nextUuid)
  }

  // ---------------------------------------------------------------------
  // `do_cleanup`.

  /** Whether `do_cleanup` removes the directory: forced, or at least as many
      files as products were found. */
  predicate CleanupRemoves(files: nat, force: bool, nProducts: nat)
  {
    force || files >= nProducts
  }

  /** `do_cleanup(force)`: listing a removed directory raises
      `FileNotFoundError`; an unforced cleanup before any scan raises
      `AttributeError`; otherwise the directory is removed or left alone as
      `CleanupRemoves` says. */
  function Cleanup(s: Scraper, force: bool): (Attempt<()>, Scraper)
  {
    if s.tmp.None? then (Err(FileNotFound), s)
    else if force then (Ok(()), s.(tmp := None))
    else if s.nProducts.None? then (Err(NoProductCount), s)
    else if CleanupRemoves(|s.tmp.value|, force, s.nProducts.value) then (Ok(()), s.(tmp := None))
    else (Ok(()), s)
  }

  /** Cleanup changes nothing but the directory, and removes it exactly when
      it exists and the guard holds; an unforced cleanup with fewer files than
      products leaves every checkpoint in place. */
  lemma CleanupContract(s: Scraper, force: bool)
    ensures var (r, s') := Cleanup(s, force);
      && s'.(tmp := s.tmp) == s
      && (r.Ok? && s'.tmp.None? <==>
            s.tmp.Some? && (force || (s.nProducts.Some? && CleanupRemoves(|s.tmp.value|, force, s.nProducts.value))))
      && (r.Ok? && s'.tmp.Some? ==> s'.tmp == s.tmp)
      && (r.Err? <==> s.tmp.None? || (!force && s.nProducts.None?))
      && (s.tmp.None? ==> r == Err(FileNotFound) && s' == s)
      && (s.tmp.Some? && !force && s.nProducts.None? ==> r == Err(NoProductCount) && s' == s)
  {
  }

  // ---------------------------------------------------------------------
  // One pass over the products.

  /** What happened to one product: it was skipped because its checkpoint
      exists, or its extraction failed with `error`, or it succeeded with
      `record`; `product` is the product as extraction left it. */
  datatype Fate =
    | Skipped(key: Key)
    | Failed(key: Key, product: Product, error: Error)
    | Stored(key: Key, product: Product, record: Dict)

  /** The loop's state: the directory, the ledger, the counters, the products
      and, for the proofs, the fates so far. */
  datatype LoopState = LoopState(
    tmp: Option<Store>,
    ledger: Ledger,
    nextUuid: nat,
    pagesOpened: nat,
    products: seq<Product>,
    fates: seq<Fate>)

  /** After a step the loop goes on, or an exception escapes it. */
  datatype Flow = Next(state: LoopState) | Escape(error: Error, state: LoopState)

  /** The fate of product `i` in state `ls`. */
  function Visit(web: Web, ls: LoopState, i: nat): Fate
    requires i < |ls.products|
  {
    var p := ls.products[i];
    var key := KeyOf(p.name, ls.nextUuid);
    if ls.tmp.Some? && key in ls.tmp.value then Skipped(key)
    else
      var (q, r) := Extract(p, web(ls.pagesOpened, p.href));
      if r.Err? then Failed(key, q, r.error) else Stored(key, q, r.value)
  }

  /** The effect of a fate: a random id used up; on an extraction the page
      counted and the product updated; a failure recorded under the product's
      (new) name; a record written to its checkpoint, where writing into a
      removed directory raises `FileNotFoundError`. */
  function Apply(ls: LoopState, i: nat, f: Fate): (r: Flow)
    requires i < |ls.products|
    ensures |r.state.products| == |ls.products| && r.state.fates == ls.fates + [f]
  {
    var ls1 := ls.(nextUuid := if f.key.Uuid? then ls.nextUuid + 1 else ls.nextUuid, fates := ls.fates + [f]);
    match f
    case Skipped(_) => Next(ls1)
    case Failed(_, q, e) =>
      Next(ls1.(products := ls.products[i := q], pagesOpened := ls.pagesOpened + 1, ledger := ls.ledger[q.name := ErrorText(e)]))
    case Stored(k, q, d) =>
      var ls2 := ls1.(products := ls.products[i := q], pagesOpened := ls.pagesOpened + 1);
      if ls.tmp.None? then Escape(FileNotFound, ls2) else Next(ls2.(tmp := Some(ls.tmp.value[k := d])))
  }

  /** The loop after its first `i` products, started in `ls0`. */
  function LoopUpTo(web: Web, ls0: LoopState, i: nat): (r: Flow)
    requires i <= |ls0.products|
    ensures |r.state.products| == |ls0.products|
    ensures r.Next? ==> |r.state.fates| == |ls0.fates| + i
  {
    if i == 0 then Next(ls0)
    else match LoopUpTo(web, ls0, i - 1)
      case Escape(e, ls) => Escape(e, ls)
      case Next(ls) => Apply(ls, i - 1, Visit(web, ls, i - 1))
  }

  /** Once an exception escapes, the loop stays stopped. */
  lemma {:induction false} EscapeSticks(web: Web, ls0: LoopState, i: nat, j: nat)
    requires i <= j <= |ls0.products|
    requires LoopUpTo(web, ls0, i).Escape?
    ensures LoopUpTo(web, ls0, j) == LoopUpTo(web, ls0, i)
    decreases j - i
  {
    if i < j {
      EscapeSticks(web, ls0, i, j - 1);
    }
  }

  /** The arguments of `parse_products` that matter, and the browser. The
      output path and file name are left out; `numeric` says whether
      `pandas.to_numeric` accepts a price. */
  datatype PassArgs = PassArgs(web: Web, numeric: Value -> bool, autoRemove: bool, forceRemove: bool)

  /** The object and the product list, which a pass changes together. */
  datatype World = World(scraper: Scraper, products: seq<Product>)

  function Start(w: World): LoopState
  {
    LoopState(w.scraper.tmp, map[], w.scraper.nextUuid, w.scraper.pagesOpened, w.products, [])
  }

  function Settle(w: World, ls: LoopState): World
  {
    World(w.scraper.(tmp := ls.tmp, nextUuid := ls.nextUuid, pagesOpened := ls.pagesOpened), ls.products)
  }

  /** A price that makes `to_numeric` fail, or a record without a price; the
      comprehension raises `KeyError` on the first record without one before
      `to_numeric` sees any. */
  function PriceCheck(numeric: Value -> bool, parsed: multiset<Dict>): Attempt<()>
  {
    if exists d :: d in parsed && "Price" !in d then Err(MissingPrice)
    else if exists d :: d in parsed && "Price" in d && !numeric(d["Price"]) then Err(NotNumeric)
    else Ok(())
  }

  /** After the loop: read every checkpoint back, compute the price summary,
      write the output, then either write the ledger, clean up when forced and
      raise the aggregate failure, or clean up when asked. */
  ghost function Finish(a: PassArgs, s: Scraper, ledger: Ledger): (Attempt<()>, Scraper)
  {
    if s.tmp.None? then (Err(FileNotFound), s)
    else
      var parsed := Bag(s.tmp.value);
      var check := PriceCheck(a.numeric, parsed);
      if check.Err? then (check, s)
      else Report(a, s.(output := Some(parsed)), ledger)
  }

  /** After the output is written: write the ledger, clean up when forced and
      raise the aggregate failure, or clean up when asked. */
  function Report(a: PassArgs, s: Scraper, ledger: Ledger): (Attempt<()>, Scraper)
  {
    if ledger != map[] then
      var s1 := s.(logs := s.logs + [ledger]);
      if a.forceRemove then
        var (c, s2) := Cleanup(s1, true);
        (if c.Err? then c else Err(ScrapingFailed(|ledger|)), s2)
      else (Err(ScrapingFailed(|ledger|)), s1)
    else if a.autoRemove then Cleanup(s, false)
    else (Ok(()), s)
  }

  /** One call of the undecorated `parse_products`. */
  ghost function Pass(a: PassArgs, w: World): (Attempt<()>, World)
  {
    match LoopUpTo(a.web, Start(w), |w.products|)
    case Escape(e, ls) => (Err(e), Settle(w, ls))
    case Next(ls) =>
      var w1 := Settle(w, ls);
      var (r, s) := Finish(a, w1.scraper, ls.ledger);
      (r, w1.(scraper := s))
  }

  /** A pass as an operation for the retry decorator. */
  ghost function PassOp(a: PassArgs): World -> (Attempt<()>, World)
  {
    w => Pass(a, w)
  }

  // ---------------------------------------------------------------------
  // The scanning operation given to the retry decorator.

  /** The `k`-th call of `_find_product_elements`, which counts its calls. */
  function LocateOp(locate: nat -> Attempt<seq<Element>>): nat -> (Attempt<seq<Element>>, nat)
  {
    k => (locate(k), k + 1)
  }
}
