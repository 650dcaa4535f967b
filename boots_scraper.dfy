/** The class `BootsPageScraper` of src/_scraper.py: the object whose fields
    the scraper updates in place. Each method is proved to do what a pure
    function of module Scraper says, and the mutating ones keep random ids
    fresh through the facts of module Resume. */
module BootsScraper {
  import opened Outcomes
  import opened Decorator
  import opened Products
  import opened Fields
  import opened Pages
  import opened Bags
  import opened Scraper
  import Resume

  class BootsPageScraper {
    var tmp: Option<Store>
    var nProducts: Option<nat>
    var output: Option<multiset<Dict>>
    var logs: seq<Ledger>
    var nextUuid: nat
    var pagesOpened: nat

    function Snapshot(): Scraper
      reads this
    {
      Scraper(tmp, nProducts, output, logs, nextUuid, pagesOpened)
    }

    /** No random id still to be drawn names a checkpoint already. */
    predicate Valid()
      reads this
    {
      Fresh(Snapshot())
    }

    /** The constructor, after the browser has opened the listing and the
        checkpoint directory has been created if missing: `existing` is what
        earlier runs left in it, and `uuidSeed` exceeds every random id they
        used. */
    constructor(existing: Store, uuidSeed: nat)
      requires forall k :: k in existing && k.Uuid? ==> k.n < uuidSeed
      ensures Valid()
      ensures Snapshot() == Scraper(Some(existing), None, None, [], uuidSeed, 0)
    {
      tmp := Some(existing);
      nProducts := None;
      output := None;
      logs := [];
      nextUuid := uuidSeed;
      pagesOpened := 0;
    }

    /** `find_products`: locate the links under `RETRY`, record their count,
        and make one product of each. */
    method FindProducts(locate: nat -> Attempt<seq<Element>>) returns (r: Attempt<seq<Product>>)
      requires Valid()
      modifies this
      ensures Valid()
      ensures var e := RetrySpec(BrowserRetry, LocateOp(locate), 0);
        && (e.result.Err? ==> r == Err(e.result.error) && Snapshot() == old(Snapshot()))
        && (e.result.Ok? ==>
              && r == Listing(e.result.value)
              && Snapshot() == old(Snapshot()).(nProducts := Some(|e.result.value|)))
    {
      var found, attempts, calls, sleeps := Retry(BrowserRetry, LocateOp(locate), 0);
      if found.Err? {
        return Err(found.error);
      }
      var elements := found.value;
      nProducts := Some(|elements|);
      var products: seq<Product> := [];
      var i := 0;
      while i < |elements|
        invariant 0 <= i <= |elements|
        invariant Listing(elements[..i]) == Ok(products)
      {
        assert elements[..i + 1][..i] == elements[..i];
        var e := elements[i];
        var name: string;
        if e.text.Ok? {
          name := e.text.value;
        } else {
          name := "";
        }
        var href: Option<string>;
        match e.href {
          case Ok(h) => href := h;
          case Err(x) =>
            if x.kind != NoSuchElement {
              ListingStops(elements, i + 1);
              assert elements[..i + 1][i] == e;
              return Err(x);
            }
            href := None;
        }
        products := products + [Product(href, Some(name), None, None, None, None, None)];
        i := i + 1;
      }
      assert elements[..i] == elements;
      return Ok(products);
    }

    /** `_parse_product` on `products[i]`: open its page, then set its fields
        one after another as `Extract` says, stopping at the first failure. */
    method ParseProduct(products: array<Product>, i: nat, web: Web) returns (r: Attempt<Dict>)
      requires i < products.Length
      modifies this, products
      ensures old(Valid()) ==> Valid()
      ensures var (q, res) := Extract(old(products[i]), web(old(pagesOpened), old(products[i]).href));
        products[..] == old(products[..])[i := q] && r == res
      ensures Snapshot() == old(Snapshot()).(pagesOpened := old(pagesOpened) + 1)
    {
      var page := web(pagesOpened, products[i].href);
      pagesOpened := pagesOpened + 1;
      if page.loadError.Some? {
        return Err(page.loadError.value);
      }
      var rating := RatingOf(page.rating);
      if rating.Err? {
        return Err(rating.error);
      }
      products[i] := products[i].(rating := Some(rating.value));
      if page.title.Err? {
        return Err(page.title.error);
      }
      products[i] := products[i].(name := Some(page.title.value));
      var desc := DescriptionOf(page.text);
      if desc.Err? {
        return Err(desc.error);
      }
      products[i] := products[i].(description := Some(desc.value));
      if page.price.Err? {
        return Err(page.price.error);
      }
      var split := SplitPrice(page.price.value);
      if split.Err? {
        return Err(split.error);
      }
      products[i] := products[i].(priceUnit := Some(split.value.0), price := Some(split.value.1));
      if page.sizeKB.Err? {
        return Err(page.sizeKB.error);
      }
      products[i] := products[i].(pageSize := Some(page.sizeKB.value));
      r := Ok(AsDict(products[i]));
    }

    /** `do_cleanup(force)`. */
    method DoCleanup(force: bool) returns (r: Attempt<()>)
      modifies this
      ensures old(Valid()) ==> Valid()
      ensures (r, Snapshot()) == Cleanup(old(Snapshot()), force)
    {
      if tmp.None? {
        return Err(FileNotFound);
      }
      var files := |tmp.value|;
      if force {
        tmp := None;
        return Ok(());
      }
      if nProducts.None? {
        return Err(NoProductCount);
      }
      if CleanupRemoves(files, force, nProducts.value) {
        tmp := None;
      }
      r := Ok(());
    }

    /** One turn of the loop of `parse_products`: derive the product's key,
        skip it when its checkpoint exists, otherwise extract it and record
        the failure or write the checkpoint. */
    method VisitProduct(products: array<Product>, i: nat, web: Web, ledger: Ledger, ghost fates: seq<Fate>)
      returns (ledger': Ledger, escaped: bool)
      requires i < products.Length
      modifies this, products
      ensures var ls := LoopState(old(tmp), ledger, old(nextUuid), old(pagesOpened), old(products[..]), fates);
        var flow := Apply(ls, i, Visit(web, ls, i));
        && flow.state == LoopState(tmp, ledger', nextUuid, pagesOpened, products[..], fates + [Visit(web, ls, i)])
        && escaped == flow.Escape?
      ensures Snapshot().(tmp := old(tmp), nextUuid := old(nextUuid), pagesOpened := old(pagesOpened)) == old(Snapshot())
    {
      ghost var ls := LoopState(tmp, ledger, nextUuid, pagesOpened, products[..], fates);
      var p := products[i];
      var key: Key;
      if p.name.Some? && p.name.value != [] {
        key := Named(CheckpointName(p.name.value));
      } else {
        key := Uuid(nextUuid);
        nextUuid := nextUuid + 1;
      }
      assert key == KeyOf(p.name, ls.nextUuid);
      ledger', escaped := ledger, false;
      if tmp.Some? && key in tmp.value {
        return;
      }
      ledger', escaped := ExtractAndRecord(products, i, web, ledger, key);
    }

    /** The part of a turn after the skip test: extract the product, then
        record the failure under its (new) name, or write its record under
        `key`, which raises when the directory has been removed. */
    method ExtractAndRecord(products: array<Product>, i: nat, web: Web, ledger: Ledger, key: Key)
      returns (ledger': Ledger, escaped: bool)
      requires i < products.Length
      requires tmp.None? || key !in tmp.value
      modifies this, products
      ensures var (q, res) := Extract(old(products[i]), web(old(pagesOpened), old(products[i]).href));
        && products[..] == old(products[..])[i := q]
        && pagesOpened == old(pagesOpened) + 1
        && ledger' == (if res.Err? then ledger[q.name := ErrorText(res.error)] else ledger)
        && escaped == (res.Ok? && old(tmp).None?)
        && tmp == (if res.Ok? && old(tmp).Some? then Some(old(tmp).value[key := res.value]) else old(tmp))
      ensures Snapshot().(tmp := old(tmp), pagesOpened := old(pagesOpened)) == old(Snapshot())
    {
      var d := ParseProduct(products, i, web);
      ledger', escaped := ledger, false;
      match d {
        case Err(e) =>
          ledger' := ledger[products[i].name := ErrorText(e)];
        case Ok(record) =>
          if tmp.None? {
            escaped := true;
          } else {
            tmp := Some(tmp.value[key := record]);
          }
      }
    }

    /** Read back every checkpoint file, in whatever order the directory
        lists them. */
    method ReadBack() returns (parsed: multiset<Dict>)
      requires tmp.Some?
      ensures parsed == Bag(tmp.value)
    {
      var rest := tmp.value;
      parsed := multiset{};
      while rest != map[]
        invariant parsed + Bag(rest) == Bag(tmp.value)
        decreases |rest|
      {
        var k :| k in rest;
        BagRemove(rest, k);
        RemoveSmaller(rest, k);
        parsed := parsed + multiset{rest[k]};
        rest := rest - {k};
      }
    }

    /** The loop of `parse_products` over the products, in their order,
        stopping when writing a record raises. */
    method ScanProducts(products: array<Product>, web: Web) returns (ledger: Ledger, escaped: bool, ghost fates: seq<Fate>)
      modifies this, products
      ensures var st := LoopState(tmp, ledger, nextUuid, pagesOpened, products[..], fates);
        LoopUpTo(web, Start(old(World(Snapshot(), products[..]))), products.Length)
          == (if escaped then Escape(FileNotFound, st) else Next(st))
      ensures Snapshot().(tmp := old(tmp), nextUuid := old(nextUuid), pagesOpened := old(pagesOpened)) == old(Snapshot())
    {
      ghost var ls0 := Start(World(Snapshot(), products[..]));
      fates := [];
      ledger, escaped := map[], false;
      var i := 0;
      while i < products.Length
        invariant 0 <= i <= products.Length
        invariant LoopUpTo(web, ls0, i) == Next(LoopState(tmp, ledger, nextUuid, pagesOpened, products[..], fates))
        invariant Snapshot().(tmp := old(tmp), nextUuid := old(nextUuid), pagesOpened := old(pagesOpened)) == old(Snapshot())
      {
        ghost var ls := LoopState(tmp, ledger, nextUuid, pagesOpened, products[..], fates);
        ledger, escaped := VisitProduct(products, i, web, ledger, fates);
        assert LoopUpTo(web, ls0, i + 1) == Apply(ls, i, Visit(web, ls, i));
        fates := fates + [Visit(web, ls, i)];
        if escaped {
          EscapeSticks(web, ls0, i + 1, products.Length);
          return;
        }
        i := i + 1;
      }
    }

    /** The body of `parse_products`, without its decorator. */
    method ParseProductsOnce(products: array<Product>, a: PassArgs) returns (r: Attempt<()>)
      requires Valid()
      modifies this, products
      ensures Valid()
      ensures (r, World(Snapshot(), products[..])) == Pass(a, old(World(Snapshot(), products[..])))
    {
      ghost var w0 := World(Snapshot(), products[..]);
      Resume.PassKeepsFresh(a, w0);
      var ledger, escaped, fates := ScanProducts(products, a.web);
      if escaped {
        return Err(FileNotFound);
      }
      r := Conclude(a, ledger);
    }

    /** What `parse_products` does after its loop. */
    method Conclude(a: PassArgs, ledger: Ledger) returns (r: Attempt<()>)
      modifies this
      ensures (r, Snapshot()) == Finish(a, old(Snapshot()), ledger)
    {
      if tmp.None? {
        return Err(FileNotFound);
      }
      var parsed := ReadBack();
      if exists d :: d in parsed && "Price" !in d {
        return Err(MissingPrice);
      }
      if exists d :: d in parsed && "Price" in d && !a.numeric(d["Price"]) {
        return Err(NotNumeric);
      }
      output := Some(parsed);
      r := ReportFailures(a, ledger);
    }

    /** The end of `parse_products`, once the output is written. */
    method ReportFailures(a: PassArgs, ledger: Ledger) returns (r: Attempt<()>)
      modifies this
      ensures (r, Snapshot()) == Report(a, old(Snapshot()), ledger)
    {
      if ledger != map[] {
        logs := logs + [ledger];
        if a.forceRemove {
          var c := DoCleanup(true);
          if c.Err? {
            return c;
          }
        }
        return Err(ScrapingFailed(|ledger|));
      } else if a.autoRemove {
        r := DoCleanup(false);
      } else {
        r := Ok(());
      }
    }

    /** One turn of the decorator's loop around `parse_products`: one pass,
        and where the decorator goes from there. */
    method PassTurn(products: array<Product>, a: PassArgs, n: nat, err: Error) returns (outcome: Attempt<()>)
      requires n <= PassRetry.nTries && Valid()
      modifies this, products
      ensures Valid()
      ensures var e := RetryFrom(PassRetry, PassOp(a), old(World(Snapshot(), products[..])), n, err);
        var w := World(Snapshot(), products[..]);
        && (Retries(PassRetry, outcome) ==>
              e == After(1, [SleepTime(PassRetry, n)], RetryFrom(PassRetry, PassOp(a), w, n + 1, outcome.error)))
        && (!Retries(PassRetry, outcome) ==> e == Execution(outcome, w, 1, []))
    {
      ghost var w := World(Snapshot(), products[..]);
      outcome := ParseProductsOnce(products, a);
      RetryFromStep(PassRetry, PassOp(a), w, n, err, outcome, World(Snapshot(), products[..]));
    }

    /** `parse_products`, decorated with `retry(exceptions = ScrapingException,
        n_tries = 2)`: the decorator's loop around the pass. */
    method ParseProducts(products: array<Product>, a: PassArgs) returns (r: Attempt<()>, calls: nat, sleeps: seq<nat>)
      requires Valid()
      modifies this, products
      ensures Valid()
      ensures Execution(r, World(Snapshot(), products[..]), calls, sleeps)
        == RetrySpec(PassRetry, PassOp(a), old(World(Snapshot(), products[..])))
    {
      ghost var w0 := World(Snapshot(), products[..]);
      var n: nat := 1;
      var err := Unbound;
      calls, sleeps := 0, [];
      while n <= PassRetry.nTries
        invariant calls == n - 1 && Valid()
        invariant RetrySpec(PassRetry, PassOp(a), w0)
          == After(calls, sleeps, RetryFrom(PassRetry, PassOp(a), World(Snapshot(), products[..]), n, err))
        decreases PassRetry.nTries + 1 - n
      {
        var outcome := PassTurn(products, a, n, err);
        calls := calls + 1;
        if !Retries(PassRetry, outcome) {
          r := outcome;
          return;
        }
        AfterAfter(calls - 1, sleeps, 1, [SleepTime(PassRetry, n)],
          RetryFrom(PassRetry, PassOp(a), World(Snapshot(), products[..]), n + 1, outcome.error));
        err := outcome.error;
        sleeps := sleeps + [SleepTime(PassRetry, n)];
        n := n + 1;
      }
      r := Err(err);
    }
  }
}
