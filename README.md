# boots-sleep-scraper in Dafny

A model of the core of a web scraper for the sleep-products listing of an
online pharmacy. The scraper does four things. It finds the product links
on a listing page. It opens each product page and extracts the name,
rating, description, price and page size. It checkpoints each extracted
product as a JSON file in a temporary directory, so that an interrupted
run can be resumed. It retries failures through a `retry` decorator. The
browser, the file system and the clock are not modelled. In their place:

- Each browser call is an outcome given in advance: a value, or the
  exception it raises. These come in as `Pages.Element` and `Pages.Page`,
  and as `Pages.Web`, the page the browser shows for a link after a given
  number of pages have been opened.
- The checkpoint directory is a map from file names to the dicts the files
  hold, or `None` once it has been removed.
- A sleep is recorded as a number of seconds.

Modules, one per concern:

- `Outcomes` (outcomes.dfy): `Option`, and `Attempt`, the value returned or
  the exception raised, written as its type name and message.
- `Decorator` (decorator.dfy): the `retry` decorator of src/_decorator.py.
  - Two sides: a pure function `RetrySpec` over an operation that threads a
    state, and the method `Retry` with the wrapper's `while` loop, proved to
    compute `RetrySpec`.
  - Lemmas give the full trace: how many calls, which outcome, which sleeps.
- `Products` (product.dfy): the `Product` dataclass and `as_dict`, with its
  inverse.
- `Fields` (fields.dfy): the string logic of src/_scraper.py.
  - The checkpoint name `re.sub(r'[\W]+', '_', name).lower()`.
  - The price split against `(\D)(\d+\.\d{2})` and its fallback.
  - The first line of a description.
- `Pages` (pages.dfy): `find_products`' reading of the links, and
  `_parse_product` as the function `Extract`. `Extract` sets the fields one
  at a time, in the source order, and stops at the first exception.
- `Bags` (bags.dfy): the records of a directory as a multiset. Reading them
  back in any listing order gives the same multiset.
- `Scraper` (scraper.dfy): the pure specification of `BootsPageScraper`.
  - `Scraper`, the value of the object's fields: the checkpoint directory,
    the product count, the output written, the failure logs written, and
    counters for random ids and opened pages.
  - `Cleanup` for `do_cleanup`, and `Pass` for one undecorated call of
    `parse_products`, built from `Visit`, `Apply`, `LoopUpTo` and `Finish`.
- `Resume` (resume.dfy): what one pass leaves behind, and how two passes
  compose under `retry(exceptions = ScrapingException, n_tries = 2)`.
  - A product is skipped when a checkpoint exists under the key its
    current name gives.
  - The output holds the earlier checkpoints plus the new records.
  - The ledger keeps the last error of each failed name.
  - A forced cleanup defeats the retry.
  - Extraction renames a product to its page title, and the retried pass
    derives the key from that new name. So a product the first pass
    checkpointed under its listing text, or under a random id, is
    extracted again when its title gives a checkpoint name not yet taken.
    Its second record goes to a second file, and the output then holds
    the product twice (`Resume.ResumeReadsRenamedTwice`).
- `BootsScraper` (boots_scraper.dfy): the class `BootsPageScraper`, whose
  fields the methods update in place. A multistep method is split into one
  method per loop or step.
  - Its methods are `FindProducts`, `ParseProduct`, `DoCleanup`,
    `ParseProductsOnce` (the undecorated `parse_products`) and
    `ParseProducts` (the decorated one).
  - Each method is proved against a pure function: `Listing`, `Extract`,
    `Cleanup`, `Pass`, and `RetrySpec` of `Pass`.
  - `Valid()` says that no random id still to be drawn names a
    checkpoint. The constructor establishes it, and every mutating method
    keeps it, so it holds before each pass of the decorated call.

A trailing run of non-word characters in a name becomes a trailing `_` in
its checkpoint name. So `Deep Sleep!!` gives `deep_sleep_` and `deep sleep`
gives `deep_sleep`. `Fields.TrailingRunAddsUnderscore` states this for
every name.

## Model

| member | source | states |
|---|---|---|
| Decorator.RetryFrom | src/_decorator.py:55-79 | the wrapper's loop from counter n on, as a function of the decorated operation; its trace is stated by `Decorator.RetryFromStep` and `Decorator.RetryFromShape` |
| Decorator.RetrySpec | src/_decorator.py:53-79 | one decorated call, which starts the loop at `n = 1` with no stored error; its contract is `Decorator.RetryContract` |
| Decorator.SleepTime | src/_decorator.py:68 | the sleep after the n-th caught exception is `delay * backoff**n`, capped at `max_delay` |
| Decorator.Retry | src/_decorator.py:53-79 | the wrapper loop returns the outcome, the final state, the number of calls and the sleeps that `RetrySpec` gives |
| Decorator.RetryFromStep | src/_decorator.py:55-77 | one turn: a caught exception sleeps `SleepTime(n)` and continues with counter n+1 and that exception stored; any other outcome ends the run with one call |
| Decorator.RetryFromShape | src/_decorator.py:54-79 | from counter n on, the calls made, the outcome and state they end with, that every earlier call was caught, and the sleeps made |
| Decorator.RetryContract | src/_decorator.py:54-79 | 1 to `n_tries` calls; every call but the last was caught; the result is the last call's outcome; it stops early only on a return or an uncaught exception; one sleep `SleepTime(j)` per caught call. With `n_tries <= 0` there are no calls and `UnboundLocalError` is raised |
| Decorator.FirstStopIsFinal | src/_decorator.py:56-57 | a return or uncaught exception at call k, after k-1 caught ones, is the result, after exactly k calls and k-1 sleeps |
| Decorator.UncaughtEscapes | src/_decorator.py:56-58 | an exception not in `exceptions` from the first call escapes at once, with no sleep |
| Decorator.ExhaustedReraisesLast | src/_decorator.py:55-79 | if every call is caught, there are exactly `n_tries` calls, a sleep after each one (the last included), and the last exception is re-raised |
| Decorator.PowMonotone | src/_decorator.py:68 | with `backoff >= 1`, `backoff**i` grows with i |
| Decorator.SleepNonDecreasing | src/_decorator.py:68 | with `backoff >= 1`, a later retry never sleeps less |
| Decorator.SleepsCappedAndOrdered | src/_decorator.py:68-75 | every sleep of a run is at most `max_delay`, and with `backoff >= 1` the sleeps never decrease |
| Decorator.PowOne | src/_decorator.py:8 | the default backoff 1 does not grow the delay |
| Decorator.DefaultSleepsOneSecond | src/_decorator.py:8 | under the default arguments every sleep is one second |
| Products.AsDict | src/_product.py:18-27 | the dict view has exactly the six keys `Title`, `Price`, `Price_Unit`, `Short_Desc`, `Rating`, `Page_Size_KB` |
| Products.DictRoundTrip | src/_product.py:18-27 | reading a dict view back with the product's `href` gives the product |
| Products.AsDictIgnoresOnlyHref | src/_product.py:18-27 | two products have the same dict view iff they agree on every field but `href` |
| Products.BareProductIsAllNull | src/_product.py:9-16 | a product built from its `href` alone has six `null`s in its dict view |
| Fields.Lower | src/_scraper.py:327 | `str.lower`; stated by `Fields.LowerShape`, `Fields.LowerAppend` and `Fields.LowerTwice` |
| Fields.Collapse | src/_scraper.py:327 | `re.sub(r'[\W]+', '_', ...)`; stated by `Fields.CollapseFrom`, `Fields.CollapseRun`, `Fields.CollapseKeepsWords` and `Fields.CollapseEmpty` |
| Fields.CheckpointName | src/_scraper.py:327 | the checkpoint name of a product name; stated by `Fields.CheckpointNameShape`, `Fields.CheckpointNameIdempotent`, `Fields.CaseInsensitive` and `Fields.TrailingRunAddsUnderscore` |
| Fields.LowerChar | src/_scraper.py:327 | lower-casing a character keeps it a word character or a non-word character, and leaves no upper-case letter |
| Fields.LowerShape | src/_scraper.py:327 | `lower()` keeps the length and maps each character on its own |
| Fields.CollapseFrom | src/_scraper.py:327 | the substitution leaves only word characters and never lengthens the string |
| Fields.CollapseKeepsWords | src/_scraper.py:327 | a string of word characters is left as it is |
| Fields.CollapseEmpty | src/_scraper.py:327 | the substitution gives `''` only for `''` |
| Fields.CollapseAppend | src/_scraper.py:327 | after a word character the substitution works piece by piece |
| Fields.CollapseRunFrom | src/_scraper.py:327 | a run of non-word characters gives one `_`, or nothing when it continues a run |
| Fields.CollapseRun | src/_scraper.py:327 | a run of non-word characters between two words becomes a single `_` |
| Fields.CollapseLower | src/_scraper.py:327 | lower-casing and the substitution commute |
| Fields.LowerTwice | src/_scraper.py:327 | lower-casing twice is lower-casing once |
| Fields.CaseInsensitive | src/_scraper.py:326-327 | names equal up to case have the same checkpoint name |
| Fields.CheckpointNameIdempotent | src/_scraper.py:326-327 | a checkpoint name is its own checkpoint name |
| Fields.LowerAppend | src/_scraper.py:327 | lower-casing works piece by piece |
| Fields.TrailingRunAddsUnderscore | src/_scraper.py:326-327 | a trailing run of non-word characters appends one `_` to the checkpoint name of the rest |
| Fields.CheckpointNameShape | src/_scraper.py:326-327 | a non-empty name gives a non-empty checkpoint name of word characters |
| Fields.DigitRun | src/_scraper.py:47 | the length of the maximal run of digits at a position |
| Fields.SplitPrice | src/_scraper.py:255-259 | the price split with its fallback; stated by `Fields.SplitPriceShape` and `Fields.SplitPriceMatched` |
| Fields.SplitPriceShape | src/_scraper.py:255-259 | the split fails (with `IndexError`) iff the price string is empty; the unit is its first character; a match gives an amount `d+.dd` and drops the rest; otherwise the price is all the rest |
| Fields.SplitPriceMatched | src/_scraper.py:47 | a non-digit, digits, `.` and two digits split into the sign and the amount, whatever follows |
| Fields.SplitPriceExamples | src/_scraper.py:255-259 | `£12.99` splits into `£` and `12.99`; `N/A` splits into `N` and `/A` |
| Fields.FirstLine | src/_scraper.py:250 | the first line is a prefix without a newline, followed in the text by a newline or by nothing |
| Pages.BrowserSleeps | src/_scraper.py:21 | under `RETRY` the browser lookups sleep 2, 4, then 5 seconds |
| Pages.Listed | src/_scraper.py:208-220 | a link becomes a product iff its `href` is read or raises `NoSuchElementException`, which gives `None` instead of aborting; any other `href` exception is raised as it is; the rest is stated by `Pages.ListedShape` |
| Pages.Listing | src/_scraper.py:206-222 | the products of the links in order, or the first exception; stated by `Pages.ListingContract` and `Pages.ListingStops` |
| Pages.Extract | src/_scraper.py:224-265 | `_parse_product`; stated by `Pages.ExtractSucceeds`, `Pages.ExtractFailure`, `Pages.TitleOverwritesName` and `Pages.ExtractKeepsHref` |
| Pages.ListingContract | src/_scraper.py:206-222 | the listing succeeds iff no `href` raises anything but `NoSuchElementException`; then it has one product per link, in link order; otherwise it raises the first such exception |
| Pages.ListingStops | src/_scraper.py:214-218 | the first escaping exception stops the listing |
| Pages.ListedShape | src/_scraper.py:208-220 | each listed product is named by the link's text (`''` when unreadable), points at its `href` (`None` on `NoSuchElementException`), and has nothing else set |
| Pages.DescriptionOf | src/_scraper.py:245-250 | a readable block gives exactly its first line, a prefix with no newline followed by a newline or the end; a missing block gives `Missing product description.`; any other error is the one reading the block raised |
| Pages.RatingOf | src/_scraper.py:231-239 | read backwards: `NaN` means the wait timed out, a rating text is the element's text, and an exception is the wait's own and never a time-out |
| Pages.ExtractSucceeds | src/_scraper.py:224-265 | extraction succeeds iff every lookup succeeds, the price string is not empty and the page source can be read; then the product holds the page's title, rating, description, split price and size; the result is its dict view, with `Title` equal to the new name and no `null` |
| Pages.ExtractOnExtractable | src/_scraper.py:224-265 | on an extractable page every step succeeds and sets its field: rating, title, description, split price and page size, and the dict view is returned |
| Pages.ExtractOnOther | src/_scraper.py:224-265 | on any other page some step raises |
| Pages.TitleOverwritesName | src/_scraper.py:242 | the page title replaces the name as soon as it is read, even if a later step fails |
| Pages.ExtractFailure | src/_scraper.py:224-265 | a failed extraction raises the exception of its first failing step, one of seven, the last being the read of the page source |
| Pages.ExtractKeepsHref | src/_scraper.py:224-265 | extraction never changes `href` |
| Bags.BagRemove | src/_scraper.py:358-361 | the records read back do not depend on the order the directory lists its files |
| Bags.BagMembers | src/_scraper.py:358-361 | a record is read back iff some file holds it |
| Bags.BagSubmap | src/_scraper.py:358-361 | a directory holding every file of another reads back at least its records |
| Bags.BagAdd | src/_scraper.py:353-354 | writing a new file adds its record to what is read back |
| Scraper.KeyOf | src/_scraper.py:326-330 | a random id iff the name is `None` or `''`; otherwise the checkpoint name, which is non-empty and made of word characters, so it never holds the `-` of a random id |
| Scraper.Cleanup | src/_scraper.py:267-284 | `do_cleanup`; stated by `Scraper.CleanupContract` |
| Scraper.Visit | src/_scraper.py:326-351 | the fate of one product; stated by `Resume.VisitOutcomes` |
| Scraper.Apply | src/_scraper.py:330-354 | the effect of a fate on the loop's state: one fate more, the same number of products; its outcomes are stated by `Resume.VisitOutcomes` |
| Scraper.LoopUpTo | src/_scraper.py:321-354 | the loop after its first i products: i fates when it goes on; stated by `Resume.LoopTracks`, `Resume.LoopWithoutDir` and `Scraper.EscapeSticks` |
| Scraper.PriceCheck | src/_scraper.py:358-366 | the `KeyError` and `ValueError` of the price summary; their effect is stated by `Resume.PassOutput` |
| Scraper.Finish | src/_scraper.py:356-390 | read back, price check, output, then `Report`; stated by `Resume.PassOutput` and `Resume.PassOutcome` |
| Scraper.Report | src/_scraper.py:372-390 | the log, the cleanup and the aggregate failure; stated by `Resume.PassOutcome` |
| Scraper.Pass | src/_scraper.py:317-390 | one undecorated call of `parse_products`; stated by `Resume.PassOutput`, `Resume.PassOutcome`, `Resume.PassRetried` and `Resume.PassSkipsCheckpointed` |
| Scraper.CleanupContract | src/_scraper.py:267-284 | cleanup changes only the directory. It removes it iff it exists and it is forced or holds at least as many files as products were found. It raises `FileNotFoundError` if the directory is gone, and `AttributeError` if it is unforced before any scan; either error leaves the state unchanged |
| Scraper.EscapeSticks | src/_scraper.py:353-354 | once writing a record raises, the loop over the products stops |
| BootsScraper.BootsPageScraper.constructor | src/_scraper.py:141-151 | a new scraper has the existing directory, no product count, no output and no logs, and is `Valid` |
| BootsScraper.BootsPageScraper.FindProducts | src/_scraper.py:185-222 | the lookup is retried under `RETRY`. If it fails, the error is raised and nothing changes. Otherwise the count is recorded and the products are `Listing` of the links. `Valid` is kept |
| BootsScraper.BootsPageScraper.ParseProduct | src/_scraper.py:224-265 | the product in the list becomes what `Extract` leaves, the same result is returned, and one page is opened; a `Valid` object stays `Valid` |
| BootsScraper.BootsPageScraper.DoCleanup | src/_scraper.py:267-284 | result and new state are `Cleanup` of the old state; a `Valid` object stays `Valid` |
| BootsScraper.BootsPageScraper.VisitProduct | src/_scraper.py:321-354 | one loop turn takes the state to `Apply(Visit(...))`: skip, record the failure, write the record, or raise |
| BootsScraper.BootsPageScraper.ExtractAndRecord | src/_scraper.py:339-354 | extraction, then the failure under the product's new name, or the record under its key, or `FileNotFoundError` when there is no directory |
| BootsScraper.BootsPageScraper.ReadBack | src/_scraper.py:356-361 | the records read back are the multiset of the directory's records |
| BootsScraper.BootsPageScraper.ScanProducts | src/_scraper.py:320-354 | the loop over the products ends where `LoopUpTo` says, or raises as it says |
| BootsScraper.BootsPageScraper.Conclude | src/_scraper.py:356-390 | after the loop, result and state are `Finish`: read back, price check, output, then `Report` |
| BootsScraper.BootsPageScraper.ReportFailures | src/_scraper.py:372-390 | with failures: write the log, clean up if forced, raise `ScrapingException` with their count. Without failures: clean up if `auto_remove` |
| BootsScraper.BootsPageScraper.ParseProductsOnce | src/_scraper.py:317-390 | one undecorated call gives the result and the new object and product list that `Pass` gives, and keeps `Valid` |
| BootsScraper.BootsPageScraper.PassTurn | src/_decorator.py:55-77 | one turn of the decorator around a pass, as `RetryFrom` takes it |
| BootsScraper.BootsPageScraper.ParseProducts | src/_scraper.py:286-390 | the decorated call gives exactly `RetrySpec` of `Pass` under `ScrapingException`, `n_tries = 2`; `Valid` holds before each pass and after the call |
| Resume.LedgerOfContract | src/_scraper.py:348 | a name is in `failed_products` iff a product of that name failed, and it holds the last such error |
| Resume.StoredRecordsHold | src/_scraper.py:353-354 | every record a product's fate writes is among the records the pass writes |
| Resume.SameNameCountsOnce | src/_scraper.py:348 | two failures under one name leave one entry, the later error, so the aggregate count is of names, not of failures |
| Resume.VisitOutcomes | src/_scraper.py:326-354 | exactly one of three outcomes per product. Skipped iff its checkpoint exists: no page, ledger entry or write. A failure goes into the ledger under the new name, with no write. A success writes exactly the returned dict under the key, or raises `FileNotFoundError` if the directory is gone |
| Resume.ApplyBag | src/_scraper.py:351-361 | a fate that writes only to a new file keeps every earlier checkpoint and adds its record to what is read back |
| Resume.LoopTracks | src/_scraper.py:321-354 | with the directory present, the loop never raises. Checkpoints are only added. What is read back grows by the records written. The ledger, the page count, the products and the keys follow the fates. Checkpointed products are skipped. Random ids stay fresh |
| Resume.LoopWithoutDir | src/_scraper.py:335-354 | with the directory removed, nothing is skipped or written, and the only exception is `FileNotFoundError` |
| Resume.PassSkipsCheckpointed | src/_scraper.py:334-337 | a product whose checkpoint exists when the pass starts is skipped and left as it was |
| Resume.PassNeverSkipsUnnamed | src/_scraper.py:328-337 | while random ids are fresh, a product without a name is never skipped |
| Resume.PassRevisits | src/_scraper.py:326-341 | a named product with no checkpoint, and no earlier product sharing its checkpoint name, is extracted |
| Resume.PassLoopGoesOn | src/_scraper.py:321-354 | while the directory exists, the loop of a pass runs to its end without raising |
| Resume.PassKeepsFresh | src/_scraper.py:328-330 | a pass keeps every random id to be drawn unused |
| Resume.PassWithoutDir | src/_scraper.py:353-358 | a pass over a removed directory raises `FileNotFoundError` and writes neither output nor log |
| Resume.LedgerEmpty | src/_scraper.py:373 | the ledger is empty iff no product failed |
| Resume.PassOutput | src/_scraper.py:356-370 | the output is every record present before the pass plus every record it wrote. A missing price or a non-numeric price is raised before any output |
| Resume.PassOutcome | src/_scraper.py:372-390 | with failures: the log is written, the directory is removed only if forced, and `ScrapingException` is raised with the count of names. Without: no log, and `auto_remove` runs the unforced cleanup |
| Resume.PassRetried | src/_scraper.py:286 | the decorator retries a pass iff its output was written and some product failed |
| Resume.PassRetryComposition | src/_scraper.py:286 | a pass not raising `ScrapingException` is the whole run. Otherwise, after one second, a second pass runs from the first one's state; its outcome is the run's, with a second one-second sleep if it also fails |
| Resume.ForcedRemovalDefeatsRetry | src/_scraper.py:381-387 | with `force_remove`, a failing first pass removes the directory, so the retried pass raises `FileNotFoundError` after two calls and one sleep |
| Resume.ResumeSkipsCheckpointed | src/_scraper.py:299-301 | after a failing first pass, the second skips every product checkpointed (or found checkpointed) under the key its current name gives |
| Resume.ResumeRevisitsRenamed | src/_scraper.py:326-342 | a product listed without a name is checkpointed under a random id and then named by its title, so the retried pass does not find that checkpoint and opens its page again |
| Resume.ResumeNeverSkipsUnnamed | src/_scraper.py:328-337 | random ids stay fresh across the retry: a product still without a name after the first pass is opened again by the second |
| Resume.ResumeReadsRenamedTwice | src/_scraper.py:326-361 | a product stored by the first pass whose title gives a new checkpoint name is stored again by the retried pass under that second name, and both records are read back into the output |
| Resume.RetriedKeepsStored | src/_scraper.py:372-387 | without `force_remove`, a record the first pass stored is still in the directory the retried pass starts from |
| Resume.PassKeyOfNamed | src/_scraper.py:326-327 | a named product's fate carries the checkpoint name of its current name |
| Resume.PassReadsBoth | src/_scraper.py:351-361 | once the output is written, it holds a record already in the directory together with any record the pass stored |

## Left out

- Selenium: the browser, its waits and time-outs, are not modelled. Every lookup is an outcome given in advance: `Element` and `Page`, and `Web` indexed by the number of pages opened. So the model does not capture how a page changes over time, only that it may differ between passes.
- `ChromeDriverWrapper`, cookie acceptance and the helper lookups other than the product listing are left out. They are browser plumbing outside the core.
- The file system is a map from file names to dicts. JSON serialization is the identity on `Dict`. File paths, `output_path` and `output_file` are not modelled, and the output file holds only the multiset of records.
- `Scraper.PriceCheck`: `to_numeric(...).mean().round(2)`, the median written with the output, is not computed. The model keeps only its exceptions: `KeyError` for a record without `Price`, and `ValueError` through the `numeric` parameter, which says whether pandas accepts a price.
- `np.NaN` is the `NaN` variant of `Value`. Floating point is not modelled.
- `Decorator.Policy`: `delay`, `max_delay` and `backoff` are natural numbers. `retry` also accepts fractional values, which are not modelled; every call in the core passes integers.
- `sys.getsizeof(...)//1024`: the page gives the size in KB, or the exception of reading `page_source`. The size computation itself is not modelled.
- Random ids (`uuid.uuid4()`) are drawn from a counter. `uuidSeed` exceeds every id of earlier runs. A random id can never equal a checkpoint name.
- `time.sleep` is recorded, not performed. `time.time()` in the log file name is left out; each log is a ledger appended to `logs`.
- Logging is left out, as in `logger.*` calls, the `selenium` test on the class name, and the log path in the `ScrapingException` message. The message is modelled up to `products.`.
- Exception messages are fixed strings, for example `FileNotFoundError` without its path. The model keeps only the type name and the text the code formats.
- `Fields.IsWordChar`: Python's `\w` is exact for the first 256 code points. Above them, every character except the General Punctuation block counts as a word character. `\d` is ASCII only.
- `Fields.LowerChar`: `str.lower` is exact for the first 256 code points. Characters above them are kept. Case mappings that change the length are not modelled.
- `Products.Product`: each product of the list is a value in an `array`. Two list positions that share one `Product` object are not modelled.
- `Decorator.Matches`: `exceptions = Exception` catches every exception the model raises. The model has no `BaseException` that escapes it. A tuple of classes is matched by exact class name, while `except (...)` also catches their subclasses. So an exception of a subclass of a listed class is retried by the code but not by the model.
- `Decorator.Retry`: the decorated call is a state-passing function. A method cannot be passed as a value, so `ParseProducts` repeats the wrapper's loop around the pass, and its `ensures` ties it to the same `RetrySpec`.
- `__main__`, the command line and the tests are left out. They are callers, not part of the core.
