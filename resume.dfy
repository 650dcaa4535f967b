/** Why `parse_products` can be resumed: what one pass leaves behind when the
    checkpoint directory exists, and how two passes compose under the
    decorator. Everything here is stated about the pure specification `Pass`
    of module Scraper, which the methods of `BootsPageScraper` are proved to
    follow. */
module Resume {
  import opened Outcomes
  import opened Decorator
  import opened Products
  import opened Fields
  import opened Pages
  import opened Bags
  import opened Scraper

  // ---------------------------------------------------------------------
  // What a sequence of fates adds up to.

  /** `failed_products` after the fates `fs`: each failure writes its error
      text under the product's name, overwriting an earlier one. */
  function LedgerOf(fs: seq<Fate>): Ledger
  {
    if fs == [] then map[]
    else
      var l := LedgerOf(fs[..|fs| - 1]);
      var f := fs[|fs| - 1];
      if f.Failed? then l[f.product.name := ErrorText(f.error)] else l
  }

  /** The records the fates `fs` write, counted with multiplicity. */
  function StoredRecords(fs: seq<Fate>): multiset<Dict>
  {
    if fs == [] then multiset{}
    else
      var f := fs[|fs| - 1];
      StoredRecords(fs[..|fs| - 1]) + (if f.Stored? then multiset{f.record} else multiset{})
  }

  /** How many product pages the fates `fs` open: one per product not skipped. */
  function Opened(fs: seq<Fate>): nat
  {
    if fs == [] then 0
    else Opened(fs[..|fs| - 1]) + (if fs[|fs| - 1].Skipped? then 0 else 1)
  }

  /** Every record a fate stores is among the records the fates write. */
  lemma {:induction false} StoredRecordsHold(fs: seq<Fate>, j: nat)
    requires j < |fs| && fs[j].Stored?
    ensures fs[j].record in StoredRecords(fs)
  {
    var front := fs[..|fs| - 1];
    if j < |front| {
      assert front[j] == fs[j];
      StoredRecordsHold(front, j);
    }
  }

  lemma FoldsSnoc(fs: seq<Fate>, f: Fate)
    ensures LedgerOf(fs + [f]) == if f.Failed? then LedgerOf(fs)[f.product.name := ErrorText(f.error)] else LedgerOf(fs)
    ensures StoredRecords(fs + [f]) == StoredRecords(fs) + (if f.Stored? then multiset{f.record} else multiset{})
    ensures Opened(fs + [f]) == Opened(fs) + (if f.Skipped? then 0 else 1)
  {
    assert (fs + [f])[..|fs|] == fs;
  }

  /** Fate `j` is the last failure of a product named `n`. */
  predicate LastFailure(fs: seq<Fate>, n: Option<string>, j: int)
  {
    && 0 <= j < |fs| && fs[j].Failed? && fs[j].product.name == n
    && forall k :: j < k < |fs| ==> !(fs[k].Failed? && fs[k].product.name == n)
  }

  /** A name is in the ledger exactly when some product of that name failed,
      and it holds the error text of the last such failure. */
  lemma {:induction false} LedgerOfContract(fs: seq<Fate>)
    ensures forall n :: n in LedgerOf(fs) <==> exists j :: 0 <= j < |fs| && fs[j].Failed? && fs[j].product.name == n
    ensures forall n :: n in LedgerOf(fs) ==>
      exists j :: LastFailure(fs, n, j) && LedgerOf(fs)[n] == ErrorText(fs[j].error)
  {
    if fs != [] {
      var front, f := fs[..|fs| - 1], fs[|fs| - 1];
      LedgerOfContract(front);
      FoldsSnoc(front, f);
      assert fs == front + [f];
      forall n | n in LedgerOf(fs)
        ensures exists j :: LastFailure(fs, n, j) && LedgerOf(fs)[n] == ErrorText(fs[j].error)
      {
        if f.Failed? && f.product.name == n {
          assert LastFailure(fs, n, |fs| - 1);
        } else {
          var j :| LastFailure(front, n, j) && LedgerOf(front)[n] == ErrorText(front[j].error);
          assert LastFailure(fs, n, j);
        }
      }
      forall n | exists j :: 0 <= j < |fs| && fs[j].Failed? && fs[j].product.name == n
        ensures n in LedgerOf(fs)
      {
        var j :| 0 <= j < |fs| && fs[j].Failed? && fs[j].product.name == n;
        if j < |front| {
          assert front[j] == fs[j];
        }
      }
    }
  }

  /** Two failed products of the same name are counted once in the aggregate
      failure: the ledger holds one entry, the later error. */
  lemma SameNameCountsOnce(k1: Key, k2: Key, p1: Product, p2: Product, e1: Error, e2: Error)
    requires p1.name == p2.name
    ensures LedgerOf([Failed(k1, p1, e1), Failed(k2, p2, e2)]) == map[p1.name := ErrorText(e2)]
  {
    FoldsSnoc([], Failed(k1, p1, e1));
    FoldsSnoc([Failed(k1, p1, e1)], Failed(k2, p2, e2));
  }

  // ---------------------------------------------------------------------
  // The loop while the directory exists.

  predicate Submap<K, V(==)>(m0: map<K, V>, m: map<K, V>)
  {
    forall k :: k in m0 ==> k in m && m[k] == m0[k]
  }

  /** The product has a name that gives it a checkpoint name. */
  predicate HasName(p: Product)
  {
    p.name.Some? && p.name.value != []
  }

  function NamedKey(p: Product): Key
    requires HasName(p)
  {
    Named(CheckpointName(p.name.value))
  }

  /** The product as a fate leaves it. */
  function FateProduct(p: Product, f: Fate): Product
  {
    if f.Skipped? then p else f.product
  }

  /** No random id still to be drawn names a checkpoint. */
  predicate FreshLoop(ls: LoopState)
  {
    FreshIds(ls.tmp, ls.nextUuid)
  }

  /** How the state after `i` products relates to the start `ls0`: sizes. */
  predicate Shape(ls0: LoopState, s: LoopState, i: nat)
  {
    && i <= |ls0.products| && |s.products| == |ls0.products| && |s.fates| == i
    && s.tmp.Some? && ls0.tmp.Some?
  }

  /** What the counters, the ledger and the directory's contents are. */
  ghost predicate Totals(ls0: LoopState, s: LoopState)
    requires s.tmp.Some? && ls0.tmp.Some?
  {
    && Submap(ls0.tmp.value, s.tmp.value)
    && Bag(s.tmp.value) == Bag(ls0.tmp.value) + StoredRecords(s.fates)
    && s.ledger == LedgerOf(s.fates)
    && s.pagesOpened == ls0.pagesOpened + Opened(s.fates)
  }

  /** The products visited are as their fates leave them; the rest untouched. */
  predicate Positions(ls0: LoopState, s: LoopState, i: nat)
    requires Shape(ls0, s, i)
  {
    && (forall j :: 0 <= j < i ==> s.products[j] == FateProduct(ls0.products[j], s.fates[j]))
    && (forall j :: i <= j < |s.products| ==> s.products[j] == ls0.products[j])
  }

  /** Each fate's key is the one its product's name gave, a skipped or stored
      key is in the directory (a stored one with its record), and every new
      file was stored by some fate. */
  predicate Keys(ls0: LoopState, s: LoopState, i: nat)
    requires Shape(ls0, s, i)
  {
    && (forall j :: 0 <= j < i && HasName(ls0.products[j]) ==> s.fates[j].key == NamedKey(ls0.products[j]))
    && (forall j :: 0 <= j < i && !HasName(ls0.products[j]) ==> s.fates[j].key.Uuid?)
    && (forall j :: 0 <= j < i && s.fates[j].Skipped? ==> s.fates[j].key in s.tmp.value)
    && (forall j :: 0 <= j < i && s.fates[j].Stored? ==>
          s.fates[j].key in s.tmp.value && s.tmp.value[s.fates[j].key] == s.fates[j].record)
    && Provenance(ls0, s, i)
  }

  /** Every file the loop added was stored by one of its fates. */
  predicate Provenance(ls0: LoopState, s: LoopState, i: nat)
    requires Shape(ls0, s, i)
  {
    forall k :: k in s.tmp.value && k !in ls0.tmp.value ==>
      exists j :: 0 <= j < i && s.fates[j].Stored? && s.fates[j].key == k
  }

  /** A product whose checkpoint existed at the start was skipped; under
      `FreshLoop` an unnamed one never was. */
  predicate Skips(ls0: LoopState, s: LoopState, i: nat)
    requires Shape(ls0, s, i)
  {
    && (forall j :: 0 <= j < i && HasName(ls0.products[j]) && NamedKey(ls0.products[j]) in ls0.tmp.value ==>
          s.fates[j] == Skipped(NamedKey(ls0.products[j])))
    && (FreshLoop(ls0) ==> FreshLoop(s) && forall j :: 0 <= j < i && !HasName(ls0.products[j]) ==> !s.fates[j].Skipped?)
  }

  ghost predicate Tracks(ls0: LoopState, s: LoopState, i: nat)
  {
    && Shape(ls0, s, i)
    && Totals(ls0, s)
    && Positions(ls0, s, i)
    && Keys(ls0, s, i)
    && Skips(ls0, s, i)
  }

  /** The fate of the next product while the directory exists: its key is the
      one its name gives, it is skipped exactly when that checkpoint exists,
      and the loop goes on. */
  lemma VisitFacts(web: Web, s: LoopState, i: nat)
    requires i < |s.products| && s.tmp.Some?
    ensures var f := Visit(web, s, i);
      && f.key == KeyOf(s.products[i].name, s.nextUuid)
      && (f.Skipped? <==> f.key in s.tmp.value)
      && Apply(s, i, f).Next?
  {
  }

  /** Each product has exactly one of three fates. Its key comes from its
      name, and a random id is drawn only for a product without one. A product
      whose checkpoint exists is skipped, with no page opened, no ledger entry
      and no file written. A failed extraction records its error under the
      product's new name and writes nothing. A successful one writes exactly
      the returned dict under the key, or raises `FileNotFoundError` when the
      directory is gone. */
  lemma VisitOutcomes(web: Web, ls: LoopState, i: nat)
    requires i < |ls.products|
    ensures var p := ls.products[i];
      var f := Visit(web, ls, i);
      var flow := Apply(ls, i, f);
      var (q, res) := Extract(p, web(ls.pagesOpened, p.href));
      && f.key == KeyOf(p.name, ls.nextUuid)
      && flow.state.nextUuid == ls.nextUuid + (if f.key.Uuid? then 1 else 0)
      && (f.Skipped? <==> ls.tmp.Some? && f.key in ls.tmp.value)
      && (f.Skipped? ==> flow.Next? && flow.state.(nextUuid := ls.nextUuid, fates := ls.fates) == ls)
      && (!f.Skipped? ==>
            && f.product == q
            && flow.state.products == ls.products[i := q]
            && flow.state.pagesOpened == ls.pagesOpened + 1
            && (f.Failed? <==> res.Err?))
      && (f.Failed? ==>
            && res == Err(f.error)
            && flow.Next? && flow.state.tmp == ls.tmp
            && flow.state.ledger == ls.ledger[q.name := ErrorText(f.error)])
      && (f.Stored? ==>
            && res == Ok(AsDict(q)) && f.record == AsDict(q)
            && flow.state.ledger == ls.ledger
            && (ls.tmp.Some? ==> flow.Next? && flow.state.tmp == Some(ls.tmp.value[f.key := f.record]))
            && (ls.tmp.None? ==> flow.Escape? && flow.error == FileNotFound))
  {
    var p := ls.products[i];
    ExtractSucceeds(p, web(ls.pagesOpened, p.href));
  }

  lemma StepTotals(web: Web, ls0: LoopState, s: LoopState, i: nat)
    requires Tracks(ls0, s, i) && i < |ls0.products|
    ensures var s' := Apply(s, i, Visit(web, s, i)).state;
      Shape(ls0, s', i + 1) && Totals(ls0, s')
  {
    var f := Visit(web, s, i);
    VisitFacts(web, s, i);
    var s' := Apply(s, i, f).state;
    FoldsSnoc(s.fates, f);
    StepBag(web, ls0, s, i);
  }

  lemma StepBag(web: Web, ls0: LoopState, s: LoopState, i: nat)
    requires i < |s.products| && s.tmp.Some? && ls0.tmp.Some?
    requires Bag(s.tmp.value) == Bag(ls0.tmp.value) + StoredRecords(s.fates)
    ensures var s' := Apply(s, i, Visit(web, s, i)).state;
      && s'.tmp.Some?
      && Submap(s.tmp.value, s'.tmp.value)
      && Bag(s'.tmp.value) == Bag(ls0.tmp.value) + StoredRecords(s'.fates)
  {
    VisitFacts(web, s, i);
    ApplyBag(ls0, s, i, Visit(web, s, i));
  }

  /** A fate that is not a skip of an existing checkpoint or a write over
      one adds its record, if any, to what is read back. */
  lemma ApplyBag(ls0: LoopState, s: LoopState, i: nat, f: Fate)
    requires i < |s.products| && s.tmp.Some? && ls0.tmp.Some?
    requires Bag(s.tmp.value) == Bag(ls0.tmp.value) + StoredRecords(s.fates)
    requires f.Stored? ==> f.key !in s.tmp.value
    ensures var s' := Apply(s, i, f).state;
      && s'.tmp.Some?
      && Submap(s.tmp.value, s'.tmp.value)
      && Bag(s'.tmp.value) == Bag(ls0.tmp.value) + StoredRecords(s'.fates)
  {
    var s' := Apply(s, i, f).state;
    FoldsSnoc(s.fates, f);
    assert s'.fates == s.fates + [f];
    if f.Stored? {
      var m := s.tmp.value;
      assert s'.tmp == Some(m[f.key := f.record]);
      BagAdd(m, f.key, f.record);
      assert Submap(m, m[f.key := f.record]);
    } else {
      assert s'.tmp == s.tmp;
    }
  }

  lemma StepPositions(web: Web, ls0: LoopState, s: LoopState, i: nat)
    requires Tracks(ls0, s, i) && i < |ls0.products|
    requires Shape(ls0, Apply(s, i, Visit(web, s, i)).state, i + 1)
    ensures Positions(ls0, Apply(s, i, Visit(web, s, i)).state, i + 1)
  {
    var f := Visit(web, s, i);
    var s' := Apply(s, i, f).state;
    assert s'.fates[i] == f;
    assert s'.products[i] == FateProduct(ls0.products[i], f);
    assert forall j :: 0 <= j < i ==> s'.fates[j] == s.fates[j];
  }

  lemma StepKeys(web: Web, ls0: LoopState, s: LoopState, i: nat)
    requires Tracks(ls0, s, i) && i < |ls0.products|
    requires Shape(ls0, Apply(s, i, Visit(web, s, i)).state, i + 1)
    ensures Keys(ls0, Apply(s, i, Visit(web, s, i)).state, i + 1)
  {
    var f := Visit(web, s, i);
    VisitFacts(web, s, i);
    var s' := Apply(s, i, f).state;
    assert s.products[i] == ls0.products[i];
    assert s'.fates[i] == f;
    assert forall j :: 0 <= j < i ==> s'.fates[j] == s.fates[j];
    assert Submap(s.tmp.value, s'.tmp.value);
    StepNewKeys(web, ls0, s, i);
  }

  lemma StepNewKeys(web: Web, ls0: LoopState, s: LoopState, i: nat)
    requires Tracks(ls0, s, i) && i < |ls0.products|
    requires Shape(ls0, Apply(s, i, Visit(web, s, i)).state, i + 1)
    ensures Provenance(ls0, Apply(s, i, Visit(web, s, i)).state, i + 1)
  {
    var f := Visit(web, s, i);
    VisitFacts(web, s, i);
    var s' := Apply(s, i, f).state;
    assert s'.fates[i] == f;
    forall k | k in s'.tmp.value && k !in ls0.tmp.value
      ensures exists j :: 0 <= j < i + 1 && s'.fates[j].Stored? && s'.fates[j].key == k
    {
      if k !in s.tmp.value {
        assert s'.fates[i].Stored? && s'.fates[i].key == k;
      } else {
        var j :| 0 <= j < i && s.fates[j].Stored? && s.fates[j].key == k;
        assert s'.fates[j] == s.fates[j];
      }
    }
  }

  lemma StepSkips(web: Web, ls0: LoopState, s: LoopState, i: nat)
    requires Tracks(ls0, s, i) && i < |ls0.products|
    requires Shape(ls0, Apply(s, i, Visit(web, s, i)).state, i + 1)
    requires Totals(ls0, Apply(s, i, Visit(web, s, i)).state)
    ensures Skips(ls0, Apply(s, i, Visit(web, s, i)).state, i + 1)
  {
    var f := Visit(web, s, i);
    VisitFacts(web, s, i);
    var s' := Apply(s, i, f).state;
    var p := ls0.products[i];
    assert s.products[i] == p;
    assert s'.fates[i] == f;
    assert forall j :: 0 <= j < i ==> s'.fates[j] == s.fates[j];
    if HasName(p) && NamedKey(p) in ls0.tmp.value {
      assert f == Skipped(NamedKey(p));
    }
    if FreshLoop(ls0) {
      StepFresh(web, ls0, s, i);
    }
  }

  lemma StepFresh(web: Web, ls0: LoopState, s: LoopState, i: nat)
    requires Tracks(ls0, s, i) && i < |ls0.products| && FreshLoop(ls0)
    ensures var f := Visit(web, s, i);
      && FreshLoop(Apply(s, i, f).state)
      && (!HasName(ls0.products[i]) ==> !f.Skipped?)
  {
    var f := Visit(web, s, i);
    VisitFacts(web, s, i);
    assert s.products[i] == ls0.products[i];
    if !HasName(ls0.products[i]) {
      assert f.key == Uuid(s.nextUuid);
    }
  }

  lemma StepTracks(web: Web, ls0: LoopState, s: LoopState, i: nat)
    requires Tracks(ls0, s, i) && i < |ls0.products|
    ensures Apply(s, i, Visit(web, s, i)).Next?
    ensures Tracks(ls0, Apply(s, i, Visit(web, s, i)).state, i + 1)
  {
    VisitFacts(web, s, i);
    StepTotals(web, ls0, s, i);
    StepPositions(web, ls0, s, i);
    StepKeys(web, ls0, s, i);
    StepSkips(web, ls0, s, i);
  }

  /** While the directory exists the loop never raises, and after `i`
      products its state is tracked as above. */
  lemma {:induction false} LoopTracks(web: Web, ls0: LoopState, i: nat)
    requires ls0.tmp.Some? && ls0.fates == [] && ls0.ledger == map[] && i <= |ls0.products|
    ensures LoopUpTo(web, ls0, i).Next?
    ensures Tracks(ls0, LoopUpTo(web, ls0, i).state, i)
  {
    if i == 0 {
      assert LedgerOf([]) == map[] && StoredRecords([]) == multiset{} && Opened([]) == 0;
    } else {
      LoopTracks(web, ls0, i - 1);
      StepTracks(web, ls0, LoopUpTo(web, ls0, i - 1).state, i - 1);
    }
  }

  /** Once a fate is recorded, later steps leave it alone. */
  lemma {:induction false} FateStays(web: Web, ls0: LoopState, j: nat, i: nat)
    requires j < i <= |ls0.products|
    requires LoopUpTo(web, ls0, i).Next?
    ensures LoopUpTo(web, ls0, j).Next? && LoopUpTo(web, ls0, j + 1).Next?
    ensures |LoopUpTo(web, ls0, i).state.fates| > |ls0.fates| + j
    ensures LoopUpTo(web, ls0, i).state.fates[|ls0.fates| + j]
      == Visit(web, LoopUpTo(web, ls0, j).state, j)
    decreases i
  {
    if i > j + 1 {
      FateStays(web, ls0, j, i - 1);
    }
  }

  /** With the directory removed the loop never writes, and the only exception
      escaping it is the `FileNotFoundError` of writing a record. */
  lemma {:induction false} LoopWithoutDir(web: Web, ls0: LoopState, i: nat)
    requires ls0.tmp.None? && i <= |ls0.products|
    ensures LoopUpTo(web, ls0, i).state.tmp.None?
    ensures LoopUpTo(web, ls0, i).Escape? ==> LoopUpTo(web, ls0, i).error == FileNotFound
  {
    if i > 0 {
      LoopWithoutDir(web, ls0, i - 1);
    }
  }

  // ---------------------------------------------------------------------
  // One pass.

  /** The loop's final state in a pass. */
  ghost function PassLoop(a: PassArgs, w: World): LoopState
  {
    LoopUpTo(a.web, Start(w), |w.products|).state
  }

  /** The fate of each product in a pass. */
  ghost function PassFates(a: PassArgs, w: World): seq<Fate>
  {
    PassLoop(a, w).fates
  }

  lemma PassTracks(a: PassArgs, w: World)
    requires w.scraper.tmp.Some?
    ensures LoopUpTo(a.web, Start(w), |w.products|).Next?
    ensures Tracks(Start(w), PassLoop(a, w), |w.products|)
    ensures var (r, w') := Pass(a, w);
      && w'.products == PassLoop(a, w).products
      && (r, w'.scraper) == Finish(a, Settle(w, PassLoop(a, w)).scraper, PassLoop(a, w).ledger)
  {
    LoopTracks(a.web, Start(w), |w.products|);
  }

  /** A product whose checkpoint exists when the pass starts is skipped: its
      page is not opened and it stays as it was. */
  lemma PassSkipsCheckpointed(a: PassArgs, w: World, j: nat)
    requires w.scraper.tmp.Some? && j < |w.products|
    requires HasName(w.products[j]) && NamedKey(w.products[j]) in w.scraper.tmp.value
    ensures |PassFates(a, w)| == |w.products| && PassFates(a, w)[j] == Skipped(NamedKey(w.products[j]))
    ensures Pass(a, w).1.products[j] == w.products[j]
  {
    PassTracks(a, w);
  }

  /** When no random id in the directory is still to be drawn, a product
      without a name is never skipped: its page is opened. */
  lemma PassNeverSkipsUnnamed(a: PassArgs, w: World, j: nat)
    requires w.scraper.tmp.Some? && Fresh(w.scraper) && j < |w.products|
    requires !HasName(w.products[j])
    ensures |PassFates(a, w)| == |w.products| && !PassFates(a, w)[j].Skipped?
  {
    PassTracks(a, w);
    assert FreshLoop(Start(w));
  }

  /** The step that visits such a product finds no checkpoint for it. */
  lemma VisitRevisits(web: Web, ls0: LoopState, j: nat)
    requires ls0.tmp.Some? && ls0.fates == [] && ls0.ledger == map[] && j < |ls0.products|
    requires HasName(ls0.products[j]) && NamedKey(ls0.products[j]) !in ls0.tmp.value
    requires forall k :: 0 <= k < j && HasName(ls0.products[k]) ==> NamedKey(ls0.products[k]) != NamedKey(ls0.products[j])
    ensures LoopUpTo(web, ls0, j).Next?
    ensures !Visit(web, LoopUpTo(web, ls0, j).state, j).Skipped?
  {
    LoopTracks(web, ls0, j);
    var s := LoopUpTo(web, ls0, j).state;
    assert s.products[j] == ls0.products[j];
    assert NamedKey(ls0.products[j]) !in s.tmp.value;
  }

  /** A named product is extracted again when no checkpoint of its name
      exists and no product before it carries a name with the same
      checkpoint name. */
  lemma PassRevisits(a: PassArgs, w: World, j: nat)
    requires w.scraper.tmp.Some? && j < |w.products|
    requires HasName(w.products[j]) && NamedKey(w.products[j]) !in w.scraper.tmp.value
    requires forall k :: 0 <= k < j && HasName(w.products[k]) ==> NamedKey(w.products[k]) != NamedKey(w.products[j])
    ensures |PassFates(a, w)| == |w.products| && !PassFates(a, w)[j].Skipped?
  {
    VisitRevisits(a.web, Start(w), j);
    PassLoopGoesOn(a, w);
    FateStays(a.web, Start(w), j, |w.products|);
  }

  /** While the directory exists a pass's loop runs to its end. */
  lemma PassLoopGoesOn(a: PassArgs, w: World)
    requires w.scraper.tmp.Some?
    ensures LoopUpTo(a.web, Start(w), |w.products|).Next?
  {
    LoopTracks(a.web, Start(w), |w.products|);
  }

  /** The end of a pass draws no random id and either removes the directory
      or leaves it as the loop left it. */
  lemma FinishKeepsIds(a: PassArgs, s: Scraper, ledger: Ledger)
    ensures var s' := Finish(a, s, ledger).1;
      s'.nextUuid == s.nextUuid && (s'.tmp.None? || s'.tmp == s.tmp)
  {
    if s.tmp.Some? {
      var parsed := Bag(s.tmp.value);
      var s1 := s.(output := Some(parsed));
      var s' := Report(a, s1, ledger).1;
      assert s'.nextUuid == s.nextUuid && (s'.tmp.None? || s'.tmp == s.tmp);
    }
  }

  /** A pass keeps the random ids fresh. */
  lemma PassKeepsFresh(a: PassArgs, w: World)
    requires Fresh(w.scraper)
    ensures Fresh(Pass(a, w).1.scraper)
  {
    if w.scraper.tmp.Some? {
      PassTracks(a, w);
      assert FreshLoop(Start(w));
      FinishKeepsIds(a, Settle(w, PassLoop(a, w)).scraper, PassLoop(a, w).ledger);
    } else {
      LoopWithoutDir(a.web, Start(w), |w.products|);
    }
  }

  /** A pass over a removed directory raises `FileNotFoundError`, whether
      from writing a record or from listing the directory afterwards, and
      writes neither an output nor a log. */
  lemma PassWithoutDir(a: PassArgs, w: World)
    requires w.scraper.tmp.None?
    ensures var (r, w') := Pass(a, w);
      && r == Err(FileNotFound)
      && w'.scraper.tmp.None?
      && w'.scraper.output == w.scraper.output
      && w'.scraper.logs == w.scraper.logs
  {
    LoopWithoutDir(a.web, Start(w), |w.products|);
  }

  /** Some product failed. */
  predicate AnyFailed(fs: seq<Fate>)
  {
    exists j :: 0 <= j < |fs| && fs[j].Failed?
  }

  /** The ledger is empty exactly when no product failed. */
  lemma LedgerEmpty(fs: seq<Fate>)
    ensures LedgerOf(fs) == map[] <==> !AnyFailed(fs)
  {
    LedgerOfContract(fs);
    if AnyFailed(fs) {
      var j :| 0 <= j < |fs| && fs[j].Failed?;
      assert fs[j].product.name in LedgerOf(fs);
    }
  }

  /** What a pass over an existing directory reads back: every record that
      was there when it started and every record it wrote. When a record
      lacks a price or a price is not numeric the pass raises that error and
      writes no output. */
  lemma PassOutput(a: PassArgs, w: World)
    requires w.scraper.tmp.Some?
    ensures var ls := PassLoop(a, w);
      var parsed := Bag(w.scraper.tmp.value) + StoredRecords(ls.fates);
      var (r, w') := Pass(a, w);
      && |ls.fates| == |w.products|
      && w'.products == ls.products
      && w'.scraper.pagesOpened == w.scraper.pagesOpened + Opened(ls.fates)
      && (PriceCheck(a.numeric, parsed).Err? ==>
            && r == PriceCheck(a.numeric, parsed)
            && w'.scraper.output == w.scraper.output
            && w'.scraper.logs == w.scraper.logs
            && w'.scraper.tmp == ls.tmp)
      && (PriceCheck(a.numeric, parsed).Ok? ==> w'.scraper.output == Some(parsed))
  {
    PassTracks(a, w);
  }

  /** How a pass over an existing directory ends once the output is written.
      If any product failed, the log of failures is written, the directory is
      removed only when forced, and the pass raises the aggregate failure
      with the number of distinct failed names. Otherwise no log is written
      and the unforced cleanup of `auto_remove` runs; it raises only when no
      scan recorded a product count. */
  lemma PassOutcome(a: PassArgs, w: World)
    requires w.scraper.tmp.Some?
    requires PriceCheck(a.numeric, Bag(w.scraper.tmp.value) + StoredRecords(PassFates(a, w))).Ok?
    ensures var ls := PassLoop(a, w);
      var (r, w') := Pass(a, w);
      && (AnyFailed(ls.fates) ==>
            && r == Err(ScrapingFailed(|LedgerOf(ls.fates)|))
            && w'.scraper.logs == w.scraper.logs + [LedgerOf(ls.fates)]
            && w'.scraper.tmp == (if a.forceRemove then None else ls.tmp))
      && (!AnyFailed(ls.fates) ==>
            && w'.scraper.logs == w.scraper.logs
            && (r.Ok? <==> !a.autoRemove || w.scraper.nProducts.Some?)
            && (r.Err? ==> r == Err(NoProductCount))
            && w'.scraper.tmp == (if a.autoRemove && w.scraper.nProducts.Some?
                                    && CleanupRemoves(|ls.tmp.value|, false, w.scraper.nProducts.value)
                                  then None else ls.tmp))
  {
    PassTracks(a, w);
    LedgerEmpty(PassFates(a, w));
  }

  /** The aggregate failure is the only exception of a pass the decorator
      retries; a pass over an existing directory raises it exactly when the
      output was written and some product failed. */
  lemma PassRetried(a: PassArgs, w: World)
    requires w.scraper.tmp.Some?
    ensures var ls := PassLoop(a, w);
      Retries(PassRetry, Pass(a, w).0) <==>
        PriceCheck(a.numeric, Bag(w.scraper.tmp.value) + StoredRecords(ls.fates)).Ok? && AnyFailed(ls.fates)
  {
    PassOutput(a, w);
    var ls := PassLoop(a, w);
    if PriceCheck(a.numeric, Bag(w.scraper.tmp.value) + StoredRecords(ls.fates)).Ok? {
      PassOutcome(a, w);
    }
  }

  // ---------------------------------------------------------------------
  // Two passes under the decorator.

  /** `retry(exceptions = ScrapingException, n_tries = 2)` around a pass: a
      pass that does not raise the aggregate failure is the whole run;
      otherwise the decorator sleeps one second and runs a second pass from
      the state the first left, and that pass's outcome is the run's, with
      one more second of sleep when it fails the same way. */
  lemma PassRetryComposition(a: PassArgs, w: World)
    ensures var (r1, w1) := Pass(a, w);
      var e := RetrySpec(PassRetry, PassOp(a), w);
      && (!Retries(PassRetry, r1) ==> e == Execution(r1, w1, 1, []))
      && (Retries(PassRetry, r1) ==>
            var (r2, w2) := Pass(a, w1);
            e == Execution(r2, w2, 2, if Retries(PassRetry, r2) then [1, 1] else [1]))
  {
    var (r1, w1) := Pass(a, w);
    assert PassOp(a)(w) == (r1, w1);
    assert SleepTime(PassRetry, 1) == 1 && SleepTime(PassRetry, 2) == 1;
    RetryFromStep(PassRetry, PassOp(a), w, 1, Unbound, r1, w1);
    if Retries(PassRetry, r1) {
      var (r2, w2) := Pass(a, w1);
      assert PassOp(a)(w1) == (r2, w2);
      RetryFromStep(PassRetry, PassOp(a), w1, 2, r1.error, r2, w2);
    }
  }

  /** With `force_remove`, a first pass that fails on some product removes the
      directory before raising, so the retried pass cannot write or list it:
      the run ends in `FileNotFoundError` instead of the aggregate failure. */
  lemma ForcedRemovalDefeatsRetry(a: PassArgs, w: World)
    requires w.scraper.tmp.Some? && a.forceRemove
    requires Retries(PassRetry, Pass(a, w).0)
    ensures var e := RetrySpec(PassRetry, PassOp(a), w);
      e.result == Err(FileNotFound) && e.calls == 2 && e.sleeps == [1]
  {
    PassRetried(a, w);
    PassOutcome(a, w);
    PassWithoutDir(a, Pass(a, w).1);
    PassRetryComposition(a, w);
  }

  /** Resuming: when the first pass raises the aggregate failure and cleanup
      is not forced, the second pass skips every product that the first
      checkpointed (or found checkpointed) under the key its current name
      gives. */
  lemma ResumeSkipsCheckpointed(a: PassArgs, w: World, j: nat)
    requires w.scraper.tmp.Some? && !a.forceRemove
    requires Retries(PassRetry, Pass(a, w).0)
    requires j < |PassFates(a, w)| && j < |Pass(a, w).1.products|
    requires var f := PassFates(a, w)[j]; var q := Pass(a, w).1.products[j];
      !f.Failed? && HasName(q) && NamedKey(q) == f.key
    ensures var w1 := Pass(a, w).1;
      && |PassFates(a, w1)| == |w1.products|
      && PassFates(a, w1)[j] == Skipped(PassFates(a, w)[j].key)
  {
    PassRetried(a, w);
    PassOutcome(a, w);
    PassTracks(a, w);
    PassSkipsCheckpointed(a, Pass(a, w).1, j);
  }

  /** A product listed without a name is checkpointed under a random id; the
      page title then becomes its name, so if the first pass raises the
      aggregate failure, the second pass does not find that checkpoint and
      opens the product's page again (as long as no checkpoint and no earlier
      product carry the title's checkpoint name). */
  lemma ResumeRevisitsRenamed(a: PassArgs, w: World, j: nat)
    requires w.scraper.tmp.Some? && !a.forceRemove
    requires Retries(PassRetry, Pass(a, w).0)
    requires j < |w.products| && !HasName(w.products[j])
    requires j < |PassFates(a, w)| && PassFates(a, w)[j].Stored?
    requires var w1 := Pass(a, w).1;
      && j < |w1.products| && w1.scraper.tmp.Some?
      && HasName(w1.products[j]) && NamedKey(w1.products[j]) !in w1.scraper.tmp.value
      && forall k :: 0 <= k < j && HasName(w1.products[k]) ==> NamedKey(w1.products[k]) != NamedKey(w1.products[j])
    ensures var w1 := Pass(a, w).1;
      && PassFates(a, w)[j].key.Uuid? && PassFates(a, w)[j].key in w1.scraper.tmp.value
      && |PassFates(a, w1)| == |w1.products|
      && !PassFates(a, w1)[j].Skipped?
  {
    PassRetried(a, w);
    PassOutcome(a, w);
    PassTracks(a, w);
    PassRevisits(a, Pass(a, w).1, j);
  }

  /** Random ids stay fresh across the retry: when the first pass raises the
      aggregate failure and cleanup is not forced, a product that still has no
      name is opened again by the second pass, never skipped. */
  lemma ResumeNeverSkipsUnnamed(a: PassArgs, w: World, j: nat)
    requires w.scraper.tmp.Some? && Fresh(w.scraper) && !a.forceRemove
    requires Retries(PassRetry, Pass(a, w).0)
    requires j < |Pass(a, w).1.products| && !HasName(Pass(a, w).1.products[j])
    ensures var w1 := Pass(a, w).1;
      && w1.scraper.tmp.Some? && Fresh(w1.scraper)
      && |PassFates(a, w1)| == |w1.products| && !PassFates(a, w1)[j].Skipped?
  {
    PassRetried(a, w);
    PassOutcome(a, w);
    PassTracks(a, w);
    PassKeepsFresh(a, w);
    PassNeverSkipsUnnamed(a, Pass(a, w).1, j);
  }

  /** The checkpoint name comes from the listing text in the first pass but
      from the page title in the second, since extraction renames the
      product. A product the first pass stored, whose title gives a checkpoint
      name not yet taken, is extracted again by the retried pass and written
      to a second file; when that succeeds both records are read back, so the
      output holds the product twice. */
  lemma ResumeReadsRenamedTwice(a: PassArgs, w: World, j: nat)
    requires w.scraper.tmp.Some? && !a.forceRemove
    requires Retries(PassRetry, Pass(a, w).0)
    requires j < |PassFates(a, w)| && PassFates(a, w)[j].Stored?
    requires var w1 := Pass(a, w).1;
      && j < |w1.products| && w1.scraper.tmp.Some?
      && HasName(w1.products[j]) && NamedKey(w1.products[j]) !in w1.scraper.tmp.value
      && forall k :: 0 <= k < j && HasName(w1.products[k]) ==> NamedKey(w1.products[k]) != NamedKey(w1.products[j])
    requires j < |PassFates(a, Pass(a, w).1)| && PassFates(a, Pass(a, w).1)[j].Stored?
    ensures var w1 := Pass(a, w).1;
      var f1, f2 := PassFates(a, w)[j], PassFates(a, w1)[j];
      && f1.key in w1.scraper.tmp.value && w1.scraper.tmp.value[f1.key] == f1.record
      && f2.key == NamedKey(w1.products[j]) && f2.key != f1.key
      && (PriceCheck(a.numeric, Bag(w1.scraper.tmp.value) + StoredRecords(PassFates(a, w1))).Ok? ==>
            && Pass(a, w1).1.scraper.output.Some?
            && multiset{f1.record, f2.record} <= Pass(a, w1).1.scraper.output.value)
  {
    RetriedKeepsStored(a, w, j);
    var w1 := Pass(a, w).1;
    PassKeyOfNamed(a, w1, j);
    if PriceCheck(a.numeric, Bag(w1.scraper.tmp.value) + StoredRecords(PassFates(a, w1))).Ok? {
      PassReadsBoth(a, w1, PassFates(a, w)[j].key, j);
    }
  }

  /** A record the first pass stored is still in the directory the retried
      pass starts from. */
  lemma RetriedKeepsStored(a: PassArgs, w: World, j: nat)
    requires w.scraper.tmp.Some? && !a.forceRemove
    requires Retries(PassRetry, Pass(a, w).0)
    requires j < |PassFates(a, w)| && PassFates(a, w)[j].Stored?
    ensures var (w1, f1) := (Pass(a, w).1, PassFates(a, w)[j]);
      w1.scraper.tmp.Some? && f1.key in w1.scraper.tmp.value && w1.scraper.tmp.value[f1.key] == f1.record
  {
    PassRetried(a, w);
    PassOutcome(a, w);
    PassTracks(a, w);
  }

  /** A named product's fate in a pass carries the key its name gives. */
  lemma PassKeyOfNamed(a: PassArgs, w: World, j: nat)
    requires w.scraper.tmp.Some? && j < |w.products| && HasName(w.products[j])
    ensures |PassFates(a, w)| == |w.products| && PassFates(a, w)[j].key == NamedKey(w.products[j])
  {
    PassTracks(a, w);
    assert Start(w).products[j] == w.products[j];
  }

  /** When its output is written, a pass reads back a record already in the
      directory and, beside it, every record it stores. */
  lemma PassReadsBoth(a: PassArgs, w: World, k: Key, j: nat)
    requires w.scraper.tmp.Some? && k in w.scraper.tmp.value
    requires j < |PassFates(a, w)| && PassFates(a, w)[j].Stored?
    requires PriceCheck(a.numeric, Bag(w.scraper.tmp.value) + StoredRecords(PassFates(a, w))).Ok?
    ensures var out := Pass(a, w).1.scraper.output;
      out.Some? && multiset{w.scraper.tmp.value[k], PassFates(a, w)[j].record} <= out.value
  {
    PassOutput(a, w);
    BagRemove(w.scraper.tmp.value, k);
    StoredRecordsHold(PassFates(a, w), j);
  }
}
