/** The string logic of src/_scraper.py: the checkpoint name derived from a
    product name (`re.sub(r'[\W]+', '_', name).lower()`), the split of a price
    string against `(\D)(\d+\.\d{2})` with its fallback, and the first line of
    a description. */
module Fields {
  import opened Outcomes

  /** `\d`: a decimal digit. */
  predicate IsDigit(c: char)
  {
    '0' <= c <= '9'
  }

  /** `\w`: a letter, a digit or `_`. Exact for the first 256 code points;
      above them every character counts as a word character except the
      General Punctuation block (dashes, quotes, special spaces). */
  predicate IsWordChar(c: char)
  {
    || 'a' <= c <= 'z' || 'A' <= c <= 'Z' || IsDigit(c) || c == '_'
    || c == '\U{AA}' || c == '\U{B2}' || c == '\U{B3}' || c == '\U{B5}'
    || c == '\U{B9}' || c == '\U{BA}' || '\U{BC}' <= c <= '\U{BE}'
    || ('\U{C0}' <= c <= '\U{FF}' && c != '\U{D7}' && c != '\U{F7}')
    || ('\U{FF}' < c && !('\U{2000}' <= c <= '\U{206F}'))
  }

  predicate AllWord(s: string)
  {
    forall i :: 0 <= i < |s| ==> IsWordChar(s[i])
  }

  /** `str.lower` on one character: the upper-case letters of the first 256
      code points become lower case; every other character is kept. */
  predicate IsUpper(c: char)
  {
    'A' <= c <= 'Z' || ('\U{C0}' <= c <= '\U{DE}' && c != '\U{D7}')
  }

  function LowerChar(c: char): (d: char)
    ensures IsWordChar(d) <==> IsWordChar(c)
    ensures !IsUpper(d) && (!IsUpper(c) ==> d == c)
  {
    if IsUpper(c) then (c as int + 32) as char else c
  }

  function Lower(s: string): string
  {
    if s == [] then [] else [LowerChar(s[0])] + Lower(s[1..])
  }

  /** `Lower` maps each character on its own and keeps the length. */
  lemma {:induction false} LowerShape(s: string)
    ensures |Lower(s)| == |s|
    ensures forall i :: 0 <= i < |s| ==> Lower(s)[i] == LowerChar(s[i])
  {
    if s != [] {
      LowerShape(s[1..]);
    }
  }

  // ---------------------------------------------------------------------
  // `re.sub(r'[\W]+', '_', s)`

  /** The substitution scanned left to right: a word character is copied, the
      first character of a run of non-word characters becomes `_`, and the
      rest of the run is dropped. `inRun` says the previous character was a
      non-word character. */
  function CollapseFrom(s: string, inRun: bool): (r: string)
    ensures AllWord(r)
    ensures |r| <= |s|
  {
    if s == [] then []
    else if IsWordChar(s[0]) then [s[0]] + CollapseFrom(s[1..], false)
    else if inRun then CollapseFrom(s[1..], true)
    else "_" + CollapseFrom(s[1..], true)
  }

  /** Every maximal run of non-word characters replaced by one `_`. */
  function Collapse(s: string): string
  {
    CollapseFrom(s, false)
  }

  /** The checkpoint file name (without `.json`) of a non-empty product name. */
  function CheckpointName(name: string): string
  {
    Lower(Collapse(name))
  }

  lemma {:induction false} CollapseKeepsWords(s: string, inRun: bool)
    requires AllWord(s)
    ensures CollapseFrom(s, inRun) == s
  {
    if s != [] {
      CollapseKeepsWords(s[1..], false);
    }
  }

  /** Nothing but the empty string collapses to the empty string. */
  lemma CollapseEmpty(s: string)
    ensures Collapse(s) == [] <==> s == []
  {
  }

  /** Collapsing distributes over a cut that follows a word character. */
  lemma {:induction false} CollapseAppend(u: string, x: string, inRun: bool)
    requires if u == [] then !inRun else IsWordChar(u[|u| - 1])
    ensures CollapseFrom(u + x, inRun) == CollapseFrom(u, inRun) + CollapseFrom(x, false)
    decreases |u|
  {
    if u == [] {
      assert u + x == x;
    } else {
      assert (u + x)[0] == u[0] && (u + x)[1..] == u[1..] + x;
      var w := IsWordChar(u[0]);
      assert u[1..] == [] ==> w;
      assert u[1..] != [] ==> u[1..][|u| - 2] == u[|u| - 1];
      if w {
        CollapseAppend(u[1..], x, false);
      } else {
        CollapseAppend(u[1..], x, true);
      }
    }
  }

  /** A run of non-word characters collapses to one `_`, or to nothing when
      it continues a run. */
  lemma {:induction false} CollapseRunFrom(run: string, v: string, inRun: bool)
    requires forall i :: 0 <= i < |run| ==> !IsWordChar(run[i])
    requires v == [] || IsWordChar(v[0])
    ensures CollapseFrom(run + v, inRun) == (if inRun || run == [] then [] else "_") + Collapse(v)
  {
    if run == [] {
      assert run + v == v;
      if v != [] {
        assert CollapseFrom(v, inRun) == [v[0]] + CollapseFrom(v[1..], false);
      }
    } else {
      assert (run + v)[0] == run[0] && (run + v)[1..] == run[1..] + v;
      CollapseRunFrom(run[1..], v, true);
    }
  }

  /** One maximal run of non-word characters, between a word character (or
      the start) and a word character (or the end), becomes exactly one `_`. */
  lemma CollapseRun(u: string, run: string, v: string)
    requires u == [] || IsWordChar(u[|u| - 1])
    requires run != [] && forall i :: 0 <= i < |run| ==> !IsWordChar(run[i])
    requires v == [] || IsWordChar(v[0])
    ensures Collapse(u + run + v) == Collapse(u) + "_" + Collapse(v)
  {
    assert u + run + v == u + (run + v);
    CollapseAppend(u, run + v, false);
    CollapseRunFrom(run, v, false);
  }

  lemma {:induction false} CollapseLower(s: string, inRun: bool)
    ensures CollapseFrom(Lower(s), inRun) == Lower(CollapseFrom(s, inRun))
  {
    if s != [] {
      var l := Lower(s);
      assert l[0] == LowerChar(s[0]) && l[1..] == Lower(s[1..]);
      if IsWordChar(s[0]) {
        CollapseLower(s[1..], false);
        assert Lower([s[0]] + CollapseFrom(s[1..], false)) == [LowerChar(s[0])] + Lower(CollapseFrom(s[1..], false));
      } else if inRun {
        CollapseLower(s[1..], true);
      } else {
        CollapseLower(s[1..], true);
        assert Lower("_" + CollapseFrom(s[1..], true)) == "_" + Lower(CollapseFrom(s[1..], true));
      }
    }
  }

  /** `str.lower` is idempotent. */
  lemma {:induction false} LowerTwice(s: string)
    ensures Lower(Lower(s)) == Lower(s)
  {
    if s != [] {
      LowerTwice(s[1..]);
    }
  }

  /** Names that differ only in case share a checkpoint. */
  lemma CaseInsensitive(a: string, b: string)
    requires Lower(a) == Lower(b)
    ensures CheckpointName(a) == CheckpointName(b)
  {
    CollapseLower(a, false);
    CollapseLower(b, false);
  }

  /** A checkpoint name is its own checkpoint name. */
  lemma CheckpointNameIdempotent(name: string)
    ensures CheckpointName(CheckpointName(name)) == CheckpointName(name)
  {
    var c := Collapse(name);
    LowerShape(c);
    assert AllWord(Lower(c));
    CollapseKeepsWords(Lower(c), false);
    LowerTwice(c);
  }

  lemma {:induction false} LowerAppend(a: string, b: string)
    ensures Lower(a + b) == Lower(a) + Lower(b)
  {
    if a == [] {
      assert a + b == b;
    } else {
      assert (a + b)[0] == a[0] && (a + b)[1..] == a[1..] + b;
      LowerAppend(a[1..], b);
    }
  }

  /** Trailing punctuation is not dropped: it adds one `_` to the checkpoint
      name, so `Deep Sleep!!` and `Deep Sleep` get different checkpoints. */
  lemma TrailingRunAddsUnderscore(name: string, run: string)
    requires name != [] && IsWordChar(name[|name| - 1])
    requires run != [] && forall i :: 0 <= i < |run| ==> !IsWordChar(run[i])
    ensures CheckpointName(name + run) == CheckpointName(name) + "_"
  {
    assert name + run + [] == name + run;
    CollapseRun(name, run, []);
    assert Collapse([]) == [];
    assert Collapse(name + run) == Collapse(name) + "_";
    LowerAppend(Collapse(name), "_");
    assert Lower("_") == "_";
  }

  /** A non-empty name has a non-empty checkpoint name made of word characters only. */
  lemma CheckpointNameShape(name: string)
    requires name != []
    ensures var k := CheckpointName(name); k != [] && AllWord(k)
  {
    CollapseEmpty(name);
    LowerShape(Collapse(name));
  }

  // ---------------------------------------------------------------------
  // Price strings.

  const IndexOutOfRange := Error("IndexError", "string index out of range")

  /** The length of the run of digits of `s` that starts at `i`. */
  function DigitRun(s: string, i: nat): (k: nat)
    requires i <= |s|
    ensures i + k <= |s|
    ensures forall j :: i <= j < i + k ==> IsDigit(s[j])
    ensures i + k == |s| || !IsDigit(s[i + k])
    decreases |s| - i
  {
    if i < |s| && IsDigit(s[i]) then 1 + DigitRun(s, i + 1) else 0
  }

  /** `PRICE_STR_PATTERN.match(s)` succeeds: a non-digit, digits, `.`, two
      digits, at the start of `s`. */
  predicate PriceMatches(s: string)
  {
    && |s| >= 1 && !IsDigit(s[0])
    && var k := DigitRun(s, 1);
       k >= 1 && k + 4 <= |s| && s[k + 1] == '.' && IsDigit(s[k + 2]) && IsDigit(s[k + 3])
  }

  /** An amount of the pattern's second group: digits, `.`, two digits. */
  predicate IsAmount(p: string)
  {
    && |p| >= 4 && p[|p| - 3] == '.'
    && forall j :: 0 <= j < |p| && j != |p| - 3 ==> IsDigit(p[j])
  }

  /** `(price_unit, price)`: the two groups of the pattern when it matches;
      otherwise `price_str[0]` and `price_str[1:]`, where an empty string
      raises `IndexError`. */
  function SplitPrice(s: string): Attempt<(string, string)>
  {
    if PriceMatches(s) then Ok((s[..1], s[1..DigitRun(s, 1) + 4]))
    else if s == [] then Err(IndexOutOfRange)
    else Ok((s[..1], s[1..]))
  }

  /** What a split gives: an error exactly for the empty string; otherwise a
      one-character unit that starts `s`, followed in `s` by the price; when
      the pattern matches the price is an amount and anything after it is
      dropped, when it does not the price is all the rest of `s`. */
  lemma SplitPriceShape(s: string)
    ensures SplitPrice(s).Err? <==> s == []
    ensures SplitPrice(s).Err? ==> SplitPrice(s).error == IndexOutOfRange
    ensures SplitPrice(s).Ok? ==>
      var (unit, price) := SplitPrice(s).value;
      && unit == s[..1]
      && unit + price <= s
      && (PriceMatches(s) ==> IsAmount(price))
      && (!PriceMatches(s) ==> unit + price == s)
  {
    if PriceMatches(s) {
      var k := DigitRun(s, 1);
      var price := s[1..k + 4];
      assert forall j :: 0 <= j < k ==> price[j] == s[j + 1];
      assert s[..1] + price == s[..k + 4];
    }
  }

  /** A string of the pattern's shape splits into its first character and its
      amount, whatever follows. */
  lemma SplitPriceMatched(c: char, digits: string, cents: string, tail: string)
    requires !IsDigit(c)
    requires digits != [] && forall j :: 0 <= j < |digits| ==> IsDigit(digits[j])
    requires |cents| == 2 && IsDigit(cents[0]) && IsDigit(cents[1])
    ensures SplitPrice([c] + digits + "." + cents + tail) == Ok(([c], digits + "." + cents))
  {
    var s := [c] + digits + "." + cents + tail;
    var n := |digits|;
    assert forall j :: 1 <= j <= n ==> s[j] == digits[j - 1];
    assert s[n + 1] == '.' && s[n + 2] == cents[0] && s[n + 3] == cents[1];
    var k := DigitRun(s, 1);
    assert !IsDigit(s[n + 1]);
    assert k == n;
    assert !IsDigit(s[0]) && k + 4 <= |s|;
    assert PriceMatches(s);
    assert s[..1] == [c];
    assert s[1..n + 4] == digits + "." + cents;
  }

  /** A pound price splits at its sign; a string the pattern does not match
      splits after its first character. */
  lemma SplitPriceExamples()
    ensures SplitPrice("\U{A3}12.99") == Ok(("\U{A3}", "12.99"))
    ensures SplitPrice("N/A") == Ok(("N", "/A"))
  {
    var digits := "12";
    assert IsDigit(digits[0]) && IsDigit(digits[1]);
    SplitPriceMatched('\U{A3}', digits, "99", "");
    assert "\U{A3}12.99" == ['\U{A3}'] + digits + "." + "99" + "";
    assert digits + "." + "99" == "12.99" && ['\U{A3}'] == "\U{A3}";
    var na := "N/A";
    assert DigitRun(na, 1) == 0;
    assert !PriceMatches(na);
    assert na[..1] == "N" && na[1..] == "/A";
  }

  // ---------------------------------------------------------------------
  // Descriptions.

  /** `text.split('\n')[0]`: the text before the first line break. */
  function FirstLine(t: string): (r: string)
    ensures r <= t && '\n' !in r
    ensures |r| < |t| ==> t[|r|] == '\n'
  {
    if t == [] || t[0] == '\n' then [] else [t[0]] + FirstLine(t[1..])
  }
}
