/** The batch pipeline of `loadContractsData` (src/App.tsx): the text of a contracts file
    is split into lines, each line trimmed, blank lines dropped and malformed ones
    skipped; the contracts are grouped by ticker, the tickers sorted, each group passed
    through the expiration filter, and empty groups left out. */
module ContractLoader {
  import opened Wrappers
  import opened ContractSymbol
  import opened ChartSeries

  // ---------------------------------------------------------------------------
  // Lines

  /** `text.split("\n")`: the pieces between line feeds; an empty text is one empty line. */
  function SplitLines(text: string): (lines: seq<string>)
    ensures |lines| >= 1
    ensures forall i :: 0 <= i < |lines| ==> '\n' !in lines[i]
  {
    if text == [] then [""]
    else
      var rest := SplitLines(text[1..]);
      if text[0] == '\n' then [""] + rest
      else [[text[0]] + rest[0]] + rest[1..]
  }

  /** The lines glued back together with line feeds. */
  function JoinLines(lines: seq<string>): string
    requires |lines| >= 1
  {
    if |lines| == 1 then lines[0] else lines[0] + "\n" + JoinLines(lines[1..])
  }

  /** Splitting loses nothing: joining the lines gives the text back. */
  lemma {:induction false} JoinSplitLines(text: string)
    ensures JoinLines(SplitLines(text)) == text
  {
    if text != [] {
      var rest := SplitLines(text[1..]);
      JoinSplitLines(text[1..]);
      if text[0] == '\n' {
        assert text == "\n" + text[1..];
      } else if |rest| == 1 {
        assert text == [text[0]] + rest[0];
      } else {
        assert rest == [rest[0]] + rest[1..];
        assert JoinLines(rest) == rest[0] + "\n" + JoinLines(rest[1..]);
        var lines := SplitLines(text);
        assert lines[1..] == rest[1..];
        assert text == [text[0]] + rest[0] + "\n" + JoinLines(rest[1..]);
      }
    }
  }

  /** The characters `String.prototype.trim` removes: the white-space code points and
      the line terminators of ECMAScript. */
  predicate IsJsSpace(c: char) {
    var n := c as int;
    || 0x09 <= n <= 0x0D || n == 0x20 || n == 0xA0 || n == 0x1680
    || 0x2000 <= n <= 0x200A || n == 0x2028 || n == 0x2029 || n == 0x202F
    || n == 0x205F || n == 0x3000 || n == 0xFEFF
  }

  predicate AllSpace(s: string) {
    forall i :: 0 <= i < |s| ==> IsJsSpace(s[i])
  }

  /** Number of leading white-space characters. */
  function LeadingSpace(s: string): (k: nat)
    ensures k <= |s| && AllSpace(s[..k])
    ensures k < |s| ==> !IsJsSpace(s[k])
  {
    if s == [] || !IsJsSpace(s[0]) then 0
    else
      var k := 1 + LeadingSpace(s[1..]);
      assert forall i :: 1 <= i < k ==> s[..k][i] == s[1..][..k - 1][i - 1];
      k
  }

  /** Where the trailing white space starts. */
  function TrailingSpaceStart(s: string): (k: nat)
    ensures k <= |s| && AllSpace(s[k..])
    ensures k > 0 ==> !IsJsSpace(s[k - 1])
  {
    if s == [] || !IsJsSpace(s[|s| - 1]) then |s|
    else
      var k := TrailingSpaceStart(s[..|s| - 1]);
      assert forall i :: k <= i < |s| - 1 ==> s[i] == s[..|s| - 1][i];
      k
  }

  /** `s.trim()`. */
  function Trim(s: string): (r: string)
    ensures exists a, b :: 0 <= a <= b <= |s| && r == s[a..b] && AllSpace(s[..a]) && AllSpace(s[b..])
    ensures |r| > 0 ==> !IsJsSpace(r[0]) && !IsJsSpace(r[|r| - 1])
    ensures r == [] <==> AllSpace(s)
  {
    var a := LeadingSpace(s);
    if a == |s| then
      assert s[..a] == s && s[a..] == [];
      ""
    else
      var b := TrailingSpaceStart(s);
      assert !AllSpace(s) by { assert !IsJsSpace(s[a]); }
      s[a..b]
  }

  /** Trimming twice is trimming once. */
  lemma TrimIdempotent(s: string)
    ensures Trim(Trim(s)) == Trim(s)
  {
    var r := Trim(s);
    if r != [] {
      assert LeadingSpace(r) == 0;
      assert TrailingSpaceStart(r) == |r|;
    }
  }

  predicate NonBlank(line: string) { |line| > 0 }

  /** `.map(l => l.trim()).filter(Boolean)`: the trimmed lines that are not empty. */
  function TrimmedLines(text: string): (lines: seq<string>)
    ensures forall l :: l in lines ==> NonBlank(l) && exists raw :: raw in SplitLines(text) && l == Trim(raw)
    ensures forall raw :: raw in SplitLines(text) && !AllSpace(raw) ==> Trim(raw) in lines
  {
    var raw := SplitLines(text);
    var trimmed := seq(|raw|, i requires 0 <= i < |raw| => Trim(raw[i]));
    TrimmedFromRaw(raw, trimmed);
    Filter(trimmed, NonBlank)
  }

  /** The lines trimmed one by one are the trims of the raw lines, and all of them. */
  lemma TrimmedFromRaw(raw: seq<string>, trimmed: seq<string>)
    requires |trimmed| == |raw| && forall i :: 0 <= i < |raw| ==> trimmed[i] == Trim(raw[i])
    ensures forall l :: l in trimmed ==> exists r :: r in raw && l == Trim(r)
    ensures forall r :: r in raw ==> Trim(r) in trimmed
  {
    forall l | l in trimmed ensures exists r :: r in raw && l == Trim(r) {
      var i :| 0 <= i < |trimmed| && trimmed[i] == l;
      assert raw[i] in raw;
    }
    forall r | r in raw ensures Trim(r) in trimmed {
      var i :| 0 <= i < |raw| && raw[i] == r;
      assert trimmed[i] == Trim(r);
    }
  }

  // ---------------------------------------------------------------------------
  // Contracts of a file

  /** `.map(parseContractLine).filter(Boolean)`: the contracts of the lines that parse,
      in line order. */
  function ParseLines(lines: seq<string>): (cs: seq<Contract>)
    ensures |cs| <= |lines|
  {
    if lines == [] then []
    else
      match ParseContractLine(lines[0])
      case Some(c) => [c] + ParseLines(lines[1..])
      case None => ParseLines(lines[1..])
  }

  /** A contract is parsed from a batch exactly when one of its lines parses to it. */
  lemma {:induction false} ParseLinesMembers(lines: seq<string>)
    ensures forall c :: c in ParseLines(lines) <==> exists l :: l in lines && ParseContractLine(l) == Some(c)
  {
    if lines != [] {
      ParseLinesMembers(lines[1..]);
      assert forall l :: l in lines <==> l == lines[0] || l in lines[1..];
    }
  }

  /** Parsing a batch is parsing its parts one after the other. */
  lemma {:induction false} ParseLinesAppend(a: seq<string>, b: seq<string>)
    ensures ParseLines(a + b) == ParseLines(a) + ParseLines(b)
  {
    if a != [] {
      assert (a + b)[1..] == a[1..] + b;
      ParseLinesAppend(a[1..], b);
    } else {
      assert a + b == b;
    }
  }

  /** A malformed line is skipped: the lines around it are parsed as if it were absent. */
  lemma MalformedLineSkipped(before: seq<string>, bad: string, after: seq<string>)
    requires ParseContractLine(bad).None?
    ensures ParseLines(before + [bad] + after) == ParseLines(before) + ParseLines(after)
  {
    var head := ParseLines(before + [bad]);
    assert head == ParseLines(before) by {
      ParseLinesAppend(before, [bad]);
      assert ParseLines([bad]) == [];
    }
    ParseLinesAppend(before + [bad], after);
  }

  /** The contracts of a file: its trimmed, non-blank lines that parse. */
  function FileContracts(text: string): seq<Contract> {
    ParseLines(TrimmedLines(text))
  }

  /** A contract comes from the file exactly when some line of it, trimmed, parses to it. */
  lemma FileContractsFromLines(text: string)
    ensures forall c :: c in FileContracts(text) <==>
      exists raw :: raw in SplitLines(text) && ParseContractLine(Trim(raw)) == Some(c)
  {
    ParseLinesMembers(TrimmedLines(text));
    forall c | c in FileContracts(text)
      ensures exists raw :: raw in SplitLines(text) && ParseContractLine(Trim(raw)) == Some(c)
    {
      var l :| l in TrimmedLines(text) && ParseContractLine(l) == Some(c);
    }
    forall c | exists raw :: raw in SplitLines(text) && ParseContractLine(Trim(raw)) == Some(c)
      ensures c in FileContracts(text)
    {
      var raw :| raw in SplitLines(text) && ParseContractLine(Trim(raw)) == Some(c);
      assert !AllSpace(raw);
      assert Trim(raw) in TrimmedLines(text);
    }
  }

  // ---------------------------------------------------------------------------
  // Ticker order

  /** Lexicographic order on strings, which is the order `localeCompare` gives for the
      upper-case ASCII tickers the parser accepts. */
  predicate LexLess(a: string, b: string) {
    if |a| == 0 then |b| > 0
    else if |b| == 0 then false
    else if a[0] != b[0] then a[0] < b[0]
    else LexLess(a[1..], b[1..])
  }

  lemma {:induction false} LexLessIrreflexive(a: string)
    ensures !LexLess(a, a)
  {
    if |a| > 0 {
      LexLessIrreflexive(a[1..]);
    }
  }

  lemma {:induction false} LexLessTransitive(a: string, b: string, c: string)
    requires LexLess(a, b) && LexLess(b, c)
    ensures LexLess(a, c)
  {
    if |a| > 0 && |b| > 0 && |c| > 0 && a[0] == b[0] && b[0] == c[0] {
      LexLessTransitive(a[1..], b[1..], c[1..]);
    }
  }

  lemma {:induction false} LexLessTotal(a: string, b: string)
    requires a != b
    ensures LexLess(a, b) || LexLess(b, a)
  {
    if |a| > 0 && |b| > 0 && a[0] == b[0] {
      assert a == [a[0]] + a[1..] && b == [b[0]] + b[1..];
      LexLessTotal(a[1..], b[1..]);
    }
  }

  predicate StrictlySorted(s: seq<string>) {
    forall i, j :: 0 <= i < j < |s| ==> LexLess(s[i], s[j])
  }

  predicate Distinct(s: seq<string>) {
    forall i, j :: 0 <= i < j < |s| ==> s[i] != s[j]
  }

  /** Inserts a new ticker into a sorted list of tickers. */
  function InsertTicker(x: string, s: seq<string>): (r: seq<string>)
    requires StrictlySorted(s) && x !in s
    ensures StrictlySorted(r)
    ensures multiset(r) == multiset(s) + multiset{x}
  {
    if s == [] then [x]
    else if LexLess(x, s[0]) then
      forall j | 0 < j < |s| ensures LexLess(x, s[j]) {
        LexLessTransitive(x, s[0], s[j]);
      }
      [x] + s
    else
      LexLessTotal(x, s[0]);
      var tail := InsertTicker(x, s[1..]);
      assert s == [s[0]] + s[1..];
      TickersAbove(s[0], x, s[1..], tail);
      [s[0]] + tail
  }

  /** Inserting a ticker ordered after `lo` into tickers ordered after `lo` keeps them all
      after `lo`. */
  lemma TickersAbove(lo: string, x: string, s: seq<string>, r: seq<string>)
    requires LexLess(lo, x) && forall k :: 0 <= k < |s| ==> LexLess(lo, s[k])
    requires multiset(r) == multiset(s) + multiset{x}
    ensures forall k :: 0 <= k < |r| ==> LexLess(lo, r[k])
  {
    forall k | 0 <= k < |r|
      ensures LexLess(lo, r[k])
    {
      assert r[k] in multiset(r);
      if r[k] != x {
        assert r[k] in multiset(s);
      }
    }
  }

  /** `.sort((a, b) => a.localeCompare(b))` on distinct tickers. */
  function SortTickers(s: seq<string>): (r: seq<string>)
    requires Distinct(s)
    ensures StrictlySorted(r)
    ensures multiset(r) == multiset(s)
  {
    if s == [] then []
    else
      var init := s[..|s| - 1];
      var sorted := SortTickers(init);
      assert s[|s| - 1] !in init;
      assert s[|s| - 1] !in multiset(init);
      assert s[|s| - 1] !in sorted;
      assert s == init + [s[|s| - 1]];
      InsertTicker(s[|s| - 1], sorted)
  }

  // ---------------------------------------------------------------------------
  // Grouping and filtering

  /** The contracts of one ticker, in input order. */
  function OfTicker(cs: seq<Contract>, ticker: string): seq<Contract> {
    Filter(cs, (c: Contract) => c.ticker == ticker)
  }

  /** The group a ticker gets after the expiration filter. */
  function FilteredGroup(cs: seq<Contract>, ticker: string, filter: string, daysOf: Contract -> int): seq<Contract> {
    FilterContracts(filter, OfTicker(cs, ticker), daysOf)
  }

  /** One entry of `filteredByTicker`. */
  datatype TickerGroup = TickerGroup(ticker: string, contracts: seq<Contract>)

  lemma OfTickerSnoc(cs: seq<Contract>, c: Contract, ticker: string)
    ensures OfTicker(cs + [c], ticker) == OfTicker(cs, ticker) + (if c.ticker == ticker then [c] else [])
  {
    FilterAppend(cs, [c], (x: Contract) => x.ticker == ticker);
  }

  lemma PrefixSnoc<T>(s: seq<T>, i: nat)
    requires i < |s|
    ensures s[..i + 1] == s[..i] + [s[i]]
  {
  }

  lemma PrefixWhole<T>(s: seq<T>)
    ensures s[..|s|] == s
  {
  }

  /** A ticker no contract carries has no contracts. */
  lemma {:induction false} OfTickerAbsent(cs: seq<Contract>, ticker: string)
    requires forall c :: c in cs ==> c.ticker != ticker
    ensures OfTicker(cs, ticker) == []
  {
    if cs != [] {
      assert forall c :: c in cs[1..] ==> c in cs;
      OfTickerAbsent(cs[1..], ticker);
    }
  }

  /** The tickers of a list of contracts. */
  function TickerSet(cs: seq<Contract>): set<string> {
    if cs == [] then {} else TickerSet(cs[..|cs| - 1]) + {cs[|cs| - 1].ticker}
  }

  lemma {:induction false} TickerSetMembers(cs: seq<Contract>)
    ensures forall t :: t in TickerSet(cs) <==> exists c :: c in cs && c.ticker == t
  {
    if cs != [] {
      var init := cs[..|cs| - 1];
      TickerSetMembers(init);
      assert cs == init + [cs[|cs| - 1]];
      assert forall c :: c in cs <==> c in init || c == cs[|cs| - 1];
    }
  }

  /** The tickers of `cs` in the order of their first occurrence, each listed once. */
  function FirstSeen(cs: seq<Contract>): seq<string> {
    if cs == [] then []
    else
      var init := FirstSeen(cs[..|cs| - 1]);
      var t := cs[|cs| - 1].ticker;
      if t in init then init else init + [t]
  }

  /** Reading one more contract keeps the tickers seen so far and appends its ticker
      when it is new. */
  lemma FirstSeenStep(cs: seq<Contract>, i: nat)
    requires i < |cs|
    ensures var init := FirstSeen(cs[..i]);
      FirstSeen(cs[..i + 1]) == if cs[i].ticker in init then init else init + [cs[i].ticker]
  {
    assert cs[..i + 1][..i] == cs[..i];
  }

  /** Later contracts only append tickers: the tickers of a prefix come first, in the
      same order. */
  lemma {:induction false} FirstSeenExtends(cs: seq<Contract>, k: nat)
    requires k <= |cs|
    ensures FirstSeen(cs[..k]) <= FirstSeen(cs)
    decreases |cs|
  {
    if k < |cs| {
      var init := cs[..|cs| - 1];
      FirstSeenExtends(init, k);
      assert init[..k] == cs[..k];
    } else {
      assert cs[..k] == cs;
    }
  }

  /** `byTicker` maps each ticker of `cs` to its contracts in order, and `keys` lists
      those tickers once each. */
  ghost predicate IsGrouping(cs: seq<Contract>, byTicker: map<string, seq<Contract>>, keys: seq<string>) {
    && Distinct(keys)
    && (forall t :: t in keys <==> t in byTicker)
    && byTicker.Keys == TickerSet(cs)
    && (forall t :: t in byTicker ==> byTicker[t] == OfTicker(cs, t))
  }

  /** One iteration of the grouping loop keeps the grouping exact. */
  lemma GroupStep(cs: seq<Contract>, c: Contract, byTicker: map<string, seq<Contract>>, keys: seq<string>,
                  byTicker': map<string, seq<Contract>>, keys': seq<string>)
    requires IsGrouping(cs, byTicker, keys)
    requires keys' == if c.ticker in byTicker then keys else keys + [c.ticker]
    requires byTicker' == byTicker[c.ticker := (if c.ticker in byTicker then byTicker[c.ticker] else []) + [c]]
    ensures IsGrouping(cs + [c], byTicker', keys')
  {
    GroupKeysStep(cs, c, byTicker, keys, byTicker', keys');
    if c.ticker !in byTicker {
      NewTickerAbsent(cs, c.ticker);
    }
    GroupContentsStep(cs, c, byTicker, byTicker');
  }

  /** A ticker outside the tickers of `cs` has no contracts in `cs`. */
  lemma NewTickerAbsent(cs: seq<Contract>, t: string)
    requires t !in TickerSet(cs)
    ensures OfTicker(cs, t) == []
  {
    TickerSetMembers(cs);
    OfTickerAbsent(cs, t);
  }

  /** The contracts per ticker after one iteration of the grouping loop. */
  lemma GroupContentsStep(cs: seq<Contract>, c: Contract, byTicker: map<string, seq<Contract>>,
                          byTicker': map<string, seq<Contract>>)
    requires forall t :: t in byTicker ==> byTicker[t] == OfTicker(cs, t)
    requires c.ticker !in byTicker ==> OfTicker(cs, c.ticker) == []
    requires byTicker' == byTicker[c.ticker := (if c.ticker in byTicker then byTicker[c.ticker] else []) + [c]]
    ensures forall t :: t in byTicker' ==> byTicker'[t] == OfTicker(cs + [c], t)
  {
    forall t | t in byTicker'
      ensures byTicker'[t] == OfTicker(cs + [c], t)
    {
      OfTickerSnoc(cs, c, t);
    }
  }

  /** The keys after one iteration of the grouping loop: the new ticker is added once. */
  lemma GroupKeysStep(cs: seq<Contract>, c: Contract, byTicker: map<string, seq<Contract>>, keys: seq<string>,
                      byTicker': map<string, seq<Contract>>, keys': seq<string>)
    requires Distinct(keys) && (forall t :: t in keys <==> t in byTicker) && byTicker.Keys == TickerSet(cs)
    requires keys' == if c.ticker in byTicker then keys else keys + [c.ticker]
    requires byTicker'.Keys == byTicker.Keys + {c.ticker}
    ensures Distinct(keys') && (forall t :: t in keys' <==> t in byTicker') && byTicker'.Keys == TickerSet(cs + [c])
  {
    assert (cs + [c])[..|cs|] == cs;
  }

  /** After the first `i` contracts: the grouping of that prefix, with its tickers in
      first-seen order. */
  ghost predicate GroupedUpTo(contracts: seq<Contract>, i: nat, byTicker: map<string, seq<Contract>>, keys: seq<string>)
    requires i <= |contracts|
  {
    IsGrouping(contracts[..i], byTicker, keys) && keys == FirstSeen(contracts[..i])
  }

  /** The grouping step, stated on the prefixes the loop walks through. */
  lemma GroupPrefixStep(contracts: seq<Contract>, i: nat, byTicker: map<string, seq<Contract>>, keys: seq<string>,
                        byTicker': map<string, seq<Contract>>, keys': seq<string>)
    requires i < |contracts|
    requires GroupedUpTo(contracts, i, byTicker, keys)
    requires var t := contracts[i].ticker;
      keys' == if t in byTicker then keys else keys + [t]
    requires var t := contracts[i].ticker;
      byTicker' == byTicker[t := (if t in byTicker then byTicker[t] else []) + [contracts[i]]]
    ensures GroupedUpTo(contracts, i + 1, byTicker', keys')
  {
    GroupStep(contracts[..i], contracts[i], byTicker, keys, byTicker', keys');
    PrefixSnoc(contracts, i);
    FirstSeenStep(contracts, i);
  }

  /** The first loop of `loadContractsData`: `contractsByTicker` filled by `push`, with its
      keys in the order they were first seen. */
  method GroupByTicker(contracts: seq<Contract>) returns (byTicker: map<string, seq<Contract>>, keys: seq<string>)
    ensures IsGrouping(contracts, byTicker, keys)
    ensures keys == FirstSeen(contracts)
  {
    byTicker := map[];
    keys := [];
    var i := 0;
    while i < |contracts|
      invariant 0 <= i <= |contracts|
      invariant GroupedUpTo(contracts, i, byTicker, keys)
    {
      var c := contracts[i];
      ghost var before, keysBefore := byTicker, keys;
      if c.ticker !in byTicker {
        byTicker := byTicker[c.ticker := []];
        keys := keys + [c.ticker];
      }
      byTicker := byTicker[c.ticker := byTicker[c.ticker] + [c]];
      GroupPrefixStep(contracts, i, before, keysBefore, byTicker, keys);
      i := i + 1;
    }
    PrefixWhole(contracts);
  }

  /** After the tickers `sorted[..j]`: `groups` holds, in ticker order, the non-empty
      filtered group of each of them. */
  ghost predicate LoadedUpTo(cs: seq<Contract>, filter: string, daysOf: Contract -> int,
                             sorted: seq<string>, j: nat, groups: seq<TickerGroup>)
    requires j <= |sorted|
  {
    && (forall g :: g in groups ==>
          g.ticker in sorted[..j] && |g.contracts| > 0 && g.contracts == FilteredGroup(cs, g.ticker, filter, daysOf))
    && (forall a, b :: 0 <= a < b < |groups| ==> LexLess(groups[a].ticker, groups[b].ticker))
    && (forall k :: 0 <= k < j && |FilteredGroup(cs, sorted[k], filter, daysOf)| > 0 ==>
          exists g :: g in groups && g.ticker == sorted[k])
  }

  /** One iteration of the filtering loop: the next ticker's group is appended when it is
      not empty, and it sorts after every group already there. */
  lemma LoadStep(cs: seq<Contract>, filter: string, daysOf: Contract -> int,
                 sorted: seq<string>, j: nat, groups: seq<TickerGroup>, groups': seq<TickerGroup>)
    requires StrictlySorted(sorted) && j < |sorted|
    requires LoadedUpTo(cs, filter, daysOf, sorted, j, groups)
    requires var filtered := FilteredGroup(cs, sorted[j], filter, daysOf);
      groups' == if |filtered| > 0 then groups + [TickerGroup(sorted[j], filtered)] else groups
    ensures LoadedUpTo(cs, filter, daysOf, sorted, j + 1, groups')
  {
    GroupsBelow(cs, filter, daysOf, sorted, j, groups);
    LoadedValid(cs, filter, daysOf, sorted, j, groups, groups');
    LoadedComplete(cs, filter, daysOf, sorted, j, groups, groups');
  }

  /** After the next ticker, the groups are still the non-empty filtered groups of tickers
      seen so far, in ticker order. */
  lemma LoadedValid(cs: seq<Contract>, filter: string, daysOf: Contract -> int,
                    sorted: seq<string>, j: nat, groups: seq<TickerGroup>, groups': seq<TickerGroup>)
    requires j < |sorted|
    requires forall g :: g in groups ==>
      g.ticker in sorted[..j] && |g.contracts| > 0 && g.contracts == FilteredGroup(cs, g.ticker, filter, daysOf)
    requires forall a, b :: 0 <= a < b < |groups| ==> LexLess(groups[a].ticker, groups[b].ticker)
    requires forall a :: 0 <= a < |groups| ==> LexLess(groups[a].ticker, sorted[j])
    requires var filtered := FilteredGroup(cs, sorted[j], filter, daysOf);
      groups' == if |filtered| > 0 then groups + [TickerGroup(sorted[j], filtered)] else groups
    ensures forall g :: g in groups' ==>
      g.ticker in sorted[..j + 1] && |g.contracts| > 0 && g.contracts == FilteredGroup(cs, g.ticker, filter, daysOf)
    ensures forall a, b :: 0 <= a < b < |groups'| ==> LexLess(groups'[a].ticker, groups'[b].ticker)
  {
    assert sorted[..j + 1] == sorted[..j] + [sorted[j]];
  }

  /** Every group already loaded sorts before the next ticker. */
  lemma GroupsBelow(cs: seq<Contract>, filter: string, daysOf: Contract -> int,
                    sorted: seq<string>, j: nat, groups: seq<TickerGroup>)
    requires StrictlySorted(sorted) && j < |sorted|
    requires forall g :: g in groups ==> g.ticker in sorted[..j]
    ensures forall a :: 0 <= a < |groups| ==> LexLess(groups[a].ticker, sorted[j])
  {
    forall a | 0 <= a < |groups| ensures LexLess(groups[a].ticker, sorted[j]) {
      assert groups[a] in groups;
      var k :| 0 <= k < j && sorted[k] == groups[a].ticker;
    }
  }

  /** After the next ticker, every ticker so far with a non-empty group has one. */
  lemma LoadedComplete(cs: seq<Contract>, filter: string, daysOf: Contract -> int,
                       sorted: seq<string>, j: nat, groups: seq<TickerGroup>, groups': seq<TickerGroup>)
    requires j < |sorted|
    requires forall k :: 0 <= k < j && |FilteredGroup(cs, sorted[k], filter, daysOf)| > 0 ==>
      exists g :: g in groups && g.ticker == sorted[k]
    requires var filtered := FilteredGroup(cs, sorted[j], filter, daysOf);
      groups' == if |filtered| > 0 then groups + [TickerGroup(sorted[j], filtered)] else groups
    ensures forall k :: 0 <= k < j + 1 && |FilteredGroup(cs, sorted[k], filter, daysOf)| > 0 ==>
      exists g :: g in groups' && g.ticker == sorted[k]
  {
    forall k | 0 <= k < j + 1 && |FilteredGroup(cs, sorted[k], filter, daysOf)| > 0
      ensures exists g :: g in groups' && g.ticker == sorted[k]
    {
      if k < j {
        var g :| g in groups && g.ticker == sorted[k];
        assert g in groups';
      } else {
        assert groups'[|groups'| - 1].ticker == sorted[k];
      }
    }
  }

  /** A ticker with a non-empty filtered group is one of the tickers of the contracts. */
  lemma FilteredGroupTicker(cs: seq<Contract>, t: string, filter: string, daysOf: Contract -> int)
    requires |FilteredGroup(cs, t, filter, daysOf)| > 0
    ensures t in TickerSet(cs)
  {
    var c := FilteredGroup(cs, t, filter, daysOf)[0];
    assert c in OfTicker(cs, t);
    TickerSetMembers(cs);
  }

  /** `loadContractsData` up to the charts: the groups of the file's contracts, one per
      ticker in ascending order, each filtered by expiration, empty ones left out. */
  method LoadContracts(text: string, filter: string, daysOf: Contract -> int) returns (groups: seq<TickerGroup>)
    ensures forall a, b :: 0 <= a < b < |groups| ==> LexLess(groups[a].ticker, groups[b].ticker)
    ensures forall g :: g in groups ==>
      |g.contracts| > 0 && g.contracts == FilteredGroup(FileContracts(text), g.ticker, filter, daysOf)
    ensures forall t :: |FilteredGroup(FileContracts(text), t, filter, daysOf)| > 0 ==>
      exists g :: g in groups && g.ticker == t
  {
    var contracts := FileContracts(text);
    var byTicker, keys := GroupByTicker(contracts);
    var sorted := SortTickers(keys);
    assert forall t :: t in sorted <==> t in byTicker by {
      assert forall t :: t in sorted <==> t in multiset(keys);
    }
    groups := [];
    var j := 0;
    while j < |sorted|
      invariant 0 <= j <= |sorted|
      invariant LoadedUpTo(contracts, filter, daysOf, sorted, j, groups)
    {
      var ticker := sorted[j];
      var filtered := FilterContracts(filter, byTicker[ticker], daysOf);
      ghost var before := groups;
      if |filtered| > 0 {
        groups := groups + [TickerGroup(ticker, filtered)];
      }
      LoadStep(contracts, filter, daysOf, sorted, j, before, groups);
      j := j + 1;
    }
    forall t | |FilteredGroup(contracts, t, filter, daysOf)| > 0
      ensures exists g :: g in groups && g.ticker == t
    {
      FilteredGroupTicker(contracts, t, filter, daysOf);
      var k :| 0 <= k < |sorted| && sorted[k] == t;
    }
  }
}
