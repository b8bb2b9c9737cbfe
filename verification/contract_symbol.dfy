/** Option contract symbols such as `TSLA250620P00280000`: ticker, expiration
    `YYMMDD`, `C` or `P`, and the strike in thousandths of a dollar on 8 digits.
    Two parsers share the grammar: `parseContract` (contract.ts) throws on a
    mismatch, `parseContractLine` (src/utils.ts, copied verbatim in src/App.tsx)
    returns null. */
module ContractSymbol {
  import opened Wrappers
  import opened Decimal
  import opened Calendar

  datatype Kind = Call | Put

  /** A parsed contract. The strike is kept in thousandths of a dollar, exactly as
      written in the symbol; `Strike` gives it in dollars. */
  datatype Contract = Contract(ticker: string, expiration: Date, kind: Kind, strikeMilli: nat)

  /** The error `parseContract` throws: `Invalid contract format: <symbol>`. */
  datatype ParseError = InvalidContractFormat(symbol: string)

  /** The four capture groups of the symbol pattern. */
  datatype Groups = Groups(ticker: string, dateStr: string, typeChar: char, strikeStr: string)

  /** The strike in dollars: the 8-digit field divided by 1000. */
  function Strike(c: Contract): real {
    c.strikeMilli as real / 1000.0
  }

  predicate IsUpper(c: char) {
    'A' <= c <= 'Z'
  }

  predicate AllUpper(s: string) {
    forall i :: 0 <= i < |s| ==> IsUpper(s[i])
  }

  predicate IsTypeChar(c: char) {
    c == 'C' || c == 'P'
  }

  /** Length of the longest prefix made of `A`-`Z`. */
  function UpperPrefixLength(s: string): (k: nat)
    ensures k <= |s| && AllUpper(s[..k])
    ensures k < |s| ==> !IsUpper(s[k])
  {
    if s == [] || !IsUpper(s[0]) then 0
    else
      var k := 1 + UpperPrefixLength(s[1..]);
      assert forall i :: 1 <= i < k ==> s[..k][i] == s[1..][..k - 1][i - 1];
      k
  }

  /** `^([A-Z]+)(\d{6})([CP])(\d{8})$` matches `s` with the ticker group ending at `k`. */
  predicate MatchesAt(s: string, k: int) {
    && 1 <= k && |s| == k + 15
    && AllUpper(s[..k])
    && AllDigits(s[k..k + 6])
    && IsTypeChar(s[k + 6])
    && AllDigits(s[k + 7..])
  }

  /** The regular expression matches `s`, at some split point. */
  ghost predicate MatchesPattern(s: string) {
    exists k :: MatchesAt(s, k)
  }

  /** The executable test: the ticker group is the maximal upper-case prefix. */
  predicate IsWellFormed(s: string) {
    MatchesAt(s, UpperPrefixLength(s))
  }

  /** A match can only split after the last leading upper-case letter, since a digit follows. */
  lemma MatchSplitIsUnique(s: string, k: int)
    requires MatchesAt(s, k)
    ensures k == UpperPrefixLength(s)
  {
    assert IsDigit(s[k..k + 6][0]);
  }

  /** The executable test accepts exactly the strings the regular expression matches. */
  lemma WellFormedIffMatches(s: string)
    ensures IsWellFormed(s) <==> MatchesPattern(s)
  {
    if MatchesPattern(s) {
      var k :| MatchesAt(s, k);
      MatchSplitIsUnique(s, k);
    }
  }

  /** The capture groups of a matching symbol. */
  function SymbolGroups(s: string): (g: Groups)
    requires IsWellFormed(s)
    ensures |g.ticker| >= 1 && AllUpper(g.ticker)
    ensures |g.dateStr| == 6 && AllDigits(g.dateStr)
    ensures IsTypeChar(g.typeChar)
    ensures |g.strikeStr| == 8 && AllDigits(g.strikeStr)
    ensures s == g.ticker + g.dateStr + [g.typeChar] + g.strikeStr
  {
    var k := UpperPrefixLength(s);
    assert s == s[..k] + s[k..k + 6] + [s[k + 6]] + s[k + 7..];
    Groups(s[..k], s[k..k + 6], s[k + 6], s[k + 7..])
  }

  /** The capture groups of the symbol `t + d + [c] + n` are `t`, `d`, `c` and `n`. */
  lemma GroupsOfConcatenation(t: string, d: string, c: char, n: string)
    requires |t| >= 1 && AllUpper(t)
    requires |d| == 6 && AllDigits(d) && IsTypeChar(c) && |n| == 8 && AllDigits(n)
    ensures IsWellFormed(t + d + [c] + n)
    ensures SymbolGroups(t + d + [c] + n) == Groups(t, d, c, n)
  {
    var s := t + d + [c] + n;
    var k := |t|;
    assert s[..k] == t && s[k..k + 6] == d && s[k + 6] == c && s[k + 7..] == n;
    assert MatchesAt(s, k);
    MatchSplitIsUnique(s, k);
  }

  function KindOf(typeChar: char): (kind: Kind)
    ensures kind == Call <==> typeChar == 'C'
  {
    if typeChar == 'C' then Call else Put
  }

  /** The contract `parseContract` builds from the capture groups: the year is `20YY`,
      month and day are taken literally, the strike is the 8-digit field. */
  function ContractOfGroups(g: Groups): (c: Contract)
    requires |g.dateStr| == 6 && AllDigits(g.dateStr) && AllDigits(g.strikeStr)
  {
    var year := 2000 + DigitsValue(g.dateStr[0..2]);
    var month := DigitsValue(g.dateStr[2..4]);
    var day := DigitsValue(g.dateStr[4..6]);
    Contract(g.ticker, Date(year, month, day), KindOf(g.typeChar), DigitsValue(g.strikeStr))
  }

  /** `parseContract` (contract.ts): throws on a mismatch, otherwise decodes the groups. */
  function ParseContract(symbol: string): (r: Result<Contract, ParseError>)
    ensures r.Failure? <==> !MatchesPattern(symbol)
    ensures r.Failure? ==> r.error == InvalidContractFormat(symbol)
    ensures r.Success? ==>
      var c := r.value;
      var k := |c.ticker|;
      && k >= 1 && AllUpper(c.ticker) && |symbol| == k + 15
      && symbol[..k] == c.ticker
      && IsDigit(symbol[k])
      && 2000 <= c.expiration.year <= 2099
      && 0 <= c.expiration.month <= 99 && 0 <= c.expiration.day <= 99
      && c.strikeMilli <= 99_999_999
      && (c.kind == Call <==> symbol[k + 6] == 'C')
      && (c.kind == Put <==> symbol[k + 6] == 'P')
  {
    WellFormedIffMatches(symbol);
    if !IsWellFormed(symbol) then Failure(InvalidContractFormat(symbol))
    else
      var g := SymbolGroups(symbol);
      DigitsValueBound(g.dateStr[0..2]);
      DigitsValueBound(g.dateStr[2..4]);
      DigitsValueBound(g.dateStr[4..6]);
      DigitsValueBound(g.strikeStr);
      assert symbol[..|g.ticker|] == g.ticker;
      assert symbol[|g.ticker|] == g.dateStr[0];
      assert symbol[|g.ticker| + 6] == g.typeChar;
      Success(ContractOfGroups(g))
  }

  /** `parseContractLine` (src/utils.ts, and its copy in src/App.tsx): null on a
      mismatch; otherwise the month goes through the zero-based month index. */
  function ParseContractLine(line: string): (r: Option<Contract>)
    ensures r.None? <==> !MatchesPattern(line)
    ensures r.Some? ==> IsWellFormed(line)
    ensures r.Some? && IsWellFormed(line) ==>
      var g := SymbolGroups(line);
      && r.value.ticker == g.ticker
      && r.value.expiration.year == 2000 + DigitsValue(g.dateStr[0..2])
      && MonthIndex(r.value.expiration) == DigitsValue(g.dateStr[2..4]) - 1
      && r.value.expiration.day == DigitsValue(g.dateStr[4..6])
      && (r.value.kind == Call <==> g.typeChar == 'C')
      && r.value.strikeMilli == DigitsValue(g.strikeStr)
  {
    WellFormedIffMatches(line);
    if !IsWellFormed(line) then None
    else
      var g := SymbolGroups(line);
      var year := 2000 + DigitsValue(g.dateStr[0..2]);
      var monthIndex := DigitsValue(g.dateStr[2..4]) - 1;
      var day := DigitsValue(g.dateStr[4..6]);
      Some(Contract(g.ticker, FromMonthIndex(year, monthIndex, day), KindOf(g.typeChar), DigitsValue(g.strikeStr)))
  }

  /** The null-returning parser returns null exactly where the throwing parser throws,
      and otherwise the same contract. */
  lemma LineParserAgrees(s: string)
    ensures ParseContractLine(s) == ParseContract(s).ToOption()
  {
  }

  /** A symbol assembled from well-formed fields parses to the contract those fields denote. */
  lemma ParseOfFields(symbol: string, t: string, d: string, c: char, n: string)
    requires |t| >= 1 && AllUpper(t)
    requires |d| == 6 && AllDigits(d) && IsTypeChar(c) && |n| == 8 && AllDigits(n)
    requires symbol == t + d + [c] + n
    ensures ParseContract(symbol) == Success(ContractOfGroups(Groups(t, d, c, n)))
    ensures ParseContractLine(symbol).Some?
  {
    GroupsOfConcatenation(t, d, c, n);
    WellFormedIffMatches(symbol);
  }

  /** The contracts a symbol can denote: what `FormatSymbol` can write. */
  predicate Encodable(c: Contract) {
    && |c.ticker| >= 1 && AllUpper(c.ticker)
    && 2000 <= c.expiration.year <= 2099
    && 0 <= c.expiration.month <= 99 && 0 <= c.expiration.day <= 99
    && c.strikeMilli < 100_000_000
  }

  /** The six date digits `YYMMDD` of a contract's symbol. */
  function DateField(c: Contract): (d: string)
    requires Encodable(c)
    ensures |d| == 6 && AllDigits(d)
  {
    DigitsOf(c.expiration.year - 2000, 2) + DigitsOf(c.expiration.month, 2) + DigitsOf(c.expiration.day, 2)
  }

  function TypeChar(k: Kind): char {
    if k == Call then 'C' else 'P'
  }

  /** The symbol of a contract: the inverse of `ParseContract`. */
  function FormatSymbol(c: Contract): (s: string)
    requires Encodable(c)
    ensures |s| == |c.ticker| + 15
  {
    c.ticker + DateField(c) + [TypeChar(c.kind)] + DigitsOf(c.strikeMilli, 8)
  }

  /** The date digits of a symbol decode to the contract's year, month and day. */
  lemma DateFieldValues(c: Contract)
    requires Encodable(c)
    ensures var d := DateField(c);
      && DigitsValue(d[0..2]) == c.expiration.year - 2000
      && DigitsValue(d[2..4]) == c.expiration.month
      && DigitsValue(d[4..6]) == c.expiration.day
  {
    var yy, mm, dd := DigitsOf(c.expiration.year - 2000, 2), DigitsOf(c.expiration.month, 2), DigitsOf(c.expiration.day, 2);
    assert DateField(c) == yy + mm + dd;
    SliceDate(yy, mm, dd);
    TwoDigitsValue(c.expiration.year - 2000);
    TwoDigitsValue(c.expiration.month);
    TwoDigitsValue(c.expiration.day);
  }

  lemma TwoDigitsValue(n: nat)
    requires n < 100
    ensures DigitsValue(DigitsOf(n, 2)) == n
  {
    DigitsOfValue(n, 2);
  }

  /** The fields of a contract's symbol decode to the contract. */
  lemma ContractOfFormatGroups(c: Contract)
    requires Encodable(c)
    ensures ContractOfGroups(Groups(c.ticker, DateField(c), TypeChar(c.kind), DigitsOf(c.strikeMilli, 8))) == c
  {
    DateFieldValues(c);
    DigitsOfValue(c.strikeMilli, 8);
  }

  /** Parsing the symbol of an encodable contract gives back the contract. */
  lemma ParseFormat(c: Contract)
    requires Encodable(c)
    ensures ParseContract(FormatSymbol(c)) == Success(c)
  {
    ParseOfFields(FormatSymbol(c), c.ticker, DateField(c), TypeChar(c.kind), DigitsOf(c.strikeMilli, 8));
    ContractOfFormatGroups(c);
  }

  /** The contract decoded from well-shaped groups can be written back. */
  lemma ContractOfGroupsEncodable(g: Groups)
    requires |g.ticker| >= 1 && AllUpper(g.ticker)
    requires |g.dateStr| == 6 && AllDigits(g.dateStr) && IsTypeChar(g.typeChar)
    requires |g.strikeStr| == 8 && AllDigits(g.strikeStr)
    ensures Encodable(ContractOfGroups(g))
  {
    DigitsValueBound(g.dateStr[0..2]);
    DigitsValueBound(g.dateStr[2..4]);
    DigitsValueBound(g.dateStr[4..6]);
    DigitsValueBound(g.strikeStr);
  }

  /** Writing back the date of the contract decoded from six date digits gives those digits. */
  lemma DateFieldOfGroups(g: Groups)
    requires |g.ticker| >= 1 && AllUpper(g.ticker)
    requires |g.dateStr| == 6 && AllDigits(g.dateStr) && IsTypeChar(g.typeChar)
    requires |g.strikeStr| == 8 && AllDigits(g.strikeStr)
    ensures Encodable(ContractOfGroups(g))
    ensures DateField(ContractOfGroups(g)) == g.dateStr
  {
    ContractOfGroupsEncodable(g);
    var c := ContractOfGroups(g);
    var yy, mm, dd := g.dateStr[0..2], g.dateStr[2..4], g.dateStr[4..6];
    assert DigitsOf(c.expiration.year - 2000, 2) == yy by {
      ValueDigitsOf(yy);
    }
    assert DigitsOf(c.expiration.month, 2) == mm by {
      ValueDigitsOf(mm);
    }
    assert DigitsOf(c.expiration.day, 2) == dd by {
      ValueDigitsOf(dd);
    }
    SplitDate(g.dateStr);
  }

  lemma SliceDate(yy: string, mm: string, dd: string)
    requires |yy| == 2 && |mm| == 2 && |dd| == 2
    ensures var d := yy + mm + dd; d[0..2] == yy && d[2..4] == mm && d[4..6] == dd
  {
    var d := yy + mm + dd;
    assert d[0..2] == yy;
    assert d[2..4] == mm;
    assert d[4..6] == dd;
  }

  lemma SplitDate(d: string)
    requires |d| == 6
    ensures d[0..2] + d[2..4] + d[4..6] == d
  {
  }

  /** Writing back the contract decoded from well-shaped groups gives the groups again. */
  lemma FormatContractOfGroups(g: Groups)
    requires |g.ticker| >= 1 && AllUpper(g.ticker)
    requires |g.dateStr| == 6 && AllDigits(g.dateStr) && IsTypeChar(g.typeChar)
    requires |g.strikeStr| == 8 && AllDigits(g.strikeStr)
    ensures Encodable(ContractOfGroups(g))
    ensures FormatSymbol(ContractOfGroups(g)) == g.ticker + g.dateStr + [g.typeChar] + g.strikeStr
  {
    DateFieldOfGroups(g);
    var c := ContractOfGroups(g);
    assert DigitsOf(c.strikeMilli, 8) == g.strikeStr by {
      ValueDigitsOf(g.strikeStr);
    }
    assert TypeChar(c.kind) == g.typeChar;
  }

  /** Every accepted symbol is the symbol of the contract it parses to: parsing loses nothing. */
  lemma FormatParse(s: string)
    requires ParseContract(s).Success?
    ensures Encodable(ParseContract(s).value)
    ensures FormatSymbol(ParseContract(s).value) == s
  {
    WellFormedIffMatches(s);
    var g := SymbolGroups(s);
    assert ParseContract(s).value == ContractOfGroups(g);
    FormatContractOfGroups(g);
  }
}
