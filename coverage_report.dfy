/**
 * scripts/coverage-report.js: totals counted from an Istanbul `coverage-final.json`,
 * the coverage history updated with today's entry, and the rows of the trend table.
 *
 * A JSON object is modelled as the list of its entries in key order (`Obj`), as
 * `JSON.parse` produces it, so its keys are distinct. The clock is a parameter:
 * `now` is `new Date().toISOString()`, `today` its part before 'T', and
 * `time(d)` is `new Date(d)` as used by the history's sort comparator.
 */
module CoverageReport {
  import opened Wrappers
  import opened Strings
  import opened Sorting

  type Obj<V> = seq<(string, V)>

  /** `o[key]`, None for `undefined`. */
  function Lookup<V>(o: Obj<V>, key: string): (r: Option<V>)
    ensures r.Some? ==> (key, r.value) in o
    ensures r.None? ==> forall e :: e in o ==> e.0 != key
  {
    if o == [] then None
    else if o[0].0 == key then Some(o[0].1)
    else Lookup(o[1..], key)
  }

  /** `statementMap[key]`: the first and last line of one statement. */
  datatype Location = Location(startLine: int, endLine: int)

  /** One file's record in coverage-final.json; a member that is absent is None. */
  datatype FileCoverage = FileCoverage(
    statementMap: Option<Obj<Location>>,
    s: Option<Obj<int>>,
    fnMap: Option<seq<string>>,   // only the keys of fnMap are read
    f: Option<Obj<int>>,
    branchMap: bool,              // only whether branchMap is present is read
    b: Option<Obj<seq<int>>>)

  datatype Count = Count(total: nat, covered: nat)

  datatype Totals = Totals(statements: Count, functions: Count, branches: Count, lines: Count)

  /** The TypeErrors the line estimate can throw, which abort the whole report. */
  datatype ExtractError =
    | StatementMapMissing(file: string)         // `Object.keys(undefined)`
    | StatementMissing(file: string, key: string) // `statementMap[key]` is undefined

  const Zero := Totals(Count(0, 0), Count(0, 0), Count(0, 0), Count(0, 0))

  ghost predicate CountValid(c: Count) {
    c.covered <= c.total
  }

  ghost predicate TotalsValid(t: Totals) {
    CountValid(t.statements) && CountValid(t.functions) && CountValid(t.branches) && CountValid(t.lines)
  }

  function AddCount(a: Count, b: Count): Count {
    Count(a.total + b.total, a.covered + b.covered)
  }

  function Add(a: Totals, b: Totals): Totals {
    Totals(AddCount(a.statements, b.statements), AddCount(a.functions, b.functions),
           AddCount(a.branches, b.branches), AddCount(a.lines, b.lines))
  }

  /** `Object.values(o).filter(v => v > 0).length` */
  function CountPositive(o: Obj<int>): (n: nat)
    ensures n <= |o|
  {
    if o == [] then 0 else (if o[0].1 > 0 then 1 else 0) + CountPositive(o[1..])
  }

  /** `branches.filter(v => v > 0).length` for one branch's counters. */
  function PositiveIn(counters: seq<int>): (n: nat)
    ensures n <= |counters|
  {
    if counters == [] then 0 else (if counters[0] > 0 then 1 else 0) + PositiveIn(counters[1..])
  }

  /** The branch total and covered count of `Object.values(b)`, accumulated branch by branch. */
  function BranchCount(b: Obj<seq<int>>): (c: Count)
    ensures CountValid(c)
  {
    if b == [] then Count(0, 0)
    else AddCount(BranchCount(b[..|b| - 1]), Count(|b[|b| - 1].1|, PositiveIn(b[|b| - 1].1)))
  }

  /** The integers `lo <= i < hi`. */
  function Interval(lo: int, hi: int): (r: set<int>)
    decreases hi - lo
  {
    if hi <= lo then {} else Interval(lo, hi - 1) + {hi - 1}
  }

  lemma {:induction false} IntervalMembers(lo: int, hi: int, x: int)
    ensures x in Interval(lo, hi) <==> lo <= x < hi
    decreases hi - lo
  {
    if lo < hi {
      IntervalMembers(lo, hi - 1, x);
    }
  }

  /** The lines `start.line..end.line` of a statement, both included (none when start > end). */
  function RangeLines(loc: Location): set<int> {
    Interval(loc.startLine, loc.endLine + 1)
  }

  /** `lineKeys`: every line of every statement. */
  function LinesOf(stmts: Obj<Location>): set<int> {
    if stmts == [] then {} else LinesOf(stmts[..|stmts| - 1]) + RangeLines(stmts[|stmts| - 1].1)
  }

  /** `coveredLineKeys`: the lines of the statements whose counter is positive. */
  function CoveredLinesOf(s: Obj<int>, stmts: Obj<Location>): Result<set<int>, string> {
    if s == [] then Success({})
    else
      match CoveredLinesOf(s[..|s| - 1], stmts)
      case Failure(key) => Failure(key)
      case Success(acc) =>
        var (key, hits) := s[|s| - 1];
        if hits > 0 then
          match Lookup(stmts, key)
          case None => Failure(key)
          case Some(loc) => Success(acc + RangeLines(loc))
        else Success(acc)
  }

  /** One file's contribution to the totals, or the error its line estimate throws. */
  function FileTotals(path: string, file: FileCoverage): Result<Totals, ExtractError> {
    var statements :=
      if file.statementMap.Some? && file.s.Some? then Count(|file.statementMap.value|, CountPositive(file.s.value))
      else Count(0, 0);
    var functions :=
      if file.fnMap.Some? && file.f.Some? then Count(|file.fnMap.value|, CountPositive(file.f.value))
      else Count(0, 0);
    var branches := if file.branchMap && file.b.Some? then BranchCount(file.b.value) else Count(0, 0);
    if file.s.None? then Success(Totals(statements, functions, branches, Count(0, 0)))
    else if file.statementMap.None? then Failure(StatementMapMissing(path))
    else
      match CoveredLinesOf(file.s.value, file.statementMap.value)
      case Failure(key) => Failure(StatementMissing(path, key))
      case Success(covered) =>
        Success(Totals(statements, functions, branches, Count(|LinesOf(file.statementMap.value)|, |covered|)))
  }

  /** The totals of `Object.keys(coverageData).forEach(...)`, accumulated file by file. */
  function CoverageTotals(data: Obj<FileCoverage>): Result<Totals, ExtractError> {
    if data == [] then Success(Zero)
    else
      match CoverageTotals(data[..|data| - 1])
      case Failure(e) => Failure(e)
      case Success(acc) =>
        match FileTotals(data[|data| - 1].0, data[|data| - 1].1)
        case Failure(e) => Failure(e)
        case Success(t) => Success(Add(acc, t))
  }

  lemma {:induction false} SubsetCardinality<T>(a: set<T>, b: set<T>)
    requires a <= b
    ensures |a| <= |b|
  {
    if a != {} {
      var x :| x in a;
      SubsetCardinality(a - {x}, b - {x});
    }
  }

  /** A statement of statementMap contributes all its lines to `lineKeys`. */
  lemma {:induction false} StatementLinesIncluded(stmts: Obj<Location>, e: (string, Location))
    requires e in stmts
    ensures RangeLines(e.1) <= LinesOf(stmts)
  {
    var n := |stmts|;
    if stmts[n - 1] != e {
      var k :| 0 <= k < n && stmts[k] == e;
      assert stmts[..n - 1][k] == e;
      StatementLinesIncluded(stmts[..n - 1], e);
    }
  }

  /**
   * Covered lines are lines of statements found in statementMap, so they are a
   * subset of the total lines.
   */
  lemma {:induction false} CoveredLinesWithinLines(s: Obj<int>, stmts: Obj<Location>)
    requires CoveredLinesOf(s, stmts).Success?
    ensures CoveredLinesOf(s, stmts).value <= LinesOf(stmts)
  {
    if s != [] {
      CoveredLinesWithinLines(s[..|s| - 1], stmts);
      var (key, hits) := s[|s| - 1];
      if hits > 0 {
        StatementLinesIncluded(stmts, (key, Lookup(stmts, key).value));
      }
    }
  }

  /** The keys of a JSON object are distinct, as `JSON.parse` produces them. */
  ghost predicate DistinctKeys<V>(o: Obj<V>) {
    forall i, j :: 0 <= i < j < |o| ==> o[i].0 != o[j].0
  }

  function Keys<V(==)>(o: Obj<V>): set<string> {
    set e | e in o :: e.0
  }

  /** The keys of the statements with a positive counter. */
  function PositiveKeys(s: Obj<int>): set<string> {
    set e | e in s && e.1 > 0 :: e.0
  }

  lemma {:induction false} KeysBound<V>(o: Obj<V>)
    ensures |Keys(o)| <= |o|
  {
    if o != [] {
      KeysBound(o[1..]);
      assert Keys(o) == {o[0].0} + Keys(o[1..]) by {
        assert o == [o[0]] + o[1..];
      }
    }
  }

  lemma {:induction false} PositiveKeysCount(s: Obj<int>)
    requires DistinctKeys(s)
    ensures |PositiveKeys(s)| == CountPositive(s)
  {
    if s != [] {
      var rest := s[1..];
      assert DistinctKeys(rest) by {
        forall i, j | 0 <= i < j < |rest| ensures rest[i].0 != rest[j].0 {
          assert rest[i] == s[i + 1] && rest[j] == s[j + 1];
        }
      }
      PositiveKeysCount(rest);
      assert s == [s[0]] + rest;
      assert s[0].0 !in PositiveKeys(rest);
      if s[0].1 > 0 {
        assert PositiveKeys(s) == {s[0].0} + PositiveKeys(rest);
      } else {
        assert PositiveKeys(s) == PositiveKeys(rest);
      }
    }
  }

  /** When the covered-line estimate succeeds, every positive counter has a statement. */
  lemma {:induction false} PositiveKeysStated(s: Obj<int>, stmts: Obj<Location>)
    requires CoveredLinesOf(s, stmts).Success?
    ensures PositiveKeys(s) <= Keys(stmts)
  {
    if s != [] {
      var n := |s|;
      PositiveKeysStated(s[..n - 1], stmts);
      assert s == s[..n - 1] + [s[n - 1]];
      if s[n - 1].1 > 0 {
        var loc := Lookup(stmts, s[n - 1].0).value;
        assert (s[n - 1].0, loc) in stmts;
      }
    }
  }

  /**
   * The shape of a file's record the proofs rely on: statement counters have distinct
   * keys (as in any parsed JSON object), and there are no more function counters than
   * functions, as Istanbul writes them. The script checks neither.
   */
  ghost predicate WellShaped(file: FileCoverage) {
    && (file.s.Some? ==> DistinctKeys(file.s.value))
    && (file.fnMap.Some? && file.f.Some? ==> |file.f.value| <= |file.fnMap.value|)
  }

  ghost predicate AllWellShaped(data: Obj<FileCoverage>) {
    forall e :: e in data ==> WellShaped(e.1)
  }

  /**
   * Branches and lines never have more covered than total. Neither do statements,
   * since a positive counter without a statement aborts the line estimate; nor
   * functions, when there are no more counters than functions.
   */
  lemma FileTotalsValid(path: string, file: FileCoverage)
    requires FileTotals(path, file).Success?
    ensures CountValid(FileTotals(path, file).value.branches)
    ensures CountValid(FileTotals(path, file).value.lines)
    ensures WellShaped(file) ==> TotalsValid(FileTotals(path, file).value)
  {
    if file.s.Some? && file.statementMap.Some? {
      var s, stmts := file.s.value, file.statementMap.value;
      CoveredLinesWithinLines(s, stmts);
      SubsetCardinality(CoveredLinesOf(s, stmts).value, LinesOf(stmts));
      if WellShaped(file) {
        PositiveKeysCount(s);
        PositiveKeysStated(s, stmts);
        SubsetCardinality(PositiveKeys(s), Keys(stmts));
        KeysBound(stmts);
      }
    }
  }

  /** Covered never exceeds total in any category of the report. */
  lemma {:induction false} CoverageTotalsValid(data: Obj<FileCoverage>)
    requires CoverageTotals(data).Success?
    ensures CountValid(CoverageTotals(data).value.branches)
    ensures CountValid(CoverageTotals(data).value.lines)
    ensures AllWellShaped(data) ==> TotalsValid(CoverageTotals(data).value)
  {
    if data != [] {
      var n := |data|;
      assert data == data[..n - 1] + [data[n - 1]];
      CoverageTotalsValid(data[..n - 1]);
      FileTotalsValid(data[n - 1].0, data[n - 1].1);
    }
  }

  /** Without the shape, more functions can be reported covered than exist. */
  lemma OverCountedFunctions()
    ensures var file := FileCoverage(None, None, Some(["0"]), Some([("0", 1), ("1", 1)]), false, None);
      && FileTotals("a.ts", file) == Success(Totals(Count(0, 0), Count(1, 2), Count(0, 0), Count(0, 0)))
  {
  }

  /** Once a prefix of the statements has thrown, the whole estimate throws the same error. */
  lemma {:induction false} CoveredFailurePersists(s: Obj<int>, stmts: Obj<Location>, k: nat)
    requires k <= |s| && CoveredLinesOf(s[..k], stmts).Failure?
    ensures CoveredLinesOf(s, stmts) == CoveredLinesOf(s[..k], stmts)
  {
    if k < |s| {
      assert s[..|s| - 1][..k] == s[..k];
      CoveredFailurePersists(s[..|s| - 1], stmts, k);
    } else {
      assert s[..k] == s;
    }
  }

  /** Once a file has thrown, the whole extraction throws the same error. */
  lemma {:induction false} TotalsFailurePersists(data: Obj<FileCoverage>, k: nat)
    requires k <= |data| && CoverageTotals(data[..k]).Failure?
    ensures CoverageTotals(data) == CoverageTotals(data[..k])
  {
    if k < |data| {
      assert data[..|data| - 1][..k] == data[..k];
      TotalsFailurePersists(data[..|data| - 1], k);
    } else {
      assert data[..k] == data;
    }
  }

  lemma CoverageTotalsStep(data: Obj<FileCoverage>, k: nat)
    requires k < |data|
    ensures CoverageTotals(data[..k + 1]) ==
      match CoverageTotals(data[..k])
      case Failure(e) => Failure(e)
      case Success(acc) =>
        match FileTotals(data[k].0, data[k].1)
        case Failure(e) => Failure(e)
        case Success(t) => Success(Add(acc, t))
  {
    assert data[..k + 1][..k] == data[..k];
  }

  /** `lineKeys`, built by adding every line of every statement with `Set.add`. */
  method StatementLines(stmts: Obj<Location>) returns (lineKeys: set<int>)
    ensures lineKeys == LinesOf(stmts)
  {
    lineKeys := {};
    for k := 0 to |stmts|
      invariant lineKeys == LinesOf(stmts[..k])
    {
      var stmt := stmts[k].1;
      var i := stmt.startLine;
      while i <= stmt.endLine
        invariant stmt.startLine <= i && (i <= stmt.endLine + 1 || i == stmt.startLine)
        invariant lineKeys == LinesOf(stmts[..k]) + Interval(stmt.startLine, i)
      {
        lineKeys := lineKeys + {i};
        i := i + 1;
      }
      assert stmts[..k + 1][..k] == stmts[..k];
    }
    assert stmts[..|stmts|] == stmts;
  }

  /** `coveredLineKeys`, or the key of a positive counter that has no statement. */
  method CoveredLines(s: Obj<int>, stmts: Obj<Location>) returns (r: Result<set<int>, string>)
    ensures r == CoveredLinesOf(s, stmts)
  {
    var coveredLineKeys: set<int> := {};
    for k := 0 to |s|
      invariant CoveredLinesOf(s[..k], stmts) == Success(coveredLineKeys)
    {
      assert s[..k + 1][..k] == s[..k];
      var (key, hits) := s[k];
      if hits > 0 {
        var stmt := Lookup(stmts, key);
        if stmt.None? {
          r := Failure(key);
          CoveredFailurePersists(s, stmts, k + 1);
          return;
        }
        var loc := stmt.value;
        ghost var before := coveredLineKeys;
        var i := loc.startLine;
        while i <= loc.endLine
          invariant loc.startLine <= i && (i <= loc.endLine + 1 || i == loc.startLine)
          invariant coveredLineKeys == before + Interval(loc.startLine, i)
        {
          coveredLineKeys := coveredLineKeys + {i};
          i := i + 1;
        }
      }
    }
    assert s[..|s|] == s;
    r := Success(coveredLineKeys);
  }

  /** The body of the `forEach` callback for one file: what it adds to the eight counters. */
  method FileContribution(path: string, file: FileCoverage) returns (r: Result<Totals, ExtractError>)
    ensures r == FileTotals(path, file)
  {
    var statements, functions, branches := Count(0, 0), Count(0, 0), Count(0, 0);
    if file.statementMap.Some? && file.s.Some? {
      statements := Count(|file.statementMap.value|, CountPositive(file.s.value));
    }
    if file.fnMap.Some? && file.f.Some? {
      functions := Count(|file.fnMap.value|, CountPositive(file.f.value));
    }
    if file.branchMap && file.b.Some? {
      var b := file.b.value;
      var totalBranches: nat, coveredBranches: nat := 0, 0;
      for j := 0 to |b|
        invariant Count(totalBranches, coveredBranches) == BranchCount(b[..j])
      {
        assert b[..j + 1][..j] == b[..j];
        totalBranches := totalBranches + |b[j].1|;
        coveredBranches := coveredBranches + PositiveIn(b[j].1);
      }
      assert b[..|b|] == b;
      branches := Count(totalBranches, coveredBranches);
    }
    if file.s.None? {
      return Success(Totals(statements, functions, branches, Count(0, 0)));
    }
    if file.statementMap.None? {
      return Failure(StatementMapMissing(path));
    }
    var lineKeys := StatementLines(file.statementMap.value);
    var covered := CoveredLines(file.s.value, file.statementMap.value);
    if covered.Failure? {
      return Failure(StatementMissing(path, covered.error));
    }
    r := Success(Totals(statements, functions, branches, Count(|lineKeys|, |covered.value|)));
  }

  /**
   * The counting part of `extractCoverageInfo`: the totals, or the error that aborts it.
   * The eight counters of the script are the fields of `totals`.
   */
  method ExtractCoverageInfo(data: Obj<FileCoverage>) returns (r: Result<Totals, ExtractError>)
    ensures r == CoverageTotals(data)
    ensures r.Success? ==> CountValid(r.value.branches) && CountValid(r.value.lines)
    ensures r.Success? && AllWellShaped(data) ==> TotalsValid(r.value)
  {
    var totals := Zero;
    for k := 0 to |data|
      invariant CoverageTotals(data[..k]) == Success(totals)
    {
      CoverageTotalsStep(data, k);
      var (path, file) := data[k];
      var contribution := FileContribution(path, file);
      if contribution.Failure? {
        r := Failure(contribution.error);
        TotalsFailurePersists(data, k + 1);
        return;
      }
      totals := Add(totals, contribution.value);
    }
    assert data[..|data|] == data;
    r := Success(totals);
    CoverageTotalsValid(data);
  }

  /** `total > 0 ? (covered / total) * 100 : 0`, exactly (the `toFixed(2)` rounding is not modelled). */
  function Percentage(c: Count): (p: real)
    ensures c.total == 0 ==> p == 0.0
    ensures CountValid(c) ==> 0.0 <= p <= 100.0
  {
    if c.total > 0 then
      var q := (c.covered as real) / (c.total as real);
      assert CountValid(c) ==> q <= 1.0 by {
        if CountValid(c) {
          assert q * (c.total as real) == c.covered as real;
        }
      }
      q * 100.0
    else 0.0
  }

  /** `totalCoverage`: the mean of the four percentages. */
  function TotalPercentage(t: Totals): (p: real)
    ensures TotalsValid(t) ==> 0.0 <= p <= 100.0
  {
    (Percentage(t.statements) + Percentage(t.functions) + Percentage(t.branches) + Percentage(t.lines)) / 4.0
  }

  /** One entry of docs/coverage-history.json: the ISO time stamp and the totals. */
  datatype CoverageInfo = CoverageInfo(date: string, totals: Totals)

  /** `entry.date.split('T')[0]` */
  function DayOf(date: string): string {
    TakeUntil(date, 'T')
  }

  /** `history.findIndex(entry => entry.date.split('T')[0] === today)`, None for -1. */
  function FindToday(history: seq<CoverageInfo>, today: string): (r: Option<nat>)
    ensures r.Some? ==> r.value < |history| && DayOf(history[r.value].date) == today
    ensures r.Some? ==> forall j :: 0 <= j < r.value ==> DayOf(history[j].date) != today
    ensures r.None? ==> forall j :: 0 <= j < |history| ==> DayOf(history[j].date) != today
  {
    if history == [] then None
    else if DayOf(history[0].date) == today then Some(0)
    else match FindToday(history[1..], today)
      case None => None
      case Some(i) => Some(i + 1)
  }

  /** Today's entry replaced in place, or the new entry appended. */
  function Upsert(history: seq<CoverageInfo>, info: CoverageInfo, today: string): seq<CoverageInfo> {
    match FindToday(history, today)
    case Some(i) => history[i := info]
    case None => history + [info]
  }

  /** The sort key of the comparator `(a, b) => new Date(a.date) - new Date(b.date)`. */
  function DateKey(time: string -> int): CoverageInfo -> int {
    (e: CoverageInfo) => time(e.date)
  }

  function Min(a: nat, b: nat): nat {
    if a <= b then a else b
  }

  /**
   * The replacement rule: with an entry for today, the first such entry is replaced
   * and nothing else changes; without one, the new entry is appended.
   */
  lemma UpsertFacts(history: seq<CoverageInfo>, info: CoverageInfo, today: string)
    ensures var u := Upsert(history, info, today);
      && ((exists j :: 0 <= j < |history| && DayOf(history[j].date) == today) ==>
            && |u| == |history|
            && exists i :: 0 <= i < |history| && DayOf(history[i].date) == today
                 && (forall j :: 0 <= j < i ==> DayOf(history[j].date) != today)
                 && u[i] == info
                 && forall j :: 0 <= j < |history| && j != i ==> u[j] == history[j])
      && ((forall j :: 0 <= j < |history| ==> DayOf(history[j].date) != today) ==>
            u == history + [info])
  {
  }

  /** `findIndex`, then `history[i] = coverageInfo` for the first entry of today, or `push`. */
  method UpsertToday(history: seq<CoverageInfo>, info: CoverageInfo, today: string)
    returns (updated: seq<CoverageInfo>)
    ensures updated == Upsert(history, info, today)
  {
    var existingTodayEntry := FindToday(history, today);
    if existingTodayEntry.Some? {
      updated := history[existingTodayEntry.value := info];
    } else {
      updated := history + [info];
    }
  }

  /**
   * docs/coverage-history.json as `updateCoverageHistory` finds it. `UnreadableHistory`
   * stands for a file on which reading throws: text `JSON.parse` rejects, a value that is
   * not an array (such as the `{ history: [...] }` object of scripts/update-coverage.js),
   * or an entry without a `date` string that `findIndex` reaches.
   */
  datatype HistoryFile = NoHistoryFile | UnreadableHistory | StoredHistory(entries: seq<CoverageInfo>)

  /** The list `history` starts from: empty without a file. */
  function StoredEntries(stored: HistoryFile): seq<CoverageInfo>
    requires !stored.UnreadableHistory?
  {
    if stored.StoredHistory? then stored.entries else []
  }

  /**
   * What the written history is: at most 100 entries, a permutation of the last ones of
   * the stored list with today's entry upserted, sorted by date.
   */
  ghost predicate HistoryUpdated(stored: HistoryFile, info: CoverageInfo, today: string,
                                 time: string -> int, history: seq<CoverageInfo>)
    requires !stored.UnreadableHistory?
  {
    var updated := Upsert(StoredEntries(stored), info, today);
    && |history| == Min(|updated|, 100)
    && SortedByKey(history, DateKey(time))
    && multiset(history) == multiset(updated[|updated| - |history|..])
  }

  /**
   * `updateCoverageHistory(coverageInfo)`: None when reading the file throws (the error is
   * rethrown). Otherwise the result holds at most 100 entries, the last ones of the
   * updated list, sorted by date.
   */
  method UpdateCoverageHistory(stored: HistoryFile, info: CoverageInfo, today: string,
                               time: string -> int)
    returns (history: Option<seq<CoverageInfo>>)
    ensures history.None? <==> stored.UnreadableHistory?
    ensures history.Some? ==> HistoryUpdated(stored, info, today, time, history.value)
  {
    if stored.UnreadableHistory? {
      return None;
    }
    var entries := StoredEntries(stored);
    entries := UpsertToday(entries, info, today);
    ghost var updated := entries;
    if |entries| > 100 {
      entries := entries[|entries| - 100..];
    }
    assert |entries| == Min(|updated|, 100) && entries == updated[|updated| - |entries|..];
    entries := SortByKey(entries, DateKey(time));
    history := Some(entries);
  }

  /** One row of the trend table; the locale date formatting is not modelled. */
  datatype TrendRow = TrendRow(date: string, total: real, statements: real, functions: real,
                               branches: real, lines: real)

  function RowOf(e: CoverageInfo): TrendRow {
    TrendRow(e.date, TotalPercentage(e.totals), Percentage(e.totals.statements),
             Percentage(e.totals.functions), Percentage(e.totals.branches), Percentage(e.totals.lines))
  }

  /** The trend table of `generateCoverageSummary`: one row for each of the last five entries. */
  method TrendRows(history: seq<CoverageInfo>) returns (rows: seq<TrendRow>)
    ensures |rows| == Min(|history|, 5)
    ensures forall i :: 0 <= i < |rows| ==> rows[i] == RowOf(history[|history| - |rows| + i])
  {
    var recentHistory := if |history| > 5 then history[|history| - 5..] else history;
    rows := [];
    for i := 0 to |recentHistory|
      invariant |rows| == i
      invariant forall j :: 0 <= j < i ==> rows[j] == RowOf(recentHistory[j])
    {
      rows := rows + [RowOf(recentHistory[i])];
    }
  }

  /** What `main` of scripts/coverage-report.js ends with. */
  datatype ReportOutcome =
    | Reported(totals: Totals, history: seq<CoverageInfo>, trend: seq<TrendRow>)
    | ReportFailed  // "カバレッジレポートの生成に失敗しました", exit code 1

  /** What a report on `totals` shows: the updated history and the trend of its last entries. */
  ghost predicate SummaryShows(outcome: ReportOutcome, stored: HistoryFile, now: string,
                              time: string -> int)
    requires outcome.Reported? && !stored.UnreadableHistory?
  {
    && HistoryUpdated(stored, CoverageInfo(now, outcome.totals), DayOf(now), time, outcome.history)
    && |outcome.trend| == Min(|outcome.history|, 5)
    && forall i :: 0 <= i < |outcome.trend| ==>
         outcome.trend[i] == RowOf(outcome.history[|outcome.history| - |outcome.trend| + i])
  }

  /** The part of `main()` after `extractCoverageInfo`: the history update and the summary. */
  method ReportTotals(totals: Totals, stored: HistoryFile, now: string, time: string -> int)
    returns (outcome: ReportOutcome)
    ensures outcome.ReportFailed? <==> stored.UnreadableHistory?
    ensures outcome.Reported? ==> outcome.totals == totals && SummaryShows(outcome, stored, now, time)
  {
    var info := CoverageInfo(now, totals);
    var history := UpdateCoverageHistory(stored, info, DayOf(now), time);
    if history.None? {
      return ReportFailed;
    }
    var trend := TrendRows(history.value);
    outcome := Reported(totals, history.value, trend);
  }

  /**
   * `main()`: `data` is coverage-final.json as parsed, None when it is still missing after
   * the test run or does not parse; every error ends in exit code 1.
   */
  method Report(data: Option<Obj<FileCoverage>>, stored: HistoryFile, now: string,
               time: string -> int)
    returns (outcome: ReportOutcome)
    ensures data.None? ==> outcome == ReportFailed
    ensures data.Some? ==>
      (outcome.ReportFailed? <==> CoverageTotals(data.value).Failure? || stored.UnreadableHistory?)
    ensures outcome.Reported? ==>
      && outcome.totals == CoverageTotals(data.value).value
      && (AllWellShaped(data.value) ==> TotalsValid(outcome.totals))
      && SummaryShows(outcome, stored, now, time)
  {
    if data.None? {
      return ReportFailed;
    }
    var totals := ExtractCoverageInfo(data.value);
    if totals.Failure? {
      return ReportFailed;
    }
    outcome := ReportTotals(totals.value, stored, now, time);
  }
}
