/**
 * scripts/update-coverage.js: one entry per run is appended to the `history` array of
 * docs/coverage-history.json, only the ten most recent entries are kept, and the
 * summary page lists them newest first.
 *
 * The files are inputs and the outcome says what is written. `now` is
 * `new Date().toISOString()`; coverage percentages are exact reals.
 */
module UpdateCoverage {
  import opened Wrappers
  import opened Strings

  /** One history entry: the day and the four `pct` values. */
  datatype Entry = Entry(date: string, lines: real, statements: real, functions: real, branches: real)

  /** docs/coverage-history.json as read. */
  datatype HistoryFile =
    | Unreadable                             // missing, unreadable, or not JSON
    | Parsed(history: Option<seq<Entry>>)    // None: the object has no `history` array

  /** The `total` object of coverage-summary.json; an absent metric is None. */
  datatype TotalMetrics = TotalMetrics(lines: Option<real>, statements: Option<real>,
                                       functions: Option<real>, branches: Option<real>)

  /** coverage/coverage-summary.json as read. */
  datatype SummaryFile =
    | Missing
    | Malformed                              // exists but does not parse
    | Summary(total: Option<TotalMetrics>)

  /** The "latest coverage" section of the generated page. */
  datatype LatestSection = LatestTable(latest: Entry) | NoCoverageYet

  /** The "history" section of the generated page. */
  datatype HistorySection = HistoryTable(rows: seq<Entry>) | NoHistoryYet

  datatype SummaryPage = SummaryPage(latest: LatestSection, history: HistorySection)

  /** What the script writes. */
  datatype Outcome =
    | Updated(history: seq<Entry>, page: SummaryPage)  // both files rewritten
    | SummaryNotFound                                  // "カバレッジJSONファイルが見つかりません"; nothing written
    | UpdateFailed                                     // an exception caught at the end; nothing written

  const Kept: nat := 10

  /** The history the script starts from; None when `coverageHistory.history.push` would throw. */
  function LoadedHistory(file: HistoryFile): Option<seq<Entry>> {
    match file
    case Unreadable => Some([])
    case Parsed(h) => h
  }

  /** `metric || { pct: 0 }`, then `.pct` */
  function Pct(metric: Option<real>): real {
    if metric.Some? then metric.value else 0.0
  }

  /**
   * The entry pushed for a run on `day`: each metric's `pct` from the summary's total,
   * and 0 for each metric (or the whole total) that is absent.
   */
  function NewEntry(day: string, total: Option<TotalMetrics>): (e: Entry)
    ensures e.date == day
    ensures total.None? ==> e == Entry(day, 0.0, 0.0, 0.0, 0.0)
    ensures total.Some? && total.value.lines.Some? ==> e.lines == total.value.lines.value
    ensures total.Some? && total.value.lines.None? ==> e.lines == 0.0
    ensures total.Some? && total.value.statements.Some? ==> e.statements == total.value.statements.value
    ensures total.Some? && total.value.statements.None? ==> e.statements == 0.0
    ensures total.Some? && total.value.functions.Some? ==> e.functions == total.value.functions.value
    ensures total.Some? && total.value.functions.None? ==> e.functions == 0.0
    ensures total.Some? && total.value.branches.Some? ==> e.branches == total.value.branches.value
    ensures total.Some? && total.value.branches.None? ==> e.branches == 0.0
  {
    var t := if total.Some? then total.value else TotalMetrics(None, None, None, None);
    Entry(day, Pct(t.lines), Pct(t.statements), Pct(t.functions), Pct(t.branches))
  }

  /** `s.length > n ? s.slice(-n) : s` */
  function LastN<T>(s: seq<T>, n: nat): (r: seq<T>)
    ensures |r| == if |s| <= n then |s| else n
    ensures r == s[|s| - |r|..]
  {
    if |s| > n then s[|s| - n..] else s
  }

  /** `[...history].reverse()` */
  function Reverse<T>(s: seq<T>): (r: seq<T>)
    ensures |r| == |s|
    ensures forall i :: 0 <= i < |s| ==> r[i] == s[|s| - 1 - i]
  {
    if s == [] then [] else [s[|s| - 1]] + Reverse(s[..|s| - 1])
  }

  /** The page `generateMarkdownSummary` renders for a history. */
  function PageOf(history: seq<Entry>): SummaryPage {
    SummaryPage(
      if |history| > 0 then LatestTable(history[|history| - 1]) else NoCoverageYet,
      if |history| > 0 then HistoryTable(Reverse(history)) else NoHistoryYet)
  }

  /** What one run of the script writes. */
  function Update(historyFile: HistoryFile, summary: SummaryFile, now: string): Outcome {
    match summary
    case Missing => SummaryNotFound
    case Malformed => UpdateFailed
    case Summary(total) =>
      match LoadedHistory(historyFile)
      case None => UpdateFailed
      case Some(h) =>
        var history := LastN(h + [NewEntry(TakeUntil(now, 'T'), total)], Kept);
        Updated(history, PageOf(history))
  }

  /**
   * `generateMarkdownSummary(historyData)`: the latest section shows the last entry,
   * and the history rows are built by walking a reversed copy.
   */
  method GenerateMarkdownSummary(history: seq<Entry>) returns (page: SummaryPage)
    ensures page == PageOf(history)
  {
    var latest := if |history| > 0 then LatestTable(history[|history| - 1]) else NoCoverageYet;
    if |history| == 0 {
      return SummaryPage(latest, NoHistoryYet);
    }
    var reversed := Reverse(history);
    var rows: seq<Entry> := [];
    for i := 0 to |reversed|
      invariant rows == reversed[..i]
    {
      rows := rows + [reversed[i]];
    }
    assert reversed[..|reversed|] == reversed;
    page := SummaryPage(latest, HistoryTable(rows));
  }

  /** The script's top level: load the history, push today's entry, trim, render. */
  method UpdateCoverageScript(historyFile: HistoryFile, summary: SummaryFile, now: string)
    returns (outcome: Outcome)
    ensures outcome == Update(historyFile, summary, now)
  {
    var dateString := TakeUntil(now, 'T');
    var coverageHistory := LoadedHistory(historyFile);
    if summary.Missing? {
      return SummaryNotFound;
    }
    if summary.Malformed? || coverageHistory.None? {
      return UpdateFailed;
    }
    var history := coverageHistory.value;
    history := history + [NewEntry(dateString, summary.total)];
    if |history| > Kept {
      history := history[|history| - Kept..];
    }
    var page := GenerateMarkdownSummary(history);
    outcome := Updated(history, page);
  }

  /** With the summary present and the history loaded, the script writes the last ten entries. */
  lemma UpdateLoaded(historyFile: HistoryFile, total: Option<TotalMetrics>, now: string)
    requires LoadedHistory(historyFile).Some?
    ensures var kept := LastN(LoadedHistory(historyFile).value + [NewEntry(TakeUntil(now, 'T'), total)], Kept);
      Update(historyFile, Summary(total), now) == Updated(kept, PageOf(kept))
  {
  }

  /**
   * When the summary exists and the history loads, exactly one entry for today's date
   * is appended: the written history ends with it, the entries before it are the most
   * recent stored ones in their stored order, and there are at most ten.
   */
  lemma UpdateAppendsOne(historyFile: HistoryFile, total: Option<TotalMetrics>, now: string)
    requires LoadedHistory(historyFile).Some?
    ensures var h := LoadedHistory(historyFile).value;
      var out := Update(historyFile, Summary(total), now);
      && out.Updated?
      && |out.history| == (if |h| + 1 <= Kept then |h| + 1 else Kept)
      && out.history[|out.history| - 1] == NewEntry(TakeUntil(now, 'T'), total)
      && out.history[..|out.history| - 1] == h[|h| + 1 - |out.history|..]
  {
    var h := LoadedHistory(historyFile).value;
    var e := NewEntry(TakeUntil(now, 'T'), total);
    var full := h + [e];
    var kept := LastN(full, Kept);
    UpdateLoaded(historyFile, total, now);
    assert kept == full[|full| - |kept|..];
    assert kept[|kept| - 1] == full[|full| - 1] == e;
    assert kept[..|kept| - 1] == h[|h| + 1 - |kept|..] by {
      assert full[|full| - |kept|..][..|kept| - 1] == full[|full| - |kept|..|full| - 1];
      assert full[..|full| - 1] == h;
    }
  }

  /** A missing or unreadable history file starts an empty history. */
  lemma UnreadableHistoryStartsEmpty(total: Option<TotalMetrics>, now: string)
    ensures Update(Unreadable, Summary(total), now) ==
      var history := [NewEntry(TakeUntil(now, 'T'), total)];
      Updated(history, PageOf(history))
  {
  }

  /** Without the summary JSON nothing is written; a malformed one writes nothing either. */
  lemma NothingWrittenWithoutSummary(historyFile: HistoryFile, summary: SummaryFile, now: string)
    ensures !summary.Summary? ==> !Update(historyFile, summary, now).Updated?
    ensures summary.Missing? ==> Update(historyFile, summary, now) == SummaryNotFound
  {
  }

  /** Below the bound nothing is trimmed: the written history is the stored one plus today's entry. */
  lemma UpdateBelowBound(h: seq<Entry>, total: Option<TotalMetrics>, now: string)
    requires |h| + 1 <= Kept
    ensures var out := Update(Parsed(Some(h)), Summary(total), now);
      out.Updated? && out.history == h + [NewEntry(TakeUntil(now, 'T'), total)]
  {
    assert LastN(h + [NewEntry(TakeUntil(now, 'T'), total)], Kept) == h + [NewEntry(TakeUntil(now, 'T'), total)];
  }

  /**
   * There is no same-day de-duplication: a second run on the same day, from what the
   * first run wrote, appends a second entry with the same date.
   */
  lemma SameDayAppendsTwice(h: seq<Entry>, total: Option<TotalMetrics>, now: string)
    requires |h| + 2 <= Kept
    ensures var first := Update(Parsed(Some(h)), Summary(total), now);
      && first.Updated?
      && var second := Update(Parsed(Some(first.history)), Summary(total), now);
      && second.Updated?
      && second.history == h + [NewEntry(TakeUntil(now, 'T'), total), NewEntry(TakeUntil(now, 'T'), total)]
  {
    var e := NewEntry(TakeUntil(now, 'T'), total);
    UpdateBelowBound(h, total, now);
    UpdateBelowBound(h + [e], total, now);
    assert (h + [e]) + [e] == h + [e, e];
  }

  /**
   * The page: the latest section shows the last entry, rows run newest first and the
   * first row is the latest entry; an empty history shows both no-data texts.
   */
  lemma PageFacts(history: seq<Entry>)
    ensures var page := PageOf(history);
      && (|history| == 0 <==> page.latest == NoCoverageYet)
      && (|history| == 0 <==> page.history == NoHistoryYet)
      && (|history| > 0 ==>
            && page.history.rows[0] == page.latest.latest
            && |page.history.rows| == |history|
            && forall i :: 0 <= i < |history| ==> page.history.rows[i] == history[|history| - 1 - i])
  {
  }

  /** Reversing the rows again gives the stored order. */
  lemma {:induction false} ReverseReverse<T>(s: seq<T>)
    ensures Reverse(Reverse(s)) == s
  {
    var r := Reverse(s);
    assert forall i :: 0 <= i < |s| ==> Reverse(r)[i] == s[i] by {
      forall i | 0 <= i < |s| ensures Reverse(r)[i] == s[i] {
        assert Reverse(r)[i] == r[|r| - 1 - i];
      }
    }
  }
}
