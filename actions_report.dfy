/**
 * scripts/github-actions-report.js: turns the saved workflow runs of a repository into
 * an HTML report. Modelled here: the colour tables, the summary counters, the
 * `data-status` attribute the client-side filter reads, the failed-job banner, the
 * job and step lists with their placeholders, and the output file name.
 *
 * The HTML text itself is not modelled: each card is a value holding what the
 * template interpolates. A JSON field that is `null` or absent is None.
 */
module ActionsReport {
  import opened Wrappers
  import opened Strings

  type Field = Option<string>

  /** JavaScript truthiness of a string field: absent and "" are falsy. */
  predicate Truthy(f: Field) {
    f.Some? && f.value != ""
  }

  /** `a || b` on string fields. */
  function Or(a: Field, b: Field): Field {
    if Truthy(a) then a else b
  }

  const Grey := "#9e9e9e"
  const Green := "#4caf50"
  const Red := "#f44336"
  const Orange := "#ff9800"
  const Blue := "#2196f3"
  const DefaultWorkflowColor := "#424242"

  /** `getStatusColor(status, conclusion)` */
  function StatusColor(status: Field, conclusion: Field): (c: string)
    ensures status != Some("completed") ==> c == Grey
  {
    if status != Some("completed") then Grey
    else if conclusion == Some("success") then Green
    else if conclusion == Some("failure") then Red
    else if conclusion == Some("cancelled") then Orange
    else if conclusion == Some("skipped") then Blue
    else Grey
  }

  /** Each non-grey colour is given for exactly one completed conclusion, and grey for the rest. */
  lemma StatusColorCases(status: Field, conclusion: Field)
    ensures var c := StatusColor(status, conclusion);
      && (c == Green <==> status == Some("completed") && conclusion == Some("success"))
      && (c == Red <==> status == Some("completed") && conclusion == Some("failure"))
      && (c == Orange <==> status == Some("completed") && conclusion == Some("cancelled"))
      && (c == Blue <==> status == Some("completed") && conclusion == Some("skipped"))
      && (c == Grey <==>
            status != Some("completed") ||
            conclusion !in {Some("success"), Some("failure"), Some("cancelled"), Some("skipped")})
  {
  }

  /** `workflowColorMap` */
  const WorkflowColorMap: map<string, string> := map[
    "コード品質チェック（リント）" := "#673AB7",
    "コードフォーマットチェック" := "#2196F3",
    "単体テスト実行" := "#4CAF50",
    "統合テスト実行" := "#FF9800",
    "開発環境 CI/CD" := "#03A9F4",
    "本番環境 CI/CD" := "#F44336",
    "再利用可能セットアップ" := "#9E9E9E",
    "データベースマイグレーション" := "#795548",
    "デプロイ後検証" := "#009688",
    "本番環境へのプロモート" := "#E91E63"
  ]

  /** `workflowColorMap[workflowName] || '#424242'` */
  function WorkflowColor(workflowName: Field): (c: string)
    ensures workflowName.Some? && workflowName.value in WorkflowColorMap ==>
      c == WorkflowColorMap[workflowName.value]
  {
    if workflowName.Some? && workflowName.value in WorkflowColorMap then WorkflowColorMap[workflowName.value]
    else DefaultWorkflowColor
  }

  /**
   * The default colour is given exactly to the names outside the map, since no
   * mapped colour equals it.
   */
  lemma WorkflowColorDefault(workflowName: Field)
    ensures forall name :: name in WorkflowColorMap ==> WorkflowColorMap[name] != DefaultWorkflowColor
    ensures WorkflowColor(workflowName) == DefaultWorkflowColor <==>
      workflowName.None? || workflowName.value !in WorkflowColorMap
  {
    forall name | name in WorkflowColorMap ensures WorkflowColorMap[name] != DefaultWorkflowColor {
      assert WorkflowColorMap[name][2] != DefaultWorkflowColor[2];
    }
  }

  datatype Step = Step(number: int, name: string, status: Field, conclusion: Field)

  datatype Job = Job(name: string, status: Field, conclusion: Field, steps: Option<seq<Step>>)

  /** A saved workflow run; `jobs` is None when the run has no `jobs` array. */
  datatype WorkflowRun = WorkflowRun(workflowName: Field, runNumber: int, runId: int,
                                     status: Field, conclusion: Field, jobs: Option<seq<Job>>)

  /** What one step's `<li>` shows: its colour and its `conclusion || status` caption. */
  datatype StepItem = StepItem(number: int, name: string, color: string, caption: Field)

  /** `generateStepsHTML(steps)` */
  datatype StepList = NoStepsPlaceholder | StepItems(items: seq<StepItem>)

  /** The steps part of a job card: the list, or the card's own "ステップ情報なし" text. */
  datatype StepsBlock = StepsList(list: StepList) | NoStepInfo

  datatype JobCard = JobCard(name: string, color: string, caption: Field, steps: StepsBlock)

  /** `generateJobsHTML(jobs)` */
  datatype JobList = NoJobsPlaceholder | JobCards(cards: seq<JobCard>)

  function StepItemOf(step: Step): StepItem {
    StepItem(step.number, step.name, StatusColor(step.status, step.conclusion), Or(step.conclusion, step.status))
  }

  /** `generateStepsHTML(steps)`: the placeholder for no steps, else one item per step in order. */
  method GenerateStepsHTML(steps: Option<seq<Step>>) returns (list: StepList)
    ensures steps.None? || steps.value == [] <==> list == NoStepsPlaceholder
    ensures list.StepItems? ==> (
      && |list.items| == |steps.value|
      && forall i :: 0 <= i < |list.items| ==> list.items[i] == StepItemOf(steps.value[i]))
  {
    if steps.None? || steps.value == [] {
      return NoStepsPlaceholder;
    }
    var items: seq<StepItem> := [];
    for i := 0 to |steps.value|
      invariant |items| == i
      invariant forall k :: 0 <= k < i ==> items[k] == StepItemOf(steps.value[k])
    {
      items := items + [StepItemOf(steps.value[i])];
    }
    list := StepItems(items);
  }

  /**
   * What a job card shows: the job's name, colour and `conclusion || status` caption, and
   * one step item per step in order, or "ステップ情報なし" when there are no steps.
   */
  predicate JobCardShows(card: JobCard, job: Job) {
    && card.name == job.name && card.caption == Or(job.conclusion, job.status)
    && card.color == StatusColor(job.status, job.conclusion)
    && (job.steps.None? || job.steps.value == [] <==> card.steps == NoStepInfo)
    && (card.steps.StepsList? ==>
          && card.steps.list.StepItems?
          && |card.steps.list.items| == |job.steps.value|
          && forall i :: 0 <= i < |job.steps.value| ==>
               card.steps.list.items[i] == StepItemOf(job.steps.value[i]))
  }

  /** A job card; its step list is rendered only for a non-empty `steps`. */
  method JobCardOf(job: Job) returns (card: JobCard)
    ensures JobCardShows(card, job)
  {
    var steps := NoStepInfo;
    if job.steps.Some? && |job.steps.value| > 0 {
      var list := GenerateStepsHTML(job.steps);
      steps := StepsList(list);
    }
    card := JobCard(job.name, StatusColor(job.status, job.conclusion), Or(job.conclusion, job.status), steps);
  }

  /** `generateJobsHTML(jobs)`: the placeholder for no jobs, else one card per job in order. */
  method GenerateJobsHTML(jobs: Option<seq<Job>>) returns (list: JobList)
    ensures jobs.None? || jobs.value == [] <==> list == NoJobsPlaceholder
    ensures list.JobCards? ==> (
      && |list.cards| == |jobs.value|
      && forall i :: 0 <= i < |list.cards| ==> JobCardShows(list.cards[i], jobs.value[i]))
  {
    if jobs.None? || jobs.value == [] {
      return NoJobsPlaceholder;
    }
    var cards: seq<JobCard> := [];
    for i := 0 to |jobs.value|
      invariant |cards| == i
      invariant forall k :: 0 <= k < i ==> JobCardShows(cards[k], jobs.value[k])
    {
      var card := JobCardOf(jobs.value[i]);
      cards := cards + [card];
    }
    list := JobCards(cards);
  }

  /** `run.jobs.some((job) => job.conclusion === 'failure')` */
  function HasFailedJobs(jobs: seq<Job>): (r: bool)
    ensures r <==> exists i :: 0 <= i < |jobs| && jobs[i].conclusion == Some("failure")
  {
    if jobs == [] then false
    else
      assert forall i :: 1 <= i < |jobs| ==> jobs[i] == jobs[1..][i - 1];
      jobs[0].conclusion == Some("failure") || HasFailedJobs(jobs[1..])
  }

  /** The `data-status` attribute of a run's card. */
  function DataStatus(run: WorkflowRun): (s: string)
    ensures s != ""
  {
    if run.status == Some("completed") then (if Truthy(run.conclusion) then run.conclusion.value else "unknown")
    else if run.status == Some("in_progress") then "in_progress"
    else if Truthy(run.status) then run.status.value
    else "unknown"
  }

  /** The client-side `filterWorkflows(status)`: whether a card stays displayed. */
  predicate Shown(filter: string, cardStatus: string) {
    filter == "all" || cardStatus == filter
  }

  predicate IsSucceeded(run: WorkflowRun) {
    run.status == Some("completed") && run.conclusion == Some("success")
  }

  predicate IsFailed(run: WorkflowRun) {
    run.status == Some("completed") && run.conclusion == Some("failure")
  }

  predicate IsCancelled(run: WorkflowRun) {
    run.status == Some("completed") && run.conclusion == Some("cancelled")
  }

  /** The summary's "in progress": every run that is not completed. */
  predicate IsInProgress(run: WorkflowRun) {
    run.status != Some("completed")
  }

  /** The number of runs satisfying `p`. */
  function CountIf(data: seq<WorkflowRun>, p: WorkflowRun -> bool): (n: nat)
    ensures n <= |data|
  {
    if data == [] then 0 else CountIf(data[..|data| - 1], p) + (if p(data[|data| - 1]) then 1 else 0)
  }

  datatype Counts = Counts(success: nat, failure: nat, cancelled: nat, inProgress: nat)

  /** The four summary counters of `generateHTMLReport`. */
  method CountRuns(data: seq<WorkflowRun>) returns (c: Counts)
    ensures c.success == CountIf(data, IsSucceeded)
    ensures c.failure == CountIf(data, IsFailed)
    ensures c.cancelled == CountIf(data, IsCancelled)
    ensures c.inProgress == CountIf(data, IsInProgress)
  {
    var successCount, failureCount, cancelledCount, inProgressCount := 0, 0, 0, 0;
    for i := 0 to |data|
      invariant successCount == CountIf(data[..i], IsSucceeded)
      invariant failureCount == CountIf(data[..i], IsFailed)
      invariant cancelledCount == CountIf(data[..i], IsCancelled)
      invariant inProgressCount == CountIf(data[..i], IsInProgress)
    {
      assert data[..i + 1][..i] == data[..i];
      var run := data[i];
      if run.status == Some("completed") {
        if run.conclusion == Some("success") {
          successCount := successCount + 1;
        } else if run.conclusion == Some("failure") {
          failureCount := failureCount + 1;
        } else if run.conclusion == Some("cancelled") {
          cancelledCount := cancelledCount + 1;
        }
      } else {
        inProgressCount := inProgressCount + 1;
      }
    }
    assert data[..|data|] == data;
    c := Counts(successCount, failureCount, cancelledCount, inProgressCount);
  }

  /** A completed run whose conclusion none of the counters takes (skipped, neutral, ...). */
  predicate Uncounted(run: WorkflowRun) {
    run.status == Some("completed") &&
    run.conclusion !in {Some("success"), Some("failure"), Some("cancelled")}
  }

  /**
   * Each run is counted at most once, so the counters add up to the number of runs
   * minus the completed runs with another conclusion.
   */
  lemma {:induction false} CountsPartition(data: seq<WorkflowRun>)
    ensures CountIf(data, IsSucceeded) + CountIf(data, IsFailed) + CountIf(data, IsCancelled) +
            CountIf(data, IsInProgress) + CountIf(data, Uncounted) == |data|
  {
    if data != [] {
      CountsPartition(data[..|data| - 1]);
    }
  }

  /** The counters sum to at most the run total, with equality iff no run is left uncounted. */
  lemma CountsBound(data: seq<WorkflowRun>)
    ensures CountIf(data, IsSucceeded) + CountIf(data, IsFailed) + CountIf(data, IsCancelled) +
            CountIf(data, IsInProgress) <= |data|
    ensures (CountIf(data, IsSucceeded) + CountIf(data, IsFailed) + CountIf(data, IsCancelled) +
             CountIf(data, IsInProgress) == |data|) <==>
            forall i :: 0 <= i < |data| ==> !Uncounted(data[i])
  {
    CountsPartition(data);
    CountZeroIff(data, Uncounted);
  }

  lemma {:induction false} CountZeroIff(data: seq<WorkflowRun>, p: WorkflowRun -> bool)
    ensures CountIf(data, p) == 0 <==> forall i :: 0 <= i < |data| ==> !p(data[i])
  {
    if data != [] {
      var n := |data|;
      CountZeroIff(data[..n - 1], p);
      assert forall i :: 0 <= i < n - 1 ==> data[..n - 1][i] == data[i];
    }
  }

  /**
   * For a run whose status is a GitHub run status and whose conclusion a GitHub
   * conclusion (neither ever names the other), the success, failure and cancelled
   * filters show exactly the runs their counters count, and the in-progress filter
   * only the runs whose status is 'in_progress'.
   */
  lemma FiltersMatchCompletedCounters(run: WorkflowRun)
    requires run.status !in {Some("success"), Some("failure"), Some("cancelled")}
    requires run.conclusion != Some("in_progress")
    ensures Shown("success", DataStatus(run)) <==> IsSucceeded(run)
    ensures Shown("failure", DataStatus(run)) <==> IsFailed(run)
    ensures Shown("cancelled", DataStatus(run)) <==> IsCancelled(run)
    ensures Shown("in_progress", DataStatus(run)) <==> run.status == Some("in_progress")
    ensures Shown("in_progress", DataStatus(run)) ==> IsInProgress(run)
  {
  }

  /** A queued run is counted as in progress, yet the in-progress filter hides its card. */
  lemma QueuedRunCountedButHidden(name: Field, jobs: Option<seq<Job>>)
    ensures var run := WorkflowRun(name, 1, 1, Some("queued"), None, jobs);
      && IsInProgress(run)
      && DataStatus(run) == "queued"
      && !Shown("in_progress", DataStatus(run))
  {
  }

  /** The card of one run. */
  datatype WorkflowCard = WorkflowCard(dataStatus: string, workflowColor: string, statusColor: string,
                                       badge: Field, failureBanner: bool, jobs: JobList)

  /** The detail section: one card per run, or the "実行結果がありません" card. */
  datatype Details = Cards(cards: seq<WorkflowCard>) | NoRunsCard

  datatype HtmlReport = HtmlReport(counts: Counts, total: nat, details: Details)

  /** What the card of `generateHTMLReport` shows for a run whose `jobs` array is present. */
  predicate CardShows(card: WorkflowCard, run: WorkflowRun)
    requires run.jobs.Some?
  {
    && card.dataStatus == DataStatus(run)
    && card.statusColor == StatusColor(run.status, run.conclusion)
    && card.workflowColor == WorkflowColor(run.workflowName)
    && card.badge == Or(run.conclusion, run.status)
    && card.failureBanner == HasFailedJobs(run.jobs.value)
    && (card.jobs == NoJobsPlaceholder <==> run.jobs.value == [])
    && (card.jobs.JobCards? ==>
          && |card.jobs.cards| == |run.jobs.value|
          && forall i :: 0 <= i < |run.jobs.value| ==> JobCardShows(card.jobs.cards[i], run.jobs.value[i]))
  }

  /** The card the `map` callback of `generateHTMLReport` renders for one run. */
  method WorkflowCardOf(run: WorkflowRun) returns (card: WorkflowCard)
    requires run.jobs.Some?
    ensures CardShows(card, run)
  {
    var hasFailedJobs := HasFailedJobs(run.jobs.value);
    var jobs := GenerateJobsHTML(run.jobs);
    card := WorkflowCard(DataStatus(run), WorkflowColor(run.workflowName),
                         StatusColor(run.status, run.conclusion), Or(run.conclusion, run.status),
                         hasFailedJobs, jobs);
  }

  /**
   * What the report of `generateHTMLReport` shows for runs that all have a `jobs` array:
   * the run total, the four counters, and one card per run in order, or the
   * "実行結果がありません" card when there are none.
   */
  predicate ReportShows(report: HtmlReport, data: seq<WorkflowRun>) {
    && report.total == |data|
    && report.counts.success == CountIf(data, IsSucceeded)
    && report.counts.failure == CountIf(data, IsFailed)
    && report.counts.cancelled == CountIf(data, IsCancelled)
    && report.counts.inProgress == CountIf(data, IsInProgress)
    && (data == [] <==> report.details == NoRunsCard)
    && (report.details.Cards? ==>
          && |report.details.cards| == |data|
          && forall i :: 0 <= i < |data| ==>
               data[i].jobs.Some? && CardShows(report.details.cards[i], data[i]))
  }

  /**
   * `generateHTMLReport(data)`. None when it throws: `run.jobs.some` is evaluated for
   * every run before `generateJobsHTML`'s own guard, so a run without a `jobs` array
   * aborts the report.
   */
  method GenerateHTMLReport(data: seq<WorkflowRun>) returns (report: Option<HtmlReport>)
    ensures report.None? <==> exists i :: 0 <= i < |data| && data[i].jobs.None?
    ensures report.Some? ==> ReportShows(report.value, data)
  {
    var counts := CountRuns(data);
    var workflowsContent: seq<WorkflowCard> := [];
    for i := 0 to |data|
      invariant |workflowsContent| == i
      invariant forall k :: 0 <= k < i ==> data[k].jobs.Some? && CardShows(workflowsContent[k], data[k])
    {
      var run := data[i];
      if run.jobs.None? {
        return None;
      }
      var card := WorkflowCardOf(run);
      workflowsContent := workflowsContent + [card];
    }
    var details := if |data| == 0 then NoRunsCard else Cards(workflowsContent);
    report := Some(HtmlReport(counts, |data|, details));
  }

  /** `inputFile.replace('.json', '.html')` */
  function OutputFilename(inputFile: string): string {
    ReplaceFirst(inputFile, ".json", ".html")
  }

  /**
   * Only the first ".json" is replaced: for an input `<stem>.json<rest>` whose stem has
   * no '.', the output is `<stem>.html<rest>`, whatever `rest` holds; a name without
   * ".json" is kept as it is.
   */
  lemma OutputFilenameFacts(stem: string, rest: string, name: string)
    requires '.' !in stem
    ensures OutputFilename(stem + ".json" + rest) == stem + ".html" + rest
    ensures !Contains(name, ".json") ==> OutputFilename(name) == name
  {
    var s := stem + ".json" + rest;
    assert s[|stem|..|stem| + 5] == ".json";
    forall j: nat | j < |stem| ensures !OccursAt(s, ".json", j) {
      assert s[j] == stem[j];
    }
    ReplaceFirstAt(s, ".json", ".html", |stem|);
    assert s[..|stem|] == stem && s[|stem| + 5..] == rest;
    ReplaceFirstAbsent(name, ".json", ".html");
  }

  /** How `main` ends. */
  datatype MainOutcome =
    | MissingArgument          // usage printed, exit 1
    | InputNotFound            // exit 1
    | UnreadableInput          // JSON read error, exit 1
    | ReportCrashed            // error caught by `main().catch`, exit 1
    | Written(outputFilename: string, report: HtmlReport)

  /**
   * `main()`: `args` is `process.argv.slice(2)`, `inputExists` whether the input path
   * exists, and `parsed` the parsed JSON (None when reading or parsing fails).
   */
  method RunReport(args: seq<string>, inputExists: bool, parsed: Option<seq<WorkflowRun>>)
    returns (outcome: MainOutcome)
    ensures args == [] || args[0] == "" ==> outcome == MissingArgument
    ensures args != [] && args[0] != "" && !inputExists ==> outcome == InputNotFound
    ensures args != [] && args[0] != "" && inputExists && parsed.None? ==> outcome == UnreadableInput
    ensures outcome.Written? ==>
      && args != [] && args[0] != "" && inputExists && parsed.Some?
      && outcome.outputFilename == OutputFilename(args[0])
      && (forall i :: 0 <= i < |parsed.value| ==> parsed.value[i].jobs.Some?)
      && ReportShows(outcome.report, parsed.value)
    ensures args != [] && args[0] != "" && inputExists && parsed.Some? ==>
      (outcome.Written? <==> forall i :: 0 <= i < |parsed.value| ==> parsed.value[i].jobs.Some?)
  {
    if args == [] || args[0] == "" {
      return MissingArgument;
    }
    var inputFile := args[0];
    if !inputExists {
      return InputNotFound;
    }
    if parsed.None? {
      return UnreadableInput;
    }
    var outputFilename := OutputFilename(inputFile);
    var htmlReport := GenerateHTMLReport(parsed.value);
    if htmlReport.None? {
      return ReportCrashed;
    }
    outcome := Written(outputFilename, htmlReport.value);
  }
}
