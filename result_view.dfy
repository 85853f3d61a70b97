/**
 * The result screen (components/ResultView.tsx) reduced to the values it displays: the
 * overall header, then one numbered section per task with its feedback table, the summary
 * row, the corrections and the numbered improvement suggestions.
 *
 * Markup, styling and animation are not modelled; a value that the markup interpolates is
 * kept as it is, a value the code computes (a label, a number, a default) is computed here.
 */
module ResultView {
  import opened Types

  // ---------------------------------------------------------------------------
  // Dimension labels (FeedbackTable)
  // ---------------------------------------------------------------------------

  /** `dimensionMap`: bare dimension names to their coded labels, coded labels to themselves. */
  const DimensionMap: map<string, string> := map[
    "Content" := "Content (C)",
    "Organisation" := "Organisation (O)",
    "Language" := "Language (L)",
    "Content (C)" := "Content (C)",
    "Organisation (O)" := "Organisation (O)",
    "Language (L)" := "Language (L)"
  ]

  /** The three labels the table prefers. */
  const CodedLabels: set<string> := {"Content (C)", "Organisation (O)", "Language (L)"}

  /** `dimensionMap[item.dimension] || item.dimension`. */
  function DisplayDimension(dimension: string): (shown: string)
    ensures shown in CodedLabels || shown == dimension
    ensures dimension !in DimensionMap ==> shown == dimension
  {
    if dimension in DimensionMap && DimensionMap[dimension] != "" then DimensionMap[dimension] else dimension
  }

  /** The bare names are shown with their codes. */
  lemma BareNamesGetCodes()
    ensures DisplayDimension("Content") == "Content (C)"
    ensures DisplayDimension("Organisation") == "Organisation (O)"
    ensures DisplayDimension("Language") == "Language (L)"
  {
  }

  /** A label already coded is shown as it is. */
  lemma CodedLabelsAreFixed(coded: string)
    requires coded in CodedLabels
    ensures DisplayDimension(coded) == coded
  {
  }

  /** Normalising a label twice gives what normalising it once gives. */
  lemma DisplayDimensionIdempotent(dimension: string)
    ensures DisplayDimension(DisplayDimension(dimension)) == DisplayDimension(dimension)
  {
    var once := DisplayDimension(dimension);
    if once in CodedLabels {
      CodedLabelsAreFixed(once);
    }
  }

  // ---------------------------------------------------------------------------
  // Displayed values
  // ---------------------------------------------------------------------------

  /** The maximum printed after each feedback score, and after the raw total. */
  const DimensionMax: int := 5
  const TaskRawMax: int := 15

  /** A value printed with its 1-based position. */
  datatype Numbered<T> = Numbered(number: nat, item: T)

  /** One row of the feedback table: label, `score/5`, the comments. */
  datatype FeedbackRow = FeedbackRow(dimension: string, score: int, outOf: int, comments: string)

  /** The summary row: `content + organisation + language = totalRaw / 15 → scaleScore (cefrLevel)`.
      Every value is as given in the data; `None` where `task.scores` was absent. */
  datatype SummaryRow = SummaryRow(
    content: Option<int>,
    organisation: Option<int>,
    language: Option<int>,
    totalRaw: Option<int>,
    outOf: int,
    scaleScore: Option<int>,
    cefrLevel: Option<string>)

  datatype TaskSection = TaskSection(
    number: nat,
    taskName: string,
    rows: seq<FeedbackRow>,
    summary: SummaryRow,
    corrections: seq<Correction>,
    suggestions: seq<Numbered<string>>)

  datatype Page = Page(
    totalScaleScore: int,
    overallCefrLevel: string,
    overallSummary: string,
    sections: seq<TaskSection>)

  /** `list || []`. */
  function OrEmpty<T>(list: Option<seq<T>>): seq<T>
  {
    match list
    case Some(s) => s
    case None => []
  }

  /** `items.map((x, i) => … i + 1 …)`, numbering from `first`. */
  function NumberFrom<T>(first: nat, items: seq<T>): (numbered: seq<Numbered<T>>)
    ensures |numbered| == |items|
    ensures forall i :: 0 <= i < |items| ==> numbered[i] == Numbered(first + i, items[i])
    decreases |items|
  {
    if items == [] then [] else [Numbered(first, items[0])] + NumberFrom(first + 1, items[1..])
  }

  /** `feedback.map(...)`: one row per entry, in order. */
  function FeedbackRows(feedback: seq<FeedbackSection>): (rows: seq<FeedbackRow>)
    ensures |rows| == |feedback|
    ensures forall i :: 0 <= i < |feedback| ==>
      rows[i] == FeedbackRow(DisplayDimension(feedback[i].dimension), feedback[i].score, DimensionMax, feedback[i].comments)
    decreases |feedback|
  {
    if feedback == [] then []
    else
      var item := feedback[0];
      [FeedbackRow(DisplayDimension(item.dimension), item.score, DimensionMax, item.comments)] + FeedbackRows(feedback[1..])
  }

  /** The summary row of a task (`task.scores || {}`). */
  function Summary(scores: Option<ScoreBreakdown>): (row: SummaryRow)
    ensures row.outOf == TaskRawMax
    ensures scores.None? <==> row.content.None?
    ensures scores.None? ==> row == SummaryRow(None, None, None, None, TaskRawMax, None, None)
    ensures scores.Some? ==>
      && row.content == Some(scores.value.content)
      && row.organisation == Some(scores.value.organisation)
      && row.language == Some(scores.value.language)
      && row.totalRaw == Some(scores.value.totalRaw)
      && row.scaleScore == Some(scores.value.scaleScore)
      && row.cefrLevel == Some(scores.value.cefrLevel)
  {
    match scores
    case None => SummaryRow(None, None, None, None, TaskRawMax, None, None)
    case Some(s) => SummaryRow(Some(s.content), Some(s.organisation), Some(s.language), Some(s.totalRaw),
                               TaskRawMax, Some(s.scaleScore), Some(s.cefrLevel))
  }

  /** One task section; `number` is its 1-based position. */
  function Section(number: nat, task: TaskReport): TaskSection
  {
    TaskSection(
      number,
      task.taskName,
      FeedbackRows(OrEmpty(task.feedback)),
      Summary(task.scores),
      OrEmpty(task.corrections),
      NumberFrom(1, OrEmpty(task.improvementSuggestions)))
  }

  /** `tasks.map((task, idx) => …)`, numbering from `first`. */
  function SectionsFrom(first: nat, tasks: seq<TaskReport>): (sections: seq<TaskSection>)
    ensures |sections| == |tasks|
    ensures forall i :: 0 <= i < |tasks| ==> sections[i] == Section(first + i, tasks[i])
    decreases |tasks|
  {
    if tasks == [] then [] else [Section(first, tasks[0])] + SectionsFrom(first + 1, tasks[1..])
  }

  /** The whole screen for one grading result. */
  function Render(result: GradingResult): Page
  {
    Page(result.totalScaleScore, result.overallCefrLevel, result.overallSummary,
         SectionsFrom(1, OrEmpty(result.tasks)))
  }

  // ---------------------------------------------------------------------------
  // What the screen promises
  // ---------------------------------------------------------------------------

  /** Sections follow the result's task order and are numbered 1, 2, …, n; an absent list shows none. */
  lemma SectionsInOrderNumberedFromOne(result: GradingResult)
    ensures |Render(result).sections| == |OrEmpty(result.tasks)|
    ensures result.tasks.None? ==> Render(result).sections == []
    ensures forall k :: 0 <= k < |OrEmpty(result.tasks)| ==>
      && Render(result).sections[k].number == k + 1
      && Render(result).sections[k].taskName == OrEmpty(result.tasks)[k].taskName
  {
  }

  /** Within a section, feedback rows and corrections keep the data's order, suggestions are
      numbered 1..n in list order, and every absent list shows as empty. */
  lemma SectionContents(number: nat, task: TaskReport)
    ensures var sec := Section(number, task);
      && |sec.rows| == |OrEmpty(task.feedback)|
      && (task.feedback.None? ==> sec.rows == [])
      && sec.corrections == OrEmpty(task.corrections)
      && (task.corrections.None? ==> sec.corrections == [])
      && |sec.suggestions| == |OrEmpty(task.improvementSuggestions)|
      && (task.improvementSuggestions.None? ==> sec.suggestions == [])
      && forall i :: 0 <= i < |sec.suggestions| ==>
           sec.suggestions[i] == Numbered(i + 1, OrEmpty(task.improvementSuggestions)[i])
  {
  }

  /** Every feedback row is printed out of 5 with its dimension normalised; a row whose
      dimension is not in the map shows it unchanged. */
  lemma FeedbackRowsOutOfFive(feedback: seq<FeedbackSection>, i: nat)
    requires i < |feedback|
    ensures FeedbackRows(feedback)[i].outOf == DimensionMax
    ensures FeedbackRows(feedback)[i].score == feedback[i].score
    ensures feedback[i].dimension !in DimensionMap ==> FeedbackRows(feedback)[i].dimension == feedback[i].dimension
  {
  }
}
