/**
 * Shapes shared by the grading service, the upload form, the application shell and
 * the result view (types.ts). Numbers are modelled as `int`.
 *
 * The list- and record-valued fields of a grading result are `Option`s: the value the
 * application receives is whatever the JSON parser produced from the AI's reply, which
 * is never checked against the declared interface, and the result view defends against
 * each of them being absent.
 */
module Types {

  datatype Option<+T> = None | Some(value: T)

  datatype Result<+R, +E> = Ok(value: R) | Err(error: E)

  /** The three exam task selections (types.ts `TaskType`). */
  datatype TaskType = Part6 | Part7 | Both

  /** The string value of each enum member, which the request text embeds. */
  function TaskTypeValue(t: TaskType): string
  {
    match t
    case Part6 => "Part 6"
    case Part7 => "Part 7"
    case Both => "Combined (Part 6 & 7)"
  }

  /** Distinct task types have distinct string values, so the request names the selection. */
  lemma TaskTypeValueInjective(a: TaskType, b: TaskType)
    ensures TaskTypeValue(a) == TaskTypeValue(b) <==> a == b
  {
  }

  datatype ScoreBreakdown = ScoreBreakdown(
    content: int,
    organisation: int,
    language: int,
    totalRaw: int,
    scaleScore: int,
    cefrLevel: string)

  datatype FeedbackSection = FeedbackSection(dimension: string, score: int, comments: string)

  datatype Correction = Correction(original: string, corrected: string, explanation: string)

  /** One element of `GradingResult.tasks`. */
  datatype TaskReport = TaskReport(
    taskName: string,
    scores: Option<ScoreBreakdown>,
    feedback: Option<seq<FeedbackSection>>,
    corrections: Option<seq<Correction>>,
    improvementSuggestions: Option<seq<string>>)

  datatype GradingResult = GradingResult(
    overallSummary: string,
    totalScaleScore: int,
    overallCefrLevel: string,
    tasks: Option<seq<TaskReport>>)

  /** One submitted task: the data URLs of the prompt photo and of the answer photo. */
  datatype ImagePair = ImagePair(prompt: string, answer: string)
}
