/**
 * The application shell (App.tsx): the screen step, the selected task type, the grading
 * result, the error banner and the rotating progress message.
 *
 * The component's state lives in the fields of class `App`; its handlers are methods whose
 * postconditions give the new state as a pure transition of the old one (`AfterStart`,
 * `AfterOutcome`, `AfterReset`), and the lemmas state what those transitions keep.
 * The interval timer is not modelled: each of its firings is a call of `Tick`, which
 * touches only the progress message, so its interleaving with the other handlers does not
 * change the rest of the state.
 */
module AppShell {
  import opened Types
  import GeminiService

  /** `currentStep`: 'upload' | 'loading' | 'result'. */
  datatype Step = UploadScreen | LoadingScreen | ResultScreen

  /** The part of the state the handlers other than the timer read and write. */
  datatype Screen = Screen(step: Step, taskType: TaskType, result: Option<GradingResult>, error: Option<string>)

  const InitialLoadingMessage: string := "AI 考官正在审阅你的作文..."

  const LoadingMessages: seq<string> := [
    "正在识别手写内容...",
    "正在分析语法结构...",
    "根据剑桥官方标准进行打分...",
    "正在生成针对性的修改建议...",
    "即将揭晓评分结果..."
  ]

  /** The one banner text every failure of a grading attempt is shown as. */
  const FailureMessage: string := "评分过程中出现错误，请检查网络或图片质量后重试。"

  const Initial: Screen := Screen(UploadScreen, Part6, None, None)

  // ---------------------------------------------------------------------------
  // Transitions
  // ---------------------------------------------------------------------------

  /** The synchronous start of `handleStartGrading`: show the loading step, clear the error. */
  function AfterStart(s: Screen): Screen
  {
    s.(step := LoadingScreen, error := None)
  }

  /** The end of `handleStartGrading`: keep the result and show it, or set the banner and go back. */
  function AfterOutcome(s: Screen, outcome: Result<Option<GradingResult>, GeminiService.GradeError>): Screen
  {
    match outcome
    case Ok(v) => s.(result := v, step := ResultScreen)
    case Err(_) => s.(error := Some(FailureMessage), step := UploadScreen)
  }

  /** `handleReset`. */
  function AfterReset(s: Screen): Screen
  {
    s.(result := None, step := UploadScreen, error := None)
  }

  /** The result view is rendered (App.tsx:96): result step and a truthy result. */
  predicate ShowsResult(s: Screen)
  {
    s.step == ResultScreen && s.result.Some?
  }

  /** What every reachable state satisfies: a result only on the result step, and an error
      only on the upload step, always the fixed failure text. */
  predicate Consistent(s: Screen)
  {
    && (s.result.Some? ==> s.step == ResultScreen)
    && (s.error.Some? ==> s.step == UploadScreen && s.error.value == FailureMessage)
  }

  lemma InitialIsConsistent()
    ensures Consistent(Initial)
    ensures !ShowsResult(Initial) && Initial.error.None?
  {
  }

  /** Each handler keeps the state consistent, when called where the interface offers it. */
  lemma TransitionsKeepConsistent(s: Screen, outcome: Result<Option<GradingResult>, GeminiService.GradeError>)
    requires Consistent(s)
    ensures s.step == UploadScreen ==> Consistent(AfterStart(s)) && AfterStart(s).result.None?
    ensures s.step == LoadingScreen ==> Consistent(AfterOutcome(s, outcome))
    ensures Consistent(AfterReset(s))
  {
  }

  /** Under the invariant the rendering guard reduces to "a result is present". */
  lemma ShowsResultIffPresent(s: Screen)
    requires Consistent(s)
    ensures ShowsResult(s) <==> s.result.Some?
  {
  }

  /** A failed attempt, of whatever kind, lands on the upload step with the banner set and nothing rendered. */
  lemma FailureReturnsToUpload(s: Screen, e: GeminiService.GradeError)
    requires Consistent(s) && s.step == LoadingScreen
    ensures var t := AfterOutcome(s, Err(e));
      t.step == UploadScreen && t.error == Some(FailureMessage) && t.result.None? && !ShowsResult(t)
  {
  }

  /** A successful attempt shows exactly the value the service returned, with no banner. */
  lemma SuccessShowsReturnedValue(s: Screen, v: Option<GradingResult>)
    requires Consistent(s) && s.step == LoadingScreen
    ensures var t := AfterOutcome(s, Ok(v));
      t.step == ResultScreen && t.result == v && t.error.None? && (ShowsResult(t) <==> v.Some?)
  {
  }

  /** Reset lands on the same state however often it is applied. */
  lemma ResetIdempotent(s: Screen)
    ensures AfterReset(AfterReset(s)) == AfterReset(s)
    ensures AfterReset(s) == Initial.(taskType := s.taskType)
  {
  }

  // ---------------------------------------------------------------------------
  // The progress message rotation (App.tsx:28-31)
  // ---------------------------------------------------------------------------

  /** One firing of the interval: advance by one, wrapping after the last message. */
  function NextMessageIndex(i: nat): (j: nat)
    requires i < |LoadingMessages|
    ensures j < |LoadingMessages|
    ensures j == 0 <==> i == |LoadingMessages| - 1
  {
    (i + 1) % |LoadingMessages|
  }

  /** The index after `ticks` firings, starting from 0. */
  function IndexAfterTicks(ticks: nat): (i: nat)
    ensures i < |LoadingMessages|
  {
    if ticks == 0 then 0 else NextMessageIndex(IndexAfterTicks(ticks - 1))
  }

  /** After `ticks` firings the message shown is number `ticks mod 5`, so every message recurs every five ticks. */
  lemma {:induction false} IndexAfterTicksIsMod(ticks: nat)
    ensures IndexAfterTicks(ticks) == ticks % |LoadingMessages|
  {
    if ticks > 0 {
      IndexAfterTicksIsMod(ticks - 1);
    }
  }

  class App {
    var currentStep: Step
    var taskType: TaskType
    var loadingMessage: string
    var result: Option<GradingResult>
    var error: Option<string>
    var msgIndex: nat

    function Snapshot(): Screen
      reads this
    {
      Screen(currentStep, taskType, result, error)
    }

    ghost predicate Valid()
      reads this
    {
      Consistent(Snapshot()) && msgIndex < |LoadingMessages|
    }

    constructor ()
      ensures Valid()
      ensures Snapshot() == Initial
      ensures loadingMessage == InitialLoadingMessage && msgIndex == 0
    {
      currentStep := UploadScreen;
      taskType := Part6;
      loadingMessage := InitialLoadingMessage;
      result := None;
      error := None;
      msgIndex := 0;
    }

    /** `setTaskType`, handed to the upload form. */
    method SetTaskType(t: TaskType)
      requires Valid()
      modifies this
      ensures Valid()
      ensures Snapshot() == old(Snapshot()).(taskType := t)
      ensures loadingMessage == old(loadingMessage) && msgIndex == old(msgIndex)
    {
      taskType := t;
    }

    /** The first two statements of `handleStartGrading`, plus `msgIndex = 0`. Only the upload
        form, shown on the upload step, can call it. */
    method StartGrading()
      requires Valid() && currentStep == UploadScreen
      modifies this
      ensures Valid()
      ensures Snapshot() == AfterStart(old(Snapshot()))
      ensures msgIndex == 0 && loadingMessage == old(loadingMessage)
    {
      currentStep := LoadingScreen;
      error := None;
      msgIndex := 0;
    }

    /** One firing of the interval while the request is in flight. */
    method Tick()
      requires Valid() && currentStep == LoadingScreen
      modifies this
      ensures Valid()
      ensures Snapshot() == old(Snapshot())
      ensures msgIndex == NextMessageIndex(old(msgIndex))
      ensures loadingMessage == LoadingMessages[msgIndex]
    {
      msgIndex := (msgIndex + 1) % |LoadingMessages|;
      loadingMessage := LoadingMessages[msgIndex];
    }

    /** The `try`/`catch` after the awaited call: any error becomes the one failure text. */
    method FinishGrading(outcome: Result<Option<GradingResult>, GeminiService.GradeError>)
      requires Valid() && currentStep == LoadingScreen
      modifies this
      ensures Valid()
      ensures Snapshot() == AfterOutcome(old(Snapshot()), outcome)
      ensures loadingMessage == old(loadingMessage) && msgIndex == old(msgIndex)
    {
      match outcome
      case Ok(v) =>
        result := v;
        currentStep := ResultScreen;
      case Err(_) =>
        error := Some(FailureMessage);
        currentStep := UploadScreen;
    }

    /** `handleStartGrading` end to end, with the service call in between and no timer firing. */
    method HandleStartGrading(images: seq<ImagePair>,
                              send: seq<GeminiService.Part> -> GeminiService.Reply,
                              parse: string -> GeminiService.Parse)
      requires Valid() && currentStep == UploadScreen
      modifies this
      ensures Valid()
      ensures Snapshot() == AfterOutcome(AfterStart(old(Snapshot())),
        GeminiService.ServiceOutcome(send(GeminiService.RequestParts(old(taskType), images)), parse))
    {
      StartGrading();
      var outcome := GeminiService.GradeWriting(taskType, images, send, parse);
      FinishGrading(outcome);
    }

    /** `handleReset`. */
    method HandleReset()
      requires Valid()
      modifies this
      ensures Valid()
      ensures Snapshot() == AfterReset(old(Snapshot()))
      ensures loadingMessage == old(loadingMessage) && msgIndex == old(msgIndex)
    {
      result := None;
      currentStep := UploadScreen;
      error := None;
    }
  }
}
