# KET writing examiner: a Dafny model of its deterministic core

The application lets a student photograph a Cambridge A2 Key writing task, both the
prompt and the handwritten answer. It sends the photos to a generative-AI model for
grading and shows the structured result. The model grades. The application's own logic is
four small pieces, and this project models each of them and proves what it promises:

- **The grading service** (`geminiService.ts`, module `GeminiService`).
  - It assembles the request's ordered content parts: one leading text naming the task
    type, then per image pair a prompt label, the prompt photo, an answer label and the
    answer photo. Each photo's base64 payload is `dataUrl.split(',')[1]`.
  - It sorts the model's reply into one of four outcomes: no candidates, empty text,
    malformed data, or the parsed value.
  - `BuildParts` is the `forEach`/`push` loop, proved equal to the specification function
    `RequestParts`. The lemmas give its layout, its labels and its payloads.
- **The upload form** (`components/UploadStep.tsx`, module `Upload`).
  - The form has four optional image slots, kept in class `UploadStep`; each setter
    changes exactly one slot.
  - The readiness test depends on the task type.
  - Submission yields one or two prompt/answer pairs, in order.
- **The application shell** (`App.tsx`, module `AppShell`).
  - Class `App` holds the screen step (upload, loading, result), the selected task type,
    the result, the error banner and the progress-message index.
  - Its handlers are methods. Each one's postcondition gives the new state as a pure
    transition of the old one. Lemmas show that the transitions keep the state consistent
    and that reset is idempotent.
  - The progress index rotates modulo 5.
- **The result screen** (`components/ResultView.tsx`, module `ResultView`).
  - The screen is modelled as the values it displays: normalised dimension labels,
    absent lists shown as empty, tasks and suggestions numbered from 1, scores out of 5,
    and the summary row's values as given.
- **Shared shapes** (`types.ts`, module `Types`): the task-type enum and the result records.

Four points where the code does less than a reader might expect; the model follows the code:

- The service raises three distinct error messages. The shell replaces every failure,
  transport failures included, with one fixed banner text. So the distinct messages never
  reach the user.
- Nothing checks that the number of task reports equals the number of submitted pairs,
  or that `totalRaw` is the sum of the three sub-scores. Both depend only on the AI's
  reply, and the model states neither.
- `JSON.parse` is not checked against the declared interface. So the top-level `tasks`
  field and every per-task list and score record are `Option`s here, although `types.ts`
  declares them required. The result view defends against each of them being absent.
- A reply whose text parses to a falsy value such as `null` counts as a success. The shell
  then moves to the result step with nothing to render. The guard at `App.tsx:96` is what
  keeps that case from crashing, and `AppShell.SuccessShowsReturnedValue` states it.

## Model

| member | source | states |
|---|---|---|
| `Types.TaskTypeValueInjective` | types.ts:2-6 | The three task types have pairwise distinct string values, so the request text identifies the selection. |
| `GeminiService.RequiredFieldsAreFourDistinct` | geminiService.ts:58 | The schema requires exactly four distinct top-level fields: overallSummary, totalScaleScore, overallCefrLevel, tasks. |
| `GeminiService.Split` | geminiService.ts:96 | Splitting on ',' always yields at least one piece, and no piece contains a comma. |
| `GeminiService.JoinSplit` | geminiService.ts:96 | Joining the pieces with commas gives back the original string. |
| `GeminiService.SplitJoin` | geminiService.ts:96 | Splitting the join of one or more comma-free pieces gives back exactly those pieces, so split and join are mutual inverses. |
| `GeminiService.SplitAtFirstComma` | geminiService.ts:96 | The first piece is the text before the first comma. The remaining pieces are the split of the text after it. With no comma there is exactly one piece. |
| `GeminiService.PayloadBetweenCommas` | geminiService.ts:93-104 | Field 1 of the split is defined exactly when the data URL contains a comma. It is then the text between the first and second commas. |
| `GeminiService.Decimal` | geminiService.ts:92 | A label's number is printed as one or more decimal digits, with no leading zero: the first digit is '0' only for zero. |
| `GeminiService.DecimalRoundTrip` | geminiService.ts:92 | Reading the printed digits back gives the number, so distinct numbers print differently. |
| `GeminiService.LabelNumber` | geminiService.ts:92-99 | The text between "Task " and " Prompt:" or " Answer:" is exactly the printed position. |
| `GeminiService.LabelsIdentifyPosition` | geminiService.ts:92-99 | Two prompt labels are equal iff their positions are equal, and likewise for answer labels. No prompt label equals an answer label. |
| `GeminiService.RequestPartsLayout` | geminiService.ts:89-106 | For n pairs the request has 1 + 4n parts. Part 0 is the one leading text naming the task type. Pair k fills positions 1+4k to 4+4k with its prompt label (number k+1), prompt data, answer label and answer data, so submission order is kept. |
| `GeminiService.InlinePartsAreJpeg` | geminiService.ts:93-105 | Every inline part has mime type image/jpeg, and its data is the payload of one of the submitted photos. |
| `GeminiService.BuildParts` | geminiService.ts:89-106 | The loop of pushes produces exactly the specified parts list. |
| `GeminiService.MessagesDistinct` | geminiService.ts:118-132 | The three service error messages are non-empty and pairwise distinct. |
| `GeminiService.Triage` | geminiService.ts:118-132 | No or zero candidates gives the no-candidates error, checked first. Candidates with absent or empty text give the empty-response error. Text that fails to parse gives the format error. Otherwise the outcome is the parsed value, unchanged. No triage outcome is a transport failure. |
| `GeminiService.NoCandidatesIgnoresText` | geminiService.ts:118-125 | Without candidates the outcome is the no-candidates error, whatever text and parser come with it. |
| `GeminiService.ServiceOutcome` | geminiService.ts:108-132 | A thrown transport failure passes through as such, and only then. A delivered response is triaged. |
| `GeminiService.GradeWriting` | geminiService.ts:61-133 | The call sends exactly the specified parts and returns the outcome of that reply. |
| `Upload.SelectableTypesAreAll` | components/UploadStep.tsx:81 | The selector offers exactly the three task types, each once. |
| `Upload.RequiredPairs` | components/UploadStep.tsx:58-71 | A task type needs one or two pairs, and two exactly for the combined type. |
| `Upload.ReadyIffRequiredTasksComplete` | components/UploadStep.tsx:58-60 | Ready holds iff each required task has both a prompt and an answer image present and non-empty: all four slots for the combined type, task 1's two slots otherwise. |
| `Upload.SingleTaskIgnoresTask2` | components/UploadStep.tsx:58-71 | For a single-task type the task-2 slots change neither readiness nor the submission. |
| `Upload.EmptyIsNeverReady` | components/UploadStep.tsx:55-60 | With all four slots empty, the form is ready for no task type. |
| `Upload.Submission` | components/UploadStep.tsx:62-71 | When ready, submission yields exactly the required number of pairs, and every image in them is present and non-empty. The first pair is task 1's. For the combined type the second is task 2's. |
| `Upload.UploadStep.constructor` | components/UploadStep.tsx:55-56 | All four slots start empty, and the form is not ready for any task type. |
| `Upload.UploadStep.SelectTask1Prompt` | components/UploadStep.tsx:113 | A finished read sets task 1's prompt to its result only; a failed read (`null`) empties the slot and leaves the form ready for no task type. Task 1's answer and both task-2 slots are unchanged. |
| `Upload.UploadStep.SelectTask1Answer` | components/UploadStep.tsx:118 | A finished read sets task 1's answer to its result only; a failed read (`null`) empties the slot and leaves the form ready for no task type. The other three slots are unchanged. |
| `Upload.UploadStep.SelectTask2Prompt` | components/UploadStep.tsx:130 | A finished read sets task 2's prompt to its result only; a failed read (`null`) empties the slot and leaves the form not ready for both tasks. The other three slots are unchanged. |
| `Upload.UploadStep.SelectTask2Answer` | components/UploadStep.tsx:135 | A finished read sets task 2's answer to its result only; a failed read (`null`) empties the slot and leaves the form not ready for both tasks. The other three slots are unchanged. |
| `Upload.UploadStep.HandleSubmit` | components/UploadStep.tsx:62-71 | The handler is callable only when ready, and it hands the grading service the submission of the current slots. |
| `AppShell.InitialIsConsistent` | App.tsx:10-14 | The initial state is the upload step with task type Part 6, no result and no error. It is consistent. |
| `AppShell.TransitionsKeepConsistent` | App.tsx:16-51 | Start, from the upload step, and completion, from the loading step, keep the invariant: a result only on the result step, and an error only on the upload step, always the fixed text. Reset keeps it from any state. |
| `AppShell.ShowsResultIffPresent` | App.tsx:96 | Under the invariant, the result view is shown iff a result is present. |
| `AppShell.FailureReturnsToUpload` | App.tsx:38-41 | Any failure, transport failures included, sets the one fixed message and returns to the upload step. No result is assigned and nothing is rendered. |
| `AppShell.SuccessShowsReturnedValue` | App.tsx:35-37 | On success the returned value is stored, the step becomes result and no banner shows. The result view appears iff the value is truthy. |
| `AppShell.ResetIdempotent` | App.tsx:47-51 | Reset clears the result and the error and goes to upload, keeping the task type. Applying it twice equals applying it once. |
| `AppShell.NextMessageIndex` | App.tsx:30 | The index stays in [0, 5) and wraps to 0 exactly after the last message. |
| `AppShell.IndexAfterTicks` | App.tsx:28-31 | Starting from 0, the index after any number of ticks is a valid message index. |
| `AppShell.IndexAfterTicksIsMod` | App.tsx:28-31 | After k ticks the index is k mod 5. |
| `AppShell.App.constructor` | App.tsx:10-14 | The fields start in the initial state, with the initial loading message. |
| `AppShell.App.SetTaskType` | App.tsx:11 | Only the task type changes. |
| `AppShell.App.StartGrading` | App.tsx:17-28 | The step becomes loading, the error is cleared and the message index restarts at 0. Nothing else changes. |
| `AppShell.App.Tick` | App.tsx:29-31 | The index advances by one modulo 5, the message shown is the one at the new index, and the screen state is untouched. |
| `AppShell.App.FinishGrading` | App.tsx:34-41 | Success stores the value and shows the result step. Failure sets the fixed message and returns to upload. |
| `AppShell.App.HandleStartGrading` | App.tsx:16-45 | Grading end to end: the new state is completion applied after start, with the outcome of the service call for the current task type and images. |
| `AppShell.App.HandleReset` | App.tsx:47-51 | The new state is reset applied to the old one, and the invariant is kept. |
| `ResultView.DisplayDimension` | components/ResultView.tsx:18-41 | A dimension is shown as one of the three coded labels or unchanged. A dimension outside the map is always shown unchanged. |
| `ResultView.BareNamesGetCodes` | components/ResultView.tsx:18-21 | Content, Organisation and Language are shown as Content (C), Organisation (O) and Language (L). |
| `ResultView.CodedLabelsAreFixed` | components/ResultView.tsx:22-24 | An already-coded label is shown as itself. |
| `ResultView.DisplayDimensionIdempotent` | components/ResultView.tsx:18-41 | Normalising a label twice equals normalising it once. |
| `ResultView.NumberFrom` | components/ResultView.tsx:160-162 | Numbering keeps the list's length and order and gives item i the number first + i. |
| `ResultView.FeedbackRows` | components/ResultView.tsx:38-50 | There is one row per feedback entry, in order. Each row has the normalised dimension, the given score out of 5 and the comments. |
| `ResultView.Summary` | components/ResultView.tsx:62-66 | The summary row prints the three sub-scores, totalRaw, the scale score and the CEFR level as given, out of 15. Every value is absent when the scores record is. |
| `ResultView.SectionsFrom` | components/ResultView.tsx:109-118 | There is one section per task, in result order, and section i is numbered first + i. |
| `ResultView.SectionsInOrderNumberedFromOne` | components/ResultView.tsx:79-115 | The screen shows as many sections as the result has tasks, numbered 1..n in order, and none when the list is absent. |
| `ResultView.SectionContents` | components/ResultView.tsx:118-165 | Within a section, absent feedback, corrections and suggestion lists show as empty. Corrections keep their order. Suggestions are numbered 1..n in list order. |
| `ResultView.FeedbackRowsOutOfFive` | components/ResultView.tsx:41-44 | Each feedback row shows its given score out of 5. A dimension outside the map is shown unchanged. |

## Left out

- The model client, the model name, the API key and the network call are not modelled. The call is a function parameter from the parts list to a reply, which is either a delivered response or a transport failure.
- The response is reduced to what the code inspects: the candidate count and the `text` accessor. How the client derives `text` from the candidates is not modelled.
- `JSON.parse` is a function parameter: it throws, or yields a value. A truthy value that is not an object, such as a number or an array, cannot be represented. A falsy value such as `null` is `Parsed(None)`.
- `Types.TaskReport`, `Types.FeedbackSection`, `Types.Correction` and `Types.ScoreBreakdown` always hold their scalar fields. The schema's nested objects have no `required` list and nothing checks the parsed value, so in the source a task name, dimension, score, comment, correction text or sub-score can be missing, and the screen then prints nothing in its place. Missing scalar fields are not modelled; only the lists and the scores record may be absent.
- The system instruction, including the rubric and the raw-to-scale breakpoints, is prompt text for the AI and is not modelled. So are the schema's property descriptions and types; only its `required` list is.
- Logging with `console.error` is not modelled.
- Reading a photo into a data URL (`FileReader`) is browser I/O. The slot setters receive its `result`: the data URL, or `None` for the `null` a failed or aborted read leaves.
- `Upload.UploadStep.SelectTask1Prompt`, `Upload.UploadStep.SelectTask1Answer`, `Upload.UploadStep.SelectTask2Prompt` and `Upload.UploadStep.SelectTask2Answer` update the slots as they are when the read finishes. In the source each setter is a closure that copies the task's slots as they were when the form was last drawn. So if two reads for the same task finish before the form is drawn again, the second one writes back the stale copy and the first update is lost. The model does not capture that loss.
- `Upload.UploadStep` is modelled as one object, but the form is shown only on the upload step. Every return to the upload step, including the one after a failure (`AppShell.FailureReturnsToUpload`), mounts a fresh form: its slots are those of `Upload.UploadStep.constructor`, which `Upload.EmptyIsNeverReady` shows is not ready, and the user must pick every photo again. The model does not tie the form's lifetime to the step.
- The interval timer's scheduling and the `await` are not modelled. Each timer firing is a call of `AppShell.App.Tick`, and `AppShell.App.HandleStartGrading` runs start, call and completion with no firing in between. The timer touches only the progress message, which no other handler reads.
- `AppShell.App.StartGrading`, `AppShell.App.Tick`, `AppShell.App.FinishGrading` and `AppShell.App.HandleStartGrading` require the step on which the interface can invoke them. The start button exists only on the upload form, which is rendered only on the upload step. The timer and the completion run only while loading.
- `dimensionMap` is a plain object, so names inherited from the object prototype, such as "constructor", would look up a prototype member. The model treats every name outside the six keys as unmapped.
- `components/LoadingState.tsx` is not part of this model. Neither are the markup, the styling, the animations, or `ScoreBadge`, which `ResultView` defines but never uses.
