/**
 * The upload form (components/UploadStep.tsx): four image slots, two per task, a readiness
 * test that depends on the selected task type, and the list of pairs handed to the grading service.
 *
 * A slot holds the data URL a file read produced, or nothing; reading the file is not
 * modelled, the setters receive its result, which is nothing when the read failed.
 */
module Upload {
  import opened Types

  /** The `{ prompt, answer }` state of one task; `None` is `null`. */
  datatype Slots = Slots(prompt: Option<string>, answer: Option<string>)

  const EmptySlots: Slots := Slots(None, None)

  /** The task types offered by the selector, in display order. */
  const SelectableTypes: seq<TaskType> := [Part6, Part7, Both]

  /** Every task type is offered, each exactly once. */
  lemma SelectableTypesAreAll()
    ensures forall t: TaskType :: t in SelectableTypes
    ensures |SelectableTypes| == 3
    ensures forall i, j :: 0 <= i < j < |SelectableTypes| ==> SelectableTypes[i] != SelectableTypes[j]
  {
    forall t: TaskType
      ensures t in SelectableTypes
    {
      match t
      case Part6 => assert SelectableTypes[0] == t;
      case Part7 => assert SelectableTypes[1] == t;
      case Both => assert SelectableTypes[2] == t;
    }
  }

  /** A slot is truthy: it holds a string and that string is not empty. */
  predicate Filled(slot: Option<string>)
  {
    slot.Some? && slot.value != ""
  }

  /** Both slots of a task are filled. */
  predicate Complete(task: Slots)
  {
    Filled(task.prompt) && Filled(task.answer)
  }

  /** How many prompt/answer pairs a task type grades. */
  function RequiredPairs(taskType: TaskType): (n: nat)
    ensures 1 <= n <= 2
    ensures n == 2 <==> taskType == Both
  {
    if taskType == Both then 2 else 1
  }

  /** `isReady`: the submit button is enabled. */
  predicate Ready(taskType: TaskType, task1: Slots, task2: Slots)
  {
    if taskType == Both then
      Filled(task1.prompt) && Filled(task1.answer) && Filled(task2.prompt) && Filled(task2.answer)
    else
      Filled(task1.prompt) && Filled(task1.answer)
  }

  /** Ready holds exactly when each of the first `RequiredPairs` tasks has both images. */
  lemma ReadyIffRequiredTasksComplete(taskType: TaskType, task1: Slots, task2: Slots)
    ensures Ready(taskType, task1, task2) <==>
      forall k :: 0 <= k < RequiredPairs(taskType) ==> Complete([task1, task2][k])
  {
    if taskType == Both && Complete(task1) && Complete(task2) {
      assert forall k :: 0 <= k < 2 ==> Complete([task1, task2][k]);
    }
    if forall k :: 0 <= k < RequiredPairs(taskType) ==> Complete([task1, task2][k]) {
      assert Complete([task1, task2][0]);
      if taskType == Both {
        assert Complete([task1, task2][1]);
      }
    }
  }

  /** With a single-task type, the second task's slots affect neither readiness nor the submission. */
  lemma SingleTaskIgnoresTask2(taskType: TaskType, task1: Slots, task2: Slots, other: Slots)
    requires taskType != Both
    ensures Ready(taskType, task1, task2) == Ready(taskType, task1, other)
    ensures Ready(taskType, task1, task2) ==>
      Submission(taskType, task1, task2) == Submission(taskType, task1, other)
  {
  }

  /** Nothing is ready while every slot is empty. */
  lemma EmptyIsNeverReady(taskType: TaskType)
    ensures !Ready(taskType, EmptySlots, EmptySlots)
  {
  }

  /** `handleSubmit`'s argument to `onStart`: one pair from task 1, and for `Both` a second from task 2. */
  function Submission(taskType: TaskType, task1: Slots, task2: Slots): (images: seq<ImagePair>)
    requires Ready(taskType, task1, task2)
    ensures |images| == RequiredPairs(taskType)
    ensures forall i :: 0 <= i < |images| ==> images[i].prompt != "" && images[i].answer != ""
    ensures images[0] == ImagePair(task1.prompt.value, task1.answer.value)
    ensures taskType == Both ==> images[1] == ImagePair(task2.prompt.value, task2.answer.value)
  {
    if taskType == Both then
      [ImagePair(task1.prompt.value, task1.answer.value), ImagePair(task2.prompt.value, task2.answer.value)]
    else
      [ImagePair(task1.prompt.value, task1.answer.value)]
  }

  /** The component's state. The selected task type belongs to the application and is a parameter.
      The form exists only on the upload step, so each return to that step starts from the
      constructor's empty slots. */
  class UploadStep {
    var task1: Slots
    var task2: Slots

    /* Each setter receives the file read's `result`: the data URL, or `None` when the read
       failed, in which case the slot is emptied. */

    constructor ()
      ensures task1 == EmptySlots && task2 == EmptySlots
      ensures forall t: TaskType :: !Ready(t, task1, task2)
    {
      task1 := EmptySlots;
      task2 := EmptySlots;
    }

    method SelectTask1Prompt(readResult: Option<string>)
      modifies this
      ensures task1 == old(task1).(prompt := readResult)
      ensures task2 == old(task2)
      ensures readResult.None? ==> forall t: TaskType :: !Ready(t, task1, task2)
    {
      task1 := task1.(prompt := readResult);
    }

    method SelectTask1Answer(readResult: Option<string>)
      modifies this
      ensures task1 == old(task1).(answer := readResult)
      ensures task2 == old(task2)
      ensures readResult.None? ==> forall t: TaskType :: !Ready(t, task1, task2)
    {
      task1 := task1.(answer := readResult);
    }

    method SelectTask2Prompt(readResult: Option<string>)
      modifies this
      ensures task2 == old(task2).(prompt := readResult)
      ensures task1 == old(task1)
      ensures readResult.None? ==> !Ready(Both, task1, task2)
    {
      task2 := task2.(prompt := readResult);
    }

    method SelectTask2Answer(readResult: Option<string>)
      modifies this
      ensures task2 == old(task2).(answer := readResult)
      ensures task1 == old(task1)
      ensures readResult.None? ==> !Ready(Both, task1, task2)
    {
      task2 := task2.(answer := readResult);
    }

    /** The submit button's handler; only reachable while the button is enabled. */
    method HandleSubmit(taskType: TaskType) returns (images: seq<ImagePair>)
      requires Ready(taskType, task1, task2)
      ensures images == Submission(taskType, task1, task2)
    {
      images := Submission(taskType, task1, task2);
    }
  }
}
