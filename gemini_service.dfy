/**
 * The grading request orchestrator (geminiService.ts `gradeWriting`): it assembles the
 * ordered content parts sent to the model and sorts the reply into one of four outcomes.
 *
 * The model client, the network call and `JSON.parse` are not modelled: the call is a
 * function parameter from parts to a `Reply`, and the parser a function parameter from
 * text to a `Parse` outcome.
 */
module GeminiService {
  import opened Types

  /** One entry of the request's `parts` array. `data` is `None` where the source reads `undefined`. */
  datatype Part = Text(text: string) | InlineData(mimeType: string, data: Option<string>)

  const JpegMime: string := "image/jpeg"

  /** The top-level fields the response schema marks as required (geminiService.ts:58). */
  const RequiredFields: seq<string> := ["overallSummary", "totalScaleScore", "overallCefrLevel", "tasks"]

  lemma RequiredFieldsAreFourDistinct()
    ensures |RequiredFields| == 4
    ensures forall i, j :: 0 <= i < j < |RequiredFields| ==> RequiredFields[i] != RequiredFields[j]
  {
  }

  // ---------------------------------------------------------------------------
  // String.prototype.split(',') and the base64 payload of a data URL
  // ---------------------------------------------------------------------------

  /** The pieces between commas, as JavaScript's `s.split(',')` returns them. */
  function Split(s: string): (pieces: seq<string>)
    ensures |pieces| >= 1
    ensures forall i :: 0 <= i < |pieces| ==> ',' !in pieces[i]
    decreases |s|
  {
    if s == [] then [[]]
    else
      var rest := Split(s[1..]);
      if s[0] == ',' then [[]] + rest
      else [[s[0]] + rest[0]] + rest[1..]
  }

  /** Pieces glued back together with commas: the inverse of `Split`. */
  function Join(pieces: seq<string>): string
  {
    if |pieces| == 0 then []
    else if |pieces| == 1 then pieces[0]
    else pieces[0] + "," + Join(pieces[1..])
  }

  lemma {:induction false} JoinSplit(s: string)
    ensures Join(Split(s)) == s
    decreases |s|
  {
    if s != [] {
      JoinSplit(s[1..]);
      var rest := Split(s[1..]);
      if s[0] == ',' {
        assert Split(s) == [[]] + rest;
        assert ([[]] + rest)[1..] == rest;
      } else {
        assert Split(s) == [[s[0]] + rest[0]] + rest[1..];
        if |rest| > 1 {
          assert ([[s[0]] + rest[0]] + rest[1..])[1..] == rest[1..];
          assert Join(rest) == rest[0] + "," + Join(rest[1..]);
        }
        assert s == [s[0]] + s[1..];
      }
    }
  }

  /** Splitting a comma-free word followed by more text leaves the word glued to the first piece. */
  lemma {:induction false} SplitAfterWord(w: string, t: string)
    requires ',' !in w
    ensures Split(w + t) == [w + Split(t)[0]] + Split(t)[1..]
    decreases |w|
  {
    if w != [] {
      SplitAfterWord(w[1..], t);
      var inner := Split(w[1..] + t);
      assert inner[0] == w[1..] + Split(t)[0];
      assert inner[1..] == Split(t)[1..];
      assert (w + t)[1..] == w[1..] + t;
      assert (w + t)[0] == w[0] && w[0] != ',';
      assert Split(w + t) == [[w[0]] + inner[0]] + inner[1..];
      assert [w[0]] + (w[1..] + Split(t)[0]) == w + Split(t)[0];
    } else {
      assert w + t == t;
      assert w + Split(t)[0] == Split(t)[0];
      assert [Split(t)[0]] + Split(t)[1..] == Split(t);
    }
  }

  lemma {:induction false} SplitJoin(pieces: seq<string>)
    requires |pieces| >= 1
    requires forall i :: 0 <= i < |pieces| ==> ',' !in pieces[i]
    ensures Split(Join(pieces)) == pieces
    decreases |pieces|
  {
    if |pieces| == 1 {
      SplitAfterWord(pieces[0], []);
      assert pieces[0] + [] == pieces[0];
    } else {
      var t := Join(pieces[1..]);
      SplitJoin(pieces[1..]);
      SplitAfterWord(pieces[0], "," + t);
      assert Join(pieces) == pieces[0] + ("," + t);
      assert ("," + t)[1..] == t && ("," + t)[0] == ',';
      var tail := Split("," + t);
      assert tail == [[]] + Split(t);
      assert tail[0] == [] && tail[1..] == pieces[1..];
      assert pieces[0] + tail[0] == pieces[0];
      assert pieces == [pieces[0]] + pieces[1..];
    }
  }

  /** Position of the first comma of `s`, or `|s|` when there is none. */
  function FirstComma(s: string): (i: nat)
    ensures i <= |s|
    ensures ',' !in s[..i]
    ensures i < |s| ==> s[i] == ','
    decreases |s|
  {
    if s == [] || s[0] == ',' then 0
    else
      var j := FirstComma(s[1..]);
      assert s[..j + 1] == [s[0]] + s[1..][..j];
      j + 1
  }

  /** The first piece of a split is the text before the first comma; the rest is the split of what follows it. */
  lemma {:induction false} SplitAtFirstComma(s: string)
    ensures Split(s)[0] == s[..FirstComma(s)]
    ensures FirstComma(s) < |s| ==> Split(s)[1..] == Split(s[FirstComma(s) + 1..])
    ensures FirstComma(s) == |s| ==> |Split(s)| == 1
    decreases |s|
  {
    if s != [] && s[0] != ',' {
      var rest := Split(s[1..]);
      var j := FirstComma(s[1..]);
      SplitAtFirstComma(s[1..]);
      assert FirstComma(s) == j + 1;
      assert Split(s) == [[s[0]] + rest[0]] + rest[1..];
      assert s[..j + 1] == [s[0]] + s[1..][..j];
      if j < |s[1..]| {
        assert s[1..][j + 1..] == s[j + 2..];
      }
    }
  }

  /** The base64 payload of a data URL: `dataUrl.split(',')[1]`, `None` for `undefined`. */
  function Payload(dataUrl: string): Option<string>
  {
    var pieces := Split(dataUrl);
    if |pieces| > 1 then Some(pieces[1]) else None
  }

  /** The payload is defined exactly when the URL has a comma, and is the text between its first and second commas. */
  lemma PayloadBetweenCommas(dataUrl: string)
    ensures Payload(dataUrl).Some? <==> ',' in dataUrl
    ensures Payload(dataUrl).Some? ==>
      var rest := dataUrl[FirstComma(dataUrl) + 1..];
      Payload(dataUrl).value == rest[..FirstComma(rest)]
  {
    var i := FirstComma(dataUrl);
    SplitAtFirstComma(dataUrl);
    if i < |dataUrl| {
      var rest := dataUrl[i + 1..];
      SplitAtFirstComma(rest);
      assert Split(dataUrl)[1] == Split(dataUrl)[1..][0];
    } else {
      assert dataUrl[..i] == dataUrl;
    }
  }

  // ---------------------------------------------------------------------------
  // Labels: `Task ${index + 1} Prompt:` and `Task ${index + 1} Answer:`
  // ---------------------------------------------------------------------------

  function DigitChar(d: nat): char
    requires d < 10
  {
    ('0' as int + d) as char
  }

  predicate IsDigit(c: char)
  {
    '0' <= c <= '9'
  }

  /** Decimal rendering of a natural number, as a template literal prints it. */
  function Decimal(n: nat): (s: string)
    ensures |s| >= 1
    ensures forall i :: 0 <= i < |s| ==> IsDigit(s[i])
    ensures s[0] == '0' <==> n == 0
    decreases n
  {
    if n < 10 then [DigitChar(n)] else Decimal(n / 10) + [DigitChar(n % 10)]
  }

  /** Reading a string of digits back as a number: the inverse of `Decimal`. */
  function ParseDecimal(s: string): nat
    requires forall i :: 0 <= i < |s| ==> IsDigit(s[i])
    decreases |s|
  {
    if s == [] then 0
    else
      assert IsDigit(s[|s| - 1]);
      ParseDecimal(s[..|s| - 1]) * 10 + (s[|s| - 1] as int - '0' as int)
  }

  lemma {:induction false} DecimalRoundTrip(n: nat)
    ensures ParseDecimal(Decimal(n)) == n
    decreases n
  {
    if n >= 10 {
      var s := Decimal(n);
      DecimalRoundTrip(n / 10);
      assert s[..|s| - 1] == Decimal(n / 10);
    }
  }

  function PromptLabel(n: nat): string
  {
    "Task " + Decimal(n) + " Prompt:"
  }

  function AnswerLabel(n: nat): string
  {
    "Task " + Decimal(n) + " Answer:"
  }

  /** The number inside a label, recovered from the label text. */
  lemma LabelNumber(n: nat)
    ensures PromptLabel(n)[5..|PromptLabel(n)| - 8] == Decimal(n)
    ensures AnswerLabel(n)[5..|AnswerLabel(n)| - 8] == Decimal(n)
  {
  }

  /** Labels name their pair unambiguously: equal labels mean equal positions, and no prompt label is an answer label. */
  lemma LabelsIdentifyPosition(i: nat, j: nat)
    ensures PromptLabel(i) == PromptLabel(j) <==> i == j
    ensures AnswerLabel(i) == AnswerLabel(j) <==> i == j
    ensures PromptLabel(i) != AnswerLabel(j)
  {
    LabelNumber(i);
    LabelNumber(j);
    DecimalRoundTrip(i);
    DecimalRoundTrip(j);
    var p, a := PromptLabel(i), AnswerLabel(j);
    if |p| == |a| {
      assert p[|p| - 7] == 'P' && a[|a| - 7] == 'A';
    }
  }

  // ---------------------------------------------------------------------------
  // Request assembly (geminiService.ts:89-106)
  // ---------------------------------------------------------------------------

  /** The one leading text part, naming the selected task type. */
  function LeadingText(taskType: TaskType): string
  {
    "Task Type: " + TaskTypeValue(taskType) + ". Analyze the provided images of prompts and student answers."
  }

  /** The four parts pushed for the pair at 0-based position `index`. */
  function PairParts(index: nat, image: ImagePair): seq<Part>
  {
    [ Text(PromptLabel(index + 1)),
      InlineData(JpegMime, Payload(image.prompt)),
      Text(AnswerLabel(index + 1)),
      InlineData(JpegMime, Payload(image.answer)) ]
  }

  /** The `parts` array after the leading push and one `forEach` round per pair, in order. */
  function RequestParts(taskType: TaskType, images: seq<ImagePair>): seq<Part>
    decreases |images|
  {
    if images == [] then [Text(LeadingText(taskType))]
    else RequestParts(taskType, images[..|images| - 1]) + PairParts(|images| - 1, images[|images| - 1])
  }

  /** One leading text part, then four parts per pair, pair `k` at positions `1 + 4k .. 4 + 4k`. */
  lemma {:induction false} RequestPartsLayout(taskType: TaskType, images: seq<ImagePair>)
    ensures |RequestParts(taskType, images)| == 1 + 4 * |images|
    ensures RequestParts(taskType, images)[0] == Text(LeadingText(taskType))
    ensures forall k :: 0 <= k < |images| ==>
      RequestParts(taskType, images)[1 + 4 * k .. 5 + 4 * k] == PairParts(k, images[k])
    decreases |images|
  {
    if images != [] {
      var n := |images| - 1;
      var init := images[..n];
      RequestPartsLayout(taskType, init);
      var prefix := RequestParts(taskType, init);
      var parts := RequestParts(taskType, images);
      assert parts == prefix + PairParts(n, images[n]);
      assert parts[..|prefix|] == prefix;
      assert parts[|prefix|..] == PairParts(n, images[n]);
      forall k | 0 <= k < |images|
        ensures parts[1 + 4 * k .. 5 + 4 * k] == PairParts(k, images[k])
      {
        if k < n {
          assert init[k] == images[k];
          assert 5 + 4 * k <= |prefix|;
          assert parts[1 + 4 * k .. 5 + 4 * k] == parts[..|prefix|][1 + 4 * k .. 5 + 4 * k];
        }
      }
    }
  }

  /** Every inline part of a request is a JPEG whose data comes from one of the submitted URLs. */
  lemma InlinePartsAreJpeg(taskType: TaskType, images: seq<ImagePair>, i: nat)
    requires i < |RequestParts(taskType, images)|
    ensures RequestParts(taskType, images)[i].InlineData? ==>
      var part := RequestParts(taskType, images)[i];
      && part.mimeType == JpegMime
      && exists k :: 0 <= k < |images| && part.data in {Payload(images[k].prompt), Payload(images[k].answer)}
  {
    RequestPartsLayout(taskType, images);
    var parts := RequestParts(taskType, images);
    if i > 0 {
      var k := (i - 1) / 4;
      assert parts[i] == parts[1 + 4 * k .. 5 + 4 * k][(i - 1) % 4];
    }
  }

  /** Builds the parts array as the source does: one push up front, then four pushes per pair. */
  method BuildParts(taskType: TaskType, images: seq<ImagePair>) returns (parts: seq<Part>)
    ensures parts == RequestParts(taskType, images)
  {
    parts := [Text(LeadingText(taskType))];
    var index := 0;
    while index < |images|
      invariant 0 <= index <= |images|
      invariant parts == RequestParts(taskType, images[..index])
    {
      var image := images[index];
      parts := parts + [Text(PromptLabel(index + 1))];
      parts := parts + [InlineData(JpegMime, Payload(image.prompt))];
      parts := parts + [Text(AnswerLabel(index + 1))];
      parts := parts + [InlineData(JpegMime, Payload(image.answer))];
      assert images[..index + 1][..index] == images[..index];
      index := index + 1;
    }
    assert images[..index] == images;
  }

  // ---------------------------------------------------------------------------
  // Response triage (geminiService.ts:118-132)
  // ---------------------------------------------------------------------------

  /** The reply of the model call, reduced to what the code inspects: the candidate count
      (`None` for an absent array) and the `text` accessor (`None` for `undefined`). */
  datatype Response = Response(candidates: Option<nat>, text: Option<string>)

  /** What the model call yields: a response, or a transport failure thrown by the client. */
  datatype Reply = Delivered(response: Response) | TransportFailed

  /** What `JSON.parse` does with the text: throws, or yields a value. `Parsed(None)` stands
      for a falsy JSON value such as `null`; it is returned like any other value. */
  datatype Parse = Threw | Parsed(value: Option<GradingResult>)

  datatype GradeError = NoCandidates | EmptyResponse | MalformedData | TransportFailure

  /** The user-facing text of each error the service raises itself. */
  function Message(e: GradeError): string
    requires e != TransportFailure
  {
    match e
    case NoCandidates => "AI 无法生成响应，请检查图片清晰度或重试。"
    case EmptyResponse => "AI 返回了空响应。"
    case MalformedData => "AI 返回的数据格式有误。"
  }

  /** The three messages are non-empty and pairwise distinct, so each failure is told apart. */
  lemma MessagesDistinct(a: GradeError, b: GradeError)
    requires a != TransportFailure && b != TransportFailure
    ensures Message(a) != []
    ensures Message(a) == Message(b) <==> a == b
  {
    if a != b {
      assert Message(a)[|Message(a)| - 2] != Message(b)[|Message(b)| - 2] || |Message(a)| != |Message(b)|;
    }
  }

  /** `response.candidates` is present and non-empty. */
  predicate HasCandidates(response: Response)
  {
    response.candidates.Some? && response.candidates.value != 0
  }

  /** `response.text` is truthy: defined and not the empty string. */
  predicate HasText(response: Response)
  {
    response.text.Some? && response.text.value != ""
  }

  /** The guard chain after the call: no candidates, then empty text, then the parse. */
  function Triage(response: Response, parse: string -> Parse): (outcome: Result<Option<GradingResult>, GradeError>)
    ensures outcome == Err(NoCandidates) <==> !HasCandidates(response)
    ensures outcome == Err(EmptyResponse) <==> HasCandidates(response) && !HasText(response)
    ensures outcome == Err(MalformedData) <==>
      HasCandidates(response) && HasText(response) && parse(response.text.value).Threw?
    ensures outcome.Ok? <==>
      HasCandidates(response) && HasText(response) && parse(response.text.value).Parsed?
    ensures outcome.Ok? ==> outcome.value == parse(response.text.value).value
    ensures outcome != Err(TransportFailure)
  {
    if !HasCandidates(response) then Err(NoCandidates)
    else if !HasText(response) then Err(EmptyResponse)
    else match parse(response.text.value)
      case Threw => Err(MalformedData)
      case Parsed(v) => Ok(v)
  }

  /** Without candidates the outcome is the same whatever text and parser come with it. */
  lemma NoCandidatesIgnoresText(candidates: Option<nat>, t1: Option<string>, t2: Option<string>,
                                p1: string -> Parse, p2: string -> Parse)
    requires candidates.None? || candidates == Some(0)
    ensures Triage(Response(candidates, t1), p1) == Triage(Response(candidates, t2), p2) == Err(NoCandidates)
  {
  }

  /** What the call yields once the reply is in: a transport failure thrown by the client
      passes through, a delivered response is triaged. */
  function ServiceOutcome(reply: Reply, parse: string -> Parse): (outcome: Result<Option<GradingResult>, GradeError>)
    ensures outcome == Err(TransportFailure) <==> reply.TransportFailed?
    ensures reply.Delivered? ==> outcome == Triage(reply.response, parse)
  {
    match reply
    case TransportFailed => Err(TransportFailure)
    case Delivered(response) => Triage(response, parse)
  }

  /** The whole service call: assemble the parts, send exactly those, sort the reply. */
  method GradeWriting(taskType: TaskType, images: seq<ImagePair>,
                      send: seq<Part> -> Reply, parse: string -> Parse)
    returns (outcome: Result<Option<GradingResult>, GradeError>)
    ensures outcome == ServiceOutcome(send(RequestParts(taskType, images)), parse)
  {
    var parts := BuildParts(taskType, images);
    var reply := send(parts);
    match reply
    case TransportFailed =>
      outcome := Err(TransportFailure);
    case Delivered(response) =>
      outcome := Triage(response, parse);
  }
}
