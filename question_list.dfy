/**
  The quiz view: the answers the user picked, grading against the stored
  correct answers, the hint toggles, retaking, and appending one progress
  record per question to the stored progress log.
*/
module QuestionList {
  import opened Wrappers
  import opened Text
  import opened Types
  import opened Json
  import CheckAnswerRoute

  /** One entry of the selected-answers array: `null`, an option index, or text. */
  datatype Selected = Unanswered | Index(n: int) | Typed(s: string)

  /** JavaScript's `String(x)` on a selected answer. */
  function SelectedString(a: Selected): string {
    match a
    case Unanswered => "null"
    case Index(n) => IntToString(n)
    case Typed(s) => s
  }

  /** JavaScript's `===` between a selected answer and a correct answer. */
  predicate StrictEquals(sel: Selected, a: Answer) {
    match sel
    case Unanswered => false
    case Index(n) => a == Number(n)
    case Typed(s) => a == Text(s)
  }

  /**
    The client's view of the grading endpoint: the `isCorrect` field of a
    200 reply; a plain-text error cannot be read as JSON and counts as false.
  */
  function ShortAnswerVerdict(reply: CheckAnswerRoute.Reply): bool {
    if reply.Graded? then reply.isCorrect else false
  }

  /**
    The grading endpoint as the client reaches it with `fetch`: the reference
    answer and the user's answer in, the endpoint's reply out.
  */
  type Server = (string, string) -> CheckAnswerRoute.Reply

  /** Grading one question against the selected answer; `server` is the grading endpoint. */
  function GradeQuestion(q: Question, sel: Selected, server: Server): bool {
    if q.kind == TrueFalse then
      ToLower(SelectedString(sel)) == ToLower(AnswerString(q.correctAnswer))
    else if q.kind == ShortAnswer then
      ShortAnswerVerdict(server(AnswerString(q.correctAnswer), SelectedString(sel)))
    else
      StrictEquals(sel, q.correctAnswer)
  }

  /** Grading by index: a question that does not exist is graded false. */
  function GradeAt(questions: seq<Question>, selected: seq<Selected>, i: int,
                   server: Server): bool
    requires |selected| == |questions|
  {
    if 0 <= i < |questions| then GradeQuestion(questions[i], selected[i], server) else false
  }

  /** `questions.map((_, index) => checkAnswerCorrectness(index))`. */
  function Grades(questions: seq<Question>, selected: seq<Selected>, server: Server): seq<bool>
    requires |selected| == |questions|
  {
    seq(|questions|, i requires 0 <= i < |questions| => GradeAt(questions, selected, i, server))
  }

  /** The records of one attempt: `questions.map((question, index) => ...)`. */
  function NewRecords(questions: seq<Question>, results: seq<bool>, now: string): seq<ProgressRecord>
    requires |results| == |questions|
  {
    seq(|questions|, i requires 0 <= i < |questions| => Record(questions[i], results[i], now))
  }

  /** `showHint` after toggling index `i`. */
  function Toggled(hints: seq<int>, i: int): seq<int> {
    if i in hints then RemoveAll(hints, i) else hints + [i]
  }

  /** `filter(x => x !== i)`. */
  function RemoveAll(xs: seq<int>, i: int): (r: seq<int>)
    ensures forall j :: j in r <==> j in xs && j != i
    ensures |r| <= |xs|
  {
    if xs == [] then []
    else if xs[0] == i then RemoveAll(xs[1..], i)
    else [xs[0]] + RemoveAll(xs[1..], i)
  }

  /** The summary count: the number of true results. */
  function CorrectCount(results: seq<bool>): (r: nat)
    ensures r == multiset(results)[true]
    ensures r <= |results|
    ensures r == |results| <==> forall i :: 0 <= i < |results| ==> results[i]
    ensures r == 0 <==> forall i :: 0 <= i < |results| ==> !results[i]
  {
    if results == [] then 0
    else
      assert results == [results[0]] + results[1..];
      (if results[0] then 1 else 0) + CorrectCount(results[1..])
  }

  /** The progress record written for one graded question. */
  function Record(q: Question, correct: bool, now: string): ProgressRecord {
    ProgressRecord(q.text, correct, now, "anonymous")
  }

  /** The quiz state of one rendered question list. */
  class Quiz {
    const questions: seq<Question>
    var selectedAnswers: seq<Selected>
    var showResults: bool
    var showHint: seq<int>
    var answerResults: seq<bool>
    /** Set while the answers are being checked. */
    var isChecking: bool
    /** The `progressData` entry of the browser's storage. */
    var progressData: Stored<ProgressRecord>

    predicate Valid()
      reads this
    {
      |selectedAnswers| == |questions| && |answerResults| == |questions|
    }

    /** The initial state: nothing selected, nothing graded, no hint shown. */
    constructor (questions: seq<Question>, progressData: Stored<ProgressRecord>)
      ensures Valid()
      ensures this.questions == questions && this.progressData == progressData
      ensures selectedAnswers == seq(|questions|, _ => Unanswered)
      ensures answerResults == seq(|questions|, _ => false)
      ensures !showResults && !isChecking && showHint == []
    {
      this.questions := questions;
      this.progressData := progressData;
      selectedAnswers := seq(|questions|, _ => Unanswered);
      answerResults := seq(|questions|, _ => false);
      showResults := false;
      isChecking := false;
      showHint := [];
    }

    /** Selecting an answer replaces entry `i` only. */
    method SelectAnswer(i: nat, answer: Selected)
      requires Valid() && i < |questions|
      modifies this
      ensures Valid()
      ensures selectedAnswers == old(selectedAnswers)[i := answer]
      ensures |selectedAnswers| == old(|selectedAnswers|)
      ensures forall j :: 0 <= j < |selectedAnswers| && j != i ==> selectedAnswers[j] == old(selectedAnswers[j])
      ensures showResults == old(showResults) && showHint == old(showHint)
      ensures answerResults == old(answerResults) && progressData == old(progressData)
      ensures isChecking == old(isChecking)
    {
      selectedAnswers := selectedAnswers[i := answer];
    }

    /**
      Grades every question, shows the results and appends one record per
      question, in order, after the stored records; `now` is the attempt time.
      A log that does not parse, or parses to something other than an array,
      makes the handler throw after the results are shown: the log is left
      as it was and the check stays in progress.
    */
    method CheckAnswers(server: Server, now: string)
      requires Valid()
      modifies this
      ensures Valid()
      ensures forall i :: 0 <= i < |questions| ==>
                answerResults[i] == GradeAt(questions, selectedAnswers, i, server)
      ensures showResults
      ensures selectedAnswers == old(selectedAnswers) && showHint == old(showHint)
      ensures old(progressData).Unparsable? || old(progressData).NotAnArray? ==>
                isChecking && progressData == old(progressData)
      ensures old(progressData).Absent? || old(progressData).Items? ==>
                var existing := if old(progressData).Items? then old(progressData).items else [];
                && !isChecking
                && progressData.Items?
                && |progressData.items| == |existing| + |questions|
                && progressData.items[..|existing|] == existing
                && forall i :: 0 <= i < |questions| ==>
                     progressData.items[|existing| + i] == Record(questions[i], answerResults[i], now)
    {
      isChecking := true;
      answerResults := Grades(questions, selectedAnswers, server);
      showResults := true;
      match progressData {
        case Absent =>
          progressData := Items(NewRecords(questions, answerResults, now));
          isChecking := false;
        case Items(existing) =>
          progressData := Items(existing + NewRecords(questions, answerResults, now));
          isChecking := false;
        case Unparsable =>
        case NotAnArray =>
      }
    }

    /** Shows the hint of question `i` if hidden, hides it if shown. */
    method ToggleHint(i: int)
      modifies this
      ensures showHint == Toggled(old(showHint), i)
      ensures selectedAnswers == old(selectedAnswers) && answerResults == old(answerResults)
      ensures showResults == old(showResults) && progressData == old(progressData)
      ensures isChecking == old(isChecking)
    {
      showHint := Toggled(showHint, i);
    }

    /** Retaking clears every answer, result and hint and hides the results. */
    method Retake()
      modifies this
      ensures Valid()
      ensures selectedAnswers == seq(|questions|, _ => Unanswered)
      ensures answerResults == seq(|questions|, _ => false)
      ensures !showResults && showHint == []
      ensures progressData == old(progressData) && isChecking == old(isChecking)
    {
      selectedAnswers := seq(|questions|, _ => Unanswered);
      answerResults := seq(|questions|, _ => false);
      showResults := false;
      showHint := [];
    }
  }

  // ---- properties ----

  /** Toggling shows a hidden hint and hides a shown one, and touches no other index. */
  lemma ToggleFlips(hints: seq<int>, i: int)
    ensures i in Toggled(hints, i) <==> i !in hints
    ensures forall j :: j != i ==> (j in Toggled(hints, i) <==> j in hints)
  {
  }

  /** Toggling the same index twice restores which hints are shown. */
  lemma ToggleTwice(hints: seq<int>, i: int)
    ensures forall j :: j in Toggled(Toggled(hints, i), i) <==> j in hints
  {
    ToggleFlips(hints, i);
    ToggleFlips(Toggled(hints, i), i);
  }

  /** True/false answers are compared without regard to case. */
  lemma TrueFalseIgnoresCase(q: Question, s: string, server: Server)
    requires q.kind == TrueFalse
    ensures GradeQuestion(q, Typed(s), server) == GradeQuestion(q, Typed(ToLower(s)), server)
    ensures GradeQuestion(q, Typed(s), server) <==> ToLower(s) == ToLower(AnswerString(q.correctAnswer))
  {
    ToLowerIdempotent(s);
  }

  /** "true" selected for a correct answer written "True" is graded correct. */
  lemma TrueFalseExample(q: Question, server: Server)
    requires q.kind == TrueFalse && q.correctAnswer == Text("True")
    ensures GradeQuestion(q, Typed("true"), server)
  {
    var a, b := ToLower("true"), ToLower("True");
    assert a[0] == b[0] && a[1] == b[1] && a[2] == b[2] && a[3] == b[3];
  }

  /**
    Multiple choice is strict equality: an option index only matches a
    numeric correct answer equal to it, so a textual correct answer never
    matches any option.
  */
  lemma MultipleChoiceStrict(q: Question, n: int, server: Server)
    requires q.kind == MultipleChoice
    ensures GradeQuestion(q, Index(n), server) <==> q.correctAnswer == Number(n)
    ensures q.correctAnswer.Text? ==> !GradeQuestion(q, Index(n), server)
    ensures !GradeQuestion(q, Unanswered, server)
  {
  }

  /**
    A short answer is whatever the grading endpoint decides about the two
    answers' string forms; an error reply is graded false.
  */
  lemma ShortAnswerDefers(q: Question, sel: Selected, model: string -> Option<string>)
    requires q.kind == ShortAnswer
    ensures var reply := model(CheckAnswerRoute.GradingPrompt(AnswerString(q.correctAnswer), SelectedString(sel)));
      GradeQuestion(q, sel, (c, u) => CheckAnswerRoute.Post(c, u, model))
      <==> reply.Some? && reply.value != "" && CheckAnswerRoute.IsCorrect(reply.value)
  {
  }

  /**
    A question index outside the list is graded false. The quiz only asks
    for indices of its own questions; this is the guard on the missing
    question alone.
  */
  lemma MissingQuestionFalse(questions: seq<Question>, selected: seq<Selected>, i: int,
                             server: Server)
    requires |selected| == |questions|
    requires i < 0 || i >= |questions|
    ensures !GradeAt(questions, selected, i, server)
  {
  }
}
