/**
  The shared data model: the `Question` record and its schema (a closed
  `type` enumeration, a string-or-number answer, optional options and hint),
  the progress record and the note record.
*/
module Types {
  import opened Wrappers
  import opened Json
  import opened Text

  datatype QuestionType = MultipleChoice | TrueFalse | ShortAnswer

  /** The literal the schema's `type` enumeration uses for each kind. */
  function TypeName(k: QuestionType): string {
    match k
    case MultipleChoice => "multiple-choice"
    case TrueFalse => "true-false"
    case ShortAnswer => "short-answer"
  }

  /** The schema's `type` enumeration: exactly three literals are accepted. */
  function TypeOf(s: string): (r: Option<QuestionType>)
    ensures r.Some? <==> s in {"multiple-choice", "true-false", "short-answer"}
    ensures r.Some? ==> TypeName(r.value) == s
  {
    if s == "multiple-choice" then Some(MultipleChoice)
    else if s == "true-false" then Some(TrueFalse)
    else if s == "short-answer" then Some(ShortAnswer)
    else None
  }

  /** The correct answer: a string or a number. */
  datatype Answer = Text(s: string) | Number(n: int)

  /** JavaScript's `String(x)` (or template interpolation) of a correct answer. */
  function AnswerString(a: Answer): string {
    match a
    case Text(s) => s
    case Number(n) => IntToString(n)
  }

  datatype Question = Question(
    text: string,
    kind: QuestionType,
    options: Option<seq<string>>,
    correctAnswer: Answer,
    hint: Option<string>)

  predicate AllStrings(items: seq<Value>) {
    forall i :: 0 <= i < |items| ==> items[i].Str?
  }

  function Strings(items: seq<Value>): (r: seq<string>)
    requires AllStrings(items)
    ensures |r| == |items| && forall i :: 0 <= i < |items| ==> items[i] == Str(r[i])
  {
    seq(|items|, i requires 0 <= i < |items| && AllStrings(items) => items[i].s)
  }

  /** `z.array(z.string()).optional()`. */
  function OptionsField(o: Option<Value>): Option<Option<seq<string>>> {
    match o
    case None => Some(None)
    case Some(Arr(items)) => if AllStrings(items) then Some(Some(Strings(items))) else None
    case Some(_) => None
  }

  /** `z.union([z.string(), z.number()])`; `undefined` is rejected. */
  function AnswerField(o: Option<Value>): Option<Answer> {
    match o
    case Some(Str(s)) => Some(Text(s))
    case Some(Num(n)) => Some(Number(n))
    case _ => None
  }

  /** `z.string().optional()`. */
  function HintField(o: Option<Value>): Option<Option<string>> {
    match o
    case None => Some(None)
    case Some(Str(s)) => Some(Some(s))
    case Some(_) => None
  }

  /** The schema of one question record; unknown keys are dropped, as `z.object` does. */
  function CheckQuestion(v: Value): Option<Question> {
    var question := Get(v, "question");
    var qtype := Get(v, "type");
    if !v.Obj? || !(question.Some? && question.value.Str?) then None
    else if !(qtype.Some? && qtype.value.Str? && TypeOf(qtype.value.s).Some?) then None
    else
      var options := OptionsField(Get(v, "options"));
      var answer := AnswerField(Get(v, "correctAnswer"));
      var hint := HintField(Get(v, "hint"));
      if options.None? || answer.None? || hint.None? then None
      else Some(Question(question.value.s, TypeOf(qtype.value.s).value,
                         options.value, answer.value, hint.value))
  }

  /** The schema of the `questions` array: every element must pass, order is kept. */
  function CheckQuestions(items: seq<Value>): (r: Option<seq<Question>>)
    ensures r.Some? <==> forall i :: 0 <= i < |items| ==> CheckQuestion(items[i]).Some?
    ensures r.Some? ==> |r.value| == |items|
                        && forall i :: 0 <= i < |items| ==> CheckQuestion(items[i]) == Some(r.value[i])
  {
    if items == [] then Some([])
    else
      var head := CheckQuestion(items[0]);
      var tail := CheckQuestions(items[1..]);
      if head.None? || tail.None? then
        assert head.None? ==> !CheckQuestion(items[0]).Some?;
        None
      else Some([head.value] + tail.value)
  }

  /** `QuestionSchema`: an object whose `questions` is an array of valid question records. */
  function CheckPayload(v: Value): Option<seq<Question>> {
    var qs := Get(v, "questions");
    if qs.Some? && qs.value.Arr? then CheckQuestions(qs.value.items) else None
  }

  function AnswerJson(a: Answer): Value {
    match a
    case Text(s) => Str(s)
    case Number(n) => Num(n)
  }

  /** An options array as JSON: an array of strings. */
  function OptionsJson(opts: seq<string>): Value {
    Arr(seq(|opts|, i requires 0 <= i < |opts| => Str(opts[i])))
  }

  /** A question as `JSON.stringify` writes it (undefined fields are omitted). */
  function QuestionJson(q: Question): Value {
    var m := map["question" := Str(q.text), "type" := Str(TypeName(q.kind)),
                 "correctAnswer" := AnswerJson(q.correctAnswer)];
    var m := Put(m, "options", if q.options.Some? then Some(OptionsJson(q.options.value)) else None);
    Obj(Put(m, "hint", if q.hint.Some? then Some(Str(q.hint.value)) else None))
  }

  function PayloadJson(qs: seq<Question>): Value {
    Obj(map["questions" := Arr(seq(|qs|, i requires 0 <= i < |qs| => QuestionJson(qs[i])))])
  }

  /** Every question survives a write-then-check round trip unchanged. */
  lemma QuestionRoundTrip(q: Question)
    ensures CheckQuestion(QuestionJson(q)) == Some(q)
  {
    var v := QuestionJson(q);
    assert Get(v, "question") == Some(Str(q.text));
    assert Get(v, "type") == Some(Str(TypeName(q.kind)));
    assert TypeOf(TypeName(q.kind)) == Some(q.kind) by {
      match q.kind
      case MultipleChoice =>
      case TrueFalse =>
      case ShortAnswer =>
    }
    assert AnswerField(Get(v, "correctAnswer")) == Some(q.correctAnswer);
    if q.options.Some? {
      var items := OptionsJson(q.options.value).items;
      assert Get(v, "options") == Some(Arr(items));
      assert Strings(items) == q.options.value;
    } else {
      assert Get(v, "options") == None;
    }
    if q.hint.Some? {
      assert Get(v, "hint") == Some(Str(q.hint.value));
    } else {
      assert Get(v, "hint") == None;
    }
  }

  /** The response body the generator sends passes the schema again, giving back the same batch. */
  lemma PayloadRoundTrip(qs: seq<Question>)
    ensures CheckPayload(PayloadJson(qs)) == Some(qs)
  {
    var items := seq(|qs|, i requires 0 <= i < |qs| => QuestionJson(qs[i]));
    assert Get(PayloadJson(qs), "questions") == Some(Arr(items));
    forall i | 0 <= i < |items| ensures CheckQuestion(items[i]) == Some(qs[i]) {
      QuestionRoundTrip(qs[i]);
    }
    var r := CheckQuestions(items);
    assert r.Some? && |r.value| == |qs|;
    assert forall i :: 0 <= i < |qs| ==> r.value[i] == qs[i];
    assert r.value == qs;
    assert CheckPayload(PayloadJson(qs)) == r;
  }

  /**
    The schema is loose: an empty question text and an empty options array
    pass, whatever the kind, and unknown keys are dropped.
  */
  lemma LooseRecordAccepted(k: QuestionType, extra: Value)
    ensures var v := Obj(map["question" := Str(""), "type" := Str(TypeName(k)),
                             "options" := Arr([]), "correctAnswer" := Num(0), "extra" := extra]);
            CheckQuestion(v) == Some(Question("", k, Some([]), Number(0), None))
  {
    assert TypeOf(TypeName(k)) == Some(k) by {
      match k
      case MultipleChoice =>
      case TrueFalse =>
      case ShortAnswer =>
    }
  }

  /** A record whose type is not one of the three literals, or without an answer, is rejected. */
  lemma BadRecordRejected(v: Value)
    requires var t := Get(v, "type");
             (t.Some? && t.value.Str? && TypeOf(t.value.s).None?) || Get(v, "correctAnswer").None?
    ensures CheckQuestion(v).None?
  {
  }

  /** A progress record as the quiz stores it. */
  datatype ProgressRecord = ProgressRecord(
    questionId: string,
    correct: bool,
    attemptDate: string,
    userId: string)

  /** A study note. */
  datatype Note = Note(
    id: string,
    title: string,
    content: string,
    folder: string,
    createdAt: string,
    updatedAt: string)
}
