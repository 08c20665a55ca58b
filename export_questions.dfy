/**
  The question export: the lines of text of the exported document (title,
  optional time limit, then per question its numbered text, lettered options
  and answer). Styling and the PDF rendering are not modelled.
*/
module ExportQuestions {
  import opened Wrappers
  import opened Text
  import opened Types
  import opened Lists

  /** One text element of the exported document. */
  datatype Line =
    | Title
    | TimeLimitLine(minutes: int)
    | QuestionLine(number: nat, text: string)
    | OptionLine(letter: char, text: string)
    | AnswerLine(text: string)

  /** The text content of an element. */
  function Render(l: Line): string {
    match l
    case Title => "Questions and Answers"
    case TimeLimitLine(m) => "Time Limit: " + IntToString(m) + " minutes"
    case QuestionLine(n, t) => NatToString(n) + ". " + t
    case OptionLine(c, t) => [c] + ") " + t
    case AnswerLine(t) => "Correct answer: " + t
  }

  /** Option labels stay below the surrogate code units. */
  const MaxOptions := 0xD800 - 97

  /** `String.fromCharCode(97 + j)`. */
  function Label(j: nat): char
    requires j < MaxOptions
  {
    (97 + j) as char
  }

  predicate OptionsFit(questions: seq<Question>) {
    forall q :: q in questions && q.options.Some? ==> |q.options.value| < MaxOptions
  }

  /** Options are listed for multiple-choice questions with a non-empty options array. */
  predicate HasListedOptions(q: Question) {
    q.kind == MultipleChoice && q.options.Some? && |q.options.value| > 0
  }

  /** A string used as an array key: a canonical decimal index, or not an index at all. */
  function ParseIndex(s: string): Option<nat> {
    if |s| > 0 && AllDigits(s) && (s[0] != '0' || s == "0") then Some(DigitsValue(s)) else None
  }

  /** `options[correctAnswer]`: None stands for `undefined`. */
  function OptionAt(opts: seq<string>, a: Answer): Option<string> {
    match a
    case Number(n) => if 0 <= n < |opts| then Some(opts[n]) else None
    case Text(s) =>
      var k := ParseIndex(s);
      if k.Some? && k.value < |opts| then Some(opts[k.value]) else None
  }

  /** The text after "Correct answer: ": the option the answer points at if non-empty, else the raw answer. */
  function AnswerText(q: Question): string {
    if HasListedOptions(q) then
      var o := OptionAt(q.options.value, q.correctAnswer);
      if o.Some? && o.value != "" then o.value else AnswerString(q.correctAnswer)
    else AnswerString(q.correctAnswer)
  }

  /** The export's test on a question: its text is a non-empty string. */
  predicate HasText(q: Question) {
    q.text != ""
  }

  /** The questions that are exported: `questions.filter(...)` on non-empty text. */
  function Exported(questions: seq<Question>): (r: seq<Question>)
    ensures |r| <= |questions|
    ensures forall q :: q in r <==> q in questions && q.text != ""
  {
    Filter(questions, HasText)
  }

  /** The lines of the first `m` options. */
  function OptionLines(opts: seq<string>, m: nat): seq<Line>
    requires m <= |opts| < MaxOptions
  {
    if m == 0 then [] else OptionLines(opts, m - 1) + [OptionLine(Label(m - 1), opts[m - 1])]
  }

  /** The lines of one exported question, numbered `number`. */
  function Block(q: Question, number: nat): seq<Line>
    requires q.options.Some? ==> |q.options.value| < MaxOptions
  {
    [QuestionLine(number, q.text)]
    + (if HasListedOptions(q) then OptionLines(q.options.value, |q.options.value|) else [])
    + [AnswerLine(AnswerText(q))]
  }

  /** The blocks of the first `n` exported questions, numbered from 1. */
  function Blocks(valid: seq<Question>, n: nat): seq<Line>
    requires n <= |valid| && OptionsFit(valid)
  {
    if n == 0 then [] else Blocks(valid, n - 1) + Block(valid[n - 1], n)
  }

  /** The title, then the time limit when it is truthy. */
  function Heading(timeLimit: Option<int>): seq<Line> {
    [Title] + (if timeLimit.Some? && timeLimit.value != 0 then [TimeLimitLine(timeLimit.value)] else [])
  }

  /** The whole document. */
  function ExportLines(questions: seq<Question>, timeLimit: Option<int>): seq<Line>
    requires OptionsFit(questions)
  {
    var valid := Exported(questions);
    Heading(timeLimit) + Blocks(valid, |valid|)
  }

  /** Builds the document element by element, as the export handler does. */
  method Export(questions: seq<Question>, timeLimit: Option<int>) returns (lines: seq<Line>)
    requires OptionsFit(questions)
    ensures lines == ExportLines(questions, timeLimit)
  {
    lines := [Title];
    if timeLimit.Some? && timeLimit.value != 0 {
      lines := lines + [TimeLimitLine(timeLimit.value)];
    }
    lines := ExportAll(Exported(questions), lines);
  }

  /** Appends the elements of every exported question, numbered from 1, after `heading`. */
  method ExportAll(valid: seq<Question>, heading: seq<Line>) returns (lines: seq<Line>)
    requires OptionsFit(valid)
    ensures lines == heading + Blocks(valid, |valid|)
  {
    lines := heading;
    var i := 0;
    while i < |valid|
      invariant 0 <= i <= |valid|
      invariant lines == heading + Blocks(valid, i)
    {
      var block := ExportBlock(valid[i], i + 1);
      lines := lines + block;
      i := i + 1;
    }
  }

  /** The elements of one question: its numbered text, its lettered options, its answer. */
  method ExportBlock(q: Question, number: nat) returns (block: seq<Line>)
    requires q.options.Some? ==> |q.options.value| < MaxOptions
    ensures block == Block(q, number)
  {
    block := [QuestionLine(number, q.text)];
    if HasListedOptions(q) {
      var opts := q.options.value;
      var j := 0;
      while j < |opts|
        invariant 0 <= j <= |opts|
        invariant block == [QuestionLine(number, q.text)] + OptionLines(opts, j)
      {
        block := block + [OptionLine(Label(j), opts[j])];
        j := j + 1;
      }
    }
    block := block + [AnswerLine(AnswerText(q))];
  }

  // ---- properties ----

  /** The numbered lines of a sequence of lines, in order. */
  function Numbered(lines: seq<Line>): seq<Line> {
    if lines == [] then []
    else (if lines[0].QuestionLine? then [lines[0]] else []) + Numbered(lines[1..])
  }

  lemma {:induction false} NumberedAppend(a: seq<Line>, b: seq<Line>)
    ensures Numbered(a + b) == Numbered(a) + Numbered(b)
  {
    if a == [] {
      assert a + b == b;
    } else {
      assert (a + b)[0] == a[0];
      assert (a + b)[1..] == a[1..] + b;
      NumberedAppend(a[1..], b);
    }
  }

  lemma {:induction false} OptionLinesUnnumbered(opts: seq<string>, m: nat)
    requires m <= |opts| < MaxOptions
    ensures Numbered(OptionLines(opts, m)) == []
  {
    if m > 0 {
      OptionLinesUnnumbered(opts, m - 1);
      NumberedAppend(OptionLines(opts, m - 1), [OptionLine(Label(m - 1), opts[m - 1])]);
    }
  }

  lemma BlockNumbered(q: Question, number: nat)
    requires q.options.Some? ==> |q.options.value| < MaxOptions
    ensures Numbered(Block(q, number)) == [QuestionLine(number, q.text)]
  {
    var opts := if HasListedOptions(q) then OptionLines(q.options.value, |q.options.value|) else [];
    if HasListedOptions(q) {
      OptionLinesUnnumbered(q.options.value, |q.options.value|);
    }
    NumberedAppend([QuestionLine(number, q.text)], opts);
    NumberedAppend([QuestionLine(number, q.text)] + opts, [AnswerLine(AnswerText(q))]);
  }

  lemma {:induction false} BlocksNumbered(valid: seq<Question>, n: nat)
    requires n <= |valid| && OptionsFit(valid)
    ensures Numbered(Blocks(valid, n)) == seq(n, i requires 0 <= i < n => QuestionLine(i + 1, valid[i].text))
  {
    if n > 0 {
      BlocksNumbered(valid, n - 1);
      BlockNumbered(valid[n - 1], n);
      NumberedAppend(Blocks(valid, n - 1), Block(valid[n - 1], n));
    }
  }

  /**
    The numbered lines of the document are exactly the questions with
    non-empty text, in order, numbered 1, 2, 3, ... without gaps.
  */
  lemma NumberingContiguous(questions: seq<Question>, timeLimit: Option<int>)
    requires OptionsFit(questions)
    ensures var valid := Exported(questions);
      Numbered(ExportLines(questions, timeLimit))
      == seq(|valid|, i requires 0 <= i < |valid| => QuestionLine(i + 1, valid[i].text))
  {
    var valid := Exported(questions);
    BlocksNumbered(valid, |valid|);
    NumberedAppend(Heading(timeLimit), Blocks(valid, |valid|));
    assert Numbered(Heading(timeLimit)) == [] by {
      NumberedAppend([Title], Heading(timeLimit)[1..]);
      assert Heading(timeLimit) == [Title] + Heading(timeLimit)[1..];
    }
  }

  /**
    The export keeps the questions' order and repeats: it works piece by
    piece, and one question is kept exactly when its text is non-empty.
  */
  lemma ExportedInOrder(a: seq<Question>, b: seq<Question>, q: Question)
    ensures Exported(a + b) == Exported(a) + Exported(b)
    ensures Exported([q]) == if q.text != "" then [q] else []
    ensures Exported([]) == []
  {
    FilterAppend(a, b, HasText);
    assert [q][1..] == [];
  }

  /** The title comes first; the time-limit line follows exactly when the limit is truthy. */
  lemma HeadingFirst(questions: seq<Question>, timeLimit: Option<int>)
    requires OptionsFit(questions)
    ensures var lines := ExportLines(questions, timeLimit);
      && |lines| >= 1 && lines[0] == Title
      && ((|lines| >= 2 && lines[1].TimeLimitLine?) <==> timeLimit.Some? && timeLimit.value != 0)
  {
    var valid := Exported(questions);
    if |valid| > 0 {
      BlocksStart(valid, |valid|);
    }
  }

  lemma {:induction false} BlocksStart(valid: seq<Question>, n: nat)
    requires 0 < n <= |valid| && OptionsFit(valid)
    ensures Blocks(valid, n)[0] == QuestionLine(1, valid[0].text)
  {
    if n > 1 {
      BlocksStart(valid, n - 1);
    }
  }

  /** Option `j` is labelled with the letter of code 97 + j: a), b), c), ... */
  lemma {:induction false} OptionLabels(opts: seq<string>, m: nat)
    requires m <= |opts| < MaxOptions
    ensures |OptionLines(opts, m)| == m
    ensures forall j :: 0 <= j < m ==> OptionLines(opts, m)[j] == OptionLine((97 + j) as char, opts[j])
  {
    if m > 0 {
      OptionLabels(opts, m - 1);
    }
  }

  /** A block lists options exactly for a multiple-choice question with a non-empty options array. */
  lemma OptionsOnlyForChoices(q: Question, number: nat)
    requires q.options.Some? ==> |q.options.value| < MaxOptions
    ensures (exists k :: 0 <= k < |Block(q, number)| && Block(q, number)[k].OptionLine?) <==> HasListedOptions(q)
  {
    if HasListedOptions(q) {
      OptionLabels(q.options.value, |q.options.value|);
      assert Block(q, number)[1].OptionLine?;
    } else {
      assert Block(q, number) == [QuestionLine(number, q.text), AnswerLine(AnswerText(q))];
    }
  }

  /** A numeric answer naming a non-empty option shows that option's text. */
  lemma NumericAnswerShowsOption(q: Question, n: nat)
    requires HasListedOptions(q) && q.correctAnswer == Number(n)
    requires n < |q.options.value| && q.options.value[n] != ""
    ensures AnswerText(q) == q.options.value[n]
  {
  }

  /** A textual answer that is an index written in decimal shows that option's text too. */
  lemma IndexTextShowsOption(q: Question, k: nat)
    requires HasListedOptions(q) && q.correctAnswer == Text(NatToString(k))
    requires k < |q.options.value| && q.options.value[k] != ""
    ensures AnswerText(q) == q.options.value[k]
  {
    NatToStringRoundTrip(k);
  }

  /** An answer naming no option, or an empty one, falls back to the raw answer. */
  lemma FallbackToRawAnswer(q: Question)
    requires HasListedOptions(q)
    requires var o := OptionAt(q.options.value, q.correctAnswer); o.None? || o.value == ""
    ensures AnswerText(q) == AnswerString(q.correctAnswer)
  {
  }

  /** A textual answer that is not a decimal index, such as "Paris", is shown as it is. */
  lemma WordAnswerShownRaw(q: Question, s: string)
    requires q.correctAnswer == Text(s) && s != [] && !('0' <= s[0] <= '9')
    ensures AnswerText(q) == s
  {
  }

  /** Questions other than multiple choice with options show the raw answer. */
  lemma OtherKindsShowRaw(q: Question)
    requires !HasListedOptions(q)
    ensures AnswerText(q) == AnswerString(q.correctAnswer)
  {
  }
}
