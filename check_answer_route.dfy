/**
  The answer-grading endpoint: the two answers are quoted into a prompt,
  the language model (an oracle here) replies, and the reply counts as
  "correct" exactly when, trimmed and lower-cased, it is the word "true".
*/
module CheckAnswerRoute {
  import opened Wrappers
  import opened Text

  /** The two shapes of reply: plain text on error, or the JSON `{ isCorrect }`. */
  datatype Reply =
    | PlainText(status: int, body: string)
    | Graded(isCorrect: bool)
  {
    function Status(): int {
      if PlainText? then status else 200
    }
  }

  const CheckError := "An error occurred while checking the answer."

  /** The fixed opening of the grading prompt, split into short pieces. */
  function Preamble(): string {
    "You are a quiz grader. Compare these two answers and respond "
    + "with true if they convey the same basic meaning (even with "
    + "variations in style, phrasing, or use of synonyms) or false "
    + "if the meaning differs significantly.\n\n"
  }

  function Closing(): string {
    "\n\nRespond ONLY with true or false, no other text."
  }

  /** The line quoting the reference answer. */
  function CorrectLine(correctAnswer: string): string {
    "Correct answer: \"" + correctAnswer + "\"\n"
  }

  /** The line quoting the user's answer. */
  function UserLine(userAnswer: string): string {
    "User answer: \"" + userAnswer + "\""
  }

  /** The prompt sent to the model. */
  function GradingPrompt(correctAnswer: string, userAnswer: string): string {
    Preamble() + CorrectLine(correctAnswer) + (UserLine(userAnswer) + Closing())
  }

  /** The normalise-and-compare applied to the model's text. */
  predicate IsCorrect(text: string) {
    ToLower(Trim(text)) == "true"
  }

  /** The handler once the model has been asked: None stands for a missing response object. */
  function Respond(reply: Option<string>): Reply {
    if reply.None? || reply.value == "" then PlainText(500, CheckError)
    else Graded(IsCorrect(reply.value))
  }

  /** The POST handler; `model` is the language model, asked once. */
  function Post(correctAnswer: string, userAnswer: string, model: string -> Option<string>): Reply {
    Respond(model(GradingPrompt(correctAnswer, userAnswer)))
  }

  // ---- properties ----

  /** Both answers appear in the prompt verbatim, each inside double quotes on its own line. */
  lemma PromptQuotesAnswers(correctAnswer: string, userAnswer: string)
    ensures Contains(GradingPrompt(correctAnswer, userAnswer), CorrectLine(correctAnswer))
    ensures Contains(GradingPrompt(correctAnswer, userAnswer), UserLine(userAnswer))
  {
    var p, c, u, e := Preamble(), CorrectLine(correctAnswer), UserLine(userAnswer), Closing();
    ContainsInfix(p, c, u + e);
    assert GradingPrompt(correctAnswer, userAnswer) == (p + c) + u + e;
    ContainsInfix(p + c, u, e);
  }

  /** A missing or empty reply is the plain-text 500; any other reply is a 200 with a boolean. */
  lemma TwoOutcomes(reply: Option<string>)
    ensures Respond(reply).Status() in {200, 500}
    ensures Respond(reply).Status() == 500 <==> reply.None? || reply.value == ""
    ensures Respond(reply).PlainText? ==> Respond(reply).body == CheckError
  {
  }

  /** The word "true" in any case, padded with white space, is "correct". */
  lemma PaddedTrueIsCorrect(w1: string, c: string, w2: string)
    requires AllSpace(w1) && AllSpace(w2)
    requires |c| == 4 && ToLower(c) == "true"
    ensures IsCorrect(w1 + c + w2)
  {
    assert ToLower(c)[0] == 't' && ToLower(c)[3] == 'e';
    LetterNotSpace(c[0]);
    LetterNotSpace(c[3]);
    TrimOfTrimmed(c);
    TrimPadded(w1, c, w2);
  }

  /**
    The verdict is "correct" exactly when the text is white space, then the
    four letters of "true" in any case, then white space.
  */
  lemma IsCorrectShape(text: string)
    ensures IsCorrect(text) <==>
      exists i, j :: 0 <= i <= j <= |text| && j - i == 4
                     && AllSpace(text[..i]) && AllSpace(text[j..]) && ToLower(text[i..j]) == "true"
  {
    if IsCorrect(text) {
      TrimShape(text);
      var i, j :| 0 <= i <= j <= |text| && Trim(text) == text[i..j]
                  && AllSpace(text[..i]) && AllSpace(text[j..]);
      assert j - i == 4;
    }
    if exists i, j :: 0 <= i <= j <= |text| && j - i == 4
                      && AllSpace(text[..i]) && AllSpace(text[j..]) && ToLower(text[i..j]) == "true" {
      var i, j :| 0 <= i <= j <= |text| && j - i == 4
                  && AllSpace(text[..i]) && AllSpace(text[j..]) && ToLower(text[i..j]) == "true";
      SplitThree(text, i, j);
      PaddedTrueIsCorrect(text[..i], text[i..j], text[j..]);
    }
  }

  /** White space around the reply never changes the verdict. */
  lemma PaddingIgnored(w1: string, text: string, w2: string)
    requires AllSpace(w1) && AllSpace(w2)
    ensures IsCorrect(w1 + text + w2) == IsCorrect(text)
  {
    TrimPadded(w1, text, w2);
  }

  /** Upper case still gives "correct". */
  lemma UpperCaseTrue()
    ensures IsCorrect("TRUE")
  {
    PaddedTrueIsCorrect("", "TRUE", "");
    assert "" + "TRUE" + "" == "TRUE";
  }

  /** Surrounding white space still gives "correct". */
  lemma PaddedTrue()
    ensures IsCorrect(" true \n")
  {
    PaddedTrueIsCorrect(" ", "true", " \n");
    assert " " + "true" + " \n" == " true \n";
  }

  /** The other answer word is "incorrect". */
  lemma FalseIsIncorrect()
    ensures !IsCorrect("false")
  {
    TrimOfTrimmed("false");
  }

  /** A hedge is "incorrect". */
  lemma MaybeIsIncorrect()
    ensures !IsCorrect("maybe")
  {
    TrimOfTrimmed("maybe");
  }

  /** Punctuation after the word makes it "incorrect". */
  lemma PunctuatedIsIncorrect()
    ensures !IsCorrect("true.")
  {
    TrimOfTrimmed("true.");
  }

  /** More words after it make it "incorrect". */
  lemma SentenceIsIncorrect()
    ensures !IsCorrect("true story")
  {
    TrimOfTrimmed("true story");
  }
}
