/**
  The question-generation endpoint: a count guard, the prompt, one call to
  the language model (an oracle here), a textual cleanup of its reply,
  structural checks on the parsed value, coercion of each element and the
  final schema check.
*/
module ChatRoute {
  import opened Wrappers
  import opened Text
  import opened Json
  import opened Types

  /** The request body; `fileContent` may be absent. */
  datatype Request = Request(
    input: string,
    fileContent: Option<string>,
    questionType: string,
    questionCount: int)

  /** The three shapes of reply: plain text, the structured parse failure, the batch. */
  datatype Response =
    | PlainText(status: int, body: string)
    | ParseFailure(error: string, details: string, rawResponse: string)
    | Generated(questions: seq<Question>)
  {
    function Status(): int {
      match this
      case PlainText(status, _) => status
      case ParseFailure(_, _, _) => 500
      case Generated(_) => 200
    }
  }

  const MaxQuestions := 20
  const CountTooLarge := "The maximum number of questions is 20."
  const GenericError := "An error occurred while generating questions."
  /** The `error` field of every structured parse failure. */
  const ParseErrorTitle := "Failed to parse questions"
  const NotAnArray := "Response is not an array"
  /** The `TypeError` message a property read on `null` raises. */
  const NullElement := "Cannot read properties of null (reading 'question')"
  const MixedTypes := "The questions can be multiple-choice, " + "true-false, or short-answer."

  /** The sentence of the prompt that constrains the question type. */
  function TypePrompt(questionType: string): string {
    if questionType == "mixed" then MixedTypes
    else "The questions should be " + ReplaceFirst(questionType, '-', ' ') + "."
  }

  /** Template-literal interpolation of an optional string: an absent value prints as "undefined". */
  function Interpolate(o: Option<string>): string {
    if o.Some? then o.value else "undefined"
  }

  /** The fixed instructions between the type sentence and the content, line by line. */
  function Instructions(): string {
    "\n\n"
    + "Respond ONLY with a JSON array of objects, nothing else. "
    + "Each object must have:\n"
    + "{\n"
    + "  \"question\": \"the question text\",\n"
    + "  \"type\": \"multiple-choice\" OR \"true-false\" OR "
    + "\"short-answer\",\n"
    + "  \"options\": [\"option1\", \"option2\", ...] "
    + "(only for multiple-choice),\n"
    + "  \"correctAnswer\":string or index of the correct option,\n"
    + "  \"hint\": \"optional hint\"\n"
    + "}\n"
    + "\n"
    + "Content to generate questions from:\n"
  }

  /** The first two lines, which state the requested count. */
  function Header(count: int): string {
    "You are a JSON generator for educational questions.\n"
    + "Generate exactly " + IntToString(count) + " questions in valid JSON format.\n"
  }

  /** The content the user supplied: the typed input, then the uploaded file's text. */
  function Content(req: Request): string {
    req.input + "\n" + Interpolate(req.fileContent)
  }

  /** The instruction sent to the model. */
  function Prompt(req: Request): string {
    Header(req.questionCount) + TypePrompt(req.questionType) + (Instructions() + Content(req))
  }

  // ---- cleanup of the model's text, one regex replacement per function ----

  // The optional group (?:json) of the opening-fence regex, matched case-insensitively.
  function DropTag(s: string): string {
    if |s| >= 4 && ToLower(s[..4]) == "json" then s[4..] else s
  }

  // The regex ^```(?:json)?\s* (case-insensitive) replaced by "".
  function StripOpeningFence(s: string): string {
    if StartsWith(s, "```") then TrimStart(DropTag(s[3..])) else s
  }

  // The regex ```$ replaced by "".
  function StripClosingFence(s: string): string {
    if EndsWith(s, "```") then s[..|s| - 3] else s
  }

  // The regex ^\s*\[ replaced by "[".
  function StripBeforeBracket(s: string): string {
    var t := TrimStart(s);
    if StartsWith(t, "[") then t else s
  }

  // The regex \]\s*$ replaced by "]".
  function StripAfterBracket(s: string): string {
    var t := TrimEnd(s);
    if EndsWith(t, "]") then t else s
  }

  /** The whole cleanup chain applied to the model's reply. */
  function Cleanup(text: string): string {
    StripAfterBracket(StripBeforeBracket(StripClosingFence(StripOpeningFence(Trim(text)))))
  }

  /** The diagnostic excerpt: the first 200 characters of the raw reply, then "...". */
  function Excerpt(text: string): (r: string)
    ensures |r| == (if |text| < 200 then |text| else 200) + 3
    ensures StartsWith(text, r[..|r| - 3]) && EndsWith(r, "...")
  {
    (if |text| <= 200 then text else text[..200]) + "..."
  }

  // ---- structural checks and coercion ----

  /** An element passes the field check when it is not null and has a truthy `question` and `type`. */
  predicate ElementOk(q: Value) {
    !q.Null? && Present(Get(q, "question")) && Present(Get(q, "type"))
  }

  /** The index at which the `forEach` check throws first, scanning from `k`. */
  function FirstBad(items: seq<Value>, k: nat): (r: Option<nat>)
    requires k <= |items|
    decreases |items| - k
    ensures r.None? <==> forall j :: k <= j < |items| ==> ElementOk(items[j])
    ensures r.Some? ==> k <= r.value < |items| && !ElementOk(items[r.value])
                        && forall j :: k <= j < r.value ==> ElementOk(items[j])
  {
    if k == |items| then None
    else if !ElementOk(items[k]) then Some(k)
    else FirstBad(items, k + 1)
  }

  /** The message thrown for the bad element at index `i`. */
  function BadElementMessage(q: Value, i: nat): string {
    if q.Null? then NullElement
    else "Question at index " + NatToString(i) + " is missing required fields"
  }

  /** The `map` that coerces one parsed element before the schema check. */
  function Format(q: Value): Value {
    var qtype := Get(q, "type");
    var options := Get(q, "options");
    var m := Put(map[], "question", Get(q, "question"));
    var m := m["type" := if Present(qtype) then qtype.value else Str("short-answer")];
    var m := Put(m, "options",
                 if qtype == Some(Str("multiple-choice"))
                 then Some(if Present(options) then options.value else Arr([]))
                 else None);
    var m := Put(m, "correctAnswer", Get(q, "correctAnswer"));
    Obj(Put(m, "hint", Get(q, "hint")))
  }

  function FormatAll(items: seq<Value>): seq<Value> {
    seq(|items|, i requires 0 <= i < |items| => Format(items[i]))
  }

  /** What happens to the parse result of the cleaned reply; `raw` is the excerpt of the reply. */
  function HandleParsed(p: ParseResult, raw: string): Response {
    match p
    case SyntaxError(message) => ParseFailure(ParseErrorTitle, message, raw)
    case Parsed(v) =>
      if !v.Arr? then ParseFailure(ParseErrorTitle, NotAnArray, raw)
      else
        var bad := FirstBad(v.items, 0);
        if bad.Some? then ParseFailure(ParseErrorTitle, BadElementMessage(v.items[bad.value], bad.value), raw)
        else
          var checked := CheckQuestions(FormatAll(v.items));
          if checked.None? then PlainText(500, GenericError) else Generated(checked.value)
  }

  /**
    The POST handler given the model's reply to the prompt (None: the call
    threw or gave no response); `parse` is `JSON.parse`.
  */
  function Respond(req: Request, reply: Option<string>, parse: string -> ParseResult): Response {
    if req.questionCount > MaxQuestions then PlainText(400, CountTooLarge)
    else if reply.None? || reply.value == "" then PlainText(500, GenericError)
    else HandleParsed(parse(Cleanup(reply.value)), Excerpt(reply.value))
  }

  /** The POST handler: `model` is the language model, asked once with the prompt. */
  function Post(req: Request, model: string -> Option<string>, parse: string -> ParseResult): Response {
    Respond(req, if req.questionCount > MaxQuestions then None else model(Prompt(req)), parse)
  }

  // ---- properties ----

  /** A count above 20 is refused with 400 whatever the model would say: the model is never consulted. */
  lemma CountGuard(req: Request, model1: string -> Option<string>, model2: string -> Option<string>,
                   parse: string -> ParseResult)
    requires req.questionCount > 20
    ensures Post(req, model1, parse) == Post(req, model2, parse) == PlainText(400, CountTooLarge)
  {
  }

  /** The only statuses the endpoint produces are 200, 400 and 500, and 400 only for the count. */
  lemma Statuses(req: Request, model: string -> Option<string>, parse: string -> ParseResult)
    ensures Post(req, model, parse).Status() in {200, 400, 500}
    ensures Post(req, model, parse).Status() == 400 <==> req.questionCount > 20
  {
    RespondStatuses(req, if req.questionCount > MaxQuestions then None else model(Prompt(req)), parse);
  }

  /** Whatever the model replies, the handler answers 200, 400 or 500, and 400 only for the count. */
  lemma RespondStatuses(req: Request, reply: Option<string>, parse: string -> ParseResult)
    ensures Respond(req, reply, parse).Status() in {200, 400, 500}
    ensures Respond(req, reply, parse).Status() == 400 <==> req.questionCount > 20
  {
    if req.questionCount <= MaxQuestions && reply.Some? && reply.value != "" {
      ParsedStatuses(parse(Cleanup(reply.value)), Excerpt(reply.value));
    }
  }

  /** Once the model has replied, the outcome is a 200 or a 500. */
  lemma ParsedStatuses(p: ParseResult, raw: string)
    ensures HandleParsed(p, raw).Status() in {200, 500}
  {
  }

  /** "mixed" allows all three kinds; any other type is named, with only its first '-' made a space. */
  lemma TypePromptNamesType(questionType: string)
    ensures questionType == "mixed" ==> TypePrompt(questionType) == MixedTypes
    ensures questionType != "mixed" ==>
      var r := TypePrompt(questionType);
      var prefix := "The questions should be ";
      |r| == |prefix| + |questionType| + 1 && StartsWith(r, prefix) && EndsWith(r, ".")
      && forall i :: 0 <= i < |questionType| ==>
           r[|prefix| + i] == if questionType[i] == '-' && '-' !in questionType[..i] then ' ' else questionType[i]
  {
    if questionType != "mixed" {
      ReplaceFirstAt(questionType, '-', ' ');
      var prefix := "The questions should be ";
      var r := TypePrompt(questionType);
      var mid := ReplaceFirst(questionType, '-', ' ');
      assert r == prefix + mid + ".";
      forall i | 0 <= i < |questionType|
        ensures r[|prefix| + i] == mid[i]
      {
      }
    }
  }

  /** Only the first '-' of the type becomes a space: "a-b-c" is named "a b-c". */
  lemma TypePromptFirstDashOnly()
    ensures TypePrompt("a-b-c") == "The questions should be " + "a b-c."
  {
    var t := "a-b-c";
    assert t[0] == 'a' && t[1..] == "-b-c";
    assert ReplaceFirst(t, '-', ' ') == "a b-c";
  }

  /** The prompt carries the type sentence and the content the user supplied, verbatim. */
  lemma PromptEmbeds(req: Request)
    ensures Contains(Prompt(req), TypePrompt(req.questionType))
    ensures Contains(Prompt(req), Content(req))
  {
    var h, t, m, c := Header(req.questionCount), TypePrompt(req.questionType), Instructions(), Content(req);
    ContainsInfix(h, t, m + c);
    ContainsTail(h + t, m, c);
  }

  /** Text that already is a bare array literal passes the cleanup unchanged. */
  lemma CleanupOfBareArray(s: string)
    requires |s| >= 2 && s[0] == '[' && s[|s| - 1] == ']'
    ensures Cleanup(s) == s
  {
    assert !StartsWith(s, "```") by {
      assert |s| < 3 || s[..3][0] == '[';
    }
    assert !EndsWith(s, "```") by {
      assert |s| < 3 || s[|s| - 3..][2] == ']';
    }
    TrimOfTrimmed(s);
    assert StripOpeningFence(s) == s;
    assert StripClosingFence(s) == s;
    TrimStartOfUnspaced(s);
    assert StripBeforeBracket(s) == s;
    TrimEndOfUnspaced(s);
    assert StripAfterBracket(s) == s;
  }

  /** Cleaning is idempotent on every text whose cleanup is a bare array literal. */
  lemma CleanupIdempotentOnArrays(s: string)
    requires |Cleanup(s)| >= 2 && Cleanup(s)[0] == '[' && Cleanup(s)[|Cleanup(s)| - 1] == ']'
    ensures Cleanup(Cleanup(s)) == Cleanup(s)
  {
    CleanupOfBareArray(Cleanup(s));
  }

  /** A tag spelling "json" in any case is dropped. */
  lemma TagDropped(tag: string, body: string)
    requires |tag| == 4 && ToLower(tag) == "json"
    ensures DropTag(tag + body) == body
  {
    assert (tag + body)[..4] == tag;
    assert (tag + body)[4..] == body;
  }

  /** Text starting with white space or '[' has no tag to drop. */
  lemma NoTagBeforeBracket(body: string)
    requires |body| >= 1 && (IsSpace(body[0]) || body[0] == '[')
    ensures DropTag(body) == body
  {
    if |body| >= 4 {
      assert ToLower(body[..4])[0] == LowerChar(body[0]);
    }
  }

  /** An opening fence, an optional tag and white space before an array are removed. */
  lemma OpeningFenceRemoved(tag: string, w: string, rest: string)
    requires tag == "" || (|tag| == 4 && ToLower(tag) == "json")
    requires AllSpace(w)
    requires |rest| >= 1 && rest[0] == '['
    ensures StripOpeningFence("```" + (tag + (w + rest))) == rest
  {
    var body := w + rest;
    var s := "```" + (tag + body);
    assert s[..3] == "```" && s[3..] == tag + body;
    assert DropTag(tag + body) == body by {
      if tag == "" {
        assert tag + body == body;
        assert body[0] == (if w == [] then rest[0] else w[0]);
        NoTagBeforeBracket(body);
      } else {
        TagDropped(tag, body);
      }
    }
    assert TrimStart(body) == rest by {
      TrimStartPadded(w, rest);
      TrimStartOfUnspaced(rest);
    }
  }

  /** A closing fence is removed. */
  lemma ClosingFenceRemoved(x: string)
    ensures StripClosingFence(x + "```") == x
  {
    var s := x + "```";
    assert s[|s| - 3..] == "```";
    assert s[..|s| - 3] == x;
  }

  /** An array literal followed by white space keeps its opening and loses the trailing white space. */
  lemma BracketsKept(a: string, w: string)
    requires |a| >= 2 && a[0] == '[' && a[|a| - 1] == ']'
    requires AllSpace(w)
    ensures StripAfterBracket(StripBeforeBracket(a + w)) == a
  {
    TrimStartOfUnspaced(a + w);
    assert (a + w)[..1] == "[";
    TrimEndPadded(a, w);
    TrimEndOfUnspaced(a);
    assert a[|a| - 1..] == "]";
  }

  /** The cleanup chain, stage by stage. */
  lemma CleanupStages(s: string, unopened: string, closed: string, a: string)
    requires Trim(s) == s && StripOpeningFence(s) == unopened
    requires StripClosingFence(unopened) == closed
    requires StripAfterBracket(StripBeforeBracket(closed)) == a
    ensures Cleanup(s) == a
  {
  }

  /** A fenced reply has no white space to trim at either end. */
  lemma FencedTrimmed(tag: string, w1: string, tail: string)
    requires |tail| >= 1 && tail[|tail| - 1] == '`'
    ensures Trim("```" + (tag + (w1 + tail))) == "```" + (tag + (w1 + tail))
  {
    var s := "```" + (tag + (w1 + tail));
    assert s[0] == '`' && s[|s| - 1] == '`';
    TrimOfTrimmed(s);
  }

  /** The opening stages on a fenced reply: nothing to trim, then the fence, tag and white space go. */
  lemma FencedOpening(tag: string, w1: string, tail: string)
    requires tag == "" || (|tag| == 4 && ToLower(tag) == "json")
    requires AllSpace(w1)
    requires |tail| >= 1 && tail[0] == '[' && tail[|tail| - 1] == '`'
    ensures StripOpeningFence("```" + (tag + (w1 + tail))) == tail
    ensures Trim("```" + (tag + (w1 + tail))) == "```" + (tag + (w1 + tail))
  {
    OpeningFenceRemoved(tag, w1, tail);
    FencedTrimmed(tag, w1, tail);
  }

  /**
    A fenced reply ("```" + optional json tag in any case + white space + A +
    white space + "```") cleans to the bare array literal A.
  */
  lemma CleanupOfFenced(tag: string, w1: string, a: string, w2: string)
    requires tag == "" || (|tag| == 4 && ToLower(tag) == "json")
    requires AllSpace(w1) && AllSpace(w2)
    requires |a| >= 2 && a[0] == '[' && a[|a| - 1] == ']'
    ensures Cleanup("```" + (tag + (w1 + (a + w2 + "```")))) == a
  {
    var tail := a + w2 + "```";
    assert tail[0] == '[' && tail[|tail| - 1] == '`';
    FencedOpening(tag, w1, tail);
    ClosingFenceRemoved(a + w2);
    BracketsKept(a, w2);
    CleanupStages("```" + (tag + (w1 + tail)), tail, a + w2, a);
  }

  /** Prose before the array is NOT removed: such a reply reaches the parser unchanged. */
  lemma CleanupKeepsProse()
    ensures Cleanup("Sure! [1]") == "Sure! [1]"
  {
    var s := "Sure! [1]";
    TrimOfTrimmed(s);
    assert !StartsWith(s, "```");
    assert !EndsWith(s, "```");
    TrimStartOfUnspaced(s);
    assert !StartsWith(s, "[");
    TrimEndOfUnspaced(s);
  }

  /** How a generated question relates to the parsed element it came from. */
  ghost predicate FormattedFrom(item: Value, q: Question) {
    && Get(item, "question") == Some(Str(q.text)) && q.text != ""
    && Get(item, "type") == Some(Str(TypeName(q.kind)))
    && Get(item, "correctAnswer") == Some(AnswerJson(q.correctAnswer))
    && (q.options.Some? <==> q.kind == MultipleChoice)
    && (q.kind == MultipleChoice ==>
          if Present(Get(item, "options")) then Get(item, "options") == Some(OptionsJson(q.options.value))
          else q.options.value == [])
    && (q.hint.None? <==> Get(item, "hint").None?)
    && (q.hint.Some? ==> Get(item, "hint") == Some(Str(q.hint.value)))
  }

  lemma FormatChecked(item: Value, q: Question)
    requires ElementOk(item)
    requires CheckQuestion(Format(item)) == Some(q)
    ensures FormattedFrom(item, q)
  {
    var f := Format(item);
    assert Get(f, "question") == Get(item, "question");
    assert Get(f, "type") == Get(item, "type");
    assert Get(f, "correctAnswer") == Get(item, "correctAnswer");
    assert Get(f, "hint") == Get(item, "hint");
    assert Get(f, "options").Some? <==> Get(item, "type") == Some(Str("multiple-choice"));
    if q.kind == MultipleChoice {
      var given := Get(item, "options");
      var opts := Get(f, "options").value;
      assert opts == if Present(given) then given.value else Arr([]);
      assert opts.Arr? && AllStrings(opts.items) && q.options.value == Strings(opts.items);
      assert opts == OptionsJson(q.options.value);
    }
  }

  /** Once the count is allowed and the model gave non-empty text, the cleaned text decides the reply. */
  lemma RespondHandsOver(req: Request, reply: Option<string>, parse: string -> ParseResult)
    ensures Respond(req, reply, parse).Status() != 400 ==> req.questionCount <= 20
    ensures Respond(req, reply, parse).Generated? || Respond(req, reply, parse).ParseFailure? ==>
      && req.questionCount <= 20 && reply.Some? && reply.value != ""
      && Respond(req, reply, parse) == HandleParsed(parse(Cleanup(reply.value)), Excerpt(reply.value))
  {
  }

  /**
    A 200 reply holds exactly one question per parsed element, in order, each
    with non-empty text, the element's own type (the "short-answer" default
    never applies), its answer and hint passed through, and options present
    exactly for multiple-choice questions.
  */
  lemma GeneratedBatch(p: ParseResult, raw: string)
    requires HandleParsed(p, raw).Generated?
    ensures p.Parsed? && p.value.Arr?
    ensures |HandleParsed(p, raw).questions| == |p.value.items|
    ensures forall i :: 0 <= i < |p.value.items| ==>
              FormattedFrom(p.value.items[i], HandleParsed(p, raw).questions[i])
  {
    var items := p.value.items;
    var qs := HandleParsed(p, raw).questions;
    assert CheckQuestions(FormatAll(items)) == Some(qs);
    forall i | 0 <= i < |items|
      ensures FormattedFrom(items[i], qs[i])
    {
      assert FormatAll(items)[i] == Format(items[i]);
      FormatChecked(items[i], qs[i]);
    }
  }

  /** An absent or empty reply is a plain-text 500. */
  lemma EmptyReplyFails(req: Request, reply: Option<string>, parse: string -> ParseResult)
    requires req.questionCount <= 20
    requires reply.None? || reply.value == ""
    ensures Respond(req, reply, parse) == PlainText(500, GenericError)
  {
  }

  /** Text that `JSON.parse` rejects gives the structured 500 carrying the parser's message. */
  lemma SyntaxErrorFails(message: string, raw: string)
    ensures HandleParsed(SyntaxError(message), raw) == ParseFailure(ParseErrorTitle, message, raw)
  {
  }

  /** A non-array parse result gives the structured 500 with the fixed detail and the raw excerpt. */
  lemma NotArrayFails(v: Value, raw: string)
    requires !v.Arr?
    ensures HandleParsed(Parsed(v), raw) == ParseFailure(ParseErrorTitle, NotAnArray, raw)
  {
  }

  /**
    One element without a truthy `question` or `type` rejects the whole
    batch with a structured 500 naming the first such index.
  */
  lemma MissingFieldFails(items: seq<Value>, raw: string, k: nat)
    requires k < |items| && !ElementOk(items[k])
    ensures exists i ::
              && 0 <= i <= k && !ElementOk(items[i])
              && (forall j :: 0 <= j < i ==> ElementOk(items[j]))
              && HandleParsed(Parsed(Arr(items)), raw) == ParseFailure(ParseErrorTitle, BadElementMessage(items[i], i), raw)
  {
    var bad := FirstBad(items, 0);
    assert bad.Some?;
    var i := bad.value;
    assert i <= k;
  }

  /** A type outside the enumeration passes the field check but fails the schema: a plain-text 500. */
  lemma UnknownTypeFails(items: seq<Value>, raw: string, k: nat)
    requires forall j :: 0 <= j < |items| ==> ElementOk(items[j])
    requires k < |items|
    requires var t := Get(items[k], "type"); t.Some? && (!t.value.Str? || TypeOf(t.value.s).None?)
    ensures HandleParsed(Parsed(Arr(items)), raw) == PlainText(500, GenericError)
  {
    assert FirstBad(items, 0).None?;
    var f := FormatAll(items);
    assert f[k] == Format(items[k]);
    assert Get(f[k], "type") == Get(items[k], "type");
    assert CheckQuestion(f[k]).None?;
    assert CheckQuestions(f).None?;
  }

  /** A missing `correctAnswer` also fails the schema with a plain-text 500. */
  lemma MissingAnswerFails(items: seq<Value>, raw: string, k: nat)
    requires forall j :: 0 <= j < |items| ==> ElementOk(items[j])
    requires k < |items| && Get(items[k], "correctAnswer").None?
    ensures HandleParsed(Parsed(Arr(items)), raw) == PlainText(500, GenericError)
  {
    assert FirstBad(items, 0).None?;
    var f := FormatAll(items);
    assert f[k] == Format(items[k]);
    assert Get(f[k], "correctAnswer").None?;
    assert CheckQuestion(f[k]).None?;
    assert CheckQuestions(f).None?;
  }

  /** Every structured failure carries the fixed title and quotes the excerpt of the raw, uncleaned reply. */
  lemma ParseFailureQuotesRaw(p: ParseResult, raw: string)
    requires HandleParsed(p, raw).ParseFailure?
    ensures HandleParsed(p, raw).error == ParseErrorTitle
    ensures HandleParsed(p, raw).rawResponse == raw
  {
  }
}
