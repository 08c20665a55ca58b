# A verified model of the study companion's logic

The study companion is a Next.js web application. Users sign up and log in,
submit text from which a language model generates quiz questions, answer and
export those questions, and track their progress. Next to the quiz it keeps
notes, a todo list, bookmarks and a weekly timetable in the browser's
storage. This project models in Dafny the parts of the application that
compute something, and proves what they promise:

- **Question generation** (`ChatRoute`, `Types`):
  - the count guard and the prompt;
  - the textual cleanup of the model's reply;
  - the array and field checks, the coercion of each element and the schema;
  - the shape of every error reply.
- **Answer grading** (`CheckAnswerRoute`, `QuestionList`):
  - the answer-checking endpoint's trim-lower-case-compare verdict;
  - the quiz's rules for marking each kind of question, the answer array, the hint toggles and retaking;
  - appending to the progress log.
- **Derived views** (`ExportQuestions`, `ProgressStats`):
  - the exported document as a list of text lines;
  - the statistics over the progress log.
- **List pages** (`TodoPage`, `BookmarksPage`, `NotesPage`, `AddNoteDialog`, `NotesList`): add, toggle, replace, delete, the folder list, search and the note-storage merges.
- **Forms and guards** (`SignupPage`, `LoginPage`, `SignupRoute`, `Middleware`, `AuthProvider`, `Patterns`):
  - client-side form validation;
  - the server's signup checks, with the user database as a set of addresses;
  - the route guard;
  - the storage-backed login.
- **Timetable** (`TimeTableCreator`): a class over a 5 × 8 `array2` of slots. Adding and deleting courses write it in place. Each day's row keeps a tiling invariant: every course covers `span` consecutive slots and only the first is its start. The rendered row is always 8 columns wide.

Modelling choices:
- **Language model.** It is a function parameter `model: string -> Option<string>`; `None` means the call failed.
- **Grading endpoint.** The quiz reaches it with `fetch`, so it is a parameter `server` that maps the two answers to the endpoint's reply. `QuestionList.ShortAnswerDefers` plugs in `CheckAnswerRoute.Post`.
- **`JSON.parse`.** It is a parameter returning an abstract JSON `Value` or a syntax error.
- **Browser storage.** Every saved list, the progress log included, is a `Stored<T>` value: absent, unparsable, not an array, or a list of items.
- **Clocks and fresh ids.** These are parameters.
- **Strings.** They are `seq<char>`. Whitespace is the exact set JavaScript's `trim` and `\s` use. Lower-casing is ASCII.

## Model

| member | source | states |
|---|---|---|
| Types.TypeOf | src/types/types.ts:22 | the `type` enumeration accepts exactly the three literals, and maps each back to its name |
| Types.CheckQuestions | src/types/types.ts:19-27 | the array schema passes exactly when every element passes, and keeps the length and the order |
| Types.QuestionRoundTrip | src/types/types.ts:10-26 | every question, written as JSON, passes the record schema unchanged |
| Types.PayloadRoundTrip | src/types/types.ts:18-28 | a batch written as the `{ questions }` payload passes `QuestionSchema` and gives the batch back |
| Types.LooseRecordAccepted | src/types/types.ts:20-26 | an empty question text and an empty options array pass on every kind, and unknown keys are dropped |
| Types.BadRecordRejected | src/types/types.ts:22-24 | a type outside the enumeration, or a missing answer, fails the record schema |
| ChatRoute.Post | src/app/api/chat/route.ts:13-113 | the POST handler: the count guard, then one call to the model with the prompt, then `Respond` on its reply |
| ChatRoute.Respond | src/app/api/chat/route.ts:17-113 | the handler once the model has replied: 400 above 20 questions, the plain-text 500 for a missing or empty reply, and otherwise `HandleParsed` on the cleaned reply with the raw excerpt |
| ChatRoute.TypePrompt | src/app/api/chat/route.ts:21-24 | the type sentence: the all-kinds sentence for "mixed", otherwise the type with its first '-' replaced by a space |
| ChatRoute.Prompt | src/app/api/chat/route.ts:26-41 | the prompt: the two header lines with the count, the type sentence, the fixed instructions, then the input and the file text |
| ChatRoute.Cleanup | src/app/api/chat/route.ts:50-55 | the trim followed by the four regex replacements, one function each |
| ChatRoute.HandleParsed | src/app/api/chat/route.ts:57-112 | a syntax error, a non-array or a first bad element gives the structured 500; otherwise the coerced elements go through the schema, with the plain-text 500 when it fails |
| ChatRoute.Format | src/app/api/chat/route.ts:87-95 | the coercion of one element: the type defaults to "short-answer", options are kept (or `[]`) only for multiple choice, the other fields are copied |
| ChatRoute.CountGuard | src/app/api/chat/route.ts:17-19 | a count above 20 gives 400 with the fixed message, whatever the model would answer |
| ChatRoute.Statuses | src/app/api/chat/route.ts:13-113 | the endpoint answers only 200, 400 or 500, and 400 exactly when the count is above 20 |
| ChatRoute.RespondStatuses | src/app/api/chat/route.ts:17-113 | whatever the model replies, the handler answers 200, 400 or 500, and 400 exactly when the count is above 20 |
| ChatRoute.ParsedStatuses | src/app/api/chat/route.ts:57-103 | once the model has replied, the outcome is 200 or 500 |
| ChatRoute.TypePromptNamesType | src/app/api/chat/route.ts:21-24 | "mixed" gives the all-kinds sentence; any other type is named character by character, with only its first '-' made a space |
| ChatRoute.TypePromptFirstDashOnly | src/app/api/chat/route.ts:24 | "a-b-c" is named "a b-c" |
| ChatRoute.PromptEmbeds | src/app/api/chat/route.ts:26-41 | the prompt contains the type sentence and the user's input and file text verbatim |
| ChatRoute.CleanupOfBareArray | src/app/api/chat/route.ts:50-55 | text that starts with '[' and ends with ']' passes the cleanup unchanged |
| ChatRoute.CleanupIdempotentOnArrays | src/app/api/chat/route.ts:50-55 | cleaning twice equals cleaning once whenever the result is a bare array literal |
| ChatRoute.OpeningFenceRemoved | src/app/api/chat/route.ts:52 | an opening fence, an optional "json" tag in any case and white space are removed before an array |
| ChatRoute.ClosingFenceRemoved | src/app/api/chat/route.ts:53 | one trailing fence is removed |
| ChatRoute.BracketsKept | src/app/api/chat/route.ts:54-55 | white space after the closing ']' is removed and the brackets stay |
| ChatRoute.CleanupOfFenced | src/app/api/chat/route.ts:50-55 | a fenced reply (fence, optional json tag, white space, array, white space, fence) cleans to exactly the array |
| ChatRoute.CleanupKeepsProse | src/app/api/chat/route.ts:54 | prose in front of the array is not removed |
| ChatRoute.Excerpt | src/app/api/chat/route.ts:75 | the raw excerpt is the first min(200, length) characters of the reply followed by "..." |
| ChatRoute.FirstBad | src/app/api/chat/route.ts:65-69 | the scan finds no index exactly when every element has a truthy `question` and `type`; otherwise it finds the first index that lacks one |
| ChatRoute.FormatChecked | src/app/api/chat/route.ts:87-95 | a coerced element that passes the schema keeps its text, type, answer and hint, and has options exactly when it is multiple choice: the element's own options when it has them, and an empty list otherwise |
| ChatRoute.GeneratedBatch | src/app/api/chat/route.ts:57-103 | a 200 reply holds one question per parsed element, in order, each related to its element as above |
| ChatRoute.RespondHandsOver | src/app/api/chat/route.ts:43-59 | a structured failure or a batch happens only for an allowed count and a non-empty reply, and then the cleaned reply alone decides it |
| ChatRoute.EmptyReplyFails | src/app/api/chat/route.ts:46-48 | a missing or empty reply is the plain-text 500 |
| ChatRoute.SyntaxErrorFails | src/app/api/chat/route.ts:57-60 | unparsable text gives the structured 500 carrying the parser's message and the excerpt |
| ChatRoute.NotArrayFails | src/app/api/chat/route.ts:61-63 | a parsed non-array gives the structured 500 "Response is not an array" |
| ChatRoute.MissingFieldFails | src/app/api/chat/route.ts:65-69 | an element without a truthy `question` or `type` fails the batch, naming the first such index |
| ChatRoute.UnknownTypeFails | src/app/api/chat/route.ts:95-112 | a type outside the enumeration passes the field check but ends in the plain-text 500 |
| ChatRoute.MissingAnswerFails | src/app/api/chat/route.ts:95-112 | a missing `correctAnswer` ends in the plain-text 500 |
| ChatRoute.ParseFailureQuotesRaw | src/app/api/chat/route.ts:70-85 | every structured failure carries the fixed `error` title "Failed to parse questions" and quotes the excerpt of the raw, uncleaned reply |
| CheckAnswerRoute.Post | src/app/api/check-answer/route.ts:5-38 | the POST handler: the model is asked once with the grading prompt and `Respond` answers its reply |
| CheckAnswerRoute.Respond | src/app/api/check-answer/route.ts:19-37 | a missing or empty reply gives the plain-text 500; any other reply gives a 200 with `IsCorrect` of it |
| CheckAnswerRoute.IsCorrect | src/app/api/check-answer/route.ts:28 | the verdict: the reply, trimmed and lower-cased, equals "true" |
| CheckAnswerRoute.PromptQuotesAnswers | src/app/api/check-answer/route.ts:9-14 | both answers appear verbatim in the prompt, each in double quotes on its own line |
| CheckAnswerRoute.TwoOutcomes | src/app/api/check-answer/route.ts:19-37 | a missing or empty reply is the plain-text 500; every other reply is a 200 with a boolean |
| CheckAnswerRoute.IsCorrectShape | src/app/api/check-answer/route.ts:28 | the verdict is true exactly for white space, "true" in any case, white space |
| CheckAnswerRoute.PaddedTrueIsCorrect | src/app/api/check-answer/route.ts:28 | padded "true" in any case is correct |
| CheckAnswerRoute.PaddingIgnored | src/app/api/check-answer/route.ts:28 | white space around the reply never changes the verdict |
| CheckAnswerRoute.UpperCaseTrue | src/app/api/check-answer/route.ts:28 | "TRUE" is correct |
| CheckAnswerRoute.PaddedTrue | src/app/api/check-answer/route.ts:28 | " true \n" is correct |
| CheckAnswerRoute.FalseIsIncorrect | src/app/api/check-answer/route.ts:28 | "false" is incorrect |
| CheckAnswerRoute.MaybeIsIncorrect | src/app/api/check-answer/route.ts:28 | "maybe" is incorrect |
| CheckAnswerRoute.PunctuatedIsIncorrect | src/app/api/check-answer/route.ts:28 | "true." is incorrect |
| CheckAnswerRoute.SentenceIsIncorrect | src/app/api/check-answer/route.ts:28 | "true story" is incorrect |
| QuestionList.GradeQuestion | src/components/question-list.tsx:45-60 | true/false compares the string forms ignoring case; a short answer takes the grading endpoint's verdict on the two string forms; any other kind is strict equality |
| QuestionList.Grades | src/components/question-list.tsx:64 | one grade per question, by index |
| QuestionList.NewRecords | src/components/question-list.tsx:72-77 | one record per question, with its text, its result, the attempt time and the user "anonymous" |
| QuestionList.Toggled | src/components/question-list.tsx:90-92 | a shown hint index is removed everywhere in the list; a hidden one is appended |
| QuestionList.Quiz.constructor | src/components/question-list.tsx:15-19 | nothing is selected, nothing is graded, no hint is shown, no check is in progress, and the arrays have one entry per question |
| QuestionList.Quiz.SelectAnswer | src/components/question-list.tsx:21-27 | only entry i of the answers changes; the length and all other state are kept |
| QuestionList.Quiz.CheckAnswers | src/components/question-list.tsx:62-88 | each result is that question's grade and the results are shown; with a readable or absent log, exactly one record per question is appended, in order, after the stored ones, and the check ends; an unparsable or non-array log is left as it was and the check stays in progress |
| QuestionList.Quiz.ToggleHint | src/components/question-list.tsx:90-92 | the hint list becomes the toggled list; nothing else changes |
| QuestionList.Quiz.Retake | src/components/question-list.tsx:94-99 | answers reset to null and results to false, one per question; hints are cleared and results hidden; the log is kept |
| QuestionList.RemoveAll | src/components/question-list.tsx:91 | the filter keeps exactly the other indices |
| QuestionList.CorrectCount | src/components/question-list.tsx:227 | the count is the number of true results, so at most the number of results, equal to it exactly when all are true, and zero exactly when none are |
| QuestionList.ToggleFlips | src/components/question-list.tsx:90-92 | toggling shows a hidden hint and hides a shown one, and no other index changes |
| QuestionList.ToggleTwice | src/components/question-list.tsx:90-92 | toggling an index twice restores which hints are shown |
| QuestionList.TrueFalseIgnoresCase | src/components/question-list.tsx:51-53 | a true/false answer is correct exactly when it equals the correct answer ignoring case |
| QuestionList.TrueFalseExample | src/components/question-list.tsx:51-53 | "true" matches the correct answer "True" |
| QuestionList.MultipleChoiceStrict | src/components/question-list.tsx:59 | an option index matches only an equal numeric answer, never a textual one, and no answer matches nothing |
| QuestionList.ShortAnswerDefers | src/components/question-list.tsx:29-43 | a short answer is correct exactly when the answer-checking endpoint replies with a 200 whose verdict is true |
| QuestionList.MissingQuestionFalse | src/components/question-list.tsx:49 | an index without a question is graded false |
| ExportQuestions.Exported | src/components/export-questions.tsx:39-43 | exactly the questions with non-empty text are exported, and no more than were given |
| ExportQuestions.ExportedInOrder | src/components/export-questions.tsx:39-43 | the export filters piece by piece: a concatenation exports each part's questions in turn, a single question is kept exactly when its text is non-empty, and nothing exports nothing; so the order is kept |
| ExportQuestions.ExportLines | src/components/export-questions.tsx:13-93 | the document: the heading, then the blocks of the exported questions numbered from 1 |
| ExportQuestions.Heading | src/components/export-questions.tsx:22-36 | the title, then the time-limit line when the limit is truthy |
| ExportQuestions.Block | src/components/export-questions.tsx:45-90 | one question: its numbered text, its lettered options when it lists them, then the answer line |
| ExportQuestions.Label | src/components/export-questions.tsx:68-73 | option j is labelled with the character of code 97 + j |
| ExportQuestions.AnswerText | src/components/export-questions.tsx:84-88 | the option the answer points at, when options are listed and that option is non-empty; otherwise the raw answer |
| ExportQuestions.Export | src/components/export-questions.tsx:13-93 | the element-by-element loops produce exactly the document's line list |
| ExportQuestions.ExportAll | src/components/export-questions.tsx:45-91 | the loop over the exported questions appends exactly their blocks, numbered from 1, in order |
| ExportQuestions.ExportBlock | src/components/export-questions.tsx:46-90 | one question's elements are its numbered text, then its lettered options when listed, then its answer |
| ExportQuestions.NumberedAppend | src/components/export-questions.tsx:45-58 | the numbered lines of a concatenation are the numbered lines of each part, in order |
| ExportQuestions.NumberingContiguous | src/components/export-questions.tsx:45-58 | the question lines are numbered 1, 2, 3, ... over the exported questions, in order |
| ExportQuestions.BlocksNumbered | src/components/export-questions.tsx:45-58 | the first n blocks carry exactly the question lines 1..n |
| ExportQuestions.HeadingFirst | src/components/export-questions.tsx:22-36 | the title comes first, and the time-limit line follows exactly when the limit is truthy |
| ExportQuestions.OptionLabels | src/components/export-questions.tsx:68-73 | option j is labelled with the character of code 97 + j |
| ExportQuestions.OptionsOnlyForChoices | src/components/export-questions.tsx:62 | a block lists options exactly for a multiple-choice question with a non-empty options array |
| ExportQuestions.NumericAnswerShowsOption | src/components/export-questions.tsx:84-88 | a numeric answer that names a non-empty option shows that option |
| ExportQuestions.IndexTextShowsOption | src/components/export-questions.tsx:86 | a textual answer that is a decimal index also shows that option |
| ExportQuestions.FallbackToRawAnswer | src/components/export-questions.tsx:86 | an answer that names no option, or an empty one, is shown raw |
| ExportQuestions.WordAnswerShownRaw | src/components/export-questions.tsx:86 | a word answer such as "Paris" is shown raw |
| ExportQuestions.OtherKindsShowRaw | src/components/export-questions.tsx:84-88 | questions without listed options show the raw answer |
| ProgressStats.Calculate | src/components/progress-stats.tsx:18-47 | no statistics exactly when the log does not parse or is not an array (the computation throws); an absent log is read as empty; otherwise the statistics of the stored records |
| ProgressStats.Summarize | src/components/progress-stats.tsx:22-47 | the total, the correct count, the accuracy and the seven daily entries of a readable log |
| ProgressStats.Daily | src/components/progress-stats.tsx:29-35 | one day's entry: the date, the number of records on that day and how many of them are correct |
| ProgressStats.CountCorrect | src/components/progress-stats.tsx:39 | the correct count is the length of the log filtered on `correct`, so at most the number of records |
| ProgressStats.OnDay | src/components/progress-stats.tsx:30 | a day's records are the log filtered on a date that starts with that day: in order and with repeated records kept |
| ProgressStats.Last7Days | src/components/progress-stats.tsx:23-27 | the seven dates run from six days ago up to today |
| ProgressStats.AccuracyInRange | src/components/progress-stats.tsx:38-40 | the total is the number of records; correct does not exceed it; accuracy is 0 with no attempts and correct/total otherwise, so it lies in [0, 1] |
| ProgressStats.MissingStoreIsEmpty | src/components/progress-stats.tsx:19-20 | an absent log gives statistics, the same as an empty one, all zero |
| ProgressStats.DailyBuckets | src/components/progress-stats.tsx:23-36 | there are seven daily entries, oldest first; each counts that day's records, with no more correct than attempts |
| ProgressStats.AtMostOneMatch | src/components/progress-stats.tsx:30 | a record falls on at most one of seven distinct dates |
| ProgressStats.DayTotalSnoc | src/components/progress-stats.tsx:29-34 | one more record adds to the daily total the number of dates it falls on |
| ProgressStats.DayTotalBounded | src/components/progress-stats.tsx:29-34 | over distinct dates, the daily attempts add up to at most the number of records |
| ProgressStats.DailyWithinTotal | src/components/progress-stats.tsx:29-38 | the seven daily attempt counts add up to at most the total |
| TodoPage.Load | src/app/todo/page.tsx:21-35 | only an array is loaded, and unparsable text removes the stored key |
| TodoPage.AddTodo | src/app/todo/page.tsx:43-49 | the add: an open item with the trimmed text is appended and the input cleared, unless the trimmed text is empty |
| TodoPage.ToggleTodo | src/app/todo/page.tsx:51-55 | `completed` flips on every item with the id |
| TodoPage.DeleteTodo | src/app/todo/page.tsx:57-59 | the items whose id differs, in order |
| TodoPage.BlankAddsNothing | src/app/todo/page.tsx:45 | input that is blank after trimming changes nothing |
| TodoPage.AddAppends | src/app/todo/page.tsx:45-47 | an add appends one open item with the trimmed, non-blank text and clears the input |
| TodoPage.ToggleFlipsMatching | src/app/todo/page.tsx:51-55 | toggling flips `completed` exactly on the matching items; the length, ids and texts stay |
| TodoPage.ToggleTwice | src/app/todo/page.tsx:51-55 | toggling twice is the identity |
| TodoPage.DeleteRemovesId | src/app/todo/page.tsx:57-59 | delete removes exactly the items with the id |
| TodoPage.DeleteKeepsOrder | src/app/todo/page.tsx:57-59 | delete works piece by piece, so the rest keep their order |
| TodoPage.DeleteAbsentId | src/app/todo/page.tsx:57-59 | deleting an id that no item has changes nothing |
| BookmarksPage.Load | src/app/bookmarks/page.tsx:26-40 | only an array is loaded, and unparsable text removes the stored key |
| BookmarksPage.NormalizeUrl | src/app/bookmarks/page.tsx:54 | the trimmed URL, with "https://" in front unless it starts with "http" |
| BookmarksPage.AddBookmark | src/app/bookmarks/page.tsx:48-62 | the add: with a title and a URL that are non-blank, the bookmark is appended and the form reset; otherwise nothing changes |
| BookmarksPage.DeleteBookmark | src/app/bookmarks/page.tsx:64-66 | the bookmarks whose id differs, in order |
| BookmarksPage.NormalizedShape | src/app/bookmarks/page.tsx:54 | a normalised URL starts with "http" and has no white space at either end |
| BookmarksPage.NormalizeIdempotent | src/app/bookmarks/page.tsx:54 | normalising twice is normalising once |
| BookmarksPage.SchemeKept | src/app/bookmarks/page.tsx:54 | a URL that starts with "http" after trimming is only trimmed |
| BookmarksPage.IncompleteFormIgnored | src/app/bookmarks/page.tsx:50 | without both a title and a URL, nothing changes |
| BookmarksPage.AddAppends | src/app/bookmarks/page.tsx:50-61 | an add appends the bookmark with the trimmed title and the normalised URL, and resets the form to empty fields and "general" |
| BookmarksPage.DeleteRemovesId | src/app/bookmarks/page.tsx:64-66 | delete removes exactly the matching id and keeps the rest in order |
| NotesPage.LoadNotes | src/app/notes/page.tsx:21-33 | a saved list is loaded as it is; an absent or unparsable entry gives the empty list; a non-array gives no list |
| NotesPage.AddNote | src/app/notes/page.tsx:51-55 | the new note, then the old ones |
| NotesPage.DeleteNote | src/app/notes/page.tsx:57-61 | the notes whose id differs, in order |
| NotesPage.UpdateNote | src/app/notes/page.tsx:63-69 | every note with the updated note's id is replaced by it |
| NotesPage.Folders | src/app/notes/page.tsx:109 | "All", then the notes' folders without repeats, by first occurrence |
| NotesPage.FilterNotes | src/app/notes/page.tsx:110-114 | the notes in the selected folder (any, for "All") whose title or content contains the query, ignoring case |
| NotesPage.AddPrepends | src/app/notes/page.tsx:51-55 | the new note goes first and the others follow unchanged |
| NotesPage.DeleteRemovesId | src/app/notes/page.tsx:57-61 | delete removes every note with the id and keeps the rest in order |
| NotesPage.UpdateReplacesById | src/app/notes/page.tsx:63-69 | an update keeps the length, replaces exactly the notes with the id, and is idempotent |
| NotesPage.FoldersListed | src/app/notes/page.tsx:109 | the folders are "All", then each folder in use exactly once, in the order of first use: no notes give ["All"], and one more note appends its folder exactly when that folder is new |
| NotesPage.FoldersSnoc | src/app/notes/page.tsx:109 | one more note leaves the list as it is when its folder is listed, and otherwise appends that folder at the end |
| NotesPage.AllListedTwice | src/app/notes/page.tsx:109 | a note whose folder is "All" makes "All" appear a second time |
| NotesPage.FilterIff | src/app/notes/page.tsx:110-114 | a note is shown exactly when it is in the selected folder (or "All" is selected) and its title or content contains the query, ignoring case |
| NotesPage.FilterKeepsOrder | src/app/notes/page.tsx:110-114 | the shown notes keep their order |
| NotesPage.EmptyQueryShowsAll | src/app/notes/page.tsx:110-114 | an empty query with "All" selected shows every note |
| NotesPage.QueryCaseIgnored | src/app/notes/page.tsx:112-113 | the case of the query does not matter |
| AddNoteDialog.BuildNote | src/components/add-note-dialog.tsx:31-39 | the edited note's id and creation time when truthy, otherwise the fresh id and the submit time; always updated at the submit time |
| AddNoteDialog.MergedStorage | src/components/add-note-dialog.tsx:45-69 | no saved list gives the note alone; a saved list is replaced by id when editing and prepended otherwise; unreadable storage is left as it was |
| AddNoteDialog.NoteDialog.constructor | src/components/add-note-dialog.tsx:25-27 | the fields start from the edited note's values when truthy, otherwise empty and "General" |
| AddNoteDialog.NoteDialog.Submit | src/components/add-note-dialog.tsx:29-79 | the note is built from the form, the saved list is merged with it, and the form resets only when creating |
| AddNoteDialog.NewNoteFresh | src/components/add-note-dialog.tsx:31-39 | a new note gets the fresh id and is created and updated at the submit time |
| AddNoteDialog.EditKeepsIdentity | src/components/add-note-dialog.tsx:33-38 | an edit keeps the id and creation time and moves only the update time |
| AddNoteDialog.CreateThenEdit | src/components/add-note-dialog.tsx:31-39 | a note created and then edited keeps its id and creation time and takes the new fields |
| AddNoteDialog.AbsentGivesNoteAlone | src/components/add-note-dialog.tsx:61-64 | with nothing saved, the saved list becomes exactly the note, even when editing |
| AddNoteDialog.CreatePrepends | src/components/add-note-dialog.tsx:57-60 | a new note is put first in front of the saved ones |
| AddNoteDialog.EditKeepsLength | src/components/add-note-dialog.tsx:52-56 | an edit keeps the length and replaces exactly the notes with the id |
| AddNoteDialog.EditOfUnsavedIdChangesNothing | src/components/add-note-dialog.tsx:52-56 | editing a note whose id is not saved leaves the list as it was |
| AddNoteDialog.BadStorageUntouched | src/components/add-note-dialog.tsx:45-69 | unparsable or non-list storage is left as it was |
| NotesList.Expand | src/components/notes-list.tsx:19-21 | clicking the expanded note collapses it; clicking any other expands it |
| NotesList.HandleUpdate | src/components/notes-list.tsx:27-30 | the note is handed over to the page and the editor is closed |
| NotesList.DeleteFromStorage | src/components/notes-list.tsx:37-46 | a saved list loses the notes with the id; any other entry is left as it was |
| NotesList.ExpandToggles | src/components/notes-list.tsx:19-21 | clicking the expanded note collapses it, and clicking another expands that one |
| NotesList.ExpandTwice | src/components/notes-list.tsx:19-21 | clicking a collapsed note twice leaves no note expanded |
| NotesList.UpdateClosesEditor | src/components/notes-list.tsx:27-30 | an update hands over the note unchanged, closes the editor and keeps the expansion |
| NotesList.DeleteAgreesWithPage | src/components/notes-list.tsx:37-43 | the saved list loses exactly the notes with the id, as the page's list does |
| NotesList.DeleteIdempotent | src/components/notes-list.tsx:37-43 | deleting twice is deleting once |
| NotesList.DeleteLeavesOtherEntries | src/components/notes-list.tsx:38-46 | an absent, unparsable or non-list entry is left as it was |
| Patterns.EmailShaped | src/app/signup/page.tsx:31 | the email pattern: a non-empty local part, '@', a non-empty part, '.', a non-empty part, none holding white space or '@' |
| Patterns.StrongPassword | src/app/api/signup/route.ts:25 | the password pattern: at least 8 characters, no line terminator, and a lower-case letter, a capital and a digit somewhere |
| Patterns.EmailFieldError | src/app/signup/page.tsx:28-34 | "Email is required" when blank after trimming; otherwise "Please enter a valid email" when the untrimmed text fails the pattern |
| Patterns.EmailFromParts | src/app/signup/page.tsx:31 | any three non-empty parts without white space or '@' form an accepted address |
| Patterns.EmailShapedChars | src/app/signup/page.tsx:31 | an accepted address has no white space and exactly one '@' |
| Patterns.PaddedEmailRejected | src/app/signup/page.tsx:31 | the pattern is tested on untrimmed text, so padding makes an address fail |
| Patterns.EmailShapedNotBlank | src/app/signup/page.tsx:28-31 | an accepted address is never blank |
| Patterns.LineBreakNotStrong | src/app/api/signup/route.ts:25 | a password with a line break never matches the strong-password pattern |
| Patterns.EmailFieldMessages | src/app/signup/page.tsx:28-34 | "Email is required" exactly for blank text, "Please enter a valid email" exactly for other text the pattern rejects, and no message exactly for accepted addresses |
| Patterns.PaddedEmailInvalid | src/app/login/page.tsx:34-40 | an address with leading white space gets the "valid email" message |
| SignupPage.PasswordFieldError | src/app/signup/page.tsx:36-42 | "Password is required" when empty, the length message under 8 characters, and no message otherwise |
| SignupPage.ConfirmFieldError | src/app/signup/page.tsx:44-47 | the mismatch message exactly when the confirmation differs from the password |
| SignupPage.ValidateForm | src/app/signup/page.tsx:24-51 | each field gets exactly its first failing rule's message; the confirmation is checked on its own; the form is valid exactly when there is no message |
| SignupPage.PasswordFieldMessages | src/app/signup/page.tsx:36-42 | "required" exactly for the empty password, the length message exactly for 1 to 7 characters, no message from 8 |
| SignupPage.ValidExactly | src/app/signup/page.tsx:24-51 | the form is valid exactly for an accepted address, 8 or more password characters and a matching confirmation |
| LoginPage.PasswordFieldError | src/app/login/page.tsx:43-55 | the first failing rule's message: required, at least 8 characters, a capital, a digit |
| LoginPage.ValidateForm | src/app/login/page.tsx:29-59 | each field gets exactly its first failing rule's message, and the form is valid exactly when there is no message |
| LoginPage.PasswordAccepted | src/app/login/page.tsx:43-55 | a password passes exactly with 8 or more characters, a capital and a digit |
| LoginPage.PasswordRuleOrder | src/app/login/page.tsx:43-55 | a later rule's message is given only when every earlier rule holds |
| LoginPage.ShortReportedFirst | src/app/login/page.tsx:46-48 | a short password gets the length message even when it also lacks a capital or a digit |
| LoginPage.ValidExactly | src/app/login/page.tsx:29-59 | the form is valid exactly for an accepted address and a password that passes every rule |
| LoginPage.RedirectTarget | src/app/login/page.tsx:94 | the target after sign-in is never empty |
| LoginPage.DefaultTarget | src/app/login/page.tsx:94 | a missing or empty `redirect` parameter gives "/generate" |
| LoginPage.ReturnsToGuardedPage | src/app/login/page.tsx:94 | a guest sent from a guarded page to the login page returns to that page after sign-in, and the guard then lets the request through |
| SignupRoute.Post | src/app/api/signup/route.ts:6-77 | the guards in order with an early refusal each, then the duplicate lookup and the insert of the stored address |
| SignupRoute.StoredEmail | src/models/user.model.ts:5-11 | the schema's `trim` and `lowercase` applied to the address |
| SignupRoute.Status | src/app/api/signup/route.ts:10-77 | 201 exactly for a created account, 500 exactly for a server error |
| SignupRoute.CreatedExactly | src/app/api/signup/route.ts:6-70 | an account is created exactly for an accepted address, a strong password, a matching confirmation and an address whose stored form is not registered |
| SignupRoute.CreatedRegistersEmail | src/app/api/signup/route.ts:57-70 | a success registers exactly the address in its stored (trimmed, lower-cased) form, and answers the new id and that stored address |
| SignupRoute.AcceptedEmailLowercased | src/models/user.model.ts:9-10 | an address the pattern accepts has nothing to trim, so it is stored lower-cased, with its length kept |
| SignupRoute.CaseVariantRefused | src/app/api/signup/route.ts:49-55 | after one address signs up, an address that differs only in the case of its letters is refused as already registered |
| SignupRoute.RegisteredRefused | src/app/api/signup/route.ts:49-55 | a request that would be accepted is refused as a duplicate, registering nothing, once its stored address is taken |
| SignupRoute.RejectedChangesNothing | src/app/api/signup/route.ts:10-55 | a refusal registers nothing |
| SignupRoute.MissingFieldFirst | src/app/api/signup/route.ts:10-15 | an empty field is refused first, whatever else is wrong |
| SignupRoute.LengthCheckUnreachable | src/app/api/signup/route.ts:25-38 | the "at least 8 characters" refusal is never given |
| SignupRoute.MismatchAfterFormat | src/app/api/signup/route.ts:40-45 | a mismatch is reported exactly when the fields are present, the address and the password pass, and the two passwords differ |
| SignupRoute.SecondSignupRefused | src/app/api/signup/route.ts:49-55 | the same request sent again after a success is refused as already registered |
| SignupRoute.ClientErrorsAre400 | src/app/api/signup/route.ts:10-55 | every refusal other than the server error answers 400 |
| Middleware.Decide | src/middleware.ts:5-23 | with a token, a public page other than "/" redirects to /generate; without one, a non-public page redirects to /login with the page as `redirect`; everything else passes |
| Middleware.SignedInLeavesAuthPages | src/middleware.ts:11-14 | with a token, /login and /signup redirect to /generate |
| Middleware.RootAlwaysPasses | src/middleware.ts:9-22 | "/" always passes |
| Middleware.GuestSentToLogin | src/middleware.ts:16-20 | without a token, a non-public page redirects to /login, remembering the page |
| Middleware.RedirectsExactly | src/middleware.ts:11-22 | a request is redirected exactly in those two cases |
| Middleware.EmptyTokenIsNone | src/middleware.ts:7-16 | an empty token counts as no token |
| Middleware.NoRedirectLoop | src/middleware.ts:9-22 | requesting a redirect's target with the same cookie always passes |
| AuthProvider.Accepts | src/components/auth-provider.tsx:30-47 | a readable saved list lets the login in exactly when its first user with the address has the password; any other storage refuses |
| AuthProvider.Find | src/components/auth-provider.tsx:34 | the lookup finds nothing exactly when no user has the address, and otherwise finds the first such user |
| AuthProvider.AuthState.constructor | src/components/auth-provider.tsx:20-24 | on mount, the user is signed in exactly when the cookie is there |
| AuthProvider.AuthState.Login | src/components/auth-provider.tsx:30-48 | the login succeeds exactly when the check accepts; success records the address in the cookie and signs in; failure changes nothing |
| AuthProvider.AuthState.Logout | src/components/auth-provider.tsx:50-53 | the cookie is removed and the user is signed out |
| AuthProvider.AcceptsExactly | src/components/auth-provider.tsx:33-37 | a login is accepted exactly when the first saved user with the address has the given password |
| AuthProvider.FirstMatchUnique | src/components/auth-provider.tsx:34 | there is only one first user with an address |
| AuthProvider.ShadowedUserIgnored | src/components/auth-provider.tsx:34-37 | a later user with the same address is never consulted |
| AuthProvider.UnreadableStorageRefuses | src/components/auth-provider.tsx:33-47 | storage that is not a readable list never lets anyone in |
| TimeTableCreator.TimeTable.constructor | src/components/time-table-creator.tsx:180-185 | the initial grid is 5 days of 8 empty slots, each tiled, with a blank course of span 1 |
| TimeTableCreator.TimeTable.CellClick | src/components/time-table-creator.tsx:187-193 | clicking an occupied cell changes nothing; clicking a free one selects it, blanks the course and opens the dialog |
| TimeTableCreator.TimeTable.SetName | src/components/time-table-creator.tsx:321 | the name input changes only the course's name |
| TimeTableCreator.TimeTable.SetLocation | src/components/time-table-creator.tsx:330 | the location input changes only the course's location |
| TimeTableCreator.TimeTable.SetSpanInput | src/components/time-table-creator.tsx:341 | the span input stores the clamped value |
| TimeTableCreator.TimeTable.AddCourse | src/components/time-table-creator.tsx:214-246 | the outcome is the checks in order (name, overflow, occupied); only a successful add writes the course over its span with the start first, and every other slot and day is unchanged; the tiling is kept |
| TimeTableCreator.TimeTable.DeleteCourse | src/components/time-table-creator.tsx:195-212 | a slot without a course changes nothing; a start slot clears exactly its course's span; the tiling is kept |
| TimeTableCreator.AddResult | src/components/time-table-creator.tsx:214-246 | the checks in order: an empty name, then too few periods left, then an occupied slot, else the add |
| TimeTableCreator.Place | src/components/time-table-creator.tsx:235-240 | the course is written over its span from the period, the first slot as its start, and the other slots are kept |
| TimeTableCreator.Clear | src/components/time-table-creator.tsx:203-208 | the slots of the span are emptied and the others kept |
| TimeTableCreator.ParseInt | src/components/time-table-creator.tsx:341 | `parseInt` in base 10: leading white space, an optional sign and the leading digits; no digit is NaN |
| TimeTableCreator.RenderRow | src/components/time-table-creator.tsx:267-274 | one cell per slot that is not covered, as wide as its course's span or 1 |
| TimeTableCreator.LeadingDigits | src/components/time-table-creator.tsx:341 | the longest run of digits at the start of the input |
| TimeTableCreator.ClampSpan | src/components/time-table-creator.tsx:341 | the span is always between 1 and 8 |
| TimeTableCreator.FreeRun | src/components/time-table-creator.tsx:227-232 | in a tiled row, a run of slots without a course is empty and can be stepped over |
| TimeTableCreator.FreeSlotIsEmpty | src/components/time-table-creator.tsx:180-208 | in a tiled row, a slot without a course is not a start either |
| TimeTableCreator.PlaceKeepsTiling | src/components/time-table-creator.tsx:235-240 | writing a course over free slots keeps the row tiled |
| TimeTableCreator.ClearKeepsTiling | src/components/time-table-creator.tsx:203-208 | a start slot's course covers its whole span within the row, and clearing it keeps the row tiled |
| TimeTableCreator.AddThenDeleteRestores | src/components/time-table-creator.tsx:203-240 | adding a course and deleting it at its start gives the row back |
| TimeTableCreator.OccupiedMeansTaken | src/components/time-table-creator.tsx:227-232 | an add is refused as occupied only when a slot it needs holds a course |
| TimeTableCreator.RenderWidthFrom | src/components/time-table-creator.tsx:267-274 | the cells drawn for a tiled stretch are exactly as wide as the stretch |
| TimeTableCreator.RowWidth | src/components/time-table-creator.tsx:267-274 | a tiled day draws cells whose widths add up to the 8 periods |
| TimeTableCreator.CoversSkip | src/components/time-table-creator.tsx:268 | covered slots draw nothing |
| TimeTableCreator.ParseIntOfNat | src/components/time-table-creator.tsx:341 | a number written in decimal is read back as itself |
| TimeTableCreator.SpanTakenAsTyped | src/components/time-table-creator.tsx:341 | a span from 1 to 8 is taken as typed |
| TimeTableCreator.LargeSpanClamped | src/components/time-table-creator.tsx:341 | a larger span becomes 8 |
| TimeTableCreator.NonNumericSpanIsOne | src/components/time-table-creator.tsx:341 | input with no number gives 1 |
| TimeTableCreator.EmptySpanIsOne | src/components/time-table-creator.tsx:341 | the empty box gives 1 |

## Left out

- The language-model calls in both API routes are left out. They are external and non-deterministic, so they are a parameter returning optional text.
- `JSON.parse`, `JSON.stringify` and the zod runtime are left out. JSON is an abstract `Value`. Parsing is a parameter, or a `Stored` value for browser storage. The schema is a function on values.
- JSON numbers are integers. Floating point, NaN and `Infinity` are not modelled. The accuracy rate is an exact fraction rather than a float.
- Strings are sequences of code points. UTF-16 lengths, surrogates and non-ASCII case mapping are not modelled.
- The request bodies' fields are taken to have the declared types: strings, and an integer count. A non-string field sent to an API route is not modelled.
- The coercion's "short-answer" default for a missing type is dead code, because the field check already demands a truthy type. It is modelled all the same (`ChatRoute.Format`), and `ChatRoute.GeneratedBatch` shows it never applies.
- QuestionList.Quiz.CheckAnswers: the `Promise.all` runs the grading calls concurrently. The model grades every question with the same endpoint function, and uses one attempt time for all records.
- QuestionList.Quiz.CheckAnswers: the storage event sent to other tabs is left out.
- QuestionList.Quiz.CheckAnswers: a log that parses to a string is spread into its characters, which are saved before the new records. The model treats it like any other non-array: the spread is taken to throw and the log is left as it was.
- QuestionList.Quiz.CheckAnswers: after the throw on an unreadable log, the results are shown and `isChecking` stays set. The alert and the unhandled rejection are not modelled.
- A network failure of the grading `fetch`, which the client grades false, is not a separate case. The endpoint's plain-text error reply, which is also graded false, is modelled.
- The stored progress record has no `id`. The quiz writes records without one, although the `Progress` interface declares it.
- ExportQuestions.Export: the answer line is written only when `correctAnswer` is defined. In the model every question has an answer, so that branch is not modelled.
- ExportQuestions.Export assumes fewer than 55 199 options per question (`OptionsFit`), so that option labels stay below the surrogate code units.
- ExportQuestions.AnswerText: an answer used as an array key is read as a canonical decimal index. Other property names, such as "length", are not modelled.
- The PDF and DOM mechanics are left out: element styling, `html2pdf`, and the timetable's image and PDF export.
- ProgressStats: the seven dates come from a parameter `daysAgo`. The date arithmetic and time zones behind them are not modelled.
- ProgressStats: the storage listener that recomputes on change is not modelled.
- ProgressStats.Calculate: when the computation throws, the statistics already shown stay. The model returns no statistics and leaves keeping the old ones to the caller.
- Browser storage writes are not separate steps. The pages' lists and the saved entries are values that each operation returns.
- NotesPage.LoadNotes: a parsed non-array would be stored as the page's list and break later calls, so it is modelled as no list.
- AddNoteDialog.MergedStorage: spreading a saved string, which iterates its characters, is not modelled. Such storage is left unchanged, as it is for a non-list object.
- TimeTableCreator.ClampSpan: `parseInt` is read in base 10 with optional sign and leading white space. The hexadecimal prefix `0x` is not modelled.
- TimeTableCreator: restoring a timetable saved in storage is not modelled; the timetable starts from the empty grid.
- TimeTableCreator.TimeTable.DeleteCourse requires the clicked slot to be a course's start. The delete button is drawn only on start cells, because covered cells are not rendered.
- SignupRoute.Post: the user database is a set of registered addresses. Password hashing, connection failures and the new user's id generation are left out. The id is a parameter.
- SignupRoute.StoredEmail: the schema's `lowercase` is JavaScript's full `toLowerCase`; the model lower-cases ASCII letters only. The same setters are taken to apply to the `findOne` filter.
- The login route and the logout route are not part of this model. Of the user model, only the address's `trim` and `lowercase` are modelled (`SignupRoute.StoredEmail`).
- The middleware's `matcher` configuration is not modelled.
- The two auth cookies differ: `AuthProvider` writes `currentUser`, while `Middleware` reads `auth-token`. The two are modelled separately, as the code has them.
- AuthProvider.AuthState.Login: the cookie holds a JSON object with the address. It is modelled by the address alone.
- The fetch calls and navigation in the login and signup pages are left out: submission, error display and the redirect itself.
- The cleanup does not strip prose in front of the `[`: its `^\s*\[` replacement only removes white space, although the prompt at src/app/api/chat/route.ts:30 asks for nothing but the array. The model follows the code (`ChatRoute.CleanupKeepsProse`).
- Nothing rejects a generated multiple-choice question with an empty options array: the coercion puts `[]` in for missing options, and the schema accepts it. The model follows the code (`ChatRoute.FormatChecked`, `Types.LooseRecordAccepted`).
