/**
  The notes page: the note list operations (prepend, delete by id, replace by
  id), the folder list and the search filter.
*/
module NotesPage {
  import opened Wrappers
  import opened Text
  import opened Json
  import opened Types
  import opened Lists

  const AllFolders := "All"

  /**
    Loading: an absent or unparsable entry leaves the list empty; a parsed
    non-array would be taken as the list, which is not a list (None).
  */
  function LoadNotes(stored: Stored<Note>): (r: Option<seq<Note>>)
    ensures r.None? <==> stored.NotAnArray?
    ensures stored.Items? ==> r == Some(stored.items)
    ensures stored.Absent? || stored.Unparsable? ==> r == Some([])
  {
    match stored
    case Items(items) => Some(items)
    case NotAnArray => None
    case _ => Some([])
  }

  /** A new note goes first. */
  function AddNote(notes: seq<Note>, note: Note): seq<Note> {
    [note] + notes
  }

  function DeleteNote(notes: seq<Note>, id: string): seq<Note> {
    Filter(notes, (n: Note) => n.id != id)
  }

  /** Every note with the updated note's id is replaced by it. */
  function UpdateNote(notes: seq<Note>, updated: Note): seq<Note> {
    seq(|notes|, i requires 0 <= i < |notes| => if notes[i].id == updated.id then updated else notes[i])
  }

  /** The folder list: "All", then each folder of the notes once, by first occurrence. */
  function Folders(notes: seq<Note>): seq<string> {
    [AllFolders] + Dedup(seq(|notes|, i requires 0 <= i < |notes| => notes[i].folder))
  }

  /** The search test: title or content contains the query, ignoring ASCII case. */
  predicate MatchesQuery(n: Note, query: string) {
    Contains(ToLower(n.title), ToLower(query)) || Contains(ToLower(n.content), ToLower(query))
  }

  /** The notes shown: in the selected folder (or any, for "All") and matching the query. */
  function FilterNotes(notes: seq<Note>, query: string, selectedFolder: string): seq<Note> {
    Filter(notes, (n: Note) => (selectedFolder == AllFolders || n.folder == selectedFolder) && MatchesQuery(n, query))
  }

  // ---- properties ----

  /** The newest note is first and the others follow unchanged. */
  lemma AddPrepends(notes: seq<Note>, note: Note)
    ensures AddNote(notes, note)[0] == note && AddNote(notes, note)[1..] == notes
  {
  }

  /** Deleting removes every note with the id and keeps the others, in order. */
  lemma DeleteRemovesId(a: seq<Note>, b: seq<Note>, id: string)
    ensures forall n :: n in DeleteNote(a, id) <==> n in a && n.id != id
    ensures DeleteNote(a + b, id) == DeleteNote(a, id) + DeleteNote(b, id)
  {
    FilterAppend(a, b, (n: Note) => n.id != id);
  }

  /** An update keeps the length, puts the note where its id was, and leaves every other note. */
  lemma UpdateReplacesById(notes: seq<Note>, updated: Note)
    ensures |UpdateNote(notes, updated)| == |notes|
    ensures forall i :: 0 <= i < |notes| && notes[i].id != updated.id ==> UpdateNote(notes, updated)[i] == notes[i]
    ensures forall i :: 0 <= i < |notes| && notes[i].id == updated.id ==> UpdateNote(notes, updated)[i] == updated
    ensures UpdateNote(UpdateNote(notes, updated), updated) == UpdateNote(notes, updated)
  {
  }

  /**
    The folder list starts with "All" and lists each folder in use exactly
    once, in the order of first use: a later note adds its folder at the end
    only when no earlier note has it.
  */
  lemma FoldersListed(notes: seq<Note>, n: Note)
    ensures Folders([]) == ["All"]
    ensures Folders(notes + [n]) ==
      if n.folder in Folders(notes)[1..] then Folders(notes) else Folders(notes) + [n.folder]
    ensures Folders(notes)[0] == "All"
    ensures forall f :: f in Folders(notes)[1..] <==> exists i :: 0 <= i < |notes| && notes[i].folder == f
    ensures forall i, j :: 1 <= i < j < |Folders(notes)| ==> Folders(notes)[i] != Folders(notes)[j]
  {
    FoldersSnoc(notes, n);
    var fs := seq(|notes|, i requires 0 <= i < |notes| => notes[i].folder);
    assert Folders(notes)[1..] == Dedup(fs);
    forall f
      ensures f in Dedup(fs) <==> exists i :: 0 <= i < |notes| && notes[i].folder == f
    {
      if f in fs {
        var i :| 0 <= i < |fs| && fs[i] == f;
        assert notes[i].folder == f;
      }
      if exists i :: 0 <= i < |notes| && notes[i].folder == f {
        var i :| 0 <= i < |notes| && notes[i].folder == f;
        assert fs[i] == f;
      }
    }
  }

  /** A note appends its folder to the list only when the folder is new. */
  lemma FoldersSnoc(notes: seq<Note>, n: Note)
    ensures Folders(notes + [n]) ==
      if n.folder in Folders(notes)[1..] then Folders(notes) else Folders(notes) + [n.folder]
  {
    var fs := seq(|notes|, i requires 0 <= i < |notes| => notes[i].folder);
    var ns := notes + [n];
    assert seq(|ns|, i requires 0 <= i < |ns| => ns[i].folder) == fs + [n.folder];
    assert Folders(notes)[1..] == Dedup(fs);
    DedupSnoc(fs, n.folder);
  }

  /** "All" is listed twice when a note's own folder is called "All". */
  lemma AllListedTwice(notes: seq<Note>, k: nat)
    requires k < |notes| && notes[k].folder == "All"
    ensures exists i :: 1 <= i < |Folders(notes)| && Folders(notes)[i] == "All"
  {
    var fs := seq(|notes|, i requires 0 <= i < |notes| => notes[i].folder);
    assert fs[k] == "All";
    assert "All" in Dedup(fs);
    var i :| 0 <= i < |Dedup(fs)| && Dedup(fs)[i] == "All";
    assert Folders(notes)[i + 1] == "All";
  }

  /** A note is shown exactly when it is in the selected folder (or "All") and matches the query. */
  lemma FilterIff(notes: seq<Note>, query: string, selectedFolder: string)
    ensures forall n :: n in FilterNotes(notes, query, selectedFolder) <==>
      n in notes && (selectedFolder == "All" || n.folder == selectedFolder) && MatchesQuery(n, query)
  {
  }

  /** The shown notes keep their order: filtering works piece by piece. */
  lemma FilterKeepsOrder(a: seq<Note>, b: seq<Note>, query: string, selectedFolder: string)
    ensures FilterNotes(a + b, query, selectedFolder)
         == FilterNotes(a, query, selectedFolder) + FilterNotes(b, query, selectedFolder)
  {
    FilterAppend(a, b, (n: Note) => (selectedFolder == AllFolders || n.folder == selectedFolder) && MatchesQuery(n, query));
  }

  /** With an empty query and "All" selected, every note is shown. */
  lemma EmptyQueryShowsAll(notes: seq<Note>)
    ensures FilterNotes(notes, "", "All") == notes
  {
    forall i | 0 <= i < |notes|
      ensures MatchesQuery(notes[i], "")
    {
      ContainsEmpty(ToLower(notes[i].title));
    }
    FilterKeepsAll(notes, (n: Note) => (AllFolders == AllFolders || n.folder == AllFolders) && MatchesQuery(n, ""));
  }

  /** Search ignores the case of the query. */
  lemma QueryCaseIgnored(n: Note, query: string)
    ensures MatchesQuery(n, ToLower(query)) == MatchesQuery(n, query)
  {
    ToLowerIdempotent(query);
  }
}
