/**
  The add/edit note dialog: the form fields, the note built on submit, and
  the direct write of the note into the saved note list.
*/
module AddNoteDialog {
  import opened Wrappers
  import opened Json
  import opened Types
  import NotesPage

  const DefaultFolder := "General"

  /** `x || fallback` on strings: the empty string is falsy. */
  function OrElse(s: string, fallback: string): string {
    if s != "" then s else fallback
  }

  /**
    The note a submit builds: the edited note's id and creation time when they
    are truthy, otherwise a fresh id and `now`; it is always updated `now`.
  */
  function BuildNote(initial: Option<Note>, title: string, content: string, folder: string,
                     freshId: string, now: string): Note
  {
    Note(
      OrElse(if initial.Some? then initial.value.id else "", freshId),
      title, content, folder,
      OrElse(if initial.Some? then initial.value.createdAt else "", now),
      now)
  }

  /**
    The saved list after the direct write. No saved list (or an empty entry)
    gives the note alone, even when editing; an edit replaces by id; a new note
    goes first. When the text does not parse, or the parsed value is not an
    array, the write throws, the error is caught and nothing is written.
  */
  function MergedStorage(stored: Stored<Note>, editing: bool, note: Note): Stored<Note> {
    match stored
    case Absent => Items([note])
    case Items(items) => Items(if editing then NotesPage.UpdateNote(items, note) else NotesPage.AddNote(items, note))
    case _ => stored
  }

  /** The dialog's form state and the saved note list it writes to. */
  class NoteDialog {
    const initial: Option<Note>
    var title: string
    var content: string
    var folder: string
    var storage: Stored<Note>

    /** The fields start from the edited note's values when truthy. */
    constructor(initial: Option<Note>, storage: Stored<Note>)
      ensures this.initial == initial && this.storage == storage
      ensures title == OrElse(if initial.Some? then initial.value.title else "", "")
      ensures content == OrElse(if initial.Some? then initial.value.content else "", "")
      ensures folder == OrElse(if initial.Some? then initial.value.folder else "", DefaultFolder)
    {
      this.initial := initial;
      this.storage := storage;
      title := if initial.Some? then initial.value.title else "";
      content := if initial.Some? then initial.value.content else "";
      folder := OrElse(if initial.Some? then initial.value.folder else "", DefaultFolder);
    }

    /**
      Submits the form: builds the note (handed to the parent), writes it into
      the saved list, and clears the form when it was a new note.
    */
    method Submit(freshId: string, now: string) returns (note: Note)
      modifies this
      ensures note == BuildNote(initial, old(title), old(content), old(folder), freshId, now)
      ensures storage == MergedStorage(old(storage), initial.Some?, note)
      ensures initial.None? ==> title == "" && content == "" && folder == DefaultFolder
      ensures initial.Some? ==> title == old(title) && content == old(content) && folder == old(folder)
    {
      var id := if initial.Some? && initial.value.id != "" then initial.value.id else freshId;
      var createdAt := if initial.Some? && initial.value.createdAt != "" then initial.value.createdAt else now;
      note := Note(id, title, content, folder, createdAt, now);
      match storage {
        case Absent =>
          storage := Items([note]);
        case Items(items) =>
          if initial.Some? {
            storage := Items(NotesPage.UpdateNote(items, note));
          } else {
            storage := Items([note] + items);
          }
        case Unparsable =>
        case NotAnArray =>
      }
      if initial.None? {
        title := "";
        content := "";
        folder := DefaultFolder;
      }
    }
  }

  // ---- properties ----

  /** A new note gets the fresh id and is created and updated at `now`. */
  lemma NewNoteFresh(title: string, content: string, folder: string, freshId: string, now: string)
    ensures var n := BuildNote(None, title, content, folder, freshId, now);
      && n.id == freshId && n.createdAt == now && n.updatedAt == now
      && n.title == title && n.content == content && n.folder == folder
  {
  }

  /** Editing keeps the note's id and creation time (when set) and only moves its update time. */
  lemma EditKeepsIdentity(previous: Note, title: string, content: string, folder: string, freshId: string, now: string)
    requires previous.id != "" && previous.createdAt != ""
    ensures var n := BuildNote(Some(previous), title, content, folder, freshId, now);
      && n.id == previous.id && n.createdAt == previous.createdAt && n.updatedAt == now
  {
  }

  /** A note created with a non-empty id and time, then edited, keeps both. */
  lemma CreateThenEdit(t1: string, c1: string, f1: string, id1: string, now1: string,
                       t2: string, c2: string, f2: string, id2: string, now2: string)
    requires id1 != "" && now1 != ""
    ensures var created := BuildNote(None, t1, c1, f1, id1, now1);
      var edited := BuildNote(Some(created), t2, c2, f2, id2, now2);
      && edited.id == id1 && edited.createdAt == now1 && edited.updatedAt == now2
      && edited.title == t2 && edited.content == c2 && edited.folder == f2
  {
  }

  /** With nothing saved, the saved list becomes exactly the note, whether adding or editing. */
  lemma AbsentGivesNoteAlone(editing: bool, note: Note)
    ensures MergedStorage(Absent, editing, note) == Items([note])
  {
  }

  /** Adding puts the note first and keeps the saved notes after it. */
  lemma CreatePrepends(items: seq<Note>, note: Note)
    ensures var r := MergedStorage(Items(items), false, note);
      && r.Items? && |r.items| == |items| + 1 && r.items[0] == note && r.items[1..] == items
  {
  }

  /** Editing keeps the length and replaces exactly the notes with the edited id. */
  lemma EditKeepsLength(items: seq<Note>, note: Note)
    ensures var r := MergedStorage(Items(items), true, note);
      && r.Items? && |r.items| == |items|
      && forall i :: 0 <= i < |items| ==> r.items[i] == (if items[i].id == note.id then note else items[i])
  {
    NotesPage.UpdateReplacesById(items, note);
  }

  /** Editing a note whose id is not saved leaves the saved list as it was. */
  lemma EditOfUnsavedIdChangesNothing(items: seq<Note>, note: Note)
    requires forall i :: 0 <= i < |items| ==> items[i].id != note.id
    ensures MergedStorage(Items(items), true, note) == Items(items)
  {
    NotesPage.UpdateReplacesById(items, note);
  }

  /** Text that does not parse, or a value that is not a list, is left as it was. */
  lemma BadStorageUntouched(stored: Stored<Note>, editing: bool, note: Note)
    requires stored.Unparsable? || stored.NotAnArray?
    ensures MergedStorage(stored, editing, note) == stored
  {
  }
}
