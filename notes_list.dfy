/**
  The notes list: expanding one note at a time, closing the editor after an
  update, and deleting a note from the saved list as well as from the page.
*/
module NotesList {
  import opened Wrappers
  import opened Json
  import opened Types
  import opened Lists
  import NotesPage

  /** Clicking a note expands it, or collapses it when it is the expanded one. */
  function Expand(expanded: Option<string>, id: string): Option<string> {
    if expanded == Some(id) then None else Some(id)
  }

  /** The list's own state: the expanded note's id and the note being edited. */
  datatype ListState = ListState(expanded: Option<string>, editing: Option<Note>)

  /** An update is handed to the page and closes the editor; it returns the handed-over note. */
  function HandleUpdate(s: ListState, updated: Note): (ListState, Note) {
    (s.(editing := None), updated)
  }

  /**
    The saved list after a delete: the notes without the id when the entry
    holds a list; nothing is written when it is empty or absent, and a parse
    error or a non-array is caught, leaving it as it was.
  */
  function DeleteFromStorage(stored: Stored<Note>, id: string): Stored<Note> {
    if stored.Items? then Items(NotesPage.DeleteNote(stored.items, id)) else stored
  }

  // ---- properties ----

  /** At most one note is expanded: clicking it again collapses it, clicking another switches. */
  lemma ExpandToggles(expanded: Option<string>, id: string)
    ensures Expand(expanded, id) == Some(id) <==> expanded != Some(id)
    ensures Expand(expanded, id).None? <==> expanded == Some(id)
    ensures Expand(Expand(None, id), id) == None
  {
  }

  /** Clicking a collapsed note twice leaves no note expanded, whichever was expanded before. */
  lemma ExpandTwice(expanded: Option<string>, id: string)
    requires expanded != Some(id)
    ensures Expand(Expand(expanded, id), id) == None
  {
  }

  /** An update closes the editor, keeps the expanded note and hands the note over unchanged. */
  lemma UpdateClosesEditor(s: ListState, updated: Note)
    ensures HandleUpdate(s, updated).0 == ListState(s.expanded, None)
    ensures HandleUpdate(s, updated).1 == updated
  {
  }

  /** The saved list and the page list lose exactly the same notes. */
  lemma DeleteAgreesWithPage(items: seq<Note>, id: string)
    ensures DeleteFromStorage(Items(items), id) == Items(NotesPage.DeleteNote(items, id))
    ensures forall n :: n in DeleteFromStorage(Items(items), id).items <==> n in items && n.id != id
  {
  }

  /** Deleting twice is deleting once. */
  lemma {:induction false} DeleteIdempotent(stored: Stored<Note>, id: string)
    ensures DeleteFromStorage(DeleteFromStorage(stored, id), id) == DeleteFromStorage(stored, id)
  {
    if stored.Items? {
      var once := NotesPage.DeleteNote(stored.items, id);
      assert forall i :: 0 <= i < |once| ==> once[i].id != id by {
        forall i | 0 <= i < |once|
          ensures once[i].id != id
        {
          assert once[i] in once;
        }
      }
      FilterKeepsAll(once, (n: Note) => n.id != id);
    }
  }

  /** Anything but a saved list is left as it was. */
  lemma DeleteLeavesOtherEntries(stored: Stored<Note>, id: string)
    requires !stored.Items?
    ensures DeleteFromStorage(stored, id) == stored
  {
  }
}
