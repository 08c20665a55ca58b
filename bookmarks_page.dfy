/**
  The bookmarks page: loading the saved list, adding a bookmark (trimmed
  title, URL given a scheme when it lacks one) at the end, deleting by id.
*/
module BookmarksPage {
  import opened Text
  import opened Json
  import opened Lists

  datatype Bookmark = Bookmark(id: int, title: string, url: string, category: string)

  /** The add form: title, URL and category inputs. */
  datatype Form = Form(title: string, url: string, category: string)

  datatype Page = Page(bookmarks: seq<Bookmark>, form: Form)

  const DefaultCategory := "general"

  /** The list after loading, and whether the stored key is removed. */
  datatype Loaded = Loaded(bookmarks: seq<Bookmark>, removeKey: bool)

  /** Loading accepts only an array; text that does not parse is removed from storage. */
  function Load(stored: Stored<Bookmark>): (r: Loaded)
    ensures r.removeKey <==> stored.Unparsable?
    ensures r.bookmarks == (if stored.Items? then stored.items else [])
  {
    match stored
    case Items(items) => Loaded(items, false)
    case Unparsable => Loaded([], true)
    case _ => Loaded([], false)
  }

  /** The trimmed URL, with "https://" put in front unless it already starts with "http". */
  function NormalizeUrl(url: string): string {
    var t := Trim(url);
    if StartsWith(t, "http") then t else "https://" + t
  }

  /** Submitting the form; `now` is the new bookmark's id (the current time in milliseconds). */
  function AddBookmark(p: Page, now: int): Page {
    if Trim(p.form.title) != "" && Trim(p.form.url) != "" then
      var b := Bookmark(now, Trim(p.form.title), NormalizeUrl(p.form.url), p.form.category);
      Page(p.bookmarks + [b], Form("", "", DefaultCategory))
    else p
  }

  function DeleteBookmark(bookmarks: seq<Bookmark>, id: int): seq<Bookmark> {
    Filter(bookmarks, (b: Bookmark) => b.id != id)
  }

  // ---- properties ----

  /** A normalised URL starts with "http" and has no white space at either end. */
  lemma NormalizedShape(url: string)
    ensures StartsWith(NormalizeUrl(url), "http")
    ensures Trim(NormalizeUrl(url)) == NormalizeUrl(url)
  {
    var t := Trim(url);
    TrimShape(url);
    if !StartsWith(t, "http") {
      var r := "https://" + t;
      assert r[..4] == "http";
      assert !IsSpace(r[0]);
      assert !IsSpace(r[|r| - 1]) by {
        if t == [] { assert r[|r| - 1] == '/'; } else { assert r[|r| - 1] == t[|t| - 1]; }
      }
      TrimOfTrimmed(r);
    } else {
      TrimIdempotent(url);
    }
  }

  /** Normalising twice is normalising once. */
  lemma NormalizeIdempotent(url: string)
    ensures NormalizeUrl(NormalizeUrl(url)) == NormalizeUrl(url)
  {
    NormalizedShape(url);
  }

  /** A URL that already starts with "http" (after trimming) is only trimmed. */
  lemma SchemeKept(url: string)
    requires StartsWith(Trim(url), "http")
    ensures NormalizeUrl(url) == Trim(url)
  {
  }

  /** Without both a title and a URL, nothing changes. */
  lemma IncompleteFormIgnored(p: Page, now: int)
    requires AllSpace(p.form.title) || AllSpace(p.form.url)
    ensures AddBookmark(p, now) == p
  {
    if AllSpace(p.form.title) {
      TrimStartAllSpace(p.form.title);
    } else {
      TrimStartAllSpace(p.form.url);
    }
  }

  /** A successful add appends the bookmark and resets the form to empty fields and "general". */
  lemma AddAppends(p: Page, now: int)
    requires Trim(p.form.title) != "" && Trim(p.form.url) != ""
    ensures var r := AddBookmark(p, now);
      && r.bookmarks == p.bookmarks + [Bookmark(now, Trim(p.form.title), NormalizeUrl(p.form.url), p.form.category)]
      && r.form == Form("", "", "general")
  {
  }

  /** Deleting removes exactly the matching id and keeps the others in order. */
  lemma DeleteRemovesId(a: seq<Bookmark>, b: seq<Bookmark>, id: int)
    ensures forall x :: x in DeleteBookmark(a, id) <==> x in a && x.id != id
    ensures DeleteBookmark(a + b, id) == DeleteBookmark(a, id) + DeleteBookmark(b, id)
  {
    FilterAppend(a, b, (x: Bookmark) => x.id != id);
  }
}
