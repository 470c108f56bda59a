/**
 * The reading list: the persisted book entries and the operations that
 * delete, update and append them.
 */
module Manager {
  import opened Types

  /** A file picked in the open dialog: the base name of its path and its file-system path. */
  datatype PickedFile = PickedFile(base: string, fsPath: string)

  /** The stored list, or the empty list when nothing is stored yet. */
  function LoadBooks(stored: Option<seq<BookData>>): (books: seq<BookData>)
    ensures stored.None? ==> books == []
    ensures stored.Some? ==> books == stored.value
  {
    stored.GetOr([])
  }

  /** Index of the first entry with the given id, as a search from the front finds it. */
  function FirstIndexOf(books: seq<BookData>, id: string): (r: Option<nat>)
    ensures r.Some? ==>
      r.value < |books| && books[r.value].id == id && (forall j :: 0 <= j < r.value ==> books[j].id != id)
    ensures r.None? ==> forall j :: 0 <= j < |books| ==> books[j].id != id
  {
    if |books| == 0 then None
    else if books[0].id == id then Some(0)
    else
      match FirstIndexOf(books[1..], id)
      case Some(i) => Some(i + 1)
      case None => None
  }

  /** The entries whose id differs from `id`, in their original order. */
  function WithoutId(books: seq<BookData>, id: string): (r: seq<BookData>)
    ensures |r| <= |books|
    ensures forall b :: b in r <==> b in books && b.id != id
  {
    if |books| == 0 then []
    else if books[0].id == id then WithoutId(books[1..], id)
    else [books[0]] + WithoutId(books[1..], id)
  }

  /** Filtering distributes over concatenation, so the kept entries stay in order. */
  lemma {:induction false} WithoutIdConcat(a: seq<BookData>, b: seq<BookData>, id: string)
    ensures WithoutId(a + b, id) == WithoutId(a, id) + WithoutId(b, id)
    decreases |a|
  {
    if |a| == 0 {
      assert a + b == b;
    } else {
      assert (a + b)[1..] == a[1..] + b;
      WithoutIdConcat(a[1..], b, id);
    }
  }

  /** Filtering out an id that is not present changes nothing. */
  lemma {:induction false} WithoutIdAbsent(books: seq<BookData>, id: string)
    requires FirstIndexOf(books, id).None?
    ensures WithoutId(books, id) == books
    decreases |books|
  {
    if |books| > 0 {
      assert FirstIndexOf(books[1..], id).None?;
      WithoutIdAbsent(books[1..], id);
    }
  }

  /** Filtering twice is filtering once. */
  lemma {:induction false} WithoutIdIdempotent(books: seq<BookData>, id: string)
    ensures WithoutId(WithoutId(books, id), id) == WithoutId(books, id)
  {
    WithoutIdAbsent(WithoutId(books, id), id);
  }

  /**
   * The list after recording progress for `id`: the first entry with that id
   * gets the line index and the offset (0 when absent); nothing else changes.
   */
  function WithProgress(books: seq<BookData>, id: string, process: int, offset: Option<nat>): (r: seq<BookData>)
    ensures |r| == |books|
    ensures FirstIndexOf(books, id).None? ==> r == books
  {
    match FirstIndexOf(books, id)
    case None => books
    case Some(i) => books[i := books[i].(process := process, offset := Some(offset.GetOr(0)))]
  }

  /**
   * Recording progress keeps the list's length and ids, changes only the
   * first entry with the id, and reading that entry back gives the progress
   * just written.
   */
  lemma ProgressReadBack(books: seq<BookData>, id: string, process: int, offset: Option<nat>)
    ensures var r := WithProgress(books, id, process, offset);
      && |r| == |books|
      && (forall j :: 0 <= j < |books| ==> r[j].id == books[j].id && r[j].name == books[j].name && r[j].url == books[j].url)
      && FirstIndexOf(r, id) == FirstIndexOf(books, id)
      && (FirstIndexOf(books, id).None? ==> r == books)
      && (FirstIndexOf(books, id).Some? ==>
            var i := FirstIndexOf(books, id).value;
            r[i].process == process && r[i].offset == Some(offset.GetOr(0)) &&
            forall j :: 0 <= j < |books| && j != i ==> r[j] == books[j])
  {
    var r := WithProgress(books, id, process, offset);
    match FirstIndexOf(books, id)
    case None =>
    case Some(i) =>
      FirstIndexOfSameIds(books, r, id);
  }

  /** The first index of an id depends only on the ids of the entries. */
  lemma {:induction false} FirstIndexOfSameIds(a: seq<BookData>, b: seq<BookData>, id: string)
    requires |a| == |b| && forall j :: 0 <= j < |a| ==> a[j].id == b[j].id
    ensures FirstIndexOf(a, id) == FirstIndexOf(b, id)
    decreases |a|
  {
    if |a| > 0 && a[0].id != id {
      FirstIndexOfSameIds(a[1..], b[1..], id);
    }
  }

  /** The entry appended for a newly imported file: its base name, a fresh id, line 0, no offset. */
  function NewEntry(file: PickedFile, newId: string): (b: BookData)
    ensures b.id == newId && b.name == file.base && b.url == file.fsPath
    ensures b.process == 0 && b.offset.GetOr(0) == 0
  {
    BookData(newId, file.base, 0, None, file.fsPath)
  }

  class BookManager {
    var books: seq<BookData>

    /** Starts from the stored list, or from an empty one when nothing is stored. */
    constructor(stored: Option<seq<BookData>>)
      ensures books == LoadBooks(stored)
    {
      books := LoadBooks(stored);
    }

    /** Removes every entry with the given id and keeps the others in order. */
    method DeleteBook(id: string)
      modifies this
      ensures books == WithoutId(old(books), id)
      ensures forall b :: b in books <==> b in old(books) && b.id != id
    {
      books := WithoutId(books, id);
    }

    /**
     * Records the position of the first entry with the given id (an absent
     * offset becomes 0); an unknown id leaves the list unchanged.
     */
    method UpdateBookProgress(id: string, process: int, offset: Option<nat>)
      modifies this
      ensures books == WithProgress(old(books), id, process, offset)
      ensures FirstIndexOf(old(books), id).None? ==> books == old(books)
    {
      var found := FirstIndexOf(books, id);
      if found.Some? {
        var i := found.value;
        books := books[i := books[i].(process := process, offset := Some(offset.GetOr(0)))];
      }
    }

    /**
     * Imports the first picked file as a new entry at the end of the list;
     * a cancelled or empty pick changes nothing.
     */
    method AddBook(files: Option<seq<PickedFile>>, newId: string)
      modifies this
      ensures files.Some? && |files.value| > 0 ==> books == old(books) + [NewEntry(files.value[0], newId)]
      ensures !(files.Some? && |files.value| > 0) ==> books == old(books)
    {
      if files.Some? && |files.value| > 0 {
        var file := files.value[0];
        var book := NewEntry(file, newId);
        books := books + [book];
      }
    }

    /** The current list. */
    method GetBooks() returns (r: seq<BookData>)
      ensures r == books
    {
      return books;
    }
  }
}
