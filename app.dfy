/** The application shell: it wires the managers together, keeps the current section, maps
    keyboard shortcuts to actions and imports a saved collection. */
module App {
  import opened Wrappers
  import opened Text
  import opened Records
  import Storage
  import Api
  import Books
  import Authors
  import Dashboard

  /** The sections of the page, in the order of the digit shortcuts. */
  const Sections: seq<string> := ["dashboard", "books", "authors", "statistics"]

  /** `isValidSection(section)`. */
  predicate IsValidSection(section: string) {
    section in Sections
  }

  /** What a key press asks for. */
  datatype Action = SaveAll | OpenBookForm | CloseModals | GoTo(section: string)

  /** The section a digit key leads to: the key lies between '1' and '4' as a string, and
      `sections[parseInt(key) - 1]` exists. */
  function DigitTarget(key: string): (target: Option<string>)
    ensures target.Some? ==> IsValidSection(target.value)
  {
    if !LexLess(key, "1") && !LexLess("4", key) then
      match ParseIntPrefix(key)
      case Some(n) => if 1 <= n <= 4 then Some(Sections[n - 1]) else None
      case None => None
    else None
  }

  /** The actions `handleKeyboardShortcuts` takes for a key press in `current`. */
  function Shortcut(key: string, ctrl: bool, meta: bool, current: string): (acts: seq<Action>)
    ensures OpenBookForm in acts <==> (ctrl || meta) && key == "n" && current == "books"
    ensures SaveAll in acts <==> (ctrl || meta) && key == "s"
    ensures forall a :: a in acts && a.GoTo? ==> IsValidSection(a.section) && !ctrl && !meta
    ensures |acts| <= 1
  {
    (if (ctrl || meta) && key == "s" then [SaveAll] else [])
    + (if (ctrl || meta) && key == "n" && current == "books" then [OpenBookForm] else [])
    + (if key == "Escape" then [CloseModals] else [])
    + (if !ctrl && !meta && DigitTarget(key).Some? then [GoTo(DigitTarget(key).value)] else [])
  }

  /** A digit key from '1' to '4' names the section at that position. */
  lemma DigitTargetOfDigit(c: char)
    requires '1' <= c <= '4'
    ensures DigitTarget([c]) == Some(Sections[c as int - '1' as int])
  {
    var k := c as int - '0' as int;
    assert IntToString(k) == [c];
    IntToStringPrefixParses(k, []);
    assert [c] + [] == [c];
    assert !LexLess([c], "1") by {
      assert "1"[0] == '1';
    }
    assert !LexLess("4", [c]) by {
      assert "4"[0] == '4';
    }
  }

  /** The keys '1' to '4' without Ctrl or Meta go to the sections in page order. */
  lemma DigitKeysNavigate(c: char, current: string)
    requires '1' <= c <= '4'
    ensures Shortcut([c], false, false, current) == [GoTo(Sections[c as int - '1' as int])]
  {
    DigitTargetOfDigit(c);
    assert [c] != "Escape";
  }

  /** "2x" lies between "1" and "4" and parses to 2. */
  lemma DigitTargetTwoX()
    ensures DigitTarget("2x") == Some("books")
  {
    assert IntToString(2) == "2";
    IntToStringPrefixParses(2, "x");
    assert "2" + "x" == "2x";
    assert !LexLess("2x", "1") && !LexLess("4", "2x") by {
      assert "2x"[0] == '2' && "1"[0] == '1' && "4"[0] == '4';
    }
  }

  /** "12" lies between "1" and "4" but parses to 12, past the last section. */
  lemma DigitTargetTwelve()
    ensures DigitTarget("12") == None
  {
    assert ParseIntPrefix("12") == Some(12) by {
      assert IntToString(12) == "12" by {
        assert NatToString(12) == NatToString(1) + [DigitChar(2)];
      }
      IntToStringPrefixParses(12, []);
      assert "12" + [] == "12";
    }
    assert !LexLess("12", "1") by {
      assert "12"[0] == "1"[0] && "1"[1..] == [];
    }
    assert !LexLess("4", "12") by {
      assert "12"[0] < "4"[0];
    }
  }

  /** A longer key that starts with a digit is compared as a string, then parsed: "2x" still
      goes to the second section, "12" to none. */
  lemma LongDigitKeys(current: string)
    ensures Shortcut("2x", false, false, current) == [GoTo("books")]
    ensures Shortcut("12", false, false, current) == []
  {
    DigitTargetTwoX();
    DigitTargetTwelve();
    assert "2x" != "Escape" && "12" != "Escape";
  }

  /** `BibliothecaApp`: the current section, the initialisation flag and the managers. */
  class BibliothecaApp {
    var currentSection: string
    var isInitialized: bool
    var storage: Storage.StorageManager?
    var api: Api.ApiClient?
    var bookManager: Books.BookManager?
    var authorManager: Authors.AuthorManager?
    var dashboard: Dashboard.DashboardManager?

    /** All managers exist and share one store and one API client. */
    ghost predicate Wired()
      reads this
    {
      && storage != null && api != null && bookManager != null && authorManager != null && dashboard != null
      && bookManager.storage == storage && bookManager.api == api
      && authorManager.storage == storage
      && dashboard.bm == bookManager && dashboard.am == authorManager && dashboard.api == api
    }

    /** The constructor's field values; the `init()` it starts is `Init`. */
    constructor ()
      ensures currentSection == "dashboard" && !isInitialized
      ensures storage == null && api == null && bookManager == null && authorManager == null && dashboard == null
    {
      currentSection := "dashboard";
      isInitialized := false;
      storage := null;
      api := null;
      bookManager := null;
      authorManager := null;
      dashboard := null;
    }

    /** `navigate(section)`: an unknown section becomes 'dashboard'. */
    method Navigate(section: string)
      modifies this`currentSection
      ensures currentSection == if IsValidSection(section) then section else "dashboard"
      ensures IsValidSection(currentSection)
    {
      var target := section;
      if !IsValidSection(target) {
        target := "dashboard";
      }
      currentSection := target;
    }

    /** `init()`, given whether the browser store works, the store as found, whether it is
        full, the sample data, the connection state and whether setting up the page throws. */
    method Init(
      storageAvailable: bool, stored: map<string, Storage.Value>, full: bool,
      sampleBooks: seq<Book>, sampleAuthors: seq<Author>, online: bool, setupThrows: bool)
      modifies this
      ensures isInitialized == (old(isInitialized) || (storageAvailable && !setupThrows))
      ensures !storageAvailable ==> currentSection == old(currentSection) && storage == old(storage)
      ensures storageAvailable ==> Wired() && fresh(storage) && fresh(bookManager) && fresh(authorManager)
      ensures storageAvailable ==> bookManager.books == Storage.BooksOf(storage.LoadBooks())
      ensures storageAvailable ==> authorManager.authors == Storage.AuthorsOf(storage.LoadAuthors())
      ensures storageAvailable && !setupThrows ==> currentSection == "dashboard"
      ensures storageAvailable && setupThrows ==> currentSection == old(currentSection)
    {
      if !storageAvailable {
        return;
      }
      InitializeManagers(stored, full, sampleBooks, sampleAuthors, online);
      if setupThrows {
        return;
      }
      LoadInitialData();
      Navigate("dashboard");
      isInitialized := true;
    }

    /** `initializeManagers()`: one store and one client shared by the managers, each of
        which loads its list from the store. */
    method InitializeManagers(
      stored: map<string, Storage.Value>, full: bool,
      sampleBooks: seq<Book>, sampleAuthors: seq<Author>, online: bool)
      modifies this`storage, this`api, this`bookManager, this`authorManager, this`dashboard
      ensures Wired() && fresh(storage) && fresh(api) && fresh(bookManager) && fresh(authorManager)
      ensures storage.entries == if full then stored else Storage.Seed(stored, sampleBooks, sampleAuthors)
      ensures api.isOnline == online
      ensures bookManager.books == Storage.BooksOf(storage.LoadBooks())
      ensures authorManager.authors == Storage.AuthorsOf(storage.LoadAuthors())
    {
      var s := new Storage.StorageManager(stored, full, sampleBooks, sampleAuthors);
      var a := new Api.ApiClient(online);
      var bm := new Books.BookManager(s, a);
      var am := new Authors.AuthorManager(s);
      var d := new Dashboard.DashboardManager(bm, am, a);
      storage, api, bookManager, authorManager, dashboard := s, a, bm, am, d;
    }

    /** `loadInitialData()`: the book and author managers reload their lists. */
    method LoadInitialData()
      requires Wired()
      modifies bookManager`books, authorManager`authors
      ensures bookManager.books == Storage.BooksOf(storage.LoadBooks())
      ensures authorManager.authors == Storage.AuthorsOf(storage.LoadAuthors())
    {
      bookManager.LoadBooks();
      authorManager.LoadAuthors();
    }

    /** `saveAllData()`: each existing manager writes its list. */
    method SaveAllData()
      modifies (if bookManager != null then {bookManager.storage} else {})
      modifies (if authorManager != null then {authorManager.storage} else {})
      ensures bookManager != null && !bookManager.storage.quotaExceeded ==>
        bookManager.storage.Load(Storage.BooksKey) == Storage.BookArray(bookManager.books)
      ensures authorManager != null && !authorManager.storage.quotaExceeded ==>
        authorManager.storage.Load(Storage.AuthorsKey) == Storage.AuthorArray(authorManager.authors)
      ensures Wired() ==>
        && storage.quotaExceeded == old(storage.quotaExceeded)
        && storage.entries ==
             if storage.quotaExceeded then old(storage.entries)
             else old(storage.entries)[Storage.BooksKey := Storage.BookArray(bookManager.books)]
                                      [Storage.AuthorsKey := Storage.AuthorArray(authorManager.authors)]
    {
      if bookManager != null {
        bookManager.SaveBooks();
      }
      if authorManager != null {
        authorManager.SaveAuthors();
      }
    }

    /** `handleKeyboardShortcuts(e)`: the actions of the key, with the save and the section
        change carried out. */
    method HandleKeyboardShortcuts(key: string, ctrl: bool, meta: bool) returns (acts: seq<Action>)
      modifies this`currentSection
      modifies (if bookManager != null then {bookManager.storage} else {})
      modifies (if authorManager != null then {authorManager.storage} else {})
      ensures acts == Shortcut(key, ctrl, meta, old(currentSection))
      ensures currentSection ==
        if !ctrl && !meta && DigitTarget(key).Some? then DigitTarget(key).value else old(currentSection)
      ensures (ctrl || meta) && key == "s" && Wired() ==>
        && storage.quotaExceeded == old(storage.quotaExceeded)
        && storage.entries ==
             if storage.quotaExceeded then old(storage.entries)
             else old(storage.entries)[Storage.BooksKey := Storage.BookArray(bookManager.books)]
                                      [Storage.AuthorsKey := Storage.AuthorArray(authorManager.authors)]
      ensures (ctrl || meta) && key == "s" && bookManager != null && !bookManager.storage.quotaExceeded ==>
        bookManager.storage.Load(Storage.BooksKey) == Storage.BookArray(bookManager.books)
      ensures (ctrl || meta) && key == "s" && authorManager != null && !authorManager.storage.quotaExceeded ==>
        authorManager.storage.Load(Storage.AuthorsKey) == Storage.AuthorArray(authorManager.authors)
      ensures !((ctrl || meta) && key == "s") ==>
        (bookManager != null ==> unchanged(old(bookManager.storage))) &&
        (authorManager != null ==> unchanged(old(authorManager.storage)))
    {
      acts := Shortcut(key, ctrl, meta, currentSection);
      if (ctrl || meta) && key == "s" {
        SaveAllData();
      }
      if !ctrl && !meta && DigitTarget(key).Some? {
        Navigate(DigitTarget(key).value);
      }
    }

    /** `importData(data)`: an array under `books` or `authors` replaces the stored list and
        the manager reloads it; false only when something throws, here reading a field of
        null or calling a missing manager. */
    method ImportData(data: Storage.Value) returns (ok: bool)
      modifies (if storage != null then {storage} else {})`entries
      modifies (if bookManager != null then {bookManager} else {})`books
      modifies (if authorManager != null then {authorManager} else {})`authors
      ensures data.Null? ==> !ok
      ensures Wired() && !data.Null? ==> ok
      ensures Wired() && IsArrayField(data, "books") && !storage.quotaExceeded ==>
        storage.Load(Storage.BooksKey) == Storage.Field(data, "books").value
        && bookManager.books == Storage.BooksOf(Storage.Field(data, "books").value)
      ensures Wired() && !IsArrayField(data, "books") ==>
        bookManager.books == old(bookManager.books) && storage.Load(Storage.BooksKey) == old(storage.Load(Storage.BooksKey))
      ensures Wired() && IsArrayField(data, "authors") && !storage.quotaExceeded ==>
        storage.Load(Storage.AuthorsKey) == Storage.Field(data, "authors").value
        && authorManager.authors == Storage.AuthorsOf(Storage.Field(data, "authors").value)
      ensures Wired() && !IsArrayField(data, "authors") ==>
        authorManager.authors == old(authorManager.authors)
        && storage.Load(Storage.AuthorsKey) == old(storage.Load(Storage.AuthorsKey))
      ensures Wired() ==>
        && storage.quotaExceeded == old(storage.quotaExceeded)
        && storage.entries ==
             if storage.quotaExceeded then old(storage.entries) else ImportedLists(old(storage.entries), data)
      ensures Wired() && IsArrayField(data, "books") ==>
        bookManager.books == Storage.BooksOf(storage.LoadBooks())
      ensures Wired() && IsArrayField(data, "authors") ==>
        authorManager.authors == Storage.AuthorsOf(storage.LoadAuthors())
    {
      if data.Null? {
        return false;
      }
      if IsArrayField(data, "books") {
        if storage == null {
          return false;
        }
        var _ := storage.SaveBooks(Storage.Field(data, "books").value);
        if bookManager == null {
          return false;
        }
        bookManager.LoadBooks();
      }
      if IsArrayField(data, "authors") {
        if storage == null {
          return false;
        }
        var _ := storage.SaveAuthors(Storage.Field(data, "authors").value);
        if authorManager == null {
          return false;
        }
        authorManager.LoadAuthors();
      }
      ok := dashboard != null;
    }
  }

  /** `data.x && Array.isArray(data.x)`. */
  /** The store after `importData` wrote an array found under `books` or `authors`: those
      two keys take the arrays, and every other entry, the settings included, is kept. */
  function ImportedLists(entries: map<string, Storage.Value>, data: Storage.Value): (r: map<string, Storage.Value>)
    ensures forall k :: k != Storage.BooksKey && k != Storage.AuthorsKey ==>
      (k in r <==> k in entries) && (k in entries ==> r[k] == entries[k])
    ensures IsArrayField(data, "books") ==>
      Storage.BooksKey in r && r[Storage.BooksKey] == Storage.Field(data, "books").value
    ensures !IsArrayField(data, "books") ==>
      (Storage.BooksKey in r <==> Storage.BooksKey in entries)
      && (Storage.BooksKey in entries ==> r[Storage.BooksKey] == entries[Storage.BooksKey])
    ensures IsArrayField(data, "authors") ==>
      Storage.AuthorsKey in r && r[Storage.AuthorsKey] == Storage.Field(data, "authors").value
    ensures !IsArrayField(data, "authors") ==>
      (Storage.AuthorsKey in r <==> Storage.AuthorsKey in entries)
      && (Storage.AuthorsKey in entries ==> r[Storage.AuthorsKey] == entries[Storage.AuthorsKey])
  {
    var withBooks :=
      if IsArrayField(data, "books") then entries[Storage.BooksKey := Storage.Field(data, "books").value]
      else entries;
    if IsArrayField(data, "authors") then withBooks[Storage.AuthorsKey := Storage.Field(data, "authors").value]
    else withBooks
  }

  predicate IsArrayField(data: Storage.Value, name: string) {
    Storage.Field(data, name).Some? && Storage.Field(data, name).value.Array?
  }
}
