/** The storage gateway: a key-value store of JSON values under three fixed keys.
    Serialisation is the identity, so a stored value is read back unchanged. */
module Storage {
  import opened Wrappers
  import opened Records

  const BooksKey := "bibliotheca_books"
  const AuthorsKey := "bibliotheca_authors"
  const SettingsKey := "bibliotheca_settings"

  /** A JSON value. Books and authors are kept as records rather than as their JSON objects. */
  datatype Value =
    | Null
    | Boolean(b: bool)
    | Number(n: int)
    | Text(s: string)
    | Array(items: seq<Value>)
    | Object(fields: map<string, Value>)
    | BookValue(book: Book)
    | AuthorValue(author: Author)

  /** `Boolean(v)`: null, false, 0 and the empty string are falsy; arrays and objects are not. */
  predicate Truthy(v: Value) {
    match v
    case Null => false
    case Boolean(b) => b
    case Number(n) => n != 0
    case Text(s) => s != ""
    case _ => true
  }

  /** `typeof v === 'object'`: null, arrays and objects. */
  predicate IsObject(v: Value) {
    v.Null? || v.Array? || v.Object? || v.BookValue? || v.AuthorValue?
  }

  /** `v.length === 0`: only an empty string or an empty array has length zero. */
  predicate HasZeroLength(v: Value) {
    (v.Text? && v.s == "") || (v.Array? && v.items == [])
  }

  /** `!v || v.length === 0`, the test for a missing or empty collection. */
  predicate NeedsSeed(v: Value) {
    !Truthy(v) || HasZeroLength(v)
  }

  /** `v.name`: a property of an object, absent (undefined) on anything else. */
  function Field(v: Value, name: string): (r: Option<Value>)
    ensures r.Some? ==> v.Object? && name in v.fields
  {
    if v.Object? && name in v.fields then Some(v.fields[name]) else None
  }

  /** `{theme: 'light', language: 'fr', itemsPerPage: 10}`. */
  const DefaultSettings: Value :=
    Object(map["theme" := Text("light"), "language" := Text("fr"), "itemsPerPage" := Number(10)])

  function BookArray(books: seq<Book>): (v: Value)
    ensures v.Array? && |v.items| == |books|
  {
    Array(seq(|books|, i requires 0 <= i < |books| => BookValue(books[i])))
  }

  function AuthorArray(authors: seq<Author>): (v: Value)
    ensures v.Array? && |v.items| == |authors|
  {
    Array(seq(|authors|, i requires 0 <= i < |authors| => AuthorValue(authors[i])))
  }

  /** The books an array of books holds; any other value holds none. */
  function BooksOf(v: Value): seq<Book> {
    if v.Array? && forall i :: 0 <= i < |v.items| ==> v.items[i].BookValue? then
      seq(|v.items|, i requires 0 <= i < |v.items| && v.items[i].BookValue? => v.items[i].book)
    else []
  }

  function AuthorsOf(v: Value): seq<Author> {
    if v.Array? && forall i :: 0 <= i < |v.items| ==> v.items[i].AuthorValue? then
      seq(|v.items|, i requires 0 <= i < |v.items| && v.items[i].AuthorValue? => v.items[i].author)
    else []
  }

  lemma BooksRoundTrip(books: seq<Book>)
    ensures BooksOf(BookArray(books)) == books
  {
    var v := BookArray(books);
    assert forall i :: 0 <= i < |v.items| ==> v.items[i] == BookValue(books[i]);
  }

  lemma AuthorsRoundTrip(authors: seq<Author>)
    ensures AuthorsOf(AuthorArray(authors)) == authors
  {
    var v := AuthorArray(authors);
    assert forall i :: 0 <= i < |v.items| ==> v.items[i] == AuthorValue(authors[i]);
  }

  /** `load(key)`: the stored value, null when the key is absent. */
  function Lookup(m: map<string, Value>, key: string): Value {
    if key in m then m[key] else Null
  }

  /** `load(key) || []`. */
  function LoadOrEmpty(m: map<string, Value>, key: string): (v: Value)
    ensures Truthy(Lookup(m, key)) ==> v == Lookup(m, key)
    ensures !Truthy(Lookup(m, key)) ==> v == Array([])
  {
    var stored := Lookup(m, key);
    if Truthy(stored) then stored else Array([])
  }

  /** The store after `initializeStorage` writes with every write succeeding. */
  function Seed(m: map<string, Value>, sampleBooks: seq<Book>, sampleAuthors: seq<Author>)
    : map<string, Value>
  {
    var m1 := if NeedsSeed(Lookup(m, BooksKey)) then m[BooksKey := BookArray(sampleBooks)] else m;
    var m2 :=
      if NeedsSeed(Lookup(m, AuthorsKey)) then m1[AuthorsKey := AuthorArray(sampleAuthors)] else m1;
    if !Truthy(Lookup(m2, SettingsKey)) then m2[SettingsKey := DefaultSettings] else m2
  }

  /** Seeding keeps a non-empty stored collection and fills a missing or empty one with the samples. */
  lemma SeedCollections(m: map<string, Value>, sampleBooks: seq<Book>, sampleAuthors: seq<Author>)
    ensures var s := Seed(m, sampleBooks, sampleAuthors);
      && (NeedsSeed(Lookup(m, BooksKey)) ==> Lookup(s, BooksKey) == BookArray(sampleBooks))
      && (!NeedsSeed(Lookup(m, BooksKey)) ==> Lookup(s, BooksKey) == Lookup(m, BooksKey))
      && (NeedsSeed(Lookup(m, AuthorsKey)) ==> Lookup(s, AuthorsKey) == AuthorArray(sampleAuthors))
      && (!NeedsSeed(Lookup(m, AuthorsKey)) ==> Lookup(s, AuthorsKey) == Lookup(m, AuthorsKey))
  {
  }

  /** Default settings are written only when the settings key holds nothing truthy. */
  lemma SeedSettings(m: map<string, Value>, sampleBooks: seq<Book>, sampleAuthors: seq<Author>)
    ensures var s := Seed(m, sampleBooks, sampleAuthors);
      && (Truthy(Lookup(m, SettingsKey)) ==> Lookup(s, SettingsKey) == Lookup(m, SettingsKey))
      && (!Truthy(Lookup(m, SettingsKey)) ==> Lookup(s, SettingsKey) == DefaultSettings)
  {
  }

  /** Seeding touches only the three keys of the catalogue. */
  lemma SeedFrame(m: map<string, Value>, sampleBooks: seq<Book>, sampleAuthors: seq<Author>, k: string)
    requires k != BooksKey && k != AuthorsKey && k != SettingsKey
    ensures Lookup(Seed(m, sampleBooks, sampleAuthors), k) == Lookup(m, k)
  {
  }

  /** After seeding, all three keys hold a truthy value, and seeding again changes nothing. */
  lemma SeedIdempotent(m: map<string, Value>, sampleBooks: seq<Book>, sampleAuthors: seq<Author>)
    ensures var s := Seed(m, sampleBooks, sampleAuthors);
      && Truthy(Lookup(s, BooksKey)) && Truthy(Lookup(s, AuthorsKey)) && Truthy(Lookup(s, SettingsKey))
      && Seed(s, sampleBooks, sampleAuthors) == s
  {
    var s := Seed(m, sampleBooks, sampleAuthors);
    SeedCollections(m, sampleBooks, sampleAuthors);
    SeedSettings(m, sampleBooks, sampleAuthors);
    SeedCollections(s, sampleBooks, sampleAuthors);
    SeedSettings(s, sampleBooks, sampleAuthors);
    var s2 := Seed(s, sampleBooks, sampleAuthors);
    assert forall k :: k in s2 <==> k in s;
    forall k | k in s
      ensures s2[k] == s[k]
    {
      if k != BooksKey && k != AuthorsKey && k != SettingsKey {
        SeedFrame(s, sampleBooks, sampleAuthors, k);
      }
    }
  }

  /** The store after `clear` with every write succeeding: the three keys removed, then seeded. */
  function Cleared(m: map<string, Value>, sampleBooks: seq<Book>, sampleAuthors: seq<Author>)
    : map<string, Value>
  {
    Seed(m - {BooksKey, AuthorsKey, SettingsKey}, sampleBooks, sampleAuthors)
  }

  /** `clear` re-seeds: afterwards the three keys hold the samples and the default settings. */
  lemma ClearedHoldsDefaults(m: map<string, Value>, sampleBooks: seq<Book>, sampleAuthors: seq<Author>)
    ensures var c := Cleared(m, sampleBooks, sampleAuthors);
      && BooksKey in c && AuthorsKey in c && SettingsKey in c
      && c[BooksKey] == BookArray(sampleBooks)
      && c[AuthorsKey] == AuthorArray(sampleAuthors)
      && c[SettingsKey] == DefaultSettings
  {
    var m0 := m - {BooksKey, AuthorsKey, SettingsKey};
    SeedCollections(m0, sampleBooks, sampleAuthors);
    SeedSettings(m0, sampleBooks, sampleAuthors);
  }

  /** The store after `importData(data)` with every write succeeding. */
  function Imported(m: map<string, Value>, data: Value): map<string, Value> {
    var books := Field(data, "books");
    var authors := Field(data, "authors");
    var settings := Field(data, "settings");
    var m1 := if books.Some? && Truthy(books.value) && books.value.Array? then m[BooksKey := books.value] else m;
    var m2 :=
      if authors.Some? && Truthy(authors.value) && authors.value.Array? then m1[AuthorsKey := authors.value] else m1;
    if settings.Some? && Truthy(settings.value) && IsObject(settings.value) then m2[SettingsKey := settings.value]
    else m2
  }

  /** `importData` writes each key only from a value of the expected kind: books and authors
      from arrays, settings from any object (an array included), and nothing else. */
  lemma ImportedKeys(m: map<string, Value>, data: Value)
    ensures var r := Imported(m, data);
      && (forall k :: k != BooksKey && k != AuthorsKey && k != SettingsKey ==> Lookup(r, k) == Lookup(m, k))
      && (Lookup(r, BooksKey) != Lookup(m, BooksKey) ==> Field(data, "books") == Some(Lookup(r, BooksKey)))
      && (Lookup(r, BooksKey) != Lookup(m, BooksKey) ==> Lookup(r, BooksKey).Array?)
      && (Lookup(r, AuthorsKey) != Lookup(m, AuthorsKey) ==> Field(data, "authors") == Some(Lookup(r, AuthorsKey)))
      && (Lookup(r, AuthorsKey) != Lookup(m, AuthorsKey) ==> Lookup(r, AuthorsKey).Array?)
      && (Lookup(r, SettingsKey) != Lookup(m, SettingsKey) ==> Field(data, "settings") == Some(Lookup(r, SettingsKey)))
      && (Lookup(r, SettingsKey) != Lookup(m, SettingsKey) ==> IsObject(Lookup(r, SettingsKey)))
  {
  }

  /** A books array in the imported data always replaces the stored books. */
  lemma ImportedBooks(m: map<string, Value>, data: Value, books: seq<Book>)
    requires Field(data, "books") == Some(BookArray(books))
    ensures BooksOf(Lookup(Imported(m, data), BooksKey)) == books
  {
    BooksRoundTrip(books);
  }

  /** `validateData`: anything but null and undefined can be serialised. */
  function ValidateData(data: Option<Value>): (ok: bool)
    ensures ok <==> data.Some? && data.value != Null
  {
    match data
    case None => false
    case Some(v) => !v.Null?
  }

  class StorageManager {
    /** The contents of the browser's local storage. */
    var entries: map<string, Value>
    /** The storage quota is exhausted: every write fails and leaves the store unchanged. */
    var quotaExceeded: bool
    /** `window.SAMPLE_BOOKS` (or the built-in fallback) and `window.SAMPLE_AUTHORS`. */
    const sampleBooks: seq<Book>
    const sampleAuthors: seq<Author>

    /** The constructor seeds the store it finds. */
    constructor (initial: map<string, Value>, full: bool, books: seq<Book>, authors: seq<Author>)
      ensures sampleBooks == books && sampleAuthors == authors && quotaExceeded == full
      ensures entries == if full then initial else Seed(initial, books, authors)
    {
      entries := initial;
      quotaExceeded := full;
      sampleBooks := books;
      sampleAuthors := authors;
      new;
      InitializeStorage();
    }

    /** `load(key)`. */
    function Load(key: string): (v: Value)
      reads this
      ensures key in entries ==> v == entries[key]
      ensures key !in entries ==> v == Null
    {
      Lookup(entries, key)
    }

    /** `save(key, data)`: true and stored, or false with the store unchanged. */
    method Save(key: string, data: Value) returns (ok: bool)
      modifies this`entries
      ensures ok == !quotaExceeded
      ensures ok ==> entries == old(entries)[key := data] && Load(key) == data
      ensures !ok ==> entries == old(entries)
    {
      if quotaExceeded {
        ok := false;
      } else {
        entries := entries[key := data];
        ok := true;
      }
    }

    /** `remove(key)`. */
    method Remove(key: string) returns (ok: bool)
      modifies this`entries
      ensures ok && entries == old(entries) - {key}
    {
      entries := entries - {key};
      ok := true;
    }

    method InitializeStorage()
      modifies this`entries
      ensures entries == if quotaExceeded then old(entries) else Seed(old(entries), sampleBooks, sampleAuthors)
    {
      var existingBooks := Load(BooksKey);
      var existingAuthors := Load(AuthorsKey);
      if NeedsSeed(existingBooks) {
        var _ := Save(BooksKey, BookArray(sampleBooks));
      }
      if NeedsSeed(existingAuthors) {
        var _ := Save(AuthorsKey, AuthorArray(sampleAuthors));
      }
      if !Truthy(Load(SettingsKey)) {
        var _ := Save(SettingsKey, DefaultSettings);
      }
    }

    /** `clear()`: removes the three keys, then seeds again. */
    method Clear() returns (ok: bool)
      modifies this`entries
      ensures ok
      ensures quotaExceeded ==> entries == old(entries) - {BooksKey, AuthorsKey, SettingsKey}
      ensures !quotaExceeded ==> entries == Cleared(old(entries), sampleBooks, sampleAuthors)
    {
      var _ := Remove(BooksKey);
      var _ := Remove(AuthorsKey);
      var _ := Remove(SettingsKey);
      assert entries == old(entries) - {BooksKey, AuthorsKey, SettingsKey};
      InitializeStorage();
      ok := true;
    }

    /** `resetToSampleData()`: both collections overwritten, the settings untouched. */
    method ResetToSampleData() returns (ok: bool)
      modifies this`entries
      ensures ok
      ensures entries ==
        if quotaExceeded then old(entries)
        else old(entries)[BooksKey := BookArray(sampleBooks)][AuthorsKey := AuthorArray(sampleAuthors)]
    {
      var _ := Save(BooksKey, BookArray(sampleBooks));
      var _ := Save(AuthorsKey, AuthorArray(sampleAuthors));
      ok := true;
    }

    /** `saveBooks(books)`: writes the books key and no other. */
    method SaveBooks(books: Value) returns (ok: bool)
      modifies this`entries
      ensures ok == !quotaExceeded
      ensures entries == if ok then old(entries)[BooksKey := books] else old(entries)
    {
      ok := Save(BooksKey, books);
    }

    method SaveAuthors(authors: Value) returns (ok: bool)
      modifies this`entries
      ensures ok == !quotaExceeded
      ensures entries == if ok then old(entries)[AuthorsKey := authors] else old(entries)
    {
      ok := Save(AuthorsKey, authors);
    }

    /** `loadBooks()`: the stored books, or an empty array when nothing truthy is stored. */
    function LoadBooks(): (v: Value)
      reads this
      ensures Truthy(Load(BooksKey)) ==> v == Load(BooksKey)
      ensures !Truthy(Load(BooksKey)) ==> v == Array([])
    {
      LoadOrEmpty(entries, BooksKey)
    }

    function LoadAuthors(): (v: Value)
      reads this
      ensures Truthy(Load(AuthorsKey)) ==> v == Load(AuthorsKey)
      ensures !Truthy(Load(AuthorsKey)) ==> v == Array([])
    {
      LoadOrEmpty(entries, AuthorsKey)
    }

    /** `importData(data)`: false only when reading a property of `data` throws (null data). */
    method ImportData(data: Value) returns (ok: bool)
      modifies this`entries
      ensures ok <==> data != Null
      ensures entries == if !ok || quotaExceeded then old(entries) else Imported(old(entries), data)
    {
      if data.Null? {
        return false;
      }
      var books := Field(data, "books");
      if books.Some? && Truthy(books.value) && books.value.Array? {
        var _ := SaveBooks(books.value);
      }
      var authors := Field(data, "authors");
      if authors.Some? && Truthy(authors.value) && authors.value.Array? {
        var _ := SaveAuthors(authors.value);
      }
      var settings := Field(data, "settings");
      if settings.Some? && Truthy(settings.value) && IsObject(settings.value) {
        var _ := Save(SettingsKey, settings.value);
      }
      ok := true;
    }
  }
}
