/** The book collection: create, update and delete on the stored list, local search, the
    comparator sort, the statistics, the import of a search hit and the form rules. */
module Books {
  import opened Wrappers
  import opened Text
  import opened Records
  import opened Counting
  import Storage
  import Api
  import Isbn
  import opened Sorting

  /** `{id, ...bookData, dateAdded, lastModified}` before any enrichment: a field the spread
      object lacks is absent (the empty text, `None` or false here). */
  function Created(data: BookPatch, freshId: Id, now: string): (b: Book)
    ensures b.id == data.id.GetOr(freshId)
    ensures b.dateAdded == now && b.lastModified == Some(now)
  {
    ApplyPatch(BlankBook(freshId), data).(dateAdded := now, lastModified := Some(now))
  }

  /** `book.enrichedData = apiData; book.coverUrl = apiData.coverUrl` when the lookup
      resolves; an error is caught and leaves the book as it was. */
  function WithDetails(b: Book, r: Result<BookDetail, Api.ApiError>): (e: Book)
    ensures r.Err? ==> e == b
    ensures r.Ok? ==> e.enrichedData == Some(r.value) && e.coverUrl == r.value.coverUrl
    ensures e.(enrichedData := b.enrichedData, coverUrl := b.coverUrl) == b
  {
    match r
    case Ok(d) => b.(enrichedData := Some(d), coverUrl := d.coverUrl)
    case Err(_) => b
  }

  /** The first position whose id is loosely equal (`==`) to `id`: `findIndex`. */
  function FindLoose(books: seq<Book>, id: Id): (r: Option<nat>)
    ensures r.Some? ==> r.value < |books| && LooseEq(books[r.value].id, id)
    ensures r.Some? ==> forall j :: 0 <= j < r.value ==> !LooseEq(books[j].id, id)
    ensures r.None? ==> forall j :: 0 <= j < |books| ==> !LooseEq(books[j].id, id)
  {
    if books == [] then None
    else if LooseEq(books[0].id, id) then Some(0)
    else
      match FindLoose(books[1..], id)
      case None => None
      case Some(k) => Some(k + 1)
  }

  /** `books.filter(b => b.id !== id)`. */
  function RemoveId(books: seq<Book>, id: Id): (r: seq<Book>)
    ensures |r| <= |books|
    ensures forall b :: b in r ==> b in books && b.id != id
    ensures forall b :: b in books && b.id != id ==> b in r
    ensures (forall b :: b in books ==> b.id != id) ==> r == books
    ensures Subsequence(r, books)
    ensures forall b :: multiset(r)[b] == if b.id != id then multiset(books)[b] else 0
  {
    FilterMembers(books, (b: Book) => b.id != id);
    Filter(books, (b: Book) => b.id != id)
  }

  /** `xs.filter(keep)`: the elements kept, in order, each as often as in `xs`. */
  function Filter<T(==, !new)>(xs: seq<T>, keep: T -> bool): (r: seq<T>)
    ensures |r| <= |xs|
    ensures (forall x :: x in xs ==> keep(x)) ==> r == xs
    ensures Subsequence(r, xs)
    ensures forall x :: multiset(r)[x] == if keep(x) then multiset(xs)[x] else 0
  {
    if xs == [] then []
    else
      var rest := Filter(xs[1..], keep);
      assert xs == [xs[0]] + xs[1..];
      assert multiset(xs) == multiset{xs[0]} + multiset(xs[1..]);
      if keep(xs[0]) then
        var r := [xs[0]] + rest;
        assert r[1..] == rest;
        assert multiset(r) == multiset{xs[0]} + multiset(rest);
        r
      else
        rest
  }

  /** The filtered list holds exactly the elements of `xs` that are kept. */
  lemma FilterMembers<T(!new)>(xs: seq<T>, keep: T -> bool)
    ensures forall x :: x in Filter(xs, keep) <==> x in xs && keep(x)
  {
    var r := Filter(xs, keep);
    forall x
      ensures x in r <==> x in xs && keep(x)
    {
      assert x in r <==> x in multiset(r);
      assert x in xs <==> x in multiset(xs);
    }
  }

  /** `a` is obtained from `b` by deleting elements. */
  predicate Subsequence<T(==)>(a: seq<T>, b: seq<T>)
    decreases |b|
  {
    a == [] || (b != [] && ((a[0] == b[0] && Subsequence(a[1..], b[1..])) || Subsequence(a, b[1..])))
  }

  /** The search term found in a lower-cased title, author, genre, truthy isbn or truthy
      description. */
  predicate Matches(b: Book, term: string) {
    || Contains(Lower(b.title), term)
    || Contains(Lower(b.author), term)
    || Contains(Lower(b.genre), term)
    || (b.isbn != "" && Contains(Lower(b.isbn), term))
    || (TruthyText(b.description) && Contains(Lower(b.description.value), term))
  }

  /** `books.filter(book => Matches(book, term))`. */
  function FilterMatching(books: seq<Book>, term: string): (r: seq<Book>)
    ensures forall b :: b in r ==> b in books && Matches(b, term)
    ensures forall b :: b in books && Matches(b, term) ==> b in r
    ensures Subsequence(r, books)
    ensures forall b :: multiset(r)[b] == if Matches(b, term) then multiset(books)[b] else 0
  {
    FilterMembers(books, (b: Book) => Matches(b, term));
    Filter(books, (b: Book) => Matches(b, term))
  }

  /** What a sort criterion compares: lower-cased text, or a number. */
  datatype SortKey = KeyText(s: string) | KeyNumber(n: int)

  /** The comparator's key. Local books have no `publishYear`, so the 'year' key is 0. */
  function SortKeyOf(b: Book, criteria: string): (k: SortKey)
    ensures criteria == "year" ==> k == KeyNumber(0)
    ensures criteria != "year" ==> k.KeyText?
  {
    if criteria == "author" then KeyText(Lower(b.author))
    else if criteria == "year" then KeyNumber(0)
    else if criteria == "genre" then KeyText(Lower(b.genre))
    else KeyText(Lower(b.title))
  }

  /** JavaScript's `<` between two keys of the same kind. */
  predicate KeyLess(x: SortKey, y: SortKey) {
    match (x, y)
    case (KeyText(a), KeyText(b)) => LexLess(a, b)
    case (KeyNumber(a), KeyNumber(b)) => a < b
    case _ => false
  }

  /** The comparator of `sortBooks`: -1, 0 or 1, reversed unless the order is 'asc'. */
  function Compare(a: Book, b: Book, criteria: string, order: string): (c: int)
    ensures -1 <= c <= 1
  {
    var ka := SortKeyOf(a, criteria);
    var kb := SortKeyOf(b, criteria);
    if KeyLess(ka, kb) then (if order == "asc" then -1 else 1)
    else if KeyLess(kb, ka) then (if order == "asc" then 1 else -1)
    else 0
  }

  predicate InOrder(a: Book, b: Book, criteria: string, order: string) {
    Compare(a, b, criteria, order) <= 0
  }

  predicate SortedBooks(xs: seq<Book>, criteria: string, order: string) {
    forall i, j :: 0 <= i < j < |xs| ==> InOrder(xs[i], xs[j], criteria, order)
  }

  /** Every pair of books compares equal. */
  predicate AllTied(xs: seq<Book>, criteria: string, order: string) {
    forall i, j :: 0 <= i < |xs| && 0 <= j < |xs| ==> Compare(xs[i], xs[j], criteria, order) == 0
  }

  lemma KeyLessAsymmetric(x: SortKey, y: SortKey)
    requires KeyLess(x, y)
    ensures !KeyLess(y, x)
  {
    if x.KeyText? && KeyLess(y, x) {
      LexLessTransitive(x.s, y.s, x.s);
      LexLessIrreflexive(x.s);
    }
  }

  lemma KeyLessTransitive(x: SortKey, y: SortKey, z: SortKey)
    requires KeyLess(x, y) && KeyLess(y, z)
    ensures KeyLess(x, z)
  {
    if x.KeyText? {
      LexLessTransitive(x.s, y.s, z.s);
    }
  }

  lemma KeyTotal(x: SortKey, y: SortKey)
    requires x.KeyText? == y.KeyText?
    ensures x == y || KeyLess(x, y) || KeyLess(y, x)
  {
    if x.KeyText? {
      LexLessTotal(x.s, y.s);
    }
  }

  /** The comparator is antisymmetric: a pair out of order is in order once swapped. */
  lemma CompareFlip(a: Book, b: Book, criteria: string, order: string)
    requires Compare(a, b, criteria, order) > 0
    ensures Compare(b, a, criteria, order) < 0
  {
    var ka := SortKeyOf(a, criteria);
    var kb := SortKeyOf(b, criteria);
    if KeyLess(ka, kb) {
      KeyLessAsymmetric(ka, kb);
    }
  }

  /** Being in order is transitive, for either direction. */
  lemma InOrderTransitive(a: Book, b: Book, c: Book, criteria: string, order: string)
    requires InOrder(a, b, criteria, order) && InOrder(b, c, criteria, order)
    ensures InOrder(a, c, criteria, order)
  {
    var ka, kb, kc := SortKeyOf(a, criteria), SortKeyOf(b, criteria), SortKeyOf(c, criteria);
    KeyTotal(ka, kb);
    KeyTotal(kb, kc);
    KeyTotal(ka, kc);
    if KeyLess(ka, kb) && KeyLess(kb, kc) {
      KeyLessTransitive(ka, kb, kc);
    }
    if KeyLess(kb, ka) && KeyLess(kc, kb) {
      KeyLessTransitive(kc, kb, ka);
    }
    if KeyLess(ka, kc) {
      KeyLessAsymmetric(ka, kc);
    }
    if KeyLess(kc, ka) {
      KeyLessAsymmetric(kc, ka);
    }
    if KeyLess(ka, kb) {
      KeyLessAsymmetric(ka, kb);
    }
    if KeyLess(kb, kc) {
      KeyLessAsymmetric(kb, kc);
    }
  }

  /** Under the 'year' criterion every pair of books compares equal. */
  lemma YearKeysTie(xs: seq<Book>, order: string)
    ensures AllTied(xs, "year", order)
  {
  }

  /** The comparator of `sortBooks` for one criterion and order is consistent. */
  lemma BookComparatorConsistent(criteria: string, order: string)
    ensures Consistent((x: Book, y: Book) => Compare(x, y, criteria, order))
  {
    forall x: Book, y: Book | Compare(x, y, criteria, order) > 0
      ensures Compare(y, x, criteria, order) < 0
    {
      CompareFlip(x, y, criteria, order);
    }
    var cmp := (x: Book, y: Book) => Compare(x, y, criteria, order);
    forall x: Book, y: Book, z: Book | Chained(cmp, x, y, z)
      ensures cmp(x, z) <= 0
    {
      InOrderTransitive(x, y, z, criteria, order);
    }
  }

  /** `sortBooks(books, criteria, order)`: `Array.prototype.sort` in place with the comparator,
      as a stable insertion sort. */
  method SortBooks(a: array<Book>, criteria: string, order: string)
    modifies a
    ensures SortedBooks(a[..], criteria, order)
    ensures multiset(a[..]) == multiset(old(a[..]))
    ensures AllTied(old(a[..]), criteria, order) ==> a[..] == old(a[..])
  {
    var cmp := (x: Book, y: Book) => Compare(x, y, criteria, order);
    BookComparatorConsistent(criteria, order);
    InsertionSort(a, cmp);
  }

  /** `getBookStats()`. */
  datatype BookStats = BookStats(
    total: nat,
    available: nat,
    genres: Counter<string>,
    authors: Counter<string>,
    years: Counter<int>)

  function GenreList(books: seq<Book>): (gs: seq<string>)
    ensures |gs| == |books| && forall i :: 0 <= i < |books| ==> gs[i] == books[i].genre
  {
    seq(|books|, i requires 0 <= i < |books| => books[i].genre)
  }

  function AuthorList(books: seq<Book>): (names: seq<string>)
    ensures |names| == |books| && forall i :: 0 <= i < |books| ==> names[i] == books[i].author
  {
    seq(|books|, i requires 0 <= i < |books| => books[i].author)
  }

  /** The truthy years of the books, in order. */
  function YearList(books: seq<Book>): seq<int> {
    if books == [] then []
    else
      var last := books[|books| - 1];
      YearList(books[..|books| - 1]) + (if TruthyNum(last.year) then [last.year.value] else [])
  }

  /** `books.filter(b => b.available === true).length`. */
  function AvailableCount(books: seq<Book>): (n: nat)
    ensures n <= |books|
    ensures n == |books| <==> forall i :: 0 <= i < |books| ==> books[i].available
  {
    if books == [] then 0
    else (if books[0].available then 1 else 0) + AvailableCount(books[1..])
  }

  /** Each falsy year is left out of the year counts. */
  lemma {:induction false} YearListLength(books: seq<Book>)
    ensures |YearList(books)| <= |books|
    ensures |YearList(books)| == |books| <==> forall i :: 0 <= i < |books| ==> TruthyNum(books[i].year)
  {
    if books != [] {
      var init := books[..|books| - 1];
      YearListLength(init);
      if !TruthyNum(books[|books| - 1].year) {
        assert |YearList(books)| < |books|;
      } else if |YearList(books)| == |books| {
        forall i | 0 <= i < |books|
          ensures TruthyNum(books[i].year)
        {
          if i < |books| - 1 {
            assert books[i] == init[i];
          }
        }
      }
    }
  }

  /** How the year list grows by one book. */
  lemma YearStep(books: seq<Book>, i: nat)
    requires i < |books|
    ensures YearList(books[..i + 1]) ==
      YearList(books[..i]) + (if TruthyNum(books[i].year) then [books[i].year.value] else [])
  {
    assert books[..i + 1][..i] == books[..i];
  }

  /** One more book adds its genre to the genre count. */
  lemma GenreCountStep(books: seq<Book>, i: nat)
    requires i < |books|
    ensures CountAll(GenreList(books[..i + 1])) == Bump(CountAll(GenreList(books[..i])), books[i].genre)
  {
    assert GenreList(books[..i + 1]) == GenreList(books[..i]) + [books[i].genre];
    CountAllSnoc(GenreList(books[..i]), books[i].genre);
  }

  /** One more book adds its author to the author count. */
  lemma AuthorCountStep(books: seq<Book>, i: nat)
    requires i < |books|
    ensures CountAll(AuthorList(books[..i + 1])) == Bump(CountAll(AuthorList(books[..i])), books[i].author)
  {
    assert AuthorList(books[..i + 1]) == AuthorList(books[..i]) + [books[i].author];
    CountAllSnoc(AuthorList(books[..i]), books[i].author);
  }

  /** One more book adds its year to the year count when the year is truthy. */
  lemma YearCountStep(books: seq<Book>, i: nat)
    requires i < |books|
    ensures CountAll(YearList(books[..i + 1])) ==
      if TruthyNum(books[i].year) then Bump(CountAll(YearList(books[..i])), books[i].year.value)
      else CountAll(YearList(books[..i]))
  {
    YearStep(books, i);
    if TruthyNum(books[i].year) {
      CountAllSnoc(YearList(books[..i]), books[i].year.value);
    } else {
      assert YearList(books[..i + 1]) == YearList(books[..i]);
    }
  }

  /** Counting the genres, authors or years of the books is counting the list, and the counts
      add up to the collection size (the year counts to the number of truthy years). */
  lemma BookStatsSums(books: seq<Book>)
    ensures Counts(CountAll(GenreList(books)), GenreList(books))
    ensures Counts(CountAll(AuthorList(books)), AuthorList(books))
    ensures Counts(CountAll(YearList(books)), YearList(books))
    ensures Total(CountAll(GenreList(books)).order, CountAll(GenreList(books)).counts) == |books|
    ensures Total(CountAll(AuthorList(books)).order, CountAll(AuthorList(books)).counts) == |books|
  {
    CountAllCounts(GenreList(books));
    CountAllCounts(AuthorList(books));
    CountAllCounts(YearList(books));
  }

  /** The patch `importAPIResult` builds from a search hit. */
  function ImportedBookData(hit: SearchHit, currentYear: int): (p: BookPatch)
    ensures p.title == Some(if hit.title != "" then hit.title else Api.UnknownTitle)
    ensures p.author == Some(if hit.authors != [] then hit.authors[0] else Api.UnknownAuthor)
    ensures p.isbn == Some(hit.isbn.GetOr(""))
    ensures p.genre == Some(if hit.subjects != [] then hit.subjects[0] else "Non classé")
    ensures p.year == Some(Some(if TruthyNum(hit.publishYear) then hit.publishYear.value else currentYear))
    ensures p.coverUrl == Some(hit.coverUrl) && p.apiSubjects == Some(Some(hit.subjects))
    ensures p.id.None? && p.dateAdded.None? && p.lastModified.None? && p.enrichedData.None?
  {
    NoChange.(
      title := Some(if hit.title != "" then hit.title else Api.UnknownTitle),
      author := Some(if hit.authors != [] then hit.authors[0] else Api.UnknownAuthor),
      isbn := Some(hit.isbn.GetOr("")),
      genre := Some(if hit.subjects != [] then hit.subjects[0] else "Non classé"),
      year := Some(Some(if TruthyNum(hit.publishYear) then hit.publishYear.value else currentYear)),
      rating := Some(None),
      description := Some(Some("")),
      available := Some(true),
      coverUrl := Some(hit.coverUrl),
      apiSubjects := Some(Some(hit.subjects)),
      enrichedFromAPI := Some(true))
  }

  /** An imported hit that has an ISBN takes the cover of the edition record, even when the
      edition has none and the hit had one: `createBook` assigns the edition's cover
      unconditionally. */
  lemma ImportReplacesHitCover(hit: SearchHit, currentYear: int, freshId: Id, now: string, d: BookDetail)
    requires hit.coverUrl.Some? && d.coverUrl.None?
    ensures Created(ImportedBookData(hit, currentYear), freshId, now).coverUrl == hit.coverUrl
    ensures WithDetails(Created(ImportedBookData(hit, currentYear), freshId, now), Ok(d)).coverUrl.None?
  {
  }

  /** The fields of the book form that `validateField` checks. */
  datatype BookField = TitleField | AuthorField | IsbnField | GenreField | YearField | OtherField

  datatype FieldCheck = Valid | Invalid(message: string)

  /** `validateField(fieldId)` on the raw value of the field. */
  function ValidateField(field: BookField, raw: string, currentYear: int): (v: FieldCheck)
    ensures field == TitleField || field == AuthorField ==> (v.Valid? <==> |Trim(raw)| >= 2)
    ensures field == IsbnField ==> (v.Valid? <==> Trim(raw) == "" || Isbn.ValidIsbn(Trim(raw)))
    ensures field == GenreField ==> (v.Valid? <==> Trim(raw) != "")
    ensures field == YearField ==>
      (v.Valid? <==> Trim(raw) != "" && ParseIntPrefix(Trim(raw)).Some?
                     && 1000 <= ParseIntPrefix(Trim(raw)).value <= currentYear + 1)
    ensures field == OtherField ==> v.Valid?
  {
    var value := Trim(raw);
    match field
    case TitleField =>
      if value == "" then Invalid("Le titre est requis")
      else if |value| < 2 then Invalid("Le titre doit contenir au moins 2 caractères")
      else Valid
    case AuthorField =>
      if value == "" then Invalid("L'auteur est requis")
      else if |value| < 2 then Invalid("Le nom de l'auteur doit contenir au moins 2 caractères")
      else Valid
    case IsbnField =>
      if value != "" && !Isbn.ValidIsbn(value) then Invalid("Format ISBN invalide (ISBN-10 ou ISBN-13)")
      else Valid
    case GenreField =>
      if value == "" then Invalid("Le genre est requis") else Valid
    case YearField =>
      var year := ParseIntPrefix(value);
      if value == "" then Invalid("L'année de publication est requise")
      else if year.None? || year.value < 1000 || year.value > currentYear + 1 then
        Invalid("L'année doit être entre 1000 et " + IntToString(currentYear + 1))
      else Valid
    case OtherField => Valid
  }

  /** A year typed as its decimal rendering is accepted exactly when it lies in the range. */
  lemma RenderedYearAccepted(year: int, currentYear: int)
    ensures ValidateField(YearField, IntToString(year), currentYear).Valid? <==> 1000 <= year <= currentYear + 1
  {
    var s := IntToString(year);
    RenderedEnds(year);
    assert Trim(s) == s;
    IntToStringPrefixParses(year, []);
    assert s + [] == s;
  }

  /** The message for an update of an id no stored book has. */
  function NotFoundMessage(id: Id): string {
    "Livre non trouvé (ID: " + IdText(id) + ")"
  }

  class BookManager {
    /** `this.books`. */
    var books: seq<Book>
    /** The hits of the last OpenLibrary search, `this.apiResults`. */
    var apiResults: seq<SearchHit>
    const storage: Storage.StorageManager
    const api: Api.ApiClient?

    /** The constructor loads the stored books. */
    constructor (storage: Storage.StorageManager, api: Api.ApiClient?)
      ensures this.storage == storage && this.api == api
      ensures books == Storage.BooksOf(storage.LoadBooks()) && apiResults == []
    {
      this.storage := storage;
      this.api := api;
      books := Storage.BooksOf(storage.LoadBooks());
      apiResults := [];
    }

    /** `loadBooks()`. */
    method LoadBooks()
      modifies this`books
      ensures books == Storage.BooksOf(storage.LoadBooks())
    {
      books := Storage.BooksOf(storage.LoadBooks());
    }

    /** `saveBooks()`: the whole list is written under the books key. */
    method SaveBooks()
      modifies storage`entries
      ensures storage.entries ==
        if storage.quotaExceeded then old(storage.entries)
        else old(storage.entries)[Storage.BooksKey := Storage.BookArray(books)]
    {
      var _ := storage.SaveBooks(Storage.BookArray(books));
    }

    /** The edition lookup `createBook` and `updateBook` make for an isbn. */
    method LookUpDetails(b: Book, details: Api.FetchOutcome<Api.RawBook>) returns (e: Book)
      requires api != null
      modifies api`status
      ensures e == WithDetails(b, Api.DetailsResult(api.isOnline, details))
      ensures api.isOnline == old(api.isOnline)
      ensures api.status == Api.StatusAfter(old(api.status), api.isOnline, details)
    {
      var r := api.GetBookDetails(details);
      e := WithDetails(b, r);
    }

    /** `createBook(bookData)`, with the fresh id, the clock and the edition lookup as inputs. */
    method CreateBook(data: BookPatch, freshId: Id, now: string, details: Api.FetchOutcome<Api.RawBook>)
      returns (book: Book)
      modifies this`books, storage`entries, api
      ensures api != null ==> api.isOnline == old(api.isOnline)
      ensures var base := Created(data, freshId, now);
        book == if base.isbn != "" && api != null then WithDetails(base, Api.DetailsResult(api.isOnline, details))
                else base
      ensures books == old(books) + [book]
      ensures storage.entries ==
        if storage.quotaExceeded then old(storage.entries)
        else old(storage.entries)[Storage.BooksKey := Storage.BookArray(books)]
      ensures api != null ==>
        api.status ==
          if Created(data, freshId, now).isbn != "" then Api.StatusAfter(old(api.status), api.isOnline, details)
          else old(api.status)
    {
      book := Created(data, freshId, now);
      if book.isbn != "" && api != null {
        book := LookUpDetails(book, details);
      }
      books := books + [book];
      SaveBooks();
    }

    /** `updateBook(id, bookData)`: the first loosely matching slot is replaced. */
    method UpdateBook(id: Id, data: BookPatch, now: string, details: Api.FetchOutcome<Api.RawBook>)
      returns (r: Result<Book, string>)
      modifies this`books, storage`entries, api
      ensures api != null ==> api.isOnline == old(api.isOnline)
      ensures FindLoose(old(books), id).None? ==>
        r == Err(NotFoundMessage(id)) && books == old(books) && storage.entries == old(storage.entries)
      ensures FindLoose(old(books), id).Some? ==>
        var i := FindLoose(old(books), id).value;
        var existing := old(books)[i];
        var merged := ApplyPatch(existing, data).(lastModified := Some(now));
        var lookUp := data.isbn.Some? && data.isbn.value != "" && data.isbn.value != existing.isbn && api != null;
        && r == Ok(if lookUp then WithDetails(merged, Api.DetailsResult(api.isOnline, details)) else merged)
        && books == old(books)[i := r.value]
        && storage.entries ==
          if storage.quotaExceeded then old(storage.entries)
          else old(storage.entries)[Storage.BooksKey := Storage.BookArray(books)]
      ensures api != null ==>
        api.status ==
          if && FindLoose(old(books), id).Some?
             && data.isbn.Some? && data.isbn.value != ""
             && data.isbn.value != old(books)[FindLoose(old(books), id).value].isbn
          then Api.StatusAfter(old(api.status), api.isOnline, details)
          else old(api.status)
    {
      var index := FindLoose(books, id);
      if index.None? {
        return Err(NotFoundMessage(id));
      }
      var i := index.value;
      var existing := books[i];
      var updated := ApplyPatch(existing, data).(lastModified := Some(now));
      if data.isbn.Some? && data.isbn.value != "" && data.isbn.value != existing.isbn && api != null {
        updated := LookUpDetails(updated, details);
      }
      books := books[i := updated];
      SaveBooks();
      r := Ok(updated);
    }

    /** `deleteBook(id)`, with the user's answer to the confirmation as an input. */
    method DeleteBook(id: Id, confirmed: bool)
      modifies this`books, storage`entries
      ensures (exists i :: 0 <= i < |old(books)| && StrictEq(old(books)[i].id, id)) && confirmed ==>
        books == RemoveId(old(books), id)
        && storage.entries ==
          if storage.quotaExceeded then old(storage.entries)
          else old(storage.entries)[Storage.BooksKey := Storage.BookArray(books)]
      ensures !(exists i :: 0 <= i < |old(books)| && StrictEq(old(books)[i].id, id)) || !confirmed ==>
        books == old(books) && storage.entries == old(storage.entries)
    {
      var k := 0;
      while k < |books| && books[k].id != id
        invariant 0 <= k <= |books|
        invariant forall j :: 0 <= j < k ==> books[j].id != id
      {
        k := k + 1;
      }
      if k == |books| || !confirmed {
        return;
      }
      books := RemoveId(books, id);
      SaveBooks();
    }

    /** `searchBooks(keyword)`: the stored list itself for an empty keyword. */
    function SearchBooks(keyword: string): (r: seq<Book>)
      reads this
      ensures keyword == "" ==> r == books
      ensures keyword != "" ==> forall b :: b in r <==> b in books && Matches(b, Lower(keyword))
      ensures keyword != "" ==>
        forall b :: multiset(r)[b] == if Matches(b, Lower(keyword)) then multiset(books)[b] else 0
      ensures Subsequence(r, books)
    {
      if keyword == "" then (SubsequenceRefl(books); books) else FilterMatching(books, Lower(keyword))
    }

    /** The filtered then sorted list `renderBooksList` shows. With an empty keyword the list
        sorted in place is `this.books` itself, so the stored order changes too. */
    method ShownBooks(keyword: string, criteria: string, order: string) returns (shown: seq<Book>)
      modifies this`books
      ensures SortedBooks(shown, criteria, order)
      ensures multiset(shown) == multiset(old(SearchBooks(keyword)))
      ensures keyword == "" ==> books == shown
      ensures keyword != "" ==> books == old(books)
    {
      var view := SearchBooks(keyword);
      var a := new Book[|view|](i requires 0 <= i < |view| => view[i]);
      assert a[..] == view;
      SortBooks(a, criteria, order);
      shown := a[..];
      if keyword == "" {
        books := shown;
      }
    }

    /** `getBookStats()`: one pass over the books with three counting objects. */
    method GetBookStats() returns (stats: BookStats)
      ensures stats.total == |books|
      ensures stats.available == AvailableCount(books) <= stats.total
      ensures stats.genres == CountAll(GenreList(books))
      ensures stats.authors == CountAll(AuthorList(books))
      ensures stats.years == CountAll(YearList(books))
      ensures Total(stats.genres.order, stats.genres.counts) == stats.total
      ensures Total(stats.authors.order, stats.authors.counts) == stats.total
    {
      var genres: Counter<string> := Counter([], map[]);
      var authors: Counter<string> := Counter([], map[]);
      var years: Counter<int> := Counter([], map[]);
      var i := 0;
      while i < |books|
        invariant 0 <= i <= |books|
        invariant genres == CountAll(GenreList(books[..i]))
        invariant authors == CountAll(AuthorList(books[..i]))
        invariant years == CountAll(YearList(books[..i]))
      {
        var book := books[i];
        GenreCountStep(books, i);
        AuthorCountStep(books, i);
        YearCountStep(books, i);
        genres := Bump(genres, book.genre);
        authors := Bump(authors, book.author);
        if TruthyNum(book.year) {
          years := Bump(years, book.year.value);
        }
        i := i + 1;
      }
      assert books[..i] == books;
      CountAllTotal(GenreList(books));
      CountAllTotal(AuthorList(books));
      stats := BookStats(|books|, AvailableCount(books), genres, authors, years);
    }

    /** `importAPIResult(index)`: the hit at `index`, if any, becomes a new book. */
    method ImportApiResult(index: int, currentYear: int, freshId: Id, now: string,
                           details: Api.FetchOutcome<Api.RawBook>) returns (imported: Option<Book>)
      modifies this`books, storage`entries, api
      ensures api != null ==> api.isOnline == old(api.isOnline)
      ensures !(0 <= index < |apiResults|) ==>
        imported.None? && books == old(books) && storage.entries == old(storage.entries)
      ensures 0 <= index < |apiResults| ==>
        var base := Created(ImportedBookData(apiResults[index], currentYear), freshId, now);
        && imported == Some(if base.isbn != "" && api != null
                            then WithDetails(base, Api.DetailsResult(api.isOnline, details)) else base)
        && books == old(books) + [imported.value]
        && imported.value.title != "" && imported.value.available && imported.value.enrichedFromAPI
        && imported.value.id == freshId
        && storage.entries ==
          if storage.quotaExceeded then old(storage.entries)
          else old(storage.entries)[Storage.BooksKey := Storage.BookArray(books)]
      ensures api != null ==>
        api.status ==
          if 0 <= index < |apiResults| && Created(ImportedBookData(apiResults[index], currentYear), freshId, now).isbn != ""
          then Api.StatusAfter(old(api.status), api.isOnline, details)
          else old(api.status)
    {
      if !(0 <= index < |apiResults|) {
        return None;
      }
      var hit := apiResults[index];
      var book := CreateBook(ImportedBookData(hit, currentYear), freshId, now, details);
      imported := Some(book);
    }
  }

  lemma {:induction false} SubsequenceRefl<T>(xs: seq<T>)
    ensures Subsequence(xs, xs)
  {
    if xs != [] {
      SubsequenceRefl(xs[1..]);
    }
  }

  /** A book kept by a search is a stored book: the search never invents or alters records. */
  lemma SearchKeepsRecords(xs: seq<Book>, term: string, b: Book)
    requires b in FilterMatching(xs, term)
    ensures b in xs && Matches(b, term)
  {
  }

  /** Deleting with the text of a numeric id removes nothing: the strict comparison fails. */
  lemma TextIdDeletesNoNumericBook(xs: seq<Book>, n: int)
    requires forall b :: b in xs ==> b.id.Num?
    ensures RemoveId(xs, Str(IdText(Num(n)))) == xs
  {
  }

  /** Saving the list and reading it back gives the same books. */
  lemma SavedBooksReload(m: map<string, Storage.Value>, books: seq<Book>)
    ensures Storage.BooksOf(Storage.LoadOrEmpty(m[Storage.BooksKey := Storage.BookArray(books)], Storage.BooksKey))
      == books
  {
    Storage.BooksRoundTrip(books);
  }
}
