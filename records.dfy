/** The records the catalogue keeps and exchanges: ids, books, authors, and the
    normalised OpenLibrary records. */
module Records {
  import opened Wrappers
  import opened Text

  /** A record id: the sample data uses numbers, generated ids and DOM attributes are strings. */
  datatype Id = Num(n: int) | Str(s: string)

  /** JavaScript's `a == b` on ids: a string compared with a number is first converted
      with `Number(...)`. */
  predicate LooseEq(a: Id, b: Id) {
    match (a, b)
    case (Num(x), Num(y)) => x == y
    case (Str(x), Str(y)) => x == y
    case (Num(x), Str(y)) => ParseDecimal(y) == Some(x)
    case (Str(x), Num(y)) => ParseDecimal(x) == Some(y)
  }

  /** JavaScript's `a === b` on ids: same type and same value. */
  predicate StrictEq(a: Id, b: Id) {
    a == b
  }

  /** `'' + id`, the id as it appears in a message or a DOM attribute. */
  function IdText(id: Id): (t: string)
    ensures id.Str? ==> t == id.s
  {
    match id
    case Num(n) => IntToString(n)
    case Str(s) => s
  }

  lemma StrictEqIsLoose(a: Id, b: Id)
    requires StrictEq(a, b)
    ensures LooseEq(a, b)
  {
  }

  lemma LooseEqSymmetric(a: Id, b: Id)
    ensures LooseEq(a, b) <==> LooseEq(b, a)
  {
  }

  /** A numeric id read back from the text the DOM holds for it is loosely, never strictly,
      equal to the id. */
  lemma RenderedIdLooselyEqual(n: int)
    ensures LooseEq(Num(n), Str(IdText(Num(n))))
    ensures !StrictEq(Num(n), Str(IdText(Num(n))))
  {
    IntToStringParses(n);
  }

  /** A calendar date; JavaScript compares dates by their time value, which on dates
      without a time of day is the order of (year, month, day). */
  datatype Date = Date(year: int, month: int, day: int)

  predicate DateBefore(a: Date, b: Date) {
    a.year < b.year
    || (a.year == b.year && (a.month < b.month || (a.month == b.month && a.day < b.day)))
  }

  /** `Boolean(s)` for an optional text: absent and empty texts are falsy. */
  predicate TruthyText(o: Option<string>) {
    o.Some? && o.value != ""
  }

  /** `Boolean(n)` for an optional number: absent and zero are falsy. */
  predicate TruthyNum(o: Option<int>) {
    o.Some? && o.value != 0
  }

  /** A normalised OpenLibrary search hit. Absent and null fields are both `None`. */
  datatype SearchHit = SearchHit(
    key: Option<string>,
    title: string,
    authors: seq<string>,
    publishYear: Option<int>,
    isbn: Option<string>,
    subjects: seq<string>,
    coverUrl: Option<string>)

  /** A normalised OpenLibrary edition record. */
  datatype BookDetail = BookDetail(
    title: string,
    authors: seq<Option<string>>,
    publishDate: Option<string>,
    publishers: seq<string>,
    description: Option<string>,
    subjects: seq<string>,
    isbn: Option<seq<string>>,
    pages: Option<int>,
    coverUrl: Option<string>)

  /** A normalised OpenLibrary author record. */
  datatype AuthorDetail = AuthorDetail(
    name: string,
    birthDate: Option<string>,
    deathDate: Option<string>,
    biography: Option<string>,
    photoUrl: Option<string>,
    alternateNames: seq<string>)

  /** A book of the collection. Optional fields are `None` when absent or null. */
  datatype Book = Book(
    id: Id,
    title: string,
    author: string,
    isbn: string,
    genre: string,
    year: Option<int>,
    rating: Option<int>,
    description: Option<string>,
    available: bool,
    dateAdded: string,
    lastModified: Option<string>,
    coverUrl: Option<string>,
    enrichedData: Option<BookDetail>,
    apiSubjects: Option<seq<string>>,
    publishers: Option<seq<string>>,
    enrichedFromAPI: bool,
    lastEnriched: Option<string>)

  /** An object spread over a book (`{...book, ...patch}`): each present field overrides. */
  datatype BookPatch = BookPatch(
    id: Option<Id>,
    title: Option<string>,
    author: Option<string>,
    isbn: Option<string>,
    genre: Option<string>,
    year: Option<Option<int>>,
    rating: Option<Option<int>>,
    description: Option<Option<string>>,
    available: Option<bool>,
    dateAdded: Option<string>,
    lastModified: Option<Option<string>>,
    coverUrl: Option<Option<string>>,
    enrichedData: Option<Option<BookDetail>>,
    apiSubjects: Option<Option<seq<string>>>,
    publishers: Option<Option<seq<string>>>,
    enrichedFromAPI: Option<bool>,
    lastEnriched: Option<Option<string>>)

  /** `{...b, ...p}`. */
  function ApplyPatch(b: Book, p: BookPatch): Book {
    Book(
      p.id.GetOr(b.id), p.title.GetOr(b.title), p.author.GetOr(b.author),
      p.isbn.GetOr(b.isbn), p.genre.GetOr(b.genre), p.year.GetOr(b.year),
      p.rating.GetOr(b.rating), p.description.GetOr(b.description),
      p.available.GetOr(b.available), p.dateAdded.GetOr(b.dateAdded),
      p.lastModified.GetOr(b.lastModified), p.coverUrl.GetOr(b.coverUrl),
      p.enrichedData.GetOr(b.enrichedData), p.apiSubjects.GetOr(b.apiSubjects),
      p.publishers.GetOr(b.publishers), p.enrichedFromAPI.GetOr(b.enrichedFromAPI),
      p.lastEnriched.GetOr(b.lastEnriched))
  }

  /** A whole book used as the spread object: every field present. */
  function PatchOf(b: Book): BookPatch {
    BookPatch(
      Some(b.id), Some(b.title), Some(b.author), Some(b.isbn), Some(b.genre), Some(b.year),
      Some(b.rating), Some(b.description), Some(b.available), Some(b.dateAdded),
      Some(b.lastModified), Some(b.coverUrl), Some(b.enrichedData), Some(b.apiSubjects),
      Some(b.publishers), Some(b.enrichedFromAPI), Some(b.lastEnriched))
  }

  /** The empty spread object. */
  const NoChange := BookPatch(
    None, None, None, None, None, None, None, None, None, None, None, None, None, None,
    None, None, None)

  /** The object the book form yields: the eight edited fields. */
  function FormPatch(
    title: string, author: string, isbn: string, genre: string, year: Option<int>,
    rating: Option<int>, description: string, available: bool): BookPatch
  {
    NoChange.(
      title := Some(title), author := Some(author), isbn := Some(isbn), genre := Some(genre),
      year := Some(year), rating := Some(rating), description := Some(Some(description)),
      available := Some(available))
  }

  /** A book made of the fields of a spread object alone; fields it lacks are absent. */
  function BlankBook(id: Id): Book {
    Book(id, "", "", "", "", None, None, None, false, "", None, None, None, None, None, false, None)
  }

  lemma ApplyPatchOf(b: Book, c: Book)
    ensures ApplyPatch(b, PatchOf(c)) == c
  {
  }

  lemma ApplyNoChange(b: Book)
    ensures ApplyPatch(b, NoChange) == b
  {
  }

  /** A book kept in the collection used as the spread object. The keys that only a lookup
      writes (`enrichedData`, `apiSubjects`, `publishers`) are absent when the book lacks
      them; every other field is present. */
  function SpreadOf(b: Book): (p: BookPatch)
    ensures ApplyPatch(b, p) == b
  {
    PatchOf(b).(
      enrichedData := if b.enrichedData.Some? then Some(b.enrichedData) else None,
      apiSubjects := if b.apiSubjects.Some? then Some(b.apiSubjects) else None,
      publishers := if b.publishers.Some? then Some(b.publishers) else None)
  }

  /** Spreading `b` over a slot yields `b`, except that the slot keeps its own looked-up
      data where `b` has none. */
  lemma SpreadOver(slot: Book, b: Book)
    ensures ApplyPatch(slot, SpreadOf(b)).(enrichedData := b.enrichedData, apiSubjects := b.apiSubjects,
                                           publishers := b.publishers) == b
    ensures ApplyPatch(slot, SpreadOf(b)).enrichedData == if b.enrichedData.Some? then b.enrichedData else slot.enrichedData
    ensures ApplyPatch(slot, SpreadOf(b)).apiSubjects == if b.apiSubjects.Some? then b.apiSubjects else slot.apiSubjects
    ensures ApplyPatch(slot, SpreadOf(b)).publishers == if b.publishers.Some? then b.publishers else slot.publishers
  {
  }

  /** An author of the collection. */
  datatype Author = Author(
    id: Id,
    name: string,
    nationality: string,
    birthDate: Option<Date>,
    biography: string,
    photoUrl: Option<string>,
    dateAdded: string,
    lastModified: Option<string>,
    bookCount: Option<int>)

  /** The object the author form yields. */
  datatype AuthorData = AuthorData(
    name: string,
    nationality: string,
    birthDate: Option<Date>,
    biography: string)
}
