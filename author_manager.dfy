/** The author collection: create, update and delete on the stored list, the
    case-insensitive book count, the statistics and the form rules. */
module Authors {
  import opened Wrappers
  import opened Text
  import opened Records
  import opened Counting
  import Storage
  import Books

  /** `{id, ...authorData, dateAdded, lastModified, bookCount: 0}`. */
  function NewAuthor(data: AuthorData, freshId: Id, now: string): (a: Author)
    ensures a.id == freshId && a.bookCount == Some(0)
    ensures a.name == data.name && a.nationality == data.nationality
    ensures a.birthDate == data.birthDate && a.biography == data.biography
    ensures a.dateAdded == now && a.lastModified == Some(now) && a.photoUrl.None?
  {
    Author(freshId, data.name, data.nationality, data.birthDate, data.biography, None, now, Some(now), Some(0))
  }

  /** `{...existing, ...authorData, lastModified}`: the form's four fields replace the old ones. */
  function MergeAuthor(existing: Author, data: AuthorData, now: string): (a: Author)
    ensures a.id == existing.id && a.dateAdded == existing.dateAdded
    ensures a.photoUrl == existing.photoUrl && a.bookCount == existing.bookCount
    ensures a.name == data.name && a.nationality == data.nationality
    ensures a.birthDate == data.birthDate && a.biography == data.biography
    ensures a.lastModified == Some(now)
  {
    existing.(name := data.name, nationality := data.nationality, birthDate := data.birthDate,
              biography := data.biography, lastModified := Some(now))
  }

  /** `findIndex(author => author.id === id)`. */
  function FindStrict(authors: seq<Author>, id: Id): (r: Option<nat>)
    ensures r.Some? ==> r.value < |authors| && authors[r.value].id == id
    ensures r.Some? ==> forall j :: 0 <= j < r.value ==> authors[j].id != id
    ensures r.None? ==> forall j :: 0 <= j < |authors| ==> authors[j].id != id
  {
    if authors == [] then None
    else if authors[0].id == id then Some(0)
    else
      match FindStrict(authors[1..], id)
      case None => None
      case Some(k) => Some(k + 1)
  }

  /** `authors.filter(a => a.id !== id)`. */
  function RemoveAuthor(authors: seq<Author>, id: Id): (r: seq<Author>)
    ensures |r| <= |authors|
    ensures forall a :: a in r ==> a in authors && a.id != id
    ensures forall a :: a in authors && a.id != id ==> a in r
    ensures (forall a :: a in authors ==> a.id != id) ==> r == authors
    ensures Books.Subsequence(r, authors)
    ensures forall a :: multiset(r)[a] == if a.id != id then multiset(authors)[a] else 0
  {
    Books.FilterMembers(authors, (a: Author) => a.id != id);
    Books.Filter(authors, (a: Author) => a.id != id)
  }

  /** The number of books whose author equals `name` once both are lower-cased. */
  function BooksBy(books: seq<Book>, name: string): (n: nat)
    ensures n <= |books|
    ensures n == 0 <==> forall i :: 0 <= i < |books| ==> Lower(books[i].author) != Lower(name)
  {
    if books == [] then 0
    else (if Lower(books[0].author) == Lower(name) then 1 else 0) + BooksBy(books[1..], name)
  }

  /** `getAuthorBookCount(name)`: 0 when no book collection is loaded. */
  function AuthorBookCount(name: string, catalogue: Option<seq<Book>>): (n: nat)
    ensures catalogue.None? ==> n == 0
    ensures catalogue.Some? ==> n == BooksBy(catalogue.value, name) && n <= |catalogue.value|
  {
    match catalogue
    case None => 0
    case Some(books) => BooksBy(books, name)
  }

  lemma LowerIdempotent(s: string)
    ensures Lower(Lower(s)) == Lower(s)
  {
  }

  /** The count ignores the case of the name asked for: a lower-cased name counts the same books. */
  lemma {:induction false} BookCountIgnoresCase(books: seq<Book>, name: string)
    ensures BooksBy(books, Lower(name)) == BooksBy(books, name)
  {
    LowerIdempotent(name);
    if books != [] {
      BookCountIgnoresCase(books[1..], name);
    }
  }

  /** The five age groups of `getAuthorStats`. */
  datatype AgeGroup = Under30 | From30To50 | From50To70 | Over70 | UnknownAge

  /** The group of an author: by `currentYear - birth year`, or unknown without a birth date. */
  function AgeGroupOf(a: Author, currentYear: int): (g: AgeGroup)
    ensures g == UnknownAge <==> a.birthDate.None?
    ensures g == Under30 <==> a.birthDate.Some? && currentYear - a.birthDate.value.year < 30
    ensures g == From30To50 <==> a.birthDate.Some? && 30 <= currentYear - a.birthDate.value.year < 50
    ensures g == From50To70 <==> a.birthDate.Some? && 50 <= currentYear - a.birthDate.value.year < 70
    ensures g == Over70 <==> a.birthDate.Some? && currentYear - a.birthDate.value.year >= 70
  {
    match a.birthDate
    case None => UnknownAge
    case Some(d) =>
      var age := currentYear - d.year;
      if age < 30 then Under30
      else if age < 50 then From30To50
      else if age < 70 then From50To70
      else Over70
  }

  /** The number of authors in group `g`. */
  function InGroup(authors: seq<Author>, g: AgeGroup, currentYear: int): (n: nat)
    ensures n <= |authors|
  {
    if authors == [] then 0
    else
      InGroup(authors[..|authors| - 1], g, currentYear)
      + (if AgeGroupOf(authors[|authors| - 1], currentYear) == g then 1 else 0)
  }

  /** The age groups partition the authors: the five counts add up to the number of authors. */
  lemma {:induction false} AgeGroupsPartition(authors: seq<Author>, currentYear: int)
    ensures InGroup(authors, Under30, currentYear) + InGroup(authors, From30To50, currentYear)
      + InGroup(authors, From50To70, currentYear) + InGroup(authors, Over70, currentYear)
      + InGroup(authors, UnknownAge, currentYear) == |authors|
  {
    if authors != [] {
      AgeGroupsPartition(authors[..|authors| - 1], currentYear);
    }
  }

  /** `author.nationality || 'Non renseignée'`. */
  function NationalityOf(a: Author): (n: string)
    ensures n != ""
    ensures a.nationality != "" ==> n == a.nationality
  {
    if a.nationality != "" then a.nationality else "Non renseignée"
  }

  function NationalityList(authors: seq<Author>): (ns: seq<string>)
    ensures |ns| == |authors| && forall i :: 0 <= i < |authors| ==> ns[i] == NationalityOf(authors[i])
  {
    seq(|authors|, i requires 0 <= i < |authors| => NationalityOf(authors[i]))
  }

  /** The age group counters of `getAuthorStats`. */
  datatype AgeGroups = AgeGroups(under30: nat, from30To50: nat, from50To70: nat, over70: nat, unknown: nat)

  function Tally(groups: AgeGroups, g: AgeGroup): AgeGroups {
    match g
    case Under30 => groups.(under30 := groups.under30 + 1)
    case From30To50 => groups.(from30To50 := groups.from30To50 + 1)
    case From50To70 => groups.(from50To70 := groups.from50To70 + 1)
    case Over70 => groups.(over70 := groups.over70 + 1)
    case UnknownAge => groups.(unknown := groups.unknown + 1)
  }

  /** The counters after grouping every author. */
  function GroupCounts(authors: seq<Author>, currentYear: int): (c: AgeGroups)
    ensures c.under30 == InGroup(authors, Under30, currentYear)
    ensures c.from30To50 == InGroup(authors, From30To50, currentYear)
    ensures c.from50To70 == InGroup(authors, From50To70, currentYear)
    ensures c.over70 == InGroup(authors, Over70, currentYear)
    ensures c.unknown == InGroup(authors, UnknownAge, currentYear)
  {
    AgeGroups(
      InGroup(authors, Under30, currentYear), InGroup(authors, From30To50, currentYear),
      InGroup(authors, From50To70, currentYear), InGroup(authors, Over70, currentYear),
      InGroup(authors, UnknownAge, currentYear))
  }

  /** One more author adds its nationality to the count. */
  lemma NationalityStep(authors: seq<Author>, i: nat)
    requires i < |authors|
    ensures CountAll(NationalityList(authors[..i + 1]))
      == Bump(CountAll(NationalityList(authors[..i])), NationalityOf(authors[i]))
  {
    assert NationalityList(authors[..i + 1]) == NationalityList(authors[..i]) + [NationalityOf(authors[i])];
    CountAllSnoc(NationalityList(authors[..i]), NationalityOf(authors[i]));
  }

  /** One more author adds one to its age group. */
  lemma GroupStep(authors: seq<Author>, i: nat, currentYear: int)
    requires i < |authors|
    ensures GroupCounts(authors[..i + 1], currentYear)
      == Tally(GroupCounts(authors[..i], currentYear), AgeGroupOf(authors[i], currentYear))
  {
    var a := authors[..i + 1];
    assert a[..|a| - 1] == authors[..i] && a[|a| - 1] == authors[i];
  }

  datatype AuthorStats = AuthorStats(total: nat, nationalities: Counter<string>, ageGroups: AgeGroups)

  /** The fields of the author form that `validateField` checks. */
  datatype AuthorField = NameField | BirthDateField | OtherField

  datatype FieldCheck = Valid | Invalid(message: string)

  /** `maxDate`: today with the year set back by ten. */
  function TenYearsBefore(today: Date): Date {
    today.(year := today.year - 10)
  }

  /** `validateField(fieldId)`: `raw` is the field's text and `parsed` the date `new Date(value)`
      yields for it, `None` for an invalid date. */
  function ValidateField(field: AuthorField, raw: string, parsed: Option<Date>, today: Date): (v: FieldCheck)
    ensures field == NameField ==> (v.Valid? <==> |Trim(raw)| >= 2)
    ensures field == BirthDateField ==>
      (v.Valid? <==> Trim(raw) == "" || parsed.None? || !DateBefore(TenYearsBefore(today), parsed.value))
    ensures field == OtherField ==> v.Valid?
  {
    var value := Trim(raw);
    match field
    case NameField =>
      if value == "" then Invalid("Le nom de l'auteur est requis")
      else if |value| < 2 then Invalid("Le nom doit contenir au moins 2 caractères")
      else Valid
    case BirthDateField =>
      if value == "" || parsed.None? then Valid
      else if DateBefore(today, parsed.value) then Invalid("La date de naissance ne peut pas être dans le futur")
      else if DateBefore(TenYearsBefore(today), parsed.value) then Invalid("L'auteur doit avoir au moins 10 ans")
      else Valid
    case OtherField => Valid
  }

  /** A birth date in the future is reported as such, not as too recent. */
  lemma FutureBirthDateMessage(raw: string, d: Date, today: Date)
    requires Trim(raw) != "" && DateBefore(today, d)
    ensures ValidateField(BirthDateField, raw, Some(d), today)
      == Invalid("La date de naissance ne peut pas être dans le futur")
  {
  }

  class AuthorManager {
    /** `this.authors`. */
    var authors: seq<Author>
    const storage: Storage.StorageManager

    /** The constructor loads the stored authors. */
    constructor (storage: Storage.StorageManager)
      ensures this.storage == storage && authors == Storage.AuthorsOf(storage.LoadAuthors())
    {
      this.storage := storage;
      authors := Storage.AuthorsOf(storage.LoadAuthors());
    }

    /** `loadAuthors()`. */
    method LoadAuthors()
      modifies this`authors
      ensures authors == Storage.AuthorsOf(storage.LoadAuthors())
    {
      authors := Storage.AuthorsOf(storage.LoadAuthors());
    }

    /** `saveAuthors()`. */
    method SaveAuthors()
      modifies storage`entries
      ensures storage.entries ==
        if storage.quotaExceeded then old(storage.entries)
        else old(storage.entries)[Storage.AuthorsKey := Storage.AuthorArray(authors)]
    {
      var _ := storage.SaveAuthors(Storage.AuthorArray(authors));
    }

    /** `createAuthor(authorData)`, with the fresh id and the clock as inputs. */
    method CreateAuthor(data: AuthorData, freshId: Id, now: string) returns (author: Author)
      modifies this`authors, storage`entries
      ensures author == NewAuthor(data, freshId, now)
      ensures authors == old(authors) + [author]
      ensures storage.entries ==
        if storage.quotaExceeded then old(storage.entries)
        else old(storage.entries)[Storage.AuthorsKey := Storage.AuthorArray(authors)]
    {
      author := NewAuthor(data, freshId, now);
      authors := authors + [author];
      SaveAuthors();
    }

    /** `updateAuthor(id, authorData)`: the first strictly matching slot is replaced. */
    method UpdateAuthor(id: Id, data: AuthorData, now: string) returns (r: Result<Author, string>)
      modifies this`authors, storage`entries
      ensures FindStrict(old(authors), id).None? ==>
        r == Err("Auteur non trouvé") && authors == old(authors) && storage.entries == old(storage.entries)
      ensures FindStrict(old(authors), id).Some? ==>
        var i := FindStrict(old(authors), id).value;
        && r == Ok(MergeAuthor(old(authors)[i], data, now))
        && authors == old(authors)[i := r.value]
        && storage.entries ==
          if storage.quotaExceeded then old(storage.entries)
          else old(storage.entries)[Storage.AuthorsKey := Storage.AuthorArray(authors)]
    {
      var index := FindStrict(authors, id);
      if index.None? {
        return Err("Auteur non trouvé");
      }
      var updated := MergeAuthor(authors[index.value], data, now);
      authors := authors[index.value := updated];
      SaveAuthors();
      r := Ok(updated);
    }

    /** `deleteAuthor(id)`, with the user's answer to the confirmation as an input. */
    method DeleteAuthor(id: Id, confirmed: bool)
      modifies this`authors, storage`entries
      ensures FindStrict(old(authors), id).Some? && confirmed ==>
        authors == RemoveAuthor(old(authors), id)
        && storage.entries ==
          if storage.quotaExceeded then old(storage.entries)
          else old(storage.entries)[Storage.AuthorsKey := Storage.AuthorArray(authors)]
      ensures FindStrict(old(authors), id).None? || !confirmed ==>
        authors == old(authors) && storage.entries == old(storage.entries)
    {
      if FindStrict(authors, id).None? || !confirmed {
        return;
      }
      authors := RemoveAuthor(authors, id);
      SaveAuthors();
    }

    /** `getAuthorStats()`, with the current year as an input. */
    method GetAuthorStats(currentYear: int) returns (stats: AuthorStats)
      ensures stats.total == |authors|
      ensures stats.nationalities == CountAll(NationalityList(authors))
      ensures Total(stats.nationalities.order, stats.nationalities.counts) == stats.total
      ensures stats.ageGroups == GroupCounts(authors, currentYear)
      ensures stats.ageGroups.under30 + stats.ageGroups.from30To50 + stats.ageGroups.from50To70
        + stats.ageGroups.over70 + stats.ageGroups.unknown == stats.total
    {
      var nationalities: Counter<string> := Counter([], map[]);
      var groups := AgeGroups(0, 0, 0, 0, 0);
      var i := 0;
      while i < |authors|
        invariant 0 <= i <= |authors|
        invariant nationalities == CountAll(NationalityList(authors[..i]))
        invariant groups == GroupCounts(authors[..i], currentYear)
      {
        var author := authors[i];
        NationalityStep(authors, i);
        GroupStep(authors, i, currentYear);
        nationalities := Bump(nationalities, NationalityOf(author));
        groups := Tally(groups, AgeGroupOf(author, currentYear));
        i := i + 1;
      }
      assert authors[..i] == authors;
      CountAllCounts(NationalityList(authors));
      AgeGroupsPartition(authors, currentYear);
      stats := AuthorStats(|authors|, nationalities, groups);
    }
  }
}
