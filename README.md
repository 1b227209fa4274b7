# Bibliotheca: a verified model of the catalogue logic

Bibliotheca is a browser dashboard for a small library. It keeps a catalogue of books and authors in
the browser's local storage and enriches books from the OpenLibrary web service. It also shows
statistics: key figures, a genre chart and a histogram of publication decades.

This project models the deterministic logic under the page in Dafny and proves what that logic
promises:

- **OpenLibrary client** (`api_client.dfy`, module `Api`):
  - normalisation of search documents, edition records and author records into fixed records;
  - the error message shown for a failed request;
  - the merge of remote data into a local book;
  - the offline pre-check of the request methods;
  - the subject and decade statistics over search hits.
- **ISBN validation** (`isbn.dfy`, module `Isbn`): the ISBN-10 and ISBN-13 check-digit rules of the
  book form, written as the loops the page runs and proved equal to the ISO 2108 rules.
- **Book collection** (`book_manager.dfy`, module `Books`):
  - create, update and delete on the stored list;
  - the local search and the comparator sort (`sorting.dfy`, module `Sorting`);
  - the per-field statistics;
  - the import of a search hit;
  - the title, ISBN, genre and year rules of the form.
- **Author collection** (`author_manager.dfy`, module `Authors`):
  - create, update and delete;
  - the case-insensitive book count;
  - nationality and age-group statistics;
  - the name and birth-date rules of the form.
- **Dashboard** (`dashboard_manager.dfy`, module `Dashboard`):
  - the most popular genre;
  - the genre chart and decade histogram data;
  - the general statistics in integer arithmetic;
  - the step of the counter animation;
  - the batch auto-enrichment loop.
- **Storage gateway** (`storage_manager.dfy`, module `Storage`): a key-value store with save, load,
  remove, clear, seeding, import and reset, and a quota flag under which every write fails.
- **Application shell** (`app.js` → `app.dfy`, module `App`): the current section, the keyboard
  shortcuts, initialisation and the import of a saved collection.

Shared modules:

- `wrappers.dfy`: `Option` and `Result`.
- `text.dfy`: decimal rendering and `parseInt`, `trim`, ASCII lower-casing, `includes`, and string
  ordering.
- `counting.dfy`: counting objects filled in insertion order, and a stable sort by a rank.
- `records.dfy`: ids, books, authors and the normalised remote records.

How the browser is abstracted:

- Each remote request is a parameter: the outcome of the HTTP exchange, or a function from ISBN or
  title to that outcome.
- The clock, fresh ids, the user's answer to a confirmation and the current year are parameters.
- JSON serialisation is the identity on a `Value` datatype.
- A record id is `Num(int) | Str(string)`, with JavaScript's loose `==` (`Records.LooseEq`) and
  strict `===` (`Records.StrictEq`) kept apart, as the code uses both.

## Model

| member | source | states |
|---|---|---|
| Api.Unwrap | js/api-client.js:209-210 | a string description is kept, an object gives its `.value`, an absent or empty one gives null |
| Api.ProcessDoc | js/api-client.js:179-195 | one normalised hit: the title defaults to 'Titre inconnu' and the authors to ['Auteur inconnu']; the year is kept only when truthy; the isbn is the first of the list or null; at most the first five subjects, else []; the cover URL is built from a truthy `cover_i`, else null |
| Api.ProcessSearchResults | js/api-client.js:178-196 | one hit per document, in the same order, each the normalisation of its document |
| Api.CoverUrlNamesId | js/api-client.js:180 | a cover URL is the prefix, the decimal id and the suffix, and the id parses back from it |
| Api.CoverUrlInjective | js/api-client.js:180 | documents with different truthy cover ids get different cover URLs |
| Api.ProcessBookDetails | js/api-client.js:203-216 | the edition record: the title default; the authors, or a single unknown author; the description unwrapped; `isbn_10` preferred over `isbn_13`; pages only when truthy; the cover URL from the first id of `covers` whenever `covers` is present |
| Api.EmptyCoversGiveUndefinedUrl | js/api-client.js:214 | an empty `covers` list still yields a cover URL, for the image 'undefined' |
| Api.ProcessAuthorInfo | js/api-client.js:223-233 | the author record: the name defaults to 'Nom inconnu'; dates are kept only when truthy; the bio is unwrapped; the photo URL comes from the first id of `photos`; the alternate names default to [] |
| Api.EnrichLocalData | js/api-client.js:241-269 | a non-empty local cover or description is never overwritten, and the remote value is copied only into an empty one; subjects and publishers are set only from a non-empty remote list; every other field is unchanged; `enrichedFromAPI` is true and `lastEnriched` is the new time |
| Api.EnrichIdempotent | js/api-client.js:241-269 | enriching twice with the same data equals enriching once at the later time |
| Api.ErrorMessage | js/api-client.js:275-291 | each of the five messages is chosen exactly in priority order: abort, then 'HTTP 404', then 'HTTP 429', then offline, then the generic message |
| Api.NotFoundBeatsOffline | js/api-client.js:144-146 | a 404 response, rendered as 'HTTP 404: text', is reported as not found even when offline |
| Api.Fetch | js/api-client.js:132-153 | an aborted request rejects with an AbortError; a status outside 200-299 rejects with 'HTTP status: text'; a success carries the parsed body |
| Api.SearchResult | js/api-client.js:34-54 | offline, the search rejects with 'Connexion Internet requise' before any request; online, it succeeds exactly when the request does, with one hit per document of `docs` (or none) |
| Api.DetailsResult | js/api-client.js:89-103 | offline, it rejects before any request; online, it succeeds exactly when the request does |
| Api.Decade | js/api-client.js:378 | `floor(year/10)*10` is the multiple of ten at or below the year, less than ten below it |
| Api.TopGenres | js/api-client.js:385-388 | five entries, or one per subject when there are fewer than five |
| Api.TopGenresComplete | js/api-client.js:385-388 | a subject left out of the top entries means five were kept, each with a count at least that subject's |
| Api.TopGenresOmitted | js/api-client.js:385-388 | a subject absent from the top entries is absent from the first five entries of the sorted count |
| Api.TopGenresHead | js/api-client.js:385-388 | when any genre was counted, the first top entry exists and its count is at least the count of every genre key |
| Api.TopGenresSound | js/api-client.js:365-388 | the top entries have non-increasing counts, and each is a subject of the hits with its exact number of occurrences |
| Api.TopGenreIsMostFrequent | js/api-client.js:385-388 | the first entry's count is at least the count of any subject |
| Api.ApiClient.constructor | js/api-client.js:5-11 | the client starts with the given connection state and an unknown status |
| Api.ApiClient.GoOnline | js/api-client.js:17-20 | the `online` listener sets the flag and the status |
| Api.ApiClient.GoOffline | js/api-client.js:22-25 | the `offline` listener clears the flag and sets the status |
| Api.ApiClient.HandleApiError | js/api-client.js:275-291 | the status panel shows the classified message |
| Api.ApiClient.SearchBooks | js/api-client.js:34-82 | the result is `SearchResult`; offline, the status is untouched (`handleAPIError` is not called); online, a failure goes through `handleAPIError` |
| Api.ApiClient.GetBookDetails | js/api-client.js:89-103 | the result is `DetailsResult`, with the same offline and error-handling rules |
| Api.StatusAfter | js/api-client.js:275-291 | the status panel after one request: unchanged offline or on success; after an online failure, one of the four online messages, the one `handleAPIError` classifies |
| Api.ApiClient.GetAuthorInfo | js/api-client.js:110-124 | the same rules for the author record |
| Api.ApiClient.GetApiStats | js/api-client.js:360-395 | null exactly when the search for 'popular' fails, otherwise the statistics of its hits; the status panel takes the classified message exactly when an online search fails, and is otherwise kept |
| Api.AggregateStats | js/api-client.js:365-390 | the loop yields `totalResults` equal to the number of hits, the top subjects of all hit subjects, and decade counts of the truthy years, all keyed by multiples of ten |
| Api.HitStep | js/api-client.js:368-381 | one more hit appends its subjects, and its decade when the year is truthy |
| Api.CountSubjects | js/api-client.js:370-374 | the inner loop over one hit's subjects leaves the genre count equal to the count of every subject seen so far followed by this hit's subjects |
| Api.DecadeCountStep | js/api-client.js:377-380 | one more hit adds one to the count of its decade exactly when its year is truthy, and leaves the decade count unchanged otherwise |
| Api.DecadeCounts | js/api-client.js:377-380 | every key of the year distribution is a multiple of ten and was counted at least once |
| Api.DecadesAreDecades | js/api-client.js:377-380 | every counted decade is a multiple of ten |
| Isbn.ValidateIsbn10 | js/book-manager.js:234-251 | the loop accepts exactly nine digits, then a digit or an upper-case 'X', with weighted sum (weights 10..1) divisible by 11 |
| Isbn.ValidateIsbn13 | js/book-manager.js:258-269 | the loop accepts exactly twelve digits followed by the digit `(10 - sum mod 10) mod 10` (weights 1, 3, 1, ...) |
| Isbn.Clean | js/book-manager.js:213 | the cleaned text keeps no hyphen and no white space |
| Isbn.CleanConcat | js/book-manager.js:213 | cleaning distributes over concatenation, so it keeps every other character in order |
| Isbn.CleanKeeps | js/book-manager.js:213 | a text without hyphens and white space is already clean |
| Isbn.ValidateIsbn | js/book-manager.js:212-227 | the cleaned length dispatches: 10 to the ISBN-10 check, 13 to the ISBN-13 check, anything else is false |
| Isbn.Check10 | js/book-manager.js:241-250 | the check character of nine digits is a digit or 'X' |
| Isbn.Isbn10Completion | js/book-manager.js:234-251 | nine digits and one more character form a valid ISBN-10 exactly when that character is their check character |
| Isbn.LowercaseXRejected | js/book-manager.js:242 | a lower-case 'x' check character makes the ISBN invalid, both alone and through `validateISBN` |
| Isbn.CleanLengthFull | js/book-manager.js:213 | cleaning that removes nothing means there was nothing to remove |
| Isbn.Isbn13IsEan13 | js/book-manager.js:258-269 | the ISBN-13 rule is the EAN-13 rule: all thirteen digits weighted 1, 3, ... sum to a multiple of 10 |
| Isbn.Check13 | js/book-manager.js:266-268 | the check digit of twelve digits is a digit |
| Isbn.Isbn13Completion | js/book-manager.js:258-269 | twelve digits and one more character form a valid ISBN-13 exactly when that character is their check digit |
| Isbn.Weighted10Change | js/book-manager.js:236-239 | changing one digit shifts the weighted sum by the difference times its weight |
| Isbn.Weighted13Change | js/book-manager.js:260-263 | the same for the ISBN-13 weights |
| Isbn.NoMultipleOf11 | js/book-manager.js:250 | a non-zero digit difference times a weight from 2 to 10 is not a multiple of 11 |
| Isbn.NoMultipleOf10 | js/book-manager.js:262-268 | changing one digit, weighted 1 or 3, of a sum that is a multiple of ten yields a sum that is not |
| Isbn.Isbn10DetectsSingleError | js/book-manager.js:234-251 | a valid ISBN-10 with one of its nine leading digits changed is rejected |
| Isbn.Isbn13DetectsSingleError | js/book-manager.js:258-269 | a valid ISBN-13 with one of its twelve leading digits changed is rejected |
| Isbn.DigitsClean | js/book-manager.js:213 | a run of digits is unchanged by cleaning |
| Isbn.SampleIsbnValid | js/sample-data.js:19 | the sample ISBN of "1984", hyphens removed, passes the ISBN-13 check |
| Isbn.SampleIsbnInvalid | js/sample-data.js:6 | the sample ISBN of "Le Petit Prince", hyphens removed, fails the ISBN-13 check (2 is expected, 8 is written) |
| Records.IdText | js/book-manager.js:508 | a string id renders as itself |
| Records.StrictEqIsLoose | js/book-manager.js:473 | strict equality of ids implies loose equality |
| Records.LooseEqSymmetric | js/book-manager.js:473 | loose equality of ids is symmetric |
| Records.RenderedIdLooselyEqual | js/book-manager.js:473 | a numeric id equals its rendered text loosely but never strictly |
| Records.ApplyPatchOf | js/book-manager.js:481-485 | spreading an object that carries every key of a book over another book yields that book; the spread the enrichment makes is Records.SpreadOf instead, whose object may lack keys the slot has |
| Records.SpreadOf | js/dashboard-manager.js:459-460 | the enriched copy as `updateBook` spreads it, without the looked-up keys it lacks; spread over the book it came from it changes nothing |
| Records.SpreadOver | js/book-manager.js:481-485 | spreading a book over another slot yields that book, except that the slot keeps its own `enrichedData`, `apiSubjects` and `publishers` where the book has none |
| Records.ApplyNoChange | js/book-manager.js:481-485 | spreading the empty object changes nothing |
| Books.Created | js/book-manager.js:440-445 | a new book takes the given id if the data carries one, otherwise the fresh id, and both timestamps |
| Books.WithDetails | js/book-manager.js:448-456 | a failed lookup leaves the book unchanged; a successful one sets `enrichedData` and `coverUrl` and nothing else |
| Books.FindLoose | js/book-manager.js:473 | the first position whose id is loosely equal, or none when no id is |
| Books.RemoveId | js/book-manager.js:513 | the records whose id is not strictly equal, in their order (a subsequence) and each as many times as before, the others not at all, and the list itself when none matches |
| Books.FilterMatching | js/book-manager.js:534-541 | exactly the books that match the lower-cased term, as a subsequence of the list, each matching record as many times as it is stored |
| Books.Filter | js/book-manager.js:513 | the kept elements of a list in their order (a subsequence), each as many times as before, the dropped ones not at all, and the list itself when every element is kept |
| Books.FilterMembers | js/book-manager.js:534-541 | an element is in the filtered list exactly when it is in the list and is kept |
| Books.SortKeyOf | js/book-manager.js:803-823 | the 'year' criterion reads `publishYear`, which local books lack, so the key is 0; other criteria compare lower-cased text |
| Books.Compare | js/book-manager.js:825-827 | the comparator returns -1, 0 or 1 |
| Books.KeyLessAsymmetric | js/book-manager.js:825-826 | the key order is asymmetric |
| Books.KeyLessTransitive | js/book-manager.js:825-826 | the key order is transitive |
| Books.KeyTotal | js/book-manager.js:825-827 | two keys of the same kind are equal or ordered |
| Books.CompareFlip | js/book-manager.js:825-827 | a pair out of order is in order once swapped |
| Books.InOrderTransitive | js/book-manager.js:825-827 | being in order is transitive, for either direction |
| Books.YearKeysTie | js/book-manager.js:812-815 | under 'year' every pair of books compares equal |
| Books.BookComparatorConsistent | js/book-manager.js:799-829 | the comparator is one `Array.prototype.sort` can rely on |
| Books.SortBooks | js/book-manager.js:799-829 | the array is sorted in place by the comparator and is a permutation of its old contents; when every pair ties (the 'year' criterion) the order is unchanged |
| Books.GenreList | js/book-manager.js:1109 | one genre per book, in order |
| Books.AuthorList | js/book-manager.js:1112 | one author per book, in order |
| Books.AvailableCount | js/book-manager.js:1101 | at most the number of books, and equal to it exactly when every book is available |
| Books.YearListLength | js/book-manager.js:1115-1117 | falsy years are skipped: the year list is no longer than the books, and as long exactly when every year is truthy |
| Books.YearStep | js/book-manager.js:1107-1118 | one more book appends its year when it is truthy |
| Books.GenreCountStep | js/book-manager.js:1109 | one more book adds one to the count of its genre, and the genre count stays the count of the genres of the books seen |
| Books.AuthorCountStep | js/book-manager.js:1112 | one more book adds one to the count of its author, and the author count stays the count of the authors of the books seen |
| Books.YearCountStep | js/book-manager.js:1115-1117 | one more book adds one to the count of its year exactly when the year is truthy |
| Books.BookStatsSums | js/book-manager.js:1098-1121 | genre, author and year counts are the occurrence counts of their lists, and genre and author counts each sum to the number of books |
| Books.ImportedBookData | js/book-manager.js:755-767 | the imported book takes the hit's title, first author, isbn or '', first subject or 'Non classé', year or the current year, and cover and subjects |
| Books.ImportReplacesHitCover | js/book-manager.js:764 | an imported hit with an ISBN loses its search cover when the edition record has none |
| Books.ValidateField | js/book-manager.js:127-185 | title and author need at least 2 characters after trimming; an ISBN may be empty or must be valid; a genre must be non-empty; a year must parse to a value from 1000 to the current year + 1 |
| Books.RenderedYearAccepted | js/book-manager.js:170-179 | a year typed as its decimal rendering is accepted exactly when it lies in that range |
| Books.BookManager.constructor | js/book-manager.js:5-18 | the manager keeps its store and client and loads the stored books |
| Books.BookManager.LoadBooks | js/book-manager.js:31-34 | the list becomes the stored books, or none |
| Books.BookManager.SaveBooks | js/book-manager.js:39-41 | the whole list is written under the books key, unless the quota is exceeded |
| Books.BookManager.LookUpDetails | js/book-manager.js:448-456 | the book with the edition lookup merged in, the connection state unchanged, the status panel as `StatusAfter` that lookup |
| Books.BookManager.CreateBook | js/book-manager.js:439-461 | exactly one record is appended, enriched only when it has an isbn; a failed lookup does not stop the append and the save; the status panel changes only through that lookup, as `StatusAfter` says |
| Books.BookManager.UpdateBook | js/book-manager.js:469-501 | with no loosely equal id, it fails with 'Livre non trouvé (ID: …)' and changes nothing; otherwise only the first matching slot is replaced by the merge plus `lastModified`, with a lookup only for a new non-empty isbn, and the list is saved; the status panel changes only through that lookup, as `StatusAfter` says |
| Books.BookManager.DeleteBook | js/book-manager.js:507-524 | when some id is strictly equal and the user confirms, every such record is removed and the list saved; otherwise nothing changes |
| Books.BookManager.SearchBooks | js/book-manager.js:531-542 | an empty keyword returns the stored list itself; otherwise exactly the matching books, each as many times as it is stored; always a subsequence of the list |
| Books.BookManager.ShownBooks | js/book-manager.js:839-840 | the shown list is the search sorted in place; with an empty keyword the stored collection itself is reordered, otherwise it is untouched |
| Books.BookManager.GetBookStats | js/book-manager.js:1098-1121 | the loop yields `total` equal to the number of books, `available` at most `total`, and genre, author and year counts, the first two summing to `total` |
| Books.BookManager.ImportApiResult | js/book-manager.js:747-790 | an index outside the results imports nothing and writes nothing; otherwise the appended book is the one `createBook` makes from `ImportedBookData` of that hit (with the edition details when it has an isbn and a client), it is available, enriched and has the fresh id, and the books key is written unless the quota is exceeded; the status panel changes only through the lookup of an imported isbn, as `StatusAfter` says |
| Books.SubsequenceRefl | js/book-manager.js:532 | a list is a subsequence of itself |
| Books.SearchKeepsRecords | js/book-manager.js:534-541 | a book kept by the search is a stored book that matches |
| Books.TextIdDeletesNoNumericBook | js/book-manager.js:507-524 | deleting by the text of a numeric id removes no numeric record |
| Books.SavedBooksReload | js/book-manager.js:31-41 | saving the list and loading it back gives the same books |
| Sorting.InsertionSort | js/book-manager.js:800 | an in-place sort by a consistent comparator: sorted, a permutation, unchanged when every pair ties |
| Sorting.SinkLast | js/book-manager.js:800 | one insertion step extends the sorted prefix by one element |
| Sorting.SwapStep | js/book-manager.js:800 | a swap moves the one out-of-order element one place left |
| Sorting.SunkIsSorted | js/book-manager.js:800 | once that element rests, the prefix is sorted |
| Storage.Field | js/storage-manager.js:304 | a property exists only on an object that has it |
| Storage.BooksRoundTrip | js/storage-manager.js:186-196 | books stored as an array read back as the same books |
| Storage.AuthorsRoundTrip | js/storage-manager.js:202-212 | the same for authors |
| Storage.LoadOrEmpty | js/storage-manager.js:194-196 | `load(key) \|\| []`: the stored value when truthy, otherwise an empty array |
| Storage.SeedCollections | js/storage-manager.js:17-30 | a non-empty stored collection is kept; a missing or empty one becomes the sample list |
| Storage.SeedSettings | js/storage-manager.js:31-37 | the default settings are written only when nothing truthy is stored |
| Storage.SeedFrame | js/storage-manager.js:17-38 | seeding touches only the three catalogue keys |
| Storage.SeedIdempotent | js/storage-manager.js:17-38 | after seeding all three keys hold a value, and seeding again changes nothing |
| Storage.ClearedHoldsDefaults | js/storage-manager.js:155-166 | after `clear` the three keys hold the samples and the default settings |
| Storage.ImportedKeys | js/storage-manager.js:302-318 | import writes books and authors only from arrays and settings only from objects, and no other key |
| Storage.ImportedBooks | js/storage-manager.js:304-306 | a books array in the imported data replaces the stored books |
| Storage.ValidateData | js/storage-manager.js:219-231 | only null and undefined are refused |
| Storage.StorageManager.constructor | js/storage-manager.js:5-12 | the store found is seeded, unless every write fails |
| Storage.StorageManager.Load | js/storage-manager.js:125-136 | the stored value, or null for an absent key |
| Storage.StorageManager.Save | js/storage-manager.js:108-118 | true and the value stored, after which `load` returns it; or false with the store unchanged |
| Storage.StorageManager.Remove | js/storage-manager.js:142-150 | the key is removed and nothing else |
| Storage.StorageManager.InitializeStorage | js/storage-manager.js:17-38 | the store is seeded |
| Storage.StorageManager.Clear | js/storage-manager.js:155-166 | the three keys are removed and the store re-seeded |
| Storage.StorageManager.ResetToSampleData | js/storage-manager.js:171-180 | both collections are overwritten with the samples; the settings and other keys are untouched |
| Storage.StorageManager.SaveBooks | js/storage-manager.js:186-188 | only the books key is written |
| Storage.StorageManager.SaveAuthors | js/storage-manager.js:202-204 | only the authors key is written |
| Storage.StorageManager.LoadBooks | js/storage-manager.js:194-196 | the stored books, or an empty array |
| Storage.StorageManager.LoadAuthors | js/storage-manager.js:210-212 | the stored authors, or an empty array |
| Storage.StorageManager.ImportData | js/storage-manager.js:302-318 | false only for null data; otherwise the import is applied |
| Authors.NewAuthor | js/author-manager.js:262-268 | a new author has the fresh id, the form fields, both timestamps and `bookCount` 0 |
| Authors.MergeAuthor | js/author-manager.js:289-293 | the form fields replace the old ones; id, creation date, photo and book count are kept; `lastModified` is new |
| Authors.FindStrict | js/author-manager.js:282 | the first position whose id is strictly equal, or none |
| Authors.RemoveAuthor | js/author-manager.js:317 | the authors whose id is not strictly equal, in their order (a subsequence) and each as many times as before, the others not at all, and the list itself when none matches |
| Authors.BooksBy | js/author-manager.js:339-342 | at most the number of books, and 0 exactly when no author matches case-insensitively |
| Authors.AuthorBookCount | js/author-manager.js:335-343 | 0 without a book manager, otherwise the case-insensitive count |
| Authors.LowerIdempotent | js/author-manager.js:340-341 | lower-casing twice is lower-casing once |
| Authors.BookCountIgnoresCase | js/author-manager.js:335-343 | asking with a lower-cased name counts the same books |
| Authors.AgeGroupOf | js/author-manager.js:754-767 | unknown exactly without a birth date; otherwise under 30, 30 to 49, 50 to 69 or 70 and more by `currentYear` minus the birth year |
| Authors.InGroup | js/author-manager.js:753-767 | a group holds at most all the authors |
| Authors.AgeGroupsPartition | js/author-manager.js:739-768 | the five groups add up to the number of authors |
| Authors.NationalityOf | js/author-manager.js:750 | the nationality, or 'Non renseignée' when empty |
| Authors.NationalityList | js/author-manager.js:748-751 | one nationality per author, in order |
| Authors.GroupCounts | js/author-manager.js:739-768 | each counter holds the size of its group |
| Authors.NationalityStep | js/author-manager.js:748-751 | one more author adds one to the count of its nationality label ('Non renseignée' when it has none), keeping the first-seen order |
| Authors.GroupStep | js/author-manager.js:753-767 | one more author adds one to the single age group its birth date puts it in (the unknown group when it has none) and leaves the other groups alone |
| Authors.ValidateField | js/author-manager.js:77-116 | the name needs at least 2 characters after trimming; an empty birth date is valid, otherwise it must be no later than today and at least ten years before it |
| Authors.FutureBirthDateMessage | js/author-manager.js:103-108 | a birth date after today is reported as in the future |
| Authors.AuthorManager.constructor | js/author-manager.js:5-12 | the manager keeps its store and loads the stored authors |
| Authors.AuthorManager.LoadAuthors | js/author-manager.js:25-28 | the list becomes the stored authors, or none |
| Authors.AuthorManager.SaveAuthors | js/author-manager.js:33-35 | the list is written under the authors key |
| Authors.AuthorManager.CreateAuthor | js/author-manager.js:261-273 | exactly one new author is appended and the list saved |
| Authors.AuthorManager.UpdateAuthor | js/author-manager.js:281-297 | with no strictly equal id it fails with 'Auteur non trouvé' and changes nothing; otherwise only that slot is replaced by the merge and the list saved |
| Authors.AuthorManager.DeleteAuthor | js/author-manager.js:303-328 | when the id is present and the user confirms, its records are removed; otherwise nothing changes |
| Authors.AuthorManager.GetAuthorStats | js/author-manager.js:735-771 | the loop yields `total`, nationality counts summing to `total`, and age groups summing to `total` |
| Dashboard.FirstMost | js/dashboard-manager.js:314-315 | none exactly for an empty object; otherwise a key with its count, no count larger, and the first such key in insertion order |
| Dashboard.FirstMostFacts | js/dashboard-manager.js:101-104 | the head of the stable sort by decreasing count is the first maximal entry |
| Dashboard.MostPopularGenre | js/dashboard-manager.js:96-105 | 'Aucun' for an empty object, otherwise a genre whose count is maximal |
| Dashboard.MostPopularGenreOfBooks | js/dashboard-manager.js:96-105 | the genre shown is a genre of the books that no other genre outnumbers |
| Dashboard.PrepareGenreChartData | js/dashboard-manager.js:169-188 | one slice per genre in insertion order, or a single 'Aucun genre' slice of 1; the first min(slices, 10) palette colours |
| Dashboard.GenreChartCoversBooks | js/dashboard-manager.js:169-188 | for books, the slices are distinct genres and sum to the number of books |
| Dashboard.DecadeLabelParses | js/dashboard-manager.js:256-264 | `parseInt` of a decade label gives the decade back, negative decades included |
| Dashboard.DecadeLabelsAgree | js/dashboard-manager.js:256-258 | two years share a label exactly when they share a decade |
| Dashboard.DecadeLabels | js/dashboard-manager.js:256-257 | one label per year, in order |
| Dashboard.DecadeStep | js/dashboard-manager.js:254-260 | one more book adds its decade label exactly when its year is truthy |
| Dashboard.DecadeHistogram | js/dashboard-manager.js:249-279 | the sorted entries are the decades of the years, each with its number of years, in increasing decade order, summing to the number of years |
| Dashboard.CountDecadeLabels | js/dashboard-manager.js:254-260 | the loop over the books leaves the decade map equal to the count of the decade labels of the truthy years, in first-seen order |
| Dashboard.MinOf | js/dashboard-manager.js:302-307 | the least of a non-empty list |
| Dashboard.MaxOf | js/dashboard-manager.js:302-307 | the greatest of a non-empty list |
| Dashboard.SumAtLeast | js/dashboard-manager.js:306-307 | a sum is at least the count times a lower bound |
| Dashboard.SumAtMost | js/dashboard-manager.js:306-307 | a sum is at most the count times an upper bound |
| Dashboard.MulMonotone | js/dashboard-manager.js:306-311 | multiplying by a natural number keeps order |
| Dashboard.MulCancel | js/dashboard-manager.js:306-311 | a positive factor can be cancelled from both sides of a strict inequality |
| Dashboard.RoundDiv | js/dashboard-manager.js:306-311 | `Math.round(a / n)`: the integer nearest to a/n, halves rounded up |
| Dashboard.RoundDivBetween | js/dashboard-manager.js:306-311 | a rounded quotient between two bounds stays between them |
| Dashboard.AverageYear | js/dashboard-manager.js:302-307 | null exactly when no book has a truthy year, otherwise between the least and the greatest year |
| Dashboard.AvailabilityRate | js/dashboard-manager.js:310-311 | 0 without books, between 0 and 100, the rounded percentage, 100 when all are available and 0 when none are |
| Dashboard.RateBounds | js/dashboard-manager.js:310-311 | the rounded percentage lies between 0 and 100 and hits both ends |
| Dashboard.ShownValueOfNumber | js/dashboard-manager.js:79 | the value read back from a displayed number is that number |
| Dashboard.CeilDiv20 | js/dashboard-manager.js:80 | `Math.ceil(x / 20)`: the least integer at or above x/20 |
| Dashboard.CounterStep | js/dashboard-manager.js:78-89 | the animation stops exactly at the target |
| Dashboard.CounterRises | js/dashboard-manager.js:82-84 | below the target each step rises by at least one without passing it |
| Dashboard.CounterStallsAbove | js/dashboard-manager.js:85-87 | above the target by less than 20 the step leaves the value where it is |
| Dashboard.CounterNeverFallsToTarget | js/dashboard-manager.js:78-89 | as written, a counter above its target never reaches it |
| Dashboard.CounterRisesToTarget | js/dashboard-manager.js:78-89 | a counter below its target reaches it within the difference in steps |
| Dashboard.CounterStepFixed | js/dashboard-manager.js:78-89 | corrected step: each step moves strictly toward the target without passing it |
| Dashboard.CounterFixedReachesTarget | js/dashboard-manager.js:78-89 | with the correction the counter reaches its target within the difference in steps, from either side |
| Dashboard.Candidates | js/dashboard-manager.js:433-435 | exactly the books not yet enriched that have an isbn or a title, in collection order |
| Dashboard.Attempted | js/dashboard-manager.js:440-443 | the first min(5, candidates) candidates |
| Dashboard.LookupResult | js/dashboard-manager.js:445-456 | offline, the lookup rejects; by isbn it succeeds with data exactly when the request does; by title it succeeds exactly when the search does, with no data for an empty search |
| Dashboard.CountOf | js/dashboard-manager.js:458-462 | a count of outcomes is at most their number |
| Dashboard.TraceAppend | js/dashboard-manager.js:443-469 | lookups and pauses of joined traces add up |
| Dashboard.StepShape | js/dashboard-manager.js:443-469 | one attempt makes its lookup, then a pause unless something threw |
| Dashboard.TraceShape | js/dashboard-manager.js:443-469 | the batch looks up every attempted book in order, and pauses once per attempt that did not throw |
| Dashboard.TraceStep | js/dashboard-manager.js:443-469 | one more attempt extends the trace by its events |
| Dashboard.TraceSnoc | js/dashboard-manager.js:443-469 | the event trace of one more attempted book is the earlier trace followed by that book's events |
| Dashboard.CountStep | js/dashboard-manager.js:458-462 | one more attempt adds one to `enrichedCount` exactly when it enriched its book |
| Dashboard.ExplainedStep | js/dashboard-manager.js:443-469 | an explained outcome extends the explained prefix |
| Dashboard.KeptOrEnrichedStep | js/dashboard-manager.js:443-469 | a round that keeps each book or writes back the merge of the data found for one candidate extends a batch in which every book was kept or holds such a merge |
| Dashboard.MergedIsEnriched | js/dashboard-manager.js:459-462 | a merged book keeps the candidate's id, title and isbn, carries the enrichment flag and is stamped with the time of the merge |
| Dashboard.MergedSlot | js/book-manager.js:469-501 | the book `updateBook` writes back for an enrichment is a merge of the candidate with the data found, and the slot keeps its own subjects and publishers when the enriched copy has none |
| Dashboard.MergedSlotOwn | js/book-manager.js:481-485 | in the slot the candidate came from, the merge is exactly the enriched copy stamped `now` |
| Dashboard.StoredBooksStep | js/book-manager.js:498-499 | two rounds that each may save the books leave the store as one save of the later list, or untouched when neither saved |
| Dashboard.DashboardManager.constructor | js/dashboard-manager.js:5-12 | the dashboard keeps its managers and client |
| Dashboard.DashboardManager.PrepareAdvancedChartData | js/dashboard-manager.js:249-279 | 'Aucune donnée' and [0] without truthy years; otherwise the labels are the decade labels of the truthy years, each with its number of years, by increasing decade, summing to the number of such books |
| Dashboard.DashboardManager.CalculateGeneralStats | js/dashboard-manager.js:296-330 | totals, availability rate 0 without books and within 0..100, average year null without truthy years, most popular genre, and top author null exactly for an empty collection |
| Dashboard.DashboardManager.LookUp | js/dashboard-manager.js:448-456 | the ISBN lookup, or the first hit of a title search, as `LookupResult` says; the status panel as `StatusAfter` that one request |
| Dashboard.DashboardManager.Merge | js/dashboard-manager.js:459-462 | the update succeeds exactly when an id is loosely equal; the first such slot then holds `enrichLocalData(book, apiData)` stamped `now`, with the edition details when its isbn differs from the slot's, every other slot is unchanged and the books key is written; on failure nothing changes; the book manager's status panel changes only through the lookup of a new isbn, as `StatusAfter` says |
| Dashboard.DashboardManager.Attempt | js/dashboard-manager.js:444-468 | the outcome of one candidate agrees with its lookup; without an enrichment the books and the store are unchanged; an enrichment means the lookup found data, a loosely equal id exists, its first slot holds the merge of that data and the books key is written; each status panel is unchanged offline and otherwise unchanged or showing an online failure |
| Dashboard.DashboardManager.EnrichRound | js/dashboard-manager.js:443-468 | one pass of the loop keeps every book kept or enriched, the store written once with the latest list, and both status panels within what they were at the start |
| Dashboard.DashboardManager.AutoEnrichBooks | js/dashboard-manager.js:430-476 | without a client nothing happens; otherwise the first five candidates are attempted in order, each outcome agrees with its lookup, the trace is the lookups with a pause after each attempt that did not throw, the count is the number of enrichments and at most 5, the refresh happens exactly when the count is positive, and every book is kept or holds the merge of the data found for one of the attempted candidates; with no enrichment the books and the store are unchanged, and otherwise the books key holds the final list unless the quota is exceeded; each status panel is unchanged offline and otherwise unchanged or showing an online failure |
| App.DigitTarget | js/app.js:326-332 | a section reached by a digit key is one of the four |
| App.Shortcut | js/app.js:304-333 | Ctrl/Meta+N opens the book form exactly in the books section; Ctrl/Meta+S saves exactly; a section change needs neither Ctrl nor Meta and targets a valid section |
| App.DigitKeysNavigate | js/app.js:326-332 | keys '1' to '4' go to dashboard, books, authors, statistics |
| App.LongDigitKeys | js/app.js:326-332 | a key is compared as a string and then parsed: '2x' goes to books, '12' goes nowhere |
| App.DigitTargetOfDigit | js/app.js:326-332 | a single digit key from 1 to 4 selects the section at that position in the list |
| App.DigitTargetTwoX | js/app.js:326-332 | the key "2x" passes both string comparisons and `parseInt` reads its leading 2, so it selects the books section |
| App.DigitTargetTwelve | js/app.js:326-332 | the key "12" passes both string comparisons and `parseInt` reads it as 12, which selects no section |
| App.BibliothecaApp.constructor | js/app.js:5-11 | the shell starts on the dashboard, not initialised, without managers |
| App.BibliothecaApp.InitializeManagers | js/app.js:66-98 | a fresh store and client are shared by fresh managers, the store is seeded unless it is full, the client's online flag is the browser's, and each manager holds its stored list |
| App.BibliothecaApp.LoadInitialData | js/app.js:163-180 | the book and author managers reload their lists from the shared store and nothing else changes |
| App.BibliothecaApp.Navigate | js/app.js:186-217 | an unknown section becomes 'dashboard', so the current section is always one of the four |
| App.BibliothecaApp.Init | js/app.js:16-46 | without storage it returns early and stays uninitialised; otherwise the managers share one store and client and load their lists; the flag is set only when nothing throws |
| App.BibliothecaApp.SaveAllData | js/app.js:338-349 | each existing manager writes its list; with the managers sharing one store, the store holds both lists under their keys and nothing else changes, or nothing at all when the quota is exceeded |
| App.BibliothecaApp.HandleKeyboardShortcuts | js/app.js:304-333 | the actions are those of `Shortcut`; the section changes only on a digit key; Ctrl/Meta+S writes both lists as `saveAllData` does, and any other key leaves the store unchanged |
| App.BibliothecaApp.ImportData | js/app.js:392-410 | the result is false for null data and true when the managers are wired; the store keeps its quota flag and gains the `books` and `authors` arrays of the data (nothing when the quota is exceeded), every other entry and the settings kept; a list given as an array is reloaded from the store, so it keeps the old stored list when the save failed, and a list not given is unchanged |
| App.ImportedLists | js/app.js:394-402 | the books and authors keys take the arrays given under those names, and every other entry is kept |
| Counting.CountAllSnoc | js/book-manager.js:1107-1118 | counting one more element bumps the count of that element, adding it at the end of the key order when it is new |
| Counting.CountAllExtend | js/api-client.js:370-374 | counting a prefix one element longer bumps the count of that element |
| Counting.CountAllKeys | js/book-manager.js:1107-1118 | the keys of the counter are exactly the distinct elements counted, each listed once |
| Counting.CountAllMultiplicity | js/book-manager.js:1107-1118 | each key is counted with its multiplicity among the elements |
| Counting.CountAllTotal | js/book-manager.js:1107-1118 | the counts add up to the number of elements counted |
| Counting.CountAllCounts | js/book-manager.js:1107-1118 | the counter counts its input: distinct keys in first-seen order, each with its multiplicity |
| Counting.CountAllEmpty | js/dashboard-manager.js:169-188 | the counter has no key exactly when nothing was counted |
| Counting.BumpTotal | js/book-manager.js:1109 | bumping one key raises the total of the counts by one |
| Counting.TotalBump | js/book-manager.js:1109 | bumping a key already present raises the total of the counts by one |
| Counting.TotalFrame | js/book-manager.js:1109 | the total of the counts depends only on the counts of the listed keys |
| Counting.InsertBy | js/api-client.js:385-388 | inserting an entry before the first one of higher rank yields the list with that one entry more, as a multiset |
| Counting.SortBy | js/api-client.js:385-388 | the stable sort is a permutation of its input |
| Counting.FirstMin | js/dashboard-manager.js:314-315 | the position of the first element of lowest rank: no element ranks lower, and every earlier one ranks higher |
| Counting.InsertBySorted | js/api-client.js:385-388 | inserting into a sorted list keeps it sorted |
| Counting.SortBySorted | js/api-client.js:385-388 | the stable sort of the entries yields entries in order of rank |
| Counting.SortByHead | js/dashboard-manager.js:314-315 | the first sorted element is the first element of lowest rank, as a stable sort leaves it |
| Counting.SortByOmitted | js/api-client.js:385-388 | an element missing from the first n sorted elements means there are more than n, and the n-th ranks no higher than it |
| Counting.SortedCountsOmitted | js/api-client.js:385-388 | a counted key whose entry is not among the first n sorted entries means there are more than n entries, none ranked above that key's own entry |
| Counting.SortByHeadLowest | js/api-client.js:385-388 | the first sorted element has a rank no higher than any element |
| Counting.SortByIndex | js/api-client.js:385-388 | every sorted element comes from the input |
| Counting.SortByContains | js/api-client.js:385-388 | every input element is among the sorted elements |
| Counting.SumSnoc | js/book-manager.js:1098-1121 | the sum of a list extended by one value grows by that value |
| Counting.SumEntries | js/book-manager.js:1098-1121 | the counts listed by `Object.entries` add up to the total of the counter |
| Counting.CountAllEntries | js/dashboard-manager.js:169-188 | the entries list every key once in first-seen order, and their counts add up to the number of elements counted |
| Counting.SumInsertBy | js/api-client.js:385-388 | inserting an entry adds its count to the sum of the counts |
| Counting.SumSortBy | js/api-client.js:385-388 | sorting the entries keeps the sum of their counts |
| Counting.SumValuesCons | js/api-client.js:385-388 | the sum of the counts of a non-empty list is the first count plus the sum of the rest |
| Counting.CountAllEntriesFaithful | js/dashboard-manager.js:169-188 | every entry is an element with its multiplicity, and every element has its entry |
| Counting.SortedEntriesFaithful | js/api-client.js:385-388 | every sorted entry is an element with its multiplicity |
| Counting.SortedCountsPrefix | js/api-client.js:385-388 | the first entries of the sorted counts are sorted and each is an element with its multiplicity |
| Counting.SortedEntriesComplete | js/dashboard-manager.js:263-264 | every element counted is the key of a sorted entry |
| Counting.SortedCounts | js/api-client.js:385-388 | the sorted entries hold exactly the elements counted, each with its multiplicity, and their counts add up to the number of elements |
| Text.IntToString | js/dashboard-manager.js:256-257 | the rendering of an integer is non-empty, all digits for a natural number, and a minus sign followed by digits otherwise |
| Text.NatToStringRoundTrip | js/dashboard-manager.js:256-257 | the digits of a rendered natural number read back as that number |
| Text.RenderedEnds | js/book-manager.js:473 | a rendered number starts and ends with a character that is not white space |
| Text.IntToStringParses | js/book-manager.js:473 | `Number(...)` of a rendered integer is that integer |
| Text.IntToStringPrefixParses | js/dashboard-manager.js:264 | `parseInt` reads a rendered integer back from the front of a text when what follows is not a digit |
| Text.LeadingDigitsOf | js/app.js:328 | the leading digits of digits followed by a non-digit are those digits |
| Text.LeadingDigits | js/book-manager.js:171 | the longest prefix of digits: digits only, a prefix of the text, and followed by a non-digit or the end |
| Text.TrimStart | js/book-manager.js:131 | the suffix left after dropping the leading white space, which starts with a non-space |
| Text.TrimEnd | js/book-manager.js:131 | the prefix left after dropping the trailing white space, which ends with a non-space |
| Text.Trim | js/author-manager.js:81 | the result is empty exactly when the text is all white space, starts and ends with a non-space otherwise, and is the text itself when that already does |
| Text.Lower | js/author-manager.js:339 | every character is lower-cased in place and the length is kept |
| Text.DigitNotWhitespace | js/book-manager.js:131 | a digit is not white space |
| Text.ContainsHasOccurrence | js/book-manager.js:536-540 | when `includes` holds, the text occurs at some position |
| Text.OccurrenceGivesContains | js/book-manager.js:536-540 | an occurrence at any position makes `includes` hold |
| Text.ContainsIffOccurs | js/book-manager.js:536-540 | `includes` holds exactly when the text occurs at some position |
| Text.ContainsPrefix | js/api-client.js:282 | a text includes each of its prefixes |
| Text.LexLessIrreflexive | js/book-manager.js:825-826 | no string is less than itself |
| Text.LexLessTransitive | js/book-manager.js:825-826 | the string order is transitive |
| Text.LexLessTotal | js/book-manager.js:825-826 | of two different strings one is less than the other |

## Left out

- DOM work is not modelled: rendering, modals, toasts, form wiring, Chart.js, the sidebar, `downloadJSON`
  and `alert`. `confirm` is a boolean parameter.
- Network I/O is not modelled: `fetch`, the timeout of `fetchWithTimeout`, `testImageURL`,
  `testConnectivity` and `updateAPIStatus`'s HTML. Each request is an outcome passed in.
- `localStorage`, `JSON.stringify`/`parse` and `getStorageSize` are not modelled. Values are stored as
  they are; `isStorageAvailable` is the `storageAvailable` parameter of `Init`.
- Clock and randomness are not modelled. `Date.now`/`Math.random` ids, ISO timestamps and the current
  year are parameters.
- Date parsing is not modelled. `new Date(value)` is an optional parsed date passed in.
  `setFullYear` on 29 February is not modelled.
- `toLowerCase` is ASCII lower-casing. Lengths count characters, not UTF-16 code units.
- Object key order is insertion order. JavaScript enumerates integer-like keys first; that is not
  modelled.
- `Math.round` in `calculateGeneralStats` is exact integer rounding of the rational quotient, without
  floating-point error.
- Dashboard.Animate: `animateCounter`'s `setTimeout` rescheduling is a step count, not a timer.
- `updateKPIs`, `initializeDashboard`, `generateStatsReport`, `exportStats`, `updateWithAPIStats`,
  `refreshAPIData`, `exportAllData`, `reset`, `loadSampleData` and `getAppInfo` are not modelled. They
  compose modelled operations with DOM output.
- js/sample-data.js is fixture data. Only two of its ISBNs appear in lemmas. script.js is not part of
  this model.
- The concurrency of `await` is not modelled. Every awaited call runs to completion in order.
- Dashboard.DashboardManager.AutoEnrichBooks:
  - one `now` stands for the time of every merge in the batch;
  - the lookups are functions of the isbn or the title, so two books with the same isbn get the same
    answer;
  - its contract allows `Threw` after a successful lookup without naming the cause, which is an update
    that finds no loosely equal id.
- Records.SpreadOf: a `Book` has `None` both for a missing key and for a null value. The spread
  object leaves out only `enrichedData`, `apiSubjects` and `publishers` when they are `None`, as these
  keys are only ever written with a value. Any other `None` field, such as a `coverUrl` that was never
  set, is spread as a present null. In JavaScript a missing key keeps the slot's value instead. This
  differs only when a loosely equal id finds a slot other than the candidate's own.
- Dashboard.MergedSlot, Dashboard.DashboardManager.Merge, Dashboard.DashboardManager.Attempt and
  Dashboard.DashboardManager.AutoEnrichBooks inherit that reading of the spread.
- Dashboard.MergedFrom leaves open `enrichedData`, `coverUrl`, and the subjects and publishers that
  the enriched copy lacks. The exact book is Dashboard.MergedSlot, which Merge and Attempt state;
  AutoEnrichBooks states only MergedFrom for each book.
- Dashboard.DashboardManager.Attempt: the status panels are bounded rather than given exactly: each
  is unchanged when offline, and otherwise unchanged or showing an online failure. The dashboard's
  client and the book manager's may be one object, which both the lookup and the update's lookup set.
- Dashboard.DashboardManager.AutoEnrichBooks bounds the status panels the same way. Which of up to
  ten requests failed last is not stated.
- Books.SortBooks works on an array the caller passes.
  Books.BookManager.ShownBooks copies the list into an array and back, so the aliasing of
  `this.books` by the search result is stated, not modelled by reference.
- App.BibliothecaApp.Init: a throw while setting up the page is the `setupThrows` parameter. The
  listeners and `setupNavigation` are not modelled.
- Books.BookManager.DeleteBook: the `renderBooksList` call after the deletion (js/book-manager.js:515)
  sorts `this.books` in place when the search term is empty and the list is on the page. The contract
  states the list before that reorder; Books.BookManager.ShownBooks models the reorder on its own.
  LoadBooks (js/book-manager.js:33) and ImportApiResult (js/book-manager.js:776) end with the same call
  and leave the reorder out in the same way.
- App.BibliothecaApp.Navigate: `navigate('books')` calls `renderBooksList` (js/app.js:245-248), which can
  reorder the book list in place as above. The contract covers the section change only.
- Storage.BooksOf and Storage.AuthorsOf: a stored value that is not an array of books (of authors) reads
  as the empty list. JavaScript keeps whatever `load` returns or `importData` wrote
  (js/storage-manager.js:194-196, 304-309), for example an imported array of plain objects or a truthy
  string. The `Value` type keeps books and authors as typed records, so such a list is not modelled.
- Text.ParseIntPrefix: `parseInt` without a radix also reads a `0x` prefix as hexadecimal, so
  `parseInt("0x7E4")` is 2020 and that text passes the year rule of js/book-manager.js:170-179. The
  model reads decimal digits only, gets 0 and rejects it.
- Text.ParseDecimal: `Number(...)` also accepts fractions, exponents and `0x`, `0o` and `0b` prefixes, so
  in JavaScript `1 == "1.0"`, `1 == "1e0"` and `1 == "0x1"` hold. Records.LooseEq, which uses it, reads
  only decimal integers and finds those ids different.
- Text.LexLess: JavaScript's `<` compares UTF-16 code units; the model compares Unicode scalar values.
  The two orders differ only between a character above U+FFFF and one from U+E000 to U+FFFF.
- Counting.CountAll: the counting objects are plain `{}` objects, so a key named like an inherited
  property (`constructor`, `toString`) starts from that property rather than from 0, and `__proto__` is
  never counted. The model counts every key from 0.

## Findings

| source | as written | input that shows it | evidently intended | confidence | as-written member | corrected member |
|---|---|---|---|---|---|---|
| js/dashboard-manager.js:78-89 | above the target, the decrease is `Math.abs(Math.ceil((target - current) / 20))`, and the ceiling of a negative quotient rounds toward zero, so it is 0 whenever the counter is less than 20 above its target and the counter stops short while the timer keeps rescheduling | current 10, target 9: the step gives 10 again, forever | each step moves at least one toward the target, as it does from below | not executed | Dashboard.CounterNeverFallsToTarget | Dashboard.CounterFixedReachesTarget |
