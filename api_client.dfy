/** The OpenLibrary client: normalisation of the loosely shaped JSON the service returns,
    classification of request errors, the merge of remote data into a local book, and the
    statistics drawn from a search. The network is an oracle: each request method takes
    the outcome of its HTTP exchange as a parameter. */
module Api {
  import opened Wrappers
  import opened Text
  import opened Records
  import opened Counting

  /** A field that is either a string or an object `{value: ...}` (`description`, `bio`). */
  datatype TextValue = Plain(text: string) | Wrapped(value: Option<string>)

  /** One document of `search.json`; absent fields are `None`. */
  datatype RawSearchDoc = RawSearchDoc(
    key: Option<string>,
    title: Option<string>,
    authorName: Option<seq<string>>,
    firstPublishYear: Option<int>,
    isbn: Option<seq<string>>,
    subject: Option<seq<string>>,
    coverId: Option<int>)

  datatype RawSearchResponse = RawSearchResponse(docs: Option<seq<RawSearchDoc>>)

  datatype RawAuthorRef = RawAuthorRef(name: Option<string>)

  /** An edition record of `/isbn/<isbn>.json`. */
  datatype RawBook = RawBook(
    title: Option<string>,
    authors: Option<seq<RawAuthorRef>>,
    publishDate: Option<string>,
    publishers: Option<seq<string>>,
    description: Option<TextValue>,
    subjects: Option<seq<string>>,
    isbn10: Option<seq<string>>,
    isbn13: Option<seq<string>>,
    numberOfPages: Option<int>,
    covers: Option<seq<int>>)

  /** An author record of `/authors/<key>.json`. */
  datatype RawAuthor = RawAuthor(
    name: Option<string>,
    birthDate: Option<string>,
    deathDate: Option<string>,
    bio: Option<TextValue>,
    photos: Option<seq<int>>,
    alternateNames: Option<seq<string>>)

  const UnknownTitle := "Titre inconnu"
  const UnknownAuthor := "Auteur inconnu"
  const UnknownName := "Nom inconnu"
  const CoverPrefix := "https://covers.openlibrary.org/b/id/"
  const PhotoPrefix := "https://covers.openlibrary.org/a/id/"
  const ImageSuffix := "-M.jpg"

  /** `${ids[0]}` for a list of numeric image ids; an empty list renders `undefined`. */
  function FirstIdText(ids: seq<int>): string {
    if ids == [] then "undefined" else IntToString(ids[0])
  }

  /** `x ? (typeof x === 'string' ? x : x.value) : null`. */
  function Unwrap(t: Option<TextValue>): (r: Option<string>)
    ensures t.Some? && t.value.Plain? && t.value.text != "" ==> r == Some(t.value.text)
    ensures t.Some? && t.value.Wrapped? ==> r == t.value.value
    ensures t.None? || t.value == Plain("") ==> r.None?
  {
    match t
    case None => None
    case Some(Plain(s)) => if s == "" then None else Some(s)
    case Some(Wrapped(v)) => v
  }

  /** The normalisation of one search document (`processSearchResults`, one element). */
  function ProcessDoc(doc: RawSearchDoc): (hit: SearchHit)
    ensures hit.key == doc.key
    ensures hit.title != ""
    ensures TruthyText(doc.title) ==> hit.title == doc.title.value
    ensures !TruthyText(doc.title) ==> hit.title == UnknownTitle
    ensures hit.authors == if doc.authorName.Some? then doc.authorName.value else [UnknownAuthor]
    ensures TruthyNum(doc.firstPublishYear) <==> hit.publishYear.Some?
    ensures hit.publishYear.Some? ==> hit.publishYear == doc.firstPublishYear
    ensures hit.isbn.Some? <==> doc.isbn.Some? && doc.isbn.value != []
    ensures hit.isbn.Some? ==> hit.isbn.value == doc.isbn.value[0]
    ensures |hit.subjects| <= 5
    ensures doc.subject.Some? ==>
      |hit.subjects| <= |doc.subject.value| && hit.subjects == doc.subject.value[..|hit.subjects|]
    ensures doc.subject.Some? && |doc.subject.value| <= 5 ==> hit.subjects == doc.subject.value
    ensures doc.subject.None? ==> hit.subjects == []
    ensures hit.coverUrl.Some? <==> TruthyNum(doc.coverId)
    ensures hit.coverUrl.Some? ==>
      hit.coverUrl.value == CoverPrefix + IntToString(doc.coverId.value) + ImageSuffix
  {
    var coverUrl :=
      if TruthyNum(doc.coverId) then Some(CoverPrefix + IntToString(doc.coverId.value) + ImageSuffix)
      else None;
    SearchHit(
      doc.key,
      if TruthyText(doc.title) then doc.title.value else UnknownTitle,
      if doc.authorName.Some? then doc.authorName.value else [UnknownAuthor],
      if TruthyNum(doc.firstPublishYear) then doc.firstPublishYear else None,
      if doc.isbn.Some? && doc.isbn.value != [] then Some(doc.isbn.value[0]) else None,
      if doc.subject.Some? then
        (if |doc.subject.value| <= 5 then doc.subject.value else doc.subject.value[..5])
      else [],
      coverUrl)
  }

  /** `processSearchResults(docs)`: one hit per document, in the same order. */
  function ProcessSearchResults(docs: seq<RawSearchDoc>): (hits: seq<SearchHit>)
    ensures |hits| == |docs|
    ensures forall i :: 0 <= i < |docs| ==> hits[i] == ProcessDoc(docs[i])
  {
    seq(|docs|, i requires 0 <= i < |docs| => ProcessDoc(docs[i]))
  }

  /** A cover or photo URL names its image: the id is read back from what follows the prefix. */
  lemma CoverUrlNamesId(prefix: string, id: int)
    ensures var url := prefix + IntToString(id) + ImageSuffix;
      ParseIntPrefix(url[|prefix|..]) == Some(id)
  {
    var url := prefix + IntToString(id) + ImageSuffix;
    assert url[|prefix|..] == IntToString(id) + ImageSuffix;
    IntToStringPrefixParses(id, ImageSuffix);
  }

  /** Two documents with different truthy cover ids get different cover URLs. */
  lemma CoverUrlInjective(a: RawSearchDoc, b: RawSearchDoc)
    requires TruthyNum(a.coverId) && TruthyNum(b.coverId)
    requires a.coverId != b.coverId
    ensures ProcessDoc(a).coverUrl != ProcessDoc(b).coverUrl
  {
    CoverUrlNamesId(CoverPrefix, a.coverId.value);
    CoverUrlNamesId(CoverPrefix, b.coverId.value);
  }

  /** `processBookDetails(data)`. */
  function ProcessBookDetails(data: RawBook): (d: BookDetail)
    ensures d.title != ""
    ensures TruthyText(data.title) ==> d.title == data.title.value
    ensures !TruthyText(data.title) ==> d.title == UnknownTitle
    ensures data.authors.None? ==> d.authors == [Some(UnknownAuthor)]
    ensures data.authors.Some? ==>
      |d.authors| == |data.authors.value|
      && forall i :: 0 <= i < |d.authors| ==> d.authors[i] == data.authors.value[i].name
    ensures d.publishDate.Some? <==> TruthyText(data.publishDate)
    ensures d.publishDate.Some? ==> d.publishDate == data.publishDate
    ensures d.publishers == data.publishers.GetOr([])
    ensures d.description == Unwrap(data.description)
    ensures d.subjects == data.subjects.GetOr([])
    ensures data.isbn10.Some? ==> d.isbn == data.isbn10
    ensures data.isbn10.None? ==> d.isbn == data.isbn13
    ensures d.pages.Some? <==> TruthyNum(data.numberOfPages)
    ensures d.pages.Some? ==> d.pages == data.numberOfPages
    ensures d.coverUrl.Some? <==> data.covers.Some?
    ensures d.coverUrl.Some? ==> d.coverUrl.value == CoverPrefix + FirstIdText(data.covers.value) + ImageSuffix
  {
    BookDetail(
      if TruthyText(data.title) then data.title.value else UnknownTitle,
      if data.authors.Some? then
        seq(|data.authors.value|, i requires 0 <= i < |data.authors.value| => data.authors.value[i].name)
      else [Some(UnknownAuthor)],
      if TruthyText(data.publishDate) then data.publishDate else None,
      data.publishers.GetOr([]),
      Unwrap(data.description),
      data.subjects.GetOr([]),
      if data.isbn10.Some? then data.isbn10 else data.isbn13,
      if TruthyNum(data.numberOfPages) then data.numberOfPages else None,
      if data.covers.Some? then Some(CoverPrefix + FirstIdText(data.covers.value) + ImageSuffix) else None)
  }

  /** An edition with an empty `covers` list still gets a cover URL, for the image `undefined`. */
  lemma EmptyCoversGiveUndefinedUrl(data: RawBook)
    requires data.covers == Some([])
    ensures ProcessBookDetails(data).coverUrl == Some(CoverPrefix + "undefined" + ImageSuffix)
  {
  }

  /** `processAuthorInfo(data)`. */
  function ProcessAuthorInfo(data: RawAuthor): (a: AuthorDetail)
    ensures a.name != ""
    ensures TruthyText(data.name) ==> a.name == data.name.value
    ensures !TruthyText(data.name) ==> a.name == UnknownName
    ensures a.birthDate.Some? <==> TruthyText(data.birthDate)
    ensures a.birthDate.Some? ==> a.birthDate == data.birthDate
    ensures a.deathDate.Some? <==> TruthyText(data.deathDate)
    ensures a.deathDate.Some? ==> a.deathDate == data.deathDate
    ensures a.biography == Unwrap(data.bio)
    ensures a.photoUrl.Some? <==> data.photos.Some?
    ensures a.photoUrl.Some? ==> a.photoUrl.value == PhotoPrefix + FirstIdText(data.photos.value) + ImageSuffix
    ensures a.alternateNames == data.alternateNames.GetOr([])
  {
    AuthorDetail(
      if TruthyText(data.name) then data.name.value else UnknownName,
      if TruthyText(data.birthDate) then data.birthDate else None,
      if TruthyText(data.deathDate) then data.deathDate else None,
      Unwrap(data.bio),
      if data.photos.Some? then Some(PhotoPrefix + FirstIdText(data.photos.value) + ImageSuffix) else None,
      data.alternateNames.GetOr([]))
  }

  /** Remote data handed to `enrichLocalData`: an edition record or a search hit. */
  datatype Remote = FromDetail(detail: BookDetail) | FromHit(hit: SearchHit)

  function RemoteCover(r: Remote): Option<string> {
    match r
    case FromDetail(d) => d.coverUrl
    case FromHit(h) => h.coverUrl
  }

  /** A search hit carries no description. */
  function RemoteDescription(r: Remote): Option<string> {
    match r
    case FromDetail(d) => d.description
    case FromHit(_) => None
  }

  function RemoteSubjects(r: Remote): seq<string> {
    match r
    case FromDetail(d) => d.subjects
    case FromHit(h) => h.subjects
  }

  /** A search hit carries no publishers. */
  function RemotePublishers(r: Remote): seq<string> {
    match r
    case FromDetail(d) => d.publishers
    case FromHit(_) => []
  }

  /** `enrichLocalData(local, remote)`, with `now` the timestamp of the call. */
  function EnrichLocalData(local: Book, remote: Remote, now: string): (e: Book)
    ensures TruthyText(local.coverUrl) ==> e.coverUrl == local.coverUrl
    ensures !TruthyText(local.coverUrl) && TruthyText(RemoteCover(remote)) ==> e.coverUrl == RemoteCover(remote)
    ensures !TruthyText(RemoteCover(remote)) ==> e.coverUrl == local.coverUrl
    ensures TruthyText(local.description) ==> e.description == local.description
    ensures !TruthyText(local.description) && TruthyText(RemoteDescription(remote)) ==>
      e.description == RemoteDescription(remote)
    ensures !TruthyText(RemoteDescription(remote)) ==> e.description == local.description
    ensures e.apiSubjects == if RemoteSubjects(remote) != [] then Some(RemoteSubjects(remote)) else local.apiSubjects
    ensures e.publishers == if RemotePublishers(remote) != [] then Some(RemotePublishers(remote)) else local.publishers
    ensures e.enrichedFromAPI && e.lastEnriched == Some(now)
    ensures e.(coverUrl := local.coverUrl, description := local.description, apiSubjects := local.apiSubjects,
               publishers := local.publishers, enrichedFromAPI := local.enrichedFromAPI,
               lastEnriched := local.lastEnriched) == local
  {
    var withCover :=
      if !TruthyText(local.coverUrl) && TruthyText(RemoteCover(remote)) then local.(coverUrl := RemoteCover(remote))
      else local;
    var withDescription :=
      if !TruthyText(withCover.description) && TruthyText(RemoteDescription(remote)) then
        withCover.(description := RemoteDescription(remote))
      else withCover;
    var withSubjects :=
      if RemoteSubjects(remote) != [] then withDescription.(apiSubjects := Some(RemoteSubjects(remote)))
      else withDescription;
    var withPublishers :=
      if RemotePublishers(remote) != [] then withSubjects.(publishers := Some(RemotePublishers(remote)))
      else withSubjects;
    withPublishers.(enrichedFromAPI := true, lastEnriched := Some(now))
  }

  /** Enriching twice with the same data gives what enriching once gives, re-stamped. */
  lemma EnrichIdempotent(local: Book, remote: Remote, t1: string, t2: string)
    ensures EnrichLocalData(EnrichLocalData(local, remote, t1), remote, t2) == EnrichLocalData(local, remote, t2)
  {
  }

  /** A request error: `error.name` and `error.message`. */
  datatype ApiError = ApiError(name: string, message: string)

  const GenericMessage := "Erreur de connexion à l'API"
  const TimeoutMessage := "Timeout de connexion à l'API"
  const NotFoundMessage := "Ressource non trouvée"
  const TooManyMessage := "Trop de requêtes, veuillez patienter"
  const OfflineMessage := "Connexion Internet requise"

  /** The error the request methods throw before any request when the client is offline. */
  const OfflineError := ApiError("Error", OfflineMessage)

  /** The message of the error `fetchWithTimeout` throws for a response that is not ok. */
  function HttpErrorMessage(status: int, statusText: string): string {
    "HTTP " + IntToString(status) + ": " + statusText
  }

  /** The message `handleAPIError` shows, by priority: abort, 404, 429, offline, anything else. */
  function ErrorMessage(err: ApiError, online: bool): (m: string)
    ensures m == TimeoutMessage <==> err.name == "AbortError"
    ensures m == NotFoundMessage <==> err.name != "AbortError" && Contains(err.message, "HTTP 404")
    ensures m == TooManyMessage <==>
      err.name != "AbortError" && !Contains(err.message, "HTTP 404") && Contains(err.message, "HTTP 429")
    ensures m == OfflineMessage <==>
      err.name != "AbortError" && !Contains(err.message, "HTTP 404") && !Contains(err.message, "HTTP 429") && !online
    ensures m == GenericMessage <==>
      err.name != "AbortError" && !Contains(err.message, "HTTP 404") && !Contains(err.message, "HTTP 429") && online
  {
    if err.name == "AbortError" then TimeoutMessage
    else if Contains(err.message, "HTTP 404") then NotFoundMessage
    else if Contains(err.message, "HTTP 429") then TooManyMessage
    else if !online then OfflineMessage
    else GenericMessage
  }

  /** A 404 response is reported as a missing resource whatever the connection state:
      the offline test comes after the status tests. */
  lemma NotFoundBeatsOffline(statusText: string, online: bool)
    ensures ErrorMessage(ApiError("Error", HttpErrorMessage(404, statusText)), online) == NotFoundMessage
  {
    assert IntToString(404) == "404" by {
      assert NatToString(40) == "40";
    }
    assert HttpErrorMessage(404, statusText) == "HTTP 404" + (": " + statusText);
    ContainsPrefix("HTTP 404", ": " + statusText);
  }

  /** What `fetch` and `response.json()` produce for one request. */
  datatype FetchOutcome<B> =
    | Aborted(message: string)
    | NetworkFailure(name: string, message: string)
    | Response(status: int, statusText: string, body: Result<B, string>)

  /** `fetchWithTimeout` followed by `response.json()`: a parsed body, or the error thrown. */
  function Fetch<B>(o: FetchOutcome<B>): (r: Result<B, ApiError>)
    ensures o.Aborted? ==> r == Err(ApiError("AbortError", o.message))
    ensures o.Response? && !(200 <= o.status < 300) ==>
      r == Err(ApiError("Error", HttpErrorMessage(o.status, o.statusText)))
    ensures r.Ok? <==> o.Response? && 200 <= o.status < 300 && o.body.Ok?
    ensures r.Ok? ==> r.value == o.body.value
  {
    match o
    case Aborted(m) => Err(ApiError("AbortError", m))
    case NetworkFailure(n, m) => Err(ApiError(n, m))
    case Response(status, text, body) =>
      if !(200 <= status < 300) then Err(ApiError("Error", HttpErrorMessage(status, text)))
      else
        match body
        case Ok(b) => Ok(b)
        case Err(m) => Err(ApiError("SyntaxError", m))
  }

  /** What the API status panel shows. */
  datatype ApiStatus = Unknown | Online | Offline | Failed(message: string) | Loading

  /** A status `handleAPIError` sets for a request that failed while online: one of the four
      messages other than the offline one. */
  predicate OnlineFailure(s: ApiStatus) {
    s.Failed? && s.message in {TimeoutMessage, NotFoundMessage, TooManyMessage, GenericMessage}
  }

  /** The status panel after one request by a client whose connection flag is `online`: an
      offline client throws before the request and leaves the panel; an online request that
      fails shows the classified message; a success leaves the panel. */
  function StatusAfter<B>(status: ApiStatus, online: bool, response: FetchOutcome<B>): (s: ApiStatus)
    ensures !online || Fetch(response).Ok? ==> s == status
    ensures online && Fetch(response).Err? ==> OnlineFailure(s)
    ensures online && Fetch(response).Err? ==> s.message == ErrorMessage(Fetch(response).error, true)
  {
    if online && Fetch(response).Err? then Failed(ErrorMessage(Fetch(response).error, online)) else status
  }

  /** The panel went from `before` to `after` over any number of requests by a client whose
      flag stayed `online`: unchanged, or, only when online, showing an online failure. */
  predicate StatusKept(before: ApiStatus, after: ApiStatus, online: bool) {
    after == before || (online && OnlineFailure(after))
  }

  /** Two stretches of requests that each kept the panel keep it together. */
  lemma StatusKeptTrans(s0: ApiStatus, s1: ApiStatus, s2: ApiStatus, online: bool)
    requires StatusKept(s0, s1, online) && StatusKept(s1, s2, online)
    ensures StatusKept(s0, s2, online)
  {
  }

  /** Every subject of every hit, in order. */
  function AllSubjects(hits: seq<SearchHit>): seq<string> {
    if hits == [] then [] else AllSubjects(hits[..|hits| - 1]) + hits[|hits| - 1].subjects
  }

  /** `Math.floor(year / 10) * 10`; on a positive divisor Dafny's division is the floor. */
  function Decade(year: int): (d: int)
    ensures d <= year < d + 10 && d % 10 == 0
  {
    year / 10 * 10
  }

  /** The decade of every hit with a truthy publication year, in order. */
  function Decades(hits: seq<SearchHit>): seq<int> {
    if hits == [] then []
    else
      var last := hits[|hits| - 1];
      Decades(hits[..|hits| - 1]) + (if TruthyNum(last.publishYear) then [Decade(last.publishYear.value)] else [])
  }

  /** The statistics `getAPIStats` returns. */
  datatype ApiStats = ApiStats(
    totalResults: nat,
    topGenres: seq<(string, nat)>,
    yearDistribution: map<int, nat>)

  /** Entry ranking for `.sort(([, a], [, b]) => b - a)`: by decreasing count. */
  function ByCountDesc(e: (string, nat)): int {
    0 - e.1 as int
  }

  /** The five most frequent subjects, by decreasing count, ties in order of first appearance. */
  function TopGenres(genres: Counter<string>): (top: seq<(string, nat)>)
    requires forall k :: k in genres.order ==> k in genres.counts
    ensures |top| == if |genres.order| < 5 then |genres.order| else 5
  {
    var sorted := SortBy(Entries(genres), ByCountDesc);
    if |sorted| <= 5 then sorted else sorted[..5]
  }

  /** The top subjects are real subjects with their full counts, by non-increasing count. */
  lemma TopGenresSound(hits: seq<SearchHit>)
    ensures var c := CountAll(AllSubjects(hits));
      var top := TopGenres(c);
      && (forall i, j :: 0 <= i < j < |top| ==> top[i].1 >= top[j].1)
      && (forall i :: 0 <= i < |top| ==>
            top[i].0 in AllSubjects(hits) && top[i].1 == multiset(AllSubjects(hits))[top[i].0])
  {
    var xs := AllSubjects(hits);
    var sorted := SortBy(Entries(CountAll(xs)), ByCountDesc);
    var top := TopGenres(CountAll(xs));
    assert top == sorted[..|top|];
    SortedCountsPrefix(xs, ByCountDesc, top);
    forall i, j | 0 <= i < j < |top|
      ensures top[i].1 >= top[j].1
    {
      assert ByCountDesc(top[i]) <= ByCountDesc(top[j]);
    }
  }

  /** The first of the top entries has the highest count of the counter. */
  lemma TopGenresHead(genres: Counter<string>, k: nat)
    requires forall g :: g in genres.order ==> g in genres.counts
    requires k < |genres.order|
    ensures TopGenres(genres) != [] && TopGenres(genres)[0].1 >= genres.counts[genres.order[k]]
  {
    var es := Entries(genres);
    SortByHeadLowest(es, ByCountDesc, k);
    assert TopGenres(genres)[0] == SortBy(es, ByCountDesc)[0];
  }

  /** A subject left out of the top entries means five were kept, and none of them has a
      lower count than the subject. */
  lemma TopGenresComplete(hits: seq<SearchHit>, s: string)
    requires s in AllSubjects(hits)
    requires forall i :: 0 <= i < |TopGenres(CountAll(AllSubjects(hits)))| ==>
      TopGenres(CountAll(AllSubjects(hits)))[i].0 != s
    ensures var top := TopGenres(CountAll(AllSubjects(hits)));
      |top| == 5 && forall i :: 0 <= i < 5 ==> top[i].1 >= multiset(AllSubjects(hits))[s]
  {
    var xs := AllSubjects(hits);
    var sorted := SortBy(Entries(CountAll(xs)), ByCountDesc);
    var top := TopGenres(CountAll(xs));
    TopGenresOmitted(xs, s);
    SortedCountsOmitted(xs, ByCountDesc, 5, s);
    assert top == sorted[..5];
    forall i | 0 <= i < 5
      ensures top[i].1 >= multiset(xs)[s]
    {
      assert ByCountDesc(sorted[i]) <= ByCountDesc((s, multiset(xs)[s]));
    }
  }

  /** A subject missing from the top subjects is missing from the first five sorted entries. */
  lemma TopGenresOmitted(xs: seq<string>, s: string)
    requires forall i :: 0 <= i < |TopGenres(CountAll(xs))| ==> TopGenres(CountAll(xs))[i].0 != s
    ensures forall i :: 0 <= i < 5 && i < |SortBy(Entries(CountAll(xs)), ByCountDesc)| ==>
      SortBy(Entries(CountAll(xs)), ByCountDesc)[i].0 != s
  {
    var sorted := SortBy(Entries(CountAll(xs)), ByCountDesc);
    var top := TopGenres(CountAll(xs));
    assert top == sorted[..|top|];
    forall i | 0 <= i < 5 && i < |sorted|
      ensures sorted[i].0 != s
    {
      assert sorted[i] == top[i];
    }
  }

  /** The most frequent subject comes first: no subject has a higher count. */
  lemma TopGenreIsMostFrequent(hits: seq<SearchHit>, s: string)
    requires s in AllSubjects(hits)
    ensures var top := TopGenres(CountAll(AllSubjects(hits)));
      top != [] && top[0].1 >= multiset(AllSubjects(hits))[s]
  {
    var c := CountAll(AllSubjects(hits));
    CountAllCounts(AllSubjects(hits));
    var k :| 0 <= k < |c.order| && c.order[k] == s;
    TopGenresHead(c, k);
  }

  /** What `searchBooksByTitle`/`searchBooksByAuthor` resolve or reject with. */
  function SearchResult(online: bool, response: FetchOutcome<RawSearchResponse>): (r: Result<seq<SearchHit>, ApiError>)
    ensures !online ==> r == Err(OfflineError)
    ensures online ==> (r.Ok? <==> Fetch(response).Ok?)
    ensures r.Ok? ==> |r.value| == |Fetch(response).value.docs.GetOr([])|
  {
    if !online then Err(OfflineError)
    else
      match Fetch(response)
      case Ok(data) => Ok(ProcessSearchResults(data.docs.GetOr([])))
      case Err(e) => Err(e)
  }

  /** What `getBookDetails` resolves or rejects with. */
  function DetailsResult(online: bool, response: FetchOutcome<RawBook>): (r: Result<BookDetail, ApiError>)
    ensures !online ==> r == Err(OfflineError)
    ensures online ==> (r.Ok? <==> Fetch(response).Ok?)
  {
    if !online then Err(OfflineError)
    else
      match Fetch(response)
      case Ok(data) => Ok(ProcessBookDetails(data))
      case Err(e) => Err(e)
  }

  class ApiClient {
    var isOnline: bool
    var status: ApiStatus

    constructor (online: bool)
      ensures isOnline == online && status == Unknown
    {
      isOnline := online;
      status := Unknown;
    }

    /** The `online` listener. */
    method GoOnline()
      modifies this
      ensures isOnline && status == Online
    {
      isOnline := true;
      status := Online;
    }

    /** The `offline` listener. */
    method GoOffline()
      modifies this
      ensures !isOnline && status == Offline
    {
      isOnline := false;
      status := Offline;
    }

    /** `handleAPIError(error)`: the status panel shows the classified message. */
    method HandleApiError(err: ApiError)
      modifies this`status
      ensures status == Failed(ErrorMessage(err, isOnline))
    {
      status := Failed(ErrorMessage(err, isOnline));
    }

    /** `searchBooksByTitle` and `searchBooksByAuthor`, given the outcome of the request. */
    method SearchBooks(response: FetchOutcome<RawSearchResponse>) returns (r: Result<seq<SearchHit>, ApiError>)
      modifies this`status
      ensures r == SearchResult(isOnline, response)
      ensures !isOnline ==> r == Err(OfflineError) && status == old(status)
      ensures isOnline && Fetch(response).Ok? ==>
        r == Ok(ProcessSearchResults(Fetch(response).value.docs.GetOr([]))) && status == old(status)
      ensures isOnline && Fetch(response).Err? ==>
        r == Err(Fetch(response).error) && status == Failed(ErrorMessage(Fetch(response).error, isOnline))
    {
      if !isOnline {
        return Err(OfflineError);
      }
      var fetched := Fetch(response);
      match fetched
      case Ok(data) =>
        r := Ok(ProcessSearchResults(data.docs.GetOr([])));
      case Err(e) =>
        HandleApiError(e);
        r := Err(e);
    }

    /** `getBookDetails(isbn)`, given the outcome of the request. */
    method GetBookDetails(response: FetchOutcome<RawBook>) returns (r: Result<BookDetail, ApiError>)
      modifies this`status
      ensures r == DetailsResult(isOnline, response)
      ensures !isOnline ==> r == Err(OfflineError) && status == old(status)
      ensures isOnline && Fetch(response).Ok? ==>
        r == Ok(ProcessBookDetails(Fetch(response).value)) && status == old(status)
      ensures isOnline && Fetch(response).Err? ==>
        r == Err(Fetch(response).error) && status == Failed(ErrorMessage(Fetch(response).error, isOnline))
    {
      if !isOnline {
        return Err(OfflineError);
      }
      var fetched := Fetch(response);
      match fetched
      case Ok(data) =>
        r := Ok(ProcessBookDetails(data));
      case Err(e) =>
        HandleApiError(e);
        r := Err(e);
    }

    /** `getAuthorInfo(authorKey)`, given the outcome of the request. */
    method GetAuthorInfo(response: FetchOutcome<RawAuthor>) returns (r: Result<AuthorDetail, ApiError>)
      modifies this`status
      ensures !isOnline ==> r == Err(OfflineError) && status == old(status)
      ensures isOnline && Fetch(response).Ok? ==>
        r == Ok(ProcessAuthorInfo(Fetch(response).value)) && status == old(status)
      ensures isOnline && Fetch(response).Err? ==>
        r == Err(Fetch(response).error) && status == Failed(ErrorMessage(Fetch(response).error, isOnline))
    {
      if !isOnline {
        return Err(OfflineError);
      }
      var fetched := Fetch(response);
      match fetched
      case Ok(data) =>
        r := Ok(ProcessAuthorInfo(data));
      case Err(e) =>
        HandleApiError(e);
        r := Err(e);
    }

    /** `getAPIStats()`, given the outcome of the search for 'popular': null when it fails. */
    method GetApiStats(response: FetchOutcome<RawSearchResponse>) returns (stats: Option<ApiStats>)
      modifies this`status
      ensures stats.Some? <==> isOnline && Fetch(response).Ok?
      ensures stats.Some? ==>
        var hits := ProcessSearchResults(Fetch(response).value.docs.GetOr([]));
        stats.value.totalResults == |hits|
        && stats.value.topGenres == TopGenres(CountAll(AllSubjects(hits)))
        && stats.value.yearDistribution == CountAll(Decades(hits)).counts
      ensures status ==
        if isOnline && Fetch(response).Err? then Failed(ErrorMessage(Fetch(response).error, isOnline))
        else old(status)
    {
      var found := SearchBooks(response);
      match found
      case Err(_) =>
        stats := None;
      case Ok(hits) =>
        var s := AggregateStats(hits);
        stats := Some(s);
    }
  }

  /** The counting part of `getAPIStats` over the hits of the search. */
  method AggregateStats(hits: seq<SearchHit>) returns (stats: ApiStats)
    ensures stats.totalResults == |hits|
    ensures stats.topGenres == TopGenres(CountAll(AllSubjects(hits)))
    ensures stats.yearDistribution == CountAll(Decades(hits)).counts
    ensures forall d :: d in stats.yearDistribution ==> d % 10 == 0 && stats.yearDistribution[d] > 0
  {
    var genres: Counter<string> := Counter([], map[]);
    var years: Counter<int> := Counter([], map[]);
    var i := 0;
    while i < |hits|
      invariant 0 <= i <= |hits|
      invariant genres == CountAll(AllSubjects(hits[..i]))
      invariant years == CountAll(Decades(hits[..i]))
    {
      HitStep(hits, i);
      genres := CountSubjects(genres, AllSubjects(hits[..i]), hits[i].subjects);
      DecadeCountStep(hits, i);
      var year := hits[i].publishYear;
      if TruthyNum(year) {
        years := Bump(years, Decade(year.value));
      }
      i := i + 1;
    }
    assert hits[..i] == hits;
    DecadeCounts(hits);
    stats := ApiStats(|hits|, TopGenres(genres), years.counts);
  }

  /** The inner `forEach` over the subjects of one hit: each subject adds one to its count. */
  method CountSubjects(genres: Counter<string>, before: seq<string>, subjects: seq<string>)
    returns (after: Counter<string>)
    requires genres == CountAll(before)
    ensures after == CountAll(before + subjects)
  {
    after := genres;
    var j := 0;
    assert before + subjects[..0] == before;
    while j < |subjects|
      invariant 0 <= j <= |subjects|
      invariant after == CountAll(before + subjects[..j])
    {
      CountAllExtend(before, subjects, j);
      after := Bump(after, subjects[j]);
      j := j + 1;
    }
    assert subjects[..j] == subjects;
  }

  /** One more hit adds its decade to the count when its year is truthy. */
  lemma DecadeCountStep(hits: seq<SearchHit>, i: nat)
    requires i < |hits|
    ensures CountAll(Decades(hits[..i + 1])) ==
      if TruthyNum(hits[i].publishYear) then Bump(CountAll(Decades(hits[..i])), Decade(hits[i].publishYear.value))
      else CountAll(Decades(hits[..i]))
  {
    HitStep(hits, i);
    if TruthyNum(hits[i].publishYear) {
      CountAllSnoc(Decades(hits[..i]), Decade(hits[i].publishYear.value));
    } else {
      assert Decades(hits[..i + 1]) == Decades(hits[..i]);
    }
  }

  /** Every counted decade is a multiple of ten seen at least once. */
  lemma DecadeCounts(hits: seq<SearchHit>)
    ensures forall d :: d in CountAll(Decades(hits)).counts ==> d % 10 == 0 && CountAll(Decades(hits)).counts[d] > 0
  {
    CountAllCounts(Decades(hits));
    DecadesAreDecades(hits);
  }

  /** How the subjects and decades grow by one hit. */
  lemma HitStep(hits: seq<SearchHit>, i: nat)
    requires i < |hits|
    ensures AllSubjects(hits[..i + 1]) == AllSubjects(hits[..i]) + hits[i].subjects
    ensures Decades(hits[..i + 1]) ==
      Decades(hits[..i]) + (if TruthyNum(hits[i].publishYear) then [Decade(hits[i].publishYear.value)] else [])
  {
    assert hits[..i + 1][..i] == hits[..i];
  }

  lemma {:induction false} DecadesAreDecades(hits: seq<SearchHit>)
    ensures forall d :: d in Decades(hits) ==> d % 10 == 0
  {
    if hits != [] {
      DecadesAreDecades(hits[..|hits| - 1]);
    }
  }
}
