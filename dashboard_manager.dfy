/** The dashboard: its key figures and chart data, the step of the counter animation, and
    the batch enrichment of books from OpenLibrary. */
module Dashboard {
  import opened Wrappers
  import opened Text
  import opened Counting
  import opened Records
  import Api
  import Books
  import Authors
  import Storage

  function Min(a: int, b: int): int {
    if a <= b then a else b
  }

  function Max(a: int, b: int): int {
    if a >= b then a else b
  }

  // ---------------------------------------------------------------------------------------
  // The most frequent key of a counting object

  /** The first entry of `Object.entries(counts).sort(([, a], [, b]) => b - a)`, or none for
      an empty object: a key of highest count, the first inserted one among ties. */
  function FirstMost(c: Counter<string>): (top: Option<(string, nat)>)
    requires forall k :: k in c.order ==> k in c.counts
    ensures top.None? <==> c.order == []
    ensures top.Some? ==> top.value.0 in c.order && top.value.1 == c.counts[top.value.0]
    ensures top.Some? ==> forall k :: k in c.order ==> c.counts[k] <= top.value.1
    ensures top.Some? ==>
      exists m :: 0 <= m < |c.order| && c.order[m] == top.value.0 && forall j :: 0 <= j < m ==> c.counts[c.order[j]] < top.value.1
  {
    var es := Entries(c);
    if es == [] then None
    else
      FirstMostFacts(c);
      Some(SortBy(es, Api.ByCountDesc)[0])
  }

  lemma FirstMostFacts(c: Counter<string>)
    requires forall k :: k in c.order ==> k in c.counts
    requires c.order != []
    ensures var m := FirstMin(Entries(c), Api.ByCountDesc);
      && SortBy(Entries(c), Api.ByCountDesc)[0] == (c.order[m], c.counts[c.order[m]])
      && (forall k :: k in c.order ==> c.counts[k] <= c.counts[c.order[m]])
      && (forall j :: 0 <= j < m ==> c.counts[c.order[j]] < c.counts[c.order[m]])
  {
    var es := Entries(c);
    SortByHead(es, Api.ByCountDesc);
    var m := FirstMin(es, Api.ByCountDesc);
    forall k | k in c.order
      ensures c.counts[k] <= c.counts[c.order[m]]
    {
      var j :| 0 <= j < |c.order| && c.order[j] == k;
      assert Api.ByCountDesc(es[m]) <= Api.ByCountDesc(es[j]);
    }
    forall j | 0 <= j < m
      ensures c.counts[c.order[j]] < c.counts[c.order[m]]
    {
      assert Api.ByCountDesc(es[m]) < Api.ByCountDesc(es[j]);
    }
  }

  /** `getMostPopularGenre(genres)`: 'Aucun' for an empty object, otherwise a genre of
      highest count. */
  function MostPopularGenre(genres: Counter<string>): (g: string)
    requires forall k :: k in genres.order ==> k in genres.counts
    ensures genres.order == [] ==> g == "Aucun"
    ensures genres.order != [] ==> g in genres.order && forall k :: k in genres.order ==> genres.counts[k] <= genres.counts[g]
  {
    match FirstMost(genres)
    case None => "Aucun"
    case Some(e) => e.0
  }

  /** The genre shown is a genre of the collection that no other genre outnumbers. */
  lemma MostPopularGenreOfBooks(books: seq<Book>, genre: string)
    requires genre in Books.GenreList(books)
    ensures var g := MostPopularGenre(CountAll(Books.GenreList(books)));
      g in Books.GenreList(books)
      && multiset(Books.GenreList(books))[genre] <= multiset(Books.GenreList(books))[g]
  {
    CountAllCounts(Books.GenreList(books));
  }

  // ---------------------------------------------------------------------------------------
  // Chart data

  /** The labels and values handed to a chart. */
  datatype ChartData = ChartData(labels: seq<string>, data: seq<nat>)

  /** The ten colours of the genre chart. */
  const Palette: seq<string> := [
    "#4e73df", "#1cc88a", "#36b9cc", "#f6c23e", "#e74a3b",
    "#858796", "#5a5c69", "#f8f9fc", "#5e72e4", "#02c0ce"
  ]

  /** `prepareGenreChartData(genres)`: one slice per genre, in insertion order, or a single
      'Aucun genre' slice of 1; one colour per slice, at most ten. */
  function PrepareGenreChartData(genres: Counter<string>): (r: (ChartData, seq<string>))
    requires forall k :: k in genres.order ==> k in genres.counts
    ensures |r.0.labels| == |r.0.data| >= 1
    ensures genres.order == [] ==> r.0 == ChartData(["Aucun genre"], [1])
    ensures genres.order != [] ==> r.0.labels == genres.order
    ensures genres.order != [] ==> forall i :: 0 <= i < |r.0.labels| ==> r.0.data[i] == genres.counts[r.0.labels[i]]
    ensures |r.1| == Min(|r.0.labels|, |Palette|) && r.1 == Palette[..|r.1|]
  {
    var labels := Keys(Entries(genres));
    var data := Values(Entries(genres));
    (ChartData(if labels != [] then labels else ["Aucun genre"], if data != [] then data else [1]),
     Palette[..Min(Max(|labels|, 1), |Palette|)])
  }

  /** For a non-empty collection the slices add up to the number of books, one slice per
      distinct genre. */
  lemma GenreChartCoversBooks(books: seq<Book>)
    requires books != []
    ensures var chart := PrepareGenreChartData(CountAll(Books.GenreList(books))).0;
      Sum(chart.data) == |books| && Distinct(chart.labels)
  {
    var gs := Books.GenreList(books);
    CountAllEmpty(gs);
    CountAllEntries(gs);
  }

  /** The label of the decade of `year`: `${Math.floor(year / 10) * 10}s`. */
  function DecadeLabel(year: int): string {
    IntToString(Api.Decade(year)) + "s"
  }

  /** `parseInt(label)`, the sort key of a decade label. */
  function LabelDecade(text: string): int {
    ParseIntPrefix(text).GetOr(0)
  }

  function ByDecade(e: (string, nat)): int {
    LabelDecade(e.0)
  }

  /** A decade label parses back to its decade: the sort of the labels is by decade. */
  lemma DecadeLabelParses(year: int)
    ensures LabelDecade(DecadeLabel(year)) == Api.Decade(year)
  {
    IntToStringPrefixParses(Api.Decade(year), "s");
  }

  /** Two years share a label exactly when they share a decade. */
  lemma DecadeLabelsAgree(y1: int, y2: int)
    ensures DecadeLabel(y1) == DecadeLabel(y2) <==> Api.Decade(y1) == Api.Decade(y2)
  {
    DecadeLabelParses(y1);
    DecadeLabelParses(y2);
  }

  function DecadeLabels(years: seq<int>): (ls: seq<string>)
    ensures |ls| == |years| && forall i :: 0 <= i < |years| ==> ls[i] == DecadeLabel(years[i])
  {
    seq(|years|, i requires 0 <= i < |years| => DecadeLabel(years[i]))
  }

  /** The decade labels of the first `i + 1` books: one more label for a truthy year. */
  lemma DecadeStep(books: seq<Book>, i: nat)
    requires i < |books|
    ensures TruthyNum(books[i].year) ==>
      DecadeLabels(Books.YearList(books[..i + 1])) ==
      DecadeLabels(Books.YearList(books[..i])) + [DecadeLabel(books[i].year.value)]
    ensures !TruthyNum(books[i].year) ==>
      DecadeLabels(Books.YearList(books[..i + 1])) == DecadeLabels(Books.YearList(books[..i]))
  {
    Books.YearStep(books, i);
    if !TruthyNum(books[i].year) {
      assert Books.YearList(books[..i + 1]) == Books.YearList(books[..i]) + [];
    }
  }

  /** The histogram of the sorted decade counts: the labels are the decades of `years`, by
      increasing decade, each with its number of years, and the counts add up to `|years|`. */
  lemma DecadeHistogram(years: seq<int>)
    requires years != []
    ensures var decades := CountAll(DecadeLabels(years));
      var sorted := SortBy(Entries(decades), ByDecade);
      && sorted != []
      && (forall l :: l in Keys(sorted) <==> l in DecadeLabels(years))
      && (forall i :: 0 <= i < |sorted| ==> sorted[i].1 == multiset(DecadeLabels(years))[sorted[i].0])
      && (forall i, j :: 0 <= i < j < |sorted| ==> LabelDecade(sorted[i].0) <= LabelDecade(sorted[j].0))
      && Sum(Values(sorted)) == |years|
  {
    var labels := DecadeLabels(years);
    var es := Entries(CountAll(labels));
    CountAllEmpty(labels);
    SortedCounts(labels, ByDecade);
    SortBySorted(es, ByDecade);
  }

  // ---------------------------------------------------------------------------------------
  // General statistics

  function MinOf(xs: seq<int>): (m: int)
    requires xs != []
    ensures m in xs && forall x :: x in xs ==> m <= x
  {
    assert forall x :: x in xs ==> x == xs[0] || x in xs[1..];
    if |xs| == 1 then xs[0] else Min(xs[0], MinOf(xs[1..]))
  }

  function MaxOf(xs: seq<int>): (m: int)
    requires xs != []
    ensures m in xs && forall x :: x in xs ==> x <= m
  {
    assert forall x :: x in xs ==> x == xs[0] || x in xs[1..];
    if |xs| == 1 then xs[0] else Max(xs[0], MaxOf(xs[1..]))
  }

  lemma {:induction false} SumAtLeast(xs: seq<int>, lo: int)
    requires forall x :: x in xs ==> lo <= x
    ensures |xs| * lo <= Sum(xs)
  {
    if xs != [] {
      var t := xs[1..];
      assert xs[0] in xs;
      assert forall x :: x in t ==> x in xs;
      SumAtLeast(t, lo);
      assert |xs| * lo == |t| * lo + lo;
    }
  }

  lemma {:induction false} SumAtMost(xs: seq<int>, hi: int)
    requires forall x :: x in xs ==> x <= hi
    ensures Sum(xs) <= |xs| * hi
  {
    if xs != [] {
      var t := xs[1..];
      assert xs[0] in xs;
      assert forall x :: x in t ==> x in xs;
      SumAtMost(t, hi);
      assert |xs| * hi == |t| * hi + hi;
    }
  }

  lemma MulMonotone(n: nat, a: int, b: int)
    requires a <= b
    ensures n * a <= n * b
  {
    assert n * b - n * a == n * (b - a);
  }

  /** `Math.round(a / n)` for a positive `n`: the nearest integer, halves rounded up. */
  function RoundDiv(a: int, n: int): (r: int)
    requires n > 0
    ensures 2 * n * r <= 2 * a + n < 2 * n * (r + 1)
  {
    (2 * a + n) / (2 * n)
  }

  lemma RoundDivBetween(a: int, n: int, lo: int, hi: int)
    requires n > 0 && n * lo <= a <= n * hi
    ensures lo <= RoundDiv(a, n) <= hi
  {
    var r := RoundDiv(a, n);
    Twice(n, lo);
    Twice(n, hi);
    MulCancel(2 * n, lo, r + 1);
    MulCancel(2 * n, r, hi + 1);
  }

  lemma Twice(n: int, x: int)
    ensures 2 * n * x == 2 * (n * x) && 2 * n * (x + 1) == 2 * (n * x) + 2 * n
  {
  }

  /** A positive factor can be cancelled from a strict inequality. */
  lemma MulCancel(m: int, x: int, y: int)
    requires m > 0 && m * x < m * y
    ensures x < y
  {
    if x >= y {
      MulMonotone(m, y, x);
    }
  }

  /** The rounded mean of the publication years, or null without any. */
  function AverageYear(years: seq<int>): (avg: Option<int>)
    ensures avg.None? <==> years == []
    ensures avg.Some? ==> MinOf(years) <= avg.value <= MaxOf(years)
  {
    if years == [] then None
    else
      SumAtLeast(years, MinOf(years));
      SumAtMost(years, MaxOf(years));
      RoundDivBetween(Sum(years), |years|, MinOf(years), MaxOf(years));
      Some(RoundDiv(Sum(years), |years|))
  }

  /** `Math.round(available / total * 100)`, or 0 without books. */
  function AvailabilityRate(available: nat, total: nat): (rate: int)
    requires available <= total
    ensures total == 0 ==> rate == 0
    ensures 0 <= rate <= 100
    ensures total > 0 ==> 2 * total * rate <= 200 * available + total < 2 * total * (rate + 1)
    ensures total > 0 && available == total ==> rate == 100
    ensures available == 0 ==> rate == 0
  {
    if total == 0 then 0
    else
      RateBounds(available, total);
      RoundDiv(100 * available, total)
  }

  lemma RateBounds(available: nat, total: nat)
    requires available <= total && total > 0
    ensures 0 <= RoundDiv(100 * available, total) <= 100
    ensures available == total ==> RoundDiv(100 * available, total) == 100
    ensures available == 0 ==> RoundDiv(100 * available, total) == 0
  {
    RoundDivBetween(100 * available, total, 0, 100);
    if available == total {
      RoundDivBetween(100 * available, total, 100, 100);
    }
    if available == 0 {
      RoundDivBetween(100 * available, total, 0, 0);
    }
  }

  /** What `calculateGeneralStats()` returns. */
  datatype GeneralStats = GeneralStats(
    totalBooks: nat,
    totalAuthors: nat,
    availableBooks: nat,
    availabilityRate: int,
    averagePublishYear: Option<int>,
    totalGenres: nat,
    mostPopularGenre: string,
    topAuthor: Option<(string, nat)>)

  // ---------------------------------------------------------------------------------------
  // One step of the counter animation

  /** `parseInt(text) || 0`: the value a KPI shows. */
  function ShownValue(text: string): int {
    ParseIntPrefix(text).GetOr(0)
  }

  /** A rendered number reads back as itself. */
  lemma ShownValueOfNumber(n: int)
    ensures ShownValue(IntToString(n)) == n
  {
    IntToStringPrefixParses(n, []);
    assert IntToString(n) + [] == IntToString(n);
  }

  /** `Math.ceil(x / 20)`. */
  function CeilDiv20(x: int): (c: int)
    ensures 20 * (c - 1) < x <= 20 * c
  {
    0 - (0 - x) / 20
  }

  function Abs(x: int): nat {
    if x < 0 then -x else x
  }

  /** One step of `animateCounter` as written: the next value shown, or none when the
      animation stops. The decrease uses `Math.abs(increment)` of the rounded-up quotient. */
  function CounterStep(current: int, target: int): (next: Option<int>)
    ensures next.None? <==> current == target
  {
    var increment := CeilDiv20(target - current);
    if current < target then Some(Min(current + increment, target))
    else if current > target then Some(Max(current - Abs(increment), target))
    else None
  }

  /** Below the target, each step moves up by at least one without passing the target. */
  lemma CounterRises(current: int, target: int)
    requires current < target
    ensures CounterStep(current, target).Some?
    ensures current < CounterStep(current, target).value <= target
  {
  }

  /** Above the target by less than 20, the step leaves the value where it is. */
  lemma CounterStallsAbove(current: int, target: int)
    requires target < current < target + 20
    ensures CounterStep(current, target) == Some(current)
  {
    assert CeilDiv20(target - current) == 0;
  }

  /** The values shown after `steps` rescheduled steps. */
  function Animate(current: int, target: int, steps: nat): int
    decreases steps
  {
    if steps == 0 then current
    else
      match CounterStep(current, target)
      case None => current
      case Some(next) => Animate(next, target, steps - 1)
  }

  /** As written, a counter above its target never reaches it, however many steps run. */
  lemma {:induction false} CounterNeverFallsToTarget(current: int, target: int, steps: nat)
    requires current > target
    ensures Animate(current, target, steps) > target
    decreases steps
  {
    if steps > 0 {
      var d := current - target;
      assert Abs(CeilDiv20(target - current)) == d / 20;
      CounterNeverFallsToTarget(CounterStep(current, target).value, target, steps - 1);
    }
  }

  /** A counter below its target reaches it within `target - current` steps. */
  lemma {:induction false} CounterRisesToTarget(current: int, target: int, steps: nat)
    requires current <= target && steps >= target - current
    ensures Animate(current, target, steps) == target
    decreases steps
  {
    if steps > 0 && current < target {
      CounterRises(current, target);
      CounterRisesToTarget(CounterStep(current, target).value, target, steps - 1);
    }
  }

  /** The step with the decrease rounded up as well, so that it is never 0. */
  function CounterStepFixed(current: int, target: int): (next: Option<int>)
    ensures next.None? <==> current == target
    ensures current < target ==> current < next.value <= target
    ensures current > target ==> target <= next.value < current
  {
    if current < target then Some(Min(current + CeilDiv20(target - current), target))
    else if current > target then Some(Max(current - CeilDiv20(current - target), target))
    else None
  }

  function AnimateFixed(current: int, target: int, steps: nat): int
    decreases steps
  {
    if steps == 0 then current
    else
      match CounterStepFixed(current, target)
      case None => current
      case Some(next) => AnimateFixed(next, target, steps - 1)
  }

  /** With the corrected step the counter reaches its target from either side, within
      `|target - current|` steps. */
  lemma {:induction false} CounterFixedReachesTarget(current: int, target: int, steps: nat)
    requires steps >= Abs(target - current)
    ensures AnimateFixed(current, target, steps) == target
    decreases steps
  {
    if steps > 0 && current != target {
      CounterFixedReachesTarget(CounterStepFixed(current, target).value, target, steps - 1);
    }
  }

  // ---------------------------------------------------------------------------------------
  // Batch enrichment

  /** The number of books `autoEnrichBooks` attempts at most. */
  const MaxEnrichments := 5

  /** A book not yet enriched, with an isbn or a title to look it up by. */
  predicate NeedsEnrichment(b: Book) {
    !b.enrichedFromAPI && (b.isbn != "" || b.title != "")
  }

  /** `books.filter(book => !book.enrichedFromAPI && (book.isbn || book.title))`. */
  function Candidates(books: seq<Book>): (cs: seq<Book>)
    ensures forall b :: b in cs <==> b in books && NeedsEnrichment(b)
    ensures Books.Subsequence(cs, books)
  {
    if books == [] then []
    else if NeedsEnrichment(books[0]) then [books[0]] + Candidates(books[1..])
    else Candidates(books[1..])
  }

  /** `booksToEnrich.slice(0, maxEnrichments)`. */
  function Attempted(books: seq<Book>): (att: seq<Book>)
    ensures |att| == Min(|Candidates(books)|, MaxEnrichments)
    ensures att == Candidates(books)[..|att|]
  {
    var cs := Candidates(books);
    if |cs| <= MaxEnrichments then cs else cs[..MaxEnrichments]
  }

  /** How a candidate is looked up: by isbn when it has one, otherwise by title. */
  datatype Lookup = ByIsbn(isbn: string) | ByTitle(title: string)

  /** The remote calls and pauses of a batch, in order. */
  datatype Event = Looked(lookup: Lookup) | Paused

  /** What became of one attempted candidate. */
  datatype Outcome = Threw | NoData | Enriched

  function LookupOf(b: Book): Lookup {
    if b.isbn != "" then ByIsbn(b.isbn) else ByTitle(b.title)
  }

  /** What the lookup resolves to: the data to merge, none (an empty search), or the error
      it rejects with. */
  function LookupResult(
    l: Lookup, online: bool,
    details: string -> Api.FetchOutcome<Api.RawBook>,
    search: string -> Api.FetchOutcome<Api.RawSearchResponse>): (r: Result<Option<Api.Remote>, Api.ApiError>)
    ensures !online ==> r == Err(Api.OfflineError)
    ensures l.ByIsbn? && online ==> (r.Ok? <==> Api.Fetch(details(l.isbn)).Ok?) && (r.Ok? ==> r.value.Some?)
    ensures l.ByTitle? && online ==> (r.Ok? <==> Api.Fetch(search(l.title)).Ok?)
    ensures l.ByTitle? && r.Ok? ==> (r.value.None? <==> Api.Fetch(search(l.title)).value.docs.GetOr([]) == [])
  {
    match l
    case ByIsbn(isbn) =>
      (match Api.DetailsResult(online, details(isbn))
       case Ok(d) => Ok(Some(Api.FromDetail(d)))
       case Err(e) => Err(e))
    case ByTitle(title) =>
      (match Api.SearchResult(online, search(title))
       case Ok(hits) => Ok(if hits == [] then None else Some(Api.FromHit(hits[0])))
       case Err(e) => Err(e))
  }

  /** The outcome agrees with the lookup: a rejected lookup is caught, an empty one updates
      nothing, and data is merged unless the update itself throws. */
  predicate Explains(o: Outcome, r: Result<Option<Api.Remote>, Api.ApiError>) {
    match r
    case Err(_) => o == Threw
    case Ok(None) => o == NoData
    case Ok(Some(_)) => o == Enriched || o == Threw
  }

  /** The events of one attempt: its lookup, then the pause unless something threw. */
  function StepEvents(b: Book, o: Outcome): seq<Event> {
    [Looked(LookupOf(b))] + (if o == Threw then [] else [Paused])
  }

  function TraceOf(att: seq<Book>, outs: seq<Outcome>): seq<Event>
    requires |att| == |outs|
  {
    if att == [] then []
    else TraceOf(att[..|att| - 1], outs[..|outs| - 1]) + StepEvents(att[|att| - 1], outs[|outs| - 1])
  }

  /** The lookups of a trace, in order. */
  function Lookups(t: seq<Event>): seq<Lookup> {
    if t == [] then []
    else Lookups(t[..|t| - 1]) + (if t[|t| - 1].Looked? then [t[|t| - 1].lookup] else [])
  }

  function Pauses(t: seq<Event>): nat {
    if t == [] then 0 else Pauses(t[..|t| - 1]) + (if t[|t| - 1] == Paused then 1 else 0)
  }

  function CountOf(outs: seq<Outcome>, o: Outcome): (n: nat)
    ensures n <= |outs|
  {
    if outs == [] then 0 else CountOf(outs[..|outs| - 1], o) + (if outs[|outs| - 1] == o then 1 else 0)
  }

  lemma {:induction false} TraceAppend(t1: seq<Event>, t2: seq<Event>)
    ensures Lookups(t1 + t2) == Lookups(t1) + Lookups(t2)
    ensures Pauses(t1 + t2) == Pauses(t1) + Pauses(t2)
    decreases |t2|
  {
    if t2 == [] {
      assert t1 + t2 == t1;
    } else {
      var init := t2[..|t2| - 1];
      var t := t1 + t2;
      assert t[..|t| - 1] == t1 + init;
      assert t[|t| - 1] == t2[|t2| - 1];
      TraceAppend(t1, init);
    }
  }

  /** One attempt looks up once and pauses unless it threw. */
  lemma StepShape(b: Book, o: Outcome)
    ensures Lookups(StepEvents(b, o)) == [LookupOf(b)]
    ensures Pauses(StepEvents(b, o)) == if o == Threw then 0 else 1
  {
    var e := Looked(LookupOf(b));
    assert [e][..0] == [] && [e][0] == e;
    assert Lookups([e]) == [LookupOf(b)];
    assert Pauses([e]) == 0;
    if o != Threw {
      var step := [e, Paused];
      assert StepEvents(b, o) == step;
      assert step[..1] == [e];
    }
  }

  /** The batch looks up each attempted book once, in order, by its isbn or else its title,
      and pauses once after each attempt that did not throw. */
  lemma {:induction false} TraceShape(att: seq<Book>, outs: seq<Outcome>)
    requires |att| == |outs|
    ensures Lookups(TraceOf(att, outs)) == seq(|att|, i requires 0 <= i < |att| => LookupOf(att[i]))
    ensures Pauses(TraceOf(att, outs)) == |outs| - CountOf(outs, Threw)
  {
    if att != [] {
      var n := |att| - 1;
      var prefix := att[..n];
      TraceShape(prefix, outs[..n]);
      TraceAppend(TraceOf(prefix, outs[..n]), StepEvents(att[n], outs[n]));
      StepShape(att[n], outs[n]);
      LookupsSnoc(att);
    }
  }

  /** The lookups of a non-empty list of books: those of all but the last, then the last's. */
  lemma LookupsSnoc(att: seq<Book>)
    requires att != []
    ensures seq(|att|, i requires 0 <= i < |att| => LookupOf(att[i]))
      == seq(|att| - 1, i requires 0 <= i < |att| - 1 => LookupOf(att[..|att| - 1][i])) + [LookupOf(att[|att| - 1])]
  {
  }

  /** Every outcome so far agrees with the lookup of its book. */
  ghost predicate AllExplained(
    outs: seq<Outcome>, att: seq<Book>, online: bool,
    details: string -> Api.FetchOutcome<Api.RawBook>,
    search: string -> Api.FetchOutcome<Api.RawSearchResponse>)
  {
    |outs| <= |att| &&
    forall m :: 0 <= m < |outs| ==> Explains(outs[m], LookupResult(LookupOf(att[m]), online, details, search))
  }

  /** One more attempt extends the trace by its events. */
  lemma TraceStep(outs: seq<Outcome>, att: seq<Book>, o: Outcome)
    requires |outs| < |att|
    ensures TraceOf(att[..|outs| + 1], outs + [o]) == TraceOf(att[..|outs|], outs) + StepEvents(att[|outs|], o)
  {
    var k := |outs|;
    var prefix := att[..k];
    PrefixSnoc(att, k);
    TraceSnoc(prefix, outs, att[k], o);
    assert att[..k + 1] == prefix + [att[k]];
  }

  /** The trace of one more attempt is the trace so far followed by that attempt's events. */
  lemma TraceSnoc(att: seq<Book>, outs: seq<Outcome>, b: Book, o: Outcome)
    requires |att| == |outs|
    ensures TraceOf(att + [b], outs + [o]) == TraceOf(att, outs) + StepEvents(b, o)
  {
    assert (att + [b])[..|att|] == att;
    assert (outs + [o])[..|outs|] == outs;
  }

  /** One more attempt adds one to the count exactly when it enriched its book. */
  lemma CountStep(outs: seq<Outcome>, o: Outcome)
    ensures CountOf(outs + [o], Enriched) == CountOf(outs, Enriched) + (if o == Enriched then 1 else 0)
  {
    assert (outs + [o])[..|outs|] == outs;
  }

  lemma ExplainedStep(
    outs: seq<Outcome>, att: seq<Book>, o: Outcome, online: bool,
    details: string -> Api.FetchOutcome<Api.RawBook>,
    search: string -> Api.FetchOutcome<Api.RawSearchResponse>)
    requires |outs| < |att|
    requires AllExplained(outs, att, online, details, search)
    requires Explains(o, LookupResult(LookupOf(att[|outs|]), online, details, search))
    ensures AllExplained(outs + [o], att, online, details, search)
  {
    var outs' := outs + [o];
    forall m | 0 <= m < |outs'|
      ensures Explains(outs'[m], LookupResult(LookupOf(att[m]), online, details, search))
    {
      if m < |outs| {
        assert outs'[m] == outs[m];
      }
    }
  }

  /** `b` is what `updateBook(book.id, enrichLocalData(book, apiData))` writes back for the
      candidate `c`: the enriched copy of `c` stamped `now`, up to the edition details the
      update looks up when the isbn differs from the slot's, and up to the looked-up data
      the slot keeps where the enriched copy has none. */
  predicate MergedFrom(b: Book, c: Book, remote: Api.Remote, now: string) {
    var m := Api.EnrichLocalData(c, remote, now).(lastModified := Some(now));
    && b.(enrichedData := m.enrichedData, coverUrl := m.coverUrl, apiSubjects := m.apiSubjects,
          publishers := m.publishers) == m
    && (m.apiSubjects.Some? ==> b.apiSubjects == m.apiSubjects)
    && (m.publishers.Some? ==> b.publishers == m.publishers)
  }

  /** The book `updateBook` leaves in a slot holding `slot`: the enriched copy of `c` spread
      over the slot and stamped `now`, with the edition details looked up again when its isbn
      differs from the slot's and a client is there (`online` is its connection flag). */
  function MergedSlot(
    slot: Book, c: Book, remote: Api.Remote, now: string, online: Option<bool>,
    details: string -> Api.FetchOutcome<Api.RawBook>): (b: Book)
    ensures MergedFrom(b, c, remote, now)
    ensures Api.EnrichLocalData(c, remote, now).apiSubjects.None? ==> b.apiSubjects == slot.apiSubjects
    ensures Api.EnrichLocalData(c, remote, now).publishers.None? ==> b.publishers == slot.publishers
  {
    var enriched := Api.EnrichLocalData(c, remote, now);
    SpreadOver(slot, enriched);
    var merged := ApplyPatch(slot, SpreadOf(enriched)).(lastModified := Some(now));
    if enriched.isbn != "" && enriched.isbn != slot.isbn && online.Some?
    then Books.WithDetails(merged, Api.DetailsResult(online.value, details(enriched.isbn)))
    else merged
  }

  /** In the slot the candidate came from, the merge is the enriched copy stamped `now`:
      no second lookup, and nothing of the slot survives. */
  lemma MergedSlotOwn(
    c: Book, remote: Api.Remote, now: string, online: Option<bool>,
    details: string -> Api.FetchOutcome<Api.RawBook>)
    ensures MergedSlot(c, c, remote, now, online, details) ==
      Api.EnrichLocalData(c, remote, now).(lastModified := Some(now))
  {
    SpreadOver(c, Api.EnrichLocalData(c, remote, now));
  }

  /** Two rounds that each may write the books key leave the store as one write of the
      later list would, or untouched when neither round wrote. */
  lemma StoredBooksStep(
    e0: map<string, Storage.Value>, e1: map<string, Storage.Value>, e2: map<string, Storage.Value>,
    b1: seq<Book>, b2: seq<Book>, quota: bool, wrote: bool, writes: bool)
    requires e1 == if !wrote || quota then e0 else e0[Storage.BooksKey := Storage.BookArray(b1)]
    requires e2 == if !writes || quota then e1 else e1[Storage.BooksKey := Storage.BookArray(b2)]
    requires !writes ==> b2 == b1
    ensures e2 == if !(wrote || writes) || quota then e0 else e0[Storage.BooksKey := Storage.BookArray(b2)]
  {
    if wrote && writes && !quota {
      assert e2 == e0[Storage.BooksKey := Storage.BookArray(b2)];
    }
  }

  /** `b` is the merge of the data the lookup of `c` found. */
  predicate MergedLookup(
    b: Book, c: Book, online: bool,
    details: string -> Api.FetchOutcome<Api.RawBook>,
    search: string -> Api.FetchOutcome<Api.RawSearchResponse>,
    now: string)
  {
    var r := LookupResult(LookupOf(c), online, details, search);
    r.Ok? && r.value.Some? && MergedFrom(b, c, r.value.value, now)
  }

  /** The books after a batch: as many as before, each one untouched or holding the merge
      of the data found for one of the candidates. */
  ghost predicate KeptOrEnriched(
    after: seq<Book>, before: seq<Book>, cands: seq<Book>, online: bool,
    details: string -> Api.FetchOutcome<Api.RawBook>,
    search: string -> Api.FetchOutcome<Api.RawSearchResponse>,
    now: string)
  {
    |after| == |before| &&
    forall j :: 0 <= j < |after| ==>
      after[j] == before[j] || exists k :: 0 <= k < |cands| && MergedLookup(after[j], cands[k], online, details, search, now)
  }

  /** A round that keeps each book or merges the data found for candidate `k` extends a
      batch that kept or enriched every book. */
  lemma KeptOrEnrichedStep(
    after: seq<Book>, mid: seq<Book>, before: seq<Book>, cands: seq<Book>, k: nat, online: bool,
    details: string -> Api.FetchOutcome<Api.RawBook>,
    search: string -> Api.FetchOutcome<Api.RawSearchResponse>,
    now: string)
    requires KeptOrEnriched(mid, before, cands, online, details, search, now)
    requires k < |cands| && |after| == |mid|
    requires forall j :: 0 <= j < |after| ==>
      after[j] == mid[j] || MergedLookup(after[j], cands[k], online, details, search, now)
    ensures KeptOrEnriched(after, before, cands, online, details, search, now)
  {
  }

  /** A merged book carries the enrichment flag and the time of the merge. */
  lemma MergedIsEnriched(b: Book, c: Book, remote: Api.Remote, now: string)
    requires MergedFrom(b, c, remote, now)
    ensures b.enrichedFromAPI && b.lastEnriched == Some(now) && b.lastModified == Some(now)
    ensures b.id == c.id && b.title == c.title && b.isbn == c.isbn
  {
    var m := Api.EnrichLocalData(c, remote, now).(lastModified := Some(now));
    assert b.(enrichedData := m.enrichedData, coverUrl := m.coverUrl).enrichedFromAPI == b.enrichedFromAPI;
  }

  /** The `forEach` of `prepareAdvancedChartData`: each book with a truthy year adds one to
      the count of its decade label. */
  method CountDecadeLabels(books: seq<Book>) returns (decades: Counter<string>)
    ensures decades == CountAll(DecadeLabels(Books.YearList(books)))
  {
    decades := Counter([], map[]);
    ghost var labels: seq<string> := [];
    var i := 0;
    while i < |books|
      invariant 0 <= i <= |books|
      invariant labels == DecadeLabels(Books.YearList(books[..i]))
      invariant decades == CountAll(labels)
    {
      DecadeStep(books, i);
      if TruthyNum(books[i].year) {
        var decade := DecadeLabel(books[i].year.value);
        CountAllSnoc(labels, decade);
        decades := Bump(decades, decade);
        labels := labels + [decade];
      }
      i := i + 1;
    }
    assert books[..i] == books;
  }

  /** The dashboard over the book and author managers and the OpenLibrary client. */
  class DashboardManager {
    const bm: Books.BookManager
    const am: Authors.AuthorManager
    const api: Api.ApiClient?

    /** The constructor keeps its managers; drawing the dashboard is not modelled. */
    constructor (bm: Books.BookManager, am: Authors.AuthorManager, api: Api.ApiClient?)
      ensures this.bm == bm && this.am == am && this.api == api
    {
      this.bm := bm;
      this.am := am;
      this.api := api;
    }

    /** `prepareAdvancedChartData()`: the books with a truthy year, counted by decade label,
        the labels sorted by `parseInt`; 'Aucune donnée' and 0 without such books. */
    method PrepareAdvancedChartData() returns (chart: ChartData)
      ensures Books.YearList(bm.books) == [] ==> chart == ChartData(["Aucune donnée"], [0])
      ensures Books.YearList(bm.books) != [] ==>
        var labels := DecadeLabels(Books.YearList(bm.books));
        && |chart.labels| == |chart.data|
        && (forall l :: l in chart.labels <==> l in labels)
        && (forall i :: 0 <= i < |chart.labels| ==> chart.data[i] == multiset(labels)[chart.labels[i]])
        && (forall i, j :: 0 <= i < j < |chart.labels| ==> LabelDecade(chart.labels[i]) <= LabelDecade(chart.labels[j]))
        && Sum(chart.data) == |Books.YearList(bm.books)|
    {
      var books := bm.books;
      var decades := CountDecadeLabels(books);
      var sorted := SortBy(Entries(decades), ByDecade);
      if sorted == [] {
        CountAllEmpty(DecadeLabels(Books.YearList(books)));
        chart := ChartData(["Aucune donnée"], [0]);
      } else {
        DecadeHistogram(Books.YearList(books));
        chart := ChartData(Keys(sorted), Values(sorted));
      }
    }

    /** `calculateGeneralStats()`, with the clock's year for the author statistics. */
    method CalculateGeneralStats(currentYear: int) returns (s: GeneralStats)
      ensures s.totalBooks == |bm.books| && s.totalAuthors == |am.authors|
      ensures s.availableBooks == Books.AvailableCount(bm.books)
      ensures s.availabilityRate == AvailabilityRate(Books.AvailableCount(bm.books), |bm.books|)
      ensures |bm.books| == 0 ==> s.availabilityRate == 0
      ensures 0 <= s.availabilityRate <= 100
      ensures s.averagePublishYear == AverageYear(Books.YearList(bm.books))
      ensures s.averagePublishYear.None? <==> Books.YearList(bm.books) == []
      ensures s.totalGenres == |CountAll(Books.GenreList(bm.books)).order|
      ensures s.mostPopularGenre == MostPopularGenre(CountAll(Books.GenreList(bm.books)))
      ensures s.topAuthor == FirstMost(CountAll(Books.AuthorList(bm.books)))
      ensures s.topAuthor.None? <==> bm.books == []
    {
      var bookStats := bm.GetBookStats();
      var authorStats := am.GetAuthorStats(currentYear);
      var books := bm.books;
      Books.BookStatsSums(books);
      CountAllEmpty(Books.AuthorList(books));
      var rate := AvailabilityRate(bookStats.available, bookStats.total);
      s := GeneralStats(
        bookStats.total, authorStats.total, bookStats.available, rate,
        AverageYear(Books.YearList(books)),
        |bookStats.genres.order|,
        MostPopularGenre(bookStats.genres),
        FirstMost(bookStats.authors));
    }

    /** The lookup of one candidate: `getBookDetails(isbn)` or the first hit of
        `searchBooksByTitle(title, 1)`. */
    method LookUp(
      c: Book,
      details: string -> Api.FetchOutcome<Api.RawBook>,
      search: string -> Api.FetchOutcome<Api.RawSearchResponse>)
      returns (found: Result<Option<Api.Remote>, Api.ApiError>)
      requires api != null
      modifies api`status
      ensures found == LookupResult(LookupOf(c), api.isOnline, details, search)
      ensures api.isOnline == old(api.isOnline)
      ensures api.status ==
        if c.isbn != "" then Api.StatusAfter(old(api.status), api.isOnline, details(c.isbn))
        else Api.StatusAfter(old(api.status), api.isOnline, search(c.title))
    {
      if c.isbn != "" {
        var r := api.GetBookDetails(details(c.isbn));
        found := match r case Ok(d) => Ok(Some(Api.FromDetail(d))) case Err(e) => Err(e);
      } else {
        var r := api.SearchBooks(search(c.title));
        found := match r
          case Ok(hits) => Ok(if hits == [] then None else Some(Api.FromHit(hits[0])))
          case Err(e) => Err(e);
      }
    }

    /** `updateBook(book.id, enrichLocalData(book, apiData))`: false when it throws. */
    method Merge(c: Book, remote: Api.Remote, now: string, details: string -> Api.FetchOutcome<Api.RawBook>)
      returns (ok: bool)
      modifies bm`books, bm.storage`entries, bm.api
      ensures bm.api != null ==> bm.api.isOnline == old(bm.api.isOnline)
      ensures ok <==> Books.FindLoose(old(bm.books), c.id).Some?
      ensures !ok ==> bm.books == old(bm.books) && bm.storage.entries == old(bm.storage.entries)
      ensures ok ==>
        var i := Books.FindLoose(old(bm.books), c.id).value;
        var online := if bm.api != null then Some(bm.api.isOnline) else None;
        && bm.books == old(bm.books)[i := MergedSlot(old(bm.books)[i], c, remote, now, online, details)]
        && bm.storage.entries ==
          if bm.storage.quotaExceeded then old(bm.storage.entries)
          else old(bm.storage.entries)[Storage.BooksKey := Storage.BookArray(bm.books)]
      ensures |bm.books| == |old(bm.books)|
      ensures forall j :: 0 <= j < |bm.books| ==> bm.books[j] == old(bm.books)[j] || MergedFrom(bm.books[j], c, remote, now)
      ensures bm.api != null ==>
        bm.api.status ==
          if && Books.FindLoose(old(bm.books), c.id).Some?
             && c.isbn != "" && c.isbn != old(bm.books)[Books.FindLoose(old(bm.books), c.id).value].isbn
          then Api.StatusAfter(old(bm.api.status), bm.api.isOnline, details(c.isbn))
          else old(bm.api.status)
    {
      var enriched := Api.EnrichLocalData(c, remote, now);
      assert enriched.isbn == c.isbn;
      var u := bm.UpdateBook(c.id, SpreadOf(enriched), now, details(enriched.isbn));
      ok := u.Ok?;
    }

    /** The body of the `try` for one candidate: the lookup, then the merge when data came
        back. */
    method Attempt(
      c: Book,
      details: string -> Api.FetchOutcome<Api.RawBook>,
      search: string -> Api.FetchOutcome<Api.RawSearchResponse>,
      now: string)
      returns (outcome: Outcome)
      requires api != null
      modifies bm`books, bm.storage`entries, bm.api, api
      ensures api.isOnline == old(api.isOnline)
      ensures Explains(outcome, LookupResult(LookupOf(c), old(api.isOnline), details, search))
      ensures bm.api != null ==> bm.api.isOnline == old(bm.api.isOnline)
      ensures outcome != Enriched ==>
        bm.books == old(bm.books) && bm.storage.entries == old(bm.storage.entries)
      ensures bm.storage.entries ==
        if outcome != Enriched || bm.storage.quotaExceeded then old(bm.storage.entries)
        else old(bm.storage.entries)[Storage.BooksKey := Storage.BookArray(bm.books)]
      ensures outcome == Enriched ==>
        && LookupResult(LookupOf(c), old(api.isOnline), details, search).Ok?
        && LookupResult(LookupOf(c), old(api.isOnline), details, search).value.Some?
        && Books.FindLoose(old(bm.books), c.id).Some?
      ensures outcome == Enriched ==>
        var remote := LookupResult(LookupOf(c), old(api.isOnline), details, search).value.value;
        var i := Books.FindLoose(old(bm.books), c.id).value;
        var online := if bm.api != null then Some(bm.api.isOnline) else None;
        bm.books == old(bm.books)[i := MergedSlot(old(bm.books)[i], c, remote, now, online, details)]
      ensures |bm.books| == |old(bm.books)|
      ensures forall j :: 0 <= j < |bm.books| ==>
        bm.books[j] == old(bm.books)[j] || MergedLookup(bm.books[j], c, old(api.isOnline), details, search, now)
      ensures Api.StatusKept(old(api.status), api.status, api.isOnline)
      ensures bm.api != null ==> Api.StatusKept(old(bm.api.status), bm.api.status, bm.api.isOnline)
    {
      var found := LookUp(c, details, search);
      match found {
        case Err(_) =>
          outcome := Threw;
        case Ok(None) =>
          outcome := NoData;
        case Ok(Some(remote)) =>
          var ok := Merge(c, remote, now, details);
          outcome := if ok then Enriched else Threw;
      }
    }

    /** One pass of the loop of `autoEnrichBooks` over `attempted[k]`: the attempt keeps the
        books kept or enriched from `books`, the store written once with the latest list
        (`wrote` says whether an earlier pass wrote it), and both status panels within what
        they were at the start. */
    method EnrichRound(
      attempted: seq<Book>, k: nat, books: seq<Book>, ghost entries: map<string, Storage.Value>,
      ghost status0: Api.ApiStatus, ghost bmStatus0: Api.ApiStatus, wrote: bool,
      details: string -> Api.FetchOutcome<Api.RawBook>,
      search: string -> Api.FetchOutcome<Api.RawSearchResponse>,
      now: string)
      returns (outcome: Outcome)
      requires api != null && k < |attempted|
      requires KeptOrEnriched(bm.books, books, attempted, api.isOnline, details, search, now)
      requires !wrote ==> bm.books == books
      requires bm.storage.entries ==
        if !wrote || bm.storage.quotaExceeded then entries
        else entries[Storage.BooksKey := Storage.BookArray(bm.books)]
      requires Api.StatusKept(status0, api.status, api.isOnline)
      requires bm.api != null ==> Api.StatusKept(bmStatus0, bm.api.status, bm.api.isOnline)
      modifies bm`books, bm.storage`entries, bm.api, api
      ensures api.isOnline == old(api.isOnline)
      ensures bm.api != null ==> bm.api.isOnline == old(bm.api.isOnline)
      ensures Explains(outcome, LookupResult(LookupOf(attempted[k]), api.isOnline, details, search))
      ensures KeptOrEnriched(bm.books, books, attempted, api.isOnline, details, search, now)
      ensures !(wrote || outcome == Enriched) ==> bm.books == books
      ensures bm.storage.entries ==
        if !(wrote || outcome == Enriched) || bm.storage.quotaExceeded then entries
        else entries[Storage.BooksKey := Storage.BookArray(bm.books)]
      ensures Api.StatusKept(status0, api.status, api.isOnline)
      ensures bm.api != null ==> Api.StatusKept(bmStatus0, bm.api.status, bm.api.isOnline)
    {
      ghost var online := api.isOnline;
      ghost var before := bm.books;
      ghost var stored := bm.storage.entries;
      ghost var status1 := api.status;
      ghost var bmStatus1 := if bm.api != null then bm.api.status else Api.Unknown;
      outcome := Attempt(attempted[k], details, search, now);
      Api.StatusKeptTrans(status0, status1, api.status, online);
      if bm.api != null {
        Api.StatusKeptTrans(bmStatus0, bmStatus1, bm.api.status, bm.api.isOnline);
      }
      KeptOrEnrichedStep(bm.books, before, books, attempted, k, online, details, search, now);
      StoredBooksStep(entries, stored, bm.storage.entries, before, bm.books, bm.storage.quotaExceeded,
        wrote, outcome == Enriched);
    }

    /** `autoEnrichBooks()`, with the isbn and title lookups and the clock as inputs: the
        first five books needing enrichment are looked up one by one; data found is merged
        into the book and written back with `updateBook`, and a failure moves on to the next
        book. `trace` records the lookups and pauses, `refreshed` the dashboard update. */
    method AutoEnrichBooks(
      details: string -> Api.FetchOutcome<Api.RawBook>,
      search: string -> Api.FetchOutcome<Api.RawSearchResponse>,
      now: string)
      returns (count: nat, refreshed: bool, trace: seq<Event>, outcomes: seq<Outcome>)
      modifies bm`books, bm.storage`entries, bm.api, api
      ensures api == null ==> count == 0 && trace == [] && bm.books == old(bm.books)
      ensures api != null ==> api.isOnline == old(api.isOnline)
      ensures api != null ==> |outcomes| == |Attempted(old(bm.books))|
      ensures api != null ==> trace == TraceOf(Attempted(old(bm.books)), outcomes)
      ensures api != null ==> forall k :: 0 <= k < |outcomes| ==>
        Explains(outcomes[k], LookupResult(LookupOf(Attempted(old(bm.books))[k]), old(api.isOnline), details, search))
      ensures count == CountOf(outcomes, Enriched) <= |outcomes| <= MaxEnrichments
      ensures refreshed <==> count > 0
      ensures api != null ==>
        KeptOrEnriched(bm.books, old(bm.books), Attempted(old(bm.books)), old(api.isOnline), details, search, now)
      ensures count == 0 ==> bm.books == old(bm.books) && bm.storage.entries == old(bm.storage.entries)
      ensures bm.storage.entries ==
        if count == 0 || bm.storage.quotaExceeded then old(bm.storage.entries)
        else old(bm.storage.entries)[Storage.BooksKey := Storage.BookArray(bm.books)]
      ensures api != null ==> Api.StatusKept(old(api.status), api.status, api.isOnline)
      ensures bm.api != null ==> bm.api.isOnline == old(bm.api.isOnline)
      ensures bm.api != null ==> Api.StatusKept(old(bm.api.status), bm.api.status, bm.api.isOnline)
    {
      count, refreshed, trace, outcomes := 0, false, [], [];
      if api == null {
        return;
      }
      var books := bm.books;
      var attempted := Attempted(books);
      ghost var online := api.isOnline;
      ghost var entries := bm.storage.entries;
      ghost var status0 := api.status;
      ghost var bmStatus0 := if bm.api != null then bm.api.status else Api.Unknown;
      var k := 0;
      while k < |attempted|
        invariant 0 <= k <= |attempted|
        invariant api.isOnline == online
        invariant |outcomes| == k
        invariant trace == TraceOf(attempted[..k], outcomes)
        invariant AllExplained(outcomes, attempted, online, details, search)
        invariant count == CountOf(outcomes, Enriched)
        invariant KeptOrEnriched(bm.books, books, attempted, online, details, search, now)
        invariant count == 0 ==> bm.books == books
        invariant bm.storage.entries ==
          if count == 0 || bm.storage.quotaExceeded then entries
          else entries[Storage.BooksKey := Storage.BookArray(bm.books)]
        invariant Api.StatusKept(status0, api.status, online)
        invariant bm.api != null ==> bm.api.isOnline == old(bm.api.isOnline)
        invariant bm.api != null ==> Api.StatusKept(bmStatus0, bm.api.status, bm.api.isOnline)
      {
        var c := attempted[k];
        var outcome := EnrichRound(attempted, k, books, entries, status0, bmStatus0, count > 0, details, search, now);
        if outcome == Enriched {
          count := count + 1;
        }
        TraceStep(outcomes, attempted, outcome);
        CountStep(outcomes, outcome);
        ExplainedStep(outcomes, attempted, outcome, online, details, search);
        outcomes := outcomes + [outcome];
        trace := trace + StepEvents(c, outcome);
        k := k + 1;
      }
      assert attempted[..k] == attempted;
      refreshed := count > 0;
    }
  }
}
