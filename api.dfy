/**
 * The HTTP API (src/api/api.py): the source filter and item totals of
 * `/data/all`, the preview truncation, the word-set similarity of the
 * comparison endpoint, and the in-memory registry of scrape jobs that the
 * scrape endpoints and their background runners update. Database
 * queries are an oracle returning a row count or a failure; the clock and
 * the uuid generator are parameters.
 */
module Api {
  import opened Wrappers
  import opened PyStr

  // ---------------------------------------------------------------------
  // The `sources` filter of `/data/all`

  const AllowedSources: seq<string> := ["reddit", "habr", "telegram", "medium"]

  /** `[s.strip().lower() for s in sources.split(",")]` */
  function RequestedSources(param: string): (r: seq<string>)
    ensures |r| == |SplitOn(param, ',')|
    ensures forall i :: 0 <= i < |r| ==> r[i] == Lower(Strip(SplitOn(param, ',')[i]))
  {
    var pieces := SplitOn(param, ',');
    seq(|pieces|, i requires 0 <= i < |pieces| => Lower(Strip(pieces[i])))
  }

  /** Keep the allowed names, in request order. */
  function KeepAllowed(names: seq<string>): seq<string>
    decreases |names|
  {
    if names == [] then []
    else
      var init := KeepAllowed(names[..|names| - 1]);
      var last := names[|names| - 1];
      if last in AllowedSources then init + [last] else init
  }

  /** `sources_to_fetch`: every source when the parameter is absent or empty. */
  function SourcesToFetch(param: Option<string>): seq<string>
  {
    if param.None? || param.value == [] then AllowedSources
    else KeepAllowed(RequestedSources(param.value))
  }

  /**
   * Only the four known sources are ever fetched, each requested one that is
   * known is fetched, in the order of the request; no parameter means all four.
   */
  lemma {:induction false} KeepAllowedSpec(names: seq<string>)
    ensures forall s :: s in KeepAllowed(names) <==> s in names && s in AllowedSources
    ensures SubseqOf(KeepAllowed(names), names)
    decreases |names|
  {
    if names != [] {
      var init := names[..|names| - 1];
      var last := names[|names| - 1];
      KeepAllowedSpec(init);
      assert names == init + [last];
      var r := KeepAllowed(names);
      if last in AllowedSources {
        assert r[..|r| - 1] == KeepAllowed(init);
      } else {
        SubseqExtend(r, names);
      }
    }
  }

  /** A subsequence of all but the last element is a subsequence of the whole. */
  lemma {:induction false} SubseqExtend<T>(a: seq<T>, b: seq<T>)
    requires b != [] && SubseqOf(a, b[..|b| - 1])
    ensures SubseqOf(a, b)
    decreases |b|, |a|
  {
    if a != [] && a[|a| - 1] == b[|b| - 1] {
      SubseqInit(a, b[..|b| - 1]);
    }
  }

  /** Dropping the last element of a subsequence keeps it a subsequence. */
  lemma {:induction false} SubseqInit<T>(a: seq<T>, b: seq<T>)
    requires a != [] && SubseqOf(a, b)
    ensures SubseqOf(a[..|a| - 1], b)
    decreases |b|, |a|
  {
    if b != [] {
      if a[|a| - 1] == b[|b| - 1] {
        SubseqExtend(a[..|a| - 1], b);
      } else {
        SubseqInit(a, b[..|b| - 1]);
        SubseqExtend(a[..|a| - 1], b);
      }
    }
  }

  /** The filter as a whole: known sources only, in request order. */
  lemma SourcesToFetchSpec(param: Option<string>)
    ensures param.None? ==> SourcesToFetch(param) == AllowedSources
    ensures forall s :: s in SourcesToFetch(param) ==> s in AllowedSources
    ensures param.Some? && param.value != [] ==>
      && SubseqOf(SourcesToFetch(param), RequestedSources(param.value))
      && forall s :: s in RequestedSources(param.value) && s in AllowedSources ==> s in SourcesToFetch(param)
  {
    if param.Some? && param.value != [] {
      KeepAllowedSpec(RequestedSources(param.value));
    }
  }

  // ---------------------------------------------------------------------
  // Sections and totals of `/data/all`

  /** What a section's query and item building produce: the item count, or the exception text. */
  datatype Fetch = Fetched(items: nat) | FetchFailed(error: string)

  /** A `UnifiedDataResponse`: its source name, `total_count` and the error in its metadata. */
  datatype Section = Section(source: string, totalCount: nat, error: Option<string>)

  datatype AllData = AllData(totalItems: nat, sections: seq<Section>)

  /** One section's `try`/`except`: a failure records `total_count` 0 and adds nothing to the total. */
  function AddSection(acc: AllData, source: string, f: Fetch): (r: AllData)
    ensures |r.sections| == |acc.sections| + 1 && r.sections[..|acc.sections|] == acc.sections
    ensures r.sections[|acc.sections|].source == source
    ensures f.FetchFailed? ==> r.totalItems == acc.totalItems && r.sections[|acc.sections|] == Section(source, 0, Some(f.error))
    ensures f.Fetched? ==> r.totalItems == acc.totalItems + f.items && r.sections[|acc.sections|] == Section(source, f.items, None)
  {
    match f
    case Fetched(n) => AllData(acc.totalItems + n, acc.sections + [Section(source, n, None)])
    case FetchFailed(e) => AllData(acc.totalItems, acc.sections + [Section(source, 0, Some(e))])
  }

  /** The section is added only when its source was requested. */
  function MaybeAdd(acc: AllData, wanted: bool, source: string, f: Fetch): AllData
  {
    if wanted then AddSection(acc, source, f) else acc
  }

  /**
   * `get_all_data`: the sections in the order the endpoint builds them
   * ("reddit" feeds both the raw and the processed section); `fetch` gives
   * the outcome of each section's query.
   */
  function GetAllData(param: Option<string>, fetch: string -> Fetch): AllData
  {
    var srcs := SourcesToFetch(param);
    var a0 := AllData(0, []);
    var a1 := MaybeAdd(a0, "reddit" in srcs, "reddit", fetch("reddit"));
    var a2 := MaybeAdd(a1, "reddit" in srcs, "reddit_processed", fetch("reddit_processed"));
    var a3 := MaybeAdd(a2, "habr" in srcs, "habr", fetch("habr"));
    var a4 := MaybeAdd(a3, "telegram" in srcs, "telegram", fetch("telegram"));
    MaybeAdd(a4, "medium" in srcs, "medium", fetch("medium"))
  }

  function SumCounts(sections: seq<Section>): nat
    decreases |sections|
  {
    if sections == [] then 0 else SumCounts(sections[..|sections| - 1]) + sections[|sections| - 1].totalCount
  }

  /** Adding a section keeps the total equal to the sum of the section counts. */
  lemma AddKeepsSum(acc: AllData, wanted: bool, source: string, f: Fetch)
    requires acc.totalItems == SumCounts(acc.sections)
    ensures MaybeAdd(acc, wanted, source, f).totalItems == SumCounts(MaybeAdd(acc, wanted, source, f).sections)
  {
    if wanted {
      var r := AddSection(acc, source, f);
      assert r.sections[..|r.sections| - 1] == acc.sections;
    }
  }

  /** `total_items` is the sum of `total_count` over the returned sections, and failed sections count 0. */
  lemma TotalIsSum(param: Option<string>, fetch: string -> Fetch)
    ensures GetAllData(param, fetch).totalItems == SumCounts(GetAllData(param, fetch).sections)
    ensures FailedAreEmpty(GetAllData(param, fetch).sections)
  {
    var srcs := SourcesToFetch(param);
    var a0 := AllData(0, []);
    var a1 := MaybeAdd(a0, "reddit" in srcs, "reddit", fetch("reddit"));
    var a2 := MaybeAdd(a1, "reddit" in srcs, "reddit_processed", fetch("reddit_processed"));
    var a3 := MaybeAdd(a2, "habr" in srcs, "habr", fetch("habr"));
    var a4 := MaybeAdd(a3, "telegram" in srcs, "telegram", fetch("telegram"));
    AddKeepsSum(a0, "reddit" in srcs, "reddit", fetch("reddit"));
    AddKeepsSum(a1, "reddit" in srcs, "reddit_processed", fetch("reddit_processed"));
    AddKeepsSum(a2, "habr" in srcs, "habr", fetch("habr"));
    AddKeepsSum(a3, "telegram" in srcs, "telegram", fetch("telegram"));
    AddKeepsSum(a4, "medium" in srcs, "medium", fetch("medium"));
    FailedCountZero(a0, "reddit" in srcs, "reddit", fetch("reddit"));
    FailedCountZero(a1, "reddit" in srcs, "reddit_processed", fetch("reddit_processed"));
    FailedCountZero(a2, "habr" in srcs, "habr", fetch("habr"));
    FailedCountZero(a3, "telegram" in srcs, "telegram", fetch("telegram"));
    FailedCountZero(a4, "medium" in srcs, "medium", fetch("medium"));
  }

  predicate FailedAreEmpty(sections: seq<Section>)
  {
    forall i :: 0 <= i < |sections| && sections[i].error.Some? ==> sections[i].totalCount == 0
  }

  /** Adding a section keeps every failed section at count 0. */
  lemma FailedCountZero(acc: AllData, wanted: bool, source: string, f: Fetch)
    ensures FailedAreEmpty(acc.sections) ==> FailedAreEmpty(MaybeAdd(acc, wanted, source, f).sections)
  {
  }

  /** Without a filter every section is present, one per source, processed Reddit posts included. */
  lemma AllSectionsWithoutFilter(fetch: string -> Fetch)
    ensures |GetAllData(None, fetch).sections| == 5
    ensures GetAllData(None, fetch).sections[1].source == "reddit_processed"
  {
  }

  /** The message of the AttributeError the processed-Reddit metadata raises. */
  const DictAttributeError: string := "'dict' object has no attribute 'is_news'"

  /**
   * The processed-Reddit section as written: its metadata reads `p.is_news`
   * on the item dictionaries, which raises as soon as there is one item.
   */
  function ProcessedFetchAsWritten(f: Fetch): Fetch
  {
    match f
    case Fetched(n) => if n == 0 then f else FetchFailed(DictAttributeError)
    case FetchFailed(_) => f
  }

  /** As written, a non-empty list of processed posts always ends up as an error section with count 0. */
  lemma ProcessedSectionAlwaysFails(acc: AllData, n: nat)
    requires n > 0
    ensures AddSection(acc, "reddit_processed", ProcessedFetchAsWritten(Fetched(n))).sections[|acc.sections|]
            == Section("reddit_processed", 0, Some(DictAttributeError))
    ensures AddSection(acc, "reddit_processed", ProcessedFetchAsWritten(Fetched(n))).totalItems == acc.totalItems
  {
  }

  /** With the intended `p["is_news"]`, the processed posts are counted like every other section. */
  lemma ProcessedSectionCounted(param: Option<string>, fetch: string -> Fetch, n: nat)
    requires "reddit" in SourcesToFetch(param) && fetch("reddit_processed") == Fetched(n)
    ensures Section("reddit_processed", n, None) in GetAllData(param, fetch).sections
  {
    var srcs := SourcesToFetch(param);
    var a1 := MaybeAdd(AllData(0, []), "reddit" in srcs, "reddit", fetch("reddit"));
    var a2 := MaybeAdd(a1, "reddit" in srcs, "reddit_processed", fetch("reddit_processed"));
    var a3 := MaybeAdd(a2, "habr" in srcs, "habr", fetch("habr"));
    var a4 := MaybeAdd(a3, "telegram" in srcs, "telegram", fetch("telegram"));
    var a5 := MaybeAdd(a4, "medium" in srcs, "medium", fetch("medium"));
    var i := |a1.sections|;
    assert a2.sections[i] == Section("reddit_processed", n, None);
    assert a5.sections[..|a2.sections|] == a2.sections;
    assert a5.sections[i] in a5.sections;
  }

  // ---------------------------------------------------------------------
  // Previews

  /** `text[:limit] + "..." if len(text) > limit else text` */
  function Preview(text: string, limit: nat): (r: string)
    ensures |text| <= limit ==> r == text
    ensures |text| > limit ==> |r| == limit + 3 && r[..limit] == text[..limit] && r[limit..] == "..."
  {
    if |text| > limit then text[..limit] + "..." else text
  }

  const PreviewLength: nat := 500
  const TelegramPreviewLength: nat := 300

  /** A preview never exceeds the limit plus the ellipsis, and a prefix of it is always the text's own start. */
  lemma PreviewBounds(text: string, limit: nat)
    ensures |Preview(text, limit)| <= limit + 3
    ensures |text| > limit ==> EndsWith(Preview(text, limit), "...")
    ensures StartsWith(Preview(text, limit), text[..if |text| <= limit then |text| else limit])
  {
  }

  // ---------------------------------------------------------------------
  // `_calculate_similarity`

  /** `set(text.lower().split())` */
  function WordSet(text: string): set<string>
  {
    set w | w in Split(Lower(text))
  }

  /** A similarity as `len(intersection)` over `len(union)`; the denominator 0 stands for 0.0. */
  datatype Similarity = Similarity(common: nat, total: nat)

  function CalculateSimilarity(text1: string, text2: string): (r: Similarity)
    ensures r.total == 0 ==> r.common == 0
  {
    if text1 == [] || text2 == [] then Similarity(0, 0)
    else
      var w1 := WordSet(text1);
      var w2 := WordSet(text2);
      if w1 == {} || w2 == {} then Similarity(0, 0)
      else Similarity(|w1 * w2|, |w1 + w2|)
  }

  /** A subset is no larger than its superset. */
  lemma {:induction false} SubsetSize<T>(a: set<T>, b: set<T>)
    requires a <= b
    ensures |a| <= |b|
    decreases |b|
  {
    if a != {} {
      var x :| x in a;
      SubsetSize(a - {x}, b - {x});
    }
  }

  /**
   * The similarity is symmetric, lies between 0 and 1, is 1 for texts with
   * the same (non-empty) word set, and is 0 when a text is empty or wordless.
   */
  lemma SimilaritySpec(text1: string, text2: string)
    ensures CalculateSimilarity(text1, text2) == CalculateSimilarity(text2, text1)
    ensures CalculateSimilarity(text1, text2).common <= CalculateSimilarity(text1, text2).total
    ensures WordSet(text1) == {} || WordSet(text2) == {} ==> CalculateSimilarity(text1, text2).common == 0
    ensures WordSet(text1) == WordSet(text2) != {} ==>
      CalculateSimilarity(text1, text2).common == CalculateSimilarity(text1, text2).total > 0
  {
    var w1 := WordSet(text1);
    var w2 := WordSet(text2);
    assert w1 * w2 == w2 * w1 && w1 + w2 == w2 + w1;
    SubsetSize(w1 * w2, w1 + w2);
    NoTextNoWords();
    if w1 == w2 {
      assert w1 * w2 == w1 && w1 + w2 == w1;
    }
  }

  /** The similarity ignores case, Cyrillic included: lower-casing a text first changes nothing. */
  lemma SimilarityIgnoresCase(text1: string, text2: string)
    ensures CalculateSimilarity(Lower(text1), text2) == CalculateSimilarity(text1, text2)
  {
    LowerIdempotent(text1);
    assert WordSet(Lower(text1)) == WordSet(text1);
  }

  /** A single word has similarity 1 with its own lower-cased form. */
  lemma WordMatchesLowered(a: string, b: string)
    requires Lower(a) == b && b != [] && NoSpace(b)
    ensures CalculateSimilarity(a, b) == Similarity(1, 1)
  {
    SimilarityIgnoresCase(a, b);
    LowerIdempotent(a);
    SplitOneWord(b);
    assert WordSet(b) == {b};
  }

  /** Two words differing only in the case of Cyrillic letters have similarity 1. */
  lemma CyrillicSameWords()
    ensures CalculateSimilarity("Мир", "мир") == Similarity(1, 1)
  {
    var a, b := "Мир", "мир";
    assert Lower(a) == b by {
      assert LowerChar(a[0]) == b[0];
    }
    WordMatchesLowered(a, b);
  }

  /** Any whitespace character after a comma, a no-break space included, is stripped from the name. */
  lemma SpaceAfterComma(a: string, c: char, b: string)
    requires ',' !in a && ',' !in b && IsSpace(c)
    ensures RequestedSources(a + [','] + ([c] + b)) == RequestedSources(a + [','] + b)
  {
    SplitOnAfter(a, ',', [c] + b);
    SplitOnAfter(a, ',', b);
    SplitOnFree(a, ',');
    assert LStrip([c] + b) == LStrip(b) by {
      assert ([c] + b)[1..] == b;
    }
  }

  /** `"reddit,\u00a0habr"` requests habr like `"reddit,habr"` does. */
  lemma NoBreakSpaceStripped()
    ensures RequestedSources("reddit,\U{00a0}habr") == RequestedSources("reddit,habr")
  {
    assert "reddit,\U{00a0}habr" == "reddit" + [','] + (['\U{00a0}'] + "habr");
    assert "reddit,habr" == "reddit" + [','] + "habr";
    SpaceAfterComma("reddit", '\U{00a0}', "habr");
  }

  /** The empty text has no words. */
  lemma NoTextNoWords()
    ensures WordSet([]) == {}
  {
    assert Lower([]) == [];
    assert Split([]) == [];
  }

  // ---------------------------------------------------------------------
  // The scrape-job registry

  datatype JobStatus = Pending | Running | Completed | Failed

  /** What a finished job reports. */
  datatype JobResults =
    | HabrResults(summary: map<string, int>)
    | RedditResults(success: bool, saved: int, skipped: int, subreddits: seq<string>)

  /** An entry of `scraper_jobs`; times are the clock readings the ISO strings print. */
  datatype Job = Job(jobId: string, status: JobStatus, source: string, createdAt: int,
                     startedAt: Option<int>, completedAt: Option<int>,
                     results: Option<JobResults>, error: Option<string>)

  /** The fields a job carries in each status. */
  predicate WellFormed(job: Job)
  {
    match job.status
    case Pending => job.startedAt.None? && job.completedAt.None? && job.results.None? && job.error.None?
    case Running => job.startedAt.Some? && job.completedAt.None? && job.results.None? && job.error.None?
    case Completed => job.startedAt.Some? && job.completedAt.Some? && job.results.Some? && job.error.None?
    case Failed => job.startedAt.Some? && job.completedAt.Some? && job.results.None? && job.error.Some?
  }

  predicate Finished(job: Job)
  {
    job.status == Completed || job.status == Failed
  }

  /** The ids whose jobs are finished, in `order`. */
  function FinishedIds(order: seq<string>, jobs: map<string, Job>): (r: seq<string>)
    ensures forall id :: id in r <==> id in order && id in jobs && Finished(jobs[id])
    ensures |r| <= |order|
    decreases |order|
  {
    if order == [] then []
    else
      var init := FinishedIds(order[..|order| - 1], jobs);
      var id := order[|order| - 1];
      assert order == order[..|order| - 1] + [id];
      if id in jobs && Finished(jobs[id]) then init + [id] else init
  }

  /** The ids in `order` that are not finished. */
  function Unfinished(order: seq<string>, jobs: map<string, Job>): (r: seq<string>)
    ensures forall id :: id in r <==> id in order && (id !in jobs || !Finished(jobs[id]))
    decreases |order|
  {
    if order == [] then []
    else
      var init := Unfinished(order[..|order| - 1], jobs);
      var id := order[|order| - 1];
      assert order == order[..|order| - 1] + [id];
      if id in jobs && Finished(jobs[id]) then init else init + [id]
  }

  /** Jobs by creation time, latest first: `sorted(..., key=created_at, reverse=True)` (stable). */
  predicate NewestFirst(jobs: seq<Job>)
  {
    forall i, j :: 0 <= i < j < |jobs| ==> jobs[i].createdAt >= jobs[j].createdAt
  }

  /** Insert a job after every job created at the same time or later. */
  function InsertByTime(sorted: seq<Job>, job: Job): (r: seq<Job>)
    ensures multiset(r) == multiset(sorted) + multiset{job}
    decreases |sorted|
  {
    if sorted == [] then [job]
    else if sorted[0].createdAt >= job.createdAt then
      assert sorted == [sorted[0]] + sorted[1..];
      [sorted[0]] + InsertByTime(sorted[1..], job)
    else
      [job] + sorted
  }

  /** Inserting into a newest-first list keeps it newest first. */
  lemma {:induction false} InsertByTimeSorted(sorted: seq<Job>, job: Job)
    requires NewestFirst(sorted)
    ensures NewestFirst(InsertByTime(sorted, job))
    decreases |sorted|
  {
    if sorted == [] {
    } else if sorted[0].createdAt >= job.createdAt {
      var rest := InsertByTime(sorted[1..], job);
      assert sorted == [sorted[0]] + sorted[1..];
      InsertByTimeSorted(sorted[1..], job);
      forall y | y in rest ensures y in sorted[1..] || y == job {
        assert y in multiset(rest);
      }
      NewestAhead(sorted[0], sorted[1..], rest, job);
    } else {
      NewestAhead(job, sorted, sorted, job);
    }
  }

  /** A job no older than every job of a newest-first list can go in front of it. */
  lemma NewestAhead(first: Job, tail: seq<Job>, rest: seq<Job>, job: Job)
    requires NewestFirst(([first] + tail)) && NewestFirst(rest)
    requires first.createdAt >= job.createdAt
    requires forall y :: y in rest ==> y in tail || y == job
    ensures NewestFirst([first] + rest)
  {
    var r := [first] + rest;
    forall i, j | 0 <= i < j < |r| ensures r[i].createdAt >= r[j].createdAt {
      if i == 0 {
        assert r[0] == first && r[j] == rest[j - 1];
        assert rest[j - 1] in rest;
        if rest[j - 1] != job {
          var k :| 0 <= k < |tail| && tail[k] == rest[j - 1];
          assert ([first] + tail)[0] == first && ([first] + tail)[k + 1] == tail[k];
        }
      } else {
        assert r[i] == rest[i - 1] && r[j] == rest[j - 1];
      }
    }
  }

  /** `jobs.sort(key=lambda x: x["created_at"], reverse=True)` */
  function SortNewestFirst(jobs: seq<Job>): (r: seq<Job>)
    ensures NewestFirst(r)
    ensures multiset(r) == multiset(jobs)
    decreases |jobs|
  {
    if jobs == [] then []
    else
      assert jobs == jobs[..|jobs| - 1] + [jobs[|jobs| - 1]];
      var init := SortNewestFirst(jobs[..|jobs| - 1]);
      InsertByTimeSorted(init, jobs[|jobs| - 1]);
      InsertByTime(init, jobs[|jobs| - 1])
  }

  /** What `list_scrape_jobs` returns. */
  datatype JobList = JobList(total: nat, jobs: seq<Job>)

  /** An HTTP error raised by an endpoint. */
  datatype HttpError = HttpError(status: int, detail: string)

  /** The messages returned by `clear_scrape_jobs`. */
  datatype Cleared = Cleared(cleared: nat, remaining: nat)

  /** A prefix of a newest-first list is newest-first and drawn from the list. */
  lemma NewestPrefix(xs: seq<Job>, n: nat)
    requires NewestFirst(xs) && n <= |xs|
    ensures NewestFirst(xs[..n])
    ensures forall j :: j in xs[..n] ==> j in xs
    ensures n == |xs| ==> xs[..n] == xs
  {
  }

  /** In a newest-first list, a job left out of a prefix is no newer than any job in it. */
  lemma NewestPrefixBeatsRest(xs: seq<Job>, n: nat)
    requires NewestFirst(xs) && n <= |xs|
    ensures forall x, y :: x in xs && x !in xs[..n] && y in xs[..n] ==> x.createdAt <= y.createdAt
  {
    forall x, y | x in xs && x !in xs[..n] && y in xs[..n]
      ensures x.createdAt <= y.createdAt
    {
      assert xs == xs[..n] + xs[n..];
      assert x in xs[n..];
      var a :| 0 <= a < |xs| - n && xs[n..][a] == x;
      var b :| 0 <= b < n && xs[..n][b] == y;
      assert xs[n + a] == x && xs[b] == y;
    }
  }

  /** The newest `limit` jobs of the registry, given its keys in insertion order. */
  function NewestJobs(order: seq<string>, jobs: map<string, Job>, limit: nat): (r: JobList)
    requires forall id :: id in order <==> id in jobs
    requires forall id :: id in jobs ==> jobs[id].jobId == id
    ensures r.total == |order|
    ensures |r.jobs| == if |order| < limit then |order| else limit
    ensures NewestFirst(r.jobs)
    ensures forall j :: j in r.jobs ==> j.jobId in jobs && jobs[j.jobId] == j
    ensures |order| <= limit ==> forall id :: id in jobs ==> jobs[id] in r.jobs
    ensures forall id, j :: id in jobs && jobs[id] !in r.jobs && j in r.jobs ==> jobs[id].createdAt <= j.createdAt
  {
    var all := InOrder(order, jobs);
    InOrderMembers(order, jobs);
    var sorted := SortNewestFirst(all);
    SameMembers(sorted, all);
    assert |sorted| == |multiset(sorted)| == |all|;
    var n := if |sorted| < limit then |sorted| else limit;
    NewestPrefix(sorted, n);
    NewestPrefixBeatsRest(sorted, n);
    JobList(|all|, sorted[..n])
  }

  /** The module-level `scraper_jobs` dictionary, with its insertion order. */
  class JobRegistry {
    var jobs: map<string, Job>
    var order: seq<string>

    /** Keys in insertion order, each job filed under its own id and well formed. */
    ghost predicate Valid()
      reads this
    {
      && Distinct(order)
      && (forall id :: id in order <==> id in jobs)
      && (forall id :: id in jobs ==> jobs[id].jobId == id && WellFormed(jobs[id]))
    }

    constructor()
      ensures Valid() && jobs == map[] && order == []
    {
      jobs := map[];
      order := [];
    }

    /**
     * `scrape_habr_endpoint` / `scrape_reddit_endpoint`: file a pending job
     * under `jobId` (the fresh uuid) created at `now`.
     */
    method Create(jobId: string, source: string, now: int) returns (job: Job)
      requires Valid()
      modifies this
      ensures Valid()
      ensures job == Job(jobId, Pending, source, now, None, None, None, None)
      ensures jobs == old(jobs)[jobId := job]
      ensures order == if jobId in old(jobs) then old(order) else old(order) + [jobId]
    {
      job := Job(jobId, Pending, source, now, None, None, None, None);
      if jobId !in jobs {
        order := order + [jobId];
      }
      jobs := jobs[jobId := job];
    }

    /** The runner's first step: status 'running' and the start time. */
    method Start(jobId: string, now: int)
      requires Valid() && jobId in jobs && jobs[jobId].status == Pending
      modifies this
      ensures Valid() && order == old(order)
      ensures jobs == old(jobs)[jobId := old(jobs)[jobId].(status := Running, startedAt := Some(now))]
    {
      jobs := jobs[jobId := jobs[jobId].(status := Running, startedAt := Some(now))];
    }

    /** The runner's last step: 'completed' with the results, or 'failed' with the error text. */
    method Finish(jobId: string, now: int, outcome: Result<JobResults, string>)
      requires Valid() && jobId in jobs && jobs[jobId].status == Running
      modifies this
      ensures Valid() && order == old(order)
      ensures jobs == old(jobs)[jobId :=
        match outcome
        case Ok(res) => old(jobs)[jobId].(status := Completed, completedAt := Some(now), results := Some(res))
        case Err(e) => old(jobs)[jobId].(status := Failed, completedAt := Some(now), error := Some(e))]
    {
      match outcome
      case Ok(res) =>
        jobs := jobs[jobId := jobs[jobId].(status := Completed, completedAt := Some(now), results := Some(res))];
      case Err(e) =>
        jobs := jobs[jobId := jobs[jobId].(status := Failed, completedAt := Some(now), error := Some(e))];
    }

    /**
     * `run_habr_scraper_background`: `outcome` is what `scrape_habr` returns
     * or the text of the exception it raises.
     */
    method RunHabr(jobId: string, started: int, finished: int, outcome: Result<map<string, int>, string>)
      requires Valid() && jobId in jobs && jobs[jobId].status == Pending
      modifies this
      ensures Valid() && order == old(order)
      ensures jobId in jobs && Finished(jobs[jobId]) && jobs[jobId].startedAt == Some(started)
      ensures jobs[jobId].status == Completed <==> outcome.Ok?
      ensures outcome.Ok? ==> jobs[jobId].results == Some(HabrResults(outcome.value))
      ensures outcome.Err? ==> jobs[jobId].error == Some(outcome.error)
      ensures forall id :: id in old(jobs) && id != jobId ==> id in jobs && jobs[id] == old(jobs)[id]
      ensures jobs.Keys == old(jobs).Keys
    {
      Start(jobId, started);
      match outcome
      case Ok(summary) => Finish(jobId, finished, Ok(HabrResults(summary)));
      case Err(e) => Finish(jobId, finished, Err(e));
    }

    /**
     * `run_reddit_scraper_background` for its single subreddit: `outcome` is
     * the scraper's result dictionary or the exception text.
     */
    method RunReddit(jobId: string, subreddit: string, started: int, finished: int,
                     outcome: Result<map<string, int>, string>)
      requires Valid() && jobId in jobs && jobs[jobId].status == Pending
      modifies this
      ensures Valid() && order == old(order)
      ensures jobId in jobs && Finished(jobs[jobId]) && jobs[jobId].startedAt == Some(started)
      ensures jobs[jobId].status == Completed <==> outcome.Ok?
      ensures outcome.Ok? ==> jobs[jobId].results == Some(RedditResults(true,
        if "saved" in outcome.value then outcome.value["saved"] else 0,
        if "skipped" in outcome.value then outcome.value["skipped"] else 0,
        [subreddit]))
      ensures outcome.Err? ==> jobs[jobId].error == Some(outcome.error)
      ensures forall id :: id in old(jobs) && id != jobId ==> id in jobs && jobs[id] == old(jobs)[id]
      ensures jobs.Keys == old(jobs).Keys
    {
      Start(jobId, started);
      match outcome
      case Ok(result) =>
        var saved := if "saved" in result then result["saved"] else 0;
        var skipped := if "skipped" in result then result["skipped"] else 0;
        Finish(jobId, finished, Ok(RedditResults(true, saved, skipped, [subreddit])));
      case Err(e) => Finish(jobId, finished, Err(e));
    }

    /** `get_scrape_status(job_id)`: the job, or 404 for an unknown id. */
    function Status(jobId: string): (r: Result<Job, HttpError>)
      reads this
      ensures r.Ok? <==> jobId in jobs
      ensures r.Ok? ==> r.value == jobs[jobId]
      ensures r.Err? ==> r.error.status == 404 && r.error.detail == "Job " + jobId + " not found"
    {
      if jobId !in jobs then Err(HttpError(404, "Job " + jobId + " not found")) else Ok(jobs[jobId])
    }

    /**
     * `list_scrape_jobs(limit)`: the count of all jobs and the `limit`
     * newest, latest first; FastAPI admits `limit` between 1 and 100.
     */
    function ListJobs(limit: nat): (r: JobList)
      reads this
      requires Valid() && 1 <= limit <= 100
      ensures r.total == |jobs|
      ensures |r.jobs| == if |jobs| < limit then |jobs| else limit
      ensures NewestFirst(r.jobs)
      ensures forall j :: j in r.jobs ==> j.jobId in jobs && jobs[j.jobId] == j
      ensures |jobs| <= limit ==> forall id :: id in jobs ==> jobs[id] in r.jobs
      ensures forall id, j :: id in jobs && jobs[id] !in r.jobs && j in r.jobs ==> jobs[id].createdAt <= j.createdAt
    {
      DistinctCount(order, jobs);
      NewestJobs(order, jobs, limit)
    }

    /**
     * `clear_scrape_jobs()`: collect the ids of completed and failed jobs in
     * dictionary order, then delete them; report how many went and how many remain.
     */
    method Clear() returns (r: Cleared)
      requires Valid()
      modifies this
      ensures Valid()
      ensures forall id :: id in jobs <==> id in old(jobs) && !Finished(old(jobs)[id])
      ensures forall id :: id in jobs ==> jobs[id] == old(jobs)[id]
      ensures order == Unfinished(old(order), old(jobs))
      ensures r.cleared == |FinishedIds(old(order), old(jobs))| && r.remaining == |jobs|
    {
      var toRemove, cleared := CollectFinished(order, jobs);
      DeleteAll(toRemove);
      WithoutFinished(old(order), old(jobs));
      UnfinishedDistinct(old(order), old(jobs));
      DistinctCount(order, jobs);
      r := Cleared(cleared, |jobs|);
    }

    /** The deletion loop of `clear_scrape_jobs`: `del scraper_jobs[job_id]` for each collected id. */
    method DeleteAll(ids: seq<string>)
      modifies this
      ensures forall id :: id in jobs <==> id in old(jobs) && id !in ids
      ensures forall id :: id in jobs ==> jobs[id] == old(jobs)[id]
      ensures order == Without(old(order), ids)
    {
      WithoutNothing(order);
      var k := 0;
      while k < |ids|
        invariant 0 <= k <= |ids|
        invariant forall id :: id in jobs <==> id in old(jobs) && id !in ids[..k]
        invariant forall id :: id in jobs ==> jobs[id] == old(jobs)[id]
        invariant order == Without(old(order), ids[..k])
      {
        assert ids[..k + 1] == ids[..k] + [ids[k]];
        jobs := jobs - {ids[k]};
        order := Remove(order, ids[k]);
        WithoutStep(old(order), ids, k);
        k := k + 1;
      }
      assert ids[..|ids|] == ids;
    }
  }

  /** The collecting loop of `clear_scrape_jobs`: the finished ids in dictionary order and their count. */
  method CollectFinished(order: seq<string>, jobs: map<string, Job>) returns (ids: seq<string>, count: nat)
    ensures ids == FinishedIds(order, jobs) && count == |ids|
  {
    ids := [];
    count := 0;
    var i := 0;
    while i < |order|
      invariant 0 <= i <= |order|
      invariant ids == FinishedIds(order[..i], jobs) && count == |ids|
    {
      assert order[..i + 1][..i] == order[..i];
      if order[i] in jobs && Finished(jobs[order[i]]) {
        ids := ids + [order[i]];
        count := count + 1;
      }
      i := i + 1;
    }
    assert order[..|order|] == order;
  }

  /** `[jobs[id] for id in order]` */
  function InOrder(order: seq<string>, jobs: map<string, Job>): (r: seq<Job>)
    requires forall id :: id in order ==> id in jobs
    ensures |r| == |order| && forall i :: 0 <= i < |order| ==> r[i] == jobs[order[i]]
  {
    seq(|order|, i requires 0 <= i < |order| => jobs[order[i]])
  }

  /** Listing the values in key order shows every job once, each under its own id. */
  lemma InOrderMembers(order: seq<string>, jobs: map<string, Job>)
    requires forall id :: id in order <==> id in jobs
    requires forall id :: id in jobs ==> jobs[id].jobId == id
    ensures forall j :: j in InOrder(order, jobs) ==> j.jobId in jobs && jobs[j.jobId] == j
    ensures forall id :: id in jobs ==> jobs[id] in InOrder(order, jobs)
  {
    var all := InOrder(order, jobs);
    forall id | id in jobs ensures jobs[id] in all {
      var i :| 0 <= i < |order| && order[i] == id;
      assert all[i] == jobs[id];
    }
  }

  /** Sequences with the same multiset have the same members. */
  lemma SameMembers(a: seq<Job>, b: seq<Job>)
    requires multiset(a) == multiset(b)
    ensures forall j :: j in a <==> j in b
  {
    forall j ensures j in a <==> j in b {
      assert j in a <==> j in multiset(a);
      assert j in b <==> j in multiset(b);
    }
  }

  /** Filtering a list without repeats keeps it without repeats. */
  lemma {:induction false} UnfinishedDistinct(order: seq<string>, jobs: map<string, Job>)
    requires Distinct(order)
    ensures Distinct(Unfinished(order, jobs))
    decreases |order|
  {
    if order != [] {
      var init := order[..|order| - 1];
      var last := order[|order| - 1];
      assert Distinct(init) by {
        forall i, j | 0 <= i < j < |init| ensures init[i] != init[j] {
          assert init[i] == order[i] && init[j] == order[j];
        }
      }
      UnfinishedDistinct(init, jobs);
      assert last !in init by {
        forall i | 0 <= i < |init| ensures init[i] != last {
          assert init[i] == order[i];
        }
      }
    }
  }

  /** `xs` with every occurrence of `x` removed. */
  function Remove(xs: seq<string>, x: string): (r: seq<string>)
    ensures forall y :: y in r <==> y in xs && y != x
    decreases |xs|
  {
    if xs == [] then []
    else
      assert xs == xs[..|xs| - 1] + [xs[|xs| - 1]];
      var init := Remove(xs[..|xs| - 1], x);
      if xs[|xs| - 1] == x then init else init + [xs[|xs| - 1]]
  }

  /** `xs` with every element of `gone` removed. */
  function Without(xs: seq<string>, gone: seq<string>): (r: seq<string>)
    ensures forall y :: y in r <==> y in xs && y !in gone
    decreases |xs|
  {
    if xs == [] then []
    else
      assert xs == xs[..|xs| - 1] + [xs[|xs| - 1]];
      var init := Without(xs[..|xs| - 1], gone);
      if xs[|xs| - 1] in gone then init else init + [xs[|xs| - 1]]
  }

  /** Removing nothing keeps the list. */
  lemma {:induction false} WithoutNothing(xs: seq<string>)
    ensures Without(xs, []) == xs
    decreases |xs|
  {
    if xs != [] {
      WithoutNothing(xs[..|xs| - 1]);
    }
  }

  /** Removing one more id after a batch is removing the longer batch. */
  lemma {:induction false} WithoutStep(xs: seq<string>, gone: seq<string>, k: nat)
    requires k < |gone|
    ensures Remove(Without(xs, gone[..k]), gone[k]) == Without(xs, gone[..k + 1])
    decreases |xs|
  {
    if xs != [] {
      var init := xs[..|xs| - 1];
      WithoutStep(init, gone, k);
      assert gone[..k + 1] == gone[..k] + [gone[k]];
      var w := Without(init, gone[..k]);
      var last := xs[|xs| - 1];
      if last !in gone[..k] && last != gone[k] {
        assert (w + [last])[..|w + [last]| - 1] == w;
      } else if last !in gone[..k] {
        assert (w + [last])[..|w + [last]| - 1] == w;
      }
    }
  }

  /** Removing the finished ids leaves exactly the unfinished ones, in order. */
  lemma {:induction false} WithoutFinished(order: seq<string>, jobs: map<string, Job>)
    ensures Without(order, FinishedIds(order, jobs)) == Unfinished(order, jobs)
  {
    forall id | id in order ensures id in FinishedIds(order, jobs) <==> id in jobs && Finished(jobs[id]) {
    }
    WithoutFiltered(order, order, jobs);
  }

  /** The filters agree on every prefix of the order. */
  lemma {:induction false} WithoutFiltered(xs: seq<string>, order: seq<string>, jobs: map<string, Job>)
    requires forall id :: id in xs ==> id in order
    ensures Without(xs, FinishedIds(order, jobs)) == Unfinished(xs, jobs)
    decreases |xs|
  {
    if xs != [] {
      WithoutFiltered(xs[..|xs| - 1], order, jobs);
    }
  }

  /** Distinct keys in insertion order are as many as the map's keys. */
  lemma {:induction false} DistinctCount(order: seq<string>, jobs: map<string, Job>)
    requires Distinct(order) && forall id :: id in order <==> id in jobs
    ensures |order| == |jobs|
    decreases |order|
  {
    if order == [] {
      assert jobs.Keys == {};
    } else {
      var last := order[|order| - 1];
      var init := order[..|order| - 1];
      var rest := jobs - {last};
      DistinctInit(order);
      assert order == init + [last];
      assert forall id :: id in init <==> id in rest;
      DistinctCount(init, rest);
      DropKey(jobs, last);
    }
  }

  /** Dropping the last of distinct keys leaves distinct keys, none of them the dropped one. */
  lemma DistinctInit(order: seq<string>)
    requires Distinct(order) && order != []
    ensures Distinct(order[..|order| - 1])
    ensures order[|order| - 1] !in order[..|order| - 1]
  {
    var init := order[..|order| - 1];
    forall i, j | 0 <= i < j < |init| ensures init[i] != init[j] {
      assert init[i] == order[i] && init[j] == order[j];
    }
    forall i | 0 <= i < |init| ensures init[i] != order[|order| - 1] {
      assert init[i] == order[i];
    }
  }

  /** Removing a present key shrinks a map by one. */
  lemma DropKey(jobs: map<string, Job>, last: string)
    requires last in jobs
    ensures |jobs - {last}| == |jobs| - 1
  {
    assert jobs.Keys == (jobs - {last}).Keys + {last};
  }
}
