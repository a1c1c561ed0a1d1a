/**
 * The Medium RSS scraper (src/scrapers/medium_scraper.py): one feed per
 * tag, at most `max_articles` entries per feed, four counters per tag and
 * one result per tag in input order.
 *
 * The HTTP fetch, the date parser, the database save and the editorial
 * service are oracles carried in `Env`.
 */
module MediumScraper {
  import opened Wrappers
  import opened PyStr
  import Editorial
  import Tables

  const FeedPrefix: string := "https://medium.com/feed/tag/"
  const SummaryLimit: nat := 500

  /** The character the feed URL uses for one character of the tag. */
  function Slug(c: char): char
  {
    if c == ' ' then '-' else LowerChar(c)
  }

  /** `f"https://medium.com/feed/tag/{tag.lower().replace(' ', '-')}"` */
  function FeedUrl(tag: string): (url: string)
    ensures |url| == |FeedPrefix| + |tag|
  {
    FeedPrefix + ReplaceChar(Lower(tag), ' ', '-')
  }

  /** The slug of a character is neither a space nor an upper-case letter. */
  lemma SlugClean(c: char)
    ensures Slug(c) != ' ' && !CasedUpper(Slug(c))
  {
  }

  /** The feed URL is the prefix followed by the slug of each character of the tag. */
  lemma FeedUrlSlugs(tag: string)
    ensures StartsWith(FeedUrl(tag), FeedPrefix)
    ensures forall i :: 0 <= i < |tag| ==> FeedUrl(tag)[|FeedPrefix| + i] == Slug(tag[i])
  {
    var low := Lower(tag);
    var slug := ReplaceChar(low, ' ', '-');
    var url := FeedPrefix + slug;
    assert url[..|FeedPrefix|] == FeedPrefix;
    forall i | 0 <= i < |tag|
      ensures url[|FeedPrefix| + i] == Slug(tag[i])
    {
      assert url[|FeedPrefix| + i] == slug[i];
      assert low[i] == LowerChar(tag[i]);
    }
  }

  /**
   * The feed URL is the prefix followed by the slug of each character of the
   * tag, so its tail holds no space and no upper-case letter.
   */
  lemma FeedUrlShape(tag: string)
    ensures StartsWith(FeedUrl(tag), FeedPrefix)
    ensures forall i :: 0 <= i < |tag| ==> FeedUrl(tag)[|FeedPrefix| + i] == Slug(tag[i])
    ensures forall i :: |FeedPrefix| <= i < |FeedUrl(tag)| ==> FeedUrl(tag)[i] != ' ' && !CasedUpper(FeedUrl(tag)[i])
  {
    var url := FeedUrl(tag);
    FeedUrlSlugs(tag);
    forall i | |FeedPrefix| <= i < |url|
      ensures url[i] != ' ' && !CasedUpper(url[i])
    {
      var j := i - |FeedPrefix|;
      assert url[|FeedPrefix| + j] == Slug(tag[j]);
      SlugClean(tag[j]);
    }
  }

  /** Two tags share a feed exactly when they agree up to case and spaces-for-dashes. */
  lemma FeedUrlSameIff(a: string, b: string)
    ensures FeedUrl(a) == FeedUrl(b) <==> |a| == |b| && forall i :: 0 <= i < |a| ==> Slug(a[i]) == Slug(b[i])
  {
    FeedUrlShape(a);
    FeedUrlShape(b);
    if FeedUrl(a) == FeedUrl(b) {
      forall i | 0 <= i < |a| ensures Slug(a[i]) == Slug(b[i]) {
        assert FeedUrl(a)[|FeedPrefix| + i] == FeedUrl(b)[|FeedPrefix| + i];
      }
    }
    if |a| == |b| && forall i :: 0 <= i < |a| ==> Slug(a[i]) == Slug(b[i]) {
      forall k | 0 <= k < |FeedUrl(a)| ensures FeedUrl(a)[k] == FeedUrl(b)[k] {
        if k >= |FeedPrefix| {
          assert FeedUrl(a)[|FeedPrefix| + (k - |FeedPrefix|)] == Slug(a[k - |FeedPrefix|]);
        } else {
          assert FeedUrl(a)[..|FeedPrefix|] == FeedPrefix == FeedUrl(b)[..|FeedPrefix|];
        }
      }
    }
  }

  /** A Cyrillic tag is lower-cased like a Latin one. */
  lemma CyrillicFeedUrl()
    ensures FeedUrl("ИИ Ра") == FeedPrefix + "ии-ра"
  {
    var tag := "ИИ Ра";
    var slug := "ии-ра";
    FeedUrlShape(tag);
    assert Slug(tag[0]) == slug[0] && Slug(tag[1]) == slug[1] && Slug(tag[2]) == slug[2];
    assert Slug(tag[3]) == slug[3] && Slug(tag[4]) == slug[4];
    assert FeedUrl(tag)[..|FeedPrefix|] == FeedPrefix;
    assert FeedUrl(tag)[|FeedPrefix|..] == slug;
    assert FeedUrl(tag) == FeedPrefix + slug;
  }

  /** A feed entry as feedparser returns it; every field may be missing. */
  datatype Entry = Entry(title: Option<string>, link: Option<string>, summary: Option<string>,
                         published: Option<string>, author: Option<string>)

  /** The `article_data` dictionary built for one entry. */
  datatype Article = Article(title: string, url: string, summary: string, publishedAt: int,
                             author: string, tag: string, scrapedAt: int)

  /** `entry.get(key, default)` */
  function Get(v: Option<string>, default: string): string
  {
    if v.Some? then v.value else default
  }

  datatype Feed = Entries(entries: seq<Entry>) | FetchFailed(message: string)

  /** What `get_editorial_service().process_post(...)` gives back. */
  datatype LlmOutcome = Verdict(result: Editorial.EditorialResult) | ServiceRaised(message: string)

  /**
   * The outside world. `fetch` is `requests.get` plus `feedparser.parse`
   * (a failure is any raised exception), `parseDate` is `strptime` with the
   * RFC 2822 format, `save(i)(j)` is what `save_medium_article` returns for
   * the `j`-th entry of the `i`-th tag, `editorial` is the editorial service
   * and `now` stands for `datetime.utcnow()`.
   */
  datatype Env = Env(fetch: string -> Feed, parseDate: string -> Option<int>, save: nat -> nat -> bool,
                     editorial: (string, string) -> LlmOutcome, now: int)

  /**
   * Building `article_data`; `None` when `strptime` raises. A missing or
   * empty `published` takes the current time.
   */
  function BuildArticle(e: Entry, tag: string, env: Env): (r: Option<Article>)
    ensures r.None? <==> e.published.Some? && e.published.value != [] && env.parseDate(e.published.value).None?
    ensures r.Some? ==>
      && r.value.tag == tag
      && r.value.title == Get(e.title, "")
      && r.value.url == Get(e.link, "")
      && |r.value.summary| == (if |Get(e.summary, "")| < SummaryLimit then |Get(e.summary, "")| else SummaryLimit)
      && r.value.summary <= Get(e.summary, "")
      && r.value.author == Get(e.author, "Unknown")
      && (e.published.None? || e.published.value == [] ==> r.value.publishedAt == env.now)
      && (e.published.Some? && e.published.value != [] ==> env.parseDate(e.published.value) == Some(r.value.publishedAt))
      && r.value.scrapedAt == env.now
  {
    var summary := Take(Get(e.summary, ""), SummaryLimit);
    if e.published.Some? && e.published.value != [] then
      match env.parseDate(e.published.value)
      case None => None
      case Some(d) => Some(Article(Get(e.title, ""), Get(e.link, ""), summary, d, Get(e.author, "Unknown"), tag, env.now))
    else Some(Article(Get(e.title, ""), Get(e.link, ""), summary, env.now, Get(e.author, "Unknown"), tag, env.now))
  }

  /** The four per-tag counters. */
  datatype Counts = Counts(saved: nat, skipped: nat, editorialProcessed: nat, errors: nat)

  /** A truthy `result.get('error')`. */
  predicate HasError(r: Editorial.EditorialResult)
  {
    r.error.Some? && r.error.value != []
  }

  /** The text sent to the editorial service: `f"{title}\n\n{summary}".strip()`. */
  function EditorialText(a: Article): string
  {
    Strip(a.title + "\n\n" + a.summary)
  }

  /** The body of the inner `for entry in entries` loop for entry `j` of tag `i`. */
  function EntryStep(c: Counts, i: nat, j: nat, tag: string, e: Entry, enableLlm: bool, env: Env): Counts
  {
    match BuildArticle(e, tag, env)
    case None => c.(errors := c.errors + 1)
    case Some(a) =>
      if !env.save(i)(j) then c.(skipped := c.skipped + 1)
      else
        var c1 := c.(saved := c.saved + 1);
        if !enableLlm then c1
        else
          match env.editorial(a.title, EditorialText(a))
          case ServiceRaised(_) => c1.(errors := c1.errors + 1)
          case Verdict(r) =>
            if r.isNews && !HasError(r) then c1.(editorialProcessed := c1.editorialProcessed + 1) else c1
  }

  /** The counters after the first `|es|` entries of tag `i`. */
  function Tally(i: nat, tag: string, es: seq<Entry>, enableLlm: bool, env: Env): Counts
    decreases |es|
  {
    if es == [] then Counts(0, 0, 0, 0)
    else EntryStep(Tally(i, tag, es[..|es| - 1], enableLlm, env), i, |es| - 1, tag, es[|es| - 1], enableLlm, env)
  }

  /** One element of `results`. */
  datatype TagResult = TagResult(success: bool, tag: string, error: Option<string>, saved: nat, skipped: nat,
                                 editorialProcessed: nat, errors: nat)

  /** The result recorded for the `i`-th tag. */
  function ScrapeTag(i: nat, tag: string, maxArticles: int, enableLlm: bool, env: Env): TagResult
  {
    match env.fetch(FeedUrl(tag))
    case FetchFailed(m) => TagResult(false, tag, Some(m), 0, 0, 0, 1)
    case Entries(es) =>
      var c := Tally(i, tag, Take(es, maxArticles), enableLlm, env);
      TagResult(true, tag, None, c.saved, c.skipped, c.editorialProcessed, c.errors)
  }

  /** The inner loop over the entries of one feed. */
  method ProcessEntries(i: nat, tag: string, entries: seq<Entry>, enableLlm: bool, env: Env) returns (c: Counts)
    ensures c == Tally(i, tag, entries, enableLlm, env)
  {
    c := Counts(0, 0, 0, 0);
    var j := 0;
    while j < |entries|
      invariant 0 <= j <= |entries|
      invariant c == Tally(i, tag, entries[..j], enableLlm, env)
    {
      assert entries[..j + 1][..j] == entries[..j];
      c := EntryStep(c, i, j, tag, entries[j], enableLlm, env);
      j := j + 1;
    }
    assert entries[..|entries|] == entries;
  }

  /**
   * `scrape_medium_articles(tags, max_articles, delay, enable_llm)`: the
   * results in tag order and the delays slept between tags.
   */
  method ScrapeMediumArticles(tags: seq<string>, maxArticles: int, delay: int, enableLlm: bool, env: Env)
    returns (results: seq<TagResult>, sleeps: seq<int>)
    ensures |results| == |tags|
    ensures forall i :: 0 <= i < |tags| ==> results[i] == ScrapeTag(i, tags[i], maxArticles, enableLlm, env)
    ensures sleeps == seq(if |tags| == 0 then 0 else |tags| - 1, _ => delay)
  {
    results := [];
    sleeps := [];
    var i := 0;
    while i < |tags|
      invariant 0 <= i <= |tags|
      invariant |results| == i
      invariant forall k :: 0 <= k < i ==> results[k] == ScrapeTag(k, tags[k], maxArticles, enableLlm, env)
      invariant sleeps == seq(if i == |tags| && i > 0 then i - 1 else i, _ => delay)
    {
      var tag := tags[i];
      var r: TagResult;
      match env.fetch(FeedUrl(tag)) {
        case FetchFailed(m) =>
          r := TagResult(false, tag, Some(m), 0, 0, 0, 1);
        case Entries(es) =>
          var entries := Take(es, maxArticles);
          var c := ProcessEntries(i, tag, entries, enableLlm, env);
          r := TagResult(true, tag, None, c.saved, c.skipped, c.editorialProcessed, c.errors);
      }
      results := results + [r];
      if i + 1 < |tags| {
        sleeps := sleeps + [delay];
      }
      i := i + 1;
    }
  }

  /**
   * Every entry lands in saved, skipped or errors; an entry counts twice
   * only when it was saved and the editorial service then raised.
   * editorial_processed never exceeds saved.
   */
  lemma {:induction false} TallyBounds(i: nat, tag: string, es: seq<Entry>, enableLlm: bool, env: Env)
    ensures var c := Tally(i, tag, es, enableLlm, env);
      && |es| <= c.saved + c.skipped + c.errors <= |es| + c.saved
      && c.editorialProcessed <= c.saved
      && (!enableLlm ==> c.saved + c.skipped + c.errors == |es| && c.editorialProcessed == 0)
    decreases |es|
  {
    if es != [] {
      TallyBounds(i, tag, es[..|es| - 1], enableLlm, env);
    }
  }

  /**
   * A failed fetch records success False with zero counts and one error; a
   * fetched feed processes at most `max_articles` entries (all of them when
   * `max_articles` is at least the feed length).
   */
  lemma TagResultShape(i: nat, tag: string, maxArticles: nat, enableLlm: bool, env: Env)
    ensures var r := ScrapeTag(i, tag, maxArticles, enableLlm, env);
      && r.tag == tag
      && (r.success <==> env.fetch(FeedUrl(tag)).Entries?)
      && (!r.success ==> r.error == Some(env.fetch(FeedUrl(tag)).message)
                         && r.saved == 0 && r.skipped == 0 && r.editorialProcessed == 0 && r.errors == 1)
      && (r.success ==>
            var n := if maxArticles < |env.fetch(FeedUrl(tag)).entries| then maxArticles
                     else |env.fetch(FeedUrl(tag)).entries|;
            && r.error.None?
            && n <= r.saved + r.skipped + r.errors <= n + r.saved
            && r.editorialProcessed <= r.saved)
  {
    if env.fetch(FeedUrl(tag)).Entries? {
      var es := env.fetch(FeedUrl(tag)).entries;
      TakeNonNegative(es, maxArticles);
      TallyBounds(i, tag, Take(es, maxArticles), enableLlm, env);
    }
  }

  /** Without editorial processing the per-tag counters add up to the entries processed. */
  lemma CountersAddUpWithoutLlm(i: nat, tag: string, maxArticles: nat, env: Env)
    requires env.fetch(FeedUrl(tag)).Entries?
    ensures var r := ScrapeTag(i, tag, maxArticles, false, env);
      var es := env.fetch(FeedUrl(tag)).entries;
      && r.saved + r.skipped + r.errors == (if maxArticles < |es| then maxArticles else |es|)
      && r.editorialProcessed == 0
  {
    var es := env.fetch(FeedUrl(tag)).entries;
    TakeNonNegative(es, maxArticles);
    TallyBounds(i, tag, Take(es, maxArticles), false, env);
  }

  // ---------------------------------------------------------------------
  // The keys of `article_data` against the `MediumArticle` columns
  // ---------------------------------------------------------------------

  /** The keyword arguments `MediumArticle(...)` accepts: its columns (src/models/database.py:100-116). */
  const MediumColumns: set<string> := {"id", "url", "title", "author", "description", "full_text", "claps",
                                       "published_date", "is_paywalled", "source", "tags", "scraped_at"}

  /** The keys of the `article_data` dictionary the scraper builds. */
  const ArticleDataKeys: set<string> := {"title", "url", "summary", "published_at", "author", "tag", "scraped_at"}

  /** The keys the dictionary evidently should carry: the scraper's fields under the column names. */
  const IntendedKeys: set<string> := {"title", "url", "description", "published_date", "author", "tags", "scraped_at"}

  /**
   * `save_medium_article(article_data)` for a dictionary with keys `keys`:
   * False when the url is already stored or the session fails, and False
   * when `MediumArticle(**article_data)` raises `TypeError` for a keyword
   * that is not a column; True after inserting otherwise.
   */
  predicate SaveAnswer(keys: set<string>, urlPresent: bool, fails: bool)
  {
    !urlPresent && !fails && keys <= MediumColumns
  }

  /** As written, the scraper's dictionary carries 'summary', which is not a column, so every save answers False. */
  lemma ArticleDataRejected(urlPresent: bool, fails: bool)
    ensures !SaveAnswer(ArticleDataKeys, urlPresent, fails)
  {
    assert "summary" in ArticleDataKeys;
    assert "summary"[1] == 'u';
    assert "summary" !in MediumColumns;
  }

  /**
   * As written, a feed whose saves are answered by `save_medium_article`
   * stores nothing: no entry is saved or sent to the editorial service,
   * and every entry is counted as skipped or as an error.
   */
  lemma {:induction false} NothingSavedAsWritten(i: nat, tag: string, es: seq<Entry>, enableLlm: bool, env: Env,
                                                 present: nat -> nat -> bool, fails: nat -> nat -> bool)
    requires forall i', j :: env.save(i')(j) == SaveAnswer(ArticleDataKeys, present(i')(j), fails(i')(j))
    ensures var c := Tally(i, tag, es, enableLlm, env);
      c.saved == 0 && c.editorialProcessed == 0 && c.skipped + c.errors == |es|
    decreases |es|
  {
    if es != [] {
      NothingSavedAsWritten(i, tag, es[..|es| - 1], enableLlm, env, present, fails);
      ArticleDataRejected(present(i)(|es| - 1), fails(i)(|es| - 1));
    }
  }

  /** The dictionary the scraper evidently means to pass: the summary as description, the tag as tags. */
  function IntendedInput(a: Article): Tables.MediumInput
  {
    Tables.MediumInput(a.url, a.title, Some(a.author), Tables.TagText(a.tag), a.publishedAt, a.scrapedAt)
  }

  /**
   * With the intended keys every keyword is a column, so the save is the
   * insert-if-absent on url, and the stored row carries the entry's url,
   * title, author, tag and dates.
   */
  lemma IntendedSaveInsertsNewUrls(a: Article, urlPresent: bool, fails: bool)
    ensures SaveAnswer(IntendedKeys, urlPresent, fails) <==> !urlPresent && !fails
    ensures var row := Tables.ToMediumRow(IntendedInput(a));
      && row.url == a.url && row.title == a.title && row.author == Some(a.author)
      && row.tags == Some(a.tag) && row.publishedDate == a.publishedAt && row.scrapedAt == a.scrapedAt
  {
    assert IntendedKeys <= MediumColumns;
  }
}
