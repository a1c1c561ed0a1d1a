/**
 * `src/scrapers/reddit_scraper.py`: credential masking and checks, the
 * per-subreddit retry loop that tallies the save pipeline's answers, and the
 * multi-subreddit loop with its authorisation pre-check.
 *
 * The Reddit API is an oracle: attempt number `k` of a scrape either yields
 * the posts' save results or fails with an authorisation error, an HTTP
 * status or another exception. Sleeps are returned as the list of delays.
 */
module RedditScraper {
  import opened Wrappers
  import ModelsDatabase
  import PyStr

  // ---------------------------------------------------------------------
  // Credentials
  // ---------------------------------------------------------------------

  /** `mask_credential(cred)` */
  function MaskCredential(cred: string): (r: string)
    ensures |cred| < 8 ==> r == "****"
    ensures |cred| >= 8 ==> |r| == 11 && r[..4] == cred[..4] && r[4..7] == "..." && r[7..] == cred[|cred| - 4..]
  {
    if |cred| < 8 then "****" else cred[..4] + "..." + cred[|cred| - 4..]
  }

  /** The mask reveals at most the first and last four characters: credentials agreeing there mask alike. */
  lemma MaskRevealsOnlyEnds(a: string, b: string)
    requires (|a| < 8 && |b| < 8) || (|a| >= 8 && |b| >= 8 && a[..4] == b[..4] && a[|a| - 4..] == b[|b| - 4..])
    ensures MaskCredential(a) == MaskCredential(b)
  {
  }

  const MissingCredentials: string := "Reddit API credentials не настроены в .env"
  const MalformedCredentials: string := "Reddit credentials выглядят некорректно"

  /** What the test request of `get_reddit_client` does once the credentials pass the local checks. */
  datatype Network = Connected | HttpStatus(code: int) | Unreachable(message: string)

  /** `get_reddit_client()`: a client, a `RedditAuthError`, or another exception that propagates. */
  datatype ClientResult = Client | AuthError(message: string) | OtherError(message: string)

  predicate Truthy(s: Option<string>)
  {
    s.Some? && s.value != []
  }

  function GetRedditClient(clientId: Option<string>, clientSecret: Option<string>, net: Network): ClientResult
  {
    if !Truthy(clientId) || !Truthy(clientSecret) then AuthError(MissingCredentials)
    else if |clientId.value| < 10 || |clientSecret.value| < 20 then AuthError(MalformedCredentials)
    else
      match net
      case Connected => Client
      case HttpStatus(code) =>
        if code == 401 then AuthError("401 Unauthorized - неверные Reddit credentials")
        // The `ResponseException` is re-raised as it is; its text names the status.
        else OtherError("received " + PyStr.IntToString(code) + " HTTP response")
      case Unreachable(m) => OtherError(m)
  }

  /**
   * A missing credential, a client id under 10 characters or a secret under
   * 20 characters is an authorisation error raised before any network call:
   * the answer does not depend on the network at all.
   */
  lemma LocalChecksPrecedeNetwork(clientId: Option<string>, clientSecret: Option<string>, n1: Network, n2: Network)
    requires !Truthy(clientId) || !Truthy(clientSecret) || |clientId.value| < 10 || |clientSecret.value| < 20
    ensures GetRedditClient(clientId, clientSecret, n1) == GetRedditClient(clientId, clientSecret, n2)
    ensures GetRedditClient(clientId, clientSecret, n1).AuthError?
  {
  }

  /** With well-formed credentials, only a 401 answer becomes an authorisation error. */
  lemma AuthErrorOnlyFor401(clientId: Option<string>, clientSecret: Option<string>, net: Network)
    requires Truthy(clientId) && Truthy(clientSecret) && |clientId.value| >= 10 && |clientSecret.value| >= 20
    ensures GetRedditClient(clientId, clientSecret, net).AuthError? <==> net == HttpStatus(401)
    ensures GetRedditClient(clientId, clientSecret, net).Client? <==> net == Connected
  {
  }

  // ---------------------------------------------------------------------
  // Counting one subreddit's posts
  // ---------------------------------------------------------------------

  /** One post of the listing: the dict `save_reddit_post` returned, or an exception while handling it. */
  datatype PostOutcome = Handled(result: ModelsDatabase.SaveResult) | PostRaised

  datatype Counts = Counts(saved: nat, skipped: nat, semanticDuplicates: nat, editorialProcessed: nat, errors: nat)

  /** The counter each post increments. */
  datatype Bucket = SavedBucket | SkippedBucket | SemanticBucket | ErrorBucket

  function BucketOf(o: PostOutcome): Bucket
  {
    match o
    case PostRaised => ErrorBucket
    case Handled(r) =>
      if r.saved then SavedBucket
      else if r.reason == Some(ModelsDatabase.DuplicateId) then SkippedBucket
      else if r.reason == Some(ModelsDatabase.DuplicateSemantic) then SemanticBucket
      else if r.reason == Some(ModelsDatabase.TooShort) then SkippedBucket
      else ErrorBucket
  }

  /** Adding one post to the counters. */
  function Count(c: Counts, o: PostOutcome): Counts
  {
    match BucketOf(o)
    case SavedBucket =>
      c.(saved := c.saved + 1,
         editorialProcessed := c.editorialProcessed + if o.Handled? && o.result.editorialProcessed then 1 else 0)
    case SkippedBucket => c.(skipped := c.skipped + 1)
    case SemanticBucket => c.(semanticDuplicates := c.semanticDuplicates + 1)
    case ErrorBucket => c.(errors := c.errors + 1)
  }

  function Zero(): Counts { Counts(0, 0, 0, 0, 0) }

  /** The counters after a listing. */
  function Tally(posts: seq<PostOutcome>): Counts
  {
    if posts == [] then Zero() else Count(Tally(posts[..|posts| - 1]), posts[|posts| - 1])
  }

  function NumIn(posts: seq<PostOutcome>, b: Bucket): nat
  {
    if posts == [] then 0 else NumIn(posts[..|posts| - 1], b) + if BucketOf(posts[|posts| - 1]) == b then 1 else 0
  }

  /**
   * Each post lands in exactly one bucket, so the four counters add up to the
   * number of posts; each counter counts its bucket; editorial work is counted
   * only for saved posts.
   */
  lemma {:induction false} TallyAddsUp(posts: seq<PostOutcome>)
    ensures var c := Tally(posts);
      && c.saved + c.skipped + c.semanticDuplicates + c.errors == |posts|
      && c.saved == NumIn(posts, SavedBucket) && c.skipped == NumIn(posts, SkippedBucket)
      && c.semanticDuplicates == NumIn(posts, SemanticBucket) && c.errors == NumIn(posts, ErrorBucket)
      && c.editorialProcessed <= c.saved
  {
    if posts != [] {
      TallyAddsUp(posts[..|posts| - 1]);
    }
  }

  /**
   * A 'too_short' answer is reported with saved True by the pipeline, so it is
   * counted as saved; the skipped bucket then only holds exact duplicates.
   */
  lemma SkippedMeansDuplicateId(o: PostOutcome)
    requires o.Handled? && o.result.reason == Some(ModelsDatabase.TooShort) && o.result.saved
    ensures BucketOf(o) == SavedBucket
  {
  }

  // ---------------------------------------------------------------------
  // scrape_subreddit
  // ---------------------------------------------------------------------

  /** What one pass of the `while` body meets. */
  datatype Attempt =
    | Listing(posts: seq<PostOutcome>)
    | AuthFailure(message: string)
    | HttpFailure(status: int, message: string)
    | OtherFailure(message: string)

  datatype ErrorType = Auth | RateLimit | Http | Unknown | MaxRetriesExceeded | AuthPreCheck

  datatype SubredditResult =
    | Success(subreddit: string, counts: Counts, retries: nat)
    | Failure(subreddit: string, error: string, errorType: ErrorType, retries: nat)

  /** A result together with the sleeps taken before it was reached. */
  datatype Run = Run(result: SubredditResult, waits: seq<nat>)

  function Pow2(n: nat): (r: nat)
    ensures r >= 1
  {
    if n == 0 then 1 else 2 * Pow2(n - 1)
  }

  function Prepend(waits: seq<nat>, run: Run): Run
  {
    Run(run.result, waits + run.waits)
  }

  /** The error message and type of a failed attempt after `retries` increments. */
  function FailureAfter(name: string, a: Attempt, retries: nat): SubredditResult
    requires a.HttpFailure? || a.OtherFailure?
  {
    if a.HttpFailure? && a.status == 429 then Failure(name, "Rate limit exceeded", RateLimit, retries)
    else if a.HttpFailure? then Failure(name, a.message, Http, retries)
    else Failure(name, a.message, Unknown, retries)
  }

  /** The wait before retrying after the `retries`-th failure. */
  function WaitAfter(a: Attempt, retries: nat): nat
  {
    if a.HttpFailure? && a.status == 429 then Pow2(retries) else 2
  }

  /** `scrape_subreddit` from attempt number `k` on. */
  function ScrapeFrom(name: string, attempts: nat -> Attempt, maxRetries: int, retryOnError: bool, k: nat): Run
    decreases if k <= maxRetries then maxRetries - k + 1 else 0
  {
    if k > maxRetries then Run(Failure(name, "None", MaxRetriesExceeded, k), [])
    else
      match attempts(k)
      case Listing(posts) => Run(Success(name, Tally(posts), k), [])
      case AuthFailure(m) => Run(Failure(name, m, Auth, k), [])
      case _ =>
        if k + 1 <= maxRetries && retryOnError
        then Prepend([WaitAfter(attempts(k), k + 1)], ScrapeFrom(name, attempts, maxRetries, retryOnError, k + 1))
        else Run(FailureAfter(name, attempts(k), k + 1), [])
  }

  function Retries(r: SubredditResult): nat { r.retries }

  /** Sleeping one more wait moves it from the run to the waits already slept. */
  lemma PrependStep(waits: seq<nat>, w: nat, run: Run)
    ensures Prepend(waits, Prepend([w], run)) == Prepend(waits + [w], run)
  {
    assert waits + ([w] + run.waits) == (waits + [w]) + run.waits;
  }

  /** The `for` loop over a listing, with its five counters. */
  method CountPosts(posts: seq<PostOutcome>) returns (c: Counts)
    ensures c == Tally(posts)
  {
    c := Zero();
    var i := 0;
    while i < |posts|
      invariant 0 <= i <= |posts|
      invariant c == Tally(posts[..i])
    {
      assert posts[..i + 1][..i] == posts[..i];
      c := Count(c, posts[i]);
      i := i + 1;
    }
    assert posts[..|posts|] == posts;
  }

  /** `scrape_subreddit(name, ..., retry_on_error, max_retries)` */
  method ScrapeSubreddit(name: string, attempts: nat -> Attempt, maxRetries: int, retryOnError: bool)
    returns (result: SubredditResult, waits: seq<nat>)
    ensures Run(result, waits) == ScrapeFrom(name, attempts, maxRetries, retryOnError, 0)
  {
    var retryCount: nat := 0;
    waits := [];
    while retryCount <= maxRetries
      invariant retryCount <= maxRetries + 1 || retryCount == 0
      invariant ScrapeFrom(name, attempts, maxRetries, retryOnError, 0)
             == Prepend(waits, ScrapeFrom(name, attempts, maxRetries, retryOnError, retryCount))
      decreases maxRetries - retryCount
    {
      ghost var here := ScrapeFrom(name, attempts, maxRetries, retryOnError, retryCount);
      var a := attempts(retryCount);
      match a {
        case Listing(posts) =>
          var c := CountPosts(posts);
          assert here == Run(Success(name, c, retryCount), []);
          return Success(name, c, retryCount), waits;
        case AuthFailure(m) =>
          assert here == Run(Failure(name, m, Auth, retryCount), []);
          return Failure(name, m, Auth, retryCount), waits;
        case _ =>
          retryCount := retryCount + 1;
          if retryCount <= maxRetries && retryOnError {
            ghost var rest := ScrapeFrom(name, attempts, maxRetries, retryOnError, retryCount);
            assert here == Prepend([WaitAfter(a, retryCount)], rest);
            PrependStep(waits, WaitAfter(a, retryCount), rest);
            waits := waits + [WaitAfter(a, retryCount)];
          } else {
            assert here == Run(FailureAfter(name, a, retryCount), []);
            return FailureAfter(name, a, retryCount), waits;
          }
      }
    }
    return Failure(name, "None", MaxRetriesExceeded, retryCount), waits;
  }

  /**
   * Retries are bounded: a result reports at most max_retries + 1 retries,
   * and one wait was slept for every retry except a final failing one.
   */
  lemma {:induction false} RetriesBounded(name: string, attempts: nat -> Attempt, maxRetries: int, retryOnError: bool, k: nat)
    requires k <= maxRetries + 1
    ensures var run := ScrapeFrom(name, attempts, maxRetries, retryOnError, k);
      && k <= run.result.retries <= maxRetries + 1
      && (run.result.Success? || run.result.errorType == Auth ==> |run.waits| == run.result.retries - k)
      && (run.result.Failure? && run.result.errorType in {RateLimit, Http, Unknown} ==>
            |run.waits| == run.result.retries - k - 1)
    decreases maxRetries + 1 - k
  {
    if k <= maxRetries {
      match attempts(k)
      case Listing(_) =>
      case AuthFailure(_) =>
      case _ =>
        if k + 1 <= maxRetries && retryOnError {
          RetriesBounded(name, attempts, maxRetries, retryOnError, k + 1);
        }
    }
  }

  /** An authorisation error is never retried. */
  lemma AuthNotRetried(name: string, attempts: nat -> Attempt, maxRetries: int, retryOnError: bool)
    requires maxRetries >= 0 && attempts(0).AuthFailure?
    ensures ScrapeFrom(name, attempts, maxRetries, retryOnError, 0)
         == Run(Failure(name, attempts(0).message, Auth, 0), [])
  {
  }

  /** Without retry_on_error a failure ends the scrape at once, with one retry counted. */
  lemma NoRetryWithoutRetryOnError(name: string, attempts: nat -> Attempt, maxRetries: int)
    requires maxRetries >= 0 && (attempts(0).HttpFailure? || attempts(0).OtherFailure?)
    ensures ScrapeFrom(name, attempts, maxRetries, false, 0) == Run(FailureAfter(name, attempts(0), 1), [])
  {
  }

  /** With a negative max_retries the loop body never runs. */
  lemma NegativeMaxRetries(name: string, attempts: nat -> Attempt, maxRetries: int, retryOnError: bool)
    requires maxRetries < 0
    ensures ScrapeFrom(name, attempts, maxRetries, retryOnError, 0) == Run(Failure(name, "None", MaxRetriesExceeded, 0), [])
  {
  }

  /** Only a negative max_retries yields 'max_retries_exceeded'. */
  lemma {:induction false} MaxRetriesExceededOnlyWhenNegative(name: string, attempts: nat -> Attempt, maxRetries: int,
                                                               retryOnError: bool, k: nat)
    requires k <= maxRetries
    ensures ScrapeFrom(name, attempts, maxRetries, retryOnError, k).result.Failure? ==>
            ScrapeFrom(name, attempts, maxRetries, retryOnError, k).result.errorType != MaxRetriesExceeded
    decreases maxRetries - k
  {
    match attempts(k)
    case Listing(_) =>
    case AuthFailure(_) =>
    case _ =>
      if k + 1 <= maxRetries && retryOnError {
        MaxRetriesExceededOnlyWhenNegative(name, attempts, maxRetries, retryOnError, k + 1);
      }
  }

  /** Repeated rate limiting backs off exponentially: the i-th wait is 2**i seconds. */
  lemma {:induction false} RateLimitBackoff(name: string, attempts: nat -> Attempt, maxRetries: int, k: nat)
    requires forall j: nat :: k <= j ==> attempts(j).HttpFailure? && attempts(j).status == 429
    ensures forall i :: 0 <= i < |ScrapeFrom(name, attempts, maxRetries, true, k).waits| ==>
              ScrapeFrom(name, attempts, maxRetries, true, k).waits[i] == Pow2(k + i + 1)
    decreases if k <= maxRetries then maxRetries - k + 1 else 0
  {
    if k + 1 <= maxRetries {
      RateLimitBackoff(name, attempts, maxRetries, k + 1);
      var rest := ScrapeFrom(name, attempts, maxRetries, true, k + 1);
      var run := ScrapeFrom(name, attempts, maxRetries, true, k);
      assert run.waits == [Pow2(k + 1)] + rest.waits;
      forall i | 0 < i < |run.waits| ensures run.waits[i] == Pow2(k + i + 1) {
        assert run.waits[i] == rest.waits[i - 1];
      }
    }
  }

  // ---------------------------------------------------------------------
  // scrape_multiple_subreddits
  // ---------------------------------------------------------------------

  predicate IsAuthFailure(r: SubredditResult)
  {
    r.Failure? && r.errorType == Auth
  }

  /**
   * `scrape_multiple_subreddits`: the pre-check's `RedditAuthError` gives one
   * 'auth_pre_check' failure; another pre-check exception propagates (`Err`).
   * Each subreddit is scraped with the default three retries.
   */
  method ScrapeMultipleSubreddits(subreddits: seq<string>, precheck: ClientResult,
                                  attempts: nat -> nat -> Attempt, delay: nat, stopOnAuthError: bool)
    returns (out: Result<seq<SubredditResult>, string>, sleeps: seq<nat>)
    ensures precheck.AuthError? ==> out == Ok([Failure("", precheck.message, AuthPreCheck, 0)]) && sleeps == []
    ensures precheck.OtherError? ==> out == Err(precheck.message) && sleeps == []
    ensures precheck.Client? ==> out.Ok? && var rs := out.value;
      && |rs| <= |subreddits|
      && (forall i :: 0 <= i < |rs| ==> rs[i] == ScrapeFrom(subreddits[i], attempts(i), 3, true, 0).result)
      && (|rs| < |subreddits| ==> stopOnAuthError && |rs| > 0 && IsAuthFailure(rs[|rs| - 1]))
      && (forall i :: 0 <= i < |rs| - 1 ==> !(stopOnAuthError && IsAuthFailure(rs[i])))
      && sleeps == seq(if rs == [] then 0 else |rs| - 1, _ => delay)
  {
    sleeps := [];
    match precheck {
      case AuthError(m) =>
        return Ok([Failure("", m, AuthPreCheck, 0)]), sleeps;
      case OtherError(m) =>
        return Err(m), sleeps;
      case Client =>
    }
    var results: seq<SubredditResult> := [];
    var i := 0;
    while i < |subreddits|
      invariant 0 <= i <= |subreddits| && |results| == i
      invariant forall j :: 0 <= j < i ==> results[j] == ScrapeFrom(subreddits[j], attempts(j), 3, true, 0).result
      invariant forall j :: 0 <= j < i ==> !(stopOnAuthError && IsAuthFailure(results[j]))
      invariant sleeps == seq(if i == |subreddits| && i > 0 then i - 1 else i, _ => delay)
    {
      var r, _ := ScrapeSubreddit(subreddits[i], attempts(i), 3, true);
      results := results + [r];
      if IsAuthFailure(r) && stopOnAuthError {
        return Ok(results), sleeps;
      }
      if i + 1 < |subreddits| {
        sleeps := sleeps + [delay];
      }
      i := i + 1;
    }
    return Ok(results), sleeps;
  }
}
