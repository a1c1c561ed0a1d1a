/**
 * `src/models/database.py`: the store used by the current scrapers, with the
 * seven-step Reddit ingestion pipeline (exact duplicate check, insert,
 * service health check, text length check, semantic duplicate check, Qdrant
 * embedding, editorial processing) and the editorial upsert into
 * `processed_reddit_posts`.
 *
 * Every external service is an input: the database failure flags, the
 * Qdrant/Ollama health answers, the semantic duplicate verdict, the Qdrant
 * save, and the editorial result.
 */
module ModelsDatabase {
  import opened Wrappers
  import opened Tables
  import PyStr
  import Editorial

  /** A row of `processed_reddit_posts`; the processing time and timestamp are left out. */
  datatype ProcessedPost = ProcessedPost(
    postId: string,
    originalTitle: string,
    originalText: string,
    subreddit: Option<string>,
    author: Option<string>,
    url: Option<string>,
    score: int,
    isNews: bool,
    originalSummary: Option<string>,
    rewrittenPost: Option<string>,
    editorialTitle: Option<string>,
    teaser: Option<string>,
    imagePrompt: Option<string>,
    modelUsed: Option<string>)

  /** The `reason` of a `save_reddit_post` result. */
  datatype Reason = DuplicateId | ServicesUnavailable | TooShort | DuplicateSemantic | Error

  /** The dict `save_reddit_post` returns. */
  datatype SaveResult = SaveResult(
    saved: bool,
    reason: Option<Reason>,
    duplicateOf: Option<string>,
    similarity: Option<real>,
    editorialProcessed: bool)

  /** What `dedup.check_duplicate(text)` does. */
  datatype SemanticVerdict = NotDuplicate | Duplicate(of: string, similarity: real) | CheckRaises

  /** What the Qdrant step does: `save_to_qdrant` raising, returning a falsy id, or an id. */
  datatype QdrantStep = SaveRaises | NoId | Stored(id: string, linked: bool)

  /** All the answers the outside world gives during one `save_reddit_post` call. */
  datatype PipelineEnv = PipelineEnv(
    lookupFails: bool,
    insertFails: bool,
    qdrantOk: bool,
    ollamaOk: bool,
    semantic: SemanticVerdict,
    deleteFails: bool,
    qdrant: QdrantStep,
    editorial: Editorial.EditorialResult,
    editorialDbFails: bool)

  const ModelUsed: string := "gpt-oss:20b"

  /** `f"{post.title}\n\n{post.selftext or ''}"` */
  function PostText(p: RedditPost): string
  {
    p.title + "\n\n" + (if p.selftext.Some? then p.selftext.value else "")
  }

  /** The pipeline's "text too short" test: fewer than 50 characters once stripped. */
  predicate TooShortText(text: string)
  {
    |PyStr.Strip(text)| < 50
  }

  // ---------------------------------------------------------------------
  // _process_editorial
  // ---------------------------------------------------------------------

  function EmptyProcessed(postId: string): ProcessedPost
  {
    ProcessedPost(postId, "", "", None, None, None, 0, false, None, None, None, None, None, None)
  }

  /**
   * The row `_process_editorial` leaves behind: the existing row (or a new one)
   * with the original fields and is_news overwritten, the editorial fields
   * overwritten only for news, and the model name recorded.
   */
  function Upserted(existing: Option<ProcessedPost>, postId: string, text: string, title: string,
                    post: RedditPost, r: Editorial.EditorialResult): (row: ProcessedPost)
    ensures row.postId == (if existing.Some? then existing.value.postId else postId)
    ensures row.originalTitle == title && row.originalText == text && row.isNews == r.isNews
    ensures row.subreddit == Some(post.subreddit) && row.author == post.author && row.url == post.url
    ensures row.modelUsed == Some(ModelUsed)
    ensures r.isNews ==> (row.originalSummary == r.originalSummary && row.rewrittenPost == r.rewrittenPost
      && row.editorialTitle == r.title && row.teaser == r.teaser && row.imagePrompt == r.imagePrompt)
    ensures !r.isNews ==> var base := if existing.Some? then existing.value else EmptyProcessed(postId);
      row.originalSummary == base.originalSummary && row.rewrittenPost == base.rewrittenPost
      && row.editorialTitle == base.editorialTitle && row.teaser == base.teaser && row.imagePrompt == base.imagePrompt
  {
    var base := if existing.Some? then existing.value else EmptyProcessed(postId);
    var row := base.(originalTitle := title, originalText := text, subreddit := Some(post.subreddit),
                     author := post.author, url := post.url, score := post.score, isNews := r.isNews,
                     modelUsed := Some(ModelUsed));
    if r.isNews then
      row.(originalSummary := r.originalSummary, rewrittenPost := r.rewrittenPost,
           editorialTitle := r.title, teaser := r.teaser, imagePrompt := r.imagePrompt)
    else row
  }

  /** Whether `_process_editorial` returns True. */
  predicate EditorialSucceeds(r: Editorial.EditorialResult, dbFails: bool)
  {
    !Editorial.Truthy(r.error) && !dbFails
  }

  /** The `processed_reddit_posts` table after `_process_editorial`. */
  function ProcessedAfter(processed: map<string, ProcessedPost>, postId: string, text: string, title: string,
                          post: RedditPost, r: Editorial.EditorialResult, dbFails: bool): map<string, ProcessedPost>
  {
    if EditorialSucceeds(r, dbFails)
    then processed[postId := Upserted(if postId in processed then Some(processed[postId]) else None,
                                      postId, text, title, post, r)]
    else processed
  }

  /**
   * `_process_editorial` touches nothing on an LLM error or a database error;
   * otherwise it writes exactly the row for this post_id, keeping its key, and
   * every other processed row stays as it was.
   */
  lemma ProcessedAfterFrame(processed: map<string, ProcessedPost>, postId: string, text: string, title: string,
                            post: RedditPost, r: Editorial.EditorialResult, dbFails: bool)
    requires forall k :: k in processed ==> processed[k].postId == k
    ensures var m := ProcessedAfter(processed, postId, text, title, post, r, dbFails);
      && (Editorial.Truthy(r.error) || dbFails ==> m == processed)
      && (EditorialSucceeds(r, dbFails) ==> m.Keys == processed.Keys + {postId} && m[postId].postId == postId
                                             && m[postId].isNews == r.isNews)
      && (forall k :: k in processed && k != postId ==> k in m && m[k] == processed[k])
      && (forall k :: k in m ==> m[k].postId == k)
  {
  }

  // ---------------------------------------------------------------------
  // save_reddit_post as a decision tree
  // ---------------------------------------------------------------------

  /** Where the pipeline stops, given the state of the table and the environment. */
  datatype Exit =
    | LookupError | ExistingId | InsertError | BasicMode | Unhealthy | ShortText
    | SemanticDup(of: string, similarity: real) | DeleteError | QdrantUnbound | Completed

  /** The decision tree of `save_reddit_post` over the facts each step looks at. */
  function Decide(env: PipelineEnv, known: bool, short: bool, checkSemantic: bool, processEditorial: bool): Exit
  {
    if env.lookupFails then LookupError
    else if known then ExistingId
    else if env.insertFails then InsertError
    else if !checkSemantic && !processEditorial then BasicMode
    else if !(env.qdrantOk && env.ollamaOk) then Unhealthy
    else if short then ShortText
    else if checkSemantic && env.semantic.Duplicate? then (if env.deleteFails then DeleteError else SemanticDup(env.semantic.of, env.semantic.similarity))
    else if env.qdrant.SaveRaises? then QdrantUnbound
    else Completed
  }

  function PipelineExit(posts: map<string, RedditPost>, p: RedditPost, checkSemantic: bool, processEditorial: bool,
                        env: PipelineEnv): Exit
  {
    Decide(env, p.postId in posts, TooShortText(PostText(p)), checkSemantic, processEditorial)
  }

  /** Whether step 7 (editorial processing) runs. */
  predicate EditorialRuns(e: Exit, processEditorial: bool, env: PipelineEnv)
  {
    (e == QdrantUnbound || e == Completed) && processEditorial && env.ollamaOk
  }

  function Outcome(saved: bool, reason: Option<Reason>): SaveResult
  {
    SaveResult(saved, reason, None, None, false)
  }

  /** The dict `save_reddit_post` returns, as written. */
  function PipelineResult(posts: map<string, RedditPost>, p: RedditPost, checkSemantic: bool, processEditorial: bool,
                          env: PipelineEnv): SaveResult
  {
    ResultAt(PipelineExit(posts, p, checkSemantic, processEditorial, env), p, processEditorial, env)
  }

  /** The result for each exit of the decision tree. */
  function ResultAt(e: Exit, p: RedditPost, processEditorial: bool, env: PipelineEnv): SaveResult
  {
    match e
    case LookupError => Outcome(false, Some(Error))
    case ExistingId => SaveResult(false, Some(DuplicateId), Some(p.postId), None, false)
    case InsertError => Outcome(false, Some(Error))
    case BasicMode => Outcome(true, None)
    case Unhealthy => Outcome(true, Some(ServicesUnavailable))
    case ShortText => Outcome(true, Some(TooShort))
    case SemanticDup(of, similarity) =>
      SaveResult(false, Some(DuplicateSemantic), Some(of), Some(similarity), false)
    // `session.delete(post)` or its commit raises (src/models/database.py:532-533). The inner
    // except at src/models/database.py:549-551 only logs it, and the pipeline goes on to step 6;
    // but the session is left pending rollback, so the next access to `post` raises, and the
    // outer except at src/models/database.py:608-618 rolls back and reports 'error'.
    case DeleteError => Outcome(false, Some(Error))
    case QdrantUnbound => Outcome(false, Some(Error))
    case Completed =>
      Outcome(true, None).(editorialProcessed := processEditorial && env.ollamaOk
                                                 && EditorialSucceeds(env.editorial, env.editorialDbFails))
  }

  /** The stored post after step 6 links it to its Qdrant point. */
  function Linked(p: RedditPost, q: QdrantStep): RedditPost
  {
    if q.Stored? && q.linked then p.(qdrantId := Some(q.id)) else p
  }

  /** The `reddit_posts` table after `save_reddit_post`, as written (keyed by post_id). */
  function PostsAfter(posts: map<string, RedditPost>, p: RedditPost, checkSemantic: bool, processEditorial: bool,
                      env: PipelineEnv): map<string, RedditPost>
  {
    PostsAt(PipelineExit(posts, p, checkSemantic, processEditorial, env), posts, p, env)
  }

  /** The table for each exit of the decision tree. */
  function PostsAt(e: Exit, posts: map<string, RedditPost>, p: RedditPost, env: PipelineEnv): map<string, RedditPost>
  {
    match e
    case LookupError => posts
    case ExistingId => posts
    case InsertError => posts
    case SemanticDup(_, _) => posts
    case Completed => posts[p.postId := Linked(p, env.qdrant)]
    case _ => posts[p.postId := p]
  }

  // ---------------------------------------------------------------------
  // The store
  // ---------------------------------------------------------------------

  class Store {
    var redditPosts: map<string, RedditPost>
    var processed: map<string, ProcessedPost>
    var telegramMessages: seq<TelegramMessage>
    var mediumArticles: seq<MediumArticle>

    ghost predicate Valid()
      reads this
    {
      (forall k :: k in redditPosts ==> redditPosts[k].postId == k)
      && (forall k :: k in processed ==> processed[k].postId == k)
    }

    constructor ()
      ensures Valid() && redditPosts == map[] && processed == map[] && telegramMessages == [] && mediumArticles == []
    {
      redditPosts, processed, telegramMessages, mediumArticles := map[], map[], [], [];
    }

    /** `save_medium_article(article_data)`: insert-if-absent on url, tags JSON-encoded. */
    method SaveMediumArticle(a: MediumInput, fails: bool) returns (saved: bool)
      modifies this`mediumArticles
      ensures saved <==> !HasUrl(old(mediumArticles), a.url) && !fails
      ensures mediumArticles == if saved then old(mediumArticles) + [ToMediumRow(a)] else old(mediumArticles)
    {
      if HasUrl(mediumArticles, a.url) || fails {
        return false;
      }
      mediumArticles := mediumArticles + [ToMediumRow(a)];
      return true;
    }

    /** `save_telegram_message(msg_data)`: insert-if-absent on (message_id, channel_username). */
    method SaveTelegramMessage(m: TelegramMessage, fails: bool) returns (saved: bool)
      modifies this`telegramMessages
      ensures saved <==> !HasMessage(old(telegramMessages), m.messageId, m.channelUsername) && !fails
      ensures telegramMessages == if saved then old(telegramMessages) + [m] else old(telegramMessages)
    {
      if HasMessage(telegramMessages, m.messageId, m.channelUsername) || fails {
        return false;
      }
      telegramMessages := telegramMessages + [m];
      return true;
    }

    /** `_check_services_health()`: each probe that raises counts as unavailable. */
    static method CheckServicesHealth(qdrant: Option<bool>, ollama: Option<bool>) returns (qdrantOk: bool, ollamaOk: bool)
      ensures qdrantOk <==> qdrant == Some(true)
      ensures ollamaOk <==> ollama == Some(true)
    {
      qdrantOk, ollamaOk := false, false;
      if qdrant.Some? {
        qdrantOk := qdrant.value;
      }
      if ollama.Some? {
        ollamaOk := ollama.value;
      }
    }

    /** `_process_editorial(post_id, text, title, post_data)` given the editorial result. */
    method ProcessEditorial(postId: string, text: string, title: string, post: RedditPost,
                            r: Editorial.EditorialResult, dbFails: bool) returns (ok: bool)
      requires Valid()
      modifies this`processed
      ensures Valid()
      ensures ok == EditorialSucceeds(r, dbFails)
      ensures processed == ProcessedAfter(old(processed), postId, text, title, post, r, dbFails)
    {
      if Editorial.Truthy(r.error) {
        return false;
      }
      if dbFails {
        return false;
      }
      var existing := if postId in processed then Some(processed[postId]) else None;
      processed := processed[postId := Upserted(existing, postId, text, title, post, r)];
      return true;
    }

    /** `save_reddit_post(post_data, check_semantic_duplicates, process_with_editorial)` */
    method SaveRedditPost(p: RedditPost, checkSemantic: bool, processEditorial: bool, env: PipelineEnv)
      returns (res: SaveResult)
      requires Valid()
      modifies this`redditPosts, this`processed
      ensures Valid()
      ensures var e := PipelineExit(old(redditPosts), p, checkSemantic, processEditorial, env);
        && res == ResultAt(e, p, processEditorial, env)
        && redditPosts == PostsAt(e, old(redditPosts), p, env)
        && processed == if EditorialRuns(e, processEditorial, env)
                        then ProcessedAfter(old(processed), p.postId, PostText(p), p.title, p, env.editorial, env.editorialDbFails)
                        else old(processed)
    {
      var text := PostText(p);
      ghost var posts0 := redditPosts;
      ghost var e := Decide(env, p.postId in redditPosts, TooShortText(text), checkSemantic, processEditorial);
      // Step 1: exact duplicate.
      if env.lookupFails {
        assert e == LookupError;
        return Outcome(false, Some(Error));
      }
      if p.postId in redditPosts {
        assert e == ExistingId;
        return SaveResult(false, Some(DuplicateId), Some(p.postId), None, false);
      }
      // Step 2: insert and commit.
      if env.insertFails {
        assert e == InsertError;
        return Outcome(false, Some(Error));
      }
      redditPosts := redditPosts[p.postId := p];
      if !checkSemantic && !processEditorial {
        assert e == BasicMode;
        return Outcome(true, None);
      }
      res := Screen(p, text, checkSemantic, processEditorial, env, posts0);
    }

    /**
     * Steps 3 to 7 of `save_reddit_post`, once the new post is committed with at
     * least one optional stage on: the health check, the length check, the
     * semantic-duplicate check, then the Qdrant link and the editorial step.
     */
    method Screen(p: RedditPost, text: string, checkSemantic: bool, processEditorial: bool, env: PipelineEnv,
                  ghost posts0: map<string, RedditPost>)
      returns (res: SaveResult)
      requires Valid() && p.postId !in posts0 && redditPosts == posts0[p.postId := p]
      requires text == PostText(p) && !env.lookupFails && !env.insertFails && (checkSemantic || processEditorial)
      modifies this`redditPosts, this`processed
      ensures Valid()
      ensures var e := Decide(env, false, TooShortText(text), checkSemantic, processEditorial);
        && res == ResultAt(e, p, processEditorial, env)
        && redditPosts == PostsAt(e, posts0, p, env)
        && processed == if EditorialRuns(e, processEditorial, env)
                        then ProcessedAfter(old(processed), p.postId, text, p.title, p, env.editorial, env.editorialDbFails)
                        else old(processed)
    {
      ghost var e := Decide(env, false, TooShortText(text), checkSemantic, processEditorial);
      // Step 3: health check.
      if !(env.qdrantOk && env.ollamaOk) {
        assert e == Unhealthy;
        return Outcome(true, Some(ServicesUnavailable));
      }
      // Step 4: text length.
      if TooShortText(text) {
        assert e == ShortText;
        return Outcome(true, Some(TooShort));
      }
      // Step 5: semantic duplicate; an exception inside the check is swallowed.
      if checkSemantic && env.semantic.Duplicate? {
        if env.deleteFails {
          assert e == DeleteError;
          return Outcome(false, Some(Error));
        }
        redditPosts := redditPosts - {p.postId};
        assert redditPosts == posts0;
        assert e == SemanticDup(env.semantic.of, env.semantic.similarity);
        return SaveResult(false, Some(DuplicateSemantic), Some(env.semantic.of), Some(env.semantic.similarity), false);
      }
      assert e == QdrantUnbound || e == Completed;
      assert posts0[p.postId := p][p.postId := Linked(p, env.qdrant)] == posts0[p.postId := Linked(p, env.qdrant)];
      res := LinkAndProcess(p, text, processEditorial, env);
    }

    /**
     * Steps 6 and 7 of `save_reddit_post`, once the new post is committed: link
     * it to its Qdrant point, run the editorial step, and answer.
     */
    method LinkAndProcess(p: RedditPost, text: string, processEditorial: bool, env: PipelineEnv)
      returns (res: SaveResult)
      requires Valid() && p.postId in redditPosts && redditPosts[p.postId] == p
      requires text == PostText(p) && env.ollamaOk
      modifies this`redditPosts, this`processed
      ensures Valid()
      ensures var e := if env.qdrant.SaveRaises? then QdrantUnbound else Completed;
        && res == ResultAt(e, p, processEditorial, env)
        && redditPosts == old(redditPosts)[p.postId := Linked(p, env.qdrant)]
        && processed == if processEditorial
                        then ProcessedAfter(old(processed), p.postId, text, p.title, p, env.editorial, env.editorialDbFails)
                        else old(processed)
    {
      // Step 6: Qdrant; a failure is logged, but an exception leaves `qdrant_id` unbound.
      var qdrantBound := !env.qdrant.SaveRaises?;
      if env.qdrant.Stored? && env.qdrant.linked {
        redditPosts := redditPosts[p.postId := Linked(p, env.qdrant)];
      } else {
        assert redditPosts == old(redditPosts)[p.postId := Linked(p, env.qdrant)];
      }
      // Step 7: editorial processing.
      var editorialProcessed := false;
      if processEditorial && env.ollamaOk {
        editorialProcessed := ProcessEditorial(p.postId, text, p.title, p, env.editorial, env.editorialDbFails);
      }
      if !qdrantBound {
        // Reading the unbound `qdrant_id` raises; the outer handler answers 'error'.
        return Outcome(false, Some(Error));
      }
      return Outcome(true, None).(editorialProcessed := editorialProcessed);
    }
  }

  // ---------------------------------------------------------------------
  // Properties of the pipeline
  // ---------------------------------------------------------------------

  /** An existing post_id: saved False, reason 'duplicate_id', duplicate_of the id, nothing written. */
  lemma DuplicateIdWritesNothing(posts: map<string, RedditPost>, p: RedditPost, cs: bool, pe: bool, env: PipelineEnv)
    requires !env.lookupFails && p.postId in posts
    ensures PipelineResult(posts, p, cs, pe, env) == SaveResult(false, Some(DuplicateId), Some(p.postId), None, false)
    ensures PostsAfter(posts, p, cs, pe, env) == posts
    ensures !EditorialRuns(PipelineExit(posts, p, cs, pe, env), pe, env)
  {
  }

  /** With both optional stages off, a new post is inserted and reported saved with no reason. */
  lemma BasicModeInserts(posts: map<string, RedditPost>, p: RedditPost, env: PipelineEnv)
    requires !env.lookupFails && !env.insertFails && p.postId !in posts
    ensures PipelineResult(posts, p, false, false, env) == SaveResult(true, None, None, None, false)
    ensures PostsAfter(posts, p, false, false, env) == posts[p.postId := p]
  {
  }

  /** Unhealthy services or a short text: the post stays stored, with the matching reason. */
  lemma EarlyStopsKeepThePost(posts: map<string, RedditPost>, p: RedditPost, cs: bool, pe: bool, env: PipelineEnv)
    requires !env.lookupFails && !env.insertFails && p.postId !in posts && (cs || pe)
    ensures !(env.qdrantOk && env.ollamaOk) ==>
      PipelineResult(posts, p, cs, pe, env) == SaveResult(true, Some(ServicesUnavailable), None, None, false)
      && PostsAfter(posts, p, cs, pe, env) == posts[p.postId := p]
    ensures env.qdrantOk && env.ollamaOk && TooShortText(PostText(p)) ==>
      PipelineResult(posts, p, cs, pe, env) == SaveResult(true, Some(TooShort), None, None, false)
      && PostsAfter(posts, p, cs, pe, env) == posts[p.postId := p]
  {
  }

  /** A semantic duplicate is inserted and deleted again: the table ends as it began. */
  lemma SemanticDuplicateRestoresTable(posts: map<string, RedditPost>, p: RedditPost, pe: bool, env: PipelineEnv)
    requires PipelineExit(posts, p, true, pe, env).SemanticDup?
    ensures PostsAfter(posts, p, true, pe, env) == posts
    ensures env.semantic.Duplicate?
    ensures PipelineResult(posts, p, true, pe, env)
      == SaveResult(false, Some(DuplicateSemantic), Some(env.semantic.of), Some(env.semantic.similarity), false)
  {
  }

  /** An exception in the semantic check behaves exactly like a "no duplicate" verdict. */
  lemma SemanticCheckErrorSwallowed(posts: map<string, RedditPost>, p: RedditPost, cs: bool, pe: bool, env: PipelineEnv)
    requires env.semantic == CheckRaises
    ensures var env' := env.(semantic := NotDuplicate);
      && PipelineExit(posts, p, cs, pe, env) == PipelineExit(posts, p, cs, pe, env')
      && PipelineResult(posts, p, cs, pe, env) == PipelineResult(posts, p, cs, pe, env')
      && PostsAfter(posts, p, cs, pe, env) == PostsAfter(posts, p, cs, pe, env')
  {
  }

  /**
   * The reason classifies the outcome: 'duplicate_id' iff the id was already
   * stored; a saved result always leaves the post in the table; a result that
   * is not saved has a reason.
   */
  lemma ReasonClassification(posts: map<string, RedditPost>, p: RedditPost, cs: bool, pe: bool, env: PipelineEnv)
    ensures var r := PipelineResult(posts, p, cs, pe, env);
      && (r.reason == Some(DuplicateId) <==> !env.lookupFails && p.postId in posts)
      && (r.saved ==> p.postId in PostsAfter(posts, p, cs, pe, env) && p.postId !in posts)
      && (!r.saved ==> r.reason.Some?)
      && (r.reason == Some(DuplicateSemantic) ==> !r.saved && cs && r.duplicateOf.Some?)
      && (r.editorialProcessed ==> r.saved && r.reason.None? && pe)
  {
  }

  /** Other posts are never touched, and only p's own id can be added. */
  lemma OtherPostsUnchanged(posts: map<string, RedditPost>, p: RedditPost, cs: bool, pe: bool, env: PipelineEnv)
    ensures var after := PostsAfter(posts, p, cs, pe, env);
      && after.Keys - {p.postId} == posts.Keys - {p.postId}
      && (forall k :: k in posts && k != p.postId ==> after[k] == posts[k])
      && (p.postId in posts ==> after == posts)
  {
  }

  // ---------------------------------------------------------------------
  // The Qdrant step as written and as intended
  // ---------------------------------------------------------------------

  /**
   * As written, an exception inside step 6 is logged and the pipeline goes on,
   * but `qdrant_id` was never assigned, so the final `if qdrant_id:` raises and
   * the call reports saved False / 'error' although the post was committed
   * and the editorial step ran.
   */
  lemma QdrantFailureReportedAsError(p: RedditPost, env: PipelineEnv)
    requires !env.lookupFails && !env.insertFails && env.qdrantOk && env.ollamaOk
    requires !TooShortText(PostText(p)) && env.semantic == NotDuplicate && env.qdrant == SaveRaises
    ensures PipelineResult(map[], p, true, true, env) == SaveResult(false, Some(Error), None, None, false)
    ensures PostsAfter(map[], p, true, true, env) == map[p.postId := p]
    ensures EditorialRuns(PipelineExit(map[], p, true, true, env), true, env)
  {
  }

  /** The result once the unbound name is fixed: a failed Qdrant save is only logged. */
  function IntendedResult(posts: map<string, RedditPost>, p: RedditPost, cs: bool, pe: bool, env: PipelineEnv): SaveResult
  {
    if PipelineExit(posts, p, cs, pe, env) == QdrantUnbound
    then Outcome(true, None).(editorialProcessed := pe && env.ollamaOk
                                                     && EditorialSucceeds(env.editorial, env.editorialDbFails))
    else PipelineResult(posts, p, cs, pe, env)
  }

  /**
   * With the fix, saved True means exactly "this call stored the post", and
   * 'error' means the table was left as it was (or, when deleting a semantic
   * duplicate failed, the post stays) and no editorial row was written.
   */
  lemma IntendedErrorKeepsNothing(posts: map<string, RedditPost>, p: RedditPost, cs: bool, pe: bool, env: PipelineEnv)
    ensures var e := PipelineExit(posts, p, cs, pe, env);
      var r := IntendedResult(posts, p, cs, pe, env);
      && (r.reason == Some(Error) ==> (PostsAfter(posts, p, cs, pe, env) == posts || e == DeleteError)
                                       && !EditorialRuns(e, pe, env))
      && (r.saved <==> p.postId !in posts && p.postId in PostsAfter(posts, p, cs, pe, env) && e != DeleteError)
  {
  }
}
