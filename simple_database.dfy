/**
 * `src/database.py`: the plain insert-if-absent store used by the first
 * versions of the scrapers. Each save looks the natural key up, inserts one
 * row and commits; any exception is rolled back and reported as `False`.
 *
 * The database exception is an input flag `fails`: when it is set, the
 * statement that raises may be the lookup or the commit, and in both cases
 * the rollback leaves the table as it was.
 */
module SimpleDatabase {
  import opened Wrappers
  import opened Tables

  /** The dict `get_stats` returns. */
  datatype Stats = Stats(
    redditPosts: nat,
    telegramMessages: nat,
    mediumArticles: nat,
    latestReddit: Option<int>,
    latestTelegram: Option<int>,
    latestMedium: Option<int>)

  function RedditScrapedAt(p: RedditPost): int { p.scrapedAt }
  function TelegramScrapedAt(m: TelegramMessage): int { m.scrapedAt }
  function MediumScrapedAt(a: MediumArticle): int { a.scrapedAt }

  function ScrapedTimes<T>(rows: seq<T>, at: T -> int): (r: seq<int>)
    ensures |r| == |rows| && forall i :: 0 <= i < |rows| ==> r[i] == at(rows[i])
  {
    if rows == [] then [] else [at(rows[0])] + ScrapedTimes(rows[1..], at)
  }

  /** No two rows share a natural key (the UNIQUE constraints and the pre-insert lookups). */
  ghost predicate UniquePostIds(rows: seq<RedditPost>)
  {
    forall i, j :: 0 <= i < j < |rows| ==> rows[i].postId != rows[j].postId
  }

  ghost predicate UniqueMessages(rows: seq<TelegramMessage>)
  {
    forall i, j :: 0 <= i < j < |rows| ==>
      (rows[i].messageId, rows[i].channelUsername) != (rows[j].messageId, rows[j].channelUsername)
  }

  ghost predicate UniqueUrls(rows: seq<MediumArticle>)
  {
    forall i, j :: 0 <= i < j < |rows| ==> rows[i].url != rows[j].url
  }

  class Database {
    var redditPosts: seq<RedditPost>
    var telegramMessages: seq<TelegramMessage>
    var mediumArticles: seq<MediumArticle>

    ghost predicate Valid()
      reads this
    {
      UniquePostIds(redditPosts) && UniqueMessages(telegramMessages) && UniqueUrls(mediumArticles)
    }

    constructor ()
      ensures Valid()
      ensures redditPosts == [] && telegramMessages == [] && mediumArticles == []
    {
      redditPosts, telegramMessages, mediumArticles := [], [], [];
    }

    /** `save_reddit_post(post_data)` */
    method SaveRedditPost(post: RedditPost, fails: bool) returns (saved: bool)
      requires Valid()
      modifies this`redditPosts
      ensures Valid()
      ensures saved <==> !HasPostId(old(redditPosts), post.postId) && !fails
      ensures redditPosts == if saved then old(redditPosts) + [post] else old(redditPosts)
    {
      var existing := HasPostId(redditPosts, post.postId);
      if existing || fails {
        return false;
      }
      redditPosts := redditPosts + [post];
      return true;
    }

    /** `save_telegram_message(msg_data)`: the key is the pair (message_id, channel_username). */
    method SaveTelegramMessage(msg: TelegramMessage, fails: bool) returns (saved: bool)
      requires Valid()
      modifies this`telegramMessages
      ensures Valid()
      ensures saved <==> !HasMessage(old(telegramMessages), msg.messageId, msg.channelUsername) && !fails
      ensures telegramMessages == if saved then old(telegramMessages) + [msg] else old(telegramMessages)
    {
      var existing := HasMessage(telegramMessages, msg.messageId, msg.channelUsername);
      if existing || fails {
        return false;
      }
      telegramMessages := telegramMessages + [msg];
      return true;
    }

    /** `save_medium_article(article_data)`: keyed on url; a list of tags is stored as its JSON text. */
    method SaveMediumArticle(a: MediumInput, fails: bool) returns (saved: bool)
      requires Valid()
      modifies this`mediumArticles
      ensures Valid()
      ensures saved <==> !HasUrl(old(mediumArticles), a.url) && !fails
      ensures mediumArticles == if saved then old(mediumArticles) + [ToMediumRow(a)] else old(mediumArticles)
    {
      var existing := HasUrl(mediumArticles, a.url);
      if existing || fails {
        return false;
      }
      mediumArticles := mediumArticles + [ToMediumRow(a)];
      return true;
    }

    /**
     * `get_stats()`: row counts and latest `scraped_at` per table. The two
     * Medium queries are each guarded by a bare `except`, so when they fail
     * the count is 0 and the latest time is `None`; the other entries are unaffected.
     */
    method GetStats(mediumCountFails: bool, mediumLatestFails: bool) returns (s: Stats)
      ensures s.redditPosts == |redditPosts| && s.telegramMessages == |telegramMessages|
      ensures s.mediumArticles == if mediumCountFails then 0 else |mediumArticles|
      ensures s.latestReddit == Latest(ScrapedTimes(redditPosts, RedditScrapedAt))
      ensures s.latestTelegram == Latest(ScrapedTimes(telegramMessages, TelegramScrapedAt))
      ensures mediumLatestFails ==> s.latestMedium == None
      ensures !mediumLatestFails ==> (s.latestMedium.None? <==> mediumArticles == [])
      ensures !mediumLatestFails && s.latestMedium.Some? ==>
        exists i | 0 <= i < |mediumArticles| :: mediumArticles[i].scrapedAt == s.latestMedium.value
          && forall j | 0 <= j < |mediumArticles| :: mediumArticles[j].scrapedAt <= s.latestMedium.value
    {
      var mediumCount := if mediumCountFails then 0 else |mediumArticles|;
      var latestMedium: Option<int> := None;
      if !mediumLatestFails {
        var times := ScrapedTimes(mediumArticles, MediumScrapedAt);
        latestMedium := Latest(times);
        if latestMedium.Some? {
          var i :| 0 <= i < |times| && times[i] == latestMedium.value;
          assert mediumArticles[i].scrapedAt == latestMedium.value;
          forall j | 0 <= j < |mediumArticles| ensures mediumArticles[j].scrapedAt <= latestMedium.value {
            assert times[j] in times;
          }
        }
      }
      s := Stats(|redditPosts|, |telegramMessages|, mediumCount,
        Latest(ScrapedTimes(redditPosts, RedditScrapedAt)),
        Latest(ScrapedTimes(telegramMessages, TelegramScrapedAt)),
        latestMedium);
    }

    /** `get_posts_by_subreddit(subreddit, limit)` */
    function PostsBySubreddit(subreddit: string, limit: nat): (r: seq<RedditPost>)
      reads this
      ensures |r| <= limit
      ensures forall i :: 0 <= i < |r| ==> r[i] in redditPosts && r[i].subreddit == subreddit
      ensures forall i, j :: 0 <= i < j < |r| ==> r[i].createdUtc >= r[j].createdUtc
    {
      PostsBySubredditQueryCorrect(redditPosts, subreddit, limit);
      PostsBySubredditQuery(redditPosts, subreddit, limit)
    }

    /** `get_medium_articles(limit, author, tag)`; an empty author or tag means no filter. */
    function MediumArticles(limit: nat, author: string, tag: string): (r: seq<MediumArticle>)
      reads this
      ensures |r| <= limit
      ensures forall i :: 0 <= i < |r| ==> r[i] in mediumArticles && MediumMatches(r[i], author, tag)
      ensures forall i, j :: 0 <= i < j < |r| ==> r[i].publishedDate >= r[j].publishedDate
    {
      MediumArticlesQueryCorrect(mediumArticles, limit, author, tag);
      MediumArticlesQuery(mediumArticles, limit, author, tag)
    }
  }

  /**
   * Saving the same post twice: the first call on a fresh id inserts one row,
   * the second call returns False and adds nothing.
   */
  method SaveRedditPostIdempotent(db: Database, post: RedditPost) returns (first: bool, second: bool)
    requires db.Valid() && !HasPostId(db.redditPosts, post.postId)
    modifies db
    ensures first && !second
    ensures db.Valid()
    ensures |db.redditPosts| == |old(db.redditPosts)| + 1
  {
    first := db.SaveRedditPost(post, false);
    assert db.redditPosts[|db.redditPosts| - 1].postId == post.postId;
    second := db.SaveRedditPost(post, false);
  }

  /** The same message id in two channels is two rows. */
  method SameMessageIdOtherChannel(db: Database, m: TelegramMessage, otherChannel: string)
    requires db.Valid() && db.telegramMessages == [] && otherChannel != m.channelUsername
    modifies db
    ensures db.Valid() && |db.telegramMessages| == 2
  {
    var a := db.SaveTelegramMessage(m, false);
    var b := db.SaveTelegramMessage(m.(channelUsername := otherChannel), false);
    assert a && b;
  }
}
