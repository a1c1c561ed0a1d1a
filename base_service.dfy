/**
 * The service layer (src/services/base_service.py): required-field
 * validation, the three insert-if-absent saves of the Reddit, processed
 * Reddit and Habr services, the article metrics, and the statistics
 * service's fallback. Repositories are modelled as maps from the natural
 * key to the stored row; rows are dictionaries of values.
 */
module BaseService {
  import opened Wrappers
  import opened PyStr

  /** A dictionary value, with Python's truthiness. */
  datatype Value = VStr(s: string) | VInt(i: int) | VBool(b: bool) | VDate(d: int) | VNone

  predicate Truthy(v: Value)
  {
    match v
    case VStr(s) => s != []
    case VInt(i) => i != 0
    case VBool(b) => b
    case VDate(_) => true
    case VNone => false
  }

  type Row = map<string, Value>

  /** `data.get(field)` is truthy. */
  predicate Present(data: Row, field: string)
  {
    field in data && Truthy(data[field])
  }

  /** `missing_fields` in `validate_data`, in the order of `required_fields`. */
  function MissingFields(data: Row, required: seq<string>): (r: seq<string>)
    ensures forall f :: f in r <==> f in required && !Present(data, f)
    ensures |r| <= |required|
  {
    if required == [] then []
    else (if Present(data, required[0]) then [] else [required[0]]) + MissingFields(data, required[1..])
  }

  /** `validate_data(data, required_fields)` */
  function ValidateData(data: Row, required: seq<string>): (ok: bool)
    ensures ok <==> forall f :: f in required ==> Present(data, f)
  {
    var missing := MissingFields(data, required);
    assert missing != [] ==> missing[0] in missing;
    missing == []
  }

  const RedditRequired: seq<string> := ["post_id", "title", "subreddit", "author", "created_utc"]
  const ProcessedRequired: seq<string> := ["post_id", "original_title", "subreddit", "author", "is_news"]
  const HabrRequired: seq<string> := ["article_id", "title", "content", "url"]

  /** Because `is_news` is a required field, a processed post that is not news never validates. */
  lemma NotNewsFailsValidation(data: Row)
    requires "is_news" in data && data["is_news"] == VBool(false)
    ensures !ValidateData(data, ProcessedRequired)
  {
    assert "is_news" in ProcessedRequired;
  }

  /** `created_utc.replace('Z', '+00:00')` */
  function UtcOffset(s: string): (r: string)
    ensures 'Z' !in r
    ensures 'Z' !in s ==> r == s
  {
    ReplaceCharBy(s, 'Z', "+00:00")
  }

  /**
   * The row stored by `save_post`: a string `created_utc` is parsed by
   * `parseIso` (`datetime.fromisoformat`) after the 'Z' suffix rewrite;
   * `None` when parsing raises.
   */
  function NormalizeCreated(post: Row, parseIso: string -> Option<int>): (r: Option<Row>)
    ensures r.Some? ==> r.value.Keys == post.Keys
    ensures r.Some? ==> forall k :: k in post && k != "created_utc" ==> r.value[k] == post[k]
    ensures ("created_utc" !in post || !post["created_utc"].VStr?) ==> r == Some(post)
  {
    if "created_utc" in post && post["created_utc"].VStr? then
      match parseIso(UtcOffset(post["created_utc"].s))
      case None => None
      case Some(d) => Some(post["created_utc" := VDate(d)])
    else Some(post)
  }

  /**
   * `_calculate_article_metrics(article_data)`: the dictionary afterwards,
   * or `None` when the computation raises (a content that is not a string,
   * a word count that is not an integer).
   */
  function ArticleMetrics(data: Row): Option<Row>
  {
    var content := if "content" in data then data["content"] else VStr("");
    var d1: Option<Row> :=
      if Truthy(content) && "word_count" !in data then
        if content.VStr? then Some(data["word_count" := VInt(|Split(content.s)|)]) else None
      else Some(data);
    match d1
    case None => None
    case Some(d) =>
      if Present(d, "word_count") && "reading_time_calculated" !in d then
        if d["word_count"].VInt? then
          var minutes := d["word_count"].i / 200;
          Some(d["reading_time_calculated" := VInt(if minutes < 1 then 1 else minutes)])
        else None
      else Some(d)
  }

  /**
   * The metrics never overwrite a key already present; a word count is
   * added only for a non-empty string content, and equals its number of
   * whitespace-separated words; the reading time is at least one minute,
   * and is `word_count // 200` minutes when that is at least one.
   */
  lemma ArticleMetricsSpec(data: Row)
    ensures var r := ArticleMetrics(data);
      r.Some? ==>
        && (forall k :: k in data ==> k in r.value && r.value[k] == data[k])
        && (forall k :: k in r.value && k !in data ==> k == "word_count" || k == "reading_time_calculated")
        && ("word_count" !in data && "content" in data && data["content"].VStr? && data["content"].s != [] ==>
              r.value["word_count"] == VInt(|Split(data["content"].s)|))
        && ("reading_time_calculated" !in data && "reading_time_calculated" in r.value ==>
              && r.value["word_count"].VInt?
              && r.value["reading_time_calculated"].VInt?
              && r.value["reading_time_calculated"].i >= 1
              && (r.value["word_count"].i >= 200 ==>
                    r.value["reading_time_calculated"].i == r.value["word_count"].i / 200))
  {
  }

  /** The three tables the services write: each is keyed by its natural key. */
  class Repositories {
    var reddit: map<Value, Row>
    var processed: map<Value, Row>
    var habr: map<Value, Row>

    constructor()
      ensures reddit == map[] && processed == map[] && habr == map[]
    {
      reddit := map[];
      processed := map[];
      habr := map[];
    }

    /**
     * `RedditService.save_post(post_data)`. `fails` says whether adding or
     * committing raises; every failure returns False and writes nothing.
     */
    method SavePost(post: Row, parseIso: string -> Option<int>, fails: bool) returns (ok: bool)
      modifies this
      ensures ok <==> ValidateData(post, RedditRequired) && post["post_id"] !in old(reddit)
                      && NormalizeCreated(post, parseIso).Some? && !fails
      ensures reddit == if ok then old(reddit)[post["post_id"] := NormalizeCreated(post, parseIso).value] else old(reddit)
      ensures processed == old(processed) && habr == old(habr)
    {
      if !ValidateData(post, RedditRequired) {
        return false;
      }
      assert "post_id" in RedditRequired;
      var key := post["post_id"];
      if key in reddit {
        return false;
      }
      var row := NormalizeCreated(post, parseIso);
      if row.None? || fails {
        return false;
      }
      reddit := reddit[key := row.value];
      return true;
    }

    /**
     * `ProcessedRedditService.save_processed_post(post_data)`; `now` is
     * the current time used when `processed_at` is absent.
     */
    method SaveProcessedPost(post: Row, now: int, fails: bool) returns (ok: bool)
      modifies this
      ensures ok <==> ValidateData(post, ProcessedRequired) && post["post_id"] !in old(processed) && !fails
      ensures ok ==> processed == old(processed)[post["post_id"] :=
                       if "processed_at" in post then post else post["processed_at" := VDate(now)]]
      ensures !ok ==> processed == old(processed)
      ensures reddit == old(reddit) && habr == old(habr)
    {
      if !ValidateData(post, ProcessedRequired) {
        return false;
      }
      assert "post_id" in ProcessedRequired;
      var key := post["post_id"];
      if key in processed {
        return false;
      }
      var row := post;
      if "processed_at" !in row {
        row := row["processed_at" := VDate(now)];
      }
      if fails {
        return false;
      }
      processed := processed[key := row];
      return true;
    }

    /** `HabrService.save_article(article_data)`, keyed by `article_id`. */
    method SaveArticle(article: Row, fails: bool) returns (ok: bool)
      modifies this
      ensures ok <==> ValidateData(article, HabrRequired) && article["article_id"] !in old(habr)
                      && ArticleMetrics(article).Some? && !fails
      ensures habr == if ok then old(habr)[article["article_id"] := ArticleMetrics(article).value] else old(habr)
      ensures reddit == old(reddit) && processed == old(processed)
    {
      if !ValidateData(article, HabrRequired) {
        return false;
      }
      assert "article_id" in HabrRequired;
      var key := article["article_id"];
      if key in habr {
        return false;
      }
      var row := ArticleMetrics(article);
      if row.None? || fails {
        return false;
      }
      habr := habr[key := row.value];
      return true;
    }
  }

  /**
   * Saving the same Reddit post twice: the second call is refused by the
   * duplicate check and returns False.
   */
  method SavePostTwice(repos: Repositories, post: Row, parseIso: string -> Option<int>)
    returns (first: bool, second: bool)
    modifies repos
    ensures !second
    ensures first ==> "post_id" in post && post["post_id"] in repos.reddit
    ensures repos.processed == old(repos.processed) && repos.habr == old(repos.habr)
  {
    first := repos.SavePost(post, parseIso, false);
    second := repos.SavePost(post, parseIso, false);
  }

  /** A share as a count pair; a zero denominator stands for the rate 0. */
  datatype Ratio = Ratio(num: nat, den: nat)

  /** `StatisticsDTO` */
  datatype Statistics = Statistics(redditPosts: nat, redditProcessed: nat, redditNews: nat,
                                   habrArticles: nat, habrNews: nat, habrProcessed: nat,
                                   telegramMessages: nat, mediumArticles: nat,
                                   processingRate: Ratio, newsRate: Ratio)

  /** The counts the repositories report, when the queries succeed. */
  datatype Counts = Counts(reddit: nat, processed: nat, news: nat, habr: nat, habrNews: nat, habrProcessed: nat)

  /** `(part / whole * 100) if whole > 0 else 0`, as a count pair scaled by 100. */
  function Percent(part: nat, whole: nat): (r: Ratio)
    ensures whole == 0 ==> r.num == 0
    ensures whole > 0 ==> r.den == whole && r.num == 100 * part
  {
    if whole > 0 then Ratio(100 * part, whole) else Ratio(0, 0)
  }

  /**
   * `StatisticsService.get_overall_statistics()`; `counts` is `None` when
   * any query raises.
   */
  function OverallStatistics(counts: Option<Counts>): (r: Statistics)
    ensures counts.None? ==> r == Statistics(0, 0, 0, 0, 0, 0, 0, 0, Ratio(0, 0), Ratio(0, 0))
    ensures counts.Some? ==>
      && r.redditPosts == counts.value.reddit && r.redditProcessed == counts.value.processed
      && r.redditNews == counts.value.news && r.habrArticles == counts.value.habr
      && r.habrNews == counts.value.habrNews && r.habrProcessed == counts.value.habrProcessed
      && r.telegramMessages == 0 && r.mediumArticles == 0
      && r.processingRate == Percent(counts.value.processed, counts.value.reddit)
      && r.newsRate == Percent(counts.value.news, counts.value.processed)
      && (counts.value.reddit == 0 ==> r.processingRate.num == 0)
      && (counts.value.processed == 0 ==> r.newsRate.num == 0)
  {
    match counts
    case None => Statistics(0, 0, 0, 0, 0, 0, 0, 0, Ratio(0, 0), Ratio(0, 0))
    case Some(c) =>
      Statistics(c.reddit, c.processed, c.news, c.habr, c.habrNews, c.habrProcessed, 0, 0,
                 Percent(c.processed, c.reddit), Percent(c.news, c.processed))
  }
}
