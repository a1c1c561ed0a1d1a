/**
 * The Habr spider (src/scrapers/habr_scraper.py). Scrapy calls the
 * spider's callbacks one response at a time; each callback updates the
 * spider's fields (`stats_dict`, `collected`, `html_failed_hubs`) and
 * returns the requests it yields. Responses, CSS selections, `urljoin`,
 * the duplicate checker, the editorial service and the article save are
 * oracles.
 */
module HabrScraper {
  import opened Wrappers
  import opened PyStr
  import Editorial

  // ---------------------------------------------------------------------
  // Requests and statistics
  // ---------------------------------------------------------------------

  /** Which hub listing a list request asks for: `/hub/` or the `/hubs/` fallback. */
  datatype Path = HubPath | HubsPath

  /**
   * The RSS metadata carried in an article request's meta. `description`
   * is `None` when the item's `<description>` element has no text.
   */
  datatype RssMeta = RssMeta(title: string, description: Option<string>, author: Option<string>, pubDate: int)

  datatype Request =
    | ListRequest(url: string, hub: string, path: Path)
    | RssRequest(url: string, hub: string)
    | ArticleRequest(url: string, retry: nat, rss: Option<RssMeta>)

  /**
   * `stats_dict`. `editorialProcessed` is `None` while the dictionary has no
   * 'editorial_processed' key, as in the spider's own default dictionary.
   */
  datatype Stats = Stats(saved: nat, skipped: nat, semanticDuplicates: nat, errors: nat, blocked: nat,
                         rssUsed: nat, editorialProcessed: Option<nat>)

  /** The spider's mutable fields. */
  datatype State = State(stats: Stats, collected: nat, failedHubs: seq<string>)

  /** The spider's settings. `dedup` is true when deduplication is enabled and its service started. */
  datatype Config = Config(maxArticles: int, hubs: seq<string>, enableLlm: bool, dedup: bool, useRssFallback: bool)

  datatype StepOut = StepOut(state: State, requests: seq<Request>)

  const RelevantHubs: seq<string> := [
    "artificial_intelligence", "machine_learning", "neural_networks",
    "deep_learning", "data_mining", "natural_language_processing",
    "computer_vision", "python", "programming", "backend",
    "devops", "docker", "kubernetes", "cloud_services"
  ]

  const DefaultStats: Stats := Stats(0, 0, 0, 0, 0, 0, None)

  function HubUrl(hub: string): string { "https://habr.com/ru/hub/" + hub + "/articles/" }
  function HubsUrl(hub: string): string { "https://habr.com/ru/hubs/" + hub + "/articles/" }
  function RssUrl(hub: string): string { "https://habr.com/ru/rss/hub/" + hub + "/articles/" }

  /** `start_requests`: one `/hub/` listing per hub, in order. */
  function StartRequests(c: Config): (r: seq<Request>)
    ensures |r| == |c.hubs|
    ensures forall i :: 0 <= i < |r| ==> r[i] == ListRequest(HubUrl(c.hubs[i]), c.hubs[i], HubPath)
  {
    seq(|c.hubs|, i requires 0 <= i < |c.hubs| => ListRequest(HubUrl(c.hubs[i]), c.hubs[i], HubPath))
  }

  // ---------------------------------------------------------------------
  // Link filter of parse_list
  // ---------------------------------------------------------------------

  predicate IsDigit(c: char) { '0' <= c <= '9' }

  /** A match of `/(?:articles|post)/\d+` starting at index `i`. */
  predicate IdAt(s: string, i: int)
  {
    || (OccursAt(s, "/articles/", i) && i + 10 < |s| && IsDigit(s[i + 10]))
    || (OccursAt(s, "/post/", i) && i + 6 < |s| && IsDigit(s[i + 6]))
  }

  /** `re.search(r'/(?:articles|post)/\d+', s)` succeeds. */
  predicate HasArticleId(s: string)
  {
    exists i | 0 <= i < |s| :: IdAt(s, i)
  }

  /** A company's article listing rather than an article. */
  predicate CompanyListing(s: string)
  {
    Contains(s, "/companies/") && EndsWith(s, "/articles/")
  }

  /** The body of the `for link in links` filter: the joined URL kept for `link`, if any. */
  function KeepLink(link: string, join: string -> string): Option<string>
  {
    if !Contains(link, "/articles/") && !Contains(link, "/post/") then None
    else if Contains(link, "/comments/") then None
    else
      var l := BeforeFirst(link, '#');
      if CompanyListing(l) then None
      else if !HasArticleId(l) then None
      else Some(join(l))
  }

  /**
   * A kept link is an article or post link with a numeric id, without a
   * comments part or a fragment, and is not a company listing; every such
   * link is kept.
   */
  lemma KeepLinkSpec(link: string, join: string -> string)
    ensures KeepLink(link, join).Some? <==>
      && (Contains(link, "/articles/") || Contains(link, "/post/"))
      && !Contains(link, "/comments/")
      && !CompanyListing(BeforeFirst(link, '#'))
      && HasArticleId(BeforeFirst(link, '#'))
    ensures KeepLink(link, join).Some? ==>
      var l := BeforeFirst(link, '#');
      && KeepLink(link, join).value == join(l)
      && '#' !in l
      && !Contains(l, "/comments/")
  {
    if KeepLink(link, join).Some? {
      PrefixNotContains(link, BeforeFirst(link, '#'), "/comments/");
    }
  }

  /** The values `keep` gives for the elements of `xs`, in order, dropping those it refuses. */
  function FilterMap(xs: seq<string>, keep: string -> Option<string>): seq<string>
    decreases |xs|
  {
    if xs == [] then []
    else
      var rest := FilterMap(xs[..|xs| - 1], keep);
      match keep(xs[|xs| - 1])
      case Some(u) => rest + [u]
      case None => rest
  }

  /** The filtered list holds exactly the URLs given for some element, and is no longer than `xs`. */
  lemma {:induction false} FilterMapSpec(xs: seq<string>, keep: string -> Option<string>)
    ensures forall u :: u in FilterMap(xs, keep) <==> exists k | 0 <= k < |xs| :: keep(xs[k]) == Some(u)
    ensures |FilterMap(xs, keep)| <= |xs|
    decreases |xs|
  {
    if xs != [] {
      var init := xs[..|xs| - 1];
      FilterMapSpec(init, keep);
      forall u | u in FilterMap(xs, keep)
        ensures exists k | 0 <= k < |xs| :: keep(xs[k]) == Some(u)
      {
        if u in FilterMap(init, keep) {
          var k :| 0 <= k < |init| && keep(init[k]) == Some(u);
          assert xs[k] == init[k];
        } else {
          assert keep(xs[|xs| - 1]) == Some(u);
        }
      }
      forall u | exists k | 0 <= k < |xs| :: keep(xs[k]) == Some(u)
        ensures u in FilterMap(xs, keep)
      {
        var k :| 0 <= k < |xs| && keep(xs[k]) == Some(u);
        if k < |init| {
          assert init[k] == xs[k];
        }
      }
    }
  }

  /** The link filter as a function of the link. */
  function Keeper(join: string -> string): string -> Option<string>
  {
    link => KeepLink(link, join)
  }

  /** `article_links` after the filter loop, before deduplication. */
  function FilterLinks(links: seq<string>, join: string -> string): seq<string>
  {
    FilterMap(links, Keeper(join))
  }

  /** The filtered list holds exactly the URLs kept for some link. */
  lemma FilterLinksSpec(links: seq<string>, join: string -> string)
    ensures forall u :: u in FilterLinks(links, join) <==>
              exists k | 0 <= k < |links| :: KeepLink(links[k], join) == Some(u)
    ensures |FilterLinks(links, join)| <= |links|
  {
    FilterMapSpec(links, Keeper(join));
    assert forall k | 0 <= k < |links| :: Keeper(join)(links[k]) == KeepLink(links[k], join);
  }

  /** The `for link in links` loop of `parse_list`. */
  method FilterArticleLinks(links: seq<string>, join: string -> string) returns (kept: seq<string>)
    ensures kept == FilterLinks(links, join)
  {
    kept := [];
    var i := 0;
    while i < |links|
      invariant 0 <= i <= |links|
      invariant kept == FilterLinks(links[..i], join)
    {
      assert links[..i + 1][..i] == links[..i];
      var link := links[i];
      if !Contains(link, "/articles/") && !Contains(link, "/post/") {
      } else if Contains(link, "/comments/") {
      } else {
        if '#' in link {
          link := link[..Find(link, '#')];
        }
        if CompanyListing(link) {
        } else if !HasArticleId(link) {
        } else {
          kept := kept + [join(link)];
        }
      }
      i := i + 1;
    }
    assert links[..|links|] == links;
  }

  /** One article request per URL, with no retries yet and no RSS metadata. */
  function ArticleRequests(urls: seq<string>): (r: seq<Request>)
    ensures |r| == |urls|
    ensures forall i :: 0 <= i < |r| ==> r[i] == ArticleRequest(urls[i], 0, None)
  {
    seq(|urls|, i requires 0 <= i < |urls| => ArticleRequest(urls[i], 0, None))
  }

  /** The `for link in article_links` loop of `parse_list`: one request per URL, in order. */
  method RequestArticles(urls: seq<string>) returns (requests: seq<Request>)
    ensures requests == ArticleRequests(urls)
  {
    requests := [];
    var i := 0;
    while i < |urls|
      invariant 0 <= i <= |urls|
      invariant requests == ArticleRequests(urls[..i])
    {
      requests := requests + [ArticleRequest(urls[i], 0, None)];
      i := i + 1;
    }
    assert urls[..|urls|] == urls;
  }

  /** The article URLs `parse_list` requests. */
  function ListedArticles(c: Config, s: State, links: seq<string>, join: string -> string): seq<string>
  {
    Take(Dedupe(FilterLinks(links, join)), c.maxArticles - s.collected)
  }

  /**
   * `parse_list(response)` for a listing of `hub` reached by `path`, with
   * the response status, the links the selectors found and the next-page
   * link.
   */
  function ListStep(c: Config, s: State, hub: string, path: Path, status: int, links: seq<string>,
                    nextPage: Option<string>, join: string -> string): StepOut
  {
    if s.collected as int >= c.maxArticles then StepOut(s, [])
    else if status == 404 && path == HubPath then StepOut(s, [ListRequest(HubsUrl(hub), hub, HubsPath)])
    else
      var found := ListedArticles(c, s, links, join);
      if found == [] then
        if c.useRssFallback && hub !in s.failedHubs
        then StepOut(s.(failedHubs := s.failedHubs + [hub]), [RssRequest(RssUrl(hub), hub)])
        else StepOut(s, [])
      else
        StepOut(s, ArticleRequests(found)
                   + (if nextPage.Some? && nextPage.value != [] then [ListRequest(join(nextPage.value), hub, path)] else []))
  }

  /**
   * `parse_list` requests distinct article URLs, each kept by the link
   * filter, and no more than the articles still to collect; it changes
   * neither the statistics nor `collected`.
   */
  lemma ListStepArticles(c: Config, s: State, hub: string, path: Path, status: int, links: seq<string>,
                         nextPage: Option<string>, join: string -> string)
    ensures var o := ListStep(c, s, hub, path, status, links, nextPage, join);
      && o.state.stats == s.stats && o.state.collected == s.collected
      && (forall i :: 0 <= i < |o.requests| && o.requests[i].ArticleRequest? ==>
            && o.requests[i].retry == 0 && o.requests[i].rss.None?
            && i < c.maxArticles - s.collected
            && exists k | 0 <= k < |links| :: KeepLink(links[k], join) == Some(o.requests[i].url))
      && (forall i, j :: 0 <= i < j < |o.requests| && o.requests[i].ArticleRequest? && o.requests[j].ArticleRequest? ==>
            o.requests[i].url != o.requests[j].url)
  {
    var o := ListStep(c, s, hub, path, status, links, nextPage, join);
    if s.collected as int < c.maxArticles && !(status == 404 && path == HubPath) {
      var d := Dedupe(FilterLinks(links, join));
      var found := ListedArticles(c, s, links, join);
      DedupeSpec(FilterLinks(links, join));
      FilterLinksSpec(links, join);
      TakeNonNegative(d, c.maxArticles - s.collected);
      if found != [] {
        var tail := if nextPage.Some? && nextPage.value != [] then [ListRequest(join(nextPage.value), hub, path)] else [];
        assert o.requests == ArticleRequests(found) + tail;
        forall i | 0 <= i < |o.requests| && o.requests[i].ArticleRequest?
          ensures i < |found| && o.requests[i].url == found[i] && found[i] in d
        {
          assert found[i] == d[i];
        }
      }
    }
  }

  /**
   * A 404 on `/hub/` is retried once on `/hubs/`; a listing reached via
   * `/hubs/` only ever requests its own next page on `/hubs/`.
   */
  lemma HubsFallbackOnce(c: Config, s: State, hub: string, path: Path, status: int, links: seq<string>,
                         nextPage: Option<string>, join: string -> string)
    ensures var o := ListStep(c, s, hub, path, status, links, nextPage, join);
      && (s.collected as int < c.maxArticles && status == 404 && path == HubPath ==>
            o == StepOut(s, [ListRequest(HubsUrl(hub), hub, HubsPath)]))
      && (path == HubsPath ==>
            forall i :: 0 <= i < |o.requests| && o.requests[i].ListRequest? ==>
              && o.requests[i].path == HubsPath
              && nextPage.Some? && o.requests[i].url == join(nextPage.value))
  {
  }

  /**
   * The RSS feed of a hub is requested only when the hub is not yet in
   * `html_failed_hubs`, and the request records it there, so a hub's feed
   * is requested at most once; the list of failed hubs only grows.
   */
  lemma RssAtMostOncePerHub(c: Config, s: State, hub: string, path: Path, status: int, links: seq<string>,
                            nextPage: Option<string>, join: string -> string)
    ensures var o := ListStep(c, s, hub, path, status, links, nextPage, join);
      && s.failedHubs <= o.state.failedHubs
      && ((exists i | 0 <= i < |o.requests| :: o.requests[i].RssRequest?) <==>
            o.state.failedHubs == s.failedHubs + [hub] && hub !in s.failedHubs)
      && (hub in s.failedHubs ==> forall i :: 0 <= i < |o.requests| ==> !o.requests[i].RssRequest?)
  {
    var o := ListStep(c, s, hub, path, status, links, nextPage, join);
    if o.state.failedHubs == s.failedHubs + [hub] && hub !in s.failedHubs {
      assert o.requests[0].RssRequest?;
    }
  }

  // ---------------------------------------------------------------------
  // parse_rss
  // ---------------------------------------------------------------------

  /**
   * A child element of an `<item>`: absent (`item.find(...)` is `None`),
   * present without text (ElementTree's `.text` is `None`, as for
   * `<title/>`), or present with its text.
   */
  datatype Elem = Absent | NoText | Text(text: string)

  /** `item.find(tag).text if item.find(tag) is not None else None` */
  function TextOf(e: Elem): Option<string>
  {
    if e.Text? then Some(e.text) else None
  }

  /** An `<item>` of the feed. */
  datatype RssItem = RssItem(title: Elem, link: Elem, description: Elem, pubDate: Elem, author: Elem)

  /** `if not link: continue` lets the item through. */
  predicate HasLink(item: RssItem)
  {
    item.link.Text? && item.link.text != []
  }

  /**
   * A linked item whose `<title>` has no text: `title` is `None`, and
   * `title[:50]` in the progress message raises `TypeError`, which the
   * handler around the whole loop catches, so the feed ends there.
   */
  predicate EndsFeed(item: RssItem)
  {
    HasLink(item) && item.title.NoText?
  }

  /**
   * The metadata attached to an RSS article request. A missing title is
   * "Без заголовка" and a missing description ""; a description without
   * text stays `None`; a missing, empty or unparsable date becomes `now`.
   */
  function MetaOf(item: RssItem, parseDate: string -> Option<int>, now: int): RssMeta
    requires !item.title.NoText?
  {
    var date := if item.pubDate.Text? && item.pubDate.text != [] && parseDate(item.pubDate.text).Some?
                then parseDate(item.pubDate.text).value else now;
    RssMeta(if item.title.Text? then item.title.text else "Без заголовка",
            if item.description.Absent? then Some("") else TextOf(item.description),
            TextOf(item.author), date)
  }

  /** The article request yielded for a linked item. */
  function RssRequestOf(item: RssItem, parseDate: string -> Option<int>, now: int): Request
    requires HasLink(item) && !EndsFeed(item)
  {
    ArticleRequest(item.link.text, 0, Some(MetaOf(item, parseDate, now)))
  }

  /**
   * The requests yielded for `items`, in order: an item without a link is
   * skipped, and the first linked item with a text-less title ends the feed.
   */
  function RssRequests(items: seq<RssItem>, parseDate: string -> Option<int>, now: int): seq<Request>
    decreases |items|
  {
    if items == [] then []
    else if !HasLink(items[0]) then RssRequests(items[1..], parseDate, now)
    else if EndsFeed(items[0]) then []
    else [RssRequestOf(items[0], parseDate, now)] + RssRequests(items[1..], parseDate, now)
  }

  /** The linked items of a feed, in order. */
  function Linked(items: seq<RssItem>): (r: seq<RssItem>)
    ensures |r| <= |items|
    ensures forall i :: 0 <= i < |r| ==> HasLink(r[i]) && r[i] in items
  {
    if items == [] then []
    else if HasLink(items[0]) then [items[0]] + Linked(items[1..])
    else Linked(items[1..])
  }

  /**
   * `parse_rss(response)`; `items` is `None` when the feed is not
   * well-formed XML. `rss_used` grows by one per request yielded.
   */
  function RssStep(c: Config, s: State, items: Option<seq<RssItem>>, parseDate: string -> Option<int>, now: int): StepOut
  {
    if s.collected as int >= c.maxArticles || items.None? then StepOut(s, [])
    else
      var reqs := RssRequests(Take(items.value, c.maxArticles - s.collected), parseDate, now);
      StepOut(s.(stats := s.stats.(rssUsed := s.stats.rssUsed + |reqs|)), reqs)
  }

  /**
   * At most one request per item, each a first attempt at an article
   * carrying the item's metadata. While no linked item has a text-less
   * title, there is exactly one request per linked item, for its link and
   * in feed order; otherwise the requests are those of the items before
   * the first such item.
   */
  lemma {:induction false} RssRequestsShape(items: seq<RssItem>, parseDate: string -> Option<int>, now: int)
    ensures var r := RssRequests(items, parseDate, now);
      && |r| <= |items|
      && (forall i :: 0 <= i < |r| ==> r[i].ArticleRequest? && r[i].retry == 0 && r[i].rss.Some?)
      && ((forall i :: 0 <= i < |items| ==> !EndsFeed(items[i])) ==>
            && |r| == |Linked(items)|
            && forall i :: 0 <= i < |r| ==> r[i] == RssRequestOf(Linked(items)[i], parseDate, now))
      && (forall k :: 0 <= k < |items| && EndsFeed(items[k]) && (forall j :: 0 <= j < k ==> !EndsFeed(items[j])) ==>
            r == RssRequests(items[..k], parseDate, now))
    decreases |items|
  {
    if items != [] {
      var tail := items[1..];
      RssRequestsShape(tail, parseDate, now);
      forall k | 0 <= k < |items| && EndsFeed(items[k]) && (forall j :: 0 <= j < k ==> !EndsFeed(items[j]))
        ensures RssRequests(items, parseDate, now) == RssRequests(items[..k], parseDate, now)
      {
        RssRequestsEndAt(items, k, parseDate, now);
      }
      if forall i :: 0 <= i < |items| ==> !EndsFeed(items[i]) {
        assert forall i :: 0 <= i < |tail| ==> !EndsFeed(tail[i]) by {
          forall i | 0 <= i < |tail| ensures !EndsFeed(tail[i]) { assert tail[i] == items[i + 1]; }
        }
      }
    }
  }

  /** Items after the first linked item with a text-less title contribute no request. */
  lemma {:induction false} RssRequestsEndAt(items: seq<RssItem>, k: nat, parseDate: string -> Option<int>, now: int)
    requires k < |items| && EndsFeed(items[k])
    requires forall j :: 0 <= j < k ==> !EndsFeed(items[j])
    ensures RssRequests(items, parseDate, now) == RssRequests(items[..k], parseDate, now)
    decreases k
  {
    if k > 0 {
      var tail := items[1..];
      assert items[..k][1..] == tail[..k - 1];
      assert tail[k - 1] == items[k];
      forall j | 0 <= j < k - 1 ensures !EndsFeed(tail[j]) { assert tail[j] == items[j + 1]; }
      RssRequestsEndAt(tail, k - 1, parseDate, now);
    }
  }

  /** A feed whose second linked item has an empty `<title/>` yields one request, not three. */
  lemma EmptyTitleEndsFeed(parseDate: string -> Option<int>, now: int)
    ensures var items := [RssItem(Text("A"), Text("https://habr.com/ru/articles/1/"), Absent, Absent, Absent),
                          RssItem(NoText, Text("https://habr.com/ru/articles/2/"), Absent, Absent, Absent),
                          RssItem(Text("C"), Text("https://habr.com/ru/articles/3/"), Absent, Absent, Absent)];
      && |Linked(items)| == 3
      && RssRequests(items, parseDate, now)
         == [ArticleRequest("https://habr.com/ru/articles/1/", 0, Some(RssMeta("A", Some(""), None, now)))]
  {
  }

  /** No more requests than items. */
  lemma RssRequestsAtMost(items: seq<RssItem>, parseDate: string -> Option<int>, now: int)
    ensures |RssRequests(items, parseDate, now)| <= |items|
  {
    RssRequestsShape(items, parseDate, now);
  }

  /** The RSS feed yields at most the articles still to collect, and counts each request. */
  lemma RssStepBounded(c: Config, s: State, items: Option<seq<RssItem>>, parseDate: string -> Option<int>, now: int)
    ensures var o := RssStep(c, s, items, parseDate, now);
      && o.state.collected == s.collected && o.state.failedHubs == s.failedHubs
      && o.state.stats.rssUsed == s.stats.rssUsed + |o.requests|
      && (o.requests != [] ==> |o.requests| <= c.maxArticles - s.collected)
  {
    if s.collected as int < c.maxArticles && items.Some? {
      TakeNonNegative(items.value, c.maxArticles - s.collected);
      RssRequestsAtMost(Take(items.value, c.maxArticles - s.collected), parseDate, now);
    }
  }

  // ---------------------------------------------------------------------
  // parse_article and save_from_rss_metadata
  // ---------------------------------------------------------------------

  /** `blocked(response)`: a page shorter than 10000 characters is taken for a block page. */
  predicate Blocked(pageText: string)
  {
    |pageText| < 10000
  }

  const MaxBlockedRetries: nat := 3

  /** An article page: its full text and the content `extract_content` takes from it. */
  datatype Page = Page(text: string, content: string)

  datatype DedupVerdict = Unique | Duplicate | DedupRaises

  /** The editorial call: its result, an `ImportError`, or any other exception. */
  datatype LlmOutcome = Verdict(result: Editorial.EditorialResult) | Unavailable | LlmRaises

  /** `save_habr_article` returns a truthy or falsy value, or raises. */
  datatype SaveOutcome = SaveTrue | SaveFalse | SaveRaises

  datatype ArticleEnv = ArticleEnv(dedup: DedupVerdict, llm: LlmOutcome, save: SaveOutcome)

  /** A truthy `result.get('error')`. */
  predicate HasError(r: Editorial.EditorialResult)
  {
    r.error.Some? && r.error.value != []
  }

  function WithErrors(s: State): State { s.(stats := s.stats.(errors := s.stats.errors + 1)) }
  function WithSkipped(s: State): State { s.(stats := s.stats.(skipped := s.stats.skipped + 1)) }

  /** `save_from_rss_metadata(response)` */
  function RssMetadataStep(c: Config, s: State, env: ArticleEnv): State
  {
    var llmStage: Option<State> :=
      if !c.enableLlm then Some(s)
      else
        match env.llm
        case Unavailable => None
        case LlmRaises => None
        case Verdict(r) =>
          if HasError(r) || !r.isNews then None
          else if s.stats.editorialProcessed.None? then None
          else Some(s.(stats := s.stats.(editorialProcessed := Some(s.stats.editorialProcessed.value + 1))));
    if llmStage.None? then
      if c.enableLlm && env.llm.Verdict? && !HasError(env.llm.result) && !env.llm.result.isNews
      then WithSkipped(s) else WithErrors(s)
    else
      var s1 := llmStage.value;
      match env.save
      case SaveTrue =>
        State(s1.stats.(saved := s1.stats.saved + 1, rssUsed := s1.stats.rssUsed + 1), s1.collected + 1, s1.failedHubs)
      case SaveFalse => s1
      case SaveRaises => WithErrors(s1)
  }

  /**
   * The text used as content: the RSS description replaces a missing or
   * short page content; `None` when that description had no text.
   */
  function ContentOf(page: Page, rss: Option<RssMeta>): Option<string>
  {
    if |page.content| < 150 && rss.Some? then rss.value.description else Some(page.content)
  }

  /** The editorial stage of `parse_article`: `None` when the article is dropped as not news. */
  function ArticleLlmStage(c: Config, s: State, llm: LlmOutcome): Option<State>
  {
    if !c.enableLlm then Some(s)
    else
      match llm
      case Unavailable => Some(s)
      case LlmRaises => Some(WithErrors(s))
      case Verdict(r) =>
        if HasError(r) then Some(WithErrors(s))
        else if !r.isNews then None
        else
          var n := if s.stats.editorialProcessed.Some? then s.stats.editorialProcessed.value else 0;
          Some(s.(stats := s.stats.(editorialProcessed := Some(n + 1))))
  }

  /** The content passed the length check. */
  predicate LongContent(page: Page, rss: Option<RssMeta>)
  {
    ContentOf(page, rss).Some? && |ContentOf(page, rss).value| >= 100
  }

  /** `parse_article(response)` for a request and the page it got. */
  function ArticleStep(c: Config, s: State, url: string, retry: nat, rss: Option<RssMeta>, page: Page, env: ArticleEnv): StepOut
  {
    if s.collected as int >= c.maxArticles then StepOut(s, [])
    else if Blocked(page.text) then
      if retry >= MaxBlockedRetries then
        var s1 := s.(stats := s.stats.(blocked := s.stats.blocked + 1));
        StepOut(if rss.Some? then RssMetadataStep(c, s1, env) else s1, [])
      else StepOut(s, [ArticleRequest(url, retry + 1, rss)])
    // A `None` content makes `len(content)` in the length message raise `TypeError`.
    else if ContentOf(page, rss).None? then StepOut(WithErrors(s), [])
    else if |ContentOf(page, rss).value| < 100 then StepOut(WithSkipped(s), [])
    else if c.dedup && env.dedup == Duplicate then
      StepOut(s.(stats := s.stats.(semanticDuplicates := s.stats.semanticDuplicates + 1)), [])
    else StepOut(LlmAndSave(c, s, env), [])
  }

  /** The LLM stage and the save of `parse_article`, once the article passed the content checks. */
  function LlmAndSave(c: Config, s: State, env: ArticleEnv): State
  {
    match ArticleLlmStage(c, s, env.llm)
    case None => WithSkipped(s)
    case Some(s1) =>
      match env.save
      case SaveTrue => State(s1.stats.(saved := s1.stats.saved + 1), s1.collected + 1, s1.failedHubs)
      case SaveFalse => WithSkipped(s1)
      case SaveRaises => WithErrors(s1)
  }

  /**
   * `collected` and `saved` grow together, by at most one per article
   * response, and only while fewer than `max_articles` were collected; so
   * `collected` never exceeds `max_articles`.
   */
  lemma ArticleStepCollected(c: Config, s: State, url: string, retry: nat, rss: Option<RssMeta>, page: Page, env: ArticleEnv)
    ensures var o := ArticleStep(c, s, url, retry, rss, page, env);
      && (o.state.collected == s.collected || (o.state.collected == s.collected + 1 && s.collected < c.maxArticles))
      && o.state.collected - s.collected == o.state.stats.saved - s.stats.saved
      && (s.collected <= c.maxArticles || s.collected == 0 ==> o.state.collected <= c.maxArticles || o.state.collected == 0)
      && o.state.failedHubs == s.failedHubs
  {
  }

  /**
   * A blocked page is requested again with `retry + 1` until the third
   * retry; then it is counted as blocked and, when it came from the feed,
   * saved from the feed's metadata.
   */
  lemma BlockedRetryCapped(c: Config, s: State, url: string, retry: nat, rss: Option<RssMeta>, page: Page, env: ArticleEnv)
    requires s.collected < c.maxArticles && Blocked(page.text)
    ensures var o := ArticleStep(c, s, url, retry, rss, page, env);
      && (retry < MaxBlockedRetries ==> o == StepOut(s, [ArticleRequest(url, retry + 1, rss)]))
      && (retry >= MaxBlockedRetries ==> o.requests == [] && o.state.stats.blocked == s.stats.blocked + 1)
      && (retry >= MaxBlockedRetries && rss.None? ==> o.state.collected == s.collected)
  {
    var o := ArticleStep(c, s, url, retry, rss, page, env);
    if retry >= MaxBlockedRetries && rss.Some? {
      var s1 := s.(stats := s.stats.(blocked := s.stats.blocked + 1));
      assert o.state == RssMetadataStep(c, s1, env);
    }
  }

  /** Every article request a callback yields has at most three retries, when its input had. */
  lemma RetriesStayCapped(c: Config, s: State, url: string, retry: nat, rss: Option<RssMeta>, page: Page, env: ArticleEnv)
    requires retry <= MaxBlockedRetries
    ensures var o := ArticleStep(c, s, url, retry, rss, page, env);
      forall i :: 0 <= i < |o.requests| ==> o.requests[i].ArticleRequest? && retry < o.requests[i].retry <= MaxBlockedRetries
  {
  }

  /**
   * A feed description without text, used as content, is an error; a
   * short content or a 'not news' verdict skips the article; an
   * editorial error is counted but the article is still saved.
   */
  lemma ArticleSkipsAndErrors(c: Config, s: State, url: string, retry: nat, rss: Option<RssMeta>, page: Page, env: ArticleEnv)
    requires s.collected < c.maxArticles && !Blocked(page.text)
    ensures var o := ArticleStep(c, s, url, retry, rss, page, env);
      && o.requests == []
      && (ContentOf(page, rss).None? ==> o.state == WithErrors(s))
      && (ContentOf(page, rss).Some? && |ContentOf(page, rss).value| < 100 ==> o.state == WithSkipped(s))
      && ((LongContent(page, rss) && !(c.dedup && env.dedup == Duplicate) && c.enableLlm
           && env.llm.Verdict? && !HasError(env.llm.result) && !env.llm.result.isNews) ==>
            o.state == WithSkipped(s))
      && ((LongContent(page, rss) && !(c.dedup && env.dedup == Duplicate) && c.enableLlm
           && env.llm.Verdict? && HasError(env.llm.result) && env.save == SaveTrue) ==>
            && o.state.stats.errors == s.stats.errors + 1 && o.state.stats.saved == s.stats.saved + 1
            && o.state.collected == s.collected + 1)
  {
  }

  /**
   * With a statistics dictionary that has no 'editorial_processed' key, a
   * blocked feed article the editorial service accepts is counted as an
   * error and not saved: incrementing the missing key raises.
   */
  lemma RssAcceptedWithoutCounterIsError(c: Config, s: State, env: ArticleEnv)
    requires c.enableLlm && env.llm.Verdict? && env.llm.result.isNews && !HasError(env.llm.result)
    requires s.stats.editorialProcessed.None?
    ensures RssMetadataStep(c, s, env) == WithErrors(s)
  {
  }

  // ---------------------------------------------------------------------
  // extract_images
  // ---------------------------------------------------------------------

  /** The image URL contains one of the skipped words, case-insensitively. */
  predicate SkippedImage(img: string)
  {
    var l := Lower(img);
    Contains(l, "icon") || Contains(l, "avatar") || Contains(l, "emoji") || Contains(l, "logo")
  }

  /** Protocol-relative and site-relative URLs made absolute. */
  function AbsoluteImage(img: string): (r: string)
    ensures StartsWith(img, "//") ==> r == "https:" + img
    ensures !StartsWith(img, "/") ==> r == img
  {
    if StartsWith(img, "//") then "https:" + img
    else if StartsWith(img, "/") then "https://habr.com" + img
    else img
  }

  /** The body of the `for img in images` loop: the absolute form of a source that is kept. */
  function ImageKept(img: string): Option<string>
  {
    if SkippedImage(img) then None else Some(AbsoluteImage(img))
  }

  /** `result` after the `for img in images` loop. */
  function ImageFilter(images: seq<string>): seq<string>
  {
    FilterMap(images, ImageKept)
  }

  /** `extract_images(response)` over the sources the selectors found. */
  method ExtractImages(images: seq<string>) returns (r: seq<string>)
    ensures r == Dedupe(ImageFilter(images))
  {
    var result := [];
    var i := 0;
    while i < |images|
      invariant 0 <= i <= |images|
      invariant result == ImageFilter(images[..i])
    {
      assert images[..i + 1][..i] == images[..i];
      var img := images[i];
      if !SkippedImage(img) {
        if StartsWith(img, "//") {
          img := "https:" + img;
        } else if StartsWith(img, "/") {
          img := "https://habr.com" + img;
        }
        result := result + [img];
      }
      i := i + 1;
    }
    assert images[..|images|] == images;
    r := Dedupe(result);
  }

  /**
   * The images returned are distinct, and are exactly the absolute forms
   * of the sources that do not mention a skipped word.
   */
  lemma ImageFilterSpec(images: seq<string>)
    ensures forall u :: u in ImageFilter(images) <==>
              exists k | 0 <= k < |images| :: !SkippedImage(images[k]) && AbsoluteImage(images[k]) == u
  {
    FilterMapSpec(images, ImageKept);
    forall u | u in ImageFilter(images)
      ensures exists k | 0 <= k < |images| :: !SkippedImage(images[k]) && AbsoluteImage(images[k]) == u
    {
      var k :| 0 <= k < |images| && ImageKept(images[k]) == Some(u);
    }
    forall u | exists k | 0 <= k < |images| :: !SkippedImage(images[k]) && AbsoluteImage(images[k]) == u
      ensures u in ImageFilter(images)
    {
      var k :| 0 <= k < |images| && !SkippedImage(images[k]) && AbsoluteImage(images[k]) == u;
      assert ImageKept(images[k]) == Some(u);
    }
  }

  lemma ExtractImagesSpec(images: seq<string>)
    ensures Distinct(Dedupe(ImageFilter(images)))
    ensures forall u :: u in Dedupe(ImageFilter(images)) <==>
              exists k | 0 <= k < |images| :: !SkippedImage(images[k]) && AbsoluteImage(images[k]) == u
  {
    ImageFilterSpec(images);
    DedupeSpec(ImageFilter(images));
  }

  // ---------------------------------------------------------------------
  // The spider
  // ---------------------------------------------------------------------

  /** `collected` stays within `max_articles` (it stays 0 when the limit is not positive). */
  predicate WithinLimit(c: Config, s: State)
  {
    s.collected as int <= c.maxArticles || s.collected == 0
  }

  class Spider {
    const config: Config
    var stats: Stats
    var collected: nat
    var failedHubs: seq<string>

    function Current(): State
      reads this
    {
      State(stats, collected, failedHubs)
    }

    predicate Valid()
      reads this
    {
      WithinLimit(config, Current())
    }

    /**
     * `HabrArticleSpider(max_articles, hubs, enable_llm,
     * enable_deduplication, stats_dict=..., use_rss_fallback)`;
     * `dedupStarts` tells whether the deduplication service could be
     * obtained, and `statsDict` is `None` when no (or an empty) dictionary
     * is passed.
     */
    constructor(maxArticles: int, hubs: seq<string>, enableLlm: bool, enableDeduplication: bool,
                dedupStarts: bool, statsDict: Option<Stats>, useRssFallback: bool)
      ensures config == Config(maxArticles, if hubs == [] then RelevantHubs else hubs, enableLlm,
                               enableDeduplication && dedupStarts, useRssFallback)
      ensures stats == (if statsDict.Some? then statsDict.value else DefaultStats)
      ensures collected == 0 && failedHubs == []
      ensures Valid()
    {
      config := Config(maxArticles, if hubs == [] then RelevantHubs else hubs, enableLlm,
                       enableDeduplication && dedupStarts, useRssFallback);
      stats := if statsDict.Some? then statsDict.value else DefaultStats;
      collected := 0;
      failedHubs := [];
    }

    /** `handle_error(failure)`: a failed request for a hub records the hub. */
    method HandleError(hub: Option<string>)
      modifies this
      ensures failedHubs == old(failedHubs) + (if hub.Some? && hub.value != [] then [hub.value] else [])
      ensures stats == old(stats) && collected == old(collected)
    {
      if hub.Some? && hub.value != [] {
        failedHubs := failedHubs + [hub.value];
      }
    }

    /** `parse_list(response)` */
    method ParseList(hub: string, path: Path, status: int, links: seq<string>, nextPage: Option<string>,
                     join: string -> string) returns (requests: seq<Request>)
      requires Valid()
      modifies this
      ensures StepOut(Current(), requests) == ListStep(config, old(Current()), hub, path, status, links, nextPage, join)
      ensures Valid()
    {
      ghost var s0 := Current();
      if collected as int >= config.maxArticles {
        assert ListStep(config, s0, hub, path, status, links, nextPage, join) == StepOut(s0, []);
        return [];
      }
      if status == 404 && path == HubPath {
        return [ListRequest(HubsUrl(hub), hub, HubsPath)];
      }
      var articleLinks := FilterArticleLinks(links, join);
      articleLinks := Dedupe(articleLinks);
      var remaining := config.maxArticles - collected;
      if remaining > 0 {
        articleLinks := Take(articleLinks, remaining);
      }
      assert articleLinks == ListedArticles(config, s0, links, join);
      if articleLinks == [] {
        if config.useRssFallback && hub !in failedHubs {
          failedHubs := failedHubs + [hub];
          return [RssRequest(RssUrl(hub), hub)];
        }
        return [];
      }
      requests := RequestArticles(articleLinks);
      if nextPage.Some? && nextPage.value != [] {
        requests := requests + [ListRequest(join(nextPage.value), hub, path)];
      }
    }

    /** `parse_rss(response)` */
    method ParseRss(items: Option<seq<RssItem>>, parseDate: string -> Option<int>, now: int)
      returns (requests: seq<Request>)
      requires Valid()
      modifies this
      ensures StepOut(Current(), requests) == RssStep(config, old(Current()), items, parseDate, now)
      ensures Valid()
    {
      if collected as int >= config.maxArticles || items.None? {
        return [];
      }
      var its := items.value;
      var remaining := config.maxArticles - collected;
      if remaining > 0 {
        its := Take(its, remaining);
      }
      requests := [];
      var i := 0;
      while i < |its|
        invariant 0 <= i <= |its|
        invariant requests + RssRequests(its[i..], parseDate, now) == RssRequests(its, parseDate, now)
        invariant stats == old(stats).(rssUsed := old(stats).rssUsed + |requests|)
        invariant collected == old(collected) && failedHubs == old(failedHubs)
      {
        var item := its[i];
        assert its[i..][1..] == its[i + 1..];
        if HasLink(item) {
          if item.title.NoText? {
            // `title[:50]` raises; the handler ends the feed.
            return;
          }
          requests := requests + [RssRequestOf(item, parseDate, now)];
          stats := stats.(rssUsed := stats.rssUsed + 1);
        }
        i := i + 1;
      }
    }

    /** `save_from_rss_metadata(response)` */
    method SaveFromRssMetadata(env: ArticleEnv)
      modifies this
      ensures Current() == RssMetadataStep(config, old(Current()), env)
    {
      if config.enableLlm {
        match env.llm {
          case Unavailable =>
            stats := stats.(errors := stats.errors + 1);
            return;
          case LlmRaises =>
            stats := stats.(errors := stats.errors + 1);
            return;
          case Verdict(r) =>
            if HasError(r) {
              stats := stats.(errors := stats.errors + 1);
              return;
            }
            if !r.isNews {
              stats := stats.(skipped := stats.skipped + 1);
              return;
            }
            if stats.editorialProcessed.None? {
              stats := stats.(errors := stats.errors + 1);
              return;
            }
            stats := stats.(editorialProcessed := Some(stats.editorialProcessed.value + 1));
        }
      }
      match env.save {
        case SaveTrue =>
          stats := stats.(saved := stats.saved + 1, rssUsed := stats.rssUsed + 1);
          collected := collected + 1;
        case SaveFalse =>
        case SaveRaises =>
          stats := stats.(errors := stats.errors + 1);
      }
    }

    /** `parse_article(response)` */
    method ParseArticle(url: string, retry: nat, rss: Option<RssMeta>, page: Page, env: ArticleEnv)
      returns (requests: seq<Request>)
      requires Valid()
      modifies this
      ensures StepOut(Current(), requests) == ArticleStep(config, old(Current()), url, retry, rss, page, env)
      ensures Valid()
    {
      ArticleStepCollected(config, Current(), url, retry, rss, page, env);
      if collected as int >= config.maxArticles {
        return [];
      }
      if Blocked(page.text) {
        if retry >= MaxBlockedRetries {
          stats := stats.(blocked := stats.blocked + 1);
          if rss.Some? {
            SaveFromRssMetadata(env);
          }
          return [];
        }
        return [ArticleRequest(url, retry + 1, rss)];
      }
      var content := Some(page.content);
      if |page.content| < 150 && rss.Some? {
        content := rss.value.description;
      }
      if content.None? {
        // `len(content)` in the length message raises; the handler counts an error.
        stats := stats.(errors := stats.errors + 1);
        return [];
      }
      if |content.value| < 100 {
        stats := stats.(skipped := stats.skipped + 1);
        return [];
      }
      if config.dedup && env.dedup == Duplicate {
        stats := stats.(semanticDuplicates := stats.semanticDuplicates + 1);
        return [];
      }
      ClassifyAndSave(env);
      return [];
    }

    /** The LLM classification and the save at the end of `parse_article`. */
    method ClassifyAndSave(env: ArticleEnv)
      modifies this
      ensures Current() == LlmAndSave(config, old(Current()), env)
    {
      if config.enableLlm {
        match env.llm {
          case Unavailable =>
          case LlmRaises =>
            stats := stats.(errors := stats.errors + 1);
          case Verdict(r) =>
            if HasError(r) {
              stats := stats.(errors := stats.errors + 1);
            } else if !r.isNews {
              stats := stats.(skipped := stats.skipped + 1);
              return;
            } else {
              var n := if stats.editorialProcessed.Some? then stats.editorialProcessed.value else 0;
              stats := stats.(editorialProcessed := Some(n + 1));
            }
        }
      }
      match env.save {
        case SaveTrue =>
          stats := stats.(saved := stats.saved + 1);
          collected := collected + 1;
        case SaveFalse =>
          stats := stats.(skipped := stats.skipped + 1);
        case SaveRaises =>
          stats := stats.(errors := stats.errors + 1);
      }
    }
  }
}
