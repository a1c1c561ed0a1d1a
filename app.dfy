/**
 * `src/app.py`, the Streamlit front end: the translation helper `t`, the
 * relative-time caption `format_timedelta`, and the counting loop of the
 * background editorial run `background_editorial_process`.
 *
 * The translation dictionary `TRANSLATIONS` (src/utils/translations.py) is not
 * part of this model; it is a parameter that holds at least the 'ru' table.
 * The Streamlit session is the class `SessionState`; the LLM, the JSON decoder
 * and database commit failures are parameters.
 */
module App {
  import opened Wrappers
  import opened PyStr
  import Tables
  import Editorial
  import ModelsDatabase
  import Config

  // ---------------------------------------------------------------------
  // t(key, **kwargs)
  // ---------------------------------------------------------------------

  type Table = map<string, string>
  type Translations = map<string, Table>

  const DefaultLanguage: string := "ru"

  /** The session language, `'ru'` when the session holds none. */
  function Language(session: Option<string>): (l: string)
    ensures session.None? ==> l == DefaultLanguage
    ensures session.Some? ==> l == session.value
  {
    if session.Some? then session.value else DefaultLanguage
  }

  /** `t(key)` without keyword arguments: the entry of the session language, else of 'ru', else the key. */
  function Text(tr: Translations, session: Option<string>, key: string): (r: string)
    requires DefaultLanguage in tr
  {
    var table := if Language(session) in tr then tr[Language(session)] else tr[DefaultLanguage];
    if key in table then table[key] else key
  }

  /** What `str.format` raises for a template it cannot fill. */
  datatype FormatError =
    | KeyMissing(name: string)      // KeyError: the field names no keyword argument
    | PositionalField(name: string) // IndexError: `{}` or `{0}` with keyword arguments only
    | UnmatchedOpen                 // ValueError: a `{` with no closing `}`
    | SingleClose                   // ValueError: a lone `}`
    | NotModelled(field: string)    // a format spec, conversion, attribute or index access

  /** A field name `str.format` looks up among the keyword arguments as it is. */
  predicate PlainName(name: string)
  {
    name != [] && !(forall i :: 0 <= i < |name| ==> '0' <= name[i] <= '9')
    && ':' !in name && '!' !in name && '.' !in name && '[' !in name && '{' !in name
  }

  predicate Digits(name: string)
  {
    forall i :: 0 <= i < |name| ==> '0' <= name[i] <= '9'
  }

  function Prepend(s: string, r: Result<string, FormatError>): (o: Result<string, FormatError>)
    ensures o.Ok? <==> r.Ok?
    ensures r.Ok? ==> o.value == s + r.value
    ensures r.Err? ==> o == r
  {
    match r
    case Ok(v) => Ok(s + v)
    case Err(e) => Err(e)
  }

  /** `text.format(**args)` for templates whose fields are plain names and `{{`/`}}` escapes. */
  function Format(text: string, args: map<string, string>): (r: Result<string, FormatError>)
    decreases |text|
  {
    if text == [] then Ok([])
    else if text[0] == '{' then
      if |text| >= 2 && text[1] == '{' then Prepend("{", Format(text[2..], args))
      else
        var j := Find(text[1..], '}');
        if j < 0 then Err(UnmatchedOpen)
        else
          var name := text[1..j + 1];
          if Digits(name) then Err(PositionalField(name))
          else if !PlainName(name) then Err(NotModelled(name))
          else if name !in args then Err(KeyMissing(name))
          else Prepend(args[name], Format(text[j + 2..], args))
    else if text[0] == '}' then
      if |text| >= 2 && text[1] == '}' then Prepend("}", Format(text[2..], args))
      else Err(SingleClose)
    else Prepend([text[0]], Format(text[1..], args))
  }

  /** `t(key, **kwargs)`: the text is formatted only when keyword arguments are given. */
  function T(tr: Translations, session: Option<string>, key: string, kwargs: map<string, string>): (r: Result<string, FormatError>)
    requires DefaultLanguage in tr
    ensures |kwargs| == 0 ==> r == Ok(Text(tr, session, key))
    ensures |kwargs| > 0 ==> r == Format(Text(tr, session, key), kwargs)
  {
    if |kwargs| == 0 then Ok(Text(tr, session, key)) else Format(Text(tr, session, key), kwargs)
  }

  /**
   * The lookup order of `t`: an unset language means 'ru'; a language without a
   * table reads the 'ru' table; a key the table lacks comes back as itself.
   */
  lemma TextLookup(tr: Translations, session: Option<string>, key: string)
    requires DefaultLanguage in tr
    ensures Text(tr, None, key) == Text(tr, Some(DefaultLanguage), key)
    ensures Language(session) !in tr ==> Text(tr, session, key) == Text(tr, None, key)
    ensures Language(session) in tr && key in tr[Language(session)] ==> Text(tr, session, key) == tr[Language(session)][key]
    ensures Language(session) in tr && key !in tr[Language(session)] ==> Text(tr, session, key) == key
    ensures Language(session) !in tr && key !in tr[DefaultLanguage] ==> Text(tr, session, key) == key
  {
  }

  /** Text without braces formats to itself. */
  lemma {:induction false} FormatPlain(text: string, args: map<string, string>)
    requires '{' !in text && '}' !in text
    ensures Format(text, args) == Ok(text)
    decreases |text|
  {
    if text != [] {
      FormatPlain(text[1..], args);
      assert [text[0]] + text[1..] == text;
    }
  }

  /** A brace-free prefix is copied through. */
  lemma {:induction false} FormatPrefix(pre: string, rest: string, args: map<string, string>)
    requires '{' !in pre && '}' !in pre
    ensures Format(pre + rest, args) == Prepend(pre, Format(rest, args))
    decreases |pre|
  {
    if pre == [] {
      assert pre + rest == rest;
      match Format(rest, args)
      case Ok(v) =>
        assert pre + v == v;
      case Err(_) =>
    } else {
      assert pre[0] in pre;
      assert (pre + rest)[0] == pre[0];
      assert (pre + rest)[1..] == pre[1..] + rest;
      FormatPrefix(pre[1..], rest, args);
      match Format(rest, args)
      case Ok(v) =>
        assert [pre[0]] + (pre[1..] + v) == pre + v;
      case Err(_) =>
    }
  }

  /** `"{name}"` between brace-free text is replaced by the keyword argument `name`. */
  lemma FormatSubstitutes(pre: string, name: string, post: string, args: map<string, string>)
    requires '{' !in pre && '}' !in pre && '{' !in post && '}' !in post
    requires PlainName(name) && '}' !in name && name in args
    ensures Format(pre + "{" + name + "}" + post, args) == Ok(pre + args[name] + post)
  {
    var field := "{" + name + "}" + post;
    assert pre + "{" + name + "}" + post == pre + field;
    var v := args[name];
    assert pre + (v + post) == pre + v + post;
    FieldValue(name, post, args);
    FormatPlain(post, args);
    FormatAfterPrefix(pre, field, v + post, args);
  }

  /** A brace-free prefix in front of a text that formats to `v` formats to the prefix followed by `v`. */
  lemma FormatAfterPrefix(pre: string, rest: string, v: string, args: map<string, string>)
    requires '{' !in pre && '}' !in pre
    requires Format(rest, args) == Ok(v)
    ensures Format(pre + rest, args) == Ok(pre + v)
  {
    FormatPrefix(pre, rest, args);
  }

  /** A leading `{name}` is replaced by the keyword argument and formatting goes on after it. */
  lemma FieldValue(name: string, post: string, args: map<string, string>)
    requires PlainName(name) && '}' !in name && name in args
    ensures Format("{" + name + "}" + post, args) == Prepend(args[name], Format(post, args))
  {
    var field := "{" + name + "}" + post;
    assert field[1..] == name + "}" + post;
    FindPast(name, '}', post);
    assert field[1..|name| + 1] == name;
    assert field[|name| + 2..] == post;
    assert name[0] in name;
  }

  /** A keyword argument the template names but the call does not pass raises KeyError. */
  lemma FormatMissingKey(name: string, post: string, args: map<string, string>)
    requires PlainName(name) && '}' !in name && name !in args
    ensures Format("{" + name + "}" + post, args) == Err(KeyMissing(name))
  {
    var field := "{" + name + "}" + post;
    assert field[1..] == name + "}" + post;
    FindPast(name, '}', post);
    assert field[1..|name| + 1] == name;
  }

  /** Doubling every brace, the escape `str.format` undoes. */
  function Escape(s: string): (r: string)
    ensures |r| >= |s|
  {
    if s == [] then []
    else (if s[0] == '{' then "{{" else if s[0] == '}' then "}}" else [s[0]]) + Escape(s[1..])
  }

  /** Formatting an escaped text gives the text back, whatever the arguments. */
  lemma {:induction false} FormatEscaped(s: string, args: map<string, string>)
    ensures Format(Escape(s), args) == Ok(s)
    decreases |s|
  {
    if s != [] {
      FormatEscaped(s[1..], args);
      var e := Escape(s);
      var head := if s[0] == '{' then "{{" else if s[0] == '}' then "}}" else [s[0]];
      assert e == head + Escape(s[1..]);
      assert e[0] == head[0];
      if s[0] == '{' || s[0] == '}' {
        assert e[2..] == Escape(s[1..]);
      } else {
        assert e[1..] == Escape(s[1..]);
      }
      assert [s[0]] + s[1..] == s;
    }
  }

  /** Without keyword arguments a template comes back untouched, braces included. */
  lemma NoKwargsVerbatim(tr: Translations, session: Option<string>, key: string)
    requires DefaultLanguage in tr
    ensures T(tr, session, key, map[]) == Ok(Text(tr, session, key))
  {
  }

  // ---------------------------------------------------------------------
  // format_timedelta(td, lang)
  // ---------------------------------------------------------------------

  /** `int(td.total_seconds())` for a timedelta of `micros` microseconds: truncation toward zero. */
  function WholeSeconds(micros: int): (s: int)
    ensures micros >= 0 ==> 0 <= s && s * 1000000 <= micros < (s + 1) * 1000000
    ensures micros < 0 ==> s <= 0 && -s * 1000000 <= -micros < (-s + 1) * 1000000
  {
    if micros >= 0 then micros / 1000000 else -((-micros) / 1000000)
  }

  datatype Unit = Sec | Min | Hour | Days

  function UnitKey(u: Unit): string
  {
    match u
    case Sec => "sec"
    case Min => "min"
    case Hour => "hour"
    case Days => "days"
  }

  function UnitSeconds(u: Unit): nat
  {
    match u
    case Sec => 1
    case Min => 60
    case Hour => 3600
    case Days => 86400
  }

  function Rank(u: Unit): nat
  {
    match u
    case Sec => 0
    case Min => 1
    case Hour => 2
    case Days => 3
  }

  /**
   * The number and unit the caption shows for `s` whole seconds: below a minute
   * the seconds themselves (negative ones included), otherwise the whole number
   * of the largest unit that fits, which is below the next unit's size.
   */
  function Bucket(s: int): (r: (int, Unit))
    ensures s < 60 <==> r.1 == Sec
    ensures s < 60 ==> r.0 == s
    ensures s >= 60 ==> 1 <= r.0 && r.0 * UnitSeconds(r.1) <= s < (r.0 + 1) * UnitSeconds(r.1)
    ensures r.1 == Min ==> r.0 < 60
    ensures r.1 == Hour ==> r.0 < 24
    ensures r.1 == Days <==> s >= 86400
  {
    if s < 60 then (s, Sec)
    else if s < 3600 then (s / 60, Min)
    else if s < 86400 then (s / 3600, Hour)
    else (s / 86400, Days)
  }

  /** A longer elapsed time never shows a smaller unit, nor a smaller count of the same unit. */
  lemma BucketMonotone(s1: int, s2: int)
    requires s1 <= s2
    ensures var b1, b2 := Bucket(s1), Bucket(s2);
      Rank(b1.1) < Rank(b2.1) || (b1.1 == b2.1 && b1.0 <= b2.0)
  {
  }

  /**
   * `format_timedelta(td, lang)`: `"{n} {t('unit')} {t('ago')}"`. The `lang`
   * argument is not read; `t` uses the session language.
   */
  function FormatTimedelta(tr: Translations, session: Option<string>, micros: int, lang: string): (r: string)
    requires DefaultLanguage in tr
  {
    var b := Bucket(WholeSeconds(micros));
    IntToString(b.0) + " " + Text(tr, session, UnitKey(b.1)) + " " + Text(tr, session, "ago")
  }

  lemma NoSpaceInNumber(n: int)
    ensures ' ' !in IntToString(n)
  {
    var s := IntToString(n);
    if n < 0 {
      assert s == "-" + NatToString(-n);
      assert forall i :: 1 <= i < |s| ==> s[i] == NatToString(-n)[i - 1];
    }
  }

  /**
   * The caption reads back: its first word parses as the count shown, and the
   * translated unit and "ago" follow; the `lang` argument changes nothing.
   */
  lemma FormatTimedeltaReadsBack(tr: Translations, session: Option<string>, micros: int, lang: string, other: string)
    requires DefaultLanguage in tr
    ensures var r := FormatTimedelta(tr, session, micros, lang);
      var b := Bucket(WholeSeconds(micros));
      var i := Find(r, ' ');
      && 0 < i && Config.ParseInt(r[..i]) == Some(b.0)
      && r[i + 1..] == Text(tr, session, UnitKey(b.1)) + " " + Text(tr, session, "ago")
      && r == FormatTimedelta(tr, session, micros, other)
  {
    var r := FormatTimedelta(tr, session, micros, lang);
    var b := Bucket(WholeSeconds(micros));
    var num := IntToString(b.0);
    var tail := Text(tr, session, UnitKey(b.1)) + " " + Text(tr, session, "ago");
    assert r == num + " " + tail;
    NoSpaceInNumber(b.0);
    FindPast(num, ' ', tail);
    assert r[..|num|] == num;
    assert r[|num| + 1..] == tail;
    Config.IntRoundTrip(b.0);
  }

  // ---------------------------------------------------------------------
  // background_editorial_process(unprocessed_posts)
  // ---------------------------------------------------------------------

  /** `processing_results`: the three counters of one run. */
  datatype Counts = Counts(processed: nat, news: nat, errors: nat)

  /** What the loop does with one post. */
  datatype Outcome =
    | TooShort                                // skipped, nothing counted
    | Failed                                  // the editorial result carries an error, or the write raised
    | Written(row: ModelsDatabase.ProcessedPost)

  const ModelUsed: string := "gpt-oss:20b"

  /** `editorial_service.process_post(title, text)`, as a function of the two arguments. */
  type Service = (string, string) -> Editorial.EditorialResult

  /** The service `get_editorial_service()` builds over an LLM and a JSON decoder. */
  function Editor(llm: string -> Editorial.LlmCall, decode: Editorial.Decoder): Service
  {
    (title, content) => Editorial.ProcessPost(title, content, llm, decode)
  }

  /** `post.selftext or ''` */
  function Body(p: Tables.RedditPost): string
  {
    if p.selftext.Some? then p.selftext.value else ""
  }

  /** `result.get('error')` is truthy: present and non-empty. */
  predicate ErrorSet(res: Editorial.EditorialResult)
  {
    res.error.Some? && res.error.value != []
  }

  /** The `ProcessedRedditPost` built from a post and its editorial result. */
  function Row(p: Tables.RedditPost, res: Editorial.EditorialResult): (r: ModelsDatabase.ProcessedPost)
    ensures r.postId == p.postId && r.isNews == res.isNews && r.modelUsed == Some(ModelUsed)
    ensures r.originalTitle == p.title && r.originalText == Body(p)
  {
    ModelsDatabase.ProcessedPost(
      p.postId, p.title, Body(p), Some(p.subreddit), p.author, p.url, p.score, res.isNews,
      res.originalSummary, res.rewrittenPost, res.title, res.teaser, res.imagePrompt, Some(ModelUsed))
  }

  /**
   * One iteration. `post_id` is unique in `processed_reddit_posts`, so a post
   * already there makes the commit raise; `fails` says which other commits raise.
   */
  function Attempt(p: Tables.RedditPost, service: Service,
                   fails: string -> bool, table: map<string, ModelsDatabase.ProcessedPost>): Outcome
  {
    if ModelsDatabase.TooShortText(ModelsDatabase.PostText(p)) then TooShort
    else
      var res := service(p.title, Body(p));
      if ErrorSet(res) then Failed
      else if p.postId in table || fails(p.postId) then Failed
      else Written(Row(p, res))
  }

  /** The counters, the processed table and the rows written, after a run over `posts`. */
  datatype Progress = Progress(counts: Counts, table: map<string, ModelsDatabase.ProcessedPost>,
                               rows: seq<ModelsDatabase.ProcessedPost>)

  function Apply(g: Progress, o: Outcome): Progress
  {
    match o
    case TooShort => g
    case Failed => g.(counts := g.counts.(errors := g.counts.errors + 1))
    case Written(row) =>
      Progress(Counts(g.counts.processed + 1, g.counts.news + (if row.isNews then 1 else 0), g.counts.errors),
               g.table[row.postId := row], g.rows + [row])
  }

  function Run(posts: seq<Tables.RedditPost>, service: Service,
               fails: string -> bool, table0: map<string, ModelsDatabase.ProcessedPost>): Progress
    decreases |posts|
  {
    if posts == [] then Progress(Counts(0, 0, 0), table0, [])
    else
      var g := Run(posts[..|posts| - 1], service, fails, table0);
      Apply(g, Attempt(posts[|posts| - 1], service, fails, g.table))
  }

  /** One more post extends the run by that post's outcome. */
  lemma RunStep(posts: seq<Tables.RedditPost>, i: nat, service: Service,
                fails: string -> bool, table0: map<string, ModelsDatabase.ProcessedPost>, g: Progress, o: Outcome)
    requires i < |posts|
    requires g == Run(posts[..i], service, fails, table0)
    requires o == Attempt(posts[i], service, fails, g.table)
    ensures Run(posts[..i + 1], service, fails, table0) == Apply(g, o)
  {
    assert posts[..i + 1][..i] == posts[..i];
  }

  function NewsCount(rows: seq<ModelsDatabase.ProcessedPost>): nat
  {
    if rows == [] then 0 else NewsCount(rows[..|rows| - 1]) + (if rows[|rows| - 1].isNews then 1 else 0)
  }

  function ShortCount(posts: seq<Tables.RedditPost>): (n: nat)
    ensures n <= |posts|
  {
    if posts == [] then 0
    else
      var last := if ModelsDatabase.TooShortText(ModelsDatabase.PostText(posts[|posts| - 1])) then 1 else 0;
      ShortCount(posts[..|posts| - 1]) + last
  }

  /**
   * `table` is `table0` plus `rows`: the rows have distinct ids that were not in
   * `table0`, each is stored under its id, and nothing else changed.
   */
  ghost predicate Adds(table0: map<string, ModelsDatabase.ProcessedPost>, table: map<string, ModelsDatabase.ProcessedPost>,
                       rows: seq<ModelsDatabase.ProcessedPost>)
  {
    && (forall i :: 0 <= i < |rows| ==> rows[i].postId !in table0 && rows[i].postId in table && table[rows[i].postId] == rows[i])
    && (forall i, j :: 0 <= i < j < |rows| ==> rows[i].postId != rows[j].postId)
    && (forall k :: k in table0 ==> k in table && table[k] == table0[k])
    && (forall k :: k in table ==> k in table0 || exists i :: 0 <= i < |rows| && rows[i].postId == k)
  }

  lemma AddsStep(table0: map<string, ModelsDatabase.ProcessedPost>, table: map<string, ModelsDatabase.ProcessedPost>,
                 rows: seq<ModelsDatabase.ProcessedPost>, row: ModelsDatabase.ProcessedPost)
    requires Adds(table0, table, rows) && row.postId !in table
    ensures Adds(table0, table[row.postId := row], rows + [row])
  {
    var t, rs := table[row.postId := row], rows + [row];
    forall k | k in t
      ensures k in table0 || exists i :: 0 <= i < |rs| && rs[i].postId == k
    {
      if k == row.postId {
        assert rs[|rs| - 1].postId == k;
      } else if k !in table0 {
        var i :| 0 <= i < |rows| && rows[i].postId == k;
        assert rs[i].postId == k;
      }
    }
  }

  /**
   * What a run adds up to: every post is skipped, counted as an error or
   * written exactly once; `processed` is the number of rows written and `news`
   * the number of them marked as news.
   */
  lemma {:induction false} RunCounts(posts: seq<Tables.RedditPost>, service: Service,
                                     fails: string -> bool,
                                     table0: map<string, ModelsDatabase.ProcessedPost>)
    ensures var g := Run(posts, service, fails, table0);
      && g.counts.processed + g.counts.errors + ShortCount(posts) == |posts|
      && g.counts.processed == |g.rows|
      && g.counts.news == NewsCount(g.rows)
      && g.counts.news <= g.counts.processed
    decreases |posts|
  {
    if posts != [] {
      var init := posts[..|posts| - 1];
      RunCounts(init, service, fails, table0);
      var g := Run(init, service, fails, table0);
      var o := Attempt(posts[|posts| - 1], service, fails, g.table);
      if o.Written? {
        var rows := g.rows + [o.row];
        assert rows[..|rows| - 1] == g.rows;
      }
    }
  }

  /** The processed table gains exactly the rows written, under fresh ids, and keeps every earlier row. */
  lemma {:induction false} RunTable(posts: seq<Tables.RedditPost>, service: Service,
                                    fails: string -> bool,
                                    table0: map<string, ModelsDatabase.ProcessedPost>)
    ensures var g := Run(posts, service, fails, table0);
      Adds(table0, g.table, g.rows)
    decreases |posts|
  {
    if posts != [] {
      var init := posts[..|posts| - 1];
      RunTable(init, service, fails, table0);
      var g := Run(init, service, fails, table0);
      var o := Attempt(posts[|posts| - 1], service, fails, g.table);
      if o.Written? {
        AddsStep(table0, g.table, g.rows, o.row);
      }
    }
  }

  /** A post whose editorial result carries a non-empty error writes nothing and counts one error. */
  lemma ErrorWritesNothing(p: Tables.RedditPost, service: Service,
                           fails: string -> bool, table: map<string, ModelsDatabase.ProcessedPost>)
    requires !ModelsDatabase.TooShortText(ModelsDatabase.PostText(p))
    requires ErrorSet(service(p.title, Body(p)))
    ensures Attempt(p, service, fails, table) == Failed
  {
  }

  /**
   * A written row carries the editorial verdict: it is news exactly when the
   * editorial result says so, and the result had no error or an empty one.
   */
  lemma WrittenRowVerdict(p: Tables.RedditPost, service: Service,
                          fails: string -> bool, table: map<string, ModelsDatabase.ProcessedPost>)
    requires Attempt(p, service, fails, table).Written?
    ensures var res := service(p.title, Body(p));
      var row := Attempt(p, service, fails, table).row;
      && row.isNews == res.isNews
      && (res.error.None? || res.error == Some([]))
      && row.postId == p.postId && p.postId !in table
  {
  }

  /**
   * `str(e)` can be empty: an LLM call that raises an exception with no message
   * yields `error == ""`, which is falsy, so the post is written as not-news.
   */
  lemma SilentFailureWritten(p: Tables.RedditPost, llm: string -> Editorial.LlmCall, decode: Editorial.Decoder,
                             fails: string -> bool, table: map<string, ModelsDatabase.ProcessedPost>)
    requires !ModelsDatabase.TooShortText(ModelsDatabase.PostText(p))
    requires llm(Editorial.UserPrompt(Editorial.LlmInput(p.title, Body(p)))) == Editorial.Raised([])
    requires p.postId !in table && !fails(p.postId)
    ensures Attempt(p, Editor(llm, decode), fails, table).Written?
    ensures !Attempt(p, Editor(llm, decode), fails, table).row.isNews
  {
  }

  /** The status line a finished run leaves. */
  function CompleteStatus(tr: Translations, session: Option<string>, c: Counts): string
    requires DefaultLanguage in tr
  {
    "GPT-OSS complete. " + Text(tr, session, "processed") + ": " + NatToString(c.processed)
    + " | " + Text(tr, session, "news") + ": " + NatToString(c.news)
    + " | " + Text(tr, session, "error") + ": " + NatToString(c.errors)
  }

  /** The Streamlit session keys the editorial run reads and writes. */
  class SessionState {
    var language: Option<string>
    var processingActive: bool
    var processingStatus: string
    var processingResults: Option<Counts>
    var lastUpdate: int

    /** The defaults set on first load (`language` is set to 'ru' after the first `t` call). */
    constructor (now: int)
      ensures language == Some(DefaultLanguage) && !processingActive && processingStatus == []
      ensures processingResults == None && lastUpdate == now
    {
      language := Some(DefaultLanguage);
      processingActive := false;
      processingStatus := [];
      processingResults := None;
      lastUpdate := now;
    }
  }

  /** The status line shown while post `i + 1` of `total` is processed. */
  function ProgressStatus(i: nat, total: nat, title: string): (r: string)
    ensures |r| >= |"Processing "| && r[..|"Processing "|] == "Processing "
  {
    "Processing " + NatToString(i + 1) + "/" + NatToString(total) + ": " + Take(title, 40) + "..."
  }

  /**
   * The body of the `for` loop for one post: skip it when too short, call the
   * editorial service, and write the row unless the result carries an error or
   * the commit raises.
   */
  method ProcessOne(store: ModelsDatabase.Store, p: Tables.RedditPost,
                    service: Service, fails: string -> bool)
    returns (o: Outcome)
    modifies store`processed
    ensures o == Attempt(p, service, fails, old(store.processed))
    ensures store.processed == (if o.Written? then old(store.processed)[p.postId := o.row] else old(store.processed))
  {
    if ModelsDatabase.TooShortText(ModelsDatabase.PostText(p)) {
      return TooShort;
    }
    var res := service(p.title, Body(p));
    if ErrorSet(res) {
      return Failed;
    }
    if p.postId in store.processed || fails(p.postId) {
      return Failed;
    }
    var row := Row(p, res);
    store.processed := store.processed[p.postId := row];
    return Written(row);
  }

  /**
   * The `for` loop of `background_editorial_process`: each post's status line,
   * its outcome and the counters, over the processed-posts table.
   */
  method EditorialLoop(st: SessionState, store: ModelsDatabase.Store, posts: seq<Tables.RedditPost>,
                       service: Service, fails: string -> bool)
    returns (c: Counts)
    modifies st`processingStatus, store`processed
    ensures var g := Run(posts, service, fails, old(store.processed));
      c == g.counts && store.processed == g.table
  {
    var processed, news, errors := 0, 0, 0;
    ghost var g := Run(posts[..0], service, fails, old(store.processed));
    var i := 0;
    while i < |posts|
      invariant 0 <= i <= |posts|
      invariant g == Run(posts[..i], service, fails, old(store.processed))
      invariant g.counts == Counts(processed, news, errors) && g.table == store.processed
    {
      st.processingStatus := ProgressStatus(i, |posts|, posts[i].title);
      var o := ProcessOne(store, posts[i], service, fails);
      ghost var next := Apply(g, o);
      RunStep(posts, i, service, fails, old(store.processed), g, o);
      assert next == Run(posts[..i + 1], service, fails, old(store.processed));
      match o {
        case TooShort =>
        case Failed =>
          errors := errors + 1;
        case Written(row) =>
          processed := processed + 1;
          if row.isNews {
            news := news + 1;
          }
      }
      assert next.counts == Counts(processed, news, errors);
      g := next;
      i := i + 1;
    }
    assert posts[..|posts|] == posts;
    c := Counts(processed, news, errors);
  }

  /**
   * `background_editorial_process(unprocessed_posts)`. `serviceError` is the
   * message of the exception `get_editorial_service()` raises, if it does; then
   * nothing is processed. `now` is `time.time()` in the `finally` block.
   */
  method BackgroundEditorialProcess(st: SessionState, store: ModelsDatabase.Store, posts: seq<Tables.RedditPost>,
                                    tr: Translations, serviceError: Option<string>,
                                    llm: string -> Editorial.LlmCall, decode: Editorial.Decoder,
                                    fails: string -> bool, now: int)
    requires DefaultLanguage in tr
    modifies st, store`processed
    ensures !st.processingActive && st.lastUpdate == now && st.language == old(st.language)
    ensures serviceError.None? ==>
      var g := Run(posts, Editor(llm, decode), fails, old(store.processed));
      && store.processed == g.table
      && st.processingResults == Some(g.counts)
      && st.processingStatus == CompleteStatus(tr, st.language, g.counts)
    ensures serviceError.Some? ==>
      && store.processed == old(store.processed)
      && st.processingResults == old(st.processingResults)
      && st.processingStatus == "Processing error: " + serviceError.value
  {
    st.processingActive := true;
    st.processingStatus := "GPT-OSS processing in progress...";
    if serviceError.Some? {
      st.processingStatus := "Processing error: " + serviceError.value;
    } else {
      var c := EditorialLoop(st, store, posts, Editor(llm, decode), fails);
      st.processingResults := Some(c);
      st.processingStatus := CompleteStatus(tr, st.language, c);
    }
    st.processingActive := false;
    st.lastUpdate := now;
  }
}
