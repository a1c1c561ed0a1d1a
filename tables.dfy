/**
 * The rows of the aggregator's PostgreSQL tables (schema `parsers`), as both
 * `src/database.py` and `src/models/database.py` declare them, and the read
 * queries the two files share: "filter, newest first, LIMIT n".
 *
 * Timestamps are whole seconds since the epoch. A table is the sequence of
 * its rows in insertion (autoincrement id) order.
 */
module Tables {
  import opened Wrappers
  import PyStr
  import SqlLike

  datatype RedditPost = RedditPost(
    postId: string,
    subreddit: string,
    title: string,
    author: Option<string>,
    url: Option<string>,
    selftext: Option<string>,
    score: int,
    createdUtc: int,
    scrapedAt: int,
    qdrantId: Option<string>)

  datatype TelegramMessage = TelegramMessage(
    messageId: int,
    channelUsername: string,
    text: Option<string>,
    date: int,
    views: int,
    scrapedAt: int)

  /** The `tags` entry of an article dict before it is stored. */
  datatype TagsInput = NoTags | TagList(items: seq<string>) | TagText(text: string)

  /** A Medium article dict as the scrapers hand it to `save_medium_article`. */
  datatype MediumInput = MediumInput(
    url: string,
    title: string,
    author: Option<string>,
    tags: TagsInput,
    publishedDate: int,
    scrapedAt: int)

  datatype MediumArticle = MediumArticle(
    url: string,
    title: string,
    author: Option<string>,
    tags: Option<string>,
    publishedDate: int,
    scrapedAt: int)

  /** Every character is printable ASCII (`' '` to `'~'`). */
  predicate Printable(s: string)
  {
    forall i :: 0 <= i < |s| ==> ' ' <= s[i] <= '~'
  }

  lemma PrintableConcat(a: string, b: string)
    requires Printable(a) && Printable(b)
    ensures Printable(a + b)
  {
  }

  /** A lower-case hexadecimal digit. */
  function HexDigit(d: nat): (c: char)
    requires d < 16
    ensures '0' <= c <= '9' || 'a' <= c <= 'f'
  {
    if d < 10 then ('0' as int + d) as char else ('a' as int + d - 10) as char
  }

  /** Four lower-case hexadecimal digits of a 16-bit code unit, as in `'\\u{0:04x}'`. */
  function Hex4(n: nat): (r: string)
    requires n < 0x10000
    ensures |r| == 4 && Printable(r)
  {
    [HexDigit(n / 4096), HexDigit(n / 256 % 16), HexDigit(n / 16 % 16), HexDigit(n % 16)]
  }

  /**
   * A character `json.dumps` writes as itself: anything but `"`, `\` and
   * the control characters, and with `ensure_ascii` (the default) only the
   * printable ASCII characters.
   */
  predicate Unescaped(c: char, ensureAscii: bool)
  {
    c != '"' && c != '\\' && ' ' <= c && (!ensureAscii || c <= '~')
  }

  /** How `json.dumps` writes one character of a string. */
  function EscapeChar(c: char, ensureAscii: bool): (r: string)
    ensures r != []
    ensures Unescaped(c, ensureAscii) ==> r == [c]
    ensures !Unescaped(c, ensureAscii) ==> r[0] == '\\'
    ensures ensureAscii ==> Printable(r)
  {
    if c == '"' then "\\\""
    else if c == '\\' then "\\\\"
    else if c == '\n' then "\\n"
    else if c == '\r' then "\\r"
    else if c == '\t' then "\\t"
    else if c == '\U{0008}' then "\\b"
    else if c == '\U{000c}' then "\\f"
    else if c < ' ' then "\\u" + Hex4(c as int)
    else if !ensureAscii || c <= '~' then [c]
    else if c as int < 0x10000 then "\\u" + Hex4(c as int)
    else
      // a UTF-16 surrogate pair
      var n := c as int - 0x10000;
      "\\u" + Hex4(0xd800 + n / 1024) + "\\u" + Hex4(0xdc00 + n % 1024)
  }

  function JsonEscape(s: string, ensureAscii: bool): (r: string)
    ensures (forall i :: 0 <= i < |s| ==> Unescaped(s[i], ensureAscii)) ==> r == s
    ensures ensureAscii ==> Printable(r)
  {
    if s == [] then []
    else
      var r := EscapeChar(s[0], ensureAscii) + JsonEscape(s[1..], ensureAscii);
      if ensureAscii then
        PrintableConcat(EscapeChar(s[0], ensureAscii), JsonEscape(s[1..], ensureAscii));
        r
      else r
  }

  /** The JSON string literal `json.dumps(s)` writes. */
  function JsonQuote(s: string, ensureAscii: bool): (r: string)
    ensures |r| >= 2 && r[0] == '"' && r[|r| - 1] == '"'
    ensures (forall i :: 0 <= i < |s| ==> Unescaped(s[i], ensureAscii)) ==> r == "\"" + s + "\""
  {
    "\"" + JsonEscape(s, ensureAscii) + "\""
  }

  /** `json.dumps(items)` for a list of strings: `["a", "b"]`. */
  function JsonDumps(items: seq<string>, ensureAscii: bool): (r: string)
    ensures |r| >= 2 && r[0] == '[' && r[|r| - 1] == ']'
  {
    "[" + JsonJoin(items, ensureAscii) + "]"
  }

  function JsonJoin(items: seq<string>, ensureAscii: bool): string
  {
    if items == [] then []
    else if |items| == 1 then JsonQuote(items[0], ensureAscii)
    else JsonQuote(items[0], ensureAscii) + ", " + JsonJoin(items[1..], ensureAscii)
  }

  /** With `ensure_ascii` every character `json.dumps` writes is printable ASCII. */
  lemma {:induction false} JsonJoinAscii(items: seq<string>)
    ensures Printable(JsonJoin(items, true)) && Printable(JsonDumps(items, true))
  {
    var j := JsonJoin(items, true);
    if |items| == 1 {
      JsonQuoteAscii(items[0]);
    } else if |items| > 1 {
      JsonJoinAscii(items[1..]);
      var q := JsonQuote(items[0], true);
      JsonQuoteAscii(items[0]);
      PrintableConcat(q, ", ");
      PrintableConcat(q + ", ", JsonJoin(items[1..], true));
    }
    PrintableConcat("[", j);
    PrintableConcat("[" + j, "]");
  }

  lemma JsonQuoteAscii(s: string)
    ensures Printable(JsonQuote(s, true))
  {
    PrintableConcat("\"", JsonEscape(s, true));
    PrintableConcat("\"" + JsonEscape(s, true), "\"");
  }

  /** Every element of a list appears, quoted, inside its JSON encoding. */
  lemma {:induction false} JsonJoinContains(items: seq<string>, k: nat, ensureAscii: bool)
    requires k < |items|
    ensures PyStr.Contains(JsonJoin(items, ensureAscii), JsonQuote(items[k], ensureAscii))
  {
    JsonJoinCons(items, ensureAscii);
    if k == 0 {
      ContainsPrefix(JsonQuote(items[0], ensureAscii), JsonJoin(items, ensureAscii)[|JsonQuote(items[0], ensureAscii)|..]);
    } else {
      var rest := JsonJoin(items[1..], ensureAscii);
      JsonJoinContains(items[1..], k - 1, ensureAscii);
      assert items[1..][k - 1] == items[k];
      ContainsSuffix(JsonQuote(items[0], ensureAscii) + ", ", rest, JsonQuote(items[k], ensureAscii));
    }
  }

  /** The JSON text of a list starts with its first element's literal, and the rest follows a comma. */
  lemma JsonJoinCons(items: seq<string>, ensureAscii: bool)
    requires items != []
    ensures var q := JsonQuote(items[0], ensureAscii);
      var j := JsonJoin(items, ensureAscii);
      && |q| <= |j| && j == q + j[|q|..]
      && (|items| > 1 ==> j == (q + ", ") + JsonJoin(items[1..], ensureAscii))
  {
  }

  lemma ContainsPrefix(q: string, tail: string)
    ensures PyStr.Contains(q + tail, q)
  {
    assert (q + tail)[0..|q|] == q;
    assert PyStr.OccursAt(q + tail, q, 0);
  }

  lemma ContainsSuffix(pre: string, rest: string, q: string)
    requires PyStr.Contains(rest, q)
    ensures PyStr.Contains(pre + rest, q)
  {
    var i :| 0 <= i <= |rest| - |q| && PyStr.OccursAt(rest, q, i);
    var w: string := [] + q + [];
    assert w == q;
    assert PyStr.OccursAt(rest, w, i);
    PyStr.OccursInside(rest, pre, [], [], q, [], i);
    assert pre + rest + [] == pre + rest;
  }

  /**
   * What the `tags` column holds after `save_medium_article` has converted a
   * list: `json.dumps` with its default `ensure_ascii`.
   */
  function TagsColumn(t: TagsInput): (c: Option<string>)
    ensures t.NoTags? <==> c.None?
    ensures t.TagText? ==> c == Some(t.text)
    ensures t.TagList? ==> c.Some? && Printable(c.value)
    ensures t.TagList? ==> forall k :: 0 <= k < |t.items| ==> PyStr.Contains(c.value, JsonQuote(t.items[k], true))
  {
    match t
    case NoTags => None
    case TagList(items) =>
      JsonJoinAscii(items);
      JsonListContains(items, true);
      Some(JsonDumps(items, true))
    case TagText(s) => Some(s)
  }

  /** Every element of a list appears, quoted, inside the bracketed list. */
  lemma JsonListContains(items: seq<string>, ensureAscii: bool)
    ensures forall k :: 0 <= k < |items| ==> PyStr.Contains(JsonDumps(items, ensureAscii), JsonQuote(items[k], ensureAscii))
  {
    var j := JsonJoin(items, ensureAscii);
    forall k | 0 <= k < |items| ensures PyStr.Contains(JsonDumps(items, ensureAscii), JsonQuote(items[k], ensureAscii)) {
      var q := JsonQuote(items[k], ensureAscii);
      JsonJoinContains(items, k, ensureAscii);
      var i :| PyStr.OccursAt(j, q, i);
      assert q == [] + q + [];
      PyStr.OccursInside(j, "[", "]", [], q, [], i);
    }
  }

  /**
   * The `tags` column as the tag filter evidently expects it: the list
   * written with `ensure_ascii=False`, so that a tag appears in it as typed.
   */
  function TagsColumnIntended(t: TagsInput): (c: Option<string>)
    ensures t.NoTags? <==> c.None?
    ensures t.TagText? ==> c == Some(t.text)
    ensures t.TagList? ==> c.Some? && forall k :: 0 <= k < |t.items| ==> PyStr.Contains(c.value, JsonQuote(t.items[k], false))
  {
    match t
    case NoTags => None
    case TagList(items) =>
      JsonListContains(items, false);
      Some(JsonDumps(items, false))
    case TagText(s) => Some(s)
  }

  function ToMediumRow(a: MediumInput): (row: MediumArticle)
    ensures row.url == a.url && row.tags == TagsColumn(a.tags)
  {
    MediumArticle(a.url, a.title, a.author, TagsColumn(a.tags), a.publishedDate, a.scrapedAt)
  }

  function ToMediumRowIntended(a: MediumInput): (row: MediumArticle)
    ensures row.url == a.url && row.tags == TagsColumnIntended(a.tags)
  {
    MediumArticle(a.url, a.title, a.author, TagsColumnIntended(a.tags), a.publishedDate, a.scrapedAt)
  }

  // ---------------------------------------------------------------------
  // ORDER BY key DESC
  // ---------------------------------------------------------------------

  ghost predicate SortedDesc<T>(s: seq<T>, key: T -> int)
  {
    forall i, j :: 0 <= i < j < |s| ==> key(s[i]) >= key(s[j])
  }

  /** Insert `x` into a list sorted by descending key. */
  function InsertDesc<T>(x: T, s: seq<T>, key: T -> int): (r: seq<T>)
    ensures multiset(r) == multiset(s) + multiset{x}
    ensures |r| == |s| + 1
  {
    if s == [] then [x]
    else if key(x) >= key(s[0]) then [x] + s
    else
      assert s == [s[0]] + s[1..];
      [s[0]] + InsertDesc(x, s[1..], key)
  }

  /** The rows ordered newest first (`ORDER BY key DESC`). */
  function SortDesc<T>(s: seq<T>, key: T -> int): (r: seq<T>)
  {
    if s == [] then [] else InsertDesc(s[0], SortDesc(s[1..], key), key)
  }

  lemma {:induction false} InsertDescSorted<T>(x: T, s: seq<T>, key: T -> int)
    requires SortedDesc(s, key)
    ensures SortedDesc(InsertDesc(x, s, key), key)
  {
    if s != [] && key(x) < key(s[0]) {
      InsertDescSorted(x, s[1..], key);
      var t := InsertDesc(x, s[1..], key);
      assert t[0] in multiset(t);
      assert multiset(t) == multiset(s[1..]) + multiset{x};
      assert t[0] == x || t[0] in s[1..];
    }
  }

  /** `ORDER BY … DESC` really orders, and only reorders. */
  lemma SortDescCorrect<T>(s: seq<T>, key: T -> int)
    ensures SortedDesc(SortDesc(s, key), key)
    ensures multiset(SortDesc(s, key)) == multiset(s)
    ensures |SortDesc(s, key)| == |s|
  {
    SortDescSorted(s, key);
    SortDescPermutes(s, key);
  }

  lemma {:induction false} SortDescSorted<T>(s: seq<T>, key: T -> int)
    ensures SortedDesc(SortDesc(s, key), key)
  {
    if s != [] {
      SortDescSorted(s[1..], key);
      InsertDescSorted(s[0], SortDesc(s[1..], key), key);
    }
  }

  lemma {:induction false} SortDescPermutes<T>(s: seq<T>, key: T -> int)
    ensures multiset(SortDesc(s, key)) == multiset(s)
    ensures |SortDesc(s, key)| == |s|
  {
    if s != [] {
      SortDescPermutes(s[1..], key);
      assert s == [s[0]] + s[1..];
    }
  }

  /** `ORDER BY key DESC LIMIT n` */
  function NewestFirst<T>(s: seq<T>, key: T -> int, limit: nat): (r: seq<T>)
  {
    PyStr.Take(SortDesc(s, key), limit)
  }

  /**
   * `ORDER BY key DESC LIMIT n` returns min(n, |s|) of the rows, newest first,
   * and every row it leaves out is no newer than every row it returns.
   */
  lemma NewestFirstCorrect<T>(s: seq<T>, key: T -> int, limit: nat)
    ensures var r := NewestFirst(s, key, limit);
      && |r| == (if limit < |s| then limit else |s|)
      && SortedDesc(r, key)
      && multiset(r) <= multiset(s)
      && forall x, i :: x in multiset(s) - multiset(r) && 0 <= i < |r| ==> key(x) <= key(r[i])
  {
    var t := SortDesc(s, key);
    SortDescCorrect(s, key);
    var n := |NewestFirst(s, key, limit)|;
    TakeSplit(t, limit);
    NewerThanRest(t, n, key);
  }

  /** `t` is its first `limit` elements followed by the rest. */
  lemma TakeSplit<T>(t: seq<T>, limit: nat)
    ensures var r := PyStr.Take(t, limit);
      && |r| == (if limit < |t| then limit else |t|)
      && t == r + t[|r|..]
      && multiset(t) == multiset(r) + multiset(t[|r|..])
  {
    var r := PyStr.Take(t, limit);
    assert t == r + t[|r|..];
  }

  /** Below the limit, `ORDER BY key DESC LIMIT n` returns every row. */
  lemma NewestFirstShort<T>(s: seq<T>, key: T -> int, limit: nat)
    requires |NewestFirst(s, key, limit)| < limit
    ensures multiset(NewestFirst(s, key, limit)) == multiset(s)
  {
    var t := SortDesc(s, key);
    assert PyStr.SliceBound(limit, |t|) == |t|;
    assert NewestFirst(s, key, limit) == t;
    SortDescPermutes(s, key);
  }

  /** In a descending list, every element past position `n` is no newer than any before it. */
  lemma NewerThanRest<T>(t: seq<T>, n: nat, key: T -> int)
    requires SortedDesc(t, key) && n <= |t|
    ensures SortedDesc(t[..n], key)
    ensures forall x, i :: x in multiset(t[n..]) && 0 <= i < n ==> key(x) <= key(t[i])
  {
    forall x, i | x in multiset(t[n..]) && 0 <= i < n ensures key(x) <= key(t[i]) {
      var j :| 0 <= j < |t[n..]| && t[n..][j] == x;
      assert t[n + j] == x;
    }
  }

  // ---------------------------------------------------------------------
  // WHERE clauses
  // ---------------------------------------------------------------------

  /**
   * `column ILIKE '%pattern%'`, the filter string pasted into the pattern
   * as it is (its own `%`, `_` and `\\` keep their meaning); a NULL column
   * matches nothing.
   */
  predicate ILikeContains(column: Option<string>, pattern: string)
  {
    column.Some? && SqlLike.ILike(column.value, "%" + pattern + "%")
  }

  /** The optional author/tag filters of `get_medium_articles`; an empty filter is ignored. */
  predicate MediumMatches(a: MediumArticle, author: string, tag: string)
  {
    (author == [] || ILikeContains(a.author, author)) && (tag == [] || ILikeContains(a.tags, tag))
  }

  function FilterMedium(rows: seq<MediumArticle>, author: string, tag: string): (r: seq<MediumArticle>)
    ensures forall x :: x in r <==> x in rows && MediumMatches(x, author, tag)
    ensures multiset(r) <= multiset(rows)
  {
    if rows == [] then []
    else
      assert rows == [rows[0]] + rows[1..];
      (if MediumMatches(rows[0], author, tag) then [rows[0]] else []) + FilterMedium(rows[1..], author, tag)
  }

  function FilterSubreddit(rows: seq<RedditPost>, subreddit: string): (r: seq<RedditPost>)
    ensures forall x :: x in r <==> x in rows && x.subreddit == subreddit
    ensures multiset(r) <= multiset(rows)
  {
    if rows == [] then []
    else
      assert rows == [rows[0]] + rows[1..];
      (if rows[0].subreddit == subreddit then [rows[0]] else []) + FilterSubreddit(rows[1..], subreddit)
  }

  function PublishedDate(a: MediumArticle): int { a.publishedDate }
  function CreatedUtc(p: RedditPost): int { p.createdUtc }

  /** `get_medium_articles(limit, author, tag)` */
  function MediumArticlesQuery(rows: seq<MediumArticle>, limit: nat, author: string, tag: string): seq<MediumArticle>
  {
    NewestFirst(FilterMedium(rows, author, tag), PublishedDate, limit)
  }

  /** `get_posts_by_subreddit(subreddit, limit)` */
  function PostsBySubredditQuery(rows: seq<RedditPost>, subreddit: string, limit: nat): seq<RedditPost>
  {
    NewestFirst(FilterSubreddit(rows, subreddit), CreatedUtc, limit)
  }

  /**
   * `get_medium_articles` returns at most `limit` stored articles, all matching
   * the filters, newest first; fewer than `limit` only when that is all of them.
   */
  lemma MediumArticlesQueryCorrect(rows: seq<MediumArticle>, limit: nat, author: string, tag: string)
    ensures var r := MediumArticlesQuery(rows, limit, author, tag);
      && |r| <= limit
      && (forall i :: 0 <= i < |r| ==> r[i] in rows && MediumMatches(r[i], author, tag))
      && (forall i, j :: 0 <= i < j < |r| ==> r[i].publishedDate >= r[j].publishedDate)
      && (|r| < limit ==> multiset(r) == multiset(FilterMedium(rows, author, tag)))
  {
    var f := FilterMedium(rows, author, tag);
    var r := NewestFirst(f, PublishedDate, limit);
    NewestFirstCorrect(f, PublishedDate, limit);
    if |r| < limit {
      NewestFirstShort(f, PublishedDate, limit);
    }
    forall i | 0 <= i < |r| ensures r[i] in rows && MediumMatches(r[i], author, tag) {
      assert r[i] in multiset(r);
    }
    forall i, j | 0 <= i < j < |r| ensures r[i].publishedDate >= r[j].publishedDate {
      assert PublishedDate(r[i]) >= PublishedDate(r[j]);
    }
  }

  /** `get_posts_by_subreddit` returns at most `limit` posts of exactly that subreddit, newest first. */
  lemma PostsBySubredditQueryCorrect(rows: seq<RedditPost>, subreddit: string, limit: nat)
    ensures var r := PostsBySubredditQuery(rows, subreddit, limit);
      && |r| <= limit
      && (forall i :: 0 <= i < |r| ==> r[i] in rows && r[i].subreddit == subreddit)
      && (forall i, j :: 0 <= i < j < |r| ==> r[i].createdUtc >= r[j].createdUtc)
      && (|r| < limit ==> multiset(r) == multiset(FilterSubreddit(rows, subreddit)))
  {
    var f := FilterSubreddit(rows, subreddit);
    var r := NewestFirst(f, CreatedUtc, limit);
    NewestFirstCorrect(f, CreatedUtc, limit);
    if |r| < limit {
      NewestFirstShort(f, CreatedUtc, limit);
    }
    forall i | 0 <= i < |r| ensures r[i] in rows && r[i].subreddit == subreddit {
      assert r[i] in multiset(r);
    }
    forall i, j | 0 <= i < j < |r| ensures r[i].createdUtc >= r[j].createdUtc {
      assert CreatedUtc(r[i]) >= CreatedUtc(r[j]);
    }
  }

  /** A filter without wildcards matches exactly the columns that contain it, ignoring case. */
  lemma ILikeContainsSubstring(column: Option<string>, pattern: string)
    requires SqlLike.Literal(pattern)
    ensures ILikeContains(column, pattern) <==>
      column.Some? && PyStr.Contains(PyStr.Lower(column.value), PyStr.Lower(pattern))
  {
    if column.Some? {
      SqlLike.ILikeContains(column.value, pattern);
    }
  }

  /** A column holding a tag between double quotes matches that tag, when it has no wildcard. */
  lemma QuotedTagFound(c: string, t: string)
    requires SqlLike.Literal(t) && PyStr.Contains(c, "\"" + t + "\"")
    ensures ILikeContains(Some(c), t)
  {
    var i :| PyStr.OccursAt(c, "\"" + t + "\"", i);
    PyStr.OccursInside(c, [], [], "\"", t, "\"", i);
    assert [] + c + [] == c;
    PyStr.LowerOccurs(c, t, i + 1);
    ILikeContainsSubstring(Some(c), t);
  }

  /**
   * An article stored with a list of tags is found by the tag filter for any
   * of its tags that `json.dumps` writes unchanged (printable ASCII other
   * than `"` and `\`) and that holds no wildcard.
   */
  lemma TagFilterFindsListedTag(a: MediumInput, k: nat)
    requires a.tags.TagList? && k < |a.tags.items|
    requires var t := a.tags.items[k];
      t != [] && SqlLike.Literal(t) && forall i :: 0 <= i < |t| ==> Unescaped(t[i], true)
    ensures MediumMatches(ToMediumRow(a), [], a.tags.items[k])
  {
    var t := a.tags.items[k];
    assert JsonQuote(t, true) == "\"" + t + "\"";
    QuotedTagFound(TagsColumn(a.tags).value, t);
  }

  /** Lower-casing keeps a character inside or outside printable ASCII. */
  lemma LowerKeepsAscii(c: char)
    ensures (' ' <= PyStr.LowerChar(c) <= '~') <==> (' ' <= c <= '~')
  {
  }

  lemma LowerPrintable(s: string)
    requires Printable(s)
    ensures Printable(PyStr.Lower(s))
  {
    forall i | 0 <= i < |s| ensures ' ' <= PyStr.Lower(s)[i] <= '~' {
      LowerKeepsAscii(s[i]);
    }
  }

  /** A printable-ASCII text contains no string with a character outside printable ASCII. */
  lemma NotContainsOutside(s: string, p: string, m: nat)
    requires Printable(s) && m < |p| && !(' ' <= p[m] <= '~')
    ensures !PyStr.Contains(s, p)
  {
    forall i | 0 <= i <= |s| - |p| ensures !PyStr.OccursAt(s, p, i) {
      assert s[i..i + |p|][m] == s[i + m];
    }
  }

  /**
   * As written, a tag with any character beyond ASCII (a Cyrillic tag, say)
   * never matches an article whose tags were stored as a list: the stored
   * list holds that character only as a `\uXXXX` escape.
   */
  lemma NonAsciiTagNeverFound(a: MediumInput, tag: string, m: nat)
    requires a.tags.TagList? && SqlLike.Literal(tag)
    requires m < |tag| && tag[m] > '~'
    ensures !MediumMatches(ToMediumRow(a), [], tag)
  {
    var c := TagsColumn(a.tags).value;
    LowerPrintable(c);
    LowerKeepsAscii(tag[m]);
    NotContainsOutside(PyStr.Lower(c), PyStr.Lower(tag), m);
    ILikeContainsSubstring(Some(c), tag);
  }

  /** The Russian tag "ИИ" stored in a list is not found by the filter "ИИ". */
  lemma CyrillicTagNotFound(a: MediumInput)
    requires a.tags == TagList(["ИИ"])
    ensures !MediumMatches(ToMediumRow(a), [], "ИИ")
  {
    NonAsciiTagNeverFound(a, "ИИ", 0);
  }

  /**
   * With the list stored as `ensure_ascii=False` writes it, every listed tag
   * without `"`, `\`, control characters or wildcards is found, whatever its
   * alphabet.
   */
  lemma IntendedTagFilterFindsListedTag(a: MediumInput, k: nat)
    requires a.tags.TagList? && k < |a.tags.items|
    requires var t := a.tags.items[k];
      t != [] && SqlLike.Literal(t) && forall i :: 0 <= i < |t| ==> Unescaped(t[i], false)
    ensures MediumMatches(ToMediumRowIntended(a), [], a.tags.items[k])
  {
    var t := a.tags.items[k];
    assert JsonQuote(t, false) == "\"" + t + "\"";
    QuotedTagFound(TagsColumnIntended(a.tags).value, t);
  }

  /** Stored the intended way, the tag "ИИ" is found. */
  lemma CyrillicTagFoundIntended(a: MediumInput)
    requires a.tags == TagList(["ИИ"])
    ensures MediumMatches(ToMediumRowIntended(a), [], "ИИ")
  {
    IntendedTagFilterFindsListedTag(a, 0);
  }

  // ---------------------------------------------------------------------
  // Keys
  // ---------------------------------------------------------------------

  predicate HasPostId(rows: seq<RedditPost>, id: string)
  {
    exists i | 0 <= i < |rows| :: rows[i].postId == id
  }

  predicate HasMessage(rows: seq<TelegramMessage>, messageId: int, channel: string)
  {
    exists i | 0 <= i < |rows| :: rows[i].messageId == messageId && rows[i].channelUsername == channel
  }

  predicate HasUrl(rows: seq<MediumArticle>, url: string)
  {
    exists i | 0 <= i < |rows| :: rows[i].url == url
  }

  /** Latest `scraped_at` of a table, `None` when it is empty (`ORDER BY scraped_at DESC` + `first()`). */
  function Latest(times: seq<int>): (r: Option<int>)
    ensures r.None? <==> times == []
    ensures r.Some? ==> r.value in times && forall t :: t in times ==> t <= r.value
  {
    if times == [] then None
    else
      var rest := Latest(times[1..]);
      assert times == [times[0]] + times[1..];
      if rest.Some? && rest.value > times[0] then rest else Some(times[0])
  }
}
