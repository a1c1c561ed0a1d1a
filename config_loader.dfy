/**
 * The source lists (src/config_loader.py): `SourceConfig` reads a JSON
 * document of sections ("reddit", "medium", "telegram"), each holding named
 * lists of entries, and answers the scrapers' questions about it. The JSON
 * document is modelled as nested maps; an entry is a dictionary of strings.
 */
module ConfigLoader {
  import opened Wrappers
  import opened PyStr
  import Singleton

  type Entry = map<string, string>

  /** The parsed `sources.json`: section name, then list name, then entries. */
  type Document = map<string, map<string, seq<Entry>>>

  /** `config.get(section, {}).get(list, [])` */
  function ListOf(doc: Document, section: string, list: string): (r: seq<Entry>)
    ensures section !in doc || list !in doc[section] ==> r == []
  {
    if section in doc && list in doc[section] then doc[section][list] else []
  }

  /**
   * `[e for e in entries if e.get('category') == category]` when `category`
   * is non-empty; an empty category (or `None`) selects everything.
   */
  function Select(entries: seq<Entry>, category: string): seq<Entry>
    decreases |entries|
  {
    if category == [] || entries == [] then entries
    else
      var init := Select(entries[..|entries| - 1], category);
      var last := entries[|entries| - 1];
      if "category" in last && last["category"] == category then init + [last] else init
  }

  /** With a category, an entry is selected exactly when it is listed with that category. */
  lemma {:induction false} SelectMembers(entries: seq<Entry>, category: string)
    requires category != []
    ensures forall e :: e in Select(entries, category) <==> e in entries && "category" in e && e["category"] == category
    decreases |entries|
  {
    if entries != [] {
      var init := entries[..|entries| - 1];
      SelectMembers(init, category);
      assert entries == init + [entries[|entries| - 1]];
    }
  }

  /** The selected entries keep their file order. */
  lemma {:induction false} SelectOrder(entries: seq<Entry>, category: string)
    ensures SubseqOf(Select(entries, category), entries)
    decreases |entries|
  {
    if category == [] {
      SubseqRefl(entries);
    } else if entries != [] {
      var init := entries[..|entries| - 1];
      var last := entries[|entries| - 1];
      SelectOrder(init, category);
      var s := Select(entries, category);
      if "category" in last && last["category"] == category {
        assert s[..|s| - 1] == Select(init, category);
      } else {
        SubseqDropLast(s, entries);
      }
    }
  }

  /**
   * The selection keeps exactly the entries of the requested category, in
   * their file order; with no category it keeps everything.
   */
  lemma SelectSpec(entries: seq<Entry>, category: string)
    ensures category == [] ==> Select(entries, category) == entries
    ensures category != [] ==> forall e :: e in Select(entries, category) <==>
      e in entries && "category" in e && e["category"] == category
    ensures SubseqOf(Select(entries, category), entries)
  {
    if category != [] {
      SelectMembers(entries, category);
    }
    SelectOrder(entries, category);
  }

  /** Every sequence is a subsequence of itself. */
  lemma {:induction false} SubseqRefl<T>(xs: seq<T>)
    ensures SubseqOf(xs, xs)
    decreases |xs|
  {
    if xs != [] {
      SubseqRefl(xs[..|xs| - 1]);
    }
  }

  /** A subsequence of the first part of `b` is a subsequence of `b`. */
  lemma {:induction false} SubseqDropLast<T>(a: seq<T>, b: seq<T>)
    requires b != [] && SubseqOf(a, b[..|b| - 1])
    ensures SubseqOf(a, b)
    decreases |b|, |a|
  {
    if a != [] && a[|a| - 1] == b[|b| - 1] {
      SubseqShrink(a, b[..|b| - 1]);
    }
  }

  /** Dropping the last element of `a` keeps it a subsequence. */
  lemma {:induction false} SubseqShrink<T>(a: seq<T>, b: seq<T>)
    requires a != [] && SubseqOf(a, b)
    ensures SubseqOf(a[..|a| - 1], b)
    decreases |b|, |a|
  {
    if b != [] {
      if a[|a| - 1] == b[|b| - 1] {
        SubseqDropLast(a[..|a| - 1], b);
      } else {
        SubseqShrink(a, b[..|b| - 1]);
        SubseqDropLast(a[..|a| - 1], b);
      }
    }
  }

  /**
   * `[e[key] for e in entries]`: `None` when an entry lacks the key (the
   * KeyError), otherwise the values in order.
   */
  function Field(entries: seq<Entry>, key: string): (r: Option<seq<string>>)
    ensures r.Some? <==> forall i :: 0 <= i < |entries| ==> key in entries[i]
    ensures r.Some? ==> |r.value| == |entries| && forall i :: 0 <= i < |entries| ==> r.value[i] == entries[i][key]
    decreases |entries|
  {
    if entries == [] then Some([])
    else
      var init := entries[..|entries| - 1];
      var last := entries[|entries| - 1];
      var r := Field(init, key);
      assert forall i :: 0 <= i < |init| ==> init[i] == entries[i];
      if key !in last || r.None? then None else Some(r.value + [last[key]])
  }

  /** Python's ordering of strings: code point by code point, a prefix first. */
  predicate Below(a: string, b: string)
    decreases |a|
  {
    if a == [] then b != []
    else if b == [] then false
    else if a[0] == b[0] then Below(a[1..], b[1..])
    else a[0] < b[0]
  }

  /** No string is below itself, and two distinct strings are ordered one way or the other. */
  lemma {:induction false} BelowTotal(a: string, b: string)
    ensures !Below(a, a)
    ensures a != b ==> Below(a, b) != Below(b, a)
    decreases |a|
  {
    if a != [] {
      BelowTotal(a[1..], a[1..]);
      if b != [] && a[0] == b[0] {
        BelowTotal(a[1..], b[1..]);
        assert a != b ==> a[1..] != b[1..] by {
          if a[1..] == b[1..] {
            assert a == [a[0]] + a[1..] && b == [b[0]] + b[1..];
          }
        }
      }
    }
  }

  /** The ordering is transitive. */
  lemma {:induction false} BelowTrans(a: string, b: string, c: string)
    requires Below(a, b) && Below(b, c)
    ensures Below(a, c)
    decreases |a|
  {
    if a != [] && a[0] == b[0] && b[0] == c[0] {
      BelowTrans(a[1..], b[1..], c[1..]);
    }
  }

  /** Strictly increasing: sorted and without repeats. */
  predicate Increasing(xs: seq<string>)
  {
    forall i, j :: 0 <= i < j < |xs| ==> Below(xs[i], xs[j])
  }

  /** Inserting one string into an increasing list. */
  function Insert(xs: seq<string>, x: string): (r: seq<string>)
    requires Increasing(xs)
    ensures Increasing(r)
    ensures forall y :: y in r <==> y in xs || y == x
    decreases |xs|
  {
    if xs == [] then [x]
    else if x == xs[0] then xs
    else if Below(x, xs[0]) then
      assert forall j :: 0 < j < |xs| ==> Below(xs[0], xs[j]);
      forall j | 0 < j < |xs| ensures Below(x, xs[j]) {
        BelowTrans(x, xs[0], xs[j]);
      }
      [x] + xs
    else
      BelowTotal(x, xs[0]);
      var rest := Insert(xs[1..], x);
      assert forall y :: y in rest ==> Below(xs[0], y) by {
        forall y | y in rest ensures Below(xs[0], y) {
          if y != x {
            var j :| 0 <= j < |xs[1..]| && xs[1..][j] == y;
            assert xs[j + 1] == y;
          }
        }
      }
      [xs[0]] + rest
  }

  /** `sorted(set(xs))` */
  function SortedSet(xs: seq<string>): (r: seq<string>)
    ensures Increasing(r)
    ensures forall y :: y in r <==> y in xs
    decreases |xs|
  {
    if xs == [] then []
    else
      var init := SortedSet(xs[..|xs| - 1]);
      assert forall y :: y in xs <==> y in xs[..|xs| - 1] || y == xs[|xs| - 1] by {
        assert xs == xs[..|xs| - 1] + [xs[|xs| - 1]];
      }
      Insert(init, xs[|xs| - 1])
  }

  /**
   * An increasing list is determined by its elements: `sorted(set(xs))` is
   * the only increasing list holding exactly the elements of `xs`.
   */
  lemma {:induction false} IncreasingUnique(a: seq<string>, b: seq<string>)
    requires Increasing(a) && Increasing(b)
    requires forall y :: y in a <==> y in b
    ensures a == b
    decreases |a|
  {
    if a != [] && b != [] {
      assert a[0] in b;
      assert b[0] in a;
      if a[0] != b[0] {
        var i :| 0 <= i < |a| && a[i] == b[0];
        var j :| 0 <= j < |b| && b[j] == a[0];
        assert Below(a[0], b[0]);
        assert Below(b[0], a[0]);
        BelowTotal(a[0], b[0]);
        assert false;
      }
      forall y ensures y in a[1..] <==> y in b[1..] {
        BelowTotal(a[0], a[0]);
        if y in a[1..] {
          var i :| 0 <= i < |a[1..]| && a[1..][i] == y;
          assert Below(a[0], a[i + 1]);
          assert y in b && y != b[0];
          var j :| 0 <= j < |b| && b[j] == y;
          assert j != 0;
          assert b[1..][j - 1] == y;
        }
        if y in b[1..] {
          var j :| 0 <= j < |b[1..]| && b[1..][j] == y;
          assert Below(b[0], b[j + 1]);
          assert y in a && y != a[0];
          var i :| 0 <= i < |a| && a[i] == y;
          assert i != 0;
          assert a[1..][i - 1] == y;
        }
      }
      IncreasingUnique(a[1..], b[1..]);
      assert a == [a[0]] + a[1..] && b == [b[0]] + b[1..];
    } else if a != [] {
      HeadIsMember(a);
      assert false;
    } else if b != [] {
      HeadIsMember(b);
      assert false;
    }
  }

  /** The first element of a non-empty list is one of its elements. */
  lemma HeadIsMember(xs: seq<string>)
    requires xs != []
    ensures xs[0] in xs
  {
  }

  /** `e.get('category', 'other')` for every entry. */
  function Categories(entries: seq<Entry>): (r: seq<string>)
    ensures |r| == |entries|
    ensures forall i :: 0 <= i < |entries| ==>
      r[i] == if "category" in entries[i] then entries[i]["category"] else "other"
    decreases |entries|
  {
    if entries == [] then []
    else
      var e := entries[0];
      [if "category" in e then e["category"] else "other"] + Categories(entries[1..])
  }

  /** `f"Конфиг не найден: {path}"` */
  function NotFound(path: string): string
  {
    "Конфиг не найден: " + path
  }

  /** A loaded `SourceConfig`: the path it was read from and the parsed document. */
  class SourceConfig {
    var path: string
    var doc: Document

    constructor(path: string, doc: Document)
      ensures this.path == path && this.doc == doc
    {
      this.path := path;
      this.doc := doc;
    }

    /**
     * `reload()`: re-read the file; a missing file raises FileNotFoundError
     * and leaves the loaded document as it was. `files` maps the existing
     * paths to their parsed contents.
     */
    method Reload(files: map<string, Document>) returns (r: Result<(), string>)
      modifies this
      ensures path == old(path)
      ensures old(path) in files ==> r.Ok? && doc == files[old(path)]
      ensures old(path) !in files ==> r == Err(NotFound(old(path))) && doc == old(doc)
    {
      if path !in files {
        return Err(NotFound(path));
      }
      doc := files[path];
      return Ok(());
    }

    /** `get_reddit_subreddits(category)`; `None` stands for the KeyError of an entry without a name. */
    function RedditSubreddits(category: string): (r: Option<seq<string>>)
      reads this
    {
      Field(Select(ListOf(doc, "reddit", "subreddits"), category), "name")
    }

    /** `get_reddit_categories()` */
    function RedditCategories(): (r: seq<string>)
      reads this
      ensures Increasing(r)
      ensures forall c :: c in r <==> exists e :: (e in ListOf(doc, "reddit", "subreddits") &&
                                                   c == (if "category" in e then e["category"] else "other"))
    {
      var subs := ListOf(doc, "reddit", "subreddits");
      var cats := Categories(subs);
      assert forall c :: c in cats <==> exists e :: (e in subs &&
                                                     c == (if "category" in e then e["category"] else "other")) by {
        forall c ensures c in cats ==> exists e :: (e in subs &&
                                                    c == (if "category" in e then e["category"] else "other")) {
          if c in cats {
            var i :| 0 <= i < |cats| && cats[i] == c;
            assert subs[i] in subs;
          }
        }
        forall e | e in subs ensures (if "category" in e then e["category"] else "other") in cats {
          var i :| 0 <= i < |subs| && subs[i] == e;
          assert cats[i] == (if "category" in e then e["category"] else "other");
        }
      }
      SortedSet(cats)
    }

    /** `get_medium_tags(category)` */
    function MediumTags(category: string): (r: Option<seq<string>>)
      reads this
    {
      Field(Select(ListOf(doc, "medium", "tags"), category), "name")
    }

    /** `get_telegram_channels()` */
    function TelegramChannels(): (r: Option<seq<string>>)
      reads this
    {
      Field(ListOf(doc, "telegram", "channels"), "username")
    }
  }

  /**
   * The path `SourceConfig(config_path)` reads: the given one, else
   * `config/sources.json` beside `src`, else the one inside `src`.
   */
  function ChosenPath(configPath: Option<string>, rootPath: string, srcPath: string,
                      files: map<string, Document>): string
  {
    if configPath.Some? then configPath.value
    else if rootPath in files then rootPath
    else srcPath
  }

  /** `SourceConfig(config_path)`: the loaded object, or FileNotFoundError for the chosen path. */
  method Open(configPath: Option<string>, rootPath: string, srcPath: string, files: map<string, Document>)
    returns (r: Result<SourceConfig, string>)
    ensures var p := ChosenPath(configPath, rootPath, srcPath, files);
      && (r.Ok? <==> p in files)
      && (r.Ok? ==> fresh(r.value) && r.value.path == p && r.value.doc == files[p])
      && (r.Err? ==> r.error == NotFound(p))
  {
    var p := ChosenPath(configPath, rootPath, srcPath, files);
    if p !in files {
      return Err(NotFound(p));
    }
    var c := new SourceConfig(p, files[p]);
    return Ok(c);
  }

  /**
   * Module-level `get_config()`: the shared instance, built from the
   * default paths on the first call; a FileNotFoundError leaves it unset.
   */
  method GetConfig(cell: Singleton.Lazy<SourceConfig>, rootPath: string, srcPath: string,
                   files: map<string, Document>) returns (r: Result<SourceConfig, string>)
    modifies cell
    ensures old(cell.instance).Some? ==> r == Ok(old(cell.instance).value) && cell.instance == old(cell.instance)
    ensures old(cell.instance).None? && r.Ok? ==> cell.instance == Some(r.value) && fresh(r.value)
    ensures old(cell.instance).None? && r.Err? ==> cell.instance.None?
    ensures old(cell.instance).None? ==> (r.Ok? <==> ChosenPath(None, rootPath, srcPath, files) in files)
  {
    if cell.instance.Some? {
      return Ok(cell.instance.value);
    }
    r := Open(None, rootPath, srcPath, files);
    if r.Ok? {
      cell.instance := Some(r.value);
    }
  }

  /**
   * The reddit getter: with a category, exactly the names of the entries of
   * that category in file order; without one, every name; a missing section
   * gives the empty list.
   */
  lemma SubredditsSpec(c: SourceConfig, category: string)
    ensures var subs := ListOf(c.doc, "reddit", "subreddits");
      && (category == [] ==> c.RedditSubreddits(category) == Field(subs, "name"))
      && ("reddit" !in c.doc ==> c.RedditSubreddits(category) == Some([]))
      && (c.RedditSubreddits(category).Some? ==>
            forall n :: n in c.RedditSubreddits(category).value <==>
              exists e :: e in Select(subs, category) && e["name"] == n)
  {
    var subs := ListOf(c.doc, "reddit", "subreddits");
    SelectSpec(subs, category);
    var sel := Select(subs, category);
    var r := c.RedditSubreddits(category);
    if r.Some? {
      forall n ensures n in r.value <==> exists e :: e in sel && e["name"] == n {
        if n in r.value {
          var i :| 0 <= i < |r.value| && r.value[i] == n;
          assert sel[i] in sel && sel[i]["name"] == n;
        }
        if exists e :: e in sel && e["name"] == n {
          var e :| e in sel && e["name"] == n;
          var i :| 0 <= i < |sel| && sel[i] == e;
          assert r.value[i] == n;
        }
      }
    }
    if "reddit" !in c.doc {
      assert Select([], category) == [];
    }
  }

  /** A category filter only ever shortens the list of names, keeping their order. */
  lemma {:induction false} FilterKeepsOrder(entries: seq<Entry>, category: string)
    requires Field(entries, "name").Some?
    ensures Field(Select(entries, category), "name").Some?
    ensures SubseqOf(Field(Select(entries, category), "name").value, Field(entries, "name").value)
    decreases |entries|
  {
    if category == [] {
      SubseqRefl(Field(entries, "name").value);
    } else if entries != [] {
      var init := entries[..|entries| - 1];
      var last := entries[|entries| - 1];
      assert init[..] == init;
      assert forall i :: 0 <= i < |init| ==> init[i] == entries[i];
      FilterKeepsOrder(init, category);
      var full := Field(entries, "name").value;
      var sel := Field(Select(entries, category), "name").value;
      assert full[..|full| - 1] == Field(init, "name").value;
      assert full[|full| - 1] == last["name"];
      if "category" in last && last["category"] == category {
        assert Select(entries, category) == Select(init, category) + [last];
        assert sel[..|sel| - 1] == Field(Select(init, category), "name").value;
        assert sel[|sel| - 1] == last["name"];
      } else {
        assert sel == Field(Select(init, category), "name").value;
        SubseqDropLast(sel, full);
      }
    }
  }

  /** The Medium getter filters the same way: entries of the category, in file order. */
  lemma MediumTagsSpec(c: SourceConfig, category: string)
    ensures var tags := ListOf(c.doc, "medium", "tags");
      && (category == [] ==> c.MediumTags(category) == Field(tags, "name"))
      && ("medium" !in c.doc ==> c.MediumTags(category) == Some([]))
      && (Field(tags, "name").Some? ==>
            c.MediumTags(category).Some? && SubseqOf(c.MediumTags(category).value, Field(tags, "name").value))
  {
    var tags := ListOf(c.doc, "medium", "tags");
    SelectSpec(tags, category);
    if Field(tags, "name").Some? {
      FilterKeepsOrder(tags, category);
    }
    if "medium" !in c.doc {
      assert Select([], category) == [];
    }
  }

  /**
   * The channel list is every channel's username in file order; a missing
   * section gives the empty list, and a channel without a username raises
   * KeyError (`None` here).
   */
  lemma TelegramChannelsSpec(c: SourceConfig)
    ensures var chans := ListOf(c.doc, "telegram", "channels");
      && ("telegram" !in c.doc ==> c.TelegramChannels() == Some([]))
      && (c.TelegramChannels().None? <==> exists e :: e in chans && "username" !in e)
      && (c.TelegramChannels().Some? ==>
            |c.TelegramChannels().value| == |chans| &&
            forall i :: 0 <= i < |chans| ==> c.TelegramChannels().value[i] == chans[i]["username"])
  {
    var chans := ListOf(c.doc, "telegram", "channels");
    if exists e :: e in chans && "username" !in e {
      var e :| e in chans && "username" !in e;
      var i :| 0 <= i < |chans| && chans[i] == e;
    }
  }

  /** The category list is the one increasing list of the distinct categories. */
  lemma CategoriesSpec(c: SourceConfig, r: seq<string>)
    requires Increasing(r)
    requires forall x :: x in r <==> x in Categories(ListOf(c.doc, "reddit", "subreddits"))
    ensures c.RedditCategories() == r
  {
    var cats := Categories(ListOf(c.doc, "reddit", "subreddits"));
    IncreasingUnique(SortedSet(cats), r);
  }
}
