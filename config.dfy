/**
 * The application configuration (src/config/config.py): the hand-written
 * `.env` loader, the typed environment getters, the PostgreSQL URL, the
 * required-variable check of `load_config`, the cached `get_config`
 * singleton and `validate_config`'s report. The process environment
 * (`os.environ`) is a class holding a map that the loader updates.
 */
module Config {
  import opened Wrappers
  import opened PyStr
  import Singleton

  type Env = map<string, string>

  /** `os.getenv(key, default)` */
  function Getenv(env: Env, key: string, default: string): (r: string)
    ensures key in env ==> r == env[key]
    ensures key !in env ==> r == default
  {
    if key in env then env[key] else default
  }

  // ---------------------------------------------------------------------
  // The `.env` line parser

  predicate IsQuote(c: char)
  {
    c == '"' || c == '\''
  }

  /**
   * The quote loop: when the value starts and ends with the same quote
   * character, `value[1:-1]`; a lone quote character becomes empty.
   */
  function Unquote(v: string): string
  {
    if v != [] && IsQuote(v[0]) && v[|v| - 1] == v[0] then
      (if |v| >= 2 then v[1..|v| - 1] else [])
    else v
  }

  /**
   * One line of a `.env` file: `None` for a blank line, a comment or a line
   * without '='; otherwise the stripped key before the first '=' and the
   * stripped, unquoted value after it.
   */
  function ParseLine(line: string): (r: Option<(string, string)>)
    ensures r.Some? <==> Strip(line) != [] && Strip(line)[0] != '#' && '=' in Strip(line)
    ensures r.Some? ==> '=' !in r.value.0
  {
    var l := Strip(line);
    if l == [] || l[0] == '#' || '=' !in l then None
    else
      var i := Find(l, '=');
      StripChars(l[..i]);
      Some((Strip(l[..i]), Unquote(Strip(l[i + 1..]))))
  }

  /** Every character `strip` keeps was in the original string. */
  lemma StripChars(s: string)
    ensures forall c :: c in Strip(s) ==> c in s
  {
    LStripSpec(s);
    RStripSpec(LStrip(s));
  }

  /** A string without surrounding whitespace is left alone by `strip`. */
  lemma StripNoop(s: string)
    requires s == [] || (!IsSpace(s[0]) && !IsSpace(s[|s| - 1]))
    ensures Strip(s) == s
  {
  }

  /** A key that survives the parser unchanged. */
  predicate CleanKey(k: string)
  {
    k != [] && '=' !in k && k[0] != '#' && !IsSpace(k[0]) && !IsSpace(k[|k| - 1])
  }

  /**
   * Round trip: writing `KEY=value` and parsing it back yields the pair,
   * for a clean key and an unquoted value without surrounding whitespace.
   */
  lemma FormatParse(k: string, v: string)
    requires CleanKey(k)
    requires v == [] || (!IsSpace(v[0]) && !IsSpace(v[|v| - 1]) && !IsQuote(v[0]))
    ensures ParseLine(k + "=" + v) == Some((k, v))
  {
    var line := k + "=" + v;
    assert line[0] == k[0];
    assert line[|line| - 1] == if v == [] then '=' else v[|v| - 1];
    StripNoop(line);
    assert line[|k|] == '=';
    FindPast(k, '=', v);
    assert line[..|k|] == k;
    assert line[|k| + 1..] == v;
    StripNoop(k);
    StripNoop(v);
  }

  /**
   * Round trip for a quoted value: `KEY="value"` (or single quotes) parses
   * back to exactly the text between the quotes, surrounding blanks included.
   */
  lemma FormatParseQuoted(k: string, v: string, q: char)
    requires CleanKey(k) && IsQuote(q)
    ensures ParseLine(k + "=" + ([q] + v + [q])) == Some((k, v))
  {
    var w := [q] + v + [q];
    var line := k + "=" + w;
    assert line[0] == k[0];
    assert line[|line| - 1] == q;
    StripNoop(line);
    assert line[|k|] == '=';
    FindPast(k, '=', w);
    assert line[..|k|] == k;
    assert line[|k| + 1..] == w;
    StripNoop(k);
    StripNoop(w);
    assert w[1..|w| - 1] == v;
  }

  /** Blank lines and comments never assign anything. */
  lemma CommentsIgnored(line: string)
    requires Strip(line) == [] || Strip(line)[0] == '#'
    ensures ParseLine(line) == None
  {
  }

  // ---------------------------------------------------------------------
  // Applying the lines of one file

  /**
   * Whether `os.environ[key] = value` accepts the pair: an empty name is
   * refused by the operating system and a NUL character by Python.
   */
  predicate Legal(k: string, v: string)
  {
    k != [] && '\0' !in k && '\0' !in v
  }

  /** The variables after some lines, and whether every line was applied. */
  datatype Applied = Applied(vars: Env, ok: bool)

  /**
   * Applying the lines of one file in order to `vars`; the first illegal
   * assignment raises, which abandons the rest of the file.
   */
  function ApplyLines(vars: Env, lines: seq<string>): Applied
    decreases |lines|
  {
    if lines == [] then Applied(vars, true)
    else
      var a := ApplyLines(vars, lines[..|lines| - 1]);
      if !a.ok then a
      else
        match ParseLine(lines[|lines| - 1])
        case None => a
        case Some(kv) =>
          if Legal(kv.0, kv.1) then Applied(a.vars[kv.0 := kv.1], true) else Applied(a.vars, false)
  }

  /** Applying lines only adds or overwrites keys. */
  lemma {:induction false} ApplyLinesGrows(vars: Env, lines: seq<string>)
    ensures vars.Keys <= ApplyLines(vars, lines).vars.Keys
    decreases |lines|
  {
    if lines != [] {
      ApplyLinesGrows(vars, lines[..|lines| - 1]);
    }
  }

  /**
   * A later assignment wins: when the file is applied completely, a key
   * holds the value of the last line that assigns it.
   */
  lemma {:induction false} LastAssignmentWins(vars: Env, lines: seq<string>, i: nat, k: string, v: string)
    requires i < |lines| && ParseLine(lines[i]) == Some((k, v))
    requires forall j :: i < j < |lines| ==> ParseLine(lines[j]).None? || ParseLine(lines[j]).value.0 != k
    requires ApplyLines(vars, lines).ok
    ensures k in ApplyLines(vars, lines).vars && ApplyLines(vars, lines).vars[k] == v
    decreases |lines|
  {
    var init := lines[..|lines| - 1];
    ApplyLast(vars, lines);
    if i < |lines| - 1 {
      forall j | i < j < |init|
        ensures ParseLine(init[j]).None? || ParseLine(init[j]).value.0 != k
      {
        assert init[j] == lines[j];
      }
      assert init[i] == lines[i];
      LastAssignmentWins(vars, init, i, k, v);
    }
  }

  /** One more line: its assignment, if any, is applied on top of the earlier lines. */
  lemma ApplyLast(vars: Env, lines: seq<string>)
    requires lines != [] && ApplyLines(vars, lines).ok
    ensures var a := ApplyLines(vars, lines[..|lines| - 1]);
      var p := ParseLine(lines[|lines| - 1]);
      && a.ok
      && (p.None? ==> ApplyLines(vars, lines).vars == a.vars)
      && (p.Some? ==> ApplyLines(vars, lines).vars == a.vars[p.value.0 := p.value.1])
  {
  }

  /** A key that no line assigns keeps its earlier value (or stays absent). */
  lemma {:induction false} UnassignedKept(vars: Env, lines: seq<string>, k: string)
    requires forall j :: 0 <= j < |lines| ==> ParseLine(lines[j]).None? || ParseLine(lines[j]).value.0 != k
    ensures k in ApplyLines(vars, lines).vars <==> k in vars
    ensures k in vars ==> ApplyLines(vars, lines).vars[k] == vars[k]
    decreases |lines|
  {
    if lines != [] {
      var init := lines[..|lines| - 1];
      forall j | 0 <= j < |init|
        ensures ParseLine(init[j]).None? || ParseLine(init[j]).value.0 != k
      {
        assert init[j] == lines[j];
      }
      UnassignedKept(vars, init, k);
    }
  }

  /** Every entry of `small` appears with the same value in `big`. */
  predicate Agrees(small: Env, big: Env)
  {
    forall k :: k in small ==> k in big && big[k] == small[k]
  }

  /**
   * `os.environ` and `env_vars_loaded` receive the same assignments, so the
   * loaded variables keep agreeing with the environment.
   */
  lemma {:induction false} ApplyKeepsAgreement(loaded: Env, environ: Env, lines: seq<string>)
    requires Agrees(loaded, environ)
    ensures ApplyLines(loaded, lines).ok == ApplyLines(environ, lines).ok
    ensures Agrees(ApplyLines(loaded, lines).vars, ApplyLines(environ, lines).vars)
    decreases |lines|
  {
    if lines != [] {
      ApplyKeepsAgreement(loaded, environ, lines[..|lines| - 1]);
    }
  }

  // ---------------------------------------------------------------------
  // `load_env_file`

  /**
   * A candidate `.env` path: absent, present with its size and lines, or
   * failing while being read after the given lines.
   */
  datatype EnvFile = Missing | Present(size: nat, lines: seq<string>) | Unreadable(linesRead: seq<string>)

  const CriticalVars: seq<string> := ["REDDIT_CLIENT_ID", "REDDIT_CLIENT_SECRET"]

  predicate HasCritical(loaded: Env)
  {
    "REDDIT_CLIENT_ID" in loaded && "REDDIT_CLIENT_SECRET" in loaded
  }

  /** The loader's verdict, the environment and the variables it loaded. */
  datatype EnvOut = EnvOut(found: bool, environ: Env, loaded: Env)

  /**
   * The search over the remaining candidate files: a missing or empty file
   * is skipped; after a file is parsed completely the loader stops with True
   * once both Reddit credentials are among the variables loaded so far; a
   * file that raises is abandoned and the search goes on.
   */
  function LoadEnv(files: seq<EnvFile>, environ: Env, loaded: Env): (r: EnvOut)
    decreases |files|
  {
    if files == [] then EnvOut(false, environ, loaded)
    else
      match files[0]
      case Missing => LoadEnv(files[1..], environ, loaded)
      case Unreadable(read) =>
        LoadEnv(files[1..], ApplyLines(environ, read).vars, ApplyLines(loaded, read).vars)
      case Present(size, lines) =>
        if size == 0 then LoadEnv(files[1..], environ, loaded)
        else
          var e := ApplyLines(environ, lines);
          var l := ApplyLines(loaded, lines);
          if !e.ok then LoadEnv(files[1..], e.vars, l.vars)
          else if HasCritical(l.vars) then EnvOut(true, e.vars, l.vars)
          else LoadEnv(files[1..], e.vars, l.vars)
  }

  /**
   * True means both Reddit credentials were loaded and are now in the
   * environment; the loaded variables agree with the environment, which
   * only gains keys.
   */
  lemma {:induction false} LoadEnvSpec(files: seq<EnvFile>, environ: Env, loaded: Env)
    requires Agrees(loaded, environ)
    ensures var r := LoadEnv(files, environ, loaded);
      && Agrees(r.loaded, r.environ)
      && environ.Keys <= r.environ.Keys
      && (r.found ==> HasCritical(r.loaded) && HasCritical(r.environ))
    decreases |files|
  {
    if files != [] {
      match files[0]
      case Missing =>
        LoadEnvSpec(files[1..], environ, loaded);
      case Unreadable(read) =>
        ApplyKeepsAgreement(loaded, environ, read);
        ApplyLinesGrows(environ, read);
        LoadEnvSpec(files[1..], ApplyLines(environ, read).vars, ApplyLines(loaded, read).vars);
      case Present(size, lines) =>
        ApplyKeepsAgreement(loaded, environ, lines);
        ApplyLinesGrows(environ, lines);
        if size != 0 {
          LoadEnvSpec(files[1..], ApplyLines(environ, lines).vars, ApplyLines(loaded, lines).vars);
        } else {
          LoadEnvSpec(files[1..], environ, loaded);
        }
    }
  }

  /** The loaded variables after one more candidate file, whether or not the search stops there. */
  function LoadStep(f: EnvFile, loaded: Env): Env
  {
    match f
    case Missing => loaded
    case Unreadable(read) => ApplyLines(loaded, read).vars
    case Present(size, lines) => if size == 0 then loaded else ApplyLines(loaded, lines).vars
  }

  /** The loaded variables after every file of `files`, none of them stopping the search. */
  function LoadedAfter(files: seq<EnvFile>, loaded: Env): Env
    decreases |files|
  {
    if files == [] then loaded else LoadedAfter(files[1..], LoadStep(files[0], loaded))
  }

  /**
   * The search stops at `f`: it is non-empty, every line of it is applied,
   * and afterwards both credentials are among the loaded variables.
   */
  predicate StopsAt(f: EnvFile, loaded: Env)
  {
    f.Present? && f.size > 0 && ApplyLines(loaded, f.lines).ok && HasCritical(ApplyLines(loaded, f.lines).vars)
  }

  /**
   * The loader returns True exactly when some candidate file, applied on top
   * of everything loaded from the files before it, is non-empty, is applied
   * completely and leaves both credentials loaded; when it returns False,
   * every file has contributed what it assigned before failing.
   */
  lemma {:induction false} LoadEnvFoundIff(files: seq<EnvFile>, environ: Env, loaded: Env)
    requires Agrees(loaded, environ)
    ensures var r := LoadEnv(files, environ, loaded);
      && (r.found <==> exists k | 0 <= k < |files| :: StopsAt(files[k], LoadedAfter(files[..k], loaded)))
      && (!r.found ==> r.loaded == LoadedAfter(files, loaded))
    decreases |files|
  {
    if files != [] {
      var f := files[0];
      var l := LoadStep(f, loaded);
      var e := match f
        case Missing => environ
        case Unreadable(read) => ApplyLines(environ, read).vars
        case Present(size, lines) => if size == 0 then environ else ApplyLines(environ, lines).vars;
      if f.Unreadable? {
        ApplyKeepsAgreement(loaded, environ, f.linesRead);
      } else if f.Present? {
        ApplyKeepsAgreement(loaded, environ, f.lines);
      }
      assert files[..0] == [];
      if StopsAt(f, loaded) {
        assert LoadEnv(files, environ, loaded).found;
      } else {
        assert LoadEnv(files, environ, loaded) == LoadEnv(files[1..], e, l);
        LoadEnvFoundIff(files[1..], e, l);
        StopsShift(files, loaded);
      }
    }
  }

  /** When the first file does not stop the search, a later one stops it exactly when it stops the rest. */
  lemma StopsShift(files: seq<EnvFile>, loaded: Env)
    requires files != [] && !StopsAt(files[0], loaded)
    ensures var l := LoadStep(files[0], loaded);
      (exists k | 0 <= k < |files| :: StopsAt(files[k], LoadedAfter(files[..k], loaded)))
      <==> (exists k | 0 <= k < |files[1..]| :: StopsAt(files[1..][k], LoadedAfter(files[1..][..k], l)))
  {
    var l := LoadStep(files[0], loaded);
    forall k | 1 <= k < |files|
      ensures LoadedAfter(files[..k], loaded) == LoadedAfter(files[1..][..k - 1], l)
    {
      assert files[..k][1..] == files[1..][..k - 1];
    }
    assert files[..0] == [];
    if exists k | 0 <= k < |files| :: StopsAt(files[k], LoadedAfter(files[..k], loaded)) {
      var k :| 0 <= k < |files| && StopsAt(files[k], LoadedAfter(files[..k], loaded));
      assert files[1..][k - 1] == files[k];
    }
    if exists k | 0 <= k < |files[1..]| :: StopsAt(files[1..][k], LoadedAfter(files[1..][..k], l)) {
      var k :| 0 <= k < |files[1..]| && StopsAt(files[1..][k], LoadedAfter(files[1..][..k], l));
      assert StopsAt(files[k + 1], LoadedAfter(files[..k + 1], loaded));
    }
  }

  /** No candidate file at all: the loader returns False and changes nothing. */
  lemma AllMissing(files: seq<EnvFile>, environ: Env, loaded: Env)
    requires forall i :: 0 <= i < |files| ==> files[i] == Missing
    ensures LoadEnv(files, environ, loaded) == EnvOut(false, environ, loaded)
    decreases |files|
  {
    if files != [] {
      AllMissing(files[1..], environ, loaded);
    }
  }

  /**
   * A first file that is non-empty, parses completely and assigns both
   * Reddit credentials ends the search with True.
   */
  lemma FirstFileWithCredentials(files: seq<EnvFile>, environ: Env, loaded: Env, i: nat, j: nat)
    requires files != [] && files[0].Present? && files[0].size > 0
    requires ApplyLines(environ, files[0].lines).ok && Agrees(loaded, environ)
    requires i < |files[0].lines| && j < |files[0].lines|
    requires ParseLine(files[0].lines[i]).Some? && ParseLine(files[0].lines[i]).value.0 == "REDDIT_CLIENT_ID"
    requires ParseLine(files[0].lines[j]).Some? && ParseLine(files[0].lines[j]).value.0 == "REDDIT_CLIENT_SECRET"
    ensures LoadEnv(files, environ, loaded).found
  {
    var lines := files[0].lines;
    ApplyKeepsAgreement(loaded, environ, lines);
    AssignedPresent(loaded, lines, i);
    AssignedPresent(loaded, lines, j);
  }

  /** A completely applied file leaves every key it assigns present. */
  lemma {:induction false} AssignedPresent(vars: Env, lines: seq<string>, i: nat)
    requires i < |lines| && ParseLine(lines[i]).Some? && ApplyLines(vars, lines).ok
    ensures ParseLine(lines[i]).value.0 in ApplyLines(vars, lines).vars
    decreases |lines|
  {
    var init := lines[..|lines| - 1];
    assert ApplyLines(vars, init).ok;
    if i < |lines| - 1 {
      assert init[i] == lines[i];
      AssignedPresent(vars, init, i);
      ApplyLinesGrows(ApplyLines(vars, init).vars, [lines[|lines| - 1]]);
    }
  }

  /** The process environment that the loader writes into. */
  class Environment {
    var vars: Env

    constructor(initial: Env)
      ensures vars == initial
    {
      vars := initial;
    }

    /**
     * The `for line in f` loop: each parsed assignment is written to
     * `os.environ` and to `env_vars_loaded`; an illegal one stops the file.
     */
    method ReadLines(lines: seq<string>, loaded: Env) returns (ok: bool, loaded': Env)
      modifies this
      ensures ApplyLines(old(vars), lines) == Applied(vars, ok)
      ensures ApplyLines(loaded, lines) == Applied(loaded', ok)
    {
      ghost var vars0 := vars;
      loaded' := loaded;
      var n := 0;
      while n < |lines|
        invariant 0 <= n <= |lines|
        invariant ApplyLines(vars0, lines[..n]) == Applied(vars, true)
        invariant ApplyLines(loaded, lines[..n]) == Applied(loaded', true)
        decreases |lines| - n
      {
        assert lines[..n + 1][..n] == lines[..n];
        match ParseLine(lines[n]) {
          case None =>
          case Some(kv) =>
            if Legal(kv.0, kv.1) {
              vars := vars[kv.0 := kv.1];
              loaded' := loaded'[kv.0 := kv.1];
            } else {
              FailureSticks(vars0, lines, n + 1);
              FailureSticks(loaded, lines, n + 1);
              return false, loaded';
            }
        }
        n := n + 1;
      }
      assert lines[..|lines|] == lines;
      return true, loaded';
    }

    /**
     * `load_env_file()` over the candidate paths in order; it returns
     * whether both Reddit credentials were loaded.
     */
    method LoadEnvFile(files: seq<EnvFile>) returns (found: bool)
      modifies this
      ensures LoadEnv(files, old(vars), map[]) == EnvOut(found, vars, LoadEnv(files, old(vars), map[]).loaded)
    {
      var loaded: Env := map[];
      var i := 0;
      while i < |files|
        invariant 0 <= i <= |files|
        invariant Agrees(loaded, vars)
        invariant LoadEnv(files, old(vars), map[]) == LoadEnv(files[i..], vars, loaded)
        decreases |files| - i
      {
        assert files[i..][1..] == files[i + 1..];
        match files[i] {
          case Missing =>
          case Unreadable(read) =>
            ApplyKeepsAgreement(loaded, vars, read);
            var ok;
            ok, loaded := ReadLines(read, loaded);
          case Present(size, lines) =>
            if size != 0 {
              ApplyKeepsAgreement(loaded, vars, lines);
              var ok;
              ok, loaded := ReadLines(lines, loaded);
              if ok && "REDDIT_CLIENT_ID" in loaded && "REDDIT_CLIENT_SECRET" in loaded {
                return true;
              }
            }
        }
        i := i + 1;
      }
      return false;
    }
  }

  /** Once a line fails, every longer run of the same file fails with the same variables. */
  lemma {:induction false} FailureSticks(vars: Env, lines: seq<string>, n: nat)
    requires n <= |lines| && !ApplyLines(vars, lines[..n]).ok
    ensures ApplyLines(vars, lines) == ApplyLines(vars, lines[..n])
    decreases |lines| - n
  {
    if n < |lines| {
      assert lines[..n + 1][..n] == lines[..n];
      FailureSticks(vars, lines, n + 1);
    } else {
      assert lines[..n] == lines;
    }
  }

  // ---------------------------------------------------------------------
  // Typed getters

  const TrueWords: seq<string> := ["true", "1", "yes", "on"]

  /** `str(default)` for a boolean. */
  function BoolString(b: bool): string
  {
    if b then "True" else "False"
  }

  /** `get_env_bool(key, default)` */
  function GetEnvBool(env: Env, key: string, default: bool): bool
  {
    Lower(Getenv(env, key, BoolString(default))) in TrueWords
  }

  /** An unset variable gives the default. */
  lemma GetEnvBoolDefault(env: Env, key: string, default: bool)
    requires key !in env
    ensures GetEnvBool(env, key, default) == default
  {
    var s := Lower(BoolString(default));
    if default {
      assert s == "true";
    } else {
      assert s == "false";
      assert forall w :: w in TrueWords ==> |w| != 5 || w[0] != 'f';
    }
  }

  /** The comparison ignores the case of ASCII letters. */
  lemma GetEnvBoolIgnoresCase(env: Env, key: string, default: bool, s: string)
    ensures GetEnvBool(env[key := s], key, default) == GetEnvBool(env[key := Lower(s)], key, default)
  {
    assert Lower(Lower(s)) == Lower(s);
  }

  predicate AllDigits(s: string)
  {
    forall i :: 0 <= i < |s| ==> '0' <= s[i] <= '9'
  }

  /** The number a string of decimal digits denotes. */
  function DigitsValue(s: string): (n: nat)
    requires AllDigits(s)
    decreases |s|
  {
    if s == [] then 0 else DigitsValue(s[..|s| - 1]) * 10 + (s[|s| - 1] as int - '0' as int)
  }

  /**
   * `int(s)`: surrounding whitespace, an optional sign and at least one
   * ASCII digit; anything else raises ValueError.
   */
  function ParseInt(s: string): Option<int>
  {
    var t := Strip(s);
    if t != [] && (t[0] == '+' || t[0] == '-') then
      var d := t[1..];
      if d != [] && AllDigits(d) then Some(if t[0] == '-' then -(DigitsValue(d) as int) else DigitsValue(d) as int) else None
    else if t != [] && AllDigits(t) then Some(DigitsValue(t))
    else None
  }

  /** Reading back the digits `str(n)` prints gives `n`. */
  lemma {:induction false} DigitsRoundTrip(n: nat)
    ensures DigitsValue(NatToString(n)) == n
    decreases n
  {
    if n >= 10 {
      var s := NatToString(n);
      assert s[..|s| - 1] == NatToString(n / 10);
      DigitsRoundTrip(n / 10);
    }
  }

  /** A non-empty run of digits parses to its value. */
  lemma ParseDigits(s: string)
    requires s != [] && AllDigits(s)
    ensures ParseInt(s) == Some(DigitsValue(s))
  {
    StripNoop(s);
  }

  /** A minus sign followed by a non-empty run of digits parses to the negated value. */
  lemma ParseNegative(d: string)
    requires d != [] && AllDigits(d)
    ensures ParseInt("-" + d) == Some(-(DigitsValue(d) as int))
  {
    var s := "-" + d;
    StripNoop(s);
    assert s[1..] == d;
  }

  /** `int(str(n)) == n` */
  lemma IntRoundTrip(n: int)
    ensures ParseInt(IntToString(n)) == Some(n)
  {
    if n < 0 {
      var d := NatToString(-n);
      assert IntToString(n) == "-" + d;
      DigitsRoundTrip(-n);
      ParseNegative(d);
      assert -(DigitsValue(d) as int) == n;
    } else {
      var d := NatToString(n);
      assert IntToString(n) == d;
      DigitsRoundTrip(n);
      ParseDigits(d);
    }
  }

  /** `get_env_int(key, default)`: the parsed value, or the default when `int()` raises. */
  function GetEnvInt(env: Env, key: string, default: int): int
  {
    match ParseInt(Getenv(env, key, IntToString(default)))
    case Some(n) => n
    case None => default
  }

  /** An unset or non-integer variable gives the default; an integer one its value. */
  lemma GetEnvIntSpec(env: Env, key: string, default: int)
    ensures key !in env ==> GetEnvInt(env, key, default) == default
    ensures key in env && ParseInt(env[key]).None? ==> GetEnvInt(env, key, default) == default
    ensures key in env && ParseInt(env[key]).Some? ==> GetEnvInt(env, key, default) == ParseInt(env[key]).value
  {
    IntRoundTrip(default);
  }

  // ---------------------------------------------------------------------
  // The configuration records

  datatype DatabaseConfig = DatabaseConfig(user: string, password: string, database: string, host: string, port: int)
  datatype RedditConfig = RedditConfig(clientId: string, clientSecret: string, userAgent: string)
  datatype TelegramConfig = TelegramConfig(apiId: string, apiHash: string, phone: string)
  datatype AppConfig = AppConfig(database: DatabaseConfig, reddit: RedditConfig, telegram: TelegramConfig)

  /** `DatabaseConfig.url` */
  function Url(db: DatabaseConfig): (u: string)
    ensures StartsWith(u, "postgresql://" + db.user + ":" + db.password + "@")
    ensures EndsWith(u, "@" + db.host + ":" + IntToString(db.port) + "/" + db.database)
  {
    var head := "postgresql://" + db.user + ":" + db.password;
    var tail := "@" + db.host + ":" + IntToString(db.port) + "/" + db.database;
    assert (head + tail)[..|head| + 1] == head + "@";
    head + tail
  }

  /** The variables `load_config` insists on, with their descriptions. */
  const Required: seq<(string, string)> :=
    [("REDDIT_CLIENT_ID", "ID клиента Reddit API"), ("REDDIT_CLIENT_SECRET", "Секрет клиента Reddit API")]

  /** `os.getenv(var)` is set and non-empty. */
  predicate IsSet(env: Env, key: string)
  {
    key in env && env[key] != []
  }

  /** `f"{var} ({description})"` */
  function MissingEntry(req: (string, string)): string
  {
    req.0 + " (" + req.1 + ")"
  }

  /** `missing_vars`: one entry per required variable that is unset or empty. */
  function MissingVars(env: Env, req: seq<(string, string)>): (r: seq<string>)
    ensures r == [] <==> forall i :: 0 <= i < |req| ==> IsSet(env, req[i].0)
    ensures forall i :: 0 <= i < |req| && !IsSet(env, req[i].0) ==> MissingEntry(req[i]) in r
    decreases |req|
  {
    if req == [] then []
    else
      var rest := MissingVars(env, req[1..]);
      assert forall i :: 1 <= i < |req| ==> req[i] == req[1..][i - 1];
      (if IsSet(env, req[0].0) then [] else [MissingEntry(req[0])]) + rest
  }

  /** `"\n".join(f"- {var}" for var in missing)` */
  function Bullets(items: seq<string>): string
    decreases |items|
  {
    if items == [] then []
    else if |items| == 1 then "- " + items[0]
    else "- " + items[0] + "\n" + Bullets(items[1..])
  }

  const MissingHeader: string := "Отсутствуют обязательные переменные окружения:\n"

  /** A substring of `s` is a substring of anything built around `s`. */
  lemma ContainsAround(l: string, s: string, r: string, p: string)
    requires Contains(s, p)
    ensures Contains(l + s + r, p)
  {
    var i :| 0 <= i <= |s| - |p| && OccursAt(s, p, i);
    assert OccursAt(s, [] + p + [], i);
    OccursInside(s, l, r, [], p, [], i);
  }

  /** The bullet list mentions every item. */
  lemma {:induction false} BulletsContain(items: seq<string>, k: nat)
    requires k < |items|
    ensures Contains(Bullets(items), items[k])
    decreases |items|
  {
    if k == 0 {
      var b := Bullets(items);
      assert OccursAt(b, items[0], 2);
    } else {
      BulletsContain(items[1..], k - 1);
      ContainsAround("- " + items[0] + "\n", Bullets(items[1..]), [], items[k]);
      assert "- " + items[0] + "\n" + Bullets(items[1..]) + [] == Bullets(items);
    }
  }

  /**
   * `load_config()` on the current environment: ValueError with the list of
   * missing Reddit variables, or the configuration with its defaults.
   * `host` is what `get_postgres_host()` returns.
   */
  function LoadConfig(env: Env, host: string): (r: Result<AppConfig, string>)
    ensures r.Err? <==> !IsSet(env, "REDDIT_CLIENT_ID") || !IsSet(env, "REDDIT_CLIENT_SECRET")
    ensures r.Err? ==> StartsWith(r.error, MissingHeader)
    ensures r.Ok? ==> r.value.reddit.clientId == env["REDDIT_CLIENT_ID"] && r.value.reddit.clientId != []
    ensures r.Ok? ==> r.value.reddit.clientSecret == env["REDDIT_CLIENT_SECRET"] && r.value.reddit.clientSecret != []
    ensures r.Ok? ==> r.value.database.host == host
  {
    var missing := MissingVars(env, Required);
    if missing != [] then
      assert (MissingHeader + Bullets(missing))[..|MissingHeader|] == MissingHeader;
      Err(MissingHeader + Bullets(missing))
    else
      assert IsSet(env, Required[0].0) && IsSet(env, Required[1].0);
      Ok(AppConfig(
        DatabaseConfig(Getenv(env, "POSTGRES_USER", "newsaggregator"),
                       Getenv(env, "POSTGRES_PASSWORD", "changeme123"),
                       Getenv(env, "POSTGRES_DB", "news_aggregator"),
                       host,
                       GetEnvInt(env, "POSTGRES_PORT", 5432)),
        RedditConfig(env["REDDIT_CLIENT_ID"], env["REDDIT_CLIENT_SECRET"],
                     Getenv(env, "REDDIT_USER_AGENT", "NewsAggregator/1.0")),
        TelegramConfig(Getenv(env, "TELEGRAM_API_ID", "your_api_id"),
                       Getenv(env, "TELEGRAM_API_HASH", "your_api_hash"),
                       Getenv(env, "TELEGRAM_PHONE", "+1234567890"))))
  }

  /** With a required variable missing, the error is the header followed by the bullet list. */
  lemma LoadConfigError(env: Env, host: string)
    requires MissingVars(env, Required) != []
    ensures LoadConfig(env, host) == Err(MissingHeader + Bullets(MissingVars(env, Required)))
  {
  }

  /** The bullet list names every required variable that is missing. */
  lemma MissingListed(env: Env, req: seq<(string, string)>, i: nat)
    requires i < |req| && !IsSet(env, req[i].0)
    ensures Contains(Bullets(MissingVars(env, req)), req[i].0)
  {
    var missing := MissingVars(env, req);
    var e, name, rest := MissingEntry(req[i]), req[i].0, " (" + req[i].1 + ")";
    assert e == [] + name + rest;
    var k :| 0 <= k < |missing| && missing[k] == e;
    BulletsContain(missing, k);
    var b := Bullets(missing);
    var j :| 0 <= j <= |b| - |e| && OccursAt(b, e, j);
    OccursInside(b, [], [], [], name, rest, j);
    assert [] + b + [] == b;
  }

  /** The ValueError names every required variable that is missing. */
  lemma MissingNamed(env: Env, host: string, i: nat)
    requires i < |Required| && !IsSet(env, Required[i].0)
    ensures LoadConfig(env, host).Err?
    ensures Contains(LoadConfig(env, host).error, Required[i].0)
  {
    MissingListed(env, Required, i);
    var b := Bullets(MissingVars(env, Required));
    ContainsAround(MissingHeader, b, [], Required[i].0);
    assert MissingHeader + b + [] == MissingHeader + b;
    LoadConfigError(env, host);
  }

  /** Unset variables fall back to the documented defaults. */
  lemma LoadConfigDefaults(env: Env, host: string)
    requires IsSet(env, "REDDIT_CLIENT_ID") && IsSet(env, "REDDIT_CLIENT_SECRET")
    requires forall k :: k in env ==> k == "REDDIT_CLIENT_ID" || k == "REDDIT_CLIENT_SECRET"
    ensures LoadConfig(env, host) == Ok(AppConfig(
      DatabaseConfig("newsaggregator", "changeme123", "news_aggregator", host, 5432),
      RedditConfig(env["REDDIT_CLIENT_ID"], env["REDDIT_CLIENT_SECRET"], "NewsAggregator/1.0"),
      TelegramConfig("your_api_id", "your_api_hash", "+1234567890")))
  {
    assert MissingVars(env, Required) == [];
    GetEnvIntSpec(env, "POSTGRES_PORT", 5432);
  }

  // ---------------------------------------------------------------------
  // `get_config`, `reset_config` and `validate_config`

  /**
   * `get_config()`: the cached configuration, or a fresh `load_config()`
   * that is cached only when it succeeds (a ValueError leaves the cache empty).
   */
  method GetConfig(cell: Singleton.Lazy<AppConfig>, env: Env, host: string) returns (r: Result<AppConfig, string>)
    modifies cell
    ensures old(cell.instance).Some? ==> r == Ok(old(cell.instance).value) && cell.instance == old(cell.instance)
    ensures old(cell.instance).None? ==> r == LoadConfig(env, host)
    ensures old(cell.instance).None? ==> cell.instance == if r.Ok? then Some(r.value) else None
  {
    if cell.instance.None? {
      r := LoadConfig(env, host);
      if r.Ok? {
        cell.instance := Some(r.value);
      }
    } else {
      r := Ok(cell.instance.value);
    }
  }

  /** `reset_config()` */
  method ResetConfig(cell: Singleton.Lazy<AppConfig>)
    modifies cell
    ensures cell.instance.None?
  {
    cell.instance := None;
  }

  /** The dictionary `validate_config` returns. */
  datatype Report = Report(valid: bool, issues: seq<string>, warnings: seq<string>)

  /** `[msg] if cond else []` */
  function When(cond: bool, msg: string): seq<string>
  {
    if cond then [msg] else []
  }

  /** Whether a Telegram field is empty or still the placeholder. */
  predicate Placeholder(value: string, placeholder: string)
  {
    value == [] || value == placeholder
  }

  /** The checks of `validate_config` on a loaded configuration. */
  function ValidateConfig(c: AppConfig): (r: Report)
    ensures r.valid <==> r.issues == []
    ensures r.issues == [] <==>
      c.database.user != [] && c.database.password != [] && c.database.database != []
      && c.reddit.clientId != [] && c.reddit.clientSecret != []
    ensures |r.warnings| ==
      (if Placeholder(c.telegram.apiId, "your_api_id") then 1 else 0)
      + (if Placeholder(c.telegram.apiHash, "your_api_hash") then 1 else 0)
      + (if Placeholder(c.telegram.phone, "+1234567890") then 1 else 0)
  {
    var issues :=
      When(c.database.user == [], "Не указано имя пользователя базы данных")
      + When(c.database.password == [], "Не указан пароль базы данных")
      + When(c.database.database == [], "Не указано имя базы данных")
      + When(c.reddit.clientId == [], "Не указан ID клиента Reddit")
      + When(c.reddit.clientSecret == [], "Не указан секрет клиента Reddit");
    var warnings :=
      When(Placeholder(c.telegram.apiId, "your_api_id"),
           "Не указан API ID Telegram (используется значение по умолчанию)")
      + When(Placeholder(c.telegram.apiHash, "your_api_hash"),
             "Не указан API Hash Telegram (используется значение по умолчанию)")
      + When(Placeholder(c.telegram.phone, "+1234567890"),
             "Не указан номер телефона Telegram (используется значение по умолчанию)");
    Report(issues == [], issues, warnings)
  }

  /** Telegram settings only ever produce warnings: they never change validity. */
  lemma TelegramNeverInvalidates(c: AppConfig, t: TelegramConfig)
    ensures ValidateConfig(c.(telegram := t)).valid == ValidateConfig(c).valid
    ensures ValidateConfig(c.(telegram := t)).issues == ValidateConfig(c).issues
  {
  }

  /**
   * A configuration `load_config` produced has both Reddit credentials, so
   * it is valid exactly when the database user, password and name are not
   * set to empty strings.
   */
  lemma LoadedConfigValidity(env: Env, host: string)
    requires LoadConfig(env, host).Ok?
    ensures ValidateConfig(LoadConfig(env, host).value).valid <==>
      Getenv(env, "POSTGRES_USER", "newsaggregator") != []
      && Getenv(env, "POSTGRES_PASSWORD", "changeme123") != []
      && Getenv(env, "POSTGRES_DB", "news_aggregator") != []
  {
  }

  /** `validate_config()`: the report on `get_config()`, or the ValueError it raises. */
  method ValidateCurrent(cell: Singleton.Lazy<AppConfig>, env: Env, host: string) returns (r: Result<Report, string>)
    modifies cell
    ensures old(cell.instance).Some? ==> r == Ok(ValidateConfig(old(cell.instance).value))
    ensures old(cell.instance).None? ==>
      r == match LoadConfig(env, host)
           case Ok(c) => Ok(ValidateConfig(c))
           case Err(e) => Err(e)
  {
    var c := GetConfig(cell, env, host);
    match c
    case Ok(cfg) => r := Ok(ValidateConfig(cfg));
    case Err(e) => r := Err(e);
  }
}
