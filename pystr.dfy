/**
 * The few Python string and list primitives the news aggregator relies on:
 * `str.strip()`, `str.split()`, `str.find`/`str.rfind`, `in` on strings,
 * `startswith`/`endswith`, `lower()`/`upper()` and slicing with negative
 * bounds. Whitespace is exactly Python's `str.isspace` set; case mapping
 * covers the ASCII, Latin-1 and basic Cyrillic letters (other scripts keep
 * their case here).
 */
module PyStr {
  /** Characters `str.split()` and `str.strip()` treat as whitespace: Python's `str.isspace`. */
  predicate IsSpace(c: char)
  {
    || c == ' '
    || '\t' <= c <= '\r'
    || '\U{001c}' <= c <= '\U{001f}'
    || c == '\U{0085}' || c == '\U{00a0}' || c == '\U{1680}'
    || '\U{2000}' <= c <= '\U{200a}'
    || c == '\U{2028}' || c == '\U{2029}' || c == '\U{202f}' || c == '\U{205f}' || c == '\U{3000}'
  }

  /** `s.lstrip()` */
  function LStrip(s: string): (r: string)
    ensures |r| <= |s|
  {
    if s == [] || !IsSpace(s[0]) then s else LStrip(s[1..])
  }

  /** `s.rstrip()` */
  function RStrip(s: string): (r: string)
    ensures |r| <= |s|
  {
    if s == [] || !IsSpace(s[|s| - 1]) then s else RStrip(s[..|s| - 1])
  }

  /** `lstrip` removes exactly the leading whitespace. */
  lemma {:induction false} LStripSpec(s: string)
    ensures var r := LStrip(s);
      && r == s[|s| - |r|..]
      && (r == [] || !IsSpace(r[0]))
      && forall i :: 0 <= i < |s| - |r| ==> IsSpace(s[i])
  {
    if s != [] && IsSpace(s[0]) {
      LStripSpec(s[1..]);
    }
  }

  /** `rstrip` removes exactly the trailing whitespace. */
  lemma {:induction false} RStripSpec(s: string)
    ensures var r := RStrip(s);
      && r == s[..|r|]
      && (r == [] || !IsSpace(r[|r| - 1]))
      && forall i :: |r| <= i < |s| ==> IsSpace(s[i])
  {
    if s != [] && IsSpace(s[|s| - 1]) {
      RStripSpec(s[..|s| - 1]);
    }
  }

  /** `s.strip()` */
  function Strip(s: string): (r: string)
    ensures |r| <= |s|
  {
    RStrip(LStrip(s))
  }

  predicate AllSpace(s: string)
  {
    forall i :: 0 <= i < |s| ==> IsSpace(s[i])
  }

  /** `s.strip()` is empty exactly when `s` consists of whitespace only. */
  lemma StripEmptyIff(s: string)
    ensures Strip(s) == [] <==> AllSpace(s)
  {
    var l := LStrip(s);
    LStripSpec(s);
    RStripSpec(l);
    if Strip(s) == [] {
      assert l == [];
    } else {
      assert l != [];
      assert l[0] == s[|s| - |l|];
    }
  }

  /** The first word of `s` (up to the first whitespace character). */
  function Word(s: string): (w: string)
    ensures |w| <= |s| && w == s[..|w|]
    ensures forall i :: 0 <= i < |w| ==> !IsSpace(w[i])
    ensures |w| < |s| ==> IsSpace(s[|w|])
  {
    if s == [] || IsSpace(s[0]) then [] else [s[0]] + Word(s[1..])
  }

  predicate NoSpace(w: string)
  {
    forall i :: 0 <= i < |w| ==> !IsSpace(w[i])
  }

  /** `s.split()` with no separator: the maximal runs of non-whitespace characters. */
  function Split(s: string): (ws: seq<string>)
    ensures forall k :: 0 <= k < |ws| ==> ws[k] != [] && NoSpace(ws[k])
    decreases |s|
  {
    var t := LStrip(s);
    LStripSpec(s);
    if t == [] then []
    else
      var w := Word(t);
      [w] + Split(t[|w|..])
  }

  /** A single word splits into itself. */
  lemma SplitOneWord(w: string)
    requires w != [] && NoSpace(w)
    ensures Split(w) == [w]
  {
    assert LStrip(w) == w;
    assert |Word(w)| == |w|;
    assert Word(w) == w;
    assert w[|w|..] == [] && Split([]) == [];
  }

  /**
   * Upper-case letters that `str.lower()` maps to one other character:
   * A-Z, the Latin-1 capitals À-Þ (but not ×), and the Cyrillic capitals Ѐ-Я.
   */
  predicate CasedUpper(c: char)
  {
    || 'A' <= c <= 'Z'
    || ('\U{00c0}' <= c <= '\U{00de}' && c != '\U{00d7}')
    || '\U{0400}' <= c <= '\U{042f}'
  }

  /** Lower-case letters that `str.upper()` maps to one other character. */
  predicate CasedLower(c: char)
  {
    || 'a' <= c <= 'z'
    || c == '\U{00b5}'
    || ('\U{00e0}' <= c <= '\U{00ff}' && c != '\U{00f7}' && c != '\U{00df}')
    || '\U{0430}' <= c <= '\U{045f}'
  }

  /** `c.lower()` for one character. */
  function LowerChar(c: char): (d: char)
    ensures !CasedUpper(d)
    ensures !CasedUpper(c) ==> d == c
    ensures CasedUpper(c) ==> CasedLower(d) && UpperChar(d) == c
  {
    if 'A' <= c <= 'Z' || ('\U{00c0}' <= c <= '\U{00de}' && c != '\U{00d7}') || '\U{0410}' <= c <= '\U{042f}'
    then (c as int + 32) as char
    else if '\U{0400}' <= c <= '\U{040f}' then (c as int + 80) as char
    else c
  }

  function Lower(s: string): (r: string)
    ensures |r| == |s| && forall i :: 0 <= i < |s| ==> r[i] == LowerChar(s[i])
  {
    if s == [] then [] else [LowerChar(s[0])] + Lower(s[1..])
  }

  /** `c.upper()` for one character other than 'ß' (whose upper case is "SS"). */
  function UpperChar(c: char): (d: char)
    ensures !('a' <= d <= 'z')
    ensures !CasedLower(c) ==> d == c
  {
    if 'a' <= c <= 'z' || ('\U{00e0}' <= c <= '\U{00fe}' && c != '\U{00f7}' && c != '\U{00df}') || '\U{0430}' <= c <= '\U{044f}'
    then (c as int - 32) as char
    else if '\U{0450}' <= c <= '\U{045f}' then (c as int - 80) as char
    else if c == '\U{00ff}' then '\U{0178}'
    else if c == '\U{00b5}' then '\U{039c}'
    else c
  }

  /** `s.upper()`: character by character, with 'ß' becoming "SS". */
  function Upper(s: string): (r: string)
    ensures forall i :: 0 <= i < |r| ==> !('a' <= r[i] <= 'z')
    ensures '\U{00df}' !in s ==> |r| == |s| && forall i :: 0 <= i < |s| ==> r[i] == UpperChar(s[i])
  {
    if s == [] then []
    else (if s[0] == '\U{00df}' then "SS" else [UpperChar(s[0])]) + Upper(s[1..])
  }

  /** Lower-casing twice changes nothing more. */
  lemma LowerIdempotent(s: string)
    ensures Lower(Lower(s)) == Lower(s)
  {
  }

  predicate StartsWith(s: string, p: string)
  {
    |p| <= |s| && s[..|p|] == p
  }

  predicate EndsWith(s: string, p: string)
  {
    |p| <= |s| && s[|s| - |p|..] == p
  }

  /** `sub` occurs in `s` starting at index `i`. */
  predicate OccursAt(s: string, sub: string, i: int)
  {
    0 <= i <= |s| - |sub| && s[i..i + |sub|] == sub
  }

  /** `sub in s` */
  predicate Contains(s: string, sub: string)
  {
    exists i | 0 <= i <= |s| - |sub| :: OccursAt(s, sub, i)
  }

  /** An occurrence of `a + p + b` inside `s` is an occurrence of `p` inside `l + s + r`. */
  lemma OccursInside(s: string, l: string, r: string, a: string, p: string, b: string, i: int)
    requires OccursAt(s, a + p + b, i)
    ensures OccursAt(l + s + r, p, |l| + i + |a|)
  {
    var w := a + p + b;
    var t := l + s + r;
    var k := |l| + i + |a|;
    forall m | 0 <= m < |p| ensures t[k + m] == p[m] {
      calc {
        t[k + m];
        s[i + |a| + m];
        s[i..i + |w|][|a| + m];
        w[|a| + m];
        p[m];
      }
    }
    assert t[k..k + |p|] == p;
  }

  /** Lower-casing both sides keeps an occurrence. */
  lemma LowerOccurs(s: string, p: string, i: int)
    requires OccursAt(s, p, i)
    ensures Contains(Lower(s), Lower(p))
  {
    var ls, lp := Lower(s), Lower(p);
    forall m | 0 <= m < |p| ensures ls[i + m] == lp[m] {
      assert s[i + m] == s[i..i + |p|][m] == p[m];
    }
    assert ls[i..i + |lp|] == lp;
    assert OccursAt(ls, lp, i);
  }

  /** `s.find(c)` for a one-character needle: the first index, or -1. */
  function Find(s: string, c: char): (r: int)
    ensures -1 <= r < |s|
    ensures r == -1 <==> c !in s
    ensures r >= 0 ==> s[r] == c && c !in s[..r]
  {
    if s == [] then -1
    else if s[0] == c then 0
    else
      var k := Find(s[1..], c);
      assert s[1..][..if k < 0 then 0 else k] == s[1..1 + if k < 0 then 0 else k];
      if k == -1 then -1 else k + 1
  }

  /** `s.find(c)` on a `c`-free prefix, then `c`, is the length of the prefix. */
  lemma {:induction false} FindPast(k: string, c: char, rest: string)
    requires c !in k
    ensures Find(k + [c] + rest, c) == |k|
    decreases |k|
  {
    var s := k + [c] + rest;
    if k != [] {
      assert s[1..] == k[1..] + [c] + rest;
      FindPast(k[1..], c, rest);
    }
  }

  /** `s.split(c)[0]`: the part of `s` before the first `c`. */
  function BeforeFirst(s: string, c: char): (r: string)
    ensures r <= s && c !in r
    ensures c !in s ==> r == s
  {
    if c in s then s[..Find(s, c)] else s
  }

  /** A prefix of a string that does not contain `sub` does not contain it either. */
  lemma PrefixNotContains(s: string, t: string, sub: string)
    requires t <= s && !Contains(s, sub)
    ensures !Contains(t, sub)
  {
    if Contains(t, sub) {
      var i :| 0 <= i <= |t| - |sub| && OccursAt(t, sub, i);
      assert s[i..i + |sub|] == t[i..i + |sub|];
      assert OccursAt(s, sub, i);
    }
  }

  /** `s.rfind(c)` for a one-character needle: the last index, or -1. */
  function RFind(s: string, c: char): (r: int)
    ensures -1 <= r < |s|
    ensures r == -1 <==> c !in s
    ensures r >= 0 ==> s[r] == c && c !in s[r + 1..]
  {
    if s == [] then -1
    else if s[|s| - 1] == c then |s| - 1
    else
      assert s == s[..|s| - 1] + [s[|s| - 1]];
      RFind(s[..|s| - 1], c)
  }

  /** Python's normalisation of a slice bound against a length. */
  function SliceBound(i: int, n: nat): (k: nat)
    ensures k <= n
    ensures 0 <= i <= n ==> k == i
  {
    if i < 0 then (if n + i < 0 then 0 else n + i) else if i > n then n else i
  }

  /** `xs[:j]` */
  function Take<T>(xs: seq<T>, j: int): (r: seq<T>)
    ensures r == xs[..SliceBound(j, |xs|)]
  {
    xs[..SliceBound(j, |xs|)]
  }

  /** `xs[i:]` */
  function Drop<T>(xs: seq<T>, i: int): (r: seq<T>)
    ensures r == xs[SliceBound(i, |xs|)..]
  {
    xs[SliceBound(i, |xs|)..]
  }

  /** `xs[:n]` for a non-negative `n` keeps `min(n, len(xs))` leading items. */
  lemma TakeNonNegative<T>(xs: seq<T>, n: nat)
    ensures |Take(xs, n)| == if n < |xs| then n else |xs|
    ensures Take(xs, n) == xs[..|Take(xs, n)|]
  {
  }

  /** Replace every occurrence of one character by another. */
  function ReplaceChar(s: string, a: char, b: char): (r: string)
    ensures |r| == |s|
    ensures forall i :: 0 <= i < |s| ==> r[i] == (if s[i] == a then b else s[i])
  {
    if s == [] then [] else [if s[0] == a then b else s[0]] + ReplaceChar(s[1..], a, b)
  }

  /** Replace every occurrence of a character by a string. */
  function ReplaceCharBy(s: string, a: char, b: string): (r: string)
    ensures a !in s ==> r == s
    ensures a !in b ==> a !in r
  {
    if s == [] then [] else (if s[0] == a then b else [s[0]]) + ReplaceCharBy(s[1..], a, b)
  }

  /** Decimal digits of a natural number, as `str(n)` prints them. */
  function NatToString(n: nat): (s: string)
    ensures |s| >= 1
    ensures forall i :: 0 <= i < |s| ==> '0' <= s[i] <= '9'
    decreases n
  {
    if n < 10 then [DigitChar(n)] else NatToString(n / 10) + [DigitChar(n % 10)]
  }

  function DigitChar(d: nat): (c: char)
    requires d < 10
    ensures '0' <= c <= '9' && c as int - '0' as int == d
  {
    ('0' as int + d) as char
  }

  /** `str(n)` for an integer. */
  function IntToString(n: int): (s: string)
    ensures |s| >= 1
    ensures n < 0 <==> s[0] == '-'
  {
    if n < 0 then "-" + NatToString(-n) else NatToString(n)
  }

  /** No element occurs twice. */
  predicate Distinct<T(==)>(xs: seq<T>)
  {
    forall i, j :: 0 <= i < j < |xs| ==> xs[i] != xs[j]
  }

  /** `list(dict.fromkeys(xs))`: the first occurrence of every element, in order. */
  function Dedupe<T(==)>(xs: seq<T>): seq<T>
    decreases |xs|
  {
    if xs == [] then []
    else
      var p := Dedupe(xs[..|xs| - 1]);
      if xs[|xs| - 1] in p then p else p + [xs[|xs| - 1]]
  }

  /** The deduplicated list holds every element exactly once and nothing else. */
  lemma {:induction false} DedupeSpec<T>(xs: seq<T>)
    ensures Distinct(Dedupe(xs))
    ensures forall x :: x in Dedupe(xs) <==> x in xs
    ensures |Dedupe(xs)| <= |xs|
    decreases |xs|
  {
    if xs != [] {
      var init := xs[..|xs| - 1];
      DedupeSpec(init);
      assert xs == init + [xs[|xs| - 1]];
    }
  }

  /** An element kept by the deduplication is an element of the input. */
  lemma DedupeKeeps<T>(xs: seq<T>, x: T)
    requires x in Dedupe(xs)
    ensures x in xs
  {
    DedupeSpec(xs);
  }

  /**
   * `d` lists elements of `xs` in the order of their first occurrence: of
   * two elements of `d`, the earlier one occurs in some prefix of `xs`
   * that the later one does not occur in.
   */
  ghost predicate FirstOccurrenceOrder<T>(xs: seq<T>, d: seq<T>)
  {
    forall i, j :: 0 <= i < j < |d| ==> exists k :: 0 <= k <= |xs| && d[i] in xs[..k] && d[j] !in xs[..k]
  }

  /** `dict.fromkeys` keeps first-occurrence order. */
  lemma {:induction false} DedupeFirstOccurrence<T>(xs: seq<T>)
    ensures FirstOccurrenceOrder(xs, Dedupe(xs))
    decreases |xs|
  {
    if xs != [] {
      var init := xs[..|xs| - 1];
      var p := Dedupe(init);
      DedupeFirstOccurrence(init);
      assert FirstOccurrenceOrder(init, p);
      DedupeSpec(init);
      var d := Dedupe(xs);
      forall i, j | 0 <= i < j < |d|
        ensures exists k :: 0 <= k <= |xs| && d[i] in xs[..k] && d[j] !in xs[..k]
      {
        assert d == p || d == p + [xs[|xs| - 1]];
        assert d[i] == p[i];
        if j < |p| {
          assert d[j] == p[j];
          var k :| 0 <= k <= |init| && p[i] in init[..k] && p[j] !in init[..k];
          assert init[..k] == xs[..k];
          assert d[i] in xs[..k] && d[j] !in xs[..k];
        } else {
          assert d[j] == xs[|xs| - 1] && d[j] !in p;
          assert p[i] in p;
          DedupeKeeps(init, p[i]);
          assert init == xs[..|init|];
          assert d[i] in xs[..|init|] && d[j] !in xs[..|init|];
        }
      }
    } else {
      assert Dedupe(xs) == [];
    }
  }

  /** A list without repeats is left as it is. */
  lemma {:induction false} DedupeDistinct<T>(xs: seq<T>)
    requires Distinct(xs)
    ensures Dedupe(xs) == xs
    decreases |xs|
  {
    if xs != [] {
      var init := xs[..|xs| - 1];
      DedupeDistinct(init);
      assert xs[|xs| - 1] !in init by {
        forall k | 0 <= k < |init| ensures init[k] != xs[|xs| - 1] {
          assert init[k] == xs[k];
        }
      }
      assert xs == init + [xs[|xs| - 1]];
    }
  }

  /** `a` is `b` with some elements removed, the rest in their original order. */
  predicate SubseqOf<T(==)>(a: seq<T>, b: seq<T>)
    decreases |b|
  {
    if a == [] then true
    else if b == [] then false
    else if a[|a| - 1] == b[|b| - 1] then SubseqOf(a[..|a| - 1], b[..|b| - 1])
    else SubseqOf(a, b[..|b| - 1])
  }

  /** `s.split(c)` with an explicit one-character separator: the pieces between separators. */
  function SplitOn(s: string, c: char): (r: seq<string>)
    ensures |r| >= 1
    ensures forall k :: 0 <= k < |r| ==> c !in r[k]
    decreases |s|
  {
    if s == [] then [[]]
    else
      var p := SplitOn(s[..|s| - 1], c);
      var last := s[|s| - 1];
      if last == c then p + [[]] else p[..|p| - 1] + [p[|p| - 1] + [last]]
  }

  /** A string without the separator splits into itself alone. */
  lemma {:induction false} SplitOnFree(s: string, c: char)
    requires c !in s
    ensures SplitOn(s, c) == [s]
    decreases |s|
  {
    if s != [] {
      SplitOnFree(s[..|s| - 1], c);
      assert s[..|s| - 1] + [s[|s| - 1]] == s;
    }
  }

  /** A separator followed by a separator-free tail adds the tail as one more piece. */
  lemma {:induction false} SplitOnAfter(p: string, c: char, b: string)
    requires c !in b
    ensures SplitOn(p + [c] + b, c) == SplitOn(p, c) + [b]
    decreases |b|
  {
    var s := p + [c] + b;
    if b == [] {
      assert s[..|s| - 1] == p;
    } else {
      var b' := b[..|b| - 1];
      assert s[..|s| - 1] == p + [c] + b';
      SplitOnAfter(p, c, b');
      assert b' + [b[|b| - 1]] == b;
    }
  }

  /** `c.join(pieces)` */
  function JoinOn(pieces: seq<string>, c: char): string
    decreases |pieces|
  {
    if pieces == [] then []
    else if |pieces| == 1 then pieces[0]
    else JoinOn(pieces[..|pieces| - 1], c) + [c] + pieces[|pieces| - 1]
  }

  /** Joining the pieces of a split with the same separator gives the string back. */
  lemma {:induction false} SplitJoin(s: string, c: char)
    ensures JoinOn(SplitOn(s, c), c) == s
    decreases |s|
  {
    if s != [] {
      var init := s[..|s| - 1];
      var p := SplitOn(init, c);
      SplitJoin(init, c);
      var last := s[|s| - 1];
      if last != c {
        var q := p[..|p| - 1] + [p[|p| - 1] + [last]];
        if |p| == 1 {
          assert q == [p[0] + [last]];
        } else {
          assert q[..|q| - 1] == p[..|p| - 1];
          JoinLast(p, c);
        }
      }
      assert s == init + [last];
    }
  }

  /** Joining all but the last piece, then the separator and the last piece. */
  lemma JoinLast(p: seq<string>, c: char)
    requires |p| >= 2
    ensures JoinOn(p, c) == JoinOn(p[..|p| - 1], c) + [c] + p[|p| - 1]
  {
  }
}
