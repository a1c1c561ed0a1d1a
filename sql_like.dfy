/**
 * PostgreSQL's `LIKE` pattern matching, as the `ILIKE '%…%'` filters of the
 * Medium query use it: `%` matches any run of characters, `_` exactly one,
 * and a backslash (the default escape character) makes the next character
 * literal. `ILIKE` is `LIKE` on the lower-cased text and pattern.
 */
module SqlLike {
  import opened PyStr

  /**
   * `s LIKE p`. A pattern ending in a lone backslash is an error in
   * PostgreSQL; it matches nothing here (a pattern of the form `%…%` never
   * ends that way).
   */
  predicate Like(s: string, p: string)
    decreases |s| + |p|
  {
    if p == [] then s == []
    else if p[0] == '%' then Like(s, p[1..]) || (s != [] && Like(s[1..], p))
    else if p[0] == '_' then s != [] && Like(s[1..], p[1..])
    else if p[0] == '\\' then |p| >= 2 && s != [] && s[0] == p[1] && Like(s[1..], p[2..])
    else s != [] && s[0] == p[0] && Like(s[1..], p[1..])
  }

  /** A pattern with no wildcard and no escape character. */
  predicate Literal(p: string)
  {
    forall i :: 0 <= i < |p| ==> p[i] != '%' && p[i] != '_' && p[i] != '\\'
  }

  /** `s ILIKE p` */
  predicate ILike(s: string, p: string)
  {
    Like(Lower(s), Lower(p))
  }

  /** `%` alone matches every string. */
  lemma {:induction false} LikeAnything(s: string)
    ensures Like(s, "%")
    decreases |s|
  {
    if s != [] {
      LikeAnything(s[1..]);
    }
  }

  /** A literal prefix of the pattern must be matched by the same prefix of the text. */
  lemma {:induction false} LikeLiteralPrefix(p: string, t: string, q: string)
    requires Literal(p)
    ensures Like(p + t, p + q) <==> Like(t, q)
    decreases |p|
  {
    if p != [] {
      assert p[0] != '%' && p[0] != '_' && p[0] != '\\';
      assert (p + t)[0] == p[0] && (p + q)[0] == p[0];
      assert (p + t)[1..] == p[1..] + t && (p + q)[1..] == p[1..] + q;
      LikeLiteralPrefix(p[1..], t, q);
      assert Like(p + t, p + q) == Like(p[1..] + t, p[1..] + q);
    } else {
      assert p + t == t && p + q == q;
    }
  }

  /** A text matching a pattern that starts with a literal starts with that literal. */
  lemma {:induction false} LikeLiteralHead(p: string, s: string, q: string)
    requires Literal(p) && Like(s, p + q)
    ensures |p| <= |s| && s[..|p|] == p
    decreases |p|
  {
    if p != [] {
      assert (p + q)[0] == p[0] && (p + q)[1..] == p[1..] + q;
      LikeLiteralHead(p[1..], s[1..], q);
    }
  }

  /** A leading `%` may skip any prefix of the text. */
  lemma {:induction false} LikeSkip(s: string, q: string, i: nat)
    requires i <= |s| && Like(s[i..], q)
    ensures Like(s, ['%'] + q)
    decreases i
  {
    var p := ['%'] + q;
    assert p[1..] == q;
    if i > 0 {
      assert s[1..][i - 1..] == s[i..];
      LikeSkip(s[1..], q, i - 1);
    }
  }

  /** A text matching `%p%` for a literal `p` contains `p`. */
  lemma {:induction false} LikeContainsOnly(s: string, p: string)
    requires Literal(p) && Like(s, ['%'] + p + ['%'])
    ensures Contains(s, p)
    decreases |s|
  {
    var q := p + ['%'];
    assert ['%'] + p + ['%'] == ['%'] + q;
    if Like(s, q) {
      LikeLiteralHead(p, s, ['%']);
      assert OccursAt(s, p, 0);
    } else {
      LikeContainsOnly(s[1..], p);
      var j :| 0 <= j <= |s[1..]| - |p| && OccursAt(s[1..], p, j);
      assert s[j + 1..j + 1 + |p|] == s[1..][j..j + |p|];
      assert OccursAt(s, p, j + 1);
    }
  }

  /** For a literal `p`, `s LIKE '%p%'` is exactly "`p` occurs in `s`". */
  lemma LikeContains(s: string, p: string)
    requires Literal(p)
    ensures Like(s, ['%'] + p + ['%']) <==> Contains(s, p)
  {
    if Contains(s, p) {
      var i :| 0 <= i <= |s| - |p| && OccursAt(s, p, i);
      var rest := s[i + |p|..];
      assert s[i..] == p + rest;
      LikeAnything(rest);
      LikeLiteralPrefix(p, rest, "%");
      LikeSkip(s, p + ['%'], i);
      assert ['%'] + p + ['%'] == ['%'] + (p + ['%']);
    }
    if Like(s, ['%'] + p + ['%']) {
      LikeContainsOnly(s, p);
    }
  }

  /** Lower-casing never creates or removes a wildcard or an escape character. */
  lemma LowerLiteral(p: string)
    requires Literal(p)
    ensures Literal(Lower(p))
  {
  }

  /** `s ILIKE '%p%'` for a literal `p` is a case-insensitive substring test. */
  lemma ILikeContains(s: string, p: string)
    requires Literal(p)
    ensures ILike(s, "%" + p + "%") <==> Contains(Lower(s), Lower(p))
  {
    var lp := Lower(p);
    assert Lower("%" + p + "%") == ['%'] + lp + ['%'];
    LowerLiteral(p);
    LikeContains(Lower(s), lp);
  }

  /** A filter of `%` alone matches every value. */
  lemma PercentMatchesAll(s: string)
    ensures ILike(s, "%" + "%" + "%")
  {
    var l := Lower(s);
    assert Lower("%%%") == "%%%";
    LikeAnything(l);
    assert "%%%"[1..] == "%%";
    assert "%%"[1..] == "%";
  }
}
