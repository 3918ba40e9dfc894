/**
 * SQLite's `LIKE` operator, which SQLAlchemy's `ilike` becomes on SQLite:
 * `lower(x) LIKE lower(pattern)` with `%` matching any run of characters,
 * `_` matching exactly one, no escape character, and ASCII case folding.
 */
module SqlLike {
  import opened Strings

  /** `s LIKE p`, characters compared exactly (case is folded by `ILike`). */
  predicate Like(s: string, p: string)
    decreases |s| + |p|
  {
    if |p| == 0 then |s| == 0
    else if p[0] == '%' then Like(s, p[1..]) || (|s| > 0 && Like(s[1..], p))
    else |s| > 0 && (p[0] == '_' || p[0] == s[0]) && Like(s[1..], p[1..])
  }

  /** `x.ilike(p)`: both sides lowered with SQL's `lower()`. */
  predicate ILike(s: string, p: string) {
    Like(Lower(s), Lower(p))
  }

  /** The pattern `f'%{q}%'` the course search builds from a query. */
  function SearchPattern(q: string): (p: string)
    ensures |p| == |q| + 2 && p[0] == '%' && p[|p| - 1] == '%' && p[1..|p| - 1] == q
  {
    "%" + q + "%"
  }

  predicate NoWildcards(q: string) {
    '%' !in q && '_' !in q
  }

  lemma {:induction false} LikeAnyRun(s: string)
    ensures Like(s, "%")
    decreases |s|
  {
    if |s| > 0 {
      LikeAnyRun(s[1..]);
    }
  }

  /** A wildcard-free pattern followed by `%` matches exactly the texts it starts. */
  lemma {:induction false} LikeLiteralPrefix(s: string, q: string)
    requires NoWildcards(q)
    ensures Like(s, q + "%") <==> StartsWith(s, q)
    decreases |q|
  {
    if |q| == 0 {
      assert q + "%" == "%";
      LikeAnyRun(s);
    } else {
      assert (q + "%")[0] == q[0];
      assert (q + "%")[1..] == q[1..] + "%";
      assert q[0] in q;
      assert NoWildcards(q[1..]) by {
        forall c | c in q[1..] ensures c in q { }
      }
      if |s| > 0 {
        LikeLiteralPrefix(s[1..], q[1..]);
        if |q| <= |s| {
          assert s[..|q|] == [s[0]] + s[1..][..|q| - 1];
          assert q == [q[0]] + q[1..];
        }
      }
    }
  }

  /** A leading `%` lets the rest of the pattern match any suffix. */
  lemma {:induction false} LikeLeadingPercent(s: string, r: string)
    ensures Like(s, "%" + r) <==> exists k :: 0 <= k <= |s| && Like(s[k..], r)
    decreases |s|
  {
    var p := "%" + r;
    assert p[0] == '%' && p[1..] == r;
    assert s[0..] == s;
    if |s| > 0 {
      LikeLeadingPercent(s[1..], r);
      if Like(s, p) && !Like(s, r) {
        var k :| 0 <= k <= |s[1..]| && Like(s[1..][k..], r);
        assert s[1..][k..] == s[k + 1..];
      }
      if exists k :: 0 <= k <= |s| && Like(s[k..], r) {
        var k :| 0 <= k <= |s| && Like(s[k..], r);
        if k > 0 {
          assert s[1..][k - 1..] == s[k..];
        }
      }
    }
  }

  /** With no wildcard in the query, the search pattern is substring search. */
  lemma LikeSearchIsContains(s: string, q: string)
    requires NoWildcards(q)
    ensures Like(s, SearchPattern(q)) <==> Contains(s, q)
  {
    assert SearchPattern(q) == "%" + (q + "%");
    LikeLeadingPercent(s, q + "%");
    if Like(s, SearchPattern(q)) {
      var k :| 0 <= k <= |s| && Like(s[k..], q + "%");
      LikeLiteralPrefix(s[k..], q);
      assert s[k..][..|q|] == s[k..k + |q|];
      assert OccursAt(s, q, k);
    }
    if Contains(s, q) {
      var k :| 0 <= k <= |s| - |q| && OccursAt(s, q, k);
      LikeLiteralPrefix(s[k..], q);
      assert s[k..][..|q|] == s[k..k + |q|];
    }
  }

  /**
   * The course search's `ilike(f'%{q}%')` on a query without `%` or `_` is
   * case-insensitive substring search.
   */
  lemma ILikeSearchIsContains(s: string, q: string)
    requires NoWildcards(q)
    ensures ILike(s, SearchPattern(q)) <==> Contains(Lower(s), Lower(q))
  {
    assert Lower(SearchPattern(q)) == SearchPattern(Lower(q));
    forall i | 0 <= i < |q|
      ensures Lower(q)[i] != '%' && Lower(q)[i] != '_'
    {
      assert q[i] in q;
    }
    LikeSearchIsContains(Lower(s), Lower(q));
  }
}
