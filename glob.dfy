/**
 * The key patterns of the store's `KEYS` command, restricted to the one
 * wildcard the cache layer uses: `*` matches any run of characters, the empty
 * run included; every other character matches itself.
 */
module Glob {

  const Wildcard: char := '*'

  function Matches(pattern: string, s: string): bool
    decreases |pattern| + |s|
  {
    if pattern == [] then s == []
    else if pattern[0] == Wildcard then Matches(pattern[1..], s) || (s != [] && Matches(pattern, s[1..]))
    else s != [] && s[0] == pattern[0] && Matches(pattern[1..], s[1..])
  }

  /** Every text matches itself as a pattern, even one holding `*`. */
  lemma {:induction false} MatchesSelf(p: string)
    ensures Matches(p, p)
  {
    if p != [] {
      MatchesSelf(p[1..]);
      if p[0] == Wildcard {
        assert Matches(p, p[1..]);
      }
    }
  }

  /** A lone `*` matches everything. */
  lemma {:induction false} StarMatchesAll(s: string)
    ensures Matches([Wildcard], s)
  {
    if s != [] {
      StarMatchesAll(s[1..]);
    }
  }

  /** Matching is compositional: matching pieces concatenate to a match. */
  lemma {:induction false} MatchesConcat(p1: string, s1: string, p2: string, s2: string)
    requires Matches(p1, s1) && Matches(p2, s2)
    ensures Matches(p1 + p2, s1 + s2)
    decreases |p1| + |s1|
  {
    if p1 == [] {
      assert p1 + p2 == p2 && s1 + s2 == s2;
    } else if p1[0] == Wildcard {
      assert (p1 + p2)[0] == Wildcard && (p1 + p2)[1..] == p1[1..] + p2;
      if Matches(p1[1..], s1) {
        MatchesConcat(p1[1..], s1, p2, s2);
      } else {
        MatchesConcat(p1, s1[1..], p2, s2);
        assert (s1 + s2)[1..] == s1[1..] + s2;
      }
    } else {
      MatchesConcat(p1[1..], s1[1..], p2, s2);
      assert (p1 + p2)[1..] == p1[1..] + p2;
      assert (s1 + s2)[1..] == s1[1..] + s2;
    }
  }

  /** Without a wildcard a pattern matches exactly one text: itself. */
  lemma {:induction false} LiteralMatchesOnlyItself(p: string, s: string)
    requires Wildcard !in p
    ensures Matches(p, s) <==> s == p
  {
    if p != [] && s != [] {
      assert p[0] != Wildcard;
      LiteralMatchesOnlyItself(p[1..], s[1..]);
      if s == p {
        assert s[1..] == p[1..];
      }
      assert s == [s[0]] + s[1..] && p == [p[0]] + p[1..];
    }
  }

  /** `p*` with a literal `p` matches exactly the texts that start with `p`. */
  lemma {:induction false} PrefixPattern(p: string, s: string)
    requires Wildcard !in p
    ensures Matches(p + [Wildcard], s) <==> p <= s
  {
    if p == [] {
      StarMatchesAll(s);
      assert p + [Wildcard] == [Wildcard];
    } else {
      assert p[0] != Wildcard;
      assert (p + [Wildcard])[1..] == p[1..] + [Wildcard];
      if s != [] {
        PrefixPattern(p[1..], s[1..]);
        assert p <= s <==> s[0] == p[0] && p[1..] <= s[1..];
      }
    }
  }
}
