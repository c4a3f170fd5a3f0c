/**
 The matcher behind shExpMatch in a PAC script: a star stands for any text, a question mark
 for any one character, every other character for itself.
 */
module Glob {
  import opened Text

  predicate GlobMatch(pattern: string, s: string)
    decreases |pattern| + |s|
  {
    if pattern == "" then s == ""
    else if pattern[0] == '*' then GlobMatch(pattern[1..], s) || (s != "" && GlobMatch(pattern, s[1..]))
    else s != "" && (pattern[0] == '?' || pattern[0] == s[0]) && GlobMatch(pattern[1..], s[1..])
  }

  predicate IsLiteral(pattern: string) {
    '*' !in pattern && '?' !in pattern
  }

  /** A leading star may swallow any prefix, and nothing else. */
  lemma {:induction false} LeadingStar(rest: string, s: string)
    ensures GlobMatch("*" + rest, s) <==> exists k :: 0 <= k <= |s| && GlobMatch(rest, s[k..])
    decreases |s|
  {
    var pattern := "*" + rest;
    assert pattern[1..] == rest;
    assert s[0..] == s;
    if s != "" {
      LeadingStar(rest, s[1..]);
      forall k | 0 <= k < |s|
        ensures s[1..][k..] == s[k + 1..]
      {
      }
      if GlobMatch(pattern, s[1..]) {
        var k :| 0 <= k <= |s[1..]| && GlobMatch(rest, s[1..][k..]);
        assert GlobMatch(rest, s[k + 1..]);
      }
      if k :| 0 < k <= |s| && GlobMatch(rest, s[k..]) {
        assert s[1..][k - 1..] == s[k..];
        assert GlobMatch(pattern, s[1..]);
      }
    }
  }

  lemma {:induction false} LiteralMatchesItself(pattern: string, s: string)
    requires IsLiteral(pattern)
    ensures GlobMatch(pattern, s) <==> pattern == s
  {
    if pattern != "" && s != "" {
      assert pattern[0] in pattern;
      LiteralMatchesItself(pattern[1..], s[1..]);
      assert pattern == [pattern[0]] + pattern[1..] && s == [s[0]] + s[1..];
    }
  }

  /** Every pattern, wildcards included, matches its own text. */
  lemma {:induction false} MatchesOwnText(pattern: string)
    ensures GlobMatch(pattern, pattern)
  {
    if pattern != "" {
      MatchesOwnText(pattern[1..]);
    }
  }

  /** Text that ends with a pattern's own text is matched by star and that pattern. */
  lemma SuffixMatchesStar(suffix: string, s: string)
    requires EndsWith(s, suffix)
    ensures GlobMatch("*" + suffix, s)
  {
    MatchesOwnText(suffix);
    LeadingStar(suffix, s);
    assert GlobMatch(suffix, s[|s| - |suffix|..]);
  }

  /** Without wildcards of its own, star and a suffix match exactly the texts that end with it. */
  lemma StarSuffix(suffix: string, s: string)
    requires IsLiteral(suffix)
    ensures GlobMatch("*" + suffix, s) <==> EndsWith(s, suffix)
  {
    LeadingStar(suffix, s);
    if k :| 0 <= k <= |s| && GlobMatch(suffix, s[k..]) {
      LiteralMatchesItself(suffix, s[k..]);
      assert k == |s| - |suffix|;
    }
    if EndsWith(s, suffix) {
      SuffixMatchesStar(suffix, s);
    }
  }

  lemma BareStar(s: string)
    ensures GlobMatch("*", s)
  {
    SuffixMatchesStar("", s);
    assert "*" + "" == "*";
  }
}
