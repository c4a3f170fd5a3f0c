/**
 The routing interpreter of the service worker (extension/background.js, domainMatchesPattern
 and evaluateHostRouting), and its agreement with the rules compiled into the PAC script.
 */
module HostRouting {
  import opened Wrappers
  import opened Text
  import opened Glob
  import opened Sequences
  import opened UserRules
  import opened RulePatterns

  // ---------------------------------------------------------------- the interpreter

  /** What split("://")[1] yields, or the whole text when that is empty. */
  function AfterMark(s: string): string {
    match IndexOf(s, "://")
    case None => s
    case Some(i) =>
      var rest := s[i + 3..];
      var second := match IndexOf(rest, "://") case None => rest case Some(j) => rest[..j];
      if second == "" then s else second
  }

  const DROPPED: set<char> := {'"', '\'', '\\', ';'}

  function InterpretedPattern(raw: string, parse: HostParser): string {
    var pattern := Trim(Lower(raw));
    var host :=
      if Contains(pattern, "://") then
        match parse(pattern)
        case Some(h) => h
        case None => Before(Before(AfterMark(pattern), '/'), ':')
      else if '/' in pattern then Trim(Before(pattern, '/'))
      else pattern;
    var bare := if ':' in host && ']' !in host then Trim(Before(host, ':')) else host;
    Trim(Without(bare, DROPPED))
  }

  /** The host is the pattern's domain or stands under it. */
  predicate HostUnder(h: string, p: string) {
    if h == p then true
    else if StartsWith(p, "*.") then h == p[2..] || EndsWith(h, "." + p[2..])
    else if StartsWith(p, ".") then h == p[1..] || EndsWith(h, "." + p[1..])
    else h == p || EndsWith(h, "." + p)
  }

  predicate DomainMatchesPattern(host: string, pattern: string, parse: HostParser) {
    && host != "" && pattern != ""
    && InterpretedPattern(pattern, parse) != ""
    && HostUnder(Trim(Lower(host)), InterpretedPattern(pattern, parse))
  }

  datatype ProfileRule = ProfileRule(action: string, domains: seq<string>)

  function Verdict(action: string): string {
    if action == "proxy" || action == "block" then action else "direct"
  }

  function UserRuleMatches(host: string, parse: HostParser): Rule -> bool {
    (r: Rule) => r.enabled && r.pattern != "" && DomainMatchesPattern(host, r.pattern, parse)
  }

  function DomainMatches(host: string, parse: HostParser): string -> bool {
    d => d != "" && DomainMatchesPattern(host, d, parse)
  }

  /** A profile rule matches through any of its domains. */
  function ProfileRuleMatches(domain: string -> bool): ProfileRule -> bool {
    (r: ProfileRule) => r.action != "" && FirstHit(domain, r.domains).Some?
  }

  /** User rules first, then profile rules, then the profile's default policy. */
  function Routing(host: string, userRules: seq<Rule>, profileRules: seq<ProfileRule>, defaultPolicy: string, parse: HostParser): string {
    if host == "" then "direct" else
    var h := Trim(Lower(host));
    match FirstHit(UserRuleMatches(h, parse), userRules)
    case Some(i) => Verdict(userRules[i].action)
    case None =>
      match FirstHit(ProfileRuleMatches(DomainMatches(h, parse)), profileRules)
      case Some(i) => Verdict(profileRules[i].action)
      case None => if defaultPolicy == "proxy" then "proxy" else "direct"
  }

  method FirstProfileRule(domain: string -> bool, profileRules: seq<ProfileRule>) returns (hit: Option<nat>)
    ensures hit == FirstHit(ProfileRuleMatches(domain), profileRules)
  {
    var i := 0;
    while i < |profileRules|
      invariant 0 <= i <= |profileRules|
      invariant forall k :: 0 <= k < i ==> !ProfileRuleMatches(domain)(profileRules[k])
    {
      if profileRules[i].action != "" {
        var found := FindFirst(domain, profileRules[i].domains);
        if found.Some? {
          FirstHitIs(ProfileRuleMatches(domain), profileRules, i);
          return Some(i);
        }
      }
      i := i + 1;
    }
    return None;
  }

  method EvaluateHostRouting(host: string, userRules: seq<Rule>, profileRules: seq<ProfileRule>, defaultPolicy: string, parse: HostParser)
    returns (verdict: string)
    ensures verdict == Routing(host, userRules, profileRules, defaultPolicy, parse)
  {
    if host == "" {
      return "direct";
    }
    var h := Trim(Lower(host));
    var hit := FindFirst(UserRuleMatches(h, parse), userRules);
    if hit.Some? {
      return Verdict(userRules[hit.value].action);
    }
    hit := FirstProfileRule(DomainMatches(h, parse), profileRules);
    if hit.Some? {
      return Verdict(profileRules[hit.value].action);
    }
    return if defaultPolicy == "proxy" then "proxy" else "direct";
  }

  // ---------------------------------------------------------------- agreement on one pattern

  predicate CompiledMatches(pattern: string, host: string, parse: HostParser) {
    var clean := CleanPattern(pattern, parse);
    clean != "" && Covers(clean, Lower(host))
  }

  lemma {:induction false} LowerBefore(s: string, c: char)
    requires !('A' <= c <= 'Z') && !('a' <= c <= 'z')
    ensures Before(Lower(s), c) == Lower(Before(s, c))
  {
    if s != "" && s[0] != c {
      assert Lower(s)[1..] == Lower(s[1..]);
      LowerBefore(s[1..], c);
    }
  }

  lemma {:induction false} LowerTrimStart(s: string)
    ensures TrimStart(Lower(s)) == Lower(TrimStart(s))
  {
    if s != "" && IsSpace(s[0]) {
      assert Lower(s)[1..] == Lower(s[1..]);
      LowerTrimStart(s[1..]);
    }
  }

  lemma {:induction false} LowerTrimEnd(s: string)
    ensures TrimEnd(Lower(s)) == Lower(TrimEnd(s))
  {
    if s != "" {
      var c := s[|s| - 1];
      assert Lower(s)[|s| - 1] == LowerChar(c) && IsSpace(LowerChar(c)) == IsSpace(c);
      if IsSpace(c) {
        assert Lower(s)[..|s| - 1] == Lower(s[..|s| - 1]);
        LowerTrimEnd(s[..|s| - 1]);
      }
    }
  }

  lemma LowerTrim(s: string)
    ensures Trim(Lower(s)) == Lower(Trim(s))
  {
    LowerTrimStart(s);
    LowerTrimEnd(TrimStart(s));
  }

  lemma LowerMembers(s: string, c: char)
    requires !('A' <= c <= 'Z') && !('a' <= c <= 'z')
    ensures c in Lower(s) <==> c in s
  {
    if c in s {
      var i :| 0 <= i < |s| && s[i] == c;
      assert Lower(s)[i] == c;
    }
    if c in Lower(s) {
      var i :| 0 <= i < |s| && Lower(s)[i] == c;
      assert s[i] == c;
    }
  }

  predicate MarkAt(s: string, i: nat) {
    i + 3 <= |s| && s[i] == ':' && s[i + 1] == '/' && s[i + 2] == '/'
  }

  lemma MarkIsOccurrence(s: string, i: nat)
    ensures OccursAt(s, "://", i) <==> MarkAt(s, i)
  {
    if MarkAt(s, i) {
      assert s[i..i + 3] == "://";
    }
    if OccursAt(s, "://", i) {
      assert s[i] == s[i..i + 3][0] && s[i + 1] == s[i..i + 3][1] && s[i + 2] == s[i..i + 3][2];
    }
  }

  lemma LowerContains(s: string)
    ensures Contains(Lower(s), "://") <==> Contains(s, "://")
  {
    forall i: nat
      ensures OccursAt(s, "://", i) <==> OccursAt(Lower(s), "://", i)
    {
      MarkIsOccurrence(s, i);
      MarkIsOccurrence(Lower(s), i);
    }
  }

  /** What both implementations reduce an accepted pattern to, up to the case of its letters. */
  function Core(pattern: string): string {
    Before(Before(Trim(pattern), '/'), ':')
  }

  predicate IsCoreText(s: string) {
    forall c :: c in s ==> IsHostChar(c) || c == '*'
  }

  lemma CoreTextIsPlain(s: string)
    requires IsCoreText(s)
    ensures IsAscii(s) && Quotable(s) && Trim(s) == s && ']' !in s && '/' !in s
    ensures forall c :: c in s ==> c !in DROPPED
  {
    forall c | c in s
      ensures !IsSpace(c) && c as int <= 127
    {
    }
    TrimOfSpaceless(s);
  }

  /** The steps after the URL case, on text that needs no cleaning. */
  lemma CompiledCore(pattern: string, parse: HostParser)
    requires var s := Trim(pattern); !Contains(s, "://") && IsCoreText(Before(s, '/'))
    ensures CleanPattern(pattern, parse) == Core(pattern)
  {
    var s := Trim(pattern);
    var host := Before(s, '/');
    CoreTextIsPlain(host);
    CoreTextIsPlain(Before(host, ':'));
    assert '/' !in s ==> host == s;
    assert HostPart(pattern, parse) == Core(pattern);
    WithoutNothing(Core(pattern), UNQUOTABLE);
  }

  lemma InterpretedCore(pattern: string, parse: HostParser)
    requires var s := Trim(pattern); !Contains(s, "://") && IsCoreText(Before(s, '/'))
    ensures InterpretedPattern(pattern, parse) == Lower(Core(pattern))
  {
    var s := Trim(pattern);
    var host := Before(s, '/');
    LowerTrim(pattern);
    LowerContains(s);
    LowerMembers(s, '/');
    LowerBefore(s, '/');
    LowerCoreText(host);
    CoreTextIsPlain(Lower(host));
    LowerBefore(host, ':');
    LowerMembers(host, ':');
    CoreTextIsPlain(Before(Lower(host), ':'));
    WithoutNothing(Lower(Core(pattern)), DROPPED);
  }

  lemma LowerCoreText(s: string)
    requires IsCoreText(s)
    ensures IsCoreText(Lower(s))
  {
    forall c | c in Lower(s)
      ensures IsHostChar(c) || c == '*'
    {
      var i :| 0 <= i < |s| && Lower(s)[i] == c;
      assert s[i] in s;
    }
  }

  lemma LowerHost(host: string)
    requires Trimmed(host)
    ensures Trim(Lower(host)) == Lower(host)
  {
    LowerTrim(host);
    TrimOfTrimmed(host);
  }

  /** A wildcard and a plain domain: all three spellings cover the domain's tree. */
  lemma WildcardCovers(w: string, domain: string, host: string)
    requires w == "*." || w == "." || w == ""
    requires IsLiteral(domain) && '/' !in domain && (domain == "" || domain[0] != '.')
    ensures Covers(w + domain, host) <==> host == Lower(domain) || EndsWith(host, "." + Lower(domain))
  {
    CoversPlainDomain(domain, host);
    assert (w + domain)[|w|..] == domain;
  }

  lemma WildcardHostUnder(w: string, domain: string, h: string)
    requires w == "*." || w == "." || w == ""
    requires domain == "" || (domain[0] != '*' && domain[0] != '.')
    ensures HostUnder(h, w + domain) <==> h == domain || EndsWith(h, "." + domain)
  {
    var p := w + domain;
    assert p[|w|..] == domain;
    if h == p && w != "" {
      assert h[|h| - |"." + domain|..] == "." + domain;
    }
  }

  lemma LowerWildcard(w: string, domain: string)
    requires w == "*." || w == "." || w == ""
    requires IsLiteral(domain) && (domain == "" || domain[0] != '.')
    ensures Lower(w + domain) == w + Lower(domain)
    ensures Lower(domain) == "" || (Lower(domain)[0] != '*' && Lower(domain)[0] != '.')
  {
    LowerConcat(w, domain);
    assert Lower(w) == w;
    if domain != "" {
      assert domain[0] in domain && Lower(domain)[0] == LowerChar(domain[0]);
    }
  }

  lemma WildcardTextIsCore(w: string, h: string)
    requires IsHostText(h) && forall c :: c in w ==> c == '*' || c == '.'
    ensures IsCoreText(w + h)
  {
    forall c | c in w + h
      ensures IsHostChar(c) || c == '*'
    {
      assert c in w || c in h;
    }
  }

  lemma {:induction false} BeforeMembers(s: string, c: char, x: char)
    requires x in Before(s, c)
    ensures x in s
  {
    var i :| 0 <= i < |Before(s, c)| && Before(s, c)[i] == x;
    assert s[i] == x;
  }

  lemma HostTextDomain(h: string)
    requires IsHostText(h) && h != "" && h[0] != '.'
    ensures var domain := Before(h, ':');
            IsLiteral(domain) && '/' !in domain && (domain == "" || domain[0] != '.')
  {
    var domain := Before(h, ':');
    forall x | x in domain
      ensures IsHostChar(x)
    {
      BeforeMembers(h, ':', x);
    }
  }

  /** Before the colon an accepted pattern is a wildcard and a domain without wildcards. */
  lemma AcceptedCore(pattern: string) returns (w: string, domain: string)
    requires Validate(pattern) && Trim(pattern) != "*"
    ensures w == "*." || w == "." || w == ""
    ensures IsLiteral(domain) && '/' !in domain && (domain == "" || domain[0] != '.')
    ensures Core(pattern) == w + domain
    ensures !Contains(Trim(pattern), "://") && IsCoreText(Before(Trim(pattern), '/'))
  {
    var h: string;
    w, h := AcceptedShape(pattern);
    WildcardCases(Trim(pattern));
    WildcardTextIsCore(w, h);
    BeforeConcat(w, h, ':');
    HostTextDomain(h);
    domain := Before(h, ':');
  }

  lemma WildcardCases(s: string)
    ensures var w := Wildcard(s);
            && (w == "*." || w == "." || w == "")
            && ':' !in w && forall c :: c in w ==> c == '*' || c == '.'
  {
  }

  /** On an accepted pattern other than the star both sides test for the same domain's tree. */
  lemma PlainPatternAgreement(pattern: string, host: string, parse: HostParser)
    requires Validate(pattern) && Trim(pattern) != "*" && host != "" && Trimmed(host)
    ensures CompiledMatches(pattern, host, parse) <==> DomainMatchesPattern(host, pattern, parse)
  {
    var w, domain := AcceptedCore(pattern);
    LowerHost(host);
    CompiledCore(pattern, parse);
    InterpretedCore(pattern, parse);
    WildcardCovers(w, domain, Lower(host));
    LowerWildcard(w, domain);
    WildcardHostUnder(w, Lower(domain), Lower(host));
  }

  lemma StarPatternCores(pattern: string, parse: HostParser)
    requires Trim(pattern) == "*"
    ensures CleanPattern(pattern, parse) == "*" && InterpretedPattern(pattern, parse) == "*"
  {
    var star := Trim(pattern);
    assert !Contains(star, "://");
    assert Before("*", '/') == "*" && Before("*", ':') == "*";
    CompiledCore(pattern, parse);
    InterpretedCore(pattern, parse);
    assert Lower("*") == "*";
  }

  lemma HostUnderStar(h: string)
    ensures HostUnder(h, "*") <==> h == "*" || EndsWith(h, ".*")
  {
    var p := "*";
    assert |p| == 1 && p[0] != '.';
    assert "." + p == ".*";
    assert HostUnder(h, p) <==> h == p || EndsWith(h, "." + p);
  }

  lemma StarCovers(h: string)
    ensures Covers("*", h)
  {
    assert Lower("*") == "*";
    BareStar(h);
  }

  lemma StarPatternAgreement(pattern: string, host: string, parse: HostParser)
    requires Trim(pattern) == "*" && host != "" && Trimmed(host)
    ensures CompiledMatches(pattern, host, parse)
    ensures DomainMatchesPattern(host, pattern, parse) <==> Lower(host) == "*" || EndsWith(Lower(host), ".*")
  {
    LowerHost(host);
    StarPatternCores(pattern, parse);
    StarCovers(Lower(host));
    HostUnderStar(Lower(host));
  }

  /**
   On every pattern the popup accepts, whatever the host parser does, the compiled condition
   and the interpreter accept the same hosts; for the bare star they do so only on the host
   "*" and on hosts that end in ".*".
   */
  lemma PatternAgreement(pattern: string, host: string, parse: HostParser)
    requires Validate(pattern) && host != "" && Trimmed(host)
    ensures (CompiledMatches(pattern, host, parse) <==> DomainMatchesPattern(host, pattern, parse))
       <==> (Trim(pattern) != "*" || Lower(host) == "*" || EndsWith(Lower(host), ".*"))
  {
    if Trim(pattern) == "*" {
      StarPatternAgreement(pattern, host, parse);
    } else {
      PlainPatternAgreement(pattern, host, parse);
    }
  }

  // ---------------------------------------------------------------- agreement on rule lists

  /** The popup's patterns, the bare star excepted. */
  predicate Comparable(rules: seq<Rule>) {
    forall i :: 0 <= i < |rules| ==> Validate(rules[i].pattern) && Trim(rules[i].pattern) != "*"
  }

  lemma RuleAgreement(r: Rule, host: string, parse: HostParser)
    requires Validate(r.pattern) && Trim(r.pattern) != "*" && host != "" && Trimmed(host)
    ensures Applying(Lower(host), parse)(r) == UserRuleMatches(Trim(Lower(host)), parse)(r)
  {
    LowerHost(host);
    LowerOfLower(host);
    LowerOfLower(Lower(host));
    PlainPatternAgreement(r.pattern, Lower(host), parse);
  }

  /** Interpreter and compiled script pick the same rule out of every list the popup can build. */
  lemma SameRule(rules: seq<Rule>, host: string, parse: HostParser)
    requires host != "" && Trimmed(host) && Comparable(rules)
    ensures FirstHit(Applying(Lower(host), parse), rules) == FirstHit(UserRuleMatches(Trim(Lower(host)), parse), rules)
  {
    var p, q := Applying(Lower(host), parse), UserRuleMatches(Trim(Lower(host)), parse);
    forall i | 0 <= i < |rules|
      ensures p(rules[i]) == q(rules[i])
    {
      RuleAgreement(rules[i], host, parse);
    }
    FirstHitUnique(p, q, rules);
  }

  datatype Route = ViaProxy | Blocked | Direct

  /** Where a compiled rule sends traffic, by its action. */
  function CompiledRoute(action: string): Route {
    var upper := Upper(if action == "" then "PROXY" else action);
    if upper == "DIRECT" then Direct else if upper == "BLOCK" then Blocked else ViaProxy
  }

  function InterpretedRoute(action: string): Route {
    if Verdict(action) == "proxy" then ViaProxy else if Verdict(action) == "block" then Blocked else Direct
  }

  /**
   The two sides read the same action alike only in part: an action stored in capitals, as the
   popup stores it, is shown as direct although the script sends it through the proxy.
   */
  lemma ActionAgreement(action: string)
    ensures CompiledRoute(action) == InterpretedRoute(action)
       <==> action == "proxy" || action == "block" || Upper(action) == "DIRECT"
  {
    assert Upper("proxy") == "PROXY" && Upper("block") == "BLOCK" && Upper("") == "";
  }
}
