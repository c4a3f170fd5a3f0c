/**
 User routing rules: how a stored rule's pattern is cleaned, what it compiles to, and what it
 means (src/extensionPureLogic.ts, the body of injectUserRulesIntoPac).

 `new URL(text).hostname` is a parameter of type HostParser throughout; None stands for the
 exception it throws.
 */
module UserRules {
  import opened Wrappers
  import opened Text
  import opened Glob
  import opened Sequences

  datatype Rule = Rule(pattern: string, action: string, enabled: bool)

  type HostParser = string -> Option<string>

  // ---------------------------------------------------------------- cleaning a pattern

  predicate Active(r: Rule) {
    r.enabled && r.pattern != "" && Trim(r.pattern) != ""
  }

  predicate IsLetter(c: char) {
    'a' <= c <= 'z' || 'A' <= c <= 'Z'
  }

  function AfterLetters(s: string): string {
    if s != "" && IsLetter(s[0]) then AfterLetters(s[1..]) else s
  }

  /** Drops a leading scheme made of letters, as in "https://". */
  function WithoutScheme(s: string): string {
    var rest := AfterLetters(s);
    if rest != s && StartsWith(rest, "://") then rest[3..] else s
  }

  /** The host part of whatever the user pasted: a URL, a path, a CIDR block, a host and port. */
  function HostPart(pattern: string, parse: HostParser): string {
    var raw := Trim(pattern);
    var host :=
      if Contains(raw, "://") then
        match parse(raw)
        case Some(h) => h
        case None => Before(Before(WithoutScheme(raw), '/'), ':')
      else if '/' in raw then Trim(Before(raw, '/'))
      else raw;
    if ':' in host && ']' !in host then Trim(Before(host, ':')) else host
  }

  /** The characters that would end or escape a double-quoted JavaScript literal. */
  const UNQUOTABLE: set<char> := {'"', '\\', '\r', '\n'}

  predicate Quotable(s: string) {
    forall c :: c in s ==> c !in UNQUOTABLE
  }

  function PunycodePart(part: string, parse: HostParser): string {
    if IsAscii(part) || '*' in part then part else
    match parse("http://" + part + ".test")
    case Some(h) => if EndsWith(h, ".test") then h[..|h| - 5] else h
    case None => part
  }

  function PunycodeParts(parts: seq<string>, parse: HostParser): (r: seq<string>)
    ensures |r| == |parts|
  {
    if parts == [] then [] else [PunycodePart(parts[0], parse)] + PunycodeParts(parts[1..], parse)
  }

  /** The host name that the parser yields for a name, behind its wildcard, or the fallback. */
  function HostOr(wildcard: string, name: string, parse: HostParser, fallback: string): string {
    match parse("http://" + name)
    case Some(h) => wildcard + h
    case None => fallback
  }

  function Punycode(pattern: string, parse: HostParser): string {
    if StartsWith(pattern, "*.") then HostOr("*.", pattern[2..], parse, pattern)
    else if StartsWith(pattern, ".") then HostOr(".", pattern[1..], parse, pattern)
    else if '*' !in pattern && '/' !in pattern then HostOr("", pattern, parse, pattern)
    else Join(PunycodeParts(Split(pattern, '.'), parse), ".")
  }

  function Unquoted(pattern: string, parse: HostParser): (r: string)
    ensures Quotable(r)
  {
    Without(HostPart(pattern, parse), UNQUOTABLE)
  }

  /** The pattern that is compiled; a rule whose cleaned pattern is empty is skipped. */
  function CleanPattern(pattern: string, parse: HostParser): (r: string)
    ensures IsAscii(r)
    ensures IsAscii(Unquoted(pattern, parse)) ==> Quotable(r)
  {
    var plain := Unquoted(pattern, parse);
    if plain == "" || IsAscii(plain) then plain else AsciiOnly(Punycode(plain, parse))
  }

  /** Every host name the parser yields can stand in a literal. */
  ghost predicate YieldsQuotable(parse: HostParser) {
    forall s :: parse(s).Some? ==> Quotable(parse(s).value)
  }

  lemma {:induction false} SplitQuotable(s: string, c: char)
    requires Quotable(s)
    ensures forall i :: 0 <= i < |Split(s, c)| ==> Quotable(Split(s, c)[i])
  {
    if s != "" {
      assert s[0] in s && forall x :: x in s[1..] ==> x in s;
      SplitQuotable(s[1..], c);
    }
  }

  lemma {:induction false} PartsQuotable(parts: seq<string>, parse: HostParser)
    requires YieldsQuotable(parse) && forall i :: 0 <= i < |parts| ==> Quotable(parts[i])
    ensures Quotable(Join(PunycodeParts(parts, parse), "."))
  {
    if parts != [] {
      var done := PunycodeParts(parts, parse);
      assert Quotable(done[0]);
      if |parts| > 1 {
        PartsQuotable(parts[1..], parse);
        assert done[1..] == PunycodeParts(parts[1..], parse);
      }
    }
  }

  lemma HostOrQuotable(wildcard: string, name: string, parse: HostParser, fallback: string)
    requires YieldsQuotable(parse) && Quotable(wildcard) && Quotable(fallback)
    ensures Quotable(HostOr(wildcard, name, parse, fallback))
  {
  }

  lemma PunycodeQuotable(pattern: string, parse: HostParser)
    requires YieldsQuotable(parse) && Quotable(pattern)
    ensures Quotable(Punycode(pattern, parse))
  {
    SplitQuotable(pattern, '.');
    PartsQuotable(Split(pattern, '.'), parse);
    if StartsWith(pattern, "*.") {
      HostOrQuotable("*.", pattern[2..], parse, pattern);
    } else if StartsWith(pattern, ".") {
      HostOrQuotable(".", pattern[1..], parse, pattern);
    } else {
      HostOrQuotable("", pattern, parse, pattern);
    }
  }

  /**
   A cleaned pattern can always stand in a literal, unless the host parser itself puts a quote, a
   backslash or a line break into a host name.
   */
  lemma CleanPatternQuotable(pattern: string, parse: HostParser)
    requires YieldsQuotable(parse)
    ensures Quotable(CleanPattern(pattern, parse))
  {
    var plain := Unquoted(pattern, parse);
    PunycodeQuotable(plain, parse);
  }

  predicate Emits(r: Rule, parse: HostParser) {
    Active(r) && CleanPattern(r.pattern, parse) != ""
  }

  // ---------------------------------------------------------------- directives

  /** The directive that sends traffic to the proxy when no rule says otherwise. */
  function DefaultDirective(pacText: string, proxyServer: string, proxyProtocol: string, detected: string): string {
    var given := Lower(proxyProtocol);
    var protocol :=
      if given != "" then given
      else if Contains(pacText, "SOCKS5 ") then "socks5"
      else if Contains(pacText, "HTTPS ") then "https"
      else "";
    var directive :=
      if detected != "" then detected
      else if proxyServer == "" then "DIRECT"
      else if protocol == "socks5" then "SOCKS5 " + proxyServer
      else if protocol == "https" then "HTTPS " + proxyServer
      else "PROXY " + proxyServer;
    if Contains(pacText, "; DIRECT") && !Contains(directive, "; DIRECT") && directive != "DIRECT"
    then directive + "; DIRECT" else directive
  }

  const BLOCKED := "PROXY 127.0.0.1:0"

  function Directive(action: string, standard: string): string {
    var upper := Upper(if action == "" then "PROXY" else action);
    if upper == "DIRECT" then "DIRECT"
    else if upper == "BLOCK" then BLOCKED
    else if !Contains(standard, "; DIRECT") && standard != "DIRECT" && !Contains(standard, "127.0.0.1")
    then standard + "; DIRECT"
    else standard
  }

  /** Traffic goes on without the proxy when the directive says so, or blocks or loops back on purpose. */
  predicate HasFallback(directive: string) {
    directive == "DIRECT" || Contains(directive, "; DIRECT") || Contains(directive, "127.0.0.1")
  }

  lemma AppendedFallback(directive: string)
    ensures Contains(directive + "; DIRECT", "; DIRECT")
  {
    OccurrenceIsContained(directive + "; DIRECT", "; DIRECT", |directive|);
  }

  /** No rule, whatever its action and the default directive, can cut traffic off when the proxy is down, except by blocking. */
  lemma EveryDirectiveFallsBack(action: string, standard: string)
    ensures HasFallback(Directive(action, standard))
  {
    AppendedFallback(standard);
    OccurrenceIsContained(BLOCKED, "127.0.0.1", 6);
  }

  // ---------------------------------------------------------------- compiled rules

  /** One disjunct of a compiled condition. */
  datatype Test = HostIs(text: string) | DomainIs(text: string) | Matches(text: string)

  datatype CompiledRule = CompiledRule(tests: seq<Test>, directive: string)

  predicate Holds(t: Test, host: string) {
    match t
    case HostIs(s) => host == s
    case DomainIs(s) => EndsWith(host, s)
    case Matches(s) => GlobMatch(s, host)
  }

  function Tests(pattern: string): (tests: seq<Test>)
    ensures tests != []
  {
    if StartsWith(pattern, "*.") then
      [Matches(Lower(pattern)), HostIs(Lower(pattern[2..])), DomainIs("." + pattern[2..])]
    else if StartsWith(pattern, ".") then
      [Matches("*." + Lower(pattern[1..])), HostIs(Lower(pattern[1..])), DomainIs("." + pattern[1..])]
    else if '*' !in pattern && '/' !in pattern then
      [HostIs(Lower(pattern)), DomainIs("." + pattern), Matches("*." + Lower(pattern))]
    else
      [Matches(Lower(pattern))]
  }

  function CompileRule(r: Rule, standard: string, parse: HostParser): CompiledRule {
    CompiledRule(Tests(CleanPattern(r.pattern, parse)), Directive(r.action, standard))
  }

  function Emitting(parse: HostParser): Rule -> bool {
    r => Emits(r, parse)
  }

  function Compiling(standard: string, parse: HostParser): Rule -> CompiledRule {
    r => CompileRule(r, standard, parse)
  }

  function Compile(rules: seq<Rule>, standard: string, parse: HostParser): seq<CompiledRule> {
    Collect(Emitting(parse), Compiling(standard, parse), rules)
  }

  /** Running the compiled rules: the directive of the first whose condition holds. */
  function Decide(compiled: seq<CompiledRule>, host: string): Option<string> {
    if compiled == [] then None
    else if exists i :: 0 <= i < |compiled[0].tests| && Holds(compiled[0].tests[i], host) then Some(compiled[0].directive)
    else Decide(compiled[1..], host)
  }

  // ---------------------------------------------------------------- what a rule means

  /** A domain covers itself and whatever stands under it. */
  predicate CoversDomain(domain: string, host: string) {
    host == Lower(domain) || GlobMatch("*." + Lower(domain), host)
  }

  /** A bare or dotted domain covers its tree; anything else is a glob over the whole host. */
  predicate Covers(pattern: string, host: string) {
    if StartsWith(pattern, "*.") then CoversDomain(pattern[2..], host)
    else if StartsWith(pattern, ".") then CoversDomain(pattern[1..], host)
    else if '*' !in pattern && '/' !in pattern then CoversDomain(pattern, host)
    else GlobMatch(Lower(pattern), host)
  }

  predicate Applies(r: Rule, host: string, parse: HostParser) {
    Emits(r, parse) && Covers(CleanPattern(r.pattern, parse), host)
  }

  function Applying(host: string, parse: HostParser): Rule -> bool {
    r => Applies(r, host, parse)
  }

  /** Without wildcards in the domain, its tree is the domain and the hosts ending in ".domain". */
  lemma CoversPlainDomain(domain: string, host: string)
    requires IsLiteral(domain)
    ensures CoversDomain(domain, host) <==> host == Lower(domain) || EndsWith(host, "." + Lower(domain))
  {
    var suffix := "." + Lower(domain);
    forall c | c in suffix
      ensures c != '*' && c != '?'
    {
      if c != '.' {
        var i :| 0 <= i < |domain| && Lower(domain)[i] == c;
        assert domain[i] in domain;
      }
    }
    StarSuffix(suffix, host);
    assert "*." + Lower(domain) == "*" + suffix;
  }

  /** On a lower-case host the case-sensitive suffix test never adds anything. */
  lemma SuffixTestRedundant(domain: string, host: string)
    requires IsLower(host) && EndsWith(host, "." + domain)
    ensures GlobMatch("*." + Lower(domain), host)
  {
    var suffix := "." + domain;
    forall c | c in domain
      ensures !('A' <= c <= 'Z')
    {
      var i :| 0 <= i < |domain| && domain[i] == c;
      assert host[|host| - |suffix|..][1 + i] == c;
      assert host[|host| - |suffix| + 1 + i] in host;
    }
    LowerOfLower(domain);
    SuffixMatchesStar(suffix, host);
    assert "*." + Lower(domain) == "*" + suffix;
  }

  /** The compiled condition holds exactly of the hosts the pattern covers. */
  lemma ConditionIsMeaning(pattern: string, host: string)
    requires IsLower(host)
    ensures (exists i :: 0 <= i < |Tests(pattern)| && Holds(Tests(pattern)[i], host)) <==> Covers(pattern, host)
  {
    var tests := Tests(pattern);
    if |tests| == 3 {
      var domain := if StartsWith(pattern, "*.") then pattern[2..] else if StartsWith(pattern, ".") then pattern[1..] else pattern;
      if StartsWith(pattern, "*.") {
        assert pattern == "*." + domain;
        LowerConcat("*.", domain);
        assert Lower("*.") == "*.";
      }
      if EndsWith(host, "." + domain) {
        SuffixTestRedundant(domain, host);
      }
      assert Holds(tests[0], host) || Holds(tests[1], host) || Holds(tests[2], host) <==> CoversDomain(domain, host);
    } else {
      assert Holds(tests[0], host) <==> Covers(pattern, host);
    }
  }

  /** One compiled rule at a time: an applicable rule decides, any other is passed over. */
  lemma DecideStep(rules: seq<Rule>, standard: string, parse: HostParser, host: string)
    requires IsLower(host) && rules != []
    ensures Decide(Compile(rules, standard, parse), host)
         == if Applies(rules[0], host, parse) then Some(Directive(rules[0].action, standard))
            else Decide(Compile(rules[1..], standard, parse), host)
  {
    var rest := Compile(rules[1..], standard, parse);
    if Emits(rules[0], parse) {
      ConditionIsMeaning(CleanPattern(rules[0].pattern, parse), host);
      assert Compile(rules, standard, parse)[1..] == rest;
    } else {
      assert Compile(rules, standard, parse) == rest;
    }
  }

  /** The compiled rules answer with the first rule that applies, or not at all. */
  lemma {:induction false} FirstApplicableDecides(rules: seq<Rule>, standard: string, parse: HostParser, host: string)
    requires IsLower(host)
    ensures Decide(Compile(rules, standard, parse), host)
         == match FirstHit(Applying(host, parse), rules)
            case None => None
            case Some(i) => Some(Directive(rules[i].action, standard))
  {
    if rules != [] {
      DecideStep(rules, standard, parse, host);
      FirstApplicableDecides(rules[1..], standard, parse, host);
    }
  }
}
