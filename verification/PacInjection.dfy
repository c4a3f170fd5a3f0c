/**
 Splicing user rules into a PAC script (src/extensionPureLogic.ts, injectUserRulesIntoPac):
 where the block goes, what the method that builds it returns, and what the resulting script
 answers. The directive that the original detects with a regular expression in the script is
 an input, the empty string standing for no match.
 */
module PacInjection {
  import opened Wrappers
  import opened Text
  import opened Sequences
  import opened Readers
  import opened UserRules
  import opened PacBlock

  const HEADER := "function FindProxyForURL(url, host) {"

  // ---------------------------------------------------------------- where the block goes

  /** The text after the first closing parenthesis. */
  function AfterParameters(s: string): (r: Option<string>)
    ensures r.Some? ==> EndsWith(s, r.value)
  {
    if s == "" then None else if s[0] == ')' then Some(s[1..]) else AfterParameters(s[1..])
  }

  /** A function header with free spacing and any parameters, matched at the front of a text. */
  function MatchHeader(s: string): Option<string> {
    match Expect(s, "function")
    case None => None
    case Some(afterKeyword) =>
      if afterKeyword == "" || !IsSpace(afterKeyword[0]) then None else
      match Expect(TrimStart(afterKeyword), "FindProxyForURL")
      case None => None
      case Some(afterName) =>
        match Expect(TrimStart(afterName), "(")
        case None => None
        case Some(parameters) =>
          match AfterParameters(parameters)
          case None => None
          case Some(afterParameters) => Expect(TrimStart(afterParameters), "{")
  }

  function SearchHeader(text: string, i: nat): Option<nat>
    requires i <= |text|
    decreases |text| - i
  {
    match MatchHeader(text[i..])
    case Some(rest) => if |rest| <= |text| then Some(|text| - |rest|) else None
    case None => if i == |text| then None else SearchHeader(text, i + 1)
  }

  function InsertionPoint(pacText: string): Option<nat> {
    match IndexOf(pacText, HEADER)
    case Some(i) => Some(i + |HEADER|)
    case None => SearchHeader(pacText, 0)
  }

  lemma {:induction false} TrimStartIsSuffix(s: string)
    ensures EndsWith(s, TrimStart(s))
  {
    if s != "" && IsSpace(s[0]) {
      TrimStartIsSuffix(s[1..]);
    }
  }

  lemma ExpectIsSuffix(s: string, word: string)
    requires Expect(s, word).Some?
    ensures EndsWith(s, Expect(s, word).value)
  {
  }

  lemma SuffixOfSuffix(s: string, t: string, u: string)
    requires EndsWith(s, t) && EndsWith(t, u)
    ensures EndsWith(s, u)
  {
  }

  /** A step of the match: a word, then free space. */
  lemma WordThenSpace(s: string, t: string, word: string)
    requires EndsWith(s, t) && Expect(t, word).Some?
    ensures EndsWith(s, Expect(t, word).value) && EndsWith(s, TrimStart(Expect(t, word).value))
  {
    var u := Expect(t, word).value;
    ExpectIsSuffix(t, word);
    TrimStartIsSuffix(u);
    SuffixOfSuffix(s, t, u);
    SuffixOfSuffix(s, u, TrimStart(u));
  }

  lemma BraceBefore(s: string, t: string)
    requires EndsWith(s, t) && Expect(t, "{").Some?
    ensures var rest := Expect(t, "{").value;
            |rest| < |s| && s[|s| - |rest| - 1] == '{' && EndsWith(s, rest)
  {
    assert t[0] == s[|s| - |t|..][0];
    ExpectIsSuffix(t, "{");
    SuffixOfSuffix(s, t, t[1..]);
  }

  /** What follows a matched header is the end of the text, right after an opening brace. */
  lemma MatchedHeaderEndsInBrace(s: string)
    requires MatchHeader(s).Some?
    ensures var rest := MatchHeader(s).value;
            |rest| < |s| && s[|s| - |rest| - 1] == '{' && EndsWith(s, rest)
  {
    WordThenSpace(s, s, "function");
    var s1 := TrimStart(Expect(s, "function").value);
    WordThenSpace(s, s1, "FindProxyForURL");
    var s2 := TrimStart(Expect(s1, "FindProxyForURL").value);
    WordThenSpace(s, s2, "(");
    var s3 := Expect(s2, "(").value;
    var s4 := AfterParameters(s3).value;
    SuffixOfSuffix(s, s3, s4);
    TrimStartIsSuffix(s4);
    SuffixOfSuffix(s, s4, TrimStart(s4));
    BraceBefore(s, TrimStart(s4));
  }

  lemma {:induction false} SearchFindsBrace(text: string, i: nat)
    requires i <= |text|
    ensures SearchHeader(text, i).Some? ==> 0 < SearchHeader(text, i).value <= |text| && text[SearchHeader(text, i).value - 1] == '{'
    decreases |text| - i
  {
    var s := text[i..];
    if MatchHeader(s).Some? {
      MatchedHeaderEndsInBrace(s);
      assert s[|s| - |MatchHeader(s).value| - 1] == text[|text| - |MatchHeader(s).value| - 1];
    } else if i < |text| {
      SearchFindsBrace(text, i + 1);
    }
  }

  /** The block always goes directly behind an opening brace of the script. */
  lemma InsertedBehindBrace(pacText: string)
    ensures InsertionPoint(pacText).Some? ==>
              0 < InsertionPoint(pacText).value <= |pacText| && pacText[InsertionPoint(pacText).value - 1] == '{'
  {
    match IndexOf(pacText, HEADER)
    case Some(i) =>
      assert pacText[i..i + |HEADER|][|HEADER| - 1] == HEADER[|HEADER| - 1] == '{';
    case None =>
      SearchFindsBrace(pacText, 0);
  }

  // ---------------------------------------------------------------- the injected script

  /** What one injection works with besides the script: the rules and where the proxy is. */
  datatype Request = Request(rules: seq<Rule>, proxyServer: string, proxyProtocol: string, detected: string, parse: HostParser)

  function Standard(pacText: string, q: Request): string {
    DefaultDirective(pacText, q.proxyServer, q.proxyProtocol, q.detected)
  }

  function Compiled(pacText: string, q: Request): seq<CompiledRule> {
    Compile(q.rules, Standard(pacText, q), q.parse)
  }

  predicate Injects(pacText: string, q: Request) {
    Filter(Active, q.rules) != [] && InsertionPoint(pacText).Some?
  }

  function Splice(text: string, p: nat, block: string): string
    requires p <= |text|
  {
    text[..p] + "\n" + block + text[p..]
  }

  lemma SpliceParts(text: string, p: nat, block: string)
    requires p <= |text|
    ensures var s := Splice(text, p, block);
            && |s| == |text| + 1 + |block|
            && s[p + 1..] == block + text[p..]
            && s[..p] + s[p + 1 + |block|..] == text
  {
    var s := Splice(text, p, block);
    assert s[..p] == text[..p];
    assert s[p + 1 + |block|..] == text[p..];
    assert text == text[..p] + text[p..];
  }

  function Inject(pacText: string, q: Request): string {
    InsertedBehindBrace(pacText);
    if Injects(pacText, q) then
      var p := InsertionPoint(pacText).value;
      Splice(pacText, p, BlockText(Compiled(pacText, q)))
    else pacText
  }

  /** The line a rule contributes; empty when its cleaned pattern is. */
  function LineOf(r: Rule, standard: string, parse: HostParser): string {
    if Emits(r, parse) then RuleText(CompileRule(r, standard, parse)) else ""
  }

  function LinesText(rules: seq<Rule>, standard: string, parse: HostParser): string {
    WriteAll(RuleText, Compile(rules, standard, parse))
  }

  lemma NextLine(rules: seq<Rule>, i: nat, standard: string, parse: HostParser)
    requires i < |rules|
    ensures LinesText(rules[..i + 1], standard, parse) == LinesText(rules[..i], standard, parse) + LineOf(rules[i], standard, parse)
  {
    var done := Compile(rules[..i], standard, parse);
    var next := CompileRule(rules[i], standard, parse);
    CollectNext(Emitting(parse), Compiling(standard, parse), rules, i);
    if Emits(rules[i], parse) {
      WriteAllConcat(RuleText, done, [next]);
      WriteOne(RuleText, next);
    } else {
      assert done + [] == done;
    }
  }

  lemma CompileOfActive(rules: seq<Rule>, standard: string, parse: HostParser)
    ensures Compile(Filter(Active, rules), standard, parse) == Compile(rules, standard, parse)
  {
    CollectOfFilter(Active, Emitting(parse), Compiling(standard, parse), rules);
  }

  /** Cleans one pattern step by step, as the loop over the rules does. */
  method CleanedPattern(pattern: string, parse: HostParser) returns (cleanPattern: string)
    ensures cleanPattern == CleanPattern(pattern, parse)
  {
    var rawPattern := Trim(pattern);
    if Contains(rawPattern, "://") {
      var parsed := parse(rawPattern);
      if parsed.Some? {
        rawPattern := parsed.value;
      } else {
        rawPattern := Before(Before(WithoutScheme(rawPattern), '/'), ':');
      }
    } else if '/' in rawPattern {
      rawPattern := Trim(Before(rawPattern, '/'));
    }
    if ':' in rawPattern && ']' !in rawPattern {
      rawPattern := Trim(Before(rawPattern, ':'));
    }
    cleanPattern := Without(rawPattern, UNQUOTABLE);
    if cleanPattern == "" {
      return;
    }
    var hasNonAscii := HasNonAscii(cleanPattern);
    if hasNonAscii {
      cleanPattern := Punycode(cleanPattern, parse);
      cleanPattern := KeepAscii(cleanPattern);
    }
  }

  /** One turn of the loop over the active rules: a rule with an empty pattern adds nothing. */
  method AppendLine(ruleLines: string, r: Rule, standard: string, parse: HostParser) returns (longer: string)
    requires Active(r)
    ensures longer == ruleLines + LineOf(r, standard, parse)
  {
    var cleanPattern := CleanedPattern(r.pattern, parse);
    if cleanPattern == "" {
      return ruleLines;
    }
    var line := RuleText(CompiledRule(Tests(cleanPattern), Directive(r.action, standard)));
    longer := ruleLines + line;
  }

  lemma LinesGrow(start: string, rules: seq<Rule>, i: nat, standard: string, parse: HostParser)
    requires i < |rules|
    ensures start + LinesText(rules[..i], standard, parse) + LineOf(rules[i], standard, parse)
         == start + LinesText(rules[..i + 1], standard, parse)
  {
    NextLine(rules, i, standard, parse);
    var done, next := LinesText(rules[..i], standard, parse), LineOf(rules[i], standard, parse);
    Associates(start, done, next);
  }

  method AppendLines(start: string, activeRules: seq<Rule>, standard: string, parse: HostParser) returns (ruleLines: string)
    requires forall i :: 0 <= i < |activeRules| ==> Active(activeRules[i])
    ensures ruleLines == start + LinesText(activeRules, standard, parse)
  {
    ruleLines := start;
    var i := 0;
    assert activeRules[..0] == [];
    while i < |activeRules|
      invariant 0 <= i <= |activeRules|
      invariant ruleLines == start + LinesText(activeRules[..i], standard, parse)
    {
      LinesGrow(start, activeRules, i, standard, parse);
      ruleLines := AppendLine(ruleLines, activeRules[i], standard, parse);
      i := i + 1;
    }
    assert activeRules[..i] == activeRules;
  }

  method InjectUserRulesIntoPac(pacText: string, q: Request) returns (script: string)
    ensures script == Inject(pacText, q)
  {
    InsertedBehindBrace(pacText);
    if pacText == "" || q.rules == [] {
      return pacText;
    }
    var activeRules := Filter(Active, q.rules);
    if activeRules == [] {
      return pacText;
    }
    var standard := Standard(pacText, q);
    CompileOfActive(q.rules, standard, q.parse);
    var ruleLines := AppendLines(BEGIN + LOWER_HOST, activeRules, standard, q.parse);
    ruleLines := ruleLines + END;
    var insertPos := InsertionPoint(pacText);
    if insertPos.Some? {
      script := Splice(pacText, insertPos.value, ruleLines);
    } else {
      script := pacText;
    }
  }

  // ---------------------------------------------------------------- quotable blocks

  predicate ProxyDirective(action: string) {
    Upper(if action == "" then "PROXY" else action) !in {"DIRECT", "BLOCK"}
  }

  lemma LowerQuotable(s: string)
    ensures Quotable(Lower(s)) <==> Quotable(s)
  {
    forall i | 0 <= i < |s|
      ensures s[i] in UNQUOTABLE <==> Lower(s)[i] in UNQUOTABLE
    {
    }
    if Quotable(Lower(s)) {
      forall c | c in s
        ensures c !in UNQUOTABLE
      {
        var i :| 0 <= i < |s| && s[i] == c;
        assert Lower(s)[i] in Lower(s);
      }
    }
  }

  lemma QuotableConcat(s: string, t: string)
    ensures Quotable(s + t) <==> Quotable(s) && Quotable(t)
  {
    assert forall c :: c in s + t <==> c in s || c in t;
  }

  lemma DomainTestsQuotable(prefix: string, domain: string)
    requires Quotable(prefix)
    ensures Quotable(prefix + domain) <==> Quotable(domain)
    ensures Quotable(Lower(prefix + domain)) <==> Quotable(domain)
    ensures Quotable(Lower(domain)) <==> Quotable(domain)
    ensures Quotable("." + domain) <==> Quotable(domain)
    ensures Quotable("*." + Lower(domain)) <==> Quotable(domain)
  {
    QuotableConcat(prefix, domain);
    LowerQuotable(prefix + domain);
    LowerQuotable(domain);
    QuotableConcat(".", domain);
    QuotableConcat("*.", Lower(domain));
    assert Quotable(".") && Quotable("*.");
  }

  lemma TestsQuotable(pattern: string)
    ensures QuotableTests(Tests(pattern)) <==> Quotable(pattern)
  {
    var tests := Tests(pattern);
    if |tests| == 3 {
      var n := if StartsWith(pattern, "*.") then 2 else if StartsWith(pattern, ".") then 1 else 0;
      assert pattern == pattern[..n] + pattern[n..];
      assert Quotable(pattern[..n]);
      DomainTestsQuotable(pattern[..n], pattern[n..]);
      assert QuotableTests(tests) <==> QuotableTest(tests[0]) && QuotableTest(tests[1]) && QuotableTest(tests[2]);
    } else {
      LowerQuotable(pattern);
      assert QuotableTests(tests) <==> QuotableTest(tests[0]);
    }
  }

  lemma DirectiveQuotable(action: string, standard: string)
    ensures Quotable(Directive(action, standard)) <==> !ProxyDirective(action) || Quotable(standard)
  {
    assert Quotable("DIRECT") && Quotable(BLOCKED) && Quotable("; DIRECT");
    QuotableConcat(standard, "; DIRECT");
  }

  predicate PlainRule(r: Rule, standard: string, parse: HostParser) {
    Emits(r, parse) ==> Quotable(CleanPattern(r.pattern, parse)) && (!ProxyDirective(r.action) || Quotable(standard))
  }

  /** Which requests compile to rules that a literal can hold. */
  lemma CompiledQuotable(rules: seq<Rule>, standard: string, parse: HostParser)
    ensures QuotableRules(Compile(rules, standard, parse)) <==> forall i :: 0 <= i < |rules| ==> PlainRule(rules[i], standard, parse)
  {
    forall i | 0 <= i < |rules|
      ensures PlainRule(rules[i], standard, parse)
         <==> (Emits(rules[i], parse) ==> QuotableRule(CompileRule(rules[i], standard, parse)))
    {
      TestsQuotable(CleanPattern(rules[i].pattern, parse));
      DirectiveQuotable(rules[i].action, standard);
    }
    CollectAll(Emitting(parse), Compiling(standard, parse), rules, QuotableRule);
  }

  // ---------------------------------------------------------------- what the script answers

  /** A script with a block in front of its own body, which sees the lower-cased host. */
  function Run(block: seq<CompiledRule>, body: (string, string) -> string, url: string, host: string): string {
    match Decide(block, Lower(host))
    case Some(directive) => directive
    case None => body(url, Lower(host))
  }

  /** Removing the inserted line break and block gives back the original text. */
  lemma RemovalRestores(pacText: string, q: Request)
    requires Injects(pacText, q)
    ensures var p := InsertionPoint(pacText).value;
            var script := Inject(pacText, q);
            var end := p + 1 + |BlockText(Compiled(pacText, q))|;
            p <= |script| && end <= |script| && script[..p] + script[end..] == pacText
  {
    InsertedBehindBrace(pacText);
    SpliceParts(pacText, InsertionPoint(pacText).value, BlockText(Compiled(pacText, q)));
  }

  /** What a reader makes of the injected script from behind the insertion point on. */
  function ReadInjected(pacText: string, q: Request): Option<(seq<CompiledRule>, string)>
    requires Injects(pacText, q)
  {
    InsertedBehindBrace(pacText);
    var p := InsertionPoint(pacText).value;
    SpliceParts(pacText, p, BlockText(Compiled(pacText, q)));
    ReadBlock(Inject(pacText, q)[p + 1..])
  }

  function Remainder(pacText: string): string
    requires InsertionPoint(pacText).Some?
  {
    InsertedBehindBrace(pacText);
    pacText[InsertionPoint(pacText).value..]
  }

  ghost predicate PlainRequest(pacText: string, q: Request) {
    forall i :: 0 <= i < |q.rules| ==> PlainRule(q.rules[i], Standard(pacText, q), q.parse)
  }

  /**
   The text behind the insertion point reads back as the compiled rules followed by the rest of
   the original, exactly when every emitted pattern and the proxy directive in use are free of
   quotes, backslashes and line breaks.
   */
  lemma InjectedBlockReads(pacText: string, q: Request)
    requires Injects(pacText, q)
    ensures ReadInjected(pacText, q) == Some((Compiled(pacText, q), Remainder(pacText))) <==> PlainRequest(pacText, q)
  {
    InsertedBehindBrace(pacText);
    var standard := Standard(pacText, q);
    SpliceParts(pacText, InsertionPoint(pacText).value, BlockText(Compiled(pacText, q)));
    CompileHasTests(q.rules, standard, q.parse);
    BlockReads(Compiled(pacText, q), Remainder(pacText));
    CompiledQuotable(q.rules, standard, q.parse);
  }

  lemma CompileHasTests(rules: seq<Rule>, standard: string, parse: HostParser)
    ensures forall i :: 0 <= i < |Compile(rules, standard, parse)| ==> Compile(rules, standard, parse)[i].tests != []
  {
    CollectAll(Emitting(parse), Compiling(standard, parse), rules, (r: CompiledRule) => r.tests != []);
  }

  /**
   Whatever the original body computes: the injected script answers with the directive of the
   first rule that applies to the lower-cased host, and otherwise just as the body does.
   */
  lemma ScriptMeaning(pacText: string, q: Request, body: (string, string) -> string, url: string, host: string)
    requires Injects(pacText, q) && PlainRequest(pacText, q)
    ensures ReadInjected(pacText, q).Some?
    ensures Run(ReadInjected(pacText, q).value.0, body, url, host)
         == match FirstHit(Applying(Lower(host), q.parse), q.rules)
            case Some(i) => Directive(q.rules[i].action, Standard(pacText, q))
            case None => body(url, Lower(host))
  {
    InjectedBlockReads(pacText, q);
    LowerOfLower(host);
    FirstApplicableDecides(q.rules, Standard(pacText, q), q.parse, Lower(host));
  }

  /** A name beyond ASCII with nothing in it that cleaning would take away or treat as syntax. */
  predicate ForeignName(name: string) {
    && name != "" && !IsAscii(name) && Trimmed(name) && Quotable(name)
    && name[0] != '.' && '*' !in name && '/' !in name && ':' !in name
  }

  /** A name that needs no cleaning but is not ASCII is compiled as the host parser has it. */
  lemma CleanedName(name: string, parse: HostParser, host: string)
    requires ForeignName(name)
    requires parse("http://" + name) == Some(host)
    ensures CleanPattern(name, parse) == AsciiOnly(host)
  {
    TrimOfTrimmed(name);
    assert !Contains(name, "://");
    assert HostPart(name, parse) == name;
    WithoutNothing(name, UNQUOTABLE);
    assert !StartsWith(name, "*.");
    assert "" + host == host;
  }

  /**
   The condition of the read-back is not idle: a pattern beyond ASCII is quotable exactly if the
   host name is that the parser makes of it.
   */
  lemma QuotableAsParsed(name: string, parse: HostParser, host: string)
    requires ForeignName(name) && parse("http://" + name) == Some(host)
    ensures Quotable(CleanPattern(name, parse)) <==> Quotable(AsciiOnly(host))
  {
    CleanedName(name, parse, host);
  }

  lemma FullwidthName(name: string, host: string)
    requires name == ['a', '\U{ff02}', 'b'] && host == ['a', '"', 'b']
    ensures ForeignName(name) && !Quotable(AsciiOnly(host))
  {
    assert name[1] in name;
    AsciiOnlyOfAscii(host);
    assert host[1] in host;
  }

  /**
   The URL Standard maps the fullwidth quotation mark to the ASCII one and does not forbid that in
   a host name; a parser that follows it there makes this pattern unquotable.
   */
  lemma UnquotableHostName(name: string, parse: HostParser, host: string)
    requires name == ['a', '\U{ff02}', 'b'] && host == ['a', '"', 'b'] && parse("http://" + name) == Some(host)
    ensures !Quotable(CleanPattern(name, parse))
  {
    FullwidthName(name, host);
    QuotableAsParsed(name, parse, host);
  }
}
