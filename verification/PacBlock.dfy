/**
 The text of the override block that is spliced into a PAC script, and a reader for it.
 The reader understands double-quoted JavaScript literals without escapes: a backslash or a
 line break inside a literal is refused.
 */
module PacBlock {
  import opened Wrappers
  import opened Text
  import opened Readers
  import opened UserRules

  const BEGIN := "  // === USER OVERRIDES BEGIN ===\n"
  const LOWER_HOST := "  host = (\"\" + host).toLowerCase();\n"
  const END := "  // === USER OVERRIDES END ===\n"

  // ---------------------------------------------------------------- writing

  function Quoted(s: string): string {
    "\"" + s + "\""
  }

  function TestText(t: Test): string {
    match t
    case HostIs(s) => "host === " + Quoted(s)
    case DomainIs(s) => "dnsDomainIs(host, " + Quoted(s) + ")"
    case Matches(s) => "shExpMatch(host, " + Quoted(s) + ")"
  }

  function RuleText(r: CompiledRule): string {
    "  if (" + WriteSeparated(TestText, " || ", r.tests) + ") { return " + Quoted(r.directive) + "; }\n"
  }

  function BlockText(rules: seq<CompiledRule>): string {
    BEGIN + LOWER_HOST + WriteAll(RuleText, rules) + END
  }

  // ---------------------------------------------------------------- reading

  function ReadQuoted(text: string): (r: Option<(string, string)>)
    ensures r.Some? ==> Quotable(r.value.0) && |r.value.1| < |text|
  {
    if text == "" then None
    else if text[0] == '"' then Some(("", text[1..]))
    else if text[0] in UNQUOTABLE then None
    else
      match ReadQuoted(text[1..])
      case None => None
      case Some((s, rest)) => Some(([text[0]] + s, rest))
  }

  function ReadLiteral(text: string): (r: Option<(string, string)>)
    ensures r.Some? ==> Quotable(r.value.0) && |r.value.1| < |text|
  {
    match Expect(text, "\"")
    case None => None
    case Some(rest) => ReadQuoted(rest)
  }

  /** Reads a literal and the closing parenthesis of the call it is the last argument of. */
  function ReadArgument(text: string): (r: Option<(string, string)>)
    ensures r.Some? ==> Quotable(r.value.0) && |r.value.1| < |text|
  {
    match ReadLiteral(text)
    case None => None
    case Some((s, rest)) =>
      match Expect(rest, ")")
      case None => None
      case Some(after) => Some((s, after))
  }

  function ReadTest(text: string): (r: Option<(Test, string)>)
    ensures r.Some? ==> QuotableTest(r.value.0) && |r.value.1| < |text|
  {
    if StartsWith(text, "host === ") then
      match ReadLiteral(text[9..]) { case None => None case Some((s, rest)) => Some((HostIs(s), rest)) }
    else if StartsWith(text, "dnsDomainIs(host, ") then
      match ReadArgument(text[18..]) { case None => None case Some((s, rest)) => Some((DomainIs(s), rest)) }
    else if StartsWith(text, "shExpMatch(host, ") then
      match ReadArgument(text[17..]) { case None => None case Some((s, rest)) => Some((Matches(s), rest)) }
    else None
  }

  predicate QuotableTest(t: Test) {
    Quotable(t.text)
  }

  predicate QuotableTests(tests: seq<Test>) {
    forall i :: 0 <= i < |tests| ==> QuotableTest(tests[i])
  }

  predicate QuotableRule(r: CompiledRule) {
    QuotableTests(r.tests) && Quotable(r.directive)
  }

  predicate QuotableRules(rules: seq<CompiledRule>) {
    forall i :: 0 <= i < |rules| ==> QuotableRule(rules[i])
  }

  function ReadRule(text: string): (r: Option<(CompiledRule, string)>)
    ensures r.Some? ==> r.value.0.tests != [] && |r.value.1| < |text|
  {
    match Expect(text, "  if (")
    case None => None
    case Some(condition) =>
      match ReadSeparated(ReadTest, " || ", condition)
      case None => None
      case Some((tests, rest)) =>
        match Expect(rest, ") { return ")
        case None => None
        case Some(result) =>
          match ReadLiteral(result)
          case None => None
          case Some((directive, tail)) =>
            match Expect(tail, "; }\n")
            case None => None
            case Some(after) => Some((CompiledRule(tests, directive), after))
  }

  /** Reads a whole block off the front of a text, yielding its rules and what follows it. */
  function ReadBlock(text: string): Option<(seq<CompiledRule>, string)> {
    match Expect(text, BEGIN + LOWER_HOST)
    case None => None
    case Some(rest) => ReadUntil(ReadRule, END, rest)
  }

  // ---------------------------------------------------------------- round trip

  lemma {:induction false} QuotedReads(s: string, rest: string)
    requires Quotable(s)
    ensures ReadQuoted(s + "\"" + rest) == Some((s, rest))
  {
    var text := s + "\"" + rest;
    if s == "" {
      assert text[1..] == rest;
    } else {
      assert s[0] in s && text[1..] == s[1..] + "\"" + rest;
      assert forall c :: c in s[1..] ==> c in s;
      QuotedReads(s[1..], rest);
      assert [s[0]] + s[1..] == s;
    }
  }

  lemma LiteralReads(s: string, rest: string)
    requires Quotable(s)
    ensures ReadLiteral(Quoted(s) + rest) == Some((s, rest))
  {
    assert Quoted(s) + rest == "\"" + (s + "\"" + rest);
    ExpectSelf("\"", s + "\"" + rest);
    QuotedReads(s, rest);
  }

  lemma ArgumentReads(s: string, rest: string)
    requires Quotable(s)
    ensures ReadArgument(Quoted(s) + ")" + rest) == Some((s, rest))
  {
    assert Quoted(s) + ")" + rest == Quoted(s) + (")" + rest);
    LiteralReads(s, ")" + rest);
    ExpectSelf(")", rest);
  }

  lemma HostTestReads(s: string, rest: string)
    requires Quotable(s)
    ensures ReadTest(TestText(HostIs(s)) + rest) == Some((HostIs(s), rest))
  {
    var text := TestText(HostIs(s)) + rest;
    assert text == "host === " + (Quoted(s) + rest);
    assert text[9..] == Quoted(s) + rest;
    LiteralReads(s, rest);
  }

  lemma DomainTestReads(s: string, rest: string)
    requires Quotable(s)
    ensures ReadTest(TestText(DomainIs(s)) + rest) == Some((DomainIs(s), rest))
  {
    var text := TestText(DomainIs(s)) + rest;
    assert text == "dnsDomainIs(host, " + (Quoted(s) + ")" + rest);
    assert text[18..] == Quoted(s) + ")" + rest && text[0] == 'd';
    ArgumentReads(s, rest);
  }

  lemma GlobTestReads(s: string, rest: string)
    requires Quotable(s)
    ensures ReadTest(TestText(Matches(s)) + rest) == Some((Matches(s), rest))
  {
    var text := TestText(Matches(s)) + rest;
    assert text == "shExpMatch(host, " + (Quoted(s) + ")" + rest);
    assert text[17..] == Quoted(s) + ")" + rest && text[0] == 's';
    ArgumentReads(s, rest);
  }

  lemma TestReads(t: Test)
    requires QuotableTest(t)
    ensures ReadsBack(TestText, ReadTest, t)
  {
    forall rest
      ensures ReadTest(TestText(t) + rest) == Some((t, rest))
    {
      match t
      case HostIs(s) => HostTestReads(s, rest);
      case DomainIs(s) => DomainTestReads(s, rest);
      case Matches(s) => GlobTestReads(s, rest);
    }
  }

  lemma TestsRead(tests: seq<Test>, rest: string)
    requires tests != [] && QuotableTests(tests)
    requires Expect(rest, " || ") == None
    ensures ReadSeparated(ReadTest, " || ", WriteSeparated(TestText, " || ", tests) + rest) == Some((tests, rest))
  {
    forall i | 0 <= i < |tests|
      ensures ReadsBack(TestText, ReadTest, tests[i])
    {
      TestReads(tests[i]);
    }
    SeparatedReads(TestText, ReadTest, " || ", tests, rest);
  }

  lemma RuleTextParts(r: CompiledRule, rest: string)
    ensures RuleText(r) + rest
         == "  if (" + (WriteSeparated(TestText, " || ", r.tests) + (") { return " + (Quoted(r.directive) + ("; }\n" + rest))))
  {
  }

  lemma RuleReads(r: CompiledRule, rest: string)
    requires r.tests != [] && QuotableRule(r)
    ensures ReadRule(RuleText(r) + rest) == Some((r, rest))
  {
    var tail := "; }\n" + rest;
    var result := ") { return " + (Quoted(r.directive) + tail);
    var tests := WriteSeparated(TestText, " || ", r.tests);
    RuleTextParts(r, rest);
    ExpectSelf("  if (", tests + result);
    ExpectOther(result, " || ", 0);
    TestsRead(r.tests, result);
    ExpectSelf(") { return ", Quoted(r.directive) + tail);
    LiteralReads(r.directive, tail);
    ExpectSelf("; }\n", rest);
  }

  lemma RuleIsNotEnd(r: CompiledRule, rest: string)
    ensures Expect(RuleText(r) + rest, END) == None
  {
    RuleTextParts(r, rest);
    ExpectOther(RuleText(r) + rest, END, 2);
  }

  lemma RulesRead(rules: seq<CompiledRule>, rest: string)
    requires QuotableRules(rules)
    requires forall i :: 0 <= i < |rules| ==> rules[i].tests != []
    ensures ReadUntil(ReadRule, END, WriteAll(RuleText, rules) + (END + rest)) == Some((rules, rest))
  {
    forall i, more | 0 <= i < |rules|
      ensures ReadRule(RuleText(rules[i]) + more) == Some((rules[i], more))
      ensures Expect(RuleText(rules[i]) + more, END) == None
    {
      RuleReads(rules[i], more);
      RuleIsNotEnd(rules[i], more);
    }
    UntilReads(RuleText, ReadRule, END, rules, rest);
  }

  lemma ReadRulesAreQuotable()
    ensures Yields(ReadRule, QuotableRule)
  {
    forall text | ReadRule(text).Some?
      ensures QuotableRule(ReadRule(text).value.0)
    {
      SeparatedYields(ReadTest, " || ", Expect(text, "  if (").value, QuotableTest);
    }
  }

  /**
   A block reads back as the rules it was written from exactly when none of its patterns and
   directives holds a quote, a backslash or a line break.
   */
  lemma BlockReads(rules: seq<CompiledRule>, rest: string)
    requires forall i :: 0 <= i < |rules| ==> rules[i].tests != []
    ensures ReadBlock(BlockText(rules) + rest) == Some((rules, rest)) <==> QuotableRules(rules)
  {
    var body := WriteAll(RuleText, rules) + (END + rest);
    assert BlockText(rules) + rest == (BEGIN + LOWER_HOST) + body;
    ExpectSelf(BEGIN + LOWER_HOST, body);
    ReadRulesAreQuotable();
    UntilYields(ReadRule, END, body, QuotableRule);
    if QuotableRules(rules) {
      RulesRead(rules, rest);
    }
  }
}
