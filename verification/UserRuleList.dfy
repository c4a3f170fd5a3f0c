/**
 The popup's list of user rules (extension/popup.js, addRule and deleteRule), and what its
 upkeep buys: on every list built there, the injected script and the interpreter of the
 service worker pick the same rule.
 */
module UserRuleList {
  import opened Wrappers
  import opened Text
  import opened Decimals
  import opened Sequences
  import opened UserRules
  import opened RulePatterns
  import opened HostRouting
  import opened PacInjection

  const MAX_USER_RULES := 100

  // ---------------------------------------------------------------- what the popup stores

  predicate ShortNumber(s: string) {
    1 <= |s| <= 3 && forall c :: c in s ==> IsDigit(c)
  }

  /** An address block such as 10.0.0.0/8, whose mask must not be cut off. */
  predicate IsSubnetMask(s: string) {
    var parts := Split(s, '/');
    && |parts| == 2 && ShortNumber(parts[1])
    && (|| (var octets := Split(parts[0], '.'); |octets| == 4 && forall i :: 0 <= i < 4 ==> ShortNumber(octets[i]))
        || (parts[0] != "" && forall c :: c in parts[0] ==> IsHex(c) || c == ':'))
  }

  function ColonCount(s: string): nat {
    if s == "" then 0 else (if s[0] == ':' then 1 else 0) + ColonCount(s[1..])
  }

  function StoredPattern(pattern: string, parse: HostParser): string {
    var p := Lower(Trim(pattern));
    var host :=
      if Contains(p, "://") then
        match parse(p)
        case Some(h) => Lower(h)
        case None => Before(Before(WithoutScheme(p), '/'), ':')
      else if !IsSubnetMask(p) && '/' in p then Trim(Before(p, '/'))
      else p;
    if ':' in host && ']' !in host && ColonCount(host) == 1 then Trim(Before(host, ':')) else host
  }

  function StoredAction(action: string): string {
    Upper(if action == "" then "PROXY" else action)
  }

  function SamePattern(p: string): Rule -> bool {
    (r: Rule) => r.pattern != "" && Lower(r.pattern) == p
  }

  /** The list after a request to add a rule. */
  function Added(rules: seq<Rule>, pattern: string, action: string, parse: HostParser): seq<Rule> {
    var p := StoredPattern(pattern, parse);
    if Trim(pattern) == "" || p == "" || !Validate(p) then rules
    else
      match FirstHit(SamePattern(p), rules)
      case Some(i) => rules[i := rules[i].(action := StoredAction(action), enabled := true)]
      case None => if |rules| >= MAX_USER_RULES then rules else rules + [Rule(p, StoredAction(action), true)]
  }

  // ---------------------------------------------------------------- the invariant

  /** A rule as the popup stores it. */
  predicate PopupRule(r: Rule) {
    Validate(r.pattern) && IsLower(r.pattern)
  }

  predicate SameText(r: Rule, q: Rule) {
    Lower(r.pattern) == Lower(q.pattern)
  }

  ghost predicate WellKept(rules: seq<Rule>) {
    && |rules| <= MAX_USER_RULES
    && (forall i :: 0 <= i < |rules| ==> PopupRule(rules[i]))
    && (forall i, j :: 0 <= i < j < |rules| ==> !SameText(rules[i], rules[j]))
  }

  lemma {:induction false} LowerSuffix(s: string)
    requires IsLower(s)
    ensures IsLower(WithoutScheme(s))
  {
    AfterLettersMembers(s);
    var rest := AfterLetters(s);
    if rest != s && StartsWith(rest, "://") {
      assert forall c :: c in rest[3..] ==> c in rest;
    }
  }

  lemma {:induction false} AfterLettersMembers(s: string)
    ensures forall c :: c in AfterLetters(s) ==> c in s
  {
    if s != "" && IsLetter(s[0]) {
      AfterLettersMembers(s[1..]);
      assert forall c :: c in s[1..] ==> c in s;
    }
  }

  lemma LowerBeforeTrim(s: string, c: char)
    requires IsLower(s)
    ensures IsLower(Before(s, c)) && IsLower(Trim(Before(s, c)))
  {
    forall x | x in Before(s, c)
      ensures x in s
    {
      BeforeMembers(s, c, x);
    }
  }

  lemma StoredPatternIsLower(pattern: string, parse: HostParser)
    ensures IsLower(StoredPattern(pattern, parse))
  {
    var p := Lower(Trim(pattern));
    LowerOfLower(Trim(pattern));
    LowerSuffix(p);
    LowerBeforeTrim(WithoutScheme(p), '/');
    LowerBeforeTrim(Before(WithoutScheme(p), '/'), ':');
    LowerBeforeTrim(p, '/');
    if parse(p).Some? {
      LowerOfLower(parse(p).value);
    }
    var host :=
      if Contains(p, "://") then
        match parse(p)
        case Some(h) => Lower(h)
        case None => Before(Before(WithoutScheme(p), '/'), ':')
      else if !IsSubnetMask(p) && '/' in p then Trim(Before(p, '/'))
      else p;
    assert IsLower(host);
    LowerBeforeTrim(host, ':');
  }

  lemma UpdateKeeps(rules: seq<Rule>, i: nat, action: string)
    requires WellKept(rules) && i < |rules|
    ensures WellKept(rules[i := rules[i].(action := action, enabled := true)])
  {
  }

  lemma AppendKeeps(rules: seq<Rule>, r: Rule)
    requires WellKept(rules) && |rules| < MAX_USER_RULES && PopupRule(r)
    requires forall i :: 0 <= i < |rules| ==> !SameText(rules[i], r)
    ensures WellKept(rules + [r])
  {
  }

  /** A stored rule that the search for the pattern passes over has another text. */
  lemma OtherText(r: Rule, q: Rule)
    requires PopupRule(r) && PopupRule(q) && !SamePattern(q.pattern)(r)
    ensures !SameText(r, q)
  {
    LowerOfLower(q.pattern);
  }

  /** Adding keeps the list short, its patterns accepted, lower-case and free of doubles. */
  lemma AddedKeeps(rules: seq<Rule>, pattern: string, action: string, parse: HostParser)
    requires WellKept(rules)
    ensures WellKept(Added(rules, pattern, action, parse))
  {
    var p := StoredPattern(pattern, parse);
    StoredPatternIsLower(pattern, parse);
    if Trim(pattern) != "" && p != "" && Validate(p) {
      match FirstHit(SamePattern(p), rules)
      case Some(i) => UpdateKeeps(rules, i, StoredAction(action));
      case None =>
        if |rules| < MAX_USER_RULES {
          var r := Rule(p, StoredAction(action), true);
          forall i | 0 <= i < |rules|
            ensures !SameText(rules[i], r)
          {
            assert PopupRule(rules[i]);
            OtherText(rules[i], r);
          }
          AppendKeeps(rules, r);
        }
    }
  }

  class RuleList {
    var userRules: seq<Rule>

    ghost predicate Valid()
      reads this
    {
      WellKept(userRules)
    }

    constructor ()
      ensures Valid() && userRules == []
    {
      userRules := [];
    }

    method AddRule(pattern: string, action: string, parse: HostParser)
      requires Valid()
      modifies this
      ensures Valid()
      ensures userRules == Added(old(userRules), pattern, action, parse)
    {
      AddedKeeps(userRules, pattern, action, parse);
      if Trim(pattern) == "" {
        return;
      }
      var p := StoredPattern(pattern, parse);
      if p == "" || !Validate(p) {
        return;
      }
      var act := StoredAction(action);
      var existing := FindFirst(SamePattern(p), userRules);
      if existing.Some? {
        var i := existing.value;
        userRules := userRules[i := userRules[i].(action := act, enabled := true)];
      } else {
        if |userRules| >= MAX_USER_RULES {
          return;
        }
        userRules := userRules + [Rule(p, act, true)];
      }
    }

    method DeleteRule(index: int)
      requires Valid()
      modifies this
      ensures Valid()
      ensures userRules == if 0 <= index < |old(userRules)| then old(userRules)[..index] + old(userRules)[index + 1..]
                           else old(userRules)
    {
      if 0 <= index < |userRules| {
        userRules := userRules[..index] + userRules[index + 1..];
      }
    }
  }

  // ---------------------------------------------------------------- script and interpreter

  lemma KeptRulesComparable(rules: seq<Rule>)
    requires WellKept(rules) && forall i :: 0 <= i < |rules| ==> Trim(rules[i].pattern) != "*"
    ensures Comparable(rules)
  {
    assert forall i :: 0 <= i < |rules| ==> PopupRule(rules[i]);
  }

  /**
   The injected script answers with the directive of the very rule the interpreter finds, and
   with the original body where the interpreter finds none: on every list the popup builds
   that has no bare star, for every non-empty host without surrounding space, whatever the
   body and the host parser compute.
   */
  lemma ScriptFollowsInterpreter(pacText: string, q: Request, body: (string, string) -> string, url: string, host: string)
    requires WellKept(q.rules) && forall i :: 0 <= i < |q.rules| ==> Trim(q.rules[i].pattern) != "*"
    requires Injects(pacText, q) && PlainRequest(pacText, q)
    requires host != "" && Trimmed(host)
    ensures ReadInjected(pacText, q).Some?
    ensures Run(ReadInjected(pacText, q).value.0, body, url, host)
         == match FirstHit(UserRuleMatches(Trim(Lower(host)), q.parse), q.rules)
            case Some(i) => Directive(q.rules[i].action, Standard(pacText, q))
            case None => body(url, Lower(host))
  {
    ScriptMeaning(pacText, q, body, url, host);
    KeptRulesComparable(q.rules);
    SameRule(q.rules, host, q.parse);
  }

  /** On such a list the patterns are always plain, so only the proxy directive can break a literal. */
  lemma PopupPatternsArePlain(pacText: string, q: Request)
    requires WellKept(q.rules) && Quotable(Standard(pacText, q))
    ensures PlainRequest(pacText, q)
  {
    forall i | 0 <= i < |q.rules|
      ensures PlainRule(q.rules[i], Standard(pacText, q), q.parse)
    {
      var pattern := q.rules[i].pattern;
      if Trim(pattern) == "*" {
        StarPatternCores(pattern, q.parse);
      } else {
        var w, domain := AcceptedCore(pattern);
        CompiledCore(pattern, q.parse);
        BeforeIsCore(Before(Trim(pattern), '/'));
        CoreTextIsPlain(Core(pattern));
      }
    }
  }

  lemma BeforeIsCore(s: string)
    requires IsCoreText(s)
    ensures IsCoreText(Before(s, ':'))
  {
    forall x | x in Before(s, ':')
      ensures IsHostChar(x) || x == '*'
    {
      BeforeMembers(s, ':', x);
    }
  }
}
