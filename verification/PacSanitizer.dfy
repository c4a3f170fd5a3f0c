/**
 Making a PAC script plain ASCII (src/extensionPureLogic.ts, sanitizePacScript): comments lose
 their non-ASCII characters, quoted domains become punycode, and whatever is left is dropped.
 None stands for the null result.
 */
module PacSanitizer {
  import Sequences
  import opened Wrappers
  import opened Text
  import opened UserRules

  const ENTRY := "FindProxyForURL"

  predicate Quoteless(s: string) {
    '"' !in s
  }

  // ---------------------------------------------------------------- the three passes

  function CleanComment(line: string): string {
    match IndexOf(line, "//")
    case None => line
    case Some(i) => line[..i] + AsciiOnly(line[i..])
  }

  function CleanComments(lines: seq<string>): (r: seq<string>)
    ensures |r| == |lines|
    ensures forall i :: 0 <= i < |lines| ==> r[i] == CleanComment(lines[i])
  {
    if lines == [] then [] else [CleanComment(lines[0])] + CleanComments(lines[1..])
  }

  function WithoutCommentGarbage(s: string): string {
    Join(CleanComments(Split(s, '\n')), "\n")
  }

  function Wildcard(content: string): (r: string)
    ensures r <= content && Quoteless(r)
  {
    if StartsWith(content, "*.") then "*." else if StartsWith(content, ".") then "." else ""
  }

  /** What the URL parser makes of a quoted text that is not ASCII. */
  function HostName(content: string, parse: HostParser): Option<string> {
    parse("http://" + content[|Wildcard(content)|..])
  }

  function LiteralContent(content: string, parse: HostParser): string {
    if IsAscii(content) then content else
    match HostName(content, parse)
    case Some(host) => Wildcard(content) + host
    case None => AsciiOnly(content)
  }

  /** Rewrites what stands between each quote and the next, scanning from the left. */
  function RewriteLiterals(s: string, rewrite: string -> string): string
    decreases |s|
  {
    if s == "" then ""
    else if s[0] != '"' then [s[0]] + RewriteLiterals(s[1..], rewrite)
    else if '"' !in s[1..] then s
    else
      var content := Before(s[1..], '"');
      "\"" + rewrite(content) + "\"" + RewriteLiterals(s[2 + |content|..], rewrite)
  }

  function Punycoded(parse: HostParser): string -> string {
    content => LiteralContent(content, parse)
  }

  /** Every result can be handed to Chrome: seven-bit text that still defines the entry point. */
  function Sanitize(pacText: string, parse: HostParser): (r: Option<string>)
    ensures r.Some? ==> IsAscii(r.value) && Contains(r.value, ENTRY)
    ensures IsAscii(pacText) ==> r == if Contains(pacText, ENTRY) then Some(pacText) else None
  {
    if !Contains(pacText, ENTRY) then None
    else if IsAscii(pacText) then Some(pacText)
    else
      var finalClean := AsciiOnly(RewriteLiterals(WithoutCommentGarbage(pacText), Punycoded(parse)));
      if Contains(finalClean, ENTRY) then Some(finalClean) else None
  }

  /** The comment pass, line by line in place. */
  method CleanCommentLines(lines: array<string>)
    modifies lines
    ensures lines[..] == CleanComments(old(lines[..]))
  {
    var i := 0;
    while i < lines.Length
      invariant 0 <= i <= lines.Length
      invariant forall k :: 0 <= k < i ==> lines[k] == CleanComment(old(lines[k]))
      invariant forall k :: i <= k < lines.Length ==> lines[k] == old(lines[k])
    {
      var commentIdx := IndexOf(lines[i], "//");
      if commentIdx.Some? {
        var cleanComment := KeepAscii(lines[i][commentIdx.value..]);
        lines[i] := lines[i][..commentIdx.value] + cleanComment;
      }
      i := i + 1;
    }
  }

  method SanitizePacScript(pacText: string, parse: HostParser) returns (result: Option<string>)
    ensures result == Sanitize(pacText, parse)
  {
    if !Contains(pacText, ENTRY) {
      return None;
    }
    var hasNonAscii := HasNonAscii(pacText);
    if !hasNonAscii {
      return Some(pacText);
    }
    var parts := Split(pacText, '\n');
    var lines := new string[|parts|](i requires 0 <= i < |parts| => parts[i]);
    assert lines[..] == parts;
    CleanCommentLines(lines);
    var sanitized := Join(lines[..], "\n");
    sanitized := RewriteLiterals(sanitized, Punycoded(parse));
    var finalClean := KeepAscii(sanitized);
    if Contains(finalClean, ENTRY) {
      return Some(finalClean);
    }
    return None;
  }

  // ---------------------------------------------------------------- what it guarantees

  /** Sanitising again changes nothing, with whatever host parser. */
  lemma Idempotent(pacText: string, parse: HostParser, again: HostParser)
    ensures var r := Sanitize(pacText, parse);
            r.Some? ==> Sanitize(r.value, again) == r
  {
  }

  lemma {:induction false} AsciiOnlyOfAsciiOnly(s: string)
    ensures AsciiOnly(AsciiOnly(s)) == AsciiOnly(s)
  {
    AsciiOnlyOfAscii(AsciiOnly(s));
  }

  lemma CommentPassDropsOnlyNonAscii(line: string)
    ensures AsciiOnly(CleanComment(line)) == AsciiOnly(line)
  {
    match IndexOf(line, "//")
    case None =>
    case Some(i) =>
      assert line == line[..i] + line[i..];
      AsciiOnlyConcat(line[..i], line[i..]);
      AsciiOnlyConcat(line[..i], AsciiOnly(line[i..]));
      AsciiOnlyOfAsciiOnly(line[i..]);
  }

  lemma {:induction false} JoinDropsOnlyNonAscii(lines: seq<string>)
    ensures AsciiOnly(Join(CleanComments(lines), "\n")) == AsciiOnly(Join(lines, "\n"))
  {
    if lines != [] {
      var clean := CleanComments(lines);
      CommentPassDropsOnlyNonAscii(lines[0]);
      if |lines| > 1 {
        JoinDropsOnlyNonAscii(lines[1..]);
        assert clean[1..] == CleanComments(lines[1..]);
        AsciiOnlyConcat(lines[0] + "\n", Join(lines[1..], "\n"));
        AsciiOnlyConcat(lines[0], "\n");
        AsciiOnlyConcat(clean[0] + "\n", Join(clean[1..], "\n"));
        AsciiOnlyConcat(clean[0], "\n");
      }
    }
  }

  /** No quoted text of s holds a non-ASCII character. */
  predicate LiteralsAreAscii(s: string)
    decreases |s|
  {
    if s == "" then true
    else if s[0] != '"' then LiteralsAreAscii(s[1..])
    else if '"' !in s[1..] then true
    else
      var content := Before(s[1..], '"');
      IsAscii(content) && LiteralsAreAscii(s[2 + |content|..])
  }

  lemma {:induction false} BeforeStopsAt(s: string, c: char)
    requires c in s
    ensures |Before(s, c)| < |s| && s[|Before(s, c)|] == c
  {
    if s[0] != c {
      BeforeStopsAt(s[1..], c);
    }
  }

  /** A text that starts with a quoted text, taken apart. */
  lemma QuotedApart(s: string)
    requires s != "" && s[0] == '"' && '"' in s[1..]
    ensures var content := Before(s[1..], '"');
            2 + |content| <= |s| && s == "\"" + content + "\"" + s[2 + |content|..]
  {
    BeforeStopsAt(s[1..], '"');
  }

  lemma {:induction false} AsciiLiteralsKept(s: string, rewrite: string -> string)
    requires LiteralsAreAscii(s)
    requires forall content :: IsAscii(content) ==> rewrite(content) == content
    ensures RewriteLiterals(s, rewrite) == s
    decreases |s|
  {
    if s != "" {
      if s[0] != '"' {
        AsciiLiteralsKept(s[1..], rewrite);
      } else if '"' in s[1..] {
        var content := Before(s[1..], '"');
        QuotedApart(s);
        AsciiLiteralsKept(s[2 + |content|..], rewrite);
        assert rewrite(content) == content;
      }
    }
  }

  /**
   When no quoted text is left with a non-ASCII character after the comment pass, sanitising
   deletes exactly the non-ASCII characters of the input, and fails exactly when the entry
   point is missing before or after that deletion.
   */
  lemma PlainDeletion(pacText: string, parse: HostParser)
    requires LiteralsAreAscii(WithoutCommentGarbage(pacText))
    ensures Sanitize(pacText, parse)
         == if Contains(pacText, ENTRY) && Contains(AsciiOnly(pacText), ENTRY) then Some(AsciiOnly(pacText)) else None
  {
    JoinOfSplit(pacText, '\n');
    JoinDropsOnlyNonAscii(Split(pacText, '\n'));
    AsciiLiteralsKept(WithoutCommentGarbage(pacText), Punycoded(parse));
    if IsAscii(pacText) {
      AsciiOnlyOfAscii(pacText);
    }
  }

  // ---------------------------------------------------------------- the literal pass in general

  /** The quoted texts of s, in order. */
  function Literals(s: string): seq<string>
    decreases |s|
  {
    if s == "" then []
    else if s[0] != '"' then Literals(s[1..])
    else if '"' !in s[1..] then []
    else
      var content := Before(s[1..], '"');
      [content] + Literals(s[2 + |content|..])
  }

  /** The text of s with every quoted text emptied. */
  function Frame(s: string): string {
    RewriteLiterals(s, content => "")
  }

  lemma {:induction false} BeforeOfQuoted(content: string, rest: string)
    requires '"' !in content
    ensures Before(content + "\"" + rest, '"') == content
  {
    if content == "" {
    } else {
      assert (content + "\"" + rest)[1..] == content[1..] + "\"" + rest;
      assert content[0] in content;
      BeforeOfQuoted(content[1..], rest);
    }
  }

  /** A literal put back together: what scanning it again finds. */
  lemma ScanQuoted(content: string, rest: string, rewrite: string -> string)
    requires '"' !in content
    ensures var s := "\"" + content + "\"" + rest;
            && Literals(s) == [content] + Literals(rest)
            && RewriteLiterals(s, rewrite) == "\"" + rewrite(content) + "\"" + RewriteLiterals(rest, rewrite)
  {
    var s := "\"" + content + "\"" + rest;
    assert s[1..] == content + "\"" + rest;
    assert s[1..][|content|] == '"';
    BeforeOfQuoted(content, rest);
    assert s[2 + |content|..] == rest;
  }

  lemma {:induction false} LiteralsHoldNoQuote(s: string)
    ensures forall i :: 0 <= i < |Literals(s)| ==> '"' !in Literals(s)[i]
    decreases |s|
  {
    if s != "" {
      if s[0] != '"' {
        LiteralsHoldNoQuote(s[1..]);
      } else if '"' in s[1..] {
        var content := Before(s[1..], '"');
        QuotedApart(s);
        LiteralsHoldNoQuote(s[2 + |content|..]);
      }
    }
  }

  lemma ImagesOfMore(image: string -> string, x: string, xs: seq<string>)
    ensures Sequences.Images(image, [x] + xs) == [image(x)] + Sequences.Images(image, xs)
  {
  }

  /** No quoted text of s is rewritten to one with a quote in it. */
  predicate StaysQuoteless(s: string, rewrite: string -> string) {
    forall i :: 0 <= i < |Literals(s)| ==> Quoteless(rewrite(Literals(s)[i]))
  }

  lemma FirstStaysQuoteless(content: string, rest: string, s: string, rewrite: string -> string)
    requires Literals(s) == [content] + Literals(rest)
    ensures StaysQuoteless(s, rewrite) <==> Quoteless(rewrite(content)) && StaysQuoteless(rest, rewrite)
  {
    var all := Literals(s);
    assert all[0] == content && all[1..] == Literals(rest);
    assert forall i :: 0 <= i < |Literals(rest)| ==> Literals(rest)[i] == all[i + 1];
    assert forall i :: 0 < i < |all| ==> all[i] == Literals(rest)[i - 1];
  }

  /** A character that is no quote changes no quoted text. */
  lemma ScanPlain(c: char, rest: string, rewrite: string -> string)
    requires c != '"'
    ensures Literals([c] + rest) == Literals(rest)
    ensures RewriteLiterals([c] + rest, rewrite) == [c] + RewriteLiterals(rest, rewrite)
    ensures StaysQuoteless([c] + rest, rewrite) <==> StaysQuoteless(rest, rewrite)
  {
    assert ([c] + rest)[1..] == rest;
  }

  lemma {:induction false} QuotelessPassIsLocal(s: string, rewrite: string -> string)
    requires StaysQuoteless(s, rewrite)
    ensures Literals(RewriteLiterals(s, rewrite)) == Sequences.Images(rewrite, Literals(s))
    ensures Frame(RewriteLiterals(s, rewrite)) == Frame(s)
    decreases |s|, 1
  {
    if s != "" {
      if s[0] != '"' {
        assert s == [s[0]] + s[1..];
        ScanPlain(s[0], s[1..], rewrite);
        QuotelessPassIsLocal(s[1..], rewrite);
        ScanPlain(s[0], RewriteLiterals(s[1..], rewrite), c => "");
        ScanPlain(s[0], s[1..], c => "");
      } else if '"' in s[1..] {
        var content := Before(s[1..], '"');
        var rest := s[2 + |content|..];
        QuotedApart(s);
        QuotedPassIsLocal(content, rest, rewrite);
      }
    }
  }

  lemma {:induction false} QuotedPassIsLocal(content: string, rest: string, rewrite: string -> string)
    requires Quoteless(content) && StaysQuoteless("\"" + content + "\"" + rest, rewrite)
    ensures var s := "\"" + content + "\"" + rest;
            && Literals(RewriteLiterals(s, rewrite)) == Sequences.Images(rewrite, Literals(s))
            && Frame(RewriteLiterals(s, rewrite)) == Frame(s)
    decreases 2 + |content| + |rest|, 0
  {
    var s := "\"" + content + "\"" + rest;
    ScanQuoted(content, rest, rewrite);
    ScanQuoted(content, rest, c => "");
    FirstStaysQuoteless(content, rest, s, rewrite);
    QuotelessPassIsLocal(rest, rewrite);
    ScanQuoted(rewrite(content), RewriteLiterals(rest, rewrite), c => "");
    ImagesOfMore(rewrite, content, Literals(rest));
  }

  /**
   The literal pass rewrites each quoted text by itself if and only if no rewritten text holds a
   quote; then it touches nothing around them.
   */
  lemma LiteralPassIsLocal(s: string, rewrite: string -> string)
    ensures Literals(RewriteLiterals(s, rewrite)) == Sequences.Images(rewrite, Literals(s)) <==> StaysQuoteless(s, rewrite)
    ensures StaysQuoteless(s, rewrite) ==> Frame(RewriteLiterals(s, rewrite)) == Frame(s)
  {
    LiteralsHoldNoQuote(RewriteLiterals(s, rewrite));
    if StaysQuoteless(s, rewrite) {
      QuotelessPassIsLocal(s, rewrite);
    }
  }

  // ---------------------------------------------------------------- the quoted texts of the result

  lemma {:induction false} AsciiOnlyKeepsQuotes(s: string)
    ensures Quoteless(AsciiOnly(s)) <==> Quoteless(s)
  {
    if s != "" {
      AsciiOnlyKeepsQuotes(s[1..]);
      assert s == [s[0]] + s[1..];
    }
  }

  lemma AsciiOnlyOfQuoted(content: string, rest: string)
    ensures AsciiOnly("\"" + content + "\"" + rest) == "\"" + AsciiOnly(content) + "\"" + AsciiOnly(rest)
  {
    AsciiOnlyConcat("\"" + content + "\"", rest);
    AsciiOnlyConcat("\"" + content, "\"");
    AsciiOnlyConcat("\"", content);
  }

  lemma LiteralsOfUnmatched(s: string)
    requires s != "" && s[0] == '"' && Quoteless(s[1..])
    ensures Literals(AsciiOnly(s)) == []
  {
    AsciiOnlyKeepsQuotes(s[1..]);
    assert AsciiOnly(s) == ['"'] + AsciiOnly(s[1..]);
    assert AsciiOnly(s)[1..] == AsciiOnly(s[1..]);
  }

  lemma LiteralsOfPlain(s: string)
    requires s != "" && s[0] != '"'
    ensures Literals(AsciiOnly(s)) == Literals(AsciiOnly(s[1..]))
  {
    if s[0] as int <= 127 {
      assert AsciiOnly(s) == [s[0]] + AsciiOnly(s[1..]);
      ScanPlain(s[0], AsciiOnly(s[1..]), c => "");
    } else {
      assert AsciiOnly(s) == AsciiOnly(s[1..]);
    }
  }

  lemma LiteralsOfQuoted(content: string, rest: string)
    requires Quoteless(content)
    ensures Literals(AsciiOnly("\"" + content + "\"" + rest)) == [AsciiOnly(content)] + Literals(AsciiOnly(rest))
  {
    AsciiOnlyOfQuoted(content, rest);
    AsciiOnlyKeepsQuotes(content);
    ScanQuoted(AsciiOnly(content), AsciiOnly(rest), c => "");
  }

  function Asciified(): string -> string {
    content => AsciiOnly(content)
  }

  /** The last pass drops characters inside the quoted texts and joins or splits none. */
  lemma {:induction false} LiteralsOfAsciiOnly(s: string)
    ensures Literals(AsciiOnly(s)) == Sequences.Images(Asciified(), Literals(s))
    decreases |s|
  {
    if s != "" {
      if s[0] != '"' {
        LiteralsOfAsciiOnly(s[1..]);
        LiteralsOfPlain(s);
      } else if '"' in s[1..] {
        var content := Before(s[1..], '"');
        var rest := s[2 + |content|..];
        QuotedApart(s);
        LiteralsOfAsciiOnly(rest);
        LiteralsOfQuoted(content, rest);
        ImagesOfMore(Asciified(), content, Literals(rest));
      } else {
        LiteralsOfUnmatched(s);
      }
    }
  }

  /** What each quoted text of a script should become: its host name in punycode, and nothing that is not ASCII. */
  function Expected(literals: seq<string>, parse: HostParser): seq<string> {
    Sequences.Images(Asciified(), Sequences.Images(Punycoded(parse), literals))
  }

  lemma ExpectedOfOne(content: string, parse: HostParser)
    requires IsAscii(LiteralContent(content, parse))
    ensures Expected([content], parse) == [LiteralContent(content, parse)]
  {
    AsciiOnlyOfAscii(LiteralContent(content, parse));
  }

  /** No quoted text is replaced by a host name with a quote in it. */
  ghost predicate HostsQuoteless(literals: seq<string>, parse: HostParser) {
    forall content :: content in literals && !IsAscii(content) && HostName(content, parse).Some?
      ==> Quoteless(HostName(content, parse).value)
  }

  lemma HostsDecide(s: string, parse: HostParser)
    ensures StaysQuoteless(s, Punycoded(parse)) <==> HostsQuoteless(Literals(s), parse)
  {
    LiteralsHoldNoQuote(s);
    forall content | content in Literals(s)
      ensures Quoteless(LiteralContent(content, parse))
         <==> IsAscii(content) || HostName(content, parse).None? || Quoteless(HostName(content, parse).value)
    {
      AsciiOnlyKeepsQuotes(content);
    }
  }

  /**
   Sanitising a script that is not ASCII turns the quoted texts left by the comment pass, one by
   one, into what each should become, if and only if the URL parser puts no quote into any of
   their host names.
   */
  lemma SanitizedLiterals(pacText: string, parse: HostParser)
    requires !IsAscii(pacText) && Sanitize(pacText, parse).Some?
    ensures var quoted := Literals(WithoutCommentGarbage(pacText));
            Literals(Sanitize(pacText, parse).value) == Expected(quoted, parse) <==> HostsQuoteless(quoted, parse)
  {
    var clean, rewrite := WithoutCommentGarbage(pacText), Punycoded(parse);
    var rewritten := RewriteLiterals(clean, rewrite);
    LiteralsOfAsciiOnly(rewritten);
    LiteralPassIsLocal(clean, rewrite);
    LiteralsHoldNoQuote(AsciiOnly(rewritten));
    HostsDecide(clean, parse);
    if Literals(AsciiOnly(rewritten)) == Expected(Literals(clean), parse) {
      forall i | 0 <= i < |Literals(clean)|
        ensures Quoteless(rewrite(Literals(clean)[i]))
      {
        assert Expected(Literals(clean), parse)[i] == AsciiOnly(rewrite(Literals(clean)[i]));
        AsciiOnlyKeepsQuotes(rewrite(Literals(clean)[i]));
      }
    }
  }

  // ---------------------------------------------------------------- a quoted text that falls apart

  lemma NothingToClean(s: string)
    requires '\n' !in s && '/' !in s
    ensures WithoutCommentGarbage(s) == s
  {
    SplitWithout(s, '\n');
    assert forall i :: 0 <= i < |s| ==> s[i] in s;
    assert CleanComments([s]) == [s];
  }

  lemma {:induction false} ScanQuoteless(front: string, s: string, rewrite: string -> string)
    requires Quoteless(front)
    ensures Literals(front + s) == Literals(s)
    ensures RewriteLiterals(front + s, rewrite) == front + RewriteLiterals(s, rewrite)
  {
    if front == "" {
      assert front + s == s;
    } else {
      assert front[0] in front;
      assert front + s == [front[0]] + (front[1..] + s);
      ScanQuoteless(front[1..], s, rewrite);
      ScanPlain(front[0], front[1..] + s, rewrite);
      assert front == [front[0]] + front[1..];
    }
  }

  /** The text of a script that consists of one quoted text. */
  function OneLiteral(front: string, content: string): string {
    front + "\"" + content + "\""
  }

  lemma OneLiteralScanned(front: string, content: string, rewrite: string -> string)
    requires Quoteless(front) && Quoteless(content)
    ensures Literals(OneLiteral(front, content)) == [content]
    ensures RewriteLiterals(OneLiteral(front, content), rewrite) == OneLiteral(front, rewrite(content))
  {
    ScanQuoted(content, "", rewrite);
    ScanQuoteless(front, "\"" + content + "\"" + "", rewrite);
    assert OneLiteral(front, content) == front + ("\"" + content + "\"" + "");
    assert OneLiteral(front, rewrite(content)) == front + ("\"" + rewrite(content) + "\"" + "");
  }

  lemma LiteralsBehindQuote(front: string)
    requires Quoteless(front)
    ensures Literals(OneLiteral(front, ['a', '"', 'b'])) == [['a']]
  {
    var rest := ['b', '"'];
    ScanQuoted(['a'], rest, c => "");
    ScanQuoteless(front, "\"" + ['a'] + "\"" + rest, c => "");
    assert OneLiteral(front, ['a', '"', 'b']) == front + ("\"" + ['a'] + "\"" + rest);
    assert rest[1..] == ['"'] && Literals(['"']) == [];
  }

  predicate PlainText(s: string) {
    Quoteless(s) && '\n' !in s && '/' !in s
  }

  lemma ForeignName(name: string, host: string, parse: HostParser)
    requires name == ['a', '\U{ff02}', 'b'] && host == ['a', '"', 'b'] && parse("http://" + name) == Some(host)
    ensures PlainText(name) && !IsAscii(name)
    ensures LiteralContent(name, parse) == host && IsAscii(host)
  {
    assert !(name[1] as int <= 127) && name[1] in name;
    assert "*."[0] == '*' && "."[0] == '.' && name[0] == 'a';
    assert Wildcard(name) == "" && name[0..] == name;
  }

  lemma DefinesEntry(front: string, content: string)
    requires ENTRY <= front
    ensures Contains(OneLiteral(front, content), ENTRY)
  {
    OccurrenceIsContained(OneLiteral(front, content), ENTRY, 0);
  }

  lemma OneLiteralIsAscii(front: string, content: string)
    ensures IsAscii(OneLiteral(front, content)) <==> IsAscii(front) && IsAscii(content)
    ensures '\n' in OneLiteral(front, content) <==> '\n' in front || '\n' in content
    ensures '/' in OneLiteral(front, content) <==> '/' in front || '/' in content
  {
    assert forall c :: c in OneLiteral(front, content) <==> c in front || c == '"' || c in content;
  }

  lemma OneLiteralSanitized(front: string, content: string, parse: HostParser)
    requires PlainText(front) && PlainText(content) && ENTRY <= front && IsAscii(front) && !IsAscii(content)
    requires IsAscii(LiteralContent(content, parse))
    ensures Sanitize(OneLiteral(front, content), parse) == Some(OneLiteral(front, LiteralContent(content, parse)))
  {
    var script, sanitized := OneLiteral(front, content), OneLiteral(front, LiteralContent(content, parse));
    DefinesEntry(front, content);
    OneLiteralIsAscii(front, content);
    NothingToClean(script);
    OneLiteralScanned(front, content, Punycoded(parse));
    DefinesEntry(front, LiteralContent(content, parse));
    OneLiteralIsAscii(front, LiteralContent(content, parse));
    AsciiOnlyOfAscii(sanitized);
  }

  /**
   The URL Standard maps the fullwidth quotation mark to the ASCII one and does not forbid that in
   a host name. With a parser that follows it there, a quoted name ends at the wrong place.
   */
  lemma LiteralFallsApart(front: string, name: string, host: string, parse: HostParser)
    requires PlainText(front) && IsAscii(front) && ENTRY <= front
    requires name == ['a', '\U{ff02}', 'b'] && host == ['a', '"', 'b'] && parse("http://" + name) == Some(host)
    ensures Literals(OneLiteral(front, name)) == [name]
    ensures Sanitize(OneLiteral(front, name), parse) == Some(OneLiteral(front, host))
    ensures Literals(OneLiteral(front, host)) == [['a']] && Expected([name], parse) == [host]
  {
    ForeignName(name, host, parse);
    OneLiteralScanned(front, name, Punycoded(parse));
    OneLiteralSanitized(front, name, parse);
    LiteralsBehindQuote(front);
    ExpectedOfOne(name, parse);
  }
}
