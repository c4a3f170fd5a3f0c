/** Which patterns the popup accepts for a user rule (extension/popup.js, validateRulePattern). */
module RulePatterns {
  import opened Wrappers
  import opened Text
  import opened Decimals

  predicate IsHex(c: char) {
    IsDigit(c) || 'a' <= c <= 'f' || 'A' <= c <= 'F'
  }

  predicate IsWordChar(c: char) {
    'a' <= c <= 'z' || 'A' <= c <= 'Z' || IsDigit(c) || c == '_'
  }

  // ---------------------------------------------------------------- hosts

  predicate IsOctet(s: string) {
    || (|s| == 3 && s[0] == '2' && s[1] == '5' && '0' <= s[2] <= '5')
    || (|s| == 3 && s[0] == '2' && '0' <= s[1] <= '4' && IsDigit(s[2]))
    || (|s| == 3 && s[0] == '1' && IsDigit(s[1]) && IsDigit(s[2]))
    || (|s| == 2 && '1' <= s[0] <= '9' && IsDigit(s[1]))
    || (|s| == 1 && IsDigit(s[0]))
  }

  predicate IsIpv4(s: string) {
    var parts := Split(s, '.');
    |parts| == 4 && forall i :: 0 <= i < 4 ==> IsOctet(parts[i])
  }

  predicate IsIpv6(s: string) {
    2 <= |s| <= 39 && ':' in s && forall c :: c in s ==> IsHex(c) || c == ':'
  }

  predicate IsLabel(s: string) {
    && 0 < |s| <= 63
    && (forall c :: c in s ==> IsWordChar(c) || c == '-')
    && s[0] != '-' && s[|s| - 1] != '-'
  }

  predicate IsDomain(s: string) {
    var labels := Split(s, '.');
    forall i :: 0 <= i < |labels| ==> IsLabel(labels[i])
  }

  /** The wildcard in front of a domain. */
  function Wildcard(s: string): (w: string)
    ensures w <= s
  {
    if StartsWith(s, "*.") then "*." else if StartsWith(s, ".") then "." else ""
  }

  /** What is validated once a mask has been split off; None when the mask is no prefix length. */
  function WithoutMask(s: string): Option<string> {
    if '/' !in s then Some(s) else
    var parts := Split(s, '/');
    if |parts| != 2 then None else
    match ParseInt(parts[1])
    case None => None
    case Some(mask) => if mask < 0 || mask > 128 then None else Some(parts[0])
  }

  predicate Validate(pattern: string) {
    var s := Trim(pattern);
    && s != ""
    && (s == "*" ||
        match WithoutMask(s[|Wildcard(s)|..])
        case None => false
        case Some(host) => IsIpv4(host) || IsIpv6(host) || IsDomain(host))
  }

  // ---------------------------------------------------------------- the shape of accepted patterns

  predicate IsHostChar(c: char) {
    IsWordChar(c) || c == '-' || c == '.' || c == ':'
  }

  predicate IsHostText(s: string) {
    forall c :: c in s ==> IsHostChar(c)
  }

  lemma {:induction false} SplitCharacters(s: string, c: char, x: char)
    requires x in s && x != c
    ensures exists i :: 0 <= i < |Split(s, c)| && x in Split(s, c)[i]
  {
    var parts := Split(s, c);
    var rest := Split(s[1..], c);
    if s[0] != c && x == s[0] {
      assert x in parts[0];
    } else {
      assert s == [s[0]] + s[1..];
      SplitCharacters(s[1..], c, x);
      var i :| 0 <= i < |rest| && x in rest[i];
      if s[0] == c {
        assert parts[i + 1] == rest[i];
      } else if i == 0 {
        assert parts[0] == [s[0]] + rest[0];
        assert x in parts[0];
      } else {
        assert parts[i] == rest[i];
      }
    }
  }

  lemma AcceptedHostText(host: string)
    requires IsIpv4(host) || IsIpv6(host) || IsDomain(host)
    ensures IsHostText(host) && host != "" && host[0] != '.'
  {
    var parts := Split(host, '.');
    forall x | x in host
      ensures IsHostChar(x)
    {
      if !IsIpv6(host) && x != '.' {
        SplitCharacters(host, '.', x);
      }
    }
    if IsIpv6(host) {
      assert host[0] in host;
    } else {
      FirstOfSplit(host, '.');
      assert parts[0] != "";
    }
  }

  /** At most one slash follows the host, and what stands before it is a wildcard and the host. */
  lemma MaskFollowsHost(s: string)
    requires WithoutMask(s).Some?
    ensures Before(s, '/') == WithoutMask(s).value
    ensures !Contains(s, "://")
  {
    FirstOfSplit(s, '/');
    if '/' !in s {
      SplitWithout(s, '/');
    }
    if Contains(s, "://") {
      var i := IndexOf(s, "://").value;
      assert s[i..i + 3][1] == '/' && s[i..i + 3][2] == '/';
      assert s[i + 1] in s;
      TwoSlashes(s, i + 1, i + 2);
    }
  }

  lemma {:induction false} TwoSlashes(s: string, i: nat, j: nat)
    requires i < j < |s| && s[i] == '/' && s[j] == '/'
    ensures |Split(s, '/')| >= 3
  {
    if i > 0 {
      TwoSlashes(s[1..], i - 1, j - 1);
    } else {
      OneSlash(s[1..], j - 1);
    }
  }

  lemma {:induction false} OneSlash(s: string, j: nat)
    requires j < |s| && s[j] == '/'
    ensures |Split(s, '/')| >= 2
  {
    if j > 0 {
      OneSlash(s[1..], j - 1);
    }
  }

  lemma {:induction false} BeforeConcat(s: string, t: string, c: char)
    requires c !in s
    ensures Before(s + t, c) == s + Before(t, c)
  {
    if s == "" {
      assert s + t == t;
    } else {
      assert s[0] in s && (s + t)[1..] == s[1..] + t;
      BeforeConcat(s[1..], t, c);
    }
  }

  lemma {:induction false} ContainsInTail(s: string, t: string)
    requires '/' !in s && Contains(s + t, "://") && ':' !in s
    ensures Contains(t, "://")
  {
    var i := IndexOf(s + t, "://").value;
    var whole := s + t;
    assert whole[i] == whole[i..i + 3][0] == ':';
    assert i >= |s|;
    assert t[i - |s|..i - |s| + 3] == whole[i..i + 3];
    OccurrenceIsContained(t, "://", i - |s|);
  }

  /** The shape of every accepted pattern but the bare star: a wildcard, host characters, maybe a mask. */
  lemma AcceptedShape(pattern: string) returns (w: string, h: string)
    requires Validate(pattern) && Trim(pattern) != "*"
    ensures w == Wildcard(Trim(pattern)) && Before(Trim(pattern), '/') == w + h
    ensures !Contains(Trim(pattern), "://")
    ensures IsHostText(h) && h != "" && h[0] != '.'
  {
    var s := Trim(pattern);
    w := Wildcard(s);
    var tail := s[|w|..];
    h := WithoutMask(tail).value;
    assert s == w + tail && '/' !in w && ':' !in w;
    MaskFollowsHost(tail);
    if Contains(s, "://") {
      ContainsInTail(w, tail);
    }
    BeforeConcat(w, tail, '/');
    AcceptedHostText(h);
  }
}
