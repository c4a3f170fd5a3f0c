/**
 The JavaScript string operations that the routing code is written with. A position that the
 original reports as -1 is None here. Case mapping covers the ASCII letters.
 */
module Text {
  import opened Wrappers

  // ---------------------------------------------------------------- searching

  predicate StartsWith(s: string, prefix: string) {
    prefix <= s
  }

  predicate EndsWith(s: string, suffix: string) {
    |suffix| <= |s| && s[|s| - |suffix|..] == suffix
  }

  predicate OccursAt(s: string, word: string, i: nat) {
    i + |word| <= |s| && s[i..i + |word|] == word
  }

  /** The first position at or after i where the word occurs. */
  function IndexFrom(s: string, word: string, i: nat): (r: Option<nat>)
    requires i <= |s|
    ensures r.Some? ==> i <= r.value && OccursAt(s, word, r.value) && forall j :: i <= j < r.value ==> !OccursAt(s, word, j)
    ensures r.None? ==> forall j :: i <= j <= |s| ==> !OccursAt(s, word, j)
    decreases |s| - i
  {
    if OccursAt(s, word, i) then Some(i)
    else if i == |s| then None
    else IndexFrom(s, word, i + 1)
  }

  function IndexOf(s: string, word: string): (r: Option<nat>)
    ensures r.Some? ==> OccursAt(s, word, r.value) && forall j :: 0 <= j < r.value ==> !OccursAt(s, word, j)
    ensures r.None? ==> forall j :: 0 <= j <= |s| ==> !OccursAt(s, word, j)
  {
    IndexFrom(s, word, 0)
  }

  predicate Contains(s: string, word: string) {
    IndexOf(s, word).Some?
  }

  lemma OccurrenceIsContained(s: string, word: string, i: nat)
    requires OccursAt(s, word, i)
    ensures Contains(s, word)
  {
  }

  // ---------------------------------------------------------------- cutting

  /** The text in front of the first c, or all of it: what split(c)[0] yields. */
  function Before(s: string, c: char): (r: string)
    ensures c !in r
    ensures r <= s
    ensures c !in s ==> r == s
  {
    if s == "" || s[0] == c then "" else [s[0]] + Before(s[1..], c)
  }

  function Split(s: string, c: char): (parts: seq<string>)
    ensures parts != []
    ensures forall p :: p in parts ==> c !in p
  {
    if s == "" then [""]
    else if s[0] == c then [""] + Split(s[1..], c)
    else
      var rest := Split(s[1..], c);
      [[s[0]] + rest[0]] + rest[1..]
  }

  function Join(parts: seq<string>, separator: string): string {
    if parts == [] then ""
    else if |parts| == 1 then parts[0]
    else parts[0] + separator + Join(parts[1..], separator)
  }

  lemma {:induction false} JoinOfSplit(s: string, c: char)
    ensures Join(Split(s, c), [c]) == s
  {
    if s != "" {
      JoinOfSplit(s[1..], c);
      var rest := Split(s[1..], c);
      assert s == [s[0]] + s[1..];
      if s[0] == c {
        assert Split(s, c)[1..] == rest;
      } else {
        assert Split(s, c)[1..] == rest[1..];
        assert |rest| > 1 ==> Join(rest, [c]) == rest[0] + [c] + Join(rest[1..], [c]);
      }
    }
  }

  lemma {:induction false} SplitWithout(s: string, c: char)
    requires c !in s
    ensures Split(s, c) == [s]
  {
    if s != "" {
      assert s[0] in s && s == [s[0]] + s[1..];
      SplitWithout(s[1..], c);
    }
  }

  lemma {:induction false} FirstOfSplit(s: string, c: char)
    ensures Split(s, c)[0] == Before(s, c)
  {
    if s != "" && s[0] != c {
      FirstOfSplit(s[1..], c);
    }
  }

  // ---------------------------------------------------------------- white space

  /** White space and line terminators as ECMAScript defines them for trim and \s. */
  predicate IsSpace(c: char) {
    || '\t' <= c <= '\r' || c == ' ' || c == '\U{a0}' || c == '\U{1680}'
    || '\U{2000}' <= c <= '\U{200a}' || c == '\U{2028}' || c == '\U{2029}'
    || c == '\U{202f}' || c == '\U{205f}' || c == '\U{3000}' || c == '\U{feff}'
  }

  function TrimStart(s: string): (r: string)
    ensures r == "" || !IsSpace(r[0])
    ensures forall c :: c in r ==> c in s
  {
    if s != "" && IsSpace(s[0]) then TrimStart(s[1..]) else s
  }

  function TrimEnd(s: string): (r: string)
    ensures r <= s
    ensures r == "" || !IsSpace(r[|r| - 1])
  {
    if s != "" && IsSpace(s[|s| - 1]) then TrimEnd(s[..|s| - 1]) else s
  }

  function Trim(s: string): (r: string)
    ensures r == "" || (!IsSpace(r[0]) && !IsSpace(r[|r| - 1]))
    ensures forall c :: c in r ==> c in s
  {
    TrimEnd(TrimStart(s))
  }

  predicate Trimmed(s: string) {
    s == "" || (!IsSpace(s[0]) && !IsSpace(s[|s| - 1]))
  }

  lemma TrimOfTrimmed(s: string)
    requires Trimmed(s)
    ensures Trim(s) == s
  {
  }

  lemma TrimOfSpaceless(s: string)
    requires forall c :: c in s ==> !IsSpace(c)
    ensures Trim(s) == s
  {
    TrimOfTrimmed(s);
  }

  // ---------------------------------------------------------------- letters

  function LowerChar(c: char): char {
    if 'A' <= c <= 'Z' then (c as int + 32) as char else c
  }

  function UpperChar(c: char): char {
    if 'a' <= c <= 'z' then (c as int - 32) as char else c
  }

  function Lower(s: string): (r: string)
    ensures |r| == |s|
    ensures forall i :: 0 <= i < |s| ==> r[i] == LowerChar(s[i])
  {
    seq(|s|, i requires 0 <= i < |s| => LowerChar(s[i]))
  }

  function Upper(s: string): (r: string)
    ensures |r| == |s|
    ensures forall i :: 0 <= i < |s| ==> r[i] == UpperChar(s[i])
  {
    seq(|s|, i requires 0 <= i < |s| => UpperChar(s[i]))
  }

  predicate IsLower(s: string) {
    forall c :: c in s ==> !('A' <= c <= 'Z')
  }

  lemma LowerOfLower(s: string)
    ensures IsLower(Lower(s))
    ensures IsLower(s) ==> Lower(s) == s
  {
    assert IsLower(s) ==> forall i :: 0 <= i < |s| ==> s[i] in s && Lower(s)[i] == s[i];
  }

  lemma LowerConcat(s: string, t: string)
    ensures Lower(s + t) == Lower(s) + Lower(t)
  {
  }

  // ---------------------------------------------------------------- filtering

  predicate IsAscii(s: string) {
    forall c :: c in s ==> c as int <= 127
  }

  function AsciiOnly(s: string): (r: string)
    ensures IsAscii(r)
    ensures forall c :: c in r ==> c in s
  {
    if s == "" then "" else (if s[0] as int <= 127 then [s[0]] else "") + AsciiOnly(s[1..])
  }

  lemma {:induction false} AsciiOnlyConcat(s: string, t: string)
    ensures AsciiOnly(s + t) == AsciiOnly(s) + AsciiOnly(t)
  {
    if s == "" {
      assert s + t == t;
    } else {
      var head := if s[0] as int <= 127 then [s[0]] else "";
      var front, back := AsciiOnly(s[1..]), AsciiOnly(t);
      assert (s + t)[0] == s[0] && (s + t)[1..] == s[1..] + t;
      AsciiOnlyConcat(s[1..], t);
      assert head + (front + back) == (head + front) + back;
    }
  }

  lemma {:induction false} AsciiOnlyOfAscii(s: string)
    requires IsAscii(s)
    ensures AsciiOnly(s) == s
  {
    if s != "" {
      assert s == [s[0]] + s[1..] && s[0] in s;
      assert forall c :: c in s[1..] ==> c in s;
      AsciiOnlyOfAscii(s[1..]);
    }
  }

  function Without(s: string, dropped: set<char>): (r: string)
    ensures forall c :: c in r <==> c in s && c !in dropped
  {
    if s == "" then "" else (if s[0] in dropped then "" else [s[0]]) + Without(s[1..], dropped)
  }

  lemma {:induction false} WithoutNothing(s: string, dropped: set<char>)
    requires forall c :: c in s ==> c !in dropped
    ensures Without(s, dropped) == s
  {
    if s != "" {
      assert s == [s[0]] + s[1..] && s[0] in s;
      assert forall c :: c in s[1..] ==> c in s;
      WithoutNothing(s[1..], dropped);
    }
  }

  /** The scan the routing code uses to decide whether a text is plain ASCII. */
  method HasNonAscii(s: string) returns (found: bool)
    ensures found <==> !IsAscii(s)
  {
    found := false;
    var j := 0;
    while j < |s|
      invariant 0 <= j <= |s|
      invariant IsAscii(s[..j]) && !found
    {
      if s[j] as int > 127 {
        assert s[j] in s;
        return true;
      }
      assert s[..j + 1] == s[..j] + [s[j]];
      j := j + 1;
    }
    assert s[..j] == s;
  }

  /** The loop that keeps the ASCII characters of a text. */
  method KeepAscii(s: string) returns (kept: string)
    ensures kept == AsciiOnly(s)
  {
    kept := "";
    var m := 0;
    while m < |s|
      invariant 0 <= m <= |s|
      invariant kept == AsciiOnly(s[..m])
    {
      assert s[..m + 1] == s[..m] + [s[m]];
      AsciiOnlyConcat(s[..m], [s[m]]);
      assert AsciiOnly([s[m]]) == if s[m] as int <= 127 then [s[m]] else "";
      if s[m] as int <= 127 {
        kept := kept + [s[m]];
      }
      m := m + 1;
    }
    assert s[..m] == s;
  }
}
