/**
 The version stamp of Windows binaries (src/appPackager.ts): parsing a version string, patching
 it in place into the fixed file information of a binary, reading it back as text, and the
 integrity check that repairs a stale stamp. Version numbers are taken exactly, without the
 rounding JavaScript applies beyond 2^53.
 */
module PeVersion {
  import opened Wrappers
  import opened Bytes
  import opened Text
  import opened Decimals

  datatype Version = Version(major: nat, minor: nat, patch: nat, build: nat)

  const DEFAULT_APP_VERSION := "2.2.0"

  // ---------------------------------------------------------------- parsing

  /** A text with its hyphens turned into dots: both separate the parts of a version. */
  function Dotted(s: string): (r: string)
    ensures |r| == |s|
    ensures forall i :: 0 <= i < |s| ==> r[i] == if s[i] == '-' then '.' else s[i]
  {
    seq(|s|, i requires 0 <= i < |s| => if s[i] == '-' then '.' else s[i])
  }

  function Numbers(parts: seq<string>): seq<nat> {
    if parts == [] then []
    else
      var n := ParseNat(parts[0]);   // the parts hold no hyphen, so no number is negative
      (if n.Some? then [n.value] else []) + Numbers(parts[1..])
  }

  function WithoutV(s: string): string {
    if s != "" && (s[0] == 'v' || s[0] == 'V') then s[1..] else s
  }

  /** The part at position i, or its default. */
  function Part(numbers: seq<nat>, i: nat, default: nat): nat {
    if i < |numbers| then numbers[i] else default
  }

  function ParseAppVersion(raw: string): Version {
    var stripped := WithoutV(Trim(raw));
    var clean := if stripped == "" then DEFAULT_APP_VERSION else stripped;
    var n := Numbers(Split(Dotted(clean), '.'));
    Version(Part(n, 0, 2), Part(n, 1, 2), Part(n, 2, 0), Part(n, 3, 0))
  }

  function Dots(a: string, b: string, c: string): string {
    a + "." + b + "." + c
  }

  function VersionText(v: Version): string {
    Dots(Decimal(v.major), Decimal(v.minor), Decimal(v.patch))
  }

  function Quad(v: Version): string {
    VersionText(v) + "." + Decimal(v.build)
  }

  lemma {:induction false} SplitFirst(p: string, rest: string)
    requires '.' !in p
    ensures Split(p + "." + rest, '.') == [p] + Split(rest, '.')
  {
    var s := p + "." + rest;
    if p == "" {
      assert s[1..] == rest;
    } else {
      assert s[1..] == p[1..] + "." + rest && s[0] == p[0] && p[0] in p;
      SplitFirst(p[1..], rest);
      assert [p[0]] + p[1..] == p;
    }
  }

  lemma DigitsHaveNoDot(s: string)
    requires AllDigits(s)
    ensures '.' !in s && '-' !in s
  {
  }

  lemma SplitDots(a: string, b: string, c: string)
    requires AllDigits(a) && AllDigits(b) && AllDigits(c)
    ensures Split(Dots(a, b, c), '.') == [a, b, c]
  {
    DigitsHaveNoDot(a);
    DigitsHaveNoDot(b);
    DigitsHaveNoDot(c);
    assert Dots(a, b, c) == a + "." + (b + "." + c);
    SplitFirst(a, b + "." + c);
    SplitFirst(b, c);
    SplitWithout(c, '.');
  }

  lemma {:induction false} NumbersOf(parts: seq<string>, numbers: seq<nat>)
    requires |parts| == |numbers| && forall i :: 0 <= i < |parts| ==> ParseNat(parts[i]) == Some(numbers[i])
    ensures Numbers(parts) == numbers
  {
    if parts != [] {
      NumbersOf(parts[1..], numbers[1..]);
    }
  }

  predicate VersionChar(c: char) {
    IsDigit(c) || c == '.'
  }

  lemma PlainVersion(s: string)
    requires s != "" && forall i :: 0 <= i < |s| ==> VersionChar(s[i])
    ensures WithoutV(Trim(s)) == s && Dotted(s) == s
  {
    assert !IsSpace(s[0]) && !IsSpace(s[|s| - 1]);
    TrimOfTrimmed(s);
  }

  lemma DotsArePlain(a: string, b: string, c: string)
    requires AllDigits(a) && AllDigits(b) && AllDigits(c)
    ensures forall i :: 0 <= i < |Dots(a, b, c)| ==> VersionChar(Dots(a, b, c)[i])
  {
  }

  lemma ParsePlain(s: string, n: seq<nat>)
    requires s != "" && forall i :: 0 <= i < |s| ==> VersionChar(s[i])
    requires Numbers(Split(s, '.')) == n
    ensures ParseAppVersion(s) == Version(Part(n, 0, 2), Part(n, 1, 2), Part(n, 2, 0), Part(n, 3, 0))
  {
    PlainVersion(s);
  }

  lemma ParseDots(a: string, b: string, c: string, v: Version)
    requires AllDigits(a) && AllDigits(b) && AllDigits(c)
    requires ParseNat(a) == Some(v.major) && ParseNat(b) == Some(v.minor) && ParseNat(c) == Some(v.patch)
    ensures ParseAppVersion(Dots(a, b, c)) == v.(build := 0)
  {
    var n := [v.major, v.minor, v.patch];
    DotsArePlain(a, b, c);
    SplitDots(a, b, c);
    NumbersOf([a, b, c], n);
    ParsePlain(Dots(a, b, c), n);
  }

  /** A printed version parses back to itself, its build number aside. */
  lemma VersionRoundTrip(v: Version)
    ensures ParseAppVersion(VersionText(v)) == v.(build := 0)
  {
    ParseOfDecimal(v.major);
    ParseOfDecimal(v.minor);
    ParseOfDecimal(v.patch);
    ParseDots(Decimal(v.major), Decimal(v.minor), Decimal(v.patch), v);
  }

  // ---------------------------------------------------------------- the stamp in a binary

  const SIGNATURE: Bytes := [0xbd, 0x04, 0xef, 0xfe]

  predicate SignatureAt(buffer: Bytes, i: nat) {
    i + 4 <= |buffer| && buffer[i..i + 4] == SIGNATURE
  }

  function FindFrom(buffer: Bytes, i: nat): (r: Option<nat>)
    requires i <= |buffer|
    ensures r.Some? ==> i <= r.value && SignatureAt(buffer, r.value) && forall j :: i <= j < r.value ==> !SignatureAt(buffer, j)
    ensures r.None? ==> forall j :: i <= j ==> !SignatureAt(buffer, j)
    decreases |buffer| - i
  {
    if SignatureAt(buffer, i) then Some(i)
    else if i == |buffer| then None
    else FindFrom(buffer, i + 1)
  }

  /** Where the fixed file information begins, if the buffer holds all of it. */
  function FindStamp(buffer: Bytes): Option<nat> {
    var i := FindFrom(buffer, 0);
    if i.Some? && i.value + 24 <= |buffer| then i else None
  }

  function WordAt(buffer: Bytes, i: nat): Word
    requires i + 4 <= |buffer|
  {
    FromLittleEndian(buffer[i..i + 4])
  }

  /** w >> 16 on a 32-bit value: the shift keeps the sign. */
  function HighHalf(w: Word): int {
    if w < 0x8000_0000 then w / 0x1_0000 else w / 0x1_0000 - 0x1_0000
  }

  function LowHalf(w: Word): nat {
    w % 0x1_0000
  }

  function StampText(ms: Word, ls: Word): string {
    Dots(IntText(HighHalf(ms)), Decimal(LowHalf(ms)), IntText(HighHalf(ls)))
    + if LowHalf(ls) != 0 then "." + Decimal(LowHalf(ls)) else ""
  }

  datatype Found = Found(fileVersion: string, productVersion: string)

  /** The four numbers of a stamp that hold versions. */
  datatype Words = Words(fileMs: Word, fileLs: Word, productMs: Word, productLs: Word)

  function StampWords(buffer: Bytes, i: nat): Words
    requires i + 24 <= |buffer|
  {
    Words(WordAt(buffer, i + 8), WordAt(buffer, i + 12), WordAt(buffer, i + 16), WordAt(buffer, i + 20))
  }

  function Texts(w: Words): Found {
    Found(StampText(w.fileMs, w.fileLs), StampText(w.productMs, w.productLs))
  }

  function ExtractPeVersion(buffer: Bytes): Option<Found> {
    match FindStamp(buffer)
    case None => None
    case Some(i) => Some(Texts(StampWords(buffer, i)))
  }

  /** Two sixteen-bit halves put together; the result is used as a signed value. */
  function Halves(high: nat, low: nat): Word {
    (high % 0x1_0000) * 0x1_0000 + low % 0x1_0000
  }

  datatype Outcome = Patched | NoStamp | RangeError

  function PatchOutcome(buffer: Bytes, v: Version): Outcome {
    if FindStamp(buffer) == None then NoStamp
    else if Halves(v.major, v.minor) >= 0x8000_0000 || Halves(v.patch, v.build) >= 0x8000_0000 then RangeError
    else Patched
  }

  function Stamped(buffer: Bytes, i: nat, ms: Word, ls: Word): (r: Bytes)
    requires i + 24 <= |buffer|
    ensures |r| == |buffer|
  {
    buffer[..i + 8] + LittleEndian(ms) + LittleEndian(ls) + LittleEndian(ms) + LittleEndian(ls) + buffer[i + 24..]
  }

  /** What patching leaves in the buffer: a RangeError at the second number comes after the first was written. */
  function PatchedBytes(buffer: Bytes, v: Version): Bytes {
    match FindStamp(buffer)
    case None => buffer
    case Some(i) =>
      var ms, ls := Halves(v.major, v.minor), Halves(v.patch, v.build);
      if ms >= 0x8000_0000 then buffer
      else if ls >= 0x8000_0000 then buffer[..i + 8] + LittleEndian(ms) + buffer[i + 12..]
      else Stamped(buffer, i, ms, ls)
  }

  function ToInt32(w: Word): int {
    if w < 0x8000_0000 then w else w - 0x1_0000_0000
  }

  /** Stores a number into four bytes of a buffer; a negative one is a RangeError. */
  method WriteUInt32LE(buffer: array<Byte>, value: int, offset: nat) returns (ok: bool)
    requires offset + 4 <= buffer.Length
    modifies buffer
    ensures ok <==> 0 <= value < 0x1_0000_0000
    ensures ok ==> buffer[..] == old(buffer[..offset]) + LittleEndian(value) + old(buffer[offset + 4..])
    ensures !ok ==> buffer[..] == old(buffer[..])
  {
    if value < 0 || value >= 0x1_0000_0000 {
      return false;
    }
    var bytes := LittleEndian(value);
    buffer[offset] := bytes[0];
    buffer[offset + 1] := bytes[1];
    buffer[offset + 2] := bytes[2];
    buffer[offset + 3] := bytes[3];
    return true;
  }

  lemma FourStores(buffer: Bytes, i: nat, a: Bytes, b: Bytes, c: Bytes, d: Bytes)
    requires i + 24 <= |buffer| && |a| == |b| == |c| == |d| == 4
    ensures var b1 := buffer[..i + 8] + a + buffer[i + 12..];
            var b2 := b1[..i + 12] + b + b1[i + 16..];
            var b3 := b2[..i + 16] + c + b2[i + 20..];
            b3[..i + 20] + d + b3[i + 24..] == buffer[..i + 8] + a + b + c + d + buffer[i + 24..]
  {
    var b1 := buffer[..i + 8] + a + buffer[i + 12..];
    var b2 := b1[..i + 12] + b + b1[i + 16..];
    assert b2 == buffer[..i + 8] + a + b + buffer[i + 16..];
    var b3 := b2[..i + 16] + c + b2[i + 20..];
    assert b3 == buffer[..i + 8] + a + b + c + buffer[i + 20..];
  }

  method PatchPeBinaryVersion(buffer: array<Byte>, newVersion: string) returns (outcome: Outcome)
    modifies buffer
    ensures outcome == PatchOutcome(old(buffer[..]), ParseAppVersion(newVersion))
    ensures buffer[..] == PatchedBytes(old(buffer[..]), ParseAppVersion(newVersion))
  {
    var appVer := ParseAppVersion(newVersion);
    var idx := FindFrom(buffer[..], 0);
    if idx.None? || idx.value + 24 > buffer.Length {
      return NoStamp;
    }
    var i := idx.value;
    ghost var before := buffer[..];
    var ms := ToInt32(Halves(appVer.major, appVer.minor));
    var ls := ToInt32(Halves(appVer.patch, appVer.build));
    var ok := WriteUInt32LE(buffer, ms, i + 8);
    if !ok {
      return RangeError;
    }
    ok := WriteUInt32LE(buffer, ls, i + 12);
    if !ok {
      return RangeError;
    }
    ok := WriteUInt32LE(buffer, ms, i + 16);
    ok := WriteUInt32LE(buffer, ls, i + 20);
    FourStores(before, i, LittleEndian(ms), LittleEndian(ls), LittleEndian(ms), LittleEndian(ls));
    return Patched;
  }

  // ---------------------------------------------------------------- patch, then extract

  /** The version numbers a stamp can hold so that it prints them back. */
  predicate InRange(v: Version) {
    v.major < 0x8000 && v.minor < 0x1_0000 && v.patch < 0x8000 && v.build < 0x1_0000
  }

  /** The numbers a stamp keeps: the low sixteen bits of each. */
  function Masked(v: Version): Version {
    Version(v.major % 0x1_0000, v.minor % 0x1_0000, v.patch % 0x1_0000, v.build % 0x1_0000)
  }

  function BuildText(v: Version): string {
    VersionText(v) + if v.build != 0 then "." + Decimal(v.build) else ""
  }

  lemma HalvesApart(high: nat, low: nat)
    requires Halves(high, low) < 0x8000_0000
    ensures HighHalf(Halves(high, low)) == high % 0x1_0000 && LowHalf(Halves(high, low)) == low % 0x1_0000
  {
  }

  lemma HalvesSign(high: nat, low: nat)
    ensures Halves(high, low) >= 0x8000_0000 <==> high % 0x1_0000 >= 0x8000
  {
  }

  lemma StampTextOfHalves(v: Version)
    requires Halves(v.major, v.minor) < 0x8000_0000 && Halves(v.patch, v.build) < 0x8000_0000
    ensures StampText(Halves(v.major, v.minor), Halves(v.patch, v.build)) == BuildText(Masked(v))
  {
    HalvesApart(v.major, v.minor);
    HalvesApart(v.patch, v.build);
  }

  lemma StampedParts(buffer: Bytes, i: nat, ms: Word, ls: Word)
    requires i + 24 <= |buffer|
    ensures var r := Stamped(buffer, i, ms, ls);
            && r[..i + 8] == buffer[..i + 8] && r[i + 24..] == buffer[i + 24..]
            && StampWords(r, i) == Words(ms, ls, ms, ls)
  {
    var r := Stamped(buffer, i, ms, ls);
    LittleEndianRoundTrip(ms);
    LittleEndianRoundTrip(ls);
    assert r[i + 8..i + 12] == LittleEndian(ms);
    assert r[i + 12..i + 16] == LittleEndian(ls);
    assert r[i + 16..i + 20] == LittleEndian(ms);
    assert r[i + 20..i + 24] == LittleEndian(ls);
  }

  lemma {:induction false} FirstSignatureIs(buffer: Bytes, from: nat, i: nat)
    requires from <= i && SignatureAt(buffer, i) && forall j :: from <= j < i ==> !SignatureAt(buffer, j)
    ensures FindFrom(buffer, from) == Some(i)
    decreases i - from
  {
    if from < i {
      FirstSignatureIs(buffer, from + 1, i);
    }
  }

  /** Bytes that change only behind the first signature leave it the first signature. */
  lemma SignatureStays(buffer: Bytes, changed: Bytes)
    requires |changed| == |buffer| && FindStamp(buffer).Some?
    requires changed[..FindStamp(buffer).value + 8] == buffer[..FindStamp(buffer).value + 8]
    ensures FindStamp(changed) == FindStamp(buffer)
  {
    var i := FindStamp(buffer).value;
    assert SignatureAt(buffer, i);
    forall j: nat | j <= i
      ensures SignatureAt(changed, j) == SignatureAt(buffer, j)
    {
      assert changed[j..j + 4] == changed[..i + 8][j..j + 4];
      assert buffer[j..j + 4] == buffer[..i + 8][j..j + 4];
    }
    FirstSignatureIs(changed, 0, i);
  }

  /**
   Patching finds the same place again afterwards, whatever its outcome, and changes no byte
   but the sixteen of the stamp.
   */
  lemma PatchIsLocal(buffer: Bytes, v: Version)
    requires FindStamp(buffer).Some?
    ensures var i, r := FindStamp(buffer).value, PatchedBytes(buffer, v);
            && |r| == |buffer| && FindStamp(r) == Some(i)
            && r[..i + 8] == buffer[..i + 8] && r[i + 24..] == buffer[i + 24..]
  {
    SignatureStays(buffer, PatchedBytes(buffer, v));
  }

  /** After a patch that succeeds both version texts are those of the low sixteen bits. */
  lemma PatchThenExtract(buffer: Bytes, v: Version)
    requires PatchOutcome(buffer, v) == Patched
    ensures ExtractPeVersion(PatchedBytes(buffer, v)) == Some(Found(BuildText(Masked(v)), BuildText(Masked(v))))
  {
    PatchIsLocal(buffer, v);
    StampedParts(buffer, FindStamp(buffer).value, Halves(v.major, v.minor), Halves(v.patch, v.build));
    StampTextOfHalves(v);
  }

  /** Within range patching succeeds wherever there is a stamp, and reads back as the version itself. */
  lemma PatchRoundTrip(buffer: Bytes, v: Version)
    requires FindStamp(buffer).Some? && InRange(v)
    ensures PatchOutcome(buffer, v) == Patched
    ensures ExtractPeVersion(PatchedBytes(buffer, v)) == Some(Found(BuildText(v), BuildText(v)))
  {
    HalvesSign(v.major, v.minor);
    HalvesSign(v.patch, v.build);
    assert Masked(v) == v;
    PatchThenExtract(buffer, v);
  }

  // ---------------------------------------------------------------- the integrity check

  /** The text begins with the version, or is the full quadruple. */
  predicate Accepts(text: string, v: Version) {
    StartsWith(text, VersionText(v)) || text == Quad(v)
  }

  /** The check of a built binary's version text. */
  predicate Passes(buffer: Bytes, v: Version) {
    match ExtractPeVersion(buffer)
    case None => false
    case Some(found) =>
      var text := if found.productVersion != "" then found.productVersion else found.fileVersion;
      Accepts(text, v)
  }

  /** The file after the check: it is patched only when it fails, and written back only when patching succeeds. */
  function Repaired(buffer: Bytes, v: Version): Bytes {
    var w := ParseAppVersion(VersionText(v));
    if !Passes(buffer, v) && PatchOutcome(buffer, w) == Patched then PatchedBytes(buffer, w) else buffer
  }

  lemma {:induction false} FirstPartsAgree(p: string, q: string, s: string, t: string)
    requires '.' !in p && '.' !in q && p + "." + s <= q + "." + t
    ensures p == q && s <= t
  {
    var l, r := p + "." + s, q + "." + t;
    assert p != "" ==> l[0] == p[0];
    assert q != "" ==> r[0] == q[0];
    assert l[0] == r[0];
    if p == "" {
      assert l[1..] == s && r[1..] == t;
    } else {
      assert l[1..] == p[1..] + "." + s && r[1..] == q[1..] + "." + t;
      FirstPartsAgree(p[1..], q[1..], s, t);
    }
  }

  lemma {:induction false} EqualNumerals(a: nat, b: nat)
    requires Decimal(a) == Decimal(b)
    ensures a == b
  {
    ValueOfDecimal(a);
    ValueOfDecimal(b);
  }

  /** A version text begins with another's only if all but the last number agree, and that one is not smaller. */
  lemma TextBeginsWith(v: Version, w: Version)
    requires StartsWith(VersionText(w), VersionText(v))
    ensures w.major == v.major && w.minor == v.minor && v.patch <= w.patch
  {
    var a, b, c := Decimal(v.major), Decimal(v.minor), Decimal(v.patch);
    var x, y, z := Decimal(w.major), Decimal(w.minor), Decimal(w.patch);
    DigitsHaveNoDot(a);
    DigitsHaveNoDot(b);
    DigitsHaveNoDot(x);
    DigitsHaveNoDot(y);
    assert Dots(a, b, c) == a + "." + (b + "." + c) && Dots(x, y, z) == x + "." + (y + "." + z);
    FirstPartsAgree(a, x, b + "." + c, y + "." + z);
    FirstPartsAgree(b, y, c, z);
    EqualNumerals(v.major, w.major);
    EqualNumerals(v.minor, w.minor);
    PrefixIsSmaller(v.patch, w.patch);
  }

  lemma AcceptsByPrefix(text: string, v: Version)
    ensures Accepts(text, v) <==> StartsWith(text, VersionText(v))
  {
    assert StartsWith(Quad(v), VersionText(v));
  }

  lemma MaskedInRange(v: Version)
    requires v.build == 0 && v.major % 0x1_0000 < 0x8000 && v.patch % 0x1_0000 < 0x8000
    ensures InRange(v) <==> Masked(v) == v
    ensures InRange(v) <==> Masked(v).major == v.major && Masked(v).minor == v.minor && v.patch <= Masked(v).patch
  {
  }

  lemma MaskedAccepted(v: Version)
    requires v.build == 0 && v.major % 0x1_0000 < 0x8000 && v.patch % 0x1_0000 < 0x8000
    ensures Accepts(VersionText(Masked(v)), v) <==> InRange(v)
  {
    MaskedInRange(v);
    AcceptsByPrefix(VersionText(Masked(v)), v);
    if StartsWith(VersionText(Masked(v)), VersionText(v)) {
      TextBeginsWith(v, Masked(v));
    }
  }

  /** A patched binary passes the check exactly when the version fits the stamp. */
  lemma PatchedPasses(buffer: Bytes, v: Version)
    requires v.build == 0 && PatchOutcome(buffer, v) == Patched
    ensures Passes(PatchedBytes(buffer, v), v) <==> InRange(v)
  {
    HalvesSign(v.major, v.minor);
    HalvesSign(v.patch, v.build);
    PatchThenExtract(buffer, v);
    MaskedAccepted(v);
    assert BuildText(Masked(v)) == VersionText(Masked(v));
  }

  /** With or without its build number, a version is checked the same up to that number. */
  lemma PassesWithoutBuild(buffer: Bytes, v: Version)
    ensures Passes(buffer, v) <==> Passes(buffer, v.(build := 0))
  {
    var found := ExtractPeVersion(buffer);
    if found.Some? {
      var text := if found.value.productVersion != "" then found.value.productVersion else found.value.fileVersion;
      AcceptsByPrefix(text, v);
      AcceptsByPrefix(text, v.(build := 0));
    }
  }

  /**
   After the check's repair a binary passes if and only if it passed before or has a stamp and a
   version that fits it.
   */
  lemma RepairSucceeds(buffer: Bytes, v: Version)
    ensures Passes(Repaired(buffer, v), v)
       <==> Passes(buffer, v) || (FindStamp(buffer).Some? && InRange(v.(build := 0)))
  {
    var w := v.(build := 0);
    VersionRoundTrip(v);
    if !Passes(buffer, v) {
      if PatchOutcome(buffer, w) == Patched {
        PatchedPasses(buffer, w);
        PassesWithoutBuild(PatchedBytes(buffer, w), v);
      } else if FindStamp(buffer).Some? && InRange(w) {
        PatchRoundTrip(buffer, w);
      }
    }
  }
}
