/**
 The archive writer of the application packager (src/appPackager.ts, createTarGz before
 compression) and a strict reader for the layout that the pax utility of IEEE Std 1003.1 calls
 the ustar Interchange Format.
 */
module Ustar {
  import opened Wrappers
  import opened Bytes
  import opened Fields
  import opened Sequences
  import opened Streams

  /** The UTF-8 form of one character. */
  type Utf8Char = b: Bytes | 1 <= |b| <= 4 witness [0]

  /** A file to pack; mtime is what the clock shows when its header is written. */
  datatype File = File(name: seq<Utf8Char>, mode: Option<nat>, content: Bytes, mtime: nat)

  /** A file as a reader sees it. */
  datatype Entry = Entry(name: Bytes, mode: nat, mtime: nat, content: Bytes)

  // ---------------------------------------------------------------- numbers

  const NUL: Byte := 0
  const SPACE: Byte := 32
  const ZERO: Byte := 48

  predicate IsDigit(b: Byte) {
    ZERO <= b < ZERO + 8
  }

  predicate AreDigits(s: Bytes) {
    forall i :: 0 <= i < |s| ==> IsDigit(s[i])
  }

  /** What toString(8) yields. */
  function Octal(n: nat): (digits: Bytes)
    ensures digits != []
    ensures AreDigits(digits)
  {
    (if n < 8 then [] else Octal(n / 8)) + [ZERO + n % 8]
  }

  function Repeat(b: Byte, n: nat): (r: Bytes)
    ensures |r| == n && forall i :: 0 <= i < n ==> r[i] == b
  {
    seq(n, _ => b)
  }

  function PadStart(digits: Bytes, width: nat): Bytes {
    if |digits| < width then Repeat(ZERO, width - |digits|) + digits else digits
  }

  /** As much of a text as fits a field. */
  function Clip(text: Bytes, width: nat): (r: Bytes)
    ensures |r| <= width
  {
    if |text| <= width then text else text[..width]
  }

  /** A number field: the padded digits and a NUL, cut off at the width. */
  function NumberField(n: nat, width: nat): (r: Bytes)
    requires width >= 2
    ensures |r| == width
  {
    Clip(PadStart(Octal(n), width - 1) + [NUL], width)
  }

  /** Octal digits, then one or more terminators up to the end of the field. */
  function ReadNumber(field: Bytes, value: nat): Option<nat>
    decreases |field|
  {
    if field == [] then None
    else if IsDigit(field[0]) then ReadNumber(field[1..], 8 * value + (field[0] - ZERO))
    else if forall b :: b in field ==> b == NUL || b == SPACE then Some(value)
    else None
  }

  function Fold(digits: Bytes, value: nat): nat
    requires AreDigits(digits)
  {
    if digits == [] then value else Fold(digits[1..], 8 * value + (digits[0] - ZERO))
  }

  lemma {:induction false} ReadDigits(digits: Bytes, value: nat, rest: Bytes)
    requires AreDigits(digits)
    ensures ReadNumber(digits + rest, value) == ReadNumber(rest, Fold(digits, value))
    decreases |digits|
  {
    if digits == [] {
      assert digits + rest == rest;
    } else {
      assert (digits + rest)[1..] == digits[1..] + rest;
      ReadDigits(digits[1..], 8 * value + (digits[0] - ZERO), rest);
    }
  }

  lemma {:induction false} FoldConcat(a: Bytes, b: Bytes, value: nat)
    requires AreDigits(a) && AreDigits(b)
    ensures Fold(a + b, value) == Fold(b, Fold(a, value))
    decreases |a|
  {
    if a == [] {
      assert a + b == b;
    } else {
      assert (a + b)[1..] == a[1..] + b;
      FoldConcat(a[1..], b, 8 * value + (a[0] - ZERO));
    }
  }

  lemma {:induction false} FoldZeros(n: nat)
    ensures Fold(Repeat(ZERO, n), 0) == 0
  {
    if n > 0 {
      assert Repeat(ZERO, n)[1..] == Repeat(ZERO, n - 1);
      FoldZeros(n - 1);
    }
  }

  lemma {:induction false} FoldOctal(n: nat)
    ensures Fold(Octal(n), 0) == n
  {
    if n >= 8 {
      FoldOctal(n / 8);
      FoldConcat(Octal(n / 8), [ZERO + n % 8], 0);
    }
  }

  function Pow8(k: nat): nat {
    if k == 0 then 1 else 8 * Pow8(k - 1)
  }

  lemma {:induction false} OctalLength(n: nat, k: nat)
    requires k >= 1
    ensures |Octal(n)| <= k <==> n < Pow8(k)
  {
    if n >= 8 && k > 1 {
      OctalLength(n / 8, k - 1);
    } else if k > 1 {
      OctalLength(n, k - 1);
    }
  }

  /** A number field reads back as its number exactly when the number leaves room for the terminator. */
  lemma NumberReadsBack(n: nat, width: nat)
    requires width >= 2
    ensures ReadNumber(NumberField(n, width), 0) == if n < Pow8(width - 1) then Some(n) else None
  {
    var digits := PadStart(Octal(n), width - 1);
    OctalLength(n, width - 1);
    if n < Pow8(width - 1) {
      var zeros := Repeat(ZERO, width - 1 - |Octal(n)|);
      assert digits == zeros + Octal(n);
      ReadDigits(digits, 0, [NUL]);
      FoldConcat(zeros, Octal(n), 0);
      FoldZeros(|zeros|);
      FoldOctal(n);
    } else {
      var kept := digits[..width];
      assert NumberField(n, width) == kept + [];
      ReadDigits(kept, 0, []);
    }
  }

  // ---------------------------------------------------------------- names

  function Encoded(name: seq<Utf8Char>): Bytes {
    if name == [] then [] else name[0] + Encoded(name[1..])
  }

  /** The characters of a name that fit whole into the room there is. */
  function Fitting(name: seq<Utf8Char>, room: nat): (r: Bytes)
    ensures |r| <= room
  {
    if name == [] || |name[0]| > room then [] else name[0] + Fitting(name[1..], room - |name[0]|)
  }

  lemma {:induction false} FittingWhole(name: seq<Utf8Char>, room: nat)
    ensures |Encoded(name)| <= room ==> Fitting(name, room) == Encoded(name)
  {
    if name != [] && |name[0]| <= room {
      FittingWhole(name[1..], room - |name[0]|);
    }
  }

  function NameField(name: seq<Utf8Char>): (r: Bytes)
    ensures |r| == 100
  {
    var text := Fitting(name, 100);
    text + Repeat(NUL, 100 - |text|)
  }

  function UpToNul(field: Bytes): (r: Bytes)
    ensures |r| <= |field| && NUL !in r
  {
    if field == [] || field[0] == NUL then [] else [field[0]] + UpToNul(field[1..])
  }

  lemma {:induction false} UpToNulOfPadded(text: Bytes, n: nat)
    requires NUL !in text
    ensures UpToNul(text + Repeat(NUL, n)) == text
  {
    var padded := text + Repeat(NUL, n);
    if text != [] {
      assert padded[0] == text[0] && text[0] in text;
      assert padded[1..] == text[1..] + Repeat(NUL, n);
      UpToNulOfPadded(text[1..], n);
    }
  }

  /** A name survives exactly when it has at most 100 bytes, none of them NUL. */
  lemma NameReadsBack(name: seq<Utf8Char>)
    ensures UpToNul(NameField(name)) == Encoded(name) <==> |Encoded(name)| <= 100 && NUL !in Encoded(name)
  {
    if |Encoded(name)| <= 100 && NUL !in Encoded(name) {
      FittingWhole(name, 100);
      UpToNulOfPadded(Encoded(name), 100 - |Encoded(name)|);
    }
  }

  // ---------------------------------------------------------------- the header block

  const WIDTHS: seq<nat> := [100, 8, 8, 8, 12, 12, 8, 1, 100, 6, 2, 247]

  const BLOCK := 512

  const MAGIC: Bytes := [117, 115, 116, 97, 114, 0]   // "ustar" and a NUL
  const VERSION: Bytes := [ZERO, ZERO]
  const REGULAR: Bytes := [ZERO]

  function Owner(): (r: Bytes)
    ensures |r| == 8
  {
    Repeat(ZERO, 7) + [NUL]
  }

  function Sum(bytes: Bytes): nat {
    if bytes == [] then 0 else bytes[0] + Sum(bytes[1..])
  }

  function ChecksumField(sum: nat): (r: Bytes)
    ensures |r| == 8
  {
    Clip(PadStart(Octal(sum), 6) + [NUL, SPACE], 8)
  }

  function Mode(f: File): nat {
    if f.mode.Some? then f.mode.value else 420
  }

  /** The fields of a header: name, mode, uid, gid, size, mtime, checksum, type, link name, magic, version, the rest. */
  function HeaderFields(f: File, checksum: Bytes): (fields: seq<Bytes>)
    requires |checksum| == 8
    ensures Fit(fields, WIDTHS)
  {
    [NameField(f.name), NumberField(Mode(f), 8), Owner(), Owner(), NumberField(|f.content|, 12), NumberField(f.mtime, 12),
     checksum, REGULAR, Repeat(NUL, 100), MAGIC, VERSION, Repeat(NUL, 247)]
  }

  /** The sum of the header's bytes with its checksum field blank. */
  function HeaderSum(f: File): nat {
    Sum(Flatten(HeaderFields(f, Repeat(SPACE, 8))))
  }

  function HeaderBlock(f: File): Bytes {
    Flatten(HeaderFields(f, ChecksumField(HeaderSum(f))))
  }

  lemma TotalIsBlock()
    ensures Total(WIDTHS) == BLOCK
  {
    assert Total([247]) == 247;
    assert Total([2, 247]) == 249;
    assert Total([6, 2, 247]) == 255;
    assert Total([100, 6, 2, 247]) == 355;
    assert Total([1, 100, 6, 2, 247]) == 356;
    assert Total([8, 1, 100, 6, 2, 247]) == 364;
    assert Total([12, 8, 1, 100, 6, 2, 247]) == 376;
    assert Total([12, 12, 8, 1, 100, 6, 2, 247]) == 388;
    assert Total([8, 12, 12, 8, 1, 100, 6, 2, 247]) == 396;
    assert Total([8, 8, 12, 12, 8, 1, 100, 6, 2, 247]) == 404;
    assert Total([8, 8, 8, 12, 12, 8, 1, 100, 6, 2, 247]) == 412;
  }

  lemma {:induction false} SumBound(bytes: Bytes)
    ensures Sum(bytes) <= 255 * |bytes|
  {
    if bytes != [] {
      SumBound(bytes[1..]);
    }
  }

  /** The checksum of every header fits the six digits it is given. */
  lemma ChecksumFits(f: File)
    ensures HeaderSum(f) < Pow8(6)
  {
    TotalIsBlock();
    FlattenLength(HeaderFields(f, Repeat(SPACE, 8)), WIDTHS);
    SumBound(Flatten(HeaderFields(f, Repeat(SPACE, 8))));
    assert Pow8(3) == 512;
    assert Pow8(6) == 512 * 512;
  }

  lemma ChecksumReadsBack(sum: nat)
    requires sum < Pow8(6)
    ensures ReadNumber(ChecksumField(sum), 0) == Some(sum)
  {
    OctalLength(sum, 6);
    var zeros := Repeat(ZERO, 6 - |Octal(sum)|);
    var digits := zeros + Octal(sum);
    assert PadStart(Octal(sum), 6) == digits;
    assert ChecksumField(sum) == digits + [NUL, SPACE];
    ReadDigits(digits, 0, [NUL, SPACE]);
    FoldConcat(zeros, Octal(sum), 0);
    FoldZeros(|zeros|);
    FoldOctal(sum);
  }

  // ---------------------------------------------------------------- the archive

  function Padding(size: nat): nat {
    (BLOCK - size % BLOCK) % BLOCK
  }

  function Pack(f: File): Bytes {
    HeaderBlock(f) + f.content + Repeat(NUL, Padding(|f.content|))
  }

  /** Two zero blocks close an archive. */
  function End(): Bytes {
    Repeat(NUL, 2 * BLOCK)
  }

  function Archive(files: seq<File>): Bytes {
    WriteStream(Pack, End(), files)
  }

  // ---------------------------------------------------------------- a strict reader

  datatype Header = Header(name: Bytes, mode: nat, size: nat, mtime: nat)

  predicate Marked(fields: seq<Bytes>)
    requires |fields| == 12
  {
    fields[7] == REGULAR && fields[9] == MAGIC && fields[10] == VERSION
  }

  /** The header's fields, if its magic, version and type are right and its checksum is that of its bytes. */
  function CheckHeader(block: Bytes): (r: Option<seq<Bytes>>)
    requires |block| == BLOCK
    ensures r.Some? ==> |r.value| == 12
  {
    TotalIsBlock();
    var fields := Cut(block, WIDTHS);
    if Marked(fields) && ReadNumber(fields[6], 0) == Some(Sum(Flatten(fields[6 := Repeat(SPACE, 8)]))) then Some(fields)
    else None
  }

  function ReadFields(fields: seq<Bytes>): Option<Header>
    requires |fields| == 12
  {
    var mode := ReadNumber(fields[1], 0);
    var size := ReadNumber(fields[4], 0);
    var mtime := ReadNumber(fields[5], 0);
    if mode.Some? && size.Some? && mtime.Some? then Some(Header(UpToNul(fields[0]), mode.value, size.value, mtime.value))
    else None
  }

  function ReadHeader(block: Bytes): Option<Header>
    requires |block| == BLOCK
  {
    match CheckHeader(block)
    case None => None
    case Some(fields) => ReadFields(fields)
  }

  /** The file whose header block, read as h, begins the stream, and what follows it. */
  function CutEntry(h: Option<Header>, stream: Bytes): (r: Option<(Entry, Bytes)>)
    requires BLOCK <= |stream|
    ensures r.Some? ==> |r.value.1| < |stream|
  {
    match h
    case None => None
    case Some(Header(name, mode, size, mtime)) =>
      var end := BLOCK + size + Padding(size);
      if |stream| < end then None
      else Some((Entry(name, mode, mtime, stream[BLOCK..BLOCK + size]), stream[end..]))
  }

  /** Reads one file off the front of an archive. */
  function ReadEntry(stream: Bytes): (r: Option<(Entry, Bytes)>)
    ensures r.Some? ==> |r.value.1| < |stream|
  {
    if |stream| < BLOCK then None else CutEntry(ReadHeader(stream[..BLOCK]), stream)
  }

  function ReadArchive(stream: Bytes): Option<seq<Entry>> {
    ReadStream(ReadEntry, End(), stream)
  }

  // ---------------------------------------------------------------- round trip

  function EntryOf(f: File): Entry {
    Entry(Encoded(f.name), Mode(f), f.mtime, f.content)
  }

  /** What the header has room for. */
  predicate Representable(f: File) {
    && |Encoded(f.name)| <= 100 && NUL !in Encoded(f.name)
    && Mode(f) < Pow8(7) && |f.content| < Pow8(11) && f.mtime < Pow8(11)
  }

  lemma Offsets()
    ensures Offset(WIDTHS, 1) == 100 && Offset(WIDTHS, 2) == 108 && Offset(WIDTHS, 3) == 116 && Offset(WIDTHS, 4) == 124
    ensures Offset(WIDTHS, 5) == 136 && Offset(WIDTHS, 6) == 148 && Offset(WIDTHS, 7) == 156
    ensures Offset(WIDTHS, 8) == 157 && Offset(WIDTHS, 9) == 257 && Offset(WIDTHS, 10) == 263
  {
    var w := WIDTHS;
    assert Offset(w, 1) == 100;
    assert Offset(w, 2) == 108;
    assert Offset(w, 3) == 116;
    assert Offset(w, 4) == 124;
    assert Offset(w, 5) == 136;
    assert Offset(w, 6) == 148;
    assert Offset(w, 7) == 156;
    assert Offset(w, 8) == 157;
    assert Offset(w, 9) == 257;
  }

  lemma CheckOfFields(fields: seq<Bytes>)
    requires |fields| == 12 && Fit(fields, WIDTHS) && Marked(fields)
    requires ReadNumber(fields[6], 0) == Some(Sum(Flatten(fields[6 := Repeat(SPACE, 8)])))
    ensures |Flatten(fields)| == BLOCK && CheckHeader(Flatten(fields)) == Some(fields)
  {
    TotalIsBlock();
    CutOfFlatten(fields, WIDTHS);
  }

  lemma FieldsOfHeader(f: File, checksum: Bytes, other: Bytes)
    requires |checksum| == 8 && |other| == 8
    ensures var fields := HeaderFields(f, checksum);
            && |fields| == 12 && Marked(fields) && fields[6 := other] == HeaderFields(f, other)
            && fields[0] == NameField(f.name) && fields[1] == NumberField(Mode(f), 8) && fields[6] == checksum
            && fields[4] == NumberField(|f.content|, 12) && fields[5] == NumberField(f.mtime, 12)
  {
  }

  lemma HeaderChecks(f: File)
    ensures |HeaderBlock(f)| == BLOCK
    ensures CheckHeader(HeaderBlock(f)) == Some(HeaderFields(f, ChecksumField(HeaderSum(f))))
  {
    var checksum := ChecksumField(HeaderSum(f));
    ChecksumFits(f);
    ChecksumReadsBack(HeaderSum(f));
    FieldsOfHeader(f, checksum, Repeat(SPACE, 8));
    CheckOfFields(HeaderFields(f, checksum));
  }

  lemma FieldsReadBack(f: File, checksum: Bytes)
    requires |checksum| == 8
    ensures ReadFields(HeaderFields(f, checksum))
         == if Mode(f) < Pow8(7) && |f.content| < Pow8(11) && f.mtime < Pow8(11)
            then Some(Header(UpToNul(NameField(f.name)), Mode(f), |f.content|, f.mtime)) else None
  {
    FieldsOfHeader(f, checksum, checksum);
    NumberReadsBack(Mode(f), 8);
    NumberReadsBack(|f.content|, 12);
    NumberReadsBack(f.mtime, 12);
  }

  lemma EntryOfParts(h: Header, block: Bytes, content: Bytes, rest: Bytes)
    requires |block| == BLOCK && h.size == |content|
    ensures CutEntry(Some(h), block + content + Repeat(NUL, Padding(|content|)) + rest)
         == Some((Entry(h.name, h.mode, h.mtime, content), rest))
  {
    var padding := Repeat(NUL, Padding(|content|));
    var stream := block + content + padding + rest;
    assert stream[BLOCK..BLOCK + |content|] == content;
    assert stream[BLOCK + |content| + |padding|..] == rest;
  }

  lemma HeadOfStream(block: Bytes, content: Bytes, padding: Bytes, rest: Bytes)
    requires |block| == BLOCK
    ensures (block + content + padding + rest)[..BLOCK] == block
  {
  }

  lemma HeaderReadsBack(f: File)
    ensures |HeaderBlock(f)| == BLOCK
    ensures ReadHeader(HeaderBlock(f))
         == if Mode(f) < Pow8(7) && |f.content| < Pow8(11) && f.mtime < Pow8(11)
            then Some(Header(UpToNul(NameField(f.name)), Mode(f), |f.content|, f.mtime)) else None
  {
    HeaderChecks(f);
    FieldsReadBack(f, ChecksumField(HeaderSum(f)));
  }

  lemma EntryBehindHeader(f: File, h: Option<Header>, block: Bytes, rest: Bytes)
    requires |block| == BLOCK
    requires h == if Mode(f) < Pow8(7) && |f.content| < Pow8(11) && f.mtime < Pow8(11)
                  then Some(Header(UpToNul(NameField(f.name)), Mode(f), |f.content|, f.mtime)) else None
    ensures var r := CutEntry(h, block + f.content + Repeat(NUL, Padding(|f.content|)) + rest);
            && (Representable(f) ==> r == Some((EntryOf(f), rest)))
            && (!Representable(f) ==> r.None? || r.value.0 != EntryOf(f))
  {
    NameReadsBack(f.name);
    if h.Some? {
      EntryOfParts(h.value, block, f.content, rest);
    }
  }

  /** A packed file comes back as itself exactly when its header has room for it. */
  lemma EntryReadsBack(f: File, rest: Bytes)
    ensures var r := ReadEntry(Pack(f) + rest);
            && (Representable(f) ==> r == Some((EntryOf(f), rest)))
            && (!Representable(f) ==> r.None? || r.value.0 != EntryOf(f))
  {
    HeaderReadsBack(f);
    HeadOfStream(HeaderBlock(f), f.content, Repeat(NUL, Padding(|f.content|)), rest);
    EntryBehindHeader(f, ReadHeader(HeaderBlock(f)), HeaderBlock(f), rest);
  }

  lemma TypeByteAt(fields: seq<Bytes>, widths: seq<nat>)
    requires |fields| == 12 && Fit(fields, widths) && fields[7] == REGULAR
    requires Total(widths) == BLOCK && Offset(widths, 7) == 156
    ensures |Flatten(fields)| == BLOCK && Flatten(fields)[156] == ZERO
  {
    FlattenLength(fields, widths);
    FieldAt(fields, widths, 7);
    assert Flatten(fields)[156..157][0] == ZERO;
  }

  lemma TypeByte(fields: seq<Bytes>)
    requires |fields| == 12 && Fit(fields, WIDTHS) && fields[7] == REGULAR
    ensures |Flatten(fields)| == BLOCK && Flatten(fields)[156] == ZERO
  {
    TotalIsBlock();
    Offsets();
    TypeByteAt(fields, WIDTHS);
  }

  lemma NoEnd(block: Bytes, more: Bytes)
    requires |block| == BLOCK && block[156] != NUL
    ensures block + more != End()
  {
    assert (block + more)[156] == block[156] && End()[156] == NUL;
  }

  lemma PackIsNoEnd(f: File, rest: Bytes)
    ensures Pack(f) + rest != End()
  {
    var checksum := ChecksumField(HeaderSum(f));
    FieldsOfHeader(f, checksum, checksum);
    TypeByte(HeaderFields(f, checksum));
    var content, padding := f.content, Repeat(NUL, Padding(|f.content|));
    NoEnd(HeaderBlock(f), content + padding + rest);
    assert HeaderBlock(f) + (content + padding + rest) == HeaderBlock(f) + content + padding + rest;
  }

  /** An archive reads back as its files, in order, if and only if every header has room for its file. */
  lemma ArchiveRoundTrip(files: seq<File>)
    ensures ReadArchive(Archive(files)) == Some(Images(EntryOf, files)) <==> AllGood(Representable, files)
  {
    forall i | 0 <= i < |files|
      ensures Records(Pack, ReadEntry, EntryOf, Representable, End(), files[i])
    {
      forall rest
        ensures && Pack(files[i]) + rest != End()
                && (Representable(files[i]) ==> ReadEntry(Pack(files[i]) + rest) == Some((EntryOf(files[i]), rest)))
                && (!Representable(files[i]) ==>
                      ReadEntry(Pack(files[i]) + rest).None? || ReadEntry(Pack(files[i]) + rest).value.0 != EntryOf(files[i]))
      {
        PackIsNoEnd(files[i], rest);
        EntryReadsBack(files[i], rest);
      }
    }
    StreamReadsBack(Pack, ReadEntry, EntryOf, Representable, End(), files);
  }

  // ---------------------------------------------------------------- damage

  lemma {:induction false} SumOfUpdate(bytes: Bytes, i: nat, b: Byte)
    requires i < |bytes|
    ensures Sum(bytes[i := b]) == Sum(bytes) - bytes[i] + b
  {
    if i == 0 {
      assert bytes[i := b][1..] == bytes[1..];
    } else {
      assert bytes[i := b][1..] == bytes[1..][i - 1 := b];
      SumOfUpdate(bytes[1..], i - 1, b);
    }
  }

  function Blanked(block: Bytes): Bytes
    requires |block| == BLOCK
  {
    block[..148] + Repeat(SPACE, 8) + block[156..]
  }

  lemma BlankedFields(fields: seq<Bytes>, widths: seq<nat>)
    requires |fields| == 12 && Fit(fields, widths)
    requires Total(widths) == BLOCK && Offset(widths, 6) == 148 && widths[6] == 8
    ensures |Flatten(fields)| == BLOCK && Flatten(fields)[148..156] == fields[6]
    ensures Flatten(fields[6 := Repeat(SPACE, 8)]) == Blanked(Flatten(fields))
  {
    FlattenLength(fields, widths);
    FieldAt(fields, widths, 6);
    FieldPlace(fields, widths, 6, Repeat(SPACE, 8));
  }

  predicate SumMatches(block: Bytes)
    requires |block| == BLOCK
  {
    ReadNumber(block[148..156], 0) == Some(Sum(Blanked(block)))
  }

  /** A block that passes the check carries the sum of its own bytes. */
  lemma CheckMeansSum(block: Bytes)
    requires |block| == BLOCK
    ensures CheckHeader(block).Some? ==> SumMatches(block)
  {
    TotalIsBlock();
    Offsets();
    FlattenOfCut(block, WIDTHS);
    BlankedFields(Cut(block, WIDTHS), WIDTHS);
  }

  lemma DamageChangesSum(block: Bytes, i: nat, b: Byte)
    requires |block| == BLOCK && SumMatches(block)
    requires i < BLOCK && !(148 <= i < 156) && b != block[i]
    ensures !SumMatches(block[i := b])
  {
    var damaged := block[i := b];
    assert damaged[148..156] == block[148..156];
    assert Blanked(damaged) == Blanked(block)[i := b];
    SumOfUpdate(Blanked(block), i, b);
  }

  /** An accepted header in which any one byte outside the checksum field was changed is refused. */
  lemma DamagedHeaderRefused(block: Bytes, i: nat, b: Byte)
    requires |block| == BLOCK && ReadHeader(block).Some?
    requires i < BLOCK && !(148 <= i < 156) && b != block[i]
    ensures ReadHeader(block[i := b]) == None
  {
    CheckMeansSum(block);
    DamageChangesSum(block, i, b);
    CheckMeansSum(block[i := b]);
  }

  // ---------------------------------------------------------------- the writer

  method WriteAt(buffer: array<Byte>, bytes: Bytes, offset: nat)
    requires offset + |bytes| <= buffer.Length
    modifies buffer
    ensures buffer[..] == old(buffer[..offset]) + bytes + old(buffer[offset + |bytes|..])
  {
    var i := 0;
    while i < |bytes|
      invariant 0 <= i <= |bytes|
      invariant forall k :: 0 <= k < buffer.Length ==>
                  buffer[k] == if offset <= k < offset + i then bytes[k - offset] else old(buffer[k])
    {
      buffer[offset + i] := bytes[i];
      i := i + 1;
    }
  }

  /** What the writer relies on about the widths of the fields. */
  ghost predicate Layout(widths: seq<nat>) {
    && |widths| == 12 && Total(widths) == BLOCK
    && widths[0] == 100 && widths[1] == 8 && widths[2] == 8 && widths[3] == 8 && widths[4] == 12 && widths[5] == 12
    && widths[6] == 8 && widths[7] == 1 && widths[9] == 6 && widths[10] == 2
    && Offset(widths, 0) == 0 && Offset(widths, 1) == 100 && Offset(widths, 2) == 108 && Offset(widths, 3) == 116
    && Offset(widths, 4) == 124 && Offset(widths, 5) == 136 && Offset(widths, 6) == 148 && Offset(widths, 7) == 156
    && Offset(widths, 9) == 257 && Offset(widths, 10) == 263
  }

  lemma LayoutOfHeader()
    ensures Layout(WIDTHS)
  {
    TotalIsBlock();
    Offsets();
  }

  method PutField(header: array<Byte>, ghost widths: seq<nat>, ghost fields: seq<Bytes>, ghost k: nat, bytes: Bytes, offset: nat)
    requires Fit(fields, widths) && header[..] == Flatten(fields)
    requires k < |fields| && |bytes| == widths[k] && offset == Offset(widths, k)
    modifies header
    ensures Fit(fields[k := bytes], widths) && header[..] == Flatten(fields[k := bytes])
  {
    FieldPlace(fields, widths, k, bytes);
    WriteAt(header, bytes, offset);
  }

  lemma PaddedInPlace(record: Bytes, text: Bytes)
    requires 100 <= |record| && record[0..100] == Repeat(NUL, 100) && |text| <= 100
    ensures text + record[|text|..] == (text + Repeat(NUL, 100 - |text|)) + record[100..]
  {
    assert forall i :: 0 <= i < 100 ==> record[i] == record[0..100][i];
  }

  /** The name goes in without its padding, into a field that is still zero. */
  method PutName(header: array<Byte>, ghost widths: seq<nat>, ghost fields: seq<Bytes>, name: seq<Utf8Char>)
    requires Layout(widths) && Fit(fields, widths) && fields[0] == Repeat(NUL, 100) && header[..] == Flatten(fields)
    modifies header
    ensures Fit(fields[0 := NameField(name)], widths) && header[..] == Flatten(fields[0 := NameField(name)])
  {
    ghost var record := header[..];
    var text := Fitting(name, 100);
    FieldPlace(fields, widths, 0, NameField(name));
    FieldAt(fields, widths, 0);
    WriteAt(header, text, 0);
    PaddedInPlace(record, text);
  }

  method PutNumbers(header: array<Byte>, ghost widths: seq<nat>, ghost fields: seq<Bytes>, mode: nat, size: nat, mtime: nat)
    requires Layout(widths) && Fit(fields, widths) && header[..] == Flatten(fields)
    modifies header
    ensures Fit([fields[0], NumberField(mode, 8), Owner(), Owner(), NumberField(size, 12), NumberField(mtime, 12)] + fields[6..], widths)
    ensures header[..] == Flatten([fields[0], NumberField(mode, 8), Owner(), Owner(), NumberField(size, 12), NumberField(mtime, 12)] + fields[6..])
  {
    PutField(header, widths, fields, 1, NumberField(mode, 8), 100);
    ghost var f1 := fields[1 := NumberField(mode, 8)];
    PutField(header, widths, f1, 2, Owner(), 108);
    ghost var f2 := f1[2 := Owner()];
    PutField(header, widths, f2, 3, Owner(), 116);
    ghost var f3 := f2[3 := Owner()];
    PutField(header, widths, f3, 4, NumberField(size, 12), 124);
    ghost var f4 := f3[4 := NumberField(size, 12)];
    PutField(header, widths, f4, 5, NumberField(mtime, 12), 136);
    ghost var f5 := f4[5 := NumberField(mtime, 12)];
    assert f5 == [fields[0], NumberField(mode, 8), Owner(), Owner(), NumberField(size, 12), NumberField(mtime, 12)] + fields[6..];
  }

  method PutMarks(header: array<Byte>, ghost widths: seq<nat>, ghost fields: seq<Bytes>)
    requires Layout(widths) && Fit(fields, widths) && header[..] == Flatten(fields)
    modifies header
    ensures Fit(fields[..6] + [Repeat(SPACE, 8), REGULAR, fields[8], MAGIC, VERSION, fields[11]], widths)
    ensures header[..] == Flatten(fields[..6] + [Repeat(SPACE, 8), REGULAR, fields[8], MAGIC, VERSION, fields[11]])
  {
    PutField(header, widths, fields, 6, Repeat(SPACE, 8), 148);
    ghost var f6 := fields[6 := Repeat(SPACE, 8)];
    PutField(header, widths, f6, 7, REGULAR, 156);
    ghost var f7 := f6[7 := REGULAR];
    PutField(header, widths, f7, 9, MAGIC, 257);
    ghost var f9 := f7[9 := MAGIC];
    PutField(header, widths, f9, 10, VERSION, 263);
    ghost var f10 := f9[10 := VERSION];
    assert f10 == fields[..6] + [Repeat(SPACE, 8), REGULAR, fields[8], MAGIC, VERSION, fields[11]];
  }

  method SumBytes(header: array<Byte>) returns (sum: nat)
    ensures sum == Sum(header[..])
  {
    sum := 0;
    var i := 0;
    while i < header.Length
      invariant 0 <= i <= header.Length
      invariant sum + Sum(header[i..]) == Sum(header[..])
    {
      assert header[i..][1..] == header[i + 1..];
      sum := sum + header[i];
      i := i + 1;
    }
  }

  lemma {:induction false} FlattenZeros(fields: seq<Bytes>, widths: seq<nat>)
    requires Fit(fields, widths) && forall i :: 0 <= i < |fields| ==> fields[i] == Repeat(NUL, widths[i])
    ensures Flatten(fields) == Repeat(NUL, Total(widths))
    decreases |fields|
  {
    if fields != [] {
      FlattenZeros(fields[1..], widths[1..]);
    }
  }

  /** The fields of a header after all writes but that of the checksum. */
  ghost function Filled(blank: seq<Bytes>, f: File): seq<Bytes>
    requires |blank| == 12
  {
    [NameField(f.name), NumberField(Mode(f), 8), Owner(), Owner(), NumberField(|f.content|, 12), NumberField(f.mtime, 12),
     Repeat(SPACE, 8), REGULAR, blank[8], MAGIC, VERSION, blank[11]]
  }

  method FillHeader(header: array<Byte>, ghost widths: seq<nat>, ghost blank: seq<Bytes>, f: File)
    requires Layout(widths) && Fit(blank, widths) && blank[0] == Repeat(NUL, 100) && header[..] == Flatten(blank)
    modifies header
    ensures Fit(Filled(blank, f), widths) && header[..] == Flatten(Filled(blank, f))
  {
    PutName(header, widths, blank, f.name);
    ghost var named := blank[0 := NameField(f.name)];
    PutNumbers(header, widths, named, Mode(f), |f.content|, f.mtime);
    ghost var numbers := [NameField(f.name), NumberField(Mode(f), 8), Owner(), Owner(), NumberField(|f.content|, 12), NumberField(f.mtime, 12)];
    ghost var numbered := numbers + named[6..];
    assert named[0] == NameField(f.name);
    PutMarks(header, widths, numbered);
    assert numbered[..6] == numbers && numbered[8] == blank[8] && numbered[11] == blank[11];
    assert Filled(blank, f) == numbers + [Repeat(SPACE, 8), REGULAR, blank[8], MAGIC, VERSION, blank[11]];
  }

  /** Puts the checksum over the blanked field once everything else is in place. */
  method Seal(header: array<Byte>, ghost widths: seq<nat>, ghost fields: seq<Bytes>)
    requires Layout(widths) && Fit(fields, widths) && header[..] == Flatten(fields)
    modifies header
    ensures header[..] == Flatten(fields[6 := ChecksumField(Sum(Flatten(fields)))])
  {
    var sum := SumBytes(header);
    PutField(header, widths, fields, 6, ChecksumField(sum), 148);
  }

  lemma FilledIsHeader(blank: seq<Bytes>, f: File)
    requires |blank| == 12 && blank[8] == Repeat(NUL, 100) && blank[11] == Repeat(NUL, 247)
    ensures Filled(blank, f) == HeaderFields(f, Repeat(SPACE, 8))
    ensures Flatten(HeaderFields(f, Repeat(SPACE, 8))[6 := ChecksumField(HeaderSum(f))]) == HeaderBlock(f)
  {
    FieldsOfHeader(f, Repeat(SPACE, 8), ChecksumField(HeaderSum(f)));
  }

  method BlankHeader(ghost widths: seq<nat>) returns (header: array<Byte>, ghost blank: seq<Bytes>)
    requires Layout(widths) && widths[8] == 100 && widths[11] == 247
    ensures fresh(header) && Fit(blank, widths) && header[..] == Flatten(blank)
    ensures blank[0] == Repeat(NUL, 100) && blank[8] == Repeat(NUL, 100) && blank[11] == Repeat(NUL, 247)
  {
    header := new Byte[BLOCK](_ => NUL);
    blank := seq(12, i requires 0 <= i < 12 => Repeat(NUL, widths[i]));
    FlattenZeros(blank, widths);
    assert header[..] == Repeat(NUL, BLOCK);
  }

  method WriteHeader(f: File) returns (header: array<Byte>)
    ensures fresh(header) && header[..] == HeaderBlock(f)
  {
    LayoutOfHeader();
    ghost var blank;
    header, blank := BlankHeader(WIDTHS);
    FillHeader(header, WIDTHS, blank, f);
    Seal(header, WIDTHS, Filled(blank, f));
    FilledIsHeader(blank, f);
  }

  method PackFile(f: File) returns (packed: Bytes)
    ensures packed == Pack(f)
  {
    var header := WriteHeader(f);
    packed := header[..] + f.content;
    var pad := (512 - |f.content| % 512) % 512;
    if pad > 0 {
      packed := packed + Repeat(NUL, pad);
    }
  }

  method CreateTar(files: seq<File>) returns (tar: Bytes)
    ensures tar == Archive(files)
  {
    tar := [];
    var i := 0;
    while i < |files|
      invariant 0 <= i <= |files|
      invariant tar + WriteStream(Pack, End(), files[i..]) == Archive(files)
    {
      var packed := PackFile(files[i]);
      StreamNext(Pack, End(), files, i, tar);
      tar := tar + packed;
      i := i + 1;
    }
    tar := tar + Repeat(NUL, 1024);
  }
}
