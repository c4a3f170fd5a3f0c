/**
 Reading structured text off the front of a string. A reader yields a value and the text left
 over; lists are written either between separators or up to an end mark.
 */
module Readers {
  import opened Wrappers
  import opened Text

  type Reader<!T> = string -> Option<(T, string)>

  ghost predicate Consumes<T(!new)>(read: Reader<T>) {
    forall text :: read(text).Some? ==> |read(text).value.1| < |text|
  }

  ghost predicate Yields<T(!new)>(read: Reader<T>, good: T -> bool) {
    forall text :: read(text).Some? ==> good(read(text).value.0)
  }

  /** What is written for x reads back as x, whatever follows. */
  ghost predicate ReadsBack<T(!new)>(write: T -> string, read: Reader<T>, x: T) {
    forall rest :: read(write(x) + rest) == Some((x, rest))
  }

  function Expect(text: string, word: string): (rest: Option<string>)
    ensures rest.Some? ==> |rest.value| == |text| - |word|
  {
    if StartsWith(text, word) then Some(text[|word|..]) else None
  }

  lemma ExpectSelf(word: string, rest: string)
    ensures Expect(word + rest, word) == Some(rest)
  {
  }

  lemma ExpectOther(text: string, word: string, i: nat)
    requires i < |text| && i < |word| && text[i] != word[i]
    ensures Expect(text, word) == None
  {
  }

  // ---------------------------------------------------------------- lists between separators

  function WriteSeparated<T>(write: T -> string, separator: string, xs: seq<T>): string {
    if xs == [] then ""
    else if |xs| == 1 then write(xs[0])
    else write(xs[0]) + separator + WriteSeparated(write, separator, xs[1..])
  }

  function ReadSeparated<T(!new)>(read: Reader<T>, separator: string, text: string): (r: Option<(seq<T>, string)>)
    requires Consumes(read)
    ensures r.Some? ==> r.value.0 != [] && |r.value.1| < |text|
    decreases |text|
  {
    match read(text)
    case None => None
    case Some((x, rest)) =>
      match Expect(rest, separator)
      case None => Some(([x], rest))
      case Some(more) =>
        match ReadSeparated(read, separator, more)
        case None => None
        case Some((xs, after)) => Some(([x] + xs, after))
  }

  lemma {:induction false} SeparatedReads<T(!new)>(write: T -> string, read: Reader<T>, separator: string, xs: seq<T>, rest: string)
    requires Consumes(read) && xs != []
    requires forall i :: 0 <= i < |xs| ==> ReadsBack(write, read, xs[i])
    requires Expect(rest, separator) == None
    ensures ReadSeparated(read, separator, WriteSeparated(write, separator, xs) + rest) == Some((xs, rest))
    decreases |xs|
  {
    assert ReadsBack(write, read, xs[0]);
    if |xs| == 1 {
      assert xs == [xs[0]];
    } else {
      var more := WriteSeparated(write, separator, xs[1..]) + rest;
      assert WriteSeparated(write, separator, xs) + rest == write(xs[0]) + (separator + more);
      ExpectSelf(separator, more);
      SeparatedReads(write, read, separator, xs[1..], rest);
      assert xs == [xs[0]] + xs[1..];
    }
  }

  lemma {:induction false} SeparatedYields<T(!new)>(read: Reader<T>, separator: string, text: string, good: T -> bool)
    requires Consumes(read) && Yields(read, good)
    ensures var r := ReadSeparated(read, separator, text);
            r.Some? ==> forall i :: 0 <= i < |r.value.0| ==> good(r.value.0[i])
    decreases |text|
  {
    if read(text).Some? {
      var more := Expect(read(text).value.1, separator);
      if more.Some? {
        SeparatedYields(read, separator, more.value, good);
      }
    }
  }

  // ---------------------------------------------------------------- lists up to an end mark

  function WriteAll<T>(write: T -> string, xs: seq<T>): string {
    if xs == [] then "" else write(xs[0]) + WriteAll(write, xs[1..])
  }

  lemma {:induction false} WriteAllConcat<T>(write: T -> string, xs: seq<T>, ys: seq<T>)
    ensures WriteAll(write, xs + ys) == WriteAll(write, xs) + WriteAll(write, ys)
    decreases |xs|
  {
    if xs == [] {
      assert xs + ys == ys;
    } else {
      assert (xs + ys)[1..] == xs[1..] + ys;
      WriteAllConcat(write, xs[1..], ys);
    }
  }

  lemma WriteOne<T>(write: T -> string, x: T)
    ensures WriteAll(write, [x]) == write(x)
  {
    assert WriteAll(write, [x][1..]) == "";
  }

  function ReadUntil<T(!new)>(read: Reader<T>, end: string, text: string): Option<(seq<T>, string)>
    requires Consumes(read)
    decreases |text|
  {
    match Expect(text, end)
    case Some(after) => Some(([], after))
    case None =>
      match read(text)
      case None => None
      case Some((x, rest)) =>
        match ReadUntil(read, end, rest)
        case None => None
        case Some((xs, after)) => Some(([x] + xs, after))
  }

  lemma {:induction false} UntilReads<T(!new)>(write: T -> string, read: Reader<T>, end: string, xs: seq<T>, rest: string)
    requires Consumes(read)
    requires forall i :: 0 <= i < |xs| ==> ReadsBack(write, read, xs[i])
    requires forall i, more :: 0 <= i < |xs| ==> Expect(write(xs[i]) + more, end) == None
    ensures ReadUntil(read, end, WriteAll(write, xs) + (end + rest)) == Some((xs, rest))
    decreases |xs|
  {
    if xs == [] {
      assert WriteAll(write, xs) + (end + rest) == end + rest;
      ExpectSelf(end, rest);
    } else {
      var more := WriteAll(write, xs[1..]) + (end + rest);
      assert WriteAll(write, xs) + (end + rest) == write(xs[0]) + more;
      assert ReadsBack(write, read, xs[0]);
      UntilReads(write, read, end, xs[1..], rest);
      assert xs == [xs[0]] + xs[1..];
    }
  }

  lemma {:induction false} UntilYields<T(!new)>(read: Reader<T>, end: string, text: string, good: T -> bool)
    requires Consumes(read) && Yields(read, good)
    ensures var r := ReadUntil(read, end, text);
            r.Some? ==> forall i :: 0 <= i < |r.value.0| ==> good(r.value.0[i])
    decreases |text|
  {
    if Expect(text, end) == None && read(text).Some? {
      UntilYields(read, end, read(text).value.1, good);
    }
  }
}
