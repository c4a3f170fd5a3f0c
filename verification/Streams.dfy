/** Streams of records laid end to end and closed by an end mark. */
module Streams {
  import opened Wrappers
  import opened Sequences

  type Reader<!T, +B> = seq<T> -> Option<(B, seq<T>)>

  ghost predicate Shrinks<T(!new), B>(read: Reader<T, B>) {
    forall stream :: read(stream).Some? ==> |read(stream).value.1| < |stream|
  }

  function WriteStream<A, T>(write: A -> seq<T>, end: seq<T>, xs: seq<A>): seq<T> {
    if xs == [] then end else write(xs[0]) + WriteStream(write, end, xs[1..])
  }

  /** One record more: what a loop over the records relies on. */
  lemma StreamNext<A, T>(write: A -> seq<T>, end: seq<T>, xs: seq<A>, i: nat, done: seq<T>)
    requires i < |xs|
    ensures done + WriteStream(write, end, xs[i..]) == (done + write(xs[i])) + WriteStream(write, end, xs[i + 1..])
  {
    assert xs[i..][1..] == xs[i + 1..];
  }

  function ReadStream<T(!new,==), B>(read: Reader<T, B>, end: seq<T>, stream: seq<T>): Option<seq<B>>
    requires Shrinks(read)
    decreases |stream|
  {
    if stream == end then Some([]) else
    match read(stream)
    case None => None
    case Some((x, rest)) =>
      match ReadStream(read, end, rest)
      case None => None
      case Some(xs) => Some([x] + xs)
  }

  /** The record of x reads back as the image of x if x is good, and as nothing or something else if not. */
  ghost predicate Records<A, T(!new), B>(write: A -> seq<T>, read: Reader<T, B>, image: A -> B, good: A -> bool, end: seq<T>, x: A) {
    forall rest ::
      && write(x) + rest != end
      && (good(x) ==> read(write(x) + rest) == Some((image(x), rest)))
      && (!good(x) ==> read(write(x) + rest).None? || read(write(x) + rest).value.0 != image(x))
  }

  lemma SameTail<B>(x: B, a: seq<B>, y: B, b: seq<B>)
    ensures [x] + a == [y] + b <==> x == y && a == b
  {
    if [x] + a == [y] + b {
      assert x == ([x] + a)[0] && a == ([x] + a)[1..];
      assert y == ([y] + b)[0] && b == ([y] + b)[1..];
    }
  }

  lemma AllGoodStep<A>(good: A -> bool, xs: seq<A>)
    requires xs != []
    ensures AllGood(good, xs) <==> good(xs[0]) && AllGood(good, xs[1..])
  {
    assert forall i :: 0 < i < |xs| ==> xs[i] == xs[1..][i - 1];
  }

  /** If single records read back exactly when they are good, so do whole streams. */
  lemma {:induction false} StreamReadsBack<A, T(!new), B>(write: A -> seq<T>, read: Reader<T, B>, image: A -> B,
        good: A -> bool, end: seq<T>, xs: seq<A>)
    requires Shrinks(read)
    requires forall i :: 0 <= i < |xs| ==> Records(write, read, image, good, end, xs[i])
    ensures ReadStream(read, end, WriteStream(write, end, xs)) == Some(Images(image, xs)) <==> AllGood(good, xs)
    decreases |xs|
  {
    if xs == [] {
      assert Images(image, xs) == [];
    } else {
      var x, rest := xs[0], WriteStream(write, end, xs[1..]);
      assert Records(write, read, image, good, end, x);
      StreamReadsBack(write, read, image, good, end, xs[1..]);
      AllGoodStep(good, xs);
      assert Images(image, xs) == [image(x)] + Images(image, xs[1..]);
      var r := read(write(x) + rest);
      if r.Some? {
        var tail := ReadStream(read, end, r.value.1);
        if tail.Some? {
          SameTail(r.value.0, tail.value, image(x), Images(image, xs[1..]));
        }
      }
    }
  }
}
