/** Facts about cutting and joining sequences that several formats use. */
module Sequences {
  import opened Wrappers

  /** Four parts laid end to end are recovered by cutting at their lengths. */
  lemma FourParts<T>(a: seq<T>, b: seq<T>, c: seq<T>, d: seq<T>)
    ensures var whole := a + b + c + d;
            && whole[..|a|] == a
            && whole[|a|..|a| + |b|] == b
            && whole[|a| + |b|..|a| + |b| + |c|] == c
            && whole[|a| + |b| + |c|..] == d
  {
  }

  lemma Associates<T>(a: seq<T>, b: seq<T>, c: seq<T>)
    ensures (a + b) + c == a + (b + c)
  {
  }

  /** The position of the first element that satisfies p. */
  function FirstHit<T>(p: T -> bool, xs: seq<T>): (r: Option<nat>)
    ensures r.Some? ==> r.value < |xs| && p(xs[r.value]) && forall j :: 0 <= j < r.value ==> !p(xs[j])
    ensures r.None? ==> forall j :: 0 <= j < |xs| ==> !p(xs[j])
  {
    if xs == [] then None
    else if p(xs[0]) then Some(0)
    else
      match FirstHit(p, xs[1..])
      case None => None
      case Some(i) => Some(i + 1)
  }

  lemma {:induction false} FirstHitIs<T>(p: T -> bool, xs: seq<T>, i: nat)
    requires i < |xs| && p(xs[i]) && forall j :: 0 <= j < i ==> !p(xs[j])
    ensures FirstHit(p, xs) == Some(i)
  {
    if i > 0 {
      FirstHitIs(p, xs[1..], i - 1);
    }
  }

  /** The scan of a list for its first fitting element. */
  method FindFirst<T>(p: T -> bool, xs: seq<T>) returns (hit: Option<nat>)
    ensures hit == FirstHit(p, xs)
  {
    var i := 0;
    while i < |xs|
      invariant 0 <= i <= |xs|
      invariant forall k :: 0 <= k < i ==> !p(xs[k])
    {
      if p(xs[i]) {
        FirstHitIs(p, xs, i);
        return Some(i);
      }
      i := i + 1;
    }
    return None;
  }

  lemma FirstHitUnique<T>(p: T -> bool, q: T -> bool, xs: seq<T>)
    requires forall i :: 0 <= i < |xs| ==> p(xs[i]) == q(xs[i])
    ensures FirstHit(p, xs) == FirstHit(q, xs)
  {
  }

  function Images<A, B>(image: A -> B, xs: seq<A>): (r: seq<B>)
    ensures |r| == |xs|
    ensures forall i :: 0 <= i < |xs| ==> r[i] == image(xs[i])
  {
    seq(|xs|, i requires 0 <= i < |xs| => image(xs[i]))
  }

  // ---------------------------------------------------------------- filtered lists

  function Filter<A>(keep: A -> bool, xs: seq<A>): (r: seq<A>)
    ensures r != [] <==> exists i :: 0 <= i < |xs| && keep(xs[i])
    ensures forall i :: 0 <= i < |r| ==> keep(r[i])
  {
    if xs == [] then [] else (if keep(xs[0]) then [xs[0]] else []) + Filter(keep, xs[1..])
  }

  /** The images of the elements that are kept, in order. */
  function Collect<A, B>(keep: A -> bool, make: A -> B, xs: seq<A>): (r: seq<B>)
    ensures |r| <= |xs|
  {
    if xs == [] then [] else (if keep(xs[0]) then [make(xs[0])] else []) + Collect(keep, make, xs[1..])
  }

  lemma {:induction false} CollectConcat<A, B>(keep: A -> bool, make: A -> B, xs: seq<A>, ys: seq<A>)
    ensures Collect(keep, make, xs + ys) == Collect(keep, make, xs) + Collect(keep, make, ys)
    decreases |xs|
  {
    if xs == [] {
      assert xs + ys == ys;
    } else {
      assert (xs + ys)[1..] == xs[1..] + ys;
      CollectConcat(keep, make, xs[1..], ys);
      var head := if keep(xs[0]) then [make(xs[0])] else [];
      var rest, more := Collect(keep, make, xs[1..]), Collect(keep, make, ys);
      assert head + (rest + more) == (head + rest) + more;
    }
  }

  lemma CollectNext<A, B>(keep: A -> bool, make: A -> B, xs: seq<A>, i: nat)
    requires i < |xs|
    ensures Collect(keep, make, xs[..i + 1])
         == Collect(keep, make, xs[..i]) + (if keep(xs[i]) then [make(xs[i])] else [])
  {
    assert xs[..i + 1] == xs[..i] + [xs[i]];
    CollectConcat(keep, make, xs[..i], [xs[i]]);
    assert Collect(keep, make, [xs[i]][1..]) == [];
  }

  /** Filtering first by a weaker condition changes nothing. */
  lemma {:induction false} CollectOfFilter<A(!new), B>(weaker: A -> bool, keep: A -> bool, make: A -> B, xs: seq<A>)
    requires forall x :: keep(x) ==> weaker(x)
    ensures Collect(keep, make, Filter(weaker, xs)) == Collect(keep, make, xs)
    decreases |xs|
  {
    if xs != [] {
      CollectOfFilter(weaker, keep, make, xs[1..]);
      if weaker(xs[0]) {
        assert Filter(weaker, xs)[1..] == Filter(weaker, xs[1..]);
      } else {
        assert Filter(weaker, xs) == Filter(weaker, xs[1..]);
      }
    }
  }

  ghost predicate AllGood<B>(good: B -> bool, xs: seq<B>) {
    forall i :: 0 <= i < |xs| ==> good(xs[i])
  }

  lemma AllGoodConcat<B>(good: B -> bool, xs: seq<B>, ys: seq<B>)
    ensures AllGood(good, xs + ys) <==> AllGood(good, xs) && AllGood(good, ys)
  {
    if AllGood(good, xs + ys) {
      assert forall i :: 0 <= i < |xs| ==> xs[i] == (xs + ys)[i];
      assert forall i :: 0 <= i < |ys| ==> ys[i] == (xs + ys)[|xs| + i];
    }
  }

  /** A property holds of the whole list exactly when it holds of the image of every element kept. */
  lemma {:induction false} CollectAll<A, B>(keep: A -> bool, make: A -> B, xs: seq<A>, good: B -> bool)
    ensures AllGood(good, Collect(keep, make, xs)) <==> forall i :: 0 <= i < |xs| && keep(xs[i]) ==> good(make(xs[i]))
    decreases |xs|
  {
    if xs != [] {
      var head := if keep(xs[0]) then [make(xs[0])] else [];
      CollectAll(keep, make, xs[1..], good);
      AllGoodConcat(good, head, Collect(keep, make, xs[1..]));
      assert AllGood(good, head) <==> (keep(xs[0]) ==> good(make(xs[0]))) by {
        if head != [] {
          assert head[0] == make(xs[0]);
        }
      }
      assert forall i :: 0 <= i < |xs| - 1 ==> xs[1..][i] == xs[i + 1];
      assert forall i :: 1 <= i < |xs| ==> xs[i] == xs[1..][i - 1];
    }
  }
}
