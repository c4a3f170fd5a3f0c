/**
 Transition systems and their finite runs: what every state of a run has in common, and which
 events are to blame when it is lost.
 */
module Runs {
  import opened Wrappers

  /** The state an event leads to; None when the event cannot happen. */
  type Machine<!S, !E> = (S, E) -> Option<S>

  ghost predicate Run<S, E>(m: Machine<S, E>, s: S, events: seq<E>)
    decreases |events|
  {
    events == [] || (m(s, events[0]).Some? && Run(m, m(s, events[0]).value, events[1..]))
  }

  ghost function Final<S, E>(m: Machine<S, E>, s: S, events: seq<E>): S
    requires Run(m, s, events)
    decreases |events|
  {
    if events == [] then s else Final(m, m(s, events[0]).value, events[1..])
  }

  // ---------------------------------------------------------------- putting runs together

  lemma {:induction false} RunConcat<S, E>(m: Machine<S, E>, s: S, a: seq<E>, b: seq<E>)
    requires Run(m, s, a) && Run(m, Final(m, s, a), b)
    ensures Run(m, s, a + b) && Final(m, s, a + b) == Final(m, Final(m, s, a), b)
    decreases |a|
  {
    if a == [] {
      assert a + b == b;
    } else {
      assert (a + b)[1..] == a[1..] + b;
      RunConcat(m, m(s, a[0]).value, a[1..], b);
    }
  }

  lemma RunOfOne<S, E>(m: Machine<S, E>, s: S, e: E)
    requires m(s, e).Some?
    ensures Run(m, s, [e]) && Final(m, s, [e]) == m(s, e).value
  {
    var t := m(s, e).value;
    assert [e][1..] == [] && Run(m, t, []) && Final(m, t, []) == t;
  }

  lemma OneMore<S, E>(m: Machine<S, E>, s: S, events: seq<E>, e: E)
    requires Run(m, s, events) && m(Final(m, s, events), e).Some?
    ensures Run(m, s, events + [e]) && Final(m, s, events + [e]) == m(Final(m, s, events), e).value
  {
    RunOfOne(m, Final(m, s, events), e);
    RunConcat(m, s, events, [e]);
  }

  lemma RunOfThree<S, E>(m: Machine<S, E>, s: S, d: E, t: S, e: E, u: S, f: E, v: S)
    requires m(s, d) == Some(t) && m(t, e) == Some(u) && m(u, f) == Some(v)
    ensures Run(m, s, [d, e, f]) && Final(m, s, [d, e, f]) == v
  {
    RunOfOne(m, s, d);
    OneMore(m, s, [d], e);
    OneMore(m, s, [d] + [e], f);
    assert [d] + [e] + [f] == [d, e, f];
  }

  ghost predicate Reaches<S, E(!new)>(m: Machine<S, E>, s: S, t: S) {
    exists events :: Run(m, s, events) && Final(m, s, events) == t
  }

  lemma ReachesBy<S, E(!new)>(m: Machine<S, E>, s: S, events: seq<E>, t: S)
    requires Run(m, s, events) && Final(m, s, events) == t
    ensures Reaches(m, s, t)
  {
  }

  lemma ReachesTransitively<S, E(!new)>(m: Machine<S, E>, s: S, t: S, u: S)
    requires Reaches(m, s, t) && Reaches(m, t, u)
    ensures Reaches(m, s, u)
  {
    var a :| Run(m, s, a) && Final(m, s, a) == t;
    var b :| Run(m, t, b) && Final(m, t, b) == u;
    RunConcat(m, s, a, b);
  }

  // ---------------------------------------------------------------- invariants

  /** No event that satisfies allowed leads out of inv. */
  ghost predicate Keeps<S(!new), E(!new)>(m: Machine<S, E>, allowed: (S, E) -> bool, inv: S -> bool) {
    forall s, e :: inv(s) && allowed(s, e) && m(s, e).Some? ==> inv(m(s, e).value)
  }

  function Anything<S, E>(): (S, E) -> bool {
    (s, e) => true
  }

  ghost predicate Only<S, E>(m: Machine<S, E>, allowed: (S, E) -> bool, s: S, events: seq<E>)
    requires Run(m, s, events)
    decreases |events|
  {
    events == [] || (allowed(s, events[0]) && Only(m, allowed, m(s, events[0]).value, events[1..]))
  }

  lemma {:induction false} OnlyAnything<S, E>(m: Machine<S, E>, s: S, events: seq<E>)
    requires Run(m, s, events)
    ensures Only(m, Anything(), s, events)
    decreases |events|
  {
    if events != [] {
      OnlyAnything(m, m(s, events[0]).value, events[1..]);
    }
  }

  lemma {:induction false} OnlyWeaker<S(!new), E(!new)>(m: Machine<S, E>, allowed: (S, E) -> bool, weaker: (S, E) -> bool, s: S, events: seq<E>)
    requires Run(m, s, events) && Only(m, allowed, s, events)
    requires forall t, e :: allowed(t, e) ==> weaker(t, e)
    ensures Only(m, weaker, s, events)
    decreases |events|
  {
    if events != [] {
      OnlyWeaker(m, allowed, weaker, m(s, events[0]).value, events[1..]);
    }
  }

  lemma {:induction false} OnlyConcat<S, E>(m: Machine<S, E>, allowed: (S, E) -> bool, s: S, a: seq<E>, b: seq<E>)
    requires Run(m, s, a) && Run(m, Final(m, s, a), b)
    requires Only(m, allowed, s, a) && Only(m, allowed, Final(m, s, a), b)
    ensures Run(m, s, a + b) && Only(m, allowed, s, a + b)
    decreases |a|
  {
    RunConcat(m, s, a, b);
    if a == [] {
      assert a + b == b;
    } else {
      assert (a + b)[1..] == a[1..] + b;
      OnlyConcat(m, allowed, m(s, a[0]).value, a[1..], b);
    }
  }

  /** A property that allowed events keep holds at the end of every run of them. */
  lemma {:induction false} KeptAlong<S(!new), E(!new)>(m: Machine<S, E>, allowed: (S, E) -> bool, inv: S -> bool, s: S, events: seq<E>)
    requires Keeps(m, allowed, inv) && inv(s) && Run(m, s, events) && Only(m, allowed, s, events)
    ensures inv(Final(m, s, events))
    decreases |events|
  {
    if events != [] {
      KeptAlong(m, allowed, inv, m(s, events[0]).value, events[1..]);
    }
  }

  lemma InvariantHolds<S(!new), E(!new)>(m: Machine<S, E>, inv: S -> bool, s: S, events: seq<E>)
    requires Keeps(m, Anything(), inv) && inv(s) && Run(m, s, events)
    ensures inv(Final(m, s, events))
  {
    OnlyAnything(m, s, events);
    KeptAlong(m, Anything(), inv, s, events);
  }

  // ---------------------------------------------------------------- blame

  ghost predicate Throughout<S, E>(m: Machine<S, E>, good: S -> bool, s: S, events: seq<E>)
    requires Run(m, s, events)
    decreases |events|
  {
    good(s) && (events == [] || Throughout(m, good, m(s, events[0]).value, events[1..]))
  }

  function Not<S, E>(p: (S, E) -> bool): (S, E) -> bool {
    (s, e) => !p(s, e)
  }

  ghost predicate Never<S, E>(m: Machine<S, E>, bad: (S, E) -> bool, s: S, events: seq<E>)
    requires Run(m, s, events)
  {
    Only(m, Not(bad), s, events)
  }

  /** Within inv, an allowed event leads from a good state to one that is not good exactly if it is bad. */
  ghost predicate Blames<S(!new), E(!new)>(m: Machine<S, E>, allowed: (S, E) -> bool, inv: S -> bool, good: S -> bool, bad: (S, E) -> bool) {
    forall s, e :: inv(s) && good(s) && allowed(s, e) && m(s, e).Some? ==> good(m(s, e).value) == !bad(s, e)
  }

  /** Then a run from a good state is good throughout if and only if no bad event happens in it. */
  lemma {:induction false} GoodUnlessBlamed<S(!new), E(!new)>(m: Machine<S, E>, allowed: (S, E) -> bool, inv: S -> bool,
        good: S -> bool, bad: (S, E) -> bool, s: S, events: seq<E>)
    requires Keeps(m, allowed, inv) && Blames(m, allowed, inv, good, bad) && inv(s) && good(s)
    requires Run(m, s, events) && Only(m, allowed, s, events)
    ensures Throughout(m, good, s, events) <==> Never(m, bad, s, events)
    decreases |events|
  {
    if events != [] {
      var t := m(s, events[0]).value;
      if good(t) {
        GoodUnlessBlamed(m, allowed, inv, good, bad, t, events[1..]);
      }
    }
  }
}
