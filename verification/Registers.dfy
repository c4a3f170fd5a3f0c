/**
 Shift registers in the abstract: a state, a step that takes in one bit, and a free-running
 step. What holds of every register whose steps have the right algebra is proved here once,
 away from any particular word size.
 */
module Registers {
  type Bits = seq<bool>

  /** The register left to run for n steps. */
  function Iterate<T>(f: T -> T, n: nat, x: T): T {
    if n == 0 then x else Iterate(f, n - 1, f(x))
  }

  /** The register after taking in the bits, first bit first. */
  function Absorb<T>(step: (T, bool) -> T, x: T, bits: Bits): T
    decreases |bits|
  {
    if bits == [] then x else Absorb(step, step(x, bits[0]), bits[1..])
  }

  lemma {:induction false} AbsorbConcat<T>(step: (T, bool) -> T, x: T, u: Bits, v: Bits)
    ensures Absorb(step, x, u + v) == Absorb(step, Absorb(step, x, u), v)
    decreases |u|
  {
    if u == [] {
      assert u + v == v;
    } else {
      assert (u + v)[1..] == u[1..] + v;
      AbsorbConcat(step, step(x, u[0]), u[1..], v);
    }
  }

  lemma {:induction false} AbsorbInjective<T(!new)>(step: (T, bool) -> T, x: T, y: T, bits: Bits)
    requires forall a, b, bit :: step(a, bit) == step(b, bit) ==> a == b
    requires Absorb(step, x, bits) == Absorb(step, y, bits)
    ensures x == y
    decreases |bits|
  {
    if bits != [] {
      AbsorbInjective(step, step(x, bits[0]), step(y, bits[0]), bits[1..]);
    }
  }

  lemma {:induction false} IterateInjective<T(!new)>(f: T -> T, n: nat, x: T, y: T)
    requires forall a, b :: f(a) == f(b) ==> a == b
    requires Iterate(f, n, x) == Iterate(f, n, y)
    ensures x == y
  {
    if n > 0 {
      IterateInjective(f, n - 1, f(x), f(y));
    }
  }

  /** A listed sequence of states, each the step of the one before, ends where the register does. */
  lemma {:induction false} IterateAlong<T>(f: T -> T, states: seq<T>)
    requires states != []
    requires forall i :: 0 <= i < |states| - 1 ==> f(states[i]) == states[i + 1]
    ensures Iterate(f, |states| - 1, states[0]) == states[|states| - 1]
    decreases |states|
  {
    if |states| > 1 {
      IterateAlong(f, states[1..]);
    }
  }

  lemma {:induction false} IterateHomomorphic<T(!new)>(f: T -> T, op: (T, T) -> T, n: nat, x: T, y: T)
    requires forall a, b :: f(op(a, b)) == op(f(a), f(b))
    ensures Iterate(f, n, op(x, y)) == op(Iterate(f, n, x), Iterate(f, n, y))
  {
    if n > 0 {
      IterateHomomorphic(f, op, n - 1, f(x), f(y));
    }
  }

  /** Absorbing a short string of bits is one combined word followed by free running. */
  lemma {:induction false} AbsorbIsIterate<T(!new)>(
      step: (T, bool) -> T, f: T -> T, op: (T, T) -> T, pack: Bits -> T, limit: nat, x: T, bits: Bits)
    requires forall a :: op(a, pack([])) == a
    requires forall a, s: Bits :: 0 < |s| <= limit ==> f(op(a, pack(s))) == op(step(a, s[0]), pack(s[1..]))
    requires |bits| <= limit
    ensures Absorb(step, x, bits) == Iterate(f, |bits|, op(x, pack(bits)))
    decreases |bits|
  {
    if bits != [] {
      AbsorbIsIterate(step, f, op, pack, limit, step(x, bits[0]), bits[1..]);
    }
  }

  /** Strings that agree outside a window are a common start, the two windows, a common end. */
  lemma SplitAtWindow(s: Bits, t: Bits, start: nat, end: nat)
    requires |s| == |t| && start <= end <= |s|
    requires forall i :: 0 <= i < |s| && !(start <= i < end) ==> s[i] == t[i]
    ensures s == s[..start] + s[start..end] + s[end..]
    ensures t == s[..start] + t[start..end] + s[end..]
  {
    assert t[..start] == s[..start] && t[end..] == s[end..];
  }
}
