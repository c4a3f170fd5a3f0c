/**
 The bypass is temporary (extension/background.js): every fair endless run of the service worker
 leaves it, across restarts of the worker and lost alarms.
 */
module BypassLiveness {
  import opened Wrappers
  import opened ProxyControl

  // ---------------------------------------------------------------- endless runs

  predicate Turn(state: nat -> State, event: nat -> Event, i: nat) {
    Turns(state(i), event(i)) == Some(state(i + 1))
  }

  ghost predicate EndlessRun(state: nat -> State, event: nat -> Event) {
    Sound(state(0)) && forall i: nat :: Turn(state, event, i)
  }

  predicate ControlTurn(c: nat -> Control, event: nat -> Event, i: nat) {
    Allowed(c(i), event(i)) && c(i + 1) == NextControl(c(i), event(i))
  }

  /** The control part of an endless run, on which the argument below rests. */
  ghost predicate ControlRun(c: nat -> Control, event: nat -> Event) {
    Invariant(c(0)) && forall i: nat :: ControlTurn(c, event, i)
  }

  // ---------------------------------------------------------------- fairness

  ghost predicate AlarmOffAfter(c: nat -> Control, n: nat) {
    exists m: nat :: n <= m && !c(m).alarmArmed
  }

  /** An armed alarm does not stay armed for ever. */
  ghost predicate AlarmsGoOff(c: nat -> Control) {
    forall n: nat :: AlarmOffAfter(c, n)
  }

  /** A handler is taken off the list between two states: it resumed, or its worker stopped. */
  predicate HandlerGone(c: Control, d: Control) {
    d.alarmHandlers < c.alarmHandlers
  }

  ghost predicate HandlerGoneAfter(c: nat -> Control, n: nat) {
    c(n).alarmHandlers > 0 ==> exists m: nat :: n <= m && HandlerGone(c(m), c(m + 1))
  }

  /** A pending alarm handler resumes or its worker stops. */
  ghost predicate HandlersGo(c: nat -> Control) {
    forall n: nat :: HandlerGoneAfter(c, n)
  }

  ghost predicate StartedAfter(c: nat -> Control, n: nat) {
    exists m: nat :: n <= m && c(m).phase == Ready
  }

  /** Restarts do not keep the startup check from completing again and again. */
  ghost predicate WorkersStart(c: nat -> Control) {
    forall n: nat :: StartedAfter(c, n)
  }

  ghost predicate Fair(c: nat -> Control) {
    AlarmsGoOff(c) && HandlersGo(c) && WorkersStart(c)
  }

  lemma AlarmOffAt(c: nat -> Control, n: nat) returns (m: nat)
    requires AlarmsGoOff(c)
    ensures n <= m && !c(m).alarmArmed
  {
    assert AlarmOffAfter(c, n);
    m :| n <= m && !c(m).alarmArmed;
  }

  lemma HandlerGoneAt(c: nat -> Control, n: nat) returns (m: nat)
    requires HandlersGo(c) && c(n).alarmHandlers > 0
    ensures n <= m && HandlerGone(c(m), c(m + 1))
  {
    assert HandlerGoneAfter(c, n);
    m :| n <= m && HandlerGone(c(m), c(m + 1));
  }

  lemma StartedAt(c: nat -> Control, n: nat) returns (m: nat)
    requires WorkersStart(c)
    ensures n <= m && c(m).phase == Ready
  {
    assert StartedAfter(c, n);
    m :| n <= m && c(m).phase == Ready;
  }

  // ---------------------------------------------------------------- while a bypass lasts

  lemma {:induction false} InvariantAt(c: nat -> Control, event: nat -> Event, n: nat)
    requires ControlRun(c, event)
    ensures Invariant(c(n))
  {
    if n > 0 {
      InvariantAt(c, event, n - 1);
      assert ControlTurn(c, event, n - 1);
      InvariantKept(c(n - 1), event(n - 1));
    }
  }

  /** Between two states of a lasting bypass: nothing arms the alarm anew and no handler joins without it. */
  predicate LastingStep(c: Control, d: Control) {
    && (d.alarmArmed ==> c.alarmArmed)
    && (!c.alarmArmed ==> d.alarmHandlers <= c.alarmHandlers)
    && (HandlerGone(c, d) ==> d.alarmHandlers == 0)
  }

  /** Once started up, a worker under a bypass has an alarm armed or a handler pending. */
  predicate Attended(c: Control) {
    c.phase == Ready ==> c.alarmArmed || c.alarmHandlers > 0
  }

  lemma LastingBypassStep(c: Control, e: Event)
    requires Allowed(c, e) && Invariant(c)
    requires BypassOn(c) && BypassOn(NextControl(c, e))
    ensures LastingStep(c, NextControl(c, e)) && Attended(c)
  {
  }

  predicate LastingAt(c: nat -> Control, k: nat) {
    LastingStep(c(k), c(k + 1)) && Attended(c(k))
  }

  ghost predicate LastingFrom(c: nat -> Control, n: nat) {
    forall k: nat :: n <= k ==> LastingAt(c, k)
  }

  predicate OnAt(c: nat -> Control, k: nat) {
    BypassOn(c(k))
  }

  ghost predicate OnFrom(c: nat -> Control, n: nat) {
    forall k: nat :: n <= k ==> OnAt(c, k)
  }

  lemma OnMeansLasting(c: nat -> Control, event: nat -> Event, n: nat)
    requires ControlRun(c, event) && OnFrom(c, n)
    ensures LastingFrom(c, n)
  {
    forall k: nat | n <= k
      ensures LastingAt(c, k)
    {
      InvariantAt(c, event, k);
      assert OnAt(c, k) && OnAt(c, k + 1);
      assert ControlTurn(c, event, k);
      LastingBypassStep(c(k), event(k));
    }
  }

  lemma LastingLater(c: nat -> Control, n: nat, m: nat)
    requires n <= m
    ensures LastingFrom(c, n) ==> LastingAt(c, m) && LastingFrom(c, m)
  {
  }

  lemma {:induction false} AlarmStaysOff(c: nat -> Control, n: nat, m: nat)
    requires LastingFrom(c, n) && n <= m
    requires !c(n).alarmArmed
    ensures !c(m).alarmArmed && c(m).alarmHandlers <= c(n).alarmHandlers
    decreases m - n
  {
    if n < m {
      AlarmStaysOff(c, n, m - 1);
      LastingLater(c, n, m - 1);
    }
  }

  // ---------------------------------------------------------------- so no bypass lasts

  /** A started worker with the alarm off and no handler left has nothing that could end a bypass. */
  predicate Unattended(c: Control) {
    !c.alarmArmed && c.alarmHandlers == 0
  }

  lemma NotUnattended(c: nat -> Control, n: nat, started: nat)
    requires Unattended(c(n)) && n <= started && c(started).phase == Ready
    ensures !LastingFrom(c, n)
  {
    LastingLater(c, n, started);
    if LastingFrom(c, n) {
      AlarmStaysOff(c, n, started);
    }
  }

  /** The first time a handler goes after the alarm went off leaves nothing behind. */
  lemma HandlersRunOut(c: nat -> Control, m: nat, k: nat)
    requires m <= k && !c(m).alarmArmed && HandlerGone(c(k), c(k + 1))
    ensures LastingFrom(c, m) ==> Unattended(c(k + 1)) && LastingFrom(c, k + 1)
  {
    LastingLater(c, m, k);
    LastingLater(c, m, k + 1);
    if LastingFrom(c, m) {
      AlarmStaysOff(c, m, k);
    }
  }

  lemma NotBehindHandlers(c: nat -> Control, m: nat, k: nat, started: nat)
    requires m <= k && !c(m).alarmArmed && HandlerGone(c(k), c(k + 1))
    requires k + 1 <= started && c(started).phase == Ready
    ensures !LastingFrom(c, m)
  {
    HandlersRunOut(c, m, k);
    if LastingFrom(c, m) {
      NotUnattended(c, k + 1, started);
    }
  }

  lemma NotWithAlarmOff(c: nat -> Control, m: nat)
    requires HandlersGo(c) && WorkersStart(c) && !c(m).alarmArmed
    ensures !LastingFrom(c, m)
  {
    if c(m).alarmHandlers == 0 {
      var started := StartedAt(c, m);
      NotUnattended(c, m, started);
    } else {
      var k := HandlerGoneAt(c, m);
      var started := StartedAt(c, k + 1);
      NotBehindHandlers(c, m, k, started);
    }
  }

  lemma NoLastingBypass(c: nat -> Control, n: nat)
    requires Fair(c)
    ensures !LastingFrom(c, n)
  {
    var m := AlarmOffAt(c, n);
    LastingLater(c, n, m);
    NotWithAlarmOff(c, m);
  }

  function Controls(state: nat -> State): nat -> Control {
    (n: nat) => state(n).control
  }

  lemma ControlsRun(state: nat -> State, event: nat -> Event)
    requires EndlessRun(state, event)
    ensures ControlRun(Controls(state), event)
  {
    forall i: nat
      ensures ControlTurn(Controls(state), event, i)
    {
      assert Turn(state, event, i);
    }
  }

  /** Every fair endless run leaves bypass, again and again. */
  lemma BypassEnds(state: nat -> State, event: nat -> Event, n: nat)
    requires EndlessRun(state, event) && Fair(Controls(state))
    ensures exists m: nat :: n <= m && !BypassOn(state(m).control)
  {
    var c := Controls(state);
    ControlsRun(state, event);
    if OnFrom(c, n) {
      OnMeansLasting(c, event, n);
      NoLastingBypass(c, n);
    }
    var k: nat :| n <= k && !OnAt(c, k);
    assert !BypassOn(state(k).control);
  }
}
