/**
 What a bypass promises under every interleaving of the service worker's turns
 (extension/background.js): as long as it is on, the browser was last told to connect directly.
 */
module BypassSafety {
  import opened Runs
  import opened Wrappers
  import opened ProxyControl

  /** A bypass is in force but the browser was last told something other than direct. */
  predicate Violated(s: State) {
    BypassOn(s.control) && s.lastWrite != DirectMode
  }

  predicate Respected(s: State) {
    !Violated(s)
  }

  /** The retry with the stored script, issued without looking at the bypass flag again. */
  predicate LateRetry(s: State, e: Event) {
    e == PacRetried(true) && s.control.bypassActive
  }

  lemma OnlyToggleSwitchesOn(c: Control, e: Event)
    requires Allowed(c, e) && Coherent(c)
    ensures BypassOn(NextControl(c, e)) && !BypassOn(c) ==> e.ToggleMessage?
  {
  }

  lemma PacUnderBypass(s: State, e: Event)
    requires s.control.bypassActive && s.lastWrite == DirectMode && IsPac(e)
    ensures ResumePac(s, e).lastWrite != DirectMode <==> e == PacRetried(true)
  {
  }

  lemma RestUnderBypass(s: State, before: Control, e: Event)
    requires s.control.bypassActive && !IsPac(e) && (e.ToggleMessage? || s.lastWrite == DirectMode)
    ensures Act(s, before, e).lastWrite == DirectMode
  {
  }

  /** A turn that leaves no live worker behind writes nothing. */
  lemma NotLiveNotWritten(s: State, e: Event)
    requires Enabled(s, e) && !Live(NextControl(s.control, e))
    ensures !IsPac(e) && Act(Entered(s, e), s.control, e).lastWrite == s.lastWrite
  {
  }

  lemma PacLeavesControl(c: Control, e: Event)
    requires Allowed(c, e) && IsPac(e)
    ensures Live(c) && NextControl(c, e) == c
  {
  }

  lemma OnlyLateRetryViolates(s: State, e: Event)
    requires Enabled(s, e) && Sound(s) && !Violated(s)
    ensures Violated(Step(s, e)) <==> LateRetry(s, e)
  {
    InvariantKept(s.control, e);
    OnlyToggleSwitchesOn(s.control, e);
    var d := NextControl(s.control, e);
    if !Live(d) {
      NotLiveNotWritten(s, e);
    } else if IsPac(e) {
      PacLeavesControl(s.control, e);
      if BypassOn(d) {
        PacUnderBypass(Entered(s, e), e);
      }
    } else if BypassOn(d) {
      RestUnderBypass(Entered(s, e), s.control, e);
    }
  }

  /** A worker that has never run starts without a violation. */
  lemma InitiallyRespected(s: State)
    requires Initial(s)
    ensures Sound(s) && Respected(s)
  {
    InitiallySound(s);
  }

  /**
   Under every interleaving a bypass means direct at the end of every turn, if and only if no
   retry with the stored script resumes while the bypass is on.
   */
  lemma BypassMeansDirect(s: State, events: seq<Event>)
    requires Sound(s) && Respected(s) && Run(Turns, s, events)
    ensures Throughout(Turns, Respected, s, events) <==> Never(Turns, LateRetry, s, events)
  {
    SoundKept();
    forall s, e | Sound(s) && Respected(s) && Turns(s, e).Some?
      ensures Respected(Turns(s, e).value) == !LateRetry(s, e)
    {
      OnlyLateRetryViolates(s, e);
    }
    OnlyAnything(Turns, s, events);
    GoodUnlessBlamed(Turns, Anything(), Sound, Respected, LateRetry, s, events);
  }

  // ---------------------------------------------------------------- the exception

  /** A worker that is ready to apply what the server answers. */
  predicate Synchronising(s: State) {
    Live(s.control) && !s.control.bypassActive && s.control.enabled && SyncReply(true) in s.tasks
  }

  /** Its script is being prepared. */
  predicate Preparing(s: State) {
    Live(s.control) && !s.control.bypassActive && PacRules in s.tasks
  }

  /** Its script is being installed. */
  predicate Installing(s: State) {
    Live(s.control) && !s.control.bypassActive && PacInstall in s.tasks
  }

  lemma SynchronisingReached(s: State) returns (t: State)
    requires Initial(s) && s.control.storedEnabled
    ensures Reaches(Turns, s, t) && Synchronising(t)
  {
    var awake := Step(s, Wake);
    var restored := Step(awake, Restored(false, Unset));
    t := Step(restored, SyncStarts(true, true));
    RunOfThree(Turns, s, Wake, awake, Restored(false, Unset), restored, SyncStarts(true, true), t);
    ReachesBy(Turns, s, [Wake, Restored(false, Unset), SyncStarts(true, true)], t);
  }

  lemma PacDownloading(s: State, c: Config)
    requires Synchronising(s) && c == Config(true, false, PacProtocol, Address(true, ""), Unset, false)
    ensures var e := SyncAnswered(true, Some(c));
            Enabled(s, e) && Live(Step(s, e).control) && !Step(s, e).control.bypassActive && PacDownload in Step(s, e).tasks
  {
  }

  lemma ScriptDownloaded(s: State)
    requires Live(s.control) && !s.control.bypassActive && PacDownload in s.tasks
    ensures Enabled(s, PacDownloaded(true))
    ensures var t := Step(s, PacDownloaded(true)); t.control == s.control && PacRules in t.tasks
  {
  }

  lemma PreparingReached(s: State) returns (t: State)
    requires Synchronising(s)
    ensures Reaches(Turns, s, t) && Preparing(t)
  {
    var c := Config(true, false, PacProtocol, Address(true, ""), Unset, false);
    var e := SyncAnswered(true, Some(c));
    PacDownloading(s, c);
    var answered := Step(s, e);
    ScriptDownloaded(answered);
    t := Step(answered, PacDownloaded(true));
    RunOfOne(Turns, s, e);
    OneMore(Turns, s, [e], PacDownloaded(true));
    ReachesBy(Turns, s, [e] + [PacDownloaded(true)], t);
  }

  lemma InstallingReached(s: State) returns (t: State)
    requires Preparing(s)
    ensures Reaches(Turns, s, t) && Installing(t)
  {
    t := Step(s, PacRulesRead(true));
    RunOfOne(Turns, s, PacRulesRead(true));
    ReachesBy(Turns, s, [PacRulesRead(true)], t);
  }

  lemma BypassSwitchedOn(s: State, now: int, shown: Config)
    requires Installing(s)
    ensures Enabled(s, ToggleMessage(now, shown))
    ensures var t := Step(s, ToggleMessage(now, shown)); Live(t.control) && t.control.bypassActive && PacInstall in t.tasks
  {
  }

  lemma InstallationRefused(s: State)
    requires Live(s.control) && PacInstall in s.tasks
    ensures Enabled(s, PacInstalled(false))
    ensures var t := Step(s, PacInstalled(false)); t.control == s.control && PacRetry in t.tasks
  {
  }

  lemma RetryUnderBypass(s: State)
    requires Live(s.control) && s.control.bypassActive && PacRetry in s.tasks
    ensures Enabled(s, PacRetried(true)) && Violated(Step(s, PacRetried(true)))
  {
  }

  function Strike(now: int, shown: Config): seq<Event> {
    [ToggleMessage(now, shown), PacInstalled(false), PacRetried(true)]
  }

  /** From every state in which a script is being installed, a bypass switched on in time is undone by the retry. */
  lemma LateRetryStrikes(s: State, now: int, shown: Config)
    requires Installing(s)
    ensures Run(Turns, s, Strike(now, shown)) && Violated(Final(Turns, s, Strike(now, shown)))
  {
    BypassSwitchedOn(s, now, shown);
    var t := Step(s, ToggleMessage(now, shown));
    InstallationRefused(t);
    var u := Step(t, PacInstalled(false));
    RetryUnderBypass(u);
    var v := Step(u, PacRetried(true));
    RunOfThree(Turns, s, ToggleMessage(now, shown), t, PacInstalled(false), u, PacRetried(true), v);
  }

  /** So the exception is real: from the initial state a run reaches a bypass that is not direct. */
  lemma LateRetryHappens(s: State, now: int, shown: Config)
    requires Initial(s) && s.control.storedEnabled
    ensures exists t :: Reaches(Turns, s, t) && Violated(t)
  {
    var t := SynchronisingReached(s);
    var u := PreparingReached(t);
    var v := InstallingReached(u);
    LateRetryStrikes(v, now, shown);
    var w := Final(Turns, v, Strike(now, shown));
    ReachesBy(Turns, v, Strike(now, shown), w);
    ReachesTransitively(Turns, s, t, u);
    ReachesTransitively(Turns, s, u, v);
    ReachesTransitively(Turns, s, v, w);
  }
}
