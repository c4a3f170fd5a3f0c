/**
 When a PAC script is put in by the service worker (extension/background.js): what becomes of
 scripts under preparation when the proxy is switched off, and scripts from untrusted addresses.
 */
module ScriptSafety {
  import opened Runs
  import opened Wrappers
  import BypassSafety
  import opened ProxyControl

  // ---------------------------------------------------------------- switched off

  /** The proxy is switched off, in the worker or, while none runs, in what it will restore. */
  predicate Off(c: Control) {
    if Live(c) then !c.enabled else !c.storedEnabled
  }

  predicate SoundAndOff(s: State) {
    Sound(s) && Off(s.control)
  }

  predicate Direct(s: State) {
    s.lastWrite == DirectMode
  }

  predicate StaysOff(s: State, e: Event) {
    e != EnableMessage(true)
  }

  /** A suspended call that writes a script as soon as it resumes; it looks at the bypass at most. */
  predicate WritesScript(s: State, e: Event) {
    e == PacRetried(true) || ((e.PacRulesRead? || e == PacBackupRead(false)) && !s.control.bypassActive)
  }

  lemma ControlStaysOff(c: Control, e: Event)
    requires Allowed(c, e) && Invariant(c) && Off(c) && e != EnableMessage(true)
    ensures Off(NextControl(c, e))
    ensures IsPac(e) ==> NextControl(c, e) == c
  {
  }

  lemma PacWhenOff(s: State, e: Event)
    requires IsPac(e) && Direct(s)
    ensures Direct(ResumePac(s, e)) <==> !WritesScript(s, e)
  {
  }

  lemma ApplyingWhenOff(s: State, before: Control, e: Event)
    requires !s.control.enabled && Direct(s)
    requires e.StartupCheck? || e.ToggleMessage? || e.AlarmHandled? || e.Reapplied? || e.SyncAnswered?
    ensures Direct(Act(s, before, e))
  {
  }

  lemma OthersNeverWrite(s: State, before: Control, e: Event)
    requires !IsPac(e)
    requires !e.StartupCheck? && !e.ToggleMessage? && !e.AlarmHandled? && !e.Reapplied? && !e.SyncAnswered?
    ensures Act(s, before, e).lastWrite == s.lastWrite
  {
  }

  lemma AppliesOnlyLive(c: Control, e: Event)
    requires Allowed(c, e) && (e.StartupCheck? || e.ToggleMessage? || e.AlarmHandled? || e.Reapplied? || e.SyncAnswered?)
    ensures Live(c) && Live(NextControl(c, e)) && NextControl(c, e).enabled == c.enabled
  {
  }

  lemma OnlyScriptsUndoOff(s: State, e: Event)
    requires Enabled(s, e) && SoundAndOff(s) && StaysOff(s, e) && Direct(s)
    ensures Direct(Step(s, e)) <==> !WritesScript(s, e)
  {
    ControlStaysOff(s.control, e);
    if IsPac(e) {
      PacWhenOff(Entered(s, e), e);
    } else if e.StartupCheck? || e.ToggleMessage? || e.AlarmHandled? || e.Reapplied? || e.SyncAnswered? {
      AppliesOnlyLive(s.control, e);
      ApplyingWhenOff(Entered(s, e), s.control, e);
    } else {
      OthersNeverWrite(Entered(s, e), s.control, e);
    }
  }

  lemma SoundAndOffKept()
    ensures Keeps(Turns, StaysOff, SoundAndOff)
  {
    forall s, e | SoundAndOff(s) && StaysOff(s, e) && Turns(s, e).Some?
      ensures SoundAndOff(Turns(s, e).value)
    {
      InvariantKept(s.control, e);
      ControlStaysOff(s.control, e);
    }
  }

  /**
   Once the proxy is switched off and the setting is direct, it stays direct until the proxy is
   switched on again, across worker restarts, if and only if no script that was being prepared
   before is still put in.
   */
  lemma OffMeansDirect(s: State, events: seq<Event>)
    requires SoundAndOff(s) && Direct(s)
    requires Run(Turns, s, events) && Only(Turns, StaysOff, s, events)
    ensures Throughout(Turns, Direct, s, events) <==> Never(Turns, WritesScript, s, events)
  {
    SoundAndOffKept();
    forall s, e | SoundAndOff(s) && Direct(s) && StaysOff(s, e) && Turns(s, e).Some?
      ensures Direct(Turns(s, e).value) == !WritesScript(s, e)
    {
      OnlyScriptsUndoOff(s, e);
    }
    GoodUnlessBlamed(Turns, StaysOff, SoundAndOff, Direct, WritesScript, s, events);
  }

  lemma SwitchedOff(s: State)
    requires Live(s.control) && !s.control.bypassActive && PacRules in s.tasks
    ensures Enabled(s, EnableMessage(false))
    ensures var t := Step(s, EnableMessage(false));
            && Live(t.control) && !t.control.enabled && !t.control.bypassActive && PacRules in t.tasks && Reapply in t.tasks
  {
  }

  lemma ReappliedOff(s: State, shown: Config)
    requires Live(s.control) && !s.control.enabled && !s.control.bypassActive && PacRules in s.tasks && Reapply in s.tasks
    ensures Enabled(s, Reapplied(shown))
    ensures var t := Step(s, Reapplied(shown)); t.control == s.control && Direct(t) && PacRules in t.tasks
  {
  }

  lemma ScriptGoesIn(s: State)
    requires Live(s.control) && !s.control.bypassActive && PacRules in s.tasks
    ensures Enabled(s, PacRulesRead(true))
    ensures Step(s, PacRulesRead(true)).control == s.control && Step(s, PacRulesRead(true)).lastWrite == InlinePac
  {
  }

  function Undoing(shown: Config): seq<Event> {
    [EnableMessage(false), Reapplied(shown), PacRulesRead(true)]
  }

  /** From every state in which a script waits for the user rules, switching off is undone by it. */
  lemma ScriptUndoesOff(s: State, shown: Config)
    requires Live(s.control) && !s.control.bypassActive && PacRules in s.tasks
    ensures Run(Turns, s, Undoing(shown))
    ensures var t := Final(Turns, s, Undoing(shown)); Off(t.control) && t.lastWrite == InlinePac
  {
    SwitchedOff(s);
    var t := Step(s, EnableMessage(false));
    ReappliedOff(t, shown);
    var u := Step(t, Reapplied(shown));
    ScriptGoesIn(u);
    var v := Step(u, PacRulesRead(true));
    RunOfThree(Turns, s, EnableMessage(false), t, Reapplied(shown), u, PacRulesRead(true), v);
  }

  /** So the exception is real: from the initial state a run reaches a switched-off proxy that has a script. */
  lemma ScriptUndoesOffHappens(s: State, shown: Config)
    requires Initial(s) && s.control.storedEnabled
    ensures exists t :: Reaches(Turns, s, t) && Off(t.control) && t.lastWrite == InlinePac
  {
    var t := BypassSafety.SynchronisingReached(s);
    var u := BypassSafety.PreparingReached(t);
    ScriptUndoesOff(u, shown);
    var v := Final(Turns, u, Undoing(shown));
    ReachesBy(Turns, u, Undoing(shown), v);
    ReachesTransitively(Turns, s, t, u);
    ReachesTransitively(Turns, s, u, v);
  }

  // ---------------------------------------------------------------- untrusted scripts

  /** Whatever base of these the worker has, the configuration's address is not trusted. */
  ghost predicate Foreign(config: Config, bases: set<Base>) {
    forall b :: b in bases ==> !Trusted(config.address, BaseFor(config, b))
  }

  ghost predicate AllForeign(config: Option<Config>, bases: set<Base>) {
    config.Some? ==> Foreign(config.value, bases)
  }

  predicate NoPacTask(tasks: multiset<Task>) {
    forall task :: task in tasks ==> task.Reapply? || task.SyncReply?
  }

  /**
   The worker's base is one of these and every configuration it knows is foreign to them, no call
   prepares a script, and none is in the browser.
   */
  ghost predicate NoScripts(s: State, bases: set<Base>) {
    && s.serverBase in bases && AllForeign(s.lastConfig, bases) && AllForeign(s.storedConfig, bases)
    && NoPacTask(s.tasks)
    && (s.lastWrite.Untouched? || s.lastWrite.DirectMode? || s.lastWrite.FixedServers?)
  }

  /** The event brings no other base and no configuration that is not foreign. */
  ghost predicate BringsForeign(e: Event, bases: set<Base>) {
    match e
    case ToggleMessage(_, shown) => Foreign(shown, bases)
    case Reapplied(shown) => Foreign(shown, bases)
    case SyncAnswered(_, config) => AllForeign(config, bases)
    case Restored(_, base) => base in bases
    case BaseLearned(base) => base in bases
    case _ => true
  }

  lemma ApplyForeign(s: State, config: Config, forceFetch: bool, bases: set<Base>)
    requires NoScripts(s, bases) && Foreign(config, bases)
    ensures NoScripts(ApplyConfig(s, config, forceFetch), bases)
  {
    assert !Trusted(config.address, BaseFor(config, s.serverBase));
  }

  lemma SettingsForeign(s: State, shown: Config, bases: set<Base>)
    requires NoScripts(s, bases) && Foreign(shown, bases)
    ensures NoScripts(ApplySettings(s, shown), bases)
  {
    ApplyForeign(s, if s.lastConfig.Some? then s.lastConfig.value else shown, false, bases);
  }

  lemma AfterBypassForeign(s: State, bases: set<Base>)
    requires NoScripts(s, bases)
    ensures NoScripts(ApplyAfterBypass(s), bases)
  {
    if s.lastConfig.Some? {
      ApplyForeign(s, s.lastConfig.value, false, bases);
    }
  }

  lemma AnswerForeign(s: State, apply: bool, config: Option<Config>, bases: set<Base>)
    requires NoScripts(s, bases) && AllForeign(config, bases)
    ensures NoScripts(ApplyAnswer(s, apply, config), bases)
  {
    if config.Some? {
      ApplyForeign(s.(lastConfig := config, storedConfig := config), config.value, true, bases);
    }
  }

  /** The turns that apply a configuration. */
  lemma ApplyingForeign(s: State, before: Control, e: Event, bases: set<Base>)
    requires NoScripts(s, bases) && BringsForeign(e, bases)
    requires e.StartupCheck? || e.ToggleMessage? || e.AlarmHandled? || e.Reapplied? || e.SyncAnswered?
    ensures NoScripts(Act(s, before, e), bases)
  {
    AfterBypassForeign(s, bases);
    match e
    case ToggleMessage(_, shown) => SettingsForeign(s, shown, bases);
    case Reapplied(shown) => SettingsForeign(s, shown, bases);
    case SyncAnswered(apply, config) => AnswerForeign(s, apply, config, bases);
    case _ =>
  }

  lemma OthersForeign(s: State, before: Control, e: Event, bases: set<Base>)
    requires NoScripts(s, bases) && BringsForeign(e, bases) && !IsPac(e)
    requires !e.StartupCheck? && !e.ToggleMessage? && !e.AlarmHandled? && !e.Reapplied? && !e.SyncAnswered?
    ensures NoScripts(Act(s, before, e), bases)
  {
  }

  lemma EnteredForeign(s: State, e: Event, bases: set<Base>)
    requires Enabled(s, e) && NoScripts(s, bases)
    ensures NoScripts(Entered(s, e), bases)
  {
    var t := Entered(s, e);
    assert NoPacTask(t.tasks) by {
      assert forall task :: task in t.tasks ==> task in s.tasks;
    }
  }

  lemma NoPacResumes(s: State, e: Event)
    requires Enabled(s, e) && NoPacTask(s.tasks)
    ensures !IsPac(e)
  {
  }

  lemma NoScriptsKept(s: State, e: Event, bases: set<Base>)
    requires Enabled(s, e) && NoScripts(s, bases) && BringsForeign(e, bases)
    ensures NoScripts(Step(s, e), bases)
  {
    NoPacResumes(s, e);
    EnteredForeign(s, e, bases);
    if e.StartupCheck? || e.ToggleMessage? || e.AlarmHandled? || e.Reapplied? || e.SyncAnswered? {
      ApplyingForeign(Entered(s, e), s.control, e, bases);
    } else {
      OthersForeign(Entered(s, e), s.control, e, bases);
    }
  }

  /**
   As long as every address that arrives is plain http and of another origin than every base the
   worker has meanwhile, no script is ever prepared or put in, in any run, across restarts and
   changes of the base.
   */
  lemma UntrustedScriptsStayOut(s: State, events: seq<Event>, bases: set<Base>)
    requires NoScripts(s, bases) && Run(Turns, s, events)
    requires Only(Turns, (s, e) => BringsForeign(e, bases), s, events)
    ensures NoScripts(Final(Turns, s, events), bases)
  {
    var allowed := (s: State, e: Event) => BringsForeign(e, bases);
    var none := (s: State) => NoScripts(s, bases);
    forall s, e | none(s) && allowed(s, e) && Turns(s, e).Some?
      ensures none(Turns(s, e).value)
    {
      NoScriptsKept(s, e, bases);
    }
    KeptAlong(Turns, allowed, none, s, events);
  }
}
