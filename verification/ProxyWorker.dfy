/**
 The service worker's handlers as they are written, assigning the worker's variables in
 place (extension/background.js). Each method is one turn, or a piece of one, and is proved to
 take exactly the step that ProxyControl gives its event.
 */
module ProxyWorker {
  import opened Wrappers
  import opened ProxyControl

  // The turns of the transition system, taken apart into the pieces that the methods below make.

  lemma EnteredPac(s: State, e: Event)
    requires Enabled(s, e) && IsPac(e)
    ensures Entered(s, e) == Resumed(s, ResumedTask(e).value)
  {
  }

  lemma ActPac(s: State, before: Control, e: Event)
    requires IsPac(e)
    ensures Act(s, before, e) == ResumePac(s, e)
  {
  }

  lemma PacTurn(s: State, e: Event)
    requires Enabled(s, e) && IsPac(e)
    ensures Step(s, e) == ResumePac(Resumed(s, ResumedTask(e).value), e)
  {
    EnteredPac(s, e);
    ActPac(Entered(s, e), s.control, e);
  }

  lemma ReapplyTurn(s: State, shown: Config)
    requires Enabled(s, Reapplied(shown))
    ensures Step(s, Reapplied(shown)) == ApplySettings(Resumed(s, Reapply), shown)
  {
    assert NextControl(s.control, Reapplied(shown)) == s.control;
  }

  lemma AnswerTurn(s: State, apply: bool, config: Option<Config>)
    requires Enabled(s, SyncAnswered(apply, config))
    ensures var control := if config.Some? then Persist(s.control) else s.control;
            Step(s, SyncAnswered(apply, config)) == ApplyAnswer(Resumed(s, SyncReply(apply)).(control := control), apply, config)
  {
    assert NextControl(s.control, SyncAnswered(apply, config)) == if config.Some? then Persist(s.control) else s.control;
  }

  lemma MessageTurn(s: State, on: bool)
    requires Enabled(s, EnableMessage(on))
    ensures Step(s, EnableMessage(on)) == Suspend(s.(control := Persist(s.control.(enabled := on))), Reapply)
  {
    assert NextControl(s.control, EnableMessage(on)) == Persist(s.control.(enabled := on));
  }

  lemma AlarmTurn(s: State)
    requires Enabled(s, AlarmHandled)
    ensures Step(s, AlarmHandled)
         == ApplyAfterBypass(s.(control := EndBypass(s.control.(alarmHandlers := s.control.alarmHandlers - 1))))
  {
    assert NextControl(s.control, AlarmHandled) == EndBypass(s.control.(alarmHandlers := s.control.alarmHandlers - 1));
  }

  class Worker {
    /** PEC_ALLOW_MANUAL_BYPASS, fixed when the extension is built. */
    const allowManualBypass: bool

    var phase: Phase
    var bypassActive: bool
    var bypassExpiresAt: Option<int>
    var enabled: bool
    var storedActive: bool
    var storedExpiresAt: Option<int>
    var storedEnabled: bool
    var alarmArmed: bool
    var alarmHandlers: nat
    var lastConfig: Option<Config>
    var storedConfig: Option<Config>
    var serverBase: Base
    var cachedPac: bool
    var lastWrite: Write
    var tasks: multiset<Task>

    function Flags(): Control
      reads this
    {
      Control(phase, bypassActive, bypassExpiresAt, enabled, storedActive, storedExpiresAt, storedEnabled, alarmArmed, alarmHandlers)
    }

    function Value(): State
      reads this
    {
      State(Flags(), lastConfig, storedConfig, serverBase, cachedPac, lastWrite, tasks)
    }

    // -------------------------------------------------------------- pieces of turns

    method PersistProxyState()
      modifies this`storedActive, this`storedExpiresAt, this`storedEnabled
      ensures Flags() == Persist(old(Flags()))
    {
      storedActive := bypassActive;
      storedExpiresAt := bypassExpiresAt;
      storedEnabled := enabled;
    }

    method Await(task: Task)
      modifies this`tasks
      ensures Value() == Suspend(old(Value()), task)
    {
      tasks := tasks + multiset{task};
    }

    method Resume(task: Task)
      modifies this`tasks
      ensures Value() == Resumed(old(Value()), task)
    {
      tasks := tasks - multiset{task};
    }

    /** The last part of applyPacScript. */
    method Install(inline: bool)
      modifies this`lastWrite, this`tasks
      ensures Value() == InstallPac(old(Value()), inline)
    {
      if bypassActive {
        return;
      }
      lastWrite := if inline then InlinePac else PacByUrl;
      Await(PacInstall);
    }

    /** The part of applyPacScript that follows the search for a script text. */
    method Prepare(haveText: bool)
      modifies this`lastWrite, this`tasks
      ensures Value() == PreparePac(old(Value()), haveText)
    {
      if bypassActive {
        return;
      }
      if haveText {
        Await(PacRules);
      } else {
        Install(false);
      }
    }

    method ApplyPacScript(config: Config, forceFetch: bool)
      modifies this`lastWrite, this`tasks
      ensures Value() == StartPac(old(Value()), config, forceFetch)
    {
      var base := if config.ownBase.Unset? then serverBase else config.ownBase;
      if !Trusted(config.address, base) {
        return;
      }
      if !forceFetch && cachedPac {
        Prepare(true);
      } else {
        Await(PacDownload);
      }
    }

    method ApplyProxyConfig(config: Config, forcePacFetch: bool)
      modifies this`lastConfig, this`lastWrite, this`tasks
      ensures Value() == ApplyConfig(old(Value()), config, forcePacFetch)
    {
      lastConfig := Some(config);
      var isEnabled := config.enabled && enabled;
      if bypassActive || config.killSwitch || !isEnabled || config.protocol == DirectProtocol {
        lastWrite := DirectMode;
        return;
      }
      var hasPacUrl := !config.address.NoAddress?;
      var usePac := config.protocol == PacProtocol || (hasPacUrl && !config.fixedMode);
      if usePac && hasPacUrl {
        if !Trusted(config.address, BaseFor(config, serverBase)) {
          return;
        }
        ApplyPacScript(config, forcePacFetch);
        return;
      }
      lastWrite := FixedServers;
    }

    method ApplyProxySettings(shown: Config)
      modifies this`lastConfig, this`lastWrite, this`tasks
      ensures Value() == ApplySettings(old(Value()), shown)
    {
      if lastConfig.Some? {
        ApplyProxyConfig(lastConfig.value, false);
      } else {
        ApplyProxyConfig(shown, false);
      }
    }

    method ExpireBypass()
      modifies this
      ensures Value() == ApplyAfterBypass(old(Value()).(control := EndBypass(old(Flags()))))
    {
      bypassActive := false;
      bypassExpiresAt := None;
      PersistProxyState();
      if lastConfig.Some? {
        ApplyProxyConfig(lastConfig.value, false);
      }
    }

    method UseText(text: bool)
      modifies this`cachedPac, this`lastWrite, this`tasks
      ensures Value() == UseDownload(old(Value()), text)
    {
      var haveText := text;
      if text {
        cachedPac := true;
      }
      if !haveText && cachedPac {
        haveText := true;
      }
      if haveText {
        Prepare(true);
      } else {
        Await(PacBackup);
      }
    }

    method UseAnswer(apply: bool, config: Config)
      modifies this
      ensures Value() == ApplyAnswer(old(Value()).(control := Persist(old(Flags()))), apply, Some(config))
    {
      lastConfig := Some(config);
      storedConfig := Some(config);
      PersistProxyState();
      if apply {
        ApplyProxyConfig(config, true);
      }
    }

    method SwitchEnabled(on: bool)
      modifies this`enabled, this`storedActive, this`storedExpiresAt, this`storedEnabled
      ensures Flags() == Persist(old(Flags()).(enabled := on))
    {
      enabled := on;
      PersistProxyState();
    }

    method PutLastKnownGood(found: bool)
      modifies this`lastWrite
      ensures Value() == ResumePac(old(Value()), PacRetried(found))
    {
      if found {
        lastWrite := LastKnownGoodPac;
      }
    }

    method FlipBypass(now: int)
      modifies this`bypassActive, this`bypassExpiresAt, this`alarmArmed, this`storedActive, this`storedExpiresAt, this`storedEnabled
      ensures Flags() == Toggle(old(Flags()), now)
    {
      bypassActive := !bypassActive;
      if bypassActive {
        bypassExpiresAt := Some(now + BYPASS_TIMEOUT_MS);
        alarmArmed := true;
      } else {
        bypassExpiresAt := None;
        alarmArmed := false;
      }
      PersistProxyState();
    }

    // -------------------------------------------------------------- turns

    /** initStartup after the restore: the answer to the question about the alarm. */
    method CheckAtStartup()
      requires Enabled(Value(), StartupCheck)
      modifies this
      ensures Value() == Step(old(Value()), StartupCheck)
    {
      var sawAlarm := phase.sawAlarm;
      phase := Ready;
      if !sawAlarm && bypassActive {
        ExpireBypass();
      }
    }

    method OnBypassAlarm()
      requires Enabled(Value(), AlarmHandled)
      modifies this
      ensures Value() == Step(old(Value()), AlarmHandled)
    {
      AlarmTurn(Value());
      alarmHandlers := alarmHandlers - 1;
      ExpireBypass();
    }

    method OnToggleBypass(now: int, shown: Config)
      requires Enabled(Value(), ToggleMessage(now, shown))
      modifies this
      ensures Value() == if allowManualBypass then Step(old(Value()), ToggleMessage(now, shown)) else old(Value())
    {
      if !allowManualBypass {
        return;
      }
      FlipBypass(now);
      if bypassActive {
        lastWrite := DirectMode;
      } else {
        ApplyProxySettings(shown);
      }
    }

    method OnSetEnabled(on: bool)
      requires Enabled(Value(), EnableMessage(on))
      modifies this
      ensures Value() == if allowManualBypass || on then Step(old(Value()), EnableMessage(on)) else old(Value())
    {
      MessageTurn(Value(), on);
      if !allowManualBypass && !on {
        return;
      }
      SwitchEnabled(on);
      Await(Reapply);
    }

    method OnSyncAnswer(apply: bool, config: Option<Config>)
      requires Enabled(Value(), SyncAnswered(apply, config))
      modifies this
      ensures Value() == Step(old(Value()), SyncAnswered(apply, config))
    {
      AnswerTurn(Value(), apply, config);
      Resume(SyncReply(apply));
      if config.Some? {
        UseAnswer(apply, config.value);
      }
    }

    method OnPacDownloaded(text: bool)
      requires Enabled(Value(), PacDownloaded(text))
      modifies this
      ensures Value() == Step(old(Value()), PacDownloaded(text))
    {
      PacTurn(Value(), PacDownloaded(text));
      Resume(PacDownload);
      UseText(text);
    }

    method OnPacBackupRead(found: bool)
      requires Enabled(Value(), PacBackupRead(found))
      modifies this
      ensures Value() == Step(old(Value()), PacBackupRead(found))
    {
      PacTurn(Value(), PacBackupRead(found));
      Resume(PacBackup);
      Prepare(found);
    }

    method OnPacRulesRead(inline: bool)
      requires Enabled(Value(), PacRulesRead(inline))
      modifies this
      ensures Value() == Step(old(Value()), PacRulesRead(inline))
    {
      PacTurn(Value(), PacRulesRead(inline));
      Resume(PacRules);
      Install(inline);
    }

    method OnPacInstalled(accepted: bool)
      requires Enabled(Value(), PacInstalled(accepted))
      modifies this
      ensures Value() == Step(old(Value()), PacInstalled(accepted))
    {
      PacTurn(Value(), PacInstalled(accepted));
      Resume(PacInstall);
      if !accepted {
        Await(PacRetry);
      }
    }

    method OnReapply(shown: Config)
      requires Enabled(Value(), Reapplied(shown))
      modifies this
      ensures Value() == Step(old(Value()), Reapplied(shown))
    {
      ReapplyTurn(Value(), shown);
      Resume(Reapply);
      ApplyProxySettings(shown);
    }

    method OnPacRefused(found: bool)
      requires Enabled(Value(), PacRetried(found))
      modifies this
      ensures Value() == Step(old(Value()), PacRetried(found))
    {
      PacTurn(Value(), PacRetried(found));
      Resume(PacRetry);
      PutLastKnownGood(found);
    }
  }
}
