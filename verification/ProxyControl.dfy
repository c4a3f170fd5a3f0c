/**
 The service worker's hold on the browser's proxy setting (extension/background.js): the
 temporary bypass, its expiry alarm, worker restarts, and every suspended asynchronous call
 that may still write the setting.

 One step is one turn of the event loop. A call suspended at an `await` is a task; awaits in a
 row that change nothing of this state are one suspension. Requests, storage reads and setting
 writes answer as they please. A synchronisation may start in any turn: messages, alarms,
 startup and the ends of other handlers all start one. Restoring the stored state finishes
 before other events run.
 */
module ProxyControl {
  import opened Runs
  import opened Wrappers

  datatype Protocol = DirectProtocol | PacProtocol | ServerProtocol

  /** The address of a script, as far as URL parsing takes it apart; secure means https. */
  datatype Address = NoAddress | BadAddress | Address(secure: bool, origin: string)

  /** The server an address is compared with: none is set, it does not parse, or its origin. */
  datatype Base = Unset | BadBase | Origin(origin: string)

  /** The parts of a configuration that decide how it is applied. */
  datatype Config = Config(enabled: bool, killSwitch: bool, protocol: Protocol, address: Address, ownBase: Base, fixedMode: bool)

  /** isValidPacUrl: a script may come over https, or from the server itself. */
  predicate Trusted(address: Address, base: Base) {
    address.Address? && (address.secure || base == Origin(address.origin))
  }

  /** The base a configuration's address is checked against, given the worker's own. */
  function BaseFor(config: Config, current: Base): Base {
    if config.ownBase.Unset? then current else config.ownBase
  }

  /** The last value given to chrome.proxy.settings.set. */
  datatype Write = Untouched | DirectMode | FixedServers | InlinePac | PacByUrl | LastKnownGoodPac

  datatype Phase =
    | Stopped
    | Restoring
    | ArmingSync
    | Checking(sawAlarm: bool)   // chrome.alarms.get has been asked; its answer is on the way
    | Ready

  /** Where a suspended call resumes. */
  datatype Task =
    | Reapply                    // SET_ENABLED or SAVE_USER_RULES, waiting for the store
    | SyncReply(apply: bool)     // a synchronisation, waiting for the server
    | PacDownload                // applyPacScript, waiting for the script
    | PacBackup                  // applyPacScript, waiting for the stored script
    | PacRules                   // applyPacScript, waiting for the user rules
    | PacInstall                 // applyPacScript, waiting for the browser to accept the setting
    | PacRetry                   // applyPacScript after a refusal, waiting for the stored script

  /**
   What governs the bypass: the worker's phase and flags, the flags as chrome.storage.local
   keeps them across restarts, the alarm, and how many alarm handlers wait for the restore.
   */
  datatype Control = Control(
    phase: Phase,
    bypassActive: bool,
    bypassExpiresAt: Option<int>,
    enabled: bool,
    storedActive: bool,
    storedExpiresAt: Option<int>,
    storedEnabled: bool,
    alarmArmed: bool,
    alarmHandlers: nat)

  datatype State = State(
    control: Control,
    lastConfig: Option<Config>,
    storedConfig: Option<Config>,
    serverBase: Base,
    cachedPac: bool,
    lastWrite: Write,
    tasks: multiset<Task>)

  const BYPASS_TIMEOUT_MS := 15 * 60 * 1000

  predicate Live(c: Control) {
    c.phase.ArmingSync? || c.phase.Checking? || c.phase.Ready?
  }

  // ---------------------------------------------------------------- events

  datatype Event =
    | Idle
    | Wake
    | Kill
    | AlarmLost                              // a browser restart may drop the alarm
    | AlarmFires
    | Restored(cachedPac: bool, serverBase: Base)
    | SyncAlarmArmed
    | StartupCheck
    | ToggleMessage(now: int, shown: Config)
    | EnableMessage(enabled: bool)
    | RulesMessage
    | SyncStarts(force: bool, apply: bool)
    | BaseLearned(serverBase: Base)          // a synchronisation has read the server's address
    | AlarmHandled
    | Reapplied(shown: Config)
    | SyncAnswered(apply: bool, config: Option<Config>)
    | PacDownloaded(text: bool)
    | PacBackupRead(found: bool)
    | PacRulesRead(inline: bool)
    | PacInstalled(accepted: bool)
    | PacRetried(found: bool)

  /** The suspended call an event resumes. */
  function ResumedTask(e: Event): Option<Task> {
    match e
    case Reapplied(_) => Some(Reapply)
    case SyncAnswered(apply, _) => Some(SyncReply(apply))
    case PacDownloaded(_) => Some(PacDownload)
    case PacBackupRead(_) => Some(PacBackup)
    case PacRulesRead(_) => Some(PacRules)
    case PacInstalled(_) => Some(PacInstall)
    case PacRetried(_) => Some(PacRetry)
    case _ => None
  }

  predicate Allowed(c: Control, e: Event) {
    match e
    case Idle => true
    case Wake => c.phase == Stopped
    case Kill => c.phase != Stopped
    case AlarmLost => c.phase == Stopped
    case AlarmFires => c.alarmArmed
    case Restored(_, _) => c.phase == Restoring
    case SyncAlarmArmed => c.phase == ArmingSync
    case StartupCheck => c.phase.Checking?
    case AlarmHandled => Live(c) && c.alarmHandlers > 0
    case _ => Live(c)
  }

  predicate Enabled(s: State, e: Event) {
    Allowed(s.control, e) && (ResumedTask(e).Some? ==> ResumedTask(e).value in s.tasks)
  }

  // ---------------------------------------------------------------- the bypass and its end

  function Persist(c: Control): Control {
    c.(storedActive := c.bypassActive, storedExpiresAt := c.bypassExpiresAt, storedEnabled := c.enabled)
  }

  function EndBypass(c: Control): Control {
    Persist(c.(bypassActive := false, bypassExpiresAt := None))
  }

  function Toggle(c: Control, now: int): Control {
    if c.bypassActive then EndBypass(c.(alarmArmed := false))
    else Persist(c.(bypassActive := true, bypassExpiresAt := Some(now + BYPASS_TIMEOUT_MS), alarmArmed := true))
  }

  /** The startup check found no alarm although the restored state has a bypass. */
  predicate CheckEndsBypass(c: Control) {
    c.phase.Checking? && !c.phase.sawAlarm && c.bypassActive
  }

  function NextControl(c: Control, e: Event): Control
    requires Allowed(c, e)
  {
    match e
    case Wake => c.(phase := Restoring)
    case Kill => c.(phase := Stopped, bypassActive := false, bypassExpiresAt := None, enabled := true, alarmHandlers := 0)
    case AlarmLost => c.(alarmArmed := false)
    case AlarmFires =>
      c.(alarmArmed := false, alarmHandlers := c.alarmHandlers + 1, phase := if c.phase == Stopped then Restoring else c.phase)
    case Restored(_, _) =>
      c.(phase := ArmingSync, bypassActive := c.storedActive, bypassExpiresAt := c.storedExpiresAt, enabled := c.storedEnabled)
    case SyncAlarmArmed => c.(phase := Checking(c.alarmArmed))
    case StartupCheck => if CheckEndsBypass(c) then EndBypass(c.(phase := Ready)) else c.(phase := Ready)
    case ToggleMessage(now, _) => Toggle(c, now)
    case EnableMessage(enabled) => Persist(c.(enabled := enabled))
    case AlarmHandled => EndBypass(c.(alarmHandlers := c.alarmHandlers - 1))
    case SyncAnswered(_, Some(_)) => Persist(c)
    case _ => c
  }

  // ---------------------------------------------------------------- writing the setting

  /** What a piece of a turn may do to the setting: under a bypass, nothing but make it direct. */
  predicate RespectsBypass(s: State, t: State) {
    t.control == s.control && (s.control.bypassActive ==> t.lastWrite == s.lastWrite || t.lastWrite == DirectMode)
  }

  function Suspend(s: State, task: Task): State {
    s.(tasks := s.tasks + multiset{task})
  }

  function Resumed(s: State, task: Task): State {
    s.(tasks := s.tasks - multiset{task})
  }

  /** applyPacScript from its last check of the bypass flag: the script goes in, or nothing does. */
  function InstallPac(s: State, inline: bool): (t: State)
    ensures RespectsBypass(s, t)
  {
    if s.control.bypassActive then s
    else Suspend(s.(lastWrite := if inline then InlinePac else PacByUrl), PacInstall)
  }

  /** applyPacScript once it knows whether it has a script text. */
  function PreparePac(s: State, haveText: bool): (t: State)
    ensures RespectsBypass(s, t)
  {
    if s.control.bypassActive then s
    else if haveText then Suspend(s, PacRules)
    else InstallPac(s, false)
  }

  /** applyPacScript up to its first wait. */
  function StartPac(s: State, config: Config, forceFetch: bool): (t: State)
    ensures RespectsBypass(s, t)
  {
    if !Trusted(config.address, BaseFor(config, s.serverBase)) then s
    else if !forceFetch && s.cachedPac then PreparePac(s, true) else Suspend(s, PacDownload)
  }

  function ApplyConfig(s: State, config: Config, forceFetch: bool): (t: State)
    ensures RespectsBypass(s, t)
    ensures s.control.bypassActive || !s.control.enabled ==> t.lastWrite == DirectMode
  {
    var t := s.(lastConfig := Some(config));
    var off := config.killSwitch || !config.enabled || !t.control.enabled || config.protocol == DirectProtocol;
    if t.control.bypassActive || off then t.(lastWrite := DirectMode)
    else if !config.address.NoAddress? && (config.protocol == PacProtocol || !config.fixedMode) then
      if Trusted(config.address, BaseFor(config, t.serverBase)) then StartPac(t, config, forceFetch) else t
    else t.(lastWrite := FixedServers)
  }

  /** applyProxySettings: the last configuration, or one made up from the shown state. */
  function ApplySettings(s: State, shown: Config): (t: State)
    ensures RespectsBypass(s, t)
  {
    ApplyConfig(s, if s.lastConfig.Some? then s.lastConfig.value else shown, false)
  }

  /** Without a configuration the recovery code calls a function that does not exist, and its error is swallowed. */
  function ApplyAfterBypass(s: State): (t: State)
    ensures RespectsBypass(s, t)
  {
    if s.lastConfig.Some? then ApplyConfig(s, s.lastConfig.value, false) else s
  }

  function ApplyAnswer(s: State, apply: bool, config: Option<Config>): (t: State)
    ensures RespectsBypass(s, t)
  {
    match config
    case None => s
    case Some(c) =>
      var t := s.(lastConfig := config, storedConfig := config);
      if apply then ApplyConfig(t, c, true) else t
  }

  function UseDownload(s: State, text: bool): (t: State)
    ensures RespectsBypass(s, t)
  {
    if text then PreparePac(s.(cachedPac := true), true)
    else if s.cachedPac then PreparePac(s, true)
    else Suspend(s, PacBackup)
  }

  // ---------------------------------------------------------------- turns

  predicate IsPac(e: Event) {
    e.PacDownloaded? || e.PacBackupRead? || e.PacRulesRead? || e.PacInstalled? || e.PacRetried?
  }

  /** A suspended applyPacScript goes on. */
  function ResumePac(s: State, e: Event): (t: State)
    requires IsPac(e)
    ensures t.control == s.control
  {
    match e
    case PacDownloaded(text) => UseDownload(s, text)
    case PacBackupRead(found) => PreparePac(s, found)
    case PacRulesRead(inline) => InstallPac(s, inline)
    case PacInstalled(accepted) => if accepted then s else Suspend(s, PacRetry)
    case PacRetried(found) => if found then s.(lastWrite := LastKnownGoodPac) else s
  }

  /** Everything in a turn but the control part, which has already taken its step. */
  function Act(s: State, before: Control, e: Event): (t: State)
    ensures t.control == s.control
  {
    if IsPac(e) then ResumePac(s, e) else
    match e
    case Kill => s.(lastConfig := None, cachedPac := false, tasks := multiset{})
    case Restored(cachedPac, serverBase) => s.(lastConfig := s.storedConfig, cachedPac := cachedPac, serverBase := serverBase)
    case StartupCheck => if CheckEndsBypass(before) then ApplyAfterBypass(s) else s
    case ToggleMessage(_, shown) => if s.control.bypassActive then s.(lastWrite := DirectMode) else ApplySettings(s, shown)
    case EnableMessage(_) => Suspend(s, Reapply)
    case RulesMessage => Suspend(s, Reapply)
    case SyncStarts(force, apply) => Suspend(if force then s.(cachedPac := false) else s, SyncReply(apply))
    case BaseLearned(serverBase) => s.(serverBase := serverBase)
    case AlarmHandled => ApplyAfterBypass(s)
    case Reapplied(shown) => ApplySettings(s, shown)
    case SyncAnswered(apply, config) => ApplyAnswer(s, apply, config)
    case _ => s
  }

  /** The state a turn acts on: its task is resumed, its control part has taken its step. */
  function Entered(s: State, e: Event): (t: State)
    requires Enabled(s, e)
    ensures t == s.(control := NextControl(s.control, e), tasks := t.tasks) && t.tasks <= s.tasks
  {
    var r := match ResumedTask(e) case Some(task) => Resumed(s, task) case None => s;
    r.(control := NextControl(s.control, e))
  }

  function Step(s: State, e: Event): (t: State)
    requires Enabled(s, e)
    ensures t.control == NextControl(s.control, e)
  {
    Act(Entered(s, e), s.control, e)
  }

  predicate Initial(s: State) {
    var c := s.control;
    && c.phase == Stopped && !c.bypassActive && c.bypassExpiresAt == None && !c.alarmArmed && c.alarmHandlers == 0
    && !c.storedActive && c.storedExpiresAt == None && s.tasks == multiset{}
  }

  // ---------------------------------------------------------------- invariants

  /** Whether a bypass is in force, in the worker or, while none runs, in what it will restore. */
  predicate BypassOn(c: Control) {
    if Live(c) then c.bypassActive else c.storedActive
  }

  /** The store mirrors the live worker, and the flag is set exactly while an expiry is. */
  predicate Coherent(c: Control) {
    && (c.storedActive <==> c.storedExpiresAt.Some?)
    && (Live(c) ==> c.bypassActive == c.storedActive && c.bypassExpiresAt == c.storedExpiresAt && c.enabled == c.storedEnabled)
    && (!Live(c) ==> !c.bypassActive && c.bypassExpiresAt == None)
  }

  /** Something is under way that will end a bypass: the alarm, its handler, or the startup check. */
  predicate EndScheduled(c: Control) {
    || c.alarmArmed
    || c.alarmHandlers > 0
    || c.phase == Stopped || c.phase == Restoring || c.phase == ArmingSync || c.phase == Checking(false)
  }

  predicate Invariant(c: Control) {
    Coherent(c) && (BypassOn(c) ==> EndScheduled(c))
  }

  lemma InvariantKept(c: Control, e: Event)
    requires Allowed(c, e) && Invariant(c)
    ensures Invariant(NextControl(c, e))
  {
  }

  // ---------------------------------------------------------------- runs

  /** The worker as a transition system. */
  function Turns(s: State, e: Event): Option<State> {
    if Enabled(s, e) then Some(Step(s, e)) else None
  }

  predicate Sound(s: State) {
    Invariant(s.control)
  }

  lemma SoundKept()
    ensures Keeps(Turns, Anything(), Sound)
  {
    forall s, e | Sound(s) && Turns(s, e).Some?
      ensures Sound(Turns(s, e).value)
    {
      InvariantKept(s.control, e);
    }
  }

  /** A worker that has never run satisfies all of it. */
  lemma InitiallySound(s: State)
    requires Initial(s)
    ensures Sound(s) && !BypassOn(s.control)
  {
  }

  /**
   In every state reachable from a sound one, such as the initial one, the bypass flag is set
   exactly while an expiry is, and a bypass in force always has its end scheduled, whatever
   interrupts the worker.
   */
  lemma BypassIsTemporary(s: State, events: seq<Event>)
    requires Sound(s) && Run(Turns, s, events)
    ensures var c := Final(Turns, s, events).control;
            && (c.bypassActive <==> c.bypassExpiresAt.Some?)
            && (BypassOn(c) ==> EndScheduled(c))
  {
    SoundKept();
    InvariantHolds(Turns, Sound, s, events);
  }
}
