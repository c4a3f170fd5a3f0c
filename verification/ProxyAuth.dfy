/**
 Answering proxy authentication challenges (extension/background.js, the onAuthRequired
 handler): credentials from memory, from session storage or from a synchronisation, a limit on
 the attempts per request, and a bounded record of the requests seen.

 One step is one turn of the event loop. The browser raises no second challenge for a request
 while one is unanswered. Synchronisations and what session storage holds are up to the
 environment; credentials are known by the time they were fetched.
 */
module ProxyAuth {
  import opened Runs
  import opened Wrappers
  import SyncQueue

  type Id = string

  datatype Entry = Entry(count: nat, timestamp: int)

  /** For what a handler waits; forced is what it passes to syncWithServer. */
  datatype Waiting = SessionRead | Syncing(forced: bool)

  /** A challenge whose answer is still on the way, and when it came. */
  datatype Pending = Pending(id: Id, wait: Waiting, asked: int)

  /** What the browser was told about a challenge: credentials, or nothing. */
  datatype Answer = Answer(challenge: nat, id: Id, credentials: bool)

  datatype State = State(seen: map<Id, Entry>, memory: Option<int>, pending: map<nat, Pending>, challenges: nat, log: seq<Answer>)

  const MAX_AUTH_ATTEMPTS := 2
  const MAX_SEEN := 100
  const ENTRY_MS := 60000

  /** What the handler finds when a challenge arrives. */
  datatype Challenge = Challenge(id: Id, isProxy: bool, now: int, hasSessionStore: bool)

  datatype Event =
    | Challenged(c: Challenge)
    | MemorySet(memory: Option<int>)                    // by a synchronisation, or at startup
    | SessionAnswered(n: nat, stored: Option<int>)
    | SyncAnswered(n: nat, ok: bool)

  predicate IsPending(s: State, id: Id) {
    exists n :: n in s.pending && s.pending[n].id == id
  }

  predicate Enabled(s: State, e: Event) {
    match e
    case Challenged(c) => !IsPending(s, c.id)
    case SessionAnswered(n, _) => n in s.pending && s.pending[n].wait == SessionRead
    case SyncAnswered(n, _) => n in s.pending && s.pending[n].wait.Syncing?
    case MemorySet(_) => true
  }

  /** Credentials can be supplied while they are younger than their time to live. */
  predicate ValidAt(creds: Option<int>, now: int) {
    creds.Some? && now - creds.value < SyncQueue.TTL_MS
  }

  // ---------------------------------------------------------------- the handler

  function Pruned(seen: map<Id, Entry>, now: int): map<Id, Entry> {
    map id | id in seen && now - seen[id].timestamp <= ENTRY_MS :: seen[id]
  }

  function Recorded(seen: map<Id, Entry>, c: Challenge): map<Id, Entry> {
    var kept := if |seen| > MAX_SEEN then Pruned(seen, c.now) else seen;
    kept[c.id := Entry((if c.id in kept then kept[c.id].count else 0) + 1, c.now)]
  }

  function Tell(s: State, n: nat, id: Id, credentials: bool): State {
    s.(pending := s.pending - {n}, log := s.log + [Answer(n, id, credentials)])
  }

  function Keep(s: State, n: nat, id: Id, wait: Waiting, asked: int): State {
    s.(pending := s.pending[n := Pending(id, wait, asked)])
  }

  function Forget(s: State, id: Id): State {
    s.(seen := s.seen - {id})
  }

  /** The handler once the challenge is recorded. */
  function Respond(s: State, n: nat, c: Challenge, attempts: nat): State {
    if attempts > MAX_AUTH_ATTEMPTS then Tell(Forget(s, c.id), n, c.id, false)
    else if attempts == 1 && ValidAt(s.memory, c.now) then Tell(s, n, c.id, true)
    else if attempts == 1 && c.hasSessionStore then Keep(s, n, c.id, SessionRead, c.now)
    else Keep(s, n, c.id, Syncing(attempts > 1), c.now)
  }

  function Handle(s: State, c: Challenge): State {
    var n := s.challenges;
    var t := s.(challenges := n + 1);
    if !c.isProxy then Tell(t, n, c.id, false)
    else
      var seen := Recorded(s.seen, c);
      Respond(t.(seen := seen), n, c, seen[c.id].count)
  }

  function Step(s: State, e: Event): State
    requires Enabled(s, e)
  {
    match e
    case Challenged(c) => Handle(s, c)
    case MemorySet(memory) => s.(memory := memory)
    case SessionAnswered(n, stored) =>
      var p := s.pending[n];
      if ValidAt(stored, p.asked) then Tell(s.(memory := stored), n, p.id, true) else Keep(s, n, p.id, Syncing(false), p.asked)
    case SyncAnswered(n, ok) =>
      var id := s.pending[n].id;
      if ok then Tell(s, n, id, true) else Tell(Forget(s, id), n, id, false)
  }

  predicate Initial(s: State) {
    s == State(map[], None, map[], 0, [])
  }

  /** The handler as a transition system. */
  function Turns(s: State, e: Event): Option<State> {
    if Enabled(s, e) then Some(Step(s, e)) else None
  }

  // ---------------------------------------------------------------- exactly one answer

  /** How often challenge n was answered. */
  function Times(log: seq<Answer>, n: nat): nat {
    if log == [] then 0
    else (if log[|log| - 1].challenge == n then 1 else 0) + Times(log[..|log| - 1], n)
  }

  lemma TimesNext(log: seq<Answer>, a: Answer, n: nat)
    ensures Times(log + [a], n) == Times(log, n) + if a.challenge == n then 1 else 0
  {
    assert (log + [a])[..|log|] == log;
  }

  /** Challenge n is unanswered while its handler waits and has one answer afterwards. */
  predicate AnsweredOnce(s: State, n: nat) {
    && (n in s.pending ==> n < s.challenges)
    && Times(s.log, n) == if n < s.challenges && n !in s.pending then 1 else 0
  }

  /** The challenge an event is about, and its request. */
  function Number(s: State, e: Event): nat
    requires !e.MemorySet?
  {
    if e.Challenged? then s.challenges else e.n
  }

  function Subject(s: State, e: Event): Id
    requires Enabled(s, e) && !e.MemorySet?
  {
    if e.Challenged? then e.c.id else s.pending[e.n].id
  }

  /** Between s and t challenge n of request id was answered. */
  predicate Answered(s: State, t: State, n: nat, id: Id) {
    && t.pending == s.pending - {n}
    && |t.log| == |s.log| + 1 && t.log == s.log + [t.log[|s.log|]]
    && t.log[|s.log|].challenge == n && t.log[|s.log|].id == id
  }

  /** Between s and t the handler of challenge n began to wait, or went on waiting. */
  predicate Waits(s: State, t: State, n: nat, id: Id) {
    && t.log == s.log
    && n in t.pending && t.pending[n].id == id && t.pending == s.pending[n := t.pending[n]]
  }

  lemma TellShape(s: State, n: nat, id: Id, credentials: bool)
    ensures Answered(s, Tell(s, n, id, credentials), n, id)
  {
  }

  lemma KeepShape(s: State, n: nat, id: Id, wait: Waiting, asked: int)
    ensures Waits(s, Keep(s, n, id, wait, asked), n, id)
  {
  }

  predicate Shape(s: State, t: State, n: nat, id: Id) {
    Answered(s, t, n, id) || Waits(s, t, n, id)
  }

  lemma RespondShape(s: State, n: nat, c: Challenge, attempts: nat)
    ensures Shape(s, Respond(s, n, c, attempts), n, c.id) && Respond(s, n, c, attempts).challenges == s.challenges
  {
    TellShape(Forget(s, c.id), n, c.id, false);
    TellShape(s, n, c.id, true);
    KeepShape(s, n, c.id, SessionRead, c.now);
    KeepShape(s, n, c.id, Syncing(attempts > 1), c.now);
  }

  lemma HandleShape(s: State, c: Challenge)
    ensures Shape(s, Handle(s, c), s.challenges, c.id) && Handle(s, c).challenges == s.challenges + 1
  {
    var n := s.challenges;
    var t := s.(challenges := n + 1);
    if c.isProxy {
      var seen := Recorded(s.seen, c);
      RespondShape(t.(seen := seen), n, c, seen[c.id].count);
    } else {
      TellShape(t, n, c.id, false);
    }
  }

  lemma StepShape(s: State, e: Event)
    requires Enabled(s, e) && !e.MemorySet?
    ensures Shape(s, Step(s, e), Number(s, e), Subject(s, e))
    ensures Step(s, e).challenges == if e.Challenged? then s.challenges + 1 else s.challenges
  {
    var id := Subject(s, e);
    match e
    case Challenged(c) => HandleShape(s, c);
    case SessionAnswered(n, stored) =>
      TellShape(s.(memory := stored), n, id, true);
      KeepShape(s, n, id, Syncing(false), s.pending[n].asked);
    case SyncAnswered(n, ok) =>
      TellShape(s, n, id, true);
      TellShape(Forget(s, id), n, id, false);
  }

  lemma AnsweredOnceAfter(s: State, t: State, i: nat, id: Id, n: nat)
    requires Shape(s, t, i, id)
    requires t.challenges == if i == s.challenges then s.challenges + 1 else s.challenges
    requires i == s.challenges || i in s.pending
    requires AnsweredOnce(s, n) && AnsweredOnce(s, i)
    ensures AnsweredOnce(t, n)
  {
    if Answered(s, t, i, id) {
      TimesNext(s.log, t.log[|s.log|], n);
    }
  }

  ghost predicate AllAnsweredOnce(s: State) {
    forall n :: AnsweredOnce(s, n)
  }

  lemma AllAnsweredOnceKept(s: State, e: Event)
    requires Enabled(s, e) && AllAnsweredOnce(s)
    ensures AllAnsweredOnce(Step(s, e))
  {
    var t := Step(s, e);
    forall m: nat
      ensures AnsweredOnce(t, m)
    {
      assert AnsweredOnce(s, m);
      if !e.MemorySet? {
        var i := Number(s, e);
        StepShape(s, e);
        assert AnsweredOnce(s, i);
        AnsweredOnceAfter(s, t, i, Subject(s, e), m);
      }
    }
  }

  /** In every run a challenge gets exactly one answer, as soon as its handler has nothing left to wait for. */
  lemma ExactlyOneAnswer(s: State, events: seq<Event>, n: nat)
    requires AllAnsweredOnce(s) && Run(Turns, s, events)
    ensures AnsweredOnce(Final(Turns, s, events), n)
  {
    forall s, e | AllAnsweredOnce(s) && Turns(s, e).Some?
      ensures AllAnsweredOnce(Turns(s, e).value)
    {
      AllAnsweredOnceKept(s, e);
    }
    InvariantHolds(Turns, AllAnsweredOnce, s, events);
  }

  // ---------------------------------------------------------------- attempts per request

  /** How many times in a row request id was last given credentials, with no refusal after them. */
  function Streak(log: seq<Answer>, id: Id): nat {
    if log == [] then 0
    else
      var last := log[|log| - 1];
      if last.id != id then Streak(log[..|log| - 1], id)
      else if last.credentials then 1 + Streak(log[..|log| - 1], id)
      else 0
  }

  lemma StreakNext(log: seq<Answer>, a: Answer, id: Id)
    ensures Streak(log + [a], id)
         == if a.id != id then Streak(log, id) else if a.credentials then 1 + Streak(log, id) else 0
  {
    assert (log + [a])[..|log|] == log;
  }

  function Attempts(s: State, id: Id): nat {
    if id in s.seen then s.seen[id].count else 0
  }

  /** The recorded attempts cover every credential answer since the last refusal, and the one on the way. */
  predicate Counted(s: State, id: Id) {
    && Streak(s.log, id) + (if IsPending(s, id) then 1 else 0) <= Attempts(s, id) <= MAX_AUTH_ATTEMPTS
    && forall m, n :: m in s.pending && n in s.pending && s.pending[m].id == id && s.pending[n].id == id ==> m == n
  }

  /** The event does not drop the entry of id from a crowded record. */
  predicate KeepsEntry(s: State, e: Event, id: Id) {
    e.Challenged? && e.c.isProxy && |s.seen| > MAX_SEEN && id in s.seen ==> e.c.now - s.seen[id].timestamp <= ENTRY_MS
  }

  lemma OthersUntouched(s: State, t: State, n: nat, subject: Id, id: Id)
    requires Shape(s, t, n, subject)
    requires id != subject && (n in s.pending ==> s.pending[n].id == subject)
    ensures IsPending(t, id) <==> IsPending(s, id)
    ensures Streak(t.log, id) == Streak(s.log, id)
  {
    if Answered(s, t, n, subject) {
      StreakNext(s.log, t.log[|s.log|], id);
    }
    forall m
      ensures (m in t.pending && t.pending[m].id == id) <==> (m in s.pending && s.pending[m].id == id)
    {
    }
  }

  lemma OtherEntriesKept(s: State, e: Event, id: Id)
    requires Enabled(s, e) && !e.MemorySet? && KeepsEntry(s, e, id) && id != Subject(s, e)
    ensures Attempts(Step(s, e), id) == Attempts(s, id)
  {
  }

  lemma OthersCounted(s: State, e: Event, id: Id)
    requires Enabled(s, e) && !e.MemorySet? && Counted(s, id) && KeepsEntry(s, e, id) && id != Subject(s, e) && s.challenges !in s.pending
    ensures Counted(Step(s, e), id)
  {
    var t := Step(s, e);
    StepShape(s, e);
    OthersUntouched(s, t, Number(s, e), Subject(s, e), id);
    OtherEntriesKept(s, e, id);
  }

  /** What a challenge does to the recorded attempts of its own request. */
  lemma ChallengeAttempts(s: State, c: Challenge)
    requires KeepsEntry(s, Challenged(c), c.id)
    ensures var t, n := Handle(s, c), Attempts(s, c.id) + 1;
            Attempts(t, c.id) == if !c.isProxy then n - 1 else if n > MAX_AUTH_ATTEMPTS then 0 else n
    ensures var t := Handle(s, c);
            (!c.isProxy || Attempts(s, c.id) >= MAX_AUTH_ATTEMPTS) ==> t.log == s.log + [Answer(s.challenges, c.id, false)]
  {
  }

  lemma ChallengeCounted(s: State, c: Challenge)
    requires Enabled(s, Challenged(c)) && Counted(s, c.id) && KeepsEntry(s, Challenged(c), c.id) && s.challenges !in s.pending
    ensures Counted(Handle(s, c), c.id)
  {
    var t := Handle(s, c);
    HandleShape(s, c);
    ChallengeAttempts(s, c);
    assert forall m :: m in s.pending ==> s.pending[m].id != c.id;
    ChallengeCountedFrom(s, t, c);
  }

  lemma ChallengeCountedFrom(s: State, t: State, c: Challenge)
    requires Counted(s, c.id) && Shape(s, t, s.challenges, c.id)
    requires forall m :: m in s.pending ==> s.pending[m].id != c.id
    requires Attempts(t, c.id)
          == if !c.isProxy then Attempts(s, c.id) else if Attempts(s, c.id) >= MAX_AUTH_ATTEMPTS then 0 else Attempts(s, c.id) + 1
    requires !c.isProxy || Attempts(s, c.id) >= MAX_AUTH_ATTEMPTS ==> t.log == s.log + [Answer(s.challenges, c.id, false)]
    ensures Counted(t, c.id)
  {
    if Answered(s, t, s.challenges, c.id) {
      StreakNext(s.log, t.log[|s.log|], c.id);
      assert !IsPending(t, c.id);
    }
  }

  lemma AnswerCounted(s: State, e: Event)
    requires Enabled(s, e) && !e.Challenged? && !e.MemorySet? && Counted(s, Subject(s, e))
    ensures Counted(Step(s, e), Subject(s, e))
  {
    var id := Subject(s, e);
    var t := Step(s, e);
    assert IsPending(s, id);
    if t.log != s.log {
      StreakNext(s.log, t.log[|s.log|], id);
    }
  }

  lemma CountedKept(s: State, e: Event, id: Id)
    requires Enabled(s, e) && Counted(s, id) && KeepsEntry(s, e, id) && s.challenges !in s.pending
    ensures Counted(Step(s, e), id)
  {
    if e.MemorySet? {
      assert IsPending(Step(s, e), id) == IsPending(s, id);
    } else if id != Subject(s, e) {
      OthersCounted(s, e, id);
    } else if e.Challenged? {
      ChallengeCounted(s, e.c);
    } else {
      AnswerCounted(s, e);
    }
  }

  function Keeping(id: Id): (State, Event) -> bool {
    (s: State, e: Event) => KeepsEntry(s, e, id)
  }

  /**
   While its entry is not dropped from the record, a request never gets a third credential
   answer in a row.
   */
  lemma NeverThreeInARow(s: State, events: seq<Event>, id: Id)
    requires Initial(s) && Run(Turns, s, events) && Only(Turns, Keeping(id), s, events)
    ensures Streak(Final(Turns, s, events).log, id) <= MAX_AUTH_ATTEMPTS
  {
    var inv := (t: State) => Counted(t, id) && AllAnsweredOnce(t);
    forall t, e | inv(t) && Keeping(id)(t, e) && Turns(t, e).Some?
      ensures inv(Turns(t, e).value)
    {
      assert AnsweredOnce(t, t.challenges);
      CountedKept(t, e, id);
      AllAnsweredOnceKept(t, e);
    }
    KeptAlong(Turns, Keeping(id), inv, s, events);
  }

  /** Once the entry is dropped the limit is lost: with credentials in memory, the next challenge adds to the streak. */
  lemma DroppedEntryStartsOver(s: State, c: Challenge)
    requires Enabled(s, Challenged(c)) && c.isProxy && ValidAt(s.memory, c.now)
    requires c.id in s.seen && !KeepsEntry(s, Challenged(c), c.id)
    ensures Streak(Handle(s, c).log, c.id) == Streak(s.log, c.id) + 1
  {
    StreakNext(s.log, Answer(s.challenges, c.id, true), c.id);
  }

  predicate NowWaits(s: State, c: Challenge, wait: Waiting) {
    var t := Handle(s, c);
    s.challenges in t.pending && t.pending[s.challenges] == Pending(c.id, wait, c.now) && t.log == s.log
  }

  /**
   What a challenge is answered with depends on how often in a row the request was challenged: the
   first time credentials in memory or session storage will do, or an unforced synchronisation;
   the second time neither, whose credentials have just failed, but only a forced one; the third
   time the request is refused and forgotten.
   */
  lemma RepeatedChallenge(s: State, c: Challenge)
    requires c.isProxy && KeepsEntry(s, Challenged(c), c.id)
    ensures var attempts := Attempts(s, c.id);
            if attempts == 0 then
              if ValidAt(s.memory, c.now) then Handle(s, c).log == s.log + [Answer(s.challenges, c.id, true)]
              else NowWaits(s, c, if c.hasSessionStore then SessionRead else Syncing(false))
            else if attempts == 1 then NowWaits(s, c, Syncing(true))
            else Handle(s, c).log == s.log + [Answer(s.challenges, c.id, false)] && c.id !in Handle(s, c).seen
  {
  }

  // ---------------------------------------------------------------- how a crowd lifts the limit

  /** All is answered; the record holds id and k longer ones, all seen at time t, and credentials of that time are in memory. */
  predicate Crowded(s: State, id: Id, t: int, k: nat) {
    && s.pending == map[] && s.memory == Some(t)
    && id in s.seen && |s.seen| == k + 1
    && forall other :: other in s.seen ==> |other| <= |id| + k && s.seen[other].timestamp == t
  }

  function Longer(id: Id, k: nat): (r: Id)
    ensures |r| == |id| + k
  {
    id + seq(k, i => 'a')
  }

  /** A request not seen before is answered from memory and recorded. */
  lemma FirstChallengeAnswered(s: State, c: Challenge)
    requires s.pending == map[] && c.isProxy
    requires c.id !in s.seen || !KeepsEntry(s, Challenged(c), c.id)
    requires ValidAt(s.memory, c.now)
    ensures Turns(s, Challenged(c)).Some?
    ensures var u := Step(s, Challenged(c));
            && u.pending == map[] && u.memory == s.memory && u.seen == Recorded(s.seen, c)
            && u.log == s.log + [Answer(s.challenges, c.id, true)]
  {
  }

  lemma CrowdGrows(s: State, id: Id, t: int, k: nat) returns (e: Event)
    requires Crowded(s, id, t, k) && k < MAX_SEEN
    ensures Turns(s, e).Some? && Crowded(Step(s, e), id, t, k + 1) && Streak(Step(s, e).log, id) == Streak(s.log, id)
  {
    var other := Longer(id, k + 1);
    var c := Challenge(other, true, t, true);
    e := Challenged(c);
    assert other !in s.seen;
    FirstChallengeAnswered(s, c);
    StreakNext(s.log, Answer(s.challenges, other, true), id);
  }

  lemma {:induction false} CrowdGathers(s: State, id: Id, t: int, k: nat) returns (events: seq<Event>)
    requires Crowded(s, id, t, k) && k <= MAX_SEEN
    ensures Run(Turns, s, events)
    ensures var u := Final(Turns, s, events); Crowded(u, id, t, MAX_SEEN) && Streak(u.log, id) == Streak(s.log, id)
    decreases MAX_SEEN - k
  {
    events := [];
    if k < MAX_SEEN {
      var e := CrowdGrows(s, id, t, k);
      var more := CrowdGathers(Step(s, e), id, t, k + 1);
      RunOfOne(Turns, s, e);
      RunConcat(Turns, s, [e], more);
      events := [e] + more;
    }
  }

  /** A minute later the crowd is dropped, and the request with it: its next challenge counts as its first. */
  lemma CrowdForgotten(s: State, id: Id, t: int) returns (e: Event)
    requires Crowded(s, id, t, MAX_SEEN)
    ensures Turns(s, e).Some?
    ensures var u := Step(s, e).(memory := Some(t + ENTRY_MS + 1));
            Crowded(u, id, t + ENTRY_MS + 1, 0) && Streak(u.log, id) == Streak(s.log, id) + 1
  {
    var c := Challenge(id, true, t + ENTRY_MS + 1, true);
    e := Challenged(c);
    assert Pruned(s.seen, c.now) == map[];
    FirstChallengeAnswered(s, c);
    StreakNext(s.log, Answer(s.challenges, id, true), id);
  }

  lemma OneAnswerMore(s: State, id: Id, t: int) returns (events: seq<Event>)
    requires Crowded(s, id, t, 0)
    ensures Run(Turns, s, events)
    ensures var u := Final(Turns, s, events); Crowded(u, id, t + ENTRY_MS + 1, 0) && Streak(u.log, id) == Streak(s.log, id) + 1
  {
    var a := CrowdGathers(s, id, t, 0);
    var u := Final(Turns, s, a);
    var e := CrowdForgotten(u, id, t);
    OneMore(Turns, s, a, e);
    OneMore(Turns, s, a + [e], MemorySet(Some(t + ENTRY_MS + 1)));
    events := a + [e] + [MemorySet(Some(t + ENTRY_MS + 1))];
  }

  lemma FirstAnswer(s: State, id: Id, t: int) returns (events: seq<Event>)
    requires Initial(s)
    ensures Run(Turns, s, events)
    ensures var u := Final(Turns, s, events); Crowded(u, id, t, 0) && Streak(u.log, id) == 1
  {
    var c := Challenge(id, true, t, true);
    RunOfOne(Turns, s, MemorySet(Some(t)));
    var u := Step(s, MemorySet(Some(t)));
    FirstChallengeAnswered(u, c);
    OneMore(Turns, s, [MemorySet(Some(t))], Challenged(c));
    events := [MemorySet(Some(t))] + [Challenged(c)];
    StreakNext(u.log, Answer(0, id, true), id);
  }

  lemma {:induction false} LongStreak(s: State, id: Id, t: int, n: nat) returns (events: seq<Event>, now: int)
    requires Initial(s) && n > 0
    ensures Run(Turns, s, events)
    ensures Crowded(Final(Turns, s, events), id, now, 0) && Streak(Final(Turns, s, events).log, id) == n
  {
    if n == 1 {
      events := FirstAnswer(s, id, t);
      now := t;
    } else {
      var a, before := LongStreak(s, id, t, n - 1);
      var b := OneAnswerMore(Final(Turns, s, a), id, before);
      RunConcat(Turns, s, a, b);
      events, now := a + b, before + ENTRY_MS + 1;
    }
  }

  /**
   With the record crowded anew every minute there is no limit at all: from the initial state, a
   request can get any number of credential answers in a row.
   */
  lemma AnyNumberInARow(s: State, id: Id, n: nat)
    requires Initial(s) && n > 0
    ensures exists events :: Run(Turns, s, events) && Streak(Final(Turns, s, events).log, id) == n
  {
    var events, now := LongStreak(s, id, 0, n);
    assert Run(Turns, s, events);
  }

  // ---------------------------------------------------------------- the record stays small

  lemma RecordBounded(seen: map<Id, Entry>, c: Challenge)
    ensures var r := Recorded(seen, c);
            |r| <= MAX_SEEN + 1 || forall id :: id in r ==> c.now - r[id].timestamp <= ENTRY_MS
  {
  }

  /** After a proxy challenge the record holds at most 101 entries, or none older than a minute. */
  lemma SeenBounded(s: State, c: Challenge)
    requires c.isProxy
    ensures var r := Handle(s, c).seen;
            |r| <= MAX_SEEN + 1 || forall id :: id in r ==> c.now - r[id].timestamp <= ENTRY_MS
  {
    RecordBounded(s.seen, c);
  }

  // ---------------------------------------------------------------- the code as it is written

  class AuthHandler {
    var seenRequests: map<Id, Entry>
    var memoryCredsCache: Option<int>
    var pending: map<nat, Pending>
    var challenges: nat
    var log: seq<Answer>

    function Value(): State
      reads this
    {
      State(seenRequests, memoryCredsCache, pending, challenges, log)
    }

    /** The loop over the record that drops the old entries. */
    method Prune(now: int)
      modifies this`seenRequests
      ensures seenRequests == Pruned(old(seenRequests), now)
    {
      var before := seenRequests;
      var left := before.Keys;
      while left != {}
        invariant left <= before.Keys
        invariant forall id :: id in seenRequests <==>
          id in before && (id in left || now - before[id].timestamp <= ENTRY_MS)
        invariant forall id :: id in seenRequests ==> seenRequests[id] == before[id]
        decreases |left|
      {
        var reqId :| reqId in left;
        if now - before[reqId].timestamp > ENTRY_MS {
          seenRequests := seenRequests - {reqId};
        }
        left := left - {reqId};
      }
    }

    method Callback(n: nat, id: Id, credentials: bool)
      modifies this`pending, this`log
      ensures Value() == Tell(old(Value()), n, id, credentials)
    {
      pending := pending - {n};
      log := log + [Answer(n, id, credentials)];
    }

    method Suspend(n: nat, id: Id, wait: Waiting, asked: int)
      modifies this`pending
      ensures Value() == Keep(old(Value()), n, id, wait, asked)
    {
      pending := pending[n := Pending(id, wait, asked)];
    }

    method Record(c: Challenge) returns (attempts: nat)
      modifies this`seenRequests
      ensures seenRequests == Recorded(old(seenRequests), c)
      ensures attempts == seenRequests[c.id].count
    {
      if |seenRequests| > MAX_SEEN {
        Prune(c.now);
      }
      attempts := (if c.id in seenRequests then seenRequests[c.id].count else 0) + 1;
      seenRequests := seenRequests[c.id := Entry(attempts, c.now)];
    }

    method OnAuthRequired(c: Challenge)
      requires Enabled(Value(), Challenged(c))
      modifies this
      ensures Value() == Step(old(Value()), Challenged(c))
    {
      var n := challenges;
      challenges := challenges + 1;
      if !c.isProxy {
        Callback(n, c.id, false);
        return;
      }
      var attempts := Record(c);
      if attempts > MAX_AUTH_ATTEMPTS {
        seenRequests := seenRequests - {c.id};
        Callback(n, c.id, false);
        return;
      }
      if attempts == 1 && ValidAt(memoryCredsCache, c.now) {
        Callback(n, c.id, true);
        return;
      }
      if attempts == 1 && c.hasSessionStore {
        Suspend(n, c.id, SessionRead, c.now);
        return;
      }
      var forceRefresh := attempts > 1;
      Suspend(n, c.id, Syncing(forceRefresh), c.now);
    }

    method OnSessionRead(n: nat, stored: Option<int>)
      requires Enabled(Value(), SessionAnswered(n, stored))
      modifies this
      ensures Value() == Step(old(Value()), SessionAnswered(n, stored))
    {
      var p := pending[n];
      if ValidAt(stored, p.asked) {
        memoryCredsCache := stored;
        Callback(n, p.id, true);
        return;
      }
      Suspend(n, p.id, Syncing(false), p.asked);
    }

    method OnSynced(n: nat, ok: bool)
      requires Enabled(Value(), SyncAnswered(n, ok))
      modifies this
      ensures Value() == Step(old(Value()), SyncAnswered(n, ok))
    {
      var id := pending[n].id;
      if ok {
        Callback(n, id, true);
      } else {
        seenRequests := seenRequests - {id};
        Callback(n, id, false);
      }
    }
  }
}
