/**
 The guard against challenge storms (extension/background.js, executeSync and the
 onAuthRequired handler): how close together challenges can start forced synchronisations.
 */
module ChallengeStorm {
  import opened Runs
  import opened Wrappers
  import opened SyncQueue

  predicate Spaced(starts: seq<int>) {
    forall i :: 0 <= i < |starts| - 1 ==> starts[i] + FRESH_MS <= starts[i + 1]
  }

  function LastStart(s: State): int
    requires s.authStarts != []
  {
    s.authStarts[|s.authStarts| - 1]
  }

  // ---------------------------------------------------------------- exactly when the spacing holds

  /**
   A challenge's call begins within two seconds of the last start, and the credentials which that
   start fetched are not at hand: there are none, or only older ones.
   */
  predicate Unprotected(s: State, e: Event) {
    && e.Begin? && e.i < |s.calls| && AuthForced(s.calls[e.i].request)
    && s.authStarts != [] && s.now < LastStart(s) + FRESH_MS
    && (s.cache.None? || s.cache.value + FRESH_MS <= s.now)
  }

  lemma StartsAppended(s: State, e: Event)
    requires Serial(s) && Enabled(s, e)
    ensures var t := Step(s, e).authStarts;
            t == s.authStarts
            || (e.Begin? && AuthForced(s.calls[e.i].request) && !Younger(s, FRESH_MS) && t == s.authStarts + [s.now])
  {
    SerialKept(s, e);
    if e.Begin? {
      BeginsAtFront(s, e.i);
    }
  }

  lemma SpacedNext(starts: seq<int>, x: int)
    ensures Spaced(starts + [x]) <==> Spaced(starts) && (starts == [] || starts[|starts| - 1] + FRESH_MS <= x)
  {
    var more := starts + [x];
    assert forall i :: 0 <= i < |starts| ==> more[i] == starts[i];
    assert more[|starts|] == x;
    if Spaced(more) {
      assert starts != [] ==> more[|starts| - 1] + FRESH_MS <= more[|starts|];
      forall i | 0 <= i < |starts| - 1
        ensures starts[i] + FRESH_MS <= starts[i + 1]
      {
        assert more[i] + FRESH_MS <= more[i + 1];
      }
    }
  }

  /**
   One step breaks the spacing exactly if it is an unprotected begin. The credentials the last
   start should have brought are then missing, or lost to older ones.
   */
  lemma OnlyUnprotectedBreaks(s: State, e: Event)
    requires Serial(s) && Enabled(s, e) && Spaced(s.authStarts)
    ensures Spaced(Step(s, e).authStarts) <==> !Unprotected(s, e)
    ensures !Spaced(Step(s, e).authStarts) ==> s.cache.None? || s.cache.value < LastStart(s)
  {
    StartsAppended(s, e);
    SpacedNext(s.authStarts, s.now);
    if e.Begin? {
      BeginStarts(s, e.i);
    }
  }

  lemma BeginStarts(s: State, i: nat)
    requires Serial(s) && Enabled(s, Begin(i))
    ensures Step(s, Begin(i)).authStarts
         == if AuthForced(s.calls[i].request) && !Younger(s, FRESH_MS) then s.authStarts + [s.now] else s.authStarts
  {
    BeginsAtFront(s, i);
  }

  lemma {:induction false} StaysUnspaced(s: State, events: seq<Event>)
    requires Serial(s) && Run(Moves, s, events) && !Spaced(s.authStarts)
    ensures !Spaced(Final(Moves, s, events).authStarts)
    decreases |events|
  {
    if events != [] {
      SerialKept(s, events[0]);
      StartsAppended(s, events[0]);
      SpacedNext(s.authStarts, s.now);
      StaysUnspaced(Step(s, events[0]), events[1..]);
    }
  }

  lemma {:induction false} SpacedAlong(s: State, events: seq<Event>)
    requires Serial(s) && Run(Moves, s, events) && Spaced(s.authStarts)
    ensures Spaced(Final(Moves, s, events).authStarts) <==> Never(Moves, Unprotected, s, events)
    decreases |events|
  {
    if events != [] {
      SerialKept(s, events[0]);
      OnlyUnprotectedBreaks(s, events[0]);
      if Unprotected(s, events[0]) {
        StaysUnspaced(Step(s, events[0]), events[1..]);
      } else {
        SpacedAlong(Step(s, events[0]), events[1..]);
      }
    }
  }

  function CountIn(starts: seq<int>, lo: int, hi: int): nat {
    if starts == [] then 0
    else (if lo <= starts[0] <= hi then 1 else 0) + CountIn(starts[1..], lo, hi)
  }

  lemma {:induction false} NarrowWindow(starts: seq<int>, lo: int, mid: int, hi: int)
    requires Spaced(starts) && lo <= mid && (starts == [] || mid <= starts[0])
    ensures CountIn(starts, lo, hi) == CountIn(starts, mid, hi)
  {
    if starts != [] {
      NarrowWindow(starts[1..], lo, mid, hi);
    }
  }

  lemma {:induction false} WindowBound(starts: seq<int>, lo: int, hi: int)
    requires Spaced(starts)
    ensures CountIn(starts, lo, hi) <= if lo <= hi then 1 + (hi - lo) / FRESH_MS else 0
    decreases |starts|
  {
    if starts != [] {
      var x := starts[0];
      WindowBound(starts[1..], lo, hi);
      if lo <= x <= hi {
        NarrowWindow(starts[1..], lo, x + FRESH_MS, hi);
        WindowBound(starts[1..], x + FRESH_MS, hi);
      }
    }
  }

  /**
   In every run the forced synchronisations that challenges start are two seconds apart if and
   only if none of these calls begins unprotected; then any window of T milliseconds holds at most
   1 + T / 2000 of them, however many challenges arrive.
   */
  lemma StormBound(s: State, events: seq<Event>, from: int, window: nat)
    requires Initial(s) && Guarded(s.wiring) && Run(Moves, s, events)
    ensures Spaced(Final(Moves, s, events).authStarts) <==> Never(Moves, Unprotected, s, events)
    ensures Never(Moves, Unprotected, s, events) ==>
              CountIn(Final(Moves, s, events).authStarts, from, from + window) <= 1 + window / FRESH_MS
  {
    SpacedAlong(s, events);
    if Never(Moves, Unprotected, s, events) {
      WindowBound(Final(Moves, s, events).authStarts, from, from + window);
    }
  }

  // ---------------------------------------------------------------- what protects

  /** The event is not the end of a synchronisation that brought no credentials. */
  predicate Succeeds(s: State, e: Event) {
    e.NetworkEnds? && e.i < |s.calls| ==> s.calls[e.i].stage == Network(true)
  }

  predicate Fetching(s: State) {
    s.passed < |s.calls| && s.calls[s.passed].stage == Network(false)
  }

  /**
   Within two seconds of a start, with no fetched credentials still to come, a lookup puts back
   credentials older than that start.
   */
  predicate Late(s: State, e: Event) {
    && e.LookupAnswered? && e.k < |s.lookups| && Restores(s.lookups[e.k]) && !Fetching(s)
    && s.authStarts != [] && s.lookups[e.k].found.value < LastStart(s) && s.now < LastStart(s) + FRESH_MS
  }

  predicate Regular(s: State, e: Event) {
    Succeeds(s, e) && !Late(s, e)
  }

  /** For two seconds after a start, what it fetched is on its way or in memory. */
  predicate Protected(s: State) {
    s.authStarts != [] ==>
      && LastStart(s) <= s.now
      && (s.now < LastStart(s) + FRESH_MS && !Fetching(s) ==> s.cache.Some? && LastStart(s) <= s.cache.value)
  }

  lemma BeginProtected(s: State, i: nat)
    requires Serial(s) && Protected(s) && Enabled(s, Begin(i))
    ensures Protected(Step(s, Begin(i))) && !Unprotected(s, Begin(i))
  {
    BeginsAtFront(s, i);
  }

  lemma NetworkProtected(s: State, e: Event)
    requires Serial(s) && NothingNull(s) && Protected(s) && Enabled(s, e) && (e.CredsArrive? || e.NetworkEnds?) && Succeeds(s, e)
    ensures Protected(Step(s, e))
  {
    NetworkKept(s, e);
    assert NotNull(s, s.calls[e.i]);
  }

  lemma ChainProtected(s: State, e: Event)
    requires Serial(s) && Protected(s) && Enabled(s, e) && (e.CallbackEnds? || e.LinkSettles?)
    ensures Protected(Step(s, e))
  {
    SerialKept(s, e);
    ChainLeavesCredentials(s, e);
  }

  lemma ChainLeavesCredentials(s: State, e: Event)
    requires Serial(s) && Enabled(s, e) && (e.CallbackEnds? || e.LinkSettles?)
    ensures var t := Step(s, e);
            && t.cache == s.cache && t.stored == s.stored && t.lookups == s.lookups && t.now == s.now && t.authStarts == s.authStarts
            && !Fetching(s)
  {
    SerialKept(s, e);
  }

  lemma LookupProtected(s: State, e: Event)
    requires Protected(s) && Enabled(s, e) && (e.LookupAsked? || e.LookupAnswered?) && !Late(s, e)
    ensures Protected(Step(s, e))
  {
  }

  lemma ProtectedKept(s: State, e: Event)
    requires Serial(s) && NothingNull(s) && Protected(s) && Enabled(s, e) && Regular(s, e)
    ensures Protected(Step(s, e)) && !Unprotected(s, e)
  {
    SerialKept(s, e);
    match e
    case Begin(i) => BeginProtected(s, i);
    case CredsArrive(_) => NetworkProtected(s, e);
    case NetworkEnds(_) => NetworkProtected(s, e);
    case CallbackEnds(_) => ChainProtected(s, e);
    case LinkSettles(_) => ChainProtected(s, e);
    case LookupAsked => LookupProtected(s, e);
    case LookupAnswered(_) => LookupProtected(s, e);
    case _ =>
  }

  lemma {:induction false} ProtectedAlong(s: State, events: seq<Event>)
    requires Serial(s) && NothingNull(s) && Protected(s)
    requires Run(Moves, s, events) && Only(Moves, Regular, s, events)
    ensures Never(Moves, Unprotected, s, events)
    decreases |events|
  {
    if events != [] {
      SerialKept(s, events[0]);
      NothingNullKept(s, events[0]);
      ProtectedKept(s, events[0]);
      ProtectedAlong(Step(s, events[0]), events[1..]);
    }
  }

  /**
   If synchronisations succeed and no lookup in session storage comes late, no challenge's call
   begins unprotected, so the bound holds.
   */
  lemma SuccessProtects(s: State, events: seq<Event>)
    requires Initial(s) && Guarded(s.wiring) && Run(Moves, s, events) && Only(Moves, Regular, s, events)
    ensures Never(Moves, Unprotected, s, events) && Spaced(Final(Moves, s, events).authStarts)
  {
    ProtectedAlong(s, events);
    SpacedAlong(s, events);
  }

  // ---------------------------------------------------------------- which lookups can come late

  predicate NoOlder(found: Option<int>, start: int) {
    found.Some? ==> start <= found.value
  }

  /** The store, and every lookup asked since the last start, hold nothing older than that start. */
  predicate StoreRecent(s: State) {
    && (forall k :: 0 <= k < |s.lookups| ==> s.lookups[k].starts <= |s.authStarts|)
    && (s.authStarts != [] ==>
          && LastStart(s) <= s.now && NoOlder(s.stored, LastStart(s))
          && forall k :: 0 <= k < |s.lookups| && s.lookups[k].starts == |s.authStarts| ==> NoOlder(s.lookups[k].found, LastStart(s)))
  }

  predicate SerialRecent(s: State) {
    Serial(s) && StoreRecent(s)
  }

  lemma BeginStoreRecent(s: State, i: nat)
    requires SerialRecent(s) && Enabled(s, Begin(i))
    ensures StoreRecent(Step(s, Begin(i)))
  {
    BeginStarts(s, i);
  }

  lemma ChainStoreRecent(s: State, e: Event)
    requires SerialRecent(s) && Enabled(s, e) && (e.CallbackEnds? || e.LinkSettles?)
    ensures StoreRecent(Step(s, e))
  {
    ChainLeavesCredentials(s, e);
  }

  lemma StoreRecentKept(s: State, e: Event)
    requires SerialRecent(s) && Enabled(s, e)
    ensures StoreRecent(Step(s, e))
  {
    SerialKept(s, e);
    match e
    case Begin(i) => BeginStoreRecent(s, i);
    case CallbackEnds(_) => ChainStoreRecent(s, e);
    case LinkSettles(_) => ChainStoreRecent(s, e);
    case _ =>
  }

  /** In every run, a lookup that comes late was asked before the last start, whether synchronisations fail or not. */
  lemma LateWasAskedBefore(s: State, events: seq<Event>, e: Event)
    requires Initial(s) && Guarded(s.wiring) && Run(Moves, s, events) && Late(Final(Moves, s, events), e)
    ensures var t := Final(Moves, s, events);
            t.lookups[e.k].starts < |t.authStarts|
  {
    forall t, d | SerialRecent(t) && Moves(t, d).Some?
      ensures SerialRecent(Moves(t, d).value)
    {
      SerialKept(t, d);
      StoreRecentKept(t, d);
    }
    InvariantHolds(Moves, SerialRecent, s, events);
  }

  // ---------------------------------------------------------------- both conditions are needed

  const CHALLENGE := Request(true, false, false)

  /** A run of allowed events from s to t. */
  ghost predicate Leads(allowed: (State, Event) -> bool, s: State, events: seq<Event>, t: State) {
    Run(Moves, s, events) && Final(Moves, s, events) == t && Only(Moves, allowed, s, events)
  }

  lemma LeadsOn(allowed: (State, Event) -> bool, s: State, a: seq<Event>, t: State, b: seq<Event>, u: State)
    requires Leads(allowed, s, a, t) && Leads(allowed, t, b, u)
    ensures Leads(allowed, s, a + b, u)
  {
    RunConcat(Moves, s, a, b);
    OnlyConcat(Moves, allowed, s, a, b);
  }

  lemma LeadsByOne(s: State, e: Event)
    requires Enabled(s, e) && Regular(s, e)
    ensures Leads(Regular, s, [e], Step(s, e))
  {
    RunOfOne(Moves, s, e);
    assert [e][1..] == [] && Only(Moves, Regular, Step(s, e), []);
  }

  lemma LeadsByLookup(s: State, e: Event)
    requires Enabled(s, e) && e.LookupAnswered?
    ensures Leads(Succeeds, s, [e], Step(s, e))
  {
    RunOfOne(Moves, s, e);
    assert [e][1..] == [] && Only(Moves, Succeeds, Step(s, e), []);
  }

  lemma LeadsBySuccesses(s: State, events: seq<Event>, t: State)
    requires Leads(Regular, s, events, t)
    ensures Leads(Succeeds, s, events, t)
  {
    OnlyWeaker(Moves, Regular, Succeeds, s, events);
  }

  lemma LeadsAnyway(s: State, events: seq<Event>, t: State)
    requires Leads(Regular, s, events, t)
    ensures Leads(Anything(), s, events, t)
  {
    OnlyAnything(Moves, s, events);
  }

  predicate Idle(s: State) {
    Serial(s) && s.passed == |s.calls|
  }

  /** A challenge's call is alone on the network and has brought nothing yet. */
  predicate Challenging(s: State) {
    Serial(s) && s.passed + 1 == |s.calls| && s.calls[s.passed].stage == Network(false)
  }

  predicate SameClock(s: State, t: State) {
    t.now == s.now && t.lookups == s.lookups && t.wiring == s.wiring
  }

  /** With an idle queue and no fresh credentials a challenge starts a synchronisation in this very moment. */
  lemma ChallengeStarts(s: State) returns (events: seq<Event>, t: State)
    requires Idle(s) && !Younger(s, FRESH_MS)
    ensures Leads(Regular, s, events, t) && Challenging(t) && SameClock(s, t) && t.cache == None
    ensures t.authStarts == s.authStarts + [s.now]
  {
    var asked := Step(s, Ask(CHALLENGE));
    SerialKept(s, Ask(CHALLENGE));
    BeginKept(asked, s.passed);
    BeginStarts(asked, s.passed);
    t := Step(asked, Begin(s.passed));
    LeadsByOne(s, Ask(CHALLENGE));
    LeadsByOne(asked, Begin(s.passed));
    events := [Ask(CHALLENGE)] + [Begin(s.passed)];
    LeadsOn(Regular, s, [Ask(CHALLENGE)], asked, [Begin(s.passed)], t);
  }

  lemma CredentialsArrive(s: State) returns (events: seq<Event>, t: State)
    requires Challenging(s)
    ensures Leads(Regular, s, events, t) && Serial(t) && SameClock(s, t) && t.authStarts == s.authStarts
    ensures t.passed == s.passed && |t.calls| == |s.calls| && t.calls[t.passed].stage.Executed? && t.calls[t.passed].callback == Pending
  {
    var d := s.passed;
    var fetched := Step(s, CredsArrive(d));
    NetworkKept(s, CredsArrive(d));
    NetworkKept(fetched, NetworkEnds(d));
    t := Step(fetched, NetworkEnds(d));
    LeadsByOne(s, CredsArrive(d));
    LeadsByOne(fetched, NetworkEnds(d));
    events := [CredsArrive(d)] + [NetworkEnds(d)];
    LeadsOn(Regular, s, [CredsArrive(d)], fetched, [NetworkEnds(d)], t);
  }

  lemma CallerIsTold(s: State) returns (events: seq<Event>, t: State)
    requires Serial(s) && s.passed + 1 == |s.calls|
    requires s.calls[s.passed].stage.Executed? && s.calls[s.passed].callback == Pending
    ensures Leads(Regular, s, events, t) && Idle(t) && SameClock(s, t) && t.authStarts == s.authStarts
  {
    var d := s.passed;
    var told := Step(s, CallbackEnds(d));
    CallbackKept(s, d);
    ChainLeavesCredentials(s, CallbackEnds(d));
    LinkKept(told, d);
    ChainLeavesCredentials(told, LinkSettles(d));
    t := Step(told, LinkSettles(d));
    LeadsByOne(s, CallbackEnds(d));
    LeadsByOne(told, LinkSettles(d));
    events := [CallbackEnds(d)] + [LinkSettles(d)];
    LeadsOn(Regular, s, [CallbackEnds(d)], told, [LinkSettles(d)], t);
  }

  lemma ChallengeServed(s: State) returns (events: seq<Event>, t: State)
    requires Challenging(s)
    ensures Leads(Regular, s, events, t) && Idle(t) && SameClock(s, t) && t.authStarts == s.authStarts
  {
    var a, u := CredentialsArrive(s);
    var b;
    b, t := CallerIsTold(u);
    events := a + b;
    LeadsOn(Regular, s, a, u, b, t);
  }

  /** A start at once behind another, whatever happened in between without the clock moving, is a breach. */
  lemma TwoStartsUnspaced(starts: seq<int>, now: int)
    ensures !Spaced(starts + [now] + [now])
  {
    SpacedNext(starts + [now], now);
  }

  lemma ChallengeFails(s: State) returns (events: seq<Event>, t: State)
    requires Challenging(s) && s.cache == None
    ensures Leads(Anything(), s, events, t) && Idle(t) && SameClock(s, t) && t.authStarts == s.authStarts && t.cache == None
  {
    events := Failing(s.passed);
    FailureUnblocks(s, s.passed);
    FailureSteps(s, s.passed);
    t := Final(Moves, s, events);
    OnlyAnything(Moves, s, events);
  }

  /**
   Failure: from every state in which a challenge's call is alone on the network and fails, the
   next challenge starts at once and breaks the spacing.
   */
  lemma FailureLetsNextStart(s: State, starts: seq<int>)
    requires Challenging(s) && s.cache == None && s.authStarts == starts + [s.now]
    ensures exists events :: Run(Moves, s, events) && !Spaced(Final(Moves, s, events).authStarts)
  {
    var a, t := ChallengeFails(s);
    var b, u := ChallengeStarts(t);
    LeadsAnyway(t, b, u);
    LeadsOn(Anything(), s, a, t, b, u);
    TwoStartsUnspaced(starts, s.now);
    assert Run(Moves, s, a + b) && Final(Moves, s, a + b) == u;
  }

  /**
   A late answer: from every state in which a challenge's call is alone on the network and a
   lookup asked before holds older but still valid credentials, the synchronisation may succeed
   and the next challenge starts at once all the same.
   */
  lemma LateLookupLetsNextStart(s: State, starts: seq<int>, k: nat)
    requires Challenging(s) && s.authStarts == starts + [s.now]
    requires k < |s.lookups| && Restores(s.lookups[k]) && s.lookups[k].found.value + FRESH_MS <= s.now
    ensures exists events :: Run(Moves, s, events) && Only(Moves, Succeeds, s, events) && !Spaced(Final(Moves, s, events).authStarts)
  {
    var a, t := ChallengeServed(s);
    var u := Step(t, LookupAnswered(k));
    SerialKept(t, LookupAnswered(k));
    LeadsBySuccesses(s, a, t);
    LeadsByLookup(t, LookupAnswered(k));
    LeadsOn(Succeeds, s, a, t, [LookupAnswered(k)], u);
    var b, v := ChallengeStarts(u);
    LeadsBySuccesses(u, b, v);
    LeadsOn(Succeeds, s, a + [LookupAnswered(k)], u, b, v);
    TwoStartsUnspaced(starts, s.now);
    var events := a + [LookupAnswered(k)] + b;
    assert Run(Moves, s, events) && Only(Moves, Succeeds, s, events) && Final(Moves, s, events) == v;
  }

  lemma FromReached(s: State, a: seq<Event>, t: State)
    requires Leads(Succeeds, s, a, t)
    requires exists events :: Run(Moves, t, events) && Only(Moves, Succeeds, t, events) && !Spaced(Final(Moves, t, events).authStarts)
    ensures exists events :: Run(Moves, s, events) && Only(Moves, Succeeds, s, events) && !Spaced(Final(Moves, s, events).authStarts)
  {
    var b :| Run(Moves, t, b) && Only(Moves, Succeeds, t, b) && !Spaced(Final(Moves, t, b).authStarts);
    LeadsOn(Succeeds, s, a, t, b, Final(Moves, t, b));
    assert Run(Moves, s, a + b) && Only(Moves, Succeeds, s, a + b) && Final(Moves, s, a + b) == Final(Moves, t, b);
  }

  /**
   So success alone is not enough: a worker that starts with credentials between two seconds and
   five minutes old in session storage has a run in which every synchronisation succeeds, lookups
   are answered in the order they were asked, and two starts are not spaced. A challenge asks
   storage behind the startup lookup; the startup lookup is answered; another request's second
   challenge starts a synchronisation that succeeds; the first challenge's lookup is answered.
   */
  lemma SuccessIsNotEnough(s: State, fetchedAt: int)
    requires Initial(s) && Guarded(s.wiring)
    requires s.stored == Some(fetchedAt) && fetchedAt + FRESH_MS <= s.now < fetchedAt + TTL_MS
    ensures exists events :: Run(Moves, s, events) && Only(Moves, Succeeds, s, events) && !Spaced(Final(Moves, s, events).authStarts)
  {
    var asked := Step(s, LookupAsked);
    LeadsByOne(s, LookupAsked);
    LeadsBySuccesses(s, [LookupAsked], asked);
    var started := Step(asked, LookupAnswered(0));
    LeadsByLookup(asked, LookupAnswered(0));
    LeadsOn(Succeeds, s, [LookupAsked], asked, [LookupAnswered(0)], started);
    assert started.lookups == [Lookup(Some(fetchedAt), s.now, 0, false)];
    assert Idle(started) && started.cache == Some(fetchedAt) && started.authStarts == [];
    var a, t := ChallengeStarts(started);
    LeadsBySuccesses(started, a, t);
    LeadsOn(Succeeds, s, [LookupAsked] + [LookupAnswered(0)], started, a, t);
    LateLookupLetsNextStart(t, [], 0);
    FromReached(s, [LookupAsked] + [LookupAnswered(0)] + a, t);
  }

  ghost predicate CanBreak(s: State) {
    exists events :: Run(Moves, s, events) && Only(Moves, Regular, s, events) && !Spaced(Final(Moves, s, events).authStarts)
  }

  /** Behind a late lookup, the next challenge need only wait until what it put back is two seconds old. */
  lemma LateBreaks(s: State, e: Event)
    requires Idle(s) && Enabled(s, e) && Late(s, e)
    ensures CanBreak(Step(s, e))
  {
    SerialKept(s, e);
    var t, restored := Step(s, e), s.lookups[e.k].found.value;
    var wait := if t.now < restored + FRESH_MS then restored + FRESH_MS - t.now else 0;
    var u := Step(t, Tick(wait));
    LeadsByOne(t, Tick(wait));
    var b, v := ChallengeStarts(u);
    LeadsOn(Regular, t, [Tick(wait)], u, b, v);
    SpacedNext(t.authStarts, u.now);
    assert Run(Moves, t, [Tick(wait)] + b);
  }

  lemma ProtectedCannotBreak(s: State)
    requires Serial(s) && NothingNull(s) && Protected(s) && Spaced(s.authStarts)
    ensures !CanBreak(s)
  {
    forall events | Run(Moves, s, events) && Only(Moves, Regular, s, events)
      ensures Spaced(Final(Moves, s, events).authStarts)
    {
      ProtectedAlong(s, events);
      SpacedAlong(s, events);
    }
  }

  predicate AllProtected(s: State) {
    Serial(s) && NothingNull(s) && Protected(s) && Spaced(s.authStarts)
  }

  lemma ProtectedBound(s: State, from: int, window: nat)
    requires AllProtected(s)
    ensures Spaced(s.authStarts) && CountIn(s.authStarts, from, from + window) <= 1 + window / FRESH_MS
  {
    WindowBound(s.authStarts, from, from + window);
  }

  lemma AllProtectedKept()
    ensures Keeps(Moves, Regular, AllProtected)
  {
    forall s, e | AllProtected(s) && Regular(s, e) && Moves(s, e).Some?
      ensures AllProtected(Moves(s, e).value)
    {
      SerialKept(s, e);
      NothingNullKept(s, e);
      ProtectedKept(s, e);
      OnlyUnprotectedBreaks(s, e);
    }
  }

  /**
   Late lookups are exactly what must not happen: after every regular run that has served all its
   calls, one more event leaves a regular way to break the spacing if and only if it is a late lookup.
   */
  lemma LateIsToBlame(s: State, events: seq<Event>, e: Event)
    requires Initial(s) && Guarded(s.wiring) && Run(Moves, s, events) && Only(Moves, Regular, s, events)
    requires var t := Final(Moves, s, events); t.passed == |t.calls| && Enabled(t, e)
    ensures var t := Final(Moves, s, events);
            CanBreak(Step(t, e)) <==> Late(t, e)
  {
    AllProtectedKept();
    KeptAlong(Moves, Regular, AllProtected, s, events);
    var t := Final(Moves, s, events);
    if Late(t, e) {
      LateBreaks(t, e);
    } else {
      assert AllProtected(Moves(t, e).value);
      ProtectedCannotBreak(Step(t, e));
    }
  }

  /** And every worker that starts has a run in which a synchronisation fails and two starts are not spaced. */
  lemma FailureHappens(s: State)
    requires Initial(s) && Guarded(s.wiring)
    ensures exists events :: Run(Moves, s, events) && !Spaced(Final(Moves, s, events).authStarts)
  {
    var a, t := ChallengeStarts(s);
    FailureLetsNextStart(t, []);
    var b :| Run(Moves, t, b) && !Spaced(Final(Moves, t, b).authStarts);
    RunConcat(Moves, s, a, b);
    assert Run(Moves, s, a + b) && Final(Moves, s, a + b) == Final(Moves, t, b);
  }

  /**
   Nor does the guard outlive the worker: one that starts within two seconds of the last start
   before it can start a synchronisation in that very moment, without any failure.
   */
  lemma RestartLetsNextStart(earlier: seq<int>, s: State)
    requires Initial(s) && Guarded(s.wiring) && earlier != [] && s.now < earlier[|earlier| - 1] + FRESH_MS
    ensures exists events :: Run(Moves, s, events) && Only(Moves, Regular, s, events) && !Spaced(earlier + Final(Moves, s, events).authStarts)
  {
    var a, t := ChallengeStarts(s);
    SpacedNext(earlier, s.now);
    assert t.authStarts == [s.now];
    assert Run(Moves, s, a) && Only(Moves, Regular, s, a) && Final(Moves, s, a) == t;
  }
}
