/**
 Synchronisation with the server (extension/background.js, syncWithServer and executeSync):
 callers are chained one behind the other by promises, and a forced synchronisation asked for by
 a proxy challenge is skipped while the credentials are less than two seconds old.

 Every call adds a link to the chain. Its callback, passed to `then`, runs only when the link
 before it is fulfilled; when that is rejected the callback is skipped and its promise rejected.
 Whether the callback catches what executeSync throws, and whether a `catch` handler follows it,
 is a parameter, so that what the two handlers are for can be stated; the code has both.

 One step is one turn of the event loop within one worker lifetime. The clock moves only forward.
 Of a synchronisation on the network only the arrival of credentials and its end are seen.
 Operations on session storage take effect in the order they are issued; answers to lookups come
 at any later time.
 */
module SyncQueue {
  import opened Runs
  import opened Wrappers

  const TTL_MS := 5 * 60 * 1000
  const FRESH_MS := 2000

  /** What a caller asks for; selects says that the user picked a proxy. */
  datatype Request = Request(force: bool, apply: bool, selects: bool)

  /** The credentials a call returns, by the time they were fetched, or its failure. */
  datatype Outcome = Returned(fetchedAt: Option<int>) | Failed

  datatype Promise = Pending | Fulfilled | Rejected

  /** How far executeSync has got for a call. */
  datatype Stage =
    | Waiting                      // not called yet
    | Joined(leader: nat)          // has returned the promise of the call in flight
    | Awaiting(leader: nat)        // waits for the call in flight before deciding
    | Network(fetched: bool)       // its own synchronisation is in flight
    | Executed(outcome: Outcome)   // has returned or thrown

  /** callback is the promise of the function passed to `then`, link the one the next call is chained to, answer what the caller was told. */
  datatype Call = Call(request: Request, stage: Stage, callback: Promise, link: Promise, answer: Option<Outcome>)

  /** Which handlers a link has: the try block in the callback, and the `catch` behind it. */
  datatype Wiring = Wiring(inside: bool, outside: bool)

  const AS_WRITTEN := Wiring(true, true)

  /** A lookup in session storage: what it found, when it was asked, after how many starts, and whether at startup. */
  datatype Lookup = Lookup(found: Option<int>, asked: int, starts: nat, startup: bool)

  /**
   The calls in the order they were made, the credentials in memory and in session storage by the
   time they were fetched, the lookups on their way, the call whose promise syncPromise holds; and
   the history: which calls began, what callers were told, how many links settled, and when a
   challenge put a forced synchronisation on the network.
   */
  datatype State = State(
    wiring: Wiring,
    calls: seq<Call>,
    cache: Option<int>,
    stored: Option<int>,
    lookups: seq<Lookup>,
    syncPromise: Option<nat>,
    now: int,
    begun: seq<nat>,
    settled: seq<(nat, Outcome)>,
    passed: nat,
    authStarts: seq<int>)

  /** A forced synchronisation that answers a proxy challenge: it neither applies nor selects. */
  predicate AuthForced(r: Request) {
    r.force && !r.apply && !r.selects
  }

  datatype Event =
    | Tick(ms: nat)
    | Ask(request: Request)              // syncWithServer is called
    | Begin(i: nat)                      // the callback of call i runs
    | CallbackSkipped(i: nat)            // the link before call i was rejected
    | LeaderSettled(i: nat)              // the promise call i waits for has settled
    | CredsArrive(i: nat)
    | NetworkEnds(i: nat)
    | CallbackEnds(i: nat)               // the callback goes on behind executeSync
    | LinkSettles(i: nat)                // the `catch` behind the callback
    | LookupAsked                          // a first challenge without valid credentials in memory
    | LookupAnswered(k: nat)

  predicate IsExecuted(s: State, i: nat) {
    i < |s.calls| && s.calls[i].stage.Executed?
  }

  /** The promise that call i is chained to. */
  function LinkBefore(s: State, i: nat): Promise
    requires i <= |s.calls|
  {
    if i == 0 then Fulfilled else s.calls[i - 1].link
  }

  predicate Younger(s: State, ms: int) {
    s.cache.Some? && s.now - s.cache.value < ms
  }

  predicate Enabled(s: State, e: Event) {
    match e
    case Begin(i) =>
      i < |s.calls| && s.calls[i].stage == Waiting && s.calls[i].callback == Pending && LinkBefore(s, i) == Fulfilled
    case CallbackSkipped(i) =>
      i < |s.calls| && s.calls[i].stage == Waiting && s.calls[i].callback == Pending && LinkBefore(s, i) == Rejected
    case LeaderSettled(i) =>
      && i < |s.calls|
      && ((s.calls[i].stage.Joined? && IsExecuted(s, s.calls[i].stage.leader))
          || (s.calls[i].stage.Awaiting? && IsExecuted(s, s.calls[i].stage.leader)))
    case CredsArrive(i) => i < |s.calls| && s.calls[i].stage == Network(false)
    case NetworkEnds(i) => i < |s.calls| && s.calls[i].stage.Network?
    case CallbackEnds(i) => IsExecuted(s, i) && s.calls[i].callback == Pending
    case LinkSettles(i) => i < |s.calls| && s.calls[i].callback != Pending && s.calls[i].link == Pending
    case LookupAsked => !Younger(s, TTL_MS)
    case LookupAnswered(k) => k < |s.lookups|
    case _ => true
  }

  // ---------------------------------------------------------------- turns

  function Put(s: State, i: nat, c: Call): State
    requires i < |s.calls|
  {
    s.(calls := s.calls[i := c])
  }

  function Go(s: State, i: nat, stage: Stage): State
    requires i < |s.calls|
  {
    Put(s, i, s.calls[i].(stage := stage))
  }

  predicate OnlyCall(s: State, t: State, i: nat) {
    i < |s.calls| == |t.calls| && t.calls == s.calls[i := t.calls[i]]
  }

  /** Settles the caller's promise; a promise that has settled stays as it is. */
  function Tell(s: State, i: nat, outcome: Outcome): (t: State)
    requires i < |s.calls|
    ensures OnlyCall(s, t, i)
  {
    if s.calls[i].answer.Some? then s
    else Put(s, i, s.calls[i].(answer := Some(outcome))).(settled := s.settled + [(i, outcome)])
  }

  function StartNetwork(s: State, i: nat): State
    requires i < |s.calls|
  {
    var r := s.calls[i].request;
    Go(s, i, Network(false)).(
      cache := if r.force then None else s.cache,
      stored := if r.force then None else s.stored,
      syncPromise := Some(i),
      authStarts := if AuthForced(r) then s.authStarts + [s.now] else s.authStarts)
  }

  /** executeSync behind the wait for a call in flight. */
  function Decide(s: State, i: nat): (t: State)
    requires i < |s.calls|
    ensures OnlyCall(s, t, i)
  {
    if AuthForced(s.calls[i].request) && Younger(s, FRESH_MS) then Go(s, i, Executed(Returned(s.cache))) else StartNetwork(s, i)
  }

  function Execute(s: State, i: nat): (t: State)
    requires i < |s.calls|
    ensures OnlyCall(s, t, i)
  {
    var r := s.calls[i].request;
    if !r.apply && !r.force && Younger(s, TTL_MS) then Go(s, i, Executed(Returned(s.cache)))
    else if !r.force && s.syncPromise.Some? then Go(s, i, Joined(s.syncPromise.value))
    else if AuthForced(r) && s.syncPromise.Some? then Go(s, i, Awaiting(s.syncPromise.value))
    else Decide(s, i)
  }

  /** The rest of the callback: it resolves the caller, or catches the error and rejects him, or is rejected itself. */
  function EndCallback(s: State, i: nat): (t: State)
    requires IsExecuted(s, i)
    ensures OnlyCall(s, t, i)
  {
    var outcome := s.calls[i].stage.outcome;
    if outcome.Failed? && !s.wiring.inside then Put(s, i, s.calls[i].(callback := Rejected))
    else
      var told := Tell(s, i, outcome);
      Put(told, i, told.calls[i].(callback := Fulfilled))
  }

  /** The `catch` behind the callback: it lets a fulfilled promise pass and rejects the caller of a rejected one. */
  function SettleLink(s: State, i: nat): (t: State)
    requires i < |s.calls|
    ensures OnlyCall(s, t, i)
  {
    var told := if s.calls[i].callback == Rejected && s.wiring.outside then Tell(s, i, Failed) else s;
    var link := if s.calls[i].callback == Rejected && !s.wiring.outside then Rejected else Fulfilled;
    Put(told, i, told.calls[i].(link := link)).(passed := s.passed + 1)
  }

  /** Whether the credentials a lookup found go into memory: at startup always, for a challenge unless they had expired when it came. */
  predicate Restores(r: Lookup) {
    r.found.Some? && (r.startup || r.asked - r.found.value < TTL_MS)
  }

  function Step(s: State, e: Event): State
    requires Enabled(s, e)
  {
    match e
    case Tick(ms) => s.(now := s.now + ms)
    case Ask(request) => s.(calls := s.calls + [Call(request, Waiting, Pending, Pending, None)])
    case Begin(i) => Execute(s.(begun := s.begun + [i]), i)
    case CallbackSkipped(i) => Put(s, i, s.calls[i].(callback := Rejected))
    case LeaderSettled(i) =>
      if s.calls[i].stage.Joined? then Go(s, i, s.calls[s.calls[i].stage.leader].stage) else Decide(s, i)
    case CredsArrive(i) => Go(s, i, Network(true)).(cache := Some(s.now), stored := Some(s.now))
    case NetworkEnds(i) =>
      Go(s.(syncPromise := None), i, Executed(if s.calls[i].stage.fetched then Returned(s.cache) else Failed))
    case CallbackEnds(i) => EndCallback(s, i)
    case LinkSettles(i) => SettleLink(s, i)
    case LookupAsked => s.(lookups := s.lookups + [Lookup(s.stored, s.now, |s.authStarts|, false)])
    case LookupAnswered(k) =>
      s.(lookups := s.lookups[..k] + s.lookups[k + 1..], cache := if Restores(s.lookups[k]) then s.lookups[k].found else s.cache)
  }

  /** A worker that has just started: nothing in memory, and the startup lookup on its way. */
  predicate Initial(s: State) {
    && s.calls == [] && s.cache == None && s.syncPromise == None && s.lookups == [Lookup(s.stored, s.now, 0, true)]
    && s.begun == [] && s.settled == [] && s.passed == 0 && s.authStarts == []
  }

  /** The queue as a transition system. */
  function Moves(s: State, e: Event): Option<State> {
    if Enabled(s, e) then Some(Step(s, e)) else None
  }

  // ---------------------------------------------------------------- one at a time, in order

  predicate Guarded(w: Wiring) {
    w.inside || w.outside
  }

  predicate Untouched(c: Call) {
    c.stage == Waiting && c.callback == Pending && c.link == Pending && c.answer == None
  }

  /** How the callback ends after executeSync. */
  function CallbackOf(w: Wiring, outcome: Outcome): Promise {
    if outcome.Failed? && !w.inside then Rejected else Fulfilled
  }

  /** executeSync is done and the callback behind it too; the caller knows, unless the error is still to be caught. */
  predicate Handed(w: Wiring, c: Call) {
    && c.stage.Executed? && c.callback == CallbackOf(w, c.stage.outcome)
    && c.answer == if c.callback == Fulfilled then Some(c.stage.outcome) else None
  }

  /** A call behind which the next can begin: executed, and its caller told what became of it. */
  predicate Served(c: Call) {
    c.stage.Executed? && c.callback != Pending && c.link == Fulfilled && c.answer == Some(c.stage.outcome)
  }

  /** The call whose turn it is, at any point of its way. */
  predicate Underway(w: Wiring, c: Call) {
    && c.link == Pending
    && (Untouched(c) || Handed(w, c)
        || ((c.stage.Network? || c.stage.Executed?) && c.callback == Pending && c.answer == None))
  }

  /** The calls before d are served, call d is underway, the rest are untouched. */
  predicate Lined(s: State, d: nat) {
    && d <= |s.calls|
    && (forall i :: 0 <= i < d ==> Served(s.calls[i]))
    && (d < |s.calls| ==> Underway(s.wiring, s.calls[d]))
    && (forall i :: d < i < |s.calls| ==> Untouched(s.calls[i]))
    && s.syncPromise == (if d < |s.calls| && s.calls[d].stage.Network? then Some(d) else None)
  }

  function Extra(b: bool): nat {
    if b then 1 else 0
  }

  /** Calls began and callers were told in call order, once each, and stay told the same. */
  predicate Recorded(s: State, d: nat)
    requires d <= |s.calls|
  {
    && |s.begun| == d + Extra(d < |s.calls| && s.calls[d].stage != Waiting)
    && (forall i :: 0 <= i < |s.begun| ==> s.begun[i] == i)
    && |s.settled| == d + Extra(d < |s.calls| && s.calls[d].answer.Some?)
    && (forall i :: 0 <= i < |s.settled| ==> s.settled[i].0 == i && s.calls[i].answer == Some(s.settled[i].1))
  }

  predicate Serial(s: State) {
    Guarded(s.wiring) && Lined(s, s.passed) && Recorded(s, s.passed)
  }

  /** A step of the call underway that leaves it underway. */
  lemma CurrentMoves(s: State, t: State, d: nat)
    requires Serial(s) && d == s.passed == t.passed && d < |s.calls| && t.wiring == s.wiring
    requires |t.calls| == |s.calls| && t.calls == s.calls[d := t.calls[d]] && Underway(t.wiring, t.calls[d])
    requires t.syncPromise == if t.calls[d].stage.Network? then Some(d) else None
    requires s.calls[d].stage != Waiting ==> t.calls[d].stage != Waiting && t.begun == s.begun
    requires s.calls[d].stage == Waiting ==> t.begun == if t.calls[d].stage == Waiting then s.begun else s.begun + [d]
    requires s.calls[d].answer.Some? ==> t.calls[d].answer == s.calls[d].answer && t.settled == s.settled
    requires s.calls[d].answer.None? ==>
               t.settled == if t.calls[d].answer.None? then s.settled else s.settled + [(d, t.calls[d].answer.value)]
    ensures Serial(t) && s.settled <= t.settled
  {
  }

  lemma BeginsAtFront(s: State, i: nat)
    requires Serial(s) && Enabled(s, Begin(i))
    ensures i == s.passed && s.syncPromise == None
  {
  }

  lemma BeginKept(s: State, i: nat)
    requires Serial(s) && Enabled(s, Begin(i))
    ensures i == s.passed && s.syncPromise == None
    ensures Serial(Step(s, Begin(i))) && s.settled <= Step(s, Begin(i)).settled
  {
    BeginsAtFront(s, i);
    CurrentMoves(s, Step(s, Begin(i)), i);
  }

  lemma NetworkKept(s: State, e: Event)
    requires Serial(s) && Enabled(s, e) && (e.CredsArrive? || e.NetworkEnds?)
    ensures e.i == s.passed
    ensures Serial(Step(s, e)) && s.settled <= Step(s, e).settled
  {
    CurrentMoves(s, Step(s, e), s.passed);
  }

  lemma CallbackKept(s: State, i: nat)
    requires Serial(s) && Enabled(s, CallbackEnds(i))
    ensures i == s.passed
    ensures Serial(Step(s, CallbackEnds(i))) && s.settled <= Step(s, CallbackEnds(i)).settled
  {
    CurrentMoves(s, Step(s, CallbackEnds(i)), s.passed);
  }

  lemma LinkKept(s: State, i: nat)
    requires Serial(s) && Enabled(s, LinkSettles(i))
    ensures i == s.passed
    ensures Serial(Step(s, LinkSettles(i))) && s.settled <= Step(s, LinkSettles(i)).settled
  {
  }

  lemma SerialKept(s: State, e: Event)
    requires Serial(s) && Enabled(s, e)
    ensures Serial(Step(s, e)) && s.settled <= Step(s, e).settled
    ensures !e.LeaderSettled? && !e.CallbackSkipped?
  {
    match e
    case Begin(i) => BeginKept(s, i);
    case CredsArrive(_) => NetworkKept(s, e);
    case NetworkEnds(_) => NetworkKept(s, e);
    case CallbackEnds(i) => CallbackKept(s, i);
    case LinkSettles(i) => LinkKept(s, i);
    case _ =>
  }

  lemma SerialAlong(s: State, events: seq<Event>)
    requires Serial(s) && Run(Moves, s, events)
    ensures Serial(Final(Moves, s, events)) && s.settled <= Final(Moves, s, events).settled
  {
    var inv := (t: State) => Serial(t) && s.settled <= t.settled;
    forall t, e | inv(t) && Moves(t, e).Some?
      ensures inv(Moves(t, e).value)
    {
      SerialKept(t, e);
    }
    InvariantHolds(Moves, inv, s, events);
  }

  predicate InFlight(s: State, i: nat) {
    i < |s.calls| && s.calls[i].stage.Network?
  }

  /**
   With either handler, in every run, whatever fails: calls begin in the order they were made and
   at most one is on the network; callers are told in that order, once each, and what one was told
   is never taken back.
   */
  lemma QueueSerialises(s: State, events: seq<Event>, more: seq<Event>)
    requires Initial(s) && Guarded(s.wiring) && Run(Moves, s, events) && Run(Moves, Final(Moves, s, events), more)
    ensures var t := Final(Moves, s, events);
            && (forall i, j :: InFlight(t, i) && InFlight(t, j) ==> i == j)
            && (forall i :: 0 <= i < |t.begun| ==> t.begun[i] == i)
            && (forall i :: 0 <= i < |t.settled| ==> t.settled[i].0 == i)
            && t.settled <= Final(Moves, t, more).settled
  {
    SerialAlong(s, events);
    SerialAlong(Final(Moves, s, events), more);
  }

  lemma OwnOutcome(s: State, i: nat)
    requires Serial(s) && i < |s.calls|
    ensures var c := s.calls[i];
            && c.link != Rejected && !Enabled(s, CallbackSkipped(i))
            && (c.answer.Some? ==> c.stage == Executed(c.answer.value))
            && (c.link == Fulfilled ==> c.answer.Some?)
  {
  }

  /**
   No link is ever rejected, so no callback is ever skipped: a caller who is told anything is told
   the outcome of his own call, which was executed.
   */
  lemma EveryCallerGetsHisOwn(s: State, events: seq<Event>, i: nat)
    requires Initial(s) && Guarded(s.wiring) && Run(Moves, s, events) && i < |Final(Moves, s, events).calls|
    ensures var t := Final(Moves, s, events); var c := t.calls[i];
            && c.link != Rejected && !Enabled(t, CallbackSkipped(i))
            && (c.answer.Some? ==> c.stage == Executed(c.answer.value))
            && (c.link == Fulfilled ==> c.answer.Some?)
  {
    SerialAlong(s, events);
    OwnOutcome(Final(Moves, s, events), i);
  }

  /** Whenever a call begins, nothing is in flight, and it is the first that has not been served. */
  lemma BeginsAlone(s: State, events: seq<Event>, i: nat)
    requires Initial(s) && Guarded(s.wiring) && Run(Moves, s, events) && Enabled(Final(Moves, s, events), Begin(i))
    ensures var t := Final(Moves, s, events);
            t.syncPromise == None && i == t.passed && forall j :: !InFlight(t, j)
  {
    SerialAlong(s, events);
    BeginKept(Final(Moves, s, events), i);
  }

  /**
   In every run a call that begins goes to the server unless the credentials at hand are young
   enough for it: two seconds for a challenge's forced call, five minutes for an unforced one that
   applies nothing. A forced call with the user's choice of a proxy always goes.
   */
  lemma WhoReachesTheServer(s: State, events: seq<Event>, i: nat)
    requires Initial(s) && Guarded(s.wiring) && Run(Moves, s, events) && Enabled(Final(Moves, s, events), Begin(i))
    ensures var t := Final(Moves, s, events);
            var r, stage := t.calls[i].request, Step(t, Begin(i)).calls[i].stage;
            var patience := if r.force then FRESH_MS else TTL_MS;
            if r.apply || (r.force && r.selects) || !Younger(t, patience) then stage == Network(false)
            else stage == Executed(Returned(t.cache))
  {
    BeginsAlone(s, events, i);
  }

  // ---------------------------------------------------------------- no call is blocked

  predicate QueueEvent(e: Event) {
    e.Begin? || e.CallbackSkipped? || e.LeaderSettled? || e.CredsArrive? || e.NetworkEnds? || e.CallbackEnds? || e.LinkSettles?
  }

  function Weight(c: Call): nat {
    if c.link != Pending then 0
    else if c.callback != Pending then 1
    else
      match c.stage
      case Executed(_) => 2
      case Network(fetched) => if fetched then 3 else 4
      case _ => 5
  }

  /** How many queue events are left at most. */
  function Rank(calls: seq<Call>): nat {
    if calls == [] then 0 else Weight(calls[0]) + Rank(calls[1..])
  }

  lemma {:induction false} RankOfUpdate(calls: seq<Call>, i: nat, c: Call)
    requires i < |calls|
    ensures Rank(calls[i := c]) == Rank(calls) - Weight(calls[i]) + Weight(c)
  {
    if i == 0 {
      assert calls[i := c][1..] == calls[1..];
    } else {
      assert calls[i := c][1..] == calls[1..][i - 1 := c];
      RankOfUpdate(calls[1..], i - 1, c);
    }
  }

  /** A queue event changes one call only. */
  lemma StepIsLocal(s: State, e: Event)
    requires Enabled(s, e) && QueueEvent(e)
    ensures OnlyCall(s, Step(s, e), e.i)
  {
  }

  lemma BeginWeighs(s: State, i: nat)
    requires Serial(s) && Enabled(s, Begin(i))
    ensures i == s.passed && Weight(Step(s, Begin(i)).calls[i]) < Weight(s.calls[i])
  {
    BeginsAtFront(s, i);
  }

  lemma QueueEventWeighs(s: State, e: Event)
    requires Serial(s) && Enabled(s, e) && QueueEvent(e)
    ensures e.i == s.passed && Weight(Step(s, e).calls[e.i]) < Weight(s.calls[e.i])
  {
    SerialKept(s, e);
    if e.Begin? {
      BeginWeighs(s, e.i);
    }
  }

  lemma QueueEventShrinks(s: State, e: Event)
    requires Serial(s) && Enabled(s, e) && QueueEvent(e)
    ensures Rank(Step(s, e).calls) < Rank(s.calls) && |Step(s, e).calls| == |s.calls|
  {
    StepIsLocal(s, e);
    QueueEventWeighs(s, e);
    RankOfUpdate(s.calls, e.i, Step(s, e).calls[e.i]);
  }

  /** The step that the call underway can take next. */
  function Next(s: State): Event
    requires s.passed < |s.calls|
  {
    var c := s.calls[s.passed];
    if c.callback != Pending then LinkSettles(s.passed)
    else if c.stage.Executed? then CallbackEnds(s.passed)
    else if c.stage.Network? then NetworkEnds(s.passed)
    else Begin(s.passed)
  }

  /**
   With either handler and failures included, a queue that is left to itself never gets stuck: as
   long as a call has not been served one of its steps can happen, and only finitely many can.
   */
  lemma {:induction false} QueueDrains(s: State, events: seq<Event>)
    requires Serial(s) && Run(Moves, s, events) && forall k :: 0 <= k < |events| ==> QueueEvent(events[k])
    ensures var t := Final(Moves, s, events);
            && |events| <= Rank(s.calls)
            && |t.calls| == |s.calls|
            && (t.passed < |t.calls| ==> QueueEvent(Next(t)) && Enabled(t, Next(t)))
            && (t.passed >= |t.calls| ==> |t.settled| == |t.calls| && forall i :: 0 <= i < |t.calls| ==> Served(t.calls[i]))
    decreases |events|
  {
    if events != [] {
      SerialKept(s, events[0]);
      QueueEventShrinks(s, events[0]);
      QueueDrains(Step(s, events[0]), events[1..]);
    }
  }

  function Failing(i: nat): seq<Event> {
    [NetworkEnds(i), CallbackEnds(i), LinkSettles(i)]
  }

  /** What a failure does to its call, and to whom it is told, up to the link. */
  lemma FailureSteps(s: State, i: nat)
    requires i < |s.calls| && s.calls[i].stage == Network(false)
    requires s.calls[i].callback == Pending && s.calls[i].link == Pending && s.calls[i].answer == None
    ensures Run(Moves, s, Failing(i))
    ensures var t, guarded := Final(Moves, s, Failing(i)), Guarded(s.wiring);
            && OnlyCall(s, t, i) && t.wiring == s.wiring && t.calls[i].stage == Executed(Failed)
            && t.calls[i].link == (if guarded then Fulfilled else Rejected)
            && t.settled == (if guarded then s.settled + [(i, Failed)] else s.settled)
            && t.passed == s.passed + 1 && t.cache == s.cache && t.now == s.now && t.authStarts == s.authStarts
            && t.lookups == s.lookups
  {
    var t := Step(s, NetworkEnds(i));
    assert t == s.(syncPromise := None, calls := s.calls[i := s.calls[i].(stage := Executed(Failed))]);
    FailureIsCaught(t, i);
    var u := Step(t, CallbackEnds(i));
    RunOfThree(Moves, s, NetworkEnds(i), t, CallbackEnds(i), u, LinkSettles(i), Step(u, LinkSettles(i)));
  }

  lemma FailureIsCaught(s: State, i: nat)
    requires i < |s.calls| && s.calls[i] == Call(s.calls[i].request, Executed(Failed), Pending, Pending, None)
    ensures Enabled(s, CallbackEnds(i)) && Enabled(Step(s, CallbackEnds(i)), LinkSettles(i))
    ensures var t, guarded := Step(Step(s, CallbackEnds(i)), LinkSettles(i)), Guarded(s.wiring);
            && OnlyCall(s, t, i) && t.wiring == s.wiring && t.calls[i].stage == Executed(Failed)
            && t.calls[i].link == (if guarded then Fulfilled else Rejected)
            && t.settled == (if guarded then s.settled + [(i, Failed)] else s.settled)
            && t.passed == s.passed + 1 && t.cache == s.cache && t.now == s.now && t.authStarts == s.authStarts
            && t.lookups == s.lookups
  {
  }

  /** With either handler, from every state in which a synchronisation fails, its caller hears of it and the next call begins. */
  lemma FailureUnblocks(s: State, i: nat)
    requires Serial(s) && i < |s.calls| && s.calls[i].stage == Network(false)
    ensures Run(Moves, s, Failing(i)) && Serial(Final(Moves, s, Failing(i)))
    ensures var t := Final(Moves, s, Failing(i));
            && t.settled == s.settled + [(i, Failed)]
            && |t.calls| == |s.calls| && t.passed == i + 1 && (i + 1 < |t.calls| ==> Enabled(t, Begin(i + 1)))
  {
    FailureSteps(s, i);
    SerialAlong(s, Failing(i));
  }

  // ---------------------------------------------------------------- what the handlers are for

  predicate Dead(c: Call) {
    c.stage == Waiting && c.answer == None && c.callback != Fulfilled && c.link != Fulfilled
  }

  /** The link of call i is rejected, and no call behind it was executed or answered. */
  predicate Broken(s: State, i: nat) {
    && !Guarded(s.wiring) && i < |s.calls| && s.calls[i].link == Rejected
    && forall j :: i < j < |s.calls| ==> Dead(s.calls[j])
  }

  lemma CallStaysDead(s: State, e: Event, j: nat)
    requires !Guarded(s.wiring) && 0 < j < |s.calls| && Dead(s.calls[j]) && s.calls[j - 1].link != Fulfilled
    requires Enabled(s, e) && QueueEvent(e)
    ensures |Step(s, e).calls| == |s.calls| && Dead(Step(s, e).calls[j])
  {
    StepIsLocal(s, e);
    if e.i == j {
      assert e.CallbackSkipped? || e.LinkSettles?;
    }
  }

  lemma LinkStaysRejected(s: State, e: Event, i: nat)
    requires i < |s.calls| && s.calls[i].link == Rejected && Enabled(s, e) && QueueEvent(e)
    ensures |Step(s, e).calls| == |s.calls| && Step(s, e).calls[i].link == Rejected
  {
    StepIsLocal(s, e);
  }

  lemma BrokenKept(s: State, e: Event, i: nat)
    requires Broken(s, i) && Enabled(s, e)
    ensures Broken(Step(s, e), i)
  {
    if QueueEvent(e) {
      LinkStaysRejected(s, e, i);
      forall j | i < j < |s.calls|
        ensures Dead(Step(s, e).calls[j])
      {
        CallStaysDead(s, e, j);
      }
    }
  }

  lemma BrokenAlong(s: State, events: seq<Event>, i: nat)
    requires Broken(s, i) && Run(Moves, s, events)
    ensures Broken(Final(Moves, s, events), i)
  {
    var inv := (t: State) => Broken(t, i);
    forall t, e | inv(t) && Moves(t, e).Some?
      ensures inv(Moves(t, e).value)
    {
      BrokenKept(t, e, i);
    }
    InvariantHolds(Moves, inv, s, events);
  }

  /**
   Without both handlers the first failure ends it all: from every state in which a call alone is
   on the network and fails, no call made after it is ever executed or answered, in any run.
   */
  lemma UnguardedQueueStops(s: State, i: nat, events: seq<Event>)
    requires !Guarded(s.wiring) && i < |s.calls| && s.calls[i].stage == Network(false)
    requires s.calls[i].callback == Pending && s.calls[i].link == Pending && s.calls[i].answer == None
    requires forall j :: i < j < |s.calls| ==> Untouched(s.calls[j])
    requires Run(Moves, s, Failing(i)) ==> Run(Moves, Final(Moves, s, Failing(i)), events)
    ensures Run(Moves, s, Failing(i)) && Broken(Final(Moves, Final(Moves, s, Failing(i)), events), i)
  {
    FailureSteps(s, i);
    BrokenAlong(Final(Moves, s, Failing(i)), events, i);
  }

  /** The first call of a worker gets there, whatever it asks for. */
  lemma FirstCallInFlight(s: State, r: Request)
    requires Initial(s)
    ensures Enabled(s, Ask(r)) && Enabled(Step(s, Ask(r)), Begin(0))
    ensures var t := Step(Step(s, Ask(r)), Begin(0));
            && t.wiring == s.wiring && t.calls == [Call(r, Network(false), Pending, Pending, None)]
  {
  }

  /** So without both handlers every worker has runs in which only its first call is ever executed. */
  lemma UnguardedFromTheStart(s: State, r: Request, events: seq<Event>)
    requires Initial(s) && !Guarded(s.wiring)
    ensures Enabled(s, Ask(r)) && Enabled(Step(s, Ask(r)), Begin(0))
    ensures var t := Step(Step(s, Ask(r)), Begin(0));
            Run(Moves, t, Failing(0))
            && (Run(Moves, Final(Moves, t, Failing(0)), events) ==> Broken(Final(Moves, Final(Moves, t, Failing(0)), events), 0))
  {
    FirstCallInFlight(s, r);
    var t := Step(Step(s, Ask(r)), Begin(0));
    FailureSteps(t, 0);
    if Run(Moves, Final(Moves, t, Failing(0)), events) {
      UnguardedQueueStops(t, 0, events);
    }
  }

  // ---------------------------------------------------------------- no caller gets nothing

  predicate NotNull(s: State, c: Call) {
    c.stage != Executed(Returned(None)) && (c.stage == Network(true) ==> s.cache.Some?)
  }

  predicate NothingNull(s: State) {
    forall i :: 0 <= i < |s.calls| ==> NotNull(s, s.calls[i])
  }

  /** Only the call underway can be on the network, so clearing the cache harms no other. */
  lemma NotNullMoves(s: State, t: State, d: nat)
    requires Serial(s) && NothingNull(s) && d == s.passed && OnlyCall(s, t, d) && NotNull(t, t.calls[d])
    ensures NothingNull(t)
  {
    forall i | 0 <= i < |t.calls|
      ensures NotNull(t, t.calls[i])
    {
      assert NotNull(s, s.calls[i]);
    }
  }

  lemma CurrentNotNull(s: State, e: Event)
    requires Serial(s) && NothingNull(s) && Enabled(s, e) && QueueEvent(e) && !e.Begin?
    ensures e.i == s.passed && NotNull(Step(s, e), Step(s, e).calls[e.i])
  {
    SerialKept(s, e);
    assert NotNull(s, s.calls[e.i]);
  }

  lemma NothingNullKept(s: State, e: Event)
    requires Serial(s) && NothingNull(s) && Enabled(s, e)
    ensures NothingNull(Step(s, e))
  {
    if QueueEvent(e) {
      StepIsLocal(s, e);
      if e.Begin? {
        BeginsAtFront(s, e.i);
      } else {
        CurrentNotNull(s, e);
      }
      NotNullMoves(s, Step(s, e), e.i);
    } else {
      NotNullElsewhere(s, e);
    }
  }

  lemma NotNullElsewhere(s: State, e: Event)
    requires NothingNull(s) && Enabled(s, e) && !QueueEvent(e)
    ensures NothingNull(Step(s, e))
  {
    forall i | 0 <= i < |s.calls|
      ensures NotNull(Step(s, e), s.calls[i])
    {
      assert NotNull(s, s.calls[i]);
    }
  }

  predicate SerialNotNull(s: State) {
    Serial(s) && NothingNull(s)
  }

  lemma SerialNotNullKept()
    ensures Keeps(Moves, Anything(), SerialNotNull)
  {
    forall s, e | SerialNotNull(s) && Moves(s, e).Some?
      ensures SerialNotNull(Moves(s, e).value)
    {
      SerialKept(s, e);
      NothingNullKept(s, e);
    }
  }

  /** A caller who is not refused is always handed credentials, although other calls clear the cache. */
  lemma NeverReturnsNull(s: State, events: seq<Event>, i: nat)
    requires Initial(s) && Guarded(s.wiring) && Run(Moves, s, events) && i < |Final(Moves, s, events).calls|
    ensures Final(Moves, s, events).calls[i].answer != Some(Returned(None))
  {
    SerialNotNullKept();
    InvariantHolds(Moves, SerialNotNull, s, events);
    var t := Final(Moves, s, events);
    OwnOutcome(t, i);
    assert NotNull(t, t.calls[i]);
  }

  // ---------------------------------------------------------------- the code as it is written

  /** The worker's variables, and the bookkeeping of the promises. */
  class SyncWorker {
    var calls: seq<Call>
    var memoryCredsCache: Option<int>
    var pecCredsCache: Option<int>
    var lookups: seq<Lookup>
    var syncPromise: Option<nat>
    var now: int
    var begun: seq<nat>
    var settled: seq<(nat, Outcome)>
    var passed: nat
    var authStarts: seq<int>

    function Value(): State
      reads this
    {
      State(AS_WRITTEN, calls, memoryCredsCache, pecCredsCache, lookups, syncPromise, now, begun, settled, passed, authStarts)
    }

    method SyncWithServer(request: Request)
      modifies this
      ensures Value() == Step(old(Value()), Ask(request))
    {
      calls := calls + [Call(request, Waiting, Pending, Pending, None)];
    }

    /** resolve and reject of the caller's promise. */
    method Settle(i: nat, outcome: Outcome)
      requires i < |calls|
      modifies this`calls, this`settled
      ensures Value() == Tell(old(Value()), i, outcome)
    {
      if calls[i].answer.Some? {
        return;
      }
      calls := calls[i := calls[i].(answer := Some(outcome))];
      settled := settled + [(i, outcome)];
    }

    /** executeSync from its check for fresh credentials to the first wait of a synchronisation. */
    method Proceed(i: nat)
      requires i < |calls|
      modifies this
      ensures Value() == Decide(old(Value()), i)
    {
      var r := calls[i].request;
      if !r.apply && r.force && !r.selects {
        var stillFresh := memoryCredsCache.Some? && now - memoryCredsCache.value < 2000;
        if stillFresh {
          calls := calls[i := calls[i].(stage := Executed(Returned(memoryCredsCache)))];
          return;
        }
      }
      if AuthForced(r) {
        authStarts := authStarts + [now];
      }
      if r.force {
        memoryCredsCache := None;
        pecCredsCache := None;
      }
      calls := calls[i := calls[i].(stage := Network(false))];
      syncPromise := Some(i);
    }

    method ExecuteSync(i: nat)
      requires Enabled(Value(), Begin(i))
      modifies this
      ensures Value() == Step(old(Value()), Begin(i))
    {
      begun := begun + [i];
      var r := calls[i].request;
      if !r.apply && !r.force && memoryCredsCache.Some? && now - memoryCredsCache.value < TTL_MS {
        calls := calls[i := calls[i].(stage := Executed(Returned(memoryCredsCache)))];
        return;
      }
      if !r.force && syncPromise.Some? {
        calls := calls[i := calls[i].(stage := Joined(syncPromise.value))];
        return;
      }
      if !r.apply && r.force && !r.selects {
        if syncPromise.Some? {
          calls := calls[i := calls[i].(stage := Awaiting(syncPromise.value))];
          return;
        }
      }
      Proceed(i);
    }

    method StoreCreds(i: nat)
      requires Enabled(Value(), CredsArrive(i))
      modifies this
      ensures Value() == Step(old(Value()), CredsArrive(i))
    {
      memoryCredsCache := Some(now);
      pecCredsCache := memoryCredsCache;
      calls := calls[i := calls[i].(stage := Network(true))];
    }

    /** The end of a synchronisation, with the finally block that runs before executeSync settles. */
    method EndNetwork(i: nat)
      requires Enabled(Value(), NetworkEnds(i))
      modifies this
      ensures Value() == Step(old(Value()), NetworkEnds(i))
    {
      var outcome := if calls[i].stage.fetched then Returned(memoryCredsCache) else Failed;
      syncPromise := None;
      calls := calls[i := calls[i].(stage := Executed(outcome))];
    }

    /** The callback behind executeSync: the try block resolves the caller, its catch rejects him. */
    method FinishCallback(i: nat)
      requires Enabled(Value(), CallbackEnds(i))
      modifies this
      ensures Value() == Step(old(Value()), CallbackEnds(i))
    {
      Settle(i, calls[i].stage.outcome);
      calls := calls[i := calls[i].(callback := Fulfilled)];
    }

    /** The `catch` at the end of the chain. */
    method CatchBehindCallback(i: nat)
      requires Enabled(Value(), LinkSettles(i))
      modifies this
      ensures Value() == Step(old(Value()), LinkSettles(i))
    {
      if calls[i].callback == Rejected {
        Settle(i, Failed);
      }
      calls := calls[i := calls[i].(link := Fulfilled)];
      passed := passed + 1;
    }
  }
}
