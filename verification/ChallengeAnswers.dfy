/**
 Challenges and the queue together (extension/background.js, the onAuthRequired handler on top of
 syncWithServer): the handler and the queue share the credentials in memory, a handler that looks
 into session storage waits for one of the queue's lookups, and one that synchronises waits for
 the answer to a call of its own.

 One step is one turn of the event loop within one worker lifetime. Other callers of the queue,
 the clock and the network do as they please.
 */
module ChallengeAnswers {
  import opened Runs
  import opened Wrappers
  import Auth = ProxyAuth
  import Queue = SyncQueue
  import Storm = ChallengeStorm

  /**
   The handler's variables but for the credentials in memory, which the queue has; the queue; which
   call each synchronising challenge made; and for whom each lookup was asked, None at startup.
   */
  datatype State = State(handler: Auth.State, queue: Queue.State, calls: map<nat, nat>, readers: seq<Option<nat>>)

  datatype Event =
    | Challenged(c: Auth.Challenge)
    | Queued(e: Queue.Event)       // any event of the queue but lookups
    | LookupReturns(k: nat)
    | Delivered(n: nat)            // the promise that challenge n waits for has settled

  /** The handler's variables with the credentials in memory. */
  function Handler(s: State): Auth.State {
    s.handler.(memory := s.queue.cache)
  }

  /** The handler supplies credentials if the promise is fulfilled with any. */
  predicate Supplies(answer: Queue.Outcome) {
    answer.Returned? && answer.fetchedAt.Some?
  }

  predicate Settled(s: State, n: nat) {
    n in s.calls && s.calls[n] < |s.queue.calls| && s.queue.calls[s.calls[n]].answer.Some?
  }

  /** What the handler sees of an event. */
  function AuthEvent(s: State, e: Event): Auth.Event
    requires e.Queued? ==> Queue.Enabled(s.queue, e.e)
    requires e.LookupReturns? ==> e.k < |s.queue.lookups| == |s.readers|
    requires e.Delivered? ==> Settled(s, e.n)
  {
    match e
    case Challenged(c) => Auth.Challenged(c)
    case Queued(d) => Auth.MemorySet(Queue.Step(s.queue, d).cache)
    case LookupReturns(k) =>
      if s.readers[k].None? then Auth.MemorySet(Queue.Step(s.queue, Queue.LookupAnswered(k)).cache)
      else Auth.SessionAnswered(s.readers[k].value, s.queue.lookups[k].found)
    case Delivered(n) => Auth.SyncAnswered(n, Supplies(s.queue.calls[s.calls[n]].answer.value))
  }

  predicate Enabled(s: State, e: Event) {
    match e
    case Challenged(c) => c.now == s.queue.now && Auth.Enabled(Handler(s), AuthEvent(s, e))
    case Queued(d) => !d.LookupAsked? && !d.LookupAnswered? && Queue.Enabled(s.queue, d)
    case LookupReturns(k) => k < |s.queue.lookups| == |s.readers| && Auth.Enabled(Handler(s), AuthEvent(s, e))
    case Delivered(n) => Settled(s, n) && Auth.Enabled(Handler(s), AuthEvent(s, e))
  }

  function LookFor(s: State, n: nat): State
    requires Queue.Enabled(s.queue, Queue.LookupAsked)
  {
    s.(queue := Queue.Step(s.queue, Queue.LookupAsked), readers := s.readers + [Some(n)])
  }

  function SyncFor(s: State, n: nat, forced: bool): State {
    s.(queue := Queue.Step(s.queue, Queue.Ask(Queue.Request(forced, false, false))), calls := s.calls[n := |s.queue.calls|])
  }

  /** What the handler of challenge n does at the end of its turn if it has to wait. */
  function Follow(s: State, n: nat): State
    requires n in s.handler.pending && s.handler.pending[n].wait == Auth.SessionRead ==> Queue.Enabled(s.queue, Queue.LookupAsked)
  {
    if n !in s.handler.pending then s
    else
      match s.handler.pending[n].wait
      case SessionRead => LookFor(s, n)
      case Syncing(forced) => SyncFor(s, n, forced)
  }

  /** A handler asks session storage only when the credentials in memory have expired. */
  lemma ReadsWhenExpired(s: Auth.State, c: Auth.Challenge)
    ensures var t := Auth.Handle(s, c);
            s.challenges in t.pending && t.pending[s.challenges].wait == Auth.SessionRead ==> !Auth.ValidAt(s.memory, c.now)
  {
  }

  /** What every event does to the handler's variables. */
  function Handled(s: State, e: Event): State
    requires Enabled(s, e)
  {
    s.(handler := Auth.Step(Handler(s), AuthEvent(s, e)))
  }

  function Without<T>(xs: seq<T>, k: nat): seq<T>
    requires k < |xs|
  {
    xs[..k] + xs[k + 1..]
  }

  function Step(s: State, e: Event): State
    requires Enabled(s, e)
  {
    var t := Handled(s, e);
    match e
    case Challenged(c) =>
      ReadsWhenExpired(Handler(s), c);
      Follow(t, s.handler.challenges)
    case Queued(d) => t.(queue := Queue.Step(s.queue, d))
    case LookupReturns(k) =>
      var u := t.(queue := Queue.Step(s.queue, Queue.LookupAnswered(k)), readers := Without(s.readers, k));
      if s.readers[k].None? then u else Follow(u, s.readers[k].value)
    case Delivered(n) => t
  }

  function Turns(s: State, e: Event): Option<State> {
    if Enabled(s, e) then Some(Step(s, e)) else None
  }

  predicate Initial(s: State) {
    && Auth.Initial(s.handler) && Queue.Initial(s.queue) && Queue.Guarded(s.queue.wiring)
    && s.calls == map[] && s.readers == [None]
  }

  // ---------------------------------------------------------------- every handler has what it waits for

  /** Challenge n has a lookup on its way, or a call of its own in the queue. */
  predicate Served(s: State, n: nat) {
    n in s.handler.pending ==>
      && n < s.handler.challenges
      && match s.handler.pending[n].wait
         case SessionRead => Some(n) in s.readers
         case Syncing(forced) =>
           n in s.calls && s.calls[n] < |s.queue.calls| && s.queue.calls[s.calls[n]].request == Queue.Request(forced, false, false)
  }

  /** Lookup k is the startup one, or one that a waiting challenge asked for when it came. */
  predicate Reads(s: State, k: nat)
    requires k < |s.readers| == |s.queue.lookups|
  {
    var lookup := s.queue.lookups[k];
    match s.readers[k]
    case None => lookup.startup
    case Some(n) =>
      n in s.handler.pending && s.handler.pending[n].wait == Auth.SessionRead && s.handler.pending[n].asked == lookup.asked && !lookup.startup
  }

  predicate Distinct(readers: seq<Option<nat>>) {
    forall j, k :: 0 <= j < k < |readers| && readers[j].Some? ==> readers[j] != readers[k]
  }

  predicate Matched(s: State) {
    && |s.readers| == |s.queue.lookups|
    && (forall n :: n in s.handler.pending ==> Served(s, n))
    && (forall k :: 0 <= k < |s.readers| ==> Reads(s, k))
    && Distinct(s.readers)
  }

  predicate Joined(s: State) {
    Queue.Serial(s.queue) && Matched(s)
  }

  lemma OwnRequestKept(q: Queue.State, e: Queue.Event)
    requires Queue.Enabled(q, e) && Queue.QueueEvent(e)
    ensures Queue.OnlyCall(q, Queue.Step(q, e), e.i) && Queue.Step(q, e).calls[e.i].request == q.calls[e.i].request
  {
    Queue.StepIsLocal(q, e);
  }

  lemma RequestsKept(q: Queue.State, e: Queue.Event)
    requires Queue.Enabled(q, e)
    ensures var t := Queue.Step(q, e);
            |q.calls| <= |t.calls| && forall i :: 0 <= i < |q.calls| ==> t.calls[i].request == q.calls[i].request
  {
    if Queue.QueueEvent(e) {
      OwnRequestKept(q, e);
    }
  }

  lemma LookupsKept(q: Queue.State, e: Queue.Event)
    requires Queue.Enabled(q, e) && !e.LookupAsked? && !e.LookupAnswered?
    ensures Queue.Step(q, e).lookups == q.lookups
  {
  }

  lemma QueuedMatched(s: State, d: Queue.Event)
    requires Matched(s) && Enabled(s, Queued(d))
    ensures Matched(Step(s, Queued(d)))
  {
    RequestsKept(s.queue, d);
    LookupsKept(s.queue, d);
    var t := Step(s, Queued(d));
    assert t.handler.pending == s.handler.pending && t.readers == s.readers && t.calls == s.calls;
    forall n | n in t.handler.pending
      ensures Served(t, n)
    {
      assert Served(s, n);
    }
    forall k | 0 <= k < |t.readers|
      ensures Reads(t, k)
    {
      assert Reads(s, k);
    }
  }

  /** Challenge n has been answered. */
  lemma AnsweredMatched(s: State, t: State, n: nat)
    requires Matched(s) && Some(n) !in s.readers
    requires t.queue == s.queue && t.calls == s.calls && t.readers == s.readers
    requires t.handler.pending == s.handler.pending - {n} && s.handler.challenges <= t.handler.challenges
    ensures Matched(t)
  {
    forall m | m in t.handler.pending
      ensures Served(t, m)
    {
      assert Served(s, m);
    }
    forall k | 0 <= k < |t.readers|
      ensures Reads(t, k)
    {
      assert Reads(s, k);
      assert s.readers[k] in s.readers;
    }
  }

  lemma SyncForMatched(s: State, t: State, n: nat, forced: bool)
    requires Matched(s) && Some(n) !in s.readers && n < t.handler.challenges && s.handler.challenges <= t.handler.challenges
    requires t.queue == s.queue && t.calls == s.calls && t.readers == s.readers
    requires n in t.handler.pending && t.handler.pending[n].wait == Auth.Syncing(forced)
    requires t.handler.pending == s.handler.pending[n := t.handler.pending[n]]
    ensures Matched(SyncFor(t, n, forced))
  {
    var u := SyncFor(t, n, forced);
    forall m | m in u.handler.pending
      ensures Served(u, m)
    {
      if m != n {
        assert Served(s, m);
      }
    }
    forall k | 0 <= k < |u.readers|
      ensures Reads(u, k)
    {
      assert Reads(s, k);
      assert s.readers[k] in s.readers;
    }
  }

  lemma LookForMatched(s: State, t: State, n: nat)
    requires Matched(s) && n !in s.handler.pending && n < t.handler.challenges && s.handler.challenges <= t.handler.challenges
    requires t.queue == s.queue && t.calls == s.calls && t.readers == s.readers
    requires n in t.handler.pending && t.handler.pending[n] == Auth.Pending(t.handler.pending[n].id, Auth.SessionRead, s.queue.now)
    requires t.handler.pending == s.handler.pending[n := t.handler.pending[n]]
    requires Queue.Enabled(t.queue, Queue.LookupAsked)
    ensures Matched(LookFor(t, n))
  {
    var u := LookFor(t, n);
    forall k | 0 <= k < |u.readers|
      ensures Reads(u, k)
    {
      if k < |s.readers| {
        assert Reads(s, k);
      }
    }
    forall m | m in u.handler.pending
      ensures Served(u, m)
    {
      if m != n {
        assert Served(s, m);
      } else {
        assert u.readers[|s.readers|] == Some(n);
      }
    }
    forall j | 0 <= j < |s.readers|
      ensures u.readers[j] != Some(n)
    {
      assert Reads(s, j);
    }
  }

  lemma NumberIsNew(s: State)
    requires Matched(s)
    ensures s.handler.challenges !in s.handler.pending && Some(s.handler.challenges) !in s.readers
  {
    forall n | n in s.handler.pending
      ensures n < s.handler.challenges
    {
      assert Served(s, n);
    }
    forall k | 0 <= k < |s.readers|
      ensures s.readers[k] != Some(s.handler.challenges)
    {
      assert Reads(s, k);
    }
  }

  lemma ChallengedMatched(s: State, c: Auth.Challenge)
    requires Matched(s) && Enabled(s, Challenged(c))
    ensures Matched(Step(s, Challenged(c)))
  {
    var n := s.handler.challenges;
    var t := Handled(s, Challenged(c));
    Auth.HandleShape(Handler(s), c);
    NumberIsNew(s);
    if n !in t.handler.pending {
      AnsweredMatched(s, t, n);
    } else if t.handler.pending[n].wait == Auth.SessionRead {
      ReadsWhenExpired(Handler(s), c);
      LookForMatched(s, t, n);
    } else {
      SyncForMatched(s, t, n, t.handler.pending[n].wait.forced);
    }
  }

  lemma DeliveredMatched(s: State, n: nat)
    requires Matched(s) && Enabled(s, Delivered(n))
    ensures Matched(Step(s, Delivered(n)))
  {
    forall k | 0 <= k < |s.readers|
      ensures s.readers[k] != Some(n)
    {
      assert Reads(s, k);
    }
    AnsweredMatched(s, Step(s, Delivered(n)), n);
  }

  /** The state with lookup k gone, and nobody waiting for it. */
  function WithoutReader(s: State, k: nat): State
    requires k < |s.readers| == |s.queue.lookups|
  {
    var pending := if s.readers[k].Some? then s.handler.pending - {s.readers[k].value} else s.handler.pending;
    State(
      s.handler.(pending := pending),
      Queue.Step(s.queue, Queue.LookupAnswered(k)),
      s.calls,
      Without(s.readers, k))
  }

  lemma OtherReadersMatched(s: State, k: nat)
    requires Matched(s) && k < |s.readers|
    ensures var t := WithoutReader(s, k);
            forall j :: 0 <= j < |t.readers| ==> Reads(t, j) && (s.readers[k].Some? ==> t.readers[j] != s.readers[k])
  {
    var t := WithoutReader(s, k);
    forall j | 0 <= j < |t.readers|
      ensures Reads(t, j) && (s.readers[k].Some? ==> t.readers[j] != s.readers[k])
    {
      assert Reads(s, if j < k then j else j + 1);
    }
  }

  lemma StaysDistinct(readers: seq<Option<nat>>, k: nat)
    requires Distinct(readers) && k < |readers|
    ensures Distinct(Without(readers, k))
  {
    var left := Without(readers, k);
    forall i, j | 0 <= i < j < |left| && left[i].Some?
      ensures left[i] != left[j]
    {
      assert left[i] == readers[if i < k then i else i + 1] && left[j] == readers[if j < k then j else j + 1];
    }
  }

  lemma OthersStillServed(s: State, k: nat, n: nat)
    requires Matched(s) && k < |s.readers| && n in WithoutReader(s, k).handler.pending
    ensures Served(WithoutReader(s, k), n)
  {
    assert Served(s, n);
    if s.handler.pending[n].wait == Auth.SessionRead {
      var i :| 0 <= i < |s.readers| && s.readers[i] == Some(n);
      assert Without(s.readers, k)[if i < k then i else i - 1] == Some(n);
    }
  }

  lemma WithoutReaderMatched(s: State, k: nat)
    requires Matched(s) && k < |s.readers|
    ensures Matched(WithoutReader(s, k))
    ensures s.readers[k].Some? ==> s.readers[k] !in WithoutReader(s, k).readers
  {
    var t := WithoutReader(s, k);
    OtherReadersMatched(s, k);
    forall n | n in t.handler.pending
      ensures Served(t, n)
    {
      OthersStillServed(s, k, n);
    }
    StaysDistinct(s.readers, k);
  }

  lemma SessionTurn(h: Auth.State, n: nat, stored: Option<int>)
    requires Auth.Enabled(h, Auth.SessionAnswered(n, stored))
    ensures var t, p := Auth.Step(h, Auth.SessionAnswered(n, stored)), h.pending[n];
            && t.challenges == h.challenges
            && t.pending == if Auth.ValidAt(stored, p.asked) then h.pending - {n} else h.pending[n := Auth.Pending(p.id, Auth.Syncing(false), p.asked)]
  {
  }

  /** The handler that lookup k was for has answered its challenge, or is about to synchronise. */
  predicate Resumed(m: State, t: State, n: nat) {
    && t.queue == m.queue && t.calls == m.calls && t.readers == m.readers
    && n < m.handler.challenges == t.handler.challenges
    && if n in t.handler.pending then
         t.handler.pending[n].wait == Auth.Syncing(false) && t.handler.pending == m.handler.pending[n := t.handler.pending[n]]
       else
         t.handler.pending == m.handler.pending - {n}
  }

  lemma ResumedMatched(m: State, t: State, n: nat)
    requires Matched(m) && Some(n) !in m.readers && Resumed(m, t, n)
    ensures Matched(Follow(t, n))
  {
    if n in t.handler.pending {
      SyncForMatched(m, t, n, false);
    } else {
      AnsweredMatched(m, t, n);
    }
  }

  lemma HandlerResumes(s: State, k: nat)
    requires Matched(s) && Enabled(s, LookupReturns(k)) && s.readers[k].Some?
    ensures var m := WithoutReader(s, k);
            Resumed(m, Handled(s, LookupReturns(k)).(queue := m.queue, readers := m.readers), s.readers[k].value)
  {
    var n := s.readers[k].value;
    SessionTurn(Handler(s), n, s.queue.lookups[k].found);
    assert Served(s, n);
  }

  lemma HandlersLookupMatched(s: State, k: nat)
    requires Matched(s) && Enabled(s, LookupReturns(k)) && s.readers[k].Some?
    ensures Matched(Step(s, LookupReturns(k)))
  {
    var m, n := WithoutReader(s, k), s.readers[k].value;
    WithoutReaderMatched(s, k);
    HandlerResumes(s, k);
    ResumedMatched(m, Handled(s, LookupReturns(k)).(queue := m.queue, readers := m.readers), n);
  }

  lemma StartupLookupMatched(s: State, k: nat)
    requires Matched(s) && Enabled(s, LookupReturns(k)) && s.readers[k].None?
    ensures Matched(Step(s, LookupReturns(k)))
  {
    var m, t := WithoutReader(s, k), Step(s, LookupReturns(k));
    WithoutReaderMatched(s, k);
    forall n | n in t.handler.pending
      ensures Served(t, n)
    {
      assert Served(m, n);
    }
    forall j | 0 <= j < |t.readers|
      ensures Reads(t, j)
    {
      assert Reads(m, j);
    }
  }

  // ---------------------------------------------------------------- both are runs of their own

  lemma QueueLeads(q: Queue.State, e: Queue.Event)
    requires Queue.Enabled(q, e)
    ensures Reaches(Queue.Moves, q, Queue.Step(q, e))
  {
    RunOfOne(Queue.Moves, q, e);
    ReachesBy(Queue.Moves, q, [e], Queue.Step(q, e));
  }

  lemma FollowLeads(s: State, n: nat)
    requires n in s.handler.pending && s.handler.pending[n].wait == Auth.SessionRead ==> Queue.Enabled(s.queue, Queue.LookupAsked)
    ensures Reaches(Queue.Moves, s.queue, Follow(s, n).queue)
    ensures Follow(s, n).handler == s.handler && Follow(s, n).queue.cache == s.queue.cache
  {
    ReachesBy(Queue.Moves, s.queue, [], s.queue);
    if n in s.handler.pending {
      match s.handler.pending[n].wait
      case SessionRead => QueueLeads(s.queue, Queue.LookupAsked);
      case Syncing(forced) => QueueLeads(s.queue, Queue.Ask(Queue.Request(forced, false, false)));
    }
  }

  /** A step is one step of the handler alone, which finds in memory what the queue has there, and some steps of the queue alone. */
  lemma StepProjects(s: State, e: Event)
    requires Matched(s) && Enabled(s, e)
    ensures Auth.Turns(Handler(s), AuthEvent(s, e)) == Some(Handler(Step(s, e)))
    ensures Reaches(Queue.Moves, s.queue, Step(s, e).queue)
  {
    var t := Handled(s, e);
    match e
    case Challenged(c) =>
      ReadsWhenExpired(Handler(s), c);
      FollowLeads(t, s.handler.challenges);
      MemoryKept(Handler(s), c);
    case Queued(d) =>
      QueueLeads(s.queue, d);
    case LookupReturns(k) =>
      QueueLeads(s.queue, Queue.LookupAnswered(k));
      LookupProjects(s, k);
    case Delivered(n) =>
      ReachesBy(Queue.Moves, s.queue, [], s.queue);
  }

  lemma MemoryKept(s: Auth.State, c: Auth.Challenge)
    ensures Auth.Handle(s, c).memory == s.memory
  {
  }

  lemma LookupProjects(s: State, k: nat)
    requires Matched(s) && Enabled(s, LookupReturns(k))
    requires Reaches(Queue.Moves, s.queue, Queue.Step(s.queue, Queue.LookupAnswered(k)))
    ensures Auth.Step(Handler(s), AuthEvent(s, LookupReturns(k))) == Handler(Step(s, LookupReturns(k)))
    ensures Reaches(Queue.Moves, s.queue, Step(s, LookupReturns(k)).queue)
  {
    var m := WithoutReader(s, k);
    assert Reads(s, k);
    if s.readers[k].Some? {
      var n := s.readers[k].value;
      var t := Handled(s, LookupReturns(k)).(queue := m.queue, readers := m.readers);
      assert t.handler.memory == m.queue.cache;
      FollowLeads(t, n);
      ReachesTransitively(Queue.Moves, s.queue, m.queue, Follow(t, n).queue);
    }
  }

  lemma JoinedKept(s: State, e: Event)
    requires Joined(s) && Enabled(s, e)
    ensures Joined(Step(s, e))
  {
    StepProjects(s, e);
    var t := Step(s, e);
    var events :| Run(Queue.Moves, s.queue, events) && Final(Queue.Moves, s.queue, events) == t.queue;
    Queue.SerialAlong(s.queue, events);
    match e
    case Challenged(c) => ChallengedMatched(s, c);
    case Queued(d) => QueuedMatched(s, d);
    case LookupReturns(k) =>
      if s.readers[k].Some? {
        HandlersLookupMatched(s, k);
      } else {
        StartupLookupMatched(s, k);
      }
    case Delivered(n) => DeliveredMatched(s, n);
  }

  // ---------------------------------------------------------------- every challenge gets its own answer

  ghost predicate Projected(s: State, t: State) {
    Reaches(Auth.Turns, Handler(s), Handler(t)) && Reaches(Queue.Moves, s.queue, t.queue)
  }

  lemma {:induction false} Projects(s: State, events: seq<Event>)
    requires Joined(s) && Run(Turns, s, events)
    ensures Projected(s, Final(Turns, s, events)) && Joined(Final(Turns, s, events))
    decreases |events|
  {
    if events == [] {
      ReachesBy(Auth.Turns, Handler(s), [], Handler(s));
      ReachesBy(Queue.Moves, s.queue, [], s.queue);
    } else {
      var t, u := Step(s, events[0]), Final(Turns, s, events);
      StepProjects(s, events[0]);
      JoinedKept(s, events[0]);
      Projects(t, events[1..]);
      RunOfOne(Auth.Turns, Handler(s), AuthEvent(s, events[0]));
      ReachesBy(Auth.Turns, Handler(s), [AuthEvent(s, events[0])], Handler(t));
      ReachesTransitively(Auth.Turns, Handler(s), Handler(t), Handler(u));
      ReachesTransitively(Queue.Moves, s.queue, t.queue, u.queue);
    }
  }

  lemma InitiallyJoined(s: State)
    requires Initial(s)
    ensures Joined(s)
  {
  }

  /**
   Together they do nothing that the handler does not do alone, given what it finds in memory and
   is told, nor anything that the queue does not do alone.
   */
  lemma BothAreRuns(s: State, events: seq<Event>)
    requires Initial(s) && Run(Turns, s, events)
    ensures var t := Final(Turns, s, events);
            && (exists own :: Run(Auth.Turns, s.handler, own) && Final(Auth.Turns, s.handler, own) == Handler(t))
            && (exists own :: Run(Queue.Moves, s.queue, own) && Final(Queue.Moves, s.queue, own) == t.queue)
  {
    InitiallyJoined(s);
    Projects(s, events);
    assert Handler(s) == s.handler;
  }

  /**
   In every run, what a challenge is told when the promise it waits for settles is what became of
   a synchronisation of its own, forced if it was not the request's first: credentials if and only
   if that did not fail.
   */
  lemma ToldHisOwn(s: State, events: seq<Event>, n: nat)
    requires Initial(s) && Run(Turns, s, events) && Enabled(Final(Turns, s, events), Delivered(n))
    ensures var t := Final(Turns, s, events);
            var call, pending := t.queue.calls[t.calls[n]], t.handler.pending[n];
            && pending.wait.Syncing? && call.request == Queue.Request(pending.wait.forced, false, false)
            && call.stage == Queue.Executed(call.answer.value)
            && Step(t, Delivered(n)).handler.log
            == t.handler.log + [Auth.Answer(n, pending.id, call.stage.outcome != Queue.Failed)]
  {
    InitiallyJoined(s);
    Projects(s, events);
    var t := Final(Turns, s, events);
    assert Served(t, n);
    Queue.OwnOutcome(t.queue, t.calls[n]);
    var own :| Run(Queue.Moves, s.queue, own) && Final(Queue.Moves, s.queue, own) == t.queue;
    Queue.NeverReturnsNull(s.queue, own, t.calls[n]);
  }

  // ---------------------------------------------------------------- none waits for ever

  /** An event that needs nothing new from outside: the queue goes on, a lookup or a promise is answered. */
  predicate Inner(s: State, e: Event) {
    match e
    case Challenged(_) => false
    case Queued(d) => Queue.QueueEvent(d)
    case LookupReturns(_) => true
    case Delivered(_) => true
  }

  const CALL_WEIGHT := 5

  /** How many inner events are left at most. */
  function Rank(s: State): nat {
    Queue.Rank(s.queue.calls) + (CALL_WEIGHT + 1) * |s.queue.lookups| + |s.handler.pending|
  }

  lemma {:induction false} RankOfMore(calls: seq<Queue.Call>, c: Queue.Call)
    ensures Queue.Rank(calls + [c]) == Queue.Rank(calls) + Queue.Weight(c)
  {
    if calls == [] {
      assert calls + [c] == [c] && [c][1..] == [];
    } else {
      assert (calls + [c])[1..] == calls[1..] + [c];
      RankOfMore(calls[1..], c);
    }
  }

  lemma FollowRank(m: State, t: State, n: nat)
    requires Resumed(m, t, n)
    ensures Rank(Follow(t, n)) <= Rank(m) + CALL_WEIGHT + 1
  {
    RankOfMore(m.queue.calls, Queue.Call(Queue.Request(false, false, false), Queue.Waiting, Queue.Pending, Queue.Pending, None));
  }

  lemma LookupShrinks(s: State, k: nat)
    requires Joined(s) && Enabled(s, LookupReturns(k))
    ensures Rank(Step(s, LookupReturns(k))) < Rank(s)
  {
    var m := WithoutReader(s, k);
    assert Reads(s, k);
    if s.readers[k].Some? {
      var n := s.readers[k].value;
      assert |m.handler.pending| == |s.handler.pending| - 1;
      HandlerResumes(s, k);
      FollowRank(m, Handled(s, LookupReturns(k)).(queue := m.queue, readers := m.readers), n);
    }
  }

  lemma InnerShrinks(s: State, e: Event)
    requires Joined(s) && Enabled(s, e) && Inner(s, e)
    ensures Rank(Step(s, e)) < Rank(s)
  {
    match e
    case Queued(d) =>
      Queue.QueueEventShrinks(s.queue, d);
      LookupsKept(s.queue, d);
    case LookupReturns(k) => LookupShrinks(s, k);
    case Delivered(n) =>
      assert Step(s, e).handler.pending == s.handler.pending - {n};
  }

  lemma {:induction false} InnerBounded(s: State, events: seq<Event>)
    requires Joined(s) && Run(Turns, s, events) && Only(Turns, Inner, s, events)
    ensures |events| <= Rank(s)
    decreases |events|
  {
    if events != [] {
      InnerShrinks(s, events[0]);
      JoinedKept(s, events[0]);
      InnerBounded(Step(s, events[0]), events[1..]);
    }
  }

  /** No inner event can happen. */
  ghost predicate AtRest(s: State) {
    forall e :: Inner(s, e) ==> !Enabled(s, e)
  }

  lemma LookupCanReturn(s: State)
    requires Joined(s) && s.readers != []
    ensures Inner(s, LookupReturns(0)) && Enabled(s, LookupReturns(0))
  {
    assert Reads(s, 0);
  }

  lemma QueueCanGoOn(s: State)
    requires Joined(s) && s.queue.passed < |s.queue.calls|
    ensures Inner(s, Queued(Queue.Next(s.queue))) && Enabled(s, Queued(Queue.Next(s.queue)))
  {
    Queue.QueueDrains(s.queue, []);
  }

  lemma PromiseCanSettle(s: State, n: nat)
    requires Joined(s) && s.queue.passed == |s.queue.calls| && s.readers == [] && n in s.handler.pending
    ensures Inner(s, Delivered(n)) && Enabled(s, Delivered(n))
  {
    assert Served(s, n);
    Queue.QueueDrains(s.queue, []);
  }

  lemma NobodyWaitsAtRest(s: State)
    requires Joined(s) && AtRest(s)
    ensures s.handler.pending == map[]
  {
    if s.readers != [] {
      LookupCanReturn(s);
    } else if s.queue.passed < |s.queue.calls| {
      QueueCanGoOn(s);
    } else if n :| n in s.handler.pending {
      PromiseCanSettle(s, n);
    }
  }

  /** At rest nobody waits, and every challenge has had exactly one answer. */
  lemma AnsweredAtRest(s: State, events: seq<Event>, n: nat)
    requires Initial(s) && Run(Turns, s, events) && AtRest(Final(Turns, s, events))
    ensures var t := Final(Turns, s, events);
            t.handler.pending == map[] && (n < t.handler.challenges ==> Auth.Times(t.handler.log, n) == 1)
  {
    InitiallyJoined(s);
    Projects(s, events);
    var t := Final(Turns, s, events);
    var own :| Run(Auth.Turns, Handler(s), own) && Final(Auth.Turns, Handler(s), own) == Handler(t);
    Auth.ExactlyOneAnswer(Handler(s), own, n);
    NobodyWaitsAtRest(t);
  }

  /**
   From every reachable state, failures included: if no further challenges or calls come, only
   finitely many things can still happen, and when nothing more can, every challenge there was has
   had exactly one answer.
   */
  lemma EveryChallengeAnswered(s: State, events: seq<Event>, more: seq<Event>, n: nat)
    requires Initial(s) && Run(Turns, s, events) && Run(Turns, Final(Turns, s, events), more)
    requires Only(Turns, Inner, Final(Turns, s, events), more)
    ensures |more| <= Rank(Final(Turns, s, events))
    ensures var t := Final(Turns, Final(Turns, s, events), more);
            AtRest(t) ==> t.handler.pending == map[] && (n < t.handler.challenges ==> Auth.Times(t.handler.log, n) == 1)
  {
    InitiallyJoined(s);
    Projects(s, events);
    InnerBounded(Final(Turns, s, events), more);
    RunConcat(Turns, s, events, more);
    if AtRest(Final(Turns, s, events + more)) {
      AnsweredAtRest(s, events + more, n);
    }
  }

  // ---------------------------------------------------------------- no storm

  /** No synchronisation fails, and no lookup brings credentials back late. */
  predicate Calm(s: State, e: Event) {
    match e
    case Queued(d) => Storm.Succeeds(s.queue, d)
    case LookupReturns(k) => !Storm.Late(s.queue, Queue.LookupAnswered(k))
    case _ => true
  }

  lemma FollowStaysProtected(s: State, n: nat)
    requires Storm.AllProtected(s.queue)
    requires n in s.handler.pending && s.handler.pending[n].wait == Auth.SessionRead ==> Queue.Enabled(s.queue, Queue.LookupAsked)
    ensures Storm.AllProtected(Follow(s, n).queue)
  {
    Storm.AllProtectedKept();
    if n in s.handler.pending {
      match s.handler.pending[n].wait
      case SessionRead => assert Storm.AllProtected(Queue.Moves(s.queue, Queue.LookupAsked).value);
      case Syncing(forced) =>
        assert Storm.AllProtected(Queue.Moves(s.queue, Queue.Ask(Queue.Request(forced, false, false))).value);
    }
  }

  lemma StepStaysProtected(s: State, e: Event)
    requires Storm.AllProtected(s.queue) && Enabled(s, e) && Calm(s, e)
    ensures Storm.AllProtected(Step(s, e).queue)
  {
    Storm.AllProtectedKept();
    match e
    case Challenged(c) =>
      ReadsWhenExpired(Handler(s), c);
      FollowStaysProtected(Handled(s, e), s.handler.challenges);
    case Queued(d) => assert Storm.AllProtected(Queue.Moves(s.queue, d).value);
    case LookupReturns(k) =>
      var q := Queue.Step(s.queue, Queue.LookupAnswered(k));
      assert Storm.AllProtected(Queue.Moves(s.queue, Queue.LookupAnswered(k)).value);
      if s.readers[k].Some? {
        FollowStaysProtected(Handled(s, e).(queue := q, readers := Without(s.readers, k)), s.readers[k].value);
      }
    case Delivered(_) =>
  }

  predicate Protected(s: State) {
    Storm.AllProtected(s.queue)
  }

  lemma CalmKeepsProtected()
    ensures Keeps(Turns, Calm, Protected)
  {
    forall s, e | Protected(s) && Calm(s, e) && Turns(s, e).Some?
      ensures Protected(Turns(s, e).value)
    {
      StepStaysProtected(s, e);
    }
  }

  lemma StartsProtected(q: Queue.State)
    requires Queue.Initial(q) && Queue.Guarded(q.wiring)
    ensures Storm.AllProtected(q)
  {
  }

  lemma CalmStaysProtected(s: State, events: seq<Event>)
    requires Initial(s) && Run(Turns, s, events) && Only(Turns, Calm, s, events)
    ensures Storm.AllProtected(Final(Turns, s, events).queue)
  {
    CalmKeepsProtected();
    StartsProtected(s.queue);
    KeptAlong(Turns, Calm, Protected, s, events);
  }

  /**
   However many challenges arrive, and whatever else is asked of the queue: if no synchronisation
   fails and no lookup comes late, the forced synchronisations that challenges start are two seconds
   apart.
   */
  lemma ChallengesStaySpaced(s: State, events: seq<Event>, from: int, window: nat)
    requires Initial(s) && Run(Turns, s, events) && Only(Turns, Calm, s, events)
    ensures Storm.Spaced(Final(Turns, s, events).queue.authStarts)
    ensures Storm.CountIn(Final(Turns, s, events).queue.authStarts, from, from + window) <= 1 + window / Queue.FRESH_MS
  {
    CalmStaysProtected(s, events);
    Storm.ProtectedBound(Final(Turns, s, events).queue, from, window);
  }
}
