/**
 The administrator sessions (src/auth.ts): a store with a sliding time to live, cleaned in the
 background. The background cleaning and the deletions that validation makes on the way are
 unobservable, and whether a session validates depends only on its history.

 Ids come from a random generator; the empty id stands for a missing one.
 */
module Sessions {
  import opened Wrappers

  const SESSION_TTL_MS := 8 * 60 * 60 * 1000

  datatype Session = Session(createdAt: int, expiresAt: int, ip: string, username: string)

  type Store = map<string, Session>

  datatype Op =
    | Create(id: string, ip: string, username: string)
    | Validate(id: string)
    | Revoke(id: string)
    | Expiry(id: string)
    | Username(id: string)
    | ClearExcept(keep: string)
    | ClearAll
    | Cleanup

  datatype Answer = Created(expiresAt: int) | Yes | No | Time(time: Option<int>) | Name(name: Option<string>) | Silent

  /** An operation and what the clock shows when it runs. */
  datatype Event = Event(now: int, op: Op)

  // ---------------------------------------------------------------- the operations

  predicate Expired(s: Session, now: int) {
    now > s.expiresAt
  }

  function Unexpired(m: Store, now: int): Store {
    map id | id in m && !Expired(m[id], now) :: m[id]
  }

  function Only(m: Store, keep: string): Store {
    map id | id in m && id == keep :: m[id]
  }

  /** The store and the answer after an operation; a store that does not clean keeps expired sessions for ever. */
  function Apply(cleans: bool, m: Store, e: Event): (Store, Answer) {
    var now := e.now;
    match e.op
    case Create(id, ip, username) =>
      (m[id := Session(now, now + SESSION_TTL_MS, ip, username)], Created(now + SESSION_TTL_MS))
    case Validate(id) =>
      if id == "" || id !in m then (m, No)
      else if Expired(m[id], now) then (if cleans then m - {id} else m, No)
      else (m[id := m[id].(expiresAt := now + SESSION_TTL_MS)], Yes)
    case Revoke(id) => if id != "" && id in m then (m - {id}, Yes) else (m, No)
    case Expiry(id) =>
      (m, Time(if id == "" || id !in m || Expired(m[id], now) then None else Some(m[id].expiresAt)))
    case Username(id) =>
      (m, Name(if id == "" || id !in m || Expired(m[id], now) then None else Some(m[id].username)))
    case ClearExcept(keep) => (Only(m, keep), Silent)
    case ClearAll => (map[], Silent)
    case Cleanup => (if cleans then Unexpired(m, now) else m, Silent)
  }

  function After(cleans: bool, m: Store, events: seq<Event>): Store {
    if events == [] then m else Apply(cleans, After(cleans, m, events[..|events| - 1]), events[|events| - 1]).0
  }

  /** The answer to one more operation after a history that began with no sessions. */
  function AnswerTo(cleans: bool, history: seq<Event>, e: Event): Answer {
    Apply(cleans, After(cleans, map[], history), e).1
  }

  predicate Monotone(events: seq<Event>) {
    forall i :: 0 <= i < |events| - 1 ==> events[i].now <= events[i + 1].now
  }

  // ---------------------------------------------------------------- cleaning is unobservable

  /** The cleaned store lacks nothing of the other but sessions expired by now. */
  ghost predicate SameLive(m: Store, r: Store, now: int) {
    forall id ::
      && (id in m ==> id in r && r[id] == m[id])
      && (id in r && !Expired(r[id], now) ==> id in m)
  }

  lemma SameLiveKept(m: Store, r: Store, e: Event)
    requires SameLive(m, r, e.now)
    ensures SameLive(Apply(true, m, e).0, Apply(false, r, e).0, e.now)
    ensures !e.op.Revoke? ==> Apply(true, m, e).1 == Apply(false, r, e).1
  {
  }

  lemma {:induction false} SameLiveAfter(history: seq<Event>, now: int)
    requires Monotone(history) && (history != [] ==> history[|history| - 1].now <= now)
    ensures SameLive(After(true, map[], history), After(false, map[], history), now)
  {
    if history != [] {
      var before, e := history[..|history| - 1], history[|history| - 1];
      SameLiveAfter(before, e.now);
      SameLiveKept(After(true, map[], before), After(false, map[], before), e);
    }
  }

  lemma MonotoneBefore(history: seq<Event>, e: Event)
    requires Monotone(history + [e])
    ensures Monotone(history) && (history != [] ==> history[|history| - 1].now <= e.now)
  {
    var all := history + [e];
    assert forall i :: 0 <= i < |history| ==> all[i] == history[i];
    assert forall i :: 0 <= i < |history| - 1 ==> all[i].now <= all[i + 1].now;
    assert history != [] ==> all[|history| - 1].now <= all[|history|].now;
  }

  /**
   After any history with a monotone clock every operation answers as in a store that never
   cleans, except that revoking may report an expired session as already gone.
   */
  lemma CleaningUnobservable(history: seq<Event>, e: Event)
    requires Monotone(history + [e])
    ensures !e.op.Revoke? ==> AnswerTo(true, history, e) == AnswerTo(false, history, e)
    ensures e.op.Revoke? && AnswerTo(true, history, e) != AnswerTo(false, history, e) ==>
              AnswerTo(true, history, e) == No && AnswerTo(true, history, Event(e.now, Validate(e.op.id))) == No
  {
    MonotoneBefore(history, e);
    SameLiveAfter(history, e.now);
    SameLiveKept(After(true, map[], history), After(false, map[], history), e);
  }

  // ---------------------------------------------------------------- what decides validity

  predicate Creates(op: Op, id: string) {
    op.Create? && op.id == id
  }

  predicate Ends(op: Op, id: string) {
    op == Revoke(id) || op.ClearAll? || (op.ClearExcept? && op.keep != id)
  }

  /** The times a session was created and validated since, if it was not revoked or cleared. */
  function Touches(history: seq<Event>, id: string): Option<seq<int>> {
    if history == [] then None
    else
      var e := history[|history| - 1];
      var before := Touches(history[..|history| - 1], id);
      if Creates(e.op, id) then Some([e.now])
      else if Ends(e.op, id) then None
      else if e.op == Validate(id) && before.Some? then Some(before.value + [e.now])
      else before
  }

  predicate NoGap(times: seq<int>) {
    forall i :: 0 <= i < |times| - 1 ==> times[i + 1] - times[i] <= SESSION_TTL_MS
  }

  /** The expiry a store without cleaning keeps for a session touched at these times. */
  predicate ExpiryFits(expiresAt: int, times: seq<int>)
    requires times != []
  {
    if NoGap(times) then expiresAt == times[|times| - 1] + SESSION_TTL_MS else expiresAt < times[|times| - 1]
  }

  predicate StoreFits(r: Store, history: seq<Event>, id: string) {
    var times := Touches(history, id);
    && (id in r <==> times.Some?)
    && (times.Some? ==>
          && times.value != [] && ExpiryFits(r[id].expiresAt, times.value)
          && times.value[|times.value| - 1] <= history[|history| - 1].now)
  }

  lemma NoGapNext(times: seq<int>, now: int)
    requires times != []
    ensures NoGap(times + [now]) <==> NoGap(times) && now - times[|times| - 1] <= SESSION_TTL_MS
  {
    var more := times + [now];
    assert more[|times| - 1] == times[|times| - 1] && more[|times|] == now;
    assert forall i :: 0 <= i < |times| ==> more[i] == times[i];
    if NoGap(more) {
      assert forall i :: 0 <= i < |times| - 1 ==> more[i + 1] - more[i] <= SESSION_TTL_MS;
    }
  }

  lemma {:induction false} StoreFitsHistory(history: seq<Event>, id: string)
    requires Monotone(history) && id != ""
    ensures StoreFits(After(false, map[], history), history, id)
  {
    if history != [] {
      var before, e := history[..|history| - 1], history[|history| - 1];
      StoreFitsHistory(before, id);
      if before != [] {
        assert history[|history| - 2].now <= e.now;
      }
      var times := Touches(before, id);
      if times.Some? {
        NoGapNext(times.value, e.now);
      }
    }
  }

  /**
   After any history with a monotone clock, cleaned or not, a session validates if and only if
   it was created, was not revoked or cleared since, and no time between two touches, up to now,
   exceeded the time to live.
   */
  lemma ValidIffTouched(history: seq<Event>, id: string, now: int)
    requires id != "" && Monotone(history + [Event(now, Validate(id))])
    ensures AnswerTo(true, history, Event(now, Validate(id))) == Yes
       <==> Touches(history, id).Some? && NoGap(Touches(history, id).value + [now])
  {
    var e := Event(now, Validate(id));
    CleaningUnobservable(history, e);
    MonotoneBefore(history, e);
    StoreFitsHistory(history, id);
    var times := Touches(history, id);
    if times.Some? {
      NoGapNext(times.value, now);
    }
  }

  /** The expiry answered for a session is its last touch plus the time to live, and is answered exactly while it validates. */
  lemma ExpiryIsLastTouch(history: seq<Event>, id: string, now: int)
    requires id != "" && Monotone(history + [Event(now, Expiry(id))])
    ensures var times, answer := Touches(history, id), AnswerTo(true, history, Event(now, Expiry(id)));
            && (times.Some? ==> times.value != [])
            && answer == Time(if times.Some? && NoGap(times.value + [now]) then Some(times.value[|times.value| - 1] + SESSION_TTL_MS) else None)
  {
    var e := Event(now, Expiry(id));
    CleaningUnobservable(history, e);
    MonotoneBefore(history, e);
    StoreFitsHistory(history, id);
    var times := Touches(history, id);
    if times.Some? {
      NoGapNext(times.value, now);
    }
  }

  // ---------------------------------------------------------------- what revoking tells

  /** Left alone for too long before now. */
  predicate Lapsed(history: seq<Event>, id: string, now: int) {
    Touches(history, id).Some? && !NoGap(Touches(history, id).value + [now])
  }

  /** Since its creation, the background task or a validation came across the session when it had lapsed. */
  predicate Swept(history: seq<Event>, id: string) {
    history != []
    && var before, e := history[..|history| - 1], history[|history| - 1];
       if Creates(e.op, id) || Ends(e.op, id) then false
       else (Sweeps(e.op, id) && Lapsed(before, id, e.now)) || Swept(before, id)
  }

  lemma LapsedIsExpired(history: seq<Event>, id: string, now: int)
    requires Monotone(history) && id != "" && (history != [] ==> history[|history| - 1].now <= now)
    ensures var r := After(false, map[], history);
            && (id in r <==> Touches(history, id).Some?)
            && (Lapsed(history, id, now) <==> id in r && Expired(r[id], now))
  {
    StoreFitsHistory(history, id);
    var times := Touches(history, id);
    if times.Some? {
      NoGapNext(times.value, now);
    }
  }

  predicate Sweeps(op: Op, id: string) {
    op.Cleanup? || op == Validate(id)
  }

  lemma StaysUnlessSwept(m: Store, e: Event, id: string)
    requires id != ""
    ensures id in Apply(true, m, e).0
       <==> Creates(e.op, id) || (!Ends(e.op, id) && id in m && !(Sweeps(e.op, id) && Expired(m[id], e.now)))
  {
  }

  lemma TouchedStill(history: seq<Event>, id: string)
    requires history != []
    ensures var before, op := history[..|history| - 1], history[|history| - 1].op;
            Touches(history, id).Some? <==> Creates(op, id) || (!Ends(op, id) && Touches(before, id).Some?)
  {
  }

  /** A session that the cleaned store has was touched, and is expired exactly if it has lapsed. */
  lemma KeptLapsed(history: seq<Event>, id: string, now: int)
    requires Monotone(history) && id != "" && (history != [] ==> history[|history| - 1].now <= now)
    requires id in After(true, map[], history)
    ensures Touches(history, id).Some? && (Lapsed(history, id, now) <==> Expired(After(true, map[], history)[id], now))
  {
    SameLiveAfter(history, now);
    LapsedIsExpired(history, id, now);
  }

  lemma {:induction false} SweptIsGone(history: seq<Event>, id: string)
    requires Monotone(history) && id != ""
    ensures id in After(true, map[], history) <==> Touches(history, id).Some? && !Swept(history, id)
    ensures Swept(history, id) ==> Touches(history, id).Some?
  {
    if history != [] {
      var before, e := history[..|history| - 1], history[|history| - 1];
      assert before + [e] == history;
      MonotoneBefore(before, e);
      SweptIsGone(before, id);
      StaysUnlessSwept(After(true, map[], before), e, id);
      TouchedStill(history, id);
      if id in After(true, map[], before) {
        KeptLapsed(before, id, e.now);
      }
    }
  }

  /**
   After any history with a monotone clock, revoking answers differently than in a store that
   never cleans if and only if the session had lapsed and was swept away since: then it is no
   longer there to revoke.
   */
  lemma RevokeTellsApart(history: seq<Event>, id: string, now: int)
    requires id != "" && Monotone(history + [Event(now, Revoke(id))])
    ensures AnswerTo(true, history, Event(now, Revoke(id))) != AnswerTo(false, history, Event(now, Revoke(id))) <==> Swept(history, id)
    ensures AnswerTo(true, history, Event(now, Revoke(id))) == Yes <==> Touches(history, id).Some? && !Swept(history, id)
  {
    MonotoneBefore(history, Event(now, Revoke(id)));
    SweptIsGone(history, id);
    StoreFitsHistory(history, id);
  }

  /** It happens: created, left alone, cleaned away, revoked in vain. */
  lemma RevokedInVain(id: string, t: int)
    requires id != ""
    ensures var history := [Event(t, Create(id, "", "")), Event(t + SESSION_TTL_MS + 1, Cleanup)];
            var e := Event(t + SESSION_TTL_MS + 1, Revoke(id));
            Monotone(history + [e]) && AnswerTo(true, history, e) == No && AnswerTo(false, history, e) == Yes
  {
    var create, clean := Event(t, Create(id, "", "")), Event(t + SESSION_TTL_MS + 1, Cleanup);
    assert [create, clean][..1] == [create] && [create][..0] == [];
    assert After(true, map[], [create]) == Apply(true, map[], create).0;
    assert After(false, map[], [create]) == Apply(false, map[], create).0;
  }

  // ---------------------------------------------------------------- the code as it is written

  class AdminSessions {
    var sessions: Store

    method CreateAdminSession(id: string, now: int, ip: string, username: string) returns (expiresAt: int)
      modifies this
      ensures sessions == Apply(true, old(sessions), Event(now, Create(id, ip, username))).0
      ensures Created(expiresAt) == Apply(true, old(sessions), Event(now, Create(id, ip, username))).1
    {
      expiresAt := now + SESSION_TTL_MS;
      sessions := sessions[id := Session(now, expiresAt, ip, username)];
    }

    method ValidateAdminSession(id: string, now: int) returns (valid: bool)
      modifies this
      ensures sessions == Apply(true, old(sessions), Event(now, Validate(id))).0
      ensures (if valid then Yes else No) == Apply(true, old(sessions), Event(now, Validate(id))).1
    {
      if id == "" {
        return false;
      }
      if id !in sessions {
        return false;
      }
      if now > sessions[id].expiresAt {
        sessions := sessions - {id};
        return false;
      }
      sessions := sessions[id := sessions[id].(expiresAt := now + SESSION_TTL_MS)];
      return true;
    }

    method RevokeAdminSession(id: string, now: int) returns (revoked: bool)
      modifies this
      ensures sessions == Apply(true, old(sessions), Event(now, Revoke(id))).0
      ensures (if revoked then Yes else No) == Apply(true, old(sessions), Event(now, Revoke(id))).1
    {
      if id == "" {
        return false;
      }
      revoked := id in sessions;
      if revoked {
        sessions := sessions - {id};
      }
    }

    method GetSessionExpiry(id: string, now: int) returns (time: Option<int>)
      ensures sessions == Apply(true, sessions, Event(now, Expiry(id))).0
      ensures Time(time) == Apply(true, sessions, Event(now, Expiry(id))).1
    {
      if id == "" || id !in sessions {
        return None;
      }
      time := if now > sessions[id].expiresAt then None else Some(sessions[id].expiresAt);
    }

    method GetSessionUsername(id: string, now: int) returns (name: Option<string>)
      ensures sessions == Apply(true, sessions, Event(now, Username(id))).0
      ensures Name(name) == Apply(true, sessions, Event(now, Username(id))).1
    {
      if id == "" || id !in sessions || now > sessions[id].expiresAt {
        return None;
      }
      return Some(sessions[id].username);
    }

    method ClearAllSessions(now: int)
      modifies this
      ensures sessions == Apply(true, old(sessions), Event(now, ClearAll)).0
    {
      sessions := map[];
    }

    method ClearAllSessionsExcept(keepId: string, now: int)
      modifies this
      ensures sessions == Apply(true, old(sessions), Event(now, ClearExcept(keepId))).0
    {
      var before := sessions;
      var left := before.Keys;
      while left != {}
        invariant left <= before.Keys
        invariant forall id :: id in sessions <==> id in before && (id in left || id == keepId)
        invariant forall id :: id in sessions ==> sessions[id] == before[id]
        decreases |left|
      {
        var id :| id in left;
        if id != keepId {
          sessions := sessions - {id};
        }
        left := left - {id};
      }
      assert sessions == Only(before, keepId);
    }

    /** The background task. */
    method CleanUp(now: int)
      modifies this
      ensures sessions == Apply(true, old(sessions), Event(now, Cleanup)).0
    {
      var before := sessions;
      var left := before.Keys;
      while left != {}
        invariant left <= before.Keys
        invariant forall id :: id in sessions <==> id in before && (id in left || !Expired(before[id], now))
        invariant forall id :: id in sessions ==> sessions[id] == before[id]
        decreases |left|
      {
        var id :| id in left;
        if now > before[id].expiresAt {
          sessions := sessions - {id};
        }
        left := left - {id};
      }
      assert sessions == Unexpired(before, now);
    }
  }
}
