/**
 Replacing a file atomically (src/jsonStore.ts): any number of writers, each with a temporary
 file of its own, replace one target by renaming; on Windows a refused rename is tried again
 after unlinking the target. Writers interleave freely, readers look at any moment, and a crash
 may stop every writer after any step and leave the files as they are.

 A temporary file's random name is new. Creating the directory is not part of this model.
 */
module AtomicReplace {
  import opened Runs
  import opened Wrappers

  type Data = string

  /** What a file holds: all of what a writer was given, or part of it. */
  datatype Content = Complete(data: Data) | Torn

  datatype Stage = Writing | Written | Refused | Cleared | Finished | Failed

  datatype Writer = Writer(data: Data, stage: Stage)

  datatype State = State(windows: bool, target: Option<Content>, temps: map<nat, Content>, writers: map<nat, Writer>)

  datatype Event =
    | Begin(i: nat, data: Data)        // the temporary file is opened
    | WriteEnds(i: nat, ok: bool)
    | RenameEnds(i: nat, ok: bool, busy: bool)
    | UnlinkEnds(i: nat, ok: bool)
    | SecondRenameEnds(i: nat, ok: bool)
    | Crash

  predicate At(s: State, i: nat, stage: Stage) {
    i in s.writers && s.writers[i].stage == stage
  }

  predicate Enabled(s: State, e: Event) {
    match e
    case Begin(i, _) => i !in s.writers && i !in s.temps
    case WriteEnds(i, _) => At(s, i, Writing)
    case RenameEnds(i, ok, _) => At(s, i, Written) && (ok ==> i in s.temps)
    case UnlinkEnds(i, _) => At(s, i, Refused)
    case SecondRenameEnds(i, ok) => At(s, i, Cleared) && (ok ==> i in s.temps)
    case Crash => true
  }

  function Go(s: State, i: nat, stage: Stage): State
    requires i in s.writers
  {
    s.(writers := s.writers[i := s.writers[i].(stage := stage)])
  }

  /** A rename takes the temporary file's contents to the target in one piece. */
  function Renamed(s: State, i: nat): State
    requires i in s.writers && i in s.temps
  {
    Go(s, i, Finished).(target := Some(s.temps[i]), temps := s.temps - {i})
  }

  function Step(s: State, e: Event): State
    requires Enabled(s, e)
  {
    match e
    case Begin(i, data) => s.(temps := s.temps[i := Torn], writers := s.writers[i := Writer(data, Writing)])
    case WriteEnds(i, ok) =>
      if ok then Go(s, i, Written).(temps := s.temps[i := Complete(s.writers[i].data)]) else Go(s, i, Failed)
    case RenameEnds(i, ok, busy) =>
      if ok then Renamed(s, i) else Go(s, i, if s.windows && busy then Refused else Failed)
    case UnlinkEnds(i, ok) => Go(s, i, Cleared).(target := if ok then None else s.target)
    case SecondRenameEnds(i, ok) => if ok then Renamed(s, i) else Go(s, i, Failed)
    case Crash => s.(writers := map[])
  }

  predicate Initial(s: State) {
    s.temps == map[] && s.writers == map[] && (s.target.Some? ==> s.target.value.Complete?)
  }

  /** The writers and the file system as a transition system. */
  function Moves(s: State, e: Event): Option<State> {
    if Enabled(s, e) then Some(Step(s, e)) else None
  }

  // ---------------------------------------------------------------- what every step keeps

  /** A writer past its write has its whole data in its temporary file; only on Windows is a rename tried again. */
  predicate Backed(s: State, i: nat) {
    i in s.writers ==>
      var w := s.writers[i];
      && (w.stage.Written? || w.stage.Refused? || w.stage.Cleared? ==> i in s.temps && s.temps[i] == Complete(w.data))
      && (w.stage.Refused? || w.stage.Cleared? ==> s.windows)
  }

  ghost predicate AllBacked(s: State) {
    forall i :: Backed(s, i)
  }

  lemma BackedKept(s: State, e: Event, i: nat)
    requires Enabled(s, e) && AllBacked(s)
    ensures Backed(Step(s, e), i)
  {
    assert Backed(s, i);
    match e
    case UnlinkEnds(j, _) => assert Backed(s, j);
    case RenameEnds(j, _, _) => assert Backed(s, j);
    case SecondRenameEnds(j, _) => assert Backed(s, j);
    case _ =>
  }

  predicate BackupLeft(s: State) {
    exists i :: i in s.temps && s.temps[i].Complete?
  }

  predicate TargetWhole(s: State) {
    s.target.Some? ==> s.target.value.Complete?
  }

  /** If the target is missing although there was one, this is Windows and a temporary file holds complete contents. */
  predicate Recoverable(s: State, hadTarget: bool) {
    s.target.None? && hadTarget ==> s.windows && BackupLeft(s)
  }

  lemma TargetKept(s: State, e: Event)
    requires Enabled(s, e) && AllBacked(s) && TargetWhole(s)
    ensures TargetWhole(Step(s, e)) && Step(s, e).windows == s.windows
  {
    match e
    case RenameEnds(j, _, _) => assert Backed(s, j);
    case SecondRenameEnds(j, _) => assert Backed(s, j);
    case _ =>
  }

  lemma RecoverableKept(s: State, e: Event, hadTarget: bool)
    requires Enabled(s, e) && AllBacked(s) && Recoverable(s, hadTarget)
    ensures Recoverable(Step(s, e), hadTarget)
  {
    var t := Step(s, e);
    if t.target.None? && hadTarget {
      if e.UnlinkEnds? {
        assert Backed(s, e.i);
        assert e.i in t.temps && t.temps[e.i].Complete?;
      } else {
        var k :| k in s.temps && s.temps[k].Complete?;
        assert k in t.temps && t.temps[k].Complete?;
      }
    }
  }

  ghost predicate Safe(s: State, hadTarget: bool) {
    AllBacked(s) && TargetWhole(s) && Recoverable(s, hadTarget)
  }

  lemma SafeKept(s: State, e: Event, hadTarget: bool)
    requires Safe(s, hadTarget) && Enabled(s, e)
    ensures Safe(Step(s, e), hadTarget) && Step(s, e).windows == s.windows
  {
    TargetKept(s, e);
    RecoverableKept(s, e, hadTarget);
    forall i: nat
      ensures Backed(Step(s, e), i)
    {
      BackedKept(s, e, i);
    }
  }

  lemma SafeAlong(s: State, events: seq<Event>, hadTarget: bool)
    requires Safe(s, hadTarget) && Run(Moves, s, events)
    ensures Safe(Final(Moves, s, events), hadTarget) && Final(Moves, s, events).windows == s.windows
  {
    var inv := (t: State) => Safe(t, hadTarget) && t.windows == s.windows;
    forall t, e | inv(t) && Moves(t, e).Some?
      ensures inv(Moves(t, e).value)
    {
      SafeKept(t, e, hadTarget);
    }
    InvariantHolds(Moves, inv, s, events);
  }

  /**
   In every run, crashes included, the target is never torn. Off Windows it never goes missing
   once it exists; on Windows, while it is missing, a temporary file holds complete contents.
   */
  lemma NeverTorn(s: State, events: seq<Event>)
    requires Initial(s) && Run(Moves, s, events)
    ensures var t := Final(Moves, s, events);
            && TargetWhole(t)
            && (s.target.Some? && t.target.None? ==> s.windows && BackupLeft(t))
  {
    SafeAlong(s, events, s.target.Some?);
  }

  // ---------------------------------------------------------------- old or new

  /** What an event does to the target: nothing, a rename over it, or its removal. */
  function Change(s: State, e: Event): seq<Option<Content>>
    requires Enabled(s, e)
  {
    if (e.RenameEnds? || e.SecondRenameEnds?) && e.ok then [Some(s.temps[e.i])]
    else if e.UnlinkEnds? && e.ok then [None]
    else []
  }

  ghost function Changes(s: State, events: seq<Event>): seq<Option<Content>>
    requires Run(Moves, s, events)
    decreases |events|
  {
    if events == [] then [] else Change(s, events[0]) + Changes(Step(s, events[0]), events[1..])
  }

  function Latest(start: Option<Content>, changes: seq<Option<Content>>): Option<Content> {
    if changes == [] then start else changes[|changes| - 1]
  }

  lemma LatestOfConcat(start: Option<Content>, a: seq<Option<Content>>, b: seq<Option<Content>>)
    ensures Latest(start, a + b) == Latest(Latest(start, a), b)
  {
  }

  lemma {:induction false} TargetIsLatest(s: State, events: seq<Event>)
    requires Run(Moves, s, events)
    ensures Final(Moves, s, events).target == Latest(s.target, Changes(s, events))
    decreases |events|
  {
    if events != [] {
      var t := Step(s, events[0]);
      assert t.target == Latest(s.target, Change(s, events[0]));
      TargetIsLatest(t, events[1..]);
      LatestOfConcat(s.target, Change(s, events[0]), Changes(t, events[1..]));
    }
  }

  /** The change puts in whole data that some writer was given. */
  predicate Given(change: Option<Content>, given: set<Data>) {
    change.Some? ==> change.value.Complete? && change.value.data in given
  }

  function DataOf(events: seq<Event>): set<Data> {
    set k | 0 <= k < |events| && events[k].Begin? :: events[k].data
  }

  predicate WritersGiven(s: State, given: set<Data>) {
    forall i :: i in s.writers ==> s.writers[i].data in given
  }

  lemma ChangeIsGiven(s: State, e: Event, given: set<Data>)
    requires Enabled(s, e) && AllBacked(s) && WritersGiven(s, given) && (e.Begin? ==> e.data in given)
    ensures WritersGiven(Step(s, e), given)
    ensures forall k :: 0 <= k < |Change(s, e)| ==> Given(Change(s, e)[k], given)
  {
    match e
    case RenameEnds(j, _, _) => assert Backed(s, j);
    case SecondRenameEnds(j, _) => assert Backed(s, j);
    case _ =>
  }

  lemma {:induction false} ChangesAreGiven(s: State, events: seq<Event>, given: set<Data>)
    requires Run(Moves, s, events) && AllBacked(s) && WritersGiven(s, given)
    requires forall k :: 0 <= k < |events| && events[k].Begin? ==> events[k].data in given
    ensures forall k :: 0 <= k < |Changes(s, events)| ==> Given(Changes(s, events)[k], given)
    decreases |events|
  {
    if events != [] {
      var t := Step(s, events[0]);
      ChangeIsGiven(s, events[0], given);
      forall i: nat
        ensures Backed(t, i)
      {
        BackedKept(s, events[0], i);
      }
      ChangesAreGiven(t, events[1..], given);
    }
  }

  /**
   In every run the target is what the latest rename or unlink made it, or what it was at the
   start if there was none; and every rename puts in the whole data of one of the writers.
   */
  lemma OldOrNew(s: State, events: seq<Event>)
    requires Initial(s) && Run(Moves, s, events)
    ensures Final(Moves, s, events).target == Latest(s.target, Changes(s, events))
    ensures forall k :: 0 <= k < |Changes(s, events)| ==> Given(Changes(s, events)[k], DataOf(events))
  {
    TargetIsLatest(s, events);
    ChangesAreGiven(s, events, DataOf(events));
  }

  // ---------------------------------------------------------------- readers

  /** readJsonStore, for data that parses: nothing, a file found broken, or the data. */
  datatype Reading = Missing | Corrupt | Parsed(data: Data)

  /** A reader asks whether the target exists in one state and reads it in a later one. */
  function Read(asked: State, read: State): Reading {
    if asked.target.None? then Missing
    else
      match read.target
      case None => Corrupt
      case Some(Torn) => Corrupt
      case Some(Complete(data)) => Parsed(data)
  }

  /** A reader finds a broken file only if the target was unlinked between its two looks, so never off Windows. */
  lemma ReadersSeeWholeData(s: State, before: seq<Event>, between: seq<Event>)
    requires Initial(s) && Run(Moves, s, before) && Run(Moves, Final(Moves, s, before), between)
    ensures var asked, read := Final(Moves, s, before), Final(Moves, Final(Moves, s, before), between);
            && (Read(asked, read).Parsed? <==> asked.target.Some? && read.target.Some?)
            && (Read(asked, read).Parsed? ==> read.target == Some(Complete(Read(asked, read).data)))
            && (Read(asked, read).Corrupt? ==> s.windows && BackupLeft(read))
  {
    var asked := Final(Moves, s, before);
    SafeAlong(s, before, s.target.Some?);
    SafeAlong(asked, between, asked.target.Some?);
  }

  // ---------------------------------------------------------------- one writer alone

  /** How the file operations of one call end. */
  datatype Results = Results(write: bool, rename: bool, busy: bool, unlink: bool, again: bool)

  /** The steps of a call whose operations end like that. */
  function Script(windows: bool, i: nat, data: Data, r: Results): seq<Event> {
    [Begin(i, data), WriteEnds(i, r.write)]
    + if !r.write then []
      else [RenameEnds(i, r.rename, r.busy)]
           + if r.rename || !windows || !r.busy then [] else [UnlinkEnds(i, r.unlink), SecondRenameEnds(i, r.again)]
  }

  class Files {
    const windows: bool
    var target: Option<Content>
    var temps: map<nat, Content>
    ghost var writers: map<nat, Writer>

    ghost function Value(): State
      reads this
    {
      State(windows, target, temps, writers)
    }

    /** The first half of writeFileSync. */
    method Open(i: nat, data: Data)
      requires Enabled(Value(), Event.Begin(i, data))
      modifies this
      ensures Value() == Step(old(Value()), Event.Begin(i, data))
    {
      temps := temps[i := Torn];
      writers := writers[i := Writer(data, Writing)];
    }

    method Write(i: nat, data: Data, ok: bool)
      requires Enabled(Value(), WriteEnds(i, ok)) && writers[i].data == data
      modifies this
      ensures Value() == Step(old(Value()), WriteEnds(i, ok))
    {
      if ok {
        temps := temps[i := Complete(data)];
      }
      writers := writers[i := Writer(data, if ok then Written else Failed)];
    }

    method Rename(i: nat, ok: bool, busy: bool)
      requires Enabled(Value(), RenameEnds(i, ok, busy))
      modifies this
      ensures Value() == Step(old(Value()), RenameEnds(i, ok, busy))
    {
      if ok {
        target, temps := Some(temps[i]), temps - {i};
      }
      writers := writers[i := writers[i].(stage := if ok then Finished else if windows && busy then Refused else Failed)];
    }

    method Unlink(i: nat, ok: bool)
      requires Enabled(Value(), UnlinkEnds(i, ok))
      modifies this
      ensures Value() == Step(old(Value()), UnlinkEnds(i, ok))
    {
      if ok {
        target := None;
      }
      writers := writers[i := writers[i].(stage := Cleared)];
    }

    method RenameAgain(i: nat, ok: bool)
      requires Enabled(Value(), SecondRenameEnds(i, ok))
      modifies this
      ensures Value() == Step(old(Value()), SecondRenameEnds(i, ok))
    {
      if ok {
        target, temps := Some(temps[i]), temps - {i};
      }
      writers := writers[i := writers[i].(stage := if ok then Finished else Failed)];
    }

    /** writeFileSync on the temporary file. */
    method WriteTemp(i: nat, data: Data, ok: bool)
      requires i !in temps && i !in writers
      modifies this
      ensures var log := [Event.Begin(i, data), WriteEnds(i, ok)];
              Run(Moves, old(Value()), log) && Value() == Final(Moves, old(Value()), log)
      ensures target == old(target) && At(Value(), i, if ok then Written else Failed)
      ensures i in temps && temps - {i} == old(temps) && (ok ==> temps[i] == Complete(data))
    {
      ghost var start := Value();
      OneMore(Moves, start, [], Event.Begin(i, data));
      Open(i, data);
      OneMore(Moves, start, [Event.Begin(i, data)], WriteEnds(i, ok));
      Write(i, data, ok);
      assert [Event.Begin(i, data)] + [WriteEnds(i, ok)] == [Event.Begin(i, data), WriteEnds(i, ok)];
    }

    /** The way out of a refused rename on Windows. */
    method UnlinkAndRename(i: nat, unlinks: bool, renames: bool, ghost start: State, ghost log: seq<Event>)
      requires At(Value(), i, Refused) && i in temps
      requires Run(Moves, start, log) && Value() == Final(Moves, start, log)
      modifies this
      ensures var more := log + [UnlinkEnds(i, unlinks), SecondRenameEnds(i, renames)];
              Run(Moves, start, more) && Value() == Final(Moves, start, more)
      ensures if renames then target == Some(old(temps)[i]) && temps == old(temps) - {i} else temps == old(temps)
    {
      OneMore(Moves, start, log, UnlinkEnds(i, unlinks));
      Unlink(i, unlinks);
      OneMore(Moves, start, log + [UnlinkEnds(i, unlinks)], SecondRenameEnds(i, renames));
      RenameAgain(i, renames);
      assert log + [UnlinkEnds(i, unlinks)] + [SecondRenameEnds(i, renames)]
          == log + [UnlinkEnds(i, unlinks), SecondRenameEnds(i, renames)];
    }

    /** writeFileAtomic; the result is whether it returned without throwing. */
    method WriteFileAtomic(i: nat, data: Data, r: Results) returns (ok: bool)
      requires i !in temps && i !in writers
      modifies this
      ensures Run(Moves, old(Value()), Script(windows, i, data, r))
      ensures Value() == Final(Moves, old(Value()), Script(windows, i, data, r))
      ensures ok ==> target == Some(Complete(data)) && temps == old(temps)
      ensures !ok && old(target).Some? && target.None? ==> windows && i in temps && temps[i] == Complete(data)
    {
      ghost var start, log := Value(), [Event.Begin(i, data), WriteEnds(i, r.write)];
      WriteTemp(i, data, r.write);
      if !r.write {
        assert Script(windows, i, data, r) == log;
        return false;
      }
      OneMore(Moves, start, log, RenameEnds(i, r.rename, r.busy));
      Rename(i, r.rename, r.busy);
      log := log + [RenameEnds(i, r.rename, r.busy)];
      if r.rename || !windows || !r.busy {
        assert Script(windows, i, data, r) == log;
        return r.rename;
      }
      assert Script(windows, i, data, r) == log + [UnlinkEnds(i, r.unlink), SecondRenameEnds(i, r.again)];
      UnlinkAndRename(i, r.unlink, r.again, start, log);
      return r.again;
    }
  }
}
