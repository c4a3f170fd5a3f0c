/**
 The self-repair of the binary templates (src/appPackager.ts, ensurePristineTemplates): every
 binary is kept as a working and a pristine copy in up to two directories, and one pass
 restores what is missing or damaged from whatever copy is left.

 Whether a file carries an Authenticode signature and how each copy operation ends are up to
 the environment; a copy may succeed, fail cleanly, or leave a torn file behind.
 */
module TemplateRepair {

  datatype Dir = Root | Fallback

  datatype Loc = Loc(dir: Dir, pristine: bool, name: string)

  /** A file, known by its bytes. */
  type File = seq<int>

  datatype CopyResult = Copied | Failed | Torn(left: File)

  /** same: both directories are one path. Copies are numbered in the order they are made. */
  datatype Env = Env(same: bool, rootExists: bool, fallbackExists: bool, signed: File -> bool, result: nat -> CopyResult)

  datatype Disk = Disk(files: map<Loc, File>, copies: nat)

  const MIN_SIZE := 1000

  const BINARIES: seq<string> := [
    "PEC-App.exe", "PEC-App-classic.exe", "PEC-CLI.exe", "PECAppSvc.exe", "PEC-App-Setup.exe",
    "PEC-App.msi", "AppIcon.ico", "PECAppCore.dll", "WinDivert.dll", "WinDivert64.sys"]

  predicate Protected(name: string) {
    name == "WinDivert64.sys" || name == "PECAppCore.dll"
  }

  predicate Exists(env: Env, d: Dir) {
    if d.Root? then env.rootExists else !env.same && env.fallbackExists
  }

  /** No file lies in a directory that does not exist. */
  predicate WellPlaced(env: Env, s: Disk) {
    forall p :: p in s.files ==> Exists(env, p.dir)
  }

  predicate Usable(env: Env, s: Disk, p: Loc) {
    p in s.files && |s.files[p]| >= MIN_SIZE && (Protected(p.name) ==> env.signed(s.files[p]))
  }

  predicate SignedProtected(env: Env, s: Disk, p: Loc) {
    Protected(p.name) && p in s.files && env.signed(s.files[p])
  }

  // ---------------------------------------------------------------- one pass

  function Copy(env: Env, s: Disk, source: Loc, target: Loc): Disk
    requires source in s.files
  {
    match env.result(s.copies)
    case Copied => Disk(s.files[target := s.files[source]], s.copies + 1)
    case Failed => Disk(s.files, s.copies + 1)
    case Torn(left) => Disk(s.files[target := left], s.copies + 1)
  }

  function SafeCopy(env: Env, s: Disk, source: Loc, target: Loc): Disk {
    if !Usable(env, s, source) || SignedProtected(env, s, target) then s else Copy(env, s, source, target)
  }

  function Other(env: Env, d: Dir): Dir {
    if env.same then d else if d.Root? then Fallback else Root
  }

  /** Brings the pristine copy up from a usable source if it is not usable itself. */
  function Refresh(env: Env, s: Disk, source: Loc, target: Loc): Disk {
    if Usable(env, s, target) then s else SafeCopy(env, s, source, target)
  }

  function Repair(env: Env, s: Disk, d: Dir, name: string): Disk {
    var working, pristine := Loc(d, false, name), Loc(d, true, name);
    var otherWorking, otherPristine := Loc(Other(env, d), false, name), Loc(Other(env, d), true, name);
    if Usable(env, s, working) then Refresh(env, s, working, pristine)
    else if Usable(env, s, otherWorking) then
      Refresh(env, SafeCopy(env, s, otherWorking, working), otherWorking, pristine)
    else if Usable(env, s, pristine) then SafeCopy(env, s, pristine, working)
    else if Usable(env, s, otherPristine) then
      SafeCopy(env, SafeCopy(env, s, otherPristine, working), otherPristine, pristine)
    else s
  }

  function RepairAll(env: Env, s: Disk, d: Dir, names: seq<string>): Disk
    decreases |names|
  {
    if names == [] then s else RepairAll(env, Repair(env, s, d, names[0]), d, names[1..])
  }

  function RepairDir(env: Env, s: Disk, d: Dir, names: seq<string>): Disk {
    if Exists(env, d) then RepairAll(env, s, d, names) else s
  }

  function Pass(env: Env, s: Disk, names: seq<string>): Disk {
    var t := RepairDir(env, s, Root, names);
    if env.same then t else RepairDir(env, t, Fallback, names)
  }

  // ---------------------------------------------------------------- nothing good is lost

  predicate Untouched(s: Disk, t: Disk, p: Loc) {
    (p in s.files <==> p in t.files) && (p in s.files ==> s.files[p] == t.files[p])
  }

  /** Files worth keeping: usable ones, and protected ones that are signed. */
  predicate Precious(env: Env, s: Disk, p: Loc) {
    Usable(env, s, p) || SignedProtected(env, s, p)
  }

  ghost predicate KeepsPrecious(env: Env, s: Disk, t: Disk) {
    forall p :: Precious(env, s, p) ==> p in t.files && t.files[p] == s.files[p]
  }

  lemma SafeCopyKeepsPrecious(env: Env, s: Disk, source: Loc, target: Loc)
    requires !Usable(env, s, target)
    ensures KeepsPrecious(env, s, SafeCopy(env, s, source, target))
    ensures forall p :: p != target ==> Untouched(s, SafeCopy(env, s, source, target), p)
  {
  }

  lemma KeepsTransitively(env: Env, s: Disk, t: Disk, u: Disk)
    requires KeepsPrecious(env, s, t) && KeepsPrecious(env, t, u)
    ensures KeepsPrecious(env, s, u)
  {
    assert forall p :: Precious(env, s, p) ==> Precious(env, t, p);
  }

  lemma TwoCopiesKeepPrecious(env: Env, s: Disk, source: Loc, first: Loc, second: Loc)
    requires !Usable(env, s, first) && first != second
    ensures KeepsPrecious(env, s, Refresh(env, SafeCopy(env, s, source, first), source, second))
    ensures !Usable(env, s, second) ==> KeepsPrecious(env, s, SafeCopy(env, SafeCopy(env, s, source, first), source, second))
  {
    var t := SafeCopy(env, s, source, first);
    SafeCopyKeepsPrecious(env, s, source, first);
    assert Untouched(s, t, second);
    if !Usable(env, t, second) {
      SafeCopyKeepsPrecious(env, t, source, second);
      KeepsTransitively(env, s, t, SafeCopy(env, t, source, second));
    }
  }

  lemma RepairKeepsPrecious(env: Env, s: Disk, d: Dir, name: string)
    ensures KeepsPrecious(env, s, Repair(env, s, d, name))
  {
    var working, pristine := Loc(d, false, name), Loc(d, true, name);
    if Usable(env, s, working) {
      if !Usable(env, s, pristine) {
        SafeCopyKeepsPrecious(env, s, working, pristine);
      }
    } else {
      TwoCopiesKeepPrecious(env, s, Loc(Other(env, d), false, name), working, pristine);
      TwoCopiesKeepPrecious(env, s, Loc(Other(env, d), true, name), working, pristine);
      SafeCopyKeepsPrecious(env, s, pristine, working);
    }
  }

  lemma {:induction false} RepairAllKeepsPrecious(env: Env, s: Disk, d: Dir, names: seq<string>)
    ensures KeepsPrecious(env, s, RepairAll(env, s, d, names))
    decreases |names|
  {
    if names != [] {
      var t := Repair(env, s, d, names[0]);
      RepairKeepsPrecious(env, s, d, names[0]);
      RepairAllKeepsPrecious(env, t, d, names[1..]);
      assert forall p :: Precious(env, s, p) ==> Precious(env, t, p);
    }
  }

  /**
   However its copies end, torn ones included, a pass leaves every usable file and every signed
   protected file exactly as it was.
   */
  lemma NothingGoodIsLost(env: Env, s: Disk, names: seq<string>)
    ensures KeepsPrecious(env, s, Pass(env, s, names))
  {
    var t := RepairDir(env, s, Root, names);
    RepairAllKeepsPrecious(env, s, Root, names);
    RepairAllKeepsPrecious(env, t, Fallback, names);
    assert forall p :: Precious(env, s, p) ==> Precious(env, t, p);
  }

  // ---------------------------------------------------------------- convergence

  predicate Stuck(env: Env, s: Disk, p: Loc) {
    SignedProtected(env, s, p) && |s.files[p]| < MIN_SIZE
  }

  predicate AnyUsable(env: Env, s: Disk, name: string) {
    exists d, pristine :: Usable(env, s, Loc(d, pristine, name))
  }

  ghost predicate CopiesSucceed(env: Env) {
    forall n :: env.result(n) == Copied
  }

  /** What a repair of a directory should achieve for one of its two copies of a binary. */
  predicate Restored(env: Env, s: Disk, t: Disk, p: Loc) {
    Usable(env, t, p) <==> Usable(env, s, p) || (AnyUsable(env, s, p.name) && !Stuck(env, s, p))
  }

  /** A copy from a usable file to an unusable one of the same name makes that usable unless it is stuck, and nothing else changes. */
  lemma SafeCopyRestores(env: Env, s: Disk, source: Loc, target: Loc)
    requires CopiesSucceed(env) && source.name == target.name
    requires Usable(env, s, source) && !Usable(env, s, target)
    ensures var t := SafeCopy(env, s, source, target);
            && (Usable(env, t, target) <==> !Stuck(env, s, target))
            && (Stuck(env, t, target) <==> Stuck(env, s, target))
            && (forall p :: p != target ==> Untouched(s, t, p))
  {
  }

  /** The effect of a repair on directory d for one name: d's two copies are restored, nothing else changes. */
  ghost predicate RepairedFor(env: Env, s: Disk, t: Disk, d: Dir, name: string) {
    && (forall p: Loc :: p.name == name && p.dir == d ==> Restored(env, s, t, p))
    && (forall p: Loc :: p.name == name && p.dir != d ==> Untouched(s, t, p))
    && (forall p: Loc :: p.name == name ==> (Stuck(env, t, p) <==> Stuck(env, s, p)))
  }

  ghost predicate OthersUntouched(s: Disk, t: Disk, name: string) {
    forall p: Loc :: p.name != name ==> Untouched(s, t, p)
  }

  lemma RepairFromOther(env: Env, s: Disk, source: Loc, d: Dir)
    requires CopiesSucceed(env) && Usable(env, s, source) && source.dir != d
    requires var working, pristine := Loc(d, false, source.name), Loc(d, true, source.name);
             !Usable(env, s, working)
    ensures var working, pristine := Loc(d, false, source.name), Loc(d, true, source.name);
            var t := Refresh(env, SafeCopy(env, s, source, working), source, pristine);
            RepairedFor(env, s, t, d, source.name) && OthersUntouched(s, t, source.name)
  {
    var working, pristine := Loc(d, false, source.name), Loc(d, true, source.name);
    SafeCopyRestores(env, s, source, working);
    var t := SafeCopy(env, s, source, working);
    assert Untouched(s, t, source) && Untouched(s, t, pristine);
    if !Usable(env, t, pristine) {
      SafeCopyRestores(env, t, source, pristine);
    }
    assert AnyUsable(env, s, source.name) by {
      assert Usable(env, s, Loc(source.dir, source.pristine, source.name));
    }
  }

  lemma RepairHere(env: Env, s: Disk, d: Dir, name: string, fromPristine: bool)
    requires CopiesSucceed(env) && Usable(env, s, Loc(d, fromPristine, name)) && !Usable(env, s, Loc(d, !fromPristine, name))
    ensures var t := SafeCopy(env, s, Loc(d, fromPristine, name), Loc(d, !fromPristine, name));
            RepairedFor(env, s, t, d, name) && OthersUntouched(s, t, name)
  {
    SafeCopyRestores(env, s, Loc(d, fromPristine, name), Loc(d, !fromPristine, name));
    assert AnyUsable(env, s, name);
  }

  lemma NothingToDo(env: Env, s: Disk, d: Dir, name: string)
    requires !AnyUsable(env, s, name) || (Usable(env, s, Loc(d, false, name)) && Usable(env, s, Loc(d, true, name)))
    ensures RepairedFor(env, s, s, d, name)
  {
    if AnyUsable(env, s, name) {
      assert forall p: Loc :: p.name == name && p.dir == d ==> p == Loc(d, p.pristine, name);
    } else {
      assert forall p: Loc :: p.name == name && p.dir == d ==> !Usable(env, s, Loc(d, p.pristine, name));
    }
  }

  lemma RepairRestores(env: Env, s: Disk, d: Dir, name: string)
    requires CopiesSucceed(env) && WellPlaced(env, s) && Exists(env, d)
    ensures RepairedFor(env, s, Repair(env, s, d, name), d, name) && OthersUntouched(s, Repair(env, s, d, name), name)
  {
    var working, pristine := Loc(d, false, name), Loc(d, true, name);
    var otherWorking, otherPristine := Loc(Other(env, d), false, name), Loc(Other(env, d), true, name);
    if Usable(env, s, working) {
      if Usable(env, s, pristine) {
        NothingToDo(env, s, d, name);
      } else {
        RepairHere(env, s, d, name, false);
      }
    } else if Usable(env, s, otherWorking) {
      RepairFromOther(env, s, otherWorking, d);
    } else if Usable(env, s, pristine) {
      RepairHere(env, s, d, name, true);
    } else if Usable(env, s, otherPristine) {
      RepairFromOther(env, s, otherPristine, d);
      SafeCopyRestores(env, s, otherPristine, working);
      assert Untouched(s, SafeCopy(env, s, otherPristine, working), pristine);
    } else {
      forall e, q
        ensures !Usable(env, s, Loc(e, q, name))
      {
        assert Loc(e, q, name) in s.files ==> Exists(env, e);
        assert e == d || e == Other(env, d) || !Exists(env, e);
        assert Loc(e, q, name) == if q then Loc(e, true, name) else Loc(e, false, name);
      }
      NothingToDo(env, s, d, name);
    }
  }

  lemma RepairStaysPlaced(env: Env, s: Disk, d: Dir, name: string)
    requires WellPlaced(env, s) && Exists(env, d)
    ensures WellPlaced(env, Repair(env, s, d, name))
  {
  }

  lemma RepairedTwice(env: Env, s: Disk, t: Disk, u: Disk, d: Dir, name: string)
    requires RepairedFor(env, s, t, d, name) && RepairedFor(env, t, u, d, name)
    ensures RepairedFor(env, s, u, d, name)
  {
    SameSources(env, s, t, d, name);
  }

  /** A repair neither loses the last usable copy of a binary nor makes up a first one. */
  lemma SameSources(env: Env, s: Disk, t: Disk, d: Dir, name: string)
    requires RepairedFor(env, s, t, d, name)
    ensures AnyUsable(env, t, name) <==> AnyUsable(env, s, name)
  {
    forall e, q
      ensures Usable(env, s, Loc(e, q, name)) ==> Usable(env, t, Loc(e, q, name))
      ensures Usable(env, t, Loc(e, q, name)) ==> AnyUsable(env, s, name)
    {
      var p := Loc(e, q, name);
      if e == d {
        assert Restored(env, s, t, p);
      } else {
        assert Untouched(s, t, p);
      }
    }
  }

  ghost predicate NameUntouched(s: Disk, t: Disk, name: string) {
    forall p: Loc :: p.name == name ==> Untouched(s, t, p)
  }

  lemma RepairedAfter(env: Env, s: Disk, t: Disk, u: Disk, d: Dir, name: string)
    requires NameUntouched(s, t, name) && RepairedFor(env, t, u, d, name)
    ensures RepairedFor(env, s, u, d, name)
  {
    assert forall e, q :: Usable(env, s, Loc(e, q, name)) == Usable(env, t, Loc(e, q, name)) by {
      assert forall e, q :: Untouched(s, t, Loc(e, q, name));
    }
    assert AnyUsable(env, s, name) == AnyUsable(env, t, name);
  }

  lemma RepairedBefore(env: Env, s: Disk, t: Disk, u: Disk, d: Dir, name: string)
    requires RepairedFor(env, s, t, d, name) && NameUntouched(t, u, name)
    ensures RepairedFor(env, s, u, d, name)
  {
  }

  lemma {:induction false} RepairAllRestores(env: Env, s: Disk, d: Dir, names: seq<string>, name: string)
    requires CopiesSucceed(env) && WellPlaced(env, s) && Exists(env, d)
    ensures var t := RepairAll(env, s, d, names);
            && WellPlaced(env, t)
            && (name in names ==> RepairedFor(env, s, t, d, name))
            && (name !in names ==> NameUntouched(s, t, name))
    decreases |names|
  {
    if names != [] {
      var t := Repair(env, s, d, names[0]);
      var u := RepairAll(env, t, d, names[1..]);
      RepairStaysPlaced(env, s, d, names[0]);
      RepairRestores(env, s, d, names[0]);
      RepairAllRestores(env, t, d, names[1..], name);
      if name == names[0] {
        if name in names[1..] {
          RepairedTwice(env, s, t, u, d, name);
        } else {
          RepairedBefore(env, s, t, u, d, name);
        }
      } else if name in names {
        RepairedAfter(env, s, t, u, d, name);
      }
    }
  }

  /**
   If its copies succeed, one pass makes every copy in an existing directory usable that was so
   before or is not stuck, of every binary of which any copy anywhere was usable, and no other.
   A copy is stuck if it is a protected file that is signed but too short.
   */
  lemma PassConverges(env: Env, s: Disk, names: seq<string>, p: Loc)
    requires CopiesSucceed(env) && WellPlaced(env, s)
    requires p.name in names && Exists(env, p.dir)
    ensures WellPlaced(env, Pass(env, s, names)) && Restored(env, s, Pass(env, s, names), p)
    ensures Stuck(env, Pass(env, s, names), p) <==> Stuck(env, s, p)
    ensures AnyUsable(env, Pass(env, s, names), p.name) <==> AnyUsable(env, s, p.name)
  {
    var t := RepairDir(env, s, Root, names);
    if Exists(env, Root) {
      RepairAllRestores(env, s, Root, names, p.name);
      SameSources(env, s, t, Root, p.name);
    }
    if !env.same && Exists(env, Fallback) {
      var u := RepairDir(env, t, Fallback, names);
      RepairAllRestores(env, t, Fallback, names, p.name);
      SameSources(env, t, u, Fallback, p.name);
      assert p.dir != Fallback ==> Untouched(t, u, p);
      assert p.dir == Fallback ==> Restored(env, t, u, p);
    }
  }

  // ---------------------------------------------------------------- the second pass

  /** Every copy in an existing directory is usable or stuck, or there is no usable copy at all. */
  ghost predicate Settled(env: Env, s: Disk, name: string) {
    AnyUsable(env, s, name) ==> forall d, q :: Exists(env, d) ==> Usable(env, s, Loc(d, q, name)) || Stuck(env, s, Loc(d, q, name))
  }

  lemma RepairOfSettled(env: Env, s: Disk, d: Dir, name: string)
    requires Exists(env, d) && Settled(env, s, name)
    ensures Repair(env, s, d, name) == s
  {
    if AnyUsable(env, s, name) {
      assert Usable(env, s, Loc(d, false, name)) || Stuck(env, s, Loc(d, false, name));
      assert Usable(env, s, Loc(d, true, name)) || Stuck(env, s, Loc(d, true, name));
    }
  }

  lemma {:induction false} RepairAllOfSettled(env: Env, s: Disk, d: Dir, names: seq<string>)
    requires Exists(env, d) && forall name :: name in names ==> Settled(env, s, name)
    ensures RepairAll(env, s, d, names) == s
    decreases |names|
  {
    if names != [] {
      RepairOfSettled(env, s, d, names[0]);
      RepairAllOfSettled(env, s, d, names[1..]);
    }
  }

  /** A second pass, however its copies would end, copies nothing and changes nothing. */
  lemma SecondPassIsIdle(env: Env, s: Disk, names: seq<string>, later: nat -> CopyResult)
    requires CopiesSucceed(env) && WellPlaced(env, s)
    ensures var t := Pass(env, s, names); Pass(env.(result := later), t, names) == t
  {
    var t := Pass(env, s, names);
    var again := env.(result := later);
    forall name | name in names
      ensures Settled(again, t, name)
    {
      forall d, q | Exists(env, d)
        ensures AnyUsable(env, t, name) ==> Usable(env, t, Loc(d, q, name)) || Stuck(env, t, Loc(d, q, name))
      {
        PassConverges(env, s, names, Loc(d, q, name));
      }
      assert AnyUsable(again, t, name) <==> AnyUsable(env, t, name) by {
        assert forall d, q :: Usable(again, t, Loc(d, q, name)) == Usable(env, t, Loc(d, q, name));
      }
    }
    if Exists(again, Root) {
      RepairAllOfSettled(again, t, Root, names);
    }
    if !again.same && Exists(again, Fallback) {
      RepairAllOfSettled(again, t, Fallback, names);
    }
  }

  // ---------------------------------------------------------------- the code as it is written

  class Templates {
    const env: Env
    var files: map<Loc, File>
    var copies: nat

    function Value(): Disk
      reads this
    {
      Disk(files, copies)
    }

    method CanUseAsSource(p: Loc) returns (ok: bool)
      ensures ok <==> Usable(env, Value(), p)
    {
      if p !in files {
        return false;
      }
      if |files[p]| < 1000 {
        return false;
      }
      if Protected(p.name) && !env.signed(files[p]) {
        return false;
      }
      return true;
    }

    method CopyFile(source: Loc, target: Loc)
      requires source in files
      modifies this
      ensures Value() == Copy(env, old(Value()), source, target)
    {
      var n := copies;
      copies := copies + 1;
      match env.result(n)
      case Copied => files := files[target := files[source]];
      case Failed =>
      case Torn(left) => files := files[target := left];
    }

    method CopySafely(source: Loc, target: Loc)
      modifies this
      ensures Value() == SafeCopy(env, old(Value()), source, target)
    {
      var usable := CanUseAsSource(source);
      if !usable {
        return;
      }
      if Protected(target.name) && target in files && env.signed(files[target]) {
        return;
      }
      CopyFile(source, target);
    }

    method RefreshPristine(source: Loc, target: Loc)
      modifies this
      ensures Value() == Refresh(env, old(Value()), source, target)
    {
      if target !in files || |files[target]| < 1000 || (Protected(target.name) && !env.signed(files[target])) {
        CopySafely(source, target);
      }
    }

    method RepairBinary(d: Dir, name: string)
      modifies this
      ensures Value() == Repair(env, old(Value()), d, name)
    {
      var working, pristine := Loc(d, false, name), Loc(d, true, name);
      var otherWorking, otherPristine := Loc(Other(env, d), false, name), Loc(Other(env, d), true, name);
      var usable := CanUseAsSource(working);
      if usable {
        RefreshPristine(working, pristine);
        return;
      }
      usable := CanUseAsSource(otherWorking);
      if usable {
        CopySafely(otherWorking, working);
        RefreshPristine(otherWorking, pristine);
        return;
      }
      usable := CanUseAsSource(pristine);
      if usable {
        CopySafely(pristine, working);
        return;
      }
      usable := CanUseAsSource(otherPristine);
      if usable {
        CopySafely(otherPristine, working);
        CopySafely(otherPristine, pristine);
      }
    }

    method RepairDirectory(d: Dir, names: seq<string>)
      modifies this
      ensures Value() == RepairDir(env, old(Value()), d, names)
    {
      if !Exists(env, d) {
        return;
      }
      var i := 0;
      while i < |names|
        invariant 0 <= i <= |names|
        invariant RepairAll(env, Value(), d, names[i..]) == RepairAll(env, old(Value()), d, names)
      {
        assert names[i..][1..] == names[i + 1..];
        RepairBinary(d, names[i]);
        i := i + 1;
      }
    }

    method EnsurePristineTemplates()
      modifies this
      ensures Value() == Pass(env, old(Value()), BINARIES)
    {
      RepairDirectory(Root, BINARIES);
      if !env.same {
        RepairDirectory(Fallback, BINARIES);
      }
    }

    constructor (env: Env, files: map<Loc, File>)
      ensures this.env == env && Value() == Disk(files, 0)
    {
      this.env := env;
      this.files := files;
      copies := 0;
    }
  }
}
