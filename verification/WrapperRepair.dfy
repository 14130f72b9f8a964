/**
 Repairing the launcher scripts of managed accounts: each script is rewritten where
 the shell will find it, and an older copy elsewhere is removed, one file operation
 at a time.
 */
module WrapperRepair {
  import opened Options
  import opened Disk

  /** The two directories a script may live in, in the order they are tried. */
  datatype Dir = LocalBin | Bin {
    function Other(): Dir {
      if this == LocalBin then Bin else LocalBin
    }
  }

  datatype Place = Wrapper(dir: Dir, id: string) | Temporary(dir: Dir, serial: nat) | Elsewhere(name: string)

  type Home = Files<Place>

  datatype Profile = Profile(id: string, managed: bool)

  datatype Listed = Listed(id: string, path: Place)

  datatype Error = ListingFailed | RouteUnresolved | IoError

  /** The script an account should have, or nothing if its route cannot be resolved. */
  type Scripts = string -> Option<Bytes>

  // ----- where scripts live -----

  /** Which of the directories are on the shell's search path, and whether the first one exists. */
  datatype Shell = Shell(localBinOnPath: bool, binOnPath: bool, localBinIsDir: bool)

  function ResolveWrapperDir(shell: Shell): Dir {
    if shell.localBinOnPath then LocalBin
    else if shell.binOnPath then Bin
    else if shell.localBinIsDir then LocalBin
    else Bin
  }

  /** An installed script keeps its place; only a new one goes to the preferred directory. */
  function WrapperFilePath(home: Home, id: string, preferred: Dir): Place {
    if Wrapper(preferred, id) in home then Wrapper(preferred, id)
    else if Wrapper(LocalBin, id) in home then Wrapper(LocalBin, id)
    else if Wrapper(Bin, id) in home then Wrapper(Bin, id)
    else Wrapper(preferred, id)
  }

  /**
   The script of an account: the one in the preferred directory, or else the other.
   That is the one the shell starts as long as the preferred directory precedes the
   other on its search path; repair chooses by the order of candidates alone.
   */
  function Effective(home: Home, preferred: Dir, id: string): Option<Bytes> {
    if Wrapper(preferred, id) in home then Lookup(home, Wrapper(preferred, id))
    else Lookup(home, Wrapper(preferred.Other(), id))
  }

  function ManagedAccounts(home: Home, profiles: seq<Profile>, preferred: Dir): (accounts: seq<Listed>)
    ensures forall a :: a in accounts ==> a.path == WrapperFilePath(home, a.id, preferred)
    ensures forall a :: a in accounts ==> a.id in ManagedIds(profiles)
    ensures forall id :: id in ManagedIds(profiles) ==> Listed(id, WrapperFilePath(home, id, preferred)) in accounts
  {
    if profiles == [] then []
    else
      var before, p := ManagedAccounts(home, profiles[..|profiles| - 1], preferred), profiles[|profiles| - 1];
      if p.managed && p.id != "main" then before + [Listed(p.id, WrapperFilePath(home, p.id, preferred))] else before
  }

  function ManagedIds(profiles: seq<Profile>): set<string> {
    set p | p in profiles && p.managed && p.id != "main" :: p.id
  }

  // ----- what every intermediate state keeps -----

  /**
   Only scripts of `ids` and temporary files may differ, and every account still
   starts with what it started with before, or with the script it should have.
   */
  ghost predicate Kept(before: Home, now: Home, preferred: Dir, ids: set<string>, scripts: Scripts) {
    && (forall p: Place :: p.Elsewhere? || (p.Wrapper? && p.id !in ids) ==> Lookup(now, p) == Lookup(before, p))
    && forall id :: id in ids ==> Served(before, now, preferred, id, scripts(id))
  }

  ghost predicate Served(before: Home, now: Home, preferred: Dir, id: string, script: Option<Bytes>) {
    || Effective(now, preferred, id) == Effective(before, preferred, id)
    || (script.Some? && Effective(now, preferred, id) == script)
  }

  ghost predicate AllKept(
    before: Home, seen: seq<Home>, from: nat, preferred: Dir, ids: set<string>, scripts: Scripts)
  {
    forall i :: from <= i < |seen| ==> Kept(before, seen[i], preferred, ids, scripts)
  }

  lemma KeptTransitive(a: Home, b: Home, c: Home, preferred: Dir, ids: set<string>, scripts: Scripts)
    requires Kept(a, b, preferred, ids, scripts) && Kept(b, c, preferred, ids, scripts)
    ensures Kept(a, c, preferred, ids, scripts)
  {
  }

  lemma KeptForMore(a: Home, b: Home, preferred: Dir, id: string, ids: set<string>, scripts: Scripts)
    requires id in ids && Kept(a, b, preferred, {id}, scripts)
    ensures Kept(a, b, preferred, ids, scripts)
  {
    forall other | other in ids ensures Served(a, b, preferred, other, scripts(other)) {
      if other != id {
        assert Lookup(b, Wrapper(preferred, other)) == Lookup(a, Wrapper(preferred, other));
        assert Lookup(b, Wrapper(preferred.Other(), other)) == Lookup(a, Wrapper(preferred.Other(), other));
      }
    }
  }

  lemma KeptThroughout(before: Home, mid: Home, earlier: seq<Home>, seen: seq<Home>, from: nat, now: Home,
                       preferred: Dir, id: string, ids: set<string>, scripts: Scripts)
    requires id in ids && from <= |earlier| && earlier <= seen && Kept(before, mid, preferred, ids, scripts)
    requires AllKept(before, earlier, from, preferred, ids, scripts)
    requires AllKept(mid, seen, |earlier|, preferred, {id}, scripts) && Kept(mid, now, preferred, {id}, scripts)
    ensures AllKept(before, seen, from, preferred, ids, scripts) && Kept(before, now, preferred, ids, scripts)
  {
    hide Kept;
    forall i | from <= i < |seen| ensures Kept(before, seen[i], preferred, ids, scripts) {
      if i < |earlier| {
        assert seen[i] == earlier[i];
      } else {
        KeptForMore(mid, seen[i], preferred, id, ids, scripts);
        KeptTransitive(before, mid, seen[i], preferred, ids, scripts);
      }
    }
    KeptForMore(mid, now, preferred, id, ids, scripts);
    KeptTransitive(before, mid, now, preferred, ids, scripts);
  }

  lemma ReplacingKeeps(before: Home, now: Home, preferred: Dir, serial: nat, id: string, script: Bytes,
                       scripts: Scripts)
    requires scripts(id) == Some(script)
    requires Replacing(before, now, Temporary(preferred, serial), Wrapper(preferred, id), script)
    ensures Kept(before, now, preferred, {id}, scripts)
    ensures Lookup(now, Wrapper(preferred.Other(), id)) == Lookup(before, Wrapper(preferred.Other(), id))
  {
  }

  lemma RemovingOldKeeps(before: Home, preferred: Dir, id: string, scripts: Scripts)
    requires Wrapper(preferred, id) in before
    ensures Kept(before, before - {Wrapper(preferred.Other(), id)}, preferred, {id}, scripts)
  {
  }

  /** No state that repair passes through leaves an account without a script it had. */
  lemma NoScriptLost(before: Home, now: Home, preferred: Dir, ids: set<string>, scripts: Scripts, id: string)
    requires Kept(before, now, preferred, ids, scripts)
    ensures Effective(before, preferred, id).Some? ==> Effective(now, preferred, id).Some?
    ensures id !in ids ==> Effective(now, preferred, id) == Effective(before, preferred, id)
  {
    if id !in ids {
      assert Lookup(now, Wrapper(preferred, id)) == Lookup(before, Wrapper(preferred, id));
      assert Lookup(now, Wrapper(preferred.Other(), id)) == Lookup(before, Wrapper(preferred.Other(), id));
    } else {
      assert Served(before, now, preferred, id, scripts(id));
    }
  }

  /** A directory on the search path is preferred, then one that exists; the first is tried first. */
  lemma ChosenDir(shell: Shell)
    ensures ResolveWrapperDir(shell) == LocalBin <==>
              shell.localBinOnPath || (!shell.binOnPath && shell.localBinIsDir)
  {
  }

  /** A script is looked for where it is, and one that does not exist belongs in the preferred place. */
  lemma PlaceOfScript(home: Home, id: string, preferred: Dir)
    ensures Wrapper(LocalBin, id) in home && Wrapper(Bin, id) !in home ==>
              WrapperFilePath(home, id, preferred) == Wrapper(LocalBin, id)
    ensures Wrapper(Bin, id) in home && Wrapper(LocalBin, id) !in home ==>
              WrapperFilePath(home, id, preferred) == Wrapper(Bin, id)
    ensures (Wrapper(LocalBin, id) in home <==> Wrapper(Bin, id) in home) ==>
              WrapperFilePath(home, id, preferred) == Wrapper(preferred, id)
  {
  }

  /** The accounts that are looked after: those the manager created, except for the main one. */
  lemma WhoIsManaged(profiles: seq<Profile>, id: string)
    ensures id in ManagedIds(profiles) <==> id != "main" && Profile(id, true) in profiles
  {
    if id in ManagedIds(profiles) {
      var p :| p in profiles && p.managed && p.id != "main" && p.id == id;
      assert p == Profile(id, true);
    }
    if id != "main" && Profile(id, true) in profiles {
      assert Profile(id, true).id == id;
    }
  }

  /**
   What a state on the way keeps, file by file: an account with a script in either
   directory has one in either directory, with the old content or the one it should
   have. Nothing else is touched, except for temporary files.
   */
  lemma KeptFiles(before: Home, now: Home, preferred: Dir, ids: set<string>, scripts: Scripts, id: string, name: string)
    requires Kept(before, now, preferred, ids, scripts)
    ensures Wrapper(LocalBin, id) in before || Wrapper(Bin, id) in before ==>
              exists dir: Dir ::
                && Wrapper(dir, id) in now
                && (|| Some(now[Wrapper(dir, id)]) == scripts(id)
                    || exists was: Dir ::
                         Wrapper(was, id) in before && before[Wrapper(was, id)] == now[Wrapper(dir, id)])
    ensures Elsewhere(name) in now <==> Elsewhere(name) in before
    ensures Elsewhere(name) in before ==> now[Elsewhere(name)] == before[Elsewhere(name)]
    ensures id !in ids ==>
              forall dir: Dir ::
                && (Wrapper(dir, id) in now <==> Wrapper(dir, id) in before)
                && (Wrapper(dir, id) in now ==> now[Wrapper(dir, id)] == before[Wrapper(dir, id)])
  {
    NoScriptLost(before, now, preferred, ids, scripts, id);
    assert Lookup(now, Elsewhere(name)) == Lookup(before, Elsewhere(name));
    if id !in ids {
      assert forall dir: Dir :: Lookup(now, Wrapper(dir, id)) == Lookup(before, Wrapper(dir, id));
    } else {
      assert Served(before, now, preferred, id, scripts(id));
    }
    if Wrapper(LocalBin, id) in before || Wrapper(Bin, id) in before {
      assert Wrapper(preferred, id) in before || Wrapper(preferred.Other(), id) in before;
      var was := if Wrapper(preferred, id) in before then preferred else preferred.Other();
      var dir := if Wrapper(preferred, id) in now then preferred else preferred.Other();
      assert Effective(now, preferred, id) == Some(now[Wrapper(dir, id)]);
      assert Effective(before, preferred, id) == Some(before[Wrapper(was, id)]);
    }
  }

  // ----- the operations -----

  method WriteExecutable(disk: Disk<Place>, temp: Place, content: Bytes) returns (ok: bool)
    requires disk.Valid()
    modifies disk
    ensures disk.Valid() && old(disk.seen) <= disk.seen
    ensures forall i :: |old(disk.seen)| <= i < |disk.seen| ==> Preparing(old(disk.files), disk.seen[i], temp)
    ensures Preparing(old(disk.files), disk.files, temp)
    ensures ok ==> Lookup(disk.files, temp) == Some(content)
    ensures disk.faults >= old(disk.faults) && (disk.faults == old(disk.faults) ==> ok)
  {
    ghost var before, from := disk.files, |disk.seen|;
    ok := disk.Attempt();
    if ok {
      ok := disk.Create(temp);
      ghost var created := disk.files;
      if ok {
        ok := disk.WriteAll(temp, content);
        forall i | from <= i < |disk.seen| ensures Preparing(before, disk.seen[i], temp) {
          if i > from {
            var n: nat :| n <= |content| && disk.seen[i] == created[temp := content[..n]];
            TempWritten(before, created, temp, content[..n]);
          }
        }
        if ok {
          ok := disk.Attempt();
        }
      }
    }
  }

  method ReplaceWrapper(disk: Disk<Place>, preferred: Dir, id: string, script: Bytes, scripts: Scripts)
    returns (ok: bool)
    requires disk.Valid() && scripts(id) == Some(script)
    modifies disk
    ensures disk.Valid() && old(disk.seen) <= disk.seen
    ensures AllKept(old(disk.files), disk.seen, |old(disk.seen)|, preferred, {id}, scripts)
    ensures Kept(old(disk.files), disk.files, preferred, {id}, scripts)
    ensures ok ==> Lookup(disk.files, Wrapper(preferred, id)) == Some(script)
    ensures ok ==>
              Lookup(disk.files, Wrapper(preferred.Other(), id))
              == Lookup(old(disk.files), Wrapper(preferred.Other(), id))
    ensures disk.faults >= old(disk.faults) && (disk.faults == old(disk.faults) ==> ok)
  {
    hide Kept, Replacing, Replaced, Preparing, Agree;
    ghost var before, from := disk.files, |disk.seen|;
    var serial: nat := *;
    var temp, target := Temporary(preferred, serial), Wrapper(preferred, id);
    ok := disk.Attempt();
    if ok {
      ok := WriteExecutable(disk, temp, script);
    } else {
      NothingPrepared(before, temp);
    }
    assert Preparing(before, disk.files, temp);
    forall i | from <= i < |disk.seen| ensures Kept(before, disk.seen[i], preferred, {id}, scripts) {
      EitherIsReplacing(before, disk.seen[i], temp, target, script);
      ReplacingKeeps(before, disk.seen[i], preferred, serial, id, script, scripts);
    }
    EitherIsReplacing(before, disk.files, temp, target, script);
    ReplacingKeeps(before, disk.files, preferred, serial, id, script, scripts);
    if ok {
      Renamed(before, disk.files, temp, target, script);
      ok := disk.Rename(temp, target);
      EitherIsReplacing(before, disk.files, temp, target, script);
      ReplacingKeeps(before, disk.files, preferred, serial, id, script, scripts);
      if !ok {
        TempRemoved(before, disk.files, temp, target, script);
        var removed := disk.Remove(temp);
        EitherIsReplacing(before, disk.files, temp, target, script);
        ReplacingKeeps(before, disk.files, preferred, serial, id, script, scripts);
      }
    }
  }

  lemma NothingPrepared(before: Home, temp: Place)
    ensures Preparing(before, before, temp)
  {
  }

  /** One account: Ok(false) means that its script was found as it should be. */
  method RepairOne(disk: Disk<Place>, preferred: Dir, account: Listed, scripts: Scripts)
    returns (r: Result<bool, Error>)
    requires disk.Valid()
    requires account.path in {Wrapper(preferred, account.id), Wrapper(preferred.Other(), account.id)}
    modifies disk
    ensures disk.Valid() && old(disk.seen) <= disk.seen
    ensures AllKept(old(disk.files), disk.seen, |old(disk.seen)|, preferred, {account.id}, scripts)
    ensures Kept(old(disk.files), disk.files, preferred, {account.id}, scripts)
    ensures r.Ok? ==> Repaired(old(disk.files), disk.files, preferred, account, scripts)
    ensures r == Ok(false) ==> disk.seen == old(disk.seen) && disk.files == old(disk.files)
    ensures disk.faults >= old(disk.faults)
    ensures disk.faults == old(disk.faults) ==>
              && (r.Ok? <==> scripts(account.id).Some?)
              && (r.Ok? ==> (r.value <==> NeedsRepair(old(disk.files), preferred, account, scripts)))
  {
    hide Kept;
    ghost var before, from := disk.files, |disk.seen|;
    KeptReflexive(before, preferred, {account.id}, scripts);
    var target := Wrapper(preferred, account.id);
    var relocating := account.path != target;
    var expected := scripts(account.id);
    if expected.None? {
      return Err(RouteUnresolved);
    }
    if !relocating {
      var found := disk.Read(account.path);
      if found == expected {
        return Ok(false);
      }
    }
    var ok := ReplaceWrapper(disk, preferred, account.id, expected.value, scripts);
    if !ok {
      return Err(IoError);
    }
    if relocating {
      var stale := disk.Exists(account.path);
      if stale {
        ghost var replaced := disk.files;
        RemovingOldKeeps(replaced, preferred, account.id, scripts);
        KeptReflexive(replaced, preferred, {account.id}, scripts);
        ok := disk.Remove(account.path);
        KeptTransitive(before, replaced, disk.files, preferred, {account.id}, scripts);
        if !ok {
          return Err(IoError);
        }
      }
    }
    return Ok(true);
  }

  lemma KeptReflexive(home: Home, preferred: Dir, ids: set<string>, scripts: Scripts)
    ensures Kept(home, home, preferred, ids, scripts)
  {
  }

  ghost predicate NeedsRepair(home: Home, preferred: Dir, account: Listed, scripts: Scripts) {
    account.path != Wrapper(preferred, account.id) || Lookup(home, account.path) != scripts(account.id)
  }

  /** The preferred place holds the expected script; a copy it was moved away from is gone, any other is untouched. */
  ghost predicate Repaired(before: Home, now: Home, preferred: Dir, account: Listed, scripts: Scripts) {
    var target, copy := Wrapper(preferred, account.id), Wrapper(preferred.Other(), account.id);
    && scripts(account.id).Some? && Lookup(now, target) == scripts(account.id)
    && Lookup(now, copy) == if account.path == target then Lookup(before, copy) else None
  }

  // ----- the whole list -----

  ghost predicate Pending(before: Home, now: Home, id: string) {
    forall dir: Dir :: Lookup(now, Wrapper(dir, id)) == Lookup(before, Wrapper(dir, id))
  }

  /** The expected script is at the preferred place; the copy elsewhere survives only if it was already shadowed. */
  ghost predicate Fixed(before: Home, now: Home, preferred: Dir, id: string, scripts: Scripts) {
    var target, copy := Wrapper(preferred, id), Wrapper(preferred.Other(), id);
    && scripts(id).Some? && Lookup(now, target) == scripts(id)
    && Lookup(now, copy) == if target in before then Lookup(before, copy) else None
  }

  ghost predicate Visited(accounts: seq<Listed>, done: nat, id: string)
    requires done <= |accounts|
  {
    exists k :: 0 <= k < done && accounts[k].id == id
  }

  ghost predicate Progress(before: Home, now: Home, preferred: Dir, accounts: seq<Listed>, done: nat, scripts: Scripts)
    requires done <= |accounts|
  {
    && (forall k :: 0 <= k < done ==> Fixed(before, now, preferred, accounts[k].id, scripts))
    && (forall id :: Visited(accounts, done, id) || Pending(before, now, id))
  }

  /** What success means, file by file. */
  lemma FixedFiles(before: Home, now: Home, preferred: Dir, id: string, scripts: Scripts)
    requires Fixed(before, now, preferred, id, scripts)
    ensures Wrapper(preferred, id) in now && Some(now[Wrapper(preferred, id)]) == scripts(id)
    ensures var copy := Wrapper(if preferred == LocalBin then Bin else LocalBin, id);
      && (copy in now <==> copy in before && Wrapper(preferred, id) in before)
      && (copy in now ==> now[copy] == before[copy])
  {
  }

  lemma OneMoreFixed(before: Home, mid: Home, now: Home, preferred: Dir, accounts: seq<Listed>, done: nat,
                     scripts: Scripts)
    requires done < |accounts| && Progress(before, mid, preferred, accounts, done, scripts)
    requires accounts[done].path == WrapperFilePath(before, accounts[done].id, preferred)
    requires Kept(mid, now, preferred, {accounts[done].id}, scripts)
    requires Repaired(mid, now, preferred, accounts[done], scripts)
    ensures Progress(before, now, preferred, accounts, done + 1, scripts)
  {
    var a := accounts[done];
    if Visited(accounts, done, a.id) {
      assert Fixed(before, mid, preferred, a.id, scripts);
    } else {
      assert Pending(before, mid, a.id);
    }
    assert Fixed(before, now, preferred, a.id, scripts);
    OthersUntouched(mid, now, preferred, a.id, scripts);
    forall k | 0 <= k < done + 1 ensures Fixed(before, now, preferred, accounts[k].id, scripts) {
      assert accounts[k].id != a.id ==> Pending(mid, now, accounts[k].id);
    }
    forall id ensures Visited(accounts, done + 1, id) || Pending(before, now, id) {
      assert Visited(accounts, done, id) || Pending(before, mid, id);
      assert id != a.id ==> Pending(mid, now, id);
      assert accounts[done].id == a.id;
    }
  }

  lemma OthersUntouched(mid: Home, now: Home, preferred: Dir, id: string, scripts: Scripts)
    requires Kept(mid, now, preferred, {id}, scripts)
    ensures forall other :: other != id ==> Pending(mid, now, other)
  {
  }

  /** Exactly the accounts that needed it are reported as repaired. */
  ghost predicate Reported(
    before: Home, preferred: Dir, accounts: seq<Listed>, done: nat, scripts: Scripts, repaired: seq<Place>)
    requires done <= |accounts|
  {
    && (forall k :: 0 <= k < done ==>
          (Wrapper(preferred, accounts[k].id) in repaired <==> NeedsRepair(before, preferred, accounts[k], scripts)))
    && (forall p :: p in repaired ==> p.Wrapper? && p.dir == preferred && Visited(accounts, done, p.id))
  }

  lemma OneMoreReported(before: Home, mid: Home, preferred: Dir, accounts: seq<Listed>, done: nat, scripts: Scripts,
                        repaired: seq<Place>, more: seq<Place>)
    requires done < |accounts|
    requires forall k :: 0 <= k < |accounts| ==> accounts[k].path == WrapperFilePath(before, accounts[k].id, preferred)
    requires Progress(before, mid, preferred, accounts, done, scripts)
    requires Reported(before, preferred, accounts, done, scripts, repaired)
    requires more == if NeedsRepair(mid, preferred, accounts[done], scripts)
                     then repaired + [Wrapper(preferred, accounts[done].id)] else repaired
    ensures Reported(before, preferred, accounts, done + 1, scripts, more)
  {
    var a := accounts[done];
    var target := Wrapper(preferred, a.id);
    if Visited(accounts, done, a.id) {
      var k :| 0 <= k < done && accounts[k].id == a.id;
      assert accounts[k] == a;
      assert target in repaired <==> NeedsRepair(before, preferred, a, scripts);
      assert Fixed(before, mid, preferred, a.id, scripts);
    } else {
      assert Pending(before, mid, a.id);
      assert target !in repaired;
    }
    assert target in more <==> NeedsRepair(before, preferred, a, scripts);
    assert forall p :: p in more ==> p in repaired || p == target;
    assert accounts[done].id == a.id;
    forall p | p in more ensures p.Wrapper? && p.dir == preferred && Visited(accounts, done + 1, p.id) {
      if p in repaired {
        assert Visited(accounts, done, p.id);
      }
    }
  }

  ghost predicate NothingToDo(home: Home, preferred: Dir, profiles: seq<Profile>, scripts: Scripts) {
    forall id :: id in ManagedIds(profiles) ==>
      scripts(id).Some? && Lookup(home, Wrapper(preferred, id)) == scripts(id)
  }

  method RepairManagedWrappers(disk: Disk<Place>, profiles: seq<Profile>, shell: Shell, scripts: Scripts)
    returns (r: Result<seq<Place>, Error>)
    requires disk.Valid()
    modifies disk
    ensures disk.Valid() && old(disk.seen) <= disk.seen && disk.faults >= old(disk.faults)
    // Whatever fails and wherever it stops: nobody loses a script, nothing else is written.
    ensures AllKept(old(disk.files), disk.seen, |old(disk.seen)|, ResolveWrapperDir(shell), ManagedIds(profiles),
                    scripts)
    ensures Kept(old(disk.files), disk.files, ResolveWrapperDir(shell), ManagedIds(profiles), scripts)
    // Success: everybody has the right script in the right place.
    ensures r.Ok? ==> forall id :: id in ManagedIds(profiles) ==>
                        Fixed(old(disk.files), disk.files, ResolveWrapperDir(shell), id, scripts)
    // Without faults it succeeds exactly when every route resolves, and reports exactly the
    // accounts that needed repair.
    ensures disk.faults == old(disk.faults) ==>
              (r.Ok? <==> forall id :: id in ManagedIds(profiles) ==> scripts(id).Some?)
    ensures disk.faults == old(disk.faults) && r.Ok? ==>
              var accounts := ManagedAccounts(old(disk.files), profiles, ResolveWrapperDir(shell));
              Reported(old(disk.files), ResolveWrapperDir(shell), accounts, |accounts|, scripts, r.value)
    // And when nothing needs repair, nothing is written.
    ensures disk.faults == old(disk.faults)
            && NothingToDo(old(disk.files), ResolveWrapperDir(shell), profiles, scripts) ==>
              r == Ok([]) && disk.files == old(disk.files) && disk.seen == old(disk.seen)
  {
    hide Kept, Reported, Progress, NeedsRepair, Repaired, Fixed, Effective, AllKept;
    ghost var before, from, faults, ids := disk.files, |disk.seen|, disk.faults, ManagedIds(profiles);
    var preferred := ResolveWrapperDir(shell);
    KeptReflexive(before, preferred, ids, scripts);
    NothingSeen(before, disk.seen, preferred, ids, scripts);
    var listed := disk.Attempt();
    if !listed {
      return Err(ListingFailed);
    }
    var accounts := ManagedAccounts(disk.files, profiles, preferred);
    var repaired: seq<Place> := [];
    Starting(before, preferred, accounts, scripts);
    for done := 0 to |accounts|
      invariant disk.Valid() && old(disk.seen) <= disk.seen && disk.faults >= faults
      invariant AllKept(before, disk.seen, from, preferred, ids, scripts)
      invariant Kept(before, disk.files, preferred, ids, scripts)
      invariant Progress(before, disk.files, preferred, accounts, done, scripts)
      invariant disk.faults == faults ==> Reported(before, preferred, accounts, done, scripts, repaired)
      invariant repaired == [] ==> disk.files == before && disk.seen == old(disk.seen)
    {
      ghost var mid, earlier := disk.files, disk.seen;
      var account := accounts[done];
      assert account in accounts && account.id in ids;
      var fixed := RepairOne(disk, preferred, account, scripts);
      KeptThroughout(before, mid, earlier, disk.seen, from, disk.files, preferred, account.id, ids, scripts);
      if fixed.Err? {
        RouteOrFault(before, preferred, profiles, scripts, account.id);
        return Err(fixed.error);
      }
      OneMoreFixed(before, mid, disk.files, preferred, accounts, done, scripts);
      ghost var reported := repaired;
      if fixed.value {
        repaired := repaired + [Wrapper(preferred, account.id)];
      }
      if disk.faults == faults {
        OneMoreReported(before, mid, preferred, accounts, done, scripts, reported, repaired);
      }
    }
    Finished(before, disk.files, preferred, profiles, scripts);
    if disk.faults == faults && NothingToDo(before, preferred, profiles, scripts) {
      NothingReported(before, preferred, profiles, scripts, repaired);
    }
    return Ok(repaired);
  }

  lemma NothingSeen(before: Home, seen: seq<Home>, preferred: Dir, ids: set<string>, scripts: Scripts)
    ensures AllKept(before, seen, |seen|, preferred, ids, scripts)
  {
  }

  lemma Starting(before: Home, preferred: Dir, accounts: seq<Listed>, scripts: Scripts)
    ensures Progress(before, before, preferred, accounts, 0, scripts)
    ensures Reported(before, preferred, accounts, 0, scripts, [])
  {
  }

  lemma RouteOrFault(before: Home, preferred: Dir, profiles: seq<Profile>, scripts: Scripts, id: string)
    requires id in ManagedIds(profiles)
    ensures scripts(id).None? ==> !NothingToDo(before, preferred, profiles, scripts)
  {
  }

  lemma Finished(before: Home, now: Home, preferred: Dir, profiles: seq<Profile>, scripts: Scripts)
    requires var accounts := ManagedAccounts(before, profiles, preferred);
             Progress(before, now, preferred, accounts, |accounts|, scripts)
    ensures forall id :: id in ManagedIds(profiles) ==> Fixed(before, now, preferred, id, scripts)
    ensures forall id :: id in ManagedIds(profiles) ==> scripts(id).Some?
  {
    var accounts := ManagedAccounts(before, profiles, preferred);
    forall id | id in ManagedIds(profiles) ensures Fixed(before, now, preferred, id, scripts) {
      var k :| 0 <= k < |accounts| && accounts[k] == Listed(id, WrapperFilePath(before, id, preferred));
      assert Fixed(before, now, preferred, accounts[k].id, scripts);
    }
  }

  lemma NothingReported(before: Home, preferred: Dir, profiles: seq<Profile>, scripts: Scripts, repaired: seq<Place>)
    requires NothingToDo(before, preferred, profiles, scripts)
    requires var accounts := ManagedAccounts(before, profiles, preferred);
             Reported(before, preferred, accounts, |accounts|, scripts, repaired)
    ensures repaired == []
  {
    var accounts := ManagedAccounts(before, profiles, preferred);
    forall k | 0 <= k < |accounts| ensures Wrapper(preferred, accounts[k].id) !in repaired {
      assert accounts[k] in accounts;
    }
    assert repaired != [] ==> repaired[0] in repaired && Visited(accounts, |accounts|, repaired[0].id);
  }

  /** Creating the directory it chose does not change the choice. */
  function AfterRepair(shell: Shell): (later: Shell)
    ensures ResolveWrapperDir(later) == ResolveWrapperDir(shell)
  {
    shell.(localBinIsDir := shell.localBinIsDir || ResolveWrapperDir(shell) == LocalBin)
  }

  /** A second repair, if nothing fails, reports nothing and writes nothing. */
  method RepairTwice(disk: Disk<Place>, profiles: seq<Profile>, shell: Shell, scripts: Scripts)
    returns (first: Result<seq<Place>, Error>, second: Result<seq<Place>, Error>,
             ghost between: Home, ghost passed: nat, ghost faults: nat)
    requires disk.Valid()
    modifies disk
    ensures disk.Valid()
    ensures first.Ok? && disk.faults == faults ==> second == Ok([]) && disk.files == between && |disk.seen| == passed
  {
    first := RepairManagedWrappers(disk, profiles, shell, scripts);
    between, passed, faults := disk.files, |disk.seen|, disk.faults;
    second := RepairManagedWrappers(disk, profiles, AfterRepair(shell), scripts);
  }
}
