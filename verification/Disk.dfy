/**
 A file system as a map, changed one call at a time. Any call may fail, and the
 process may die after any call, so every intermediate state is recorded.
 */
module Disk {
  import opened Options

  type Bytes = seq<nat>

  type Files<P> = map<P, Bytes>

  function Lookup<P, V>(m: map<P, V>, p: P): Option<V> {
    if p in m then Some(m[p]) else None
  }

  /** Nothing but the paths in `except` may differ. */
  ghost predicate Agree<P(!new)>(before: Files<P>, after: Files<P>, except: set<P>) {
    forall p :: p !in except ==> Lookup(before, p) == Lookup(after, p)
  }

  // ----- replacing one file -----

  /** Only the temporary file differs. */
  ghost predicate Preparing<P(!new)>(before: Files<P>, now: Files<P>, temp: P) {
    Agree(before, now, {temp})
  }

  /** The target has the new content. */
  ghost predicate Replaced<P(!new)>(before: Files<P>, now: Files<P>, temp: P, target: P, content: Bytes) {
    Agree(before, now, {temp, target}) && Lookup(now, target) == Some(content)
  }

  /** Only the temporary file is unfinished: the target is still the old one or already the new one. */
  ghost predicate Replacing<P(!new)>(before: Files<P>, now: Files<P>, temp: P, target: P, content: Bytes) {
    && Agree(before, now, {temp, target})
    && (Lookup(now, target) == Lookup(before, target) || Lookup(now, target) == Some(content))
  }

  ghost predicate AllReplacing<P(!new)>(
    before: Files<P>, seen: seq<Files<P>>, from: nat, temp: P, target: P, content: Bytes)
  {
    forall i :: from <= i < |seen| ==> Replacing(before, seen[i], temp, target, content)
  }

  lemma EitherIsReplacing<P(!new)>(before: Files<P>, now: Files<P>, temp: P, target: P, content: Bytes)
    requires temp != target
    ensures Preparing(before, now, temp) ==>
              Replacing(before, now, temp, target, content) && Lookup(now, target) == Lookup(before, target)
    ensures Replaced(before, now, temp, target, content) ==>
              Replacing(before, now, temp, target, content) && Lookup(now, target) == Some(content)
  {
  }

  lemma TempWritten<P(!new)>(before: Files<P>, now: Files<P>, temp: P, c: Bytes)
    requires Preparing(before, now, temp)
    ensures Preparing(before, now[temp := c], temp)
  {
  }

  lemma TempRemoved<P(!new)>(before: Files<P>, now: Files<P>, temp: P, target: P, content: Bytes)
    requires temp != target
    ensures Preparing(before, now, temp) ==> Preparing(before, now - {temp}, temp)
    ensures Replaced(before, now, temp, target, content) ==> Replaced(before, now - {temp}, temp, target, content)
  {
  }

  lemma Renamed<P(!new)>(before: Files<P>, now: Files<P>, temp: P, target: P, content: Bytes)
    requires temp != target && Preparing(before, now, temp) && Lookup(now, temp) == Some(content)
    ensures Replaced(before, (now - {temp})[target := now[temp]], temp, target, content)
  {
  }

  class Disk<P(!new, ==)> {
    var files: Files<P>
    /** Every state so far, the current one last: what a crash may leave behind. */
    var seen: seq<Files<P>>
    /** The target of every successful rename so far. */
    ghost var renames: seq<P>
    /** How many calls failed for no reason visible in `files`. */
    ghost var faults: nat

    ghost predicate Valid()
      reads this
    {
      seen != [] && seen[|seen| - 1] == files
    }

    constructor (files: Files<P>)
      ensures Valid() && this.files == files && seen == [files] && faults == 0 && renames == []
    {
      this.files, seen, faults, renames := files, [files], 0, [];
    }

    /** A call whose effect is outside the model: create a directory, sync, set permissions. */
    method Attempt() returns (ok: bool)
      modifies this`faults
      ensures faults == old(faults) + if ok then 0 else 1
    {
      ok := *;
      if !ok {
        faults := faults + 1;
      }
    }

    method Exists(p: P) returns (yes: bool)
      ensures yes == (p in files)
    {
      yes := p in files;
    }

    method Read(p: P) returns (content: Option<Bytes>)
      modifies this`faults
      ensures content.Some? ==> Lookup(files, p) == content && faults == old(faults)
      ensures content.None? && p in files ==> faults == old(faults) + 1
      ensures p !in files ==> faults == old(faults)
    {
      content := None;
      if p in files {
        var ok := Attempt();
        if ok {
          content := Some(files[p]);
        }
      }
    }

    /** Create an empty file; refused if the file exists. */
    method CreateNew(p: P) returns (ok: bool)
      requires Valid()
      modifies this
      ensures Valid() && seen == old(seen) + [files]
      ensures files == if ok then old(files)[p := []] else old(files)
      ensures ok ==> p !in old(files) && faults == old(faults)
      ensures !ok && p !in old(files) ==> faults == old(faults) + 1
      ensures p in old(files) ==> faults == old(faults)
      ensures renames == old(renames)
    {
      ok := false;
      if p !in files {
        ok := Attempt();
        if ok {
          files := files[p := []];
        }
      }
      seen := seen + [files];
    }

    /** Create or truncate a file. */
    method Create(p: P) returns (ok: bool)
      requires Valid()
      modifies this
      ensures Valid() && seen == old(seen) + [files]
      ensures files == if ok then old(files)[p := []] else old(files)
      ensures faults == old(faults) + if ok then 0 else 1
      ensures renames == old(renames)
    {
      ok := Attempt();
      if ok {
        files := files[p := []];
      }
      seen := seen + [files];
    }

    /** Fill a file just created; a crash or a failure may leave any prefix. */
    method WriteAll(p: P, content: Bytes) returns (ok: bool)
      requires Valid()
      modifies this
      ensures Valid() && |seen| == |old(seen)| + 2 && old(seen) <= seen
      ensures forall i :: |old(seen)| <= i < |seen| ==>
                exists n: nat :: n <= |content| && seen[i] == old(files)[p := content[..n]]
      ensures ok ==> files == old(files)[p := content]
      ensures faults == old(faults) + if ok then 0 else 1
      ensures renames == old(renames)
    {
      var torn: nat :| torn <= |content|;
      var before := files;
      files := before[p := content[..torn]];
      seen := seen + [files];
      ok := Attempt();
      if ok {
        assert content[..|content|] == content;
        files := before[p := content];
      }
      seen := seen + [files];
    }

    method Rename(from: P, to: P) returns (ok: bool)
      requires Valid() && from in files && from != to
      modifies this
      ensures Valid() && seen == old(seen) + [files]
      ensures files == if ok then (old(files) - {from})[to := old(files)[from]] else old(files)
      ensures faults == old(faults) + if ok then 0 else 1
      ensures if ok then renames == old(renames) + [to] else renames == old(renames)
    {
      ok := Attempt();
      if ok {
        files := (files - {from})[to := files[from]];
        renames := renames + [to];
      }
      seen := seen + [files];
    }

    method Remove(p: P) returns (ok: bool)
      requires Valid()
      modifies this
      ensures Valid() && seen == old(seen) + [files]
      ensures files == if ok then old(files) - {p} else old(files)
      ensures ok ==> p in old(files) && faults == old(faults)
      ensures !ok && p in old(files) ==> faults == old(faults) + 1
      ensures p !in old(files) ==> faults == old(faults)
      ensures renames == old(renames)
    {
      ok := false;
      if p in files {
        ok := Attempt();
        if ok {
          files := files - {p};
        }
      }
      seen := seen + [files];
    }

    /** The process dies somewhere after call number `from`: one of the states since then is what is left. */
    method Crash(from: nat)
      requires Valid() && from < |seen|
      modifies this`files, this`seen
      ensures Valid() && old(seen) <= seen
      ensures exists i :: from <= i < |old(seen)| && files == old(seen)[i]
    {
      var i: nat :| from <= i < |seen|;
      files := seen[i];
      seen := seen + [files];
    }
  }
}
