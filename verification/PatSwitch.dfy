/**
 Switching the active account: the chosen profile's credential files are copied
 into the active slot one file operation at a time.
 */
module PatSwitch {
  import opened Options
  import opened Json
  import opened Disk
  import opened UsageTimeline

  /** The paths the switch can touch. A profile never shares a path with the active slot. */
  datatype Path =
    | ActiveAuth | ActiveAuthF
    | TempAuth(pid: nat) | TempAuthF(pid: nat)
    | TimelineFile
    | ProfileAuth(id: string) | ProfileAuthF(id: string)
    | Other(name: string)

  type Home = Files<Path>

  /** JSON text: reading any file, and writing and reading the timeline. */
  datatype Text = Text(
    parse: Bytes -> Option<Json>, writeTimeline: Timeline -> Bytes, readTimeline: Bytes -> Option<Timeline>)

  datatype Error =
    | InvalidAccountName | MainAuthSlot | AccountNotFound | AuthNotFound | CreateDirFailed | ReadFailed
    | InvalidAuthJson | IoError | VerifyFailed | RemoveFailed

  predicate IsAlphanumeric(c: char) {
    'a' <= c <= 'z' || 'A' <= c <= 'Z' || '0' <= c <= '9'
  }

  predicate ValidName(name: string) {
    && name != "" && name != "main" && name != "default" && |name| <= 32
    && IsAlphanumeric(name[0])
    && forall i :: 1 <= i < |name| ==> IsAlphanumeric(name[i]) || name[i] == '_' || name[i] == '-'
  }

  function ValidateProfileId(input: string): (r: Result<string, Error>)
    ensures r.Ok? ==> r.value == Trim(input) && forall c :: c in r.value ==> IsAlphanumeric(c) || c == '_' || c == '-'
    ensures r.Ok? && r.value != "main" ==> ValidName(r.value)
    ensures r.Err? ==> Trim(input) != "main" && !ValidName(Trim(input)) && r.error == InvalidAccountName
  {
    var name := Trim(input);
    if name == "main" || ValidName(name) then Ok(name) else Err(InvalidAccountName)
  }

  predicate IsObject(content: Bytes, text: Text) {
    var v := text.parse(content);
    v.Some? && v.value.Obj?
  }

  datatype Slot = Slot(auth: Option<Bytes>, authF: Option<Bytes>)

  function ActiveSlot(home: Home): Slot {
    Slot(Lookup(home, ActiveAuth), Lookup(home, ActiveAuthF))
  }

  function ProfileSlot(home: Home, id: string): Slot {
    Slot(Lookup(home, ProfileAuth(id)), Lookup(home, ProfileAuthF(id)))
  }

  /** The timeline as the next switch will see it; unreadable text counts as none. */
  function Loaded(home: Home, text: Text): Timeline {
    var body := Lookup(home, TimelineFile);
    if body.None? then []
    else
      var events := text.readTimeline(body.value);
      if events.Some? then events.value else []
  }

  /** What the switch may write besides the slot: its own temporary files and the timeline. */
  function Scratch(pid: nat): set<Path> {
    {ActiveAuth, ActiveAuthF, TimelineFile, TempAuth(pid), TempAuthF(pid)}
  }

  // ----- replacing one file -----

  /** Write a temporary file and make it durable. */
  method WriteTemp(disk: Disk<Path>, temp: Path, content: Bytes) returns (ok: bool)
    requires disk.Valid()
    modifies disk
    ensures disk.Valid() && old(disk.seen) <= disk.seen && |disk.seen| > |old(disk.seen)|
    ensures forall i :: |old(disk.seen)| <= i < |disk.seen| ==> Preparing(old(disk.files), disk.seen[i], temp)
    ensures ok ==> Lookup(disk.files, temp) == Some(content)
    ensures disk.faults >= old(disk.faults)
    ensures disk.faults == old(disk.faults) ==> ok == (temp !in old(disk.files))
    ensures disk.renames == old(disk.renames)
  {
    ghost var before, from := disk.files, |disk.seen|;
    ok := disk.CreateNew(temp);
    assert Preparing(before, disk.files, temp);
    if !ok {
      return;
    }
    ghost var created := disk.files;
    ok := disk.WriteAll(temp, content);
    forall i | from <= i < |disk.seen| ensures Preparing(before, disk.seen[i], temp) {
      if i > from {
        var n: nat :| n <= |content| && disk.seen[i] == created[temp := content[..n]];
        TempWritten(before, created, temp, content[..n]);
      }
    }
    if ok {
      ok := disk.Attempt();
    }
    if ok {
      ok := disk.Attempt();
    }
  }

  /**
   Write a temporary file, rename it over the target, and clean up if anything went
   wrong. Up to state number `at` only the temporary file differs; from then on the
   target is replaced, for good. A failure before the rename leaves the target alone.
   */
  method ReplaceFile(disk: Disk<Path>, temp: Path, target: Path, content: Bytes) returns (ok: bool, ghost at: nat)
    requires disk.Valid() && temp != target
    modifies disk
    ensures disk.Valid() && old(disk.seen) <= disk.seen && |disk.seen| > |old(disk.seen)|
    ensures |old(disk.seen)| <= at <= |disk.seen|
    ensures forall i :: |old(disk.seen)| <= i < at ==> Preparing(old(disk.files), disk.seen[i], temp)
    ensures forall i :: at <= i < |disk.seen| ==> Replaced(old(disk.files), disk.seen[i], temp, target, content)
    ensures if at < |disk.seen| then disk.renames == old(disk.renames) + [target] else disk.renames == old(disk.renames)
    ensures ok ==> at < |disk.seen|
    ensures AllReplacing(old(disk.files), disk.seen, |old(disk.seen)|, temp, target, content)
    ensures disk.renames == old(disk.renames) ==> Lookup(disk.files, target) == Lookup(old(disk.files), target)
    ensures ok ==> Lookup(disk.files, target) == Some(content)
    ensures disk.faults >= old(disk.faults)
    ensures disk.faults == old(disk.faults) ==> ok == (temp !in old(disk.files))
    ensures disk.faults == old(disk.faults) && !ok ==> Lookup(disk.files, target) == Lookup(old(disk.files), target)
  {
    hide Replacing, Replaced, Preparing, Agree;
    ghost var before, from := disk.files, |disk.seen|;
    ok := WriteTemp(disk, temp, content);
    at := |disk.seen|;
    if ok {
      Renamed(before, disk.files, temp, target, content);
      ok := disk.Rename(temp, target);
      if ok {
        assert Replaced(before, disk.files, temp, target, content);
        ok := disk.Attempt();
      } else {
        at := |disk.seen|;
      }
    }
    if !ok {
      TempRemoved(before, disk.files, temp, target, content);
      var removed := disk.Remove(temp);
      if |disk.renames| == |old(disk.renames)| {
        at := |disk.seen|;
      }
    }
    forall i | from <= i < |disk.seen| ensures Replacing(before, disk.seen[i], temp, target, content) {
      EitherIsReplacing(before, disk.seen[i], temp, target, content);
    }
    EitherIsReplacing(before, disk.files, temp, target, content);
  }

  // ----- appending to the timeline -----

  /** Nothing differs. */
  ghost predicate TimelineKept(before: Home, now: Home) {
    Agree(before, now, {})
  }

  /** Only the timeline differs: it is some beginning of the new text. */
  ghost predicate TimelineBegun(before: Home, now: Home, body: Bytes) {
    && Agree(before, now, {TimelineFile})
    && exists n: nat :: n <= |body| && Lookup(now, TimelineFile) == Some(body[..n])
  }

  lemma TimelinePrefix(before: Home, now: Home, body: Bytes, n: nat)
    requires Agree(before, now, {TimelineFile}) && n <= |body|
    ensures TimelineBegun(before, now[TimelineFile := body[..n]], body)
  {
    assert Lookup(now[TimelineFile := body[..n]], TimelineFile) == Some(body[..n]);
  }

  /**
   The timeline file is rewritten in place, not replaced, so a crash can leave it torn.
   Once `begun`, no state goes back to the old text.
   */
  method RecordPatUsageSwitch(disk: Disk<Path>, accountId: string, now: int, text: Text)
    returns (ok: bool, ghost loaded: Timeline, ghost begun: bool)
    requires disk.Valid()
    modifies disk
    ensures disk.Valid() && old(disk.seen) <= disk.seen
    ensures loaded == [] || loaded == Loaded(old(disk.files), text)
    ensures var body := text.writeTimeline(Record(loaded, accountId, now));
      && (forall i :: |old(disk.seen)| <= i < |disk.seen| ==>
            if begun then TimelineBegun(old(disk.files), disk.seen[i], body)
            else TimelineKept(old(disk.files), disk.seen[i]))
      && (if begun then TimelineBegun(old(disk.files), disk.files, body) else TimelineKept(old(disk.files), disk.files))
      && (ok ==> begun && Lookup(disk.files, TimelineFile) == Some(body))
    ensures disk.renames == old(disk.renames)
    ensures disk.faults >= old(disk.faults)
    ensures disk.faults == old(disk.faults) ==> ok && loaded == Loaded(old(disk.files), text)
  {
    hide Record;
    ghost var before, from := disk.files, |disk.seen|;
    begun := false;
    var body := disk.Read(TimelineFile);
    var events: Timeline := [];
    if body.Some? {
      var parsed := text.readTimeline(body.value);
      if parsed.Some? {
        events := parsed.value;
      }
    }
    loaded := events;
    var content := text.writeTimeline(Record(events, accountId, now));
    ok := disk.Attempt();
    if !ok {
      return;
    }
    ok := disk.Create(TimelineFile);
    assert content[..0] == [];
    TimelinePrefix(before, before, content, 0);
    if !ok {
      return;
    }
    begun := true;
    ghost var created := disk.files;
    ok := disk.WriteAll(TimelineFile, content);
    forall i | from <= i < |disk.seen| ensures TimelineBegun(before, disk.seen[i], content) {
      if i > from {
        var n: nat :| n <= |content| && disk.seen[i] == created[TimelineFile := content[..n]];
        TimelinePrefix(before, created, content, n);
      }
    }
    if ok {
      ok := disk.Attempt();
    }
  }

  // ----- the switch -----

  /** How far a switch has got: first file replaced, timeline being written or written, all done. */
  datatype Stage = Untouched | FirstReplaced | Recording | Finished

  ghost predicate AtStage(before: Home, now: Home, id: string, body: Bytes, pid: nat, stage: Stage) {
    var (was, source, slot) := (ActiveSlot(before), ProfileSlot(before, id), ActiveSlot(now));
    && Agree(before, now, Scratch(pid))
    && match stage
       case Untouched => slot == was && Lookup(now, TimelineFile) == Lookup(before, TimelineFile)
       case FirstReplaced =>
         slot == Slot(source.auth, was.authF) && Lookup(now, TimelineFile) == Lookup(before, TimelineFile)
       case Recording =>
         slot == Slot(source.auth, was.authF)
         && exists n: nat :: n <= |body| && Lookup(now, TimelineFile) == Some(body[..n])
       case Finished => slot == source && Lookup(now, TimelineFile) == Some(body)
  }

  /** A state a crash during the switch to `id` can leave, `body` being the new timeline. */
  ghost predicate CrashPoint(before: Home, now: Home, id: string, body: Bytes, pid: nat) {
    exists stage :: AtStage(before, now, id, body, pid, stage)
  }

  /** The numbers of the states at which the later stages begin. */
  datatype Marks = Marks(replaced: nat, recording: nat, finished: nat)

  /** The stages follow each other: no state falls back to an earlier one. */
  ghost predicate Staged(before: Home, seen: seq<Home>, from: nat, marks: Marks, id: string, body: Bytes, pid: nat) {
    && from <= marks.replaced <= marks.recording <= marks.finished <= |seen|
    && (forall i :: from <= i < marks.replaced ==> AtStage(before, seen[i], id, body, pid, Untouched))
    && (forall i :: marks.replaced <= i < marks.recording ==> AtStage(before, seen[i], id, body, pid, FirstReplaced))
    && (forall i :: marks.recording <= i < marks.finished ==> AtStage(before, seen[i], id, body, pid, Recording))
    && (forall i :: marks.finished <= i < |seen| ==> AtStage(before, seen[i], id, body, pid, Finished))
  }

  /** What the switch answers when no call fails. */
  function Expected(home: Home, input: string, profiles: set<string>, pid: nat, text: Text): Result<(), Error> {
    var id := ValidateProfileId(input);
    if id.Err? then Err(id.error)
    else if id.value == "main" then Err(MainAuthSlot)
    else if id.value !in profiles then Err(AccountNotFound)
    else
      var source := ProfileSlot(home, id.value);
      if source.auth.None? then Err(AuthNotFound)
      else if !IsObject(source.auth.value, text) then Err(InvalidAuthJson)
      else if TempAuth(pid) in home then Err(IoError)
      else if source.authF.None? then Ok(())
      else if !IsObject(source.authF.value, text) then Err(InvalidAuthJson)
      else if TempAuthF(pid) in home then Err(IoError)
      else Ok(())
  }

  /** Which names are accepted, character by character. */
  lemma AcceptedNames(input: string)
    ensures ValidateProfileId(input).Ok? <==>
              var name := Trim(input);
              || name == "main"
              || (&& name != "default" && 1 <= |name| <= 32
                  && forall i :: 0 <= i < |name| ==>
                       || 'a' <= name[i] <= 'z' || 'A' <= name[i] <= 'Z' || '0' <= name[i] <= '9'
                       || (i > 0 && (name[i] == '_' || name[i] == '-')))
  {
    hide Trim;
  }

  /** The slot holds an account when both files do. */
  lemma SlotHolds(before: Home, now: Home, id: string)
    ensures ActiveSlot(now) == ProfileSlot(before, id) <==>
              && (ActiveAuth in now <==> ProfileAuth(id) in before)
              && (ActiveAuth in now ==> now[ActiveAuth] == before[ProfileAuth(id)])
              && (ActiveAuthF in now <==> ProfileAuthF(id) in before)
              && (ActiveAuthF in now ==> now[ActiveAuthF] == before[ProfileAuthF(id)])
  {
  }

  /**
   Without faults a switch succeeds exactly for a known account other than the main
   one whose files are objects, and if no temporary file is in the way. Otherwise the
   first of these that does not hold decides the error.
   */
  lemma FaultlessAnswer(home: Home, input: string, profiles: set<string>, pid: nat, text: Text, id: string)
    requires id == Trim(input)
    ensures var r := Expected(home, input, profiles, pid, text);
            var auth := if ProfileAuth(id) in home then text.parse(home[ProfileAuth(id)]) else None;
            var authF := if ProfileAuthF(id) in home then text.parse(home[ProfileAuthF(id)]) else None;
      && (r == Err(InvalidAccountName) <==> ValidateProfileId(input).Err?)
      && (r == Err(MainAuthSlot) <==> id == "main")
      && (r == Err(AccountNotFound) <==> ValidateProfileId(input).Ok? && id != "main" && id !in profiles)
      && (ValidateProfileId(input).Ok? && id != "main" && id in profiles ==>
            && (r == Err(AuthNotFound) <==> ProfileAuth(id) !in home)
            && (r == Err(InvalidAuthJson) <==>
                  && ProfileAuth(id) in home
                  && (if auth.None? || !auth.value.Obj? then true
                      else TempAuth(pid) !in home && ProfileAuthF(id) in home && (authF.None? || !authF.value.Obj?)))
            && (r == Err(IoError) <==>
                  && auth.Some? && auth.value.Obj?
                  && (TempAuth(pid) in home || (authF.Some? && authF.value.Obj? && TempAuthF(pid) in home)))
            && (r == Ok(()) <==>
                  && auth.Some? && auth.value.Obj? && TempAuth(pid) !in home
                  && (ProfileAuthF(id) in home ==> authF.Some? && authF.value.Obj? && TempAuthF(pid) !in home)))
  {
    hide Trim, ValidName;
  }

  lemma FirstFile(before: Home, now: Home, id: string, body: Bytes, pid: nat)
    requires ProfileAuth(id) in before
    ensures Preparing(before, now, TempAuth(pid)) ==>
              AtStage(before, now, id, body, pid, Untouched) && ActiveSlot(now) == ActiveSlot(before)
    ensures Replaced(before, now, TempAuth(pid), ActiveAuth, before[ProfileAuth(id)]) ==>
              && AtStage(before, now, id, body, pid, FirstReplaced)
              && Agree(before, now, {TempAuth(pid), ActiveAuth})
              && Lookup(now, ActiveAuth) == Lookup(before, ProfileAuth(id))
  {
  }

  lemma TimelineStage(before: Home, mid: Home, now: Home, id: string, body: Bytes, pid: nat)
    requires Agree(before, mid, {TempAuth(pid), ActiveAuth})
    requires Lookup(mid, ActiveAuth) == Lookup(before, ProfileAuth(id))
    ensures TimelineKept(mid, now) ==> AtStage(before, now, id, body, pid, FirstReplaced)
    ensures TimelineBegun(mid, now, body) ==>
              && AtStage(before, now, id, body, pid, Recording)
              && Agree(before, now, {TempAuth(pid), ActiveAuth, TimelineFile})
              && Lookup(now, ActiveAuth) == Lookup(before, ProfileAuth(id))
  {
  }

  lemma SecondFile(before: Home, mid: Home, now: Home, id: string, body: Bytes, pid: nat)
    requires Agree(before, mid, {TempAuth(pid), ActiveAuth, TimelineFile})
    requires Lookup(mid, ActiveAuth) == Lookup(before, ProfileAuth(id))
    requires Lookup(mid, TimelineFile) == Some(body) && body[..|body|] == body
    requires ProfileAuthF(id) in before
    ensures Preparing(mid, now, TempAuthF(pid)) ==> AtStage(before, now, id, body, pid, Recording)
    ensures Replaced(mid, now, TempAuthF(pid), ActiveAuthF, before[ProfileAuthF(id)]) ==>
              AtStage(before, now, id, body, pid, Finished)
  {
  }

  lemma SecondFileGone(before: Home, mid: Home, id: string, body: Bytes, pid: nat)
    requires Agree(before, mid, {TempAuth(pid), ActiveAuth, TimelineFile})
    requires Lookup(mid, ActiveAuth) == Lookup(before, ProfileAuth(id))
    requires Lookup(mid, TimelineFile) == Some(body) && body[..|body|] == body
    requires ProfileAuthF(id) !in before
    ensures AtStage(before, mid, id, body, pid, Recording)
    ensures AtStage(before, mid - {ActiveAuthF}, id, body, pid, Finished)
    ensures ActiveAuthF !in mid ==> AtStage(before, mid, id, body, pid, Finished)
  {
  }

  lemma SameTimelineFile(before: Home, now: Home, temp: Path, content: Bytes)
    requires temp != TimelineFile && Replacing(before, now, temp, ActiveAuthF, content)
    ensures Lookup(now, TimelineFile) == Lookup(before, TimelineFile)
  {
  }

  lemma FinishedIsDone(before: Home, now: Home, id: string, body: Bytes, pid: nat)
    ensures AtStage(before, now, id, body, pid, Finished) ==>
              ActiveSlot(now) == ProfileSlot(before, id) && Lookup(now, TimelineFile) == Some(body)
  {
  }

  /** The last part of the switch: `auth-f.json` is copied, or removed where the profile has none. */
  method SwitchSecondFile(disk: Disk<Path>, id: string, pid: nat, text: Text, ghost before: Home, ghost body: Bytes)
    returns (r: Result<(), Error>, ghost finished: nat)
    requires disk.Valid()
    requires Agree(before, disk.files, {TempAuth(pid), ActiveAuth, TimelineFile})
    requires Lookup(disk.files, ActiveAuth) == Lookup(before, ProfileAuth(id))
    requires Lookup(disk.files, TimelineFile) == Some(body)
    modifies disk
    ensures disk.Valid() && old(disk.seen) <= disk.seen && |old(disk.seen)| <= finished <= |disk.seen|
    ensures forall i :: |old(disk.seen)| <= i < finished ==> AtStage(before, disk.seen[i], id, body, pid, Recording)
    ensures forall i :: finished <= i < |disk.seen| ==> AtStage(before, disk.seen[i], id, body, pid, Finished)
    ensures r.Ok? ==>
              ActiveSlot(disk.files) == ProfileSlot(before, id) && Lookup(disk.files, TimelineFile) == Some(body)
    ensures Lookup(disk.files, TimelineFile) == Some(body)
    ensures disk.renames in {old(disk.renames), old(disk.renames) + [ActiveAuthF]}
    ensures r.Err? ==> r.error in {ReadFailed, InvalidAuthJson, IoError, RemoveFailed}
    ensures disk.faults >= old(disk.faults)
    ensures disk.faults == old(disk.faults) ==>
              r == (if ProfileAuthF(id) !in before then Ok(())
                    else if !IsObject(before[ProfileAuthF(id)], text) then Err(InvalidAuthJson)
                    else if TempAuthF(pid) in before then Err(IoError)
                    else Ok(()))
  {
    hide Replacing, Replaced, Preparing, AtStage, Agree, ActiveSlot, ProfileSlot;
    ghost var recorded, from := disk.files, |disk.seen|;
    assert body[..|body|] == body;
    SameProfile(before, recorded, id, pid);
    finished := from;
    var present := disk.Exists(ProfileAuthF(id));
    if present {
      var source := disk.Read(ProfileAuthF(id));
      if source.None? {
        return Err(ReadFailed), finished;
      }
      if !IsObject(source.value, text) {
        return Err(InvalidAuthJson), finished;
      }
      var ok;
      ok, finished := ReplaceFile(disk, TempAuthF(pid), ActiveAuthF, source.value);
      forall i | from <= i < |disk.seen|
        ensures AtStage(before, disk.seen[i], id, body, pid, if i < finished then Recording else Finished)
      {
        SecondFile(before, recorded, disk.seen[i], id, body, pid);
      }
      FinishedIsDone(before, disk.files, id, body, pid);
      EitherIsReplacing(recorded, disk.files, TempAuthF(pid), ActiveAuthF, source.value);
      SameTimelineFile(recorded, disk.files, TempAuthF(pid), source.value);
      if !ok {
        return Err(IoError), finished;
      }
    } else {
      SecondFileGone(before, recorded, id, body, pid);
      FinishedIsDone(before, recorded, id, body, pid);
      FinishedIsDone(before, recorded - {ActiveAuthF}, id, body, pid);
      var stale := disk.Exists(ActiveAuthF);
      if stale {
        var ok := disk.Remove(ActiveAuthF);
        if !ok {
          return Err(RemoveFailed), |disk.seen|;
        }
      }
    }
    return Ok(()), finished;
  }

  /** Every stage is a state a crash can leave. */
  lemma StagesAreCrashPoints(before: Home, seen: seq<Home>, from: nat, marks: Marks, id: string, body: Bytes, pid: nat)
    requires Staged(before, seen, from, marks, id, body, pid)
    ensures forall i :: from <= i < |seen| ==> CrashPoint(before, seen[i], id, body, pid)
  {
    hide AtStage;
    forall i | from <= i < |seen| ensures CrashPoint(before, seen[i], id, body, pid) {
      var stage := if i < marks.replaced then Untouched else if i < marks.recording then FirstReplaced
                   else if i < marks.finished then Recording else Finished;
      assert AtStage(before, seen[i], id, body, pid, stage);
    }
  }

  /** The part of the switch that writes. */
  method SwitchFiles(disk: Disk<Path>, id: string, source: Bytes, now: int, pid: nat, text: Text)
    returns (r: Result<(), Error>, ghost loaded: Timeline, ghost marks: Marks)
    requires disk.Valid() && Lookup(disk.files, ProfileAuth(id)) == Some(source)
    modifies disk
    ensures disk.Valid() && old(disk.seen) <= disk.seen && |disk.seen| > |old(disk.seen)|
    ensures loaded == [] || loaded == Loaded(old(disk.files), text)
    ensures var body := text.writeTimeline(Record(loaded, id, now));
      && Staged(old(disk.files), disk.seen, |old(disk.seen)|, marks, id, body, pid)
      && (r.Ok? ==> ActiveSlot(disk.files) == ProfileSlot(old(disk.files), id)
                    && Lookup(disk.files, TimelineFile) == Some(body))
    ensures marks.replaced < |disk.seen| <==> disk.renames != old(disk.renames)
    ensures disk.renames == old(disk.renames) ==>
              && r.Err? && ActiveSlot(disk.files) == ActiveSlot(old(disk.files))
              && Lookup(disk.files, TimelineFile) == Lookup(old(disk.files), TimelineFile)
    ensures disk.renames in {old(disk.renames), old(disk.renames) + [ActiveAuth],
                             old(disk.renames) + [ActiveAuth, ActiveAuthF]}
    ensures r.Err? ==> r.error in {ReadFailed, InvalidAuthJson, IoError, VerifyFailed, RemoveFailed}
    ensures disk.faults >= old(disk.faults)
    ensures disk.faults == old(disk.faults) ==>
              Lookup(disk.files, TimelineFile)
              in {Lookup(old(disk.files), TimelineFile), Some(text.writeTimeline(Record(loaded, id, now)))}
    ensures disk.faults == old(disk.faults) ==>
              && loaded == Loaded(old(disk.files), text)
              && r == (if TempAuth(pid) in old(disk.files) then Err(IoError)
                       else if ProfileAuthF(id) !in old(disk.files) then Ok(())
                       else if !IsObject(old(disk.files)[ProfileAuthF(id)], text) then Err(InvalidAuthJson)
                       else if TempAuthF(pid) in old(disk.files) then Err(IoError)
                       else Ok(()))
  {
    hide Record, Replacing, Replaced, Preparing, TimelineKept, TimelineBegun, AtStage, Agree;
    hide Loaded, ActiveSlot, ProfileSlot;
    ghost var before, from := disk.files, |disk.seen|;
    loaded := Loaded(before, text);
    ghost var body := text.writeTimeline(Record(loaded, id, now));
    var ok;
    ghost var at;
    ok, at := ReplaceFile(disk, TempAuth(pid), ActiveAuth, source);
    forall i, b | from <= i < at ensures AtStage(before, disk.seen[i], id, b, pid, Untouched) {
      FirstFile(before, disk.seen[i], id, b, pid);
    }
    forall i, b | at <= i < |disk.seen| ensures AtStage(before, disk.seen[i], id, b, pid, FirstReplaced) {
      FirstFile(before, disk.seen[i], id, b, pid);
    }
    FirstFile(before, disk.files, id, body, pid);
    marks := Marks(at, |disk.seen|, |disk.seen|);
    UntouchedIsAsBefore(before, disk.files, id, body, pid);
    if !ok {
      return Err(IoError), loaded, marks;
    }
    ghost var renamed, afterRename := disk.files, |disk.seen|;

    var active := disk.Read(ActiveAuth);
    if active != Some(source) {
      return Err(VerifyFailed), loaded, marks;
    }

    SameTimeline(before, renamed, pid, text);
    ghost var begun;
    ok, loaded, begun := RecordPatUsageSwitch(disk, id, now, text);
    body := text.writeTimeline(Record(loaded, id, now));
    forall i | afterRename <= i < |disk.seen|
      ensures AtStage(before, disk.seen[i], id, body, pid, if begun then Recording else FirstReplaced)
    {
      TimelineStage(before, renamed, disk.seen[i], id, body, pid);
    }
    TimelineStage(before, renamed, disk.files, id, body, pid);
    marks := Marks(at, if begun then afterRename else |disk.seen|, |disk.seen|);
    if !ok {
      return Err(IoError), loaded, marks;
    }
    ghost var finished;
    r, finished := SwitchSecondFile(disk, id, pid, text, before, body);
    marks := Marks(at, afterRename, finished);
    ghost var renames := old(disk.renames);
    assert renames + [ActiveAuth] + [ActiveAuthF] == renames + [ActiveAuth, ActiveAuthF];
  }

  lemma UntouchedIsAsBefore(before: Home, now: Home, id: string, body: Bytes, pid: nat)
    ensures AtStage(before, now, id, body, pid, Untouched) ==>
              ActiveSlot(now) == ActiveSlot(before) && Lookup(now, TimelineFile) == Lookup(before, TimelineFile)
  {
  }

  /**
   Whatever fails and wherever it stops: the states pass through the stages in order,
   the profiles are never written, and without the first rename the slot is as it was.
   */
  method SwitchToPatAccount(disk: Disk<Path>, input: string, profiles: set<string>, now: int, pid: nat, text: Text)
    returns (r: Result<(), Error>, ghost loaded: Timeline, ghost marks: Marks)
    requires disk.Valid()
    modifies disk
    ensures disk.Valid() && old(disk.seen) <= disk.seen
    ensures loaded == [] || loaded == Loaded(old(disk.files), text)
    ensures var (id, body) := (Trim(input), text.writeTimeline(Record(loaded, Trim(input), now)));
      && Staged(old(disk.files), disk.seen, |old(disk.seen)|, marks, id, body, pid)
      && (forall i :: |old(disk.seen)| <= i < |disk.seen| ==>
            CrashPoint(old(disk.files), disk.seen[i], id, body, pid))
      && (r.Ok? ==> ActiveSlot(disk.files) == ProfileSlot(old(disk.files), id)
                    && Lookup(disk.files, TimelineFile) == Some(body))
      && (r.Ok? || |disk.seen| > |old(disk.seen)| ==> ProfileAuth(id) in old(disk.files))
    ensures r.Ok? ==> |disk.seen| > |old(disk.seen)|
    // The first rename is the point of no return.
    ensures marks.replaced < |disk.seen| <==> disk.renames != old(disk.renames)
    ensures disk.renames == old(disk.renames) ==>
              && r.Err? && ActiveSlot(disk.files) == ActiveSlot(old(disk.files))
              && Lookup(disk.files, TimelineFile) == Lookup(old(disk.files), TimelineFile)
    ensures disk.renames in {old(disk.renames), old(disk.renames) + [ActiveAuth],
                             old(disk.renames) + [ActiveAuth, ActiveAuthF]}
    ensures r.Err? && r.error in {InvalidAccountName, MainAuthSlot, AccountNotFound, AuthNotFound, CreateDirFailed} ==>
              disk.seen == old(disk.seen)
    ensures disk.faults >= old(disk.faults)
    // Without faults the timeline is never left torn, and was read as it is.
    ensures disk.faults == old(disk.faults) ==>
              Lookup(disk.files, TimelineFile)
              in {Lookup(old(disk.files), TimelineFile), Some(text.writeTimeline(Record(loaded, Trim(input), now)))}
    ensures disk.faults == old(disk.faults) ==>
              r == Expected(old(disk.files), input, profiles, pid, text) && loaded == Loaded(old(disk.files), text)
  {
    hide Record, Replaced, Preparing, TimelineKept, TimelineBegun, AtStage, CrashPoint, Agree, ValidName, Trim;
    ghost var before, from := disk.files, |disk.seen|;
    loaded, marks := Loaded(before, text), Marks(from, from, from);
    var accountId := ValidateProfileId(input);
    if accountId.Err? {
      return Err(accountId.error), loaded, marks;
    }
    var id := accountId.value;
    if id == "main" {
      return Err(MainAuthSlot), loaded, marks;
    }
    if id !in profiles {
      return Err(AccountNotFound), loaded, marks;
    }
    var present := disk.Exists(ProfileAuth(id));
    if !present {
      return Err(AuthNotFound), loaded, marks;
    }
    var ok := disk.Attempt();
    if !ok {
      return Err(CreateDirFailed), loaded, marks;
    }
    var source := disk.Read(ProfileAuth(id));
    if source.None? {
      return Err(ReadFailed), loaded, marks;
    }
    if !IsObject(source.value, text) {
      return Err(InvalidAuthJson), loaded, marks;
    }
    r, loaded, marks := SwitchFiles(disk, id, source.value, now, pid, text);
    StagesAreCrashPoints(before, disk.seen, from, marks, id, text.writeTimeline(Record(loaded, id, now)), pid);
  }

  lemma SameTimeline(before: Home, now: Home, pid: nat, text: Text)
    requires Agree(before, now, {TempAuth(pid), ActiveAuth})
    ensures Loaded(now, text) == Loaded(before, text)
  {
    assert Lookup(now, TimelineFile) == Lookup(before, TimelineFile);
  }

  lemma SameProfile(before: Home, now: Home, id: string, pid: nat)
    requires Agree(before, now, {TempAuth(pid), ActiveAuth, TimelineFile})
    ensures ProfileSlot(now, id) == ProfileSlot(before, id)
    ensures Lookup(now, ProfileAuthF(id)) == Lookup(before, ProfileAuthF(id))
    ensures TempAuthF(pid) in now <==> TempAuthF(pid) in before
  {
    assert Lookup(now, TempAuthF(pid)) == Lookup(before, TempAuthF(pid));
  }
}
