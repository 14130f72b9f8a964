/** Any number of account switches, each of which may fail or be cut short, and who is active afterwards. */
module PatRuns {
  import opened Options
  import opened Json
  import opened Disk
  import opened UsageTimeline
  import opened PatSwitch

  /** One call of the switch: `loaded` is the timeline it managed to read. */
  datatype Attempt = Attempt(id: string, now: int, pid: nat, loaded: Timeline)

  /** Printing then reading a timeline returns it, and no cut-off text reads as one. */
  ghost predicate Reliable(text: Text) {
    && (forall t :: text.readTimeline(text.writeTimeline(t)) == Some(t))
    && (forall t, n: nat :: n < |text.writeTimeline(t)| ==> text.readTimeline(text.writeTimeline(t)[..n]) == None)
  }

  function Body(a: Attempt, text: Text): Bytes {
    text.writeTimeline(Record(a.loaded, a.id, a.now))
  }

  /** `now` is a state a finished, failed or crashed attempt leaves behind. */
  ghost predicate Transition(before: Home, now: Home, a: Attempt, text: Text) {
    && ProfileAuth(a.id) in before
    && (a.loaded == [] || a.loaded == Loaded(before, text))
    && CrashPoint(before, now, a.id, Body(a, text), a.pid)
  }

  ghost predicate IsRun(states: seq<Home>, attempts: seq<Attempt>, text: Text) {
    && |states| == |attempts| + 1
    && TimelineFile !in states[0]
    && (forall k :: 0 <= k < |attempts| ==> Transition(states[k], states[k + 1], attempts[k], text))
    && (forall j, k :: 0 <= j < k < |attempts| ==> attempts[j].now <= attempts[k].now)
  }

  // ----- the timeline over a run -----

  /** What the timeline file reads as after an attempt. */
  lemma LoadedAfter(before: Home, now: Home, a: Attempt, text: Text)
    requires Reliable(text) && Transition(before, now, a, text)
    ensures || Loaded(now, text) == Loaded(before, text)
            || Loaded(now, text) == []
            || Loaded(now, text) == Record(a.loaded, a.id, a.now)
    ensures Loaded(now, text) != Loaded(before, text) && Loaded(now, text) != [] ==>
              Lookup(now, ActiveAuth) == Lookup(before, ProfileAuth(a.id))
  {
    hide Record;
    var body := Body(a, text);
    assert body[..|body|] == body;
    if Lookup(now, TimelineFile) != Lookup(before, TimelineFile) && Lookup(now, TimelineFile) != Some(body) {
      var n: nat :| n <= |body| && Lookup(now, TimelineFile) == Some(body[..n]);
    }
  }

  ghost predicate TimelineUpTo(home: Home, bound: int, text: Text) {
    var events := Loaded(home, text);
    Contiguous(events) && (events != [] ==> events[|events| - 1].startedAt <= bound)
  }

  /** No earlier event is lost: the timeline is the old one, or the old one with this switch recorded. */
  ghost predicate Retains(before: Home, now: Home, a: Attempt, text: Text) {
    || Loaded(now, text) == Loaded(before, text)
    || Loaded(now, text) == Record(Loaded(before, text), a.id, a.now)
  }

  lemma AttemptKeepsTimeline(before: Home, now: Home, a: Attempt, text: Text)
    requires Reliable(text) && Transition(before, now, a, text) && TimelineUpTo(before, a.now, text)
    ensures TimelineUpTo(now, a.now, text)
    ensures Retains(before, now, a, text) || Loaded(now, text) in {[], Record([], a.id, a.now)}
  {
    LoadedAfter(before, now, a, text);
    RecordKeepsContiguous(a.loaded, a.id, a.now);
    hide CloseLastOpen, Transition, Reliable, Loaded;
  }

  /** Through every mixture of successes, failures and crashes the timeline stays gap-free. */
  lemma {:induction false} RunKeepsTimeline(states: seq<Home>, attempts: seq<Attempt>, k: nat, text: Text)
    requires Reliable(text) && IsRun(states, attempts, text) && k < |states|
    ensures Contiguous(Loaded(states[k], text))
    ensures k > 0 ==> TimelineUpTo(states[k], attempts[k - 1].now, text)
  {
    if k > 0 {
      RunKeepsTimeline(states, attempts, k - 1, text);
      assert Transition(states[k - 1], states[(k - 1) + 1], attempts[k - 1], text);
      hide Transition, Reliable, Contiguous;
      if k == 1 {
        NothingLoaded(states[0], attempts[0].now, text);
      } else {
        assert attempts[k - 2].now <= attempts[k - 1].now;
      }
      AttemptKeepsTimeline(states[k - 1], states[k], attempts[k - 1], text);
    }
  }

  lemma NothingLoaded(home: Home, bound: int, text: Text)
    requires TimelineFile !in home
    ensures TimelineUpTo(home, bound, text)
  {
  }

  // ----- which switches the timeline remembers -----

  /** The attempt ended well: the slot is the profile's and the timeline is the new one. */
  ghost predicate Succeeded(before: Home, now: Home, a: Attempt, text: Text) {
    ActiveSlot(now) == ProfileSlot(before, a.id) && Lookup(now, TimelineFile) == Some(Body(a, text))
  }

  /** The switches among the first `k` attempts that reached the timeline. */
  function RecordedIn(states: seq<Home>, attempts: seq<Attempt>, k: nat, text: Text): seq<Switch>
    requires k <= |attempts| < |states|
  {
    if k == 0 then []
    else
      var init, a := RecordedIn(states, attempts, k - 1, text), attempts[k - 1];
      if Loaded(states[k], text) == Loaded(states[k - 1], text) then init else init + [Switch(a.id, a.now)]
  }

  ghost predicate RetainedUpTo(states: seq<Home>, attempts: seq<Attempt>, k: nat, text: Text)
    requires k <= |attempts| < |states|
  {
    forall j :: 0 <= j < k ==> Retains(states[j], states[j + 1], attempts[j], text)
  }

  /** As long as no attempt loses events, the timeline is exactly the switches that reached it. */
  lemma {:induction false} HistoryOfRun(states: seq<Home>, attempts: seq<Attempt>, k: nat, text: Text)
    requires IsRun(states, attempts, text) && k <= |attempts| && RetainedUpTo(states, attempts, k, text)
    ensures Loaded(states[k], text) == Recorded(RecordedIn(states, attempts, k, text))
  {
    hide Loaded, Record, Transition;
    if k == 0 {
      NothingLoaded(states[0], 0, text);
      NoTimeline(states[0], text);
    } else {
      HistoryOfRun(states, attempts, k - 1, text);
      assert Retains(states[k - 1], states[(k - 1) + 1], attempts[k - 1], text);
      var init, a := RecordedIn(states, attempts, k - 1, text), attempts[k - 1];
      assert (init + [Switch(a.id, a.now)])[..|init|] == init;
    }
  }

  lemma NoTimeline(home: Home, text: Text)
    requires TimelineFile !in home
    ensures Loaded(home, text) == []
  {
  }

  /** A success that could read the timeline adds its switch to it. */
  lemma SuccessIsRecorded(before: Home, now: Home, a: Attempt, text: Text)
    requires Reliable(text) && Succeeded(before, now, a, text)
    ensures Loaded(now, text) == Record(a.loaded, a.id, a.now)
    ensures |Loaded(now, text)| == |a.loaded| + 1
  {
    hide CloseLastOpen;
  }

  function SwitchesOf(attempts: seq<Attempt>): (s: seq<Switch>)
    ensures |s| == |attempts|
  {
    seq(|attempts|, i requires 0 <= i < |attempts| => Switch(attempts[i].id, attempts[i].now))
  }

  ghost predicate AllSucceeded(states: seq<Home>, attempts: seq<Attempt>, k: nat, text: Text)
    requires k <= |attempts| < |states|
  {
    forall j :: 0 <= j < k ==>
      Succeeded(states[j], states[j + 1], attempts[j], text) && attempts[j].loaded == Loaded(states[j], text)
  }

  /** After nothing but successes the timeline holds every switch made, in order. */
  lemma {:induction false} SuccessesAreRecorded(states: seq<Home>, attempts: seq<Attempt>, k: nat, text: Text)
    requires Reliable(text) && IsRun(states, attempts, text) && k <= |attempts|
    requires AllSucceeded(states, attempts, k, text)
    ensures Loaded(states[k], text) == Recorded(SwitchesOf(attempts[..k]))
  {
    hide Loaded, Record, Transition, Reliable, Succeeded;
    if k == 0 {
      NoTimeline(states[0], text);
    } else {
      SuccessesAreRecorded(states, attempts, k - 1, text);
      var a := attempts[k - 1];
      assert Succeeded(states[k - 1], states[(k - 1) + 1], a, text);
      SuccessIsRecorded(states[k - 1], states[k], a, text);
      var switches := SwitchesOf(attempts[..k]);
      assert switches[..k - 1] == SwitchesOf(attempts[..k - 1]);
    }
  }

  /**
   After nothing but successes every instant from the first switch on is attributed to
   exactly one account, that of the latest switch made by then, and no instant before.
   */
  lemma EveryInstantAttributed(states: seq<Home>, attempts: seq<Attempt>, k: nat, t: int, text: Text)
    requires Reliable(text) && IsRun(states, attempts, text) && 0 < k <= |attempts|
    requires AllSucceeded(states, attempts, k, text)
    ensures var events := Loaded(states[k], text);
      && |events| == k
      && (forall i :: 0 <= i < k ==>
            && events[i].accountId == attempts[i].id
            && (Covers(events[i], t) <==> attempts[i].now <= t && (i + 1 < k ==> t < attempts[i + 1].now)))
      && (attempts[0].now <= t <==> exists i :: 0 <= i < |events| && Covers(events[i], t))
      && (forall i, j :: 0 <= i < j < |events| ==> !(Covers(events[i], t) && Covers(events[j], t)))
  {
    hide Loaded, Transition, Reliable, Succeeded, Recorded, Covers;
    SuccessesAreRecorded(states, attempts, k, text);
    var switches := SwitchesOf(attempts[..k]);
    AttributedToLatest(switches, t);
    forall i | 0 <= i < k
      ensures switches[i] == Switch(attempts[i].id, attempts[i].now)
    {
      assert attempts[..k][i] == attempts[i];
    }
  }

  /** A text that reads back reliably is never empty. */
  lemma BodyIsNotEmpty(timeline: Timeline, text: Text)
    requires Reliable(text)
    ensures text.writeTimeline(timeline) != []
  {
    var other := if timeline == [] then [Event("", "", "", 0, None)] else [];
    var body, second := text.writeTimeline(timeline), text.writeTimeline(other);
    assert text.readTimeline(body) == Some(timeline) && text.readTimeline(second) == Some(other);
    if body == [] {
      assert 0 < |second|;
      assert second[..0] == [];
    }
  }

  /** Where an attempt can be cut short: the slot is the profile's and the timeline is empty. */
  function Torn(before: Home, a: Attempt): Home
    requires ProfileAuth(a.id) in before
  {
    before[ActiveAuth := before[ProfileAuth(a.id)]][TimelineFile := []]
  }

  lemma TornIsReachable(before: Home, a: Attempt, text: Text)
    requires Reliable(text) && ProfileAuth(a.id) in before && a.loaded in {[], Loaded(before, text)}
    ensures Transition(before, Torn(before, a), a, text) && Loaded(Torn(before, a), text) == []
  {
    var body, now := Body(a, text), Torn(before, a);
    BodyIsNotEmpty(Record(a.loaded, a.id, a.now), text);
    hide Record, Reliable;
    assert body[..0] == [];
    assert Lookup(now, TimelineFile) == Some(body[..0]);
    assert AtStage(before, now, a.id, body, a.pid, Recording);
    assert text.readTimeline([]) == None by {
      NothingReadsAsNone(Record(a.loaded, a.id, a.now), text);
    }
  }

  lemma NothingReadsAsNone(timeline: Timeline, text: Text)
    requires Reliable(text)
    ensures text.readTimeline([]) == None
  {
    BodyIsNotEmpty(timeline, text);
    assert text.writeTimeline(timeline)[..0] == [];
  }

  /**
   The file is rewritten in place, so an attempt that is cut short can lose the events
   recorded before it: exactly when there are any.
   */
  lemma HistoryCanBeLost(before: Home, a: Attempt, text: Text)
    requires Reliable(text) && ProfileAuth(a.id) in before && a.loaded in {[], Loaded(before, text)}
    ensures (exists now :: Transition(before, now, a, text) && !Retains(before, now, a, text))
            <==> Loaded(before, text) != []
  {
    if Loaded(before, text) != [] {
      TornIsReachable(before, a, text);
      assert |Record(Loaded(before, text), a.id, a.now)| > 0;
      assert !Retains(before, Torn(before, a), a, text);
    } else {
      forall now | Transition(before, now, a, text) ensures Retains(before, now, a, text) {
        LoadedAfter(before, now, a, text);
      }
    }
  }

  /** After a loss the next success starts over: its own event is the only one, and nothing before it is attributed. */
  lemma LossStartsOver(before: Home, now: Home, a: Attempt, t: int, text: Text)
    requires Reliable(text) && Transition(before, now, a, text) && Succeeded(before, now, a, text)
    requires Loaded(before, text) == []
    ensures var events := Loaded(now, text);
      |events| == 1 && events[0].accountId == a.id && (Covers(events[0], t) <==> a.now <= t)
  {
    SuccessIsRecorded(before, now, a, text);
  }

  // ----- whose credentials are active -----

  /** The account of the open event owns the bytes in the active slot. */
  ghost predicate OwnerMatches(home: Home, text: Text) {
    var events := Loaded(home, text);
    events != [] ==>
      && Lookup(home, ActiveAuth).Some?
      && Lookup(home, ActiveAuth) == Lookup(home, ProfileAuth(events[|events| - 1].accountId))
  }

  /** The attempt stopped after replacing `auth.json` and before touching the timeline. */
  predicate StoppedInBetween(before: Home, now: Home) {
    && Lookup(now, ActiveAuth) != Lookup(before, ActiveAuth)
    && Lookup(now, TimelineFile) == Lookup(before, TimelineFile)
  }

  /** The one window in which timeline and credentials part company. */
  lemma OwnerAfter(before: Home, now: Home, a: Attempt, text: Text)
    requires Reliable(text) && Transition(before, now, a, text) && OwnerMatches(before, text)
    ensures OwnerMatches(now, text) <==> Loaded(now, text) == [] || !StoppedInBetween(before, now)
  {
    LoadedAfter(before, now, a, text);
    assert forall id :: Lookup(now, ProfileAuth(id)) == Lookup(before, ProfileAuth(id));
    if Loaded(now, text) != [] && !StoppedInBetween(before, now) {
      if Lookup(now, TimelineFile) != Lookup(before, TimelineFile) {
        TimelineIsWritten(before, now, a, text);
      }
    }
  }

  lemma TimelineIsWritten(before: Home, now: Home, a: Attempt, text: Text)
    requires Reliable(text) && Transition(before, now, a, text)
    requires Lookup(now, TimelineFile) != Lookup(before, TimelineFile) && Loaded(now, text) != []
    ensures Loaded(now, text) == Record(a.loaded, a.id, a.now)
    ensures Lookup(now, ActiveAuth) == Lookup(before, ProfileAuth(a.id))
  {
    hide Record;
    var body := Body(a, text);
    assert body[..|body|] == body;
    if Lookup(now, TimelineFile) != Some(body) {
      var n: nat :| n <= |body| && Lookup(now, TimelineFile) == Some(body[..n]);
    }
  }

  /** The state in which an attempt can stop between replacing `auth.json` and writing the timeline. */
  function Interrupted(before: Home, a: Attempt): Home
    requires ProfileAuth(a.id) in before
  {
    before[ActiveAuth := before[ProfileAuth(a.id)]]
  }

  lemma InterruptedIsReachable(before: Home, a: Attempt, text: Text)
    requires ProfileAuth(a.id) in before && a.loaded in {[], Loaded(before, text)}
    ensures Transition(before, Interrupted(before, a), a, text)
    ensures Loaded(Interrupted(before, a), text) == Loaded(before, text)
    ensures Lookup(Interrupted(before, a), ActiveAuth) == Lookup(before, ProfileAuth(a.id))
    ensures forall id :: Lookup(Interrupted(before, a), ProfileAuth(id)) == Lookup(before, ProfileAuth(id))
  {
    assert AtStage(before, Interrupted(before, a), a.id, Body(a, text), a.pid, FirstReplaced);
  }

  /**
   Known before the call: an attempt can leave the open event naming an account that
   does not own the active credentials if and only if there is an open event and the
   profile's `auth.json` differs from the active one.
   */
  lemma OwnerCanBeLost(before: Home, a: Attempt, text: Text)
    requires Reliable(text) && OwnerMatches(before, text)
    requires ProfileAuth(a.id) in before && a.loaded in {[], Loaded(before, text)}
    ensures (exists now :: Transition(before, now, a, text) && !OwnerMatches(now, text))
            <==> Loaded(before, text) != [] && Lookup(before, ActiveAuth) != Lookup(before, ProfileAuth(a.id))
  {
    if Loaded(before, text) != [] && Lookup(before, ActiveAuth) != Lookup(before, ProfileAuth(a.id)) {
      InterruptedIsReachable(before, a, text);
      hide Transition, Loaded;
      assert !OwnerMatches(Interrupted(before, a), text);
    } else {
      forall now | Transition(before, now, a, text) ensures OwnerMatches(now, text) {
        OwnerAfter(before, now, a, text);
        SlotAfter(before, now, a, text);
      }
    }
  }

  lemma SlotAfter(before: Home, now: Home, a: Attempt, text: Text)
    requires Transition(before, now, a, text)
    ensures Lookup(now, ActiveAuth) in {Lookup(before, ActiveAuth), Lookup(before, ProfileAuth(a.id))}
    ensures Lookup(now, TimelineFile) == Lookup(before, TimelineFile) ==> Loaded(now, text) == Loaded(before, text)
  {
  }

  /** Whatever came before, after a success the open event names the account of the attempt, and that owns the slot. */
  lemma SuccessRestoresOwner(before: Home, now: Home, a: Attempt, text: Text)
    requires Reliable(text) && Transition(before, now, a, text) && Succeeded(before, now, a, text)
    ensures OwnerMatches(now, text)
    ensures Loaded(now, text) != [] && Loaded(now, text)[|Loaded(now, text)| - 1].accountId == a.id
  {
    var body := Body(a, text);
    assert body[..|body|] == body;
    assert Loaded(now, text) == Record(a.loaded, a.id, a.now);
    assert Lookup(now, ProfileAuth(a.id)) == Lookup(before, ProfileAuth(a.id));
  }

  /**
   From the start of a run, or from any success in it, as long as no attempt stops in
   that window the open event names the active account.
   */
  lemma {:induction false} RunKeepsOwner(states: seq<Home>, attempts: seq<Attempt>, from: nat, k: nat, text: Text)
    requires Reliable(text) && IsRun(states, attempts, text) && from <= k < |states|
    requires from > 0 ==> Succeeded(states[from - 1], states[from], attempts[from - 1], text)
    requires forall j :: from <= j < k ==> !StoppedInBetween(states[j], states[j + 1])
    ensures OwnerMatches(states[k], text)
  {
    if k > from {
      RunKeepsOwner(states, attempts, from, k - 1, text);
      assert Transition(states[k - 1], states[(k - 1) + 1], attempts[k - 1], text);
      assert !StoppedInBetween(states[k - 1], states[(k - 1) + 1]);
      hide Transition, Reliable, OwnerMatches, StoppedInBetween;
      OwnerAfter(states[k - 1], states[k], attempts[k - 1], text);
    } else if k > 0 {
      assert Transition(states[k - 1], states[(k - 1) + 1], attempts[k - 1], text);
      SuccessRestoresOwner(states[k - 1], states[k], attempts[k - 1], text);
    }
  }

  // ----- runs of the switch itself -----

  datatype Call = Call(input: string, now: int, pid: nat)

  lemma OneMoreAttempt(states: seq<Home>, attempts: seq<Attempt>, now: Home, a: Attempt, text: Text)
    requires IsRun(states, attempts, text) && Transition(states[|attempts|], now, a, text)
    requires forall k :: 0 <= k < |attempts| ==> attempts[k].now <= a.now
    ensures IsRun(states + [now], attempts + [a], text)
  {
    hide Transition;
    var s, t := states + [now], attempts + [a];
    forall k | 0 <= k < |t| ensures Transition(s[k], s[k + 1], t[k], text) {
      if k < |attempts| {
        assert Transition(states[k], states[k + 1], attempts[k], text);
      }
    }
  }

  /** One call, which may die on the way: what is left is one of the states the run theorems speak of. */
  method SwitchOrDie(disk: Disk<Path>, call: Call, profiles: set<string>, text: Text)
    returns (done: bool, died: bool, ghost attempted: bool, ghost a: Attempt)
    requires disk.Valid()
    modifies disk
    ensures disk.Valid()
    ensures a.now == call.now && a.id == Trim(call.input)
    ensures if attempted then Transition(old(disk.files), disk.files, a, text) else disk.files == old(disk.files)
    ensures done ==> attempted && !died && Succeeded(old(disk.files), disk.files, a, text)
    ensures disk.faults >= old(disk.faults)
    ensures disk.faults == old(disk.faults) ==> a.loaded == Loaded(old(disk.files), text)
    ensures attempted && !died && disk.faults == old(disk.faults) && Reliable(text) ==>
              Retains(old(disk.files), disk.files, a, text)
  {
    hide CrashPoint, Staged;
    var from := |disk.seen|;
    ghost var before := disk.files;
    var r;
    ghost var loaded, marks;
    r, loaded, marks := SwitchToPatAccount(disk, call.input, profiles, call.now, call.pid, text);
    a := Attempt(Trim(call.input), call.now, call.pid, loaded);
    attempted, done, died := |disk.seen| > from, r.Ok?, false;
    if attempted && disk.faults == old(disk.faults) && Reliable(text) {
      UntornRetains(before, disk.files, a, text);
    }
    if |disk.seen| > from {
      assert CrashPoint(before, disk.seen[|disk.seen| - 1], a.id, Body(a, text), call.pid);
      died := *;
      if died {
        disk.Crash(from);
        done := false;
      }
    }
  }

  lemma UntornRetains(before: Home, now: Home, a: Attempt, text: Text)
    requires Reliable(text) && a.loaded == Loaded(before, text)
    requires Lookup(now, TimelineFile) in {Lookup(before, TimelineFile), Some(Body(a, text))}
    ensures Retains(before, now, a, text)
  {
  }

  function SwitchesCalled(calls: seq<Call>): (s: seq<Switch>)
    ensures |s| == |calls|
  {
    seq(|calls|, i requires 0 <= i < |calls| => Switch(Trim(calls[i].input), calls[i].now))
  }

  lemma OneMoreRetained(states: seq<Home>, attempts: seq<Attempt>, now: Home, a: Attempt, text: Text)
    requires |states| == |attempts| + 1 && RetainedUpTo(states, attempts, |attempts|, text)
    requires Retains(states[|attempts|], now, a, text)
    ensures RetainedUpTo(states + [now], attempts + [a], |attempts| + 1, text)
  {
    hide Retains;
    var s, t := states + [now], attempts + [a];
    forall j | 0 <= j < |t| ensures Retains(s[j], s[j + 1], t[j], text) {
      if j < |attempts| {
        assert Retains(states[j], states[j + 1], attempts[j], text);
      }
    }
  }

  /** Every call so far succeeded, and its switch is the attempt with its number. */
  ghost predicate AllDone(states: seq<Home>, attempts: seq<Attempt>, calls: seq<Call>, text: Text) {
    && |states| == |attempts| + 1 == |calls| + 1
    && AllSucceeded(states, attempts, |attempts|, text)
    && SwitchesOf(attempts) == SwitchesCalled(calls)
  }

  lemma OneMoreDone(states: seq<Home>, attempts: seq<Attempt>, calls: seq<Call>, now: Home, a: Attempt, call: Call,
                    text: Text)
    requires AllDone(states, attempts, calls, text)
    requires Succeeded(states[|attempts|], now, a, text) && a.loaded == Loaded(states[|attempts|], text)
    requires a.id == Trim(call.input) && a.now == call.now
    ensures AllDone(states + [now], attempts + [a], calls + [call], text)
  {
    hide Succeeded, Loaded, Trim;
    var s, t := states + [now], attempts + [a];
    forall j | 0 <= j < |t| ensures Succeeded(s[j], s[j + 1], t[j], text) && t[j].loaded == Loaded(s[j], text) {
      if j < |attempts| {
        assert Succeeded(states[j], states[j + 1], attempts[j], text);
      }
    }
    assert SwitchesOf(t) == SwitchesOf(attempts) + [Switch(a.id, a.now)];
    assert SwitchesCalled(calls + [call]) == SwitchesCalled(calls) + [Switch(Trim(call.input), call.now)];
  }

  ghost predicate LastSucceeded(states: seq<Home>, attempts: seq<Attempt>, id: string, text: Text) {
    && |states| == |attempts| + 1 && attempts != [] && attempts[|attempts| - 1].id == id
    && Succeeded(states[|attempts| - 1], states[|attempts|], attempts[|attempts| - 1], text)
  }

  lemma LastSuccessOwns(states: seq<Home>, attempts: seq<Attempt>, id: string, text: Text)
    requires Reliable(text) && IsRun(states, attempts, text) && LastSucceeded(states, attempts, id, text)
    ensures var events := Loaded(states[|attempts|], text); events != [] && events[|events| - 1].accountId == id
    ensures OwnerMatches(states[|attempts|], text)
  {
    hide Succeeded, OwnerMatches, Reliable, Loaded;
    var n := |attempts| - 1;
    assert Transition(states[n], states[n + 1], attempts[n], text);
    SuccessRestoresOwner(states[n], states[n + 1], attempts[n], text);
  }

  lemma NothingYet(states: seq<Home>, text: Text)
    requires |states| == 1 && TimelineFile !in states[0]
    ensures IsRun(states, [], text) && AllDone(states, [], [], text) && RetainedUpTo(states, [], 0, text)
  {
  }

  lemma AllDoneIsRecorded(states: seq<Home>, attempts: seq<Attempt>, calls: seq<Call>, text: Text)
    requires Reliable(text) && IsRun(states, attempts, text) && AllDone(states, attempts, calls, text)
    ensures Loaded(states[|attempts|], text) == Recorded(SwitchesCalled(calls))
  {
    hide Reliable, IsRun, Loaded, Recorded, AllSucceeded;
    SuccessesAreRecorded(states, attempts, |attempts|, text);
    assert attempts[..|attempts|] == attempts;
  }

  /**
   Any series of calls, each of which may fail or die anywhere, is a run in the sense
   of the theorems above. So the timeline has no gap; if the last call was a success
   its account owns the active credentials; without deaths and faults the timeline is
   exactly the switches that reached it; and if all calls succeed, all the switches made.
   */
  method SwitchRepeatedly(disk: Disk<Path>, calls: seq<Call>, profiles: set<string>, text: Text)
    returns (done: bool, successes: nat, deaths: nat, ghost states: seq<Home>, ghost attempts: seq<Attempt>)
    requires disk.Valid() && TimelineFile !in disk.files
    requires forall j, k :: 0 <= j < k < |calls| ==> calls[j].now <= calls[k].now
    modifies disk
    ensures disk.Valid() && IsRun(states, attempts, text)
    ensures states[0] == old(disk.files) && states[|attempts|] == disk.files
    ensures successes + deaths <= |calls| && (done ==> successes > 0)
    ensures Reliable(text) ==> Contiguous(Loaded(disk.files, text))
    ensures Reliable(text) && done ==>
              var events := Loaded(disk.files, text);
              && calls != [] && events != [] && events[|events| - 1].accountId == Trim(calls[|calls| - 1].input)
              && OwnerMatches(disk.files, text)
    ensures Reliable(text) && deaths == 0 && disk.faults == old(disk.faults) ==>
              Loaded(disk.files, text) == Recorded(RecordedIn(states, attempts, |attempts|, text))
    ensures Reliable(text) && successes == |calls| && disk.faults == old(disk.faults) ==>
              Loaded(disk.files, text) == Recorded(SwitchesCalled(calls))
  {
    hide IsRun, Transition, OwnerMatches, Retains, RetainedUpTo, AllDone, Trim, Reliable, Contiguous, Loaded, Recorded;
    hide RecordedIn, Succeeded;
    done, successes, deaths := false, 0, 0;
    states, attempts := [disk.files], [];
    NothingYet(states, text);
    for i := 0 to |calls|
      invariant disk.Valid() && IsRun(states, attempts, text) && |states| == |attempts| + 1
      invariant states[0] == old(disk.files) && states[|attempts|] == disk.files
      invariant forall k :: 0 <= k < |attempts| ==> exists j :: 0 <= j < i && attempts[k].now == calls[j].now
      invariant successes + deaths <= i && (done ==> successes > 0)
      invariant disk.faults >= old(disk.faults)
      invariant done ==>
                  i > 0 && LastSucceeded(states, attempts, Trim(calls[i - 1].input), text)
      invariant Reliable(text) && deaths == 0 && disk.faults == old(disk.faults) ==>
                  RetainedUpTo(states, attempts, |attempts|, text)
      invariant successes == i && disk.faults == old(disk.faults) ==> AllDone(states, attempts, calls[..i], text)
    {
      ghost var attempted, a;
      var died;
      done, died, attempted, a := SwitchOrDie(disk, calls[i], profiles, text);
      successes := successes + if done then 1 else 0;
      deaths := deaths + if died then 1 else 0;
      if attempted {
        OneMoreAttempt(states, attempts, disk.files, a, text);
        if Reliable(text) && deaths == 0 && disk.faults == old(disk.faults) {
          OneMoreRetained(states, attempts, disk.files, a, text);
        }
        if successes == i + 1 && disk.faults == old(disk.faults) {
          OneMoreDone(states, attempts, calls[..i], disk.files, a, calls[i], text);
        }
        assert calls[..i + 1] == calls[..i] + [calls[i]];
        states, attempts := states + [disk.files], attempts + [a];
      }
    }
    assert calls[..|calls|] == calls;
    if Reliable(text) {
      RunKeepsTimeline(states, attempts, |attempts|, text);
      if done {
        LastSuccessOwns(states, attempts, Trim(calls[|calls| - 1].input), text);
      }
      if deaths == 0 && disk.faults == old(disk.faults) {
        HistoryOfRun(states, attempts, |attempts|, text);
      }
      if successes == |calls| && disk.faults == old(disk.faults) {
        AllDoneIsRecorded(states, attempts, calls, text);
      }
    }
  }

  // ----- marking the active account -----

  datatype Account = Account(id: string, isActiveAuth: bool)

  function AuthPath(id: string): Path {
    if id == "main" then ActiveAuth else ProfileAuth(id)
  }

  /** The last four characters of the account id inside an auth file. */
  function AuthAccountIdSuffix(home: Home, path: Path, text: Text): Option<string> {
    if path !in home then None
    else
      var auth := text.parse(home[path]);
      if auth.None? then None
      else
        var id := AsStr(GetOpt(Get(auth.value, "tokens"), "account_id"));
        if id.None? || |id.value| < 4 then None else Some(id.value[|id.value| - 4..])
  }

  /** Compared by suffix when the active file has one, by content otherwise. */
  predicate Matches(home: Home, account: Account, text: Text) {
    && account.id != "main"
    && var suffix := AuthAccountIdSuffix(home, ActiveAuth, text);
    if suffix.Some? then AuthAccountIdSuffix(home, AuthPath(account.id), text) == suffix
    else ActiveAuth in home && Lookup(home, AuthPath(account.id)) == Lookup(home, ActiveAuth)
  }

  function MatchingIndices(home: Home, accounts: seq<Account>, text: Text): (r: seq<nat>)
    ensures forall k :: 0 <= k < |r| ==> r[k] < |accounts|
  {
    if accounts == [] then []
    else
      var init := MatchingIndices(home, accounts[..|accounts| - 1], text);
      if Matches(home, accounts[|accounts| - 1], text) then init + [|accounts| - 1] else init
  }

  function Marked(home: Home, accounts: seq<Account>, text: Text): seq<Account> {
    var matches := MatchingIndices(home, accounts, text);
    if |matches| == 1 then accounts[matches[0] := accounts[matches[0]].(isActiveAuth := true)] else accounts
  }

  lemma {:induction false} MatchingIndicesExact(home: Home, accounts: seq<Account>, text: Text)
    ensures forall i :: i in MatchingIndices(home, accounts, text) <==>
                        0 <= i < |accounts| && Matches(home, accounts[i], text)
    ensures forall j, k :: 0 <= j < k < |MatchingIndices(home, accounts, text)| ==>
              MatchingIndices(home, accounts, text)[j] < MatchingIndices(home, accounts, text)[k]
  {
    hide Matches;
    if accounts != [] {
      var init := accounts[..|accounts| - 1];
      MatchingIndicesExact(home, init, text);
      forall k | 0 <= k < |MatchingIndices(home, init, text)|
        ensures MatchingIndices(home, init, text)[k] < |accounts| - 1
      {
      }
    }
  }

  /** An increasing list holds one number only, or two different ones. */
  lemma OnlyElement(matches: seq<nat>, i: nat)
    requires forall j, k :: 0 <= j < k < |matches| ==> matches[j] < matches[k]
    ensures |matches| == 1 && matches[0] == i <==> i in matches && forall j :: j in matches ==> j == i
  {
    if i in matches && forall j :: j in matches ==> j == i {
      assert forall l :: 0 <= l < |matches| ==> matches[l] in matches;
      assert |matches| >= 2 ==> matches[0] == matches[1];
    }
  }

  /** An account is flagged if and only if it is the only one that matches. */
  lemma FlaggedIffOnlyMatch(home: Home, accounts: seq<Account>, i: nat, text: Text)
    requires i < |accounts| && !accounts[i].isActiveAuth
    ensures |Marked(home, accounts, text)| == |accounts|
    ensures Marked(home, accounts, text)[i].isActiveAuth <==>
            && Matches(home, accounts[i], text)
            && forall j :: 0 <= j < |accounts| && Matches(home, accounts[j], text) ==> j == i
  {
    hide Matches, MatchingIndices;
    var matches := MatchingIndices(home, accounts, text);
    MatchingIndicesExact(home, accounts, text);
    OnlyElement(matches, i);
    assert (forall j :: j in matches ==> j == i)
           <==> forall j :: 0 <= j < |accounts| && Matches(home, accounts[j], text) ==> j == i;
  }

  /** The file is JSON with a text of at least four characters at `tokens.account_id`. */
  ghost predicate TokensAccount(home: Home, path: Path, text: Text, id: string) {
    && |id| >= 4 && path in home
    && var auth := text.parse(home[path]);
    && auth.Some? && auth.value.Obj? && "tokens" in auth.value.fields
    && var tokens := auth.value.fields["tokens"];
    && tokens.Obj? && "account_id" in tokens.fields && tokens.fields["account_id"] == Str(id)
  }

  /**
   A profile looks like the active one: if the active file has such an account id, by
   the last four characters of the ids, whatever else the files hold; otherwise by bytes.
   */
  ghost predicate LooksActive(home: Home, id: string, text: Text) {
    && id != "main"
    && if exists active :: TokensAccount(home, ActiveAuth, text, active)
       then exists active, own ::
              && TokensAccount(home, ActiveAuth, text, active) && TokensAccount(home, ProfileAuth(id), text, own)
              && own[|own| - 4..] == active[|active| - 4..]
       else ActiveAuth in home && ProfileAuth(id) in home && home[ProfileAuth(id)] == home[ActiveAuth]
  }

  lemma SuffixOfTokensAccount(home: Home, path: Path, text: Text)
    ensures forall id :: TokensAccount(home, path, text, id) ==>
              AuthAccountIdSuffix(home, path, text) == Some(id[|id| - 4..])
    ensures AuthAccountIdSuffix(home, path, text).Some? ==>
              exists id :: TokensAccount(home, path, text, id)
  {
    if AuthAccountIdSuffix(home, path, text).Some? {
      var id := AsStr(GetOpt(Get(text.parse(home[path]).value, "tokens"), "account_id")).value;
      assert TokensAccount(home, path, text, id);
    }
  }

  lemma MatchesIffLooksActive(home: Home, account: Account, text: Text)
    ensures Matches(home, account, text) <==> LooksActive(home, account.id, text)
  {
    hide TokensAccount, AuthAccountIdSuffix;
    SuffixOfTokensAccount(home, ActiveAuth, text);
    SuffixOfTokensAccount(home, ProfileAuth(account.id), text);
    if account.id != "main" && AuthAccountIdSuffix(home, ActiveAuth, text).Some? {
      var active :| TokensAccount(home, ActiveAuth, text, active);
      if Matches(home, account, text) {
        var own :| TokensAccount(home, ProfileAuth(account.id), text, own);
        assert own[|own| - 4..] == active[|active| - 4..] by {
          LongEnough(home, ActiveAuth, text, active);
          LongEnough(home, ProfileAuth(account.id), text, own);
        }
      }
    }
  }

  lemma LongEnough(home: Home, path: Path, text: Text, id: string)
    ensures TokensAccount(home, path, text, id) ==> |id| >= 4
  {
  }

  /** On the parsed files: an account is flagged iff it alone looks like the active one. */
  lemma FlaggedIffLooksActive(home: Home, accounts: seq<Account>, i: nat, text: Text)
    requires i < |accounts| && !accounts[i].isActiveAuth
    ensures |Marked(home, accounts, text)| == |accounts|
    ensures Marked(home, accounts, text)[i].isActiveAuth <==>
            && LooksActive(home, accounts[i].id, text)
            && forall j :: 0 <= j < |accounts| && LooksActive(home, accounts[j].id, text) ==> j == i
  {
    hide Matches, LooksActive, Marked;
    FlaggedIffOnlyMatch(home, accounts, i, text);
    forall j | 0 <= j < |accounts|
      ensures Matches(home, accounts[j], text) <==> LooksActive(home, accounts[j].id, text)
    {
      MatchesIffLooksActive(home, accounts[j], text);
    }
  }

  method MarkActiveAuthAccount(home: Home, accounts: array<Account>, text: Text)
    modifies accounts
    ensures accounts[..] == Marked(home, old(accounts[..]), text)
    ensures forall i :: 0 <= i < accounts.Length ==> accounts[i].id == old(accounts[i].id)
    ensures forall i :: 0 <= i < accounts.Length && !old(accounts[i].isActiveAuth) ==>
              (accounts[i].isActiveAuth <==>
                 && LooksActive(home, accounts[i].id, text)
                 && forall j :: 0 <= j < accounts.Length && LooksActive(home, accounts[j].id, text) ==> j == i)
  {
    hide Matches, LooksActive;
    ghost var before := accounts[..];
    forall i | 0 <= i < |before| && !before[i].isActiveAuth
      ensures |Marked(home, before, text)| == |before|
      ensures Marked(home, before, text)[i].isActiveAuth <==>
              && LooksActive(home, before[i].id, text)
              && forall j :: 0 <= j < |before| && LooksActive(home, before[j].id, text) ==> j == i
    {
      FlaggedIffLooksActive(home, before, i, text);
    }
    var matches: seq<nat> := [];
    for index := 0 to accounts.Length
      invariant accounts[..] == old(accounts[..])
      invariant matches == MatchingIndices(home, accounts[..index], text)
    {
      if Matches(home, accounts[index], text) {
        matches := matches + [index];
      }
      assert accounts[..index + 1][..index] == accounts[..index];
    }
    assert accounts[..accounts.Length] == accounts[..];
    if |matches| == 1 {
      accounts[matches[0]] := accounts[matches[0]].(isActiveAuth := true);
    }
  }

  /** Two profiles the marking cannot tell apart. */
  predicate Rivals(home: Home, a: string, b: string, text: Text) {
    var suffix := AuthAccountIdSuffix(home, ProfileAuth(a), text);
    if suffix.Some? then AuthAccountIdSuffix(home, ProfileAuth(b), text) == suffix
    else Lookup(home, ProfileAuth(a)) == Lookup(home, ProfileAuth(b))
  }

  lemma MatchesActive(home: Home, a: Account, b: Account, text: Text)
    requires a.id != "main" && Lookup(home, ActiveAuth).Some?
    requires Lookup(home, ActiveAuth) == Lookup(home, ProfileAuth(a.id))
    ensures Matches(home, a, text)
    ensures Matches(home, b, text) <==> b.id != "main" && Rivals(home, a.id, b.id, text)
  {
    assert AuthAccountIdSuffix(home, ActiveAuth, text) == AuthAccountIdSuffix(home, ProfileAuth(a.id), text);
  }

  /**
   When the open event owns the active credentials, its account is flagged exactly if no
   other profile is indistinguishable from it; and nothing else is flagged in any case.
   */
  lemma OpenEventIsFlagged(home: Home, accounts: seq<Account>, i: nat, text: Text)
    requires OwnerMatches(home, text) && Loaded(home, text) != []
    requires i < |accounts| && accounts[i].id == Loaded(home, text)[|Loaded(home, text)| - 1].accountId
    requires accounts[i].id != "main" && forall j :: 0 <= j < |accounts| ==> !accounts[j].isActiveAuth
    ensures var after := Marked(home, accounts, text);
      && |after| == |accounts|
      && (after[i].isActiveAuth <==>
            forall j :: 0 <= j < |accounts| && j != i && accounts[j].id != "main" ==>
              !Rivals(home, accounts[i].id, accounts[j].id, text))
      && (forall j :: 0 <= j < |accounts| && j != i ==> !after[j].isActiveAuth)
  {
    hide Matches, Rivals, Marked;
    forall j | 0 <= j < |accounts|
      ensures Matches(home, accounts[j], text)
              <==> accounts[j].id != "main" && Rivals(home, accounts[i].id, accounts[j].id, text)
    {
      MatchesActive(home, accounts[i], accounts[j], text);
    }
    MatchesActive(home, accounts[i], accounts[i], text);
    forall j | 0 <= j < |accounts|
      ensures |Marked(home, accounts, text)| == |accounts|
      ensures Marked(home, accounts, text)[j].isActiveAuth <==>
              && Matches(home, accounts[j], text)
              && forall l :: 0 <= l < |accounts| && Matches(home, accounts[l], text) ==> l == j
    {
      FlaggedIffOnlyMatch(home, accounts, j, text);
    }
  }

  /** In no state is the main account flagged, nor are two. */
  lemma AtMostOneFlagged(home: Home, accounts: seq<Account>, i: nat, j: nat, text: Text)
    requires i < |accounts| && j < |accounts|
    requires forall k :: 0 <= k < |accounts| ==> !accounts[k].isActiveAuth
    ensures var after := Marked(home, accounts, text);
      && |after| == |accounts|
      && (after[i].isActiveAuth ==> after[i].id != "main")
      && (after[i].isActiveAuth && after[j].isActiveAuth ==> i == j)
  {
    FlaggedIffOnlyMatch(home, accounts, i, text);
    FlaggedIffOnlyMatch(home, accounts, j, text);
    hide AuthAccountIdSuffix;
  }
}
