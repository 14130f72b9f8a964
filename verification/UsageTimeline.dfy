/** The timeline of which account was active when, as the account switch maintains it. */
module UsageTimeline {
  import opened Options

  /** Instants stand for RFC 3339 timestamps. */
  datatype Event = Event(
    accountId: string, accountLabel: string, workspaceId: string, startedAt: int, endedAt: Option<int>)

  type Timeline = seq<Event>

  function AccountLabel(id: string): string {
    if id == "main" then "main" else "codex-" + id
  }

  /** The latest event still open is closed; older open ones are left alone. */
  function CloseLastOpen(events: Timeline, now: int): (r: Timeline)
    ensures |r| == |events|
  {
    if events == [] then []
    else
      var init, last := events[..|events| - 1], events[|events| - 1];
      if last.endedAt.None? then init + [last.(endedAt := Some(now))] else CloseLastOpen(init, now) + [last]
  }

  function Record(events: Timeline, accountId: string, now: int): Timeline {
    CloseLastOpen(events, now) + [Event(accountId, AccountLabel(accountId), "workspace:main", now, None)]
  }

  /** Each event ends where the next one starts, in time order, and only the last is open. */
  predicate Contiguous(events: Timeline) {
    && (forall i :: 0 <= i < |events| - 1 ==>
          events[i].endedAt == Some(events[i + 1].startedAt) && events[i].startedAt <= events[i + 1].startedAt)
    && (events != [] ==> events[|events| - 1].endedAt.None?)
  }

  lemma RecordKeepsContiguous(events: Timeline, accountId: string, now: int)
    requires Contiguous(events) && (events != [] ==> events[|events| - 1].startedAt <= now)
    ensures Contiguous(Record(events, accountId, now))
    ensures |Record(events, accountId, now)| == |events| + 1
    ensures forall i :: 0 <= i < |events| ==>
      Record(events, accountId, now)[i]
      == if i == |events| - 1 then events[i].(endedAt := Some(now)) else events[i]
  {
  }

  predicate Covers(e: Event, t: int) {
    e.startedAt <= t && (e.endedAt.Some? ==> t < e.endedAt.value)
  }

  lemma {:induction false} StartsAscend(events: Timeline, i: nat, j: nat)
    requires Contiguous(events) && i <= j < |events|
    ensures events[i].startedAt <= events[j].startedAt
  {
    if i < j {
      StartsAscend(events, i, j - 1);
      assert events[j - 1].startedAt <= events[(j - 1) + 1].startedAt;
    }
  }

  lemma {:induction false} SomeEventCovers(events: Timeline, t: int, n: nat)
    requires Contiguous(events) && 0 < n <= |events| && events[0].startedAt <= t
    requires n < |events| ==> t < events[n].startedAt
    ensures exists i :: 0 <= i < n && Covers(events[i], t)
  {
    if events[n - 1].startedAt <= t {
      assert n < |events| ==> events[n - 1].endedAt == Some(events[(n - 1) + 1].startedAt);
      assert Covers(events[n - 1], t);
    } else {
      SomeEventCovers(events, t, n - 1);
    }
  }

  /** From the first switch on, every instant belongs to exactly one event. */
  lemma ExactlyOneOwner(events: Timeline, t: int)
    requires Contiguous(events) && events != []
    ensures events[0].startedAt <= t <==> exists i :: 0 <= i < |events| && Covers(events[i], t)
    ensures forall i, j :: 0 <= i < j < |events| ==> !(Covers(events[i], t) && Covers(events[j], t))
  {
    if events[0].startedAt <= t {
      SomeEventCovers(events, t, |events|);
    }
    forall i | 0 <= i < |events| ensures Covers(events[i], t) ==> events[0].startedAt <= t {
      StartsAscend(events, 0, i);
    }
    forall i, j | 0 <= i < j < |events| ensures !(Covers(events[i], t) && Covers(events[j], t)) {
      StartsAscend(events, i + 1, j);
      assert events[i].endedAt == Some(events[i + 1].startedAt);
    }
  }

  // ----- clocks that go back -----

  /** What recording keeps whatever the clock says: each event ends where the next one starts, only the last is open. */
  predicate Linked(events: Timeline) {
    && (forall i :: 0 <= i < |events| - 1 ==> events[i].endedAt == Some(events[i + 1].startedAt))
    && (events != [] ==> events[|events| - 1].endedAt.None?)
  }

  /** No instant lies in two events. */
  ghost predicate SingleOwner(events: Timeline) {
    forall i, j, t :: 0 <= i < j < |events| ==> !(Covers(events[i], t) && Covers(events[j], t))
  }

  /**
   The clock reading does no harm: it is not before the last switch, or at least not
   before the end of any earlier stretch of time that an account was active.
   */
  predicate Harmless(events: Timeline, now: int) {
    events != [] && now < events[|events| - 1].startedAt ==>
      forall i :: 0 <= i < |events| - 1 && events[i].startedAt < events[i + 1].startedAt ==>
        events[i + 1].startedAt <= now
  }

  ghost predicate Extends(events: Timeline, r: Timeline, now: int) {
    && |r| == |events| + 1
    && r[|events|].startedAt == now && r[|events|].endedAt.None?
    && (forall i :: 0 <= i < |events| - 1 ==> r[i] == events[i])
    && (events != [] ==> r[|events| - 1] == events[|events| - 1].(endedAt := Some(now)))
  }

  /**
   What recording does to any timeline, however it came about: of the events still open
   only the latest is closed, and one event of the account is added behind.
   */
  lemma {:induction false} ClosesLatestOpen(events: Timeline, accountId: string, now: int, i: nat)
    requires i < |events|
    ensures var r := Record(events, accountId, now);
      && |r| == |events| + 1
      && r[i] == (if events[i].endedAt == None && forall j :: i < j < |events| ==> events[j].endedAt != None
                  then events[i].(endedAt := Some(now)) else events[i])
      && r[|events|].accountId == accountId && r[|events|].startedAt == now && r[|events|].endedAt == None
      && r[|events|].workspaceId == "workspace:main"
  {
    if i < |events| - 1 && events[|events| - 1].endedAt.Some? {
      ClosesLatestOpen(events[..|events| - 1], accountId, now, i);
    }
  }

  lemma RecordedEvents(events: Timeline, accountId: string, now: int)
    requires Linked(events)
    ensures Linked(Record(events, accountId, now)) && Extends(events, Record(events, accountId, now), now)
  {
  }

  /** A switch keeps the ownership of every instant unique if and only if it was unique and the clock did no harm. */
  lemma SingleOwnerAfter(events: Timeline, accountId: string, now: int)
    requires Linked(events)
    ensures SingleOwner(Record(events, accountId, now)) <==> SingleOwner(events) && Harmless(events, now)
  {
    hide Record;
    var r := Record(events, accountId, now);
    RecordedEvents(events, accountId, now);
    if SingleOwner(events) && Harmless(events, now) {
      UniqueStays(events, r, now);
    }
    if !SingleOwner(events) {
      var i, j, t :| 0 <= i < j < |events| && Covers(events[i], t) && Covers(events[j], t);
      OverlapStays(events, r, now, i, j, t);
    } else if !Harmless(events, now) {
      var i :| 0 <= i < |events| - 1 && events[i].startedAt < events[i + 1].startedAt && now < events[i + 1].startedAt;
      var t := if now < events[i].startedAt then events[i].startedAt else now;
      assert Covers(r[i], t) && Covers(r[|events|], t);
    }
  }

  lemma UniqueStays(events: Timeline, r: Timeline, now: int)
    requires Linked(events) && Extends(events, r, now) && SingleOwner(events) && Harmless(events, now)
    ensures SingleOwner(r)
  {
    forall i, j, t | 0 <= i < j < |r| ensures !(Covers(r[i], t) && Covers(r[j], t)) {
      if j < |events| {
        assert !(Covers(events[i], t) && Covers(events[j], t));
      } else if i < |events| - 1 {
        assert events[i].endedAt == Some(events[i + 1].startedAt);
        assert !(Covers(events[i], t) && Covers(events[|events| - 1], t));
      }
    }
  }

  /**
   An overlap outlives every later switch: an open event that is cut short is replaced
   by one that reaches back as far.
   */
  lemma OverlapStays(events: Timeline, r: Timeline, now: int, i: nat, j: nat, t: int)
    requires Linked(events) && Extends(events, r, now)
    requires i < j < |events| && Covers(events[i], t) && Covers(events[j], t)
    ensures !SingleOwner(r)
  {
    if j < |events| - 1 || t < now {
      assert Covers(r[i], t) && Covers(r[j], t);
    } else {
      assert Covers(r[i], t) && Covers(r[|events|], t);
    }
  }

  datatype Switch = Switch(accountId: string, now: int)

  function Recorded(switches: seq<Switch>): Timeline {
    if switches == [] then []
    else
      var last := switches[|switches| - 1];
      Record(Recorded(switches[..|switches| - 1]), last.accountId, last.now)
  }

  /** One event per switch: it starts with the switch, names its account, and ends with the next switch. */
  lemma {:induction false} RecordedOneByOne(switches: seq<Switch>)
    ensures var events := Recorded(switches);
      && |events| == |switches|
      && forall i :: 0 <= i < |events| ==>
           && events[i].accountId == switches[i].accountId && events[i].startedAt == switches[i].now
           && events[i].endedAt == if i + 1 < |switches| then Some(switches[i + 1].now) else None
  {
    if switches != [] {
      var init, last := switches[..|switches| - 1], switches[|switches| - 1];
      RecordedOneByOne(init);
      RunStaysLinked(init);
      RecordedEvents(Recorded(init), last.accountId, last.now);
      hide CloseLastOpen;
    }
  }

  /** How the events are labelled. */
  lemma {:induction false} RecordedLabels(switches: seq<Switch>, i: nat)
    requires i < |switches|
    ensures var events := Recorded(switches);
      && |events| == |switches| && events[i].workspaceId == "workspace:main"
      && events[i].accountLabel
         == if switches[i].accountId == "main" then "main" else "codex-" + switches[i].accountId
  {
    var init, last := switches[..|switches| - 1], switches[|switches| - 1];
    if i < |init| {
      RecordedLabels(init, i);
      RecordedOneByOne(init);
      RunStaysLinked(init);
      RecordedEvents(Recorded(init), last.accountId, last.now);
      hide CloseLastOpen;
    } else {
      RecordedOneByOne(init);
      hide CloseLastOpen;
    }
  }

  lemma {:induction false} RunStaysLinked(switches: seq<Switch>)
    ensures Linked(Recorded(switches))
  {
    if switches != [] {
      var init, last := switches[..|switches| - 1], switches[|switches| - 1];
      RunStaysLinked(init);
      RecordedEvents(Recorded(init), last.accountId, last.now);
    }
  }

  predicate InTimeOrder(switches: seq<Switch>) {
    forall i, j :: 0 <= i < j < |switches| ==> switches[i].now <= switches[j].now
  }

  /**
   Of switches made in time order, every instant from the first one on is attributed to
   exactly one event, that of the latest switch made by then, and no instant before.
   */
  lemma AttributedToLatest(switches: seq<Switch>, t: int)
    requires switches != [] && InTimeOrder(switches)
    ensures var events := Recorded(switches);
      && |events| == |switches|
      && (forall i :: 0 <= i < |events| ==>
            && events[i].accountId == switches[i].accountId
            && (Covers(events[i], t) <==>
                  switches[i].now <= t && (i + 1 < |switches| ==> t < switches[i + 1].now)))
      && (switches[0].now <= t <==> exists i :: 0 <= i < |events| && Covers(events[i], t))
      && (forall i, j :: 0 <= i < j < |events| ==> !(Covers(events[i], t) && Covers(events[j], t)))
  {
    hide Recorded;
    RecordedOneByOne(switches);
    var events := Recorded(switches);
    forall i | 0 <= i < |events| - 1
      ensures events[i].endedAt == Some(events[i + 1].startedAt) && events[i].startedAt <= events[i + 1].startedAt
    {
      assert switches[i].now <= switches[i + 1].now;
    }
    RunStaysLinked(switches);
    ExactlyOneOwner(events, t);
  }

  predicate AllHarmless(switches: seq<Switch>) {
    forall k :: 0 <= k < |switches| ==> Harmless(Recorded(switches[..k]), switches[k].now)
  }

  lemma OneMoreSwitch(switches: seq<Switch>, last: Switch)
    ensures AllHarmless(switches + [last]) <==> AllHarmless(switches) && Harmless(Recorded(switches), last.now)
  {
    hide Recorded, Harmless;
    var more := switches + [last];
    assert more[..|switches|] == switches;
    forall k | 0 <= k < |switches| ensures more[..k] == switches[..k] && more[k] == switches[k] {
    }
  }

  /**
   For every run of switches and every clock: no instant has two owners iff every
   reading was harmless when it was taken.
   */
  lemma {:induction false} SingleOwnerIff(switches: seq<Switch>)
    ensures SingleOwner(Recorded(switches)) <==> AllHarmless(switches)
  {
    hide Record, Harmless, SingleOwner;
    if switches == [] {
      NoEvents();
    } else {
      hide AllHarmless;
      var init, last := switches[..|switches| - 1], switches[|switches| - 1];
      RunStaysLinked(init);
      SingleOwnerIff(init);
      SingleOwnerAfter(Recorded(init), last.accountId, last.now);
      OneMoreSwitch(init, last);
      assert switches == init + [last];
    }
  }

  lemma NoEvents()
    ensures SingleOwner([])
  {
  }

  /**
   After switches in time order a reading does harm exactly if it goes back before the
   last switch and any time has passed since the first.
   */
  lemma HarmlessInOrder(events: Timeline, now: int)
    requires Contiguous(events)
    ensures Harmless(events, now)
            <==> events == [] || events[|events| - 1].startedAt <= now
                 || events[|events| - 1].startedAt == events[0].startedAt
  {
    if events != [] && now < events[|events| - 1].startedAt {
      StartsAscend(events, 0, |events| - 1);
      if events[0].startedAt < events[|events| - 1].startedAt {
        LastRise(events, |events| - 1);
      } else {
        forall i | 0 <= i < |events| - 1 ensures events[i].startedAt == events[i + 1].startedAt {
          StartsAscend(events, 0, i);
          StartsAscend(events, i + 1, |events| - 1);
        }
      }
    }
  }

  /** After switches in time order, exactly when the next one leaves every instant with at most one owner. */
  lemma SetBackHarmsIff(events: Timeline, accountId: string, now: int)
    requires Contiguous(events)
    ensures SingleOwner(Record(events, accountId, now))
            <==> events == [] || events[|events| - 1].startedAt <= now
                 || events[|events| - 1].startedAt == events[0].startedAt
  {
    hide Record, Harmless;
    forall i, j, t | 0 <= i < j < |events| ensures !(Covers(events[i], t) && Covers(events[j], t)) {
      ExactlyOneOwner(events, t);
    }
    SingleOwnerAfter(events, accountId, now);
    HarmlessInOrder(events, now);
  }

  lemma {:induction false} LastRise(events: Timeline, n: nat)
    requires Contiguous(events) && n < |events| && events[0].startedAt < events[n].startedAt
    ensures exists i :: 0 <= i < n && events[i].startedAt < events[i + 1].startedAt == events[n].startedAt
  {
    if events[n - 1].startedAt < events[(n - 1) + 1].startedAt {
      assert events[n - 1].startedAt < events[(n - 1) + 1].startedAt == events[n].startedAt;
    } else {
      LastRise(events, n - 1);
    }
  }

  /** When the clock is set back, one instant can be attributed to two accounts. */
  lemma ClockSetBack()
    ensures var events := Record(Record(Record([], "a", 10), "b", 20), "c", 15);
      Covers(events[0], 17) && Covers(events[2], 17) && events[0].accountId != events[2].accountId
  {
  }
}
