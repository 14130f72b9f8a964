/**
 The usage statistics store. One load of the dashboard starts three requests
 under one id; each section can also be reloaded alone under an id of its own.
 Answers settle in any order, and an id kept per channel decides what is used.
 */
module UsageStore {
  import opened Options
  import opened UsageSummary

  datatype Section = Scopes | Overview | Activity | Insights | Calls | Threads | Diagnostics

  datatype Channel = DashboardChannel | SectionChannel(section: Section)

  datatype Task = Task(id: nat, channel: Channel, section: Section)

  datatype Reply =
    | ScopesReply(scopes: seq<string>, active: string)
    | OverviewReply(dashboard: Dashboard)
    | ActivityReply(buckets: seq<Bucket>)
    | InsightsReply(insights: string)
    | CallsReply(calls: RowPage)
    | ThreadsReply(threads: RowPage)
    | DiagnosticsReply(diagnostics: string)
  {
    function Section(): Section {
      match this
      case ScopesReply(_, _) => Scopes
      case OverviewReply(_) => Overview
      case ActivityReply(_) => Activity
      case InsightsReply(_) => Insights
      case CallsReply(_) => Calls
      case ThreadsReply(_) => Threads
      case DiagnosticsReply(_) => Diagnostics
    }
  }

  /** The part of the summary an answer fills in; a scopes answer fills in none. */
  function PatchOf(reply: Reply): Patch
    requires !reply.ScopesReply?
  {
    match reply
    case OverviewReply(d) => OverviewOnly(d)
    case ActivityReply(b) => ActivityPatch(b)
    case InsightsReply(i) => InsightsPatch(i)
    case CallsReply(p) => CallsPatch(p)
    case ThreadsReply(p) => ThreadsPatch(p)
    case DiagnosticsReply(d) => DiagnosticsPatch(d)
  }

  /** What is on screen. */
  datatype Shown = Shown(summary: Option<Summary>, scopes: seq<string>, activeScopeId: Option<string>)

  datatype State = State(
    shown: Shown,
    summaryRequestId: nat, sectionRequestIds: map<Section, nat>, nextId: nat,
    inFlight: seq<Task>,
    // Proof-only history: the id drawn by the last reset and what it left on screen,
    // the latest id issued on each channel, the answers used since the reset, and every answer ever used.
    resetId: nat, base: Shown, issued: map<Channel, nat>, used: seq<(Task, Reply)>, log: seq<Task>)

  const EMPTY := Shown(None, [], None)

  const INITIAL := State(EMPTY, 0, map[], 0, [], 0, EMPTY, map[], [], [])

  function Apply(shown: Shown, reply: Reply): Shown {
    if reply.ScopesReply? then shown.(scopes := reply.scopes, activeScopeId := Some(reply.active))
    else shown.(summary := Some(MergeSummary(shown.summary, PatchOf(reply))))
  }

  /** What a used answer puts on screen: its own panel's fields, and nothing else. */
  ghost predicate Filled(before: Shown, after: Shown, reply: Reply) {
    var was := if before.summary.Some? then before.summary.value else Summary(None, None, [], [], [], None, None, None);
    if reply.ScopesReply? then
      after.scopes == reply.scopes && after.activeScopeId == Some(reply.active) && after.summary == before.summary
    else
      && after.scopes == before.scopes && after.activeScopeId == before.activeScopeId && after.summary.Some?
      && var now := after.summary.value;
      match reply
      case OverviewReply(d) =>
        && now.stats == Some(d.stats) && now.diagnostics == Some(d.diagnostics)
        && now.activityBuckets == was.activityBuckets && now.recentCalls == was.recentCalls
        && now.topThreads == was.topThreads
        && now.insights == (if d.insights.Some? then d.insights else was.insights)
        && now.callsPage == (if d.callsPage.Some? then d.callsPage else was.callsPage)
        && now.threadsPage == (if d.threadsPage.Some? then d.threadsPage else was.threadsPage)
      case ActivityReply(buckets) => now == was.(activityBuckets := buckets)
      case InsightsReply(insights) => now == was.(insights := Some(insights))
      case CallsReply(page) => now == was.(callsPage := Some(page), recentCalls := page.rows)
      case ThreadsReply(page) => now == was.(threadsPage := Some(page), topThreads := page.rows)
      case DiagnosticsReply(diagnostics) => now == was.(diagnostics := Some(diagnostics))
      case _ => true
  }

  /** For each kind of answer: exactly the fields of its panel are set. */
  lemma AnswerFills(before: Shown, reply: Reply)
    ensures Filled(before, Apply(before, reply), reply)
  {
  }

  predicate IsCurrent(s: State, t: Task) {
    match t.channel
    case DashboardChannel => s.summaryRequestId == t.id
    case SectionChannel(section) => section in s.sectionRequestIds && s.sectionRequestIds[section] == t.id
  }

  function AfterLoadSummary(s: State): State {
    var id := s.nextId + 1;
    s.(nextId := id, summaryRequestId := id,
       inFlight := s.inFlight + [Task(id, DashboardChannel, Scopes), Task(id, DashboardChannel, Overview),
                                 Task(id, DashboardChannel, Activity)],
       issued := s.issued[DashboardChannel := id])
  }

  function AfterLoadSection(s: State, section: Section): State {
    var id := s.nextId + 1;
    s.(nextId := id, sectionRequestIds := s.sectionRequestIds[section := id],
       inFlight := s.inFlight + [Task(id, SectionChannel(section), section)],
       issued := s.issued[SectionChannel(section) := id])
  }

  function Reset(s: State, shown: Shown): State {
    var id := s.nextId + 1;
    s.(shown := shown, nextId := id, summaryRequestId := id, sectionRequestIds := map[],
       resetId := id, base := shown, used := [])
  }

  function AfterSelectScope(s: State, scopeId: string): State {
    Reset(s, s.shown.(summary := None, activeScopeId := Some(scopeId)))
  }

  function AfterInvalidate(s: State): State {
    Reset(s, EMPTY)
  }

  function Others(s: State, i: nat): State
    requires i < |s.inFlight|
  {
    s.(inFlight := s.inFlight[..i] + s.inFlight[i + 1..])
  }

  function AfterAnswer(s: State, i: nat, reply: Reply): State
    requires i < |s.inFlight|
  {
    var t := s.inFlight[i];
    if IsCurrent(s, t) then
      Others(s, i).(shown := Apply(s.shown, reply), used := s.used + [(t, reply)], log := s.log + [t])
    else Others(s, i)
  }

  datatype Event =
    | LoadSummary
    | LoadSection(section: Section)
    | SelectScope(scopeId: string)
    | Invalidate
    | Answer(index: nat, reply: Reply)
    | Failure(index: nat)

  function Step(s: State, e: Event): State {
    match e
    case LoadSummary => AfterLoadSummary(s)
    case LoadSection(section) => AfterLoadSection(s, section)
    case SelectScope(scopeId) => AfterSelectScope(s, scopeId)
    case Invalidate => AfterInvalidate(s)
    case Answer(i, reply) =>
      if i < |s.inFlight| && s.inFlight[i].section == reply.Section() then AfterAnswer(s, i, reply) else s
    case Failure(i) => if i < |s.inFlight| then Others(s, i) else s
  }

  function Run(events: seq<Event>): State {
    if events == [] then INITIAL else Step(Run(events[..|events| - 1]), events[|events| - 1])
  }

  // ----- the store object -----

  class Store {
    var summary: Option<Summary>
    var scopes: seq<string>
    var activeScopeId: Option<string>
    var summaryRequestId: nat
    var sectionRequestIds: map<Section, nat>
    var nextUsageRequestId: nat
    var inFlight: seq<Task>
    ghost var resetId: nat
    ghost var base: Shown
    ghost var issued: map<Channel, nat>
    ghost var used: seq<(Task, Reply)>
    ghost var log: seq<Task>

    ghost function View(): State
      reads this
    {
      State(Shown(summary, scopes, activeScopeId), summaryRequestId, sectionRequestIds, nextUsageRequestId, inFlight,
            resetId, base, issued, used, log)
    }

    /** What every method keeps, so that it holds of the store at any moment. */
    ghost predicate Valid()
      reads this
    {
      Inv(View()) && Tagged(View())
    }

    constructor ()
      ensures Valid() && View() == INITIAL
    {
      summary, scopes, activeScopeId := None, [], None;
      summaryRequestId, sectionRequestIds, nextUsageRequestId, inFlight := 0, map[], 0, [];
      resetId, base, issued, used, log := 0, EMPTY, map[], [], [];
    }

    method LoadUsageSummary()
      requires Valid()
      modifies this
      ensures Valid()
      ensures View() == AfterLoadSummary(old(View()))
      ensures summaryRequestId == nextUsageRequestId == old(nextUsageRequestId) + 1
      ensures inFlight == old(inFlight) + [Task(summaryRequestId, DashboardChannel, Scopes),
                                           Task(summaryRequestId, DashboardChannel, Overview),
                                           Task(summaryRequestId, DashboardChannel, Activity)]
      ensures summary == old(summary) && scopes == old(scopes) && activeScopeId == old(activeScopeId)
      ensures sectionRequestIds == old(sectionRequestIds)
    {
      hide Inv, Tagged;
      StepKeepsInv(View(), LoadSummary);
      StepKeepsTagged(View(), LoadSummary);
      nextUsageRequestId := nextUsageRequestId + 1;
      var requestId := nextUsageRequestId;
      summaryRequestId := requestId;
      inFlight := inFlight + [Task(requestId, DashboardChannel, Scopes), Task(requestId, DashboardChannel, Overview),
                              Task(requestId, DashboardChannel, Activity)];
      issued := issued[DashboardChannel := requestId];
    }

    method LoadUsageSection(section: Section)
      requires Valid()
      modifies this
      ensures Valid()
      ensures View() == AfterLoadSection(old(View()), section)
      ensures nextUsageRequestId == old(nextUsageRequestId) + 1 && summaryRequestId == old(summaryRequestId)
      ensures sectionRequestIds == old(sectionRequestIds)[section := nextUsageRequestId]
      ensures inFlight == old(inFlight) + [Task(nextUsageRequestId, SectionChannel(section), section)]
      ensures summary == old(summary) && scopes == old(scopes) && activeScopeId == old(activeScopeId)
    {
      hide Inv, Tagged;
      StepKeepsInv(View(), LoadSection(section));
      StepKeepsTagged(View(), LoadSection(section));
      nextUsageRequestId := nextUsageRequestId + 1;
      var requestId := nextUsageRequestId;
      sectionRequestIds := sectionRequestIds[section := requestId];
      inFlight := inFlight + [Task(requestId, SectionChannel(section), section)];
      issued := issued[SectionChannel(section) := requestId];
    }

    method SelectUsageScope(scopeId: string)
      requires Valid()
      modifies this
      ensures Valid()
      ensures View() == AfterSelectScope(old(View()), scopeId)
      ensures summary == None && activeScopeId == Some(scopeId) && scopes == old(scopes)
      ensures summaryRequestId == nextUsageRequestId == old(nextUsageRequestId) + 1 && sectionRequestIds == map[]
      ensures inFlight == old(inFlight)
    {
      hide Inv, Tagged;
      StepKeepsInv(View(), SelectScope(scopeId));
      StepKeepsTagged(View(), SelectScope(scopeId));
      nextUsageRequestId := nextUsageRequestId + 1;
      activeScopeId, summary := Some(scopeId), None;
      summaryRequestId, sectionRequestIds := nextUsageRequestId, map[];
      resetId, base, used := nextUsageRequestId, Shown(None, scopes, Some(scopeId)), [];
    }

    method InvalidateAll()
      requires Valid()
      modifies this
      ensures Valid()
      ensures View() == AfterInvalidate(old(View()))
      ensures summary == None && activeScopeId == None && scopes == []
      ensures summaryRequestId == nextUsageRequestId == old(nextUsageRequestId) + 1 && sectionRequestIds == map[]
      ensures inFlight == old(inFlight)
    {
      hide Inv, Tagged;
      StepKeepsInv(View(), Invalidate);
      StepKeepsTagged(View(), Invalidate);
      nextUsageRequestId := nextUsageRequestId + 1;
      summary, scopes, activeScopeId := None, [], None;
      summaryRequestId, sectionRequestIds := nextUsageRequestId, map[];
      resetId, base, used := nextUsageRequestId, EMPTY, [];
    }

    /** The `i`-th suspended request settles; `None` is a rejected promise. */
    method Settle(i: nat, reply: Option<Reply>)
      requires Valid()
      requires i < |inFlight| && (reply.Some? ==> inFlight[i].section == reply.value.Section())
      modifies this
      ensures Valid()
      ensures View() == if reply.Some? then AfterAnswer(old(View()), i, reply.value) else Others(old(View()), i)
      ensures inFlight == old(inFlight[..i] + inFlight[i + 1..])
      ensures summaryRequestId == old(summaryRequestId) && sectionRequestIds == old(sectionRequestIds)
      ensures var t := old(inFlight[i]);
              if reply.Some?
                 && match t.channel
                    case DashboardChannel => old(summaryRequestId) == t.id
                    case SectionChannel(x) => x in old(sectionRequestIds) && old(sectionRequestIds)[x] == t.id
              then Filled(old(View()).shown, View().shown, reply.value)
              else View().shown == old(View()).shown
    {
      hide Inv, Tagged, MergeSummary, Filled;
      ghost var event := if reply.Some? then Answer(i, reply.value) else Failure(i);
      StepKeepsInv(View(), event);
      StepKeepsTagged(View(), event);
      var t := inFlight[i];
      inFlight := inFlight[..i] + inFlight[i + 1..];
      if reply.None? {
        return;
      }
      var current := match t.channel
        case DashboardChannel => summaryRequestId == t.id
        case SectionChannel(section) => section in sectionRequestIds && sectionRequestIds[section] == t.id;
      if !current {
        return;
      }
      AnswerFills(View().shown, reply.value);
      if reply.value.ScopesReply? {
        scopes, activeScopeId := reply.value.scopes, Some(reply.value.active);
      } else {
        summary := Some(MergeSummary(summary, PatchOf(reply.value)));
      }
      used, log := used + [(t, reply.value)], log + [t];
    }
  }

  // ----- what every run keeps -----

  /** The screen rebuilt from the answers used since the last reset. */
  function Replay(base: Shown, used: seq<(Task, Reply)>): Shown {
    if used == [] then base else Apply(Replay(base, used[..|used| - 1]), used[|used| - 1].1)
  }

  predicate Ascending(log: seq<Task>) {
    forall i, j :: 0 <= i < j < |log| && log[i].channel == log[j].channel ==> log[i].id <= log[j].id
  }

  predicate Known(s: State, t: Task) {
    && t.channel in s.issued
    && t.id <= s.issued[t.channel]
  }

  ghost predicate IdsInv(s: State) {
    && s.resetId <= s.summaryRequestId <= s.nextId
    && (forall c :: c in s.issued ==> 0 < s.issued[c] <= s.nextId && s.issued[c] != s.resetId)
    && (s.summaryRequestId > s.resetId ==>
          DashboardChannel in s.issued && s.issued[DashboardChannel] == s.summaryRequestId)
    && (forall x :: x in s.sectionRequestIds ==>
          && SectionChannel(x) in s.issued
          && s.issued[SectionChannel(x)] == s.sectionRequestIds[x] > s.resetId)
    && (forall c :: c in s.issued && s.issued[c] > s.resetId ==> IsCurrent(s, Task(s.issued[c], c, Scopes)))
  }

  ghost predicate Inv(s: State) {
    && IdsInv(s)
    && (forall k :: 0 <= k < |s.inFlight| ==>
          Known(s, s.inFlight[k]) && s.inFlight[k].id > 0 && s.inFlight[k].id != s.resetId)
    && (forall k :: 0 <= k < |s.log| ==> Known(s, s.log[k]))
    && Ascending(s.log)
    && (forall k :: 0 <= k < |s.used| ==> s.used[k].0.id > s.resetId)
    && s.shown == Replay(s.base, s.used)
  }

  /** The guards accept exactly the latest request of a channel, and none from before a reset. */
  lemma CurrentIsLatest(s: State, t: Task)
    requires IdsInv(s) && Known(s, t) && t.id != s.resetId
    ensures IsCurrent(s, t) <==> s.issued[t.channel] == t.id && t.id > s.resetId
  {
  }

  lemma LoadSummaryKeepsIds(s: State)
    requires IdsInv(s)
    ensures IdsInv(AfterLoadSummary(s))
  {
  }

  lemma LoadSectionKeepsIds(s: State, section: Section)
    requires IdsInv(s)
    ensures IdsInv(AfterLoadSection(s, section))
  {
    var r := AfterLoadSection(s, section);
    forall c | c in r.issued && r.issued[c] > r.resetId ensures IsCurrent(r, Task(r.issued[c], c, Scopes)) {
      if c != SectionChannel(section) {
        assert IsCurrent(s, Task(s.issued[c], c, Scopes));
      }
    }
  }

  /** Raising a channel's latest id leaves everything already known to it known. */
  lemma StillKnown(s: State, t: Task, c: Channel)
    requires IdsInv(s) && Known(s, t)
    ensures Known(s.(issued := s.issued[c := s.nextId + 1]), t)
  {
  }

  lemma FreshId(s: State)
    requires IdsInv(s)
    ensures s.nextId + 1 != s.resetId
  {
  }

  lemma LoadSummaryKeepsInv(s: State)
    requires Inv(s)
    ensures Inv(AfterLoadSummary(s))
  {
    LoadSummaryKeepsIds(s);
    FreshId(s);
    hide IdsInv, Ascending;
    forall t | Known(s, t) ensures Known(AfterLoadSummary(s), t) {
      StillKnown(s, t, DashboardChannel);
    }
  }

  lemma LoadSectionKeepsInv(s: State, section: Section)
    requires Inv(s)
    ensures Inv(AfterLoadSection(s, section))
  {
    LoadSectionKeepsIds(s, section);
    FreshId(s);
    hide IdsInv, Ascending;
    forall t | Known(s, t) ensures Known(AfterLoadSection(s, section), t) {
      StillKnown(s, t, SectionChannel(section));
    }
  }

  lemma ResetKeepsInv(s: State, shown: Shown)
    requires Inv(s)
    ensures Inv(Reset(s, shown))
  {
  }

  lemma RemainingTasks(s: State, i: nat)
    requires i < |s.inFlight|
    ensures forall t :: t in Others(s, i).inFlight ==> t in s.inFlight
  {
  }

  lemma DropKeepsInv(s: State, i: nat)
    requires Inv(s) && i < |s.inFlight|
    ensures Inv(Others(s, i))
  {
    hide Ascending, Replay;
    RemainingTasks(s, i);
  }

  lemma AscendingExtend(s: State, t: Task)
    requires Ascending(s.log) && (forall k :: 0 <= k < |s.log| ==> Known(s, s.log[k]))
    requires t.channel in s.issued && s.issued[t.channel] == t.id
    ensures Ascending(s.log + [t])
  {
    var log := s.log + [t];
    forall i, j | 0 <= i < j < |log| && log[i].channel == log[j].channel ensures log[i].id <= log[j].id {
      assert Known(s, s.log[i]);
    }
  }

  lemma UseKeepsInv(s: State, t: Task, reply: Reply)
    requires Inv(s) && Known(s, t) && t.id != s.resetId && IsCurrent(s, t)
    ensures Inv(s.(shown := Apply(s.shown, reply), used := s.used + [(t, reply)], log := s.log + [t]))
  {
    CurrentIsLatest(s, t);
    AscendingExtend(s, t);
    assert (s.used + [(t, reply)])[..|s.used|] == s.used;
    hide Ascending, Apply;
  }

  lemma AnswerKeepsInv(s: State, i: nat, reply: Reply)
    requires Inv(s) && i < |s.inFlight|
    ensures Inv(AfterAnswer(s, i, reply))
  {
    DropKeepsInv(s, i);
    var t := s.inFlight[i];
    assert Known(s, t) && t.id != s.resetId;
    if IsCurrent(s, t) {
      UseKeepsInv(Others(s, i), t, reply);
    }
    hide Inv;
  }

  lemma StepKeepsInv(s: State, e: Event)
    requires Inv(s)
    ensures Inv(Step(s, e))
  {
    hide Inv, Reset, AfterLoadSummary, AfterLoadSection, AfterAnswer, Others;
    match e
    case LoadSummary => LoadSummaryKeepsInv(s);
    case LoadSection(section) => LoadSectionKeepsInv(s, section);
    case SelectScope(scopeId) => ResetKeepsInv(s, s.shown.(summary := None, activeScopeId := Some(scopeId)));
    case Invalidate => ResetKeepsInv(s, EMPTY);
    case Answer(i, reply) =>
      if i < |s.inFlight| {
        AnswerKeepsInv(s, i, reply);
      }
    case Failure(i) =>
      if i < |s.inFlight| {
        DropKeepsInv(s, i);
      }
  }

  lemma {:induction false} RunKeepsInv(events: seq<Event>)
    ensures Inv(Run(events))
  {
    if events != [] {
      RunKeepsInv(events[..|events| - 1]);
      StepKeepsInv(Run(events[..|events| - 1]), events[|events| - 1]);
    }
  }

  /**
   Latest wins, for every schedule: an answer is used exactly when nothing newer was
   issued on its channel and no reset came after it was issued.
   */
  lemma LatestWins(events: seq<Event>, i: nat, reply: Reply)
    requires i < |Run(events).inFlight| && Run(events).inFlight[i].section == reply.Section()
    ensures var s := Run(events);
            var t := s.inFlight[i];
            var after := Run(events + [Answer(i, reply)]);
      && t.channel in s.issued
      && (if t.id == s.issued[t.channel] && t.id > s.resetId
          then after.log == s.log + [t] && after.shown == Apply(s.shown, reply)
          else after.log == s.log && after.shown == s.shown)
  {
    var s := Run(events);
    var t := s.inFlight[i];
    RunKeepsInv(events);
    assert (events + [Answer(i, reply)])[..|events|] == events;
    CurrentIsLatest(s, t);
  }

  /**
   An answer fills its panel if its request is the latest of its channel and no reset
   came after it, and changes nothing on screen otherwise.
   */
  lemma AnswerFillsItsPanel(events: seq<Event>, i: nat, reply: Reply)
    requires i < |Run(events).inFlight| && Run(events).inFlight[i].section == reply.Section()
    ensures var s, after := Run(events), Run(events + [Answer(i, reply)]);
            var t := s.inFlight[i];
      && t.channel in s.issued
      && (if t.id == s.issued[t.channel] && t.id > s.resetId then Filled(s.shown, after.shown, reply)
          else after.shown == s.shown)
      && after.inFlight == s.inFlight[..i] + s.inFlight[i + 1..]
  {
    hide Filled, Apply, Inv;
    LatestWins(events, i, reply);
    AnswerFills(Run(events).shown, reply);
    assert (events + [Answer(i, reply)])[..|events|] == events;
  }

  /** On screen is what the answers since the last reset make of it, all of them issued after that reset. */
  lemma OnlySinceReset(events: seq<Event>)
    ensures var s := Run(events);
      && s.shown == Replay(s.base, s.used)
      && (forall k :: 0 <= k < |s.used| ==> s.used[k].0.id > s.resetId)
      && Ascending(s.log)
  {
    RunKeepsInv(events);
    hide Run, Replay, Ascending;
  }

  function Patches(used: seq<(Task, Reply)>): seq<Patch> {
    if used == [] then []
    else
      var init, reply := used[..|used| - 1], used[|used| - 1].1;
      if reply.ScopesReply? then Patches(init) else Patches(init) + [PatchOf(reply)]
  }

  /** The summary is the fold of the summary answers, so their order matters only where they disagree. */
  lemma {:induction false} SummaryIsFold(base: Shown, used: seq<(Task, Reply)>)
    ensures Replay(base, used).summary == Fold(base.summary, Patches(used))
  {
    if used != [] {
      var init := used[..|used| - 1];
      SummaryIsFold(base, init);
      if !used[|used| - 1].1.ScopesReply? {
        assert (Patches(init) + [PatchOf(used[|used| - 1].1)])[..|Patches(init)|] == Patches(init);
      }
    }
  }

  // ----- when a panel goes back to an older answer -----

  /** The events that follow a state. */
  function RunFrom(s: State, events: seq<Event>): State {
    if events == [] then s else Step(RunFrom(s, events[..|events| - 1]), events[|events| - 1])
  }

  /** The request id a channel's guard accepts. */
  function Accepted(s: State, c: Channel): Option<nat> {
    match c
    case DashboardChannel => Some(s.summaryRequestId)
    case SectionChannel(section) => if section in s.sectionRequestIds then Some(s.sectionRequestIds[section]) else None
  }

  /** Since `start` every guard accepts what it did, nothing, or a newer id; and so only these were used. */
  ghost predicate Since(start: State, s: State) {
    && start.nextId <= s.nextId
    && (forall c :: Accepted(s, c) in {Accepted(start, c), None} || Accepted(s, c).value > start.nextId)
    && (forall t :: t in s.inFlight ==> t in start.inFlight || t.id > start.nextId)
    && start.log <= s.log
    && (forall k :: |start.log| <= k < |s.log| ==> Usable(start, s.log[k]))
  }

  /** Issued later than `start`, or in flight and current there. */
  ghost predicate Usable(start: State, t: Task) {
    t.id > start.nextId || (t in start.inFlight && IsCurrent(start, t))
  }

  lemma SinceStep(start: State, s: State, e: Event)
    requires Since(start, s) && (forall t :: t in start.inFlight ==> t.id <= start.nextId)
    ensures Since(start, Step(s, e))
  {
    var now := Step(s, e);
    hide Apply;
    match e
    case Answer(i, reply) =>
      if i < |s.inFlight| {
        RemainingTasks(s, i);
        var t := s.inFlight[i];
        assert t in s.inFlight;
        assert IsCurrent(s, t) <==> Accepted(s, t.channel) == Some(t.id);
        assert IsCurrent(start, t) <==> Accepted(start, t.channel) == Some(t.id);
      }
    case Failure(i) =>
      if i < |s.inFlight| {
        RemainingTasks(s, i);
      }
    case _ =>
  }

  /** A request that is stale, or settled, is never used again: whatever is used later was current here or is newer. */
  lemma {:induction false} StaleStaysStale(start: State, events: seq<Event>)
    requires forall t :: t in start.inFlight ==> t.id <= start.nextId
    ensures Since(start, RunFrom(start, events))
  {
    hide Since, Step;
    if events == [] {
      assert Since(start, start) by {
        SinceItself(start);
      }
    } else {
      StaleStaysStale(start, events[..|events| - 1]);
      SinceStep(start, RunFrom(start, events[..|events| - 1]), events[|events| - 1]);
    }
  }

  lemma SinceItself(start: State)
    ensures Since(start, start)
  {
  }

  /** An answer for the panel older than `id` is used after the answer to request `id` itself. */
  ghost predicate GoesBack(log: seq<Task>, panel: Section, id: nat) {
    exists i, j :: 0 <= i < j < |log|
      && log[i].section == log[j].section == panel && log[j].id < id == log[i].id
  }

  ghost predicate CanGoBack(start: State, panel: Section, id: nat) {
    exists events :: GoesBack(RunFrom(start, events).log, panel, id)
  }

  /** Tasks belong to the channel of their own panel, or to the dashboard if that shows the panel. */
  ghost predicate Tagged(s: State) {
    forall t :: t in s.inFlight ==>
      && t.id <= s.nextId
      && (t.channel == SectionChannel(t.section) || (t.channel == DashboardChannel && OnDashboard(t.section)))
  }

  predicate OnDashboard(section: Section) {
    section == Scopes || section == Overview || section == Activity
  }

  lemma StepKeepsTagged(s: State, e: Event)
    requires Tagged(s)
    ensures Tagged(Step(s, e))
  {
    match e
    case Answer(i, _) =>
      if i < |s.inFlight| {
        RemainingTasks(s, i);
      }
    case Failure(i) =>
      if i < |s.inFlight| {
        RemainingTasks(s, i);
      }
    case _ =>
  }

  lemma {:induction false} RunKeepsTagged(events: seq<Event>)
    ensures Tagged(Run(events))
  {
    if events != [] {
      RunKeepsTagged(events[..|events| - 1]);
      StepKeepsTagged(Run(events[..|events| - 1]), events[|events| - 1]);
    }
  }

  /** Going back takes an older request for the panel that is in flight and current when the newer one is issued. */
  lemma GoingBackNeeds(start: State, events: seq<Event>, panel: Section) returns (newer: Task, older: Task)
    requires Tagged(start) && (forall k :: 0 <= k < |start.log| ==> start.log[k].id < start.nextId)
    requires GoesBack(RunFrom(start, events).log, panel, start.nextId)
    ensures newer in start.inFlight && newer.section == panel && newer.id == start.nextId
    ensures older in start.inFlight && older.section == panel && older.id < start.nextId && IsCurrent(start, older)
  {
    hide RunFrom, IsCurrent;
    StaleStaysStale(start, events);
    var log := RunFrom(start, events).log;
    var i, j :| 0 <= i < j < |log| && log[i].section == log[j].section == panel
      && log[j].id < start.nextId == log[i].id;
    assert start.log <= log;
    assert forall k :: 0 <= k < |start.log| ==> log[k] == start.log[k];
    newer, older := log[i], log[j];
    assert Usable(start, log[i]) && Usable(start, log[j]);
  }

  /** Settling the newer request and then the older one puts the older answer on screen, whatever the answers are. */
  lemma OlderSettlesLast(start: State, newer: nat, older: nat, later: Reply, earlier: Reply)
    requires older < newer < |start.inFlight|
    requires start.inFlight[newer].section == later.Section() == earlier.Section() == start.inFlight[older].section
    requires IsCurrent(start, start.inFlight[newer]) && IsCurrent(start, start.inFlight[older])
    ensures var s := RunFrom(start, [Answer(newer, later), Answer(older, earlier)]);
            && s.log == start.log + [start.inFlight[newer], start.inFlight[older]]
            && s.shown == Apply(Apply(start.shown, later), earlier)
  {
    hide Apply;
    var events := [Answer(newer, later), Answer(older, earlier)];
    assert events[..1] == [Answer(newer, later)] && [Answer(newer, later)][..0] == [];
    assert RunFrom(start, []) == start;
    assert RunFrom(start, events[..1]) == AfterAnswer(start, newer, later);
  }

  lemma SampleReply(panel: Section) returns (reply: Reply)
    ensures reply.Section() == panel
  {
    var page: RowPage :| true;
    var dashboard: Dashboard :| true;
    match panel
    case Scopes => reply := ScopesReply([], "");
    case Overview => reply := OverviewReply(dashboard);
    case Activity => reply := ActivityReply([]);
    case Insights => reply := InsightsReply("");
    case Calls => reply := CallsReply(page);
    case Threads => reply := ThreadsReply(page);
    case Diagnostics => reply := DiagnosticsReply("");
  }

  lemma BothInFlightGoBack(start: State, newer: nat, older: nat)
    requires older < newer < |start.inFlight|
    requires start.inFlight[newer].section == start.inFlight[older].section
    requires start.inFlight[older].id < start.inFlight[newer].id == start.nextId
    requires IsCurrent(start, start.inFlight[newer]) && IsCurrent(start, start.inFlight[older])
    ensures CanGoBack(start, start.inFlight[newer].section, start.nextId)
  {
    hide RunFrom, IsCurrent;
    var reply := SampleReply(start.inFlight[newer].section);
    OlderSettlesLast(start, newer, older, reply, reply);
    var events := [Answer(newer, reply), Answer(older, reply)];
    var log := RunFrom(start, events).log;
    assert log[|start.log|] == start.inFlight[newer] && log[|start.log| + 1] == start.inFlight[older];
    assert GoesBack(log, start.inFlight[newer].section, start.nextId);
  }

  lemma LoggedIdsAreOld(s: State)
    requires Inv(s)
    ensures forall k :: 0 <= k < |s.log| ==> s.log[k].id <= s.nextId
  {
    forall k | 0 <= k < |s.log| ensures s.log[k].id <= s.nextId {
      assert Known(s, s.log[k]);
    }
  }

  lemma ReloadGoesBackOnly(s: State, panel: Section)
    requires Inv(s) && Tagged(s)
    ensures var start := AfterLoadSection(s, panel);
            CanGoBack(start, panel, start.nextId) ==> Task(s.summaryRequestId, DashboardChannel, panel) in s.inFlight
  {
    hide RunFrom, Inv;
    var start := AfterLoadSection(s, panel);
    StepKeepsTagged(s, LoadSection(panel));
    LoggedIdsAreOld(s);
    if CanGoBack(start, panel, start.nextId) {
      var more :| GoesBack(RunFrom(start, more).log, panel, start.nextId);
      var newer, older := GoingBackNeeds(start, more, panel);
      assert older == Task(s.summaryRequestId, DashboardChannel, panel);
    }
  }

  lemma ReloadGoesBack(s: State, panel: Section)
    requires Tagged(s) && Task(s.summaryRequestId, DashboardChannel, panel) in s.inFlight
    ensures var start := AfterLoadSection(s, panel); CanGoBack(start, panel, start.nextId)
  {
    hide CanGoBack;
    var k :| 0 <= k < |s.inFlight| && s.inFlight[k] == Task(s.summaryRequestId, DashboardChannel, panel);
    BothInFlightGoBack(AfterLoadSection(s, panel), |s.inFlight|, k);
  }

  lemma DashboardGoesBackOnly(s: State, panel: Section)
    requires Inv(s) && Tagged(s)
    ensures var start := AfterLoadSummary(s);
            CanGoBack(start, panel, start.nextId) ==> OnDashboard(panel) && ReloadPending(s, panel)
  {
    hide RunFrom, Inv;
    var start := AfterLoadSummary(s);
    StepKeepsTagged(s, LoadSummary);
    LoggedIdsAreOld(s);
    if CanGoBack(start, panel, start.nextId) {
      var more :| GoesBack(RunFrom(start, more).log, panel, start.nextId);
      var newer, older := GoingBackNeeds(start, more, panel);
      assert newer !in s.inFlight && older in s.inFlight;
    }
  }

  lemma DashboardGoesBack(s: State, panel: Section)
    requires Tagged(s) && OnDashboard(panel) && ReloadPending(s, panel)
    ensures var start := AfterLoadSummary(s); CanGoBack(start, panel, start.nextId)
  {
    hide CanGoBack;
    var k :| 0 <= k < |s.inFlight| && s.inFlight[k] == Task(s.sectionRequestIds[panel], SectionChannel(panel), panel);
    var newer := |s.inFlight| + (match panel case Scopes => 0 case Overview => 1 case _ => 2);
    BothInFlightGoBack(AfterLoadSummary(s), newer, k);
  }

  /** The panel's latest reload is in flight and current. */
  predicate ReloadPending(s: State, panel: Section) {
    panel in s.sectionRequestIds && Task(s.sectionRequestIds[panel], SectionChannel(panel), panel) in s.inFlight
  }

  /**
   For every run: after a reload of one panel an older answer can replace its answer
   if and only if a dashboard load that is still current has its request for that panel
   in flight when the reload is issued.
   */
  lemma ReloadCanBeUndone(events: seq<Event>, panel: Section)
    ensures var s := Run(events);
            var start := AfterLoadSection(s, panel);
            CanGoBack(start, panel, start.nextId)
            <==> Task(s.summaryRequestId, DashboardChannel, panel) in s.inFlight
  {
    hide Run, Inv, Tagged, CanGoBack;
    RunKeepsInv(events);
    RunKeepsTagged(events);
    ReloadGoesBackOnly(Run(events), panel);
    if Task(Run(events).summaryRequestId, DashboardChannel, panel) in Run(events).inFlight {
      ReloadGoesBack(Run(events), panel);
    }
  }

  /** The mirror image: after a dashboard load, exactly when the panel's own reload is in flight and current. */
  lemma DashboardCanBeUndone(events: seq<Event>, panel: Section)
    ensures var s := Run(events);
            var start := AfterLoadSummary(s);
            CanGoBack(start, panel, start.nextId) <==> OnDashboard(panel) && ReloadPending(s, panel)
  {
    hide Run, Inv, Tagged, CanGoBack, ReloadPending;
    RunKeepsInv(events);
    RunKeepsTagged(events);
    DashboardGoesBackOnly(Run(events), panel);
    if OnDashboard(panel) && ReloadPending(Run(events), panel) {
      DashboardGoesBack(Run(events), panel);
    }
  }

  /** Ids are compared per channel only: an older dashboard load may replace a newer overview reload. */
  lemma OlderOverviewCanWin(earlier: Dashboard, later: Dashboard)
    ensures var s := Run([LoadSummary, LoadSection(Overview), Answer(3, OverviewReply(later)),
                          Answer(1, OverviewReply(earlier))]);
      && |s.used| == 2 && s.used[1].0.id < s.used[0].0.id
      && s.shown.summary.Some? && s.shown.summary.value.stats == Some(earlier.stats)
  {
    var events := [LoadSummary, LoadSection(Overview), Answer(3, OverviewReply(later)),
                   Answer(1, OverviewReply(earlier))];
    var s1 := AfterLoadSummary(INITIAL);
    var s2 := AfterLoadSection(s1, Overview);
    var s3 := AfterAnswer(s2, 3, OverviewReply(later));
    assert events[..3][..2] == [LoadSummary, LoadSection(Overview)];
    assert [LoadSummary, LoadSection(Overview)][..1] == [LoadSummary] && [LoadSummary][..0] == [];
    assert Run([]) == INITIAL;
    assert Run([LoadSummary]) == s1;
    assert Run([LoadSummary, LoadSection(Overview)]) == s2;
    assert Run(events[..3]) == s3;
    assert Run(events) == AfterAnswer(s3, 1, OverviewReply(earlier));
  }
}
