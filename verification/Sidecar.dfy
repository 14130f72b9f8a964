/**
 The launcher's gateway child process: started, checked, killed and retried, and
 in the end either retained or gone. Everything the operating system, the gateway
 and the restart policy answer is left to chance. What happens to the children is
 written to a log, and a small machine says which logs are orderly.
 */
module Sidecar {
  import opened Options

  datatype Error =
    | RuntimeFailed | PreparationFailed | IdentityUnavailable | StartFailed | BootstrapFailed
    | SupervisorFailed | HealthFailed | OwnerFailed

  datatype Preparation = Healthy | ReadyToStart

  datatype Status = Running | Exited | Unknown

  datatype Verdict = Ready | Unobservable | GaveUp

  datatype Launch = Serving | Abandoned

  /** The first five are what an inspection of the claimed process can find. */
  datatype Observation =
    | IdentityHealthy | IdentityUnavailable | AuthenticatedIdentityMismatch | ProcessMissing | ProcessIdentityMismatch
    | RecoveryCompleted | StartPreflightPassed | StartPreflightBlocked | StartCompleted | StartRefused

  datatype Action = Hold | ClearStaleClaim | RecoverVerifiedProcess | ValidateStart | StartGateway

  datatype Phase = Stopped | Suspect | Degraded | Serviceable | Starting | Recovering

  /** Delays are in nanoseconds. */
  datatype Decision = RestartAfter(delay: nat) | Failed

  const ROUNDS := 3
  const POLLS := 50
  const MAX_RESTARTS := 3
  const INITIAL_BACKOFF := 100_000_000
  const MAX_BACKOFF := 2_000_000_000

  /** Why a handle was dropped on a process that nobody has waited for. */
  datatype Fault = BootstrapWrite | StatusQuery | FailedWait

  /** What the launcher asks of its surroundings, apart from the children themselves. */
  datatype Question = RuntimeBuild | ProbeSetup | Inspection | Reconciliation | CommandSetup | ProcessLaunch

  /** `Confirmed` and `Rejected` are the two ends of a health check. */
  datatype Event =
    | Spawned(child: nat)
    | StillRunning(child: nat)
    | Killed(child: nat)
    | Reaped(child: nat)
    | Dropped(child: nat, fault: Fault)
    | Retained(child: nat)
    | Released(child: nat)
    | Confirmed
    | Rejected
    | Inspected(observation: Observation)
    | Answered(question: Question, yes: bool)
    | Paused(delay: nat)

  /**
   `held` is the one child a running call has a handle for; `owned` the one handed
   over to the launcher; `confirmed` says that the latest event was a confirmation.
   */
  datatype State = State(launches: nat, held: Option<nat>, killed: bool, owned: Option<nat>, confirmed: bool,
                         bootstrapFaults: nat, statusFaults: nat, waitFaults: nat)

  const START := State(0, None, false, None, false, 0, 0, 0)

  // ----- restart policy and port supervision -----

  function Doubled(base: nat, times: nat): nat {
    if times == 0 then base else 2 * Doubled(base, times - 1)
  }

  /** The delay before jitter: doubling with every failure until the cap. */
  function Backoff(failures: nat, initial: nat, cap: nat): nat
    requires failures > 0
  {
    var exponent := if failures - 1 < 31 then failures - 1 else 31;
    var base := Doubled(initial, exponent);
    if base < cap then base else cap
  }

  function RestartDecision(failures: nat, maxRestarts: nat, initial: nat, cap: nat, seed: nat): Decision {
    if failures == 0 || failures > maxRestarts then Failed
    else
      var base := Backoff(failures, initial, cap);
      var delay := base + seed % (base / 4 + 1);
      RestartAfter(if delay < cap then delay else cap)
  }

  lemma {:induction false} DoublingGrows(base: nat, n: nat, m: nat)
    requires n <= m
    ensures Doubled(base, n) <= Doubled(base, m)
  {
    if n < m {
      DoublingGrows(base, n, m - 1);
    }
  }

  /**
   A restart is allowed for exactly the first `maxRestarts` failures. Its delay lies
   between the backoff and a quarter more, never above the cap, and a later failure
   never waits less than the backoff of an earlier one.
   */
  lemma RestartsAreBounded(failures: nat, later: nat, maxRestarts: nat, initial: nat, cap: nat,
                           seed: nat, laterSeed: nat)
    requires 0 < initial <= cap && failures <= later
    ensures RestartDecision(failures, maxRestarts, initial, cap, seed).RestartAfter? <==> 1 <= failures <= maxRestarts
    ensures 1 <= failures && later <= maxRestarts ==>
              var base := Backoff(failures, initial, cap);
              var delay := RestartDecision(failures, maxRestarts, initial, cap, seed).delay;
              && initial <= base <= delay <= cap
              && 4 * delay <= 5 * base
              && base <= RestartDecision(later, maxRestarts, initial, cap, laterSeed).delay
  {
    if 1 <= failures && later <= maxRestarts {
      var early, late := if failures - 1 < 31 then failures - 1 else 31, if later - 1 < 31 then later - 1 else 31;
      DoublingGrows(initial, 0, early);
      DoublingGrows(initial, early, late);
      Remainder(seed, Backoff(failures, initial, cap) / 4 + 1);
      Remainder(laterSeed, Backoff(later, initial, cap) / 4 + 1);
    }
  }

  /** The backoff doubles with every failure, until the cap or until the exponent stays at 31. */
  lemma BackoffDoubles(failures: nat, initial: nat, cap: nat)
    requires failures > 0
    ensures Backoff(1, initial, cap) == if initial < cap then initial else cap
    ensures var doubled := 2 * Backoff(failures, initial, cap);
            Backoff(failures + 1, initial, cap)
            == if failures >= 32 then Backoff(failures, initial, cap) else if doubled < cap then doubled else cap
  {
    if failures < 32 {
      assert Doubled(initial, failures) == 2 * Doubled(initial, failures - 1);
    }
  }

  /** With a suitable seed every delay from the backoff to a quarter more, up to the cap, can come out. */
  lemma DelaysSpread(failures: nat, maxRestarts: nat, initial: nat, cap: nat, delay: nat)
    requires 1 <= failures <= maxRestarts
    ensures var base := Backoff(failures, initial, cap);
            base <= delay <= cap && delay <= base + base / 4
            <==> exists seed: nat :: RestartDecision(failures, maxRestarts, initial, cap, seed) == RestartAfter(delay)
  {
    var base := Backoff(failures, initial, cap);
    if base <= delay <= cap && delay <= base + base / 4 {
      assert (delay - base) % (base / 4 + 1) == delay - base;
      assert RestartDecision(failures, maxRestarts, initial, cap, delay - base) == RestartAfter(delay);
    }
    if seed: nat :| RestartDecision(failures, maxRestarts, initial, cap, seed) == RestartAfter(delay) {
      Remainder(seed, base / 4 + 1);
    }
  }

  /** The launcher waits 100, 200 and 400 milliseconds, each time up to a quarter more, and then gives up. */
  lemma LauncherDelays(failures: nat, seed: nat)
    requires failures > 0
    ensures match RestartDecision(failures, MAX_RESTARTS, INITIAL_BACKOFF, MAX_BACKOFF, seed)
            case RestartAfter(delay) => failures <= 3 && InWindow(failures - 1, delay)
            case Failed => failures > 3
  {
    if failures <= 3 {
      BackoffDoubles(1, INITIAL_BACKOFF, MAX_BACKOFF);
      BackoffDoubles(2, INITIAL_BACKOFF, MAX_BACKOFF);
      Remainder(seed, Backoff(failures, INITIAL_BACKOFF, MAX_BACKOFF) / 4 + 1);
    }
  }

  lemma Remainder(a: nat, m: nat)
    requires m > 0
    ensures 0 <= a % m < m
  {
  }

  predicate Holding(o: Observation) {
    o == Observation.IdentityUnavailable || o == AuthenticatedIdentityMismatch
  }

  predicate FromInspection(o: Observation) {
    Holding(o) || o == IdentityHealthy || o == ProcessMissing || o == ProcessIdentityMismatch
  }

  const MAX_COUNT := 0xFFFF_FFFF

  /** Counts bad observations in a row; news of a start leaves the count alone. */
  class Supervisor {
    var phase: Phase
    var consecutiveFailures: nat
    const recoveryThreshold: nat

    ghost predicate Valid()
      reads this
    {
      && 2 <= recoveryThreshold && consecutiveFailures <= MAX_COUNT
      && (phase in {Suspect, Degraded, Recovering} ==> consecutiveFailures > 0)
      && (phase == Suspect ==> consecutiveFailures == 1)
      && (phase == Recovering ==> consecutiveFailures >= recoveryThreshold)
      && (phase == Serviceable ==> consecutiveFailures == 0)
    }

    constructor (recoveryThreshold: nat)
      requires recoveryThreshold >= 2
      ensures Valid() && this.recoveryThreshold == recoveryThreshold && phase == Stopped && consecutiveFailures == 0
    {
      phase, consecutiveFailures, this.recoveryThreshold := Stopped, 0, recoveryThreshold;
    }

    method Observe(o: Observation) returns (action: Action)
      requires Valid()
      modifies this
      ensures Valid()
      ensures consecutiveFailures
              == if Holding(o) then
                   (if old(consecutiveFailures) < MAX_COUNT then old(consecutiveFailures) + 1 else MAX_COUNT)
                 else if FromInspection(o) || o == RecoveryCompleted then 0 else old(consecutiveFailures)
      ensures action == RecoverVerifiedProcess <==>
                o == AuthenticatedIdentityMismatch && consecutiveFailures >= recoveryThreshold
      ensures action == ClearStaleClaim <==> o == ProcessIdentityMismatch
      ensures action == ValidateStart <==> o == ProcessMissing || o == RecoveryCompleted
      ensures action == StartGateway <==> o == StartPreflightPassed
      ensures phase == Recovering <==> action == RecoverVerifiedProcess
      ensures phase == Serviceable <==> o == IdentityHealthy
      ensures phase == Starting <==> o == StartPreflightPassed || o == StartCompleted
      ensures phase == Stopped <==> !Holding(o) && phase != Serviceable && phase != Starting
    {
      var failures := if consecutiveFailures < MAX_COUNT then consecutiveFailures + 1 else MAX_COUNT;
      match o {
        case IdentityHealthy =>
          phase, consecutiveFailures := Serviceable, 0;
          return Hold;
        case IdentityUnavailable =>
          consecutiveFailures := failures;
          phase := if failures == 1 then Suspect else Degraded;
          return Hold;
        case AuthenticatedIdentityMismatch =>
          consecutiveFailures := failures;
          if failures >= recoveryThreshold {
            phase := Recovering;
            return RecoverVerifiedProcess;
          }
          phase := if failures == 1 then Suspect else Degraded;
          return Hold;
        case ProcessMissing =>
          phase, consecutiveFailures := Stopped, 0;
          return ValidateStart;
        case ProcessIdentityMismatch =>
          phase, consecutiveFailures := Stopped, 0;
          return ClearStaleClaim;
        case RecoveryCompleted =>
          phase, consecutiveFailures := Stopped, 0;
          return ValidateStart;
        case StartPreflightPassed =>
          phase := Starting;
          return StartGateway;
        case StartPreflightBlocked =>
          phase := Stopped;
          return Hold;
        case StartRefused =>
          phase := Stopped;
          return Hold;
        case StartCompleted =>
          phase := Starting;
          return Hold;
      }
    }
  }

  /** Without a threshold of at least two there is no supervisor. */
  method NewSupervisor(recoveryThreshold: nat) returns (machine: Supervisor?)
    ensures machine == null <==> recoveryThreshold < 2
    ensures machine != null ==>
              && fresh(machine) && machine.Valid() && machine.recoveryThreshold == recoveryThreshold
              && machine.phase == Stopped && machine.consecutiveFailures == 0
  {
    if recoveryThreshold < 2 {
      return null;
    }
    machine := new Supervisor(recoveryThreshold);
  }

  // ----- orderly logs -----

  /**
   A child is started only while no other is held, is killed or reaped only while
   held, is retained only alive, right after a confirmation and into an empty slot.
   A killed child can only be waited for.
   */
  function Step(s: State, e: Event): Option<State> {
    match e
    case Spawned(c) =>
      if s.held == None && c == s.launches
      then Some(s.(launches := s.launches + 1, held := Some(c), killed := false, confirmed := false)) else None
    case Killed(c) =>
      if s.held == Some(c) && !s.killed then Some(s.(killed := true, confirmed := false)) else None
    case Reaped(c) =>
      if s.held == Some(c) then Some(s.(held := None, killed := false, confirmed := false)) else None
    case Dropped(c, fault) =>
      if s.held != Some(c) || s.killed != (fault == FailedWait) then None
      else
        var gone := s.(held := None, killed := false, confirmed := false);
        Some(match fault
             case BootstrapWrite => gone.(bootstrapFaults := gone.bootstrapFaults + 1)
             case StatusQuery => gone.(statusFaults := gone.statusFaults + 1)
             case FailedWait => gone.(waitFaults := gone.waitFaults + 1))
    case Retained(c) =>
      if s.held == Some(c) && !s.killed && s.owned == None && s.confirmed
      then Some(s.(held := None, owned := Some(c), confirmed := false)) else None
    case Released(c) =>
      if s.held == None && s.owned == Some(c)
      then Some(s.(held := Some(c), owned := None, killed := false, confirmed := false)) else None
    case StillRunning(c) => if s.held == Some(c) && !s.killed then Some(s.(confirmed := false)) else None
    case Confirmed => Some(s.(confirmed := true))
    case _ => Some(s.(confirmed := false))
  }

  function Replay(log: seq<Event>): Option<State> {
    if log == [] then Some(START)
    else
      var before := Replay(log[..|log| - 1]);
      if before == None then None else Step(before.value, log[|log| - 1])
  }

  predicate Orderly(log: seq<Event>) {
    Replay(log).Some?
  }

  function SpawnedIn(log: seq<Event>): set<nat> {
    set e | e in log && e.Spawned? :: e.child
  }

  function ReapedIn(log: seq<Event>): set<nat> {
    set e | e in log && e.Reaped? :: e.child
  }

  function DroppedIn(log: seq<Event>): set<nat> {
    set e | e in log && e.Dropped? :: e.child
  }

  predicate Announces(e: Event) {
    e == Confirmed || e.Retained?
  }

  /** Nothing was confirmed since `before`. */
  ghost predicate Unconfirmed(before: seq<Event>, log: seq<Event>) {
    forall i :: |before| <= i < |log| ==> log[i] != Confirmed
  }

  lemma UnconfirmedChain(before: seq<Event>, mid: seq<Event>, log: seq<Event>)
    requires before <= mid <= log
    ensures Unconfirmed(before, log) <==> Unconfirmed(before, mid) && Unconfirmed(mid, log)
    ensures |mid| < |log| && log[|log| - 1] == Confirmed ==> !Unconfirmed(mid, log)
  {
    if !Unconfirmed(before, mid) {
      var i :| |before| <= i < |mid| && mid[i] == Confirmed;
      assert log[i] == Confirmed;
    }
    assert Unconfirmed(before, log) ==> forall i :: |before| <= i < |mid| ==> mid[i] == log[i];
  }

  lemma UnconfirmedItself(log: seq<Event>)
    ensures Unconfirmed(log, log)
  {
  }

  // ----- the order of events while the gateway is brought up -----

  predicate Asks(e: Event, question: Question) {
    e.Answered? && e.question == question
  }

  predicate Inspects(e: Event) {
    e.Inspected? || e == Confirmed || e == Answered(Inspection, false)
  }

  /** How long to wait, in nanoseconds, once `earlier` children before this one were given up. */
  predicate InWindow(earlier: int, delay: nat) {
    || (earlier == 0 && 100_000_000 <= delay <= 125_000_000)
    || (earlier == 1 && 200_000_000 <= delay <= 250_000_000)
    || (earlier == 2 && 400_000_000 <= delay <= 500_000_000)
  }

  /**
   Which event may come next, if `first` is the first child of the run. Nothing
   follows a question answered in the negative, a retention, or a child lost to a
   failed bootstrap write or status query.
   */
  predicate Follows(first: nat, last: Event, next: Event) {
    match last
    case Answered(question, yes) =>
      && yes
      && (match question
          case RuntimeBuild => Asks(next, ProbeSetup)
          case ProbeSetup => Inspects(next)
          case Inspection => false
          case Reconciliation => Asks(next, CommandSetup)
          case CommandSetup => Asks(next, ProcessLaunch)
          case ProcessLaunch => next.Spawned?)
    case Inspected(o) =>
      if Holding(o) then Inspects(next) || (o == AuthenticatedIdentityMismatch && Asks(next, Reconciliation))
      else Asks(next, Reconciliation)
    case Confirmed => next.Retained? || next.Killed?
    case Spawned(c) => next == Rejected || next == Confirmed || next == Dropped(c, BootstrapWrite)
    case Rejected => next.StillRunning? || next.Reaped? || (next.Dropped? && next.fault == StatusQuery)
    case StillRunning(_) =>
      next == Rejected || next == Confirmed || next.StillRunning? || next.Reaped? || next.Killed?
    case Killed(c) => next == Reaped(c) || next == Dropped(c, FailedWait)
    case Reaped(c) => next.Paused? && InWindow(c - first, next.delay)
    case Dropped(c, fault) => fault == FailedWait && next.Paused? && InWindow(c - first, next.delay)
    case Paused(_) => Asks(next, ProbeSetup)
    case Retained(_) => false
    case Released(_) => false
  }

  /** The events from `from` to `to` are health checks failed by `child`, which then still runs. */
  ghost predicate KeepsFailing(log: seq<Event>, child: nat, from: int, to: int) {
    && 0 <= from <= to <= |log|
    && forall j :: from <= j < to ==> log[j] == if (j - from) % 2 == 0 then Rejected else StillRunning(child)
  }

  /** A child is killed after exactly fifty failed health checks, or when it was confirmed but refused. */
  ghost predicate Patient(log: seq<Event>, i: nat)
    requires 0 < i < |log|
  {
    log[i].Killed? ==>
      || log[i - 1] == Confirmed
      || WatchedFifty(log, log[i].child, i)
      || WatchedFifty(log, log[i].child, i - 1)
  }

  ghost predicate WatchedFifty(log: seq<Event>, child: nat, at: int) {
    100 < at <= |log| && log[at - 101] == Spawned(child) && KeepsFailing(log, child, at - 100, at)
  }

  ghost predicate Steady(first: nat, log: seq<Event>, i: nat)
    requires 0 < i < |log|
  {
    Follows(first, log[i - 1], log[i]) && Patient(log, i)
  }

  /** Everything after the event at `from` came in its turn. */
  ghost predicate Flows(first: nat, from: nat, log: seq<Event>) {
    forall i :: from < i < |log| ==> Steady(first, log, i)
  }

  lemma SteadyStays(first: nat, before: seq<Event>, log: seq<Event>, i: nat)
    requires 0 < i < |before| && before <= log
    ensures Steady(first, before, i) <==> Steady(first, log, i)
  {
    assert forall j :: 0 <= j < |before| ==> before[j] == log[j];
  }

  lemma FlowsChain(first: nat, from: nat, mid: seq<Event>, log: seq<Event>)
    requires from < |mid| && mid <= log
    requires Flows(first, from, mid) && Flows(first, |mid| - 1, log)
    ensures Flows(first, from, log)
  {
    forall i | from < i < |log|
      ensures Steady(first, log, i)
    {
      if i < |mid| {
        SteadyStays(first, mid, log, i);
      }
    }
  }

  /** One run of events after another. */
  lemma FlowsJoin(first: nat, from: nat, mid: seq<Event>, log: seq<Event>)
    requires from < |mid| && mid < log && Flows(first, from, mid) && Flows(first, |mid|, log)
    requires Follows(first, mid[|mid| - 1], log[|mid|]) && !log[|mid|].Killed?
    ensures Flows(first, from, log)
  {
    assert Steady(first, log, |mid|);
    FlowsChain(first, from, mid, log);
  }

  /** Preparing the gateway keeps the order and confirms nothing before its last event. */
  lemma PreparationFlows(first: nat, before: seq<Event>, log: seq<Event>, seen: seq<Observation>)
    requires before < log && |before| + 1 + |seen| <= |log| <= |before| + 2 + |seen|
    requires log[|before|] == Answered(ProbeSetup, |log| > |before| + 1)
    requires forall i :: 0 <= i < |seen| ==>
               log[|before| + 1 + i] == if seen[i] == IdentityHealthy then Confirmed else Inspected(seen[i])
    requires forall i :: 0 <= i < |seen| - 1 ==> Holding(seen[i])
    requires |log| == |before| + 2 + |seen| ==>
               || (log[|log| - 1] == Answered(Inspection, false) && (seen != [] ==> Holding(seen[|seen| - 1])))
               || (Asks(log[|log| - 1], Reconciliation) && seen != []
                   && seen[|seen| - 1] in {ProcessMissing, ProcessIdentityMismatch, AuthenticatedIdentityMismatch})
    ensures Flows(first, |before|, log)
    ensures Unconfirmed(before, log) <==> log[|log| - 1] != Confirmed
  {
    forall i | |before| < i < |log|
      ensures Steady(first, log, i) && (i < |log| - 1 ==> log[i] != Confirmed)
    {
      var k := i - |before| - 1;
      assert k < |seen| ==> log[i] == if seen[k] == IdentityHealthy then Confirmed else Inspected(seen[k]);
      assert 0 < k ==> log[i - 1] == if seen[k - 1] == IdentityHealthy then Confirmed else Inspected(seen[k - 1]);
    }
  }

  lemma StartFlows(first: nat, before: seq<Event>, log: seq<Event>)
    requires
      || log == before + [Answered(CommandSetup, false)]
      || log == before + [Answered(CommandSetup, true), Answered(ProcessLaunch, false)]
      || (|log| > 0 && log[|log| - 1].Spawned?
          && log == before + [Answered(CommandSetup, true), Answered(ProcessLaunch, true), log[|log| - 1]])
      || (|log| > 1 && log[|log| - 2].Spawned? && log[|log| - 1] == Dropped(log[|log| - 2].child, BootstrapWrite)
          && log == before + [Answered(CommandSetup, true), Answered(ProcessLaunch, true),
                              log[|log| - 2], log[|log| - 1]])
    ensures Flows(first, |before|, log) && Unconfirmed(before, log)
  {
  }

  /** Watching a child keeps the order and confirms nothing before its last event. */
  lemma WatchFlows(first: nat, before: seq<Event>, log: seq<Event>, child: nat, failed: nat)
    requires before != [] && before[|before| - 1] == Spawned(child) && before < log
    requires |before| + 2 * failed < |log| && KeepsFailing(log, child, |before|, |before| + 2 * failed)
    requires var ending, gone := log[|before| + 2 * failed..], log[|log| - 1];
             || ending == [Confirmed]
             || ending == [Rejected, Dropped(child, StatusQuery)]
             || ending == [Rejected, Reaped(child)]
             || (failed == 50
                 && (gone == Reaped(child) || gone == Dropped(child, FailedWait))
                 && (|| ending == [Reaped(child)]
                     || ending == [Killed(child), gone]
                     || ending == [StillRunning(child), Killed(child), gone]))
    ensures Flows(first, |before| - 1, log)
    ensures Unconfirmed(before, log) <==> log[|log| - 1] != Confirmed
  {
    var n := |before| + 2 * failed;
    assert log[|before| - 1] == Spawned(child);
    forall i | |before| <= i < |log|
      ensures Steady(first, log, i) && (i < |log| - 1 ==> log[i] != Confirmed)
    {
      if failed == 50 && i <= n + 1 && log[i].Killed? {
        assert n <= i && KeepsFailing(log, child, n - 100, n);
        assert WatchedFifty(log, child, n);
      }
      if n <= i {
        assert log[n..][i - n] == log[i];
      }
      if n < i {
        assert log[n..][i - n - 1] == log[i - 1];
      }
    }
  }

  lemma RefusalFlows(first: nat, from: nat, mid: seq<Event>, log: seq<Event>, child: nat)
    requires from < |mid| && mid < log && Flows(first, from, mid) && mid[|mid| - 1] == Confirmed
    requires
      || log == mid + [Retained(child)]
      || log == mid + [Killed(child), Reaped(child)]
      || log == mid + [Killed(child), Dropped(child, FailedWait)]
    ensures Flows(first, from, log)
  {
    forall i | |mid| <= i < |log|
      ensures Steady(first, log, i)
    {
      assert log[|mid| - 1] == Confirmed && log[|mid|] != Confirmed;
    }
    FlowsChain(first, from, mid, log);
  }

  /** After a pause the gateway is prepared again. */
  lemma RetryFlows(first: nat, log0: seq<Event>, before: seq<Event>, mid: seq<Event>, log: seq<Event>)
    requires log0 < before && mid < log && |mid| == |before| + 1 && before < mid
    requires mid[|before|].Paused? && Follows(first, before[|before| - 1], mid[|before|])
    requires Asks(log[|mid|], ProbeSetup)
    requires Flows(first, |log0|, before) && Flows(first, |mid|, log) && Unconfirmed(log0, before)
    ensures Flows(first, |log0|, log)
    ensures Unconfirmed(log0, log) <==> Unconfirmed(mid, log)
  {
    FlowsJoin(first, |log0|, before, mid);
    FlowsJoin(first, |log0|, mid, log);
    UnconfirmedChain(log0, before, log);
    UnconfirmedChain(before, mid, log);
  }

  /** Which answer the last event of a run stands for. */
  predicate Ended(last: Event, r: Result<(), Error>) {
    match last
    case Confirmed => r == Ok(())
    case Retained(_) => r == Ok(())
    case Answered(question, yes) =>
      && !yes
      && r == Err(match question
                  case RuntimeBuild => RuntimeFailed
                  case ProcessLaunch => StartFailed
                  case _ => PreparationFailed)
    case Inspected(o) => o == Observation.IdentityUnavailable && r == Err(Error.IdentityUnavailable)
    case Dropped(_, fault) =>
      (match fault
       case BootstrapWrite => r == Err(BootstrapFailed)
       case StatusQuery => r == Err(SupervisorFailed)
       case FailedWait => r == Err(HealthFailed) || r == Err(OwnerFailed))
    case Reaped(_) => r == Err(HealthFailed) || r == Err(OwnerFailed)
    case _ => false
  }

  /** Children that somebody still has a handle for. */
  function Kept(s: State): set<nat> {
    (if s.held.Some? then {s.held.value} else {}) + (if s.owned.Some? then {s.owned.value} else {})
  }

  ghost predicate FaultFree(s: State) {
    s.bootstrapFaults == 0 && s.statusFaults == 0 && s.waitFaults == 0
  }

  ghost predicate Balanced(spawned: set<nat>, reaped: set<nat>, dropped: set<nat>, s: State) {
    && (forall c :: c in spawned <==> 0 <= c < s.launches)
    && (forall c :: c in spawned <==> c in reaped || c in dropped || c in Kept(s))
    && (forall c :: c in reaped ==> c !in dropped && c !in Kept(s))
    && (forall c :: c in dropped ==> c !in Kept(s))
    && (s.held.Some? ==> s.held != s.owned)
    && (FaultFree(s) <==> dropped == {})
  }

  /**
   Conservation: in an orderly log every child ever started has exactly one fate,
   and none has been lost unless a bootstrap write, a status query or a wait failed.
   */
  lemma {:induction false} Conservation(log: seq<Event>)
    requires Orderly(log)
    ensures Balanced(SpawnedIn(log), ReapedIn(log), DroppedIn(log), Replay(log).value)
  {
    if log == [] {
    } else {
      var init, e := log[..|log| - 1], log[|log| - 1];
      Conservation(init);
      assert log == init + [e];
      SetsGrow(init, e);
      StepBalances(SpawnedIn(init), ReapedIn(init), DroppedIn(init), Replay(init).value, e);
    }
  }

  lemma SetsGrow(log: seq<Event>, e: Event)
    ensures SpawnedIn(log + [e]) == if e.Spawned? then SpawnedIn(log) + {e.child} else SpawnedIn(log)
    ensures ReapedIn(log + [e]) == if e.Reaped? then ReapedIn(log) + {e.child} else ReapedIn(log)
    ensures DroppedIn(log + [e]) == if e.Dropped? then DroppedIn(log) + {e.child} else DroppedIn(log)
  {
    assert forall x :: x in log + [e] <==> x in log || x == e;
  }

  lemma StepBalances(spawned: set<nat>, reaped: set<nat>, dropped: set<nat>, s: State, e: Event)
    requires Balanced(spawned, reaped, dropped, s) && Step(s, e).Some?
    ensures Balanced(if e.Spawned? then spawned + {e.child} else spawned,
                     if e.Reaped? then reaped + {e.child} else reaped,
                     if e.Dropped? then dropped + {e.child} else dropped,
                     Step(s, e).value)
  {
    hide Balanced, Step;
    if e.Spawned? {
      SpawnBalances(spawned, reaped, dropped, s, e);
    } else if e.Reaped? || e.Dropped? {
      LossBalances(spawned, reaped, dropped, s, e);
    } else {
      OthersBalance(spawned, reaped, dropped, s, e);
    }
  }

  lemma SpawnBalances(spawned: set<nat>, reaped: set<nat>, dropped: set<nat>, s: State, e: Event)
    requires Balanced(spawned, reaped, dropped, s) && Step(s, e).Some? && e.Spawned?
    ensures Balanced(spawned + {e.child}, reaped, dropped, Step(s, e).value)
  {
  }

  lemma LossBalances(spawned: set<nat>, reaped: set<nat>, dropped: set<nat>, s: State, e: Event)
    requires Balanced(spawned, reaped, dropped, s) && Step(s, e).Some? && (e.Reaped? || e.Dropped?)
    ensures Balanced(spawned, if e.Reaped? then reaped + {e.child} else reaped,
                     if e.Dropped? then dropped + {e.child} else dropped, Step(s, e).value)
  {
    assert e.Dropped? ==> e.child in dropped + {e.child};
  }

  lemma OthersBalance(spawned: set<nat>, reaped: set<nat>, dropped: set<nat>, s: State, e: Event)
    requires Balanced(spawned, reaped, dropped, s) && Step(s, e).Some?
    requires !e.Spawned? && !e.Reaped? && !e.Dropped?
    ensures Balanced(spawned, reaped, dropped, Step(s, e).value)
  {
    assert Kept(Step(s, e).value) == Kept(s);
  }

  function CountFault(log: seq<Event>, fault: Fault): nat {
    if log == [] then 0
    else
      var last := log[|log| - 1];
      CountFault(log[..|log| - 1], fault) + if last.Dropped? && last.fault == fault then 1 else 0
  }

  /** The fault counters are the numbers of children lost for each reason. */
  lemma {:induction false} FaultsAreCounted(log: seq<Event>)
    requires Orderly(log)
    ensures var s := Replay(log).value;
      && s.bootstrapFaults == CountFault(log, BootstrapWrite)
      && s.statusFaults == CountFault(log, StatusQuery)
      && s.waitFaults == CountFault(log, FailedWait)
  {
    if log != [] {
      FaultsAreCounted(log[..|log| - 1]);
    }
  }

  /** Once nothing is held or owned, a log without faults has reaped every child it started. */
  lemma NothingLeftBehind(log: seq<Event>)
    requires Orderly(log)
    requires Replay(log).value.held == None && Replay(log).value.owned == None
    ensures FaultFree(Replay(log).value) <==> SpawnedIn(log) == ReapedIn(log)
  {
    Conservation(log);
    if dropped :| dropped in DroppedIn(log) {
      assert dropped in SpawnedIn(log) && dropped !in ReapedIn(log);
    }
  }

  lemma ReplayAppend(log: seq<Event>, e: Event)
    ensures Replay(log + [e]) == if Replay(log) == None then None else Step(Replay(log).value, e)
  {
    assert (log + [e])[..|log|] == log;
  }

  // ----- the launcher -----

  class Readiness {
    /** The child handed over to the launcher. */
    var ownedChild: Option<nat>
    /** How many processes have been launched; the next one gets this number as its handle. */
    var launches: nat
    /** A panic elsewhere has poisoned the lock around `ownedChild`. */
    const poisoned: bool
    ghost var log: seq<Event>

    ghost predicate Valid()
      reads this
    {
      && Orderly(log)
      && var s := Replay(log).value; s.owned == ownedChild && s.launches == launches
    }

    ghost function Now(): State
      requires Valid()
      reads this
    {
      Replay(log).value
    }

    constructor (poisoned: bool)
      ensures Valid() && this.poisoned == poisoned && ownedChild == None && log == []
    {
      this.poisoned := poisoned;
      ownedChild, launches, log := None, 0, [];
    }

    ghost method Record(e: Event)
      requires Orderly(log)
      modifies this`log
      ensures log == old(log) + [e]
      ensures Replay(log) == Step(old(Replay(log).value), e)
    {
      ReplayAppend(log, e);
      log := log + [e];
    }

    /** Record an event that happens to no child. */
    ghost method Note(e: Event)
      requires Valid() && (e.Rejected? || e.Inspected? || e.Answered? || e.Paused?)
      modifies this`log
      ensures Valid()
      ensures log == old(log) + [e] && Now() == old(Now()).(confirmed := false)
    {
      Record(e);
    }

    ghost method LoseSight(child: nat)
      requires Valid() && Now().held == Some(child) && !Now().killed
      modifies this`log
      ensures Valid() && log == old(log) + [Dropped(child, StatusQuery)]
      ensures var s := old(Now());
              Now() == s.(held := None, confirmed := false, statusFaults := s.statusFaults + 1)
    {
      Record(Dropped(child, StatusQuery));
    }

    method Release(child: nat)
      requires Valid() && Now().held == None && ownedChild == Some(child)
      modifies this`log, this`ownedChild
      ensures Valid() && log == old(log) + [Released(child)]
      ensures Now() == old(Now()).(held := Some(child), owned := None, killed := false, confirmed := false)
    {
      ownedChild := None;
      Record(Released(child));
    }

    // ----- the outside world -----

    method Verify() returns (ok: bool)
      requires Valid()
      modifies this`log
      ensures Valid()
      ensures log == old(log) + [if ok then Confirmed else Rejected]
      ensures Now() == old(Now()).(confirmed := ok)
    {
      ok := *;
      Record(if ok then Confirmed else Rejected);
    }

    method Ask(question: Question) returns (yes: bool)
      requires Valid()
      modifies this`log
      ensures Valid()
      ensures log == old(log) + [Answered(question, yes)]
      ensures Now() == old(Now()).(confirmed := false)
    {
      yes := *;
      Note(Answered(question, yes));
    }

    /** Look at the process that claims the port; nothing comes back if that is not possible. */
    method Inspect() returns (found: Option<Observation>)
      requires Valid()
      modifies this`log
      ensures Valid()
      ensures log == old(log) + [match found
                                 case None => Answered(Inspection, false)
                                 case Some(o) => if o == IdentityHealthy then Confirmed else Inspected(o)]
      ensures Now() == old(Now()).(confirmed := found == Some(IdentityHealthy))
      ensures found.Some? ==> FromInspection(found.value)
    {
      var possible: bool := *;
      if !possible {
        Record(Answered(Inspection, false));
        return None;
      }
      var observation: Observation :| FromInspection(observation);
      Record(if observation == IdentityHealthy then Confirmed else Inspected(observation));
      return Some(observation);
    }

    /** Learning that a held child has exited reaps it. */
    method TryWait(child: nat) returns (status: Status)
      requires Valid() && Now().held == Some(child) && !Now().killed
      modifies this`log
      ensures Valid()
      ensures match status
              case Exited =>
                && log == old(log) + [Reaped(child)]
                && Now() == old(Now()).(held := None, killed := false, confirmed := false)
              case Running => log == old(log) + [StillRunning(child)] && Now() == old(Now()).(confirmed := false)
              case Unknown => log == old(log)
    {
      status := *;
      match status {
        case Exited => Record(Reaped(child));
        case Running => Record(StillRunning(child));
        case Unknown =>
      }
    }

    /** A child that does not answer the kill and the wait is given up. */
    method KillAndWait(child: nat) returns (waited: bool)
      requires Valid() && Now().held == Some(child) && !Now().killed
      modifies this`log
      ensures Valid()
      ensures log == old(log) + [Killed(child), if waited then Reaped(child) else Dropped(child, FailedWait)]
      ensures var s := old(Now());
              Now() == s.(held := None, killed := false, confirmed := false,
                          waitFaults := s.waitFaults + if waited then 0 else 1)
    {
      hide Replay;
      Record(Killed(child));
      waited := *;
      if waited {
        Record(Reaped(child));
      } else {
        Record(Dropped(child, FailedWait));
      }
    }

    // ----- starting -----

    /** One look at the claimed process, and what comes of it. No answer means that another look is due. */
    method InspectOnce(machine: Supervisor)
      returns (answer: Option<Result<Preparation, Error>>, ghost found: Option<Observation>)
      requires Valid() && machine.Valid() && machine.recoveryThreshold == 3 && machine.consecutiveFailures < 3
      modifies this`log, machine
      ensures Valid() && machine.Valid()
      ensures Now() == old(Now()).(confirmed := answer == Some(Ok(Healthy)))
      ensures match found
              case None => log == old(log) + [Answered(Inspection, false)] && answer == Some(Err(PreparationFailed))
              case Some(o) =>
                && FromInspection(o)
                && if o == IdentityHealthy then log == old(log) + [Confirmed] && answer == Some(Ok(Healthy))
                   else if o == Observation.IdentityUnavailable
                           || (o == AuthenticatedIdentityMismatch && old(machine.consecutiveFailures) < 2) then
                     && log == old(log) + [Inspected(o)] && answer == None
                     && machine.consecutiveFailures == old(machine.consecutiveFailures) + 1
                   else
                     && log == old(log) + [Inspected(o), Answered(Reconciliation, answer == Some(Ok(ReadyToStart)))]
                     && (answer == Some(Ok(ReadyToStart)) || answer == Some(Err(PreparationFailed)))
    {
      hide Replay, Step;
      var inspected := Inspect();
      found := inspected;
      if inspected == None {
        return Some(Err(PreparationFailed)), found;
      }
      if inspected.value == IdentityHealthy {
        return Some(Ok(Healthy)), found;
      }
      var action := machine.Observe(inspected.value);
      if action == Hold {
        return None, found;
      }
      var reconciled := Ask(Reconciliation);
      return Some(if reconciled then Ok(ReadyToStart) else Err(PreparationFailed)), found;
    }

    /** Up to three looks at the process that claims the port. */
    method InspectRounds()
      returns (r: Result<Preparation, Error>, ghost seen: seq<Observation>)
      requires Valid()
      modifies this`log
      ensures Valid() && |seen| <= 3 && old(log) < log && |old(log)| + |seen| <= |log|
      ensures Now() == old(Now()).(confirmed := r == Ok(Healthy))
      ensures forall i :: 0 <= i < |seen| ==>
                log[|old(log)| + i] == if seen[i] == IdentityHealthy then Confirmed else Inspected(seen[i])
      ensures forall i :: 0 <= i < |seen| - 1 ==> Holding(seen[i])
      ensures match log[|log| - 1]
              case Confirmed => |log| == |old(log)| + |seen| && r == Ok(Healthy)
              case Inspected(o) =>
                && |seen| == 3 && |log| == |old(log)| + 3
                && o == Observation.IdentityUnavailable && r == Err(Error.IdentityUnavailable)
              case Answered(question, yes) =>
                && |log| == |old(log)| + |seen| + 1
                && r == (if yes then Ok(ReadyToStart) else Err(PreparationFailed))
                && if question == Inspection
                   then !yes && |seen| < 3 && forall i :: 0 <= i < |seen| ==> Holding(seen[i])
                   else
                     && question == Reconciliation && seen != []
                     && (|| seen[|seen| - 1] in {ProcessMissing, ProcessIdentityMismatch}
                         || (|seen| == 3 && seen[2] == AuthenticatedIdentityMismatch))
              case _ => false
    {
      hide Replay, Step;
      seen := [];
      var machine := NewSupervisor(ROUNDS);
      for round := 0 to ROUNDS
        invariant Valid() && Now() == old(Now()).(confirmed := old(Now()).confirmed && round == 0)
        invariant machine.Valid() && machine.recoveryThreshold == ROUNDS && machine.consecutiveFailures == round
        invariant |seen| == round && forall i :: 0 <= i < |seen| ==> Holding(seen[i])
        invariant round == ROUNDS ==> seen[ROUNDS - 1] == Observation.IdentityUnavailable
        invariant |log| == |old(log)| + round && old(log) <= log
        invariant forall i :: 0 <= i < |seen| ==> log[|old(log)| + i] == Inspected(seen[i])
      {
        var answer, found := InspectOnce(machine);
        if found.Some? {
          seen := seen + [found.value];
        }
        if answer.Some? {
          return answer.value, seen;
        }
      }
      return Err(Error.IdentityUnavailable), seen;
    }

    /**
     Up to three rounds of inspecting whatever claims the port. Only the third bad
     round in a row, and only one that proved the process to be the wrong one,
     terminates it.
     */
    method PrepareGateway()
      returns (r: Result<Preparation, Error>, ghost seen: seq<Observation>, ghost terminated: bool)
      requires Valid()
      modifies this`log
      ensures Valid() && |seen| <= 3 && old(log) < log
      ensures Now() == old(Now()).(confirmed := r == Ok(Healthy))
      ensures |old(log)| + 1 + |seen| <= |log| && log[|old(log)|] == Answered(ProbeSetup, |log| > |old(log)| + 1)
      ensures forall i :: 0 <= i < |seen| ==>
                log[|old(log)| + 1 + i] == if seen[i] == IdentityHealthy then Confirmed else Inspected(seen[i])
      ensures match log[|log| - 1]
              case Confirmed => |log| == |old(log)| + 1 + |seen| && r == Ok(Healthy)
              case Inspected(o) =>
                && |log| == |old(log)| + 1 + |seen|
                && o == Observation.IdentityUnavailable && r == Err(Error.IdentityUnavailable)
              case Answered(question, yes) =>
                && r == (if yes then Ok(ReadyToStart) else Err(PreparationFailed))
                && (match question
                    case ProbeSetup => !yes && |log| == |old(log)| + 1
                    case Inspection =>
                      && !yes && |log| == |old(log)| + 2 + |seen|
                      && forall i :: 0 <= i < |seen| ==> Holding(seen[i])
                    case Reconciliation =>
                      && |log| == |old(log)| + 2 + |seen|
                      && (terminated || (seen != [] && seen[|seen| - 1] in {ProcessMissing, ProcessIdentityMismatch}))
                    case _ => false)
              case _ => false
      ensures r == Ok(Healthy) <==> seen != [] && seen[|seen| - 1] == IdentityHealthy
      ensures forall i :: 0 <= i < |seen| - 1 ==> Holding(seen[i])
      ensures terminated <==> |seen| == 3 && seen[2] == AuthenticatedIdentityMismatch
      ensures r == Err(Error.IdentityUnavailable) <==> |seen| == 3 && seen[2] == Observation.IdentityUnavailable
      ensures r.Err? ==> r.error in {PreparationFailed, Error.IdentityUnavailable}
      ensures r == Ok(ReadyToStart) && !terminated ==>
                seen != [] && seen[|seen| - 1] in {ProcessMissing, ProcessIdentityMismatch}
    {
      hide Replay, Step;
      var configured := Ask(ProbeSetup);
      if !configured {
        return Err(PreparationFailed), [], false;
      }
      r, seen := InspectRounds();
      terminated := |seen| == 3 && seen[2] == AuthenticatedIdentityMismatch;
    }

    /** The gateway prepared in its turn. */
    method PrepareInOrder(ghost first: nat) returns (r: Result<Preparation, Error>)
      requires Valid()
      modifies this`log
      ensures Valid() && old(log) < log && Asks(log[|old(log)|], ProbeSetup)
      ensures Now() == old(Now()).(confirmed := r == Ok(Healthy))
      ensures Flows(first, |old(log)|, log) && (Unconfirmed(old(log), log) <==> r != Ok(Healthy))
      ensures match r
              case Ok(Healthy) => log[|log| - 1] == Confirmed
              case Ok(ReadyToStart) => log[|log| - 1] == Answered(Reconciliation, true)
              case Err(error) =>
                Ended(log[|log| - 1], Err(error)) && error in {PreparationFailed, Error.IdentityUnavailable}
    {
      hide Replay, Step, Flows, Unconfirmed;
      var prepared, seen, _ := PrepareGateway();
      PreparationFlows(first, old(log), log, seen);
      return prepared;
    }

    method StartSidecar() returns (r: Result<nat, Error>)
      requires Valid() && Now().held == None
      modifies this`log, this`launches
      ensures Valid()
      ensures var s := old(Now());
              match r
              case Ok(child) =>
                && child == s.launches
                && log == old(log) + [Answered(CommandSetup, true), Answered(ProcessLaunch, true), Spawned(child)]
                && Now() == s.(launches := s.launches + 1, held := Some(child), killed := false, confirmed := false)
              case Err(error) =>
                if error == BootstrapFailed then
                  && log == old(log) + [Answered(CommandSetup, true), Answered(ProcessLaunch, true),
                                        Spawned(s.launches), Dropped(s.launches, BootstrapWrite)]
                  && Now() == s.(launches := s.launches + 1, held := None, killed := false, confirmed := false,
                                 bootstrapFaults := s.bootstrapFaults + 1)
                else
                  && Now() == s.(confirmed := false)
                  && (if error == PreparationFailed then log == old(log) + [Answered(CommandSetup, false)]
                      else error == StartFailed
                           && log == old(log) + [Answered(CommandSetup, true), Answered(ProcessLaunch, false)])
    {
      hide Replay;
      var configured := Ask(CommandSetup);
      if !configured {
        return Err(PreparationFailed);
      }
      var launched := Ask(ProcessLaunch);
      if !launched {
        return Err(StartFailed);
      }
      var child := launches;
      launches := launches + 1;
      Record(Spawned(child));
      var bootstrapped: bool := *;
      if !bootstrapped {
        Record(Dropped(child, BootstrapWrite));
        return Err(BootstrapFailed);
      }
      return Ok(child);
    }

    /** The slot holds at most one child: a second one is killed and refused. */
    method RetainChild(child: nat) returns (r: Result<(), Error>)
      requires Valid() && Now().held == Some(child) && !Now().killed && Now().confirmed
      modifies this`log, this`ownedChild
      ensures Valid()
      ensures r == if poisoned || old(ownedChild).Some? then Err(OwnerFailed) else Ok(())
      ensures if r.Ok? then log == old(log) + [Retained(child)] && ownedChild == Some(child)
              else
                && ownedChild == old(ownedChild)
                && (|| log == old(log) + [Killed(child), Reaped(child)]
                    || log == old(log) + [Killed(child), Dropped(child, FailedWait)])
      ensures var s := old(Now());
              Now() == s.(held := None, killed := false, confirmed := false, owned := ownedChild,
                          waitFaults := Now().waitFaults)
      ensures Now().waitFaults == old(Now()).waitFaults + if log[|log| - 1] == Dropped(child, FailedWait) then 1 else 0
    {
      if poisoned || ownedChild.Some? {
        var _ := KillAndWait(child);
        return Err(OwnerFailed);
      }
      ownedChild := Some(child);
      Record(Retained(child));
      return Ok(());
    }

    /** A child that has used up its health checks is killed, unless it turns out to have exited. */
    method PutDown(child: nat)
      requires Valid() && Now().held == Some(child) && !Now().killed
      modifies this`log
      ensures Valid() && old(log) < log
      ensures var gone := log[|log| - 1];
              && (gone == Reaped(child) || gone == Dropped(child, FailedWait))
              && (|| log == old(log) + [Reaped(child)]
                  || log == old(log) + [Killed(child), gone]
                  || log == old(log) + [StillRunning(child), Killed(child), gone])
      ensures var s := old(Now());
              Now() == s.(held := None, killed := false, confirmed := false,
                          waitFaults := s.waitFaults + if log[|log| - 1] == Dropped(child, FailedWait) then 1 else 0)
    {
      hide Replay, Step;
      var status := TryWait(child);
      if status != Exited {
        var _ := KillAndWait(child);
      }
    }

    /**
     Watch a fresh child for up to fifty health checks. One that passes any of them
     while it runs is ready; one that has not by then is killed.
     */
    method AwaitReady(child: nat) returns (verdict: Verdict, ghost failed: nat)
      requires Valid() && Now().held == Some(child) && !Now().killed
      modifies this`log
      ensures Valid() && old(log) < log
      ensures failed <= 50 && KeepsFailing(log, child, |old(log)|, |old(log)| + 2 * failed)
      ensures var ending := log[|old(log)| + 2 * failed..];
              match verdict
              case Ready => failed < 50 && ending == [Confirmed]
              case Unobservable => failed < 50 && ending == [Rejected, Dropped(child, StatusQuery)]
              case GaveUp =>
                var gone := log[|log| - 1];
                if failed < 50 then ending == [Rejected, Reaped(child)]
                else
                  || ending == [Reaped(child)]
                  || ending == [Killed(child), gone]
                  || ending == [StillRunning(child), Killed(child), gone]
      ensures var s := old(Now());
              Now() == match verdict
                       case Ready => s.(confirmed := true)
                       case Unobservable => s.(held := None, confirmed := false, statusFaults := s.statusFaults + 1)
                       case GaveUp =>
                         s.(held := None, confirmed := false,
                            waitFaults := s.waitFaults + if log[|log| - 1] == Dropped(child, FailedWait) then 1 else 0)
      ensures verdict == GaveUp ==> log[|log| - 1] == Reaped(child) || log[|log| - 1] == Dropped(child, FailedWait)
    {
      hide Replay, Step;
      failed := 0;
      for poll := 0 to POLLS
        invariant Valid() && old(log) <= log && |log| == |old(log)| + 2 * poll && failed == poll
        invariant Now() == old(Now()).(confirmed := Now().confirmed)
        invariant KeepsFailing(log, child, |old(log)|, |log|)
      {
        var ok := Verify();
        if ok {
          return Ready, failed;
        }
        var status := TryWait(child);
        if status == Unknown {
          LoseSight(child);
          return Unobservable, failed;
        }
        if status == Exited {
          return GaveUp, failed;
        }
        failed := failed + 1;
      }
      PutDown(child);
      return GaveUp, failed;
    }

    /** A child just started is watched in its turn. */
    method WatchInOrder(child: nat, ghost first: nat) returns (verdict: Verdict)
      requires Valid() && Now().held == Some(child) && !Now().killed
      requires log != [] && log[|log| - 1] == Spawned(child)
      modifies this`log
      ensures Valid() && old(log) < log
      ensures Flows(first, |old(log)| - 1, log) && (Unconfirmed(old(log), log) <==> verdict != Ready)
      ensures var s := old(Now());
              match verdict
              case Ready => log[|log| - 1] == Confirmed && Now() == s.(confirmed := true)
              case Unobservable =>
                && log[|log| - 1] == Dropped(child, StatusQuery)
                && Now() == s.(held := None, confirmed := false, statusFaults := s.statusFaults + 1)
              case GaveUp =>
                if log[|log| - 1] == Dropped(child, FailedWait)
                then Now() == s.(held := None, confirmed := false, waitFaults := s.waitFaults + 1)
                else log[|log| - 1] == Reaped(child) && Now() == s.(held := None, confirmed := false)
    {
      hide Replay, Step, Flows, Unconfirmed;
      var watched, failed := AwaitReady(child);
      WatchFlows(first, old(log), log, child, failed);
      return watched;
    }

    /** A child started in its turn. */
    method StartInOrder(ghost first: nat) returns (r: Result<nat, Error>)
      requires Valid() && Now().held == None
      modifies this`log, this`launches
      ensures Valid() && old(log) < log && Asks(log[|old(log)|], CommandSetup)
      ensures Flows(first, |old(log)|, log) && Unconfirmed(old(log), log)
      ensures var s := old(Now());
              match r
              case Ok(child) =>
                && child == s.launches && log[|log| - 1] == Spawned(child)
                && Now() == s.(launches := s.launches + 1, held := Some(child), killed := false, confirmed := false)
              case Err(error) =>
                && Ended(log[|log| - 1], Err(error))
                && if error == BootstrapFailed then
                     && log[|log| - 1].Dropped?
                     && Now() == s.(launches := s.launches + 1, held := None, killed := false, confirmed := false,
                                    bootstrapFaults := s.bootstrapFaults + 1)
                   else
                     && error in {PreparationFailed, StartFailed} && log[|log| - 1].Answered?
                     && Now() == s.(confirmed := false)
    {
      hide Replay, Step, Flows, Unconfirmed;
      var started := StartSidecar();
      StartFlows(first, old(log), log);
      return started;
    }

    /** A child just confirmed is retained or refused in its turn. */
    method RetainInOrder(child: nat, ghost first: nat, ghost from: nat) returns (r: Result<(), Error>)
      requires Valid() && Now().held == Some(child) && !Now().killed && Now().confirmed
      requires from < |log| && log[|log| - 1] == Confirmed && Flows(first, from, log)
      modifies this`log, this`ownedChild
      ensures Valid() && old(log) < log && Flows(first, from, log)
      ensures r == if poisoned || old(ownedChild).Some? then Err(OwnerFailed) else Ok(())
      ensures var s := old(Now());
              if r.Ok? then
                && log[|log| - 1] == Retained(child) && ownedChild == Some(child)
                && Now() == s.(held := None, confirmed := false, owned := Some(child))
              else
                && ownedChild == old(ownedChild)
                && if log[|log| - 1] == Dropped(child, FailedWait)
                   then Now() == s.(held := None, confirmed := false, waitFaults := s.waitFaults + 1)
                   else log[|log| - 1] == Reaped(child) && Now() == s.(held := None, confirmed := false)
    {
      hide Replay, Step, Flows;
      r := RetainChild(child);
      RefusalFlows(first, from, old(log), log, child);
    }

    /** One child from start to verdict: retained, refused, lost sight of, or given up. */
    method LaunchOnce(ghost first: nat) returns (r: Result<Launch, Error>)
      requires Valid() && Now().held == None
      modifies this
      ensures Valid() && old(log) < log && Now().held == None
      ensures old(launches) <= launches <= old(launches) + 1
      ensures Unconfirmed(old(log), log) <==> r == Ok(Abandoned) || (r.Err? && r.error != OwnerFailed)
      ensures Asks(log[|old(log)|], CommandSetup) && Flows(first, |old(log)|, log)
      ensures match r
              case Ok(Serving) =>
                && ownedChild == Some(old(launches)) && launches == old(launches) + 1 && old(ownedChild) == None
                && log[|log| - 1] == Retained(old(launches))
              case Ok(Abandoned) =>
                && ownedChild == old(ownedChild) && launches == old(launches) + 1
                && log[|log| - 1] in {Reaped(old(launches)), Dropped(old(launches), FailedWait)}
              case Err(error) =>
                && ownedChild == old(ownedChild)
                && error !in {HealthFailed, Error.IdentityUnavailable, RuntimeFailed}
                && Ended(log[|log| - 1], Err(error))
                && (error == OwnerFailed ==> poisoned || ownedChild.Some?)
      ensures Now().bootstrapFaults == old(Now()).bootstrapFaults + if r == Err(BootstrapFailed) then 1 else 0
      ensures Now().statusFaults == old(Now()).statusFaults + if r == Err(SupervisorFailed) then 1 else 0
      ensures Now().waitFaults
              == old(Now()).waitFaults + if log[|log| - 1] == Dropped(old(launches), FailedWait) then 1 else 0
      ensures launches == old(launches) <==> log[|log| - 1].Answered?
    {
      hide Replay, Step, Flows, Unconfirmed;
      var started := StartInOrder(first);
      if started.Err? {
        return Err(started.error);
      }
      var child := started.value;
      ghost var before := log;
      var verdict := WatchInOrder(child, first);
      FlowsChain(first, |old(log)|, before, log);
      UnconfirmedChain(old(log), before, log);
      match verdict {
        case Ready =>
          before := log;
          var retained := RetainInOrder(child, first, |old(log)|);
          UnconfirmedChain(old(log), before, log);
          return if retained.Ok? then Ok(Serving) else Err(retained.error);
        case Unobservable => return Err(SupervisorFailed);
        case GaveUp => return Ok(Abandoned);
      }
    }

    /** The log and state after `rounds` children were given up, and another may be started. */
    ghost predicate GivenUp(log0: seq<Event>, s0: State, rounds: nat)
      reads this
      requires Valid()
    {
      var s := Now();
      && log0 < log && Unconfirmed(log0, log) && Asks(log[|log0|], RuntimeBuild)
      && log[|log| - 1] == Answered(Reconciliation, true)
      && Flows(s0.launches, |log0|, log)
      && s.held == None && s.owned == s0.owned && s.launches == s0.launches + rounds
      && s.bootstrapFaults == s0.bootstrapFaults && s.statusFaults == s0.statusFaults
      && s0.waitFaults <= s.waitFaults <= s0.waitFaults + rounds
    }

    /**
     How bringing the gateway up can end. The last event decides the answer: Ok
     exactly for a confirmation, or the retention that follows one. Nothing was
     confirmed unless the answer is Ok or the confirmed child could not be retained.
     */
    ghost predicate Outcome(r: Result<(), Error>, log0: seq<Event>, s0: State)
      reads this
      requires Valid()
    {
      var s := Now();
      && log0 < log && s.held == None
      && s0.launches <= s.launches <= s0.launches + 4
      && Asks(log[|log0|], RuntimeBuild) && Flows(s0.launches, |log0|, log) && Ended(log[|log| - 1], r)
      && (r.Ok? <==> Announces(log[|log| - 1]))
      && (Unconfirmed(log0, log) <==> r.Err? && r.error != OwnerFailed)
      && (r == Err(HealthFailed) ==> s.launches == s0.launches + 4)
      && (if log[|log| - 1].Retained?
          then s.owned == Some(s.launches - 1) && s0.launches < s.launches && s0.owned == None
          else s.owned == s0.owned)
      && (r == Err(OwnerFailed) ==> poisoned || s.owned.Some?)
      && s.bootstrapFaults == s0.bootstrapFaults + (if r == Err(BootstrapFailed) then 1 else 0)
      && s.statusFaults == s0.statusFaults + (if r == Err(SupervisorFailed) then 1 else 0)
      && s0.waitFaults <= s.waitFaults <= s0.waitFaults + (s.launches - s0.launches)
    }

    /** The log and state right after one more child was given up. */
    ghost predicate Lost(log0: seq<Event>, s0: State, rounds: nat)
      reads this
      requires Valid()
    {
      var s := Now();
      && log0 < log && Unconfirmed(log0, log) && Asks(log[|log0|], RuntimeBuild)
      && rounds > 0
      && (|| log[|log| - 1] == Reaped(s0.launches + rounds - 1)
          || log[|log| - 1] == Dropped(s0.launches + rounds - 1, FailedWait))
      && Flows(s0.launches, |log0|, log)
      && s.held == None && s.owned == s0.owned && s.launches == s0.launches + rounds
      && s.bootstrapFaults == s0.bootstrapFaults && s.statusFaults == s0.statusFaults
      && s0.waitFaults <= s.waitFaults <= s0.waitFaults + rounds
    }

    /** One more round: the final answer, or nothing if the child was given up and another may be started. */
    method OneRound(failures: nat, ghost log0: seq<Event>, ghost s0: State) returns (answer: Option<Result<(), Error>>)
      requires Valid() && 1 <= failures <= 4 && GivenUp(log0, s0, failures - 1)
      modifies this
      ensures Valid()
      ensures if answer.Some? then Outcome(answer.value, log0, s0)
              else failures <= 3 && GivenUp(log0, s0, failures)
    {
      hide Replay, Step, Unconfirmed, Orderly, Flows;
      ghost var mid := log;
      var launched := LaunchOnce(s0.launches);
      UnconfirmedChain(log0, mid, log);
      FlowsJoin(s0.launches, |log0|, mid, log);
      if launched.Err? {
        return Some(Err(launched.error));
      }
      if launched.value == Serving {
        return Some(Ok(()));
      }
      answer := Retry(failures, log0, s0);
    }

    /** Wait and look again after a child was given up, unless it was the fourth. */
    method Retry(failures: nat, ghost log0: seq<Event>, ghost s0: State) returns (answer: Option<Result<(), Error>>)
      requires Valid() && 1 <= failures <= 4 && Lost(log0, s0, failures)
      modifies this`log
      ensures Valid()
      ensures if answer.Some? then Outcome(answer.value, log0, s0)
              else failures <= 3 && GivenUp(log0, s0, failures)
    {
      hide Replay, Step, Backoff, Unconfirmed, Orderly, Flows, RestartDecision;
      var jitter: nat := *;
      LauncherDelays(failures, jitter);
      var decision := RestartDecision(failures, MAX_RESTARTS, INITIAL_BACKOFF, MAX_BACKOFF, jitter);
      if decision == Failed {
        return Some(Err(HealthFailed));
      }
      ghost var before := log;
      Note(Paused(decision.delay));
      ghost var mid := log;
      var again := PrepareInOrder(s0.launches);
      RetryFlows(s0.launches, log0, before, mid, log);
      if again.Err? {
        return Some(Err(again.error));
      }
      return if again.value == Healthy then Some(Ok(())) else None;
    }

    /**
     Bring the gateway up: at most four children, one at a time, and on return no
     handle is left over.
     */
    method EnsureReady() returns (r: Result<(), Error>)
      requires Valid() && Now().held == None
      modifies this
      ensures Valid() && Outcome(r, old(log), old(Now()))
    {
      hide Replay, Step, Orderly;
      ghost var log0, s0 := log, Now();
      var runtimeBuilt := Ask(RuntimeBuild);
      if !runtimeBuilt {
        return Err(RuntimeFailed);
      }
      ghost var mid := log;
      var prepared := PrepareInOrder(s0.launches);
      UnconfirmedChain(log0, mid, log);
      FlowsJoin(s0.launches, |log0|, mid, log);
      if prepared.Err? {
        return Err(prepared.error);
      }
      if prepared.value == Healthy {
        return Ok(());
      }
      for failures := 1 to MAX_RESTARTS + 2
        invariant Valid() && failures <= MAX_RESTARTS + 1 && GivenUp(log0, s0, failures - 1)
      {
        var answer := OneRound(failures, log0, s0);
        if answer.Some? {
          return answer.value;
        }
      }
      return Err(HealthFailed);
    }

    /**
     Take the child out of its slot and make sure it is gone. Unless the lock is
     poisoned nothing is owned afterwards; Ok then means that it was waited for.
     */
    method StopOwnedChild() returns (r: Result<(), Error>, ghost polls: nat)
      requires Valid() && Now().held == None
      modifies this`log, this`ownedChild
      ensures Valid() && old(log) <= log && Now().held == None
      ensures poisoned ==> r == Err(OwnerFailed) && ownedChild == old(ownedChild) && log == old(log)
      ensures !poisoned ==> ownedChild == None
      ensures !poisoned ==>
                match old(ownedChild)
                case None => r == Ok(()) && log == old(log)
                case Some(child) =>
                  && |old(log)| + 1 + polls <= |log| && log[|old(log)|] == Released(child)
                  && (forall i :: |old(log)| < i <= |old(log)| + polls ==> log[i] == StillRunning(child))
                  && var ending := log[|old(log)| + 1 + polls..];
                     if r.Ok? then ending in {[Reaped(child)], [Killed(child), Reaped(child)]}
                     else
                       && r.error == OwnerFailed
                       && ending in {[Dropped(child, StatusQuery)], [Killed(child), Dropped(child, FailedWait)]}
      ensures !poisoned ==>
                var s := old(Now());
                r.Ok? <==> Now().statusFaults == s.statusFaults && Now().waitFaults == s.waitFaults
      ensures !poisoned && r.Ok? && old(ownedChild).Some? ==> log[|log| - 1] == Reaped(old(ownedChild).value)
      ensures Now().bootstrapFaults == old(Now()).bootstrapFaults
      ensures old(Now()).statusFaults <= Now().statusFaults && old(Now()).waitFaults <= Now().waitFaults
    {
      hide Replay, Step;
      polls := 0;
      if poisoned {
        return Err(OwnerFailed), polls;
      }
      if ownedChild == None {
        return Ok(()), polls;
      }
      var child := ownedChild.value;
      Release(child);
      var pollsBeforeDeadline: nat :| true;
      for poll := 0 to pollsBeforeDeadline
        invariant Valid() && old(log) <= log && |log| == |old(log)| + 1 + poll && polls == poll
        invariant log[|old(log)|] == Released(child)
        invariant forall i :: |old(log)| < i < |log| ==> log[i] == StillRunning(child)
        invariant Now() == old(Now()).(held := Some(child), owned := None, killed := false, confirmed := false)
      {
        var status := TryWait(child);
        if status == Unknown {
          LoseSight(child);
          return Err(OwnerFailed), polls;
        }
        if status == Exited {
          return Ok(()), polls;
        }
        polls := polls + 1;
      }
      var waited := KillAndWait(child);
      if !waited {
        return Err(OwnerFailed), polls;
      }
      return Ok(()), polls;
    }
  }
}
