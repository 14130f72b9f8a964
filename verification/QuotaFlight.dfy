/**
 Refreshing the quota of a local language server. Any number of callers run at once;
 one at a time may query, the others fall back on a cached answer. Each step below is
 one access to the shared lock or cache, and steps of different callers interleave
 freely.
 */
module QuotaFlight {
  import opened Options

  datatype Error = PortMissing | ScanFailed | InProgress | LockPoisoned | QueryFailed

  datatype Response = Response(
    ok: bool, models: seq<string>, description: Option<string>, groups: seq<string>, error: Option<Error>)

  datatype Process = Process(pid: nat, token: string)

  datatype Entry = Entry(process: Process, port: nat, response: Response)

  // ----- querying one server -----

  datatype Summary = Summary(description: Option<string>, groups: seq<string>)

  /** What a server says to the two questions it is asked; either may fail. */
  datatype Reply = Reply(summary: Option<Summary>, models: Option<seq<string>>)

  type Server = (nat, string) -> Reply

  function Refusal(e: Error): (r: Response)
    ensures !r.ok && r.models == [] && r.description == None && r.groups == [] && r.error == Some(e)
  {
    Response(false, [], None, [], Some(e))
  }

  /** One answer is enough; whatever the other question would have filled stays empty. */
  function Combined(reply: Reply): (r: Option<Response>)
    ensures r.None? <==> reply.summary.None? && reply.models.None?
    ensures r.Some? ==>
              && r.value.ok && r.value.error == None
              && r.value.models == (if reply.models.Some? then reply.models.value else [])
              && r.value.description == (if reply.summary.Some? then reply.summary.value.description else None)
              && r.value.groups == (if reply.summary.Some? then reply.summary.value.groups else [])
  {
    match reply
    case Reply(None, None) => None
    case Reply(None, Some(models)) => Some(Response(true, models, None, [], None))
    case Reply(Some(summary), models) =>
      Some(Response(true, if models.Some? then models.value else [], summary.description, summary.groups, None))
  }

  /** The first port that answers, and its answer. */
  method QueryPortsForQuota(ports: seq<nat>, token: string, server: Server) returns (hit: Option<(nat, Response)>)
    ensures hit == None <==> forall i :: 0 <= i < |ports| ==> Combined(server(ports[i], token)) == None
    ensures hit.Some? ==>
              exists i :: 0 <= i < |ports| && hit.value.0 == ports[i]
                && Combined(server(ports[i], token)) == Some(hit.value.1)
                && forall j :: 0 <= j < i ==> Combined(server(ports[j], token)) == None
  {
    for i := 0 to |ports|
      invariant forall j :: 0 <= j < i ==> Combined(server(ports[j], token)) == None
    {
      var answer := Combined(server(ports[i], token));
      if answer.Some? {
        return Some((ports[i], answer.value));
      }
    }
    return None;
  }

  // ----- callers and shared state -----

  /** What a caller asked for: the configured port and the processes it found. */
  datatype Request = Request(port: Option<nat>, processes: seq<Process>)

  datatype Phase =
    | Scanning
    | Ready
    | Blocked
    | Querying(asked: nat)
    | Storing(at: nat, answer: Response)
    | Returning(response: Response)
    | Done(response: Response)
    | Crashed

  datatype Caller = Caller(request: Request, phase: Phase)

  /** One query that was sent, and what came back. */
  datatype Ask = Ask(caller: nat, process: Process, port: nat, answer: Option<Response>)

  datatype State = State(
    callers: map<nat, Caller>, lock: Option<nat>, poisoned: bool, cache: Option<Entry>, log: seq<Ask>)

  datatype Step =
    | Begin(caller: nat, port: Option<nat>)
    | Scan(caller: nat, found: Option<seq<Process>>)
    | TryLock(caller: nat)
    | ReadCache(caller: nat)
    | Query(caller: nat, reply: Reply)
    | Store(caller: nat)
    | GiveUp(caller: nat)
    | Release(caller: nat)
    | Panic(caller: nat)

  const START := State(map[], None, false, None, [])

  predicate Holding(phase: Phase) {
    phase.Querying? || phase.Storing? || phase.Returning?
  }

  /** Still to query, or with an answer still to store. */
  predicate Asking(phase: Phase) {
    phase.Querying? || phase.Storing?
  }

  predicate CacheMatches(processes: seq<Process>, port: nat, entry: Entry) {
    entry.port == port && exists p :: p in processes && p == entry.process
  }

  function SingleFlightResponse(entry: Option<Entry>): Response {
    if entry.Some? then entry.value.response else Refusal(InProgress)
  }

  function At(s: State, c: nat, phase: Phase): State
    requires c in s.callers
  {
    s.(callers := s.callers[c := s.callers[c].(phase := phase)])
  }

  /** Steps that are not possible leave the state as it is. */
  function Next(s: State, step: Step): State {
    var c := step.caller;
    if step.Begin? then
      if c in s.callers then s
      else if step.port.None? then
        s.(callers := s.callers[c := Caller(Request(None, []), Done(Refusal(PortMissing)))], cache := None)
      else s.(callers := s.callers[c := Caller(Request(step.port, []), Scanning)])
    else if c !in s.callers then s
    else
      var caller := s.callers[c];
      match (step, caller.phase)
      case (Scan(_, found), Scanning) =>
        if found.None? then At(s, c, Done(Refusal(ScanFailed))).(cache := None)
        else s.(callers := s.callers[c := Caller(caller.request.(processes := found.value), Ready)])
      case (TryLock(_), Ready) =>
        if s.lock.Some? then At(s, c, Blocked)
        else if s.poisoned then At(s, c, Returning(Refusal(LockPoisoned))).(lock := Some(c))
        else At(s, c, Querying(0)).(lock := Some(c))
      case (ReadCache(_), Blocked) =>
        var matching := if s.cache.Some? && caller.request.port.Some?
                           && CacheMatches(caller.request.processes, caller.request.port.value, s.cache.value)
                        then s.cache else None;
        At(s, c, Done(SingleFlightResponse(matching)))
      case (Query(_, reply), Querying(asked)) =>
        if asked < |caller.request.processes| && caller.request.port.Some? then
          var answer := Combined(reply);
          var ask := Ask(c, caller.request.processes[asked], caller.request.port.value, answer);
          At(s, c, if answer.Some? then Storing(asked, answer.value) else Querying(asked + 1)).(log := s.log + [ask])
        else s
      case (Store(_), Storing(at, answer)) =>
        if at < |caller.request.processes| && caller.request.port.Some? then
          At(s, c, Returning(answer)).(
            cache := Some(Entry(caller.request.processes[at], caller.request.port.value, answer)))
        else s
      case (GiveUp(_), Querying(asked)) =>
        if asked == |caller.request.processes| then At(s, c, Returning(Refusal(QueryFailed))).(cache := None) else s
      case (Release(_), Returning(response)) => At(s, c, Done(response)).(lock := None)
      case (Panic(_), _) =>
        if Holding(caller.phase) then At(s, c, Crashed).(lock := None, poisoned := true) else s
      case _ => s
  }

  function Run(s: State, steps: seq<Step>): State {
    if steps == [] then s else Next(Run(s, steps[..|steps| - 1]), steps[|steps| - 1])
  }

  // ----- what every reachable state satisfies -----

  /** Exactly the lock's owner is between acquiring and releasing it. */
  ghost predicate LockOwned(s: State) {
    && (forall c :: c in s.callers ==> (Holding(s.callers[c].phase) <==> s.lock == Some(c)))
    && (s.lock.Some? ==> s.lock.value in s.callers)
  }

  /** A crash under the lock has poisoned it, and nobody queries under a poisoned lock. */
  ghost predicate CrashNoticed(s: State) {
    && (s.poisoned ==> forall c :: c in s.callers ==> !Asking(s.callers[c].phase))
    && (forall c :: c in s.callers && s.callers[c].phase.Crashed? ==> s.poisoned)
  }

  ghost predicate LockHeld(s: State) {
    LockOwned(s) && CrashNoticed(s)
  }

  /** A query goes to the port and to a process of the caller's own request. */
  ghost predicate OwnAsk(s: State, a: Ask) {
    && a.caller in s.callers
    && s.callers[a.caller].request.port == Some(a.port) && a.process in s.callers[a.caller].request.processes
    && (a.answer.Some? ==> a.answer.value.ok)
  }

  ghost predicate Asked(log: seq<Ask>, a: Ask) {
    a in log
  }

  /** Some query to the configured port, with a process the caller itself has found, produced this answer. */
  ghost predicate Genuine(log: seq<Ask>, request: Request, response: Response) {
    exists a :: Asked(log, a) && request.port == Some(a.port) && a.process in request.processes
      && a.answer == Some(response)
  }

  ghost predicate AllFailed(log: seq<Ask>, c: nat, request: Request, count: nat) {
    request.port.Some? && count <= |request.processes|
    && forall i :: 0 <= i < count ==> Asked(log, Ask(c, request.processes[i], request.port.value, None))
  }

  ghost predicate Justified(log: seq<Ask>, c: nat, request: Request, response: Response) {
    && (response.ok ==> response.error == None && Genuine(log, request, response))
    && (!response.ok ==> response.error.Some? && response == Refusal(response.error.value))
    && (response.error == Some(PortMissing) <==> request.port == None)
    && (response.error == Some(QueryFailed) ==> AllFailed(log, c, request, |request.processes|))
  }

  ghost predicate CallerInOrder(log: seq<Ask>, c: nat, caller: Caller) {
    match caller.phase
    case Querying(asked) => AllFailed(log, c, caller.request, asked)
    case Storing(at, answer) =>
      && AllFailed(log, c, caller.request, at) && at < |caller.request.processes|
      && answer.ok && answer.error == None
      && log != []
      && log[|log| - 1] == Ask(c, caller.request.processes[at], caller.request.port.value, Some(answer))
    case Returning(response) => caller.request.port.Some? && Justified(log, c, caller.request, response)
    case Done(response) => Justified(log, c, caller.request, response)
    case Scanning => caller.request.port.Some? && caller.request.processes == []
    case Crashed => true
    case _ => caller.request.port.Some?
  }

  /** The caller of the very last query has yet to store the answer, or has crashed. */
  ghost predicate Unstored(s: State) {
    s.log != [] && s.log[|s.log| - 1].caller in s.callers
    && var phase := s.callers[s.log[|s.log| - 1].caller].phase; phase.Storing? || phase.Crashed?
  }

  ghost predicate AnswerAt(log: seq<Ask>, k: nat, e: Entry) {
    k < |log| && log[k].process == e.process && log[k].port == e.port && log[k].answer == Some(e.response)
  }

  /** No answer came in after `k`, except perhaps to the very last query, if that was not stored. */
  ghost predicate NewestIs(log: seq<Ask>, k: nat, unstored: bool) {
    forall j :: k < j < |log| && log[j].answer.Some? ==> unstored && j == |log| - 1
  }

  /**
   The cache holds an answer that was given for its recorded process and port; and the
   only newer one is that of a caller which is about to store it or has crashed.
   */
  ghost predicate CacheIsGenuine(s: State) {
    s.cache.Some? ==>
      && s.cache.value.response.ok && s.cache.value.response.error == None
      && exists k: nat :: AnswerAt(s.log, k, s.cache.value) && NewestIs(s.log, k, Unstored(s))
  }

  ghost predicate Inv(s: State) {
    && LockHeld(s)
    && (forall a :: a in s.log ==> OwnAsk(s, a))
    && (forall c :: c in s.callers ==> CallerInOrder(s.log, c, s.callers[c]))
    && CacheIsGenuine(s)
  }

  lemma OwnedStep(s: State, step: Step)
    requires LockOwned(s)
    ensures LockOwned(Next(s, step))
  {
    hide Combined, CacheMatches, SingleFlightResponse;
  }

  lemma NoticedStep(s: State, step: Step)
    requires LockHeld(s)
    ensures CrashNoticed(Next(s, step))
  {
    hide Combined, CacheMatches, SingleFlightResponse;
  }

  lemma LockStep(s: State, step: Step)
    requires LockHeld(s)
    ensures LockHeld(Next(s, step))
  {
    hide Next, LockOwned, CrashNoticed;
    OwnedStep(s, step);
    NoticedStep(s, step);
  }

  lemma AskStep(s: State, step: Step)
    requires Inv(s)
    ensures forall a :: a in Next(s, step).log ==> OwnAsk(Next(s, step), a)
  {
    hide CacheIsGenuine, LockHeld, Justified, Combined;
    var now := Next(s, step);
    forall a | a in now.log ensures OwnAsk(now, a) {
      if a in s.log {
        assert OwnAsk(s, a);
      }
    }
  }

  lemma JustifiedGrows(log: seq<Ask>, more: seq<Ask>, c: nat, request: Request, response: Response, count: nat)
    requires log <= more
    ensures Justified(log, c, request, response) ==> Justified(more, c, request, response)
    ensures AllFailed(log, c, request, count) ==> AllFailed(more, c, request, count)
  {
    assert forall a :: Asked(log, a) ==> Asked(more, a);
    if Genuine(log, request, response) {
      var a :| Asked(log, a) && request.port == Some(a.port) && a.process in request.processes
        && a.answer == Some(response);
      assert Asked(more, a);
    }
  }

  lemma OrderStep(s: State, step: Step, c: nat)
    requires Inv(s) && c in Next(s, step).callers
    ensures CallerInOrder(Next(s, step).log, c, Next(s, step).callers[c])
  {
    hide CacheIsGenuine;
    if c != step.caller {
      OtherCaller(s, step, c);
    } else if c in s.callers {
      OwnStep(s, step);
    }
  }

  lemma OtherCaller(s: State, step: Step, c: nat)
    requires Inv(s) && c in s.callers && c != step.caller
    ensures c in Next(s, step).callers && CallerInOrder(Next(s, step).log, c, Next(s, step).callers[c])
  {
    hide CacheIsGenuine, Justified, AllFailed;
    var now := Next(s, step);
    assert now.callers[c] == s.callers[c] && s.log <= now.log;
    match s.callers[c].phase {
      case Querying(asked) => JustifiedGrows(s.log, now.log, c, s.callers[c].request, Refusal(InProgress), asked);
      case Storing(at, answer) => assert now.log == s.log;
      case Returning(r) => JustifiedGrows(s.log, now.log, c, s.callers[c].request, r, 0);
      case Done(r) => JustifiedGrows(s.log, now.log, c, s.callers[c].request, r, 0);
      case _ =>
    }
  }

  lemma SharedIsGenuine(s: State, request: Request)
    requires Inv(s) && s.cache.Some?
    requires request.port == Some(s.cache.value.port) && s.cache.value.process in request.processes
    ensures Genuine(s.log, request, s.cache.value.response)
  {
    var k: nat :| AnswerAt(s.log, k, s.cache.value);
    assert Asked(s.log, s.log[k]);
  }

  lemma OneMoreFailed(log: seq<Ask>, c: nat, request: Request, count: nat)
    requires AllFailed(log, c, request, count) && count < |request.processes|
    ensures AllFailed(log + [Ask(c, request.processes[count], request.port.value, None)], c, request, count + 1)
  {
    var more := log + [Ask(c, request.processes[count], request.port.value, None)];
    forall i | 0 <= i < count + 1 ensures Asked(more, Ask(c, request.processes[i], request.port.value, None)) {
      assert i < count ==> Asked(log, Ask(c, request.processes[i], request.port.value, None));
      assert i == count ==> more[|log|] == Ask(c, request.processes[i], request.port.value, None);
    }
  }

  lemma LastIsGenuine(log: seq<Ask>, request: Request)
    requires log != [] && log[|log| - 1].answer.Some?
    requires request.port == Some(log[|log| - 1].port) && log[|log| - 1].process in request.processes
    ensures Genuine(log, request, log[|log| - 1].answer.value)
  {
    assert Asked(log, log[|log| - 1]);
  }

  lemma OwnStep(s: State, step: Step)
    requires Inv(s) && step.caller in s.callers
    ensures CallerInOrder(Next(s, step).log, step.caller, Next(s, step).callers[step.caller])
  {
    hide CacheIsGenuine, LockHeld, Combined, AllFailed, Genuine;
    var c := step.caller;
    var caller := s.callers[c];
    var request := caller.request;
    assert CallerInOrder(s.log, c, caller);
    match (step, caller.phase)
    case (TryLock(_), Ready) => NoneFailed(s.log, c, request);
    case (ReadCache(_), Blocked) =>
      if s.cache.Some? && CacheMatches(request.processes, request.port.value, s.cache.value) {
        SharedIsGenuine(s, request);
        CachedIsOk(s);
      }
    case (Query(_, reply), Querying(asked)) =>
      FailedAreSome(s.log, c, request, asked);
      if asked < |request.processes| {
        if Combined(reply).None? {
          OneMoreFailed(s.log, c, request, asked);
        } else {
          var ask := Ask(c, request.processes[asked], request.port.value, Combined(reply));
          JustifiedGrows(s.log, s.log + [ask], c, request, Refusal(InProgress), asked);
        }
      }
    case (Store(_), Storing(at, answer)) =>
      FailedAreSome(s.log, c, request, at);
      LastIsGenuine(s.log, request);
    case (GiveUp(_), Querying(asked)) => FailedAreSome(s.log, c, request, asked);
    case _ =>
  }

  lemma NoneFailed(log: seq<Ask>, c: nat, request: Request)
    requires request.port.Some?
    ensures AllFailed(log, c, request, 0)
  {
  }

  lemma FailedAreSome(log: seq<Ask>, c: nat, request: Request, count: nat)
    requires AllFailed(log, c, request, count)
    ensures request.port.Some? && count <= |request.processes|
  {
  }

  lemma CachedIsOk(s: State)
    requires CacheIsGenuine(s) && s.cache.Some?
    ensures s.cache.value.response.ok && s.cache.value.response.error == None
  {
  }

  predicate Stores(s: State, step: Step) {
    step.Store? && step.caller in s.callers && s.callers[step.caller].phase.Storing?
  }

  /** Only storing the answer ends the wait for it to be stored. */
  lemma StillUnstored(s: State, step: Step)
    requires LockHeld(s) && !Stores(s, step) && Next(s, step).log == s.log
    ensures Unstored(s) ==> Unstored(Next(s, step))
  {
  }

  /** Only a caller with nothing to store queries, and its answer is then waiting to be stored. */
  lemma AnswerComesIn(s: State, step: Step)
    requires LockHeld(s) && Next(s, step).log != s.log
    ensures !Unstored(s) && Next(s, step).cache == s.cache
    ensures s.log <= Next(s, step).log && |Next(s, step).log| == |s.log| + 1
    ensures Next(s, step).log[|s.log|].answer.Some? ==> Unstored(Next(s, step))
  {
  }

  lemma StoreStep(s: State, step: Step)
    requires Inv(s) && Stores(s, step)
    ensures CacheIsGenuine(Next(s, step))
  {
    hide AllFailed, Justified, CacheIsGenuine, Combined;
    var c := step.caller;
    assert CallerInOrder(s.log, c, s.callers[c]);
    FailedAreSome(s.log, c, s.callers[c].request, s.callers[c].phase.at);
    var now := Next(s, step);
    assert AnswerAt(s.log, |s.log| - 1, now.cache.value);
    CacheWitness(now, |s.log| - 1);
  }

  lemma CacheWitness(s: State, k: nat)
    requires s.cache.Some? && s.cache.value.response.ok && s.cache.value.response.error == None
    requires AnswerAt(s.log, k, s.cache.value) && NewestIs(s.log, k, Unstored(s))
    ensures CacheIsGenuine(s)
  {
  }

  lemma NewestGrows(log: seq<Ask>, more: seq<Ask>, k: nat, e: Entry, unstored: bool)
    requires AnswerAt(log, k, e) && log <= more && |more| == |log| + 1
    requires more[|log|].answer.Some? ==> unstored
    ensures AnswerAt(more, k, e)
    ensures NewestIs(log, k, false) ==> NewestIs(more, k, unstored)
  {
  }

  lemma CacheKept(s: State, step: Step)
    requires LockHeld(s) && !Stores(s, step)
    ensures Next(s, step).cache in {s.cache, None}
  {
  }

  lemma CacheStep(s: State, step: Step)
    requires Inv(s)
    ensures CacheIsGenuine(Next(s, step))
  {
    hide Next, Justified, AllFailed, AnswerAt, LockHeld, CallerInOrder, OwnAsk, Unstored;
    var now := Next(s, step);
    if Stores(s, step) {
      StoreStep(s, step);
    } else {
      CacheKept(s, step);
      if now.cache.Some? {
        var k: nat :| AnswerAt(s.log, k, s.cache.value) && NewestIs(s.log, k, Unstored(s));
        if now.log == s.log {
          StillUnstored(s, step);
        } else {
          AnswerComesIn(s, step);
          NewestGrows(s.log, now.log, k, s.cache.value, Unstored(now));
        }
        CacheWitness(now, k);
      }
    }
  }

  lemma StepKeepsInv(s: State, step: Step)
    requires Inv(s)
    ensures Inv(Next(s, step))
  {
    hide Next, LockHeld, OwnAsk, CallerInOrder, CacheIsGenuine;
    LockStep(s, step);
    AskStep(s, step);
    CacheStep(s, step);
    forall c | c in Next(s, step).callers ensures CallerInOrder(Next(s, step).log, c, Next(s, step).callers[c]) {
      OrderStep(s, step, c);
    }
  }

  /** Whatever the callers do and however their steps interleave, the invariant holds. */
  lemma {:induction false} RunKeepsInv(steps: seq<Step>)
    ensures Inv(Run(START, steps))
  {
    hide Next;
    if steps != [] {
      RunKeepsInv(steps[..|steps| - 1]);
      StepKeepsInv(Run(START, steps[..|steps| - 1]), steps[|steps| - 1]);
    }
  }

  // ----- what this means for callers -----

  /** At any moment at most one caller is querying or has an answer to store, and it owns the lock. */
  lemma OneQuerierAtATime(steps: seq<Step>, c: nat, d: nat)
    requires var s := Run(START, steps);
             c in s.callers && d in s.callers && Asking(s.callers[c].phase) && Asking(s.callers[d].phase)
    ensures c == d && Run(START, steps).lock == Some(c)
  {
    hide Run, CacheIsGenuine, CallerInOrder, OwnAsk;
    RunKeepsInv(steps);
  }

  /**
   An ok answer, one's own or a shared one, was produced by a query to the caller's
   own configured port with a token the caller itself observed. The only other answers
   are refusals: a missing port, and nothing else, for callers without one; a failed
   query only after every process found was asked in vain.
   */
  lemma AnswersAreGenuine(steps: seq<Step>, c: nat)
    requires var s := Run(START, steps); c in s.callers && s.callers[c].phase.Done?
    ensures var s := Run(START, steps);
            Justified(s.log, c, s.callers[c].request, s.callers[c].phase.response)
  {
    hide Run, CacheIsGenuine, LockHeld, OwnAsk;
    RunKeepsInv(steps);
    var s := Run(START, steps);
    assert CallerInOrder(s.log, c, s.callers[c]);
  }

  /**
   A caller that lost the race is refused iff the cache has nothing for its port and
   processes. Otherwise it gets the answer of the newest query that has been answered
   and stored: no other has been answered since, except perhaps the very last one, by a
   caller that is about to store the answer or crashed before it could.
   */
  lemma LoserGetsNewest(steps: seq<Step>, c: nat)
    requires var s := Run(START, steps); c in s.callers && s.callers[c].phase.Blocked?
    ensures var s, now := Run(START, steps), Next(Run(START, steps), ReadCache(c));
            && now.callers[c].phase.Done?
            && var response := now.callers[c].phase.response;
            if s.cache.Some? && Some(s.cache.value.port) == s.callers[c].request.port
               && exists p :: p in s.callers[c].request.processes
                    && p.pid == s.cache.value.process.pid && p.token == s.cache.value.process.token
            then (exists k: nat ::
                    && k < |s.log| && s.log[k].answer == Some(response) && response.ok
                    && s.callers[c].request.port == Some(s.log[k].port)
                    && s.log[k].process in s.callers[c].request.processes
                    && NewestIs(s.log, k, Unstored(s)))
            else response == Response(false, [], None, [], Some(InProgress))
  {
    hide Run, LockHeld, OwnAsk, Justified, Next;
    RunKeepsInv(steps);
    var s := Run(START, steps);
    assert CallerInOrder(s.log, c, s.callers[c]);
    Sharing(s, c);
    if s.cache.Some? {
      var k: nat :| AnswerAt(s.log, k, s.cache.value) && NewestIs(s.log, k, Unstored(s));
      assert s.log[k].answer == Some(s.cache.value.response);
      forall p | p in s.callers[c].request.processes
        && p.pid == s.cache.value.process.pid && p.token == s.cache.value.process.token
        ensures p == s.log[k].process
      {
      }
    }
  }

  /** Once a caller has crashed while holding the lock, no query is ever sent again. */
  lemma {:induction false} CrashIsFinal(steps: seq<Step>, more: seq<Step>)
    requires Run(START, steps).poisoned
    ensures Run(Run(START, steps), more).poisoned
    ensures Run(Run(START, steps), more).log == Run(START, steps).log
    ensures LockHeld(Run(Run(START, steps), more))
  {
    var s := Run(START, steps);
    if more == [] {
      RunKeepsInv(steps);
    } else {
      var init, step := more[..|more| - 1], more[|more| - 1];
      CrashIsFinal(steps, init);
      LockStep(Run(s, init), step);
      NoQueryAfterCrash(Run(s, init), step);
    }
  }

  lemma NoQueryAfterCrash(s: State, step: Step)
    requires LockHeld(s) && s.poisoned
    ensures Next(s, step).poisoned && Next(s, step).log == s.log
  {
  }

  // ----- one call from start to finish -----

  lemma RunSnoc(s: State, steps: seq<Step>, step: Step)
    ensures Run(s, steps + [step]) == Next(Run(s, steps), step)
  {
    assert (steps + [step])[..|steps|] == steps;
  }

  ghost predicate FirstAnswer(processes: seq<Process>, port: nat, server: Server, at: nat, response: Response) {
    && at < |processes| && Combined(server(port, processes[at].token)) == Some(response)
    && forall j :: 0 <= j < at ==> Combined(server(port, processes[j].token)) == None
  }

  ghost predicate NoAnswer(processes: seq<Process>, port: nat, server: Server) {
    forall j :: 0 <= j < |processes| ==> Combined(server(port, processes[j].token)) == None
  }

  // What each step does when it is the caller's turn to take it.

  lemma Entering(s: State, c: nat, port: Option<nat>, found: Option<seq<Process>>)
    requires c !in s.callers
    ensures var began := Next(s, Begin(c, port));
            && began.lock == s.lock && began.poisoned == s.poisoned && began.log == s.log && c in began.callers
            && (port.None? ==> began.cache == None && began.callers[c].phase == Done(Refusal(PortMissing)))
            && (port.Some? ==>
                  var scanned := Next(began, Scan(c, found));
                  && began.cache == s.cache && c in scanned.callers
                  && scanned.lock == s.lock && scanned.poisoned == s.poisoned && scanned.log == s.log
                  && (found.None? ==> scanned.cache == None && scanned.callers[c].phase == Done(Refusal(ScanFailed)))
                  && (found.Some? ==> scanned.cache == s.cache
                                      && scanned.callers[c] == Caller(Request(port, found.value), Ready)))
  {
    hide LockHeld;
  }

  lemma Locking(s: State, c: nat)
    requires c in s.callers && s.callers[c].phase == Ready
    ensures Next(s, TryLock(c)) ==
            if s.lock.Some? then At(s, c, Blocked)
            else if s.poisoned then At(s, c, Returning(Refusal(LockPoisoned))).(lock := Some(c))
            else At(s, c, Querying(0)).(lock := Some(c))
  {
  }

  /**
   A caller that lost the race gets the cached response iff the cache holds one for its
   configured port and for some process it found, wherever in the list that stands;
   otherwise it is refused. Nothing shared changes.
   */
  lemma Sharing(s: State, c: nat)
    requires c in s.callers && s.callers[c].phase == Blocked && s.callers[c].request.port.Some?
    ensures var request, now := s.callers[c].request, Next(s, ReadCache(c));
            && now == s.(callers := now.callers) && now.callers.Keys == s.callers.Keys
            && (forall d :: d in s.callers && d != c ==> now.callers[d] == s.callers[d])
            && now.callers[c].request == request && now.callers[c].phase.Done?
            && var response := now.callers[c].phase.response;
            if s.cache.Some? && Some(s.cache.value.port) == request.port
               && exists p :: p in request.processes
                    && p.pid == s.cache.value.process.pid && p.token == s.cache.value.process.token
            then response == s.cache.value.response
            else response == Response(false, [], None, [], Some(InProgress))
  {
    var request := s.callers[c].request;
    if s.cache.Some? {
      SomeProcessMatches(request.processes, request.port.value, s.cache.value);
    }
    hide CacheMatches;
  }

  lemma SomeProcessMatches(processes: seq<Process>, port: nat, entry: Entry)
    ensures CacheMatches(processes, port, entry)
            <==> entry.port == port
                 && exists p :: p in processes && p.pid == entry.process.pid && p.token == entry.process.token
  {
    if p :| p in processes && p.pid == entry.process.pid && p.token == entry.process.token {
      assert p == entry.process;
    }
  }

  lemma Questioning(s: State, c: nat, asked: nat, reply: Reply)
    requires c in s.callers && s.callers[c].phase == Querying(asked)
    requires s.callers[c].request.port.Some? && asked < |s.callers[c].request.processes|
    ensures var request, answer, now := s.callers[c].request, Combined(reply), Next(s, Query(c, reply));
            && now.lock == s.lock && now.poisoned == s.poisoned && now.cache == s.cache && c in now.callers
            && now.callers[c]
               == Caller(request, if answer.Some? then Storing(asked, answer.value) else Querying(asked + 1))
  {
  }

  lemma Finishing(s: State, c: nat)
    requires c in s.callers && s.callers[c].request.port.Some?
    ensures match s.callers[c].phase
            case Storing(at, answer) =>
              at < |s.callers[c].request.processes| ==>
                Next(s, Store(c)) ==
                At(s, c, Returning(answer)).(
                  cache := Some(Entry(s.callers[c].request.processes[at], s.callers[c].request.port.value, answer)))
            case Querying(asked) =>
              asked == |s.callers[c].request.processes| ==>
                Next(s, GiveUp(c)) == At(s, c, Returning(Refusal(QueryFailed))).(cache := None)
            case Returning(response) => Next(s, Release(c)) == At(s, c, Done(response)).(lock := None)
            case _ => true
  {
  }

  class Service {
    var lock: Option<nat>
    var poisoned: bool
    var cache: Option<Entry>
    ghost var callers: map<nat, Caller>
    ghost var log: seq<Ask>

    ghost function Current(): State
      reads this
    {
      State(callers, lock, poisoned, cache, log)
    }

    constructor ()
      ensures Current() == START
    {
      lock, poisoned, cache, callers, log := None, false, None, map[], [];
    }

    /** The part of a call between acquiring the lock and releasing it. */
    method QueryUnderLock(c: nat, request: Request, server: Server) returns (r: Response, ghost steps: seq<Step>)
      requires Inv(Current()) && c in callers && callers[c] == Caller(request, Querying(0)) && request.port.Some?
      requires lock == Some(c) && !poisoned
      modifies this
      ensures Current() == Run(old(Current()), steps) && Inv(Current())
      ensures c in callers && callers[c].phase == Done(r)
      ensures lock == None && !poisoned
      ensures NoAnswer(request.processes, request.port.value, server) ==> r == Refusal(QueryFailed) && cache == None
      ensures !NoAnswer(request.processes, request.port.value, server) ==>
                exists at: nat :: FirstAnswer(request.processes, request.port.value, server, at, r)
                  && cache == Some(Entry(request.processes[at], request.port.value, r))
    {
      hide Next, Run, Inv, FirstAnswer, NoAnswer, Combined, Holding;
      ghost var start := Current();
      StartOfRun(start);
      ghost var s := start;
      steps := [];
      var processes, port := request.processes, request.port.value;
      for asked := 0 to |processes|
        invariant s == Run(start, steps) && Inv(s)
        invariant c in s.callers && s.callers[c] == Caller(request, Querying(asked))
        invariant s.lock == lock == Some(c) && !s.poisoned && !poisoned && s.cache == cache
        invariant forall j :: 0 <= j < asked ==> Combined(server(port, processes[j].token)) == None
      {
        var token := processes[asked].token;
        var hit := QueryPortsForQuota([port], token, server);
        Questioning(s, c, asked, server(port, token));
        s, steps := Taken(start, s, steps, Query(c, server(port, token)));
        if hit.Some? {
          cache := Some(Entry(processes[asked], hit.value.0, hit.value.1));
          Finishing(s, c);
          s, steps := Taken(start, s, steps, Store(c));
          lock := None;
          Finishing(s, c);
          s, steps := Taken(start, s, steps, Release(c));
          r := hit.value.1;
          callers, log := s.callers, s.log;
          AnsweredAt(processes, port, server, asked, r);
          return;
        }
        assert [port][0] == port;
      }
      NeverAnswered(processes, port, server);
      cache := None;
      Finishing(s, c);
      s, steps := Taken(start, s, steps, GiveUp(c));
      lock := None;
      Finishing(s, c);
      s, steps := Taken(start, s, steps, Release(c));
      r := Refusal(QueryFailed);
      callers, log := s.callers, s.log;
    }

    /**
     A call that nobody interrupts is a run of the steps above. If the lock is free the
     answer is that of the first process, in the order found, that gives one.
     */
    method GetLiveQuota(c: nat, port: Option<nat>, found: Option<seq<Process>>, server: Server)
      returns (r: Response, ghost steps: seq<Step>)
      requires Inv(Current()) && c !in callers
      modifies this
      ensures Current() == Run(old(Current()), steps) && Inv(Current())
      ensures c in callers && callers[c].phase == Done(r)
      ensures lock == old(lock) && poisoned == old(poisoned)
      ensures port.None? ==> r == Refusal(PortMissing) && cache == None
      ensures port.Some? && found.None? ==> r == Refusal(ScanFailed) && cache == None
      ensures port.Some? && found.Some? && lock.Some? ==>
                cache == old(cache)
                && if cache.Some? && cache.value.port == port.value
                      && exists p :: p in found.value
                           && p.pid == cache.value.process.pid && p.token == cache.value.process.token
                   then r == cache.value.response
                   else r == Response(false, [], None, [], Some(InProgress))
      ensures port.Some? && found.Some? && lock.None? && poisoned ==> r == Refusal(LockPoisoned) && cache == old(cache)
      ensures port.Some? && found.Some? && lock.None? && !poisoned && NoAnswer(found.value, port.value, server) ==>
                r == Refusal(QueryFailed) && cache == None
      ensures port.Some? && found.Some? && lock.None? && !poisoned && !NoAnswer(found.value, port.value, server) ==>
                exists at: nat :: FirstAnswer(found.value, port.value, server, at, r)
                  && cache == Some(Entry(found.value[at], port.value, r))
    {
      hide Next, Run, Inv, FirstAnswer, NoAnswer, Combined, Holding;
      ghost var start := Current();
      StartOfRun(start);
      ghost var s := start;
      steps := [];

      Entering(s, c, port, found);
      s, steps := Taken(start, s, steps, Begin(c, port));
      if port.None? {
        cache := None;
        r := Refusal(PortMissing);
        callers, log := s.callers, s.log;
        return;
      }
      s, steps := Taken(start, s, steps, Scan(c, found));
      if found.None? {
        cache := None;
        r := Refusal(ScanFailed);
        callers, log := s.callers, s.log;
        return;
      }
      Locking(s, c);
      s, steps := Taken(start, s, steps, TryLock(c));
      if lock.Some? {
        Sharing(s, c);
        s, steps := Taken(start, s, steps, ReadCache(c));
        if cache.Some? {
          SomeProcessMatches(found.value, port.value, cache.value);
        }
        var matching := if cache.Some? && CacheMatches(found.value, port.value, cache.value) then cache else None;
        r := SingleFlightResponse(matching);
        callers, log := s.callers, s.log;
        return;
      }
      if poisoned {
        Finishing(s, c);
        s, steps := Taken(start, s, steps, Release(c));
        r := Refusal(LockPoisoned);
        callers, log := s.callers, s.log;
        return;
      }
      lock := Some(c);
      callers, log := s.callers, s.log;
      ghost var queries;
      r, queries := QueryUnderLock(c, Request(port, found.value), server);
      RunAppend(start, steps, queries);
      steps := steps + queries;
    }
  }

  ghost method Taken(start: State, s: State, steps: seq<Step>, step: Step) returns (now: State, more: seq<Step>)
    requires s == Run(start, steps) && Inv(s)
    ensures now == Next(s, step) && more == steps + [step] && now == Run(start, more) && Inv(now)
  {
    RunSnoc(start, steps, step);
    StepKeepsInv(s, step);
    now, more := Next(s, step), steps + [step];
  }

  lemma {:induction false} RunAppend(s: State, first: seq<Step>, second: seq<Step>)
    ensures Run(Run(s, first), second) == Run(s, first + second)
  {
    hide Next;
    if second == [] {
      assert first + second == first;
    } else {
      var init, last := second[..|second| - 1], second[|second| - 1];
      RunAppend(s, first, init);
      assert first + second == (first + init) + [last];
      RunSnoc(s, first + init, last);
    }
  }

  lemma StartOfRun(s: State)
    ensures Run(s, []) == s
  {
  }

  lemma AnsweredAt(processes: seq<Process>, port: nat, server: Server, at: nat, response: Response)
    requires at < |processes| && Combined(server(port, processes[at].token)) == Some(response)
    requires forall j :: 0 <= j < at ==> Combined(server(port, processes[j].token)) == None
    ensures FirstAnswer(processes, port, server, at, response) && !NoAnswer(processes, port, server)
  {
  }

  lemma NeverAnswered(processes: seq<Process>, port: nat, server: Server)
    requires forall j :: 0 <= j < |processes| ==> Combined(server(port, processes[j].token)) == None
    ensures NoAnswer(processes, port, server)
  {
  }
}
