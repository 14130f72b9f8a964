/**
 The session list store. Every action that calls the server is split at its
 `await` into an issuing step and a settling step; what is in flight is part of
 the state, and the environment chooses which request settles next and how.
 */
module SessionStore {
  import opened Options
  import opened Ordering
  import opened SessionMerge

  datatype Cursor = Cursor(modifiedAt: int, sizeBytes: Option<int>, path: string)

  datatype Page = Page(items: seq<Session>, nextCursor: Option<Cursor>)

  /** What a suspended load remembers across its `await`; a load-more carries a cursor. */
  datatype Request = Request(generation: nat, account: string, sort: Sort, age: string, cursor: Option<Cursor>)

  datatype State = State(
    sessions: seq<Session>, selectedSessionId: string, loadedAccountId: string,
    cursor: Option<Cursor>, hasMore: bool, loading: bool, loadGeneration: nat,
    sort: Sort, ageFilter: string,
    inFlight: seq<Request>,
    // Proof-only record of the answered requests the list is made of, oldest first.
    applied: seq<(Request, Page)>)

  const INITIAL := State([], "", "", None, false, false, 0, Newest, "all", [], [])

  datatype Event =
    | Load(account: string)
    | LoadMore
    | SetSort(sort: Sort)
    | SetAgeFilter(age: string)
    | Clear
    | Succeed(index: nat, page: Page)
    | Fail(index: nat)

  function AfterLoad(s: State, account: string): State {
    var generation := s.loadGeneration + 1;
    s.(sessions := [], selectedSessionId := "", loadedAccountId := account, cursor := None, hasMore := false,
       loading := true, loadGeneration := generation,
       inFlight := s.inFlight + [Request(generation, account, s.sort, s.ageFilter, None)],
       applied := [])
  }

  function AfterLoadMore(s: State): State {
    if s.loadedAccountId == "" || s.cursor.None? || s.loading then s
    else
      s.(loading := true,
         inFlight := s.inFlight + [Request(s.loadGeneration, s.loadedAccountId, s.sort, s.ageFilter, s.cursor)])
  }

  function AfterSetSort(s: State, sort: Sort): State {
    var changed := s.(sort := sort);
    if s.loadedAccountId != "" then AfterLoad(changed, s.loadedAccountId) else changed
  }

  function AfterSetAgeFilter(s: State, age: string): State {
    var changed := s.(ageFilter := age);
    if s.loadedAccountId != "" then AfterLoad(changed, s.loadedAccountId) else changed
  }

  function AfterClear(s: State): State {
    s.(sessions := [], selectedSessionId := "", loadedAccountId := "", cursor := None, hasMore := false,
       loading := false, loadGeneration := s.loadGeneration + 1, sort := Newest, ageFilter := "all",
       applied := [])
  }

  function RemoveAt<T>(s: seq<T>, i: nat): seq<T>
    requires i < |s|
  {
    s[..i] + s[i + 1..]
  }

  /** The guard both loads evaluate after their `await`. */
  predicate IsCurrent(s: State, r: Request) {
    s.loadGeneration == r.generation && s.loadedAccountId == r.account
  }

  function AfterSuccess(s: State, i: nat, page: Page, locale: Locale): State
    requires i < |s.inFlight|
  {
    var r := s.inFlight[i];
    var rest := s.(inFlight := RemoveAt(s.inFlight, i));
    if !IsCurrent(s, r) then rest
    else if r.cursor.None? then
      rest.(sessions := page.items,
            selectedSessionId := if page.items == [] then "" else page.items[0].id,
            cursor := page.nextCursor, hasMore := page.nextCursor.Some?, loading := false,
            applied := [(r, page)])
    else
      rest.(sessions := Merged(s.sessions, page.items, r.sort, locale),
            cursor := page.nextCursor, hasMore := page.nextCursor.Some?, loading := false,
            applied := s.applied + [(r, page)])
  }

  function AfterFailure(s: State, i: nat): State
    requires i < |s.inFlight|
  {
    var rest := s.(inFlight := RemoveAt(s.inFlight, i));
    if IsCurrent(s, s.inFlight[i]) then rest.(loading := false) else rest
  }

  function AfterSettle(s: State, i: nat, answer: Option<Page>, locale: Locale): State
    requires i < |s.inFlight|
  {
    if answer.Some? then AfterSuccess(s, i, answer.value, locale) else AfterFailure(s, i)
  }

  function Step(s: State, e: Event, locale: Locale): State {
    match e
    case Load(account) => AfterLoad(s, account)
    case LoadMore => AfterLoadMore(s)
    case SetSort(sort) => AfterSetSort(s, sort)
    case SetAgeFilter(age) => AfterSetAgeFilter(s, age)
    case Clear => AfterClear(s)
    case Succeed(i, page) => if i < |s.inFlight| then AfterSettle(s, i, Some(page), locale) else s
    case Fail(i) => if i < |s.inFlight| then AfterSettle(s, i, None, locale) else s
  }

  function Run(events: seq<Event>, locale: Locale): State {
    if events == [] then INITIAL
    else Step(Run(events[..|events| - 1], locale), events[|events| - 1], locale)
  }

  // ----- the store object -----

  class Store {
    var sessions: seq<Session>
    var selectedSessionId: string
    var loadedAccountId: string
    var cursor: Option<Cursor>
    var hasMore: bool
    var loading: bool
    var loadGeneration: nat
    var sort: Sort
    var ageFilter: string
    var inFlight: seq<Request>
    ghost var applied: seq<(Request, Page)>
    const locale: Locale

    ghost function View(): State
      reads this
    {
      State(sessions, selectedSessionId, loadedAccountId, cursor, hasMore, loading, loadGeneration, sort, ageFilter,
            inFlight, applied)
    }

    /** What every method keeps, so that it holds of the store at any moment. */
    ghost predicate Valid()
      reads this
    {
      Inv(View(), locale)
    }

    /** All that a fresh load relies on: no request in flight is from a later generation. */
    ghost predicate Issued()
      reads this
    {
      forall k :: 0 <= k < |inFlight| ==> inFlight[k].generation <= loadGeneration
    }

    constructor (locale: Locale)
      ensures Valid() && View() == INITIAL && this.locale == locale
    {
      this.locale := locale;
      sessions, selectedSessionId, loadedAccountId := [], "", "";
      cursor, hasMore, loading, loadGeneration := None, false, false, 0;
      sort, ageFilter, inFlight, applied := Newest, "all", [], [];
    }

    method LoadSessions(account: string)
      requires Issued()
      modifies this
      ensures Valid()
      ensures View() == AfterLoad(old(View()), account)
      ensures sessions == [] && selectedSessionId == "" && loadedAccountId == account && cursor == None
      ensures !hasMore && loading && loadGeneration == old(loadGeneration) + 1
      ensures sort == old(sort) && ageFilter == old(ageFilter)
      ensures inFlight == old(inFlight) + [Request(loadGeneration, account, sort, ageFilter, None)]
    {
      hide Inv;
      LoadKeepsInv(View(), account, locale);
      var generation := loadGeneration + 1;
      sessions, selectedSessionId, loadedAccountId := [], "", account;
      cursor, hasMore, loading, loadGeneration := None, false, true, generation;
      inFlight := inFlight + [Request(generation, account, sort, ageFilter, None)];
      applied := [];
    }

    method LoadMoreSessions()
      requires Valid()
      modifies this
      ensures Valid()
      ensures View() == AfterLoadMore(old(View()))
      ensures sessions == old(sessions) && selectedSessionId == old(selectedSessionId) && cursor == old(cursor)
      ensures loadedAccountId == old(loadedAccountId) && hasMore == old(hasMore)
      ensures loadGeneration == old(loadGeneration) && sort == old(sort) && ageFilter == old(ageFilter)
      ensures if loadedAccountId != "" && cursor.Some? && !old(loading)
              then loading && inFlight == old(inFlight)
                                          + [Request(loadGeneration, loadedAccountId, sort, ageFilter, cursor)]
              else loading == old(loading) && inFlight == old(inFlight)
    {
      hide Inv;
      StepKeepsInv(View(), LoadMore, locale);
      if loadedAccountId == "" || cursor.None? || loading {
        return;
      }
      loading := true;
      inFlight := inFlight + [Request(loadGeneration, loadedAccountId, sort, ageFilter, cursor)];
    }

    method ChangeSort(sort: Sort)
      requires Valid()
      modifies this
      ensures Valid()
      ensures View() == AfterSetSort(old(View()), sort)
      ensures this.sort == sort && ageFilter == old(ageFilter) && loadedAccountId == old(loadedAccountId)
      ensures if loadedAccountId != ""
              then sessions == [] && cursor == None && !hasMore && loading && loadGeneration == old(loadGeneration) + 1
                   && inFlight == old(inFlight) + [Request(loadGeneration, loadedAccountId, sort, ageFilter, None)]
              else sessions == old(sessions) && cursor == old(cursor) && hasMore == old(hasMore)
                   && loading == old(loading) && loadGeneration == old(loadGeneration) && inFlight == old(inFlight)
    {
      GenerationsAreOld(View(), locale);
      StepKeepsInv(View(), SetSort(sort), locale);
      hide Inv;
      this.sort := sort;
      if loadedAccountId != "" {
        LoadSessions(loadedAccountId);
      }
    }

    method ChangeAgeFilter(age: string)
      requires Valid()
      modifies this
      ensures Valid()
      ensures View() == AfterSetAgeFilter(old(View()), age)
      ensures ageFilter == age && sort == old(sort) && loadedAccountId == old(loadedAccountId)
      ensures if loadedAccountId != ""
              then sessions == [] && cursor == None && !hasMore && loading && loadGeneration == old(loadGeneration) + 1
                   && inFlight == old(inFlight) + [Request(loadGeneration, loadedAccountId, sort, ageFilter, None)]
              else sessions == old(sessions) && cursor == old(cursor) && hasMore == old(hasMore)
                   && loading == old(loading) && loadGeneration == old(loadGeneration) && inFlight == old(inFlight)
    {
      GenerationsAreOld(View(), locale);
      StepKeepsInv(View(), SetAgeFilter(age), locale);
      hide Inv;
      ageFilter := age;
      if loadedAccountId != "" {
        LoadSessions(loadedAccountId);
      }
    }

    method ClearAll()
      requires Valid()
      modifies this
      ensures Valid()
      ensures View() == AfterClear(old(View()))
      ensures sessions == [] && selectedSessionId == "" && loadedAccountId == "" && cursor == None
      ensures !hasMore && !loading && loadGeneration == old(loadGeneration) + 1
      ensures sort == Newest && ageFilter == "all" && inFlight == old(inFlight)
    {
      hide Inv;
      StepKeepsInv(View(), Clear, locale);
      sessions, selectedSessionId, loadedAccountId := [], "", "";
      cursor, hasMore, loading, loadGeneration := None, false, false, loadGeneration + 1;
      sort, ageFilter, applied := Newest, "all", [];
    }

    /** A current answer: the first page replaces the list, a further one is merged in. */
    method Show(r: Request, page: Page)
      modifies this`sessions, this`selectedSessionId, this`cursor, this`hasMore, this`applied
      ensures cursor == page.nextCursor && hasMore == page.nextCursor.Some?
      ensures if r.cursor.None? then
                && sessions == page.items && applied == [(r, page)]
                && selectedSessionId == if page.items == [] then "" else page.items[0].id
              else
                && sessions == Merged(old(sessions), page.items, r.sort, locale)
                && applied == old(applied) + [(r, page)] && selectedSessionId == old(selectedSessionId)
    {
      hide Merged;
      if r.cursor.None? {
        sessions := page.items;
        selectedSessionId := if page.items == [] then "" else page.items[0].id;
        applied := [(r, page)];
      } else {
        sessions := MergeSessions(sessions, page.items, r.sort, locale);
        applied := applied + [(r, page)];
      }
      cursor := page.nextCursor;
      hasMore := page.nextCursor.Some?;
    }

    /** A response arrives for the `i`-th suspended load. */
    method Resume(i: nat, answer: Option<Page>)
      requires Valid()
      requires i < |inFlight|
      modifies this
      ensures Valid()
      ensures View() == AfterSettle(old(View()), i, answer, locale)
    {
      hide Inv, Merged;
      SettleKeepsInv(View(), i, answer, locale);
      var r := inFlight[i];
      inFlight := inFlight[..i] + inFlight[i + 1..];
      if answer.Some? {
        if loadGeneration == r.generation && loadedAccountId == r.account {
          Show(r, answer.value);
        }
      }
      if loadGeneration == r.generation && loadedAccountId == r.account {
        loading := false;
      }
    }
  }

  // ----- what every run keeps -----

  function CountCurrent(inFlight: seq<Request>, generation: nat): nat {
    if inFlight == [] then 0
    else
      CountCurrent(inFlight[..|inFlight| - 1], generation)
      + (if inFlight[|inFlight| - 1].generation == generation then 1 else 0)
  }

  /** The list obtained from answers alone: the first page, then each further page merged in. */
  function Replay(applied: seq<(Request, Page)>, locale: Locale): seq<Session> {
    if applied == [] then []
    else if |applied| == 1 then applied[0].1.items
    else
      var last := applied[|applied| - 1];
      Merged(Replay(applied[..|applied| - 1], locale), last.1.items, last.0.sort, locale)
  }

  function LastCursor(applied: seq<(Request, Page)>): Option<Cursor> {
    if applied == [] then None else applied[|applied| - 1].1.nextCursor
  }

  /** Issued by the load generation and for the account, sort and age now on screen. */
  predicate UpToDate(s: State, r: Request) {
    && r.generation == s.loadGeneration
    && r.account == s.loadedAccountId
    && (s.loadedAccountId != "" ==> r.sort == s.sort && r.age == s.ageFilter)
  }

  /** Pages follow each other: each request carries the cursor the page before it ended with. */
  predicate Chained(applied: seq<(Request, Page)>) {
    forall k :: 0 <= k < |applied| ==> applied[k].0.cursor == LastCursor(applied[..k])
  }

  ghost predicate Inv(s: State, locale: Locale) {
    && (forall k :: 0 <= k < |s.inFlight| ==>
          var r := s.inFlight[k];
          && r.generation <= s.loadGeneration
          && (r.generation == s.loadGeneration ==> UpToDate(s, r) && r.cursor == s.cursor)
          && (r.generation == s.loadGeneration && r.cursor.None? ==> s.applied == []))
    && CountCurrent(s.inFlight, s.loadGeneration) == (if s.loading then 1 else 0)
    && s.hasMore == s.cursor.Some?
    && (forall k :: 0 <= k < |s.applied| ==> UpToDate(s, s.applied[k].0))
    && s.sessions == Replay(s.applied, locale)
    && s.cursor == LastCursor(s.applied)
    && Chained(s.applied)
  }

  lemma {:induction false} NoneCurrent(inFlight: seq<Request>, generation: nat)
    requires forall k :: 0 <= k < |inFlight| ==> inFlight[k].generation < generation
    ensures CountCurrent(inFlight, generation) == 0
  {
    if inFlight != [] {
      NoneCurrent(inFlight[..|inFlight| - 1], generation);
    }
  }

  lemma {:induction false} CountOfConcat(a: seq<Request>, b: seq<Request>, generation: nat)
    ensures CountCurrent(a + b, generation) == CountCurrent(a, generation) + CountCurrent(b, generation)
  {
    if b == [] {
      assert a + b == a;
    } else {
      CountOfConcat(a, b[..|b| - 1], generation);
      assert (a + b)[..|a + b| - 1] == a + b[..|b| - 1];
    }
  }

  lemma CountAfterRemoval(inFlight: seq<Request>, i: nat, generation: nat)
    requires i < |inFlight|
    ensures CountCurrent(RemoveAt(inFlight, i), generation)
            + (if inFlight[i].generation == generation then 1 else 0)
            == CountCurrent(inFlight, generation)
  {
    var before, after := inFlight[..i], inFlight[i + 1..];
    CountAfterAppend(before, inFlight[i], generation);
    CountOfConcat(before + [inFlight[i]], after, generation);
    CountOfConcat(before, after, generation);
    assert inFlight == before + [inFlight[i]] + after;
  }

  lemma CountAfterAppend(inFlight: seq<Request>, r: Request, generation: nat)
    ensures CountCurrent(inFlight + [r], generation)
            == CountCurrent(inFlight, generation) + (if r.generation == generation then 1 else 0)
  {
    assert (inFlight + [r])[..|inFlight|] == inFlight;
  }

  lemma LoadKeepsInv(s: State, account: string, locale: Locale)
    requires forall k :: 0 <= k < |s.inFlight| ==> s.inFlight[k].generation <= s.loadGeneration
    ensures Inv(AfterLoad(s, account), locale)
  {
    var t := AfterLoad(s, account);
    NoneCurrent(s.inFlight, t.loadGeneration);
    CountAfterAppend(s.inFlight, t.inFlight[|s.inFlight|], t.loadGeneration);
  }

  lemma LoadMoreKeepsInv(s: State, locale: Locale)
    requires Inv(s, locale)
    ensures Inv(AfterLoadMore(s), locale)
  {
    var t := AfterLoadMore(s);
    if t != s {
      CountAfterAppend(s.inFlight, t.inFlight[|s.inFlight|], s.loadGeneration);
    }
  }

  lemma ClearKeepsInv(s: State, locale: Locale)
    requires Inv(s, locale)
    ensures Inv(AfterClear(s), locale)
  {
    NoneCurrent(s.inFlight, s.loadGeneration + 1);
  }

  /** At most one current request is in flight, so removing it leaves none. */
  lemma PositiveCount(inFlight: seq<Request>, i: nat, generation: nat)
    requires i < |inFlight| && inFlight[i].generation == generation
    ensures CountCurrent(inFlight, generation) >= 1
  {
    CountAfterRemoval(inFlight, i, generation);
  }

  lemma NoOtherCurrent(s: State, i: nat, locale: Locale)
    requires Inv(s, locale) && i < |s.inFlight| && s.inFlight[i].generation == s.loadGeneration
    ensures s.loading
    ensures forall k :: 0 <= k < |RemoveAt(s.inFlight, i)| ==>
              RemoveAt(s.inFlight, i)[k].generation < s.loadGeneration
  {
    var rest := RemoveAt(s.inFlight, i);
    CountAfterRemoval(s.inFlight, i, s.loadGeneration);
    forall k | 0 <= k < |rest| ensures rest[k].generation < s.loadGeneration {
      assert rest[k] == if k < i then s.inFlight[k] else s.inFlight[k + 1];
      if rest[k].generation == s.loadGeneration {
        PositiveCount(rest, k, s.loadGeneration);
      }
    }
  }

  lemma RemovalKeepsRequests(s: State, i: nat, locale: Locale)
    requires Inv(s, locale) && i < |s.inFlight|
    ensures forall k :: 0 <= k < |RemoveAt(s.inFlight, i)| ==> RemoveAt(s.inFlight, i)[k] in s.inFlight
  {
  }

  lemma StaleKeepsInv(s: State, i: nat, locale: Locale)
    requires Inv(s, locale) && i < |s.inFlight| && s.inFlight[i].generation != s.loadGeneration
    ensures Inv(s.(inFlight := RemoveAt(s.inFlight, i)), locale)
  {
    CountAfterRemoval(s.inFlight, i, s.loadGeneration);
    RemovalKeepsRequests(s, i, locale);
  }

  lemma FailureKeepsInv(s: State, i: nat, locale: Locale)
    requires Inv(s, locale) && i < |s.inFlight| && s.inFlight[i].generation == s.loadGeneration
    ensures Inv(s.(inFlight := RemoveAt(s.inFlight, i), loading := false), locale)
  {
    NoOtherCurrent(s, i, locale);
    NoneCurrent(RemoveAt(s.inFlight, i), s.loadGeneration);
  }

  /** A current answer leaves no current request behind, so only the list itself has to be looked at. */
  lemma SuccessKeepsInv(s: State, i: nat, page: Page, locale: Locale)
    requires Inv(s, locale) && i < |s.inFlight| && s.inFlight[i].generation == s.loadGeneration
    ensures Inv(AfterSuccess(s, i, page, locale), locale)
  {
    hide Merged, CountCurrent;
    var r, t := s.inFlight[i], AfterSuccess(s, i, page, locale);
    NoOtherCurrent(s, i, locale);
    NoneCurrent(RemoveAt(s.inFlight, i), s.loadGeneration);
    if r.cursor.Some? {
      assert s.applied != [] && r.cursor == LastCursor(s.applied);
      assert t.applied[..|t.applied| - 1] == s.applied;
      assert t.sessions == Replay(t.applied, locale);
      ChainedExtend(s.applied, r, page);
    }
  }

  lemma ChainedExtend(applied: seq<(Request, Page)>, r: Request, page: Page)
    requires Chained(applied) && r.cursor == LastCursor(applied)
    ensures Chained(applied + [(r, page)])
  {
    var more := applied + [(r, page)];
    forall k | 0 <= k < |more| ensures more[k].0.cursor == LastCursor(more[..k]) {
      assert more[..k] == applied[..k];
      assert k == |applied| ==> applied[..k] == applied;
    }
  }

  lemma SettleKeepsInv(s: State, i: nat, answer: Option<Page>, locale: Locale)
    requires Inv(s, locale) && i < |s.inFlight|
    ensures Inv(AfterSettle(s, i, answer, locale), locale)
  {
    if s.inFlight[i].generation != s.loadGeneration {
      StaleKeepsInv(s, i, locale);
    } else if answer.Some? {
      SuccessKeepsInv(s, i, answer.value, locale);
    } else {
      FailureKeepsInv(s, i, locale);
    }
    hide Inv, Merged;
  }

  lemma RelabelKeepsInv(s: State, sort: Sort, age: string, locale: Locale)
    requires Inv(s, locale)
    ensures var changed := s.(sort := sort, ageFilter := age);
            if s.loadedAccountId != "" then Inv(AfterLoad(changed, s.loadedAccountId), locale) else Inv(changed, locale)
  {
    if s.loadedAccountId != "" {
      LoadKeepsInv(s.(sort := sort, ageFilter := age), s.loadedAccountId, locale);
    }
  }

  lemma StepKeepsInv(s: State, e: Event, locale: Locale)
    requires Inv(s, locale)
    ensures Inv(Step(s, e, locale), locale)
  {
    hide Inv, AfterLoad, AfterLoadMore, AfterClear, AfterSettle;
    GenerationsAreOld(s, locale);
    match e
    case Load(account) => LoadKeepsInv(s, account, locale);
    case LoadMore => LoadMoreKeepsInv(s, locale);
    case SetSort(sort) => RelabelKeepsInv(s, sort, s.ageFilter, locale);
    case SetAgeFilter(age) => RelabelKeepsInv(s, s.sort, age, locale);
    case Clear => ClearKeepsInv(s, locale);
    case Succeed(i, page) =>
      if i < |s.inFlight| {
        SettleKeepsInv(s, i, Some(page), locale);
      }
    case Fail(i) =>
      if i < |s.inFlight| {
        SettleKeepsInv(s, i, None, locale);
      }
  }

  /** In every interleaving, whatever arrives late, twice the same way, or not at all. */
  lemma {:induction false} RunKeepsInv(events: seq<Event>, locale: Locale)
    ensures Inv(Run(events, locale), locale)
  {
    if events != [] {
      RunKeepsInv(events[..|events| - 1], locale);
      StepKeepsInv(Run(events[..|events| - 1], locale), events[|events| - 1], locale);
    }
  }

  /** `loading` is shown exactly while one request of the current generation is in flight. */
  lemma LoadingIsExact(s: State, locale: Locale)
    requires Inv(s, locale)
    ensures s.loading <==> exists k :: 0 <= k < |s.inFlight| && s.inFlight[k].generation == s.loadGeneration
    ensures forall j, k :: 0 <= j < k < |s.inFlight| ==>
              s.inFlight[j].generation != s.loadGeneration || s.inFlight[k].generation != s.loadGeneration
  {
    forall j, k | 0 <= j < k < |s.inFlight| && s.inFlight[k].generation == s.loadGeneration
      ensures s.inFlight[j].generation != s.loadGeneration
    {
      NoOtherCurrent(s, k, locale);
      assert RemoveAt(s.inFlight, k)[j] == s.inFlight[j];
    }
    if k :| 0 <= k < |s.inFlight| && s.inFlight[k].generation == s.loadGeneration {
      NoOtherCurrent(s, k, locale);
    } else {
      NoneCurrent(s.inFlight, s.loadGeneration);
    }
  }

  /** What the screen shows, spelled out for every run. */
  lemma ListedSessions(events: seq<Event>, locale: Locale)
    ensures var s := Run(events, locale);
      && s.hasMore == s.cursor.Some?
      && (s.loading <==> exists k :: 0 <= k < |s.inFlight| && s.inFlight[k].generation == s.loadGeneration)
      && (forall j, k :: 0 <= j < k < |s.inFlight| ==>
            s.inFlight[j].generation != s.loadGeneration || s.inFlight[k].generation != s.loadGeneration)
      && s.sessions == Replay(s.applied, locale)
      && (forall k :: 0 <= k < |s.applied| ==> UpToDate(s, s.applied[k].0))
      && Chained(s.applied)
  {
    RunKeepsInv(events, locale);
    LoadingIsExact(Run(events, locale), locale);
    hide Run, Replay, Chained, UpToDate;
  }

  /** Every listed session came in one of the answers the list is made of. */
  lemma {:induction false} ListedFromAnswers(applied: seq<(Request, Page)>, locale: Locale, session: Session)
    requires session in Replay(applied, locale)
    ensures exists k :: 0 <= k < |applied| && session in applied[k].1.items
  {
    if |applied| > 1 {
      var init, last := applied[..|applied| - 1], applied[|applied| - 1];
      MergedMembers(Replay(init, locale), last.1.items, last.0.sort, locale, session);
      if session !in last.1.items {
        ListedFromAnswers(init, locale, session);
        var k :| 0 <= k < |init| && session in init[k].1.items;
        assert applied[k] == init[k];
      }
    }
  }

  // ----- what single steps do -----

  /** Everything but the requests in flight and the loading flag is as before. */
  ghost predicate SameListing(s: State, now: State) {
    && now.sessions == s.sessions && now.selectedSessionId == s.selectedSessionId && now.cursor == s.cursor
    && now.loadedAccountId == s.loadedAccountId && now.hasMore == s.hasMore
    && now.loadGeneration == s.loadGeneration && now.sort == s.sort && now.ageFilter == s.ageFilter
    && now.applied == s.applied
  }

  /**
   Loading more sends exactly one request, with what is on screen and the cursor, if an
   account is loaded, there is a cursor and nothing is loading; otherwise it does nothing.
   */
  lemma LoadMoreSendsOne(s: State, locale: Locale)
    ensures var now := Step(s, LoadMore, locale);
      && SameListing(s, now)
      && if s.loadedAccountId != "" && s.cursor.Some? && !s.loading
         then now.loading && now.inFlight == s.inFlight + [Request(s.loadGeneration, s.loadedAccountId, s.sort,
                                                                   s.ageFilter, s.cursor)]
         else now.loading == s.loading && now.inFlight == s.inFlight
  {
  }

  /**
   When that request is answered, the old list and the page become one list, sorted as
   asked for, with one entry per path and the page winning.
   */
  lemma LoadMoreMerges(s: State, page: Page, locale: Locale)
    requires IsLocale(locale) && s.loadedAccountId != "" && s.cursor.Some? && !s.loading
    ensures var sent := Step(s, LoadMore, locale);
            var now := Step(sent, Succeed(|s.inFlight|, page), locale);
      && Contents(now.sessions) == Contents(s.sessions) + Contents(page.items)
      && UniquePaths(now.sessions) && Sorted(CompareSessions(s.sort, locale), now.sessions)
      && now.cursor == page.nextCursor && now.hasMore == page.nextCursor.Some? && !now.loading
      && now.inFlight == s.inFlight && now.selectedSessionId == s.selectedSessionId
      && now.loadedAccountId == s.loadedAccountId && now.loadGeneration == s.loadGeneration
      && now.sort == s.sort && now.ageFilter == s.ageFilter
  {
    hide Merged, Contents, UniquePaths, CompareSessions;
    MergeMeaning(s.sessions, page.items, s.sort, locale);
    assert s.inFlight + [] == s.inFlight;
  }

  /** A fresh load empties the list, asks for the first page with the sort and filter set, and its page is the list. */
  lemma LoadReplaces(s: State, account: string, page: Page, locale: Locale)
    ensures var sent := Step(s, Load(account), locale);
            var now := Step(sent, Succeed(|s.inFlight|, page), locale);
      && sent.sessions == [] && sent.cursor == None && !sent.hasMore && sent.loading
      && sent.inFlight == s.inFlight + [Request(s.loadGeneration + 1, account, s.sort, s.ageFilter, None)]
      && now.sessions == page.items && now.cursor == page.nextCursor && now.hasMore == page.nextCursor.Some?
      && now.selectedSessionId == (if page.items == [] then "" else page.items[0].id)
      && !now.loading && now.loadedAccountId == account && now.inFlight == s.inFlight
  {
    assert s.inFlight + [] == s.inFlight;
  }

  /** A failed request of the current generation and account ends the loading; what is stale does nothing. */
  lemma LateOrFailed(s: State, i: nat, page: Page, locale: Locale)
    requires i < |s.inFlight|
    ensures var r, failed, late := s.inFlight[i], Step(s, Fail(i), locale), Step(s, Succeed(i, page), locale);
      && failed.inFlight == s.inFlight[..i] + s.inFlight[i + 1..] == late.inFlight
      && SameListing(s, failed)
      && (if r.generation == s.loadGeneration && r.account == s.loadedAccountId
          then !failed.loading
          else failed.loading == s.loading && SameListing(s, late) && late.loading == s.loading)
  {
  }

  // ----- when the list follows its sort and age filter -----

  predicate Matches(s: State, r: Request) {
    r.sort == s.sort && r.age == s.ageFilter
  }

  /** What is listed, and what the current request will bring, was asked for with the sort and age filter now set. */
  ghost predicate Follows(s: State) {
    && (forall k :: 0 <= k < |s.applied| ==> Matches(s, s.applied[k].0))
    && (forall k :: 0 <= k < |s.inFlight| && s.inFlight[k].generation == s.loadGeneration ==> Matches(s, s.inFlight[k]))
  }

  /** A new sort or age filter is set while something is listed or loading for the empty account id. */
  predicate LeavesBehind(s: State, e: Event) {
    && s.loadedAccountId == "" && (s.applied != [] || s.loading)
    && match e
       case SetSort(sort) => sort != s.sort
       case SetAgeFilter(age) => age != s.ageFilter
       case _ => false
  }

  lemma RemovalKeepsFollowing(s: State, i: nat)
    requires Follows(s) && i < |s.inFlight|
    ensures Follows(s.(inFlight := RemoveAt(s.inFlight, i)))
  {
    var rest := RemoveAt(s.inFlight, i);
    assert forall k :: 0 <= k < |rest| ==> rest[k] == if k < i then s.inFlight[k] else s.inFlight[k + 1];
  }

  lemma SettleKeepsFollowing(s: State, i: nat, answer: Option<Page>, locale: Locale)
    requires Inv(s, locale) && Follows(s) && i < |s.inFlight|
    ensures Follows(AfterSettle(s, i, answer, locale))
  {
    hide Merged, CountCurrent, Replay, Chained;
    RemovalKeepsFollowing(s, i);
  }

  /** Changing the sort or the age filter alone: nothing listed or current may disagree. */
  lemma RelabelFollows(s: State, sort: Sort, age: string, locale: Locale)
    requires Inv(s, locale) && Follows(s)
    ensures Follows(s.(sort := sort, ageFilter := age))
            <==> (sort == s.sort && age == s.ageFilter) || (s.applied == [] && !s.loading)
  {
    LoadingIsExact(s, locale);
    var changed := s.(sort := sort, ageFilter := age);
    if s.applied != [] {
      assert Matches(s, s.applied[0].0);
    } else if k :| 0 <= k < |s.inFlight| && s.inFlight[k].generation == s.loadGeneration {
      assert Matches(s, s.inFlight[k]);
    }
  }

  lemma LoadFollows(s: State, account: string, locale: Locale)
    requires forall k :: 0 <= k < |s.inFlight| ==> s.inFlight[k].generation <= s.loadGeneration
    ensures Follows(AfterLoad(s, account))
  {
  }

  lemma GenerationsAreOld(s: State, locale: Locale)
    requires Inv(s, locale)
    ensures forall k :: 0 <= k < |s.inFlight| ==> s.inFlight[k].generation <= s.loadGeneration
  {
  }

  /** Of a list that follows its sort and age filter, exactly when one more step leaves it behind. */
  lemma FollowsIff(s: State, e: Event, locale: Locale)
    requires Inv(s, locale) && Follows(s)
    ensures Follows(Step(s, e, locale)) <==> !LeavesBehind(s, e)
  {
    hide Inv, Follows, AfterLoad, AfterSettle;
    GenerationsAreOld(s, locale);
    match e
    case Load(account) => LoadFollows(s, account, locale);
    case LoadMore => MoreFollows(s);
    case SetSort(sort) =>
      RelabelFollows(s, sort, s.ageFilter, locale);
      LoadFollows(s.(sort := sort), s.loadedAccountId, locale);
    case SetAgeFilter(age) =>
      RelabelFollows(s, s.sort, age, locale);
      LoadFollows(s.(ageFilter := age), s.loadedAccountId, locale);
    case Clear => ClearFollows(s);
    case Succeed(i, page) =>
      if i < |s.inFlight| {
        SettleKeepsFollowing(s, i, Some(page), locale);
      }
    case Fail(i) =>
      if i < |s.inFlight| {
        SettleKeepsFollowing(s, i, None, locale);
      }
  }

  lemma MoreFollows(s: State)
    requires Follows(s)
    ensures Follows(AfterLoadMore(s))
  {
  }

  lemma ClearFollows(s: State)
    requires forall k :: 0 <= k < |s.inFlight| ==> s.inFlight[k].generation <= s.loadGeneration
    ensures Follows(AfterClear(s))
  {
  }

  /** In every run that loads no empty account id, the list follows its sort and age filter throughout. */
  lemma {:induction false} AccountsFollow(events: seq<Event>, locale: Locale)
    requires forall e :: e in events ==> e != Load("")
    ensures var s := Run(events, locale);
            Follows(s) && (s.loadedAccountId == "" ==> s.applied == [] && !s.loading)
  {
    hide Step, Follows;
    if events == [] {
      assert Follows(INITIAL) by {
        NothingToFollow();
      }
    } else {
      var init, e := events[..|events| - 1], events[|events| - 1];
      var s := Run(init, locale);
      assert forall x :: x in init ==> x in events;
      assert e in events;
      AccountsFollow(init, locale);
      RunKeepsInv(init, locale);
      FollowsIff(s, e, locale);
      QuietWithoutAccount(s, e, locale);
    }
  }

  lemma NothingToFollow()
    ensures Follows(INITIAL)
  {
  }

  lemma QuietWithoutAccount(s: State, e: Event, locale: Locale)
    requires Inv(s, locale) && e != Load("") && (s.loadedAccountId == "" ==> s.applied == [] && !s.loading)
    ensures var now := Step(s, e, locale); now.loadedAccountId == "" ==> now.applied == [] && !now.loading
  {
    hide Merged;
    match e
    case Succeed(i, _) =>
      if i < |s.inFlight| && IsCurrent(s, s.inFlight[i]) {
        NoOtherCurrent(s, i, locale);
      }
    case _ =>
  }

  /** The condition is needed: with a list loaded for the empty account id, a changed sort leaves it behind. */
  lemma EmptyAccountGoesStale(locale: Locale)
    ensures var page := Page([Session("s", "/p", 1, 1, "")], None);
            var s := Run([Load(""), Succeed(0, page), SetSort(Largest)], locale);
      && s.sessions == page.items
      && |s.applied| == 1 && s.applied[0].0.sort == Newest && s.sort == Largest
  {
    var page := Page([Session("s", "/p", 1, 1, "")], None);
    var events := [Load(""), Succeed(0, page), SetSort(Largest)];
    assert events[..2] == [Load(""), Succeed(0, page)] && events[..2][..1] == [Load("")] && [Load("")][..0] == [];
    assert Run([], locale) == INITIAL;
    assert Run([Load("")], locale) == AfterLoad(INITIAL, "");
    assert Run(events[..2], locale) == AfterSuccess(AfterLoad(INITIAL, ""), 0, page, locale);
  }
}
