/** Grouping usage calls into threads, and each call's neighbours within its thread. */
module ThreadIndex {
  import opened Options
  import opened Ordering

  datatype Row = Row(
    recordId: string, sessionId: string, threadName: string, eventTimestamp: string, previousRecordId: string,
    inputTokens: int, cachedInputTokens: int, uncachedInputTokens: int, outputTokens: int,
    reasoningOutputTokens: int, totalTokens: int, cumulativeTotalTokens: int,
    cacheRatio: real, contextWindowPercent: real, estimatedCostUsd: real, threadCallIndex: int, usageCredits: real,
    effort: string, callInitiator: string, model: string)

  /** `a || b` on strings, where an absent string is empty. */
  function Or(a: string, b: string): string {
    if a != "" then a else b
  }

  predicate Named(row: Row) { row.threadName != "" }

  function ThreadKey(row: Row): string {
    if Named(row) then "thread:" + row.threadName else "session:" + Or(row.sessionId, "unknown")
  }

  function ThreadLabel(row: Row): string {
    if Named(row) then row.threadName else Or(row.sessionId, "Unknown thread")
  }

  function Chronological(locale: Locale): Comparator<Row> {
    Lex(By(locale, (row: Row) => row.eventTimestamp),
        (a: Row, b: Row) => a.cumulativeTotalTokens - b.cumulativeTotalTokens)
  }

  datatype Entry = Entry(calls: seq<Row>, index: nat, previous: Option<Row>, next: Option<Row>)

  function EntryAt(calls: seq<Row>, i: nat): Entry
    requires i < |calls|
  {
    Entry(calls, i, if i > 0 then Some(calls[i - 1]) else None, if i + 1 < |calls| then Some(calls[i + 1]) else None)
  }

  // ----- the index as a function of the rows -----

  function ThreadOf(rows: seq<Row>, key: string): seq<Row> {
    if rows == [] then []
    else
      var init, row := ThreadOf(rows[..|rows| - 1], key), rows[|rows| - 1];
      if ThreadKey(row) == key then init + [row] else init
  }

  /** The thread keys in the order in which a `Map` first sees them. */
  function KeyOrder(rows: seq<Row>): seq<string> {
    if rows == [] then []
    else
      var init, key := KeyOrder(rows[..|rows| - 1]), ThreadKey(rows[|rows| - 1]);
      if key in init then init else init + [key]
  }

  function Calls(rows: seq<Row>, key: string, locale: Locale): seq<Row> {
    StableSort(Chronological(locale), ThreadOf(rows, key))
  }

  type Index = map<string, Entry>

  function AddCalls(index: Index, calls: seq<Row>, n: nat): Index
    requires n <= |calls|
  {
    if n == 0 then index else AddCalls(index, calls, n - 1)[calls[n - 1].recordId := EntryAt(calls, n - 1)]
  }

  function AddThreads(rows: seq<Row>, keys: seq<string>, locale: Locale): Index {
    if keys == [] then map[]
    else
      var calls := Calls(rows, keys[|keys| - 1], locale);
      AddCalls(AddThreads(rows, keys[..|keys| - 1], locale), calls, |calls|)
  }

  function AdjacencyIndex(rows: seq<Row>, locale: Locale): Index {
    AddThreads(rows, KeyOrder(rows), locale)
  }

  /** The `Map` of the first loop: every key seen so far, with its rows in arrival order. */
  ghost predicate Grouped(rows: seq<Row>, threadRows: map<string, seq<Row>>, order: seq<string>) {
    && order == KeyOrder(rows)
    && (forall key :: key in threadRows <==> key in order)
    && (forall key :: key in order ==> threadRows[key] == ThreadOf(rows, key))
    && (forall key :: key !in order ==> ThreadOf(rows, key) == [])
  }

  lemma GroupedStep(rows: seq<Row>, i: nat, threadRows: map<string, seq<Row>>, order: seq<string>)
    requires i < |rows| && Grouped(rows[..i], threadRows, order)
    ensures var key := ThreadKey(rows[i]);
      if key in threadRows then Grouped(rows[..i + 1], threadRows[key := threadRows[key] + [rows[i]]], order)
      else Grouped(rows[..i + 1], threadRows[key := [rows[i]]], order + [key])
  {
    hide ThreadKey;
    assert rows[..i + 1][..i] == rows[..i];
  }

  method BuildCallAdjacencyIndex(rows: seq<Row>, locale: Locale) returns (adjacency: Index)
    ensures adjacency == AdjacencyIndex(rows, locale)
  {
    hide Chronological, ThreadKey, ThreadOf, KeyOrder, StableSort;
    var threadRows: map<string, seq<Row>> := map[];
    var order: seq<string> := [];
    assert Grouped(rows[..0], threadRows, order) by {
      NothingGrouped(rows);
    }
    for i := 0 to |rows|
      invariant Grouped(rows[..i], threadRows, order)
    {
      GroupedStep(rows, i, threadRows, order);
      var key := ThreadKey(rows[i]);
      if key in threadRows {
        threadRows := threadRows[key := threadRows[key] + [rows[i]]];
      } else {
        threadRows := threadRows[key := [rows[i]]];
        order := order + [key];
      }
    }
    assert rows[..|rows|] == rows;
    adjacency := map[];
    for j := 0 to |order|
      invariant adjacency == AddThreads(rows, order[..j], locale)
    {
      var calls := StableSort(Chronological(locale), threadRows[order[j]]);
      ghost var before := adjacency;
      for i := 0 to |calls|
        invariant adjacency == AddCalls(before, calls, i)
      {
        adjacency := adjacency[calls[i].recordId :=
          Entry(calls, i, if i > 0 then Some(calls[i - 1]) else None,
                if i < |calls| - 1 then Some(calls[i + 1]) else None)];
      }
      assert order[..j + 1][..j] == order[..j];
    }
    assert order[..|order|] == order;
  }

  lemma NothingGrouped(rows: seq<Row>)
    ensures Grouped(rows[..0], map[], [])
  {
  }

  // ----- what the index means -----

  predicate UniqueIds(rows: seq<Row>) {
    forall i, j :: 0 <= i < j < |rows| ==> rows[i].recordId != rows[j].recordId
  }

  lemma {:induction false} ThreadMembers(rows: seq<Row>, key: string)
    ensures forall r :: r in ThreadOf(rows, key) <==> r in rows && ThreadKey(r) == key
  {
    if rows != [] {
      ThreadMembers(rows[..|rows| - 1], key);
      assert rows == rows[..|rows| - 1] + [rows[|rows| - 1]];
    }
  }

  lemma {:induction false} ThreadIsUnique(rows: seq<Row>, key: string)
    requires UniqueIds(rows)
    ensures UniqueIds(ThreadOf(rows, key))
  {
    hide ThreadKey;
    if rows != [] {
      var init, last := rows[..|rows| - 1], rows[|rows| - 1];
      ThreadIsUnique(init, key);
      ThreadMembers(init, key);
      var before := ThreadOf(init, key);
      forall i | 0 <= i < |before| ensures before[i].recordId != last.recordId {
        assert before[i] in init;
      }
    }
  }

  lemma {:induction false} KeyOrderMembers(rows: seq<Row>, row: Row)
    requires row in rows
    ensures ThreadKey(row) in KeyOrder(rows)
  {
    if row != rows[|rows| - 1] {
      assert rows == rows[..|rows| - 1] + [rows[|rows| - 1]];
      KeyOrderMembers(rows[..|rows| - 1], row);
    }
  }

  lemma {:induction false} UniqueMultiplicity(rows: seq<Row>, r: Row)
    requires UniqueIds(rows)
    ensures multiset(rows)[r] <= 1
  {
    if rows != [] {
      var init, last := rows[..|rows| - 1], rows[|rows| - 1];
      UniqueMultiplicity(init, r);
      assert rows == init + [last];
      if r == last {
        assert r !in init;
      }
    }
  }

  lemma PermutationKeepsIds(a: seq<Row>, b: seq<Row>)
    requires UniqueIds(a) && multiset(a) == multiset(b)
    ensures UniqueIds(b)
    ensures forall r :: r in b <==> r in a
  {
    forall r ensures r in b <==> r in a {
      assert r in multiset(b) <==> r in multiset(a);
    }
    forall i, j | 0 <= i < j < |b| ensures b[i].recordId != b[j].recordId {
      if b[i] == b[j] {
        assert b == b[..i] + [b[i]] + b[i + 1..j] + [b[j]] + b[j + 1..];
        UniqueMultiplicity(a, b[i]);
      }
      assert b[i] in a && b[j] in a;
    }
  }

  lemma CallsOfThread(rows: seq<Row>, key: string, locale: Locale)
    requires UniqueIds(rows)
    ensures UniqueIds(Calls(rows, key, locale))
    ensures forall r :: r in Calls(rows, key, locale) <==> r in rows && ThreadKey(r) == key
  {
    ThreadMembers(rows, key);
    ThreadIsUnique(rows, key);
    PermutationKeepsIds(ThreadOf(rows, key), Calls(rows, key, locale));
  }

  lemma {:induction false} AddCallsHit(index: Index, calls: seq<Row>, n: nat, i: nat)
    requires i < n <= |calls| && UniqueIds(calls)
    ensures calls[i].recordId in AddCalls(index, calls, n)
    ensures AddCalls(index, calls, n)[calls[i].recordId] == EntryAt(calls, i)
  {
    if i < n - 1 {
      AddCallsHit(index, calls, n - 1, i);
    }
  }

  lemma {:induction false} AddCallsMiss(index: Index, calls: seq<Row>, n: nat, id: string)
    requires n <= |calls|
    requires forall i :: 0 <= i < n ==> calls[i].recordId != id
    ensures id in AddCalls(index, calls, n) <==> id in index
    ensures id in index ==> AddCalls(index, calls, n)[id] == index[id]
  {
    if n > 0 {
      AddCallsMiss(index, calls, n - 1, id);
    }
  }

  /** The entry of `row` stands at its place in its sorted thread. */
  predicate Placed(index: Index, row: Row, calls: seq<Row>) {
    && row.recordId in index
    && var e := index[row.recordId];
    && e.index < |calls|
    && calls[e.index] == row
    && e == EntryAt(calls, e.index)
  }

  lemma AddOneThread(rows: seq<Row>, index: Index, key: string, row: Row, locale: Locale)
    requires UniqueIds(rows) && row in rows
    ensures var calls := Calls(rows, key, locale);
            var after := AddCalls(index, calls, |calls|);
      if ThreadKey(row) == key then Placed(after, row, calls)
      else (row.recordId in after <==> row.recordId in index)
           && (row.recordId in index ==> after[row.recordId] == index[row.recordId])
  {
    var calls := Calls(rows, key, locale);
    CallsOfThread(rows, key, locale);
    if ThreadKey(row) == key {
      var i :| 0 <= i < |calls| && calls[i] == row;
      AddCallsHit(index, calls, |calls|, i);
    } else {
      forall i | 0 <= i < |calls| ensures calls[i].recordId != row.recordId {
        assert calls[i] in calls;
        DistinctRows(rows, calls[i], row);
      }
      AddCallsMiss(index, calls, |calls|, row.recordId);
    }
  }

  lemma DistinctRows(rows: seq<Row>, a: Row, b: Row)
    requires UniqueIds(rows) && a in rows && b in rows && a != b
    ensures a.recordId != b.recordId
  {
  }

  lemma {:induction false} RowIsPlaced(rows: seq<Row>, keys: seq<string>, row: Row, locale: Locale)
    requires UniqueIds(rows) && row in rows && ThreadKey(row) in keys
    ensures Placed(AddThreads(rows, keys, locale), row, Calls(rows, ThreadKey(row), locale))
  {
    hide Calls, Placed, AddCalls, ThreadKey, UniqueIds, AddThreads;
    var init, key := keys[..|keys| - 1], keys[|keys| - 1];
    var before, after := AddThreads(rows, init, locale), AddThreads(rows, keys, locale);
    LastThread(rows, keys, locale);
    AddOneThread(rows, before, key, row, locale);
    if ThreadKey(row) != key {
      assert keys == init + [key];
      RowIsPlaced(rows, init, row, locale);
      PlacedElsewhere(before, after, row, Calls(rows, ThreadKey(row), locale));
    }
  }

  lemma LastThread(rows: seq<Row>, keys: seq<string>, locale: Locale)
    requires keys != []
    ensures var calls := Calls(rows, keys[|keys| - 1], locale);
      AddThreads(rows, keys, locale) == AddCalls(AddThreads(rows, keys[..|keys| - 1], locale), calls, |calls|)
  {
  }

  lemma PlacedElsewhere(before: Index, after: Index, row: Row, calls: seq<Row>)
    requires Placed(before, row, calls)
    requires row.recordId in after <==> row.recordId in before
    requires row.recordId in before ==> after[row.recordId] == before[row.recordId]
    ensures Placed(after, row, calls)
  {
  }

  /** Every row is indexed once, at its place in its own chronologically sorted thread. */
  lemma IndexCoversRows(rows: seq<Row>, row: Row, locale: Locale)
    requires UniqueIds(rows) && row in rows
    ensures var index := AdjacencyIndex(rows, locale);
      && row.recordId in index
      && var e := index[row.recordId];
      && e.calls == Calls(rows, ThreadKey(row), locale)
      && e.index < |e.calls| && e.calls[e.index] == row
      && e == EntryAt(e.calls, e.index)
      && (IsPreorder(locale) ==> Sorted(Chronological(locale), e.calls))
      && (forall r :: r in e.calls <==> r in rows && ThreadKey(r) == ThreadKey(row))
  {
    KeyOrderMembers(rows, row);
    RowIsPlaced(rows, KeyOrder(rows), row, locale);
    CallsOfThread(rows, ThreadKey(row), locale);
    if IsPreorder(locale) {
      ChronologicalIsPreorder(locale);
      SortIsSorted(Chronological(locale), ThreadOf(rows, ThreadKey(row)));
    }
    hide Chronological, Sorted, IsPreorder, AddThreads;
  }

  /**
   The calls of an entry stand oldest first, and where the times agree the call with
   the smaller running total comes first. Its neighbours are the calls beside it.
   */
  lemma OldestFirst(rows: seq<Row>, row: Row, i: nat, j: nat, locale: Locale)
    requires UniqueIds(rows) && row in rows && IsPreorder(locale)
    requires row.recordId in AdjacencyIndex(rows, locale)
    requires i < j < |AdjacencyIndex(rows, locale)[row.recordId].calls|
    ensures var e := AdjacencyIndex(rows, locale)[row.recordId];
            var (a, b) := (e.calls[i], e.calls[j]);
      && locale(a.eventTimestamp, b.eventTimestamp) <= 0
      && (locale(a.eventTimestamp, b.eventTimestamp) == 0 ==> a.cumulativeTotalTokens <= b.cumulativeTotalTokens)
      && e.index < |e.calls| && e.calls[e.index] == row
      && e.previous == (if e.index == 0 then None else Some(e.calls[e.index - 1]))
      && e.next == (if e.index == |e.calls| - 1 then None else Some(e.calls[e.index + 1]))
  {
    hide AdjacencyIndex, Calls, IsPreorder;
    IndexCoversRows(rows, row, locale);
    var calls := AdjacencyIndex(rows, locale)[row.recordId].calls;
    var a, b := calls[i], calls[j];
    assert Chronological(locale)(a, b) <= 0;
    assert Chronological(locale)(a, b) == Then(locale(a.eventTimestamp, b.eventTimestamp),
                                               a.cumulativeTotalTokens - b.cumulativeTotalTokens);
  }

  lemma ChronologicalIsPreorder(locale: Locale)
    requires IsPreorder(locale)
    ensures IsPreorder(Chronological(locale))
  {
    var byTime := By(locale, (row: Row) => row.eventTimestamp);
    var byTokens: Comparator<Row> := (a: Row, b: Row) => a.cumulativeTotalTokens - b.cumulativeTotalTokens;
    ByIsPreorder(locale, (row: Row) => row.eventTimestamp);
    assert IsPreorder(byTokens);
    LexIsPreorder(byTime, byTokens);
    assert Chronological(locale) == Lex(byTime, byTokens);
  }

  lemma {:induction false} AddCallsKeys(index: Index, calls: seq<Row>, n: nat, id: string)
    requires n <= |calls| && id in AddCalls(index, calls, n) && id !in index
    ensures exists r :: r in calls && r.recordId == id
  {
    if id == calls[n - 1].recordId {
      assert calls[n - 1] in calls;
    } else {
      AddCallsKeys(index, calls, n - 1, id);
    }
  }

  /** Nothing but the given rows is indexed. */
  lemma {:induction false} OnlyRowsAreIndexed(rows: seq<Row>, keys: seq<string>, id: string, locale: Locale)
    requires id in AddThreads(rows, keys, locale)
    ensures exists r :: r in rows && r.recordId == id
  {
    hide AddCalls, Calls;
    var init, key := keys[..|keys| - 1], keys[|keys| - 1];
    if id in AddThreads(rows, init, locale) {
      OnlyRowsAreIndexed(rows, init, id, locale);
    } else {
      var calls := Calls(rows, key, locale);
      AddCallsKeys(AddThreads(rows, init, locale), calls, |calls|, id);
      var r :| r in calls && r.recordId == id;
      CallsMembers(rows, key, locale);
    }
  }

  lemma CallsMembers(rows: seq<Row>, key: string, locale: Locale)
    ensures forall r :: r in Calls(rows, key, locale) <==> r in rows && ThreadKey(r) == key
  {
    hide StableSort, ThreadKey;
    ThreadMembers(rows, key);
    var calls, thread := Calls(rows, key, locale), ThreadOf(rows, key);
    forall r ensures r in calls <==> r in thread {
      assert r in multiset(calls) <==> r in multiset(thread);
    }
  }

  /** `s` comes next after `r` exactly when `r` comes just before `s`, and then they share a thread. */
  lemma NeighboursAgree(rows: seq<Row>, r: Row, s: Row, locale: Locale)
    requires UniqueIds(rows) && r in rows && s in rows
    ensures var index := AdjacencyIndex(rows, locale);
      && r.recordId in index && s.recordId in index
      && (index[r.recordId].next == Some(s) <==> index[s.recordId].previous == Some(r))
      && (index[r.recordId].next == Some(s) ==> ThreadKey(r) == ThreadKey(s))
  {
    hide AdjacencyIndex, Calls, ThreadKey;
    IndexCoversRows(rows, r, locale);
    IndexCoversRows(rows, s, locale);
    var index := AdjacencyIndex(rows, locale);
    var e, f := index[r.recordId], index[s.recordId];
    CallsOfThread(rows, ThreadKey(r), locale);
    CallsOfThread(rows, ThreadKey(s), locale);
    if e.next == Some(s) {
      assert s in e.calls;
      SamePlace(e.calls, e.index + 1, f.index);
    }
    if f.previous == Some(r) {
      assert r in f.calls;
      SamePlace(f.calls, f.index - 1, e.index);
    }
  }

  lemma SamePlace(calls: seq<Row>, i: nat, j: nat)
    requires UniqueIds(calls) && i < |calls| && j < |calls| && calls[i] == calls[j]
    ensures i == j
  {
  }

  /** Following `next` at most `n` times. */
  function Walk(index: Index, row: Row, n: nat): seq<Row>
    decreases n
  {
    if n == 0 || row.recordId !in index || index[row.recordId].next.None? then [row]
    else [row] + Walk(index, index[row.recordId].next.value, n - 1)
  }

  /** From any call, `next` visits exactly the rest of its thread, in order, and then stops. */
  lemma {:induction false} WalkVisitsThread(rows: seq<Row>, key: string, i: nat, n: nat, locale: Locale)
    requires UniqueIds(rows) && i < |Calls(rows, key, locale)| <= i + 1 + n
    ensures var calls := Calls(rows, key, locale);
      Walk(AdjacencyIndex(rows, locale), calls[i], n) == calls[i..]
    decreases n
  {
    hide AdjacencyIndex, Calls, ThreadKey;
    var calls, index := Calls(rows, key, locale), AdjacencyIndex(rows, locale);
    CallsOfThread(rows, key, locale);
    assert calls[i] in calls;
    IndexCoversRows(rows, calls[i], locale);
    SamePlace(calls, i, index[calls[i].recordId].index);
    if i + 1 < |calls| {
      WalkVisitsThread(rows, key, i + 1, n - 1, locale);
      assert calls[i..] == [calls[i]] + calls[i + 1..];
    } else {
      assert calls[i..] == [calls[i]];
    }
  }

  /** Named and unnamed calls never share a thread, whatever their names and session ids are. */
  lemma ThreadsNeverMix(r: Row, s: Row)
    ensures ThreadKey(r) == ThreadKey(s)
            <==> if Named(r) && Named(s) then r.threadName == s.threadName
                 else !Named(r) && !Named(s) && Or(r.sessionId, "unknown") == Or(s.sessionId, "unknown")
  {
    if Named(r) {
      assert ThreadKey(r)[7..] == r.threadName && ThreadKey(r)[0] == 't';
    } else {
      assert ThreadKey(r)[8..] == Or(r.sessionId, "unknown") && ThreadKey(r)[0] == 's';
    }
    if Named(s) {
      assert ThreadKey(s)[7..] == s.threadName && ThreadKey(s)[0] == 't';
    } else {
      assert ThreadKey(s)[8..] == Or(s.sessionId, "unknown") && ThreadKey(s)[0] == 's';
    }
  }

  /** The neighbours of any call; one that is not among the rows stands alone. */
  function AdjacentThreadCalls(rows: seq<Row>, row: Row, locale: Locale): Entry {
    var index := AdjacencyIndex(rows, locale);
    if row.recordId in index then index[row.recordId] else Entry([row], 0, None, None)
  }

  /**
   A call is found by its id alone: it stands in the thread of the row with that id, or
   by itself if there is none.
   */
  lemma AdjacentByIdAlone(rows: seq<Row>, row: Row, known: Row, locale: Locale)
    requires UniqueIds(rows)
    ensures known in rows && known.recordId == row.recordId ==>
              var e := AdjacentThreadCalls(rows, row, locale);
              e.calls == Calls(rows, ThreadKey(known), locale) && e.index < |e.calls| && e.calls[e.index] == known
    ensures (forall r :: r in rows ==> r.recordId != row.recordId) ==>
              AdjacentThreadCalls(rows, row, locale) == EntryAt([row], 0)
  {
    hide AdjacencyIndex, Calls;
    if known in rows && known.recordId == row.recordId {
      IndexCoversRows(rows, known, locale);
    }
    if row.recordId in AdjacencyIndex(rows, locale) {
      IndexedIsARow(rows, row.recordId, locale);
    }
  }

  lemma IndexedIsARow(rows: seq<Row>, id: string, locale: Locale)
    requires id in AdjacencyIndex(rows, locale)
    ensures exists r :: r in rows && r.recordId == id
  {
    OnlyRowsAreIndexed(rows, KeyOrder(rows), id, locale);
  }

  // ----- rows that share an id -----

  /** Where the last call with the id stands: in the last thread that has one, its last one. */
  predicate IsLastPlace(rows: seq<Row>, keys: seq<string>, id: string, k: nat, i: nat, locale: Locale) {
    && k < |keys|
    && var calls := Calls(rows, keys[k], locale);
    && i < |calls| && calls[i].recordId == id
    && (forall j :: i < j < |calls| ==> calls[j].recordId != id)
    && (forall m :: k < m < |keys| ==> NoCallHas(rows, keys[m], id, locale))
  }

  predicate NoCallHas(rows: seq<Row>, key: string, id: string, locale: Locale) {
    forall r :: r in Calls(rows, key, locale) ==> r.recordId != id
  }

  lemma {:induction false} LastCallWins(index: Index, calls: seq<Row>, n: nat, i: nat)
    requires i < n <= |calls| && forall j :: i < j < n ==> calls[j].recordId != calls[i].recordId
    ensures calls[i].recordId in AddCalls(index, calls, n)
    ensures AddCalls(index, calls, n)[calls[i].recordId] == EntryAt(calls, i)
  {
    if i < n - 1 {
      LastCallWins(index, calls, n - 1, i);
    }
  }

  lemma {:induction false} LastWithId(calls: seq<Row>, id: string) returns (i: nat)
    requires exists r :: r in calls && r.recordId == id
    ensures i < |calls| && calls[i].recordId == id
    ensures forall j :: i < j < |calls| ==> calls[j].recordId != id
  {
    var init, last := calls[..|calls| - 1], calls[|calls| - 1];
    if last.recordId == id {
      i := |calls| - 1;
    } else {
      assert calls == init + [last];
      i := LastWithId(init, id);
    }
  }

  lemma {:induction false} EntryOfLast(rows: seq<Row>, keys: seq<string>, id: string, locale: Locale)
    returns (k: nat, i: nat)
    requires id in AddThreads(rows, keys, locale)
    ensures IsLastPlace(rows, keys, id, k, i, locale)
    ensures AddThreads(rows, keys, locale)[id] == EntryAt(Calls(rows, keys[k], locale), i)
  {
    hide Calls, AddCalls;
    var init, key := keys[..|keys| - 1], keys[|keys| - 1];
    var before, calls := AddThreads(rows, init, locale), Calls(rows, key, locale);
    LastThread(rows, keys, locale);
    if exists r :: r in calls && r.recordId == id {
      k := |keys| - 1;
      i := LastWithId(calls, id);
      LastCallWins(before, calls, |calls|, i);
    } else {
      assert NoCallHas(rows, key, id, locale);
      AddCallsMiss(before, calls, |calls|, id);
      k, i := EntryOfLast(rows, init, id, locale);
    }
  }

  lemma {:induction false} RowsAreIndexed(rows: seq<Row>, keys: seq<string>, row: Row, locale: Locale)
    requires row in rows && ThreadKey(row) in keys
    ensures row.recordId in AddThreads(rows, keys, locale)
  {
    hide Calls, AddCalls, ThreadKey;
    var init, key := keys[..|keys| - 1], keys[|keys| - 1];
    var before, calls := AddThreads(rows, init, locale), Calls(rows, key, locale);
    LastThread(rows, keys, locale);
    CallsMembers(rows, key, locale);
    if exists r :: r in calls && r.recordId == row.recordId {
      var i := LastWithId(calls, row.recordId);
      LastCallWins(before, calls, |calls|, i);
    } else {
      assert ThreadKey(row) != key && keys == init + [key];
      RowsAreIndexed(rows, init, row, locale);
      AddCallsMiss(before, calls, |calls|, row.recordId);
    }
  }

  lemma PlaceIsUnique(rows: seq<Row>, keys: seq<string>, id: string, k: nat, i: nat, m: nat, j: nat, locale: Locale)
    requires IsLastPlace(rows, keys, id, k, i, locale) && IsLastPlace(rows, keys, id, m, j, locale)
    ensures k == m && i == j
  {
    hide Calls;
    assert Calls(rows, keys[k], locale)[i] in Calls(rows, keys[k], locale);
    assert Calls(rows, keys[m], locale)[j] in Calls(rows, keys[m], locale);
    assert k < m ==> NoCallHas(rows, keys[m], id, locale);
    assert m < k ==> NoCallHas(rows, keys[k], id, locale);
  }

  /**
   Whether or not ids are unique: an id is indexed iff a row has it, and its entry is
   that of the last call with the id in the last thread that has one.
   */
  lemma LastCallOfLastThread(rows: seq<Row>, id: string, locale: Locale)
    ensures var index := AdjacencyIndex(rows, locale);
      && (id in index <==> exists r :: r in rows && r.recordId == id)
      && (id in index ==> exists k: nat, i: nat :: IsLastPlace(rows, KeyOrder(rows), id, k, i, locale))
      && forall k: nat, i: nat :: id in index && IsLastPlace(rows, KeyOrder(rows), id, k, i, locale) ==>
           index[id] == EntryAt(Calls(rows, KeyOrder(rows)[k], locale), i)
  {
    hide Calls, ThreadKey, AddThreads, IsLastPlace;
    var index, keys := AdjacencyIndex(rows, locale), KeyOrder(rows);
    if id in index {
      IndexedIsARow(rows, id, locale);
      var k, i := EntryOfLast(rows, keys, id, locale);
      forall m: nat, j: nat | IsLastPlace(rows, keys, id, m, j, locale) ensures m == k && j == i {
        PlaceIsUnique(rows, keys, id, k, i, m, j, locale);
      }
    }
    if row :| row in rows && row.recordId == id {
      KeyOrderMembers(rows, row);
      RowsAreIndexed(rows, keys, row, locale);
    }
  }
}
