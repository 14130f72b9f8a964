/** Merging a freshly loaded page of sessions into the list already shown. */
module SessionMerge {
  import opened Ordering

  /** `detail` stands for the fields that are only displayed. */
  datatype Session = Session(id: string, path: string, sizeBytes: int, modifiedAt: int, detail: string)

  datatype Sort = Newest | Largest | Smallest

  function Primary(sort: Sort, left: Session, right: Session): int {
    match sort
    case Largest => right.sizeBytes - left.sizeBytes
    case Smallest => left.sizeBytes - right.sizeBytes
    case Newest => right.modifiedAt - left.modifiedAt
  }

  function ByPath(locale: Locale): Comparator<Session> {
    By(locale, (session: Session) => session.path)
  }

  function CompareSessions(sort: Sort, locale: Locale): Comparator<Session> {
    Lex((left, right) => Primary(sort, left, right), ByPath(locale))
  }

  /** `Map.set` keyed by path: an existing key keeps its place. */
  function SetEntry(entries: seq<Session>, session: Session): seq<Session> {
    if entries == [] then [session]
    else if entries[0].path == session.path then [session] + entries[1..]
    else [entries[0]] + SetEntry(entries[1..], session)
  }

  function SetAll(entries: seq<Session>, items: seq<Session>): seq<Session> {
    if items == [] then entries
    else SetEntry(SetAll(entries, items[..|items| - 1]), items[|items| - 1])
  }

  function Merged(current: seq<Session>, next: seq<Session>, sort: Sort, locale: Locale): seq<Session> {
    StableSort(CompareSessions(sort, locale), SetAll(SetAll([], current), next))
  }

  method MergeSessions(current: seq<Session>, next: seq<Session>, sort: Sort, locale: Locale)
    returns (r: seq<Session>)
    ensures r == Merged(current, next, sort, locale)
  {
    var merged: seq<Session> := [];
    for i := 0 to |current|
      invariant merged == SetAll([], current[..i])
    {
      merged := SetEntry(merged, current[i]);
      assert current[..i + 1][..i] == current[..i];
    }
    assert current[..|current|] == current;
    for i := 0 to |next|
      invariant merged == SetAll(SetAll([], current), next[..i])
    {
      merged := SetEntry(merged, next[i]);
      assert next[..i + 1][..i] == next[..i];
    }
    assert next[..|next|] == next;
    r := StableSort(CompareSessions(sort, locale), merged);
  }

  // ----- what a merge means -----

  predicate UniquePaths(s: seq<Session>) {
    forall i, j :: 0 <= i < j < |s| ==> s[i].path != s[j].path
  }

  /** The last session listed under each path. */
  function Contents(items: seq<Session>): map<string, Session> {
    if items == [] then map[]
    else Contents(items[..|items| - 1])[items[|items| - 1].path := items[|items| - 1]]
  }

  lemma CompareIsPreorder(sort: Sort, locale: Locale)
    requires IsLocale(locale)
    ensures IsPreorder(CompareSessions(sort, locale))
  {
    var primary: Comparator<Session> := (left, right) => Primary(sort, left, right);
    assert forall x, y :: primary(x, y) == Primary(sort, x, y);
    ByIsPreorder(locale, (session: Session) => session.path);
    LexIsPreorder(primary, ByPath(locale));
  }

  lemma UniqueHasNoTies(s: seq<Session>, sort: Sort, locale: Locale)
    requires IsLocale(locale) && UniquePaths(s)
    ensures NoTies(CompareSessions(sort, locale), s)
  {
    var cmp := CompareSessions(sort, locale);
    forall x, y | x in s && y in s && cmp(x, y) == 0 ensures x == y {
      assert cmp(x, y) == Then(Primary(sort, x, y), ByPath(locale)(x, y));
    }
  }

  /** `r` is `entries` with `session` under its path. */
  ghost predicate IsSet(entries: seq<Session>, session: Session, r: seq<Session>) {
    UniquePaths(r) && forall x :: x in r <==> x == session || (x in entries && x.path != session.path)
  }

  lemma SetHere(entries: seq<Session>, session: Session)
    requires entries != [] && UniquePaths(entries) && entries[0].path == session.path
    ensures IsSet(entries, session, [session] + entries[1..])
  {
    var tail := entries[1..];
    assert forall x :: x in entries <==> x == entries[0] || x in tail;
    forall i | 0 <= i < |tail| ensures tail[i].path != session.path {
      assert tail[i] == entries[i + 1];
    }
  }

  lemma SetFurtherOn(entries: seq<Session>, session: Session, tail: seq<Session>)
    requires entries != [] && UniquePaths(entries) && entries[0].path != session.path
    requires IsSet(entries[1..], session, tail)
    ensures IsSet(entries, session, [entries[0]] + tail)
  {
    var rest := entries[1..];
    assert forall x :: x in entries <==> x == entries[0] || x in rest;
    forall i | 0 <= i < |tail| ensures tail[i].path != entries[0].path {
      assert tail[i] in tail;
    }
  }

  lemma {:induction false} SetEntryIndices(entries: seq<Session>, session: Session)
    requires UniquePaths(entries)
    ensures IsSet(entries, session, SetEntry(entries, session))
  {
    if entries != [] {
      if entries[0].path == session.path {
        SetHere(entries, session);
      } else {
        SetEntryIndices(entries[1..], session);
        SetFurtherOn(entries, session, SetEntry(entries[1..], session));
      }
      hide IsSet, UniquePaths;
    }
  }

  /** With unique paths, the map holds exactly the listed sessions. */
  lemma {:induction false} ContentsMembers(s: seq<Session>)
    requires UniquePaths(s)
    ensures forall x :: x in s <==> x.path in Contents(s) && Contents(s)[x.path] == x
    ensures forall p :: p in Contents(s) ==> Contents(s)[p].path == p
  {
    if s != [] {
      var init, last := s[..|s| - 1], s[|s| - 1];
      ContentsMembers(init);
      assert s == init + [last];
      assert forall x :: x in init ==> x.path != last.path;
    }
  }

  lemma SameMembersSameContents(a: seq<Session>, b: seq<Session>)
    requires UniquePaths(a) && UniquePaths(b)
    requires forall x :: x in a <==> x in b
    ensures Contents(a) == Contents(b)
  {
    ContentsMembers(a);
    ContentsMembers(b);
    forall p | p in Contents(a) ensures p in Contents(b) && Contents(b)[p] == Contents(a)[p] {
      assert Contents(a)[p] in a;
    }
    forall p | p in Contents(b) ensures p in Contents(a) {
      assert Contents(b)[p] in b;
    }
  }

  lemma ContentsOfSetEntry(entries: seq<Session>, session: Session)
    requires UniquePaths(entries)
    ensures Contents(SetEntry(entries, session)) == Contents(entries)[session.path := session]
  {
    SetEntryIndices(entries, session);
    ContentsMembers(entries);
    ContentsMembers(SetEntry(entries, session));
    var after, expected := Contents(SetEntry(entries, session)), Contents(entries)[session.path := session];
    forall p ensures p in after <==> p in expected {
      if p in after {
        assert after[p] in SetEntry(entries, session);
      }
      if p in expected && p != session.path {
        assert expected[p] in entries;
      }
    }
    forall p | p in after ensures after[p] == expected[p] {
      assert after[p] in SetEntry(entries, session);
    }
  }

  lemma {:induction false} ContentsOfSetAll(entries: seq<Session>, items: seq<Session>)
    requires UniquePaths(entries)
    ensures UniquePaths(SetAll(entries, items))
    ensures Contents(SetAll(entries, items)) == Contents(entries) + Contents(items)
  {
    hide SetEntry, UniquePaths;
    if items == [] {
      assert Contents(entries) + map[] == Contents(entries);
    } else {
      var init, last := items[..|items| - 1], items[|items| - 1];
      ContentsOfSetAll(entries, init);
      SetEntryIndices(SetAll(entries, init), last);
      ContentsOfSetEntry(SetAll(entries, init), last);
      assert Contents(items) == Contents(init)[last.path := last];
    }
  }

  lemma {:induction false} UniqueMultiset(s: seq<Session>)
    requires UniquePaths(s)
    ensures multiset(s) == multiset(set x | x in s)
  {
    if s != [] {
      var init, last := s[..|s| - 1], s[|s| - 1];
      UniqueMultiset(init);
      assert s == init + [last];
      assert last !in init;
      assert (set x | x in s) == (set x | x in init) + {last};
    }
  }

  lemma PermutationKeepsUnique(a: seq<Session>, b: seq<Session>)
    requires UniquePaths(a) && multiset(a) == multiset(b)
    ensures UniquePaths(b)
  {
    forall i, j | 0 <= i < j < |b| ensures b[i].path != b[j].path {
      if b[i].path == b[j].path {
        assert b == b[..i] + [b[i]] + b[i + 1..j] + [b[j]] + b[j + 1..];
        assert b[i] in multiset(a) && b[j] in multiset(a);
        UniqueMultiset(a);
      }
    }
  }

  lemma SortKeepsContents(entries: seq<Session>, cmp: Comparator<Session>)
    requires UniquePaths(entries)
    ensures UniquePaths(StableSort(cmp, entries)) && Contents(StableSort(cmp, entries)) == Contents(entries)
  {
    hide UniquePaths, Contents;
    var r := StableSort(cmp, entries);
    PermutationKeepsUnique(entries, r);
    forall x ensures x in r <==> x in entries {
      assert x in multiset(r) <==> x in multiset(entries);
    }
    SameMembersSameContents(r, entries);
  }

  lemma EntriesMeaning(current: seq<Session>, next: seq<Session>)
    ensures var entries := SetAll(SetAll([], current), next);
      UniquePaths(entries) && Contents(entries) == Contents(current) + Contents(next)
  {
    ContentsOfSetAll([], current);
    ContentsOfSetAll(SetAll([], current), next);
    assert map[] + Contents(current) == Contents(current);
  }

  /** One entry per path, sorted, and the union of both lists with the new page winning. */
  lemma MergeMeaning(current: seq<Session>, next: seq<Session>, sort: Sort, locale: Locale)
    requires IsLocale(locale)
    ensures var r := Merged(current, next, sort, locale);
      && UniquePaths(r)
      && Sorted(CompareSessions(sort, locale), r)
      && Contents(r) == Contents(current) + Contents(next)
  {
    hide SetAll, Contents, Sorted, IsPreorder, UniquePaths, StableSort, CompareSessions;
    var entries := SetAll(SetAll([], current), next);
    EntriesMeaning(current, next);
    SortKeepsContents(entries, CompareSessions(sort, locale));
    CompareIsPreorder(sort, locale);
    SortIsSorted(CompareSessions(sort, locale), entries);
  }

  /** The `i`-th session is the last one listed under its path. */
  predicate LastUnderPath(items: seq<Session>, i: nat) {
    i < |items| && forall j :: i < j < |items| ==> items[j].path != items[i].path
  }

  ghost predicate HoldsLast(items: seq<Session>, x: Session) {
    exists i: nat :: LastUnderPath(items, i) && items[i] == x
  }

  lemma HoldsSnoc(init: seq<Session>, last: Session, x: Session)
    ensures HoldsLast(init + [last], x) <==> x == last || (HoldsLast(init, x) && last.path != x.path)
  {
    var items := init + [last];
    assert LastUnderPath(items, |init|);
    if i: nat :| LastUnderPath(init, i) && init[i] == x && last.path != x.path {
      assert items[i] == x;
      forall j | i < j < |items| ensures items[j].path != x.path {
        assert j < |init| ==> items[j] == init[j];
      }
      assert LastUnderPath(items, i);
    }
    if i: nat :| LastUnderPath(items, i) && items[i] == x && x != last {
      assert items[|init|].path != x.path;
      forall j | i < j < |init| ensures init[j].path != x.path {
        assert items[j] == init[j];
      }
      assert LastUnderPath(init, i);
    }
  }

  lemma {:induction false} ContentsAreLast(items: seq<Session>, x: Session)
    ensures HoldsLast(items, x) <==> x.path in Contents(items) && Contents(items)[x.path] == x
    ensures x.path in Contents(items) <==> exists i :: 0 <= i < |items| && items[i].path == x.path
  {
    if items != [] {
      hide HoldsLast;
      var init, last := items[..|items| - 1], items[|items| - 1];
      ContentsAreLast(init, x);
      HoldsSnoc(init, last, x);
      assert items == init + [last];
    }
  }

  /** Which sessions are listed: those of the new page, and those of the old list whose path it does not have. */
  lemma WhatIsListed(current: seq<Session>, next: seq<Session>, sort: Sort, locale: Locale, x: Session)
    requires IsLocale(locale)
    ensures x in Merged(current, next, sort, locale)
            <==> HoldsLast(next, x)
                 || (HoldsLast(current, x) && forall j :: 0 <= j < |next| ==> next[j].path != x.path)
  {
    hide Merged, HoldsLast, UniquePaths;
    MergeMeaning(current, next, sort, locale);
    ContentsMembers(Merged(current, next, sort, locale));
    ContentsAreLast(current, x);
    ContentsAreLast(next, x);
    hide Contents;
  }

  /** In which order they are listed, spelled out for the three sorts; ties go by path. */
  lemma HowItIsListed(current: seq<Session>, next: seq<Session>, sort: Sort, locale: Locale, i: nat, j: nat)
    requires IsLocale(locale) && i < j < |Merged(current, next, sort, locale)|
    ensures var r := Merged(current, next, sort, locale);
            var a, b := r[i], r[j];
      match sort
      case Newest => a.modifiedAt > b.modifiedAt || (a.modifiedAt == b.modifiedAt && locale(a.path, b.path) <= 0)
      case Largest => a.sizeBytes > b.sizeBytes || (a.sizeBytes == b.sizeBytes && locale(a.path, b.path) <= 0)
      case Smallest => a.sizeBytes < b.sizeBytes || (a.sizeBytes == b.sizeBytes && locale(a.path, b.path) <= 0)
  {
    hide Merged, Contents, UniquePaths;
    MergeMeaning(current, next, sort, locale);
    var r := Merged(current, next, sort, locale);
    var a, b := r[i], r[j];
    assert CompareSessions(sort, locale)(a, b) <= 0;
    assert ByPath(locale)(a, b) == locale(a.path, b.path);
    assert CompareSessions(sort, locale)(a, b) == Then(Primary(sort, a, b), ByPath(locale)(a, b));
  }

  /** The merged list depends on what the two lists hold, not on how they are arranged. */
  lemma MergeIsCanonical(a: seq<Session>, b: seq<Session>, c: seq<Session>, d: seq<Session>, sort: Sort, locale: Locale)
    requires IsLocale(locale)
    requires Contents(a) + Contents(b) == Contents(c) + Contents(d)
    ensures Merged(a, b, sort, locale) == Merged(c, d, sort, locale)
  {
    hide Contents, Sorted, IsPreorder, UniquePaths, StableSort, CompareSessions, NoTies, Merged;
    var r, t := Merged(a, b, sort, locale), Merged(c, d, sort, locale);
    MergeMeaning(a, b, sort, locale);
    MergeMeaning(c, d, sort, locale);
    ContentsMembers(r);
    ContentsMembers(t);
    UniqueMultiset(r);
    UniqueMultiset(t);
    assert (set x | x in r) == (set x | x in t);
    CompareIsPreorder(sort, locale);
    UniqueHasNoTies(r, sort, locale);
    SortedUnique(CompareSessions(sort, locale), r, t);
  }

  /** Merging the same page again changes nothing. */
  lemma RemergeIsNoOp(current: seq<Session>, next: seq<Session>, sort: Sort, locale: Locale)
    requires IsLocale(locale)
    ensures var r := Merged(current, next, sort, locale); Merged(r, next, sort, locale) == r
  {
    var r := Merged(current, next, sort, locale);
    MergeMeaning(current, next, sort, locale);
    assert Contents(r) + Contents(next) == Contents(current) + Contents(next);
    MergeIsCanonical(r, next, current, next, sort, locale);
  }

  lemma {:induction false} SetAllMembers(entries: seq<Session>, items: seq<Session>, x: Session)
    requires x in SetAll(entries, items)
    ensures x in entries || x in items
  {
    if items != [] {
      var init, last := items[..|items| - 1], items[|items| - 1];
      SetEntryMembers(SetAll(entries, init), last, x);
      if x != last {
        SetAllMembers(entries, init, x);
      }
    }
  }

  lemma {:induction false} SetEntryMembers(entries: seq<Session>, session: Session, x: Session)
    requires x in SetEntry(entries, session)
    ensures x in entries || x == session
  {
    if entries != [] && entries[0].path != session.path && x != entries[0] {
      SetEntryMembers(entries[1..], session, x);
    }
  }

  lemma MergedMembers(current: seq<Session>, next: seq<Session>, sort: Sort, locale: Locale, x: Session)
    requires x in Merged(current, next, sort, locale)
    ensures x in current || x in next
  {
    var entries := SetAll(SetAll([], current), next);
    assert x in multiset(Merged(current, next, sort, locale));
    assert x in entries;
    SetAllMembers(SetAll([], current), next, x);
    if x in SetAll([], current) {
      SetAllMembers([], current, x);
    }
  }
}
