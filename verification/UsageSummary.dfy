/** Combining partial usage answers into the one summary on screen. */
module UsageSummary {
  import opened Options

  type Bucket = string
  type Row = string

  datatype RowPage = RowPage(rows: seq<Row>, total: nat)

  /** The numeric headline fields, which only an overview answer carries. */
  datatype Stats = Stats(totalCalls: nat, totalTokens: nat)

  /** An overview answer: the whole dashboard as the server computed it. */
  datatype Dashboard = Dashboard(
    stats: Stats, diagnostics: string, activityBuckets: seq<Bucket>, recentCalls: seq<Row>, topThreads: seq<Row>,
    insights: Option<string>, callsPage: Option<RowPage>, threadsPage: Option<RowPage>)

  /** `Partial<UsageDashboard>`; `None` is an absent or null property. */
  datatype Patch = Patch(
    stats: Option<Stats>, diagnostics: Option<string>, activityBuckets: Option<seq<Bucket>>,
    recentCalls: Option<seq<Row>>, topThreads: Option<seq<Row>>,
    insights: Option<string>, callsPage: Option<RowPage>, threadsPage: Option<RowPage>)

  const NOTHING := Patch(None, None, None, None, None, None, None, None)

  /** What is stored: lists default to empty, headline fields are absent until an overview arrives. */
  datatype Summary = Summary(
    stats: Option<Stats>, diagnostics: Option<string>, activityBuckets: seq<Bucket>,
    recentCalls: seq<Row>, topThreads: seq<Row>,
    insights: Option<string>, callsPage: Option<RowPage>, threadsPage: Option<RowPage>)

  const BLANK := Summary(None, None, [], [], [], None, None, None)

  /** `next ?? current`. */
  function Coalesce<T>(next: Option<T>, current: T): T {
    if next.Some? then next.value else current
  }

  function Keep<T>(next: Option<T>, current: Option<T>): Option<T> {
    if next.Some? then next else current
  }

  function MergeSummary(current: Option<Summary>, next: Patch): Summary {
    var base := if current.Some? then current.value else BLANK;
    Summary(
      Keep(next.stats, base.stats),
      Keep(next.diagnostics, base.diagnostics),
      Coalesce(next.activityBuckets, base.activityBuckets),
      Coalesce(next.recentCalls, base.recentCalls),
      Coalesce(next.topThreads, base.topThreads),
      Keep(next.insights, base.insights),
      Keep(next.callsPage, base.callsPage),
      Keep(next.threadsPage, base.threadsPage))
  }

  /** The lists are dropped; insights and pages stay, usually null. */
  function OverviewOnly(d: Dashboard): Patch {
    Patch(Some(d.stats), Some(d.diagnostics), None, None, None, d.insights, d.callsPage, d.threadsPage)
  }

  function ActivityPatch(buckets: seq<Bucket>): Patch { NOTHING.(activityBuckets := Some(buckets)) }

  function InsightsPatch(insights: string): Patch { NOTHING.(insights := Some(insights)) }

  function CallsPatch(page: RowPage): Patch { NOTHING.(callsPage := Some(page), recentCalls := Some(page.rows)) }

  function ThreadsPatch(page: RowPage): Patch { NOTHING.(threadsPage := Some(page), topThreads := Some(page.rows)) }

  function DiagnosticsPatch(diagnostics: string): Patch { NOTHING.(diagnostics := Some(diagnostics)) }

  // ----- arrival order -----

  predicate Agree<T(==)>(a: Option<T>, b: Option<T>) {
    a.Some? && b.Some? ==> a == b
  }

  /** Wherever both carry a value, it is the same one. */
  predicate Compatible(p: Patch, q: Patch) {
    && Agree(p.stats, q.stats) && Agree(p.diagnostics, q.diagnostics)
    && Agree(p.activityBuckets, q.activityBuckets)
    && Agree(p.recentCalls, q.recentCalls) && Agree(p.topThreads, q.topThreads)
    && Agree(p.insights, q.insights) && Agree(p.callsPage, q.callsPage) && Agree(p.threadsPage, q.threadsPage)
  }

  /** Two answers may arrive in either order if and only if they do not contradict each other. */
  lemma MergeCommutes(current: Option<Summary>, p: Patch, q: Patch)
    ensures Compatible(p, q)
            <==> MergeSummary(Some(MergeSummary(current, p)), q) == MergeSummary(Some(MergeSummary(current, q)), p)
  {
  }

  lemma MergeTwice(current: Option<Summary>, p: Patch)
    ensures MergeSummary(Some(MergeSummary(current, p)), p) == MergeSummary(current, p)
  {
  }

  function Fold(current: Option<Summary>, patches: seq<Patch>): Option<Summary> {
    if patches == [] then current
    else Some(MergeSummary(Fold(current, patches[..|patches| - 1]), patches[|patches| - 1]))
  }

  predicate PairwiseCompatible(patches: seq<Patch>) {
    forall p, q :: p in patches && q in patches ==> Compatible(p, q)
  }

  predicate AgreesWithAll(p: Patch, rest: seq<Patch>) {
    forall q :: q in rest ==> Compatible(p, q)
  }

  /** An answer can be moved to the end past answers it agrees with. */
  lemma {:induction false} MoveToEnd(current: Option<Summary>, p: Patch, rest: seq<Patch>)
    requires AgreesWithAll(p, rest)
    ensures Fold(current, [p] + rest) == Fold(current, rest + [p])
  {
    hide MergeSummary, Compatible;
    assert (rest + [p])[..|rest|] == rest;
    if rest == [] {
      assert [p] + rest == rest + [p];
    } else {
      var init, last := rest[..|rest| - 1], rest[|rest| - 1];
      MoveToEnd(current, p, init);
      assert ([p] + rest)[..|rest|] == [p] + init;
      assert (init + [p])[..|init|] == init;
      if Fold(current, init).Some? {
        MergeCommutes(Fold(current, init), p, last);
      } else {
        MergeCommutes(None, p, last);
      }
    }
  }

  lemma {:induction false} FoldOfConcat(current: Option<Summary>, a: seq<Patch>, b: seq<Patch>)
    ensures Fold(current, a + b) == Fold(Fold(current, a), b)
  {
    hide MergeSummary;
    if b == [] {
      assert a + b == a;
    } else {
      FoldOfConcat(current, a, b[..|b| - 1]);
      assert (a + b)[..|a + b| - 1] == a + b[..|b| - 1];
    }
  }

  /** Answers that do not contradict each other give the same summary in every arrival order. */
  lemma {:induction false} ArrivalOrder(current: Option<Summary>, a: seq<Patch>, b: seq<Patch>)
    requires multiset(a) == multiset(b) && PairwiseCompatible(a)
    ensures Fold(current, a) == Fold(current, b)
  {
    hide MergeSummary, Compatible;
    if a == [] {
      assert |multiset(b)| == |b| && |multiset(a)| == 0;
    } else {
      var init, p := a[..|a| - 1], a[|a| - 1];
      assert p in multiset(b);
      var i :| 0 <= i < |b| && b[i] == p;
      var rest := b[..i] + b[i + 1..];
      Without(a, b, i);
      ArrivalOrder(current, init, rest);
      FoldOfConcat(current, b[..i], [p] + b[i + 1..]);
      FoldOfConcat(current, b[..i], b[i + 1..] + [p]);
      assert b == b[..i] + ([p] + b[i + 1..]);
      MoveToEnd(Fold(current, b[..i]), p, b[i + 1..]);
      assert rest + [p] == b[..i] + (b[i + 1..] + [p]);
      assert (rest + [p])[..|rest|] == rest;
    }
  }

  lemma SameWithoutOne(a: seq<Patch>, b: seq<Patch>, i: nat)
    requires multiset(a) == multiset(b) && a != []
    requires i < |b| && b[i] == a[|a| - 1]
    ensures multiset(a[..|a| - 1]) == multiset(b[..i] + b[i + 1..])
  {
    var p := a[|a| - 1];
    assert a == a[..|a| - 1] + [p];
    assert b == b[..i] + [p] + b[i + 1..];
    var rest := b[..i] + b[i + 1..];
    assert multiset(b) == multiset(rest) + multiset{p};
    assert multiset(a) == multiset(a[..|a| - 1]) + multiset{p};
    assert multiset(rest) == multiset(b) - multiset{p} == multiset(a[..|a| - 1]);
  }

  lemma StillCompatible(a: seq<Patch>, n: nat)
    requires PairwiseCompatible(a) && n <= |a|
    ensures PairwiseCompatible(a[..n])
  {
    hide Compatible;
  }

  lemma AgreesWithOthers(a: seq<Patch>, b: seq<Patch>, p: Patch, from: nat)
    requires multiset(a) == multiset(b) && PairwiseCompatible(a) && p in a && from <= |b|
    ensures AgreesWithAll(p, b[from..])
  {
    hide Compatible;
    forall q | q in b[from..] ensures Compatible(p, q) {
      assert q in multiset(b);
      assert q in a;
    }
  }

  lemma Without(a: seq<Patch>, b: seq<Patch>, i: nat)
    requires multiset(a) == multiset(b) && PairwiseCompatible(a) && a != []
    requires i < |b| && b[i] == a[|a| - 1]
    ensures multiset(a[..|a| - 1]) == multiset(b[..i] + b[i + 1..])
    ensures PairwiseCompatible(a[..|a| - 1])
    ensures AgreesWithAll(a[|a| - 1], b[i + 1..])
  {
    hide PairwiseCompatible, AgreesWithAll;
    SameWithoutOne(a, b, i);
    StillCompatible(a, |a| - 1);
    AgreesWithOthers(a, b, a[|a| - 1], i + 1);
  }

  /** A repeated answer changes nothing. */
  lemma RepeatedAnswer(current: Option<Summary>, patches: seq<Patch>, p: Patch)
    requires PairwiseCompatible(patches) && p in patches
    ensures Fold(current, patches + [p]) == Fold(current, patches)
  {
    hide MergeSummary, Compatible;
    var i :| 0 <= i < |patches| && patches[i] == p;
    var rest := patches[..i] + patches[i + 1..];
    assert patches == patches[..i] + [p] + patches[i + 1..];
    assert multiset(patches) == multiset(rest + [p]);
    ArrivalOrder(current, patches, rest + [p]);
    assert (rest + [p])[..|rest|] == rest && (patches + [p])[..|patches|] == patches;
    MergeTwice(Fold(current, rest), p);
  }

  /**
   The panels of one screen load independently: activity, insights, calls, threads
   and an overview agree exactly when the overview repeats no panel with other content.
   */
  lemma PanelsAgree(d: Dashboard, buckets: seq<Bucket>, insights: string, calls: RowPage, threads: RowPage)
    ensures PairwiseCompatible([OverviewOnly(d), ActivityPatch(buckets), InsightsPatch(insights),
                                CallsPatch(calls), ThreadsPatch(threads)])
            <==> Agree(d.insights, Some(insights)) && Agree(d.callsPage, Some(calls))
                 && Agree(d.threadsPage, Some(threads))
  {
    var all := [OverviewOnly(d), ActivityPatch(buckets), InsightsPatch(insights), CallsPatch(calls),
                ThreadsPatch(threads)];
    assert Compatible(all[0], all[2]) <==> Agree(d.insights, Some(insights));
    assert Compatible(all[0], all[3]) <==> Agree(d.callsPage, Some(calls));
    assert Compatible(all[0], all[4]) <==> Agree(d.threadsPage, Some(threads));
    assert all[0] in all && all[2] in all && all[3] in all && all[4] in all;
  }

  /** An overview carries diagnostics of its own, so a separate diagnostics answer is order-sensitive. */
  lemma DiagnosticsRace(current: Option<Summary>, d: Dashboard, diagnostics: string)
    ensures MergeSummary(Some(MergeSummary(current, OverviewOnly(d))), DiagnosticsPatch(diagnostics))
            == MergeSummary(Some(MergeSummary(current, DiagnosticsPatch(diagnostics))), OverviewOnly(d))
            <==> d.diagnostics == diagnostics
  {
    MergeCommutes(current, OverviewOnly(d), DiagnosticsPatch(diagnostics));
  }
}
