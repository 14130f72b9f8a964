/** Sorting the calls of a thread by a chosen column. */
module CallSort {
  import opened Ordering
  import opened ThreadIndex

  datatype SortKey =
    | Attention | Cache | Context | Cost | Duration | Effort | Gap | Initiator | Model | Cached | Uncached
    | Output | Reasoning | Thread | Time | Usage | Total

  datatype Direction = Asc | Desc

  datatype SortValue = Number(value: real) | Text(text: string)

  /** String functions of the runtime: the collation order and lower-casing. */
  datatype Runtime = Runtime(locale: Locale, toLowerCase: string -> string)

  function Clamp(value: real, low: real, high: real): (r: real)
    requires low <= high
    ensures low <= r <= high && (low <= value <= high ==> r == value)
    ensures (value < low ==> r == low) && (value > high ==> r == high)
  {
    if value < low then low else if value > high then high else value
  }

  function AttentionScore(row: Row): (score: real)
    ensures 0.0 <= score <= 71.0
  {
    Clamp(row.totalTokens as real / 2500.0, 0.0, 36.0)
    + if row.inputTokens > 0 then Clamp((0.5 - row.cacheRatio) * 70.0, 0.0, 35.0) else 0.0
  }

  /**
   More tokens and a worse cache ratio never lower the score; it is least and greatest
   exactly in the extreme cases.
   */
  lemma AttentionRises(a: Row, b: Row)
    ensures a.totalTokens <= b.totalTokens && (a.inputTokens > 0 ==> b.inputTokens > 0 && b.cacheRatio <= a.cacheRatio)
            ==> AttentionScore(a) <= AttentionScore(b)
    ensures AttentionScore(a) == 0.0 <==> a.totalTokens <= 0 && (a.inputTokens <= 0 || a.cacheRatio >= 0.5)
    ensures AttentionScore(a) == 71.0 <==> a.totalTokens >= 90_000 && a.inputTokens > 0 && a.cacheRatio <= 0.0
  {
  }

  /** A stored count of uncached tokens, unless it is zero. */
  function UncachedTokens(row: Row): int {
    if row.uncachedInputTokens != 0 then row.uncachedInputTokens
    else if row.inputTokens - row.cachedInputTokens > 0 then row.inputTokens - row.cachedInputTokens else 0
  }

  predicate IsTextKey(key: SortKey) {
    key in {Effort, Initiator, Model, Thread, Time}
  }

  function CallSortValue(row: Row, key: SortKey, runtime: Runtime): (v: SortValue)
    ensures v.Text? <==> IsTextKey(key)
  {
    match key
    case Attention => Number(AttentionScore(row))
    case Cache => Number(row.cacheRatio)
    case Context => Number(row.contextWindowPercent)
    case Cost => Number(row.estimatedCostUsd)
    case Duration => Number(row.threadCallIndex as real)
    case Effort => Text(runtime.toLowerCase(row.effort))
    case Gap => Number(if row.previousRecordId != "" then 1.0 else 0.0)
    case Initiator => Text(runtime.toLowerCase(row.callInitiator))
    case Model => Text(runtime.toLowerCase(row.model))
    case Cached => Number(row.cachedInputTokens as real)
    case Uncached => Number(UncachedTokens(row) as real)
    case Output => Number(row.outputTokens as real)
    case Reasoning => Number(row.reasoningOutputTokens as real)
    case Thread => Text(runtime.toLowerCase(ThreadLabel(row)))
    case Time => Text(row.eventTimestamp)
    case Usage => Number(row.usageCredits)
    case Total => Number(row.totalTokens as real)
  }

  function Sign(r: real): int {
    if r < 0.0 then -1 else if r > 0.0 then 1 else 0
  }

  /** Only values of one kind are ever compared: the key decides the kind. */
  function CompareValues(left: SortValue, right: SortValue, runtime: Runtime): int
    requires left.Text? == right.Text?
  {
    if left.Number? then Sign(left.value - right.value) else runtime.locale(left.text, right.text)
  }

  function CompareCalls(a: Row, b: Row, key: SortKey, direction: Direction, runtime: Runtime): int {
    var comparison := CompareValues(CallSortValue(a, key, runtime), CallSortValue(b, key, runtime), runtime);
    var primary := if direction == Asc then comparison else -comparison;
    if primary != 0 then primary
    else
      var timeFallback := runtime.locale(b.eventTimestamp, a.eventTimestamp);
      if timeFallback != 0 then timeFallback else runtime.locale(a.recordId, b.recordId)
  }

  function Comparing(key: SortKey, direction: Direction, runtime: Runtime): Comparator<Row> {
    (a: Row, b: Row) => CompareCalls(a, b, key, direction, runtime)
  }

  function SortedThreadCalls(calls: seq<Row>, key: SortKey, direction: Direction, runtime: Runtime): seq<Row> {
    StableSort(Comparing(key, direction, runtime), calls)
  }

  // ----- what each column means -----

  /** Between its bounds the score is a point for every 2,500 tokens and 0.7 for each percent of missing cache. */
  lemma AttentionBetweenBounds(row: Row)
    requires 0 <= row.totalTokens <= 90_000 && 0.0 <= row.cacheRatio <= 0.5
    ensures 2500.0 * AttentionScore(row)
            == row.totalTokens as real + if row.inputTokens > 0 then 87500.0 - 175000.0 * row.cacheRatio else 0.0
  {
  }

  /** How two calls compare when the column does not tell them apart: the newer first, then by record id. */
  lemma TiedCalls(a: Row, b: Row, key: SortKey, direction: Direction, runtime: Runtime)
    requires CallSortValue(a, key, runtime) == CallSortValue(b, key, runtime) && IsLocale(runtime.locale)
    ensures CompareCalls(a, b, key, direction, runtime)
            == if a.eventTimestamp != b.eventTimestamp then runtime.locale(b.eventTimestamp, a.eventTimestamp)
               else runtime.locale(a.recordId, b.recordId)
  {
    hide CallSortValue;
  }

  /** A column of numbers rises in ascending and falls in descending order. */
  lemma NumberColumns(a: Row, b: Row, key: SortKey, runtime: Runtime)
    requires key !in {Effort, Initiator, Model, Thread, Time}
    ensures var (x, y) := match key
                          case Attention => (AttentionScore(a), AttentionScore(b))
                          case Cache => (a.cacheRatio, b.cacheRatio)
                          case Context => (a.contextWindowPercent, b.contextWindowPercent)
                          case Cost => (a.estimatedCostUsd, b.estimatedCostUsd)
                          case Duration => (a.threadCallIndex as real, b.threadCallIndex as real)
                          case Gap => (if a.previousRecordId == "" then 0.0 else 1.0,
                                       if b.previousRecordId == "" then 0.0 else 1.0)
                          case Cached => (a.cachedInputTokens as real, b.cachedInputTokens as real)
                          case Uncached => (UncachedTokens(a) as real, UncachedTokens(b) as real)
                          case Output => (a.outputTokens as real, b.outputTokens as real)
                          case Reasoning => (a.reasoningOutputTokens as real, b.reasoningOutputTokens as real)
                          case Usage => (a.usageCredits, b.usageCredits)
                          case _ => (a.totalTokens as real, b.totalTokens as real);
      && (x < y ==> CompareCalls(a, b, key, Asc, runtime) < 0 < CompareCalls(a, b, key, Desc, runtime))
      && (x > y ==> CompareCalls(a, b, key, Desc, runtime) < 0 < CompareCalls(a, b, key, Asc, runtime))
      && (x == y <==> CallSortValue(a, key, runtime) == CallSortValue(b, key, runtime))
  {
  }

  /** A column of texts follows the collation of the lower-cased texts; times are compared as they are. */
  lemma TextColumns(a: Row, b: Row, key: SortKey, runtime: Runtime)
    requires key in {Effort, Initiator, Model, Thread, Time}
    ensures var lower := runtime.toLowerCase;
            var (x, y) := match key
                          case Effort => (lower(a.effort), lower(b.effort))
                          case Initiator => (lower(a.callInitiator), lower(b.callInitiator))
                          case Model => (lower(a.model), lower(b.model))
                          case Time => (a.eventTimestamp, b.eventTimestamp)
                          case _ => (lower(ThreadLabel(a)), lower(ThreadLabel(b)));
            var c := runtime.locale(x, y);
      && (c < 0 ==> CompareCalls(a, b, key, Asc, runtime) < 0 < CompareCalls(a, b, key, Desc, runtime))
      && (c > 0 ==> CompareCalls(a, b, key, Desc, runtime) < 0 < CompareCalls(a, b, key, Asc, runtime))
      && (x == y <==> CallSortValue(a, key, runtime) == CallSortValue(b, key, runtime))
  {
  }

  /** A thread goes by its name, else by its session, else by a fixed label. */
  lemma LabelOfThread(row: Row)
    ensures row.threadName != "" ==> ThreadLabel(row) == row.threadName
    ensures row.threadName == "" && row.sessionId != "" ==> ThreadLabel(row) == row.sessionId
    ensures row.threadName == "" && row.sessionId == "" ==> ThreadLabel(row) == "Unknown thread"
  {
  }

  // ----- consistency -----

  function ByColumn(key: SortKey, runtime: Runtime): Comparator<Row> {
    if IsTextKey(key) then By(runtime.locale, (row: Row) => CallSortValue(row, key, runtime).text)
    else By(Numeric(), (row: Row) => CallSortValue(row, key, runtime).value)
  }

  function Numeric(): Comparator<real> {
    (x: real, y: real) => Sign(x - y)
  }

  function InDirection(cmp: Comparator<Row>, direction: Direction): Comparator<Row> {
    if direction == Asc then cmp else Negate(cmp)
  }

  function NewestFirst(locale: Locale): Comparator<Row> {
    By((x: string, y: string) => locale(y, x), (row: Row) => row.eventTimestamp)
  }

  function ById(locale: Locale): Comparator<Row> {
    By(locale, (row: Row) => row.recordId)
  }

  lemma NumericIsPreorder()
    ensures IsPreorder(Numeric())
  {
    forall x, y ensures Numeric()(x, y) < 0 <==> Numeric()(y, x) > 0 {
      assert Numeric()(x, y) == Sign(x - y) && Numeric()(y, x) == Sign(y - x);
    }
    forall x, y, z | Numeric()(x, y) <= 0 && Numeric()(y, z) <= 0 ensures Numeric()(x, z) <= 0 {
      assert x <= y <= z;
    }
  }

  lemma ColumnIsPreorder(key: SortKey, runtime: Runtime)
    requires IsPreorder(runtime.locale)
    ensures IsPreorder(ByColumn(key, runtime))
  {
    if IsTextKey(key) {
      ByIsPreorder(runtime.locale, (row: Row) => CallSortValue(row, key, runtime).text);
    } else {
      NumericIsPreorder();
      ByIsPreorder(Numeric(), (row: Row) => CallSortValue(row, key, runtime).value);
    }
  }

  lemma NewestFirstIsPreorder(locale: Locale)
    requires IsPreorder(locale)
    ensures IsPreorder(NewestFirst(locale))
  {
    var reversed: Comparator<string> := (x: string, y: string) => locale(y, x);
    assert IsPreorder(reversed) by {
      forall x, y, z | reversed(x, y) <= 0 && reversed(y, z) <= 0 ensures reversed(x, z) <= 0 {
        assert locale(z, y) <= 0 && locale(y, x) <= 0;
      }
    }
    ByIsPreorder(reversed, (row: Row) => row.eventTimestamp);
  }

  /** Whatever the column and direction, the comparison is consistent. */
  lemma CompareIsPreorder(key: SortKey, direction: Direction, runtime: Runtime)
    requires IsPreorder(runtime.locale)
    ensures IsPreorder(Comparing(key, direction, runtime))
  {
    var column := InDirection(ByColumn(key, runtime), direction);
    ColumnIsPreorder(key, runtime);
    NegateIsPreorder(ByColumn(key, runtime));
    NewestFirstIsPreorder(runtime.locale);
    ByIsPreorder(runtime.locale, (row: Row) => row.recordId);
    var rest := Lex(NewestFirst(runtime.locale), ById(runtime.locale));
    LexIsPreorder(NewestFirst(runtime.locale), ById(runtime.locale));
    LexIsPreorder(column, rest);
    forall a, b ensures Comparing(key, direction, runtime)(a, b) == Lex(column, rest)(a, b) {
      ComparisonIsLex(a, b, key, direction, runtime);
    }
    hide IsPreorder, Lex, Comparing;
    SamePreorder(Lex(column, rest), Comparing(key, direction, runtime));
  }

  lemma ComparisonIsLex(a: Row, b: Row, key: SortKey, direction: Direction, runtime: Runtime)
    ensures CompareCalls(a, b, key, direction, runtime)
            == Lex(InDirection(ByColumn(key, runtime), direction),
                   Lex(NewestFirst(runtime.locale), ById(runtime.locale)))(a, b)
  {
    hide CallSortValue;
    assert ByColumn(key, runtime)(a, b)
           == CompareValues(CallSortValue(a, key, runtime), CallSortValue(b, key, runtime), runtime);
    var column, time, id := InDirection(ByColumn(key, runtime), direction), NewestFirst(runtime.locale),
                            ById(runtime.locale);
    assert time(a, b) == runtime.locale(b.eventTimestamp, a.eventTimestamp);
    assert id(a, b) == runtime.locale(a.recordId, b.recordId);
    assert Lex(time, id)(a, b) == Then(time(a, b), id(a, b));
    assert Lex(column, Lex(time, id))(a, b) == Then(column(a, b), Lex(time, id)(a, b));
  }

  lemma TiesShareId(a: Row, b: Row, key: SortKey, direction: Direction, runtime: Runtime)
    requires IsLocale(runtime.locale) && CompareCalls(a, b, key, direction, runtime) == 0
    ensures a.recordId == b.recordId
  {
    hide CallSortValue;
  }

  /** With distinct record ids the sorted list is the same whatever order the calls came in. */
  lemma SortedThreadIsCanonical(a: seq<Row>, b: seq<Row>, key: SortKey, direction: Direction, runtime: Runtime)
    requires IsLocale(runtime.locale) && UniqueIds(a) && multiset(a) == multiset(b)
    ensures SortedThreadCalls(a, key, direction, runtime) == SortedThreadCalls(b, key, direction, runtime)
    ensures Sorted(Comparing(key, direction, runtime), SortedThreadCalls(a, key, direction, runtime))
  {
    var cmp := Comparing(key, direction, runtime);
    CompareIsPreorder(key, direction, runtime);
    forall x, y | x in a && y in a && cmp(x, y) == 0 ensures x == y {
      TiesShareId(x, y, key, direction, runtime);
    }
    hide IsPreorder, Comparing, Sorted, UniqueIds;
    SortIsCanonical(cmp, a, b);
    SortIsSorted(cmp, a);
  }

  /**
   Reversing the direction reverses the column but not the tie-breakers: two calls that
   differ in the chosen column swap sides, all others keep them.
   */
  lemma DirectionFlipsColumnOnly(a: Row, b: Row, key: SortKey, runtime: Runtime)
    ensures var tied := ByColumn(key, runtime)(a, b) == 0;
      CompareCalls(a, b, key, Desc, runtime)
      == if tied then CompareCalls(a, b, key, Asc, runtime) else -CompareCalls(a, b, key, Asc, runtime)
  {
    hide CallSortValue;
    ComparisonIsLex(a, b, key, Asc, runtime);
    ComparisonIsLex(a, b, key, Desc, runtime);
  }
}
