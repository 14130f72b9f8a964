/**
 The model list of a provider as editable text: entries separated by commas or line
 breaks, each an id with an optional context window behind a colon.
 */
module ModelList {
  import opened Options
  import opened Positional
  import opened Strings

  const MAX_SAFE := 9_007_199_254_740_991

  type Window = n: nat | 0 < n <= MAX_SAFE witness 1

  /** `title` is the label shown for the model. */
  datatype Model = Model(id: string, title: string, window: Option<nat>)

  /**
   How the language reads a numeral that is not a plain row of digits (a fraction, an
   exponent, a hexadecimal literal): the positive safe integer it denotes, if any.
   */
  type Numerals = string -> Option<Window>

  // ----- white space -----

  predicate IsSpace(c: char) {
    var n := c as int;
    || 9 <= n <= 13 || n == 32 || n == 160 || n == 5760 || 8192 <= n <= 8202
    || n == 8232 || n == 8233 || n == 8239 || n == 8287 || n == 12288 || n == 65279
  }

  predicate IsTrimmed(s: string) {
    s == "" || (!IsSpace(s[0]) && !IsSpace(s[|s| - 1]))
  }

  function TrimStart(s: string): (t: string)
    ensures |t| <= |s| && t == s[|s| - |t|..] && (t == "" || !IsSpace(t[0]))
    ensures forall i :: 0 <= i < |s| - |t| ==> IsSpace(s[i])
  {
    if s == "" || !IsSpace(s[0]) then s else TrimStart(s[1..])
  }

  function TrimEnd(s: string): (t: string)
    ensures |t| <= |s| && t == s[..|t|] && (t == "" || !IsSpace(t[|t| - 1]))
    ensures forall i :: |t| <= i < |s| ==> IsSpace(s[i])
  {
    if s == "" || !IsSpace(s[|s| - 1]) then s else TrimEnd(s[..|s| - 1])
  }

  function Trim(s: string): (t: string)
    ensures IsTrimmed(t)
    ensures IsTrimmed(s) ==> t == s
    ensures forall c :: c in t ==> c in s
  {
    TrimEnd(TrimStart(s))
  }

  // ----- decimal numerals -----

  function DigitChar(d: nat): char
    requires d < 10
  {
    "0123456789"[d]
  }

  predicate IsDigit(c: char) {
    '0' <= c <= '9'
  }

  predicate AllDigits(s: string) {
    forall i :: 0 <= i < |s| ==> IsDigit(s[i])
  }

  function Decimal(n: nat): (s: string)
    ensures s != "" && AllDigits(s)
  {
    if n < 10 then [DigitChar(n)] else Decimal(n / 10) + [DigitChar(n % 10)]
  }

  function DigitValues(s: string): (d: seq<nat>)
    requires AllDigits(s)
    ensures |d| == |s| && AreDigits(d, Ten)
  {
    if s == "" then [] else DigitValues(s[..|s| - 1]) + [s[|s| - 1] as int - '0' as int]
  }

  /** Reading a printed number gives the number back. */
  lemma {:induction false} DecimalDenotes(n: nat)
    ensures Value(DigitValues(Decimal(n)), Ten) == n
  {
    hide Value;
    if n < 10 {
      DigitValuesSnoc("", n);
      assert [] + [n] == [n] && "" + [DigitChar(n)] == Decimal(n);
      ValueOfSnoc([], n, Ten);
      ValueOfNothing();
    } else {
      DecimalDenotes(n / 10);
      DigitValuesSnoc(Decimal(n / 10), n % 10);
      ValueOfSnoc(DigitValues(Decimal(n / 10)), n % 10, Ten);
    }
  }

  lemma ValueOfNothing()
    ensures Value([], Ten) == 0
  {
  }

  lemma DigitValuesSnoc(s: string, d: nat)
    requires AllDigits(s) && d < 10
    ensures DigitValues(s + [DigitChar(d)]) == DigitValues(s) + [d]
  {
    assert (s + [DigitChar(d)])[..|s|] == s;
  }

  /** A context window is a positive safe integer; any other text means none. */
  function ReadWindow(s: string, numerals: Numerals): (w: Option<Window>)
    ensures forall n: Window :: s == Decimal(n) ==> w == Some(n)
  {
    if s == "" then None
    else if AllDigits(s) then
      var v := Value(DigitValues(s), Ten);
      assert forall n: Window :: s == Decimal(n) ==> v == n by {
        forall n: Window | s == Decimal(n) ensures v == n { DecimalDenotes(n); }
      }
      if 0 < v <= MAX_SAFE then Some(v) else None
    else
      numerals(s)
  }

  /** A row of digits is read as the number it denotes, if that is positive and at most 2^53 - 1. */
  lemma {:induction false} WindowOfDigits(zeros: string, n: nat, numerals: Numerals)
    requires forall i :: 0 <= i < |zeros| ==> zeros[i] == '0'
    ensures AllDigits(zeros + Decimal(n))
    ensures ReadWindow(zeros + Decimal(n), numerals) == if 0 < n <= 9_007_199_254_740_991 then Some(n) else None
    ensures ReadWindow("", numerals) == None
  {
    hide Value, Decimal;
    DecimalDenotes(n);
    LeadingZeros(zeros, Decimal(n));
  }

  lemma {:induction false} LeadingZeros(zeros: string, s: string)
    requires AllDigits(s) && forall i :: 0 <= i < |zeros| ==> zeros[i] == '0'
    ensures AllDigits(zeros + s) && Value(DigitValues(zeros + s), Ten) == Value(DigitValues(s), Ten)
  {
    hide Value;
    var all := zeros + s;
    ValueOfNothing();
    if s != "" {
      LeadingZeros(zeros, s[..|s| - 1]);
      assert all[..|all| - 1] == zeros + s[..|s| - 1];
      ValueOfSnoc(DigitValues(zeros + s[..|s| - 1]), s[|s| - 1] as int - '0' as int, Ten);
      ValueOfSnoc(DigitValues(s[..|s| - 1]), s[|s| - 1] as int - '0' as int, Ten);
    } else if zeros != "" {
      LeadingZeros(zeros[..|zeros| - 1], s);
      assert all == zeros && all[..|all| - 1] == zeros[..|zeros| - 1] + s;
      ValueOfSnoc(DigitValues(all[..|all| - 1]), 0, Ten);
    }
  }

  // ----- parsing -----

  predicate Separates(c: char) {
    c == ',' || c == '\n'
  }

  /** The pieces after one more character: a separator opens a new one. */
  function Fed(pieces: seq<string>, c: char): (more: seq<string>)
    requires pieces != []
    ensures more != []
  {
    if Separates(c) then pieces + [""]
    else pieces[..|pieces| - 1] + [pieces[|pieces| - 1] + [c]]
  }

  function Split(s: string): (pieces: seq<string>)
    ensures pieces != []
    ensures forall p, c :: p in pieces && c in p ==> c in s && !Separates(c)
  {
    if s == "" then [""] else Fed(Split(s[..|s| - 1]), s[|s| - 1])
  }

  /** The pieces that are not blank, trimmed. */
  function Cleaned(pieces: seq<string>): seq<string> {
    if pieces == [] then []
    else
      var before, last := Cleaned(pieces[..|pieces| - 1]), Trim(pieces[|pieces| - 1]);
      if last == "" then before else before + [last]
  }

  /** Repetitions of an earlier element dropped. */
  function Unique<T(==)>(xs: seq<T>): seq<T> {
    if xs == [] then []
    else
      var before, last := xs[..|xs| - 1], xs[|xs| - 1];
      if last in before then Unique(before) else Unique(before) + [last]
  }

  predicate Distinct<T(==)>(xs: seq<T>) {
    forall i, j :: 0 <= i < j < |xs| ==> xs[i] != xs[j]
  }

  /** Where the first colon stands, or the length when there is none. */
  function FirstColon(s: string): (k: nat)
    ensures k <= |s| && ':' !in s[..k] && (k < |s| ==> s[k] == ':')
  {
    if s == "" || s[0] == ':' then 0 else
      var k := FirstColon(s[1..]);
      assert s[..1 + k] == [s[0]] + s[1..][..k];
      1 + k
  }

  function ParseEntry(entry: string, numerals: Numerals): Model {
    var separator := FirstColon(entry);
    if separator < 1 || separator == |entry| then Model(entry, entry, None)
    else
      var id := Trim(entry[..separator]);
      var window := ReadWindow(Trim(entry[separator + 1..]), numerals);
      Model(id, id, if window.Some? then Some(window.value) else None)
  }

  function ParseEntries(entries: seq<string>, numerals: Numerals): (ms: seq<Model>)
    ensures |ms| == |entries|
  {
    seq(|entries|, i requires 0 <= i < |entries| => ParseEntry(entries[i], numerals))
  }

  function ParseModels(text: string, numerals: Numerals): seq<Model> {
    ParseEntries(Unique(Cleaned(Split(text))), numerals)
  }

  // ----- formatting -----

  function Entry(m: Model): string {
    if m.window.Some? && m.window.value != 0 then m.id + ":" + Decimal(m.window.value) else m.id
  }

  function Entries(ms: seq<Model>): (es: seq<string>)
    ensures |es| == |ms|
    ensures forall i :: 0 <= i < |ms| ==> es[i] == Entry(ms[i])
  {
    if ms == [] then [] else Entries(ms[..|ms| - 1]) + [Entry(ms[|ms| - 1])]
  }

  const SEPARATOR := ", "

  function FormatModels(ms: seq<Model>): string {
    Join(Entries(ms), SEPARATOR)
  }

  /** An entry is cut at its first colon, unless it starts with it. */
  lemma EntryByParts(id: string, rest: string, numerals: Numerals)
    requires ':' !in id
    ensures ParseEntry(id, numerals) == Model(id, id, None)
    ensures ParseEntry(":" + rest, numerals) == Model(":" + rest, ":" + rest, None)
    ensures id != "" ==>
              var m := ParseEntry(id + ":" + rest, numerals);
              && m.id == m.title == Trim(id)
              && m.window == (match ReadWindow(Trim(rest), numerals) case None => None case Some(n) => Some(n))
  {
    FirstColonAt(id + ":" + rest, |id|);
    assert (id + ":" + rest)[..|id|] == id && (id + ":" + rest)[|id| + 1..] == rest;
  }

  /** Entries stand in a row with a comma and a blank between them, each with its window behind a colon. */
  lemma FormatInRow(ms: seq<Model>, more: seq<Model>, id: string, title: string, n: nat)
    ensures ms != [] && more != [] ==> FormatModels(ms + more) == FormatModels(ms) + ", " + FormatModels(more)
    ensures FormatModels([Model(id, title, None)]) == FormatModels([Model(id, title, Some(0))]) == id
    ensures n > 0 ==> FormatModels([Model(id, title, Some(n))]) == id + ":" + Decimal(n)
  {
    hide Decimal, Entry;
    assert Entries(ms + more) == Entries(ms) + Entries(more);
    JoinAppend(Entries(ms), Entries(more), SEPARATOR);
    FormatOfOne(Model(id, title, None));
    FormatOfOne(Model(id, title, Some(0)));
    FormatOfOne(Model(id, title, Some(n)));
    EntryText(id, title, n);
  }

  lemma EntryText(id: string, title: string, n: nat)
    ensures Entry(Model(id, title, None)) == Entry(Model(id, title, Some(0))) == id
    ensures n > 0 ==> Entry(Model(id, title, Some(n))) == id + ":" + Decimal(n)
  {
  }

  // ----- what parsing produces -----

  /** A string that can stand between two separators as it is. */
  predicate Clean(s: string) {
    s != "" && IsTrimmed(s) && forall c :: c in s ==> !Separates(c)
  }

  /**
   The models that parsing can produce: an id that is clean, and with a colon in it
   only when it starts with one and has no window.
   */
  predicate Shaped(m: Model) {
    && m.title == m.id && Clean(m.id)
    && match m.window
       case Some(w) => 0 < w <= MAX_SAFE && ':' !in m.id
       case None => ':' in m.id ==> m.id[0] == ':'
  }

  predicate AllShaped(ms: seq<Model>) {
    forall m :: m in ms ==> Shaped(m)
  }

  predicate AllClean(es: seq<string>) {
    forall e :: e in es ==> Clean(e)
  }

  lemma {:induction false} CleanedIsClean(pieces: seq<string>)
    requires forall p, c :: p in pieces && c in p ==> !Separates(c)
    ensures AllClean(Cleaned(pieces))
  {
    if pieces != [] {
      CleanedIsClean(pieces[..|pieces| - 1]);
      assert pieces[|pieces| - 1] in pieces;
    }
  }

  lemma {:induction false} UniqueElements<T>(xs: seq<T>)
    ensures forall x :: x in Unique(xs) <==> x in xs
    ensures Distinct(Unique(xs))
    ensures |Unique(xs)| <= |xs|
    ensures |Unique(xs)| == |xs| ==> Unique(xs) == xs
  {
    if xs != [] {
      UniqueElements(xs[..|xs| - 1]);
      assert xs == xs[..|xs| - 1] + [xs[|xs| - 1]];
    }
  }

  lemma {:induction false} UniqueOfDistinct<T>(xs: seq<T>)
    requires Distinct(xs)
    ensures Unique(xs) == xs
  {
    if xs != [] {
      UniqueOfDistinct(xs[..|xs| - 1]);
      assert xs == xs[..|xs| - 1] + [xs[|xs| - 1]];
    }
  }

  lemma EntryShape(entry: string, numerals: Numerals)
    requires Clean(entry)
    ensures Shaped(ParseEntry(entry, numerals))
  {
    var separator := FirstColon(entry);
    if 1 <= separator < |entry| {
      var head := entry[..separator];
      assert head[0] == entry[0];
      HeadSurvives(head);
      assert forall c :: c in head ==> c in entry;
    } else {
      assert entry[..|entry|] == entry;
    }
  }

  lemma HeadSurvives(s: string)
    requires s != "" && !IsSpace(s[0])
    ensures Trim(s) != ""
  {
    TrimEndKeepsHead(s);
  }

  lemma {:induction false} TrimEndKeepsHead(s: string)
    requires s != "" && !IsSpace(s[0])
    ensures TrimEnd(s) != ""
  {
    if IsSpace(s[|s| - 1]) {
      TrimEndKeepsHead(s[..|s| - 1]);
    }
  }

  /** Whatever the text, every model read from it has an id that is clean and a window that is positive and safe. */
  lemma ParsedIsShaped(text: string, numerals: Numerals)
    ensures AllShaped(ParseModels(text, numerals))
  {
    hide Cleaned, Split, Unique, Distinct, ParseEntry, Shaped, Clean;
    var cleaned := Cleaned(Split(text));
    CleanedIsClean(Split(text));
    UniqueElements(cleaned);
    forall m | m in ParseModels(text, numerals) ensures Shaped(m) {
      var i :| 0 <= i < |Unique(cleaned)| && m == ParseEntry(Unique(cleaned)[i], numerals);
      EntryShape(Unique(cleaned)[i], numerals);
    }
  }

  // ----- reading back what was printed -----

  lemma EntryIsClean(m: Model)
    requires Shaped(m)
    ensures Clean(Entry(m))
  {
  }

  lemma PrefixOfTail(s: string, k: nat)
    requires 0 < k <= |s|
    ensures s[..k] == [s[0]] + s[1..][..k - 1]
    ensures forall c :: c in s[1..][..k - 1] ==> c in s[..k]
  {
  }

  lemma {:induction false} FirstColonAt(s: string, k: nat)
    requires k <= |s| && ':' !in s[..k] && (k < |s| ==> s[k] == ':')
    ensures FirstColon(s) == k
  {
    if s != "" && k != 0 {
      assert s[0] in s[..k];
      PrefixOfTail(s, k);
      FirstColonAt(s[1..], k - 1);
    }
  }

  lemma ParseOfEntry(m: Model, numerals: Numerals)
    requires Shaped(m)
    ensures ParseEntry(Entry(m), numerals) == m
  {
    var entry := Entry(m);
    match m.window
    case None =>
      if ':' !in m.id {
        assert m.id[..|m.id|] == m.id;
        FirstColonAt(m.id, |m.id|);
      }
    case Some(w) =>
      ParseOfWindowed(m.id, w, numerals);
  }

  lemma ParseOfWindowed(id: string, w: Window, numerals: Numerals)
    requires Clean(id) && ':' !in id
    ensures ParseEntry(id + ":" + Decimal(w), numerals) == Model(id, id, Some(w))
  {
    hide Trim, ReadWindow, FirstColon, Decimal;
    var entry := id + ":" + Decimal(w);
    assert entry[..|id|] == id && entry[|id| + 1..] == Decimal(w);
    FirstColonAt(entry, |id|);
    DigitsAreTrimmed(Decimal(w));
  }

  lemma DigitsAreTrimmed(s: string)
    requires AllDigits(s)
    ensures IsTrimmed(s)
  {
  }

  lemma {:induction false} SplitOfPiece(e: string)
    requires forall c :: c in e ==> !Separates(c)
    ensures Split(e) == [e]
  {
    if e != "" {
      var init, last := e[..|e| - 1], e[|e| - 1];
      SplitOfPiece(init);
      assert Fed([init], last) == [init + [last]];
      assert e == init + [last];
    }
  }

  lemma SplitSnoc(s: string, c: char)
    ensures Split(s + [c]) == Fed(Split(s), c)
  {
    hide Fed;
    assert (s + [c])[..|s|] == s;
  }

  lemma FedAtEnd(front: seq<string>, back: seq<string>, c: char)
    requires back != []
    ensures Fed(front + back, c) == front + Fed(back, c)
  {
  }

  /** A comma or a line break anywhere cuts the text into what lies on either side of it. */
  lemma {:induction false} SplitAtSeparator(s: string, c: char, t: string)
    requires Separates(c)
    ensures Split(s + [c] + t) == Split(s) + Split(t)
  {
    hide Split;
    if t == "" {
      assert s + [c] + t == s + [c];
      SplitSnoc(s, c);
      SplitOfNothing();
    } else {
      var init, last := t[..|t| - 1], t[|t| - 1];
      assert s + [c] + t == (s + [c] + init) + [last] && t == init + [last];
      SplitAtSeparator(s, c, init);
      SplitSnoc(s + [c] + init, last);
      SplitSnoc(init, last);
      FedAtEnd(Split(s), Split(init), last);
    }
  }

  /** Commas and line breaks are interchangeable. */
  lemma LineBreaksAreCommas(s: string, t: string, numerals: Numerals)
    ensures ParseModels(s + "\n" + t, numerals) == ParseModels(s + "," + t, numerals)
  {
    SplitAtSeparator(s, '\n', t);
    SplitAtSeparator(s, ',', t);
  }

  lemma SplitOfJoined(s: string, e: string)
    requires Clean(e)
    ensures Split(s + ", " + e) == Split(s) + [" " + e]
  {
    assert s + ", " + e == s + [','] + (" " + e);
    SplitAtSeparator(s, ',', " " + e);
    SplitOfPiece(" " + e);
  }

  lemma TrimStartStep(s: string, t: string)
    requires s != "" && IsSpace(s[0]) && s[1..] == t
    ensures TrimStart(s) == TrimStart(t)
  {
  }

  lemma TrimOfIndented(e: string)
    requires IsTrimmed(e)
    ensures Trim(" " + e) == e
  {
    hide TrimStart, TrimEnd;
    TrimStartStep(" " + e, e);
    assert Trim(" " + e) == Trim(e);
  }

  lemma CleanedSnoc(pieces: seq<string>, p: string)
    ensures Cleaned(pieces + [p]) == if Trim(p) == "" then Cleaned(pieces) else Cleaned(pieces) + [Trim(p)]
  {
    hide Trim;
    assert (pieces + [p])[..|pieces|] == pieces;
  }

  lemma JoinSnoc(entries: seq<string>, e: string)
    requires entries != []
    ensures Join(entries + [e], SEPARATOR) == Join(entries, SEPARATOR) + ", " + e
  {
    assert (entries + [e])[..|entries|] == entries;
  }

  lemma {:induction false} CleanedOfJoin(entries: seq<string>)
    requires AllClean(entries)
    ensures Cleaned(Split(Join(entries, SEPARATOR))) == entries
  {
    hide Split, Trim;
    if entries == [] {
      assert Split("") == [""] && Trim("") == "" by {
        SplitOfNothing();
      }
      assert Cleaned([""]) == Cleaned([""][..0]);
    } else if |entries| == 1 {
      assert Clean(entries[0]);
      SplitOfPiece(entries[0]);
      CleanedSnoc([], entries[0]);
      assert [] + [entries[0]] == [entries[0]] == entries;
    } else {
      var init, e := entries[..|entries| - 1], entries[|entries| - 1];
      CleanedOfJoin(init);
      assert entries == init + [e];
      JoinSnoc(init, e);
      SplitOfJoined(Join(init, SEPARATOR), e);
      TrimOfIndented(e);
      CleanedSnoc(Split(Join(init, SEPARATOR)), " " + e);
    }
  }

  /**
   One more piece at the end of a text: blank, it changes nothing; repeated, neither;
   otherwise it adds the model it stands for.
   */
  lemma ParseOneMore(text: string, c: char, piece: string, numerals: Numerals)
    requires Separates(c) && forall d :: d in piece ==> !Separates(d)
    ensures var (before, entry) := (Unique(Cleaned(Split(text))), Trim(piece));
            ParseModels(text + [c] + piece, numerals)
            == if entry == "" || entry in before then ParseModels(text, numerals)
               else ParseModels(text, numerals) + [ParseEntry(entry, numerals)]
    ensures ParseModels("", numerals) == []
    ensures ParseModels(piece, numerals) == if Trim(piece) == "" then [] else [ParseEntry(Trim(piece), numerals)]
  {
    hide ParseEntry, Trim, Unique;
    SplitAtSeparator(text, c, piece);
    SplitOfPiece(piece);
    CleanedSnoc(Split(text), piece);
    CleanedSnoc([], piece);
    SplitOfNothing();
    UniqueElements(Cleaned(Split(text)));
    UniqueElements<string>([]);
    UniqueSnoc(Cleaned(Split(text)), Trim(piece));
    UniqueSnoc([], Trim(piece));
    ParseEntriesSnoc(Unique(Cleaned(Split(text))), Trim(piece), numerals);
    ParseEntriesSnoc([], Trim(piece), numerals);
    assert [piece] == [] + [piece] && [Trim(piece)] == [] + [Trim(piece)];
  }

  lemma SplitOfNothing()
    ensures Split("") == [""] && Trim("") == ""
  {
  }

  lemma UniqueSnoc<T>(xs: seq<T>, x: T)
    ensures Unique(xs + [x]) == if x in xs then Unique(xs) else Unique(xs) + [x]
  {
    assert (xs + [x])[..|xs|] == xs;
  }

  lemma ParseEntriesSnoc(es: seq<string>, e: string, numerals: Numerals)
    ensures ParseEntries(es + [e], numerals) == ParseEntries(es, numerals) + [ParseEntry(e, numerals)]
  {
    hide ParseEntry;
  }

  lemma EntryIsListed(ms: seq<Model>, m: Model, numerals: Numerals)
    requires AllShaped(ms) && Shaped(m)
    ensures Entry(m) in Entries(ms) <==> m in ms
  {
    hide Shaped, Entry, ParseEntry;
    if Entry(m) in Entries(ms) {
      var i :| 0 <= i < |ms| && Entries(ms)[i] == Entry(m);
      assert ms[i] in ms;
      ParseOfEntry(ms[i], numerals);
      ParseOfEntry(m, numerals);
    }
    if m in ms {
      var i :| 0 <= i < |ms| && ms[i] == m;
      assert Entries(ms)[i] == Entry(m);
    }
  }

  lemma {:induction false} UniqueEntries(ms: seq<Model>, numerals: Numerals)
    requires AllShaped(ms)
    ensures ParseEntries(Unique(Entries(ms)), numerals) == Unique(ms)
  {
    hide Shaped, Entry, ParseEntry, Unique;
    if ms == [] {
      assert Unique<string>([]) == [] && Unique<Model>([]) == [] by {
        UniqueOfDistinct<string>([]);
        UniqueOfDistinct<Model>([]);
      }
    } else {
      var init, m := ms[..|ms| - 1], ms[|ms| - 1];
      UniqueEntries(init, numerals);
      ParseOfEntry(m, numerals);
      EntryIsListed(init, m, numerals);
      assert Entries(ms) == Entries(init) + [Entry(m)];
      assert ms == init + [m];
      UniqueSnoc(Entries(init), Entry(m));
      UniqueSnoc(init, m);
      ParseEntriesSnoc(Unique(Entries(init)), Entry(m), numerals);
    }
  }

  /** Printing models that have the shape and reading them again drops repetitions and nothing else. */
  lemma ReadBack(ms: seq<Model>, numerals: Numerals)
    requires AllShaped(ms)
    ensures ParseModels(FormatModels(ms), numerals) == Unique(ms)
  {
    forall e | e in Entries(ms) ensures Clean(e) {
      var i :| 0 <= i < |ms| && e == Entry(ms[i]);
      EntryIsClean(ms[i]);
    }
    CleanedOfJoin(Entries(ms));
    UniqueEntries(ms, numerals);
  }

  /** The round trip holds for exactly the lists without repetitions whose models have the shape. */
  lemma RoundTrip(ms: seq<Model>, numerals: Numerals)
    ensures ParseModels(FormatModels(ms), numerals) == ms <==> AllShaped(ms) && Distinct(ms)
  {
    ParsedIsShaped(FormatModels(ms), numerals);
    if AllShaped(ms) {
      ReadBack(ms, numerals);
      UniqueElements(ms);
      if Distinct(ms) {
        UniqueOfDistinct(ms);
      }
    }
  }

  // ----- the preset buttons -----

  datatype Preset = Preset128k | Preset272k | Preset1m | Custom | NoWindow

  function PresetWindow(preset: Preset, custom: string, numerals: Numerals): Option<Window> {
    match preset
    case Preset128k => Some(128_000)
    case Preset272k => Some(272_000)
    case Preset1m => Some(1_000_000)
    case Custom => ReadWindow(Trim(custom), numerals)
    case NoWindow => None
  }

  /** The window each button stands for. A number typed in must be a positive safe integer. */
  lemma PresetNumbers(custom: string, n: nat, numerals: Numerals)
    requires Trim(custom) == Decimal(n)
    ensures PresetWindow(Preset128k, custom, numerals) == Some(128_000)
    ensures PresetWindow(Preset272k, custom, numerals) == Some(272_000)
    ensures PresetWindow(Preset1m, custom, numerals) == Some(1_000_000)
    ensures PresetWindow(Custom, custom, numerals) == if 0 < n <= 9_007_199_254_740_991 then Some(n) else None
    ensures PresetWindow(NoWindow, custom, numerals) == None
  {
    hide ReadWindow, Decimal;
    WindowOfDigits("", n, numerals);
    assert "" + Decimal(n) == Decimal(n);
  }

  function Widened(w: Option<Window>): Option<nat> {
    if w.Some? then Some(w.value) else None
  }

  function WithWindow(ms: seq<Model>, w: Option<Window>): (r: seq<Model>)
    ensures |r| == |ms|
    ensures forall i :: 0 <= i < |ms| ==> r[i] == ms[i].(window := Widened(w))
  {
    if ms == [] then [] else WithWindow(ms[..|ms| - 1], w) + [ms[|ms| - 1].(window := Widened(w))]
  }

  function Ids(ms: seq<Model>): (ids: seq<string>)
    ensures |ids| == |ms| && forall i :: 0 <= i < |ms| ==> ids[i] == ms[i].id
  {
    if ms == [] then [] else Ids(ms[..|ms| - 1]) + [ms[|ms| - 1].id]
  }

  class Form {
    var modelsText: string
    var contextWindowPreset: Preset

    constructor (text: string)
      ensures modelsText == text && contextWindowPreset == NoWindow
    {
      modelsText, contextWindowPreset := text, NoWindow;
    }

    /**
     Put one window on every listed model. Read again, the text lists the same models
     in the same order with that window, exactly when no id is listed twice and, if
     there is a window to write, no id starts with a colon.
     */
    method ApplyContextWindowPreset(preset: Preset, custom: string, numerals: Numerals)
      modifies this
      ensures contextWindowPreset == preset
      ensures modelsText ==
              FormatModels(WithWindow(ParseModels(old(modelsText), numerals), PresetWindow(preset, custom, numerals)))
      ensures var w, ms := PresetWindow(preset, custom, numerals), ParseModels(old(modelsText), numerals);
              && (ParseModels(modelsText, numerals) == WithWindow(ms, w) <==> PresetFits(ms, w))
              && (w == None || !ColonFirst(ms) ==> ParseModels(modelsText, numerals) == Unique(WithWindow(ms, w)))
    {
      contextWindowPreset := preset;
      var window: Option<Window> := None;
      match preset {
        case Preset128k => window := Some(128_000);
        case Preset272k => window := Some(272_000);
        case Preset1m => window := Some(1_000_000);
        case Custom => window := ReadWindow(Trim(custom), numerals);
        case NoWindow =>
      }
      var current := ParseModels(modelsText, numerals);
      ParsedIsShaped(modelsText, numerals);
      PresetIsExact(current, window, numerals);
      modelsText := FormatModels(WithWindow(current, window));
    }
  }

  predicate ColonFirst(ms: seq<Model>) {
    exists m :: m in ms && m.id != "" && m.id[0] == ':'
  }

  predicate PresetFits(ms: seq<Model>, w: Option<Window>) {
    Distinct(Ids(ms)) && (w == None || !ColonFirst(ms))
  }

  lemma PresetIsExact(ms: seq<Model>, w: Option<Window>, numerals: Numerals)
    requires AllShaped(ms)
    ensures ParseModels(FormatModels(WithWindow(ms, w)), numerals) == WithWindow(ms, w) <==> PresetFits(ms, w)
    ensures w == None || !ColonFirst(ms) ==>
              ParseModels(FormatModels(WithWindow(ms, w)), numerals) == Unique(WithWindow(ms, w))
  {
    hide ParseModels, FormatModels, Distinct, AllShaped, Ids, WithWindow, ColonFirst, Unique;
    var target := WithWindow(ms, w);
    RoundTrip(target, numerals);
    TargetShape(ms, w);
    TargetDistinct(ms, w);
    if AllShaped(target) {
      ReadBack(target, numerals);
    }
  }

  lemma TargetDistinct(ms: seq<Model>, w: Option<Window>)
    requires AllShaped(ms)
    ensures Distinct(WithWindow(ms, w)) <==> Distinct(Ids(ms))
  {
    var target, ids := WithWindow(ms, w), Ids(ms);
    forall i | 0 <= i < |ms| ensures target[i] == Model(ids[i], ids[i], Widened(w)) {
      assert ms[i] in ms;
    }
  }

  lemma ShapeWithWindow(m: Model, w: Option<Window>)
    requires Shaped(m)
    ensures Shaped(m.(window := Widened(w))) <==> w == None || m.id[0] != ':'
  {
  }

  lemma TargetShape(ms: seq<Model>, w: Option<Window>)
    requires AllShaped(ms)
    ensures AllShaped(WithWindow(ms, w)) <==> w == None || !ColonFirst(ms)
  {
    hide Shaped;
    var target := WithWindow(ms, w);
    forall i | 0 <= i < |ms|
      ensures ms[i] in ms && target[i] in target && Shaped(ms[i])
      ensures ms[i].id != "" && (Shaped(target[i]) <==> w == None || ms[i].id[0] != ':')
    {
      assert ms[i] in ms;
      ShapeWithWindow(ms[i], w);
      ShapedIsClean(ms[i]);
    }
    if AllShaped(target) {
      forall m | m in ms ensures w == None || m.id == "" || m.id[0] != ':' {
        var i :| 0 <= i < |ms| && ms[i] == m;
        assert Shaped(target[i]);
      }
    } else {
      var m :| m in target && !Shaped(m);
      var i :| 0 <= i < |ms| && target[i] == m;
      assert ms[i] in ms && ms[i].id[0] == ':';
    }
  }

  lemma ShapedIsClean(m: Model)
    requires Shaped(m)
    ensures m.id != ""
  {
  }

  /** An id listed with two windows is listed once after the windows are taken away. */
  lemma PresetCanMergeModels(numerals: Numerals)
    ensures var ms := [Model("a", "a", Some(1)), Model("a", "a", Some(2))];
            && ParseModels(FormatModels(ms), numerals) == ms
            && ParseModels(FormatModels(WithWindow(ms, None)), numerals) == [Model("a", "a", None)]
  {
    hide ParseModels, FormatModels;
    var one, two, plain := Model("a", "a", Some(1)), Model("a", "a", Some(2)), Model("a", "a", None);
    assert Shaped(one) && Shaped(two) && Shaped(plain);
    var ms := [one, two];
    RoundTrip(ms, numerals);
    assert WithWindow(ms, None) == [plain, plain];
    ReadBack([plain, plain], numerals);
    UniqueSnoc([plain], plain);
    assert [plain] + [plain] == [plain, plain];
    UniqueOfDistinct([plain]);
  }

  /** Every id that starts with a colon swallows the window written behind it. */
  lemma ColonIdSwallowsWindow(id: string, w: Window, numerals: Numerals)
    requires Shaped(Model(id, id, None)) && id[0] == ':'
    ensures var spoilt := id + ":" + Decimal(w);
            ParseModels(FormatModels(WithWindow([Model(id, id, None)], Some(w))), numerals)
            == [Model(spoilt, spoilt, None)]
  {
    hide ParseModels, FormatModels, Decimal;
    var m, text := Model(id, id, Some(w)), id + ":" + Decimal(w);
    var spoilt := Model(text, text, None);
    assert WithWindow([Model(id, id, None)], Some(w)) == [m];
    DigitsAreTrimmed(Decimal(w));
    RoundTrip([spoilt], numerals);
    FormatOfOne(m);
    FormatOfOne(spoilt);
  }

  lemma FormatOfOne(m: Model)
    ensures FormatModels([m]) == Entry(m)
  {
  }
}
