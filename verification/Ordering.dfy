/**
 Comparator-driven sorting as `Array.prototype.sort` performs it: stable, and
 looking only at the sign of what the comparator returns.
 */
module Ordering {
  type Comparator<!T> = (T, T) -> int

  /** A consistent comparator: swapping the arguments flips the sign, and `<= 0` is transitive. */
  ghost predicate IsPreorder<T(!new)>(cmp: Comparator<T>) {
    && (forall x, y :: cmp(x, y) < 0 <==> cmp(y, x) > 0)
    && (forall x, y, z :: cmp(x, y) <= 0 && cmp(y, z) <= 0 ==> cmp(x, z) <= 0)
  }

  /** No two different elements of `s` compare equal. */
  ghost predicate NoTies<T(!new)>(cmp: Comparator<T>, s: seq<T>) {
    forall x, y :: x in s && y in s && cmp(x, y) == 0 ==> x == y
  }

  /** `localeCompare`. */
  type Locale = Comparator<string>

  /** Collation assumed to be an order in which only equal strings tie. */
  ghost predicate IsLocale(locale: Locale) {
    && IsPreorder(locale)
    && forall x, y :: locale(x, y) == 0 ==> x == y
  }

  /** `primary || secondary` on comparator results. */
  function Then(primary: int, secondary: int): int {
    if primary != 0 then primary else secondary
  }

  /** Compare by `primary`; on a tie by `secondary`. */
  function Lex<T>(primary: Comparator<T>, secondary: Comparator<T>): Comparator<T> {
    (x, y) => Then(primary(x, y), secondary(x, y))
  }

  lemma LexIsPreorder<T(!new)>(primary: Comparator<T>, secondary: Comparator<T>)
    requires IsPreorder(primary) && IsPreorder(secondary)
    ensures IsPreorder(Lex(primary, secondary))
  {
    var cmp := Lex(primary, secondary);
    forall x, y ensures cmp(x, y) < 0 <==> cmp(y, x) > 0 {
      assert primary(x, y) < 0 <==> primary(y, x) > 0;
      assert primary(y, x) < 0 <==> primary(x, y) > 0;
      assert secondary(x, y) < 0 <==> secondary(y, x) > 0;
    }
    forall x, y, z | cmp(x, y) <= 0 && cmp(y, z) <= 0 ensures cmp(x, z) <= 0 {
      LexTransitive(primary, secondary, x, y, z);
    }
  }

  lemma LexTransitive<T(!new)>(primary: Comparator<T>, secondary: Comparator<T>, x: T, y: T, z: T)
    requires IsPreorder(primary) && IsPreorder(secondary)
    requires Lex(primary, secondary)(x, y) <= 0 && Lex(primary, secondary)(y, z) <= 0
    ensures Lex(primary, secondary)(x, z) <= 0
  {
    assert primary(x, y) <= 0 && primary(y, z) <= 0 && primary(x, z) <= 0;
    if primary(x, z) == 0 {
      assert primary(z, x) <= 0;
      assert primary(z, y) <= 0 && primary(y, x) <= 0;
      assert secondary(x, y) <= 0 && secondary(y, z) <= 0;
    }
  }

  /** Compare by a key. */
  function By<T, K>(cmp: Comparator<K>, key: T -> K): Comparator<T> {
    (x, y) => cmp(key(x), key(y))
  }

  lemma ByIsPreorder<T(!new), K(!new)>(cmp: Comparator<K>, key: T -> K)
    requires IsPreorder(cmp)
    ensures IsPreorder(By(cmp, key))
  {
    var pulled := By(cmp, key);
    forall x, y ensures pulled(x, y) < 0 <==> pulled(y, x) > 0 {
      assert cmp(key(x), key(y)) < 0 <==> cmp(key(y), key(x)) > 0;
    }
    forall x, y, z | pulled(x, y) <= 0 && pulled(y, z) <= 0 ensures pulled(x, z) <= 0 {
      assert cmp(key(x), key(y)) <= 0 && cmp(key(y), key(z)) <= 0;
    }
  }

  function Negate<T>(cmp: Comparator<T>): Comparator<T> {
    (x, y) => -cmp(x, y)
  }

  lemma NegateIsPreorder<T(!new)>(cmp: Comparator<T>)
    requires IsPreorder(cmp)
    ensures IsPreorder(Negate(cmp))
  {
    var negated := Negate(cmp);
    forall x, y, z | negated(x, y) <= 0 && negated(y, z) <= 0 ensures negated(x, z) <= 0 {
      assert cmp(z, y) <= 0 && cmp(y, x) <= 0;
    }
  }

  /** Only the values a comparator returns matter. */
  lemma SamePreorder<T(!new)>(cmp: Comparator<T>, other: Comparator<T>)
    requires IsPreorder(cmp) && forall x, y :: other(x, y) == cmp(x, y)
    ensures IsPreorder(other)
  {
  }

  predicate Sorted<T>(cmp: Comparator<T>, s: seq<T>) {
    forall i, j :: 0 <= i < j < |s| ==> cmp(s[i], s[j]) <= 0
  }

  /** `x` in front of the first element it does not exceed. */
  function Insert<T>(cmp: Comparator<T>, x: T, s: seq<T>): (r: seq<T>)
    ensures multiset(r) == multiset(s) + multiset{x}
  {
    if s == [] then [x]
    else if cmp(x, s[0]) <= 0 then [x] + s
    else
      assert s == [s[0]] + s[1..];
      [s[0]] + Insert(cmp, x, s[1..])
  }

  function StableSort<T>(cmp: Comparator<T>, s: seq<T>): (r: seq<T>)
    ensures multiset(r) == multiset(s)
    ensures |r| == |s|
  {
    if s == [] then []
    else
      assert s == [s[0]] + s[1..];
      var r := Insert(cmp, s[0], StableSort(cmp, s[1..]));
      assert |multiset(r)| == |multiset(s)|;
      r
  }

  lemma Chain<T(!new)>(cmp: Comparator<T>, x: T, y: T, z: T)
    requires IsPreorder(cmp)
    ensures cmp(x, y) <= 0 && cmp(y, z) <= 0 ==> cmp(x, z) <= 0
    ensures cmp(x, y) > 0 ==> cmp(y, x) <= 0
  {
  }

  lemma {:induction false} InsertKeepsSorted<T(!new)>(cmp: Comparator<T>, x: T, s: seq<T>)
    requires IsPreorder(cmp) && Sorted(cmp, s)
    ensures Sorted(cmp, Insert(cmp, x, s))
  {
    hide IsPreorder;
    if s == [] {
    } else if cmp(x, s[0]) <= 0 {
      forall j | 0 <= j < |s| ensures cmp(x, s[j]) <= 0 {
        Chain(cmp, x, s[0], s[j]);
      }
    } else {
      InsertKeepsSorted(cmp, x, s[1..]);
      Chain(cmp, x, s[0], s[0]);
      var tail := Insert(cmp, x, s[1..]);
      forall j | 0 <= j < |tail| ensures cmp(s[0], tail[j]) <= 0 {
        assert tail[j] in multiset(tail);
        assert tail[j] == x || tail[j] in s[1..];
      }
    }
  }

  lemma {:induction false} SortIsSorted<T(!new)>(cmp: Comparator<T>, s: seq<T>)
    requires IsPreorder(cmp)
    ensures Sorted(cmp, StableSort(cmp, s))
  {
    hide IsPreorder;
    if s != [] {
      SortIsSorted(cmp, s[1..]);
      InsertKeepsSorted(cmp, s[0], StableSort(cmp, s[1..]));
    }
  }

  /** The elements that compare equal to `x`, in order. */
  function Ties<T>(cmp: Comparator<T>, x: T, s: seq<T>): seq<T> {
    if s == [] then []
    else if cmp(x, s[0]) == 0 then [s[0]] + Ties(cmp, x, s[1..])
    else Ties(cmp, x, s[1..])
  }

  lemma {:induction false} InsertTies<T(!new)>(cmp: Comparator<T>, x: T, s: seq<T>, y: T)
    requires IsPreorder(cmp)
    ensures Ties(cmp, y, Insert(cmp, x, s)) == Ties(cmp, y, [x] + s)
  {
    assert ([x] + s)[1..] == s;
    if s != [] && cmp(x, s[0]) > 0 {
      InsertTies(cmp, x, s[1..], y);
      assert ([x] + s[1..])[1..] == s[1..];
      var r := Insert(cmp, x, s);
      assert r[1..] == Insert(cmp, x, s[1..]);
      assert !(cmp(y, x) == 0 && cmp(y, s[0]) == 0);
    }
  }

  /** Elements that compare equal keep their order. */
  lemma {:induction false} SortIsStable<T(!new)>(cmp: Comparator<T>, s: seq<T>, y: T)
    requires IsPreorder(cmp)
    ensures Ties(cmp, y, StableSort(cmp, s)) == Ties(cmp, y, s)
  {
    if s != [] {
      SortIsStable(cmp, s[1..], y);
      InsertTies(cmp, s[0], StableSort(cmp, s[1..]), y);
      assert ([s[0]] + StableSort(cmp, s[1..]))[1..] == StableSort(cmp, s[1..]);
    }
  }

  lemma {:induction false} TiesMembers<T(!new)>(cmp: Comparator<T>, y: T, s: seq<T>, x: T)
    ensures x in Ties(cmp, y, s) <==> x in s && cmp(y, x) == 0
  {
    if s != [] {
      TiesMembers(cmp, y, s[1..], x);
      assert s == [s[0]] + s[1..];
    }
  }

  /** Being sorted and keeping ties in order leaves only one possible result. */
  lemma {:induction false} StableSortUnique<T(!new)>(cmp: Comparator<T>, a: seq<T>, b: seq<T>)
    requires IsPreorder(cmp) && Sorted(cmp, a) && Sorted(cmp, b)
    requires forall y :: Ties(cmp, y, a) == Ties(cmp, y, b)
    ensures a == b
  {
    if a == [] || b == [] {
      assert a == [] && b != [] ==> Ties(cmp, b[0], a) == Ties(cmp, b[0], b);
      assert b == [] && a != [] ==> Ties(cmp, a[0], a) == Ties(cmp, a[0], b);
    } else {
      TiesMembers(cmp, a[0], a, a[0]);
      TiesMembers(cmp, a[0], b, a[0]);
      assert Ties(cmp, a[0], a) == Ties(cmp, a[0], b);
      TiesMembers(cmp, b[0], a, b[0]);
      TiesMembers(cmp, b[0], b, b[0]);
      assert Ties(cmp, b[0], a) == Ties(cmp, b[0], b);
      assert cmp(a[0], b[0]) <= 0 && cmp(b[0], a[0]) <= 0;
      assert a[0] == Ties(cmp, a[0], a)[0] == Ties(cmp, a[0], b)[0] == b[0];
      forall y ensures Ties(cmp, y, a[1..]) == Ties(cmp, y, b[1..]) {
        assert Ties(cmp, y, a) == Ties(cmp, y, b);
        if cmp(y, a[0]) == 0 {
          assert Ties(cmp, y, a)[1..] == Ties(cmp, y, b)[1..];
        }
      }
      StableSortUnique(cmp, a[1..], b[1..]);
    }
  }

  lemma HeadsAgree<T(!new)>(cmp: Comparator<T>, a: seq<T>, b: seq<T>)
    requires IsPreorder(cmp) && NoTies(cmp, a) && Sorted(cmp, a) && Sorted(cmp, b)
    requires a != [] && b != [] && a[0] in b && b[0] in a
    ensures a[0] == b[0]
  {
    var i :| 0 <= i < |b| && b[i] == a[0];
    var j :| 0 <= j < |a| && a[j] == b[0];
    if i > 0 && j > 0 {
      assert cmp(a[0], a[j]) <= 0 && cmp(b[0], b[i]) <= 0;
      assert a[j] in a && a[0] in a;
    }
  }

  lemma SamePopulation<T>(a: seq<T>, b: seq<T>)
    requires multiset(a) == multiset(b)
    ensures |a| == |b|
    ensures a != [] ==> a[0] in b && b[0] in a
  {
    assert |multiset(a)| == |a| && |multiset(b)| == |b|;
    assert a != [] ==> a[0] in multiset(b) && b[0] in multiset(a);
  }

  /** Two sorted arrangements of the same elements, none of which tie. */
  ghost predicate Arranged<T(!new)>(cmp: Comparator<T>, a: seq<T>, b: seq<T>) {
    Sorted(cmp, a) && Sorted(cmp, b) && NoTies(cmp, a) && multiset(a) == multiset(b)
  }

  lemma TailArranged<T(!new)>(cmp: Comparator<T>, s: seq<T>)
    requires s != [] && Sorted(cmp, s)
    ensures Sorted(cmp, s[1..]) && (NoTies(cmp, s) ==> NoTies(cmp, s[1..]))
  {
  }

  lemma TailPopulation<T>(s: seq<T>)
    requires s != []
    ensures multiset(s[1..]) == multiset(s) - multiset{s[0]}
  {
    assert s == [s[0]] + s[1..];
  }

  lemma ArrangedTails<T(!new)>(cmp: Comparator<T>, a: seq<T>, b: seq<T>)
    requires IsPreorder(cmp) && Arranged(cmp, a, b) && a != []
    ensures b != [] && a[0] == b[0] && Arranged(cmp, a[1..], b[1..])
  {
    hide IsPreorder, Sorted, NoTies;
    SamePopulation(a, b);
    HeadsAgree(cmp, a, b);
    TailArranged(cmp, a);
    TailArranged(cmp, b);
    TailPopulation(a);
    TailPopulation(b);
  }

  lemma {:induction false} SortedUnique<T(!new)>(cmp: Comparator<T>, a: seq<T>, b: seq<T>)
    requires IsPreorder(cmp) && Arranged(cmp, a, b)
    ensures a == b
  {
    if a == [] {
      assert |multiset(a)| == |a| && |multiset(b)| == |b|;
    } else {
      ArrangedTails(cmp, a, b);
      hide Arranged, IsPreorder;
      SortedUnique(cmp, a[1..], b[1..]);
      assert a == [a[0]] + a[1..] && b == [b[0]] + b[1..];
    }
  }

  /** Where no two elements tie, the input order does not matter. */
  lemma SortIsCanonical<T(!new)>(cmp: Comparator<T>, a: seq<T>, b: seq<T>)
    requires IsPreorder(cmp) && NoTies(cmp, a) && multiset(a) == multiset(b)
    ensures StableSort(cmp, a) == StableSort(cmp, b)
  {
    SortIsSorted(cmp, a);
    SortIsSorted(cmp, b);
    forall x | x in StableSort(cmp, a) ensures x in a {
      assert x in multiset(StableSort(cmp, a));
    }
    SortedUnique(cmp, StableSort(cmp, a), StableSort(cmp, b));
  }
}
