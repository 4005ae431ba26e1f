/** Sort keys, the three-way comparator the components pass to
  * `Array.prototype.sort`, and a stable sort on sequences that stands for
  * that library call. */
module Sorting {
  import opened Seqs

  /** A calendar day, as the components hold it after parsing. */
  datatype Date = Date(year: nat, month: nat, day: nat)

  /** The value a column contributes to a comparison: a number, a string, or a day. */
  datatype Key = NumKey(n: int) | TextKey(s: string) | DateKey(d: Date)

  datatype Direction = Asc | Desc

  /** `sortDirection === 'asc' ? 1 : -1`. */
  function Reverse(dir: Direction): int {
    if dir == Asc then 1 else -1
  }

  function Flip(dir: Direction): Direction {
    if dir == Asc then Desc else Asc
  }

  function CompareInts(a: int, b: int): int {
    if a < b then -1 else if a > b then 1 else 0
  }

  /** `(a > b) - (b > a)` on strings: code-point order, a proper prefix first. */
  function CompareStrings(a: string, b: string): (r: int)
    ensures -1 <= r <= 1
    decreases |a|
  {
    if a == [] && b == [] then 0
    else if a == [] then -1
    else if b == [] then 1
    else if a[0] < b[0] then -1
    else if a[0] > b[0] then 1
    else CompareStrings(a[1..], b[1..])
  }

  /** Days in calendar order. */
  function CompareDates(a: Date, b: Date): int {
    if a.year != b.year then CompareInts(a.year, b.year)
    else if a.month != b.month then CompareInts(a.month, b.month)
    else CompareInts(a.day, b.day)
  }

  function KindRank(k: Key): int {
    match k
    case NumKey(_) => 0
    case TextKey(_) => 1
    case DateKey(_) => 2
  }

  /** The three-way comparison of two keys of one column. */
  function CompareKeys(a: Key, b: Key): (r: int)
    ensures -1 <= r <= 1
  {
    if KindRank(a) != KindRank(b) then CompareInts(KindRank(a), KindRank(b))
    else match (a, b)
      case (NumKey(x), NumKey(y)) => CompareInts(x, y)
      case (TextKey(x), TextKey(y)) => CompareStrings(x, y)
      case (DateKey(x), DateKey(y)) => CompareDates(x, y)
  }

  /** The comparator of the components' `sortBy`: `reverse * ((a > b) - (b > a))`. */
  function SortCompare(a: Key, b: Key, dir: Direction): int {
    Reverse(dir) * CompareKeys(a, b)
  }

  lemma {:induction false} CompareStringsAntisymmetric(a: string, b: string)
    ensures CompareStrings(a, b) == -CompareStrings(b, a)
    decreases |a|
  {
    if a != [] && b != [] && a[0] == b[0] {
      CompareStringsAntisymmetric(a[1..], b[1..]);
    }
  }

  lemma {:induction false} CompareStringsZero(a: string, b: string)
    ensures CompareStrings(a, b) == 0 <==> a == b
    decreases |a|
  {
    if a != [] && b != [] && a[0] == b[0] {
      CompareStringsZero(a[1..], b[1..]);
      assert a == [a[0]] + a[1..] && b == [b[0]] + b[1..];
    }
  }

  lemma {:induction false} CompareStringsTransitive(a: string, b: string, c: string)
    requires CompareStrings(a, b) <= 0 && CompareStrings(b, c) <= 0
    ensures CompareStrings(a, c) <= 0
    decreases |a|
  {
    if a != [] && b != [] && c != [] && a[0] == b[0] && b[0] == c[0] {
      CompareStringsTransitive(a[1..], b[1..], c[1..]);
    }
  }

  /** Swapping the operands negates the comparison. */
  lemma CompareKeysAntisymmetric(a: Key, b: Key)
    ensures CompareKeys(a, b) == -CompareKeys(b, a)
  {
    if a.TextKey? && b.TextKey? {
      CompareStringsAntisymmetric(a.s, b.s);
    }
  }

  /** The comparison is zero exactly on equal keys. */
  lemma CompareKeysZero(a: Key, b: Key)
    ensures CompareKeys(a, b) == 0 <==> a == b
  {
    if a.TextKey? && b.TextKey? {
      CompareStringsZero(a.s, b.s);
    }
  }

  lemma CompareKeysTransitive(a: Key, b: Key, c: Key)
    requires CompareKeys(a, b) <= 0 && CompareKeys(b, c) <= 0
    ensures CompareKeys(a, c) <= 0
  {
    if a.TextKey? && b.TextKey? && c.TextKey? {
      CompareStringsTransitive(a.s, b.s, c.s);
    }
  }

  /** The comparator is antisymmetric, zero on equal keys, and the descending
    * order is the ascending one negated. */
  lemma SortCompareProperties(a: Key, b: Key)
    ensures SortCompare(a, b, Asc) == -SortCompare(b, a, Asc)
    ensures SortCompare(a, b, Desc) == -SortCompare(b, a, Desc)
    ensures SortCompare(a, b, Asc) == 0 <==> a == b
    ensures SortCompare(a, b, Desc) == -SortCompare(a, b, Asc)
  {
    CompareKeysAntisymmetric(a, b);
    CompareKeysZero(a, b);
  }

  lemma SortCompareTransitive(a: Key, b: Key, c: Key, dir: Direction)
    requires SortCompare(a, b, dir) <= 0 && SortCompare(b, c, dir) <= 0
    ensures SortCompare(a, c, dir) <= 0
  {
    if dir == Asc {
      CompareKeysTransitive(a, b, c);
    } else {
      CompareKeysAntisymmetric(a, b);
      CompareKeysAntisymmetric(b, c);
      CompareKeysAntisymmetric(a, c);
      CompareKeysTransitive(c, b, a);
    }
  }

  /** s is ordered by the comparator: no later element sorts before an earlier one. */
  ghost predicate SortedBy<T>(s: seq<T>, key: T -> Key, dir: Direction) {
    forall i, j :: 0 <= i < j < |s| ==> SortCompare(key(s[i]), key(s[j]), dir) <= 0
  }

  /** An element that sorts no later than every element of a sorted sequence
    * can go in front of it. */
  lemma SortedCons<T>(h: T, s: seq<T>, key: T -> Key, dir: Direction)
    requires SortedBy(s, key, dir)
    requires forall j :: 0 <= j < |s| ==> SortCompare(key(h), key(s[j]), dir) <= 0
    ensures SortedBy([h] + s, key, dir)
  {
    var r := [h] + s;
    forall i, j | 0 <= i < j < |r| ensures SortCompare(key(r[i]), key(r[j]), dir) <= 0 {
      assert r[j] == s[j - 1];
      if i > 0 {
        assert r[i] == s[i - 1];
      }
    }
  }

  /** What sorts before the first element of a sorted sequence sorts before all of it. */
  lemma BelowHead<T>(x: T, s: seq<T>, key: T -> Key, dir: Direction)
    requires SortedBy(s, key, dir) && s != [] && SortCompare(key(x), key(s[0]), dir) < 0
    ensures forall j :: 0 <= j < |s| ==> SortCompare(key(x), key(s[j]), dir) <= 0
  {
    forall j | 0 <= j < |s| ensures SortCompare(key(x), key(s[j]), dir) <= 0 {
      if j > 0 {
        SortCompareTransitive(key(x), key(s[0]), key(s[j]), dir);
      }
    }
  }

  /** The first element of a sorted sequence sorts no later than anything
    * made of the rest of it and one element it does not sort after. */
  lemma HeadBelowRest<T>(x: T, s: seq<T>, rest: seq<T>, key: T -> Key, dir: Direction)
    requires SortedBy(s, key, dir) && s != [] && SortCompare(key(s[0]), key(x), dir) <= 0
    requires multiset(rest) == multiset(s[1..]) + multiset{x}
    ensures forall j :: 0 <= j < |rest| ==> SortCompare(key(s[0]), key(rest[j]), dir) <= 0
  {
    forall j | 0 <= j < |rest| ensures SortCompare(key(s[0]), key(rest[j]), dir) <= 0 {
      assert rest[j] in multiset(rest);
      if rest[j] != x {
        assert rest[j] in multiset(s[1..]);
        var k :| 0 <= k < |s[1..]| && s[1..][k] == rest[j];
        assert s[k + 1] == rest[j];
      }
    }
  }

  /** Inserts x after every element that does not sort after it. */
  function Insert<T>(x: T, s: seq<T>, key: T -> Key, dir: Direction): (r: seq<T>)
    requires SortedBy(s, key, dir)
    ensures SortedBy(r, key, dir)
    ensures multiset(r) == multiset(s) + multiset{x}
    decreases |s|
  {
    if s == [] then [x]
    else if SortCompare(key(x), key(s[0]), dir) < 0 then
      BelowHead(x, s, key, dir);
      SortedCons(x, s, key, dir);
      [x] + s
    else
      SortCompareProperties(key(x), key(s[0]));
      var rest := Insert(x, s[1..], key, dir);
      HeadBelowRest(x, s, rest, key, dir);
      SortedCons(s[0], rest, key, dir);
      assert s == [s[0]] + s[1..];
      [s[0]] + rest
  }

  /** A stable sort of s by the comparator (insertion sort). */
  function SortBy<T>(s: seq<T>, key: T -> Key, dir: Direction): (r: seq<T>)
    ensures SortedBy(r, key, dir)
    ensures multiset(r) == multiset(s)
    ensures |r| == |s|
    decreases |s|
  {
    if s == [] then []
    else
      assert s == s[..|s| - 1] + [s[|s| - 1]];
      var r := Insert(s[|s| - 1], SortBy(s[..|s| - 1], key, dir), key, dir);
      assert |r| == |multiset(r)|;
      r
  }

  /** The test "has key k". */
  function HasKey<T>(key: T -> Key, k: Key): T -> bool {
    (y: T) => key(y) == k
  }

  /** The elements of s whose key is k, in their order in s. */
  function WithKey<T>(s: seq<T>, key: T -> Key, k: Key): seq<T> {
    Filter(s, HasKey(key, k))
  }

  /** Nothing in a sorted sequence has the key of an element that sorts
    * before its head. */
  lemma NoneWithKeyBelowHead<T>(x: T, s: seq<T>, key: T -> Key, dir: Direction)
    requires SortedBy(s, key, dir) && s != [] && SortCompare(key(x), key(s[0]), dir) < 0
    ensures WithKey(s, key, key(x)) == []
  {
    var f := WithKey(s, key, key(x));
    if f != [] {
      assert f[0] in s && HasKey(key, key(x))(f[0]);
      var j :| 0 <= j < |s| && s[j] == f[0];
      if j == 0 {
        SortCompareProperties(key(x), key(s[0]));
        assert false;
      } else {
        SortCompareProperties(key(s[0]), key(x));
        assert false;
      }
    }
  }

  /** The elements with key k of a sequence with one more element in front. */
  lemma WithKeyCons<T>(h: T, t: seq<T>, key: T -> Key, k: Key)
    ensures WithKey([h] + t, key, k) == (if key(h) == k then [h] else []) + WithKey(t, key, k)
  {
    FilterAppend([h], t, HasKey(key, k));
    FilterSingleton(h, HasKey(key, k));
  }

  lemma InsertInFront<T>(x: T, s: seq<T>, key: T -> Key, dir: Direction)
    requires SortedBy(s, key, dir) && s != [] && SortCompare(key(x), key(s[0]), dir) < 0
    ensures Insert(x, s, key, dir) == [x] + s
  {
  }

  lemma InsertPastHead<T>(x: T, s: seq<T>, key: T -> Key, dir: Direction)
    requires SortedBy(s, key, dir) && s != [] && SortCompare(key(x), key(s[0]), dir) >= 0
    ensures SortedBy(s[1..], key, dir)
    ensures Insert(x, s, key, dir) == [s[0]] + Insert(x, s[1..], key, dir)
  {
  }

  /** Inserting x keeps the elements with any one key in their order, x
    * after those of its own key that were already there. */
  lemma {:induction false} InsertWithKey<T>(x: T, s: seq<T>, key: T -> Key, dir: Direction, k: Key)
    requires SortedBy(s, key, dir)
    ensures WithKey(Insert(x, s, key, dir), key, k) == WithKey(s, key, k) + (if key(x) == k then [x] else [])
    decreases |s|
  {
    if s == [] {
      FilterSingleton(x, HasKey(key, k));
    } else if SortCompare(key(x), key(s[0]), dir) < 0 {
      InsertInFront(x, s, key, dir);
      WithKeyCons(x, s, key, k);
      if key(x) == k {
        NoneWithKeyBelowHead(x, s, key, dir);
      }
    } else {
      InsertPastHead(x, s, key, dir);
      InsertWithKey(x, s[1..], key, dir, k);
      WithKeyPastHead(s[0], s[1..], Insert(x, s[1..], key, dir), key, k, if key(x) == k then [x] else []);
      assert [s[0]] + s[1..] == s;
    }
  }

  /** Putting one element in front of two sequences whose elements with key
    * k differ by a suffix keeps that difference. */
  lemma WithKeyPastHead<T>(h: T, t: seq<T>, r: seq<T>, key: T -> Key, k: Key, e: seq<T>)
    requires WithKey(r, key, k) == WithKey(t, key, k) + e
    ensures WithKey([h] + r, key, k) == WithKey([h] + t, key, k) + e
  {
    WithKeyCons(h, r, key, k);
    WithKeyCons(h, t, key, k);
  }

  /** `SortBy` is stable: the elements with any one key keep their order. */
  lemma {:induction false} SortByStable<T>(s: seq<T>, key: T -> Key, dir: Direction, k: Key)
    ensures WithKey(SortBy(s, key, dir), key, k) == WithKey(s, key, k)
    decreases |s|
  {
    if s != [] {
      var init, last := s[..|s| - 1], s[|s| - 1];
      SortBySnoc(s, key, dir);
      SortByStable(init, key, dir, k);
      InsertWithKey(last, SortBy(init, key, dir), key, dir, k);
      WithKeySnoc(s, key, k);
    }
  }

  lemma SortBySnoc<T>(s: seq<T>, key: T -> Key, dir: Direction)
    requires s != []
    ensures SortBy(s, key, dir) == Insert(s[|s| - 1], SortBy(s[..|s| - 1], key, dir), key, dir)
  {
  }

  lemma WithKeySnoc<T>(s: seq<T>, key: T -> Key, k: Key)
    requires s != []
    ensures WithKey(s, key, k) == WithKey(s[..|s| - 1], key, k) + (if key(s[|s| - 1]) == k then [s[|s| - 1]] else [])
  {
    assert s == s[..|s| - 1] + [s[|s| - 1]];
    FilterAppend(s[..|s| - 1], [s[|s| - 1]], HasKey(key, k));
    FilterSingleton(s[|s| - 1], HasKey(key, k));
  }

  /** Elements that all have one key keep their order. */
  lemma SortBySameKey<T>(s: seq<T>, key: T -> Key, dir: Direction, k: Key)
    requires forall i :: 0 <= i < |s| ==> key(s[i]) == k
    ensures SortBy(s, key, dir) == s
  {
    var r := SortBy(s, key, dir);
    SortByStable(s, key, dir, k);
    FilterAllPass(s, HasKey(key, k));
    forall i | 0 <= i < |r| ensures HasKey(key, k)(r[i]) {
      assert r[i] in multiset(s);
      var j :| 0 <= j < |s| && s[j] == r[i];
    }
    FilterAllPass(r, HasKey(key, k));
  }
}
