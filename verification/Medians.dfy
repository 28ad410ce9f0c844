/** The median shared by aggregation, canonicalisation and outlier detection. */
module Medians {
  import opened Sorting

  predicate AtMost(x: real, y: real) {
    x <= y
  }

  function Ascending(values: seq<real>): (r: seq<real>)
    ensures |r| == |values|
  {
    Sort(values, AtMost)
  }

  /** The middle value, or the mean of the two middle values. */
  function Midpoint(x: real, y: real): real {
    (x + y) / 2.0
  }

  function Median(values: seq<real>): real
    requires values != []
  {
    var ordered := Ascending(values);
    var middle := |ordered| / 2;
    if |ordered| % 2 == 1 then ordered[middle] else Midpoint(ordered[middle - 1], ordered[middle])
  }

  function CountAtMost(s: seq<real>, t: real): nat {
    if s == [] then 0 else (if s[0] <= t then 1 else 0) + CountAtMost(s[1..], t)
  }

  function CountAtLeast(s: seq<real>, t: real): nat {
    if s == [] then 0 else (if s[0] >= t then 1 else 0) + CountAtLeast(s[1..], t)
  }

  function Map(f: real -> real, s: seq<real>): (r: seq<real>)
    ensures |r| == |s|
    ensures forall i :: 0 <= i < |s| ==> r[i] == f(s[i])
  {
    if s == [] then [] else [f(s[0])] + Map(f, s[1..])
  }

  ghost predicate Monotone(f: real -> real) {
    forall x, y :: x <= y ==> f(x) <= f(y)
  }

  lemma AscendingIsSorted(s: seq<real>)
    ensures SortedBy(Ascending(s), AtMost)
  {
    SortOrders(s, AtMost);
  }

  lemma {:induction false} CountInsert(x: real, s: seq<real>, t: real)
    ensures CountAtMost(Insert(x, s, AtMost), t) == (if x <= t then 1 else 0) + CountAtMost(s, t)
    ensures CountAtLeast(Insert(x, s, AtMost), t) == (if x >= t then 1 else 0) + CountAtLeast(s, t)
  {
    if s == [] || x <= s[0] {
      assert ([x] + s)[1..] == s;
    } else {
      var tail := Insert(x, s[1..], AtMost);
      assert ([s[0]] + tail)[1..] == tail;
      CountInsert(x, s[1..], t);
    }
  }

  lemma {:induction false} CountSorted(s: seq<real>, t: real)
    ensures CountAtMost(Ascending(s), t) == CountAtMost(s, t)
    ensures CountAtLeast(Ascending(s), t) == CountAtLeast(s, t)
  {
    if s != [] {
      CountSorted(s[1..], t);
      CountInsert(s[0], Ascending(s[1..]), t);
    }
  }

  lemma {:induction false} CountPrefix(s: seq<real>, k: nat, t: real)
    requires SortedBy(s, AtMost) && k < |s| && s[k] <= t
    ensures CountAtMost(s, t) >= k + 1
  {
    assert k == 0 || AtMost(s[0], s[k]);
    if k > 0 {
      CountPrefix(s[1..], k - 1, t);
    }
  }

  lemma {:induction false} CountSuffix(s: seq<real>, k: nat, t: real)
    requires SortedBy(s, AtMost) && k < |s| && s[k] >= t
    ensures CountAtLeast(s, t) >= |s| - k
  {
    if k > 0 {
      CountSuffix(s[1..], k - 1, t);
    } else if |s| > 1 {
      assert AtMost(s[0], s[1]);
      CountSuffix(s[1..], 0, t);
    }
  }

  /** What a median is: at least half the values on either side of it. */
  lemma MedianSplits(s: seq<real>)
    requires s != []
    ensures 2 * CountAtMost(s, Median(s)) >= |s|
    ensures 2 * CountAtLeast(s, Median(s)) >= |s|
  {
    var ordered, m, k := Ascending(s), Median(s), |s| / 2;
    AscendingIsSorted(s);
    CountSorted(s, m);
    if |s| % 2 == 1 {
      CountPrefix(ordered, k, m);
    } else {
      assert AtMost(ordered[k - 1], ordered[k]);
      CountPrefix(ordered, k - 1, m);
    }
    CountSuffix(ordered, k, m);
  }

  lemma MedianAtLeast(s: seq<real>, lo: real)
    requires s != [] && forall x :: x in s ==> lo <= x
    ensures lo <= Median(s)
  {
    var ordered := Ascending(s);
    SortPermutes(s, AtMost);
    SameMembers(ordered, s);
    forall i | 0 <= i < |ordered|
      ensures lo <= ordered[i]
    {
      assert ordered[i] in ordered;
    }
  }

  lemma MedianAtMost(s: seq<real>, hi: real)
    requires s != [] && forall x :: x in s ==> x <= hi
    ensures Median(s) <= hi
  {
    var ordered := Ascending(s);
    SortPermutes(s, AtMost);
    SameMembers(ordered, s);
    forall i | 0 <= i < |ordered|
      ensures ordered[i] <= hi
    {
      assert ordered[i] in ordered;
    }
  }

  /** The median does not depend on the order of its inputs. */
  lemma MedianPermutation(a: seq<real>, b: seq<real>)
    requires a != [] && multiset(a) == multiset(b)
    ensures b != [] && Median(a) == Median(b)
  {
    SameMembers(a, b);
    SortPermutation(a, b, AtMost);
  }

  lemma MapCons(f: real -> real, x: real, s: seq<real>)
    ensures Map(f, [x] + s) == [f(x)] + Map(f, s)
  {
    assert ([x] + s)[1..] == s;
  }

  lemma InsertBefore(x: real, y: real, s: seq<real>)
    requires x <= y
    ensures Insert(x, [y] + s, AtMost) == [x] + ([y] + s)
  {
  }

  /** A value not below the head goes somewhere after it, even when they are equal. */
  lemma InsertAfter(x: real, y: real, s: seq<real>)
    requires y <= x && (s == [] || y <= s[0])
    ensures Insert(x, [y] + s, AtMost) == [y] + Insert(x, s, AtMost)
  {
    assert ([y] + s)[1..] == s;
    if x == y {
      assert Insert(x, s, AtMost) == [x] + s;
    }
  }

  lemma {:induction false} InsertMap(f: real -> real, x: real, s: seq<real>)
    requires Monotone(f) && SortedBy(s, AtMost)
    ensures Map(f, Insert(x, s, AtMost)) == Insert(f(x), Map(f, s), AtMost)
    decreases |s|
  {
    if s == [] {
      MapCons(f, x, []);
    } else {
      InsertMapStep(f, x, s[0], s[1..]);
      assert s == [s[0]] + s[1..];
    }
  }

  lemma MapAt(f: real -> real, s: seq<real>, i: nat)
    requires i < |s|
    ensures |Map(f, s)| == |s| && Map(f, s)[i] == f(s[i])
  {
  }

  lemma SortedTail(y: real, tail: seq<real>)
    requires SortedBy([y] + tail, AtMost)
    ensures SortedBy(tail, AtMost) && (tail == [] || y <= tail[0])
  {
    var s := [y] + tail;
    assert forall i, j :: 0 <= i < j < |tail| ==> tail[i] == s[i + 1] && tail[j] == s[j + 1];
    assert tail == [] || AtMost(s[0], s[1]);
  }

  lemma MonotoneAt(f: real -> real, x: real, y: real)
    requires Monotone(f) && x <= y
    ensures f(x) <= f(y)
  {
  }

  lemma {:induction false} InsertMapStep(f: real -> real, x: real, y: real, tail: seq<real>)
    requires Monotone(f) && SortedBy([y] + tail, AtMost)
    ensures Map(f, Insert(x, [y] + tail, AtMost)) == Insert(f(x), Map(f, [y] + tail), AtMost)
    decreases |tail| + 1, 0
  {
    hide *;
    var mapped := Map(f, tail);
    MapCons(f, y, tail);
    if x <= y {
      MonotoneAt(f, x, y);
      InsertBefore(x, y, tail);
      MapCons(f, x, [y] + tail);
      InsertBefore(f(x), f(y), mapped);
    } else {
      SortedTail(y, tail);
      MonotoneAt(f, y, x);
      if tail != [] {
        MonotoneAt(f, y, tail[0]);
        MapAt(f, tail, 0);
      } else {
        MapNone(f);
      }
      InsertAfter(x, y, tail);
      InsertAfter(f(x), f(y), mapped);
      InsertMap(f, x, tail);
      MapCons(f, y, Insert(x, tail, AtMost));
    }
  }

  lemma MapNone(f: real -> real)
    ensures Map(f, []) == []
  {
  }

  lemma MedianEven(s: seq<real>)
    requires s != [] && |s| % 2 == 0
    ensures |Ascending(s)| == |s| >= 2
    ensures Median(s) == Midpoint(Ascending(s)[|s| / 2 - 1], Ascending(s)[|s| / 2])
  {
    hide Ascending, Midpoint;
  }

  lemma {:induction false} AscendingMap(f: real -> real, s: seq<real>)
    requires Monotone(f)
    ensures Ascending(Map(f, s)) == Map(f, Ascending(s))
  {
    if s != [] {
      AscendingMap(f, s[1..]);
      AscendingIsSorted(s[1..]);
      InsertMap(f, s[0], Ascending(s[1..]));
      assert Map(f, s) == [f(s[0])] + Map(f, s[1..]);
    }
  }

  /** A median of an odd number of values commutes with every monotone function, rounding included. */
  lemma MedianOddMap(f: real -> real, s: seq<real>)
    requires Monotone(f) && |s| % 2 == 1
    ensures Median(Map(f, s)) == f(Median(s))
  {
    AscendingMap(f, s);
  }

  lemma MedianEvenMap(f: real -> real, s: seq<real>)
    requires Monotone(f) && s != [] && |s| % 2 == 0
    ensures Median(Map(f, s)) == Midpoint(f(Ascending(s)[|s| / 2 - 1]), f(Ascending(s)[|s| / 2]))
  {
    hide *;
    AscendingMap(f, s);
    MedianEven(s);
    MapAt(f, s, 0);
    MedianEven(Map(f, s));
    MapAt(f, Ascending(s), |s| / 2 - 1);
    MapAt(f, Ascending(s), |s| / 2);
  }

  /** The change of scale `x` to `a * x + b`. */
  function Affine(a: real, b: real): real -> real {
    (x: real) => a * x + b
  }

  lemma AffineIsMonotone(a: real, b: real)
    requires a > 0.0
    ensures Monotone(Affine(a, b))
  {
    forall x: real, y: real | x <= y
      ensures Affine(a, b)(x) <= Affine(a, b)(y)
    {
      assert a * (y - x) >= 0.0;
    }
  }

  lemma AffineMidpoint(a: real, b: real, lo: real, hi: real)
    ensures Midpoint(Affine(a, b)(lo), Affine(a, b)(hi)) == Affine(a, b)(Midpoint(lo, hi))
  {
    assert a * ((lo + hi) / 2.0) == (a * lo + a * hi) / 2.0;
  }

  /** Any median commutes with a positive affine change of scale. */
  lemma MedianAffine(a: real, b: real, s: seq<real>)
    requires s != [] && a > 0.0
    ensures Median(Map(Affine(a, b), s)) == Affine(a, b)(Median(s))
  {
    hide *;
    AffineIsMonotone(a, b);
    if |s| % 2 == 1 {
      MedianOddMap(Affine(a, b), s);
    } else {
      MedianEven(s);
      MedianEvenMap(Affine(a, b), s);
      AffineMidpoint(a, b, Ascending(s)[|s| / 2 - 1], Ascending(s)[|s| / 2]);
    }
  }

  // ---------------------------------------------------------------------------------------------
  // What a median is, without sorting: positions are counted over a set of keys

  ghost function Below<T>(keys: set<T>, f: T -> real, x: real): set<T> {
    set t | t in keys && f(t) < x
  }

  ghost function UpTo<T>(keys: set<T>, f: T -> real, x: real): set<T> {
    set t | t in keys && f(t) <= x
  }

  ghost function UpFrom<T>(keys: set<T>, f: T -> real, x: real): set<T> {
    set t | t in keys && f(t) >= x
  }

  /** `x` is the value at position `k` when the values of the keys are put in ascending order. */
  ghost predicate RankedAt<T>(keys: set<T>, f: T -> real, k: int, x: real) {
    && (exists t :: t in keys && f(t) == x)
    && |Below(keys, f, x)| <= k < |UpTo(keys, f, x)|
  }

  /** The two middle values, which are one and the same for an odd number of keys. */
  ghost predicate Middles<T>(keys: set<T>, f: T -> real, lo: real, hi: real) {
    RankedAt(keys, f, (|keys| - 1) / 2, lo) && RankedAt(keys, f, |keys| / 2, hi)
  }

  /** `m` is the mean of the two middle values. */
  ghost predicate MedianOf<T>(keys: set<T>, f: T -> real, m: real) {
    exists lo, hi :: Middles(keys, f, lo, hi) && m == (lo + hi) / 2.0
  }

  /** The values of distinct keys, in any order. */
  ghost predicate ValuesOf<T>(values: seq<real>, keys: seq<T>, f: T -> real) {
    && |values| == |keys| && (forall i :: 0 <= i < |keys| ==> values[i] == f(keys[i]))
    && (forall i, j :: 0 <= i < j < |keys| ==> keys[i] != keys[j])
  }

  ghost function SetOf<T>(keys: seq<T>): set<T> {
    set t | t in keys
  }

  lemma SetOfFirst<T>(keys: seq<T>)
    requires keys != []
    ensures SetOf(keys) == {keys[0]} + SetOf(keys[1..])
  {
    assert keys == [keys[0]] + keys[1..];
  }

  lemma ValuesFirst<T>(values: seq<real>, keys: seq<T>, f: T -> real)
    requires ValuesOf(values, keys, f) && keys != []
    ensures ValuesOf(values[1..], keys[1..], f) && keys[0] !in SetOf(keys[1..]) && values[0] == f(keys[0])
  {
  }

  lemma {:induction false} SetOfCount<T>(values: seq<real>, keys: seq<T>, f: T -> real)
    requires ValuesOf(values, keys, f)
    ensures |SetOf(keys)| == |values|
  {
    if keys != [] {
      SetOfFirst(keys);
      ValuesFirst(values, keys, f);
      SetOfCount(values[1..], keys[1..], f);
    }
  }

  lemma UpToMore<T>(rest: set<T>, key: T, f: T -> real, x: real)
    requires key !in rest
    ensures |UpTo({key} + rest, f, x)| == |UpTo(rest, f, x)| + (if f(key) <= x then 1 else 0)
  {
    assert UpTo({key} + rest, f, x) == UpTo(rest, f, x) + (if f(key) <= x then {key} else {});
  }

  lemma BelowMore<T>(rest: set<T>, key: T, f: T -> real, x: real)
    requires key !in rest
    ensures |Below({key} + rest, f, x)| == |Below(rest, f, x)| + (if f(key) < x then 1 else 0)
  {
    assert Below({key} + rest, f, x) == Below(rest, f, x) + (if f(key) < x then {key} else {});
  }

  lemma NoKeys<T>(f: T -> real, x: real)
    ensures SetOf<T>([]) == {} && UpTo({}, f, x) == {} && Below({}, f, x) == {}
  {
  }

  lemma CountsFirst(values: seq<real>, x: real)
    requires values != []
    ensures CountAtMost(values, x) == (if values[0] <= x then 1 else 0) + CountAtMost(values[1..], x)
    ensures CountAtLeast(values, x) == (if values[0] >= x then 1 else 0) + CountAtLeast(values[1..], x)
  {
  }

  lemma CountsNone(x: real)
    ensures CountAtMost([], x) == 0 && CountAtLeast([], x) == 0
  {
  }

  lemma {:induction false} CountUpTo<T>(values: seq<real>, keys: seq<T>, f: T -> real, x: real)
    requires ValuesOf(values, keys, f)
    ensures |UpTo(SetOf(keys), f, x)| == CountAtMost(values, x)
  {
    hide *;
    ValuesLength(values, keys, f);
    if keys == [] {
      NoKeys(f, x);
      CountsNone(x);
    } else {
      SetOfFirst(keys);
      ValuesFirst(values, keys, f);
      CountsFirst(values, x);
      CountUpTo(values[1..], keys[1..], f, x);
      UpToMore(SetOf(keys[1..]), keys[0], f, x);
    }
  }

  lemma {:induction false} CountBelow<T>(values: seq<real>, keys: seq<T>, f: T -> real, x: real)
    requires ValuesOf(values, keys, f)
    ensures |Below(SetOf(keys), f, x)| == |values| - CountAtLeast(values, x)
  {
    hide *;
    ValuesLength(values, keys, f);
    if keys == [] {
      NoKeys(f, x);
      CountsNone(x);
    } else {
      SetOfFirst(keys);
      ValuesFirst(values, keys, f);
      CountsFirst(values, x);
      CountBelow(values[1..], keys[1..], f, x);
      BelowMore(SetOf(keys[1..]), keys[0], f, x);
    }
  }

  lemma SortedMember(values: seq<real>, k: nat)
    requires k < |Ascending(values)|
    ensures Ascending(values)[k] in values
  {
    SortPermutes(values, AtMost);
    SameMembers(Ascending(values), values);
    assert Ascending(values)[k] in Ascending(values);
  }

  lemma RankedSorted<T>(values: seq<real>, keys: seq<T>, f: T -> real, k: nat)
    requires ValuesOf(values, keys, f) && k < |values|
    ensures RankedAt(SetOf(keys), f, k, Ascending(values)[k])
  {
    var ordered := Ascending(values);
    var x := ordered[k];
    SortedMember(values, k);
    var i :| 0 <= i < |values| && values[i] == x;
    assert keys[i] in SetOf(keys) && f(keys[i]) == x;
    AscendingIsSorted(values);
    CountPrefix(ordered, k, x);
    CountSuffix(ordered, k, x);
    CountSorted(values, x);
    CountUpTo(values, keys, f, x);
    CountBelow(values, keys, f, x);
  }

  lemma MedianOdd(s: seq<real>)
    requires |s| % 2 == 1
    ensures |Ascending(s)| == |s| && Median(s) == Ascending(s)[|s| / 2]
  {
    hide Ascending;
  }

  /** The computed median is the median of whatever the values were taken from. */
  lemma MedianIsMiddle<T>(values: seq<real>, keys: seq<T>, f: T -> real)
    requires values != [] && ValuesOf(values, keys, f)
    ensures MedianOf(SetOf(keys), f, Median(values))
  {
    hide *;
    var n := |values|;
    SetOfCount(values, keys, f);
    ValuesLength(values, keys, f);
    RankedSorted(values, keys, f, (n - 1) / 2);
    RankedSorted(values, keys, f, n / 2);
    if n % 2 == 1 {
      MedianOdd(values);
    } else {
      MedianEven(values);
      MidpointIs(Ascending(values)[n / 2 - 1], Ascending(values)[n / 2]);
    }
    IsMedian(SetOf(keys), f, Ascending(values)[(n - 1) / 2], Ascending(values)[n / 2]);
  }

  lemma ValuesLength<T>(values: seq<real>, keys: seq<T>, f: T -> real)
    requires ValuesOf(values, keys, f)
    ensures |values| == |keys|
  {
  }

  lemma MidpointIs(x: real, y: real)
    ensures Midpoint(x, y) == (x + y) / 2.0
  {
  }

  lemma IsMedian<T>(keys: set<T>, f: T -> real, lo: real, hi: real)
    requires RankedAt(keys, f, (|keys| - 1) / 2, lo) && RankedAt(keys, f, |keys| / 2, hi)
    ensures MedianOf(keys, f, (lo + hi) / 2.0)
  {
    hide RankedAt;
    assert Middles(keys, f, lo, hi);
  }

  /** No other value stands at the position: there is one median. */
  lemma RankUnique<T>(keys: set<T>, f: T -> real, k: int, x: real, y: real)
    requires RankedAt(keys, f, k, x) && RankedAt(keys, f, k, y)
    ensures x == y
  {
    if x < y {
      RankOrder(keys, f, x, y);
    } else if y < x {
      RankOrder(keys, f, y, x);
    }
  }

  lemma RankOrder<T>(keys: set<T>, f: T -> real, x: real, y: real)
    requires x < y
    ensures |UpTo(keys, f, x)| <= |Below(keys, f, y)|
  {
    SubsetCount(UpTo(keys, f, x), Below(keys, f, y));
  }

  lemma {:induction false} SubsetCount<T>(a: set<T>, b: set<T>)
    requires a <= b
    ensures |a| <= |b|
    decreases a
  {
    if a != {} {
      var x :| x in a;
      SubsetCount(a - {x}, b - {x});
    }
  }

  lemma MedianUnique<T>(keys: set<T>, f: T -> real, m: real, n: real)
    requires MedianOf(keys, f, m) && MedianOf(keys, f, n)
    ensures m == n
  {
    hide RankedAt;
    var lo, hi :| Middles(keys, f, lo, hi) && m == (lo + hi) / 2.0;
    var low, high :| Middles(keys, f, low, high) && n == (low + high) / 2.0;
    RankUnique(keys, f, (|keys| - 1) / 2, lo, low);
    RankUnique(keys, f, |keys| / 2, hi, high);
  }

  /** At least half of the values lie on either side of their median. */
  lemma MedianHalves<T>(keys: set<T>, f: T -> real, m: real)
    requires MedianOf(keys, f, m)
    ensures 2 * |UpTo(keys, f, m)| >= |keys| && 2 * |UpFrom(keys, f, m)| >= |keys|
  {
    hide RankedAt, UpTo, Below, UpFrom;
    var lo, hi :| Middles(keys, f, lo, hi) && m == (lo + hi) / 2.0;
    RankBetween(keys, f, lo, hi);
    RankSides(keys, f, (|keys| - 1) / 2, lo, m);
    RankSides(keys, f, |keys| / 2, hi, m);
    SidesComplement(keys, f, m);
  }

  lemma SidesComplement<T>(keys: set<T>, f: T -> real, x: real)
    ensures |UpFrom(keys, f, x)| == |keys| - |Below(keys, f, x)|
  {
    assert UpFrom(keys, f, x) == keys - Below(keys, f, x);
  }

  lemma RankBetween<T>(keys: set<T>, f: T -> real, lo: real, hi: real)
    requires RankedAt(keys, f, (|keys| - 1) / 2, lo) && RankedAt(keys, f, |keys| / 2, hi)
    ensures lo <= hi
  {
    if hi < lo {
      RankOrder(keys, f, hi, lo);
    }
  }

  lemma RankSides<T>(keys: set<T>, f: T -> real, k: int, x: real, m: real)
    requires RankedAt(keys, f, k, x)
    ensures x <= m ==> k < |UpTo(keys, f, m)|
    ensures m <= x ==> |Below(keys, f, m)| <= k
  {
    if x <= m {
      SubsetCount(UpTo(keys, f, x), UpTo(keys, f, m));
    }
    if m <= x {
      SubsetCount(Below(keys, f, m), Below(keys, f, x));
    }
  }
}
