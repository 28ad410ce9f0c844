/** Median-absolute-deviation outlier flags (`pipeline/outliers.py`). */
module Outliers {
  import opened Options
  import opened Domain
  import opened Observations
  import opened Medians

  const MINIMUM_GROUP_SIZE := 5
  const MODIFIED_Z_THRESHOLD := 3.5
  const MAD_SCALE := 0.6745

  type GroupKey = (int, AdvanceWindow)

  function Deviation(x: real, center: real): (d: real)
    ensures d >= 0.0
  {
    if x >= center then x - center else center - x
  }

  function Deviations(values: seq<real>, center: real): (r: seq<real>)
    ensures |r| == |values|
  {
    Map((x: real) => Deviation(x, center), values)
  }

  function Mad(values: seq<real>): real
    requires values != []
  {
    Median(Deviations(values, Median(values)))
  }

  /** The modified z-score test, with the degenerate case of a zero deviation. */
  predicate Exceeds(deviation: real, mad: real) {
    if mad == 0.0 then deviation > 0.0 else MAD_SCALE * deviation / mad > MODIFIED_Z_THRESHOLD
  }

  predicate IsOutlier(values: seq<real>, value: real)
    requires values != []
  {
    Exceeds(Deviation(value, Median(values)), Mad(values))
  }

  // ---------------------------------------------------------------------------------------------
  // Breakdown bound

  function CountInliers(values: seq<real>, center: real, mad: real): nat {
    if values == [] then 0
    else (if Exceeds(Deviation(values[0], center), mad) then 0 else 1) + CountInliers(values[1..], center, mad)
  }

  /** A value no further from the centre than the MAD is never an outlier. */
  lemma CloseIsInlier(deviation: real, mad: real)
    requires 0.0 <= deviation <= mad
    ensures !Exceeds(deviation, mad)
  {
    if mad > 0.0 {
      assert MAD_SCALE * deviation <= MAD_SCALE * mad;
      assert MAD_SCALE * deviation / mad <= MAD_SCALE;
    }
  }

  lemma {:induction false} CloseAreInliers(values: seq<real>, center: real, mad: real)
    ensures CountInliers(values, center, mad) >= CountAtMost(Deviations(values, center), mad)
  {
    if values != [] {
      var d := Deviations(values, center);
      assert d[1..] == Deviations(values[1..], center);
      CloseAreInliers(values[1..], center, mad);
      if d[0] <= mad {
        CloseIsInlier(d[0], mad);
      }
    }
  }

  /** At least half of any group is never flagged, however the other values are chosen. */
  lemma BreakdownBound(values: seq<real>)
    requires values != []
    ensures 2 * CountInliers(values, Median(values), Mad(values)) >= |values|
  {
    var center := Median(values);
    MedianSplits(Deviations(values, center));
    CloseAreInliers(values, center, Mad(values));
  }

  // ---------------------------------------------------------------------------------------------
  // Invariance under change of scale

  lemma DeviationScales(x: real, center: real, a: real, b: real)
    requires a > 0.0
    ensures Deviation(Affine(a, b)(x), Affine(a, b)(center)) == Affine(a, 0.0)(Deviation(x, center))
  {
    var gap := x - center;
    assert Affine(a, b)(x) - Affine(a, b)(center) == a * gap;
    if gap >= 0.0 {
      assert a * gap >= 0.0;
    } else {
      assert a * gap < 0.0;
    }
  }

  lemma DeviationsScale(values: seq<real>, center: real, a: real, b: real)
    requires a > 0.0
    ensures Deviations(Map(Affine(a, b), values), Affine(a, b)(center))
         == Map(Affine(a, 0.0), Deviations(values, center))
  {
    hide Deviation, Affine;
    forall i | 0 <= i < |values|
      ensures Deviation(Affine(a, b)(values[i]), Affine(a, b)(center)) == Affine(a, 0.0)(Deviation(values[i], center))
    {
      DeviationScales(values[i], center, a, b);
    }
  }

  lemma ExceedsScales(deviation: real, mad: real, a: real)
    requires a > 0.0 && mad >= 0.0
    ensures Exceeds(Affine(a, 0.0)(deviation), Affine(a, 0.0)(mad)) == Exceeds(deviation, mad)
  {
    if mad == 0.0 {
      assert a * mad == 0.0;
      assert a * deviation > 0.0 <==> deviation > 0.0;
    } else {
      var q := MAD_SCALE * deviation / mad;
      assert a * mad > 0.0;
      assert MAD_SCALE * (a * deviation) == a * (q * mad) == q * (a * mad);
    }
  }

  lemma MadScales(values: seq<real>, a: real, b: real)
    requires values != [] && a > 0.0
    ensures Mad(Map(Affine(a, b), values)) == Affine(a, 0.0)(Mad(values))
  {
    hide Median, Deviations, Affine;
    MedianAffine(a, b, values);
    DeviationsScale(values, Median(values), a, b);
    MedianAffine(a, 0.0, Deviations(values, Median(values)));
  }

  /** Changing currency units or shifting every fare changes no decision. */
  lemma DecisionsAreScaleFree(values: seq<real>, value: real, a: real, b: real)
    requires values != [] && a > 0.0
    ensures IsOutlier(Map(Affine(a, b), values), Affine(a, b)(value)) == IsOutlier(values, value)
  {
    hide Median, Mad, Exceeds, Affine, Deviation;
    MedianAffine(a, b, values);
    MadScales(values, a, b);
    MadNonNegative(values);
    DeviationScales(value, Median(values), a, b);
    ExceedsScales(Deviation(value, Median(values)), Mad(values), a);
  }

  lemma MadNonNegative(values: seq<real>)
    requires values != []
    ensures Mad(values) >= 0.0
  {
    var d := Deviations(values, Median(values));
    var top := Median(d);
    MedianSplits(d);
    if top < 0.0 {
      NoneAtMost(d, top);
    }
  }

  lemma {:induction false} NoneAtMost(s: seq<real>, t: real)
    requires t < 0.0 && forall i :: 0 <= i < |s| ==> s[i] >= 0.0
    ensures CountAtMost(s, t) == 0
  {
    if s != [] {
      NoneAtMost(s[1..], t);
    }
  }

  // ---------------------------------------------------------------------------------------------
  // A pass over a run's observations

  predicate Participates(o: Observation) {
    o.included && o.fare.Some?
  }

  function KeyOf(o: Observation): GroupKey {
    (o.route, o.window)
  }

  /** The fares of one route and window, in row order. */
  function GroupFares(rows: seq<Observation>, key: GroupKey): (r: seq<real>)
    ensures r == [] <==> forall i :: 0 <= i < |rows| ==> !(Participates(rows[i]) && KeyOf(rows[i]) == key)
  {
    if rows == [] then []
    else
      var rest := GroupFares(rows[..|rows| - 1], key);
      var last := rows[|rows| - 1];
      if Participates(last) && KeyOf(last) == key then rest + [last.fare.value as real] else rest
  }

  /** Whether a pass over `rows` newly flags row `i`. */
  predicate Flags(rows: seq<Observation>, i: nat)
    requires i < |rows|
  {
    var o := rows[i];
    && Participates(o)
    && var fares := GroupFares(rows, KeyOf(o));
    && |fares| >= MINIMUM_GROUP_SIZE
    && IsOutlier(fares, o.fare.value as real)
    && POSSIBLE_OUTLIER !in o.flags
  }

  function Marked(o: Observation): Observation {
    o.(flags := o.flags + [POSSIBLE_OUTLIER], status := ELIGIBLE_FLAGGED, score := Penalised(o.score, 5))
  }

  function AfterPass(rows: seq<Observation>): (r: seq<Observation>)
    ensures |r| == |rows|
  {
    seq(|rows|, i requires 0 <= i < |rows| => if Flags(rows, i) then Marked(rows[i]) else rows[i])
  }

  function FlaggedRows(rows: seq<Observation>): set<nat> {
    set i: nat | i < |rows| && Flags(rows, i)
  }

  /** Equal in everything that decides membership of a group. */
  predicate SameFare(o: Observation, p: Observation) {
    o.included == p.included && o.fare == p.fare && KeyOf(o) == KeyOf(p)
  }

  lemma {:induction false} GroupFaresUnchanged(rows: seq<Observation>, next: seq<Observation>, key: GroupKey)
    requires |rows| == |next|
    requires forall i :: 0 <= i < |rows| ==> SameFare(next[i], rows[i])
    ensures GroupFares(next, key) == GroupFares(rows, key)
  {
    if rows != [] {
      GroupFaresUnchanged(rows[..|rows| - 1], next[..|rows| - 1], key);
    }
  }

  /** A second pass over the same included rows flags nothing, and no pass changes inclusion. */
  lemma SecondPassIsIdle(rows: seq<Observation>)
    ensures FlaggedRows(AfterPass(rows)) == {}
    ensures AfterPass(AfterPass(rows)) == AfterPass(rows)
    ensures forall i :: 0 <= i < |rows| ==> SameFare(AfterPass(rows)[i], rows[i])
  {
    var next := AfterPass(rows);
    forall i: nat | i < |rows|
      ensures !Flags(next, i)
    {
      GroupFaresUnchanged(rows, next, KeyOf(rows[i]));
    }
  }

  /** The rows of one group, among the first `upTo`, that do not carry the flag. */
  function CountUnflagged(rows: seq<Observation>, key: GroupKey, upTo: nat): nat
    requires upTo <= |rows|
  {
    if upTo == 0 then 0
    else
      var o := rows[upTo - 1];
      (if Participates(o) && KeyOf(o) == key && POSSIBLE_OUTLIER !in o.flags then 1 else 0)
      + CountUnflagged(rows, key, upTo - 1)
  }

  lemma {:induction false} CountInliersAppend(values: seq<real>, x: real, center: real, mad: real)
    ensures CountInliers(values + [x], center, mad)
         == CountInliers(values, center, mad) + (if Exceeds(Deviation(x, center), mad) then 0 else 1)
  {
    if values == [] {
      assert values + [x] == [x];
    } else {
      assert (values + [x])[1..] == values[1..] + [x];
      CountInliersAppend(values[1..], x, center, mad);
    }
  }

  /** No row carries the flag yet. */
  ghost predicate NoneFlagged(rows: seq<Observation>) {
    forall i :: 0 <= i < |rows| ==> POSSIBLE_OUTLIER !in rows[i].flags
  }

  lemma UnflaggedRow(rows: seq<Observation>, key: GroupKey, i: nat)
    requires i < |rows| && NoneFlagged(rows)
    ensures var o, p, fares := rows[i], AfterPass(rows)[i], GroupFares(rows, key);
            && (Participates(p) <==> Participates(o)) && KeyOf(p) == KeyOf(o)
            && (Participates(o) && KeyOf(o) == key && fares != []
                && !Exceeds(Deviation(o.fare.value as real, Median(fares)), Mad(fares)) ==>
                POSSIBLE_OUTLIER !in p.flags)
  {
    hide GroupFares, Median, Mad, Exceeds, Deviation;
  }

  lemma CountUnflaggedStep(rows: seq<Observation>, key: GroupKey, upTo: nat)
    requires 0 < upTo <= |rows|
    ensures var o := rows[upTo - 1];
            CountUnflagged(rows, key, upTo)
              == CountUnflagged(rows, key, upTo - 1)
                 + if Participates(o) && KeyOf(o) == key && POSSIBLE_OUTLIER !in o.flags then 1 else 0
  {
    hide Participates, KeyOf;
  }

  lemma GroupFaresStep(rows: seq<Observation>, key: GroupKey, upTo: nat)
    requires 0 < upTo <= |rows|
    ensures var o, before := rows[upTo - 1], GroupFares(rows[..upTo - 1], key);
            GroupFares(rows[..upTo], key)
              == if Participates(o) && KeyOf(o) == key then before + [o.fare.value as real] else before
  {
    assert rows[..upTo][..upTo - 1] == rows[..upTo - 1];
    hide KeyOf;
  }

  lemma {:induction false} UnflaggedCoverInliers(rows: seq<Observation>, key: GroupKey, upTo: nat)
    requires upTo <= |rows| && GroupFares(rows, key) != [] && NoneFlagged(rows)
    ensures var all := GroupFares(rows, key);
            CountUnflagged(AfterPass(rows), key, upTo)
              >= CountInliers(GroupFares(rows[..upTo], key), Median(all), Mad(all))
  {
    hide *;
    var all := GroupFares(rows, key);
    if upTo == 0 {
      NoInliersYet(rows, key, Median(all), Mad(all));
    } else {
      UnflaggedCoverInliers(rows, key, upTo - 1);
      UnflaggedRow(rows, key, upTo - 1);
      CountUnflaggedStep(AfterPass(rows), key, upTo);
      GroupFaresStep(rows, key, upTo);
      var o := rows[upTo - 1];
      if Participates(o) && KeyOf(o) == key {
        HasFare(o);
        CountInliersAppend(GroupFares(rows[..upTo - 1], key), o.fare.value as real, Median(all), Mad(all));
      }
    }
  }

  lemma NoInliersYet(rows: seq<Observation>, key: GroupKey, center: real, mad: real)
    ensures CountInliers(GroupFares(rows[..0], key), center, mad) == 0
  {
  }

  lemma HasFare(o: Observation)
    requires Participates(o)
    ensures o.fare.Some?
  {
  }

  /** In every group of a table without flags, at least half of the participating fares come out of a
      pass without one. */
  lemma GroupBreakdownBound(rows: seq<Observation>, key: GroupKey)
    requires NoneFlagged(rows)
    ensures 2 * CountUnflagged(AfterPass(rows), key, |rows|) >= |GroupFares(rows, key)|
  {
    if GroupFares(rows, key) != [] {
      assert rows[..|rows|] == rows;
      UnflaggedCoverInliers(rows, key, |rows|);
      BreakdownBound(GroupFares(rows, key));
    }
  }

  // ---------------------------------------------------------------------------------------------
  // The pass itself

  predicate InGroup(rows: seq<Observation>, m: nat, key: GroupKey)
    requires m < |rows|
  {
    Participates(rows[m]) && KeyOf(rows[m]) == key
  }

  /** Participating row numbers of one group among the first `upTo` rows, in row order. */
  function Members(rows: seq<Observation>, key: GroupKey, upTo: nat): (r: seq<nat>)
    requires upTo <= |rows|
    ensures forall m: nat :: m in r <==> m < upTo && InGroup(rows, m, key)
    ensures forall a, b :: 0 <= a < b < |r| ==> r[a] < r[b] < upTo
  {
    if upTo == 0 then []
    else
      var rest := Members(rows, key, upTo - 1);
      assert forall a :: 0 <= a < |rest| ==> rest[a] in rest;
      if InGroup(rows, upTo - 1, key) then rest + [upTo - 1] else rest
  }

  lemma {:induction false} MembersCarryFares(rows: seq<Observation>, key: GroupKey, upTo: nat)
    requires upTo <= |rows|
    ensures |Members(rows, key, upTo)| == |GroupFares(rows[..upTo], key)|
    ensures forall k :: 0 <= k < |Members(rows, key, upTo)| ==>
      var m := Members(rows, key, upTo)[k];
      m < |rows| && rows[m].fare.Some? && GroupFares(rows[..upTo], key)[k] == rows[m].fare.value as real
  {
    if upTo > 0 {
      MembersCarryFares(rows, key, upTo - 1);
      assert rows[..upTo][..upTo - 1] == rows[..upTo - 1];
    }
  }

  // ---------------------------------------------------------------------------------------------
  // Which rows a pass flags, said of the table alone

  /** The rows that share row `i`'s route and window and take part with a fare. */
  ghost function Peers(rows: seq<Observation>, i: nat): set<nat>
    requires i < |rows|
  {
    set j: nat | j < |rows| && rows[j].included && rows[j].fare.Some?
                 && rows[j].route == rows[i].route && rows[j].window == rows[i].window
  }

  ghost function FareAt(rows: seq<Observation>): nat -> real {
    (j: nat) => if j < |rows| && rows[j].fare.Some? then rows[j].fare.value as real else 0.0
  }

  ghost function GapAt(rows: seq<Observation>, center: real): nat -> real {
    (j: nat) => if FareAt(rows)(j) < center then center - FareAt(rows)(j) else FareAt(rows)(j) - center
  }

  /** Further from the centre than 3.5 / 0.6745 spreads, or anywhere else when there is no spread. */
  ghost predicate FarFrom(x: real, center: real, spread: real) {
    if spread == 0.0 then x != center
    else 6745.0 * (x - center) > 35000.0 * spread || 6745.0 * (center - x) > 35000.0 * spread
  }

  /** `center` is the median fare of row `i`'s group and `spread` the median distance from it. */
  ghost predicate Centred(rows: seq<Observation>, i: nat, center: real, spread: real)
    requires i < |rows|
  {
    && MedianOf(Peers(rows, i), FareAt(rows), center)
    && MedianOf(Peers(rows, i), GapAt(rows, center), spread)
  }

  /** Row `i` takes part in a group of at least five and lies far from the others. */
  ghost predicate Outlying(rows: seq<Observation>, i: nat)
    requires i < |rows|
  {
    && i in Peers(rows, i) && |Peers(rows, i)| >= 5
    && exists center, spread :: Centred(rows, i, center, spread) && FarFrom(FareAt(rows)(i), center, spread)
  }

  /** A pass gives the flag to exactly the outlying rows that do not have it, and costs them five points;
      it leaves every other row alone. */
  ghost predicate FlagsOutlying(rows: seq<Observation>, next: seq<Observation>) {
    && |next| == |rows|
    && forall i: nat :: i < |rows| ==>
         if Outlying(rows, i) && POSSIBLE_OUTLIER !in rows[i].flags then
           next[i] == rows[i].(flags := rows[i].flags + [POSSIBLE_OUTLIER], status := ELIGIBLE_FLAGGED,
                               score := FivePointsLess(rows[i].score))
         else next[i] == rows[i]
  }

  /** A missing score, or a zero one, counts as 100. */
  ghost function FivePointsLess(score: Option<int>): Option<int> {
    if score.None? || score.value == 0 then Some(95) else if score.value < 5 then Some(0) else Some(score.value - 5)
  }

  lemma ExceedsMeansFar(x: real, center: real, mad: real)
    requires mad >= 0.0
    ensures Exceeds(Deviation(x, center), mad) <==> FarFrom(x, center, mad)
  {
    if mad > 0.0 {
      var d := Deviation(x, center);
      assert MAD_SCALE * d / mad > MODIFIED_Z_THRESHOLD <==> MAD_SCALE * d > MODIFIED_Z_THRESHOLD * mad by {
        QuotientAbove(MAD_SCALE * d, mad, MODIFIED_Z_THRESHOLD);
      }
    }
  }

  lemma QuotientAbove(x: real, y: real, t: real)
    requires y > 0.0
    ensures x / y > t <==> x > t * y
  {
    var q := x / y;
    assert q * y == x;
    if q > t {
      assert (q - t) * y > 0.0;
    } else {
      assert (t - q) * y >= 0.0;
    }
  }

  lemma PeersAreMembers(rows: seq<Observation>, i: nat)
    requires i < |rows|
    ensures var members, fares := Members(rows, KeyOf(rows[i]), |rows|), GroupFares(rows, KeyOf(rows[i]));
            && SetOf(members) == Peers(rows, i)
            && ValuesOf(fares, members, FareAt(rows))
  {
    var key := KeyOf(rows[i]);
    hide *;
    PeersByNumber(rows, i);
    MembersOrdered(rows, key);
    SetOfMembers(Members(rows, key, |rows|), Peers(rows, i));
  }

  lemma PeersByNumber(rows: seq<Observation>, i: nat)
    requires i < |rows|
    ensures forall j: nat :: j in Members(rows, KeyOf(rows[i]), |rows|) <==> j in Peers(rows, i)
  {
    var key := KeyOf(rows[i]);
    assert forall j: nat :: j in Members(rows, key, |rows|) <==> j < |rows| && InGroup(rows, j, key);
    hide Members;
  }

  lemma SetOfMembers(members: seq<nat>, peers: set<nat>)
    requires forall j: nat :: j in members <==> j in peers
    ensures SetOf(members) == peers
  {
    assert forall j: nat :: j in SetOf(members) <==> j in peers;
  }

  lemma MembersOrdered(rows: seq<Observation>, key: GroupKey)
    ensures ValuesOf(GroupFares(rows, key), Members(rows, key, |rows|), FareAt(rows))
  {
    MembersCarryFares(rows, key, |rows|);
    assert rows[..|rows|] == rows;
    var members := Members(rows, key, |rows|);
    assert forall a, b :: 0 <= a < b < |members| ==> members[a] < members[b];
    hide Members, GroupFares;
  }

  lemma DeviationsAreGaps(rows: seq<Observation>, members: seq<nat>, fares: seq<real>, center: real)
    requires ValuesOf(fares, members, FareAt(rows))
    ensures ValuesOf(Deviations(fares, center), members, GapAt(rows, center))
  {
    hide FareAt;
  }

  /** The centre and spread a pass computes are the group's. */
  lemma GroupCentred(rows: seq<Observation>, i: nat)
    requires i < |rows| && GroupFares(rows, KeyOf(rows[i])) != []
    ensures var fares := GroupFares(rows, KeyOf(rows[i]));
            && |fares| == |Peers(rows, i)|
            && Centred(rows, i, Median(fares), Mad(fares))
  {
    var key := KeyOf(rows[i]);
    var members, fares := Members(rows, key, |rows|), GroupFares(rows, key);
    PeersAreMembers(rows, i);
    MadIs(fares);
    hide *;
    var center := Median(fares);
    SetOfCount(fares, members, FareAt(rows));
    MedianIsMiddle(fares, members, FareAt(rows));
    DeviationsAreGaps(rows, members, fares, center);
    MedianIsMiddle(Deviations(fares, center), members, GapAt(rows, center));
    CentredIs(rows, i, center, Mad(fares));
  }

  lemma MadIs(values: seq<real>)
    requires values != []
    ensures Deviations(values, Median(values)) != []
    ensures Mad(values) == Median(Deviations(values, Median(values)))
  {
    hide Median, Deviations;
  }

  lemma CentredIs(rows: seq<Observation>, i: nat, center: real, spread: real)
    requires i < |rows|
    requires MedianOf(Peers(rows, i), FareAt(rows), center) && MedianOf(Peers(rows, i), GapAt(rows, center), spread)
    ensures Centred(rows, i, center, spread)
  {
    hide MedianOf, Peers, FareAt, GapAt;
  }

  lemma OneCentre(rows: seq<Observation>, i: nat, center: real, spread: real, other: real, width: real)
    requires i < |rows| && Centred(rows, i, center, spread) && Centred(rows, i, other, width)
    ensures center == other && spread == width
  {
    hide MedianOf, Peers, FareAt, GapAt;
    MedianUnique(Peers(rows, i), FareAt(rows), center, other);
    MedianUnique(Peers(rows, i), GapAt(rows, center), spread, width);
  }

  /** A participating row is outlying exactly when its group has five rows and it lies far from them. */
  lemma OutlyingMeans(rows: seq<Observation>, i: nat, center: real, spread: real)
    requires i < |rows| && i in Peers(rows, i) && Centred(rows, i, center, spread)
    ensures Outlying(rows, i) <==> |Peers(rows, i)| >= 5 && FarFrom(FareAt(rows)(i), center, spread)
  {
    hide Centred, Peers, FareAt, FarFrom;
    if Outlying(rows, i) {
      var other, width :| Centred(rows, i, other, width) && FarFrom(FareAt(rows)(i), other, width);
      OneCentre(rows, i, center, spread, other, width);
    }
  }

  lemma FlagsMeans(rows: seq<Observation>, i: nat)
    requires i < |rows|
    ensures var o, fares := rows[i], GroupFares(rows, KeyOf(rows[i]));
            Flags(rows, i) <==>
              && Participates(o) && fares != [] && |fares| >= 5 && POSSIBLE_OUTLIER !in o.flags
              && Exceeds(Deviation(o.fare.value as real, Median(fares)), Mad(fares))
    ensures Participates(rows[i]) <==> i in Peers(rows, i)
    ensures Participates(rows[i]) ==> rows[i].fare.Some? && FareAt(rows)(i) == rows[i].fare.value as real
    ensures Participates(rows[i]) ==> GroupFares(rows, KeyOf(rows[i])) != []
  {
    hide Median, Mad, Exceeds, Deviation;
  }

  lemma FlagsExactly(rows: seq<Observation>, i: nat)
    requires i < |rows|
    ensures Flags(rows, i) <==> Outlying(rows, i) && POSSIBLE_OUTLIER !in rows[i].flags
  {
    var fares := GroupFares(rows, KeyOf(rows[i]));
    FlagsMeans(rows, i);
    OutlyingTakesPart(rows, i);
    hide *;
    if i in Peers(rows, i) {
      var x := rows[i].fare.value as real;
      GroupCentred(rows, i);
      MadNonNegative(fares);
      ExceedsMeansFar(x, Median(fares), Mad(fares));
      OutlyingMeans(rows, i, Median(fares), Mad(fares));
    }
  }

  lemma OutlyingTakesPart(rows: seq<Observation>, i: nat)
    requires i < |rows|
    ensures Outlying(rows, i) ==> i in Peers(rows, i)
  {
    hide Peers, Centred, FarFrom;
  }

  lemma MarkedIs(o: Observation)
    ensures Marked(o) == o.(flags := o.flags + [POSSIBLE_OUTLIER], status := ELIGIBLE_FLAGGED,
                            score := FivePointsLess(o.score))
  {
  }

  /** A pass flags exactly the rows of groups of at least five whose fare lies further from the group's
      median than 35000/6745 times the median distance from it, or off the median when that distance is
      zero, and that were not flagged before. */
  lemma PassFlagsOutlying(rows: seq<Observation>)
    ensures FlagsOutlying(rows, AfterPass(rows))
    ensures forall i: nat :: i in FlaggedRows(rows) <==>
                             i < |rows| && Outlying(rows, i) && POSSIBLE_OUTLIER !in rows[i].flags
  {
    hide Flags, Outlying, Marked, FivePointsLess;
    forall i: nat | i < |rows|
      ensures Flags(rows, i) <==> Outlying(rows, i) && POSSIBLE_OUTLIER !in rows[i].flags
      ensures AfterPass(rows)[i]
              == if Outlying(rows, i) && POSSIBLE_OUTLIER !in rows[i].flags then
                   rows[i].(flags := rows[i].flags + [POSSIBLE_OUTLIER], status := ELIGIBLE_FLAGGED,
                            score := FivePointsLess(rows[i].score))
                 else rows[i]
    {
      FlagsExactly(rows, i);
      MarkedIs(rows[i]);
    }
  }

  /** The decision about one observation, given its group's centre and MAD. */
  predicate Selects(center: real, mad: real, o: Observation)
    requires o.fare.Some?
  {
    Exceeds(Deviation(o.fare.value as real, center), mad) && POSSIBLE_OUTLIER !in o.flags
  }

  /** `next` is `rows` with exactly the rows in `hits` marked. */
  ghost predicate Marks(rows: seq<Observation>, next: seq<Observation>, hits: set<nat>) {
    && |next| == |rows|
    && forall m: nat :: m < |rows| ==> next[m] == if m in hits then Marked(rows[m]) else rows[m]
  }

  /** The rows a pass flags in the given groups. */
  ghost function HitsIn(rows: seq<Observation>, keys: set<GroupKey>): set<nat> {
    set m | m in FlaggedRows(rows) && KeyOf(rows[m]) in keys
  }

  lemma HitsSplit(rows: seq<Observation>, keys: set<GroupKey>, key: GroupKey)
    requires key !in keys
    ensures HitsIn(rows, keys) !! HitsIn(rows, {key})
    ensures HitsIn(rows, keys + {key}) == HitsIn(rows, keys) + HitsIn(rows, {key})
    ensures |HitsIn(rows, keys + {key})| == |HitsIn(rows, keys)| + |HitsIn(rows, {key})|
  {
    assert HitsIn(rows, keys) !! HitsIn(rows, {key});
  }

  /** Marking the rows of one more group leaves the earlier marks in place. */
  lemma MarksCompose(rows: seq<Observation>, mid: seq<Observation>, next: seq<Observation>,
                     first: set<nat>, second: set<nat>)
    requires first !! second && Marks(rows, mid, first) && Marks(mid, next, second)
    ensures Marks(rows, next, first + second)
  {
    hide Marked;
  }

  lemma OutsideUnmarked(rows: seq<Observation>, next: seq<Observation>, keys: set<GroupKey>, key: GroupKey)
    requires key !in keys && Marks(rows, next, HitsIn(rows, keys))
    ensures |next| == |rows|
    ensures forall m: nat :: m < |rows| && KeyOf(rows[m]) == key ==> next[m] == rows[m]
  {
  }

  lemma NoHitsYet(rows: seq<Observation>)
    ensures HitsIn(rows, {}) == {} && Marks(rows, rows, HitsIn(rows, {}))
  {
  }

  /** The rows of a group that a whole pass flags are the ones the group's own fares select. */
  lemma GroupDecisions(rows: seq<Observation>, key: GroupKey)
    ensures var members, fares := Members(rows, key, |rows|), GroupFares(rows, key);
            && |fares| == |members|
            && (forall k :: 0 <= k < |members| ==>
                  && members[k] < |rows| && rows[members[k]].fare.Some? && KeyOf(rows[members[k]]) == key
                  && fares[k] == rows[members[k]].fare.value as real
                  && (members[k] in HitsIn(rows, {key}) <==>
                        && |fares| >= MINIMUM_GROUP_SIZE
                        && FarFrom(rows[members[k]].fare.value as real, Median(fares), Mad(fares))
                        && POSSIBLE_OUTLIER !in rows[members[k]].flags))
            && (forall m :: m in HitsIn(rows, {key}) ==> m in members)
  {
    MembersCarryFares(rows, key, |rows|);
    assert rows[..|rows|] == rows;
    var members, fares := Members(rows, key, |rows|), GroupFares(rows, key);
    if fares != [] {
      MadNonNegative(fares);
    }
    hide Members, GroupFares, Exceeds, Deviation, Median, Mad, FarFrom;
    forall k | 0 <= k < |members|
      ensures InGroup(rows, members[k], key)
      ensures fares != [] ==>
                (Exceeds(Deviation(rows[members[k]].fare.value as real, Median(fares)), Mad(fares)) <==>
                 FarFrom(rows[members[k]].fare.value as real, Median(fares), Mad(fares)))
    {
      assert members[k] in members;
      if fares != [] {
        ExceedsMeansFar(rows[members[k]].fare.value as real, Median(fares), Mad(fares));
      }
    }
  }

  /** The dictionary holds exactly the non-empty groups of the first `upTo` rows. */
  ghost predicate Grouped(rows: seq<Observation>, groups: map<GroupKey, seq<nat>>, upTo: nat)
    requires upTo <= |rows|
  {
    forall k :: if k in groups then groups[k] == Members(rows, k, upTo) != [] else Members(rows, k, upTo) == []
  }

  lemma GroupedNone(rows: seq<Observation>)
    ensures Grouped(rows, map[], 0)
  {
  }

  lemma GroupedSkip(rows: seq<Observation>, groups: map<GroupKey, seq<nat>>, i: nat)
    requires i < |rows| && Grouped(rows, groups, i) && !Participates(rows[i])
    ensures Grouped(rows, groups, i + 1)
  {
    hide Participates;
  }

  lemma GroupedStep(rows: seq<Observation>, groups: map<GroupKey, seq<nat>>, i: nat)
    requires i < |rows| && Grouped(rows, groups, i) && Participates(rows[i])
    ensures var key := KeyOf(rows[i]);
            Grouped(rows, groups[key := if key in groups then groups[key] + [i] else [i]], i + 1)
  {
    var key := KeyOf(rows[i]);
    var next := groups[key := if key in groups then groups[key] + [i] else [i]];
    forall k
      ensures if k in next then next[k] == Members(rows, k, i + 1) != [] else Members(rows, k, i + 1) == []
    {
      assert if k in groups then groups[k] == Members(rows, k, i) != [] else Members(rows, k, i) == [];
    }
    hide Participates;
  }

  lemma GroupedAt(rows: seq<Observation>, groups: map<GroupKey, seq<nat>>, key: GroupKey)
    requires Grouped(rows, groups, |rows|) && key in groups
    ensures groups[key] == Members(rows, key, |rows|) != []
  {
  }

  class ObservationTable {
    var rows: seq<Observation>

    constructor (rows: seq<Observation>)
      ensures this.rows == rows
    {
      this.rows := rows;
    }

    /** `groups[(job.route_id, observation.advance_window)].append(observation)`, in row order. */
    method GroupRows() returns (groups: map<GroupKey, seq<nat>>, order: seq<GroupKey>)
      ensures Grouped(rows, groups, |rows|)
      ensures forall k :: k in groups <==> k in order
      ensures forall a, b :: 0 <= a < b < |order| ==> order[a] != order[b]
    {
      hide Grouped, Participates, KeyOf;
      GroupedNone(rows);
      groups, order := map[], [];
      for i := 0 to |rows|
        invariant Grouped(rows, groups, i)
        invariant forall k :: k in groups <==> k in order
        invariant forall a, b :: 0 <= a < b < |order| ==> order[a] != order[b]
      {
        if Participates(rows[i]) {
          GroupedStep(rows, groups, i);
          var key := KeyOf(rows[i]);
          if key !in groups {
            order := order + [key];
            groups := groups[key := [i]];
          } else {
            groups := groups[key := groups[key] + [i]];
          }
        } else {
          GroupedSkip(rows, groups, i);
        }
      }
    }

    /** The fares of a group's rows, read from the table. */
    method GroupValues(members: seq<nat>) returns (values: seq<real>)
      requires forall k :: 0 <= k < |members| ==> members[k] < |rows| && rows[members[k]].fare.Some?
      ensures |values| == |members|
      ensures forall k :: 0 <= k < |members| ==> values[k] == rows[members[k]].fare.value as real
    {
      values := [];
      for k := 0 to |members|
        invariant |values| == k
        invariant forall j :: 0 <= j < k ==> values[j] == rows[members[j]].fare.value as real
      {
        values := values + [rows[members[k]].fare.value as real];
      }
    }

    /** The inner loop: flags in place the members whose deviation exceeds the threshold. */
    method FlagMembers(members: seq<nat>, center: real, mad: real, ghost hits: set<nat>) returns (flagged: nat)
      requires forall j, k :: 0 <= j < k < |members| ==> members[j] < members[k]
      requires forall k :: 0 <= k < |members| ==> members[k] < |rows| && rows[members[k]].fare.Some?
      requires forall m :: m in hits ==> m in members
      requires mad >= 0.0
      requires forall k :: 0 <= k < |members| ==>
                 (members[k] in hits <==>
                   && FarFrom(rows[members[k]].fare.value as real, center, mad)
                   && POSSIBLE_OUTLIER !in rows[members[k]].flags)
      modifies this
      ensures Marks(old(rows), rows, hits)
      ensures flagged == |hits|
    {
      hide Exceeds, FarFrom, Deviation;
      flagged := 0;
      ghost var done: set<nat> := {};
      for k := 0 to |members|
        invariant Marks(old(rows), rows, done)
        invariant done <= hits && flagged == |done|
        invariant forall j :: 0 <= j < k && members[j] in hits ==> members[j] in done
        invariant forall j :: k <= j < |members| ==> members[j] !in done
      {
        var m := members[k];
        ExceedsMeansFar(rows[m].fare.value as real, center, mad);
        if Selects(center, mad, rows[m]) {
          rows := rows[m := Marked(rows[m])];
          flagged := flagged + 1;
          done := done + {m};
        }
      }
      assert done == hits;
    }

    /** One group: too small to judge, or judged against its own median and MAD. */
    method FlagGroup(ghost before: seq<Observation>, ghost key: GroupKey, members: seq<nat>) returns (flagged: nat)
      requires |rows| == |before| && members == Members(before, key, |before|) && members != []
      requires forall m: nat :: m < |rows| && KeyOf(before[m]) == key ==> rows[m] == before[m]
      modifies this
      ensures Marks(old(rows), rows, HitsIn(before, {key})) && |rows| == |before|
      ensures flagged == |HitsIn(before, {key})|
    {
      GroupDecisions(before, key);
      if |members| < MINIMUM_GROUP_SIZE {
        assert HitsIn(before, {key}) == {};
        return 0;
      }
      var values := GroupValues(members);
      assert values == GroupFares(before, key);
      var center := Median(values);
      var mad := Median(Deviations(values, center));
      MadNonNegative(values);
      MadIs(values);
      hide *;
      flagged := FlagMembers(members, center, mad, HitsIn(before, {key}));
    }

    /** Flags every group in turn. */
    method FlagGroups(groups: map<GroupKey, seq<nat>>, order: seq<GroupKey>) returns (flagged: nat)
      requires forall k :: k in order <==> k in groups
      requires Grouped(rows, groups, |rows|)
      requires forall a, b :: 0 <= a < b < |order| ==> order[a] != order[b]
      modifies this
      ensures Marks(old(rows), rows, HitsIn(old(rows), set k | k in order))
      ensures flagged == |HitsIn(old(rows), set k | k in order)|
    {
      ghost var before := rows;
      hide *;
      NoHitsYet(before);
      flagged := 0;
      ghost var keys: set<GroupKey> := {};
      for g := 0 to |order|
        invariant Marks(before, rows, HitsIn(before, keys)) && flagged == |HitsIn(before, keys)|
        invariant |rows| == |before|
        invariant keys == set a | 0 <= a < g :: order[a]
      {
        var key := order[g];
        assert key !in keys;
        HitsSplit(before, keys, key);
        OutsideUnmarked(before, rows, keys, key);
        GroupedAt(before, groups, key);
        ghost var mid := rows;
        var more := FlagGroup(before, key, groups[key]);
        MarksCompose(before, mid, rows, HitsIn(before, keys), HitsIn(before, {key}));
        flagged := flagged + more;
        keys := keys + {key};
      }
      assert keys == set k | k in order;
    }

    /** `flag_statistical_outliers`: returns how many observations it newly flagged. */
    method FlagStatisticalOutliers() returns (flagged: nat)
      modifies this
      ensures rows == AfterPass(old(rows)) && FlagsOutlying(old(rows), rows)
      ensures flagged == |FlaggedRows(old(rows))|
    {
      hide *;
      ghost var before := rows;
      PassFlagsOutlying(before);
      var groups, order := GroupRows();
      FlaggedAreGrouped(before, groups, set k | k in order);
      flagged := FlagGroups(groups, order);
      MarksArePass(before, rows);
    }
  }

  /** Every flagged row is in some group. */
  lemma FlaggedAreGrouped(rows: seq<Observation>, groups: map<GroupKey, seq<nat>>, keys: set<GroupKey>)
    requires Grouped(rows, groups, |rows|) && forall k :: k in groups <==> k in keys
    ensures HitsIn(rows, keys) == FlaggedRows(rows)
  {
    forall m: nat | m in FlaggedRows(rows)
      ensures KeyOf(rows[m]) in keys
    {
      assert m in Members(rows, KeyOf(rows[m]), |rows|);
    }
    hide Members, Flags, Grouped;
  }

  lemma MarksArePass(rows: seq<Observation>, next: seq<Observation>)
    requires Marks(rows, next, FlaggedRows(rows))
    ensures next == AfterPass(rows)
  {
    hide Flags, Marked;
  }
}
