/** The fixed-weight index calculation (`indexing/methodology.py`, `weights.py`, `price_relative.py`). */
module Methodology {
  import opened Aggregates
  import opened Options
  import opened Sorting

  datatype Input = Input(id: int, current: Option<real>, base: Option<real>, weight: real)

  datatype Reason = AVAILABLE | MISSING_CURRENT_PRICE | MISSING_BASE_PRICE

  datatype Component = Component(
    input: Input,
    relative: Option<real>,
    effective: Option<real>,
    contribution: Option<real>,
    reason: Reason)

  datatype PublicationStatus = PUBLISHED | INSUFFICIENT_COVERAGE | PROVISIONAL_BASE | FAILED

  datatype IndexResult = IndexResult(
    value: Option<real>,
    coverage: real,
    status: PublicationStatus,
    components: seq<Component>)

  datatype IndexError =
    | MinimumOutOfRange | NoWeights | WeightNotPositive
    | AvailableWeightOutOfRange | CurrentNotPositive | BaseNotPositive

  // ---------------------------------------------------------------------------------------------
  // The guarded arithmetic helpers

  function PriceRelative(current: real, base: real): Result<real, IndexError> {
    if current <= 0.0 then Err(CurrentNotPositive)
    else if base <= 0.0 then Err(BaseNotPositive)
    else Ok(100.0 * current / base)
  }

  function TotalWeight(s: seq<Input>): real {
    if s == [] then 0.0 else TotalWeight(s[..|s| - 1]) + s[|s| - 1].weight
  }

  function ValidateWeights(s: seq<Input>): Result<real, IndexError> {
    if s == [] then Err(NoWeights)
    else if exists i :: 0 <= i < |s| && s[i].weight <= 0.0 then Err(WeightNotPositive)
    else Ok(TotalWeight(s))
  }

  function CoveragePercent(available: real, total: real): Result<real, IndexError>
    requires total != 0.0
  {
    if available < 0.0 || available > total then Err(AvailableWeightOutOfRange)
    else Ok(100.0 * available / total)
  }

  function AvailabilityReason(i: Input): Reason {
    if i.current.None? || i.current.value <= 0.0 then MISSING_CURRENT_PRICE
    else if i.base.None? || i.base.value <= 0.0 then MISSING_BASE_PRICE
    else AVAILABLE
  }

  // ---------------------------------------------------------------------------------------------
  // Reference definitions

  predicate Available(i: Input) {
    i.current.Some? && i.current.value > 0.0 && i.base.Some? && i.base.value > 0.0
  }

  predicate PositiveWeights(s: seq<Input>) {
    forall i :: 0 <= i < |s| ==> s[i].weight > 0.0
  }

  function Relative(i: Input): (r: real)
    requires Available(i)
    ensures r > 0.0
  {
    100.0 * i.current.value / i.base.value
  }

  /** An available item never trips a guard of `price_relative`. */
  lemma AvailableNeverRaises(i: Input)
    ensures Available(i) <==> AvailabilityReason(i) == AVAILABLE
    ensures Available(i) ==> PriceRelative(i.current.value, i.base.value) == Ok(Relative(i))
  {
  }

  function AvailableWeight(s: seq<Input>): real {
    if s == [] then 0.0
    else AvailableWeight(s[..|s| - 1]) + (if Available(s[|s| - 1]) then s[|s| - 1].weight else 0.0)
  }

  function Term(i: Input): real {
    if Available(i) then i.weight * Relative(i) else 0.0
  }

  /** The numerator of the published formula: the sum of weight times relative. */
  function WeightedRelatives(s: seq<Input>): real {
    if s == [] then 0.0 else WeightedRelatives(s[..|s| - 1]) + Term(s[|s| - 1])
  }

  function CountAvailable(s: seq<Input>): nat {
    if s == [] then 0 else CountAvailable(s[..|s| - 1]) + (if Available(s[|s| - 1]) then 1 else 0)
  }

  function Contribution(effective: real, relative: real): real {
    effective * relative
  }

  /** One stored component, given the weight shared out among the available items. */
  function ComponentOf(i: Input, shared: real): Component
    requires shared != 0.0 || !Available(i)
  {
    if !Available(i) then Component(i, None, None, None, AvailabilityReason(i))
    else
      Component(i, Some(Relative(i)), Some(i.weight / shared), Some(Contribution(i.weight / shared, Relative(i))),
                AVAILABLE)
  }

  function Contributions(s: seq<Input>, shared: real): real
    requires shared != 0.0
  {
    if s == [] then 0.0
    else Contributions(s[..|s| - 1], shared)
         + (if Available(s[|s| - 1]) then Contribution(s[|s| - 1].weight / shared, Relative(s[|s| - 1])) else 0.0)
  }

  function EffectiveWeights(s: seq<Input>, shared: real): real
    requires shared != 0.0
  {
    if s == [] then 0.0
    else EffectiveWeights(s[..|s| - 1], shared)
         + (if Available(s[|s| - 1]) then s[|s| - 1].weight / shared else 0.0)
  }

  predicate ById(a: Input, b: Input) {
    a.id <= b.id
  }

  /** The calculated value before publication rules: nothing available means no value. */
  function CalculatedValue(s: seq<Input>): Option<real> {
    if AvailableWeight(s) == 0.0 then None else Some(Contributions(s, AvailableWeight(s)))
  }

  function Coverage(s: seq<Input>): real {
    if TotalWeight(s) == 0.0 then 0.0 else 100.0 * AvailableWeight(s) / TotalWeight(s)
  }

  function StatusOf(complete: bool, coverage: real, minimum: real): PublicationStatus {
    if !complete then PROVISIONAL_BASE else if coverage >= minimum then PUBLISHED else INSUFFICIENT_COVERAGE
  }

  /** What `calculate` returns on inputs that pass its validations. */
  function ResultOf(ordered: seq<Input>, complete: bool, minimum: real): IndexResult
    requires PositiveWeights(ordered)
  {
    IndexResult(
      if complete then CalculatedValue(ordered) else None,
      Coverage(ordered),
      StatusOf(complete, Coverage(ordered), minimum),
      seq(|ordered|, k requires 0 <= k < |ordered| =>
        SomeAvailable(ordered, k); ComponentOf(ordered[k], AvailableWeight(ordered))))
  }

  lemma {:induction false} WeightBounds(s: seq<Input>)
    requires PositiveWeights(s)
    ensures 0.0 <= AvailableWeight(s) <= TotalWeight(s)
    ensures s != [] ==> TotalWeight(s) > 0.0
    ensures CountAvailable(s) > 0 <==> AvailableWeight(s) > 0.0
  {
    if s != [] {
      WeightBounds(s[..|s| - 1]);
    }
  }

  lemma {:induction false} SomeAvailable(s: seq<Input>, k: nat)
    requires PositiveWeights(s) && k < |s|
    ensures Available(s[k]) ==> AvailableWeight(s) > 0.0
  {
    WeightBounds(s[..|s| - 1]);
    if k < |s| - 1 {
      SomeAvailable(s[..|s| - 1], k);
    }
  }

  // ---------------------------------------------------------------------------------------------
  // The calculation

  /** `PrototypeFixedWeightMethodology(minimum).calculate(observations, basket_complete=complete)`.
      Its only failures are a minimum outside [0, 100], an empty basket and a weight that is not
      positive: neither the coverage guard nor `price_relative` can raise. */
  method Calculate(observations: seq<Input>, complete: bool, minimum: real) returns (r: Result<IndexResult, IndexError>)
    ensures r.Err? <==> minimum < 0.0 || minimum > 100.0 || observations == [] || !PositiveWeights(observations)
    ensures r.Err? ==> r.error in {MinimumOutOfRange, NoWeights, WeightNotPositive}
    ensures r.Ok? ==> PositiveWeights(Sort(observations, ById))
    ensures r.Ok? ==> r.value == ResultOf(Sort(observations, ById), complete, minimum)
  {
    if minimum < 0.0 || minimum > 100.0 {
      return Err(MinimumOutOfRange);
    }
    var ordered := Sort(observations, ById);
    SortPermutes(observations, ById);
    SameMembers(observations, ordered);
    SameWeights(observations, ordered);
    var total := ValidateWeights(ordered);
    if total.Err? {
      return Err(total.error);
    }
    WeightBounds(ordered);
    var available := AvailableWeight(ordered);
    var coverage := CoveragePercent(available, total.value);
    if coverage.Err? {
      assert false;
    }
    hide AvailableWeight, TotalWeight, Available;
    var components, calculated := Components(ordered, available);
    var status, value := INSUFFICIENT_COVERAGE, calculated;
    if !complete {
      status, value := PROVISIONAL_BASE, None;
    } else if coverage.value >= minimum {
      status := PUBLISHED;
    }
    r := Ok(IndexResult(value, coverage.value, status, components));
    assert r.value.components == ResultOf(ordered, complete, minimum).components;
  }

  lemma SameWeights(a: seq<Input>, b: seq<Input>)
    requires forall x :: x in a <==> x in b
    ensures PositiveWeights(a) <==> PositiveWeights(b)
  {
    forall i | 0 <= i < |a| ensures a[i] in b {
      assert a[i] in a;
    }
    forall i | 0 <= i < |b| ensures b[i] in a {
      assert b[i] in b;
    }
  }

  /** The component loop: appends one component per item and sums the contributions. */
  method Components(ordered: seq<Input>, shared: real) returns (components: seq<Component>, value: Option<real>)
    requires PositiveWeights(ordered) && shared == AvailableWeight(ordered)
    ensures |components| == |ordered| && value == CalculatedValue(ordered)
    ensures forall k :: 0 <= k < |ordered| ==>
              (Available(ordered[k]) ==> shared > 0.0) && components[k] == ComponentOf(ordered[k], shared)
  {
    components := [];
    WeightBounds(ordered);
    hide PriceRelative, Relative, Contribution;
    var sum, any := 0.0, false;
    for i := 0 to |ordered|
      invariant |components| == i
      invariant any <==> CountAvailable(ordered[..i]) > 0
      invariant shared > 0.0 ==> sum == Contributions(ordered[..i], shared)
      invariant forall k :: 0 <= k < i ==>
                  (Available(ordered[k]) ==> shared > 0.0) && components[k] == ComponentOf(ordered[k], shared)
    {
      var item := ordered[i];
      assert ordered[..i + 1][..i] == ordered[..i];
      SomeAvailable(ordered, i);
      AvailableNeverRaises(item);
      var reason := AvailabilityReason(item);
      if reason != AVAILABLE || shared == 0.0 {
        components := components + [Component(item, None, None, None, reason)];
        assert components[i] == ComponentOf(item, shared);
      } else {
        var relative := PriceRelative(item.current.value, item.base.value);
        var effective := item.weight / shared;
        var contribution := Contribution(effective, relative.value);
        sum, any := sum + contribution, true;
        var component := Component(item, Some(relative.value), Some(effective), Some(contribution), reason);
        assert component == ComponentOf(item, shared);
        components := components + [component];
      }
    }
    assert ordered[..|ordered|] == ordered;
    value := if any then Some(sum) else None;
  }

  // ---------------------------------------------------------------------------------------------
  // Index algebra

  /** The result does not depend on the order in which the basket is read. */
  lemma OrderIndependent(a: seq<Input>, b: seq<Input>)
    requires multiset(a) == multiset(b)
    requires forall i, j :: 0 <= i < |a| && 0 <= j < |a| && a[i].id == a[j].id ==> a[i] == a[j]
    ensures Sort(a, ById) == Sort(b, ById)
  {
    SortPermutation(a, b, ById);
  }

  lemma DivideOut(a: real, b: real, c: real, w: real)
    requires w != 0.0 && a == b / w
    ensures a + c / w == (b + c) / w
  {
  }

  lemma Regroup(x: real, w: real, y: real)
    requires w != 0.0
    ensures x / w * y == x * y / w
  {
    var q := x / w;
    assert q * w == x;
    assert q * y * w == x * y;
  }

  /** Contributions are the weighted sum divided by the shared weight. */
  lemma {:induction false} ContributionsAsQuotient(s: seq<Input>, shared: real)
    requires shared != 0.0
    ensures Contributions(s, shared) == WeightedRelatives(s) / shared
    ensures EffectiveWeights(s, shared) == AvailableWeight(s) / shared
  {
    if s != [] {
      var head, last := s[..|s| - 1], s[|s| - 1];
      ContributionsAsQuotient(head, shared);
      if Available(last) {
        Regroup(last.weight, shared, Relative(last));
        DivideOut(Contributions(head, shared), WeightedRelatives(head), last.weight * Relative(last), shared);
        DivideOut(EffectiveWeights(head, shared), AvailableWeight(head), last.weight, shared);
      }
      hide Relative, Available;
    }
  }

  /** The published formula: the value is the weighted mean of the available relatives, and the
      effective weights of the available items add up to one. */
  lemma ValueIsWeightedMean(s: seq<Input>)
    requires PositiveWeights(s) && CalculatedValue(s).Some?
    ensures CalculatedValue(s).value == WeightedRelatives(s) / AvailableWeight(s)
    ensures EffectiveWeights(s, AvailableWeight(s)) == 1.0
  {
    ContributionsAsQuotient(s, AvailableWeight(s));
    SelfQuotient(AvailableWeight(s));
  }

  lemma SelfQuotient(w: real)
    requires w != 0.0
    ensures w / w == 1.0
  {
  }

  lemma TermBounds(w: real, r: real, lo: real, hi: real)
    requires w > 0.0 && lo <= r <= hi
    ensures lo * w <= w * r <= hi * w
  {
    assert w * (r - lo) >= 0.0 && w * (hi - r) >= 0.0;
  }

  lemma {:induction false} WeightedBounds(s: seq<Input>, lo: real, hi: real)
    requires PositiveWeights(s)
    requires forall i :: 0 <= i < |s| && Available(s[i]) ==> lo <= Relative(s[i]) <= hi
    ensures lo * AvailableWeight(s) <= WeightedRelatives(s) <= hi * AvailableWeight(s)
  {
    if s != [] {
      var head, last := s[..|s| - 1], s[|s| - 1];
      WeightedBounds(head, lo, hi);
      if Available(last) {
        TermBounds(last.weight, Relative(last), lo, hi);
        Distribute(lo, AvailableWeight(head), last.weight);
        Distribute(hi, AvailableWeight(head), last.weight);
      }
      assert Available(last) ==> Term(last) == last.weight * Relative(last);
    }
    hide Available, Relative, Term;
  }

  lemma QuotientBounds(lo: real, x: real, hi: real, w: real)
    requires w > 0.0 && lo * w <= x <= hi * w
    ensures lo <= x / w <= hi
  {
  }

  /** The value lies between the least and the greatest relative. */
  lemma ValueBetweenRelatives(s: seq<Input>, lo: real, hi: real)
    requires PositiveWeights(s) && CalculatedValue(s).Some?
    requires forall i :: 0 <= i < |s| && Available(s[i]) ==> lo <= Relative(s[i]) <= hi
    ensures lo <= CalculatedValue(s).value <= hi
  {
    hide Relative, WeightedRelatives, AvailableWeight, Contributions;
    WeightBounds(s);
    WeightedBounds(s, lo, hi);
    ValueIsWeightedMean(s);
    QuotientBounds(lo, WeightedRelatives(s), hi, AvailableWeight(s));
  }

  /** A value is strictly positive whenever there is one, and there is one exactly when some item is
      available. */
  lemma ValueIsPositive(s: seq<Input>)
    requires PositiveWeights(s)
    ensures CalculatedValue(s).Some? <==> CountAvailable(s) > 0
    ensures CalculatedValue(s).Some? ==> CalculatedValue(s).value > 0.0
  {
    WeightBounds(s);
    if CalculatedValue(s).Some? {
      ValueIsWeightedMean(s);
      WeightedPositive(s);
    }
  }

  lemma {:induction false} WeightedPositive(s: seq<Input>)
    requires PositiveWeights(s)
    ensures WeightedRelatives(s) >= 0.0
    ensures CountAvailable(s) > 0 ==> WeightedRelatives(s) > 0.0
  {
    if s != [] {
      WeightedPositive(s[..|s| - 1]);
      var last := s[|s| - 1];
      if Available(last) {
        TermBounds(last.weight, Relative(last), 0.0, Relative(last));
        assert last.weight * Relative(last) > 0.0;
      }
      hide Relative;
    }
  }

  function Scaled(i: Input, k: real): Input {
    if i.current.Some? then i.(current := Some(k * i.current.value)) else i
  }

  function ScaledAll(s: seq<Input>, k: real): (r: seq<Input>)
    ensures |r| == |s| && forall i :: 0 <= i < |s| ==> r[i] == Scaled(s[i], k)
  {
    if s == [] then [] else ScaledAll(s[..|s| - 1], k) + [Scaled(s[|s| - 1], k)]
  }

  lemma ScaledTerm(i: Input, k: real)
    requires k > 0.0
    ensures Available(Scaled(i, k)) <==> Available(i)
    ensures Term(Scaled(i, k)) == k * Term(i)
  {
    if i.current.Some? {
      assert k * i.current.value > 0.0 <==> i.current.value > 0.0;
      if Available(i) {
        Regroup(100.0 * i.current.value, i.base.value, k);
        assert Relative(Scaled(i, k)) == k * Relative(i);
        Commute(k, i.weight, Relative(i));
      }
    }
  }

  lemma ScaledTail(s: seq<Input>, k: real)
    requires s != []
    ensures ScaledAll(s, k)[..|s| - 1] == ScaledAll(s[..|s| - 1], k)
    ensures ScaledAll(s, k)[|s| - 1] == Scaled(s[|s| - 1], k)
  {
  }

  lemma {:induction false} ScaledWeights(s: seq<Input>, k: real)
    requires k > 0.0
    ensures AvailableWeight(ScaledAll(s, k)) == AvailableWeight(s)
    ensures TotalWeight(ScaledAll(s, k)) == TotalWeight(s)
  {
    hide Available, Term, ScaledAll;
    if s != [] {
      ScaledWeights(s[..|s| - 1], k);
      ScaledTerm(s[|s| - 1], k);
      ScaledTail(s, k);
    }
  }

  lemma {:induction false} ScaledRelatives(s: seq<Input>, k: real)
    requires k > 0.0
    ensures WeightedRelatives(ScaledAll(s, k)) == k * WeightedRelatives(s)
  {
    hide Available, Term, ScaledAll;
    if s != [] {
      ScaledRelatives(s[..|s| - 1], k);
      ScaledTerm(s[|s| - 1], k);
      ScaledTail(s, k);
      Distribute(k, WeightedRelatives(s[..|s| - 1]), Term(s[|s| - 1]));
    }
  }

  lemma Commute(k: real, a: real, b: real)
    ensures a * (k * b) == k * (a * b)
  {
  }

  lemma ScaleQuotient(k: real, x: real, w: real)
    requires w != 0.0
    ensures (k * x) / w == k * (x / w)
  {
    Regroup(x, w, k);
  }

  /** Scaling every current price scales the index and leaves coverage and status alone. */
  lemma Homogeneous(s: seq<Input>, k: real)
    requires PositiveWeights(s) && k > 0.0
    ensures Coverage(ScaledAll(s, k)) == Coverage(s)
    ensures CalculatedValue(ScaledAll(s, k)).Some? == CalculatedValue(s).Some?
    ensures CalculatedValue(s).Some? ==> CalculatedValue(ScaledAll(s, k)).value == k * CalculatedValue(s).value
  {
    hide AvailableWeight, TotalWeight, WeightedRelatives, Available, Relative;
    ScaledWeights(s, k);
    ScaledRelatives(s, k);
    if CalculatedValue(s).Some? {
      ValueIsWeightedMean(s);
      ValueIsWeightedMean(ScaledAll(s, k));
      ScaleQuotient(k, WeightedRelatives(s), AvailableWeight(s));
    }
  }

  lemma {:induction false} EqualWeightSums(s: seq<Input>, w: real)
    requires forall i :: 0 <= i < |s| ==> s[i].weight == w
    ensures TotalWeight(s) == |s| as real * w
    ensures AvailableWeight(s) == CountAvailable(s) as real * w
  {
    if s != [] {
      EqualWeightSums(s[..|s| - 1], w);
    }
  }

  /** With equal weights the threshold is a count of items, whatever the common weight. */
  lemma EqualWeightCoverage(s: seq<Input>, w: real, c: real)
    requires s != [] && w > 0.0 && forall i :: 0 <= i < |s| ==> s[i].weight == w
    ensures Coverage(s) >= c <==> 100.0 * CountAvailable(s) as real >= c * |s| as real
  {
    hide AvailableWeight, TotalWeight;
    EqualWeightSums(s, w);
    var k, n := CountAvailable(s) as real, |s| as real;
    CancelWeight(k, n, w, AvailableWeight(s), TotalWeight(s));
    CompareQuotient(100.0 * k, n, c);
  }

  lemma CancelWeight(k: real, n: real, w: real, available: real, total: real)
    requires n > 0.0 && w > 0.0 && available == k * w && total == n * w
    ensures total > 0.0 && 100.0 * available / total == 100.0 * k / n
  {
    var q := 100.0 * k / n;
    assert q * n == 100.0 * k;
    assert q * (n * w) == 100.0 * (k * w);
  }

  lemma CompareQuotient(x: real, n: real, c: real)
    requires n > 0.0
    ensures x / n >= c <==> x >= c * n
  {
    var q := x / n;
    assert q * n == x;
    assert (q - c) * n >= 0.0 <==> q >= c;
  }

  /** A published index lacks a value in exactly one case: a zero threshold and nothing available. */
  lemma PublishedWithoutValue(s: seq<Input>, complete: bool, minimum: real)
    requires s != [] && PositiveWeights(s) && 0.0 <= minimum <= 100.0
    ensures var r := ResultOf(s, complete, minimum);
            (r.status == PUBLISHED && r.value.None?) <==> (complete && minimum == 0.0 && CountAvailable(s) == 0)
  {
    WeightBounds(s);
    if AvailableWeight(s) == 0.0 {
      assert Coverage(s) == 0.0;
    }
  }

  predicate AllAvailable(s: seq<Input>) {
    forall i :: 0 <= i < |s| ==> Available(s[i])
  }

  lemma {:induction false} AllCounted(s: seq<Input>)
    ensures CountAvailable(s) <= |s|
    ensures CountAvailable(s) == |s| <==> AllAvailable(s)
  {
    if s != [] {
      var head := s[..|s| - 1];
      AllCounted(head);
      assert forall i :: 0 <= i < |head| ==> head[i] == s[i];
    }
    hide Available;
  }

  lemma {:induction false} AllAvailableWeight(s: seq<Input>)
    requires PositiveWeights(s)
    ensures AvailableWeight(s) == TotalWeight(s) <==> AllAvailable(s)
  {
    if s != [] {
      var head := s[..|s| - 1];
      AllAvailableWeight(head);
      WeightBounds(head);
      assert forall i :: 0 <= i < |head| ==> head[i] == s[i];
      hide Available;
    }
  }

  /** Coverage is 100 exactly when every item is available. */
  lemma FullCoverage(s: seq<Input>)
    requires s != [] && PositiveWeights(s)
    ensures Coverage(s) == 100.0 <==> AllAvailable(s)
  {
    WeightBounds(s);
    AllAvailableWeight(s);
    FullQuotient(AvailableWeight(s), TotalWeight(s));
  }

  lemma FullQuotient(a: real, t: real)
    requires t > 0.0
    ensures 100.0 * a / t == 100.0 <==> a == t
  {
    var q := 100.0 * a / t;
    assert q * t == 100.0 * a;
  }
}
