/** End to end: what the normalisation gate guarantees for the fares an index is computed from. */
module Pipeline {
  import opened Options
  import opened Domain
  import opened Observations
  import Normalize
  import Outliers
  import Canonical
  import CanonicalRun
  import IndexModel
  import IndexRecovery
  import IndexInvariant
  import IndexRuns
  import Methodology
  import Rounding

  /** A gated quote with what its observation also records. */
  datatype Collected = Collected(quote: Normalize.Quote, source: int, hash: int, route: int, fareClass: Option<string>)

  /** No quote passes the gate with a total that its column would round to zero. */
  ghost predicate NoneBelowHalfPaisa(quotes: seq<Collected>) {
    forall i :: 0 <= i < |quotes| ==> AboveHalfPaisa(quotes[i].quote)
  }

  predicate AboveHalfPaisa(q: Normalize.Quote) {
    Normalize.Flags(q) == [] && q.total.Some? ==> q.total.value >= 0.5
  }

  /** The observation stored for a quote. */
  function ObservationOf(c: Collected): Observation {
    var q, flags := c.quote, Normalize.Flags(c.quote);
    Observation(c.source, c.hash, c.route, q.window, q.identity, q.cabin, c.fareClass, q.currency,
                if q.total.None? || q.total.value < 0.0 then None else Some(Rounding.HalfAway(q.total.value)),
                flags == [], flags, if flags == [] then ELIGIBLE else EXCLUDED, Some(Normalize.Score(|flags|)),
                if flags == [] then None else Some(flags))
  }

  function TableOf(quotes: seq<Collected>): (r: seq<Observation>)
    ensures |r| == |quotes| && forall i :: 0 <= i < |quotes| ==> r[i] == ObservationOf(quotes[i])
  {
    seq(|quotes|, i requires 0 <= i < |quotes| => ObservationOf(quotes[i]))
  }

  lemma PositiveRow(c: Collected)
    ensures var o := ObservationOf(c);
            (o.included && o.fare.Some? ==> o.fare.value > 0) <==> AboveHalfPaisa(c.quote)
  {
    if Normalize.Flags(c.quote) == [] {
      Normalize.IncludedFarePositive(c.quote);
    }
    hide Normalize.Flags, Rounding.HalfAway;
  }

  /** Every included observation has a positive fare, before and after outlier flagging, exactly when no
      quote passed the gate with less than half a paisa. */
  lemma GatePositive(quotes: seq<Collected>)
    ensures CanonicalRun.PositiveObservations(TableOf(quotes)) <==> NoneBelowHalfPaisa(quotes)
    ensures CanonicalRun.PositiveObservations(Outliers.AfterPass(TableOf(quotes))) <==> NoneBelowHalfPaisa(quotes)
  {
    var table := TableOf(quotes);
    hide Normalize.Flags, Rounding.HalfAway, ObservationOf, AboveHalfPaisa, Outliers.AfterPass, Outliers.KeyOf;
    forall i | 0 <= i < |table|
      ensures (table[i].included && table[i].fare.Some? ==> table[i].fare.value > 0)
              <==> AboveHalfPaisa(quotes[i].quote)
    {
      PositiveRow(quotes[i]);
    }
    Outliers.SecondPassIsIdle(table);
  }

  // ---------------------------------------------------------------------------------------------
  // From canonical fares to the index

  function UsedSources(links: seq<Canonical.Link>): set<int> {
    set k | 0 <= k < |links| && Canonical.IsUsed(links[k].role) :: links[k].candidate.source
  }

  function VersionOf(policy: Canonical.Policy): string {
    if policy == Canonical.DIRECT_THEN_MEDIAN then "direct-then-median-v1" else "approved-source-median-v1"
  }

  /** The columns of a canonical fare that the index engine reads. */
  function IndexFare(c: CanonicalRun.CanonicalFare, routes: int -> Route): IndexModel.CanonicalFare {
    IndexModel.CanonicalFare(routes(c.key.route), c.key.window, c.key.cabin, c.key.currency,
                             c.statistics.representative, VersionOf(c.policy), UsedSources(c.links))
  }

  function IndexFares(fares: seq<CanonicalRun.CanonicalFare>, routes: int -> Route): (r: seq<IndexModel.CanonicalFare>)
    ensures |r| == |fares| && forall i :: 0 <= i < |fares| ==> r[i] == IndexFare(fares[i], routes)
  {
    seq(|fares|, i requires 0 <= i < |fares| => IndexFare(fares[i], routes))
  }

  /** The observations and canonical fares of a run: gate, outlier flags, canonicalisation. */
  function Processed(quotes: seq<Collected>, sources: Canonical.Sources, policy: Canonical.Policy): CanonicalRun.State {
    CanonicalRun.Canonicalised(CanonicalRun.State(Outliers.AfterPass(TableOf(quotes)), []), sources, policy)
  }

  function FaresOf(quotes: seq<Collected>, sources: Canonical.Sources, policy: Canonical.Policy, routes: int -> Route)
    : seq<IndexModel.CanonicalFare>
  {
    IndexFares(Processed(quotes, sources, policy).fares, routes)
  }

  lemma {:induction false} OnePolicy(table: seq<Observation>, keys: seq<CanonicalRun.Key>, sources: Canonical.Sources,
                                     policy: Canonical.Policy)
    ensures forall i :: 0 <= i < |CanonicalRun.AfterKeys(table, keys, sources, policy).fares| ==>
              CanonicalRun.AfterKeys(table, keys, sources, policy).fares[i].policy == policy
  {
    if keys != [] {
      OnePolicy(table, keys[..|keys| - 1], sources, policy);
    }
    hide CanonicalRun.Members, Canonical.PartsOf, Canonical.Representatives, Canonical.StatisticsOf, Canonical.LinksOf,
         CanonicalRun.MarkAll;
  }

  lemma {:induction false} OneVersion(fares: seq<IndexModel.CanonicalFare>, version: string)
    requires forall i :: 0 <= i < |fares| ==> fares[i].version == version
    ensures IndexModel.Versions(fares) <= {version}
  {
    if fares != [] {
      OneVersion(fares[..|fares| - 1], version);
    }
  }

  /** Every canonical fare built from gated quotes is positive unless one of them is below half a paisa. */
  lemma PipelineFares(quotes: seq<Collected>, sources: Canonical.Sources, policy: Canonical.Policy,
                      routes: int -> Route)
    ensures NoneBelowHalfPaisa(quotes) ==> IndexRecovery.PositiveFares(FaresOf(quotes, sources, policy, routes))
  {
    var table := Outliers.AfterPass(TableOf(quotes));
    GatePositive(quotes);
    hide Outliers.AfterPass, TableOf, CanonicalRun.Keys, CanonicalRun.AfterKeys, CanonicalRun.PositiveObservations,
         UsedSources, NoneBelowHalfPaisa;
    if NoneBelowHalfPaisa(quotes) {
      CanonicalRun.FaresPositive(table, CanonicalRun.Keys(table), sources, policy);
    }
  }

  /** All canonical fares of a run carry the same method version: the index engine never meets a mixed
      run. */
  lemma PipelineVersion(quotes: seq<Collected>, sources: Canonical.Sources, policy: Canonical.Policy,
                        routes: int -> Route)
    ensures |IndexModel.Versions(FaresOf(quotes, sources, policy, routes))| <= 1
  {
    var table := Outliers.AfterPass(TableOf(quotes));
    OnePolicy(table, CanonicalRun.Keys(table), sources, policy);
    hide Outliers.AfterPass, TableOf, CanonicalRun.Keys, CanonicalRun.AfterKeys, IndexModel.Versions, UsedSources;
    var fares := FaresOf(quotes, sources, policy, routes);
    OneVersion(fares, VersionOf(policy));
    AtMostOne(IndexModel.Versions(fares), VersionOf(policy));
  }

  lemma AtMostOne(versions: set<string>, version: string)
    requires versions <= {version}
    ensures |versions| <= 1
  {
    if versions != {} {
      assert versions == {version};
    }
  }

  /** A run of the pipeline can be indexed as soon as it is finished, its basket exists or can be made,
      and no other run has priced its date; every component with a price and a base then gets a price
      relative, and an index value is strictly positive. */
  lemma PipelineRunIsIndexed(db: IndexModel.Store, id: nat, quotes: seq<Collected>, sources: Canonical.Sources,
                             policy: Canonical.Policy, routes: int -> Route, stale: set<IndexModel.PeriodKey>)
    requires IndexInvariant.Inv(db, stale) && id in db.runs && IndexModel.Finished(db.runs[id])
    requires db.runs[id].fares == FaresOf(quotes, sources, policy, routes)
    ensures var rows := IndexModel.OnDay(db.prices, db.runs[id].dataClass, IndexModel.DayOf(db.runs[id]));
            IndexModel.CallFor(db, id).outcome.Indexed? <==>
            (db.runs[id].dataClass in db.baskets || IndexModel.RoutesActive(db)) && (rows == [] || rows[0].run == id)
    ensures db.runs[id].dataClass in db.baskets && IndexModel.WithPrices(db, id).Ok? ==> SoundCall(db, id)
  {
    PipelineVersion(quotes, sources, policy, routes);
    IndexRuns.CallSucceeds(db, id, stale);
    hide IndexModel.CallFor, IndexInvariant.Inv, IndexModel.OnDay, IndexModel.DayOf, FaresOf, IndexModel.WithPrices,
         IndexModel.Versions, IndexModel.Frozen, IndexRuns.SoundInputs, IndexRuns.InputsOfRun, IndexModel.RoutesActive;
    if db.runs[id].dataClass in db.baskets && IndexModel.WithPrices(db, id).Ok? {
      IndexRuns.CallIsPositive(db, id, stale);
    }
  }

  /** The inputs the call computes its daily index from are sound. */
  ghost predicate SoundCall(db: IndexModel.Store, id: nat)
    requires id in db.runs && db.runs[id].dataClass in db.baskets && IndexModel.WithPrices(db, id).Ok?
  {
    var priced := IndexModel.WithPrices(db, id).value;
    && db.runs[id].dataClass in priced.store.baskets
    && var frozen := IndexModel.Frozen(priced.store, db.runs[id].dataClass, priced.memory);
    && id in frozen.runs && frozen.runs[id] == db.runs[id] && db.runs[id].dataClass in frozen.baskets
    && IndexRuns.SoundInputs(IndexRuns.InputsOfRun(frozen, id, priced.memory))
  }

  /** A positive exact index is stored as a positive number exactly when it is at least 5e-9: with prices
      twelve digits apart a published value can still round to zero. */
  lemma StoredIndexPositive(value: real)
    requires value > 0.0
    ensures IndexModel.ToIndexUnits(value) >= 0
    ensures IndexModel.ToIndexUnits(value) > 0 <==> value >= 0.000000005
  {
  }

  /** The stored daily value of a complete basket is the calculated one to the nearest unit, halves away from
      zero. */
  lemma StoredIndexClose(id: nat, run: IndexModel.CollectionRun, inputs: seq<Methodology.Input>)
    requires Methodology.PositiveWeights(inputs)
    ensures var row := IndexModel.DailyRow(id, run, Methodology.ResultOf(inputs, true, IndexModel.MINIMUM_PERCENT));
            var value := Methodology.CalculatedValue(inputs);
            && (row.value.Some? <==> value.Some?)
            && (value.Some? ==> -0.5 < row.value.value as real - value.value * Rounding.INDEX_UNITS <= 0.5)
  {
    Methodology.ValueIsPositive(inputs);
    hide Methodology.CalculatedValue, IndexModel.StoredComponents, IndexModel.OnlyVersion, Methodology.Coverage;
  }
}
