/** What the index engine reads of a collected run, from the quotes on: which observations they become, and which
    canonical fares with which sources. */
module IndexedFares {
  import opened Domain
  import opened Options
  import opened Observations
  import opened Canonical
  import opened CanonicalRun
  import opened CanonicalFareRule
  import IndexModel
  import Normalize
  import Outliers
  import Pipeline
  import Rounding

  // ---------------------------------------------------------------------------------------------
  // From quotes to observations

  /** The observation of a quote: its columns, the flags of the gate, included exactly without any, and the total to
      the nearest paisa, halves away from zero, unless it is missing or negative. */
  ghost predicate Observed(c: Pipeline.Collected, o: Observation) {
    var q := c.quote;
    && o.source == c.source && o.hash == c.hash && o.route == c.route && o.fareClass == c.fareClass
    && o.window == q.window && o.identity == q.identity && o.cabin == q.cabin && o.currency == q.currency
    && Normalize.FlaggedFor(q, o.flags)
    && (o.included <==> o.flags == []) && o.status == (if o.included then ELIGIBLE else EXCLUDED)
    && o.reason == (if o.included then None else Some(o.flags))
    && o.score == Some(if |o.flags| >= 5 then 0 else 100 - 20 * |o.flags|)
    && (o.fare.None? <==> q.total.None? || q.total.value < 0.0)
    && (o.fare.Some? ==> -0.5 <= q.total.value - o.fare.value as real < 0.5)
  }

  /** Every quote has its observation. */
  lemma QuotesAreObserved(quotes: seq<Pipeline.Collected>)
    ensures |Pipeline.TableOf(quotes)| == |quotes|
    ensures forall i :: 0 <= i < |quotes| ==> Observed(quotes[i], Pipeline.TableOf(quotes)[i])
  {
    hide Observed, Pipeline.ObservationOf;
    forall i | 0 <= i < |quotes|
      ensures Observed(quotes[i], Pipeline.ObservationOf(quotes[i]))
    {
      QuoteIsObserved(quotes[i]);
    }
  }

  lemma QuoteIsObserved(c: Pipeline.Collected)
    ensures Observed(c, Pipeline.ObservationOf(c))
  {
    Normalize.FlagsAreFor(c.quote);
    hide Normalize.Flags, Normalize.FlaggedFor, Rounding.HalfAway;
  }

  // ---------------------------------------------------------------------------------------------
  // From canonical fares to the index

  /** The index reads of a flight the median of its chosen offers and the sources they came from. */
  ghost predicate ReadFrom(fare: IndexModel.CanonicalFare, table: seq<Observation>, key: Key, sources: Sources,
                           policy: Policy, routes: int -> Route) {
    var offers := ApprovedOffers(table, key, sources);
    && offers != {}
    && fare.route == routes(key.route) && fare.window == key.window
    && fare.cabin == key.cabin && fare.currency == key.currency
    && PublishesMedian(fare.fare, ChosenOffers(offers, sources, policy))
    && fare.usedSources == SourcesOf(ChosenOffers(offers, sources, policy))
    && fare.version == (if policy == DIRECT_THEN_MEDIAN then "direct-then-median-v1" else "approved-source-median-v1")
  }

  /** One fare for each flight that has an approved offer, and for no other. */
  ghost predicate AllRead(fares: seq<IndexModel.CanonicalFare>, keys: seq<Key>, table: seq<Observation>,
                          sources: Sources, policy: Policy, routes: int -> Route) {
    && |keys| == |fares| && (forall j, k :: 0 <= j < k < |keys| ==> keys[j] != keys[k])
    && (forall k :: 0 <= k < |fares| ==> ReadFrom(fares[k], table, keys[k], sources, policy, routes))
    && forall key :: ApprovedOffers(table, key, sources) != {} ==> key in keys
  }

  lemma UsedEitherWay(links: seq<Link>, direct: bool)
    ensures Pipeline.UsedSources(links) == UsedIn(links, direct) + UsedIn(links, !direct)
  {
  }

  lemma FareIsRead(c: CanonicalRun.CanonicalFare, table: seq<Observation>, sources: Sources, policy: Policy,
                   routes: int -> Route)
    requires Publishes(c.statistics, ApprovedOffers(table, c.key, sources), sources, policy) && c.policy == policy
    requires Marks(c.links, ApprovedOffers(table, c.key, sources), sources, policy)
    ensures ReadFrom(Pipeline.IndexFare(c, routes), table, c.key, sources, policy, routes)
  {
    UsedEitherWay(c.links, TakesDirect(ApprovedOffers(table, c.key, sources), sources, policy));
    hide Pipeline.UsedSources, UsedIn, SourcesOf, TakesDirect, ChosenOffers, ApprovedOffers, PublishesMedian, Spans;
  }

  function KeysOf(fares: seq<CanonicalRun.CanonicalFare>): (keys: seq<Key>)
    ensures |keys| == |fares| && forall k :: 0 <= k < |fares| ==> keys[k] == fares[k].key
  {
    seq(|fares|, k requires 0 <= k < |fares| => fares[k].key)
  }

  lemma AllAreRead(fares: seq<CanonicalRun.CanonicalFare>, table: seq<Observation>, sources: Sources, policy: Policy,
                   routes: int -> Route)
    requires FaresAre(table, fares, sources, policy) && forall k :: 0 <= k < |fares| ==> fares[k].policy == policy
    ensures AllRead(Pipeline.IndexFares(fares, routes), KeysOf(fares), table, sources, policy, routes)
  {
    hide Publishes, Marks, ApprovedOffers, ReadFrom, Pipeline.IndexFare;
    forall k | 0 <= k < |fares|
      ensures ReadFrom(Pipeline.IndexFares(fares, routes)[k], table, KeysOf(fares)[k], sources, policy, routes)
    {
      FareIsRead(fares[k], table, sources, policy, routes);
    }
    forall key | ApprovedOffers(table, key, sources) != {}
      ensures key in KeysOf(fares)
    {
      var k :| 0 <= k < |fares| && fares[k].key == key;
      assert KeysOf(fares)[k] == key;
    }
  }

  /** The canonical fares the index engine reads of a processed run: of each flight an approved source quoted, the
      median of the chosen offers of the observations left after outlier flagging, with the sources of those
      offers as the ones used. */
  lemma PipelineFaresRead(quotes: seq<Pipeline.Collected>, sources: Sources, policy: Policy, routes: int -> Route)
    returns (keys: seq<Key>)
    ensures AllRead(Pipeline.FaresOf(quotes, sources, policy, routes), keys,
                    Outliers.AfterPass(Pipeline.TableOf(quotes)), sources, policy, routes)
  {
    var table := Outliers.AfterPass(Pipeline.TableOf(quotes));
    var fares := Canonicalised(State(table, []), sources, policy).fares;
    CanonicalFaresAre(table, sources, policy);
    Pipeline.OnePolicy(table, Keys(table), sources, policy);
    CanonicalisedFrom(table, sources, policy);
    FaresOfIs(quotes, sources, policy, routes);
    hide *;
    keys := KeysOf(fares);
    AllAreRead(fares, table, sources, policy, routes);
  }

  lemma FaresOfIs(quotes: seq<Pipeline.Collected>, sources: Sources, policy: Policy, routes: int -> Route)
    ensures Pipeline.FaresOf(quotes, sources, policy, routes)
            == Pipeline.IndexFares(Canonicalised(State(Outliers.AfterPass(Pipeline.TableOf(quotes)), []), sources,
                                                 policy).fares, routes)
  {
    hide Outliers.AfterPass, Pipeline.TableOf, Canonicalised, Pipeline.IndexFares;
  }
}
