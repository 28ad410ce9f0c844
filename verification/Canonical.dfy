/** Canonical fares of a finished run (`services/canonical.py`): de-duplication within a source, the
    cheapest quote of each approved source, and the policy's median over those. */
module Canonical {
  import opened Aggregates
  import opened Options
  import opened Domain
  import opened Sorting
  import Medians
  import Rounding

  datatype Source = Source(approved: bool, direct: bool)

  type Sources = map<int, Source>

  datatype Policy = DIRECT_THEN_MEDIAN | APPROVED_SOURCE_MEDIAN

  /** One quote of a flight; `row` is its place in the observation table, fares are in paise. */
  datatype Candidate = Candidate(row: nat, source: int, fare: int, hash: int)

  predicate Approved(sources: Sources, source: int) {
    source in sources && sources[source].approved
  }

  /** The sort key of a group: source, then fare, then content hash. */
  predicate ByOffer(a: Candidate, b: Candidate) {
    a.source < b.source || (a.source == b.source && ByFare(a, b))
  }

  predicate ByFare(a: Candidate, b: Candidate) {
    a.fare < b.fare || (a.fare == b.fare && a.hash <= b.hash)
  }

  // ---------------------------------------------------------------------------------------------
  // Eligible, duplicate and rejected

  datatype Parts = Parts(eligible: seq<Candidate>, duplicates: seq<Candidate>, rejected: seq<Candidate>)

  /** Some candidate of `s` has this source and this fare. */
  predicate Offered(s: seq<Candidate>, source: int, fare: int) {
    exists i :: 0 <= i < |s| && s[i].source == source && s[i].fare == fare
  }

  function Split(s: seq<Candidate>, sources: Sources): Parts {
    if s == [] then Parts([], [], [])
    else Place(Split(s[..|s| - 1], sources), s[|s| - 1], sources)
  }

  function Place(p: Parts, c: Candidate, sources: Sources): Parts {
    if !Approved(sources, c.source) then p.(rejected := p.rejected + [c])
    else if Offered(p.eligible, c.source, c.fare) then p.(duplicates := p.duplicates + [c])
    else p.(eligible := p.eligible + [c])
  }

  ghost predicate DistinctOffers(s: seq<Candidate>) {
    forall i, j :: 0 <= i < j < |s| ==> s[i].source != s[j].source || s[i].fare != s[j].fare
  }

  /** The three parts together are exactly the candidates; the rejected ones are those of unapproved
      sources; and eligible has exactly one candidate per distinct approved (source, fare) pair. */
  ghost predicate Partitions(p: Parts, s: seq<Candidate>, sources: Sources) {
    && multiset(p.eligible) + multiset(p.duplicates) + multiset(p.rejected) == multiset(s)
    && DistinctOffers(p.eligible)
    && (forall c :: c in p.rejected ==> !Approved(sources, c.source))
    && (forall c :: c in p.eligible ==> Approved(sources, c.source))
    && (forall c :: c in p.duplicates ==> Approved(sources, c.source) && Offered(p.eligible, c.source, c.fare))
    && (forall c :: c in s && Approved(sources, c.source) ==> Offered(p.eligible, c.source, c.fare))
  }

  lemma OfferedAppend(s: seq<Candidate>, c: Candidate)
    ensures forall source, fare :: Offered(s + [c], source, fare) <==>
                                   Offered(s, source, fare) || (source == c.source && fare == c.fare)
  {
    assert (s + [c])[|s|] == c;
    forall source, fare | Offered(s, source, fare)
      ensures Offered(s + [c], source, fare)
    {
      var i :| 0 <= i < |s| && s[i].source == source && s[i].fare == fare;
      assert (s + [c])[i] == s[i];
    }
  }

  lemma DistinctAppend(s: seq<Candidate>, c: Candidate)
    requires DistinctOffers(s) && !Offered(s, c.source, c.fare)
    ensures DistinctOffers(s + [c])
  {
  }

  lemma MemberOfAppend(s: seq<Candidate>, c: Candidate)
    ensures forall x :: x in s + [c] <==> x in s || x == c
    ensures multiset(s + [c]) == multiset(s) + multiset{c}
  {
  }

  lemma PlaceRejected(p: Parts, s: seq<Candidate>, c: Candidate, sources: Sources)
    requires Partitions(p, s, sources) && !Approved(sources, c.source)
    ensures Partitions(p.(rejected := p.rejected + [c]), s + [c], sources)
  {
    MemberOfAppend(s, c);
    MemberOfAppend(p.rejected, c);
    hide Offered, DistinctOffers, Approved;
  }

  lemma PlaceDuplicate(p: Parts, s: seq<Candidate>, c: Candidate, sources: Sources)
    requires Partitions(p, s, sources) && Approved(sources, c.source) && Offered(p.eligible, c.source, c.fare)
    ensures Partitions(p.(duplicates := p.duplicates + [c]), s + [c], sources)
  {
    MemberOfAppend(s, c);
    MemberOfAppend(p.duplicates, c);
    hide Offered, DistinctOffers, Approved;
  }

  lemma PlaceEligible(p: Parts, s: seq<Candidate>, c: Candidate, sources: Sources)
    requires Partitions(p, s, sources) && Approved(sources, c.source) && !Offered(p.eligible, c.source, c.fare)
    ensures Partitions(p.(eligible := p.eligible + [c]), s + [c], sources)
  {
    MemberOfAppend(s, c);
    MemberOfAppend(p.eligible, c);
    OfferedAppend(p.eligible, c);
    DistinctAppend(p.eligible, c);
    hide Offered, DistinctOffers, Approved;
  }

  lemma PlacePartitions(p: Parts, s: seq<Candidate>, c: Candidate, sources: Sources)
    requires Partitions(p, s, sources)
    ensures Partitions(Place(p, c, sources), s + [c], sources)
  {
    hide Offered, Partitions, Approved;
    if !Approved(sources, c.source) {
      PlaceRejected(p, s, c, sources);
    } else if Offered(p.eligible, c.source, c.fare) {
      PlaceDuplicate(p, s, c, sources);
    } else {
      PlaceEligible(p, s, c, sources);
    }
  }

  lemma {:induction false} SplitPartitions(s: seq<Candidate>, sources: Sources)
    ensures Partitions(Split(s, sources), s, sources)
  {
    if s != [] {
      var head, last := s[..|s| - 1], s[|s| - 1];
      SplitPartitions(head, sources);
      PlacePartitions(Split(head, sources), head, last, sources);
      assert s == head + [last];
    }
    hide Place, Offered, DistinctOffers;
  }

  lemma SplitMembers(s: seq<Candidate>, sources: Sources)
    ensures var p := Split(s, sources);
            forall c :: c in p.eligible || c in p.duplicates || c in p.rejected ==> c in s
  {
    var p := Split(s, sources);
    SplitPartitions(s, sources);
    hide Split, Offered, DistinctOffers, Approved;
    forall c | c in p.eligible || c in p.duplicates || c in p.rejected
      ensures c in s
    {
      assert c in multiset(p.eligible) + multiset(p.duplicates) + multiset(p.rejected);
      assert c in multiset(s);
    }
  }

  lemma {:induction false} EligibleKeepsOrder(s: seq<Candidate>, sources: Sources)
    requires SortedBy(s, ByOffer)
    ensures SortedBy(Split(s, sources).eligible, ByOffer)
  {
    if s != [] {
      var head, last := s[..|s| - 1], s[|s| - 1];
      EligibleKeepsOrder(head, sources);
      SplitMembers(head, sources);
      var e := Split(head, sources).eligible;
      forall i | 0 <= i < |e|
        ensures ByOffer(e[i], last)
      {
        assert e[i] in head;
        var m :| 0 <= m < |head| && head[m] == e[i];
        assert ByOffer(s[m], s[|s| - 1]);
      }
    }
  }

  lemma ByOfferIsPreorder()
    ensures TotalPreorder(ByOffer)
  {
  }

  // ---------------------------------------------------------------------------------------------
  // One representative per source

  /** The sources of the rows, in order of first appearance: the keys of `by_source`. */
  function SourcesIn(rows: seq<Candidate>): seq<int> {
    if rows == [] then []
    else
      var seen, last := SourcesIn(rows[..|rows| - 1]), rows[|rows| - 1];
      if last.source in seen then seen else seen + [last.source]
  }

  function RowsOf(rows: seq<Candidate>, source: int): seq<Candidate> {
    if rows == [] then []
    else RowsOf(rows[..|rows| - 1], source) + (if rows[|rows| - 1].source == source then [rows[|rows| - 1]] else [])
  }

  /** The first row with the least (fare, hash). */
  function Cheapest(rows: seq<Candidate>): Candidate
    requires rows != []
  {
    if |rows| == 1 then rows[0]
    else
      var best, last := Cheapest(rows[..|rows| - 1]), rows[|rows| - 1];
      if ByFare(best, last) then best else last
  }

  lemma {:induction false} SourceHasRows(rows: seq<Candidate>, source: int)
    ensures RowsOf(rows, source) != [] <==> source in SourcesIn(rows)
    ensures forall c :: c in RowsOf(rows, source) <==> c in rows && c.source == source
  {
    if rows != [] {
      SourceHasRows(rows[..|rows| - 1], source);
    }
  }

  lemma {:induction false} CheapestIsLeast(rows: seq<Candidate>)
    requires rows != []
    ensures Cheapest(rows) in rows && forall c :: c in rows ==> Cheapest(rows).fare <= c.fare
  {
    if |rows| > 1 {
      CheapestIsLeast(rows[..|rows| - 1]);
      assert rows == rows[..|rows| - 1] + [rows[|rows| - 1]];
    } else {
      assert rows == [rows[0]];
    }
  }

  function Representatives(eligible: seq<Candidate>): (r: seq<Candidate>)
    ensures |r| == |SourcesIn(eligible)|
  {
    var keys := SourcesIn(eligible);
    seq(|keys|, k requires 0 <= k < |keys| =>
      SourceHasRows(eligible, keys[k]); Cheapest(RowsOf(eligible, keys[k])))
  }

  lemma RepresentativeAt(eligible: seq<Candidate>, k: nat)
    requires k < |Representatives(eligible)|
    ensures var c, source := Representatives(eligible)[k], SourcesIn(eligible)[k];
            && c in eligible && c.source == source
            && forall d :: d in eligible && d.source == source ==> c.fare <= d.fare
  {
    var source := SourcesIn(eligible)[k];
    SourceHasRows(eligible, source);
    CheapestIsLeast(RowsOf(eligible, source));
  }

  predicate Quotes(rows: seq<Candidate>, source: int) {
    exists m :: 0 <= m < |rows| && rows[m].source == source
  }

  lemma {:induction false} SourcesQuote(rows: seq<Candidate>)
    ensures forall source :: source in SourcesIn(rows) <==> Quotes(rows, source)
  {
    if rows != [] {
      var head, last := rows[..|rows| - 1], rows[|rows| - 1];
      SourcesQuote(head);
      assert rows[|rows| - 1].source == last.source;
      forall source
        ensures Quotes(rows, source) <==> Quotes(head, source) || source == last.source
      {
        if Quotes(head, source) {
          var m :| 0 <= m < |head| && head[m].source == source;
          assert rows[m].source == source;
        }
        if Quotes(rows, source) && source != last.source {
          var m :| 0 <= m < |rows| && rows[m].source == source;
          assert head[m].source == source;
        }
      }
    }
    hide Quotes;
  }

  lemma {:induction false} SourcesAscend(rows: seq<Candidate>)
    requires SortedBy(rows, ByOffer)
    ensures forall i, j :: 0 <= i < j < |SourcesIn(rows)| ==> SourcesIn(rows)[i] < SourcesIn(rows)[j]
  {
    if rows != [] {
      var head, last := rows[..|rows| - 1], rows[|rows| - 1];
      SourcesAscend(head);
      SourcesQuote(head);
      var keys := SourcesIn(head);
      forall i | 0 <= i < |keys|
        ensures keys[i] <= last.source
      {
        assert keys[i] in keys;
        var m :| 0 <= m < |head| && head[m].source == keys[i];
        assert ByOffer(rows[m], rows[|rows| - 1]);
      }
    }
  }

  // ---------------------------------------------------------------------------------------------
  // What the representatives are

  datatype Offer = Offer(source: int, fare: int)

  function Offers(rows: seq<Candidate>): (r: seq<Offer>)
    ensures |r| == |rows| && forall k :: 0 <= k < |rows| ==> r[k] == Offer(rows[k].source, rows[k].fare)
  {
    if rows == [] then [] else Offers(rows[..|rows| - 1]) + [Offer(rows[|rows| - 1].source, rows[|rows| - 1].fare)]
  }

  ghost predicate Ascending(offers: seq<Offer>) {
    forall i, j :: 0 <= i < j < |offers| ==> offers[i].source < offers[j].source
  }

  /** `fare` is the least fare an approved `source` quoted. */
  ghost predicate CheapestOffer(s: seq<Candidate>, sources: Sources, offer: Offer) {
    && Approved(sources, offer.source) && Offered(s, offer.source, offer.fare)
    && forall c :: c in s && c.source == offer.source ==> offer.fare <= c.fare
  }

  /** The representatives of a group. */
  function RepresentativesOf(s: seq<Candidate>, sources: Sources): seq<Candidate> {
    Representatives(Split(Sort(s, ByOffer), sources).eligible)
  }

  lemma OfferedMember(s: seq<Candidate>, c: Candidate)
    requires c in s
    ensures Offered(s, c.source, c.fare)
  {
    var i :| 0 <= i < |s| && s[i] == c;
  }

  /** The representatives are, in ascending order of source, exactly the cheapest offers of the
      approved sources. */
  lemma RepresentativesAre(s: seq<Candidate>, sources: Sources)
    ensures Ascending(Offers(RepresentativesOf(s, sources)))
    ensures forall offer :: offer in Offers(RepresentativesOf(s, sources)) <==> CheapestOffer(s, sources, offer)
    ensures forall c :: c in RepresentativesOf(s, sources) ==>
              c in Split(Sort(s, ByOffer), sources).eligible && c in s
  {
    var ordered, r := Sort(s, ByOffer), RepresentativesOf(s, sources);
    var e := Split(ordered, sources).eligible;
    ByOfferIsPreorder();
    SortOrders(s, ByOffer);
    SortPermutes(s, ByOffer);
    SameMembers(ordered, s);
    SplitPartitions(ordered, sources);
    SplitMembers(ordered, sources);
    EligibleKeepsOrder(ordered, sources);
    SourcesAscend(e);
    hide Sort, SortedBy, Split, Representatives, Offered, DistinctOffers, ByOffer, SourcesIn, Offers, CheapestOffer;
    forall k: nat | k < |r|
      ensures r[k] in e && r[k] in s && r[k].source == SourcesIn(e)[k]
      ensures CheapestOffer(s, sources, Offers(r)[k])
    {
      RepresentativeAt(e, k);
      RepresentativeIsCheapest(s, ordered, e, sources, r[k]);
    }
    forall offer | CheapestOffer(s, sources, offer)
      ensures offer in Offers(r)
    {
      CheapestIsRepresented(s, ordered, sources, offer);
    }
  }

  lemma RepresentativeIsCheapest(s: seq<Candidate>, ordered: seq<Candidate>, e: seq<Candidate>, sources: Sources,
                                 c: Candidate)
    requires forall x :: x in s <==> x in ordered
    requires e == Split(ordered, sources).eligible && c in e
    requires forall d :: d in e && d.source == c.source ==> c.fare <= d.fare
    ensures CheapestOffer(s, sources, Offer(c.source, c.fare))
  {
    SplitPartitions(ordered, sources);
    SplitMembers(ordered, sources);
    OfferedMember(s, c);
    hide Split, DistinctOffers;
    forall d | d in s && d.source == c.source
      ensures c.fare <= d.fare
    {
      assert Offered(e, d.source, d.fare);
      var i :| 0 <= i < |e| && e[i].source == d.source && e[i].fare == d.fare;
      assert e[i] in e;
    }
  }

  lemma CheapestIsRepresented(s: seq<Candidate>, ordered: seq<Candidate>, sources: Sources, offer: Offer)
    requires forall x :: x in s <==> x in ordered
    requires CheapestOffer(s, sources, offer)
    ensures offer in Offers(Representatives(Split(ordered, sources).eligible))
  {
    var e := Split(ordered, sources).eligible;
    var r := Representatives(e);
    SplitPartitions(ordered, sources);
    SplitMembers(ordered, sources);
    hide Split, DistinctOffers, Representatives;
    var i :| 0 <= i < |s| && s[i].source == offer.source && s[i].fare == offer.fare;
    assert s[i] in s;
    assert Offered(e, offer.source, offer.fare);
    var m :| 0 <= m < |e| && e[m].source == offer.source && e[m].fare == offer.fare;
    assert e[m] in e;
    SourceHasRows(e, offer.source);
    assert e[m] in RowsOf(e, offer.source);
    var k :| 0 <= k < |SourcesIn(e)| && SourcesIn(e)[k] == offer.source;
    RepresentativeAt(e, k);
    assert r[k].fare <= e[m].fare && offer.fare <= r[k].fare;
    assert Offers(r)[k] == offer;
  }

  lemma LastIsGreatest(a: seq<Offer>, x: Offer)
    requires Ascending(a) && a != [] && x in a
    ensures x == a[|a| - 1] || x.source < a[|a| - 1].source
  {
    var i :| 0 <= i < |a| && a[i] == x;
  }

  lemma WithoutLast(a: seq<Offer>, head: seq<Offer>, x: Offer)
    requires Ascending(a) && a != [] && head == a[..|a| - 1]
    ensures Ascending(head)
    ensures x in head <==> x in a && x != a[|a| - 1]
  {
    assert a == head + [a[|a| - 1]];
    if x in head {
      var i :| 0 <= i < |head| && head[i] == x;
      assert a[i] == x;
    }
  }

  /** A set of offers has only one ascending arrangement. */
  lemma {:induction false} AscendingUnique(a: seq<Offer>, b: seq<Offer>)
    requires Ascending(a) && Ascending(b) && forall x :: x in a <==> x in b
    ensures a == b
  {
    assert (a == [] || a[0] in a) && (b == [] || b[0] in b);
    if a != [] {
      var n, m := |a| - 1, |b| - 1;
      assert a[n] in b && b[m] in a;
      LastIsGreatest(a, b[m]);
      LastIsGreatest(b, a[n]);
      hide Ascending;
      forall x: Offer
        ensures Ascending(a[..n]) && Ascending(b[..m]) && (x in a[..n] <==> x in b[..m])
      {
        WithoutLast(a, a[..n], x);
        WithoutLast(b, b[..m], x);
      }
      WithoutLast(a, a[..n], a[n]);
      WithoutLast(b, b[..m], b[m]);
      AscendingUnique(a[..n], b[..m]);
      assert a == a[..n] + [a[n]] && b == b[..m] + [b[m]];
    }
  }

  // ---------------------------------------------------------------------------------------------
  // Statistics

  /** What a canonical fare states about a flight, apart from how many quotes were considered. */
  datatype Statistics = Statistics(
    representative: int,
    minimum: int,
    maximum: int,
    dispersion: int,
    sourceCount: nat,
    conflict: bool,
    direct: bool)

  function Fares(rows: seq<Candidate>): (r: seq<int>)
    ensures |r| == |rows| && forall k :: 0 <= k < |rows| ==> r[k] == rows[k].fare
  {
    if rows == [] then [] else Fares(rows[..|rows| - 1]) + [rows[|rows| - 1].fare]
  }

  function Reals(s: seq<int>): (r: seq<real>)
    ensures |r| == |s| && forall k :: 0 <= k < |s| ==> r[k] == s[k] as real
  {
    if s == [] then [] else Reals(s[..|s| - 1]) + [s[|s| - 1] as real]
  }

  /** `_median`: the mean of the two middle fares is rounded half to even, to whole paise. */
  function MedianFare(fares: seq<int>): int
    requires fares != []
  {
    Rounding.HalfEven(Medians.Median(Reals(fares)))
  }

  predicate Disagree(fares: seq<int>) {
    exists i, j :: 0 <= i < j < |fares| && fares[i] != fares[j]
  }

  function DirectRows(rows: seq<Candidate>, sources: Sources): seq<Candidate> {
    if rows == [] then []
    else
      var last := rows[|rows| - 1];
      DirectRows(rows[..|rows| - 1], sources)
      + (if last.source in sources && sources[last.source].direct then [last] else [])
  }

  predicate UsesDirect(representatives: seq<Candidate>, sources: Sources, policy: Policy) {
    policy == DIRECT_THEN_MEDIAN && DirectRows(representatives, sources) != []
  }

  function Selected(representatives: seq<Candidate>, sources: Sources, policy: Policy): seq<Candidate> {
    if UsesDirect(representatives, sources, policy) then DirectRows(representatives, sources) else representatives
  }

  function StatisticsOf(representatives: seq<Candidate>, sources: Sources, policy: Policy): Statistics
    requires representatives != []
  {
    var all := Fares(representatives);
    Statistics(MedianFare(Fares(Selected(representatives, sources, policy))), Least(all), Greatest(all),
               Greatest(all) - Least(all), |representatives|, Disagree(all),
               UsesDirect(representatives, sources, policy))
  }

  lemma {:induction false} DirectAreRows(rows: seq<Candidate>, sources: Sources)
    ensures forall c :: c in DirectRows(rows, sources) <==> c in rows && c.source in sources && sources[c.source].direct
  {
    if rows != [] {
      DirectAreRows(rows[..|rows| - 1], sources);
    }
  }

  lemma FaresOf(rows: seq<Candidate>, x: int)
    requires x in Fares(rows)
    ensures exists c :: c in rows && c.fare == x
  {
    var k :| 0 <= k < |rows| && Fares(rows)[k] == x;
    assert rows[k] in rows;
  }

  lemma MedianFareBetween(fares: seq<int>, lo: int, hi: int)
    requires fares != [] && forall x :: x in fares ==> lo <= x <= hi
    ensures lo <= MedianFare(fares) <= hi
  {
    var r := Reals(fares);
    forall x | x in r
      ensures lo as real <= x <= hi as real
    {
      var k :| 0 <= k < |r| && r[k] == x;
      assert fares[k] in fares;
    }
    Medians.MedianAtLeast(r, lo as real);
    Medians.MedianAtMost(r, hi as real);
    Rounding.HalfEvenWithin(Medians.Median(r), lo, hi);
  }

  /** The rounded representative lies between the stored minimum and maximum, the minimum is the
      cheapest fare of any approved source, and there is a conflict exactly when they differ. */
  lemma StatisticsBetween(representatives: seq<Candidate>, sources: Sources, policy: Policy)
    requires representatives != []
    ensures var st := StatisticsOf(representatives, sources, policy);
            && st.minimum <= st.representative <= st.maximum
            && st.dispersion >= 0 && (st.conflict <==> st.dispersion > 0)
            && (exists c :: c in representatives && c.fare == st.minimum)
            && (forall c :: c in representatives ==> st.minimum <= c.fare <= st.maximum)
  {
    var all, chosen := Fares(representatives), Selected(representatives, sources, policy);
    LeastIsLeast(all);
    GreatestIsGreatest(all);
    FaresOf(representatives, Least(all));
    forall c | c in representatives
      ensures Least(all) <= c.fare <= Greatest(all)
    {
      var k :| 0 <= k < |representatives| && representatives[k] == c;
      assert all[k] in all;
    }
    DirectAreRows(representatives, sources);
    forall x | x in Fares(chosen)
      ensures Least(all) <= x <= Greatest(all)
    {
      FaresOf(chosen, x);
    }
    hide MedianFare, DirectRows, Fares, Least, Greatest;
    MedianFareBetween(Fares(chosen), Least(all), Greatest(all));
    DisagreeMeansSpread(all);
  }

  lemma DisagreeMeansSpread(s: seq<int>)
    requires s != []
    ensures Disagree(s) <==> Least(s) < Greatest(s)
  {
    LeastIsLeast(s);
    GreatestIsGreatest(s);
    if Disagree(s) {
      var i, j :| 0 <= i < j < |s| && s[i] != s[j];
      assert s[i] in s && s[j] in s;
    }
    if Least(s) < Greatest(s) {
      var i :| 0 <= i < |s| && s[i] == Least(s);
      var j :| 0 <= j < |s| && s[j] == Greatest(s);
      if j < i {
        assert s[j] != s[i];
      }
    }
    hide Least, Greatest;
  }

  lemma OffersPrefix(a: seq<Candidate>)
    requires a != []
    ensures Offers(a)[..|a| - 1] == Offers(a[..|a| - 1])
  {
  }

  lemma FaresAppend(a: seq<Candidate>, c: Candidate)
    ensures Fares(a + [c]) == Fares(a) + [c.fare]
  {
  }

  lemma FaresTail(a: seq<Candidate>, sources: Sources)
    requires a != []
    ensures var n := |a| - 1;
            && Fares(a) == Fares(a[..n]) + [a[n].fare]
            && Fares(DirectRows(a, sources)) == Fares(DirectRows(a[..n], sources))
                 + (if a[n].source in sources && sources[a[n].source].direct then [a[n].fare] else [])
  {
    var n := |a| - 1;
    var d := DirectRows(a[..n], sources);
    FaresAppend(d, a[n]);
    assert d + [] == d && Fares(d) + [] == Fares(d);
  }

  lemma {:induction false} SameOffersSameFares(a: seq<Candidate>, b: seq<Candidate>, sources: Sources)
    requires Offers(a) == Offers(b)
    ensures Fares(a) == Fares(b) && Fares(DirectRows(a, sources)) == Fares(DirectRows(b, sources))
  {
    assert |a| == |Offers(a)| == |b|;
    if a != [] {
      var n := |a| - 1;
      OffersPrefix(a);
      OffersPrefix(b);
      SameOffersSameFares(a[..n], b[..n], sources);
      assert Offers(a)[n] == Offers(b)[n];
      FaresTail(a, sources);
      FaresTail(b, sources);
      hide Fares, DirectRows, Offers;
    } else {
      assert b == [];
    }
  }

  // ---------------------------------------------------------------------------------------------
  // Robustness

  /** What is published of a group: nothing when no approved source quoted. */
  function Published(s: seq<Candidate>, sources: Sources, policy: Policy): Option<Statistics> {
    var r := RepresentativesOf(s, sources);
    if r == [] then None else Some(StatisticsOf(r, sources, policy))
  }

  ghost predicate SameCheapest(a: seq<Candidate>, b: seq<Candidate>, sources: Sources) {
    forall offer :: CheapestOffer(a, sources, offer) <==> CheapestOffer(b, sources, offer)
  }

  /** The statistics depend on nothing but the least fare of each approved source. */
  lemma PublishedFromCheapest(a: seq<Candidate>, b: seq<Candidate>, sources: Sources, policy: Policy)
    requires SameCheapest(a, b, sources)
    ensures Published(a, sources, policy) == Published(b, sources, policy)
  {
    var ra, rb := RepresentativesOf(a, sources), RepresentativesOf(b, sources);
    RepresentativesAre(a, sources);
    RepresentativesAre(b, sources);
    hide RepresentativesOf, CheapestOffer, Ascending, StatisticsOf;
    AscendingUnique(Offers(ra), Offers(rb));
    assert |ra| == |Offers(ra)| == |rb|;
    if ra != [] {
      StatisticsFromOffers(ra, rb, sources, policy);
    }
  }

  lemma SelectedFromOffers(ra: seq<Candidate>, rb: seq<Candidate>, sources: Sources, policy: Policy)
    requires Offers(ra) == Offers(rb)
    ensures |ra| == |rb| && Fares(ra) == Fares(rb)
    ensures UsesDirect(ra, sources, policy) <==> UsesDirect(rb, sources, policy)
    ensures Fares(Selected(ra, sources, policy)) == Fares(Selected(rb, sources, policy))
  {
    SameOffersSameFares(ra, rb, sources);
    assert |ra| == |Offers(ra)| == |rb|;
    assert |DirectRows(ra, sources)| == |Fares(DirectRows(ra, sources))| == |DirectRows(rb, sources)|;
    hide Fares, DirectRows, Offers;
  }

  lemma StatisticsFromOffers(ra: seq<Candidate>, rb: seq<Candidate>, sources: Sources, policy: Policy)
    requires Offers(ra) == Offers(rb) && ra != [] && rb != []
    ensures StatisticsOf(ra, sources, policy) == StatisticsOf(rb, sources, policy)
  {
    hide *;
    SelectedFromOffers(ra, rb, sources, policy);
    SameStatistics(ra, rb, sources, policy);
  }

  lemma SameStatistics(ra: seq<Candidate>, rb: seq<Candidate>, sources: Sources, policy: Policy)
    requires ra != [] && rb != [] && |ra| == |rb| && Fares(ra) == Fares(rb)
    requires UsesDirect(ra, sources, policy) <==> UsesDirect(rb, sources, policy)
    requires Fares(Selected(ra, sources, policy)) == Fares(Selected(rb, sources, policy))
    ensures StatisticsOf(ra, sources, policy) == StatisticsOf(rb, sources, policy)
  {
    hide Fares, Selected, UsesDirect, MedianFare, Least, Greatest, Disagree;
  }

  /** They do not depend on the order in which quotes arrive. */
  lemma OrderIndependent(a: seq<Candidate>, b: seq<Candidate>, sources: Sources, policy: Policy)
    requires multiset(a) == multiset(b)
    ensures Published(a, sources, policy) == Published(b, sources, policy)
  {
    SameMembers(a, b);
    forall offer
      ensures CheapestOffer(a, sources, offer) <==> CheapestOffer(b, sources, offer)
    {
      OfferedSame(a, b, offer);
    }
    hide Published;
    PublishedFromCheapest(a, b, sources, policy);
  }

  lemma OfferedSame(a: seq<Candidate>, b: seq<Candidate>, offer: Offer)
    requires forall x :: x in a <==> x in b
    ensures Offered(a, offer.source, offer.fare) <==> Offered(b, offer.source, offer.fare)
  {
    forall i | 0 <= i < |a| && a[i].source == offer.source && a[i].fare == offer.fare
      ensures Offered(b, offer.source, offer.fare)
    {
      assert a[i] in b;
      OfferedMember(b, a[i]);
    }
    forall i | 0 <= i < |b| && b[i].source == offer.source && b[i].fare == offer.fare
      ensures Offered(a, offer.source, offer.fare)
    {
      assert b[i] in a;
      OfferedMember(a, b[i]);
    }
  }

  /** Nor do they change when a source repeats a quote, adds a dearer one, or an unapproved source
      quotes anything at all. */
  lemma ExtraQuoteIgnored(s: seq<Candidate>, extra: Candidate, sources: Sources, policy: Policy)
    requires !Approved(sources, extra.source) || exists c :: c in s && c.source == extra.source && c.fare <= extra.fare
    ensures Published(s + [extra], sources, policy) == Published(s, sources, policy)
  {
    var more := s + [extra];
    assert forall i :: 0 <= i < |s| ==> more[i] == s[i];
    forall offer
      ensures CheapestOffer(s, sources, offer) <==> CheapestOffer(more, sources, offer)
    {
      if CheapestOffer(s, sources, offer) {
        OfferStays(s, extra, sources, offer);
      }
      if CheapestOffer(more, sources, offer) {
        OfferWasThere(s, extra, sources, offer);
      }
    }
    hide Published, CheapestOffer;
    PublishedFromCheapest(s, more, sources, policy);
  }

  lemma OfferStays(s: seq<Candidate>, extra: Candidate, sources: Sources, offer: Offer)
    requires CheapestOffer(s, sources, offer)
    requires !Approved(sources, extra.source) || exists c :: c in s && c.source == extra.source && c.fare <= extra.fare
    ensures CheapestOffer(s + [extra], sources, offer)
  {
    var i :| 0 <= i < |s| && s[i].source == offer.source && s[i].fare == offer.fare;
    assert (s + [extra])[i] == s[i];
  }

  lemma OfferWasThere(s: seq<Candidate>, extra: Candidate, sources: Sources, offer: Offer)
    requires CheapestOffer(s + [extra], sources, offer)
    requires !Approved(sources, extra.source) || exists c :: c in s && c.source == extra.source && c.fare <= extra.fare
    ensures CheapestOffer(s, sources, offer)
  {
    var more := s + [extra];
    var i :| 0 <= i < |more| && more[i].source == offer.source && more[i].fare == offer.fare;
    if i < |s| {
      assert s[i] == more[i];
    } else {
      var c :| c in s && c.source == extra.source && c.fare <= extra.fare;
      assert c in more;
      OfferedMember(s, c);
    }
  }

  /** Positive fares give positive canonical fares. */
  lemma PublishedPositive(s: seq<Candidate>, sources: Sources, policy: Policy)
    requires forall c :: c in s ==> c.fare > 0
    ensures Published(s, sources, policy).Some? ==>
              0 < Published(s, sources, policy).value.minimum <= Published(s, sources, policy).value.representative
  {
    var r := RepresentativesOf(s, sources);
    RepresentativesAre(s, sources);
    if r != [] {
      StatisticsBetween(r, sources, policy);
    }
    hide RepresentativesOf, StatisticsOf, CheapestOffer, Ascending;
  }

  // ---------------------------------------------------------------------------------------------
  // Links

  datatype Role =
    | USED_DIRECT | USED_MEDIAN | CONSIDERED_NOT_SELECTED | SOURCE_CANDIDATE | DUPLICATE | REJECTED_UNAPPROVED

  datatype Link = Link(candidate: Candidate, role: Role)

  /** The parts of a group, in the order its candidates are examined. */
  function PartsOf(s: seq<Candidate>, sources: Sources): Parts {
    Split(Sort(s, ByOffer), sources)
  }

  function RoleOf(c: Candidate, p: Parts, representatives: seq<Candidate>, selected: seq<Candidate>,
                  direct: bool): Role {
    if c in p.eligible then
      if c in selected then (if direct then USED_DIRECT else USED_MEDIAN)
      else if c in representatives then CONSIDERED_NOT_SELECTED
      else SOURCE_CANDIDATE
    else if c in p.rejected then REJECTED_UNAPPROVED
    else DUPLICATE
  }

  function LinkFor(c: Candidate, p: Parts, sources: Sources, policy: Policy): Link {
    var r := Representatives(p.eligible);
    Link(c, RoleOf(c, p, r, Selected(r, sources, policy), UsesDirect(r, sources, policy)))
  }

  function Linked(p: Parts): seq<Candidate> {
    p.eligible + p.duplicates + p.rejected
  }

  function LinksOf(p: Parts, sources: Sources, policy: Policy): (r: seq<Link>)
    ensures |r| == |Linked(p)|
    ensures forall k :: 0 <= k < |r| ==> r[k] == LinkFor(Linked(p)[k], p, sources, policy)
  {
    seq(|Linked(p)|, k requires 0 <= k < |Linked(p)| => LinkFor(Linked(p)[k], p, sources, policy))
  }

  predicate IsUsed(role: Role) {
    role == USED_DIRECT || role == USED_MEDIAN
  }

  ghost predicate DistinctRows(s: seq<Candidate>) {
    forall i, j :: 0 <= i < j < |s| ==> s[i].row != s[j].row
  }

  /** Every candidate is linked, exactly once. */
  lemma EveryCandidateLinked(s: seq<Candidate>, sources: Sources)
    ensures multiset(Linked(PartsOf(s, sources))) == multiset(s)
  {
    SplitPartitions(Sort(s, ByOffer), sources);
    SortPermutes(s, ByOffer);
    hide Sort, Split, Offered;
  }

  lemma {:induction false} OneOfEach(s: seq<Candidate>, c: Candidate)
    requires DistinctRows(s)
    ensures multiset(s)[c] <= 1
  {
    if s != [] {
      var head := s[..|s| - 1];
      OneOfEach(head, c);
      assert s == head + [s[|s| - 1]];
      forall i | 0 <= i < |head|
        ensures head[i] != s[|s| - 1]
      {
        assert s[i].row != s[|s| - 1].row;
      }
      assert s[|s| - 1] !in multiset(head);
    }
  }

  /** The three parts share no candidate. */
  lemma PartsDisjoint(s: seq<Candidate>, sources: Sources, c: Candidate)
    requires DistinctRows(s)
    ensures var p := PartsOf(s, sources);
            && !(c in p.eligible && c in p.duplicates)
            && !(c in p.eligible && c in p.rejected)
            && !(c in p.duplicates && c in p.rejected)
  {
    var p := PartsOf(s, sources);
    SplitPartitions(Sort(s, ByOffer), sources);
    SortPermutes(s, ByOffer);
    OneOfEach(s, c);
    hide Sort, Split, Offered, DistinctRows, DistinctOffers;
    assert multiset(p.eligible)[c] + multiset(p.duplicates)[c] + multiset(p.rejected)[c] <= 1;
  }

  /** Roles: the used links are exactly the selected representatives, all cheapest offers of their
      sources; a rejected link is one of an unapproved source; a group with an eligible candidate uses
      at least one, and uses direct sources alone as soon as one of them quoted, if the policy says so. */
  lemma RolesAreRight(s: seq<Candidate>, sources: Sources, policy: Policy, c: Candidate)
    requires DistinctRows(s) && c in s
    ensures var p, r := PartsOf(s, sources), RepresentativesOf(s, sources);
            var role := LinkFor(c, p, sources, policy).role;
            && (IsUsed(role) <==> c in Selected(r, sources, policy))
            && (role == REJECTED_UNAPPROVED <==> !Approved(sources, c.source))
            && (role == DUPLICATE <==> c in p.duplicates)
            && (role == USED_DIRECT ==> sources[c.source].direct)
            && (role == CONSIDERED_NOT_SELECTED ==> c in r && policy == DIRECT_THEN_MEDIAN && !sources[c.source].direct)
  {
    var p := PartsOf(s, sources);
    SplitPartitions(Sort(s, ByOffer), sources);
    PartsDisjoint(s, sources, c);
    RepresentativesAre(s, sources);
    InSomePart(s, sources, c);
    assert p == Split(Sort(s, ByOffer), sources) && RepresentativesOf(s, sources) == Representatives(p.eligible);
    hide Sort, Split, Offered, DistinctRows, DistinctOffers, Representatives, Offers, CheapestOffer, Approved,
         LinkFor, Selected, PartsOf, RepresentativesOf, Ascending;
    RoleCases(c, p, sources, policy);
  }

  lemma RoleCases(c: Candidate, p: Parts, sources: Sources, policy: Policy)
    requires forall d :: d in Representatives(p.eligible) ==> d in p.eligible
    requires c in p.eligible ==> Approved(sources, c.source)
    requires c in p.duplicates ==> Approved(sources, c.source)
    requires c in p.rejected ==> !Approved(sources, c.source)
    requires c in p.eligible || c in p.duplicates || c in p.rejected
    requires !(c in p.eligible && c in p.duplicates)
    ensures var r, role := Representatives(p.eligible), LinkFor(c, p, sources, policy).role;
            && (IsUsed(role) <==> c in Selected(r, sources, policy))
            && (role == REJECTED_UNAPPROVED <==> !Approved(sources, c.source))
            && (role == DUPLICATE <==> c in p.duplicates)
            && (role == USED_DIRECT ==> sources[c.source].direct)
            && (role == CONSIDERED_NOT_SELECTED ==> c in r && policy == DIRECT_THEN_MEDIAN && !sources[c.source].direct)
  {
    DirectAreRows(Representatives(p.eligible), sources);
    hide Representatives, DirectRows;
  }

  lemma InSomePart(s: seq<Candidate>, sources: Sources, c: Candidate)
    requires c in s
    ensures var p := PartsOf(s, sources); c in p.eligible || c in p.duplicates || c in p.rejected
  {
    var p := PartsOf(s, sources);
    EveryCandidateLinked(s, sources);
    SameMembers(s, Linked(p));
    hide PartsOf;
    assert c in Linked(p);
  }

  /** At least one link is used, unless every source is unapproved. */
  lemma SomeLinkUsed(s: seq<Candidate>, sources: Sources, policy: Policy)
    requires DistinctRows(s) && PartsOf(s, sources).eligible != []
    ensures exists k :: 0 <= k < |LinksOf(PartsOf(s, sources), sources, policy)|
                        && IsUsed(LinksOf(PartsOf(s, sources), sources, policy)[k].role)
  {
    var p := PartsOf(s, sources);
    SelectedFromEligible(p.eligible, sources, policy);
    var c := Selected(Representatives(p.eligible), sources, policy)[0];
    assert RepresentativesOf(s, sources) == Representatives(p.eligible);
    hide PartsOf, Representatives, RepresentativesOf, Selected, DistinctRows, Linked, LinkFor, CheapestOffer, Ascending;
    RepresentativesAre(s, sources);
    EveryCandidateLinked(s, sources);
    SameMembers(s, Linked(p));
    RolesAreRight(s, sources, policy, c);
    var k :| 0 <= k < |Linked(p)| && Linked(p)[k] == c;
    assert LinksOf(p, sources, policy)[k] == LinkFor(c, p, sources, policy);
  }

  lemma SelectedFromEligible(eligible: seq<Candidate>, sources: Sources, policy: Policy)
    requires eligible != []
    ensures var r := Representatives(eligible);
            var selected := Selected(r, sources, policy);
            && selected != [] && selected[0] in selected && selected[0] in r
  {
    var r := Representatives(eligible);
    SourcesQuote(eligible);
    assert Quotes(eligible, eligible[0].source);
    DirectAreRows(r, sources);
    assert Selected(r, sources, policy)[0] in Selected(r, sources, policy);
    hide Representatives, DirectRows, SourcesIn;
  }

  /** Without any approved source there is nothing eligible, nor any duplicate. */
  lemma NothingEligible(s: seq<Candidate>, sources: Sources)
    ensures var p := PartsOf(s, sources);
            && (p.eligible == [] <==> forall c :: c in s ==> !Approved(sources, c.source))
            && (p.eligible == [] ==> p.duplicates == [])
            && (p.eligible == [] <==> RepresentativesOf(s, sources) == [])
  {
    var p := PartsOf(s, sources);
    SplitPartitions(Sort(s, ByOffer), sources);
    SortPermutes(s, ByOffer);
    SameMembers(s, Sort(s, ByOffer));
    SplitMembers(Sort(s, ByOffer), sources);
    SourcesQuote(p.eligible);
    assert p.eligible != [] ==> p.eligible[0] in p.eligible && Quotes(p.eligible, p.eligible[0].source);
    assert p.duplicates != [] ==> p.duplicates[0] in p.duplicates;
    hide Sort, Split, DistinctOffers;
  }
}
