/** What a canonical fare publishes (`services/canonical.py`), said of the observation table itself: the
    median of the cheapest offers of the direct sources, when the policy asks for them and there are
    any, and of all approved sources otherwise. */
module CanonicalFareRule {
  import opened Aggregates
  import opened Domain
  import opened Options
  import opened Observations
  import opened Canonical
  import opened CanonicalRun
  import Medians
  import Rounding

  // ---------------------------------------------------------------------------------------------
  // The rule

  /** The included, complete observations of one flight, fare class and currency. */
  ghost predicate QuotedUnder(o: Observation, key: Key) {
    && o.included && o.fare.Some?
    && o.route == key.route && o.window == key.window && o.identity == Some(key.identity)
    && o.cabin == Some(key.cabin) && o.fareClass == Some(key.fareClass) && o.currency == Some(key.currency)
  }

  /** No other quote of the same source is cheaper than row `i`. */
  ghost predicate CheapestRow(table: seq<Observation>, key: Key, i: nat) {
    && i < |table| && QuotedUnder(table[i], key)
    && forall j: nat :: j < |table| && QuotedUnder(table[j], key) && table[j].source == table[i].source ==>
         table[i].fare.value <= table[j].fare.value
  }

  /** The least fare of each approved source. */
  ghost function ApprovedOffers(table: seq<Observation>, key: Key, sources: Sources): set<Offer> {
    set i: nat | i < |table| && CheapestRow(table, key, i)
                 && table[i].source in sources && sources[table[i].source].approved
      :: Offer(table[i].source, table[i].fare.value)
  }

  ghost function DirectOffers(offers: set<Offer>, sources: Sources): set<Offer> {
    set o | o in offers && o.source in sources && sources[o.source].direct
  }

  ghost predicate TakesDirect(offers: set<Offer>, sources: Sources, policy: Policy) {
    policy == DIRECT_THEN_MEDIAN && DirectOffers(offers, sources) != {}
  }

  ghost function ChosenOffers(offers: set<Offer>, sources: Sources, policy: Policy): set<Offer> {
    if TakesDirect(offers, sources, policy) then DirectOffers(offers, sources) else offers
  }

  ghost function FareOf(): Offer -> real {
    (o: Offer) => o.fare as real
  }

  /** The published fare is the median of the chosen offers, rounded half to even: one of them when their
      number is odd, and always with at least half of them on either side. */
  ghost predicate PublishesMedian(fare: int, chosen: set<Offer>) {
    && (exists m :: Medians.MedianOf(chosen, FareOf(), m) && fare == Rounding.HalfEven(m))
    && (|chosen| % 2 == 1 ==> exists o :: o in chosen && o.fare == fare)
    && 2 * |Medians.UpTo(chosen, FareOf(), fare as real)| >= |chosen|
    && 2 * |Medians.UpFrom(chosen, FareOf(), fare as real)| >= |chosen|
  }

  /** `lo` and `hi` are the least and the greatest fare of the offers. */
  ghost predicate Spans(lo: int, hi: int, offers: set<Offer>) {
    && (exists o :: o in offers && o.fare == lo) && (exists o :: o in offers && o.fare == hi)
    && forall o :: o in offers ==> lo <= o.fare <= hi
  }

  ghost predicate Publishes(st: Statistics, offers: set<Offer>, sources: Sources, policy: Policy) {
    && offers != {}
    && PublishesMedian(st.representative, ChosenOffers(offers, sources, policy))
    && Spans(st.minimum, st.maximum, offers) && st.dispersion == st.maximum - st.minimum
    && st.sourceCount == |offers|
    && (st.conflict <==> exists a, b :: a in offers && b in offers && a.fare != b.fare)
    && (st.direct <==> TakesDirect(offers, sources, policy))
  }

  /** The sources whose links say that their fare was used, as direct ones when `direct`. */
  ghost function UsedIn(links: seq<Link>, direct: bool): set<int> {
    set k | 0 <= k < |links| && links[k].role == (if direct then USED_DIRECT else USED_MEDIAN)
      :: links[k].candidate.source
  }

  ghost function SourcesOf(offers: set<Offer>): set<int> {
    set o | o in offers :: o.source
  }

  /** The links mark the sources of the chosen offers as used, in the one way the statistics state. */
  ghost predicate Marks(links: seq<Link>, offers: set<Offer>, sources: Sources, policy: Policy) {
    var direct := TakesDirect(offers, sources, policy);
    UsedIn(links, direct) == SourcesOf(ChosenOffers(offers, sources, policy)) && UsedIn(links, !direct) == {}
  }

  /** One canonical fare for every flight some approved source quotes, and for no other, each publishing
      its own offers and marking those it used. */
  ghost predicate FaresAre(table: seq<Observation>, fares: seq<CanonicalFare>, sources: Sources, policy: Policy) {
    && (forall k :: 0 <= k < |fares| ==>
          && Publishes(fares[k].statistics, ApprovedOffers(table, fares[k].key, sources), sources, policy)
          && Marks(fares[k].links, ApprovedOffers(table, fares[k].key, sources), sources, policy))
    && (forall j, k :: 0 <= j < k < |fares| ==> fares[j].key != fares[k].key)
    && (forall key :: ApprovedOffers(table, key, sources) != {} ==>
          exists k :: 0 <= k < |fares| && fares[k].key == key)
  }

  // ---------------------------------------------------------------------------------------------
  // The median of a list of fares

  ghost function FareAt(s: seq<int>): nat -> real {
    (i: nat) => if i < |s| then s[i] as real else 0.0
  }

  /** The positions of a list of `n` values. */
  ghost function Positions(n: nat): (r: seq<nat>)
    ensures |r| == n && forall i :: 0 <= i < n ==> r[i] == i
  {
    seq(n, i requires 0 <= i < n => i)
  }

  /** `_median` returns the median of the listed fares, half to even when it is half a paisa. */
  lemma MedianFareIs(fares: seq<int>)
    requires fares != []
    ensures exists m :: Medians.MedianOf(Medians.SetOf(Positions(|fares|)), FareAt(fares), m)
                        && MedianFare(fares) == Rounding.HalfEven(m)
  {
    var keys := Positions(|fares|);
    assert Medians.ValuesOf(Reals(fares), keys, FareAt(fares));
    MedianFareStep(fares);
    hide *;
    Medians.MedianIsMiddle(Reals(fares), keys, FareAt(fares));
  }

  lemma MedianFareStep(fares: seq<int>)
    requires fares != []
    ensures Reals(fares) != [] && MedianFare(fares) == Rounding.HalfEven(Medians.Median(Reals(fares)))
  {
  }

  // ---------------------------------------------------------------------------------------------
  // The median of a set of offers

  lemma {:induction false} DirectAscend(rows: seq<Candidate>, sources: Sources)
    requires Ascending(Offers(rows))
    ensures Ascending(Offers(DirectRows(rows, sources)))
    ensures forall o :: o in Offers(DirectRows(rows, sources)) <==>
                        o in Offers(rows) && o.source in sources && sources[o.source].direct
  {
    if rows != [] {
      var n := |rows| - 1;
      var last := Offer(rows[n].source, rows[n].fare);
      var head := Offers(DirectRows(rows[..n], sources));
      OffersStep(rows);
      AscendingHead(Offers(rows[..n]), last);
      DirectAscend(rows[..n], sources);
      DirectStep(rows, sources);
      hide *;
      if last.source in sources && sources[last.source].direct {
        assert forall i :: 0 <= i < |head| ==> head[i] in head;
        AscendingTake(Offers(rows[..n]), head, last);
      } else {
        assert head + [] == head;
      }
    }
  }

  lemma OffersStep(rows: seq<Candidate>)
    requires rows != []
    ensures var n := |rows| - 1; Offers(rows) == Offers(rows[..n]) + [Offer(rows[n].source, rows[n].fare)]
  {
  }

  lemma OffersAppend(rows: seq<Candidate>, c: Candidate)
    ensures Offers(rows + [c]) == Offers(rows) + [Offer(c.source, c.fare)]
  {
  }

  lemma DirectStep(rows: seq<Candidate>, sources: Sources)
    requires rows != []
    ensures var n := |rows| - 1;
            var last := Offer(rows[n].source, rows[n].fare);
            Offers(DirectRows(rows, sources))
              == Offers(DirectRows(rows[..n], sources))
                 + (if last.source in sources && sources[last.source].direct then [last] else [])
  {
    var n := |rows| - 1;
    var head := DirectRows(rows[..n], sources);
    OffersAppend(head, rows[n]);
    assert head + [] == head && Offers(head) + [] == Offers(head);
    hide Offers;
  }

  lemma AscendingHead(head: seq<Offer>, last: Offer)
    requires Ascending(head + [last])
    ensures Ascending(head) && forall o :: o in head ==> o.source < last.source
  {
    var all := head + [last];
    assert forall i :: 0 <= i < |head| ==> all[i] == head[i];
    assert all[|head|] == last;
  }

  lemma AscendingTake(all: seq<Offer>, head: seq<Offer>, last: Offer)
    requires Ascending(head) && (forall o :: o in head ==> o in all) && forall o :: o in all ==> o.source < last.source
    ensures Ascending(head + [last])
  {
  }

  lemma AscendingDistinct(offers: seq<Offer>)
    requires Ascending(offers)
    ensures forall i, j :: 0 <= i < j < |offers| ==> offers[i] != offers[j]
  {
  }

  lemma RowsGiveValues(rows: seq<Candidate>)
    requires Ascending(Offers(rows))
    ensures Medians.ValuesOf(Reals(Fares(rows)), Offers(rows), FareOf())
  {
    AscendingDistinct(Offers(rows));
  }

  /** The rounded median of rows that are one per source. */
  lemma RowsPublish(rows: seq<Candidate>)
    requires rows != [] && Ascending(Offers(rows))
    ensures Medians.MedianOf(Medians.SetOf(Offers(rows)), FareOf(), Medians.Median(Reals(Fares(rows))))
    ensures PublishesMedian(MedianFare(Fares(rows)), Medians.SetOf(Offers(rows)))
  {
    var keys, values := Offers(rows), Reals(Fares(rows));
    var m := Medians.Median(values);
    RowsGiveValues(rows);
    MedianFareStep(Fares(rows));
    hide *;
    Medians.MedianIsMiddle(values, keys, FareOf());
    RoundedMedian(Medians.SetOf(keys), m);
  }

  lemma MiddleIsFare(chosen: set<Offer>, k: int, x: real) returns (o: Offer)
    requires Medians.RankedAt(chosen, FareOf(), k, x)
    ensures o in chosen && o.fare as real == x
  {
    o :| o in chosen && FareOf()(o) == x;
  }

  /** Rounding keeps a median between its two middle fares. */
  lemma RoundedMedian(chosen: set<Offer>, m: real)
    requires Medians.MedianOf(chosen, FareOf(), m)
    ensures PublishesMedian(Rounding.HalfEven(m), chosen)
  {
    hide Medians.RankedAt, FareOf, Medians.UpTo, Medians.UpFrom, Medians.Below, Rounding.HalfEven;
    var lo, hi :| Medians.Middles(chosen, FareOf(), lo, hi) && m == (lo + hi) / 2.0;
    var fare, n := Rounding.HalfEven(m), |chosen|;
    var a := MiddleIsFare(chosen, (n - 1) / 2, lo);
    var b := MiddleIsFare(chosen, n / 2, hi);
    Medians.RankBetween(chosen, FareOf(), lo, hi);
    Rounding.HalfEvenWithin(m, a.fare, b.fare);
    Medians.RankSides(chosen, FareOf(), (n - 1) / 2, lo, fare as real);
    Medians.RankSides(chosen, FareOf(), n / 2, hi, fare as real);
    Medians.SidesComplement(chosen, FareOf(), fare as real);
    if n % 2 == 1 {
      Medians.RankUnique(chosen, FareOf(), n / 2, lo, hi);
    }
  }

  // ---------------------------------------------------------------------------------------------
  // The statistics of a group

  lemma OffersCount(offers: seq<Offer>)
    requires Ascending(offers)
    ensures |Medians.SetOf(offers)| == |offers|
  {
    var values := seq(|offers|, i requires 0 <= i < |offers| => FareOf()(offers[i]));
    AscendingDistinct(offers);
    Medians.SetOfCount(values, offers, FareOf());
  }

  lemma OfferAt(rows: seq<Candidate>, k: nat)
    requires k < |rows|
    ensures |Fares(rows)| == |rows| == |Offers(rows)|
    ensures Offers(rows)[k] in Medians.SetOf(Offers(rows)) && Offers(rows)[k].fare == Fares(rows)[k]
  {
    hide Fares, Offers;
  }

  lemma OfferPlace(rows: seq<Candidate>, o: Offer) returns (k: nat)
    requires o in Medians.SetOf(Offers(rows))
    ensures k < |rows| == |Fares(rows)| && Fares(rows)[k] == o.fare
  {
    k :| 0 <= k < |Offers(rows)| && Offers(rows)[k] == o;
    hide Fares, Offers;
  }

  lemma OfferWith(rows: seq<Candidate>, fare: int) returns (o: Offer)
    requires fare in Fares(rows)
    ensures o in Medians.SetOf(Offers(rows)) && o.fare == fare
  {
    var k :| 0 <= k < |Fares(rows)| && Fares(rows)[k] == fare;
    OfferAt(rows, k);
    o := Offers(rows)[k];
    hide Fares, Offers, Medians.SetOf;
  }

  lemma RowsSpan(rows: seq<Candidate>)
    requires rows != []
    ensures Spans(Least(Fares(rows)), Greatest(Fares(rows)), Medians.SetOf(Offers(rows)))
  {
    var fares := Fares(rows);
    LeastIsLeast(fares);
    GreatestIsGreatest(fares);
    hide Fares, Offers, Least, Greatest, Medians.SetOf;
    var a := OfferWith(rows, Least(fares));
    var b := OfferWith(rows, Greatest(fares));
    forall o | o in Medians.SetOf(Offers(rows))
      ensures Least(fares) <= o.fare <= Greatest(fares)
    {
      var k := OfferPlace(rows, o);
      assert fares[k] in fares;
    }
  }

  lemma RowsDisagree(rows: seq<Candidate>)
    ensures Disagree(Fares(rows)) <==>
            exists a, b :: a in Medians.SetOf(Offers(rows)) && b in Medians.SetOf(Offers(rows)) && a.fare != b.fare
  {
    var fares, offers := Fares(rows), Medians.SetOf(Offers(rows));
    hide Fares, Offers, Medians.SetOf;
    if Disagree(fares) {
      var i, j :| 0 <= i < j < |fares| && fares[i] != fares[j];
      OfferAt(rows, i);
      OfferAt(rows, j);
    }
    if a, b :| a in offers && b in offers && a.fare != b.fare {
      var i := OfferPlace(rows, a);
      var j := OfferPlace(rows, b);
      assert fares[i] != fares[j];
    }
  }

  /** The statistics of representatives that are one per source. */
  lemma StatisticsPublish(rows: seq<Candidate>, sources: Sources, policy: Policy)
    requires rows != [] && Ascending(Offers(rows))
    ensures Publishes(StatisticsOf(rows, sources, policy), Medians.SetOf(Offers(rows)), sources, policy)
  {
    var offers, selected := Medians.SetOf(Offers(rows)), Selected(rows, sources, policy);
    RowsSpan(rows);
    RowsDisagree(rows);
    OffersCount(Offers(rows));
    SelectedAreChosen(rows, sources, policy);
    StatisticsAre(rows, sources, policy);
    assert Offers(rows)[0] in offers;
    hide *;
    RowsPublish(selected);
    PublishesIs(StatisticsOf(rows, sources, policy), offers, sources, policy);
  }

  lemma StatisticsAre(rows: seq<Candidate>, sources: Sources, policy: Policy)
    requires rows != []
    ensures var st, all := StatisticsOf(rows, sources, policy), Fares(rows);
            && all != [] && Selected(rows, sources, policy) != [] && Fares(Selected(rows, sources, policy)) != []
            && st.representative == MedianFare(Fares(Selected(rows, sources, policy)))
            && st.minimum == Least(all) && st.maximum == Greatest(all) && st.dispersion == st.maximum - st.minimum
            && st.sourceCount == |rows| && st.conflict == Disagree(all)
            && st.direct == UsesDirect(rows, sources, policy) && |Offers(rows)| == |rows|
  {
    hide MedianFare, Fares, DirectRows, Least, Greatest, Disagree;
  }

  lemma SelectedAreChosen(rows: seq<Candidate>, sources: Sources, policy: Policy)
    requires Ascending(Offers(rows))
    ensures var offers := Medians.SetOf(Offers(rows));
            && (UsesDirect(rows, sources, policy) <==> TakesDirect(offers, sources, policy))
            && Ascending(Offers(Selected(rows, sources, policy)))
            && Medians.SetOf(Offers(Selected(rows, sources, policy))) == ChosenOffers(offers, sources, policy)
  {
    var offers, direct := Medians.SetOf(Offers(rows)), DirectRows(rows, sources);
    DirectAscend(rows, sources);
    hide *;
    DirectMembers(Offers(direct), Offers(rows), sources);
    NoneOffered(direct);
    SelectedIs(rows, sources, policy);
    ChosenIs(offers, sources, policy);
  }

  lemma SelectedIs(rows: seq<Candidate>, sources: Sources, policy: Policy)
    ensures UsesDirect(rows, sources, policy) <==> policy == DIRECT_THEN_MEDIAN && DirectRows(rows, sources) != []
    ensures Selected(rows, sources, policy)
            == if UsesDirect(rows, sources, policy) then DirectRows(rows, sources) else rows
  {
    hide DirectRows;
  }

  lemma ChosenIs(offers: set<Offer>, sources: Sources, policy: Policy)
    ensures TakesDirect(offers, sources, policy)
            <==> policy == DIRECT_THEN_MEDIAN && DirectOffers(offers, sources) != {}
    ensures ChosenOffers(offers, sources, policy)
            == if TakesDirect(offers, sources, policy) then DirectOffers(offers, sources) else offers
  {
    hide DirectOffers;
  }

  lemma DirectMembers(direct: seq<Offer>, all: seq<Offer>, sources: Sources)
    requires forall o :: o in direct <==> o in all && o.source in sources && sources[o.source].direct
    ensures Medians.SetOf(direct) == DirectOffers(Medians.SetOf(all), sources)
  {
  }

  lemma NoneOffered(rows: seq<Candidate>)
    ensures rows == [] <==> Medians.SetOf(Offers(rows)) == {}
  {
    if rows == [] {
      assert Offers(rows) == [];
    } else {
      OfferAt(rows, 0);
    }
    hide Offers;
  }

  lemma PublishesIs(st: Statistics, offers: set<Offer>, sources: Sources, policy: Policy)
    requires offers != {} && PublishesMedian(st.representative, ChosenOffers(offers, sources, policy))
    requires Spans(st.minimum, st.maximum, offers) && st.dispersion == st.maximum - st.minimum
    requires st.sourceCount == |offers|
    requires st.conflict <==> exists a, b :: a in offers && b in offers && a.fare != b.fare
    requires st.direct <==> TakesDirect(offers, sources, policy)
    ensures Publishes(st, offers, sources, policy)
  {
    hide PublishesMedian, Spans, TakesDirect, ChosenOffers;
  }

  // ---------------------------------------------------------------------------------------------
  // From the table to the group

  lemma KeyMeansQuoted(o: Observation, key: Key)
    ensures KeyOf(o) == Some(key) <==> QuotedUnder(o, key)
  {
  }

  lemma MemberQuotes(table: seq<Observation>, key: Key, c: Candidate)
    ensures c in Members(table, key) <==>
            c.row < |table| && QuotedUnder(table[c.row], key) && c == CandidateAt(table, c.row)
  {
    var members := Members(table, key);
    MembersAre(table, key);
    hide Members, KeyOf, CandidateAt, DistinctRows, QuotedUnder;
    if c.row < |table| {
      KeyMeansQuoted(table[c.row], key);
      if QuotedUnder(table[c.row], key) && c == CandidateAt(table, c.row) {
        assert Has(members, c.row);
        var k :| 0 <= k < |members| && members[k].row == c.row;
        assert members[k] == c;
      }
    }
  }

  lemma QuoteIsMember(table: seq<Observation>, key: Key, i: nat) returns (c: Candidate)
    requires i < |table| && QuotedUnder(table[i], key)
    ensures c in Members(table, key) && c.row == i && c.source == table[i].source && c.fare == table[i].fare.value
  {
    c := CandidateAt(table, i);
    MemberQuotes(table, key, c);
    hide Members;
  }

  lemma MemberIsQuote(table: seq<Observation>, key: Key, c: Candidate)
    requires c in Members(table, key)
    ensures c.row < |table| && QuotedUnder(table[c.row], key)
    ensures c.source == table[c.row].source && c.fare == table[c.row].fare.value
  {
    MemberQuotes(table, key, c);
    hide Members;
  }

  lemma OfferOfRow(table: seq<Observation>, key: Key, sources: Sources, i: nat)
    requires i < |table| && CheapestRow(table, key, i)
    requires table[i].source in sources && sources[table[i].source].approved
    ensures CheapestOffer(Members(table, key), sources, Offer(table[i].source, table[i].fare.value))
  {
    var members := Members(table, key);
    var c := QuoteIsMember(table, key, i);
    hide Members, QuotedUnder;
    OfferedMember(members, c);
    forall d | d in members && d.source == table[i].source
      ensures table[i].fare.value <= d.fare
    {
      MemberIsQuote(table, key, d);
    }
  }

  lemma RowOfOffer(table: seq<Observation>, key: Key, sources: Sources, offer: Offer)
    requires CheapestOffer(Members(table, key), sources, offer)
    ensures offer in ApprovedOffers(table, key, sources)
  {
    var members := Members(table, key);
    var k :| 0 <= k < |members| && members[k].source == offer.source && members[k].fare == offer.fare;
    var c := members[k];
    assert c in members;
    MemberIsQuote(table, key, c);
    hide Members, QuotedUnder;
    forall j: nat | j < |table| && QuotedUnder(table[j], key) && table[j].source == table[c.row].source
      ensures table[c.row].fare.value <= table[j].fare.value
    {
      var d := QuoteIsMember(table, key, j);
    }
    assert CheapestRow(table, key, c.row);
  }

  lemma RowBehind(table: seq<Observation>, key: Key, sources: Sources, offer: Offer) returns (i: nat)
    requires offer in ApprovedOffers(table, key, sources)
    ensures i < |table| && CheapestRow(table, key, i) && table[i].fare.Some?
    ensures table[i].source in sources && sources[table[i].source].approved
    ensures offer == Offer(table[i].source, table[i].fare.value)
  {
    i :| i < |table| && CheapestRow(table, key, i)
         && table[i].source in sources && sources[table[i].source].approved
         && offer == Offer(table[i].source, table[i].fare.value);
  }

  lemma OffersAreApproved(table: seq<Observation>, key: Key, sources: Sources)
    ensures Medians.SetOf(Offers(RepresentativesOf(Members(table, key), sources)))
            == ApprovedOffers(table, key, sources)
    ensures Ascending(Offers(RepresentativesOf(Members(table, key), sources)))
  {
    var members := Members(table, key);
    RepresentativesAre(members, sources);
    hide Members, RepresentativesOf, CheapestOffer, Offers, Ascending, CheapestRow, QuotedUnder;
    forall offer: Offer
      ensures offer in Offers(RepresentativesOf(members, sources)) <==> offer in ApprovedOffers(table, key, sources)
    {
      if offer in ApprovedOffers(table, key, sources) {
        var i := RowBehind(table, key, sources, offer);
        OfferOfRow(table, key, sources, i);
      }
      if CheapestOffer(members, sources, offer) {
        RowOfOffer(table, key, sources, offer);
      }
    }
  }

  // ---------------------------------------------------------------------------------------------
  // The links of a group

  lemma RoleOfLink(members: seq<Candidate>, sources: Sources, policy: Policy, k: nat)
    requires DistinctRows(members)
    requires var p := PartsOf(members, sources); k < |LinksOf(p, sources, policy)|
    ensures var p, r := PartsOf(members, sources), RepresentativesOf(members, sources);
            var link := LinksOf(p, sources, policy)[k];
            && link.candidate in members
            && (link.role == USED_DIRECT <==>
                link.candidate in Selected(r, sources, policy) && UsesDirect(r, sources, policy))
            && (link.role == USED_MEDIAN <==>
                link.candidate in Selected(r, sources, policy) && !UsesDirect(r, sources, policy))
  {
    var p := PartsOf(members, sources);
    EveryCandidateLinked(members, sources);
    var c := Linked(p)[k];
    assert c in multiset(Linked(p)) && c in multiset(members);
    RolesAreRight(members, sources, policy, c);
    assert RepresentativesOf(members, sources) == Representatives(p.eligible);
    assert LinksOf(p, sources, policy)[k] == LinkFor(c, p, sources, policy);
    hide PartsOf, Representatives, RepresentativesOf, Selected, UsesDirect, DistinctRows, Linked;
  }

  /** Every selected row has its link. */
  lemma LinkOfSelected(members: seq<Candidate>, sources: Sources, policy: Policy, c: Candidate) returns (k: nat)
    requires c in Selected(RepresentativesOf(members, sources), sources, policy)
    ensures var p := PartsOf(members, sources);
            k < |LinksOf(p, sources, policy)| && LinksOf(p, sources, policy)[k].candidate == c
  {
    var p, r := PartsOf(members, sources), RepresentativesOf(members, sources);
    RepresentativesAre(members, sources);
    SelectedIn(r, sources, policy, c);
    EveryCandidateLinked(members, sources);
    hide *;
    assert c in multiset(members) && c in multiset(Linked(p));
    k :| 0 <= k < |Linked(p)| && Linked(p)[k] == c;
    assert LinksOf(p, sources, policy)[k] == LinkFor(c, p, sources, policy);
    LinkIsOf(c, p, sources, policy);
  }

  lemma SelectedIn(rows: seq<Candidate>, sources: Sources, policy: Policy, c: Candidate)
    requires c in Selected(rows, sources, policy)
    ensures c in rows
  {
    DirectAreRows(rows, sources);
    hide DirectRows, UsesDirect;
  }

  lemma LinkIsOf(c: Candidate, p: Parts, sources: Sources, policy: Policy)
    ensures LinkFor(c, p, sources, policy).candidate == c
  {
    hide Representatives, Selected, UsesDirect, RoleOf;
  }

  lemma OfferOfSelected(rows: seq<Candidate>, source: int)
    ensures source in SourcesOf(Medians.SetOf(Offers(rows))) <==> exists c :: c in rows && c.source == source
  {
    if source in SourcesOf(Medians.SetOf(Offers(rows))) {
      var o :| o in Offers(rows) && o.source == source;
      var k :| 0 <= k < |Offers(rows)| && Offers(rows)[k] == o;
      assert rows[k] in rows;
    }
    if c :| c in rows && c.source == source {
      var k :| 0 <= k < |rows| && rows[k] == c;
      assert Offers(rows)[k] in Offers(rows);
    }
  }

  lemma GroupMarks(table: seq<Observation>, key: Key, sources: Sources, policy: Policy)
    ensures var members := Members(table, key);
            Marks(LinksOf(PartsOf(members, sources), sources, policy), ApprovedOffers(table, key, sources), sources,
                  policy)
  {
    var members := Members(table, key);
    var r := RepresentativesOf(members, sources);
    var offers, direct := ApprovedOffers(table, key, sources), UsesDirect(r, sources, policy);
    var selected := Selected(r, sources, policy);
    var links := LinksOf(PartsOf(members, sources), sources, policy);
    MembersAre(table, key);
    OffersAreApproved(table, key, sources);
    SelectedAreChosen(r, sources, policy);
    hide *;
    forall k: nat | k < |links|
      ensures links[k].role == USED_DIRECT <==> links[k].candidate in selected && direct
      ensures links[k].role == USED_MEDIAN <==> links[k].candidate in selected && !direct
    {
      RoleOfLink(members, sources, policy, k);
    }
    forall source
      ensures source in UsedIn(links, direct) <==> source in SourcesOf(ChosenOffers(offers, sources, policy))
    {
      OfferOfSelected(selected, source);
      UsedInIs(links, direct, source);
      if c :| c in selected && c.source == source {
        var k := LinkOfSelected(members, sources, policy, c);
        assert links[k].candidate == c;
      }
    }
    NoneUsed(links, !direct);
    SameSet(UsedIn(links, direct), SourcesOf(ChosenOffers(offers, sources, policy)));
    MarksIs(links, offers, sources, policy);
  }

  lemma UsedInIs(links: seq<Link>, direct: bool, source: int)
    ensures source in UsedIn(links, direct) <==>
            exists k :: 0 <= k < |links| && links[k].role == (if direct then USED_DIRECT else USED_MEDIAN)
                        && links[k].candidate.source == source
  {
  }

  lemma NoneUsed(links: seq<Link>, direct: bool)
    requires forall k :: 0 <= k < |links| ==> links[k].role != (if direct then USED_DIRECT else USED_MEDIAN)
    ensures UsedIn(links, direct) == {}
  {
  }

  lemma SameSet<T>(a: set<T>, b: set<T>)
    requires forall x: T :: x in a <==> x in b
    ensures a == b
  {
    assert a <= b && b <= a;
  }

  lemma MarksIs(links: seq<Link>, offers: set<Offer>, sources: Sources, policy: Policy)
    requires UsedIn(links, TakesDirect(offers, sources, policy)) == SourcesOf(ChosenOffers(offers, sources, policy))
    requires UsedIn(links, !TakesDirect(offers, sources, policy)) == {}
    ensures Marks(links, offers, sources, policy)
  {
    hide UsedIn, TakesDirect, ChosenOffers, SourcesOf;
  }

  lemma GroupPublishes(table: seq<Observation>, key: Key, sources: Sources, policy: Policy)
    ensures var r := Representatives(PartsOf(Members(table, key), sources).eligible);
            && (r == [] <==> ApprovedOffers(table, key, sources) == {})
            && (r != [] ==>
                  Publishes(StatisticsOf(r, sources, policy), ApprovedOffers(table, key, sources), sources, policy))
  {
    var members := Members(table, key);
    var r := Representatives(PartsOf(members, sources).eligible);
    assert RepresentativesOf(members, sources) == r;
    OffersAreApproved(table, key, sources);
    assert |Offers(r)| == |r| && (r != [] ==> Offers(r)[0] in Offers(r));
    hide *;
    if r != [] {
      StatisticsPublish(r, sources, policy);
    }
  }

  // ---------------------------------------------------------------------------------------------
  // The whole run

  /** The canonical fares of the first keys: those whose flight has an approved offer. */
  ghost predicate FaresOfKeys(table: seq<Observation>, keys: seq<Key>, fares: seq<CanonicalFare>, sources: Sources,
                              policy: Policy) {
    && (forall k :: 0 <= k < |fares| ==>
          && fares[k].key in keys
          && Publishes(fares[k].statistics, ApprovedOffers(table, fares[k].key, sources), sources, policy)
          && Marks(fares[k].links, ApprovedOffers(table, fares[k].key, sources), sources, policy))
    && (forall j, k :: 0 <= j < k < |fares| ==> fares[j].key != fares[k].key)
    && (forall key :: key in keys && ApprovedOffers(table, key, sources) != {} ==>
          exists k :: 0 <= k < |fares| && fares[k].key == key)
  }

  lemma FaresOfMoreKeys(table: seq<Observation>, keys: seq<Key>, key: Key, fares: seq<CanonicalFare>,
                        sources: Sources, policy: Policy)
    requires FaresOfKeys(table, keys, fares, sources, policy) && ApprovedOffers(table, key, sources) == {}
    ensures FaresOfKeys(table, keys + [key], fares, sources, policy)
  {
    hide Publishes, Marks, ApprovedOffers;
  }

  lemma FaresOfMore(table: seq<Observation>, keys: seq<Key>, fare: CanonicalFare, fares: seq<CanonicalFare>,
                    sources: Sources, policy: Policy)
    requires FaresOfKeys(table, keys, fares, sources, policy) && fare.key !in keys
    requires Publishes(fare.statistics, ApprovedOffers(table, fare.key, sources), sources, policy)
    requires Marks(fare.links, ApprovedOffers(table, fare.key, sources), sources, policy)
    ensures FaresOfKeys(table, keys + [fare.key], fares + [fare], sources, policy)
  {
    hide Publishes, Marks, ApprovedOffers;
    var more := fares + [fare];
    forall key | key in keys + [fare.key] && ApprovedOffers(table, key, sources) != {}
      ensures exists k :: 0 <= k < |more| && more[k].key == key
    {
      if key == fare.key {
        assert more[|fares|].key == key;
      } else {
        var k :| 0 <= k < |fares| && fares[k].key == key;
        assert more[k].key == key;
      }
    }
  }

  lemma AfterKeysStep(table: seq<Observation>, keys: seq<Key>, sources: Sources, policy: Policy)
    requires keys != []
    ensures var n := |keys| - 1;
            var r := Representatives(PartsOf(Members(table, keys[n]), sources).eligible);
            var before, after := AfterKeys(table, keys[..n], sources, policy).fares,
                                 AfterKeys(table, keys, sources, policy).fares;
            && (r == [] ==> after == before)
            && (r != [] ==>
                  && |after| == |before| + 1 && after[..|before|] == before
                  && after[|before|].key == keys[n] && after[|before|].statistics == StatisticsOf(r, sources, policy)
                  && after[|before|].links == LinksOf(PartsOf(Members(table, keys[n]), sources), sources, policy))
  {
    hide Members, PartsOf, Representatives, StatisticsOf, LinksOf, MarkAll;
  }

  /** `after` is `before`, with the fare of the key when its flight has one. */
  ghost predicate AddsFare(table: seq<Observation>, key: Key, before: seq<CanonicalFare>, after: seq<CanonicalFare>,
                           sources: Sources, policy: Policy) {
    if ApprovedOffers(table, key, sources) == {} then after == before
    else
      && |after| == |before| + 1 && after[..|before|] == before
      && var fare := after[|before|];
      && fare.key == key && Publishes(fare.statistics, ApprovedOffers(table, key, sources), sources, policy)
      && Marks(fare.links, ApprovedOffers(table, key, sources), sources, policy)
  }

  lemma KeyAddsFare(table: seq<Observation>, keys: seq<Key>, sources: Sources, policy: Policy)
    requires keys != []
    ensures var n := |keys| - 1;
            AddsFare(table, keys[n], AfterKeys(table, keys[..n], sources, policy).fares,
                     AfterKeys(table, keys, sources, policy).fares, sources, policy)
  {
    AfterKeysStep(table, keys, sources, policy);
    GroupPublishes(table, keys[|keys| - 1], sources, policy);
    GroupMarks(table, keys[|keys| - 1], sources, policy);
    hide AfterKeys, Members, PartsOf, Representatives, StatisticsOf, LinksOf, Publishes, Marks, ApprovedOffers;
  }

  lemma FaresWithKey(table: seq<Observation>, keys: seq<Key>, key: Key, before: seq<CanonicalFare>,
                     after: seq<CanonicalFare>, sources: Sources, policy: Policy)
    requires FaresOfKeys(table, keys, before, sources, policy) && key !in keys
    requires AddsFare(table, key, before, after, sources, policy)
    ensures FaresOfKeys(table, keys + [key], after, sources, policy)
  {
    hide FaresOfKeys, Publishes, Marks, ApprovedOffers;
    if ApprovedOffers(table, key, sources) == {} {
      FaresOfMoreKeys(table, keys, key, before, sources, policy);
    } else {
      assert before + [after[|before|]] == after;
      FaresOfMore(table, keys, after[|before|], before, sources, policy);
    }
  }

  ghost predicate DistinctKeys(keys: seq<Key>) {
    forall i, j :: 0 <= i < j < |keys| ==> keys[i] != keys[j]
  }

  lemma LastKeyNew(keys: seq<Key>)
    requires DistinctKeys(keys) && keys != []
    ensures var n := |keys| - 1; DistinctKeys(keys[..n]) && keys[n] !in keys[..n] && keys[..n] + [keys[n]] == keys
  {
  }

  lemma {:induction false} FaresAfterKeys(table: seq<Observation>, keys: seq<Key>, sources: Sources, policy: Policy)
    requires DistinctKeys(keys)
    ensures FaresOfKeys(table, keys, AfterKeys(table, keys, sources, policy).fares, sources, policy)
  {
    hide *;
    if keys == [] {
      NoKeysNoFares(table, sources, policy);
    } else {
      var n := |keys| - 1;
      LastKeyNew(keys);
      FaresAfterKeys(table, keys[..n], sources, policy);
      KeyAddsFare(table, keys, sources, policy);
      FaresWithKey(table, keys[..n], keys[n], AfterKeys(table, keys[..n], sources, policy).fares,
                   AfterKeys(table, keys, sources, policy).fares, sources, policy);
    }
  }

  lemma NoKeysNoFares(table: seq<Observation>, sources: Sources, policy: Policy)
    ensures FaresOfKeys(table, [], AfterKeys(table, [], sources, policy).fares, sources, policy)
  {
    hide Publishes, Marks, ApprovedOffers;
  }

  lemma OffersHaveKey(table: seq<Observation>, key: Key, sources: Sources)
    requires ApprovedOffers(table, key, sources) != {}
    ensures key in Keys(table)
  {
    var offer :| offer in ApprovedOffers(table, key, sources);
    var i: nat :| i < |table| && CheapestRow(table, key, i) && offer.source == table[i].source;
    KeysAre(table);
    KeyMeansQuoted(table[i], key);
    hide Keys, KeyOf;
  }

  /** What canonicalising a run creates: exactly one fare per flight an approved source quotes, publishing
      the median of the cheapest direct offers under the direct policy when there are any, and of the
      cheapest offers of all approved sources otherwise. */
  lemma CanonicalFaresAre(table: seq<Observation>, sources: Sources, policy: Policy)
    ensures FaresAre(table, Canonicalised(State(table, []), sources, policy).fares, sources, policy)
  {
    var keys := Keys(table);
    KeysAre(table);
    assert DistinctKeys(keys);
    FaresAfterKeys(table, keys, sources, policy);
    CanonicalisedFrom(table, sources, policy);
    hide *;
    forall key | ApprovedOffers(table, key, sources) != {}
      ensures key in keys
    {
      OffersHaveKey(table, key, sources);
    }
    FaresOfAllKeys(table, keys, AfterKeys(table, keys, sources, policy).fares, sources, policy);
  }

  lemma CanonicalisedFrom(table: seq<Observation>, sources: Sources, policy: Policy)
    ensures Canonicalised(State(table, []), sources, policy) == AfterKeys(table, Keys(table), sources, policy)
  {
    hide Keys, AfterKeys;
  }

  lemma FaresOfAllKeys(table: seq<Observation>, keys: seq<Key>, fares: seq<CanonicalFare>, sources: Sources,
                       policy: Policy)
    requires FaresOfKeys(table, keys, fares, sources, policy)
    requires forall key :: ApprovedOffers(table, key, sources) != {} ==> key in keys
    ensures FaresAre(table, fares, sources, policy)
  {
    hide Publishes, Marks, ApprovedOffers;
  }
}
