/** What canonicalising leaves of the observation table (`services/canonical.py`): of every offer of an approved
    source one observation stays included, everything an unapproved source quoted is excluded, and each row
    is marked for its own reason. */
module KeptObservations {
  import opened Domain
  import opened Options
  import opened Observations
  import opened Sorting
  import opened Canonical
  import opened CanonicalRun
  import opened CanonicalFareRule
  import Scores

  // ---------------------------------------------------------------------------------------------
  // The marks

  function WithOne(flags: seq<QualityFlag>, flag: QualityFlag): seq<QualityFlag> {
    if flag in flags then flags else flags + [flag]
  }

  function Less(score: Option<int>, points: int): Option<int> {
    var current := if score.None? || score.value == 0 then 100 else score.value;
    Some(if current < points then 0 else current - points)
  }

  /** Excluded as a quote of an unapproved source. */
  predicate Unapproved(before: Observation, after: Observation) {
    after == before.(included := false, status := EXCLUDED, flags := WithOne(before.flags, UNAPPROVED_SOURCE),
                     reason := Some([UNAPPROVED_SOURCE]))
  }

  /** Excluded as a repetition of another quote. */
  predicate Repetition(before: Observation, after: Observation) {
    after == before.(included := false, status := EXCLUDED, flags := WithOne(before.flags, QualityFlag.DUPLICATE),
                     reason := Some([QualityFlag.DUPLICATE]), score := Less(before.score, 20))
  }

  /** Kept, and flagged when the sources disagree about the flight. */
  predicate Kept(before: Observation, after: Observation, conflict: bool) {
    after == if conflict then
               before.(flags := WithOne(before.flags, SOURCE_CONFLICT), score := Less(before.score, 10),
                       status := if before.status == ELIGIBLE then ELIGIBLE_FLAGGED else before.status)
             else before
  }

  ghost predicate FromApproved(o: Observation, sources: Sources) {
    o.source in sources && sources[o.source].approved
  }

  /** The approved sources' cheapest offers for a flight are not all the same fare. */
  ghost predicate Disagreeing(offers: set<Offer>) {
    exists a, b :: a in offers && b in offers && a.fare != b.fare
  }

  /** Rows `i` and `j` quote the same fare of the same source for the same flight. */
  ghost predicate SameOffer(table: seq<Observation>, key: Key, i: nat, j: nat)
    requires i < |table| && j < |table|
  {
    && QuotedUnder(table[i], key) && QuotedUnder(table[j], key)
    && table[i].source == table[j].source && table[i].fare == table[j].fare
  }

  /** What becomes of row `i`. */
  ghost predicate RowMarked(table: seq<Observation>, later: seq<Observation>, sources: Sources, i: nat)
    requires i < |table| == |later|
  {
    && ((forall key :: !QuotedUnder(table[i], key)) ==> later[i] == table[i])
    && forall key :: QuotedUnder(table[i], key) ==>
         if !FromApproved(table[i], sources) then Unapproved(table[i], later[i])
         else if later[i].included then Kept(table[i], later[i], Disagreeing(ApprovedOffers(table, key, sources)))
         else Repetition(table[i], later[i])
  }

  /** Every row is marked for its own reason, and of the rows of an approved source that quote the same fare for
      the same flight exactly one stays included, none of the others having a lesser content hash. */
  ghost predicate CuratedTo(table: seq<Observation>, later: seq<Observation>, sources: Sources) {
    && |later| == |table|
    && (forall i: nat :: i < |table| ==> RowMarked(table, later, sources, i))
    && (forall i: nat :: i < |table| ==> SomeKept(table, later, sources, i))
    && forall i: nat, j: nat :: i < j < |table| ==> NotBothKept(table, later, i, j)
  }

  ghost predicate SomeKept(table: seq<Observation>, later: seq<Observation>, sources: Sources, i: nat)
    requires i < |table| == |later|
  {
    FromApproved(table[i], sources) ==>
      forall key :: QuotedUnder(table[i], key) ==>
        exists j: nat :: j < |table| && SameOffer(table, key, i, j) && later[j].included
                         && table[j].hash <= table[i].hash
  }

  ghost predicate NotBothKept(table: seq<Observation>, later: seq<Observation>, i: nat, j: nat)
    requires i < |table| == |later| && j < |table|
  {
    forall key :: SameOffer(table, key, i, j) ==> !(later[i].included && later[j].included)
  }

  // ---------------------------------------------------------------------------------------------
  // The parts of a group

  /** The first of several equal offers is the eligible one. */
  lemma {:induction false} EligibleIsLeast(s: seq<Candidate>, sources: Sources, e: Candidate, d: Candidate)
    requires SortedBy(s, ByOffer) && e in Split(s, sources).eligible && d in s
    requires e.source == d.source && e.fare == d.fare
    ensures e.hash <= d.hash
  {
    var n := |s| - 1;
    var head, last := s[..n], s[n];
    SplitPartitions(head, sources);
    SplitMembers(head, sources);
    assert s == head + [last];
    assert Split(s, sources) == Place(Split(head, sources), last, sources);
    hide Split, DistinctOffers, Offered;
    assert e in Split(head, sources).eligible
           || (e == last && Approved(sources, e.source) && !Offered(Split(head, sources).eligible, e.source, e.fare));
    assert d in head && Approved(sources, d.source) ==> Offered(Split(head, sources).eligible, d.source, d.fare);
    if e in Split(head, sources).eligible {
      if d in head {
        EligibleIsLeast(head, sources, e, d);
      } else {
        var m :| 0 <= m < |head| && head[m] == e;
        assert ByOffer(s[m], s[n]);
      }
    }
  }

  lemma GroupParts(members: seq<Candidate>, sources: Sources)
    requires DistinctRows(members)
    ensures var p := PartsOf(members, sources);
            && DistinctOffers(p.eligible)
            && (forall c :: c in p.eligible || c in p.duplicates || c in p.rejected ==> c in members)
            && (forall c :: c in members ==>
                  && (c in p.rejected <==> !Approved(sources, c.source))
                  && (!Approved(sources, c.source) ==> c !in p.eligible && c !in p.duplicates)
                  && (Approved(sources, c.source) ==> (c in p.eligible <==> c !in p.duplicates))
                  && (Approved(sources, c.source) ==> Offered(p.eligible, c.source, c.fare)))
            && (forall e, d :: e in p.eligible && d in members && e.source == d.source && e.fare == d.fare ==>
                  e.hash <= d.hash)
  {
    var ordered, p := Sort(members, ByOffer), PartsOf(members, sources);
    ByOfferIsPreorder();
    SortOrders(members, ByOffer);
    SortPermutes(members, ByOffer);
    SameMembers(ordered, members);
    SplitPartitions(ordered, sources);
    SplitMembers(ordered, sources);
    hide Sort, Split, Offered, DistinctOffers, SortedBy, DistinctRows, ByOffer, Approved;
    forall c | c in members
      ensures c in p.rejected <==> !Approved(sources, c.source)
      ensures !Approved(sources, c.source) ==> c !in p.eligible && c !in p.duplicates
      ensures Approved(sources, c.source) ==> (c in p.eligible <==> c !in p.duplicates)
    {
      PartsDisjoint(members, sources, c);
      InSomePart(members, sources, c);
    }
    forall e, d | e in p.eligible && d in members && e.source == d.source && e.fare == d.fare
      ensures e.hash <= d.hash
    {
      EligibleIsLeast(ordered, sources, e, d);
    }
  }

  lemma HasIs(table: seq<Observation>, key: Key, part: seq<Candidate>, i: nat)
    requires i < |table| && forall c :: c in part ==> c in Members(table, key)
    ensures Has(part, i) <==> CandidateAt(table, i) in part
  {
    hide Members, KeyOf;
    forall c | c in part
      ensures c.row < |table| && c == CandidateAt(table, c.row)
    {
      MemberQuotes(table, key, c);
    }
    if Has(part, i) {
      var k :| 0 <= k < |part| && part[k].row == i;
      assert part[k] in part;
    }
    if CandidateAt(table, i) in part {
      var k :| 0 <= k < |part| && part[k] == CandidateAt(table, i);
    }
  }

  lemma MarksAre(o: Observation)
    ensures Unapproved(o, MarkRejected(o)) && Repetition(o, MarkDuplicate(o)) && Kept(o, MarkConflict(o), true)
  {
  }

  // ---------------------------------------------------------------------------------------------
  // One row

  /** The group of a row, its parts, and the mark it gets from them. */
  lemma OwnGroup(table: seq<Observation>, sources: Sources, policy: Policy, key: Key, i: nat)
    requires i < |table| && QuotedUnder(table[i], key)
    ensures var later := Canonicalised(State(table, []), sources, policy).table;
            var p := PartsOf(Members(table, key), sources);
            && |later| == |table|
            && later[i] == Marked(table[i], i, p, Scores.ConflictOf(p, sources, policy))
  {
    KeyMeansQuoted(table[i], key);
    KeysAre(table);
    Scores.MarkedOnce(table, Keys(table), sources, policy, i);
    assert Scores.DistinctKeys(Keys(table));
    hide Keys, AfterKeys, KeyOf, PartsOf, Members, Marked, Scores.ConflictOf;
  }

  lemma UngroupedRow(table: seq<Observation>, sources: Sources, policy: Policy, i: nat)
    requires i < |table| && forall key :: !QuotedUnder(table[i], key)
    ensures var later := Canonicalised(State(table, []), sources, policy).table;
            |later| == |table| && later[i] == table[i]
  {
    KeysAre(table);
    Scores.MarkedOnce(table, Keys(table), sources, policy, i);
    assert Scores.DistinctKeys(Keys(table));
    if KeyOf(table[i]).Some? {
      KeyMeansQuoted(table[i], KeyOf(table[i]).value);
    }
    hide Keys, AfterKeys, PartsOf, Members, Marked;
  }

  /** The parts a row of a group is in. */
  lemma RowParts(table: seq<Observation>, sources: Sources, key: Key, i: nat)
    requires i < |table| && QuotedUnder(table[i], key)
    ensures var p, c := PartsOf(Members(table, key), sources), CandidateAt(table, i);
            && c in Members(table, key) && c.source == table[i].source && Some(c.fare) == table[i].fare
            && (Has(p.rejected, i) <==> !Approved(sources, c.source))
            && (Approved(sources, c.source) ==> (Has(p.duplicates, i) <==> c !in p.eligible))
            && (Has(p.eligible, i) <==> c in p.eligible) && (Has(p.duplicates, i) ==> Approved(sources, c.source))
            && (c in p.eligible ==> Approved(sources, c.source))
  {
    var members, p := Members(table, key), PartsOf(Members(table, key), sources);
    MembersAre(table, key);
    GroupParts(members, sources);
    var c := QuoteIsMember(table, key, i);
    MemberQuotes(table, key, c);
    hide Members, PartsOf, DistinctRows, DistinctOffers, Offered, Approved, KeyOf, Has, QuotedUnder;
    HasIs(table, key, p.rejected, i);
    HasIs(table, key, p.duplicates, i);
    HasIs(table, key, p.eligible, i);
  }

  lemma ConflictIs(table: seq<Observation>, sources: Sources, policy: Policy, key: Key)
    ensures Scores.ConflictOf(PartsOf(Members(table, key), sources), sources, policy) <==>
            Disagreeing(ApprovedOffers(table, key, sources))
  {
    GroupPublishes(table, key, sources, policy);
    hide PartsOf, Members, Representatives, StatisticsOf, PublishesMedian, Spans, ApprovedOffers, ChosenOffers,
         TakesDirect;
  }

  lemma GroupedRow(table: seq<Observation>, sources: Sources, policy: Policy, key: Key, i: nat)
    requires i < |table| && QuotedUnder(table[i], key)
    ensures var later := Canonicalised(State(table, []), sources, policy).table;
            var p, c := PartsOf(Members(table, key), sources), CandidateAt(table, i);
            && |later| == |table|
            && (later[i].included <==> c in p.eligible)
            && if !FromApproved(table[i], sources) then Unapproved(table[i], later[i])
               else if later[i].included then Kept(table[i], later[i], Disagreeing(ApprovedOffers(table, key, sources)))
               else Repetition(table[i], later[i])
  {
    var p := PartsOf(Members(table, key), sources);
    OwnGroup(table, sources, policy, key, i);
    RowParts(table, sources, key, i);
    ConflictIs(table, sources, policy, key);
    MarksAre(table[i]);
    IncludedIs(table[i], key);
    ApprovedIs(table[i], sources);
    hide *;
    MarkedIs(table[i], i, p, Scores.ConflictOf(p, sources, policy));
    MarkIncludes(table[i]);
    NotMarked(table[i]);
  }

  lemma IncludedIs(o: Observation, key: Key)
    requires QuotedUnder(o, key)
    ensures o.included
  {
  }

  lemma ApprovedIs(o: Observation, sources: Sources)
    ensures FromApproved(o, sources) <==> Approved(sources, o.source)
  {
  }

  lemma NotMarked(o: Observation)
    ensures Kept(o, o, false)
  {
  }

  lemma MarkIncludes(o: Observation)
    ensures !MarkRejected(o).included && !MarkDuplicate(o).included && MarkConflict(o).included == o.included
  {
  }

  lemma MarkedIs(o: Observation, i: nat, p: Parts, conflict: bool)
    ensures Marked(o, i, p, conflict)
            == if Has(p.rejected, i) then MarkRejected(o)
               else if Has(p.duplicates, i) then MarkDuplicate(o)
               else if conflict && Has(p.eligible, i) then MarkConflict(o) else o
  {
    hide Has, MarkRejected, MarkDuplicate, MarkConflict;
  }

  // ---------------------------------------------------------------------------------------------
  // Two rows

  lemma OneKept(table: seq<Observation>, sources: Sources, policy: Policy, i: nat, key: Key) returns (j: nat)
    requires i < |table| && QuotedUnder(table[i], key) && FromApproved(table[i], sources)
    ensures var later := Canonicalised(State(table, []), sources, policy).table;
            && |later| == |table| && j < |table| && SameOffer(table, key, i, j)
            && later[j].included && table[j].hash <= table[i].hash
  {
    var members, p := Members(table, key), PartsOf(Members(table, key), sources);
    var c := CandidateAt(table, i);
    MembersAre(table, key);
    GroupParts(members, sources);
    RowParts(table, sources, key, i);
    ApprovedIs(table[i], sources);
    hide Members, PartsOf, DistinctRows, DistinctOffers, KeyOf, Has, QuotedUnder, Canonicalised;
    var m :| 0 <= m < |p.eligible| && p.eligible[m].source == c.source && p.eligible[m].fare == c.fare;
    var e := p.eligible[m];
    assert e in p.eligible && e in members;
    MemberQuotes(table, key, e);
    j := e.row;
    RowParts(table, sources, key, j);
    GroupedRow(table, sources, policy, key, j);
    assert e == CandidateAt(table, j);
  }

  lemma OnlyOneKept(table: seq<Observation>, sources: Sources, policy: Policy, i: nat, j: nat, key: Key)
    requires i < j < |table| && SameOffer(table, key, i, j)
    ensures var later := Canonicalised(State(table, []), sources, policy).table;
            |later| == |table| && !(later[i].included && later[j].included)
  {
    var members, p := Members(table, key), PartsOf(Members(table, key), sources);
    var a, b := CandidateAt(table, i), CandidateAt(table, j);
    MembersAre(table, key);
    GroupParts(members, sources);
    RowParts(table, sources, key, i);
    RowParts(table, sources, key, j);
    GroupedRow(table, sources, policy, key, i);
    GroupedRow(table, sources, policy, key, j);
    assert a.row == i && b.row == j && a.source == b.source && a.fare == b.fare;
    hide Members, PartsOf, DistinctRows, KeyOf, Has, QuotedUnder, Canonicalised, Offered, Approved;
    if a in p.eligible && b in p.eligible {
      TwoOffers(p.eligible, a, b);
    }
  }

  lemma TwoOffers(eligible: seq<Candidate>, a: Candidate, b: Candidate)
    requires DistinctOffers(eligible) && a in eligible && b in eligible && a != b
    ensures a.source != b.source || a.fare != b.fare
  {
    var i :| 0 <= i < |eligible| && eligible[i] == a;
    var j :| 0 <= j < |eligible| && eligible[j] == b;
    if i < j {
    } else {
      assert j < i;
    }
  }

  // ---------------------------------------------------------------------------------------------
  // The whole table

  lemma SameSize(table: seq<Observation>, sources: Sources, policy: Policy)
    ensures |Canonicalised(State(table, []), sources, policy).table| == |table|
  {
    if table == [] {
      assert Keys(table) == [];
    } else {
      KeysAre(table);
      Scores.MarkedOnce(table, Keys(table), sources, policy, 0);
      assert Scores.DistinctKeys(Keys(table));
    }
    hide Keys, AfterKeys, KeyOf;
  }

  lemma EveryRow(table: seq<Observation>, sources: Sources, policy: Policy, i: nat)
    requires i < |table|
    ensures var later := Canonicalised(State(table, []), sources, policy).table;
            && |later| == |table|
            && RowMarked(table, later, sources, i) && SomeKept(table, later, sources, i)
  {
    SameSize(table, sources, policy);
    var later := Canonicalised(State(table, []), sources, policy).table;
    hide Canonicalised, QuotedUnder, ApprovedOffers, Unapproved, Kept, Repetition, FromApproved, Disagreeing, SameOffer;
    if forall key :: !QuotedUnder(table[i], key) {
      UngroupedRow(table, sources, policy, i);
    }
    forall key | QuotedUnder(table[i], key)
      ensures if !FromApproved(table[i], sources) then Unapproved(table[i], later[i])
              else if later[i].included then Kept(table[i], later[i], Disagreeing(ApprovedOffers(table, key, sources)))
              else Repetition(table[i], later[i])
      ensures FromApproved(table[i], sources) ==>
                exists j: nat :: j < |table| && SameOffer(table, key, i, j) && later[j].included
                                 && table[j].hash <= table[i].hash
    {
      GroupedRow(table, sources, policy, key, i);
      if FromApproved(table[i], sources) {
        var j := OneKept(table, sources, policy, i, key);
      }
    }
  }

  /** What canonicalising leaves of every row of the table. */
  lemma TableIsCurated(table: seq<Observation>, sources: Sources, policy: Policy)
    ensures CuratedTo(table, Canonicalised(State(table, []), sources, policy).table, sources)
  {
    var later := Canonicalised(State(table, []), sources, policy).table;
    SameSize(table, sources, policy);
    hide Canonicalised, RowMarked, SomeKept, SameOffer;
    forall i: nat | i < |table|
      ensures RowMarked(table, later, sources, i) && SomeKept(table, later, sources, i)
    {
      EveryRow(table, sources, policy, i);
    }
    forall i: nat, j: nat | i < j < |table|
      ensures NotBothKept(table, later, i, j)
    {
      forall key | SameOffer(table, key, i, j)
        ensures !(later[i].included && later[j].included)
      {
        OnlyOneKept(table, sources, policy, i, j, key);
      }
    }
  }
}
