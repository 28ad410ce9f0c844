/** `canonicalize_run` as it runs: grouping, in-place marking of observations, and one new canonical
    fare per group, proved against `CanonicalRun`. */
module CanonicalService {
  import opened Aggregates
  import opened Options
  import opened Domain
  import opened Observations
  import opened Sorting
  import opened Canonical
  import opened CanonicalRun
  import CanonicalFareRule
  import KeptObservations
  import Medians
  import Rounding

  datatype CanonicalError = UnsupportedPolicy

  function ParsePolicy(name: string): Option<Policy> {
    if name == "direct-then-median-v1" then Some(DIRECT_THEN_MEDIAN)
    else if name == "approved-source-median-v1" then Some(APPROVED_SOURCE_MEDIAN)
    else None
  }

  /** `_median`. */
  method FareMedian(values: seq<int>) returns (median: int)
    requires values != []
    ensures median == MedianFare(values)
    ensures exists m ::
              && Medians.MedianOf(Medians.SetOf(CanonicalFareRule.Positions(|values|)),
                                  CanonicalFareRule.FareAt(values), m)
              && median == Rounding.HalfEven(m)
  {
    CanonicalFareRule.MedianFareIs(values);
    hide Medians.MedianOf, Medians.SetOf, CanonicalFareRule.Positions, CanonicalFareRule.FareAt;
    var ordered := Medians.Ascending(Reals(values));
    var middle := |ordered| / 2;
    if |ordered| % 2 == 1 {
      return Rounding.HalfEven(ordered[middle]);
    }
    median := Rounding.HalfEven(Medians.Midpoint(ordered[middle - 1], ordered[middle]));
  }

  /** `by_source`: the eligible rows of each source, sources in order of first appearance. */
  method BySource(eligible: seq<Candidate>) returns (keys: seq<int>, rows: map<int, seq<Candidate>>)
    ensures keys == SourcesIn(eligible)
    ensures forall source :: source in rows <==> source in keys
    ensures forall source :: source in rows ==> rows[source] == RowsOf(eligible, source)
  {
    keys, rows := [], map[];
    for i := 0 to |eligible|
      invariant keys == SourcesIn(eligible[..i])
      invariant forall source :: source in rows <==> source in keys
      invariant forall source :: source in rows ==> rows[source] == RowsOf(eligible[..i], source)
    {
      var item := eligible[i];
      assert eligible[..i + 1][..i] == eligible[..i];
      SourceHasRows(eligible[..i], item.source);
      if item.source in rows {
        rows := rows[item.source := rows[item.source] + [item]];
      } else {
        keys := keys + [item.source];
        rows := rows[item.source := [item]];
      }
    }
    assert eligible[..|eligible|] == eligible;
  }

  /** One representative per source. */
  method ChooseRepresentatives(eligible: seq<Candidate>) returns (r: seq<Candidate>)
    ensures r == Representatives(eligible)
  {
    var keys, rows := BySource(eligible);
    r := [];
    hide RowsOf, SourcesIn, Cheapest;
    for k := 0 to |keys|
      invariant |r| == k && forall m :: 0 <= m < k ==> r[m] == Representatives(eligible)[m]
    {
      SourceHasRows(eligible, keys[k]);
      assert keys[k] in rows;
      r := r + [Cheapest(rows[keys[k]])];
    }
  }

  /** One more row of a part marks one more observation. */
  lemma MarkOne(table: seq<Observation>, p: Parts, q: Parts, c: Candidate, conflict: bool)
    requires c.row < |table| && !Has(p.eligible, c.row) && !Has(p.duplicates, c.row) && !Has(p.rejected, c.row)
    requires q == p.(rejected := p.rejected + [c]) || q == p.(duplicates := p.duplicates + [c])
             || q == p.(eligible := p.eligible + [c])
    ensures MarkAll(table, p, conflict)[c.row] == table[c.row]
    ensures MarkAll(table, q, conflict)
              == MarkAll(table, p, conflict)[c.row := Marked(table[c.row], c.row, q, conflict)]
    ensures Has(q.rejected, c.row) <==> q.rejected != p.rejected
    ensures Has(q.duplicates, c.row) <==> q.duplicates != p.duplicates
    ensures Has(q.eligible, c.row) <==> q.eligible != p.eligible
  {
    HasAppend(p.rejected, c);
    HasAppend(p.duplicates, c);
    HasAppend(p.eligible, c);
    hide Has, MarkRejected, MarkDuplicate, MarkConflict;
  }

  lemma HasAppend(rows: seq<Candidate>, c: Candidate)
    ensures forall i :: Has(rows + [c], i) <==> Has(rows, i) || i == c.row
  {
    var more := rows + [c];
    assert more[|rows|] == c;
    forall i
      ensures Has(more, i) <==> Has(rows, i) || i == c.row
    {
      if Has(rows, i) {
        var k :| 0 <= k < |rows| && rows[k].row == i;
        assert more[k].row == i;
      }
      if Has(more, i) {
        var k :| 0 <= k < |more| && more[k].row == i;
        assert k < |rows| ==> rows[k].row == i;
      }
    }
  }

  /** A candidate that comes later in the group shares no row with the ones already placed. */
  lemma RowIsNew(s: seq<Candidate>, i: nat, sources: Sources)
    requires DistinctRows(s) && i < |s|
    ensures var p := Split(s[..i], sources);
            !Has(p.eligible, s[i].row) && !Has(p.duplicates, s[i].row) && !Has(p.rejected, s[i].row)
  {
    var p := Split(s[..i], sources);
    SplitMembers(s[..i], sources);
    NotAmong(s, i, p.eligible);
    NotAmong(s, i, p.duplicates);
    NotAmong(s, i, p.rejected);
    hide Split, Has, DistinctRows;
  }

  lemma NotAmong(s: seq<Candidate>, i: nat, part: seq<Candidate>)
    requires DistinctRows(s) && i < |s| && forall c :: c in part ==> c in s[..i]
    ensures !Has(part, s[i].row)
  {
    forall k | 0 <= k < |part|
      ensures part[k].row != s[i].row
    {
      assert part[k] in part;
      var m :| 0 <= m < i && s[..i][m] == part[k];
      assert s[m].row != s[i].row;
    }
  }

  lemma SortedDistinctRows(s: seq<Candidate>, ordered: seq<Candidate>)
    requires DistinctRows(s) && multiset(s) == multiset(ordered)
    ensures DistinctRows(ordered)
  {
    SameMembers(s, ordered);
    forall i, j | 0 <= i < j < |ordered|
      ensures ordered[i].row != ordered[j].row
    {
      if ordered[i].row == ordered[j].row {
        assert ordered[i] in s && ordered[j] in s;
        SameRowSame(s, ordered[i], ordered[j]);
        TwiceIsTwo(ordered, i, j);
        OneOfEach(s, ordered[i]);
      }
    }
  }

  lemma SameRowSame(s: seq<Candidate>, a: Candidate, b: Candidate)
    requires DistinctRows(s) && a in s && b in s && a.row == b.row
    ensures a == b
  {
    var i :| 0 <= i < |s| && s[i] == a;
    var j :| 0 <= j < |s| && s[j] == b;
  }

  lemma TwiceIsTwo(s: seq<Candidate>, i: nat, j: nat)
    requires i < j < |s| && s[i] == s[j]
    ensures multiset(s)[s[i]] >= 2
  {
    assert s == s[..j] + s[j..];
    assert s[i] in s[..j] && s[j] in s[j..];
    assert multiset(s) == multiset(s[..j]) + multiset(s[j..]);
    assert s[i] == s[..j][i];
  }

  /** The parts with only the first `k` eligible candidates. */
  function Partly(p: Parts, k: nat): Parts
    requires k <= |p.eligible|
  {
    p.(eligible := p.eligible[..k])
  }

  class Canonicaliser {
    var table: seq<Observation>
    var fares: seq<CanonicalFare>
    const sources: Sources

    constructor (table: seq<Observation>, fares: seq<CanonicalFare>, sources: Sources)
      ensures this.table == table && this.fares == fares && this.sources == sources
    {
      this.table, this.fares, this.sources := table, fares, sources;
    }

    /** The grouping loop. */
    method GroupRows() returns (keys: seq<Key>, groups: map<Key, seq<Candidate>>)
      ensures keys == Keys(table)
      ensures forall key :: key in groups <==> key in keys
      ensures forall key :: key in groups ==> groups[key] == Members(table, key)
    {
      keys, groups := [], map[];
      hide KeyOf;
      for i := 0 to |table|
        invariant keys == Keys(table[..i])
        invariant forall key :: key in groups <==> key in keys
        invariant forall key :: key in groups ==> groups[key] == Members(table[..i], key)
        invariant forall key :: key !in groups ==> Members(table[..i], key) == []
      {
        assert table[..i + 1][..i] == table[..i] && table[..i + 1][i] == table[i];
        var key := KeyOf(table[i]);
        if key.Some? {
          var candidate := CandidateAt(table, i);
          assert candidate == CandidateAt(table[..i + 1], i);
          if key.value in groups {
            groups := groups[key.value := groups[key.value] + [candidate]];
          } else {
            keys := keys + [key.value];
            groups := groups[key.value := [candidate]];
          }
        }
      }
      assert table[..|table|] == table;
    }

    /** The classification loop: excludes the unapproved and the duplicates as it goes. */
    method Classify(candidates: seq<Candidate>) returns (p: Parts)
      requires DistinctRows(candidates) && forall k :: 0 <= k < |candidates| ==> candidates[k].row < |table|
      modifies this`table
      ensures p == Split(candidates, sources)
      ensures table == MarkAll(old(table), p, false)
    {
      p := Parts([], [], []);
      hide Marked, Has, Split, DistinctRows;
      NoMarks(table);
      SplitNone(sources);
      for i := 0 to |candidates|
        invariant p == Split(candidates[..i], sources)
        invariant table == MarkAll(old(table), p, false)
      {
        var c := candidates[i];
        SplitNext(candidates, i, sources);
        RowIsNew(candidates, i, sources);
        var seen := p;
        if !Approved(sources, c.source) {
          p := p.(rejected := p.rejected + [c]);
          MarkOne(old(table), seen, p, c, false);
          MarkedAs(old(table)[c.row], c.row, p, false);
          table := table[c.row := MarkRejected(table[c.row])];
        } else if Offered(p.eligible, c.source, c.fare) {
          p := p.(duplicates := p.duplicates + [c]);
          MarkOne(old(table), seen, p, c, false);
          MarkedAs(old(table)[c.row], c.row, p, false);
          table := table[c.row := MarkDuplicate(table[c.row])];
        } else {
          p := p.(eligible := p.eligible + [c]);
          MarkOne(old(table), seen, p, c, false);
          MarkedAs(old(table)[c.row], c.row, p, false);
        }
      }
      assert candidates[..|candidates|] == candidates;
    }

    /** The loop that flags every eligible observation of a group with a source conflict. */
    method FlagConflicts(p: Parts, ghost before: seq<Observation>)
      requires table == MarkAll(before, p, false) && DistinctRows(Linked(p))
      requires forall k :: 0 <= k < |p.eligible| ==> p.eligible[k].row < |table|
      modifies this`table
      ensures table == MarkAll(before, p, true)
    {
      hide Marked, Has, DistinctRows;
      NoneFlagged(before, p);
      for k := 0 to |p.eligible|
        invariant table == MarkAll(before, Partly(p, k), true)
      {
        var c := p.eligible[k];
        NextIsNew(p, k);
        assert p.eligible[..k + 1] == p.eligible[..k] + [c];
        MarkOne(before, Partly(p, k), Partly(p, k + 1), c, true);
        MarkedAs(before[c.row], c.row, Partly(p, k + 1), true);
        table := table[c.row := MarkConflict(table[c.row])];
      }
      assert Partly(p, |p.eligible|) == p;
    }

    /** The link loop. */
    method LinkAll(p: Parts, policy: Policy) returns (links: seq<Link>)
      ensures links == LinksOf(p, sources, policy)
    {
      links := [];
      var rows := p.eligible + p.duplicates + p.rejected;
      hide LinkFor;
      for k := 0 to |rows|
        invariant |links| == k && forall m :: 0 <= m < k ==> links[m] == LinkFor(rows[m], p, sources, policy)
      {
        links := links + [LinkFor(rows[k], p, sources, policy)];
      }
    }

    /** One group: marks, and a canonical fare unless nothing is eligible. */
    method CanonicalizeGroup(key: Key, members: seq<Candidate>, policy: Policy)
      requires DistinctRows(members) && forall k :: 0 <= k < |members| ==> members[k].row < |table|
      modifies this`table, this`fares
      ensures State(table, fares) == WithGroup(State(old(table), old(fares)), key, members, sources, policy)
    {
      var candidates := Sort(members, ByOffer);
      GroupIsSound(members, sources, |table|);
      WithGroupIs(State(table, fares), key, members, sources, policy);
      assert PartsOf(members, sources) == Split(candidates, sources);
      hide *;
      ghost var before := table;
      var p := Classify(candidates);
      if p.eligible == [] {
        return;
      }
      var representatives := ChooseRepresentatives(p.eligible);
      var statistics := Summarise(representatives, policy);
      if statistics.conflict {
        FlagConflicts(p, before);
      }
      var links := LinkAll(p, policy);
      fares := fares + [CanonicalFare(key, statistics, |p.eligible|, policy, links)];
    }

    /** Selection and statistics. */
    method Summarise(representatives: seq<Candidate>, policy: Policy) returns (st: Statistics)
      requires representatives != []
      ensures st == StatisticsOf(representatives, sources, policy)
    {
      hide Fares, DirectRows, MedianFare, Least, Greatest, Disagree;
      var direct := DirectRows(representatives, sources);
      var usingDirect := policy == DIRECT_THEN_MEDIAN && direct != [];
      var selected := if usingDirect then direct else representatives;
      var all := Fares(representatives);
      var minimum, maximum := Least(all), Greatest(all);
      var median := FareMedian(Fares(selected));
      st := Statistics(median, minimum, maximum, maximum - minimum, |representatives|, Disagree(all), usingDirect);
    }

    /** `canonicalize_run`: returns the number of canonical fares of the run. */
    method CanonicalizeRun(policyName: string) returns (r: Result<nat, CanonicalError>)
      modifies this`table, this`fares
      ensures r.Err? <==> ParsePolicy(policyName).None?
      ensures r.Err? ==> table == old(table) && fares == old(fares)
      ensures r.Ok? ==>
                State(table, fares)
                  == Canonicalised(State(old(table), old(fares)), sources, ParsePolicy(policyName).value)
                && r.value == |fares|
      ensures r.Ok? && old(fares) == [] ==>
                && CanonicalFareRule.FaresAre(old(table), fares, sources, ParsePolicy(policyName).value)
                && KeptObservations.CuratedTo(old(table), table, sources)
    {
      var policy := ParsePolicy(policyName);
      hide *;
      if policy.None? {
        return Err(UnsupportedPolicy);
      }
      if fares != [] {
        AlreadyCanonical(State(table, fares), sources, policy.value);
        return Ok(|fares|);
      }
      CanonicalFareRule.CanonicalFaresAre(table, sources, policy.value);
      KeptObservations.TableIsCurated(table, sources, policy.value);
      CanonicalFareRule.CanonicalisedFrom(table, sources, policy.value);
      AfterNoKeys(table, sources, policy.value);
      var keys, groups := GroupRows();
      var created := 0;
      for i := 0 to |keys|
        invariant State(table, fares) == AfterKeys(old(table), keys[..i], sources, policy.value)
        invariant |table| == |old(table)| && created == |fares|
      {
        AfterNextKey(old(table), keys, i, sources, policy.value);
        MembersAre(old(table), keys[i]);
        WithGroupCount(State(table, fares), keys[i], groups[keys[i]], sources, policy.value);
        CanonicalizeGroup(keys[i], groups[keys[i]], policy.value);
        created := |fares|;
      }
      assert keys[..|keys|] == keys;
      r := Ok(created);
    }
  }

  lemma AlreadyCanonical(state: State, sources: Sources, policy: Policy)
    requires state.fares != []
    ensures Canonicalised(state, sources, policy) == state
  {
    hide AfterKeys, Keys;
  }

  lemma AfterNoKeys(table: seq<Observation>, sources: Sources, policy: Policy)
    ensures AfterKeys(table, [], sources, policy) == State(table, [])
  {
  }

  lemma AfterNextKey(table: seq<Observation>, keys: seq<Key>, i: nat, sources: Sources, policy: Policy)
    requires i < |keys|
    ensures keys[i] in keys
    ensures AfterKeys(table, keys[..i + 1], sources, policy)
            == WithGroup(AfterKeys(table, keys[..i], sources, policy), keys[i], Members(table, keys[i]), sources,
                         policy)
  {
    assert keys[..i + 1][..i] == keys[..i];
    hide WithGroup, Members;
  }

  lemma WithGroupCount(state: State, key: Key, members: seq<Candidate>, sources: Sources, policy: Policy)
    ensures |WithGroup(state, key, members, sources, policy).table| == |state.table|
  {
    hide MarkAll, PartsOf, NewFare;
  }

  lemma NoMarks(table: seq<Observation>)
    ensures MarkAll(table, Parts([], [], []), false) == table
  {
  }

  lemma NoneFlagged(table: seq<Observation>, p: Parts)
    ensures MarkAll(table, Partly(p, 0), true) == MarkAll(table, p, false)
  {
    assert forall i :: !Has(p.eligible[..0], i);
    hide Has, MarkRejected, MarkDuplicate, MarkConflict;
  }

  lemma MarkedAs(o: Observation, i: int, p: Parts, conflict: bool)
    ensures Has(p.rejected, i) ==> Marked(o, i, p, conflict) == MarkRejected(o)
    ensures !Has(p.rejected, i) && Has(p.duplicates, i) ==> Marked(o, i, p, conflict) == MarkDuplicate(o)
    ensures !Has(p.rejected, i) && !Has(p.duplicates, i) && !conflict ==> Marked(o, i, p, conflict) == o
    ensures !Has(p.rejected, i) && !Has(p.duplicates, i) && conflict && Has(p.eligible, i) ==>
              Marked(o, i, p, conflict) == MarkConflict(o)
  {
    hide Has, MarkRejected, MarkDuplicate, MarkConflict;
  }

  lemma SplitNone(sources: Sources)
    ensures Split([], sources) == Parts([], [], [])
  {
  }

  lemma SplitNext(s: seq<Candidate>, i: nat, sources: Sources)
    requires i < |s|
    ensures Split(s[..i + 1], sources) == Place(Split(s[..i], sources), s[i], sources)
  {
    assert s[..i + 1][..i] == s[..i];
    hide Place;
  }

  /** An eligible candidate shares no row with the earlier ones, nor with the other parts. */
  lemma NextIsNew(p: Parts, k: nat)
    requires DistinctRows(Linked(p)) && k < |p.eligible|
    ensures var q, row := Partly(p, k), p.eligible[k].row;
            !Has(q.eligible, row) && !Has(q.duplicates, row) && !Has(q.rejected, row)
  {
    var all := Linked(p);
    assert all[k] == p.eligible[k];
    forall m | 0 <= m < |p.duplicates|
      ensures p.duplicates[m].row != p.eligible[k].row
    {
      assert all[|p.eligible| + m] == p.duplicates[m];
    }
    forall m | 0 <= m < |p.rejected|
      ensures p.rejected[m].row != p.eligible[k].row
    {
      assert all[|p.eligible| + |p.duplicates| + m] == p.rejected[m];
    }
    forall m | 0 <= m < k
      ensures p.eligible[m].row != p.eligible[k].row
    {
      assert all[m] == p.eligible[m];
    }
  }

  /** What holds of a sorted, split group. */
  lemma GroupIsSound(members: seq<Candidate>, sources: Sources, size: nat)
    requires DistinctRows(members) && forall k :: 0 <= k < |members| ==> members[k].row < size
    ensures var candidates := Sort(members, ByOffer);
            var p := Split(candidates, sources);
            && DistinctRows(candidates) && DistinctRows(Linked(p))
            && (forall k :: 0 <= k < |candidates| ==> candidates[k].row < size)
            && (forall k :: 0 <= k < |p.eligible| ==> p.eligible[k].row < size)
  {
    var candidates := Sort(members, ByOffer);
    var p := Split(candidates, sources);
    SortPermutes(members, ByOffer);
    SameMembers(members, candidates);
    EveryCandidateLinked(members, sources);
    SplitMembers(candidates, sources);
    assert p == PartsOf(members, sources);
    hide Sort, Split, DistinctRows, Linked, PartsOf;
    SortedDistinctRows(members, candidates);
    SortedDistinctRows(members, Linked(p));
    forall c | c in members
      ensures c.row < size
    {
      var k :| 0 <= k < |members| && members[k] == c;
    }
    forall k | 0 <= k < |candidates|
      ensures candidates[k].row < size
    {
      assert candidates[k] in candidates;
    }
    forall k | 0 <= k < |p.eligible|
      ensures p.eligible[k].row < size
    {
      assert p.eligible[k] in p.eligible;
    }
  }

  /** The step of one group, by cases. */
  lemma WithGroupIs(state: State, key: Key, members: seq<Candidate>, sources: Sources, policy: Policy)
    ensures var p := PartsOf(members, sources);
            var next, r := WithGroup(state, key, members, sources, policy), Representatives(p.eligible);
            && (p.eligible == [] <==> r == [])
            && (r == [] ==> next == State(MarkAll(state.table, p, false), state.fares))
            && (r != [] ==>
                  var st := StatisticsOf(r, sources, policy);
                  next == State(MarkAll(state.table, p, st.conflict),
                                state.fares + [CanonicalFare(key, st, |p.eligible|, policy,
                                                             LinksOf(p, sources, policy))]))
  {
    NothingEligible(members, sources);
    assert RepresentativesOf(members, sources) == Representatives(PartsOf(members, sources).eligible);
    hide PartsOf, Representatives, StatisticsOf, LinksOf, MarkAll;
  }
}
