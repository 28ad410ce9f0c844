/** `canonicalize_run` on the observation table of one run: grouping, the marks left on excluded and
    conflicting observations, the canonical fares with their links, and running it again. */
module CanonicalRun {
  import opened Options
  import opened Domain
  import opened Observations
  import opened Sorting
  import opened Canonical

  /** What the observations of one canonical fare have in common. */
  datatype Key = Key(route: int, window: AdvanceWindow, identity: int, cabin: string, fareClass: string,
                     currency: string)

  /** Observations that are excluded or incomplete belong to no group. */
  function KeyOf(o: Observation): Option<Key> {
    if !o.included || o.identity.None? || o.fare.None? || o.cabin.None? || o.fareClass.None? || o.currency.None?
    then None
    else Some(Key(o.route, o.window, o.identity.value, o.cabin.value, o.fareClass.value, o.currency.value))
  }

  datatype CanonicalFare = CanonicalFare(
    key: Key, statistics: Statistics, observations: nat, policy: Policy, links: seq<Link>)

  datatype State = State(table: seq<Observation>, fares: seq<CanonicalFare>)

  function CandidateAt(table: seq<Observation>, i: nat): Candidate
    requires i < |table|
  {
    Candidate(i, table[i].source, if table[i].fare.None? then 0 else table[i].fare.value, table[i].hash)
  }

  /** The group of a key, in table order. */
  function Members(table: seq<Observation>, key: Key): seq<Candidate> {
    if table == [] then []
    else
      var n := |table| - 1;
      Members(table[..n], key) + (if KeyOf(table[n]) == Some(key) then [CandidateAt(table, n)] else [])
  }

  /** The keys in order of first appearance. */
  function Keys(table: seq<Observation>): seq<Key> {
    if table == [] then []
    else
      var keys, key := Keys(table[..|table| - 1]), KeyOf(table[|table| - 1]);
      if key.None? || key.value in keys then keys else keys + [key.value]
  }

  // ---------------------------------------------------------------------------------------------
  // Marks

  function MarkRejected(o: Observation): Observation {
    WithFlag(o.(included := false, status := EXCLUDED), UNAPPROVED_SOURCE).(reason := Some([UNAPPROVED_SOURCE]))
  }

  /** `_exclude_duplicate`. */
  function MarkDuplicate(o: Observation): Observation {
    WithFlag(o, QualityFlag.DUPLICATE).(status := EXCLUDED, included := false, score := Penalised(o.score, 20),
                                        reason := Some([QualityFlag.DUPLICATE]))
  }

  /** `_flag_source_conflict`. */
  function MarkConflict(o: Observation): Observation {
    var flagged := WithFlag(o, SOURCE_CONFLICT);
    flagged.(status := if o.status == ELIGIBLE then ELIGIBLE_FLAGGED else o.status, score := Penalised(o.score, 10))
  }

  predicate Has(rows: seq<Candidate>, i: int) {
    exists k :: 0 <= k < |rows| && rows[k].row == i
  }

  function Marked(o: Observation, i: int, p: Parts, conflict: bool): Observation {
    if Has(p.rejected, i) then MarkRejected(o)
    else if Has(p.duplicates, i) then MarkDuplicate(o)
    else if conflict && Has(p.eligible, i) then MarkConflict(o)
    else o
  }

  function MarkAll(table: seq<Observation>, p: Parts, conflict: bool): (r: seq<Observation>)
    ensures |r| == |table| && forall i :: 0 <= i < |table| ==> r[i] == Marked(table[i], i, p, conflict)
  {
    seq(|table|, i requires 0 <= i < |table| => Marked(table[i], i, p, conflict))
  }

  // ---------------------------------------------------------------------------------------------
  // The whole run

  function NewFare(key: Key, p: Parts, sources: Sources, policy: Policy): CanonicalFare
    requires Representatives(p.eligible) != []
  {
    CanonicalFare(key, StatisticsOf(Representatives(p.eligible), sources, policy), |p.eligible|, policy,
                  LinksOf(p, sources, policy))
  }

  function WithGroup(state: State, key: Key, members: seq<Candidate>, sources: Sources, policy: Policy): State {
    var p := PartsOf(members, sources);
    if Representatives(p.eligible) == [] then State(MarkAll(state.table, p, false), state.fares)
    else
      var fare := NewFare(key, p, sources, policy);
      State(MarkAll(state.table, p, fare.statistics.conflict), state.fares + [fare])
  }

  function AfterKeys(table: seq<Observation>, keys: seq<Key>, sources: Sources, policy: Policy): State {
    if keys == [] then State(table, [])
    else
      var last := keys[|keys| - 1];
      WithGroup(AfterKeys(table, keys[..|keys| - 1], sources, policy), last, Members(table, last), sources, policy)
  }

  /** A run that already has canonical fares is left alone. */
  function Canonicalised(state: State, sources: Sources, policy: Policy): State {
    if state.fares != [] then state else AfterKeys(state.table, Keys(state.table), sources, policy)
  }

  // ---------------------------------------------------------------------------------------------
  // Groups

  lemma MembersStep(table: seq<Observation>, key: Key)
    requires table != []
    ensures var n := |table| - 1;
            Members(table, key)
              == Members(table[..n], key) + if KeyOf(table[n]) == Some(key) then [CandidateAt(table, n)] else []
  {
    hide KeyOf, CandidateAt;
  }

  /** `c` is the candidate of a row of the group. */
  ghost predicate IsMember(table: seq<Observation>, key: Key, c: Candidate) {
    c.row < |table| && KeyOf(table[c.row]) == Some(key) && c == CandidateAt(table, c.row)
  }

  lemma IsMemberStep(table: seq<Observation>, n: nat, key: Key, c: Candidate)
    requires n < |table| && IsMember(table[..n], key, c)
    ensures IsMember(table, key, c) && c.row < n
  {
    hide KeyOf;
  }

  lemma IsMemberLast(table: seq<Observation>, n: nat, key: Key)
    requires n < |table| && KeyOf(table[n]) == Some(key)
    ensures IsMember(table, key, CandidateAt(table, n)) && CandidateAt(table, n).row == n
  {
    hide KeyOf;
  }

  /** Every candidate of a group comes from one of its rows, and rows later in the table come later. */
  lemma {:induction false} MembersFromRows(table: seq<Observation>, key: Key)
    ensures forall k :: 0 <= k < |Members(table, key)| ==> IsMember(table, key, Members(table, key)[k])
    ensures DistinctRows(Members(table, key))
  {
    if table != [] {
      var n := |table| - 1;
      var before := Members(table[..n], key);
      MembersStep(table, key);
      MembersFromRows(table[..n], key);
      hide *;
      forall k | 0 <= k < |before|
        ensures IsMember(table, key, before[k]) && before[k].row < n
      {
        IsMemberStep(table, n, key, before[k]);
      }
      if KeyOf(table[n]) == Some(key) {
        IsMemberLast(table, n, key);
        DistinctAppend(before, CandidateAt(table, n));
      } else {
        assert before + [] == before;
      }
    }
    hide Members, KeyOf, IsMember;
  }

  lemma DistinctAppend(s: seq<Candidate>, c: Candidate)
    requires DistinctRows(s) && forall k :: 0 <= k < |s| ==> s[k].row < c.row
    ensures DistinctRows(s + [c])
  {
  }

  /** Every row of the group has its candidate. */
  lemma {:induction false} RowsHaveMembers(table: seq<Observation>, key: Key, i: nat)
    requires i < |table| && KeyOf(table[i]) == Some(key)
    ensures Has(Members(table, key), i)
  {
    var n := |table| - 1;
    var before := Members(table[..n], key);
    MembersStep(table, key);
    if i < n {
      RowsHaveMembers(table[..n], key, i);
      HasStays(before, if KeyOf(table[n]) == Some(key) then [CandidateAt(table, n)] else [], i);
    } else {
      var last := [CandidateAt(table, n)];
      assert last[0].row == n;
      assert (before + last)[|before|] == last[0];
    }
    hide Members, KeyOf;
  }

  lemma HasStays(rows: seq<Candidate>, more: seq<Candidate>, i: int)
    requires Has(rows, i)
    ensures Has(rows + more, i)
  {
    var k :| 0 <= k < |rows| && rows[k].row == i;
    assert (rows + more)[k] == rows[k];
  }

  lemma MembersAre(table: seq<Observation>, key: Key)
    ensures DistinctRows(Members(table, key))
    ensures forall k :: 0 <= k < |Members(table, key)| ==>
              var c := Members(table, key)[k];
              c.row < |table| && KeyOf(table[c.row]) == Some(key) && c == CandidateAt(table, c.row)
    ensures forall i :: 0 <= i < |table| && KeyOf(table[i]) == Some(key) ==> Has(Members(table, key), i)
  {
    MembersFromRows(table, key);
    forall i: nat | i < |table| && KeyOf(table[i]) == Some(key)
      ensures Has(Members(table, key), i)
    {
      RowsHaveMembers(table, key, i);
    }
    hide Members, KeyOf, Has, DistinctRows, CandidateAt;
  }

  lemma {:induction false} KeysAre(table: seq<Observation>)
    ensures forall i :: 0 <= i < |table| && KeyOf(table[i]).Some? ==> KeyOf(table[i]).value in Keys(table)
    ensures (forall i :: 0 <= i < |table| ==> KeyOf(table[i]).None?) ==> Keys(table) == []
    ensures forall i, j :: 0 <= i < j < |Keys(table)| ==> Keys(table)[i] != Keys(table)[j]
  {
    if table != [] {
      var head := table[..|table| - 1];
      KeysAre(head);
      assert forall i :: 0 <= i < |head| ==> head[i] == table[i];
    }
    hide KeyOf;
  }

  /** The links of a canonical fare are exactly the observations of its group, each once. */
  lemma FareLinks(table: seq<Observation>, key: Key, sources: Sources, policy: Policy)
    ensures var p := PartsOf(Members(table, key), sources);
            && multiset(Linked(p)) == multiset(Members(table, key))
            && DistinctRows(Members(table, key))
            && (forall k :: 0 <= k < |LinksOf(p, sources, policy)| ==>
                  LinksOf(p, sources, policy)[k].candidate == Linked(p)[k])
  {
    MembersAre(table, key);
    EveryCandidateLinked(Members(table, key), sources);
    hide PartsOf, Members, Linked;
  }

  // ---------------------------------------------------------------------------------------------
  // Running it again

  /** Marking never includes an observation and never moves it to another group. */
  ghost predicate OnlyMarked(before: seq<Observation>, later: seq<Observation>) {
    && |later| == |before|
    && forall i :: 0 <= i < |before| ==> KeyOf(later[i]) == KeyOf(before[i]) || !later[i].included
  }

  lemma MarkedKey(o: Observation, i: int, p: Parts, conflict: bool)
    ensures KeyOf(Marked(o, i, p, conflict)) == KeyOf(o) || !Marked(o, i, p, conflict).included
    ensures !o.included ==> !Marked(o, i, p, conflict).included
    ensures Has(p.rejected, i) ==> !Marked(o, i, p, conflict).included
  {
    hide Has, Penalised;
  }

  /** A group that yields no fare has all its observations excluded. */
  lemma GroupWithoutFare(members: seq<Candidate>, sources: Sources, i: int)
    requires Representatives(PartsOf(members, sources).eligible) == [] && Has(members, i)
    ensures Has(PartsOf(members, sources).rejected, i)
  {
    var p := PartsOf(members, sources);
    NothingEligible(members, sources);
    var k :| 0 <= k < |members| && members[k].row == i;
    assert RepresentativesOf(members, sources) == Representatives(p.eligible);
    hide PartsOf, Representatives;
    InSomePart(members, sources, members[k]);
    var m :| 0 <= m < |p.rejected| && p.rejected[m] == members[k];
  }

  lemma {:induction false} NoFareNothingLeft(table: seq<Observation>, keys: seq<Key>, sources: Sources, policy: Policy)
    requires AfterKeys(table, keys, sources, policy).fares == []
    ensures var later := AfterKeys(table, keys, sources, policy).table;
            && OnlyMarked(table, later)
            && forall i :: 0 <= i < |table| && KeyOf(table[i]).Some? && KeyOf(table[i]).value in keys ==>
                 !later[i].included
  {
    if keys != [] {
      var head, last := keys[..|keys| - 1], keys[|keys| - 1];
      var before := AfterKeys(table, head, sources, policy);
      var p := PartsOf(Members(table, last), sources);
      NoFareNothingLeft(table, head, sources, policy);
      MembersAre(table, last);
      var later := AfterKeys(table, keys, sources, policy).table;
      assert later == MarkAll(before.table, p, false) && Representatives(p.eligible) == [];
      hide AfterKeys, PartsOf, Members, Marked, KeyOf, Representatives;
      forall i | 0 <= i < |table|
        ensures KeyOf(later[i]) == KeyOf(table[i]) || !later[i].included
        ensures KeyOf(table[i]).Some? && KeyOf(table[i]).value in keys ==> !later[i].included
      {
        MarkedKey(before.table[i], i, p, false);
        if KeyOf(table[i]) == Some(last) {
          GroupWithoutFare(Members(table, last), sources, i);
        }
      }
    }
  }

  /** Canonicalising a run again changes nothing and reports the same count, also when the first time
      created none. */
  lemma SecondRunIdle(state: State, sources: Sources, policy: Policy)
    ensures Canonicalised(Canonicalised(state, sources, policy), sources, policy)
              == Canonicalised(state, sources, policy)
  {
    var once := Canonicalised(state, sources, policy);
    if once.fares == [] {
      var keys := Keys(state.table);
      NoFareNothingLeft(state.table, keys, sources, policy);
      KeysAre(state.table);
      forall i | 0 <= i < |once.table|
        ensures KeyOf(once.table[i]).None?
      {
        assert KeyOf(once.table[i]) == KeyOf(state.table[i]) || !once.table[i].included;
      }
      KeysAre(once.table);
      hide AfterKeys, Keys, KeyOf;
      assert once == State(once.table, []);
      NoKeys(once.table, sources, policy);
    }
  }

  lemma NoKeys(table: seq<Observation>, sources: Sources, policy: Policy)
    ensures AfterKeys(table, [], sources, policy) == State(table, [])
  {
  }

  /** Every canonical fare of a run whose observations have positive fares is positive. */
  ghost predicate PositiveObservations(table: seq<Observation>) {
    forall i :: 0 <= i < |table| && table[i].included && table[i].fare.Some? ==> table[i].fare.value > 0
  }

  lemma {:induction false} FaresPositive(table: seq<Observation>, keys: seq<Key>, sources: Sources, policy: Policy)
    requires PositiveObservations(table)
    ensures forall k :: 0 <= k < |AfterKeys(table, keys, sources, policy).fares| ==>
              AfterKeys(table, keys, sources, policy).fares[k].statistics.representative > 0
  {
    if keys != [] {
      var last := keys[|keys| - 1];
      FaresPositive(table, keys[..|keys| - 1], sources, policy);
      GroupPositive(table, last, sources, policy);
    }
    hide Members, PartsOf, Representatives, StatisticsOf, LinksOf, MarkAll, PositiveObservations;
  }

  lemma GroupPositive(table: seq<Observation>, key: Key, sources: Sources, policy: Policy)
    requires PositiveObservations(table)
    ensures var r := Representatives(PartsOf(Members(table, key), sources).eligible);
            r != [] ==> StatisticsOf(r, sources, policy).representative > 0
  {
    var members := Members(table, key);
    MembersAre(table, key);
    forall c | c in members
      ensures c.fare > 0
    {
      var k :| 0 <= k < |members| && members[k] == c;
      assert KeyOf(table[c.row]) == Some(key);
    }
    assert RepresentativesOf(members, sources) == Representatives(PartsOf(members, sources).eligible);
    PublishedPositive(members, sources, policy);
    hide Members, PartsOf, Representatives, StatisticsOf, RepresentativesOf;
  }
}
