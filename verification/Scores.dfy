/** Quality scores through the pipeline.  A penalty is taken from `quality_score or 100`, so one that met a
    score of zero would raise it; it never does, because an observation that is penalised at all was
    accepted by the gate with a score of 100 and is penalised at most twice, however often a run is curated
    again after a kill. */
module Scores {
  import opened Options
  import opened Observations
  import Normalize
  import Outliers
  import Canonical
  import CanonicalRun
  import Pipeline

  /** A penalty takes exactly its points if and only if there is a score and it is at least the penalty. */
  lemma PenaltyTakesItsPoints(score: Option<int>, penalty: int)
    requires 0 < penalty <= 100
    ensures score.Some? && Penalised(score, penalty) == Some(score.value - penalty)
       <==> score.Some? && score.value >= penalty
  {
  }

  // ---------------------------------------------------------------------------------------------
  // An observation is marked only with its own group

  lemma PartsAreMembers(members: seq<Canonical.Candidate>, sources: Canonical.Sources, i: int)
    ensures var p := Canonical.PartsOf(members, sources);
            (CanonicalRun.Has(p.eligible, i) || CanonicalRun.Has(p.duplicates, i) || CanonicalRun.Has(p.rejected, i))
            ==> CanonicalRun.Has(members, i)
  {
    var p := Canonical.PartsOf(members, sources);
    var linked := Canonical.Linked(p);
    Canonical.EveryCandidateLinked(members, sources);
    hide Canonical.PartsOf;
    if CanonicalRun.Has(p.eligible, i) || CanonicalRun.Has(p.duplicates, i) || CanonicalRun.Has(p.rejected, i) {
      HasAppend(p.eligible, p.duplicates, i);
      HasAppend(p.eligible + p.duplicates, p.rejected, i);
      var k :| 0 <= k < |linked| && linked[k].row == i;
      assert linked[k] in multiset(linked);
      assert linked[k] in multiset(members);
      var m :| 0 <= m < |members| && members[m] == linked[k];
    }
  }

  lemma HasAppend(a: seq<Canonical.Candidate>, b: seq<Canonical.Candidate>, i: int)
    ensures CanonicalRun.Has(a, i) || CanonicalRun.Has(b, i) ==> CanonicalRun.Has(a + b, i)
  {
    if CanonicalRun.Has(a, i) {
      var k :| 0 <= k < |a| && a[k].row == i;
      assert (a + b)[k].row == i;
    } else if CanonicalRun.Has(b, i) {
      var k :| 0 <= k < |b| && b[k].row == i;
      assert (a + b)[|a| + k].row == i;
    }
  }

  predicate ConflictOf(p: Canonical.Parts, sources: Canonical.Sources, policy: Canonical.Policy) {
    var r := Canonical.Representatives(p.eligible);
    r != [] && Canonical.StatisticsOf(r, sources, policy).conflict
  }

  lemma GroupMarks(state: CanonicalRun.State, key: CanonicalRun.Key, members: seq<Canonical.Candidate>,
                   sources: Canonical.Sources, policy: Canonical.Policy)
    ensures var p := Canonical.PartsOf(members, sources);
            CanonicalRun.WithGroup(state, key, members, sources, policy).table
              == CanonicalRun.MarkAll(state.table, p, ConflictOf(p, sources, policy))
  {
    hide Canonical.PartsOf, Canonical.Representatives, Canonical.StatisticsOf, CanonicalRun.MarkAll, Canonical.LinksOf;
  }

  lemma OtherGroup(table: seq<Observation>, key: CanonicalRun.Key, sources: Canonical.Sources, i: nat,
                   o: Observation, conflict: bool)
    requires i < |table| && CanonicalRun.KeyOf(table[i]) != Some(key)
    ensures CanonicalRun.Marked(o, i, Canonical.PartsOf(CanonicalRun.Members(table, key), sources), conflict) == o
  {
    var members := CanonicalRun.Members(table, key);
    CanonicalRun.MembersAre(table, key);
    PartsAreMembers(members, sources, i);
    hide Canonical.PartsOf, CanonicalRun.Members, CanonicalRun.KeyOf, CanonicalRun.MarkRejected,
         CanonicalRun.MarkDuplicate, CanonicalRun.MarkConflict;
  }

  /** Row `i` marked with its own group, if that is among `keys`. */
  function OwnMark(table: seq<Observation>, keys: seq<CanonicalRun.Key>, sources: Canonical.Sources,
                   policy: Canonical.Policy, i: nat): Observation
    requires i < |table|
  {
    var key := CanonicalRun.KeyOf(table[i]);
    if key.None? || key.value !in keys then table[i]
    else
      var p := Canonical.PartsOf(CanonicalRun.Members(table, key.value), sources);
      CanonicalRun.Marked(table[i], i, p, ConflictOf(p, sources, policy))
  }

  lemma LastKey(table: seq<Observation>, keys: seq<CanonicalRun.Key>, sources: Canonical.Sources,
                policy: Canonical.Policy)
    requires keys != []
    ensures var last := keys[|keys| - 1];
            var p := Canonical.PartsOf(CanonicalRun.Members(table, last), sources);
            CanonicalRun.AfterKeys(table, keys, sources, policy).table
              == CanonicalRun.MarkAll(CanonicalRun.AfterKeys(table, keys[..|keys| - 1], sources, policy).table, p,
                                      ConflictOf(p, sources, policy))
  {
    var last := keys[|keys| - 1];
    GroupMarks(CanonicalRun.AfterKeys(table, keys[..|keys| - 1], sources, policy), last,
               CanonicalRun.Members(table, last), sources, policy);
    hide CanonicalRun.WithGroup, CanonicalRun.MarkAll, Canonical.PartsOf, CanonicalRun.Members, ConflictOf;
  }

  lemma NoKeysNoMark(table: seq<Observation>, sources: Canonical.Sources, policy: Canonical.Policy, i: nat)
    requires i < |table|
    ensures CanonicalRun.AfterKeys(table, [], sources, policy).table == table
    ensures OwnMark(table, [], sources, policy, i) == table[i]
  {
    hide CanonicalRun.KeyOf;
  }

  lemma OwnMarkStep(table: seq<Observation>, head: seq<CanonicalRun.Key>, last: CanonicalRun.Key,
                    sources: Canonical.Sources, policy: Canonical.Policy, i: nat)
    requires i < |table| && last !in head
    ensures var p := Canonical.PartsOf(CanonicalRun.Members(table, last), sources);
            OwnMark(table, head + [last], sources, policy, i)
              == CanonicalRun.Marked(OwnMark(table, head, sources, policy, i), i, p, ConflictOf(p, sources, policy))
  {
    if CanonicalRun.KeyOf(table[i]) != Some(last) {
      var p := Canonical.PartsOf(CanonicalRun.Members(table, last), sources);
      OtherGroup(table, last, sources, i, OwnMark(table, head, sources, policy, i), ConflictOf(p, sources, policy));
    }
    hide CanonicalRun.Marked, Canonical.PartsOf, CanonicalRun.Members, CanonicalRun.KeyOf, ConflictOf;
  }

  lemma MarkAllAt(table: seq<Observation>, p: Canonical.Parts, conflict: bool, i: nat)
    requires i < |table|
    ensures |CanonicalRun.MarkAll(table, p, conflict)| == |table|
    ensures CanonicalRun.MarkAll(table, p, conflict)[i] == CanonicalRun.Marked(table[i], i, p, conflict)
  {
    hide CanonicalRun.Marked;
  }

  ghost predicate DistinctKeys(keys: seq<CanonicalRun.Key>) {
    forall a, b :: 0 <= a < b < |keys| ==> keys[a] != keys[b]
  }

  lemma SplitKeys(keys: seq<CanonicalRun.Key>)
    requires keys != [] && DistinctKeys(keys)
    ensures var head, last := keys[..|keys| - 1], keys[|keys| - 1];
            DistinctKeys(head) && last !in head && keys == head + [last]
  {
  }

  /** The table after canonicalisation, row by row: a row is marked with its own group and with no other. */
  lemma {:induction false} MarkedOnce(table: seq<Observation>, keys: seq<CanonicalRun.Key>, sources: Canonical.Sources,
                                      policy: Canonical.Policy, i: nat)
    requires i < |table| && DistinctKeys(keys)
    ensures var later := CanonicalRun.AfterKeys(table, keys, sources, policy).table;
            |later| == |table| && later[i] == OwnMark(table, keys, sources, policy, i)
  {
    hide *;
    if keys == [] {
      NoKeysNoMark(table, sources, policy, i);
    } else {
      var head, last := keys[..|keys| - 1], keys[|keys| - 1];
      var before := CanonicalRun.AfterKeys(table, head, sources, policy);
      var p := Canonical.PartsOf(CanonicalRun.Members(table, last), sources);
      SplitKeys(keys);
      MarkedOnce(table, head, sources, policy, i);
      LastKey(table, keys, sources, policy);
      MarkAllAt(before.table, p, ConflictOf(p, sources, policy), i);
      OwnMarkStep(table, head, last, sources, policy, i);
    }
  }

  lemma CanonicalisedIs(table: seq<Observation>, sources: Canonical.Sources, policy: Canonical.Policy)
    ensures CanonicalRun.Canonicalised(CanonicalRun.State(table, []), sources, policy)
         == CanonicalRun.AfterKeys(table, CanonicalRun.Keys(table), sources, policy)
    ensures DistinctKeys(CanonicalRun.Keys(table))
  {
    CanonicalRun.KeysAre(table);
    hide CanonicalRun.AfterKeys, CanonicalRun.Keys;
  }

  lemma CanonicalisedRow(table: seq<Observation>, sources: Canonical.Sources, policy: Canonical.Policy, i: nat)
    requires i < |table|
    ensures var later := CanonicalRun.Canonicalised(CanonicalRun.State(table, []), sources, policy).table;
            |later| == |table| && later[i] == OwnMark(table, CanonicalRun.Keys(table), sources, policy, i)
  {
    CanonicalisedIs(table, sources, policy);
    hide *;
    MarkedOnce(table, CanonicalRun.Keys(table), sources, policy, i);
  }

  // ---------------------------------------------------------------------------------------------
  // What is left of a hundred points

  function Points(flags: seq<QualityFlag>): int {
    (if POSSIBLE_OUTLIER in flags then 5 else 0)
    + (if QualityFlag.DUPLICATE in flags then 20 else 0)
    + (if SOURCE_CONFLICT in flags then 10 else 0)
  }

  lemma MarkedPoints(o: Observation, i: int, p: Canonical.Parts, conflict: bool)
    requires QualityFlag.DUPLICATE !in o.flags && SOURCE_CONFLICT !in o.flags && o.score == Some(100 - Points(o.flags))
    ensures var m := CanonicalRun.Marked(o, i, p, conflict);
            m.score == Some(100 - Points(m.flags)) && m.score.value >= 75
  {
    hide CanonicalRun.Has;
  }

  lemma UngatedUntouched(quotes: seq<Pipeline.Collected>, i: nat)
    requires i < |quotes| && Normalize.Flags(quotes[i].quote) != []
    ensures Outliers.AfterPass(Pipeline.TableOf(quotes))[i] == Pipeline.ObservationOf(quotes[i])
    ensures CanonicalRun.KeyOf(Pipeline.ObservationOf(quotes[i])).None?
  {
    hide Normalize.Flags, Outliers.GroupFares, Outliers.IsOutlier;
  }

  lemma GatedScore(quotes: seq<Pipeline.Collected>, i: nat)
    requires i < |quotes| && Normalize.Flags(quotes[i].quote) == []
    ensures var o := Outliers.AfterPass(Pipeline.TableOf(quotes))[i];
            && (o.flags == [] || o.flags == [POSSIBLE_OUTLIER])
            && o.score == Some(100 - Points(o.flags)) && o.score.value >= 95
  {
    hide Normalize.Flags, Outliers.GroupFares, Outliers.IsOutlier;
    assert [] + [POSSIBLE_OUTLIER] == [POSSIBLE_OUTLIER];
  }

  lemma OwnMarkCases(table: seq<Observation>, keys: seq<CanonicalRun.Key>, sources: Canonical.Sources,
                     policy: Canonical.Policy, i: nat) returns (p: Canonical.Parts, conflict: bool)
    requires i < |table|
    ensures var m := OwnMark(table, keys, sources, policy, i);
            m == table[i] || m == CanonicalRun.Marked(table[i], i, p, conflict)
  {
    var key := CanonicalRun.KeyOf(table[i]);
    p, conflict := Canonical.Parts([], [], []), false;
    if key.Some? && key.value in keys {
      p := Canonical.PartsOf(CanonicalRun.Members(table, key.value), sources);
      conflict := ConflictOf(p, sources, policy);
    }
    hide CanonicalRun.Marked, Canonical.PartsOf, CanonicalRun.Members, CanonicalRun.KeyOf, ConflictOf;
  }

  lemma OnlyOutlier(flags: seq<QualityFlag>)
    requires flags == [] || flags == [POSSIBLE_OUTLIER]
    ensures QualityFlag.DUPLICATE !in flags && SOURCE_CONFLICT !in flags && Points(flags) <= 5
  {
  }

  lemma OwnMarkPoints(table: seq<Observation>, keys: seq<CanonicalRun.Key>, sources: Canonical.Sources,
                      policy: Canonical.Policy, i: nat)
    requires i < |table| && (table[i].flags == [] || table[i].flags == [POSSIBLE_OUTLIER])
    requires table[i].score == Some(100 - Points(table[i].flags))
    ensures var m := OwnMark(table, keys, sources, policy, i);
            m.score == Some(100 - Points(m.flags)) && m.score.value >= 75
  {
    hide *;
    OnlyOutlier(table[i].flags);
    var p, conflict := OwnMarkCases(table, keys, sources, policy, i);
    MarkedPoints(table[i], i, p, conflict);
  }

  lemma NoOwnMark(table: seq<Observation>, keys: seq<CanonicalRun.Key>, sources: Canonical.Sources,
                  policy: Canonical.Policy, i: nat)
    requires i < |table| && CanonicalRun.KeyOf(table[i]).None?
    ensures OwnMark(table, keys, sources, policy, i) == table[i]
  {
    hide CanonicalRun.KeyOf;
  }

  lemma ProcessedIs(quotes: seq<Pipeline.Collected>, sources: Canonical.Sources, policy: Canonical.Policy)
    ensures Pipeline.Processed(quotes, sources, policy)
         == CanonicalRun.Canonicalised(CanonicalRun.State(Outliers.AfterPass(Pipeline.TableOf(quotes)), []),
                                       sources, policy)
    ensures |Outliers.AfterPass(Pipeline.TableOf(quotes))| == |quotes|
  {
    hide CanonicalRun.Canonicalised, Outliers.AfterPass;
  }

  /** A first, uninterrupted curation: each penalty meets a score of at least 95. */
  lemma FirstCuration(quotes: seq<Pipeline.Collected>, sources: Canonical.Sources, policy: Canonical.Policy, i: nat)
    requires i < |quotes|
    ensures var flagged := Outliers.AfterPass(Pipeline.TableOf(quotes));
            var later := Pipeline.Processed(quotes, sources, policy).table;
            && |later| == |flagged| == |quotes|
            && if Normalize.Flags(quotes[i].quote) == []
               then flagged[i].score.Some? && flagged[i].score.value >= 95
                    && later[i].score == Some(100 - Points(later[i].flags)) && later[i].score.value >= 75
               else later[i] == Pipeline.ObservationOf(quotes[i])
  {
    hide *;
    var flagged := Outliers.AfterPass(Pipeline.TableOf(quotes));
    ProcessedIs(quotes, sources, policy);
    CanonicalisedRow(flagged, sources, policy, i);
    if Normalize.Flags(quotes[i].quote) == [] {
      GatedScore(quotes, i);
      OwnMarkPoints(flagged, CanonicalRun.Keys(flagged), sources, policy, i);
    } else {
      UngatedUntouched(quotes, i);
      NoOwnMark(flagged, CanonicalRun.Keys(flagged), sources, policy, i);
    }
  }

  // ---------------------------------------------------------------------------------------------
  // Any number of curations

  /** The configuration a curation finds. */
  datatype Setting = Setting(sources: Canonical.Sources, policy: Canonical.Policy)

  /** `flag_statistical_outliers` over what is included now, then `canonicalize_run`, which leaves a run
      with canonical fares alone. */
  function Curated(state: CanonicalRun.State, c: Setting): CanonicalRun.State {
    CanonicalRun.Canonicalised(CanonicalRun.State(Outliers.AfterPass(state.table), state.fares), c.sources, c.policy)
  }

  /** The state after a run was curated over and over: once for every call that was killed after its
      canonical fares were committed, and once by the call that returned. */
  function CuratedAll(state: CanonicalRun.State, settings: seq<Setting>): CanonicalRun.State {
    if settings == [] then state
    else Curated(CuratedAll(state, settings[..|settings| - 1]), settings[|settings| - 1])
  }

  /** The score is what the flags leave of a hundred; a duplicate is out and never in conflict, and there is
      no conflict before there are canonical fares. */
  predicate AddsUp(o: Observation, priced: bool) {
    && o.score == Some(100 - Points(o.flags))
    && (QualityFlag.DUPLICATE in o.flags ==> !o.included && SOURCE_CONFLICT !in o.flags)
    && (SOURCE_CONFLICT in o.flags ==> priced)
  }

  lemma AtLeast75(o: Observation, priced: bool)
    requires AddsUp(o, priced)
    ensures o.score.Some? && o.score.value >= 75
  {
  }

  /** An outlier penalty meets at least 90. */
  lemma PassAddsUp(rows: seq<Observation>, i: nat, priced: bool)
    requires i < |rows| && AddsUp(rows[i], priced)
    ensures var next := Outliers.AfterPass(rows);
            |next| == |rows| && AddsUp(next[i], priced) && next[i].included == rows[i].included
    ensures Outliers.Flags(rows, i) ==> rows[i].score.value >= 90
    ensures !Outliers.Flags(rows, i) ==> Outliers.AfterPass(rows)[i] == rows[i]
  {
    var o := rows[i];
    if Outliers.Flags(rows, i) {
      assert o.included && POSSIBLE_OUTLIER !in o.flags;
      assert forall f :: f in o.flags + [POSSIBLE_OUTLIER] <==> f in o.flags || f == POSSIBLE_OUTLIER;
    }
    hide Outliers.GroupFares, Outliers.IsOutlier;
  }

  lemma MarkedAddsUp(o: Observation, i: int, p: Canonical.Parts, conflict: bool, priced: bool)
    requires AddsUp(o, false) && o.included && (conflict ==> priced)
    ensures var m := CanonicalRun.Marked(o, i, p, conflict);
            AddsUp(m, priced) && (m.score != o.score ==> o.score.value >= 95)
  {
    hide CanonicalRun.Has;
  }

  lemma AddsUpLater(o: Observation, priced: bool)
    requires AddsUp(o, false)
    ensures AddsUp(o, priced)
  {
  }

  lemma LastFares(table: seq<Observation>, keys: seq<CanonicalRun.Key>, sources: Canonical.Sources,
                  policy: Canonical.Policy)
    requires keys != []
    ensures var n := |keys| - 1;
            var p := Canonical.PartsOf(CanonicalRun.Members(table, keys[n]), sources);
            && (CanonicalRun.AfterKeys(table, keys[..n], sources, policy).fares != []
                || Canonical.Representatives(p.eligible) != [] ==>
                  CanonicalRun.AfterKeys(table, keys, sources, policy).fares != [])
  {
    hide CanonicalRun.Members, CanonicalRun.MarkAll, Canonical.PartsOf, Canonical.Representatives,
         Canonical.StatisticsOf, Canonical.LinksOf, CanonicalRun.NewFare;
  }

  lemma ConflictPriced(p: Canonical.Parts, sources: Canonical.Sources, policy: Canonical.Policy)
    requires ConflictOf(p, sources, policy)
    ensures Canonical.Representatives(p.eligible) != []
  {
    hide Canonical.Representatives, Canonical.StatisticsOf;
  }

  lemma {:induction false} ConflictMeansFare(table: seq<Observation>, keys: seq<CanonicalRun.Key>,
                                             sources: Canonical.Sources, policy: Canonical.Policy,
                                             key: CanonicalRun.Key)
    requires key in keys
    requires ConflictOf(Canonical.PartsOf(CanonicalRun.Members(table, key), sources), sources, policy)
    ensures CanonicalRun.AfterKeys(table, keys, sources, policy).fares != []
    decreases |keys|
  {
    hide *;
    var n := |keys| - 1;
    LastFares(table, keys, sources, policy);
    if key == keys[n] {
      ConflictPriced(Canonical.PartsOf(CanonicalRun.Members(table, key), sources), sources, policy);
    } else {
      assert key in keys[..n];
      ConflictMeansFare(table, keys[..n], sources, policy, key);
    }
  }

  lemma KeyedIncluded(o: Observation)
    requires CanonicalRun.KeyOf(o).Some?
    ensures o.included
  {
  }

  lemma OwnMarkIs(table: seq<Observation>, keys: seq<CanonicalRun.Key>, sources: Canonical.Sources,
                  policy: Canonical.Policy, i: nat)
    requires i < |table|
    ensures var key, m := CanonicalRun.KeyOf(table[i]), OwnMark(table, keys, sources, policy, i);
            if key.None? || key.value !in keys then m == table[i]
            else
              var p := Canonical.PartsOf(CanonicalRun.Members(table, key.value), sources);
              m == CanonicalRun.Marked(table[i], i, p, ConflictOf(p, sources, policy))
  {
    hide CanonicalRun.Marked, Canonical.PartsOf, CanonicalRun.Members, CanonicalRun.KeyOf, ConflictOf;
  }

  lemma OwnMarkAddsUp(table: seq<Observation>, keys: seq<CanonicalRun.Key>, sources: Canonical.Sources,
                      policy: Canonical.Policy, i: nat)
    requires i < |table| && AddsUp(table[i], false)
    ensures var m := OwnMark(table, keys, sources, policy, i);
            && AddsUp(m, CanonicalRun.AfterKeys(table, keys, sources, policy).fares != [])
            && (m.score != table[i].score ==> table[i].score.Some? && table[i].score.value >= 95)
  {
    hide *;
    var key := CanonicalRun.KeyOf(table[i]);
    var priced := CanonicalRun.AfterKeys(table, keys, sources, policy).fares != [];
    AddsUpLater(table[i], priced);
    AtLeast75(table[i], false);
    OwnMarkIs(table, keys, sources, policy, i);
    if key.Some? && key.value in keys {
      var p := Canonical.PartsOf(CanonicalRun.Members(table, key.value), sources);
      KeyedIncluded(table[i]);
      if ConflictOf(p, sources, policy) {
        ConflictMeansFare(table, keys, sources, policy, key.value);
      }
      MarkedAddsUp(table[i], i, p, ConflictOf(p, sources, policy), priced);
    }
  }

  lemma CanonicalisedKept(state: CanonicalRun.State, c: Setting)
    requires state.fares != []
    ensures CanonicalRun.Canonicalised(state, c.sources, c.policy) == state
  {
  }

  lemma CuratedParts(state: CanonicalRun.State, c: Setting)
    ensures var flagged := Outliers.AfterPass(state.table);
            && |flagged| == |state.table|
            && (state.fares != [] ==> Curated(state, c) == CanonicalRun.State(flagged, state.fares))
            && (state.fares == [] ==>
                  Curated(state, c)
                    == CanonicalRun.Canonicalised(CanonicalRun.State(flagged, []), c.sources, c.policy))
  {
    var flagged := CanonicalRun.State(Outliers.AfterPass(state.table), state.fares);
    if state.fares != [] {
      CanonicalisedKept(flagged, c);
    }
    hide Outliers.AfterPass, CanonicalRun.AfterKeys, CanonicalRun.Keys;
  }

  /** One more curation: what it makes of an observation whose score adds up, and what its penalties meet. */
  lemma CuratedAddsUp(state: CanonicalRun.State, c: Setting, i: nat)
    requires i < |state.table| && AddsUp(state.table[i], state.fares != [])
    ensures var flagged, later := Outliers.AfterPass(state.table), Curated(state, c);
            && |later.table| == |flagged| == |state.table| && AddsUp(later.table[i], later.fares != [])
            && (Outliers.Flags(state.table, i) ==> state.table[i].score.value >= 90)
            && (later.table[i].score != flagged[i].score ==> flagged[i].score.Some? && flagged[i].score.value >= 95)
  {
    hide *;
    var flagged := Outliers.AfterPass(state.table);
    CuratedParts(state, c);
    PassAddsUp(state.table, i, state.fares != []);
    if state.fares == [] {
      CanonicalisedRow(flagged, c.sources, c.policy, i);
      CanonicalisedIs(flagged, c.sources, c.policy);
      AtLeast75(flagged[i], false);
      OwnMarkAddsUp(flagged, CanonicalRun.Keys(flagged), c.sources, c.policy, i);
    }
  }

  lemma CuratedExcluded(state: CanonicalRun.State, c: Setting, i: nat)
    requires i < |state.table| && !state.table[i].included
    ensures |Curated(state, c).table| == |state.table| && Curated(state, c).table[i] == state.table[i]
  {
    var flagged := Outliers.AfterPass(state.table);
    assert flagged[i] == state.table[i] by {
      hide Outliers.GroupFares, Outliers.IsOutlier;
    }
    assert CanonicalRun.KeyOf(flagged[i]).None?;
    CuratedParts(state, c);
    hide *;
    if state.fares == [] {
      CanonicalisedRow(flagged, c.sources, c.policy, i);
      NoOwnMark(flagged, CanonicalRun.Keys(flagged), c.sources, c.policy, i);
    }
  }

  lemma StoredAddsUp(c: Pipeline.Collected)
    ensures Normalize.Flags(c.quote) == [] ==> AddsUp(Pipeline.ObservationOf(c), false)
    ensures Normalize.Flags(c.quote) != [] ==> !Pipeline.ObservationOf(c).included
  {
    hide Normalize.Flags;
  }

  lemma CuratedAllStep(state: CanonicalRun.State, settings: seq<Setting>)
    requires settings != []
    ensures CuratedAll(state, settings)
         == Curated(CuratedAll(state, settings[..|settings| - 1]), settings[|settings| - 1])
  {
    hide Curated;
  }

  ghost predicate RowAccounted(c: Pipeline.Collected, o: Observation, priced: bool) {
    if Normalize.Flags(c.quote) == [] then AddsUp(o, priced) else o == Pipeline.ObservationOf(c)
  }

  lemma RowAccountedStep(quote: Pipeline.Collected, state: CanonicalRun.State, c: Setting, i: nat)
    requires i < |state.table| && RowAccounted(quote, state.table[i], state.fares != [])
    ensures var later := Curated(state, c);
            |later.table| == |state.table| && RowAccounted(quote, later.table[i], later.fares != [])
  {
    StoredAddsUp(quote);
    hide Normalize.Flags, Pipeline.ObservationOf, AddsUp, Curated;
    if Normalize.Flags(quote.quote) == [] {
      CuratedAddsUp(state, c, i);
    } else {
      CuratedExcluded(state, c, i);
    }
  }

  lemma {:induction false} RowsAccounted(quotes: seq<Pipeline.Collected>, settings: seq<Setting>, i: nat)
    requires i < |quotes|
    ensures var state := CuratedAll(CanonicalRun.State(Pipeline.TableOf(quotes), []), settings);
            |state.table| == |quotes| && RowAccounted(quotes[i], state.table[i], state.fares != [])
    decreases |settings|
  {
    var first := CanonicalRun.State(Pipeline.TableOf(quotes), []);
    if settings == [] {
      StoredAddsUp(quotes[i]);
    } else {
      RowsAccounted(quotes, settings[..|settings| - 1], i);
      CuratedAllStep(first, settings);
      hide *;
      RowAccountedStep(quotes[i], CuratedAll(first, settings[..|settings| - 1]), settings[|settings| - 1], i);
    }
    hide Pipeline.ObservationOf, Normalize.Flags, Curated, AddsUp;
  }

  lemma AccountedScore(quote: Pipeline.Collected, o: Observation, priced: bool)
    requires RowAccounted(quote, o, priced)
    ensures if Normalize.Flags(quote.quote) == []
            then o.score == Some(100 - Points(o.flags)) && o.score.value >= 75
            else o == Pipeline.ObservationOf(quote)
  {
    hide Normalize.Flags, Pipeline.ObservationOf;
  }

  /** However often a run is curated, under whatever configurations: the score of every observation that
      passed the gate is 100 less 5 for an outlier, 20 for a duplicate and 10 for a conflict, and an
      observation that did not pass is as it was stored. */
  lemma ScoresAddUp(quotes: seq<Pipeline.Collected>, settings: seq<Setting>, i: nat)
    requires i < |quotes|
    ensures var later := CuratedAll(CanonicalRun.State(Pipeline.TableOf(quotes), []), settings).table;
            && |later| == |quotes|
            && if Normalize.Flags(quotes[i].quote) == []
               then later[i].score == Some(100 - Points(later[i].flags)) && later[i].score.value >= 75
               else later[i] == Pipeline.ObservationOf(quotes[i])
  {
    hide *;
    var state := CuratedAll(CanonicalRun.State(Pipeline.TableOf(quotes), []), settings);
    RowsAccounted(quotes, settings, i);
    AccountedScore(quotes[i], state.table[i], state.fares != []);
  }

  /** In each of these curations an outlier penalty meets a score of at least 90, the penalty of a duplicate or
      a conflict one of at least 95, and an observation that did not pass the gate meets none. */
  lemma PenaltiesMeetNinety(quotes: seq<Pipeline.Collected>, settings: seq<Setting>, next: Setting, i: nat)
    requires i < |quotes|
    ensures var state := CuratedAll(CanonicalRun.State(Pipeline.TableOf(quotes), []), settings);
            var flagged, later := Outliers.AfterPass(state.table), Curated(state, next).table;
            && |state.table| == |flagged| == |later| == |quotes|
            && (Outliers.Flags(state.table, i) ==> state.table[i].score.Some? && state.table[i].score.value >= 90)
            && (later[i].score != flagged[i].score ==> flagged[i].score.Some? && flagged[i].score.value >= 95)
            && (Normalize.Flags(quotes[i].quote) != [] ==>
                  !Outliers.Flags(state.table, i) && later[i] == flagged[i] == state.table[i])
  {
    RowsAccounted(quotes, settings, i);
    StoredAddsUp(quotes[i]);
    var state := CuratedAll(CanonicalRun.State(Pipeline.TableOf(quotes), []), settings);
    CuratedParts(state, next);
    hide Pipeline.ObservationOf, Normalize.Flags, CuratedAll, Pipeline.TableOf, Points, Curated, Outliers.GroupFares,
         Outliers.IsOutlier;
    if Normalize.Flags(quotes[i].quote) == [] {
      AtLeast75(state.table[i], state.fares != []);
      hide *;
      CuratedAddsUp(state, next, i);
    } else {
      CuratedExcluded(state, next, i);
    }
  }
}
