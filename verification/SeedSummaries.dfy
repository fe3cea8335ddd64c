/** What a load leaves in the reference summaries: recomputed rows for its own groups, everything else as it was. */
module SeedSummaries {
  import opened Wrappers
  import opened Sequences
  import opened JsonTrees
  import opened SeedTypes
  import opened SeedDispatch
  import opened SeedDatabase
  import opened SeedLoader
  import opened SeedLoadTheory

  // ----- Recomputed rows

  /** The row holds its group's aggregates over these tables, no patterns, and a time that the clock has shown. */
  ghost predicate Recomputed(row: Row, t: Tables, server: Server, origin: Json, level: Json) {
    && (forall c :: Merged(c) && c != KeyPatterns && c != UpdatedAt ==>
          At(row, c) == At(server.aggregate(t.roasts, t.telemetry, t.reviews, origin, level), c))
    && At(row, KeyPatterns) == JArr([])
    && exists k :: At(row, UpdatedAt) == JStr(server.clock(k))
  }

  /** So do all rows of the group. */
  ghost predicate GroupRecomputed(summaries: seq<Row>, t: Tables, server: Server, origin: Json, level: Json) {
    forall j :: 0 <= j < |summaries| && SameGroup(summaries[j], origin, level) ==>
      Recomputed(summaries[j], t, server, origin, level)
  }

  lemma RecomputedIsSource(row: Row, t: Tables, server: Server, origin: Json, level: Json, k: nat)
    requires HoldsSource(row, RecomputedRow(t, server, origin, level, k))
    ensures Recomputed(row, t, server, origin, level)
  {
    hide Columns;
    DataColumns();
    assert At(row, UpdatedAt) == JStr(server.clock(k));
  }

  lemma DataColumns()
    ensures Merged(KeyPatterns) && Merged(UpdatedAt)
  {
    var columns := Columns(ReferenceRoastSummaries);
    assert columns[13] == KeyPatterns && columns[14] == UpdatedAt;
  }

  lemma RecomputedGroupOf(t: Tables, server: Server, origin: Json, level: Json, k: nat)
    ensures var source := RecomputedRow(t, server, origin, level, k);
            At(source, BeanOrigin) == origin && At(source, RoastLevel) == level
  {
  }

  /** A recomputation leaves its own group recomputed, and every group that was so before. */
  lemma MergeRecomputes(t: Tables, server: Server, origin: Json, level: Json, k: nat, o: Json, l: Json)
    requires (o == origin && l == level) || GroupRecomputed(t.summaries, t, server, o, l)
    ensures GroupRecomputed(Merge(t.summaries, RecomputedRow(t, server, origin, level, k)), t, server, o, l)
  {
    hide Merge, RecomputedRow, Recomputed, HoldsSource, At;
    var source := RecomputedRow(t, server, origin, level, k);
    var merged := Merge(t.summaries, source);
    RecomputedGroupOf(t, server, origin, level, k);
    MergeUpdatesGroup(t.summaries, source);
    MergeTouchesOneGroup(t.summaries, source);
    forall j | 0 <= j < |merged| && SameGroup(merged[j], o, l) ensures Recomputed(merged[j], t, server, o, l) {
      if o == origin && l == level {
        RecomputedIsSource(merged[j], t, server, origin, level, k);
      } else if j < |t.summaries| {
        assert !SameGroup(t.summaries[j], origin, level);
      }
    }
  }

  lemma SameAggregates(summaries: seq<Row>, t: Tables, t': Tables, server: Server, o: Json, l: Json)
    requires t.roasts == t'.roasts && t.telemetry == t'.telemetry && t.reviews == t'.reviews
    ensures GroupRecomputed(summaries, t, server, o, l) <==> GroupRecomputed(summaries, t', server, o, l)
  {
    hide At;
  }

  // ----- Everything else

  ghost predicate OfGroups(row: Row, groups: seq<Record>) {
    exists i :: 0 <= i < |groups| && SameGroup(row, GroupOrigin(groups[i]), GroupLevel(groups[i]))
  }

  predicate SameKeys(a: Row, b: Row) {
    At(a, Id) == At(b, Id) && At(a, BeanOrigin) == At(b, BeanOrigin) && At(a, RoastLevel) == At(b, RoastLevel)
  }

  /** Rows keep their places and keys, rows of other groups everything, and what is new is of these groups. */
  ghost predicate OnlyGroups(before: seq<Row>, after: seq<Row>, groups: seq<Record>) {
    && |before| <= |after|
    && (forall j :: 0 <= j < |before| ==>
          SameKeys(after[j], before[j]) && (OfGroups(before[j], groups) || after[j] == before[j]))
    && (forall j :: |before| <= j < |after| ==> OfGroups(after[j], groups))
  }

  lemma OfGroupsByKeys(a: Row, b: Row, groups: seq<Record>)
    requires SameKeys(a, b)
    ensures OfGroups(a, groups) <==> OfGroups(b, groups)
  {
    hide At, GroupOrigin, GroupLevel;
  }

  lemma OnlyGroupsChain(a: seq<Row>, b: seq<Row>, c: seq<Row>, groups: seq<Record>)
    requires OnlyGroups(a, b, groups) && OnlyGroups(b, c, groups)
    ensures OnlyGroups(a, c, groups)
  {
    hide OfGroups, At;
    forall j | 0 <= j < |b| ensures OfGroups(c[j], groups) <==> OfGroups(b[j], groups) {
      OfGroupsByKeys(c[j], b[j], groups);
    }
    forall j | 0 <= j < |a| ensures OfGroups(b[j], groups) <==> OfGroups(a[j], groups) {
      OfGroupsByKeys(b[j], a[j], groups);
    }
  }

  lemma MergeOnlyGroups(summaries: seq<Row>, source: Row, groups: seq<Record>, i: nat)
    requires i < |groups| && At(source, BeanOrigin) == GroupOrigin(groups[i])
    requires At(source, RoastLevel) == GroupLevel(groups[i])
    requires GroupOrigin(groups[i]) != JNull && GroupLevel(groups[i]) != JNull
    ensures OnlyGroups(summaries, Merge(summaries, source), groups)
  {
    hide Merge, HoldsSource, At, GroupOrigin, GroupLevel;
    MergeUpdatesGroup(summaries, source);
    MergeTouchesOneGroup(summaries, source);
    assert SameGroup(source, GroupOrigin(groups[i]), GroupLevel(groups[i]));
  }

  // ----- Statement by statement

  lemma MergeStep(record: Record, t: Tables, server: Server, k: nat, groups: seq<Record>, i: nat)
    requires Effect(MergeSummary(Params(record, ReferenceRoastSummaries)), t, server, k).Some?
    requires i < |groups| && groups[i] == record
    ensures var t' := Effect(MergeSummary(Params(record, ReferenceRoastSummaries)), t, server, k).value.0;
            t' == t.(summaries := t'.summaries) && OnlyGroups(t.summaries, t'.summaries, groups)
  {
    hide BindUpTo, Params, Merge, OnlyGroups, RowOf, GroupOrigin, GroupLevel, RowAllowed;
    BindsEveryColumn(record, ReferenceRoastSummaries);
    ParamsCount(record, ReferenceRoastSummaries);
    var source := WithId(ReferenceRoastSummaries, RowOf(record, ReferenceRoastSummaries), server.uuid(k));
    SummarySourceGroup(record, server.uuid(k));
    AllowedGroup(source);
    MergeOnlyGroups(t.summaries, source, groups, i);
  }

  lemma AllowedGroup(source: Row)
    requires RowAllowed(ReferenceRoastSummaries, source)
    ensures At(source, BeanOrigin) != JNull && At(source, RoastLevel) != JNull
  {
  }

  predicate Among(rows: seq<Record>, groups: seq<Record>) {
    forall i :: 0 <= i < |rows| ==> rows[i] in groups
  }

  lemma {:induction false} MergesOnlyGroups(rows: seq<Record>, t: Tables, server: Server, k: nat, groups: seq<Record>)
    requires Run(Merges(rows), t, server, k).Some? && Among(rows, groups)
    ensures OnlyGroups(t.summaries, Run(Merges(rows), t, server, k).value.summaries, groups)
    decreases |rows|
  {
    hide Effect, Params, Run, OnlyGroups;
    if rows == [] {
      assert Merges(rows) == [];
      RunNothing(t, server, k);
      OnlyGroupsItself(t.summaries, groups);
    } else {
      var s := MergeSummary(Params(rows[0], ReferenceRoastSummaries));
      assert Merges(rows) == [s] + Merges(rows[1..]);
      RunCons(s, Merges(rows[1..]), t, server, k);
      var i :| 0 <= i < |groups| && groups[i] == rows[0];
      MergeStep(rows[0], t, server, k, groups, i);
      var t1 := Effect(s, t, server, k).value.0;
      MergesOnlyGroups(rows[1..], t1, server, k + 1, groups);
      OnlyGroupsChain(t.summaries, t1.summaries, Run(Merges(rows), t, server, k).value.summaries, groups);
    }
  }

  lemma OnlyGroupsItself(summaries: seq<Row>, groups: seq<Record>)
    ensures OnlyGroups(summaries, summaries, groups)
  {
  }

  /** One recomputation: only its group changes, that group is recomputed, and recomputed groups stay so. */
  lemma RecomputeStep(origin: Json, level: Json, t: Tables, server: Server, k: nat, groups: seq<Record>, i: nat,
                      o: Json, l: Json)
    requires Effect(Recompute(origin, level), t, server, k).Some?
    requires i < |groups| && origin == GroupOrigin(groups[i]) && level == GroupLevel(groups[i])
    ensures var t' := Effect(Recompute(origin, level), t, server, k).value.0;
            && t' == t.(summaries := t'.summaries, coordination := t'.coordination)
            && OnlyGroups(t.summaries, t'.summaries, groups)
            && ((o == origin && l == level) || GroupRecomputed(t.summaries, t, server, o, l) ==>
                  GroupRecomputed(t'.summaries, t', server, o, l))
  {
    hide Merge, OnlyGroups, RecomputedRow, Bumped, GroupOrigin, GroupLevel, CanEnter, GroupRecomputed;
    var entered := t.(coordination := Bumped(t.coordination));
    var t' := Effect(Recompute(origin, level), t, server, k).value.0;
    SameAggregates(t.summaries, t, entered, server, o, l);
    SameAggregates(t'.summaries, entered, t', server, o, l);
    if origin == JNull || level == JNull {
      OnlyGroupsItself(t.summaries, groups);
      NullGroup(t'.summaries, t', server, origin, level);
    } else {
      RecomputedGroupOf(entered, server, origin, level, k);
      MergeOnlyGroups(t.summaries, RecomputedRow(entered, server, origin, level, k), groups, i);
      if (o == origin && l == level) || GroupRecomputed(t.summaries, t, server, o, l) {
        MergeRecomputes(entered, server, origin, level, k, o, l);
      }
    }
  }

  lemma NullGroup(summaries: seq<Row>, t: Tables, server: Server, origin: Json, level: Json)
    requires origin == JNull || level == JNull
    ensures GroupRecomputed(summaries, t, server, origin, level)
  {
  }

  lemma {:induction false} RecomputesHold(rows: seq<Record>, t: Tables, server: Server, k: nat, groups: seq<Record>,
                                          o: Json, l: Json)
    requires Run(Recomputes(rows), t, server, k).Some? && Among(rows, groups)
    requires || GroupRecomputed(t.summaries, t, server, o, l)
             || exists i :: 0 <= i < |rows| && GroupOrigin(rows[i]) == o && GroupLevel(rows[i]) == l
    ensures var t' := Run(Recomputes(rows), t, server, k).value;
            && t' == t.(summaries := t'.summaries, coordination := t'.coordination)
            && OnlyGroups(t.summaries, t'.summaries, groups)
            && GroupRecomputed(t'.summaries, t', server, o, l)
    decreases |rows|
  {
    hide Effect, Run, OnlyGroups, GroupRecomputed, GroupOrigin, GroupLevel;
    if rows == [] {
      assert Recomputes(rows) == [];
      RunNothing(t, server, k);
      OnlyGroupsItself(t.summaries, groups);
    } else {
      var s := Recompute(GroupOrigin(rows[0]), GroupLevel(rows[0]));
      RecomputesCons(rows);
      RunCons(s, Recomputes(rows[1..]), t, server, k);
      var i :| 0 <= i < |groups| && groups[i] == rows[0];
      RecomputeStep(GroupOrigin(rows[0]), GroupLevel(rows[0]), t, server, k, groups, i, o, l);
      var t1 := Effect(s, t, server, k).value.0;
      assert GroupRecomputed(t1.summaries, t1, server, o, l)
        || exists i :: 0 <= i < |rows[1..]| && GroupOrigin(rows[1..][i]) == o && GroupLevel(rows[1..][i]) == l by {
        if !GroupRecomputed(t1.summaries, t1, server, o, l) {
          var j :| 0 <= j < |rows| && GroupOrigin(rows[j]) == o && GroupLevel(rows[j]) == l;
          assert j > 0 && rows[1..][j - 1] == rows[j];
        }
      }
      RecomputesHold(rows[1..], t1, server, k + 1, groups, o, l);
      OnlyGroupsChain(t.summaries, t1.summaries, Run(Recomputes(rows), t, server, k).value.summaries, groups);
    }
  }

  /** Every loaded group is recomputed over the tables as loaded; no other group is touched. */
  ghost predicate SummariesLoaded(before: seq<Row>, t': Tables, server: Server, groups: seq<Record>) {
    && OnlyGroups(before, t'.summaries, groups)
    && forall i :: 0 <= i < |groups| ==>
         GroupRecomputed(t'.summaries, t', server, GroupOrigin(groups[i]), GroupLevel(groups[i]))
  }

  lemma SummaryStatements(groups: seq<Record>, t: Tables, mid: Tables, server: Server, k: nat, k': nat)
    requires Run(Merges(groups), t, server, k) == Some(mid) && Run(Recomputes(groups), mid, server, k').Some?
    ensures SummariesLoaded(t.summaries, Run(Recomputes(groups), mid, server, k').value, server, groups)
  {
    hide Run, OnlyGroups, GroupRecomputed, GroupOrigin, GroupLevel;
    assert Among(groups, groups);
    MergesOnlyGroups(groups, t, server, k, groups);
    NullGroup(mid.summaries, mid, server, JNull, JNull);
    RecomputesHold(groups, mid, server, k', groups, JNull, JNull);
    OnlyGroupsChain(t.summaries, mid.summaries, Run(Recomputes(groups), mid, server, k').value.summaries, groups);
    forall i | 0 <= i < |groups|
      ensures var t' := Run(Recomputes(groups), mid, server, k').value;
              GroupRecomputed(t'.summaries, t', server, GroupOrigin(groups[i]), GroupLevel(groups[i]))
    {
      RecomputesHold(groups, mid, server, k', groups, GroupOrigin(groups[i]), GroupLevel(groups[i]));
    }
  }
}
