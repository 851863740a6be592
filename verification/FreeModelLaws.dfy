/** Runs of the free-model merge: what one keeps, and when repeating it settles. */
module FreeModelLaws {
  import opened Base
  import opened FreeModels

  // ----- sequences

  lemma {:induction false} FilterAppend<T>(p: T -> bool, a: seq<T>, b: seq<T>)
    ensures Filter(p, a + b) == Filter(p, a) + Filter(p, b)
  {
    if b == [] {
      assert a + b == a;
    } else {
      assert (a + b)[..|a + b| - 1] == a + b[..|b| - 1];
      FilterAppend(p, a, b[..|b| - 1]);
    }
  }

  lemma {:induction false} FilterMembers<T>(p: T -> bool, s: seq<T>)
    ensures forall x :: x in Filter(p, s) <==> x in s && p(x)
  {
    if s != [] {
      FilterMembers(p, s[..|s| - 1]);
      assert forall x :: x in s <==> x in s[..|s| - 1] || x == s[|s| - 1];
    }
  }

  lemma {:induction false} FilterAll<T>(p: T -> bool, s: seq<T>)
    requires forall x :: x in s ==> p(x)
    ensures Filter(p, s) == s
  {
    if s != [] {
      assert forall x :: x in s[..|s| - 1] ==> x in s;
      FilterAll(p, s[..|s| - 1]);
    }
  }

  lemma {:induction false} FilterNone<T>(p: T -> bool, s: seq<T>)
    requires forall x :: x in s ==> !p(x)
    ensures Filter(p, s) == []
  {
    if s != [] {
      assert forall x :: x in s[..|s| - 1] ==> x in s;
      FilterNone(p, s[..|s| - 1]);
    }
  }

  lemma {:induction false} FilterAgrees<T>(p: T -> bool, q: T -> bool, s: seq<T>)
    requires forall x :: x in s ==> p(x) == q(x)
    ensures Filter(p, s) == Filter(q, s)
  {
    if s != [] {
      assert forall x :: x in s[..|s| - 1] ==> x in s;
      FilterAgrees(p, q, s[..|s| - 1]);
    }
  }

  lemma {:induction false} DedupMembers<T>(s: seq<T>)
    ensures forall x :: x in Dedup(s) <==> x in s
  {
    if s != [] {
      DedupMembers(s[..|s| - 1]);
      assert forall x :: x in s <==> x in s[..|s| - 1] || x == s[|s| - 1];
    }
  }

  lemma {:induction false} DedupIsDistinct<T>(s: seq<T>)
    ensures forall i, j :: 0 <= i < j < |Dedup(s)| ==> Dedup(s)[i] != Dedup(s)[j]
  {
    if s != [] {
      DedupIsDistinct(s[..|s| - 1]);
    }
  }

  lemma {:induction false} FilterDedup<T>(p: T -> bool, s: seq<T>)
    ensures Filter(p, Dedup(s)) == Dedup(Filter(p, s))
  {
    if s != [] {
      var front, last := s[..|s| - 1], s[|s| - 1];
      FilterDedup(p, front);
      DedupMembers(front);
      DedupMembers(Filter(p, front));
      FilterMembers(p, front);
      if last !in front {
        assert (Dedup(front) + [last])[..|Dedup(front)|] == Dedup(front);
      }
      if p(last) {
        assert (Filter(p, front) + [last])[..|Filter(p, front)|] == Filter(p, front);
      }
    }
  }

  lemma {:induction false} DedupTwice<T>(a: seq<T>, b: seq<T>)
    ensures Dedup(Dedup(a) + b) == Dedup(a + b)
  {
    if b == [] {
      assert Dedup(a) + b == Dedup(a) && a + b == a;
      DedupIsDistinct(a);
      DedupDistinct(Dedup(a));
    } else {
      var front := b[..|b| - 1];
      DedupTwice(a, front);
      assert (Dedup(a) + b)[..|Dedup(a) + b| - 1] == Dedup(a) + front;
      assert (a + b)[..|a + b| - 1] == a + front;
    }
  }

  lemma {:induction false} DedupDistinct<T>(s: seq<T>)
    requires forall i, j :: 0 <= i < j < |s| ==> s[i] != s[j]
    ensures Dedup(s) == s
  {
    if s != [] {
      var front := s[..|s| - 1];
      DedupDistinct(front);
      assert s == front + [s[|s| - 1]];
    }
  }

  // ----- ids and refs

  /** A free id whose base is a proper, single-line, non-free id. */
  predicate Wellformed(id: string) {
    && EndsWith(id, FREE_SUFFIX)
    && BaseId(id) != ""
    && !EndsWith(BaseId(id), FREE_SUFFIX)
    && forall i :: 0 <= i < |BaseId(id)| ==> !LineBreak(BaseId(id)[i])
  }

  predicate WellformedRows(free: seq<Row>) {
    forall r :: r in free ==> r.tagged && r.id.Some? && Wellformed(r.id.value)
  }

  predicate WellformedCatalog(catalog: seq<Item>) {
    forall item :: item in catalog && item.id.Some? && EndsWith(item.id.value, FREE_SUFFIX) ==>
      Wellformed(item.id.value)
  }

  lemma FreeRowsWellformed(catalog: seq<Item>)
    requires WellformedCatalog(catalog)
    ensures WellformedRows(FreeRows(catalog))
  {
    FreeRowsAre(catalog);
  }

  lemma RefIsFree(row: Row)
    requires row.id.Some? && Wellformed(row.id.value)
    ensures IsFreeRef(RefOf(row))
  {
    var id := row.id.value;
    var ref := RefOf(row);
    assert ref[|ref| - |FREE_SUFFIX|..] == id[|id| - |FREE_SUFFIX|..];
    forall i | |REF_PREFIX| <= i < |ref| - |FREE_SUFFIX|
      ensures !LineBreak(ref[i])
    {
      assert ref[i] == BaseId(id)[i - |REF_PREFIX|];
    }
  }

  lemma {:induction false} RefsAreFree(rows: seq<Row>)
    requires WellformedRows(rows)
    ensures forall ref :: ref in RefsOf(rows) ==> IsFreeRef(ref)
  {
    if rows != [] {
      var front, last := rows[..|rows| - 1], rows[|rows| - 1];
      assert forall r :: r in front ==> r in rows;
      RefsAreFree(front);
      assert last in rows;
      RefIsFree(last);
    }
  }

  // ----- the table

  lemma ApplicableRows(ids: set<string>, free: seq<Row>)
    ensures forall r :: r in Applicable(ids, free) ==> r in free && r.id.Some? && BaseId(r.id.value) !in ids
  {
    FilterMembers((r: Row) => r.id.Some? && BaseId(r.id.value) !in ids, free);
  }

  lemma UntaggedRows(rows: seq<Row>)
    ensures forall r :: r in Untagged(rows) <==> r in rows && !r.tagged
    ensures forall r :: r in Tagged(rows) <==> r in rows && r.tagged
  {
    FilterMembers((r: Row) => !r.tagged, rows);
    FilterMembers((r: Row) => r.tagged, rows);
  }

  lemma MergedTable(rows: seq<Row>, added: seq<Row>)
    requires forall r :: r in added ==> r.tagged
    ensures Untagged(Untagged(rows) + added) == Untagged(rows)
    ensures Tagged(Untagged(rows) + added) == added
  {
    var un := (r: Row) => !r.tagged;
    var tag := (r: Row) => r.tagged;
    UntaggedRows(rows);
    FilterAppend(un, Untagged(rows), added);
    FilterAll(un, Untagged(rows));
    FilterNone(un, added);
    FilterAppend(tag, Untagged(rows), added);
    FilterNone(tag, Untagged(rows));
    FilterAll(tag, added);
  }

  /** A run keeps the untagged rows and replaces the tagged ones by rows that none of them subsumes. */
  lemma RunReplacesTaggedRows(config: Config, catalog: seq<Item>)
    requires FreeRows(catalog) != []
    ensures var after := RowsOf(Run(config, catalog));
            && Untagged(after) == Untagged(RowsOf(config))
            && Tagged(after) == Applicable(IdsOf(RowsOf(config)), FreeRows(catalog))
            && forall r :: r in Tagged(after) ==>
                 r.id.Some? && BaseId(r.id.value) !in IdsOf(Untagged(after))
  {
    var ids := IdsOf(RowsOf(config));
    var free := FreeRows(catalog);
    FreeRowsAre(catalog);
    ApplicableRows(ids, free);
    MergedTable(RowsOf(config), Applicable(ids, free));
    UntaggedRows(RowsOf(config));
  }

  // ----- the allow list

  lemma PolicySplits(allow: seq<string>, applicable: seq<Row>)
    requires WellformedRows(applicable)
    ensures var merged := Dedup(Preserved(allow) + RefsOf(applicable));
            && Preserved(merged) == Dedup(Preserved(allow))
            && Discovered(merged) == Dedup(RefsOf(applicable))
  {
    var keep := (ref: string) => !IsFreeRef(ref);
    var drop := (ref: string) => IsFreeRef(ref);
    var kept, refs := Preserved(allow), RefsOf(applicable);
    RefsAreFree(applicable);
    FilterMembers(keep, allow);
    FilterDedup(keep, kept + refs);
    FilterAppend(keep, kept, refs);
    FilterAll(keep, kept);
    FilterNone(keep, refs);
    FilterDedup(drop, kept + refs);
    FilterAppend(drop, kept, refs);
    FilterNone(drop, kept);
    FilterAll(drop, refs);
    assert kept + [] == kept && [] + refs == refs;
  }

  lemma ApplicableWellformed(ids: set<string>, free: seq<Row>)
    requires WellformedRows(free)
    ensures WellformedRows(Applicable(ids, free))
  {
    ApplicableRows(ids, free);
  }

  /** Index and table agree: the free refs are the tagged rows' refs, all others stay in order. */
  lemma AllowListFollowsTable(config: Config, catalog: seq<Item>)
    requires WellformedCatalog(catalog) && FreeRows(catalog) != []
    ensures var after := Run(config, catalog);
            if config.allow.None? || config.allow.value == [] then after.allow == config.allow
            else
              && after.allow.Some?
              && Discovered(after.allow.value) == Dedup(RefsOf(Tagged(RowsOf(after))))
              && Preserved(after.allow.value) == Dedup(Preserved(config.allow.value))
  {
    var ids := IdsOf(RowsOf(config));
    FreeRowsWellformed(catalog);
    ApplicableWellformed(ids, FreeRows(catalog));
    RunReplacesTaggedRows(config, catalog);
    if config.allow.Some? {
      PolicySplits(config.allow.value, Applicable(ids, FreeRows(catalog)));
    }
  }

  lemma {:induction false} RefsOfNone(rows: seq<Row>)
    requires forall r :: r in rows ==> r.id.Some?
    ensures RefsOf(rows) == [] <==> rows == []
  {
    if rows != [] {
      assert rows[|rows| - 1] in rows;
    }
  }

  /**
   * Against the documented intent, a restriction can be lifted: a non-empty list
   * becomes empty, which means any model, exactly when it held free refs only and
   * every free model is subsumed.
   */
  lemma WhenTheRestrictionIsLifted(config: Config, catalog: seq<Item>)
    requires FreeRows(catalog) != []
    requires config.allow.Some? && config.allow.value != []
    ensures Run(config, catalog).allow == Some([]) <==>
              && (forall ref :: ref in config.allow.value ==> IsFreeRef(ref))
              && (forall r :: r in FreeRows(catalog) ==> r.id.Some? && BaseId(r.id.value) in IdsOf(RowsOf(config)))
  {
    var ids, free := IdsOf(RowsOf(config)), FreeRows(catalog);
    var allow := config.allow.value;
    var rows := Applicable(ids, free);
    FreeRowsAre(catalog);
    FilterMembers((ref: string) => !IsFreeRef(ref), allow);
    FilterMembers((r: Row) => r.id.Some? && BaseId(r.id.value) !in ids, free);
    RefsOfNone(rows);
    DedupMembers(Preserved(allow) + RefsOf(rows));
    var merged := Preserved(allow) + RefsOf(rows);
    assert merged != [] ==> merged[0] in Dedup(merged);
    assert Preserved(allow) != [] ==> Preserved(allow)[0] in allow;
    assert rows != [] ==> rows[0] in rows;
  }

  // ----- repeating a run

  /** No free model is the base of another. */
  predicate Flat(free: seq<Row>) {
    && (forall r :: r in free ==> r.tagged && r.id.Some?)
    && (forall r, q :: r in free && q in free ==> BaseId(r.id.value) != q.id.value)
  }

  lemma WellformedIsFlat(free: seq<Row>)
    requires WellformedRows(free)
    ensures Flat(free)
  {
    forall r, q | r in free && q in free
      ensures BaseId(r.id.value) != q.id.value
    {
      assert EndsWith(q.id.value, FREE_SUFFIX) && !EndsWith(BaseId(r.id.value), FREE_SUFFIX);
    }
  }

  /** Rows of an earlier run that a free model would be subsumed by. */
  predicate Settled(config: Config, free: seq<Row>) {
    forall r :: r in free && r.id.Some? && BaseId(r.id.value) in IdsOf(Tagged(RowsOf(config))) ==>
      BaseId(r.id.value) in IdsOf(Untagged(RowsOf(config)))
  }

  lemma IdsSplit(rows: seq<Row>)
    ensures IdsOf(rows) == IdsOf(Untagged(rows)) + IdsOf(Tagged(rows))
  {
    UntaggedRows(rows);
  }

  /** No base of a free model is the id of a row a run adds. */
  lemma AddedIdsSubsumeNothing(added: seq<Row>, free: seq<Row>)
    requires Flat(free)
    requires forall r :: r in added ==> r in free
    ensures forall r :: r in free ==> BaseId(r.id.value) !in IdsOf(added)
  {
  }

  /** After a run the free models that apply are those no untagged row subsumes. */
  lemma ApplicableAfter(config: Config, free: seq<Row>)
    requires Flat(free)
    ensures var after := RowsOf(RunWith(config, free));
            && Untagged(after) == Untagged(RowsOf(config))
            && Tagged(after) == Applicable(IdsOf(RowsOf(config)), free)
            && Applicable(IdsOf(after), free) == Applicable(IdsOf(Untagged(RowsOf(config))), free)
  {
    var rows := RowsOf(config);
    var added := Applicable(IdsOf(rows), free);
    var after := Untagged(rows) + added;
    ApplicableRows(IdsOf(rows), free);
    MergedTable(rows, added);
    IdsSplit(after);
    AddedIdsSubsumeNothing(added, free);
    FilterAgrees((r: Row) => r.id.Some? && BaseId(r.id.value) !in IdsOf(after),
                 (r: Row) => r.id.Some? && BaseId(r.id.value) !in IdsOf(Untagged(rows)), free);
  }

  lemma SettledApplies(config: Config, free: seq<Row>)
    requires WellformedRows(free)
    ensures Settled(config, free) <==>
              Applicable(IdsOf(RowsOf(config)), free) == Applicable(IdsOf(Untagged(RowsOf(config))), free)
  {
    var rows := RowsOf(config);
    var p := (r: Row) => r.id.Some? && BaseId(r.id.value) !in IdsOf(rows);
    var q := (r: Row) => r.id.Some? && BaseId(r.id.value) !in IdsOf(Untagged(rows));
    IdsSplit(rows);
    if Settled(config, free) {
      FilterAgrees(p, q, free);
    }
    FilterMembers(p, free);
    FilterMembers(q, free);
  }

  lemma PolicyRepeats(allow: seq<string>, rows: seq<Row>)
    requires WellformedRows(rows)
    ensures var merged := Dedup(Preserved(allow) + RefsOf(rows));
            Dedup(Preserved(merged) + RefsOf(rows)) == merged
  {
    PolicySplits(allow, rows);
    DedupTwice(Preserved(allow), RefsOf(rows));
  }

  lemma SecondRunWith(config: Config, free: seq<Row>)
    requires WellformedRows(free)
    ensures RunWith(RunWith(config, free), free) == RunWith(config, free) <==> Settled(config, free)
  {
    var once := RunWith(config, free);
    var rows := RowsOf(config);
    var added := Applicable(IdsOf(rows), free);
    var again := Applicable(IdsOf(RowsOf(once)), free);
    WellformedIsFlat(free);
    ApplicableAfter(config, free);
    SettledApplies(config, free);
    ApplicableRows(IdsOf(RowsOf(once)), free);
    MergedTable(RowsOf(once), again);
    if added == again && config.allow.Some? {
      ApplicableWellformed(IdsOf(rows), free);
      PolicyRepeats(config.allow.value, added);
    }
  }

  /**
   * Running again changes nothing exactly when no row left by an earlier catalog
   * subsumes a free model on its own.
   */
  lemma WhenOneRunSettles(config: Config, catalog: seq<Item>)
    requires WellformedCatalog(catalog)
    ensures Run(Run(config, catalog), catalog) == Run(config, catalog) <==>
              Settled(config, FreeRows(catalog))
  {
    FreeRowsWellformed(catalog);
    SecondRunWith(config, FreeRows(catalog));
  }

  /** In particular when every tagged row to start with has a free id. */
  lemma FreeTaggedRowsSettle(config: Config, catalog: seq<Item>)
    requires WellformedCatalog(catalog)
    requires forall r :: r in Tagged(RowsOf(config)) && r.id.Some? ==> EndsWith(r.id.value, FREE_SUFFIX)
    ensures Run(Run(config, catalog), catalog) == Run(config, catalog)
  {
    FreeRowsWellformed(catalog);
    WhenOneRunSettles(config, catalog);
  }

  /** From any configuration at all, the second run is the last to change it. */
  lemma TwoRunsSettle(config: Config, catalog: seq<Item>)
    requires WellformedCatalog(catalog)
    ensures var twice := Run(Run(config, catalog), catalog);
            Run(twice, catalog) == twice
  {
    var once := Run(config, catalog);
    var free := FreeRows(catalog);
    FreeRowsWellformed(catalog);
    if free != [] {
      WellformedIsFlat(free);
      ApplicableAfter(config, free);
      ApplicableRows(IdsOf(RowsOf(config)), free);
      FreeTaggedRowsSettle(once, catalog);
    }
  }

  // ----- the condition on the catalog is needed

  lemma FilterThree<T>(p: T -> bool, a: T, b: T, c: T)
    ensures Filter(p, [a, b, c]) ==
            (if p(a) then [a] else []) + (if p(b) then [b] else []) + (if p(c) then [c] else [])
  {
    assert [a, b, c][..2] == [a, b] && [a, b][..1] == [a] && [a][..0] == [];
    assert Filter(p, [a]) == if p(a) then [a] else [];
    assert Filter(p, [a, b]) == (if p(a) then [a] else []) + (if p(b) then [b] else []);
  }

  function Nested(depth: nat): string {
    if depth == 0 then "x" else Nested(depth - 1) + FREE_SUFFIX
  }

  lemma {:induction false} NestedBase(depth: nat)
    requires depth > 0
    ensures EndsWith(Nested(depth), FREE_SUFFIX) && BaseId(Nested(depth)) == Nested(depth - 1)
    ensures |Nested(depth)| == 1 + 5 * depth
  {
    if depth > 1 {
      NestedBase(depth - 1);
    }
  }

  function NestedRow(depth: nat): Row {
    Row(Some(Nested(depth)), true, 0)
  }

  const NESTED := [NestedRow(1), NestedRow(2), NestedRow(3)]

  /** A run over tagged rows only leaves those of the three whose base id is not there. */
  lemma NestedRun(config: Config)
    requires forall r :: r in RowsOf(config) ==> r.tagged
    ensures var ids := IdsOf(RowsOf(config));
            RowsOf(RunWith(config, NESTED)) ==
            (if Nested(0) in ids then [] else [NestedRow(1)])
            + (if Nested(1) in ids then [] else [NestedRow(2)])
            + (if Nested(2) in ids then [] else [NestedRow(3)])
  {
    var ids := IdsOf(RowsOf(config));
    NestedBase(1);
    NestedBase(2);
    NestedBase(3);
    FilterThree((r: Row) => r.id.Some? && BaseId(r.id.value) !in ids, NestedRow(1), NestedRow(2), NestedRow(3));
    FilterNone((r: Row) => !r.tagged, RowsOf(config));
    assert [] + Applicable(ids, NESTED) == Applicable(ids, NESTED);
  }

  lemma NestedIdsDiffer()
    ensures forall i, j :: 0 <= i < j <= 3 ==> Nested(i) != Nested(j)
  {
    NestedBase(1);
    NestedBase(2);
    NestedBase(3);
    assert |Nested(0)| == 1;
    forall i, j | 0 <= i < j <= 3
      ensures Nested(i) != Nested(j)
    {
      assert |Nested(i)| == 1 + 5 * i && |Nested(j)| == 1 + 5 * j;
    }
  }

  /** With the ids x:free, x:free:free and x:free:free:free in a catalog, a third run still changes the table. */
  lemma NestedSuffixesKeepMoving(config: Config)
    requires RowsOf(config) == []
    ensures var twice := RunWith(RunWith(config, NESTED), NESTED);
            RunWith(twice, NESTED) != twice
  {
    var once := RunWith(config, NESTED);
    var twice := RunWith(once, NESTED);
    NestedIdsDiffer();
    NestedRun(config);
    assert RowsOf(once) == NESTED;
    assert IdsOf(RowsOf(once)) == {Nested(1), Nested(2), Nested(3)};
    NestedRun(once);
    assert RowsOf(twice) == [NestedRow(1)];
    assert IdsOf(RowsOf(twice)) == {Nested(1)};
    NestedRun(twice);
    assert |RowsOf(RunWith(twice, NESTED))| == 2;
  }
}
