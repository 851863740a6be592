/** Exactly on which catalogs two runs of the free-model merge settle every configuration. */
module FreeModelLimits {
  import opened Base
  import opened FreeModels
  import opened FreeModelLaws

  // ----- sequences

  lemma {:induction false} DedupPrefix<T>(a: seq<T>, b: seq<T>)
    ensures Dedup(a) <= Dedup(a + b)
  {
    if b == [] {
      assert a + b == a;
    } else {
      assert (a + b)[..|a + b| - 1] == a + b[..|b| - 1];
      DedupPrefix(a, b[..|b| - 1]);
    }
  }

  /** Elements that are there already add nothing. */
  lemma {:induction false} DedupKnown<T>(a: seq<T>, b: seq<T>)
    requires forall x :: x in b ==> x in a
    ensures Dedup(a + b) == Dedup(a)
  {
    if b == [] {
      assert a + b == a;
    } else {
      var front, last := b[..|b| - 1], b[|b| - 1];
      assert (a + b)[..|a + b| - 1] == a + front;
      assert forall x :: x in front ==> x in b;
      DedupKnown(a, front);
      DedupMembers(a);
      assert last in b;
    }
  }

  lemma {:induction false} DedupRight<T>(a: seq<T>, b: seq<T>)
    ensures Dedup(a + Dedup(b)) == Dedup(a + b)
  {
    if b != [] {
      var front, last := b[..|b| - 1], b[|b| - 1];
      DedupRight(a, front);
      DedupMembers(front);
      assert (a + b)[..|a + b| - 1] == a + front;
      if last in front {
        DedupMembers(a + front);
      } else {
        assert Dedup(b) == Dedup(front) + [last];
        assert (a + Dedup(b))[..|a + Dedup(b)| - 1] == a + Dedup(front);
        DedupMembers(a + front);
        DedupMembers(a + Dedup(front));
      }
    } else {
      assert a + Dedup(b) == a + b;
    }
  }

  // ----- the condition

  predicate FreeRefAt(refs: seq<string>, i: nat) {
    i < |refs| && IsFreeRef(refs[i])
  }

  /** Among the first occurrences, the refs that the pattern does not take for free ones come first. */
  predicate OthersFirst(refs: seq<string>) {
    Dedup(refs) == Dedup(Preserved(refs)) + Dedup(Discovered(refs))
  }

  /** No such ref occurs for the first time after a free one. */
  ghost predicate NoLateOther(refs: seq<string>) {
    forall i: nat, j: nat :: i < j < |refs| && FreeRefAt(refs, i) && !FreeRefAt(refs, j) ==> refs[j] in refs[..i]
  }

  // ----- it is enough

  /** With the others first, the first occurrences are the others followed by the free refs. */
  lemma {:induction false} DedupSplits(refs: seq<string>)
    requires NoLateOther(refs)
    ensures OthersFirst(refs)
  {
    if refs != [] {
      var front, last := refs[..|refs| - 1], refs[|refs| - 1];
      FrontHasNone(refs);
      DedupSplits(front);
      DedupMembers(front);
      FilterMembers((ref: string) => !IsFreeRef(ref), front);
      FilterMembers((ref: string) => IsFreeRef(ref), front);
      DedupMembers(Preserved(front));
      DedupMembers(Discovered(front));
      if IsFreeRef(last) {
        assert Discovered(refs) == Discovered(front) + [last] && Preserved(refs) == Preserved(front);
        assert (Discovered(front) + [last])[..|Discovered(front)|] == Discovered(front);
      } else {
        assert Preserved(refs) == Preserved(front) + [last] && Discovered(refs) == Discovered(front);
        assert (Preserved(front) + [last])[..|Preserved(front)|] == Preserved(front);
        if last !in front {
          LastOther(refs);
          assert Dedup(Discovered(front)) == [];
        }
      }
    }
  }

  lemma FrontHasNone(refs: seq<string>)
    requires NoLateOther(refs) && refs != []
    ensures NoLateOther(refs[..|refs| - 1])
  {
    var front := refs[..|refs| - 1];
    forall i: nat, j: nat | i < j < |front| && FreeRefAt(front, i) && !FreeRefAt(front, j)
      ensures front[j] in front[..i]
    {
      assert FreeRefAt(refs, i) && !FreeRefAt(refs, j);
      assert front[..i] == refs[..i];
    }
  }

  /** A new last ref that is not free comes after no free one. */
  lemma LastOther(refs: seq<string>)
    requires NoLateOther(refs) && refs != [] && !IsFreeRef(refs[|refs| - 1]) && refs[|refs| - 1] !in refs[..|refs| - 1]
    ensures Discovered(refs[..|refs| - 1]) == []
  {
    var n := |refs| - 1;
    forall i: nat | i < n
      ensures !IsFreeRef(refs[i])
    {
      PrefixMembers(refs, i, n);
      assert FreeRefAt(refs, i) == IsFreeRef(refs[i]) && !FreeRefAt(refs, n);
    }
    FilterNone((ref: string) => IsFreeRef(ref), refs[..n]);
  }

  lemma PrefixMembers<T>(s: seq<T>, i: nat, n: nat)
    requires i <= n <= |s|
    ensures forall x :: x in s[..i] ==> x in s[..n]
  {
    assert s[..i] == s[..n][..i];
  }

  lemma KnownInFront<T>(kept: seq<T>, others: seq<T>, free: seq<T>)
    ensures Dedup(kept + others + others + free) == Dedup(kept + others + free)
  {
    DedupKnown(kept + others, others);
    DedupTwice(kept + others + others, free);
    DedupTwice(kept + others, free);
  }

  lemma DedupMiddle<T>(a: seq<T>, b: seq<T>, c: seq<T>)
    ensures Dedup(a + b + c) == Dedup(a + Dedup(b) + c)
  {
    DedupTwice(a + b, c);
    DedupTwice(a + Dedup(b), c);
    DedupRight(a, b);
  }

  /** Putting the others of `refs` in front of `refs` changes nothing then. */
  lemma OthersInFront(kept: seq<string>, refs: seq<string>)
    requires OthersFirst(refs)
    ensures Dedup(kept + Preserved(refs) + refs) == Dedup(kept + refs)
  {
    var others, free := Dedup(Preserved(refs)), Dedup(Discovered(refs));
    DedupRight(kept + Preserved(refs), refs);
    DedupRight(kept, refs);
    DedupMiddle(kept, Preserved(refs), Dedup(refs));
    assert kept + others + (others + free) == kept + others + others + free;
    assert kept + (others + free) == kept + others + free;
    KnownInFront(kept, others, free);
  }

  /** Merging the same rows into an allow list twice is merging them once. */
  lemma PolicySettles(allow: seq<string>, rows: seq<Row>)
    requires OthersFirst(RefsOf(rows))
    ensures var merged := Dedup(Preserved(allow) + RefsOf(rows));
            Dedup(Preserved(merged) + RefsOf(rows)) == merged
  {
    var keep := (ref: string) => !IsFreeRef(ref);
    var kept, refs := Preserved(allow), RefsOf(rows);
    FilterDedup(keep, kept + refs);
    FilterAppend(keep, kept, refs);
    FilterMembers(keep, allow);
    FilterAll(keep, kept);
    DedupTwice(kept + Preserved(refs), refs);
    OthersInFront(kept, refs);
  }

  lemma {:induction false} FiltersCommute<T>(p: T -> bool, q: T -> bool, s: seq<T>)
    ensures Filter(p, Filter(q, s)) == Filter(q, Filter(p, s))
  {
    if s != [] {
      var front, last := s[..|s| - 1], s[|s| - 1];
      FiltersCommute(p, q, front);
      assert (Filter(q, front) + [last])[..|Filter(q, front)|] == Filter(q, front);
      assert (Filter(p, front) + [last])[..|Filter(p, front)|] == Filter(p, front);
    }
  }

  lemma OthersFirstOfFilter(q: string -> bool, refs: seq<string>)
    requires OthersFirst(refs)
    ensures OthersFirst(Filter(q, refs))
  {
    var keep := (ref: string) => !IsFreeRef(ref);
    var drop := (ref: string) => IsFreeRef(ref);
    FilterDedup(q, refs);
    FilterAppend(q, Dedup(Preserved(refs)), Dedup(Discovered(refs)));
    FilterDedup(q, Preserved(refs));
    FilterDedup(q, Discovered(refs));
    FiltersCommute(q, keep, refs);
    FiltersCommute(q, drop, refs);
  }

  lemma {:induction false} RefsFiltered(ids: set<string>, free: seq<Row>, q: string -> bool)
    requires forall r :: r in free ==> r.id.Some?
    requires forall r :: r in free ==> q(RefOf(r)) == (BaseId(r.id.value) !in ids)
    ensures RefsOf(Applicable(ids, free)) == Filter(q, RefsOf(free))
  {
    if free != [] {
      var front, last := free[..|free| - 1], free[|free| - 1];
      assert last in free && forall r :: r in front ==> r in free;
      RefsFiltered(ids, front, q);
      var applicable := Applicable(ids, front);
      assert Applicable(ids, free) == if BaseId(last.id.value) !in ids then applicable + [last] else applicable;
      assert (applicable + [last])[..|applicable|] == applicable;
      assert (RefsOf(front) + [RefOf(last)])[..|RefsOf(front)|] == RefsOf(front);
    }
  }

  lemma ApplicableOthersFirst(ids: set<string>, free: seq<Row>)
    requires forall r :: r in free ==> r.id.Some?
    requires OthersFirst(RefsOf(free))
    ensures OthersFirst(RefsOf(Applicable(ids, free)))
  {
    var q := (ref: string) => |ref| >= |REF_PREFIX| && BaseId(ref[|REF_PREFIX|..]) !in ids;
    forall r | r in free
      ensures q(RefOf(r)) == (BaseId(r.id.value) !in ids)
    {
      assert RefOf(r)[|REF_PREFIX|..] == r.id.value;
    }
    RefsFiltered(ids, free, q);
    OthersFirstOfFilter(q, RefsOf(free));
  }

  ghost predicate Settles(config: Config, free: seq<Row>) {
    var twice := RunWith(RunWith(config, free), free);
    RunWith(twice, free) == twice
  }

  lemma FlatOthersFirstSettles(config: Config, free: seq<Row>)
    requires Flat(free) && OthersFirst(RefsOf(free))
    ensures Settles(config, free)
  {
    var once := RunWith(config, free);
    var twice := RunWith(once, free);
    var rows := Applicable(IdsOf(RowsOf(once)), free);
    ApplicableAfter(config, free);
    ApplicableAfter(once, free);
    ApplicableOthersFirst(IdsOf(RowsOf(once)), free);
    assert Applicable(IdsOf(RowsOf(twice)), free) == rows;
    if once.allow.Some? && once.allow.value != [] {
      PolicySettles(once.allow.value, rows);
    }
  }

  // ----- it is needed

  predicate FreeTagged(free: seq<Row>) {
    forall r :: r in free ==> r.tagged && r.id.Some? && EndsWith(r.id.value, FREE_SUFFIX)
  }

  /** Of the free models that are bases of others, one whose own base is not free. */
  lemma Lowest(free: seq<Row>, r: Row, q: Row) returns (f: Row, g: Row)
    requires FreeTagged(free) && r in free && q in free && BaseId(r.id.value) == q.id.value
    ensures f in free && g in free && BaseId(f.id.value) == g.id.value
    ensures forall h :: h in free ==> h.id.value != BaseId(g.id.value)
    decreases |q.id.value|
  {
    if h :| h in free && h.id.value == BaseId(q.id.value) {
      f, g := Lowest(free, q, h);
    } else {
      f, g := r, q;
    }
  }

  function OneRow(id: string, allow: Option<seq<string>>): Config {
    Config(Some([Row(Some(id), true, 0)]), None, allow, 0)
  }

  /** After a run over tagged rows only the applicable rows are left. */
  lemma OnlyApplicable(config: Config, free: seq<Row>)
    requires forall r :: r in RowsOf(config) ==> r.tagged
    ensures RowsOf(RunWith(config, free)) == Applicable(IdsOf(RowsOf(config)), free)
  {
    FilterNone((r: Row) => !r.tagged, RowsOf(config));
    assert [] + Applicable(IdsOf(RowsOf(config)), free) == Applicable(IdsOf(RowsOf(config)), free);
  }

  lemma IsApplicable(ids: set<string>, free: seq<Row>, r: Row)
    ensures r in Applicable(ids, free) <==> r in free && r.id.Some? && BaseId(r.id.value) !in ids
  {
    FilterMembers((x: Row) => x.id.Some? && BaseId(x.id.value) !in ids, free);
  }

  lemma NestedDoesNotSettle(free: seq<Row>, f: Row, g: Row)
    requires FreeTagged(free) && f in free && g in free && BaseId(f.id.value) == g.id.value
    requires forall h :: h in free ==> h.id.value != BaseId(g.id.value)
    ensures !Settles(OneRow(BaseId(g.id.value), None), free)
  {
    var config := OneRow(BaseId(g.id.value), None);
    var once := RunWith(config, free);
    var twice := RunWith(once, free);
    assert IdsOf(RowsOf(config)) == {BaseId(g.id.value)};
    OnlyApplicable(config, free);
    ApplicableRows(IdsOf(RowsOf(config)), free);
    assert g.id.value !in IdsOf(RowsOf(once)) && BaseId(g.id.value) !in IdsOf(RowsOf(once));
    OnlyApplicable(once, free);
    ApplicableRows(IdsOf(RowsOf(once)), free);
    IsApplicable(IdsOf(RowsOf(once)), free, f);
    IsApplicable(IdsOf(RowsOf(once)), free, g);
    assert g.id.value in IdsOf(RowsOf(twice));
    OnlyApplicable(twice, free);
    IsApplicable(IdsOf(RowsOf(twice)), free, f);
  }

  lemma {:induction false} RefsAt(rows: seq<Row>)
    requires forall r :: r in rows ==> r.id.Some?
    ensures |RefsOf(rows)| == |rows|
    ensures forall k :: 0 <= k < |rows| ==> rows[k].id.Some? && RefsOf(rows)[k] == RefOf(rows[k])
  {
    if rows != [] {
      var front, last := rows[..|rows| - 1], rows[|rows| - 1];
      assert last in rows && forall r :: r in front ==> r in rows;
      RefsAt(front);
    }
  }

  lemma RefOfSame(a: Row, b: Row)
    requires a.id.Some? && b.id.Some? && RefOf(a) == RefOf(b)
    ensures a.id == b.id
  {
    assert RefOf(a)[|REF_PREFIX|..] == a.id.value && RefOf(b)[|REF_PREFIX|..] == b.id.value;
  }

  /** Without rows of the base of `x` its ref is not among those of the applicable rows. */
  lemma ExcludedRef(free: seq<Row>, x: Row)
    requires FreeTagged(free) && x in free
    ensures RefOf(x) !in RefsOf(Applicable({BaseId(x.id.value)}, free))
  {
    var rows := Applicable({BaseId(x.id.value)}, free);
    ApplicableRows({BaseId(x.id.value)}, free);
    RefsAt(rows);
    forall k | 0 <= k < |rows|
      ensures RefsOf(rows)[k] != RefOf(x)
    {
      assert rows[k] in rows;
      if RefOf(rows[k]) == RefOf(x) { RefOfSame(rows[k], x); }
    }
  }

  /** With no free model the base of another, every free model applies where only free ones are tagged. */
  lemma FlatAllApply(ids: set<string>, free: seq<Row>)
    requires Flat(free) && forall id :: id in ids ==> exists r :: r in free && r.id == Some(id)
    ensures Applicable(ids, free) == free
  {
    FilterAll((r: Row) => r.id.Some? && BaseId(r.id.value) !in ids, free);
  }

  /** Of two beginnings of a list one holds the elements of the other. */
  lemma BeginningsCompare<T>(a: seq<T>, b: seq<T>, s: seq<T>)
    requires a <= s && b <= s
    ensures (forall x :: x in a ==> x in b) || (forall x :: x in b ==> x in a)
  {
    if |a| <= |b| {
      assert a <= b;
    } else {
      assert b <= a;
    }
  }

  /** A late other moves to the front between the second and the third run. */
  lemma LateOtherMoves(kept: seq<string>, refs: seq<string>, i: nat, j: nat)
    requires i < j < |refs| && FreeRefAt(refs, i) && !FreeRefAt(refs, j) && refs[j] !in refs[..i]
    requires refs[j] !in kept && forall ref :: ref in kept ==> !IsFreeRef(ref)
    ensures var merged := Dedup(kept + refs);
            Dedup(Preserved(merged) + refs) != merged
  {
    var merged := Dedup(kept + refs);
    var head := kept + refs[..i + 1];
    var others := Preserved(merged);
    assert kept + refs == head + refs[i + 1..];
    DedupPrefix(head, refs[i + 1..]);
    DedupMembers(head);
    assert refs[i] == refs[..i + 1][i] && refs[..i + 1] == refs[..i] + [refs[i]];
    assert refs[i] in Dedup(head) && refs[j] !in Dedup(head);
    DedupMembers(kept + refs);
    FilterMembers((ref: string) => !IsFreeRef(ref), merged);
    DedupPrefix(others, refs);
    DedupMembers(others);
    assert refs[j] in kept + refs && refs[j] in Dedup(others) && refs[i] !in Dedup(others);
    if Dedup(others + refs) == merged {
      BeginningsCompare(Dedup(head), Dedup(others), merged);
    }
  }

  lemma RunAllow(config: Config, free: seq<Row>)
    requires config.allow.Some? && config.allow.value != []
    ensures RunWith(config, free).allow ==
            Some(Dedup(Preserved(config.allow.value) + RefsOf(Applicable(IdsOf(RowsOf(config)), free))))
  {
  }

  /** From one tagged row on, all free models apply in the second run and in the third. */
  lemma AllApply(free: seq<Row>, config: Config)
    requires Flat(free) && forall r :: r in RowsOf(config) ==> r.tagged
    ensures var once := RunWith(config, free);
            && Applicable(IdsOf(RowsOf(once)), free) == free
            && Applicable(IdsOf(RowsOf(RunWith(once, free))), free) == free
  {
    var once := RunWith(config, free);
    OnlyApplicable(config, free);
    ApplicableRows(IdsOf(RowsOf(config)), free);
    FlatAllApply(IdsOf(RowsOf(once)), free);
    OnlyApplicable(once, free);
    FlatAllApply(IdsOf(RowsOf(RunWith(once, free))), free);
  }

  lemma LateOtherDoesNotSettle(free: seq<Row>, i: nat, j: nat)
    requires FreeTagged(free) && Flat(free) && |RefsOf(free)| == |free| && i < j < |free|
    requires var refs := RefsOf(free); FreeRefAt(refs, i) && !FreeRefAt(refs, j) && refs[j] !in refs[..i]
    requires RefsOf(free)[j] == RefOf(free[j])
    ensures !Settles(OneRow(BaseId(free[j].id.value), Some(["z"])), free)
  {
    var x, refs := free[j], RefsOf(free);
    var config := OneRow(BaseId(x.id.value), Some(["z"]));
    var once := RunWith(config, free);
    FirstAllow(free, x);
    AllApply(free, config);
    SecondAndThird(once, free, i, j);
  }

  lemma SecondAndThird(once: Config, free: seq<Row>, i: nat, j: nat)
    requires once.allow.Some? && once.allow.value != [] && i < j < |RefsOf(free)|
    requires Applicable(IdsOf(RowsOf(once)), free) == free
    requires Applicable(IdsOf(RowsOf(RunWith(once, free))), free) == free
    requires var refs := RefsOf(free); FreeRefAt(refs, i) && !FreeRefAt(refs, j) && refs[j] !in refs[..i]
    requires RefsOf(free)[j] !in once.allow.value
    ensures RunWith(RunWith(once, free), free) != RunWith(once, free)
  {
    var refs, kept, twice := RefsOf(free), Preserved(once.allow.value), RunWith(once, free);
    FilterMembers((ref: string) => !IsFreeRef(ref), once.allow.value);
    LateOtherMoves(kept, refs, i, j);
    RunAllow(once, free);
    DedupMembers(kept + refs);
    assert refs[j] in kept + refs && twice.allow.value != [];
    RunAllow(twice, free);
  }

  /** The list after the first run holds "z" and the refs of the rows that applied. */
  lemma FirstAllow(free: seq<Row>, x: Row)
    requires FreeTagged(free) && x in free
    ensures var allow := RunWith(OneRow(BaseId(x.id.value), Some(["z"])), free).allow;
            allow.Some? && allow.value != [] && RefOf(x) !in allow.value
  {
    var config := OneRow(BaseId(x.id.value), Some(["z"]));
    var rows := Applicable(IdsOf(RowsOf(config)), free);
    assert IdsOf(RowsOf(config)) == {BaseId(x.id.value)};
    ExcludedRef(free, x);
    FilterMembers((ref: string) => !IsFreeRef(ref), ["z"]);
    DedupMembers(Preserved(["z"]) + RefsOf(rows));
    assert "z" in Preserved(["z"]);
    assert "z" in Dedup(Preserved(["z"]) + RefsOf(rows));
    assert RefOf(x)[0] == 'o';
  }

  // ----- the exact catalogs

  /**
   * Two runs settle every configuration if and only if no free model of the catalog is the
   * base of another, and the refs that the pattern misses come first among the free models'.
   */
  lemma WhenTwoRunsSettleAll(catalog: seq<Item>)
    ensures (forall config :: var twice := Run(Run(config, catalog), catalog); Run(twice, catalog) == twice) <==>
              Flat(FreeRows(catalog)) && OthersFirst(RefsOf(FreeRows(catalog)))
  {
    var free := FreeRows(catalog);
    FreeRowsAre(catalog);
    RefsAt(free);
    if Flat(free) && OthersFirst(RefsOf(free)) {
      forall config
        ensures var twice := Run(Run(config, catalog), catalog); Run(twice, catalog) == twice
      {
        FlatOthersFirstSettles(config, free);
      }
    } else {
      var config := Unsettled(free);
      var twice := Run(Run(config, catalog), catalog);
      assert Run(twice, catalog) != twice;
    }
  }

  /** A configuration that three runs still change. */
  lemma Unsettled(free: seq<Row>) returns (config: Config)
    requires FreeTagged(free) && !(Flat(free) && OthersFirst(RefsOf(free)))
    ensures free != [] && !Settles(config, free)
  {
    RefsAt(free);
    if !Flat(free) {
      var r, q :| r in free && q in free && BaseId(r.id.value) == q.id.value;
      var f, g := Lowest(free, r, q);
      NestedDoesNotSettle(free, f, g);
      config := OneRow(BaseId(g.id.value), None);
    } else {
      var refs := RefsOf(free);
      if NoLateOther(refs) { DedupSplits(refs); }
      var i: nat, j: nat :| i < j < |refs| && FreeRefAt(refs, i) && !FreeRefAt(refs, j) && refs[j] !in refs[..i];
      assert free[j] in free;
      LateOtherDoesNotSettle(free, i, j);
      config := OneRow(BaseId(free[j].id.value), Some(["z"]));
    }
  }
}
