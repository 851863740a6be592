/**
 * One run of the free-model merge, position by position: which rows stay, which entries of
 * the catalog are added, and what becomes of the allow list.
 */
module FreeModelRules {
  import opened Base
  import opened FreeModels
  import opened FreeModelLaws

  // ----- picking elements in their order

  /** Increasing positions in a sequence of this length. */
  ghost predicate Increasing(at: seq<nat>, n: nat) {
    && (forall i :: 0 <= i < |at| ==> at[i] < n)
    && forall i, j :: 0 <= i < j < |at| ==> at[i] < at[j]
  }

  ghost predicate Picks<T>(s: seq<T>, at: seq<nat>, t: seq<T>) {
    Increasing(at, |s|) && |t| == |at| && forall i :: 0 <= i < |at| ==> t[i] == s[at[i]]
  }

  /** The positions below `n` with the property are these. */
  ghost predicate Where(at: seq<nat>, n: nat, q: nat -> bool) {
    forall k: nat :: k < n ==> (k in at <==> q(k))
  }

  lemma OneMore(at: seq<nat>, n: nat, q: nat -> bool, r: nat -> bool) returns (at1: seq<nat>)
    requires Increasing(at, n) && Where(at, n, q) && forall k: nat :: k < n ==> q(k) == r(k)
    ensures at1 == if r(n) then at + [n] else at
    ensures Increasing(at1, n + 1) && Where(at1, n + 1, r)
  {
    at1 := if r(n) then at + [n] else at;
    assert n !in at;
    forall k: nat | k < n + 1
      ensures k in at1 <==> r(k)
    {
      if k < n { assert k in at <==> q(k); }
    }
  }

  lemma PicksOn<T>(s: seq<T>, at: seq<nat>, t: seq<T>)
    requires s != [] && Picks(s[..|s| - 1], at, t)
    ensures Picks(s, at, t) && Picks(s, at + [|s| - 1], t + [s[|s| - 1]])
  {
  }

  /** Filtering picks the elements with the property, in their order. */
  lemma {:induction false} FilterPicks<T>(p: T -> bool, s: seq<T>) returns (at: seq<nat>)
    ensures Picks(s, at, Filter(p, s))
    ensures Where(at, |s|, (k: nat) => k < |s| && p(s[k]))
  {
    if s == [] {
      at := [];
    } else {
      var n := |s| - 1;
      var front := FilterPicks(p, s[..n]);
      at := OneMore(front, n, (k: nat) => k < |s[..n]| && p(s[..n][k]), (k: nat) => k < |s| && p(s[k]));
      PicksOn(s, front, Filter(p, s[..n]));
    }
  }

  lemma SameBefore<T>(s: seq<T>, n: nat, k: nat)
    requires k < n <= |s|
    ensures s[..n][k] == s[k] && s[..n][..k] == s[..k]
  {
  }

  /** `[...new Set(s)]` picks the first occurrences, in their order. */
  lemma {:induction false} DedupPicks<T>(s: seq<T>) returns (at: seq<nat>)
    ensures Picks(s, at, Dedup(s))
    ensures Where(at, |s|, (k: nat) => k < |s| && s[k] !in s[..k])
  {
    if s == [] {
      at := [];
    } else {
      var n := |s| - 1;
      var front := DedupPicks(s[..n]);
      DedupMembers(s[..n]);
      var q, r := (k: nat) => k < n && s[..n][k] !in s[..n][..k], (k: nat) => k < |s| && s[k] !in s[..k];
      forall k: nat | k < n
        ensures q(k) == r(k)
      {
        SameBefore(s, n, k);
      }
      at := OneMore(front, n, q, r);
      PicksOn(s, front, Dedup(s[..n]));
    }
  }

  // ----- the table

  function RowFor(item: Item): Row {
    Row(item.id, true, item.facts)
  }

  ghost predicate AddsFrom(catalog: seq<Item>, at: seq<nat>, rows: seq<Row>) {
    && Increasing(at, |catalog|) && |rows| == |at|
    && forall i :: 0 <= i < |at| ==> rows[i] == RowFor(catalog[at[i]])
  }

  lemma {:induction false} FreeRowsPick(catalog: seq<Item>) returns (at: seq<nat>)
    ensures AddsFrom(catalog, at, FreeRows(catalog))
    ensures Where(at, |catalog|, (k: nat) => k < |catalog| && IsFree(catalog[k]))
  {
    if catalog == [] {
      at := [];
    } else {
      var n := |catalog| - 1;
      var front := FreeRowsPick(catalog[..n]);
      at := OneMore(front, n, (k: nat) => k < |catalog[..n]| && IsFree(catalog[..n][k]),
                    (k: nat) => k < |catalog| && IsFree(catalog[k]));
      AddsOn(catalog, front, FreeRows(catalog[..n]));
    }
  }

  lemma AddsOn(catalog: seq<Item>, at: seq<nat>, rows: seq<Row>)
    requires catalog != [] && AddsFrom(catalog[..|catalog| - 1], at, rows)
    ensures AddsFrom(catalog, at, rows)
    ensures AddsFrom(catalog, at + [|catalog| - 1], rows + [RowFor(catalog[|catalog| - 1])])
  {
  }

  /** The id without its last five characters is the id of none of these rows. */
  ghost predicate Unsubsumed(item: Item, rows: seq<Row>) {
    IsFree(item) && forall r :: r in rows ==> r.id != Some(item.id.value[..|item.id.value| - 5])
  }

  lemma ApplicablePick(catalog: seq<Item>, rows: seq<Row>) returns (at: seq<nat>)
    ensures AddsFrom(catalog, at, Applicable(IdsOf(rows), FreeRows(catalog)))
    ensures Where(at, |catalog|, (k: nat) => k < |catalog| && Unsubsumed(catalog[k], rows))
  {
    var free := FreeRowsPick(catalog);
    var rest := FilterPicks((r: Row) => r.id.Some? && BaseId(r.id.value) !in IdsOf(rows), FreeRows(catalog));
    at := seq(|rest|, i requires 0 <= i < |rest| => free[rest[i]]);
    forall k: nat | k < |catalog|
      ensures k in at <==> Unsubsumed(catalog[k], rows)
    {
      ApplicableAt(catalog, rows, free, rest, at, k);
    }
  }

  lemma ApplicableAt(catalog: seq<Item>, rows: seq<Row>, free: seq<nat>, rest: seq<nat>, at: seq<nat>, k: nat)
    requires k < |catalog| && AddsFrom(catalog, free, FreeRows(catalog)) && (k in free <==> IsFree(catalog[k]))
    requires Increasing(rest, |free|) && |at| == |rest| && forall i :: 0 <= i < |rest| ==> at[i] == free[rest[i]]
    requires forall j: nat :: j < |free| ==>
               (j in rest <==> FreeRows(catalog)[j].id.Some? && BaseId(FreeRows(catalog)[j].id.value) !in IdsOf(rows))
    ensures k in at <==> Unsubsumed(catalog[k], rows)
  {
    if IsFree(catalog[k]) {
      var j :| 0 <= j < |free| && free[j] == k;
      assert FreeRows(catalog)[j] == RowFor(catalog[k]);
      assert BaseId(catalog[k].id.value) == catalog[k].id.value[..|catalog[k].id.value| - 5];
      if j in rest {
        var i :| 0 <= i < |rest| && rest[i] == j;
        assert at[i] == k;
      }
      if k in at {
        var i :| 0 <= i < |at| && at[i] == k;
        assert rest[i] == j;
      }
    }
  }

  /**
   * The table after a run that found a free model: first the untagged rows, as they were and in
   * their order, then the free entries of the catalog, in its order, but for those whose base
   * some row of the table already had as its id.
   */
  lemma TableAfterARun(config: Config, catalog: seq<Item>) returns (kept: seq<nat>, added: seq<nat>)
    requires exists i :: 0 <= i < |catalog| && IsFree(catalog[i])
    ensures var rows := if config.models.Some? then config.models.value else [];
            && Run(config, catalog).models.Some?
            && var after := Run(config, catalog).models.value;
               && |after| == |kept| + |added| && Increasing(kept, |rows|) && Increasing(added, |catalog|)
               && Where(kept, |rows|, (k: nat) => k < |rows| && !rows[k].tagged)
               && Where(added, |catalog|, (k: nat) => k < |catalog| && Unsubsumed(catalog[k], rows))
               && (forall i :: 0 <= i < |kept| ==> after[i] == rows[kept[i]])
               && (forall i :: 0 <= i < |added| ==>
                     after[|kept| + i] == Row(catalog[added[i]].id, true, catalog[added[i]].facts))
  {
    FreeRowsComeFrom(catalog);
    kept := FilterPicks((r: Row) => !r.tagged, RowsOf(config));
    added := ApplicablePick(catalog, RowsOf(config));
  }

  // ----- the allow list

  /** `openrouter/`, something on one line, `:free`. */
  predicate LooksFree(ref: string) {
    && |ref| > 16 && ref[..11] == "openrouter/" && ref[|ref| - 5..] == ":free"
    && forall i :: 11 <= i < |ref| - 5 ==> ref[i] !in {'\n', '\r', '\U{2028}', '\U{2029}'}
  }

  /** The entries of the list that do not look free, then the refs of the entries added to the table. */
  ghost predicate NewRefs(allow: seq<string>, catalog: seq<Item>, kept: seq<nat>, added: seq<nat>, refs: seq<string>) {
    && Increasing(kept, |allow|) && Increasing(added, |catalog|) && |refs| == |kept| + |added|
    && Where(kept, |allow|, (k: nat) => k < |allow| && !LooksFree(allow[k]))
    && (forall i :: 0 <= i < |kept| ==> refs[i] == allow[kept[i]])
    && (forall i :: 0 <= i < |added| ==>
          catalog[added[i]].id.Some? && refs[|kept| + i] == "openrouter/" + catalog[added[i]].id.value)
  }

  /** The allow list after such a run, where there is one: the first occurrences of these refs. */
  lemma AllowListAfterARun(config: Config, catalog: seq<Item>)
    returns (kept: seq<nat>, added: seq<nat>, refs: seq<string>, at: seq<nat>)
    requires exists i :: 0 <= i < |catalog| && IsFree(catalog[i])
    requires config.allow.Some? && config.allow.value != []
    ensures var rows := if config.models.Some? then config.models.value else [];
            && NewRefs(config.allow.value, catalog, kept, added, refs)
            && Where(added, |catalog|, (k: nat) => k < |catalog| && Unsubsumed(catalog[k], rows))
            && Run(config, catalog).allow.Some? && Picks(refs, at, Run(config, catalog).allow.value)
            && Where(at, |refs|, (k: nat) => k < |refs| && refs[k] !in refs[..k])
  {
    FreeRowsComeFrom(catalog);
    var applicable := Applicable(IdsOf(RowsOf(config)), FreeRows(catalog));
    kept := FilterPicks((ref: string) => !IsFreeRef(ref), config.allow.value);
    added := ApplicablePick(catalog, RowsOf(config));
    refs := Preserved(config.allow.value) + RefsOf(applicable);
    forall i | 0 <= i < |added|
      ensures applicable[i].id.Some?
    {
      assert added[i] in added;
    }
    RefsInOrder(applicable);
    forall ref
      ensures LooksFree(ref) <==> IsFreeRef(ref)
    {
      FreeRefLooks(ref);
    }
    at := DedupPicks(refs);
  }

  lemma FreeRefLooks(ref: string)
    ensures LooksFree(ref) <==> IsFreeRef(ref)
  {
  }

  lemma {:induction false} RefsInOrder(rows: seq<Row>)
    requires forall i :: 0 <= i < |rows| ==> rows[i].id.Some?
    ensures |RefsOf(rows)| == |rows|
    ensures forall i :: 0 <= i < |rows| ==> RefsOf(rows)[i] == "openrouter/" + rows[i].id.value
  {
    if rows != [] {
      RefsInOrder(rows[..|rows| - 1]);
    }
  }
}
