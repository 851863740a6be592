/**
 * The free-model merge of scripts/populate-openrouter-free-models.mjs: a table of
 * model rows replaced by tag, and the allow list that indexes it.
 */
module FreeModels {
  import opened Base

  const FREE_SUFFIX := ":free"
  const REF_PREFIX := "openrouter/"
  const DEFAULT_URL := "https://openrouter.ai/api/v1"

  /** `id` is None for an entry whose id is not a string; `facts` is all else it holds. */
  datatype Row = Row(id: Option<string>, tagged: bool, facts: int)

  datatype Item = Item(id: Option<string>, facts: int)

  /** `models` and `allow` are None when the field is absent or not an array. */
  datatype Config = Config(
    models: Option<seq<Row>>,
    baseUrl: Option<string>,
    allow: Option<seq<string>>,
    rest: int)

  // ----- sequences, built up from the front as the source's arrays are

  function Filter<T>(p: T -> bool, s: seq<T>): seq<T> {
    if s == [] then []
    else
      var done, last := Filter(p, s[..|s| - 1]), s[|s| - 1];
      if p(last) then done + [last] else done
  }

  /** `[...new Set(s)]`: first occurrences, in order. */
  function Dedup<T(==)>(s: seq<T>): seq<T> {
    if s == [] then []
    else
      var done, last := Dedup(s[..|s| - 1]), s[|s| - 1];
      if last in done then done else done + [last]
  }

  // ----- ids and refs

  predicate EndsWith(s: string, suffix: string) {
    |suffix| <= |s| && s[|s| - |suffix|..] == suffix
  }

  function BaseId(id: string): string {
    if EndsWith(id, FREE_SUFFIX) then id[..|id| - |FREE_SUFFIX|] else id
  }

  predicate LineBreak(c: char) {
    c == '\n' || c == '\r' || c == '\U{2028}' || c == '\U{2029}'
  }

  /** What `/^openrouter\/.+:free$/` accepts. */
  predicate IsFreeRef(ref: string) {
    && |ref| > |REF_PREFIX| + |FREE_SUFFIX|
    && ref[..|REF_PREFIX|] == REF_PREFIX
    && EndsWith(ref, FREE_SUFFIX)
    && forall i :: |REF_PREFIX| <= i < |ref| - |FREE_SUFFIX| ==> !LineBreak(ref[i])
  }

  function RefOf(row: Row): string
    requires row.id.Some?
  {
    REF_PREFIX + row.id.value
  }

  // ----- the pipeline

  function RowsOf(config: Config): seq<Row> {
    if config.models.Some? then config.models.value else []
  }

  function Untagged(rows: seq<Row>): seq<Row> {
    Filter((r: Row) => !r.tagged, rows)
  }

  function Tagged(rows: seq<Row>): seq<Row> {
    Filter((r: Row) => r.tagged, rows)
  }

  function IdsOf(rows: seq<Row>): set<string> {
    set r | r in rows && r.id.Some? :: r.id.value
  }

  /** The rows the catalog's free entries become. */
  function FreeRows(catalog: seq<Item>): seq<Row> {
    if catalog == [] then []
    else
      var done, item := FreeRows(catalog[..|catalog| - 1]), catalog[|catalog| - 1];
      if item.id.Some? && EndsWith(item.id.value, FREE_SUFFIX)
      then done + [Row(item.id, true, item.facts)]
      else done
  }

  function Applicable(ids: set<string>, free: seq<Row>): seq<Row> {
    Filter((r: Row) => r.id.Some? && BaseId(r.id.value) !in ids, free)
  }

  method FilterOutSubsumed(config: Config, free: seq<Row>) returns (applicable: seq<Row>)
    requires forall r :: r in free ==> r.id.Some?
    ensures applicable == Applicable(IdsOf(RowsOf(config)), free)
  {
    var existingIds: set<string> := {};
    if config.models.Some? {
      var models := config.models.value;
      for i := 0 to |models|
        invariant existingIds == IdsOf(models[..i])
      {
        assert models[..i + 1] == models[..i] + [models[i]];
        if models[i].id.Some? {
          existingIds := existingIds + {models[i].id.value};
        }
      }
      assert models[..|models|] == models;
    }
    assert existingIds == IdsOf(RowsOf(config));
    applicable := Applicable(existingIds, free);
  }

  function MergeModels(config: Config, applicable: seq<Row>): Config {
    config.(
      baseUrl := if config.baseUrl.Some? then config.baseUrl else Some(DEFAULT_URL),
      models := Some(Untagged(RowsOf(config)) + applicable))
  }

  function RefsOf(rows: seq<Row>): seq<string> {
    if rows == [] then []
    else
      var done, last := RefsOf(rows[..|rows| - 1]), rows[|rows| - 1];
      if last.id.Some? then done + [RefOf(last)] else done
  }

  function Preserved(allow: seq<string>): seq<string> {
    Filter((ref: string) => !IsFreeRef(ref), allow)
  }

  function Discovered(allow: seq<string>): seq<string> {
    Filter((ref: string) => IsFreeRef(ref), allow)
  }

  function MergePolicy(config: Config, applicable: seq<Row>): Config {
    if config.allow.None? || config.allow.value == [] then config
    else config.(allow := Some(Dedup(Preserved(config.allow.value) + RefsOf(applicable))))
  }

  function RunWith(config: Config, free: seq<Row>): Config {
    var applicable := Applicable(IdsOf(RowsOf(config)), free);
    MergePolicy(MergeModels(config, applicable), applicable)
  }

  /** One start of the container: what is in openclaw.json afterwards. */
  function Run(config: Config, catalog: seq<Item>): Config {
    if FreeRows(catalog) == [] then config else RunWith(config, FreeRows(catalog))
  }

  method RunScript(config: Config, catalog: seq<Item>) returns (next: Config)
    ensures next == Run(config, catalog)
    ensures (forall i :: 0 <= i < |catalog| ==> !IsFree(catalog[i])) ==> next == config
    ensures (exists i :: 0 <= i < |catalog| && IsFree(catalog[i])) ==>
              && next.models.Some?
              && next.baseUrl == if config.baseUrl.Some? then config.baseUrl else Some("https://openrouter.ai/api/v1")
    ensures config.baseUrl.Some? ==> next.baseUrl == config.baseUrl
    ensures next.rest == config.rest
    ensures config.allow.None? || config.allow.value == [] ==> next.allow == config.allow
  {
    FreeRowsComeFrom(catalog);
    var free := FreeRows(catalog);
    if |free| == 0 {
      return config;
    }
    FreeRowsAre(catalog);
    var applicable := FilterOutSubsumed(config, free);
    next := MergePolicy(MergeModels(config, applicable), applicable);
  }

  /** An entry whose id ends in `:free`. */
  predicate IsFree(item: Item) {
    item.id.Some? && |item.id.value| >= 5 && item.id.value[|item.id.value| - 5..] == ":free"
  }

  lemma {:induction false} FreeRowsComeFrom(catalog: seq<Item>)
    ensures FreeRows(catalog) != [] <==> exists i :: 0 <= i < |catalog| && IsFree(catalog[i])
  {
    if catalog != [] {
      var n := |catalog| - 1;
      FreeRowsComeFrom(catalog[..n]);
      assert forall i :: 0 <= i < n ==> catalog[..n][i] == catalog[i];
      if FreeRows(catalog[..n]) == [] && FreeRows(catalog) != [] {
        assert IsFree(catalog[n]);
      }
    }
  }

  lemma {:induction false} FreeRowsAre(catalog: seq<Item>)
    ensures forall r :: r in FreeRows(catalog) ==>
              r.tagged && r.id.Some? && EndsWith(r.id.value, FREE_SUFFIX) && Item(r.id, r.facts) in catalog
  {
    if catalog != [] {
      FreeRowsAre(catalog[..|catalog| - 1]);
    }
  }
}
