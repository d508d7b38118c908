/** `CacheActiveQuery`: a query object that reads `all()` and `one()`
    results from a key-value store, writes them back on a miss together
    with the invalidation tags of the tables and columns the query reads,
    and accumulates those tags in `dropConditions`. The store, the
    database and md5 are parameters of the operations that use them. */
module QueryCache {
  import opened Wrappers
  import opened Php
  import opened OrderedMaps
  import opened DropRules
  import opened Tags
  import opened CacheKeys
  import opened HitPath

  // ---------------------------------------------------------------------
  // The loops of getDropConditions and of the hit branch of all()
  // ---------------------------------------------------------------------

  /** The innermost loop of `getDropConditions` for a dependency whose
      value is a list: one tag per alternative, appended in order. */
  method AppendListTags(arr: Group, dep: string, xs: seq<Scalar>) returns (r: Group)
    ensures r == arr + ListTags(dep, xs)
  {
    r := arr;
    var j := 0;
    while j < |xs|
      invariant 0 <= j <= |xs|
      invariant r == arr + ListTags(dep, xs[..j])
    {
      assert xs[..j + 1][..j] == xs[..j];
      r := r + [(dep, xs[j])];
      j := j + 1;
    }
    assert xs[..j] == xs;
  }

  /** The loops of `getDropConditions` for a conditions entry: one tag per
      dependency value, one per alternative of a list. */
  method CollectConditionTags(deps: seq<(string, Val)>) returns (arr: Group)
    ensures arr == ConditionTags(deps)
  {
    arr := [];
    var k := 0;
    while k < |deps|
      invariant 0 <= k <= |deps|
      invariant arr == ConditionTags(deps[..k])
    {
      var (dep, cond) := deps[k];
      ConditionTagsStep(deps, k);
      match cond {
        case Single(x) =>
          arr := arr + [(dep, x)];
        case Many(xs) =>
          arr := AppendListTags(arr, dep, xs);
      }
      k := k + 1;
    }
    assert deps[..k] == deps;
  }

  /** The groups `getDropConditions` builds for one list entry. */
  method CollectEntryGroups(column: string, e: Entry) returns (gs: seq<Group>)
    ensures gs == ExpandEntry(column, e)
  {
    match e {
      case Star =>
        gs := [[(column, Str("*"))]];
      case Conds(deps) =>
        var arr := CollectConditionTags(deps);
        gs := [arr];
      case Pair(c, Single(x)) =>
        gs := [[(c, x)]];
      case Pair(c, Many(xs)) =>
        gs := [];
        var k := 0;
        while k < |xs|
          invariant 0 <= k <= |xs|
          invariant gs == SingleTagGroups(c, xs[..k])
        {
          assert xs[..k + 1][..k] == xs[..k];
          gs := gs + [[(c, xs[k])]];
          k := k + 1;
        }
        assert xs[..k] == xs;
    }
  }

  /** The groups `getDropConditions` builds for one key of a table: one
      empty group for the create marker, the groups of each entry of a
      list otherwise. */
  method CollectBucketGroups(column: string, values: Bucket) returns (gs: seq<Group>)
    ensures gs == ExpandBucket(column, values)
  {
    gs := [];
    if column == CreateKey && values.Create? {
      gs := [[]];
    } else if values.Entries? {
      var es := values.es;
      var j := 0;
      while j < |es|
        invariant 0 <= j <= |es|
        invariant gs == ExpandEntries(column, es[..j])
      {
        var eg := CollectEntryGroups(column, es[j]);
        assert es[..j + 1][..j] == es[..j];
        gs := gs + eg;
        j := j + 1;
      }
      assert es[..j] == es;
    }
  }

  /** The loop of `getDropConditions` over one table's keys. */
  method CollectTableConditions(rules: TableRules) returns (tc: seq<Group>)
    ensures tc == ExpandTable(rules)
  {
    tc := [];
    var i := 0;
    while i < |rules.keys|
      invariant 0 <= i <= |rules.keys|
      invariant tc == ExpandKeys(rules, rules.keys[..i])
    {
      var column := rules.keys[i];
      assert rules.keys[..i + 1][..i] == rules.keys[..i];
      if column in rules.vals {
        var gs := CollectBucketGroups(column, rules.vals[column]);
        tc := tc + gs;
      }
      i := i + 1;
    }
    assert rules.keys[..i] == rules.keys;
  }

  /** The loop of `getDropConditions` over the tables. */
  method CollectConditions(dc: DropConditions) returns (conditions: seq<TableTags>)
    ensures conditions == Materialise(dc)
  {
    conditions := [];
    var i := 0;
    while i < |dc.keys|
      invariant 0 <= i <= |dc.keys|
      invariant conditions == MaterialiseTables(dc, dc.keys[..i])
    {
      var table := dc.keys[i];
      var tc := CollectTableConditions(TableOf(dc, table));
      assert dc.keys[..i + 1][..i] == dc.keys[..i];
      conditions := conditions + [(table, tc)];
      i := i + 1;
    }
    assert dc.keys[..i] == dc.keys;
  }

  /** The hit branch of `all()`: each cached model is assigned, in order,
      under its attribute `indexBy` when that is a string, under its cached
      key otherwise. None when a model lacks the attribute and PHP throws. */
  method IndexCachedRows(rows: Rows, indexBy: IndexBy) returns (r: Option<Rows>)
    ensures r == Reindex(rows, indexBy)
  {
    var result: Rows := Empty();
    var i := 0;
    while i < |rows.keys|
      invariant 0 <= i <= |rows.keys|
      invariant Reindex(Prefix(rows, i), indexBy) == Some(result)
    {
      var key := rows.keys[i];
      PrefixInit(rows, i);
      if key in rows.vals {
        var model := rows.vals[key];
        var index := key;
        if indexBy.ByAttribute? {
          if indexBy.name !in model {
            ReindexMissingAttribute(rows, indexBy.name, i);
            return None;
          }
          index := KeyOf(model[indexBy.name]);
        }
        result := Put(result, index, model);
      }
      i := i + 1;
    }
    PrefixAll(rows);
    r := Some(result);
  }

  // ---------------------------------------------------------------------
  // The query object
  // ---------------------------------------------------------------------

  /** How a call ends: with a value, or with a PHP error thrown. */
  datatype Answer<T> = Answered(value: T) | Raised

  /** What a miss sends to the store: the key, the value, and the tags
      under which the entry is dropped. */
  datatype CacheWrite<T> = CacheWrite(key: string, payload: T, tags: seq<TableTags>)

  class CacheActiveQuery {
    /** The query's model class, and the table that class maps to. */
    const modelClass: string
    const tableName: string
    /** The query's FROM tables. */
    const from: seq<string>
    /** The number of elements of the query's WHERE array. */
    const whereCount: nat
    /** The comparisons the WHERE clause parses into. */
    const parsedWhere: seq<Leaf>
    const limit: int
    const offset: int
    const indexBy: IndexBy

    var asArray: bool
    var dropConditions: DropConditions
    var disableCache: bool

    /** Keys are unique at both levels and the create marker sits only
        under "create". */
    ghost predicate Valid()
      reads this
    {
      WellFormed(dropConditions)
    }

    constructor (modelClass: string, tableName: string, from: seq<string>, whereCount: nat,
                 parsedWhere: seq<Leaf>, limit: int, offset: int, indexBy: IndexBy)
      ensures this.modelClass == modelClass && this.tableName == tableName && this.from == from
      ensures this.whereCount == whereCount && this.parsedWhere == parsedWhere
      ensures this.limit == limit && this.offset == offset && this.indexBy == indexBy
      ensures !asArray && dropConditions == Empty() && !disableCache
      ensures Valid()
    {
      this.modelClass := modelClass;
      this.tableName := tableName;
      this.from := from;
      this.whereCount := whereCount;
      this.parsedWhere := parsedWhere;
      this.limit := limit;
      this.offset := offset;
      this.indexBy := indexBy;
      asArray := false;
      dropConditions := Empty();
      disableCache := false;
    }

    /** `isCacheEnabled`: `globalDisabled` stands for DISABLE_AR_CACHE
        being defined and truthy. */
    predicate IsCacheEnabled(globalDisabled: bool)
      reads this
    {
      !disableCache && !globalDisabled
    }

    /** `noCache()`: the cache stays off for this query from now on. */
    method NoCache()
      modifies this
      ensures disableCache && forall g :: !IsCacheEnabled(g)
      ensures asArray == old(asArray) && dropConditions == old(dropConditions)
    {
      disableCache := true;
    }

    /** `asArray($value)`: a truthy value turns the cache off; a falsy one
        leaves it as it was. */
    method AsArray(value: bool)
      modifies this
      ensures asArray == value
      ensures disableCache == (old(disableCache) || value)
      ensures value ==> forall g :: !IsCacheEnabled(g)
      ensures !value ==> forall g :: IsCacheEnabled(g) == old(IsCacheEnabled(g))
      ensures dropConditions == old(dropConditions)
    {
      if value {
        disableCache := true;
      }
      asArray := value;
    }

    /** `dropCacheOnCreate($param, $value)`. `ok` is false when PHP throws;
        the rules then hold what was written before the throw. */
    method DropCacheOnCreate(param: Option<string>, value: Val) returns (ok: bool)
      requires Valid()
      modifies this
      ensures Valid()
      ensures dropConditions == OnCreate(old(dropConditions), tableName, param, value).state
      ensures ok == OnCreate(old(dropConditions), tableName, param, value).Normal?
      ensures asArray == old(asArray) && disableCache == old(disableCache)
    {
      OnCreateWellFormed(dropConditions, tableName, param, value);
      dropConditions := EnsureTable(dropConditions, tableName);
      var rules := dropConditions.vals[tableName];
      if param.Some? && Truthy(param.value) {
        var p := param.value;
        if p in rules.vals && rules.vals[p].Create? {
          return false;
        }
        rules := Put(rules, p, Entries(BucketEntries(rules, p) + [Pair(p, value)]));
      } else {
        rules := Put(rules, CreateKey, Create);
      }
      dropConditions := Put(dropConditions, tableName, rules);
      ok := true;
    }

    /** `dropCacheOnUpdate($param, $conditions)`; `conditions` is empty when
        the argument is null or an empty array. */
    method DropCacheOnUpdate(param: string, conditions: seq<(string, Val)>) returns (ok: bool)
      requires Valid()
      modifies this
      ensures Valid()
      ensures dropConditions == OnUpdate(old(dropConditions), tableName, param, conditions).state
      ensures ok == OnUpdate(old(dropConditions), tableName, param, conditions).Normal?
      ensures asArray == old(asArray) && disableCache == old(disableCache)
    {
      OnUpdateWellFormed(dropConditions, tableName, param, conditions);
      dropConditions := EnsureTable(dropConditions, tableName);
      var rules := dropConditions.vals[tableName];
      if param in rules.vals && rules.vals[param].Create? {
        return false;
      }
      var cond := if conditions == [] then Star else Conds(conditions);
      rules := Put(rules, param, Entries(BucketEntries(rules, param) + [cond]));
      dropConditions := Put(dropConditions, tableName, rules);
      ok := true;
    }

    /** `generateCacheKey($sql, $mode)`, with `digest` standing for md5. */
    method GenerateCacheKey(sql: string, mode: string, digest: string -> string) returns (key: string)
      requires Valid()
      modifies this
      ensures Valid()
      ensures key == CacheKey(mode, modelClass, sql, limit, offset, digest)
      ensures dropConditions == MarkUnfiltered(old(dropConditions), tableName, whereCount)
      ensures asArray == old(asArray) && disableCache == old(disableCache)
    {
      var text := mode + LowerStr(modelClass) + sql;
      if whereCount == 0 && |dropConditions.keys| == 0 {
        var _ := DropCacheOnCreate(None, Single(Null));
      }
      if limit > 0 {
        text := text + "limit" + Decimal(limit);
      }
      if offset > 0 {
        text := text + "offset" + Decimal(offset);
      }
      assert text == PreHash(mode, modelClass, sql, limit, offset);
      key := "q:" + digest(text);
    }

    /** `fillDropConditions()`: for each FROM table, its rules gain one
        `[column, value]` per WHERE comparison whose operator is kept, or,
        without a WHERE clause, the create marker when it has no rules. */
    method FillDropConditions() returns (ok: bool)
      requires Valid()
      modifies this
      ensures Valid()
      ensures dropConditions == Fill(old(dropConditions), from, whereCount, parsedWhere).state
      ensures ok == Fill(old(dropConditions), from, whereCount, parsedWhere).Normal?
      ensures asArray == old(asArray) && disableCache == old(disableCache)
    {
      ghost var dc0 := dropConditions;
      FillWellFormed(dc0, from, whereCount, parsedWhere);
      var i := 0;
      while i < |from|
        invariant 0 <= i <= |from|
        invariant Fill(dc0, from[..i], whereCount, parsedWhere) == Normal(dropConditions)
        invariant asArray == old(asArray) && disableCache == old(disableCache)
      {
        ghost var before := dropConditions;
        var tableOk := FillTableRules(from[i]);
        FillAdvance(dc0, from, whereCount, parsedWhere, i, before);
        if !tableOk {
          return false;
        }
        i := i + 1;
      }
      assert from[..i] == from;
      ok := true;
    }

    /** One iteration of `fillDropConditions` over the FROM tables. */
    method FillTableRules(table: string) returns (ok: bool)
      modifies this
      ensures dropConditions == FillTable(old(dropConditions), table, whereCount, parsedWhere).state
      ensures ok == FillTable(old(dropConditions), table, whereCount, parsedWhere).Normal?
      ensures asArray == old(asArray) && disableCache == old(disableCache)
    {
      dropConditions := EnsureTable(dropConditions, table);
      var rules := dropConditions.vals[table];
      if whereCount != 0 {
        var filled := FillTableLeaves(table, rules);
        dropConditions := Put(dropConditions, table, filled.state);
        ok := filled.Normal?;
      } else {
        if rules.keys == [] {
          dropConditions := Put(dropConditions, table, Put(rules, CreateKey, Create));
        }
        ok := true;
      }
    }

    /** The loop over the parsed WHERE leaves for one table, on a copy of
        its rules. */
    method FillTableLeaves(table: string, rules: TableRules) returns (r: Outcome<TableRules>)
      ensures r == FillLeaves(rules, table, parsedWhere)
    {
      var cur := rules;
      var j := 0;
      while j < |parsedWhere|
        invariant 0 <= j <= |parsedWhere|
        invariant FillLeaves(rules, table, parsedWhere[..j]) == Normal(cur)
      {
        var leaf := parsedWhere[j];
        assert parsedWhere[..j + 1][..j] == parsedWhere[..j];
        if !Excluded(leaf.operator) {
          var column := RemoveAllCI(leaf.column, Qualifier(table));
          if column in cur.vals && cur.vals[column].Create? {
            FillLeavesStopsAtThrow(rules, table, parsedWhere, j + 1);
            return Thrown(cur);
          }
          cur := Put(cur, column, Entries(BucketEntries(cur, column) + [Pair(column, leaf.value)]));
        }
        j := j + 1;
      }
      assert parsedWhere[..j] == parsedWhere;
      r := Normal(cur);
    }

    /** `getDropConditions()`: fill, then turn the rules into tags. */
    method GetDropConditions() returns (ok: bool, conditions: seq<TableTags>)
      requires Valid()
      modifies this
      ensures Valid()
      ensures dropConditions == Fill(old(dropConditions), from, whereCount, parsedWhere).state
      ensures ok == Fill(old(dropConditions), from, whereCount, parsedWhere).Normal?
      ensures ok ==> conditions == Materialise(dropConditions)
      ensures asArray == old(asArray) && disableCache == old(disableCache)
    {
      ok := FillDropConditions();
      if !ok {
        return false, [];
      }
      conditions := CollectConditions(dropConditions);
    }

    /** `all()`. `sql` is the command's raw SQL, `store` the cache as it is
        read, and `fetched` what the database returns on a miss. */
    method All(globalDisabled: bool, sql: string, digest: string -> string, store: map<string, Rows>, fetched: Rows)
      returns (result: Answer<Rows>, write: Option<CacheWrite<Rows>>)
      requires Valid()
      modifies this
      ensures Valid()
      ensures asArray == old(asArray) && disableCache == old(disableCache)
      ensures !old(IsCacheEnabled(globalDisabled)) ==>
                result == Answered(fetched) && write == None && dropConditions == old(dropConditions)
      ensures old(IsCacheEnabled(globalDisabled)) ==>
                var key := CacheKey("all", modelClass, sql, limit, offset, digest);
                var marked := MarkUnfiltered(old(dropConditions), tableName, whereCount);
                var filled := Fill(marked, from, whereCount, parsedWhere);
                match AllFromCache(Read(store, key))
                case Hit(rows) =>
                  && write == None && dropConditions == marked
                  && result == (if Reindex(rows, indexBy).Some? then Answered(Reindex(rows, indexBy).value) else Raised)
                case Miss =>
                  && (fetched.keys == [] ==> result == Answered(fetched) && write == None && dropConditions == marked)
                  && (fetched.keys != [] ==> dropConditions == filled.state)
                  && (fetched.keys != [] && filled.Thrown? ==> result == Raised && write == None)
                  && (fetched.keys != [] && filled.Normal? ==>
                        result == Answered(fetched) && write == Some(CacheWrite(key, fetched, Materialise(filled.state))))
    {
      if !IsCacheEnabled(globalDisabled) {
        return Answered(fetched), None;
      }
      var key := GenerateCacheKey(sql, "all", digest);
      var fromCache := AllFromCache(Read(store, key));
      if fromCache.Hit? {
        var indexed := IndexCachedRows(fromCache.value, indexBy);
        result := if indexed.Some? then Answered(indexed.value) else Raised;
        write := None;
        return;
      }
      write := None;
      if fetched.keys != [] {
        var ok, conditions := GetDropConditions();
        if !ok {
          return Raised, None;
        }
        write := Some(CacheWrite(key, fetched, conditions));
      }
      result := Answered(fetched);
    }

    /** `one()`. `found` is what the database returns on a miss. */
    method One(globalDisabled: bool, sql: string, digest: string -> string, store: map<string, Stored>, found: Option<Model>)
      returns (result: Answer<Option<Stored>>, write: Option<CacheWrite<Stored>>)
      requires Valid()
      modifies this
      ensures Valid()
      ensures asArray == old(asArray) && disableCache == old(disableCache)
      ensures !old(IsCacheEnabled(globalDisabled)) ==>
                result == Answered(FoundRow(found)) && write == None && dropConditions == old(dropConditions)
      ensures old(IsCacheEnabled(globalDisabled)) ==>
                var key := CacheKey("one", modelClass, sql, limit, offset, digest);
                var marked := MarkUnfiltered(old(dropConditions), tableName, whereCount);
                var filled := Fill(marked, from, whereCount, parsedWhere);
                match OneFromCache(Read(store, key))
                case Hit(v) => result == Answered(v) && write == None && dropConditions == marked
                case Miss =>
                  && (found.None? ==> result == Answered(None) && write == None && dropConditions == marked)
                  && (found.Some? ==> dropConditions == filled.state)
                  && (found.Some? && filled.Thrown? ==> result == Raised && write == None)
                  && (found.Some? && filled.Normal? ==>
                        && result == Answered(Some(Record(found.value)))
                        && write == Some(CacheWrite(key, Record(found.value), Materialise(filled.state))))
    {
      if !IsCacheEnabled(globalDisabled) {
        return Answered(FoundRow(found)), None;
      }
      var key := GenerateCacheKey(sql, "one", digest);
      var fromCache := OneFromCache(Read(store, key));
      if fromCache.Hit? {
        return Answered(fromCache.value), None;
      }
      write := None;
      if found.Some? {
        var ok, conditions := GetDropConditions();
        if !ok {
          return Raised, None;
        }
        write := Some(CacheWrite(key, Record(found.value), conditions));
        return Answered(Some(Record(found.value))), write;
      }
      result := Answered(None);
    }
  }
}
