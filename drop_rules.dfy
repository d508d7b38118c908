/** The invalidation rules a query accumulates before it is cached: a map
    from table name to a map from column name (or the key "create") to a
    list of rule entries, both in insertion order. The functions here state
    what `dropCacheOnCreate`, `dropCacheOnUpdate`, `fillDropConditions` and
    the side effect of `generateCacheKey` do to that map. */
module DropRules {
  import opened Wrappers
  import opened Php
  import opened OrderedMaps

  /** A condition value: one scalar, or a list of alternatives. */
  datatype Val = Single(v: Scalar) | Many(vs: seq<Scalar>)

  /** One element of a column's rule list. */
  datatype Entry =
    | Pair(column: string, value: Val)   // `[column, value]`
    | Star                               // `'*'`: any update of the column
    | Conds(deps: seq<(string, Val)>)    // `['conditions' => [dep => value, ...]]`

  /** What a table maps a key to: the marker `true`, or a list of entries. */
  datatype Bucket = Create | Entries(es: seq<Entry>)

  type TableRules = OMap<string, Bucket>

  type DropConditions = OMap<string, TableRules>

  /** The state a step leaves behind, and whether PHP threw on the way. */
  datatype Outcome<T> = Normal(state: T) | Thrown(state: T)

  /** The key under which the create marker is stored. */
  const CreateKey: string := "create"

  /** The rules of a table that holds the create marker and nothing else. */
  const MarkerOnly: TableRules := OMap([CreateKey], map[CreateKey := Create])

  /** Both levels are valid arrays, and the create marker is only ever
      stored under the key "create". */
  predicate WellFormedRules(rules: TableRules) {
    && Valid(rules)
    && forall k :: k in rules.vals && rules.vals[k].Create? ==> k == CreateKey
  }

  predicate WellFormed(dc: DropConditions) {
    && Valid(dc)
    && forall t :: t in dc.vals ==> WellFormedRules(dc.vals[t])
  }

  /** The rules of a table, empty when the table has no key yet. */
  function TableOf(dc: DropConditions, table: string): TableRules {
    if table in dc.vals then dc.vals[table] else Empty()
  }

  /** The list stored under a key, empty when there is none. */
  function BucketEntries(rules: TableRules, key: string): seq<Entry> {
    if key in rules.vals && rules.vals[key].Entries? then rules.vals[key].es else []
  }

  /** The table's rules hold the create marker. */
  predicate Marked(rules: TableRules) {
    CreateKey in rules.vals && rules.vals[CreateKey].Create?
  }

  /** A valid array without keys has no values either. */
  lemma EmptyValid<V>(m: OMap<string, V>)
    requires Valid(m) && m.keys == []
    ensures m == Empty()
  {
    assert forall k :: k !in m.vals;
  }

  /** `if (!array_key_exists($table, $dc)) { $dc[$table] = []; }` */
  function EnsureTable(dc: DropConditions, table: string): (r: DropConditions)
    ensures table in r.vals && r.vals[table] == TableOf(dc, table)
    ensures r.keys == if table in dc.vals then dc.keys else dc.keys + [table]
  {
    if table in dc.vals then dc else Put(dc, table, Empty())
  }

  /** Adding a table keeps every other table, and keeps the rule map well
      formed. */
  lemma EnsureTableFrame(dc: DropConditions, table: string)
    ensures AgreeExcept(dc, EnsureTable(dc, table), table)
    ensures WellFormed(dc) ==> WellFormed(EnsureTable(dc, table))
  {
    if table !in dc.vals {
      PutFrame(dc, table, Empty());
      if WellFormed(dc) {
        PutValid(dc, table, Empty());
      }
    }
  }

  /** `$rules[$key][] = $e`: a missing key gets a one-element list and a
      list grows by one element at its end; the marker `true` cannot be
      appended to, and PHP throws. */
  function AppendEntry(rules: TableRules, key: string, e: Entry): (r: Option<TableRules>)
    ensures r.None? <==> key in rules.vals && rules.vals[key].Create?
    ensures r.Some? ==> key in r.value.vals && r.value.vals[key] == Entries(BucketEntries(rules, key) + [e])
  {
    if key in rules.vals && rules.vals[key].Create? then None
    else Some(Put(rules, key, Entries(BucketEntries(rules, key) + [e])))
  }

  /** Appending changes no other key, keeps the order of the keys with a
      new key last, and keeps the rules well formed. */
  lemma AppendFrame(rules: TableRules, key: string, e: Entry)
    requires AppendEntry(rules, key, e).Some?
    ensures AgreeExcept(rules, AppendEntry(rules, key, e).value, key)
    ensures AppendEntry(rules, key, e).value.keys == if key in rules.vals then rules.keys else rules.keys + [key]
    ensures WellFormedRules(rules) ==> WellFormedRules(AppendEntry(rules, key, e).value)
  {
    var b := Entries(BucketEntries(rules, key) + [e]);
    PutFrame(rules, key, b);
    if WellFormedRules(rules) {
      PutValid(rules, key, b);
    }
  }

  /** Storing a table's rules keeps the rule map well formed. */
  lemma PutTableWellFormed(dc: DropConditions, table: string, rules: TableRules)
    requires WellFormed(dc) && WellFormedRules(rules)
    ensures WellFormed(Put(dc, table, rules))
  {
    PutValid(dc, table, rules);
  }

  /** `dropCacheOnCreate($param, $value)` on the model's table. A truthy
      param appends `[param, value]` to the param's list; otherwise the
      table gets the create marker. */
  function OnCreate(dc: DropConditions, table: string, param: Option<string>, value: Val): (r: Outcome<DropConditions>)
    ensures table in r.state.vals
    ensures r.Thrown? ==> param.Some? && Truthy(param.value) && r.state == EnsureTable(dc, table)
  {
    var dc1 := EnsureTable(dc, table);
    var rules := dc1.vals[table];
    if param.Some? && Truthy(param.value) then
      match AppendEntry(rules, param.value, Pair(param.value, value))
      case None => Thrown(dc1)
      case Some(rules') => Normal(Put(dc1, table, rules'))
    else
      Normal(Put(dc1, table, Put(rules, CreateKey, Create)))
  }

  /** The table's key is present afterwards, in the order `EnsureTable`
      gives, and no other table changes. */
  lemma OnCreateFrame(dc: DropConditions, table: string, param: Option<string>, value: Val)
    ensures var r := OnCreate(dc, table, param, value);
            && table in r.state.vals && AgreeExcept(dc, r.state, table)
            && r.state.keys == EnsureTable(dc, table).keys
  {
    var dc1 := EnsureTable(dc, table);
    EnsureTableFrame(dc, table);
    var r := OnCreate(dc, table, param, value);
    if r.Normal? {
      PutFrame(dc1, table, r.state.vals[table]);
    }
  }

  /** With a truthy param: PHP throws exactly when the param's key holds
      the create marker, and the table is then unchanged; otherwise
      `[param, value]` is appended to the param's list and no other key of
      the table changes. */
  lemma OnCreateParam(dc: DropConditions, table: string, p: string, value: Val)
    requires Truthy(p)
    ensures var r := OnCreate(dc, table, Some(p), value);
            var rules := TableOf(dc, table);
            && table in r.state.vals
            && (r.Thrown? <==> p in rules.vals && rules.vals[p].Create?)
            && (r.Thrown? ==> r.state.vals[table] == rules)
            && (r.Normal? ==> p in r.state.vals[table].vals
                              && r.state.vals[table].vals[p] == Entries(BucketEntries(rules, p) + [Pair(p, value)]))
            && (r.Normal? ==> AgreeExcept(rules, r.state.vals[table], p))
            && (r.Normal? ==> r.state.vals[table].keys == if p in rules.vals then rules.keys else rules.keys + [p])
  {
    var rules := TableOf(dc, table);
    if AppendEntry(rules, p, Pair(p, value)).Some? {
      AppendFrame(rules, p, Pair(p, value));
    }
  }

  /** Without a truthy param the call cannot throw: the table gets the
      create marker and its other keys are unchanged. */
  lemma OnCreateMarker(dc: DropConditions, table: string, param: Option<string>, value: Val)
    requires !(param.Some? && Truthy(param.value))
    ensures var r := OnCreate(dc, table, param, value);
            && r.Normal? && table in r.state.vals
            && Marked(r.state.vals[table])
            && AgreeExcept(TableOf(dc, table), r.state.vals[table], CreateKey)
            && r.state.vals[table].keys
               == if CreateKey in TableOf(dc, table).vals then TableOf(dc, table).keys else TableOf(dc, table).keys + [CreateKey]
  {
    PutFrame(TableOf(dc, table), CreateKey, Create);
  }

  /** The call keeps the rule map well formed, whether or not PHP throws. */
  lemma OnCreateWellFormed(dc: DropConditions, table: string, param: Option<string>, value: Val)
    requires WellFormed(dc)
    ensures WellFormed(OnCreate(dc, table, param, value).state)
  {
    var dc1 := EnsureTable(dc, table);
    EnsureTableFrame(dc, table);
    var rules := dc1.vals[table];
    if param.Some? && Truthy(param.value) {
      var e := Pair(param.value, value);
      var a := AppendEntry(rules, param.value, e);
      if a.Some? {
        AppendFrame(rules, param.value, e);
        PutTableWellFormed(dc1, table, a.value);
        assert OnCreate(dc, table, param, value).state == Put(dc1, table, a.value);
      } else {
        assert OnCreate(dc, table, param, value).state == dc1;
      }
    } else {
      MarkWellFormed(rules);
      PutTableWellFormed(dc1, table, Put(rules, CreateKey, Create));
      assert OnCreate(dc, table, param, value).state == Put(dc1, table, Put(rules, CreateKey, Create));
    }
  }

  /** Setting `create => true` keeps a table's rules well formed. */
  lemma MarkWellFormed(rules: TableRules)
    requires WellFormedRules(rules)
    ensures WellFormedRules(Put(rules, CreateKey, Create))
  {
    PutValid(rules, CreateKey, Create);
  }

  /** The entry `dropCacheOnUpdate` records: `'*'` when no conditions are
      given (null or an empty array), otherwise `['conditions' => ...]`. */
  function UpdateEntry(conditions: seq<(string, Val)>): (e: Entry)
    ensures e.Star? <==> conditions == []
    ensures conditions != [] ==> e == Conds(conditions)
  {
    if conditions == [] then Star else Conds(conditions)
  }

  /** `dropCacheOnUpdate($param, $conditions)` on the model's table. */
  function OnUpdate(dc: DropConditions, table: string, param: string, conditions: seq<(string, Val)>): (r: Outcome<DropConditions>)
    ensures table in r.state.vals
    ensures r.Thrown? ==> r.state == EnsureTable(dc, table)
  {
    var dc1 := EnsureTable(dc, table);
    match AppendEntry(dc1.vals[table], param, UpdateEntry(conditions))
    case None => Thrown(dc1)
    case Some(rules') => Normal(Put(dc1, table, rules'))
  }

  /** PHP throws exactly when the param's key holds the create marker, and
      the rules are then unchanged; otherwise the entry is appended to the
      param's list, and nothing else changes. */
  lemma OnUpdateEffect(dc: DropConditions, table: string, param: string, conditions: seq<(string, Val)>)
    ensures var r := OnUpdate(dc, table, param, conditions);
            var rules := TableOf(dc, table);
            && table in r.state.vals && AgreeExcept(dc, r.state, table)
            && r.state.keys == EnsureTable(dc, table).keys
            && (r.Thrown? <==> param in rules.vals && rules.vals[param].Create?)
            && (r.Thrown? ==> r.state.vals[table] == rules)
            && (r.Normal? ==> param in r.state.vals[table].vals
                              && r.state.vals[table].vals[param] == Entries(BucketEntries(rules, param) + [UpdateEntry(conditions)]))
            && (r.Normal? ==> AgreeExcept(rules, r.state.vals[table], param))
            && (r.Normal? ==> r.state.vals[table].keys == if param in rules.vals then rules.keys else rules.keys + [param])
  {
    var dc1 := EnsureTable(dc, table);
    EnsureTableFrame(dc, table);
    var a := AppendEntry(dc1.vals[table], param, UpdateEntry(conditions));
    if a.Some? {
      AppendFrame(dc1.vals[table], param, UpdateEntry(conditions));
      PutFrame(dc1, table, a.value);
    }
  }

  /** An update that does not throw leaves the param's list of the table
      as it was with the new entry at its end. */
  lemma OnUpdateAppends(dc: DropConditions, table: string, param: string, conditions: seq<(string, Val)>)
    requires OnUpdate(dc, table, param, conditions).Normal?
    ensures var s := OnUpdate(dc, table, param, conditions).state;
            && table in s.vals
            && BucketEntries(s.vals[table], param) == BucketEntries(TableOf(dc, table), param) + [UpdateEntry(conditions)]
  {
    OnUpdateEffect(dc, table, param, conditions);
  }

  /** The call keeps the rule map well formed, whether or not PHP throws. */
  lemma OnUpdateWellFormed(dc: DropConditions, table: string, param: string, conditions: seq<(string, Val)>)
    requires WellFormed(dc)
    ensures WellFormed(OnUpdate(dc, table, param, conditions).state)
  {
    var dc1 := EnsureTable(dc, table);
    EnsureTableFrame(dc, table);
    var a := AppendEntry(dc1.vals[table], param, UpdateEntry(conditions));
    if a.Some? {
      AppendFrame(dc1.vals[table], param, UpdateEntry(conditions));
      PutTableWellFormed(dc1, table, a.value);
    }
  }

  /** One comparison of the parsed WHERE clause. */
  datatype Leaf = Leaf(column: string, operator: string, value: Val)

  /** Operators whose comparisons contribute no rule. The comparison is
      exact: another spelling of one of them is not excluded. */
  const ExcludedOperators: seq<string> := ["NOT IN", "!=", ">", "<", ">=", "<="]

  predicate Excluded(op: string) {
    op in ExcludedOperators
  }

  /** The prefix `{{table}}.` that qualifies a column with its table. */
  function Qualifier(table: string): string {
    "{{" + table + "}}."
  }

  /** The leaf's column with every `{{table}}.` removed, in any letter case. */
  function LeafColumn(leaf: Leaf, table: string): string {
    RemoveAllCI(leaf.column, Qualifier(table))
  }

  /** The `foreach` over the parsed WHERE leaves for one table: each leaf
      with a kept operator appends `[column, value]` under its column. */
  function FillLeaves(rules: TableRules, table: string, leaves: seq<Leaf>): Outcome<TableRules>
    decreases |leaves|
  {
    if leaves == [] then Normal(rules)
    else
      match FillLeaves(rules, table, leaves[..|leaves| - 1])
      case Thrown(s) => Thrown(s)
      case Normal(s) =>
        var leaf := leaves[|leaves| - 1];
        if Excluded(leaf.operator) then Normal(s)
        else
          var c := LeafColumn(leaf, table);
          match AppendEntry(s, c, Pair(c, leaf.value))
          case None => Thrown(s)
          case Some(s') => Normal(s')
  }

  /** One iteration of `fillDropConditions` over the FROM tables. */
  function FillTable(dc: DropConditions, table: string, whereCount: nat, leaves: seq<Leaf>): (r: Outcome<DropConditions>)
    ensures table in r.state.vals
    ensures whereCount == 0 ==> r.Normal?
  {
    var dc1 := EnsureTable(dc, table);
    var rules := dc1.vals[table];
    if whereCount != 0 then
      match FillLeaves(rules, table, leaves)
      case Normal(s) => Normal(Put(dc1, table, s))
      case Thrown(s) => Thrown(Put(dc1, table, s))
    else if rules.keys == [] then Normal(Put(dc1, table, Put(rules, CreateKey, Create)))
    else Normal(dc1)
  }

  /** `fillDropConditions`: every FROM table in turn; the first throw ends it. */
  function Fill(dc: DropConditions, from: seq<string>, whereCount: nat, leaves: seq<Leaf>): (r: Outcome<DropConditions>)
    ensures whereCount == 0 ==> r.Normal?
    decreases |from|
  {
    if from == [] then Normal(dc)
    else
      match Fill(dc, from[..|from| - 1], whereCount, leaves)
      case Thrown(s) => Thrown(s)
      case Normal(s) => FillTable(s, from[|from| - 1], whereCount, leaves)
  }

  /** Filling one more FROM table runs that table's step on the state
      the previous ones left. */
  lemma FillStep(dc: DropConditions, from: seq<string>, whereCount: nat, leaves: seq<Leaf>, i: nat)
    requires i < |from| && Fill(dc, from[..i], whereCount, leaves).Normal?
    ensures Fill(dc, from[..i + 1], whereCount, leaves) == FillTable(Fill(dc, from[..i], whereCount, leaves).state, from[i], whereCount, leaves)
  {
    assert from[..i + 1][..i] == from[..i];
  }

  /** Once a leaf throws, the later leaves are never reached. */
  lemma {:induction false} FillLeavesStopsAtThrow(rules: TableRules, table: string, leaves: seq<Leaf>, k: nat)
    requires k <= |leaves| && FillLeaves(rules, table, leaves[..k]).Thrown?
    ensures FillLeaves(rules, table, leaves) == FillLeaves(rules, table, leaves[..k])
    decreases |leaves|
  {
    if k < |leaves| {
      var prefix := leaves[..|leaves| - 1];
      assert prefix[..k] == leaves[..k];
      FillLeavesStopsAtThrow(rules, table, prefix, k);
    } else {
      assert leaves[..k] == leaves;
    }
  }

  /** Once a table's step throws, the later FROM tables are never reached. */
  lemma {:induction false} FillStopsAtThrow(dc: DropConditions, from: seq<string>, whereCount: nat, leaves: seq<Leaf>, k: nat)
    requires k <= |from| && Fill(dc, from[..k], whereCount, leaves).Thrown?
    ensures Fill(dc, from, whereCount, leaves) == Fill(dc, from[..k], whereCount, leaves)
    decreases |from|
  {
    if k < |from| {
      var prefix := from[..|from| - 1];
      assert prefix[..k] == from[..k];
      FillStopsAtThrow(dc, prefix, whereCount, leaves, k);
    } else {
      assert from[..k] == from;
    }
  }

  /** The loop of `fillDropConditions` one table further: the prefix of
      the FROM list grows by the table's step, and a step that throws ends
      the whole fill with its state. */
  lemma FillAdvance(dc: DropConditions, from: seq<string>, whereCount: nat, leaves: seq<Leaf>, i: nat, s: DropConditions)
    requires i < |from| && Fill(dc, from[..i], whereCount, leaves) == Normal(s)
    ensures Fill(dc, from[..i + 1], whereCount, leaves) == FillTable(s, from[i], whereCount, leaves)
    ensures FillTable(s, from[i], whereCount, leaves).Thrown? ==>
              Fill(dc, from, whereCount, leaves) == FillTable(s, from[i], whereCount, leaves)
  {
    FillStep(dc, from, whereCount, leaves, i);
    if FillTable(s, from[i], whereCount, leaves).Thrown? {
      FillStopsAtThrow(dc, from, whereCount, leaves, i + 1);
    }
  }

  /** The side effect of `generateCacheKey`: a query without WHERE whose
      object holds no rules at all gets the create marker for its table. */
  function MarkUnfiltered(dc: DropConditions, table: string, whereCount: nat): (r: DropConditions)
    ensures whereCount == 0 && dc.keys == [] && Valid(dc) ==> r == OMap([table], map[table := MarkerOnly])
    ensures !(whereCount == 0 && dc.keys == []) ==> r == dc
  {
    if whereCount == 0 && |dc.keys| == 0 then
      assert Valid(dc) ==> dc == Empty() by {
        if Valid(dc) {
          EmptyValid(dc);
        }
      }
      assert Put(Empty(), CreateKey, Create) == MarkerOnly;
      OnCreate(dc, table, None, Single(Null)).state
    else dc
  }

  // ---------------------------------------------------------------------
  // Properties of fillDropConditions
  // ---------------------------------------------------------------------

  lemma {:induction false} FillLeavesWellFormed(rules: TableRules, table: string, leaves: seq<Leaf>)
    requires WellFormedRules(rules)
    ensures WellFormedRules(FillLeaves(rules, table, leaves).state)
    decreases |leaves|
  {
    if leaves != [] {
      var prefix := leaves[..|leaves| - 1];
      FillLeavesWellFormed(rules, table, prefix);
      var o := FillLeaves(rules, table, prefix);
      var leaf := leaves[|leaves| - 1];
      var c := LeafColumn(leaf, table);
      if o.Normal? && !Excluded(leaf.operator) && AppendEntry(o.state, c, Pair(c, leaf.value)).Some? {
        AppendFrame(o.state, c, Pair(c, leaf.value));
      }
    }
  }

  lemma FillTableWellFormed(dc: DropConditions, table: string, whereCount: nat, leaves: seq<Leaf>)
    requires WellFormed(dc)
    ensures WellFormed(FillTable(dc, table, whereCount, leaves).state)
  {
    var dc1 := EnsureTable(dc, table);
    var rules := dc1.vals[table];
    EnsureTableFrame(dc, table);
    if whereCount != 0 {
      var s := FillLeaves(rules, table, leaves).state;
      FillLeavesWellFormed(rules, table, leaves);
      PutTableWellFormed(dc1, table, s);
      assert FillTable(dc, table, whereCount, leaves).state == Put(dc1, table, s);
    } else if rules.keys == [] {
      MarkEmptyWellFormed(dc1, table);
      assert FillTable(dc, table, whereCount, leaves).state == Put(dc1, table, Put(rules, CreateKey, Create));
    } else {
      assert FillTable(dc, table, whereCount, leaves).state == dc1;
    }
  }

  /** Giving a table without rules the create marker keeps the rule map
      well formed. */
  lemma MarkEmptyWellFormed(dc: DropConditions, table: string)
    requires WellFormed(dc) && table in dc.vals && dc.vals[table].keys == []
    ensures WellFormed(Put(dc, table, Put(dc.vals[table], CreateKey, Create)))
  {
    EmptyValid(dc.vals[table]);
    assert Put(dc.vals[table], CreateKey, Create) == MarkerOnly;
    assert WellFormedRules(MarkerOnly);
    PutTableWellFormed(dc, table, MarkerOnly);
  }

  /** Filling keeps the rule map well formed, whether or not it throws. */
  lemma {:induction false} FillWellFormed(dc: DropConditions, from: seq<string>, whereCount: nat, leaves: seq<Leaf>)
    requires WellFormed(dc)
    ensures WellFormed(Fill(dc, from, whereCount, leaves).state)
    decreases |from|
  {
    if from != [] {
      var prefix := from[..|from| - 1];
      FillWellFormed(dc, prefix, whereCount, leaves);
      if Fill(dc, prefix, whereCount, leaves).Normal? {
        FillTableWellFormed(Fill(dc, prefix, whereCount, leaves).state, from[|from| - 1], whereCount, leaves);
      }
    }
  }

  /** One step of the fill adds its table, as the last key when it is new,
      and keeps every other table's rules. */
  lemma FillTableFrame(dc: DropConditions, table: string, whereCount: nat, leaves: seq<Leaf>)
    ensures var r := FillTable(dc, table, whereCount, leaves).state;
            && table in r.vals
            && r.keys == EnsureTable(dc, table).keys
            && (forall t :: t in dc.vals ==> t in r.vals)
            && (forall t :: t != table ==> TableOf(r, t) == TableOf(dc, t))
  {
  }

  /** Without a WHERE clause a step cannot throw; it gives a table without
      rules the create marker and leaves any other table as it was. */
  lemma FillTableUnfiltered(dc: DropConditions, table: string, leaves: seq<Leaf>)
    ensures FillTable(dc, table, 0, leaves).Normal?
    ensures TableOf(FillTable(dc, table, 0, leaves).state, table)
            == if TableOf(dc, table).keys == [] then Put(TableOf(dc, table), CreateKey, Create) else TableOf(dc, table)
  {
  }

  /** After a fill that does not throw, every table of the FROM list and
      every table that had rules before is a key of the rule map. */
  lemma {:induction false} FillTablesPresent(dc: DropConditions, from: seq<string>, whereCount: nat, leaves: seq<Leaf>)
    requires Fill(dc, from, whereCount, leaves).Normal?
    ensures forall t :: t in from ==> t in Fill(dc, from, whereCount, leaves).state.vals
    ensures forall t :: t in dc.vals ==> t in Fill(dc, from, whereCount, leaves).state.vals
    decreases |from|
  {
    if from != [] {
      var prefix := from[..|from| - 1];
      var last := from[|from| - 1];
      FillTablesPresent(dc, prefix, whereCount, leaves);
      var s := Fill(dc, prefix, whereCount, leaves).state;
      assert Fill(dc, from, whereCount, leaves) == FillTable(s, last, whereCount, leaves);
      FillTableFrame(s, last, whereCount, leaves);
      assert forall t :: t in from ==> t in prefix || t == last;
    }
  }

  /** Leaves whose operators are all excluded add nothing. */
  lemma {:induction false} FillLeavesExcluded(rules: TableRules, table: string, leaves: seq<Leaf>)
    requires forall i :: 0 <= i < |leaves| ==> Excluded(leaves[i].operator)
    ensures FillLeaves(rules, table, leaves) == Normal(rules)
    decreases |leaves|
  {
    if leaves != [] {
      FillLeavesExcluded(rules, table, leaves[..|leaves| - 1]);
    }
  }

  /** A WHERE clause whose comparisons all use excluded operators leaves
      every table's rules as they were: tables that had no rules get an
      empty rule map and no create marker. */
  lemma {:induction false} FillAllExcluded(dc: DropConditions, from: seq<string>, whereCount: nat, leaves: seq<Leaf>)
    requires whereCount != 0
    requires forall i :: 0 <= i < |leaves| ==> Excluded(leaves[i].operator)
    ensures Fill(dc, from, whereCount, leaves).Normal?
    ensures forall t :: TableOf(Fill(dc, from, whereCount, leaves).state, t) == TableOf(dc, t)
    decreases |from|
  {
    if from != [] {
      var prefix := from[..|from| - 1];
      FillAllExcluded(dc, prefix, whereCount, leaves);
      var s := Fill(dc, prefix, whereCount, leaves).state;
      var table := from[|from| - 1];
      FillLeavesExcluded(EnsureTable(s, table).vals[table], table, leaves);
    }
  }

  /** Without a WHERE clause nothing can throw, and each FROM table that
      had no rules gains the create marker; the others keep their rules. */
  lemma {:induction false} FillUnfiltered(dc: DropConditions, from: seq<string>, leaves: seq<Leaf>)
    ensures Fill(dc, from, 0, leaves).Normal?
    ensures forall t :: t in from ==>
              TableOf(Fill(dc, from, 0, leaves).state, t)
              == if TableOf(dc, t).keys == [] then Put(TableOf(dc, t), CreateKey, Create) else TableOf(dc, t)
    ensures forall t :: t !in from ==> TableOf(Fill(dc, from, 0, leaves).state, t) == TableOf(dc, t)
    decreases |from|
  {
    if from != [] {
      var prefix := from[..|from| - 1];
      var last := from[|from| - 1];
      FillUnfiltered(dc, prefix, leaves);
      var s := Fill(dc, prefix, 0, leaves).state;
      var r := FillTable(s, last, 0, leaves).state;
      FillTableFrame(s, last, 0, leaves);
      FillTableUnfiltered(s, last, leaves);
      assert Fill(dc, from, 0, leaves) == FillTable(s, last, 0, leaves);
      assert from == prefix + [last];
      forall t | t in from
        ensures TableOf(r, t) == if TableOf(dc, t).keys == [] then Put(TableOf(dc, t), CreateKey, Create) else TableOf(dc, t)
      {
        if t != last {
          assert t in prefix;
        }
      }
    }
  }

  /** The WHERE leaves neither add nor remove the create marker. */
  lemma {:induction false} FillLeavesKeepsMarker(rules: TableRules, table: string, leaves: seq<Leaf>)
    ensures Marked(FillLeaves(rules, table, leaves).state) <==> Marked(rules)
    decreases |leaves|
  {
    if leaves != [] {
      FillLeavesKeepsMarker(rules, table, leaves[..|leaves| - 1]);
    }
  }

  /** With a WHERE clause the fill neither adds nor removes any table's
      create marker, so the marker comes only from a query without one. */
  lemma {:induction false} FilteredKeepsMarker(dc: DropConditions, from: seq<string>, whereCount: nat, leaves: seq<Leaf>, t: string)
    requires whereCount != 0
    ensures Marked(TableOf(Fill(dc, from, whereCount, leaves).state, t)) <==> Marked(TableOf(dc, t))
    decreases |from|
  {
    if from != [] {
      var prefix := from[..|from| - 1];
      var last := from[|from| - 1];
      FilteredKeepsMarker(dc, prefix, whereCount, leaves, t);
      var f := Fill(dc, prefix, whereCount, leaves);
      if f.Normal? {
        var s := f.state;
        FillTableFrame(s, last, whereCount, leaves);
        if t == last {
          FillLeavesKeepsMarker(EnsureTable(s, last).vals[last], last, leaves);
        }
      }
    }
  }

  /** Some leaf with a kept operator names the column `create` once the
      table's qualifier is removed. */
  ghost predicate ReachesCreate(leaves: seq<Leaf>, table: string) {
    exists i :: 0 <= i < |leaves| && !Excluded(leaves[i].operator) && LeafColumn(leaves[i], table) == CreateKey
  }

  lemma ReachesCreateSnoc(leaves: seq<Leaf>, table: string)
    requires leaves != []
    ensures var n := |leaves| - 1;
            ReachesCreate(leaves, table)
            <==> ReachesCreate(leaves[..n], table)
                 || (!Excluded(leaves[n].operator) && LeafColumn(leaves[n], table) == CreateKey)
  {
    var n := |leaves| - 1;
    var prefix := leaves[..n];
    if ReachesCreate(prefix, table) {
      var i :| 0 <= i < |prefix| && !Excluded(prefix[i].operator) && LeafColumn(prefix[i], table) == CreateKey;
      assert leaves[i] == prefix[i];
    }
    if ReachesCreate(leaves, table) {
      var i :| 0 <= i < |leaves| && !Excluded(leaves[i].operator) && LeafColumn(leaves[i], table) == CreateKey;
      if i < n {
        assert prefix[i] == leaves[i];
      }
    }
  }

  /** The leaves of one table throw exactly when the table already holds
      the create marker and a kept leaf appends to the column `create`. */
  lemma {:induction false} FillLeavesThrows(rules: TableRules, table: string, leaves: seq<Leaf>)
    requires WellFormedRules(rules)
    ensures FillLeaves(rules, table, leaves).Thrown? <==> Marked(rules) && ReachesCreate(leaves, table)
    decreases |leaves|
  {
    if leaves != [] {
      var prefix := leaves[..|leaves| - 1];
      FillLeavesThrows(rules, table, prefix);
      FillLeavesWellFormed(rules, table, prefix);
      FillLeavesKeepsMarker(rules, table, prefix);
      ReachesCreateSnoc(leaves, table);
    }
  }

  /** One filtered step throws exactly when its table is marked and a kept
      leaf reaches `create`. */
  lemma FillTableThrows(dc: DropConditions, table: string, whereCount: nat, leaves: seq<Leaf>)
    requires WellFormed(dc) && whereCount != 0
    ensures FillTable(dc, table, whereCount, leaves).Thrown? <==> Marked(TableOf(dc, table)) && ReachesCreate(leaves, table)
  {
    EnsureTableFrame(dc, table);
    FillLeavesThrows(EnsureTable(dc, table).vals[table], table, leaves);
  }

  /** Some FROM table is already marked and a kept leaf reaches `create`
      in it. */
  ghost predicate MarkedHit(dc: DropConditions, from: seq<string>, leaves: seq<Leaf>) {
    exists i :: 0 <= i < |from| && Marked(TableOf(dc, from[i])) && ReachesCreate(leaves, from[i])
  }

  lemma MarkedHitSnoc(dc: DropConditions, from: seq<string>, leaves: seq<Leaf>)
    requires from != []
    ensures var n := |from| - 1;
            MarkedHit(dc, from, leaves)
            <==> MarkedHit(dc, from[..n], leaves) || (Marked(TableOf(dc, from[n])) && ReachesCreate(leaves, from[n]))
  {
    var n := |from| - 1;
    var prefix := from[..n];
    if MarkedHit(dc, prefix, leaves) {
      var i :| 0 <= i < |prefix| && Marked(TableOf(dc, prefix[i])) && ReachesCreate(leaves, prefix[i]);
      assert from[i] == prefix[i];
    }
    if MarkedHit(dc, from, leaves) {
      var i :| 0 <= i < |from| && Marked(TableOf(dc, from[i])) && ReachesCreate(leaves, from[i]);
      if i < n {
        assert prefix[i] == from[i];
      }
    }
  }

  /** The fill throws exactly when some FROM table reached before it was
      already marked and a kept leaf reaches `create` in it; in particular
      a fill whose kept leaves never name `create` never throws. */
  lemma {:induction false} FillThrows(dc: DropConditions, from: seq<string>, whereCount: nat, leaves: seq<Leaf>)
    requires WellFormed(dc) && whereCount != 0
    ensures Fill(dc, from, whereCount, leaves).Thrown? <==> MarkedHit(dc, from, leaves)
    decreases |from|
  {
    if from != [] {
      var n := |from| - 1;
      var prefix := from[..n];
      var last := from[n];
      FillThrows(dc, prefix, whereCount, leaves);
      MarkedHitSnoc(dc, from, leaves);
      var f := Fill(dc, prefix, whereCount, leaves);
      if f.Normal? {
        FillWellFormed(dc, prefix, whereCount, leaves);
        FilteredKeepsMarker(dc, prefix, whereCount, leaves, last);
        FillTableThrows(f.state, last, whereCount, leaves);
        assert Fill(dc, from, whereCount, leaves) == FillTable(f.state, last, whereCount, leaves);
      } else {
        assert Fill(dc, from, whereCount, leaves) == f;
      }
    }
  }

  /** Each list of the rule map only grows, at its end. */
  ghost predicate Grows(rules: TableRules, rules': TableRules) {
    forall k :: BucketEntries(rules, k) <= BucketEntries(rules', k)
  }

  ghost predicate TablesGrow(dc: DropConditions, dc': DropConditions) {
    forall t :: Grows(TableOf(dc, t), TableOf(dc', t))
  }

  lemma AppendGrows(rules: TableRules, key: string, e: Entry)
    requires AppendEntry(rules, key, e).Some?
    ensures Grows(rules, AppendEntry(rules, key, e).value)
  {
  }

  lemma {:induction false} FillLeavesGrows(rules: TableRules, table: string, leaves: seq<Leaf>)
    ensures Grows(rules, FillLeaves(rules, table, leaves).state)
    decreases |leaves|
  {
    if leaves != [] {
      var prefix := leaves[..|leaves| - 1];
      FillLeavesGrows(rules, table, prefix);
      var o := FillLeaves(rules, table, prefix);
      if o.Normal? {
        var leaf := leaves[|leaves| - 1];
        var c := LeafColumn(leaf, table);
        if !Excluded(leaf.operator) && AppendEntry(o.state, c, Pair(c, leaf.value)).Some? {
          AppendGrows(o.state, c, Pair(c, leaf.value));
        }
      }
    }
  }

  lemma FillTableGrows(dc: DropConditions, table: string, whereCount: nat, leaves: seq<Leaf>)
    requires whereCount != 0
    ensures TablesGrow(dc, FillTable(dc, table, whereCount, leaves).state)
  {
    FillTableFrame(dc, table, whereCount, leaves);
    FillLeavesGrows(EnsureTable(dc, table).vals[table], table, leaves);
  }

  // ---------------------------------------------------------------------
  // Exactly which entries a fill appends
  // ---------------------------------------------------------------------

  /** The entries the WHERE comparisons give the key `c` of one table: a
      `[c, value]` for each comparison whose operator is kept and whose
      column, once the table's qualifier is removed, is `c`, in WHERE
      order. A comparison with an excluded operator gives none. */
  function KeptPairs(leaves: seq<Leaf>, table: string, c: string): seq<Entry>
    decreases |leaves|
  {
    if leaves == [] then []
    else
      var leaf := leaves[|leaves| - 1];
      KeptPairs(leaves[..|leaves| - 1], table, c)
        + if !Excluded(leaf.operator) && LeafColumn(leaf, table) == c then [Pair(c, leaf.value)] else []
  }

  /** `s` written `n` times in a row. */
  function Repeat<T>(s: seq<T>, n: nat): seq<T> {
    if n == 0 then [] else Repeat(s, n - 1) + s
  }

  /** How many times `t` occurs in the list. */
  function Occurrences(ts: seq<string>, t: string): nat
    decreases |ts|
  {
    if ts == [] then 0
    else Occurrences(ts[..|ts| - 1], t) + if ts[|ts| - 1] == t then 1 else 0
  }

  lemma RepeatStep<T>(before: seq<T>, s: seq<T>, n: nat)
    ensures (before + Repeat(s, n)) + s == before + Repeat(s, n + 1)
  {
  }

  /** The WHERE loop, when it does not throw, appends to each key exactly
      the entries `KeptPairs` gives it, after what the key held before. */
  lemma {:induction false} FillLeavesEntries(rules: TableRules, table: string, leaves: seq<Leaf>, c: string)
    requires FillLeaves(rules, table, leaves).Normal?
    ensures BucketEntries(FillLeaves(rules, table, leaves).state, c) == BucketEntries(rules, c) + KeptPairs(leaves, table, c)
    decreases |leaves|
  {
    if leaves != [] {
      var prefix := leaves[..|leaves| - 1];
      FillLeavesEntries(rules, table, prefix, c);
      var s := FillLeaves(rules, table, prefix).state;
      var leaf := leaves[|leaves| - 1];
      if !Excluded(leaf.operator) {
        var c' := LeafColumn(leaf, table);
        var e := Pair(c', leaf.value);
        assert FillLeaves(rules, table, leaves) == Normal(AppendEntry(s, c', e).value);
        if c' == c {
          assert BucketEntries(AppendEntry(s, c', e).value, c) == BucketEntries(s, c) + [e];
        } else {
          AppendFrame(s, c', e);
          assert BucketEntries(AppendEntry(s, c', e).value, c) == BucketEntries(s, c);
        }
      }
    }
  }

  /** A step with a WHERE clause that does not throw appends to each key
      of its table exactly the entries `KeptPairs` gives it. */
  lemma FillTableEntries(dc: DropConditions, table: string, whereCount: nat, leaves: seq<Leaf>, c: string)
    requires whereCount != 0 && FillTable(dc, table, whereCount, leaves).Normal?
    ensures BucketEntries(TableOf(FillTable(dc, table, whereCount, leaves).state, table), c)
            == BucketEntries(TableOf(dc, table), c) + KeptPairs(leaves, table, c)
  {
    FillLeavesEntries(EnsureTable(dc, table).vals[table], table, leaves, c);
  }

  /** A fill that does not throw is the last table's step on the state
      the earlier tables left, none of which threw. */
  lemma FillLast(dc: DropConditions, from: seq<string>, whereCount: nat, leaves: seq<Leaf>)
    requires from != [] && Fill(dc, from, whereCount, leaves).Normal?
    ensures Fill(dc, from[..|from| - 1], whereCount, leaves).Normal?
    ensures Fill(dc, from, whereCount, leaves)
            == FillTable(Fill(dc, from[..|from| - 1], whereCount, leaves).state, from[|from| - 1], whereCount, leaves)
  {
  }

  /** One step of the fill adds one more copy of `KeptPairs` to the lists
      of its own table, and leaves the other tables' lists as they were. */
  lemma FillTableEntriesStep(s: DropConditions, last: string, whereCount: nat, leaves: seq<Leaf>,
                             t: string, c: string, before: seq<Entry>, n: nat)
    requires whereCount != 0 && FillTable(s, last, whereCount, leaves).Normal?
    requires BucketEntries(TableOf(s, t), c) == before + Repeat(KeptPairs(leaves, t, c), n)
    ensures BucketEntries(TableOf(FillTable(s, last, whereCount, leaves).state, t), c)
            == before + Repeat(KeptPairs(leaves, t, c), n + if last == t then 1 else 0)
  {
    if t == last {
      FillTableEntries(s, last, whereCount, leaves, c);
      RepeatStep(before, KeptPairs(leaves, t, c), n);
    } else {
      FillTableFrame(s, last, whereCount, leaves);
    }
  }

  /** A fill with a WHERE clause that does not throw appends to each key
      of each table exactly the entries `KeptPairs` gives it, once for
      each time the table occurs in the FROM list, and nothing else: a
      table outside the list keeps its lists. */
  lemma {:induction false} FillEntries(dc: DropConditions, from: seq<string>, whereCount: nat, leaves: seq<Leaf>, t: string, c: string)
    requires whereCount != 0 && Fill(dc, from, whereCount, leaves).Normal?
    ensures BucketEntries(TableOf(Fill(dc, from, whereCount, leaves).state, t), c)
            == BucketEntries(TableOf(dc, t), c) + Repeat(KeptPairs(leaves, t, c), Occurrences(from, t))
    decreases |from|
  {
    if from != [] {
      var prefix := from[..|from| - 1];
      var last := from[|from| - 1];
      FillLast(dc, from, whereCount, leaves);
      var s := Fill(dc, prefix, whereCount, leaves).state;
      FillEntries(dc, prefix, whereCount, leaves, t, c);
      FillTableEntriesStep(s, last, whereCount, leaves, t, c, BucketEntries(TableOf(dc, t), c), Occurrences(prefix, t));
    }
  }

  /** Each kept leaf gives its own column a `[column, value]` entry. */
  lemma {:induction false} KeptPairsHas(leaves: seq<Leaf>, table: string, k: nat)
    requires k < |leaves| && !Excluded(leaves[k].operator)
    ensures var c := LeafColumn(leaves[k], table);
            Pair(c, leaves[k].value) in KeptPairs(leaves, table, c)
    decreases |leaves|
  {
    var prefix := leaves[..|leaves| - 1];
    if k < |leaves| - 1 {
      assert prefix[k] == leaves[k];
      KeptPairsHas(prefix, table, k);
    }
  }

  lemma {:induction false} OccurrencesPositive(ts: seq<string>, t: string)
    requires t in ts
    ensures Occurrences(ts, t) >= 1
    decreases |ts|
  {
    var prefix := ts[..|ts| - 1];
    if ts[|ts| - 1] != t {
      assert ts == prefix + [ts[|ts| - 1]];
      OccurrencesPositive(prefix, t);
    }
  }

  lemma InRepeat<T>(x: T, before: seq<T>, s: seq<T>, n: nat)
    requires n >= 1 && x in s
    ensures x in before + Repeat(s, n)
  {
    assert Repeat(s, n) == Repeat(s, n - 1) + s;
  }

  /** Each kept leaf is recorded, for its table, as `[column, value]` under
      its column, once its table qualifier is removed. */
  lemma FillLeavesRecords(rules: TableRules, table: string, leaves: seq<Leaf>, k: nat)
    requires FillLeaves(rules, table, leaves).Normal?
    requires k < |leaves| && !Excluded(leaves[k].operator)
    ensures var c := LeafColumn(leaves[k], table);
            Pair(c, leaves[k].value) in BucketEntries(FillLeaves(rules, table, leaves).state, c)
  {
    FillLeavesEntries(rules, table, leaves, LeafColumn(leaves[k], table));
    KeptPairsHas(leaves, table, k);
  }

  /** A step that does not throw records each kept leaf under its table. */
  lemma FillTableRecords(dc: DropConditions, table: string, whereCount: nat, leaves: seq<Leaf>, k: nat)
    requires whereCount != 0 && FillTable(dc, table, whereCount, leaves).Normal?
    requires k < |leaves| && !Excluded(leaves[k].operator)
    ensures var c := LeafColumn(leaves[k], table);
            Pair(c, leaves[k].value) in BucketEntries(TableOf(FillTable(dc, table, whereCount, leaves).state, table), c)
  {
    FillTableEntries(dc, table, whereCount, leaves, LeafColumn(leaves[k], table));
    KeptPairsHas(leaves, table, k);
  }

  /** After a fill that does not throw, every kept leaf is recorded under
      every FROM table, with that table's qualifier removed. */
  lemma FillRecordsLeaf(dc: DropConditions, from: seq<string>, whereCount: nat, leaves: seq<Leaf>, table: string, k: nat)
    requires whereCount != 0
    requires Fill(dc, from, whereCount, leaves).Normal?
    requires table in from
    requires k < |leaves| && !Excluded(leaves[k].operator)
    ensures var c := LeafColumn(leaves[k], table);
            Pair(c, leaves[k].value) in BucketEntries(TableOf(Fill(dc, from, whereCount, leaves).state, table), c)
  {
    var c := LeafColumn(leaves[k], table);
    FillEntries(dc, from, whereCount, leaves, table, c);
    KeptPairsHas(leaves, table, k);
    OccurrencesPositive(from, table);
    InRepeat(Pair(c, leaves[k].value), BucketEntries(TableOf(dc, table), c), KeptPairs(leaves, table, c), Occurrences(from, table));
  }
}
