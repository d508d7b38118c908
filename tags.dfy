/** The invalidation tags sent to the store with a cached entry: for each
    table, a list of groups, each group a list of `[column, value]` tags.
    The functions here state what `getDropConditions` builds from the rule
    map; the loops that build it are in module QueryCache. */
module Tags {
  import opened Php
  import opened OrderedMaps
  import opened DropRules

  /** `[column, value]`. */
  type Tag = (string, Scalar)

  /** The tags that must all hold of one written row for the group to fire. */
  type Group = seq<Tag>

  /** `[table, groups]`. */
  type TableTags = (string, seq<Group>)

  /** The value of the tag an update rule without conditions records: it
      stands for any value of its column. */
  const Wildcard: Scalar := Str("*")

  /** The value `x` is the value of `v`, or one of its alternatives. */
  predicate Allows(v: Val, x: Scalar) {
    match v
    case Single(y) => x == y
    case Many(ys) => x in ys
  }

  /** One tag per element of a list, in list order. */
  function ListTags(c: string, xs: seq<Scalar>): (r: Group)
    ensures |r| == |xs| && forall i :: 0 <= i < |xs| ==> r[i] == (c, xs[i])
    decreases |xs|
  {
    if xs == [] then [] else ListTags(c, xs[..|xs| - 1]) + [(c, xs[|xs| - 1])]
  }

  /** One single-tag group per element of a list, in list order. */
  function SingleTagGroups(c: string, xs: seq<Scalar>): (r: seq<Group>)
    ensures |r| == |xs| && forall i :: 0 <= i < |xs| ==> r[i] == [(c, xs[i])]
    decreases |xs|
  {
    if xs == [] then [] else SingleTagGroups(c, xs[..|xs| - 1]) + [[(c, xs[|xs| - 1])]]
  }

  /** The tags of one dependency `dep => value`. */
  function DepTags(dep: string, v: Val): Group {
    match v
    case Single(x) => [(dep, x)]
    case Many(xs) => ListTags(dep, xs)
  }

  /** The one group a `['conditions' => deps]` entry becomes: the tags of
      all its dependencies, in order. */
  function ConditionTags(deps: seq<(string, Val)>): Group
    decreases |deps|
  {
    if deps == [] then []
    else ConditionTags(deps[..|deps| - 1]) + DepTags(deps[|deps| - 1].0, deps[|deps| - 1].1)
  }

  /** A dependency's tags name it with one of its values, and each of its
      values gives a tag. */
  lemma DepTagsExact(dep: string, v: Val)
    ensures forall t :: t in DepTags(dep, v) ==> t.0 == dep && Allows(v, t.1)
    ensures forall x :: Allows(v, x) ==> (dep, x) in DepTags(dep, v)
  {
    forall x | Allows(v, x) ensures (dep, x) in DepTags(dep, v) {
      if v.Many? {
        var i :| 0 <= i < |v.vs| && v.vs[i] == x;
        assert DepTags(dep, v)[i] == (dep, x);
      }
    }
  }

  /** One more dependency appends its tags to the group. */
  lemma ConditionTagsStep(deps: seq<(string, Val)>, k: nat)
    requires k < |deps|
    ensures ConditionTags(deps[..k + 1]) == ConditionTags(deps[..k]) + DepTags(deps[k].0, deps[k].1)
  {
    assert deps[..k + 1][..k] == deps[..k];
  }

  /** Every tag of a conditions group names a dependency and one of its
      values. */
  lemma {:induction false} ConditionTagsSound(deps: seq<(string, Val)>, t: Tag)
    requires t in ConditionTags(deps)
    ensures exists k :: 0 <= k < |deps| && deps[k].0 == t.0 && Allows(deps[k].1, t.1)
    decreases |deps|
  {
    var n := |deps| - 1;
    var prefix := deps[..n];
    if t in ConditionTags(prefix) {
      ConditionTagsSound(prefix, t);
      var k :| 0 <= k < |prefix| && prefix[k].0 == t.0 && Allows(prefix[k].1, t.1);
      assert deps[k] == prefix[k];
    } else {
      DepTagsExact(deps[n].0, deps[n].1);
    }
  }

  /** Every value, and every alternative, of every dependency is a tag of
      the group. */
  lemma {:induction false} ConditionTagsComplete(deps: seq<(string, Val)>, k: nat, x: Scalar)
    requires k < |deps| && Allows(deps[k].1, x)
    ensures (deps[k].0, x) in ConditionTags(deps)
    decreases |deps|
  {
    var n := |deps| - 1;
    if k < n {
      assert deps[..n][k] == deps[k];
      ConditionTagsComplete(deps[..n], k, x);
    } else {
      DepTagsExact(deps[n].0, deps[n].1);
    }
  }

  /** The tag `t` is justified, under the key `column`, by the entry `e`:
      its column and value are ones the entry names. */
  predicate Justifies(column: string, e: Entry, t: Tag) {
    match e
    case Star => t == (column, Wildcard)
    case Pair(c, v) => t.0 == c && Allows(v, t.1)
    case Conds(deps) => exists k :: 0 <= k < |deps| && deps[k].0 == t.0 && Allows(deps[k].1, t.1)
  }

  /** The groups one list entry under key `column` becomes. */
  function ExpandEntry(column: string, e: Entry): seq<Group> {
    match e
    case Star => [[(column, Wildcard)]]
    case Pair(c, Single(x)) => [[(c, x)]]
    case Pair(c, Many(xs)) => SingleTagGroups(c, xs)
    case Conds(deps) => [ConditionTags(deps)]
  }

  /** Every tag of every group of an entry is justified by that entry. */
  lemma ExpandEntryJustified(column: string, e: Entry, g: Group, t: Tag)
    requires g in ExpandEntry(column, e) && t in g
    ensures Justifies(column, e, t)
  {
    if e.Conds? {
      ConditionTagsSound(e.deps, t);
    }
  }

  /** The groups of a list, entry after entry. */
  function ExpandEntries(column: string, es: seq<Entry>): seq<Group>
    decreases |es|
  {
    if es == [] then [] else ExpandEntries(column, es[..|es| - 1]) + ExpandEntry(column, es[|es| - 1])
  }

  /** The groups of one key of a table: the marker `true` under "create"
      is one empty group. */
  function ExpandBucket(column: string, b: Bucket): seq<Group> {
    match b
    case Create => if column == CreateKey then [[]] else []
    case Entries(es) => ExpandEntries(column, es)
  }

  /** The groups of one key of a table, none when it has no value. */
  function ExpandKey(rules: TableRules, key: string): seq<Group> {
    if key in rules.vals then ExpandBucket(key, rules.vals[key]) else []
  }

  /** The groups of the keys `ks` of a table, key after key. */
  function ExpandKeys(rules: TableRules, ks: seq<string>): seq<Group>
    decreases |ks|
  {
    if ks == [] then []
    else ExpandKeys(rules, ks[..|ks| - 1]) + ExpandKey(rules, ks[|ks| - 1])
  }

  /** The groups of a table, key after key in insertion order. */
  function ExpandTable(rules: TableRules): seq<Group> {
    ExpandKeys(rules, rules.keys)
  }

  /** `[table, groups]` for each of the tables `ts`, in that order. */
  function MaterialiseTables(dc: DropConditions, ts: seq<string>): (r: seq<TableTags>)
    ensures |r| == |ts|
    ensures forall i :: 0 <= i < |ts| ==> r[i] == (ts[i], ExpandTable(TableOf(dc, ts[i])))
    decreases |ts|
  {
    if ts == [] then []
    else MaterialiseTables(dc, ts[..|ts| - 1]) + [(ts[|ts| - 1], ExpandTable(TableOf(dc, ts[|ts| - 1])))]
  }

  /** What `getDropConditions` returns for a filled rule map: one
      `[table, groups]` per table, in insertion order. */
  function Materialise(dc: DropConditions): (r: seq<TableTags>)
    ensures |r| == |dc.keys|
    ensures forall i :: 0 <= i < |dc.keys| ==> r[i] == (dc.keys[i], ExpandTable(TableOf(dc, dc.keys[i])))
  {
    MaterialiseTables(dc, dc.keys)
  }

  // ---------------------------------------------------------------------
  // What a tag set means for a write
  // ---------------------------------------------------------------------

  /** The column values a write sets on a row of one table. */
  type WriteRow = map<string, Scalar>

  /** The row sets the tag's column: to the tag's value, or to any value
      when the tag's value is `'*'`. */
  predicate Holds(t: Tag, row: WriteRow) {
    t.0 in row && (t.1 == Wildcard || row[t.0] == t.1)
  }

  /** Every tag of the group holds of the row. */
  predicate Matches(g: Group, row: WriteRow) {
    forall i :: 0 <= i < |g| ==> Holds(g[i], row)
  }

  /** Some group of the table fires: the entry is dropped by this write. */
  predicate Fires(groups: seq<Group>, row: WriteRow) {
    exists g :: g in groups && Matches(g, row)
  }

  /** The row sets `column` to the value of `v` or one of its alternatives. */
  predicate Satisfies(row: WriteRow, column: string, v: Val) {
    column in row && Allows(v, row[column])
  }

  lemma {:induction false} EntriesContain(column: string, es: seq<Entry>, j: nat, g: Group)
    requires j < |es| && g in ExpandEntry(column, es[j])
    ensures g in ExpandEntries(column, es)
    decreases |es|
  {
    if j < |es| - 1 {
      assert es[..|es| - 1][j] == es[j];
      EntriesContain(column, es[..|es| - 1], j, g);
    }
  }

  lemma {:induction false} KeysContain(rules: TableRules, ks: seq<string>, i: nat, g: Group)
    requires i < |ks| && g in ExpandKey(rules, ks[i])
    ensures g in ExpandKeys(rules, ks)
    decreases |ks|
  {
    if i < |ks| - 1 {
      assert ks[..|ks| - 1][i] == ks[i];
      KeysContain(rules, ks[..|ks| - 1], i, g);
    }
  }

  /** Every group of an entry recorded under a key is a group of its table. */
  lemma EntryGroupInTable(rules: TableRules, column: string, e: Entry, g: Group)
    requires Valid(rules)
    requires e in BucketEntries(rules, column)
    requires g in ExpandEntry(column, e)
    ensures g in ExpandTable(rules)
  {
    var i := KeyPosition(rules, column);
    var es := rules.vals[column].es;
    var j :| 0 <= j < |es| && es[j] == e;
    EntriesContain(column, es, j, g);
    KeysContain(rules, rules.keys, i, g);
  }

  /** The tag `t` is justified by some entry recorded under some key of
      the table. */
  predicate Recorded(rules: TableRules, t: Tag) {
    exists k, j :: k in rules.vals && rules.vals[k].Entries? && 0 <= j < |rules.vals[k].es|
                   && Justifies(k, rules.vals[k].es[j], t)
  }

  lemma {:induction false} KeysTagsJustified(rules: TableRules, ks: seq<string>, g: Group, t: Tag)
    requires g in ExpandKeys(rules, ks) && t in g
    ensures Recorded(rules, t)
    decreases |ks|
  {
    var prefix := ks[..|ks| - 1];
    var last := ks[|ks| - 1];
    if g in ExpandKeys(rules, prefix) {
      KeysTagsJustified(rules, prefix, g, t);
    } else {
      assert g in ExpandBucket(last, rules.vals[last]);
      EntryTagJustified(last, rules.vals[last].es, g, t);
    }
  }

  /** Every tag a table's groups carry is justified by an entry recorded
      under the tag's key: no tag is invented. */
  lemma TableTagsJustified(rules: TableRules, g: Group, t: Tag)
    requires g in ExpandTable(rules) && t in g
    ensures Recorded(rules, t)
  {
    KeysTagsJustified(rules, rules.keys, g, t);
  }

  lemma {:induction false} EntryTagJustified(column: string, es: seq<Entry>, g: Group, t: Tag)
    requires g in ExpandEntries(column, es) && t in g
    ensures exists j :: 0 <= j < |es| && Justifies(column, es[j], t)
    decreases |es|
  {
    var prefix := es[..|es| - 1];
    if g in ExpandEntries(column, prefix) {
      EntryTagJustified(column, prefix, g, t);
      var j :| 0 <= j < |prefix| && Justifies(column, prefix[j], t);
      assert prefix[j] == es[j];
    } else {
      ExpandEntryJustified(column, es[|es| - 1], g, t);
    }
  }

  /** A write that sets a kept WHERE column to the compared value (or to
      one of the IN alternatives) fires a group of every FROM table. */
  lemma FillCoversLeaf(dc: DropConditions, from: seq<string>, whereCount: nat, leaves: seq<Leaf>,
                       table: string, k: nat, row: WriteRow)
    requires WellFormed(dc) && whereCount != 0
    requires Fill(dc, from, whereCount, leaves).Normal?
    requires table in from
    requires k < |leaves| && !Excluded(leaves[k].operator)
    requires Satisfies(row, LeafColumn(leaves[k], table), leaves[k].value)
    ensures Fires(ExpandTable(TableOf(Fill(dc, from, whereCount, leaves).state, table)), row)
  {
    var s := Fill(dc, from, whereCount, leaves).state;
    FillWellFormed(dc, from, whereCount, leaves);
    assert WellFormedRules(TableOf(s, table));
    FillRecordsLeaf(dc, from, whereCount, leaves, table, k);
    RecordedPairFires(TableOf(s, table), LeafColumn(leaves[k], table), leaves[k].value, row);
  }

  /** A recorded `[column, value]` entry gives its table a group that a
      write setting the column to the value, or to one of its
      alternatives, fires. */
  lemma RecordedPairFires(rules: TableRules, c: string, v: Val, row: WriteRow)
    requires Valid(rules) && Pair(c, v) in BucketEntries(rules, c)
    requires Satisfies(row, c, v)
    ensures Fires(ExpandTable(rules), row)
  {
    var g: Group;
    match v {
      case Single(x) =>
        g := [(c, x)];
      case Many(xs) =>
        var j :| 0 <= j < |xs| && xs[j] == row[c];
        g := SingleTagGroups(c, xs)[j];
    }
    assert g in ExpandEntry(c, Pair(c, v)) && Matches(g, row);
    EntryGroupInTable(rules, c, Pair(c, v), g);
  }

  /** A query without WHERE on a table that had no rules leaves that table
      with the single empty group, which every write to it fires. */
  lemma UnfilteredFiresOnEveryWrite(dc: DropConditions, from: seq<string>, leaves: seq<Leaf>, table: string, row: WriteRow)
    requires WellFormed(dc) && table in from && TableOf(dc, table).keys == []
    ensures Fill(dc, from, 0, leaves).Normal?
    ensures ExpandTable(TableOf(Fill(dc, from, 0, leaves).state, table)) == [[]]
    ensures Fires(ExpandTable(TableOf(Fill(dc, from, 0, leaves).state, table)), row)
  {
    FillUnfiltered(dc, from, leaves);
    var rules := TableOf(dc, table);
    if table in dc.vals {
      EmptyValid(rules);
    }
    assert Put(rules, CreateKey, Create) == MarkerOnly;
    MarkerOnlyExpands();
    assert Matches([], row);
  }

  /** The rules `['create' => true]` are the single empty group. */
  lemma MarkerOnlyExpands()
    ensures ExpandTable(MarkerOnly) == [[]]
  {
    assert MarkerOnly.keys[..0] == [];
    assert ExpandKey(MarkerOnly, CreateKey) == [[]];
    assert ExpandKeys(MarkerOnly, MarkerOnly.keys) == ExpandKeys(MarkerOnly, []) + ExpandKey(MarkerOnly, CreateKey);
  }

  /** A WHERE clause whose comparisons all use excluded operators gives a
      table that had no rules no group at all: no write fires it. */
  lemma ExcludedOnlyNeverFires(dc: DropConditions, from: seq<string>, whereCount: nat, leaves: seq<Leaf>, table: string, row: WriteRow)
    requires whereCount != 0
    requires forall i :: 0 <= i < |leaves| ==> Excluded(leaves[i].operator)
    requires TableOf(dc, table).keys == []
    ensures Fill(dc, from, whereCount, leaves).Normal?
    ensures ExpandTable(TableOf(Fill(dc, from, whereCount, leaves).state, table)) == []
    ensures !Fires(ExpandTable(TableOf(Fill(dc, from, whereCount, leaves).state, table)), row)
  {
    FillAllExcluded(dc, from, whereCount, leaves);
  }

  /** The one group of a conditions entry fires only on a row that sets
      every dependency to every one of its alternatives; a dependency with
      two different alternatives therefore never fires. */
  lemma ConditionsGroupNeedsAll(column: string, deps: seq<(string, Val)>, row: WriteRow)
    ensures |ExpandEntry(column, Conds(deps))| == 1
    ensures Matches(ExpandEntry(column, Conds(deps))[0], row) <==>
            forall k, x :: 0 <= k < |deps| && Allows(deps[k].1, x) ==> Holds((deps[k].0, x), row)
  {
    var g := ConditionTags(deps);
    if Matches(g, row) {
      forall k, x | 0 <= k < |deps| && Allows(deps[k].1, x) ensures Holds((deps[k].0, x), row) {
        ConditionTagsComplete(deps, k, x);
        var i :| 0 <= i < |g| && g[i] == (deps[k].0, x);
      }
    }
    if forall k, x :: 0 <= k < |deps| && Allows(deps[k].1, x) ==> Holds((deps[k].0, x), row) {
      forall i | 0 <= i < |g| ensures Holds(g[i], row) {
        ConditionTagsSound(deps, g[i]);
      }
    }
  }

  /** Two different alternatives of one dependency, neither of them
      `'*'`, cannot both hold of a row. */
  lemma AlternativesNeverFire(column: string, deps: seq<(string, Val)>, k: nat, x: Scalar, y: Scalar, row: WriteRow)
    requires k < |deps| && Allows(deps[k].1, x) && Allows(deps[k].1, y) && x != y
    requires x != Wildcard && y != Wildcard
    ensures !Fires(ExpandEntry(column, Conds(deps)), row)
  {
    ConditionsGroupNeedsAll(column, deps, row);
  }

  /** An update rule without conditions becomes the one group
      `[[column, '*']]`, which fires exactly on a write that sets the
      column, whatever the value. */
  lemma StarFiresOnColumn(column: string, row: WriteRow)
    ensures ExpandEntry(column, Star) == [[(column, Wildcard)]]
    ensures Fires(ExpandEntry(column, Star), row) <==> column in row
  {
    if column in row {
      assert Matches([(column, Wildcard)], row);
    }
    if Fires(ExpandEntry(column, Star), row) {
      var g :| g in ExpandEntry(column, Star) && Matches(g, row);
      assert Holds(g[0], row);
    }
  }

  /** After `dropCacheOnUpdate($param)` without conditions, any write to
      the model's table that sets the param's column fires a group of that
      table. */
  lemma UpdateWithoutConditionsFires(dc: DropConditions, table: string, param: string, row: WriteRow)
    requires WellFormed(dc) && OnUpdate(dc, table, param, []).Normal? && param in row
    ensures Fires(ExpandTable(TableOf(OnUpdate(dc, table, param, []).state, table)), row)
  {
    var s := OnUpdate(dc, table, param, []).state;
    OnUpdateAppends(dc, table, param, []);
    OnUpdateWellFormed(dc, table, param, []);
    var rules := s.vals[table];
    assert Star in BucketEntries(rules, param);
    var g := [(param, Wildcard)];
    assert Matches(g, row);
    EntryGroupInTable(rules, param, Star, g);
  }
}
