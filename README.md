# CacheActiveQuery, modelled in Dafny

`CacheActiveQuery` is the query class of a Yii2 ActiveRecord cache. It looks
up the results of `all()` and `one()` in a key-value store. On a miss it asks
the database and stores a non-empty answer. Each stored answer carries
invalidation tags: for every table the query reads, a list of groups of
`[column, value]` tags. A later write to that table drops the entry when all
tags of one of the groups match the written row. The matching is done on the
invalidation side, by a script outside this class, so the model assumes
this meaning for it: a tag holds when the write sets its column to its value. The value
`'*'` stands for any value of the column, and an empty group holds of every
write (`Tags.Holds`).

The object collects these tags in its `dropConditions` field. That field is
an insertion-ordered map from table name to a map from column name, or the
key `create`, to a list of rule entries. Four methods change it:

- `dropCacheOnCreate` and `dropCacheOnUpdate`, called by the user;
- `fillDropConditions`, which adds one entry per comparison of the parsed
  WHERE clause;
- `generateCacheKey`, as a side effect.

`getDropConditions` turns the map into the tag list.

The project has these modules:

- `Php`: the parts of the PHP runtime that the class relies on. These are
  string truthiness, ASCII `strtolower`, `str_ireplace` with an empty
  replacement, integer-to-string conversion, and the key cast of
  `$array[$v]`.
- `OrderedMaps`: PHP arrays used as dictionaries. An array is its keys in
  insertion order together with the value under each key. `$a[$k] = $v`
  keeps the position of an existing key and appends a new key at the end.
  A valid array lists each key once, and lists exactly the keys that have
  a value. Every array PHP builds is valid, and the lemmas that depend on
  validity say so in their `requires`.
- `DropRules`: what each mutating operation does to the rule map. Each
  operation is a function. A PHP `Error` thrown part-way is an
  `Outcome.Thrown` that carries the state reached before the throw.
- `Tags`: what `getDropConditions` returns, and what a tag set means for a
  write.
- `CacheKeys`: the key `generateCacheKey` returns.
- `HitPath`: what `one()` and `all()` make of a stored value, and what they
  store on a miss.
- `QueryCache`: the class `CacheActiveQuery`, whose methods change its
  fields in place. Its methods are proved equal to the functions above.
  The loops of `getDropConditions` and of the hit branch of `all()` are
  methods proved against the functions that specify them.

The model follows the code where a plain reading of the class suggests
otherwise:

- A WHERE clause whose comparisons all use excluded operators (`NOT IN`,
  `!=`, `>`, `<`, `>=`, `<=`) adds nothing. It does not fall back to the
  `create` marker. A table that had no rules then gets no group, so no write
  drops the entry (`Tags.ExcludedOnlyNeverFires`).
- `one()` decodes the stored string `'null'` as a cached "no row". It never
  writes that string itself: a miss that finds no row stores nothing
  (`HitPath.OneRoundTrip`).
- A `['conditions' => ...]` entry puts every value of a list-valued
  dependency into its one group, which is a conjunction. With two different
  values, no row can match the group (`Tags.AlternativesNeverFire`).
- Appending to a column whose value is the marker `true` throws an `Error`
  from PHP 8.0 on. That happens when a WHERE column, a `dropCacheOnCreate`
  parameter or a `dropCacheOnUpdate` parameter is named `create` after the
  marker was set. The model records the throw rather than assuming it cannot
  happen.

The model follows PHP 8.0 and later for that throw, and PHP 8.2 and later
for case folding: `strtolower` and `str_ireplace` fold ASCII letters only.
Earlier releases behave differently, as listed under "Left out".

## Model

| member | source | states |
|---|---|---|
| Php.LowerStr | CacheActiveQuery.php:195 | `strtolower` folds letter for letter, so the text keeps its length |
| Php.LowerStrFolds | CacheActiveQuery.php:195 | no ASCII upper-case letter is left, and folding an already folded class name changes nothing |
| Php.RemoveAllCI | CacheActiveQuery.php:351 | `str_ireplace(needle, '', s)` never lengthens the text; its effect is stated by `Php.RemoveAbsent` and `Php.RemoveLeadingQualifier` |
| Php.KeyOf | CacheActiveQuery.php:73 | PHP's key cast: `null` becomes `''`, a canonical integer string becomes that integer, every other value is kept; `Php.IntegerStringKey` states the consequence |
| Php.Truthy | CacheActiveQuery.php:226 | PHP's truthiness of a string: only `""` and `"0"` are false, so `dropCacheOnCreate('0')` sets the marker; the same test at :101 makes a stored `"0"` a miss |
| Php.RemoveAbsent | CacheActiveQuery.php:351 | a column in which `{{table}}.` does not occur, in any letter case, is kept unchanged |
| Php.RemoveLeadingQualifier | CacheActiveQuery.php:351 | a column written as `{{table}}.` in any letter case followed by a bare name becomes exactly that name |
| Php.Decimal | CacheActiveQuery.php:200-205 | PHP's int-to-string conversion of a positive limit or offset: at least one digit, digits only, no leading zero; `Php.ParseDecimal` states that it reads back |
| Php.ParseDecimal | CacheActiveQuery.php:200-205 | the decimal text PHP writes for a limit or offset reads back as that number |
| Php.DecimalInjective | CacheActiveQuery.php:200-205 | different numbers are written as different texts |
| Php.IntegerStringKey | CacheActiveQuery.php:71-73 | an int attribute and its decimal string index the same slot of the rebuilt array |
| OrderedMaps.Put | CacheActiveQuery.php:352 | `$a[$k] = $v`: afterwards `k` holds `v` |
| OrderedMaps.PutFrame | CacheActiveQuery.php:352 | every other key keeps its value; an existing key keeps its position and a new key comes last |
| OrderedMaps.PutValid | CacheActiveQuery.php:352 | assigning to a key keeps an array valid: no key twice, and exactly the keys with a value are listed |
| DropRules.EnsureTable | CacheActiveQuery.php:223-225 | afterwards the table is a key with the rules it had (none if it was new); a new table is added last |
| DropRules.EnsureTableFrame | CacheActiveQuery.php:223-225 | other tables are unchanged, and the rule map stays well formed |
| DropRules.AppendEntry | CacheActiveQuery.php:227-230 | fails (PHP throws) exactly when the key holds the marker `true`; otherwise the key's list is the old list with the entry appended (a missing key gets a one-element list) |
| DropRules.AppendFrame | CacheActiveQuery.php:227-230 | an append that does not throw changes no other key, adds a new key last, and keeps the table's rules well formed |
| DropRules.PutTableWellFormed | CacheActiveQuery.php:226-233 | storing well-formed rules under a table keeps the rule map well formed |
| DropRules.OnCreate | CacheActiveQuery.php:216-237 | `dropCacheOnCreate` as a function of the rule map: the model's table is a key afterwards, and PHP throws only with a truthy param, leaving just the table key added |
| DropRules.OnCreateFrame | CacheActiveQuery.php:216-237 | the model's table is a key afterwards, added last if it was new, and no other table changes, whether or not PHP throws |
| DropRules.OnCreateParam | CacheActiveQuery.php:226-230 | with a truthy param: throws exactly when the param's key holds the marker, leaving the table as it was; otherwise `[param, value]` is appended to the end of the param's list, no other key of the table changes, and a new param key comes last in the table |
| DropRules.OnCreateMarker | CacheActiveQuery.php:231-233 | without a truthy param: cannot throw; the table's `create` key holds `true`, no other key of the table changes, and a new `create` key comes last in the table |
| DropRules.UpdateEntry | CacheActiveQuery.php:258-261 | the entry is `'*'` exactly when no conditions are given, otherwise `['conditions' => conditions]` |
| DropRules.OnUpdate | CacheActiveQuery.php:245-265 | `dropCacheOnUpdate` as a function of the rule map: the model's table is a key afterwards, and a throw leaves just the table key added |
| DropRules.OnUpdateEffect | CacheActiveQuery.php:245-265 | throws exactly when the param's key holds the marker, leaving the rules as they were; otherwise appends that entry to the end of the param's list, and a new param key comes last in the table; no other table or key changes |
| DropRules.OnCreateWellFormed | CacheActiveQuery.php:216-237 | the rule map keeps unique keys, and the marker stays only under `create` |
| DropRules.OnUpdateWellFormed | CacheActiveQuery.php:245-265 | the rule map keeps unique keys, and the marker stays only under `create` |
| DropRules.MarkUnfiltered | CacheActiveQuery.php:196-198 | with an empty WHERE and an empty (valid) rule map, the map becomes exactly `{table: {create: true}}`; with a WHERE or with rules, it is unchanged |
| DropRules.FillLeaves | CacheActiveQuery.php:335-354 | the WHERE loop for one table, stopping at the first throw; its effect is stated by `DropRules.FillLeavesEntries` |
| DropRules.FillTable | CacheActiveQuery.php:330-357 | one iteration over the FROM tables: the table is a key afterwards, and without a WHERE clause the step cannot throw |
| DropRules.Fill | CacheActiveQuery.php:328-361 | the loop over the FROM tables, ending at the first throw; without a WHERE clause it cannot throw |
| DropRules.FillWellFormed | CacheActiveQuery.php:328-361 | filling keeps the rule map well formed, whether or not it throws |
| DropRules.FillTableFrame | CacheActiveQuery.php:330-357 | one iteration adds its table, last if it was new, keeps every table that was present, and leaves every other table's rules as they were |
| DropRules.FillTablesPresent | CacheActiveQuery.php:330-333 | after a fill that does not throw, every FROM table, and every table that had rules, is a key |
| DropRules.FillLeavesExcluded | CacheActiveQuery.php:336-350 | a WHERE whose comparisons all use excluded operators leaves the table's rules unchanged and cannot throw; a mixed WHERE is covered by `DropRules.FillLeavesEntries` through `KeptPairs` |
| DropRules.FillAllExcluded | CacheActiveQuery.php:334-357 | with a WHERE clause whose operators are all excluded, no table's rules change, and no `create` marker is added |
| DropRules.FillTableUnfiltered | CacheActiveQuery.php:355-357 | without a WHERE clause, one iteration cannot throw; a table without rules gets exactly the marker; a table with rules keeps them |
| DropRules.FillUnfiltered | CacheActiveQuery.php:355-357 | without a WHERE clause, the fill gives each FROM table that had no rules exactly the marker, and changes nothing else |
| DropRules.FillLeavesKeepsMarker | CacheActiveQuery.php:336-354 | the WHERE comparisons neither add nor remove the marker |
| DropRules.FilteredKeepsMarker | CacheActiveQuery.php:334-357 | with a WHERE clause, a table holds the marker after the fill exactly when it held it before: the fill sets the marker only for a query without WHERE |
| DropRules.AppendGrows | CacheActiveQuery.php:352 | an append only lengthens one list at its end |
| DropRules.FillLeavesGrows | CacheActiveQuery.php:336-354 | every list after the WHERE loop starts with the list it had before |
| DropRules.FillTableGrows | CacheActiveQuery.php:330-357 | with a WHERE clause, one iteration only lengthens lists, at their ends, in every table |
| DropRules.FillLeavesRecords | CacheActiveQuery.php:336-354 | each comparison with a kept operator is recorded as `[column, value]` under its column, with the table qualifier removed |
| DropRules.FillTableRecords | CacheActiveQuery.php:330-354 | one iteration that does not throw records each kept comparison as `[column, value]` in its table |
| DropRules.FillRecordsLeaf | CacheActiveQuery.php:330-357 | after a fill that does not throw, each kept comparison is recorded under its column in every FROM table |
| DropRules.FillLeavesEntries | CacheActiveQuery.php:336-352 | the WHERE loop, when it does not throw, leaves under each key its old list followed by exactly one `[column, value]` per comparison with a kept operator on that column, in WHERE order; comparisons with excluded operators add nothing, even beside kept ones |
| DropRules.FillTableEntries | CacheActiveQuery.php:330-354 | one iteration with a WHERE clause appends exactly those entries to its table's lists |
| DropRules.FillEntries | CacheActiveQuery.php:328-361 | a whole fill with a WHERE clause that does not throw appends those entries to each table's lists once per occurrence of the table in the FROM list, and nothing else: a table outside the list keeps its lists |
| DropRules.Excluded | CacheActiveQuery.php:337-348 | the six operators `NOT IN`, `!=`, `>`, `<`, `>=`, `<=`, compared strictly, are skipped; `DropRules.FillLeavesExcluded` states that they add nothing |
| DropRules.LeafColumn | CacheActiveQuery.php:351 | the column with every `{{table}}.` removed in any letter case; `Php.RemoveAbsent` and `Php.RemoveLeadingQualifier` state what that leaves |
| DropRules.FillLeavesThrows | CacheActiveQuery.php:336-352 | the WHERE loop of one table throws exactly when the table already holds `create => true` and some kept comparison names the column `create` |
| DropRules.FillTableThrows | CacheActiveQuery.php:330-354 | with a WHERE clause, one iteration throws exactly when its table already holds the marker and some kept comparison names `create` |
| DropRules.FillThrows | CacheActiveQuery.php:328-361 | with a WHERE clause, the fill throws exactly when some FROM table already holds the marker and some kept comparison names `create` in it; so a fill whose kept comparisons never name `create` never throws |
| DropRules.OnUpdateAppends | CacheActiveQuery.php:258-263 | an update that does not throw leaves the param's list as it was, with the new entry at its end |
| DropRules.FillLeavesStopsAtThrow | CacheActiveQuery.php:336-354 | once a comparison throws, the later ones are not reached |
| DropRules.FillStopsAtThrow | CacheActiveQuery.php:330-358 | once a table's iteration throws, the later FROM tables are not reached |
| Tags.ListTags | CacheActiveQuery.php:290-292 | one `[dep, x]` tag per alternative, in list order |
| Tags.SingleTagGroups | CacheActiveQuery.php:304-307 | one single-tag group `[[p, x]]` per list element, in list order |
| Tags.ConditionTags | CacheActiveQuery.php:286-301 | the one group of a conditions entry; its contents are stated by `Tags.ConditionTagsSound` and `Tags.ConditionTagsComplete` |
| Tags.ConditionTagsSound | CacheActiveQuery.php:286-301 | every tag of a conditions group is `[dep, x]` for a dependency and one of its values or alternatives |
| Tags.ConditionTagsComplete | CacheActiveQuery.php:286-301 | every dependency value, and every alternative of a list, has its `[dep, x]` tag in the group |
| Tags.ExpandEntry | CacheActiveQuery.php:282-314 | the groups of one list entry: `[[key, '*']]`, the conditions group, `[[c, v]]`, or one single-tag group per alternative |
| Tags.ExpandBucket | CacheActiveQuery.php:279-315 | the groups of one key: one empty group for `create => true`, otherwise the groups of its entries in list order |
| Tags.ExpandTable | CacheActiveQuery.php:277-318 | the groups of a table, key after key in insertion order; what they contain is stated by `Tags.EntryGroupInTable` and `Tags.TableTagsJustified` |
| Tags.ExpandEntryJustified | CacheActiveQuery.php:282-314 | every tag of an entry's groups names a column and value the entry names (`'*'` under its key for an update without conditions) |
| Tags.Materialise | CacheActiveQuery.php:274-320 | exactly one `[table, groups]` per table of the rule map, in insertion order, each with that table's groups |
| Tags.MaterialiseTables | CacheActiveQuery.php:274-320 | one `[table, groups]` per table, in the order given, each with that table's groups |
| Tags.EntryGroupInTable | CacheActiveQuery.php:275-320 | every group of an entry recorded under a key is a group of its table |
| Tags.TableTagsJustified | CacheActiveQuery.php:275-320 | every tag in a table's groups comes from an entry recorded in that table: no tag is invented |
| Tags.RecordedPairFires | CacheActiveQuery.php:304-310 | a recorded `[column, value]` entry gives its table a group that a write setting the column to the value, or to one of its alternatives, fires |
| Tags.FillCoversLeaf | CacheActiveQuery.php:336-352 | a write that sets a kept WHERE column to the compared value, or to one of its IN alternatives, fires a group of every FROM table |
| Tags.MarkerOnlyExpands | CacheActiveQuery.php:279-280 | a table whose only rule is `create => true` gives exactly one group, the empty one |
| Tags.UnfilteredFiresOnEveryWrite | CacheActiveQuery.php:279-280 | a query without WHERE on a table without rules gives that table the single empty group, which every write fires |
| Tags.ExcludedOnlyNeverFires | CacheActiveQuery.php:334-357 | a WHERE clause whose operators are all excluded gives a table without rules no group, so no write fires it |
| Tags.ConditionsGroupNeedsAll | CacheActiveQuery.php:284-302 | a conditions entry is exactly one group, which fires exactly when the row sets every dependency to every one of its values (any value for `'*'`) |
| Tags.AlternativesNeverFire | CacheActiveQuery.php:288-292 | a dependency with two different alternatives, neither of them `'*'`, makes its group impossible to fire |
| Tags.StarFiresOnColumn | CacheActiveQuery.php:313 | an update rule without conditions is the one group `[[column, '*']]`, which fires exactly on a write that sets the column, whatever the value |
| Tags.UpdateWithoutConditionsFires | CacheActiveQuery.php:245-265 | after `dropCacheOnUpdate($param)` without conditions, every write to the table that sets the param's column fires a group of the table |
| CacheKeys.Pagination | CacheActiveQuery.php:200-205 | `limit<n>` only for a positive limit, then `offset<n>` only for a positive offset; `CacheKeys.PaginationInjective` states that it determines both |
| CacheKeys.PreHash | CacheActiveQuery.php:195-205 | the text that is hashed; its properties are stated by `CacheKeys.ModesDiffer`, `CacheKeys.ModelClassCaseInsensitive` and `CacheKeys.PreHashPagination` |
| CacheKeys.CacheKey | CacheActiveQuery.php:193-208 | the key is `q:` followed by the digest of the pre-hash text |
| CacheKeys.ModesDiffer | CacheActiveQuery.php:195 | an `all()` key and a `one()` key never hash the same text, whatever the class, SQL and pagination |
| CacheKeys.ModelClassCaseInsensitive | CacheActiveQuery.php:195 | model class names that differ only in ASCII case give the same text |
| CacheKeys.PaginationInjective | CacheActiveQuery.php:200-205 | the pagination suffix determines the effective limit and offset |
| CacheKeys.PreHashPagination | CacheActiveQuery.php:200-205 | for one mode, class and SQL, two paginations give the same text exactly when their positive parts agree (a limit or offset of 0 or less adds nothing) |
| HitPath.FoundRow | CacheActiveQuery.php:113-121 | on a miss `one()` stores the model it found and returns it, and stores nothing and returns null when it found none; `HitPath.OneRoundTrip` states that the stored row reads back |
| HitPath.OneFromCache | CacheActiveQuery.php:100-111 | a missing entry or a falsy string is a miss; the string `'null'`, and only it, is a hit returning null; any other value is returned as stored |
| HitPath.OneRoundTrip | CacheActiveQuery.php:112-115 | a row `one()` found and stored is read back as that row; when no row was found nothing is stored, so the next lookup behaves as before |
| HitPath.AllFromCache | CacheActiveQuery.php:46-47 | a hit exactly when a non-empty array is stored, returning it |
| HitPath.AllMissWrite | CacheActiveQuery.php:78-81 | a write exactly when the database result is non-empty, storing that result |
| HitPath.AllRoundTrip | CacheActiveQuery.php:64-81 | what `all()` stored is, without a string `indexBy`, returned unchanged by the next `all()` |
| HitPath.HitKey | CacheActiveQuery.php:65-72 | the index a cached model gets: its own key, or with a string `indexBy` the key cast of that attribute, or a throw when the model lacks it; `HitPath.ReindexThrows` and `HitPath.IndexedKeys` state the result |
| HitPath.Reindex | CacheActiveQuery.php:64-74 | the hit branch of `all()` rebuilding the cached array; without a string `indexBy` it never throws |
| HitPath.ReindexVisible | CacheActiveQuery.php:64-74 | without a string `indexBy`, the rebuild reassigns every listed key its value, in the same order |
| HitPath.ReindexKeepsKeys | CacheActiveQuery.php:64-74 | without a string `indexBy`, the rebuilt array is the cached array |
| HitPath.ReindexThrows | CacheActiveQuery.php:70-72 | with a string `indexBy`, the rebuild throws exactly when some cached model lacks the attribute |
| HitPath.IndexedShape | CacheActiveQuery.php:64-74 | the rebuilt array is a valid PHP array with no more entries than the cached one |
| HitPath.IndexedKeys | CacheActiveQuery.php:64-74 | its keys are exactly the attribute values of the cached models, after the PHP key cast |
| HitPath.IndexedLastWins | CacheActiveQuery.php:73 | each key holds the last cached model with that attribute value: a later duplicate overwrites an earlier one |
| QueryCache.AppendListTags | CacheActiveQuery.php:290-292 | the loop appends exactly one `[dep, x]` tag per alternative, in list order |
| QueryCache.CollectConditionTags | CacheActiveQuery.php:286-301 | the loop builds exactly `Tags.ConditionTags` |
| QueryCache.CollectEntryGroups | CacheActiveQuery.php:282-314 | the loop builds exactly the groups of one entry |
| QueryCache.CollectBucketGroups | CacheActiveQuery.php:279-315 | one empty group for `create => true`, otherwise the groups of each entry in list order |
| QueryCache.CollectTableConditions | CacheActiveQuery.php:277-318 | the loop builds exactly the table's groups, key after key |
| QueryCache.CollectConditions | CacheActiveQuery.php:274-320 | the loop builds exactly one `[table, groups]` per table of the rule map, in insertion order |
| QueryCache.IndexCachedRows | CacheActiveQuery.php:64-74 | the loop builds exactly the rebuilt array, or reports the throw |
| QueryCache.CacheActiveQuery.constructor | CacheActiveQuery.php:21-22 | a new query has no rules, has the cache on, and satisfies the invariant |
| QueryCache.CacheActiveQuery.IsCacheEnabled | CacheActiveQuery.php:24-30 | the cache is on exactly when neither the query's own switch nor `DISABLE_AR_CACHE` is set; `NoCache` and `AsArray` state how it is switched off |
| QueryCache.CacheActiveQuery.NoCache | CacheActiveQuery.php:376-381 | afterwards the cache is off whatever the global flag; nothing else changes |
| QueryCache.CacheActiveQuery.AsArray | CacheActiveQuery.php:128-135 | `asArray(true)` turns the cache off; `asArray(false)` leaves it as it was; the rules are unchanged |
| QueryCache.CacheActiveQuery.DropCacheOnCreate | CacheActiveQuery.php:216-237 | the rule map becomes `DropRules.OnCreate` of the old one, and the call fails exactly when that throws; the invariant is kept |
| QueryCache.CacheActiveQuery.DropCacheOnUpdate | CacheActiveQuery.php:245-265 | the rule map becomes `DropRules.OnUpdate` of the old one, and the call fails exactly when that throws; the invariant is kept |
| QueryCache.CacheActiveQuery.GenerateCacheKey | CacheActiveQuery.php:193-208 | returns `CacheKeys.CacheKey` for the query; its only state change is `DropRules.MarkUnfiltered` |
| QueryCache.CacheActiveQuery.FillTableLeaves | CacheActiveQuery.php:335-354 | the WHERE loop for one table computes exactly `DropRules.FillLeaves`, stopping at the first throw |
| QueryCache.CacheActiveQuery.FillTableRules | CacheActiveQuery.php:331-357 | one iteration over the FROM tables changes the rule map exactly as `DropRules.FillTable` says |
| QueryCache.CacheActiveQuery.FillDropConditions | CacheActiveQuery.php:328-361 | the rule map becomes `DropRules.Fill` of the old one, and the call fails exactly when that throws; the invariant is kept |
| QueryCache.CacheActiveQuery.GetDropConditions | CacheActiveQuery.php:270-323 | fills, then returns `Tags.Materialise` of the filled map; the invariant is kept |
| QueryCache.CacheActiveQuery.All | CacheActiveQuery.php:35-86 | with the cache off, the database answer and no write. With it on, on a hit the rebuilt cached array and no write; on a miss the database answer, written with the filled rules' tags only when it is non-empty |
| QueryCache.CacheActiveQuery.One | CacheActiveQuery.php:91-122 | with the cache off, the database row. With it on, on a hit the decoded stored value; on a miss the found row, written with the filled rules' tags only when a row was found |

## Left out

- SQL building and running are part of the framework, not this class. This covers `createCommand`, `rawSql`, `parent::all` and `parent::one`. The raw SQL, the rows `all()` fetches and the row `one()` finds are inputs of `All` and `One`.
- The WHERE parser (`getParsedWhere`, CacheActiveQuery.php:366-370) is not part of this model. Its result is the input `parsedWhere`, and `whereCount` is the size of the raw WHERE array.
- The store is a map passed in for reading, and a returned `CacheWrite` for writing. The TTL, compression, serialisation, JSON encoding and the server-side script that attaches the tags are left out. md5 is the parameter `digest`.
- `DISABLE_AR_CACHE` is the parameter `globalDisabled`, which means "defined and truthy". `ActiveQueryCacheHelper::initialize` is left out.
- Relation population on a hit (CacheActiveQuery.php:50-63) and the `afterFind` hooks are ORM callbacks, and they are left out.
- Cloning the models and setting `fromCache` before storing (CacheActiveQuery.php:143-172) is left out. The payload is the answer itself, with its keys as they were.
- `deleteAll` and `any` only pass calls on to other code, and they are left out.
- The chaining methods return `$this` in PHP. Here they return nothing, or a flag saying whether PHP threw.
- Model class, table, FROM list, WHERE, limit, offset and `indexBy` are constants of the object. The framework's builder methods that set them are not part of this class.
- Values are `null`, strings, ints, or lists of these. Floats, booleans and nested arrays are left out, and so is a non-array truthy `$conditions` passed to `dropCacheOnUpdate`.
- Column names and params are always strings. PHP's cast of numeric-string array keys to ints is modelled only for the `indexBy` keys of `all()`, and there without the platform integer range.
- In a rebuilt `all()` hit, array rows would read a missing `indexBy` attribute as null rather than throw. The model treats every cached row as a model, because `asArray(true)` turns the cache off.
- Before PHP 8.2, `strtolower` and `str_ireplace` folded letters according to the locale. The model folds ASCII letters only.
- Before PHP 8.0, appending to the marker `true` is a warning ("Cannot use a scalar value as an array"). The append has no effect and the loop goes on. The model follows PHP 8.0, where it throws.
- `whereCount` is `count($this->where)` (CacheActiveQuery.php:196 and :334) for a WHERE that is an array. From PHP 8.0 on, `count` throws a `TypeError` for a WHERE that is not an array, such as a string condition or the unset `null`. From PHP 7.2 to 7.4 it warns and gives 0 for `null` and 1 for a string; before 7.2 `count(null)` gives 0 without a warning. The model takes `whereCount` as given and does not model that `TypeError`.
- The matching of tags against a write happens outside this class. `Tags.Holds` gives `'*'` the wildcard meaning this model assumes for that external script, so a WHERE value that is the string `'*'` is a wildcard too.
- `All` reads a store of `Rows` and `One` a store of `Stored`, while the source uses one store for both. The split is sound only because `CacheKeys.ModesDiffer` keeps the two modes' key texts apart and the digest is assumed never to collide; md5 collisions are not modelled.
- `AsArray` takes its argument explicitly. PHP's default `$value = true` (CacheActiveQuery.php:128) is not modelled, because Dafny methods have no default arguments.
- PHP errors other than appending to the `create` marker are left out, for example database and store failures.
