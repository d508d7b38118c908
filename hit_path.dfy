/** What `one()` and `all()` make of a value read from the store, and what
    they write back on a miss. Relation population and `afterFind` hooks
    are not part of this model. */
module HitPath {
  import opened Wrappers
  import opened Php
  import opened OrderedMaps

  /** A model's attributes, as `$model->{$name}` reads them. */
  type Model = map<string, Scalar>

  /** What a `one()` key can hold in the store: a string, or a model. */
  datatype Stored = Text(s: string) | Record(model: Model)

  datatype Lookup<T> = Miss | Hit(value: T)

  /** `one()` on a store read: nothing, or a falsy string, is a miss; the
      string 'null' is a hit whose result is null; anything else is a hit
      returning what was stored. */
  function OneFromCache(cached: Option<Stored>): (r: Lookup<Option<Stored>>)
    ensures r.Miss? <==> cached.None? || (cached.value.Text? && !Truthy(cached.value.s))
    ensures r == Hit(None) <==> cached == Some(Text("null"))
    ensures r.Hit? && r.value.Some? ==> cached == Some(r.value.value)
  {
    match cached
    case None => Miss
    case Some(Text(s)) =>
      if !Truthy(s) then Miss else if s == "null" then Hit(None) else Hit(Some(Text(s)))
    case Some(Record(m)) => Hit(Some(Record(m)))
  }

  /** The row the database query found, as `one()` returns it on a miss
      and stores it: null, and nothing stored, when there is none. */
  function FoundRow(found: Option<Model>): Option<Stored> {
    match found
    case None => None
    case Some(m) => Some(Record(m))
  }

  /** The store after an optional write under `key`. */
  function StoreAfter<T>(store: map<string, T>, key: string, w: Option<T>): map<string, T> {
    match w
    case None => store
    case Some(v) => store[key := v]
  }

  function Read<T>(store: map<string, T>, key: string): Option<T> {
    if key in store then Some(store[key]) else None
  }

  /** A row that `one()` found and stored is read back by the next `one()`
      as that same row; when no row was found nothing is stored, the
      sentinel 'null' included, so a key that missed misses again. */
  lemma OneRoundTrip(store: map<string, Stored>, key: string, found: Option<Model>)
    ensures found.Some? ==>
              OneFromCache(Read(StoreAfter(store, key, FoundRow(found)), key)) == Hit(Some(Record(found.value)))
    ensures found.None? ==>
              OneFromCache(Read(StoreAfter(store, key, FoundRow(found)), key)) == OneFromCache(Read(store, key))
  {
  }

  /** A PHP array of models, keyed as `all()` returns it. */
  type Rows = OMap<ArrayKey, Model>

  /** `all()` on a store read: nothing, or an empty array, is a miss. */
  function AllFromCache(cached: Option<Rows>): (r: Lookup<Rows>)
    ensures r.Hit? <==> cached.Some? && cached.value.keys != []
    ensures r.Hit? ==> r.value == cached.value
  {
    match cached
    case None => Miss
    case Some(rows) => if rows.keys == [] then Miss else Hit(rows)
  }

  /** What `all()` stores on a miss: only a non-empty result. */
  function AllMissWrite(models: Rows): (w: Option<Rows>)
    ensures w.Some? <==> models.keys != []
    ensures w.Some? ==> w.value == models
  {
    if models.keys == [] then None else Some(models)
  }

  /** The query's `indexBy`: unset, an attribute name, or a callable. */
  datatype IndexBy = NoIndex | ByAttribute(name: string) | ByCallable

  /** The key a cached model is put under on a hit: its attribute when
      `indexBy` is a string (a missing attribute throws), its original key
      otherwise. */
  function HitKey(key: ArrayKey, m: Model, indexBy: IndexBy): Option<ArrayKey> {
    match indexBy
    case ByAttribute(a) => if a in m then Some(KeyOf(m[a])) else None
    case _ => Some(key)
  }

  /** The array without its last key in the order; the values are kept,
      so only the order says which models the rebuild visits. */
  function Init(rows: Rows): Rows
    requires rows.keys != []
  {
    OMap(rows.keys[..|rows.keys| - 1], rows.vals)
  }

  /** The first `i` keys of the order. */
  function Prefix(rows: Rows, i: nat): Rows
    requires i <= |rows.keys|
  {
    OMap(rows.keys[..i], rows.vals)
  }

  /** The hit branch of `all()`: the cached array rebuilt model after
      model, in the array's order, with `$result[$index] = $model`; None
      when PHP throws. A key of the order without a value, which a PHP
      array never has, is passed over. */
  function Reindex(rows: Rows, indexBy: IndexBy): (r: Option<Rows>)
    ensures !indexBy.ByAttribute? ==> r.Some?
    decreases |rows.keys|
  {
    if rows.keys == [] then Some(Empty())
    else
      match Reindex(Init(rows), indexBy)
      case None => None
      case Some(acc) =>
        var key := rows.keys[|rows.keys| - 1];
        if key !in rows.vals then Some(acc)
        else
          match HitKey(key, rows.vals[key], indexBy)
          case None => None
          case Some(k) => Some(Put(acc, k, rows.vals[key]))
  }

  /** One more key of the order: the shorter prefix is what remains
      without it. */
  lemma PrefixInit(rows: Rows, i: nat)
    requires i < |rows.keys|
    ensures Init(Prefix(rows, i + 1)) == Prefix(rows, i)
    ensures Prefix(rows, i + 1).keys[i] == rows.keys[i]
  {
    assert rows.keys[..i + 1][..i] == rows.keys[..i];
  }

  /** The whole order is its own longest prefix. */
  lemma PrefixAll(rows: Rows)
    ensures Prefix(rows, |rows.keys|) == rows
  {
    assert rows.keys[..|rows.keys|] == rows.keys;
  }

  /** The values a rebuild without a string `indexBy` keeps: those of the
      keys in the order. */
  ghost function Visible(rows: Rows): Rows {
    OMap(rows.keys, map k | k in rows.vals && k in rows.keys :: rows.vals[k])
  }

  /** Dropping the last key keeps the order free of repeats and every
      key with a value; the dropped key is no longer in the order. */
  lemma InitShape(rows: Rows)
    requires rows.keys != [] && Distinct(rows.keys) && Listed(rows)
    ensures Distinct(Init(rows).keys) && Listed(Init(rows))
    ensures rows.keys[|rows.keys| - 1] !in Init(rows).keys
  {
    var n := |rows.keys| - 1;
    assert forall i :: 0 <= i < n ==> Init(rows).keys[i] == rows.keys[i];
  }

  /** The visible values grow by the last key's value, at the end. */
  lemma VisibleSnoc(rows: Rows)
    requires rows.keys != [] && Distinct(rows.keys) && Listed(rows)
    ensures var last := rows.keys[|rows.keys| - 1];
            Visible(rows) == Put(Visible(Init(rows)), last, rows.vals[last])
  {
    var n := |rows.keys| - 1;
    var last := rows.keys[n];
    InitShape(rows);
    var acc := Visible(Init(rows));
    var r := Put(acc, last, rows.vals[last]);
    assert rows.keys == rows.keys[..n] + [last];
    assert r.keys == Visible(rows).keys;
    assert r.vals == Visible(rows).vals;
  }

  lemma {:induction false} ReindexVisible(rows: Rows, indexBy: IndexBy)
    requires !indexBy.ByAttribute? && Distinct(rows.keys) && Listed(rows)
    ensures Reindex(rows, indexBy) == Some(Visible(rows))
    decreases |rows.keys|
  {
    if rows.keys != [] {
      InitShape(rows);
      ReindexVisible(Init(rows), indexBy);
      VisibleSnoc(rows);
    }
  }

  /** Without a string `indexBy`, a hit returns the cached array as it was. */
  lemma ReindexKeepsKeys(rows: Rows, indexBy: IndexBy)
    requires !indexBy.ByAttribute? && Valid(rows)
    ensures Reindex(rows, indexBy) == Some(rows)
  {
    ReindexVisible(rows, indexBy);
    assert Visible(rows).vals == rows.vals;
  }

  /** Some cached model, visited in the array's order, lacks the attribute. */
  predicate Lacks(rows: Rows, a: string) {
    exists i :: 0 <= i < |rows.keys| && rows.keys[i] in rows.vals && a !in rows.vals[rows.keys[i]]
  }

  lemma LacksStep(rows: Rows, a: string)
    requires rows.keys != []
    ensures var last := rows.keys[|rows.keys| - 1];
            Lacks(rows, a) <==> Lacks(Init(rows), a) || (last in rows.vals && a !in rows.vals[last])
  {
    var n := |rows.keys| - 1;
    var init := Init(rows);
    if Lacks(rows, a) {
      var i :| 0 <= i < |rows.keys| && rows.keys[i] in rows.vals && a !in rows.vals[rows.keys[i]];
      if i < n {
        assert init.keys[i] == rows.keys[i];
      }
    }
    if Lacks(init, a) {
      var i :| 0 <= i < n && init.keys[i] in rows.vals && a !in rows.vals[init.keys[i]];
      assert rows.keys[i] == init.keys[i];
    }
  }

  /** With an attribute `indexBy`, the hit throws exactly when some cached
      model lacks the attribute. */
  lemma {:induction false} ReindexThrows(rows: Rows, a: string)
    ensures Reindex(rows, ByAttribute(a)).None? <==> Lacks(rows, a)
    decreases |rows.keys|
  {
    if rows.keys != [] {
      ReindexThrows(Init(rows), a);
      LacksStep(rows, a);
    }
  }

  /** One cached model without the attribute makes the whole hit throw. */
  lemma ReindexMissingAttribute(rows: Rows, a: string, i: nat)
    requires i < |rows.keys| && rows.keys[i] in rows.vals && a !in rows.vals[rows.keys[i]]
    ensures Reindex(rows, ByAttribute(a)) == None
  {
    ReindexThrows(rows, a);
  }

  /** The attribute key of the i-th cached model. */
  function AttrKey(rows: Rows, a: string, i: nat): ArrayKey
    requires i < |rows.keys| && rows.keys[i] in rows.vals && a in rows.vals[rows.keys[i]]
  {
    KeyOf(rows.vals[rows.keys[i]][a])
  }

  /** The array a successful hit with an attribute `indexBy` returns. */
  function Indexed(rows: Rows, a: string): Rows
    requires !Lacks(rows, a)
  {
    ReindexThrows(rows, a);
    Reindex(rows, ByAttribute(a)).value
  }

  /** The prefix of a rebuild that succeeds succeeds too, and the rebuild
      assigns the last model under its attribute key. */
  lemma IndexedStep(rows: Rows, a: string)
    requires rows.keys != [] && Listed(rows) && !Lacks(rows, a)
    ensures Listed(Init(rows)) && !Lacks(Init(rows), a)
    ensures var n := |rows.keys| - 1;
            Indexed(rows, a) == Put(Indexed(Init(rows), a), AttrKey(rows, a, n), rows.vals[rows.keys[n]])
    ensures forall i :: 0 <= i < |rows.keys| - 1 ==> AttrKey(Init(rows), a, i) == AttrKey(rows, a, i)
  {
    var n := |rows.keys| - 1;
    assert forall i :: 0 <= i < n ==> Init(rows).keys[i] == rows.keys[i];
    LacksStep(rows, a);
    ReindexThrows(rows, a);
    ReindexThrows(Init(rows), a);
  }

  /** The rebuilt array is a valid PHP array with no more entries than the
      cached one. */
  lemma {:induction false} IndexedShape(rows: Rows, a: string)
    requires Listed(rows) && !Lacks(rows, a)
    ensures Valid(Indexed(rows, a)) && |Indexed(rows, a).keys| <= |rows.keys|
    decreases |rows.keys|
  {
    if rows.keys != [] {
      var n := |rows.keys| - 1;
      IndexedStep(rows, a);
      IndexedShape(Init(rows), a);
      PutValid(Indexed(Init(rows), a), AttrKey(rows, a, n), rows.vals[rows.keys[n]]);
    }
  }

  /** The keys of the rebuilt array are exactly the attribute keys of the
      cached models. */
  lemma {:induction false} IndexedKeys(rows: Rows, a: string)
    requires Listed(rows) && !Lacks(rows, a)
    ensures forall k :: k in Indexed(rows, a).vals <==> exists i :: 0 <= i < |rows.keys| && AttrKey(rows, a, i) == k
    decreases |rows.keys|
  {
    if rows.keys != [] {
      var n := |rows.keys| - 1;
      var init := Init(rows);
      IndexedStep(rows, a);
      IndexedKeys(init, a);
      var r := Indexed(rows, a);
      forall k ensures k in r.vals <==> exists i :: 0 <= i < |rows.keys| && AttrKey(rows, a, i) == k {
        if k in r.vals && k != AttrKey(rows, a, n) {
          var i :| 0 <= i < n && AttrKey(init, a, i) == k;
          assert AttrKey(rows, a, i) == k;
        }
        if exists i :: 0 <= i < |rows.keys| && AttrKey(rows, a, i) == k {
          var i :| 0 <= i < |rows.keys| && AttrKey(rows, a, i) == k;
          if i < n {
            assert AttrKey(init, a, i) == k;
          }
        }
      }
    }
  }

  /** No later cached model shares the i-th model's attribute key. */
  predicate LastWithKey(rows: Rows, a: string, i: nat)
    requires i < |rows.keys| && Listed(rows) && !Lacks(rows, a)
  {
    forall j :: i < j < |rows.keys| ==> AttrKey(rows, a, j) != AttrKey(rows, a, i)
  }

  /** Under each attribute key the rebuilt array holds the last cached
      model with that key: later duplicates overwrite earlier ones. */
  lemma {:induction false} IndexedLastWins(rows: Rows, a: string, i: nat)
    requires i < |rows.keys| && Listed(rows) && !Lacks(rows, a) && LastWithKey(rows, a, i)
    ensures AttrKey(rows, a, i) in Indexed(rows, a).vals
    ensures Indexed(rows, a).vals[AttrKey(rows, a, i)] == rows.vals[rows.keys[i]]
    decreases |rows.keys|
  {
    var n := |rows.keys| - 1;
    var init := Init(rows);
    IndexedStep(rows, a);
    var k := AttrKey(rows, a, i);
    if i < n {
      assert AttrKey(rows, a, n) != k;
      forall j | i < j < n ensures AttrKey(init, a, j) != AttrKey(init, a, i) {
        assert AttrKey(rows, a, j) != k;
      }
      IndexedLastWins(init, a, i);
    }
  }

  /** What `all()` stored on a miss comes back, on a hit without a string
      `indexBy`, as the same array. */
  lemma AllRoundTrip(store: map<string, Rows>, key: string, models: Rows, indexBy: IndexBy)
    requires models.keys != [] && Valid(models) && !indexBy.ByAttribute?
    ensures var cached := Read(StoreAfter(store, key, AllMissWrite(models)), key);
            AllFromCache(cached) == Hit(models) && Reindex(models, indexBy) == Some(models)
  {
    ReindexKeepsKeys(models, indexBy);
  }
}
