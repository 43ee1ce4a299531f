/** mnemonic/news/utils/queryset_utils.py: the per-database lookup cache of
    `CachedManager`, the save-one-by-one fallback of `bulk_create` and the
    offset-paginated `queryset_iterator`. A model instance is represented by
    the value of its fields. */
module QuerysetUtils {
  import opened Wrappers
  import opened Text
  import opened PyValues
  import opened Arith

  /** `**kwargs`, in the order the caller wrote them. */
  type Kwargs = seq<(string, Value)>

  const StopIterationError := Error("StopIteration", "")

  /** `self._cache`: a `defaultdict(dict)` from database alias to the
      objects cached for it. */
  type ManagerCache = map<string, map<Value, Value>>

  /** `self._cache[db]`, which the defaultdict creates empty on first use. */
  function CacheFor(cache: ManagerCache, db: string): map<Value, Value> {
    if db in cache then cache[db] else map[]
  }

  /** The outcome of one `get_cached` call: what it returns, the cache
      afterwards, and whether it went to the database. */
  datatype Lookup = Lookup(result: Result<Value>, cache: ManagerCache, queried: bool)

  /** One `get_cached(**kwargs)` call whose miss is stored under the key
      `storeKey` picks from the first keyword argument. `query` stands for
      `self.get(**kwargs)`, which fails with DoesNotExist or
      MultipleObjectsReturned. */
  function LookupWith(cache: ManagerCache, db: string, kwargs: Kwargs, query: Kwargs -> Result<Value>,
                      storeKey: (string, Value) -> Value): (r: Lookup)
    ensures kwargs == [] ==> r == Lookup(Failure(StopIterationError), cache, false)
    ensures kwargs != [] ==> r.cache.Keys == cache.Keys + {db}
    ensures kwargs != [] ==> forall d :: d in cache && d != db ==> r.cache[d] == cache[d]
    ensures kwargs != [] && !Hashable(kwargs[0].1) ==>
      r == Lookup(Failure(UnhashableError), cache[db := CacheFor(cache, db)], false)
    ensures kwargs != [] && Hashable(kwargs[0].1) && kwargs[0].1 in CacheFor(cache, db) ==>
      r == Lookup(Success(CacheFor(cache, db)[kwargs[0].1]), cache[db := CacheFor(cache, db)], false)
    ensures kwargs != [] && Hashable(kwargs[0].1) && kwargs[0].1 !in CacheFor(cache, db) ==>
      && r.queried && r.result == query(kwargs)
      && r.cache[db] == (if r.result.Success? then CacheFor(cache, db)[storeKey(kwargs[0].0, kwargs[0].1) := r.result.value]
                         else CacheFor(cache, db))
  {
    if kwargs == [] then Lookup(Failure(StopIterationError), cache, false)
    else
      var (key, value) := kwargs[0];
      var forDb := CacheFor(cache, db);
      if !Hashable(value) then Lookup(Failure(UnhashableError), cache[db := forDb], false)
      else if value in forDb then Lookup(Success(forDb[value]), cache[db := forDb], false)
      else
        match query(kwargs)
        case Success(obj) => Lookup(Success(obj), cache[db := forDb[storeKey(key, value) := obj]], true)
        case Failure(e) => Lookup(Failure(e), cache[db := forDb], true)
  }

  /** Line 28 as written: the object is stored under the field name. */
  function StoredUnderFieldName(key: string, value: Value): Value {
    VStr(key)
  }

  /** What the lookup on line 25 evidently expects: the object stored under
      the value it was looked up by. */
  function StoredUnderValue(key: string, value: Value): Value {
    value
  }

  /** `get_cached` as written. */
  function GetCachedAsWritten(cache: ManagerCache, db: string, kwargs: Kwargs, query: Kwargs -> Result<Value>): Lookup {
    LookupWith(cache, db, kwargs, query, StoredUnderFieldName)
  }

  /** `get_cached` with the store key corrected. */
  function GetCachedFixed(cache: ManagerCache, db: string, kwargs: Kwargs, query: Kwargs -> Result<Value>): Lookup {
    LookupWith(cache, db, kwargs, query, StoredUnderValue)
  }

  /** As written, a repeated call never hits: after a successful miss the
      same call goes to the database again (unless the value happens to be
      the field name itself). */
  lemma AsWrittenRepeatMisses(cache: ManagerCache, db: string, key: string, value: Value, query: Kwargs -> Result<Value>)
    requires Hashable(value) && value != VStr(key) && value !in CacheFor(cache, db)
    requires query([(key, value)]).Success?
    ensures var first := GetCachedAsWritten(cache, db, [(key, value)], query);
      && first.queried
      && GetCachedAsWritten(first.cache, db, [(key, value)], query).queried
  {
    var first := GetCachedAsWritten(cache, db, [(key, value)], query);
    assert first.cache[db] == CacheFor(cache, db)[VStr(key) := query([(key, value)]).value];
  }

  /** As written, a later lookup whose value is an earlier call's field name
      is served the earlier call's object without a query: `get_cached(
      name='x')` followed by `get_cached(handle='name')` returns the object
      named 'x'. */
  lemma AsWrittenServesWrongObject(cache: ManagerCache, db: string, key: string, value: Value,
                                   otherKey: string, query: Kwargs -> Result<Value>)
    requires Hashable(value) && value !in CacheFor(cache, db)
    requires query([(key, value)]).Success?
    ensures var first := GetCachedAsWritten(cache, db, [(key, value)], query);
      GetCachedAsWritten(first.cache, db, [(otherKey, VStr(key))], query)
        == Lookup(Success(query([(key, value)]).value), first.cache, false)
  {
    var first := GetCachedAsWritten(cache, db, [(key, value)], query);
    assert first.cache[db] == CacheFor(cache, db)[VStr(key) := query([(key, value)]).value];
    assert first.cache[db := CacheFor(first.cache, db)] == first.cache;
  }

  /** Corrected, the second identical call is a hit that returns the object
      the first one fetched and leaves the cache as it is. */
  lemma FixedRepeatHits(cache: ManagerCache, db: string, kwargs: Kwargs, query: Kwargs -> Result<Value>)
    requires kwargs != [] && Hashable(kwargs[0].1)
    requires GetCachedFixed(cache, db, kwargs, query).result.Success?
    ensures var first := GetCachedFixed(cache, db, kwargs, query);
      GetCachedFixed(first.cache, db, kwargs, query) == Lookup(first.result, first.cache, false)
  {
    var first := GetCachedFixed(cache, db, kwargs, query);
    assert first.cache[db := CacheFor(first.cache, db)] == first.cache;
  }

  /** `CachedManager`: the cache is the manager's own state. `db` is the
      database alias the manager reads from (`self.db`). */
  class CachedManager {
    const db: string
    var cache: ManagerCache

    constructor (db: string)
      ensures this.db == db && cache == map[]
    {
      this.db := db;
      cache := map[];
    }

    /** `clear_cache` */
    method ClearCache()
      modifies this
      ensures cache == map[]
    {
      cache := map[];
    }

    /** `get_cached(**kwargs)`, with the object stored under the value it
        is looked up by (`GetCachedAsWritten` is the line as written). */
    method GetCached(kwargs: Kwargs, query: Kwargs -> Result<Value>) returns (r: Result<Value>)
      modifies this
      ensures var l := GetCachedFixed(old(cache), db, kwargs, query);
        r == l.result && cache == l.cache
    {
      if kwargs == [] {
        return Failure(StopIterationError);
      }
      var (key, value) := kwargs[0];
      if db !in cache {
        cache := cache[db := map[]];
      }
      if !Hashable(value) {
        return Failure(UnhashableError);
      }
      if value in cache[db] {
        return Success(cache[db][value]);
      }
      r := query(kwargs);
      if r.Success? {
        cache := cache[db := cache[db][StoredUnderValue(key, value) := r.value]];
      }
    }
  }

  /** After `clear_cache` every lookup misses, whatever the database. */
  lemma ClearedCacheMisses(db: string, kwargs: Kwargs, query: Kwargs -> Result<Value>)
    requires kwargs != [] && Hashable(kwargs[0].1)
    ensures GetCachedAsWritten(map[], db, kwargs, query).queried
    ensures GetCachedFixed(map[], db, kwargs, query).queried
  {
  }

  // ---- bulk_create ----

  const DuplicateKeyText := "duplicate key value violates unique constraint"

  /** The error the fallback loop swallows: an IntegrityError whose message
      holds the unique-constraint text. */
  predicate IsDuplicateKey(e: Error) {
    e.kind == "IntegrityError" && Contains(e.message, DuplicateKeyText)
  }

  /** The save-one-by-one loop of `bulk_create(objs, should_bulk_create=False)`
      on a table holding `rows`: `save(rows, obj)` is what `obj.save()` does
      against the table as it then stands. Returns the rows afterwards and
      the outcome. */
  function Fallback(rows: seq<Value>, objs: seq<Value>, save: (seq<Value>, Value) -> Outcome): (r: (seq<Value>, Outcome))
    ensures r.1.Fail? ==> !IsDuplicateKey(r.1.error)
    decreases |objs|
  {
    if objs == [] then (rows, Pass)
    else
      match save(rows, objs[0])
      case Pass => Fallback(rows + [objs[0]], objs[1..], save)
      case Fail(e) =>
        if IsDuplicateKey(e) then Fallback(rows, objs[1..], save)
        else (rows, Fail(e))
  }

  /** The fallback only ever adds rows, in the order of `objs`: the table
      afterwards is the old one followed by a subsequence of the objects. */
  lemma {:induction false} FallbackAppendsInOrder(rows: seq<Value>, objs: seq<Value>, save: (seq<Value>, Value) -> Outcome)
    ensures |Fallback(rows, objs, save).0| >= |rows|
    ensures Fallback(rows, objs, save).0[..|rows|] == rows
    ensures IsSubsequence(Fallback(rows, objs, save).0[|rows|..], objs)
    decreases |objs|
  {
    if objs != [] {
      match save(rows, objs[0])
      case Pass =>
        var rows' := rows + [objs[0]];
        FallbackAppendsInOrder(rows', objs[1..], save);
        var out := Fallback(rows', objs[1..], save).0;
        assert out[..|rows|] == rows' [..|rows|] == rows;
        assert out[|rows|..] == [objs[0]] + out[|rows'|..];
        assert out[|rows|..][1..] == out[|rows'|..];
      case Fail(e) =>
        if IsDuplicateKey(e) {
          FallbackAppendsInOrder(rows, objs[1..], save);
        } else {
          assert Fallback(rows, objs, save).0[|rows|..] == [];
          EmptyIsSubsequence(objs);
        }
    }
  }

  /** `a` is `b` with some elements left out. */
  predicate IsSubsequence<T(==)>(a: seq<T>, b: seq<T>)
    decreases |b|
  {
    if b == [] then a == []
    else (a != [] && a[0] == b[0] && IsSubsequence(a[1..], b[1..])) || IsSubsequence(a, b[1..])
  }

  lemma {:induction false} EmptyIsSubsequence<T>(b: seq<T>)
    ensures IsSubsequence([], b)
    decreases |b|
  {
    if b != [] {
      EmptyIsSubsequence(b[1..]);
    }
  }

  /** One object's save against the table as it stands: saved and
      appended, refused as a duplicate and skipped, or the error that
      ends the loop. */
  function SaveOne(rows: seq<Value>, obj: Value, save: (seq<Value>, Value) -> Outcome): (seq<Value>, Outcome) {
    match save(rows, obj)
    case Pass => (rows + [obj], Pass)
    case Fail(e) => if IsDuplicateKey(e) then (rows, Pass) else (rows, Fail(e))
  }

  /** The loop read from its end: one more object is one more save against
      the table the earlier ones left, unless those already failed. */
  lemma {:induction false} FallbackSnoc(rows: seq<Value>, objs: seq<Value>, obj: Value, save: (seq<Value>, Value) -> Outcome)
    ensures Fallback(rows, objs + [obj], save)
      == (var p := Fallback(rows, objs, save); if p.1.Fail? then p else SaveOne(p.0, obj, save))
    decreases |objs|
  {
    if objs == [] {
      assert [obj][1..] == [];
      assert Fallback(rows, [], save) == (rows, Pass);
    } else {
      assert (objs + [obj])[0] == objs[0];
      assert (objs + [obj])[1..] == objs[1..] + [obj];
      match save(rows, objs[0])
      case Pass => FallbackSnoc(rows + [objs[0]], objs[1..], obj, save);
      case Fail(e) =>
        if IsDuplicateKey(e) {
          FallbackSnoc(rows, objs[1..], obj, save);
        }
    }
  }

  /** The object at `i` is where the loop stops: the saves before it all
      passed or were refused as duplicates, and its own save, against the
      table they left, fails some other way. */
  predicate StopsAt(rows: seq<Value>, objs: seq<Value>, save: (seq<Value>, Value) -> Outcome, i: int) {
    && 0 <= i < |objs|
    && var p := Fallback(rows, objs[..i], save);
    && p.1 == Pass
    && save(p.0, objs[i]).Fail?
    && !IsDuplicateKey(save(p.0, objs[i]).error)
  }

  /** The object at `i` is reached with every earlier save passed or
      refused as a duplicate, and is itself either saved and appended to
      the table they left or refused as a duplicate and skipped. */
  predicate PassesAt(rows: seq<Value>, objs: seq<Value>, save: (seq<Value>, Value) -> Outcome, i: int) {
    && 0 <= i < |objs|
    && var t := Fallback(rows, objs[..i], save).0;
    && var next := Fallback(rows, objs[..i + 1], save);
    && Fallback(rows, objs[..i], save).1 == Pass
    && next.1 == Pass
    && ((save(t, objs[i]).Pass? && next.0 == t + [objs[i]])
        || (save(t, objs[i]).Fail? && IsDuplicateKey(save(t, objs[i]).error) && next.0 == t))
  }

  /** The fallback object by object: it fails exactly when some object's
      save, reached with every earlier one passed or refused as a
      duplicate, fails otherwise, and then its table is the one that
      object was saved against and its error that save's. When it passes,
      each object in turn was either saved and appended or refused as a
      duplicate and skipped. */
  lemma {:induction false} FallbackByPrefix(rows: seq<Value>, objs: seq<Value>, save: (seq<Value>, Value) -> Outcome)
    ensures Fallback(rows, objs, save).1.Fail? <==> exists i :: StopsAt(rows, objs, save, i)
    ensures forall i :: StopsAt(rows, objs, save, i) ==>
      var t := Fallback(rows, objs[..i], save).0;
      Fallback(rows, objs, save) == (t, save(t, objs[i]))
    ensures Fallback(rows, objs, save).1.Pass? ==> forall i :: 0 <= i < |objs| ==> PassesAt(rows, objs, save, i)
    decreases |objs|
  {
    var n := |objs|;
    if n > 0 {
      var q := objs[..n - 1];
      var obj := objs[n - 1];
      assert objs == q + [obj];
      FallbackByPrefix(rows, q, save);
      FallbackSnoc(rows, q, obj, save);
      forall i | 0 <= i <= n - 1
        ensures objs[..i] == q[..i]
      {
      }
      forall i | 0 <= i < n - 1
        ensures StopsAt(rows, objs, save, i) <==> StopsAt(rows, q, save, i)
      {
        assert objs[i] == q[i];
      }
      forall i | StopsAt(rows, objs, save, i)
        ensures var t := Fallback(rows, objs[..i], save).0;
          Fallback(rows, objs, save) == (t, save(t, objs[i]))
      {
        if i < n - 1 {
          assert StopsAt(rows, q, save, i);
        }
      }
      if Fallback(rows, objs, save).1.Fail? {
        if Fallback(rows, q, save).1.Fail? {
          var i :| StopsAt(rows, q, save, i);
          assert StopsAt(rows, objs, save, i);
        } else {
          assert StopsAt(rows, objs, save, n - 1);
        }
      } else {
        assert Fallback(rows, q, save).1 == Pass;
        forall i | 0 <= i < n
          ensures PassesAt(rows, objs, save, i)
        {
          if i < n - 1 {
            assert PassesAt(rows, q, save, i);
            assert objs[..i + 1] == q[..i + 1];
            assert objs[i] == q[i];
          } else {
            assert objs[..i + 1] == objs && objs[..i] == q && objs[i] == obj;
            var t := Fallback(rows, q, save).0;
            assert Fallback(rows, objs, save) == SaveOne(t, obj, save);
          }
        }
      }
    }
  }

  /** A table whose only constraint is a unique key: saving an object whose
      key is taken raises the duplicate-key IntegrityError. */
  predicate HasKey(rows: seq<Value>, keyOf: Value -> Value, k: Value) {
    exists i | 0 <= i < |rows| :: keyOf(rows[i]) == k
  }

  const DuplicateKeyError := Error("IntegrityError", DuplicateKeyText + " \"pkey\"")

  function UniqueKeySave(keyOf: Value -> Value): (seq<Value>, Value) -> Outcome {
    (rows: seq<Value>, obj: Value) => if HasKey(rows, keyOf, keyOf(obj)) then Fail(DuplicateKeyError) else Pass
  }

  lemma DuplicateKeyErrorIsTolerated()
    ensures IsDuplicateKey(DuplicateKeyError)
  {
    assert OccursAt(DuplicateKeyError.message, DuplicateKeyText, 0);
  }

  lemma HasKeyInPrefix(rows: seq<Value>, out: seq<Value>, keyOf: Value -> Value, k: Value)
    requires |out| >= |rows| && out[..|rows|] == rows && HasKey(rows, keyOf, k)
    ensures HasKey(out, keyOf, k)
  {
    var i :| 0 <= i < |rows| && keyOf(rows[i]) == k;
    assert out[i] == rows[i];
  }

  /** Against a unique key the fallback always succeeds, and afterwards
      every object's key is in the table: saved by this run or already
      there, which is what tolerating duplicates is for. */
  lemma {:induction false} UniqueKeyFallbackCoversAll(rows: seq<Value>, objs: seq<Value>, keyOf: Value -> Value)
    ensures Fallback(rows, objs, UniqueKeySave(keyOf)).1 == Pass
    ensures forall j :: 0 <= j < |objs| ==> HasKey(Fallback(rows, objs, UniqueKeySave(keyOf)).0, keyOf, keyOf(objs[j]))
    decreases |objs|
  {
    var save := UniqueKeySave(keyOf);
    if objs != [] {
      DuplicateKeyErrorIsTolerated();
      var rows' := if HasKey(rows, keyOf, keyOf(objs[0])) then rows else rows + [objs[0]];
      assert HasKey(rows', keyOf, keyOf(objs[0])) by {
        if !HasKey(rows, keyOf, keyOf(objs[0])) {
          assert rows'[|rows|] == objs[0];
        }
      }
      assert Fallback(rows, objs, save) == Fallback(rows', objs[1..], save);
      UniqueKeyFallbackCoversAll(rows', objs[1..], keyOf);
      FallbackAppendsInOrder(rows', objs[1..], save);
      var out := Fallback(rows', objs[1..], save).0;
      HasKeyInPrefix(rows', out, keyOf, keyOf(objs[0]));
      forall j | 0 <= j < |objs| ensures HasKey(out, keyOf, keyOf(objs[j])) {
        if j > 0 {
          assert objs[j] == objs[1..][j - 1];
        }
      }
    }
  }

  /** The table `bulk_create` works on; `save` is how `obj.save()` fares. */
  class Table {
    var rows: seq<Value>

    constructor (rows: seq<Value>)
      ensures this.rows == rows
    {
      this.rows := rows;
    }

    /** `bulk_create(objs, should_bulk_create)`. The bulk path is one
        `bulk_create(objs, ignore_conflicts=True)` call into the ORM, whose
        effect `bulkInsert` stands for. */
    method BulkCreate(objs: seq<Value>, shouldBulkCreate: bool, save: (seq<Value>, Value) -> Outcome,
                      bulkInsert: (seq<Value>, seq<Value>) -> (seq<Value>, Outcome))
      returns (r: Outcome)
      modifies this
      ensures shouldBulkCreate ==> (rows, r) == bulkInsert(old(rows), objs)
      ensures !shouldBulkCreate ==> (rows, r) == Fallback(old(rows), objs, save)
    {
      if shouldBulkCreate {
        var result := bulkInsert(rows, objs);
        rows, r := result.0, result.1;
        return;
      }
      var i := 0;
      while i < |objs|
        invariant 0 <= i <= |objs|
        invariant Fallback(old(rows), objs, save) == Fallback(rows, objs[i..], save)
      {
        var outcome := save(rows, objs[i]);
        assert objs[i..][1..] == objs[i + 1..];
        if outcome.Fail? {
          if !IsDuplicateKey(outcome.error) {
            return outcome;
          }
        } else {
          rows := rows + [objs[i]];
        }
        i := i + 1;
      }
      r := Pass;
    }
  }

  // ---- queryset_iterator ----

  /** The `key` argument: a field name, a sequence of them, or None. */
  datatype OrderKey = KeyField(name: string) | KeyFields(names: seq<string>) | KeyNone

  /** `[key] if isinstance(key, str) else (key or ['pk'])` */
  function NormalizeKey(key: OrderKey): (r: seq<string>)
    ensures key.KeyField? ==> r == [key.name]
    ensures key.KeyFields? && key.names != [] ==> r == key.names
    ensures key.KeyNone? || key == KeyFields([]) ==> r == ["pk"]
    ensures r != []
  {
    match key
    case KeyField(name) => [name]
    case KeyFields(names) => if names == [] then ["pk"] else names
    case KeyNone => ["pk"]
  }

  const ZeroChunkError := Error("ZeroDivisionError", "integer division or modulo by zero")
  /** Django up to 3.2, the versions that still ship the `contrib.postgres`
      `JSONField` the models use, rejects a negative slice with an `assert`. */
  const NegativeSliceError := Error("AssertionError", "Negative indexing is not supported.")

  /** `queryset_iterator(queryset, chunksize, key)` run to the end over data
      that does not change meanwhile. `orderBy(fields)` stands for
      `queryset.all().order_by(*fields)`. Returns the items yielded and the
      page offsets fetched. A chunk size of 0 fails on `counter % 0`, a
      negative one on the slice, both before anything is yielded. */
  method QuerysetIterator(orderBy: seq<string> -> seq<Value>, chunksize: int, key: OrderKey)
    returns (r: Result<(seq<Value>, seq<int>)>)
    ensures chunksize == 0 ==> r == Failure(ZeroChunkError)
    ensures chunksize < 0 ==> r == Failure(NegativeSliceError)
    ensures chunksize > 0 ==> r.Success?
    ensures r.Success? ==>
      var (yielded, offsets) := r.value;
      var data := orderBy(NormalizeKey(key));
      && yielded == data
      && |offsets| == |data| / chunksize + 1
      && forall i :: 0 <= i < |offsets| ==> offsets[i] == i * chunksize
  {
    var fields := NormalizeKey(key);
    if chunksize == 0 {
      return Failure(ZeroChunkError);
    }
    if chunksize < 0 {
      return Failure(NegativeSliceError);
    }
    var data := orderBy(fields);
    var n := |data|;
    var yielded: seq<Value> := [];
    var offsets: seq<int> := [];
    var counter := 0;
    var count := chunksize;
    while count == chunksize
      invariant 0 <= counter <= n && 0 <= count <= chunksize
      invariant yielded == data[..counter]
      invariant forall i :: 0 <= i < |offsets| ==> offsets[i] == i * chunksize
      invariant count == chunksize ==> counter == |offsets| * chunksize
      invariant count < chunksize ==> counter == n && |offsets| >= 1 && counter == (|offsets| - 1) * chunksize + count
      decreases n - counter + (if count == chunksize then 1 else 0)
    {
      var offset := counter - counter % chunksize;
      assert counter % chunksize == 0 by {
        DivByParts(counter, chunksize, |offsets|, 0);
      }
      offsets := offsets + [offset];
      count := 0;
      var stop := if offset + chunksize <= n then offset + chunksize else n;
      var page := data[offset..stop];
      while count < |page|
        invariant 0 <= count <= |page|
        invariant yielded == data[..counter + count]
      {
        yielded := yielded + [page[count]];
        count := count + 1;
        assert data[..counter + count] == data[..counter + count - 1] + [page[count - 1]];
      }
      counter := counter + count;
    }
    assert n / chunksize == |offsets| - 1 by {
      DivByParts(n, chunksize, |offsets| - 1, count);
    }
    assert yielded == data;
    r := Success((yielded, offsets));
  }
}
